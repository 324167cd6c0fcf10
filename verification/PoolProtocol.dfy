/** The two fields of a connection handle, as values: what its moves and its destructor do to them. */
module HandleSlots {
  import opened Collections

  /** A handle variable: not constructed (or already destroyed), or alive with `pool_` set or null and `conn_`. */
  datatype Slot<+C> = Dead | Live(bound: bool, conn: Option<C>) {

    /** The guard under which a handle gives its connection back. */
    predicate Carries() {
      Live? && bound && conn.Some?
    }

    /** A handle whose pool pointer is null owns no connection. */
    predicate Tidy() {
      Live? && conn.Some? ==> bound
    }
  }

  /** What a handle is left with once it has been moved from. */
  function Husk<C>(): Slot<C> {
    Live(false, None)
  }
}

/**
 The connection pool as a protocol between any number of threads.  Every thread runs a script of
 handle operations over its own handle variables.  A critical section under the pool's mutex is one
 step; `notify_one` happens after the mutex is released, so it is a step of its own.
 */
module PoolProtocol {
  import opened Collections
  import opened HandleSlots

  datatype Op =
    | Acquire(h: nat)
    | AcquireFor(h: nat)
    | MoveConstruct(dst: nat, src: nat)
    | MoveAssign(dst: nat, src: nat)
    | Destroy(h: nat)

  /** Where a thread is.  `Returning` is inside ReturnConnection before the push, `Pushed` after it. */
  datatype Pc = Ready | Asleep | Woken | Returning(conn: int, checked: bool) | Pushed

  datatype Thread = Thread(pc: Pc, slots: seq<Slot<int>>, script: seq<Op>)

  /** Connections are identified by numbers; `open` holds the ones whose socket is still open. */
  datatype Pool = Pool(size: nat, queue: seq<int>, threads: seq<Thread>, open: set<int>, next: int, lost: nat)

  datatype Step =
    | Take(t: nat)                        // predicate holds: pop the front of the queue
    | Sleep(t: nat)                       // predicate fails: release the mutex and block
    | Local(t: nat)                       // a move or a destruction that gives nothing back
    | Surrender(t: nat)                   // enter ReturnConnection with the handle's connection
    | Check(t: nat, reconnects: bool)     // replace the connection if it is closed
    | Push(t: nat)
    | Lose(t: nat)                        // locking or pushing throws: the slot is gone
    | Notify(t: nat, wakes: Option<nat>)  // notify_one, then the rest of the handle operation
    | Spurious(t: nat)                    // a sleeper wakes without having been notified
    | Expire(t: nat)                      // a timed wait gives up on an empty queue
    | Close(c: int)                       // the server side closes a connection

  predicate Applicable<C>(slots: seq<Slot<C>>, op: Op) {
    match op
    case Acquire(h) => h < |slots| && slots[h].Dead?
    case AcquireFor(h) => h < |slots| && slots[h].Dead?
    case MoveConstruct(dst, src) => dst < |slots| && src < |slots| && slots[dst].Dead? && slots[src].Live?
    case MoveAssign(dst, src) => dst < |slots| && src < |slots| && slots[dst].Live? && slots[src].Live?
    case Destroy(h) => h < |slots| && slots[h].Live?
  }

  predicate IsAcquire(op: Op) {
    op.Acquire? || op.AcquireFor?
  }

  /** The handle whose connection the operation gives back before anything else. */
  function GivesBack<C>(slots: seq<Slot<C>>, op: Op): Option<nat>
    requires Applicable(slots, op)
  {
    match op
    case MoveAssign(dst, src) => if dst != src && slots[dst].Carries() then Some(dst) else None
    case Destroy(h) => if slots[h].Carries() then Some(h) else None
    case _ => None
  }

  /** The handle variables once a move or a destruction is complete. */
  function Completed<C>(slots: seq<Slot<C>>, op: Op): seq<Slot<C>>
    requires Applicable(slots, op) && !IsAcquire(op)
  {
    match op
    case MoveConstruct(dst, src) => slots[dst := slots[src]][src := Husk()]
    case MoveAssign(dst, src) => if dst == src then slots else slots[dst := slots[src]][src := Husk()]
    case Destroy(h) => slots[h := Dead]
  }

  predicate Runnable(th: Thread) {
    th.script != [] && Applicable(th.slots, th.script[0])
  }

  predicate Asking(th: Thread) {
    (th.pc.Ready? || th.pc.Woken?) && Runnable(th) && IsAcquire(th.script[0])
  }

  predicate Enabled(s: Pool, step: Step) {
    if step.Close? then step.c in s.open
    else
      step.t < |s.threads| &&
      var th := s.threads[step.t];
      match step
      case Take(_) => Asking(th) && s.queue != []
      case Sleep(_) => Asking(th) && s.queue == []
      case Local(_) => th.pc.Ready? && Runnable(th) && !IsAcquire(th.script[0]) && GivesBack(th.slots, th.script[0]).None?
      case Surrender(_) => th.pc.Ready? && Runnable(th) && GivesBack(th.slots, th.script[0]).Some?
      case Check(_, _) => th.pc.Returning? && !th.pc.checked
      case Push(_) => th.pc.Returning? && th.pc.checked
      case Lose(_) => th.pc.Returning? && th.pc.checked
      case Notify(_, wakes) =>
        && th.pc.Pushed? && Runnable(th) && !IsAcquire(th.script[0])
        && (match wakes
            case Some(w) => w < |s.threads| && s.threads[w].pc.Asleep?
            case None => forall w :: 0 <= w < |s.threads| ==> !s.threads[w].pc.Asleep?)
      case Spurious(_) => th.pc.Asleep?
      case Expire(_) =>
        && (th.pc.Asleep? || th.pc.Woken?) && s.queue == []
        && Runnable(th) && th.script[0].AcquireFor?
  }

  function Resume(th: Thread, slots: seq<Slot<int>>): Thread
    requires th.script != []
  {
    Thread(Ready, slots, th.script[1..])
  }

  /** The thread's own part of a step. */
  function Advance(s: Pool, step: Step): Thread
    requires !step.Close? && Enabled(s, step)
  {
    var th := s.threads[step.t];
    match step
    case Take(_) => Resume(th, th.slots[th.script[0].h := Live(true, Some(s.queue[0]))])
    case Sleep(_) => th.(pc := Asleep)
    case Local(_) => Resume(th, Completed(th.slots, th.script[0]))
    case Surrender(_) =>
      var h := GivesBack(th.slots, th.script[0]).value;
      Thread(Returning(th.slots[h].conn.value, false), th.slots[h := th.slots[h].(conn := None)], th.script)
    case Check(_, reconnects) =>
      th.(pc := Returning(if th.pc.conn !in s.open && reconnects then s.next else th.pc.conn, true))
    case Push(_) => th.(pc := Pushed)
    case Lose(_) => th.(pc := Pushed)
    case Notify(_, _) => Resume(th, Completed(th.slots, th.script[0]))
    case Spurious(_) => th.(pc := Woken)
    case Expire(_) => Resume(th, th.slots[th.script[0].h := Husk()])
  }

  function Apply(s: Pool, step: Step): Pool
    requires Enabled(s, step)
  {
    if step.Close? then s.(open := s.open - {step.c})
    else
      var th := s.threads[step.t];
      var s1 := s.(threads := s.threads[step.t := Advance(s, step)]);
      match step
      case Take(_) => s1.(queue := s.queue[1..])
      case Check(_, reconnects) =>
        if th.pc.conn !in s.open && reconnects then s1.(open := s.open + {s.next}, next := s.next + 1) else s1
      case Push(_) => s1.(queue := s.queue + [th.pc.conn])
      case Lose(_) => s1.(lost := s.lost + 1, open := s.open - {th.pc.conn})
      case Notify(_, Some(w)) => s1.(threads := s1.threads[w := s.threads[w].(pc := Woken)])
      case _ => s1
  }

  /** Threads start with no handle constructed; the pool starts with every connection queued and open. */
  ghost predicate Init(s: Pool) {
    && s.queue == seq(s.size, i => i)
    && (forall c :: c in s.open <==> 0 <= c < s.size)
    && s.next == s.size && s.lost == 0
    && forall t :: 0 <= t < |s.threads| ==>
         s.threads[t].pc.Ready? && forall h :: 0 <= h < |s.threads[t].slots| ==> s.threads[t].slots[h].Dead?
  }

  /** A schedule is the list of steps taken; `After` is the state it leads to, when every step was enabled. */
  predicate Feasible(s: Pool, schedule: seq<Step>)
    decreases schedule
  {
    schedule == [] || (Enabled(s, schedule[0]) && Feasible(Apply(s, schedule[0]), schedule[1..]))
  }

  function After(s: Pool, schedule: seq<Step>): Pool
    requires Feasible(s, schedule)
    decreases schedule
  {
    if schedule == [] then s else After(Apply(s, schedule[0]), schedule[1..])
  }

  // ---------------------------------------------------------------- where the connections are

  /** What is being counted: one connection, or all of them. */
  datatype Which = One(c: int) | Any

  function Hit(which: Which, c: int): nat {
    if which.Any? || which.c == c then 1 else 0
  }

  function SlotHit(which: Which, slot: Slot<int>): nat {
    if slot.Live? && slot.conn.Some? then Hit(which, slot.conn.value) else 0
  }

  function Hits(which: Which): int -> nat {
    (c: int) => Hit(which, c)
  }

  function InSlot(which: Which): Slot<int> -> nat {
    (slot: Slot<int>) => SlotHit(which, slot)
  }

  function InFlight(which: Which, pc: Pc): nat {
    if pc.Returning? then Hit(which, pc.conn) else 0
  }

  function InThread(which: Which): Thread -> nat {
    (th: Thread) => Total(th.slots, InSlot(which)) + InFlight(which, th.pc)
  }

  /** In how many places (queue positions, handles, returners) the counted connections are. */
  function Places(s: Pool, which: Which): nat {
    Total(s.queue, Hits(which)) + Total(s.threads, InThread(which))
  }

  ghost predicate Conserved(s: Pool) {
    && Places(s, Any) + s.lost == s.size
    && forall c: int :: Places(s, One(c)) <= (if c < s.next then 1 else 0)
  }

  /** A thread giving a connection back has emptied the handle concerned. */
  predicate Emptied(slots: seq<Slot<int>>, op: Op) {
    && Applicable(slots, op)
    && (op.MoveAssign? || op.Destroy?)
    && (op.Destroy? ==> slots[op.h].conn.None?)
    && (op.MoveAssign? ==> op.dst != op.src && slots[op.dst].conn.None?)
  }

  predicate ThreadOk(th: Thread) {
    && (forall h :: 0 <= h < |th.slots| ==> th.slots[h].Tidy())
    && (th.pc.Asleep? || th.pc.Woken? ==> Runnable(th) && IsAcquire(th.script[0]))
    && (th.pc.Returning? || th.pc.Pushed? ==> th.script != [] && Emptied(th.slots, th.script[0]))
  }

  // ---------------------------------------------------------------- who is waiting for whom

  function AsleepCount(th: Thread): nat { if th.pc.Asleep? then 1 else 0 }
  function AwakeCount(th: Thread): nat { if th.pc.Woken? || th.pc.Pushed? then 1 else 0 }

  /** No lost wake-up: idle connections never outnumber the threads on their way to notice them. */
  predicate WakeupOk(s: Pool) {
    Total(s.threads, AsleepCount) == 0 || |s.queue| <= Total(s.threads, AwakeCount)
  }

  ghost predicate Inv(s: Pool) {
    && Conserved(s)
    && WakeupOk(s)
    && forall t :: 0 <= t < |s.threads| ==> ThreadOk(s.threads[t])
  }

  // ---------------------------------------------------------------- the initial state

  lemma {:induction false} IotaHits(n: nat, which: Which)
    ensures Total(seq(n, i => i), Hits(which)) == if which.Any? then n else if 0 <= which.c < n then 1 else 0
  {
    if n > 0 {
      IotaHits(n - 1, which);
      assert seq(n, i => i) == seq(n - 1, i => i) + [n - 1];
      TotalAppend(seq(n - 1, i => i), n - 1, Hits(which));
    }
  }

  lemma InitPlaces(s: Pool, which: Which)
    requires Init(s)
    ensures Places(s, which) == if which.Any? then s.size else if 0 <= which.c < s.size then 1 else 0
  {
    forall t | 0 <= t < |s.threads| ensures InThread(which)(s.threads[t]) == 0 {
      TotalZero(s.threads[t].slots, InSlot(which));
    }
    TotalZero(s.threads, InThread(which));
    IotaHits(s.size, which);
  }

  lemma InitInv(s: Pool)
    requires Init(s)
    ensures Inv(s)
  {
    InitPlaces(s, Any);
    forall c: int ensures Places(s, One(c)) <= if c < s.next then 1 else 0 {
      InitPlaces(s, One(c));
    }
    TotalZero(s.threads, AsleepCount);
  }

  // ---------------------------------------------------------------- one step

  /** Completing a handle operation moves connections between handles only. */
  lemma CompletedKeeps(slots: seq<Slot<int>>, op: Op, which: Which)
    requires Applicable(slots, op) && !IsAcquire(op)
    requires GivesBack(slots, op).None?
    requires forall h :: 0 <= h < |slots| ==> slots[h].Tidy()
    ensures Total(Completed(slots, op), InSlot(which)) == Total(slots, InSlot(which))
  {
    if op.Destroy? {
      TotalUpdate(slots, op.h, Dead, InSlot(which));
    } else if op.dst != op.src {
      var moved := slots[op.dst := slots[op.src]];
      TotalUpdate(slots, op.dst, slots[op.src], InSlot(which));
      TotalUpdate(moved, op.src, Husk(), InSlot(which));
    }
  }

  lemma CompletedTidy(slots: seq<Slot<int>>, op: Op)
    requires Applicable(slots, op) && !IsAcquire(op)
    requires forall h :: 0 <= h < |slots| ==> slots[h].Tidy()
    ensures forall h :: 0 <= h < |slots| ==> Completed(slots, op)[h].Tidy()
  {
  }

  lemma AdvanceOk(s: Pool, step: Step)
    requires !step.Close? && Enabled(s, step) && ThreadOk(s.threads[step.t])
    ensures ThreadOk(Advance(s, step))
  {
    if step.Local? || step.Notify? {
      CompletedTidy(s.threads[step.t].slots, s.threads[step.t].script[0]);
    }
  }

  /** How many of the counted connections a step moves into and out of the stepping thread. */
  function Gained(s: Pool, step: Step, which: Which): nat
    requires !step.Close? && Enabled(s, step)
  {
    match step
    case Take(_) => Hit(which, s.queue[0])
    case Check(_, _) => Hit(which, Advance(s, step).pc.conn)
    case _ => 0
  }

  function Dropped(s: Pool, step: Step, which: Which): nat
    requires !step.Close? && Enabled(s, step)
  {
    match step
    case Check(t, _) => Hit(which, s.threads[t].pc.conn)
    case Push(t) => Hit(which, s.threads[t].pc.conn)
    case Lose(t) => Hit(which, s.threads[t].pc.conn)
    case _ => 0
  }

  lemma AdvancePlaces(s: Pool, step: Step, which: Which)
    requires !step.Close? && Enabled(s, step) && ThreadOk(s.threads[step.t])
    ensures InThread(which)(Advance(s, step)) + Dropped(s, step, which)
         == InThread(which)(s.threads[step.t]) + Gained(s, step, which)
  {
    var th := s.threads[step.t];
    match step
    case Take(_) => TotalUpdate(th.slots, th.script[0].h, Live(true, Some(s.queue[0])), InSlot(which));
    case Local(_) => CompletedKeeps(th.slots, th.script[0], which);
    case Notify(_, _) => CompletedKeeps(th.slots, th.script[0], which);
    case Surrender(_) =>
      var h := GivesBack(th.slots, th.script[0]).value;
      TotalUpdate(th.slots, h, th.slots[h].(conn := None), InSlot(which));
    case Expire(_) => TotalUpdate(th.slots, th.script[0].h, Husk(), InSlot(which));
    case _ =>
  }

  /** The thread list after a step: the stepping thread advanced, and possibly one sleeper woken. */
  lemma ApplyTotal(s: Pool, step: Step, f: Thread -> nat)
    requires !step.Close? && Enabled(s, step)
    ensures Total(Apply(s, step).threads, f) + f(s.threads[step.t])
              + (if step.Notify? && step.wakes.Some? then f(s.threads[step.wakes.value]) else 0)
         == Total(s.threads, f) + f(Advance(s, step))
              + (if step.Notify? && step.wakes.Some? then f(s.threads[step.wakes.value].(pc := Woken)) else 0)
  {
    var threads1 := s.threads[step.t := Advance(s, step)];
    TotalUpdate(s.threads, step.t, Advance(s, step), f);
    if step.Notify? && step.wakes.Some? {
      var w := step.wakes.value;
      assert threads1[w] == s.threads[w];
      TotalUpdate(threads1, w, s.threads[w].(pc := Woken), f);
    }
  }

  /** A step keeps every connection in as many places as before, except the two it may replace or lose. */
  lemma ApplyPlaces(s: Pool, step: Step, which: Which)
    requires Enabled(s, step) && (!step.Close? ==> ThreadOk(s.threads[step.t]))
    ensures Places(Apply(s, step), which)
              + (if step.Check? || step.Lose? then Dropped(s, step, which) else 0)
         == Places(s, which) + (if step.Check? then Gained(s, step, which) else 0)
  {
    if !step.Close? {
      AdvancePlaces(s, step, which);
      ApplyTotal(s, step, InThread(which));
      if step.Push? {
        TotalAppend(s.queue, s.threads[step.t].pc.conn, Hits(which));
      }
    }
  }

  lemma ApplyConserved(s: Pool, step: Step)
    requires Enabled(s, step) && Inv(s)
    ensures Conserved(Apply(s, step))
  {
    ApplyPlaces(s, step, Any);
    var s' := Apply(s, step);
    forall c: int ensures Places(s', One(c)) <= if c < s'.next then 1 else 0 {
      ApplyPlaces(s, step, One(c));
      assert Places(s, One(s.next)) == 0;
    }
  }

  lemma ApplyWakeupOk(s: Pool, step: Step)
    requires Enabled(s, step) && Inv(s)
    ensures WakeupOk(Apply(s, step))
  {
    if !step.Close? {
      ApplyTotal(s, step, AsleepCount);
      ApplyTotal(s, step, AwakeCount);
      if step.Notify? && step.wakes.None? {
        TotalZero(s.threads, AsleepCount);
      }
      if step.Spurious? || step.Expire? || step.Notify? {
        TotalAtLeast(s.threads, step.t, AsleepCount);
      }
    }
  }

  lemma ApplyThreadsOk(s: Pool, step: Step)
    requires Enabled(s, step) && forall t :: 0 <= t < |s.threads| ==> ThreadOk(s.threads[t])
    ensures forall t :: 0 <= t < |s.threads| ==> ThreadOk(Apply(s, step).threads[t])
  {
    if !step.Close? {
      AdvanceOk(s, step);
    }
  }

  lemma ApplyInv(s: Pool, step: Step)
    requires Enabled(s, step) && Inv(s)
    ensures Inv(Apply(s, step))
  {
    ApplyConserved(s, step);
    ApplyWakeupOk(s, step);
    ApplyThreadsOk(s, step);
  }

  /** The invariant holds after every schedule of every pool. */
  lemma {:induction false} ReachableInv(s: Pool, schedule: seq<Step>)
    requires Inv(s) && Feasible(s, schedule)
    ensures Inv(After(s, schedule))
    decreases schedule
  {
    if schedule != [] {
      ApplyInv(s, schedule[0]);
      ReachableInv(Apply(s, schedule[0]), schedule[1..]);
    }
  }
}
