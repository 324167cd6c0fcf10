/** What holds in every state any interleaving can reach: one owner per connection, and no lost wake-up. */
module PoolSafety {
  import opened Collections
  import opened HandleSlots
  import opened PoolProtocol

  /** The places a connection can be: a queue position, one live handle, or one thread giving it back. */
  datatype Site = InQueue(i: nat) | InHandle(t: nat, h: nat) | WithReturner(t: nat)

  predicate At(s: Pool, site: Site, c: int) {
    match site
    case InQueue(i) => i < |s.queue| && s.queue[i] == c
    case InHandle(t, h) =>
      && t < |s.threads| && h < |s.threads[t].slots|
      && s.threads[t].slots[h].Live? && s.threads[t].slots[h].conn == Some(c)
    case WithReturner(t) => t < |s.threads| && s.threads[t].pc.Returning? && s.threads[t].pc.conn == c
  }

  lemma HandleIsAPlace(th: Thread, h: nat, c: int)
    requires h < |th.slots| && th.slots[h].Live? && th.slots[h].conn == Some(c)
    ensures Total(th.slots, InSlot(One(c))) >= 1
  {
    TotalAtLeast(th.slots, h, InSlot(One(c)));
  }

  lemma SiteInThread(s: Pool, site: Site, c: int)
    requires At(s, site, c) && !site.InQueue?
    ensures InThread(One(c))(s.threads[site.t]) >= 1
    ensures Total(s.threads, InThread(One(c))) >= InThread(One(c))(s.threads[site.t])
  {
    TotalAtLeast(s.threads, site.t, InThread(One(c)));
    if site.InHandle? {
      HandleIsAPlace(s.threads[site.t], site.h, c);
    }
  }

  /** Two distinct sites of one connection would be counted twice. */
  lemma TwoSites(s: Pool, a: Site, b: Site, c: int)
    requires At(s, a, c) && At(s, b, c) && a != b
    ensures Places(s, One(c)) >= 2
  {
    if a.InQueue? && b.InQueue? {
      TotalTwo(s.queue, if a.i < b.i then a.i else b.i, if a.i < b.i then b.i else a.i, Hits(One(c)));
    } else if a.InQueue? {
      TotalAtLeast(s.queue, a.i, Hits(One(c)));
      SiteInThread(s, b, c);
    } else if b.InQueue? {
      TotalAtLeast(s.queue, b.i, Hits(One(c)));
      SiteInThread(s, a, c);
    } else {
      SiteInThread(s, a, c);
      SiteInThread(s, b, c);
      if a.t != b.t {
        TotalTwo(s.threads, if a.t < b.t then a.t else b.t, if a.t < b.t then b.t else a.t, InThread(One(c)));
      } else if a.InHandle? && b.InHandle? {
        TotalTwo(s.threads[a.t].slots, if a.h < b.h then a.h else b.h, if a.h < b.h then b.h else a.h, InSlot(One(c)));
      } else {
        HandleIsAPlace(s.threads[a.t], if a.InHandle? then a.h else b.h, c);
      }
    }
  }

  /** However the threads interleave, no connection is ever owned twice. */
  lemma OnePlaceAtATime(init: Pool, schedule: seq<Step>, a: Site, b: Site, c: int)
    requires Init(init) && Feasible(init, schedule)
    requires At(After(init, schedule), a, c) && At(After(init, schedule), b, c)
    ensures a == b
  {
    InitInv(init);
    ReachableInv(init, schedule);
    if a != b {
      TwoSites(After(init, schedule), a, b, c);
    }
  }

  function LoseCount(step: Step): nat { if step.Lose? then 1 else 0 }

  function HeldCount(th: Thread): nat { Total(th.slots, InSlot(Any)) }

  function FlightCount(th: Thread): nat { if th.pc.Returning? then 1 else 0 }

  lemma {:induction false} LostIsLoseSteps(s: Pool, schedule: seq<Step>)
    requires Feasible(s, schedule)
    ensures After(s, schedule).lost == s.lost + Total(schedule, LoseCount)
    ensures After(s, schedule).size == s.size
    ensures |After(s, schedule).threads| == |s.threads|
    decreases schedule
  {
    if schedule != [] {
      LostIsLoseSteps(Apply(s, schedule[0]), schedule[1..]);
    }
  }

  lemma {:induction false} SplitAny(threads: seq<Thread>)
    ensures Total(threads, InThread(Any)) == Total(threads, HeldCount) + Total(threads, FlightCount)
  {
    if threads != [] {
      SplitAny(threads[1..]);
    }
  }

  lemma {:induction false} CountAny(queue: seq<int>)
    ensures Total(queue, Hits(Any)) == |queue|
  {
    if queue != [] {
      CountAny(queue[1..]);
    }
  }

  /** Idle, held and in-flight connections always add up to the pool size, less the slots given up by a
      throwing lock or push; a failed reconnect and a timeout lose nothing. */
  lemma PoolSizeConserved(init: Pool, schedule: seq<Step>)
    requires Init(init) && Feasible(init, schedule)
    ensures var s := After(init, schedule);
      |s.queue| + Total(s.threads, HeldCount) + Total(s.threads, FlightCount) + Total(schedule, LoseCount) == init.size
  {
    var s := After(init, schedule);
    InitInv(init);
    ReachableInv(init, schedule);
    LostIsLoseSteps(init, schedule);
    SplitAny(s.threads);
    CountAny(s.queue);
  }

  /** No lost wake-up, with spurious wake-ups and timed waits allowed. */
  lemma NoLostWakeup(init: Pool, schedule: seq<Step>)
    requires Init(init) && Feasible(init, schedule)
    ensures var s := After(init, schedule);
      (exists t :: 0 <= t < |s.threads| && s.threads[t].pc.Asleep?) ==> |s.queue| <= Total(s.threads, AwakeCount)
  {
    InitInv(init);
    ReachableInv(init, schedule);
    TotalZero(After(init, schedule).threads, AsleepCount);
  }

  /** With nothing held, nothing in flight and nobody awake to notice, a sleeper means the whole pool was lost. */
  lemma QuietPoolHasNoSleepers(init: Pool, schedule: seq<Step>)
    requires Init(init) && Feasible(init, schedule)
    ensures var s := After(init, schedule);
      Total(s.threads, HeldCount) == 0 && Total(s.threads, FlightCount) == 0 && Total(s.threads, AwakeCount) == 0
        && Total(schedule, LoseCount) < init.size
      ==> forall t :: 0 <= t < |s.threads| ==> !s.threads[t].pc.Asleep?
  {
    PoolSizeConserved(init, schedule);
    NoLostWakeup(init, schedule);
  }

  /** A connection that is somewhere was already there at the start, or a reconnect made it since. */
  lemma {:induction false} OnlyReconnectsAdd(s: Pool, schedule: seq<Step>, c: int)
    requires Inv(s) && Feasible(s, schedule)
    ensures Places(After(s, schedule), One(c)) > 0 ==> Places(s, One(c)) > 0 || c >= s.next
    decreases schedule
  {
    if schedule != [] {
      ApplyPlaces(s, schedule[0], One(c));
      ApplyInv(s, schedule[0]);
      OnlyReconnectsAdd(Apply(s, schedule[0]), schedule[1..], c);
    }
  }

  lemma SiteIsAPlace(s: Pool, site: Site, c: int)
    requires At(s, site, c)
    ensures Places(s, One(c)) > 0
  {
    if site.InQueue? {
      TotalAtLeast(s.queue, site.i, Hits(One(c)));
    } else {
      SiteInThread(s, site, c);
    }
  }

  lemma {:induction false} SomeTerm<T>(s: seq<T>, f: T -> nat) returns (i: nat)
    requires Total(s, f) > 0
    ensures i < |s| && f(s[i]) > 0
  {
    if f(s[0]) > 0 {
      i := 0;
    } else {
      i := SomeTerm(s[1..], f);
      i := i + 1;
    }
  }

  /** And the other way round: a connection that is counted is at some site. */
  lemma EveryPlaceIsASite(s: Pool, c: int) returns (site: Site)
    requires Places(s, One(c)) > 0
    ensures At(s, site, c)
  {
    if Total(s.queue, Hits(One(c))) > 0 {
      var i := SomeTerm(s.queue, Hits(One(c)));
      site := InQueue(i);
    } else {
      var t := SomeTerm(s.threads, InThread(One(c)));
      if Total(s.threads[t].slots, InSlot(One(c))) > 0 {
        var h := SomeTerm(s.threads[t].slots, InSlot(One(c)));
        site := InHandle(t, h);
      } else {
        site := WithReturner(t);
      }
    }
  }

  // ---------------------------------------------------------------- what a thread can always do

  /** Any threads can start over a pool of any size. */
  lemma AnyThreadsStart(size: nat, scripts: seq<seq<Op>>, handles: nat) returns (s: Pool)
    ensures Init(s) && s.size == size && |s.threads| == |scripts|
    ensures forall t :: 0 <= t < |scripts| ==> s.threads[t] == Thread(Ready, seq(handles, i => Dead), scripts[t])
  {
    var queue: seq<int> := seq(size, i => i);
    s := Pool(size, queue,
              seq(|scripts|, t requires 0 <= t < |scripts| => Thread(Ready, seq(handles, i => Dead), scripts[t])),
              (set c | c in queue), size, 0);
    forall c: int ensures c in queue <==> 0 <= c < size {
      assert 0 <= c < size ==> queue[c] == c;
    }
  }

  /** A timed acquire never stays stuck: by its own steps alone the thread gets the front connection, or gives up
      exactly when the queue is empty. */
  lemma TimedAcquireReturns(s: Pool, t: nat, h: nat) returns (schedule: seq<Step>)
    requires t < |s.threads| && s.threads[t].script != [] && s.threads[t].script[0] == AcquireFor(h)
    requires s.threads[t].pc.Ready? || s.threads[t].pc.Asleep? || s.threads[t].pc.Woken?
    requires h < |s.threads[t].slots| && s.threads[t].slots[h] == Dead
    ensures Feasible(s, schedule) && t < |After(s, schedule).threads|
    ensures After(s, schedule).threads[t].script == s.threads[t].script[1..] && After(s, schedule).threads[t].pc == Ready
    ensures After(s, schedule).threads[t].slots
         == s.threads[t].slots[h := if s.queue == [] then Live(false, None) else Live(true, Some(s.queue[0]))]
    ensures After(s, schedule).queue == if s.queue == [] then [] else s.queue[1..]
  {
    var th := s.threads[t];
    var first := if th.pc.Asleep? && s.queue != [] then Spurious(t) else Sleep(t);
    var last := if s.queue == [] then Expire(t) else Take(t);
    if (th.pc.Asleep? && s.queue != []) || (th.pc.Ready? && s.queue == []) {
      schedule := [first, last];
      var s1 := Apply(s, first);
      assert schedule[1..] == [last] && [last][1..] == [];
      assert Enabled(s1, last) && Feasible(Apply(s1, last), []) && Feasible(s1, [last]);
      assert After(s, schedule) == After(s1, [last]) == After(Apply(s1, last), []);
    } else {
      schedule := [last];
      assert schedule[1..] == [] && Enabled(s, last) && Feasible(Apply(s, last), []);
      assert After(s, schedule) == After(Apply(s, last), []);
    }
  }

  /** Being woken for nothing leads back to the same state. */
  lemma SpuriousWakeupHarmless(s: Pool, t: nat)
    requires t < |s.threads| && s.threads[t].pc == Asleep && s.queue == [] && ThreadOk(s.threads[t])
    ensures Feasible(s, [Spurious(t), Sleep(t)]) && After(s, [Spurious(t), Sleep(t)]) == s
  {
    var s1 := Apply(s, Spurious(t));
    assert [Spurious(t), Sleep(t)][1..] == [Sleep(t)] && [Sleep(t)][1..] == [];
    assert Enabled(s1, Sleep(t)) && Apply(s1, Sleep(t)).threads == s.threads;
    assert Feasible(s, []) && Feasible(s1, [Sleep(t)]) && After(s1, [Sleep(t)]) == After(s, []);
  }

  /** Moves between handles go through at once; assigning a handle to itself leaves it as it is. */
  lemma MovesGoThrough(s: Pool, t: nat)
    requires t < |s.threads| && s.threads[t].pc == Ready && s.threads[t].script != []
    ensures var th, op := s.threads[t], s.threads[t].script[0];
      op.MoveConstruct? && op.dst < |th.slots| && op.src < |th.slots| && th.slots[op.dst] == Dead && th.slots[op.src].Live?
      ==> Enabled(s, Local(t))
          && Apply(s, Local(t)).threads[t] == Thread(Ready, th.slots[op.dst := th.slots[op.src]][op.src := Live(false, None)], th.script[1..])
    ensures var th, op := s.threads[t], s.threads[t].script[0];
      op.MoveAssign? && op.dst == op.src && op.dst < |th.slots| && th.slots[op.dst].Live?
      ==> Enabled(s, Local(t)) && Apply(s, Local(t)).threads[t] == Thread(Ready, th.slots, th.script[1..])
    ensures var th, op := s.threads[t], s.threads[t].script[0];
      op.MoveAssign? && op.dst != op.src && op.dst < |th.slots| && op.src < |th.slots|
        && th.slots[op.dst].Live? && th.slots[op.src].Live?
      ==> if th.slots[op.dst].bound && th.slots[op.dst].conn.Some? then Enabled(s, Surrender(t))
          else Enabled(s, Local(t))
               && Apply(s, Local(t)).threads[t] == Thread(Ready, th.slots[op.dst := th.slots[op.src]][op.src := Live(false, None)], th.script[1..])
  {
  }
}
