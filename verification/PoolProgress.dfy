/**
 Where schedules of the pool can stop.  Every schedule is finite up to its spurious wake-ups, and the pool
 is sure to get every thread through exactly when the connections the threads can hold while asking for
 another one, added up, are fewer than the pool has.
 */
module PoolProgress {
  import opened Collections
  import opened HandleSlots
  import opened PoolProtocol
  import opened PoolSafety

  predicate HoldsNone(slots: seq<Slot<int>>) {
    forall h :: 0 <= h < |slots| && slots[h].Live? ==> slots[h].conn.None?
  }

  function Held(slots: seq<Slot<int>>): nat {
    Total(slots, InSlot(Any))
  }

  /** The handles after one operation; which connection an acquire brings does not matter here. */
  function Following(slots: seq<Slot<int>>, op: Op): seq<Slot<int>>
    requires Applicable(slots, op)
  {
    if IsAcquire(op) then slots[op.h := Live(true, Some(0))] else Completed(slots, op)
  }

  /** The script type-checks from these handles and ends with every connection given back. */
  predicate Balanced(slots: seq<Slot<int>>, script: seq<Op>)
    decreases script
  {
    if script == [] then HoldsNone(slots)
    else Applicable(slots, script[0]) && Balanced(Following(slots, script[0]), script[1..])
  }

  /** The most connections the script holds when it reaches an acquire. */
  function Peak(slots: seq<Slot<int>>, script: seq<Op>): nat
    requires Balanced(slots, script)
    decreases script
  {
    if script == [] then 0
    else
      var later := Peak(Following(slots, script[0]), script[1..]);
      if IsAcquire(script[0]) && Held(slots) > later then Held(slots) else later
  }

  predicate Acquires(script: seq<Op>) {
    exists i :: 0 <= i < |script| && IsAcquire(script[i])
  }

  predicate MidReturn(th: Thread) {
    th.pc.Returning? || th.pc.Pushed?
  }

  /** The operations the thread has not begun. */
  function Remaining(th: Thread): seq<Op> {
    if MidReturn(th) && th.script != [] then th.script[1..] else th.script
  }

  /** Its handles at that point. */
  function Ahead(th: Thread): seq<Slot<int>> {
    if MidReturn(th) && th.script != [] && Emptied(th.slots, th.script[0]) then Completed(th.slots, th.script[0]) else th.slots
  }

  predicate ThreadBalanced(th: Thread) {
    Balanced(Ahead(th), Remaining(th))
  }

  function ThreadPeak(th: Thread): nat {
    if ThreadBalanced(th) then Peak(Ahead(th), Remaining(th)) else 0
  }

  predicate AllBalanced(s: Pool) {
    forall t :: 0 <= t < |s.threads| ==> ThreadBalanced(s.threads[t])
  }

  predicate SomeAcquires(s: Pool) {
    exists t :: 0 <= t < |s.threads| && Acquires(Remaining(s.threads[t]))
  }

  predicate Calm(step: Step) {
    !step.Spurious? && !step.Expire?
  }

  predicate Done(th: Thread) {
    th.pc.Ready? && th.script == []
  }

  predicate AllDone(s: Pool) {
    forall t :: 0 <= t < |s.threads| ==> Done(s.threads[t])
  }

  /** No thread can move, short of a spurious wake-up or a timeout. */
  ghost predicate Halted(s: Pool) {
    forall step :: Calm(step) && !step.Close? ==> !Enabled(s, step)
  }

  // ---------------------------------------------------------------- a bound on every schedule

  function Effort(th: Thread): nat {
    if th.script == [] then 0
    else
      9 * (|th.script| - 1) +
      match th.pc
      case Ready => 9
      case Woken => 8
      case Asleep => 7
      case Returning(_, checked) => if checked then 4 else 6
      case Pushed => 3
  }

  function Measure(s: Pool): nat {
    Total(s.threads, Effort) + |s.open|
  }

  function SpuriousCount(step: Step): nat { if step.Spurious? then 1 else 0 }

  lemma StepDecreases(s: Pool, step: Step)
    requires Enabled(s, step)
    requires forall t :: 0 <= t < |s.threads| ==> ThreadOk(s.threads[t])
    ensures Measure(Apply(s, step)) < Measure(s) + 2 * SpuriousCount(step)
  {
    if step.Close? {
      assert |s.open - {step.c}| == |s.open| - 1;
    } else {
      ApplyTotal(s, step, Effort);
      if step.Notify? && step.wakes.Some? {
        assert ThreadOk(s.threads[step.wakes.value]);
      }
      assert ThreadOk(s.threads[step.t]);
      assert |s.open + {s.next}| <= |s.open| + 1;
    }
  }

  lemma {:induction false} SchedulesEndFrom(s: Pool, schedule: seq<Step>)
    requires Feasible(s, schedule)
    requires forall t :: 0 <= t < |s.threads| ==> ThreadOk(s.threads[t])
    ensures |schedule| + Measure(After(s, schedule)) <= Measure(s) + 2 * Total(schedule, SpuriousCount)
    decreases schedule
  {
    if schedule != [] {
      StepDecreases(s, schedule[0]);
      ApplyThreadsOk(s, schedule[0]);
      SchedulesEndFrom(Apply(s, schedule[0]), schedule[1..]);
    }
  }

  function ScriptLength(th: Thread): nat { |th.script| }

  lemma {:induction false} ReadyEffort(threads: seq<Thread>)
    requires forall t :: 0 <= t < |threads| ==> threads[t].pc.Ready?
    ensures Total(threads, Effort) == 9 * Total(threads, ScriptLength)
  {
    if threads != [] {
      ReadyEffort(threads[1..]);
    }
  }

  lemma {:induction false} IotaSize(n: nat, open: set<int>)
    requires forall c :: c in open <==> 0 <= c < n
    ensures |open| == n
  {
    if n == 0 {
      assert forall c :: c !in open;
      assert open == {};
    } else {
      IotaSize(n - 1, open - {n - 1});
    }
  }

  /** Whatever the threads do, a schedule has at most nine steps per operation, one closing per connection, and
      two steps per spurious wake-up. */
  lemma SchedulesEnd(init: Pool, schedule: seq<Step>)
    requires Init(init) && Feasible(init, schedule)
    ensures |schedule| <= 9 * Total(init.threads, ScriptLength) + init.size + 2 * Total(schedule, SpuriousCount)
  {
    InitInv(init);
    SchedulesEndFrom(init, schedule);
    ReadyEffort(init.threads);
    IotaSize(init.size, init.open);
  }

  // ---------------------------------------------------------------- handles that hold less

  /** The same handles are alive, and `a` holds no connection where `b` holds none. */
  predicate Below(a: seq<Slot<int>>, b: seq<Slot<int>>) {
    && |a| == |b|
    && forall h :: 0 <= h < |a| ==>
         && (a[h].Live? <==> b[h].Live?)
         && (a[h].Live? && a[h].conn.Some? ==> b[h].conn.Some?)
  }

  lemma FollowingBelow(a: seq<Slot<int>>, b: seq<Slot<int>>, op: Op)
    requires Below(a, b) && Applicable(b, op)
    ensures Applicable(a, op) && Below(Following(a, op), Following(b, op))
  {
  }

  /** Starting with less, a script stays balanced and never holds more. */
  lemma {:induction false} PeakBelow(a: seq<Slot<int>>, b: seq<Slot<int>>, script: seq<Op>)
    requires Below(a, b) && Balanced(b, script)
    ensures Balanced(a, script) && Peak(a, script) <= Peak(b, script)
    decreases script
  {
    if script != [] {
      FollowingBelow(a, b, script[0]);
      PeakBelow(Following(a, script[0]), Following(b, script[0]), script[1..]);
      TotalAtMost(a, b, InSlot(Any), InSlot(Any));
    }
  }

  lemma HoldsNoneCounts(slots: seq<Slot<int>>)
    ensures HoldsNone(slots) <==> Held(slots) == 0
  {
    TotalZero(slots, InSlot(Any));
    if Held(slots) == 0 {
      forall h | 0 <= h < |slots| && slots[h].Live? ensures slots[h].conn.None? {
        assert InSlot(Any)(slots[h]) == 0;
      }
    }
  }

  /** Giving back early changes nothing about the handles once the operation is complete. */
  lemma EmptyingKeepsResult(slots: seq<Slot<int>>, op: Op)
    requires Applicable(slots, op) && !IsAcquire(op) && GivesBack(slots, op).Some?
    ensures var h := GivesBack(slots, op).value;
      var emptied := slots[h := slots[h].(conn := None)];
      Emptied(emptied, op) && Completed(emptied, op) == Completed(slots, op)
  {
  }

  /** No step of a thread raises what it can still come to hold. */
  lemma AdvancePeak(s: Pool, step: Step)
    requires !step.Close? && Enabled(s, step)
    requires ThreadOk(s.threads[step.t]) && ThreadBalanced(s.threads[step.t])
    ensures ThreadBalanced(Advance(s, step)) && ThreadPeak(Advance(s, step)) <= ThreadPeak(s.threads[step.t])
  {
    var th := s.threads[step.t];
    match step
    case Take(_) => PeakBelow(Advance(s, step).slots, Following(th.slots, th.script[0]), th.script[1..]);
    case Expire(_) => PeakBelow(Advance(s, step).slots, Following(th.slots, th.script[0]), th.script[1..]);
    case Surrender(_) => EmptyingKeepsResult(th.slots, th.script[0]);
    case _ =>
  }

  /** Being woken changes neither what a thread has left to do nor its handles. */
  lemma WakingKeepsPeak(th: Thread)
    requires th.pc.Asleep?
    ensures Remaining(th.(pc := Woken)) == Remaining(th)
    ensures ThreadBalanced(th.(pc := Woken)) == ThreadBalanced(th) && ThreadPeak(th.(pc := Woken)) == ThreadPeak(th)
  {
  }

  lemma ApplyBalanced(s: Pool, step: Step)
    requires Enabled(s, step) && AllBalanced(s)
    requires !step.Close? ==> ThreadBalanced(Advance(s, step))
    ensures AllBalanced(Apply(s, step))
  {
    var s' := Apply(s, step);
    forall t | 0 <= t < |s'.threads| ensures ThreadBalanced(s'.threads[t]) {
      if step.Notify? && step.wakes == Some(t) {
        WakingKeepsPeak(s.threads[t]);
      }
    }
  }

  lemma ApplyPeak(s: Pool, step: Step)
    requires Enabled(s, step) && AllBalanced(s)
    requires forall t :: 0 <= t < |s.threads| ==> ThreadOk(s.threads[t])
    ensures AllBalanced(Apply(s, step)) && Total(Apply(s, step).threads, ThreadPeak) <= Total(s.threads, ThreadPeak)
  {
    if !step.Close? {
      AdvancePeak(s, step);
      ApplyTotal(s, step, ThreadPeak);
      if step.Notify? && step.wakes.Some? {
        WakingKeepsPeak(s.threads[step.wakes.value]);
      }
    }
    ApplyBalanced(s, step);
  }

  lemma {:induction false} ReachablePeak(s: Pool, schedule: seq<Step>)
    requires Inv(s) && AllBalanced(s) && Feasible(s, schedule)
    ensures AllBalanced(After(s, schedule))
    ensures Total(After(s, schedule).threads, ThreadPeak) <= Total(s.threads, ThreadPeak)
    decreases schedule
  {
    if schedule != [] {
      ApplyPeak(s, schedule[0]);
      ApplyInv(s, schedule[0]);
      ReachablePeak(Apply(s, schedule[0]), schedule[1..]);
    }
  }

  // ---------------------------------------------------------------- a halted pool

  /** A thread that is neither finished nor asleep can always take a calm step. */
  lemma AwakeCanMove(s: Pool, t: nat)
    requires t < |s.threads| && ThreadOk(s.threads[t]) && ThreadBalanced(s.threads[t])
    requires !Done(s.threads[t]) && !s.threads[t].pc.Asleep?
    ensures exists step :: Calm(step) && !step.Close? && !step.Lose? && Enabled(s, step)
  {
    var th := s.threads[t];
    var step :=
      if th.pc.Returning? then (if th.pc.checked then Push(t) else Check(t, true))
      else if th.pc.Pushed? then
        (if w :| 0 <= w < |s.threads| && s.threads[w].pc.Asleep? then Notify(t, Some(w)) else Notify(t, None))
      else if IsAcquire(th.script[0]) then (if s.queue != [] then Take(t) else Sleep(t))
      else if GivesBack(th.slots, th.script[0]).Some? then Surrender(t)
      else Local(t);
    assert Enabled(s, step);
  }

  /** A finished thread holds nothing, and a thread asleep in its acquire at most its peak. */
  lemma RestingHolds(th: Thread)
    requires ThreadOk(th) && ThreadBalanced(th) && (Done(th) || th.pc.Asleep?)
    ensures InThread(Any)(th) <= ThreadPeak(th) && (Done(th) ==> InThread(Any)(th) == 0)
  {
    HoldsNoneCounts(th.slots);
  }

  lemma HaltedThreads(s: Pool)
    requires Inv(s) && AllBalanced(s) && Halted(s)
    ensures forall t :: 0 <= t < |s.threads| ==> Done(s.threads[t]) || s.threads[t].pc.Asleep?
  {
    forall t | 0 <= t < |s.threads| ensures Done(s.threads[t]) || s.threads[t].pc.Asleep? {
      if !Done(s.threads[t]) && !s.threads[t].pc.Asleep? {
        AwakeCanMove(s, t);
      }
    }
  }

  lemma FinishedPoolIsFull(s: Pool)
    requires Inv(s) && AllBalanced(s) && AllDone(s)
    ensures |s.queue| + s.lost == s.size
  {
    forall t | 0 <= t < |s.threads| ensures InThread(Any)(s.threads[t]) == 0 {
      RestingHolds(s.threads[t]);
    }
    TotalZero(s.threads, InThread(Any));
    CountAny(s.queue);
  }

  /** With more connections in circulation than the threads can sit on, a halted pool is a finished one. */
  lemma NoDeadlock(s: Pool)
    requires Inv(s) && AllBalanced(s) && Halted(s)
    requires Total(s.threads, ThreadPeak) + s.lost < s.size
    ensures AllDone(s) && |s.queue| + s.lost == s.size
  {
    HaltedThreads(s);
    forall t | 0 <= t < |s.threads|
      ensures InThread(Any)(s.threads[t]) <= ThreadPeak(s.threads[t]) && AwakeCount(s.threads[t]) == 0
    {
      RestingHolds(s.threads[t]);
    }
    TotalAtMost(s.threads, s.threads, InThread(Any), ThreadPeak);
    TotalZero(s.threads, AwakeCount);
    TotalZero(s.threads, AsleepCount);
    CountAny(s.queue);
    assert forall t :: 0 <= t < |s.threads| ==> AsleepCount(s.threads[t]) == 0;
    FinishedPoolIsFull(s);
  }

  /** Main result: with balanced scripts whose peaks and lost slots together stay below the pool size, every
      schedule is bounded up to its spurious wake-ups, and when no thread can move every thread has finished
      and every remaining connection is back in the queue. */
  lemma EveryThreadFinishes(init: Pool, schedule: seq<Step>)
    requires Init(init) && AllBalanced(init) && Feasible(init, schedule)
    requires Total(init.threads, ThreadPeak) + Total(schedule, LoseCount) < init.size
    ensures |schedule| <= 9 * Total(init.threads, ScriptLength) + init.size + 2 * Total(schedule, SpuriousCount)
    ensures Halted(After(init, schedule)) ==>
              AllDone(After(init, schedule)) && |After(init, schedule).queue| + Total(schedule, LoseCount) == init.size
  {
    SchedulesEnd(init, schedule);
    InitInv(init);
    ReachableInv(init, schedule);
    ReachablePeak(init, schedule);
    LostIsLoseSteps(init, schedule);
    if Halted(After(init, schedule)) {
      NoDeadlock(After(init, schedule));
    }
  }

  // ---------------------------------------------------------------- and when a pool can stop too early

  /** No slot is lost, no wait times out, nobody wakes without a reason. */
  predicate Faultless(schedule: seq<Step>) {
    forall i :: 0 <= i < |schedule| ==> Calm(schedule[i]) && !schedule[i].Lose?
  }

  /** Some faultless schedule leaves a thread unfinished with no thread able to move. */
  ghost predicate CanStop(s: Pool) {
    exists schedule :: Feasible(s, schedule) && Faultless(schedule)
                    && Halted(After(s, schedule)) && !AllDone(After(s, schedule))
  }

  lemma CanStopBefore(s: Pool, step: Step)
    requires Enabled(s, step) && Calm(step) && !step.Lose? && CanStop(Apply(s, step))
    ensures CanStop(s)
  {
    var rest :| Feasible(Apply(s, step), rest) && Faultless(rest)
             && Halted(After(Apply(s, step), rest)) && !AllDone(After(Apply(s, step), rest));
    var schedule := [step] + rest;
    assert schedule[1..] == rest;
    assert Feasible(s, schedule) && After(s, schedule) == After(Apply(s, step), rest);
  }

  /** Finished, or about to acquire from an empty queue, or already asleep over it. */
  predicate Stranded(th: Thread) {
    Done(th) || th.pc.Asleep? || (th.pc.Ready? && Runnable(th) && IsAcquire(th.script[0]))
  }

  function Standing(th: Thread): nat { if Done(th) || th.pc.Asleep? then 0 else 1 }

  /** With the queue empty and every thread about to acquire, they all go to sleep. */
  lemma {:induction false} AllFallAsleep(s: Pool)
    requires s.queue == [] && !AllDone(s)
    requires forall t :: 0 <= t < |s.threads| ==> Stranded(s.threads[t])
    ensures CanStop(s)
    decreases Total(s.threads, Standing)
  {
    if t :| 0 <= t < |s.threads| && !Done(s.threads[t]) && !s.threads[t].pc.Asleep? {
      var s' := Apply(s, Sleep(t));
      ApplyTotal(s, Sleep(t), Standing);
      assert !Done(s'.threads[t]);
      AllFallAsleep(s');
      CanStopBefore(s, Sleep(t));
    } else {
      assert Halted(s);
      assert Feasible(s, []) && After(s, []) == s && Faultless([]);
    }
  }

  /** Nobody is waiting yet. */
  predicate NobodyWaits(s: Pool) {
    forall t :: 0 <= t < |s.threads| ==> !s.threads[t].pc.Asleep? && !s.threads[t].pc.Woken?
  }

  /** The thread is not finished and not at an acquire where it holds its peak or finds the queue empty. */
  predicate Movable(s: Pool, th: Thread)
    requires ThreadOk(th) && ThreadBalanced(th)
  {
    !Done(th) && (th.pc.Ready? && IsAcquire(th.script[0]) ==> s.queue != [] && Held(th.slots) < ThreadPeak(th))
  }

  lemma {:induction false} PeakNeedsAcquire(slots: seq<Slot<int>>, script: seq<Op>)
    requires Balanced(slots, script) && Peak(slots, script) > 0
    ensures Acquires(script)
    decreases script
  {
    if !IsAcquire(script[0]) {
      PeakNeedsAcquire(Following(slots, script[0]), script[1..]);
      var i :| 0 <= i < |script[1..]| && IsAcquire(script[1..][i]);
      assert IsAcquire(script[i + 1]);
    }
  }

  lemma AcquiresLater(script: seq<Op>)
    requires script != [] && !IsAcquire(script[0])
    ensures Acquires(script) <==> Acquires(script[1..])
  {
    if Acquires(script) {
      var i :| 0 <= i < |script| && IsAcquire(script[i]);
      assert IsAcquire(script[1..][i - 1]);
    }
    if Acquires(script[1..]) {
      var i :| 0 <= i < |script[1..]| && IsAcquire(script[1..][i]);
      assert IsAcquire(script[i + 1]);
    }
  }

  /** The step a movable thread takes; it keeps the thread's peak and its being among those that acquire. */
  lemma Move(s: Pool, t: nat) returns (step: Step)
    requires t < |s.threads| && NobodyWaits(s)
    requires ThreadOk(s.threads[t]) && ThreadBalanced(s.threads[t]) && Movable(s, s.threads[t])
    ensures !step.Close? && step.t == t && Enabled(s, step) && Calm(step) && !step.Lose? && !step.Sleep?
    ensures step.Notify? ==> step.wakes.None?
    ensures ThreadPeak(Advance(s, step)) == ThreadPeak(s.threads[t])
    ensures Acquires(Remaining(s.threads[t])) ==> Acquires(Remaining(Advance(s, step)))
  {
    var th := s.threads[t];
    if MidReturn(th) {
      step := if th.pc.Pushed? then Notify(t, None) else if th.pc.checked then Push(t) else Check(t, true);
    } else if IsAcquire(th.script[0]) {
      step := Take(t);
      var next := Following(th.slots, th.script[0]);
      PeakBelow(Advance(s, step).slots, next, th.script[1..]);
      PeakBelow(next, Advance(s, step).slots, th.script[1..]);
      PeakNeedsAcquire(next, th.script[1..]);
    } else {
      AcquiresLater(th.script);
      if GivesBack(th.slots, th.script[0]).Some? {
        step := Surrender(t);
        EmptyingKeepsResult(th.slots, th.script[0]);
      } else {
        step := Local(t);
      }
    }
  }

  /** Once no thread is movable the queue is empty: the threads hold their peaks, and those add up to the pool. */
  lemma NobodyMovable(s: Pool)
    requires Inv(s) && AllBalanced(s) && NobodyWaits(s)
    requires Total(s.threads, ThreadPeak) + s.lost >= s.size
    requires forall t :: 0 <= t < |s.threads| ==> !Movable(s, s.threads[t])
    ensures s.queue == []
    ensures forall t :: 0 <= t < |s.threads| ==> Stranded(s.threads[t])
  {
    if s.queue != [] {
      forall t | 0 <= t < |s.threads| ensures ThreadPeak(s.threads[t]) <= InThread(Any)(s.threads[t]) {
        assert !Movable(s, s.threads[t]);
      }
      TotalAtMost(s.threads, s.threads, ThreadPeak, InThread(Any));
      CountAny(s.queue);
      assert false;
    }
  }

  lemma MoveKeepsCalm(s: Pool, step: Step, a: nat)
    requires !step.Close? && Enabled(s, step) && Calm(step) && !step.Sleep? && (step.Notify? ==> step.wakes.None?)
    requires NobodyWaits(s) && a < |s.threads| && Acquires(Remaining(s.threads[a]))
    requires Acquires(Remaining(s.threads[step.t])) ==> Acquires(Remaining(Advance(s, step)))
    ensures var s' := Apply(s, step);
      NobodyWaits(s') && |s'.threads| == |s.threads| && Acquires(Remaining(s'.threads[a]))
  {
    assert Apply(s, step).threads == s.threads[step.t := Advance(s, step)];
    assert !Advance(s, step).pc.Asleep? && !Advance(s, step).pc.Woken?;
  }

  /** Moving keeps everything the argument needs. */
  lemma MoveKeeps(s: Pool, t: nat, a: nat) returns (step: Step)
    requires t < |s.threads| && a < |s.threads| && Inv(s) && AllBalanced(s) && NobodyWaits(s)
    requires Movable(s, s.threads[t]) && Acquires(Remaining(s.threads[a]))
    requires Total(s.threads, ThreadPeak) + s.lost >= s.size
    ensures Enabled(s, step) && Calm(step) && !step.Lose?
    ensures var s' := Apply(s, step);
      && a < |s'.threads| && Inv(s') && AllBalanced(s') && NobodyWaits(s') && Acquires(Remaining(s'.threads[a]))
      && Total(s'.threads, ThreadPeak) + s'.lost >= s'.size
      && Measure(s') < Measure(s)
  {
    step := Move(s, t);
    var s' := Apply(s, step);
    assert Measure(s') < Measure(s) by { StepDecreases(s, step); }
    assert Inv(s') by { ApplyInv(s, step); }
    assert AllBalanced(s') by { ApplyPeak(s, step); }
    assert Total(s'.threads, ThreadPeak) == Total(s.threads, ThreadPeak) by { ApplyTotal(s, step, ThreadPeak); }
    MoveKeepsCalm(s, step, a);
  }

  /** Peaks that add up to the pool or more can be brought together. */
  lemma {:induction false} PeaksMeet(s: Pool)
    requires Inv(s) && AllBalanced(s) && NobodyWaits(s) && SomeAcquires(s)
    requires Total(s.threads, ThreadPeak) + s.lost >= s.size
    ensures CanStop(s)
    decreases Measure(s)
  {
    var a :| 0 <= a < |s.threads| && Acquires(Remaining(s.threads[a]));
    if t :| 0 <= t < |s.threads| && Movable(s, s.threads[t]) {
      var step := MoveKeeps(s, t, a);
      PeaksMeet(Apply(s, step));
      CanStopBefore(s, step);
    } else {
      NobodyMovable(s);
      assert !Done(s.threads[a]);
      AllFallAsleep(s);
    }
  }

  // ---------------------------------------------------------------- the exact condition

  lemma ApplyAcquires(s: Pool, step: Step)
    requires Enabled(s, step) && !SomeAcquires(s)
    requires forall t :: 0 <= t < |s.threads| ==> ThreadOk(s.threads[t])
    ensures !SomeAcquires(Apply(s, step))
  {
    if !step.Close? {
      var th, next := s.threads[step.t], Advance(s, step);
      forall i | 0 <= i < |Remaining(next)| ensures !IsAcquire(Remaining(next)[i]) {
        assert !Acquires(Remaining(th));
        if Remaining(next) != Remaining(th) {
          assert Remaining(next)[i] == Remaining(th)[i + 1];
        }
      }
    }
  }

  lemma {:induction false} ReachableAcquires(s: Pool, schedule: seq<Step>)
    requires Inv(s) && Feasible(s, schedule) && !SomeAcquires(s)
    ensures !SomeAcquires(After(s, schedule))
    decreases schedule
  {
    if schedule != [] {
      ApplyAcquires(s, schedule[0]);
      ApplyInv(s, schedule[0]);
      ReachableAcquires(Apply(s, schedule[0]), schedule[1..]);
    }
  }

  lemma SleepersAcquire(s: Pool)
    requires Inv(s)
    ensures forall t :: 0 <= t < |s.threads| && s.threads[t].pc.Asleep? ==> Acquires(Remaining(s.threads[t]))
  {
    forall t | 0 <= t < |s.threads| && s.threads[t].pc.Asleep? ensures Acquires(Remaining(s.threads[t])) {
      assert IsAcquire(Remaining(s.threads[t])[0]);
    }
  }

  /** Threads that never acquire never wait. */
  lemma NoAcquireFinishes(init: Pool, schedule: seq<Step>)
    requires Init(init) && AllBalanced(init) && Feasible(init, schedule) && !SomeAcquires(init)
    requires Halted(After(init, schedule))
    ensures AllDone(After(init, schedule))
  {
    var s := After(init, schedule);
    InitInv(init);
    ReachableInv(init, schedule);
    ReachablePeak(init, schedule);
    ReachableAcquires(init, schedule);
    HaltedThreads(s);
    SleepersAcquire(s);
  }

  lemma {:induction false} FaultlessLosesNothing(schedule: seq<Step>)
    requires Faultless(schedule)
    ensures Total(schedule, LoseCount) == 0
  {
    if schedule != [] {
      FaultlessLosesNothing(schedule[1..]);
    }
  }

  /** The exact condition: a pool can stop with a thread unfinished if and only if somebody acquires and the
      peaks add up to at least the pool size. */
  lemma StopsIff(init: Pool)
    requires Init(init) && AllBalanced(init)
    ensures CanStop(init) <==> SomeAcquires(init) && Total(init.threads, ThreadPeak) >= init.size
  {
    InitInv(init);
    if SomeAcquires(init) && Total(init.threads, ThreadPeak) >= init.size {
      PeaksMeet(init);
    }
    if CanStop(init) {
      var schedule :| Feasible(init, schedule) && Faultless(schedule)
                   && Halted(After(init, schedule)) && !AllDone(After(init, schedule));
      FaultlessLosesNothing(schedule);
      if !SomeAcquires(init) {
        NoAcquireFinishes(init, schedule);
      } else if Total(init.threads, ThreadPeak) < init.size {
        EveryThreadFinishes(init, schedule);
      }
    }
  }

  /** Some faultless schedule gets every thread through. */
  ghost predicate CanFinish(s: Pool) {
    exists schedule :: Feasible(s, schedule) && Faultless(schedule) && AllDone(After(s, schedule))
  }

  lemma CanFinishBefore(s: Pool, step: Step)
    requires Enabled(s, step) && Calm(step) && !step.Lose? && CanFinish(Apply(s, step))
    ensures CanFinish(s)
  {
    var rest :| Feasible(Apply(s, step), rest) && Faultless(rest) && AllDone(After(Apply(s, step), rest));
    var schedule := [step] + rest;
    assert schedule[1..] == rest;
    assert Feasible(s, schedule) && After(s, schedule) == After(Apply(s, step), rest);
  }

  lemma RestingIsHalted(s: Pool)
    requires forall t :: 0 <= t < |s.threads| ==> Done(s.threads[t]) || s.threads[t].pc.Asleep?
    ensures Halted(s)
  {
  }

  lemma {:induction false} RunsToTheEnd(s: Pool)
    requires Inv(s) && AllBalanced(s) && Total(s.threads, ThreadPeak) + s.lost < s.size
    ensures CanFinish(s)
    decreases Measure(s)
  {
    if t :| 0 <= t < |s.threads| && !Done(s.threads[t]) && !s.threads[t].pc.Asleep? {
      AwakeCanMove(s, t);
      var step :| Calm(step) && !step.Close? && !step.Lose? && Enabled(s, step);
      StepDecreases(s, step);
      ApplyInv(s, step);
      ApplyPeak(s, step);
      RunsToTheEnd(Apply(s, step));
      CanFinishBefore(s, step);
    } else {
      RestingIsHalted(s);
      NoDeadlock(s);
      assert Feasible(s, []) && After(s, []) == s && Faultless([]);
    }
  }

  /** And below that bound finishing is not only forced in the end but possible: some schedule does it. */
  lemma EveryoneCanFinish(init: Pool)
    requires Init(init) && AllBalanced(init) && Total(init.threads, ThreadPeak) < init.size
    ensures CanFinish(init)
  {
    InitInv(init);
    RunsToTheEnd(init);
  }

  // ---------------------------------------------------------------- the repository's own use

  /** A thread that calls the repository `n` times: each call acquires a handle and destroys it at the end. */
  function Calls(n: nat): seq<Op> {
    if n == 0 then [] else [Acquire(0), Destroy(0)] + Calls(n - 1)
  }

  lemma {:induction false} CallsHoldNothing(n: nat)
    ensures Balanced([Dead], Calls(n)) && Peak([Dead], Calls(n)) == 0
  {
    if n > 0 {
      CallsHoldNothing(n - 1);
      var script := Calls(n);
      var holding := [Live(true, Some(0))];
      assert Following([Dead], script[0]) == holding;
      assert script[1..][0] == Destroy(0) && script[1..][1..] == Calls(n - 1);
      assert Following(holding, Destroy(0)) == [Dead];
      assert Balanced(holding, script[1..]) && Peak(holding, script[1..]) == 0;
      HoldsNoneCounts([Dead]);
    }
  }

  /** So the server's own use of the pool never deadlocks: any number of threads, each making any number of
      repository calls, all get through as long as one slot survives. */
  lemma RepositoryCallsFinish(init: Pool, schedule: seq<Step>)
    requires Init(init) && Feasible(init, schedule) && Total(schedule, LoseCount) < init.size
    requires forall t :: 0 <= t < |init.threads| ==>
               init.threads[t].slots == [Dead] && exists n :: init.threads[t].script == Calls(n)
    requires Halted(After(init, schedule))
    ensures AllDone(After(init, schedule))
  {
    forall t | 0 <= t < |init.threads| ensures ThreadBalanced(init.threads[t]) && ThreadPeak(init.threads[t]) == 0 {
      var n :| init.threads[t].script == Calls(n);
      CallsHoldNothing(n);
    }
    TotalZero(init.threads, ThreadPeak);
    EveryThreadFinishes(init, schedule);
  }
}
