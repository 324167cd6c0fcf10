/**
 The pool and its handles as the sequential objects they are, one thread at a time: the queue is
 popped and pushed, handles are moved, overwritten and destroyed in place.
 */
module ConnectionPools {
  import opened Collections
  import opened HandleSlots
  import opened Permutations
  import opened PoolProtocol
  import opened PoolSafety

  /** A connection: which one it is, whether its socket is open, how often the preparer succeeded on it. */
  datatype Connection = Connection(id: nat, open: bool, prepared: nat)

  /** The queue and the number of connections ever made, after giving `conn` back: `reconnects` says whether
      opening a new connection works, `pushes` whether locking and pushing do. */
  function Returned(queue: seq<Connection>, created: nat, conn: Option<Connection>, reconnects: bool, pushes: bool)
    : (seq<Connection>, nat)
  {
    var reopened := (conn.None? || !conn.value.open) && reconnects;
    var settled := if reopened then Some(Connection(created, true, 0)) else conn;
    (if pushes && settled.Some? then queue + [settled.value] else queue, if reopened then created + 1 else created)
  }

  /** Connections just opened. */
  function Fresh(n: nat): seq<Connection> {
    seq(n, i requires 0 <= i => Connection(i, true, 0))
  }

  /** Opens every connection before there is a pool; None is the exception of the first one that fails. */
  method OpenPool(poolSize: nat, opens: nat -> bool) returns (pool: Option<ConnectionPool>)
    ensures pool.None? <==> exists i :: 0 <= i < poolSize && !opens(i)
    ensures pool.Some? ==>
              && fresh(pool.value) && pool.value.poolSize == poolSize
              && pool.value.connections == Fresh(poolSize) && pool.value.created == poolSize
              && |pool.value.connections| == poolSize
              && forall i :: 0 <= i < poolSize ==> pool.value.connections[i] == Connection(i, true, 0)
  {
    var temp := [];
    for i := 0 to poolSize
      invariant temp == Fresh(i) && forall j :: 0 <= j < i ==> opens(j)
    {
      if !opens(i) {
        return None;
      }
      temp := temp + [Connection(i, true, 0)];
    }
    var made := new ConnectionPool(poolSize, temp);
    return Some(made);
  }

  class ConnectionPool {
    const poolSize: nat
    var connections: seq<Connection>
    var created: nat

    constructor (poolSize: nat, connections: seq<Connection>)
      ensures this.poolSize == poolSize && this.connections == connections && created == |connections|
    {
      this.poolSize := poolSize;
      this.connections := connections;
      created := |connections|;
    }

    /** The blocking acquire once its wait is over: the predicate holds, so the queue is not empty. */
    method Acquire() returns (handle: ConnectionHandle)
      requires connections != []
      modifies this
      ensures fresh(handle) && handle.pool == this && handle.conn == Some(old(connections)[0])
      ensures connections == old(connections)[1..] && created == old(created)
    {
      var conn := connections[0];
      connections := connections[1..];
      handle := new ConnectionHandle(this, Some(conn));
    }

    /** The timed acquire once its wait is over: None is the timeout exception. */
    method AcquireFor() returns (handle: Option<ConnectionHandle>)
      modifies this
      ensures handle.None? <==> old(connections) == []
      ensures handle.None? ==> unchanged(this)
      ensures handle.Some? ==>
                && fresh(handle.value) && handle.value.pool == this && handle.value.conn == Some(old(connections)[0])
                && connections == old(connections)[1..] && created == old(created)
    {
      if connections == [] {
        return None;
      }
      var h := Acquire();
      return Some(h);
    }

    method ReturnConnection(conn: Option<Connection>, reconnects: bool, pushes: bool)
      modifies this
      ensures (connections, created) == Returned(old(connections), old(created), conn, reconnects, pushes)
    {
      var c := conn;
      if c.None? || !c.value.open {
        if reconnects {
          c := Some(Connection(created, true, 0));
          created := created + 1;
        }
      }
      if pushes {
        if c.Some? {
          connections := connections + [c.value];
        }
      }
    }
  }

  class ConnectionHandle {
    var pool: ConnectionPool?
    var conn: Option<Connection>

    ghost function AsSlot(): Slot<Connection>
      reads this
    {
      Live(pool != null, conn)
    }

    constructor (pool: ConnectionPool, conn: Option<Connection>)
      ensures this.pool == pool && this.conn == conn
    {
      this.pool, this.conn := pool, conn;
    }

    constructor Move(other: ConnectionHandle)
      modifies other
      ensures pool == old(other.pool) && conn == old(other.conn) && other.pool == null && other.conn == None
      ensures [AsSlot(), other.AsSlot()] == Completed([Dead, old(other.AsSlot())], Op.MoveConstruct(0, 1))
    {
      pool := other.pool;
      conn := other.conn;
      new;
      other.conn := None;
      other.pool := null;
    }

    /** Assigning a handle to itself changes nothing; otherwise the connection it overwrites goes back to the pool. */
    method MoveAssign(other: ConnectionHandle, reconnects: bool, pushes: bool)
      modifies this, other, pool
      ensures other == this ==> unchanged(this) && (pool != null ==> unchanged(pool))
      ensures other != this ==>
                && pool == old(other.pool) && conn == old(other.conn) && other.pool == null && other.conn == None
                && [AsSlot(), other.AsSlot()] == Completed([old(AsSlot()), old(other.AsSlot())], Op.MoveAssign(0, 1))
      ensures var p := old(pool);
        p != null ==>
          (p.connections, p.created) ==
          if other != this && old(AsSlot()).Carries()
          then Returned(old(pool.connections), old(pool.created), old(conn), reconnects, pushes)
          else (old(pool.connections), old(pool.created))
    {
      if this != other {
        if pool != null && conn.Some? {
          var moved := conn;
          conn := None;
          pool.ReturnConnection(moved, reconnects, pushes);
        }
        pool := other.pool;
        conn := other.conn;
        other.conn := None;
        other.pool := null;
      }
    }

    /** The destructor. */
    method Destroy(reconnects: bool, pushes: bool)
      modifies this, pool
      ensures pool == old(pool)
      ensures pool != null ==>
                (pool.connections, pool.created) ==
                if old(conn).Some?
                then Returned(old(pool.connections), old(pool.created), old(conn), reconnects, pushes)
                else (old(pool.connections), old(pool.created))
      ensures conn == if pool != null then None else old(conn)
    {
      if pool != null && conn.Some? {
        var moved := conn;
        conn := None;
        pool.ReturnConnection(moved, reconnects, pushes);
      }
    }
  }

  // ---------------------------------------------------------------- agreement with the protocol

  function Ids(queue: seq<Connection>): (ids: seq<int>)
    ensures |ids| == |queue| && forall i :: 0 <= i < |queue| ==> ids[i] == queue[i].id
  {
    seq(|queue|, i requires 0 <= i < |queue| => queue[i].id)
  }

  /** The protocol's state and the sequential queue describe the same pool. */
  ghost predicate SamePool(s: Pool, queue: seq<Connection>, created: nat) {
    s.queue == Ids(queue) && s.next == created
  }

  /** The first two steps: the handle is emptied and the connection to be pushed is settled. */
  lemma SurrenderAndCheck(s: Pool, t: nat, reconnects: bool, conn: Connection) returns (s1: Pool, s2: Pool)
    requires t < |s.threads| && s.threads[t].pc.Ready? && Runnable(s.threads[t]) && s.next >= 0
    requires var h := GivesBack(s.threads[t].slots, s.threads[t].script[0]);
      h.Some? && s.threads[t].slots[h.value].conn == Some(conn.id)
    requires conn.open <==> conn.id in s.open
    ensures Enabled(s, Step.Surrender(t)) && s1 == Apply(s, Step.Surrender(t))
    ensures Enabled(s1, Step.Check(t, reconnects)) && s2 == Apply(s1, Step.Check(t, reconnects))
    ensures var fails := conn.open || !reconnects;
      && s2.queue == s.queue && s2.next == (if fails then s.next else s.next + 1)
      && |s2.threads| == |s.threads| && s2.threads[t].script == s.threads[t].script
      && s2.threads[t].pc == Returning(if fails then conn.id else s.next, true)
    ensures var h := GivesBack(s.threads[t].slots, s.threads[t].script[0]).value;
      s2.threads[t].slots == s.threads[t].slots[h := s.threads[t].slots[h].(conn := None)]
    ensures forall w :: 0 <= w < |s.threads| && w != t ==> s2.threads[w] == s.threads[w]
  {
    s1 := Apply(s, Step.Surrender(t));
    assert s1.threads[t].pc == Returning(conn.id, false);
    s2 := Apply(s1, Step.Check(t, reconnects));
  }

  /** The last two: the push, or the exception in its place, then the notification and the rest of the operation. */
  lemma PushAndNotify(s: Pool, t: nat, pushes: bool, wakes: Option<nat>) returns (s1: Pool, s2: Pool)
    requires t < |s.threads| && s.threads[t].pc.Returning? && s.threads[t].pc.checked
    requires Runnable(s.threads[t]) && !IsAcquire(s.threads[t].script[0])
    requires wakes.Some? ==> wakes.value < |s.threads| && s.threads[wakes.value].pc.Asleep?
    requires wakes.None? ==> forall w :: 0 <= w < |s.threads| && w != t ==> !s.threads[w].pc.Asleep?
    ensures Enabled(s, Pushing(t, pushes)) && s1 == Apply(s, Pushing(t, pushes))
    ensures Enabled(s1, Step.Notify(t, wakes)) && s2 == Apply(s1, Step.Notify(t, wakes))
    ensures s2.queue == (if pushes then s.queue + [s.threads[t].pc.conn] else s.queue)
    ensures s2.next == s.next && |s2.threads| == |s.threads|
    ensures s2.threads[t].slots == Completed(s.threads[t].slots, s.threads[t].script[0])
  {
    s1 := Apply(s, Pushing(t, pushes));
    assert s1.threads[t].pc.Pushed?;
    s2 := Apply(s1, Step.Notify(t, wakes));
  }

  function Pushing(t: nat, pushes: bool): Step {
    if pushes then Step.Push(t) else Step.Lose(t)
  }

  lemma ReturnedIds(queue: seq<Connection>, created: nat, conn: Connection, reconnects: bool, pushes: bool)
    ensures var (queue', created') := Returned(queue, created, Some(conn), reconnects, pushes);
      var kept := conn.open || !reconnects;
      && Ids(queue') == (if pushes then Ids(queue) + [if kept then conn.id else created] else Ids(queue))
      && created' == if kept then created else created + 1
  {
  }

  lemma CompletedAfterEmptying(slots: seq<Slot<int>>, op: Op)
    requires Applicable(slots, op) && !IsAcquire(op) && GivesBack(slots, op).Some?
    ensures var h := GivesBack(slots, op).value;
      var emptied := slots[h := slots[h].(conn := None)];
      Applicable(emptied, op) && Completed(emptied, op) == Completed(slots, op)
  {
  }

  /** One thread's steps through ReturnConnection, run without interruption, do to the queue and the handles
      what the sequential methods do. */
  lemma ReturnAgrees(s: Pool, t: nat, wakes: Option<nat>, reconnects: bool, pushes: bool,
                     queue: seq<Connection>, created: nat, conn: Connection)
    requires SamePool(s, queue, created) && t < |s.threads| && s.threads[t].pc.Ready? && Runnable(s.threads[t])
    requires var h := GivesBack(s.threads[t].slots, s.threads[t].script[0]);
      h.Some? && s.threads[t].slots[h.value].conn == Some(conn.id)
    requires conn.open <==> conn.id in s.open
    requires wakes.Some? ==> wakes.value < |s.threads| && s.threads[wakes.value].pc.Asleep?
    requires wakes.None? ==> forall w :: 0 <= w < |s.threads| ==> !s.threads[w].pc.Asleep?
    ensures var schedule := [Step.Surrender(t), Step.Check(t, reconnects), Pushing(t, pushes), Step.Notify(t, wakes)];
      var (queue', created') := Returned(queue, created, Some(conn), reconnects, pushes);
      && Feasible(s, schedule) && t < |After(s, schedule).threads|
      && SamePool(After(s, schedule), queue', created')
      && After(s, schedule).threads[t].slots == Completed(s.threads[t].slots, s.threads[t].script[0])
  {
    var s1, s2 := SurrenderAndCheck(s, t, reconnects, conn);
    var s3, s4 := PushAndNotify(s2, t, pushes, wakes);
    FourSteps(s, s1, s2, s3, s4, Step.Surrender(t), Step.Check(t, reconnects), Pushing(t, pushes), Step.Notify(t, wakes));
    ReturnedIds(queue, created, conn, reconnects, pushes);
    CompletedAfterEmptying(s.threads[t].slots, s.threads[t].script[0]);
  }

  /** A connection can close while a thread holds it, and is then replaced by a new, open one when given back. */
  lemma ClosedIsReplaced(s: Pool, t: nat, c: int)
    requires t < |s.threads| && s.threads[t].pc.Ready? && Runnable(s.threads[t]) && s.next >= 0
    requires var h := GivesBack(s.threads[t].slots, s.threads[t].script[0]);
      h.Some? && s.threads[t].slots[h.value].conn == Some(c)
    requires c in s.open && c != s.next && forall w :: 0 <= w < |s.threads| ==> !s.threads[w].pc.Asleep?
    ensures var schedule := [Step.Close(c), Step.Surrender(t), Step.Check(t, true), Step.Push(t), Step.Notify(t, None)];
      && Feasible(s, schedule)
      && After(s, schedule).queue == s.queue + [s.next]
      && s.next in After(s, schedule).open && c !in After(s, schedule).open
  {
    var steps := [Step.Surrender(t), Step.Check(t, true), Step.Push(t), Step.Notify(t, None)];
    var s0 := Apply(s, Step.Close(c));
    var s1 := Apply(s0, Step.Surrender(t));
    var s2 := Apply(s1, Step.Check(t, true));
    var s3 := Apply(s2, Step.Push(t));
    var s4 := Apply(s3, Step.Notify(t, None));
    FourSteps(s0, s1, s2, s3, s4, steps[0], steps[1], steps[2], steps[3]);
    assert [Step.Close(c), Step.Surrender(t), Step.Check(t, true), Step.Push(t), Step.Notify(t, None)][1..] == steps;
  }

  /** And its acquire takes the same connection off the same queue. */
  lemma AcquireAgrees(s: Pool, t: nat, queue: seq<Connection>, created: nat)
    requires SamePool(s, queue, created) && t < |s.threads| && Asking(s.threads[t]) && queue != []
    ensures Enabled(s, Step.Take(t)) && SamePool(Apply(s, Step.Take(t)), queue[1..], created)
    ensures Apply(s, Step.Take(t)).threads[t].slots
         == s.threads[t].slots[s.threads[t].script[0].h := Live(true, Some(queue[0].id))]
  {
    assert Ids(queue)[1..] == Ids(queue[1..]);
  }

  lemma FourSteps(s: Pool, s1: Pool, s2: Pool, s3: Pool, s4: Pool, a: Step, b: Step, c: Step, d: Step)
    requires Enabled(s, a) && s1 == Apply(s, a) && Enabled(s1, b) && s2 == Apply(s1, b)
    requires Enabled(s2, c) && s3 == Apply(s2, c) && Enabled(s3, d) && s4 == Apply(s3, d)
    ensures Feasible(s, [a, b, c, d]) && After(s, [a, b, c, d]) == s4
  {
    assert [a, b, c, d][1..] == [b, c, d] && [b, c, d][1..] == [c, d] && [c, d][1..] == [d] && [d][1..] == [];
    assert Feasible(s4, []) && Feasible(s3, [d]) && Feasible(s2, [c, d]) && Feasible(s1, [b, c, d]);
    assert After(s3, [d]) == After(s4, []) == s4;
    assert After(s2, [c, d]) == s4 && After(s1, [b, c, d]) == s4;
  }

  // ---------------------------------------------------------------- preparing the pool by rotation

  /** What happens to the connection acquired in one round: the preparer succeeds or throws, the socket
      stays open or not, a reconnect would work or not, locking and pushing work or throw. */
  datatype Round = Round(prepares: bool, survives: bool, reconnects: bool, pushes: bool)

  function Prepared(c: Connection): Connection {
    c.(prepared := c.prepared + 1)
  }

  function Treated(c: Connection, round: Round): Connection {
    var p := if round.prepares then Prepared(c) else c;
    p.(open := p.open && round.survives)
  }

  /** The queue after acquiring, preparing and giving back one connection. */
  function AfterRound(queue: seq<Connection>, created: nat, round: Round): (seq<Connection>, nat)
    requires queue != []
  {
    Returned(queue[1..], created, Some(Treated(queue[0], round)), round.reconnects, round.pushes)
  }

  function AfterRounds(queue: seq<Connection>, created: nat, rounds: seq<Round>): (seq<Connection>, nat)
    requires |rounds| <= |queue|
    decreases rounds
  {
    if rounds == [] then (queue, created)
    else
      var (queue1, created1) := AfterRound(queue, created, rounds[0]);
      AfterRounds(queue1, created1, rounds[1..])
  }

  /** A round can lose a slot, so the queue gets shorter, but never so short that the next acquire would wait. */
  lemma {:induction false} AfterOneMore(queue: seq<Connection>, created: nat, rounds: seq<Round>, round: Round)
    requires |rounds| < |queue|
    ensures var (q, n) := AfterRounds(queue, created, rounds);
      q != [] && AfterRounds(queue, created, rounds + [round]) == AfterRound(q, n, round)
    decreases rounds
  {
    var all := rounds + [round];
    if rounds != [] {
      var (queue1, created1) := AfterRound(queue, created, rounds[0]);
      AfterOneMore(queue1, created1, rounds[1..], round);
      assert all[1..] == rounds[1..] + [round];
    } else {
      assert all[1..] == [];
    }
  }

  /** `opens` and `rounds` fix what opening, the preparer, the sockets and the reconnects do. */
  method CreatePreparedPool(poolSize: nat, opens: nat -> bool, rounds: seq<Round>) returns (pool: Option<ConnectionPool>)
    requires |rounds| == poolSize
    ensures pool.None? <==> exists i :: 0 <= i < poolSize && !opens(i)
    ensures pool.Some? ==>
              && fresh(pool.value) && pool.value.poolSize == poolSize
              && (pool.value.connections, pool.value.created) == AfterRounds(Fresh(poolSize), poolSize, rounds)
    ensures pool.Some? && (forall r :: r in rounds ==> r.prepares && r.survives && r.pushes) ==>
              && |pool.value.connections| == poolSize
              && forall i :: 0 <= i < poolSize ==> pool.value.connections[i] == Connection(i, true, 1)
  {
    pool := OpenPool(poolSize, opens);
    if pool.None? {
      return;
    }
    var p := pool.value;
    ghost var start := Fresh(poolSize);
    for i := 0 to poolSize
      invariant fresh(p) && p.poolSize == poolSize
      invariant (p.connections, p.created) == AfterRounds(start, poolSize, rounds[..i])
    {
      AfterOneMore(start, poolSize, rounds[..i], rounds[i]);
      assert rounds[..i + 1] == rounds[..i] + [rounds[i]];
      var handle := p.Acquire();
      if rounds[i].prepares {
        handle.conn := Some(Prepared(handle.conn.value));
      }
      handle.conn := Some(handle.conn.value.(open := handle.conn.value.open && rounds[i].survives));
      handle.Destroy(rounds[i].reconnects, rounds[i].pushes);
    }
    assert rounds[..poolSize] == rounds;
    if forall r :: r in rounds ==> r.prepares && r.survives && r.pushes {
      GoodRoundsPrepareOnce(start, poolSize, rounds);
    }
  }

  /** Round `j` put back the connection it took, treated; or, when that one had closed and reconnecting
      worked, a new connection nobody prepared. */
  predicate PutBack(c: Connection, taken: Connection, round: Round, created: nat) {
    if !Treated(taken, round).open && round.reconnects
    then c.open && c.prepared == 0 && c.id >= created
    else c == Treated(taken, round)
  }

  function PushCount(round: Round): nat { if round.pushes then 1 else 0 }

  /** How many of the first `j` rounds put something back. */
  function PutBackBefore(rounds: seq<Round>, j: nat): nat
    requires j <= |rounds|
  {
    Total(rounds[..j], PushCount)
  }

  lemma PutBackOneMore(rounds: seq<Round>, round: Round)
    ensures PutBackBefore(rounds + [round], |rounds| + 1) == PutBackBefore(rounds, |rounds|) + PushCount(round)
    ensures forall j :: 0 <= j <= |rounds| ==> PutBackBefore(rounds + [round], j) == PutBackBefore(rounds, j)
  {
    assert (rounds + [round])[..|rounds| + 1] == rounds + [round] && rounds[..|rounds|] == rounds;
    TotalAppend(rounds, round, PushCount);
    forall j | 0 <= j <= |rounds| ensures PutBackBefore(rounds + [round], j) == PutBackBefore(rounds, j) {
      assert (rounds + [round])[..j] == rounds[..j];
    }
  }

  lemma {:induction false} PutBackGrows(rounds: seq<Round>, j: nat)
    requires j < |rounds| && rounds[j].pushes
    ensures PutBackBefore(rounds, j) < PutBackBefore(rounds, |rounds|)
  {
    var k := |rounds| - 1;
    assert rounds == rounds[..k] + [rounds[k]];
    PutBackOneMore(rounds[..k], rounds[k]);
    if j < k {
      PutBackGrows(rounds[..k], j);
    }
  }

  /** The untouched rest of `queue` is in front of `q`, and behind it, in the order of the rounds, what each of
      them put back; a round whose push threw is missing there. */
  ghost predicate Rotated(queue: seq<Connection>, created: nat, rounds: seq<Round>, q: seq<Connection>)
    requires |rounds| <= |queue|
  {
    var rest := |queue| - |rounds|;
    && |q| == rest + PutBackBefore(rounds, |rounds|) && q[..rest] == queue[|rounds|..]
    && forall j :: 0 <= j < |rounds| && rounds[j].pushes ==>
         PutBackBefore(rounds, j) < PutBackBefore(rounds, |rounds|)
         && PutBack(q[rest + PutBackBefore(rounds, j)], queue[j], rounds[j], created)
  }

  lemma RotateOneMore(queue: seq<Connection>, created: nat, rounds: seq<Round>, round: Round, q: seq<Connection>, n: nat)
    requires |rounds| < |queue| && Rotated(queue, created, rounds, q) && n >= created
    ensures q != [] && Rotated(queue, created, rounds + [round], AfterRound(q, n, round).0)
  {
    var rest, all := |queue| - |rounds|, rounds + [round];
    PutBackOneMore(rounds, round);
    assert q[0] == q[..rest][0] == queue[|rounds|];
    var q' := AfterRound(q, n, round).0;
    assert q'[..rest - 1] == q[..rest][1..] == queue[|all|..];
    forall j | 0 <= j < |all| && all[j].pushes
      ensures PutBackBefore(all, j) < PutBackBefore(all, |all|)
      ensures PutBack(q'[rest - 1 + PutBackBefore(all, j)], queue[j], all[j], created)
    {
      PutBackGrows(all, j);
      if j < |rounds| {
        assert q'[rest - 1 + PutBackBefore(all, j)] == q[rest + PutBackBefore(rounds, j)];
      }
    }
  }

  /** Up to one full turn, the rounds rotate the queue. */
  lemma {:induction false} RoundsRotate(queue: seq<Connection>, created: nat, rounds: seq<Round>)
    requires |rounds| <= |queue|
    ensures var (q, n) := AfterRounds(queue, created, rounds); n >= created && Rotated(queue, created, rounds, q)
    decreases rounds
  {
    if rounds != [] {
      var k := |rounds| - 1;
      RoundsRotate(queue, created, rounds[..k]);
      AfterOneMore(queue, created, rounds[..k], rounds[k]);
      assert rounds == rounds[..k] + [rounds[k]];
      var (q, n) := AfterRounds(queue, created, rounds[..k]);
      RotateOneMore(queue, created, rounds[..k], rounds[k], q, n);
    }
  }

  lemma {:induction false} AllPutBack(rounds: seq<Round>, j: nat)
    requires j <= |rounds| && forall r :: r in rounds ==> r.pushes
    ensures PutBackBefore(rounds, j) == j
  {
    if j > 0 {
      AllPutBack(rounds, j - 1);
      PutBackOneMore(rounds[..j - 1], rounds[j - 1]);
      assert rounds[..j - 1] + [rounds[j - 1]] == rounds[..j] && rounds[..j][..j] == rounds[..j];
      assert rounds[..j - 1][..j - 1] == rounds[..j - 1] && rounds[j - 1] in rounds;
    }
  }

  lemma RotatedWhenGood(queue: seq<Connection>, created: nat, rounds: seq<Round>, q: seq<Connection>)
    requires |rounds| <= |queue| && Rotated(queue, created, rounds, q)
    requires forall c :: c in queue ==> c.open
    requires forall r :: r in rounds ==> r.prepares && r.survives && r.pushes
    ensures q == queue[|rounds|..] + seq(|rounds|, j requires 0 <= j < |rounds| => Prepared(queue[j]))
  {
    var rest := |queue| - |rounds|;
    AllPutBack(rounds, |rounds|);
    forall j | 0 <= j < |rounds| ensures q[rest + j] == Prepared(queue[j]) {
      AllPutBack(rounds, j);
      assert rounds[j] in rounds && queue[j] in queue;
      assert PutBack(q[rest + PutBackBefore(rounds, j)], queue[j], rounds[j], created);
    }
    assert q == q[..rest] + q[rest..];
  }

  /** When nothing fails, i rounds leave the queue rotated by i with exactly the first i connections prepared;
      after a full turn the order is restored and each connection was prepared exactly once. */
  lemma GoodRoundsPrepareOnce(queue: seq<Connection>, created: nat, rounds: seq<Round>)
    requires |rounds| <= |queue|
    requires forall c :: c in queue ==> c.open
    requires forall r :: r in rounds ==> r.prepares && r.survives && r.pushes
    ensures AfterRounds(queue, created, rounds).0
         == queue[|rounds|..] + seq(|rounds|, j requires 0 <= j < |rounds| => Prepared(queue[j]))
  {
    RoundsRotate(queue, created, rounds);
    RotatedWhenGood(queue, created, rounds, AfterRounds(queue, created, rounds).0);
  }

  // ---------------------------------------------------------------- which connections are unprepared

  /** Every connection in the queue has its own number, and later ones will have others. */
  ghost predicate Numbered(queue: seq<Connection>, created: nat) {
    NoDuplicates(Ids(queue)) && forall i :: 0 <= i < |queue| ==> queue[i].id < created
  }

  /** Every connection is either prepared and one of the first `poolSize`, or untouched. */
  predicate PreparedBy(queue: seq<Connection>, poolSize: nat) {
    forall i :: 0 <= i < |queue| ==> (queue[i].prepared > 0 <==> queue[i].id < poolSize)
  }

  lemma RoundKeepsNumbers(queue: seq<Connection>, created: nat, round: Round)
    requires queue != [] && Numbered(queue, created)
    ensures Numbered(AfterRound(queue, created, round).0, AfterRound(queue, created, round).1)
  {
    var (q, n) := AfterRound(queue, created, round);
    forall i, j | 0 <= i < j < |q| ensures Ids(q)[i] != Ids(q)[j] {
      assert Ids(queue)[i + 1] == queue[i + 1].id && Ids(queue)[0] == queue[0].id;
      if j < |queue| - 1 {
        assert Ids(queue)[j + 1] == queue[j + 1].id;
      }
    }
  }

  /** The first `rest` connections are untouched, all others are either prepared or reborn. */
  ghost predicate Halfway(poolSize: nat, rest: nat, q: seq<Connection>, n: nat) {
    && rest <= |q| <= poolSize <= n && Numbered(q, n)
    && q[..rest] == Fresh(poolSize)[poolSize - rest..] && PreparedBy(q[rest..], poolSize)
  }

  lemma OneMoreIsPrepared(poolSize: nat, rest: nat, q: seq<Connection>, n: nat, round: Round)
    requires 0 < rest && Halfway(poolSize, rest, q, n) && round.prepares
    ensures Halfway(poolSize, rest - 1, AfterRound(q, n, round).0, AfterRound(q, n, round).1)
  {
    var (q', n') := AfterRound(q, n, round);
    RoundKeepsNumbers(q, n, round);
    assert q[0] == q[..rest][0] == Fresh(poolSize)[poolSize - rest];
    assert q'[..rest - 1] == q[..rest][1..] == Fresh(poolSize)[poolSize - rest + 1..];
    var back, back' := q[rest..], q'[rest - 1..];
    assert forall i :: 0 <= i < |back| ==> back'[i] == back[i];
  }

  lemma {:induction false} PreparationPrepares(poolSize: nat, rounds: seq<Round>)
    requires |rounds| <= poolSize && forall r :: r in rounds ==> r.prepares
    ensures var (q, n) := AfterRounds(Fresh(poolSize), poolSize, rounds); Halfway(poolSize, poolSize - |rounds|, q, n)
    decreases rounds
  {
    if rounds != [] {
      var k := |rounds| - 1;
      PreparationPrepares(poolSize, rounds[..k]);
      AfterOneMore(Fresh(poolSize), poolSize, rounds[..k], rounds[k]);
      assert rounds == rounds[..k] + [rounds[k]] && rounds[k] in rounds;
      var (q, n) := AfterRounds(Fresh(poolSize), poolSize, rounds[..k]);
      OneMoreIsPrepared(poolSize, poolSize - k, q, n, rounds[k]);
    }
  }

  /** A protocol state in which the threads find the pool as preparation left it. */
  ghost predicate HandedOver(s: Pool, poolSize: nat, queue: seq<Connection>, created: nat) {
    && SamePool(s, queue, created) && s.size == poolSize && s.lost == poolSize - |queue|
    && forall t :: 0 <= t < |s.threads| ==>
         s.threads[t].pc.Ready? && forall h :: 0 <= h < |s.threads[t].slots| ==> s.threads[t].slots[h].Dead?
  }

  lemma {:induction false} DistinctHits(ids: seq<int>, c: int)
    requires NoDuplicates(ids)
    ensures Total(ids, Hits(One(c))) == if c in ids then 1 else 0
  {
    if ids != [] {
      DistinctHits(ids[1..], c);
      assert c in ids <==> c == ids[0] || c in ids[1..];
    }
  }

  lemma HandedOverInv(s: Pool, poolSize: nat, queue: seq<Connection>, created: nat)
    requires HandedOver(s, poolSize, queue, created) && Numbered(queue, created) && |queue| <= poolSize
    ensures Inv(s)
    ensures forall c: int :: Places(s, One(c)) == if c in Ids(queue) then 1 else 0
  {
    forall which: Which ensures Total(s.threads, InThread(which)) == 0 {
      forall t | 0 <= t < |s.threads| ensures InThread(which)(s.threads[t]) == 0 {
        TotalZero(s.threads[t].slots, InSlot(which));
      }
      TotalZero(s.threads, InThread(which));
    }
    CountAny(s.queue);
    forall c: int ensures Places(s, One(c)) == if c in Ids(queue) then 1 else 0 {
      DistinctHits(Ids(queue), c);
    }
    TotalZero(s.threads, AsleepCount);
  }

  /** Any threads can take the pool over. */
  lemma AnyThreadsTakeOver(poolSize: nat, queue: seq<Connection>, created: nat, scripts: seq<seq<Op>>, handles: nat) returns (s: Pool)
    requires |queue| <= poolSize
    ensures HandedOver(s, poolSize, queue, created) && |s.threads| == |scripts|
    ensures forall t :: 0 <= t < |scripts| ==> s.threads[t] == Thread(Ready, seq(handles, i => Dead), scripts[t])
  {
    s := Pool(poolSize, Ids(queue),
              seq(|scripts|, t requires 0 <= t < |scripts| => Thread(Ready, seq(handles, i => Dead), scripts[t])),
              (set i | 0 <= i < |queue| && queue[i].open :: queue[i].id), created, poolSize - |queue|);
  }

  /** The connection with number `c` was prepared. */
  predicate IsPrepared(queue: seq<Connection>, c: int) {
    exists i :: 0 <= i < |queue| && queue[i].id == c && queue[i].prepared > 0
  }

  /** If the preparer never throws, then from preparation on, under every schedule of any threads that share the
      pool, a connection anywhere is unprepared exactly when a reconnect made it. */
  lemma UnpreparedIsReborn(poolSize: nat, rounds: seq<Round>, s: Pool, schedule: seq<Step>, site: Site, c: int)
    requires |rounds| == poolSize && forall r :: r in rounds ==> r.prepares
    requires var (q, n) := AfterRounds(Fresh(poolSize), poolSize, rounds); HandedOver(s, poolSize, q, n)
    requires Feasible(s, schedule) && At(After(s, schedule), site, c)
    ensures !IsPrepared(AfterRounds(Fresh(poolSize), poolSize, rounds).0, c) <==> c >= poolSize
  {
    var (q, n) := AfterRounds(Fresh(poolSize), poolSize, rounds);
    PreparationPrepares(poolSize, rounds);
    assert q[0..] == q;
    HandedOverInv(s, poolSize, q, n);
    SiteIsAPlace(After(s, schedule), site, c);
    OnlyReconnectsAdd(s, schedule, c);
    if c < n {
      var i :| 0 <= i < |q| && Ids(q)[i] == c;
      assert q[i].id == c;
      if IsPrepared(q, c) {
        var k :| 0 <= k < |q| && q[k].id == c && q[k].prepared > 0;
      }
    }
  }
}
