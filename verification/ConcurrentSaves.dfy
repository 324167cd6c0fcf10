/**
 Any number of saves running at the same time over one store.  A save is a stream cut into batches, or a
 unary request as a single batch; every batch is one transaction.  Rows of open transactions are invisible,
 ids are drawn from one shared sequence and are not given back, and ids of several saves mix freely.
 */
module ConcurrentSaves {
  import opened Collections
  import opened Permutations
  import opened Events
  import opened Schema

  datatype Phase = Between | InTransaction | Finished

  /** `rows` are the ids of this save's committed events, `pending` the ids drawn by its open transaction. */
  datatype Save = Save(events: seq<Event>, batchSize: nat, phase: Phase, rows: seq<int>, pending: seq<int>) {
    /** Where the batch being saved ends. */
    function BatchEnd(): nat {
      if |rows| + batchSize < |events| then |rows| + batchSize else |events|
    }
  }

  /** `rows` is what is committed; `base` was there before; `owner` says which save drew an id. */
  datatype Db = Db(base: map<int, Event>, rows: map<int, Event>, owner: map<int, nat>, nextId: int, saves: seq<Save>)

  datatype Step =
    | Begin(s: nat)
    | Insert(s: nat, skipped: nat)
    | Commit(s: nat)
    | Rollback(s: nat)
    | Stop(s: nat)

  predicate Enabled(db: Db, step: Step) {
    step.s < |db.saves| &&
    var save := db.saves[step.s];
    |save.rows| <= |save.events| &&
    match step
    case Begin(_) => save.phase.Between? && |save.rows| < |save.events|
    case Insert(_, _) => save.phase.InTransaction? && |save.rows| + |save.pending| < save.BatchEnd()
    case Commit(_) => save.phase.InTransaction? && |save.rows| + |save.pending| == save.BatchEnd()
    case Rollback(_) => save.phase.InTransaction?
    case Stop(_) => save.phase.Between?
  }

  /** The committed rows once the events of a transaction join them under its ids. */
  function Published(rows: map<int, Event>, ids: seq<int>, events: seq<Event>): map<int, Event>
    requires |ids| == |events|
  {
    if ids == [] then rows
    else Published(rows, ids[..|ids| - 1], events[..|ids| - 1])[ids[|ids| - 1] := events[|ids| - 1]]
  }

  function Apply(db: Db, step: Step): Db
    requires Enabled(db, step)
  {
    var save := db.saves[step.s];
    match step
    case Begin(s) => db.(saves := db.saves[s := save.(phase := InTransaction, pending := [])])
    case Insert(s, skipped) =>
      var id := db.nextId + skipped;
      db.(saves := db.saves[s := save.(pending := save.pending + [id])], owner := db.owner[id := s], nextId := id + 1)
    case Commit(s) =>
      db.(saves := db.saves[s := save.(phase := Between, rows := save.rows + save.pending, pending := [])],
          rows := Published(db.rows, save.pending, save.events[|save.rows|..save.BatchEnd()]))
    case Rollback(s) => db.(saves := db.saves[s := save.(phase := Finished, pending := [])])
    case Stop(s) => db.(saves := db.saves[s := save.(phase := Finished)])
  }

  ghost predicate Init(db: Db) {
    && db.rows == db.base && db.owner == map[]
    && (forall id :: id in db.base ==> id < db.nextId)
    && forall s :: 0 <= s < |db.saves| ==>
         db.saves[s].phase.Between? && db.saves[s].rows == [] && db.saves[s].pending == [] && db.saves[s].batchSize > 0
  }

  // ---------------------------------------------------------------- the invariant

  /** `n` is made of whole batches. */
  predicate WholeBatches(n: nat, size: nat)
    requires size > 0
  {
    n == 0 || (n >= size && WholeBatches(n - size, size))
  }

  /** What a save knows by itself. */
  ghost predicate Shape(save: Save) {
    && save.batchSize > 0
    && |save.rows| + |save.pending| <= |save.events|
    && (save.phase.InTransaction? || save.pending == [])
    && (save.phase.InTransaction? ==> |save.rows| < |save.events|)
    && (WholeBatches(|save.rows|, save.batchSize) || |save.rows| == |save.events|)
    && Increasing(save.rows) && Increasing(save.pending)
    && (forall i, j :: 0 <= i < |save.rows| && 0 <= j < |save.pending| ==> save.rows[i] < save.pending[j])
  }

  ghost predicate Drew(owner: map<int, nat>, s: nat, ids: seq<int>) {
    forall j :: 0 <= j < |ids| ==> ids[j] in owner && owner[ids[j]] == s
  }

  ghost predicate Shown(rows: map<int, Event>, ids: seq<int>, events: seq<Event>) {
    |ids| <= |events| && forall j :: 0 <= j < |ids| ==> ids[j] in rows && rows[ids[j]] == events[j]
  }

  ghost predicate Hidden(rows: map<int, Event>, ids: seq<int>) {
    forall j :: 0 <= j < |ids| ==> ids[j] !in rows
  }

  ghost predicate SaveOk(db: Db, s: nat)
    requires s < |db.saves|
  {
    var save := db.saves[s];
    && Shape(save)
    && Drew(db.owner, s, save.rows) && Drew(db.owner, s, save.pending)
    && Shown(db.rows, save.rows, save.events) && Hidden(db.rows, save.pending)
  }

  ghost predicate StoreOk(db: Db) {
    && (forall id :: id in db.owner ==> id < db.nextId && id !in db.base)
    && (forall id :: id in db.base ==> id < db.nextId && id in db.rows && db.rows[id] == db.base[id])
    && (forall id :: id in db.rows && id !in db.base ==>
          id in db.owner && db.owner[id] < |db.saves| && id in db.saves[db.owner[id]].rows)
    && |db.rows| == |db.base| + Total(db.saves, SavedCount)
  }

  function SavedCount(save: Save): nat { |save.rows| }

  ghost predicate Inv(db: Db) {
    StoreOk(db) && forall s :: 0 <= s < |db.saves| ==> SaveOk(db, s)
  }

  ghost predicate Feasible(db: Db, schedule: seq<Step>)
    decreases schedule
  {
    schedule == [] ||
    (Enabled(db, schedule[0]) && Feasible(Apply(db, schedule[0]), schedule[1..]))
  }

  ghost function After(db: Db, schedule: seq<Step>): Db
    requires Feasible(db, schedule)
    decreases schedule
  {
    if schedule == [] then db else After(Apply(db, schedule[0]), schedule[1..])
  }

  // ---------------------------------------------------------------- publishing a transaction

  /** `r` is `rows` and the events under their ids. */
  ghost predicate Joined(r: map<int, Event>, rows: map<int, Event>, ids: seq<int>, events: seq<Event>)
    requires |ids| == |events|
  {
    && (forall id :: id in r <==> id in rows || id in ids)
    && (forall id :: id in rows && id !in ids ==> r[id] == rows[id])
    && (forall j :: 0 <= j < |ids| ==> r[ids[j]] == events[j])
  }

  lemma JoinOne(r: map<int, Event>, rows: map<int, Event>, ids: seq<int>, events: seq<Event>, id: int, e: Event)
    requires |ids| == |events| && id !in ids && Joined(r, rows, ids, events)
    ensures Joined(r[id := e], rows, ids + [id], events + [e])
  {
    forall x ensures x in r[id := e] <==> x in rows || x in ids + [id] {}
  }

  lemma {:induction false} PublishedContents(rows: map<int, Event>, ids: seq<int>, events: seq<Event>)
    requires |ids| == |events| && Increasing(ids)
    ensures Joined(Published(rows, ids, events), rows, ids, events)
  {
    if ids != [] {
      var n := |ids| - 1;
      PublishedContents(rows, ids[..n], events[..n]);
      assert ids[n] !in ids[..n];
      JoinOne(Published(rows, ids[..n], events[..n]), rows, ids[..n], events[..n], ids[n], events[n]);
      assert ids == ids[..n] + [ids[n]] && events == events[..n] + [events[n]];
    }
  }

  lemma {:induction false} PublishedSize(rows: map<int, Event>, ids: seq<int>, events: seq<Event>)
    requires |ids| == |events| && Increasing(ids)
    requires forall j :: 0 <= j < |ids| ==> ids[j] !in rows
    ensures |Published(rows, ids, events)| == |rows| + |ids|
  {
    if ids != [] {
      var n := |ids| - 1;
      PublishedSize(rows, ids[..n], events[..n]);
      PublishedContents(rows, ids[..n], events[..n]);
      assert ids[n] !in ids[..n] && ids[n] !in rows;
    }
  }

  lemma PublishedRows(rows: map<int, Event>, ids: seq<int>, events: seq<Event>)
    requires |ids| == |events| && Increasing(ids)
    requires forall j :: 0 <= j < |ids| ==> ids[j] !in rows
    ensures var r := Published(rows, ids, events);
      && (forall id :: id in r <==> id in rows || id in ids)
      && (forall id :: id in rows ==> r[id] == rows[id])
      && (forall j :: 0 <= j < |ids| ==> r[ids[j]] == events[j])
      && |r| == |rows| + |ids|
  {
    PublishedContents(rows, ids, events);
    PublishedSize(rows, ids, events);
  }

  // ---------------------------------------------------------------- every step keeps the invariant

  lemma InitInv(db: Db)
    requires Init(db)
    ensures Inv(db)
  {
    TotalZero(db.saves, SavedCount);
  }

  /** Steps that neither publish nor draw an id. */
  lemma QuietStep(db: Db, step: Step)
    requires Inv(db) && Enabled(db, step) && !step.Commit? && !step.Insert?
    ensures Inv(Apply(db, step))
  {
    var db' := Apply(db, step);
    TotalUpdate(db.saves, step.s, db'.saves[step.s], SavedCount);
    assert SaveOk(db, step.s);
    assert forall s :: 0 <= s < |db.saves| ==> SaveOk(db, s);
    assert db'.saves[step.s].rows == db.saves[step.s].rows;
    forall s | 0 <= s < |db'.saves| ensures SaveOk(db', s) {
      assert SaveOk(db, s);
    }
  }

  lemma InsertShape(db: Db, step: Step)
    requires Inv(db) && Enabled(db, step) && step.Insert?
    ensures Shape(Apply(db, step).saves[step.s])
  {
    var save := db.saves[step.s];
    assert SaveOk(db, step.s);
    assert forall i :: 0 <= i < |save.rows| ==> save.rows[i] in db.owner;
    assert forall i :: 0 <= i < |save.pending| ==> save.pending[i] in db.owner;
  }

  lemma InsertSave(db: Db, step: Step, s: nat)
    requires Inv(db) && Enabled(db, step) && step.Insert? && s < |db.saves|
    ensures SaveOk(Apply(db, step), s)
  {
    assert SaveOk(db, s);
    var id := db.nextId + step.skipped;
    assert id !in db.owner && id !in db.rows;
    if s == step.s {
      InsertShape(db, step);
    }
  }

  lemma InsertStep(db: Db, step: Step)
    requires Inv(db) && Enabled(db, step) && step.Insert?
    ensures Inv(Apply(db, step))
  {
    var db' := Apply(db, step);
    TotalUpdate(db.saves, step.s, db'.saves[step.s], SavedCount);
    assert StoreOk(db') by {
      var id := db.nextId + step.skipped;
      assert id !in db.owner && id !in db.rows;
    }
    forall s | 0 <= s < |db'.saves| ensures SaveOk(db', s) {
      InsertSave(db, step, s);
    }
  }

  lemma CommitStore(db: Db, step: Step)
    requires Inv(db) && Enabled(db, step) && step.Commit?
    ensures StoreOk(Apply(db, step))
  {
    var db' := Apply(db, step);
    var save := db.saves[step.s];
    assert SaveOk(db, step.s);
    PublishedRows(db.rows, save.pending, save.events[|save.rows|..save.BatchEnd()]);
    TotalUpdate(db.saves, step.s, db'.saves[step.s], SavedCount);
    forall id | id in db'.rows && id !in db'.base
      ensures id in db'.owner && db'.owner[id] < |db'.saves| && id in db'.saves[db'.owner[id]].rows
    {
      assert id in save.pending || id in db.rows;
    }
  }

  lemma IncreasingConcat(a: seq<int>, b: seq<int>)
    requires Increasing(a) && Increasing(b)
    requires forall i, j :: 0 <= i < |a| && 0 <= j < |b| ==> a[i] < b[j]
    ensures Increasing(a + b)
  {
  }

  lemma DrewConcat(owner: map<int, nat>, s: nat, a: seq<int>, b: seq<int>)
    requires Drew(owner, s, a) && Drew(owner, s, b)
    ensures Drew(owner, s, a + b)
  {
  }

  lemma CommitShape(save: Save)
    requires Shape(save) && save.phase.InTransaction? && |save.rows| + |save.pending| == save.BatchEnd()
    ensures Shape(save.(phase := Between, rows := save.rows + save.pending, pending := []))
  {
    IncreasingConcat(save.rows, save.pending);
  }

  lemma CommitShows(rows: map<int, Event>, save: Save)
    requires Shape(save) && save.phase.InTransaction? && |save.rows| + |save.pending| == save.BatchEnd()
    requires Shown(rows, save.rows, save.events) && Hidden(rows, save.pending)
    ensures Shown(Published(rows, save.pending, save.events[|save.rows|..save.BatchEnd()]), save.rows + save.pending, save.events)
  {
    var events := save.events[|save.rows|..save.BatchEnd()];
    PublishedRows(rows, save.pending, events);
    var ids := save.rows + save.pending;
    var rows' := Published(rows, save.pending, events);
    forall j | 0 <= j < |ids| ensures ids[j] in rows' && rows'[ids[j]] == save.events[j] {
      if j >= |save.rows| {
        var k := j - |save.rows|;
        assert ids[j] == save.pending[k] && events[k] == save.events[j];
      } else {
        assert ids[j] == save.rows[j];
      }
    }
  }

  lemma CommitSelf(db: Db, step: Step)
    requires Inv(db) && Enabled(db, step) && step.Commit?
    ensures SaveOk(Apply(db, step), step.s)
  {
    var save := db.saves[step.s];
    assert SaveOk(db, step.s);
    CommitShape(save);
    CommitShows(db.rows, save);
    DrewConcat(db.owner, step.s, save.rows, save.pending);
  }

  lemma CommitOther(db: Db, step: Step, s: nat)
    requires Inv(db) && Enabled(db, step) && step.Commit? && s < |db.saves| && s != step.s
    ensures SaveOk(Apply(db, step), s)
  {
    var save, other := db.saves[step.s], db.saves[s];
    assert SaveOk(db, s) && SaveOk(db, step.s);
    PublishedRows(db.rows, save.pending, save.events[|save.rows|..save.BatchEnd()]);
    forall j | 0 <= j < |other.pending| ensures other.pending[j] !in save.pending {
      assert db.owner[other.pending[j]] == s;
    }
  }

  lemma ApplyInv(db: Db, step: Step)
    requires Inv(db) && Enabled(db, step)
    ensures Inv(Apply(db, step))
  {
    if step.Commit? {
      CommitStore(db, step);
      forall s | 0 <= s < |Apply(db, step).saves| ensures SaveOk(Apply(db, step), s) {
        if s == step.s {
          CommitSelf(db, step);
        } else {
          CommitOther(db, step, s);
        }
      }
    } else if step.Insert? {
      InsertStep(db, step);
    } else {
      QuietStep(db, step);
    }
  }

  lemma {:induction false} ReachableInv(db: Db, schedule: seq<Step>)
    requires Inv(db) && Feasible(db, schedule)
    ensures Inv(After(db, schedule))
    decreases schedule
  {
    if schedule != [] {
      ApplyInv(db, schedule[0]);
      ReachableInv(Apply(db, schedule[0]), schedule[1..]);
    }
  }

  // ---------------------------------------------------------------- what the store shows

  /** The ids of the committed events of save `s`, in id order. */
  ghost predicate ShownIds(db: Db, s: nat, ids: seq<int>) {
    Increasing(ids) && forall id :: id in ids <==> id in db.rows && id in db.owner && db.owner[id] == s
  }

  lemma {:induction false} IncreasingUnique(a: seq<int>, b: seq<int>)
    requires Increasing(a) && Increasing(b) && forall id :: id in a <==> id in b
    ensures a == b
  {
    if a == [] {
      assert forall i :: 0 <= i < |b| ==> b[i] in b;
    } else {
      assert a[0] in b && b != [] && b[0] in a;
      assert a[0] == b[0];
      forall id ensures id in a[1..] <==> id in b[1..] {
        assert id in a[1..] <==> id in a && id != a[0];
        assert id in b[1..] <==> id in b && id != b[0];
      }
      IncreasingUnique(a[1..], b[1..]);
    }
  }

  lemma ShownAreRows(db: Db, s: nat, ids: seq<int>)
    requires Inv(db) && s < |db.saves| && ShownIds(db, s, ids)
    ensures ids == db.saves[s].rows
  {
    var save := db.saves[s];
    assert SaveOk(db, s);
    IncreasingUnique(ids, save.rows);
  }

  /** The store shows this many events of save `s`. */
  ghost predicate Committed(db: Db, s: nat, n: nat) {
    exists ids :: ShownIds(db, s, ids) && |ids| == n
  }

  /** The committed ids a save knows of are the ones the store shows for it. */
  lemma RowsAreShown(db: Db, s: nat)
    requires Inv(db) && s < |db.saves|
    ensures ShownIds(db, s, db.saves[s].rows)
  {
    assert SaveOk(db, s);
  }

  lemma {:induction false} StepKeepsInput(db: Db, schedule: seq<Step>)
    requires Feasible(db, schedule)
    ensures After(db, schedule).base == db.base && |After(db, schedule).saves| == |db.saves|
    ensures forall s :: 0 <= s < |db.saves| ==>
              After(db, schedule).saves[s].events == db.saves[s].events && After(db, schedule).saves[s].batchSize == db.saves[s].batchSize
    decreases schedule
  {
    if schedule != [] {
      StepKeepsInput(Apply(db, schedule[0]), schedule[1..]);
    }
  }

  /** However the saves interleave, the committed events of each, read in id order, are a prefix of its events,
      cut at a batch boundary or at the end. */
  lemma EachSaveShowsPrefix(db: Db, schedule: seq<Step>, s: nat, ids: seq<int>)
    requires Init(db) && Feasible(db, schedule) && s < |db.saves|
    requires ShownIds(After(db, schedule), s, ids)
    ensures |ids| <= |db.saves[s].events|
    ensures forall j :: 0 <= j < |ids| ==>
              ids[j] in After(db, schedule).rows && After(db, schedule).rows[ids[j]] == db.saves[s].events[j]
    ensures db.saves[s].batchSize > 0
    ensures |ids| % db.saves[s].batchSize == 0 || |ids| == |db.saves[s].events|
  {
    WholeIsMultiple(|ids|, db.saves[s].batchSize);
    InitInv(db);
    ReachableInv(db, schedule);
    StepKeepsInput(db, schedule);
    ShownAreRows(After(db, schedule), s, ids);
    assert SaveOk(After(db, schedule), s);
  }

  /** The store keeps what it had and grows by exactly the sum of what the saves committed. */
  lemma StoreGrowsBySum(db: Db, schedule: seq<Step>)
    requires Init(db) && Feasible(db, schedule)
    ensures var end := After(db, schedule);
      && |end.rows| == |db.base| + Total(end.saves, SavedCount)
      && (forall id :: id in db.base ==> id in end.rows && end.rows[id] == db.base[id])
      && (forall id :: id in end.rows && id !in db.base ==> id in end.owner && end.owner[id] < |end.saves|)
  {
    InitInv(db);
    ReachableInv(db, schedule);
    StepKeepsInput(db, schedule);
  }

  // ---------------------------------------------------------------- what interleavings there are

  /** What one save gets to do: store the events for which `skips` says how many ids the sequence skips before
      each of them, batch by batch, and then stop, or roll back one more batch after some of its inserts. */
  datatype Plan = Plan(skips: seq<nat>, failing: Option<seq<nat>>)

  function Least(a: nat, b: nat): nat { if a < b then a else b }

  /** The events to be stored end at a batch boundary or at the last event. */
  predicate Possible(plan: Plan, save: Save)
    requires save.batchSize > 0
  {
    && |plan.skips| <= |save.events|
    && (WholeBatches(|plan.skips|, save.batchSize) || |plan.skips| == |save.events|)
    && (plan.failing.Some? ==>
          |plan.skips| < |save.events| && |plan.failing.value| <= Least(save.batchSize, |save.events| - |plan.skips|))
  }

  function Inserts(s: nat, skips: seq<nat>): seq<Step> {
    seq(|skips|, j requires 0 <= j < |skips| => Insert(s, skips[j]))
  }

  function Ending(s: nat, failing: Option<seq<nat>>): seq<Step> {
    match failing
    case None => [Stop(s)]
    case Some(skips) => [Begin(s)] + Inserts(s, skips) + [Rollback(s)]
  }

  /** The save's own steps once `done` events are stored. */
  function Program(s: nat, size: nat, plan: Plan, done: nat): seq<Step>
    requires size > 0 && done <= |plan.skips|
    decreases |plan.skips| - done
  {
    if done == |plan.skips| then Ending(s, plan.failing)
    else
      var end := Least(done + size, |plan.skips|);
      [Begin(s)] + Inserts(s, plan.skips[done..end]) + [Commit(s)] + Program(s, size, plan, end)
  }

  /** Steps of the first `n` saves. */
  predicate Among(schedule: seq<Step>, n: nat) {
    forall i :: 0 <= i < |schedule| ==> schedule[i].s < n
  }

  /** The steps of save `s`, in their order. */
  function Own(schedule: seq<Step>, s: nat): seq<Step> {
    if schedule == [] then []
    else if schedule[0].s == s then [schedule[0]] + Own(schedule[1..], s)
    else Own(schedule[1..], s)
  }

  /** The steps left when the events before `at` of the batch that ends at `end` are inserted. */
  function BatchRest(s: nat, size: nat, plan: Plan, at: nat, end: nat): seq<Step>
    requires size > 0 && at <= end <= |plan.skips|
  {
    Inserts(s, plan.skips[at..end]) + [Commit(s)] + Program(s, size, plan, end)
  }

  lemma BatchRestFirst(s: nat, size: nat, plan: Plan, at: nat, end: nat)
    requires size > 0 && at < end <= |plan.skips|
    ensures BatchRest(s, size, plan, at, end) == [Insert(s, plan.skips[at])] + BatchRest(s, size, plan, at + 1, end)
  {
    var now, later := plan.skips[at..end], plan.skips[at + 1..end];
    assert now[1..] == later;
    InsertsFirst(s, now);
  }

  lemma InsertsFirst(s: nat, skips: seq<nat>)
    requires skips != []
    ensures Inserts(s, skips) == [Insert(s, skips[0])] + Inserts(s, skips[1..])
  {
  }

  /** The steps that are left of the program, from wherever the save is in it. */
  function Rest(s: nat, save: Save, plan: Plan): seq<Step>
    requires save.batchSize > 0 && |save.rows| <= |plan.skips|
  {
    var done, drawn := |save.rows|, |save.pending|;
    match save.phase
    case Finished => []
    case Between => Program(s, save.batchSize, plan, done)
    case InTransaction =>
      if done < |plan.skips| then
        var end := Least(done + save.batchSize, |plan.skips|);
        if done + drawn <= end then BatchRest(s, save.batchSize, plan, done + drawn, end) else []
      else if plan.failing.Some? && drawn <= |plan.failing.value| then
        Inserts(s, plan.failing.value[drawn..]) + [Rollback(s)]
      else []
  }

  /** Where a save that follows its plan can be. */
  ghost predicate Underway(save: Save, plan: Plan) {
    && save.batchSize > 0 && Possible(plan, save) && |save.rows| <= |plan.skips|
    && (WholeBatches(|plan.skips| - |save.rows|, save.batchSize) || |plan.skips| == |save.events|)
    && (save.phase.Finished? ==> |save.rows| == |plan.skips|)
    && (save.phase.Between? ==> save.pending == [])
    && (save.phase.InTransaction? ==>
          if |save.rows| < |plan.skips|
          then |save.rows| + |save.pending| <= Least(|save.rows| + save.batchSize, |plan.skips|)
          else plan.failing.Some? && |save.pending| <= |plan.failing.value|)
  }

  lemma BatchEnds(save: Save, plan: Plan)
    requires Underway(save, plan) && |save.rows| < |plan.skips|
    ensures save.BatchEnd() == Least(|save.rows| + save.batchSize, |plan.skips|)
    ensures WholeBatches(|plan.skips| - save.BatchEnd(), save.batchSize) || |plan.skips| == |save.events|
  {
  }

  /** The step is the next one of the save's program, is possible, and leads to the rest of the program. */
  ghost predicate Leads(db: Db, s: nat, plan: Plan, step: Step)
    requires s < |db.saves| && Underway(db.saves[s], plan)
  {
    && step.s == s && Enabled(db, step)
    && Underway(Apply(db, step).saves[s], plan)
    && Rest(s, db.saves[s], plan) == [step] + Rest(s, Apply(db, step).saves[s], plan)
  }

  lemma UnderwayInsert(save: Save, id: int, plan: Plan)
    requires Underway(save, plan) && save.phase.InTransaction? && |save.rows| < |plan.skips|
    requires |save.rows| + |save.pending| < save.BatchEnd()
    ensures Underway(save.(pending := save.pending + [id]), plan)
  {
    BatchEnds(save, plan);
  }

  lemma RestOfInserts(s: nat, save: Save, id: int, plan: Plan)
    requires save.batchSize > 0 && save.phase.InTransaction? && |save.rows| < |plan.skips|
    requires |save.rows| + |save.pending| < Least(|save.rows| + save.batchSize, |plan.skips|)
    ensures Rest(s, save, plan)
         == [Insert(s, plan.skips[|save.rows| + |save.pending|])] + Rest(s, save.(pending := save.pending + [id]), plan)
  {
    BatchRestFirst(s, save.batchSize, plan, |save.rows| + |save.pending|, Least(|save.rows| + save.batchSize, |plan.skips|));
  }

  lemma NextInsert(db: Db, s: nat, plan: Plan)
    requires s < |db.saves| && Underway(db.saves[s], plan) && db.saves[s].phase.InTransaction?
    requires |db.saves[s].rows| < |plan.skips| && |db.saves[s].rows| + |db.saves[s].pending| < db.saves[s].BatchEnd()
    ensures Leads(db, s, plan, Insert(s, plan.skips[|db.saves[s].rows| + |db.saves[s].pending|]))
  {
    var save := db.saves[s];
    var skipped := plan.skips[|save.rows| + |save.pending|];
    var id := db.nextId + skipped;
    BatchEnds(save, plan);
    RestOfInserts(s, save, id, plan);
    UnderwayInsert(save, id, plan);
    assert Apply(db, Insert(s, skipped)).saves[s] == save.(pending := save.pending + [id]);
  }

  lemma UnderwayCommit(save: Save, plan: Plan)
    requires Underway(save, plan) && save.phase.InTransaction? && |save.rows| < |plan.skips|
    requires |save.rows| + |save.pending| == save.BatchEnd()
    ensures Underway(save.(phase := Between, rows := save.rows + save.pending, pending := []), plan)
  {
    BatchEnds(save, plan);
  }

  lemma RestCommits(s: nat, save: Save, plan: Plan)
    requires save.batchSize > 0 && save.phase.InTransaction? && |save.rows| < |plan.skips|
    requires |save.rows| + |save.pending| == Least(|save.rows| + save.batchSize, |plan.skips|)
    ensures Rest(s, save, plan)
         == [Commit(s)] + Rest(s, save.(phase := Between, rows := save.rows + save.pending, pending := []), plan)
  {
    assert Inserts(s, []) == [];
  }

  lemma NextCommit(db: Db, s: nat, plan: Plan)
    requires s < |db.saves| && Underway(db.saves[s], plan) && db.saves[s].phase.InTransaction?
    requires |db.saves[s].rows| < |plan.skips| && |db.saves[s].rows| + |db.saves[s].pending| == db.saves[s].BatchEnd()
    ensures Leads(db, s, plan, Commit(s))
  {
    var save := db.saves[s];
    BatchEnds(save, plan);
    UnderwayCommit(save, plan);
    RestCommits(s, save, plan);
    assert Apply(db, Commit(s)).saves[s] == save.(phase := Between, rows := save.rows + save.pending, pending := []);
  }

  lemma UnderwayBegin(save: Save, plan: Plan)
    requires Underway(save, plan) && save.phase.Between? && (|save.rows| < |plan.skips| || plan.failing.Some?)
    ensures Underway(save.(phase := InTransaction, pending := []), plan)
  {
  }

  lemma ProgramBegins(s: nat, size: nat, plan: Plan, done: nat)
    requires size > 0 && done < |plan.skips|
    ensures Program(s, size, plan, done) == [Begin(s)] + BatchRest(s, size, plan, done, Least(done + size, |plan.skips|))
  {
  }

  lemma RestBegins(s: nat, save: Save, plan: Plan)
    requires save.batchSize > 0 && |save.rows| < |plan.skips| && save.phase.Between?
    ensures Rest(s, save, plan) == [Begin(s)] + Rest(s, save.(phase := InTransaction, pending := []), plan)
  {
    ProgramBegins(s, save.batchSize, plan, |save.rows|);
  }

  lemma NextBegin(db: Db, s: nat, plan: Plan)
    requires s < |db.saves| && Underway(db.saves[s], plan) && db.saves[s].phase.Between?
    requires |db.saves[s].rows| < |plan.skips|
    ensures Leads(db, s, plan, Begin(s))
  {
    UnderwayBegin(db.saves[s], plan);
    RestBegins(s, db.saves[s], plan);
    assert Apply(db, Begin(s)).saves[s] == db.saves[s].(phase := InTransaction, pending := []);
  }

  lemma NextFailing(db: Db, s: nat, plan: Plan)
    requires s < |db.saves| && Underway(db.saves[s], plan) && db.saves[s].phase.Between?
    requires |db.saves[s].rows| == |plan.skips| && plan.failing.Some?
    ensures Leads(db, s, plan, Begin(s))
  {
    assert plan.failing.value[0..] == plan.failing.value;
  }

  lemma NextEnding(db: Db, s: nat, plan: Plan)
    requires s < |db.saves| && Underway(db.saves[s], plan) && |db.saves[s].rows| == |plan.skips|
    requires db.saves[s].phase.InTransaction? || (db.saves[s].phase.Between? && plan.failing.None?)
    ensures exists step :: Leads(db, s, plan, step)
  {
    var save := db.saves[s];
    if save.phase.Between? {
      assert Leads(db, s, plan, Stop(s));
    } else {
      var left := plan.failing.value[|save.pending|..];
      if left == [] {
        assert Inserts(s, left) == [];
        assert Leads(db, s, plan, Rollback(s));
      } else {
        InsertsFirst(s, left);
        assert left[1..] == plan.failing.value[|save.pending| + 1..];
        assert Leads(db, s, plan, Insert(s, left[0]));
      }
    }
  }

  /** Until its program is over, a save can always take the next step of it. */
  lemma NextStep(db: Db, s: nat, plan: Plan)
    requires s < |db.saves| && Underway(db.saves[s], plan) && Rest(s, db.saves[s], plan) != []
    ensures Leads(db, s, plan, Rest(s, db.saves[s], plan)[0])
  {
    var save := db.saves[s];
    if save.phase.Between? && |save.rows| < |plan.skips| {
      NextBegin(db, s, plan);
    } else if save.phase.Between? && plan.failing.Some? {
      NextFailing(db, s, plan);
    } else if |save.rows| == |plan.skips| {
      NextEnding(db, s, plan);
    } else {
      BatchEnds(save, plan);
      if |save.rows| + |save.pending| < save.BatchEnd() {
        NextInsert(db, s, plan);
      } else {
        NextCommit(db, s, plan);
      }
    }
  }

  ghost predicate AllUnderway(db: Db, plans: seq<Plan>, schedule: seq<Step>) {
    && |plans| == |db.saves|
    && Among(schedule, |db.saves|)
    && forall s :: 0 <= s < |db.saves| ==>
         Underway(db.saves[s], plans[s]) && Own(schedule, s) == Rest(s, db.saves[s], plans[s])
  }

  lemma SameTail<T>(x: T, a: seq<T>, y: T, b: seq<T>)
    requires [x] + a == [y] + b
    ensures x == y && a == b
  {
    assert ([x] + a)[0] == x && ([y] + b)[0] == y;
    assert ([x] + a)[1..] == a && ([y] + b)[1..] == b;
  }

  lemma MoverSteps(db: Db, plans: seq<Plan>, schedule: seq<Step>)
    requires schedule != [] && AllUnderway(db, plans, schedule)
    ensures Leads(db, schedule[0].s, plans[schedule[0].s], schedule[0])
    ensures Own(schedule[1..], schedule[0].s) == Rest(schedule[0].s, Apply(db, schedule[0]).saves[schedule[0].s], plans[schedule[0].s])
  {
    var s := schedule[0].s;
    assert Own(schedule, s) == [schedule[0]] + Own(schedule[1..], s);
    NextStep(db, s, plans[s]);
    var step := Rest(s, db.saves[s], plans[s])[0];
    SameTail(schedule[0], Own(schedule[1..], s), step, Rest(s, Apply(db, step).saves[s], plans[s]));
  }

  lemma StepKeepsUnderway(db: Db, plans: seq<Plan>, schedule: seq<Step>)
    requires schedule != [] && AllUnderway(db, plans, schedule)
    ensures Enabled(db, schedule[0]) && AllUnderway(Apply(db, schedule[0]), plans, schedule[1..])
  {
    MoverSteps(db, plans, schedule);
    var db' := Apply(db, schedule[0]);
    forall s | 0 <= s < |db'.saves|
      ensures Underway(db'.saves[s], plans[s]) && Own(schedule[1..], s) == Rest(s, db'.saves[s], plans[s])
    {
      if s != schedule[0].s {
        assert db'.saves[s] == db.saves[s];
        assert Own(schedule, s) == Own(schedule[1..], s);
      }
    }
  }

  lemma {:induction false} UnderwayRuns(db: Db, plans: seq<Plan>, schedule: seq<Step>)
    requires AllUnderway(db, plans, schedule)
    ensures Feasible(db, schedule) && |After(db, schedule).saves| == |db.saves|
    ensures forall s :: 0 <= s < |db.saves| ==>
              After(db, schedule).saves[s].phase.Finished? && |After(db, schedule).saves[s].rows| == |plans[s].skips|
    decreases schedule
  {
    if schedule == [] {
      forall s | 0 <= s < |db.saves| ensures db.saves[s].phase.Finished? {
        assert Rest(s, db.saves[s], plans[s]) == [];
      }
    } else {
      StepKeepsUnderway(db, plans, schedule);
      UnderwayRuns(Apply(db, schedule[0]), plans, schedule[1..]);
    }
  }

  /** `schedule` mixes the saves' own programs in any way. */
  ghost predicate Interleaves(db: Db, plans: seq<Plan>, schedule: seq<Step>) {
    && |plans| == |db.saves|
    && Among(schedule, |db.saves|)
    && forall s :: 0 <= s < |db.saves| ==>
         && db.saves[s].batchSize > 0 && Possible(plans[s], db.saves[s])
         && Own(schedule, s) == Program(s, db.saves[s].batchSize, plans[s], 0)
  }

  /** No save ever has to wait for another: every interleaving of what the saves do is possible, and it leaves each
      of them with exactly the events of its plan committed. */
  lemma EveryInterleavingRuns(db: Db, plans: seq<Plan>, schedule: seq<Step>)
    requires Init(db) && Interleaves(db, plans, schedule)
    ensures Feasible(db, schedule) && |After(db, schedule).saves| == |db.saves|
    ensures forall s :: 0 <= s < |db.saves| ==>
              After(db, schedule).saves[s].phase.Finished? && |After(db, schedule).saves[s].rows| == |plans[s].skips|
  {
    UnderwayRuns(db, plans, schedule);
  }

  // ---------------------------------------------------------------- any cuts, committed in any order

  /** How many batches store `n` events. */
  function Batches(n: nat, size: nat): nat
    requires size > 0
  {
    if n == 0 then 0 else if n <= size then 1 else 1 + Batches(n - size, size)
  }

  /** The saves in the order of their commits. */
  function CommitOrder(schedule: seq<Step>): seq<nat> {
    if schedule == [] then []
    else if schedule[0].Commit? then [schedule[0].s] + CommitOrder(schedule[1..])
    else CommitOrder(schedule[1..])
  }

  lemma {:induction false} OwnConcat(a: seq<Step>, b: seq<Step>, s: nat)
    ensures Own(a + b, s) == Own(a, s) + Own(b, s)
  {
    if a == [] {
      assert a + b == b;
    } else {
      var both := a + b;
      assert both[0] == a[0] && both[1..] == a[1..] + b;
      OwnConcat(a[1..], b, s);
      assert Own(both, s) == (if a[0].s == s then [a[0]] else []) + Own(both[1..], s);
    }
  }

  lemma {:induction false} CommitOrderConcat(a: seq<Step>, b: seq<Step>)
    ensures CommitOrder(a + b) == CommitOrder(a) + CommitOrder(b)
  {
    if a == [] {
      assert a + b == b;
    } else {
      var both := a + b;
      assert both[0] == a[0] && both[1..] == a[1..] + b;
      CommitOrderConcat(a[1..], b);
      assert CommitOrder(both) == (if a[0].Commit? then [a[0].s] else []) + CommitOrder(both[1..]);
    }
  }

  lemma {:induction false} OwnAll(steps: seq<Step>, t: nat, s: nat)
    requires forall i :: 0 <= i < |steps| ==> steps[i].s == t
    ensures Own(steps, s) == if s == t then steps else []
  {
    if steps != [] {
      OwnAll(steps[1..], t, s);
    }
  }

  lemma {:induction false} NoCommits(steps: seq<Step>)
    requires forall i :: 0 <= i < |steps| ==> !steps[i].Commit?
    ensures CommitOrder(steps) == []
  {
    if steps != [] {
      NoCommits(steps[1..]);
    }
  }

  /** One batch, from its begin to its commit. */
  function BatchSteps(s: nat, skips: seq<nat>): seq<Step> {
    [Begin(s)] + Inserts(s, skips) + [Commit(s)]
  }

  lemma BatchStepsCommit(s: nat, skips: seq<nat>)
    ensures CommitOrder(BatchSteps(s, skips)) == [s]
  {
    var open := [Begin(s)] + Inserts(s, skips);
    NoCommits(open);
    CommitOrderConcat(open, [Commit(s)]);
    assert CommitOrder([Commit(s)]) == [s] + CommitOrder([Commit(s)][1..]);
  }

  /** What every save does once its batches are stored, one save after the other. */
  function Endings(plans: seq<Plan>): seq<seq<Step>> {
    seq(|plans|, s requires 0 <= s < |plans| => Ending(s, plans[s].failing))
  }

  /** Steps of the first `n` saves, none of them a commit. */
  predicate Quiet(steps: seq<Step>, n: nat) {
    forall i :: 0 <= i < |steps| ==> steps[i].s < n && !steps[i].Commit?
  }

  lemma QuietConcat(a: seq<Step>, b: seq<Step>, m: nat, n: nat)
    requires Quiet(a, m) && Quiet(b, n) && m <= n
    ensures Quiet(a + b, n)
  {
  }

  lemma OwnAppended(front: seq<Step>, last: seq<Step>, t: nat, s: nat)
    requires forall i :: 0 <= i < |last| ==> last[i].s == t
    ensures Own(front + last, s) == Own(front, s) + if s == t then last else []
  {
    OwnConcat(front, last, s);
    OwnAll(last, t, s);
  }

  /** The i-th part belongs to save i. */
  ghost predicate Parted(parts: seq<seq<Step>>) {
    forall s, i :: 0 <= s < |parts| && 0 <= i < |parts[s]| ==> parts[s][i].s == s && !parts[s][i].Commit?
  }

  lemma {:induction false} PartsAreQuiet(parts: seq<seq<Step>>)
    requires Parted(parts)
    ensures Quiet(Flatten(parts), |parts|)
  {
    if parts != [] {
      var n := |parts| - 1;
      PartsAreQuiet(parts[..n]);
      QuietConcat(Flatten(parts[..n]), parts[n], n, n + 1);
    }
  }

  lemma {:induction false} OwnParts(parts: seq<seq<Step>>, s: nat)
    requires Parted(parts)
    ensures Own(Flatten(parts), s) == if s < |parts| then parts[s] else []
  {
    if parts != [] {
      var n := |parts| - 1;
      OwnParts(parts[..n], s);
      OwnAppended(Flatten(parts[..n]), parts[n], n, s);
    }
  }

  lemma EndingsParted(plans: seq<Plan>)
    ensures Parted(Endings(plans))
  {
  }

  /** Every save still has as many batches to commit as `order` names it. */
  ghost predicate Counted(sizes: seq<nat>, plans: seq<Plan>, done: seq<nat>, order: seq<nat>) {
    && |sizes| == |plans| == |done|
    && (forall i :: 0 <= i < |order| ==> order[i] < |plans|)
    && forall s :: 0 <= s < |plans| ==>
         sizes[s] > 0 && done[s] <= |plans[s].skips| && multiset(order)[s] == Batches(|plans[s].skips| - done[s], sizes[s])
  }

  lemma CountFirst(order: seq<nat>, s: nat)
    requires order != []
    ensures multiset(order)[s] == multiset(order[1..])[s] + if order[0] == s then 1 else 0
  {
    assert order == [order[0]] + order[1..];
  }

  /** Where the next batch of save `s` ends. */
  function NextEnd(sizes: seq<nat>, plans: seq<Plan>, done: seq<nat>, s: nat): nat
    requires s < |sizes| == |plans| == |done|
  {
    Least(done[s] + sizes[s], |plans[s].skips|)
  }

  lemma CountedFirst(sizes: seq<nat>, plans: seq<Plan>, done: seq<nat>, order: seq<nat>)
    requires Counted(sizes, plans, done, order) && order != []
    ensures done[order[0]] < |plans[order[0]].skips|
    ensures Counted(sizes, plans, done[order[0] := NextEnd(sizes, plans, done, order[0])], order[1..])
  {
    var t := order[0];
    CountFirst(order, t);
    var done' := done[t := NextEnd(sizes, plans, done, t)];
    forall s | 0 <= s < |plans|
      ensures done'[s] <= |plans[s].skips| && multiset(order[1..])[s] == Batches(|plans[s].skips| - done'[s], sizes[s])
    {
      CountFirst(order, s);
    }
  }

  lemma BatchStepsOwn(s: nat, t: nat, skips: seq<nat>, rest: seq<Step>)
    ensures Own(BatchSteps(t, skips) + rest, s) == (if s == t then BatchSteps(t, skips) else []) + Own(rest, s)
  {
    OwnConcat(BatchSteps(t, skips), rest, s);
    OwnAll(BatchSteps(t, skips), t, s);
  }

  lemma OwnBatch(s: nat, t: nat, size: nat, plan: Plan, done: nat, skips: seq<nat>, rest: seq<Step>)
    requires size > 0 && done <= |plan.skips|
    requires s == t ==> done < |plan.skips| && skips == plan.skips[done..Least(done + size, |plan.skips|)]
    requires Own(rest, s) == Program(s, size, plan, if s == t then Least(done + size, |plan.skips|) else done)
    ensures Own(BatchSteps(t, skips) + rest, s) == Program(s, size, plan, done)
  {
    BatchStepsOwn(s, t, skips, rest);
  }

  /** `schedule` mixes what is left of the programs, with the commits in this order. */
  ghost predicate Ordered(sizes: seq<nat>, plans: seq<Plan>, done: seq<nat>, order: seq<nat>, schedule: seq<Step>)
    requires Counted(sizes, plans, done, order)
  {
    && CommitOrder(schedule) == order && Among(schedule, |plans|)
    && forall s :: 0 <= s < |plans| ==> Own(schedule, s) == Program(s, sizes[s], plans[s], done[s])
  }

  lemma BatchAmong(t: nat, skips: seq<nat>, rest: seq<Step>, n: nat)
    requires t < n && Among(rest, n)
    ensures Among(BatchSteps(t, skips) + rest, n)
  {
  }

  lemma OrderedEndings(sizes: seq<nat>, plans: seq<Plan>, done: seq<nat>)
    requires Counted(sizes, plans, done, [])
    ensures Ordered(sizes, plans, done, [], Flatten(Endings(plans)))
  {
    var schedule := Flatten(Endings(plans));
    EndingsParted(plans);
    PartsAreQuiet(Endings(plans));
    NoCommits(schedule);
    assert Among(schedule, |plans|);
    forall s | 0 <= s < |plans| ensures Own(schedule, s) == Program(s, sizes[s], plans[s], done[s]) {
      OwnParts(Endings(plans), s);
      assert multiset([])[s] == 0 && done[s] == |plans[s].skips|;
    }
  }

  lemma OrderedOwn(sizes: seq<nat>, plans: seq<Plan>, done: seq<nat>, t: nat, skips: seq<nat>, rest: seq<Step>, s: nat)
    requires |sizes| == |plans| == |done| && t < |plans| && s < |plans| && sizes[s] > 0
    requires done[s] <= |plans[s].skips| && done[t] < |plans[t].skips|
    requires skips == plans[t].skips[done[t]..NextEnd(sizes, plans, done, t)]
    requires Own(rest, s) == Program(s, sizes[s], plans[s], if s == t then NextEnd(sizes, plans, done, t) else done[s])
    ensures Own(BatchSteps(t, skips) + rest, s) == Program(s, sizes[s], plans[s], done[s])
  {
    OwnBatch(s, t, sizes[s], plans[s], done[s], skips, rest);
  }

  lemma OrderedBatch(sizes: seq<nat>, plans: seq<Plan>, done: seq<nat>, order: seq<nat>, done': seq<nat>, skips: seq<nat>, rest: seq<Step>)
    requires Counted(sizes, plans, done, order) && order != [] && done[order[0]] < |plans[order[0]].skips|
    requires done' == done[order[0] := NextEnd(sizes, plans, done, order[0])]
    requires skips == plans[order[0]].skips[done[order[0]]..done'[order[0]]]
    requires Counted(sizes, plans, done', order[1..]) && Ordered(sizes, plans, done', order[1..], rest)
    ensures Ordered(sizes, plans, done, order, BatchSteps(order[0], skips) + rest)
  {
    var t := order[0];
    var schedule := BatchSteps(t, skips) + rest;
    assert CommitOrder(schedule) == order by {
      BatchStepsCommit(t, skips);
      CommitOrderConcat(BatchSteps(t, skips), rest);
    }
    BatchAmong(t, skips, rest, |plans|);
    forall s | 0 <= s < |plans| ensures Own(schedule, s) == Program(s, sizes[s], plans[s], done[s]) {
      OrderedOwn(sizes, plans, done, t, skips, rest, s);
    }
  }

  /** The batches one after the other in the given order, then the endings. */
  lemma {:induction false} OrderedSchedule(sizes: seq<nat>, plans: seq<Plan>, done: seq<nat>, order: seq<nat>)
      returns (schedule: seq<Step>)
    requires Counted(sizes, plans, done, order)
    ensures Ordered(sizes, plans, done, order, schedule)
    decreases order
  {
    if order == [] {
      OrderedEndings(sizes, plans, done);
      schedule := Flatten(Endings(plans));
    } else {
      var t := order[0];
      CountedFirst(sizes, plans, done, order);
      var done' := done[t := NextEnd(sizes, plans, done, t)];
      var rest := OrderedSchedule(sizes, plans, done', order[1..]);
      var skips := plans[t].skips[done[t]..done'[t]];
      OrderedBatch(sizes, plans, done, order, done', skips, rest);
      schedule := BatchSteps(t, skips) + rest;
    }
  }

  lemma Multiples(d: int, size: int)
    requires size > 0
    ensures d > 0 ==> d * size >= size
    ensures d < 0 ==> d * size <= -size
  {
  }

  lemma Quotient(n: int, size: int, q: int, r: int)
    requires size > 0 && n == q * size + r && 0 <= r < size
    ensures n / size == q && n % size == r
  {
    var d := n / size - q;
    assert d * size == r - n % size;
    Multiples(d, size);
  }

  lemma OneMore(n: int, size: int)
    requires size > 0
    ensures (n + size) / size == n / size + 1 && (n + size) % size == n % size
  {
    Quotient(n + size, size, n / size + 1, n % size);
  }

  lemma {:induction false} WholeIsMultiple(n: nat, size: nat)
    requires size > 0
    ensures WholeBatches(n, size) <==> n % size == 0
  {
    if n < size {
      Quotient(n, size, 0, n);
    } else {
      WholeIsMultiple(n - size, size);
      OneMore(n - size, size);
    }
  }

  lemma {:induction false} BatchesRoundUp(n: nat, size: nat)
    requires size > 0
    ensures Batches(n, size) == (n + size - 1) / size
  {
    if n == 0 {
      Quotient(size - 1, size, 0, size - 1);
    } else if n <= size {
      Quotient(n + size - 1, size, 1, n - 1);
    } else {
      BatchesRoundUp(n - size, size);
      OneMore(n - 1, size);
    }
  }

  /** Storing `n` events without skipping an id. */
  function Storing(n: nat): Plan {
    Plan(seq(n, j requires 0 <= j < n => 0), None)
  }

  function StoringAll(cuts: seq<nat>): (plans: seq<Plan>)
    ensures |plans| == |cuts| && forall s :: 0 <= s < |cuts| ==> plans[s] == Storing(cuts[s])
  {
    seq(|cuts|, s requires 0 <= s < |cuts| => Storing(cuts[s]))
  }

  /** The cut is at a batch boundary or at the end. */
  predicate AtBoundary(save: Save, cut: nat) {
    save.batchSize > 0 && (cut == |save.events| || (cut < |save.events| && cut % save.batchSize == 0))
  }

  lemma CutIsPossible(save: Save, cut: nat, commits: int)
    requires AtBoundary(save, cut) && commits == (cut + save.batchSize - 1) / save.batchSize
    ensures Possible(Storing(cut), save) && commits == Batches(cut, save.batchSize)
  {
    WholeIsMultiple(cut, save.batchSize);
    BatchesRoundUp(cut, save.batchSize);
  }

  lemma CutsAreCounted(db: Db, cuts: seq<nat>, order: seq<nat>, sizes: seq<nat>, done: seq<nat>)
    requires |cuts| == |db.saves| == |sizes| == |done|
    requires forall s :: 0 <= s < |cuts| ==> AtBoundary(db.saves[s], cuts[s]) && sizes[s] == db.saves[s].batchSize && done[s] == 0
    requires forall i :: 0 <= i < |order| ==> order[i] < |cuts|
    requires forall s: nat :: s < |cuts| ==>
               db.saves[s].batchSize > 0 && multiset(order)[s] == (cuts[s] + db.saves[s].batchSize - 1) / db.saves[s].batchSize
    ensures Counted(sizes, StoringAll(cuts), done, order)
    ensures forall s :: 0 <= s < |cuts| ==> Possible(StoringAll(cuts)[s], db.saves[s])
  {
    forall s: nat | s < |cuts|
      ensures Possible(StoringAll(cuts)[s], db.saves[s]) && multiset(order)[s] == Batches(cuts[s], sizes[s])
    {
      CutIsPossible(db.saves[s], cuts[s], multiset(order)[s]);
    }
  }

  lemma CommittedShown(init: Db, schedule: seq<Step>, plans: seq<Plan>, s: nat)
    requires Init(init) && Interleaves(init, plans, schedule) && s < |init.saves|
    ensures Feasible(init, schedule) && |After(init, schedule).saves| == |init.saves|
    ensures Committed(After(init, schedule), s, |plans[s].skips|)
  {
    EveryInterleavingRuns(init, plans, schedule);
    InitInv(init);
    ReachableInv(init, schedule);
    RowsAreShown(After(init, schedule), s);
  }

  /** For every choice of one cut per save, at a batch boundary or at the end, and every order of the commits,
      there is a schedule that commits exactly those prefixes in that order. */
  lemma AnyCutsInAnyOrder(db: Db, cuts: seq<nat>, order: seq<nat>) returns (schedule: seq<Step>)
    requires Init(db) && |cuts| == |db.saves|
    requires forall s :: 0 <= s < |cuts| ==>
               || cuts[s] == |db.saves[s].events|
               || (cuts[s] < |db.saves[s].events| && db.saves[s].batchSize > 0 && cuts[s] % db.saves[s].batchSize == 0)
    requires forall i :: 0 <= i < |order| ==> order[i] < |cuts|
    requires forall s: nat :: s < |cuts| ==>
               db.saves[s].batchSize > 0 && multiset(order)[s] == (cuts[s] + db.saves[s].batchSize - 1) / db.saves[s].batchSize
    ensures Feasible(db, schedule) && CommitOrder(schedule) == order && |After(db, schedule).saves| == |db.saves|
    ensures forall s :: 0 <= s < |cuts| ==> Committed(After(db, schedule), s, cuts[s])
  {
    var plans := StoringAll(cuts);
    var sizes := seq(|cuts|, s requires 0 <= s < |cuts| => db.saves[s].batchSize);
    var done := seq(|cuts|, s requires 0 <= s < |cuts| => 0);
    CutsAreCounted(db, cuts, order, sizes, done);
    schedule := OrderedSchedule(sizes, plans, done, order);
    EveryInterleavingRuns(db, plans, schedule);
    forall s | 0 <= s < |cuts| ensures Committed(After(db, schedule), s, cuts[s]) {
      CommittedShown(db, schedule, plans, s);
    }
  }

  /** The first `n` saves one after the other, each as often as `counts` says. */
  function WholeOrder(counts: seq<nat>, n: nat): seq<nat>
    requires n <= |counts|
  {
    if n == 0 then [] else WholeOrder(counts, n - 1) + seq(counts[n - 1], i => n - 1)
  }

  lemma {:induction false} RepeatedCount(n: nat, x: nat, y: nat)
    ensures multiset(seq(n, i => x))[y] == if x == y then n else 0
  {
    if n > 0 {
      RepeatedCount(n - 1, x, y);
      assert seq(n, i => x) == seq(n - 1, i => x) + [x];
    }
  }

  lemma {:induction false} WholeOrderCounts(counts: seq<nat>, n: nat, s: nat)
    requires n <= |counts| && s < |counts|
    ensures multiset(WholeOrder(counts, n))[s] == if s < n then counts[s] else 0
  {
    if n > 0 {
      WholeOrderCounts(counts, n - 1, s);
      RepeatedCount(counts[n - 1], n - 1, s);
    }
  }

  lemma {:induction false} WholeOrderAmong(counts: seq<nat>, n: nat)
    requires n <= |counts|
    ensures forall i :: 0 <= i < |WholeOrder(counts, n)| ==> WholeOrder(counts, n)[i] < n
  {
    if n > 0 {
      WholeOrderAmong(counts, n - 1);
    }
  }

  /** An order in which every save commits all its batches. */
  lemma EveryBatch(db: Db, cuts: seq<nat>) returns (order: seq<nat>)
    requires Init(db) && |cuts| == |db.saves|
    ensures forall i :: 0 <= i < |order| ==> order[i] < |cuts|
    ensures forall s: nat :: s < |cuts| ==>
              db.saves[s].batchSize > 0 && multiset(order)[s] == (cuts[s] + db.saves[s].batchSize - 1) / db.saves[s].batchSize
  {
    var counts: seq<nat> := seq(|cuts|, s requires 0 <= s < |cuts| =>
      (cuts[s] + db.saves[s].batchSize - 1) / db.saves[s].batchSize);
    order := WholeOrder(counts, |counts|);
    WholeOrderAmong(counts, |counts|);
    forall s: nat | s < |counts| ensures multiset(order)[s] == counts[s] {
      WholeOrderCounts(counts, |counts|, s);
    }
  }

  /** In particular all saves can get through with all their events. */
  lemma AllSavesCanFinish(db: Db) returns (schedule: seq<Step>)
    requires Init(db)
    ensures Feasible(db, schedule) && |After(db, schedule).saves| == |db.saves|
    ensures forall s :: 0 <= s < |db.saves| ==> Committed(After(db, schedule), s, |db.saves[s].events|)
  {
    var cuts: seq<nat> := seq(|db.saves|, s requires 0 <= s < |db.saves| => |db.saves[s].events|);
    var order := EveryBatch(db, cuts);
    schedule := AnyCutsInAnyOrder(db, cuts, order);
    forall s | 0 <= s < |db.saves| ensures Committed(After(db, schedule), s, |db.saves[s].events|) {
      assert cuts[s] == |db.saves[s].events|;
    }
  }

  /** Any saves over any store can be started. */
  lemma AnySavesStart(base: map<int, Event>, nextId: int, streams: seq<seq<Event>>, size: nat) returns (db: Db)
    requires size > 0 && forall id :: id in base ==> id < nextId
    ensures Init(db) && db.base == base && db.nextId == nextId && |db.saves| == |streams|
    ensures forall s :: 0 <= s < |streams| ==> db.saves[s].events == streams[s] && db.saves[s].batchSize == size
  {
    db := Db(base, base, map[], nextId, seq(|streams|, s requires 0 <= s < |streams| => Save(streams[s], size, Between, [], [])));
  }
}
