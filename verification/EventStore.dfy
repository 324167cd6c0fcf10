/** The repository over the two tables: one transaction per save, two read-only queries. */
module EventStores {
  import opened Collections
  import opened Paging
  import opened Permutations
  import opened Events
  import opened Schema
  import opened Queries

  /** The SERIAL column's sequence ends here. */
  const MAX_ID := 0x7fff_ffff

  /** What goes wrong in one save: nothing, acquiring the connection throws, or the k-th statement of the
      transaction fails; the inserts are numbered from 0, two per event, and the commit comes last. */
  datatype Fault = NoFault | AtAcquire | AtStatement(k: nat)

  /** Ok, NotOk, or an exception out of the call. */
  datatype SaveOutcome = Stored | Refused | Threw

  predicate Strikes(fault: Fault, statement: nat) {
    fault == AtStatement(statement)
  }

  /** How a save ends, from its input alone. */
  function Outcome(d: Dialect, nextId: int, batch: seq<Event>, fault: Fault): SaveOutcome {
    if batch == [] then Stored
    else if fault.AtAcquire? then Threw
    else if AllInsertable(d, batch) && nextId + |batch| - 1 <= MAX_ID && !(fault.AtStatement? && fault.k <= 2 * |batch|) then Stored
    else Refused
  }

  /** How the WHERE clause, LIMIT and OFFSET are filled in; None when a timestamp text does not parse. */
  function Bound(d: Dialect, filter: EventFilter): Option<Query> {
    if (filter.from.Some? && d.parseTime(filter.from.value).None?) || (filter.to.Some? && d.parseTime(filter.to.value).None?) then None
    else
      Some(Query(
        Criteria(filter.sourceService,
                 if filter.from.Some? then d.parseTime(filter.from.value) else None,
                 if filter.to.Some? then d.parseTime(filter.to.value) else None,
                 if filter.status.Some? then Some(StatusToStr(filter.status.value)) else None),
        if filter.limit.Some? then filter.limit.value else ROWS_MAX,
        if filter.offset.Some? then filter.offset.value else 0))
  }

  /** One row of events LEFT JOIN payloads. */
  datatype JoinedRow = JoinedRow(event: EventRow, payload: Option<PayloadRow>)

  function JoinAt(t: Tables, id: int): JoinedRow
    requires id in t.events
  {
    JoinedRow(t.events[id], if id in t.payloads then Some(t.payloads[id]) else None)
  }

  function IdTime(t: Tables): int -> int {
    (id: int) => if id in t.events then t.events[id].time else 0
  }

  /** An order in which the database may list the matching events: each once, sorted by timestamp. */
  ghost predicate SortedPlan(t: Tables, c: Criteria, plan: seq<int>) {
    && NoDuplicates(plan)
    && (forall id :: id in plan <==> id in t.events && Matches(c, t.events[id]))
    && Sorted(Map(plan, IdTime(t)))
  }

  predicate RowReadBack(d: Dialect, row: Saved, event: Event) {
    Decoded(d, row.event, row.payload) == Some(event) && row.payload.decision in {"accepted", "rejected"}
  }

  /** The saved events read back, in order. */
  predicate ReadBack(d: Dialect, rows: seq<Saved>, events: seq<Event>) {
    |events| == |rows| && forall i :: 0 <= i < |rows| ==> RowReadBack(d, rows[i], events[i])
  }

  /** How a save ends, case by case. */
  lemma OutcomeIff(d: Dialect, nextId: int, batch: seq<Event>, fault: Fault)
    ensures Outcome(d, nextId, [], fault) == Stored
    ensures batch != [] ==> (Outcome(d, nextId, batch, fault).Threw? <==> fault.AtAcquire?)
    ensures batch != [] ==>
              (Outcome(d, nextId, batch, fault).Stored? <==>
                (fault.NoFault? || (fault.AtStatement? && fault.k > 2 * |batch|))
                && (forall e :: e in batch ==> Insertable(d, e)) && nextId + |batch| <= 2147483648)
  {
    assert forall i :: 0 <= i < |batch| ==> batch[i] in batch;
  }

  lemma IncreasingIsDistinct(ids: seq<int>)
    requires Increasing(ids)
    ensures NoDuplicates(ids)
  {
  }

  lemma PlanIsPermutation(t: Tables, ids: seq<int>, c: Criteria, plan: seq<int>)
    requires Increasing(ids) && NoDuplicates(plan)
    requires forall id :: id in ids ==> id in t.events && id in t.payloads
    requires forall id :: id in plan <==> id in ids && Matches(c, SavedAt(t, id).event)
    ensures Permutation(Listing(t, plan), Filter(Listing(t, ids), Keeps(c)))
  {
    var keep := Composed(SavedIn(t), Keeps(c));
    IncreasingIsDistinct(ids);
    FilterDistinct(ids, keep);
    DistinctWithSameElements(plan, Filter(ids, keep));
    MapPermutation(plan, Filter(ids, keep), SavedIn(t));
    FilterOfMap(ids, SavedIn(t), Keeps(c));
  }

  lemma PlanTimes(t: Tables, plan: seq<int>)
    requires forall id :: id in plan ==> id in t.events && id in t.payloads
    ensures Times(Listing(t, plan)) == Map(plan, IdTime(t))
  {
    var times := Times(Listing(t, plan));
    forall i | 0 <= i < |plan| ensures times[i] == Map(plan, IdTime(t))[i] {
      assert plan[i] in plan;
    }
  }

  /** Listing the events by a sorted plan is an ordering of the saved sequence. */
  lemma PlanIsOrdering(t: Tables, ids: seq<int>, nextId: int, c: Criteria, plan: seq<int>)
    requires Represents(t, ids, nextId) && SortedPlan(t, c, plan)
    ensures Ordering(Listing(t, ids), c, Listing(t, plan))
  {
    PlanIsPermutation(t, ids, c, plan);
    PlanTimes(t, plan);
  }

  lemma PagePart<T>(s: seq<T>, offset: nat, limit: nat)
    ensures |Page(s, offset, limit)|
         == if |s| <= offset then 0 else if |s| - offset <= limit then |s| - offset else limit
    ensures forall x :: multiset(Page(s, offset, limit))[x] <= multiset(s)[x]
    ensures forall x :: x in Page(s, offset, limit) ==> x in s
    ensures forall i :: 0 <= i < |Page(s, offset, limit)| ==> offset + i < |s| && Page(s, offset, limit)[i] == s[offset + i]
  {
    var page := Page(s, offset, limit);
    if offset < |s| {
      assert s == s[..offset] + page + s[offset + |page|..];
    }
  }

  /** And the slice of it is an answer. */
  lemma PlanAnswers(t: Tables, ids: seq<int>, nextId: int, q: Query, plan: seq<int>)
    requires Represents(t, ids, nextId) && SortedPlan(t, q.criteria, plan)
    ensures Answer(Listing(t, ids), q, Listing(t, Page(plan, q.offset, q.limit)))
    ensures forall i :: 0 <= i < |Page(plan, q.offset, q.limit)| ==> Page(plan, q.offset, q.limit)[i] in plan
  {
    var page := Page(plan, q.offset, q.limit);
    PlanIsOrdering(t, ids, nextId, q.criteria, plan);
    assert Listing(t, page) == Page(Listing(t, plan), q.offset, q.limit) by { MapPage(plan, SavedIn(t), q.offset, q.limit); }
    forall i | 0 <= i < |page| ensures page[i] in plan {
      PagePart(plan, q.offset, q.limit);
    }
  }

  /** Every sorted order of the matching events, whatever it does with ties, is the listing of some plan. */
  lemma EveryOrderingIsPlanned(t: Tables, ids: seq<int>, nextId: int, c: Criteria, order: seq<Saved>) returns (plan: seq<int>)
    requires Represents(t, ids, nextId) && Ordering(Listing(t, ids), c, order)
    ensures SortedPlan(t, c, plan) && Listing(t, plan) == order
  {
    var keep := Composed(SavedIn(t), Keeps(c));
    var kept := Filter(ids, keep);
    FilterOfMap(ids, SavedIn(t), Keeps(c));
    plan := PermutationLifts(kept, SavedIn(t), order);
    IncreasingIsDistinct(ids);
    FilterDistinct(ids, keep);
    DistinctPermutation(plan, kept);
    PermutationLength(plan, kept);
    PlanTimes(t, plan);
  }

  /** So the database always has an order to list the matches in. */
  lemma PlanExists(t: Tables, ids: seq<int>, nextId: int, c: Criteria) returns (plan: seq<int>)
    requires Represents(t, ids, nextId)
    ensures SortedPlan(t, c, plan)
  {
    var matching := Filter(Listing(t, ids), Keeps(c));
    SortSorts(matching);
    plan := EveryOrderingIsPlanned(t, ids, nextId, c, SortByTime(matching));
  }

  // ---------------------------------------------------------------- what a filter asks for

  /** The saved events a filter asks for. */
  function Wanted(d: Dialect, filter: EventFilter): Saved -> bool {
    (s: Saved) =>
      && (filter.sourceService.Some? ==> s.event.source == filter.sourceService.value)
      && (filter.status.Some? ==> s.event.status == StatusToStr(filter.status.value))
      && (filter.from.Some? && d.parseTime(filter.from.value).Some? ==> d.parseTime(filter.from.value).value <= s.event.time)
      && (filter.to.Some? && d.parseTime(filter.to.value).Some? ==> s.event.time <= d.parseTime(filter.to.value).value)
  }

  /** The rows are saved events the filter asks for, oldest first and none more often than it was saved; as many
      as offset and limit leave of them, and without either all of them, up to a billion. */
  ghost predicate Fulfils(d: Dialect, log: seq<Saved>, filter: EventFilter, rows: seq<Saved>) {
    var matches := |Filter(log, Wanted(d, filter))|;
    var skipped := if filter.offset.Some? then filter.offset.value else 0;
    var most := if filter.limit.Some? then filter.limit.value else 1_000_000_000;
    && (forall r :: r in rows ==>
          && r in log
          && (filter.sourceService.Some? ==> r.event.source == filter.sourceService.value)
          && (filter.status.Some? ==> r.event.status == StatusToStr(filter.status.value))
          && (filter.from.Some? ==>
                d.parseTime(filter.from.value).Some? && d.parseTime(filter.from.value).value <= r.event.time)
          && (filter.to.Some? ==>
                d.parseTime(filter.to.value).Some? && r.event.time <= d.parseTime(filter.to.value).value))
    && (forall i, j :: 0 <= i < j < |rows| ==> rows[i].event.time <= rows[j].event.time)
    && (forall r :: multiset(rows)[r] <= multiset(log)[r])
    && |rows| == (if matches <= skipped then 0 else if matches - skipped <= most then matches - skipped else most)
    && (filter.limit.None? && filter.offset.None? && matches <= 1_000_000_000 ==>
          forall r :: r in log && Wanted(d, filter)(r) ==> multiset(rows)[r] == multiset(log)[r])
  }

  lemma {:induction false} SameFilter(log: seq<Saved>, p: Saved -> bool, q: Saved -> bool)
    requires forall s :: p(s) == q(s)
    ensures Filter(log, p) == Filter(log, q)
  {
    if log != [] {
      SameFilter(log[1..], p, q);
    }
  }

  lemma OrderCounts(log: seq<Saved>, keep: Saved -> bool, order: seq<Saved>)
    requires Permutation(order, Filter(log, keep))
    ensures |order| == |Filter(log, keep)|
    ensures forall r :: multiset(order)[r] == if keep(r) then multiset(log)[r] else 0
    ensures forall r :: r in order ==> r in log && keep(r)
  {
    PermutationLength(order, Filter(log, keep));
    forall r ensures multiset(order)[r] == if keep(r) then multiset(log)[r] else 0 {
      FilterCount(log, keep, r);
    }
  }

  lemma PageSorted(order: seq<Saved>, offset: nat, limit: nat)
    requires Sorted(Times(order))
    ensures var rows := Page(order, offset, limit);
      forall i, j :: 0 <= i < j < |rows| ==> rows[i].event.time <= rows[j].event.time
  {
    var rows := Page(order, offset, limit);
    PagePart(order, offset, limit);
    forall i, j | 0 <= i < j < |rows| ensures rows[i].event.time <= rows[j].event.time {
      assert Times(order)[offset + i] <= Times(order)[offset + j];
    }
  }

  /** A page of the wanted events, counted. */
  lemma PageCounts(log: seq<Saved>, keep: Saved -> bool, order: seq<Saved>, offset: nat, limit: nat)
    requires Permutation(order, Filter(log, keep))
    ensures var rows, matches := Page(order, offset, limit), |Filter(log, keep)|;
      && |rows| == (if matches <= offset then 0 else if matches - offset <= limit then matches - offset else limit)
      && (forall r :: multiset(rows)[r] <= multiset(log)[r])
      && (forall r :: r in rows ==> r in log && keep(r))
      && (offset == 0 && matches <= limit ==> forall r :: r in log && keep(r) ==> multiset(rows)[r] == multiset(log)[r])
  {
    OrderCounts(log, keep, order);
    PagePart(order, offset, limit);
    if offset == 0 && |order| <= limit {
      PageWhole(order, limit);
    }
  }

  lemma OrderingFulfils(d: Dialect, log: seq<Saved>, filter: EventFilter, order: seq<Saved>, rows: seq<Saved>)
    requires Bound(d, filter).Some? && Ordering(log, Bound(d, filter).value.criteria, order)
    requires rows == Page(order, Bound(d, filter).value.offset, Bound(d, filter).value.limit)
    ensures Fulfils(d, log, filter, rows)
  {
    var q, keep := Bound(d, filter).value, Wanted(d, filter);
    assert forall s :: Keeps(q.criteria)(s) == keep(s);
    SameFilter(log, Keeps(q.criteria), keep);
    PageCounts(log, keep, order, q.offset, q.limit);
    PageSorted(order, q.offset, q.limit);
  }

  /** Whatever the database answers is what the filter asks for. */
  lemma AnswersFulfil(d: Dialect, log: seq<Saved>, filter: EventFilter, rows: seq<Saved>)
    requires Bound(d, filter).Some? && Answer(log, Bound(d, filter).value, rows)
    ensures Fulfils(d, log, filter, rows)
  {
    var q := Bound(d, filter).value;
    OrderingFulfils(d, log, filter, OrderBehind(Filter(log, Keeps(q.criteria)), q.offset, q.limit, rows), rows);
  }

  lemma ReadBackFields(d: Dialect, rows: seq<Saved>, events: seq<Event>)
    requires ReadBack(d, rows, events)
    ensures forall i :: 0 <= i < |rows| ==>
              && events[i].sourceService == rows[i].event.source && StatusToStr(events[i].status) == rows[i].event.status
              && events[i].timestampUtc == d.showTime(rows[i].event.time)
              && events[i].payload == Payload(rows[i].payload.rawLine, rows[i].payload.ip, rows[i].payload.decision, rows[i].payload.reason)
  {
    forall i | 0 <= i < |rows| ensures StatusToStr(events[i].status) == rows[i].event.status {
      assert RowReadBack(d, rows[i], events[i]);
      StatusTextInverse(events[i].status, rows[i].event.status);
    }
    forall i | 0 <= i < |rows| ensures events[i].sourceService == rows[i].event.source && events[i].timestampUtc == d.showTime(rows[i].event.time) {
      assert RowReadBack(d, rows[i], events[i]);
    }
    assert forall i :: 0 <= i < |rows| ==> RowReadBack(d, rows[i], events[i]);
  }

  /** So every event returned has the status and the source asked for, and there are no more than asked for. */
  lemma ReturnedAsAsked(d: Dialect, log: seq<Saved>, filter: EventFilter, rows: seq<Saved>, events: seq<Event>)
    requires Fulfils(d, log, filter, rows) && ReadBack(d, rows, events)
    ensures forall e :: e in events ==>
              && (filter.status.Some? ==> e.status == filter.status.value)
              && (filter.sourceService.Some? ==> e.sourceService == filter.sourceService.value)
    ensures filter.limit.Some? ==> |events| <= filter.limit.value
  {
    ReadBackFields(d, rows, events);
    forall i | 0 <= i < |events|
      ensures filter.status.Some? ==> events[i].status == filter.status.value
      ensures filter.sourceService.Some? ==> events[i].sourceService == filter.sourceService.value
    {
      assert rows[i] in rows;
      if filter.status.Some? {
        StatusTextInverse(events[i].status, rows[i].event.status);
        StatusTextInverse(filter.status.value, rows[i].event.status);
      }
    }
  }

  /** Ids that a rolled-back transaction drew are skipped. */
  lemma OlderIdsStay(t: Tables, ids: seq<int>, nextId: int, later: int)
    requires Represents(t, ids, nextId) && nextId <= later
    ensures Represents(t, ids, later)
  {
  }

  class EventStore {
    const dialect: Dialect
    var tables: Tables
    var nextId: int
    ghost var ids: seq<int>

    ghost predicate Valid()
      reads this
    {
      nextId >= 1 && Represents(tables, ids, nextId)
    }

    /** The saved events, in id order. */
    ghost function Log(): seq<Saved>
      reads this
    {
      Listing(tables, ids)
    }

    constructor (dialect: Dialect)
      ensures Valid() && Log() == [] && this.dialect == dialect && nextId == 1
    {
      this.dialect := dialect;
      tables := Tables(map[], map[]);
      nextId := 1;
      ids := [];
    }

    /** The two inserts of the i-th event, on the transaction's own view of the tables.  The id sequence is
        not part of the transaction: an id, once drawn, is gone. */
    method InsertEvent(view: Tables, ghost viewIds: seq<int>, event: Event, i: nat, fault: Fault)
      returns (ok: bool, next: Tables, ghost nextIds: seq<int>)
      requires nextId >= 1 && Represents(view, viewIds, nextId)
      modifies this`nextId
      ensures ok <==> old(nextId) <= MAX_ID && Insertable(dialect, event) && !Strikes(fault, 2 * i) && !Strikes(fault, 2 * i + 1)
      ensures ok ==>
                && nextId == old(nextId) + 1 && Represents(next, nextIds, nextId)
                && Listing(next, nextIds) == Listing(view, viewIds) + [SavedOf(dialect, event)]
      ensures old(nextId) <= nextId
    {
      ok, next, nextIds := false, view, viewIds;
      if nextId > MAX_ID {
        return;
      }
      var id := nextId;
      nextId := nextId + 1;
      if Strikes(fault, 2 * i) || !EventInserts(dialect, event) {
        return;
      }
      if Strikes(fault, 2 * i + 1) || !PayloadInserts(dialect, event.payload) {
        return;
      }
      InsertAppends(view, viewIds, id, EventRowOf(dialect, event), PayloadRowOf(dialect, event.payload));
      ok := true;
      next := Tables(view.events[id := EventRowOf(dialect, event)], view.payloads[id := PayloadRowOf(dialect, event.payload)]);
      nextIds := viewIds + [id];
    }

    /** The transaction: every event inserted, then the commit.  `view` is what the commit would publish. */
    method Transaction(batch: seq<Event>, fault: Fault) returns (ok: bool, view: Tables, ghost viewIds: seq<int>)
      requires Valid()
      modifies this`nextId
      ensures ok <==> AllInsertable(dialect, batch) && (batch == [] || old(nextId) + |batch| - 1 <= MAX_ID)
                      && !(fault.AtStatement? && fault.k <= 2 * |batch|)
      ensures ok ==>
                && Represents(view, viewIds, nextId) && nextId == old(nextId) + |batch|
                && Listing(view, viewIds) == Listing(tables, ids) + SavedAll(dialect, batch)
      ensures old(nextId) <= nextId
    {
      view, viewIds := tables, ids;
      ghost var before := Listing(tables, ids);
      for i := 0 to |batch|
        invariant nextId == old(nextId) + i && (i > 0 ==> nextId - 1 <= MAX_ID)
        invariant Represents(view, viewIds, nextId)
        invariant AllInsertable(dialect, batch[..i])
        invariant fault.AtStatement? ==> fault.k >= 2 * i
        invariant Listing(view, viewIds) == before + SavedAll(dialect, batch[..i])
      {
        ok, view, viewIds := InsertEvent(view, viewIds, batch[i], i, fault);
        if !ok {
          return;
        }
        SavedAllStep(dialect, before, batch, i);
      }
      assert batch[..|batch|] == batch;
      ok := !Strikes(fault, 2 * |batch|);
    }

    /** All or nothing: the events are appended in order, or both tables are exactly as before. */
    method SaveEvents(batch: seq<Event>, fault: Fault) returns (outcome: SaveOutcome)
      requires Valid()
      modifies this
      ensures Valid()
      ensures outcome == Outcome(dialect, old(nextId), batch, fault)
      ensures outcome.Stored? ==>
                && AllInsertable(dialect, batch)
                && Log() == old(Log()) + SavedAll(dialect, batch)
                && nextId == old(nextId) + |batch|
      ensures !outcome.Stored? ==> tables == old(tables) && Log() == old(Log())
      ensures nextId >= old(nextId)
    {
      if batch == [] {
        return Stored;
      }
      if fault.AtAcquire? {
        return Threw;
      }
      var ok, view;
      ghost var viewIds;
      ok, view, viewIds := Transaction(batch, fault);
      if !ok {
        OlderIdsStay(tables, ids, old(nextId), nextId);
        return Refused;
      }
      tables, ids := view, viewIds;
      return Stored;
    }

    /** `plan` is the order the database chose for the matching events; `fails` says that no connection could be
        had or a statement failed.  None is a NotOk result. */
    method GetEvents(filter: EventFilter, plan: seq<int>, fails: bool) returns (result: Option<seq<Event>>)
      requires Valid()
      requires Bound(dialect, filter).Some? ==> SortedPlan(tables, Bound(dialect, filter).value.criteria, plan)
      ensures result.None? <==>
                || fails
                || (filter.from.Some? && dialect.parseTime(filter.from.value).None?)
                || (filter.to.Some? && dialect.parseTime(filter.to.value).None?)
      ensures result.Some? ==>
                exists rows ::
                  && Answer(Log(), Bound(dialect, filter).value, rows) && Fulfils(dialect, Log(), filter, rows)
                  && ReadBack(dialect, rows, result.value)
      ensures result.Some? ==>
                && (filter.status.Some? ==> forall e :: e in result.value ==> e.status == filter.status.value)
                && (filter.sourceService.Some? ==> forall e :: e in result.value ==> e.sourceService == filter.sourceService.value)
                && (filter.limit.Some? ==> |result.value| <= filter.limit.value)
    {
      var bound := Bound(dialect, filter);
      if fails || bound.None? {
        return None;
      }
      var query := bound.value;
      PlanAnswers(tables, ids, nextId, query, plan);
      ghost var rows := Listing(tables, Page(plan, query.offset, query.limit));
      AnswersFulfil(dialect, Log(), filter, rows);
      result := DecodeRows(Page(plan, query.offset, query.limit));
      ReturnedAsAsked(dialect, Log(), filter, rows, result.value);
    }

    /** The joined rows with the given ids, decoded one by one.  A missing payload row or an unknown status text
        would throw; neither occurs in a valid store. */
    method DecodeRows(page: seq<int>) returns (result: Option<seq<Event>>)
      requires Valid() && forall i :: 0 <= i < |page| ==> page[i] in tables.events
      ensures result.Some? && ReadBack(dialect, Listing(tables, page), result.value)
    {
      var events := [];
      ghost var rows := Listing(tables, page);
      for i := 0 to |page|
        invariant |events| == i
        invariant forall j :: 0 <= j < i ==> RowReadBack(dialect, rows[j], events[j])
      {
        var row := JoinAt(tables, page[i]);
        var decoded := if row.payload.None? then None else Decoded(dialect, row.event, row.payload.value);
        StatusTextInverse(Success, row.event.status);
        StatusTextInverse(Error, row.event.status);
        if decoded.None? {
          return None;
        }
        events := events + [decoded.value];
      }
      return Some(events);
    }

    /** The three counts over the events table; None is a NotOk result. */
    method GetStats(fails: bool) returns (stats: Option<Stats>)
      requires Valid()
      ensures stats.None? <==> fails
      ensures stats.Some? ==>
                && stats.value == StatsOf(Log()) && stats.value.total == stats.value.success + stats.value.error
                && stats.value.success == |set id | id in tables.events && tables.events[id].status == "success"|
                && stats.value.error == |set id | id in tables.events && tables.events[id].status == "error"|
    {
      if fails {
        return None;
      }
      var all := set id | id in tables.events;
      var ok := set id | id in tables.events && tables.events[id].status == "success";
      var bad := set id | id in tables.events && tables.events[id].status == "error";
      CountedByStatus(tables, ids, nextId, Success, ok);
      CountedByStatus(tables, ids, nextId, Error, bad);
      IncreasingIsDistinct(ids);
      assert forall id :: id in all <==> id in ids;
      DistinctSize(ids, all);
      LogStatusesKnown(tables, ids, nextId);
      StatsAddUp(Log());
      return Some(Stats(|all|, |ok|, |bad|));
    }
  }

  lemma LogStatusesKnown(t: Tables, ids: seq<int>, nextId: int)
    requires Represents(t, ids, nextId)
    ensures StatusesKnown(Listing(t, ids))
  {
    forall s | s in Listing(t, ids) ensures s.event.status in {"success", "error"} {
      var i :| 0 <= i < |ids| && Listing(t, ids)[i] == s;
      assert ids[i] in ids;
    }
  }

  lemma CountedByStatus(t: Tables, ids: seq<int>, nextId: int, status: Status, counted: set<int>)
    requires Represents(t, ids, nextId)
    requires forall id :: id in counted <==> id in t.events && t.events[id].status == StatusToStr(status)
    ensures |counted| == |Filter(Listing(t, ids), Keeps(WithStatus(status)))|
  {
    var keep := Composed(SavedIn(t), Keeps(WithStatus(status)));
    IncreasingIsDistinct(ids);
    FilterDistinct(ids, keep);
    assert forall id :: id in counted <==> id in Filter(ids, keep);
    DistinctSize(Filter(ids, keep), counted);
    FilterOfMap(ids, SavedIn(t), Keeps(WithStatus(status)));
  }

  /** Joining the tables in any order shows each saved event exactly once, never without its payload. */
  lemma JoinShowsEachOnce(t: Tables, ids: seq<int>, nextId: int, order: seq<int>)
    requires Represents(t, ids, nextId) && NoDuplicates(order) && forall id :: id in order <==> id in t.events
    ensures Permutation(Listing(t, order), Listing(t, ids))
    ensures forall id :: id in order ==> JoinAt(t, id) == JoinedRow(SavedAt(t, id).event, Some(SavedAt(t, id).payload))
  {
    PlanIsPermutation(t, ids, EVERYTHING, order);
    EverythingKept(Listing(t, ids));
  }

  // ---------------------------------------------------------------- statistics over a run of saves

  /** One call of SaveEvents and whether it stored its batch. */
  datatype SaveCall = SaveCall(batch: seq<Event>, stored: bool)

  predicate CallsOk(d: Dialect, calls: seq<SaveCall>) {
    forall i :: 0 <= i < |calls| && calls[i].stored ==> AllInsertable(d, calls[i].batch)
  }

  function LogAfter(d: Dialect, log: seq<Saved>, calls: seq<SaveCall>): seq<Saved>
    requires CallsOk(d, calls)
    decreases calls
  {
    if calls == [] then log
    else LogAfter(d, if calls[0].stored then log + SavedAll(d, calls[0].batch) else log, calls[1..])
  }

  function HasStatus(status: Status): Event -> bool {
    (e: Event) => e.status == status
  }

  function StoredSize(call: SaveCall): nat {
    if call.stored then |call.batch| else 0
  }

  function StoredWith(status: Status): SaveCall -> nat {
    (call: SaveCall) => if call.stored then |Filter(call.batch, HasStatus(status))| else 0
  }

  lemma {:induction false} SavedStatusCount(d: Dialect, batch: seq<Event>, status: Status)
    requires AllInsertable(d, batch)
    ensures |Filter(SavedAll(d, batch), Keeps(WithStatus(status)))| == |Filter(batch, HasStatus(status))|
    ensures |SavedAll(d, batch)| == |batch|
  {
    if batch != [] {
      SavedStatusCount(d, batch[1..], status);
      StatusTextInverse(status, StatusToStr(batch[0].status));
      StatusTextInverse(batch[0].status, StatusToStr(batch[0].status));
      assert SavedAll(d, batch)[1..] == SavedAll(d, batch[1..]);
    }
  }

  /** After every run of saves, each count is the earlier count plus what the successful saves contributed;
      failed saves contribute nothing. */
  lemma {:induction false} StatsFollowRun(d: Dialect, log: seq<Saved>, calls: seq<SaveCall>)
    requires CallsOk(d, calls)
    ensures var before, after := StatsOf(log), StatsOf(LogAfter(d, log, calls));
      && after.total == before.total + Total(calls, StoredSize)
      && after.success == before.success + Total(calls, StoredWith(Success))
      && after.error == before.error + Total(calls, StoredWith(Error))
    decreases calls
  {
    if calls != [] {
      if calls[0].stored {
        var added := SavedAll(d, calls[0].batch);
        SavedStatusCount(d, calls[0].batch, Success);
        SavedStatusCount(d, calls[0].batch, Error);
        FilterConcat(log, added, Keeps(WithStatus(Success)));
        FilterConcat(log, added, Keeps(WithStatus(Error)));
        StatsFollowRun(d, log + added, calls[1..]);
      } else {
        StatsFollowRun(d, log, calls[1..]);
      }
    }
  }
}
