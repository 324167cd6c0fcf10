/** The get_events and get_stats queries over the sequence of saved events. */
module Queries {
  import opened Collections
  import opened Paging
  import opened Permutations
  import opened Events
  import opened Schema

  const ROWS_MAX: nat := 1_000_000_000

  /** The WHERE clause: a field that is not set is compared with itself. */
  datatype Criteria = Criteria(source: Option<string>, from: Option<int>, to: Option<int>, status: Option<string>)

  datatype Query = Query(criteria: Criteria, limit: nat, offset: nat)

  const EVERYTHING := Criteria(None, None, None, None)

  predicate Matches(c: Criteria, row: EventRow) {
    && (c.source.Some? ==> row.source == c.source.value)
    && (c.from.Some? ==> row.time >= c.from.value)
    && (c.to.Some? ==> row.time <= c.to.value)
    && (c.status.Some? ==> row.status == c.status.value)
  }

  function Keeps(c: Criteria): Saved -> bool {
    (s: Saved) => Matches(c, s.event)
  }

  /** Any order of the matching events that is sorted by timestamp; ties may come in any order. */
  ghost predicate Ordering(log: seq<Saved>, c: Criteria, rows: seq<Saved>) {
    Arranges(rows, Filter(log, Keeps(c)))
  }

  /** What the database may answer: the requested slice of some ordering. */
  ghost predicate Answer(log: seq<Saved>, q: Query, rows: seq<Saved>) {
    PageOf(Filter(log, Keeps(q.criteria)), q.offset, q.limit, rows)
  }

  // ---------------------------------------------------------------- an answer always exists

  lemma AnswerExists(log: seq<Saved>, q: Query)
    ensures exists rows :: Answer(log, q, rows)
  {
    var matching := Filter(log, Keeps(q.criteria));
    SortSorts(matching);
    assert Answer(log, q, Page(SortByTime(matching), q.offset, q.limit));
  }

  /** The time bounds are inclusive on both sides: a window cut after instant `t` falls into two that share
      nothing and miss nothing. */
  lemma WindowSplits(log: seq<Saved>, c: Criteria, t: int)
    requires (c.from.Some? ==> c.from.value <= t + 1) && (c.to.Some? ==> t <= c.to.value)
    ensures multiset(Filter(log, Keeps(c)))
         == multiset(Filter(log, Keeps(c.(to := Some(t))))) + multiset(Filter(log, Keeps(c.(from := Some(t + 1)))))
  {
    FilterSplits(log, Keeps(c), Keeps(c.(to := Some(t))), Keeps(c.(from := Some(t + 1))));
  }

  // ---------------------------------------------------------------- paging

  /** Pages 0, k, 2k, ... of an unchanged log, each fetched by its own query. */
  ghost predicate Paged(log: seq<Saved>, c: Criteria, k: nat, pages: seq<seq<Saved>>) {
    forall i: nat :: i < |pages| ==> Answer(log, Query(c, k, PageStart(i, k)), pages[i])
  }

  /** The pages joined show the same timestamps as the query without limit, whatever the ties do. */
  lemma PagingKeepsTimes(log: seq<Saved>, c: Criteria, k: nat, pages: seq<seq<Saved>>, full: seq<Saved>)
    requires Paged(log, c, k, pages) && Answer(log, Query(c, ROWS_MAX, 0), full)
    requires |Filter(log, Keeps(c))| <= ROWS_MAX && |Filter(log, Keeps(c))| <= PageStart(|pages|, k)
    ensures Times(Flatten(pages)) == Times(full)
  {
    WholePage(Filter(log, Keeps(c)), ROWS_MAX, full);
    PagesKeepTimes(Filter(log, Keeps(c)), k, pages, full);
  }

  /** Whatever order each query gives to ties, the `n` pages joined are the unpaged answer. */
  ghost predicate PagingExact(log: seq<Saved>, c: Criteria, k: nat, n: nat) {
    forall pages, full ::
      |pages| == n && Paged(log, c, k, pages) && Answer(log, Query(c, ROWS_MAX, 0), full) ==> Flatten(pages) == full
  }

  /** Paging gives back the unpaged answer, in every case, exactly when rows that share a timestamp are equal. */
  lemma PagingExactIff(log: seq<Saved>, c: Criteria, k: nat, n: nat)
    requires |Filter(log, Keeps(c))| <= ROWS_MAX && |Filter(log, Keeps(c))| <= PageStart(n, k)
    ensures PagingExact(log, c, k, n) <==> TiesEqual(Filter(log, Keeps(c)))
  {
    var matching := Filter(log, Keeps(c));
    if TiesEqual(matching) {
      forall pages, full | |pages| == n && Paged(log, c, k, pages) && Answer(log, Query(c, ROWS_MAX, 0), full)
        ensures Flatten(pages) == full
      {
        WholePage(matching, ROWS_MAX, full);
        EqualTiesPageExactly(matching, k, pages, full);
      }
    } else {
      var a, b := TwoArrangements(matching);
      ArrangementPages(matching, k, n, b);
      ArrangementIsWhole(matching, ROWS_MAX, a);
      assert Paged(log, c, k, CutInto(b, k, n));
      assert Answer(log, Query(c, ROWS_MAX, 0), a);
    }
  }

  /** In particular when no two matches share a timestamp. */
  lemma PagingIsExactWithoutTies(log: seq<Saved>, c: Criteria, k: nat, n: nat)
    requires |Filter(log, Keeps(c))| <= ROWS_MAX && |Filter(log, Keeps(c))| <= PageStart(n, k)
    requires NoDuplicates(Times(Filter(log, Keeps(c))))
    ensures PagingExact(log, c, k, n)
  {
    DistinctTimesTiesEqual(Filter(log, Keeps(c)));
    PagingExactIff(log, c, k, n);
  }

  /** Whatever order each query gives to ties, the `n` pages together show every match as often as it was saved. */
  ghost predicate PagingComplete(log: seq<Saved>, c: Criteria, k: nat, n: nat) {
    forall pages :: |pages| == n && Paged(log, c, k, pages) ==> Permutation(Flatten(pages), Filter(log, Keeps(c)))
  }

  /** Page by page every match is shown exactly as often as it was saved, in every case, if and only if no page
      boundary falls between different rows of one timestamp. */
  lemma PagingCompleteIff(log: seq<Saved>, c: Criteria, k: nat, n: nat)
    requires |Filter(log, Keeps(c))| <= PageStart(n, k)
    ensures PagingComplete(log, c, k, n) <==> CleanPages(Filter(log, Keeps(c)), k)
  {
    var matching := Filter(log, Keeps(c));
    if CleanPages(matching, k) {
      forall pages | |pages| == n && Paged(log, c, k, pages) ensures Permutation(Flatten(pages), matching) {
        CleanPagesComplete(matching, k, pages);
      }
    } else {
      var i: nat :| !CleanCut(matching, PageStart(i, k));
      var pages := UncleanPages(matching, k, n, i);
      assert Paged(log, c, k, pages);
    }
  }

  // ---------------------------------------------------------------- statistics

  datatype Stats = Stats(total: nat, success: nat, error: nat)

  predicate StatusesKnown(log: seq<Saved>) {
    forall s :: s in log ==> s.event.status in {"success", "error"}
  }

  function WithStatus(status: Status): Criteria {
    EVERYTHING.(status := Some(StatusToStr(status)))
  }

  function StatsOf(log: seq<Saved>): Stats {
    Stats(|log|, |Filter(log, Keeps(WithStatus(Success)))|, |Filter(log, Keeps(WithStatus(Error)))|)
  }

  lemma {:induction false} StatsAddUp(log: seq<Saved>)
    requires StatusesKnown(log)
    ensures StatsOf(log).total == StatsOf(log).success + StatsOf(log).error
  {
    if log != [] {
      assert log[0] in log;
      assert "success"[0] != "error"[0];
      StatsAddUp(log[1..]);
    }
  }

  lemma {:induction false} EverythingKept(log: seq<Saved>)
    ensures Filter(log, Keeps(EVERYTHING)) == log
  {
    if log != [] {
      EverythingKept(log[1..]);
    }
  }

  /** Asking for status `unspecified` selects nothing: no stored row has that text. */
  lemma {:induction false} UnspecifiedMatchesNothing(log: seq<Saved>, c: Criteria)
    requires StatusesKnown(log) && c.status == Some(StatusToStr(Unspecified))
    ensures Filter(log, Keeps(c)) == []
  {
    if log != [] {
      assert log[0] in log;
      StatusTextInverse(Unspecified, log[0].event.status);
      assert "success"[0] != "unspecified"[0] && "error"[0] != "unspecified"[0];
      UnspecifiedMatchesNothing(log[1..], c);
    }
  }

  /** Each count is the length of the matching unlimited query, as long as that query is not cut at its maximum. */
  lemma StatsMatchQueries(log: seq<Saved>, all: seq<Saved>, ok: seq<Saved>, bad: seq<Saved>)
    requires |log| <= ROWS_MAX
    requires Answer(log, Query(EVERYTHING, ROWS_MAX, 0), all)
    requires Answer(log, Query(WithStatus(Success), ROWS_MAX, 0), ok)
    requires Answer(log, Query(WithStatus(Error), ROWS_MAX, 0), bad)
    ensures StatsOf(log) == Stats(|all|, |ok|, |bad|)
  {
    EverythingKept(log);
    WholePage(Filter(log, Keeps(EVERYTHING)), ROWS_MAX, all);
    WholePage(Filter(log, Keeps(WithStatus(Success))), ROWS_MAX, ok);
    WholePage(Filter(log, Keeps(WithStatus(Error))), ROWS_MAX, bad);
  }
}
