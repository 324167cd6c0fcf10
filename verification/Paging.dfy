/** Rows sorted by timestamp with ties in any order, and what fetching such rows page by page can show. */
module Paging {
  import opened Permutations
  import opened Schema

  function TimeOf(s: Saved): int { s.event.time }

  function Times(rows: seq<Saved>): seq<int> {
    Map(rows, TimeOf)
  }

  /** `order` lists exactly `rows`, sorted by timestamp. */
  ghost predicate Arranges(order: seq<Saved>, rows: seq<Saved>) {
    Permutation(order, rows) && Sorted(Times(order))
  }

  /** The slice by offset and limit of some arrangement. */
  ghost predicate PageOf(rows: seq<Saved>, offset: nat, limit: nat, page: seq<Saved>) {
    exists order :: Arranges(order, rows) && page == Page(order, offset, limit)
  }

  ghost function OrderBehind(rows: seq<Saved>, offset: nat, limit: nat, page: seq<Saved>): (order: seq<Saved>)
    requires PageOf(rows, offset, limit, page)
    ensures Arranges(order, rows) && page == Page(order, offset, limit)
  {
    var order :| Arranges(order, rows) && page == Page(order, offset, limit);
    order
  }

  // ---------------------------------------------------------------- an arrangement always exists

  function InsertByTime(x: Saved, s: seq<Saved>): (r: seq<Saved>)
    ensures multiset(r) == multiset{x} + multiset(s)
  {
    if s == [] || TimeOf(x) <= TimeOf(s[0]) then [x] + s
    else
      assert s == [s[0]] + s[1..];
      [s[0]] + InsertByTime(x, s[1..])
  }

  lemma {:induction false} InsertKeepsSorted(x: Saved, s: seq<Saved>)
    requires Sorted(Times(s))
    ensures Sorted(Times(InsertByTime(x, s)))
  {
    var r := InsertByTime(x, s);
    if s == [] {
    } else if TimeOf(x) <= TimeOf(s[0]) {
      assert Times(r) == [TimeOf(x)] + Times(s);
    } else {
      var tail := InsertByTime(x, s[1..]);
      assert Times(s) == [TimeOf(s[0])] + Times(s[1..]);
      InsertKeepsSorted(x, s[1..]);
      assert Times(r) == [TimeOf(s[0])] + Times(tail);
      forall j | 0 <= j < |tail| ensures TimeOf(s[0]) <= Times(tail)[j] {
        assert tail[j] in multiset(tail);
        if tail[j] != x {
          assert tail[j] in s[1..];
          var i :| 0 <= i < |s[1..]| && s[1..][i] == tail[j];
          assert Times(s)[0] <= Times(s)[i + 1];
        }
      }
    }
  }

  function SortByTime(s: seq<Saved>): seq<Saved> {
    if s == [] then [] else InsertByTime(s[0], SortByTime(s[1..]))
  }

  lemma {:induction false} SortSorts(s: seq<Saved>)
    ensures Arranges(SortByTime(s), s)
  {
    if s != [] {
      SortSorts(s[1..]);
      InsertKeepsSorted(s[0], SortByTime(s[1..]));
      assert s == [s[0]] + s[1..];
    }
  }

  // ---------------------------------------------------------------- what all arrangements share

  lemma ArrangementSize(rows: seq<Saved>, order: seq<Saved>)
    requires Arranges(order, rows)
    ensures |order| == |rows|
  {
    PermutationLength(order, rows);
  }

  lemma ArrangementMembers(rows: seq<Saved>, order: seq<Saved>)
    requires Arranges(order, rows)
    ensures |order| == |rows| && forall x :: x in order <==> x in rows
  {
    PermutationLength(order, rows);
  }

  /** Two arrangements show the same timestamps, whatever the tie order. */
  lemma SameTimes(rows: seq<Saved>, a: seq<Saved>, b: seq<Saved>)
    requires Arranges(a, rows) && Arranges(b, rows)
    ensures Times(a) == Times(b)
  {
    MapPermutation(a, b, TimeOf);
    SortedIsUnique(Times(a), Times(b));
  }

  /** A page long enough is a whole arrangement. */
  lemma WholePage(rows: seq<Saved>, limit: nat, page: seq<Saved>)
    requires PageOf(rows, 0, limit, page) && |rows| <= limit
    ensures Arranges(page, rows) && |page| == |rows|
  {
    var order := OrderBehind(rows, 0, limit, page);
    ArrangementSize(rows, order);
    PageWhole(order, limit);
  }

  lemma ArrangementIsWhole(rows: seq<Saved>, limit: nat, order: seq<Saved>)
    requires Arranges(order, rows) && |rows| <= limit
    ensures PageOf(rows, 0, limit, order)
  {
    ArrangementSize(rows, order);
    PageWhole(order, limit);
  }

  /** Pages 0, k, 2k, ..., each cut from an arrangement of its own. */
  ghost predicate PagesFrom(rows: seq<Saved>, k: nat, pages: seq<seq<Saved>>) {
    forall i: nat :: i < |pages| ==> PageOf(rows, PageStart(i, k), k, pages[i])
  }

  lemma PageTimes(rows: seq<Saved>, order: seq<Saved>, offset: nat, k: nat, page: seq<Saved>)
    requires Arranges(order, rows) && PageOf(rows, offset, k, page)
    ensures Times(page) == Page(Times(order), offset, k)
  {
    var own := OrderBehind(rows, offset, k, page);
    SameTimes(rows, own, order);
    MapPage(own, TimeOf, offset, k);
  }

  lemma PagesKeepTimes(rows: seq<Saved>, k: nat, pages: seq<seq<Saved>>, order: seq<Saved>)
    requires PagesFrom(rows, k, pages) && Arranges(order, rows) && |rows| <= PageStart(|pages|, k)
    ensures Times(Flatten(pages)) == Times(order)
  {
    ArrangementSize(rows, order);
    var timed := seq(|pages|, i requires 0 <= i < |pages| => Times(pages[i]));
    forall i: nat | i < |pages| ensures timed[i] == Page(Times(order), PageStart(i, k), k) {
      PageTimes(rows, order, PageStart(i, k), k, pages[i]);
    }
    MapFlatten(pages, timed, TimeOf);
    PagesAreWhole(Times(order), k, timed);
  }

  // ---------------------------------------------------------------- when there is only one arrangement

  /** Rows with one timestamp are one and the same row, however often it was saved. */
  ghost predicate TiesEqual(rows: seq<Saved>) {
    forall x, y :: x in rows && y in rows && TimeOf(x) == TimeOf(y) ==> x == y
  }

  lemma DistinctTimesTiesEqual(rows: seq<Saved>)
    requires NoDuplicates(Times(rows))
    ensures TiesEqual(rows)
  {
    forall x, y | x in rows && y in rows && TimeOf(x) == TimeOf(y) ensures x == y {
      var i :| 0 <= i < |rows| && rows[i] == x;
      var j :| 0 <= j < |rows| && rows[j] == y;
      assert Times(rows)[i] == Times(rows)[j];
    }
  }

  lemma TiesEqualFixOrder(rows: seq<Saved>, a: seq<Saved>, b: seq<Saved>)
    requires Arranges(a, rows) && Arranges(b, rows) && TiesEqual(rows)
    ensures a == b
  {
    SameTimes(rows, a, b);
    ArrangementMembers(rows, a);
    ArrangementMembers(rows, b);
    forall i | 0 <= i < |a| ensures a[i] == b[i] {
      assert Times(a)[i] == Times(b)[i] && a[i] in a && b[i] in b;
    }
  }

  lemma EqualTiesPageExactly(rows: seq<Saved>, k: nat, pages: seq<seq<Saved>>, order: seq<Saved>)
    requires PagesFrom(rows, k, pages) && Arranges(order, rows) && |rows| <= PageStart(|pages|, k)
    requires TiesEqual(rows)
    ensures Flatten(pages) == order
  {
    ArrangementSize(rows, order);
    forall i: nat | i < |pages| ensures pages[i] == Page(order, PageStart(i, k), k) {
      TiesEqualFixOrder(rows, OrderBehind(rows, PageStart(i, k), k, pages[i]), order);
    }
    PagesAreWhole(order, k, pages);
  }

  /** Swapping two tied rows of an arrangement gives another. */
  lemma SwapTied(rows: seq<Saved>, order: seq<Saved>, i: nat, j: nat)
    requires Arranges(order, rows) && i < |order| && j < |order| && TimeOf(order[i]) == TimeOf(order[j])
    ensures Arranges(Swapped(order, i, j), rows)
  {
    assert Times(Swapped(order, i, j)) == Times(order);
  }

  lemma TwoArrangements(rows: seq<Saved>) returns (a: seq<Saved>, b: seq<Saved>)
    requires !TiesEqual(rows)
    ensures Arranges(a, rows) && Arranges(b, rows) && a != b
  {
    var x, y :| x in rows && y in rows && TimeOf(x) == TimeOf(y) && x != y;
    a := SortByTime(rows);
    SortSorts(rows);
    ArrangementMembers(rows, a);
    var i :| 0 <= i < |a| && a[i] == x;
    var j :| 0 <= j < |a| && a[j] == y;
    SwapTied(rows, a, i, j);
    b := Swapped(a, i, j);
  }

  /** The pages of one arrangement. */
  lemma ArrangementPages(rows: seq<Saved>, k: nat, n: nat, order: seq<Saved>)
    requires Arranges(order, rows)
    ensures PagesFrom(rows, k, CutInto(order, k, n))
    ensures |rows| <= PageStart(n, k) ==> Flatten(CutInto(order, k, n)) == order
  {
    ArrangementSize(rows, order);
    if |rows| <= PageStart(n, k) {
      PagesAreWhole(order, k, CutInto(order, k, n));
    }
  }

  // ---------------------------------------------------------------- when every row is shown once

  /** Rows on either side of position `b` differ in time, or all rows of that time are equal. */
  ghost predicate CleanCut(rows: seq<Saved>, b: nat) {
    var times := Times(SortByTime(rows));
    0 < b < |times| && times[b - 1] == times[b] ==>
      forall x, y :: x in rows && y in rows && TimeOf(x) == TimeOf(y) == times[b] ==> x == y
  }

  /** No page boundary falls between rows that could trade places. */
  ghost predicate CleanPages(rows: seq<Saved>, k: nat) {
    forall i: nat :: CleanCut(rows, PageStart(i, k))
  }

  lemma AllBeforeCut(a: seq<Saved>, cut: nat, x: Saved)
    requires cut < |a| && Sorted(Times(a)) && TimeOf(x) < Times(a)[cut]
    ensures multiset(a[..cut])[x] == multiset(a)[x]
  {
    assert a == a[..cut] + a[cut..];
    forall i | cut <= i < |a| ensures a[i] != x {
      assert Times(a)[cut] <= Times(a)[i];
    }
    assert x !in a[cut..];
  }

  /** The timestamps of every arrangement. */
  lemma TimesAreSorted(rows: seq<Saved>, order: seq<Saved>)
    requires Arranges(order, rows)
    ensures Times(order) == Times(SortByTime(rows))
  {
    SortSorts(rows);
    SameTimes(rows, order, SortByTime(rows));
  }

  /** From the cut's timestamp on, a row stands before the cut in one arrangement just where it does in the other. */
  lemma SameAtCut(rows: seq<Saved>, a: seq<Saved>, b: seq<Saved>, cut: nat, x: Saved, i: nat)
    requires Arranges(a, rows) && Arranges(b, rows) && CleanCut(rows, cut) && i < cut < |a| == |b|
    requires Times(a) == Times(b) == Times(SortByTime(rows))
    requires TimeOf(x) >= Times(a)[cut] && a[i] == x
    ensures b[i] == x
  {
    var times := Times(a);
    SortedAtCut(times, i, cut);
    assert TimeOf(b[i]) == times[i] == TimeOf(x);
    assert x in rows && b[i] in rows by {
      ArrangementMembers(rows, a);
      ArrangementMembers(rows, b);
    }
  }

  lemma CleanCount(rows: seq<Saved>, a: seq<Saved>, b: seq<Saved>, cut: nat, x: Saved)
    requires Arranges(a, rows) && Arranges(b, rows) && CleanCut(rows, cut) && 0 < cut < |a| == |b|
    requires Times(a) == Times(b) == Times(SortByTime(rows))
    ensures multiset(a[..cut])[x] == multiset(b[..cut])[x]
  {
    if TimeOf(x) < Times(a)[cut] {
      AllBeforeCut(a, cut, x);
      AllBeforeCut(b, cut, x);
    } else {
      var fa, fb := a[..cut], b[..cut];
      forall i | 0 <= i < cut ensures fa[i] == x <==> fb[i] == x {
        if a[i] == x {
          SameAtCut(rows, a, b, cut, x, i);
        } else if b[i] == x {
          SameAtCut(rows, b, a, cut, x, i);
        }
      }
      SamePositionsCount(fa, fb, x);
    }
  }

  lemma CleanInside(rows: seq<Saved>, a: seq<Saved>, b: seq<Saved>, cut: nat)
    requires Arranges(a, rows) && Arranges(b, rows) && CleanCut(rows, cut) && 0 < cut < |a| == |b|
    requires Times(a) == Times(b) == Times(SortByTime(rows))
    ensures Permutation(a[..cut], b[..cut])
  {
    var frontA, frontB := a[..cut], b[..cut];
    forall x ensures multiset(frontA)[x] == multiset(frontB)[x] {
      CleanCount(rows, a, b, cut, x);
    }
    EqualCounts(frontA, frontB);
  }

  /** At a clean cut all arrangements show the same rows before it. */
  lemma CleanFront(rows: seq<Saved>, a: seq<Saved>, b: seq<Saved>, cut: nat)
    requires Arranges(a, rows) && Arranges(b, rows) && CleanCut(rows, cut)
    ensures Permutation(Front(a, cut), Front(b, cut))
  {
    ArrangementSize(rows, a);
    ArrangementSize(rows, b);
    if cut >= |a| {
      FrontIsWhole(a, cut);
      FrontIsWhole(b, cut);
    } else if cut > 0 {
      TimesAreSorted(rows, a);
      TimesAreSorted(rows, b);
      CleanInside(rows, a, b, cut);
    } else {
      assert a[..0] == b[..0];
    }
  }

  /** So between clean cuts a page has the same rows in every arrangement. */
  lemma CleanPage(rows: seq<Saved>, a: seq<Saved>, b: seq<Saved>, offset: nat, k: nat)
    requires Arranges(a, rows) && Arranges(b, rows) && CleanCut(rows, offset) && CleanCut(rows, offset + k)
    ensures Permutation(Page(a, offset, k), Page(b, offset, k))
  {
    CleanFront(rows, a, b, offset);
    CleanFront(rows, a, b, offset + k);
    FrontAndPage(a, offset, k);
    FrontAndPage(b, offset, k);
    PermutationRest(Front(a, offset), Page(a, offset, k), Front(b, offset), Page(b, offset, k));
  }

  lemma CleanAt(rows: seq<Saved>, k: nat, i: nat)
    requires CleanPages(rows, k)
    ensures CleanCut(rows, PageStart(i, k)) && CleanCut(rows, PageStart(i, k) + k)
  {
    NextPageStart(i, k);
    assert CleanCut(rows, PageStart(i + 1, k));
  }

  lemma CleanPageIsLike(rows: seq<Saved>, offset: nat, k: nat, page: seq<Saved>, order: seq<Saved>)
    requires PageOf(rows, offset, k, page) && Arranges(order, rows)
    requires CleanCut(rows, offset) && CleanCut(rows, offset + k)
    ensures Permutation(page, Page(order, offset, k))
  {
    CleanPage(rows, OrderBehind(rows, offset, k, page), order, offset, k);
  }

  lemma CleanPagesAreLike(rows: seq<Saved>, k: nat, pages: seq<seq<Saved>>, order: seq<Saved>)
    requires PagesFrom(rows, k, pages) && Arranges(order, rows) && CleanPages(rows, k)
    ensures PagesLike(order, k, pages)
  {
    forall i: nat | i < |pages| ensures Permutation(pages[i], Page(order, PageStart(i, k), k)) {
      CleanAt(rows, k, i);
      CleanPageIsLike(rows, PageStart(i, k), k, pages[i], order);
    }
  }

  lemma LikePagesComplete(rows: seq<Saved>, k: nat, pages: seq<seq<Saved>>, order: seq<Saved>)
    requires Arranges(order, rows) && PagesLike(order, k, pages) && |rows| <= PageStart(|pages|, k)
    ensures Permutation(Flatten(pages), rows)
  {
    ArrangementSize(rows, order);
    PagesPermuteWhole(order, k, pages);
  }

  lemma CleanPagesComplete(rows: seq<Saved>, k: nat, pages: seq<seq<Saved>>)
    requires PagesFrom(rows, k, pages) && |rows| <= PageStart(|pages|, k) && CleanPages(rows, k)
    ensures Permutation(Flatten(pages), rows)
  {
    SortSorts(rows);
    CleanPagesAreLike(rows, k, pages, SortByTime(rows));
    LikePagesComplete(rows, k, pages, SortByTime(rows));
  }

  /** An arrangement that shows `x` at `i`, made from one that shows it somewhere. */
  lemma MovedTo(rows: seq<Saved>, order: seq<Saved>, x: Saved, i: nat) returns (p: nat, moved: seq<Saved>)
    requires Arranges(order, rows) && x in rows && i < |order| && TimeOf(order[i]) == TimeOf(x)
    ensures p < |order| && order[p] == x && moved == Swapped(order, p, i) && Arranges(moved, rows) && moved[i] == x
  {
    ArrangementMembers(rows, order);
    p :| 0 <= p < |order| && order[p] == x;
    SwapTied(rows, order, p, i);
    moved := Swapped(order, p, i);
  }

  /** An arrangement that shows two given tied rows next to each other. */
  lemma SideBySide(rows: seq<Saved>, cut: nat, x: Saved, y: Saved) returns (order: seq<Saved>)
    requires x in rows && y in rows && x != y && 0 < cut
    requires var times := Times(SortByTime(rows)); cut < |times| && times[cut - 1] == times[cut] == TimeOf(x) == TimeOf(y)
    ensures Arranges(order, rows) && cut < |order| && order[cut - 1] == x && order[cut] == y
  {
    SortSorts(rows);
    var p, first := MovedTo(rows, SortByTime(rows), x, cut - 1);
    TimesAreSorted(rows, first);
    assert Times(first)[cut] == TimeOf(first[cut]);
    p, order := MovedTo(rows, first, y, cut);
  }

  /** At an unclean cut some arrangement shows two different tied rows. */
  lemma TieAtCut(rows: seq<Saved>, cut: nat) returns (order: seq<Saved>)
    requires !CleanCut(rows, cut)
    ensures Arranges(order, rows) && 0 < cut < |order|
    ensures order[cut - 1] != order[cut] && TimeOf(order[cut - 1]) == TimeOf(order[cut])
  {
    var times := Times(SortByTime(rows));
    var x, y :| x in rows && y in rows && TimeOf(x) == TimeOf(y) == times[cut] && x != y;
    order := SideBySide(rows, cut, x, y);
  }

  /** Pages before the m-th from one sequence, the others from another. */
  lemma MixedPages(a: seq<Saved>, b: seq<Saved>, k: nat, n: nat, m: nat)
    requires m <= n && PageStart(m, k) <= |a| == |b| <= PageStart(n, k)
    ensures Flatten(CutInto(a, k, n)[..m] + CutInto(b, k, n)[m..]) == a[..PageStart(m, k)] + b[PageStart(m, k)..]
  {
    var front, same, back := CutInto(a, k, n)[..m], CutInto(b, k, n)[..m], CutInto(b, k, n)[m..];
    assert CutInto(b, k, n) == same + back;
    FlattenConcat(front, back);
    FlattenConcat(same, back);
    PagesAreFront(a, k, front);
    PagesAreFront(b, k, same);
    PagesAreWhole(b, k, CutInto(b, k, n));
  }

  lemma TwoOrdersPaged(rows: seq<Saved>, k: nat, n: nat, m: nat, a: seq<Saved>, b: seq<Saved>) returns (pages: seq<seq<Saved>>)
    requires Arranges(a, rows) && Arranges(b, rows) && m <= n && PageStart(m, k) <= |rows| <= PageStart(n, k)
    ensures |pages| == n && PagesFrom(rows, k, pages)
    ensures PageStart(m, k) <= |a| == |b| && Flatten(pages) == a[..PageStart(m, k)] + b[PageStart(m, k)..]
  {
    ArrangementSize(rows, a);
    ArrangementSize(rows, b);
    ArrangementPages(rows, k, n, a);
    ArrangementPages(rows, k, n, b);
    pages := CutInto(a, k, n)[..m] + CutInto(b, k, n)[m..];
    MixedPages(a, b, k, n, m);
  }

  /** Around an unclean cut the pages can show one row once too often, and another not at all. */
  lemma UncleanPages(rows: seq<Saved>, k: nat, n: nat, m: nat) returns (pages: seq<seq<Saved>>)
    requires |rows| <= PageStart(n, k) && !CleanCut(rows, PageStart(m, k))
    ensures |pages| == n && PagesFrom(rows, k, pages) && !Permutation(Flatten(pages), rows)
  {
    var cut := PageStart(m, k);
    var a := TieAtCut(rows, cut);
    ArrangementSize(rows, a);
    SwapTied(rows, a, cut - 1, cut);
    var b := Swapped(a, cut - 1, cut);
    if m >= n {
      PageStartsGrow(m, n, k);
    }
    pages := TwoOrdersPaged(rows, k, n, m, a, b);
    SwapAcrossCut(a, cut);
  }
}
