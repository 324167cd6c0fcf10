/** Mapping, filtering, permuting, sorting and slicing sequences. */
module Permutations {

  function Map<T, U>(s: seq<T>, f: T -> U): (r: seq<U>)
    ensures |r| == |s| && forall i :: 0 <= i < |s| ==> r[i] == f(s[i])
  {
    if s == [] then [] else [f(s[0])] + Map(s[1..], f)
  }

  lemma MapConcat<T, U>(a: seq<T>, b: seq<T>, f: T -> U)
    ensures Map(a + b, f) == Map(a, f) + Map(b, f)
  {
  }

  function Filter<T(!new)>(s: seq<T>, keep: T -> bool): (r: seq<T>)
    ensures forall x :: x in r <==> x in s && keep(x)
    ensures |r| <= |s|
  {
    if s == [] then [] else (if keep(s[0]) then [s[0]] else []) + Filter(s[1..], keep)
  }

  lemma {:induction false} FilterConcat<T(!new)>(a: seq<T>, b: seq<T>, keep: T -> bool)
    ensures Filter(a + b, keep) == Filter(a, keep) + Filter(b, keep)
  {
    if a == [] {
      assert a + b == b;
    } else {
      assert (a + b)[1..] == a[1..] + b;
      FilterConcat(a[1..], b, keep);
    }
  }

  lemma {:induction false} FilterCount<T(!new)>(s: seq<T>, keep: T -> bool, x: T)
    ensures multiset(Filter(s, keep))[x] == if keep(x) then multiset(s)[x] else 0
  {
    if s != [] {
      FilterCount(s[1..], keep, x);
      assert s == [s[0]] + s[1..];
    }
  }

  /** When every element that passes one filter passes exactly one of two others, those share out its result. */
  lemma FilterSplits<T(!new)>(s: seq<T>, keep: T -> bool, a: T -> bool, b: T -> bool)
    requires forall x :: keep(x) == (a(x) || b(x)) && !(a(x) && b(x))
    ensures multiset(Filter(s, keep)) == multiset(Filter(s, a)) + multiset(Filter(s, b))
  {
    forall x ensures multiset(Filter(s, keep))[x] == multiset(Filter(s, a))[x] + multiset(Filter(s, b))[x] {
      FilterCount(s, keep, x);
      FilterCount(s, a, x);
      FilterCount(s, b, x);
    }
  }

  ghost predicate NoDuplicates<T>(s: seq<T>) {
    forall i, j :: 0 <= i < j < |s| ==> s[i] != s[j]
  }

  predicate Permutation<T(==)>(a: seq<T>, b: seq<T>) {
    multiset(a) == multiset(b)
  }

  lemma PermutationLength<T>(a: seq<T>, b: seq<T>)
    requires Permutation(a, b)
    ensures |a| == |b|
    ensures forall x :: x in a <==> x in b
  {
    assert |multiset(a)| == |a| && |multiset(b)| == |b|;
    assert forall x :: x in a <==> x in multiset(a);
    assert forall x :: x in b <==> x in multiset(b);
  }

  lemma EqualCounts<T>(a: seq<T>, b: seq<T>)
    requires forall x :: multiset(a)[x] == multiset(b)[x]
    ensures Permutation(a, b)
  {
  }

  /** Removing the first element of one sequence and a matching one of the other keeps a permutation. */
  lemma RemoveMatching<T>(a: seq<T>, b: seq<T>, j: nat)
    requires Permutation(a, b) && a != [] && j < |b| && b[j] == a[0]
    ensures Permutation(a[1..], b[..j] + b[j + 1..])
  {
    assert a == [a[0]] + a[1..];
    assert b == b[..j] + [b[j]] + b[j + 1..];
    assert multiset(b) == multiset(b[..j]) + multiset{b[j]} + multiset(b[j + 1..]);
    assert multiset(a[1..]) == multiset(a) - multiset{a[0]};
  }

  lemma {:induction false} CountDistinct<T>(s: seq<T>, x: T)
    requires NoDuplicates(s)
    ensures multiset(s)[x] == if x in s then 1 else 0
  {
    if s != [] {
      CountDistinct(s[1..], x);
      assert s == [s[0]] + s[1..];
    }
  }

  lemma DistinctWithSameElements<T>(a: seq<T>, b: seq<T>)
    requires NoDuplicates(a) && NoDuplicates(b) && forall x :: x in a <==> x in b
    ensures Permutation(a, b)
  {
    forall x ensures multiset(a)[x] == multiset(b)[x] {
      CountDistinct(a, x);
      CountDistinct(b, x);
    }
  }

  lemma TakeOutMiddle<U>(front: seq<U>, x: U, back: seq<U>)
    ensures multiset(front + [x] + back) == multiset(front + back) + multiset{x}
  {
    assert multiset(front + [x] + back) == multiset(front) + multiset{x} + multiset(back);
    assert multiset(front + back) == multiset(front) + multiset(back);
  }

  lemma MapSplit<T, U>(front: seq<T>, x: T, back: seq<T>, f: T -> U)
    ensures Map(front + [x] + back, f) == Map(front, f) + [f(x)] + Map(back, f)
    ensures Map(front + back, f) == Map(front, f) + Map(back, f)
  {
    MapConcat(front, back, f);
    MapConcat(front, [x], f);
    MapConcat(front + [x], back, f);
  }

  lemma MapCons<T, U>(s: seq<T>, f: T -> U)
    requires s != []
    ensures multiset(Map(s, f)) == multiset(Map(s[1..], f)) + multiset{f(s[0])}
  {
    assert Map(s, f) == [f(s[0])] + Map(s[1..], f);
  }

  lemma MapMiddle<T, U>(front: seq<T>, x: T, back: seq<T>, f: T -> U)
    ensures multiset(Map(front + [x] + back, f)) == multiset(Map(front + back, f)) + multiset{f(x)}
  {
    MapSplit(front, x, back, f);
    TakeOutMiddle(Map(front, f), f(x), Map(back, f));
  }

  lemma {:induction false} MapPermutation<T, U>(a: seq<T>, b: seq<T>, f: T -> U)
    requires Permutation(a, b)
    ensures Permutation(Map(a, f), Map(b, f))
  {
    PermutationLength(a, b);
    if a != [] {
      assert a[0] in b;
      var j :| 0 <= j < |b| && b[j] == a[0];
      var front, back := b[..j], b[j + 1..];
      RemoveMatching(a, b, j);
      MapPermutation(a[1..], front + back, f);
      MapMiddle(front, a[0], back, f);
      assert b == front + [a[0]] + back;
      MapCons(a, f);
    }
  }

  ghost predicate Sorted(s: seq<int>) {
    forall i, j :: 0 <= i < j < |s| ==> s[i] <= s[j]
  }

  lemma SortedFirst(a: seq<int>, b: seq<int>)
    requires Sorted(a) && Sorted(b) && Permutation(a, b) && a != []
    ensures b != [] && a[0] == b[0]
  {
    PermutationLength(a, b);
    assert a[0] in b && b[0] in a;
  }

  lemma SortedTail(a: seq<int>)
    requires Sorted(a) && a != []
    ensures Sorted(a[1..])
  {
  }

  lemma RemoveFirst<T>(a: seq<T>, b: seq<T>)
    requires Permutation(a, b) && a != [] && b != [] && a[0] == b[0]
    ensures Permutation(a[1..], b[1..])
  {
    RemoveMatching(a, b, 0);
    assert b[..0] + b[1..] == b[1..];
  }

  /** Sorting leaves no choice when elements are plain numbers. */
  lemma {:induction false} SortedIsUnique(a: seq<int>, b: seq<int>)
    requires Sorted(a) && Sorted(b) && Permutation(a, b)
    ensures a == b
  {
    if a == [] {
      PermutationLength(a, b);
    } else {
      SortedFirst(a, b);
      RemoveFirst(a, b);
      SortedTail(a);
      SortedTail(b);
      SortedIsUnique(a[1..], b[1..]);
      assert a == [a[0]] + a[1..];
      assert b == [b[0]] + b[1..];
    }
  }

  /** OFFSET then LIMIT. */
  function Page<T>(s: seq<T>, offset: nat, limit: nat): seq<T> {
    var rest := if offset <= |s| then s[offset..] else [];
    if limit <= |rest| then rest[..limit] else rest
  }

  /** Where page number `i` of `k` rows starts. */
  function PageStart(i: nat, k: nat): nat {
    i * k
  }

  lemma NextPageStart(i: nat, k: nat)
    ensures PageStart(i + 1, k) == PageStart(i, k) + k
  {
  }

  lemma PageWhole<T>(s: seq<T>, limit: nat)
    requires |s| <= limit
    ensures Page(s, 0, limit) == s
  {
  }

  function Flatten<T>(parts: seq<seq<T>>): seq<T> {
    if parts == [] then [] else Flatten(parts[..|parts| - 1]) + parts[|parts| - 1]
  }

  // ---------------------------------------------------------------- filters and maps together

  function Composed<T(!new), U>(f: T -> U, keep: U -> bool): T -> bool {
    (x: T) => keep(f(x))
  }

  /** Filtering the images is mapping the filtered originals. */
  lemma {:induction false} FilterOfMap<T(!new), U(!new)>(s: seq<T>, f: T -> U, keep: U -> bool)
    ensures Filter(Map(s, f), keep) == Map(Filter(s, Composed(f, keep)), f)
  {
    if s != [] {
      FilterOfMap(s[1..], f, keep);
      var kept := if keep(f(s[0])) then [s[0]] else [];
      MapConcat(kept, Filter(s[1..], Composed(f, keep)), f);
      assert Map(s, f)[1..] == Map(s[1..], f);
      assert Map(kept, f) == if keep(f(s[0])) then [f(s[0])] else [];
    }
  }

  lemma {:induction false} FilterDistinct<T(!new)>(s: seq<T>, keep: T -> bool)
    requires NoDuplicates(s)
    ensures NoDuplicates(Filter(s, keep))
  {
    if s != [] {
      FilterDistinct(s[1..], keep);
      assert s[0] !in s[1..];
      assert s[0] !in Filter(s[1..], keep);
    }
  }

  /** A duplicate-free sequence has as many elements as the set of them. */
  lemma {:induction false} DistinctSize<T>(s: seq<T>, elements: set<T>)
    requires NoDuplicates(s) && forall x :: x in elements <==> x in s
    ensures |elements| == |s|
  {
    if s == [] {
      assert elements == {};
    } else {
      assert s[0] in elements && s[0] !in s[1..];
      assert forall x :: x in s <==> x == s[0] || x in s[1..];
      DistinctSize(s[1..], elements - {s[0]});
    }
  }

  lemma {:induction false} MapFlatten<T, U>(parts: seq<seq<T>>, mapped: seq<seq<U>>, f: T -> U)
    requires |mapped| == |parts| && forall i :: 0 <= i < |parts| ==> mapped[i] == Map(parts[i], f)
    ensures Map(Flatten(parts), f) == Flatten(mapped)
  {
    if parts != [] {
      var n := |parts| - 1;
      MapFlatten(parts[..n], mapped[..n], f);
      MapConcat(Flatten(parts[..n]), parts[n], f);
    }
  }

  lemma MapPage<T, U>(s: seq<T>, f: T -> U, offset: nat, limit: nat)
    ensures Map(Page(s, offset, limit), f) == Page(Map(s, f), offset, limit)
  {
    var page, mapped := Page(s, offset, limit), Page(Map(s, f), offset, limit);
    assert |page| == |mapped|;
    forall i | 0 <= i < |page| ensures mapped[i] == f(page[i]) {
      assert page[i] == s[offset + i] && mapped[i] == Map(s, f)[offset + i];
    }
    assert Map(page, f) == mapped;
  }

  /** Consecutive pages of one sequence. */
  ghost predicate PagesOf<T>(s: seq<T>, k: nat, parts: seq<seq<T>>) {
    forall i: nat :: i < |parts| ==> parts[i] == Page(s, PageStart(i, k), k)
  }

  function Front<T>(s: seq<T>, n: nat): seq<T> {
    if n <= |s| then s[..n] else s
  }

  lemma FrontAndPage<T>(s: seq<T>, n: nat, k: nat)
    ensures Front(s, n) + Page(s, n, k) == Front(s, n + k)
  {
  }

  lemma {:induction false} PagesAreFront<T>(s: seq<T>, k: nat, parts: seq<seq<T>>)
    requires PagesOf(s, k, parts)
    ensures Flatten(parts) == Front(s, PageStart(|parts|, k))
  {
    if parts == [] {
      assert PageStart(0, k) == 0;
    } else {
      var n := |parts| - 1;
      NextPageStart(n, k);
      PagesAreFront(s, k, parts[..n]);
      assert parts[n] == Page(s, PageStart(n, k), k);
      FrontAndPage(s, PageStart(n, k), k);
    }
  }

  /** Enough consecutive pages, put one after the other, are the whole sequence. */
  lemma PagesAreWhole<T>(s: seq<T>, k: nat, parts: seq<seq<T>>)
    requires PagesOf(s, k, parts) && |s| <= PageStart(|parts|, k)
    ensures Flatten(parts) == s
  {
    PagesAreFront(s, k, parts);
  }

  /** The consecutive pages of one sequence. */
  function CutInto<T>(s: seq<T>, k: nat, n: nat): (parts: seq<seq<T>>)
    ensures |parts| == n && PagesOf(s, k, parts)
  {
    seq(n, i requires 0 <= i < n => Page(s, PageStart(i, k), k))
  }

  lemma FlattenOneMore<T>(parts: seq<seq<T>>, front: seq<seq<T>>, last: seq<T>)
    requires parts == front + [last]
    ensures Flatten(parts) == Flatten(front) + last
  {
    assert parts[..|parts| - 1] == front;
  }

  lemma {:induction false} FlattenConcat<T>(a: seq<seq<T>>, b: seq<seq<T>>)
    ensures Flatten(a + b) == Flatten(a) + Flatten(b)
  {
    if b == [] {
      assert a + b == a;
    } else {
      var front, last := b[..|b| - 1], b[|b| - 1];
      assert b == front + [last];
      assert a + b == (a + front) + [last];
      FlattenOneMore(b, front, last);
      FlattenOneMore(a + b, a + front, last);
      FlattenConcat(a, front);
    }
  }

  /** A page that starts before a later one has the smaller number. */
  lemma PageStartsGrow(i: nat, n: nat, k: nat)
    requires i >= n
    ensures PageStart(i, k) >= PageStart(n, k)
  {
    assert i * k == n * k + (i - n) * k;
  }

  function Swapped<T>(s: seq<T>, i: nat, j: nat): (r: seq<T>)
    requires i < |s| && j < |s|
    ensures |r| == |s| && r[i] == s[j] && r[j] == s[i] && Permutation(r, s)
  {
    s[i := s[j]][j := s[i]]
  }

  /** A front joined to the rest of a sequence with two neighbours swapped across the cut shows one of them twice. */
  lemma SwapAcrossCut<T>(s: seq<T>, cut: nat)
    requires 0 < cut < |s| && s[cut - 1] != s[cut]
    ensures !Permutation(s[..cut] + Swapped(s, cut - 1, cut)[cut..], s)
  {
    assert s[..cut] + Swapped(s, cut - 1, cut)[cut..] == s[cut := s[cut - 1]];
    assert multiset(s[cut := s[cut - 1]])[s[cut]] == multiset(s)[s[cut]] - 1;
  }

  lemma SortedAtCut(s: seq<int>, i: nat, cut: nat)
    requires Sorted(s) && i < cut < |s| && s[i] >= s[cut]
    ensures s[i] == s[cut - 1] == s[cut]
  {
    assert s[i] <= s[cut - 1] <= s[cut];
  }

  /** Two sequences that hold `x` at the same positions hold it equally often. */
  lemma {:induction false} SamePositionsCount<T>(a: seq<T>, b: seq<T>, x: T)
    requires |a| == |b| && forall i :: 0 <= i < |a| ==> (a[i] == x <==> b[i] == x)
    ensures multiset(a)[x] == multiset(b)[x]
  {
    if a != [] {
      SamePositionsCount(a[1..], b[1..], x);
      assert a == [a[0]] + a[1..] && b == [b[0]] + b[1..];
    }
  }

  lemma PermutationConcat<T>(a: seq<T>, b: seq<T>, c: seq<T>, d: seq<T>)
    requires Permutation(a, c) && Permutation(b, d)
    ensures Permutation(a + b, c + d)
  {
  }

  lemma PermutationRest<T>(a: seq<T>, b: seq<T>, c: seq<T>, d: seq<T>)
    requires Permutation(a + b, c + d) && Permutation(a, c)
    ensures Permutation(b, d)
  {
    assert multiset(b) == multiset(a + b) - multiset(a);
    assert multiset(d) == multiset(c + d) - multiset(c);
  }

  /** The pages of a sequence, each up to order. */
  ghost predicate PagesLike<T>(s: seq<T>, k: nat, parts: seq<seq<T>>) {
    forall i: nat :: i < |parts| ==> Permutation(parts[i], Page(s, PageStart(i, k), k))
  }

  lemma FlattenLast<T>(parts: seq<seq<T>>, front: seq<T>, page: seq<T>)
    requires parts != []
    requires Permutation(Flatten(parts[..|parts| - 1]), front) && Permutation(parts[|parts| - 1], page)
    ensures Permutation(Flatten(parts), front + page)
  {
    PermutationConcat(Flatten(parts[..|parts| - 1]), parts[|parts| - 1], front, page);
  }

  lemma OneMorePagePermutes<T>(s: seq<T>, k: nat, parts: seq<seq<T>>, start: nat)
    requires parts != [] && start == PageStart(|parts| - 1, k)
    requires Permutation(Flatten(parts[..|parts| - 1]), Front(s, start))
    requires Permutation(parts[|parts| - 1], Page(s, start, k))
    ensures Permutation(Flatten(parts), Front(s, PageStart(|parts|, k)))
  {
    NextPageStart(|parts| - 1, k);
    FlattenLast(parts, Front(s, start), Page(s, start, k));
    FrontAndPage(s, start, k);
  }

  /** Together they make up the sequence up to order. */
  lemma {:induction false} PagesPermute<T>(s: seq<T>, k: nat, parts: seq<seq<T>>)
    requires PagesLike(s, k, parts)
    ensures Permutation(Flatten(parts), Front(s, PageStart(|parts|, k)))
  {
    if parts == [] {
      assert PageStart(0, k) == 0;
    } else {
      PagesPermute(s, k, parts[..|parts| - 1]);
      OneMorePagePermutes(s, k, parts, PageStart(|parts| - 1, k));
    }
  }

  lemma FrontIsWhole<T>(s: seq<T>, n: nat)
    requires |s| <= n
    ensures Front(s, n) == s
  {
  }

  lemma PagesPermuteWhole<T>(s: seq<T>, k: nat, parts: seq<seq<T>>)
    requires PagesLike(s, k, parts) && |s| <= PageStart(|parts|, k)
    ensures Permutation(Flatten(parts), s)
  {
    FrontIsWhole(s, PageStart(|parts|, k));
    PagesPermute(s, k, parts);
  }

  // ---------------------------------------------------------------- permutations of images

  lemma DistinctPermutation<T>(a: seq<T>, b: seq<T>)
    requires Permutation(a, b) && NoDuplicates(b)
    ensures NoDuplicates(a)
  {
    forall i, j | 0 <= i < j < |a| ensures a[i] != a[j] {
      CountDistinct(b, a[i]);
      assert a == a[..j] + [a[j]] + a[j + 1..];
      assert a[i] in a[..j];
    }
  }

  lemma InsertMatching<T>(a: seq<T>, k: nat, rest: seq<T>)
    requires k < |a| && Permutation(rest, a[..k] + a[k + 1..])
    ensures Permutation([a[k]] + rest, a)
  {
    assert a == a[..k] + [a[k]] + a[k + 1..];
  }

  lemma MapTake<T, U>(a: seq<T>, f: T -> U, k: nat)
    requires k <= |a|
    ensures Map(a[..k], f) == Map(a, f)[..k]
  {
  }

  lemma MapDrop<T, U>(a: seq<T>, f: T -> U, k: nat)
    requires k <= |a|
    ensures Map(a[k..], f) == Map(a, f)[k..]
  {
  }

  lemma MapRemove<T, U>(a: seq<T>, f: T -> U, k: nat)
    requires k < |a|
    ensures Map(a[..k] + a[k + 1..], f) == Map(a, f)[..k] + Map(a, f)[k + 1..]
  {
    MapConcat(a[..k], a[k + 1..], f);
    MapTake(a, f, k);
    MapDrop(a, f, k + 1);
  }

  lemma RemoveImage<T, U>(a: seq<T>, f: T -> U, images: seq<U>, k: nat)
    requires images != [] && Permutation(images, Map(a, f)) && k < |a| && Map(a, f)[k] == images[0]
    ensures Permutation(images[1..], Map(a[..k] + a[k + 1..], f))
  {
    RemoveMatching(images, Map(a, f), k);
    MapRemove(a, f, k);
  }

  lemma FindImage<T, U>(a: seq<T>, f: T -> U, images: seq<U>) returns (k: nat)
    requires images != [] && Permutation(images, Map(a, f))
    ensures k < |a| && f(a[k]) == images[0] && Map(a, f)[k] == images[0]
  {
    PermutationLength(images, Map(a, f));
    assert images[0] in Map(a, f);
    k :| 0 <= k < |a| && Map(a, f)[k] == images[0];
  }

  /** Reordering the images of a sequence is what reordering the sequence does. */
  lemma {:induction false} PermutationLifts<T, U>(a: seq<T>, f: T -> U, images: seq<U>) returns (b: seq<T>)
    requires Permutation(images, Map(a, f))
    ensures Permutation(b, a) && Map(b, f) == images
  {
    if images == [] {
      PermutationLength(images, Map(a, f));
      b := [];
    } else {
      var k := FindImage(a, f, images);
      RemoveImage(a, f, images, k);
      var rest := PermutationLifts(a[..k] + a[k + 1..], f, images[1..]);
      b := [a[k]] + rest;
      InsertMatching(a, k, rest);
      assert Map(b, f) == [f(a[k])] + Map(rest, f);
    }
  }
}
