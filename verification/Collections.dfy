/** Options, and sums over a sequence with how they react to one update. */
module Collections {

  datatype Option<+T> = None | Some(value: T)

  /** The sum of `f` over `s`. */
  function Total<T>(s: seq<T>, f: T -> nat): nat {
    if s == [] then 0 else f(s[0]) + Total(s[1..], f)
  }

  lemma {:induction false} TotalUpdate<T>(s: seq<T>, i: nat, x: T, f: T -> nat)
    requires i < |s|
    ensures Total(s[i := x], f) + f(s[i]) == Total(s, f) + f(x)
  {
    if i == 0 {
      assert s[i := x][1..] == s[1..];
    } else {
      TotalUpdate(s[1..], i - 1, x, f);
      assert s[i := x][1..] == s[1..][i - 1 := x];
    }
  }

  lemma {:induction false} TotalAtLeast<T>(s: seq<T>, i: nat, f: T -> nat)
    requires i < |s|
    ensures f(s[i]) <= Total(s, f)
  {
    if i > 0 {
      TotalAtLeast(s[1..], i - 1, f);
    }
  }

  /** A sum is zero exactly when every term is. */
  lemma {:induction false} TotalZero<T>(s: seq<T>, f: T -> nat)
    ensures Total(s, f) == 0 <==> forall i :: 0 <= i < |s| ==> f(s[i]) == 0
  {
    if s != [] {
      TotalZero(s[1..], f);
      if Total(s, f) == 0 {
        forall i | 0 <= i < |s| ensures f(s[i]) == 0 {
          assert i > 0 ==> s[i] == s[1..][i - 1];
        }
      } else if f(s[0]) == 0 {
        var i :| 0 <= i < |s[1..]| && f(s[1..][i]) != 0;
        assert s[i + 1] == s[1..][i];
      }
    }
  }

  /** Two different positions contribute separately. */
  lemma {:induction false} TotalTwo<T>(s: seq<T>, i: nat, j: nat, f: T -> nat)
    requires i < j < |s|
    ensures f(s[i]) + f(s[j]) <= Total(s, f)
  {
    if i == 0 {
      TotalAtLeast(s[1..], j - 1, f);
    } else {
      TotalTwo(s[1..], i - 1, j - 1, f);
    }
  }

  /** Term by term at most as large, so at most as large in all. */
  lemma {:induction false} TotalAtMost<T>(a: seq<T>, b: seq<T>, f: T -> nat, g: T -> nat)
    requires |a| == |b| && forall i :: 0 <= i < |a| ==> f(a[i]) <= g(b[i])
    ensures Total(a, f) <= Total(b, g)
  {
    if a != [] {
      TotalAtMost(a[1..], b[1..], f, g);
    }
  }

  lemma {:induction false} TotalAppend<T>(s: seq<T>, x: T, f: T -> nat)
    ensures Total(s + [x], f) == Total(s, f) + f(x)
  {
    if s == [] {
      assert [x][1..] == [];
    } else {
      TotalAppend(s[1..], x, f);
      assert (s + [x])[1..] == s[1..] + [x];
    }
  }
}
