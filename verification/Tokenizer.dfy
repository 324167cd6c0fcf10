/** The command line's tokenizer: spaces separate arguments, double quotes switch that off and on. */
module Tokenizer {
  import opened Collections

  /** The loop from the first character of `line` on, with the arguments, the current argument and the quote flag so far. */
  function Scan(line: string, args: seq<string>, current: string, inQuotes: bool): seq<string>
    decreases line
  {
    if line == "" then Closed(args, current)
    else if line[0] == '\"' then Scan(line[1..], args, current, !inQuotes)
    else if line[0] == ' ' && !inQuotes then Scan(line[1..], Closed(args, current), "", false)
    else Scan(line[1..], args, current + [line[0]], inQuotes)
  }

  /** An empty current argument is dropped. */
  function Closed(args: seq<string>, current: string): seq<string> {
    if current == "" then args else args + [current]
  }

  function Tokens(line: string): seq<string> {
    Scan(line, [], "", false)
  }

  method Tokenize(line: string) returns (args: seq<string>)
    ensures args == Tokens(line)
  {
    args := [];
    var current := "";
    var inQuotes := false;
    for i := 0 to |line|
      invariant Scan(line[i..], args, current, inQuotes) == Tokens(line)
    {
      var c := line[i];
      assert line[i..][0] == c && line[i..][1..] == line[i + 1..];
      if c == '\"' {
        inQuotes := !inQuotes;
      } else if c == ' ' && !inQuotes {
        if current != "" {
          args := args + [current];
          current := "";
        }
      } else {
        current := current + [c];
      }
    }
    if current != "" {
      args := args + [current];
    }
  }

  // ---------------------------------------------------------------- what a line keeps

  function Joined(args: seq<string>): string {
    if args == [] then "" else args[0] + Joined(args[1..])
  }

  /** The line without its quotes and its unquoted spaces. */
  function Kept(line: string, inQuotes: bool): string {
    if line == "" then ""
    else if line[0] == '\"' then Kept(line[1..], !inQuotes)
    else if line[0] == ' ' && !inQuotes then Kept(line[1..], false)
    else [line[0]] + Kept(line[1..], inQuotes)
  }

  predicate WellFormed(arg: string) {
    arg != "" && '\"' !in arg
  }

  predicate AllWellFormed(args: seq<string>) {
    forall i :: 0 <= i < |args| ==> WellFormed(args[i])
  }

  lemma {:induction false} JoinedAppend(args: seq<string>, last: string)
    ensures Joined(args + [last]) == Joined(args) + last
  {
    if args == [] {
      assert [last][1..] == [];
    } else {
      assert (args + [last])[1..] == args[1..] + [last];
      JoinedAppend(args[1..], last);
    }
  }

  lemma {:induction false} ScanKeeps(line: string, args: seq<string>, current: string, inQuotes: bool)
    requires AllWellFormed(args) && '\"' !in current
    ensures AllWellFormed(Scan(line, args, current, inQuotes))
    ensures Joined(Scan(line, args, current, inQuotes)) == Joined(args) + current + Kept(line, inQuotes)
    decreases line
  {
    JoinedAppend(args, current);
    if line == "" {
    } else if line[0] == '\"' {
      ScanKeeps(line[1..], args, current, !inQuotes);
    } else if line[0] == ' ' && !inQuotes {
      ScanKeeps(line[1..], Closed(args, current), "", false);
    } else {
      ScanKeeps(line[1..], args, current + [line[0]], inQuotes);
    }
  }

  /** No token is empty or contains a quote, and no other character is lost, added or moved. */
  lemma TokensKeep(line: string)
    ensures AllWellFormed(Tokens(line))
    ensures Joined(Tokens(line)) == Kept(line, false)
  {
    ScanKeeps(line, [], "", false);
    assert Joined([]) == "";
  }

  // ---------------------------------------------------------------- where tokens begin and end

  /** The position is inside quotes: an odd number of them stands before it. */
  predicate Quoted(line: string, i: nat)
    requires i <= |line|
  {
    multiset(line[..i])['\"'] % 2 == 1
  }

  predicate Separates(line: string, i: nat)
    requires i < |line|
  {
    line[i] == ' ' && !Quoted(line, i)
  }

  predicate IsKept(line: string, i: nat)
    requires i < |line|
  {
    line[i] != '\"' && !Separates(line, i)
  }

  /** No unquoted space stands between the two positions. */
  predicate Unbroken(line: string, i: nat, j: nat)
    requires j <= |line|
  {
    forall k: nat :: i < k < j ==> !Separates(line, k)
  }

  /** The kept characters before `i` that belong to token `n`, when `at` says which token each belongs to. */
  function Collect(line: string, at: seq<nat>, n: nat, i: nat): string
    requires i <= |at| <= |line|
  {
    if i == 0 then ""
    else Collect(line, at, n, i - 1) + if IsKept(line, i - 1) && at[i - 1] == n then [line[i - 1]] else ""
  }

  /** Every kept character belongs to a token, every token is made of the characters that belong to it, and two
      characters belong to the same one exactly when no unquoted space stands between them. */
  ghost predicate Breaks(line: string, at: seq<nat>, tokens: seq<string>) {
    && |at| == |line|
    && (forall i: nat :: i < |line| && IsKept(line, i) ==> at[i] < |tokens|)
    && (forall i: nat, j: nat :: i < j < |line| && IsKept(line, i) && IsKept(line, j) ==>
          at[i] <= at[j] && (at[i] == at[j] <==> Unbroken(line, i, j)))
    && (forall n :: 0 <= n < |tokens| ==> tokens[n] != "" && tokens[n] == Collect(line, at, n, |line|))
  }

  /** Where the kept characters before `i` belong: `n` is the argument still growing. */
  ghost predicate Placed(line: string, i: nat, at: seq<nat>, n: nat)
    requires |at| == i <= |line|
  {
    && (forall k: nat :: k < i && IsKept(line, k) ==> at[k] <= n && (at[k] == n <==> Unbroken(line, k, i)))
    && (forall j: nat, k: nat :: j < k < i && IsKept(line, j) && IsKept(line, k) ==>
          at[j] <= at[k] && (at[j] == at[k] <==> Unbroken(line, j, k)))
  }

  ghost predicate Gathered(line: string, i: nat, at: seq<nat>, args: seq<string>, current: string)
    requires |at| == i <= |line|
  {
    && (forall n: nat :: n < |args| ==> args[n] != "" && args[n] == Collect(line, at, n, i))
    && current == Collect(line, at, |args|, i)
  }

  /** The same for the characters before `i`, with the current argument still growing. */
  ghost predicate BreaksSoFar(line: string, i: nat, at: seq<nat>, args: seq<string>, current: string) {
    |at| == i <= |line| && Placed(line, i, at, |args|) && Gathered(line, i, at, args, current)
  }

  lemma QuotedNext(line: string, i: nat)
    requires i < |line|
    ensures Quoted(line, i + 1) <==> if line[i] == '\"' then !Quoted(line, i) else Quoted(line, i)
  {
    assert line[..i + 1] == line[..i] + [line[i]];
  }

  lemma UnbrokenNext(line: string, k: nat, i: nat)
    requires k < i < |line|
    ensures Unbroken(line, k, i + 1) <==> Unbroken(line, k, i) && !Separates(line, i)
  {
  }

  lemma {:induction false} CollectPrefix(line: string, at: seq<nat>, last: nat, n: nat, i: nat)
    requires i <= |at| < |line|
    ensures Collect(line, at + [last], n, i) == Collect(line, at, n, i)
  {
    if i > 0 {
      CollectPrefix(line, at, last, n, i - 1);
    }
  }

  lemma CollectNext(line: string, at: seq<nat>, last: nat, n: nat)
    requires |at| < |line|
    ensures Collect(line, at + [last], n, |at| + 1)
         == Collect(line, at, n, |at|) + if IsKept(line, |at|) && last == n then [line[|at|]] else ""
  {
    CollectPrefix(line, at, last, n, |at|);
  }

  /** Nothing is collected exactly when no character belongs to the token. */
  lemma {:induction false} CollectEmpty(line: string, at: seq<nat>, n: nat, i: nat)
    requires i <= |at| <= |line|
    ensures Collect(line, at, n, i) == "" <==> forall k: nat :: k < i && IsKept(line, k) ==> at[k] != n
  {
    if i > 0 {
      CollectEmpty(line, at, n, i - 1);
    }
  }

  /** A character that does not separate. */
  lemma BreaksAfterOther(line: string, i: nat, at: seq<nat>, args: seq<string>, current: string)
    requires i < |line| && BreaksSoFar(line, i, at, args, current) && !Separates(line, i)
    ensures BreaksSoFar(line, i + 1, at + [|args|], args, if line[i] == '\"' then current else current + [line[i]])
  {
    var at' := at + [|args|];
    forall k: nat | k < i ensures Unbroken(line, k, i + 1) <==> Unbroken(line, k, i) {
      UnbrokenNext(line, k, i);
    }
    forall n | 0 <= n <= |args|
      ensures Collect(line, at', n, i + 1)
           == Collect(line, at, n, i) + if IsKept(line, i) && n == |args| then [line[i]] else ""
    {
      CollectNext(line, at, |args|, n);
    }
  }

  lemma SpaceBreaks(line: string, i: nat, next: nat)
    requires i < |line| && next == i + 1 && Separates(line, i)
    ensures forall k: nat :: k < i ==> !Unbroken(line, k, next)
  {
  }

  lemma CollectedBefore(line: string, i: nat, at: seq<nat>, args: seq<string>, current: string, n: nat)
    requires i < |line| && BreaksSoFar(line, i, at, args, current) && Separates(line, i)
    ensures Collect(line, at + [|args|], n, i + 1)
         == if n < |args| then args[n] else if n == |args| then current else ""
  {
    CollectNext(line, at, |args|, n);
    CollectEmpty(line, at, n, i);
  }

  lemma PlacedAfterSpace(line: string, i: nat, at: seq<nat>, n: nat, n': nat)
    requires i < |line| && |at| == i && Placed(line, i, at, n) && Separates(line, i)
    requires n' == n + 1 || (n' == n && forall k: nat :: k < i && IsKept(line, k) ==> at[k] != n)
    ensures Placed(line, i + 1, at + [n], n')
  {
    var at', next := at + [n], i + 1;
    SpaceBreaks(line, i, next);
    forall k: nat | k < next && IsKept(line, k) ensures at'[k] <= n' && (at'[k] == n' <==> Unbroken(line, k, next)) {
      assert k < i && at'[k] == at[k];
    }
  }

  lemma GatheredAfterSpace(line: string, i: nat, at: seq<nat>, args: seq<string>, current: string)
    requires i < |line| && BreaksSoFar(line, i, at, args, current) && Separates(line, i)
    ensures Gathered(line, i + 1, at + [|args|], Closed(args, current), "")
  {
    var at', args' := at + [|args|], Closed(args, current);
    forall n: nat | n < |args'| ensures args'[n] != "" && args'[n] == Collect(line, at', n, i + 1) {
      CollectedBefore(line, i, at, args, current, n);
    }
    CollectedBefore(line, i, at, args, current, |args'|);
  }

  /** A separator: it closes the current argument, if there is one. */
  lemma BreaksAfterSpace(line: string, i: nat, at: seq<nat>, args: seq<string>, current: string)
    requires i < |line| && BreaksSoFar(line, i, at, args, current) && Separates(line, i)
    ensures BreaksSoFar(line, i + 1, at + [|args|], Closed(args, current), "")
  {
    CollectEmpty(line, at, |args|, i);
    PlacedAfterSpace(line, i, at, |args|, |Closed(args, current)|);
    GatheredAfterSpace(line, i, at, args, current);
  }

  lemma BreaksAtEnd(line: string, at: seq<nat>, args: seq<string>, current: string)
    requires BreaksSoFar(line, |line|, at, args, current)
    ensures Breaks(line, at, Closed(args, current))
  {
    CollectEmpty(line, at, |args|, |line|);
  }

  lemma {:induction false} ScanBreaks(line: string, i: nat, at: seq<nat>, args: seq<string>, current: string, inQuotes: bool)
      returns (all: seq<nat>)
    requires BreaksSoFar(line, i, at, args, current) && inQuotes == Quoted(line, i)
    ensures Breaks(line, all, Scan(line[i..], args, current, inQuotes))
    decreases |line| - i
  {
    if i == |line| {
      BreaksAtEnd(line, at, args, current);
      all := at;
    } else {
      QuotedNext(line, i);
      assert line[i..][0] == line[i] && line[i..][1..] == line[i + 1..];
      if Separates(line, i) {
        BreaksAfterSpace(line, i, at, args, current);
        all := ScanBreaks(line, i + 1, at + [|args|], Closed(args, current), "", false);
      } else {
        BreaksAfterOther(line, i, at, args, current);
        if line[i] == '\"' {
          all := ScanBreaks(line, i + 1, at + [|args|], args, current, !inQuotes);
        } else {
          all := ScanBreaks(line, i + 1, at + [|args|], args, current + [line[i]], inQuotes);
        }
      }
    }
  }

  /** For every line: the tokens are non-empty, each is made of consecutive kept characters, and two kept characters
      are in the same token if and only if no unquoted space stands between them. */
  lemma TokensBreakAtSpaces(line: string)
    ensures exists at :: Breaks(line, at, Tokens(line))
  {
    assert line[..0] == "" && line[0..] == line;
    var at := ScanBreaks(line, 0, [], [], "", false);
    assert Breaks(line, at, Tokens(line));
  }

  // ---------------------------------------------------------------- writing arguments back

  /** An argument as typed: in quotes, or bare when it contains no space. */
  datatype Typed = Typed(arg: string, quoted: bool) {
    predicate Ok() {
      WellFormed(arg) && (!quoted ==> ' ' !in arg)
    }

    function Text(): string {
      if quoted then "\"" + arg + "\"" else arg
    }
  }

  predicate AllOk(typed: seq<Typed>) {
    forall i :: 0 <= i < |typed| ==> typed[i].Ok()
  }

  function Line(typed: seq<Typed>): string {
    if typed == [] then "" else if |typed| == 1 then typed[0].Text() else typed[0].Text() + " " + Line(typed[1..])
  }

  function ArgsOf(typed: seq<Typed>): (args: seq<string>)
    ensures |args| == |typed| && forall i :: 0 <= i < |typed| ==> args[i] == typed[i].arg
  {
    if typed == [] then [] else [typed[0].arg] + ArgsOf(typed[1..])
  }

  /** Characters that are neither a quote nor a live separator go straight into the current argument. */
  lemma {:induction false} ScanPlain(plain: string, rest: string, args: seq<string>, current: string, inQuotes: bool)
    requires '\"' !in plain && (!inQuotes ==> ' ' !in plain)
    ensures Scan(plain + rest, args, current, inQuotes) == Scan(rest, args, current + plain, inQuotes)
    decreases plain
  {
    if plain == "" {
      assert plain + rest == rest && current + plain == current;
    } else {
      assert (plain + rest)[0] == plain[0] && (plain + rest)[1..] == plain[1..] + rest;
      ScanPlain(plain[1..], rest, args, current + [plain[0]], inQuotes);
      assert current + [plain[0]] + plain[1..] == current + plain;
    }
  }

  lemma ScanTyped(t: Typed, rest: string, args: seq<string>)
    requires t.Ok()
    ensures Scan(t.Text() + rest, args, "", false) == Scan(rest, args, t.arg, false)
  {
    assert "" + t.arg == t.arg;
    if t.quoted {
      var inner := t.arg + ("\"" + rest);
      var text := t.Text() + rest;
      assert text[0] == '\"' && text[1..] == inner;
      ScanPlain(t.arg, "\"" + rest, args, "", true);
      assert ("\"" + rest)[1..] == rest;
    } else {
      ScanPlain(t.arg, rest, args, "", false);
    }
  }

  lemma ScanTypedAndSpace(t: Typed, rest: string, args: seq<string>)
    requires t.Ok()
    ensures Scan(t.Text() + " " + rest, args, "", false) == Scan(rest, args + [t.arg], "", false)
  {
    var spaced := " " + rest;
    assert t.Text() + " " + rest == t.Text() + spaced;
    ScanTyped(t, spaced, args);
    assert spaced[0] == ' ' && spaced[1..] == rest;
  }

  lemma ScanTypedAtEnd(t: Typed, args: seq<string>)
    requires t.Ok()
    ensures Scan(t.Text(), args, "", false) == args + [t.arg]
  {
    assert t.Text() + "" == t.Text();
    ScanTyped(t, "", args);
  }

  lemma {:induction false} ScanLine(typed: seq<Typed>, args: seq<string>)
    requires AllOk(typed)
    ensures Scan(Line(typed), args, "", false) == args + ArgsOf(typed)
    decreases typed
  {
    if |typed| == 1 {
      ScanTypedAtEnd(typed[0], args);
      assert ArgsOf(typed) == [typed[0].arg];
    } else if typed != [] {
      assert Line(typed) == typed[0].Text() + " " + Line(typed[1..]);
      ScanTypedAndSpace(typed[0], Line(typed[1..]), args);
      ScanLine(typed[1..], args + [typed[0].arg]);
      assert ArgsOf(typed) == [typed[0].arg] + ArgsOf(typed[1..]);
    }
  }

  /** Typing arguments separated by spaces, quoted wherever that is needed, tokenizes back to them. */
  lemma LineTokenizesBack(typed: seq<Typed>)
    requires AllOk(typed)
    ensures Tokens(Line(typed)) == ArgsOf(typed)
  {
    ScanLine(typed, []);
    assert [] + ArgsOf(typed) == ArgsOf(typed);
  }

  function AllQuoted(args: seq<string>): seq<Typed> {
    seq(|args|, i requires 0 <= i < |args| => Typed(args[i], true))
  }

  /** Exactly the lists of non-empty, quote-free arguments can be typed at all. */
  lemma TypableIffWellFormed(args: seq<string>)
    ensures (exists line :: Tokens(line) == args) <==> AllWellFormed(args)
  {
    if AllWellFormed(args) {
      LineTokenizesBack(AllQuoted(args));
      assert ArgsOf(AllQuoted(args)) == args;
    }
    forall line ensures AllWellFormed(Tokens(line)) {
      TokensKeep(line);
    }
  }
}
