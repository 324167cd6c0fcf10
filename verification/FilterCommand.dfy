/** The `Get` command's options: parsing them, and writing a filter as a command line. */
module FilterCommand {
  import opened Collections
  import opened Permutations
  import opened Events
  import opened Decimal
  import opened Tokenizer
  import opened Wire

  const INT_MAX := 0x7fff_ffff
  const INT_MIN := -0x8000_0000
  const SIZE_MODULUS := 0x1_0000_0000_0000_0000

  // ---------------------------------------------------------------- std::stoi

  predicate IsSpace(c: char) {
    c == ' ' || '\t' <= c <= '\r'
  }

  function SkipSpaces(s: string): string {
    if s != "" && IsSpace(s[0]) then SkipSpaces(s[1..]) else s
  }

  function LeadingDigits(s: string): (r: string)
    ensures AllDigits(r) && r <= s
  {
    if s != "" && IsDigit(s[0]) then [s[0]] + LeadingDigits(s[1..]) else ""
  }

  /** An optional sign, then as many digits as there are; the rest is ignored. */
  function SignedNumber(text: string): (r: Option<int>)
    ensures r.Some? ==> text != "" && INT_MIN <= r.value <= INT_MAX
  {
    var signed := text != "" && (text[0] == '-' || text[0] == '+');
    var digits := LeadingDigits(if signed then text[1..] else text);
    if digits == "" then None
    else
      var value: int := if signed && text[0] == '-' then 0 - ValueOf(digits) else ValueOf(digits);
      if INT_MIN <= value <= INT_MAX then Some(value) else None
  }

  /** Leading white space is skipped.  None is the exception for no digits or for a value that does not fit an int. */
  function Stoi(s: string): (r: Option<int>)
    ensures r.Some? ==> s != "" && INT_MIN <= r.value <= INT_MAX
  {
    SignedNumber(SkipSpaces(s))
  }

  /** Storing an int in a size_t. */
  function ToSize(n: int): nat
    requires -SIZE_MODULUS <= n < SIZE_MODULUS
  {
    if n < 0 then SIZE_MODULUS + n else n
  }

  /** An integer as to_string prints it. */
  function IntText(v: int): string {
    if v < 0 then "-" + ToDec(-v) else ToDec(v)
  }

  lemma {:induction false} SpacesSkipped(spaces: string, text: string)
    requires forall i :: 0 <= i < |spaces| ==> IsSpace(spaces[i])
    requires text == "" || !IsSpace(text[0])
    ensures SkipSpaces(spaces + text) == text
  {
    if spaces == "" {
      assert spaces + text == text;
    } else {
      assert (spaces + text)[1..] == spaces[1..] + text;
      SpacesSkipped(spaces[1..], text);
    }
  }

  lemma {:induction false} DigitsTaken(digits: string, rest: string)
    requires AllDigits(digits) && (rest == "" || !IsDigit(rest[0]))
    ensures LeadingDigits(digits + rest) == digits
  {
    if digits == "" {
      assert digits + rest == rest;
    } else {
      assert (digits + rest)[1..] == digits[1..] + rest;
      DigitsTaken(digits[1..], rest);
    }
  }

  function InRange(value: int): Option<int> {
    if -2147483648 <= value <= 2147483647 then Some(value) else None
  }

  lemma UnsignedRead(number: string, digits: string)
    requires LeadingDigits(number) == digits && (number == "" || (number[0] != '+' && number[0] != '-'))
    ensures SignedNumber(number) == if digits == "" then None else InRange(ValueOf(digits))
  {
  }

  lemma SignedRead(text: string, digits: string)
    requires text != "" && (text[0] == '+' || text[0] == '-') && LeadingDigits(text[1..]) == digits
    ensures SignedNumber(text)
         == if digits == "" then None else InRange(if text[0] == '-' then 0 - ValueOf(digits) else ValueOf(digits))
  {
  }

  lemma SignTaken(sign: string, digits: string, rest: string)
    requires sign == "" || sign == "+" || sign == "-"
    requires AllDigits(digits) && (rest == "" || !IsDigit(rest[0]))
    requires sign == "" && digits == "" && rest != "" ==> rest[0] != '+' && rest[0] != '-'
    ensures SignedNumber(sign + (digits + rest))
         == if digits == "" then None else InRange(if sign == "-" then 0 - ValueOf(digits) else ValueOf(digits))
  {
    var number := digits + rest;
    DigitsTaken(digits, rest);
    if sign == "" {
      assert sign + number == number;
      assert digits != "" ==> IsDigit(number[0]);
      UnsignedRead(number, digits);
    } else {
      var text := sign + number;
      assert text[0] == sign[0] && text[1..] == number;
      SignedRead(text, digits);
    }
  }

  lemma NoSpaceInFront(sign: string, digits: string, rest: string)
    requires sign == "" || sign == "+" || sign == "-"
    requires AllDigits(digits) && (sign == "" && digits == "" && rest != "" ==> !IsSpace(rest[0]))
    ensures sign + (digits + rest) == "" || !IsSpace((sign + (digits + rest))[0])
  {
    if sign == "" && digits != "" {
      assert (sign + (digits + rest))[0] == digits[0];
    }
  }

  lemma StoiSkips(spaces: string, text: string)
    requires forall i :: 0 <= i < |spaces| ==> IsSpace(spaces[i])
    requires text == "" || !IsSpace(text[0])
    ensures Stoi(spaces + text) == SignedNumber(text)
  {
    SpacesSkipped(spaces, text);
  }

  /** How any text is read: spaces are skipped, a sign is taken, then digits up to the first other character.  No
      digits, or a number an int cannot hold, throws. */
  lemma StoiReadsText(spaces: string, sign: string, digits: string, rest: string)
    requires forall i :: 0 <= i < |spaces| ==> spaces[i] == ' ' || '\t' <= spaces[i] <= '\r'
    requires sign == "" || sign == "+" || sign == "-"
    requires AllDigits(digits) && (rest == "" || !('0' <= rest[0] <= '9'))
    requires sign == "" && digits == "" && rest != "" ==>
               rest[0] != ' ' && !('\t' <= rest[0] <= '\r') && rest[0] != '+' && rest[0] != '-'
    ensures Stoi(spaces + (sign + (digits + rest)))
         == if digits == "" then None else InRange(if sign == "-" then 0 - ValueOf(digits) else ValueOf(digits))
  {
    var text := sign + (digits + rest);
    NoSpaceInFront(sign, digits, rest);
    SignTaken(sign, digits, rest);
    StoiSkips(spaces, text);
  }

  lemma DigitsRead(digits: string)
    requires AllDigits(digits) && digits != ""
    ensures Stoi(digits) == InRange(ValueOf(digits))
  {
    assert "" + digits == digits && digits + "" == digits && IsDigit(digits[0]);
    DigitsTaken(digits, "");
    UnsignedRead(digits, digits);
    StoiSkips("", digits);
  }

  lemma MinusRead(digits: string)
    requires AllDigits(digits) && digits != ""
    ensures Stoi("-" + digits) == InRange(0 - ValueOf(digits))
  {
    var text := "-" + digits;
    assert "" + text == text && digits + "" == digits && text[0] == '-' && text[1..] == digits;
    DigitsTaken(digits, "");
    SignedRead(text, digits);
    StoiSkips("", text);
  }

  lemma DigitsAreWellFormed(digits: string)
    requires AllDigits(digits) && digits != ""
    ensures WellFormed(digits) && WellFormed("-" + digits)
  {
  }

  lemma IntTextDigits(v: int) returns (digits: string)
    ensures AllDigits(digits) && digits != "" && ValueOf(digits) == (if v < 0 then -v else v)
    ensures IntText(v) == if v < 0 then "-" + digits else digits
  {
    digits := ToDec(if v < 0 then -v else v);
    DecIsCanonical(if v < 0 then -v else v);
  }

  /** What to_string prints, stoi reads back, exactly as far as an int reaches on either side. */
  lemma StoiReadsInt(v: int)
    ensures Stoi(IntText(v)) == if -2147483648 <= v <= 2147483647 then Some(v) else None
  {
    var digits := IntTextDigits(v);
    if v < 0 {
      MinusRead(digits);
    } else {
      DigitsRead(digits);
    }
  }

  lemma IntTextWellFormed(v: int)
    ensures WellFormed(IntText(v))
  {
    var digits := IntTextDigits(v);
    DigitsAreWellFormed(digits);
  }

  /** An int stored in a size_t and cut to 32 bits. */
  lemma SizeOnTheWire(v: int)
    requires INT_MIN <= v <= INT_MAX
    ensures ToSize(v) % UINT32_MODULUS == v % UINT32_MODULUS
    ensures v % UINT32_MODULUS == v <==> v >= 0
  {
  }

  // ---------------------------------------------------------------- ParseEventFilter

  datatype OptionType = SRC_SRV | STATUS | LIMIT | FROM | TO | OFFSET

  function LookUp(name: string): Option<OptionType> {
    if name == "source_service" then Some(SRC_SRV)
    else if name == "status" then Some(STATUS)
    else if name == "limit" then Some(LIMIT)
    else if name == "from" then Some(FROM)
    else if name == "to" then Some(TO)
    else if name == "offset" then Some(OFFSET)
    else None
  }

  /** A filter, nullopt, or an exception out of the call. */
  datatype Parse = Parsed(filter: EventFilter) | Rejected | Thrown

  /** One option with its value. */
  function Assign(filter: EventFilter, kind: OptionType, value: string): Parse {
    match kind
    case FROM => Rejected
    case TO => Rejected
    case LIMIT => if Stoi(value).Some? then Parsed(filter.(limit := Some(ToSize(Stoi(value).value)))) else Thrown
    case OFFSET => if Stoi(value).Some? then Parsed(filter.(offset := Some(ToSize(Stoi(value).value)))) else Thrown
    case STATUS => if StrToStatus(value).Some? then Parsed(filter.(status := StrToStatus(value))) else Thrown
    case SRC_SRV => Parsed(filter.(sourceService := Some(value)))
  }

  /** The options in `args`, with `filter` so far.  The first two characters of a name are skipped unread, a name
      shorter than that throws, and a last option without a value is ignored. */
  function ParseOptions(args: seq<string>, filter: EventFilter): Parse
    decreases args
  {
    if args == [] then Parsed(filter)
    else if |args[0]| < 2 then Thrown
    else
      var kind := LookUp(args[0][2..]);
      if kind.None? then Rejected
      else if |args| == 1 then Parsed(filter)
      else
        match Assign(filter, kind.value, args[1])
        case Parsed(next) => ParseOptions(args[2..], next)
        case failed => failed
  }

  /** The command word itself is not looked at. */
  function ParseCommand(args: seq<string>): Parse {
    if args == [] then Parsed(NO_FILTER) else ParseOptions(args[1..], NO_FILTER)
  }

  method ParseEventFilter(args: seq<string>) returns (result: Parse)
    ensures result == ParseCommand(args)
  {
    var filter := NO_FILTER;
    var i := 1;
    while i < |args|
      invariant 1 <= i && (|args| == 0 || i <= |args|)
      invariant args == [] ==> filter == NO_FILTER
      invariant args != [] ==> ParseCommand(args) == ParseOptions(args[i..], filter)
    {
      ghost var rest := args[i..];
      assert rest[0] == args[i] && |rest| == |args| - i;
      assert |rest| >= 2 ==> rest[1] == args[i + 1] && rest[2..] == args[i + 2..];
      if |args[i]| < 2 {
        return Thrown;
      }
      var kind := LookUp(args[i][2..]);
      if kind.None? {
        return Rejected;
      }
      if i + 1 >= |args| {
        return Parsed(filter);
      }
      i := i + 1;
      var step := Assign(filter, kind.value, args[i]);
      if !step.Parsed? {
        return step;
      }
      filter := step.filter;
      i := i + 1;
    }
    assert args != [] ==> args[i..] == [];
    return Parsed(filter);
  }

  /** What each option does, by its name; the two characters before the name can be anything. */
  lemma OneOption(prefix: string, name: string, value: string, filter: EventFilter)
    requires |prefix| == 2
    ensures var result := ParseOptions([prefix + name, value], filter);
      if name == "limit" then
        (match Stoi(value)
         case None => result == Thrown
         case Some(v) => result == Parsed(filter.(limit := Some(if v < 0 then 18446744073709551616 + v else v))))
      else if name == "offset" then
        (match Stoi(value)
         case None => result == Thrown
         case Some(v) => result == Parsed(filter.(offset := Some(if v < 0 then 18446744073709551616 + v else v))))
      else if name == "status" then
        result == (if value == "success" then Parsed(filter.(status := Some(Success)))
                   else if value == "error" then Parsed(filter.(status := Some(Error)))
                   else if value == "unspecified" then Parsed(filter.(status := Some(Unspecified)))
                   else Thrown)
      else if name == "source_service" then result == Parsed(filter.(sourceService := Some(value)))
      else result == Rejected
  {
    var args := [prefix + name, value];
    assert args[0][2..] == name;
    assert args[2..] == [];
    NamesDiffer();
  }

  lemma NamesDiffer()
    ensures "limit" != "offset" && "limit" != "status" && "limit" != "source_service"
    ensures "offset" != "status" && "offset" != "source_service" && "status" != "source_service"
    ensures "from" != "limit" && "from" != "offset" && "from" != "status" && "from" != "source_service"
    ensures "to" != "limit" && "to" != "offset" && "to" != "status" && "to" != "source_service"
  {
    assert "limit"[0] == 'l' && "offset"[0] == 'o' && "status"[0] == 's' && "from"[0] == 'f' && "to"[0] == 't';
    assert |"status"| != |"source_service"|;
  }

  /** A name that is none of the six rejects the command, with or without a value behind it. */
  lemma UnknownOptionRejects(prefix: string, name: string, rest: seq<string>, filter: EventFilter)
    requires |prefix| == 2
    requires name !in {"source_service", "status", "limit", "from", "to", "offset"}
    ensures ParseOptions([prefix + name] + rest, filter) == Rejected
  {
    var args := [prefix + name] + rest;
    assert args[0][2..] == name;
  }

  // ---------------------------------------------------------------- when parsing fails

  /** What the option at the front of `args` does to the whole command. */
  datatype Effect = Accepted | Rejects | Throws

  function EffectOf(args: seq<string>): Effect
    requires args != []
  {
    if |args[0]| < 2 then Throws
    else
      match LookUp(args[0][2..])
      case None => Rejects
      case Some(kind) =>
        if |args| == 1 then Accepted
        else
          match kind
          case FROM => Rejects
          case TO => Rejects
          case LIMIT => if Stoi(args[1]).Some? then Accepted else Throws
          case OFFSET => if Stoi(args[1]).Some? then Accepted else Throws
          case STATUS => if StrToStatus(args[1]).Some? then Accepted else Throws
          case SRC_SRV => Accepted
  }

  /** Options are read in pairs; the j-th is the first that fails, and fails with `effect`. */
  ghost predicate FirstFailure(args: seq<string>, j: nat, effect: Effect) {
    && 2 * j < |args| && EffectOf(args[2 * j..]) == effect
    && forall i: nat :: i < j ==> EffectOf(args[2 * i..]).Accepted?
  }

  lemma FailureLater(args: seq<string>, effect: Effect)
    requires |args| >= 2 && EffectOf(args).Accepted?
    ensures (exists j: nat :: FirstFailure(args[2..], j, effect)) ==> exists j: nat :: FirstFailure(args, j, effect)
  {
    if j: nat :| FirstFailure(args[2..], j, effect) {
      assert args[2..][2 * j..] == args[2 * (j + 1)..];
      forall i: nat | i < j + 1 ensures EffectOf(args[2 * i..]).Accepted? {
        if i == 0 {
          assert args[0..] == args;
        } else {
          assert args[2..][2 * (i - 1)..] == args[2 * i..];
          assert EffectOf(args[2..][2 * (i - 1)..]).Accepted?;
        }
      }
      assert FirstFailure(args, j + 1, effect);
    }
  }

  ghost predicate AllAccepted(args: seq<string>) {
    forall i: nat :: 2 * i < |args| ==> EffectOf(args[2 * i..]).Accepted?
  }

  lemma AcceptedLater(args: seq<string>)
    requires |args| >= 2 && EffectOf(args).Accepted? && AllAccepted(args[2..])
    ensures AllAccepted(args)
  {
    forall i: nat | 2 * i < |args| ensures EffectOf(args[2 * i..]).Accepted? {
      if i == 0 {
        assert args[0..] == args;
      } else {
        assert args[2..][2 * (i - 1)..] == args[2 * i..];
        assert EffectOf(args[2..][2 * (i - 1)..]).Accepted?;
      }
    }
  }

  /** Parsing succeeds if every option is accepted; otherwise the first one that is not decides how it fails. */
  lemma {:induction false} OptionsOutcome(args: seq<string>, filter: EventFilter)
    ensures match ParseOptions(args, filter)
            case Parsed(_) => AllAccepted(args)
            case Rejected => exists j: nat :: FirstFailure(args, j, Rejects)
            case Thrown => exists j: nat :: FirstFailure(args, j, Throws)
    decreases args
  {
    if args != [] {
      assert args[2 * 0..] == args;
      if !EffectOf(args).Accepted? {
        assert FirstFailure(args, 0, EffectOf(args));
      } else if |args| >= 2 {
        var next := Assign(filter, LookUp(args[0][2..]).value, args[1]);
        OptionsOutcome(args[2..], next.filter);
        FailureLater(args, Rejects);
        FailureLater(args, Throws);
        if AllAccepted(args[2..]) {
          AcceptedLater(args);
        }
      }
    }
  }

  /** How a command ends: parsed if and only if every option is accepted, and otherwise rejected or thrown as the
      first failing option says. */
  lemma ParseOutcome(args: seq<string>)
    requires args != []
    ensures ParseCommand(args).Parsed? <==> AllAccepted(args[1..])
    ensures ParseCommand(args).Rejected? <==> exists j: nat :: FirstFailure(args[1..], j, Rejects)
    ensures ParseCommand(args).Thrown? <==> exists j: nat :: FirstFailure(args[1..], j, Throws)
  {
    OptionsOutcome(args[1..], NO_FILTER);
    OneFirstFailure(args[1..]);
  }

  lemma OneFirstFailure(options: seq<string>)
    ensures forall j: nat, k: nat, e, f ::
              FirstFailure(options, j, e) && FirstFailure(options, k, f) && !e.Accepted? && !f.Accepted? ==> e == f
    ensures AllAccepted(options) ==> forall j: nat, e :: FirstFailure(options, j, e) ==> e.Accepted?
  {
  }

  /** An option that is accepted together with its value. */
  predicate OptionTaken(name: string, value: string, filter: EventFilter) {
    |name| >= 2 && LookUp(name[2..]).Some? && Assign(filter, LookUp(name[2..]).value, value).Parsed?
  }

  function AfterOption(name: string, value: string, filter: EventFilter): EventFilter
    requires OptionTaken(name, value, filter)
  {
    Assign(filter, LookUp(name[2..]).value, value).filter
  }

  lemma ParseFirst(args: seq<string>, filter: EventFilter)
    requires |args| >= 2
    ensures ParseOptions(args, filter).Parsed? ==> OptionTaken(args[0], args[1], filter)
    ensures OptionTaken(args[0], args[1], filter) ==>
              ParseOptions(args, filter) == ParseOptions(args[2..], AfterOption(args[0], args[1], filter))
  {
  }

  lemma ParseFirstOfTwo(args: seq<string>, longer: seq<string>, filter: EventFilter) returns (next: EventFilter)
    requires |args| >= 2 && |longer| >= 2 && longer[0] == args[0] && longer[1] == args[1]
    requires ParseOptions(args, filter).Parsed?
    ensures ParseOptions(args, filter) == ParseOptions(args[2..], next)
    ensures ParseOptions(longer, filter) == ParseOptions(longer[2..], next)
  {
    ParseFirst(args, filter);
    ParseFirst(longer, filter);
    next := AfterOption(args[0], args[1], filter);
  }

  lemma LoneOption(name: string, filter: EventFilter)
    requires |name| >= 2 && LookUp(name[2..]).Some?
    ensures ParseOptions([name], filter) == Parsed(filter)
  {
  }

  /** The option alone changes nothing. */
  ghost predicate Ignored(rest: seq<string>) {
    forall filter :: ParseOptions(rest, filter) == Parsed(filter)
  }

  lemma SameStart<T>(args: seq<T>, longer: seq<T>, rest: seq<T>)
    requires |args| >= 2 && longer == args + rest
    ensures |longer| >= 2 && longer[0] == args[0] && longer[1] == args[1] && longer[2..] == args[2..] + rest
  {
  }

  lemma {:induction false} IgnoredAtEnd(args: seq<string>, longer: seq<string>, filter: EventFilter, rest: seq<string>, n: nat)
    requires |args| == 2 * n && ParseOptions(args, filter).Parsed? && longer == args + rest && Ignored(rest)
    ensures ParseOptions(longer, filter) == ParseOptions(args, filter)
    decreases n
  {
    if n == 0 {
      assert longer == rest && ParseOptions(args, filter) == Parsed(filter);
    } else {
      SameStart(args, longer, rest);
      var next := ParseFirstOfTwo(args, longer, filter);
      IgnoredAtEnd(args[2..], longer[2..], next, rest, n - 1);
    }
  }

  /** A last option without its value is reported and then ignored. */
  lemma LoneOptionIgnored(args: seq<string>, filter: EventFilter, name: string)
    requires |args| % 2 == 0 && ParseOptions(args, filter).Parsed?
    requires |name| >= 2 && LookUp(name[2..]).Some?
    ensures ParseOptions(args + [name], filter) == ParseOptions(args, filter)
  {
    forall f ensures ParseOptions([name], f) == Parsed(f) {
      LoneOption(name, f);
    }
    IgnoredAtEnd(args, args + [name], filter, [name], |args| / 2);
  }

  // ---------------------------------------------------------------- writing a filter as a command line

  /** An option with its value; numbers are whatever text stands on the line. */
  datatype Setting = Limit(text: string) | Offset(text: string) | OnlyStatus(status: Status) | Source(name: string)

  function OptionName(s: Setting): string {
    match s
    case Limit(_) => "--limit"
    case Offset(_) => "--offset"
    case OnlyStatus(_) => "--status"
    case Source(_) => "--source_service"
  }

  function OptionValue(s: Setting): string {
    match s
    case Limit(text) => text
    case Offset(text) => text
    case OnlyStatus(status) => StatusToStr(status)
    case Source(name) => name
  }

  function Words(settings: seq<Setting>): seq<string> {
    if settings == [] then [] else [OptionName(settings[0]), OptionValue(settings[0])] + Words(settings[1..])
  }

  /** The text is read as a number that an int can hold. */
  predicate Fits(s: Setting) {
    s.Limit? || s.Offset? ==> Stoi(s.text).Some?
  }

  predicate AllFit(settings: seq<Setting>) {
    forall i :: 0 <= i < |settings| ==> Fits(settings[i])
  }

  function Number(text: string): Option<nat> {
    match Stoi(text)
    case Some(v) => Some(ToSize(v))
    case None => None
  }

  function Set(filter: EventFilter, s: Setting): EventFilter {
    match s
    case Limit(text) => filter.(limit := Number(text))
    case Offset(text) => filter.(offset := Number(text))
    case OnlyStatus(status) => filter.(status := Some(status))
    case Source(name) => filter.(sourceService := Some(name))
  }

  /** The settings applied one after the other. */
  function SetAll(filter: EventFilter, settings: seq<Setting>): EventFilter
    decreases settings
  {
    if settings == [] then filter else SetAll(Set(filter, settings[0]), settings[1..])
  }

  function KindOf(s: Setting): OptionType {
    match s
    case Limit(_) => LIMIT
    case Offset(_) => OFFSET
    case OnlyStatus(_) => STATUS
    case Source(_) => SRC_SRV
  }

  lemma OptionNamesKnown(s: Setting)
    ensures |OptionName(s)| >= 2 && LookUp(OptionName(s)[2..]) == Some(KindOf(s))
  {
    assert "--limit"[2..] == "limit" && "--offset"[2..] == "offset";
    assert "--status"[2..] == "status" && "--source_service"[2..] == "source_service";
    assert "status"[0] == 's' && "offset"[0] == 'o';
  }

  lemma AssignSets(filter: EventFilter, s: Setting)
    requires Fits(s)
    ensures Assign(filter, KindOf(s), OptionValue(s)) == Parsed(Set(filter, s))
  {
    if s.OnlyStatus? {
      StatusTextInverse(s.status, StatusToStr(s.status));
    }
  }

  lemma {:induction false} WordsParse(filter: EventFilter, settings: seq<Setting>)
    requires AllFit(settings)
    ensures ParseOptions(Words(settings), filter) == Parsed(SetAll(filter, settings))
    decreases settings
  {
    if settings != [] {
      OptionNamesKnown(settings[0]);
      AssignSets(filter, settings[0]);
      assert Words(settings)[2..] == Words(settings[1..]);
      WordsParse(Set(filter, settings[0]), settings[1..]);
    }
  }

  /** A command line that spells out `settings`: the word Get, then names and values, quoted or bare as allowed. */
  predicate Spells(typed: seq<Typed>, settings: seq<Setting>) {
    AllOk(typed) && ArgsOf(typed) == ["Get"] + Words(settings)
  }

  /** Tokenizing and parsing such a line applies the settings in order. */
  lemma CommandLineParses(typed: seq<Typed>, settings: seq<Setting>)
    requires Spells(typed, settings) && AllFit(settings)
    ensures ParseCommand(Tokens(Line(typed))) == Parsed(SetAll(NO_FILTER, settings))
  {
    LineTokenizesBack(typed);
    assert Tokens(Line(typed))[1..] == Words(settings);
    WordsParse(NO_FILTER, settings);
  }

  // ---------------------------------------------------------------- repeated options

  predicate SameKind(a: Setting, b: Setting) {
    (a.Limit? && b.Limit?) || (a.Offset? && b.Offset?) || (a.OnlyStatus? && b.OnlyStatus?) || (a.Source? && b.Source?)
  }

  /** The field a setting is about has the value that setting gives it. */
  predicate Agrees(s: Setting, filter: EventFilter) {
    match s
    case Limit(text) => filter.limit.Some? && filter.limit == Number(text)
    case Offset(text) => filter.offset.Some? && filter.offset == Number(text)
    case OnlyStatus(status) => filter.status == Some(status)
    case Source(name) => filter.sourceService == Some(name)
  }

  /** A repeated option keeps its last value. */
  lemma {:induction false} LastValueWins(start: EventFilter, settings: seq<Setting>, k: nat)
    requires k < |settings| && Fits(settings[k]) && forall j :: k < j < |settings| ==> !SameKind(settings[k], settings[j])
    ensures Agrees(settings[k], SetAll(start, settings))
    decreases settings
  {
    if k > 0 {
      LastValueWins(Set(start, settings[0]), settings[1..], k - 1);
    } else {
      OthersKeep(Set(start, settings[0]), settings[1..], settings[0]);
    }
  }

  lemma {:induction false} OthersKeep(start: EventFilter, settings: seq<Setting>, s: Setting)
    requires Agrees(s, start) && forall j :: 0 <= j < |settings| ==> !SameKind(s, settings[j])
    ensures Agrees(s, SetAll(start, settings))
    decreases settings
  {
    if settings != [] {
      OthersKeep(Set(start, settings[0]), settings[1..], s);
    }
  }

  lemma {:induction false} NoTimesSet(start: EventFilter, settings: seq<Setting>)
    ensures SetAll(start, settings).from == start.from && SetAll(start, settings).to == start.to
    decreases settings
  {
    if settings != [] {
      NoTimesSet(Set(start, settings[0]), settings[1..]);
    }
  }

  /** Which number of a filter a setting is about. */
  function NumberOf(filter: EventFilter, s: Setting): Option<nat>
    requires s.Limit? || s.Offset?
  {
    if s.Limit? then filter.limit else filter.offset
  }

  /** From the line to the server: whatever text gives a limit or an offset, the server receives its value modulo
      2^32, and so the value itself exactly when it is not negative. */
  lemma NegativeNumberWraps(times: TimeText, typed: seq<Typed>, settings: seq<Setting>, k: nat)
    requires Spells(typed, settings) && AllFit(settings)
    requires k < |settings| && (settings[k].Limit? || settings[k].Offset?)
    requires forall j :: k < j < |settings| ==> !SameKind(settings[k], settings[j])
    ensures var parsed, value := ParseCommand(Tokens(Line(typed))), Stoi(settings[k].text).value;
      && parsed.Parsed? && ToProtoFilter(times, parsed.filter).Some?
      && var received := NumberOf(FromProtoFilter(times, ToProtoFilter(times, parsed.filter).value), settings[k]);
         received == Some(value % 4294967296) && (received == Some(value) <==> value >= 0)
  {
    CommandLineParses(typed, settings);
    LastValueWins(NO_FILTER, settings, k);
    NoTimesSet(NO_FILTER, settings);
    var filter := SetAll(NO_FILTER, settings);
    assert Fits(settings[k]);
    SizeOnTheWire(Stoi(settings[k].text).value);
    assert NumberOf(filter, settings[k]) == Some(ToSize(Stoi(settings[k].text).value));
    FilterSurvivesWire(times, filter);
    assert NumberOf(Received(times, filter), settings[k]) == Truncated(NumberOf(filter, settings[k]));
  }

  // ---------------------------------------------------------------- a filter in any option order

  /** Some setting is about the field. */
  predicate Mentions(settings: seq<Setting>, like: Setting) {
    exists i :: 0 <= i < |settings| && SameKind(settings[i], like)
  }

  predicate AllAgree(settings: seq<Setting>, filter: EventFilter) {
    forall i :: 0 <= i < |settings| ==> Agrees(settings[i], filter)
  }

  /** Only settings of `filter`, and one for every field set, in any order and any number of times. */
  predicate Lists(settings: seq<Setting>, filter: EventFilter) {
    && AllAgree(settings, filter)
    && (filter.limit.Some? ==> Mentions(settings, Limit("")))
    && (filter.offset.Some? ==> Mentions(settings, Offset("")))
    && (filter.status.Some? ==> Mentions(settings, OnlyStatus(Unspecified)))
    && (filter.sourceService.Some? ==> Mentions(settings, Source("")))
  }

  lemma MentionsFirst(settings: seq<Setting>, like: Setting)
    requires settings != []
    ensures Mentions(settings, like) <==> SameKind(settings[0], like) || Mentions(settings[1..], like)
  {
    if Mentions(settings[1..], like) {
      var i :| 0 <= i < |settings[1..]| && SameKind(settings[1..][i], like);
      assert SameKind(settings[i + 1], like);
    }
    if Mentions(settings, like) && !SameKind(settings[0], like) {
      var i :| 0 <= i < |settings| && SameKind(settings[i], like);
      assert SameKind(settings[1..][i - 1], like);
    }
  }

  /** A field of the result is what some setting put there, or what it was before. */
  lemma {:induction false} SetAllFields(start: EventFilter, settings: seq<Setting>, filter: EventFilter)
    requires forall i :: 0 <= i < |settings| ==> Agrees(settings[i], filter)
    ensures var r := SetAll(start, settings);
      && r.from == start.from && r.to == start.to
      && r.limit == (if Mentions(settings, Limit("")) then filter.limit else start.limit)
      && r.offset == (if Mentions(settings, Offset("")) then filter.offset else start.offset)
      && r.status == (if Mentions(settings, OnlyStatus(Unspecified)) then filter.status else start.status)
      && r.sourceService == (if Mentions(settings, Source("")) then filter.sourceService else start.sourceService)
    decreases settings
  {
    if settings != [] {
      MentionsFirst(settings, Limit(""));
      MentionsFirst(settings, Offset(""));
      MentionsFirst(settings, OnlyStatus(Unspecified));
      MentionsFirst(settings, Source(""));
      SetAllFields(Set(start, settings[0]), settings[1..], filter);
    }
  }

  lemma ListedMentions(settings: seq<Setting>, filter: EventFilter)
    requires Lists(settings, filter)
    ensures Mentions(settings, Limit("")) <==> filter.limit.Some?
    ensures Mentions(settings, Offset("")) <==> filter.offset.Some?
    ensures Mentions(settings, OnlyStatus(Unspecified)) <==> filter.status.Some?
    ensures Mentions(settings, Source("")) <==> filter.sourceService.Some?
  {
    forall i | 0 <= i < |settings| ensures Agrees(settings[i], filter) {}
  }

  /** Every filter without from/to is recovered from any line that lists its options. */
  lemma FilterCommandRoundTrip(typed: seq<Typed>, settings: seq<Setting>, filter: EventFilter)
    requires Spells(typed, settings) && Lists(settings, filter)
    requires filter.from.None? && filter.to.None?
    ensures ParseCommand(Tokens(Line(typed))) == Parsed(filter)
  {
    forall i | 0 <= i < |settings| ensures Fits(settings[i]) {
      assert Agrees(settings[i], filter);
    }
    CommandLineParses(typed, settings);
    ListedMentions(settings, filter);
    SetAllFields(NO_FILTER, settings, filter);
  }

  // ---------------------------------------------------------------- which filters a line can give

  /** The sizes that storing an int can give. */
  predicate IntSize(n: nat) {
    n <= INT_MAX || SIZE_MODULUS + INT_MIN <= n < SIZE_MODULUS
  }

  /** The int behind such a size. */
  function IntOf(n: nat): int {
    if n <= INT_MAX then n else n - SIZE_MODULUS
  }

  lemma SizesOfInts(v: int)
    requires INT_MIN <= v <= INT_MAX
    ensures IntSize(ToSize(v)) && IntOf(ToSize(v)) == v
  {
  }

  lemma IntsOfSizes(n: nat)
    requires IntSize(n)
    ensures Number(IntText(IntOf(n))) == Some(n)
  {
    StoiReadsInt(IntOf(n));
  }

  predicate Writable(filter: EventFilter) {
    && filter.from.None? && filter.to.None?
    && (filter.limit.Some? ==> IntSize(filter.limit.value))
    && (filter.offset.Some? ==> IntSize(filter.offset.value))
    && (filter.sourceService.Some? ==> WellFormed(filter.sourceService.value))
  }

  /** The filter's options in a fixed order. */
  function SettingsOf(filter: EventFilter): seq<Setting> {
    (if filter.limit.Some? then [Limit(IntText(IntOf(filter.limit.value)))] else [])
    + (if filter.offset.Some? then [Offset(IntText(IntOf(filter.offset.value)))] else [])
    + (if filter.status.Some? then [OnlyStatus(filter.status.value)] else [])
    + (if filter.sourceService.Some? then [Source(filter.sourceService.value)] else [])
  }

  lemma AgreeConcat(a: seq<Setting>, b: seq<Setting>, filter: EventFilter)
    requires AllAgree(a, filter) && AllAgree(b, filter)
    ensures AllAgree(a + b, filter)
  {
  }

  lemma NumbersAgree(filter: EventFilter)
    requires Writable(filter)
    ensures filter.limit.Some? ==> Agrees(Limit(IntText(IntOf(filter.limit.value))), filter)
    ensures filter.offset.Some? ==> Agrees(Offset(IntText(IntOf(filter.offset.value))), filter)
  {
    if filter.limit.Some? {
      IntsOfSizes(filter.limit.value);
    }
    if filter.offset.Some? {
      IntsOfSizes(filter.offset.value);
    }
  }

  lemma SettingsOfAgree(filter: EventFilter)
    requires Writable(filter)
    ensures AllAgree(SettingsOf(filter), filter)
  {
    NumbersAgree(filter);
    var limit := if filter.limit.Some? then [Limit(IntText(IntOf(filter.limit.value)))] else [];
    var offset := if filter.offset.Some? then [Offset(IntText(IntOf(filter.offset.value)))] else [];
    var status := if filter.status.Some? then [OnlyStatus(filter.status.value)] else [];
    var source := if filter.sourceService.Some? then [Source(filter.sourceService.value)] else [];
    AgreeConcat(limit, offset, filter);
    AgreeConcat(limit + offset, status, filter);
    AgreeConcat(limit + offset + status, source, filter);
  }

  lemma SettingsOfMention(filter: EventFilter)
    ensures filter.limit.Some? ==> Mentions(SettingsOf(filter), Limit(""))
    ensures filter.offset.Some? ==> Mentions(SettingsOf(filter), Offset(""))
    ensures filter.status.Some? ==> Mentions(SettingsOf(filter), OnlyStatus(Unspecified))
    ensures filter.sourceService.Some? ==> Mentions(SettingsOf(filter), Source(""))
  {
    var settings := SettingsOf(filter);
    var limits := if filter.limit.Some? then 1 else 0;
    var offsets := limits + if filter.offset.Some? then 1 else 0;
    var statuses := offsets + if filter.status.Some? then 1 else 0;
    assert filter.limit.Some? ==> settings[0].Limit?;
    assert filter.offset.Some? ==> settings[limits].Offset?;
    assert filter.status.Some? ==> settings[offsets].OnlyStatus?;
    assert filter.sourceService.Some? ==> settings[statuses].Source?;
  }

  lemma SettingsOfLists(filter: EventFilter)
    requires Writable(filter)
    ensures Lists(SettingsOf(filter), filter)
  {
    SettingsOfAgree(filter);
    SettingsOfMention(filter);
  }

  predicate Spellable(s: Setting) {
    WellFormed(OptionValue(s))
  }

  lemma {:induction false} WordsWellFormed(settings: seq<Setting>)
    requires forall i :: 0 <= i < |settings| ==> Spellable(settings[i])
    ensures AllWellFormed(Words(settings))
  {
    if settings != [] {
      assert Spellable(settings[0]);
      WordsWellFormed(settings[1..]);
      assert WellFormed(OptionName(settings[0]));
    }
  }

  lemma SettingsOfSpellable(filter: EventFilter)
    requires Writable(filter)
    ensures forall i :: 0 <= i < |SettingsOf(filter)| ==> Spellable(SettingsOf(filter)[i])
  {
    if filter.limit.Some? {
      IntTextWellFormed(IntOf(filter.limit.value));
    }
    if filter.offset.Some? {
      IntTextWellFormed(IntOf(filter.offset.value));
    }
    forall status: Status ensures WellFormed(StatusToStr(status)) {}
  }

  /** The line with every argument in quotes. */
  function QuotedLine(filter: EventFilter): seq<Typed> {
    AllQuoted(["Get"] + Words(SettingsOf(filter)))
  }

  /** Such a filter can be written, and is read back. */
  lemma FilterCanBeWritten(filter: EventFilter)
    requires Writable(filter)
    ensures Spells(QuotedLine(filter), SettingsOf(filter)) && Lists(SettingsOf(filter), filter)
    ensures ParseCommand(Tokens(Line(QuotedLine(filter)))) == Parsed(filter)
  {
    SettingsOfLists(filter);
    SettingsOfSpellable(filter);
    WordsWellFormed(SettingsOf(filter));
    assert WellFormed("Get");
    assert ArgsOf(QuotedLine(filter)) == ["Get"] + Words(SettingsOf(filter));
    FilterCommandRoundTrip(QuotedLine(filter), SettingsOf(filter), filter);
  }

  lemma AssignWritable(filter: EventFilter, kind: OptionType, value: string)
    requires Writable(filter) && WellFormed(value) && Assign(filter, kind, value).Parsed?
    ensures Writable(Assign(filter, kind, value).filter)
  {
    if kind.LIMIT? || kind.OFFSET? {
      SizesOfInts(Stoi(value).value);
    }
  }

  lemma {:induction false} ParsedIsWritable(args: seq<string>, filter: EventFilter)
    requires AllWellFormed(args) && Writable(filter) && ParseOptions(args, filter).Parsed?
    ensures Writable(ParseOptions(args, filter).filter)
    decreases args
  {
    if |args| >= 2 {
      var kind := LookUp(args[0][2..]).value;
      AssignWritable(filter, kind, args[1]);
      ParsedIsWritable(args[2..], Assign(filter, kind, args[1]).filter);
    }
  }

  /** Exactly these filters come out of a Get line: no from or to, limit and offset from an int, and a source
      service that is non-empty and free of quotes. */
  lemma ReachableFilters(filter: EventFilter)
    ensures (exists line :: Tokens(line) != [] && Tokens(line)[0] == "Get" && ParseCommand(Tokens(line)) == Parsed(filter))
       <==> Writable(filter)
  {
    if Writable(filter) {
      var typed := QuotedLine(filter);
      FilterCanBeWritten(filter);
      LineTokenizesBack(typed);
      assert Tokens(Line(typed))[0] == "Get";
    }
    forall line | Tokens(line) != [] && ParseCommand(Tokens(line)).Parsed?
      ensures Writable(ParseCommand(Tokens(line)).filter)
    {
      TokensKeep(line);
      ParsedIsWritable(Tokens(line)[1..], NO_FILTER);
    }
  }
}
