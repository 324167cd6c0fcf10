/** Decimal text of natural numbers, as std::to_string prints it, and its value. */
module Decimal {

  function DigitChar(n: nat): char
    requires n < 10
  {
    ("0123456789")[n]
  }

  predicate IsDigit(c: char) {
    '0' <= c <= '9'
  }

  function DigitValue(c: char): (n: nat)
    requires IsDigit(c)
    ensures n < 10 && DigitChar(n) == c
  {
    (c as int) - ('0' as int)
  }

  predicate AllDigits(s: string) {
    forall i :: 0 <= i < |s| ==> IsDigit(s[i])
  }

  function ToDec(n: nat): string {
    if n < 10 then [DigitChar(n)] else ToDec(n / 10) + [DigitChar(n % 10)]
  }

  function ValueOf(s: string): nat
    requires AllDigits(s)
  {
    if s == "" then 0 else 10 * ValueOf(s[..|s| - 1]) + DigitValue(s[|s| - 1])
  }

  /** Digits only, at least one, and no leading zero except in "0" itself. */
  predicate Canonical(s: string) {
    AllDigits(s) && s != "" && (|s| > 1 ==> s[0] != '0')
  }

  lemma {:induction false} DecIsCanonical(n: nat)
    ensures Canonical(ToDec(n)) && ValueOf(ToDec(n)) == n
    ensures n > 0 ==> ToDec(n)[0] != '0'
  {
    if n >= 10 {
      DecIsCanonical(n / 10);
      assert ToDec(n)[..|ToDec(n)| - 1] == ToDec(n / 10);
    } else {
      assert ToDec(n)[..0] == "";
    }
  }

  lemma {:induction false} CanonicalIsDec(s: string)
    requires Canonical(s)
    ensures ToDec(ValueOf(s)) == s
    ensures s[0] != '0' ==> ValueOf(s) > 0
  {
    var front, last := s[..|s| - 1], s[|s| - 1];
    assert s == front + [last];
    if front != "" {
      assert front[0] == s[0];
      CanonicalIsDec(front);
      assert ValueOf(s) / 10 == ValueOf(front) && ValueOf(s) % 10 == DigitValue(last);
    } else {
      assert s == [last];
    }
  }

  /** Numbers below 10, 100 and 1000 have at most one, two and three digits. */
  lemma DecLength(n: nat)
    requires n < 1000
    ensures |ToDec(n)| == if n < 10 then 1 else if n < 100 then 2 else 3
  {
  }
}

/** IPv4 addresses as dotted quads. */
module DottedQuad {
  import opened Collections
  import opened Decimal

  /** A uint32_t: the shifts and masks below are divisions and remainders by powers of two. */
  type Address = a: int | 0 <= a < 0x1_0000_0000

  function Octet1(addr: Address): nat { (addr / 0x100_0000) % 0x100 }
  function Octet2(addr: Address): nat { (addr / 0x1_0000) % 0x100 }
  function Octet3(addr: Address): nat { (addr / 0x100) % 0x100 }
  function Octet4(addr: Address): nat { addr % 0x100 }

  function IPv4AddressToString(addr: Address): string {
    var octet1, octet2, octet3, octet4 := Octet1(addr), Octet2(addr), Octet3(addr), Octet4(addr);
    ToDec(octet1) + "." + ToDec(octet2) + "." + ToDec(octet3) + "." + ToDec(octet4)
  }

  /** The dec-octet of section 3.2.2 of RFC 3986. */
  predicate DecOctet(s: string) {
    Canonical(s) && |s| <= 3 && ValueOf(s) <= 255
  }

  /** The text before and after the first dot. */
  function Cut(s: string): (r: Option<(string, string)>)
    ensures r.Some? ==> s == r.value.0 + "." + r.value.1
  {
    if s == "" then None
    else if s[0] == '.' then Some(("", s[1..]))
    else
      match Cut(s[1..])
      case None => None
      case Some((head, tail)) => Some(([s[0]] + head, tail))
  }

  /** The strict reader: four dec-octets separated by dots, nothing else. */
  function ParseQuad(s: string): Option<int> {
    match Cut(s)
    case None => None
    case Some((a, rest1)) =>
      match Cut(rest1)
      case None => None
      case Some((b, rest2)) =>
        match Cut(rest2)
        case None => None
        case Some((c, d)) =>
          if DecOctet(a) && DecOctet(b) && DecOctet(c) && DecOctet(d)
          then Some(Packed(ValueOf(a), ValueOf(b), ValueOf(c), ValueOf(d)))
          else None
  }

  lemma {:induction false} CutAtDot(head: string, tail: string)
    requires AllDigits(head)
    ensures Cut(head + "." + tail) == Some((head, tail))
  {
    var s := head + "." + tail;
    if head == "" {
      assert s == "." + tail;
    } else {
      assert s[1..] == head[1..] + "." + tail;
      CutAtDot(head[1..], tail);
      assert head == [head[0]] + head[1..];
    }
  }

  lemma OctetText(n: nat)
    requires n < 256
    ensures DecOctet(ToDec(n)) && ValueOf(ToDec(n)) == n && 1 <= |ToDec(n)| <= 3
  {
    DecIsCanonical(n);
    DecLength(n);
  }

  function Quad(a: string, b: string, c: string, d: string): string {
    a + "." + b + "." + c + "." + d
  }

  function Packed(a: nat, b: nat, c: nat, d: nat): nat {
    ((a * 0x100 + b) * 0x100 + c) * 0x100 + d
  }

  lemma QuadParses(a: string, b: string, c: string, d: string)
    requires DecOctet(a) && DecOctet(b) && DecOctet(c) && DecOctet(d)
    ensures ParseQuad(Quad(a, b, c, d)) == Some(Packed(ValueOf(a), ValueOf(b), ValueOf(c), ValueOf(d)))
  {
    var rest2 := c + "." + d;
    var rest1 := b + "." + rest2;
    assert Quad(a, b, c, d) == a + "." + rest1;
    CutAtDot(a, rest1);
    CutAtDot(b, rest2);
    CutAtDot(c, d);
  }

  lemma OctetsPacked(addr: Address)
    ensures Octet1(addr) < 256 && Octet2(addr) < 256 && Octet3(addr) < 256 && Octet4(addr) < 256
    ensures addr == Packed(Octet1(addr), Octet2(addr), Octet3(addr), Octet4(addr))
  {
    var q3 := addr / 0x100;
    var q2 := q3 / 0x100;
    var q1 := q2 / 0x100;
    assert addr / 0x1_0000 == q2 && addr / 0x100_0000 == q1 && q1 < 0x100;
  }

  /** Every address is recovered from its text, so no two share one; the text has 7 to 15 characters. */
  lemma QuadRoundTrip(addr: Address)
    ensures ParseQuad(IPv4AddressToString(addr)) == Some(addr)
    ensures 7 <= |IPv4AddressToString(addr)| <= 15
  {
    var a, b, c, d := Octet1(addr), Octet2(addr), Octet3(addr), Octet4(addr);
    OctetsPacked(addr);
    OctetText(a);
    OctetText(b);
    OctetText(c);
    OctetText(d);
    QuadParses(ToDec(a), ToDec(b), ToDec(c), ToDec(d));
    assert IPv4AddressToString(addr) == Quad(ToDec(a), ToDec(b), ToDec(c), ToDec(d));
  }

  lemma PackedOctets(a: nat, b: nat, c: nat, d: nat)
    requires a < 256 && b < 256 && c < 256 && d < 256
    ensures Packed(a, b, c, d) < 0x1_0000_0000
    ensures var addr := Packed(a, b, c, d); Octet1(addr) == a && Octet2(addr) == b && Octet3(addr) == c && Octet4(addr) == d
  {
    var addr := Packed(a, b, c, d);
    assert addr / 0x100 == (a * 0x100 + b) * 0x100 + c;
    assert addr / 0x1_0000 == a * 0x100 + b;
    assert addr / 0x100_0000 == a;
  }

  /** The octets are printed in decimal, the most significant one first. */
  lemma QuadOfOctets(a: nat, b: nat, c: nat, d: nat)
    requires a < 256 && b < 256 && c < 256 && d < 256
    ensures Packed(a, b, c, d) == a * 16777216 + b * 65536 + c * 256 + d < 0x1_0000_0000
    ensures IPv4AddressToString(Packed(a, b, c, d)) == ToDec(a) + "." + ToDec(b) + "." + ToDec(c) + "." + ToDec(d)
  {
    PackedOctets(a, b, c, d);
  }

  lemma ParsedParts(s: string) returns (a: string, b: string, c: string, d: string)
    requires ParseQuad(s).Some?
    ensures DecOctet(a) && DecOctet(b) && DecOctet(c) && DecOctet(d)
    ensures s == Quad(a, b, c, d) && ParseQuad(s).value == Packed(ValueOf(a), ValueOf(b), ValueOf(c), ValueOf(d))
  {
    var rest1, rest2;
    a, rest1 := Cut(s).value.0, Cut(s).value.1;
    b, rest2 := Cut(rest1).value.0, Cut(rest1).value.1;
    c, d := Cut(rest2).value.0, Cut(rest2).value.1;
    assert s == a + "." + (b + "." + (c + "." + d));
  }

  /** The other way round: the only text the strict reader accepts for an address is the printed one. */
  lemma QuadTextIsPrinted(s: string)
    requires ParseQuad(s).Some?
    ensures 0 <= ParseQuad(s).value < 0x1_0000_0000 && IPv4AddressToString(ParseQuad(s).value) == s
  {
    var a, b, c, d := ParsedParts(s);
    PackedOctets(ValueOf(a), ValueOf(b), ValueOf(c), ValueOf(d));
    CanonicalIsDec(a);
    CanonicalIsDec(b);
    CanonicalIsDec(c);
    CanonicalIsDec(d);
  }

  lemma QuadInjective(x: Address, y: Address)
    requires IPv4AddressToString(x) == IPv4AddressToString(y)
    ensures x == y
  {
    QuadRoundTrip(x);
    QuadRoundTrip(y);
  }
}
