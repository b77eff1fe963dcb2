/** The 128-bit identifiers of Python's `uuid.UUID`, as 32 hexadecimal digits: `str(u)`, the
    canonical rendering, and `UUID(s)`, the parser the obfuscation layer uses to recognise
    identifier keys. */
module Uuids {
  import opened Wrappers
  import opened Strings

  type Nibble = x: int | 0 <= x < 16

  /** A UUID: its 32 hexadecimal digits, most significant first. */
  type Uuid = s: seq<Nibble> | |s| == 32 witness seq(32, i => 0)

  /** A lower-case hexadecimal digit, as `str(uuid)` writes it. */
  function HexDigit(n: Nibble): char {
    if n < 10 then ('0' as int + n) as char else ('a' as int + n - 10) as char
  }

  predicate IsHexChar(c: char) {
    ('0' <= c <= '9') || ('a' <= c <= 'f') || ('A' <= c <= 'F')
  }

  /** The value of a hexadecimal digit of either case, as `int(s, 16)` reads it. */
  function HexValue(c: char): Nibble
    requires IsHexChar(c)
  {
    if '0' <= c <= '9' then c as int - '0' as int
    else if 'a' <= c <= 'f' then c as int - 'a' as int + 10
    else c as int - 'A' as int + 10
  }

  function Hex(ns: seq<Nibble>): (s: string)
    ensures |s| == |ns|
  {
    seq(|ns|, i requires 0 <= i < |ns| => HexDigit(ns[i]))
  }

  /** `str(u)`: five dash-separated groups of 8, 4, 4, 4 and 12 lower-case digits. */
  function ToString(u: Uuid): string {
    Hex(u[..8]) + "-" + Hex(u[8..12]) + "-" + Hex(u[12..16]) + "-" + Hex(u[16..20]) + "-" + Hex(u[20..])
  }

  /** `s.replace(pat, "")`: every non-overlapping occurrence, scanning left to right. */
  function RemoveAll(s: string, pat: string): string
    requires |pat| > 0
    decreases |s|
  {
    if |s| < |pat| then s
    else if s[..|pat|] == pat then RemoveAll(s[|pat|..], pat)
    else [s[0]] + RemoveAll(s[1..], pat)
  }

  function StripLeading(s: string, cs: set<char>): string
    decreases |s|
  {
    if |s| > 0 && s[0] in cs then StripLeading(s[1..], cs) else s
  }

  function StripTrailing(s: string, cs: set<char>): string
    decreases |s|
  {
    if |s| > 0 && s[|s| - 1] in cs then StripTrailing(s[..|s| - 1], cs) else s
  }

  /** `s.strip(chars)` */
  function Strip(s: string, cs: set<char>): string {
    StripTrailing(StripLeading(s, cs), cs)
  }

  /** `s.replace("-", "")` */
  function RemoveDashes(s: string): string {
    if |s| == 0 then "" else (if s[0] == '-' then "" else [s[0]]) + RemoveDashes(s[1..])
  }

  /** `UUID(s)`: drop every "urn:" and "uuid:", strip braces from both ends, drop the dashes,
      and accept exactly 32 hexadecimal digits of either case; `None` is the `ValueError`. */
  function Parse(s: string): Option<Uuid> {
    var t := RemoveDashes(Strip(RemoveAll(RemoveAll(s, "urn:"), "uuid:"), {'{', '}'}));
    if |t| == 32 && forall i | 0 <= i < 32 :: IsHexChar(t[i]) then
      Some(seq(32, i requires 0 <= i < 32 => HexValue(t[i])))
    else
      None
  }

  lemma HexDigitIsHex(n: Nibble)
    ensures IsHexChar(HexDigit(n)) && HexValue(HexDigit(n)) == n
    ensures HexDigit(n) != '-' && HexDigit(n) != 'u' && HexDigit(n) != '_'
    ensures HexDigit(n) != '{' && HexDigit(n) != '}'
  {
  }

  lemma {:induction false} RemoveAllUnmatched(s: string, pat: string)
    requires |pat| > 0
    requires forall i | 0 <= i < |s| :: s[i] != pat[0]
    ensures RemoveAll(s, pat) == s
    decreases |s|
  {
    if |s| >= |pat| {
      assert s[..|pat|][0] == s[0] != pat[0];
      RemoveAllUnmatched(s[1..], pat);
      assert [s[0]] + s[1..] == s;
    }
  }

  lemma {:induction false} RemoveDashesConcat(a: string, b: string)
    ensures RemoveDashes(a + b) == RemoveDashes(a) + RemoveDashes(b)
    decreases |a|
  {
    if |a| > 0 {
      assert (a + b)[1..] == a[1..] + b;
      RemoveDashesConcat(a[1..], b);
    } else {
      assert a + b == b;
    }
  }

  lemma {:induction false} RemoveDashesOfHex(ns: seq<Nibble>)
    ensures RemoveDashes(Hex(ns)) == Hex(ns)
    decreases |ns|
  {
    if |ns| > 0 {
      HexDigitIsHex(ns[0]);
      assert Hex(ns)[1..] == Hex(ns[1..]);
      RemoveDashesOfHex(ns[1..]);
      assert Hex(ns) == [Hex(ns)[0]] + Hex(ns)[1..];
    }
  }

  lemma HexConcat(a: seq<Nibble>, b: seq<Nibble>)
    ensures Hex(a + b) == Hex(a) + Hex(b)
  {
  }

  /** Every character of `str(u)` is a lower-case hexadecimal digit or a dash. */
  lemma ToStringChars(u: Uuid)
    ensures |ToString(u)| == 36
    ensures forall i | 0 <= i < 36 :: ToString(u)[i] == '-' || ToString(u)[i] == HexDigit(u[Position(i)])
  {
    var s := ToString(u);
    forall i | 0 <= i < 36
      ensures s[i] == '-' || s[i] == HexDigit(u[Position(i)])
    {
      if i < 8 { assert s[i] == Hex(u[..8])[i]; }
      else if i == 8 {}
      else if i < 13 { assert s[i] == Hex(u[8..12])[i - 9]; }
      else if i == 13 {}
      else if i < 18 { assert s[i] == Hex(u[12..16])[i - 14]; }
      else if i == 18 {}
      else if i < 23 { assert s[i] == Hex(u[16..20])[i - 19]; }
      else if i == 23 {}
      else { assert s[i] == Hex(u[20..])[i - 24]; }
    }
  }

  /** The digit of `u` shown at position `i` of `str(u)` (dash positions map anywhere). */
  function Position(i: nat): nat
    requires i < 36
    ensures Position(i) < 32
  {
    if i < 8 then i
    else if i <= 13 then (if i == 8 then 0 else i - 1)
    else if i <= 18 then (if i == 13 then 0 else i - 2)
    else if i <= 23 then (if i == 18 then 0 else i - 3)
    else i - 4
  }

  /** `str(u)` never starts with an underscore, so an identifier key is never mistaken for a
      private attribute. */
  lemma ToStringNotPrivate(u: Uuid)
    ensures !IsPrivate(ToString(u))
  {
    ToStringChars(u);
    HexDigitIsHex(u[Position(0)]);
  }

  /** The parser's clean-up steps leave `str(u)` as it is until the dashes go. */
  lemma PreprocessToString(u: Uuid)
    ensures Strip(RemoveAll(RemoveAll(ToString(u), "urn:"), "uuid:"), {'{', '}'}) == ToString(u)
  {
    var s := ToString(u);
    ToStringChars(u);
    forall i | 0 <= i < |s| ensures s[i] != 'u' {
      HexDigitIsHex(u[Position(i)]);
    }
    RemoveAllUnmatched(s, "urn:");
    RemoveAllUnmatched(s, "uuid:");
    HexDigitIsHex(u[Position(0)]);
    HexDigitIsHex(u[Position(35)]);
    assert StripLeading(s, {'{', '}'}) == s;
    assert StripTrailing(s, {'{', '}'}) == s;
  }

  lemma DashThenGroup(p: string, rp: string, g: seq<Nibble>)
    requires RemoveDashes(p) == rp
    ensures RemoveDashes(p + "-" + Hex(g)) == rp + Hex(g)
  {
    RemoveDashesConcat(p, "-");
    assert RemoveDashes("-") == "";
    RemoveDashesConcat(p + "-", Hex(g));
    RemoveDashesOfHex(g);
  }

  /** Dropping the dashes of `str(u)` leaves the 32 digits. */
  lemma RemoveDashesOfToString(u: Uuid)
    ensures RemoveDashes(ToString(u)) == Hex(u)
  {
    var a, b, c, d, e := u[..8], u[8..12], u[12..16], u[16..20], u[20..];
    RemoveDashesOfHex(a);
    DashThenGroup(Hex(a), Hex(a), b);
    HexConcat(a, b);
    DashThenGroup(Hex(a) + "-" + Hex(b), Hex(a + b), c);
    HexConcat(a + b, c);
    DashThenGroup(Hex(a) + "-" + Hex(b) + "-" + Hex(c), Hex(a + b + c), d);
    HexConcat(a + b + c, d);
    DashThenGroup(Hex(a) + "-" + Hex(b) + "-" + Hex(c) + "-" + Hex(d), Hex(a + b + c + d), e);
    HexConcat(a + b + c + d, e);
    assert a + b + c + d + e == u;
  }

  /** `UUID(str(u)) == u`. */
  lemma ParseToString(u: Uuid)
    ensures Parse(ToString(u)) == Some(u)
  {
    PreprocessToString(u);
    RemoveDashesOfToString(u);
    var t := Hex(u);
    forall i | 0 <= i < 32 ensures IsHexChar(t[i]) && HexValue(t[i]) == u[i] {
      HexDigitIsHex(u[i]);
    }
    assert seq(32, i requires 0 <= i < 32 => HexValue(t[i])) == u;
  }

  /** Distinct identifiers render as distinct strings. */
  lemma ToStringInjective(u: Uuid, v: Uuid)
    requires ToString(u) == ToString(v)
    ensures u == v
  {
    ParseToString(u);
    ParseToString(v);
  }
}
