/** The pieces of Python's `str` and `int` behaviour that the edge code
    relies on: whitespace stripping, ASCII lower-casing, splitting at the
    first occurrence of a separator, and `int()` on a decimal string. */
module Text {
  import opened Optional

  /** Python's `str.isspace()` for a single character: the characters whose
      bidirectional class is WS, B or S, or whose category is Zs. None of
      them is a digit, a sign, a separator the edge code splits on, or a
      letter that lower-casing would change. */
  function IsSpace(c: char): (b: bool)
    ensures b ==> !IsDigit(c) && c != '+' && c != '-' && c != '_' && c != ':' && c != '@'
    ensures b ==> LowerChar(c) == c
  {
    || ('\t' <= c <= '\r')
    || ('\U{1C}' <= c <= '\U{1F}')
    || c == ' ' || c == '\U{85}' || c == '\U{A0}' || c == '\U{1680}'
    || ('\U{2000}' <= c <= '\U{200A}')
    || c == '\U{2028}' || c == '\U{2029}' || c == '\U{202F}' || c == '\U{205F}' || c == '\U{3000}'
  }

  predicate IsDigit(c: char) {
    '0' <= c <= '9'
  }

  predicate IsBlank(s: string) {
    forall i :: 0 <= i < |s| ==> IsSpace(s[i])
  }

  predicate StartsWith(s: string, prefix: string) {
    |prefix| <= |s| && s[..|prefix|] == prefix
  }

  /** `s.lstrip()`: drops the leading whitespace and nothing else. */
  function StripLeft(s: string): (r: string)
    ensures |r| <= |s| && r == s[|s| - |r|..]
    ensures r == [] || !IsSpace(r[0])
    ensures forall i :: 0 <= i < |s| - |r| ==> IsSpace(s[i])
  {
    if |s| > 0 && IsSpace(s[0]) then
      var r := StripLeft(s[1..]);
      assert s[1..][|s| - 1 - |r|..] == s[|s| - |r|..];
      assert forall i :: 1 <= i < |s| - |r| ==> s[i] == s[1..][i - 1];
      r
    else s
  }

  /** `s.rstrip()`: drops the trailing whitespace and nothing else. */
  function StripRight(s: string): (r: string)
    ensures |r| <= |s| && r == s[..|r|]
    ensures r == [] || !IsSpace(r[|r| - 1])
    ensures forall i :: |r| <= i < |s| ==> IsSpace(s[i])
  {
    if |s| > 0 && IsSpace(s[|s| - 1]) then
      var r := StripRight(s[..|s| - 1]);
      assert s[..|s| - 1][..|r|] == s[..|r|];
      assert forall i :: |r| <= i < |s| - 1 ==> s[i] == s[..|s| - 1][i];
      r
    else s
  }

  /** How many whitespace characters `lstrip` removes from the front. */
  function LeadingSpaces(s: string): (n: nat)
    ensures n <= |s| && IsBlank(s[..n])
    ensures n == |s| || !IsSpace(s[n])
  {
    var l := StripLeft(s);
    assert l == s[|s| - |l|..];
    |s| - |l|
  }

  /** `s.strip()`: the result is the middle of the input, with whitespace
      and only whitespace cut off on either side; it starts and ends with
      a non-space character, it is empty exactly when the input is all
      whitespace, and a string with no whitespace at either end comes back
      unchanged. */
  function Strip(s: string): (r: string)
    ensures LeadingSpaces(s) + |r| <= |s|
    ensures r == s[LeadingSpaces(s)..LeadingSpaces(s) + |r|]
    ensures IsBlank(s[LeadingSpaces(s) + |r|..])
    ensures r == [] || (!IsSpace(r[0]) && !IsSpace(r[|r| - 1]))
    ensures r == [] <==> IsBlank(s)
    ensures (s == [] || (!IsSpace(s[0]) && !IsSpace(s[|s| - 1]))) ==> r == s
  {
    var l := StripLeft(s);
    var r := StripRight(l);
    Middle(s, l, r);
    assert LeadingSpaces(s) == |s| - |l|;
    r
  }

  /** Cutting a blank tail off a suffix of `s` leaves the middle of `s` and
      a blank tail of `s`. */
  lemma Middle(s: string, l: string, r: string)
    requires |l| <= |s| && l == s[|s| - |l|..]
    requires |r| <= |l| && r == l[..|r|]
    requires forall i :: |r| <= i < |l| ==> IsSpace(l[i])
    ensures r == s[|s| - |l|..|s| - |l| + |r|]
    ensures IsBlank(s[|s| - |l| + |r|..])
  {
    var j := |s| - |l| + |r|;
    assert s[j..] == l[|r|..];
  }

  function LowerChar(c: char): (r: char)
    ensures 'A' <= c <= 'Z' ==> 'a' <= r <= 'z' && r as int - c as int == 32
    ensures !('A' <= c <= 'Z') ==> r == c
  {
    if 'A' <= c <= 'Z' then (c as int + 32) as char else c
  }

  /** `s.lower()` restricted to ASCII letters. */
  function Lower(s: string): (r: string)
    ensures |r| == |s|
    ensures forall i :: 0 <= i < |s| ==> r[i] == LowerChar(s[i])
  {
    seq(|s|, i requires 0 <= i < |s| => LowerChar(s[i]))
  }

  /** The index of the first occurrence of `c` in `s`, if any. */
  function IndexOf(s: string, c: char): (r: Option<nat>)
    ensures r.None? <==> c !in s
    ensures r.Some? ==> r.value < |s| && s[r.value] == c && c !in s[..r.value]
  {
    if |s| == 0 then None
    else if s[0] == c then Some(0)
    else match IndexOf(s[1..], c)
      case None => None
      case Some(i) =>
        assert s[..i + 1] == [s[0]] + s[1..][..i];
        Some(i + 1)
  }

  /** `s.split(c, 1)` seen as "two parts or not": the text before the first
      `c` and everything after it, or None when `c` does not occur. */
  function SplitOnce(s: string, c: char): (r: Option<(string, string)>)
    ensures r.None? <==> c !in s
    ensures r.Some? ==> s == r.value.0 + [c] + r.value.1 && c !in r.value.0
  {
    match IndexOf(s, c)
    case None => None
    case Some(i) =>
      assert s == s[..i] + [c] + s[i + 1..];
      Some((s[..i], s[i + 1..]))
  }

  /** Splitting a joined string at a separator absent from the first part
      gives both parts back. */
  lemma SplitOnceJoin(a: string, c: char, b: string)
    requires c !in a
    ensures SplitOnce(a + [c] + b, c) == Some((a, b))
  {
    var s := a + [c] + b;
    assert s[..|a|] == a && s[|a|] == c && s[|a| + 1..] == b;
  }

  /** Python's grammar for the digits of a base-10 integer: digits, with
      single underscores allowed between two digits. */
  predicate IsDigitBody(s: string) {
    && |s| > 0 && IsDigit(s[0]) && IsDigit(s[|s| - 1])
    && (forall i :: 0 <= i < |s| ==> IsDigit(s[i]) || s[i] == '_')
    && (forall i :: 0 <= i < |s| - 1 && s[i] == '_' ==> IsDigit(s[i + 1]))
  }

  function DigitValue(c: char): nat
    requires IsDigit(c)
  {
    c as int - '0' as int
  }

  /** The value of a digit body, underscores ignored. */
  function BodyValue(s: string): nat
    requires forall i :: 0 <= i < |s| ==> IsDigit(s[i]) || s[i] == '_'
  {
    if s == [] then 0
    else if s[|s| - 1] == '_' then BodyValue(s[..|s| - 1])
    else BodyValue(s[..|s| - 1]) * 10 + DigitValue(s[|s| - 1])
  }

  /** Python's `int(s)` for a base-10 string: surrounding whitespace is
      stripped, one optional sign, then a digit body; anything else is the
      ValueError, here None. */
  function ParseInt(s: string): (r: Option<int>)
    ensures r.Some? ==> !IsBlank(s)
  {
    var t := Strip(s);
    if |t| > 0 && (t[0] == '+' || t[0] == '-') then
      if IsDigitBody(t[1..]) then
        var v: int := BodyValue(t[1..]);
        Some(if t[0] == '-' then -v else v)
      else None
    else if IsDigitBody(t) then Some(BodyValue(t))
    else None
  }

  function DigitChar(d: nat): (c: char)
    requires d < 10
    ensures IsDigit(c) && DigitValue(c) == d
  {
    ('0' as int + d) as char
  }

  /** `str(n)` for a natural number. */
  function DecimalString(n: nat): (r: string)
    ensures |r| > 0
    ensures forall i :: 0 <= i < |r| ==> IsDigit(r[i])
  {
    if n < 10 then [DigitChar(n)] else DecimalString(n / 10) + [DigitChar(n % 10)]
  }

  lemma {:induction false} DecimalStringValue(n: nat)
    ensures IsDigitBody(DecimalString(n))
    ensures BodyValue(DecimalString(n)) == n
  {
    var s := DecimalString(n);
    if n >= 10 {
      DecimalStringValue(n / 10);
      assert s[..|s| - 1] == DecimalString(n / 10);
    }
  }

  /** A digit body with no sign or surrounding whitespace parses to its value. */
  lemma ParseDigitBody(t: string)
    requires IsDigitBody(t)
    ensures ParseInt(t) == Some(BodyValue(t) as int)
  {
    assert !IsSpace(t[0]) && !IsSpace(t[|t| - 1]);
    assert Strip(t) == t;
  }

  /** A minus sign followed by a digit body parses to the negated value. */
  lemma ParseSignedDigitBody(t: string)
    requires IsDigitBody(t)
    ensures ParseInt("-" + t) == Some(-(BodyValue(t) as int))
  {
    var m := "-" + t;
    assert !IsSpace(m[0]) && m[|m| - 1] == t[|t| - 1] && !IsSpace(t[|t| - 1]);
    assert Strip(m) == m;
    assert m[1..] == t;
  }

  /** `int(str(n)) == n`. */
  lemma ParseDecimal(n: nat)
    ensures ParseInt(DecimalString(n)) == Some(n as int)
  {
    DecimalStringValue(n);
    ParseDigitBody(DecimalString(n));
  }

  /** `int("-" + str(n)) == -n`. */
  lemma ParseNegativeDecimal(n: nat)
    ensures ParseInt("-" + DecimalString(n)) == Some(-(n as int))
  {
    DecimalStringValue(n);
    ParseSignedDigitBody(DecimalString(n));
  }
}
