/** The Kotlin standard-library string operations the connect handler relies on:
    `String.trim()`, `String.toIntOrNull()` and `Int.toString()`, with the round trip
    between the last two (a port saved as text reads back as the same port). */
module Text {
  import opened Wrappers

  /** The range of a Kotlin `Int`. */
  const IntMin: int := -0x8000_0000
  const IntMax: int := 0x7FFF_FFFF

  // ---------------------------------------------------------------------------
  // Whitespace and trim()
  // ---------------------------------------------------------------------------

  /** Kotlin's `Char.isWhitespace()` on the JVM: `Character.isWhitespace` or `Character.isSpaceChar`. */
  predicate IsWhitespace(c: char) {
    || '\t' <= c <= '\r'
    || '\U{001C}' <= c <= ' '
    || c == '\U{00A0}' || c == '\U{1680}'
    || '\U{2000}' <= c <= '\U{200A}'
    || c == '\U{2028}' || c == '\U{2029}' || c == '\U{202F}' || c == '\U{205F}' || c == '\U{3000}'
  }

  /** `s` without its leading whitespace. */
  function DropLeading(s: string): (r: string)
    ensures |r| <= |s| && r == s[|s| - |r|..]
    ensures forall i :: 0 <= i < |s| - |r| ==> IsWhitespace(s[i])
    ensures r == [] || !IsWhitespace(r[0])
    ensures (s == [] || !IsWhitespace(s[0])) ==> r == s
    decreases |s|
  {
    if s != [] && IsWhitespace(s[0]) then DropLeading(s[1..]) else s
  }

  /** `s` without its trailing whitespace. */
  function DropTrailing(s: string): (r: string)
    ensures |r| <= |s| && r == s[..|r|]
    ensures forall i :: |r| <= i < |s| ==> IsWhitespace(s[i])
    ensures r == [] || !IsWhitespace(r[|r| - 1])
    ensures (s == [] || !IsWhitespace(s[|s| - 1])) ==> r == s
    decreases |s|
  {
    if s != [] && IsWhitespace(s[|s| - 1]) then DropTrailing(s[..|s| - 1]) else s
  }

  /** Kotlin's `String.trim()`: the longest infix that neither starts nor ends with whitespace,
      obtained by dropping whitespace only. A string that already has no whitespace at
      either end is its own trim, so trimming twice is trimming once. */
  function Trim(s: string): (r: string)
    ensures |r| <= |s|
    ensures exists i :: TrimmedAt(s, i, r)
    ensures r == [] || (!IsWhitespace(r[0]) && !IsWhitespace(r[|r| - 1]))
    ensures (s == [] || (!IsWhitespace(s[0]) && !IsWhitespace(s[|s| - 1]))) ==> r == s
  {
    var t := DropLeading(s);
    var r := DropTrailing(t);
    assert r != [] ==> r[0] == t[..|r|][0] == t[0] && !IsWhitespace(r[0]);
    DropBothEnds(s, t, r);
    r
  }

  /** Dropping whitespace from the front and then from the back leaves an infix of `s` with
      only whitespace around it. */
  lemma DropBothEnds(s: string, t: string, r: string)
    requires |t| <= |s| && t == s[|s| - |t|..] && forall j :: 0 <= j < |s| - |t| ==> IsWhitespace(s[j])
    requires |r| <= |t| && r == t[..|r|] && forall j :: |r| <= j < |t| ==> IsWhitespace(t[j])
    ensures TrimmedAt(s, |s| - |t|, r)
  {
    var i := |s| - |t|;
    assert s[i..i + |r|] == r by {
      assert s[i..i + |r|] == s[i..][..|r|];
    }
    forall j | i + |r| <= j < |s|
      ensures IsWhitespace(s[j])
    {
      assert s[j] == t[j - i];
    }
  }

  /** `r` is the part of `s` that starts at offset `i`, and everything of `s` before or after
      that part is whitespace. */
  predicate TrimmedAt(s: string, i: int, r: string) {
    && 0 <= i && i + |r| <= |s| && s[i..i + |r|] == r
    && (forall j :: 0 <= j < i ==> IsWhitespace(s[j]))
    && (forall j :: i + |r| <= j < |s| ==> IsWhitespace(s[j]))
  }

  // ---------------------------------------------------------------------------
  // Decimal digits
  // ---------------------------------------------------------------------------

  predicate IsDigit(c: char) { '0' <= c <= '9' }

  predicate AllDigits(s: string) { forall i :: 0 <= i < |s| ==> IsDigit(s[i]) }

  function DigitValue(c: char): (d: nat)
    requires IsDigit(c)
    ensures d < 10
  {
    (c as int) - ('0' as int)
  }

  function DigitChar(d: nat): (c: char)
    requires d < 10
    ensures IsDigit(c) && DigitValue(c) == d
  {
    (('0' as int) + d) as char
  }

  /** The value of a string of decimal digits, most significant first (leading zeros allowed). */
  function DecimalValue(s: string): nat
    requires AllDigits(s)
    decreases |s|
  {
    if s == [] then 0 else DecimalValue(s[..|s| - 1]) * 10 + DigitValue(s[|s| - 1])
  }

  /** The canonical decimal numeral of `n`: non-empty, digits only, and no leading zero
      unless `n` is zero. */
  function NatToString(n: nat): (s: string)
    ensures s != [] && AllDigits(s)
    ensures (s[0] == '0') == (n == 0)
    decreases n
  {
    if n < 10 then [DigitChar(n)] else NatToString(n / 10) + [DigitChar(n % 10)]
  }

  lemma {:induction false} DecimalValueOfNatToString(n: nat)
    ensures DecimalValue(NatToString(n)) == n
    decreases n
  {
    if n >= 10 {
      var p := NatToString(n / 10);
      var s := p + [DigitChar(n % 10)];
      assert s[..|s| - 1] == p;
      DecimalValueOfNatToString(n / 10);
    }
  }

  /** Kotlin's `Int.toString()`: an optional minus sign followed by the numeral of the magnitude. */
  function IntToString(i: int): (s: string)
    ensures s != []
    ensures (s[0] == '-') == (i < 0)
  {
    if i < 0 then "-" + NatToString(-i) else NatToString(i)
  }

  function InIntRange(v: int): Option<int> {
    if IntMin <= v <= IntMax then Some(v) else None
  }

  /** A signed decimal numeral: an optional `-` or `+`, then at least one digit. */
  predicate IsNumeral(s: string) {
    if |s| > 0 && (s[0] == '-' || s[0] == '+') then |s| > 1 && AllDigits(s[1..]) else |s| > 0 && AllDigits(s)
  }

  /** The value a signed decimal numeral denotes. */
  function NumeralValue(s: string): int
    requires IsNumeral(s)
  {
    if s[0] == '-' then -(DecimalValue(s[1..]) as int) else if s[0] == '+' then DecimalValue(s[1..]) else DecimalValue(s)
  }

  /** Kotlin's `String.toIntOrNull()` in radix 10: a value exactly for a signed numeral whose
      value a Kotlin `Int` holds, and that value; `None` for the empty string, a sign alone,
      any other character, and a value outside the `Int` range. Only ASCII digits are
      modelled. */
  function ToIntOrNull(s: string): (r: Option<int>)
    ensures r.Some? <==> IsNumeral(s) && IntMin <= NumeralValue(s) <= IntMax
    ensures r.Some? ==> r.value == NumeralValue(s)
    ensures s == [] ==> r == None
  {
    if |s| == 0 then None
    else if s[0] < '0' then
      if |s| == 1 then None
      else if s[0] == '-' then (if AllDigits(s[1..]) then InIntRange(-(DecimalValue(s[1..]) as int)) else None)
      else if s[0] == '+' then (if AllDigits(s[1..]) then InIntRange(DecimalValue(s[1..])) else None)
      else None
    else if AllDigits(s) then InIntRange(DecimalValue(s))
    else None
  }

  /** A 32-bit integer written with `Int.toString()` parses back to itself with `toIntOrNull()`. */
  lemma IntToStringRoundTrip(i: int)
    requires IntMin <= i <= IntMax
    ensures ToIntOrNull(IntToString(i)) == Some(i)
  {
    var s := IntToString(i);
    if i < 0 {
      assert s[1..] == NatToString(-i);
      DecimalValueOfNatToString(-i);
    } else {
      DecimalValueOfNatToString(i);
    }
  }
}
