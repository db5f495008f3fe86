/** Text as Kotlin's string functions see it: UTF-16 code units. */
module Text {
  import opened Common

  /** ASCII literals. */
  function Ascii(s: string): (u: Utf16)
    ensures |u| == |s|
  {
    seq(|s|, i requires 0 <= i < |s| => (s[i] as int) % 0x1_0000)
  }

  const HASH: CodeUnit := 0x23
  const PLUS: CodeUnit := 0x2b
  const DASH: CodeUnit := 0x2d
  const EQUALS: CodeUnit := 0x3d
  const NEXT_LINE: CodeUnit := 0x85

  /** Char.isWhitespace. */
  predicate IsWhitespace(c: CodeUnit) {
    || 0x09 <= c <= 0x0d || 0x1c <= c <= 0x20 || c == 0xa0 || c == 0x1680 || 0x2000 <= c <= 0x200a
    || c == 0x2028 || c == 0x2029 || c == 0x202f || c == 0x205f || c == 0x3000
  }

  function TrimStart(s: Utf16): Utf16 {
    if s != [] && IsWhitespace(s[0]) then TrimStart(s[1..]) else s
  }

  function TrimEnd(s: Utf16): Utf16 {
    if s != [] && IsWhitespace(s[|s| - 1]) then TrimEnd(s[..|s| - 1]) else s
  }

  function Trim(s: Utf16): Utf16 {
    TrimEnd(TrimStart(s))
  }

  /** Lower case of the ASCII letters. */
  function LowerUnit(c: CodeUnit): CodeUnit {
    if 0x41 <= c <= 0x5a then c + 0x20 else c
  }

  function Lower(s: Utf16): (r: Utf16)
    ensures |r| == |s|
  {
    seq(|s|, i requires 0 <= i < |s| => LowerUnit(s[i]))
  }

  /**
   What equalsIgnoreCase compares, on the units it identifies with ASCII letters: both dotted and
   dotless i, the long s and the Kelvin sign go with i, s and k.
   */
  function Fold(c: CodeUnit): CodeUnit {
    if c == 0x130 || c == 0x131 then 0x69
    else if c == 0x17f then 0x73
    else if c == 0x212a then 0x6b
    else LowerUnit(c)
  }

  predicate EqualsIgnoreCase(a: Utf16, b: Utf16) {
    |a| == |b| && forall i :: 0 <= i < |a| ==> Fold(a[i]) == Fold(b[i])
  }

  function IndexOf(s: Utf16, c: CodeUnit): (i: Option<nat>)
    ensures i.Some? ==> i.value < |s| && s[i.value] == c
    ensures i.None? <==> c !in s
  {
    if s == [] then None
    else if s[0] == c then Some(0)
    else
      var rest := IndexOf(s[1..], c);
      if rest.Some? then Some(rest.value + 1) else None
  }

  /** The text without any occurrence of a unit. */
  function Without(s: Utf16, c: CodeUnit): Utf16 {
    if s == [] then [] else (if s[0] == c then [] else [s[0]]) + Without(s[1..], c)
  }

  predicate StartsWith(s: Utf16, prefix: Utf16) {
    |prefix| <= |s| && EqualsIgnoreCase(s[..|prefix|], prefix)
  }

  /** replace(pattern, replacement, ignoreCase = true). */
  function Replace(s: Utf16, pattern: Utf16, replacement: Utf16): Utf16
    requires pattern != []
    decreases |s|
  {
    if s == [] then []
    else if StartsWith(s, pattern) then replacement + Replace(s[|pattern|..], pattern, replacement)
    else [s[0]] + Replace(s[1..], pattern, replacement)
  }

  /** Text without the first unit of the pattern is copied. */
  lemma {:induction false} ReplaceSkips(front: Utf16, rest: Utf16, pattern: Utf16, replacement: Utf16)
    requires pattern != [] && forall c :: c in front ==> Fold(c) != Fold(pattern[0])
    ensures Replace(front + rest, pattern, replacement) == front + Replace(rest, pattern, replacement)
  {
    if front == [] {
      assert front + rest == rest;
    } else {
      var s := front + rest;
      assert s[0] == front[0] && s[1..] == front[1..] + rest;
      assert front[0] in front;
      if |pattern| <= |s| { assert s[..|pattern|][0] == front[0]; }
      ReplaceSkips(front[1..], rest, pattern, replacement);
      assert [front[0]] + (front[1..] + Replace(rest, pattern, replacement)) == front + Replace(rest, pattern, replacement);
    }
  }

  lemma ReplaceMatch(rest: Utf16, pattern: Utf16, replacement: Utf16)
    requires pattern != []
    ensures Replace(pattern + rest, pattern, replacement) == replacement + Replace(rest, pattern, replacement)
  {
    assert (pattern + rest)[..|pattern|] == pattern && (pattern + rest)[|pattern|..] == rest;
  }

  // ---- decimal numbers ----

  predicate IsDigit(c: CodeUnit) {
    0x30 <= c <= 0x39
  }

  predicate AllDigits(s: Utf16) {
    forall c :: c in s ==> IsDigit(c)
  }

  function Decimal(s: Utf16): nat
    requires AllDigits(s)
  {
    if s == [] then 0
    else
      assert s[|s| - 1] in s && forall c :: c in s[..|s| - 1] ==> c in s;
      10 * Decimal(s[..|s| - 1]) + DigitValue(s[|s| - 1])
  }

  function DigitValue(c: int): int {
    c - 0x30
  }

  /** toInt() on a text without a minus sign. */
  function ParseInt(s: Utf16): Option<nat> {
    var digits := if |s| > 1 && s[0] == PLUS then s[1..] else s;
    if digits == [] || !AllDigits(digits) then None else Some(Decimal(digits))
  }

  function Power10(n: nat): nat {
    if n == 0 then 1 else 10 * Power10(n - 1)
  }

  lemma {:induction false} DecimalBelow(s: Utf16)
    requires AllDigits(s)
    ensures Decimal(s) < Power10(|s|)
    decreases |s|
  {
    if s != [] {
      var front := s[..|s| - 1];
      assert forall c :: c in front ==> c in s;
      assert s[|s| - 1] in s;
      DecimalBelow(front);
    }
  }

  /** Formatting with leading zeros. */
  function Pad(n: nat, width: nat): (s: Utf16)
    ensures |s| == width && AllDigits(s)
  {
    if width == 0 then [] else Pad(n / 10, width - 1) + [0x30 + n % 10]
  }

  lemma {:induction false} PadRoundTrip(n: nat, width: nat)
    requires n < Power10(width)
    ensures Decimal(Pad(n, width)) == n
  {
    if width > 0 {
      PadRoundTrip(n / 10, width - 1);
      assert Pad(n, width)[..width - 1] == Pad(n / 10, width - 1);
    }
  }
}
