/**
 The primitive encodings of java.io.DataOutputStream and DataInputStream: big-endian
 integers, modified UTF-8 strings, counted byte arrays and lists. Every reader is the
 left inverse of its writer and leaves exactly the bytes that follow.
 */
module DataStreams {
  import opened Common

  /** The outcome of reading a value off the front of a stream; `Failed` is a thrown exception. */
  datatype Parsed<+T> = Failed | Parsed(value: T, rest: Bytes) {
    predicate IsFailure() {
      Failed?
    }

    function PropagateFailure<U>(): Parsed<U>
      requires Failed?
    {
      Failed
    }

    function Extract(): (T, Bytes)
      requires Parsed?
    {
      (value, rest)
    }
  }

  // ---- booleans and fixed-width integers ----

  function EncodeBool(b: bool): Bytes {
    [if b then 1 else 0]
  }

  function DecodeBool(s: Bytes): Parsed<bool> {
    if |s| < 1 then Failed else Parsed(s[0] != 0, s[1..])
  }

  function EncodeUInt32(u: UInt32): Bytes {
    var u1: UInt32 := u / 0x100;
    var u2: UInt32 := u1 / 0x100;
    [u2 / 0x100, u2 % 0x100, u1 % 0x100, u % 0x100]
  }

  /** The number whose big-endian base-256 digits are a, b, c, d. */
  function FromDigits(a: int, b: int, c: int, d: int): int {
    ((a * 0x100 + b) * 0x100 + c) * 0x100 + d
  }

  function DecodeUInt32(s: Bytes): Parsed<UInt32> {
    if |s| < 4 then Failed
    else Parsed(FromDigits(s[0], s[1], s[2], s[3]), s[4..])
  }

  function EncodeInt(x: Int32): Bytes {
    EncodeUInt32(if x < 0 then x + 0x1_0000_0000 else x)
  }

  function DecodeInt(s: Bytes): Parsed<Int32> {
    var (u, rest) :- DecodeUInt32(s);
    Parsed(if u < 0x8000_0000 then u else u - 0x1_0000_0000, rest)
  }

  function EncodeLong(x: Int64): Bytes {
    var u: UInt64 := if x < 0 then x + 0x1_0000_0000_0000_0000 else x;
    EncodeUInt32(u / 0x1_0000_0000) + EncodeUInt32(u % 0x1_0000_0000)
  }

  function DecodeLong(s: Bytes): Parsed<Int64> {
    var (high, middle) :- DecodeUInt32(s);
    var (low, rest) :- DecodeUInt32(middle);
    var u := high * 0x1_0000_0000 + low;
    Parsed(if u < 0x8000_0000_0000_0000 then u else u - 0x1_0000_0000_0000_0000, rest)
  }

  lemma BoolRoundTrip(b: bool, rest: Bytes)
    ensures DecodeBool(EncodeBool(b) + rest) == Parsed(b, rest)
  {
    assert (EncodeBool(b) + rest)[1..] == rest;
  }

  lemma UInt32RoundTrip(u: UInt32, rest: Bytes)
    ensures DecodeUInt32(EncodeUInt32(u) + rest) == Parsed(u, rest)
  {
    assert (EncodeUInt32(u) + rest)[4..] == rest;
  }

  lemma IntRoundTrip(x: Int32, rest: Bytes)
    ensures DecodeInt(EncodeInt(x) + rest) == Parsed(x, rest)
  {
    UInt32RoundTrip(if x < 0 then x + 0x1_0000_0000 else x, rest);
  }

  lemma LongRoundTrip(x: Int64, rest: Bytes)
    ensures DecodeLong(EncodeLong(x) + rest) == Parsed(x, rest)
  {
    var u: UInt64 := if x < 0 then x + 0x1_0000_0000_0000_0000 else x;
    var high: UInt32, low: UInt32 := u / 0x1_0000_0000, u % 0x1_0000_0000;
    assert EncodeLong(x) + rest == EncodeUInt32(high) + (EncodeUInt32(low) + rest);
    UInt32RoundTrip(high, EncodeUInt32(low) + rest);
    UInt32RoundTrip(low, rest);
  }

  // ---- modified UTF-8 (DataOutput.writeUTF) ----

  function EncodeUnit(c: CodeUnit): Bytes {
    if 1 <= c < 0x80 then [c]
    else if c < 0x800 then [0xC0 + c / 0x40, 0x80 + c % 0x40]
    else
      var high: CodeUnit := c / 0x40;
      [0xE0 + high / 0x40, 0x80 + high % 0x40, 0x80 + c % 0x40]
  }

  function EncodeUnits(s: Utf16): Bytes {
    if s == [] then [] else EncodeUnit(s[0]) + EncodeUnits(s[1..])
  }

  predicate Continuation(b: Byte) {
    0x80 <= b < 0xC0
  }

  /** Appends the six payload bits of a continuation byte. */
  function Compose(high: int, b: int): int {
    high * 0x40 + (b - 0x80)
  }

  /** Reads code units until the bytes are used up, as readUTF does. */
  function DecodeUnits(s: Bytes): Option<Utf16>
    decreases |s|
  {
    if s == [] then Some([])
    else if s[0] < 0x80 then
      var tail :- DecodeUnits(s[1..]);
      Some([s[0]] + tail)
    else if 0xC0 <= s[0] < 0xE0 && |s| >= 2 && Continuation(s[1]) then
      var tail :- DecodeUnits(s[2..]);
      Some([Compose(s[0] - 0xC0, s[1])] + tail)
    else if 0xE0 <= s[0] < 0xF0 && |s| >= 3 && Continuation(s[1]) && Continuation(s[2]) then
      var tail :- DecodeUnits(s[3..]);
      Some([Compose(Compose(s[0] - 0xE0, s[1]), s[2])] + tail)
    else None
  }

  /** writeUTF throws unless the encoded length fits its 16-bit prefix. */
  predicate UtfFits(s: Utf16) {
    |EncodeUnits(s)| < 0x1_0000
  }

  function EncodeUtf(s: Utf16): Bytes
    requires UtfFits(s)
  {
    var n := |EncodeUnits(s)|;
    [n / 0x100, n % 0x100] + EncodeUnits(s)
  }

  function DecodeUtf(s: Bytes): Parsed<Utf16> {
    if |s| < 2 then Failed
    else
      var n := FromDigits(0, 0, s[0], s[1]);
      if |s| < 2 + n then Failed
      else
        match DecodeUnits(s[2..2 + n])
        case None => Failed
        case Some(units) => Parsed(units, s[2 + n..])
  }

  lemma UnitRoundTrip(c: CodeUnit, tail: Bytes, units: Utf16)
    requires DecodeUnits(tail) == Some(units)
    ensures DecodeUnits(EncodeUnit(c) + tail) == Some([c] + units)
  {
    var head := EncodeUnit(c);
    var s := head + tail;
    assert s[|head|..] == tail;
    if 1 <= c < 0x80 {
      assert s[0] == c;
    } else if c < 0x800 {
      assert s[0] == 0xC0 + c / 0x40 && s[1] == 0x80 + c % 0x40;
    } else {
      var high: CodeUnit := c / 0x40;
      assert s[0] == 0xE0 + high / 0x40 && s[1] == 0x80 + high % 0x40 && s[2] == 0x80 + c % 0x40;
    }
  }

  lemma {:induction false} UnitsRoundTrip(s: Utf16)
    ensures DecodeUnits(EncodeUnits(s)) == Some(s)
  {
    if s == [] {
    } else {
      UnitsRoundTrip(s[1..]);
      UnitRoundTrip(s[0], EncodeUnits(s[1..]), s[1..]);
      assert s == [s[0]] + s[1..];
    }
  }

  lemma UtfRoundTrip(s: Utf16, rest: Bytes)
    requires UtfFits(s)
    ensures DecodeUtf(EncodeUtf(s) + rest) == Parsed(s, rest)
  {
    var units := EncodeUnits(s);
    var all := EncodeUtf(s) + rest;
    assert all[2..2 + |units|] == units;
    assert all[2 + |units|..] == rest;
    UnitsRoundTrip(s);
  }

  // ---- counted arrays and lists ----

  // ---- the format as java.io.DataOutput documents it ----

  /** The bytes a unit takes: one for 1 to 127, two up to 2047 and for zero, else three. */
  function Width(c: CodeUnit): nat {
    if c == 0 then 2 else if c <= 127 then 1 else if c <= 2047 then 2 else 3
  }

  function WrittenLength(s: Utf16): nat {
    if s == [] then 0 else Width(s[0]) + WrittenLength(s[1..])
  }

  function Bits(a: int, b: int, c: int): int {
    a * 4096 + b * 64 + c
  }

  function BigEndian(a: int, b: int, c: int, d: int): int {
    a * 0x100_0000 + b * 0x1_0000 + c * 0x100 + d
  }

  /** A unit is written in that many bytes, marked as 0, 110 or 1110 and then 10, its bits in order. */
  lemma UnitIsStandard(c: CodeUnit)
    ensures var b := EncodeUnit(c);
            && |b| == Width(c)
            && (|b| == 1 ==> b == [c])
            && (|b| == 2 ==> 0xC0 <= b[0] < 0xE0 && 0x80 <= b[1] < 0xC0 && Bits(0, b[0] - 0xC0, b[1] - 0x80) == c)
            && (|b| == 3 ==> 0xE0 <= b[0] < 0xF0 && 0x80 <= b[1] < 0xC0 && 0x80 <= b[2] < 0xC0
                             && Bits(b[0] - 0xE0, b[1] - 0x80, b[2] - 0x80) == c)
  {
  }

  lemma {:induction false} LengthIsStandard(s: Utf16)
    ensures |EncodeUnits(s)| == WrittenLength(s)
  {
    if s != [] {
      UnitIsStandard(s[0]);
      LengthIsStandard(s[1..]);
    }
  }

  /** A text can be written exactly if that makes at most 65535 bytes, and their number comes first, high byte first. */
  lemma FitsExactly(s: Utf16)
    ensures UtfFits(s) <==> WrittenLength(s) <= 65535
    ensures UtfFits(s) ==> |EncodeUtf(s)| == 2 + WrittenLength(s) && BigEndian(0, 0, EncodeUtf(s)[0], EncodeUtf(s)[1]) == WrittenLength(s)
  {
    LengthIsStandard(s);
  }

  /** Numbers are written high byte first. */
  lemma NumbersAreBigEndian(u: UInt32)
    ensures var b := EncodeUInt32(u);
            |b| == 4 && BigEndian(b[0], b[1], b[2], b[3]) == u
  {
  }

  function EncodeBlob(b: Blob): Bytes {
    EncodeInt(|b|) + b
  }

  /** `ByteArray(n)` throws for a negative n and `readFully` throws at the end of the stream. */
  function DecodeBlob(s: Bytes): Parsed<Blob> {
    var (n, rest) :- DecodeInt(s);
    if n < 0 || |rest| < n then Failed else Parsed(rest[..n], rest[n..])
  }

  lemma BlobRoundTrip(b: Blob, rest: Bytes)
    ensures DecodeBlob(EncodeBlob(b) + rest) == Parsed(b, rest)
  {
    assert EncodeBlob(b) + rest == EncodeInt(|b|) + (b + rest);
    IntRoundTrip(|b|, b + rest);
    assert (b + rest)[..|b|] == b && (b + rest)[|b|..] == rest;
  }

  function EncodeInts(s: seq<Int32>): Bytes {
    if s == [] then [] else EncodeInt(s[0]) + EncodeInts(s[1..])
  }

  function DecodeInts(n: nat, s: Bytes): (r: Parsed<seq<Int32>>)
    ensures r.Parsed? ==> |r.value| == n
  {
    if n == 0 then Parsed([], s)
    else
      var (head, middle) :- DecodeInt(s);
      var (tail, rest) :- DecodeInts(n - 1, middle);
      Parsed([head] + tail, rest)
  }

  function EncodeIntList(s: IntList): Bytes {
    EncodeInt(|s|) + EncodeInts(s)
  }

  /** `(1..n).map` is empty, not an error, for a count below one. */
  function DecodeIntList(s: Bytes): Parsed<IntList> {
    var (n, rest) :- DecodeInt(s);
    DecodeInts(if n < 0 then 0 else n, rest)
  }

  lemma {:induction false} IntsRoundTrip(s: seq<Int32>, rest: Bytes)
    ensures DecodeInts(|s|, EncodeInts(s) + rest) == Parsed(s, rest)
  {
    if s == [] {
      assert EncodeInts(s) + rest == rest;
    } else {
      assert EncodeInts(s) + rest == EncodeInt(s[0]) + (EncodeInts(s[1..]) + rest);
      IntRoundTrip(s[0], EncodeInts(s[1..]) + rest);
      IntsRoundTrip(s[1..], rest);
      assert s == [s[0]] + s[1..];
    }
  }

  lemma IntListRoundTrip(s: IntList, rest: Bytes)
    ensures DecodeIntList(EncodeIntList(s) + rest) == Parsed(s, rest)
  {
    assert EncodeIntList(s) + rest == EncodeInt(|s|) + (EncodeInts(s) + rest);
    IntRoundTrip(|s|, EncodeInts(s) + rest);
    IntsRoundTrip(s, rest);
  }

  function EncodeBlobs(s: seq<Blob>): Bytes {
    if s == [] then [] else EncodeBlob(s[0]) + EncodeBlobs(s[1..])
  }

  function DecodeBlobs(n: nat, s: Bytes): (r: Parsed<seq<Blob>>)
    ensures r.Parsed? ==> |r.value| == n
  {
    if n == 0 then Parsed([], s)
    else
      var (head, middle) :- DecodeBlob(s);
      var (tail, rest) :- DecodeBlobs(n - 1, middle);
      Parsed([head] + tail, rest)
  }

  lemma {:induction false} BlobsRoundTrip(s: seq<Blob>, rest: Bytes)
    ensures DecodeBlobs(|s|, EncodeBlobs(s) + rest) == Parsed(s, rest)
  {
    if s == [] {
      assert EncodeBlobs(s) + rest == rest;
    } else {
      assert EncodeBlobs(s) + rest == EncodeBlob(s[0]) + (EncodeBlobs(s[1..]) + rest);
      BlobRoundTrip(s[0], EncodeBlobs(s[1..]) + rest);
      BlobsRoundTrip(s[1..], rest);
      assert s == [s[0]] + s[1..];
    }
  }

  // ---- java.math.BigInteger: minimal big-endian two's complement ----

  function ToTwosComplement(x: int): (b: Bytes)
    ensures |b| > 0
    decreases if x < 0 then -x else x
  {
    if -0x80 <= x < 0x80 then [x % 0x100] else ToTwosComplement(x / 0x100) + [x % 0x100]
  }

  function FromTwosComplement(b: Bytes): int
    requires |b| > 0
  {
    var n := |b| - 1;
    if n == 0 then (if b[0] < 0x80 then b[0] else b[0] - 0x100)
    else FromTwosComplement(b[..n]) * 0x100 + b[n]
  }

  lemma {:induction false} TwosComplementRoundTrip(x: int)
    ensures FromTwosComplement(ToTwosComplement(x)) == x
    decreases if x < 0 then -x else x
  {
    if -0x80 <= x < 0x80 {
    } else {
      var front := ToTwosComplement(x / 0x100);
      assert (front + [x % 0x100])[..|front|] == front;
      TwosComplementRoundTrip(x / 0x100);
    }
  }

  /** Half the range of an n-byte two's-complement number. */
  function HalfRange(n: nat): int
    requires n > 0
  {
    if n == 1 then 0x80 else 0x100 * HalfRange(n - 1)
  }

  lemma {:induction false} TwosComplementLength(x: int, n: nat)
    requires n > 0 && -HalfRange(n) <= x < HalfRange(n)
    ensures |ToTwosComplement(x)| <= n
    decreases n
  {
    if n == 1 || -0x80 <= x < 0x80 {
    } else {
      TwosComplementLength(x / 0x100, n - 1);
    }
  }
}
