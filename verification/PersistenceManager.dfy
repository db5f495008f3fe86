/**
 PersistenceManager's file side: the sequential writer and reader of one record, the
 write-then-rename protocol of `saveKeySync`, and the scan of `loadAll`.
 */
module PersistenceManager {
  import opened Common
  import opened KeyData
  import opened DataStreams
  import opened RecordCodec

  /** Whether a stream operation returned or threw. */
  datatype Outcome = Done | Thrown {
    predicate IsFailure() {
      Thrown?
    }

    function PropagateFailure(): Outcome
      requires Thrown?
    {
      Thrown
    }
  }

  /** DataOutputStream over a file that can hold `capacity` bytes; a write past that throws. */
  class DataOutput {
    var bytes: Bytes
    const capacity: nat

    constructor (capacity: nat)
      ensures bytes == [] && this.capacity == capacity
    {
      this.capacity := capacity;
      bytes := [];
    }

    method Write(b: Bytes) returns (o: Outcome)
      modifies this
      ensures o.Done? <==> |old(bytes)| + |b| <= capacity
      ensures bytes == if o.Done? then old(bytes) + b else old(bytes)
    {
      if |bytes| + |b| <= capacity {
        bytes := bytes + b;
        return Done;
      }
      return Thrown;
    }

    method WriteUtf(s: Utf16) returns (o: Outcome)
      modifies this
      ensures o.Done? <==> UtfFits(s) && |old(bytes)| + |EncodeUtf(s)| <= capacity
      ensures bytes == if o.Done? then old(bytes) + EncodeUtf(s) else old(bytes)
    {
      if !UtfFits(s) {
        return Thrown;
      }
      o := Write(EncodeUtf(s));
    }

    method WriteBlob(b: Blob) returns (o: Outcome)
      modifies this
      ensures o.Done? <==> |old(bytes)| + |EncodeBlob(b)| <= capacity
      ensures o.Done? ==> bytes == old(bytes) + EncodeBlob(b)
    {
      var size := EncodeInt(|b|);
      :- Write(size);
      :- Write(b);
      assert bytes == old(bytes) + EncodeBlob(b);
      return Done;
    }
  }

  // ---- writing one record, field by field ----

  /** What is left to write: the bytes so far followed by `tail` are the intended contents `goal`. */
  ghost predicate Remaining(out: DataOutput, tail: Bytes, goal: Bytes)
    reads out
  {
    out.bytes + tail == goal
  }

  /** Writes the next field of a stream whose intended contents are `goal`. */
  method Emit(out: DataOutput, field: Bytes, ghost tail: Bytes, ghost goal: Bytes) returns (o: Outcome)
    requires Remaining(out, field + tail, goal)
    modifies out
    ensures o.Done? ==> Remaining(out, tail, goal) && |out.bytes| <= out.capacity
    ensures o.Thrown? ==> |goal| > out.capacity
  {
    Assoc(out.bytes, field, tail);
    o := out.Write(field);
  }

  method EmitBlob(out: DataOutput, b: Blob, ghost tail: Bytes, ghost goal: Bytes) returns (o: Outcome)
    requires Remaining(out, EncodeBlob(b) + tail, goal)
    modifies out
    ensures o.Done? ==> Remaining(out, tail, goal) && |out.bytes| <= out.capacity
    ensures o.Thrown? ==> |goal| > out.capacity
  {
    Assoc(out.bytes, EncodeBlob(b), tail);
    o := out.WriteBlob(b);
  }

  lemma IntsUnfold(s: seq<Int32>, i: nat, tail: Bytes)
    requires i < |s|
    ensures EncodeInts(s[i..]) + tail == EncodeInt(s[i]) + (EncodeInts(s[i + 1..]) + tail)
  {
    assert s[i..][1..] == s[i + 1..];
    Assoc(EncodeInt(s[i]), EncodeInts(s[i + 1..]), tail);
  }

  lemma BlobsUnfold(s: seq<Blob>, i: nat, tail: Bytes)
    requires i < |s|
    ensures EncodeBlobs(s[i..]) + tail == EncodeBlob(s[i]) + (EncodeBlobs(s[i + 1..]) + tail)
  {
    assert s[i..][1..] == s[i + 1..];
    Assoc(EncodeBlob(s[i]), EncodeBlobs(s[i + 1..]), tail);
  }

  /** writeIntList: the size, then each element. */
  method EmitIntList(out: DataOutput, s: IntList, ghost tail: Bytes, ghost goal: Bytes) returns (o: Outcome)
    requires Remaining(out, EncodeIntList(s) + tail, goal)
    modifies out
    ensures o.Done? ==> Remaining(out, tail, goal) && |out.bytes| <= out.capacity
    ensures o.Thrown? ==> |goal| > out.capacity
  {
    Assoc(EncodeInt(|s|), EncodeInts(s), tail);
    assert s[0..] == s;
    :- Emit(out, EncodeInt(|s|), EncodeInts(s[0..]) + tail, goal);
    var i := 0;
    while i < |s|
      invariant 0 <= i <= |s|
      invariant Remaining(out, EncodeInts(s[i..]) + tail, goal) && |out.bytes| <= out.capacity
    {
      IntsUnfold(s, i, tail);
      :- Emit(out, EncodeInt(s[i]), EncodeInts(s[i + 1..]) + tail, goal);
      i := i + 1;
    }
    assert [] + tail == tail;
    return Done;
  }

  method EmitChain(out: DataOutput, c: Chain, ghost tail: Bytes, ghost goal: Bytes) returns (o: Outcome)
    requires Remaining(out, EncodeChain(c) + tail, goal)
    modifies out
    ensures o.Done? ==> Remaining(out, tail, goal) && |out.bytes| <= out.capacity
    ensures o.Thrown? ==> |goal| > out.capacity
  {
    Assoc(EncodeInt(|c|), EncodeBlobs(c), tail);
    assert c[0..] == c;
    :- Emit(out, EncodeInt(|c|), EncodeBlobs(c[0..]) + tail, goal);
    var i := 0;
    while i < |c|
      invariant 0 <= i <= |c|
      invariant Remaining(out, EncodeBlobs(c[i..]) + tail, goal) && |out.bytes| <= out.capacity
    {
      BlobsUnfold(c, i, tail);
      :- EmitBlob(out, c[i], EncodeBlobs(c[i + 1..]) + tail, goal);
      i := i + 1;
    }
    assert [] + tail == tail;
    return Done;
  }

  method EmitNullable<T>(out: DataOutput, v: Option<T>, encode: T -> Bytes, ghost tail: Bytes, ghost goal: Bytes)
    returns (o: Outcome)
    requires Remaining(out, EncodeNullable(v, encode) + tail, goal)
    modifies out
    ensures o.Done? ==> Remaining(out, tail, goal) && |out.bytes| <= out.capacity
    ensures o.Thrown? ==> |goal| > out.capacity
  {
    if v.Some? {
      Assoc(EncodeBool(true), encode(v.value), tail);
      :- Emit(out, EncodeBool(true), encode(v.value) + tail, goal);
      :- Emit(out, encode(v.value), tail, goal);
    } else {
      var absent := EncodeBool(false);
      :- Emit(out, absent, tail, goal);
    }
    return Done;
  }

  method WriteIdentity(out: DataOutput, h: Identity) returns (o: Outcome)
    modifies out
    ensures o.Done? <==> UtfFits(h.alias) && |old(out.bytes)| + |EncodeIdentity(h)| <= out.capacity
    ensures o.Done? ==> out.bytes == old(out.bytes) + EncodeIdentity(h)
  {
    ghost var f5 := EncodeLong(h.nspace) + EncodeInt(h.domain);
    ghost var f4 := EncodeBool(h.skipLeafHack) + f5;
    ghost var f3 := EncodeInt(h.securityLevel) + f4;
    ghost var f2 := if UtfFits(h.alias) then EncodeUtf(h.alias) + f3 else f3;
    ghost var goal := out.bytes + ([FORMAT_VERSION] + (EncodeInt(h.uid) + f2));
    :- Emit(out, [FORMAT_VERSION], EncodeInt(h.uid) + f2, goal);
    :- Emit(out, EncodeInt(h.uid), f2, goal);
    if UtfFits(h.alias) { Assoc(out.bytes, EncodeUtf(h.alias), f3); }
    :- out.WriteUtf(h.alias);
    :- Emit(out, EncodeInt(h.securityLevel), f4, goal);
    :- Emit(out, EncodeBool(h.skipLeafHack), f5, goal);
    :- Emit(out, EncodeLong(h.nspace), EncodeInt(h.domain), goal);
    Last(EncodeInt(h.domain), goal);
    :- Emit(out, EncodeInt(h.domain), [], goal);
    Last(out.bytes, goal);
    return Done;
  }

  lemma Last(b: Bytes, goal: Bytes)
    ensures b + [] == b && goal + [] == goal
  {
  }

  method WriteMaterial(out: DataOutput, m: Material) returns (o: Outcome)
    modifies out
    ensures o.Done? <==> SecretFits(m.secretKey) && |old(out.bytes)| + |EncodeMaterial(m)| <= out.capacity
    ensures o.Done? ==> out.bytes == old(out.bytes) + EncodeMaterial(m)
  {
    ghost var f3 := EncodeNullable(m.metadata, EncodeBlob);
    ghost var f2 := EncodeChain(m.chain) + f3;
    ghost var f1 := if SecretFits(m.secretKey) then EncodeSecret(m.secretKey) + f2 else f2;
    ghost var goal := out.bytes + (EncodeNullable(m.keyPair, EncodeKeyPair) + f1);
    if m.keyPair.Some? {
      var p := m.keyPair.value;
      Assoc(EncodeBool(true), EncodeKeyPair(p), f1);
      :- Emit(out, EncodeBool(true), EncodeKeyPair(p) + f1, goal);
      Assoc(EncodeBlob(p.privateKey), EncodeBlob(p.publicKey), f1);
      :- EmitBlob(out, p.privateKey, EncodeBlob(p.publicKey) + f1, goal);
      :- EmitBlob(out, p.publicKey, f1, goal);
    } else {
      var absent := EncodeBool(false);
      :- Emit(out, absent, f1, goal);
    }
    :- WriteSecret(out, m.secretKey, f2, goal);
    :- EmitChain(out, m.chain, f3, goal);
    Last(f3, goal);
    :- EmitNullable(out, m.metadata, EncodeBlob, [], goal);
    Last(out.bytes, goal);
    return Done;
  }

  method WriteSecret(out: DataOutput, k: Option<SecretKey>, ghost tail: Bytes, ghost goal: Bytes)
    returns (o: Outcome)
    requires Remaining(out, if SecretFits(k) then EncodeSecret(k) + tail else tail, goal)
    modifies out
    ensures o.Done? ==> SecretFits(k) && Remaining(out, tail, goal) && |out.bytes| <= out.capacity
    ensures o.Thrown? ==> !SecretFits(k) || |goal| > out.capacity
  {
    if k.Some? && SecretFits(k) {
      ghost var body := EncodeUtf(k.value.algorithm) + EncodeBlob(k.value.encoded);
      Assoc(EncodeBool(true), body, tail);
      :- Emit(out, EncodeBool(true), body + tail, goal);
      Assoc(EncodeUtf(k.value.algorithm), EncodeBlob(k.value.encoded), tail);
      Assoc(out.bytes, EncodeUtf(k.value.algorithm), EncodeBlob(k.value.encoded) + tail);
      :- out.WriteUtf(k.value.algorithm);
      :- EmitBlob(out, k.value.encoded, tail, goal);
      return Done;
    } else if k.Some? {
      var present := EncodeBool(true);
      :- out.Write(present);
      o := out.WriteUtf(k.value.algorithm);
    } else {
      o := Emit(out, EncodeBool(false), tail, goal);
    }
  }

  method WriteShape(out: DataOutput, p: Shape) returns (o: Outcome)
    modifies out
    ensures o.Done? <==> |old(out.bytes)| + |EncodeShape(p)| <= out.capacity
    ensures o.Done? ==> out.bytes == old(out.bytes) + EncodeShape(p)
  {
    ghost var goal := out.bytes + EncodeShape(p);
    ghost var f8 := EncodeInt(p.usageCountLimit);
    ghost var f7 := EncodeIntList(p.mgfDigest) + f8;
    ghost var f6 := EncodeIntList(p.blockMode) + f7;
    ghost var f5 := EncodeIntList(p.padding) + f6;
    ghost var f4 := EncodeIntList(p.digest) + f5;
    ghost var f3 := EncodeIntList(p.purpose) + f4;
    ghost var f2 := EncodeInt(p.ecCurve) + f3;
    :- Emit(out, EncodeInt(p.algorithm), EncodeInt(p.keySize) + f2, goal);
    :- Emit(out, EncodeInt(p.keySize), f2, goal);
    :- Emit(out, EncodeInt(p.ecCurve), f3, goal);
    :- EmitIntList(out, p.purpose, f4, goal);
    :- EmitIntList(out, p.digest, f5, goal);
    :- EmitIntList(out, p.padding, f6, goal);
    :- EmitIntList(out, p.blockMode, f7, goal);
    :- EmitIntList(out, p.mgfDigest, f8, goal);
    Last(f8, goal);
    :- Emit(out, EncodeInt(p.usageCountLimit), [], goal);
    Last(out.bytes, goal);
    return Done;
  }

  method WriteLimits(out: DataOutput, p: Limits) returns (o: Outcome)
    modifies out
    ensures o.Done? <==> ExponentFits(p.rsaPublicExponent) && |old(out.bytes)| + |EncodeLimits(p)| <= out.capacity
    ensures o.Done? ==> out.bytes == old(out.bytes) + EncodeLimits(p)
  {
    ghost var f7 := if ExponentFits(p.rsaPublicExponent) then EncodeExponent(p.rsaPublicExponent) else [];
    ghost var f6 := EncodeNullable(p.origin, EncodeInt) + f7;
    ghost var f5 := EncodeNullable(p.noAuthRequired, EncodeBool) + f6;
    ghost var f4 := EncodeNullable(p.usageExpireDateTime, EncodeLong) + f5;
    ghost var f3 := EncodeNullable(p.originationExpireDateTime, EncodeLong) + f4;
    ghost var f2 := EncodeNullable(p.activeDateTime, EncodeLong) + f3;
    ghost var f1 := EncodeNullable(p.unlockedDeviceRequired, EncodeBool) + f2;
    ghost var goal := out.bytes + (EncodeNullable(p.callerNonce, EncodeBool) + f1);
    :- EmitNullable(out, p.callerNonce, EncodeBool, f1, goal);
    :- EmitNullable(out, p.unlockedDeviceRequired, EncodeBool, f2, goal);
    :- EmitNullable(out, p.activeDateTime, EncodeLong, f3, goal);
    :- EmitNullable(out, p.originationExpireDateTime, EncodeLong, f4, goal);
    :- EmitNullable(out, p.usageExpireDateTime, EncodeLong, f5, goal);
    :- EmitNullable(out, p.noAuthRequired, EncodeBool, f6, goal);
    :- EmitNullable(out, p.origin, EncodeInt, f7, goal);
    :- WriteExponent(out, p.rsaPublicExponent, goal);
    return Done;
  }

  method WriteExponent(out: DataOutput, e: Option<int>, ghost goal: Bytes) returns (o: Outcome)
    requires Remaining(out, if ExponentFits(e) then EncodeExponent(e) else [], goal)
    modifies out
    ensures o.Done? ==> ExponentFits(e) && out.bytes == goal && |goal| <= out.capacity
    ensures o.Thrown? ==> !ExponentFits(e) || |goal| > out.capacity
  {
    if e.Some? {
      var magnitude := ToTwosComplement(e.value);
      if |magnitude| >= 0x8000_0000 {
        return Thrown;
      }
      Last(EncodeBlob(magnitude), goal);
      :- Emit(out, EncodeBool(true), EncodeBlob(magnitude), goal);
      :- EmitBlob(out, magnitude, [], goal);
    } else {
      Last(EncodeBool(false), goal);
      :- Emit(out, EncodeBool(false), [], goal);
    }
    Last(out.bytes, goal);
    return Done;
  }

  /** A record's bytes are its four groups, whether appended one by one or built at once. */
  lemma RecordGroups(start: Bytes, r: Record)
    requires Encodable(r)
    ensures var a, b := EncodeIdentity(IdentityOf(r)), EncodeMaterial(MaterialOf(r));
            var c, d := EncodeShape(ShapeOf(r.params)), EncodeLimits(LimitsOf(r.params));
            start + a + b + c + d == start + EncodeRecord(r)
  {
    var a, b := EncodeIdentity(IdentityOf(r)), EncodeMaterial(MaterialOf(r));
    var c, d := EncodeShape(ShapeOf(r.params)), EncodeLimits(LimitsOf(r.params));
    Assoc(start, a, b + (c + d));
    Assoc(start + a, b, c + d);
    Assoc(start + a + b, c, d);
  }

  /** The body of the `use` block in saveKeySync. */
  method WriteRecord(out: DataOutput, r: Record) returns (o: Outcome)
    modifies out
    ensures o.Done? <==> Encodable(r) && |old(out.bytes)| + |EncodeRecord(r)| <= out.capacity
    ensures o.Done? ==> out.bytes == old(out.bytes) + EncodeRecord(r)
  {
    if Encodable(r) { RecordGroups(out.bytes, r); }
    :- WriteIdentity(out, IdentityOf(r));
    :- WriteMaterial(out, MaterialOf(r));
    :- WriteShape(out, ShapeOf(r.params));
    :- WriteLimits(out, LimitsOf(r.params));
    return Done;
  }

  // ---- reading one record, field by field ----

  /** DataInputStream: the bytes not yet read. A read that throws returns None. */
  class DataInput {
    var remaining: Bytes

    constructor (data: Bytes)
      ensures remaining == data
    {
      remaining := data;
    }

    method Read<T>(decode: Bytes -> Parsed<T>) returns (v: Option<T>)
      modifies this
      ensures match decode(old(remaining))
              case Failed => v.None?
              case Parsed(value, rest) => v == Some(value) && remaining == rest
    {
      match decode(remaining)
      case Failed => v := None;
      case Parsed(value, rest) =>
        remaining := rest;
        v := Some(value);
    }

    /** `(1..n).map { ins.readInt() }` */
    method ReadInts(n: nat) returns (v: Option<seq<Int32>>)
      modifies this
      ensures match DecodeInts(n, old(remaining))
              case Failed => v.None?
              case Parsed(value, rest) => v == Some(value) && remaining == rest
    {
      ghost var whole := DecodeInts(n, remaining);
      var items: seq<Int32> := [];
      PrependNil(whole);
      while |items| < n
        invariant |items| <= n
        invariant whole == Prepend(items, DecodeInts(n - |items|, remaining))
      {
        IntsStep(n, items, remaining);
        var item :- Read(DecodeInt);
        items := items + [item];
      }
      assert items + [] == items;
      return Some(items);
    }

    /** The next item of a list of `n`. */
    method ReadBlob(ghost n: nat, ghost items: seq<Blob>) returns (item: Option<Blob>)
      requires |items| < n
      modifies this
      ensures var rest := Prepend(items, DecodeBlobs(n - |items|, old(remaining)));
              if item.None? then rest == Failed
              else rest == Prepend(items + [item.value], DecodeBlobs(n - |items| - 1, remaining))
    {
      BlobsStep(n, items, remaining);
      item := Read(DecodeBlob);
    }

    /** The certificate blobs of a chain of the given size. */
    method ReadBlobs(n: nat) returns (v: Option<seq<Blob>>)
      modifies this
      ensures match DecodeBlobs(n, old(remaining))
              case Failed => v.None?
              case Parsed(value, rest) => v == Some(value) && remaining == rest
    {
      ghost var whole := DecodeBlobs(n, remaining);
      var items: seq<Blob> := [];
      PrependNil(whole);
      while |items| < n
        invariant |items| <= n
        invariant whole == Prepend(items, DecodeBlobs(n - |items|, remaining))
      {
        var item :- ReadBlob(n, items);
        items := items + [item];
      }
      assert items + [] == items;
      return Some(items);
    }

    method ReadIntList() returns (v: Option<IntList>)
      modifies this
      ensures match DecodeIntList(old(remaining))
              case Failed => v.None?
              case Parsed(value, rest) => v == Some(value) && remaining == rest
    {
      var n :- Read(DecodeInt);
      var items :- ReadInts(if n < 0 then 0 else n);
      return Some(items);
    }

    method ReadChain() returns (v: Option<Chain>)
      modifies this
      ensures match DecodeChain(old(remaining))
              case Failed => v.None?
              case Parsed(value, rest) => v == Some(value) && remaining == rest
    {
      var n :- Read(DecodeInt);
      var items :- ReadBlobs(if n < 0 then 0 else n);
      return Some(items);
    }
  }

  /** A list read whose first elements are already known. */
  ghost function Prepend<T>(front: seq<T>, p: Parsed<seq<T>>): Parsed<seq<T>> {
    if p.Failed? then Failed else Parsed(front + p.value, p.rest)
  }

  lemma PrependNil<T>(p: Parsed<seq<T>>)
    ensures Prepend([], p) == p
  {
    if p.Parsed? { assert [] + p.value == p.value; }
  }

  lemma BlobsStep(count: nat, done: seq<Blob>, s: Bytes)
    requires |done| < count
    ensures match DecodeBlob(s)
            case Failed => Prepend(done, DecodeBlobs(count - |done|, s)) == Failed
            case Parsed(b, rest) =>
              Prepend(done, DecodeBlobs(count - |done|, s)) == Prepend(done + [b], DecodeBlobs(count - |done| - 1, rest))
  {
    match DecodeBlob(s)
    case Failed =>
    case Parsed(b, rest) => PrependStep(done, b, DecodeBlobs(count - |done| - 1, rest));
  }

  lemma IntsStep(count: nat, done: seq<Int32>, s: Bytes)
    requires |done| < count
    ensures match DecodeInt(s)
            case Failed => Prepend(done, DecodeInts(count - |done|, s)) == Failed
            case Parsed(x, rest) =>
              Prepend(done, DecodeInts(count - |done|, s)) == Prepend(done + [x], DecodeInts(count - |done| - 1, rest))
  {
    match DecodeInt(s)
    case Failed =>
    case Parsed(x, rest) => PrependStep(done, x, DecodeInts(count - |done| - 1, rest));
  }

  lemma PrependStep<T>(front: seq<T>, item: T, p: Parsed<seq<T>>)
    ensures Prepend(front + [item], p) == Prepend(front, Prepend([item], p))
  {
    if p.Parsed? { assert (front + [item]) + p.value == front + ([item] + p.value); }
  }

  method ReadIdentity(ins: DataInput) returns (v: Option<Identity>)
    modifies ins
    ensures match DecodeIdentity(old(ins.remaining))
            case Failed => v.None?
            case Parsed(value, rest) => v == Some(value) && ins.remaining == rest
  {
    if |ins.remaining| < 1 || ins.remaining[0] != FORMAT_VERSION {
      return None;
    }
    ins.remaining := ins.remaining[1..];
    var uid :- ins.Read(DecodeInt);
    var alias :- ins.Read(DecodeUtf);
    var securityLevel :- ins.Read(DecodeInt);
    var skipLeafHack :- ins.Read(DecodeBool);
    var nspace :- ins.Read(DecodeLong);
    var domain :- ins.Read(DecodeInt);
    return Some(Identity(uid, alias, securityLevel, skipLeafHack, nspace, domain));
  }

  method ReadMaterial(ins: DataInput) returns (v: Option<Material>)
    modifies ins
    ensures match DecodeMaterial(old(ins.remaining))
            case Failed => v.None?
            case Parsed(value, rest) => v == Some(value) && ins.remaining == rest
  {
    var keyPair: Option<KeyPair> := None;
    var hasPair :- ins.Read(DecodeBool);
    if hasPair {
      var privateKey :- ins.Read(DecodeBlob);
      var publicKey :- ins.Read(DecodeBlob);
      keyPair := Some(KeyPair(privateKey, publicKey));
    }
    var secretKey: Option<SecretKey> := None;
    var hasSecret :- ins.Read(DecodeBool);
    if hasSecret {
      var algorithm :- ins.Read(DecodeUtf);
      var encoded :- ins.Read(DecodeBlob);
      secretKey := Some(SecretKey(algorithm, encoded));
    }
    var chain :- ins.ReadChain();
    var metadata :- ins.Read(s => DecodeNullable(s, DecodeBlob));
    return Some(Material(keyPair, secretKey, chain, metadata));
  }

  method ReadShape(ins: DataInput) returns (v: Option<Shape>)
    modifies ins
    ensures match DecodeShape(old(ins.remaining))
            case Failed => v.None?
            case Parsed(value, rest) => v == Some(value) && ins.remaining == rest
  {
    var algorithm :- ins.Read(DecodeInt);
    var keySize :- ins.Read(DecodeInt);
    var ecCurve :- ins.Read(DecodeInt);
    var purpose :- ins.ReadIntList();
    var digest :- ins.ReadIntList();
    var padding :- ins.ReadIntList();
    var blockMode :- ins.ReadIntList();
    var mgfDigest :- ins.ReadIntList();
    var usageCountLimit :- ins.Read(DecodeInt);
    return Some(Shape(algorithm, keySize, ecCurve, purpose, digest, padding, blockMode, mgfDigest, usageCountLimit));
  }

  method ReadLimits(ins: DataInput) returns (v: Option<Limits>)
    modifies ins
    ensures match DecodeLimits(old(ins.remaining))
            case Failed => v.None?
            case Parsed(value, rest) => v == Some(value) && ins.remaining == rest
  {
    var callerNonce :- ins.Read(s => DecodeNullable(s, DecodeBool));
    var unlockedDeviceRequired :- ins.Read(s => DecodeNullable(s, DecodeBool));
    var activeDateTime :- ins.Read(s => DecodeNullable(s, DecodeLong));
    var originationExpireDateTime :- ins.Read(s => DecodeNullable(s, DecodeLong));
    var usageExpireDateTime :- ins.Read(s => DecodeNullable(s, DecodeLong));
    var noAuthRequired :- ins.Read(s => DecodeNullable(s, DecodeBool));
    var origin :- ins.Read(s => DecodeNullable(s, DecodeInt));
    var rsaPublicExponent :- ins.Read(s => DecodeNullable(s, DecodeBigInteger));
    return Some(Limits(callerNonce, unlockedDeviceRequired, activeDateTime, originationExpireDateTime,
                       usageExpireDateTime, noAuthRequired, origin, rsaPublicExponent));
  }

  method ReadRecord(ins: DataInput) returns (v: Option<Record>)
    modifies ins
    ensures match DecodeRecord(old(ins.remaining))
            case Failed => v.None?
            case Parsed(value, rest) => v == Some(value) && ins.remaining == rest
  {
    var identity :- ReadIdentity(ins);
    var material :- ReadMaterial(ins);
    var shape :- ReadShape(ins);
    var limits :- ReadLimits(ins);
    return Some(Assemble(identity, material, shape, limits));
  }

  // ---- the key directory ----

  /** The record a file's bytes yield; bytes after the record are ignored. */
  function Stored(bytes: Bytes): Option<Record> {
    match DecodeRecord(bytes)
    case Failed => None
    case Parsed(r, rest) => Some(r)
  }

  function KeyOf(r: Record): Key {
    Key(r.uid, r.alias)
  }

  /** The records loadAll returns for files visited in the given order. */
  function Records(files: map<Key, Bytes>, order: seq<Key>): seq<Record> {
    if order == [] then []
    else
      var tail := Records(files, order[1..]);
      if order[0] in files && Stored(files[order[0]]).Some?
      then [Stored(files[order[0]]).value] + tail
      else tail
  }

  /**
   The directory of key files. A file is named by the digest of the alias within the uid's
   directory; with digests that do not collide, the key itself names the file. Files being
   written live under a separate `.tmp` name that `loadAll` never reads.
   */
  class KeyFiles {
    var files: map<Key, Bytes>
    var temporary: map<Key, Bytes>

    constructor (files: map<Key, Bytes>)
      ensures this.files == files && temporary == map[]
    {
      this.files := files;
      temporary := map[];
    }

    /**
     Writes a record to a temporary file with room for `capacity` bytes and renames it. An
     exception while writing leaves every `.bin` file as it was. Where renaming fails the bytes
     are copied: none if the target cannot be opened, else as many as there is room for.
     */
    method SaveKeySync(r: Record, capacity: nat, renames: bool, copied: Option<nat>)
      modifies this
      ensures files == if !Encodable(r) || |EncodeRecord(r)| > capacity || (!renames && copied.None?) then old(files)
                       else if renames || copied.value >= |EncodeRecord(r)| then old(files)[KeyOf(r) := EncodeRecord(r)]
                       else old(files)[KeyOf(r) := EncodeRecord(r)[..copied.value]]
    {
      var out := new DataOutput(capacity);
      var outcome := WriteRecord(out, r);
      if outcome.Done? {
        assert [] + EncodeRecord(r) == EncodeRecord(r);
        if renames || (copied.Some? && copied.value >= |out.bytes|) {
          files := files[KeyOf(r) := out.bytes];
          temporary := temporary - {KeyOf(r)};
        } else {
          if copied.Some? { files := files[KeyOf(r) := out.bytes[..copied.value]]; }
          temporary := temporary[KeyOf(r) := out.bytes];
        }
      } else {
        temporary := temporary[KeyOf(r) := out.bytes];
      }
    }

    /** Reads every file, in the order the directory walk visits them, skipping unreadable ones. */
    method LoadAll(order: seq<Key>) returns (result: seq<Record>)
      requires forall k :: k in order ==> k in files
      ensures result == Records(files, order)
    {
      result := [];
      var i := 0;
      while i < |order|
        invariant 0 <= i <= |order|
        invariant result + Records(files, order[i..]) == Records(files, order)
      {
        var ins := new DataInput(files[order[i]]);
        var r := ReadRecord(ins);
        assert order[i..][1..] == order[i + 1..];
        if r.Some? {
          assert (result + [r.value]) + Records(files, order[i + 1..])
              == result + ([r.value] + Records(files, order[i + 1..]));
          result := result + [r.value];
        }
        i := i + 1;
      }
      assert result + [] == result;
    }
  }

  /** A saved file is read back as exactly the record written. */
  lemma SavedIsLoaded(r: Record)
    requires Encodable(r)
    ensures Stored(EncodeRecord(r)) == Some(r)
  {
    RecordRoundTrip(r, []);
    assert EncodeRecord(r) + [] == EncodeRecord(r);
  }
}
