/** Parcels: little-endian fields behind a cursor, as both sides of the hook write and read them. */
module Parcels {
  import opened Common
  import opened BinderStream

  function Unsigned(x: Int32): UInt32 {
    if x < 0 then x + 0x1_0000_0000 else x
  }

  /** Kotlin's Int on the same 32 bits. */
  function Signed(x: UInt32): (r: Int32)
    ensures Unsigned(r) == x
  {
    if x >= 0x8000_0000 then x - 0x1_0000_0000 else x
  }

  function Int32Bytes(x: Int32): (s: Bytes)
    ensures |s| == 4 && Signed(Word(s, 0)) == x
  {
    LittleEndian32(Unsigned(x))
  }

  const TOKEN_BYTES := 28

  /** A strong binder takes 28 bytes; here they carry its identity. */
  function Token(binder: UInt64): (s: Bytes)
    ensures |s| == TOKEN_BYTES && DoubleWord(s, 0) == binder
  {
    assert (LittleEndian64(binder) + TOKEN_REST)[0..8] == LittleEndian64(binder)[0..8];
    LittleEndian64(binder) + TOKEN_REST
  }

  const TOKEN_REST: Bytes := [0, 0, 0, 0, 0, 0, 0, 0, 0, 0, 0, 0, 0, 0, 0, 0, 0, 0, 0, 0]

  /** Writing at a cursor overwrites what is there and extends the parcel past its end. */
  function Put(data: Bytes, at: nat, bytes: Bytes): Bytes
    requires at <= |data|
  {
    data[..at] + bytes + (if at + |bytes| <= |data| then data[at + |bytes|..] else [])
  }

  lemma PutAtEnd(data: Bytes, bytes: Bytes)
    ensures Put(data, |data|, bytes) == data + bytes
  {
  }

  /** A read returns what it found and the next position; past the end it fails and leaves the cursor. */
  function Int32From(data: Bytes, at: nat): (Option<Int32>, nat) {
    if at + 4 > |data| then (None, at) else (Some(Signed(Word(data, at))), at + 4)
  }

  function Uint64From(data: Bytes, at: nat): (Option<UInt64>, nat) {
    if at + 8 > |data| then (None, at) else (Some(DoubleWord(data, at)), at + 8)
  }

  function BinderFrom(data: Bytes, at: nat): (Option<UInt64>, nat) {
    if at + TOKEN_BYTES > |data| then (None, at) else (Some(DoubleWord(data, at)), at + TOKEN_BYTES)
  }

  /** The bytes appendFrom takes from a parcel. */
  function Slice(data: Bytes, at: nat, length: int): Option<Bytes> {
    if 0 <= length < 0x8000_0000 && at + length <= |data| then Some(data[at..at + length]) else None
  }

  class Parcel {
    var data: Bytes
    var position: nat

    ghost predicate Valid()
      reads this
    {
      position <= |data|
    }

    /** A parcel being filled from its start. */
    ghost predicate Holds(bytes: Bytes)
      reads this
    {
      data == bytes && position == |bytes|
    }

    constructor ()
      ensures Valid() && Holds([])
    {
      data, position := [], 0;
    }

    method Write(bytes: Bytes)
      requires Valid()
      modifies this
      ensures Valid() && data == Put(old(data), old(position), bytes) && position == old(position) + |bytes|
      ensures old(position) == |old(data)| ==> Holds(old(data) + bytes)
    {
      if position == |data| { PutAtEnd(data, bytes); }
      data := Put(data, position, bytes);
      position := position + |bytes|;
    }

    /** appendFrom: fails, changing nothing, unless the bytes are there and fewer than 2^31. */
    method AppendFrom(source: Parcel, offset: nat, length: int) returns (ok: bool)
      requires Valid() && source != this
      modifies this
      ensures Valid() && ok == Slice(source.data, offset, length).Some?
      ensures !ok ==> data == old(data) && position == old(position)
      ensures ok ==>
                && data == Put(old(data), old(position), Slice(source.data, offset, length).value)
                && position == old(position) + length
      ensures ok && old(Holds([])) ==> Holds(Slice(source.data, offset, length).value)
    {
      var bytes := Slice(source.data, offset, length);
      if bytes.None? { return false; }
      Write(bytes.value);
      return true;
    }

    method ReadInt32() returns (v: Option<Int32>)
      requires Valid()
      modifies this`position
      ensures Valid() && (v, position) == Int32From(data, old(position))
    {
      if position + 4 > |data| { return None; }
      v := Some(Signed(Word(data, position)));
      position := position + 4;
    }

    method ReadUint64() returns (v: Option<UInt64>)
      requires Valid()
      modifies this`position
      ensures Valid() && (v, position) == Uint64From(data, old(position))
    {
      if position + 8 > |data| { return None; }
      v := Some(DoubleWord(data, position));
      position := position + 8;
    }

    method ReadStrongBinder() returns (v: Option<UInt64>)
      requires Valid()
      modifies this`position
      ensures Valid() && (v, position) == BinderFrom(data, old(position))
    {
      if position + TOKEN_BYTES > |data| { return None; }
      v := Some(DoubleWord(data, position));
      position := position + TOKEN_BYTES;
    }

    method SetDataPosition(at: nat)
      requires at <= |data|
      modifies this`position
      ensures Valid() && position == at
    {
      position := at;
    }

    method FreeData()
      modifies this
      ensures Valid() && Holds([])
    {
      data, position := [], 0;
    }
  }
}
