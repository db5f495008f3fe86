/** The kernel's layout of what the hook reads: how a command carries its size, and where a transaction's fields are. */
module BinderLayout {
  import opened Common
  import opened BinderStream
  import Wire = InterceptorWire

  /** _IOC: direction, size, type and number, from the highest bits down. */
  function Ioc(direction: nat, kind: nat, number: nat, size: nat): nat {
    direction * 0x4000_0000 + size * 0x1_0000 + kind * 0x100 + number
  }

  const IOC_READ := 2

  /** Every command the kernel encodes carries the size the walk takes from it, and two of them a transaction. */
  lemma CommandsAreRead(direction: nat, kind: nat, number: nat, size: nat)
    requires direction < 4 && kind < 0x100 && number < 0x100 && size < 0x4000
    ensures Ioc(direction, kind, number, size) < 0x1_0000_0000 && PayloadSize(Ioc(direction, kind, number, size)) == size
    ensures CarriesTransaction(Ioc(direction, kind, number, size))
            <==> direction == IOC_READ && kind == 'r' as int && number == 2 && size in {64, 72}
  {
    var low := kind * 0x100 + number;
    assert Ioc(direction, kind, number, size) == (direction * 0x4000 + size) * 0x1_0000 + low && 0 <= low < 0x1_0000;
    HighPart(direction * 0x4000 + size, low);
    HighPart(direction, size);
  }

  lemma HighPart(high: nat, low: nat)
    ensures low < 0x1_0000 ==> (high * 0x1_0000 + low) / 0x1_0000 == high
    ensures low < 0x4000 ==> (high * 0x4000 + low) % 0x4000 == low
  {
  }

  /** binder_transaction_data as the kernel declares it. */
  datatype Raw = Raw(ptr: UInt64, cookie: UInt64, code: UInt32, flags: UInt32, senderPid: UInt32, senderEuid: UInt32,
                     dataSize: UInt64, offsetsSize: UInt64, buffer: UInt64, offsets: UInt64)

  function RawBytes(r: Raw): (s: Bytes)
    ensures |s| == TRANSACTION_BYTES
  {
    LittleEndian64(r.ptr) + (LittleEndian64(r.cookie) + (LittleEndian32(r.code) + (LittleEndian32(r.flags)
    + (LittleEndian32(r.senderPid) + (LittleEndian32(r.senderEuid) + (LittleEndian64(r.dataSize)
    + (LittleEndian64(r.offsetsSize) + (LittleEndian64(r.buffer) + LittleEndian64(r.offsets)))))))))
  }

  /** The hook reads the target's two addresses, the code and the sender's uid from where the kernel puts them. */
  lemma TransactionIsRead(r: Raw)
    ensures TransactionAt(RawBytes(r), 0) == Transaction(r.ptr, r.cookie, r.code, r.senderEuid)
  {
    var s := RawBytes(r);
    var ptr, cookie, code, flags := LittleEndian64(r.ptr), LittleEndian64(r.cookie), LittleEndian32(r.code), LittleEndian32(r.flags);
    var pid, euid := LittleEndian32(r.senderPid), LittleEndian32(r.senderEuid);
    var rest := LittleEndian64(r.dataSize) + (LittleEndian64(r.offsetsSize) + (LittleEndian64(r.buffer) + LittleEndian64(r.offsets)));
    assert Wire.At(s, 0, s) && s == ptr + (cookie + (code + (flags + (pid + (euid + rest)))));
    Wire.AtBoth(s, 0, ptr, cookie + (code + (flags + (pid + (euid + rest)))));
    Wire.AtBoth(s, 8, cookie, code + (flags + (pid + (euid + rest))));
    Wire.AtBoth(s, 16, code, flags + (pid + (euid + rest)));
    Wire.AtBoth(s, 20, flags, pid + (euid + rest));
    Wire.AtBoth(s, 24, pid, euid + rest);
    Wire.AtBoth(s, 28, euid, rest);
    Wire.DoubleWordAt(s, 0, ptr);
    Wire.DoubleWordAt(s, 8, cookie);
    Wire.WordAt(s, 16, code);
    Wire.WordAt(s, 28, euid);
  }
}
