/**
 The native hook on the binder read buffer: a walk over length-framed commands that redirects
 some transactions to the stub, in place, and queues what they originally asked for.
 */
module BinderStream {
  import opened Common

  // ---- the 64-bit binder layout ----

  const HEADER := 4
  const TRANSACTION_BYTES := 64
  const BR_TRANSACTION: UInt32 := 0x8040_7202
  const BR_TRANSACTION_SEC_CTX: UInt32 := 0x8048_7202
  const BACKDOOR_CODE: UInt32 := 0xdead_beef
  const MAX_USER_CODE: UInt32 := 0x00ff_ffff

  /** _IOC_SIZE: fourteen bits above the low sixteen. */
  function PayloadSize(command: UInt32): (n: nat)
    ensures CarriesTransaction(command) ==> n >= TRANSACTION_BYTES
  {
    command / 0x1_0000 % 0x4000
  }

  predicate CarriesTransaction(command: UInt32) {
    command == BR_TRANSACTION || command == BR_TRANSACTION_SEC_CTX
  }

  /** The little-endian number some bytes stand for, and back. */
  function Number(s: Bytes): nat {
    if s == [] then 0 else s[0] + 0x100 * Number(s[1..])
  }

  function Digits(x: nat, n: nat): (s: Bytes)
    ensures |s| == n
  {
    if n == 0 then [] else [x % 0x100] + Digits(x / 0x100, n - 1)
  }

  function Bound(n: nat): nat {
    if n == 0 then 1 else 0x100 * Bound(n - 1)
  }

  lemma {:induction false} NumberBelow(s: Bytes)
    ensures Number(s) < Bound(|s|)
  {
    if s != [] { NumberBelow(s[1..]); }
  }

  lemma {:induction false} DigitsRoundTrip(x: nat, n: nat)
    requires x < Bound(n)
    ensures Number(Digits(x, n)) == x
  {
    if n > 0 {
      DigitsRoundTrip(x / 0x100, n - 1);
      assert Digits(x, n)[1..] == Digits(x / 0x100, n - 1);
    }
  }

  lemma Bounds()
    ensures Bound(4) == 0x1_0000_0000 && Bound(8) == 0x1_0000_0000_0000_0000
  {
    assert Bound(1) == 0x100 && Bound(2) == 0x1_0000;
    assert Bound(5) == 0x100 * Bound(4) && Bound(6) == 0x100 * Bound(5);
  }

  /** The 32-bit and 64-bit numbers at an offset. */
  function Word(s: Bytes, o: nat): UInt32
    requires o + 4 <= |s|
  {
    Bounds();
    NumberBelow(s[o..o + 4]);
    Number(s[o..o + 4])
  }

  function DoubleWord(s: Bytes, o: nat): UInt64
    requires o + 8 <= |s|
  {
    Bounds();
    NumberBelow(s[o..o + 8]);
    Number(s[o..o + 8])
  }

  function LittleEndian32(x: UInt32): (s: Bytes)
    ensures |s| == 4 && Word(s, 0) == x
  {
    Bounds();
    DigitsRoundTrip(x, 4);
    assert Digits(x, 4)[0..4] == Digits(x, 4);
    Digits(x, 4)
  }

  function LittleEndian64(x: UInt64): (s: Bytes)
    ensures |s| == 8 && DoubleWord(s, 0) == x
  {
    Bounds();
    DigitsRoundTrip(x, 8);
    assert Digits(x, 8)[0..8] == Digits(x, 8);
    Digits(x, 8)
  }

  /** The fields of binder_transaction_data the hook reads. */
  datatype Transaction = Transaction(ptr: UInt64, cookie: UInt64, code: UInt32, euid: UInt32)

  function TransactionAt(s: Bytes, o: nat): Transaction
    requires o + TRANSACTION_BYTES <= |s|
  {
    Transaction(DoubleWord(s, o), DoubleWord(s, o + 8), Word(s, o + 16), Word(s, o + 28))
  }

  // ---- which transactions are redirected ----

  /** What a redirected transaction asked for: no target means the backdoor. */
  datatype Origin = Origin(code: UInt32, target: Option<UInt64>)

  /** The stub's addresses, the registered targets with their code lists, and the targets that can be referenced. */
  datatype Hooked = Hooked(stubPtr: UInt64, stubCookie: UInt64, registry: map<UInt64, seq<UInt32>>, live: set<UInt64>)

  /** shouldInterceptTransaction: an empty code list means every code. */
  predicate ShouldIntercept(h: Hooked, binder: UInt64, code: UInt32) {
    binder in h.registry && (h.registry[binder] == [] || code in h.registry[binder])
  }

  function OriginOf(h: Hooked, t: Transaction): Option<Origin> {
    if t.ptr == 0 then None
    else if t.code == BACKDOOR_CODE && t.euid == 0 then Some(Origin(BACKDOOR_CODE, None))
    else if t.code > MAX_USER_CODE then None
    else if t.ptr in h.live && ShouldIntercept(h, t.cookie, t.code) then Some(Origin(t.code, Some(t.cookie)))
    else None
  }

  /** The transaction libbinder sees afterwards. */
  function Delivered(h: Hooked, t: Transaction): Transaction {
    if OriginOf(h, t).Some? then t.(ptr := h.stubPtr, cookie := h.stubCookie, code := BACKDOOR_CODE) else t
  }

  // ---- the walk, on values ----

  /** A whole frame starts at `at`. */
  predicate FrameAt(s: Bytes, at: nat) {
    at + HEADER <= |s| && at + HEADER + PayloadSize(Word(s, at)) <= |s|
  }

  function Next(s: Bytes, at: nat): (n: nat)
    requires FrameAt(s, at)
    ensures at < n <= |s|
  {
    at + HEADER + PayloadSize(Word(s, at))
  }

  datatype Frame = Frame(offset: nat, command: UInt32)

  /** The commands of a buffer with their offsets, up to the first incomplete one. */
  function Frames(s: Bytes, at: nat): seq<Frame>
    decreases |s| - at
  {
    if !FrameAt(s, at) then [] else [Frame(at, Word(s, at))] + Frames(s, Next(s, at))
  }

  /** The transaction a frame carries, if any. */
  function TransactionIn(s: Bytes, at: nat): seq<Transaction>
    requires FrameAt(s, at)
  {
    if CarriesTransaction(Word(s, at)) then [TransactionAt(s, at + HEADER)] else []
  }

  /** The transactions of a buffer, in order. */
  function Transactions(s: Bytes, at: nat): seq<Transaction>
    decreases |s| - at
  {
    if !FrameAt(s, at) then [] else TransactionIn(s, at) + Transactions(s, Next(s, at))
  }

  /** The sequence with `bytes` stored at an offset. */
  function Splice(s: Bytes, o: nat, bytes: Bytes): (r: Bytes)
    requires o + |bytes| <= |s|
    ensures |r| == |s|
  {
    s[..o] + bytes + s[o + |bytes|..]
  }

  /** Overwrites target, cookie and code of the transaction at `o`. */
  function Redirect(s: Bytes, o: nat, h: Hooked): (r: Bytes)
    requires o + TRANSACTION_BYTES <= |s|
    ensures |r| == |s|
  {
    Splice(s, o, LittleEndian64(h.stubPtr) + LittleEndian64(h.stubCookie) + LittleEndian32(BACKDOOR_CODE))
  }

  function RewriteTransaction(s: Bytes, o: nat, h: Hooked): (r: Bytes)
    requires o + TRANSACTION_BYTES <= |s|
    ensures |r| == |s|
  {
    if OriginOf(h, TransactionAt(s, o)).Some? then Redirect(s, o, h) else s
  }

  function RewriteFrame(s: Bytes, at: nat, h: Hooked): (r: Bytes)
    requires FrameAt(s, at)
    ensures |r| == |s|
  {
    if CarriesTransaction(Word(s, at)) then RewriteTransaction(s, at + HEADER, h) else s
  }

  function Rewrite(s: Bytes, at: nat, h: Hooked): (r: Bytes)
    ensures |r| == |s|
    decreases |s| - at
  {
    if !FrameAt(s, at) then s else Rewrite(RewriteFrame(s, at, h), Next(s, at), h)
  }

  /** The origins the walk queues. */
  function Origins(h: Hooked, ts: seq<Transaction>): seq<Origin> {
    if ts == [] then []
    else (match OriginOf(h, ts[0]) case Some(o) => [o] case None => []) + Origins(h, ts[1..])
  }

  function DeliveredAll(h: Hooked, ts: seq<Transaction>): seq<Transaction> {
    if ts == [] then [] else [Delivered(h, ts[0])] + DeliveredAll(h, ts[1..])
  }

  // ---- what the walk keeps ----

  /** Two buffers hold the same bytes in a range. */
  ghost predicate Same(s: Bytes, t: Bytes, low: int, high: int) {
    |s| == |t| && forall i {:trigger s[i]} {:trigger t[i]} :: 0 <= i < |s| && low <= i < high ==> s[i] == t[i]
  }

  lemma RedirectChanges(s: Bytes, o: nat, h: Hooked)
    requires o + TRANSACTION_BYTES <= |s|
    ensures var r := Redirect(s, o, h);
            && Same(s, r, 0, o) && Same(s, r, o + 20, |s|)
            && TransactionAt(r, o) == Transaction(h.stubPtr, h.stubCookie, BACKDOOR_CODE, TransactionAt(s, o).euid)
  {
    var r := Redirect(s, o, h);
    var p, c, b := LittleEndian64(h.stubPtr), LittleEndian64(h.stubCookie), LittleEndian32(BACKDOOR_CODE);
    SpliceLayout(s, o, p, c, b);
    assert p == p[0..8] && c == c[0..8] && b == b[0..4];
  }

  lemma SpliceLayout(s: Bytes, o: nat, p: Bytes, c: Bytes, b: Bytes)
    requires o + TRANSACTION_BYTES <= |s| && |p| == 8 && |c| == 8 && |b| == 4
    ensures var r := Splice(s, o, p + c + b);
            && Same(s, r, 0, o) && Same(s, r, o + 20, |s|)
            && r[o..o + 8] == p && r[o + 8..o + 16] == c && r[o + 16..o + 20] == b && r[o + 28..o + 32] == s[o + 28..o + 32]
  {
  }

  /** A redirected frame. */
  lemma RedirectedFrameKept(s: Bytes, at: nat, h: Hooked)
    requires FrameAt(s, at) && CarriesTransaction(Word(s, at)) && OriginOf(h, TransactionAt(s, at + HEADER)).Some?
    ensures var r := Redirect(s, at + HEADER, h);
            && Same(s, r, 0, at + HEADER) && Same(s, r, at + HEADER + 20, |s|)
            && Word(r, at) == Word(s, at) && TransactionAt(r, at + HEADER) == Delivered(h, TransactionAt(s, at + HEADER))
  {
    RedirectChanges(s, at + HEADER, h);
    assert Redirect(s, at + HEADER, h)[at..at + 4] == s[at..at + 4];
  }

  lemma OneDelivered(h: Hooked, t: Transaction)
    ensures DeliveredAll(h, [t]) == [Delivered(h, t)]
  {
  }

  /** Rewriting one frame keeps its header and everything outside its target, cookie and code. */
  lemma FrameKept(s: Bytes, at: nat, h: Hooked)
    requires FrameAt(s, at)
    ensures var r := RewriteFrame(s, at, h);
            && Same(s, r, 0, at + HEADER) && Same(s, r, Next(s, at), |s|) && Same(s, r, at + HEADER + 20, |s|)
            && FrameAt(r, at) && Word(r, at) == Word(s, at) && Next(r, at) == Next(s, at)
            && TransactionIn(r, at) == DeliveredAll(h, TransactionIn(s, at))
  {
    if CarriesTransaction(Word(s, at)) {
      var t := TransactionAt(s, at + HEADER);
      OneDelivered(h, t);
      if OriginOf(h, t).Some? { RedirectedFrameKept(s, at, h); }
    }
  }

  /** Rewriting from a position on keeps every byte before it. */
  lemma {:induction false} PrefixKept(s: Bytes, at: nat, h: Hooked)
    requires at <= |s|
    ensures Same(s, Rewrite(s, at, h), 0, at)
    decreases |s| - at
  {
    if FrameAt(s, at) {
      FrameKept(s, at, h);
      PrefixKept(RewriteFrame(s, at, h), Next(s, at), h);
    }
  }

  /** Buffers with the same bytes in a range agree on the frame that lies in it. */
  lemma SameFrame(s: Bytes, t: Bytes, at: nat, high: nat)
    requires Same(s, t, at, high) && FrameAt(s, at) && Next(s, at) <= high
    ensures FrameAt(t, at) && Word(t, at) == Word(s, at) && Next(t, at) == Next(s, at)
    ensures TransactionIn(t, at) == TransactionIn(s, at)
  {
    assert t[at..at + 4] == s[at..at + 4];
    if CarriesTransaction(Word(s, at)) { SameTransaction(s, t, at, high, at + HEADER); }
  }

  lemma SameTransaction(s: Bytes, t: Bytes, low: nat, high: nat, o: nat)
    requires Same(s, t, low, high) && low <= o && o + TRANSACTION_BYTES <= |s| && o + TRANSACTION_BYTES <= high
    ensures TransactionAt(s, o) == TransactionAt(t, o)
  {
    assert s[o..o + 8] == t[o..o + 8] && s[o + 8..o + 16] == t[o + 8..o + 16];
    assert s[o + 16..o + 20] == t[o + 16..o + 20] && s[o + 28..o + 32] == t[o + 28..o + 32];
  }

  /** The frames and transactions from a position on depend on the bytes from there on. */
  lemma {:induction false} SuffixDecides(s: Bytes, t: Bytes, at: nat)
    requires at <= |s| && Same(s, t, at, |s|)
    ensures Frames(s, at) == Frames(t, at) && Transactions(s, at) == Transactions(t, at)
    decreases |s| - at
  {
    if FrameAt(s, at) {
      SameFrame(s, t, at, |s|);
      SuffixDecides(s, t, Next(s, at));
    } else if FrameAt(t, at) {
      SameFrame(t, s, at, |s|);
    }
  }

  /** What one step of the walk means for the parse of the rewritten and of the original buffer. */
  lemma FrameStep(s: Bytes, at: nat, h: Hooked)
    requires FrameAt(s, at)
    ensures var r, n := RewriteFrame(s, at, h), Next(s, at);
            && Frames(Rewrite(s, at, h), at) == [Frame(at, Word(s, at))] + Frames(Rewrite(r, n, h), n)
            && Transactions(Rewrite(s, at, h), at)
               == DeliveredAll(h, TransactionIn(s, at)) + Transactions(Rewrite(r, n, h), n)
            && Frames(r, n) == Frames(s, n) && Transactions(r, n) == Transactions(s, n)
  {
    var r, n := RewriteFrame(s, at, h), Next(s, at);
    FrameKept(s, at, h);
    PrefixKept(r, n, h);
    SameFrame(r, Rewrite(r, n, h), at, n);
    SuffixDecides(r, s, n);
  }

  /**
   The rewritten buffer parses into the same commands at the same offsets, and its transactions
   are the original ones with the redirected ones, and only those, pointing to the stub.
   */
  lemma {:induction false} FramingKept(s: Bytes, at: nat, h: Hooked)
    requires at <= |s|
    ensures Frames(Rewrite(s, at, h), at) == Frames(s, at)
    ensures Transactions(Rewrite(s, at, h), at) == DeliveredAll(h, Transactions(s, at))
    decreases |s| - at
  {
    if FrameAt(s, at) {
      FrameStep(s, at, h);
      FramingKept(RewriteFrame(s, at, h), Next(s, at), h);
      DeliveredTogether(h, TransactionIn(s, at), Transactions(s, Next(s, at)));
    }
  }

  lemma {:induction false} DeliveredTogether(h: Hooked, front: seq<Transaction>, rest: seq<Transaction>)
    ensures DeliveredAll(h, front + rest) == DeliveredAll(h, front) + DeliveredAll(h, rest)
  {
    if front == [] {
      assert front + rest == rest;
    } else {
      assert (front + rest)[1..] == front[1..] + rest;
      DeliveredTogether(h, front[1..], rest);
      Associative([Delivered(h, front[0])], DeliveredAll(h, front[1..]), DeliveredAll(h, rest));
    }
  }

  lemma {:induction false} OriginsTogether(h: Hooked, front: seq<Transaction>, rest: seq<Transaction>)
    ensures Origins(h, front + rest) == Origins(h, front) + Origins(h, rest)
  {
    if front == [] {
      assert front + rest == rest;
    } else {
      assert (front + rest)[1..] == front[1..] + rest;
      OriginsTogether(h, front[1..], rest);
      OneOrigin(h, front[0]);
      Associative(Origins(h, [front[0]]), Origins(h, front[1..]), Origins(h, rest));
    }
  }

  /** Byte `i` lies in the target, cookie or code of a transaction of frame `f` that the hook redirects. */
  ghost predicate InRedirectedFields(s: Bytes, f: Frame, h: Hooked, i: nat) {
    && CarriesTransaction(f.command) && f.offset + HEADER + TRANSACTION_BYTES <= |s|
    && OriginOf(h, TransactionAt(s, f.offset + HEADER)).Some?
    && f.offset + HEADER <= i < f.offset + HEADER + 20
  }

  /** A byte changes only inside the target, cookie and code of a redirected transaction. */
  lemma {:induction false} OnlyTargetsChange(s: Bytes, at: nat, h: Hooked, i: nat)
    requires at <= |s| && i < |s| && Rewrite(s, at, h)[i] != s[i]
    ensures exists f :: f in Frames(s, at) && InRedirectedFields(s, f, h, i)
    decreases |s| - at
  {
    if FrameAt(s, at) {
      var r, n := RewriteFrame(s, at, h), Next(s, at);
      FrameKept(s, at, h);
      if r[i] != s[i] {
        FirstFrameChanges(s, at, h, i);
      } else {
        OnlyTargetsChange(r, n, h, i);
        LaterFrameChanges(s, at, h, i);
      }
    }
  }

  lemma FirstFrameChanges(s: Bytes, at: nat, h: Hooked, i: nat)
    requires FrameAt(s, at) && i < |s| && RewriteFrame(s, at, h)[i] != s[i]
    ensures exists f :: f in Frames(s, at) && InRedirectedFields(s, f, h, i)
  {
    var f := Frame(at, Word(s, at));
    FrameKept(s, at, h);
    assert InRedirectedFields(s, f, h, i);
    assert f in Frames(s, at);
  }

  lemma LaterFrameChanges(s: Bytes, at: nat, h: Hooked, i: nat)
    requires FrameAt(s, at)
    requires var r := RewriteFrame(s, at, h);
             exists f :: f in Frames(r, Next(s, at)) && InRedirectedFields(r, f, h, i)
    ensures exists f :: f in Frames(s, at) && InRedirectedFields(s, f, h, i)
  {
    var r, n := RewriteFrame(s, at, h), Next(s, at);
    var f :| f in Frames(r, n) && InRedirectedFields(r, f, h, i);
    FrameKept(s, at, h);
    SuffixDecides(s, r, n);
    FramesFollow(r, n, f);
    FieldsCarry(s, r, n, f, h, i);
    LaterFrames(s, at, f);
  }

  lemma FieldsCarry(s: Bytes, r: Bytes, n: nat, f: Frame, h: Hooked, i: nat)
    requires Same(s, r, n, |s|) && n <= f.offset && InRedirectedFields(r, f, h, i)
    ensures InRedirectedFields(s, f, h, i)
  {
    SameTransaction(s, r, n, |s|, f.offset + HEADER);
  }

  lemma LaterFrames(s: Bytes, at: nat, f: Frame)
    requires FrameAt(s, at) && f in Frames(s, Next(s, at))
    ensures f in Frames(s, at)
  {
  }

  lemma {:induction false} FramesFollow(s: Bytes, at: nat, f: Frame)
    requires f in Frames(s, at)
    ensures at <= f.offset
    decreases |s| - at
  {
    if FrameAt(s, at) && f != Frame(at, Word(s, at)) { FramesFollow(s, Next(s, at), f); }
  }

  // ---- the walk, in place ----

  /** Stores bytes at an offset of the first `limit` bytes. */
  method Store(buffer: array<Byte>, o: nat, bytes: Bytes, ghost limit: nat)
    requires o + |bytes| <= limit <= buffer.Length
    modifies buffer
    ensures buffer[..limit] == Splice(old(buffer[..limit]), o, bytes)
    ensures buffer[limit..] == old(buffer[limit..])
  {
    forall i | 0 <= i < |bytes| {
      buffer[o + i] := bytes[i];
    }
  }

  method LoadWord(buffer: array<Byte>, o: nat, ghost limit: nat) returns (w: UInt32)
    requires o + 4 <= limit <= buffer.Length
    ensures w == Word(buffer[..limit], o)
  {
    w := Word(buffer[o..o + 4], 0);
    assert buffer[o..o + 4][0..4] == buffer[..limit][o..o + 4];
  }

  method LoadTransaction(buffer: array<Byte>, o: nat, ghost limit: nat) returns (t: Transaction)
    requires o + TRANSACTION_BYTES <= limit <= buffer.Length
    ensures t == TransactionAt(buffer[..limit], o)
  {
    t := TransactionAt(buffer[o..o + TRANSACTION_BYTES], 0);
    assert buffer[o..o + TRANSACTION_BYTES] == buffer[..limit][o..o + TRANSACTION_BYTES];
    TransactionShifted(buffer[..limit], o);
  }

  /** The three assignments to target, cookie and code. */
  method StoreTarget(buffer: array<Byte>, o: nat, h: Hooked, ghost limit: nat)
    requires o + TRANSACTION_BYTES <= limit <= buffer.Length
    modifies buffer
    ensures buffer[..limit] == Redirect(old(buffer[..limit]), o, h)
    ensures buffer[limit..] == old(buffer[limit..])
  {
    ghost var whole := buffer[..limit];
    var ptr, cookie, code := LittleEndian64(h.stubPtr), LittleEndian64(h.stubCookie), LittleEndian32(BACKDOOR_CODE);
    Store(buffer, o, ptr, limit);
    Store(buffer, o + 8, cookie, limit);
    Store(buffer, o + 16, code, limit);
    ThreeStores(whole, o, ptr, cookie, code);
  }

  /** The per-thread state of the hook: what the redirected transactions asked for, oldest first. */
  class BinderThread {
    var queue: seq<Origin>

    constructor ()
      ensures queue == []
    {
      queue := [];
    }

    /** processBinderTransaction on the transaction at offset `o`. */
    method ProcessBinderTransaction(buffer: array<Byte>, o: nat, h: Hooked, ghost limit: nat) returns (redirected: bool)
      requires o + TRANSACTION_BYTES <= limit <= buffer.Length
      modifies this, buffer
      ensures redirected == OriginOf(h, TransactionAt(old(buffer[..limit]), o)).Some?
      ensures queue == old(queue) + Origins(h, [TransactionAt(old(buffer[..limit]), o)])
      ensures buffer[..limit] == RewriteTransaction(old(buffer[..limit]), o, h)
      ensures buffer[limit..] == old(buffer[limit..])
    {
      var t := LoadTransaction(buffer, o, limit);
      OneOrigin(h, t);
      if t.ptr == 0 { return false; }
      var origin: Origin;
      if t.code == BACKDOOR_CODE && t.euid == 0 {
        origin := Origin(BACKDOOR_CODE, None);
      } else if t.code > MAX_USER_CODE {
        return false;
      } else if t.ptr in h.live && ShouldIntercept(h, t.cookie, t.code) {
        origin := Origin(t.code, Some(t.cookie));
      } else {
        return false;
      }
      StoreTarget(buffer, o, h, limit);
      queue := queue + [origin];
      return true;
    }

    /**
     processBinderWriteRead: both early exits and the loop leave the rewritten buffer and queue
     the origins of its redirected transactions; only the first `readConsumed` bytes are touched.
     */
    method ProcessBinderWriteRead(readBuffer: array?<Byte>, readSize: nat, readConsumed: nat, h: Hooked)
      requires readBuffer != null ==> readConsumed <= readSize <= readBuffer.Length
      modifies this, readBuffer
      ensures readBuffer == null ==> queue == old(queue)
      ensures readBuffer != null ==>
                && readBuffer[..readConsumed] == Rewrite(old(readBuffer[..readConsumed]), 0, h)
                && readBuffer[readConsumed..] == old(readBuffer[readConsumed..])
                && queue == old(queue) + Origins(h, Transactions(old(readBuffer[..readConsumed]), 0))
    {
      if readBuffer == null { return; }
      ghost var original := readBuffer[..readConsumed];
      if readSize == 0 || readConsumed <= HEADER {
        ShortBuffer(original, h);
        return;
      }
      var firstCommand := LoadWord(readBuffer, 0, readConsumed);
      if !CarriesTransaction(firstCommand) && readConsumed == HEADER + PayloadSize(firstCommand) {
        LoneCommand(original, h);
        return;
      }
      Walk(readBuffer, readConsumed, h);
    }

    /** The body of the command whose payload starts at `position`. */
    method ProcessCommand(buffer: array<Byte>, command: UInt32, position: nat, h: Hooked, ghost limit: nat)
      requires limit <= buffer.Length && position >= HEADER && FrameAt(buffer[..limit], position - HEADER)
      requires command == Word(buffer[..limit], position - HEADER)
      modifies this, buffer
      ensures buffer[..limit] == RewriteFrame(old(buffer[..limit]), position - HEADER, h)
      ensures queue == old(queue) + Origins(h, TransactionIn(old(buffer[..limit]), position - HEADER))
      ensures buffer[limit..] == old(buffer[limit..])
    {
      if CarriesTransaction(command) {
        var _ := ProcessBinderTransaction(buffer, position, h, limit);
      }
    }

    /** The loop over the commands of the buffer. */
    method Walk(readBuffer: array<Byte>, readConsumed: nat, h: Hooked)
      requires readConsumed <= readBuffer.Length
      modifies this, readBuffer
      ensures Walked(h, old(readBuffer[..readConsumed]), old(queue), readBuffer[..readConsumed], queue, readConsumed)
      ensures readBuffer[readConsumed..] == old(readBuffer[readConsumed..])
    {
      ghost var original := readBuffer[..readConsumed];
      var position, remaining := 0, readConsumed;
      while remaining > 0
        invariant position + remaining == readConsumed
        invariant Walked(h, original, old(queue), readBuffer[..readConsumed], queue, position)
        invariant readBuffer[readConsumed..] == old(readBuffer[readConsumed..])
      {
        ghost var whole, start := readBuffer[..readConsumed], position;
        if remaining < HEADER {
          WalkStops(h, original, old(queue), whole, queue, start);
          return;
        }
        var command := LoadWord(readBuffer, position, readConsumed);
        position, remaining := position + HEADER, remaining - HEADER;
        var size := PayloadSize(command);
        if remaining < size {
          WalkStops(h, original, old(queue), whole, queue, start);
          return;
        }
        WalkStep(h, original, old(queue), whole, queue, start);
        ghost var rewritten, next := RewriteFrame(whole, start, h), Next(whole, start);
        ghost var origins := queue + Origins(h, TransactionIn(whole, start));
        assert Walked(h, original, old(queue), rewritten, origins, next);
        ProcessCommand(readBuffer, command, position, h, readConsumed);
        position, remaining := position + size, remaining - size;
        assert readBuffer[..readConsumed] == rewritten && queue == origins && position == next;
      }
    }
  }

  lemma OneOrigin(h: Hooked, t: Transaction)
    ensures Origins(h, [t]) == match OriginOf(h, t) case Some(origin) => [origin] case None => []
  {
  }

  lemma TransactionShifted(s: Bytes, o: nat)
    requires o + TRANSACTION_BYTES <= |s|
    ensures TransactionAt(s[o..o + TRANSACTION_BYTES], 0) == TransactionAt(s, o)
  {
    SliceOfSlice(s, o, o + TRANSACTION_BYTES, 0, 8);
    SliceOfSlice(s, o, o + TRANSACTION_BYTES, 8, 16);
    SliceOfSlice(s, o, o + TRANSACTION_BYTES, 16, 20);
    SliceOfSlice(s, o, o + TRANSACTION_BYTES, 28, 32);
  }

  lemma ThreeStores(s: Bytes, o: nat, p: Bytes, c: Bytes, b: Bytes)
    requires o + 20 <= |s| && |p| == 8 && |c| == 8 && |b| == 4
    ensures Splice(Splice(Splice(s, o, p), o + 8, c), o + 16, b) == Splice(s, o, p + c + b)
  {
  }

  lemma ShortBuffer(s: Bytes, h: Hooked)
    requires |s| <= HEADER
    ensures Rewrite(s, 0, h) == s && Transactions(s, 0) == []
  {
  }

  lemma LoneCommand(s: Bytes, h: Hooked)
    requires FrameAt(s, 0) && Next(s, 0) == |s| && !CarriesTransaction(Word(s, 0))
    ensures Rewrite(s, 0, h) == s && Transactions(s, 0) == []
  {
  }

  /** The walk has reached `position`: what is left to do from here completes the job. */
  ghost predicate Walked(h: Hooked, original: Bytes, before: seq<Origin>, s: Bytes, queue: seq<Origin>, position: nat) {
    && Rewrite(s, position, h) == Rewrite(original, 0, h)
    && queue + Origins(h, Transactions(s, position)) == before + Origins(h, Transactions(original, 0))
  }

  /** At an incomplete frame there is nothing left to do. */
  lemma WalkStops(h: Hooked, original: Bytes, before: seq<Origin>, s: Bytes, queue: seq<Origin>, at: nat)
    requires at <= |s| && !FrameAt(s, at) && Walked(h, original, before, s, queue, at)
    ensures Walked(h, original, before, s, queue, |s|)
  {
  }

  lemma WalkStep(h: Hooked, original: Bytes, before: seq<Origin>, s: Bytes, queue: seq<Origin>, at: nat)
    requires FrameAt(s, at) && Walked(h, original, before, s, queue, at)
    ensures Walked(h, original, before, RewriteFrame(s, at, h), queue + Origins(h, TransactionIn(s, at)), Next(s, at))
  {
    var r, n := RewriteFrame(s, at, h), Next(s, at);
    FrameStep(s, at, h);
    assert Transactions(s, at) == TransactionIn(s, at) + Transactions(r, n);
    OriginsTogether(h, TransactionIn(s, at), Transactions(r, n));
    Associative(queue, Origins(h, TransactionIn(s, at)), Origins(h, Transactions(r, n)));
  }
}
