/**
 The wire format between the native hook and the Kotlin interceptors, and the Kotlin side of it:
 what a hook is given, and the action left in the reply.
 */
module InterceptorWire {
  import opened Common
  import opened BinderStream
  import opened Parcels

  const PRE_TRANSACT_CODE: UInt32 := 1
  const POST_TRANSACT_CODE: UInt32 := 2

  const RESULT_SKIP: Int32 := 1
  const RESULT_CONTINUE: Int32 := 2
  const RESULT_OVERRIDE_REPLY: Int32 := 3
  const RESULT_OVERRIDE_DATA: Int32 := 4

  /** A call as the native hook knows it. */
  datatype Call = Call(target: UInt64, code: UInt32, flags: UInt32, uid: Int32, pid: Int32, data: Blob)

  /** A call as Kotlin's hooks are given it. */
  datatype HookCall = HookCall(target: UInt64, code: Int32, flags: Int32, uid: Int32, pid: Int32, data: Bytes)

  function Seen(c: Call): HookCall {
    HookCall(c.target, Signed(c.code), Signed(c.flags), c.uid, c.pid, c.data)
  }

  /** What a hook decides; it may also throw. */
  datatype HookResult = Skip | Continue | OverrideReply(code: Int32, reply: Blob) | Thrown

  function Caught(r: HookResult): HookResult {
    if r.Thrown? then Skip else r
  }

  // ---- the three messages ----

  const CALL_BYTES := 44

  function CallBytes(c: Call): (s: Bytes)
    ensures |s| == CALL_BYTES
  {
    Token(c.target) + (LittleEndian32(c.code) + (LittleEndian32(c.flags) + (Int32Bytes(c.uid) + Int32Bytes(c.pid))))
  }

  function PreBytes(c: Call): Bytes {
    CallBytes(c) + (LittleEndian64(|c.data|) + c.data)
  }

  /** An absent reply is written as an empty one. */
  function PostBytes(c: Call, status: Int32, reply: Blob): Bytes {
    CallBytes(c) + (Int32Bytes(status) + (LittleEndian64(|c.data|) + (c.data + (LittleEndian64(|reply|) + reply))))
  }

  function ResultBytes(r: HookResult): Bytes {
    match Caught(r)
    case OverrideReply(code, reply) =>
      Int32Bytes(RESULT_OVERRIDE_REPLY) + (Int32Bytes(code) + (LittleEndian64(|reply|) + reply))
    case Continue => Int32Bytes(RESULT_CONTINUE)
    case _ => Int32Bytes(RESULT_SKIP)
  }

  /** `piece` stands in `s` at an offset. */
  ghost predicate At(s: Bytes, o: nat, piece: Bytes) {
    o + |piece| <= |s| && s[o..o + |piece|] == piece
  }

  lemma WordAt(s: Bytes, o: nat, piece: Bytes)
    requires At(s, o, piece) && |piece| >= 4
    ensures Word(s, o) == Word(piece, 0)
  {
    SliceOfSlice(s, o, o + |piece|, 0, 4);
  }

  lemma DoubleWordAt(s: Bytes, o: nat, piece: Bytes)
    requires At(s, o, piece) && |piece| >= 8
    ensures DoubleWord(s, o) == DoubleWord(piece, 0)
  {
    SliceOfSlice(s, o, o + |piece|, 0, 8);
  }

  /** Two adjacent pieces. */
  lemma AtBoth(s: Bytes, o: nat, first: Bytes, rest: Bytes)
    requires At(s, o, first + rest)
    ensures At(s, o, first) && At(s, o + |first|, rest)
  {
    var both := first + rest;
    assert s[o..o + |first|] == both[..|first|] == first;
    assert s[o + |first|..o + |both|] == both[|first|..] == rest;
  }

  // ---- what Kotlin reads ----

  /** Long.toInt(). */
  function ToInt(x: UInt64): Int32 {
    Signed(x % 0x1_0000_0000)
  }

  function OrZero(v: Option<int>): int {
    if v.Some? then v.value else 0
  }

  /** The five leading fields and where they end; a missing target is a null. */
  function ReadCall(s: Bytes): (Option<UInt64>, HookCall, nat) {
    var (target, afterTarget) := BinderFrom(s, 0);
    var (code, afterCode) := Int32From(s, afterTarget);
    var (flags, afterFlags) := Int32From(s, afterCode);
    var (uid, afterUid) := Int32From(s, afterFlags);
    var (pid, afterPid) := Int32From(s, afterUid);
    (target, HookCall(OrZero(target), OrZero(code), OrZero(flags), OrZero(uid), OrZero(pid), []), afterPid)
  }

  /** A length-prefixed payload and where it starts: what Kotlin copies into a parcel of its own. */
  function ReadPayload(s: Bytes, at: nat): (Option<Bytes>, nat) {
    var (size, start) := Uint64From(s, at);
    (Slice(s, start, ToInt(OrZero(size))), start)
  }

  /** The call handlePreTransact reads from a request, if it can be read. */
  function ReadPre(s: Bytes): Option<HookCall> {
    var (target, call, at) := ReadCall(s);
    ReadPreBody(s, target, call, at)
  }

  function ReadPreBody(s: Bytes, target: Option<UInt64>, call: HookCall, at: nat): Option<HookCall> {
    var (payload, _) := ReadPayload(s, at);
    if payload.None? || target.None? then None else Some(call.(data := payload.value))
  }

  datatype PostCall = PostCall(call: HookCall, status: Int32, reply: Option<Bytes>)

  /** The call, status and reply handlePostTransact reads; an empty reply is a null one. */
  function ReadPost(s: Bytes): Option<PostCall> {
    var (target, call, at) := ReadCall(s);
    ReadPostBody(s, target, call, at)
  }

  function ReadPostBody(s: Bytes, target: Option<UInt64>, call: HookCall, at: nat): Option<PostCall> {
    var (status, afterStatus) := Int32From(s, at);
    var (payload, start) := ReadPayload(s, afterStatus);
    if payload.None? then None
    else
      var reply := ReadReply(s, start + |payload.value|);
      if reply.None? || target.None? then None
      else Some(PostCall(call.(data := payload.value), OrZero(status), reply.value))
  }

  /** The trailing reply: absent when its length is not positive. */
  function ReadReply(s: Bytes, at: nat): Option<Option<Bytes>> {
    var (size, start) := Uint64From(s, at);
    if ToInt(OrZero(size)) <= 0 then Some(None)
    else if Slice(s, start, ToInt(OrZero(size))).None? then None
    else Some(Slice(s, start, ToInt(OrZero(size))))
  }

  lemma CallIsRead(s: Bytes, c: Call, rest: Bytes)
    requires s == CallBytes(c) + rest
    ensures ReadCall(s) == (Some(c.target), Seen(c).(data := []), CALL_BYTES) && At(s, CALL_BYTES, rest)
  {
    var token, code, flags := Token(c.target), LittleEndian32(c.code), LittleEndian32(c.flags);
    var uid, pid := Int32Bytes(c.uid), Int32Bytes(c.pid);
    assert At(s, 0, CallBytes(c) + rest);
    AtBoth(s, 0, CallBytes(c), rest);
    AtBoth(s, 0, token, code + (flags + (uid + pid)));
    AtBoth(s, 28, code, flags + (uid + pid));
    AtBoth(s, 32, flags, uid + pid);
    AtBoth(s, 36, uid, pid);
    FieldsAreRead(s, token, code, flags, uid, pid);
  }

  lemma FieldsAreRead(s: Bytes, token: Bytes, code: Bytes, flags: Bytes, uid: Bytes, pid: Bytes)
    requires |token| == TOKEN_BYTES && |code| == |flags| == |uid| == |pid| == 4
    requires At(s, 0, token) && At(s, 28, code) && At(s, 32, flags) && At(s, 36, uid) && At(s, 40, pid)
    ensures ReadCall(s) == (Some(DoubleWord(token, 0)),
                            HookCall(DoubleWord(token, 0), Signed(Word(code, 0)), Signed(Word(flags, 0)),
                                     Signed(Word(uid, 0)), Signed(Word(pid, 0)), []),
                            CALL_BYTES)
  {
    DoubleWordAt(s, 0, token);
    WordAt(s, 28, code);
    WordAt(s, 32, flags);
    WordAt(s, 36, uid);
    WordAt(s, 40, pid);
  }

  lemma SmallToInt(n: nat)
    requires n < 0x8000_0000
    ensures ToInt(n) == n
  {
  }

  /** Eight bytes that hold the length of a payload. */
  ghost predicate IsLength(size: Bytes, payload: Blob) {
    |size| == 8 && DoubleWord(size, 0) == |payload|
  }

  lemma LengthIsRead(s: Bytes, o: nat, size: Bytes, payload: Blob, rest: Bytes)
    requires IsLength(size, payload) && At(s, o, size + (payload + rest))
    ensures Uint64From(s, o) == (Some(|payload|), o + 8)
    ensures o + 8 + |payload| <= |s| && s[o + 8..o + 8 + |payload|] == payload
    ensures At(s, o + 8 + |payload|, rest)
  {
    AtBoth(s, o, size, payload + rest);
    AtBoth(s, o + 8, payload, rest);
    DoubleWordAt(s, o, size);
  }

  lemma PayloadIsRead(s: Bytes, o: nat, size: Bytes, payload: Blob, rest: Bytes)
    requires IsLength(size, payload) && At(s, o, size + (payload + rest))
    ensures ReadPayload(s, o) == (Some(payload), o + 8) && At(s, o + 8 + |payload|, rest)
    ensures ReadReply(s, o) == Some(if payload == [] then None else Some(payload))
  {
    LengthIsRead(s, o, size, payload, rest);
    SmallToInt(|payload|);
  }

  lemma LastPayloadIsRead(s: Bytes, o: nat, size: Bytes, payload: Blob)
    requires IsLength(size, payload) && At(s, o, size + payload)
    ensures ReadPayload(s, o) == (Some(payload), o + 8)
    ensures ReadReply(s, o) == Some(if payload == [] then None else Some(payload))
  {
    assert payload + [] == payload;
    PayloadIsRead(s, o, size, payload, []);
  }

  /** Kotlin recovers from the native request exactly the call. */
  lemma PreRoundTrip(c: Call)
    ensures ReadPre(PreBytes(c)) == Some(Seen(c))
  {
    var s := PreBytes(c);
    CallIsRead(s, c, LittleEndian64(|c.data|) + c.data);
    LastPayloadIsRead(s, CALL_BYTES, LittleEndian64(|c.data|), c.data);
  }

  /** And from the second request the call, the status of the target and its reply, if not empty. */
  lemma PostRoundTrip(c: Call, status: Int32, reply: Blob)
    ensures ReadPost(PostBytes(c, status, reply))
         == Some(PostCall(Seen(c), status, if reply == [] then None else Some(reply)))
  {
    var s, word := PostBytes(c, status, reply), Int32Bytes(status);
    var size, replySize := LittleEndian64(|c.data|), LittleEndian64(|reply|);
    CallIsRead(s, c, word + (size + (c.data + (replySize + reply))));
    PostBodyRoundTrip(s, CALL_BYTES, c.target, Seen(c).(data := []), word, size, c.data, replySize, reply);
  }

  lemma StatusIsRead(s: Bytes, at: nat, word: Bytes, rest: Bytes)
    requires |word| == 4 && At(s, at, word + rest)
    ensures Int32From(s, at) == (Some(Signed(Word(word, 0))), at + 4) && At(s, at + 4, rest)
  {
    AtBoth(s, at, word, rest);
    WordAt(s, at, word);
  }

  lemma PostIsAssembled(s: Bytes, at: nat, target: UInt64, call: HookCall, status: Int32, data: Bytes, reply: Option<Bytes>)
    requires Int32From(s, at) == (Some(status), at + 4) && ReadPayload(s, at + 4) == (Some(data), at + 12)
    requires ReadReply(s, at + 12 + |data|) == Some(reply)
    ensures ReadPostBody(s, Some(target), call, at) == Some(PostCall(call.(data := data), status, reply))
  {
  }

  lemma PostBodyRoundTrip(s: Bytes, at: nat, target: UInt64, call: HookCall, word: Bytes, size: Bytes, data: Blob,
                          replySize: Bytes, reply: Blob)
    requires |word| == 4 && IsLength(size, data) && IsLength(replySize, reply)
    requires At(s, at, word + (size + (data + (replySize + reply))))
    ensures ReadPostBody(s, Some(target), call, at)
         == Some(PostCall(call.(data := data), Signed(Word(word, 0)), if reply == [] then None else Some(reply)))
  {
    StatusIsRead(s, at, word, size + (data + (replySize + reply)));
    PayloadIsRead(s, at + 4, size, data, replySize + reply);
    LastPayloadIsRead(s, at + 12 + |data|, replySize, reply);
    PostIsAssembled(s, at, target, call, Signed(Word(word, 0)), data, if reply == [] then None else Some(reply));
  }

  /** What of a hook's result arrives: nothing of a throw, nor of an override that cannot be copied. */
  function Sent(r: HookResult, fails: bool): HookResult {
    if r.Thrown? || (fails && r.OverrideReply?) then Skip else r
  }

  /** The result of a hook on what was read; an unreadable request skips it. */
  function Decision<T>(seen: Option<T>, hook: T -> HookResult): HookResult {
    if seen.Some? then hook(seen.value) else Skip
  }

  /**
   The bytes an interceptor with these hooks answers a request with, one whole action whatever it is
   sent; `fails` says that copying an overriding reply throws. It handles no other code.
   */
  function ResponseOf(pre: HookCall -> HookResult, post: PostCall -> HookResult, fails: bool, code: UInt32, request: Bytes)
    : Option<Bytes>
  {
    if code == PRE_TRANSACT_CODE then Some(ResultBytes(Sent(Decision(ReadPre(request), pre), fails)))
    else if code == POST_TRANSACT_CODE then Some(ResultBytes(Sent(Decision(ReadPost(request), post), fails)))
    else None
  }

  // ---- the Kotlin side ----

  class BinderInterceptor {
    const onPreTransact: HookCall -> HookResult
    const onPostTransact: PostCall -> HookResult

    constructor (pre: HookCall -> HookResult, post: PostCall -> HookResult)
      ensures onPreTransact == pre && onPostTransact == post
    {
      onPreTransact, onPostTransact := pre, post;
    }

    method ReadFields(data: Parcel) returns (target: Option<UInt64>, call: HookCall)
      requires data.Valid() && data.position == 0
      modifies data`position
      ensures data.Valid() && (target, call, data.position) == ReadCall(data.data)
    {
      target := data.ReadStrongBinder();
      var code := data.ReadInt32();
      var flags := data.ReadInt32();
      var uid := data.ReadInt32();
      var pid := data.ReadInt32();
      call := HookCall(OrZero(target), OrZero(code), OrZero(flags), OrZero(uid), OrZero(pid), []);
    }

    /** Copies a length-prefixed payload into a parcel of its own. */
    method CopyPayload(data: Parcel) returns (payload: Option<Bytes>)
      requires data.Valid()
      modifies data`position
      ensures data.Valid() && (payload, data.position) == ReadPayload(data.data, old(data.position))
    {
      var size := data.ReadUint64();
      var transactionData := new Parcel();
      var ok := transactionData.AppendFrom(data, data.position, ToInt(OrZero(size)));
      payload := if ok then Some(transactionData.data) else None;
    }

    method CopyReply(data: Parcel) returns (reply: Option<Option<Bytes>>)
      requires data.Valid()
      modifies data`position
      ensures reply == ReadReply(data.data, old(data.position))
    {
      var size := data.ReadUint64();
      var replySize := ToInt(OrZero(size));
      if replySize <= 0 { return Some(None); }
      var transactionReply := new Parcel();
      var ok := transactionReply.AppendFrom(data, data.position, replySize);
      reply := if ok then Some(Some(transactionReply.data)) else None;
    }

    method HandlePreTransact(data: Parcel) returns (r: HookResult)
      requires data.Valid() && data.position == 0
      modifies data`position
      ensures r == Caught(Decision(ReadPre(data.data), onPreTransact))
    {
      var target, call := ReadFields(data);
      var payload := CopyPayload(data);
      if payload.None? || target.None? { return Skip; }
      r := Caught(onPreTransact(call.(data := payload.value)));
    }

    method HandlePostTransact(data: Parcel) returns (r: HookResult)
      requires data.Valid() && data.position == 0
      modifies data`position
      ensures r == Caught(Decision(ReadPost(data.data), onPostTransact))
    {
      var target, call := ReadFields(data);
      var resultCode := data.ReadInt32();
      var payload := CopyPayload(data);
      if payload.None? { return Skip; }
      data.SetDataPosition(data.position + |payload.value|);
      var reply := CopyReply(data);
      if reply.None? || target.None? { return Skip; }
      r := Caught(onPostTransact(PostCall(call.(data := payload.value), OrZero(resultCode), reply.value)));
    }

    /** writeResultToReply; `fails` says that copying an overriding reply throws. */
    method WriteResultToReply(result: HookResult, reply: Parcel, fails: bool)
      requires reply.Holds([]) && !result.Thrown?
      modifies reply
      ensures reply.Holds(ResultBytes(Sent(result, fails)))
    {
      if result.Skip? {
        reply.Write(Int32Bytes(RESULT_SKIP));
      } else if result.Continue? {
        reply.Write(Int32Bytes(RESULT_CONTINUE));
      } else {
        reply.Write(Int32Bytes(RESULT_OVERRIDE_REPLY));
        reply.Write(Int32Bytes(result.code));
        reply.Write(LittleEndian64(|result.reply|));
        if fails {
          reply.FreeData();
          reply.Write(Int32Bytes(RESULT_SKIP));
        } else {
          reply.Write(result.reply);
          OverrideLayout(Int32Bytes(RESULT_OVERRIDE_REPLY), Int32Bytes(result.code), LittleEndian64(|result.reply|),
                         result.reply);
        }
      }
    }

    /** onTransact leaves a whole action in the reply, whatever it is sent and whatever goes wrong. */
    method OnTransact(code: UInt32, data: Parcel, reply: Parcel, fails: bool) returns (handled: bool)
      requires data.Valid() && data.position == 0 && data != reply && reply.Holds([])
      modifies data`position, reply
      ensures var response := ResponseOf(onPreTransact, onPostTransact, fails, code, data.data);
              handled == response.Some? && reply.Holds(if handled then response.value else [])
    {
      var result: HookResult;
      if code == PRE_TRANSACT_CODE {
        result := HandlePreTransact(data);
      } else if code == POST_TRANSACT_CODE {
        result := HandlePostTransact(data);
      } else {
        return false;
      }
      WriteResultToReply(result, reply, fails);
      return true;
    }
  }

  lemma OverrideLayout(action: Bytes, code: Bytes, size: Bytes, reply: Bytes)
    ensures [] + action + code + size + reply == action + (code + (size + reply))
  {
  }
}
