/**
 The native side of an interception: registration of interceptors, and the stub's handling of one
 call, which asks the interceptor before and after and transacts the target in between.
 */
module NativeInterceptor {
  import opened Common
  import opened BinderStream
  import opened Parcels
  import Wire = InterceptorWire

  type Call = Wire.Call

  // ---- registration ----

  datatype Registration = Registration(interceptor: UInt64, codes: seq<UInt32>)

  /** The transaction codes of a registration, if all of them are there. */
  function CodesFrom(s: Bytes, at: nat, n: nat): Option<seq<UInt32>>
    decreases n
  {
    if n == 0 then Some([])
    else if Int32From(s, at).0.None? then None
    else
      var rest :- CodesFrom(s, at + 4, n - 1);
      Some([Word(s, at)] + rest)
  }

  /** What handleRegisterInterceptor reads; only binders of this process can be targets. */
  function ReadRegistration(s: Bytes, local: set<UInt64>): Option<(UInt64, Registration)> {
    var (target, afterTarget) := BinderFrom(s, 0);
    var (interceptor, afterInterceptor) := BinderFrom(s, afterTarget);
    var (count, at) := Int32From(s, afterInterceptor);
    if target.None? || target.value !in local || interceptor.None? || count.None? then None
    else
      var codes :- CodesFrom(s, at, if count.value < 0 then 0 else count.value);
      Some((target.value, Registration(interceptor.value, codes)))
  }

  /** What registerBinderInterceptor writes: both binders and writeIntArray of the codes. */
  function RegistrationBytes(target: UInt64, interceptor: UInt64, codes: IntList): Bytes {
    Token(target) + (Token(interceptor) + (Int32Bytes(|codes|) + CodeBytes(codes)))
  }

  function CodeBytes(codes: seq<Int32>): (s: Bytes)
    ensures |s| == 4 * |codes|
  {
    if codes == [] then [] else Int32Bytes(codes[0]) + CodeBytes(codes[1..])
  }

  function UnsignedAll(codes: seq<Int32>): seq<UInt32> {
    if codes == [] then [] else [Unsigned(codes[0])] + UnsignedAll(codes[1..])
  }

  lemma {:induction false} CodesRoundTrip(s: Bytes, at: nat, codes: seq<Int32>)
    requires Wire.At(s, at, CodeBytes(codes))
    ensures CodesFrom(s, at, |codes|) == Some(UnsignedAll(codes))
    decreases |codes|
  {
    if codes != [] {
      Wire.AtBoth(s, at, Int32Bytes(codes[0]), CodeBytes(codes[1..]));
      Wire.WordAt(s, at, Int32Bytes(codes[0]));
      CodesRoundTrip(s, at + 4, codes[1..]);
      SignedBack(Word(s, at));
    }
  }

  lemma SignedBack(x: UInt32)
    ensures Unsigned(Signed(x)) == x
  {
  }

  /** Native registers exactly the target, interceptor and codes Kotlin wrote. */
  lemma RegistrationRoundTrip(target: UInt64, interceptor: UInt64, codes: IntList, local: set<UInt64>)
    requires target in local
    ensures ReadRegistration(RegistrationBytes(target, interceptor, codes), local)
         == Some((target, Registration(interceptor, UnsignedAll(codes))))
  {
    var s, count := RegistrationBytes(target, interceptor, codes), Int32Bytes(|codes|);
    assert Wire.At(s, 0, s);
    Wire.AtBoth(s, 0, Token(target), Token(interceptor) + (count + CodeBytes(codes)));
    Wire.AtBoth(s, 28, Token(interceptor), count + CodeBytes(codes));
    Wire.AtBoth(s, 56, count, CodeBytes(codes));
    Wire.DoubleWordAt(s, 0, Token(target));
    Wire.DoubleWordAt(s, 28, Token(interceptor));
    Wire.WordAt(s, 56, count);
    CodesRoundTrip(s, 60, codes);
  }

  // ---- what native reads of a response ----

  datatype Verdict =
    | Invalid
    | Skipped
    | Continued
    | Replied(status: Int32, reply: Option<Bytes>)
    | Replaced(request: Option<Bytes>)

  /** The action of a response and what comes with it, if it is all there; no response is invalid. */
  function VerdictOf(response: Option<Bytes>): Verdict {
    if response.None? then Invalid
    else
      var s := response.value;
      var (action, at) := Int32From(s, 0);
      if action == Some(Wire.RESULT_SKIP) then Skipped
      else if action == Some(Wire.RESULT_CONTINUE) then Continued
      else if action == Some(Wire.RESULT_OVERRIDE_REPLY) then
        var (status, afterStatus) := Int32From(s, at);
        var (size, start) := Uint64From(s, afterStatus);
        Replied(Wire.OrZero(status), Slice(s, start, Wire.OrZero(size)))
      else if action == Some(Wire.RESULT_OVERRIDE_DATA) then
        var (size, start) := Uint64From(s, at);
        Replaced(Slice(s, start, Wire.OrZero(size)))
      else Invalid
  }

  /** A hook's decision in native terms. */
  function ReadAs(r: Wire.HookResult): Verdict {
    match Wire.Caught(r)
    case OverrideReply(code, reply) => Replied(code, Some(reply))
    case Continue => Continued
    case _ => Skipped
  }

  /** Native reads exactly the decision Kotlin wrote. */
  lemma ResultRoundTrip(r: Wire.HookResult)
    ensures VerdictOf(Some(Wire.ResultBytes(r))) == ReadAs(r)
  {
    var s, caught := Wire.ResultBytes(r), Wire.Caught(r);
    if caught.OverrideReply? {
      var action, code := Int32Bytes(Wire.RESULT_OVERRIDE_REPLY), Int32Bytes(caught.code);
      var sized := LittleEndian64(|caught.reply|) + caught.reply;
      assert Wire.At(s, 0, action + (code + sized));
      Wire.AtBoth(s, 0, action, code + sized);
      Wire.AtBoth(s, 4, code, sized);
      Wire.WordAt(s, 0, action);
      Wire.WordAt(s, 4, code);
      assert caught.reply + [] == caught.reply;
      Wire.LengthIsRead(s, 8, LittleEndian64(|caught.reply|), caught.reply, []);
    }
  }

  // ---- one intercepted call ----

  datatype Answer = Answer(status: Int32, reply: Blob)

  /** Copies between parcels that run out of memory: of the request, of an overriding reply before, and after. */
  datatype Faults = Faults(request: bool, reply: bool, newReply: bool)

  /** The registered interceptor, its responses, the target's answer to its n-th request, and what fails. */
  datatype Env = Env(interceptor: Option<UInt64>, respond: (UInt64, UInt32, Bytes) -> Option<Bytes>,
                     answer: (nat, UInt32, Bytes) -> Answer, faults: Faults)

  /** What a call comes to: its status and reply, and the requests the target was transacted with. */
  datatype Effect = Effect(status: Int32, reply: Bytes, requests: seq<Bytes>)

  /** The stub forwards the original request, writing over a reply left by an earlier transaction. */
  function Forwarded(env: Env, c: Call, hasReply: bool, reply: Bytes, done: seq<Bytes>): Effect {
    var a := env.answer(|done|, c.code, c.data);
    Effect(a.status, if hasReply then Put(reply, 0, a.reply) else [], done + [c.data])
  }

  /** What the interceptor says once the target has answered a request. */
  function PostVerdict(env: Env, c: Call, hasReply: bool, request: Bytes): Verdict {
    var a := env.answer(0, c.code, request);
    if env.interceptor.None? then Invalid
    else VerdictOf(env.respond(env.interceptor.value, Wire.POST_TRANSACT_CODE,
                               Wire.PostBytes(c, a.status, if hasReply then a.reply else [])))
  }

  /** The outcome of a call whose request the target has answered. */
  function Transacted(env: Env, c: Call, hasReply: bool, request: Bytes, verdict: Verdict): Effect {
    var a := env.answer(0, c.code, request);
    var reply := if hasReply then a.reply else [];
    if verdict.Invalid? then Forwarded(env, c, hasReply, reply, [request])
    else if !verdict.Replied? then Effect(a.status, reply, [request])
    else if !hasReply then Effect(verdict.status, [], [request])
    else if verdict.reply.None? || env.faults.newReply then Forwarded(env, c, hasReply, [], [request])
    else Effect(verdict.status, verdict.reply.value, [request])
  }

  function PreVerdict(env: Env, c: Call): Verdict {
    if env.interceptor.None? then Invalid
    else VerdictOf(env.respond(env.interceptor.value, Wire.PRE_TRANSACT_CODE, Wire.PreBytes(c)))
  }

  /** The request the target is transacted with on behalf of the interceptor, if any. */
  function Admitted(env: Env, c: Call, verdict: Verdict): Option<Bytes> {
    if verdict.Replaced? then verdict.request
    else if verdict.Continued? && !env.faults.request then Some(c.data)
    else None
  }

  /** What becomes of a call, given what the interceptor says before it and, if asked, after it. */
  function Decided(env: Env, c: Call, hasReply: bool, before: Verdict, after: Verdict): Effect {
    var request := Admitted(env, c, before);
    if request.Some? then Transacted(env, c, hasReply, request.value, after)
    else if before.Replied? && !hasReply then Effect(before.status, [], [])
    else if before.Replied? && before.reply.Some? && !env.faults.reply then Effect(before.status, before.reply.value, [])
    else Forwarded(env, c, hasReply, [], [])
  }

  /** The stub's whole treatment of a call. */
  function Interposed(env: Env, c: Call, hasReply: bool): Effect {
    var before := PreVerdict(env, c);
    var request := Admitted(env, c, before);
    Decided(env, c, hasReply, before,
            if request.Some? then PostVerdict(env, c, hasReply, request.value) else Invalid)
  }

  // ---- how often the target is transacted ----

  /** The interceptor's answer before the call replaces it, and can be delivered. */
  ghost predicate Answered(env: Env, c: Call, hasReply: bool) {
    var verdict := PreVerdict(env, c);
    verdict.Replied? && (!hasReply || (verdict.reply.Some? && !env.faults.reply))
  }

  /** After the target answered, the interceptor cannot be asked or its override cannot be delivered. */
  ghost predicate LateFailure(env: Env, c: Call, hasReply: bool) {
    var request := Admitted(env, c, PreVerdict(env, c));
    && request.Some?
    && var verdict := PostVerdict(env, c, hasReply, request.value);
       verdict.Invalid? || (verdict.Replied? && hasReply && (verdict.reply.None? || env.faults.newReply))
  }

  /**
   For every interceptor, target and fault: the target is not transacted exactly when the
   interceptor answered for it, twice exactly when the interception fails after it has answered,
   and otherwise once; the second request is the original one again.
   */
  lemma TransactedExactly(env: Env, c: Call, hasReply: bool)
    ensures var requests := Interposed(env, c, hasReply).requests;
            && |requests| <= 2
            && (|requests| == 0 <==> Answered(env, c, hasReply))
            && (|requests| == 2 <==> LateFailure(env, c, hasReply))
            && (|requests| == 2 ==> requests == [Admitted(env, c, PreVerdict(env, c)).value, c.data])
  {
    var request := Admitted(env, c, PreVerdict(env, c));
    if request.Some? { assert [request.value] + [c.data] == [request.value, c.data]; }
  }

  // ---- with a Kotlin interceptor ----

  /** The hooks of a Kotlin interceptor, and whether copying an override into its response throws, before and after. */
  datatype Kotlin = Kotlin(pre: Wire.HookCall -> Wire.HookResult, post: Wire.PostCall -> Wire.HookResult,
                           preFails: bool, postFails: bool)

  function Before(k: Kotlin, c: Call): Wire.HookResult {
    Wire.Sent(k.pre(Wire.Seen(c)), k.preFails)
  }

  function After(k: Kotlin, c: Call, a: Answer): Wire.HookResult {
    Wire.Sent(k.post(Wire.PostCall(Wire.Seen(c), a.status, if a.reply == [] then None else Some(a.reply))), k.postFails)
  }

  /** A oneway call has no reply to show or to override. */
  function Shown(a: Answer, hasReply: bool): Answer {
    if hasReply then a else Answer(a.status, [])
  }

  /** What the hooks mean for a call, with no wire in between. */
  function Intended(k: Kotlin, a: Answer, c: Call, hasReply: bool): Effect {
    var shown := Shown(a, hasReply);
    var effect := Meant(Before(k, c), After(k, c, shown), shown, c);
    if hasReply then effect else effect.(reply := [])
  }

  function Meant(before: Wire.HookResult, after: Wire.HookResult, a: Answer, c: Call): Effect {
    if before.OverrideReply? then Effect(before.code, before.reply, [])
    else if before.Continue? && after.OverrideReply? then Effect(after.code, after.reply, [c.data])
    else Effect(a.status, a.reply, [c.data])
  }

  /** What a Kotlin interceptor's OnTransact leaves in its reply to a request. */
  function ResponseOf(k: Kotlin, code: UInt32, request: Bytes): Option<Bytes> {
    Wire.ResponseOf(k.pre, k.post, if code == Wire.PRE_TRANSACT_CODE then k.preFails else k.postFails, code, request)
  }

  /** A Kotlin interceptor is registered and reached, and the native side runs out of memory nowhere. */
  function WithKotlin(interceptor: UInt64, k: Kotlin, answer: (nat, UInt32, Bytes) -> Answer): Env {
    Env(Some(interceptor), (i: UInt64, code: UInt32, request: Bytes) => ResponseOf(k, code, request), answer,
        Faults(false, false, false))
  }

  lemma PreResponse(k: Kotlin, c: Call)
    ensures VerdictOf(ResponseOf(k, Wire.PRE_TRANSACT_CODE, Wire.PreBytes(c))) == ReadAs(Before(k, c))
  {
    Wire.PreRoundTrip(c);
    ResultRoundTrip(Before(k, c));
    assert ResponseOf(k, Wire.PRE_TRANSACT_CODE, Wire.PreBytes(c)) == Some(Wire.ResultBytes(Before(k, c)));
  }

  lemma PostResponse(k: Kotlin, c: Call, a: Answer)
    ensures VerdictOf(ResponseOf(k, Wire.POST_TRANSACT_CODE, Wire.PostBytes(c, a.status, a.reply))) == ReadAs(After(k, c, a))
  {
    Wire.PostRoundTrip(c, a.status, a.reply);
    ResultRoundTrip(After(k, c, a));
    assert ResponseOf(k, Wire.POST_TRANSACT_CODE, Wire.PostBytes(c, a.status, a.reply))
        == Some(Wire.ResultBytes(After(k, c, a)));
  }

  lemma VerdictsAreRead(interceptor: UInt64, k: Kotlin, answer: (nat, UInt32, Bytes) -> Answer, c: Call, hasReply: bool)
    ensures var env := WithKotlin(interceptor, k, answer);
            && PreVerdict(env, c) == ReadAs(Before(k, c))
            && PostVerdict(env, c, hasReply, c.data) == ReadAs(After(k, c, Shown(answer(0, c.code, c.data), hasReply)))
  {
    PreResponse(k, c);
    PostResponse(k, c, Shown(answer(0, c.code, c.data), hasReply));
  }

  /**
   The whole interposition, through the wire formats of both sides, is what the hooks mean:
   the target is transacted exactly once, with the original request, unless the first hook answers for it.
   */
  lemma InterpositionIsIntended(interceptor: UInt64, k: Kotlin, answer: (nat, UInt32, Bytes) -> Answer, c: Call,
                                hasReply: bool)
    ensures Interposed(WithKotlin(interceptor, k, answer), c, hasReply)
         == Intended(k, answer(0, c.code, c.data), c, hasReply)
  {
    VerdictsAreRead(interceptor, k, answer, c, hasReply);
    DecidedAsIntended(WithKotlin(interceptor, k, answer), c, Before(k, c),
                      After(k, c, Shown(answer(0, c.code, c.data), hasReply)), hasReply);
  }

  lemma DecidedAsIntended(env: Env, c: Call, before: Wire.HookResult, after: Wire.HookResult, hasReply: bool)
    requires env.faults == Faults(false, false, false)
    ensures var effect := Meant(before, after, Shown(env.answer(0, c.code, c.data), hasReply), c);
            Decided(env, c, hasReply, ReadAs(before), if before.Continue? then ReadAs(after) else Invalid)
            == if hasReply then effect else effect.(reply := [])
  {
    PutAtStart(env.answer(0, c.code, c.data).reply);
  }

  lemma PutAtStart(bytes: Bytes)
    ensures Put([], 0, bytes) == bytes
  {
  }

  // ---- the native classes ----

  /** The intercepted binder object: it answers, and its requests are recorded. */
  class Target {
    const answer: (nat, UInt32, Bytes) -> Answer
    ghost var requests: seq<Bytes>
    var count: nat

    ghost predicate Valid()
      reads this
    {
      count == |requests|
    }

    constructor (answer: (nat, UInt32, Bytes) -> Answer)
      ensures Valid() && this.answer == answer && requests == []
    {
      this.answer := answer;
      requests, count := [], 0;
    }

    method Transact(code: UInt32, request: Parcel, reply: Parcel?) returns (status: Int32)
      requires Valid() && request != reply && (reply != null ==> reply.Valid())
      modifies this`requests, this`count, reply
      ensures Valid() && requests == old(requests) + [request.data]
      ensures status == answer(old(count), code, request.data).status
      ensures reply != null ==>
                && reply.position == 0
                && reply.data == Put(old(reply.data), old(reply.position), answer(old(count), code, request.data).reply)
    {
      var a := answer(count, code, request.data);
      requests, count := requests + [request.data], count + 1;
      if reply != null {
        reply.Write(a.reply);
        reply.SetDataPosition(0);
      }
      status := a.status;
    }
  }

  class BinderInterceptor {
    var registry: map<UInt64, Registration>
    const respond: (UInt64, UInt32, Bytes) -> Option<Bytes>

    constructor (respond: (UInt64, UInt32, Bytes) -> Option<Bytes>)
      ensures registry == map[] && this.respond == respond
    {
      registry, this.respond := map[], respond;
    }

    /** handleRegisterInterceptor: a later registration of a target replaces the earlier one; a bad one changes nothing. */
    method HandleRegisterInterceptor(data: Parcel, local: set<UInt64>) returns (ok: bool)
      requires data.Valid() && data.position == 0
      modifies this`registry, data`position
      ensures match ReadRegistration(data.data, local)
              case None => !ok && registry == old(registry)
              case Some((target, registration)) => ok && registry == old(registry)[target := registration]
    {
      var target := data.ReadStrongBinder();
      if target.None? || target.value !in local { return false; }
      var interceptor := data.ReadStrongBinder();
      if interceptor.None? { return false; }
      var count := data.ReadInt32();
      if count.None? { return false; }
      var n := if count.value < 0 then 0 else count.value;
      ghost var start := data.position;
      var codes: seq<UInt32> := [];
      NoCodesRead(CodesFrom(data.data, start, n));
      while |codes| < n
        invariant |codes| <= n && data.Valid() && data.position == start + 4 * |codes|
        invariant registry == old(registry)
        invariant CodesFrom(data.data, start, n) == ReadCodes(codes, CodesFrom(data.data, data.position, n - |codes|))
      {
        CodesStep(data.data, data.position, n - |codes|, codes);
        var code := data.ReadInt32();
        if code.None? { return false; }
        codes := codes + [Unsigned(code.value)];
      }
      assert codes + [] == codes;
      registry := registry[target.value := Registration(interceptor.value, codes)];
      return true;
    }

    /** What a call meets now: the target answers from its next request on. */
    ghost function EnvOf(target: Target, c: Call, faults: Faults): Env
      reads this, target
    {
      var next, answer := target.count, target.answer;
      Env(if c.target in registry then Some(registry[c.target].interceptor) else None, respond,
          (n: nat, code: UInt32, request: Bytes) => answer(next + n, code, request), faults)
    }

    /** writeInterceptorCallData, up to the data. */
    method WriteCall(writer: Parcel, c: Call)
      requires writer.Holds([])
      modifies writer
      ensures writer.Holds(Wire.CallBytes(c))
    {
      writer.Write(Token(c.target));
      writer.Write(LittleEndian32(c.code));
      writer.Write(LittleEndian32(c.flags));
      writer.Write(Int32Bytes(c.uid));
      writer.Write(Int32Bytes(c.pid));
      FiveWrites(Token(c.target), LittleEndian32(c.code), LittleEndian32(c.flags), Int32Bytes(c.uid), Int32Bytes(c.pid));
    }

    /** Asks the interceptor before the call; nothing if the request cannot be written or sent. */
    method AskBefore(interceptor: UInt64, c: Call, request: Parcel) returns (response: Option<Bytes>)
      requires request.data == c.data
      ensures response == respond(interceptor, Wire.PRE_TRANSACT_CODE, Wire.PreBytes(c))
    {
      var pre := new Parcel();
      WriteCall(pre, c);
      pre.Write(LittleEndian64(|c.data|));
      pre.Write(request.data);
      TwoMore(Wire.CallBytes(c), LittleEndian64(|c.data|), c.data);
      response := respond(interceptor, Wire.PRE_TRANSACT_CODE, pre.data);
    }

    /** Asks it again, with the target's status and reply. */
    method AskAfter(interceptor: UInt64, c: Call, request: Parcel, status: Int32, reply: Parcel?)
      returns (response: Option<Bytes>)
      requires request.data == c.data && (reply != null ==> |reply.data| < 0x8000_0000)
      ensures response == respond(interceptor, Wire.POST_TRANSACT_CODE,
                                  Wire.PostBytes(c, status, if reply != null then reply.data else []))
    {
      var answer: Blob := if reply != null then reply.data else [];
      var post := new Parcel();
      WriteCall(post, c);
      post.Write(Int32Bytes(status));
      post.Write(LittleEndian64(|c.data|));
      post.Write(request.data);
      post.Write(LittleEndian64(|answer|));
      FiveMore(Wire.CallBytes(c), Int32Bytes(status), LittleEndian64(|c.data|), c.data, LittleEndian64(|answer|), answer);
      if |answer| > 0 {
        post.Write(answer);
      } else {
        assert post.data + answer == post.data;
      }
      response := respond(interceptor, Wire.POST_TRANSACT_CODE, post.data);
    }

    /** validateInterceptorResponse and the reads that follow it. */
    method ReadResponse(response: Option<Bytes>) returns (verdict: Verdict)
      ensures verdict == VerdictOf(response)
    {
      if response.None? { return Invalid; }
      var parcel := new Parcel();
      parcel.Write(response.value);
      PutAtStart(response.value);
      parcel.SetDataPosition(0);
      var action := parcel.ReadInt32();
      if action == Some(Wire.RESULT_SKIP) { return Skipped; }
      if action == Some(Wire.RESULT_CONTINUE) { return Continued; }
      if action == Some(Wire.RESULT_OVERRIDE_REPLY) {
        var status := parcel.ReadInt32();
        var size := parcel.ReadUint64();
        return Replied(Wire.OrZero(status), Slice(parcel.data, parcel.position, Wire.OrZero(size)));
      }
      if action == Some(Wire.RESULT_OVERRIDE_DATA) {
        var size := parcel.ReadUint64();
        return Replaced(Slice(parcel.data, parcel.position, Wire.OrZero(size)));
      }
      return Invalid;
    }

    /** What the interceptor says after the target has answered is applied to the status and the reply. */
    method ApplyVerdict(verdict: Verdict, answered: Int32, reply: Parcel?, faults: Faults, ghost env: Env, ghost c: Call,
                        ghost request: Bytes)
      returns (handled: bool, status: Int32)
      requires faults == env.faults && answered == env.answer(0, c.code, request).status
      requires reply != null ==> reply.position == 0 && reply.data == env.answer(0, c.code, request).reply
      modifies reply
      ensures reply != null && !handled ==> reply.Valid() && reply.position == 0
      ensures var effect := Transacted(env, c, reply != null, request, verdict);
              if handled then effect == Effect(status, ReplyData(reply), [request])
              else effect == Forwarded(env, c, reply != null, ReplyData(reply), [request])
    {
      status := answered;
      if verdict.Invalid? { return false, status; }
      if verdict.Replied? {
        status := verdict.status;
        if reply != null {
          reply.FreeData();
          if verdict.reply.None? || faults.newReply { return false, status; }
          reply.Write(verdict.reply.value);
          PutAtStart(verdict.reply.value);
        }
      }
      return true, status;
    }

    /** The second half of handleInterceptedTransaction: the target is transacted and the interceptor asked again. */
    method TransactAndAsk(target: Target, c: Call, request: Parcel, modified: Parcel, reply: Parcel?, faults: Faults,
                          interceptor: UInt64, ghost env: Env)
      returns (handled: bool, status: Int32)
      requires target.Valid() && request.data == c.data && request != reply && modified != reply
      requires reply != null ==> reply.Holds([])
      requires env == EnvOf(target, c, faults) && env.interceptor == Some(interceptor)
      modifies target`requests, target`count, reply
      ensures target.Valid() && (reply != null && !handled ==> reply.Valid() && reply.position == 0)
      ensures var effect := Transacted(env, c, reply != null, old(modified.data),
                                       PostVerdict(env, c, reply != null, old(modified.data)));
              && target.requests == old(target.requests) + [old(modified.data)]
              && if handled then effect == Effect(status, ReplyData(reply), [old(modified.data)])
                 else effect == Forwarded(env, c, reply != null, ReplyData(reply), [old(modified.data)])
    {
      var answered := target.Transact(c.code, modified, reply);
      PutAtStart(env.answer(0, c.code, modified.data).reply);
      var response := AskAfter(interceptor, c, request, answered, reply);
      var verdict := ReadResponse(response);
      assert verdict == PostVerdict(env, c, reply != null, modified.data);
      handled, status := ApplyVerdict(verdict, answered, reply, faults, env, c, modified.data);
    }

    /** handleInterceptedTransaction; when it gives up, forwarding the original request completes the call. */
    method HandleInterceptedTransaction(target: Target, c: Call, request: Parcel, reply: Parcel?, faults: Faults,
                                        ghost env: Env)
      returns (handled: bool, status: Int32)
      requires target.Valid() && request.data == c.data && request != reply
      requires reply != null ==> reply.Holds([])
      requires env == EnvOf(target, c, faults)
      modifies target`requests, target`count, reply
      ensures target.Valid() && (reply != null && !handled ==> reply.Valid() && reply.position == 0)
      ensures old(target.requests) <= target.requests
      ensures var effect, done := Interposed(env, c, reply != null), Since(target.requests, old(target.requests));
              if handled then effect == Effect(status, ReplyData(reply), done)
              else effect == Forwarded(env, c, reply != null, ReplyData(reply), done)
    {
      if c.target !in registry { return false, 0; }
      var interceptor := registry[c.target].interceptor;
      var response := AskBefore(interceptor, c, request);
      var verdict := ReadResponse(response);
      assert verdict == PreVerdict(env, c);
      var modified := new Parcel();
      if verdict.Invalid? || verdict.Skipped? {
        return false, 0;
      } else if verdict.Replied? {
        if reply != null {
          if verdict.reply.None? || faults.reply { return false, 0; }
          reply.Write(verdict.reply.value);
          PutAtStart(verdict.reply.value);
        }
        return true, verdict.status;
      } else if verdict.Replaced? {
        if verdict.request.None? { return false, 0; }
        modified.Write(verdict.request.value);
        PutAtStart(verdict.request.value);
      } else {
        if faults.request { return false, 0; }
        modified.Write(request.data);
        PutAtStart(request.data);
      }
      handled, status := TransactAndAsk(target, c, request, modified, reply, faults, interceptor, env);
    }

    /** Forwards the original request once some requests have been made. */
    method ForwardRest(target: Target, c: Call, request: Parcel, reply: Parcel?, ghost env: Env, ghost before: seq<Bytes>,
                       ghost goal: Effect)
      returns (status: Int32)
      requires target.Valid() && request.data == c.data && request != reply && before <= target.requests
      requires reply != null ==> reply.Valid() && reply.position == 0
      requires forall code, data :: env.answer(|Since(target.requests, before)|, code, data) == target.answer(target.count, code, data)
      requires goal == Forwarded(env, c, reply != null, ReplyData(reply), Since(target.requests, before))
      modifies target`requests, target`count, reply
      ensures target.Valid() && before <= target.requests
      ensures goal == Effect(status, ReplyData(reply), Since(target.requests, before))
    {
      ghost var done := Since(target.requests, before);
      status := target.Transact(c.code, request, reply);
      assert Since(target.requests, before) == done + [c.data];
    }

    /** The stub's service of a promoted target: what the interception does not complete is forwarded. */
    method Serve(target: Target, c: Call, request: Parcel, reply: Parcel?, faults: Faults, ghost env: Env)
      returns (status: Int32)
      requires target.Valid() && request.data == c.data && request != reply
      requires reply != null ==> reply.Holds([])
      requires env == EnvOf(target, c, faults)
      modifies target`requests, target`count, reply
      ensures target.Valid() && old(target.requests) <= target.requests
      ensures Interposed(env, c, reply != null)
           == Effect(status, ReplyData(reply), Since(target.requests, old(target.requests)))
    {
      var handled;
      handled, status := HandleInterceptedTransaction(target, c, request, reply, faults, env);
      if !handled {
        status := ForwardRest(target, c, request, reply, env, old(target.requests), Interposed(env, c, reply != null));
      }
    }
  }

  ghost function ReplyData(reply: Parcel?): Bytes
    reads reply
  {
    if reply != null then reply.data else []
  }

  /** The requests recorded since an earlier time. */
  ghost function Since(now: seq<Bytes>, before: seq<Bytes>): seq<Bytes> {
    if |before| <= |now| then now[|before|..] else []
  }

  /** Codes already read, and what reading the rest gives. */
  ghost function ReadCodes(front: seq<UInt32>, rest: Option<seq<UInt32>>): Option<seq<UInt32>> {
    if rest.None? then None else Some(front + rest.value)
  }

  lemma NoCodesRead(rest: Option<seq<UInt32>>)
    ensures ReadCodes([], rest) == rest
  {
    if rest.Some? { assert [] + rest.value == rest.value; }
  }

  lemma CodesStep(s: Bytes, at: nat, n: nat, front: seq<UInt32>)
    requires n > 0
    ensures match Int32From(s, at).0
            case None => ReadCodes(front, CodesFrom(s, at, n)) == None
            case Some(code) =>
              ReadCodes(front, CodesFrom(s, at, n)) == ReadCodes(front + [Unsigned(code)], CodesFrom(s, at + 4, n - 1))
  {
    if Int32From(s, at).0.Some? {
      SignedBack(Word(s, at));
      var rest := CodesFrom(s, at + 4, n - 1);
      if rest.Some? { assert front + ([Word(s, at)] + rest.value) == (front + [Word(s, at)]) + rest.value; }
    }
  }

  lemma TwoMore(a: Bytes, b: Bytes, c: Bytes)
    ensures a + b + c == a + (b + c)
  {
  }

  lemma FiveMore(a: Bytes, b: Bytes, c: Bytes, d: Bytes, e: Bytes, f: Bytes)
    ensures a + b + c + d + e + f == a + (b + (c + (d + (e + f))))
  {
  }

  lemma FiveWrites(a: Bytes, b: Bytes, c: Bytes, d: Bytes, e: Bytes)
    ensures [] + a + b + c + d + e == a + (b + (c + (d + e)))
  {
  }
}
