/** What the two parties of an intercepted call get: the caller its status and reply, the hooks the call as it was. */
module CallOutcomes {
  import opened Common
  import opened BinderStream
  import opened Parcels
  import Wire = InterceptorWire
  import opened NativeInterceptor

  /** What the target is handed after the interceptor was asked: the call's request or its replacement, if that can be had. */
  function Handed(env: Env, c: Call, before: Verdict): Option<Bytes> {
    match before
    case Continued => if env.faults.request then None else Some(c.data)
    case Replaced(request) => request
    case _ => None
  }

  /** The interceptor's own reply is delivered, and the target not asked. */
  predicate Preempted(env: Env, hasReply: bool, before: Verdict) {
    before.Replied? && (hasReply ==> before.reply.Some? && !env.faults.reply)
  }

  /** The interceptor's override of the target's answer is delivered. */
  predicate Overridden(env: Env, hasReply: bool, after: Verdict) {
    after.Replied? && (hasReply ==> after.reply.Some? && !env.faults.newReply)
  }

  /** The interceptor could not be asked again, or its override not be delivered. */
  predicate Lost(env: Env, hasReply: bool, after: Verdict) {
    after.Invalid? || (after.Replied? && !Overridden(env, hasReply, after))
  }

  /**
   Whatever the interceptor says and whatever fails: which requests the target is handed, and that the caller
   gets the override that was delivered, or else the status and reply of the target's last answer. Only where
   the interceptor was lost after the first answer is the last one written over it.
   */
  lemma CallerGets(env: Env, c: Call, hasReply: bool)
    ensures var e, before := Interposed(env, c, hasReply), PreVerdict(env, c);
            var handed := Handed(env, c, before);
            if Preempted(env, hasReply, before)
            then e.requests == [] && e.status == before.status && if hasReply then Some(e.reply) == before.reply else e.reply == []
            else if handed.None?
            then
              var only := env.answer(0, c.code, c.data);
              e == Effect(only.status, if hasReply then only.reply else [], [c.data])
            else
              var after, first := PostVerdict(env, c, hasReply, handed.value), env.answer(0, c.code, handed.value);
              if Overridden(env, hasReply, after)
              then e.requests == [handed.value] && e.status == after.status
                   && if hasReply then Some(e.reply) == after.reply else e.reply == []
              else if !Lost(env, hasReply, after)
              then e == Effect(first.status, if hasReply then first.reply else [], [handed.value])
              else
                var last := env.answer(1, c.code, c.data);
                && e.requests == [handed.value, c.data] && e.status == last.status
                && e.reply == if !hasReply then [] else if after.Invalid? then Put(first.reply, 0, last.reply) else last.reply
  {
    PutAtStart(env.answer(0, c.code, c.data).reply);
    PutAtStart(env.answer(1, c.code, c.data).reply);
    var handed := Handed(env, c, PreVerdict(env, c));
    if handed.Some? { assert [handed.value] + [c.data] == [handed.value, c.data]; }
  }

  /** The call as a hook sees it: the very code, flags, uid, pid and data, as Kotlin's numbers. */
  function Shown(c: Call): Wire.HookCall {
    Wire.HookCall(c.target, AsInt(c.code), AsInt(c.flags), c.uid, c.pid, c.data)
  }

  function AsInt(x: UInt32): Int32 {
    if x < 0x8000_0000 then x else x - 0x1_0000_0000
  }

  /**
   With Kotlin hooks: the first hook's override is the caller's answer, and the target is not asked; its
   Continue has the second hook asked, whose override then is; in every other case, a throw or an override
   that cannot be copied among them, the caller gets the target's answer.
   */
  lemma HooksDecide(interceptor: UInt64, k: Kotlin, answer: (nat, UInt32, Bytes) -> Answer, c: Call, hasReply: bool)
    ensures var e, a := Interposed(WithKotlin(interceptor, k, answer), c, hasReply), answer(0, c.code, c.data);
            var reply: Blob := if hasReply then a.reply else [];
            var first := k.pre(Shown(c));
            var second := k.post(Wire.PostCall(Shown(c), a.status, if |reply| == 0 then None else Some(reply)));
            if first.OverrideReply? && !k.preFails then e == Effect(first.code, if hasReply then first.reply else [], [])
            else if first.Continue? && second.OverrideReply? && !k.postFails
            then e == Effect(second.code, if hasReply then second.reply else [], [c.data])
            else e == Effect(a.status, reply, [c.data])
  {
    InterpositionIsIntended(interceptor, k, answer, c, hasReply);
    assert Shown(c) == Wire.Seen(c);
  }

  /** An interceptor may also replace the request; native reads the replacement as it was written. */
  lemma ReplacementIsRead(request: Blob)
    ensures VerdictOf(Some(Int32Bytes(4) + (LittleEndian64(|request|) + request))) == Replaced(Some(request))
  {
    var action, size := Int32Bytes(4), LittleEndian64(|request|);
    var s := action + (size + request);
    assert Wire.At(s, 0, s) && request + [] == request;
    Wire.AtBoth(s, 0, action, size + request);
    Wire.WordAt(s, 0, action);
    Wire.LengthIsRead(s, 4, size, request, []);
  }

  /** A response is one of the four actions if it begins with its number, and else it is none. */
  lemma ActionsExactly(s: Bytes)
    ensures VerdictOf(None) == Invalid
    ensures |s| < 4 ==> VerdictOf(Some(s)) == Invalid
    ensures |s| >= 4 ==>
              && (VerdictOf(Some(s)).Skipped? <==> Word(s, 0) == 1) && (VerdictOf(Some(s)).Continued? <==> Word(s, 0) == 2)
              && (VerdictOf(Some(s)).Replied? <==> Word(s, 0) == 3) && (VerdictOf(Some(s)).Replaced? <==> Word(s, 0) == 4)
  {
  }

  /** A binder of another process is never registered, nor one whose interceptor or codes are not there. */
  lemma RegistersExactly(s: Bytes, local: set<UInt64>)
    ensures ReadRegistration(s, local).Some?
            <==> && |s| >= 60 && DoubleWord(s, 0) in local
                 && (var n := Signed(Word(s, 56)); n > 0 ==> |s| >= 60 + 4 * n)
  {
    if |s| >= 60 {
      var n := Signed(Word(s, 56));
      CodesExactly(s, 60, if n < 0 then 0 else n);
    }
  }

  lemma {:induction false} CodesExactly(s: Bytes, at: nat, n: nat)
    requires at <= |s|
    ensures CodesFrom(s, at, n).Some? <==> at + 4 * n <= |s|
    decreases n
  {
    if n > 0 && at + 4 <= |s| { CodesExactly(s, at + 4, n - 1); }
  }
}
