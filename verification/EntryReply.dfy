/**
 The real keystore's getKeyEntry reply as the post-hook reads it. The header has already been read
 once, to see whether the reply is an error, when the branch that re-signs reads a header again.
 */
module EntryReply {
  import opened Common
  import opened KeyData
  import opened BinderStream
  import opened Parcels
  import Wire = InterceptorWire
  import opened Ownership
  import opened Hooks
  import opened OwnershipInvariant
  import opened Reads

  /** A reply without exception: a zero header, then the presence word and the entry, if there is one. */
  function WellFormed(entry: Option<Bytes>): Bytes {
    Int32Bytes(0) + if entry.Some? then Int32Bytes(1) + entry.value else Int32Bytes(0)
  }

  /** readException: whether it throws, and where the cursor is then; past the end it reads a zero. */
  function HeaderFrom(reply: Bytes, at: nat): (bool, nat) {
    var (code, next) := Int32From(reply, at);
    (Wire.OrZero(code) != 0, next)
  }

  datatype Reading = Erroneous | Threw | NoEntry | EntryAt(at: nat)

  /** hasException, then readException and readTypedObject from where it left the cursor. */
  function ReadEntry(reply: Bytes): Reading {
    var (failed, afterHeader) := HeaderFrom(reply, 0);
    var (threw, afterSecond) := HeaderFrom(reply, afterHeader);
    var (presence, start) := Int32From(reply, afterSecond);
    if failed then Erroneous
    else if threw then Threw
    else if Wire.OrZero(presence) == 0 then NoEntry
    else EntryAt(start)
  }

  method ReadHeader(reply: Parcel) returns (threw: bool)
    requires reply.Valid()
    modifies reply`position
    ensures reply.Valid() && (threw, reply.position) == HeaderFrom(reply.data, old(reply.position))
  {
    var code := reply.ReadInt32();
    threw := Wire.OrZero(code) != 0;
  }

  method ReadResponse(reply: Parcel) returns (reading: Reading)
    requires reply.Valid() && reply.position == 0
    modifies reply`position
    ensures reading == ReadEntry(reply.data)
  {
    var failed := ReadHeader(reply);
    if failed { return Erroneous; }
    var threw := ReadHeader(reply);
    if threw { return Threw; }
    var presence := reply.ReadInt32();
    return if Wire.OrZero(presence) == 0 then NoEntry else EntryAt(reply.position);
  }

  /** After a clean header the second read succeeds exactly when the next word is zero. */
  lemma SecondHeaderExactly(reply: Bytes)
    requires |reply| >= 8 && Word(reply, 0) == 0
    ensures ReadEntry(reply) != Threw <==> Word(reply, 4) == 0
  {
  }

  /** A reply in which an entry is reached: two zero words, where a well-formed one has a zero and a one. */
  predicate TwoHeaders(reply: Bytes) {
    |reply| >= 12 && Word(reply, 0) == 0 && Word(reply, 4) == 0 && Word(reply, 8) != 0
  }

  /** In a well-formed reply that word says whether there is an entry, so no entry is ever reached. */
  lemma NoEntryIsReached(entry: Option<Bytes>)
    ensures ReadEntry(WellFormed(entry)) == if entry.Some? then Threw else NoEntry
  {
    var rest := if entry.Some? then Int32Bytes(1) + entry.value else Int32Bytes(0);
    var reply := WellFormed(entry);
    assert Wire.At(reply, 0, Int32Bytes(0) + rest);
    Wire.AtBoth(reply, 0, Int32Bytes(0), rest);
    Wire.WordAt(reply, 0, Int32Bytes(0));
    if entry.Some? { Wire.AtBoth(reply, 4, Int32Bytes(1), entry.value); }
    Wire.WordAt(reply, 4, Int32Bytes(if entry.Some? then 1 else 0));
  }

  /** What re-signing comes to: nothing is readable unless an entry is reached. */
  function LeafOf(reply: Bytes, resigned: LeafPatch): LeafPatch {
    if ReadEntry(reply).EntryAt? then resigned else Unreadable
  }

  /** The post-hook re-signs exactly when its policy says so, the reply has two headers and its chain can be re-signed. */
  lemma ResignsExactly(s: State, m: Modes, uid: Int32, request: Option<Descriptor>, response: Response, reply: Bytes,
                       resigned: LeafPatch)
    ensures var result := ReadPost(s, m, uid, request, Answer(RealEntry(response, LeafOf(reply, resigned)))).1;
            result.Patched? <==> PostActionFor(s, m, uid, request).PatchLeaf? && TwoHeaders(reply) && resigned.Rewritten?
  {
    assert ReadEntry(reply).EntryAt? <==> TwoHeaders(reply);
  }

  /** So it re-signs no well-formed reply, and a read of one changes no map. */
  lemma WellFormedStaysReal(s: State, m: Modes, uid: Int32, request: Option<Descriptor>, response: Response,
                            entry: Option<Bytes>, resigned: LeafPatch)
    ensures var (after, result) := ReadPost(s, m, uid, request,
                                            Answer(RealEntry(response, LeafOf(WellFormed(entry), resigned))));
            after == s && !result.Patched?
  {
    NoEntryIsReached(entry);
  }

  // ---- runs ----

  /** The replies the post-hooks of a run read are well-formed. */
  ghost predicate ReadsWellFormed(step: Step) {
    step.GetKeyEntryPost? && step.entry.Answer? ==>
      exists entry: Option<Bytes>, resigned: LeafPatch :: step.entry.value.leaf == LeafOf(WellFormed(entry), resigned)
  }

  /** No step of the run but reads of the real keystore's replies is about the key. */
  predicate UntouchedButRead(s: State, steps: seq<Step>, k: Key)
    decreases |steps|
  {
    steps == []
    || (!steps[0].CleanupAll? && (steps[0].GetKeyEntryPost? || k !in Subjects(s, steps[0]))
        && UntouchedButRead(Apply(s, steps[0]), steps[1..], k))
  }

  lemma ReadIsAboutNothing(s: State, step: Step)
    requires step.GetKeyEntryPost? && ReadsWellFormed(step)
    ensures Subjects(s, step) == {}
  {
    if step.entry.Answer? {
      var entry: Option<Bytes>, resigned: LeafPatch :| step.entry.value.leaf == LeafOf(WellFormed(entry), resigned);
      NoEntryIsReached(entry);
    }
  }

  lemma {:induction false} ReadsTouchNothing(s: State, steps: seq<Step>, k: Key)
    requires UntouchedButRead(s, steps, k) && forall step :: step in steps ==> ReadsWellFormed(step)
    ensures Untouched(s, steps, k)
    decreases |steps|
  {
    if steps != [] {
      assert steps[0] in steps && forall step :: step in steps[1..] ==> step in steps;
      if steps[0].GetKeyEntryPost? { ReadIsAboutNothing(s, steps[0]); }
      ReadsTouchNothing(Apply(s, steps[0]), steps[1..], k);
    }
  }

  /**
   With well-formed replies, the re-signed metadata of a leaf-forwarded key is served until a step
   other than a read is about the key, whoever reads whatever in between.
   */
  lemma ReadsKeepCoherence(s: State, forward: Step, steps: seq<Step>, d: Descriptor, modes: Modes, local: iset<Int64>)
    requires Inv(s, local) && forward.GenerateKeyPost? && forward.alias.Some? && Allowed(s, forward, local)
    requires GeneratePost(s, forward.level, forward.uid, forward.alias, forward.generated).1.PatchedKey?
    requires forall step :: step in steps ==> ReadsWellFormed(step)
    requires var k := Key(forward.uid, forward.alias.value);
             var s1 := Apply(s, forward);
             && Feasible(s1, steps, local) && UntouchedButRead(s1, steps, k) && ByAlias(Run(s1, steps), d, k)
    requires modes.needGenerate || (modes.needHack && !modes.plainAuto)
    ensures var k := Key(forward.uid, forward.alias.value);
            var metadata := GeneratePost(s, forward.level, forward.uid, forward.alias, forward.generated).1.metadata;
            ReadPre(Run(Apply(s, forward), steps), true, modes, k.uid, Some(d)).1 == Entry(k, Response(metadata))
  {
    ReadsTouchNothing(Apply(s, forward), steps, Key(forward.uid, forward.alias.value));
    LeafForwardReadCoherence(s, forward, steps, d, modes, local);
  }
}
