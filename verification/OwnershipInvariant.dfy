/**
 What every interleaving of hooks keeps. A step is one hook with everything it is given;
 a run is any sequence of steps. `local` is the set of numbers the local random source
 draws for nspaces and grant ids; the real keystore's numbers lie outside it.
 */
module OwnershipInvariant {
  import opened Common
  import opened KeyData
  import opened Ownership
  import opened Hooks

  datatype Step =
    | DeleteKeyPre(uid: Int32, request: Option<Descriptor>)
    | DeleteKeyPost(uid: Int32, request: Option<Descriptor>)
    | UpdateSubcomponentPre(uid: Int32, request: Option<Descriptor>, certificate: Option<Blob>, chain: Option<Blob>)
    | UpdateSubcomponentPost(uid: Int32, request: Option<Descriptor>)
    | GrantKeyPre(hasKeyboxes: bool, uid: Int32, request: Option<Descriptor>, granteeUid: Int32, accessVector: bv32, id: Int64)
    | GrantKeyPost(hasKeyboxes: bool, uid: Int32, request: Option<Descriptor>, granteeUid: Int32, accessVector: bv32,
                   granted: Option<Int64>)
    | UngrantKeyPre(uid: Int32, request: Option<Descriptor>, granteeUid: Int32)
    | GetKeyEntryPre(hasKeyboxes: bool, modes: Modes, uid: Int32, request: Option<Descriptor>)
    | GetKeyEntryPost(modes: Modes, uid: Int32, request: Option<Descriptor>, entry: BackendReply<RealEntry>)
    | GenerateKeyPre(level: Int32, modes: Modes, phonePermission: bool, uid: Int32, generate: Option<GenerateRequest>,
                     keygen: Keygen, draw: Int64)
    | GenerateKeyPost(level: Int32, uid: Int32, alias: Option<Utf16>, generated: BackendReply<RealMetadata>)
    | ImportKeyPost(uid: Int32, alias: Option<Utf16>, imported: BackendReply<()>)
    | FinishOperation(usageKey: Option<Key>, limit: Int32)
    | CleanupAll

  function Apply(s: State, step: Step): State {
    match step
    case DeleteKeyPre(uid, r) => DeletePre(s, uid, r).0
    case DeleteKeyPost(uid, r) => DeletePost(s, uid, r)
    case UpdateSubcomponentPre(uid, r, certificate, chain) => UpdatePre(s, uid, r, certificate, chain).0
    case UpdateSubcomponentPost(uid, r) => UpdatePost(s, uid, r)
    case GrantKeyPre(kb, uid, r, grantee, access, id) => GrantPre(s, kb, uid, r, grantee, access, id).0
    case GrantKeyPost(kb, uid, r, grantee, access, granted) => GrantPost(s, kb, uid, r, grantee, access, granted)
    case UngrantKeyPre(uid, r, grantee) => UngrantPre(s, uid, r, grantee).0
    case GetKeyEntryPre(kb, m, uid, r) => ReadPre(s, kb, m, uid, r).0
    case GetKeyEntryPost(m, uid, r, entry) => ReadPost(s, m, uid, r, entry).0
    case GenerateKeyPre(level, m, phone, uid, r, keygen, draw) => GeneratePre(s, level, m, phone, uid, r, keygen, draw).0
    case GenerateKeyPost(level, uid, alias, generated) => GeneratePost(s, level, uid, alias, generated).0
    case ImportKeyPost(uid, alias, imported) => ImportPost(s, uid, alias, imported)
    case FinishOperation(usageKey, limit) =>
      s.(cache := s.cache.(usageRemaining := Consume(s.cache.usageRemaining, usageKey, limit).0))
    case CleanupAll => CleanupEverything(s)
  }

  /** A number the random source has not handed out to anything still recorded. */
  ghost predicate Fresh(c: Cache, n: Int64, local: iset<Int64>) {
    n in local && n != 0 && n !in c.keysByNspace && n !in c.grants
  }

  /** The grant hook finds an existing grant if there is one and otherwise draws a fresh id. */
  ghost predicate GrantIdChosen(c: Cache, uid: Int32, d: Descriptor, granteeUid: Int32, id: Int64, local: iset<Int64>) {
    match ResolveKey(c, uid, d)
    case None => true
    case Some(k) => if GrantIds(c, k, granteeUid) == {} then Fresh(c, id, local) else id in GrantIds(c, k, granteeUid)
  }

  /** The assumptions about random draws, about the real keystore's numbers, and that forged responses can be built. */
  ghost predicate Allowed(s: State, step: Step, local: iset<Int64>) {
    match step
    case GrantKeyPre(kb, uid, r, grantee, access, id) =>
      r.Some? ==> GrantIdChosen(s.cache, uid, r.value, grantee, id, local)
    case GrantKeyPost(kb, uid, r, grantee, access, granted) => granted.Some? ==> granted.value !in local
    case GetKeyEntryPost(m, uid, r, entry) => entry.Answer? ==> entry.value.response.metadata.nspace !in local
    case GenerateKeyPre(level, m, phone, uid, r, keygen, draw) => Fresh(s.cache, draw, local) && !keygen.Unbuilt?
    case GenerateKeyPost(level, uid, alias, generated) =>
      generated.Answer? && generated.value.metadata.Some? ==> generated.value.metadata.value.nspace !in local
    case _ => true
  }

  function ForgedNspace(c: Cache, k: Key): Int64
    requires k in c.keys
  {
    c.keys[k].response.metadata.nspace
  }

  /** A forged key is neither patched nor passed through, and its side entries exist only with it. */
  ghost predicate Exclusive(c: Cache, r: Registry) {
    && (forall k :: k in c.keys ==> k !in c.patched && k !in r.tracked)
    && c.keyPairs.Keys <= c.keys.Keys
    && c.skipLeafHacks.Keys <= c.keys.Keys
  }

  /** Every grant belongs to the key's own uid, and its key still answers for certificates. */
  ghost predicate GrantsLive(c: Cache) {
    forall id :: id in c.grants ==> c.grants[id].ownerUid == c.grants[id].key.uid && IsPatchedKey(c, c.grants[id].key)
  }

  /** No index entry dangles. */
  ghost predicate IndexesLive(c: Cache, r: Registry) {
    && (forall n :: n in c.keysByNspace ==> IsPatchedKey(c, c.keysByNspace[n]) || c.keysByNspace[n] in r.tracked)
    && (forall n :: n in r.byNspace ==> r.byNspace[n] in r.tracked)
  }

  /** A forged key is indexed under its own locally drawn nspace and under no other. */
  ghost predicate ForgedIndexed(c: Cache, local: iset<Int64>) {
    && (forall k :: k in c.keys ==>
          && ForgedNspace(c, k) in local && ForgedNspace(c, k) != 0
          && ForgedNspace(c, k) in c.keysByNspace && c.keysByNspace[ForgedNspace(c, k)] == k)
    && (forall n :: n in c.keysByNspace && c.keysByNspace[n] in c.keys ==> n == ForgedNspace(c, c.keysByNspace[n]))
  }

  ghost predicate Inv(s: State, local: iset<Int64>) {
    && Exclusive(s.cache, s.registry)
    && GrantsLive(s.cache)
    && IndexesLive(s.cache, s.registry)
    && ForgedIndexed(s.cache, local)
  }

  // ---- the building blocks keep the invariant ----

  /** What remains known once a key's synthetic state is cleared: nothing but its tracking. */
  lemma ClearKeeps(s: State, k: Key, persist: bool, local: iset<Int64>)
    requires Inv(s, local)
    ensures Inv(Clear(s, k, persist), local)
    ensures var c := Clear(s, k, persist).cache;
            && !IsPatchedKey(c, k)
            && (forall n :: n in c.keysByNspace ==> c.keysByNspace[n] != k)
            && (forall id :: id in c.grants ==> c.grants[id].key != k)
  {
  }

  lemma ClearThenUntrackKeeps(s: State, k: Key, persist: bool, local: iset<Int64>)
    requires Inv(s, local)
    ensures Inv(Relinquish(Clear(s, k, persist), k), local)
    ensures Relinquish(Clear(s, k, persist), k) == Clear(Relinquish(s, k), k, persist)
  {
    ClearKeeps(s, k, persist, local);
  }

  lemma UpdateChainKeeps(s: State, k: Key, certificate: Option<Blob>, chain: Option<Blob>, local: iset<Int64>)
    requires Inv(s, local)
    ensures Inv(s.(cache := UpdateChain(s.cache, k, certificate, chain)), local)
  {
  }

  lemma StoreKeeps(s: State, level: Int32, k: Key, domain: Int32, params: Params, skip: bool, made: Keygen, draw: Int64,
                   local: iset<Int64>)
    requires Inv(s, local) && made.Made? && Fresh(s.cache, draw, local)
    ensures Inv(StoreGenerated(s, level, k, domain, params, skip, made, draw).0, local)
  {
    ClearKeeps(s, k, false, local);
    ClearThenUntrackKeeps(s, k, false, local);
  }

  lemma GrantKeeps(s: State, id: Int64, g: Grant, local: iset<Int64>)
    requires Inv(s, local) && g.ownerUid == g.key.uid && IsPatchedKey(s.cache, g.key)
    ensures Inv(s.(cache := s.cache.(grants := s.cache.grants[id := g])), local)
  {
  }

  lemma AcceptPassthroughKeeps(s: State, k: Key, metadata: Option<Metadata>, local: iset<Int64>)
    requires Inv(s, local) && (metadata.Some? ==> metadata.value.nspace !in local)
    ensures Inv(AcceptPassthrough(s, k, metadata), local)
  {
    ClearKeeps(s, k, true, local);
  }

  /** A key that is not forged may be given a patched response, under one of the real keystore's numbers. */
  lemma PatchKeeps(s: State, k: Key, patched: Response, nspace: Int64, local: iset<Int64>)
    requires Inv(s, local) && k !in s.cache.keys && nspace !in local
    ensures Inv(s.(cache := s.cache.(
                patched := s.cache.patched[k := patched],
                keysByNspace := if nspace != 0 then s.cache.keysByNspace[nspace := k] else s.cache.keysByNspace)), local)
  {
  }

  lemma AcceptLeafForwardKeeps(s: State, k: Key, metadata: Metadata, leaf: LeafPatch, local: iset<Int64>)
    requires Inv(s, local) && metadata.nspace !in local && !leaf.Unreadable?
    ensures Inv(AcceptLeafForward(s, k, metadata, leaf).0, local)
  {
    ClearThenUntrackKeeps(s, k, false, local);
    if leaf.Rewritten? {
      var patched := WithChain(metadata, leaf.certificate, leaf.certificateChain).(authorizations := leaf.authorizations);
      PatchKeeps(Clear(Relinquish(s, k), k, false), k, Response(patched), metadata.nspace, local);
    }
  }

  /**
   A re-signed reply is stored for the key its nspace is indexed under, if any; that is never a
   forged key, since the reply carries one of the real keystore's numbers. Nothing else changes.
   */
  lemma PatchLeafKeeps(s: State, m: Modes, uid: Int32, r: Option<Descriptor>, entry: BackendReply<RealEntry>,
                       local: iset<Int64>)
    requires Inv(s, local) && (entry.Answer? ==> entry.value.response.metadata.nspace !in local)
    ensures Inv(ReadPost(s, m, uid, r, entry).0, local)
    ensures var (after, result) := ReadPost(s, m, uid, r, entry);
            if result.Patched? && entry.value.response.metadata.nspace != 0
               && entry.value.response.metadata.nspace in s.cache.keysByNspace
            then
              var k := s.cache.keysByNspace[entry.value.response.metadata.nspace];
              k !in s.cache.keys && after == s.(cache := s.cache.(patched := s.cache.patched[k := result.response]))
            else after == s
  {
    if entry.Answer? && entry.value.response.metadata.nspace in s.cache.keysByNspace {
      assert s.cache.keysByNspace[entry.value.response.metadata.nspace] !in s.cache.keys;
    }
  }

  // ---- main results ----

  /** deleteKey, importKey and updateSubcomponent end the ownership of the alias they name. */
  lemma EndingStepKeeps(s: State, step: Step, local: iset<Int64>)
    requires step.DeleteKeyPre? || step.DeleteKeyPost? || step.UpdateSubcomponentPost? || step.ImportKeyPost?
    requires Inv(s, local)
    ensures Inv(Apply(s, step), local)
  {
    if step.ImportKeyPost? {
      if step.alias.Some? { ClearThenUntrackKeeps(s, Key(step.uid, step.alias.value), true, local); }
    } else if step.UpdateSubcomponentPost? {
      if step.request.Some? && AliasOf(s.cache, step.uid, step.request.value).Some? {
        ClearThenUntrackKeeps(s, Key(step.uid, AliasOf(s.cache, step.uid, step.request.value).value), false, local);
      }
    } else if step.request.Some? && step.request.value.alias.Some? {
      ClearThenUntrackKeeps(s, Key(step.uid, step.request.value.alias.value), true, local);
    }
  }

  lemma UpdatePreKeeps(s: State, uid: Int32, d: Descriptor, certificate: Option<Blob>, chain: Option<Blob>,
                       local: iset<Int64>)
    requires Inv(s, local)
    ensures Inv(UpdatePre(s, uid, Some(d), certificate, chain).0, local)
  {
    if UpdateTarget(s.cache, uid, d).Some? {
      var k := UpdateTarget(s.cache, uid, d).value;
      UpdateChainKeeps(s, k, certificate, chain, local);
      ClearKeeps(s, Key(uid, k.alias), false, local);
    }
  }

  lemma GrantStepKeeps(s: State, step: Step, local: iset<Int64>)
    requires step.GrantKeyPre? || step.GrantKeyPost? || step.UngrantKeyPre?
    requires Inv(s, local) && Allowed(s, step, local)
    ensures Inv(Apply(s, step), local)
  {
    if step.request.Some? && ResolveKey(s.cache, step.uid, step.request.value).Some? {
      var k := ResolveKey(s.cache, step.uid, step.request.value).value;
      if step.GrantKeyPre? && k in s.cache.keys {
        var g := if step.id in GrantIds(s.cache, k, step.granteeUid)
                 then s.cache.grants[step.id].(accessVector := step.accessVector)
                 else Grant(step.uid, step.granteeUid, k, step.accessVector);
        GrantKeeps(s, step.id, g, local);
      }
    }
  }

  lemma ReadPreKeeps(s: State, step: Step, local: iset<Int64>)
    requires step.GetKeyEntryPre? && Inv(s, local)
    ensures Inv(Apply(s, step), local)
  {
    if step.request.Some? && step.request.value.alias.Some? {
      var d := step.request.value;
      ClearKeeps(s, Key(step.uid, d.alias.value), FindGenerated(s.cache, step.uid, d).Some?, local);
    }
  }

  lemma StepKeepsInvariant(s: State, step: Step, local: iset<Int64>)
    requires Inv(s, local) && Allowed(s, step, local)
    ensures Inv(Apply(s, step), local)
  {
    match step
    case UpdateSubcomponentPre(uid, r, certificate, chain) =>
      if r.Some? { UpdatePreKeeps(s, uid, r.value, certificate, chain, local); }
    case GrantKeyPre(_, _, _, _, _, _) => GrantStepKeeps(s, step, local);
    case GrantKeyPost(_, _, _, _, _, _) => GrantStepKeeps(s, step, local);
    case UngrantKeyPre(_, _, _) => GrantStepKeeps(s, step, local);
    case GetKeyEntryPre(_, _, _, _) => ReadPreKeeps(s, step, local);
    case GetKeyEntryPost(m, uid, r, entry) => PatchLeafKeeps(s, m, uid, r, entry, local);
    case GenerateKeyPre(_, _, _, _, _, _, _) => GeneratePreKeeps(s, step, local);
    case GenerateKeyPost(_, _, _, _) => GeneratePostKeeps(s, step, local);
    case FinishOperation(usageKey, limit) =>
    case CleanupAll =>
    case _ => EndingStepKeeps(s, step, local);
  }

  /** A response that cannot be built leaves an index entry and a key pair of no key. */
  lemma StoreKeepsExactly(s: State, step: Step, local: iset<Int64>)
    requires Inv(s, local) && step.GenerateKeyPre? && Fresh(s.cache, step.draw, local)
    requires ReachesStore(step.modes, step.phonePermission, step.generate, step.keygen)
    ensures Inv(Apply(s, step), local) <==> step.keygen.Made?
  {
    var k := Key(step.uid, step.generate.value.alias.value);
    if step.keygen.Made? {
      StepKeepsInvariant(s, step, local);
    } else {
      var c := Apply(s, step).cache;
      assert c == StoreUnbuilt(s, k, step.keygen, step.draw).cache;
      assert k in c.keyPairs && k !in c.keys;
    }
  }

  /** Where the assumptions on a step are met, it keeps the invariant. */
  ghost predicate Keeps(before: State, step: Step, after: State) {
    forall local :: Inv(before, local) && Allowed(before, step, local) ==> Inv(after, local)
  }

  lemma StepKeeps(s: State, step: Step)
    ensures Keeps(s, step, Apply(s, step))
  {
    forall local | Inv(s, local) && Allowed(s, step, local) ensures Inv(Apply(s, step), local) {
      StepKeepsInvariant(s, step, local);
    }
  }

  /** The state as an observer sees it who also knows other pending marks. */
  function WithMarks(s: State, marks: set<(Int32, Key)>): State {
    s.(pending := s.pending + marks)
  }

  lemma MarksInPre(s: State, marks: set<(Int32, Key)>, step: Step)
    requires step.GenerateKeyPre? && forall m :: m in marks ==> m.0 != step.level
    ensures Apply(WithMarks(s, marks), step) == WithMarks(Apply(s, step), marks)
  {
    if step.generate.Some? && step.generate.value.alias.Some? {
      var mark := (step.level, Key(step.uid, step.generate.value.alias.value));
      assert (s.pending + marks) + {mark} == (s.pending + {mark}) + marks;
    }
  }

  lemma MarksInPost(s: State, marks: set<(Int32, Key)>, step: Step)
    requires step.GenerateKeyPost? && forall m :: m in marks ==> m.0 != step.level
    ensures Apply(WithMarks(s, marks), step) == WithMarks(Apply(s, step), marks)
  {
    if step.alias.Some? {
      var mark := (step.level, Key(step.uid, step.alias.value));
      assert mark !in marks;
      assert (s.pending + marks) - {mark} == (s.pending - {mark}) + marks;
    }
  }

  lemma MarksInRead(s: State, marks: set<(Int32, Key)>, step: Step)
    requires step.GetKeyEntryPre? || step.GetKeyEntryPost?
    ensures Apply(WithMarks(s, marks), step) == WithMarks(Apply(s, step), marks)
  {
  }

  lemma MarksInOthers(s: State, marks: set<(Int32, Key)>, step: Step)
    requires !step.GenerateKeyPre? && !step.GenerateKeyPost? && !step.GetKeyEntryPre? && !step.GetKeyEntryPost?
    ensures Apply(WithMarks(s, marks), step) == WithMarks(Apply(s, step), marks)
  {
  }

  /** The hooks of one security level neither see nor change the pending marks of another. */
  lemma OtherMarksIrrelevant(s: State, marks: set<(Int32, Key)>, step: Step)
    requires forall m :: m in marks && (step.GenerateKeyPre? || step.GenerateKeyPost?) ==> m.0 != step.level
    ensures Apply(WithMarks(s, marks), step) == WithMarks(Apply(s, step), marks)
  {
    if step.GenerateKeyPre? {
      MarksInPre(s, marks, step);
    } else if step.GenerateKeyPost? {
      MarksInPost(s, marks, step);
    } else if step.GetKeyEntryPre? || step.GetKeyEntryPost? {
      MarksInRead(s, marks, step);
    } else {
      MarksInOthers(s, marks, step);
    }
  }

  lemma GeneratePreKeeps(s: State, step: Step, local: iset<Int64>)
    requires step.GenerateKeyPre? && Inv(s, local) && Allowed(s, step, local)
    ensures Inv(Apply(s, step), local)
  {
    if step.generate.Some? && step.generate.value.alias.Some? {
      var r := step.generate.value;
      var k := Key(step.uid, r.alias.value);
      if step.keygen.Made? {
        StoreKeeps(s, step.level, k, r.domain, r.params, step.modes.needHack, step.keygen, step.draw, local);
      }
      ClearKeeps(s.(pending := s.pending + {(step.level, k)}), k, false, local);
    }
  }

  lemma GeneratePostKeeps(s: State, step: Step, local: iset<Int64>)
    requires step.GenerateKeyPost? && Inv(s, local) && Allowed(s, step, local)
    ensures Inv(Apply(s, step), local)
  {
    if step.generated.Answer? && step.alias.Some? {
      var k := Key(step.uid, step.alias.value);
      var s1 := s.(pending := s.pending - {(step.level, k)});
      var outcome := step.generated.value;
      AcceptPassthroughKeeps(s1, k, outcome.metadata, local);
      if outcome.metadata.Some? && !outcome.leaf.Unreadable? {
        AcceptLeafForwardKeeps(s1, k, outcome.metadata.value, outcome.leaf, local);
      }
    }
  }

  function Run(s: State, steps: seq<Step>): State
    decreases |steps|
  {
    if steps == [] then s else Run(Apply(s, steps[0]), steps[1..])
  }

  ghost predicate Feasible(s: State, steps: seq<Step>, local: iset<Int64>)
    decreases |steps|
  {
    steps == [] || (Allowed(s, steps[0], local) && Feasible(Apply(s, steps[0]), steps[1..], local))
  }

  /** The ownership invariant holds after every run, in whatever order the hooks interleave. */
  lemma {:induction false} RunKeepsInvariant(s: State, steps: seq<Step>, local: iset<Int64>)
    requires Inv(s, local) && Feasible(s, steps, local)
    ensures Inv(Run(s, steps), local)
    decreases |steps|
  {
    if steps != [] {
      StepKeepsInvariant(s, steps[0], local);
      RunKeepsInvariant(Apply(s, steps[0]), steps[1..], local);
    }
  }
}
