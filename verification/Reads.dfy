/**
 What a caller of getKeyEntry can receive: safety of one whole transaction from any state,
 and coherence of later reads over any run of other hooks.
 */
module Reads {
  import opened Common
  import opened KeyData
  import opened Ownership
  import opened Hooks
  import opened OwnershipInvariant
  import opened PkgConfig

  /** One getKeyEntry call as one step: pre-hook, then perhaps the real keystore and the post-hook. */
  function ReadTransaction(s: State, hasKeyboxes: bool, pre: Modes, post: Modes, uid: Int32, request: Option<Descriptor>,
                           backend: BackendReply<RealEntry>): (State, ReadResult) {
    var (s1, reply) := ReadPre(s, hasKeyboxes, pre, uid, request);
    match reply
    case Entry(k, r) => (s1, FromCache(k, r))
    case Refused(_) => (s1, Denied)
    case Continue => ReadPost(s1, post, uid, request, backend)
    case _ => (s1, Real)
  }

  // ---- plain AUTO ----

  /** A plain AUTO caller is never answered from a cache nor with a re-signed chain, grant reads included. */
  lemma PlainAutoReadsReal(s: State, hasKeyboxes: bool, pre: Modes, post: Modes, uid: Int32, request: Option<Descriptor>,
                           backend: BackendReply<RealEntry>)
    requires pre.plainAutoAtEntry && pre.plainAuto && pre.needHack && !pre.needGenerate
    requires post.plainAuto
    ensures ReadTransaction(s, hasKeyboxes, pre, post, uid, request, backend).1 in {Real, Denied}
  {
  }

  /** The request is a grant read that the grant shortcut would answer from the cache. */
  predicate GrantShortcut(c: Cache, hasKeyboxes: bool, uid: Int32, request: Option<Descriptor>) {
    && hasKeyboxes && request.Some?
    && GrantTo(c, uid, request.value.nspace).Some?
    && var g := GrantTo(c, uid, request.value.nspace).value;
       g.accessVector & GET_INFO != 0 && CachedResponse(c, g.key).Some?
  }

  /** What the post-hook would serve if it did not know the caller to be plain AUTO. */
  predicate CachedForPost(s: State, uid: Int32, d: Descriptor) {
    && !IsPassthrough(s, uid, d)
    && ((ResolveKey(s.cache, uid, d).Some? && ResolveKey(s.cache, uid, d).value in s.cache.patched)
        || FindGenerated(s.cache, uid, d).Some?)
  }

  /**
   A uid that target.txt makes plain AUTO is answered from the cache exactly when one of the hooks
   asks for its mode before anything has resolved its packages and finds something cached: the
   pre-hook in the grant shortcut, the post-hook if the packages were forgotten in between.
   */
  lemma PlainAutoExactly(s: State, c: Config, late: Config, manager: map<Int32, Packages>, hasKeyboxes: bool, uid: Int32,
                         request: Option<Descriptor>, backend: BackendReply<RealEntry>)
    requires IsPlainAuto(Resolve(c, manager, uid), uid) && IsPlainAuto(Resolve(late, manager, uid), uid)
    ensures var pre, post := ModesOf(c, manager, uid), PostModesOf(late, manager, uid);
            var (between, reply) := ReadPre(s, hasKeyboxes, pre, uid, request);
            var result := ReadTransaction(s, hasKeyboxes, pre, post, uid, request, backend).1;
            && (result.FromCache? <==>
                  || (uid !in c.uidPackages && GrantShortcut(s.cache, hasKeyboxes, uid, request))
                  || (reply.Continue? && backend.Answer? && uid !in late.uidPackages
                      && CachedForPost(between, uid, request.value)))
            && !result.Patched?
  {
    PlainAutoModes(c, manager, uid);
    PlainAutoModes(late, manager, uid);
  }

  // ---- caller isolation ----

  /** A live grant lets `uid` see the entry of `k`. */
  ghost predicate MayInspect(c: Cache, uid: Int32, k: Key) {
    exists id :: id in c.grants && c.grants[id].key == k && c.grants[id].granteeUid == uid
              && c.grants[id].accessVector & GET_INFO != 0
  }

  /** `r` is what a cache holds for `k`. */
  predicate HeldFor(c: Cache, k: Key, r: Response) {
    (k in c.keys && r == c.keys[k].response) || (k in c.patched && r == c.patched[k])
  }

  lemma OwnerKeysAre(c: Cache, uid: Int32, d: Descriptor, k: Key)
    requires k in OwnerKeys(c, uid, d)
    ensures k.uid == uid || (GrantTo(c, uid, d.nspace).Some? && GrantTo(c, uid, d.nspace).value.key == k)
  {
  }

  /** The pre-hook of a read only ever removes entries. */
  lemma ReadPreShrinks(s: State, hasKeyboxes: bool, m: Modes, uid: Int32, request: Option<Descriptor>)
    ensures var c := ReadPre(s, hasKeyboxes, m, uid, request).0.cache;
            && (forall k :: k in c.keys ==> k in s.cache.keys && c.keys[k] == s.cache.keys[k])
            && (forall k :: k in c.patched ==> k in s.cache.patched && c.patched[k] == s.cache.patched[k])
            && (forall id :: id in c.grants ==> id in s.cache.grants && c.grants[id] == s.cache.grants[id])
  {
  }

  /** A reply is a cached response of a key the caller may see. */
  ghost predicate Isolated(c: Cache, uid: Int32, reply: PreReply) {
    reply.Entry? ==> HeldFor(c, reply.key, reply.response) && (reply.key.uid == uid || MayInspect(c, uid, reply.key))
  }

  lemma ModeIsolation(s: State, m: Modes, uid: Int32, d: Descriptor)
    requires GrantTo(s.cache, uid, d.nspace).Some? ==>
               GrantTo(s.cache, uid, d.nspace).value.accessVector & GET_INFO != 0
    ensures Isolated(s.cache, uid, ReadByMode(s, m, uid, d).1)
  {
    var reply := ReadByMode(s, m, uid, d).1;
    if reply.Entry? { OwnerKeysAre(s.cache, uid, d, reply.key); }
  }

  lemma PreHookIsolation(s: State, hasKeyboxes: bool, m: Modes, uid: Int32, request: Option<Descriptor>)
    ensures Isolated(s.cache, uid, ReadPre(s, hasKeyboxes, m, uid, request).1)
    ensures ReadPre(s, hasKeyboxes, m, uid, request).1.Continue? ==>
              request.Some? && (GrantTo(s.cache, uid, request.value.nspace).Some? ==>
                GrantTo(s.cache, uid, request.value.nspace).value.accessVector & GET_INFO != 0)
  {
    if request.Some? {
      var grant := GrantTo(s.cache, uid, request.value.nspace);
      if grant.None? || grant.value.accessVector & GET_INFO != 0 { ModeIsolation(s, m, uid, request.value); }
    }
  }

  lemma PostHookIsolation(s: State, m: Modes, uid: Int32, d: Descriptor, backend: BackendReply<RealEntry>)
    requires GrantTo(s.cache, uid, d.nspace).Some? ==>
               GrantTo(s.cache, uid, d.nspace).value.accessVector & GET_INFO != 0
    ensures match ReadPost(s, m, uid, Some(d), backend).1
            case FromCache(k, r) => HeldFor(s.cache, k, r) && (k.uid == uid || MayInspect(s.cache, uid, k))
            case _ => true
  {
    var result := ReadPost(s, m, uid, Some(d), backend).1;
    if result.FromCache? && result.key in OwnerKeys(s.cache, uid, d) { OwnerKeysAre(s.cache, uid, d, result.key); }
  }

  /**
   Whatever the modes and whichever hook answers, a reply taken from the cache of key K is
   K's own response, and goes to K's uid or to a grantee of a live grant with GET_INFO.
   */
  lemma CallerIsolation(s: State, hasKeyboxes: bool, pre: Modes, post: Modes, uid: Int32, request: Option<Descriptor>,
                        backend: BackendReply<RealEntry>)
    ensures match ReadTransaction(s, hasKeyboxes, pre, post, uid, request, backend).1
            case FromCache(k, r) => HeldFor(s.cache, k, r) && (k.uid == uid || MayInspect(s.cache, uid, k))
            case _ => true
  {
    var (s1, reply) := ReadPre(s, hasKeyboxes, pre, uid, request);
    PreHookIsolation(s, hasKeyboxes, pre, uid, request);
    ReadPreShrinks(s, hasKeyboxes, pre, uid, request);
    if reply.Continue? {
      PostHookIsolation(s1, post, uid, request.value, backend);
      IsolationShrinks(s1.cache, s.cache, uid);
    }
  }

  /** What a smaller cache shows a caller, a larger one shows too. */
  lemma IsolationShrinks(small: Cache, large: Cache, uid: Int32)
    requires forall k :: k in small.keys ==> k in large.keys && small.keys[k] == large.keys[k]
    requires forall k :: k in small.patched ==> k in large.patched && small.patched[k] == large.patched[k]
    requires forall id :: id in small.grants ==> id in large.grants && small.grants[id] == large.grants[id]
    ensures forall k, r :: HeldFor(small, k, r) ==> HeldFor(large, k, r)
    ensures forall k :: MayInspect(small, uid, k) ==> MayInspect(large, uid, k)
  {
  }

  // ---- what a step can change ----

  /** Everything recorded for one key, apart from numbers that point to it and its usage counter. */
  datatype Holdings = Holdings(
    info: Option<Info>, keyPair: Option<(KeyPair, Chain)>, skipLeafHack: Option<bool>, patched: Option<Response>,
    tracked: bool)

  function HoldingsOf(s: State, k: Key): Holdings {
    Holdings(Lookup(s.cache.keys, k), Lookup(s.cache.keyPairs, k), Lookup(s.cache.skipLeafHacks, k),
             Lookup(s.cache.patched, k), k in s.registry.tracked)
  }

  function AliasKey(uid: Int32, alias: Option<Utf16>): set<Key> {
    if alias.Some? then {Key(uid, alias.value)} else {}
  }

  function RequestKey(uid: Int32, request: Option<Descriptor>): set<Key> {
    if request.Some? then AliasKey(uid, request.value.alias) else {}
  }

  /** The keys a step is about; a read is about a key only where it rejects or re-signs its response. */
  function Subjects(s: State, step: Step): set<Key>
    requires !step.CleanupAll?
  {
    match step
    case DeleteKeyPre(uid, r) => RequestKey(uid, r)
    case DeleteKeyPost(uid, r) => RequestKey(uid, r)
    case UpdateSubcomponentPre(uid, r, _, _) =>
      if r.None? || UpdateTarget(s.cache, uid, r.value).None? then {}
      else
        var k := UpdateTarget(s.cache, uid, r.value).value;
        if k in s.cache.keys then {k} else {Key(uid, k.alias)}
    case UpdateSubcomponentPost(uid, r) => if r.Some? then AliasKey(uid, AliasOf(s.cache, uid, r.value)) else {}
    case GetKeyEntryPre(_, m, uid, r) => if m.needHack && m.plainAuto && !m.needGenerate then RequestKey(uid, r) else {}
    case GetKeyEntryPost(m, uid, r, entry) =>
      if entry.Answer? && PostActionFor(s, m, uid, r).PatchLeaf? && entry.value.leaf.Rewritten?
         && entry.value.response.metadata.nspace in s.cache.keysByNspace
      then {s.cache.keysByNspace[entry.value.response.metadata.nspace]} else {}
    case GenerateKeyPre(_, _, _, uid, r, _, _) => if r.Some? then AliasKey(uid, r.value.alias) else {}
    case GenerateKeyPost(_, uid, alias, _) => AliasKey(uid, alias)
    case ImportKeyPost(uid, alias, _) => AliasKey(uid, alias)
    case _ => {}
  }

  lemma ClearFrame(s: State, ended: Key, persist: bool, k: Key)
    requires k != ended
    ensures HoldingsOf(Clear(s, ended, persist), k) == HoldingsOf(s, k)
    ensures HoldingsOf(Relinquish(s, ended), k) == HoldingsOf(s, k)
    ensures HoldingsOf(Relinquish(Clear(s, ended, persist), ended), k) == HoldingsOf(s, k)
  {
  }

  lemma StoreFrame(s: State, level: Int32, stored: Key, r: GenerateRequest, skip: bool, made: Keygen, draw: Int64, k: Key)
    requires made.Made? && k != stored
    ensures HoldingsOf(StoreGenerated(s, level, stored, r.domain, r.params, skip, made, draw).0, k) == HoldingsOf(s, k)
  {
    ClearFrame(s, stored, false, k);
    ClearFrame(Relinquish(s, stored), stored, false, k);
  }

  lemma StoreUnbuiltFrame(s: State, stored: Key, made: Keygen, draw: Int64, k: Key)
    requires made.Unbuilt? && k != stored
    ensures HoldingsOf(StoreUnbuilt(s, stored, made, draw), k) == HoldingsOf(s, k)
  {
    ClearFrame(s, stored, false, k);
    ClearFrame(Relinquish(s, stored), stored, false, k);
  }

  lemma GeneratePreFrame(s: State, step: Step, k: Key)
    requires step.GenerateKeyPre? && k !in Subjects(s, step)
    ensures HoldingsOf(Apply(s, step), k) == HoldingsOf(s, k)
  {
    if step.generate.Some? && step.generate.value.alias.Some? {
      var r := step.generate.value;
      var subject := Key(step.uid, r.alias.value);
      if step.modes.needGenerate {
        if step.keygen.Made? { StoreFrame(s, step.level, subject, r, step.modes.needHack, step.keygen, step.draw, k); }
        if step.keygen.Unbuilt? { StoreUnbuiltFrame(s, subject, step.keygen, step.draw, k); }
      } else {
        ClearFrame(s.(pending := s.pending + {(step.level, subject)}), subject, false, k);
      }
    }
  }

  lemma AcceptPassthroughFrame(s: State, ended: Key, metadata: Option<Metadata>, k: Key)
    requires k != ended
    ensures HoldingsOf(AcceptPassthrough(s, ended, metadata), k) == HoldingsOf(s, k)
  {
    ClearFrame(s, ended, true, k);
  }

  lemma AcceptLeafForwardFrame(s: State, ended: Key, metadata: Metadata, leaf: LeafPatch, k: Key)
    requires k != ended && !leaf.Unreadable?
    ensures HoldingsOf(AcceptLeafForward(s, ended, metadata, leaf).0, k) == HoldingsOf(s, k)
  {
    ClearFrame(s, ended, false, k);
    ClearFrame(Relinquish(s, ended), ended, false, k);
  }

  lemma GeneratePostFrame(s: State, step: Step, k: Key)
    requires step.GenerateKeyPost? && k !in Subjects(s, step)
    ensures HoldingsOf(Apply(s, step), k) == HoldingsOf(s, k)
  {
    if step.alias.Some? && step.generated.Answer? {
      var subject := Key(step.uid, step.alias.value);
      var s1 := s.(pending := s.pending - {(step.level, subject)});
      var outcome := step.generated.value;
      if (step.level, subject) in s.pending {
        AcceptPassthroughFrame(s1, subject, outcome.metadata, k);
      } else if outcome.metadata.Some? && !outcome.leaf.Unreadable? {
        AcceptLeafForwardFrame(s1, subject, outcome.metadata.value, outcome.leaf, k);
      }
    }
  }

  lemma UpdateFrame(s: State, step: Step, k: Key)
    requires (step.UpdateSubcomponentPre? || step.UpdateSubcomponentPost?) && k !in Subjects(s, step)
    ensures HoldingsOf(Apply(s, step), k) == HoldingsOf(s, k)
  {
    if step.request.Some? {
      if step.UpdateSubcomponentPre? && UpdateTarget(s.cache, step.uid, step.request.value).Some? {
        var subject := Key(step.uid, UpdateTarget(s.cache, step.uid, step.request.value).value.alias);
        if k != subject { ClearFrame(s, subject, false, k); }
      } else if step.UpdateSubcomponentPost? && AliasOf(s.cache, step.uid, step.request.value).Some? {
        ClearFrame(s, Key(step.uid, AliasOf(s.cache, step.uid, step.request.value).value), false, k);
      }
    }
  }

  lemma ReadPreFrame(s: State, step: Step, k: Key)
    requires step.GetKeyEntryPre? && k !in Subjects(s, step)
    ensures HoldingsOf(Apply(s, step), k) == HoldingsOf(s, k)
  {
    if step.request.Some? && step.request.value.alias.Some? {
      var d := step.request.value;
      var subject := Key(step.uid, d.alias.value);
      if k != subject { ClearFrame(s, subject, FindGenerated(s.cache, step.uid, d).Some?, k); }
    }
  }

  lemma ReadPostFrame(s: State, step: Step, k: Key)
    requires step.GetKeyEntryPost? && k !in Subjects(s, step)
    ensures HoldingsOf(Apply(s, step), k) == HoldingsOf(s, k)
  {
  }

  /** A step leaves the entries, the skip mark and the tracking of every key alone that it is not about. */
  lemma StepFrame(s: State, step: Step, k: Key)
    requires !step.CleanupAll? && k !in Subjects(s, step)
    ensures HoldingsOf(Apply(s, step), k) == HoldingsOf(s, k)
  {
    match step
    case DeleteKeyPre(uid, r) =>
      if r.Some? && r.value.alias.Some? { ClearFrame(s, Key(uid, r.value.alias.value), true, k); }
    case DeleteKeyPost(uid, r) =>
      if r.Some? && r.value.alias.Some? { ClearFrame(s, Key(uid, r.value.alias.value), true, k); }
    case ImportKeyPost(uid, alias, _) =>
      if alias.Some? { ClearFrame(s, Key(uid, alias.value), true, k); }
    case UpdateSubcomponentPre(_, _, _, _) => UpdateFrame(s, step, k);
    case UpdateSubcomponentPost(_, _) => UpdateFrame(s, step, k);
    case GetKeyEntryPre(_, _, _, _) => ReadPreFrame(s, step, k);
    case GetKeyEntryPost(_, _, _, _) => ReadPostFrame(s, step, k);
    case GenerateKeyPre(_, _, _, _, _, _, _) => GeneratePreFrame(s, step, k);
    case GenerateKeyPost(_, _, _, _) => GeneratePostFrame(s, step, k);
    case _ =>
  }

  /** No step of the run is about `k`. */
  predicate Untouched(s: State, steps: seq<Step>, k: Key)
    decreases |steps|
  {
    steps == []
    || (!steps[0].CleanupAll? && k !in Subjects(s, steps[0]) && Untouched(Apply(s, steps[0]), steps[1..], k))
  }

  lemma {:induction false} RunFrame(s: State, steps: seq<Step>, k: Key)
    requires Untouched(s, steps, k)
    ensures HoldingsOf(Run(s, steps), k) == HoldingsOf(s, k)
    decreases |steps|
  {
    if steps != [] {
      StepFrame(s, steps[0], k);
      RunFrame(Apply(s, steps[0]), steps[1..], k);
    }
  }

  // ---- read coherence ----

  /** The descriptor names the key by its alias: its nspace means nothing to the hooks. */
  predicate ByAlias(s: State, d: Descriptor, k: Key) {
    && d.alias == Some(k.alias)
    && (d.nspace == 0
        || (d.nspace !in s.cache.keysByNspace && d.nspace !in s.cache.grants && d.nspace !in s.registry.byNspace))
  }

  lemma ByAliasResolves(s: State, d: Descriptor, k: Key)
    requires ByAlias(s, d, k)
    ensures OwnerKeys(s.cache, k.uid, d) == [k] && ResolveKey(s.cache, k.uid, d) == Some(k)
    ensures GrantTo(s.cache, k.uid, d.nspace).None?
    ensures FindGenerated(s.cache, k.uid, d) == (if k in s.cache.keys then Some(k) else None)
    ensures FindPatched(s.cache, k.uid, d) == (if k in s.cache.patched then Some(k) else None)
    ensures SkipsLeafHack(s.cache, k.uid, d) == (k in s.cache.skipLeafHacks && s.cache.skipLeafHacks[k])
    ensures IsPassthrough(s, k.uid, d) <==> k in s.registry.tracked
  {
    assert OwnerKeys(s.cache, k.uid, d) == [k];
  }

  /**
   After a forge, every later read by the owner in `!` mode, by alias, returns the metadata
   generateKey returned, whatever ran in between on other keys.
   */
  lemma ForgedReadCoherence(s: State, forge: Step, steps: seq<Step>, d: Descriptor, modes: Modes, local: iset<Int64>)
    requires Inv(s, local) && forge.GenerateKeyPre? && forge.generate.Some? && Allowed(s, forge, local)
    requires GeneratePre(s, forge.level, forge.modes, forge.phonePermission, forge.uid, forge.generate, forge.keygen,
                         forge.draw).1.Generated?
    requires forge.generate.value.alias.Some?
    requires var k := Key(forge.uid, forge.generate.value.alias.value);
             var s1 := Apply(s, forge);
             && Feasible(s1, steps, local) && Untouched(s1, steps, k) && ByAlias(Run(s1, steps), d, k)
    requires modes.needGenerate
    ensures var k := Key(forge.uid, forge.generate.value.alias.value);
            var metadata := GeneratePre(s, forge.level, forge.modes, forge.phonePermission, forge.uid, forge.generate,
                                        forge.keygen, forge.draw).1.metadata;
            ReadPre(Run(Apply(s, forge), steps), true, modes, k.uid, Some(d)).1 == Entry(k, Response(metadata))
  {
    var k := Key(forge.uid, forge.generate.value.alias.value);
    var s1 := Apply(s, forge);
    StepKeepsInvariant(s, forge, local);
    RunFrame(s1, steps, k);
    ByAliasResolves(Run(s1, steps), d, k);
    var r := forge.generate.value;
    assert s1 == StoreGenerated(s, forge.level, k, r.domain, r.params, forge.modes.needHack, forge.keygen, forge.draw).0;
    assert HoldingsOf(s1, k).info.Some? && !HoldingsOf(s1, k).tracked;
  }

  /**
   After a leaf-forwarded generateKey, every later read by the owner in `?` mode, by alias,
   returns the re-signed metadata generateKey returned; a read that re-signs a reply carrying
   this key's nspace is a step about this key.
   */
  lemma LeafForwardReadCoherence(s: State, forward: Step, steps: seq<Step>, d: Descriptor, modes: Modes,
                                 local: iset<Int64>)
    requires Inv(s, local) && forward.GenerateKeyPost? && forward.alias.Some? && Allowed(s, forward, local)
    requires GeneratePost(s, forward.level, forward.uid, forward.alias, forward.generated).1.PatchedKey?
    requires var k := Key(forward.uid, forward.alias.value);
             var s1 := Apply(s, forward);
             && Feasible(s1, steps, local) && Untouched(s1, steps, k) && ByAlias(Run(s1, steps), d, k)
    requires modes.needGenerate || (modes.needHack && !modes.plainAuto)
    ensures var k := Key(forward.uid, forward.alias.value);
            var metadata := GeneratePost(s, forward.level, forward.uid, forward.alias, forward.generated).1.metadata;
            ReadPre(Run(Apply(s, forward), steps), true, modes, k.uid, Some(d)).1 == Entry(k, Response(metadata))
  {
    var k := Key(forward.uid, forward.alias.value);
    var s1 := Apply(s, forward);
    StepKeepsInvariant(s, forward, local);
    RunFrame(s1, steps, k);
    ByAliasResolves(Run(s1, steps), d, k);
    assert HoldingsOf(s1, k).patched.Some? && HoldingsOf(s1, k).info.None? && !HoldingsOf(s1, k).tracked;
    RunKeepsInvariant(s1, steps, local);
  }

  // ---- passthrough is sticky ----

  /** The steps that may end a key's passthrough tracking. */
  predicate MayUntrack(s: State, step: Step, k: Key) {
    match step
    case DeleteKeyPre(uid, r) => k in RequestKey(uid, r)
    case DeleteKeyPost(uid, r) => k in RequestKey(uid, r)
    case UpdateSubcomponentPost(uid, r) => r.Some? && k in AliasKey(uid, AliasOf(s.cache, uid, r.value))
    case ImportKeyPost(uid, alias, imported) => imported.Answer? && k in AliasKey(uid, alias)
    case GenerateKeyPre(level, m, phone, uid, r, keygen, draw) =>
      r.Some? && k in AliasKey(uid, r.value.alias) && ReachesStore(m, phone, r, keygen)
    case GenerateKeyPost(level, uid, alias, generated) =>
      && k in AliasKey(uid, alias) && generated.Answer? && (level, k) !in s.pending
      && generated.value.metadata.Some? && !generated.value.leaf.Unreadable?
    case CleanupAll => true
    case _ => false
  }

  lemma StepKeepsTracked(s: State, step: Step, k: Key)
    requires k in s.registry.tracked && !MayUntrack(s, step, k)
    ensures k in Apply(s, step).registry.tracked
  {
  }

  predicate StaysTracked(s: State, steps: seq<Step>, k: Key)
    decreases |steps|
  {
    steps == [] || (!MayUntrack(s, steps[0], k) && StaysTracked(Apply(s, steps[0]), steps[1..], k))
  }

  lemma {:induction false} RunKeepsTracked(s: State, steps: seq<Step>, k: Key)
    requires k in s.registry.tracked && StaysTracked(s, steps, k)
    ensures k in Run(s, steps).registry.tracked
    decreases |steps|
  {
    if steps != [] {
      StepKeepsTracked(s, steps[0], k);
      RunKeepsTracked(Apply(s, steps[0]), steps[1..], k);
    }
  }

  /**
   From a successful passthrough generateKey until one of those steps, the owner's reads by
   alias while it is a target return the real keystore's reply unmodified, and change nothing.
   */
  lemma PassthroughIsSticky(s: State, level: Int32, k: Key, generated: BackendReply<RealMetadata>, steps: seq<Step>,
                            d: Descriptor, hasKeyboxes: bool, pre: Modes, post: Modes, backend: BackendReply<RealEntry>)
    requires (level, k) in s.pending && generated.Answer?
    requires var s1 := GeneratePost(s, level, k.uid, Some(k.alias), generated).0;
             StaysTracked(s1, steps, k) && ByAlias(Run(s1, steps), d, k)
    requires pre.needGenerate || pre.needHack
    ensures var s2 := Run(GeneratePost(s, level, k.uid, Some(k.alias), generated).0, steps);
            ReadTransaction(s2, hasKeyboxes, pre, post, k.uid, Some(d), backend) == (s2, Real)
  {
    var s1 := GeneratePost(s, level, k.uid, Some(k.alias), generated).0;
    assert k in s1.registry.tracked;
    RunKeepsTracked(s1, steps, k);
    ByAliasResolves(Run(s1, steps), d, k);
  }

  // ---- updateSubcomponent through a grant ----

  /**
   A forwarded update drops the cached response of the key it updates exactly when the caller
   owns that key: the hook clears the caller's own entry under the key's alias, so an update
   made through a grant leaves the owner's stale response to be served.
   */
  lemma ForwardedUpdateDrops(s: State, uid: Int32, d: Descriptor, certificate: Option<Blob>, chain: Option<Blob>)
    requires UpdatePre(s, uid, Some(d), certificate, chain).1.Continue?
    requires UpdateTarget(s.cache, uid, d).Some? && UpdateTarget(s.cache, uid, d).value in s.cache.patched
    ensures var k := UpdateTarget(s.cache, uid, d).value;
            var c := UpdatePre(s, uid, Some(d), certificate, chain).0.cache;
            && (!IsPatchedKey(c, k) <==> k.uid == uid)
            && (k.uid != uid ==> c.patched[k] == s.cache.patched[k])
  {
  }
}
