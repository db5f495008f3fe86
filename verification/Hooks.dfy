/**
 The binder hooks as functions of the shared state. Each hook is one atomic step; what the
 real keystore answers, what foreign code computes and what the random source draws are
 inputs of the step.
 */
module Hooks {
  import opened Common
  import opened KeyData
  import opened Ownership

  // ---- what the hooks are given ----

  /** The caller's modes as a hook evaluates them; the grant shortcut looks before the others do. */
  datatype Modes = Modes(plainAutoAtEntry: bool, needGenerate: bool, needHack: bool, explicitLeaf: bool, plainAuto: bool)

  datatype ErrorCode =
    | PermissionDenied
    | InvalidInputLength
    | InvalidArgument
    | CannotAttestIds

  /** What a pre-hook tells the native side; the last four override the reply. */
  datatype PreReply =
    | Skip
    | Continue
    | Refused(code: ErrorCode)
    | Success
    | Entry(key: Key, response: Response)
    | Generated(metadata: Metadata)
    | GrantedAs(nspace: Int64)

  datatype GenerateRequest = GenerateRequest(
    alias: Option<Utf16>, domain: Int32, attestationKey: bool, challengeLength: Option<nat>,
    creationDatetime: bool, deviceIds: bool, attestKeyPurpose: bool, symmetric: bool, params: Params)

  /** The software key generator's outcome: nothing, a pair whose response cannot be built, or a pair with all of it. */
  datatype Keygen =
    | Unavailable
    | Unbuilt(keyPair: KeyPair, chain: Chain)
    | Made(keyPair: KeyPair, chain: Chain, certificate: Option<Blob>, certificateChain: Option<Blob>,
           authorizations: Blob, marshalled: Option<Blob>)

  /** The outcome of re-signing a real chain. */
  datatype LeafPatch =
    | Unreadable
    | Unwritable
    | Rewritten(certificate: Option<Blob>, certificateChain: Option<Blob>, authorizations: Blob)

  /** The real keystore's answer as a post-hook sees it. */
  datatype BackendReply<T> = NoReply | Thrown | Answer(value: T)

  // ---- deleteKey ----

  function DeletePre(s: State, uid: Int32, request: Option<Descriptor>): (State, PreReply) {
    if request.None? || request.value.alias.None? then (s, Continue)
    else
      var k := Key(uid, request.value.alias.value);
      var isSoftware := k in s.cache.keys && k !in s.cache.skipLeafHacks;
      (Cleanup(s, k), if isSoftware then Success else Continue)
  }

  function DeletePost(s: State, uid: Int32, request: Option<Descriptor>): State {
    if request.None? || request.value.alias.None? then s else Cleanup(s, Key(uid, request.value.alias.value))
  }

  // ---- updateSubcomponent ----

  /** The key an update concerns: resolved, or the grant's key when it still answers for certificates. */
  function UpdateTarget(c: Cache, uid: Int32, d: Descriptor): Option<Key> {
    var k := ResolveKey(c, uid, d);
    if k.Some? then k
    else match GrantTo(c, uid, d.nspace)
         case Some(g) => if IsPatchedKey(c, g.key) then Some(g.key) else None
         case None => None
  }

  predicate UpdateRefused(c: Cache, uid: Int32, d: Descriptor) {
    && ResolveKey(c, uid, d).None?
    && GrantTo(c, uid, d.nspace).Some?
    && GrantTo(c, uid, d.nspace).value.accessVector & UPDATE == 0
  }

  function UpdatePre(s: State, uid: Int32, request: Option<Descriptor>, certificate: Option<Blob>, chain: Option<Blob>)
    : (State, PreReply)
  {
    if request.None? then (s, Continue)
    else if UpdateRefused(s.cache, uid, request.value) then (s, Refused(PermissionDenied))
    else match UpdateTarget(s.cache, uid, request.value)
         case None => (s, Continue)
         case Some(k) =>
           if k in s.cache.keys then (s.(cache := UpdateChain(s.cache, k, certificate, chain)), Success)
           else (Invalidate(s, Key(uid, k.alias), false), Continue)
  }

  function UpdatePost(s: State, uid: Int32, request: Option<Descriptor>): State {
    if request.None? then s
    else match AliasOf(s.cache, uid, request.value)
         case None => s
         case Some(a) => Invalidate(s, Key(uid, a), true)
  }

  // ---- grant and ungrant ----

  /** The grants of a key to a grantee. */
  function GrantIds(c: Cache, k: Key, granteeUid: Int32): set<Int64> {
    set id | id in c.grants && c.grants[id].key == k && c.grants[id].granteeUid == granteeUid
  }

  /** `id` is the existing grant the hook finds, or the new random number if there is none. */
  function GrantPre(s: State, hasKeyboxes: bool, uid: Int32, request: Option<Descriptor>, granteeUid: Int32,
                    accessVector: bv32, id: Int64): (State, PreReply) {
    if !hasKeyboxes || request.None? then (s, Skip)
    else match ResolveKey(s.cache, uid, request.value)
         case None => (s, Skip)
         case Some(k) =>
           if k in s.cache.keys then
             var g := if id in s.cache.grants && id in GrantIds(s.cache, k, granteeUid)
                      then s.cache.grants[id].(accessVector := accessVector)
                      else Grant(uid, granteeUid, k, accessVector);
             (s.(cache := s.cache.(grants := s.cache.grants[id := g])), GrantedAs(id))
           else if k in s.cache.patched then (s, Continue)
           else (s, Skip)
  }

  /** `granted` is the nspace of the real grant descriptor, if the real keystore returned one. */
  function GrantPost(s: State, hasKeyboxes: bool, uid: Int32, request: Option<Descriptor>, granteeUid: Int32,
                     accessVector: bv32, granted: Option<Int64>): State {
    if !hasKeyboxes || request.None? || granted.None? then s
    else match ResolveKey(s.cache, uid, request.value)
         case None => s
         case Some(k) =>
           if !IsPatchedKey(s.cache, k) then s
           else s.(cache := s.cache.(grants := s.cache.grants[granted.value := Grant(uid, granteeUid, k, accessVector)]))
  }

  function UngrantPre(s: State, uid: Int32, request: Option<Descriptor>, granteeUid: Int32): (State, PreReply) {
    if request.None? then (s, Skip)
    else match ResolveKey(s.cache, uid, request.value)
         case None => (s, Skip)
         case Some(k) =>
           (s.(cache := s.cache.(grants := s.cache.grants - GrantIds(s.cache, k, granteeUid))),
            if k in s.cache.keys then Success else Skip)
  }

  // ---- getKeyEntry ----

  /** The response a grant shortcut serves: the forged one, else the patched one. */
  function CachedResponse(c: Cache, k: Key): Option<Response> {
    if k in c.keys then Some(c.keys[k].response) else Lookup(c.patched, k)
  }

  function ServeGenerated(c: Cache, uid: Int32, d: Descriptor): Option<PreReply> {
    match FindGenerated(c, uid, d)
    case Some(k) => Some(Entry(k, c.keys[k].response))
    case None => None
  }

  function ServePatched(c: Cache, uid: Int32, d: Descriptor): Option<PreReply> {
    match FindPatched(c, uid, d)
    case Some(k) => Some(Entry(k, c.patched[k]))
    case None => None
  }

  function ServeAny(c: Cache, uid: Int32, d: Descriptor): Option<PreReply> {
    match ServeGenerated(c, uid, d)
    case Some(r) => Some(r)
    case None => ServePatched(c, uid, d)
  }

  function OrElse(r: Option<PreReply>, otherwise: PreReply): PreReply {
    match r case Some(v) => v case None => otherwise
  }

  /** rejectHistoricalOwners. */
  function RejectHistorical(s: State, uid: Int32, d: Descriptor): State {
    var hadGenerated := FindGenerated(s.cache, uid, d).Some?;
    var hadPatched := FindPatched(s.cache, uid, d).Some?;
    if d.alias.None? || (!hadGenerated && !hadPatched) then s
    else Clear(s, Key(uid, d.alias.value), hadGenerated)
  }

  /** The part of the getKeyEntry pre-hook that depends on the caller's own mode. */
  function ReadByMode(s: State, m: Modes, uid: Int32, d: Descriptor): (State, PreReply) {
    if m.needGenerate then
      (s, if IsPassthrough(s, uid, d) then Continue else OrElse(ServeAny(s.cache, uid, d), Skip))
    else if m.needHack then
      if IsPassthrough(s, uid, d) then (s, Continue)
      else if m.plainAuto then (RejectHistorical(s, uid, d), Continue)
      else if SkipsLeafHack(s.cache, uid, d) then (s, OrElse(ServeGenerated(s.cache, uid, d), Continue))
      else (s, OrElse(ServePatched(s.cache, uid, d), Continue))
    else (s, OrElse(ServeAny(s.cache, uid, d), Skip))
  }

  function ReadPre(s: State, hasKeyboxes: bool, m: Modes, uid: Int32, request: Option<Descriptor>): (State, PreReply) {
    if !hasKeyboxes || request.None? then (s, Skip)
    else
      var d := request.value;
      match GrantTo(s.cache, uid, d.nspace)
      case None => ReadByMode(s, m, uid, d)
      case Some(g) =>
        if g.accessVector & GET_INFO == 0 then (s, Refused(PermissionDenied))
        else
          var cached := CachedResponse(s.cache, g.key);
          if cached.Some? && !m.plainAutoAtEntry then (s, Entry(g.key, cached.value))
          else ReadByMode(s, m, uid, d)
  }

  /** GetKeyEntryPostPolicy. */
  datatype PostAction = PassthroughUnmodified | ServeCachedPatch | PatchLeaf

  function Decide(isPassthrough: bool, hasCachedPatch: bool, hasGeneratedOwner: bool, explicitLeaf: bool,
                  autoPreserveUntracked: bool, plainAuto: bool): PostAction {
    if isPassthrough then PassthroughUnmodified
    else if plainAuto then PassthroughUnmodified
    else if hasCachedPatch || hasGeneratedOwner then ServeCachedPatch
    else if explicitLeaf then PatchLeaf
    else if autoPreserveUntracked then PassthroughUnmodified
    else PatchLeaf
  }

  function PostActionFor(s: State, m: Modes, uid: Int32, request: Option<Descriptor>): PostAction {
    var own := if request.Some? then ResolveKey(s.cache, uid, request.value) else None;
    Decide(request.Some? && IsPassthrough(s, uid, request.value),
           own.Some? && own.value in s.cache.patched,
           request.Some? && FindGenerated(s.cache, uid, request.value).Some?,
           m.explicitLeaf, m.needHack && !m.needGenerate && !m.explicitLeaf, m.plainAuto)
  }

  /** What the caller of getKeyEntry finally receives. */
  datatype ReadResult =
    | Denied
    | FromCache(key: Key, response: Response)
    | Patched(response: Response)
    | Real

  /** The real keystore's entry, and what re-signing its chain would yield. */
  datatype RealEntry = RealEntry(response: Response, leaf: LeafPatch)

  /** Re-signs a real entry and caches it for the key, of whatever uid, that the entry's nspace is indexed under. */
  function PatchLeafEntry(s: State, entry: RealEntry): (State, ReadResult) {
    var original := entry.response.metadata;
    if !entry.leaf.Rewritten? then (s, Real)
    else
      var patched := Response(WithChain(original, entry.leaf.certificate, entry.leaf.certificateChain)
                              .(authorizations := entry.leaf.authorizations));
      if original.nspace != 0 && original.nspace in s.cache.keysByNspace
      then (s.(cache := s.cache.(patched := s.cache.patched[s.cache.keysByNspace[original.nspace] := patched])), Patched(patched))
      else (s, Patched(patched))
  }

  function ReadPost(s: State, m: Modes, uid: Int32, request: Option<Descriptor>, reply: BackendReply<RealEntry>)
    : (State, ReadResult)
  {
    if !reply.Answer? then (s, Real)
    else match PostActionFor(s, m, uid, request)
         case PassthroughUnmodified => (s, Real)
         case ServeCachedPatch =>
           var own := ResolveKey(s.cache, uid, request.value);
           if own.Some? && own.value in s.cache.patched then (s, FromCache(own.value, s.cache.patched[own.value]))
           else
             var k := FindGenerated(s.cache, uid, request.value).value;
             (s, FromCache(k, s.cache.keys[k].response))
         case PatchLeaf => PatchLeafEntry(s, reply.value)
  }

  // ---- generateKey ----

  datatype Route = Generate | LeafForward | LeafForwardAttestation | PassthroughRealTee | Unrouted

  /** GenerateKeyRoute.selectTopLevelRoute. */
  function SelectRoute(forceForge: bool, needHack: bool, explicitLeaf: bool, hasChallenge: bool, needGenerate: bool): Route {
    if forceForge then Generate
    else if needHack && explicitLeaf then (if hasChallenge then LeafForwardAttestation else LeafForward)
    else if needHack && !needGenerate then PassthroughRealTee
    else Unrouted
  }

  /** storeGeneratedKey: takes the key over from whoever owned it and queues its save. */
  function StoreGenerated(s: State, level: Int32, k: Key, domain: Int32, params: Params, skipLeafHack: bool,
                          made: Keygen, draw: Int64): (State, Metadata)
    requires made.Made?
  {
    var before := Clear(Relinquish(s, k), k, false);
    var c := before.cache;
    var metadata := Metadata(draw, made.certificate, made.certificateChain, made.authorizations);
    var record := Record(k.uid, k.alias, level, skipLeafHack, draw, domain, Some(made.keyPair), None, made.chain,
                         made.marshalled, params);
    (before.(
       cache := c.(
         keysByNspace := c.keysByNspace[draw := k],
         keyPairs := c.keyPairs[k := (made.keyPair, made.chain)],
         keys := c.keys[k := Info(Some(made.keyPair), None, Response(metadata), params)],
         usageRemaining := if params.usageCountLimit > 0 then c.usageRemaining[k := params.usageCountLimit]
                           else c.usageRemaining,
         skipLeafHacks := if skipLeafHack then c.skipLeafHacks[k := true] else c.skipLeafHacks),
       jobs := before.jobs + [Save(record)]),
     metadata)
  }

  /** storeGeneratedKey when building the response throws: index and key pair are written, the key is not. */
  function StoreUnbuilt(s: State, k: Key, made: Keygen, draw: Int64): State
    requires made.Unbuilt?
  {
    var before := Clear(Relinquish(s, k), k, false);
    before.(cache := before.cache.(keysByNspace := before.cache.keysByNspace[draw := k],
                                   keyPairs := before.cache.keyPairs[k := (made.keyPair, made.chain)]))
  }

  const MAX_CHALLENGE := 128

  /** Requests answered with an error, or left alone, before any routing. */
  function ScreenRequest(r: GenerateRequest, phonePermission: bool): Option<PreReply> {
    if r.challengeLength.Some? && r.challengeLength.value > MAX_CHALLENGE then Some(Refused(InvalidInputLength))
    else if r.alias.None? then Some(Skip)
    else if r.creationDatetime then Some(Refused(InvalidArgument))
    else if r.deviceIds && !phonePermission then Some(Refused(CannotAttestIds))
    else None
  }

  predicate WantsAttestation(r: GenerateRequest) {
    r.challengeLength.Some? || r.deviceIds || r.attestKeyPurpose || r.attestationKey
  }

  /** The request is one the hook forges a key for, and the generator has a pair for it. */
  predicate ReachesStore(m: Modes, phonePermission: bool, request: Option<GenerateRequest>, keygen: Keygen) {
    && request.Some? && ScreenRequest(request.value, phonePermission).None?
    && m.needGenerate && !request.value.symmetric && WantsAttestation(request.value) && !keygen.Unavailable?
  }

  function GeneratePre(s: State, level: Int32, m: Modes, phonePermission: bool, uid: Int32,
                       request: Option<GenerateRequest>, keygen: Keygen, draw: Int64): (State, PreReply) {
    if request.None? then (s, Skip)
    else if ScreenRequest(request.value, phonePermission).Some? then (s, ScreenRequest(request.value, phonePermission).value)
    else
      var r := request.value;
      var k := Key(uid, r.alias.value);
      if m.needGenerate then
        if r.symmetric || !WantsAttestation(r) then (s, Continue)
        else if keygen.Unavailable? then (s, Skip)
        else if keygen.Unbuilt? then (StoreUnbuilt(s, k, keygen, draw), Skip)
        else
          var (stored, metadata) := StoreGenerated(s, level, k, r.domain, r.params, m.needHack, keygen, draw);
          (stored, Generated(metadata))
      else if m.needHack then
        if SelectRoute(false, true, m.explicitLeaf, r.challengeLength.Some?, m.needGenerate).PassthroughRealTee? then
          (Clear(s.(pending := s.pending + {(level, k)}), k, false), Continue)
        else
          (s.(cache := s.cache.(skipLeafHacks := s.cache.skipLeafHacks - {k})), Continue)
      else (s, Skip)
  }

  /** What the caller of generateKey finally receives when the real keystore was asked. */
  datatype GenerateResult = RealKey | PatchedKey(metadata: Metadata)

  /** The metadata of a really generated key, and what re-signing its chain would yield. */
  datatype RealMetadata = RealMetadata(metadata: Option<Metadata>, leaf: LeafPatch)

  /** A passthrough key generated by the real keystore: tracked, and indexed by its real nspace. */
  function AcceptPassthrough(s: State, k: Key, metadata: Option<Metadata>): State {
    var cleared := Clear(s, k, true);
    var nspace := if metadata.Some? then metadata.value.nspace else 0;
    cleared.(
      cache := if nspace != 0 then cleared.cache.(keysByNspace := cleared.cache.keysByNspace[nspace := k])
               else cleared.cache,
      registry := Promote(cleared.registry, k, nspace))
  }

  /** A forwarded key whose real chain is re-signed: the patched response takes the key over. */
  function AcceptLeafForward(s: State, k: Key, metadata: Metadata, leaf: LeafPatch): (State, GenerateResult)
    requires !leaf.Unreadable?
  {
    var cleared := Clear(Relinquish(s, k), k, false);
    if leaf.Unwritable? then (cleared, RealKey)
    else
      var patched := WithChain(metadata, leaf.certificate, leaf.certificateChain).(authorizations := leaf.authorizations);
      var c := cleared.cache;
      (cleared.(cache := c.(
         patched := c.patched[k := Response(patched)],
         keysByNspace := if patched.nspace != 0 then c.keysByNspace[patched.nspace := k] else c.keysByNspace)),
       PatchedKey(patched))
  }

  function GeneratePost(s: State, level: Int32, uid: Int32, alias: Option<Utf16>, reply: BackendReply<RealMetadata>)
    : (State, GenerateResult)
  {
    if reply.NoReply? || alias.None? then (s, RealKey)
    else
      var k := Key(uid, alias.value);
      var isPassthrough := (level, k) in s.pending;
      var s1 := s.(pending := s.pending - {(level, k)});
      if reply.Thrown? then (s1, RealKey)
      else if isPassthrough then (AcceptPassthrough(s1, k, reply.value.metadata), RealKey)
      else if reply.value.metadata.None? || reply.value.leaf.Unreadable? then (s1, RealKey)
      else AcceptLeafForward(s1, k, reply.value.metadata.value, reply.value.leaf)
  }

  // ---- importKey and the usage counter ----

  function ImportPost(s: State, uid: Int32, alias: Option<Utf16>, reply: BackendReply<()>): State {
    if reply.Answer? && alias.Some? then Cleanup(s, Key(uid, alias.value)) else s
  }

  /** consumeUsage on the shared counter: the new counter and whether the use is allowed. */
  function Consume(usage: map<Key, int>, usageKey: Option<Key>, limit: Int32): (map<Key, int>, bool) {
    if limit <= 0 || usageKey.None? then (usage, true)
    else
      var k := usageKey.value;
      var current := if k in usage then usage[k] else limit;
      if current <= 0 then (usage[k := current], false) else (usage[k := current - 1], true)
  }
}
