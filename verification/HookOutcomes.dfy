/**
 What the callers of the hooks get, said of the maps alone: which key a descriptor leads to, what each
 call answers and what it leaves, from every state. The order in which the hooks ask is not repeated here.
 */
module HookOutcomes {
  import opened Common
  import opened KeyData
  import opened Ownership
  import opened Hooks
  import opened OwnershipInvariant

  // ---- which key a descriptor leads to ----

  /** The descriptor's number is indexed for an own key; or is a grant to the caller; or its alias is the caller's. */
  predicate ByIndex(c: Cache, uid: Int32, d: Descriptor, k: Key) {
    d.nspace != 0 && d.nspace in c.keysByNspace && c.keysByNspace[d.nspace] == k && k.uid == uid
  }

  predicate ByGrant(c: Cache, uid: Int32, d: Descriptor, k: Key) {
    d.nspace != 0 && d.nspace in c.grants && c.grants[d.nspace].granteeUid == uid && c.grants[d.nspace].key == k
  }

  predicate ByName(uid: Int32, d: Descriptor, k: Key) {
    d.alias == Some(k.alias) && k.uid == uid
  }

  /** An own key is resolved by its number, else by its alias; grants resolve to nothing. */
  lemma ResolvesExactly(c: Cache, uid: Int32, d: Descriptor, k: Key)
    ensures ResolveKey(c, uid, d) == Some(k)
            <==> ByIndex(c, uid, d, k) || (ByName(uid, d, k) && forall j :: !ByIndex(c, uid, d, j))
  {
    if d.nspace in c.keysByNspace { assert ByIndex(c, uid, d, c.keysByNspace[d.nspace]) || c.keysByNspace[d.nspace].uid != uid || d.nspace == 0; }
  }

  /** The first key with an entry in a map, by number before grant before alias. */
  ghost predicate Leads<V>(c: Cache, uid: Int32, d: Descriptor, m: map<Key, V>, k: Key) {
    && k in m
    && (ByIndex(c, uid, d, k)
        || (ByGrant(c, uid, d, k) && forall j :: ByIndex(c, uid, d, j) ==> j !in m)
        || (ByName(uid, d, k) && forall j :: ByIndex(c, uid, d, j) || ByGrant(c, uid, d, j) ==> j !in m))
  }

  /** The one key the descriptor names in each way, if any. */
  lemma NamedKeys(c: Cache, uid: Int32, d: Descriptor) returns (index: Option<Key>, grant: Option<Key>, name: Option<Key>)
    ensures forall k :: ByIndex(c, uid, d, k) <==> index == Some(k)
    ensures forall k :: ByGrant(c, uid, d, k) <==> grant == Some(k)
    ensures forall k :: ByName(uid, d, k) <==> name == Some(k)
    ensures OwnerKeys(c, uid, d) == Singly(index) + (Singly(grant) + Singly(name))
  {
    index := IndexedKey(c, uid, d.nspace);
    grant := if GrantTo(c, uid, d.nspace).Some? then Some(GrantTo(c, uid, d.nspace).value.key) else None;
    name := if d.alias.Some? then Some(Key(uid, d.alias.value)) else None;
  }

  function Singly(k: Option<Key>): seq<Key> {
    if k.Some? then [k.value] else []
  }

  lemma LeadsExactly<V>(c: Cache, uid: Int32, d: Descriptor, m: map<Key, V>, k: Key)
    ensures FirstIn(OwnerKeys(c, uid, d), m) == Some(k) <==> Leads(c, uid, d, m, k)
  {
    var index, grant, name := NamedKeys(c, uid, d);
    FirstOfBoth(Singly(index), Singly(grant) + Singly(name), m);
    FirstOfBoth(Singly(grant), Singly(name), m);
    FirstOfOne(index, m);
    FirstOfOne(grant, m);
    FirstOfOne(name, m);
  }

  lemma FirstOfOne<V>(k: Option<Key>, m: map<Key, V>)
    ensures FirstIn(Singly(k), m) == if k.Some? && k.value in m then k else None
  {
  }

  lemma {:induction false} FirstOfBoth<V>(front: seq<Key>, rest: seq<Key>, m: map<Key, V>)
    ensures FirstIn(front + rest, m) == if FirstIn(front, m).Some? then FirstIn(front, m) else FirstIn(rest, m)
  {
    if front == [] {
      assert front + rest == rest;
    } else {
      assert (front + rest)[1..] == front[1..] + rest;
      FirstOfBoth(front[1..], rest, m);
    }
  }

  /** A descriptor is passed through exactly when some way of naming a key names a tracked one. */
  lemma PassesThroughExactly(s: State, uid: Int32, d: Descriptor)
    ensures IsPassthrough(s, uid, d)
            <==> exists k :: k in s.registry.tracked
                   && (ByIndex(s.cache, uid, d, k) || ByGrant(s.cache, uid, d, k) || ByName(uid, d, k)
                       || (d.nspace != 0 && d.nspace in s.registry.byNspace && s.registry.byNspace[d.nspace] == k && k.uid == uid))
  {
    assert forall k :: k in OwnerKeys(s.cache, uid, d) <==>
      ByIndex(s.cache, uid, d, k) || ByGrant(s.cache, uid, d, k) || ByName(uid, d, k);
  }

  // ---- generateKey ----

  /** What the caller of generateKey gets. */
  datatype Generation = Rejected(code: ErrorCode) | RealOne | ForgedOne(metadata: Metadata) | Resigned(metadata: Metadata)

  /** One generateKey call: pre-hook, then perhaps the real keystore and the post-hook. */
  function GenerateCall(s: State, level: Int32, m: Modes, phonePermission: bool, uid: Int32, request: Option<GenerateRequest>,
                        keygen: Keygen, draw: Int64, backend: BackendReply<RealMetadata>): (State, Generation) {
    var (s1, reply) := GeneratePre(s, level, m, phonePermission, uid, request, keygen, draw);
    match reply
    case Refused(code) => (s1, Rejected(code))
    case Generated(metadata) => (s1, ForgedOne(metadata))
    case Continue =>
      var (s2, result) := GeneratePost(s1, level, uid, request.value.alias, backend);
      (s2, match result case RealKey => RealOne case PatchedKey(metadata) => Resigned(metadata))
    case _ => (s1, RealOne)
  }

  /** The request is routed at all: it has a name, a short challenge, no creation date and no forbidden device ids. */
  predicate Acceptable(r: GenerateRequest, phonePermission: bool) {
    && r.alias.Some? && (r.challengeLength.Some? ==> r.challengeLength.value <= 128)
    && !r.creationDatetime && (r.deviceIds ==> phonePermission)
  }

  /** Any other request is answered at once and changes nothing, for the first reason it gives. */
  lemma UnacceptableExactly(s: State, level: Int32, m: Modes, phonePermission: bool, uid: Int32, r: GenerateRequest,
                            keygen: Keygen, draw: Int64, backend: BackendReply<RealMetadata>)
    ensures var (after, got) := GenerateCall(s, level, m, phonePermission, uid, Some(r), keygen, draw, backend);
            var tooLong := r.challengeLength.Some? && r.challengeLength.value > 128;
            && (!Acceptable(r, phonePermission) ==> after == s)
            && (got == Rejected(InvalidInputLength) <==> tooLong)
            && (got == Rejected(InvalidArgument) <==> !tooLong && r.alias.Some? && r.creationDatetime)
            && (got == Rejected(CannotAttestIds)
                <==> !tooLong && r.alias.Some? && !r.creationDatetime && r.deviceIds && !phonePermission)
            && got != Rejected(PermissionDenied)
            && (!tooLong && r.alias.None? ==> got == RealOne)
  {
  }

  /** A target that neither forges nor asks for leaf certificates gets the real key, which is tracked from then on. */
  lemma PassthroughKeyIsReal(s: State, level: Int32, m: Modes, phonePermission: bool, uid: Int32, r: GenerateRequest,
                             keygen: Keygen, draw: Int64, made: RealMetadata)
    requires Acceptable(r, phonePermission) && m.needHack && !m.needGenerate && !m.explicitLeaf
    ensures var k := Key(uid, r.alias.value);
            var (after, got) := GenerateCall(s, level, m, phonePermission, uid, Some(r), keygen, draw, Answer(made));
            && got == RealOne && k in after.registry.tracked && (level, k) !in after.pending
            && k !in after.cache.keys && k !in after.cache.patched
            && (made.metadata.Some? && made.metadata.value.nspace != 0 ==>
                  var n := made.metadata.value.nspace;
                  && n in after.registry.byNspace && after.registry.byNspace[n] == k
                  && n in after.cache.keysByNspace && after.cache.keysByNspace[n] == k)
  {
  }

  /** In explicit leaf mode the caller gets the real key with the re-signed certificates, and they are held for it. */
  lemma LeafKeyIsResigned(s: State, level: Int32, m: Modes, phonePermission: bool, uid: Int32, r: GenerateRequest,
                          keygen: Keygen, draw: Int64, original: Metadata, certificate: Option<Blob>,
                          chain: Option<Blob>, authorizations: Blob)
    requires Acceptable(r, phonePermission) && m.needHack && !m.needGenerate && m.explicitLeaf
    requires (level, Key(uid, r.alias.value)) !in s.pending
    ensures var k := Key(uid, r.alias.value);
            var made := RealMetadata(Some(original), Rewritten(certificate, chain, authorizations));
            var (after, got) := GenerateCall(s, level, m, phonePermission, uid, Some(r), keygen, draw, Answer(made));
            var resigned := Metadata(original.nspace, certificate, chain, authorizations);
            && got == Resigned(resigned) && k in after.cache.patched && after.cache.patched[k] == Response(resigned)
            && k !in after.cache.keys && k !in after.registry.tracked
            && (original.nspace != 0 ==>
                  original.nspace in after.cache.keysByNspace && after.cache.keysByNspace[original.nspace] == k)
  {
  }

  /**
   Before the real keystore is asked: a passthrough request marks the key and clears what is synthetic about
   it, in memory only; one for leaf certificates drops the key's skip mark and nothing else.
   */
  lemma ForwardingPrepares(s: State, level: Int32, m: Modes, phonePermission: bool, uid: Int32, r: GenerateRequest,
                           keygen: Keygen, draw: Int64)
    requires Acceptable(r, phonePermission) && m.needHack && !m.needGenerate
    ensures var k := Key(uid, r.alias.value);
            var (after, reply) := GeneratePre(s, level, m, phonePermission, uid, Some(r), keygen, draw);
            && reply == Continue && after.jobs == s.jobs && after.registry == s.registry
            && after.cache.skipLeafHacks == s.cache.skipLeafHacks - {k}
            && (m.explicitLeaf ==> after == s.(cache := s.cache.(skipLeafHacks := after.cache.skipLeafHacks)))
            && (!m.explicitLeaf ==> after.pending == s.pending + {(level, k)}
                                    && after.cache.keys == s.cache.keys - {k} && after.cache.patched == s.cache.patched - {k})
  {
  }

  /** If the re-signed chain cannot be put into the reply, the caller gets the real key, and nothing older is held for it. */
  lemma UnwritableKeyIsReal(s: State, level: Int32, uid: Int32, k: Key, original: Metadata)
    requires uid == k.uid && (level, k) !in s.pending
    ensures var (after, result) := GeneratePost(s, level, uid, Some(k.alias), Answer(RealMetadata(Some(original), Unwritable)));
            && result == RealKey && after.cache.keys == s.cache.keys - {k} && after.cache.patched == s.cache.patched - {k}
            && after.registry.tracked == s.registry.tracked - {k} && after.jobs == s.jobs
  {
  }

  /** A forging target that asks for an attested asymmetric key gets the forged one. */
  lemma AttestedKeyIsForged(s: State, level: Int32, m: Modes, phonePermission: bool, uid: Int32, r: GenerateRequest,
                            made: Keygen, draw: Int64, backend: BackendReply<RealMetadata>)
    requires Acceptable(r, phonePermission) && m.needGenerate && made.Made? && !r.symmetric
    requires r.challengeLength.Some? || r.deviceIds || r.attestKeyPurpose || r.attestationKey
    ensures var k := Key(uid, r.alias.value);
            var (after, got) := GenerateCall(s, level, m, phonePermission, uid, Some(r), made, draw, backend);
            var metadata := Metadata(draw, made.certificate, made.certificateChain, made.authorizations);
            && got == ForgedOne(metadata)
            && k in after.cache.keys && after.cache.keys[k] == Info(Some(made.keyPair), None, Response(metadata), r.params)
            && k in after.cache.keyPairs && after.cache.keyPairs[k] == (made.keyPair, made.chain)
            && draw in after.cache.keysByNspace && after.cache.keysByNspace[draw] == k
            && (k in after.cache.skipLeafHacks <==> m.needHack)
            && k !in after.registry.tracked && k !in after.cache.patched
  {
  }

  /** Any other key of a forging target is the real keystore's, and nothing is done before that has answered. */
  lemma OrdinaryKeyIsForwarded(s: State, level: Int32, m: Modes, phonePermission: bool, uid: Int32, r: GenerateRequest,
                               keygen: Keygen, draw: Int64)
    requires Acceptable(r, phonePermission) && m.needGenerate
    requires r.symmetric || !(r.challengeLength.Some? || r.deviceIds || r.attestKeyPurpose || r.attestationKey)
    ensures GenerateCall(s, level, m, phonePermission, uid, Some(r), keygen, draw, NoReply) == (s, RealOne)
    ensures GeneratePre(s, level, m, phonePermission, uid, Some(r), keygen, draw) == (s, Continue)
  {
  }

  /** Nothing is intercepted for a caller that is no target, and nothing forged without a key pair. */
  lemma NoTargetNoTrace(s: State, level: Int32, m: Modes, phonePermission: bool, uid: Int32, r: GenerateRequest,
                        keygen: Keygen, draw: Int64, backend: BackendReply<RealMetadata>)
    requires Acceptable(r, phonePermission)
    requires (!m.needGenerate && !m.needHack)
             || (m.needGenerate && !r.symmetric && keygen.Unavailable?
                 && (r.challengeLength.Some? || r.deviceIds || r.attestKeyPurpose || r.attestationKey))
    ensures GenerateCall(s, level, m, phonePermission, uid, Some(r), keygen, draw, backend) == (s, RealOne)
    ensures GeneratePre(s, level, m, phonePermission, uid, Some(r), keygen, draw).1 == Skip
  {
  }

  /** A key the real keystore did not generate, or whose chain is not there, leaves no more than a lost mark. */
  lemma FailedGenerationLeavesNothing(s: State, level: Int32, uid: Int32, alias: Option<Utf16>, reply: BackendReply<RealMetadata>)
    requires reply.Thrown? || (reply.Answer? && alias.Some? && (level, Key(uid, alias.value)) !in s.pending
                               && (reply.value.metadata.None? || reply.value.leaf.Unreadable?))
    ensures var (after, result) := GeneratePost(s, level, uid, alias, reply);
            && result == RealKey && after == s.(pending := after.pending)
            && after.pending == if alias.Some? then s.pending - {(level, Key(uid, alias.value))} else s.pending
  {
  }

  // ---- updateSubcomponent ----

  /** The descriptor names no own key. */
  predicate NamesNone(c: Cache, uid: Int32, d: Descriptor) {
    d.alias.None? && !(d.nspace != 0 && d.nspace in c.keysByNspace && c.keysByNspace[d.nspace].uid == uid)
  }

  /** Through a grant, a caller without the UPDATE bit is refused and changes nothing. */
  lemma UpdateNeedsPermission(s: State, uid: Int32, d: Descriptor, certificate: Option<Blob>, chain: Option<Blob>)
    requires NamesNone(s.cache, uid, d) && d.nspace != 0 && d.nspace in s.cache.grants
    requires s.cache.grants[d.nspace].granteeUid == uid && s.cache.grants[d.nspace].accessVector & 128 == 0
    ensures UpdatePre(s, uid, Some(d), certificate, chain) == (s, Refused(PermissionDenied))
  {
  }

  /** The forged key's certificates, and nothing else of its response, are the given ones. */
  predicate Recertified(before: Cache, after: Cache, k: Key, certificate: Option<Blob>, chain: Option<Blob>)
    requires k in before.keys
  {
    var was := before.keys[k];
    && k in after.keys && k !in after.skipLeafHacks
    && after.keys[k] == Info(was.keyPair, was.secretKey,
                             Response(Metadata(was.response.metadata.nspace, certificate, chain,
                                               was.response.metadata.authorizations)), was.params)
    && (forall j :: j in before.keys && j != k ==> j in after.keys && after.keys[j] == before.keys[j])
    && after.keys.Keys == before.keys.Keys
  }

  /** With the bit, or as the owner, the caller gets a forged key's certificates replaced. */
  lemma UpdateOfForged(s: State, uid: Int32, d: Descriptor, k: Key, certificate: Option<Blob>, chain: Option<Blob>)
    requires k in s.cache.keys
    requires ByIndex(s.cache, uid, d, k)
             || (ByName(uid, d, k) && forall j :: !ByIndex(s.cache, uid, d, j))
             || (NamesNone(s.cache, uid, d) && ByGrant(s.cache, uid, d, k) && s.cache.grants[d.nspace].accessVector & 128 != 0)
    ensures var (after, reply) := UpdatePre(s, uid, Some(d), certificate, chain);
            reply == Success && Recertified(s.cache, after.cache, k, certificate, chain)
            && after.registry == s.registry && after.jobs == s.jobs && after.cache.grants == s.cache.grants
  {
    ResolvesExactly(s.cache, uid, d, k);
  }

  /** An update of an own key that is not forged is forwarded; once it is done nothing synthetic nor tracked is left. */
  lemma UpdateOfReal(s: State, uid: Int32, d: Descriptor, k: Key, certificate: Option<Blob>, chain: Option<Blob>)
    requires k !in s.cache.keys && ByName(uid, d, k) && forall j :: !ByIndex(s.cache, uid, d, j)
    ensures var (between, reply) := UpdatePre(s, uid, Some(d), certificate, chain);
            var after := UpdatePost(between, uid, Some(d));
            && reply == Continue && k !in between.cache.patched && between.registry == s.registry
            && k !in after.cache.patched && k !in after.cache.keys && k !in after.registry.tracked && after.jobs == s.jobs
  {
    ResolvesExactly(s.cache, uid, d, k);
  }

  /** Through a real grant of a re-signed key an update is forwarded, and what is held under that alias for the caller itself goes. */
  lemma UpdateThroughRealGrant(s: State, uid: Int32, d: Descriptor, k: Key, certificate: Option<Blob>, chain: Option<Blob>)
    requires NamesNone(s.cache, uid, d) && ByGrant(s.cache, uid, d, k) && s.cache.grants[d.nspace].accessVector & 128 != 0
    requires k !in s.cache.keys && k in s.cache.patched
    ensures var (after, reply) := UpdatePre(s, uid, Some(d), certificate, chain);
            && reply == Continue && after.cache.keys == s.cache.keys - {Key(uid, k.alias)}
            && after.cache.patched == s.cache.patched - {Key(uid, k.alias)} && after.registry == s.registry
  {
  }

  /** Where a response is held re-signed, its certificates are replaced there too. */
  lemma UpdateOfResigned(c: Cache, k: Key, certificate: Option<Blob>, chain: Option<Blob>)
    requires k in c.patched
    ensures var after := UpdateChain(c, k, certificate, chain);
            after.patched == c.patched[k := Response(Metadata(c.patched[k].metadata.nspace, certificate, chain,
                                                              c.patched[k].metadata.authorizations))]
            && after.keys.Keys == c.keys.Keys && after.skipLeafHacks == c.skipLeafHacks - {k}
  {
  }

  /** A successful update ends what is held for the key of the alias, or of the number if there is none, and for no other. */
  lemma UpdateEnds(s: State, uid: Int32, d: Descriptor, k: Key)
    requires ByName(uid, d, k) || (d.alias.None? && ByIndex(s.cache, uid, d, k))
    ensures var after := UpdatePost(s, uid, Some(d));
            && after.cache.keys == s.cache.keys - {k} && after.cache.patched == s.cache.patched - {k}
            && after.registry.tracked == s.registry.tracked - {k} && after.jobs == s.jobs
  {
  }

  /** An update that leads to no key at all is forwarded and changes nothing. */
  lemma UpdateOfNothing(s: State, uid: Int32, d: Descriptor, certificate: Option<Blob>, chain: Option<Blob>)
    requires NamesNone(s.cache, uid, d)
    requires forall k :: ByGrant(s.cache, uid, d, k) ==>
               s.cache.grants[d.nspace].accessVector & 128 != 0 && k !in s.cache.keys && k !in s.cache.patched
    ensures UpdatePre(s, uid, Some(d), certificate, chain) == (s, Continue) && UpdatePost(s, uid, Some(d)) == s
    ensures UpdatePre(s, uid, None, certificate, chain) == (s, Continue) && UpdatePost(s, uid, None) == s
  {
    if d.nspace != 0 && d.nspace in s.cache.grants && s.cache.grants[d.nspace].granteeUid == uid {
      assert ByGrant(s.cache, uid, d, s.cache.grants[d.nspace].key);
    }
  }

  // ---- deleteKey ----

  /** Deleting is answered at once exactly for a forged key without a skip mark; any other goes on to the real keystore. */
  lemma DeleteAnswers(s: State, uid: Int32, d: Descriptor)
    ensures var reply := DeletePre(s, uid, Some(d)).1;
            && reply in {Success, Continue}
            && (reply == Success <==> exists k :: ByName(uid, d, k) && k in s.cache.keys && k !in s.cache.skipLeafHacks)
    ensures DeletePre(s, uid, None) == (s, Continue) && (d.alias.None? ==> DeletePre(s, uid, Some(d)) == (s, Continue))
  {
    if d.alias.Some? { assert ByName(uid, d, Key(uid, d.alias.value)); }
  }

  // ---- grant and ungrant ----

  /** The own key the descriptor names. */
  ghost predicate NamesOwn(c: Cache, uid: Int32, d: Descriptor, k: Key) {
    ByIndex(c, uid, d, k) || (ByName(uid, d, k) && forall j :: !ByIndex(c, uid, d, j))
  }

  /** A forged key is granted here, with the caller as owner; a grant of a re-signed one is the real keystore's. */
  lemma GrantAnswers(s: State, uid: Int32, d: Descriptor, granteeUid: Int32, accessVector: bv32, id: Int64, k: Key)
    requires NamesOwn(s.cache, uid, d, k)
    ensures var (after, reply) := GrantPre(s, true, uid, Some(d), granteeUid, accessVector, id);
            && reply == (if k in s.cache.keys then GrantedAs(id) else if k in s.cache.patched then Continue else Skip)
            && (k !in s.cache.keys ==> after == s)
            && (k in s.cache.keys && id !in s.cache.grants ==>
                  after == s.(cache := s.cache.(grants := s.cache.grants[id := Grant(uid, granteeUid, k, accessVector)])))
    ensures GrantPre(s, false, uid, Some(d), granteeUid, accessVector, id) == (s, Skip)
  {
    ResolvesExactly(s.cache, uid, d, k);
  }

  /** A grant the real keystore made of a key that answers for certificates is recorded as made; others are not. */
  lemma RealGrantIsRecorded(s: State, uid: Int32, d: Descriptor, granteeUid: Int32, accessVector: bv32, granted: Int64, k: Key)
    requires NamesOwn(s.cache, uid, d, k)
    ensures var after := GrantPost(s, true, uid, Some(d), granteeUid, accessVector, Some(granted));
            after == if k in s.cache.keys || k in s.cache.patched
                     then s.(cache := s.cache.(grants := s.cache.grants[granted := Grant(uid, granteeUid, k, accessVector)]))
                     else s
    ensures GrantPost(s, true, uid, Some(d), granteeUid, accessVector, None) == s
    ensures GrantPost(s, false, uid, Some(d), granteeUid, accessVector, Some(granted)) == s
  {
    ResolvesExactly(s.cache, uid, d, k);
  }

  /** Ungranting a forged key succeeds here; of any other key it goes on to the real keystore. */
  lemma UngrantAnswers(s: State, uid: Int32, d: Descriptor, granteeUid: Int32, k: Key)
    requires NamesOwn(s.cache, uid, d, k)
    ensures UngrantPre(s, uid, Some(d), granteeUid).1 == if k in s.cache.keys then Success else Skip
    ensures forall id :: id in UngrantPre(s, uid, Some(d), granteeUid).0.cache.grants
              <==> id in s.cache.grants && !(s.cache.grants[id].key == k && s.cache.grants[id].granteeUid == granteeUid)
  {
    ResolvesExactly(s.cache, uid, d, k);
  }

  /** A descriptor that names no own key is left to the real keystore. */
  lemma NothingToGrant(s: State, hasKeyboxes: bool, uid: Int32, d: Descriptor, granteeUid: Int32, accessVector: bv32,
                       id: Int64, granted: Option<Int64>)
    requires NamesNone(s.cache, uid, d)
    ensures GrantPre(s, hasKeyboxes, uid, Some(d), granteeUid, accessVector, id) == (s, Skip)
    ensures GrantPost(s, hasKeyboxes, uid, Some(d), granteeUid, accessVector, granted) == s
    ensures UngrantPre(s, uid, Some(d), granteeUid) == (s, Skip)
  {
  }

  // ---- getKeyEntry ----

  /** A grant read needs the GET_INFO bit; a grantee that is not plain AUTO at entry is served what is held for the key. */
  lemma GrantReadAnswers(s: State, m: Modes, uid: Int32, d: Descriptor, k: Key)
    requires ByGrant(s.cache, uid, d, k)
    ensures s.cache.grants[d.nspace].accessVector & 4 == 0 ==> ReadPre(s, true, m, uid, Some(d)) == (s, Refused(PermissionDenied))
    ensures s.cache.grants[d.nspace].accessVector & 4 != 0 && !m.plainAutoAtEntry ==>
              && (k in s.cache.keys ==> ReadPre(s, true, m, uid, Some(d)) == (s, Entry(k, s.cache.keys[k].response)))
              && (k !in s.cache.keys && k in s.cache.patched ==>
                    ReadPre(s, true, m, uid, Some(d)) == (s, Entry(k, s.cache.patched[k])))
  {
  }

  /** The read is left to the caller's mode: it is no grant read, or the grant shortcut has nothing to serve. */
  predicate ByMode(s: State, m: Modes, uid: Int32, d: Descriptor) {
    !(d.nspace != 0 && d.nspace in s.cache.grants && s.cache.grants[d.nspace].granteeUid == uid)
    || (s.cache.grants[d.nspace].accessVector & 4 != 0
        && (m.plainAutoAtEntry
            || (s.cache.grants[d.nspace].key !in s.cache.keys && s.cache.grants[d.nspace].key !in s.cache.patched)))
  }

  /** What is held for the key the descriptor leads to: a forged response before a re-signed one, else the given answer. */
  ghost predicate Serves(c: Cache, uid: Int32, d: Descriptor, reply: PreReply, otherwise: PreReply) {
    if exists k :: Leads(c, uid, d, c.keys, k)
    then exists k :: Leads(c, uid, d, c.keys, k) && reply == Entry(k, c.keys[k].response)
    else if exists k :: Leads(c, uid, d, c.patched, k)
    then exists k :: Leads(c, uid, d, c.patched, k) && reply == Entry(k, c.patched[k])
    else reply == otherwise
  }

  lemma ServedFrom(c: Cache, uid: Int32, d: Descriptor, otherwise: PreReply)
    ensures Serves(c, uid, d, OrElse(ServeAny(c, uid, d), otherwise), otherwise)
    ensures FindGenerated(c, uid, d).Some? <==> exists k :: Leads(c, uid, d, c.keys, k)
    ensures forall k :: FindGenerated(c, uid, d) == Some(k) <==> Leads(c, uid, d, c.keys, k)
    ensures forall k :: FindPatched(c, uid, d) == Some(k) <==> Leads(c, uid, d, c.patched, k)
  {
    forall k ensures FindGenerated(c, uid, d) == Some(k) <==> Leads(c, uid, d, c.keys, k) { LeadsExactly(c, uid, d, c.keys, k); }
    forall k ensures FindPatched(c, uid, d) == Some(k) <==> Leads(c, uid, d, c.patched, k) { LeadsExactly(c, uid, d, c.patched, k); }
    if FindGenerated(c, uid, d).Some? { assert Leads(c, uid, d, c.keys, FindGenerated(c, uid, d).value); }
    if FindPatched(c, uid, d).Some? { assert Leads(c, uid, d, c.patched, FindPatched(c, uid, d).value); }
  }

  /** A forging target reads past the hooks if the key is passed through, else what is held, else the real keystore's entry. */
  lemma ForgingReadAnswers(s: State, m: Modes, uid: Int32, d: Descriptor)
    requires ByMode(s, m, uid, d) && m.needGenerate
    ensures var (after, reply) := ReadPre(s, true, m, uid, Some(d));
            after == s && if IsPassthrough(s, uid, d) then reply == Continue else Serves(s.cache, uid, d, reply, Skip)
  {
    ServedFrom(s.cache, uid, d, Skip);
  }

  /** A caller that is no target still reads what was forged for it. */
  lemma StrangerReadAnswers(s: State, m: Modes, uid: Int32, d: Descriptor)
    requires ByMode(s, m, uid, d) && !m.needGenerate && !m.needHack
    ensures var (after, reply) := ReadPre(s, true, m, uid, Some(d));
            after == s && Serves(s.cache, uid, d, reply, Skip)
  {
    ServedFrom(s.cache, uid, d, Skip);
  }

  /** The skip mark of the first marked key the descriptor leads to. */
  ghost predicate SkipMarked(c: Cache, uid: Int32, d: Descriptor) {
    exists k :: Leads(c, uid, d, c.skipLeafHacks, k) && c.skipLeafHacks[k]
  }

  lemma SkipsExactly(c: Cache, uid: Int32, d: Descriptor)
    ensures SkipsLeafHack(c, uid, d) <==> SkipMarked(c, uid, d)
  {
    forall k ensures FirstIn(OwnerKeys(c, uid, d), c.skipLeafHacks) == Some(k) <==> Leads(c, uid, d, c.skipLeafHacks, k) {
      LeadsExactly(c, uid, d, c.skipLeafHacks, k);
    }
    var first := FirstIn(OwnerKeys(c, uid, d), c.skipLeafHacks);
    if first.Some? { assert Leads(c, uid, d, c.skipLeafHacks, first.value); }
  }

  /** Any other target reads on unless it is owed a forged response under a skip mark, or a re-signed one without. */
  lemma HackingReadAnswers(s: State, m: Modes, uid: Int32, d: Descriptor)
    requires ByMode(s, m, uid, d) && m.needHack && !m.needGenerate
    ensures var (after, reply) := ReadPre(s, true, m, uid, Some(d));
            && (IsPassthrough(s, uid, d) || m.plainAuto ==> reply == Continue)
            && (IsPassthrough(s, uid, d) || !m.plainAuto ==> after == s)
            && (!IsPassthrough(s, uid, d) && !m.plainAuto ==>
                  if SkipMarked(s.cache, uid, d)
                  then (reply == Continue && forall k :: !Leads(s.cache, uid, d, s.cache.keys, k))
                       || exists k :: Leads(s.cache, uid, d, s.cache.keys, k) && reply == Entry(k, s.cache.keys[k].response)
                  else (reply == Continue && forall k :: !Leads(s.cache, uid, d, s.cache.patched, k))
                       || exists k :: Leads(s.cache, uid, d, s.cache.patched, k) && reply == Entry(k, s.cache.patched[k]))
  {
    ServedFrom(s.cache, uid, d, Continue);
    SkipsExactly(s.cache, uid, d);
  }

  /** A plain AUTO read of a name with historical responses clears what was synthetic under that name. */
  lemma HistoryIsRejected(s: State, m: Modes, uid: Int32, d: Descriptor, k: Key)
    requires ByMode(s, m, uid, d) && m.needHack && !m.needGenerate && m.plainAuto && !IsPassthrough(s, uid, d)
    requires ByName(uid, d, k)
    ensures var after := ReadPre(s, true, m, uid, Some(d)).0;
            var historical := exists j :: Leads(s.cache, uid, d, s.cache.keys, j) || Leads(s.cache, uid, d, s.cache.patched, j);
            && (!historical ==> after == s)
            && (historical ==> k !in after.cache.keys && k !in after.cache.patched && k !in after.cache.keyPairs)
            && after.registry == s.registry
  {
    ServedFrom(s.cache, uid, d, Continue);
  }

  /** Once the real keystore has answered, these reads are returned as they came. */
  lemma RealReadAnswers(s: State, m: Modes, uid: Int32, d: Descriptor, entry: RealEntry)
    requires IsPassthrough(s, uid, d) || m.plainAuto
             || (m.needHack && !m.needGenerate && !m.explicitLeaf && (forall k :: !Leads(s.cache, uid, d, s.cache.keys, k))
                 && forall k :: NamesOwn(s.cache, uid, d, k) ==> k !in s.cache.patched)
    ensures ReadPost(s, m, uid, Some(d), Answer(entry)) == (s, Real)
  {
    ServedFrom(s.cache, uid, d, Continue);
    if ResolveKey(s.cache, uid, d).Some? { ResolvesExactly(s.cache, uid, d, ResolveKey(s.cache, uid, d).value); }
  }

  /** These are answered from what is held for an own re-signed key, or else for a forged one. */
  lemma HeldReadAnswers(s: State, m: Modes, uid: Int32, d: Descriptor, entry: RealEntry, k: Key)
    requires !IsPassthrough(s, uid, d) && !m.plainAuto
    ensures NamesOwn(s.cache, uid, d, k) && k in s.cache.patched ==>
              ReadPost(s, m, uid, Some(d), Answer(entry)) == (s, FromCache(k, s.cache.patched[k]))
    ensures Leads(s.cache, uid, d, s.cache.keys, k)
            && (forall j :: NamesOwn(s.cache, uid, d, j) ==> j !in s.cache.patched) ==>
              ReadPost(s, m, uid, Some(d), Answer(entry)) == (s, FromCache(k, s.cache.keys[k].response))
  {
    LeadsExactly(s.cache, uid, d, s.cache.keys, k);
    ResolvesExactly(s.cache, uid, d, k);
    if ResolveKey(s.cache, uid, d).Some? { ResolvesExactly(s.cache, uid, d, ResolveKey(s.cache, uid, d).value); }
  }

  /** And these with the re-signed entry, if its chain can be re-signed: the entry's own number and the new certificates. */
  lemma LeafReadAnswers(s: State, m: Modes, uid: Int32, d: Descriptor, original: Metadata, certificate: Option<Blob>,
                        chain: Option<Blob>, authorizations: Blob)
    requires !IsPassthrough(s, uid, d) && !m.plainAuto && (m.explicitLeaf || !m.needHack || m.needGenerate)
    requires (forall k :: !Leads(s.cache, uid, d, s.cache.keys, k))
             && forall k :: NamesOwn(s.cache, uid, d, k) ==> k !in s.cache.patched
    ensures ReadPost(s, m, uid, Some(d), Answer(RealEntry(Response(original), Rewritten(certificate, chain, authorizations)))).1
         == Patched(Response(Metadata(original.nspace, certificate, chain, authorizations)))
    ensures forall leaf: LeafPatch :: !leaf.Rewritten? ==>
              ReadPost(s, m, uid, Some(d), Answer(RealEntry(Response(original), leaf))) == (s, Real)
  {
    ServedFrom(s.cache, uid, d, Continue);
    if ResolveKey(s.cache, uid, d).Some? { ResolvesExactly(s.cache, uid, d, ResolveKey(s.cache, uid, d).value); }
  }

  /** Without keyboxes, without a descriptor or without an answer no read is touched. */
  lemma UntouchedReads(s: State, m: Modes, uid: Int32, request: Option<Descriptor>, reply: BackendReply<RealEntry>)
    ensures ReadPre(s, false, m, uid, request) == (s, Skip) && ReadPre(s, true, m, uid, None) == (s, Skip)
    ensures !reply.Answer? ==> ReadPost(s, m, uid, request, reply) == (s, Real)
  {
  }
}
