/**
 The two interceptors. Every hook changes the shared objects step by step and asks PkgConfig
 for a mode where it needs one; its contract gives the whole new state and the reply, and says
 that it keeps the ownership invariant.
 */
module KeystoreInterceptors {
  import opened Common
  import opened KeyData
  import opened PersistenceManager
  import opened Ownership
  import opened Hooks
  import opened OwnershipInvariant
  import opened PkgConfig
  import opened CertificateAliasCaches
  import opened KeyDirectory

  /** The hooks of the keystore service. */
  class Keystore2Interceptor {
    const cache: CertificateAliasCache
    const config: PkgConfig

    constructor (cache: CertificateAliasCache, config: PkgConfig)
      ensures this.cache == cache && this.config == config
    {
      this.cache, this.config := cache, config;
    }

    method DeleteKeyPre(uid: Int32, request: Option<Descriptor>) returns (reply: PreReply)
      modifies cache, cache.registry, cache.persistence
      ensures (cache.Shared({}), reply) == DeletePre(old(cache.Shared({})), uid, request)
      ensures Keeps(old(cache.Shared({})), Step.DeleteKeyPre(uid, request), cache.Shared({}))
    {
      StepKeeps(cache.Shared({}), Step.DeleteKeyPre(uid, request));
      if request.Some? && request.value.alias.Some? {
        var key := Key(uid, request.value.alias.value);
        var isSoftware := key in cache.keys && key !in cache.skipLeafHacks;
        cache.CleanupKey(key);
        if isSoftware {
          return Success;
        }
      }
      return Continue;
    }

    method DeleteKeyPost(uid: Int32, request: Option<Descriptor>)
      modifies cache, cache.registry, cache.persistence
      ensures cache.Shared({}) == DeletePost(old(cache.Shared({})), uid, request)
      ensures Keeps(old(cache.Shared({})), Step.DeleteKeyPost(uid, request), cache.Shared({}))
    {
      StepKeeps(cache.Shared({}), Step.DeleteKeyPost(uid, request));
      if request.Some? && request.value.alias.Some? {
        cache.CleanupKey(Key(uid, request.value.alias.value));
      }
    }

    method UpdateSubcomponentPre(uid: Int32, request: Option<Descriptor>, certificate: Option<Blob>, chain: Option<Blob>)
      returns (reply: PreReply)
      modifies cache, cache.registry, cache.persistence
      ensures (cache.Shared({}), reply) == UpdatePre(old(cache.Shared({})), uid, request, certificate, chain)
      ensures Keeps(old(cache.Shared({})), Step.UpdateSubcomponentPre(uid, request, certificate, chain), cache.Shared({}))
    {
      StepKeeps(cache.Shared({}), Step.UpdateSubcomponentPre(uid, request, certificate, chain));
      if request.None? {
        return Continue;
      }
      var d := request.value;
      var key := cache.ResolveKey(uid, d);
      if key.None? && d.nspace != 0 && d.nspace in cache.grants && cache.grants[d.nspace].granteeUid == uid {
        var grant := cache.grants[d.nspace];
        if grant.accessVector & UPDATE == 0 {
          return Refused(PermissionDenied);
        }
        if IsPatchedKey(cache.Value(), grant.key) {
          key := Some(grant.key);
        }
      }
      if key.Some? && key.value in cache.keys {
        cache.UpdateKeyCertChain(key.value, certificate, chain);
        return Success;
      }
      if key.Some? {
        cache.InvalidateCertificateResponseState(Key(uid, key.value.alias), false);
      }
      return Continue;
    }

    method UpdateSubcomponentPost(uid: Int32, request: Option<Descriptor>)
      modifies cache, cache.registry, cache.persistence
      ensures cache.Shared({}) == UpdatePost(old(cache.Shared({})), uid, request)
      ensures Keeps(old(cache.Shared({})), Step.UpdateSubcomponentPost(uid, request), cache.Shared({}))
    {
      StepKeeps(cache.Shared({}), Step.UpdateSubcomponentPost(uid, request));
      if request.Some? {
        var d := request.value;
        var alias := d.alias;
        if alias.None? && d.nspace != 0 && d.nspace in cache.keysByNspace && cache.keysByNspace[d.nspace].uid == uid {
          alias := Some(cache.keysByNspace[d.nspace].alias);
        }
        if alias.Some? {
          cache.InvalidateCertificateResponseState(Key(uid, alias.value), true);
        }
      }
    }

    /** `draw` is the random number taken if the grantee has no grant yet; `id` is the grant id used. */
    method GrantKeyPre(hasKeyboxes: bool, uid: Int32, request: Option<Descriptor>, granteeUid: Int32, accessVector: bv32,
                       draw: Int64) returns (reply: PreReply, id: Int64)
      requires draw !in cache.grants
      modifies cache
      ensures (cache.Shared({}), reply) == GrantPre(old(cache.Shared({})), hasKeyboxes, uid, request, granteeUid, accessVector, id)
      ensures hasKeyboxes && request.Some? ==>
                match Ownership.ResolveKey(old(cache.Value()), uid, request.value)
                case None => true
                case Some(k) =>
                  var ids := GrantIds(old(cache.Value()), k, granteeUid);
                  if ids == {} then id == draw else id in ids
      ensures Keeps(old(cache.Shared({})), Step.GrantKeyPre(hasKeyboxes, uid, request, granteeUid, accessVector, id),
                    cache.Shared({}))
    {
      id := draw;
      StepKeeps(cache.Shared({}), Step.GrantKeyPre(hasKeyboxes, uid, request, granteeUid, accessVector, id));
      if !hasKeyboxes || request.None? {
        return Skip, id;
      }
      var key := cache.ResolveKey(uid, request.value);
      if key.None? {
        return Skip, id;
      }
      var k := key.value;
      var existing := set i | i in cache.grants && cache.grants[i].key == k && cache.grants[i].granteeUid == granteeUid;
      assert existing == GrantIds(cache.Value(), k, granteeUid);
      if existing != {} { id :| id in existing; }
      StepKeeps(cache.Shared({}), Step.GrantKeyPre(hasKeyboxes, uid, request, granteeUid, accessVector, id));
      if k in cache.keys {
        cache.grants := cache.grants[id := if existing != {} then cache.grants[id].(accessVector := accessVector)
                                           else Grant(uid, granteeUid, k, accessVector)];
        return GrantedAs(id), id;
      }
      if k in cache.patchedResponses {
        return Continue, id;
      }
      return Skip, id;
    }

    method GrantKeyPost(hasKeyboxes: bool, uid: Int32, request: Option<Descriptor>, granteeUid: Int32, accessVector: bv32,
                        granted: Option<Int64>)
      modifies cache
      ensures cache.Shared({}) == GrantPost(old(cache.Shared({})), hasKeyboxes, uid, request, granteeUid, accessVector, granted)
      ensures Keeps(old(cache.Shared({})), Step.GrantKeyPost(hasKeyboxes, uid, request, granteeUid, accessVector, granted),
                    cache.Shared({}))
    {
      StepKeeps(cache.Shared({}), Step.GrantKeyPost(hasKeyboxes, uid, request, granteeUid, accessVector, granted));
      if !hasKeyboxes || request.None? || granted.None? {
        return;
      }
      var key := cache.ResolveKey(uid, request.value);
      if key.None? || !IsPatchedKey(cache.Value(), key.value) {
        return;
      }
      cache.grants := cache.grants[granted.value := Grant(uid, granteeUid, key.value, accessVector)];
    }

    method UngrantKeyPre(uid: Int32, request: Option<Descriptor>, granteeUid: Int32) returns (reply: PreReply)
      modifies cache
      ensures (cache.Shared({}), reply) == UngrantPre(old(cache.Shared({})), uid, request, granteeUid)
      ensures Keeps(old(cache.Shared({})), Step.UngrantKeyPre(uid, request, granteeUid), cache.Shared({}))
    {
      ghost var before, step := cache.Shared({}), Step.UngrantKeyPre(uid, request, granteeUid);
      reply := RemoveGrants(uid, request, granteeUid);
      StepKeeps(before, step);
      assert cache.Shared({}) == Apply(before, step);
    }

    /** Removes the grantee's grants of the key the request names. */
    method RemoveGrants(uid: Int32, request: Option<Descriptor>, granteeUid: Int32) returns (reply: PreReply)
      modifies cache
      ensures (cache.Shared({}), reply) == UngrantPre(old(cache.Shared({})), uid, request, granteeUid)
    {
      if request.None? {
        return Skip;
      }
      var key := cache.ResolveKey(uid, request.value);
      if key.None? {
        return Skip;
      }
      cache.grants := map i | i in cache.grants
                        && !(cache.grants[i].key == key.value && cache.grants[i].granteeUid == granteeUid) :: cache.grants[i];
      assert cache.grants == old(cache.grants) - GrantIds(old(cache.Value()), key.value, granteeUid);
      return if key.value in cache.keys then Success else Skip;
    }

    /** Clears the caller's own entry under a named alias if the descriptor leads to any cached response. */
    method RejectHistoricalOwners(uid: Int32, d: Descriptor) returns (rejected: bool)
      modifies cache, cache.persistence
      ensures cache.Shared({}) == RejectHistorical(old(cache.Shared({})), uid, d)
      ensures rejected <==> d.alias.Some? && ServeAny(old(cache.Value()), uid, d).Some?
      ensures rejected ==> !IsPatchedKey(cache.Value(), Key(uid, d.alias.value))
    {
      if d.alias.None? {
        return false;
      }
      var generated := cache.FindGeneratedKey(uid, d);
      var patched := cache.ResolvePatchedResponse(uid, d);
      if generated.None? && patched.None? {
        return false;
      }
      cache.ClearSyntheticCertificateState(Key(uid, d.alias.value), generated.Some?);
      return true;
    }

    /** The first cached response among forged and then patched entries. */
    method ServeCache(uid: Int32, d: Descriptor) returns (reply: Option<PreReply>)
      ensures reply == ServeAny(cache.Value(), uid, d)
    {
      var generated := cache.FindGeneratedKey(uid, d);
      if generated.Some? {
        return Some(Entry(generated.value, cache.keys[generated.value].response));
      }
      var patched := cache.ResolvePatchedResponse(uid, d);
      if patched.Some? {
        return Some(Entry(patched.value, cache.patchedResponses[patched.value]));
      }
      return None;
    }

    method GetKeyEntryByMode(uid: Int32, d: Descriptor, manager: map<Int32, Packages>) returns (reply: PreReply)
      modifies cache, cache.persistence, config
      ensures config.Value() == Resolve(old(config.Value()), manager, uid)
      ensures (cache.Shared({}), reply)
           == ReadByMode(old(cache.Shared({})), ModesOf(old(config.Value()), manager, uid), uid, d)
    {
      var needGenerate := config.CheckNeed(uid, manager, Mode.Generate, AUTO_GENERATE_ALLOWED);
      if needGenerate {
        var passthrough := cache.IsPassthroughDescriptor(uid, d);
        if passthrough {
          return Continue;
        }
        var cached := ServeCache(uid, d);
        return if cached.Some? then cached.value else Skip;
      }
      var needHack := config.CheckNeed(uid, manager, LeafHack, AUTO_LEAF_HACK_ALLOWED);
      if needHack {
        var passthrough := cache.IsPassthroughDescriptor(uid, d);
        if passthrough {
          return Continue;
        }
        if IsPlainAuto(config.Value(), uid) {
          var _ := RejectHistoricalOwners(uid, d);
          return Continue;
        }
        var skip := cache.ShouldSkipLeafHackFor(uid, d);
        if skip {
          var generated := cache.FindGeneratedKey(uid, d);
          return if generated.Some? then Entry(generated.value, cache.keys[generated.value].response) else Continue;
        }
        var patched := cache.ResolvePatchedResponse(uid, d);
        return if patched.Some? then Entry(patched.value, cache.patchedResponses[patched.value]) else Continue;
      }
      var cached := ServeCache(uid, d);
      return if cached.Some? then cached.value else Skip;
    }

    method GetKeyEntryPre(hasKeyboxes: bool, uid: Int32, request: Option<Descriptor>, manager: map<Int32, Packages>)
      returns (reply: PreReply)
      modifies cache, cache.persistence, config
      ensures config.Value() in {old(config.Value()), Resolve(old(config.Value()), manager, uid)}
      ensures reply == Continue ==> config.Value() == Resolve(old(config.Value()), manager, uid)
      ensures (cache.Shared({}), reply)
           == ReadPre(old(cache.Shared({})), hasKeyboxes, ModesOf(old(config.Value()), manager, uid), uid, request)
      ensures Keeps(old(cache.Shared({})),
                    Step.GetKeyEntryPre(hasKeyboxes, ModesOf(old(config.Value()), manager, uid), uid, request), cache.Shared({}))
    {
      StepKeeps(cache.Shared({}), Step.GetKeyEntryPre(hasKeyboxes, ModesOf(config.Value(), manager, uid), uid, request));
      if !hasKeyboxes || request.None? {
        return Skip;
      }
      var d := request.value;
      if d.nspace != 0 && d.nspace in cache.grants && cache.grants[d.nspace].granteeUid == uid {
        var grant := cache.grants[d.nspace];
        if grant.accessVector & GET_INFO == 0 {
          return Refused(PermissionDenied);
        }
        var response := CachedResponse(cache.Value(), grant.key);
        if response.Some? && !IsPlainAuto(config.Value(), uid) {
          return Entry(grant.key, response.value);
        }
      }
      reply := GetKeyEntryByMode(uid, d, manager);
    }

    /** What the caches and the registry say of a descriptor. */
    method GatherOwnership(uid: Int32, request: Option<Descriptor>)
      returns (passthrough: bool, hasCachedPatch: bool, hasGeneratedOwner: bool)
      ensures passthrough == (request.Some? && IsPassthrough(cache.Shared({}), uid, request.value))
      ensures hasCachedPatch == (request.Some? && Ownership.ResolveKey(cache.Value(), uid, request.value).Some?
                && Ownership.ResolveKey(cache.Value(), uid, request.value).value in cache.patchedResponses)
      ensures hasGeneratedOwner == (request.Some? && FindGenerated(cache.Value(), uid, request.value).Some?)
    {
      if request.None? {
        return false, false, false;
      }
      passthrough := cache.IsPassthroughDescriptor(uid, request.value);
      var cachedKey := cache.ResolveKey(uid, request.value);
      hasCachedPatch := cachedKey.Some? && cachedKey.value in cache.patchedResponses;
      var generated := cache.FindGeneratedKey(uid, request.value);
      hasGeneratedOwner := generated.Some?;
    }

    /** Gathers what GetKeyEntryPostPolicy decides on; the last two questions resolve the uid's packages. */
    method ChoosePostAction(uid: Int32, request: Option<Descriptor>, manager: map<Int32, Packages>)
      returns (action: PostAction)
      modifies config
      ensures config.Value() == Resolve(old(config.Value()), manager, uid)
      ensures action == PostActionFor(cache.Shared({}), PostModesOf(old(config.Value()), manager, uid), uid, request)
    {
      var passthrough, hasCachedPatch, hasGeneratedOwner := GatherOwnership(uid, request);
      var explicitLeaf := HasTargetMode(config.Value(), uid, LeafHack);
      var plainAuto := IsPlainAuto(config.Value(), uid);
      var needHack := config.CheckNeed(uid, manager, LeafHack, AUTO_LEAF_HACK_ALLOWED);
      var needGenerate := config.CheckNeed(uid, manager, Mode.Generate, AUTO_GENERATE_ALLOWED);
      action := Decide(passthrough, hasCachedPatch, hasGeneratedOwner, explicitLeaf,
                       needHack && !needGenerate && !explicitLeaf, plainAuto);
    }

    /** Re-signs the real entry, caching it for the key its nspace is indexed under. */
    method PatchEntry(entry: RealEntry) returns (result: ReadResult)
      modifies cache
      ensures (cache.Shared({}), result) == PatchLeafEntry(old(cache.Shared({})), entry)
    {
      if !entry.leaf.Rewritten? {
        return Real;
      }
      var nspace := entry.response.metadata.nspace;
      var responseKey := if nspace != 0 then Lookup(cache.keysByNspace, nspace) else None;
      var response := Response(WithChain(entry.response.metadata, entry.leaf.certificate, entry.leaf.certificateChain)
                               .(authorizations := entry.leaf.authorizations));
      if responseKey.Some? {
        cache.patchedResponses := cache.patchedResponses[responseKey.value := response];
      }
      return Patched(response);
    }

    method GetKeyEntryPost(uid: Int32, request: Option<Descriptor>, manager: map<Int32, Packages>,
                           reply: BackendReply<RealEntry>) returns (result: ReadResult)
      modifies cache, config
      ensures config.Value() == if reply.Answer? then Resolve(old(config.Value()), manager, uid) else old(config.Value())
      ensures (cache.Shared({}), result)
           == ReadPost(old(cache.Shared({})), PostModesOf(old(config.Value()), manager, uid), uid, request, reply)
      ensures Keeps(old(cache.Shared({})),
                    Step.GetKeyEntryPost(PostModesOf(old(config.Value()), manager, uid), uid, request, reply), cache.Shared({}))
    {
      StepKeeps(cache.Shared({}), Step.GetKeyEntryPost(PostModesOf(config.Value(), manager, uid), uid, request, reply));
      if !reply.Answer? {
        return Real;
      }
      var action := ChoosePostAction(uid, request, manager);
      match action
      case PassthroughUnmodified => return Real;
      case ServeCachedPatch =>
        var cachedKey := cache.ResolveKey(uid, request.value);
        if cachedKey.Some? && cachedKey.value in cache.patchedResponses {
          return FromCache(cachedKey.value, cache.patchedResponses[cachedKey.value]);
        }
        var generated := cache.FindGeneratedKey(uid, request.value);
        return FromCache(generated.value, cache.keys[generated.value].response);
      case PatchLeaf => result := PatchEntry(reply.value);
    }
  }

  /** The hooks of one security level; the pending passthrough marks are its own. */
  class SecurityLevelInterceptor {
    const level: Int32
    const cache: CertificateAliasCache
    const config: PkgConfig
    var pendingPassthroughKeys: set<Key>

    constructor (level: Int32, cache: CertificateAliasCache, config: PkgConfig)
      ensures this.level == level && this.cache == cache && this.config == config && pendingPassthroughKeys == {}
    {
      this.level, this.cache, this.config := level, cache, config;
      pendingPassthroughKeys := {};
    }

    function Pending(): set<(Int32, Key)>
      reads this
    {
      set k | k in pendingPassthroughKeys :: (level, k)
    }

    function Shared(): State
      reads this, cache, cache.registry, cache.persistence
    {
      cache.Shared(Pending())
    }

    /** Fails, half done, if the response for the new pair cannot be built. */
    method StoreGeneratedKey(k: Key, domain: Int32, params: Params, skipLeafHack: bool, made: Keygen, draw: Int64)
      returns (stored: Option<Metadata>)
      requires !made.Unavailable?
      modifies cache, cache.registry, cache.persistence
      ensures made.Made? ==>
                && stored.Some?
                && (Shared(), stored.value)
                   == StoreGenerated(old(Shared()), level, k, domain, params, skipLeafHack, made, draw)
      ensures made.Unbuilt? ==> stored.None? && Shared() == StoreUnbuilt(old(Shared()), k, made, draw)
    {
      cache.registry.Remove(k);
      cache.ClearSyntheticCertificateState(k, false);
      cache.keysByNspace := cache.keysByNspace[draw := k];
      cache.keyPairs := cache.keyPairs[k := (made.keyPair, made.chain)];
      if made.Unbuilt? {
        return None;
      }
      var metadata := Metadata(draw, made.certificate, made.certificateChain, made.authorizations);
      cache.keys := cache.keys[k := Info(Some(made.keyPair), None, Response(metadata), params)];
      if params.usageCountLimit > 0 {
        cache.usageRemaining := cache.usageRemaining[k := params.usageCountLimit];
      }
      if skipLeafHack {
        cache.skipLeafHacks := cache.skipLeafHacks[k := true];
      }
      cache.persistence.Execute(Save(Record(k.uid, k.alias, level, skipLeafHack, draw, domain, Some(made.keyPair), None,
                                            made.chain, made.marshalled, params)));
      return Some(metadata);
    }

    method GenerateKeyPre(phonePermission: bool, uid: Int32, request: Option<GenerateRequest>, keygen: Keygen, draw: Int64,
                          manager: map<Int32, Packages>) returns (reply: PreReply)
      modifies this, cache, cache.registry, cache.persistence, config
      ensures config.Value() in {old(config.Value()), Resolve(old(config.Value()), manager, uid)}
      ensures (Shared(), reply)
           == GeneratePre(old(Shared()), level, ModesOf(old(config.Value()), manager, uid), phonePermission, uid, request,
                          keygen, draw)
      ensures Keeps(old(Shared()), Step.GenerateKeyPre(level, ModesOf(old(config.Value()), manager, uid), phonePermission, uid,
                                                       request, keygen, draw), Shared())
    {
      ghost var before := Shared();
      ghost var step := Step.GenerateKeyPre(level, ModesOf(config.Value(), manager, uid), phonePermission, uid, request,
                                            keygen, draw);
      reply := RouteGenerate(phonePermission, uid, request, keygen, draw, manager);
      StepKeeps(before, step);
      assert Shared() == Apply(before, step);
    }

    /** Forges the key, or marks it for the post-hook and lets the real keystore make it. */
    method RouteGenerate(phonePermission: bool, uid: Int32, request: Option<GenerateRequest>, keygen: Keygen, draw: Int64,
                         manager: map<Int32, Packages>) returns (reply: PreReply)
      modifies this, cache, cache.registry, cache.persistence, config
      ensures config.Value() in {old(config.Value()), Resolve(old(config.Value()), manager, uid)}
      ensures (Shared(), reply)
           == GeneratePre(old(Shared()), level, ModesOf(old(config.Value()), manager, uid), phonePermission, uid, request,
                          keygen, draw)
    {
      ghost var modes := ModesOf(config.Value(), manager, uid);
      if request.None? {
        return Skip;
      }
      var r := request.value;
      var screened := ScreenRequest(r, phonePermission);
      if screened.Some? {
        return screened.value;
      }
      var key := Key(uid, r.alias.value);
      var needGenerate := config.CheckNeed(uid, manager, Mode.Generate, AUTO_GENERATE_ALLOWED);
      assert needGenerate == modes.needGenerate;
      if needGenerate {
        if r.symmetric || !WantsAttestation(r) {
          return Continue;
        }
        var skipLeafHack := config.CheckNeed(uid, manager, LeafHack, AUTO_LEAF_HACK_ALLOWED);
        assert skipLeafHack == modes.needHack;
        if keygen.Unavailable? {
          return Skip;
        }
        var stored := StoreGeneratedKey(key, r.domain, r.params, skipLeafHack, keygen, draw);
        return if stored.Some? then Generated(stored.value) else Skip;
      }
      var needHack := config.CheckNeed(uid, manager, LeafHack, AUTO_LEAF_HACK_ALLOWED);
      assert needHack == modes.needHack;
      if !needHack {
        return Skip;
      }
      MarkForwarded(key, SelectRoute(false, true, HasTargetMode(config.Value(), uid, LeafHack), r.challengeLength.Some?, needGenerate));
      return Continue;
    }

    /** Before the real keystore makes the key: its synthetic state is cleared on the passthrough route, else its skip mark. */
    method MarkForwarded(key: Key, route: Route)
      modifies this, cache, cache.persistence
      ensures Shared() == if route.PassthroughRealTee?
                          then Clear(old(Shared()).(pending := old(Shared()).pending + {(level, key)}), key, false)
                          else old(Shared()).(cache := old(cache.Value()).(skipLeafHacks := old(cache.skipLeafHacks) - {key}))
    {
      if route.PassthroughRealTee? {
        ghost var pending := Pending();
        pendingPassthroughKeys := pendingPassthroughKeys + {key};
        assert Pending() == pending + {(level, key)};
        cache.ClearSyntheticCertificateState(key, false);
      } else {
        cache.skipLeafHacks := cache.skipLeafHacks - {key};
      }
    }

    method GenerateKeyPost(uid: Int32, alias: Option<Utf16>, reply: BackendReply<RealMetadata>) returns (result: GenerateResult)
      modifies this, cache, cache.registry, cache.persistence
      ensures (Shared(), result) == GeneratePost(old(Shared()), level, uid, alias, reply)
      ensures Keeps(old(Shared()), Step.GenerateKeyPost(level, uid, alias, reply), Shared())
    {
      ghost var before := Shared();
      ghost var step := Step.GenerateKeyPost(level, uid, alias, reply);
      result := AdoptGenerated(uid, alias, reply);
      StepKeeps(before, step);
      assert Shared() == Apply(before, step);
    }

    /** Takes a really generated key over: as a passthrough key if it was marked, else with its chain re-signed. */
    method AdoptGenerated(uid: Int32, alias: Option<Utf16>, reply: BackendReply<RealMetadata>) returns (result: GenerateResult)
      modifies this, cache, cache.registry, cache.persistence
      ensures (Shared(), result) == GeneratePost(old(Shared()), level, uid, alias, reply)
    {
      if reply.NoReply? || alias.None? {
        return RealKey;
      }
      var key := Key(uid, alias.value);
      var isPassthrough := key in pendingPassthroughKeys;
      ghost var pending := Pending();
      pendingPassthroughKeys := pendingPassthroughKeys - {key};
      assert Pending() == pending - {(level, key)};
      assert isPassthrough <==> (level, key) in pending;
      if reply.Thrown? {
        return RealKey;
      }
      if isPassthrough {
        cache.ClearSyntheticCertificateState(key, true);
        var nspace := if reply.value.metadata.Some? then Some(reply.value.metadata.value.nspace) else None;
        if nspace.Some? && nspace.value != 0 {
          cache.keysByNspace := cache.keysByNspace[nspace.value := key];
        }
        cache.registry.Promote(key, nspace);
        return RealKey;
      }
      if reply.value.metadata.None? || reply.value.leaf.Unreadable? {
        return RealKey;
      }
      result := ForwardLeaf(key, reply.value.metadata.value, reply.value.leaf);
    }

    method ForwardLeaf(key: Key, original: Metadata, leaf: LeafPatch) returns (result: GenerateResult)
      requires !leaf.Unreadable?
      modifies cache, cache.registry, cache.persistence
      ensures (Shared(), result) == AcceptLeafForward(old(Shared()), key, original, leaf)
    {
      cache.registry.Remove(key);
      cache.ClearSyntheticCertificateState(key, false);
      if leaf.Unwritable? {
        return RealKey;
      }
      var metadata := WithChain(original, leaf.certificate, leaf.certificateChain).(authorizations := leaf.authorizations);
      cache.patchedResponses := cache.patchedResponses[key := Response(metadata)];
      if metadata.nspace != 0 {
        cache.keysByNspace := cache.keysByNspace[metadata.nspace := key];
      }
      return PatchedKey(metadata);
    }

    method ImportKeyPost(uid: Int32, alias: Option<Utf16>, reply: BackendReply<()>)
      modifies cache, cache.registry, cache.persistence
      ensures Shared() == ImportPost(old(Shared()), uid, alias, reply)
      ensures Keeps(old(Shared()), Step.ImportKeyPost(uid, alias, reply), Shared())
    {
      ghost var before := Shared();
      if reply.Answer? && alias.Some? {
        cache.CleanupKey(Key(uid, alias.value));
      }
      assert Shared() == Apply(before, Step.ImportKeyPost(uid, alias, reply));
      StepKeeps(before, Step.ImportKeyPost(uid, alias, reply));
    }

    /** loadPersistedKeys over what loadAll returned. */
    method LoadPersistedKeys(records: seq<Record>, metadataOf: Record -> Metadata)
      modifies cache
      ensures Shared() == RestoreLevel(old(Shared()), records, level, metadataOf)
    {
      var i := 0;
      while i < |records|
        invariant 0 <= i <= |records|
        invariant cache.registry.Value() == old(cache.registry.Value()) && cache.persistence.jobs == old(cache.persistence.jobs)
        invariant RestoreLevel(Shared(), records[i..], level, metadataOf) == RestoreLevel(old(Shared()), records, level, metadataOf)
      {
        var pk := records[i];
        ghost var before := Shared();
        assert records[i..][0] == pk && records[i..][1..] == records[i + 1..];
        if pk.securityLevel == level {
          var key := KeyOf(pk);
          cache.keys := cache.keys[key := Info(pk.keyPair, pk.secretKey, Response(metadataOf(pk)), pk.params)];
          if pk.keyPair.Some? {
            cache.keyPairs := cache.keyPairs[key := (pk.keyPair.value, pk.chain)];
          }
          if pk.nspace != 0 {
            cache.keysByNspace := cache.keysByNspace[pk.nspace := key];
          }
          if pk.skipLeafHack {
            cache.skipLeafHacks := cache.skipLeafHacks[key := true];
          }
        }
        assert Shared() == RestoreIf(before, pk, level, metadataOf);
        i := i + 1;
      }
    }
  }
}
