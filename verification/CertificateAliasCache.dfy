/**
 The objects that hold the shared maps. Their methods change the fields step by step; each
 contract gives the whole new value of the fields as a function of the old one.
 */
module CertificateAliasCaches {
  import opened Common
  import opened KeyData
  import opened Ownership
  import opened Hooks

  /** Keys that must be answered with the real keystore's unmodified chain. */
  class PassthroughKeyRegistry {
    var tracked: set<Key>
    var byNspace: map<Int64, Key>

    constructor ()
      ensures Value() == EMPTY_REGISTRY
    {
      tracked, byNspace := {}, map[];
    }

    function Value(): Registry
      reads this
    {
      Registry(tracked, byNspace)
    }

    method Promote(k: Key, nspace: Option<Int64>)
      modifies this
      ensures Value() == Ownership.Promote(old(Value()), k, if nspace.Some? then nspace.value else 0)
    {
      tracked := tracked + {k};
      if nspace.Some? && nspace.value != 0 {
        byNspace := byNspace[nspace.value := k];
      }
    }

    method Remove(k: Key)
      modifies this
      ensures Value() == Untrack(old(Value()), k)
    {
      tracked := tracked - {k};
      byNspace := map n | n in byNspace && byNspace[n] != k :: byNspace[n];
    }

    method Clear()
      modifies this
      ensures Value() == EMPTY_REGISTRY
    {
      tracked := {};
      byNspace := map[];
    }

    method Resolve(uid: Int32, d: Descriptor) returns (k: Option<Key>)
      ensures k == ResolveTracked(Value(), uid, d)
    {
      if d.nspace != 0 && d.nspace in byNspace {
        var candidate := byNspace[d.nspace];
        if candidate.uid == uid && candidate in tracked {
          return Some(candidate);
        }
      }
      if d.alias.Some? {
        var id := Key(uid, d.alias.value);
        if id in tracked {
          return Some(id);
        }
      }
      return None;
    }
  }

  /** The jobs handed to the persistence thread, oldest first. */
  class PersistQueue {
    var jobs: seq<Job>

    constructor ()
      ensures jobs == []
    {
      jobs := [];
    }

    method Execute(job: Job)
      modifies this
      ensures jobs == old(jobs) + [job]
    {
      jobs := jobs + [job];
    }
  }

  /** The certificate-response caches and their ownership transitions. */
  class CertificateAliasCache {
    var keys: map<Key, Info>
    var keyPairs: map<Key, (KeyPair, Chain)>
    var skipLeafHacks: map<Key, bool>
    var keysByNspace: map<Int64, Key>
    var patchedResponses: map<Key, Response>
    var grants: map<Int64, Grant>
    var usageRemaining: map<Key, int>
    const registry: PassthroughKeyRegistry
    const persistence: PersistQueue

    constructor (registry: PassthroughKeyRegistry, persistence: PersistQueue)
      ensures Value() == EMPTY_CACHE && this.registry == registry && this.persistence == persistence
    {
      keys, keyPairs, skipLeafHacks, keysByNspace := map[], map[], map[], map[];
      patchedResponses, grants, usageRemaining := map[], map[], map[];
      this.registry, this.persistence := registry, persistence;
    }

    function Value(): Cache
      reads this
    {
      Cache(keys, keyPairs, skipLeafHacks, keysByNspace, patchedResponses, grants, usageRemaining)
    }

    /** The shared state, with the pending marks of whoever looks. */
    function Shared(pending: set<(Int32, Key)>): State
      reads this, registry, persistence
    {
      State(Value(), registry.Value(), pending, persistence.jobs)
    }

    // ---- lookups ----

    /** resolveOwnerKeys: fills a list of candidates. */
    method ResolveOwnerKeys(uid: Int32, d: Descriptor) returns (candidates: seq<Key>)
      ensures candidates == OwnerKeys(Value(), uid, d)
    {
      candidates := [];
      if d.nspace != 0 {
        if d.nspace in keysByNspace && keysByNspace[d.nspace].uid == uid {
          candidates := candidates + [keysByNspace[d.nspace]];
        }
        if d.nspace in grants && grants[d.nspace].granteeUid == uid {
          candidates := candidates + [grants[d.nspace].key];
        }
      }
      if d.alias.Some? {
        candidates := candidates + [Key(uid, d.alias.value)];
      }
    }

    /** firstNotNullOfOrNull over the candidates. */
    static method FirstWithEntry<V>(candidates: seq<Key>, m: map<Key, V>) returns (k: Option<Key>)
      ensures k == FirstIn(candidates, m)
    {
      var i := 0;
      while i < |candidates|
        invariant 0 <= i <= |candidates|
        invariant FirstIn(candidates, m) == FirstIn(candidates[i..], m)
      {
        if candidates[i] in m {
          return Some(candidates[i]);
        }
        assert candidates[i..][1..] == candidates[i + 1..];
        i := i + 1;
      }
      return None;
    }

    method FindGeneratedKey(uid: Int32, d: Descriptor) returns (k: Option<Key>)
      ensures k == FindGenerated(Value(), uid, d)
    {
      var candidates := ResolveOwnerKeys(uid, d);
      k := FirstWithEntry(candidates, keys);
    }

    method ResolvePatchedResponse(uid: Int32, d: Descriptor) returns (k: Option<Key>)
      ensures k == FindPatched(Value(), uid, d)
    {
      var candidates := ResolveOwnerKeys(uid, d);
      k := FirstWithEntry(candidates, patchedResponses);
    }

    method ShouldSkipLeafHackFor(uid: Int32, d: Descriptor) returns (skip: bool)
      ensures skip == SkipsLeafHack(Value(), uid, d)
    {
      var candidates := ResolveOwnerKeys(uid, d);
      var k := FirstWithEntry(candidates, skipLeafHacks);
      skip := k.Some? && skipLeafHacks[k.value];
    }

    method ResolveKey(uid: Int32, d: Descriptor) returns (k: Option<Key>)
      ensures k == Ownership.ResolveKey(Value(), uid, d)
    {
      if d.nspace != 0 && d.nspace in keysByNspace && keysByNspace[d.nspace].uid == uid {
        return Some(keysByNspace[d.nspace]);
      }
      return if d.alias.Some? then Some(Key(uid, d.alias.value)) else None;
    }

    method IsPassthroughDescriptor(uid: Int32, d: Descriptor) returns (passthrough: bool)
      ensures passthrough == IsPassthrough(Shared({}), uid, d)
    {
      var tracked := registry.Resolve(uid, d);
      if tracked.Some? {
        return true;
      }
      var candidates := ResolveOwnerKeys(uid, d);
      var i := 0;
      while i < |candidates|
        invariant 0 <= i <= |candidates|
        invariant forall j :: 0 <= j < i ==> candidates[j] !in registry.tracked
      {
        if candidates[i] in registry.tracked {
          return true;
        }
        i := i + 1;
      }
      return false;
    }

    // ---- ownership transitions ----

    method ClearSyntheticCertificateState(k: Key, includePersistence: bool)
      modifies this, persistence
      ensures Value() == ClearCache(old(Value()), k)
      ensures persistence.jobs == if includePersistence then old(persistence.jobs) + [Delete(k)] else old(persistence.jobs)
    {
      if k in keys {
        keysByNspace := keysByNspace - {keys[k].response.metadata.nspace};
      }
      keysByNspace := map n | n in keysByNspace && keysByNspace[n] != k :: keysByNspace[n];
      assert keysByNspace == ClearCache(old(Value()), k).keysByNspace;
      keys := keys - {k};
      keyPairs := keyPairs - {k};
      skipLeafHacks := skipLeafHacks - {k};
      patchedResponses := patchedResponses - {k};
      usageRemaining := usageRemaining - {k};
      grants := map id | id in grants && grants[id].key != k :: grants[id];
      assert grants == ClearCache(old(Value()), k).grants;
      if includePersistence {
        persistence.Execute(Delete(k));
      }
    }

    method InvalidateCertificateResponseState(k: Key, removePassthrough: bool)
      modifies this, registry, persistence
      ensures Shared({}) == Invalidate(old(Shared({})), k, removePassthrough)
    {
      ClearSyntheticCertificateState(k, false);
      if removePassthrough {
        registry.Remove(k);
      }
    }

    method CleanupKey(k: Key)
      modifies this, registry, persistence
      ensures Shared({}) == Cleanup(old(Shared({})), k)
    {
      ClearSyntheticCertificateState(k, true);
      registry.Remove(k);
    }

    method CleanupAll()
      modifies this, registry, persistence
      ensures Shared({}) == CleanupEverything(old(Shared({})))
    {
      keys, keyPairs, skipLeafHacks := map[], map[], map[];
      registry.Clear();
      patchedResponses, keysByNspace, usageRemaining, grants := map[], map[], map[], map[];
      persistence.Execute(ClearAll);
    }

    method UpdateKeyCertChain(k: Key, certificate: Option<Blob>, chain: Option<Blob>)
      modifies this
      ensures Value() == UpdateChain(old(Value()), k, certificate, chain)
    {
      if k in keys {
        keys := keys[k := keys[k].(response := Response(WithChain(keys[k].response.metadata, certificate, chain)))];
      }
      if k in patchedResponses {
        patchedResponses := patchedResponses[k := Response(WithChain(patchedResponses[k].metadata, certificate, chain))];
      }
      skipLeafHacks := skipLeafHacks - {k};
    }
  }
}
