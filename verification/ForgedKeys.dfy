/** What becomes of a forged key from one hook to the next: stored anew, kept as it was, or gone. */
module ForgedKeys {
  import opened Common
  import opened KeyData
  import opened Ownership
  import opened Hooks
  import opened OwnershipInvariant

  /** The step stores `k` anew. */
  predicate Stores(s: State, step: Step, k: Key) {
    && step.GenerateKeyPre? && step.generate.Some? && step.generate.value.alias == Some(k.alias) && step.uid == k.uid
    && ReachesStore(step.modes, step.phonePermission, step.generate, step.keygen) && step.keygen.Made?
  }

  /** The metadata of a forged key changes only by an update of its certificates. */
  predicate SameUpToChain(m: Metadata, n: Metadata) {
    m.nspace == n.nspace && m.authorizations == n.authorizations
  }

  /** `k`, if forged after, was forged before, with the same material, parameters, nspace and count left. */
  predicate SameForged(before: Cache, after: Cache, k: Key) {
    k in after.keys ==>
      && k in before.keys
      && after.keys[k].keyPair == before.keys[k].keyPair && after.keys[k].secretKey == before.keys[k].secretKey
      && after.keys[k].params == before.keys[k].params
      && SameUpToChain(after.keys[k].response.metadata, before.keys[k].response.metadata)
      && Lookup(after.usageRemaining, k) == Lookup(before.usageRemaining, k)
  }

  lemma ClearKeepsForged(c: Cache, ended: Key, k: Key)
    ensures SameForged(c, ClearCache(c, ended), k)
  {
  }

  lemma StoreKeepsOthers(s: State, level: Int32, stored: Key, r: GenerateRequest, skip: bool, made: Keygen, draw: Int64, k: Key)
    requires made.Made? && k != stored
    ensures SameForged(s.cache, StoreGenerated(s, level, stored, r.domain, r.params, skip, made, draw).0.cache, k)
  {
    ClearKeepsForged(s.cache, stored, k);
  }

  lemma UnbuiltKeepsForged(s: State, stored: Key, made: Keygen, draw: Int64, k: Key)
    requires made.Unbuilt?
    ensures SameForged(s.cache, StoreUnbuilt(s, stored, made, draw).cache, k)
  {
    ClearKeepsForged(s.cache, stored, k);
  }

  lemma GeneratePreKeepsForged(s: State, step: Step, k: Key)
    requires step.GenerateKeyPre? && !Stores(s, step, k)
    ensures SameForged(s.cache, Apply(s, step).cache, k)
  {
    if step.generate.Some? && step.generate.value.alias.Some? {
      var r := step.generate.value;
      var stored := Key(step.uid, r.alias.value);
      if !step.modes.needGenerate {
        ClearKeepsForged(s.cache, stored, k);
      } else if step.keygen.Unbuilt? {
        UnbuiltKeepsForged(s, stored, step.keygen, step.draw, k);
      } else if step.keygen.Made? && k != stored {
        StoreKeepsOthers(s, step.level, stored, r, step.modes.needHack, step.keygen, step.draw, k);
      }
    }
  }

  lemma GeneratePostKeepsForged(s: State, step: Step, k: Key)
    requires step.GenerateKeyPost?
    ensures SameForged(s.cache, Apply(s, step).cache, k)
  {
    if step.alias.Some? { ClearKeepsForged(s.cache, Key(step.uid, step.alias.value), k); }
  }

  lemma UpdateKeepsForged(s: State, step: Step, k: Key)
    requires step.UpdateSubcomponentPre? || step.UpdateSubcomponentPost?
    ensures SameForged(s.cache, Apply(s, step).cache, k)
  {
  }

  lemma ReadKeepsForged(s: State, step: Step, k: Key)
    requires step.GetKeyEntryPre? || step.GetKeyEntryPost?
    ensures SameForged(s.cache, Apply(s, step).cache, k)
  {
    if step.GetKeyEntryPre? && step.request.Some? && step.request.value.alias.Some? {
      ClearKeepsForged(s.cache, Key(step.uid, step.request.value.alias.value), k);
    }
  }

  lemma OtherKeepsForged(s: State, step: Step, k: Key)
    requires !step.GenerateKeyPre? && !step.GenerateKeyPost? && !step.FinishOperation?
    requires !step.UpdateSubcomponentPre? && !step.UpdateSubcomponentPost? && !step.GetKeyEntryPre? && !step.GetKeyEntryPost?
    ensures SameForged(s.cache, Apply(s, step).cache, k)
  {
  }

  /** A hook other than a store keeps whatever a key that stays forged is made of, and its count. */
  lemma StepKeepsForged(s: State, step: Step, k: Key)
    requires !step.FinishOperation? && !Stores(s, step, k)
    ensures SameForged(s.cache, Apply(s, step).cache, k)
  {
    if step.GenerateKeyPre? {
      GeneratePreKeepsForged(s, step, k);
    } else if step.GenerateKeyPost? {
      GeneratePostKeepsForged(s, step, k);
    } else if step.UpdateSubcomponentPre? || step.UpdateSubcomponentPost? {
      UpdateKeepsForged(s, step, k);
    } else if step.GetKeyEntryPre? || step.GetKeyEntryPost? {
      ReadKeepsForged(s, step, k);
    } else {
      OtherKeepsForged(s, step, k);
    }
  }

  /** What a store leaves: the new material and nspace, and the limit, if any, as the count. */
  lemma StoreForges(s: State, step: Step, k: Key)
    requires Stores(s, step, k)
    ensures var c := Apply(s, step).cache;
            var params := step.generate.value.params;
            && k in c.keys
            && c.keys[k] == Info(Some(step.keygen.keyPair), None,
                                 Response(Metadata(step.draw, step.keygen.certificate, step.keygen.certificateChain,
                                                   step.keygen.authorizations)), params)
            && Lookup(c.usageRemaining, k) == if params.usageCountLimit > 0 then Some(params.usageCountLimit) else None
  {
  }
}
