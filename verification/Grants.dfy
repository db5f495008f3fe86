/**
 Grants of forged keys: when hooks interleave in halves, grants stay unique exactly as long as no
 post-hook records a second one; as whole calls they always do, since the post-hook of a call
 records a real grant only when its own pre-hook forwarded it.
 */
module Grants {
  import opened Common
  import opened KeyData
  import opened Ownership
  import opened Hooks
  import opened OwnershipInvariant

  /** A hook on its own, or a whole grant call. */
  datatype Event =
    | Hook(step: Step)
    | GrantCall(hasKeyboxes: bool, uid: Int32, request: Option<Descriptor>, granteeUid: Int32, accessVector: bv32,
                id: Int64, granted: Option<Int64>)

  function Happen(s: State, e: Event): State {
    match e
    case Hook(step) => Apply(s, step)
    case GrantCall(kb, uid, r, grantee, access, id, granted) =>
      var (s1, reply) := GrantPre(s, kb, uid, r, grantee, access, id);
      if reply.Continue? then GrantPost(s1, kb, uid, r, grantee, access, granted) else s1
  }

  ghost predicate MayHappen(s: State, e: Event, local: iset<Int64>) {
    match e
    case Hook(step) => !step.GrantKeyPre? && !step.GrantKeyPost? && Allowed(s, step, local)
    case GrantCall(kb, uid, r, grantee, access, id, granted) =>
      (r.Some? ==> GrantIdChosen(s.cache, uid, r.value, grantee, id, local))
      && (granted.Some? ==> granted.value !in local)
  }

  predicate SameGrant(g: Grant, h: Grant) {
    g.key == h.key && g.granteeUid == h.granteeUid
  }

  /** At most one grant id per forged key and grantee. */
  ghost predicate UniqueForgedGrants(c: Cache) {
    forall i, j ::
      (i in c.grants && j in c.grants && c.grants[i].key in c.keys && SameGrant(c.grants[i], c.grants[j])) ==> i == j
  }

  /** Fewer grants of fewer forged keys stay unique. */
  lemma UniqueShrinks(before: Cache, after: Cache)
    requires UniqueForgedGrants(before)
    requires forall id :: id in after.grants && after.grants[id].key in after.keys
               ==> id in before.grants && before.grants[id] == after.grants[id] && after.grants[id].key in before.keys
    ensures UniqueForgedGrants(after)
  {
  }

  /** A newly forged key starts without grants. */
  lemma StoreKeepsUnique(s: State, level: Int32, k: Key, domain: Int32, params: Params, skip: bool, made: Keygen,
                         draw: Int64)
    requires UniqueForgedGrants(s.cache) && made.Made?
    ensures UniqueForgedGrants(StoreGenerated(s, level, k, domain, params, skip, made, draw).0.cache)
  {
    var after := StoreGenerated(s, level, k, domain, params, skip, made, draw).0.cache;
    assert forall id :: id in after.grants ==> after.grants[id].key != k;
    UniqueShrinks(s.cache, after);
  }

  lemma GenerateKeepsUnique(s: State, step: Step)
    requires UniqueForgedGrants(s.cache) && step.GenerateKeyPre?
    ensures UniqueForgedGrants(Apply(s, step).cache)
  {
    if step.generate.Some? && step.generate.value.alias.Some? {
      var r := step.generate.value;
      var k := Key(step.uid, r.alias.value);
      if step.keygen.Made? {
        StoreKeepsUnique(s, step.level, k, r.domain, r.params, step.modes.needHack, step.keygen, step.draw);
      }
      UniqueShrinks(s.cache, ClearCache(s.cache, k));
    }
  }

  lemma UpdateKeepsUnique(s: State, step: Step)
    requires UniqueForgedGrants(s.cache) && (step.UpdateSubcomponentPre? || step.UpdateSubcomponentPost?)
    ensures UniqueForgedGrants(Apply(s, step).cache)
  {
    if step.UpdateSubcomponentPre? && step.request.Some? && UpdateTarget(s.cache, step.uid, step.request.value).Some? {
      var k := UpdateTarget(s.cache, step.uid, step.request.value).value;
      UniqueShrinks(s.cache, UpdateChain(s.cache, k, step.certificate, step.chain));
      UniqueShrinks(s.cache, ClearCache(s.cache, Key(step.uid, k.alias)));
    } else {
      UniqueShrinks(s.cache, Apply(s, step).cache);
    }
  }

  /** A post-hook of generateKey, like every hook that only ends ownership, adds no grant and forges no key. */
  lemma GeneratePostKeepsUnique(s: State, step: Step)
    requires UniqueForgedGrants(s.cache) && step.GenerateKeyPost?
    ensures UniqueForgedGrants(Apply(s, step).cache)
  {
    if step.alias.Some? {
      UniqueShrinks(s.cache, ClearCache(s.cache, Key(step.uid, step.alias.value)));
    }
  }

  lemma ReadKeepsUnique(s: State, step: Step)
    requires UniqueForgedGrants(s.cache) && (step.GetKeyEntryPre? || step.GetKeyEntryPost?)
    ensures UniqueForgedGrants(Apply(s, step).cache)
  {
    if step.GetKeyEntryPre? && step.request.Some? && step.request.value.alias.Some? {
      UniqueShrinks(s.cache, ClearCache(s.cache, Key(step.uid, step.request.value.alias.value)));
    } else {
      UniqueShrinks(s.cache, Apply(s, step).cache);
    }
  }

  lemma HookKeepsUnique(s: State, step: Step)
    requires UniqueForgedGrants(s.cache) && !step.GrantKeyPre? && !step.GrantKeyPost?
    ensures UniqueForgedGrants(Apply(s, step).cache)
  {
    if step.GenerateKeyPre? {
      GenerateKeepsUnique(s, step);
    } else if step.GenerateKeyPost? {
      GeneratePostKeepsUnique(s, step);
    } else if step.UpdateSubcomponentPre? || step.UpdateSubcomponentPost? {
      UpdateKeepsUnique(s, step);
    } else if step.GetKeyEntryPre? || step.GetKeyEntryPost? {
      ReadKeepsUnique(s, step);
    } else {
      UniqueShrinks(s.cache, Apply(s, step).cache);
    }
  }

  /** The id the grant hook uses is the only one this grantee has, if it has any. */
  lemma ChosenIsOnly(c: Cache, uid: Int32, d: Descriptor, granteeUid: Int32, id: Int64, local: iset<Int64>)
    requires UniqueForgedGrants(c) && GrantIdChosen(c, uid, d, granteeUid, id, local)
    requires ResolveKey(c, uid, d).Some? && ResolveKey(c, uid, d).value in c.keys
    ensures var ids := GrantIds(c, ResolveKey(c, uid, d).value, granteeUid); ids == {} || ids == {id}
  {
    var ids := GrantIds(c, ResolveKey(c, uid, d).value, granteeUid);
    if ids != {} {
      assert id in ids && SameGrant(c.grants[id], c.grants[id]);
      forall i | i in ids ensures i == id {
        assert SameGrant(c.grants[i], c.grants[id]);
      }
    }
  }

  /** The pre-hook reuses the grantee's one grant of a forged key, or adds the first. */
  lemma GrantPreKeepsUnique(s: State, hasKeyboxes: bool, uid: Int32, d: Descriptor, granteeUid: Int32, accessVector: bv32,
                            id: Int64, local: iset<Int64>)
    requires UniqueForgedGrants(s.cache) && GrantIdChosen(s.cache, uid, d, granteeUid, id, local)
    ensures UniqueForgedGrants(GrantPre(s, hasKeyboxes, uid, Some(d), granteeUid, accessVector, id).0.cache)
  {
    var key := ResolveKey(s.cache, uid, d);
    if hasKeyboxes && key.Some? && key.value in s.cache.keys {
      var k := key.value;
      ChosenIsOnly(s.cache, uid, d, granteeUid, id, local);
      var after := GrantPre(s, hasKeyboxes, uid, Some(d), granteeUid, accessVector, id).0.cache;
      forall i | i in after.grants && SameGrant(after.grants[i], after.grants[id]) ensures i == id {
        assert i == id || i in GrantIds(s.cache, k, granteeUid);
      }
    }
  }

  /** The real grant the post-hook records is a second one of a forged key to that grantee. */
  predicate Collides(c: Cache, k: Key, granteeUid: Int32, granted: Int64) {
    k in c.keys && GrantIds(c, k, granteeUid) - {granted} != {}
  }

  /** A recorded real grant leaves grants unique exactly when it does not collide. */
  lemma GrantPostUniqueExactly(s: State, uid: Int32, d: Descriptor, granteeUid: Int32, accessVector: bv32, granted: Int64)
    requires UniqueForgedGrants(s.cache) && ResolveKey(s.cache, uid, d).Some?
    ensures UniqueForgedGrants(GrantPost(s, true, uid, Some(d), granteeUid, accessVector, Some(granted)).cache)
            <==> !Collides(s.cache, ResolveKey(s.cache, uid, d).value, granteeUid, granted)
  {
    var k := ResolveKey(s.cache, uid, d).value;
    var after := GrantPost(s, true, uid, Some(d), granteeUid, accessVector, Some(granted)).cache;
    if IsPatchedKey(s.cache, k) {
      if i: Int64 :| i in GrantIds(s.cache, k, granteeUid) - {granted} {
        assert SameGrant(after.grants[i], after.grants[granted]);
      } else {
        forall i | i in after.grants && SameGrant(after.grants[i], after.grants[granted])
          ensures k in s.cache.keys ==> i == granted
        {
          assert i == granted || i in GrantIds(s.cache, k, granteeUid) - {granted};
        }
      }
    }
  }

  lemma GrantCallKeepsUnique(s: State, e: Event, local: iset<Int64>)
    requires UniqueForgedGrants(s.cache) && e.GrantCall? && MayHappen(s, e, local)
    ensures UniqueForgedGrants(Happen(s, e).cache)
  {
    if e.request.Some? {
      var d := e.request.value;
      GrantPreKeepsUnique(s, e.hasKeyboxes, e.uid, d, e.granteeUid, e.accessVector, e.id, local);
      if e.granted.Some? && ResolveKey(s.cache, e.uid, d).Some? {
        GrantPostUniqueExactly(s, e.uid, d, e.granteeUid, e.accessVector, e.granted.value);
      }
    }
  }

  // ---- runs of half transactions ----

  /** The step records a real grant that collides. */
  predicate Colliding(s: State, step: Step) {
    && step.GrantKeyPost? && step.hasKeyboxes && step.request.Some? && step.granted.Some?
    && ResolveKey(s.cache, step.uid, step.request.value).Some?
    && Collides(s.cache, ResolveKey(s.cache, step.uid, step.request.value).value, step.granteeUid, step.granted.value)
  }

  predicate NeverCollides(s: State, steps: seq<Step>)
    decreases |steps|
  {
    steps == [] || (!Colliding(s, steps[0]) && NeverCollides(Apply(s, steps[0]), steps[1..]))
  }

  /** Grants are unique in every state the run passes through. */
  ghost predicate UniqueThroughout(s: State, steps: seq<Step>)
    decreases |steps|
  {
    UniqueForgedGrants(s.cache) && (steps == [] || UniqueThroughout(Apply(s, steps[0]), steps[1..]))
  }

  lemma StepUniqueExactly(s: State, step: Step, local: iset<Int64>)
    requires UniqueForgedGrants(s.cache) && Allowed(s, step, local)
    ensures UniqueForgedGrants(Apply(s, step).cache) <==> !Colliding(s, step)
  {
    if step.GrantKeyPre? {
      if step.request.Some? {
        GrantPreKeepsUnique(s, step.hasKeyboxes, step.uid, step.request.value, step.granteeUid, step.accessVector, step.id, local);
      }
    } else if step.GrantKeyPost? {
      if step.request.Some? && step.granted.Some? && ResolveKey(s.cache, step.uid, step.request.value).Some? {
        GrantPostUniqueExactly(s, step.uid, step.request.value, step.granteeUid, step.accessVector, step.granted.value);
      }
    } else {
      HookKeepsUnique(s, step);
    }
  }

  /**
   However the halves of grant calls and other hooks interleave: grants of forged keys are unique
   throughout a run exactly when no post-hook of it records a grant that collides.
   */
  lemma {:induction false} UniqueThroughoutExactly(s: State, steps: seq<Step>, local: iset<Int64>)
    requires UniqueForgedGrants(s.cache) && Feasible(s, steps, local)
    ensures UniqueThroughout(s, steps) <==> NeverCollides(s, steps)
    decreases |steps|
  {
    if steps != [] {
      StepUniqueExactly(s, steps[0], local);
      if !Colliding(s, steps[0]) { UniqueThroughoutExactly(Apply(s, steps[0]), steps[1..], local); }
    }
  }

  // ---- whole transactions ----

  function Unfold(s: State, events: seq<Event>): State
    decreases |events|
  {
    if events == [] then s else Unfold(Happen(s, events[0]), events[1..])
  }

  ghost predicate MayUnfold(s: State, events: seq<Event>, local: iset<Int64>)
    decreases |events|
  {
    events == [] || (MayHappen(s, events[0], local) && MayUnfold(Happen(s, events[0]), events[1..], local))
  }

  /** In every reachable state a forged key has at most one grant id per grantee. */
  lemma {:induction false} ForgedGrantsStayUnique(s: State, events: seq<Event>, local: iset<Int64>)
    requires UniqueForgedGrants(s.cache) && MayUnfold(s, events, local)
    ensures UniqueForgedGrants(Unfold(s, events).cache)
    decreases |events|
  {
    if events != [] {
      if events[0].Hook? { HookKeepsUnique(s, events[0].step); } else { GrantCallKeepsUnique(s, events[0], local); }
      ForgedGrantsStayUnique(Happen(s, events[0]), events[1..], local);
    }
  }

  /**
   Granting a forged key answers with the one grant id of that grantee: the old one if there
   was one, now carrying the new access vector. No other grant changes.
   */
  lemma ForgedGrant(s: State, uid: Int32, d: Descriptor, granteeUid: Int32, accessVector: bv32, id: Int64,
                    local: iset<Int64>)
    requires UniqueForgedGrants(s.cache) && GrantIdChosen(s.cache, uid, d, granteeUid, id, local)
    requires ResolveKey(s.cache, uid, d).Some? && ResolveKey(s.cache, uid, d).value in s.cache.keys
    ensures var k := ResolveKey(s.cache, uid, d).value;
            var (s1, reply) := GrantPre(s, true, uid, Some(d), granteeUid, accessVector, id);
            && reply == GrantedAs(id)
            && GrantIds(s1.cache, k, granteeUid) == {id}
            && (GrantIds(s.cache, k, granteeUid) != {} ==> GrantIds(s.cache, k, granteeUid) == {id})
            && s1.cache.grants[id].accessVector == accessVector
            && s1.cache.grants - {id} == s.cache.grants - {id}
  {
    var k := ResolveKey(s.cache, uid, d).value;
    var s1 := GrantPre(s, true, uid, Some(d), granteeUid, accessVector, id).0;
    ChosenIsOnly(s.cache, uid, d, granteeUid, id, local);
    assert id in GrantIds(s1.cache, k, granteeUid);
    forall i | i in GrantIds(s1.cache, k, granteeUid) ensures i == id {
      assert i == id || i in GrantIds(s.cache, k, granteeUid);
    }
  }

  /** Ungranting leaves no grant of the key to that grantee and every other grant as it was. */
  lemma Ungrant(s: State, uid: Int32, d: Descriptor, granteeUid: Int32)
    requires ResolveKey(s.cache, uid, d).Some?
    ensures var k := ResolveKey(s.cache, uid, d).value;
            var c := UngrantPre(s, uid, Some(d), granteeUid).0.cache;
            && GrantIds(c, k, granteeUid) == {}
            && (forall id :: id in s.cache.grants && !(s.cache.grants[id].key == k && s.cache.grants[id].granteeUid == granteeUid)
                  ==> id in c.grants && c.grants[id] == s.cache.grants[id])
  {
  }
}
