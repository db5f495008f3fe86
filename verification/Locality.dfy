/**
 Ending the ownership of one key touches no other, and the two maps of the passthrough
 registry behave as one set of keys, each with the nspaces it was given.
 */
module Locality {
  import opened Common
  import opened KeyData
  import opened Ownership
  import opened OwnershipInvariant
  import opened Reads

  /** The numbers that lead to a key: index entries, registry entries and grants. */
  datatype Pointers = Pointers(indexed: set<Int64>, tracked: set<Int64>, grants: map<Int64, Grant>, usage: Option<int>)

  function PointersTo(s: State, k: Key): Pointers {
    Pointers(set n | n in s.cache.keysByNspace && s.cache.keysByNspace[n] == k,
             set n | n in s.registry.byNspace && s.registry.byNspace[n] == k,
             map id | id in s.cache.grants && s.cache.grants[id].key == k :: s.cache.grants[id],
             Lookup(s.cache.usageRemaining, k))
  }

  /** The transitions that end the ownership of a key, or a part of it. */
  datatype Ending = Clearing(persist: bool) | Invalidating(removePassthrough: bool) | CleaningUp | Relinquishing

  function End(s: State, k: Key, how: Ending): State {
    match how
    case Clearing(persist) => Clear(s, k, persist)
    case Invalidating(removePassthrough) => Invalidate(s, k, removePassthrough)
    case CleaningUp => Cleanup(s, k)
    case Relinquishing => Relinquish(s, k)
  }

  lemma ClearIsLocal(s: State, ended: Key, persist: bool, k: Key, local: iset<Int64>)
    requires Inv(s, local) && k != ended
    ensures PointersTo(Clear(s, ended, persist), k) == PointersTo(s, k)
  {
    var after := Clear(s, ended, persist);
    forall n | n in PointersTo(s, k).indexed ensures n in PointersTo(after, k).indexed {
      if ended in s.cache.keys { assert s.cache.keysByNspace[ForgedNspace(s.cache, ended)] == ended; }
    }
    assert PointersTo(after, k).grants == PointersTo(s, k).grants;
  }

  lemma RelinquishIsLocal(s: State, ended: Key, k: Key)
    requires k != ended
    ensures PointersTo(Relinquish(s, ended), k) == PointersTo(s, k)
  {
  }

  /**
   However the ownership of a key ends, every other key keeps its entries, its tracking, every
   number that points to it, its grants and its usage counter.
   */
  lemma EndingIsLocal(s: State, ended: Key, how: Ending, k: Key, local: iset<Int64>)
    requires Inv(s, local) && k != ended
    ensures var after := End(s, ended, how);
            HoldingsOf(after, k) == HoldingsOf(s, k) && PointersTo(after, k) == PointersTo(s, k)
  {
    var persist := if how.Clearing? then how.persist else how.CleaningUp?;
    ClearFrame(s, ended, persist, k);
    ClearIsLocal(s, ended, persist, k, local);
    RelinquishIsLocal(Clear(s, ended, persist), ended, k);
    RelinquishIsLocal(s, ended, k);
  }

  /** Cleaning up leaves nothing of the key itself, and no number pointing to it. */
  lemma CleanupIsComplete(s: State, ended: Key)
    ensures var after := End(s, ended, CleaningUp);
            && HoldingsOf(after, ended) == Holdings(None, None, None, None, false)
            && PointersTo(after, ended) == Pointers({}, {}, map[], None)
  {
    assert PointersTo(End(s, ended, CleaningUp), ended).grants == map[];
  }

  /**
   On arbitrary maps the index of other keys survives exactly when the entry under the ended
   key's own response nspace, if any, is not another key's: that entry is removed unseen.
   */
  lemma IndexLocalExactly(c: Cache, ended: Key)
    ensures (forall n :: n in c.keysByNspace && c.keysByNspace[n] != ended
               ==> n in ClearCache(c, ended).keysByNspace && ClearCache(c, ended).keysByNspace[n] == c.keysByNspace[n])
            <==> !(ended in c.keys && ForgedNspace(c, ended) in c.keysByNspace
                   && c.keysByNspace[ForgedNspace(c, ended)] != ended)
  {
    if ended in c.keys && ForgedNspace(c, ended) in c.keysByNspace {
      var n := ForgedNspace(c, ended);
      assert n !in ClearCache(c, ended).keysByNspace;
    }
  }

  // ---- the passthrough registry as one set ----

  /** Each tracked key with the nspaces that resolve to it. */
  function Keys(r: Registry): map<Key, set<Int64>> {
    map k | k in r.tracked :: set n | n in r.byNspace && r.byNspace[n] == k
  }

  /** No nspace belongs to two keys. */
  ghost predicate Disjoint(keys: map<Key, set<Int64>>) {
    forall j, k, n :: j in keys && k in keys && n in keys[j] && n in keys[k] ==> j == k
  }

  /** Resolution on the set: an own key that has the nspace, else the key of that alias. */
  ghost predicate ResolvesTo(keys: map<Key, set<Int64>>, uid: Int32, d: Descriptor, result: Option<Key>) {
    if exists k :: k in keys && k.uid == uid && d.nspace != 0 && d.nspace in keys[k]
    then result.Some? && result.value in keys && result.value.uid == uid && d.nspace in keys[result.value]
    else if d.alias.Some? && Key(uid, d.alias.value) in keys then result == Some(Key(uid, d.alias.value))
    else result == None
  }

  /** Looking a descriptor up in the two maps is looking it up in the set. */
  lemma ResolveAgrees(r: Registry, uid: Int32, d: Descriptor)
    ensures Disjoint(Keys(r))
    ensures ResolvesTo(Keys(r), uid, d, ResolveTracked(r, uid, d))
  {
  }

  /** Promotion adds the key and moves the nspace to it; untracking removes the key with all its nspaces. */
  lemma RegistryUpdatesAgree(r: Registry, k: Key, nspace: Int64)
    ensures var after := Keys(Promote(r, k, nspace));
            && after.Keys == r.tracked + {k}
            && (forall j :: j in r.tracked && j != k ==> after[j] == Keys(r)[j] - (if nspace != 0 then {nspace} else {}))
            && (k in r.tracked ==> after[k] == Keys(r)[k] + (if nspace != 0 then {nspace} else {}))
            && (nspace != 0 ==> nspace in after[k])
    ensures Keys(Untrack(r, k)) == Keys(r) - {k}
  {
    forall j | j in r.tracked && j != k
      ensures Keys(Untrack(r, k))[j] == Keys(r)[j]
    {
    }
    assert (Keys(r) - {k}).Keys == Keys(Untrack(r, k)).Keys;
  }

  /** A key untracked and promoted again without a number answers to its alias only. */
  lemma ForgottenNumbers(r: Registry, k: Key, uid: Int32, nspace: Int64)
    requires nspace in r.byNspace && r.byNspace[nspace] == k
    ensures ResolveTracked(Promote(Untrack(r, k), k, 0), uid, Descriptor(nspace, None)).None?
  {
  }
}
