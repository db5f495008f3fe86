/**
 The uses one store of a key has over its whole life. The counter belongs to a name and to the process,
 so it need not know of them: a key can be cleared or forged anew, or the process restarted, while
 operations opened on the store are still to finish or have finished already.
 */
module Lifetimes {
  import opened Common
  import opened KeyData
  import opened Ownership
  import opened Hooks
  import opened OwnershipInvariant
  import opened ForgedKeys
  import opened UsageCounter

  /** The store is the one its name is forged with now. */
  predicate Live(c: Cache, id: StoreId) {
    Limited(c, id.0) && IdOf(c, id.0) == id
  }

  /** The counter the operation is metered on is still that of the store it was opened on. */
  predicate Backed(c: Cache, op: Operation) {
    op.usageKey == Some(op.store.0) && Live(c, op.store)
  }

  /** The store has had no more uses than its counter was charged, and the counter shows the charges. */
  predicate Covered(m: Meter, id: StoreId) {
    && id in m.ledgers && m.ledgers[id].uses <= m.ledgers[id].charged <= m.ledgers[id].limit
    && (Live(m.state.cache, id) ==> Balanced(m, id.0))
  }

  /** The counter was charged for exactly the uses: what is left and what was used make up the limit. */
  predicate Kept(m: Meter, id: StoreId) {
    Covered(m, id) && m.ledgers[id].uses == m.ledgers[id].charged
  }

  /** The finish is of a limited operation and gets to its engine. */
  predicate Uses(m: Meter, call: Call) {
    call.FinishCall? && call.id in m.operations && m.operations[call.id].limit > 0
    && Reaches(m.state.cache.usageRemaining, m.operations[call.id], call.size)
  }

  /**
   A limited operation opened on the store finishes although its counter no longer stands for the
   store, or one opened on another store is charged to it; or a restart restores a key that was used.
   */
  predicate Disturbs(m: Meter, call: Call, id: StoreId) {
    match call
    case FinishCall(i, _, _) =>
      && Uses(m, call)
      && if m.operations[i].store == id then !Backed(m.state.cache, m.operations[i])
         else m.operations[i].usageKey == Some(id.0) && Live(m.state.cache, id)
    case Restart(restored) => id in m.ledgers && Live(restored.cache, id) && m.ledgers[id].uses > 0
    case _ => false
  }

  /** Backed by a store without a counter yet, an operation carries the limit of that store. */
  predicate CarriesOwnLimit(c: Cache, op: Operation) {
    op.limit > 0 && Backed(c, op) && op.store.0 !in c.usageRemaining
    ==> op.limit == c.keys[op.store.0].params.usageCountLimit
  }

  ghost predicate OwnLimits(m: Meter) {
    forall i :: i in m.operations ==> CarriesOwnLimit(m.state.cache, m.operations[i])
  }

  lemma HookKeepsOwnLimit(m: Meter, step: Step, op: Operation)
    requires CarriesOwnLimit(m.state.cache, op)
    ensures CarriesOwnLimit(Perform(m, Hook(step)).state.cache, op)
  {
    if !step.FinishOperation? {
      if Stores(m.state, step, op.store.0) {
        StoreForges(m.state, step, op.store.0);
      } else {
        StepKeepsForged(m.state, step, op.store.0);
      }
    }
  }

  /** Whatever a key is resolved to, an operation carries the limit of the store it is opened on. */
  lemma CallKeepsOwnLimits(m: Meter, call: Call)
    requires OwnLimits(m)
    ensures OwnLimits(Perform(m, call))
  {
    var after := Perform(m, call);
    forall i | i in after.operations ensures CarriesOwnLimit(after.state.cache, after.operations[i]) {
      if i in m.operations {
        assert CarriesOwnLimit(m.state.cache, m.operations[i]);
        if call.Hook? { HookKeepsOwnLimit(m, call.step, m.operations[i]); }
      }
    }
  }

  lemma HookKeepsCover(m: Meter, step: Step, id: StoreId)
    requires Covered(m, id)
    ensures Covered(Perform(m, Hook(step)), id)
    ensures Kept(m, id) ==> Kept(Perform(m, Hook(step)), id)
  {
    if !step.FinishOperation? {
      if Stores(m.state, step, id.0) {
        StoreForges(m.state, step, id.0);
      } else {
        StepKeepsForged(m.state, step, id.0);
      }
    }
  }

  /** What a finish books in the ledger of a store. */
  lemma FinishBooks(m: Meter, call: Call, id: StoreId)
    requires call.FinishCall? && id in m.ledgers
    ensures var after := Perform(m, call);
            && after.state.cache.keys == m.state.cache.keys
            && id in after.ledgers && after.ledgers[id].limit == m.ledgers[id].limit
            && after.ledgers[id].uses
               == m.ledgers[id].uses + (if Uses(m, call) && m.operations[call.id].store == id then 1 else 0)
            && after.ledgers[id].charged
               == m.ledgers[id].charged
                  + (if Uses(m, call) && m.operations[call.id].usageKey == Some(id.0) && Live(m.state.cache, id) then 1 else 0)
  {
  }

  lemma FinishKeepsCover(m: Meter, call: Call, id: StoreId)
    requires Covered(m, id) && OwnLimits(m) && call.FinishCall?
    ensures !Disturbs(m, call, id) ==> Covered(Perform(m, call), id)
    ensures Kept(m, id) ==> (Kept(Perform(m, call), id) <==> !Disturbs(m, call, id))
  {
    if call.id in m.operations { assert CarriesOwnLimit(m.state.cache, m.operations[call.id]); }
    FinishBooks(m, call, id);
    if Live(m.state.cache, id) && !Disturbs(m, call, id) { FinishKeepsOthers(m, call, id.0); }
  }

  lemma RestartKeepsCover(m: Meter, restored: State, id: StoreId)
    requires Covered(m, id) && restored.cache.usageRemaining == map[]
    ensures !Disturbs(m, Restart(restored), id) ==> Covered(Perform(m, Restart(restored)), id)
    ensures Kept(m, id) ==> (Kept(Perform(m, Restart(restored)), id) <==> !Disturbs(m, Restart(restored), id))
  {
    RestartBalances(m, restored, id.0);
  }

  lemma CallKeepsExactly(m: Meter, call: Call, id: StoreId)
    requires Covered(m, id) && OwnLimits(m) && (call.Restart? ==> call.restored.cache.usageRemaining == map[])
    ensures !Disturbs(m, call, id) ==> Covered(Perform(m, call), id)
    ensures Kept(m, id) ==> (Kept(Perform(m, call), id) <==> !Disturbs(m, call, id))
  {
    match call
    case Hook(step) => HookKeepsCover(m, step, id);
    case FinishCall(_, _, _) => FinishKeepsCover(m, call, id);
    case Restart(restored) => RestartKeepsCover(m, restored, id);
    case _ =>
  }

  /** While accounts are kept, all uses of the store and what is left of it make up its limit. */
  lemma KeptIsWithinLimit(m: Meter, id: StoreId)
    requires Kept(m, id)
    ensures m.ledgers[id].uses <= m.ledgers[id].limit
    ensures Live(m.state.cache, id) ==> Remaining(m.state.cache, id.0) + m.ledgers[id].uses == m.ledgers[id].limit
  {
  }

  /** From kept accounts a call or hook exceeds the limit exactly when it is one more use of a used-up store without its counter. */
  lemma ExceedsExactly(m: Meter, call: Call, id: StoreId)
    requires Kept(m, id) && OwnLimits(m) && !call.Restart?
    ensures id in Perform(m, call).ledgers
    ensures Perform(m, call).ledgers[id].uses > Perform(m, call).ledgers[id].limit
            <==> && Disturbs(m, call, id) && call.FinishCall? && m.operations[call.id].store == id
                 && m.ledgers[id].uses == m.ledgers[id].limit
  {
    CallKeepsExactly(m, call, id);
  }

  // ---- runs ----

  predicate Undisturbed(m: Meter, calls: seq<Call>, id: StoreId)
    decreases |calls|
  {
    calls == [] || (!Disturbs(m, calls[0], id) && Undisturbed(Perform(m, calls[0]), calls[1..], id))
  }

  /** The counter knows of exactly the uses in every state the run passes through. */
  predicate KeptThroughout(m: Meter, calls: seq<Call>, id: StoreId)
    decreases |calls|
  {
    Kept(m, id) && (calls == [] || KeptThroughout(Perform(m, calls[0]), calls[1..], id))
  }

  /** A key starts with its accounts kept. */
  lemma StoreIsKept(m: Meter, step: Step, k: Key)
    requires Stores(m.state, step, k) && step.generate.value.params.usageCountLimit > 0
    ensures var after := Perform(m, Hook(step));
            && Kept(after, (k, step.draw)) && after.ledgers[(k, step.draw)].uses == 0
            && (OwnLimits(m) ==> OwnLimits(after))
  {
    StoreForges(m.state, step, k);
    if OwnLimits(m) { CallKeepsOwnLimits(m, Hook(step)); }
  }

  /**
   Over every run of operations, hooks and restarts: all uses of a store are within its limit and
   what is left is the rest of it, in every state, exactly when none of its operations finishes
   after its counter went, none is metered elsewhere, nobody else's is charged to it, and no
   restart restores it used.
   */
  lemma {:induction false} KeptThroughoutExactly(m: Meter, calls: seq<Call>, id: StoreId)
    requires Kept(m, id) && OwnLimits(m) && FreshRestarts(calls)
    ensures KeptThroughout(m, calls, id) <==> Undisturbed(m, calls, id)
    decreases |calls|
  {
    if calls != [] {
      assert calls[0] in calls && forall c :: c in calls[1..] ==> c in calls;
      CallKeepsExactly(m, calls[0], id);
      CallKeepsOwnLimits(m, calls[0]);
      if !Disturbs(m, calls[0], id) { KeptThroughoutExactly(Perform(m, calls[0]), calls[1..], id); }
    }
  }

  lemma {:induction false} UndisturbedStaysCovered(m: Meter, calls: seq<Call>, id: StoreId)
    requires Covered(m, id) && OwnLimits(m) && FreshRestarts(calls) && Undisturbed(m, calls, id)
    ensures Covered(PerformAll(m, calls), id) && OwnLimits(PerformAll(m, calls))
    decreases |calls|
  {
    if calls != [] {
      assert calls[0] in calls && forall c :: c in calls[1..] ==> c in calls;
      CallKeepsExactly(m, calls[0], id);
      CallKeepsOwnLimits(m, calls[0]);
      UndisturbedStaysCovered(Perform(m, calls[0]), calls[1..], id);
    }
  }

  // ---- using up a key ----

  /** A run of operation calls only. */
  predicate Operating(calls: seq<Call>) {
    forall c :: c in calls ==> !c.Hook? && !c.Restart?
  }

  const GRANTED_REQUEST := OpenRequest(false, true, true)

  function OwnerOpen(k: Key, i: nat): Call {
    OpenCall(i, k.uid, Descriptor(0, Some(k.alias)), GRANTED_REQUEST)
  }

  function OwnersOperation(c: Cache, k: Key): Operation
    requires k in c.keys
  {
    Operation(Some(k), c.keys[k].params.usageCountLimit, IdOf(c, k), true, 0)
  }

  /** The key still has `left` uses, and no operation has an id from `i` on. */
  ghost predicate CanSpend(m: Meter, k: Key, i: nat, left: int) {
    && Limited(m.state.cache, k) && Balanced(m, k) && left == Remaining(m.state.cache, k)
    && forall j :: j >= i ==> j !in m.operations
  }

  /** Operations made `n` uses of the key, all charged, and left every operation that was open before. */
  ghost predicate Spent(m: Meter, after: Meter, k: Key, n: int) {
    && k in m.state.cache.keys && after.state.cache.keys == m.state.cache.keys
    && (forall j :: j in m.operations ==> j in after.operations && after.operations[j] == m.operations[j])
    && var id := IdOf(m.state.cache, k);
       && id in m.ledgers && id in after.ledgers
       && after.ledgers[id].limit == m.ledgers[id].limit
       && after.ledgers[id].charged == m.ledgers[id].charged + n && after.ledgers[id].uses == m.ledgers[id].uses + n
  }

  lemma SpentTogether(m: Meter, between: Meter, after: Meter, k: Key, n: int, i: int)
    requires Spent(m, between, k, n) && Spent(between, after, k, i)
    ensures Spent(m, after, k, n + i)
  {
  }

  lemma OwnerOpens(m: Meter, k: Key, i: nat, left: int)
    requires CanSpend(m, k, i, left) && left > 0
    ensures Perform(m, OwnerOpen(k, i)) == m.(operations := m.operations[i := OwnersOperation(m.state.cache, k)])
  {
    var d := Descriptor(0, Some(k.alias));
    assert OwnerKeys(m.state.cache, k.uid, d) == [k];
    assert Open(m.state.cache, k.uid, d, GRANTED_REQUEST) == Some(OwnersOperation(m.state.cache, k));
  }

  lemma OwnerFinishes(m: Meter, k: Key, i: nat)
    requires Limited(m.state.cache, k) && Balanced(m, k) && Remaining(m.state.cache, k) > 0
    requires i in m.operations && m.operations[i] == OwnersOperation(m.state.cache, k)
    ensures var after := Perform(m, FinishCall(i, None, true));
            && Spent(m.(operations := m.operations - {i}), after, k, 1) && after.operations.Keys == m.operations.Keys
            && Remaining(after.state.cache, k) == Remaining(m.state.cache, k) - 1 && Balanced(after, k)
    ensures !Disturbs(m, FinishCall(i, None, true), IdOf(m.state.cache, k))
  {
  }

  lemma SpendOne(m: Meter, k: Key, i: nat, left: int) returns (after: Meter)
    requires CanSpend(m, k, i, left) && left > 0
    ensures after == Perform(Perform(m, OwnerOpen(k, i)), FinishCall(i, None, true))
    ensures Spent(m, after, k, 1) && CanSpend(after, k, i + 1, left - 1)
    ensures !Disturbs(Perform(m, OwnerOpen(k, i)), FinishCall(i, None, true), IdOf(m.state.cache, k))
  {
    var between := Perform(m, OwnerOpen(k, i));
    after := Perform(between, FinishCall(i, None, true));
    OwnerOpens(m, k, i, left);
    OwnerFinishes(between, k, i);
    assert between.operations - {i} == m.operations;
  }

  lemma TwoCallsFirst(m: Meter, first: Call, second: Call, rest: seq<Call>, id: StoreId)
    ensures var calls, after := [first, second] + rest, Perform(Perform(m, first), second);
            && PerformAll(m, calls) == PerformAll(after, rest)
            && (Undisturbed(m, calls, id)
                <==> !Disturbs(m, first, id) && !Disturbs(Perform(m, first), second, id) && Undisturbed(after, rest, id))
            && (Operating(calls) <==> Operating([first, second]) && Operating(rest))
  {
    var calls := [first, second] + rest;
    assert calls[1..] == [second] + rest && calls[1..][1..] == rest;
    assert forall c :: c in calls <==> c in [first, second] || c in rest;
  }

  /** The owner can use up what is left of its key. */
  lemma {:induction false} SpendAll(m: Meter, k: Key, i: nat, left: nat) returns (calls: seq<Call>)
    requires CanSpend(m, k, i, left)
    ensures Operating(calls) && Undisturbed(m, calls, IdOf(m.state.cache, k)) && Spent(m, PerformAll(m, calls), k, left)
    decreases left
  {
    if left == 0 {
      calls := [];
    } else {
      var after := SpendOne(m, k, i, left);
      var rest := SpendAll(after, k, i + 1, left - 1);
      calls := [OwnerOpen(k, i), FinishCall(i, None, true)] + rest;
      TwoCallsFirst(m, OwnerOpen(k, i), FinishCall(i, None, true), rest, IdOf(m.state.cache, k));
      SpentTogether(m, after, PerformAll(after, rest), k, 1, left - 1);
    }
  }

  lemma {:induction false} SomeFreeId(used: set<nat>) returns (i: nat)
    ensures forall j :: j >= i ==> j !in used
    decreases |used|
  {
    if used == {} {
      i := 0;
    } else {
      var some :| some in used;
      var rest := SomeFreeId(used - {some});
      i := if rest > some then rest else some + 1;
      forall j | j >= i ensures j !in used { assert j !in used - {some}; }
    }
  }

  /**
   However operations, hooks and restarts go on without disturbing a forged key's accounts, its uses
   are certain to stay within its limit exactly when it had no more uses so far than its counter was charged.
   */
  lemma LifetimeWithinLimitExactly(m: Meter, k: Key)
    requires Limited(m.state.cache, k) && Balanced(m, k) && OwnLimits(m)
    ensures var id := IdOf(m.state.cache, k);
            (forall calls: seq<Call> {:trigger PerformAll(m, calls)} :: FreshRestarts(calls) && Undisturbed(m, calls, id) ==>
               id in PerformAll(m, calls).ledgers && PerformAll(m, calls).ledgers[id].uses <= PerformAll(m, calls).ledgers[id].limit)
            <==> m.ledgers[id].uses <= m.ledgers[id].charged
  {
    var id := IdOf(m.state.cache, k);
    if m.ledgers[id].uses <= m.ledgers[id].charged {
      forall calls: seq<Call> {:trigger PerformAll(m, calls)} | FreshRestarts(calls) && Undisturbed(m, calls, id)
        ensures Covered(PerformAll(m, calls), id)
      {
        UndisturbedStaysCovered(m, calls, id);
      }
    } else {
      var i := SomeFreeId(m.operations.Keys);
      var calls := SpendAll(m, k, i, Remaining(m.state.cache, k));
      assert PerformAll(m, calls).ledgers[id].uses == m.ledgers[id].uses + Remaining(m.state.cache, k);
    }
  }

  // ---- a counter that goes before its operations do ----

  function OwnerDelete(k: Key): Call {
    Hook(DeleteKeyPre(k.uid, Some(Descriptor(0, Some(k.alias)))))
  }

  /** An operation of a deleted key starts the key's counter again at the whole limit. */
  lemma LateFinish(m: Meter, k: Key, i: nat)
    requires Limited(m.state.cache, k) && IdOf(m.state.cache, k) in m.ledgers
    requires i in m.operations && m.operations[i] == OwnersOperation(m.state.cache, k)
    ensures var after := Perform(Perform(m, OwnerDelete(k)), FinishCall(i, None, true));
            var id := IdOf(m.state.cache, k);
            && id in after.ledgers && after.ledgers[id].limit == m.ledgers[id].limit
            && after.ledgers[id].uses == m.ledgers[id].uses + 1
  {
  }

  lemma {:induction false} PerformTogether(m: Meter, calls: seq<Call>, more: seq<Call>)
    ensures PerformAll(m, calls + more) == PerformAll(PerformAll(m, calls), more)
    decreases |calls|
  {
    if calls == [] {
      assert calls + more == more;
    } else {
      assert (calls + more)[0] == calls[0] && (calls + more)[1..] == calls[1..] + more;
      PerformTogether(Perform(m, calls[0]), calls[1..], more);
    }
  }

  predicate NoRestart(calls: seq<Call>) {
    forall c :: c in calls ==> !c.Restart?
  }

  lemma NoRestartAdded(spending: seq<Call>, k: Key, i: nat)
    requires Operating(spending)
    ensures NoRestart([OwnerOpen(k, i)] + (spending + [OwnerDelete(k), FinishCall(i, None, true)]))
  {
  }

  /** Every limit can be exceeded: the owner opens one operation more than it has uses, and deletes the key before the last. */
  lemma EveryLimitCanBeExceeded(m: Meter, k: Key) returns (calls: seq<Call>)
    requires Limited(m.state.cache, k) && Kept(m, IdOf(m.state.cache, k)) && Remaining(m.state.cache, k) > 0
    ensures NoRestart(calls)
    ensures var id, after := IdOf(m.state.cache, k), PerformAll(m, calls);
            id in after.ledgers && after.ledgers[id].uses == after.ledgers[id].limit + 1
  {
    var i := SomeFreeId(m.operations.Keys);
    var left := Remaining(m.state.cache, k);
    OwnerOpens(m, k, i, left);
    var opening, late := Perform(m, OwnerOpen(k, i)), [OwnerDelete(k), FinishCall(i, None, true)];
    assert CanSpend(opening, k, i + 1, left);
    var spending := SpendAll(opening, k, i + 1, left);
    var spent := PerformAll(opening, spending);
    LateFinish(spent, k, i);
    assert late == late + [];
    calls := [OwnerOpen(k, i)] + (spending + late);
    assert calls[0] == OwnerOpen(k, i) && calls[1..] == spending + late;
    PerformTogether(opening, spending, late);
    TwoCallsFirst(spent, OwnerDelete(k), FinishCall(i, None, true), [], IdOf(m.state.cache, k));
    NoRestartAdded(spending, k, i);
  }
}
