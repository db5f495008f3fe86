/**
 Software operations. Any number of operations on one key share its usage counter; the count
 left and the finishes charged to it since the key was stored or restored add up to its limit.
 */
module UsageCounter {
  import opened Common
  import opened KeyData
  import opened Ownership
  import opened Hooks
  import opened OwnershipInvariant
  import opened ForgedKeys
  import opened CertificateAliasCaches

  const MAX_RECEIVE_DATA := 0x8000

  /** One store of a key: its name and the nspace drawn for it. */
  type StoreId = (Key, Int64)

  /**
   An open operation: the counter it is metered on, the limit it carries, and the store of the key
   whose material it uses; `finishes` counts how often it asked its engine to finish.
   */
  datatype Operation = Operation(usageKey: Option<Key>, limit: Int32, store: StoreId, active: bool, finishes: nat)

  datatype Outcome = InvalidHandle | TooMuchData | KeyExpired | Answered(ok: bool)

  predicate Oversized(size: Option<nat>) {
    size.Some? && size.value > MAX_RECEIVE_DATA
  }

  /** finish: an inactive, oversized or expired call stops before the engine; any other ends the operation. */
  function Finish(usage: map<Key, int>, op: Operation, size: Option<nat>, engineOk: bool)
    : (map<Key, int>, Operation, Outcome)
  {
    if !op.active then (usage, op, InvalidHandle)
    else if Oversized(size) then (usage, op, TooMuchData)
    else
      var (left, allowed) := Consume(usage, op.usageKey, op.limit);
      if !allowed then (left, op, KeyExpired)
      else (left, op.(active := false, finishes := op.finishes + 1), Answered(engineOk))
  }

  /** The call gets as far as the engine: the operation is open, the input fits and the count, if any, is not used up. */
  predicate Reaches(usage: map<Key, int>, op: Operation, size: Option<nat>) {
    op.active && !Oversized(size) && (op.limit <= 0 || op.usageKey.None? || CountFor(usage, op) > 0)
  }

  /** The count a metered operation finds; without a counter it starts at the limit it carries. */
  function CountFor(usage: map<Key, int>, op: Operation): int
    requires op.usageKey.Some?
  {
    if op.usageKey.value in usage then usage[op.usageKey.value] else op.limit
  }

  /** update leaves the operation as it is; a failing updateAad ends it. */
  function Feed(op: Operation, size: Option<nat>, aad: bool, engineOk: bool): (Operation, Outcome) {
    if !op.active then (op, InvalidHandle)
    else if Oversized(size) then (op, TooMuchData)
    else (if aad && !engineOk then op.(active := false) else op, Answered(engineOk))
  }

  /** The software side of IKeystoreOperation. */
  class SoftwareOperationBinder {
    const usageKey: Option<Key>
    const usageCountLimit: Int32
    const cache: CertificateAliasCache
    ghost const store: StoreId
    var active: bool
    ghost var finishes: nat

    constructor (cache: CertificateAliasCache, usageKey: Option<Key>, usageCountLimit: Int32, ghost store: StoreId)
      ensures this.cache == cache && Value() == Operation(usageKey, usageCountLimit, store, true, 0)
    {
      this.cache, this.usageKey, this.usageCountLimit, this.store := cache, usageKey, usageCountLimit, store;
      active, finishes := true, 0;
    }

    ghost function Value(): Operation
      reads this
    {
      Operation(usageKey, usageCountLimit, store, active, finishes)
    }

    /** The atomic `compute` on the shared counter. */
    method ConsumeUsage() returns (deny: bool)
      modifies cache
      ensures cache.Value() == old(cache.Value()).(usageRemaining := cache.usageRemaining)
      ensures (cache.usageRemaining, !deny) == Consume(old(cache.usageRemaining), usageKey, usageCountLimit)
    {
      if usageCountLimit <= 0 || usageKey.None? {
        return false;
      }
      var key := usageKey.value;
      var current: int := if key in cache.usageRemaining then cache.usageRemaining[key] else usageCountLimit;
      deny := current <= 0;
      cache.usageRemaining := cache.usageRemaining[key := if deny then current else current - 1];
    }

    method FinishCall(size: Option<nat>, engineOk: bool) returns (outcome: Outcome)
      modifies this, cache
      ensures cache.Value() == old(cache.Value()).(usageRemaining := cache.usageRemaining)
      ensures (cache.usageRemaining, Value(), outcome) == Finish(old(cache.usageRemaining), old(Value()), size, engineOk)
    {
      if !active {
        return InvalidHandle;
      }
      if Oversized(size) {
        return TooMuchData;
      }
      var deny := ConsumeUsage();
      if deny {
        return KeyExpired;
      }
      finishes := finishes + 1;
      active := false;
      return Answered(engineOk);
    }

    method FeedCall(size: Option<nat>, aad: bool, engineOk: bool) returns (outcome: Outcome)
      modifies this
      ensures (Value(), outcome) == Feed(old(Value()), size, aad, engineOk)
    {
      if !active {
        return InvalidHandle;
      }
      if Oversized(size) {
        return TooMuchData;
      }
      if aad && !engineOk {
        active := false;
      }
      return Answered(engineOk);
    }

    method Abort()
      modifies this
      ensures Value() == old(Value()).(active := false)
    {
      active := false;
    }
  }

  // ---- opening an operation ----

  function IdOf(c: Cache, k: Key): StoreId
    requires k in c.keys
  {
    (k, ForgedNspace(c, k))
  }

  /** What the createOperation pre-hook checks outside the caches: force flag, authorization, engine set-up. */
  datatype OpenRequest = OpenRequest(force: bool, authorized: bool, engineMade: bool)

  /** createOperation: the operation it opens, if the caller's descriptor leads to forged material. */
  function Open(c: Cache, uid: Int32, d: Descriptor, request: OpenRequest): Option<Operation> {
    var source := FindGenerated(c, uid, d);
    if source.None? || request.force then None
    else
      var limit := c.keys[source.value].params.usageCountLimit;
      var metered := ResolveKey(c, uid, d);
      if metered.Some? && limit > 0 && metered.value in c.usageRemaining && c.usageRemaining[metered.value] <= 0 then None
      else if !request.authorized || !request.engineMade then None
      else Some(Operation(metered, limit, IdOf(c, source.value), true, 0))
  }

  /**
   The counter an operation is metered by is the counter of the key it uses exactly when the
   resolved key is forged and no grant comes first: an indexed nspace of a key that is not
   forged, or a grant to a forged key, combined with another key's alias, separates the two.
   */
  lemma MeteredBySourceExactly(c: Cache, uid: Int32, d: Descriptor)
    requires FindGenerated(c, uid, d).Some?
    ensures var grant := GrantTo(c, uid, d.nspace);
            ResolveKey(c, uid, d) == FindGenerated(c, uid, d)
            <==> && ResolveKey(c, uid, d).Some? && ResolveKey(c, uid, d).value in c.keys
                 && (IndexedKey(c, uid, d.nspace).Some? || grant.None? || grant.value.key !in c.keys
                     || grant.value.key == ResolveKey(c, uid, d).value)
  {
    var candidates := OwnerKeys(c, uid, d);
    if IndexedKey(c, uid, d.nspace).Some? {
      assert candidates[0] == IndexedKey(c, uid, d.nspace).value;
    } else if GrantTo(c, uid, d.nspace).Some? {
      assert candidates[0] == GrantTo(c, uid, d.nspace).value.key;
      if d.alias.Some? { assert candidates[1..] == [Key(uid, d.alias.value)]; }
    } else if d.alias.Some? {
      assert candidates == [Key(uid, d.alias.value)];
    }
  }

  /** An owner that names its forged key by alias, or by the forged nspace, is metered on that key with its limit. */
  lemma OwnerIsMetered(s: State, k: Key, d: Descriptor, request: OpenRequest, local: iset<Int64>)
    requires Inv(s, local) && k in s.cache.keys
    requires d.nspace == ForgedNspace(s.cache, k)
             || (d.alias == Some(k.alias) && IndexedKey(s.cache, k.uid, d.nspace).None? && GrantTo(s.cache, k.uid, d.nspace).None?)
    requires Open(s.cache, k.uid, d, request).Some?
    ensures Open(s.cache, k.uid, d, request).value
            == Operation(Some(k), s.cache.keys[k].params.usageCountLimit, IdOf(s.cache, k), true, 0)
  {
    var candidates := OwnerKeys(s.cache, k.uid, d);
    if d.nspace == ForgedNspace(s.cache, k) {
      assert candidates[0] == k;
    } else {
      assert candidates == [k];
    }
  }

  // ---- runs ----

  /**
   The limit a key was stored with, the finishes charged to its counter since it was stored or
   last restored, and the finishes of all operations opened on it that reached an engine.
   */
  datatype Ledger = Ledger(limit: int, charged: nat, uses: nat)

  datatype Meter = Meter(state: State, operations: map<nat, Operation>, ledgers: map<StoreId, Ledger>)

  datatype Call =
    | Hook(step: Step)
    | OpenCall(id: nat, uid: Int32, d: Descriptor, request: OpenRequest)
    | FinishCall(id: nat, size: Option<nat>, engineOk: bool)
    | FeedCall(id: nat, size: Option<nat>, aad: bool, engineOk: bool)
    | AbortCall(id: nat)
    | Restart(restored: State)

  predicate Limited(c: Cache, k: Key) {
    k in c.keys && c.keys[k].params.usageCountLimit > 0
  }

  /** What is left of a forged key's count: a key restored at start-up has no entry until its first use. */
  function Remaining(c: Cache, k: Key): int
    requires k in c.keys
  {
    if k in c.usageRemaining then c.usageRemaining[k] else c.keys[k].params.usageCountLimit
  }

  /** The ledger opened when a hook stores a key with a positive limit. */
  function OpenLedger(s: State, step: Step, ledgers: map<StoreId, Ledger>): map<StoreId, Ledger> {
    if step.GenerateKeyPre? && step.generate.Some? && step.generate.value.alias.Some?
       && Stores(s, step, Key(step.uid, step.generate.value.alias.value))
       && step.generate.value.params.usageCountLimit > 0
    then ledgers[(Key(step.uid, step.generate.value.alias.value), step.draw) :=
                   Ledger(step.generate.value.params.usageCountLimit, 0, 0)]
    else ledgers
  }

  /** A limited finish that reached its engine is charged to the counter of its key name, and is a use of its own store. */
  function Charge(ledgers: map<StoreId, Ledger>, c: Cache, op: Operation, outcome: Outcome): map<StoreId, Ledger> {
    if !outcome.Answered? || op.limit <= 0 then ledgers
    else
      var booked := if op.usageKey.Some? && Limited(c, op.usageKey.value) && IdOf(c, op.usageKey.value) in ledgers
                    then Charged(ledgers, IdOf(c, op.usageKey.value)) else ledgers;
      if op.store in booked then booked[op.store := booked[op.store].(uses := booked[op.store].uses + 1)] else booked
  }

  function Charged(ledgers: map<StoreId, Ledger>, id: StoreId): map<StoreId, Ledger>
    requires id in ledgers
  {
    ledgers[id := ledgers[id].(charged := ledgers[id].charged + 1)]
  }

  /** A restart charges the restored keys nothing yet; the uses they had remain. */
  function Reopen(ledgers: map<StoreId, Ledger>, c: Cache): map<StoreId, Ledger> {
    ledgers + map id: StoreId | id in (set k | k in c.keys && Limited(c, k) :: IdOf(c, k)) ::
                Ledger(c.keys[id.0].params.usageCountLimit, 0,
                       if id in ledgers then ledgers[id].uses else 0)
  }

  /** A restart ends every operation, and with the process go the counters. */
  function Perform(m: Meter, call: Call): Meter {
    match call
    case Hook(step) =>
      if step.FinishOperation? then m
      else Meter(Apply(m.state, step), m.operations, OpenLedger(m.state, step, m.ledgers))
    case OpenCall(id, uid, d, request) =>
      var op := Open(m.state.cache, uid, d, request);
      if op.Some? && id !in m.operations then m.(operations := m.operations[id := op.value]) else m
    case FinishCall(id, size, engineOk) =>
      if id !in m.operations then m
      else
        var (usage, op, outcome) := Finish(m.state.cache.usageRemaining, m.operations[id], size, engineOk);
        Meter(m.state.(cache := m.state.cache.(usageRemaining := usage)), m.operations[id := op],
              Charge(m.ledgers, m.state.cache, op, outcome))
    case FeedCall(id, size, aad, engineOk) =>
      if id !in m.operations then m
      else m.(operations := m.operations[id := Feed(m.operations[id], size, aad, engineOk).0])
    case AbortCall(id) =>
      if id !in m.operations then m else m.(operations := m.operations[id := m.operations[id].(active := false)])
    case Restart(restored) => Meter(restored, map[], Reopen(m.ledgers, restored.cache))
  }

  /** A forged key with a limit: what is left and what was charged since the store or restore make up the limit. */
  predicate Balanced(m: Meter, k: Key) {
    Limited(m.state.cache, k) ==>
      var id := IdOf(m.state.cache, k);
      && id in m.ledgers && m.ledgers[id].limit == m.state.cache.keys[k].params.usageCountLimit
      && 0 <= Remaining(m.state.cache, k) <= m.ledgers[id].limit
      && Remaining(m.state.cache, k) + m.ledgers[id].charged == m.ledgers[id].limit
  }

  ghost predicate AllBalanced(m: Meter) {
    forall k :: Balanced(m, k)
  }

  /** An operation that reached its engine is over. */
  predicate FinishesOnce(op: Operation) {
    op.finishes <= 1 && (op.active ==> op.finishes == 0)
  }

  /** Where its key has no counter yet, an operation carries the limit of that key and no other's. */
  predicate CarriesLimit(c: Cache, op: Operation) {
    op.active && op.limit > 0 && op.usageKey.Some? && Limited(c, op.usageKey.value)
    && op.usageKey.value !in c.usageRemaining
    ==> op.limit == c.keys[op.usageKey.value].params.usageCountLimit
  }

  predicate Sound(c: Cache, op: Operation) {
    FinishesOnce(op) && CarriesLimit(c, op)
  }

  ghost predicate Accounted(m: Meter) {
    && AllBalanced(m)
    && (forall id :: id in m.operations ==> Sound(m.state.cache, m.operations[id]))
  }

  /** Every opened operation carries the limit of the key it is metered on; a restarted process has no counters. */
  predicate Fair(m: Meter, call: Call) {
    match call
    case OpenCall(id, uid, d, request) =>
      var op := Open(m.state.cache, uid, d, request);
      op.Some? ==> CarriesLimit(m.state.cache, op.value)
    case Restart(restored) => restored.cache.usageRemaining == map[]
    case _ => true
  }

  lemma HookKeepsBalance(m: Meter, step: Step, k: Key)
    requires Balanced(m, k)
    ensures Balanced(Perform(m, Hook(step)), k)
  {
    if !step.FinishOperation? {
      if Stores(m.state, step, k) {
        StoreForges(m.state, step, k);
      } else {
        StepKeepsForged(m.state, step, k);
      }
    }
  }

  lemma HookKeepsOperations(m: Meter, step: Step, id: nat)
    requires Accounted(m) && id in m.operations
    ensures Sound(Perform(m, Hook(step)).state.cache, m.operations[id])
  {
    var op := m.operations[id];
    assert Sound(m.state.cache, op);
    if !step.FinishOperation? && op.usageKey.Some? {
      var k := op.usageKey.value;
      if Stores(m.state, step, k) {
        StoreForges(m.state, step, k);
      } else {
        StepKeepsForged(m.state, step, k);
      }
    }
  }

  lemma CallKeepsOperations(m: Meter, call: Call, id: nat)
    requires Accounted(m) && Fair(m, call) && !call.Hook? && !call.Restart? && id in Perform(m, call).operations
    ensures Sound(Perform(m, call).state.cache, Perform(m, call).operations[id])
  {
    if id in m.operations { assert Sound(m.state.cache, m.operations[id]); }
  }

  /** A restart leaves every restored key with its whole limit. */
  lemma RestartBalances(m: Meter, restored: State, k: Key)
    requires restored.cache.usageRemaining == map[]
    ensures Balanced(Perform(m, Restart(restored)), k)
    ensures Limited(restored.cache, k) ==>
              var after := Perform(m, Restart(restored));
              var id := IdOf(restored.cache, k);
              && Remaining(after.state.cache, k) == restored.cache.keys[k].params.usageCountLimit
              && after.ledgers[id].uses == if id in m.ledgers then m.ledgers[id].uses else 0
  {
    if Limited(restored.cache, k) {
      assert IdOf(restored.cache, k) in (set j | j in restored.cache.keys && Limited(restored.cache, j) :: IdOf(restored.cache, j));
    }
  }

  /** A metered finish keeps the balance exactly when the key has a counter or the operation carries the key's limit. */
  lemma FinishBalancesExactly(m: Meter, id: nat, size: Option<nat>, engineOk: bool, k: Key)
    requires AllBalanced(m) && id in m.operations
    requires m.operations[id].usageKey == Some(k) && m.operations[id].limit > 0 && Limited(m.state.cache, k)
    requires Reaches(m.state.cache.usageRemaining, m.operations[id], size)
    ensures Balanced(Perform(m, FinishCall(id, size, engineOk)), k)
            <==> k in m.state.cache.usageRemaining || m.operations[id].limit == m.state.cache.keys[k].params.usageCountLimit
  {
    assert Balanced(m, k);
  }

  /** An operation makes the first metered use of a key without counter, and carries another limit. */
  predicate Borrows(m: Meter, call: Call) {
    && call.FinishCall? && call.id in m.operations
    && var op := m.operations[call.id];
       && Reaches(m.state.cache.usageRemaining, op, call.size) && op.limit > 0 && op.usageKey.Some? && Limited(m.state.cache, op.usageKey.value)
       && op.usageKey.value !in m.state.cache.usageRemaining
       && op.limit != m.state.cache.keys[op.usageKey.value].params.usageCountLimit
  }

  lemma FinishKeepsOthers(m: Meter, call: Call, k: Key)
    requires Balanced(m, k) && call.FinishCall?
    requires Borrows(m, call) ==> m.operations[call.id].usageKey != Some(k)
    ensures Balanced(Perform(m, call), k)
  {
  }

  lemma CallBalancesExactly(m: Meter, call: Call)
    requires AllBalanced(m) && (call.Restart? ==> call.restored.cache.usageRemaining == map[])
    ensures AllBalanced(Perform(m, call)) <==> !Borrows(m, call)
  {
    if Borrows(m, call) {
      FinishBalancesExactly(m, call.id, call.size, call.engineOk, m.operations[call.id].usageKey.value);
    } else {
      forall k ensures Balanced(Perform(m, call), k) {
        assert Balanced(m, k);
        if call.Hook? { HookKeepsBalance(m, call.step, k); }
        else if call.Restart? { RestartBalances(m, call.restored, k); }
        else if call.FinishCall? { FinishKeepsOthers(m, call, k); }
      }
    }
  }

  lemma CallKeepsAccounts(m: Meter, call: Call)
    requires Accounted(m) && Fair(m, call)
    ensures Accounted(Perform(m, call))
  {
    var next := Perform(m, call);
    if call.FinishCall? && call.id in m.operations { assert Sound(m.state.cache, m.operations[call.id]); }
    CallBalancesExactly(m, call);
    forall id | id in next.operations ensures Sound(next.state.cache, next.operations[id]) {
      if call.Hook? { HookKeepsOperations(m, call.step, id); } else { CallKeepsOperations(m, call, id); }
    }
  }

  function PerformAll(m: Meter, calls: seq<Call>): Meter
    decreases |calls|
  {
    if calls == [] then m else PerformAll(Perform(m, calls[0]), calls[1..])
  }

  predicate FairRun(m: Meter, calls: seq<Call>)
    decreases |calls|
  {
    calls == [] || (Fair(m, calls[0]) && FairRun(Perform(m, calls[0]), calls[1..]))
  }

  /**
   Whatever operations, hooks and restarts interleave: the count left, the whole limit if there
   is no counter yet, plus the finishes charged to it by key name since the key was stored or
   restored is its limit, and no operation reaches its engine twice.
   */
  lemma {:induction false} UsageStaysBalanced(m: Meter, calls: seq<Call>)
    requires Accounted(m) && FairRun(m, calls)
    ensures Accounted(PerformAll(m, calls))
    decreases |calls|
  {
    if calls != [] {
      CallKeepsAccounts(m, calls[0]);
      UsageStaysBalanced(Perform(m, calls[0]), calls[1..]);
    }
  }

  // ---- runs without any assumption on what operations carry ----

  predicate NeverBorrows(m: Meter, calls: seq<Call>)
    decreases |calls|
  {
    calls == [] || (!Borrows(m, calls[0]) && NeverBorrows(Perform(m, calls[0]), calls[1..]))
  }

  /** Every restart begins without counters, as start-up does. */
  predicate FreshRestarts(calls: seq<Call>) {
    forall c :: c in calls && c.Restart? ==> c.restored.cache.usageRemaining == map[]
  }

  /** The accounts balance in every state the run passes through. */
  ghost predicate BalancedThroughout(m: Meter, calls: seq<Call>)
    decreases |calls|
  {
    AllBalanced(m) && (calls == [] || BalancedThroughout(Perform(m, calls[0]), calls[1..]))
  }

  /**
   Over any run at all, the accounts of every forged key balance in every state exactly when no
   restored key has its first count taken from another key's limit.
   */
  lemma {:induction false} BalancedThroughoutExactly(m: Meter, calls: seq<Call>)
    requires AllBalanced(m) && FreshRestarts(calls)
    ensures BalancedThroughout(m, calls) <==> NeverBorrows(m, calls)
    decreases |calls|
  {
    if calls != [] {
      assert calls[0] in calls && forall c :: c in calls[1..] ==> c in calls;
      CallBalancesExactly(m, calls[0]);
      if !Borrows(m, calls[0]) { BalancedThroughoutExactly(Perform(m, calls[0]), calls[1..]); }
    }
  }

  /** An owner that opens by alias, or by the forged nspace, always carries the key's limit. */
  lemma OwnerIsFair(m: Meter, id: nat, k: Key, d: Descriptor, request: OpenRequest, local: iset<Int64>)
    requires Inv(m.state, local) && k in m.state.cache.keys
    requires d.nspace == ForgedNspace(m.state.cache, k)
             || (d.alias == Some(k.alias) && IndexedKey(m.state.cache, k.uid, d.nspace).None?
                 && GrantTo(m.state.cache, k.uid, d.nspace).None?)
    ensures Fair(m, OpenCall(id, k.uid, d, request))
  {
    if Open(m.state.cache, k.uid, d, request).Some? { OwnerIsMetered(m.state, k, d, request, local); }
  }

  /**
   A finish that is rejected uses nothing up; one that is let through uses exactly one, whatever
   the engine says. The first one of a key without a counter starts from the limit.
   */
  lemma FinishConsumes(usage: map<Key, int>, op: Operation, size: Option<nat>, engineOk: bool)
    requires op.usageKey.Some? && op.limit > 0
    ensures var (left, after, outcome) := Finish(usage, op, size, engineOk);
            && (outcome.Answered? <==> Reaches(usage, op, size))
            && (!outcome.Answered? ==> left == usage && after == op)
            && (outcome.Answered? ==>
                  && left == usage[op.usageKey.value := CountFor(usage, op) - 1]
                  && after.finishes == op.finishes + 1 && !after.active)
  {
    if op.usageKey.value in usage { assert usage[op.usageKey.value := usage[op.usageKey.value]] == usage; }
  }
}
