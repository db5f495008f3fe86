/**
 Where the code falls short: for each claim that does not hold, a concrete input on which it fails,
 reached from an empty process by hooks it may run. The exact conditions are with the parts concerned.
 */
module Shortfalls {
  import opened Common
  import opened KeyData
  import opened DataStreams
  import opened RecordCodec
  import opened PersistenceManager
  import opened Ownership
  import opened Hooks
  import opened OwnershipInvariant
  import opened PkgConfig
  import opened Grants
  import opened DiskRefinement
  import opened KeyDirectory
  import opened Removal
  import Reads
  import Usage = UsageCounter
  import Life = Lifetimes
  import Hack = CertificateHack
  import Wire = InterceptorWire
  import Native = NativeInterceptor

  // ---- concrete values ----

  const OWNER: Int32 := 10001
  const OTHER: Int32 := 10002
  const A: Utf16 := [97]
  const B: Utf16 := [98]

  /** The numbers of the local random source; the real keystore's are others. */
  const LOCAL: iset<Int64> := iset n: Int64 | 100 <= n < 200

  const START := State(EMPTY_CACHE, EMPTY_REGISTRY, {}, [])
  const PAIR := KeyPair([1], [2])
  const KEYGEN := Made(PAIR, [], None, None, [], None)
  const FORGE_MODE := Modes(false, true, false, false, false)
  const LEAF_MODE := Modes(false, false, true, true, false)

  function ParamsWith(limit: Int32): Params {
    Params(1, 2048, 0, [], [], [], [], [], limit, None, None, None, None, None, None, None, None)
  }

  function RequestFor(alias: Utf16, limit: Int32): GenerateRequest {
    GenerateRequest(Some(alias), 0, true, None, false, false, false, false, ParamsWith(limit))
  }

  /** A generateKey in `!` mode with an attestation key: the hook forges. */
  function Forge(uid: Int32, alias: Utf16, limit: Int32, draw: Int64): Step {
    GenerateKeyPre(TRUSTED_ENVIRONMENT, FORGE_MODE, true, uid, Some(RequestFor(alias, limit)), KEYGEN, draw)
  }

  function ForgedInfo(limit: Int32, draw: Int64): Info {
    Info(Some(PAIR), None, Response(Metadata(draw, None, None, [])), ParamsWith(limit))
  }

  /** The post-hook of a generateKey that was forwarded: the real chain is re-signed. */
  function Patch(uid: Int32, alias: Utf16, nspace: Int64): Step {
    GenerateKeyPost(TRUSTED_ENVIRONMENT, uid, Some(alias),
                    Answer(RealMetadata(Some(Metadata(nspace, None, None, [])), Rewritten(Some([7]), None, []))))
  }

  function ByName(alias: Utf16): Descriptor {
    Descriptor(0, Some(alias))
  }

  /** The state after some hooks from an empty process, each allowed where it runs. */
  ghost predicate Reachable(s: State) {
    exists steps :: Feasible(START, steps, LOCAL) && Run(START, steps) == s
  }

  lemma {:induction false} RunLast(s: State, steps: seq<Step>, last: Step)
    requires Feasible(s, steps, LOCAL) && Allowed(Run(s, steps), last, LOCAL)
    ensures Feasible(s, steps + [last], LOCAL) && Run(s, steps + [last]) == Apply(Run(s, steps), last)
    decreases |steps|
  {
    var all := steps + [last];
    if steps == [] {
      assert all == [last] && all[1..] == [];
    } else {
      assert all[0] == steps[0] && all[1..] == steps[1..] + [last];
      RunLast(Apply(s, steps[0]), steps[1..], last);
    }
  }

  lemma StartIsReachable()
    ensures Reachable(START)
  {
    assert Feasible(START, [], LOCAL) && Run(START, []) == START;
  }

  lemma NextIsReachable(s: State, step: Step)
    requires Reachable(s) && Allowed(s, step, LOCAL)
    ensures Reachable(Apply(s, step))
  {
    var steps :| Feasible(START, steps, LOCAL) && Run(START, steps) == s;
    RunLast(START, steps, step);
  }

  const K := Key(OWNER, A)
  const KB := Key(OTHER, B)

  /** The record a forge saves, and what a later process restores from it. */
  function SavedRecord(k: Key, limit: Int32, draw: Int64): Record {
    Record(k.uid, k.alias, TRUSTED_ENVIRONMENT, false, draw, 0, Some(PAIR), None, [], None, ParamsWith(limit))
  }

  lemma ForgeIsStore(s: State, k: Key, limit: Int32, draw: Int64)
    ensures Apply(s, Forge(k.uid, k.alias, limit, draw))
         == StoreGenerated(s, TRUSTED_ENVIRONMENT, k, 0, ParamsWith(limit), false, KEYGEN, draw).0
  {
  }

  /** The process once the owner's key has been forged. */
  function Forged(k: Key, limit: Int32): State {
    State(Cache(map[k := ForgedInfo(limit, 100)], map[k := (PAIR, [])], map[], map[100 := k], map[], map[],
                if limit > 0 then map[k := limit as int] else map[]),
          EMPTY_REGISTRY, {}, [Save(SavedRecord(k, limit, 100))])
  }

  lemma ForgeGives(k: Key, limit: Int32)
    ensures Reachable(Forged(k, limit)) && Apply(START, Forge(k.uid, k.alias, limit, 100)) == Forged(k, limit)
  {
    ForgeIsStore(START, k, limit, 100);
    StartIsReachable();
    NextIsReachable(START, Forge(k.uid, k.alias, limit, 100));
  }

  /** The process once the owner's key has been generated by the real keystore and its chain re-signed. */
  const OLD := Response(Metadata(5, Some([7]), None, []))
  const PATCHED := State(EMPTY_CACHE.(patched := map[K := OLD], keysByNspace := map[5 := K]), EMPTY_REGISTRY, {}, [])

  lemma PatchGives()
    ensures Reachable(PATCHED) && Apply(START, Patch(OWNER, A, 5)) == PATCHED
  {
    assert Apply(START, Patch(OWNER, A, 5)).cache.patched == PATCHED.cache.patched;
    StartIsReachable();
    NextIsReachable(START, Patch(OWNER, A, 5));
  }

  /** A state with one grant of the owner's key to the other caller. */
  function WithGrant(s: State, id: Int64, accessVector: bv32): State {
    s.(cache := s.cache.(grants := s.cache.grants[id := Grant(OWNER, OTHER, K, accessVector)]))
  }

  function ForgedGrantOf(id: Int64): Step {
    GrantKeyPre(true, OWNER, Some(ByName(A)), OTHER, GET_INFO, id)
  }

  /** Granting the forged key to the other caller for the first time. */
  lemma GrantApplies(s: State, id: Int64)
    requires K in s.cache.keys && s.cache.grants == map[]
    ensures Apply(s, ForgedGrantOf(id)) == WithGrant(s, id, GET_INFO)
    ensures GrantPre(s, true, OWNER, Some(ByName(A)), OTHER, GET_INFO, id).1 == GrantedAs(id)
    ensures ResolveKey(s.cache, OWNER, ByName(A)) == Some(K) && GrantIds(s.cache, K, OTHER) == {}
  {
    assert ResolveKey(s.cache, OWNER, ByName(A)) == Some(K) && GrantIds(s.cache, K, OTHER) == {};
  }

  lemma GrantGives(s: State, id: Int64)
    requires Reachable(s) && K in s.cache.keys && s.cache.grants == map[] && Fresh(s.cache, id, LOCAL)
    ensures Reachable(WithGrant(s, id, GET_INFO)) && Apply(s, ForgedGrantOf(id)) == WithGrant(s, id, GET_INFO)
    ensures GrantPre(s, true, OWNER, Some(ByName(A)), OTHER, GET_INFO, id).1 == GrantedAs(id)
  {
    GrantApplies(s, id);
    NextIsReachable(s, ForgedGrantOf(id));
  }

  // ---- reads ----

  const PACKAGE: Utf16 := [112]

  /** target.txt names the one package of a caller without any mark. */
  function AutoConfig(known: map<Int32, Packages>): Config {
    Config(map[PACKAGE := Auto], known)
  }

  lemma AutoIsPlain(uid: Int32, known: map<Int32, Packages>)
    requires known == map[] || known == map[uid := [PACKAGE]]
    ensures IsPlainAuto(Resolve(AutoConfig(known), map[uid := [PACKAGE]], uid), uid)
  {
    var resolved := Resolve(AutoConfig(known), map[uid := [PACKAGE]], uid);
    assert resolved.uidPackages[uid] == [PACKAGE] && resolved.uidPackages[uid][0] in resolved.packageModes;
  }

  /** A plain AUTO grantee whose packages are not known yet is served the owner's forged response. */
  lemma FirstGrantReadIsServed()
    ensures var s := WithGrant(Forged(K, 0), 101, GET_INFO);
            var c, manager := AutoConfig(map[]), map[OTHER := [PACKAGE]];
            && Reachable(s) && IsPlainAuto(Resolve(c, manager, OTHER), OTHER)
            && Reads.ReadTransaction(s, true, ModesOf(c, manager, OTHER), PostModesOf(c, manager, OTHER), OTHER,
                                     Some(Descriptor(101, None)), NoReply).1
               == FromCache(K, ForgedInfo(0, 100).response)
  {
    ForgeGives(K, 0);
    GrantGives(Forged(K, 0), 101);
    AutoIsPlain(OTHER, map[]);
  }

  /** A plain AUTO caller whose packages are forgotten between the hooks is served its old re-signed response. */
  lemma ForgottenPackagesAreServed()
    ensures var c, late, manager := AutoConfig(map[OWNER := [PACKAGE]]), AutoConfig(map[]), map[OWNER := [PACKAGE]];
            var backend := Answer(RealEntry(Response(Metadata(5, None, None, [])), Unreadable));
            && Reachable(PATCHED) && IsPlainAuto(c, OWNER) && IsPlainAuto(Resolve(late, manager, OWNER), OWNER)
            && Reads.ReadTransaction(PATCHED, true, ModesOf(c, manager, OWNER), PostModesOf(late, manager, OWNER), OWNER,
                                     Some(Descriptor(5, None)), backend).1 == FromCache(K, OLD)
  {
    PatchGives();
    AutoIsPlain(OWNER, map[OWNER := [PACKAGE]]);
    AutoIsPlain(OWNER, map[]);
    assert OwnerKeys(PATCHED.cache, OWNER, Descriptor(5, None)) == [K];
  }

  /** A real grant of the re-signed key, recorded by the post-hook of a forwarded grant call. */
  lemma RealGrantGives(accessVector: bv32)
    ensures var step := GrantKeyPost(true, OWNER, Some(ByName(A)), OTHER, accessVector, Some(7));
            Reachable(WithGrant(PATCHED, 7, accessVector)) && Apply(PATCHED, step) == WithGrant(PATCHED, 7, accessVector)
    ensures GrantPre(PATCHED, true, OWNER, Some(ByName(A)), OTHER, accessVector, 100).1 == Continue
  {
    PatchGives();
    NextIsReachable(PATCHED, GrantKeyPost(true, OWNER, Some(ByName(A)), OTHER, accessVector, Some(7)));
  }

  /** An update through a real grant is forwarded, and the owner is still served the response from before it. */
  lemma GrantedUpdateLeavesStale(certificate: Blob)
    ensures var s := WithGrant(PATCHED, 7, UPDATE);
            var (after, reply) := UpdatePre(s, OTHER, Some(Descriptor(7, None)), Some(certificate), None);
            && Reachable(s) && reply == Continue
            && ReadPre(after, true, LEAF_MODE, OWNER, Some(ByName(A))).1 == Entry(K, OLD)
  {
    RealGrantGives(UPDATE);
    StaysStale(WithGrant(PATCHED, 7, UPDATE), certificate);
  }

  lemma StaysStale(s: State, certificate: Blob)
    requires s == WithGrant(PATCHED, 7, UPDATE)
    ensures var (after, reply) := UpdatePre(s, OTHER, Some(Descriptor(7, None)), Some(certificate), None);
            reply == Continue && ReadPre(after, true, LEAF_MODE, OWNER, Some(ByName(A))).1 == Entry(K, OLD)
  {
    assert UPDATE & UPDATE != 0;
    var after := UpdatePre(s, OTHER, Some(Descriptor(7, None)), Some(certificate), None).0;
    assert after == Invalidate(s, Key(OTHER, A), false);
    assert OwnerKeys(after.cache, OWNER, ByName(A)) == [K];
  }

  // ---- grants ----

  /** The process once the re-signed key has been forged. */
  lemma ReforgeGives()
    ensures Reachable(Forged(K, 0)) && Apply(PATCHED, Forge(OWNER, A, 0, 100)) == Forged(K, 0)
  {
    ForgeGives(K, 0);
    var after := Apply(PATCHED, Forge(OWNER, A, 0, 100));
    ForgeIsStore(PATCHED, K, 0, 100);
    assert after.cache.keysByNspace == map[100 := K] && after.cache.patched == map[];
  }

  /**
   A grant of a re-signed key is forwarded; before its post-hook runs, the key is forged and granted
   again to the same grantee: the key then has two grants.
   */
  lemma InterleavedGrantsCollide()
    ensures var post := GrantKeyPost(true, OWNER, Some(ByName(A)), OTHER, GET_INFO, Some(7));
            var forged := Apply(PATCHED, Forge(OWNER, A, 0, 100));
            var granted := Apply(forged, ForgedGrantOf(101));
            var after := Apply(granted, post);
            && Reachable(PATCHED)
            && GrantPre(PATCHED, true, OWNER, Some(ByName(A)), OTHER, GET_INFO, 102).1 == Continue
            && GrantPre(forged, true, OWNER, Some(ByName(A)), OTHER, GET_INFO, 101).1 == GrantedAs(101)
            && Reachable(after) && Colliding(granted, post)
            && K in after.cache.keys && GrantIds(after.cache, K, OTHER) == {101, 7}
  {
    PatchGives();
    ReforgeGives();
    GrantGives(Forged(K, 0), 101);
    LateGrantCollides();
  }

  lemma LateGrantCollides()
    requires Reachable(WithGrant(Forged(K, 0), 101, GET_INFO))
    ensures var s := WithGrant(Forged(K, 0), 101, GET_INFO);
            var post := GrantKeyPost(true, OWNER, Some(ByName(A)), OTHER, GET_INFO, Some(7));
            && Apply(s, post) == WithGrant(s, 7, GET_INFO) && Reachable(WithGrant(s, 7, GET_INFO)) && Colliding(s, post)
            && GrantIds(WithGrant(s, 7, GET_INFO).cache, K, OTHER) == {101, 7}
  {
    var s := WithGrant(Forged(K, 0), 101, GET_INFO);
    assert 101 in GrantIds(s.cache, K, OTHER) - {7};
    NextIsReachable(s, GrantKeyPost(true, OWNER, Some(ByName(A)), OTHER, GET_INFO, Some(7)));
  }

  // ---- forging ----

  /** A response that cannot be built leaves an index entry that leads to no key. */
  lemma UnbuiltResponseDangles()
    ensures var step := GenerateKeyPre(TRUSTED_ENVIRONMENT, FORGE_MODE, true, OWNER, Some(RequestFor(A, 0)), Unbuilt(PAIR, []), 100);
            var c := Apply(START, step).cache;
            c.keysByNspace == map[100 := K] && c.keys == map[] && c.patched == map[]
  {
  }

  // ---- persistence ----

  lemma {:induction false} UnitsAreLong(s: Utf16)
    ensures |EncodeUnits(s)| >= |s|
  {
    if s != [] { UnitsAreLong(s[1..]); }
  }

  const LONG_ALIAS: Utf16 := seq(65536, i => 97)

  /** A key with an alias of 65536 characters is forged, and never reaches the disk. */
  lemma LongAliasIsNotSaved()
    ensures var k := Key(OWNER, LONG_ALIAS);
            Reachable(Forged(k, 0)) && k in Forged(k, 0).cache.keys && Drain(map[], Forged(k, 0).jobs) == map[]
  {
    var k := Key(OWNER, LONG_ALIAS);
    ForgeGives(k, 0);
    UnitsAreLong(LONG_ALIAS);
    assert !Encodable(SavedRecord(k, 0, 100));
    assert Forged(k, 0).jobs[1..] == [];
  }

  function RestoredMetadata(r: Record): Metadata {
    Metadata(r.nspace, None, None, [])
  }

  lemma SavedIsEncodable(k: Key, limit: Int32, draw: Int64)
    requires k in {K, KB}
    ensures Encodable(SavedRecord(k, limit, draw)) && Storable(k)
  {
    var alias := k.alias;
    assert |alias| == 1 && alias[0] in {97, 98} && alias[1..] == [];
    assert EncodeUnits(alias[1..]) == [];
    assert EncodeUnits(alias) == EncodeUnit(alias[0]) + EncodeUnits(alias[1..]);
  }

  /** The next process, with jobs queued before it restores the saved key. */
  function Restarted(jobs: seq<Job>, limit: Int32): State {
    StartUp([SavedRecord(K, limit, 100)], RestoredMetadata, jobs)
  }

  lemma OneRecord(s: State, r: Record, level: Int32)
    ensures RestoreLevel(s, [r], level, RestoredMetadata) == RestoreIf(s, r, level, RestoredMetadata)
  {
    assert [r][0] == r && [r][1..] == [];
    assert RestoreLevel(RestoreIf(s, r, level, RestoredMetadata), [r][1..], level, RestoredMetadata)
        == RestoreIf(s, r, level, RestoredMetadata);
  }

  lemma RestartForges(jobs: seq<Job>, limit: Int32)
    ensures var s := Restarted(jobs, limit);
            s.cache.keys == map[K := ForgedInfo(limit, 100)] && s.cache.usageRemaining == map[] && s.jobs == jobs
  {
    var r := SavedRecord(K, limit, 100);
    var empty := State(EMPTY_CACHE, EMPTY_REGISTRY, {}, jobs);
    OneRecord(empty, r, TRUSTED_ENVIRONMENT);
    OneRecord(Restore(empty, r, RestoredMetadata(r)), r, STRONGBOX);
  }

  lemma ForgedIsOnDisk(limit: Int32)
    ensures Drain(map[], Forged(K, limit).jobs) == map[K := SavedRecord(K, limit, 100)]
  {
    SavedIsEncodable(K, limit, 100);
    assert Forged(K, limit).jobs[1..] == [];
  }

  /**
   A key forged and saved by one process; the next loads a keybox, which queues a wipe, and then
   restores: the key is in memory and, once the wipe has run, not on disk.
   */
  lemma KeyboxBeforeStartUpWipes()
    ensures var disk := Drain(map[], Forged(K, 0).jobs);
            var jobs := Apply(START, CleanupAll).jobs;
            && Reachable(Forged(K, 0)) && disk == map[K := SavedRecord(K, 0, 100)]
            && K in Restarted(jobs, 0).cache.keys && Drain(disk, jobs) == map[] && !Covered(Restarted(jobs, 0), disk)
  {
    ForgeGives(K, 0);
    ForgedIsOnDisk(0);
    SavedIsEncodable(K, 0, 100);
    assert Apply(START, CleanupAll).jobs == [ClearAll] && [ClearAll][1..] == [];
    RestartForges([ClearAll], 0);
    assert !OnDisk(map[], K, ForgedInfo(0, 100));
  }

  /**
   A forged and saved key is generated again by the real keystore and re-signed: it is forged no more, but
   its file stays, and the next process forges it again.
   */
  lemma ReplacedKeyReturns()
    ensures var s := Apply(Forged(K, 0), Patch(OWNER, A, 5));
            && Reachable(s) && K !in s.cache.keys && K in s.cache.patched && !Removes(Forged(K, 0), Patch(OWNER, A, 5), K)
            && Drain(map[], s.jobs) == map[K := SavedRecord(K, 0, 100)] && K in Restarted([], 0).cache.keys
  {
    ForgeGives(K, 0);
    NextIsReachable(Forged(K, 0), Patch(OWNER, A, 5));
    ForgedIsOnDisk(0);
    RestartForges([], 0);
  }

  // ---- usage ----

  const UNUSED := Usage.Meter(START, map[], map[])

  /** The accounts of a process that has just forged the key. */
  function Metered(limit: Int32): Usage.Meter
    requires limit > 0
  {
    Usage.Meter(Forged(K, limit), map[], map[(K, 100) := Usage.Ledger(limit, 0, 0)])
  }

  lemma MeteredIsKept(limit: Int32)
    requires limit > 0
    ensures Usage.Perform(UNUSED, Usage.Hook(Forge(OWNER, A, limit, 100))) == Metered(limit)
    ensures Life.Kept(Metered(limit), (K, 100)) && Life.OwnLimits(Metered(limit)) && Life.CanSpend(Metered(limit), K, 0, limit)
  {
    ForgeGives(K, limit);
    assert Usage.OpenLedger(START, Forge(OWNER, A, limit, 100), map[]) == map[(K, 100) := Usage.Ledger(limit, 0, 0)];
  }

  function FinishOf(i: nat): Usage.Call {
    Usage.FinishCall(i, None, true)
  }

  lemma UsedTwice(m: Usage.Meter, limit: Int32) returns (twice: Usage.Meter)
    requires limit >= 2
    requires Life.Kept(m, (K, 100)) && Life.CanSpend(m, K, 0, limit) && Life.Live(m.state.cache, (K, 100))
    ensures var once := Usage.Perform(Usage.Perform(m, Life.OwnerOpen(K, 0)), FinishOf(0));
            twice == Usage.Perform(Usage.Perform(once, Life.OwnerOpen(K, 1)), FinishOf(1))
    ensures Life.Spent(m, twice, K, 2) && Life.Kept(twice, (K, 100))
  {
    var once := Life.SpendOne(m, K, 0, limit);
    twice := Life.SpendOne(once, K, 1, limit - 1);
  }

  /** A key is stored, saved, used twice and restored by a restart: it has its whole limit again. */
  lemma RestartRefills(limit: Int32) returns (twice: Usage.Meter)
    requires limit >= 2
    ensures Usage.Perform(UNUSED, Usage.Hook(Forge(OWNER, A, limit, 100))) == Metered(limit)
    ensures Drain(map[], Metered(limit).state.jobs) == map[K := SavedRecord(K, limit, 100)]
    ensures var once := Usage.Perform(Usage.Perform(Metered(limit), Life.OwnerOpen(K, 0)), FinishOf(0));
            twice == Usage.Perform(Usage.Perform(once, Life.OwnerOpen(K, 1)), FinishOf(1))
    ensures Life.Kept(twice, (K, 100)) && twice.ledgers[(K, 100)].uses == 2
    ensures var again := Usage.Perform(twice, Usage.Restart(Restarted([], limit)));
            && K in again.state.cache.keys && Usage.Remaining(again.state.cache, K) == limit
            && (K, 100) in again.ledgers && again.ledgers[(K, 100)] == Usage.Ledger(limit, 0, 2)
            && !Life.Kept(again, (K, 100))
  {
    MeteredIsKept(limit);
    ForgedIsOnDisk(limit);
    twice := UsedTwice(Metered(limit), limit);
    RestartForges([], limit);
    RestoredUsed(twice, Restarted([], limit), limit);
  }

  lemma RestoredUsed(m: Usage.Meter, restored: State, limit: Int32)
    requires (K, 100) in m.ledgers && m.ledgers[(K, 100)].uses == 2 && limit > 0
    requires restored.cache.keys == map[K := ForgedInfo(limit, 100)] && restored.cache.usageRemaining == map[]
    ensures var again := Usage.Perform(m, Usage.Restart(restored));
            && K in again.state.cache.keys && Usage.Remaining(again.state.cache, K) == limit
            && (K, 100) in again.ledgers && again.ledgers[(K, 100)] == Usage.Ledger(limit, 0, 2)
  {
    Usage.RestartBalances(m, restored, K);
  }

  /** The owner's open operation on the store of the key with a draw. */
  function OpenOn(limit: Int32, draw: Int64): Usage.Operation {
    Usage.Operation(Some(K), limit, (K, draw), true, 0)
  }

  lemma TwoOpened(m: Usage.Meter)
    requires m == Metered(1)
    ensures Usage.Perform(Usage.Perform(m, Life.OwnerOpen(K, 0)), Life.OwnerOpen(K, 1))
         == m.(operations := map[0 := OpenOn(1, 100), 1 := OpenOn(1, 100)])
  {
    MeteredIsKept(1);
    Life.OwnerOpens(m, K, 0, 1);
    Life.OwnerOpens(m.(operations := map[0 := OpenOn(1, 100)]), K, 1, 1);
  }

  /** The first of two operations has used the key up; the other is still open. */
  lemma OneFinished(m: Usage.Meter)
    requires m == Metered(1).(operations := map[0 := OpenOn(1, 100), 1 := OpenOn(1, 100)])
    ensures var after := Usage.Perform(m, FinishOf(0));
            && after.operations == map[0 := Finished(100), 1 := OpenOn(1, 100)]
            && after.ledgers == map[(K, 100) := Usage.Ledger(1, 1, 1)] && Life.Kept(after, (K, 100))
  {
  }

  lemma OtherFinished(m: Usage.Meter)
    requires m.operations == map[0 := Finished(100), 1 := OpenOn(1, 100)] && m.ledgers == map[(K, 100) := Usage.Ledger(1, 1, 1)]
    ensures var deleted := Usage.Perform(m, Life.OwnerDelete(K));
            var after := Usage.Perform(deleted, FinishOf(1));
            && Life.Disturbs(deleted, FinishOf(1), (K, 100))
            && after.operations == map[0 := Finished(100), 1 := Finished(100)]
            && after.ledgers == map[(K, 100) := Usage.Ledger(1, 1, 2)]
  {
  }

  function Finished(draw: Int64): Usage.Operation {
    OpenOn(1, draw).(active := false, finishes := 1)
  }

  /** A key with limit 1: of two operations one finishes before the key is deleted and one after; both are uses. */
  lemma DeletedKeyIsUsedAgain() returns (used: Usage.Meter)
    ensures Usage.Perform(UNUSED, Usage.Hook(Forge(OWNER, A, 1, 100))) == Metered(1)
    ensures used == Usage.Perform(Usage.Perform(Usage.Perform(Metered(1), Life.OwnerOpen(K, 0)), Life.OwnerOpen(K, 1)), FinishOf(0))
    ensures Life.Kept(used, (K, 100))
    ensures var deleted := Usage.Perform(used, Life.OwnerDelete(K));
            var after := Usage.Perform(deleted, FinishOf(1));
            && Life.Disturbs(deleted, FinishOf(1), (K, 100))
            && after.operations == map[0 := Finished(100), 1 := Finished(100)]
            && after.ledgers == map[(K, 100) := Usage.Ledger(1, 1, 2)]
  {
    MeteredIsKept(1);
    var both := Usage.Perform(Usage.Perform(Metered(1), Life.OwnerOpen(K, 0)), Life.OwnerOpen(K, 1));
    TwoOpened(Metered(1));
    OneFinished(both);
    used := Usage.Perform(both, FinishOf(0));
    OtherFinished(used);
  }

  /** An operation opened before its key is forged anew uses the new key up, which was never used. */
  lemma OldOperationSpendsNewKey()
    ensures var reforge := Forge(OWNER, A, 1, 103);
            var between := Usage.Perform(Metered(1), Life.OwnerOpen(K, 0));
            var after := Usage.Perform(Usage.Perform(between, Usage.Hook(reforge)), FinishOf(0));
            && Reachable(Metered(1).state) && Allowed(between.state, reforge, LOCAL)
            && K in after.state.cache.keys && Usage.Remaining(after.state.cache, K) == 0
            && after.ledgers == map[(K, 100) := Usage.Ledger(1, 0, 1), (K, 103) := Usage.Ledger(1, 1, 0)]
  {
    ForgeGives(K, 1);
    MeteredIsKept(1);
    Life.OwnerOpens(Metered(1), K, 0, 1);
    var m := Metered(1).(operations := map[0 := OpenOn(1, 100)]);
    assert Usage.Perform(Metered(1), Life.OwnerOpen(K, 0)) == m;
    Reforged(m);
    FinishedLate(Usage.Perform(m, Usage.Hook(Forge(OWNER, A, 1, 103))));
  }

  /** The owner's operation is open on the earlier of two stores of its key. */
  predicate OpenBeforeReforge(m: Usage.Meter) {
    && m.operations == map[0 := OpenOn(1, 100)]
    && m.state.cache.keys == map[K := ForgedInfo(1, 103)] && m.state.cache.usageRemaining == map[K := 1]
    && m.ledgers == map[(K, 100) := Usage.Ledger(1, 0, 0), (K, 103) := Usage.Ledger(1, 0, 0)]
  }

  lemma Reforged(m: Usage.Meter)
    requires m == Metered(1).(operations := map[0 := OpenOn(1, 100)])
    ensures OpenBeforeReforge(Usage.Perform(m, Usage.Hook(Forge(OWNER, A, 1, 103))))
  {
    ForgeIsStore(m.state, K, 1, 103);
  }

  lemma FinishedLate(m: Usage.Meter)
    requires OpenBeforeReforge(m)
    ensures var after := Usage.Perform(m, FinishOf(0));
            && K in after.state.cache.keys && Usage.Remaining(after.state.cache, K) == 0
            && after.ledgers == map[(K, 100) := Usage.Ledger(1, 0, 1), (K, 103) := Usage.Ledger(1, 1, 0)]
  {
  }

  /** The owner's key is granted to the other caller, who then forges one of its own. */
  function OwnKeyBeside(): State {
    Apply(WithGrant(Forged(K, 5), 102, GET_INFO), Forge(OTHER, B, 1, 101))
  }

  lemma OwnKeyBesideIs()
    ensures var c := OwnKeyBeside().cache;
            && Reachable(OwnKeyBeside()) && c.grants == map[102 := Grant(OWNER, OTHER, K, GET_INFO)] && 102 !in c.keysByNspace
            && Lookup(c.keys, K) == Some(ForgedInfo(5, 100)) && Lookup(c.usageRemaining, KB) == Some(1)
  {
    var s := WithGrant(Forged(K, 5), 102, GET_INFO);
    ForgeGives(K, 5);
    GrantGives(Forged(K, 5), 102);
    NextIsReachable(s, Forge(OTHER, B, 1, 101));
    ForgeIsStore(s, KB, 1, 101);
    StoreBeside(s, KB, K, 102, ParamsWith(1), KEYGEN, 101);
  }

  /** A grantee that names a forged key by its grant and its own key by alias uses the one and is metered on the other. */
  lemma MeteredOnAnotherKey()
    ensures var s, d := OwnKeyBeside(), Descriptor(102, Some(B));
            && Reachable(s) && FindGenerated(s.cache, OTHER, d) == Some(K)
            && Usage.Open(s.cache, OTHER, d, Life.GRANTED_REQUEST) == Some(Usage.Operation(Some(KB), 5, (K, 100), true, 0))
  {
    OwnKeyBesideIs();
    assert OwnerKeys(OwnKeyBeside().cache, OTHER, Descriptor(102, Some(B))) == [K, KB];
  }

  /** Storing one key leaves another's entry and grants, and indexes nothing but its own number. */
  lemma StoreBeside(s: State, k: Key, j: Key, id: Int64, params: Params, made: Keygen, draw: Int64)
    requires k != j && j in s.cache.keys && id in s.cache.grants && s.cache.grants[id].key == j && made.Made?
    requires id !in s.cache.keysByNspace && id != draw && params.usageCountLimit > 0
    ensures var c := StoreGenerated(s, TRUSTED_ENVIRONMENT, k, 0, params, false, made, draw).0.cache;
            && c.grants == (map i | i in s.cache.grants && s.cache.grants[i].key != k :: s.cache.grants[i])
            && id !in c.keysByNspace
            && j in c.keys && c.keys[j] == s.cache.keys[j]
            && k in c.usageRemaining && c.usageRemaining[k] == params.usageCountLimit
  {
  }

  /** A process that restored both callers' keys. */
  function BothRestored(more: Int32, limit: Int32): State {
    StartUp([SavedRecord(K, more, 100), SavedRecord(KB, limit, 101)], RestoredMetadata, [])
  }

  lemma BothRestoredIs(more: Int32, limit: Int32)
    ensures var c := BothRestored(more, limit).cache;
            && c.keys == map[K := ForgedInfo(more, 100), KB := ForgedInfo(limit, 101)] && c.usageRemaining == map[]
            && c.keyPairs == map[K := (PAIR, []), KB := (PAIR, [])] && c.skipLeafHacks == map[] && c.patched == map[]
            && c.keysByNspace == map[100 := K, 101 := KB] && c.grants == map[] && BothRestored(more, limit).registry == EMPTY_REGISTRY
    ensures Inv(BothRestored(more, limit), LOCAL)
  {
    var r, q := SavedRecord(K, more, 100), SavedRecord(KB, limit, 101);
    var first := Restore(START, r, RestoredMetadata(r));
    var both := Restore(first, q, RestoredMetadata(q));
    assert [r, q][1..] == [q] && [r, q][0] == r;
    OneRecord(first, q, TRUSTED_ENVIRONMENT);
    OneRecord(both, q, STRONGBOX);
    assert RestoreLevel(START, [r, q], TRUSTED_ENVIRONMENT, RestoredMetadata) == both;
    assert RestoreLevel(both, [r, q], STRONGBOX, RestoredMetadata) == both;
  }

  /** The process in which both callers forged their keys. */
  function BothForged(more: Int32, limit: Int32): State {
    Apply(Forged(K, more), Forge(OTHER, B, limit, 101))
  }

  lemma BothAreOnDisk(more: Int32, limit: Int32)
    ensures Reachable(BothForged(more, limit))
    ensures Drain(map[], BothForged(more, limit).jobs) == map[K := SavedRecord(K, more, 100), KB := SavedRecord(KB, limit, 101)]
  {
    ForgeGives(K, more);
    NextIsReachable(Forged(K, more), Forge(OTHER, B, limit, 101));
    ForgeIsStore(Forged(K, more), KB, 3, 101);
    SavedIsEncodable(K, more, 100);
    SavedIsEncodable(KB, limit, 101);
    var first, second := Save(SavedRecord(K, more, 100)), Save(SavedRecord(KB, limit, 101));
    assert BothForged(more, limit).jobs == [first, second] && [first, second][1..] == [second] && [second][1..] == [];
    assert Drain(map[], [first, second]) == Drain(map[K := SavedRecord(K, more, 100)], [second]);
  }

  /** The restored process once the owner has granted its key to the other caller. */
  function BothGranted(more: Int32, limit: Int32): Usage.Meter {
    Usage.Perform(Usage.Perform(UNUSED, Usage.Restart(BothRestored(more, limit))), Usage.Hook(ForgedGrantOf(102)))
  }

  lemma RestartIsAccounted(restored: State)
    requires restored.cache.usageRemaining == map[]
    ensures Usage.Accounted(Usage.Perform(UNUSED, Usage.Restart(restored)))
  {
    forall k ensures Usage.Balanced(UNUSED, k) {}
    Usage.CallKeepsAccounts(UNUSED, Usage.Restart(restored));
  }

  lemma BothGrantedIs(more: Int32, limit: Int32)
    ensures Usage.Accounted(BothGranted(more, limit)) && BothGranted(more, limit).operations == map[]
    ensures BothGranted(more, limit).state == WithGrant(BothRestored(more, limit), 102, GET_INFO)
  {
    BothRestoredIs(more, limit);
    RestartIsAccounted(BothRestored(more, limit));
    Usage.CallKeepsAccounts(Usage.Perform(UNUSED, Usage.Restart(BothRestored(more, limit))), Usage.Hook(ForgedGrantOf(102)));
    GrantApplies(BothRestored(more, limit), 102);
  }

  /** Two forges of one process leave what the next restores, and there the owner may grant its key. */
  lemma BothComeFromARun(more: Int32, limit: Int32)
    ensures Reachable(BothForged(more, limit))
    ensures Drain(map[], BothForged(more, limit).jobs) == map[K := SavedRecord(K, more, 100), KB := SavedRecord(KB, limit, 101)]
    ensures Inv(BothRestored(more, limit), LOCAL) && Allowed(BothRestored(more, limit), ForgedGrantOf(102), LOCAL)
  {
    BothAreOnDisk(more, limit);
    BothRestoredIs(more, limit);
    GrantApplies(BothRestored(more, limit), 102);
  }

  /**
   A restored key takes its first counter from the operation that uses it: opened with the grant of
   another key, that operation carries the other key's limit.
   */
  lemma RestoredKeyBorrowsLimit(more: Int32, limit: Int32, m: Usage.Meter, call: Usage.Call)
    requires more > 0 && limit > 0 && more != limit && m == BothGranted(more, limit)
    requires call == Usage.OpenCall(0, OTHER, Descriptor(102, Some(B)), Life.GRANTED_REQUEST)
    ensures Usage.Borrows(Usage.Perform(m, call), FinishOf(0))
    ensures !Usage.Balanced(Usage.Perform(Usage.Perform(m, call), FinishOf(0)), KB)
  {
    var d := Descriptor(102, Some(B));
    BothRestoredIs(more, limit);
    BothGrantedIs(more, limit);
    assert OwnerKeys(m.state.cache, OTHER, d) == [K, KB];
    assert Usage.Open(m.state.cache, OTHER, d, Life.GRANTED_REQUEST) == Some(Usage.Operation(Some(KB), more, (K, 100), true, 0));
    Usage.CallBalancesExactly(m, call);
    Usage.FinishBalancesExactly(Usage.Perform(m, call), 0, None, true, KB);
  }

  // ---- the attestation rewrite ----

  /** With no OS patch level in either list, an override is reported by the extension and not by the authorizations. */
  lemma MissingTagDisagrees(osVersion: Int32, root: Hack.Asn1)
    ensures var o := Hack.Overrides(Some(202401), None, None);
            && Hack.Reported([], Hack.OS_PATCHLEVEL) == Hack.ReportedBy([], Hack.OS_PATCHLEVEL)
            && Hack.Reported(Hack.Rebuilt([], o, osVersion, root), Hack.OS_PATCHLEVEL) == [Some(202401)]
            && Hack.ReportedBy(Hack.PatchAuthorizations([], o), Hack.OS_PATCHLEVEL) == []
  {
    Hack.RebuiltReports([], Hack.Overrides(Some(202401), None, None), osVersion, root, Hack.OS_PATCHLEVEL);
  }

  // ---- interposition ----

  /** The interceptor lets a call continue and cannot be reached afterwards: the target gets the request twice. */
  lemma LostInterceptorRepeatsCall(answer: (nat, UInt32, Bytes) -> Native.Answer, c: Wire.Call)
    ensures var respond := (i: UInt64, code: UInt32, request: Bytes) =>
              if code == Wire.PRE_TRANSACT_CODE then Some(Wire.ResultBytes(Wire.Continue)) else None;
            var env := Native.Env(Some(1), respond, answer, Native.Faults(false, false, false));
            Native.Interposed(env, c, true).requests == [c.data, c.data]
  {
    Native.ResultRoundTrip(Wire.Continue);
  }
}
