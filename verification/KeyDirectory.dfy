/**
 The disk as bytes: draining the job queue over files and loading them back yields every
 forged key, at every point of every run; and what start-up restores from the files.
 */
module KeyDirectory {
  import opened Common
  import opened KeyData
  import opened RecordCodec
  import opened PersistenceManager
  import opened Ownership
  import opened Hooks
  import opened OwnershipInvariant
  import opened DiskRefinement

  type Files = map<Key, Bytes>

  /** The entries of a map that a partial reader can read. */
  function Readable<A, B>(m: map<Key, A>, read: A -> Option<B>): map<Key, B> {
    map k | k in m && read(m[k]).Some? :: read(m[k]).value
  }

  lemma ReadableUpdate<A, B>(m: map<Key, A>, read: A -> Option<B>, k: Key, a: A)
    requires read(a).Some?
    ensures Readable(m[k := a], read) == Readable(m, read)[k := read(a).value]
  {
  }

  lemma ReadableRemove<A, B>(m: map<Key, A>, read: A -> Option<B>, k: Key)
    ensures Readable(m - {k}, read) == Readable(m, read) - {k}
  {
  }

  /** The records the files hold; a file that cannot be read holds none. */
  function View(files: Files): Disk {
    Readable(files, Stored)
  }

  /** One job of the persistence thread on the files, as saveKeySync, deleteKey and clearAll change them. */
  function RunFileJob(files: Files, job: Job): Files {
    match job
    case Save(r) => if Encodable(r) then files[KeyOf(r) := EncodeRecord(r)] else files
    case Delete(k) => files - {k}
    case ClearAll => map[]
  }

  function DrainFiles(files: Files, jobs: seq<Job>): Files
    decreases |jobs|
  {
    if jobs == [] then files else DrainFiles(RunFileJob(files, jobs[0]), jobs[1..])
  }

  lemma JobOnFiles(files: Files, job: Job)
    ensures View(RunFileJob(files, job)) == RunJob(View(files), job)
  {
    match job
    case Save(r) =>
      if Encodable(r) {
        SavedIsLoaded(r);
        ReadableUpdate(files, Stored, KeyOf(r), EncodeRecord(r));
      }
    case Delete(k) => ReadableRemove(files, Stored, k);
    case ClearAll =>
  }

  lemma {:induction false} DrainOnFiles(files: Files, jobs: seq<Job>)
    ensures View(DrainFiles(files, jobs)) == Drain(View(files), jobs)
    decreases |jobs|
  {
    if jobs != [] {
      JobOnFiles(files, jobs[0]);
      DrainOnFiles(RunFileJob(files, jobs[0]), jobs[1..]);
    }
  }

  /** The state of the process and of its key directory. */
  datatype Machine = Machine(state: State, files: Files)

  function ActOnFiles(m: Machine, a: Action): Machine {
    match a
    case Hook(step) => Machine(Apply(m.state, step), m.files)
    case PersistNext =>
      if m.state.jobs == [] then m
      else Machine(m.state.(jobs := m.state.jobs[1..]), RunFileJob(m.files, m.state.jobs[0]))
  }

  function PerformOnFiles(m: Machine, actions: seq<Action>): Machine
    decreases |actions|
  {
    if actions == [] then m else PerformOnFiles(ActOnFiles(m, actions[0]), actions[1..])
  }

  lemma {:induction false} PerformViews(m: Machine, actions: seq<Action>)
    ensures var after := PerformOnFiles(m, actions);
            Perform(World(m.state, View(m.files)), actions) == World(after.state, View(after.files))
    decreases |actions|
  {
    if actions != [] {
      if actions[0].PersistNext? && m.state.jobs != [] { JobOnFiles(m.files, m.state.jobs[0]); }
      PerformViews(ActOnFiles(m, actions[0]), actions[1..]);
    }
  }

  lemma {:induction false} RecordsAre(files: Files, order: seq<Key>, r: Record)
    ensures r in Records(files, order) <==> exists k :: k in order && k in View(files) && View(files)[k] == r
  {
    if order != [] {
      RecordsAre(files, order[1..], r);
      var k := order[0];
      if r in Records(files, order) && r !in Records(files, order[1..]) {
        assert k in View(files) && View(files)[k] == r;
      }
      if exists j :: j in order && j in View(files) && View(files)[j] == r {
        var j :| j in order && j in View(files) && View(files)[j] == r;
        if j == k { assert r in Records(files, order); } else { assert j in order[1..]; }
      }
    }
  }

  /** loadAll over these files, in this order, returns a record of the key with its material, parameters and nspace. */
  ghost predicate Loads(files: Files, order: seq<Key>, k: Key, info: Info) {
    exists r :: r in Records(files, order) && Matches(k, info, r)
  }

  /**
   At every point of every run of hooks and saves, draining the queue and then loading every
   file returns a forged key's record exactly when its alias fits the file format.
   */
  lemma MemoryIsLoadable(m: Machine, actions: seq<Action>, order: seq<Key>, k: Key)
    requires Covered(m.state, View(m.files))
    requires forall a :: a in actions && a.Hook? ==> Requestable(a.step)
    requires k in PerformOnFiles(m, actions).state.cache.keys
    requires var after := PerformOnFiles(m, actions);
             forall j :: j in order <==> j in DrainFiles(after.files, after.state.jobs)
    ensures var after := PerformOnFiles(m, actions);
            Loads(DrainFiles(after.files, after.state.jobs), order, k, after.state.cache.keys[k]) <==> Storable(k)
  {
    var after := PerformOnFiles(m, actions);
    PerformViews(m, actions);
    MemoryStaysCovered(World(m.state, View(m.files)), actions);
    var drained := DrainFiles(after.files, after.state.jobs);
    DrainOnFiles(after.files, after.state.jobs);
    OnDiskExactly(after.state, View(after.files), k);
    var info := after.state.cache.keys[k];
    if Storable(k) {
      RecordsAre(drained, order, View(drained)[k]);
    } else if r: Record :| r in Records(drained, order) && Matches(k, info, r) {
      RecordsAre(drained, order, r);
    }
  }

  // ---- start-up ----

  /** One restored record; `metadata` is what its stored metadata unmarshals to, or what is rebuilt for it. */
  function Restore(s: State, r: Record, metadata: Metadata): State {
    var k := KeyOf(r);
    s.(cache := s.cache.(
      keys := s.cache.keys[k := Info(r.keyPair, r.secretKey, Response(metadata), r.params)],
      keyPairs := if r.keyPair.Some? then s.cache.keyPairs[k := (r.keyPair.value, r.chain)] else s.cache.keyPairs,
      keysByNspace := if r.nspace != 0 then s.cache.keysByNspace[r.nspace := k] else s.cache.keysByNspace,
      skipLeafHacks := if r.skipLeafHack then s.cache.skipLeafHacks[k := true] else s.cache.skipLeafHacks))
  }

  /** loadPersistedKeys for one security level. */
  function RestoreLevel(s: State, records: seq<Record>, level: Int32, metadataOf: Record -> Metadata): State
    decreases |records|
  {
    if records == [] then s
    else RestoreLevel(RestoreIf(s, records[0], level, metadataOf), records[1..], level, metadataOf)
  }

  function RestoreIf(s: State, r: Record, level: Int32, metadataOf: Record -> Metadata): State {
    if r.securityLevel == level then Restore(s, r, metadataOf(r)) else s
  }

  function KeyIf(r: Record, level: Int32): set<Key> {
    if r.securityLevel == level then {KeyOf(r)} else {}
  }

  const TRUSTED_ENVIRONMENT: Int32 := 1
  const STRONGBOX: Int32 := 2

  /** Start-up: both security levels restore from the same directory into empty maps. */
  function StartUp(records: seq<Record>, metadataOf: Record -> Metadata, jobs: seq<Job>): State {
    RestoreLevel(RestoreLevel(State(EMPTY_CACHE, EMPTY_REGISTRY, {}, jobs), records, TRUSTED_ENVIRONMENT, metadataOf),
                 records, STRONGBOX, metadataOf)
  }

  /** A directory written by earlier runs: each file under its own name, nspaces distinct and locally drawn. */
  ghost predicate WellFiled(disk: Disk, metadataOf: Record -> Metadata, local: iset<Int64>) {
    && (forall k :: k in disk ==> WellFiledRecord(k, disk[k], metadataOf, local))
    && (forall j, k :: j in disk && k in disk && j != k ==> disk[j].nspace != disk[k].nspace)
  }

  ghost predicate WellFiledRecord(k: Key, r: Record, metadataOf: Record -> Metadata, local: iset<Int64>) {
    KeyOf(r) == k && Storable(k) && r.nspace in local && r.nspace != 0 && metadataOf(r).nspace == r.nspace
  }

  /** The maps hold exactly the disk's records of the keys in `done`. */
  ghost predicate RestoredFrom(s: State, disk: Disk, done: set<Key>, metadataOf: Record -> Metadata) {
    && s.cache.patched == map[] && s.cache.grants == map[] && s.registry == EMPTY_REGISTRY
    && s.cache.keys.Keys == done && done <= disk.Keys
    && (forall k :: k in done ==>
          s.cache.keys[k] == Info(disk[k].keyPair, disk[k].secretKey, Response(metadataOf(disk[k])), disk[k].params))
    && (forall k :: k in done ==> disk[k].nspace in s.cache.keysByNspace && s.cache.keysByNspace[disk[k].nspace] == k)
    && (forall n :: n in s.cache.keysByNspace ==>
          s.cache.keysByNspace[n] in done && disk[s.cache.keysByNspace[n]].nspace == n)
    && s.cache.keyPairs.Keys <= done && s.cache.skipLeafHacks.Keys <= done
  }

  lemma RestoreAdds(s: State, r: Record, disk: Disk, done: set<Key>, metadataOf: Record -> Metadata, local: iset<Int64>)
    requires WellFiled(disk, metadataOf, local) && RestoredFrom(s, disk, done, metadataOf)
    requires KeyOf(r) in disk && disk[KeyOf(r)] == r
    ensures RestoredFrom(Restore(s, r, metadataOf(r)), disk, done + {KeyOf(r)}, metadataOf)
  {
    var k, after := KeyOf(r), Restore(s, r, metadataOf(r));
    assert WellFiledRecord(k, r, metadataOf, local);
    assert after.cache.keys.Keys == done + {k};
    forall j | j in done && j != k
      ensures disk[j].nspace in after.cache.keysByNspace && after.cache.keysByNspace[disk[j].nspace] == j
    {
      assert disk[j].nspace != disk[k].nspace;
    }
  }

  lemma RestoreIfAdds(s: State, r: Record, level: Int32, disk: Disk, done: set<Key>, metadataOf: Record -> Metadata,
                      local: iset<Int64>)
    requires WellFiled(disk, metadataOf, local) && RestoredFrom(s, disk, done, metadataOf)
    requires KeyOf(r) in disk && disk[KeyOf(r)] == r
    ensures RestoredFrom(RestoreIf(s, r, level, metadataOf), disk, done + KeyIf(r, level), metadataOf)
    ensures RestoreIf(s, r, level, metadataOf).jobs == s.jobs
  {
    assert done + {} == done;
    if r.securityLevel == level { RestoreAdds(s, r, disk, done, metadataOf, local); }
  }

  /** The keys of the records a level restores. */
  function LevelKeys(records: seq<Record>, level: Int32): (keys: set<Key>)
    ensures keys == {} <==> forall r :: r in records ==> r.securityLevel != level
  {
    if records == [] then {}
    else
      assert records[0] in records;
      KeyIf(records[0], level) + LevelKeys(records[1..], level)
  }

  /** Restoring any one of the records keeps a statement about the maps and the keys restored so far. */
  ghost predicate KeptByEach(holds: (State, set<Key>) -> bool, records: seq<Record>, level: Int32,
                             metadataOf: Record -> Metadata) {
    forall t: State, d, r {:trigger holds(t, d), r in records} :: r in records && holds(t, d) ==>
      holds(RestoreIf(t, r, level, metadataOf), d + KeyIf(r, level))
  }

  lemma KeptByFirst(holds: (State, set<Key>) -> bool, s: State, records: seq<Record>, level: Int32, done: set<Key>,
                    metadataOf: Record -> Metadata)
    requires records != [] && holds(s, done) && KeptByEach(holds, records, level, metadataOf)
    ensures holds(RestoreIf(s, records[0], level, metadataOf), done + KeyIf(records[0], level))
    ensures KeptByEach(holds, records[1..], level, metadataOf)
  {
    assert records[0] in records;
    forall t: State, d, r {:trigger holds(t, d), r in records[1..]} | r in records[1..] && holds(t, d)
      ensures holds(RestoreIf(t, r, level, metadataOf), d + KeyIf(r, level))
    {
      assert r in records;
    }
  }

  /** Whatever restoring one record keeps, restoring a level keeps. */
  lemma {:induction false} LevelInduction(holds: (State, set<Key>) -> bool, s: State, records: seq<Record>, level: Int32,
                                          done: set<Key>, metadataOf: Record -> Metadata)
    requires holds(s, done) && KeptByEach(holds, records, level, metadataOf)
    ensures holds(RestoreLevel(s, records, level, metadataOf), done + LevelKeys(records, level))
    decreases |records|
  {
    if records == [] {
      assert done + LevelKeys(records, level) == done;
    } else {
      var r := records[0];
      KeptByFirst(holds, s, records, level, done, metadataOf);
      LevelInduction(holds, RestoreIf(s, r, level, metadataOf), records[1..], level, done + KeyIf(r, level), metadataOf);
      assert done + LevelKeys(records, level) == (done + KeyIf(r, level)) + LevelKeys(records[1..], level);
    }
  }

  lemma {:induction false} LevelKeepsJobs(s: State, records: seq<Record>, level: Int32, metadataOf: Record -> Metadata)
    ensures RestoreLevel(s, records, level, metadataOf).jobs == s.jobs
    ensures RestoreLevel(s, records, level, metadataOf).cache.usageRemaining == s.cache.usageRemaining
    decreases |records|
  {
    if records != [] {
      LevelKeepsJobs(RestoreIf(s, records[0], level, metadataOf), records[1..], level, metadataOf);
    }
  }

  lemma LevelRestores(s: State, records: seq<Record>, level: Int32, disk: Disk, done: set<Key>,
                      metadataOf: Record -> Metadata, local: iset<Int64>)
    requires WellFiled(disk, metadataOf, local) && RestoredFrom(s, disk, done, metadataOf)
    requires forall r :: r in records ==> KeyOf(r) in disk && disk[KeyOf(r)] == r
    ensures RestoredFrom(RestoreLevel(s, records, level, metadataOf), disk, done + LevelKeys(records, level), metadataOf)
    ensures RestoreLevel(s, records, level, metadataOf).jobs == s.jobs
  {
    LevelKeepsJobs(s, records, level, metadataOf);
    var holds := (t: State, d: set<Key>) => RestoredFrom(t, disk, d, metadataOf);
    forall t: State, d, r {:trigger holds(t, d), r in records} | r in records && holds(t, d)
      ensures holds(RestoreIf(t, r, level, metadataOf), d + KeyIf(r, level))
    {
      RestoreIfAdds(t, r, level, disk, d, metadataOf, local);
    }
    LevelInduction(holds, s, records, level, done, metadataOf);
  }

  function RestoredKeys(records: seq<Record>): set<Key> {
    LevelKeys(records, TRUSTED_ENVIRONMENT) + LevelKeys(records, STRONGBOX)
  }

  lemma StartUpRestores(files: Files, order: seq<Key>, metadataOf: Record -> Metadata, jobs: seq<Job>, local: iset<Int64>)
    requires WellFiled(View(files), metadataOf, local)
    ensures var records := Records(files, order);
            var start := StartUp(records, metadataOf, jobs);
            start.jobs == jobs && RestoredFrom(start, View(files), RestoredKeys(records), metadataOf)
  {
    var records, disk := Records(files, order), View(files);
    forall r | r in records ensures KeyOf(r) in disk && disk[KeyOf(r)] == r {
      RecordsAre(files, order, r);
      var k :| k in order && k in disk && disk[k] == r;
      assert WellFiledRecord(k, r, metadataOf, local);
    }
    var empty := State(EMPTY_CACHE, EMPTY_REGISTRY, {}, jobs);
    assert empty.cache.keys.Keys == {};
    LevelRestores(empty, records, TRUSTED_ENVIRONMENT, disk, {}, metadataOf, local);
    assert {} + LevelKeys(records, TRUSTED_ENVIRONMENT) == LevelKeys(records, TRUSTED_ENVIRONMENT);
    LevelRestores(RestoreLevel(empty, records, TRUSTED_ENVIRONMENT, metadataOf), records, STRONGBOX, disk,
                  LevelKeys(records, TRUSTED_ENVIRONMENT), metadataOf, local);
  }

  /** Start-up restores no usage counter. */
  lemma StartUpCountsNothing(records: seq<Record>, metadataOf: Record -> Metadata, jobs: seq<Job>)
    ensures StartUp(records, metadataOf, jobs).cache.usageRemaining == map[]
  {
    var empty := State(EMPTY_CACHE, EMPTY_REGISTRY, {}, jobs);
    LevelKeepsJobs(empty, records, TRUSTED_ENVIRONMENT, metadataOf);
    LevelKeepsJobs(RestoreLevel(empty, records, TRUSTED_ENVIRONMENT, metadataOf), records, STRONGBOX, metadataOf);
  }

  /** Start-up from a saved directory with no pending job establishes both invariants. */
  lemma StartUpEstablishes(files: Files, order: seq<Key>, metadataOf: Record -> Metadata, local: iset<Int64>)
    requires WellFiled(View(files), metadataOf, local)
    ensures var start := StartUp(Records(files, order), metadataOf, []);
            Inv(start, local) && Covered(start, View(files))
  {
    StartUpRestores(files, order, metadataOf, [], local);
    RestoredIsSound(StartUp(Records(files, order), metadataOf, []), View(files), RestoredKeys(Records(files, order)),
                    metadataOf, local);
  }

  lemma RestoredIsSound(s: State, disk: Disk, done: set<Key>, metadataOf: Record -> Metadata, local: iset<Int64>)
    requires WellFiled(disk, metadataOf, local) && RestoredFrom(s, disk, done, metadataOf)
    ensures Inv(s, local)
    ensures s.jobs == [] ==> Covered(s, disk)
  {
    forall k | k in disk ensures WellFiledRecord(k, disk[k], metadataOf, local) {}
  }

  /**
   If clearAll jobs are still queued when start-up reads the directory, memory is covered only
   when nothing was restored: a keybox loaded just before start-up wipes what start-up restores.
   */
  lemma StartUpBehindClearAll(files: Files, order: seq<Key>, metadataOf: Record -> Metadata, jobs: seq<Job>,
                              local: iset<Int64>)
    requires WellFiled(View(files), metadataOf, local)
    requires jobs != [] && forall j :: j in jobs ==> j.ClearAll?
    ensures Covered(StartUp(Records(files, order), metadataOf, jobs), View(files))
            <==> forall r :: r in Records(files, order) ==> r.securityLevel !in {TRUSTED_ENVIRONMENT, STRONGBOX}
  {
    var records := Records(files, order);
    var start := StartUp(records, metadataOf, jobs);
    StartUpRestores(files, order, metadataOf, jobs, local);
    DrainClears(View(files), jobs);
    assert RestoredKeys(records) == {} <==> forall r :: r in records ==> r.securityLevel !in {TRUSTED_ENVIRONMENT, STRONGBOX};
    forall k | k in start.cache.keys ensures Storable(k) {
      assert WellFiledRecord(k, View(files)[k], metadataOf, local);
    }
    if k :| k in start.cache.keys {
      assert !OnDisk(map[], k, start.cache.keys[k]);
    }
  }

  lemma {:induction false} DrainClears(disk: Disk, jobs: seq<Job>)
    requires jobs != [] && forall j :: j in jobs ==> j.ClearAll?
    ensures Drain(disk, jobs) == map[]
    decreases |jobs|
  {
    assert jobs[0] in jobs;
    if |jobs| == 1 {
      assert jobs[1..] == [];
    } else {
      DrainClears(RunJob(disk, jobs[0]), jobs[1..]);
    }
  }
}
