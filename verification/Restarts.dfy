/**
 Runs, saves and restarts together. What runs leave in the key directory is what start-up expects
 of it, so a restart forges every storable key again, and the next run starts as the first one did.
 */
module Restarts {
  import opened Common
  import opened KeyData
  import opened RecordCodec
  import opened PersistenceManager
  import opened Ownership
  import opened Hooks
  import opened OwnershipInvariant
  import opened ForgedKeys
  import opened DiskRefinement
  import opened KeyDirectory

  /** The metadata of every store so far, by the nspace drawn for it. */
  type History = map<Int64, Metadata>

  /** The process, its directory, and what was stored before. */
  datatype Archive = Archive(w: World, issued: History)

  /** The record is in a file, or waiting to be saved. */
  ghost predicate Recorded(w: World, r: Record) {
    (exists k :: k in w.disk && w.disk[k] == r) || Save(r) in w.state.jobs
  }

  /** A record of some store, whose stored metadata unmarshals to what was stored. */
  ghost predicate FromStore(r: Record, issued: History, metadataOf: Record -> Metadata, local: iset<Int64>) {
    && r.nspace in local && r.nspace != 0 && r.securityLevel in {TRUSTED_ENVIRONMENT, STRONGBOX}
    && r.nspace in issued && metadataOf(r) == issued[r.nspace] && issued[r.nspace].nspace == r.nspace
  }

  ghost predicate Filed(a: Archive, metadataOf: Record -> Metadata, local: iset<Int64>) {
    && (forall k :: k in a.w.disk ==> KeyOf(a.w.disk[k]) == k && Storable(k))
    && (forall r :: Recorded(a.w, r) ==> FromStore(r, a.issued, metadataOf, local))
    && (forall r, q :: Recorded(a.w, r) && Recorded(a.w, q) && r.nspace == q.nspace ==> KeyOf(r) == KeyOf(q))
  }

  /** A forged key serves what was stored for it, up to later updates of its certificates. */
  ghost predicate Serves(a: Archive) {
    forall k :: k in a.w.state.cache.keys ==>
      var metadata := a.w.state.cache.keys[k].response.metadata;
      metadata.nspace in a.issued && SameUpToChain(metadata, a.issued[metadata.nspace])
  }

  ghost predicate Ready(a: Archive, metadataOf: Record -> Metadata, local: iset<Int64>) {
    Filed(a, metadataOf, local) && Serves(a) && Inv(a.w.state, local) && Covered(a.w.state, a.w.disk)
  }

  // ---- runs ----

  predicate StoresSome(s: State, step: Step) {
    step.GenerateKeyPre? && step.generate.Some? && step.generate.value.alias.Some?
    && Stores(s, step, Key(step.uid, step.generate.value.alias.value))
  }

  function StoredMetadata(step: Step): Metadata
    requires step.GenerateKeyPre? && step.keygen.Made?
  {
    Metadata(step.draw, step.keygen.certificate, step.keygen.certificateChain, step.keygen.authorizations)
  }

  function StoredRecord(step: Step): Record
    requires step.GenerateKeyPre? && step.keygen.Made? && step.generate.Some? && step.generate.value.alias.Some?
  {
    var r := step.generate.value;
    Record(step.uid, r.alias.value, step.level, step.modes.needHack, step.draw, r.domain, Some(step.keygen.keyPair), None,
           step.keygen.chain, step.keygen.marshalled, r.params)
  }

  function ActOn(a: Archive, action: Action): Archive {
    Archive(Act(a.w, action),
            if action.Hook? && StoresSome(a.w.state, action.step)
            then a.issued[action.step.draw := StoredMetadata(action.step)] else a.issued)
  }

  /** The draw was never used before, and the metadata of the record unmarshals to what is stored. */
  ghost predicate Deposits(a: Archive, step: Step, metadataOf: Record -> Metadata) {
    StoresSome(a.w.state, step) ==>
      && step.draw !in a.issued && (forall r :: Recorded(a.w, r) ==> r.nspace != step.draw)
      && step.level in {TRUSTED_ENVIRONMENT, STRONGBOX}
      && metadataOf(StoredRecord(step)) == StoredMetadata(step)
  }

  ghost predicate Admissible(a: Archive, action: Action, metadataOf: Record -> Metadata, local: iset<Int64>) {
    action.Hook? ==>
      Allowed(a.w.state, action.step, local) && Requestable(action.step) && Deposits(a, action.step, metadataOf)
  }

  /** Only a store queues a save. */
  lemma StepJobs(s: State, step: Step)
    ensures StoresSome(s, step) ==> Apply(s, step).jobs == s.jobs + [Save(StoredRecord(step))]
    ensures !StoresSome(s, step) ==> forall r :: Save(r) in Apply(s, step).jobs ==> Save(r) in s.jobs
  {
  }

  /** Nothing new recorded, and no new file under a wrong name: the directory stays in order. */
  lemma NothingNewFiled(a: Archive, after: Archive, metadataOf: Record -> Metadata, local: iset<Int64>)
    requires Filed(a, metadataOf, local) && after.issued == a.issued
    requires forall r :: Recorded(after.w, r) ==> Recorded(a.w, r)
    requires forall k :: k in after.w.disk ==> KeyOf(after.w.disk[k]) == k && Storable(k)
    ensures Filed(after, metadataOf, local)
  {
  }

  /** One more record, of a number never used, waits to be saved. */
  lemma OneNewFiled(a: Archive, after: Archive, step: Step, metadataOf: Record -> Metadata, local: iset<Int64>)
    requires Filed(a, metadataOf, local) && StoresSome(a.w.state, step) && Deposits(a, step, metadataOf)
    requires step.draw in local && step.draw != 0
    requires after.issued == a.issued[step.draw := StoredMetadata(step)] && after.w.disk == a.w.disk
    requires forall r :: Recorded(after.w, r) ==> r == StoredRecord(step) || Recorded(a.w, r)
    ensures Filed(after, metadataOf, local)
  {
    forall r | Recorded(after.w, r) ensures FromStore(r, after.issued, metadataOf, local) {
      assert r == StoredRecord(step) || (Recorded(a.w, r) && r.nspace != step.draw);
    }
  }

  lemma StepFiles(a: Archive, step: Step, metadataOf: Record -> Metadata, local: iset<Int64>)
    requires Filed(a, metadataOf, local) && Allowed(a.w.state, step, local) && Deposits(a, step, metadataOf)
    ensures Filed(ActOn(a, Hook(step)), metadataOf, local)
  {
    var after := ActOn(a, Hook(step));
    StepJobs(a.w.state, step);
    if StoresSome(a.w.state, step) {
      forall r | Recorded(after.w, r) ensures r == StoredRecord(step) || Recorded(a.w, r) {}
      OneNewFiled(a, after, step, metadataOf, local);
    } else {
      forall r | Recorded(after.w, r) ensures Recorded(a.w, r) {}
      NothingNewFiled(a, after, metadataOf, local);
    }
  }

  lemma StepServes(a: Archive, step: Step, metadataOf: Record -> Metadata)
    requires Serves(a) && Deposits(a, step, metadataOf)
    ensures Serves(ActOn(a, Hook(step)))
  {
    var after := ActOn(a, Hook(step));
    forall k | k in after.w.state.cache.keys
      ensures var metadata := after.w.state.cache.keys[k].response.metadata;
              metadata.nspace in after.issued && SameUpToChain(metadata, after.issued[metadata.nspace])
    {
      if Stores(a.w.state, step, k) {
        StoreForges(a.w.state, step, k);
      } else if !step.FinishOperation? {
        StepKeepsForged(a.w.state, step, k);
      }
    }
  }

  lemma PersistRecords(a: Archive, r: Record)
    requires a.w.state.jobs != [] && Recorded(ActOn(a, PersistNext).w, r)
    ensures Recorded(a.w, r)
  {
    var after, job := ActOn(a, PersistNext), a.w.state.jobs[0];
    assert job in a.w.state.jobs;
    if k :| k in after.w.disk && after.w.disk[k] == r {
      assert (k in a.w.disk && a.w.disk[k] == r) || job == Save(r);
    }
  }

  /** A save files a writable record under its own key. */
  lemma PersistNames(a: Archive, metadataOf: Record -> Metadata, local: iset<Int64>)
    requires Filed(a, metadataOf, local) && a.w.state.jobs != []
    ensures var disk := ActOn(a, PersistNext).w.disk; forall k :: k in disk ==> KeyOf(disk[k]) == k && Storable(k)
  {
  }

  lemma PersistFiles(a: Archive, metadataOf: Record -> Metadata, local: iset<Int64>)
    requires Filed(a, metadataOf, local)
    ensures Filed(ActOn(a, PersistNext), metadataOf, local)
  {
    if a.w.state.jobs != [] {
      var after := ActOn(a, PersistNext);
      forall r | Recorded(after.w, r) ensures Recorded(a.w, r) { PersistRecords(a, r); }
      PersistNames(a, metadataOf, local);
      NothingNewFiled(a, after, metadataOf, local);
    }
  }

  lemma ActKeepsReady(a: Archive, action: Action, metadataOf: Record -> Metadata, local: iset<Int64>)
    requires Ready(a, metadataOf, local) && Admissible(a, action, metadataOf, local)
    ensures Ready(ActOn(a, action), metadataOf, local)
  {
    if action.Hook? {
      StepFiles(a, action.step, metadataOf, local);
      StepServes(a, action.step, metadataOf);
      StepKeepsInvariant(a.w.state, action.step, local);
      StepKeepsCovered(a.w.state, action.step, a.w.disk);
    } else {
      PersistFiles(a, metadataOf, local);
    }
  }

  function PerformOn(a: Archive, actions: seq<Action>): Archive
    decreases |actions|
  {
    if actions == [] then a else PerformOn(ActOn(a, actions[0]), actions[1..])
  }

  ghost predicate AdmissibleRun(a: Archive, actions: seq<Action>, metadataOf: Record -> Metadata, local: iset<Int64>)
    decreases |actions|
  {
    actions == []
    || (Admissible(a, actions[0], metadataOf, local) && AdmissibleRun(ActOn(a, actions[0]), actions[1..], metadataOf, local))
  }

  /** However hooks and saves interleave, the archive stays as start-up expects it. */
  lemma {:induction false} RunKeepsReady(a: Archive, actions: seq<Action>, metadataOf: Record -> Metadata, local: iset<Int64>)
    requires Ready(a, metadataOf, local) && AdmissibleRun(a, actions, metadataOf, local)
    ensures Ready(PerformOn(a, actions), metadataOf, local)
    decreases |actions|
  {
    if actions != [] {
      ActKeepsReady(a, actions[0], metadataOf, local);
      RunKeepsReady(ActOn(a, actions[0]), actions[1..], metadataOf, local);
    }
  }

  // ---- the restart ----

  function Drained(a: Archive): Archive {
    Archive(World(a.w.state.(jobs := []), Drain(a.w.disk, a.w.state.jobs)), a.issued)
  }

  lemma {:induction false} DrainKeepsFiled(a: Archive, metadataOf: Record -> Metadata, local: iset<Int64>)
    requires Filed(a, metadataOf, local)
    ensures Filed(Drained(a), metadataOf, local)
    decreases |a.w.state.jobs|
  {
    if a.w.state.jobs == [] {
      assert Drained(a) == a;
    } else {
      PersistFiles(a, metadataOf, local);
      DrainKeepsFiled(ActOn(a, PersistNext), metadataOf, local);
    }
  }

  /** A directory that runs left behind, whether or not all jobs were run, is one start-up expects. */
  lemma FiledIsWellFiled(a: Archive, metadataOf: Record -> Metadata, local: iset<Int64>)
    requires Filed(a, metadataOf, local)
    ensures WellFiled(a.w.disk, metadataOf, local)
  {
    forall k | k in a.w.disk ensures WellFiledRecord(k, a.w.disk[k], metadataOf, local) {
      assert Recorded(a.w, a.w.disk[k]);
    }
    forall j, k | j in a.w.disk && k in a.w.disk && j != k ensures a.w.disk[j].nspace != a.w.disk[k].nspace {
      assert Recorded(a.w, a.w.disk[j]) && Recorded(a.w, a.w.disk[k]);
    }
  }

  lemma {:induction false} LevelHolds(records: seq<Record>, level: Int32, r: Record)
    requires r in records && r.securityLevel == level
    ensures KeyOf(r) in LevelKeys(records, level)
    decreases |records|
  {
    if r != records[0] { LevelHolds(records[1..], level, r); }
  }

  /** What a restart makes of a forged key: the same material, parameters and metadata, up to updated certificates. */
  predicate ForgedAgain(before: Info, after: Info) {
    && after.keyPair == before.keyPair && after.secretKey == before.secretKey && after.params == before.params
    && SameUpToChain(after.response.metadata, before.response.metadata)
  }

  lemma RestartFiles(a: Archive, start: State, metadataOf: Record -> Metadata, local: iset<Int64>)
    requires Filed(a, metadataOf, local) && start.jobs == []
    ensures Filed(Archive(World(start, a.w.disk), a.issued), metadataOf, local)
  {
    forall r | Recorded(World(start, a.w.disk), r) ensures Recorded(a.w, r) {}
  }

  lemma RestartServes(a: Archive, start: State, done: set<Key>, metadataOf: Record -> Metadata, local: iset<Int64>)
    requires Filed(a, metadataOf, local) && RestoredFrom(start, a.w.disk, done, metadataOf)
    ensures Serves(Archive(World(start, a.w.disk), a.issued))
  {
    forall k | k in start.cache.keys
      ensures var metadata := start.cache.keys[k].response.metadata;
              metadata.nspace in a.issued && SameUpToChain(metadata, a.issued[metadata.nspace])
    {
      assert Recorded(a.w, a.w.disk[k]);
    }
  }

  /** One forged key of the stopped process, found on the drained disk and restored from there. */
  lemma KeyIsRestored(a: Archive, start: State, done: set<Key>, k: Key, metadataOf: Record -> Metadata, local: iset<Int64>)
    requires Serves(a) && Covered(a.w.state, a.w.disk) && Filed(Drained(a), metadataOf, local)
    requires RestoredFrom(start, Drained(a).w.disk, done, metadataOf)
    requires k in a.w.state.cache.keys && (k in Drained(a).w.disk ==> k in done)
    ensures k in start.cache.keys <==> Storable(k)
    ensures Storable(k) ==> ForgedAgain(a.w.state.cache.keys[k], start.cache.keys[k])
  {
    var disk := Drained(a).w.disk;
    if Storable(k) {
      assert OnDisk(disk, k, a.w.state.cache.keys[k]);
      assert Recorded(Drained(a).w, disk[k]);
      assert FromStore(disk[k], a.issued, metadataOf, local);
    }
  }

  /** Loading all files of a directory that runs left restores every record in it. */
  lemma AllRestored(a: Archive, files: Files, order: seq<Key>, k: Key, metadataOf: Record -> Metadata, local: iset<Int64>)
    requires Filed(a, metadataOf, local) && View(files) == a.w.disk && k in a.w.disk && k in order
    ensures k in RestoredKeys(Records(files, order))
  {
    var r := a.w.disk[k];
    assert Recorded(a.w, r);
    RecordsAre(files, order, r);
    LevelHolds(Records(files, order), r.securityLevel, r);
  }

  /**
   After any run, once the queued jobs have run and the files have been loaded: exactly the storable
   forged keys are forged again, and the restarted process is ready for the next run and restart.
   */
  lemma RestartRestores(a: Archive, files: Files, order: seq<Key>, metadataOf: Record -> Metadata, local: iset<Int64>)
    requires Ready(a, metadataOf, local) && View(files) == a.w.disk
    requires forall k :: k in order <==> k in DrainFiles(files, a.w.state.jobs)
    ensures var drained := DrainFiles(files, a.w.state.jobs);
            var start := StartUp(Records(drained, order), metadataOf, []);
            && Ready(Archive(World(start, View(drained)), a.issued), metadataOf, local)
            && forall k :: k in a.w.state.cache.keys ==>
                 (k in start.cache.keys <==> Storable(k))
                 && (Storable(k) ==> ForgedAgain(a.w.state.cache.keys[k], start.cache.keys[k]))
  {
    var drained := DrainFiles(files, a.w.state.jobs);
    var done := RestoredKeys(Records(drained, order));
    var start := StartUp(Records(drained, order), metadataOf, []);
    DrainOnFiles(files, a.w.state.jobs);
    DrainKeepsFiled(a, metadataOf, local);
    FiledIsWellFiled(Drained(a), metadataOf, local);
    StartUpEstablishes(drained, order, metadataOf, local);
    StartUpRestores(drained, order, metadataOf, [], local);
    RestartFiles(Drained(a), start, metadataOf, local);
    RestartServes(Drained(a), start, done, metadataOf, local);
    forall k | k in a.w.state.cache.keys
      ensures (k in start.cache.keys <==> Storable(k))
              && (Storable(k) ==> ForgedAgain(a.w.state.cache.keys[k], start.cache.keys[k]))
    {
      if k in Drained(a).w.disk { AllRestored(Drained(a), drained, order, k, metadataOf, local); }
      KeyIsRestored(a, start, done, k, metadataOf, local);
    }
  }

  /** An empty process over an empty directory is ready. */
  lemma EmptyIsReady(metadataOf: Record -> Metadata, local: iset<Int64>)
    ensures Ready(Archive(World(State(EMPTY_CACHE, EMPTY_REGISTRY, {}, []), map[]), map[]), metadataOf, local)
  {
  }

  // ---- one key, in full ----

  const EMPTY := State(EMPTY_CACHE, EMPTY_REGISTRY, {}, [])

  /** The step that stores a key first thing in a process. */
  predicate StoresFirst(step: Step, k: Key) {
    Stores(EMPTY, step, k) && step.level in {TRUSTED_ENVIRONMENT, STRONGBOX} && step.draw != 0
  }

  /**
   A key stored by an otherwise empty process, saved, and restored by the next is there in full: entry,
   key pair with its chain, number and skip mark. Only its count starts again.
   */
  lemma StoredComesBack(step: Step, k: Key, metadataOf: Record -> Metadata)
    requires StoresFirst(step, k) && Storable(k) && Requestable(step) && metadataOf(StoredRecord(step)) == StoredMetadata(step)
    ensures var stored := Apply(EMPTY, step);
            var disk := Drain(map[], stored.jobs);
            && disk.Keys == {k}
            && StartUp([disk[k]], metadataOf, []) == State(stored.cache.(usageRemaining := map[]), stored.registry, {}, [])
            && k in stored.cache.keys && k in stored.cache.keyPairs
  {
    var stored, r := Apply(EMPTY, step), StoredRecord(step);
    StepJobs(EMPTY, step);
    SavesExactly(k, r);
    assert stored.jobs == [Save(r)] && stored.jobs[1..] == [];
    var other := if step.level == STRONGBOX then TRUSTED_ENVIRONMENT else STRONGBOX;
    LoneRecord(EMPTY, r, step.level, metadataOf);
    LoneRecord(EMPTY, r, other, metadataOf);
    LoneRecord(Restore(EMPTY, r, metadataOf(r)), r, other, metadataOf);
    StoredIsRestored(step, k, metadataOf(r));
  }

  lemma LoneRecord(s: State, r: Record, level: Int32, metadataOf: Record -> Metadata)
    ensures RestoreLevel(s, [r], level, metadataOf) == if r.securityLevel == level then Restore(s, r, metadataOf(r)) else s
  {
    assert [r][1..] == [];
    assert RestoreLevel(RestoreIf(s, r, level, metadataOf), [r][1..], level, metadataOf) == RestoreIf(s, r, level, metadataOf);
  }

  lemma StoredIsRestored(step: Step, k: Key, metadata: Metadata)
    requires StoresFirst(step, k) && metadata == StoredMetadata(step)
    ensures var stored := Apply(EMPTY, step);
            Restore(EMPTY, StoredRecord(step), metadata) == State(stored.cache.(usageRemaining := map[]), stored.registry, {}, [])
  {
  }
}
