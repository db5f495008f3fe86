/**
 What becomes of a key's file: which steps have it removed, and that a removed key stays away, through
 every later run and restart, until it is stored again.
 */
module Removal {
  import opened Common
  import opened KeyData
  import opened RecordCodec
  import opened PersistenceManager
  import opened Ownership
  import opened Hooks
  import opened OwnershipInvariant
  import opened ForgedKeys
  import opened DiskRefinement
  import opened KeyDirectory
  import opened Restarts
  import opened HookOutcomes

  /** The read is one that rejects historical owners. */
  ghost predicate Rejects(s: State, step: Step)
    requires step.GetKeyEntryPre?
  {
    && step.hasKeyboxes && step.request.Some? && ByMode(s, step.modes, step.uid, step.request.value)
    && step.modes.needHack && !step.modes.needGenerate && step.modes.plainAuto
    && !IsPassthrough(s, step.uid, step.request.value)
  }

  /**
   The step has the file of `k` removed: deletion, whatever the hook, a successful import, a passthrough
   accepted, a plain AUTO read that rejects a forged owner, and the wipe of everything.
   */
  ghost predicate Removes(s: State, step: Step, k: Key) {
    match step
    case DeleteKeyPre(uid, r) => r.Some? && ByName(uid, r.value, k)
    case DeleteKeyPost(uid, r) => r.Some? && ByName(uid, r.value, k)
    case ImportKeyPost(uid, alias, reply) => reply.Answer? && uid == k.uid && alias == Some(k.alias)
    case GenerateKeyPost(level, uid, alias, reply) =>
      reply.Answer? && uid == k.uid && alias == Some(k.alias) && (level, k) in s.pending
    case GetKeyEntryPre(_, _, uid, r) =>
      && Rejects(s, step) && ByName(uid, r.value, k)
      && exists j :: Leads(s.cache, uid, r.value, s.cache.keys, j)
    case CleanupAll => true
    case _ => false
  }

  /** The step stores `k` under an alias that can be written. */
  predicate Files(s: State, step: Step, k: Key) {
    Stores(s, step, k) && Storable(k)
  }

  /** A job that leaves the file of `k` alone. */
  predicate Spares(job: Job, k: Key) {
    match job
    case Save(r) => KeyOf(r) != k
    case Delete(j) => j != k
    case ClearAll => false
  }

  /** The step queues one job that settles the file of `k`, or none that touches it. */
  ghost predicate Queues(s: State, step: Step, k: Key) {
    var after := Apply(s, step);
    if Removes(s, step, k) then after.jobs == s.jobs + [Delete(k)] || after.jobs == s.jobs + [ClearAll]
    else if Stores(s, step, k) then after.jobs == s.jobs + [Save(StoredRecord(step))] && KeyOf(StoredRecord(step)) == k
    else after.jobs == s.jobs || exists job :: after.jobs == s.jobs + [job] && Spares(job, k)
  }

  lemma QueuesOther(s: State, step: Step, k: Key, job: Job)
    requires !Removes(s, step, k) && !Stores(s, step, k) && Apply(s, step).jobs == s.jobs + [job] && Spares(job, k)
    ensures Queues(s, step, k)
  {
  }

  lemma DeleteQueues(s: State, step: Step, k: Key)
    requires step.DeleteKeyPre? || step.DeleteKeyPost? || step.ImportKeyPost?
    ensures Queues(s, step, k)
  {
    if step.ImportKeyPost? {
      if step.imported.Answer? && step.alias.Some? && Key(step.uid, step.alias.value) != k {
        QueuesOther(s, step, k, Delete(Key(step.uid, step.alias.value)));
      }
    } else if step.request.Some? && step.request.value.alias.Some? && Key(step.uid, step.request.value.alias.value) != k {
      QueuesOther(s, step, k, Delete(Key(step.uid, step.request.value.alias.value)));
    }
  }

  lemma GeneratePreQueues(s: State, step: Step, k: Key)
    requires step.GenerateKeyPre?
    ensures Queues(s, step, k)
  {
    if StoresSome(s, step) && !Stores(s, step, k) { QueuesOther(s, step, k, Save(StoredRecord(step))); }
  }

  lemma GeneratePostQueues(s: State, step: Step, k: Key)
    requires step.GenerateKeyPost?
    ensures Queues(s, step, k)
  {
    if step.generated.Answer? && step.alias.Some? && (step.level, Key(step.uid, step.alias.value)) in s.pending
       && Key(step.uid, step.alias.value) != k
    {
      QueuesOther(s, step, k, Delete(Key(step.uid, step.alias.value)));
    }
  }

  lemma ReadAsks(s: State, step: Step)
    requires step.GetKeyEntryPre?
    ensures Apply(s, step) == if Rejects(s, step) then RejectHistorical(s, step.uid, step.request.value) else s
  {
  }

  lemma ReadQueues(s: State, step: Step, k: Key)
    requires step.GetKeyEntryPre?
    ensures Queues(s, step, k)
  {
    ReadAsks(s, step);
    if Rejects(s, step) {
      var d := step.request.value;
      ServedFrom(s.cache, step.uid, d, Continue);
      if d.alias.Some? && FindGenerated(s.cache, step.uid, d).Some? && Key(step.uid, d.alias.value) != k {
        QueuesOther(s, step, k, Delete(Key(step.uid, d.alias.value)));
      }
    }
  }

  lemma OtherQueues(s: State, step: Step, k: Key)
    requires !step.DeleteKeyPre? && !step.DeleteKeyPost? && !step.ImportKeyPost? && !step.GenerateKeyPre?
    requires !step.GenerateKeyPost? && !step.GetKeyEntryPre?
    ensures Queues(s, step, k)
  {
  }

  lemma StepQueues(s: State, step: Step, k: Key)
    ensures Queues(s, step, k)
  {
    match step
    case DeleteKeyPre(_, _) => DeleteQueues(s, step, k);
    case DeleteKeyPost(_, _) => DeleteQueues(s, step, k);
    case ImportKeyPost(_, _, _) => DeleteQueues(s, step, k);
    case GenerateKeyPre(_, _, _, _, _, _, _) => GeneratePreQueues(s, step, k);
    case GenerateKeyPost(_, _, _, _) => GeneratePostQueues(s, step, k);
    case GetKeyEntryPre(_, _, _, _) => ReadQueues(s, step, k);
    case _ => OtherQueues(s, step, k);
  }

  /** The file of `k` is there once the queued jobs have run. */
  predicate Remains(w: World, k: Key) {
    k in Drain(w.disk, w.state.jobs)
  }

  /**
   For every step: the file of a key is there afterwards exactly when the step stores the key under an
   alias that can be written, or the file was there and the step does not have it removed.
   */
  lemma RemainsExactly(w: World, step: Step, k: Key)
    requires Requestable(step)
    ensures Remains(Act(w, Hook(step)), k) <==> Files(w.state, step, k) || (Remains(w, k) && !Removes(w.state, step, k))
  {
    var s, after := w.state, Apply(w.state, step);
    StepQueues(s, step, k);
    if Removes(s, step, k) {
      DrainLast(w.disk, s.jobs, after.jobs[|after.jobs| - 1]);
    } else if Stores(s, step, k) {
      DrainLast(w.disk, s.jobs, Save(StoredRecord(step)));
      SavesExactly(k, StoredRecord(step));
    } else if after.jobs != s.jobs {
      var job :| after.jobs == s.jobs + [job] && Spares(job, k);
      DrainLast(w.disk, s.jobs, job);
    }
  }

  // ---- runs and restarts ----

  /** No hook of the run stores `k`. */
  predicate NeverStored(w: World, actions: seq<Action>, k: Key)
    decreases |actions|
  {
    actions == []
    || ((actions[0].Hook? ==> !Stores(w.state, actions[0].step, k)) && NeverStored(Act(w, actions[0]), actions[1..], k))
  }

  lemma {:induction false} StaysAway(a: Archive, actions: seq<Action>, k: Key, metadataOf: Record -> Metadata, local: iset<Int64>)
    requires AdmissibleRun(a, actions, metadataOf, local) && NeverStored(a.w, actions, k) && !Remains(a.w, k)
    ensures !Remains(PerformOn(a, actions).w, k)
    decreases |actions|
  {
    if actions != [] {
      if actions[0].Hook? { RemainsExactly(a.w, actions[0].step, k); }
      StaysAway(ActOn(a, actions[0]), actions[1..], k, metadataOf, local);
    }
  }

  /** Start-up forges nothing but what is in the directory. */
  lemma ForgedFromDisk(files: Files, order: seq<Key>, k: Key, metadataOf: Record -> Metadata, local: iset<Int64>)
    requires WellFiled(View(files), metadataOf, local) && k !in View(files)
    ensures k !in StartUp(Records(files, order), metadataOf, []).cache.keys
  {
    StartUpRestores(files, order, metadataOf, [], local);
  }

  /**
   A key that a step has removed is not forged again by a restart after any run of hooks and saves in
   which it is not stored again, the remaining jobs having run and the files having been loaded.
   */
  lemma RemovedStaysRemoved(a: Archive, removal: Step, actions: seq<Action>, files: Files, order: seq<Key>, k: Key,
                            metadataOf: Record -> Metadata, local: iset<Int64>)
    requires Ready(a, metadataOf, local) && Removes(a.w.state, removal, k)
    requires AdmissibleRun(a, [Hook(removal)] + actions, metadataOf, local)
    requires NeverStored(ActOn(a, Hook(removal)).w, actions, k)
    requires var end := PerformOn(a, [Hook(removal)] + actions);
             View(files) == end.w.disk && forall j :: j in order <==> j in DrainFiles(files, end.w.state.jobs)
    ensures var end := PerformOn(a, [Hook(removal)] + actions);
            k !in StartUp(Records(DrainFiles(files, end.w.state.jobs), order), metadataOf, []).cache.keys
  {
    var run := [Hook(removal)] + actions;
    assert run[0] == Hook(removal) && run[1..] == actions;
    var end := PerformOn(a, run);
    RunKeepsReady(a, run, metadataOf, local);
    RemainsExactly(a.w, removal, k);
    StaysAway(ActOn(a, Hook(removal)), actions, k, metadataOf, local);
    DrainOnFiles(files, end.w.state.jobs);
    DrainKeepsFiled(end, metadataOf, local);
    FiledIsWellFiled(Drained(end), metadataOf, local);
    ForgedFromDisk(DrainFiles(files, end.w.state.jobs), order, k, metadataOf, local);
  }
}
