/**
 Memory refines into disk: once the queued jobs have run, the disk holds a record of every
 forged key. The queue is drained by one thread while hooks go on. The disk is seen here as
 the records its files hold; KeyDirectory.dfy takes this down to the bytes.
 */
module DiskRefinement {
  import opened Common
  import opened KeyData
  import opened DataStreams
  import opened RecordCodec
  import opened PersistenceManager
  import opened Ownership
  import opened Hooks
  import opened OwnershipInvariant

  /** The record each key file holds. */
  type Disk = map<Key, Record>

  /** The persistence thread runs one job; a save whose encoding throws leaves the disk alone. */
  function RunJob(disk: Disk, job: Job): Disk {
    match job
    case Save(r) => if Encodable(r) then disk[KeyOf(r) := r] else disk
    case Delete(k) => disk - {k}
    case ClearAll => map[]
  }

  function Drain(disk: Disk, jobs: seq<Job>): Disk
    decreases |jobs|
  {
    if jobs == [] then disk else Drain(RunJob(disk, jobs[0]), jobs[1..])
  }

  lemma {:induction false} DrainLast(disk: Disk, jobs: seq<Job>, last: Job)
    ensures Drain(disk, jobs + [last]) == RunJob(Drain(disk, jobs), last)
    decreases |jobs|
  {
    if jobs == [] {
      assert [last][1..] == [];
    } else {
      assert (jobs + [last])[1..] == jobs[1..] + [last];
      DrainLast(RunJob(disk, jobs[0]), jobs[1..], last);
    }
  }

  /** The alias can be written by writeUTF: at most 65535 bytes of modified UTF-8. */
  predicate Storable(k: Key) {
    UtfFits(k.alias)
  }

  /** The record carries the key's identity, material, parameters and nspace. */
  predicate Matches(k: Key, info: Info, r: Record) {
    && KeyOf(r) == k
    && r.keyPair == info.keyPair && r.secretKey == info.secretKey && r.params == info.params
    && r.nspace == info.response.metadata.nspace
  }

  predicate OnDisk(disk: Disk, k: Key, info: Info) {
    k in disk && Matches(k, info, disk[k])
  }

  /** Every storable forged key is on the drained disk; only storable keys ever are, each under its own name. */
  ghost predicate Covered(s: State, disk: Disk) {
    var drained := Drain(disk, s.jobs);
    && (forall k :: k in s.cache.keys && Storable(k) ==> OnDisk(drained, k, s.cache.keys[k]))
    && (forall k :: k in drained ==> Storable(k) && KeyOf(drained[k]) == k)
  }

  /** The exponent of a request is a 64-bit number. */
  predicate LongExponent(p: Params) {
    p.rsaPublicExponent.Some? ==> -0x8000_0000_0000_0000 <= p.rsaPublicExponent.value < 0x8000_0000_0000_0000
  }

  predicate Requestable(step: Step) {
    step.GenerateKeyPre? && step.generate.Some? ==> LongExponent(step.generate.value.params)
  }

  // ---- every step keeps memory covered ----

  /** Dropping forged keys from memory, or changing only their certificates, needs nothing from the disk. */
  lemma ShrinkKeepsCovered(s: State, after: State, disk: Disk)
    requires Covered(s, disk) && after.jobs == s.jobs
    requires forall k :: k in after.cache.keys ==> k in s.cache.keys && SameKey(after.cache.keys[k], s.cache.keys[k])
    ensures Covered(after, disk)
  {
  }

  predicate SameKey(a: Info, b: Info) {
    a.keyPair == b.keyPair && a.secretKey == b.secretKey && a.params == b.params
    && a.response.metadata.nspace == b.response.metadata.nspace
  }

  lemma ClearKeepsCovered(s: State, k: Key, persist: bool, disk: Disk)
    requires Covered(s, disk)
    ensures Covered(Clear(s, k, persist), disk)
  {
    if persist { DrainLast(disk, s.jobs, Delete(k)); }
  }

  lemma StoreKeepsCovered(s: State, level: Int32, k: Key, domain: Int32, params: Params, skip: bool, made: Keygen,
                          draw: Int64, disk: Disk)
    requires Covered(s, disk) && made.Made? && LongExponent(params)
    ensures Covered(StoreGenerated(s, level, k, domain, params, skip, made, draw).0, disk)
  {
    ClearKeepsCovered(Relinquish(s, k), k, false, disk);
    var before := Clear(Relinquish(s, k), k, false);
    var after := StoreGenerated(s, level, k, domain, params, skip, made, draw).0;
    var r := after.jobs[|after.jobs| - 1].record;
    assert after.jobs == before.jobs + [Save(r)];
    SavesExactly(k, r);
    SaveCovers(before, after, k, r, disk);
  }

  /** A record made for a requested key can be written exactly when its alias can. */
  lemma SavesExactly(k: Key, r: Record)
    requires KeyOf(r) == k && r.secretKey == None && LongExponent(r.params)
    ensures Encodable(r) <==> Storable(k)
  {
    if r.params.rsaPublicExponent.Some? { LongExponentFits(r.params.rsaPublicExponent.value); }
  }

  lemma SaveCovers(before: State, after: State, k: Key, r: Record, disk: Disk)
    requires Covered(before, disk) && KeyOf(r) == k && (Encodable(r) <==> Storable(k))
    requires after.jobs == before.jobs + [Save(r)] && k in after.cache.keys && Matches(k, after.cache.keys[k], r)
    requires forall j :: j in after.cache.keys && j != k ==> j in before.cache.keys && after.cache.keys[j] == before.cache.keys[j]
    ensures Covered(after, disk)
  {
    DrainLast(disk, before.jobs, Save(r));
  }

  lemma UnbuiltKeepsCovered(s: State, k: Key, made: Keygen, draw: Int64, disk: Disk)
    requires Covered(s, disk) && made.Unbuilt?
    ensures Covered(StoreUnbuilt(s, k, made, draw), disk)
  {
    ShrinkKeepsCovered(s, StoreUnbuilt(s, k, made, draw), disk);
  }

  lemma PendingKeepsCovered(s: State, level: Int32, k: Key, disk: Disk)
    requires Covered(s, disk)
    ensures Covered(Clear(s.(pending := s.pending + {(level, k)}), k, false), disk)
  {
    ShrinkKeepsCovered(s, Clear(s.(pending := s.pending + {(level, k)}), k, false), disk);
  }

  lemma GeneratePreKeepsCovered(s: State, step: Step, disk: Disk)
    requires Covered(s, disk) && step.GenerateKeyPre? && Requestable(step)
    ensures Covered(Apply(s, step), disk)
  {
    if step.generate.Some? && step.generate.value.alias.Some? {
      var r := step.generate.value;
      var k := Key(step.uid, r.alias.value);
      if !step.modes.needGenerate {
        PendingKeepsCovered(s, step.level, k, disk);
        ShrinkKeepsCovered(s, s.(cache := s.cache.(skipLeafHacks := s.cache.skipLeafHacks - {k})), disk);
      } else if step.keygen.Made? {
        StoreKeepsCovered(s, step.level, k, r.domain, r.params, step.modes.needHack, step.keygen, step.draw, disk);
      } else if step.keygen.Unbuilt? {
        UnbuiltKeepsCovered(s, k, step.keygen, step.draw, disk);
      }
    }
  }

  lemma EndingKeepsCovered(s: State, step: Step, disk: Disk)
    requires Covered(s, disk) && (step.DeleteKeyPre? || step.DeleteKeyPost? || step.ImportKeyPost?)
    ensures Covered(Apply(s, step), disk)
  {
    if step.ImportKeyPost? {
      if step.alias.Some? { ClearKeepsCovered(s, Key(step.uid, step.alias.value), true, disk); }
    } else if step.request.Some? && step.request.value.alias.Some? {
      ClearKeepsCovered(s, Key(step.uid, step.request.value.alias.value), true, disk);
    }
  }

  /** A read at most clears one key, with its file if it was forged. */
  lemma ReadPreClears(s: State, hasKeyboxes: bool, m: Modes, uid: Int32, request: Option<Descriptor>)
    ensures var after := ReadPre(s, hasKeyboxes, m, uid, request).0;
            after == s
            || (request.Some? && request.value.alias.Some?
                && after == Clear(s, Key(uid, request.value.alias.value), FindGenerated(s.cache, uid, request.value).Some?))
  {
  }

  lemma ReadKeepsCovered(s: State, step: Step, disk: Disk)
    requires Covered(s, disk) && step.GetKeyEntryPre?
    ensures Covered(Apply(s, step), disk)
  {
    ReadPreClears(s, step.hasKeyboxes, step.modes, step.uid, step.request);
    if step.request.Some? && step.request.value.alias.Some? {
      var d := step.request.value;
      ClearKeepsCovered(s, Key(step.uid, d.alias.value), FindGenerated(s.cache, step.uid, d).Some?, disk);
    }
  }

  lemma ReadPostKeepsKeys(s: State, m: Modes, uid: Int32, request: Option<Descriptor>, entry: BackendReply<RealEntry>)
    ensures var after := ReadPost(s, m, uid, request, entry).0; after.cache.keys == s.cache.keys && after.jobs == s.jobs
  {
  }

  lemma UpdateKeepsCovered(s: State, step: Step, disk: Disk)
    requires Covered(s, disk) && (step.UpdateSubcomponentPre? || step.UpdateSubcomponentPost?)
    ensures Covered(Apply(s, step), disk)
  {
    if step.UpdateSubcomponentPost? {
      if step.request.Some? && AliasOf(s.cache, step.uid, step.request.value).Some? {
        var k := Key(step.uid, AliasOf(s.cache, step.uid, step.request.value).value);
        ClearKeepsCovered(s, k, false, disk);
      }
    } else if step.request.Some? && UpdateTarget(s.cache, step.uid, step.request.value).Some? {
      var k := UpdateTarget(s.cache, step.uid, step.request.value).value;
      ClearKeepsCovered(s, Key(step.uid, k.alias), false, disk);
      ShrinkKeepsCovered(s, s.(cache := UpdateChain(s.cache, k, step.certificate, step.chain)), disk);
    }
  }

  lemma StepKeepsCovered(s: State, step: Step, disk: Disk)
    requires Covered(s, disk) && Requestable(step)
    ensures Covered(Apply(s, step), disk)
  {
    match step
    case DeleteKeyPre(_, _) => EndingKeepsCovered(s, step, disk);
    case DeleteKeyPost(_, _) => EndingKeepsCovered(s, step, disk);
    case ImportKeyPost(_, _, _) => EndingKeepsCovered(s, step, disk);
    case GetKeyEntryPre(_, _, _, _) => ReadKeepsCovered(s, step, disk);
    case GetKeyEntryPost(m, uid, r, entry) =>
      ReadPostKeepsKeys(s, m, uid, r, entry);
      ShrinkKeepsCovered(s, Apply(s, step), disk);
    case GenerateKeyPre(_, _, _, _, _, _, _) => GeneratePreKeepsCovered(s, step, disk);
    case GenerateKeyPost(level, uid, alias, _) => GeneratePostKeepsCovered(s, step, disk);
    case UpdateSubcomponentPre(_, _, _, _) => UpdateKeepsCovered(s, step, disk);
    case UpdateSubcomponentPost(_, _) => UpdateKeepsCovered(s, step, disk);
    case CleanupAll => DrainLast(disk, s.jobs, ClearAll);
    case _ => ShrinkKeepsCovered(s, Apply(s, step), disk);
  }

  lemma GeneratePostKeepsCovered(s: State, step: Step, disk: Disk)
    requires Covered(s, disk) && step.GenerateKeyPost?
    ensures Covered(Apply(s, step), disk)
  {
    if step.alias.Some? && !step.generated.NoReply? {
      var k := Key(step.uid, step.alias.value);
      var s1 := s.(pending := s.pending - {(step.level, k)});
      ShrinkKeepsCovered(s, s1, disk);
      if step.generated.Answer? {
        var outcome := step.generated.value;
        if (step.level, k) in s.pending {
          ClearKeepsCovered(s1, k, true, disk);
          ShrinkKeepsCovered(Clear(s1, k, true), AcceptPassthrough(s1, k, outcome.metadata), disk);
        } else if outcome.metadata.Some? && !outcome.leaf.Unreadable? {
          ShrinkKeepsCovered(s1, AcceptLeafForward(s1, k, outcome.metadata.value, outcome.leaf).0, disk);
        }
      }
    }
  }

  // ---- runs of hooks and of the persistence thread ----

  datatype Action = Hook(step: Step) | PersistNext

  datatype World = World(state: State, disk: Disk)

  function Act(w: World, a: Action): World {
    match a
    case Hook(step) => World(Apply(w.state, step), w.disk)
    case PersistNext =>
      if w.state.jobs == [] then w
      else World(w.state.(jobs := w.state.jobs[1..]), RunJob(w.disk, w.state.jobs[0]))
  }

  function Perform(w: World, actions: seq<Action>): World
    decreases |actions|
  {
    if actions == [] then w else Perform(Act(w, actions[0]), actions[1..])
  }

  /** However hooks and saves interleave, memory stays covered by what the disk will hold. */
  lemma {:induction false} MemoryStaysCovered(w: World, actions: seq<Action>)
    requires Covered(w.state, w.disk)
    requires forall a :: a in actions && a.Hook? ==> Requestable(a.step)
    ensures Covered(Perform(w, actions).state, Perform(w, actions).disk)
    decreases |actions|
  {
    if actions != [] {
      if actions[0].Hook? { StepKeepsCovered(w.state, actions[0].step, w.disk); }
      MemoryStaysCovered(Act(w, actions[0]), actions[1..]);
    }
  }

  /** In a covered state a forged key is on the drained disk exactly when its alias can be written. */
  lemma OnDiskExactly(s: State, disk: Disk, k: Key)
    requires Covered(s, disk) && k in s.cache.keys
    ensures OnDisk(Drain(disk, s.jobs), k, s.cache.keys[k]) <==> Storable(k)
  {
  }
}
