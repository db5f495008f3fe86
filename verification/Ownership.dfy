/**
 The value of all the shared maps: who answers for the certificate response of each
 (uid, alias). Lookups and the state changes of CertificateAliasCache and
 PassthroughKeyRegistry are functions on this value; the classes of
 CertificateAliasCache.dfy hold the same maps in fields and are proved against them.
 */
module Ownership {
  import opened Common
  import opened KeyData

  // ---- entities ----

  /** A key's metadata; `nspace` is 0 when the descriptor inside it is absent. */
  datatype Metadata = Metadata(
    nspace: Int64, certificate: Option<Blob>, certificateChain: Option<Blob>, authorizations: Blob)

  /** A KeyEntryResponse. */
  datatype Response = Response(metadata: Metadata)

  datatype Info = Info(
    keyPair: Option<KeyPair>, secretKey: Option<SecretKey>, response: Response, params: Params)

  datatype Grant = Grant(ownerUid: Int32, granteeUid: Int32, key: Key, accessVector: bv32)

  /** What a caller names a key by. */
  datatype Descriptor = Descriptor(nspace: Int64, alias: Option<Utf16>)

  const GET_INFO: bv32 := 4
  const UPDATE: bv32 := 128

  /** A job of the single persistence thread. */
  datatype Job = Save(record: Record) | Delete(key: Key) | ClearAll

  // ---- state ----

  /** The seven maps of CertificateAliasCache. */
  datatype Cache = Cache(
    keys: map<Key, Info>,
    keyPairs: map<Key, (KeyPair, Chain)>,
    skipLeafHacks: map<Key, bool>,
    keysByNspace: map<Int64, Key>,
    patched: map<Key, Response>,
    grants: map<Int64, Grant>,
    usageRemaining: map<Key, int>)

  /** PassthroughKeyRegistry. */
  datatype Registry = Registry(tracked: set<Key>, byNspace: map<Int64, Key>)

  /** The caches, the passthrough registry, the pending passthrough marks of each security level, and the job queue. */
  datatype State = State(cache: Cache, registry: Registry, pending: set<(Int32, Key)>, jobs: seq<Job>)

  const EMPTY_CACHE := Cache(map[], map[], map[], map[], map[], map[], map[])
  const EMPTY_REGISTRY := Registry({}, map[])

  // ---- PassthroughKeyRegistry ----

  function Promote(r: Registry, k: Key, nspace: Int64): Registry {
    Registry(r.tracked + {k}, if nspace != 0 then r.byNspace[nspace := k] else r.byNspace)
  }

  function Untrack(r: Registry, k: Key): Registry {
    Registry(r.tracked - {k}, map n | n in r.byNspace && r.byNspace[n] != k :: r.byNspace[n])
  }

  function ResolveTracked(r: Registry, uid: Int32, d: Descriptor): Option<Key> {
    if d.nspace != 0 && d.nspace in r.byNspace && r.byNspace[d.nspace].uid == uid && r.byNspace[d.nspace] in r.tracked
    then Some(r.byNspace[d.nspace])
    else if d.alias.Some? && Key(uid, d.alias.value) in r.tracked then Some(Key(uid, d.alias.value))
    else None
  }

  // ---- lookups ----

  /** The key indexed under the descriptor's nspace, if it is the caller's own. */
  function IndexedKey(c: Cache, uid: Int32, nspace: Int64): Option<Key> {
    if nspace != 0 && nspace in c.keysByNspace && c.keysByNspace[nspace].uid == uid
    then Some(c.keysByNspace[nspace])
    else None
  }

  /** The grant under the descriptor's nspace, if the caller is its grantee. */
  function GrantTo(c: Cache, uid: Int32, nspace: Int64): Option<Grant> {
    if nspace != 0 && nspace in c.grants && c.grants[nspace].granteeUid == uid then Some(c.grants[nspace]) else None
  }

  /** resolveOwnerKeys: the candidates by index, by grant and by alias, in that order. */
  function OwnerKeys(c: Cache, uid: Int32, d: Descriptor): seq<Key> {
    (match IndexedKey(c, uid, d.nspace) case Some(k) => [k] case None => [])
    + (match GrantTo(c, uid, d.nspace) case Some(g) => [g.key] case None => [])
    + (match d.alias case Some(a) => [Key(uid, a)] case None => [])
  }

  /** The first candidate that has an entry. */
  function FirstIn<V>(candidates: seq<Key>, m: map<Key, V>): (k: Option<Key>)
    ensures k.None? <==> forall c :: c in candidates ==> c !in m
    ensures k.Some? ==> k.value in candidates && k.value in m
  {
    if candidates == [] then None
    else if candidates[0] in m then Some(candidates[0])
    else FirstIn(candidates[1..], m)
  }

  function FindGenerated(c: Cache, uid: Int32, d: Descriptor): Option<Key> {
    FirstIn(OwnerKeys(c, uid, d), c.keys)
  }

  function FindPatched(c: Cache, uid: Int32, d: Descriptor): Option<Key> {
    FirstIn(OwnerKeys(c, uid, d), c.patched)
  }

  function SkipsLeafHack(c: Cache, uid: Int32, d: Descriptor): bool {
    match FirstIn(OwnerKeys(c, uid, d), c.skipLeafHacks)
    case Some(k) => c.skipLeafHacks[k]
    case None => false
  }

  /** resolveKey: by index, else by alias; grants are not consulted. */
  function ResolveKey(c: Cache, uid: Int32, d: Descriptor): Option<Key> {
    match IndexedKey(c, uid, d.nspace)
    case Some(k) => Some(k)
    case None => (match d.alias case Some(a) => Some(Key(uid, a)) case None => None)
  }

  function IsPassthrough(s: State, uid: Int32, d: Descriptor): bool {
    ResolveTracked(s.registry, uid, d).Some?
    || exists k :: k in OwnerKeys(s.cache, uid, d) && k in s.registry.tracked
  }

  predicate IsPatchedKey(c: Cache, k: Key) {
    k in c.keys || k in c.patched
  }

  /** findAliasForNspace, or the alias itself: the alias a post-hook acts on. */
  function AliasOf(c: Cache, uid: Int32, d: Descriptor): Option<Utf16> {
    if d.alias.Some? then d.alias
    else match IndexedKey(c, uid, d.nspace) case Some(k) => Some(k.alias) case None => None
  }

  // ---- ownership changes ----

  /** clearSyntheticCertificateState on the maps. */
  function ClearCache(c: Cache, k: Key): Cache {
    var ownNspace := if k in c.keys then {c.keys[k].response.metadata.nspace} else {};
    Cache(c.keys - {k}, c.keyPairs - {k}, c.skipLeafHacks - {k},
          map n | n in c.keysByNspace && n !in ownNspace && c.keysByNspace[n] != k :: c.keysByNspace[n],
          c.patched - {k},
          map id | id in c.grants && c.grants[id].key != k :: c.grants[id],
          c.usageRemaining - {k})
  }

  function Clear(s: State, k: Key, includePersistence: bool): State {
    s.(cache := ClearCache(s.cache, k), jobs := if includePersistence then s.jobs + [Delete(k)] else s.jobs)
  }

  function Relinquish(s: State, k: Key): State {
    s.(registry := Untrack(s.registry, k))
  }

  function Invalidate(s: State, k: Key, removePassthrough: bool): State {
    var cleared := Clear(s, k, false);
    if removePassthrough then Relinquish(cleared, k) else cleared
  }

  function Cleanup(s: State, k: Key): State {
    Relinquish(Clear(s, k, true), k)
  }

  /** cleanupAll; the pending passthrough marks belong to the interceptors and stay. */
  function CleanupEverything(s: State): State {
    State(EMPTY_CACHE, EMPTY_REGISTRY, s.pending, s.jobs + [ClearAll])
  }

  function WithChain(m: Metadata, certificate: Option<Blob>, chain: Option<Blob>): Metadata {
    m.(certificate := certificate, certificateChain := chain)
  }

  /** updateKeyCertChain. */
  function UpdateChain(c: Cache, k: Key, certificate: Option<Blob>, chain: Option<Blob>): Cache {
    c.(keys := if k in c.keys
               then c.keys[k := c.keys[k].(response := Response(WithChain(c.keys[k].response.metadata, certificate, chain)))]
               else c.keys,
       patched := if k in c.patched
                  then c.patched[k := Response(WithChain(c.patched[k].metadata, certificate, chain))]
                  else c.patched,
       skipLeafHacks := c.skipLeafHacks - {k})
  }
}
