/** The listEntries post-hook: forged aliases of the caller are merged into the backend's sorted list. */
module ListMerge {
  import opened Common
  import opened KeyData
  import opened StableSort

  datatype KeyDescriptor = KeyDescriptor(domain: Int32, nspace: Int64, alias: Option<Utf16>, blob: Option<Bytes>)

  /** A listing reply: its arguments, and the backend's possibly absent list of possibly null entries. */
  datatype Listing = Listing(resultCode: Int32, domain: Int32, batched: bool, startPastAlias: Option<Utf16>,
                             hasException: bool, existing: Option<seq<Option<KeyDescriptor>>>)

  /** Kotlin's compareTo on strings: by UTF-16 code units. */
  predicate AliasLe(a: Utf16, b: Utf16) {
    a == [] || (b != [] && (a[0] < b[0] || (a[0] == b[0] && AliasLe(a[1..], b[1..]))))
  }

  function AliasOf(d: KeyDescriptor): Utf16 {
    if d.alias.Some? then d.alias.value else []
  }

  predicate ByAlias(a: KeyDescriptor, b: KeyDescriptor) {
    AliasLe(AliasOf(a), AliasOf(b))
  }

  lemma {:induction false} AliasTotal(a: Utf16, b: Utf16)
    ensures AliasLe(a, b) || AliasLe(b, a)
    ensures AliasLe(a, b) && AliasLe(b, a) <==> a == b
  {
    if a != [] && b != [] {
      AliasTotal(a[1..], b[1..]);
      assert a == [a[0]] + a[1..] && b == [b[0]] + b[1..];
    }
  }

  lemma {:induction false} AliasTransitive(a: Utf16, b: Utf16, c: Utf16)
    requires AliasLe(a, b) && AliasLe(b, c)
    ensures AliasLe(a, c)
  {
    if a != [] { AliasTransitiveTail(a, b, c); }
  }

  lemma {:induction false} AliasTransitiveTail(a: Utf16, b: Utf16, c: Utf16)
    requires a != [] && AliasLe(a, b) && AliasLe(b, c)
    ensures AliasLe(a, c)
  {
    if a[0] == b[0] == c[0] && a[1..] != [] { AliasTransitiveTail(a[1..], b[1..], c[1..]); }
  }

  lemma AliasesArePreordered()
    ensures TotalPreorder(ByAlias)
  {
    forall a: KeyDescriptor, b: KeyDescriptor ensures ByAlias(a, b) || ByAlias(b, a) {
      AliasTotal(AliasOf(a), AliasOf(b));
    }
    forall a: KeyDescriptor, b: KeyDescriptor, c: KeyDescriptor | ByAlias(a, b) && ByAlias(b, c) ensures ByAlias(a, c) {
      AliasTransitive(AliasOf(a), AliasOf(b), AliasOf(c));
    }
  }

  // ---- the merge, on values ----

  function NonNull(existing: seq<Option<KeyDescriptor>>): seq<KeyDescriptor> {
    if existing == [] then []
    else (if existing[0].Some? then [existing[0].value] else []) + NonNull(existing[1..])
  }

  /** The aliases the backend lists. */
  function Listed(existing: seq<KeyDescriptor>): (aliases: set<Utf16>) {
    if existing == [] then {}
    else (if existing[0].alias.Some? then {existing[0].alias.value} else {}) + Listed(existing[1..])
  }

  function ForgedEntry(uid: Int32, alias: Utf16): KeyDescriptor {
    KeyDescriptor(0, uid, Some(alias), None)
  }

  function Cursor(l: Listing): Option<Utf16> {
    if l.batched then l.startPastAlias else None
  }

  predicate Past(cursor: Option<Utf16>, alias: Utf16) {
    cursor.None? || !AliasLe(alias, cursor.value)
  }

  /** The aliases to add: forged for the caller, past the cursor and not listed. */
  function Missing(keys: set<Key>, uid: Int32, listed: set<Utf16>, cursor: Option<Utf16>): set<Utf16> {
    set k | k in keys && k.uid == uid && Past(cursor, k.alias) && k.alias !in listed :: k.alias
  }

  /** The entries added when the forged keys come in this order. */
  function Added(order: seq<Key>, uid: Int32, listed: set<Utf16>, cursor: Option<Utf16>): seq<KeyDescriptor> {
    if order == [] then []
    else if order[0].uid == uid && Past(cursor, order[0].alias) && order[0].alias !in listed then
      [ForgedEntry(uid, order[0].alias)] + Added(order[1..], uid, listed + {order[0].alias}, cursor)
    else Added(order[1..], uid, listed, cursor)
  }

  predicate Mergeable(l: Listing) {
    l.resultCode == 0 && l.domain == 0 && !l.hasException
  }

  function Existing(l: Listing): seq<KeyDescriptor> {
    NonNull(if l.existing.Some? then l.existing.value else [])
  }

  /** The overriding list, if the reply is overridden. */
  function Merge(l: Listing, order: seq<Key>, uid: Int32): Option<seq<KeyDescriptor>> {
    var existing := Existing(l);
    var added := Added(order, uid, Listed(existing), Cursor(l));
    if !Mergeable(l) || added == [] then None else Some(Sort(existing + added, ByAlias))
  }

  // ---- what the overriding list is ----

  function WithAlias(entries: seq<KeyDescriptor>, alias: Utf16): seq<KeyDescriptor> {
    if entries == [] then []
    else (if AliasOf(entries[0]) == alias then [entries[0]] else []) + WithAlias(entries[1..], alias)
  }

  lemma {:induction false} AliasesTogether(front: seq<KeyDescriptor>, rest: seq<KeyDescriptor>, alias: Utf16)
    ensures WithAlias(front + rest, alias) == WithAlias(front, alias) + WithAlias(rest, alias)
  {
    if front == [] {
      assert front + rest == rest;
    } else {
      assert (front + rest)[1..] == front[1..] + rest;
      AliasesTogether(front[1..], rest, alias);
      Associative(if AliasOf(front[0]) == alias then [front[0]] else [], WithAlias(front[1..], alias), WithAlias(rest, alias));
    }
  }

  lemma {:induction false} RankedIsWithAlias(entries: seq<KeyDescriptor>, d: KeyDescriptor)
    ensures Ranked(entries, ByAlias, d) == WithAlias(entries, AliasOf(d))
  {
    if entries != [] {
      AliasTotal(AliasOf(d), AliasOf(entries[0]));
      RankedIsWithAlias(entries[1..], d);
    }
  }

  /** Whatever the order of the forged keys, each missing alias is added once. */
  lemma {:induction false} AddedAliases(order: seq<Key>, keys: set<Key>, uid: Int32, listed: set<Utf16>,
                                        cursor: Option<Utf16>, alias: Utf16)
    requires forall k :: k in order <==> k in keys
    ensures WithAlias(Added(order, uid, listed, cursor), alias)
         == if alias in Missing(keys, uid, listed, cursor) then [ForgedEntry(uid, alias)] else []
  {
    if order != [] {
      var first, rest := order[0], order[1..];
      var others := set k | k in rest;
      var after := if Key(uid, first.alias) == first && Past(cursor, first.alias) then listed + {first.alias} else listed;
      AddedAliases(rest, others, uid, if first.alias in listed then listed else after, cursor, alias);
      assert keys == others + {first};
      MissingStep(first, others, uid, listed, cursor, alias);
    }
  }

  lemma MissingStep(first: Key, others: set<Key>, uid: Int32, listed: set<Utf16>, cursor: Option<Utf16>, alias: Utf16)
    ensures var adds := first.uid == uid && Past(cursor, first.alias) && first.alias !in listed;
            alias in Missing(others + {first}, uid, listed, cursor)
            <==> (if adds then alias == first.alias || alias in Missing(others, uid, listed + {first.alias}, cursor)
                  else alias in Missing(others, uid, listed, cursor))
  {
    assert alias in Missing(others + {first}, uid, listed, cursor) <==>
           Key(uid, alias) in others + {first} && Past(cursor, alias) && alias !in listed by {
      MissingMeans(others + {first}, uid, listed, cursor, alias);
    }
    MissingMeans(others, uid, listed, cursor, alias);
    MissingMeans(others, uid, listed + {first.alias}, cursor, alias);
    assert first == Key(first.uid, first.alias);
  }

  lemma MissingMeans(keys: set<Key>, uid: Int32, listed: set<Utf16>, cursor: Option<Utf16>, alias: Utf16)
    ensures alias in Missing(keys, uid, listed, cursor)
            <==> Key(uid, alias) in keys && Past(cursor, alias) && alias !in listed
  {
    if Key(uid, alias) in keys && Past(cursor, alias) && alias !in listed {
      assert Key(uid, alias).alias in Missing(keys, uid, listed, cursor);
    }
  }

  /**
   The overriding list is the one list that is sorted by alias and holds, under each alias, the
   backend's entries in their order and then one forged entry if the alias is missing; the order
   in which the forged keys are visited does not matter.
   */
  lemma MergeExactly(l: Listing, order: seq<Key>, keys: set<Key>, uid: Int32, merged: seq<KeyDescriptor>)
    requires forall k :: k in order <==> k in keys
    requires Merge(l, order, uid).Some?
    ensures var missing := Missing(keys, uid, Listed(Existing(l)), Cursor(l));
            merged == Merge(l, order, uid).value
            <==> Sorted(merged, ByAlias)
                 && forall alias: Utf16 :: WithAlias(merged, alias)
                      == WithAlias(Existing(l), alias) + if alias in missing then [ForgedEntry(uid, alias)] else []
  {
    var existing := Existing(l);
    var added, missing := Added(order, uid, Listed(existing), Cursor(l)), Missing(keys, uid, Listed(existing), Cursor(l));
    var result := Merge(l, order, uid).value;
    AliasesArePreordered();
    SortSorted(existing + added, ByAlias);
    forall alias: Utf16
      ensures WithAlias(result, alias)
           == WithAlias(existing, alias) + if alias in missing then [ForgedEntry(uid, alias)] else []
    {
      var d := ForgedEntry(uid, alias);
      SortStable(existing + added, ByAlias, d);
      RankedIsWithAlias(existing + added, d);
      RankedIsWithAlias(result, d);
      AliasesTogether(existing, added, alias);
      AddedAliases(order, keys, uid, Listed(existing), Cursor(l), alias);
    }
    if Sorted(merged, ByAlias)
       && forall alias: Utf16 :: WithAlias(merged, alias)
            == WithAlias(existing, alias) + if alias in missing then [ForgedEntry(uid, alias)] else []
    {
      forall d: KeyDescriptor ensures Ranked(merged, ByAlias, d) == Ranked(result, ByAlias, d) {
        RankedIsWithAlias(merged, d);
        RankedIsWithAlias(result, d);
        assert WithAlias(merged, AliasOf(d)) == WithAlias(result, AliasOf(d));
      }
      SortedUnique(merged, result, ByAlias);
    }
  }

  /** The reply is overridden exactly when it can be merged and some alias is missing. */
  lemma MergesExactlyIfMissing(l: Listing, order: seq<Key>, keys: set<Key>, uid: Int32)
    requires forall k :: k in order <==> k in keys
    ensures Merge(l, order, uid).Some?
            <==> Mergeable(l) && Missing(keys, uid, Listed(Existing(l)), Cursor(l)) != {}
  {
    var listed, cursor := Listed(Existing(l)), Cursor(l);
    var added := Added(order, uid, listed, cursor);
    if added != [] {
      AddedAliases(order, keys, uid, listed, cursor, AliasOf(added[0]));
      assert WithAlias(added, AliasOf(added[0])) != [];
    } else if alias :| alias in Missing(keys, uid, listed, cursor) {
      AddedAliases(order, keys, uid, listed, cursor, alias);
    }
  }

  /** As a multiset: every non-null backend entry, and one entry for each missing alias. */
  lemma MergeContents(l: Listing, order: seq<Key>, keys: set<Key>, uid: Int32)
    requires forall k :: k in order <==> k in keys
    requires Merge(l, order, uid).Some?
    ensures multiset(Merge(l, order, uid).value)
         == multiset(Existing(l)) + multiset(set a | a in Missing(keys, uid, Listed(Existing(l)), Cursor(l)) :: ForgedEntry(uid, a))
  {
    var existing := Existing(l);
    var added := Added(order, uid, Listed(existing), Cursor(l));
    SortKeeps(existing + added, ByAlias);
    var entries := set a | a in Missing(keys, uid, Listed(existing), Cursor(l)) :: ForgedEntry(uid, a);
    forall d: KeyDescriptor ensures multiset(added)[d] == multiset(entries)[d] {
      AddedAliases(order, keys, uid, Listed(existing), Cursor(l), AliasOf(d));
      AddedAreForged(order, uid, Listed(existing), Cursor(l));
      CountWithAlias(added, d);
      assert d in entries <==> d == ForgedEntry(uid, AliasOf(d)) && AliasOf(d) in Missing(keys, uid, Listed(existing), Cursor(l));
    }
    assert multiset(added) == multiset(entries);
  }

  lemma {:induction false} AddedAreForged(order: seq<Key>, uid: Int32, listed: set<Utf16>, cursor: Option<Utf16>)
    ensures forall d :: d in Added(order, uid, listed, cursor) ==> d == ForgedEntry(uid, AliasOf(d))
  {
    if order != [] {
      AddedAreForged(order[1..], uid, listed + {order[0].alias}, cursor);
      AddedAreForged(order[1..], uid, listed, cursor);
    }
  }

  lemma {:induction false} CountWithAlias(entries: seq<KeyDescriptor>, d: KeyDescriptor)
    ensures multiset(entries)[d] == multiset(WithAlias(entries, AliasOf(d)))[d]
  {
    if entries != [] {
      CountWithAlias(entries[1..], d);
      assert entries == [entries[0]] + entries[1..];
    }
  }

  // ---- what the caller sees ----

  /** An alias comes before another where they first differ, or where it ends and the other goes on. */
  ghost predicate Before(a: Utf16, b: Utf16) {
    exists n: nat :: n <= |a| && n < |b| && a[..n] == b[..n] && (n == |a| || a[n] < b[n])
  }

  lemma {:induction false} BeforeExactly(a: Utf16, b: Utf16)
    ensures AliasLe(a, b) <==> a == b || Before(a, b)
  {
    if a == [] {
      if b != [] { assert a[..0] == b[..0] && Before(a, b); }
    } else if b != [] && a[0] == b[0] {
      BeforeExactly(a[1..], b[1..]);
      BeforeStep(a, b);
      assert a == [a[0]] + a[1..] && b == [b[0]] + b[1..];
    } else if b != [] {
      FirstsDecide(a, b);
    }
  }

  lemma BeforeStep(a: Utf16, b: Utf16)
    requires a != [] && b != [] && a[0] == b[0]
    ensures Before(a, b) <==> Before(a[1..], b[1..])
  {
    if n: nat :| n <= |a[1..]| && n < |b[1..]| && a[1..][..n] == b[1..][..n] && (n == |a[1..]| || a[1..][n] < b[1..][n]) {
      assert a[..n + 1] == [a[0]] + a[1..][..n] && b[..n + 1] == [b[0]] + b[1..][..n];
      assert Before(a, b);
    }
    if n: nat :| n <= |a| && n < |b| && a[..n] == b[..n] && (n == |a| || a[n] < b[n]) {
      assert n > 0 && a[1..][..n - 1] == a[..n][1..] && b[1..][..n - 1] == b[..n][1..];
      assert Before(a[1..], b[1..]);
    }
  }

  lemma FirstsDecide(a: Utf16, b: Utf16)
    requires a != [] && b != [] && a[0] != b[0]
    ensures Before(a, b) <==> a[0] < b[0]
  {
    if a[0] < b[0] { assert a[..0] == b[..0] && Before(a, b); }
    forall n: nat | 0 < n <= |a| && n < |b| ensures a[..n] != b[..n] { assert a[..n][0] != b[..n][0]; }
  }

  /** The caller's forged alias belongs on this page of the listing and the backend does not have it. */
  ghost predicate Due(l: Listing, keys: set<Key>, uid: Int32, alias: Utf16) {
    && Key(uid, alias) in keys
    && (l.batched && l.startPastAlias.Some? ==> Before(l.startPastAlias.value, alias))
    && (l.existing.Some? ==> forall e :: e in l.existing.value && e.Some? ==> e.value.alias != Some(alias))
  }

  lemma {:induction false} ListedExactly(existing: seq<Option<KeyDescriptor>>, alias: Utf16)
    ensures alias in Listed(NonNull(existing)) <==> exists e :: e in existing && e.Some? && e.value.alias == Some(alias)
  {
    if existing != [] {
      ListedExactly(existing[1..], alias);
      assert forall e :: e in existing <==> e == existing[0] || e in existing[1..];
      if existing[0].Some? { assert NonNull(existing)[1..] == NonNull(existing[1..]); }
      else { assert NonNull(existing) == NonNull(existing[1..]); }
    }
  }

  lemma DueExactly(l: Listing, keys: set<Key>, uid: Int32, alias: Utf16)
    ensures alias in Missing(keys, uid, Listed(Existing(l)), Cursor(l)) <==> Due(l, keys, uid, alias)
  {
    MissingMeans(keys, uid, Listed(Existing(l)), Cursor(l), alias);
    ListedExactly(if l.existing.Some? then l.existing.value else [], alias);
    if l.batched && l.startPastAlias.Some? {
      AliasTotal(alias, l.startPastAlias.value);
      BeforeExactly(alias, l.startPastAlias.value);
      BeforeExactly(l.startPastAlias.value, alias);
    }
  }

  /**
   A clean listing of the caller's own domain is overridden exactly if some forged alias is due. Under each
   alias it then shows the backend's entries and, if the alias is due, one more: the caller's, without a blob.
   */
  lemma CallerSees(l: Listing, order: seq<Key>, keys: set<Key>, uid: Int32, alias: Utf16)
    requires forall k :: k in order <==> k in keys
    ensures Merge(l, order, uid).Some?
            <==> l.resultCode == 0 && l.domain == 0 && !l.hasException && exists a :: Due(l, keys, uid, a)
    ensures Merge(l, order, uid).Some? ==>
              WithAlias(Merge(l, order, uid).value, alias)
              == WithAlias(Existing(l), alias)
                 + if Due(l, keys, uid, alias) then [KeyDescriptor(0, uid, Some(alias), None)] else []
    ensures Merge(l, order, uid).Some? ==>
              forall i, j :: 0 <= i < j < |Merge(l, order, uid).value| ==>
                !Before(AliasOf(Merge(l, order, uid).value[j]), AliasOf(Merge(l, order, uid).value[i]))
  {
    MergesExactlyIfMissing(l, order, keys, uid);
    forall a ensures a in Missing(keys, uid, Listed(Existing(l)), Cursor(l)) <==> Due(l, keys, uid, a) { DueExactly(l, keys, uid, a); }
    if Merge(l, order, uid).Some? {
      var merged := Merge(l, order, uid).value;
      MergeExactly(l, order, keys, uid, merged);
      forall i, j | 0 <= i < j < |merged| ensures !Before(AliasOf(merged[j]), AliasOf(merged[i])) {
        assert ByAlias(merged[i], merged[j]);
        AliasTotal(AliasOf(merged[i]), AliasOf(merged[j]));
        BeforeExactly(AliasOf(merged[j]), AliasOf(merged[i]));
        NotBeforeItself(AliasOf(merged[i]));
      }
    }
  }

  lemma NotBeforeItself(a: Utf16)
    ensures !Before(a, a)
  {
  }

  // ---- the loop ----

  /** mergeListEntries; `order` is the order in which the map of forged keys is visited. */
  method MergeListEntries(l: Listing, order: seq<Key>, callingUid: Int32) returns (merged: Option<seq<KeyDescriptor>>)
    ensures merged == Merge(l, order, callingUid)
  {
    if l.resultCode != 0 || l.domain != 0 || l.hasException { return None; }
    var existing := Existing(l);
    var existingAliases := Listed(existing);
    var toAdd: seq<KeyDescriptor> := [];
    ghost var goal := Added(order, callingUid, existingAliases, Cursor(l));
    assert order[0..] == order;
    for i := 0 to |order|
      invariant toAdd + Added(order[i..], callingUid, existingAliases, Cursor(l)) == goal
    {
      var k := order[i];
      AddedStep(toAdd, order[i..], callingUid, existingAliases, Cursor(l));
      assert order[i..][1..] == order[i + 1..];
      if k.uid != callingUid { continue; }
      if l.batched && l.startPastAlias.Some? && AliasLe(k.alias, l.startPastAlias.value) { continue; }
      if k.alias in existingAliases { continue; }
      toAdd := toAdd + [ForgedEntry(callingUid, k.alias)];
      existingAliases := existingAliases + {k.alias};
    }
    assert toAdd == goal;
    if |toAdd| == 0 { return None; }
    return Some(Sort(existing + toAdd, ByAlias));
  }

  lemma AddedStep(front: seq<KeyDescriptor>, order: seq<Key>, uid: Int32, listed: set<Utf16>, cursor: Option<Utf16>)
    requires order != []
    ensures var adds := order[0].uid == uid && Past(cursor, order[0].alias) && order[0].alias !in listed;
            front + Added(order, uid, listed, cursor)
            == if adds then front + [ForgedEntry(uid, order[0].alias)] + Added(order[1..], uid, listed + {order[0].alias}, cursor)
               else front + Added(order[1..], uid, listed, cursor)
  {
  }
}
