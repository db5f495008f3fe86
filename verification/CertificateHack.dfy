/**
 The rewrite of an attestation extension and of the authorizations beside it: root of trust, OS
 version and patch levels are replaced in one of the two authorization lists, by tag.
 */
module CertificateHack {
  import opened Common
  import opened StableSort

  datatype Asn1 =
    | Integer(n: int)
    | Octets(bytes: Bytes)
    | Boolean(b: bool)
    | Enumerated(ordinal: nat)
    | Sequence(items: seq<Asn1>)
    | Tagged(entry: Entry)
    | Other(encoding: Bytes)

  datatype Entry = Entry(tag: nat, body: Asn1)

  const ROOT_OF_TRUST := 704
  const OS_VERSION := 705
  const OS_PATCHLEVEL := 706
  const VENDOR_PATCHLEVEL := 718
  const BOOT_PATCHLEVEL := 719
  const PATCH_TAGS := {OS_PATCHLEVEL, VENDOR_PATCHLEVEL, BOOT_PATCHLEVEL}

  const DO_NOT_REPORT: Int32 := -1

  /** The patch levels configured for the caller: none keeps the device's own, DO_NOT_REPORT omits it. */
  datatype Overrides = Overrides(os: Option<Int32>, vendor: Option<Int32>, boot: Option<Int32>)

  function OverrideOf(o: Overrides, tag: nat): Option<Int32> {
    if tag == OS_PATCHLEVEL then o.os
    else if tag == VENDOR_PATCHLEVEL then o.vendor
    else if tag == BOOT_PATCHLEVEL then o.boot
    else None
  }

  datatype Device = Device(bootKey: Bytes, bootHash: Option<Bytes>, osVersion: Int32)

  // ---- the rewritten list, on values ----

  predicate ByTag(a: Entry, b: Entry) {
    a.tag <= b.tag
  }

  predicate Stripped(o: Overrides, tag: nat) {
    tag == ROOT_OF_TRUST || tag == OS_VERSION || OverrideOf(o, tag).Some?
  }

  function Kept(entries: seq<Entry>, o: Overrides): seq<Entry> {
    if entries == [] then []
    else (if Stripped(o, entries[0].tag) then [] else [entries[0]]) + Kept(entries[1..], o)
  }

  function PatchEntry(o: Overrides, tag: nat): seq<Entry> {
    match OverrideOf(o, tag)
    case None => []
    case Some(v) => if v == DO_NOT_REPORT then [] else [Entry(tag, Integer(v))]
  }

  function Added(o: Overrides, osVersion: Int32, root: Asn1): seq<Entry> {
    [Entry(OS_VERSION, Integer(osVersion))]
    + PatchEntry(o, OS_PATCHLEVEL) + PatchEntry(o, VENDOR_PATCHLEVEL) + PatchEntry(o, BOOT_PATCHLEVEL)
    + [Entry(ROOT_OF_TRUST, root)]
  }

  function Rebuilt(entries: seq<Entry>, o: Overrides, osVersion: Int32, root: Asn1): seq<Entry> {
    Sort(Kept(entries, o) + Added(o, osVersion, root), ByTag)
  }

  // ---- what the rewritten list is ----

  /** The entries with a tag, in order. */
  function WithTag(entries: seq<Entry>, tag: nat): seq<Entry> {
    if entries == [] then []
    else (if entries[0].tag == tag then [entries[0]] else []) + WithTag(entries[1..], tag)
  }

  /** What the rewritten list is to hold under a tag: replaced, dropped or kept as it was. */
  function Expected(entries: seq<Entry>, o: Overrides, osVersion: Int32, root: Asn1, tag: nat): seq<Entry> {
    if tag == ROOT_OF_TRUST then [Entry(ROOT_OF_TRUST, root)]
    else if tag == OS_VERSION then [Entry(OS_VERSION, Integer(osVersion))]
    else if OverrideOf(o, tag).Some? then PatchEntry(o, tag)
    else WithTag(entries, tag)
  }

  lemma {:induction false} TagsTogether(front: seq<Entry>, rest: seq<Entry>, tag: nat)
    ensures WithTag(front + rest, tag) == WithTag(front, tag) + WithTag(rest, tag)
  {
    if front == [] {
      assert front + rest == rest;
    } else {
      assert (front + rest)[1..] == front[1..] + rest;
      TagsTogether(front[1..], rest, tag);
      Associative(if front[0].tag == tag then [front[0]] else [], WithTag(front[1..], tag), WithTag(rest, tag));
    }
  }

  lemma {:induction false} KeptTags(entries: seq<Entry>, o: Overrides, tag: nat)
    ensures WithTag(Kept(entries, o), tag) == if Stripped(o, tag) then [] else WithTag(entries, tag)
  {
    if entries != [] {
      KeptTags(entries[1..], o, tag);
      if !Stripped(o, entries[0].tag) {
        assert Kept(entries, o)[1..] == Kept(entries[1..], o);
      } else {
        assert Kept(entries, o) == Kept(entries[1..], o);
      }
    }
  }

  lemma PatchTags(o: Overrides, patch: nat, tag: nat)
    ensures WithTag(PatchEntry(o, patch), tag) == if tag == patch then PatchEntry(o, patch) else []
  {
  }

  lemma AddedTags(o: Overrides, osVersion: Int32, root: Asn1, tag: nat)
    ensures WithTag(Added(o, osVersion, root), tag) == if Stripped(o, tag) then Expected([], o, osVersion, root, tag) else []
  {
    var version, trust := [Entry(OS_VERSION, Integer(osVersion))], [Entry(ROOT_OF_TRUST, root)];
    var os, vendor := PatchEntry(o, OS_PATCHLEVEL), PatchEntry(o, VENDOR_PATCHLEVEL);
    var boot := PatchEntry(o, BOOT_PATCHLEVEL);
    TagsTogether(version + os + vendor + boot, trust, tag);
    TagsTogether(version + os + vendor, boot, tag);
    TagsTogether(version + os, vendor, tag);
    TagsTogether(version, os, tag);
    PatchTags(o, OS_PATCHLEVEL, tag);
    PatchTags(o, VENDOR_PATCHLEVEL, tag);
    PatchTags(o, BOOT_PATCHLEVEL, tag);
  }

  lemma {:induction false} RankedIsWithTag(entries: seq<Entry>, e: Entry)
    ensures Ranked(entries, ByTag, e) == WithTag(entries, e.tag)
  {
    if entries != [] { RankedIsWithTag(entries[1..], e); }
  }

  lemma TagsArePreordered()
    ensures TotalPreorder(ByTag)
  {
  }

  lemma RebuiltTags(entries: seq<Entry>, o: Overrides, osVersion: Int32, root: Asn1, tag: nat)
    ensures WithTag(Rebuilt(entries, o, osVersion, root), tag) == Expected(entries, o, osVersion, root, tag)
  {
    var e, all := Entry(tag, root), Kept(entries, o) + Added(o, osVersion, root);
    TagsArePreordered();
    SortStable(all, ByTag, e);
    RankedIsWithTag(all, e);
    RankedIsWithTag(Sort(all, ByTag), e);
    TagsTogether(Kept(entries, o), Added(o, osVersion, root), tag);
    KeptTags(entries, o, tag);
    AddedTags(o, osVersion, root, tag);
  }

  /**
   The rewritten list is the one list that is sorted by tag and holds, under each tag, one root
   of trust, one OS version, each patch level replaced, dropped or kept as its override says,
   and all other entries in their old order.
   */
  lemma RebuiltExactly(entries: seq<Entry>, o: Overrides, osVersion: Int32, root: Asn1, result: seq<Entry>)
    ensures result == Rebuilt(entries, o, osVersion, root)
            <==> Sorted(result, ByTag)
                 && forall tag: nat :: WithTag(result, tag) == Expected(entries, o, osVersion, root, tag)
  {
    var rebuilt := Rebuilt(entries, o, osVersion, root);
    TagsArePreordered();
    SortSorted(Kept(entries, o) + Added(o, osVersion, root), ByTag);
    forall tag: nat ensures WithTag(rebuilt, tag) == Expected(entries, o, osVersion, root, tag) {
      RebuiltTags(entries, o, osVersion, root, tag);
    }
    if Sorted(result, ByTag) && forall tag: nat :: WithTag(result, tag) == Expected(entries, o, osVersion, root, tag) {
      forall e: Entry ensures Ranked(result, ByTag, e) == Ranked(rebuilt, ByTag, e) {
        RankedIsWithTag(result, e);
        RankedIsWithTag(rebuilt, e);
        assert WithTag(result, e.tag) == Expected(entries, o, osVersion, root, e.tag);
      }
      SortedUnique(result, rebuilt, ByTag);
    }
  }

  /** Rewriting a rewritten list changes nothing. */
  lemma RebuiltTwice(entries: seq<Entry>, o: Overrides, osVersion: Int32, root: Asn1)
    ensures var once := Rebuilt(entries, o, osVersion, root); Rebuilt(once, o, osVersion, root) == once
  {
    var once := Rebuilt(entries, o, osVersion, root);
    RebuiltExactly(entries, o, osVersion, root, once);
    forall tag: nat ensures WithTag(once, tag) == Expected(once, o, osVersion, root, tag) {
      assert WithTag(once, tag) == Expected(entries, o, osVersion, root, tag);
    }
    RebuiltExactly(once, o, osVersion, root, once);
  }

  // ---- the extension ----

  const SOFTWARE_ENFORCED := 6
  const TEE_ENFORCED := 7

  /** Some device lists the root of trust in the other list. */
  predicate ContainsRootOfTrust(list: Asn1) {
    list.Sequence? && exists i :: 0 <= i < |list.items| && list.items[i].Tagged? && list.items[i].entry.tag == ROOT_OF_TRUST
  }

  /** The entries of a list, if all its items are tagged. */
  function Entries(items: seq<Asn1>): Option<seq<Entry>> {
    if items == [] then Some([])
    else if !items[0].Tagged? then None
    else
      var rest :- Entries(items[1..]);
      Some([items[0].entry] + rest)
  }

  function Items(entries: seq<Entry>): (items: seq<Asn1>)
    ensures |items| == |entries|
    ensures forall i :: 0 <= i < |entries| ==> items[i] == Tagged(entries[i])
  {
    if entries == [] then [] else [Tagged(entries[0])] + Items(entries[1..])
  }

  /** The last root of trust of a list, and the entries beside it. */
  function RootOf(entries: seq<Entry>): Option<Asn1> {
    if entries == [] then None
    else if entries[|entries| - 1].tag == ROOT_OF_TRUST then Some(entries[|entries| - 1].body)
    else RootOf(entries[..|entries| - 1])
  }

  /** The boot hash of the original root of trust if it has one, else the device's. */
  function BootHash(root: Option<Asn1>, device: Device): Option<Bytes> {
    if root.Some? && root.value.Sequence? && |root.value.items| > 3 && root.value.items[3].Octets?
    then Some(root.value.items[3].bytes)
    else device.bootHash
  }

  function HackedRoot(bootKey: Bytes, hash: Bytes): Asn1 {
    Sequence([Octets(bootKey), Boolean(true), Enumerated(0), Octets(hash)])
  }

  function TeeIndex(encodables: seq<Asn1>): nat
    requires |encodables| > SOFTWARE_ENFORCED
  {
    if ContainsRootOfTrust(encodables[SOFTWARE_ENFORCED]) then SOFTWARE_ENFORCED else TEE_ENFORCED
  }

  /** The entries of the list to rewrite; nothing if the extension does not have the expected shape. */
  function TeeEntries(encodables: seq<Asn1>): Option<seq<Entry>> {
    if |encodables| <= SOFTWARE_ENFORCED || |encodables| <= TeeIndex(encodables) then None
    else if !encodables[TeeIndex(encodables)].Sequence? then None
    else Entries(encodables[TeeIndex(encodables)].items)
  }

  /** The rewritten extension; nothing if rewriting fails and the certificates stay as they were. */
  function HackExtension(encodables: seq<Asn1>, o: Overrides, device: Device): Option<seq<Asn1>> {
    var entries :- TeeEntries(encodables);
    var hash :- BootHash(RootOf(entries), device);
    Some(encodables[TeeIndex(encodables) :=
           Sequence(Items(Rebuilt(entries, o, device.osVersion, HackedRoot(device.bootKey, hash))))])
  }

  lemma {:induction false} EntriesOfItems(entries: seq<Entry>)
    ensures Entries(Items(entries)) == Some(entries)
  {
    if entries != [] {
      EntriesOfItems(entries[1..]);
      assert Items(entries)[1..] == Items(entries[1..]);
      assert entries == [entries[0]] + entries[1..];
    }
  }

  lemma {:induction false} RootIsLast(entries: seq<Entry>)
    ensures var roots := WithTag(entries, ROOT_OF_TRUST);
            RootOf(entries) == if roots == [] then None else Some(roots[|roots| - 1].body)
    decreases |entries|
  {
    if entries != [] {
      var front, last := entries[..|entries| - 1], entries[|entries| - 1];
      RootIsLast(front);
      assert entries == front + [last];
      TagsTogether(front, [last], ROOT_OF_TRUST);
    }
  }

  lemma {:induction false} TagIsListed(entries: seq<Entry>, tag: nat)
    ensures WithTag(entries, tag) != [] <==> exists i :: 0 <= i < |entries| && entries[i].tag == tag
  {
    if entries != [] {
      TagIsListed(entries[1..], tag);
      if i :| 0 <= i < |entries| && entries[i].tag == tag {
        if i > 0 { assert entries[1..][i - 1].tag == tag; }
      }
      if i :| 0 <= i < |entries[1..]| && entries[1..][i].tag == tag { assert entries[i + 1].tag == tag; }
    }
  }

  /** A rewritten list has one root of trust, the new one, and a boot hash that is found again. */
  lemma RebuiltRoot(entries: seq<Entry>, o: Overrides, device: Device, hash: Bytes)
    ensures var rebuilt := Rebuilt(entries, o, device.osVersion, HackedRoot(device.bootKey, hash));
            && ContainsRootOfTrust(Sequence(Items(rebuilt)))
            && Entries(Items(rebuilt)) == Some(rebuilt)
            && BootHash(RootOf(rebuilt), device) == Some(hash)
  {
    var root := HackedRoot(device.bootKey, hash);
    var rebuilt := Rebuilt(entries, o, device.osVersion, root);
    RebuiltTags(entries, o, device.osVersion, root, ROOT_OF_TRUST);
    EntriesOfItems(rebuilt);
    RootIsLast(rebuilt);
    TagIsListed(rebuilt, ROOT_OF_TRUST);
    var i :| 0 <= i < |rebuilt| && rebuilt[i].tag == ROOT_OF_TRUST;
    assert Items(rebuilt)[i] == Tagged(rebuilt[i]);
  }

  /** The rewritten extension still has its root of trust in the same list, with the same boot hash. */
  lemma RewrittenShape(encodables: seq<Asn1>, o: Overrides, device: Device, entries: seq<Entry>, hash: Bytes)
    requires TeeEntries(encodables) == Some(entries) && BootHash(RootOf(entries), device) == Some(hash)
    ensures var rebuilt := Rebuilt(entries, o, device.osVersion, HackedRoot(device.bootKey, hash));
            var again := encodables[TeeIndex(encodables) := Sequence(Items(rebuilt))];
            && TeeIndex(again) == TeeIndex(encodables)
            && TeeEntries(again) == Some(rebuilt) && BootHash(RootOf(rebuilt), device) == Some(hash)
  {
    RebuiltRoot(entries, o, device, hash);
  }

  /** A second rewrite of the extension changes nothing, whatever list the root of trust was in. */
  lemma HackTwice(encodables: seq<Asn1>, o: Overrides, device: Device)
    requires HackExtension(encodables, o, device).Some?
    ensures var again := HackExtension(encodables, o, device).value; HackExtension(again, o, device) == Some(again)
  {
    var entries, again := TeeEntries(encodables).value, HackExtension(encodables, o, device).value;
    var hash := BootHash(RootOf(entries), device).value;
    RewrittenShape(encodables, o, device, entries, hash);
    RebuiltTwice(entries, o, device.osVersion, HackedRoot(device.bootKey, hash));
    assert again == again[TeeIndex(encodables) := again[TeeIndex(encodables)]];
  }

  /** What a root of trust says, item by item. */
  predicate SaysOf(root: Asn1, bootKey: Bytes, locked: bool, state: nat, hash: Bytes) {
    && root.Sequence? && |root.items| == 4
    && root.items[0] == Octets(bootKey) && root.items[1] == Boolean(locked)
    && root.items[2] == Enumerated(state) && root.items[3] == Octets(hash)
  }

  /** The list that has a root of trust, the software one before the other, which is taken if neither has. */
  predicate Chosen(encodables: seq<Asn1>, i: nat) {
    && |encodables| > i && i in {6, 7}
    && (i == 6 <==> encodables[6].Sequence?
                    && exists j :: 0 <= j < |encodables[6].items| && encodables[6].items[j].Tagged?
                                   && encodables[6].items[j].entry.tag == 704)
  }

  /**
   An extension is rewritten exactly if the list that is chosen is one of tagged entries and there is a
   boot hash. Only that list changes; its one root of trust then says: the device's boot key, locked,
   verified, and the original's own boot hash or else the device's. Its OS version is the device's.
   */
  lemma RewrittenSays(encodables: seq<Asn1>, o: Overrides, device: Device, i: nat)
    requires Chosen(encodables, i)
    ensures HackExtension(encodables, o, device).Some?
            <==> encodables[i].Sequence? && (forall item :: item in encodables[i].items ==> item.Tagged?)
                 && BootHash(LastRoot(encodables[i]), device).Some?
    ensures HackExtension(encodables, o, device).Some? ==>
              var hacked := HackExtension(encodables, o, device).value;
              && |hacked| == |encodables| && (forall j :: 0 <= j < |hacked| && j != i ==> hacked[j] == encodables[j])
              && hacked[i].Sequence? && Entries(hacked[i].items).Some?
              && var entries := Entries(hacked[i].items).value;
                 && |WithTag(entries, 704)| == 1
                 && SaysOf(WithTag(entries, 704)[0].body, device.bootKey, true, 0, BootHash(LastRoot(encodables[i]), device).value)
                 && WithTag(entries, 705) == [Entry(705, Integer(device.osVersion))]
  {
    assert TeeIndex(encodables) == i;
    if encodables[i].Sequence? {
      EntriesExactly(encodables[i].items);
      if Entries(encodables[i].items).Some? {
        var entries := Entries(encodables[i].items).value;
        RootIsLast(entries);
        if BootHash(RootOf(entries), device).Some? {
          RebuiltSays(entries, o, device, BootHash(RootOf(entries), device).value);
        }
      }
    }
  }

  lemma RebuiltSays(entries: seq<Entry>, o: Overrides, device: Device, hash: Bytes)
    ensures var rebuilt := Rebuilt(entries, o, device.osVersion, HackedRoot(device.bootKey, hash));
            && Entries(Items(rebuilt)) == Some(rebuilt) && |WithTag(rebuilt, 704)| == 1
            && SaysOf(WithTag(rebuilt, 704)[0].body, device.bootKey, true, 0, hash)
            && WithTag(rebuilt, 705) == [Entry(705, Integer(device.osVersion))]
  {
    var root := HackedRoot(device.bootKey, hash);
    RebuiltTags(entries, o, device.osVersion, root, 704);
    RebuiltTags(entries, o, device.osVersion, root, 705);
    EntriesOfItems(Rebuilt(entries, o, device.osVersion, root));
  }

  /** The last root of trust of a list, if the list can be read. */
  function LastRoot(list: Asn1): Option<Asn1> {
    if !list.Sequence? || Entries(list.items).None? then None
    else
      var roots := WithTag(Entries(list.items).value, 704);
      if roots == [] then None else Some(roots[|roots| - 1].body)
  }

  lemma {:induction false} EntriesExactly(items: seq<Asn1>)
    ensures Entries(items).Some? <==> forall item :: item in items ==> item.Tagged?
  {
    if items != [] {
      EntriesExactly(items[1..]);
      assert forall item :: item in items <==> item == items[0] || item in items[1..];
    }
  }

  /** The hash of a root of trust is its fourth item, if that is a text of bytes; else the device's own is taken. */
  lemma HashExactly(root: Option<Asn1>, device: Device, hash: Bytes)
    ensures BootHash(root, device) == Some(hash)
            <==> (exists items: seq<Asn1> :: root == Some(Sequence(items)) && |items| >= 4 && items[3] == Octets(hash))
                 || (device.bootHash == Some(hash)
                     && !exists items: seq<Asn1> :: root == Some(Sequence(items)) && |items| >= 4 && items[3].Octets?)
  {
    if root.Some? && root.value.Sequence? { assert root == Some(Sequence(root.value.items)); }
  }

  // ---- the authorizations beside it ----

  datatype ParameterValue = IntegerValue(n: int) | OtherValue(bytes: Bytes)

  datatype Authorization = Authorization(securityLevel: Int32, tag: Int32, value: ParameterValue)

  /** Authorizations carry the type of the value above the tag number: an unsigned integer. */
  const UINT_TYPE := 0x3000_0000

  function PatchAuthorizations(authorizations: seq<Authorization>, o: Overrides): seq<Authorization> {
    if authorizations == [] then [] else PatchOne(authorizations[0], o) + PatchAuthorizations(authorizations[1..], o)
  }

  function PatchOne(a: Authorization, o: Overrides): seq<Authorization> {
    if a.tag - UINT_TYPE !in PATCH_TAGS then [a]
    else match OverrideOf(o, a.tag - UINT_TYPE)
         case None => [a]
         case Some(v) => if v == DO_NOT_REPORT then [] else [a.(value := IntegerValue(v))]
  }

  /** The numbers a list reports under a tag; what is not a number is reported as nothing. */
  function Reported(entries: seq<Entry>, tag: nat): seq<Option<int>> {
    if entries == [] then []
    else (if entries[0].tag != tag then [] else [if entries[0].body.Integer? then Some(entries[0].body.n) else None])
         + Reported(entries[1..], tag)
  }

  function ReportedBy(authorizations: seq<Authorization>, tag: nat): seq<Option<int>> {
    if authorizations == [] then []
    else ReportOf(authorizations[0], tag) + ReportedBy(authorizations[1..], tag)
  }

  lemma {:induction false} ReportedWithTag(entries: seq<Entry>, tag: nat)
    ensures Reported(entries, tag) == Reported(WithTag(entries, tag), tag)
  {
    if entries != [] {
      ReportedWithTag(entries[1..], tag);
      if entries[0].tag == tag { assert WithTag(entries, tag)[1..] == WithTag(entries[1..], tag); }
      else { assert WithTag(entries, tag) == WithTag(entries[1..], tag); }
    }
  }

  function Repeated(v: int, n: nat): (r: seq<Option<int>>)
    ensures |r| == n
  {
    if n == 0 then [] else [Some(v)] + Repeated(v, n - 1)
  }

  /** An override replaces every authorization of its tag, drops every one, or leaves them all. */
  lemma {:induction false} PatchedReports(authorizations: seq<Authorization>, o: Overrides, tag: nat)
    requires tag in PATCH_TAGS
    ensures ReportedBy(PatchAuthorizations(authorizations, o), tag)
         == match OverrideOf(o, tag)
            case None => ReportedBy(authorizations, tag)
            case Some(v) => if v == DO_NOT_REPORT then [] else Repeated(v, |ReportedBy(authorizations, tag)|)
  {
    if authorizations != [] {
      var rest := authorizations[1..];
      PatchedReports(rest, o, tag);
      ReportsTogether(PatchOne(authorizations[0], o), PatchAuthorizations(rest, o), tag);
      OneReports(authorizations[0], o, tag);
    }
  }

  /** The authorizations of other tags stay, as they were and in order; those of a patch tag keep their place and level. */
  lemma {:induction false} OthersStay(authorizations: seq<Authorization>, o: Overrides)
    ensures Unpatched(PatchAuthorizations(authorizations, o)) == Unpatched(authorizations)
    ensures forall a :: a in PatchAuthorizations(authorizations, o) ==>
              exists b :: b in authorizations && a.tag == b.tag && a.securityLevel == b.securityLevel
  {
    if authorizations != [] {
      OthersStay(authorizations[1..], o);
      UnpatchedTogether(PatchOne(authorizations[0], o), PatchAuthorizations(authorizations[1..], o));
      forall a | a in PatchAuthorizations(authorizations, o)
        ensures exists b :: b in authorizations && a.tag == b.tag && a.securityLevel == b.securityLevel
      {
        if a in PatchOne(authorizations[0], o) {
          assert authorizations[0] in authorizations;
        } else {
          var b :| b in authorizations[1..] && a.tag == b.tag && a.securityLevel == b.securityLevel;
          assert b in authorizations;
        }
      }
    }
  }

  /** The authorizations that are not of a patch level. */
  function Unpatched(authorizations: seq<Authorization>): seq<Authorization> {
    if authorizations == [] then []
    else (if authorizations[0].tag - 0x3000_0000 in {706, 718, 719} then [] else [authorizations[0]]) + Unpatched(authorizations[1..])
  }

  lemma {:induction false} UnpatchedTogether(front: seq<Authorization>, rest: seq<Authorization>)
    ensures Unpatched(front + rest) == Unpatched(front) + Unpatched(rest)
  {
    if front == [] {
      assert front + rest == rest;
    } else {
      assert (front + rest)[1..] == front[1..] + rest;
      UnpatchedTogether(front[1..], rest);
      Associative(if front[0].tag - 0x3000_0000 in {706, 718, 719} then [] else [front[0]], Unpatched(front[1..]), Unpatched(rest));
    }
  }

  function ReportOf(a: Authorization, tag: nat): seq<Option<int>> {
    if a.tag - UINT_TYPE != tag then [] else [if a.value.IntegerValue? then Some(a.value.n) else None]
  }

  lemma {:induction false} ReportsTogether(front: seq<Authorization>, rest: seq<Authorization>, tag: nat)
    ensures ReportedBy(front + rest, tag) == ReportedBy(front, tag) + ReportedBy(rest, tag)
  {
    if front == [] {
      assert front + rest == rest;
    } else {
      assert (front + rest)[1..] == front[1..] + rest;
      ReportsTogether(front[1..], rest, tag);
      Associative(ReportOf(front[0], tag), ReportedBy(front[1..], tag), ReportedBy(rest, tag));
    }
  }

  lemma OneReports(a: Authorization, o: Overrides, tag: nat)
    requires tag in PATCH_TAGS
    ensures ReportedBy(PatchOne(a, o), tag)
         == match OverrideOf(o, tag)
            case None => ReportOf(a, tag)
            case Some(v) => if v == DO_NOT_REPORT then [] else Repeated(v, |ReportOf(a, tag)|)
  {
    if a.tag - UINT_TYPE == tag && OverrideOf(o, tag).Some? {
      var v := OverrideOf(o, tag).value;
      assert Repeated(v, 1) == [Some(v)];
    }
  }

  /**
   The two rewrites of lists that agree on a patch tag agree on it afterwards exactly when its
   override is not a value or the tag occurs exactly once: the extension reports an injected
   value once in any case, the authorizations once for each occurrence.
   */
  lemma RewritesAgreeExactly(entries: seq<Entry>, authorizations: seq<Authorization>, o: Overrides, osVersion: Int32,
                             root: Asn1, tag: nat)
    requires tag in PATCH_TAGS && Reported(entries, tag) == ReportedBy(authorizations, tag)
    ensures Reported(Rebuilt(entries, o, osVersion, root), tag) == ReportedBy(PatchAuthorizations(authorizations, o), tag)
            <==> OverrideOf(o, tag) in {None, Some(DO_NOT_REPORT)} || |ReportedBy(authorizations, tag)| == 1
  {
    RebuiltReports(entries, o, osVersion, root, tag);
    PatchedReports(authorizations, o, tag);
    if ReportedBy(authorizations, tag) != [] && OverrideOf(o, tag).Some? {
      var n, v := |ReportedBy(authorizations, tag)|, OverrideOf(o, tag).value;
      assert Repeated(v, n) == [Some(v)] + Repeated(v, n - 1);
      if n == 1 { assert Repeated(v, n) == [Some(v)]; }
    }
  }

  lemma RebuiltReports(entries: seq<Entry>, o: Overrides, osVersion: Int32, root: Asn1, tag: nat)
    requires tag in PATCH_TAGS
    ensures Reported(Rebuilt(entries, o, osVersion, root), tag)
         == match OverrideOf(o, tag)
            case None => Reported(entries, tag)
            case Some(v) => if v == DO_NOT_REPORT then [] else [Some(v)]
  {
    RebuiltTags(entries, o, osVersion, root, tag);
    ReportedWithTag(Rebuilt(entries, o, osVersion, root), tag);
    ReportedWithTag(entries, tag);
  }

  // ---- in place ----

  /** hackAttestExtension: overwrites one list of the extension; fails without a boot hash. */
  method HackAttestExtension(originalRootOfTrust: Option<Asn1>, vector: seq<Entry>, originalEncodables: array<Asn1>,
                             teeIndex: nat, o: Overrides, device: Device) returns (ok: bool)
    requires teeIndex < originalEncodables.Length
    modifies originalEncodables
    ensures match BootHash(originalRootOfTrust, device)
            case None => !ok && originalEncodables[..] == old(originalEncodables[..])
            case Some(hash) =>
              && ok
              && originalEncodables[..] == old(originalEncodables[..])[teeIndex :=
                   Sequence(Items(Rebuilt(vector, o, device.osVersion, HackedRoot(device.bootKey, hash))))]
  {
    var verifiedBootHash: Option<Bytes> := None;
    if originalRootOfTrust.Some? && originalRootOfTrust.value.Sequence? {
      var elements := originalRootOfTrust.value.items;
      if |elements| > 3 && elements[3].Octets? { verifiedBootHash := Some(elements[3].bytes); }
    }
    if verifiedBootHash.None? { verifiedBootHash := device.bootHash; }
    if verifiedBootHash.None? { return false; }
    var hackedRootOfTrust := HackedRoot(device.bootKey, verifiedBootHash.value);
    var rebuilt := Rebuild(vector, o, device.osVersion, hackedRootOfTrust);
    originalEncodables[teeIndex] := Sequence(Items(rebuilt));
    return true;
  }

  /** The list hackAttestExtension fills and sorts. */
  method Rebuild(vector: seq<Entry>, o: Overrides, osVersion: Int32, hackedRootOfTrust: Asn1) returns (rebuilt: seq<Entry>)
    ensures rebuilt == Rebuilt(vector, o, osVersion, hackedRootOfTrust)
  {
    rebuilt := [];
    assert vector[0..] == vector;
    for i := 0 to |vector|
      invariant rebuilt + Kept(vector[i..], o) == Kept(vector, o)
    {
      var obj := vector[i];
      KeptStep(rebuilt, vector[i..], o);
      assert vector[i..][1..] == vector[i + 1..];
      if obj.tag == ROOT_OF_TRUST || obj.tag == OS_VERSION { continue; }
      if obj.tag == OS_PATCHLEVEL && o.os.Some? { continue; }
      if obj.tag == VENDOR_PATCHLEVEL && o.vendor.Some? { continue; }
      if obj.tag == BOOT_PATCHLEVEL && o.boot.Some? { continue; }
      rebuilt := rebuilt + [obj];
    }
    assert rebuilt == Kept(vector, o);
    var added := [Entry(OS_VERSION, Integer(osVersion))];
    if o.os.Some? && o.os.value != DO_NOT_REPORT { added := added + [Entry(OS_PATCHLEVEL, Integer(o.os.value))]; }
    if o.vendor.Some? && o.vendor.value != DO_NOT_REPORT {
      added := added + [Entry(VENDOR_PATCHLEVEL, Integer(o.vendor.value))];
    }
    if o.boot.Some? && o.boot.value != DO_NOT_REPORT {
      added := added + [Entry(BOOT_PATCHLEVEL, Integer(o.boot.value))];
    }
    added := added + [Entry(ROOT_OF_TRUST, hackedRootOfTrust)];
    assert added == Added(o, osVersion, hackedRootOfTrust);
    rebuilt := Sort(rebuilt + added, ByTag);
  }

  lemma KeptStep(front: seq<Entry>, entries: seq<Entry>, o: Overrides)
    requires entries != []
    ensures front + Kept(entries, o)
         == (if Stripped(o, entries[0].tag) then front else front + [entries[0]]) + Kept(entries[1..], o)
  {
  }

  /** hackLeaf on the extension: finds the list, takes its root of trust out, and rewrites it. */
  method HackLeaf(encodables: array<Asn1>, o: Overrides, device: Device) returns (ok: bool)
    modifies encodables
    ensures match HackExtension(old(encodables[..]), o, device)
            case None => !ok && encodables[..] == old(encodables[..])
            case Some(hacked) => ok && encodables[..] == hacked
  {
    if encodables.Length <= SOFTWARE_ENFORCED { return false; }
    var teeIndex := if ContainsRootOfTrust(encodables[SOFTWARE_ENFORCED]) then SOFTWARE_ENFORCED else TEE_ENFORCED;
    if encodables.Length <= teeIndex || !encodables[teeIndex].Sequence? { return false; }
    var teeEnforced := encodables[teeIndex].items;
    var split, rootOfTrust, vector := SplitTee(encodables[teeIndex].items);
    if !split { return false; }
    UnrootedRebuilt(Entries(encodables[teeIndex].items).value, o);
    ok := HackAttestExtension(rootOfTrust, vector, encodables, teeIndex, o, device);
  }

  /** The loop that takes the root of trust out of a list; fails on an item that is not tagged. */
  method SplitTee(teeEnforced: seq<Asn1>) returns (ok: bool, rootOfTrust: Option<Asn1>, vector: seq<Entry>)
    ensures ok == Entries(teeEnforced).Some?
    ensures ok ==> var entries := Entries(teeEnforced).value; rootOfTrust == RootOf(entries) && vector == Unrooted(entries)
  {
    ok, rootOfTrust, vector := true, None, [];
    ghost var seen: seq<Entry> := [];
    assert teeEnforced[0..] == teeEnforced;
    if Entries(teeEnforced).Some? { assert seen + Entries(teeEnforced).value == Entries(teeEnforced).value; }
    for i := 0 to |teeEnforced|
      invariant ok && Entries(teeEnforced) == EntriesAfter(seen, Entries(teeEnforced[i..]))
      invariant rootOfTrust == RootOf(seen) && vector == Unrooted(seen)
    {
      EntriesStep(seen, teeEnforced[i..]);
      assert teeEnforced[i..][1..] == teeEnforced[i + 1..];
      if !teeEnforced[i].Tagged? { return false, None, []; }
      var entry := teeEnforced[i].entry;
      UnrootedStep(seen, entry);
      RootStep(seen, entry);
      seen := seen + [entry];
      if entry.tag == ROOT_OF_TRUST { rootOfTrust := Some(entry.body); } else { vector := vector + [entry]; }
    }
    assert seen + [] == seen;
  }

  ghost function EntriesAfter(front: seq<Entry>, rest: Option<seq<Entry>>): Option<seq<Entry>> {
    if rest.None? then None else Some(front + rest.value)
  }

  lemma EntriesStep(front: seq<Entry>, items: seq<Asn1>)
    requires items != []
    ensures EntriesAfter(front, Entries(items))
         == if items[0].Tagged? then EntriesAfter(front + [items[0].entry], Entries(items[1..])) else None
  {
    if items[0].Tagged? && Entries(items[1..]).Some? {
      assert front + ([items[0].entry] + Entries(items[1..]).value) == (front + [items[0].entry]) + Entries(items[1..]).value;
    }
  }

  /** A list without its roots of trust. */
  function Unrooted(entries: seq<Entry>): seq<Entry> {
    if entries == [] then []
    else (if entries[0].tag == ROOT_OF_TRUST then [] else [entries[0]]) + Unrooted(entries[1..])
  }

  lemma {:induction false} UnrootedStep(front: seq<Entry>, e: Entry)
    ensures Unrooted(front + [e]) == Unrooted(front) + if e.tag == ROOT_OF_TRUST then [] else [e]
  {
    if front == [] {
      assert [] + [e] == [e];
    } else {
      UnrootedStep(front[1..], e);
      assert (front + [e])[1..] == front[1..] + [e];
      Associative(if front[0].tag == ROOT_OF_TRUST then [] else [front[0]], Unrooted(front[1..]),
                  if e.tag == ROOT_OF_TRUST then [] else [e]);
    }
  }

  lemma RootStep(front: seq<Entry>, e: Entry)
    ensures RootOf(front + [e]) == if e.tag == ROOT_OF_TRUST then Some(e.body) else RootOf(front)
  {
    assert (front + [e])[..|front|] == front;
  }

  lemma {:induction false} UnrootedRebuilt(entries: seq<Entry>, o: Overrides)
    ensures Kept(Unrooted(entries), o) == Kept(entries, o)
  {
    if entries != [] {
      UnrootedRebuilt(entries[1..], o);
      if entries[0].tag == ROOT_OF_TRUST { assert Unrooted(entries) == Unrooted(entries[1..]); }
      else { assert Unrooted(entries)[1..] == Unrooted(entries[1..]); }
    }
  }
}
