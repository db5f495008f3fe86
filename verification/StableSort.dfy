/** Stable sorting by a preorder, and what determines its result. */
module StableSort {

  /** A total preorder on all values of a type. */
  ghost predicate TotalPreorder<T(!new)>(le: (T, T) -> bool) {
    && (forall a, b :: le(a, b) || le(b, a))
    && (forall a, b, c :: le(a, b) && le(b, c) ==> le(a, c))
  }

  predicate Same<T>(le: (T, T) -> bool, a: T, b: T) {
    le(a, b) && le(b, a)
  }

  ghost predicate Sorted<T>(s: seq<T>, le: (T, T) -> bool) {
    forall i, j :: 0 <= i < j < |s| ==> le(s[i], s[j])
  }

  /** The elements ranked like `x`, in order. */
  function Ranked<T>(s: seq<T>, le: (T, T) -> bool, x: T): seq<T> {
    if s == [] then []
    else if Same(le, x, s[0]) then [s[0]] + Ranked(s[1..], le, x)
    else Ranked(s[1..], le, x)
  }

  function Insert<T>(x: T, s: seq<T>, le: (T, T) -> bool): seq<T> {
    if s == [] || le(x, s[0]) then [x] + s else [s[0]] + Insert(x, s[1..], le)
  }

  /** Kotlin's sortBy and sortedBy. */
  function Sort<T>(s: seq<T>, le: (T, T) -> bool): seq<T> {
    if s == [] then [] else Insert(s[0], Sort(s[1..], le), le)
  }

  lemma {:induction false} InsertKeeps<T>(x: T, s: seq<T>, le: (T, T) -> bool)
    ensures multiset(Insert(x, s, le)) == multiset{x} + multiset(s)
  {
    if s == [] || le(x, s[0]) {
    } else {
      InsertKeeps(x, s[1..], le);
      assert s == [s[0]] + s[1..];
    }
  }

  lemma {:induction false} SortKeeps<T>(s: seq<T>, le: (T, T) -> bool)
    ensures multiset(Sort(s, le)) == multiset(s)
  {
    if s != [] {
      SortKeeps(s[1..], le);
      InsertKeeps(s[0], Sort(s[1..], le), le);
      assert s == [s[0]] + s[1..];
    }
  }

  lemma {:induction false} InsertSorted<T(!new)>(x: T, s: seq<T>, le: (T, T) -> bool)
    requires TotalPreorder(le) && Sorted(s, le)
    ensures Sorted(Insert(x, s, le), le)
  {
    if s == [] || le(x, s[0]) {
      forall j | 0 <= j < |s| ensures le(x, s[j]) {
        if j > 0 { assert le(s[0], s[j]); }
      }
    } else {
      InsertSorted(x, s[1..], le);
      InsertKeeps(x, s[1..], le);
      var rest := Insert(x, s[1..], le);
      forall j | 0 <= j < |rest| ensures le(s[0], rest[j]) {
        assert rest[j] in multiset(rest);
        assert rest[j] == x || rest[j] in s[1..];
      }
    }
  }

  lemma {:induction false} SortSorted<T(!new)>(s: seq<T>, le: (T, T) -> bool)
    requires TotalPreorder(le)
    ensures Sorted(Sort(s, le), le)
  {
    if s != [] {
      SortSorted(s[1..], le);
      InsertSorted(s[0], Sort(s[1..], le), le);
    }
  }

  lemma SameTransfers<T(!new)>(le: (T, T) -> bool, y: T, a: T, b: T)
    requires TotalPreorder(le)
    ensures Same(le, y, a) && Same(le, y, b) ==> le(a, b)
  {
    assert le(a, y) && le(y, b) ==> le(a, b);
  }

  lemma HeadRanked<T(!new)>(s: seq<T>, le: (T, T) -> bool)
    requires TotalPreorder(le) && s != []
    ensures Ranked(s, le, s[0]) != []
  {
    assert le(s[0], s[0]);
  }

  lemma {:induction false} InsertRanked<T(!new)>(x: T, s: seq<T>, le: (T, T) -> bool, y: T)
    requires TotalPreorder(le)
    ensures Ranked(Insert(x, s, le), le, y) == Ranked([x] + s, le, y)
  {
    if s == [] || le(x, s[0]) {
    } else {
      InsertRanked(x, s[1..], le, y);
      assert ([x] + s[1..])[1..] == s[1..] && ([x] + s)[1..] == s;
      SameTransfers(le, y, x, s[0]);
      assert Insert(x, s, le)[1..] == Insert(x, s[1..], le);
    }
  }

  /** Sorting keeps the order of the elements ranked alike. */
  lemma {:induction false} SortStable<T(!new)>(s: seq<T>, le: (T, T) -> bool, y: T)
    requires TotalPreorder(le)
    ensures Ranked(Sort(s, le), le, y) == Ranked(s, le, y)
  {
    if s != [] {
      SortStable(s[1..], le, y);
      InsertRanked(s[0], Sort(s[1..], le), le, y);
      assert ([s[0]] + Sort(s[1..], le))[1..] == Sort(s[1..], le);
    }
  }

  lemma {:induction false} RankedIn<T>(s: seq<T>, le: (T, T) -> bool, y: T, x: T)
    ensures x in Ranked(s, le, y) <==> x in s && Same(le, y, x)
  {
    if s != [] { RankedIn(s[1..], le, y, x); }
  }

  lemma SmallestFirst<T(!new)>(s: seq<T>, le: (T, T) -> bool, x: T)
    requires TotalPreorder(le) && Sorted(s, le) && x in s
    ensures s != [] && le(s[0], x)
  {
    var i :| 0 <= i < |s| && s[i] == x;
    if i == 0 { assert le(x, x); } else { assert le(s[0], s[i]); }
  }

  /** A sorted sequence is determined by the order within each rank. */
  lemma {:induction false} SortedUnique<T(!new)>(s: seq<T>, t: seq<T>, le: (T, T) -> bool)
    requires TotalPreorder(le) && Sorted(s, le) && Sorted(t, le)
    requires forall y :: Ranked(s, le, y) == Ranked(t, le, y)
    ensures s == t
    decreases |s|
  {
    if s == [] {
      if t != [] { HeadRanked(t, le); }
    } else {
      assert le(s[0], s[0]);
      RankedIn(s, le, s[0], s[0]);
      RankedIn(t, le, s[0], s[0]);
      SmallestFirst(t, le, s[0]);
      assert le(t[0], t[0]);
      RankedIn(t, le, t[0], t[0]);
      RankedIn(s, le, t[0], t[0]);
      SmallestFirst(s, le, t[0]);
      assert Ranked(s, le, s[0])[0] == s[0] && Ranked(t, le, s[0])[0] == t[0];
      forall y ensures Ranked(s[1..], le, y) == Ranked(t[1..], le, y) {
        assert Ranked(s, le, y) == Ranked(t, le, y);
        if Same(le, y, s[0]) {
          assert Ranked(s, le, y)[1..] == Ranked(s[1..], le, y);
          assert Ranked(t, le, y)[1..] == Ranked(t[1..], le, y);
        }
      }
      SortedUnique(s[1..], t[1..], le);
      assert s == [s[0]] + s[1..] && t == [t[0]] + t[1..];
    }
  }
}
