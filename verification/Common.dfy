/** Shared vocabulary: optional values, bytes, fixed-width integers and UTF-16 strings. */
module Common {

  datatype Option<+T> = None | Some(value: T) {
    predicate IsFailure() {
      None?
    }

    function PropagateFailure<U>(): Option<U>
      requires None?
    {
      None
    }

    function Extract(): T
      requires Some?
    {
      value
    }
  }

  type Byte = x: int | 0 <= x < 0x100
  type Bytes = seq<Byte>

  /** A JVM array or list holds fewer than 2^31 elements. */
  type Blob = b: seq<Byte> | |b| < 0x8000_0000 witness []

  type Int32 = x: int | -0x8000_0000 <= x < 0x8000_0000
  type Int64 = x: int | -0x8000_0000_0000_0000 <= x < 0x8000_0000_0000_0000
  type IntList = s: seq<Int32> | |s| < 0x8000_0000 witness []
  type UInt32 = x: int | 0 <= x < 0x1_0000_0000
  type UInt64 = x: int | 0 <= x < 0x1_0000_0000_0000_0000

  /** A UTF-16 code unit; Kotlin strings are sequences of these. */
  type CodeUnit = x: int | 0 <= x < 0x1_0000
  type Utf16 = seq<CodeUnit>

  /** The value of `m` at `k`, if any: the `m[k]` of a Kotlin map. */
  function Lookup<K, V>(m: map<K, V>, k: K): Option<V> {
    if k in m then Some(m[k]) else None
  }

  lemma SliceOfSlice<T>(s: seq<T>, low: nat, high: nat, i: nat, j: nat)
    requires low <= high <= |s| && i <= j <= high - low
    ensures s[low..high][i..j] == s[low + i..low + j]
  {
    var part, direct := s[low..high][i..j], s[low + i..low + j];
    forall k | 0 <= k < j - i ensures part[k] == direct[k] {
      assert part[k] == s[low..high][i + k] == s[low + i + k] == direct[k];
    }
    assert part == direct;
  }

  lemma Associative<T>(a: seq<T>, b: seq<T>, c: seq<T>)
    ensures (a + b) + c == a + (b + c)
  {
  }
}
