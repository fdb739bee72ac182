// Small vocabulary shared by every module of the model.
module Common {

  datatype Option<+T> = None | Some(value: T)

  // One byte of a stream or of a file.
  type Byte = b: int | 0 <= b < 256

  type Bytes = seq<Byte>

  function Min(a: int, b: int): (m: int)
    ensures m <= a && m <= b && (m == a || m == b)
  {
    if a <= b then a else b
  }

  function Max(a: int, b: int): (m: int)
    ensures m >= a && m >= b && (m == a || m == b)
  {
    if a >= b then a else b
  }

  // `bytes` are the bytes of `file` from position `at` on.
  predicate IsSlice(file: Bytes, at: int, bytes: Bytes) {
    0 <= at && at + |bytes| <= |file| && bytes == file[at..at + |bytes|]
  }

  // A part of a slice is a slice.
  lemma SliceOfSlice(file: Bytes, at: int, bytes: Bytes, lo: int, hi: int)
    requires IsSlice(file, at, bytes)
    requires 0 <= lo <= hi <= |bytes|
    ensures IsSlice(file, at + lo, bytes[lo..hi])
  {
    forall k | 0 <= k < hi - lo ensures bytes[lo..hi][k] == file[at + lo..at + hi][k] {
      assert bytes[lo + k] == file[at + lo + k];
    }
    assert bytes[lo..hi] == file[at + lo..at + hi];
  }

  // Two slices that touch make one slice.
  lemma SliceAppend(file: Bytes, at: int, front: Bytes, back: Bytes)
    requires IsSlice(file, at, front) && IsSlice(file, at + |front|, back)
    ensures IsSlice(file, at, front + back)
  {
    assert file[at..at + |front|] + file[at + |front|..at + |front + back|] == file[at..at + |front + back|];
  }

  // The number some bytes stand for, the most significant one first.
  function BigEndian(b: Bytes): nat {
    if b == [] then 0
    else
      var last: int := b[|b| - 1];
      0x100 * BigEndian(b[..|b| - 1]) + last
  }

  // One part after the other.
  function Concat<T>(parts: seq<seq<T>>): seq<T> {
    if parts == [] then [] else parts[0] + Concat(parts[1..])
  }

  function RemoveAt<T>(s: seq<T>, i: nat): (r: seq<T>)
    requires i < |s|
    ensures |r| == |s| - 1
  {
    s[..i] + s[i + 1..]
  }

  lemma RemoveAtMultiset<T>(s: seq<T>, i: nat)
    requires i < |s|
    ensures multiset(RemoveAt(s, i)) + multiset{s[i]} == multiset(s)
    ensures forall x :: x in RemoveAt(s, i) ==> x in s
  {
    assert s == s[..i] + [s[i]] + s[i + 1..];
  }

  lemma MultisetCancel<T>(a: multiset<T>, b: multiset<T>, w: multiset<T>)
    requires a + w == b + w
    ensures a == b
  {
    forall x ensures a[x] == b[x] {
      assert (a + w)[x] == (b + w)[x];
    }
  }
}
