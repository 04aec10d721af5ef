/**
  The byte buffer `Data` of Resources/Data.swift: a wrapper around an array of bytes whose
  collection methods edit that array in place.

  Swift's `Data` is a struct, so a copy never shares edits with the original; the model is a
  class whose methods update its `bytes` field, and the operations that produce a new value
  (`+`, `bufferWithSize`) return a fresh object. The array methods' own preconditions (an
  index inside the array, a non-negative count) trap in Swift and are `requires` here. The
  specification functions below state what each edit does to the byte sequence.
*/
module ByteData {

  newtype Byte = x: int | 0 <= x < 256

  // ---------------------------------------------------------------------------
  // The byte sequence after an edit

  /** The bytes of `s` with those in `lo..hi` replaced by `elements`: everything before `lo`
      is kept in place, `elements` follow, and everything from `hi` on is shifted to follow
      them. */
  function Replaced(s: seq<Byte>, lo: nat, hi: nat, elements: seq<Byte>): (r: seq<Byte>)
    requires lo <= hi <= |s|
    ensures |r| == |s| - (hi - lo) + |elements|
    ensures forall j :: 0 <= j < lo ==> r[j] == s[j]
    ensures forall j :: 0 <= j < |elements| ==> r[lo + j] == elements[j]
    ensures forall j :: hi <= j < |s| ==> r[j - (hi - lo) + |elements|] == s[j]
  {
    s[..lo] + elements + s[hi..]
  }

  /** `count` copies of `value`. */
  function Repeated(value: Byte, count: nat): (r: seq<Byte>)
    ensures |r| == count
    ensures forall j :: 0 <= j < |r| ==> r[j] == value
  {
    seq(count, _ => value)
  }

  /** `==` on `Data`: the same number of bytes, and the same byte at every position. */
  function SameBytes(a: seq<Byte>, b: seq<Byte>): (r: bool)
    ensures r <==> |a| == |b| && forall j :: 0 <= j < |a| ==> a[j] == b[j]
  {
    a == b
  }

  /** Removing the byte just inserted at `i` gives back the original bytes. */
  lemma InsertThenRemove(s: seq<Byte>, i: nat, x: Byte)
    requires i <= |s|
    ensures Replaced(s, i, i, [x])[i] == x
    ensures Replaced(Replaced(s, i, i, [x]), i, i + 1, []) == s
  {
    var t := Replaced(s, i, i, [x]);
    assert t[..i] == s[..i] && t[i + 1..] == s[i..];
    assert s[..i] + s[i..] == s;
  }

  /** Re-inserting the byte removed at `i` at the same place gives back the original bytes. */
  lemma RemoveThenInsert(s: seq<Byte>, i: nat)
    requires i < |s|
    ensures Replaced(Replaced(s, i, i + 1, []), i, i, [s[i]]) == s
  {
    var t := Replaced(s, i, i + 1, []);
    assert t[..i] == s[..i] && t[i..] == s[i + 1..];
    assert s[..i] + [s[i]] + s[i + 1..] == s;
  }

  /** Writing a range back with what it held changes nothing, and reading a range just
      written gives what was written. */
  lemma RangeGetSet(s: seq<Byte>, lo: nat, hi: nat, elements: seq<Byte>)
    requires lo <= hi <= |s|
    ensures Replaced(s, lo, hi, s[lo..hi]) == s
    ensures Replaced(s, lo, hi, elements)[lo..lo + |elements|] == elements
  {
    assert s[..lo] + s[lo..hi] + s[hi..] == s;
  }

  /** Appending is replacing the empty range at the end; `removeFirst(n)` is replacing the
      first `n` bytes by nothing. */
  lemma EndsAreRanges(s: seq<Byte>, elements: seq<Byte>, n: nat)
    requires n <= |s|
    ensures Replaced(s, |s|, |s|, elements) == s + elements
    ensures Replaced(s, 0, n, []) == s[n..]
  {
    assert s[|s|..] == [] && s[..|s|] == s;
    assert s[..0] == [];
  }

  // ---------------------------------------------------------------------------
  // The buffer

  class Data {
    var bytes: seq<Byte>

    /** `init(_ bytes:)` and the array literal: the buffer holds exactly the given bytes. */
    constructor (bytes: seq<Byte>)
      ensures this.bytes == bytes
    {
      this.bytes := bytes;
    }

    /** `init()` and the nil literal: no bytes. */
    constructor Empty()
      ensures bytes == []
    {
      bytes := [];
    }

    /** `init(repeating:count:)`; a negative count traps. */
    constructor Repeating(value: Byte, count: int)
      requires count >= 0
      ensures bytes == Repeated(value, count)
    {
      bytes := Repeated(value, count);
    }

    /** `count`: the number of bytes. */
    function Count(): (n: nat)
      reads this
      ensures n == |bytes|
    {
      |bytes|
    }

    /** The subscript getter: the byte at a position inside the buffer. */
    function At(i: int): (b: Byte)
      reads this
      requires 0 <= i < |bytes|
      ensures b == bytes[i]
    {
      bytes[i]
    }

    /** The range subscript getter: the bytes at positions `lo..hi`, in order. */
    function Slice(lo: int, hi: int): (r: seq<Byte>)
      reads this
      requires 0 <= lo <= hi <= |bytes|
      ensures |r| == hi - lo
      ensures forall j :: 0 <= j < |r| ==> r[j] == bytes[lo + j]
    {
      bytes[lo..hi]
    }

    /** The subscript setter: position `i` holds `value`, and every other position and the
        count are as they were. */
    method SetAt(i: int, value: Byte)
      requires 0 <= i < |bytes|
      modifies this
      ensures |bytes| == |old(bytes)| && bytes[i] == value
      ensures forall j :: 0 <= j < |bytes| && j != i ==> bytes[j] == old(bytes)[j]
    {
      bytes := bytes[i := value];
    }

    /** `replaceSubrange(_:with:)`. */
    method ReplaceSubrange(lo: int, hi: int, elements: seq<Byte>)
      requires 0 <= lo <= hi <= |bytes|
      modifies this
      ensures bytes == Replaced(old(bytes), lo, hi, elements)
    {
      bytes := bytes[..lo] + elements + bytes[hi..];
    }

    /** The range subscript setter: the range is replaced by the slice, which may have a
        different length. */
    method SetSlice(lo: int, hi: int, slice: seq<Byte>)
      requires 0 <= lo <= hi <= |bytes|
      modifies this
      ensures bytes == Replaced(old(bytes), lo, hi, slice)
    {
      ReplaceSubrange(lo, hi, slice);
    }

    /** `reserveCapacity(_:)`: capacity is not modelled, and the bytes are unchanged. */
    method ReserveCapacity(n: int)
      modifies this
      ensures bytes == old(bytes)
    {
    }

    /** `append(_:)`: `x` at the end, one more byte, the earlier bytes unchanged. */
    method Append(x: Byte)
      modifies this
      ensures |bytes| == |old(bytes)| + 1 && bytes[|bytes| - 1] == x
      ensures bytes[..|old(bytes)|] == old(bytes)
    {
      bytes := bytes + [x];
    }

    /** `append(contentsOf:)`, and `+=` with a sequence of bytes. */
    method AppendContents(elements: seq<Byte>)
      modifies this
      ensures bytes == old(bytes) + elements
    {
      bytes := bytes + elements;
    }

    /** `insert(_:at:)`: `x` at position `i`, the bytes before it in place and those from `i`
        on shifted one to the right. */
    method Insert(x: Byte, i: int)
      requires 0 <= i <= |bytes|
      modifies this
      ensures bytes == Replaced(old(bytes), i, i, [x])
      ensures |bytes| == |old(bytes)| + 1 && bytes[i] == x
      ensures forall j :: 0 <= j < i ==> bytes[j] == old(bytes)[j]
      ensures forall j :: i <= j < |old(bytes)| ==> bytes[j + 1] == old(bytes)[j]
    {
      bytes := bytes[..i] + [x] + bytes[i..];
    }

    /** `insert(contentsOf:at:)`. */
    method InsertContents(elements: seq<Byte>, i: int)
      requires 0 <= i <= |bytes|
      modifies this
      ensures bytes == Replaced(old(bytes), i, i, elements)
    {
      bytes := bytes[..i] + elements + bytes[i..];
    }

    /** `remove(at:)`: returns the byte that was at `i` and closes the gap. */
    method RemoveAt(i: int) returns (x: Byte)
      requires 0 <= i < |bytes|
      modifies this
      ensures x == old(bytes)[i]
      ensures bytes == Replaced(old(bytes), i, i + 1, [])
    {
      x := bytes[i];
      bytes := bytes[..i] + bytes[i + 1..];
    }

    /** `removeFirst()`: returns the first byte and drops it; an empty buffer traps. */
    method RemoveFirst() returns (x: Byte)
      requires |bytes| > 0
      modifies this
      ensures x == old(bytes)[0] && bytes == old(bytes)[1..]
    {
      x := bytes[0];
      bytes := bytes[1..];
    }

    /** `removeFirst(_:)`: drops exactly the first `n` bytes. */
    method RemoveFirstN(n: int)
      requires 0 <= n <= |bytes|
      modifies this
      ensures bytes == old(bytes)[n..]
    {
      bytes := bytes[n..];
    }

    /** `removeSubrange(_:)`. */
    method RemoveSubrange(lo: int, hi: int)
      requires 0 <= lo <= hi <= |bytes|
      modifies this
      ensures bytes == Replaced(old(bytes), lo, hi, [])
    {
      bytes := bytes[..lo] + bytes[hi..];
    }

    /** `removeAll(keepingCapacity:)`: no bytes are left, whatever is kept of the capacity. */
    method RemoveAll(keepCapacity: bool)
      modifies this
      ensures bytes == []
    {
      bytes := [];
    }

    /** `lhs += rhs` with another buffer: the other buffer's bytes, as they were before the
        call, are appended. */
    method PlusAssign(rhs: Data)
      modifies this
      ensures bytes == old(bytes) + old(rhs.bytes)
    {
      bytes := bytes + rhs.bytes;
    }
  }

  /** `==` on two buffers. */
  function Equal(lhs: Data, rhs: Data): (r: bool)
    reads lhs, rhs
    ensures r <==> SameBytes(lhs.bytes, rhs.bytes)
  {
    lhs.bytes == rhs.bytes
  }

  /** `lhs + rhs`: a new buffer holding the bytes of `lhs` followed by those of `rhs`. */
  method Plus(lhs: Data, rhs: Data) returns (r: Data)
    ensures fresh(r)
    ensures r.bytes == lhs.bytes + rhs.bytes
  {
    r := new Data(lhs.bytes + rhs.bytes);
  }

  /** `bufferWithSize(_:)`: a new buffer of `size` zero bytes; a negative size traps. */
  method BufferWithSize(size: int) returns (r: Data)
    requires size >= 0
    ensures fresh(r)
    ensures r.bytes == Repeated(0, size)
  {
    r := new Data.Repeating(0, size);
  }
}
