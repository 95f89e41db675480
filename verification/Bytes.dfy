/** Byte strings as the operating system sees a file: reading past the end finds nothing,
    `pwrite` past the end fills the gap with zeros and `ftruncate` cuts or zero-extends. */
module Bytes {

  newtype byte = x: int | 0 <= x < 256

  function Min(a: int, b: int): (r: int)
    ensures r <= a && r <= b && (r == a || r == b)
  {
    if a <= b then a else b
  }

  function Max(a: int, b: int): (r: int) {
    if a <= b then b else a
  }

  /** The byte at offset k, with zero beyond the end. */
  function ByteOrZero(s: seq<byte>, k: int): byte {
    if 0 <= k < |s| then s[k] else 0
  }

  /** The contents after `ftruncate(fd, n)`. */
  function Resize(s: seq<byte>, n: nat): (r: seq<byte>)
    ensures |r| == n
  {
    seq(n, k => ByteOrZero(s, k))
  }

  /** The contents after `data` was written at `offset`; writing nothing changes nothing. */
  function WriteAt(s: seq<byte>, offset: nat, data: seq<byte>): (r: seq<byte>)
    ensures |r| == if data == [] then |s| else Max(|s|, offset + |data|)
    ensures forall k :: ByteOrZero(r, k) == if offset <= k < offset + |data| then data[k - offset] else ByteOrZero(s, k)
  {
    if data == [] then s
    else seq(Max(|s|, offset + |data|), k requires k >= 0 =>
               if offset <= k < offset + |data| then data[k - offset] else ByteOrZero(s, k))
  }

  /** Strings of equal length with equal bytes are equal. */
  lemma SameBytes(a: seq<byte>, b: seq<byte>)
    requires |a| == |b| && forall k :: 0 <= k < |a| ==> ByteOrZero(a, k) == ByteOrZero(b, k)
    ensures a == b
  {
    assert forall k :: 0 <= k < |a| ==> a[k] == ByteOrZero(a, k) == ByteOrZero(b, k) == b[k];
  }

  /** Two consecutive writes are one write of the concatenation: short transfers do not show. */
  lemma WriteAtConcat(s: seq<byte>, offset: nat, first: seq<byte>, second: seq<byte>)
    ensures WriteAt(WriteAt(s, offset, first), offset + |first|, second) == WriteAt(s, offset, first + second)
  {
    var l := WriteAt(WriteAt(s, offset, first), offset + |first|, second);
    var r := WriteAt(s, offset, first + second);
    if second == [] {
      assert first + second == first;
    } else {
      forall k | 0 <= k < |l|
        ensures ByteOrZero(l, k) == ByteOrZero(r, k)
      {
        WriteAtConcatByte(s, offset, first, second, k);
      }
      SameBytes(l, r);
    }
  }

  lemma WriteAtConcatByte(s: seq<byte>, offset: nat, first: seq<byte>, second: seq<byte>, k: nat)
    ensures ByteOrZero(WriteAt(WriteAt(s, offset, first), offset + |first|, second), k)
         == ByteOrZero(WriteAt(s, offset, first + second), k)
  {
    var once := WriteAt(s, offset, first);
    if offset <= k < offset + |first| {
      assert ByteOrZero(once, k) == first[k - offset] == (first + second)[k - offset];
    } else if offset + |first| <= k < offset + |first| + |second| {
      assert second[k - (offset + |first|)] == (first + second)[k - offset];
    } else {
      assert ByteOrZero(once, k) == ByteOrZero(s, k);
    }
  }

  /** Overwriting the whole of a string that was cut to size leaves exactly the data. */
  lemma WriteAtWhole(s: seq<byte>, data: seq<byte>)
    requires |s| == |data|
    ensures WriteAt(s, 0, data) == data
  {
  }

  /** n bytes from a position on. */
  function Sub(s: seq<byte>, from: nat, n: nat): (r: seq<byte>)
    ensures from + n <= |s| ==> r == s[from..from + n]
    ensures n == 0 ==> r == []
  {
    if from + n <= |s| then s[from..from + n] else []
  }

  lemma SubConcat(s: seq<byte>, from: nat, a: nat, b: nat)
    requires from + a + b <= |s|
    ensures Sub(s, from, a + b) == Sub(s, from, a) + Sub(s, from + a, b)
  {
  }
}
