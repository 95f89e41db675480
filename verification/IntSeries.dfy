/** A series of samples that remembers the last ones, kept in a circular buffer. */
module SampleSeries {
  import opened Errors

  /** What a call that indexes the buffer does. */
  datatype Access = Value(value: int) | Thrown

  /** A Java `int` sum wraps around. */
  function Int32(x: int): (r: int)
    ensures -INT_MAX - 1 <= r <= INT_MAX
    ensures -INT_MAX - 1 <= x <= INT_MAX ==> r == x
  {
    var m := x % 0x1_0000_0000;
    if m > INT_MAX then m - 0x1_0000_0000 else m
  }

  /** Java's `%` takes the sign of the dividend. */
  function JavaRemainder(x: int, n: nat): (r: int)
    requires n > 0
    ensures x >= 0 ==> 0 <= r == x % n
    ensures x < 0 ==> r <= 0 && (r == 0 <==> x % n == 0)
    ensures r < n
  {
    NegatedRemainder(x, n);
    if x >= 0 then x % n else -((-x) % n)
  }

  lemma NegatedRemainder(x: int, n: nat)
    requires n > 0
    ensures (-x) % n == 0 <==> x % n == 0
    ensures 0 <= (-x) % n < n
  {
    DivisibleNegated(x, n);
    DivisibleNegated(-x, n);
  }

  lemma DivisibleNegated(x: int, n: nat)
    requires n > 0
    ensures x % n == 0 ==> (-x) % n == 0
  {
    if x % n == 0 {
      var q := x / n;
      assert x == q * n;
      assert -x == -q * n;
      RemainderIs(-x, -q, 0, n);
    }
  }

  /** Where sample number j, counted from 0, is kept in a buffer of n samples: j modulo n. */
  function Slot(j: nat, n: nat): (slot: nat)
    requires n > 0
    ensures slot < n && (j < n ==> slot == j)
  {
    if j < n then j else Slot(j - n, n)
  }

  lemma {:induction false} SlotNext(j: nat, n: nat)
    requires n > 0
    ensures Slot(j + 1, n) == if Slot(j, n) + 1 == n then 0 else Slot(j, n) + 1
  {
    if j >= n {
      SlotNext(j - n, n);
    }
  }

  /** Fewer than n samples apart there is no clash. */
  lemma {:induction false} SlotAhead(j: nat, d: nat, n: nat)
    requires 0 <= d < n
    ensures Slot(j + d, n) == if Slot(j, n) + d < n then Slot(j, n) + d else Slot(j, n) + d - n
  {
    if j >= n {
      SlotAhead(j - n, d, n);
    }
  }

  lemma Multiple(q: int, n: nat)
    ensures q >= 1 ==> q * n >= n
    ensures q <= -1 ==> q * n <= -(n as int)
  {
    if q >= 1 {
      assert (q - 1) * n >= 0;
    } else if q <= -1 {
      assert (-1 - q) * n >= 0;
    }
  }

  /** Remainders are determined by the division they come from. */
  lemma RemainderIs(x: int, q: int, r: nat, n: nat)
    requires r < n && x == q * n + r
    ensures x % n == r
  {
    var q', r' := x / n, x % n;
    assert x == q' * n + r';
    assert (q' - q) * n == r - r';
    Multiple(q' - q, n);
  }

  /** Slots are what Java's `%` computes. */
  lemma {:induction false} SlotQuotient(j: nat, n: nat) returns (q: nat)
    requires n > 0
    ensures j == q * n + Slot(j, n)
  {
    if j < n {
      q := 0;
    } else {
      q := SlotQuotient(j - n, n);
      q := q + 1;
    }
  }

  lemma SlotIsRemainder(j: nat, n: nat)
    requires n > 0
    ensures j % n == Slot(j, n)
  {
    var q := SlotQuotient(j, n);
    RemainderIs(j, q, Slot(j, n), n);
  }

  /** How many of k samples a buffer of n keeps. */
  function Kept(k: nat, n: nat): nat {
    if k < n then k else n
  }

  ghost predicate Remembers(buffer: seq<int>, size: nat, added: seq<int>)
    requires |buffer| > 0 && size <= |added|
  {
    forall j :: |added| - size <= j < |added| ==> buffer[Slot(j, |buffer|)] == added[j]
  }

  /** The buffer keeps the last samples of `added`, each in its slot. */
  ghost predicate Keeps(buffer: seq<int>, head: int, end: int, size: nat, added: seq<int>) {
    var n, k := |buffer|, |added|;
    && n > 0 && size == Kept(k, n)
    && (k == 0 ==> head == -1 && end == -1)
    && (k > 0 ==> end == Slot(k - 1, n) && head == Slot(k - size, n))
    && Remembers(buffer, size, added)
  }

  lemma KeepsFirst(buffer: seq<int>, head: int, end: int, size: nat, added: seq<int>, value: int)
    requires Keeps(buffer, head, end, size, added) && head == -1
    ensures |buffer| > 0 && Keeps(buffer[0 := value], 0, 0, 1, added + [value])
  {
  }

  function Advance(p: int, n: nat): int {
    if p + 1 == n then 0 else p + 1
  }

  lemma AdvanceIsRemainder(p: nat, n: nat)
    requires p < n
    ensures (p + 1) % n == Advance(p, n)
  {
  }

  lemma KeepsBounds(buffer: seq<int>, head: int, end: int, size: nat, added: seq<int>)
    requires Keeps(buffer, head, end, size, added) && head != -1
    ensures 0 <= head < |buffer| && 0 <= end < |buffer| && added != []
  {
  }

  /** The pointers after one more sample. */
  lemma PointersNext(k: nat, n: nat, head: int, end: int)
    requires k > 0 && n > 0 && end == Slot(k - 1, n) && head == Slot(k - Kept(k, n), n)
    ensures
      var end' := Advance(end, n);
      var head' := if end' <= head then Advance(head, n) else head;
      && end' == Slot(k, n) && head' == Slot(k + 1 - Kept(k + 1, n), n)
      && Kept(k + 1, n) == if head' <= end' then 1 + (end' - head') else n
  {
    SlotNext(k - 1, n);
    if k >= n {
      SlotNext(k - n, n);
      SlotAhead(k - n, n - 1, n);
    }
  }

  lemma RemembersNext(buffer: seq<int>, size: nat, added: seq<int>, size': nat, value: int)
    requires |buffer| > 0 && size <= |added| && Remembers(buffer, size, added)
    requires 1 <= size' <= size + 1 && size' <= |buffer|
    ensures Remembers(buffer[Slot(|added|, |buffer|) := value], size', added + [value])
  {
    var n, k := |buffer|, |added|;
    forall j | k + 1 - size' <= j < k + 1
      ensures buffer[Slot(k, n) := value][Slot(j, n)] == (added + [value])[j]
    {
      if j < k {
        SlotAhead(j, k - j, n);
      }
    }
  }

  lemma KeepsNext(buffer: seq<int>, head: int, end: int, size: nat, added: seq<int>, value: int)
    requires Keeps(buffer, head, end, size, added) && head != -1
    ensures
      var n := |buffer|;
      var end' := Advance(end, n);
      var head' := if end' <= head then Advance(head, n) else head;
      && 0 <= end' < n
      && Keeps(buffer[end' := value], head', end', if head' <= end' then 1 + (end' - head') else n, added + [value])
  {
    hide Advance, Slot, Remembers;
    PointersNext(|added|, |buffer|, head, end);
    RemembersNext(buffer, size, added, Kept(|added| + 1, |buffer|), value);
  }

  /** Only the remainder of the index counts. */
  lemma {:induction false} SlotAdd(head: nat, index: nat, n: nat)
    requires n > 0
    ensures Slot(head + index, n) == Slot(head + Slot(index, n), n)
  {
    if index >= n {
      SlotAdd(head, index - n, n);
    }
  }

  /** Counting on from the oldest sample, in a buffer that is still filling or full. */
  lemma SlotGet(k: nat, n: nat, index: nat)
    requires k > 0 && n > 0
    ensures
      var size := Kept(k, n);
      Slot(Slot(k - size, n) + index, size) == Slot(k - size + Slot(index, size), n)
  {
    var size := Kept(k, n);
    var j := Slot(index, size);
    SlotAdd(Slot(k - size, n), index, size);
    SlotAhead(k - size, j, n);
  }

  lemma KeepsGet(buffer: seq<int>, head: int, end: int, size: nat, added: seq<int>, index: int)
    requires Keeps(buffer, head, end, size, added) && size > 0 && head + index >= 0
    ensures 0 <= (head + index) % size < |buffer| && 0 <= index % size < size <= |added|
    ensures buffer[(head + index) % size] == added[|added| - size + index % size]
  {
    if index >= 0 {
      KeepsGetAhead(buffer, head, end, size, added, index);
    } else {
      // Before the oldest sample there are only those of a full buffer, a turn ahead.
      KeepsGetAhead(buffer, head, end, size, added, index + size);
      SlotIsRemainder(head + index, size);
      SlotIsRemainder(head + index + size, size);
      NegativeRemainder(index, size);
    }
  }

  lemma NegativeRemainder(x: int, n: nat)
    requires -(n as int) <= x < 0
    ensures x % n == (x + n) % n
  {
    if x + n > 0 {
      RemainderIs(x, -1, x + n, n);
      RemainderIs(x + n, 0, x + n, n);
    } else {
      RemainderIs(x, -1, 0, n);
      RemainderIs(x + n, 0, 0, n);
    }
  }

  lemma KeepsGetAhead(buffer: seq<int>, head: int, end: int, size: nat, added: seq<int>, index: nat)
    requires Keeps(buffer, head, end, size, added) && size > 0
    ensures 0 <= head && 0 <= (head + index) % size < |buffer| && 0 <= index % size < size <= |added|
    ensures buffer[(head + index) % size] == added[|added| - size + index % size]
  {
    SlotIsRemainder(head + index, size);
    SlotIsRemainder(index, size);
    SlotGet(|added|, |buffer|, index);
  }

  class IntSeries {
    const buffer: array<int>
    var head: int
    var end: int
    var size: nat
    // Every value ever added, the newest last.
    ghost var added: seq<int>

    ghost predicate Valid()
      reads this, buffer
    {
      Keeps(buffer[..], head, end, size, added)
    }

    constructor (buffer: array<int>)
      requires buffer.Length > 0
      ensures Valid() && this.buffer == buffer && added == []
    {
      this.buffer := buffer;
      head, end, size, added := -1, -1, 0, [];
    }

    method Add(value: int)
      requires Valid()
      modifies this, buffer
      ensures Valid() && added == old(added) + [value]
    {
      hide *;
      ghost var before := buffer[..];
      SeriesIs();
      added := added + [value];
      if head == -1 {
        KeepsFirst(before, head, end, size, old(added), value);
        head, end := 0, 0;
        buffer[end] := value;
        size := 1;
        assert buffer[..] == before[0 := value];
        SeriesIs();
        return;
      }
      KeepsBounds(before, head, end, size, old(added));
      AdvanceIsRemainder(end, buffer.Length);
      AdvanceIsRemainder(head, buffer.Length);
      KeepsNext(before, head, end, size, old(added), value);
      end := (end + 1) % buffer.Length;
      buffer[end] := value;
      assert buffer[..] == before[end := value];
      if end <= head {
        head := (head + 1) % buffer.Length;
      }
      if head <= end {
        size := 1 + (end - head);
      } else {
        size := buffer.Length;
      }
      SeriesIs();
    }

    lemma SeriesIs()
      ensures Valid() <==> Keeps(buffer[..], head, end, size, added)
      ensures Valid() ==> buffer.Length > 0
    {
    }

    /** The samples still remembered, oldest first; before and behind them they come again, as far as
        the position does not become negative. From there on the call throws, except where the
        position is a multiple of the size. */
    method Get(index: int) returns (r: Access)
      requires Valid() && -INT_MAX - 1 <= index <= INT_MAX && head <= INT_MAX
      ensures r.Thrown? <==> size == 0 || (Int32(head + index) < 0 && Int32(head + index) % size != 0)
      ensures size > 0 && 0 <= head + index <= INT_MAX ==> r == Value(added[|added| - size + index % size])
      ensures size > 0 && Int32(head + index) < 0 && r.Value? ==> r == Value(buffer[0])
    {
      if size == 0 {
        return Thrown;
      }
      var position := JavaRemainder(Int32(head + index), size);
      if position < 0 {
        return Thrown;
      }
      r := Value(buffer[position]);
      if 0 <= head + index <= INT_MAX {
        KeepsGet(buffer[..], head, end, size, added, index);
      }
    }

    function Size(): (n: nat)
      reads this, buffer
      requires Valid()
      ensures n == Kept(|added|, buffer.Length)
    {
      size
    }

    /** The newest value is returned unless it lies in slot 0 and is not 0, which happens once
        in every turn of the buffer. An empty series throws. */
    method Last() returns (r: Access)
      requires Valid()
      ensures size == 0 ==> r.Thrown?
      ensures size > 0 ==>
                && (r == Value(added[|added| - 1]) <==>
                    (|added| - 1) % buffer.Length != 0 || added[|added| - 1] == 0)
                && (r == Value(added[|added| - 1]) || r == Value(0))
    {
      if end < 0 {
        return Thrown;
      }
      SlotIsRemainder(|added| - 1, buffer.Length);
      return Value(if end != 0 then buffer[end] else 0);
    }
  }
}
