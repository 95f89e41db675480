/** Which part of each file has arrived, without a gap, from its first byte on. */
module PiecesTrackers {
  import opened Bytes
  import opened Layout

  /** C++ division of a possibly negative offset. */
  function TruncatedQuotient(x: int, n: nat): int
    requires n > 0
  {
    if x >= 0 then x / n else -(-x / n)
  }

  /** libtorrent's `map_file`: the piece in which byte `offset` of a file lies. */
  function MapFile(fs: FileStorage, i: nat, offset: int): int
    requires fs.Valid() && i < |fs.entries|
  {
    var at := Offset(fs.entries, i) + offset;
    if at >= fs.TotalSize() then fs.NumPieces() else TruncatedQuotient(at, fs.pieceLength)
  }

  // ---- Bytes of a file in a range

  /** The bytes of file i before torrent-global position x. */
  function Before(fs: seq<FileEntry>, i: nat, x: int): (n: nat)
    requires i < |fs|
    ensures n <= fs[i].size
  {
    Max(0, Min(fs[i].size, x - Offset(fs, i)))
  }

  lemma FileEnds(fs: seq<FileEntry>, i: nat)
    requires i < |fs|
    ensures Offset(fs, i) + fs[i].size <= Total(fs)
  {
    OffsetMonotone(fs, i + 1, |fs|);
  }

  /** A slice of a file holds every byte of it in the range that was mapped. */
  lemma OnlySlice(fs: seq<FileEntry>, start: nat, size: nat, k: nat, p: nat)
    requires start + size <= Total(fs) && k < |MapBytes(fs, start, size)|
    requires start <= p < start + size
    requires
      var i := MapBytes(fs, start, size)[k].file;
      i < |fs| && Offset(fs, i) <= p < Offset(fs, i) + fs[i].size
    ensures
      var s := MapBytes(fs, start, size)[k];
      GlobalStart(fs, s) <= p < GlobalStart(fs, s) + s.size
  {
    var slices := MapBytes(fs, start, size);
    MapBytesTiles(fs, start, size);
    var l := TileCovers(fs, slices, start, size, p);
    FileAtUnique(fs, slices[k].file, p);
    FileAtUnique(fs, slices[l].file, p);
    assert k == l;
  }

  /** The size of a file's slice is the number of its bytes in the range. */
  lemma SliceIsShare(fs: seq<FileEntry>, start: nat, size: nat, k: nat)
    requires start + size <= Total(fs) && k < |MapBytes(fs, start, size)|
    ensures
      var s := MapBytes(fs, start, size)[k];
      s.file < |fs| && s.size == Before(fs, s.file, start + size) - Before(fs, s.file, start)
  {
    var slices := MapBytes(fs, start, size);
    MapBytesTiles(fs, start, size);
    TileAt(fs, slices, start, size, k);
    var i := slices[k].file;
    OnlySlice(fs, start, size, k, Max(start, Offset(fs, i)));
    OnlySlice(fs, start, size, k, Min(start + size, Offset(fs, i) + fs[i].size) - 1);
  }

  /** A file without a slice has no byte in the range. */
  lemma NoSliceNoShare(fs: seq<FileEntry>, start: nat, size: nat, i: nat)
    requires start + size <= Total(fs) && i < |fs|
    requires forall k :: 0 <= k < |MapBytes(fs, start, size)| ==> MapBytes(fs, start, size)[k].file != i
    ensures Before(fs, i, start + size) == Before(fs, i, start)
  {
    SlicesOverlap(fs, start, size, i);
    assert !Overlaps(fs, i, start, size);
  }

  // ---- Pieces

  /** The start of a piece, or of the one that would follow the last. */
  function Start(fs: FileStorage, piece: int): int {
    piece * fs.pieceLength
  }

  lemma StartNext(fs: FileStorage, piece: int)
    ensures Start(fs, piece + 1) == Start(fs, piece) + fs.pieceLength
    ensures piece >= 0 ==> Start(fs, piece) == fs.PieceStart(piece)
  {
  }

  /** Torrent-global position `at` is in this piece's range. */
  predicate InPiece(fs: FileStorage, piece: int, at: int) {
    Start(fs, piece) <= at < Start(fs, piece) + fs.pieceLength
  }

  lemma QuotientInPiece(fs: FileStorage, at: nat)
    requires fs.Valid()
    ensures InPiece(fs, at / fs.pieceLength, at)
  {
    assert at == (at / fs.pieceLength) * fs.pieceLength + at % fs.pieceLength;
  }

  lemma {:induction false} StartMonotone(fs: FileStorage, p: int, q: int)
    requires p <= q
    ensures Start(fs, p) <= Start(fs, q)
    decreases q - p
  {
    if p < q {
      StartMonotone(fs, p + 1, q);
      StartNext(fs, p);
    }
  }

  /** A position between two piece starts is in one of the pieces between them. */
  lemma PieceBetween(fs: FileStorage, from: int, to: int, piece: int, at: int)
    requires InPiece(fs, piece, at) && Start(fs, from) <= at < Start(fs, to)
    ensures from <= piece < to
  {
    StartNext(fs, piece);
    if piece < from {
      StartMonotone(fs, piece + 1, from);
    } else if to <= piece {
      StartMonotone(fs, to, piece);
    }
  }

  /** The piece of a position is the quotient. */
  lemma PieceIsQuotient(fs: FileStorage, piece: int, at: nat)
    requires fs.Valid() && InPiece(fs, piece, at)
    ensures at / fs.pieceLength == piece
  {
    QuotientInPiece(fs, at);
    StartNext(fs, piece);
    PieceBetween(fs, piece, piece + 1, at / fs.pieceLength, at);
  }

  lemma LastPiece(fs: FileStorage)
    requires fs.Valid() && fs.TotalSize() > 0
    ensures fs.NumPieces() > 0 && InPiece(fs, fs.NumPieces() - 1, fs.TotalSize() - 1)
  {
    var x, n := fs.TotalSize() + fs.pieceLength - 1, fs.pieceLength;
    QuotientInPiece(fs, x);
    StartNext(fs, x / n - 1);
    StartNext(fs, x / n);
    assert Start(fs, 1) == n;
    PieceBetween(fs, 1, x / n + 1, x / n, x);
  }

  lemma PieceExists(fs: FileStorage, piece: int, at: int)
    requires fs.Valid() && 0 <= at < fs.TotalSize() && InPiece(fs, piece, at)
    ensures 0 <= piece < fs.NumPieces()
  {
    LastPiece(fs);
    StartNext(fs, fs.NumPieces() - 1);
    assert Start(fs, 0) == 0;
    PieceBetween(fs, 0, fs.NumPieces(), piece, at);
  }

  /** The pieces from the one of a file's first byte to the one of its last; for an empty file
      what `map_file` says of its offsets 0 and -1. */
  ghost predicate RowBounds(fs: FileStorage, i: nat, first: int, last: int)
    requires fs.Valid() && i < |fs.entries|
  {
    && 0 <= first <= last + 1 <= fs.NumPieces()
    && Before(fs.entries, i, Start(fs, first)) == 0
    && Before(fs.entries, i, Start(fs, last + 1)) == fs.entries[i].size
    && (fs.entries[i].size > 0 ==>
          && InPiece(fs, first, Offset(fs.entries, i))
          && InPiece(fs, last, Offset(fs.entries, i) + fs.entries[i].size - 1))
  }

  lemma RowBoundsHold(fs: FileStorage, i: nat)
    requires fs.Valid() && fs.TotalSize() > 0 && i < |fs.entries|
    ensures RowBounds(fs, i, MapFile(fs, i, 0), MapFile(fs, i, fs.entries[i].size - 1))
  {
    var off, size := Offset(fs.entries, i), fs.entries[i].size;
    FileEnds(fs.entries, i);
    LastPiece(fs);
    if size > 0 {
      var first, last := off / fs.pieceLength, (off + size - 1) / fs.pieceLength;
      QuotientInPiece(fs, off);
      QuotientInPiece(fs, off + size - 1);
      PieceExists(fs, first, off);
      PieceExists(fs, last, off + size - 1);
      StartNext(fs, last);
      PieceBetween(fs, first, last + 1, first, off);
    } else {
      EmptyFile(fs, i);
    }
  }

  lemma QuotientStep(fs: FileStorage, at: nat)
    requires fs.Valid() && at > 0
    ensures at / fs.pieceLength - 1 <= (at - 1) / fs.pieceLength
  {
    hide InPiece, Start;
    var p, q := (at - 1) / fs.pieceLength, at / fs.pieceLength;
    QuotientInPiece(fs, at - 1);
    QuotientInPiece(fs, at);
    StepPiece(fs, p, q, at);
  }

  lemma StepPiece(fs: FileStorage, p: nat, q: nat, at: nat)
    requires fs.Valid() && at > 0 && InPiece(fs, p, at - 1) && InPiece(fs, q, at)
    ensures q <= p + 1
  {
    StartNext(fs, p);
    StartNext(fs, p + 1);
    StartMonotone(fs, 0, q);
    if q > p + 1 {
      StartMonotone(fs, p + 2, q);
    }
  }

  /** A file of no bytes has at most one piece in its row. */
  lemma EmptyFile(fs: FileStorage, i: nat)
    requires fs.Valid() && fs.pieceLength > 0 && fs.TotalSize() > 0 && i < |fs.entries| && fs.entries[i].size == 0
    ensures 0 <= MapFile(fs, i, 0) <= MapFile(fs, i, -1) + 1 <= fs.NumPieces()
  {
    hide *;
    var off := Offset(fs.entries, i);
    FileEnds(fs.entries, i);
    fs.TotalIs();
    LastPiece(fs);
    MapFileIs(fs, i, 0);
    MapFileIs(fs, i, -1);
    if off == 0 {
      SmallQuotients(fs);
    } else if off == fs.TotalSize() {
      PieceIsQuotient(fs, fs.NumPieces() - 1, off - 1);
    } else {
      QuotientStep(fs, off);
      QuotientInPiece(fs, off - 1);
      PieceExists(fs, (off - 1) / fs.pieceLength, off - 1);
    }
  }

  lemma MapFileIs(fs: FileStorage, i: nat, offset: int)
    requires fs.Valid() && fs.pieceLength > 0 && i < |fs.entries|
    ensures
      var at := Offset(fs.entries, i) + offset;
      && (at >= fs.TotalSize() ==> MapFile(fs, i, offset) == fs.NumPieces())
      && (0 <= at < fs.TotalSize() ==> MapFile(fs, i, offset) == at / fs.pieceLength)
      && (at < 0 ==> MapFile(fs, i, offset) == -(-at / fs.pieceLength))
  {
  }

  lemma SmallQuotients(fs: FileStorage)
    requires fs.Valid() && fs.pieceLength > 0
    ensures 0 / fs.pieceLength == 0 && 0 <= 1 / fs.pieceLength <= 1
  {
    PieceIsQuotient(fs, 0, 0);
    QuotientStep(fs, 1);
  }

  /** The table row of file i: its pieces in order and how many bytes of it each holds. */
  ghost predicate Row(fs: FileStorage, i: nat, pieces: seq<nat>, sizes: seq<nat>)
    requires fs.Valid() && i < |fs.entries|
  {
    var first, last := MapFile(fs, i, 0), MapFile(fs, i, fs.entries[i].size - 1);
    && |pieces| == |sizes| == last - first + 1
    && (forall j :: 0 <= j < |pieces| ==> pieces[j] == first + j)
    && (forall j :: 0 <= j < |sizes| ==> sizes[j] == Share(fs, i, first + j))
  }

  /** The bytes of file i in a piece. */
  function Share(fs: FileStorage, i: nat, piece: int): int
    requires i < |fs.entries|
  {
    Before(fs.entries, i, Start(fs, piece + 1)) - Before(fs.entries, i, Start(fs, piece))
  }

  lemma ShareOfRange(fs: FileStorage, i: nat, piece: nat)
    requires fs.Valid() && i < |fs.entries| && piece < fs.NumPieces()
    ensures Share(fs, i, piece) ==
            Before(fs.entries, i, fs.PieceStart(piece) + fs.PieceBytes(piece)) - Before(fs.entries, i, fs.PieceStart(piece))
  {
    StartNext(fs, piece);
    FileEnds(fs.entries, i);
  }

  /** The inner loop of the constructor: the size of the piece's slice of file i, or 0. */
  method SliceSize(fs: FileStorage, i: nat, piece: nat) returns (size: nat)
    requires fs.Valid() && i < |fs.entries| && piece < fs.NumPieces()
    ensures size == Share(fs, i, piece)
  {
    ghost var start, length := fs.PieceStart(piece), fs.PieceBytes(piece);
    var slices := fs.MapBlock(piece, 0, fs.PieceBytes(piece));
    ShareOfRange(fs, i, piece);
    size := 0;
    for k := 0 to |slices|
      invariant size == 0 ==> forall l :: 0 <= l < k ==> slices[l].file != i
      invariant size == 0 || size == Share(fs, i, piece)
    {
      if slices[k].file == i {
        SliceIsShare(fs.entries, start, length, k);
        MapBytesTiles(fs.entries, start, length);
        TileAt(fs.entries, slices, start, length, k);
        size := slices[k].size;
      }
    }
    if size == 0 {
      NoSliceNoShare(fs.entries, start, length, i);
    }
  }

  method MakeRow(fs: FileStorage, i: nat) returns (pieces: seq<nat>, sizes: seq<nat>)
    requires fs.Valid() && fs.TotalSize() > 0 && i < |fs.entries|
    ensures Row(fs, i, pieces, sizes)
  {
    RowBoundsHold(fs, i);
    var firstPiece, lastPiece := MapFile(fs, i, 0), MapFile(fs, i, fs.entries[i].size - 1);
    var numSlices := lastPiece - firstPiece + 1;
    var row, shares := new nat[numSlices](_ => 0), new nat[numSlices](_ => 0);
    for pieceIndex := firstPiece to lastPiece + 1
      invariant forall j :: 0 <= j < pieceIndex - firstPiece ==> row[j] == firstPiece + j
      invariant forall j :: 0 <= j < pieceIndex - firstPiece ==> shares[j] == Share(fs, i, firstPiece + j)
    {
      row[pieceIndex - firstPiece] := pieceIndex;
      var size := SliceSize(fs, i, pieceIndex);
      shares[pieceIndex - firstPiece] := size;
    }
    return row[..], shares[..];
  }

  /** The rows of all files. */
  ghost predicate Table(fs: FileStorage, n: nat, files: seq<seq<nat>>, sizes: seq<seq<nat>>)
    requires fs.Valid() && n <= |fs.entries|
  {
    |files| == |sizes| == n && forall i :: 0 <= i < n ==> Row(fs, i, files[i], sizes[i])
  }

  method MakeTable(fs: FileStorage) returns (files: seq<seq<nat>>, sizes: seq<seq<nat>>)
    requires fs.Valid() && (fs.TotalSize() > 0 || fs.entries == [])
    ensures Table(fs, |fs.entries|, files, sizes)
  {
    hide Row;
    files, sizes := [], [];
    for fileIndex := 0 to |fs.entries|
      invariant Table(fs, fileIndex, files, sizes)
    {
      var row, share := MakeRow(fs, fileIndex);
      files, sizes := files + [row], sizes + [share];
    }
  }

  // ---- What the table is for

  function Sum(s: seq<nat>): nat {
    if s == [] then 0 else Sum(s[..|s| - 1]) + s[|s| - 1]
  }

  /** The first k entries of a row count the file's bytes before the k-th piece's end. */
  lemma {:induction false} RowSum(fs: FileStorage, i: nat, pieces: seq<nat>, sizes: seq<nat>, k: nat)
    requires fs.Valid() && fs.TotalSize() > 0 && i < |fs.entries| && Row(fs, i, pieces, sizes) && k <= |sizes|
    ensures Sum(sizes[..k]) == Before(fs.entries, i, Start(fs, MapFile(fs, i, 0) + k))
  {
    RowBoundsHold(fs, i);
    if k > 0 {
      RowSum(fs, i, pieces, sizes, k - 1);
      assert sizes[..k][..k - 1] == sizes[..k - 1];
    }
  }

  /** The slice table of a file sums to the file's size. */
  lemma RowSumsToSize(fs: FileStorage, i: nat, pieces: seq<nat>, sizes: seq<nat>)
    requires fs.Valid() && fs.TotalSize() > 0 && i < |fs.entries| && Row(fs, i, pieces, sizes)
    ensures Sum(sizes) == fs.entries[i].size
  {
    RowBoundsHold(fs, i);
    RowSum(fs, i, pieces, sizes, |sizes|);
    assert sizes[..|sizes|] == sizes;
  }

  /** The row of a file with bytes lists exactly the pieces the file has a byte in. */
  lemma RowListsPieces(fs: FileStorage, i: nat, pieces: seq<nat>, sizes: seq<nat>, p: nat)
    requires fs.Valid() && fs.TotalSize() > 0 && i < |fs.entries| && Row(fs, i, pieces, sizes)
    requires fs.entries[i].size > 0
    ensures p in pieces <==>
            p < fs.NumPieces() && Overlaps(fs.entries, i, fs.PieceStart(p), fs.PieceBytes(p))
  {
    var off, size := Offset(fs.entries, i), fs.entries[i].size;
    var first, last := MapFile(fs, i, 0), MapFile(fs, i, size - 1);
    RowBoundsHold(fs, i);
    FileEnds(fs.entries, i);
    StartNext(fs, p);
    if first <= p <= last {
      assert pieces[p - first] == p;
      StartMonotone(fs, p, last);
      StartMonotone(fs, first, p);
    } else if p < fs.NumPieces() && Overlaps(fs.entries, i, fs.PieceStart(p), fs.PieceBytes(p)) {
      StartNext(fs, last);
      PieceBetween(fs, first, last + 1, p, Max(off, fs.PieceStart(p)));
    }
  }

  /** Byte n of file i is in a complete piece. */
  predicate Arrived(fs: FileStorage, complete: seq<bool>, i: nat, n: nat)
    requires fs.Valid() && i < |fs.entries| && n < fs.entries[i].size && |complete| == fs.NumPieces()
  {
    var at := Offset(fs.entries, i) + n;
    FileEnds(fs.entries, i);
    QuotientInPiece(fs, at);
    PieceExists(fs, at / fs.pieceLength, at);
    complete[at / fs.pieceLength]
  }

  /** The reference: count bytes of the file one by one as long as they have arrived. */
  function Prefix(fs: FileStorage, complete: seq<bool>, i: nat, n: nat): (r: nat)
    requires fs.Valid() && i < |fs.entries| && n <= fs.entries[i].size && |complete| == fs.NumPieces()
    ensures n <= r <= fs.entries[i].size
    ensures forall m :: n <= m < r ==> Arrived(fs, complete, i, m)
    ensures r < fs.entries[i].size ==> !Arrived(fs, complete, i, r)
    decreases fs.entries[i].size - n
  {
    if n < fs.entries[i].size && Arrived(fs, complete, i, n) then Prefix(fs, complete, i, n + 1) else n
  }

  /** Completing more pieces never takes arrived bytes away. */
  lemma PrefixMonotone(fs: FileStorage, complete: seq<bool>, more: seq<bool>, i: nat)
    requires fs.Valid() && i < |fs.entries| && |complete| == |more| == fs.NumPieces()
    requires forall p :: 0 <= p < |complete| && complete[p] ==> more[p]
    ensures Prefix(fs, complete, i, 0) <= Prefix(fs, more, i, 0)
  {
    hide *;
    var r := Prefix(fs, more, i, 0);
    if r < Prefix(fs, complete, i, 0) {
      ArrivedMore(fs, complete, more, i, r);
    }
  }

  lemma ArrivedMore(fs: FileStorage, complete: seq<bool>, more: seq<bool>, i: nat, n: nat)
    requires fs.Valid() && i < |fs.entries| && n < fs.entries[i].size && |complete| == |more| == fs.NumPieces()
    requires forall p :: 0 <= p < |complete| && complete[p] ==> more[p]
    ensures Arrived(fs, complete, i, n) ==> Arrived(fs, more, i, n)
  {
    FileEnds(fs.entries, i);
    QuotientInPiece(fs, Offset(fs.entries, i) + n);
    PieceExists(fs, (Offset(fs.entries, i) + n) / fs.pieceLength, Offset(fs.entries, i) + n);
  }

  /** The whole file has arrived exactly if every piece it has a byte in is complete. */
  lemma PrefixWhole(fs: FileStorage, complete: seq<bool>, i: nat)
    requires fs.Valid() && i < |fs.entries| && |complete| == fs.NumPieces()
    ensures Prefix(fs, complete, i, 0) == fs.entries[i].size <==>
            forall p :: 0 <= p < fs.NumPieces() && Overlaps(fs.entries, i, fs.PieceStart(p), fs.PieceBytes(p)) ==>
                          complete[p]
  {
    var off, size, r := Offset(fs.entries, i), fs.entries[i].size, Prefix(fs, complete, i, 0);
    FileEnds(fs.entries, i);
    if r < size {
      var p := (off + r) / fs.pieceLength;
      QuotientInPiece(fs, off + r);
      PieceExists(fs, p, off + r);
      StartNext(fs, p);
      assert Overlaps(fs.entries, i, fs.PieceStart(p), fs.PieceBytes(p));
    } else {
      forall p | 0 <= p < fs.NumPieces() && Overlaps(fs.entries, i, fs.PieceStart(p), fs.PieceBytes(p))
        ensures complete[p]
      {
        StartNext(fs, p);
        var at := Max(off, fs.PieceStart(p));
        PieceIsQuotient(fs, p, at);
        assert Arrived(fs, complete, i, at - off);
      }
    }
  }

  /** k complete pieces in a row, then an incomplete one or the end: so many bytes have arrived. */
  lemma PrefixOfPieces(fs: FileStorage, complete: seq<bool>, i: nat, first: nat, last: int, k: nat)
    requires fs.Valid() && i < |fs.entries| && |complete| == fs.NumPieces()
    requires RowBounds(fs, i, first, last) && k <= last - first + 1
    requires forall j :: first <= j < first + k ==> complete[j]
    requires k <= last - first ==> !complete[first + k]
    ensures Before(fs.entries, i, Start(fs, first + k)) == Prefix(fs, complete, i, 0)
  {
    var off, size := Offset(fs.entries, i), fs.entries[i].size;
    var n, r := Before(fs.entries, i, Start(fs, first + k)), Prefix(fs, complete, i, 0);
    if n < size {
      NextByte(fs, i, first, last, k);
      PieceIsQuotient(fs, first + k, off + n);
      assert !Arrived(fs, complete, i, n);
    }
    if r < n {
      QuotientInPiece(fs, off + r);
      PieceBetween(fs, first, first + k, (off + r) / fs.pieceLength, off + r);
    }
  }

  /** The first byte not before the k-th piece is in it. */
  lemma NextByte(fs: FileStorage, i: nat, first: nat, last: int, k: nat)
    requires fs.Valid() && i < |fs.entries| && RowBounds(fs, i, first, last) && k <= last - first + 1
    requires Before(fs.entries, i, Start(fs, first + k)) < fs.entries[i].size
    ensures k <= last - first
    ensures InPiece(fs, first + k, Offset(fs.entries, i) + Before(fs.entries, i, Start(fs, first + k)))
  {
    hide *;
    var off, size := Offset(fs.entries, i), fs.entries[i].size;
    RowParts(fs, i, first, last);
    if k == 0 {
    } else {
      StartNext(fs, first);
      StartMonotone(fs, first + 1, first + k);
      BeforeInside(fs, i, first + k);
    }
  }

  lemma RowParts(fs: FileStorage, i: nat, first: nat, last: int)
    requires fs.Valid() && i < |fs.entries| && RowBounds(fs, i, first, last)
    ensures Before(fs.entries, i, Start(fs, first)) == 0
    ensures Before(fs.entries, i, Start(fs, last + 1)) == fs.entries[i].size
    ensures fs.entries[i].size > 0 ==>
              && InPiece(fs, first, Offset(fs.entries, i))
              && Offset(fs.entries, i) < Start(fs, first) + fs.pieceLength
  {
  }

  lemma BeforeInside(fs: FileStorage, i: nat, piece: nat)
    requires fs.Valid() && i < |fs.entries|
    requires Offset(fs.entries, i) < Start(fs, piece)
    requires Before(fs.entries, i, Start(fs, piece)) < fs.entries[i].size
    ensures InPiece(fs, piece, Offset(fs.entries, i) + Before(fs.entries, i, Start(fs, piece)))
  {
  }

  class PiecesTracker {
    const fs: FileStorage
    const files: seq<seq<nat>>
    const sizes: seq<seq<nat>>
    const complete: array<bool>

    ghost predicate Valid() {
      && fs.Valid() && (fs.TotalSize() > 0 || fs.entries == [])
      && Table(fs, |fs.entries|, files, sizes) && complete.Length == fs.NumPieces()
    }

    constructor (fs: FileStorage)
      requires fs.Valid() && (fs.TotalSize() > 0 || fs.entries == [])
      ensures Valid() && this.fs == fs && fresh(complete)
      ensures forall p :: 0 <= p < complete.Length ==> !complete[p]
    {
      var rows, shares := MakeTable(fs);
      this.fs := fs;
      files, sizes := rows, shares;
      complete := new bool[fs.NumPieces()](_ => false);
    }

    method SetComplete(pieceIndex: nat, value: bool)
      requires Valid() && pieceIndex < complete.Length
      modifies complete
      ensures complete[..] == old(complete[..])[pieceIndex := value]
      ensures value ==> forall i :: 0 <= i < |fs.entries| ==>
                                      old(Prefix(fs, complete[..], i, 0)) <= Prefix(fs, complete[..], i, 0)
    {
      complete[pieceIndex] := value;
      if value {
        forall i | 0 <= i < |fs.entries|
          ensures old(Prefix(fs, complete[..], i, 0)) <= Prefix(fs, complete[..], i, 0)
        {
          PrefixMonotone(fs, old(complete[..]), complete[..], i);
        }
      }
    }

    /** As many bytes as the file's longest prefix that lies in complete pieces has. */
    method GetSequentialDownloadedBytes(fileIndex: nat) returns (downloaded: nat)
      requires Valid() && fileIndex < |fs.entries|
      ensures downloaded == Prefix(fs, complete[..], fileIndex, 0)
    {
      var pieces := files[fileIndex];
      ghost var first, last := MapFile(fs, fileIndex, 0), MapFile(fs, fileIndex, fs.entries[fileIndex].size - 1);
      RowBoundsHold(fs, fileIndex);
      downloaded := 0;
      for i := 0 to |pieces|
        invariant downloaded == Before(fs.entries, fileIndex, Start(fs, first + i))
        invariant forall j :: first <= j < first + i ==> complete[j]
      {
        var pieceIndex := pieces[i];
        if complete[pieceIndex] {
          downloaded := downloaded + sizes[fileIndex][i];
        } else {
          PrefixOfPieces(fs, complete[..], fileIndex, first, last, i);
          return;
        }
      }
      PrefixOfPieces(fs, complete[..], fileIndex, first, last, |pieces|);
    }

    /** The complete pieces the file begins with; the bytes that have arrived are theirs. */
    method GetSequentialDownloadedPieces(fileIndex: nat) returns (count: nat)
      requires Valid() && fileIndex < |fs.entries|
      ensures count <= |files[fileIndex]|
      ensures forall j :: 0 <= j < count ==> files[fileIndex][j] < complete.Length && complete[files[fileIndex][j]]
      ensures Sum(sizes[fileIndex][..count]) == Prefix(fs, complete[..], fileIndex, 0)
      ensures count < |files[fileIndex]| ==>
                files[fileIndex][count] < complete.Length && !complete[files[fileIndex][count]]
    {
      var pieces := files[fileIndex];
      ghost var first, last := MapFile(fs, fileIndex, 0), MapFile(fs, fileIndex, fs.entries[fileIndex].size - 1);
      RowBoundsHold(fs, fileIndex);
      count := 0;
      for i := 0 to |pieces|
        invariant count == i
        invariant forall j :: first <= j < first + i ==> complete[j]
      {
        var pieceIndex := pieces[i];
        if complete[pieceIndex] {
          count := count + 1;
        } else {
          break;
        }
      }
      RowSum(fs, fileIndex, pieces, sizes[fileIndex], count);
      PrefixOfPieces(fs, complete[..], fileIndex, first, last, count);
    }
  }
}
