/** The part of libtorrent's `file_storage` the disk backend relies on: files laid end to end
    in one torrent-global byte range, cut into pieces of equal length. */
module Layout {
  import opened Bytes

  const DEFAULT_BLOCK_SIZE: nat := 0x4000

  datatype FileEntry = FileEntry(size: nat, pad: bool)

  /** `size` bytes at `offset` inside file number `file`. */
  datatype Slice = Slice(file: nat, offset: nat, size: nat)

  /** The torrent-global offset of file i, i.e. the sizes before it. */
  function Offset(fs: seq<FileEntry>, i: nat): nat
    requires i <= |fs|
  {
    if i == 0 then 0 else Offset(fs, i - 1) + fs[i - 1].size
  }

  function Total(fs: seq<FileEntry>): nat {
    Offset(fs, |fs|)
  }

  lemma {:induction false} OffsetMonotone(fs: seq<FileEntry>, i: nat, j: nat)
    requires i <= j <= |fs|
    ensures Offset(fs, i) <= Offset(fs, j)
  {
    if i < j {
      OffsetMonotone(fs, i, j - 1);
    }
  }

  /** The file holding torrent-global byte p among the first n files. */
  function FileBefore(fs: seq<FileEntry>, n: nat, p: nat): (i: nat)
    requires n <= |fs| && p < Offset(fs, n)
    ensures i < n && Offset(fs, i) <= p < Offset(fs, i) + fs[i].size
  {
    if Offset(fs, n - 1) <= p then n - 1 else FileBefore(fs, n - 1, p)
  }

  function FileAt(fs: seq<FileEntry>, p: nat): (i: nat)
    requires p < Total(fs)
    ensures i < |fs| && Offset(fs, i) <= p < Offset(fs, i) + fs[i].size
  {
    FileBefore(fs, |fs|, p)
  }

  /** A byte belongs to one file only. */
  lemma {:induction false} FileAtUnique(fs: seq<FileEntry>, i: nat, p: nat)
    requires i < |fs| && Offset(fs, i) <= p < Offset(fs, i) + fs[i].size
    ensures p < Total(fs) && FileAt(fs, p) == i
  {
    OffsetMonotone(fs, i + 1, |fs|);
    var j := FileAt(fs, p);
    if j < i {
      OffsetMonotone(fs, j + 1, i);
    } else if i < j {
      OffsetMonotone(fs, i + 1, j);
    }
  }

  /** `map_block`'s walk from file `first` on, with `offset` counted from that file's start.
      Files the offset lies beyond, empty ones among them, give no slice. */
  function MapFrom(fs: seq<FileEntry>, first: nat, offset: nat, size: nat): seq<Slice>
    requires first <= |fs|
    decreases |fs| - first
  {
    if size == 0 || first == |fs| then []
    else if offset < fs[first].size then
      var n := Min(fs[first].size - offset, size);
      [Slice(first, offset, n)] + MapFrom(fs, first + 1, 0, size - n)
    else MapFrom(fs, first + 1, offset - fs[first].size, size)
  }

  /** A request that runs past the end of the torrent is shortened. */
  function Clamp(fs: seq<FileEntry>, start: nat, size: nat): (n: nat)
    ensures n <= size && (n > 0 ==> start + n <= Total(fs))
    ensures start + size <= Total(fs) ==> n == size
  {
    if start + size <= Total(fs) then size else Max(0, Total(fs) - start)
  }

  /** The slices of the torrent-global range [start, start + size). */
  function MapBytes(fs: seq<FileEntry>, start: nat, size: nat): seq<Slice> {
    MapFrom(fs, 0, start, Clamp(fs, start, size))
  }

  predicate SliceInFile(fs: seq<FileEntry>, s: Slice) {
    s.file < |fs| && 0 < s.size && s.offset + s.size <= fs[s.file].size
  }

  lemma SliceBounds(fs: seq<FileEntry>, s: Slice)
    requires SliceInFile(fs, s)
    ensures s.file < |fs| && 0 < s.size && s.offset + s.size <= fs[s.file].size
  {
  }

  /** Where a slice begins in the torrent-global range. */
  function GlobalStart(fs: seq<FileEntry>, s: Slice): nat
    requires s.file < |fs|
  {
    Offset(fs, s.file) + s.offset
  }

  /** The slices lie inside their files and follow each other without gap or overlap from
      `start` on, `size` bytes in all. */
  predicate Tiles(fs: seq<FileEntry>, slices: seq<Slice>, start: nat, size: nat) {
    if slices == [] then size == 0
    else
      && SliceInFile(fs, slices[0])
      && GlobalStart(fs, slices[0]) == start
      && slices[0].size <= size
      && Tiles(fs, slices[1..], start + slices[0].size, size - slices[0].size)
  }

  predicate FilesAscend(slices: seq<Slice>, first: nat) {
    && (forall k :: 0 <= k < |slices| ==> slices[k].file >= first)
    && (forall k, l :: 0 <= k < l < |slices| ==> slices[k].file < slices[l].file)
  }

  lemma {:induction false} MapFromAscends(fs: seq<FileEntry>, first: nat, offset: nat, size: nat)
    requires first <= |fs|
    ensures FilesAscend(MapFrom(fs, first, offset, size), first)
    decreases |fs| - first
  {
    if size == 0 || first == |fs| {
    } else if offset < fs[first].size {
      MapFromAscends(fs, first + 1, 0, size - Min(fs[first].size - offset, size));
    } else {
      MapFromAscends(fs, first + 1, offset - fs[first].size, size);
    }
  }

  lemma {:induction false} MapFromTiles(fs: seq<FileEntry>, first: nat, offset: nat, size: nat)
    requires first <= |fs| && (size > 0 ==> Offset(fs, first) + offset + size <= Total(fs))
    ensures Tiles(fs, MapFrom(fs, first, offset, size), Offset(fs, first) + offset, size)
    decreases |fs| - first
  {
    if size == 0 || first == |fs| {
    } else {
      assert Offset(fs, first + 1) == Offset(fs, first) + fs[first].size;
      if offset < fs[first].size {
        var n := Min(fs[first].size - offset, size);
        MapFromTiles(fs, first + 1, 0, size - n);
        TilesCons(fs, Slice(first, offset, n), MapFrom(fs, first + 1, 0, size - n), size);
      } else {
        MapFromTiles(fs, first + 1, offset - fs[first].size, size);
      }
    }
  }

  lemma {:induction false} TilesCons(fs: seq<FileEntry>, s: Slice, rest: seq<Slice>, size: nat)
    requires SliceInFile(fs, s) && s.size <= size
    requires s.size == size ==> rest == []
    requires s.size < size ==>
               s.offset + s.size == fs[s.file].size && Tiles(fs, rest, Offset(fs, s.file + 1), size - s.size)
    ensures Tiles(fs, [s] + rest, GlobalStart(fs, s), size)
  {
    assert ([s] + rest)[1..] == rest;
    assert Offset(fs, s.file + 1) == Offset(fs, s.file) + fs[s.file].size;
  }

  /** `map_block` tiles the (shortened) request: every byte of it lies in exactly one slice,
      in order, and no file appears twice. */
  lemma MapBytesTiles(fs: seq<FileEntry>, start: nat, size: nat)
    ensures Tiles(fs, MapBytes(fs, start, size), start, Clamp(fs, start, size))
    ensures FilesAscend(MapBytes(fs, start, size), 0)
  {
    MapFromTiles(fs, 0, start, Clamp(fs, start, size));
    MapFromAscends(fs, 0, start, Clamp(fs, start, size));
  }

  /** The bytes of the first k slices. */
  function SizeOf(slices: seq<Slice>, k: nat): (n: nat)
    requires k <= |slices|
    ensures k == 0 ==> n == 0
  {
    if k == 0 then 0 else SizeOf(slices, k - 1) + slices[k - 1].size
  }

  lemma {:induction false} SizeOfTail(slices: seq<Slice>, k: nat)
    requires 1 <= k <= |slices|
    ensures SizeOf(slices, k) == slices[0].size + SizeOf(slices[1..], k - 1)
  {
    if k > 1 {
      SizeOfTail(slices, k - 1);
      assert slices[1..][k - 2] == slices[k - 1];
    }
  }

  /** What tiling says about slice k: it starts where the first k slices end. */
  lemma {:induction false} TileAt(fs: seq<FileEntry>, slices: seq<Slice>, start: nat, size: nat, k: nat)
    requires Tiles(fs, slices, start, size) && k < |slices|
    ensures SliceInFile(fs, slices[k])
    ensures GlobalStart(fs, slices[k]) == start + SizeOf(slices, k)
    ensures SizeOf(slices, k) + slices[k].size == SizeOf(slices, k + 1) <= size
  {
    if k > 0 {
      TileAt(fs, slices[1..], start + slices[0].size, size - slices[0].size, k - 1);
      SizeOfTail(slices, k);
      SizeOfTail(slices, k + 1);
    }
  }

  lemma {:induction false} TilesTotal(fs: seq<FileEntry>, slices: seq<Slice>, start: nat, size: nat)
    requires Tiles(fs, slices, start, size)
    ensures SizeOf(slices, |slices|) == size
  {
    if slices != [] {
      TilesTotal(fs, slices[1..], start + slices[0].size, size - slices[0].size);
      SizeOfTail(slices, |slices|);
    }
  }

  /** The file and the range have a byte in common. */
  predicate Overlaps(fs: seq<FileEntry>, i: nat, start: nat, size: nat) {
    i < |fs| && Offset(fs, i) < start + size && start < Offset(fs, i) + fs[i].size && 0 < size && 0 < fs[i].size
  }

  lemma {:induction false} TileCovers(fs: seq<FileEntry>, slices: seq<Slice>, start: nat, size: nat,
                                      p: nat) returns (k: nat)
    requires Tiles(fs, slices, start, size) && start <= p < start + size
    ensures k < |slices| && SliceInFile(fs, slices[k])
    ensures GlobalStart(fs, slices[k]) <= p < GlobalStart(fs, slices[k]) + slices[k].size
  {
    if p < start + slices[0].size {
      k := 0;
    } else {
      k := TileCovers(fs, slices[1..], start + slices[0].size, size - slices[0].size, p);
      k := k + 1;
    }
  }

  /** `map_block` names exactly the files the range overlaps. */
  lemma SlicesOverlap(fs: seq<FileEntry>, start: nat, size: nat, i: nat)
    requires start + size <= Total(fs)
    ensures (exists k :: 0 <= k < |MapBytes(fs, start, size)| && MapBytes(fs, start, size)[k].file == i) <==>
            Overlaps(fs, i, start, size)
  {
    var slices := MapBytes(fs, start, size);
    MapBytesTiles(fs, start, size);
    if k :| 0 <= k < |slices| && slices[k].file == i {
      TileAt(fs, slices, start, size, k);
    }
    if Overlaps(fs, i, start, size) {
      var p := Max(start, Offset(fs, i));
      var k := TileCovers(fs, slices, start, size, p);
      FileAtUnique(fs, i, p);
      FileAtUnique(fs, slices[k].file, p);
    }
  }

  /** The files of a torrent and its piece length. */
  datatype FileStorage = FileStorage(entries: seq<FileEntry>, pieceLength: nat)
  {
    predicate Valid() {
      pieceLength > 0
    }

    function TotalSize(): nat {
      Total(entries)
    }

    function NumPieces(): nat
      requires Valid()
    {
      (TotalSize() + pieceLength - 1) / pieceLength
    }

    function PieceStart(piece: nat): nat {
      piece * pieceLength
    }

    function PieceSize(piece: nat): nat
      requires PieceStart(piece) <= TotalSize()
    {
      Min(pieceLength, TotalSize() - PieceStart(piece))
    }

    /** The size of an existing piece. */
    function PieceBytes(piece: nat): (n: nat)
      requires Valid() && piece < NumPieces()
      ensures PieceStart(piece) + n <= TotalSize() && 0 < n
    {
      PieceExists(piece);
      PieceSize(piece)
    }

    lemma PieceExists(piece: nat)
      requires Valid() && piece < NumPieces()
      ensures PieceStart(piece) < TotalSize()
    {
      var total, length := TotalSize(), pieceLength;
      assert piece + 1 <= (total + length - 1) / length;
      assert (piece + 1) * length <= total + length - 1 by {
        MultiplyDivide(total + length - 1, length, piece + 1);
      }
    }

    static lemma MultiplyDivide(a: nat, b: nat, q: nat)
      requires b > 0 && q <= a / b
      ensures q * b <= a
    {
      assert a == (a / b) * b + a % b;
      assert q * b <= (a / b) * b;
    }

    /** The bytes of the piece that belong to the file its first byte lies in. */
    function PieceSize2(piece: nat): (n: nat)
      requires PieceStart(piece) < TotalSize()
      ensures PieceStart(piece) + n <= TotalSize()
    {
      var i := FileAt(entries, PieceStart(piece));
      OffsetMonotone(entries, i + 1, |entries|);
      Min(pieceLength, entries[i].size - (PieceStart(piece) - Offset(entries, i)))
    }

    /** How many of the bytes asked for the torrent has. */
    function Request(piece: nat, start: nat, length: nat): (n: nat)
      ensures n <= length
    {
      Clamp(entries, PieceStart(piece) + start, length)
    }

    lemma TotalIs()
      ensures TotalSize() == Total(entries)
    {
    }

    lemma RequestIsClamp(piece: nat, start: nat, length: nat)
      ensures Request(piece, start, length) == Clamp(entries, PieceStart(piece) + start, length)
    {
    }

    function MapBlock(piece: nat, start: nat, length: nat): seq<Slice> {
      MapBytes(entries, PieceStart(piece) + start, length)
    }
  }
}
