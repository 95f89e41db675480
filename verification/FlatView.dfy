/** What a torrent's bytes are, wherever they are kept: the reference definition the block
    layer and the layout changes are proved against.

    A file with priority 0 (`dont_download`) keeps its bytes in the part file, at their
    torrent-global offset; every other file keeps them in its own public file; pad files are
    kept nowhere and read as zero. */
module FlatView {
  import opened Bytes
  import opened Layout

  /** The contents of every file under the granted tree, by path. */
  type Store = map<string, seq<byte>>

  const DONT_DOWNLOAD: nat := 0

  datatype Torrent = Torrent(files: seq<FileEntry>, priorities: seq<nat>, paths: seq<string>, part: string)
  {
    predicate WellFormed() {
      |priorities| == |files| && |paths| == |files|
    }

    predicate Skipped(i: nat)
      requires WellFormed() && i < |files|
    {
      priorities[i] == DONT_DOWNLOAD
    }

    /** The file on disk that holds file i's bytes. */
    function HomePath(i: nat): string
      requires WellFormed() && i < |files|
    {
      if Skipped(i) then part else paths[i]
    }

    /** Where byte o of file i is in the file that holds it. */
    function HomeOffset(i: nat, o: nat): nat
      requires WellFormed() && i < |files|
    {
      if Skipped(i) then Offset(files, i) + o else o
    }

    /** The environment assumption on names: files that hold data have different paths, and none
        of them is the part file. */
    predicate Distinct() {
      && WellFormed()
      && (forall i, j :: 0 <= i < j < |files| && !files[i].pad && !files[j].pad ==> paths[i] != paths[j])
      && (forall i :: 0 <= i < |files| && !files[i].pad ==> paths[i] != part)
    }

    /** Every path the torrent keeps bytes at. */
    function Footprint(): set<string>
      requires WellFormed()
    {
      {part} + set i | 0 <= i < |files| && !files[i].pad :: paths[i]
    }
  }

  /** A missing file is an empty one to a reader; whether it exists is `path in store`. */
  function Content(store: Store, path: string): seq<byte> {
    if path in store then store[path] else []
  }

  predicate IsPad(t: Torrent, p: nat)
    requires p < Total(t.files)
  {
    t.files[FileAt(t.files, p)].pad
  }

  function FlatByte(t: Torrent, store: Store, p: nat): byte
    requires t.WellFormed() && p < Total(t.files)
  {
    var i := FileAt(t.files, p);
    if t.files[i].pad then 0
    else ByteOrZero(Content(store, t.HomePath(i)), t.HomeOffset(i, p - Offset(t.files, i)))
  }

  /** The torrent as one flat byte array; a byte that was never written is zero. */
  function Flat(t: Torrent, store: Store): (r: seq<byte>)
    requires t.WellFormed()
    ensures |r| == Total(t.files)
    ensures forall p :: 0 <= p < |r| ==> r[p] == FlatByte(t, store, p)
  {
    seq(Total(t.files), p requires 0 <= p < Total(t.files) => FlatByte(t, store, p))
  }

  /** Byte p can be read: the file that holds it exists and is long enough. */
  predicate Present(t: Torrent, store: Store, p: nat)
    requires t.WellFormed() && p < Total(t.files)
  {
    var i := FileAt(t.files, p);
    t.files[i].pad || t.HomeOffset(i, p - Offset(t.files, i)) < |Content(store, t.HomePath(i))|
  }

  /** Nothing readable got lost between the two states. */
  predicate KeepsPresent(t: Torrent, store: Store, t': Torrent, store': Store)
    requires t.WellFormed() && t'.WellFormed() && t.files == t'.files
  {
    forall p :: 0 <= p < Total(t.files) && Present(t, store, p) ==> Present(t', store', p)
  }

  /** Files at paths outside `touched` are as they were. */
  ghost predicate SameOutside(store: Store, store': Store, touched: set<string>) {
    forall path :: path !in touched ==>
                     (path in store <==> path in store') && Content(store, path) == Content(store', path)
  }

  lemma SameOutsideTransitive(a: Store, b: Store, c: Store, touched: set<string>)
    requires SameOutside(a, b, touched) && SameOutside(b, c, touched)
    ensures SameOutside(a, c, touched)
  {
  }

  /** The flat array after `data` was written at `start`: the bytes of pad files stay. */
  function Overlay(t: Torrent, flat: seq<byte>, start: nat, data: seq<byte>): (r: seq<byte>)
    requires |flat| == Total(t.files)
    ensures |r| == |flat|
    ensures forall p :: 0 <= p < |r| ==>
                          r[p] == if start <= p < start + |data| && !IsPad(t, p) then data[p - start] else flat[p]
  {
    seq(|flat|, p requires 0 <= p < |flat| =>
          if start <= p < start + |data| && !IsPad(t, p) then data[p - start] else flat[p])
  }

  lemma OverlayConcat(t: Torrent, flat: seq<byte>, start: nat, first: seq<byte>, second: seq<byte>)
    requires |flat| == Total(t.files)
    ensures Overlay(t, Overlay(t, flat, start, first), start + |first|, second) == Overlay(t, flat, start, first + second)
  {
  }

  /** Under `Distinct` a file on disk holds the bytes of one file, or the part file's of all
      skipped ones at different offsets: bytes outside a slice of file i are kept outside its
      place. */
  lemma HomesApart(t: Torrent, i: nat, o: nat, n: nat, p: nat)
    requires t.Distinct() && InFile(t, i, o, n) && p < Total(t.files) && !IsPad(t, p)
    requires !(Offset(t.files, i) + o <= p < Offset(t.files, i) + o + n)
    ensures
      var j := FileAt(t.files, p);
      t.HomePath(i) == t.HomePath(j) ==>
        !(t.HomeOffset(i, o) <= t.HomeOffset(j, p - Offset(t.files, j)) < t.HomeOffset(i, o) + n)
  {
  }

  lemma WriteAtNothing(store: Store, path: string, offset: nat, data: seq<byte>)
    requires path in store && |data| == 0
    ensures store == store[path := WriteAt(store[path], offset, data)]
  {
  }

  lemma SameOutsideWider(a: Store, b: Store, touched: set<string>, more: set<string>)
    requires SameOutside(a, b, touched) && touched <= more
    ensures SameOutside(a, b, more)
  {
  }

  lemma HomeInFootprint(t: Torrent, i: nat)
    requires t.WellFormed() && i < |t.files| && !t.files[i].pad
    ensures t.HomePath(i) in t.Footprint() && t.paths[i] in t.Footprint()
  {
  }

  lemma KeepsPresentTransitive(t: Torrent, a: Store, b: Store, c: Store)
    requires t.WellFormed() && KeepsPresent(t, a, t, b) && KeepsPresent(t, b, t, c)
    ensures KeepsPresent(t, a, t, c)
  {
  }

  /** All bytes of a range can be read. */
  predicate AllPresent(t: Torrent, store: Store, from: nat, n: nat)
    requires t.WellFormed()
  {
    forall p :: from <= p < from + n && p < Total(t.files) ==> Present(t, store, p)
  }

  predicate InFile(t: Torrent, i: nat, o: nat, n: nat) {
    i < |t.files| && !t.files[i].pad && o + n <= t.files[i].size
  }

  /** What a write to the file that holds part of file i does to the flat array. */
  lemma WriteHome(t: Torrent, store: Store, store': Store, i: nat, o: nat, data: seq<byte>)
    requires t.Distinct() && InFile(t, i, o, |data|)
    requires SameOutside(store, store', {t.HomePath(i)})
    requires Content(store', t.HomePath(i)) == WriteAt(Content(store, t.HomePath(i)), t.HomeOffset(i, o), data)
    ensures Flat(t, store') == Overlay(t, Flat(t, store), Offset(t.files, i) + o, data)
    ensures KeepsPresent(t, store, t, store')
    ensures AllPresent(t, store', Offset(t.files, i) + o, |data|)
  {
    hide Flat, FlatByte, Present, IsPad, FileAt, Offset, Total, Content, WriteAt, Overlay;
    var start := Offset(t.files, i) + o;
    forall p | 0 <= p < Total(t.files)
      ensures FlatByte(t, store', p) == if start <= p < start + |data| && !IsPad(t, p) then data[p - start]
                                         else FlatByte(t, store, p)
      ensures Present(t, store, p) ==> Present(t, store', p)
      ensures start <= p < start + |data| ==> Present(t, store', p)
    {
      WriteHomeAt(t, store, store', i, o, data, p);
    }
    ByteByByte(t, store, store', start, data);
  }

  lemma ByteByByte(t: Torrent, store: Store, store': Store, start: nat, data: seq<byte>)
    requires t.WellFormed()
    requires forall p :: 0 <= p < Total(t.files) ==>
                           FlatByte(t, store', p) == if start <= p < start + |data| && !IsPad(t, p) then data[p - start]
                                                     else FlatByte(t, store, p)
    requires forall p :: 0 <= p < Total(t.files) && Present(t, store, p) ==> Present(t, store', p)
    requires forall p :: 0 <= p < Total(t.files) && start <= p < start + |data| ==> Present(t, store', p)
    ensures Flat(t, store') == Overlay(t, Flat(t, store), start, data)
    ensures KeepsPresent(t, store, t, store') && AllPresent(t, store', start, |data|)
  {
    hide FlatByte, Present, IsPad, Total;
    assert Flat(t, store') == Overlay(t, Flat(t, store), start, data);
  }

  lemma WriteHomeAt(t: Torrent, store: Store, store': Store, i: nat, o: nat, data: seq<byte>, p: nat)
    requires t.Distinct() && InFile(t, i, o, |data|) && p < Total(t.files)
    requires SameOutside(store, store', {t.HomePath(i)})
    requires Content(store', t.HomePath(i)) == WriteAt(Content(store, t.HomePath(i)), t.HomeOffset(i, o), data)
    ensures
      var start := Offset(t.files, i) + o;
      FlatByte(t, store', p) == if start <= p < start + |data| && !IsPad(t, p) then data[p - start]
                                else FlatByte(t, store, p)
    ensures Present(t, store, p) ==> Present(t, store', p)
    ensures Offset(t.files, i) + o <= p < Offset(t.files, i) + o + |data| ==> Present(t, store', p)
  {
    hide FileAt, Offset, Total, WriteAt, Content, ByteOrZero;
    var start := Offset(t.files, i) + o;
    var j := FileAt(t.files, p);
    var k := t.HomeOffset(j, p - Offset(t.files, j));
    if start <= p < start + |data| {
      FileAtUnique(t.files, i, p);
    } else if !t.files[j].pad && t.HomePath(j) == t.HomePath(i) {
      HomesApart(t, i, o, |data|, p);
    }
  }

  /** What a read of the file that holds part of file i sees of the flat array. */
  lemma ReadHome(t: Torrent, store: Store, i: nat, o: nat, k: nat)
    requires t.WellFormed() && InFile(t, i, o, k + 1)
    ensures
      var p := Offset(t.files, i) + o + k;
      && p < Total(t.files)
      && Flat(t, store)[p] == ByteOrZero(Content(store, t.HomePath(i)), t.HomeOffset(i, o) + k)
      && (Present(t, store, p) <==> t.HomeOffset(i, o) + k < |Content(store, t.HomePath(i))|)
  {
    hide Flat, FileAt, Offset, Total;
    FileAtUnique(t.files, i, Offset(t.files, i) + o + k);
  }

  /** A slice of the flat array is the corresponding stretch of the file that holds it. */
  lemma ReadSliceFlat(t: Torrent, store: Store, s: Slice, g: nat)
    requires t.WellFormed() && SliceInFile(t.files, s) && !t.files[s.file].pad && g == GlobalStart(t.files, s)
    ensures g + s.size <= Total(t.files)
    ensures
      var body := Content(store, t.HomePath(s.file));
      forall p :: g <= p < g + s.size ==>
                    && Flat(t, store)[p] == ByteOrZero(body, t.HomeOffset(s.file, s.offset) + p - g)
                    && (Present(t, store, p) <==> t.HomeOffset(s.file, s.offset) + p - g < |body|)
  {
    OffsetMonotone(t.files, s.file + 1, |t.files|);
    forall p | g <= p < g + s.size
      ensures
        var body := Content(store, t.HomePath(s.file));
        && Flat(t, store)[p] == ByteOrZero(body, t.HomeOffset(s.file, s.offset) + p - g)
        && (Present(t, store, p) <==> t.HomeOffset(s.file, s.offset) + p - g < |body|)
    {
      ReadHome(t, store, s.file, s.offset, p - g);
    }
  }

  /** The effect of a write on everything the torrent's readers see. */
  ghost predicate Written(t: Torrent, store: Store, store': Store, from: nat, data: seq<byte>)
    requires t.WellFormed()
  {
    && Flat(t, store') == Overlay(t, Flat(t, store), from, data)
    && KeepsPresent(t, store, t, store')
    && AllPresent(t, store', from, |data|)
    && SameOutside(store, store', t.Footprint())
  }

  lemma WrittenNothing(t: Torrent, store: Store, from: nat)
    requires t.WellFormed()
    ensures Written(t, store, store, from, [])
  {
  }

  lemma WrittenMore(t: Torrent, a: Store, b: Store, c: Store, from: nat, first: seq<byte>, second: seq<byte>)
    requires t.WellFormed() && Written(t, a, b, from, first) && Written(t, b, c, from + |first|, second)
    ensures Written(t, a, c, from, first + second)
  {
    OverlayConcat(t, Flat(t, a), from, first, second);
    KeepsPresentTransitive(t, a, b, c);
    SameOutsideTransitive(a, b, c, t.Footprint());
    forall p | from <= p < from + |first + second| && p < Total(t.files)
      ensures Present(t, c, p)
    {
      if p < from + |first| {
        assert Present(t, b, p);
      }
    }
  }

  /** The files on disk that hold bytes of the range. */
  function HomesOf(t: Torrent, from: nat, n: nat): set<string>
    requires t.WellFormed()
  {
    set i | 0 <= i < |t.files| && !t.files[i].pad && Overlaps(t.files, i, from, n) :: t.HomePath(i)
  }

  /** Byte p is kept at the very end of a file of this length at the path. */
  predicate EndsAt(t: Torrent, p: nat, path: string, length: nat)
    requires t.WellFormed() && p < Total(t.files)
  {
    var i := FileAt(t.files, p);
    !t.files[i].pad && t.HomePath(i) == path && t.HomeOffset(i, p - Offset(t.files, i)) + 1 == length
  }

  predicate EndsWithin(t: Torrent, from: nat, n: nat, path: string, length: nat)
    requires t.WellFormed()
  {
    exists p :: from <= p < from + n && p < Total(t.files) && EndsAt(t, p, path, length)
  }

  /** A write makes a file longer only to end with a byte it wrote. */
  predicate GrownTo(t: Torrent, store: Store, store': Store, from: nat, n: nat, path: string)
    requires t.WellFormed()
  {
    var was, now := |Content(store, path)|, |Content(store', path)|;
    was == now || (was < now && EndsWithin(t, from, n, path, now))
  }

  ghost predicate Grown(t: Torrent, store: Store, store': Store, from: nat, n: nat)
    requires t.WellFormed()
  {
    forall path :: GrownTo(t, store, store', from, n, path)
  }

  lemma GrownNothing(t: Torrent, store: Store, from: nat)
    requires t.WellFormed()
    ensures Grown(t, store, store, from, 0) && SameOutside(store, store, HomesOf(t, from, 0))
  {
  }

  lemma GrownMore(t: Torrent, a: Store, b: Store, c: Store, from: nat, first: nat, second: nat)
    requires t.WellFormed() && Grown(t, a, b, from, first) && Grown(t, b, c, from + first, second)
    ensures Grown(t, a, c, from, first + second)
  {
    var n := first + second;
    forall path
      ensures GrownTo(t, a, c, from, n, path)
    {
      assert GrownTo(t, a, b, from, first, path) && GrownTo(t, b, c, from + first, second, path);
    }
  }

  lemma GrownSame(t: Torrent, store: Store, from: nat, n: nat)
    requires t.WellFormed()
    ensures Grown(t, store, store, from, n)
  {
  }

  lemma GrownSlice(t: Torrent, store: Store, store': Store, s: Slice, data: seq<byte>)
    requires t.WellFormed() && SliceInFile(t.files, s) && !t.files[s.file].pad && |data| <= s.size
    requires SameOutside(store, store', {t.HomePath(s.file)})
    requires Content(store', t.HomePath(s.file))
          == WriteAt(Content(store, t.HomePath(s.file)), t.HomeOffset(s.file, s.offset), data)
    ensures Grown(t, store, store', GlobalStart(t.files, s), |data|)
  {
    hide Offset, Total, FileAt, WriteAt, Content;
    var start, n := GlobalStart(t.files, s), |data|;
    forall path
      ensures GrownTo(t, store, store', start, n, path)
    {
      if path == t.HomePath(s.file) && n > 0 {
        var p := start + n - 1;
        FileAtUnique(t.files, s.file, p);
        assert |Content(store', path)| == |Content(store, path)| || EndsAt(t, p, path, |Content(store', path)|);
      }
    }
  }

  lemma SliceHome(t: Torrent, s: Slice, from: nat, n: nat)
    requires t.WellFormed() && SliceInFile(t.files, s) && !t.files[s.file].pad
    requires from <= GlobalStart(t.files, s) < from + n
    ensures t.HomePath(s.file) in HomesOf(t, from, n)
  {
  }

  /** Writing to the file that holds a slice is writing to the flat array. */
  lemma WrittenSlice(t: Torrent, store: Store, store': Store, s: Slice, data: seq<byte>)
    requires t.Distinct() && SliceInFile(t.files, s) && !t.files[s.file].pad && |data| <= s.size
    requires SameOutside(store, store', {t.HomePath(s.file)})
    requires Content(store', t.HomePath(s.file))
          == WriteAt(Content(store, t.HomePath(s.file)), t.HomeOffset(s.file, s.offset), data)
    ensures Written(t, store, store', GlobalStart(t.files, s), data)
  {
    hide *;
    SliceIsInFile(t, s, |data|);
    WriteHome(t, store, store', s.file, s.offset, data);
    HomeInFootprint(t, s.file);
    SameOutsideWider(store, store', {t.HomePath(s.file)}, t.Footprint());
    WrittenIntro(t, store, store', GlobalStart(t.files, s), data);
  }

  lemma SliceIsInFile(t: Torrent, s: Slice, n: nat)
    requires t.Distinct() && SliceInFile(t.files, s) && !t.files[s.file].pad && n <= s.size
    ensures t.WellFormed() && InFile(t, s.file, s.offset, n) && s.file < |t.files|
    ensures GlobalStart(t.files, s) == Offset(t.files, s.file) + s.offset
  {
  }

  lemma WrittenIntro(t: Torrent, store: Store, store': Store, from: nat, data: seq<byte>)
    requires t.WellFormed()
    requires Flat(t, store') == Overlay(t, Flat(t, store), from, data)
    requires KeepsPresent(t, store, t, store') && AllPresent(t, store', from, |data|)
    requires SameOutside(store, store', t.Footprint())
    ensures Written(t, store, store', from, data)
  {
  }

  /** The bytes of a pad file are dropped. */
  lemma WrittenPad(t: Torrent, store: Store, s: Slice, data: seq<byte>)
    requires t.WellFormed() && SliceInFile(t.files, s) && t.files[s.file].pad && |data| == s.size
    ensures Written(t, store, store, GlobalStart(t.files, s), data)
  {
    PadSlice(t, store, s, GlobalStart(t.files, s));
    forall p | GlobalStart(t.files, s) <= p < GlobalStart(t.files, s) + s.size
      ensures Present(t, store, p)
    {
      assert IsPad(t, p);
    }
    assert Overlay(t, Flat(t, store), GlobalStart(t.files, s), data) == Flat(t, store);
  }

  lemma PadSlice(t: Torrent, store: Store, s: Slice, g: nat)
    requires t.WellFormed() && SliceInFile(t.files, s) && t.files[s.file].pad && g == GlobalStart(t.files, s)
    ensures g + s.size <= Total(t.files)
    ensures forall p :: g <= p < g + s.size ==> IsPad(t, p) && Flat(t, store)[p] == 0
  {
    OffsetMonotone(t.files, s.file + 1, |t.files|);
    forall p | g <= p < g + s.size
      ensures IsPad(t, p) && Flat(t, store)[p] == 0
    {
      FileAtUnique(t.files, s.file, p);
    }
  }

  /** A change to files the torrent keeps nothing in is invisible to it. */
  lemma FlatFrame(t: Torrent, store: Store, store': Store, touched: set<string>)
    requires t.WellFormed() && SameOutside(store, store', touched) && touched !! t.Footprint()
    ensures Flat(t, store') == Flat(t, store)
    ensures KeepsPresent(t, store, t, store')
  {
    forall p | 0 <= p < Total(t.files)
      ensures FlatByte(t, store', p) == FlatByte(t, store, p)
      ensures Present(t, store, p) ==> Present(t, store', p)
    {
      var i := FileAt(t.files, p);
      if !t.files[i].pad {
        assert t.HomePath(i) in t.Footprint();
      }
    }
  }
}
