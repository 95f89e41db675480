/** Reading and writing piece requests. */
module BlockLayer {
  import opened Bytes
  import opened Errors
  import opened Layout
  import opened Paths
  import opened FlatView
  import opened Bridges
  import opened Descriptors
  import opened DescriptorCaches
  import opened Torrents

  /** The transfer loop of a read: the bytes at `offset` of the file go to output[at ..], until
      all have arrived, the file ends or the system reports an error. */
  method PreadSlice(bridge: Bridge, descriptor: int, output: array<byte>, at: nat, size: nat, offset: nat,
                    file: int, operation: Operation, ghost path: string)
    returns (n: nat, error: StorageError)
    requires bridge.Valid() && bridge.Denotes(descriptor, path) && at + size <= output.Length
    modifies bridge`interrupts, bridge`faults, output
    ensures bridge.faults >= old(bridge.faults)
    ensures n <= size && (error.NoError? <==> n == size)
    ensures forall m :: at <= m < at + n ==> output[m] == ByteOrZero(bridge.Contents()[path], offset + m - at)
    ensures forall m :: 0 <= m < output.Length && !(at <= m < at + size) ==> output[m] == old(output[m])
    ensures error.Failed? && error.code == EndOfFile ==> offset + n >= |bridge.Contents()[path]|
    ensures n > 0 ==> offset + n <= |bridge.Contents()[path]|
    ensures error.Failed? && bridge.faults == old(bridge.faults) ==> error.code == EndOfFile
  {
    var remaining: nat := size;
    while remaining > 0
      invariant remaining <= size && bridge.Untouched() && bridge.faults >= old(bridge.faults)
      invariant remaining < size ==> offset + size - remaining <= |bridge.Contents()[path]|
      invariant forall m :: at <= m < at + size - remaining ==>
                              output[m] == ByteOrZero(bridge.Contents()[path], offset + m - at)
      invariant forall m :: 0 <= m < output.Length && !(at <= m < at + size) ==> output[m] == old(output[m])
      decreases remaining, bridge.interrupts
    {
      var done := size - remaining;
      var result, errno := bridge.Pread(descriptor, output, at + done, remaining, offset + done, path);
      if result < 0 && errno == EINTR {
        continue;
      }
      if result < 0 {
        return done, MakeError(-errno, file, operation);
      }
      if result == 0 {
        return done, Failed(EndOfFile, file, operation);
      }
      remaining := remaining - result;
    }
    return size, NoError;
  }

  /** Opens the file that holds file i's bytes: the part file if i is skipped, else its own. */
  method OpenHome(cache: DescriptorCache, torrent: TorrentStorage, storage: nat, i: nat, write: bool)
    returns (descriptor: int, error: StorageError)
    requires cache.Valid() && torrent.Valid() && i < |torrent.files.entries|
    modifies cache`descriptors, cache`recency, cache`useCounter
    modifies cache.bridge`names, cache.bridge`bodies, cache.bridge`handles, cache.bridge`directories
    modifies cache.bridge`faults
    ensures cache.bridge.faults >= old(cache.bridge.faults)
    ensures cache.Valid()
    ensures Keys(cache.descriptors) <= Keys(old(cache.descriptors)) + {torrent.HomeKey(storage, i)}
    ensures descriptor < 0 <==> error.Failed?
    ensures error.Failed? ==> error.code.Errno? && cache.bridge.Contents() == old(cache.bridge.Contents())
    ensures
      var path := torrent.View().HomePath(i);
      && (error.Failed? && cache.bridge.faults == old(cache.bridge.faults) ==>
            !Safe(path) || (!write && path !in old(cache.bridge.Contents())))
      && (error.NoError? ==>
        && cache.bridge.Denotes(descriptor, path)
        && (write ==> cache.bridge.handles[descriptor].writable)
        && cache.bridge.Contents() == Opened(old(cache.bridge.Contents()), path, write))
  {
    var part := torrent.Skipped(i);
    descriptor, error := cache.OpenFile(
      storage, if part then -1 else i, if part then torrent.partPath else torrent.paths[i], write,
      if part then (if write then PartfileWrite else PartfileRead) else if write then FileWrite else FileRead);
  }

  /** Where byte `offset` of file i is in the file that holds it. */
  function HomeOffset(torrent: TorrentStorage, i: nat, offset: nat): nat
    reads torrent
    requires i < |torrent.files.entries|
  {
    if torrent.Skipped(i) then Offset(torrent.files.entries, i) + offset else offset
  }

  lemma HomeOffsetIs(torrent: TorrentStorage, i: nat, offset: nat)
    requires torrent.Valid() && i < |torrent.files.entries|
    ensures HomeOffset(torrent, i, offset) == torrent.View().HomeOffset(i, offset)
  {
  }

  /** Reads one slice of a file that is kept on disk. */
  method ReadSlice(cache: DescriptorCache, torrent: TorrentStorage, storage: nat, slice: Slice,
                   output: array<byte>, at: nat)
    returns (n: nat, error: StorageError)
    requires cache.Valid() && torrent.Valid()
    requires SliceInFile(torrent.files.entries, slice) && !torrent.files.entries[slice.file].pad
    requires at + slice.size <= output.Length
    modifies cache`descriptors, cache`recency, cache`useCounter, output
    modifies cache.bridge`names, cache.bridge`bodies, cache.bridge`handles, cache.bridge`directories, cache.bridge`interrupts
    modifies cache.bridge`faults
    ensures cache.bridge.faults >= old(cache.bridge.faults)
    ensures cache.Valid() && cache.bridge.Contents() == old(cache.bridge.Contents())
    ensures Keys(cache.descriptors) <= Keys(old(cache.descriptors)) + {torrent.HomeKey(storage, slice.file)}
    ensures n <= slice.size && (error.NoError? <==> n == slice.size)
    ensures
      var t := torrent.View();
      var body := Content(cache.bridge.Contents(), t.HomePath(slice.file));
      var offset := t.HomeOffset(slice.file, slice.offset);
      && (forall m :: at <= m < at + n ==> output[m] == ByteOrZero(body, offset + m - at))
      && (error.Failed? && error.code == EndOfFile ==> offset + n >= |body|)
      && (n > 0 ==> offset + n <= |body|)
      && (error.Failed? && cache.bridge.faults == old(cache.bridge.faults) ==>
            !Safe(t.HomePath(slice.file)) || offset + n >= |body|)
    ensures forall m :: 0 <= m < output.Length && !(at <= m < at + slice.size) ==> output[m] == old(output[m])
  {
    hide *;
    torrent.ViewWellFormed();
    SliceBounds(torrent.files.entries, slice);
    HomeOffsetIs(torrent, slice.file, slice.offset);
    ghost var store, path := cache.bridge.Contents(), torrent.View().HomePath(slice.file);
    OpenedForReading(store, path);
    var descriptor, failure := OpenHome(cache, torrent, storage, slice.file, false);
    if descriptor < 0 {
      return 0, failure;
    }
    cache.BridgeValid();
    cache.bridge.DenotesContents(descriptor, path);
    n, error := PreadSlice(cache.bridge, descriptor, output, at, slice.size,
                           HomeOffset(torrent, slice.file, slice.offset), slice.file,
                           if torrent.Skipped(slice.file) then PartfileRead else FileRead, path);
  }

  lemma OpenedForReading(store: Store, path: string)
    ensures Opened(store, path, false) == store
    ensures Content(store, path) == if path in store then store[path] else []
  {
  }

  /** The bytes of a slice can be read as far as the file that holds it goes. */
  lemma PresentStretch(t: Torrent, store: Store, g: nat, n: nat, size: nat, offset: nat, body: seq<byte>)
    requires t.WellFormed() && n <= size && g + size <= Total(t.files)
    requires forall p :: g <= p < g + size ==> (Present(t, store, p) <==> offset + p - g < |body|)
    requires n > 0 ==> offset + n <= |body|
    ensures AllPresent(t, store, g, n)
  {
  }

  lemma PresentPad(t: Torrent, store: Store, g: nat, n: nat)
    requires t.WellFormed() && g + n <= Total(t.files) && forall p :: g <= p < g + n ==> IsPad(t, p)
    ensures AllPresent(t, store, g, n)
  {
    forall p | g <= p < g + n
      ensures Present(t, store, p)
    {
      assert IsPad(t, p);
    }
  }

  lemma PresentMore(t: Torrent, store: Store, from: nat, done: nat, n: nat)
    requires t.WellFormed() && AllPresent(t, store, from, done) && AllPresent(t, store, from + done, n)
    ensures AllPresent(t, store, from, done + n)
  {
  }

  lemma PresentNothing(t: Torrent, store: Store, from: nat)
    requires t.WellFormed()
    ensures AllPresent(t, store, from, 0)
  {
  }

  /** One round of a read: the slice, which begins at flat position g, goes to output[at ..]. */
  method ReadPart(cache: DescriptorCache, torrent: TorrentStorage, storage: nat, slice: Slice,
                  output: array<byte>, at: nat, ghost g: nat, ghost flat: seq<byte>)
    returns (n: nat, error: StorageError)
    requires cache.Valid() && torrent.Valid()
    requires SliceInFile(torrent.files.entries, slice) && g == GlobalStart(torrent.files.entries, slice)
    requires at + slice.size <= output.Length
    requires flat == Flat(torrent.View(), cache.bridge.Contents())
    modifies cache`descriptors, cache`recency, cache`useCounter, output
    modifies cache.bridge`names, cache.bridge`bodies, cache.bridge`handles, cache.bridge`directories, cache.bridge`interrupts
    modifies cache.bridge`faults
    ensures cache.bridge.faults >= old(cache.bridge.faults)
    ensures cache.Valid() && cache.bridge.Contents() == old(cache.bridge.Contents())
    ensures Keys(cache.descriptors) <= Keys(old(cache.descriptors)) + torrent.HomeKeys(storage)
    ensures n <= slice.size && (error.NoError? <==> n == slice.size)
    ensures g + slice.size <= Total(torrent.files.entries)
    ensures output[at..at + n] == Sub(flat, g, n)
    ensures error.Failed? && error.code == EndOfFile ==> !Present(torrent.View(), cache.bridge.Contents(), g + n)
    ensures AllPresent(torrent.View(), cache.bridge.Contents(), g, n)
    ensures error.Failed? && cache.bridge.faults == old(cache.bridge.faults) ==>
              !HomesSafe(torrent.View()) || !Present(torrent.View(), cache.bridge.Contents(), g + n)
    ensures output[..at] == old(output[..at])
  {
    hide *;
    ghost var t, store := torrent.View(), cache.bridge.Contents();
    torrent.ViewWellFormed();
    SliceBounds(t.files, slice);
    if torrent.files.entries[slice.file].pad {
      PadSlice(t, store, slice, g);
      forall m | at <= m < at + slice.size {
        output[m] := 0;
      }
      n, error := slice.size, NoError;
      assert forall m :: at <= m < at + n ==> output[m] == 0;
      SameZeros(output[..], at, flat, g, n);
      PresentPad(t, store, g, n);
    } else {
      ReadSliceFlat(t, store, slice, g);
      torrent.HomeKeyListed(storage, slice.file);
      HomeSafe(t, slice.file);
      n, error := ReadSlice(cache, torrent, storage, slice, output, at);
      PresentStretch(t, store, g, n, slice.size, t.HomeOffset(slice.file, slice.offset),
                     Content(store, t.HomePath(slice.file)));
      SameStretch(output[..], at, flat, g, n, Content(store, t.HomePath(slice.file)),
                  t.HomeOffset(slice.file, slice.offset));
    }
  }

  lemma SameZeros(a: seq<byte>, at: nat, b: seq<byte>, g: nat, n: nat)
    requires at + n <= |a| && g + n <= |b|
    requires forall m :: at <= m < at + n ==> a[m] == 0
    requires forall p :: g <= p < g + n ==> b[p] == 0
    ensures a[at..at + n] == b[g..g + n]
  {
  }

  lemma SameStretch(a: seq<byte>, at: nat, b: seq<byte>, g: nat, n: nat, body: seq<byte>, offset: nat)
    requires at + n <= |a| && g + n <= |b|
    requires forall m :: at <= m < at + n ==> a[m] == ByteOrZero(body, offset + m - at)
    requires forall p :: g <= p < g + n ==> b[p] == ByteOrZero(body, offset + p - g)
    ensures a[at..at + n] == b[g..g + n]
  {
  }

  /** Reads `length` bytes from flat position `from` on. What arrives is the flat array's contents,
      and all of it arrives unless an error is reported; `end of file` means that the next byte was
      never written. */
  method ReadRange(cache: DescriptorCache, torrent: TorrentStorage, storage: nat,
                   from: nat, length: nat, output: array<byte>)
    returns (transferred: nat, error: StorageError)
    requires cache.Valid() && torrent.Valid() && length <= output.Length
    modifies cache`descriptors, cache`recency, cache`useCounter, output
    modifies cache.bridge`names, cache.bridge`bodies, cache.bridge`handles, cache.bridge`directories, cache.bridge`interrupts
    modifies cache.bridge`faults
    ensures cache.bridge.faults >= old(cache.bridge.faults)
    ensures cache.Valid() && cache.bridge.Contents() == old(cache.bridge.Contents())
    ensures Keys(cache.descriptors) <= Keys(old(cache.descriptors)) + torrent.HomeKeys(storage)
    ensures transferred <= Clamp(torrent.files.entries, from, length)
    ensures error.NoError? <==> transferred == Clamp(torrent.files.entries, from, length)
    ensures output[..transferred] == Sub(Flat(torrent.View(), cache.bridge.Contents()), from, transferred)
    ensures error.Failed? && error.code == EndOfFile ==>
              !Present(torrent.View(), cache.bridge.Contents(), from + transferred)
    // What arrived could be read; what could not be read stopped it, unless the bridge failed.
    ensures AllPresent(torrent.View(), cache.bridge.Contents(), from, transferred)
    ensures error.Failed? && cache.bridge.faults == old(cache.bridge.faults) ==>
              !HomesSafe(torrent.View()) || !Present(torrent.View(), cache.bridge.Contents(), from + transferred)
  {
    hide *;
    var slices := MapBytes(torrent.files.entries, from, length);
    ghost var total := Clamp(torrent.files.entries, from, length);
    ghost var t, store := torrent.View(), cache.bridge.Contents();
    torrent.ViewWellFormed();
    ghost var flat := Flat(t, store);
    MapBytesTiles(torrent.files.entries, from, length);
    TilesTotal(torrent.files.entries, slices, from, total);
    transferred, error := 0, NoError;
    PresentNothing(t, store, from);
    for k := 0 to |slices|
      invariant cache.Valid() && torrent.Valid()
      invariant cache.bridge.Contents() == store && torrent.View() == t
      invariant Keys(cache.descriptors) <= Keys(old(cache.descriptors)) + torrent.HomeKeys(storage)
      invariant transferred == SizeOf(slices, k) <= total
      invariant output[..transferred] == Sub(flat, from, transferred)
      invariant AllPresent(t, store, from, transferred)
      invariant error.NoError? && cache.bridge.faults >= old(cache.bridge.faults)
    {
      TileAt(torrent.files.entries, slices, from, total, k);
      var n;
      ghost var before := output[..];
      n, error := ReadPart(cache, torrent, storage, slices[k], output, transferred, from + transferred, flat);
      Extend(before, output[..], flat, from, transferred, n);
      PresentMore(t, store, from, transferred, n);
      transferred := transferred + n;
      if error.Failed? {
        return;
      }
    }
  }

  lemma Extend(before: seq<byte>, after: seq<byte>, flat: seq<byte>, from: nat, done: nat, n: nat)
    requires |before| == |after| && done + n <= |after| && from + done + n <= |flat|
    requires before[..done] == Sub(flat, from, done)
    requires after[..done] == before[..done] && after[done..done + n] == Sub(flat, from + done, n)
    ensures after[..done + n] == Sub(flat, from, done + n)
  {
    SubConcat(flat, from, done, n);
    assert after[..done + n] == after[..done] + after[done..done + n];
  }

  /** `read_block` of a piece request. */
  method ReadBlock(cache: DescriptorCache, torrent: TorrentStorage, storage: nat,
                   piece: nat, start: nat, length: nat, output: array<byte>)
    returns (transferred: nat, error: StorageError)
    requires cache.Valid() && torrent.Valid() && length <= output.Length
    modifies cache`descriptors, cache`recency, cache`useCounter, output
    modifies cache.bridge`names, cache.bridge`bodies, cache.bridge`handles, cache.bridge`directories, cache.bridge`interrupts
    modifies cache.bridge`faults
    ensures cache.bridge.faults >= old(cache.bridge.faults)
    ensures cache.Valid() && cache.bridge.Contents() == old(cache.bridge.Contents())
    ensures Keys(cache.descriptors) <= Keys(old(cache.descriptors)) + torrent.HomeKeys(storage)
    ensures transferred <= torrent.files.Request(piece, start, length)
    ensures error.NoError? <==> transferred == torrent.files.Request(piece, start, length)
    ensures
      var from := torrent.files.PieceStart(piece) + start;
      && output[..transferred] == Sub(Flat(torrent.View(), cache.bridge.Contents()), from, transferred)
      && (error.Failed? && error.code == EndOfFile ==>
            !Present(torrent.View(), cache.bridge.Contents(), from + transferred))
      && AllPresent(torrent.View(), cache.bridge.Contents(), from, transferred)
      && (error.Failed? && cache.bridge.faults == old(cache.bridge.faults) ==>
            !HomesSafe(torrent.View()) || !Present(torrent.View(), cache.bridge.Contents(), from + transferred))
  {
    hide *;
    torrent.files.RequestIsClamp(piece, start, length);
    transferred, error :=
      ReadRange(cache, torrent, storage, torrent.files.PieceStart(piece) + start, length, output);
  }

  // ---- Writing

  /** The tree after a file was opened for writing and written to. */
  lemma OpenedAndWritten(store: Store, path: string, offset: nat, data: seq<byte>, after: Store)
    requires
      var created := Opened(store, path, true);
      path in created && after == created[path := WriteAt(created[path], offset, data)]
    ensures SameOutside(store, after, {path})
    ensures Content(after, path) == WriteAt(Content(store, path), offset, data)
  {
  }

  lemma NothingWritten(store: Store, path: string, offset: nat, data: seq<byte>)
    requires |data| == 0
    ensures SameOutside(store, store, {path}) && Content(store, path) == WriteAt(Content(store, path), offset, data)
  {
  }

  /** The transfer loop of a write. */
  method PwriteSlice(bridge: Bridge, descriptor: int, input: array<byte>, at: nat, size: nat, offset: nat,
                     file: int, operation: Operation, ghost path: string)
    returns (n: nat, error: StorageError)
    requires bridge.Valid() && bridge.Denotes(descriptor, path) && bridge.handles[descriptor].writable
    requires at + size <= input.Length
    modifies bridge`interrupts, bridge`bodies, bridge`faults
    ensures bridge.faults >= old(bridge.faults)
    ensures bridge.Valid() && bridge.names == old(bridge.names) && bridge.handles == old(bridge.handles)
    ensures n <= size && (error.NoError? <==> n == size)
    ensures error.Failed? ==> bridge.faults > old(bridge.faults)
    ensures
      var before := old(bridge.Contents());
      && path in before
      && bridge.Contents() == before[path := WriteAt(before[path], offset, input[at..at + n])]
  {
    hide *;
    ErrnoPositive();
    var remaining: nat := size;
    ghost var before := bridge.Contents();
    bridge.DenotesContents(descriptor, path);
    WriteAtNothing(before, path, offset, input[at..at]);
    while remaining > 0
      invariant remaining <= size
      invariant bridge.Denotes(descriptor, path) && descriptor in bridge.handles && bridge.handles[descriptor].writable
      invariant bridge.Valid() && bridge.names == old(bridge.names) && bridge.handles == old(bridge.handles)
      invariant bridge.Contents() == before[path := WriteAt(before[path], offset, input[at..at + size - remaining])]
      invariant bridge.faults >= old(bridge.faults)
      decreases remaining, bridge.interrupts
    {
      var done := size - remaining;
      var result, errno := bridge.Pwrite(descriptor, input, at + done, remaining, offset + done, path);
      if result < 0 && errno == EINTR {
        continue;
      }
      if result <= 0 {
        return done, MakeError(if result < 0 then -errno else -EIO, file, operation);
      }
      WriteAtConcat(before[path], offset, input[at..at + done], input[at + done..at + done + result]);
      assert input[at..at + done] + input[at + done..at + done + result] == input[at..at + done + result];
      remaining := remaining - result;
    }
    return size, NoError;
  }

  /** One round of a write: input[at ..] goes to the slice. */
  method WriteSlice(cache: DescriptorCache, torrent: TorrentStorage, storage: nat, slice: Slice,
                    input: array<byte>, at: nat)
    returns (n: nat, error: StorageError)
    requires cache.Valid() && torrent.Valid()
    requires SliceInFile(torrent.files.entries, slice) && !torrent.files.entries[slice.file].pad
    requires at + slice.size <= input.Length
    modifies cache`descriptors, cache`recency, cache`useCounter
    modifies cache.bridge`names, cache.bridge`bodies, cache.bridge`handles, cache.bridge`directories, cache.bridge`interrupts
    modifies cache.bridge`faults
    ensures cache.bridge.faults >= old(cache.bridge.faults)
    ensures cache.Valid()
    ensures Keys(cache.descriptors) <= Keys(old(cache.descriptors)) + {torrent.HomeKey(storage, slice.file)}
    ensures n <= slice.size && (error.NoError? <==> n == slice.size)
    ensures error.Failed? && cache.bridge.faults == old(cache.bridge.faults) ==>
              !Safe(torrent.View().HomePath(slice.file))
    ensures
      var t := torrent.View();
      var path := t.HomePath(slice.file);
      && SameOutside(old(cache.bridge.Contents()), cache.bridge.Contents(), {path})
      && Content(cache.bridge.Contents(), path)
      == WriteAt(Content(old(cache.bridge.Contents()), path), t.HomeOffset(slice.file, slice.offset), input[at..at + n])
  {
    hide *;
    torrent.ViewWellFormed();
    SliceBounds(torrent.files.entries, slice);
    HomeOffsetIs(torrent, slice.file, slice.offset);
    ghost var store, path := cache.bridge.Contents(), torrent.View().HomePath(slice.file);
    var offset := HomeOffset(torrent, slice.file, slice.offset);
    NothingWritten(store, path, offset, input[at..at]);
    var descriptor, failure := OpenHome(cache, torrent, storage, slice.file, true);
    if descriptor < 0 {
      return 0, failure;
    }
    cache.BridgeValid();
    cache.bridge.DenotesContents(descriptor, path);
    label Ready:
    n, error := PwriteSlice(cache.bridge, descriptor, input, at, slice.size, offset, slice.file,
                            if torrent.Skipped(slice.file) then PartfileWrite else FileWrite, path);
    OpenedAndWritten(store, path, offset, input[at..at + n], cache.bridge.Contents());
    cache.StaysValid@Ready();
  }

  method WritePart(cache: DescriptorCache, torrent: TorrentStorage, storage: nat, slice: Slice,
                   input: array<byte>, at: nat)
    returns (n: nat, error: StorageError)
    requires cache.Valid() && torrent.Valid() && torrent.View().Distinct()
    requires SliceInFile(torrent.files.entries, slice) && at + slice.size <= input.Length
    modifies cache`descriptors, cache`recency, cache`useCounter
    modifies cache.bridge`names, cache.bridge`bodies, cache.bridge`handles, cache.bridge`directories, cache.bridge`interrupts
    modifies cache.bridge`faults
    ensures cache.bridge.faults >= old(cache.bridge.faults)
    ensures cache.Valid()
    ensures Keys(cache.descriptors) <= Keys(old(cache.descriptors)) + torrent.HomeKeys(storage)
    ensures n <= slice.size && (error.NoError? <==> n == slice.size)
    ensures Written(torrent.View(), old(cache.bridge.Contents()), cache.bridge.Contents(),
                    GlobalStart(torrent.files.entries, slice), input[at..at + n])
    ensures torrent.View().WellFormed() && slice.file < |torrent.View().files|
    ensures Grown(torrent.View(), old(cache.bridge.Contents()), cache.bridge.Contents(),
                  GlobalStart(torrent.files.entries, slice), n)
    ensures if torrent.files.entries[slice.file].pad then cache.bridge.Contents() == old(cache.bridge.Contents())
            else SameOutside(old(cache.bridge.Contents()), cache.bridge.Contents(), {torrent.View().HomePath(slice.file)})
    ensures error.Failed? && cache.bridge.faults == old(cache.bridge.faults) ==> !HomesSafe(torrent.View())
  {
    hide *;
    ghost var t, store := torrent.View(), cache.bridge.Contents();
    torrent.ViewWellFormed();
    SliceBounds(t.files, slice);
    if torrent.files.entries[slice.file].pad {
      WrittenPad(t, store, slice, input[at..at + slice.size]);
      GrownSame(t, store, GlobalStart(t.files, slice), slice.size);
      return slice.size, NoError;
    }
    torrent.HomeKeyListed(storage, slice.file);
    HomeSafe(t, slice.file);
    n, error := WriteSlice(cache, torrent, storage, slice, input, at);
    WrittenSlice(t, store, cache.bridge.Contents(), slice, input[at..at + n]);
    GrownSlice(t, store, cache.bridge.Contents(), slice, input[at..at + n]);
  }

  /** Writes input[.. length] at flat position `from`: exactly the bytes reported as transferred
      are in the flat array afterwards, the others are as before. */
  method WriteRange(cache: DescriptorCache, torrent: TorrentStorage, storage: nat,
                    from: nat, length: nat, input: array<byte>)
    returns (transferred: nat, error: StorageError)
    requires cache.Valid() && torrent.Valid() && torrent.View().Distinct() && length <= input.Length
    modifies cache`descriptors, cache`recency, cache`useCounter
    modifies cache.bridge`names, cache.bridge`bodies, cache.bridge`handles, cache.bridge`directories, cache.bridge`interrupts
    modifies cache.bridge`faults
    ensures cache.bridge.faults >= old(cache.bridge.faults)
    ensures cache.Valid()
    ensures Keys(cache.descriptors) <= Keys(old(cache.descriptors)) + torrent.HomeKeys(storage)
    ensures transferred <= Clamp(torrent.files.entries, from, length)
    ensures error.NoError? <==> transferred == Clamp(torrent.files.entries, from, length)
    ensures Written(torrent.View(), old(cache.bridge.Contents()), cache.bridge.Contents(), from, input[..transferred])
    // Nothing but the files asked for is touched, and none is made longer than what was written to it.
    ensures torrent.View().WellFormed()
    ensures SameOutside(old(cache.bridge.Contents()), cache.bridge.Contents(), HomesOf(torrent.View(), from, length))
    ensures Grown(torrent.View(), old(cache.bridge.Contents()), cache.bridge.Contents(), from, transferred)
    // Safe paths and a bridge that does not fail are all it takes.
    ensures error.Failed? && cache.bridge.faults == old(cache.bridge.faults) ==> !HomesSafe(torrent.View())
  {
    hide *;
    var slices := MapBytes(torrent.files.entries, from, length);
    ghost var total := Clamp(torrent.files.entries, from, length);
    ghost var t, store := torrent.View(), cache.bridge.Contents();
    torrent.ViewWellFormed();
    MapBytesTiles(torrent.files.entries, from, length);
    TilesTotal(torrent.files.entries, slices, from, total);
    transferred, error := 0, NoError;
    WrittenNothing(t, store, from);
    GrownNothing(t, store, from);
    NothingTouchedHere(store, HomesOf(t, from, length));
    assert input[..0] == [];
    for k := 0 to |slices|
      invariant cache.Valid() && torrent.Valid() && torrent.View() == t
      invariant Keys(cache.descriptors) <= Keys(old(cache.descriptors)) + torrent.HomeKeys(storage)
      invariant transferred == SizeOf(slices, k) <= total
      invariant Written(t, store, cache.bridge.Contents(), from, input[..transferred])
      invariant SameOutside(store, cache.bridge.Contents(), HomesOf(t, from, length))
      invariant Grown(t, store, cache.bridge.Contents(), from, transferred)
      invariant error.NoError? && cache.bridge.faults >= old(cache.bridge.faults)
    {
      TileAt(torrent.files.entries, slices, from, total, k);
      var n;
      ghost var middle := cache.bridge.Contents();
      n, error := WritePart(cache, torrent, storage, slices[k], input, transferred);
      GrownMore(t, store, middle, cache.bridge.Contents(), from, transferred, n);
      TouchedMore(t, store, middle, cache.bridge.Contents(), slices[k], from, length);
      WrittenMore(t, store, middle, cache.bridge.Contents(), from, input[..transferred],
                  input[transferred..transferred + n]);
      assert input[..transferred] + input[transferred..transferred + n] == input[..transferred + n];
      transferred := transferred + n;
      if error.Failed? {
        return;
      }
    }
  }

  lemma NothingTouchedHere(store: Store, homes: set<string>)
    ensures SameOutside(store, store, homes)
  {
  }

  lemma TouchedMore(t: Torrent, a: Store, b: Store, c: Store, s: Slice, from: nat, n: nat)
    requires t.WellFormed() && SliceInFile(t.files, s) && s.file < |t.files|
    requires from <= GlobalStart(t.files, s) < from + n && SameOutside(a, b, HomesOf(t, from, n))
    requires if t.files[s.file].pad then c == b else SameOutside(b, c, {t.HomePath(s.file)})
    ensures SameOutside(a, c, HomesOf(t, from, n))
  {
    if !t.files[s.file].pad {
      SliceHome(t, s, from, n);
    }
  }

  /** `write_block` of a piece request. */
  method WriteBlock(cache: DescriptorCache, torrent: TorrentStorage, storage: nat,
                    piece: nat, start: nat, length: nat, input: array<byte>)
    returns (transferred: nat, error: StorageError)
    requires cache.Valid() && torrent.Valid() && torrent.View().Distinct() && length <= input.Length
    modifies cache`descriptors, cache`recency, cache`useCounter
    modifies cache.bridge`names, cache.bridge`bodies, cache.bridge`handles, cache.bridge`directories, cache.bridge`interrupts
    modifies cache.bridge`faults
    ensures cache.bridge.faults >= old(cache.bridge.faults)
    ensures cache.Valid()
    ensures Keys(cache.descriptors) <= Keys(old(cache.descriptors)) + torrent.HomeKeys(storage)
    ensures transferred <= torrent.files.Request(piece, start, length)
    ensures error.NoError? <==> transferred == torrent.files.Request(piece, start, length)
    ensures Written(torrent.View(), old(cache.bridge.Contents()), cache.bridge.Contents(),
                    torrent.files.PieceStart(piece) + start, input[..transferred])
    ensures torrent.View().WellFormed()
    ensures SameOutside(old(cache.bridge.Contents()), cache.bridge.Contents(),
                        HomesOf(torrent.View(), torrent.files.PieceStart(piece) + start, length))
    ensures Grown(torrent.View(), old(cache.bridge.Contents()), cache.bridge.Contents(),
                  torrent.files.PieceStart(piece) + start, transferred)
    ensures error.Failed? && cache.bridge.faults == old(cache.bridge.faults) ==> !HomesSafe(torrent.View())
  {
    hide *;
    torrent.files.RequestIsClamp(piece, start, length);
    transferred, error :=
      WriteRange(cache, torrent, storage, torrent.files.PieceStart(piece) + start, length, input);
  }
}
