/** Changing file priorities: bytes move between public files and the part file. */
module Priorities {
  import opened Bytes
  import opened Errors
  import opened Layout
  import opened Paths
  import opened FlatView
  import opened Bridges
  import opened Directories
  import opened Transfer
  import opened Descriptors
  import opened DescriptorCaches
  import opened Torrents
  import opened PublicCopy
  import opened Migration
  import opened SettledKeys

  lemma ChunkOf(body: seq<byte>, offset: nat, size: nat, copied: nat, chunk: seq<byte>)
    requires copied + |chunk| <= size
    requires forall k :: 0 <= k < |chunk| ==> chunk[k] == ByteOrZero(body, offset + copied + k)
    ensures forall k :: 0 <= k < |chunk| ==> chunk[k] == ByteOrZero(Stretch(body, offset, size), copied + k)
  {
  }

  lemma PartlyOther(store: Store, path: string, offset: nat, data: seq<byte>, copied: nat, other: string)
    requires path in store && copied <= |data| && other != path
    ensures Content(Partly(store, path, offset, data, copied), other) == Content(store, other)
  {
  }

  /** The copy loop; a source that does not exist gives zeros. `m` bytes have arrived. */
  method MigrateLoop(bridge: Bridge, source: int, destination: int, size: nat, sourceOffset: nat,
                     destinationOffset: nat, index: nat, toPart: bool, ghost from: string, ghost to: string)
    returns (error: StorageError, ghost m: nat)
    requires bridge.Valid() && from != to
    requires source >= 0 ==> bridge.Denotes(source, from)
    requires source < 0 ==> from !in bridge.Contents()
    requires bridge.Denotes(destination, to) && bridge.handles[destination].writable
    modifies bridge`interrupts, bridge`bodies, bridge`faults
    ensures bridge.faults >= old(bridge.faults)
    ensures bridge.Valid() && bridge.names == old(bridge.names) && bridge.handles == old(bridge.handles)
    ensures
      var before := old(bridge.Contents());
      var data := Stretch(Content(before, from), sourceOffset, size);
      && to in before && m <= size && (error.NoError? ==> m == size)
      && bridge.Contents() == Partly(before, to, destinationOffset, data, m)
      && (error.NoError? && source >= 0 && size > 0 ==> sourceOffset + size <= |Content(before, from)|)
      && (error.Failed? ==> error.file == index)
      && (error.Failed? && bridge.faults == old(bridge.faults) ==>
            source >= 0 && sourceOffset + size > |Content(before, from)|)
  {
    hide *;
    ErrnoPositive();
    BlockSizePositive();
    var buffer := new byte[DEFAULT_BLOCK_SIZE](_ => 0);
    ghost var before := bridge.Contents();
    ghost var body := Content(before, from);
    ghost var data := Stretch(body, sourceOffset, size);
    bridge.DenotesContents(destination, to);
    NoChunk(before, to, destinationOffset, data);
    var copied: nat := 0;
    while copied < size
      invariant copied <= size && to in before && bridge.faults >= old(bridge.faults)
      invariant source >= 0 && copied > 0 ==> sourceOffset + copied <= |body|
      invariant fresh(buffer) && buffer.Length == DEFAULT_BLOCK_SIZE
      invariant bridge.Valid() && bridge.names == old(bridge.names) && bridge.handles == old(bridge.handles)
      invariant source >= 0 ==> bridge.Denotes(source, from)
      invariant source < 0 ==> from !in before
      invariant bridge.Denotes(destination, to)
      invariant destination in bridge.handles && bridge.handles[destination].writable
      invariant bridge.Contents() == Partly(before, to, destinationOffset, data, copied)
    {
      var length := Min(buffer.Length, size - copied);
      PartlyOther(before, to, destinationOffset, data, copied, from);
      var result: int;
      if source >= 0 {
        bridge.DenotesContents(source, from);
        ContentIs(bridge.Contents(), from);
        result := PreadAll(bridge, source, buffer, length, sourceOffset + copied, from);
        if result < 0 {
          return MakeError(result, index, if toPart then FileRead else PartfileRead), copied;
        }
      } else {
        NoContent(before, from);
        forall k | 0 <= k < length {
          buffer[k] := 0;
        }
      }
      assert forall k :: 0 <= k < length ==> buffer[k] == ByteOrZero(body, sourceOffset + copied + k);
      ghost var written;
      result, written := PwriteAll(bridge, destination, buffer, length, destinationOffset + copied, to);
      ChunkOf(body, sourceOffset, size, copied, buffer[..written]);
      NextChunk(before, to, destinationOffset, data, copied, buffer[..written], bridge.Contents());
      if result < 0 {
        return MakeError(result, index, if toPart then PartfileWrite else FileWrite), copied + written;
      }
      copied := copied + length;
    }
    return NoError, copied;
  }

  lemma ContentIs(store: Store, path: string)
    requires path in store
    ensures Content(store, path) == store[path]
  {
  }

  lemma NoContent(store: Store, path: string)
    requires path !in store
    ensures forall k :: ByteOrZero(Content(store, path), k) == 0
  {
  }

  /** What has been made of the file at `to` when m bytes were copied to it. */
  ghost predicate Filled(before: Store, after: Store, to: string, offset: nat, data: seq<byte>, toPart: bool, m: nat) {
    && m <= |data|
    && SameOutside(before, after, {to})
    && (toPart ==> Content(after, to) == WriteAt(Content(before, to), offset, data[..m]))
  }

  lemma FilledNothing(store: Store, to: string, offset: nat, data: seq<byte>, toPart: bool)
    ensures Filled(store, store, to, offset, data, toPart, 0)
  {
  }

  /** Opening creates the file, a public file is cut to size, and then the bytes come. */
  lemma FilledPartly(before: Store, mid: Store, cut: Store, to: string, offset: nat, data: seq<byte>, toPart: bool,
                     m: nat)
    requires mid == if to in before then before else before[to := []]
    requires cut == if toPart then mid else mid[to := Resize(mid[to], |data|)]
    requires m <= |data|
    ensures to in cut
    ensures Filled(before, Partly(cut, to, offset, data, m), to, offset, data, toPart, m)
    ensures !toPart && offset == 0 && m == |data| ==> Content(Partly(cut, to, offset, data, m), to) == data
  {
  }

  lemma FilledEmpty(before: Store, mid: Store, to: string, offset: nat, data: seq<byte>, toPart: bool)
    requires mid == if to in before then before else before[to := []]
    ensures Filled(before, mid, to, offset, data, toPart, 0)
  {
  }

  /** Opens and fills the new place of the file's bytes; its descriptor is closed on every way out. */
  method MigrateInto(bridge: Bridge, source: int, size: nat, sourceOffset: nat, destinationOffset: nat,
                     index: nat, toPart: bool, ghost from: string, to: string)
    returns (error: StorageError, ghost m: nat)
    requires bridge.Valid() && from != to
    requires source >= 0 ==> bridge.Denotes(source, from)
    requires source < 0 ==> from !in bridge.Contents()
    requires !toPart ==> destinationOffset == 0
    modifies bridge`names, bridge`bodies, bridge`handles, bridge`directories, bridge`interrupts, bridge`faults
    ensures bridge.faults >= old(bridge.faults)
    ensures bridge.Valid() && bridge.handles == old(bridge.handles) && NamesKept(old(bridge.names), bridge.names)
    ensures
      var data := Stretch(Content(old(bridge.Contents()), from), sourceOffset, size);
      && Filled(old(bridge.Contents()), bridge.Contents(), to, destinationOffset, data, toPart, m)
      && (error.NoError? ==> Safe(to) && m == size && (!toPart ==> Content(bridge.Contents(), to) == data))
      && (error.NoError? && source >= 0 && size > 0 ==> sourceOffset + size <= |Content(old(bridge.Contents()), from)|)
      && (error.Failed? ==> error.file == index)
      && (error.Failed? && bridge.faults == old(bridge.faults) ==>
            !Safe(to) || (source >= 0 && sourceOffset + size > |Content(old(bridge.Contents()), from)|))
  {
    hide *;
    ghost var before, handles := bridge.Contents(), bridge.handles;
    ghost var data := Stretch(Content(before, from), sourceOffset, size);
    NamesKeptSame(bridge.names);
    FilledNothing(before, to, destinationOffset, data, toPart);
    var ok;
    ghost var asked;
    ok, error, asked := EnsureParentDirectories(bridge, to, index);
    if !ok {
      return error, 0;
    }
    bridge.NamesContents(to);
    if source >= 0 {
      bridge.DenotesContents(source, from);
    }
    var destination := bridge.OpenFile(to, ReadWrite);
    if destination < 0 {
      return MakeError(destination, index, if toPart then PartfileWrite else FileWrite), 0;
    }
    HandlesRestored(handles, bridge.handles, destination);
    NamesKeptIntro(old(bridge.names), bridge.names);
    ghost var mid := bridge.Contents();
    FilledEmpty(before, mid, to, destinationOffset, data, toPart);
    OthersSame(before, mid, from, to);
    if source >= 0 {
      bridge.StillDenotes(source, from, handles, old(bridge.names));
    }
    if !toPart {
      var result, errno := bridge.Ftruncate(destination, size, to);
      if result != 0 {
        bridge.Close(destination);
        return MakeError(-errno, index, FileTruncate), 0;
      }
    }
    ghost var cut := bridge.Contents();
    CutOther(mid, cut, from, to, size, toPart);
    error, m := MigrateLoop(bridge, source, destination, size, sourceOffset, destinationOffset, index, toPart, from, to);
    FilledPartly(before, mid, cut, to, destinationOffset, data, toPart, m);
    bridge.Close(destination);
  }

  lemma OthersSame(before: Store, mid: Store, from: string, to: string)
    requires from != to && mid == if to in before then before else before[to := []]
    ensures from in mid <==> from in before
    ensures Content(mid, from) == Content(before, from) && to in mid
  {
  }

  lemma CutOther(mid: Store, cut: Store, from: string, to: string, size: nat, toPart: bool)
    requires from != to && to in mid && cut == if toPart then mid else mid[to := Resize(mid[to], size)]
    ensures from in cut <==> from in mid
    ensures Content(cut, from) == Content(mid, from)
  {
  }

  /** In terms of the torrent: the file's bytes are on their way to their new place. */
  lemma FilledIsCopied(t: Torrent, before: Store, after: Store, i: nat, toPart: bool, m: nat)
    requires Migratable(t, i, toPart)
    requires Filled(before, after, TargetPath(t, i, toPart), if toPart then Offset(t.files, i) else 0,
                    FileBytes(t, before, i), toPart, m)
    ensures t.WellFormed() && i < |t.files| && CopiedSoFar(t, before, after, i, toPart, m)
    ensures m == t.files[i].size && (!toPart ==> Content(after, t.paths[i]) == FileBytes(t, before, i)) ==>
              CopiedAll(t, before, after, i, toPart)
  {
  }

  lemma Ends(t: Torrent, i: nat, toPart: bool)
    requires Migratable(t, i, toPart)
    ensures t.Distinct() && t.WellFormed() && i < |t.files| && !t.files[i].pad
    ensures t.HomePath(i) == (if toPart then t.paths[i] else t.part)
    ensures t.HomeOffset(i, 0) == if toPart then 0 else Offset(t.files, i)
    ensures TargetPath(t, i, toPart) == if toPart then t.part else t.paths[i]
    ensures t.HomePath(i) != TargetPath(t, i, toPart)
    ensures t.paths[i] != t.part
  {
  }

  lemma FileBytesIs(t: Torrent, store: Store, i: nat)
    requires t.WellFormed() && i < |t.files|
    ensures FileBytes(t, store, i) == Stretch(Content(store, t.HomePath(i)), t.HomeOffset(i, 0), t.files[i].size)
  {
  }

  lemma CopiedOutside(t: Torrent, before: Store, mid: Store, after: Store, i: nat, toPart: bool, m: nat)
    requires Migratable(t, i, toPart) && CopiedSoFar(t, before, mid, i, toPart, m)
    requires SameOutside(mid, after, {t.paths[i]})
    ensures SameOutside(before, after, {t.part, t.paths[i]})
  {
  }

  lemma RemovedOne(store: Store, path: string)
    ensures SameOutside(store, store - {path}, {path}) && SameOutside(store, store, {path})
  {
  }

  /** What the part file is after file i came to it, or left it for a public file of its size. */
  ghost predicate PartAfter(t: Torrent, before: Store, after: Store, i: nat, toPart: bool)
    requires t.WellFormed() && i < |t.files|
  {
    if toPart then
      && t.part in after
      && |Content(after, t.part)| == Max(|Content(before, t.part)|, Offset(t.files, i) + t.files[i].size)
    else
      && (t.part in after <==> t.part in before) && Content(after, t.part) == Content(before, t.part)
      && |Content(after, t.paths[i])| == t.files[i].size
  }

  lemma PartWritten(t: Torrent, before: Store, mid: Store, after: Store, i: nat, toPart: bool)
    requires Migratable(t, i, toPart) && t.WellFormed() && t.files[i].size > 0
    requires CopiedAll(t, before, mid, i, toPart)
    requires if toPart then SameOutside(mid, after, {t.paths[i]}) else after == mid
    ensures PartAfter(t, before, after, i, toPart)
  {
    hide Offset, FileBytes;
    assert |FileBytes(t, before, i)[..t.files[i].size]| == t.files[i].size;
    assert t.part != t.paths[i];
  }

  /** Opens the old place, fills the new one, and removes a public file whose bytes are in the part
      file now. Whatever fails, the torrent reads as before; when nothing does, it reads as before
      with the new priority. */
  method MigrateBytes(bridge: Bridge, ghost t: Torrent, i: nat, size: nat, sourcePath: string, destinationPath: string,
                      sourceOffset: nat, destinationOffset: nat, toPart: bool, ghost priority: nat)
    returns (error: StorageError)
    requires bridge.Valid() && Migratable(t, i, toPart) && (priority == DONT_DOWNLOAD <==> toPart)
    requires size == t.files[i].size && sourcePath == t.HomePath(i) && destinationPath == TargetPath(t, i, toPart)
    requires sourceOffset == t.HomeOffset(i, 0) && destinationOffset == if toPart then Offset(t.files, i) else 0
    modifies bridge`names, bridge`bodies, bridge`handles, bridge`interrupts, bridge`directories, bridge`removals
    modifies bridge`faults
    ensures bridge.faults >= old(bridge.faults)
    ensures bridge.Valid() && bridge.handles == old(bridge.handles)
    ensures NamesKeptOutside(old(bridge.names), bridge.names, {t.paths[i]})
    ensures SameOutside(old(bridge.Contents()), bridge.Contents(), {t.part, t.paths[i]})
    ensures
      var t' := if error.Failed? then t else WithPriority(t, i, priority);
      && Flat(t', bridge.Contents()) == Flat(t, old(bridge.Contents()))
      && KeepsPresent(t, old(bridge.Contents()), t', bridge.Contents())
    ensures error.NoError? && toPart ==> t.paths[i] !in bridge.Contents()
    ensures error.NoError? ==>
              && Safe(destinationPath)
              && (size > 0 && sourcePath in old(bridge.Contents()) ==>
                    sourceOffset + size <= |Content(old(bridge.Contents()), sourcePath)|)
              && (size > 0 ==> PartAfter(t, old(bridge.Contents()), bridge.Contents(), i, toPart))
    ensures error.NoError? ==> bridge.removals == old(bridge.removals) + if toPart then [t.paths[i]] else []
    ensures error.Failed? ==>
              && error.file == i
              && (bridge.removals == old(bridge.removals) ||
                  (toPart && bridge.removals == old(bridge.removals) + [t.paths[i]]))
    // Without a fault of the bridge it fails only at an unsafe path or a file that ends too early.
    ensures error.Failed? && bridge.faults == old(bridge.faults) ==>
              || !Safe(destinationPath)
              || (sourcePath in old(bridge.Contents()) &&
                  sourceOffset + size > |Content(old(bridge.Contents()), sourcePath)|)
  {
    hide *;
    Ends(t, i, toPart);
    ghost var before, handles := bridge.Contents(), bridge.handles;
    FileBytesIs(t, before, i);
    NamesKeptSame(bridge.names);
    NamesKeptNone(bridge.names, {t.paths[i]});
    CopyNothing(t, before, i, toPart);
    CopyInvisible(t, before, before, i, toPart, 0);
    bridge.NamesContents(sourcePath);
    var source := bridge.OpenFile(sourcePath, ReadOnly);
    if source < 0 && source != -ENOENT {
      return MakeError(source, i, if toPart then FileRead else PartfileRead);
    }
    if source >= 0 {
      HandlesRestored(handles, bridge.handles, source);
      NamesKeptIntro(old(bridge.names), bridge.names);
    }
    ghost var opened0 := bridge.names;
    ghost var m;
    error, m := MigrateInto(bridge, source, size, sourceOffset, destinationOffset, i, toPart, sourcePath, destinationPath);
    NamesKeptTransitive(old(bridge.names), opened0, bridge.names);
    NamesKeptWider(old(bridge.names), bridge.names, {t.paths[i]});
    NamesKeptMinus(old(bridge.names), bridge.names, {t.paths[i]}, t.paths[i]);
    ghost var mid := bridge.Contents();
    FilledIsCopied(t, before, mid, i, toPart, m);
    CopyInvisible(t, before, mid, i, toPart, m);
    RemovedOne(mid, t.paths[i]);
    CopiedOutside(t, before, mid, mid, i, toPart, m);
    if source >= 0 {
      bridge.Close(source);
    }
    if error.Failed? {
      return;
    }
    if toPart {
      bridge.NamesContents(sourcePath);
      var result := bridge.Remove(sourcePath);
      if result < 0 && result != -ENOENT {
        return MakeError(result, i, FileRemove);
      }
      CopiedOutside(t, before, mid, bridge.Contents(), i, toPart, m);
    }
    if size > 0 {
      PartWritten(t, before, mid, bridge.Contents(), i, toPart);
    }
    SwitchInvisible(t, before, mid, bridge.Contents(), i, toPart, priority);
  }

  lemma CopyNothing(t: Torrent, store: Store, i: nat, toPart: bool)
    requires Migratable(t, i, toPart)
    ensures t.WellFormed() && i < |t.files| && CopiedSoFar(t, store, store, i, toPart, 0)
    ensures SameOutside(store, store, {t.part, t.paths[i]})
  {
  }

  twostate lemma AfterMigration(cache: DescriptorCache, new gone: string)
    requires old(cache.Valid()) && cache.bridge.Valid()
    requires cache.descriptors == old(cache.descriptors) && cache.recency == old(cache.recency)
    requires cache.useCounter == old(cache.useCounter) && cache.descriptorLimit == old(cache.descriptorLimit)
    requires cache.bridge.handles == old(cache.bridge.handles)
    requires NamesKeptOutside(old(cache.bridge.names), cache.bridge.names, {gone})
    requires forall d :: d in cache.descriptors ==> d.path != gone
    ensures cache.Valid()
  {
    cache.SurvivesNames();
  }

  /** After the file's own entries and the part file's were closed. */
  lemma BothClosed(ds: seq<OpenDescriptor>, storage: nat, t: Torrent, i: nat)
    requires t.Distinct() && i < |t.files| && !t.files[i].pad && Settled(Keys(ds), storage, t)
    ensures
      var kept := Drop(Drop(ds, OfFile(storage, i)), OfFile(storage, -1));
      && Keys(kept) <= Keys(ds)
      && Drop(Drop(ds, OfFile(storage, -1)), OfFile(storage, i)) == kept
      && (forall d :: d in kept ==> d.path != t.paths[i])
  {
    var once := Drop(ds, OfFile(storage, i));
    var kept := Drop(once, OfFile(storage, -1));
    DropMembers(ds, OfFile(storage, i));
    DropMembers(once, OfFile(storage, -1));
    KeysDrop(ds, OfFile(storage, i));
    KeysDrop(once, OfFile(storage, -1));
    DropSwap(ds, OfFile(storage, -1), OfFile(storage, i));
    NobodyHasFile(kept, storage, t, i);
  }

  lemma {:induction false} DropSwap(ds: seq<OpenDescriptor>, a: Selection, b: Selection)
    ensures Drop(Drop(ds, a), b) == Drop(Drop(ds, b), a)
  {
    if ds != [] {
      DropSwap(ds[1..], a, b);
      if !a.Matches(ds[0]) {
        assert Drop(ds, a)[1..] == Drop(ds[1..], a);
      }
      if !b.Matches(ds[0]) {
        assert Drop(ds, b)[1..] == Drop(ds[1..], b);
      }
    }
  }

  /** The file that holds file i's bytes is missing, or long enough for all of them: a shorter one
      cannot be read to the end, so that the copy fails every time. */
  predicate Movable(t: Torrent, store: Store, i: nat)
    requires t.WellFormed() && i < |t.files|
  {
    t.files[i].size > 0 && t.HomePath(i) in store ==>
      t.HomeOffset(i, 0) + t.files[i].size <= |Content(store, t.HomePath(i))|
  }

  lemma MovableIs(t: Torrent, store: Store, i: nat)
    requires t.WellFormed() && i < |t.files|
    ensures Movable(t, store, i) <==>
            (t.files[i].size > 0 && t.HomePath(i) in store ==>
               t.HomeOffset(i, 0) + t.files[i].size <= |Content(store, t.HomePath(i))|)
  {
  }

  /** The priority is about bytes on disk that have to change their place. */
  predicate Changes(t: Torrent, i: nat, priority: nat)
    requires t.WellFormed() && i < |t.files|
  {
    !t.files[i].pad && t.files[i].size > 0 && t.Skipped(i) != (priority == DONT_DOWNLOAD)
  }

  /** What it takes for the priority to be changed. */
  predicate Changeable(t: Torrent, store: Store, i: nat, priority: nat)
    requires t.WellFormed() && i < |t.files|
  {
    Changes(t, i, priority) ==> Safe(TargetPath(t, i, priority == DONT_DOWNLOAD)) && Movable(t, store, i)
  }

  lemma ChangeableIs(t: Torrent, store: Store, i: nat, priority: nat)
    requires t.WellFormed() && i < |t.files|
    ensures Changes(t, i, priority) <==>
            !t.files[i].pad && t.files[i].size > 0 && t.Skipped(i) != (priority == DONT_DOWNLOAD)
    ensures Changeable(t, store, i, priority) <==>
            (Changes(t, i, priority) ==>
               Safe(TargetPath(t, i, priority == DONT_DOWNLOAD)) && Movable(t, store, i))
  {
  }

  /** What one change of priority does to the part file. */
  ghost predicate PartStep(t: Torrent, before: Store, after: Store, i: nat, priority: nat)
    requires t.WellFormed() && i < |t.files|
  {
    if Changes(t, i, priority) then PartAfter(t, before, after, i, priority == DONT_DOWNLOAD) else after == before
  }

  lemma PartStepIs(t: Torrent, before: Store, after: Store, i: nat, priority: nat)
    requires t.WellFormed() && i < |t.files|
    ensures PartStep(t, before, after, i, priority) <==>
            if Changes(t, i, priority) then PartAfter(t, before, after, i, priority == DONT_DOWNLOAD)
            else after == before
  {
  }

  /** The removal a change of priority asks for when the file's bytes are in the part file. */
  function Vacates(t: Torrent, i: nat, priority: nat): seq<string>
    requires t.WellFormed() && i < |t.files|
  {
    if Changes(t, i, priority) && priority == DONT_DOWNLOAD then [t.paths[i]] else []
  }

  lemma VacatesIs(t: Torrent, i: nat, priority: nat)
    requires t.WellFormed() && i < |t.files|
    ensures Vacates(t, i, priority) ==
            if Changes(t, i, priority) && priority == DONT_DOWNLOAD then [t.paths[i]] else []
  {
  }

  /** Two skipped files of a byte each, and of the torrent nothing but the first one's byte was ever
      written: the part file ends before the second file's byte, which stays in it for good. */
  lemma ShortPartFileHolds() returns (t: Torrent, store: Store)
    ensures t.Distinct() && |t.files| == 2 && Migratable(t, 1, false) && Safe(t.paths[1]) && Total(t.files) == 2
    ensures Written(t, map[], store, 0, [7]) && !Present(t, store, 1)
    ensures !Changeable(t, store, 1, DEFAULT_PRIORITY)
  {
    hide *;
    t := Torrent([FileEntry(1, false), FileEntry(1, false)], [DONT_DOWNLOAD, DONT_DOWNLOAD], ["a", "b"], "p");
    store := map["p" := [7]];
    ShortPartFileState(t, store);
    ShortPartFileWritten(t, store);
  }

  lemma ShortPartFileState(t: Torrent, store: Store)
    requires t == Torrent([FileEntry(1, false), FileEntry(1, false)], [DONT_DOWNLOAD, DONT_DOWNLOAD], ["a", "b"], "p")
    requires store == map["p" := [7]]
    ensures t.Distinct() && t.WellFormed() && Migratable(t, 1, false) && Safe(t.paths[1]) && Total(t.files) == 2
    ensures !Present(t, store, 1) && !Changeable(t, store, 1, DEFAULT_PRIORITY)
  {
    assert Split("b") == ["b"];
    assert Offset(t.files, 1) == 1 && Offset(t.files, 2) == 2;
    FileAtUnique(t.files, 1, 1);
  }

  lemma ShortPartFileWritten(t: Torrent, store: Store)
    requires t == Torrent([FileEntry(1, false), FileEntry(1, false)], [DONT_DOWNLOAD, DONT_DOWNLOAD], ["a", "b"], "p")
    requires store == map["p" := [7]] && t.WellFormed()
    ensures Written(t, map[], store, 0, [7])
  {
    hide Written;
    assert Offset(t.files, 0) == 0;
    assert WriteAt([], 0, [7]) == [7];
    WrittenSlice(t, map[], store, Slice(0, 0, 1), [7]);
  }

  /** Moves one file's bytes to where its new priority wants them. */
  method MigratePriority(cache: DescriptorCache, torrent: TorrentStorage, storage: nat, index: nat, toPart: bool,
                         ghost priority: nat)
    returns (error: StorageError)
    requires cache.Valid() && torrent.Valid()
    requires Migratable(torrent.View(), index, toPart) && (priority == DONT_DOWNLOAD <==> toPart)
    requires torrent.View().WellFormed() && Settled(Keys(cache.descriptors), storage, torrent.View())
    modifies cache`descriptors, cache`recency
    modifies cache.bridge`names, cache.bridge`bodies, cache.bridge`handles, cache.bridge`interrupts
    modifies cache.bridge`directories, cache.bridge`removals, cache.bridge`faults
    ensures cache.bridge.faults >= old(cache.bridge.faults)
    ensures cache.Valid() && Keys(cache.descriptors) <= Keys(old(cache.descriptors))
    ensures torrent.View().WellFormed() && index < |torrent.View().files|
    ensures
      var t := torrent.View();
      var t' := if error.Failed? then t else WithPriority(t, index, priority);
      && Flat(t', cache.bridge.Contents()) == Flat(t, old(cache.bridge.Contents()))
      && KeepsPresent(t, old(cache.bridge.Contents()), t', cache.bridge.Contents())
      && SameOutside(old(cache.bridge.Contents()), cache.bridge.Contents(), {t.part, t.paths[index]})
      && (error.NoError? && toPart && t.files[index].size > 0 ==> t.paths[index] !in cache.bridge.Contents())
      && (error.NoError? ==>
            && Changeable(t, old(cache.bridge.Contents()), index, priority)
            && PartStep(t, old(cache.bridge.Contents()), cache.bridge.Contents(), index, priority))
      && (error.Failed? ==> error.file == index && Changes(t, index, priority))
      && (error.NoError? ==> cache.bridge.removals == old(cache.bridge.removals) + Vacates(t, index, priority))
      && (error.Failed? ==>
            cache.bridge.removals == old(cache.bridge.removals) ||
            cache.bridge.removals == old(cache.bridge.removals) + Vacates(t, index, priority))
      // When the bridge does not fail, the change works if and only if it can.
      && (error.Failed? && cache.bridge.faults == old(cache.bridge.faults) ==>
            !Changeable(t, old(cache.bridge.Contents()), index, priority))
    ensures torrent.partPath in old(cache.bridge.Contents()) ==> torrent.partPath in cache.bridge.Contents()
  {
    hide *;
    ghost var t := torrent.View();
    Ends(t, index, toPart);
    torrent.ViewParts();
    ghost var before := cache.bridge.Contents();
    MovableIs(t, before, index);
    MigratableIs(t, index, toPart);
    VacatesIs(t, index, priority);
    ChangeableIs(t, before, index, priority);
    PartStepIs(t, before, before, index, priority);
    var size := torrent.files.entries[index].size;
    if size == 0 {
      SamePlace(t, cache.bridge.Contents(), index, priority);
      NothingTouched(cache.bridge.Contents(), {t.part, t.paths[index]});
      KeepsSelf(t, cache.bridge.Contents());
      return NoError;
    }
    BothClosed(cache.descriptors, storage, t, index);
    var offset := Offset(torrent.files.entries, index);
    cache.CloseFile(storage, if toPart then index else -1);
    cache.CloseFile(storage, if toPart then -1 else index);
    cache.BridgeValid();
    label Closed:
    error := MigrateBytes(cache.bridge, t, index, size,
                          if toPart then torrent.paths[index] else torrent.partPath,
                          if toPart then torrent.partPath else torrent.paths[index],
                          if toPart then 0 else offset, if toPart then offset else 0, toPart, priority);
    AfterMigration@Closed(cache, t.paths[index]);
    PartStays@Closed(cache.bridge, t.part, t.paths[index]);
    PartStepIs(t, before, cache.bridge.Contents(), index, priority);
  }

  lemma KeepsSelf(t: Torrent, store: Store)
    requires t.WellFormed()
    ensures KeepsPresent(t, store, t, store)
  {
  }

  twostate lemma PartStays(bridge: Bridge, new part: string, new gone: string)
    requires old(bridge.Valid()) && bridge.Valid() && part != gone
    requires NamesKeptOutside(old(bridge.names), bridge.names, {gone})
    ensures part in old(bridge.Contents()) ==> part in bridge.Contents()
  {
  }

  /** Between the two states the torrent lost nothing and reads the same, and nothing outside its
      own files changed. */
  ghost predicate Preserved(t: Torrent, before: Store, t': Torrent, after: Store)
    requires t.WellFormed()
  {
    && t'.WellFormed() && t'.files == t.files && t'.paths == t.paths && t'.part == t.part
    && Flat(t', after) == Flat(t, before)
    && KeepsPresent(t, before, t', after)
    && SameOutside(before, after, t.Footprint())
  }

  lemma PreservedSame(t: Torrent, store: Store)
    requires t.WellFormed()
    ensures Preserved(t, store, t, store)
  {
  }

  lemma PreservedIntro(t: Torrent, before: Store, t': Torrent, after: Store)
    requires t.WellFormed() && t'.WellFormed() && t'.files == t.files && t'.paths == t.paths && t'.part == t.part
    requires Flat(t', after) == Flat(t, before) && KeepsPresent(t, before, t', after)
    requires SameOutside(before, after, t.Footprint())
    ensures Preserved(t, before, t', after)
  {
  }

  lemma PreservedTransitive(t0: Torrent, a: Store, t1: Torrent, b: Store, t2: Torrent, c: Store)
    requires t0.WellFormed() && t1.WellFormed() && Preserved(t0, a, t1, b) && Preserved(t1, b, t2, c)
    ensures Preserved(t0, a, t2, c)
  {
  }

  lemma WithPriorityParts(t: Torrent, i: nat, priority: nat)
    requires t.Distinct() && i < |t.files|
    ensures t.WellFormed() && |t.priorities| == |t.files|
    ensures WithPriority(t, i, priority) == t.(priorities := t.priorities[i := priority])
    ensures WithPriority(t, i, priority).WellFormed() && WithPriority(t, i, priority).Distinct()
  {
  }

  lemma MigratableIs(t: Torrent, i: nat, toPart: bool)
    requires t.Distinct() && i < |t.files|
    ensures |t.priorities| == |t.files|
    ensures Migratable(t, i, toPart) <==> !t.files[i].pad && (t.priorities[i] == DONT_DOWNLOAD) != toPart
    ensures t.Skipped(i) <==> t.priorities[i] == DONT_DOWNLOAD
  {
  }

  /** A file that was kept publicly and is now skipped has no public file any more. */
  predicate Vacated(t: Torrent, was: seq<nat>, priority: nat, i: nat, store: Store)
    requires t.WellFormed() && i < |t.files| && |was| == |t.files|
  {
    !t.files[i].pad && t.files[i].size > 0 && was[i] != DONT_DOWNLOAD && priority == DONT_DOWNLOAD ==>
      t.paths[i] !in store
  }

  predicate VacatedUpTo(t: Torrent, was: seq<nat>, wanted: seq<nat>, n: nat, store: Store)
    requires t.WellFormed() && n <= |t.files| && |was| == |wanted| == |t.files|
  {
    forall i :: 0 <= i < n ==> Vacated(t, was, wanted[i], i, store)
  }

  lemma VacatedOneMore(t: Torrent, t': Torrent, was: seq<nat>, before: seq<nat>, wanted: seq<nat>, n: nat,
                       store: Store, after: Store)
    requires t.Distinct() && t'.WellFormed() && t'.files == t.files && t'.paths == t.paths
    requires n < |t.files| && |was| == |before| == |wanted| == |t.files| && before[n] == was[n]
    requires VacatedUpTo(t, was, wanted, n, store) && SameOutside(store, after, {t.part, t.paths[n]})
    requires t.files[n].pad ==> after == store
    requires Vacated(t', before, wanted[n], n, after)
    ensures VacatedUpTo(t', was, wanted, n + 1, after)
  {
  }

  lemma VacatedStays(t: Torrent, was: seq<nat>, wanted: seq<nat>, store: Store, after: Store)
    requires t.Distinct() && |was| == |wanted| == |t.files|
    requires VacatedUpTo(t, was, wanted, |t.files|, store) && SameOutside(store, after, {t.part})
    ensures VacatedUpTo(t, was, wanted, |t.files|, after)
  {
  }

  lemma NoneVacated(t: Torrent, was: seq<nat>, wanted: seq<nat>, store: Store)
    requires t.WellFormed() && |was| == |wanted| == |t.files|
    ensures VacatedUpTo(t, was, wanted, 0, store)
  {
  }

  lemma VacatedIntro(t: Torrent, was: seq<nat>, priority: nat, i: nat, store: Store)
    requires t.WellFormed() && i < |t.files| && |was| == |t.files|
    requires
      var nowSkipped := priority == DONT_DOWNLOAD;
      !t.files[i].pad && (was[i] == DONT_DOWNLOAD) != nowSkipped ==>
        nowSkipped && t.files[i].size > 0 ==> t.paths[i] !in store
    ensures Vacated(t, was, priority, i, store)
  {
  }

  lemma PlacesInFootprint(t: Torrent, i: nat, before: Store, after: Store)
    requires t.WellFormed() && i < |t.files| && SameOutside(before, after, {t.part, t.paths[i]})
    requires t.files[i].pad ==> after == before
    ensures SameOutside(before, after, t.Footprint())
  {
  }

  /** One round of the priority loop: the file's priority is changed only after its bytes moved. */
  method ApplyPriority(cache: DescriptorCache, torrent: TorrentStorage, storage: nat, index: nat, priority: nat)
    returns (error: StorageError)
    requires cache.Valid() && torrent.Valid() && index < |torrent.files.entries|
    requires torrent.View().Distinct() && torrent.View().WellFormed()
    requires Settled(Keys(cache.descriptors), storage, torrent.View())
    modifies cache`descriptors, cache`recency, torrent`priorities
    modifies cache.bridge`names, cache.bridge`bodies, cache.bridge`handles, cache.bridge`interrupts
    modifies cache.bridge`directories, cache.bridge`removals, cache.bridge`faults
    ensures cache.bridge.faults >= old(cache.bridge.faults)
    ensures cache.Valid() && torrent.Valid() && Keys(cache.descriptors) <= Keys(old(cache.descriptors))
    ensures torrent.View().Distinct() && torrent.View().WellFormed() && old(torrent.View().WellFormed())
    ensures index < |old(torrent.priorities)|
    ensures torrent.priorities == if error.Failed? then old(torrent.priorities) else old(torrent.priorities)[index := priority]
    ensures SameOutside(old(cache.bridge.Contents()), cache.bridge.Contents(), {torrent.partPath, torrent.paths[index]})
    ensures torrent.files.entries[index].pad ==> cache.bridge.Contents() == old(cache.bridge.Contents())
    ensures error.NoError? ==>
              && Changeable(old(torrent.View()), old(cache.bridge.Contents()), index, priority)
              && PartStep(old(torrent.View()), old(cache.bridge.Contents()), cache.bridge.Contents(), index, priority)
    ensures error.Failed? ==> error.file == index && Changes(old(torrent.View()), index, priority)
    ensures error.NoError? ==>
              cache.bridge.removals == old(cache.bridge.removals) + Vacates(old(torrent.View()), index, priority)
    ensures error.Failed? ==>
              || cache.bridge.removals == old(cache.bridge.removals)
              || cache.bridge.removals == old(cache.bridge.removals) + Vacates(old(torrent.View()), index, priority)
    ensures error.Failed? && cache.bridge.faults == old(cache.bridge.faults) ==>
              !Changeable(old(torrent.View()), old(cache.bridge.Contents()), index, priority)
    ensures error.NoError? ==> Vacated(torrent.View(), old(torrent.priorities), priority, index, cache.bridge.Contents())
    ensures Preserved(old(torrent.View()), old(cache.bridge.Contents()), torrent.View(), cache.bridge.Contents())
    ensures torrent.partPath in old(cache.bridge.Contents()) ==> torrent.partPath in cache.bridge.Contents()
  {
    hide *;
    ghost var t, before := torrent.View(), cache.bridge.Contents();
    torrent.ViewParts();
    WithPriorityParts(t, index, priority);
    var wasSkipped := torrent.priorities[index] == DONT_DOWNLOAD;
    var nowSkipped := priority == DONT_DOWNLOAD;
    MigratableIs(t, index, nowSkipped);
    VacatesIs(t, index, priority);
    ChangeableIs(t, before, index, priority);
    PartStepIs(t, before, before, index, priority);
    error := NoError;
    if !torrent.files.entries[index].pad && wasSkipped != nowSkipped {
      error := MigratePriority(cache, torrent, storage, index, nowSkipped, priority);
    } else {
      SamePlace(t, before, index, priority);
      NothingTouched(before, {t.part, t.paths[index]});
    }
    PlacesInFootprint(t, index, before, cache.bridge.Contents());
    if error.Failed? {
      PreservedIntro(t, before, t, cache.bridge.Contents());
      return;
    }
    ghost var was := torrent.priorities;
    torrent.SetPriority(index, priority);
    VacatedIntro(torrent.View(), was, priority, index, cache.bridge.Contents());
    PreservedIntro(t, before, torrent.View(), cache.bridge.Contents());
  }

  lemma PartClosed(ds: seq<OpenDescriptor>, storage: nat, t: Torrent)
    requires t.Distinct() && Settled(Keys(ds), storage, t)
    ensures forall d :: d in Drop(ds, OfFile(storage, -1)) ==> d.path != t.part
  {
    DropMembers(ds, OfFile(storage, -1));
    KeysDrop(ds, OfFile(storage, -1));
    NobodyHasPart(Drop(ds, OfFile(storage, -1)), storage, t);
  }

  lemma PartInFootprint(t: Torrent, before: Store, after: Store)
    requires t.WellFormed() && SameOutside(before, after, {t.part})
    ensures SameOutside(before, after, t.Footprint())
  {
  }

  /** When nothing is skipped any more the part file goes. */
  method RemovePartFile(cache: DescriptorCache, torrent: TorrentStorage, storage: nat) returns (error: StorageError)
    requires cache.Valid() && torrent.Valid() && torrent.View().Distinct() && torrent.View().WellFormed()
    requires Settled(Keys(cache.descriptors), storage, torrent.View())
    requires forall i :: 0 <= i < |torrent.priorities| ==> torrent.priorities[i] != DONT_DOWNLOAD
    modifies cache`descriptors, cache`recency, cache.bridge`names, cache.bridge`handles, cache.bridge`removals
    modifies cache.bridge`faults
    ensures cache.bridge.faults >= old(cache.bridge.faults)
    ensures cache.Valid() && Keys(cache.descriptors) <= Keys(old(cache.descriptors))
    ensures Preserved(torrent.View(), old(cache.bridge.Contents()), torrent.View(), cache.bridge.Contents())
    ensures error.NoError? ==> torrent.partPath !in cache.bridge.Contents()
    ensures cache.bridge.removals == old(cache.bridge.removals) + [torrent.partPath]
    ensures error.Failed? ==> error.file == -1
    ensures SameOutside(old(cache.bridge.Contents()), cache.bridge.Contents(), {torrent.partPath})
    ensures error.Failed? ==> cache.bridge.faults > old(cache.bridge.faults)
  {
    hide *;
    ghost var t, before := torrent.View(), cache.bridge.Contents();
    torrent.ViewParts();
    cache.BridgeValid();
    ErrnoPositive();
    cache.bridge.NamesContents(torrent.partPath);
    KeysDrop(cache.descriptors, OfFile(storage, -1));
    PartClosed(cache.descriptors, storage, t);
    cache.CloseFile(storage, -1);
    cache.BridgeValid();
    label Closed:
    var result := cache.bridge.Remove(torrent.partPath);
    cache.SurvivesNames@Closed();
    cache.bridge.NamesContents(torrent.partPath);
    RemovedOne(before, torrent.partPath);
    PartUnused(t, before, cache.bridge.Contents());
    PartInFootprint(t, before, cache.bridge.Contents());
    PreservedIntro(t, before, t, cache.bridge.Contents());
    error := if result < 0 && result != -ENOENT then MakeError(result, -1, FileRemove) else NoError;
  }

  /** The part file goes if nothing is skipped. */
  method DropPartFile(cache: DescriptorCache, torrent: TorrentStorage, storage: nat) returns (error: StorageError)
    requires cache.Valid() && torrent.Valid() && torrent.View().Distinct() && torrent.View().WellFormed()
    requires Settled(Keys(cache.descriptors), storage, torrent.View())
    modifies cache`descriptors, cache`recency, cache.bridge`names, cache.bridge`handles, cache.bridge`removals
    modifies cache.bridge`faults
    ensures cache.bridge.faults >= old(cache.bridge.faults)
    ensures cache.Valid() && Keys(cache.descriptors) <= Keys(old(cache.descriptors))
    ensures Preserved(torrent.View(), old(cache.bridge.Contents()), torrent.View(), cache.bridge.Contents())
    ensures NothingSkipped(torrent.priorities) && error.NoError? ==> torrent.partPath !in cache.bridge.Contents()
    ensures !NothingSkipped(torrent.priorities) ==>
              error.NoError? && cache.bridge.Contents() == old(cache.bridge.Contents())
    ensures cache.bridge.removals
         == old(cache.bridge.removals) + if NothingSkipped(torrent.priorities) then [torrent.partPath] else []
    ensures error.Failed? ==> error.file == -1 && NothingSkipped(torrent.priorities)
    ensures SameOutside(old(cache.bridge.Contents()), cache.bridge.Contents(), {torrent.partPath})
    ensures error.Failed? ==> cache.bridge.faults > old(cache.bridge.faults)
  {
    hide *;
    PreservedSame(torrent.View(), cache.bridge.Contents());
    NothingTouched(cache.bridge.Contents(), {torrent.partPath});
    NothingSkippedIs(torrent.priorities);
    error := NoError;
    if NothingSkipped(torrent.priorities) {
      error := RemovePartFile(cache, torrent, storage);
    }
  }

  predicate NothingSkipped(priorities: seq<nat>) {
    forall i :: 0 <= i < |priorities| ==> priorities[i] != DONT_DOWNLOAD
  }

  lemma NothingSkippedIs(priorities: seq<nat>)
    ensures NothingSkipped(priorities) <==> forall i :: 0 <= i < |priorities| ==> priorities[i] != DONT_DOWNLOAD
  {
  }

  /** The first k priorities are the wanted ones, the others are as they were. */
  predicate SetUpTo(was: seq<nat>, wanted: seq<nat>, k: nat, now: seq<nat>) {
    k <= |wanted| == |was| && now == wanted[..k] + was[k..]
  }

  lemma NextPriority(was: seq<nat>, wanted: seq<nat>, k: nat, now: seq<nat>)
    requires SetUpTo(was, wanted, k, now) && k < |wanted|
    ensures |now| == |was| && now[k] == was[k] && SetUpTo(was, wanted, k + 1, now[k := wanted[k]])
  {
  }

  lemma NoneSet(was: seq<nat>, wanted: seq<nat>)
    requires |was| == |wanted|
    ensures SetUpTo(was, wanted, 0, was)
  {
  }

  lemma WholeSet(was: seq<nat>, wanted: seq<nat>, now: seq<nat>)
    requires SetUpTo(was, wanted, |wanted|, now)
    ensures now == wanted
  {
  }

  // ---- Which priorities can be had, seen from the start

  /** A file before the n-th one goes to the part file. */
  predicate Arrives(t: Torrent, wanted: seq<nat>, n: nat)
    requires t.WellFormed() && n <= |t.files| == |wanted|
  {
    exists j :: 0 <= j < n && Changes(t, j, wanted[j]) && wanted[j] == DONT_DOWNLOAD
  }

  /** File i can follow its wanted priority when its turn comes. One that is to leave the part file
      must find all its bytes there, or no part file; and a part file that an earlier file brought
      about ends before this one's place. */
  predicate Possible(t: Torrent, store: Store, wanted: seq<nat>, i: nat)
    requires t.WellFormed() && i < |t.files| == |wanted|
  {
    && Changeable(t, store, i, wanted[i])
    && (Changes(t, i, wanted[i]) && t.Skipped(i) && t.part !in store ==> !Arrives(t, wanted, i))
  }

  predicate Achievable(t: Torrent, store: Store, wanted: seq<nat>)
    requires t.WellFormed() && |t.files| == |wanted|
  {
    PossibleUpTo(t, store, wanted, |t.files|)
  }

  predicate PossibleUpTo(t: Torrent, store: Store, wanted: seq<nat>, n: nat)
    requires t.WellFormed() && n <= |t.files| == |wanted|
  {
    forall i :: 0 <= i < n ==> Possible(t, store, wanted, i)
  }

  /** The first n files have followed their priorities. */
  ghost predicate Progress(t: Torrent, before: Store, wanted: seq<nat>, n: nat, now: Store)
    requires t.WellFormed() && n <= |t.files| == |wanted|
  {
    && PossibleUpTo(t, before, wanted, n)
    && (forall i :: n <= i < |t.files| && !t.files[i].pad ==>
                      (t.paths[i] in now <==> t.paths[i] in before) && Content(now, t.paths[i]) == Content(before, t.paths[i]))
    && (t.part in now <==> t.part in before || Arrives(t, wanted, n))
    && |Content(now, t.part)| == PartEnd(t, wanted, n, |Content(before, t.part)|)
    && forall i :: 0 <= i < n && Changes(t, i, wanted[i]) && wanted[i] != DONT_DOWNLOAD ==>
                     |Content(now, t.paths[i])| == t.files[i].size
  }

  /** How long the part file is then. */
  function PartEnd(t: Torrent, wanted: seq<nat>, n: nat, length: nat): nat
    requires t.WellFormed() && n <= |t.files| == |wanted|
  {
    if n == 0 then length
    else
      var before := PartEnd(t, wanted, n - 1, length);
      if Changes(t, n - 1, wanted[n - 1]) && wanted[n - 1] == DONT_DOWNLOAD then Max(before, Offset(t.files, n))
      else before
  }

  /** Whoever came to it ended before the files behind. */
  lemma {:induction false} PartEndBounds(t: Torrent, wanted: seq<nat>, n: nat, length: nat)
    requires t.WellFormed() && n <= |t.files| == |wanted|
    ensures length <= PartEnd(t, wanted, n, length) <= Max(length, Offset(t.files, n))
  {
    if n > 0 {
      PartEndBounds(t, wanted, n - 1, length);
    }
  }

  lemma NoProgress(t: Torrent, store: Store, wanted: seq<nat>)
    requires t.WellFormed() && |t.files| == |wanted|
    ensures Progress(t, store, wanted, 0, store)
  {
  }

  lemma ProgressAll(t: Torrent, before: Store, wanted: seq<nat>, now: Store)
    requires t.WellFormed() && |t.files| == |wanted| && Progress(t, before, wanted, |t.files|, now)
    ensures Achievable(t, before, wanted)
  {
  }

  /** Whether the next change can be made does not depend on the ones before it. */
  lemma NextPossible(t: Torrent, before: Store, wanted: seq<nat>, n: nat, t1: Torrent, now: Store)
    requires t.Distinct() && t1.WellFormed() && n < |t.files| == |wanted| && Progress(t, before, wanted, n, now)
    requires t1.files == t.files && t1.paths == t.paths && t1.part == t.part && t1.priorities[n] == t.priorities[n]
    ensures Changeable(t1, now, n, wanted[n]) <==> Possible(t, before, wanted, n)
    ensures !Changeable(t1, now, n, wanted[n]) ==> !Achievable(t, before, wanted)
  {
    hide Offset, Arrives, Safe, PartEnd;
    PartEndBounds(t, wanted, n, |Content(before, t.part)|);
  }

  lemma NextProgress(t: Torrent, before: Store, wanted: seq<nat>, n: nat, t1: Torrent, now: Store, after: Store)
    requires t.Distinct() && t1.WellFormed() && n < |t.files| == |wanted| && Progress(t, before, wanted, n, now)
    requires t1.files == t.files && t1.paths == t.paths && t1.part == t.part && t1.priorities[n] == t.priorities[n]
    requires Changeable(t1, now, n, wanted[n]) && PartStep(t1, now, after, n, wanted[n])
    requires SameOutside(now, after, {t.part, t.paths[n]})
    ensures Progress(t, before, wanted, n + 1, after)
  {
    NextPossible(t, before, wanted, n, t1, now);
    NextArrives(t, wanted, n);
    assert Offset(t.files, n + 1) == Offset(t.files, n) + t.files[n].size;
  }

  /** The removals that the first n changes ask for. */
  function Vacating(t: Torrent, wanted: seq<nat>, n: nat): seq<string>
    requires t.WellFormed() && n <= |t.files| == |wanted|
  {
    if n == 0 then [] else Vacating(t, wanted, n - 1) + Vacates(t, n - 1, wanted[n - 1])
  }

  /** The places that the first n changes fill or leave. */
  function Rehomed(t: Torrent, wanted: seq<nat>, n: nat): set<string>
    requires t.WellFormed() && n <= |t.files| == |wanted|
  {
    {t.part} + set i | 0 <= i < n && Changes(t, i, wanted[i]) :: t.paths[i]
  }

  lemma NoneRehomed(t: Torrent, store: Store, wanted: seq<nat>)
    requires t.WellFormed() && |t.files| == |wanted|
    ensures SameOutside(store, store, Rehomed(t, wanted, 0)) && Vacating(t, wanted, 0) == []
  {
  }

  lemma NextRehomed(t: Torrent, before: Store, wanted: seq<nat>, n: nat, t1: Torrent, now: Store, after: Store)
    requires t.WellFormed() && t1.WellFormed() && n < |t.files| == |wanted|
    requires t1.files == t.files && t1.paths == t.paths && t1.part == t.part && t1.priorities[n] == t.priorities[n]
    requires SameOutside(before, now, Rehomed(t, wanted, n)) && SameOutside(now, after, {t.part, t.paths[n]})
    requires !Changes(t1, n, wanted[n]) ==> after == now
    ensures SameOutside(before, after, Rehomed(t, wanted, n + 1))
    ensures Changes(t1, n, wanted[n]) == Changes(t, n, wanted[n])
    ensures Vacating(t, wanted, n + 1) == Vacating(t, wanted, n) + Vacates(t1, n, wanted[n])
  {
  }

  lemma RehomedAll(t: Torrent, before: Store, wanted: seq<nat>, n: nat, now: Store, after: Store)
    requires t.WellFormed() && n <= |t.files| == |wanted|
    requires SameOutside(before, now, Rehomed(t, wanted, n)) && SameOutside(now, after, {t.part})
    ensures SameOutside(before, after, Rehomed(t, wanted, |t.files|))
  {
    assert Rehomed(t, wanted, n) <= Rehomed(t, wanted, |t.files|);
  }

  lemma NextArrives(t: Torrent, wanted: seq<nat>, n: nat)
    requires t.WellFormed() && n < |t.files| == |wanted|
    ensures Arrives(t, wanted, n + 1) <==>
            Arrives(t, wanted, n) || (Changes(t, n, wanted[n]) && wanted[n] == DONT_DOWNLOAD)
  {
  }

  /** Without an error all priorities are set; the error names the file whose change failed, or none
      if it was the removal of the part file. */
  predicate StoppedAt(t: Torrent, wanted: seq<nat>, error: StorageError, now: seq<nat>)
    requires t.WellFormed() && |wanted| == |t.files|
  {
    if error.NoError? || error.file == -1 then now == wanted && (error.Failed? ==> NothingSkipped(wanted))
    else
      && 0 <= error.file < |wanted| && Changes(t, error.file, wanted[error.file])
      && SetUpTo(t.priorities, wanted, error.file, now)
  }

  /** The removals asked for on the way there. */
  predicate VacatedAt(t: Torrent, wanted: seq<nat>, error: StorageError, asked: seq<string>)
    requires t.WellFormed() && |wanted| == |t.files|
  {
    if error.NoError? || error.file == -1 then
      asked == Vacating(t, wanted, |wanted|) + if NothingSkipped(wanted) then [t.part] else []
    else
      0 <= error.file < |wanted| &&
      (asked == Vacating(t, wanted, error.file) || asked == Vacating(t, wanted, error.file + 1))
  }

  lemma StoppedIs(t: Torrent, wanted: seq<nat>, error: StorageError, now: seq<nat>, asked: seq<string>)
    requires t.WellFormed() && |wanted| == |t.files|
    ensures StoppedAt(t, wanted, error, now) <==>
              if error.NoError? || error.file == -1 then now == wanted && (error.Failed? ==> NothingSkipped(wanted))
              else
                && 0 <= error.file < |wanted| && Changes(t, error.file, wanted[error.file])
                && SetUpTo(t.priorities, wanted, error.file, now)
    ensures VacatedAt(t, wanted, error, asked) <==>
              if error.NoError? || error.file == -1 then
                asked == Vacating(t, wanted, |wanted|) + if NothingSkipped(wanted) then [t.part] else []
              else
                0 <= error.file < |wanted| &&
                (asked == Vacating(t, wanted, error.file) || asked == Vacating(t, wanted, error.file + 1))
  {
  }

  /** The first n files have followed their priorities, and nothing else happened. */
  ghost predicate Underway(t: Torrent, before: Store, wanted: seq<nat>, n: nat, t1: Torrent, now: Store, asked: seq<string>)
    requires t.WellFormed() && n <= |t.files| == |wanted|
  {
    && Preserved(t, before, t1, now)
    && SetUpTo(t.priorities, wanted, n, t1.priorities)
    && VacatedUpTo(t1, t.priorities, wanted, n, now)
    && Progress(t, before, wanted, n, now)
    && SameOutside(before, now, Rehomed(t, wanted, n))
    && asked == Vacating(t, wanted, n)
    && (t.part in before ==> t.part in now)
  }

  lemma UnderwayNothing(t: Torrent, before: Store, wanted: seq<nat>)
    requires t.WellFormed() && |t.files| == |wanted|
    ensures Underway(t, before, wanted, 0, t, before, [])
  {
    hide *;
    WellFormedParts(t);
    PreservedSame(t, before);
    NoneVacated(t, t.priorities, wanted, before);
    NoneSet(t.priorities, wanted);
    NoProgress(t, before, wanted);
    NoneRehomed(t, before, wanted);
    UnderwayIs(t, before, wanted, 0, t, before, []);
  }

  lemma WellFormedParts(t: Torrent)
    requires t.WellFormed()
    ensures |t.priorities| == |t.files| == |t.paths|
  {
  }

  lemma UnderwayIs(t: Torrent, before: Store, wanted: seq<nat>, n: nat, t1: Torrent, now: Store, asked: seq<string>)
    requires t.WellFormed() && n <= |t.files| == |wanted|
    ensures |t.priorities| == |t.files|
    ensures Underway(t, before, wanted, n, t1, now, asked) <==>
              && Preserved(t, before, t1, now)
              && t1.WellFormed() && t1.files == t.files && t1.paths == t.paths && t1.part == t.part
              && SetUpTo(t.priorities, wanted, n, t1.priorities)
              && VacatedUpTo(t1, t.priorities, wanted, n, now)
              && Progress(t, before, wanted, n, now)
              && SameOutside(before, now, Rehomed(t, wanted, n))
              && asked == Vacating(t, wanted, n)
              && (t.part in before ==> t.part in now)
  {
  }

  lemma UnderwayParts(t: Torrent, before: Store, wanted: seq<nat>, n: nat, t1: Torrent, now: Store, asked: seq<string>)
    requires t.WellFormed() && n <= |t.files| == |wanted| && Underway(t, before, wanted, n, t1, now, asked)
    ensures |t1.priorities| == |t.files| && t1.files == t.files && t1.paths == t.paths && t1.part == t.part
    ensures n == |wanted| ==> t1.priorities == wanted
  {
    if n == |wanted| {
      WholeSet(t.priorities, wanted, t1.priorities);
    }
  }

  /** One round of the loop. */
  lemma UnderwayNext(t: Torrent, before: Store, wanted: seq<nat>, n: nat, t1: Torrent, mid: Store, asked: seq<string>,
                     t2: Torrent, after: Store, asked': seq<string>, error: StorageError)
    requires t.Distinct() && t.WellFormed() && n < |t.files| == |wanted| && Underway(t, before, wanted, n, t1, mid, asked)
    requires t1.Distinct() && t1.WellFormed() && t2.WellFormed() && Preserved(t1, mid, t2, after)
    requires |t1.priorities| == |t1.files| == |t.files|
    requires |t1.paths| == |t.files| && SameOutside(mid, after, {t1.part, t1.paths[n]})
    requires t1.files[n].pad ==> after == mid
    requires t2.priorities == if error.Failed? then t1.priorities else t1.priorities[n := wanted[n]]
    requires error.NoError? ==>
               && Changeable(t1, mid, n, wanted[n]) && PartStep(t1, mid, after, n, wanted[n])
               && |t2.files| == |t1.priorities| && Vacated(t2, t1.priorities, wanted[n], n, after)
               && asked' == asked + Vacates(t1, n, wanted[n])
    requires error.Failed? ==>
               && error.file == n && Changes(t1, n, wanted[n])
               && (asked' == asked || asked' == asked + Vacates(t1, n, wanted[n]))
    requires t1.part in mid ==> t1.part in after
    ensures error.NoError? ==> Underway(t, before, wanted, n + 1, t2, after, asked')
    ensures error.Failed? ==>
              && Preserved(t, before, t2, after) && SameOutside(before, after, Rehomed(t, wanted, |wanted|))
              && StoppedAt(t, wanted, error, t2.priorities) && VacatedAt(t, wanted, error, asked')
              && (t.part in before ==> t.part in after)
    ensures !Changeable(t1, mid, n, wanted[n]) ==> !Achievable(t, before, wanted)
  {
    hide *;
    UnderwayIs(t, before, wanted, n, t1, mid, asked);
    WellFormedParts(t);
    PreservedTransitive(t, before, t1, mid, t2, after);
    PreservedPaths(t1, mid, t2, after);
    NextPriority(t.priorities, wanted, n, t1.priorities);
    NextPossible(t, before, wanted, n, t1, mid);
    PartStepIs(t1, mid, after, n, wanted[n]);
    NextRehomed(t, before, wanted, n, t1, mid, after);
    RehomedAll(t, before, wanted, n + 1, after, after);
    if error.Failed? {
      StoppedIs(t, wanted, error, t2.priorities, asked');
    } else {
      NextProgress(t, before, wanted, n, t1, mid, after);
      VacatedOneMore(t1, t2, t.priorities, t1.priorities, wanted, n, mid, after);
      UnderwayIs(t, before, wanted, n + 1, t2, after, asked');
    }
  }

  /** After the loop and the removal of the part file. */
  lemma UnderwayDone(t: Torrent, before: Store, wanted: seq<nat>, t1: Torrent, mid: Store, asked: seq<string>,
                     after: Store, asked': seq<string>, error: StorageError)
    requires t.Distinct() && t.WellFormed() && |t.files| == |wanted| && Underway(t, before, wanted, |wanted|, t1, mid, asked)
    requires t1.Distinct() && t1.WellFormed() && Preserved(t1, mid, t1, after) && SameOutside(mid, after, {t1.part})
    requires asked' == asked + if NothingSkipped(t1.priorities) then [t1.part] else []
    requires error.Failed? ==> error.file == -1 && NothingSkipped(t1.priorities)
    ensures Preserved(t, before, t1, after) && SameOutside(before, after, Rehomed(t, wanted, |wanted|))
    ensures StoppedAt(t, wanted, error, t1.priorities) && VacatedAt(t, wanted, error, asked')
    ensures Achievable(t, before, wanted) && |t.priorities| == |t1.files| == |wanted|
    ensures VacatedUpTo(t1, t.priorities, wanted, |wanted|, after) && (t.part in before ==> t.part in mid)
    ensures after == mid ==> Progress(t, before, wanted, |wanted|, after)
  {
    hide *;
    UnderwayIs(t, before, wanted, |wanted|, t1, mid, asked);
    WellFormedParts(t);
    WholeSet(t.priorities, wanted, t1.priorities);
    PreservedTransitive(t, before, t1, mid, t1, after);
    RehomedAll(t, before, wanted, |wanted|, mid, after);
    ProgressAll(t, before, wanted, mid);
    VacatedStays(t1, t.priorities, wanted, mid, after);
    StoppedIs(t, wanted, error, t1.priorities, asked');
  }

  /** `async_set_file_priority`. The flat array and what of it is readable are the same whatever
      fails; the priorities are changed up to the file that failed; the part file is removed only
      when no file is skipped, and then it is; and a file that is skipped from now on leaves no
      public file behind. */
  method SetFilePriority(cache: DescriptorCache, torrent: TorrentStorage, storage: nat, requested: seq<nat>)
    returns (error: StorageError, current: seq<nat>)
    requires cache.Valid() && torrent.Valid() && torrent.View().Distinct() && torrent.View().WellFormed()
    requires Settled(Keys(cache.descriptors), storage, torrent.View())
    modifies cache`descriptors, cache`recency, torrent`priorities
    modifies cache.bridge`names, cache.bridge`bodies, cache.bridge`handles, cache.bridge`interrupts
    modifies cache.bridge`directories, cache.bridge`removals, cache.bridge`faults
    ensures cache.bridge.faults >= old(cache.bridge.faults)
    ensures cache.Valid() && torrent.Valid() && Keys(cache.descriptors) <= Keys(old(cache.descriptors))
    ensures torrent.View().Distinct() && old(torrent.View().WellFormed())
    ensures Preserved(old(torrent.View()), old(cache.bridge.Contents()), torrent.View(), cache.bridge.Contents())
    ensures current == torrent.priorities
    ensures
      var wanted := ResizePriorities(requested, |torrent.files.entries|);
      && |old(torrent.priorities)| == |wanted| == |old(torrent.View()).files|
      && StoppedAt(old(torrent.View()), wanted, error, torrent.priorities)
      && old(cache.bridge.removals) <= cache.bridge.removals
      && VacatedAt(old(torrent.View()), wanted, error, cache.bridge.removals[|old(cache.bridge.removals)|..])
      && SameOutside(old(cache.bridge.Contents()), cache.bridge.Contents(),
                     Rehomed(old(torrent.View()), wanted, |wanted|))
    ensures torrent.partPath in old(cache.bridge.Contents()) && torrent.partPath !in cache.bridge.Contents() ==>
              NothingSkipped(torrent.priorities)
    ensures error.NoError? && NothingSkipped(torrent.priorities) ==> torrent.partPath !in cache.bridge.Contents()
    // Unless the bridge fails, exactly the priorities that can be had are set.
    ensures
      var t, wanted := old(torrent.View()), ResizePriorities(requested, |torrent.files.entries|);
      && |t.files| == |wanted|
      && (error.NoError? ==> Achievable(t, old(cache.bridge.Contents()), wanted))
      && (error.Failed? && cache.bridge.faults == old(cache.bridge.faults) ==>
            !Achievable(t, old(cache.bridge.Contents()), wanted))
    // While something is skipped the lengths of all places follow.
    ensures
      var t, wanted := old(torrent.View()), ResizePriorities(requested, |torrent.files.entries|);
      |t.files| == |wanted| &&
      (error.NoError? && !NothingSkipped(torrent.priorities) ==>
         Progress(t, old(cache.bridge.Contents()), wanted, |wanted|, cache.bridge.Contents()))
    ensures error.NoError? ==>
              && |torrent.priorities| == |torrent.files.entries|
              && VacatedUpTo(torrent.View(), old(torrent.priorities), torrent.priorities, |torrent.files.entries|,
                             cache.bridge.Contents())
  {
    hide *;
    ghost var t, before, removals := torrent.View(), cache.bridge.Contents(), cache.bridge.removals;
    torrent.Lengths();
    torrent.ViewParts();
    var priorities := ResizePriorities(requested, |torrent.files.entries|);
    error := NoError;
    UnderwayNothing(t, before, priorities);
    assert removals[|removals|..] == [];
    for index := 0 to |priorities|
      invariant cache.Valid() && torrent.Valid() && Keys(cache.descriptors) <= Keys(old(cache.descriptors))
      invariant torrent.View().Distinct() && torrent.View().WellFormed()
      invariant Settled(Keys(cache.descriptors), storage, torrent.View())
      invariant removals <= cache.bridge.removals && cache.bridge.faults >= old(cache.bridge.faults)
      invariant Underway(t, before, priorities, index, torrent.View(), cache.bridge.Contents(),
                         cache.bridge.removals[|removals|..])
    {
      ghost var t1, mid, keys := torrent.View(), cache.bridge.Contents(), Keys(cache.descriptors);
      ghost var asked := cache.bridge.removals[|removals|..];
      torrent.ViewParts();
      UnderwayParts(t, before, priorities, index, t1, mid, asked);
      error := ApplyPriority(cache, torrent, storage, index, priorities[index]);
      torrent.ViewParts();
      PreservedPaths(t1, mid, torrent.View(), cache.bridge.Contents());
      SettledSubset(keys, Keys(cache.descriptors), storage, t1);
      SettledSamePaths(Keys(cache.descriptors), storage, t1, torrent.View());
      UnderwayNext(t, before, priorities, index, t1, mid, asked, torrent.View(), cache.bridge.Contents(),
                   cache.bridge.removals[|removals|..], error);
      if error.Failed? {
        return error, torrent.priorities;
      }
    }
    current := torrent.priorities;
    ghost var t1, mid, asked := torrent.View(), cache.bridge.Contents(), cache.bridge.removals[|removals|..];
    torrent.ViewParts();
    UnderwayParts(t, before, priorities, |priorities|, t1, mid, asked);
    error := DropPartFile(cache, torrent, storage);
    UnderwayDone(t, before, priorities, t1, mid, asked, cache.bridge.Contents(), cache.bridge.removals[|removals|..], error);
  }

  lemma PreservedPaths(t: Torrent, before: Store, t': Torrent, after: Store)
    requires t.WellFormed() && Preserved(t, before, t', after)
    ensures t'.WellFormed() && t'.files == t.files && t'.paths == t.paths && t'.part == t.part
  {
  }

}
