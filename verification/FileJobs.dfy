/** Renaming, initialising and deleting a torrent's files. */
module FileJobs {
  import opened Bytes
  import opened Errors
  import opened Layout
  import opened Paths
  import opened FlatView
  import opened Bridges
  import opened Directories
  import opened Descriptors
  import opened DescriptorCaches
  import opened Torrents
  import opened PublicCopy
  import opened Migration
  import opened MovePlan
  import opened SettledKeys
  import opened Priorities

  // ---- Renaming

  /** Nobody but this file has a descriptor cached under the path. */
  predicate SoleUser(ds: seq<OpenDescriptor>, storage: nat, file: int, path: string) {
    forall d :: d in ds && d.path == path ==> d.storage == storage && d.file == file
  }

  lemma SoleUserGone(ds: seq<OpenDescriptor>, storage: nat, file: int, path: string)
    requires SoleUser(ds, storage, file, path)
    ensures forall d :: d in Drop(ds, OfFile(storage, file)) ==> d.path != path
  {
  }

  function RenamedStore(store: Store, path: string, path': string): Store
    requires path in store
  {
    (store - {path})[path' := store[path]]
  }

  /** `async_rename_file`. */
  method RenameFile(cache: DescriptorCache, torrent: TorrentStorage, storage: nat, index: int, name: string)
    returns (error: StorageError)
    requires cache.Valid() && torrent.Valid()
    modifies cache`descriptors, cache`recency, torrent`logicalPaths, torrent`paths
    modifies cache.bridge`names, cache.bridge`handles, cache.bridge`directories, cache.bridge`faults
    ensures cache.bridge.faults >= old(cache.bridge.faults)
    ensures cache.bridge.Valid() && torrent.Valid() && |old(torrent.paths)| == |torrent.files.entries|
    // What others have open stays coherent as long as none of it changes its name.
    ensures (0 <= index < |torrent.files.entries| && Safe(name) ==>
               && SoleUser(old(cache.descriptors), storage, index, old(torrent.paths)[index])
               && SoleUser(old(cache.descriptors), storage, index, RootedPath(torrent.saveRoot, name))) ==>
              cache.Valid()
    ensures NamingStep(old(torrent.Names()), torrent.Names())
    ensures Keys(cache.descriptors) <= Keys(old(cache.descriptors))
    ensures !(0 <= index < |torrent.files.entries|) || !Safe(name) ==> error == InvalidArgument(index, FileRename)
    ensures error.Failed? ==>
              && torrent.logicalPaths == old(torrent.logicalPaths) && torrent.paths == old(torrent.paths)
              && cache.bridge.Contents() == old(cache.bridge.Contents())
    ensures error.NoError? ==>
              && 0 <= index < |old(torrent.paths)| && |old(torrent.logicalPaths)| == |old(torrent.paths)|
              && Safe(name) && Safe(RootedPath(torrent.saveRoot, name))
              && torrent.logicalPaths == old(torrent.logicalPaths)[index := name]
              && torrent.paths == old(torrent.paths)[index := RootedPath(torrent.saveRoot, name)]
              && old(torrent.paths)[index] in old(cache.bridge.Contents())
              && cache.bridge.Contents()
              == RenamedStore(old(cache.bridge.Contents()), old(torrent.paths)[index], torrent.paths[index])
              && forall key :: key in Keys(cache.descriptors) ==> !(key.storage == storage && key.file == index)
    // Safe names and an existing file are all it takes, unless the bridge fails.
    ensures error.Failed? && cache.bridge.faults == old(cache.bridge.faults) ==>
              || !(0 <= index < |old(torrent.paths)|) || !Safe(name) || !Safe(RootedPath(torrent.saveRoot, name))
              || old(torrent.paths)[index] !in old(cache.bridge.Contents())
  {
    hide *;
    torrent.Lengths();
    torrent.NamesAre();
    cache.BridgeValid();
    NamingSame(torrent.Names());
    InvalidArgumentFails(index, FileRename);
    var safe := SafeRelativePath(name);
    if index < 0 || index >= |torrent.files.entries| || !safe {
      return InvalidArgument(index, FileRename);
    }
    var oldName := torrent.paths[index];
    var destination := RootedPath(torrent.saveRoot, name);
    NamingRenamed(torrent.Names(), index, name);
    if SoleUser(cache.descriptors, storage, index, oldName) && SoleUser(cache.descriptors, storage, index, destination) {
      SoleUserGone(cache.descriptors, storage, index, oldName);
      SoleUserGone(cache.descriptors, storage, index, destination);
    }
    KeysDrop(cache.descriptors, OfFile(storage, index));
    ClosedKeys(cache.descriptors, storage, index);
    cache.CloseFile(storage, index);
    error := RenameClosed(cache, torrent, index, name, oldName, destination);
    torrent.NamesAre();
  }

  lemma {:induction false} ClosedKeys(ds: seq<OpenDescriptor>, storage: nat, file: int)
    ensures forall key :: key in Keys(Drop(ds, OfFile(storage, file))) ==> !(key.storage == storage && key.file == file)
  {
    if ds != [] {
      ClosedKeys(ds[1..], storage, file);
    }
  }

  /** The rename once no descriptor of the file is open. */
  method RenameClosed(cache: DescriptorCache, torrent: TorrentStorage, index: nat, name: string,
                      oldName: string, destination: string)
    returns (error: StorageError)
    requires cache.Valid() && torrent.Valid() && index < |torrent.files.entries|
    requires |torrent.paths| == |torrent.files.entries| == |torrent.logicalPaths|
    requires oldName == torrent.paths[index] && destination == RootedPath(torrent.saveRoot, name)
    modifies torrent`logicalPaths, torrent`paths
    modifies cache.bridge`names, cache.bridge`directories, cache.bridge`faults
    ensures cache.bridge.faults >= old(cache.bridge.faults)
    ensures cache.bridge.Valid() && torrent.Valid() && torrent.saveRoot == old(torrent.saveRoot)
    ensures (forall d :: d in cache.descriptors ==> d.path != oldName && d.path != destination) ==> cache.Valid()
    ensures error.Failed? ==>
              && torrent.logicalPaths == old(torrent.logicalPaths) && torrent.paths == old(torrent.paths)
              && cache.bridge.Contents() == old(cache.bridge.Contents())
    ensures error.NoError? ==>
              && torrent.logicalPaths == old(torrent.logicalPaths)[index := name]
              && torrent.paths == old(torrent.paths)[index := destination]
              && Safe(destination) && oldName in old(cache.bridge.Contents())
              && cache.bridge.Contents() == RenamedStore(old(cache.bridge.Contents()), oldName, destination)
    ensures error.Failed? && cache.bridge.faults == old(cache.bridge.faults) ==>
              !Safe(destination) || oldName !in old(cache.bridge.Contents())
  {
    hide *;
    cache.BridgeValid();
    var ok;
    ghost var asked;
    ok, error, asked := EnsureParentDirectories(cache.bridge, destination, index);
    if !ok {
      return;
    }
    cache.bridge.NamesContents(oldName);
    label Before:
    var result := cache.bridge.Rename(oldName, destination);
    if forall d :: d in cache.descriptors ==> d.path != oldName && d.path != destination {
      cache.SurvivesNames@Before();
    }
    if result < 0 {
      return MakeError(result, index, FileRename);
    }
    RenamedIs(old(cache.bridge.Contents()), oldName, destination);
    torrent.SetPath(index, name);
    return NoError;
  }

  lemma RenamedIs(store: Store, path: string, path': string)
    requires path in store
    ensures RenamedStore(store, path, path') == (store - {path})[path' := store[path]]
  {
  }

  function WithPath(t: Torrent, i: nat, path: string): Torrent
    requires t.WellFormed() && i < |t.files|
  {
    t.(paths := t.paths[i := path])
  }

  /** No other file's bytes are, or will be, at the path. */
  predicate FreePath(t: Torrent, i: nat, path: string)
    requires t.WellFormed() && i < |t.files|
  {
    path != t.part && forall j :: 0 <= j < |t.files| && j != i && !t.files[j].pad ==> t.paths[j] != path
  }

  /** Renaming a file keeps the torrent's names apart exactly if the new name is free. */
  lemma RenameKeepsDistinct(t: Torrent, i: nat, path: string)
    requires t.Distinct() && i < |t.files|
    ensures WithPath(t, i, path).Distinct() <==> t.files[i].pad || FreePath(t, i, path)
  {
  }

  /** And then the torrent reads as before. */
  lemma RenameKeepsFlat(t: Torrent, store: Store, i: nat, path: string)
    requires t.Distinct() && i < |t.files| && !t.files[i].pad && FreePath(t, i, path) && t.paths[i] in store
    ensures Flat(WithPath(t, i, path), RenamedStore(store, t.paths[i], path)) == Flat(t, store)
    ensures KeepsPresent(t, store, WithPath(t, i, path), RenamedStore(store, t.paths[i], path))
    ensures SameOutside(store, RenamedStore(store, t.paths[i], path), {t.paths[i], path})
  {
    RenameKeepsAll(t, store, i, path);
  }

  /** No byte of another file, and none of a skipped one, is kept under the path. */
  predicate NothingKeptAt(t: Torrent, i: nat, path: string)
    requires t.WellFormed() && i < |t.files|
  {
    && (forall j :: 0 <= j < |t.files| && j != i && !t.files[j].pad && !t.Skipped(j) && t.files[j].size > 0 ==>
                      t.paths[j] != path)
    && (path == t.part ==>
          forall j :: 0 <= j < |t.files| && !t.files[j].pad && t.Skipped(j) ==> t.files[j].size == 0)
  }

  /** After the rename the torrent reads as before, and nothing readable is lost. */
  predicate RenameKeeps(t: Torrent, store: Store, i: nat, path: string)
    requires t.WellFormed() && i < |t.files| && t.paths[i] in store
  {
    && Flat(WithPath(t, i, path), RenamedStore(store, t.paths[i], path)) == Flat(t, store)
    && KeepsPresent(t, store, WithPath(t, i, path), RenamedStore(store, t.paths[i], path))
  }

  /** No byte of the torrent is kept under the path. */
  predicate NoBytesAt(t: Torrent, path: string)
    requires t.WellFormed()
  {
    forall j :: 0 <= j < |t.files| && !t.files[j].pad && t.files[j].size > 0 ==> t.HomePath(j) != path
  }

  /** The bytes that a rename carries to the new name are all that is kept under either name. A pad
      file has none, so what is under its name is somebody else's. */
  predicate RenameHarmless(t: Torrent, i: nat, path: string)
    requires t.WellFormed() && i < |t.files|
  {
    if t.files[i].pad then path == t.paths[i] || (NoBytesAt(t, t.paths[i]) && NoBytesAt(t, path))
    else NothingKeptAt(t, i, path)
  }

  /** A rename keeps the torrent's bytes, whatever they are, exactly in these cases. The code does not
      check this. */
  lemma RenameKeepsExactly(t: Torrent, i: nat, path: string)
    requires t.Distinct() && i < |t.files|
    ensures (forall store: Store :: t.paths[i] in store ==> RenameKeeps(t, store, i, path)) <==>
            RenameHarmless(t, i, path)
  {
    if RenameHarmless(t, i, path) {
      forall store: Store | t.paths[i] in store
        ensures RenameKeeps(t, store, i, path)
      {
        if t.files[i].pad {
          PadRenameKeeps(t, store, i, path);
        } else {
          RenameKeepsAll(t, store, i, path);
        }
      }
    } else if t.files[i].pad {
      var j :| 0 <= j < |t.files| && !t.files[j].pad && t.files[j].size > 0 &&
               (t.HomePath(j) == path || t.HomePath(j) == t.paths[i]);
      var store := PadRenameLoses(t, i, path, j);
    } else {
      var j :| 0 <= j < |t.files| && !t.files[j].pad && t.files[j].size > 0 && t.HomePath(j) == path &&
               (j != i || t.Skipped(j));
      var store := RenameLoses(t, i, path, j);
    }
  }

  lemma PadRenameKeeps(t: Torrent, store: Store, i: nat, path: string)
    requires t.Distinct() && i < |t.files| && t.files[i].pad && RenameHarmless(t, i, path) && t.paths[i] in store
    ensures RenameKeeps(t, store, i, path)
  {
    var t', after := WithPath(t, i, path), RenamedStore(store, t.paths[i], path);
    forall j | 0 <= j < |t.files| && !t.files[j].pad
      ensures FileKept(t, store, t', after, j)
    {
      if t.files[j].size > 0 {
        assert t'.HomePath(j) == t.HomePath(j);
        assert path != t.paths[i] ==> t.HomePath(j) != path && t.HomePath(j) != t.paths[i];
        assert Content(after, t.HomePath(j)) == Content(store, t.HomePath(j));
      }
    }
    FlatByFiles(t, store, t', after);
  }

  /** Otherwise the file that has the pad file's name is carried off, or replaced by what has it. */
  lemma PadRenameLoses(t: Torrent, i: nat, path: string, j: nat) returns (store: Store)
    requires t.Distinct() && i < |t.files| && t.files[i].pad && path != t.paths[i]
    requires j < |t.files| && !t.files[j].pad && t.files[j].size > 0
    requires t.HomePath(j) == path || t.HomePath(j) == t.paths[i]
    ensures t.paths[i] in store && !RenameKeeps(t, store, i, path)
  {
    store := map[t.paths[i] := []][t.HomePath(j) := seq(t.HomeOffset(j, 0) + 1, _ => 0)];
    var p := Offset(t.files, j);
    FileAtUnique(t.files, j, p);
    assert Present(t, store, p);
    assert WithPath(t, i, path).HomePath(j) == t.HomePath(j);
    assert !Present(WithPath(t, i, path), RenamedStore(store, t.paths[i], path), p);
  }

  lemma RenameKeepsAll(t: Torrent, store: Store, i: nat, path: string)
    requires t.Distinct() && i < |t.files| && !t.files[i].pad && NothingKeptAt(t, i, path) && t.paths[i] in store
    ensures RenameKeeps(t, store, i, path)
  {
    var t', after := WithPath(t, i, path), RenamedStore(store, t.paths[i], path);
    forall j | 0 <= j < |t.files| && !t.files[j].pad
      ensures FileKept(t, store, t', after, j)
    {
      if t.files[j].size > 0 {
        assert t.Skipped(j) ==> path != t.part;
        assert !t.Skipped(j) && j != i ==> t.paths[j] != path && t.paths[j] != t.paths[i];
        assert Content(after, t'.HomePath(j)) == Content(store, t.HomePath(j));
      }
    }
    FlatByFiles(t, store, t', after);
  }

  /** Otherwise an empty file takes the place of a byte. */
  lemma RenameLoses(t: Torrent, i: nat, path: string, j: nat) returns (store: Store)
    requires t.Distinct() && i < |t.files| && !t.files[i].pad
    requires j < |t.files| && !t.files[j].pad && t.files[j].size > 0 && t.HomePath(j) == path
    requires j != i || t.Skipped(j)
    ensures t.paths[i] in store && !RenameKeeps(t, store, i, path)
  {
    store := map[t.paths[i] := [], path := seq(t.HomeOffset(j, 0) + 1, _ => 0)];
    var p := Offset(t.files, j);
    FileAtUnique(t.files, j, p);
    assert t.paths[i] != path;
    assert Present(t, store, p);
    assert !Present(WithPath(t, i, path), RenamedStore(store, t.paths[i], path), p);
  }

  /** A name that is taken loses data: the code does not check for it. Two files of one byte each,
      the first renamed onto the second. */
  lemma RenameOntoOtherLosesData() returns (t: Torrent, store: Store)
    ensures t.Distinct() && |t.files| == 2 && t.paths[0] in store && Safe(t.paths[1])
    ensures !FreePath(t, 0, t.paths[1])
    ensures Flat(WithPath(t, 0, t.paths[1]), RenamedStore(store, t.paths[0], t.paths[1])) != Flat(t, store)
  {
    t := Torrent([FileEntry(1, false), FileEntry(1, false)], [4, 4], ["a", "b"], "p");
    store := map["a" := [1], "b" := [2]];
    assert Safe("b") by {
      assert Split("b") == ["b"];
    }
    hide Safe, Split;
    var t', after := WithPath(t, 0, "b"), RenamedStore(store, "a", "b");
    assert Offset(t.files, 1) == 1 && Offset(t.files, 2) == 2;
    FileAtUnique(t.files, 1, 1);
    hide FileAt, Offset;
    assert Flat(t, store)[1] == FlatByte(t, store, 1) == 2;
    assert Flat(t', after)[1] == FlatByte(t', after, 1) == 1;
  }

  // ---- Bringing files to size

  lemma OpenedPreserved(t: Torrent, store: Store, i: nat)
    requires t.Distinct() && i < |t.files| && !t.files[i].pad && !t.Skipped(i)
    ensures Preserved(t, store, t, Opened(store, t.paths[i], true))
    ensures t.paths[i] in Opened(store, t.paths[i], true)
  {
    var after := Opened(store, t.paths[i], true);
    forall j | 0 <= j < |t.files| && !t.files[j].pad
      ensures FileKept(t, store, t, after, j)
    {
      assert Content(after, t.HomePath(j)) == Content(store, t.HomePath(j));
    }
    FlatByFiles(t, store, t, after);
    HomeInFootprint(t, i);
  }

  /** Cutting or extending a public file to the file's size changes no byte of the torrent. */
  lemma SizedPreserved(t: Torrent, store: Store, i: nat)
    requires t.Distinct() && i < |t.files| && !t.files[i].pad && !t.Skipped(i) && t.paths[i] in store
    ensures Preserved(t, store, t, store[t.paths[i] := Resize(store[t.paths[i]], t.files[i].size)])
  {
    var after := store[t.paths[i] := Resize(store[t.paths[i]], t.files[i].size)];
    forall j | 0 <= j < |t.files| && !t.files[j].pad
      ensures FileKept(t, store, t, after, j)
    {
      if j != i {
        assert t.HomePath(j) != t.paths[i];
      }
    }
    FlatByFiles(t, store, t, after);
    HomeInFootprint(t, i);
  }

  /** The files below n that are kept publicly have their full size. */
  predicate SizedUpTo(t: Torrent, store: Store, n: nat)
    requires t.WellFormed() && n <= |t.files|
  {
    forall i :: 0 <= i < n && !t.files[i].pad && !t.Skipped(i) ==>
                  t.paths[i] in store && |store[t.paths[i]]| == t.files[i].size
  }

  lemma SizedOneMore(t: Torrent, store: Store, after: Store, n: nat)
    requires t.Distinct() && n < |t.files| && !t.files[n].pad && !t.Skipped(n) && SizedUpTo(t, store, n)
    requires
      var created := Opened(store, t.paths[n], true);
      t.paths[n] in created && after == created[t.paths[n] := Resize(created[t.paths[n]], t.files[n].size)]
    ensures SizedUpTo(t, after, n + 1)
  {
  }

  lemma SizedSkip(t: Torrent, store: Store, n: nat)
    requires t.WellFormed() && n < |t.files| && (t.files[n].pad || t.Skipped(n)) && SizedUpTo(t, store, n)
    ensures SizedUpTo(t, store, n + 1)
  {
  }

  /** The size of the file was asked for, and the answer was an error that says nothing about it. */
  predicate Unanswered(queries: seq<Query>, path: string) {
    exists k :: 0 <= k < |queries| && queries[k].path == path && queries[k].answer < 0 && queries[k].answer != -ENOENT
  }

  /** A file that is kept publicly. */
  predicate Public(t: Torrent, i: nat)
    requires t.WellFormed()
  {
    i < |t.files| && !t.files[i].pad && !t.Skipped(i)
  }

  /** One of the first n public files exists, and the bridge said so. */
  predicate KnownToExist(t: Torrent, store: Store, queries: seq<Query>, n: nat)
    requires t.WellFormed()
  {
    exists i :: 0 <= i < n && Public(t, i) && t.paths[i] in store && !Unanswered(queries, t.paths[i])
  }

  /** One of the first n public files exists. */
  predicate PublicExists(t: Torrent, store: Store, n: nat)
    requires t.WellFormed()
  {
    exists i :: 0 <= i < n && Public(t, i) && t.paths[i] in store
  }

  /** No query failed. */
  predicate Answered(queries: seq<Query>) {
    forall k :: 0 <= k < |queries| ==> queries[k].answer >= 0 || queries[k].answer == -ENOENT
  }

  lemma AnsweredNext(queries: seq<Query>, query: Query)
    ensures Answered([])
    ensures Answered(queries) && (query.answer >= 0 || query.answer == -ENOENT) ==> Answered(queries + [query])
  {
  }

  /** What is known to exist does; when every query was answered, all that exists is known. */
  lemma KnownExactly(t: Torrent, store: Store, queries: seq<Query>, n: nat)
    requires t.WellFormed()
    ensures KnownToExist(t, store, queries, n) ==> PublicExists(t, store, n)
    ensures Answered(queries) ==> (KnownToExist(t, store, queries, n) <==> PublicExists(t, store, n))
  {
    if Answered(queries) && PublicExists(t, store, n) {
      var i :| 0 <= i < n && Public(t, i) && t.paths[i] in store;
      assert !Unanswered(queries, t.paths[i]);
    }
  }

  predicate DataPathBelow(t: Torrent, path: string, n: nat)
    requires t.WellFormed() && n <= |t.files|
  {
    exists j :: 0 <= j < n && !t.files[j].pad && t.paths[j] == path
  }

  /** What is known after the first n files. */
  ghost predicate Surveyed(t: Torrent, store: Store, queries: seq<Query>, n: nat, hadFile: bool)
    requires t.WellFormed() && n <= |t.files|
  {
    && (hadFile <==> KnownToExist(t, store, queries, n))
    && (forall k :: 0 <= k < |queries| ==> DataPathBelow(t, queries[k].path, n))
  }

  lemma SurveyedNothing(t: Torrent, store: Store)
    requires t.WellFormed()
    ensures Surveyed(t, store, [], 0, false)
  {
  }

  lemma SurveyedSkip(t: Torrent, store: Store, queries: seq<Query>, n: nat, hadFile: bool)
    requires t.WellFormed() && n < |t.files| && !Public(t, n) && Surveyed(t, store, queries, n, hadFile)
    ensures Surveyed(t, store, queries, n + 1, hadFile)
  {
  }

  lemma SurveyedNext(t: Torrent, store: Store, queries: seq<Query>, n: nat, hadFile: bool, existing: int)
    requires t.Distinct() && n < |t.files| && Public(t, n) && Surveyed(t, store, queries, n, hadFile)
    requires existing >= 0 ==> t.paths[n] in store
    requires existing == -ENOENT ==> t.paths[n] !in store
    ensures Surveyed(t, store, queries + [Query(t.paths[n], existing)], n + 1, hadFile || existing >= 0)
  {
    var more := queries + [Query(t.paths[n], existing)];
    assert more[|queries|] == Query(t.paths[n], existing);
    forall i | 0 <= i < n && Public(t, i)
      ensures Unanswered(more, t.paths[i]) <==> Unanswered(queries, t.paths[i])
    {
      if Unanswered(queries, t.paths[i]) {
        var k :| 0 <= k < |queries| && queries[k].path == t.paths[i] && queries[k].answer < 0 && queries[k].answer != -ENOENT;
        assert more[k] == queries[k];
      }
    }
    assert Unanswered(more, t.paths[n]) <==> existing < 0 && existing != -ENOENT;
    if hadFile {
      var i :| 0 <= i < n && Public(t, i) && t.paths[i] in store && !Unanswered(queries, t.paths[i]);
      assert !Unanswered(more, t.paths[i]);
    }
  }

  lemma SurveyedAll(t: Torrent, store: Store, queries: seq<Query>, hadFile: bool)
    requires t.WellFormed() && Surveyed(t, store, queries, |t.files|, hadFile)
    ensures hadFile <==> KnownToExist(t, store, queries, |t.files|)
  {
  }

  /** A failing query makes an existing file pass for a missing one: a torrent of one file, which
      is there, and no full check. */
  lemma FailingQueryHidesFile() returns (t: Torrent, store: Store, queries: seq<Query>)
    ensures t.Distinct() && Public(t, 0) && t.paths[0] in store && |store[t.paths[0]]| == t.files[0].size == 1
    ensures queries == [Query(t.paths[0], -EIO)] && Surveyed(t, store, queries, |t.files|, false)
  {
    t := Torrent([FileEntry(1, false)], [4], ["a"], "p");
    store := map["a" := [1]];
    queries := [Query("a", -EIO)];
    assert queries[0].path == "a";
  }

  /** Creates one file if it is missing and gives it its size. */
  method SizeFile(cache: DescriptorCache, torrent: TorrentStorage, storage: nat, index: nat)
    returns (existing: int, error: StorageError)
    requires cache.Valid() && torrent.Valid() && torrent.View().Distinct() && torrent.View().WellFormed()
    requires index < |torrent.View().files| && !torrent.View().files[index].pad && !torrent.View().Skipped(index)
    requires SizedUpTo(torrent.View(), cache.bridge.Contents(), index)
    modifies cache`descriptors, cache`recency, cache`useCounter
    modifies cache.bridge`names, cache.bridge`bodies, cache.bridge`handles, cache.bridge`directories, cache.bridge`queries
    modifies cache.bridge`faults
    ensures cache.bridge.faults >= old(cache.bridge.faults)
    ensures cache.Valid()
    ensures Keys(cache.descriptors) <= Keys(old(cache.descriptors)) + torrent.HomeKeys(storage)
    ensures Preserved(torrent.View(), old(cache.bridge.Contents()), torrent.View(), cache.bridge.Contents())
    ensures SameOutside(old(cache.bridge.Contents()), cache.bridge.Contents(), {torrent.View().paths[index]})
    ensures SizedOrKept(old(cache.bridge.Contents()), cache.bridge.Contents(), torrent.View().paths[index],
                        torrent.View().files[index].size)
    ensures existing >= 0 ==> torrent.View().paths[index] in old(cache.bridge.Contents())
    ensures existing == -ENOENT ==> torrent.View().paths[index] !in old(cache.bridge.Contents())
    ensures cache.bridge.queries == old(cache.bridge.queries) + [Query(torrent.View().paths[index], existing)]
    ensures cache.bridge.faults == old(cache.bridge.faults) ==> existing >= 0 || existing == -ENOENT
    ensures error.NoError? ==> SizedUpTo(torrent.View(), cache.bridge.Contents(), index + 1)
    ensures error.Failed? && cache.bridge.faults == old(cache.bridge.faults) ==> !HomesSafe(torrent.View())
  {
    hide *;
    ghost var t, before := torrent.View(), cache.bridge.Contents();
    torrent.ViewParts();
    PreservedSame(t, before);
    OpenedPreserved(t, before, index);
    SizedOutside(before, before, t.paths[index], t.files[index].size);
    HomeSafe(t, index);
    var path := torrent.paths[index];
    cache.BridgeValid();
    cache.bridge.NamesContents(path);
    existing := cache.bridge.FileSize(path);
    var descriptor;
    descriptor, error := cache.OpenFile(storage, index, path, true, FileOpen);
    PublicKey(torrent, storage, index);
    if descriptor < 0 {
      return;
    }
    ghost var mid := cache.bridge.Contents();
    SizedPreserved(t, mid, index);
    PreservedSame(t, mid);
    cache.BridgeValid();
    label Opened0:
    var result, errno := cache.bridge.Ftruncate(descriptor, torrent.files.entries[index].size, path);
    cache.StaysValid@Opened0();
    PreservedTransitive(t, before, t, mid, t, cache.bridge.Contents());
    SizedOutside(before, cache.bridge.Contents(), path, torrent.files.entries[index].size);
    if result != 0 {
      return existing, MakeError(-errno, index, FileTruncate);
    }
    SizedOneMore(t, before, cache.bridge.Contents(), index);
  }

  lemma SizedOutside(store: Store, after: Store, path: string, size: nat)
    requires
      var mid := Opened(store, path, true);
      after == store || after == mid || (path in mid && after == mid[path := Resize(mid[path], size)])
    ensures SameOutside(store, after, {path}) && SizedOrKept(store, after, path, size)
  {
  }

  /** The file has its contents of before, or these cut or extended to the size. */
  predicate SizedOrKept(before: Store, after: Store, path: string, size: nat) {
    Content(after, path) == Content(before, path) || Content(after, path) == Resize(Content(before, path), size)
  }

  /** The public files among the first n. */
  function PublicPaths(t: Torrent, n: nat): set<string>
    requires t.WellFormed()
  {
    set i | 0 <= i < n && Public(t, i) :: t.paths[i]
  }

  /** All that bringing the first n files to size does to the tree. */
  ghost predicate EachSized(t: Torrent, before: Store, after: Store, n: nat)
    requires t.WellFormed()
  {
    && SameOutside(before, after, PublicPaths(t, n))
    && forall i: nat :: i < n && Public(t, i) ==> SizedOrKept(before, after, t.paths[i], t.files[i].size)
  }

  lemma NoneEachSized(t: Torrent, store: Store)
    requires t.WellFormed()
    ensures EachSized(t, store, store, 0)
  {
  }

  lemma NextEachSized(t: Torrent, before: Store, mid: Store, after: Store, n: nat)
    requires t.Distinct() && n < |t.files| && EachSized(t, before, mid, n)
    requires if Public(t, n) then SameOutside(mid, after, {t.paths[n]}) && SizedOrKept(mid, after, t.paths[n], t.files[n].size)
             else after == mid
    ensures EachSized(t, before, after, n + 1)
  {
    hide SizedOrKept, Resize, PublicPaths, Public, Torrent.Distinct;
    PathsApart(t, n);
    forall i: nat | i < n + 1 && Public(t, i)
      ensures SizedOrKept(before, after, t.paths[i], t.files[i].size)
    {
      if i < n {
        SizedFrame(before, mid, before, after, t.paths[i], t.files[i].size);
      } else {
        SizedFrame(mid, after, before, after, t.paths[n], t.files[n].size);
      }
    }
  }

  lemma PathsApart(t: Torrent, n: nat)
    requires t.Distinct() && n < |t.files|
    ensures t.WellFormed() && |t.paths| == |t.files|
    ensures Public(t, n) ==> t.paths[n] !in PublicPaths(t, n)
    ensures PublicPaths(t, n + 1) == PublicPaths(t, n) + if Public(t, n) then {t.paths[n]} else {}
    ensures forall i: nat :: i < n && Public(t, i) && Public(t, n) ==> t.paths[i] != t.paths[n]
    ensures forall i: nat :: Public(t, i) ==> i < |t.files|
  {
  }

  lemma SizedFrame(a: Store, b: Store, a': Store, b': Store, path: string, size: nat)
    requires SizedOrKept(a, b, path, size) && Content(a', path) == Content(a, path) && Content(b', path) == Content(b, path)
    ensures SizedOrKept(a', b', path, size)
  {
  }

  lemma AllEachSized(t: Torrent, before: Store, after: Store, n: nat)
    requires t.Distinct() && n <= |t.files| && EachSized(t, before, after, n)
    ensures EachSized(t, before, after, |t.files|)
  {
    forall i: nat | i < |t.files| && Public(t, i)
      ensures SizedOrKept(before, after, t.paths[i], t.files[i].size)
    {
      if i >= n {
        assert t.paths[i] !in PublicPaths(t, n);
      }
    }
    assert PublicPaths(t, n) <= PublicPaths(t, |t.files|);
  }

  lemma PublicKey(torrent: TorrentStorage, storage: nat, i: nat)
    requires torrent.Valid() && i < |torrent.files.entries| && !torrent.files.entries[i].pad
    requires torrent.View().WellFormed() && !torrent.View().Skipped(i)
    ensures FileKey(storage, i, torrent.paths[i]) in torrent.HomeKeys(storage)
  {
  }

  predicate LaterAsBefore(t: Torrent, before: Store, store: Store, n: nat)
    requires t.WellFormed()
  {
    forall i :: n <= i < |t.files| && !t.files[i].pad ==> (t.paths[i] in store <==> t.paths[i] in before)
  }

  lemma LaterUntouched(t: Torrent, before: Store, mid: Store, after: Store, n: nat)
    requires t.Distinct() && n < |t.files| && !t.files[n].pad
    requires LaterAsBefore(t, before, mid, n) && SameOutside(mid, after, {t.paths[n]})
    ensures LaterAsBefore(t, before, after, n + 1)
  {
  }

  lemma LaterFewer(t: Torrent, before: Store, store: Store, n: nat)
    requires t.WellFormed() && n < |t.files| && LaterAsBefore(t, before, store, n)
    ensures LaterAsBefore(t, before, store, n + 1)
    ensures !t.files[n].pad ==> (t.paths[n] in store <==> t.paths[n] in before)
    ensures Public(t, n) <==> !t.files[n].pad && !t.Skipped(n)
  {
  }

  lemma NoneSized(t: Torrent, store: Store)
    requires t.WellFormed()
    ensures SizedUpTo(t, store, 0) && LaterAsBefore(t, store, store, 0)
  {
  }

  /** `initialize_files`: on success every file that is kept publicly exists with its full size;
      the torrent reads as before whatever happens. */
  method InitializeFiles(cache: DescriptorCache, torrent: TorrentStorage, storage: nat)
    returns (status: Status, error: StorageError)
    requires cache.Valid() && torrent.Valid() && torrent.View().Distinct() && torrent.View().WellFormed()
    modifies cache`descriptors, cache`recency, cache`useCounter
    modifies cache.bridge`names, cache.bridge`bodies, cache.bridge`handles, cache.bridge`directories, cache.bridge`queries
    modifies cache.bridge`faults
    ensures cache.bridge.faults >= old(cache.bridge.faults)
    ensures cache.Valid()
    ensures Keys(cache.descriptors) <= Keys(old(cache.descriptors)) + torrent.HomeKeys(storage)
    ensures Preserved(torrent.View(), old(cache.bridge.Contents()), torrent.View(), cache.bridge.Contents())
    ensures status.fatalDiskError <==> error.Failed?
    ensures error.NoError? ==>
              SizedUpTo(torrent.View(), cache.bridge.Contents(), |torrent.View().files|)
    ensures error.Failed? && cache.bridge.faults == old(cache.bridge.faults) ==> !HomesSafe(torrent.View())
    ensures old(cache.bridge.queries) <= cache.bridge.queries
    ensures error.NoError? ==>
              (status.needFullCheck <==>
               KnownToExist(torrent.View(), old(cache.bridge.Contents()),
                            cache.bridge.queries[|old(cache.bridge.queries)|..], |torrent.View().files|))
    ensures cache.bridge.faults == old(cache.bridge.faults) ==>
              Answered(cache.bridge.queries[|old(cache.bridge.queries)|..])
    ensures EachSized(torrent.View(), old(cache.bridge.Contents()), cache.bridge.Contents(), |torrent.View().files|)
    ensures !status.oversizedFile
  {
    hide *;
    ghost var t, before := torrent.View(), cache.bridge.Contents();
    torrent.ViewParts();
    PreservedSame(t, before);
    NoneSized(t, before);
    NoneEachSized(t, before);
    NoStatus();
    ghost var log, survey: seq<Query> := cache.bridge.queries, [];
    SurveyedNothing(t, before);
    AnsweredNext([], Query("", 0));
    var hadFile := false;
    error := NoError;
    for index := 0 to |torrent.files.entries|
      invariant cache.Valid() && torrent.Valid() && torrent.View() == t
      invariant Keys(cache.descriptors) <= Keys(old(cache.descriptors)) + torrent.HomeKeys(storage)
      invariant Preserved(t, before, t, cache.bridge.Contents())
      invariant SizedUpTo(t, cache.bridge.Contents(), index)
      invariant LaterAsBefore(t, before, cache.bridge.Contents(), index)
      invariant EachSized(t, before, cache.bridge.Contents(), index)
      invariant cache.bridge.queries == log + survey && Surveyed(t, before, survey, index, hadFile)
      invariant error.NoError? && cache.bridge.faults >= old(cache.bridge.faults)
      invariant cache.bridge.faults == old(cache.bridge.faults) ==> Answered(survey)
    {
      torrent.SkippedIs(index);
      LaterFewer(t, before, cache.bridge.Contents(), index);
      if torrent.files.entries[index].pad || torrent.Skipped(index) {
        SizedSkip(t, cache.bridge.Contents(), index);
        NextEachSized(t, before, cache.bridge.Contents(), cache.bridge.Contents(), index);
        SurveyedSkip(t, before, survey, index, hadFile);
      } else {
        ghost var mid := cache.bridge.Contents();
        var existing;
        existing, error := SizeFile(cache, torrent, storage, index);
        PreservedTransitive(t, before, t, mid, t, cache.bridge.Contents());
        LaterUntouched(t, before, mid, cache.bridge.Contents(), index);
        NextEachSized(t, before, mid, cache.bridge.Contents(), index);
        AnsweredNext(survey, Query(t.paths[index], existing));
        if error.Failed? {
          assert cache.bridge.queries[|log|..] == survey + [Query(t.paths[index], existing)];
          AllEachSized(t, before, cache.bridge.Contents(), index + 1);
          return NO_STATUS.(fatalDiskError := true), error;
        }
        SurveyedNext(t, before, survey, index, hadFile, existing);
        survey := survey + [Query(t.paths[index], existing)];
        hadFile := hadFile || existing >= 0;
      }
    }
    SurveyedAll(t, before, survey, hadFile);
    assert cache.bridge.queries[|log|..] == survey;
    status := NO_STATUS.(needFullCheck := hadFile);
  }

  // ---- Deleting

  /** Some files of `gone` are deleted; nothing else happened. */
  ghost predicate OnlyDeleted(before: Store, after: Store, gone: set<string>) {
    && SameOutside(before, after, gone)
    && forall path :: path in after ==> path in before && after[path] == before[path]
  }

  lemma DeletedOneMore(before: Store, mid: Store, gone: set<string>, path: string)
    requires OnlyDeleted(before, mid, gone) && path in gone
    ensures OnlyDeleted(before, mid - {path}, gone)
  {
  }

  lemma DeletedNothing(store: Store, gone: set<string>)
    ensures OnlyDeleted(store, store, gone)
  {
  }

  predicate GoneUpTo(t: Torrent, store: Store, n: nat)
    requires t.WellFormed() && n <= |t.files|
  {
    forall i :: 0 <= i < n && !t.files[i].pad ==> t.paths[i] !in store
  }

  lemma GoneStep(t: Torrent, store: Store, after: Store, n: nat)
    requires t.WellFormed() && n < |t.files| && GoneUpTo(t, store, n)
    requires after == store || after == store - {t.paths[n]}
    ensures t.paths[n] !in after || t.files[n].pad ==> GoneUpTo(t, after, n + 1)
    ensures !t.files[n].pad ==> t.paths[n] in t.Footprint()
  {
  }

  /** The files that hold data, in order. */
  function DataRemovals(t: Torrent, n: nat): seq<string>
    requires t.WellFormed() && n <= |t.files|
  {
    if n == 0 then [] else DataRemovals(t, n - 1) + if t.files[n - 1].pad then [] else [t.paths[n - 1]]
  }

  lemma NextDataRemoval(t: Torrent, n: nat)
    requires t.WellFormed() && n <= |t.files|
    ensures n < |t.files| ==>
              DataRemovals(t, n + 1) == DataRemovals(t, n) + if t.files[n].pad then [] else [t.paths[n]]
    ensures DataRemovals(t, 0) == []
  {
  }

  /** Removes the files that hold data, reporting the first failure and going on after it. */
  method RemoveData(bridge: Bridge, torrent: TorrentStorage) returns (error: StorageError)
    requires bridge.Valid() && torrent.Valid() && torrent.View().WellFormed()
    modifies bridge`names, bridge`removals, bridge`faults
    ensures bridge.faults >= old(bridge.faults)
    ensures bridge.Valid() && bridge.handles == old(bridge.handles)
    ensures bridge.removals == old(bridge.removals) + DataRemovals(torrent.View(), |torrent.View().files|)
    ensures OnlyDeleted(old(bridge.Contents()), bridge.Contents(), torrent.View().Footprint())
    ensures NamesKeptOutside(old(bridge.names), bridge.names, torrent.View().Footprint())
    ensures error.NoError? ==> GoneUpTo(torrent.View(), bridge.Contents(), |torrent.View().files|)
    ensures error.Failed? ==> bridge.faults > old(bridge.faults)
  {
    hide *;
    ErrnoPositive();
    torrent.ViewParts();
    ghost var t, before := torrent.View(), bridge.Contents();
    DeletedNothing(before, t.Footprint());
    NamesKeptNone(bridge.names, t.Footprint());
    error := NoError;
    NoneGone(t, before);
    NextDataRemoval(t, 0);
    for index := 0 to |torrent.files.entries|
      invariant bridge.Valid() && bridge.handles == old(bridge.handles)
      invariant OnlyDeleted(before, bridge.Contents(), t.Footprint())
      invariant NamesKeptOutside(old(bridge.names), bridge.names, t.Footprint())
      invariant bridge.removals == old(bridge.removals) + DataRemovals(t, index)
      invariant error.NoError? ==> GoneUpTo(t, bridge.Contents(), index)
      invariant bridge.faults >= old(bridge.faults) + if error.Failed? then 1 else 0
    {
      ghost var mid, names := bridge.Contents(), bridge.names;
      NextDataRemoval(t, index);
      if torrent.files.entries[index].pad {
        if error.NoError? {
          GoneStep(t, mid, mid, index);
        }
        continue;
      }
      HomeInFootprint(t, index);
      DeletedOneMore(before, mid, t.Footprint(), t.paths[index]);
      NamesKeptMinus(old(bridge.names), names, t.Footprint(), t.paths[index]);
      bridge.NamesContents(torrent.paths[index]);
      var result := bridge.Remove(torrent.paths[index]);
      bridge.NamesContents(torrent.paths[index]);
      if error.NoError? {
        GoneStep(t, mid, bridge.Contents(), index);
      }
      if result < 0 && result != -ENOENT && error.NoError? {
        error := MakeError(result, index, FileRemove);
      }
    }
  }

  lemma NoneGone(t: Torrent, store: Store)
    requires t.WellFormed()
    ensures GoneUpTo(t, store, 0)
  {
  }

  lemma PartGone(t: Torrent, before: Store, mid: Store, after: Store, names: map<string, nat>, names1: map<string, nat>,
                 names2: map<string, nat>)
    requires t.WellFormed() && OnlyDeleted(before, mid, t.Footprint()) && NamesKeptOutside(names, names1, t.Footprint())
    requires (after == mid && names2 == names1) || (after == mid - {t.part} && names2 == names1 - {t.part})
    ensures OnlyDeleted(before, after, t.Footprint()) && NamesKeptOutside(names, names2, t.Footprint())
    ensures mid == before ==> OnlyDeleted(before, after, {t.part})
    ensures GoneUpTo(t, mid, |t.files|) ==> GoneUpTo(t, after, |t.files|)
  {
  }

  lemma ForeignOnly(ds: seq<OpenDescriptor>, storage: nat, t: Torrent)
    requires t.WellFormed() && Settled(Keys(ds), storage, t)
    ensures forall d :: d in Drop(ds, OfStorage(storage)) ==> d.path !in t.Footprint()
    ensures Keys(Drop(ds, OfStorage(storage))) <= Keys(ds)
  {
  }

  lemma ForeignSurvive(ds: seq<OpenDescriptor>, names: map<string, nat>, names': map<string, nat>, gone: set<string>)
    requires NamesKeptOutside(names, names', gone) && forall d :: d in ds ==> d.path !in gone
    ensures forall d :: d in ds && d.path in names ==> d.path in names' && names'[d.path] == names[d.path]
  {
  }

  /** `async_delete_files`. */
  method DeleteFiles(cache: DescriptorCache, torrent: TorrentStorage, storage: nat,
                     deleteFiles: bool, deletePartfile: bool)
    returns (error: StorageError)
    requires cache.Valid() && torrent.Valid() && torrent.View().WellFormed()
    requires Settled(Keys(cache.descriptors), storage, torrent.View())
    modifies cache`descriptors, cache`recency, cache.bridge`names, cache.bridge`handles, cache.bridge`removals
    modifies cache.bridge`faults
    ensures cache.bridge.faults >= old(cache.bridge.faults)
    ensures cache.Valid() && cache.descriptors == Drop(old(cache.descriptors), OfStorage(storage))
    ensures cache.bridge.removals == old(cache.bridge.removals) +
                                     (if deleteFiles then DataRemovals(torrent.View(), |torrent.View().files|) else []) +
                                     (if deleteFiles || deletePartfile then [torrent.partPath] else [])
    ensures OnlyDeleted(old(cache.bridge.Contents()), cache.bridge.Contents(), torrent.View().Footprint())
    ensures !deleteFiles && !deletePartfile ==> cache.bridge.Contents() == old(cache.bridge.Contents())
    ensures !deleteFiles ==> OnlyDeleted(old(cache.bridge.Contents()), cache.bridge.Contents(), {torrent.partPath})
    ensures error.NoError? && deleteFiles ==> GoneUpTo(torrent.View(), cache.bridge.Contents(), |torrent.View().files|)
    ensures error.NoError? && (deleteFiles || deletePartfile) ==> torrent.partPath !in cache.bridge.Contents()
    ensures error.Failed? ==> cache.bridge.faults > old(cache.bridge.faults)
  {
    hide *;
    ErrnoPositive();
    torrent.ViewParts();
    ghost var t, before := torrent.View(), cache.bridge.Contents();
    ForeignOnly(cache.descriptors, storage, t);
    cache.CloseStorage(storage);
    cache.BridgeValid();
    DeletedNothing(before, t.Footprint());
    DeletedNothing(before, {torrent.partPath});
    NamesKeptNone(cache.bridge.names, t.Footprint());
    ghost var names := cache.bridge.names;
    error := NoError;
    label Closed:
    if deleteFiles {
      error := RemoveData(cache.bridge, torrent);
    }
    if deletePartfile || deleteFiles {
      ghost var mid, names1 := cache.bridge.Contents(), cache.bridge.names;
      cache.bridge.NamesContents(torrent.partPath);
      var result := cache.bridge.Remove(torrent.partPath);
      cache.bridge.NamesContents(torrent.partPath);
      PartGone(t, before, mid, cache.bridge.Contents(), names, names1, cache.bridge.names);
      if result < 0 && result != -ENOENT && error.NoError? {
        error := MakeError(result, -1, FileRemove);
      }
    }
    ForeignSurvive(cache.descriptors, names, cache.bridge.names, t.Footprint());
    cache.SurvivesNames@Closed();
  }
}
