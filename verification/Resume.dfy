/** Checking resume data against the files there are. */
module Resume {
  import opened Bytes
  import opened Errors
  import opened Layout
  import opened FlatView
  import opened Bridges
  import opened Torrents

  /** The files whose sizes count: none for pad files, nor, unless seeding, for skipped ones. */
  predicate Relevant(t: Torrent, seed: bool, i: nat)
    requires t.WellFormed()
  {
    i < |t.files| && !t.files[i].pad && (seed || !t.Skipped(i))
  }

  predicate Missing(t: Torrent, seed: bool, store: Store, i: nat)
    requires t.WellFormed()
  {
    Relevant(t, seed, i) && t.paths[i] !in store
  }

  predicate Missized(t: Torrent, seed: bool, store: Store, i: nat)
    requires t.WellFormed()
  {
    Relevant(t, seed, i) && (t.paths[i] !in store || |store[t.paths[i]]| != t.files[i].size)
  }

  predicate Oversized(t: Torrent, seed: bool, store: Store, i: nat)
    requires t.WellFormed()
  {
    Relevant(t, seed, i) && t.paths[i] in store && |store[t.paths[i]]| > t.files[i].size
  }

  /** One of the first n pieces is held and lies, in part, in file i. */
  predicate Needed(files: FileStorage, have: seq<bool>, n: nat, i: nat)
    requires files.Valid() && n <= |have| && n <= files.NumPieces()
  {
    exists piece :: 0 <= piece < n && Held(files, have, piece, i)
  }

  predicate Held(files: FileStorage, have: seq<bool>, piece: nat, i: nat)
    requires files.Valid() && piece < |have| && piece < files.NumPieces()
  {
    have[piece] && Overlaps(files.entries, i, files.PieceStart(piece), files.PieceBytes(piece))
  }

  /** A failed size query names its file. */
  predicate FailedOn(t: Torrent, seed: bool, error: StorageError)
    requires t.WellFormed()
  {
    error.Failed? && error.operation == FileStat && error.file >= 0 && Relevant(t, seed, error.file)
  }

  lemma FailedOnIs(t: Torrent, seed: bool, error: StorageError, i: nat)
    requires t.WellFormed()
    ensures error.Failed? && error.operation == FileStat && error.file == i && Relevant(t, seed, i) ==>
              FailedOn(t, seed, error)
  {
  }

  lemma Judged(t: Torrent, seed: bool, store: Store, i: nat)
    requires t.WellFormed() && i < |t.files|
    ensures Relevant(t, seed, i) <==> !t.files[i].pad && (seed || !t.Skipped(i))
    ensures Missing(t, seed, store, i) <==> Relevant(t, seed, i) && t.paths[i] !in store
    ensures Missized(t, seed, store, i) <==>
            Relevant(t, seed, i) && (t.paths[i] !in store || |store[t.paths[i]]| != t.files[i].size)
    ensures Oversized(t, seed, store, i) <==>
            Relevant(t, seed, i) && t.paths[i] in store && |store[t.paths[i]]| > t.files[i].size
  {
  }

  /** Since its log was `before`, the bridge was asked for the sizes of these files, in this order,
      and for no other. */
  ghost predicate Logged(before: seq<Query>, now: seq<Query>, t: Torrent, asked: seq<nat>)
    requires t.WellFormed()
  {
    && |now| == |before| + |asked| && now[..|before|] == before
    && (forall k :: 0 <= k < |asked| ==> asked[k] < |t.files| && now[|before| + k].path == t.paths[asked[k]])
  }

  lemma LoggedNothing(before: seq<Query>, t: Torrent)
    requires t.WellFormed()
    ensures Logged(before, before, t, [])
  {
  }

  lemma LoggedOne(before: seq<Query>, now: seq<Query>, t: Torrent, asked: seq<nat>, i: nat, query: Query)
    requires t.WellFormed() && Logged(before, now, t, asked) && i < |t.files| && query.path == t.paths[i]
    ensures Logged(before, now + [query], t, asked + [i])
  {
    assert (now + [query])[..|before|] == now[..|before|];
  }

  /** The lambda that looks at one file. `asked` is the log of the files whose size was queried. */
  method CheckFile(bridge: Bridge, torrent: TorrentStorage, seed: bool, index: nat, exactSize: bool,
                   status: Status, ghost log: seq<Query>, ghost asked: seq<nat>)
    returns (ok: bool, status': Status, error: StorageError, ghost asked': seq<nat>)
    requires bridge.Valid() && torrent.Valid() && torrent.View().WellFormed() && index < |torrent.files.entries|
    requires Logged(log, bridge.queries, torrent.View(), asked)
    modifies bridge`queries, bridge`faults
    ensures bridge.faults >= old(bridge.faults)
    ensures Logged(log, bridge.queries, torrent.View(), asked')
    ensures ok <==> error.NoError?
    ensures !ok ==> bridge.faults > old(bridge.faults)
    ensures !ok ==> error.operation == FileStat && error.file == index && Relevant(torrent.View(), seed, index)
    ensures status' == status.(fatalDiskError := status'.fatalDiskError, needFullCheck := status'.needFullCheck,
                               oversizedFile := status'.oversizedFile)
    ensures status'.fatalDiskError <==> status.fatalDiskError || !ok
    ensures !ok ==> status'.oversizedFile == status.oversizedFile
    ensures asked' == if Relevant(torrent.View(), seed, index) then asked + [index] else asked
    ensures
      var t, store := torrent.View(), bridge.Contents();
      ok ==>
        && (status'.needFullCheck <==>
            status.needFullCheck ||
            (if exactSize then Missized(t, seed, store, index) else Missing(t, seed, store, index)))
        && (status'.oversizedFile <==> status.oversizedFile || (exactSize && Oversized(t, seed, store, index)))
  {
    hide *;
    torrent.ViewParts();
    torrent.SkippedIs(index);
    ErrnoPositive();
    Judged(torrent.View(), seed, bridge.Contents(), index);
    status', asked' := status, asked;
    if torrent.files.entries[index].pad || (!seed && torrent.Skipped(index)) {
      return true, status', NoError, asked';
    }
    bridge.NamesContents(torrent.paths[index]);
    var size := bridge.FileSize(torrent.paths[index]);
    LoggedOne(log, old(bridge.queries), torrent.View(), asked, index, Query(torrent.paths[index], size));
    asked' := asked + [index];
    if size < 0 && size != -ENOENT {
      return false, status.(fatalDiskError := true), MakeError(size, index, FileStat), asked';
    }
    if size == -ENOENT || (exactSize && size != torrent.files.entries[index].size) {
      status' := status'.(needFullCheck := true);
      if size > torrent.files.entries[index].size {
        status' := status'.(oversizedFile := true);
      }
    }
    return true, status', NoError, asked';
  }

  /** One of the first n files is missing or has the wrong size. */
  predicate AnyMissized(t: Torrent, seed: bool, store: Store, n: nat)
    requires t.WellFormed()
  {
    exists i :: 0 <= i < n && Missized(t, seed, store, i)
  }

  predicate AnyOversized(t: Torrent, seed: bool, store: Store, n: nat)
    requires t.WellFormed()
  {
    exists i :: 0 <= i < n && Oversized(t, seed, store, i)
  }

  lemma AnyNext(t: Torrent, seed: bool, store: Store, n: nat)
    requires t.WellFormed()
    ensures AnyMissized(t, seed, store, n + 1) <==> AnyMissized(t, seed, store, n) || Missized(t, seed, store, n)
    ensures AnyOversized(t, seed, store, n + 1) <==> AnyOversized(t, seed, store, n) || Oversized(t, seed, store, n)
    ensures !AnyMissized(t, seed, store, 0) && !AnyOversized(t, seed, store, 0)
  {
  }

  /** With all pieces claimed every relevant file must have exactly its size. */
  method CheckAll(bridge: Bridge, torrent: TorrentStorage, seed: bool)
    returns (status: Status, error: StorageError, ghost asked: seq<nat>)
    requires bridge.Valid() && torrent.Valid() && torrent.View().WellFormed()
    modifies bridge`queries, bridge`faults
    ensures bridge.faults >= old(bridge.faults)
    ensures Logged(old(bridge.queries), bridge.queries, torrent.View(), asked)
    ensures status.fatalDiskError <==> error.Failed?
    ensures error.Failed? ==> FailedOn(torrent.View(), seed, error) && bridge.faults > old(bridge.faults)
    ensures forall a, b :: 0 <= a < b < |asked| ==> asked[a] != asked[b]
    ensures
      var t, store := torrent.View(), bridge.Contents();
      error.NoError? ==>
        && (status.needFullCheck <==> AnyMissized(t, seed, store, |t.files|))
        && (status.oversizedFile <==> AnyOversized(t, seed, store, |t.files|))
  {
    hide *;
    ghost var t, store := torrent.View(), bridge.Contents();
    torrent.ViewParts();
    NoStatus();
    AnyNext(t, seed, store, 0);
    LoggedNothing(bridge.queries, t);
    status, error, asked := NO_STATUS, NoError, [];
    for index := 0 to |torrent.files.entries|
      invariant error.NoError? && !status.fatalDiskError
      invariant bridge.faults >= old(bridge.faults)
      invariant Logged(old(bridge.queries), bridge.queries, t, asked)
      invariant forall a :: 0 <= a < |asked| ==> asked[a] < index
      invariant forall a, b :: 0 <= a < b < |asked| ==> asked[a] != asked[b]
      invariant status.needFullCheck <==> AnyMissized(t, seed, store, index)
      invariant status.oversizedFile <==> AnyOversized(t, seed, store, index)
    {
      var ok;
      AnyNext(t, seed, store, index);
      ok, status, error, asked := CheckFile(bridge, torrent, seed, index, true, status, old(bridge.queries), asked);
      if !ok {
        FailedOnIs(t, seed, error, index);
        return;
      }
    }
  }

  /** What the walk over the held pieces knows: a file is ticked off once it was looked at, and the
      flag says whether one of those was missing. */
  ghost predicate Walked(t: Torrent, seed: bool, store: Store, checked: seq<bool>, needFullCheck: bool, asked: seq<nat>)
    requires t.WellFormed()
  {
    && |checked| == |t.files|
    && (needFullCheck <==> exists i :: 0 <= i < |checked| && checked[i] && Missing(t, seed, store, i))
    && (forall i: nat :: i in asked <==> i < |checked| && checked[i] && Relevant(t, seed, i))
    && (forall a, b :: 0 <= a < b < |asked| ==> asked[a] != asked[b])
  }

  lemma WalkedOne(t: Torrent, seed: bool, store: Store, checked: seq<bool>, needFullCheck: bool, asked: seq<nat>,
                  i: nat, needFullCheck': bool, asked': seq<nat>)
    requires t.WellFormed() && Walked(t, seed, store, checked, needFullCheck, asked)
    requires i < |checked| && !checked[i]
    requires needFullCheck' <==> needFullCheck || Missing(t, seed, store, i)
    requires asked' == if Relevant(t, seed, i) then asked + [i] else asked
    ensures Walked(t, seed, store, checked[i := true], needFullCheck', asked')
  {
  }

  /** The walk has dealt with the first n pieces. */
  ghost predicate WalkedTo(files: FileStorage, t: Torrent, have: seq<bool>, seed: bool, store: Store, n: nat,
                           checked: seq<bool>, needFullCheck: bool, asked: seq<nat>)
    requires t.WellFormed() && files.Valid() && n <= |have| && n <= files.NumPieces()
  {
    && Walked(t, seed, store, checked, needFullCheck, asked)
    && forall i :: 0 <= i < |checked| ==> (checked[i] <==> Needed(files, have, n, i))
  }

  lemma WalkedParts(files: FileStorage, t: Torrent, have: seq<bool>, seed: bool, store: Store, n: nat,
                    checked: seq<bool>, needFullCheck: bool, asked: seq<nat>)
    requires t.WellFormed() && files.Valid() && n <= |have| && n <= files.NumPieces()
    requires WalkedTo(files, t, have, seed, store, n, checked, needFullCheck, asked)
    ensures |checked| == |t.files| && Walked(t, seed, store, checked, needFullCheck, asked)
    ensures forall i :: 0 <= i < |checked| ==> (checked[i] <==> Needed(files, have, n, i))
    ensures forall a, b :: 0 <= a < b < |asked| ==> asked[a] != asked[b]
  {
  }

  lemma WalkedNothing(files: FileStorage, t: Torrent, have: seq<bool>, seed: bool, store: Store, checked: seq<bool>)
    requires t.WellFormed() && files.Valid() && |checked| == |t.files|
    requires forall i :: 0 <= i < |checked| ==> !checked[i]
    ensures WalkedTo(files, t, have, seed, store, 0, checked, false, [])
  {
  }

  lemma WalkedPast(files: FileStorage, t: Torrent, have: seq<bool>, seed: bool, store: Store, n: nat,
                   checked: seq<bool>, needFullCheck: bool, asked: seq<nat>)
    requires t.WellFormed() && files.Valid() && n < |have| && n < files.NumPieces() && !have[n]
    requires WalkedTo(files, t, have, seed, store, n, checked, needFullCheck, asked)
    ensures WalkedTo(files, t, have, seed, store, n + 1, checked, needFullCheck, asked)
  {
  }

  /** The file is one of those the slices name. */
  predicate Named(slices: seq<Slice>, i: nat) {
    exists k :: 0 <= k < |slices| && slices[k].file == i
  }

  lemma WalkedPiece(files: FileStorage, t: Torrent, have: seq<bool>, seed: bool, store: Store, n: nat,
                    slices: seq<Slice>, before: seq<bool>, checked: seq<bool>, needFullCheck: bool, asked: seq<nat>)
    requires t.WellFormed() && files.Valid() && n < |have| && n < files.NumPieces() && have[n]
    requires |before| == |checked| == |t.files|
    requires forall i :: 0 <= i < |before| ==> (before[i] <==> Needed(files, have, n, i))
    requires Walked(t, seed, store, checked, needFullCheck, asked)
    requires forall i: nat :: Named(slices, i) <==>
                              Overlaps(files.entries, i, files.PieceStart(n), files.PieceBytes(n))
    requires forall i :: 0 <= i < |checked| ==> (checked[i] <==> before[i] || Named(slices, i))
    ensures WalkedTo(files, t, have, seed, store, n + 1, checked, needFullCheck, asked)
  {
    forall i | 0 <= i < |checked|
      ensures checked[i] <==> Needed(files, have, n + 1, i)
    {
      assert Needed(files, have, n + 1, i) <==> Needed(files, have, n, i) || Held(files, have, n, i);
      assert Held(files, have, n, i) <==> Named(slices, i);
    }
  }

  /** A file that is missing lies, in part, in one of the first n pieces, which is held. */
  predicate AnyNeededMissing(files: FileStorage, t: Torrent, have: seq<bool>, seed: bool, store: Store, n: nat)
    requires t.WellFormed() && files.Valid() && n <= |have| && n <= files.NumPieces()
  {
    exists i :: 0 <= i < |t.files| && Needed(files, have, n, i) && Missing(t, seed, store, i)
  }

  /** Exactly the relevant files of the held pieces among the first n, each once. */
  ghost predicate AskedExactly(files: FileStorage, t: Torrent, have: seq<bool>, seed: bool, n: nat, asked: seq<nat>)
    requires t.WellFormed() && files.Valid() && n <= |have| && n <= files.NumPieces()
  {
    && (forall i: nat :: i in asked <==> i < |t.files| && Needed(files, have, n, i) && Relevant(t, seed, i))
    && (forall a, b :: 0 <= a < b < |asked| ==> asked[a] != asked[b])
  }

  lemma WalkedAll(files: FileStorage, t: Torrent, have: seq<bool>, seed: bool, store: Store, n: nat,
                  checked: seq<bool>, needFullCheck: bool, asked: seq<nat>)
    requires t.WellFormed() && files.Valid() && n <= |have| && n <= files.NumPieces()
    requires WalkedTo(files, t, have, seed, store, n, checked, needFullCheck, asked)
    ensures needFullCheck <==> AnyNeededMissing(files, t, have, seed, store, n)
    ensures AskedExactly(files, t, have, seed, n, asked)
  {
  }

  /** The files of a whole piece. */
  function PieceSlices(files: FileStorage, piece: nat): (slices: seq<Slice>)
    requires files.Valid() && piece < files.NumPieces()
    ensures forall k :: 0 <= k < |slices| ==> slices[k].file < |files.entries|
    ensures forall i: nat :: Named(slices, i) <==>
                             Overlaps(files.entries, i, files.PieceStart(piece), files.PieceBytes(piece))
  {
    var start, size := files.PieceStart(piece), files.PieceBytes(piece);
    PieceSlicesOverlap(files.entries, start, size);
    files.MapBlock(piece, 0, size)
  }

  lemma PieceSlicesOverlap(fs: seq<FileEntry>, start: nat, size: nat)
    requires start + size <= Total(fs)
    ensures var slices := MapBytes(fs, start, size);
            && (forall k :: 0 <= k < |slices| ==> slices[k].file < |fs|)
            && (forall i: nat :: Named(slices, i) <==> Overlaps(fs, i, start, size))
  {
    var slices := MapBytes(fs, start, size);
    MapBytesTiles(fs, start, size);
    forall k | 0 <= k < |slices|
      ensures slices[k].file < |fs|
    {
      TileAt(fs, slices, start, size, k);
    }
    forall i: nat
      ensures Named(slices, i) <==> Overlaps(fs, i, start, size)
    {
      SlicesOverlap(fs, start, size, i);
    }
  }

  /** Looks at the named files that were not looked at before. */
  method CheckSlices(bridge: Bridge, torrent: TorrentStorage, seed: bool, slices: seq<Slice>, checked: array<bool>,
                     status: Status, ghost log: seq<Query>, ghost asked: seq<nat>)
    returns (status': Status, error: StorageError, ghost asked': seq<nat>)
    requires bridge.Valid() && torrent.Valid() && torrent.View().WellFormed()
    requires forall k :: 0 <= k < |slices| ==> slices[k].file < checked.Length
    requires Walked(torrent.View(), seed, bridge.Contents(), checked[..], status.needFullCheck, asked)
    requires !status.fatalDiskError && !status.oversizedFile
    requires Logged(log, bridge.queries, torrent.View(), asked)
    modifies checked, bridge`queries, bridge`faults
    ensures bridge.faults >= old(bridge.faults)
    ensures Logged(log, bridge.queries, torrent.View(), asked')
    ensures status'.fatalDiskError <==> error.Failed?
    ensures error.Failed? ==> FailedOn(torrent.View(), seed, error) && bridge.faults > old(bridge.faults)
    ensures !status'.oversizedFile
    ensures error.NoError? ==>
              && Walked(torrent.View(), seed, bridge.Contents(), checked[..], status'.needFullCheck, asked')
              && forall i :: 0 <= i < checked.Length ==> (checked[i] <==> old(checked[i]) || Named(slices, i))
    ensures forall a, b :: 0 <= a < b < |asked'| ==> asked'[a] != asked'[b]
  {
    ghost var t, store := torrent.View(), bridge.Contents();
    status', error, asked' := status, NoError, asked;
    for k := 0 to |slices|
      invariant error.NoError? && !status'.fatalDiskError && !status'.oversizedFile
      invariant bridge.faults >= old(bridge.faults)
      invariant Logged(log, bridge.queries, t, asked')
      invariant Walked(t, seed, store, checked[..], status'.needFullCheck, asked')
      invariant forall i :: 0 <= i < checked.Length ==>
                              (checked[i] <==> old(checked[i]) || exists j :: 0 <= j < k && slices[j].file == i)
    {
      var offset := slices[k].file;
      if checked[offset] {
        continue;
      }
      ghost var before, need, looked := checked[..], status'.needFullCheck, asked';
      checked[offset] := true;
      var ok;
      ok, status', error, asked' := CheckFile(bridge, torrent, seed, offset, false, status', log, asked');
      WalkedOne(t, seed, store, before, need, looked, offset,
                need || Missing(t, seed, store, offset), asked');
      assert checked[..] == before[offset := true];
      if !ok {
        return;
      }
    }
  }

  /** Looks at the files of one held piece that were not looked at before. */
  method CheckPiece(bridge: Bridge, torrent: TorrentStorage, have: seq<bool>, seed: bool, piece: nat,
                    checked: array<bool>, status: Status, ghost log: seq<Query>, ghost asked: seq<nat>)
    returns (status': Status, error: StorageError, ghost asked': seq<nat>)
    requires bridge.Valid() && torrent.Valid() && torrent.View().WellFormed() && torrent.files.Valid()
    requires piece < |have| && piece < torrent.files.NumPieces() && have[piece]
    requires WalkedTo(torrent.files, torrent.View(), have, seed, bridge.Contents(), piece, checked[..],
                      status.needFullCheck, asked)
    requires !status.fatalDiskError && !status.oversizedFile
    requires Logged(log, bridge.queries, torrent.View(), asked)
    modifies checked, bridge`queries, bridge`faults
    ensures bridge.faults >= old(bridge.faults)
    ensures Logged(log, bridge.queries, torrent.View(), asked')
    ensures status'.fatalDiskError <==> error.Failed?
    ensures error.Failed? ==> FailedOn(torrent.View(), seed, error) && bridge.faults > old(bridge.faults)
    ensures !status'.oversizedFile
    ensures error.NoError? ==>
              WalkedTo(torrent.files, torrent.View(), have, seed, bridge.Contents(), piece + 1, checked[..],
                       status'.needFullCheck, asked')
    ensures forall a, b :: 0 <= a < b < |asked'| ==> asked'[a] != asked'[b]
  {
    hide *;
    ghost var t, store, before := torrent.View(), bridge.Contents(), checked[..];
    torrent.ViewParts();
    WalkedParts(torrent.files, t, have, seed, store, piece, before, status.needFullCheck, asked);
    var slices := PieceSlices(torrent.files, piece);
    status', error, asked' := CheckSlices(bridge, torrent, seed, slices, checked, status, log, asked);
    if error.NoError? {
      WalkedPiece(torrent.files, t, have, seed, store, piece, slices, before, checked[..], status'.needFullCheck, asked');
    }
  }

  /** The files of the held pieces, each looked at once. */
  method CheckHeld(bridge: Bridge, torrent: TorrentStorage, have: seq<bool>, seed: bool, end: nat)
    returns (status: Status, error: StorageError, ghost asked: seq<nat>)
    requires bridge.Valid() && torrent.Valid() && torrent.View().WellFormed()
    requires torrent.files.Valid() && end <= |have| && end <= torrent.files.NumPieces()
    modifies bridge`queries, bridge`faults
    ensures bridge.faults >= old(bridge.faults)
    ensures Logged(old(bridge.queries), bridge.queries, torrent.View(), asked)
    ensures status.fatalDiskError <==> error.Failed?
    ensures error.Failed? ==> FailedOn(torrent.View(), seed, error) && bridge.faults > old(bridge.faults)
    ensures !status.oversizedFile
    ensures forall a, b :: 0 <= a < b < |asked| ==> asked[a] != asked[b]
    ensures error.NoError? ==>
              && (status.needFullCheck <==>
                  AnyNeededMissing(torrent.files, torrent.View(), have, seed, bridge.Contents(), end))
              && AskedExactly(torrent.files, torrent.View(), have, seed, end, asked)
  {
    hide *;
    ghost var t, store := torrent.View(), bridge.Contents();
    torrent.ViewParts();
    NoStatus();
    status, error, asked := NO_STATUS, NoError, [];
    var checked := new bool[|torrent.files.entries|](_ => false);
    WalkedNothing(torrent.files, t, have, seed, store, checked[..]);
    LoggedNothing(bridge.queries, t);
    for piece := 0 to end
      invariant error.NoError? && !status.fatalDiskError && !status.oversizedFile
      invariant bridge.faults >= old(bridge.faults)
      invariant fresh(checked) && Logged(old(bridge.queries), bridge.queries, t, asked)
      invariant WalkedTo(torrent.files, t, have, seed, store, piece, checked[..], status.needFullCheck, asked)
    {
      if have[piece] {
        status, error, asked := CheckPiece(bridge, torrent, have, seed, piece, checked, status, old(bridge.queries), asked);
        if error.Failed? {
          return;
        }
      } else {
        WalkedPast(torrent.files, t, have, seed, store, piece, checked[..], status.needFullCheck, asked);
      }
    }
    WalkedParts(torrent.files, t, have, seed, store, end, checked[..], status.needFullCheck, asked);
    WalkedAll(torrent.files, t, have, seed, store, end, checked[..], status.needFullCheck, asked);
  }

  /** `bitfield::all_set`, which an empty bitfield does not satisfy. */
  predicate AllSet(have: seq<bool>) {
    have != [] && forall piece :: 0 <= piece < |have| ==> have[piece]
  }

  /** Whether the resume data claims to have everything. */
  predicate Full(files: FileStorage, have: seq<bool>, seed: bool)
    requires files.Valid()
  {
    seed || (|have| >= files.NumPieces() && AllSet(have))
  }

  /** `validate_resume`: with everything claimed a full check is due exactly if a relevant file
      is missing or has the wrong size; otherwise exactly if a held piece lies, in part, in a
      relevant file that is missing. No file is queried twice. */
  method ValidateResume(bridge: Bridge, torrent: TorrentStorage, have: seq<bool>, seed: bool)
    returns (status: Status, error: StorageError, ghost asked: seq<nat>)
    requires bridge.Valid() && torrent.Valid() && torrent.View().WellFormed() && torrent.files.Valid()
    modifies bridge`queries, bridge`faults
    ensures bridge.faults >= old(bridge.faults)
    ensures Logged(old(bridge.queries), bridge.queries, torrent.View(), asked)
    ensures status.fatalDiskError <==> error.Failed?
    ensures error.Failed? ==> FailedOn(torrent.View(), seed, error) && bridge.faults > old(bridge.faults)
    ensures forall a, b :: 0 <= a < b < |asked| ==> asked[a] != asked[b]
    ensures
      var t, store := torrent.View(), bridge.Contents();
      error.NoError? && Full(torrent.files, have, seed) ==>
        && (status.needFullCheck <==> AnyMissized(t, seed, store, |t.files|))
        && (status.oversizedFile <==> AnyOversized(t, seed, store, |t.files|))
    ensures
      var t, store, n: nat := torrent.View(), bridge.Contents(), Min(|have|, torrent.files.NumPieces());
      error.NoError? && !Full(torrent.files, have, seed) ==>
        && (status.needFullCheck <==> AnyNeededMissing(torrent.files, t, have, seed, store, n))
        && AskedExactly(torrent.files, t, have, seed, n, asked)
        && !status.oversizedFile
  {
    if Full(torrent.files, have, seed) {
      status, error, asked := CheckAll(bridge, torrent, seed);
    } else {
      status, error, asked := CheckHeld(bridge, torrent, have, seed, Min(|have|, torrent.files.NumPieces()));
    }
  }
}
