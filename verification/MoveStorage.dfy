/** `move_storage`: checks, copies, the switch to the new root, and the clean-up. */
module MoveStorages {
  import opened Bytes
  import opened Errors
  import opened Layout
  import opened Paths
  import opened FlatView
  import opened Bridges
  import opened Descriptors
  import opened DescriptorCaches
  import opened Torrents
  import opened PublicCopy
  import opened MovePlan

  /** Every logical and every present path must be safe; gives the paths under the new root. */
  method CheckPaths(torrent: TorrentStorage, root: string) returns (destinations: seq<string>, error: StorageError)
    requires torrent.Valid()
    ensures error.NoError? <==>
            forall i :: 0 <= i < |torrent.paths| ==> Safe(torrent.logicalPaths[i]) && Safe(torrent.paths[i])
    ensures error.NoError? ==> destinations == RootedPaths(root, torrent.logicalPaths)
  {
    destinations := [];
    for offset := 0 to |torrent.logicalPaths|
      invariant |destinations| == offset
      invariant forall i :: 0 <= i < offset ==> Safe(torrent.logicalPaths[i]) && Safe(torrent.paths[i])
      invariant forall i :: 0 <= i < offset ==> destinations[i] == RootedPath(root, torrent.logicalPaths[i])
    {
      var safe := SafeRelativePath(torrent.logicalPaths[offset]);
      if safe {
        safe := SafeRelativePath(torrent.paths[offset]);
      }
      if !safe {
        return destinations, InvalidArgument(offset, FileRename);
      }
      destinations := destinations + [RootedPath(root, torrent.logicalPaths[offset])];
    }
    return destinations, NoError;
  }

  method PlanOperations(torrent: TorrentStorage, destinations: seq<string>) returns (ops: seq<MoveOperation>)
    requires torrent.Valid() && |destinations| == |torrent.paths|
    ensures ops == Plan(torrent.files.entries, torrent.paths, destinations, |torrent.paths|)
  {
    ops := [];
    for index := 0 to |torrent.paths|
      invariant ops == Plan(torrent.files.entries, torrent.paths, destinations, index)
    {
      if !torrent.files.entries[index].pad && torrent.paths[index] != destinations[index] {
        ops := ops + [MoveOperation(index, torrent.paths[index], destinations[index], -ENOENT, -ENOENT, false, false)];
      }
    }
  }

  method CheckCollisions(torrent: TorrentStorage, ops: seq<MoveOperation>) returns (error: StorageError)
    requires torrent.Valid()
    ensures error.NoError? <==> NoCollision(torrent.files.entries, torrent.paths, ops)
  {
    for position := 0 to |ops|
      invariant NoCollision(torrent.files.entries, torrent.paths, ops[..position])
    {
      for source := 0 to |torrent.paths|
        invariant forall i :: 0 <= i < source && i != ops[position].index && !torrent.files.entries[i].pad ==>
                                torrent.paths[i] != ops[position].destination
      {
        if source != ops[position].index && !torrent.files.entries[source].pad
           && ops[position].destination == torrent.paths[source] {
          assert !CollisionFree(torrent.files.entries, torrent.paths, ops[position]);
          return InvalidArgument(ops[position].index, FileRename);
        }
      }
      assert CollisionFree(torrent.files.entries, torrent.paths, ops[position]);
    }
    assert ops[..|ops|] == ops;
    return NoError;
  }

  /** With `fail_if_exist` any file in the way stops the move. */
  method CheckNoneExist(bridge: Bridge, fs: seq<FileEntry>, destinations: seq<string>)
    returns (status: Status, error: StorageError)
    requires bridge.Valid() && |fs| == |destinations|
    modifies bridge`queries, bridge`faults
    ensures bridge.faults >= old(bridge.faults)
    ensures error.NoError? ==> forall path :: path in DataPaths(fs, destinations) ==> path !in bridge.Contents()
    ensures status.fileExist ==> exists path :: path in DataPaths(fs, destinations) && path in bridge.Contents()
    ensures error.Failed? <==> status.fileExist || status.fatalDiskError
    ensures !status.needFullCheck
    ensures status.fatalDiskError ==> bridge.faults > old(bridge.faults)
  {
    status := NO_STATUS;
    for index := 0 to |fs|
      invariant forall i :: 0 <= i < index && !fs[i].pad ==> destinations[i] !in bridge.Contents()
      invariant bridge.faults >= old(bridge.faults)
    {
      if !fs[index].pad {
        bridge.NamesContents(destinations[index]);
        var size := bridge.FileSize(destinations[index]);
        if size >= 0 {
          assert destinations[index] in DataPaths(fs, destinations);
          return status.(fileExist := true), Failed(Errno(EEXIST), index, FileStat);
        }
        if size != -ENOENT {
          return status.(fatalDiskError := true), MakeError(size, index, FileStat);
        }
      }
    }
    return status, NoError;
  }

  /** Asks for the sizes on both sides and decides what to copy and what to remove later. */
  method Measure(bridge: Bridge, plan: seq<MoveOperation>, flags: MoveFlags)
    returns (ops: seq<MoveOperation>, needFullCheck: bool, error: StorageError)
    requires bridge.Valid()
    modifies bridge`queries, bridge`faults
    ensures bridge.faults >= old(bridge.faults)
    ensures |ops| == |plan| && forall k :: 0 <= k < |ops| ==> SameFiles(ops[k], plan[k])
    ensures error.NoError? ==> forall k :: 0 <= k < |ops| ==> Measured(bridge.Contents(), ops[k], flags)
    ensures error.NoError? ==>
              (needFullCheck <==> flags.DontReplace? && exists k :: 0 <= k < |plan| && plan[k].destination in bridge.Contents())
    ensures error.Failed? ==> bridge.faults > old(bridge.faults)
  {
    ops, needFullCheck := plan, false;
    for k := 0 to |plan|
      invariant |ops| == |plan| && (forall j :: 0 <= j < |ops| ==> SameFiles(ops[j], plan[j]))
      invariant forall j :: k <= j < |ops| ==> ops[j] == plan[j]
      invariant forall j :: 0 <= j < k ==> Measured(bridge.Contents(), ops[j], flags)
      invariant needFullCheck <==> flags.DontReplace? && exists j :: 0 <= j < k && plan[j].destination in bridge.Contents()
      invariant bridge.faults >= old(bridge.faults)
    {
      var op := ops[k];
      bridge.NamesContents(op.destination);
      bridge.NamesContents(op.source);
      var destinationSize := bridge.FileSize(op.destination);
      if destinationSize < 0 && destinationSize != -ENOENT {
        return ops, needFullCheck, MakeError(destinationSize, op.index, FileStat);
      }
      var sourceSize := bridge.FileSize(op.source);
      if sourceSize < 0 && sourceSize != -ENOENT {
        return ops, needFullCheck, MakeError(sourceSize, op.index, FileStat);
      }
      op := op.(destinationSize := destinationSize, sourceSize := sourceSize, cleanup := sourceSize >= 0, copy := false);
      if flags.DontReplace? && destinationSize >= 0 {
        needFullCheck := true;
      } else {
        op := op.(copy := sourceSize >= 0);
      }
      ops := ops[k := op];
    }
    error := NoError;
  }

  /** Copies in the order of the files; stops at the first failure. */
  method CopyAll(bridge: Bridge, ops: seq<MoveOperation>, ghost flags: MoveFlags) returns (error: StorageError)
    requires bridge.Valid() && OneSource(ops) && Targets(ops) !! Sources(ops)
    requires forall op :: op in ops ==> Measured(bridge.Contents(), op, flags) && op.source != op.destination
    modifies bridge`names, bridge`bodies, bridge`handles, bridge`directories, bridge`interrupts, bridge`faults
    ensures bridge.faults >= old(bridge.faults)
    ensures bridge.Valid() && bridge.handles == old(bridge.handles) && NamesKept(old(bridge.names), bridge.names)
    ensures SameOutside(old(bridge.Contents()), bridge.Contents(), Targets(ops))
    ensures error.NoError? ==> LandedUpTo(old(bridge.Contents()), bridge.Contents(), ops, |ops|)
    ensures error.Failed? && bridge.faults == old(bridge.faults) ==> !EndsSafe(ops)
  {
    hide *;
    ghost var before := bridge.Contents();
    NamesKeptSame(bridge.names);
    NoneLanded(before, ops);
    for n := 0 to |ops|
      invariant bridge.Valid() && bridge.handles == old(bridge.handles) && NamesKept(old(bridge.names), bridge.names)
      invariant LandedUpTo(before, bridge.Contents(), ops, n) && bridge.faults >= old(bridge.faults)
    {
      var op := ops[n];
      assert op in ops;
      if op.copy {
        ghost var mid, names := bridge.Contents(), bridge.names;
        MeasuredSize(before, op, flags);
        SourceReady(before, mid, ops, n, flags);
        var ok, failure := CopyPublicFile(bridge, op.source, op.destination, op.sourceSize, op.index);
        NamesKeptTransitive(old(bridge.names), names, bridge.names);
        if !ok {
          LandedAndOneMore(before, mid, bridge.Contents(), ops, n);
          return failure;
        }
        CopyStep(before, mid, bridge.Contents(), ops, n, flags);
      } else {
        NoCopyStep(before, bridge.Contents(), ops, n, flags);
      }
    }
    LandedTargets(before, bridge.Contents(), ops);
    return NoError;
  }

  predicate EndsSafe(ops: seq<MoveOperation>) {
    forall op :: op in ops ==> Safe(op.source) && Safe(op.destination)
  }

  /** When its turn comes, a file to be copied is there with the size it was found to have. */
  lemma SourceReady(before: Store, mid: Store, ops: seq<MoveOperation>, n: nat, flags: MoveFlags)
    requires n < |ops| && ops[n].copy && Targets(ops) !! Sources(ops)
    requires forall op :: op in ops ==> Measured(before, op, flags)
    requires LandedUpTo(before, mid, ops, n)
    ensures ops[n].source in mid && ops[n].sourceSize >= 0
    ensures !ShortSource(mid, ops[n].source, ops[n].destination, ops[n].sourceSize)
    ensures EndsSafe(ops) ==> Safe(ops[n].source) && Safe(ops[n].destination)
  {
    SourceIntact(before, mid, ops, n, flags);
    MeasuredSize(before, ops[n], flags);
    assert ops[n] in ops;
  }

  lemma MeasuredSize(store: Store, op: MoveOperation, flags: MoveFlags)
    requires Measured(store, op, flags) && op.copy
    ensures op.sourceSize == |Content(store, op.source)|
  {
  }

  lemma NoneLanded(before: Store, ops: seq<MoveOperation>)
    ensures LandedUpTo(before, before, ops, 0)
  {
  }

  lemma LandedTargets(before: Store, after: Store, ops: seq<MoveOperation>)
    requires LandedUpTo(before, after, ops, |ops|)
    ensures SameOutside(before, after, Targets(ops))
  {
  }

  lemma LandedAndOneMore(before: Store, mid: Store, after: Store, ops: seq<MoveOperation>, n: nat)
    requires n < |ops| && LandedUpTo(before, mid, ops, n) && SameOutside(mid, after, {ops[n].destination})
    ensures SameOutside(before, after, Targets(ops))
  {
  }

  /** Removes the files that moved away; a removal that fails is ignored. */
  method CleanUp(bridge: Bridge, ops: seq<MoveOperation>, destinations: seq<string>)
    requires bridge.Valid()
    modifies bridge`names, bridge`removals, bridge`faults
    ensures bridge.faults >= old(bridge.faults)
    ensures bridge.Valid() && bridge.handles == old(bridge.handles)
    ensures bridge.removals == old(bridge.removals) + Removals(ops, destinations, |ops|)
    ensures NamesKeptOutside(old(bridge.names), bridge.names, Sources(ops))
    ensures Cleaned(old(bridge.Contents()), bridge.Contents(), ops, destinations)
  {
    hide *;
    ghost var mid := bridge.Contents();
    CleanNothing(mid, ops, destinations);
    NamesKeptNone(bridge.names, Sources(ops));
    NoRemovals(ops, destinations);
    for k := 0 to |ops|
      invariant bridge.Valid() && bridge.handles == old(bridge.handles)
      invariant NamesKeptOutside(old(bridge.names), bridge.names, Sources(ops))
      invariant bridge.removals == old(bridge.removals) + Removals(ops, destinations, k)
      invariant Cleaned(mid, bridge.Contents(), ops, destinations) && bridge.faults >= old(bridge.faults)
    {
      var op := ops[k];
      assert op in ops;
      NextRemoval(ops, destinations, k);
      if op.cleanup && op.source !in destinations {
        ghost var store, names := bridge.Contents(), bridge.names;
        var _ := bridge.Remove(op.source);
        CleanOne(mid, store, ops, destinations, op);
        SourceListed(ops, op);
        NamesKeptMinus(old(bridge.names), names, Sources(ops), op.source);
      }
    }
  }

  lemma NoRemovals(ops: seq<MoveOperation>, destinations: seq<string>)
    ensures Removals(ops, destinations, 0) == []
  {
  }

  lemma NextRemoval(ops: seq<MoveOperation>, destinations: seq<string>, k: nat)
    requires k < |ops|
    ensures Removals(ops, destinations, k + 1) == Removals(ops, destinations, k) +
                                                  if ops[k].cleanup && ops[k].source !in destinations then [ops[k].source] else []
  {
  }

  lemma SourceListed(ops: seq<MoveOperation>, op: MoveOperation)
    requires op in ops
    ensures op.source in Sources(ops)
  {
  }

  /** No other storage has a descriptor open under one of these paths: live torrents keep their
      data at different paths. */
  predicate Unshared(ds: seq<OpenDescriptor>, storage: nat, paths: set<string>) {
    forall d :: d in ds && d.storage != storage ==> d.path !in paths
  }

  predicate Clear(ds: seq<OpenDescriptor>, paths: set<string>) {
    forall d :: d in ds ==> d.path !in paths
  }

  /** The files of the torrent under its old paths are untouched, and so is everything that is not
      at one of the new paths. */
  ghost predicate Harmless(fs: seq<FileEntry>, paths: seq<string>, destinations: seq<string>, before: Store,
                           after: Store)
    requires |fs| == |paths| == |destinations|
  {
    && SameOutside(before, after, DataPaths(fs, destinations))
    && forall path :: path in DataPaths(fs, paths) ==> SameFile(before, path, after, path)
  }

  lemma GoodHarmless(fs: seq<FileEntry>, paths: seq<string>, destinations: seq<string>, ops: seq<MoveOperation>,
                     before: Store, after: Store)
    requires GoodPlan(fs, paths, destinations, ops) && SameOutside(before, after, Targets(ops))
    ensures Harmless(fs, paths, destinations, before, after)
  {
  }

  lemma GoodPlanParts(fs: seq<FileEntry>, paths: seq<string>, destinations: seq<string>, ops: seq<MoveOperation>,
                      store: Store, flags: MoveFlags)
    requires GoodPlan(fs, paths, destinations, ops)
    requires forall k :: 0 <= k < |ops| ==> Measured(store, ops[k], flags)
    ensures OneSource(ops) && Targets(ops) !! Sources(ops)
    ensures forall op :: op in ops ==> Measured(store, op, flags) && op.source != op.destination
  {
  }

  /** The checks before anything is touched, up to the plan of copies. */
  method Prepare(torrent: TorrentStorage, root: string)
    returns (destinations: seq<string>, plan: seq<MoveOperation>, error: StorageError)
    requires torrent.Valid()
    ensures error.NoError? ==>
              && destinations == RootedPaths(root, torrent.logicalPaths)
              && GoodPlan(torrent.files.entries, torrent.paths, destinations, plan)
    ensures error.NoError? <==>
            && (forall i :: 0 <= i < |torrent.paths| ==> Safe(torrent.logicalPaths[i]) && Safe(torrent.paths[i]))
            && TargetsFree(torrent.files.entries, torrent.paths, RootedPaths(root, torrent.logicalPaths))
  {
    plan := [];
    destinations, error := CheckPaths(torrent, root);
    if error.NoError? {
      CollisionsExactly(torrent.files.entries, torrent.paths, destinations);
      plan := PlanOperations(torrent, destinations);
      error := CheckCollisions(torrent, plan);
      if error.NoError? {
        PlanGood(torrent.files.entries, torrent.logicalPaths, torrent.saveRoot, root, torrent.paths, destinations);
      }
    }
  }

  /** Everything between the checks and the switch: on failure nothing the torrent has is lost. */
  method Relocate(bridge: Bridge, ghost fs: seq<FileEntry>, ghost paths: seq<string>, destinations: seq<string>,
                  plan: seq<MoveOperation>, flags: MoveFlags)
    returns (ops: seq<MoveOperation>, needFullCheck: bool, error: StorageError)
    requires bridge.Valid() && GoodPlan(fs, paths, destinations, plan)
    modifies bridge`names, bridge`bodies, bridge`handles, bridge`directories, bridge`interrupts, bridge`queries
    modifies bridge`faults
    ensures bridge.faults >= old(bridge.faults)
    ensures bridge.Valid() && bridge.handles == old(bridge.handles) && NamesKept(old(bridge.names), bridge.names)
    ensures |fs| == |paths| == |destinations|
    ensures Harmless(fs, paths, destinations, old(bridge.Contents()), bridge.Contents())
    ensures error.NoError? ==>
              && GoodPlan(fs, paths, destinations, ops)
              && (forall op :: op in ops ==> Measured(old(bridge.Contents()), op, flags))
              && LandedUpTo(old(bridge.Contents()), bridge.Contents(), ops, |ops|)
              && (needFullCheck <==>
                  flags.DontReplace? && exists path :: path in Targets(ops) && path in old(bridge.Contents()))
    ensures error.Failed? && bridge.faults == old(bridge.faults) ==>
              exists i :: 0 <= i < |fs| && !(Safe(paths[i]) && Safe(destinations[i]))
  {
    hide *;
    ghost var before := bridge.Contents();
    NamesKeptSame(bridge.names);
    NothingTouched(before, Targets(plan));
    GoodHarmless(fs, paths, destinations, plan, before, before);
    GoodLengths(fs, paths, destinations, plan);
    ops, needFullCheck, error := Measure(bridge, plan, flags);
    if error.Failed? {
      return;
    }
    TargetsExist(plan, before);
    SameFilesGood(fs, paths, destinations, plan, ops);
    GoodPlanParts(fs, paths, destinations, ops, before, flags);
    error := CopyAll(bridge, ops, flags);
    GoodPlanSafe(fs, paths, destinations, ops);
    GoodHarmless(fs, paths, destinations, ops, before, bridge.Contents());
  }

  lemma GoodPlanSafe(fs: seq<FileEntry>, paths: seq<string>, destinations: seq<string>, ops: seq<MoveOperation>)
    requires GoodPlan(fs, paths, destinations, ops)
    ensures |fs| == |paths| == |destinations|
    ensures !EndsSafe(ops) ==> exists i :: 0 <= i < |fs| && !(Safe(paths[i]) && Safe(destinations[i]))
  {
    if !EndsSafe(ops) {
      var op :| op in ops && !(Safe(op.source) && Safe(op.destination));
      assert OnPlan(fs, paths, destinations, op);
      assert !(Safe(paths[op.index]) && Safe(destinations[op.index]));
    }
  }

  lemma GoodLengths(fs: seq<FileEntry>, paths: seq<string>, destinations: seq<string>, ops: seq<MoveOperation>)
    requires GoodPlan(fs, paths, destinations, ops)
    ensures |fs| == |paths| == |destinations|
  {
  }

  lemma TargetsExist(plan: seq<MoveOperation>, store: Store)
    ensures (exists k :: 0 <= k < |plan| && plan[k].destination in store) <==>
            (exists path :: path in Targets(plan) && path in store)
  {
  }

  twostate lemma AfterCopies(cache: DescriptorCache)
    requires old(cache.Valid()) && cache.bridge.Valid()
    requires cache.descriptors == old(cache.descriptors) && cache.recency == old(cache.recency)
    requires cache.useCounter == old(cache.useCounter) && cache.descriptorLimit == old(cache.descriptorLimit)
    requires cache.bridge.handles == old(cache.bridge.handles)
    requires NamesKept(old(cache.bridge.names), cache.bridge.names)
    ensures cache.Valid()
  {
    cache.SurvivesNames();
  }

  lemma ClosedUnshared(ds: seq<OpenDescriptor>, storage: nat, paths: set<string>)
    ensures Unshared(ds, storage, paths) ==> Clear(Drop(ds, OfStorage(storage)), paths)
  {
  }

  predicate IsReset(flags: MoveFlags) {
    flags.ResetSavePath? || flags.ResetSavePathUnchecked?
  }

  /** What a move that replaces nothing by accident leaves of the tree. */
  ghost predicate Transferred(fs: seq<FileEntry>, paths: seq<string>, destinations: seq<string>,
                              before: Store, after: Store, flags: MoveFlags)
    requires |fs| == |paths| == |destinations|
  {
    && (forall i :: 0 <= i < |fs| && !fs[i].pad ==> Moved(before, after, paths[i], destinations[i], flags))
    && SameOutside(before, after, DataPaths(fs, paths) + DataPaths(fs, destinations))
  }

  /** A file that moves finds another at its new path. */
  predicate InTheWay(fs: seq<FileEntry>, paths: seq<string>, destinations: seq<string>, store: Store)
    requires |fs| == |paths| == |destinations|
  {
    exists i :: 0 <= i < |fs| && !fs[i].pad && paths[i] != destinations[i] && destinations[i] in store
  }

  lemma TargetsInTheWay(fs: seq<FileEntry>, paths: seq<string>, destinations: seq<string>, ops: seq<MoveOperation>,
                        store: Store)
    requires GoodPlan(fs, paths, destinations, ops)
    ensures (exists path :: path in Targets(ops) && path in store) <==> InTheWay(fs, paths, destinations, store)
  {
  }

  lemma TransferComplete(fs: seq<FileEntry>, paths: seq<string>, destinations: seq<string>, ops: seq<MoveOperation>,
                         before: Store, mid: Store, after: Store, flags: MoveFlags)
    requires GoodPlan(fs, paths, destinations, ops) && forall op :: op in ops ==> Measured(before, op, flags)
    requires LandedUpTo(before, mid, ops, |ops|) && Cleaned(mid, after, ops, destinations)
    ensures |fs| == |paths| == |destinations| && Transferred(fs, paths, destinations, before, after, flags)
  {
    assert forall i :: 0 <= i < |fs| ==> destinations[i] in destinations;
    LayoutMoved(fs, paths, destinations, before, mid, after, ops, flags);
    LandedTargets(before, mid, ops);
  }

  /** The copies, the switch to the new root, and the clean-up. */
  method Perform(cache: DescriptorCache, torrent: TorrentStorage, root: string, destinations: seq<string>,
                 plan: seq<MoveOperation>, flags: MoveFlags)
    returns (needFullCheck: bool, error: StorageError)
    requires cache.Valid() && torrent.Valid() && NormalizedSaveRoot(root) == root
    requires destinations == RootedPaths(root, torrent.logicalPaths)
    requires GoodPlan(torrent.files.entries, torrent.paths, destinations, plan)
    modifies torrent`saveRoot, torrent`paths
    modifies cache.bridge`names, cache.bridge`bodies, cache.bridge`handles, cache.bridge`interrupts
    modifies cache.bridge`directories, cache.bridge`removals, cache.bridge`queries, cache.bridge`faults
    ensures cache.bridge.faults >= old(cache.bridge.faults)
    ensures cache.bridge.Valid() && torrent.Valid()
    ensures Clear(cache.descriptors, DataPaths(torrent.files.entries, old(torrent.paths))) ==> cache.Valid()
    ensures |torrent.files.entries| == |old(torrent.paths)|
    ensures error.Failed? ==>
              && torrent.saveRoot == old(torrent.saveRoot) && torrent.paths == old(torrent.paths)
              && cache.bridge.removals == old(cache.bridge.removals)
              && Harmless(torrent.files.entries, torrent.paths, destinations,
                          old(cache.bridge.Contents()), cache.bridge.Contents())
    ensures error.Failed? && cache.bridge.faults == old(cache.bridge.faults) ==>
              exists i :: 0 <= i < |torrent.paths| && !(Safe(torrent.paths[i]) && Safe(destinations[i]))
    ensures error.NoError? ==>
              && torrent.saveRoot == root
              && Transferred(torrent.files.entries, old(torrent.paths), torrent.paths,
                             old(cache.bridge.Contents()), cache.bridge.Contents(), flags)
              && (needFullCheck <==>
                  flags.DontReplace? && InTheWay(torrent.files.entries, old(torrent.paths), destinations, old(cache.bridge.Contents())))
              && old(cache.bridge.removals) <= cache.bridge.removals
              && AskedToRemove(torrent.files.entries, old(torrent.paths), torrent.paths, old(cache.bridge.Contents()),
                               cache.bridge.removals[|old(cache.bridge.removals)|..])
  {
    hide *;
    torrent.Lengths();
    cache.BridgeValid();
    ghost var fs, paths, before := torrent.files.entries, torrent.paths, cache.bridge.Contents();
    label Closed:
    var ops;
    ops, needFullCheck, error := Relocate(cache.bridge, fs, paths, destinations, plan, flags);
    AfterCopies@Closed(cache);
    cache.BridgeValid();
    if error.Failed? {
      return;
    }
    ghost var mid := cache.bridge.Contents();
    GoodPlanElim(fs, paths, destinations, ops);
    TargetsInTheWay(fs, paths, destinations, ops, before);
    torrent.SetSaveRoot(root);
    torrent.Lengths();
    CleanUpCached(cache, ops, destinations, DataPaths(fs, paths));
    RemovalsAsked(fs, paths, destinations, ops, before, flags);
    TransferComplete(fs, paths, destinations, ops, before, mid, cache.bridge.Contents(), flags);
  }

  method CleanUpCached(cache: DescriptorCache, ops: seq<MoveOperation>, destinations: seq<string>,
                       ghost all: set<string>)
    requires cache.Valid() && cache.bridge.Valid() && Sources(ops) <= all
    modifies cache.bridge`names, cache.bridge`removals, cache.bridge`faults
    ensures cache.bridge.faults >= old(cache.bridge.faults)
    ensures cache.bridge.Valid() && (Clear(cache.descriptors, all) ==> cache.Valid())
    ensures cache.bridge.removals == old(cache.bridge.removals) + Removals(ops, destinations, |ops|)
    ensures Cleaned(old(cache.bridge.Contents()), cache.bridge.Contents(), ops, destinations)
  {
    CleanUp(cache.bridge, ops, destinations);
    if Clear(cache.descriptors, all) {
      cache.SurvivesNames();
    }
  }

  /** A move can work: all names are safe, no file would come to where another one is, and with
      `fail_if_exist` no new path is taken. */
  predicate MoveAllowed(fs: seq<FileEntry>, logical: seq<string>, paths: seq<string>, targets: seq<string>,
                        store: Store, flags: MoveFlags)
    requires |fs| == |logical| == |paths| == |targets|
  {
    && (forall i :: 0 <= i < |fs| ==> Safe(logical[i]) && Safe(paths[i]))
    && TargetsFree(fs, paths, targets)
    && (flags.FailIfExist? ==> forall path :: path in DataPaths(fs, targets) ==> path !in store)
  }

  /** What a move to the root reports, and what it leaves of the torrent and the tree. All or nothing:
      on every error the torrent is where it was, with all its bytes. */
  ghost predicate MoveResult(fs: seq<FileEntry>, logical: seq<string>, paths: seq<string>, root: string,
                             flags: MoveFlags,
                             before: Store, status: Status, error: StorageError,
                             paths': seq<string>, after: Store, removals: seq<string>)
    requires |fs| == |logical| == |paths|
  {
    var targets := RootedPaths(root, logical);
    && (error.Failed? <==> status.fatalDiskError || status.fileExist)
    && (error.Failed? ==> paths' == paths && removals == [] && Harmless(fs, paths, targets, before, after))
    && (error.NoError? ==> paths' == targets && MoveAllowed(fs, logical, paths, targets, before, flags))
    && (error.NoError? && IsReset(flags) ==>
          after == before && removals == [] && status.needFullCheck == flags.ResetSavePath?)
    && (error.NoError? && !IsReset(flags) ==>
          && Transferred(fs, paths, targets, before, after, flags)
          && (status.needFullCheck <==> flags.DontReplace? && InTheWay(fs, paths, targets, before))
          && AskedToRemove(fs, paths, targets, before, removals))
  }

  lemma MoveResultIs(fs: seq<FileEntry>, logical: seq<string>, paths: seq<string>, root: string, flags: MoveFlags,
                     before: Store, status: Status, error: StorageError,
                     paths': seq<string>, after: Store, removals: seq<string>)
    requires |fs| == |logical| == |paths|
    ensures
      var targets := RootedPaths(root, logical);
      MoveResult(fs, logical, paths, root, flags, before, status, error, paths', after, removals) <==>
        && (error.Failed? <==> status.fatalDiskError || status.fileExist)
        && (error.Failed? ==> paths' == paths && removals == [] && Harmless(fs, paths, targets, before, after))
        && (error.NoError? ==> paths' == targets && MoveAllowed(fs, logical, paths, targets, before, flags))
        && (error.NoError? && IsReset(flags) ==>
              after == before && removals == [] && status.needFullCheck == flags.ResetSavePath?)
        && (error.NoError? && !IsReset(flags) ==>
              && Transferred(fs, paths, targets, before, after, flags)
              && (status.needFullCheck <==> flags.DontReplace? && InTheWay(fs, paths, targets, before))
              && AskedToRemove(fs, paths, targets, before, removals))
  {
  }

  lemma MoveAllowedIs(fs: seq<FileEntry>, logical: seq<string>, paths: seq<string>, targets: seq<string>,
                      store: Store, flags: MoveFlags)
    requires |fs| == |logical| == |paths| == |targets|
    ensures MoveAllowed(fs, logical, paths, targets, store, flags) <==>
              && (forall i :: 0 <= i < |fs| ==> Safe(logical[i]) && Safe(paths[i]))
              && TargetsFree(fs, paths, targets)
              && (flags.FailIfExist? ==> forall path :: path in DataPaths(fs, targets) ==> path !in store)
  {
  }

  lemma TargetsSafe(root: string, logical: seq<string>)
    requires SafeRoot(root) && forall i :: 0 <= i < |logical| ==> Safe(logical[i])
    ensures forall path :: path in RootedPaths(root, logical) ==> Safe(path)
  {
    forall i | 0 <= i < |logical|
      ensures Safe(RootedPath(root, logical[i]))
    {
      RootedSafe(root, logical[i]);
    }
  }

  /** The move of the files, once the names were found to be good. */
  method MoveFiles(cache: DescriptorCache, torrent: TorrentStorage, root: string, destinations: seq<string>,
                   plan: seq<MoveOperation>, flags: MoveFlags)
    returns (status: Status, error: StorageError)
    requires cache.Valid() && torrent.Valid() && NormalizedSaveRoot(root) == root && !IsReset(flags)
    requires |torrent.files.entries| == |torrent.logicalPaths| == |torrent.paths|
    requires destinations == RootedPaths(root, torrent.logicalPaths)
    requires GoodPlan(torrent.files.entries, torrent.paths, destinations, plan)
    requires forall i :: 0 <= i < |torrent.paths| ==> Safe(torrent.logicalPaths[i]) && Safe(torrent.paths[i])
    requires TargetsFree(torrent.files.entries, torrent.paths, destinations)
    modifies torrent`saveRoot, torrent`paths
    modifies cache.bridge`names, cache.bridge`bodies, cache.bridge`handles, cache.bridge`interrupts
    modifies cache.bridge`directories, cache.bridge`removals, cache.bridge`queries, cache.bridge`faults
    ensures cache.bridge.faults >= old(cache.bridge.faults)
    ensures cache.bridge.Valid() && torrent.Valid()
    ensures Clear(cache.descriptors, DataPaths(torrent.files.entries, old(torrent.paths))) ==> cache.Valid()
    ensures |torrent.files.entries| == |torrent.logicalPaths| == |old(torrent.paths)|
    ensures old(cache.bridge.removals) <= cache.bridge.removals
    ensures MoveResult(torrent.files.entries, torrent.logicalPaths, old(torrent.paths), root, flags,
                       old(cache.bridge.Contents()), status, error, torrent.paths, cache.bridge.Contents(),
                       cache.bridge.removals[|old(cache.bridge.removals)|..])
    ensures torrent.saveRoot == if error.Failed? then old(torrent.saveRoot) else root
    ensures error.Failed? && SafeRoot(root) && cache.bridge.faults == old(cache.bridge.faults) ==>
              !MoveAllowed(torrent.files.entries, torrent.logicalPaths, old(torrent.paths), destinations,
                           old(cache.bridge.Contents()), flags)
  {
    hide *;
    NoStatus();
    ResetIs(flags);
    var bridge := cache.bridge;
    ghost var fs, paths, logical := torrent.files.entries, torrent.paths, torrent.logicalPaths;
    ghost var before, removals := bridge.Contents(), bridge.removals;
    cache.BridgeValid();
    MoveAllowedIs(fs, logical, paths, destinations, before, flags);
    if SafeRoot(root) {
      TargetsSafe(root, logical);
    }
    status := NO_STATUS;
    if flags == FailIfExist {
      status, error := CheckNoneExist(bridge, torrent.files.entries, destinations);
      if error.Failed? {
        NothingHarmed(fs, paths, destinations, before);
        assert removals[|removals|..] == [];
        MoveResultIs(fs, logical, paths, root, flags, before, status, error, paths, before, []);
        return;
      }
    }
    var needFullCheck;
    needFullCheck, error := Perform(cache, torrent, root, destinations, plan, flags);
    status := status.(needFullCheck := needFullCheck, fatalDiskError := error.Failed?);
    torrent.Lengths();
    assert removals[|removals|..] == [];
    MoveResultIs(fs, logical, paths, root, flags, before, status, error, torrent.paths, bridge.Contents(),
                 bridge.removals[|removals|..]);
  }

  /** Moves the torrent's files below another root. */
  method MoveStorage(cache: DescriptorCache, torrent: TorrentStorage, storage: nat,
                     destinationRoot: string, flags: MoveFlags)
    returns (status: Status, error: StorageError)
    requires cache.Valid() && torrent.Valid()
    modifies cache`descriptors, cache`recency, torrent`saveRoot, torrent`paths
    modifies cache.bridge`names, cache.bridge`bodies, cache.bridge`handles, cache.bridge`interrupts
    modifies cache.bridge`directories, cache.bridge`removals, cache.bridge`queries, cache.bridge`faults
    ensures cache.bridge.faults >= old(cache.bridge.faults)
    ensures cache.bridge.Valid() && torrent.Valid()
    ensures |torrent.files.entries| == |torrent.logicalPaths| == |old(torrent.paths)|
    // What other torrents have open stays coherent as long as none of it is removed.
    ensures Unshared(old(cache.descriptors), storage, DataPaths(torrent.files.entries, old(torrent.paths))) ==> cache.Valid()
    ensures cache.descriptors == Drop(old(cache.descriptors), OfStorage(storage))
    ensures old(cache.bridge.removals) <= cache.bridge.removals
    ensures MoveResult(torrent.files.entries, torrent.logicalPaths, old(torrent.paths), NormalizedSaveRoot(destinationRoot),
                       flags, old(cache.bridge.Contents()), status, error, torrent.paths, cache.bridge.Contents(),
                       cache.bridge.removals[|old(cache.bridge.removals)|..])
    ensures torrent.saveRoot == if error.Failed? then old(torrent.saveRoot) else NormalizedSaveRoot(destinationRoot)
    ensures error.NoError? && SafeRoot(torrent.saveRoot) ==> torrent.PathsSafe()
    // What is allowed works, unless the bridge fails.
    ensures error.Failed? && SafeRoot(NormalizedSaveRoot(destinationRoot)) &&
            cache.bridge.faults == old(cache.bridge.faults) ==>
              !MoveAllowed(torrent.files.entries, torrent.logicalPaths, old(torrent.paths),
                           RootedPaths(NormalizedSaveRoot(destinationRoot), torrent.logicalPaths),
                           old(cache.bridge.Contents()), flags)
  {
    hide *;
    torrent.Lengths();
    var bridge := cache.bridge;
    status := NO_STATUS;
    NoStatus();
    ResetIs(flags);
    var root := NormalizedSaveRoot(destinationRoot);
    NormalizedIdempotent(destinationRoot);
    ghost var fs, paths, logical := torrent.files.entries, torrent.paths, torrent.logicalPaths;
    ghost var targets := RootedPaths(root, logical);
    ghost var before, removals := bridge.Contents(), bridge.removals;
    ClosedUnshared(cache.descriptors, storage, DataPaths(fs, paths));
    NothingHarmed(fs, paths, targets, before);
    MoveAllowedIs(fs, logical, paths, targets, before, flags);
    assert removals[|removals|..] == [];
    cache.CloseStorage(storage);
    cache.BridgeValid();
    var destinations, plan;
    destinations, plan, error := Prepare(torrent, root);
    if error.Failed? {
      status := status.(fatalDiskError := true);
      MoveResultIs(fs, logical, paths, root, flags, before, status, error, paths, before, []);
      return;
    }
    var validation := 0;
    if root != "" {
      validation := bridge.ValidatePath(root);
    }
    if validation < 0 {
      status := status.(fatalDiskError := true);
      error := MakeError(validation, -1, FileRename);
      MoveResultIs(fs, logical, paths, root, flags, before, status, error, paths, before, []);
      return;
    }
    if flags == ResetSavePath || flags == ResetSavePathUnchecked {
      torrent.SetSaveRoot(root);
      torrent.Lengths();
      torrent.PathsSafeIs();
      status := status.(needFullCheck := flags == ResetSavePath);
      MoveResultIs(fs, logical, paths, root, flags, before, status, error, targets, before, []);
      return;
    }
    status, error := MoveFiles(cache, torrent, root, destinations, plan, flags);
    torrent.PathsSafeIs();
  }

  lemma ResetIs(flags: MoveFlags)
    ensures IsReset(flags) <==> flags.ResetSavePath? || flags.ResetSavePathUnchecked?
  {
  }

  lemma NothingHarmed(fs: seq<FileEntry>, paths: seq<string>, destinations: seq<string>, store: Store)
    requires |fs| == |paths| == |destinations|
    ensures Harmless(fs, paths, destinations, store, store)
  {
  }

  lemma NormalizedSafe(root: string)
    requires Safe(root)
    ensures SafeRoot(NormalizedSaveRoot(root))
  {
  }

  /** The job of `async_move_storage`, for every flag: an unsafe root is refused. */
  method MoveJob(cache: DescriptorCache, torrent: TorrentStorage, storage: nat, root: string, flags: MoveFlags)
    returns (status: Status, error: StorageError)
    requires cache.Valid() && torrent.Valid()
    modifies cache`descriptors, cache`recency, torrent`saveRoot, torrent`paths
    modifies cache.bridge`names, cache.bridge`bodies, cache.bridge`handles, cache.bridge`interrupts
    modifies cache.bridge`directories, cache.bridge`removals, cache.bridge`queries, cache.bridge`faults
    ensures cache.bridge.faults >= old(cache.bridge.faults)
    ensures cache.bridge.Valid() && torrent.Valid()
    ensures |torrent.files.entries| == |torrent.logicalPaths| == |old(torrent.paths)|
    ensures Unshared(old(cache.descriptors), storage, DataPaths(torrent.files.entries, old(torrent.paths))) ==> cache.Valid()
    ensures cache.descriptors ==
            if Safe(root) then Drop(old(cache.descriptors), OfStorage(storage)) else old(cache.descriptors)
    ensures old(cache.bridge.removals) <= cache.bridge.removals
    ensures MoveResult(torrent.files.entries, torrent.logicalPaths, old(torrent.paths), NormalizedSaveRoot(root), flags,
                       old(cache.bridge.Contents()), status, error, torrent.paths, cache.bridge.Contents(),
                       cache.bridge.removals[|old(cache.bridge.removals)|..])
    ensures torrent.saveRoot == if error.Failed? then old(torrent.saveRoot) else NormalizedSaveRoot(root)
    ensures NamingStep(old(torrent.Names()), torrent.Names())
    ensures error.NoError? ==> Safe(root) && torrent.PathsSafe()
    ensures !Safe(root) ==>
              error == InvalidArgument(-1, FileRename) && cache.bridge.Contents() == old(cache.bridge.Contents())
    // Unless the bridge fails, a move works if and only if the root is safe and the move allowed.
    ensures error.Failed? && cache.bridge.faults == old(cache.bridge.faults) ==>
              !Safe(root) ||
              !MoveAllowed(torrent.files.entries, torrent.logicalPaths, old(torrent.paths),
                           RootedPaths(NormalizedSaveRoot(root), torrent.logicalPaths), old(cache.bridge.Contents()), flags)
  {
    hide *;
    InvalidArgumentFails(-1, FileRename);
    torrent.Lengths();
    torrent.NamesAre();
    cache.BridgeValid();
    var safe := SafeRelativePath(root);
    if !safe {
      ghost var before, paths := cache.bridge.Contents(), torrent.paths;
      NamingSame(torrent.Names());
      status, error := NO_STATUS.(fatalDiskError := true), InvalidArgument(-1, FileRename);
      NothingHarmed(torrent.files.entries, paths, RootedPaths(NormalizedSaveRoot(root), torrent.logicalPaths), before);
      assert cache.bridge.removals[|cache.bridge.removals|..] == [];
      MoveResultIs(torrent.files.entries, torrent.logicalPaths, paths, NormalizedSaveRoot(root), flags, before,
                   status, error, paths, before, []);
      return;
    }
    NormalizedSafe(root);
    ghost var naming := torrent.Names();
    status, error := MoveStorage(cache, torrent, storage, root, flags);
    torrent.NamesAre();
    NamingSame(naming);
    NamingMoved(naming, root);
  }
}
