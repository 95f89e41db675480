/** Moving a torrent to another save root, on values: which files move where, and what the copies
    and the clean-up leave at each path. */
module MovePlan {
  import opened Bytes
  import opened Layout
  import opened Paths
  import opened FlatView
  import opened PublicCopy
  import opened Migration

  datatype MoveFlags = AlwaysReplaceFiles | FailIfExist | DontReplace | ResetSavePath | ResetSavePathUnchecked

  datatype MoveOperation =
    MoveOperation(index: nat, source: string, destination: string, sourceSize: int, destinationSize: int,
                  copy: bool, cleanup: bool)

  /** The operations for the first n files: those with data whose path changes. */
  function Plan(fs: seq<FileEntry>, paths: seq<string>, destinations: seq<string>, n: nat): seq<MoveOperation>
    requires n <= |fs| == |paths| == |destinations|
  {
    if n == 0 then []
    else
      var before := Plan(fs, paths, destinations, n - 1);
      if fs[n - 1].pad || paths[n - 1] == destinations[n - 1] then before
      else before + [MoveOperation(n - 1, paths[n - 1], destinations[n - 1], -2, -2, false, false)]
  }

  predicate OnPlan(fs: seq<FileEntry>, paths: seq<string>, destinations: seq<string>, op: MoveOperation)
    requires |fs| == |paths| == |destinations|
  {
    && op.index < |fs| && !fs[op.index].pad
    && op.source == paths[op.index] && op.destination == destinations[op.index] && op.source != op.destination
  }

  lemma {:induction false} PlanSound(fs: seq<FileEntry>, paths: seq<string>, destinations: seq<string>, n: nat)
    requires n <= |fs| == |paths| == |destinations|
    ensures forall op :: op in Plan(fs, paths, destinations, n) ==> OnPlan(fs, paths, destinations, op)
  {
    if n > 0 {
      PlanSound(fs, paths, destinations, n - 1);
    }
  }

  lemma {:induction false} PlanComplete(fs: seq<FileEntry>, paths: seq<string>, destinations: seq<string>, n: nat,
                                        i: nat)
    requires i < n <= |fs| == |paths| == |destinations|
    requires !fs[i].pad && paths[i] != destinations[i]
    ensures exists k :: 0 <= k < |Plan(fs, paths, destinations, n)| && Plan(fs, paths, destinations, n)[k].index == i
  {
    var all := Plan(fs, paths, destinations, n);
    if i == n - 1 {
      assert all[|all| - 1].index == i;
    } else {
      PlanComplete(fs, paths, destinations, n - 1, i);
      var before := Plan(fs, paths, destinations, n - 1);
      var k :| 0 <= k < |before| && before[k].index == i;
      assert all[k] == before[k];
    }
  }

  /** No file is to be copied onto the path of another file that holds data. */
  predicate CollisionFree(fs: seq<FileEntry>, paths: seq<string>, op: MoveOperation)
    requires |fs| == |paths|
  {
    forall i :: 0 <= i < |fs| && i != op.index && !fs[i].pad ==> paths[i] != op.destination
  }

  predicate NoCollision(fs: seq<FileEntry>, paths: seq<string>, ops: seq<MoveOperation>)
    requires |fs| == |paths|
  {
    forall k :: 0 <= k < |ops| ==> CollisionFree(fs, paths, ops[k])
  }

  /** No file with data that moves comes to where another one is. */
  predicate TargetsFree(fs: seq<FileEntry>, paths: seq<string>, destinations: seq<string>)
    requires |fs| == |paths| == |destinations|
  {
    forall i, j :: 0 <= i < |fs| && 0 <= j < |fs| && i != j && !fs[i].pad && !fs[j].pad && paths[i] != destinations[i] ==>
                     destinations[i] != paths[j]
  }

  /** That is what is found out over the plan. */
  lemma CollisionsExactly(fs: seq<FileEntry>, paths: seq<string>, destinations: seq<string>)
    requires |fs| == |paths| == |destinations|
    ensures NoCollision(fs, paths, Plan(fs, paths, destinations, |fs|)) <==> TargetsFree(fs, paths, destinations)
  {
    var ops := Plan(fs, paths, destinations, |fs|);
    PlanSound(fs, paths, destinations, |fs|);
    if NoCollision(fs, paths, ops) {
      forall i, j | 0 <= i < |fs| && 0 <= j < |fs| && i != j && !fs[i].pad && !fs[j].pad && paths[i] != destinations[i]
        ensures destinations[i] != paths[j]
      {
        PlanComplete(fs, paths, destinations, |fs|, i);
        var k :| 0 <= k < |ops| && ops[k].index == i;
        assert OnPlan(fs, paths, destinations, ops[k]) && CollisionFree(fs, paths, ops[k]);
      }
    }
    if TargetsFree(fs, paths, destinations) {
      forall k | 0 <= k < |ops|
        ensures CollisionFree(fs, paths, ops[k])
      {
        assert OnPlan(fs, paths, destinations, ops[k]);
      }
    }
  }

  function DataPaths(fs: seq<FileEntry>, paths: seq<string>): set<string>
    requires |fs| == |paths|
  {
    set i | 0 <= i < |fs| && !fs[i].pad :: paths[i]
  }

  function Targets(ops: seq<MoveOperation>): set<string> {
    set op | op in ops :: op.destination
  }

  function Sources(ops: seq<MoveOperation>): set<string> {
    set op | op in ops :: op.source
  }

  /** Hence the copies go to paths where the torrent has no data. */
  lemma TargetsApart(fs: seq<FileEntry>, paths: seq<string>, destinations: seq<string>, ops: seq<MoveOperation>)
    requires |fs| == |paths| == |destinations|
    requires NoCollision(fs, paths, ops) && AllOnPlan(fs, paths, destinations, ops)
    ensures Targets(ops) !! DataPaths(fs, paths)
    ensures Sources(ops) <= DataPaths(fs, paths) && Targets(ops) <= DataPaths(fs, destinations)
  {
  }

  predicate AllOnPlan(fs: seq<FileEntry>, paths: seq<string>, destinations: seq<string>, ops: seq<MoveOperation>)
    requires |fs| == |paths| == |destinations|
  {
    forall op :: op in ops ==> OnPlan(fs, paths, destinations, op)
  }

  predicate Complete(fs: seq<FileEntry>, paths: seq<string>, destinations: seq<string>, ops: seq<MoveOperation>)
    requires |fs| == |paths| == |destinations|
  {
    forall i :: 0 <= i < |fs| && !fs[i].pad && paths[i] != destinations[i] ==>
                  exists k :: 0 <= k < |ops| && ops[k].index == i
  }

  /** The whole plan: complete, and without danger to any file of the torrent. */
  predicate GoodPlan(fs: seq<FileEntry>, paths: seq<string>, destinations: seq<string>, ops: seq<MoveOperation>) {
    && |fs| == |paths| == |destinations|
    && AllOnPlan(fs, paths, destinations, ops)
    && Complete(fs, paths, destinations, ops)
    && Targets(ops) !! DataPaths(fs, paths)
    && Sources(ops) <= DataPaths(fs, paths) && Targets(ops) <= DataPaths(fs, destinations)
    && OneSource(ops)
  }

  lemma GoodPlanIntro(fs: seq<FileEntry>, paths: seq<string>, destinations: seq<string>, ops: seq<MoveOperation>)
    requires |fs| == |paths| == |destinations|
    requires AllOnPlan(fs, paths, destinations, ops) && Complete(fs, paths, destinations, ops)
    requires Targets(ops) !! DataPaths(fs, paths)
    requires Sources(ops) <= DataPaths(fs, paths) && Targets(ops) <= DataPaths(fs, destinations)
    requires OneSource(ops)
    ensures GoodPlan(fs, paths, destinations, ops)
  {
  }

  lemma GoodPlanElim(fs: seq<FileEntry>, paths: seq<string>, destinations: seq<string>, ops: seq<MoveOperation>)
    requires GoodPlan(fs, paths, destinations, ops)
    ensures |fs| == |paths| == |destinations|
    ensures AllOnPlan(fs, paths, destinations, ops) && Complete(fs, paths, destinations, ops)
    ensures Targets(ops) !! DataPaths(fs, paths)
    ensures Sources(ops) <= DataPaths(fs, paths) && Targets(ops) <= DataPaths(fs, destinations)
    ensures OneSource(ops)
  {
  }

  lemma PlanExact(fs: seq<FileEntry>, paths: seq<string>, destinations: seq<string>)
    requires |fs| == |paths| == |destinations|
    ensures AllOnPlan(fs, paths, destinations, Plan(fs, paths, destinations, |fs|))
    ensures Complete(fs, paths, destinations, Plan(fs, paths, destinations, |fs|))
  {
    PlanSound(fs, paths, destinations, |fs|);
    forall i | 0 <= i < |fs| && !fs[i].pad && paths[i] != destinations[i]
      ensures exists k :: 0 <= k < |Plan(fs, paths, destinations, |fs|)| && Plan(fs, paths, destinations, |fs|)[k].index == i
    {
      PlanComplete(fs, paths, destinations, |fs|, i);
    }
  }

  lemma PlanGood(fs: seq<FileEntry>, logical: seq<string>, root: string, newRoot: string,
                 paths: seq<string>, destinations: seq<string>)
    requires |fs| == |paths| == |destinations| == |logical|
    requires forall i :: 0 <= i < |fs| ==> paths[i] == RootedPath(root, logical[i])
    requires forall i :: 0 <= i < |fs| ==> destinations[i] == RootedPath(newRoot, logical[i])
    requires NoCollision(fs, paths, Plan(fs, paths, destinations, |fs|))
    ensures GoodPlan(fs, paths, destinations, Plan(fs, paths, destinations, |fs|))
  {
    hide *;
    var ops := Plan(fs, paths, destinations, |fs|);
    PlanExact(fs, paths, destinations);
    TargetsApart(fs, paths, destinations, ops);
    PlanOneSource(fs, paths, destinations, logical, root, newRoot, ops);
    GoodPlanIntro(fs, paths, destinations, ops);
  }

  predicate SameFiles(a: MoveOperation, b: MoveOperation) {
    a.index == b.index && a.source == b.source && a.destination == b.destination
  }

  /** Filling in sizes and decisions keeps a plan good. */
  lemma SameFilesGood(fs: seq<FileEntry>, paths: seq<string>, destinations: seq<string>,
                      plan: seq<MoveOperation>, ops: seq<MoveOperation>)
    requires GoodPlan(fs, paths, destinations, plan)
    requires |ops| == |plan| && forall k :: 0 <= k < |ops| ==> SameFiles(ops[k], plan[k])
    ensures GoodPlan(fs, paths, destinations, ops) && Targets(ops) == Targets(plan)
  {
    hide *;
    GoodPlanElim(fs, paths, destinations, plan);
    SameEnds(plan, ops);
    SameOnPlan(fs, paths, destinations, plan, ops);
    SameComplete(fs, paths, destinations, plan, ops);
    SameOneSource(plan, ops);
    GoodPlanIntro(fs, paths, destinations, ops);
  }

  lemma SameEnds(plan: seq<MoveOperation>, ops: seq<MoveOperation>)
    requires |ops| == |plan| && forall k :: 0 <= k < |ops| ==> SameFiles(ops[k], plan[k])
    ensures Targets(ops) == Targets(plan) && Sources(ops) == Sources(plan)
  {
  }

  lemma SameOnPlan(fs: seq<FileEntry>, paths: seq<string>, destinations: seq<string>,
                   plan: seq<MoveOperation>, ops: seq<MoveOperation>)
    requires |fs| == |paths| == |destinations| && AllOnPlan(fs, paths, destinations, plan)
    requires |ops| == |plan| && forall k :: 0 <= k < |ops| ==> SameFiles(ops[k], plan[k])
    ensures AllOnPlan(fs, paths, destinations, ops)
  {
    forall op | op in ops
      ensures OnPlan(fs, paths, destinations, op)
    {
      var k :| 0 <= k < |ops| && ops[k] == op;
      assert SameFiles(op, plan[k]) && plan[k] in plan;
    }
  }

  lemma SameComplete(fs: seq<FileEntry>, paths: seq<string>, destinations: seq<string>,
                     plan: seq<MoveOperation>, ops: seq<MoveOperation>)
    requires |fs| == |paths| == |destinations| && Complete(fs, paths, destinations, plan)
    requires |ops| == |plan| && forall k :: 0 <= k < |ops| ==> SameFiles(ops[k], plan[k])
    ensures Complete(fs, paths, destinations, ops)
  {
  }

  lemma SameOneSource(plan: seq<MoveOperation>, ops: seq<MoveOperation>)
    requires OneSource(plan)
    requires |ops| == |plan| && forall k :: 0 <= k < |ops| ==> SameFiles(ops[k], plan[k])
    ensures OneSource(ops)
  {
  }

  /** What the sizes asked for before copying say. */
  predicate Measured(store: Store, op: MoveOperation, flags: MoveFlags) {
    && (op.cleanup <==> op.source in store)
    && (op.copy <==> op.source in store && !(flags.DontReplace? && op.destination in store))
    && (op.source in store ==> op.sourceSize == |store[op.source]|)
  }

  /** The same path at the same state of the tree. */
  predicate SameFile(store: Store, path: string, store': Store, path': string) {
    (path in store <==> path' in store') && Content(store, path) == Content(store', path')
  }

  /** After the copies: each target holds its source's bytes, or what it held before. */
  predicate Landed(before: Store, after: Store, op: MoveOperation) {
    if op.copy then SameFile(before, op.source, after, op.destination)
    else SameFile(before, op.destination, after, op.destination)
  }

  /** Files that go to one place come from one place. */
  predicate OneSource(ops: seq<MoveOperation>) {
    forall a, b :: a in ops && b in ops && a.destination == b.destination ==> a.source == b.source
  }

  lemma PlanOneSource(fs: seq<FileEntry>, paths: seq<string>, destinations: seq<string>, logical: seq<string>,
                      root: string, newRoot: string, ops: seq<MoveOperation>)
    requires |fs| == |paths| == |destinations| == |logical|
    requires forall i :: 0 <= i < |fs| ==> paths[i] == RootedPath(root, logical[i])
    requires forall i :: 0 <= i < |fs| ==> destinations[i] == RootedPath(newRoot, logical[i])
    requires AllOnPlan(fs, paths, destinations, ops)
    ensures OneSource(ops)
  {
    forall a, b | a in ops && b in ops && a.destination == b.destination
      ensures a.source == b.source
    {
      RootedInjective(newRoot, logical[a.index], logical[b.index]);
    }
  }

  /** The state after the first n operations. */
  ghost predicate LandedUpTo(before: Store, mid: Store, ops: seq<MoveOperation>, n: nat)
    requires n <= |ops|
  {
    SameOutside(before, mid, Targets(ops[..n])) && forall k :: 0 <= k < n ==> Landed(before, mid, ops[k])
  }

  lemma TargetsGrow(ops: seq<MoveOperation>, n: nat)
    requires n < |ops|
    ensures Targets(ops[..n + 1]) == Targets(ops[..n]) + {ops[n].destination}
  {
  }

  /** One more copy. Nothing is copied over a source still needed, and a target copied before is
      the same file's. */
  lemma CopyStep(before: Store, mid: Store, after: Store, ops: seq<MoveOperation>, n: nat, flags: MoveFlags)
    requires n < |ops| && ops[n].copy && OneSource(ops) && Targets(ops) !! Sources(ops)
    requires forall op :: op in ops ==> Measured(before, op, flags)
    requires LandedUpTo(before, mid, ops, n)
    requires Copied(mid, after, ops[n].source, ops[n].destination, |Content(before, ops[n].source)|)
    ensures LandedUpTo(before, after, ops, n + 1)
  {
    hide *;
    SourceIntact(before, mid, ops, n, flags);
    CopiedIs(mid, after, ops[n].source, ops[n].destination);
    TargetsStep(before, mid, after, ops, n);
    forall k | 0 <= k < n + 1
      ensures Landed(before, after, ops[k])
    {
      CopyStepAt(before, mid, after, ops, n, flags, k);
    }
    LandedIntro(before, after, ops, n + 1);
  }

  lemma LandedIntro(before: Store, mid: Store, ops: seq<MoveOperation>, n: nat)
    requires n <= |ops| && SameOutside(before, mid, Targets(ops[..n])) && forall k :: 0 <= k < n ==> Landed(before, mid, ops[k])
    ensures LandedUpTo(before, mid, ops, n)
  {
  }

  lemma CopiedIs(mid: Store, after: Store, from: string, to: string)
    requires Copied(mid, after, from, to, |Content(mid, from)|)
    ensures from in mid && after == mid[to := mid[from]]
  {
    assert Resize(mid[from], |mid[from]|) == mid[from];
  }

  lemma SourceIntact(before: Store, mid: Store, ops: seq<MoveOperation>, n: nat, flags: MoveFlags)
    requires n < |ops| && ops[n].copy && Targets(ops) !! Sources(ops)
    requires forall op :: op in ops ==> Measured(before, op, flags)
    requires LandedUpTo(before, mid, ops, n)
    ensures ops[n].source in before && SameFile(before, ops[n].source, mid, ops[n].source)
    ensures Content(mid, ops[n].source) == Content(before, ops[n].source)
  {
    assert ops[n] in ops && ops[n].source in Sources(ops);
    assert Targets(ops[..n]) <= Targets(ops);
  }

  lemma TargetsStep(before: Store, mid: Store, after: Store, ops: seq<MoveOperation>, n: nat)
    requires n < |ops| && LandedUpTo(before, mid, ops, n)
    requires ops[n].source in mid && after == mid[ops[n].destination := mid[ops[n].source]]
    ensures SameOutside(before, after, Targets(ops[..n + 1]))
  {
  }

  lemma CopyStepAt(before: Store, mid: Store, after: Store, ops: seq<MoveOperation>, n: nat, flags: MoveFlags, k: nat)
    requires k <= n < |ops| && ops[n].copy && OneSource(ops)
    requires forall op :: op in ops ==> Measured(before, op, flags)
    requires LandedUpTo(before, mid, ops, n)
    requires ops[n].source in before && SameFile(before, ops[n].source, mid, ops[n].source)
    requires ops[n].source in mid && after == mid[ops[n].destination := mid[ops[n].source]]
    ensures Landed(before, after, ops[k])
  {
    assert ops[k] in ops && ops[n] in ops;
    if k < n {
      assert Landed(before, mid, ops[k]);
      if ops[k].destination == ops[n].destination {
        assert ops[k].source == ops[n].source;
      }
    }
  }

  /** A file that is not copied keeps what its target holds: a target copied to before would be
      its own. */
  lemma NoCopyStep(before: Store, mid: Store, ops: seq<MoveOperation>, n: nat, flags: MoveFlags)
    requires n < |ops| && !ops[n].copy && OneSource(ops)
    requires forall op :: op in ops ==> Measured(before, op, flags)
    requires LandedUpTo(before, mid, ops, n)
    ensures LandedUpTo(before, mid, ops, n + 1)
  {
    hide *;
    LandedParts(before, mid, ops, n);
    TargetsGrow(ops, n);
    SameOutsideWider(before, mid, Targets(ops[..n]), Targets(ops[..n + 1]));
    NotCopied(before, mid, ops, n, flags);
    LandedIntro(before, mid, ops, n + 1);
  }

  lemma LandedParts(before: Store, mid: Store, ops: seq<MoveOperation>, n: nat)
    requires n <= |ops| && LandedUpTo(before, mid, ops, n)
    ensures SameOutside(before, mid, Targets(ops[..n])) && forall k :: 0 <= k < n ==> Landed(before, mid, ops[k])
  {
  }

  lemma NotCopied(before: Store, mid: Store, ops: seq<MoveOperation>, n: nat, flags: MoveFlags)
    requires n < |ops| && !ops[n].copy && OneSource(ops)
    requires forall op :: op in ops ==> Measured(before, op, flags)
    requires LandedUpTo(before, mid, ops, n)
    ensures Landed(before, mid, ops[n])
  {
    assert ops[n] in ops;
    if k :| 0 <= k < n && ops[k].destination == ops[n].destination {
      assert ops[k] in ops;
      assert ops[k].source == ops[n].source;
      assert Landed(before, mid, ops[k]);
    } else {
      NotATarget(ops, n, ops[n].destination);
    }
  }

  lemma NotATarget(ops: seq<MoveOperation>, n: nat, path: string)
    requires n <= |ops| && forall k :: 0 <= k < n ==> ops[k].destination != path
    ensures path !in Targets(ops[..n])
  {
  }

  /** What a finished move leaves of one file: its bytes are at the new path, unless it had none
      there to bring or an existing file was to be kept. */
  predicate Moved(before: Store, after: Store, path: string, path': string, flags: MoveFlags) {
    if path == path' then SameFile(before, path, after, path)
    else if path in before && !(flags.DontReplace? && path' in before) then SameFile(before, path, after, path')
    else SameFile(before, path', after, path')
  }

  /** The file would be replaced by what is at the new path already. */
  predicate Adopts(before: Store, path: string, path': string, flags: MoveFlags) {
    path != path' && path' in before && (path !in before || flags.DontReplace?)
  }

  /** After copies and clean-up the whole new layout is in place. */
  lemma LayoutMoved(fs: seq<FileEntry>, paths: seq<string>, destinations: seq<string>,
                    before: Store, mid: Store, after: Store, ops: seq<MoveOperation>, flags: MoveFlags)
    requires GoodPlan(fs, paths, destinations, ops) && forall op :: op in ops ==> Measured(before, op, flags)
    requires LandedUpTo(before, mid, ops, |ops|)
    requires forall i :: 0 <= i < |fs| ==> SameFile(mid, destinations[i], after, destinations[i])
    ensures forall i :: 0 <= i < |fs| && !fs[i].pad ==> Moved(before, after, paths[i], destinations[i], flags)
  {
    assert ops[..|ops|] == ops;
    forall i | 0 <= i < |fs| && !fs[i].pad
      ensures Moved(before, after, paths[i], destinations[i], flags)
    {
      if paths[i] == destinations[i] {
        assert paths[i] in DataPaths(fs, paths);
      } else {
        var k :| 0 <= k < |ops| && ops[k].index == i;
        assert ops[k] in ops;
        assert Landed(before, mid, ops[k]);
      }
    }
  }

  /** Only files that moved away are deleted, and none that the new layout names. */
  ghost predicate Cleaned(mid: Store, after: Store, ops: seq<MoveOperation>, destinations: seq<string>) {
    && SameOutside(mid, after, Sources(ops))
    && (forall path :: path in destinations ==> SameFile(mid, path, after, path))
    && (forall path :: path in after ==> path in mid && after[path] == mid[path])
  }

  lemma CleanNothing(store: Store, ops: seq<MoveOperation>, destinations: seq<string>)
    ensures Cleaned(store, store, ops, destinations)
  {
  }

  lemma CleanOne(mid: Store, store: Store, ops: seq<MoveOperation>, destinations: seq<string>, op: MoveOperation)
    requires Cleaned(mid, store, ops, destinations) && op in ops && op.source !in destinations
    ensures Cleaned(mid, store - {op.source}, ops, destinations)
  {
  }

  /** The removals the clean-up asks for, in order. */
  function Removals(ops: seq<MoveOperation>, destinations: seq<string>, n: nat): seq<string>
    requires n <= |ops|
  {
    if n == 0 then []
    else
      var before := Removals(ops, destinations, n - 1);
      if ops[n - 1].cleanup && ops[n - 1].source !in destinations then before + [ops[n - 1].source] else before
  }

  /** File i has left its old path, where it existed, for good. */
  predicate Abandoned(fs: seq<FileEntry>, paths: seq<string>, destinations: seq<string>, store: Store, i: nat)
    requires |fs| == |paths| == |destinations|
  {
    i < |fs| && !fs[i].pad && paths[i] != destinations[i] && paths[i] in store && paths[i] !in destinations
  }

  lemma {:induction false} RemovalsMembers(ops: seq<MoveOperation>, destinations: seq<string>, n: nat, path: string)
    requires n <= |ops|
    ensures path in Removals(ops, destinations, n) <==>
            exists k :: 0 <= k < n && ops[k].cleanup && ops[k].source !in destinations && ops[k].source == path
  {
    if n > 0 {
      RemovalsMembers(ops, destinations, n - 1, path);
    }
  }

  /** They are the old paths of exactly the files that left them for good. */
  lemma RemovalsExact(fs: seq<FileEntry>, paths: seq<string>, destinations: seq<string>, ops: seq<MoveOperation>,
                      store: Store, flags: MoveFlags, path: string)
    requires GoodPlan(fs, paths, destinations, ops) && forall op :: op in ops ==> Measured(store, op, flags)
    ensures path in Removals(ops, destinations, |ops|) <==>
            exists i :: 0 <= i < |fs| && Abandoned(fs, paths, destinations, store, i) && paths[i] == path
  {
    RemovalsMembers(ops, destinations, |ops|, path);
    if k :| 0 <= k < |ops| && ops[k].cleanup && ops[k].source !in destinations && ops[k].source == path {
      assert ops[k] in ops && OnPlan(fs, paths, destinations, ops[k]) && Measured(store, ops[k], flags);
      assert Abandoned(fs, paths, destinations, store, ops[k].index);
    }
    if i :| 0 <= i < |fs| && Abandoned(fs, paths, destinations, store, i) && paths[i] == path {
      var k :| 0 <= k < |ops| && ops[k].index == i;
      assert ops[k] in ops && OnPlan(fs, paths, destinations, ops[k]) && Measured(store, ops[k], flags);
    }
  }

  /** What the clean-up asked for: the old paths of the files that left them, no other. */
  ghost predicate AskedToRemove(fs: seq<FileEntry>, paths: seq<string>, destinations: seq<string>, store: Store,
                                asked: seq<string>)
    requires |fs| == |paths| == |destinations|
  {
    forall path :: path in asked <==>
                   exists i :: 0 <= i < |fs| && Abandoned(fs, paths, destinations, store, i) && paths[i] == path
  }

  lemma RemovalsAsked(fs: seq<FileEntry>, paths: seq<string>, destinations: seq<string>, ops: seq<MoveOperation>,
                      store: Store, flags: MoveFlags)
    requires GoodPlan(fs, paths, destinations, ops) && forall op :: op in ops ==> Measured(store, op, flags)
    ensures |fs| == |paths| == |destinations|
    ensures AskedToRemove(fs, paths, destinations, store, Removals(ops, destinations, |ops|))
  {
    forall path
      ensures path in Removals(ops, destinations, |ops|) <==>
              exists i :: 0 <= i < |fs| && Abandoned(fs, paths, destinations, store, i) && paths[i] == path
    {
      RemovalsExact(fs, paths, destinations, ops, store, flags, path);
    }
  }

  // ---- What a move means for the flat array

  /** If every file that keeps its bytes in a public file has them at its new path, and the part
      file is as it was, the torrent reads as before. */
  lemma FlatMoved(t: Torrent, t': Torrent, before: Store, after: Store)
    requires t.WellFormed() && t'.WellFormed()
    requires t'.files == t.files && t'.priorities == t.priorities && t'.part == t.part
    requires Content(before, t.part) == Content(after, t.part)
    requires forall i :: 0 <= i < |t.files| && !t.files[i].pad && !t.Skipped(i) ==>
                           SameFile(before, t.paths[i], after, t'.paths[i])
    ensures Flat(t', after) == Flat(t, before)
    ensures KeepsPresent(t, before, t', after)
  {
    forall p | 0 <= p < Total(t.files)
      ensures FlatByte(t', after, p) == FlatByte(t, before, p)
      ensures Present(t, before, p) ==> Present(t', after, p)
    {
      var i := FileAt(t.files, p);
      if !t.files[i].pad && !t.Skipped(i) {
        assert SameFile(before, t.paths[i], after, t'.paths[i]);
      }
    }
  }

  /** A reader of the first `size` bytes who finds one content in place of another notices nothing. */
  predicate SameReading(was: seq<byte>, now: seq<byte>, size: nat) {
    forall o: nat :: o < size ==> ByteOrZero(now, o) == ByteOrZero(was, o) && (o < |was| ==> o < |now|)
  }

  /** Every file that is replaced by what is at its new path already reads the same there. */
  predicate AdoptsAlike(t: Torrent, t': Torrent, before: Store, flags: MoveFlags)
    requires t.WellFormed() && t'.WellFormed() && t'.files == t.files
  {
    forall i :: 0 <= i < |t.files| && !t.files[i].pad && !t.Skipped(i) && Adopts(before, t.paths[i], t'.paths[i], flags) ==>
                  SameReading(Content(before, t.paths[i]), Content(before, t'.paths[i]), t.files[i].size)
  }

  /** A move keeps the torrent's bytes exactly if whatever it adopts reads like what it leaves. */
  lemma MoveKeepsExactly(t: Torrent, t': Torrent, before: Store, after: Store, flags: MoveFlags)
    requires t.WellFormed() && t'.WellFormed()
    requires t'.files == t.files && t'.priorities == t.priorities && t'.part == t.part
    requires t.part !in DataPaths(t.files, t.paths) + DataPaths(t.files, t'.paths)
    requires SameOutside(before, after, DataPaths(t.files, t.paths) + DataPaths(t.files, t'.paths))
    requires forall i :: 0 <= i < |t.files| && !t.files[i].pad ==> Moved(before, after, t.paths[i], t'.paths[i], flags)
    ensures Flat(t', after) == Flat(t, before) && KeepsPresent(t, before, t', after) <==> AdoptsAlike(t, t', before, flags)
  {
    forall i | 0 <= i < |t.files| && !t.files[i].pad
      ensures FileKept(t, before, t', after, i) <==>
              (!t.Skipped(i) && Adopts(before, t.paths[i], t'.paths[i], flags) ==>
                 SameReading(Content(before, t.paths[i]), Content(before, t'.paths[i]), t.files[i].size))
    {
      MovedReads(t, t', before, after, flags, i);
    }
    if AdoptsAlike(t, t', before, flags) {
      FlatByFiles(t, before, t', after);
    }
    if Flat(t', after) == Flat(t, before) && KeepsPresent(t, before, t', after) {
      forall i | 0 <= i < |t.files| && !t.files[i].pad
        ensures FileKept(t, before, t', after, i)
      {
        FilesByFlat(t, before, t', after, i);
      }
    }
  }

  lemma KeptUnskipped(t: Torrent, before: Store, t': Torrent, after: Store, i: nat)
    requires t.WellFormed() && t'.WellFormed() && t.files == t'.files && i < |t.files|
    requires !t.Skipped(i) && !t'.Skipped(i)
    ensures FileKept(t, before, t', after, i) <==>
            SameReading(Content(before, t.paths[i]), Content(after, t'.paths[i]), t.files[i].size)
  {
    var was, now := Content(before, t.paths[i]), Content(after, t'.paths[i]);
    if FileKept(t, before, t', after, i) {
      forall o: nat | o < t.files[i].size
        ensures ByteOrZero(now, o) == ByteOrZero(was, o) && (o < |was| ==> o < |now|)
      {
        assert t.HomeOffset(i, o) == o && t'.HomeOffset(i, o) == o;
      }
    }
  }

  lemma MovedReads(t: Torrent, t': Torrent, before: Store, after: Store, flags: MoveFlags, i: nat)
    requires t.WellFormed() && t'.WellFormed()
    requires t'.files == t.files && t'.priorities == t.priorities && t'.part == t.part
    requires i < |t.files| && !t.files[i].pad && Content(after, t.part) == Content(before, t.part)
    requires Moved(before, after, t.paths[i], t'.paths[i], flags)
    ensures FileKept(t, before, t', after, i) <==>
            (!t.Skipped(i) && Adopts(before, t.paths[i], t'.paths[i], flags) ==>
               SameReading(Content(before, t.paths[i]), Content(before, t'.paths[i]), t.files[i].size))
  {
    if !t.Skipped(i) {
      KeptUnskipped(t, before, t', after, i);
      var adopts := Adopts(before, t.paths[i], t'.paths[i], flags);
      assert Content(after, t'.paths[i]) == Content(before, if adopts then t'.paths[i] else t.paths[i]);
    } else {
      assert t'.HomePath(i) == t.HomePath(i);
    }
  }

  /** A move that finds nothing to adopt keeps the flat array. */
  lemma MoveKeepsFlat(t: Torrent, t': Torrent, before: Store, after: Store, flags: MoveFlags)
    requires t.WellFormed() && t'.WellFormed()
    requires t'.files == t.files && t'.priorities == t.priorities && t'.part == t.part
    requires t.part !in DataPaths(t.files, t.paths) + DataPaths(t.files, t'.paths)
    requires SameOutside(before, after, DataPaths(t.files, t.paths) + DataPaths(t.files, t'.paths))
    requires forall i :: 0 <= i < |t.files| && !t.files[i].pad ==> Moved(before, after, t.paths[i], t'.paths[i], flags)
    requires forall i :: 0 <= i < |t.files| && !t.files[i].pad && !t.Skipped(i) ==>
                           !Adopts(before, t.paths[i], t'.paths[i], flags)
    ensures Flat(t', after) == Flat(t, before)
    ensures KeepsPresent(t, before, t', after)
  {
    MoveKeepsExactly(t, t', before, after, flags);
  }

  /** With `dont_replace` a file of other contents in the way takes the place of the torrent's data,
      and the clean-up removes what was there: one file, moved from "a" to "r/a". */
  lemma AdoptingLosesData() returns (t: Torrent, t': Torrent, before: Store, after: Store)
    ensures t.Distinct() && t'.Distinct() && t'.files == t.files && t'.priorities == t.priorities && t'.part == t.part
    ensures |t.files| == 1 && !t.files[0].pad && t.paths == ["a"] && t'.paths == ["r/a"]
    ensures Moved(before, after, t.paths[0], t'.paths[0], DontReplace) && "a" in before && "a" !in after
    ensures SameOutside(before, after, {"a"})
    ensures !AdoptsAlike(t, t', before, DontReplace) && Flat(t', after) != Flat(t, before)
  {
    t := Torrent([FileEntry(1, false)], [4], ["a"], "p");
    t' := t.(paths := ["r/a"]);
    before := map["a" := [1], "r/a" := [2]];
    after := before - {"a"};
    assert "r/a"[0] != "a"[0];
    FileAtUnique(t.files, 0, 0);
    assert ByteOrZero(before["a"], 0) != ByteOrZero(before["r/a"], 0);
    assert Flat(t, before)[0] == 1 && Flat(t', after)[0] == 2;
  }

  /** Where the public files are looked for next, they read like those where they were. */
  predicate ReadsAlike(t: Torrent, t': Torrent, store: Store)
    requires t.WellFormed() && t'.WellFormed() && t'.files == t.files
  {
    forall i :: 0 <= i < |t.files| && !t.files[i].pad && !t.Skipped(i) ==>
                  SameReading(Content(store, t.paths[i]), Content(store, t'.paths[i]), t.files[i].size)
  }

  /** A change of the root alone moves no file: the torrent reads as before exactly if the files it
      finds there read like its own. */
  lemma RerootKeepsExactly(t: Torrent, t': Torrent, store: Store)
    requires t.WellFormed() && t'.WellFormed()
    requires t'.files == t.files && t'.priorities == t.priorities && t'.part == t.part
    ensures Flat(t', store) == Flat(t, store) && KeepsPresent(t, store, t', store) <==> ReadsAlike(t, t', store)
  {
    forall i | 0 <= i < |t.files| && !t.files[i].pad
      ensures FileKept(t, store, t', store, i) <==>
              (!t.Skipped(i) ==>
                 SameReading(Content(store, t.paths[i]), Content(store, t'.paths[i]), t.files[i].size))
    {
      if !t.Skipped(i) {
        KeptUnskipped(t, store, t', store, i);
      } else {
        assert t'.HomePath(i) == t.HomePath(i);
      }
    }
    if ReadsAlike(t, t', store) {
      FlatByFiles(t, store, t', store);
    }
    if Flat(t', store) == Flat(t, store) && KeepsPresent(t, store, t', store) {
      forall i | 0 <= i < |t.files| && !t.files[i].pad
        ensures FileKept(t, store, t', store, i)
      {
        FilesByFlat(t, store, t', store, i);
      }
    }
  }

  /** A file of one byte, and a new root below which there is nothing. */
  lemma RerootLosesData() returns (t: Torrent, t': Torrent, store: Store)
    ensures t.Distinct() && t'.Distinct() && t' == t.(paths := ["r/a"]) && t.paths == ["a"] && |t.files| == 1
    ensures "a" in store && !ReadsAlike(t, t', store) && Flat(t', store) != Flat(t, store)
  {
    t := Torrent([FileEntry(1, false)], [4], ["a"], "p");
    t' := t.(paths := ["r/a"]);
    store := map["a" := [1]];
    assert "r/a"[0] != "a"[0];
    FileAtUnique(t.files, 0, 0);
    assert ByteOrZero(Content(store, "a"), 0) != ByteOrZero(Content(store, "r/a"), 0);
    assert Flat(t, store)[0] == 1 && Flat(t', store)[0] == 0;
  }

  /** The assumption on names survives a move exactly if no file moves onto the part file. */
  lemma MoveKeepsDistinct(t: Torrent, t': Torrent, logical: seq<string>, root: string, newRoot: string)
    requires t.Distinct() && t'.WellFormed() && t'.files == t.files && t'.part == t.part && |logical| == |t.files|
    requires forall i :: 0 <= i < |t.files| ==> t.paths[i] == RootedPath(root, logical[i])
    requires forall i :: 0 <= i < |t.files| ==> t'.paths[i] == RootedPath(newRoot, logical[i])
    ensures t'.Distinct() <==> t.part !in DataPaths(t.files, t'.paths)
  {
    forall i, j | 0 <= i < j < |t.files| && !t.files[i].pad && !t.files[j].pad
      ensures t'.paths[i] != t'.paths[j]
    {
      RootedInjective(newRoot, logical[i], logical[j]);
    }
  }
}
