/** The per-torrent state of the disk backend. */
module Torrents {
  import opened Errors
  import opened Layout
  import opened Paths
  import opened FlatView
  import opened Bridges
  import opened Descriptors

  const DEFAULT_PRIORITY: nat := 4

  /** `vector::resize(n, default_priority)`. */
  function ResizePriorities(priorities: seq<nat>, n: nat): (r: seq<nat>)
    ensures |r| == n
    ensures forall i :: 0 <= i < n ==> r[i] == if i < |priorities| then priorities[i] else DEFAULT_PRIORITY
  {
    if |priorities| >= n then priorities[..n] else priorities + seq(n - |priorities|, _ => DEFAULT_PRIORITY)
  }

  function RootedPaths(root: string, logical: seq<string>): (r: seq<string>)
    ensures |r| == |logical|
    ensures forall i :: 0 <= i < |r| ==> r[i] == RootedPath(root, logical[i])
  {
    seq(|logical|, i requires 0 <= i < |logical| => RootedPath(root, logical[i]))
  }

  class TorrentStorage {
    const files: FileStorage
    const partPath: string
    var priorities: seq<nat>
    var logicalPaths: seq<string>
    var paths: seq<string>
    var saveRoot: string

    /** Every path is the save root joined to the logical path. */
    ghost predicate Valid()
      reads this
    {
      && files.Valid()
      && |priorities| == |files.entries| && |logicalPaths| == |files.entries|
      && paths == RootedPaths(saveRoot, logicalPaths)
    }

    function View(): Torrent
      reads this
    {
      Torrent(files.entries, priorities, paths, partPath)
    }

    lemma Lengths()
      requires Valid()
      ensures |priorities| == |files.entries| && |logicalPaths| == |files.entries| && |paths| == |files.entries|
      ensures paths == RootedPaths(saveRoot, logicalPaths)
    {
    }

    lemma ViewWellFormed()
      requires Valid()
      ensures View().WellFormed() && View().files == files.entries
    {
    }

    lemma ViewParts()
      requires Valid()
      ensures View().files == files.entries && View().paths == paths && View().part == partPath
      ensures View().priorities == priorities
      ensures |priorities| == |files.entries| && |paths| == |files.entries|
    {
    }

    /** What the bridge is handed for this torrent never leaves the granted tree. */
    ghost predicate PathsSafe()
      reads this`saveRoot, this`logicalPaths
    {
      SafeRoot(saveRoot) && forall i :: 0 <= i < |logicalPaths| ==> Safe(logicalPaths[i])
    }

    lemma PathsSafeIs()
      ensures PathsSafe() <==> SafeRoot(saveRoot) && forall i :: 0 <= i < |logicalPaths| ==> Safe(logicalPaths[i])
      ensures PathsSafe() <==> SafeNaming(Names())
    {
    }

    /** What the paths follow from. */
    function Names(): Naming
      reads this`saveRoot, this`logicalPaths
    {
      Naming(saveRoot, logicalPaths)
    }

    lemma NamesAre()
      ensures Names() == Naming(saveRoot, logicalPaths)
    {
    }

    lemma EveryPathSafe()
      requires Valid() && PathsSafe()
      ensures forall i :: 0 <= i < |paths| ==> Safe(paths[i])
    {
      forall i | 0 <= i < |paths|
        ensures Safe(paths[i])
      {
        RootedSafe(saveRoot, logicalPaths[i]);
      }
    }

    constructor (files: FileStorage, priorities: seq<nat>, root: string, logical: seq<string>, infoHash: string)
      requires files.Valid() && |logical| == |files.entries|
      ensures Valid() && this.files == files && saveRoot == root && logicalPaths == logical
      ensures this.priorities == ResizePriorities(priorities, |files.entries|)
      ensures partPath == ".flow-parts/" + infoHash + ".parts"
    {
      this.files := files;
      this.priorities := ResizePriorities(priorities, |files.entries|);
      saveRoot := root;
      logicalPaths := logical;
      paths := RootedPaths(root, logical);
      partPath := ".flow-parts/" + infoHash + ".parts";
    }

    predicate Skipped(i: nat)
      reads this
    {
      i < |priorities| && priorities[i] == DONT_DOWNLOAD
    }

    lemma SkippedIs(i: nat)
      requires Valid() && i < |files.entries|
      ensures Skipped(i) <==> View().Skipped(i)
    {
    }

    /** The key under which the file that holds file i's bytes is cached. */
    ghost function HomeKey(storage: nat, i: nat): FileKey
      reads this
      requires Valid() && i < |files.entries|
    {
      FileKey(storage, if Skipped(i) then -1 else i, View().HomePath(i))
    }

    /** The keys all descriptors of the torrent are cached under. */
    ghost function HomeKeys(storage: nat): set<FileKey>
      reads this
      requires Valid()
    {
      set i | 0 <= i < |files.entries| && !files.entries[i].pad :: HomeKey(storage, i)
    }

    lemma HomeKeyListed(storage: nat, i: nat)
      requires Valid() && i < |files.entries| && !files.entries[i].pad
      ensures HomeKey(storage, i) in HomeKeys(storage)
    {
    }

    method SetPriority(index: nat, priority: nat)
      requires Valid() && index < |priorities|
      modifies this`priorities
      ensures Valid() && priorities == old(priorities)[index := priority]
      ensures View() == old(View()).(priorities := priorities)
    {
      priorities := priorities[index := priority];
    }

    method SetPath(index: nat, name: string)
      requires Valid() && index < |paths| == |logicalPaths|
      modifies this`logicalPaths, this`paths
      ensures Valid() && |old(paths)| == |old(logicalPaths)| && index < |old(paths)|
      ensures logicalPaths == old(logicalPaths)[index := name]
      ensures paths == old(paths)[index := RootedPath(saveRoot, name)]
    {
      logicalPaths := logicalPaths[index := name];
      paths := paths[index := RootedPath(saveRoot, name)];
      assert paths == RootedPaths(saveRoot, logicalPaths);
    }

    method SetSaveRoot(root: string)
      requires Valid()
      modifies this`saveRoot, this`paths
      ensures Valid() && saveRoot == NormalizedSaveRoot(root)
    {
      saveRoot := NormalizedSaveRoot(root);
      for index := 0 to |paths|
        invariant saveRoot == NormalizedSaveRoot(root) && |paths| == |logicalPaths|
        invariant forall k :: 0 <= k < index ==> paths[k] == RootedPath(saveRoot, logicalPaths[k])
      {
        paths := paths[index := RootedPath(saveRoot, logicalPaths[index])];
      }
      assert paths == RootedPaths(saveRoot, logicalPaths);
    }
  }

  /** The bridge is only handed good paths for this torrent. */
  predicate HomesSafe(t: Torrent)
    requires t.WellFormed()
  {
    forall i :: 0 <= i < |t.files| && !t.files[i].pad ==> Safe(t.HomePath(i))
  }

  /** The hash, being hexadecimal, makes a safe path of the part file. */
  lemma PartPathSafe(infoHash: string)
    requires '/' !in infoHash && '\\' !in infoHash && '\0' !in infoHash
    ensures Safe(".flow-parts/" + infoHash + ".parts")
  {
    hide *;
    var name := infoHash + ".parts";
    assert ".flow-parts/" + infoHash + ".parts" == ".flow-parts" + "/" + name;
    SafeJoin(".flow-parts", name);
    OneComponent(".flow-parts");
    assert |name| > 2;
    OneComponent(name);
  }

  lemma OneComponent(c: string)
    requires |c| > 2 && '/' !in c && '\\' !in c && '\0' !in c
    ensures Safe(c)
  {
    SplitWhole(c);
  }

  /** Safe names and a part file with a safe path make all of them safe. */
  lemma HomesAreSafe(torrent: TorrentStorage)
    requires torrent.Valid() && torrent.PathsSafe() && Safe(torrent.partPath)
    ensures torrent.View().WellFormed() && HomesSafe(torrent.View())
  {
    torrent.EveryPathSafe();
  }

  lemma HomeSafe(t: Torrent, i: nat)
    requires t.WellFormed() && i < |t.files| && !t.files[i].pad
    ensures HomesSafe(t) ==> Safe(t.HomePath(i))
    ensures !t.Skipped(i) ==> t.HomePath(i) == t.paths[i]
  {
  }

  datatype Rejection = Accepted | InvalidRoot | RejectedRoot | ValidationFailed(code: StorageError)

  /** Makes the storage of a new torrent, unless its save root is refused. */
  method CreateTorrentStorage(bridge: Bridge, files: FileStorage, priorities: seq<nat>, path: string,
                              filePaths: seq<string>, infoHash: string)
    returns (torrent: TorrentStorage?, rejection: Rejection)
    requires files.Valid() && |filePaths| == |files.entries|
    modifies bridge`faults
    ensures bridge.faults >= old(bridge.faults)
    ensures torrent != null <==> rejection.Accepted?
    ensures torrent != null ==>
              && fresh(torrent) && torrent.Valid()
              && torrent.files == files && torrent.logicalPaths == filePaths
              && torrent.saveRoot == NormalizedSaveRoot(path)
              && torrent.priorities == ResizePriorities(priorities, |files.entries|)
              && torrent.partPath == ".flow-parts/" + infoHash + ".parts"
              && ((forall i :: 0 <= i < |filePaths| ==> Safe(filePaths[i])) ==> torrent.PathsSafe())
              // With names like these no job will fail for its paths.
              && (torrent.PathsSafe() && '/' !in infoHash && '\\' !in infoHash && '\0' !in infoHash ==>
                    torrent.View().WellFormed() && HomesSafe(torrent.View()))
    ensures !SafeRoot(NormalizedSaveRoot(path)) ==> rejection == InvalidRoot
    ensures NormalizedSaveRoot(path) == "" ==> rejection.Accepted?
    ensures SafeRoot(NormalizedSaveRoot(path)) && bridge.faults == old(bridge.faults) ==> rejection.Accepted?
  {
    var root := NormalizedSaveRoot(path);
    if root != "" {
      var safe := SafeRelativePath(root);
      if !safe {
        return null, InvalidRoot;
      }
      var result := bridge.ValidatePath(root);
      if result == -EINVAL {
        return null, RejectedRoot;
      }
      if result < 0 {
        return null, ValidationFailed(MakeError(result, -1, FileOpen));
      }
    }
    torrent := new TorrentStorage(files, priorities, root, filePaths, infoHash);
    if torrent.PathsSafe() && '/' !in infoHash && '\\' !in infoHash && '\0' !in infoHash {
      PartPathSafe(infoHash);
      HomesAreSafe(torrent);
    }
    return torrent, Accepted;
  }
}
