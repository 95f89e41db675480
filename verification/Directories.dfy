/** Making the directories above a file. */
module Directories {
  import opened Errors
  import opened Paths
  import opened Bridges

  /** Asks for the strict ancestors of the path, outermost first, up to the first that cannot be
      made; one that exists already is fine. Nothing is asked for an unsafe path. `asked` counts
      the requests. */
  method EnsureParentDirectories(bridge: Bridge, path: string, file: int)
    returns (ok: bool, error: StorageError, ghost asked: nat)
    modifies bridge`directories, bridge`faults
    ensures bridge.faults >= old(bridge.faults)
    ensures !ok && Safe(path) ==> bridge.faults > old(bridge.faults)
    ensures ok <==> error.NoError?
    ensures !ok ==> error.code.Errno? && error.file == file
    ensures ok ==> Safe(path) && asked == |Ancestors(path)|
    ensures !Safe(path) ==> asked == 0 && error == InvalidArgument(file, Mkdir)
    ensures asked <= |Ancestors(path)| && bridge.directories == old(bridge.directories) + Ancestors(path)[..asked]
  {
    var safe := SafeRelativePath(path);
    if !safe {
      return false, InvalidArgument(file, Mkdir), 0;
    }
    ghost var before, all := bridge.directories, Ancestors(path);
    var separator := Find(path, '/', 0);
    asked := 0;
    while separator != |path|
      invariant separator <= |path| && asked <= |all|
      invariant AncestorsFrom(path, separator) == all[asked..]
      invariant bridge.directories == before + all[..asked] && bridge.faults >= old(bridge.faults)
      decreases |path| - separator
    {
      var directory := path[..separator];
      var result := bridge.CreateDirectory(directory);
      NextAncestor(path, separator, all, asked);
      asked := asked + 1;
      if result < 0 && result != -EEXIST {
        return false, MakeError(result, file, Mkdir), asked;
      }
      separator := Find(path, '/', separator + 1);
    }
    return true, NoError, asked;
  }

  lemma NextAncestor(path: string, separator: nat, all: seq<string>, asked: nat)
    requires separator < |path| && asked <= |all| && AncestorsFrom(path, separator) == all[asked..]
    ensures asked < |all| && all[..asked + 1] == all[..asked] + [path[..separator]]
    ensures AncestorsFrom(path, Find(path, '/', separator + 1)) == all[asked + 1..]
  {
  }
}
