/** Which descriptors may be cached while a torrent is live. */
module SettledKeys {
  import opened Layout
  import opened FlatView
  import opened Descriptors
  import opened Torrents

  /** The key of a descriptor this torrent opened: for one of its files under the file's present
      path, or for its part file. */
  predicate Tracked(key: FileKey, t: Torrent)
    requires t.WellFormed()
  {
    || (key.file == -1 && key.path == t.part)
    || (0 <= key.file < |t.files| && !t.files[key.file].pad && key.path == t.paths[key.file])
  }

  /** The storage's entries are tracked, and no other storage's is at a path of the torrent: live
      torrents keep their data at different paths. */
  predicate Settled(keys: set<FileKey>, storage: nat, t: Torrent)
    requires t.WellFormed()
  {
    forall key :: key in keys ==>
                    if key.storage == storage then Tracked(key, t) else key.path !in t.Footprint()
  }

  lemma SettledSubset(keys: set<FileKey>, fewer: set<FileKey>, storage: nat, t: Torrent)
    requires t.WellFormed() && Settled(keys, storage, t) && fewer <= keys
    ensures Settled(fewer, storage, t)
  {
  }

  lemma SettledSamePaths(keys: set<FileKey>, storage: nat, t: Torrent, t': Torrent)
    requires t.WellFormed() && t'.WellFormed() && Settled(keys, storage, t)
    requires t'.files == t.files && t'.paths == t.paths && t'.part == t.part
    ensures Settled(keys, storage, t')
  {
  }

  /** Opening the torrent's own files keeps it settled. */
  lemma SettledHome(keys: set<FileKey>, more: set<FileKey>, storage: nat, torrent: TorrentStorage)
    requires torrent.Valid() && torrent.View().WellFormed()
    requires Settled(keys, storage, torrent.View()) && more <= keys + torrent.HomeKeys(storage)
    ensures Settled(more, storage, torrent.View())
    ensures forall key :: key in more && key !in keys ==> key.storage == storage
  {
  }

  /** With a file's own entries closed nobody has its public file open. */
  lemma NobodyHasFile(ds: seq<OpenDescriptor>, storage: nat, t: Torrent, i: nat)
    requires t.Distinct() && i < |t.files| && !t.files[i].pad && Settled(Keys(ds), storage, t)
    requires forall d :: d in ds ==> !(d.storage == storage && d.file == i)
    ensures forall d :: d in ds ==> d.path != t.paths[i]
  {
    FdsKeysMembers(ds);
    forall d | d in ds
      ensures d.path != t.paths[i]
    {
      assert d.Key() in Keys(ds);
      assert t.paths[i] in t.Footprint();
    }
  }

  lemma NobodyHasPart(ds: seq<OpenDescriptor>, storage: nat, t: Torrent)
    requires t.Distinct() && Settled(Keys(ds), storage, t)
    requires forall d :: d in ds ==> !(d.storage == storage && d.file == -1)
    ensures forall d :: d in ds ==> d.path != t.part
  {
    FdsKeysMembers(ds);
    forall d | d in ds
      ensures d.path != t.part
    {
      assert d.Key() in Keys(ds);
    }
  }
}
