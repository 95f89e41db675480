/** The job that checks a torrent's files: against resume data that claims something, or from
    scratch. */
module CheckFilesJob {
  import opened Bytes
  import opened Errors
  import opened Layout
  import opened FlatView
  import opened Bridges
  import opened Descriptors
  import opened DescriptorCaches
  import opened Torrents
  import opened Migration
  import opened Priorities
  import opened FileJobs
  import opened Resume

  datatype ResumeData = NoResumeData | ResumeData(have: seq<bool>, seed: bool)
  {
    /** The data claims pieces, or all of them. */
    predicate Claims() {
      ResumeData? && (seed || have != [])
    }
  }

  /** When resume data asks for a full check. */
  predicate CheckDue(files: FileStorage, t: Torrent, store: Store, resume: ResumeData)
    requires t.WellFormed() && files.Valid() && resume.ResumeData?
  {
    if Full(files, resume.have, resume.seed) then AnyMissized(t, resume.seed, store, |t.files|)
    else AnyNeededMissing(files, t, resume.have, resume.seed, store, Min(|resume.have|, files.NumPieces()))
  }

  /** When it says that a file is too long: sizes count only if all pieces are claimed. */
  predicate TooLong(files: FileStorage, t: Torrent, store: Store, resume: ResumeData)
    requires t.WellFormed() && files.Valid() && resume.ResumeData?
  {
    Full(files, resume.have, resume.seed) && AnyOversized(t, resume.seed, store, |t.files|)
  }

  /** `async_check_files`. Hard links are refused; claims are only compared with the files there are,
      and without any the files are brought to size. */
  method CheckFiles(cache: DescriptorCache, torrent: TorrentStorage, storage: nat, resume: ResumeData, links: bool)
    returns (status: Status, error: StorageError)
    requires cache.Valid() && torrent.Valid() && torrent.View().Distinct() && torrent.View().WellFormed()
    modifies cache`descriptors, cache`recency, cache`useCounter
    modifies cache.bridge`names, cache.bridge`bodies, cache.bridge`handles, cache.bridge`directories, cache.bridge`queries
    modifies cache.bridge`faults
    ensures cache.bridge.faults >= old(cache.bridge.faults)
    ensures cache.Valid()
    ensures Keys(cache.descriptors) <= Keys(old(cache.descriptors)) + torrent.HomeKeys(storage)
    ensures Preserved(torrent.View(), old(cache.bridge.Contents()), torrent.View(), cache.bridge.Contents())
    ensures status.fatalDiskError <==> error.Failed?
    // Unless the bridge fails, only links and unsafe paths make it fail.
    ensures error.Failed? && cache.bridge.faults == old(cache.bridge.faults) ==>
              links || (!resume.Claims() && !HomesSafe(torrent.View()))
    ensures links ==> error == Failed(Errno(EOPNOTSUPP), -1, FileHardLink)
    ensures links || resume.Claims() ==>
              cache.bridge.Contents() == old(cache.bridge.Contents()) && cache.descriptors == old(cache.descriptors)
    ensures error.NoError? && resume.Claims() ==>
              && torrent.files.Valid()
              && (status.needFullCheck <==> CheckDue(torrent.files, torrent.View(), cache.bridge.Contents(), resume))
              && (status.oversizedFile <==> TooLong(torrent.files, torrent.View(), cache.bridge.Contents(), resume))
    // Nothing else happens to the tree, whatever fails.
    ensures !links && !resume.Claims() ==>
              EachSized(torrent.View(), old(cache.bridge.Contents()), cache.bridge.Contents(), |torrent.View().files|)
    ensures old(cache.bridge.queries) <= cache.bridge.queries
    ensures error.NoError? && !resume.Claims() ==>
              && !status.oversizedFile
              && SizedUpTo(torrent.View(), cache.bridge.Contents(), |torrent.View().files|)
              && (status.needFullCheck <==>
                  KnownToExist(torrent.View(), old(cache.bridge.Contents()),
                               cache.bridge.queries[|old(cache.bridge.queries)|..], |torrent.View().files|))
              && (cache.bridge.faults == old(cache.bridge.faults) ==>
                    Answered(cache.bridge.queries[|old(cache.bridge.queries)|..]))
  {
    PreservedSame(torrent.View(), cache.bridge.Contents());
    if links {
      return NO_STATUS.(fatalDiskError := true), Failed(Errno(EOPNOTSUPP), -1, FileHardLink);
    }
    if resume.Claims() {
      ghost var asked;
      status, error, asked := ValidateResume(cache.bridge, torrent, resume.have, resume.seed);
    } else {
      status, error := InitializeFiles(cache, torrent, storage);
    }
  }
}
