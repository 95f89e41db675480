/** Several torrents on one disk, on values: what every job keeps, and what the history of writes
    says each torrent's flat array is. */
module RunSpec {
  import opened Bytes
  import opened Errors
  import opened Layout
  import opened Paths
  import opened FlatView
  import opened Descriptors
  import opened Torrents
  import opened Migration
  import opened SettledKeys
  import opened MovePlan
  import opened MoveStorages
  import opened Priorities
  import opened FileJobs
  import opened Hashing
  import opened CheckFilesJob

  /** What a job did to, or read from, torrent k; `from` is a flat position. A job that hashes bytes
      got them. `Became` is said by jobs that may cost a torrent its own bytes: its flat array is then
      whatever it is. */
  datatype Event =
    | Wrote(k: nat, from: nat, bytes: seq<byte>)
    | Got(k: nat, from: nat, bytes: seq<byte>)
    | Became(k: nat, flat: seq<byte>)
    | Quiet
  {
    predicate About(j: nat) {
      !Quiet? && k == j
    }
  }

  /** The jobs, with the torrent they are for, and a change of the settings between them. */
  datatype Command =
    | Read(k: nat, piece: nat, start: nat, length: nat)
    | Write(k: nat, piece: nat, start: nat, bytes: seq<byte>)
    | Hash(k: nat, piece: nat, needV1: bool, places: nat)
    | HashAt(k: nat, piece: nat, offset: nat)
    | Rename(k: nat, index: int, name: string)
    | Move(k: nat, root: string, flags: MoveFlags)
    | Prioritize(k: nat, priorities: seq<nat>)
    | Check(k: nat, resume: ResumeData, links: bool)
    | Delete(k: nat, files: bool, partfile: bool)
    | Release(k: nat)
    | Settings(filePoolSize: int)

  /** What the handler of a job is called with: its error and status, the bytes read, the digest of a
      piece or block, the digests of a piece's blocks, and the priorities as they are. */
  datatype Reply = Reply(error: StorageError, status: Status, bytes: seq<byte>, digest: nat, digests: seq<nat>,
                         priorities: seq<nat>)

  function Report(error: StorageError, status: Status): (reply: Reply)
    ensures reply.error == error && reply.status == status
  {
    Reply(error, status, [], 0, [], [])
  }

  /** A torrent and the tree between two jobs, and the removals asked for so far. */
  datatype State = State(t: Torrent, names: Naming, store: Store, removals: seq<string>)
  {
    predicate Valid() {
      && t.WellFormed() && |names.logical| == |t.files|
      && t.paths == RootedPaths(names.root, names.logical)
    }
  }

  /** What the event of a command can be, and what is reported: a read has no error if it delivered all
      it was asked for, a write if it stored all the torrent has room for, and a hash is that of the
      bytes the event says the job got. Only a delete, or a move that succeeds without `fail_if_exist`, can
      cost a torrent bytes. */
  ghost predicate Explains(files: FileStorage, command: Command, reply: Reply, event: Event,
                           sha1: seq<byte> -> nat, sha256: seq<byte> -> nat)
  {
    match command
    case Read(k, piece, start, length) =>
      && event == Got(k, files.PieceStart(piece) + start, reply.bytes)
      && |reply.bytes| <= length && (reply.error.NoError? <==> |reply.bytes| == length)
    case Write(k, piece, start, bytes) =>
      && event.Wrote? && event.k == k && event.from == files.PieceStart(piece) + start
      && |event.bytes| <= |bytes| && event.bytes == bytes[..|event.bytes|]
      && (reply.error.NoError? <==> |event.bytes| == files.Request(piece, start, |bytes|))
    case Hash(k, piece, needV1, places) =>
      if reply.error.Failed? then event.Quiet?
      else
        && files.Valid() && piece < files.NumPieces()
        && event.Got? && event == Got(k, files.PieceStart(piece), event.bytes)
        && Hashed(files, piece, needV1, places, event.bytes, reply, sha1, sha256)
    case HashAt(k, piece, offset) =>
      if reply.error.Failed? then event.Quiet?
      else
        && files.Valid() && piece < files.NumPieces()
        && event.Got? && event == Got(k, files.PieceStart(piece) + offset, event.bytes)
        && BlockHashed(files, piece, offset, event.bytes, reply, sha256)
    case Move(k, _, flags) =>
      event.Quiet? || (event.Became? && event.k == k && reply.error.NoError? && !flags.FailIfExist?)
    case Delete(k, all, partfile) =>
      event.Quiet? || (event.Became? && event.k == k && (all || partfile))
    case _ => event.Quiet?
  }

  /** The digests are those of the piece, and of the blocks of its v2 part, that begin `bytes`. */
  ghost predicate Hashed(files: FileStorage, piece: nat, needV1: bool, places: nat, bytes: seq<byte>, reply: Reply,
                         sha1: seq<byte> -> nat, sha256: seq<byte> -> nat)
    requires files.Valid() && piece < files.NumPieces()
  {
    files.PieceExists(piece);
    var leaves := Leaves(Sub(bytes, 0, files.PieceSize2(piece)));
    && |bytes| == HashedBytes(files, piece, needV1, places > 0)
    && reply.digest == (if needV1 then sha1(Sub(bytes, 0, files.PieceBytes(piece))) else 0)
    && (places > 0 ==> |leaves| <= places && Digested(reply.digests, seq(places, _ => 0), leaves, |leaves|, sha256))
  }

  ghost predicate BlockHashed(files: FileStorage, piece: nat, offset: nat, bytes: seq<byte>, reply: Reply,
                              sha256: seq<byte> -> nat)
    requires files.Valid() && piece < files.NumPieces()
  {
    files.PieceExists(piece);
    && bytes != [] && |bytes| == LeafLength(files.PieceSize2(piece), offset)
    && reply.digest == sha256(bytes)
  }

  /** What a command does to its torrent and the tree, and when it fails although the bridge, being
      sound, did not. */
  ghost predicate Effect(files: FileStorage, a: State, b: State, command: Command, reply: Reply, event: Event,
                         sound: bool) {
    && a.Valid() && b.Valid() && files.Valid()
    && a.t.files == files.entries == b.t.files && b.t.part == a.t.part
    && match command
       case Read(_, piece, start, length) => b == a && ReadEffect(files, a, piece, start, length, reply, sound)
       case Write(_, piece, start, bytes) => WriteEffect(files, a, b, piece, start, |bytes|, reply, event, sound)
       case Hash(_, piece, needV1, places) => b == a && HashEffect(files, a, piece, needV1, places, reply, sound)
       case HashAt(_, piece, offset) => b == a && HashAtEffect(files, a, piece, offset, reply, sound)
       case Rename(_, index, name) => RenameEffect(a, b, index, name, reply, sound)
       case Move(k, root, flags) =>
         MoveEffect(a, b, root, flags, reply, event, sound) && event == Change(a.t, a.store, b.t, b.store, k)
       case Prioritize(_, requested) => PrioritizeEffect(a, b, requested, reply, sound)
       case Check(_, resume, links) => CheckEffect(files, a, b, resume, links, reply, sound)
       case Delete(k, all, partfile) =>
         && b.t == a.t && b.names == a.names && Deleted(a.t, a.store, b.store, all, partfile, reply.error)
         && b.removals == a.removals + Deletions(a.t, all, partfile)
         && (reply.error.Failed? ==> !sound) && event == Change(a.t, a.store, b.t, b.store, k)
       case Release(_) => b == a && reply.error.NoError?
       case Settings(_) => b == a && reply.error.NoError?
  }

  /** What was delivered could be read; the first byte that could not be read is what stops it. */
  ghost predicate ReadEffect(files: FileStorage, a: State, piece: nat, start: nat, length: nat, reply: Reply,
                             sound: bool)
    requires a.Valid()
  {
    var from, n := files.PieceStart(piece) + start, |reply.bytes|;
    && AllPresent(a.t, a.store, from, n)
    && (sound && HomesSafe(a.t) && n < files.Request(piece, start, length) ==>
          from + n < Total(a.t.files) && !Present(a.t, a.store, from + n))
  }

  /** Exactly the bytes of the event are overlaid; no file is touched but those that hold bytes of the
      request, and none is made longer than to the end of what was written to it. */
  ghost predicate WriteEffect(files: FileStorage, a: State, b: State, piece: nat, start: nat, length: nat,
                              reply: Reply, event: Event, sound: bool)
    requires a.Valid()
  {
    && b.t == a.t && b.names == a.names && b.removals == a.removals && event.Wrote?
    && Written(a.t, a.store, b.store, event.from, event.bytes)
    && SameOutside(a.store, b.store, HomesOf(a.t, files.PieceStart(piece) + start, length))
    && Grown(a.t, a.store, b.store, event.from, |event.bytes|)
    && (reply.error.Failed? && sound ==> !HomesSafe(a.t))
  }

  /** A piece is hashed exactly if its bytes can be read and there are places for the digests. */
  ghost predicate HashEffect(files: FileStorage, a: State, piece: nat, needV1: bool, places: nat, reply: Reply,
                             sound: bool)
    requires a.Valid() && files.Valid()
  {
    piece < files.NumPieces() &&
    (files.PieceExists(piece);
     var readable := AllPresent(a.t, a.store, files.PieceStart(piece), HashedBytes(files, piece, needV1, places > 0));
     var enough := places == 0 || Blocks(files.PieceSize2(piece)) <= places;
     && (reply.error.NoError? ==> readable && enough)
     && (reply.error.Failed? && sound && HomesSafe(a.t) ==> !(readable && enough)))
  }

  ghost predicate HashAtEffect(files: FileStorage, a: State, piece: nat, offset: nat, reply: Reply, sound: bool)
    requires a.Valid() && files.Valid()
  {
    piece < files.NumPieces() &&
    (files.PieceExists(piece);
     var size := files.PieceSize2(piece);
     && (reply.error.NoError? ==>
           offset < size && AllPresent(a.t, a.store, files.PieceStart(piece) + offset, LeafLength(size, offset)))
     && (reply.error.Failed? && sound && HomesSafe(a.t) && offset < size ==>
           !AllPresent(a.t, a.store, files.PieceStart(piece) + offset, LeafLength(size, offset))))
  }

  ghost predicate RenameEffect(a: State, b: State, index: int, name: string, reply: Reply, sound: bool)
    requires a.Valid() && b.Valid()
  {
    var path := RootedPath(a.names.root, name);
    var possible := 0 <= index < |a.t.files| && Safe(name) && Safe(path) && a.t.paths[index] in a.store;
    if reply.error.Failed? then b == a && (sound ==> !possible)
    else
      && possible
      && b.t == WithPath(a.t, index, path) && b.names == a.names.(logical := a.names.logical[index := name])
      && b.store == RenamedStore(a.store, a.t.paths[index], path) && b.removals == a.removals
  }

  /** All or nothing; and the torrent reads as before if and only if each file it adopts, or finds under
      the new root when only that changes, reads like the one it leaves. */
  ghost predicate MoveEffect(a: State, b: State, root: string, flags: MoveFlags, reply: Reply, event: Event,
                             sound: bool)
    requires a.Valid() && b.Valid() && a.t.files == b.t.files
  {
    var targets := RootedPaths(NormalizedSaveRoot(root), a.names.logical);
    var possible := Safe(root) && MoveAllowed(a.t.files, a.names.logical, a.t.paths, targets, a.store, flags);
    if reply.error.Failed? then
      && b.t == a.t && b.names == a.names && b.removals == a.removals && (sound ==> !possible)
      && Harmless(a.t.files, a.t.paths, targets, a.store, b.store)
      && (reply.status.fatalDiskError || reply.status.fileExist)
    else
      && possible && b.t == a.t.(paths := targets) && b.names == Naming(NormalizedSaveRoot(root), a.names.logical)
      && !reply.status.fatalDiskError && !reply.status.fileExist
      && if IsReset(flags) then
           && b.store == a.store && b.removals == a.removals
           && (reply.status.needFullCheck <==> flags.ResetSavePath?)
           && (event.Quiet? <==> ReadsAlike(a.t, b.t, a.store))
         else
           && Transferred(a.t.files, a.t.paths, targets, a.store, b.store, flags)
           && (event.Quiet? <==> AdoptsAlike(a.t, b.t, a.store, flags))
           && (reply.status.needFullCheck <==>
               flags.DontReplace? && InTheWay(a.t.files, a.t.paths, targets, a.store))
           && a.removals <= b.removals
           && AskedToRemove(a.t.files, a.t.paths, targets, a.store, b.removals[|a.removals|..])
  }

  /** The bytes are kept; the priorities are set up to the file that the error names; only the places of
      files that follow a change are touched. */
  ghost predicate PrioritizeEffect(a: State, b: State, requested: seq<nat>, reply: Reply, sound: bool)
    requires a.Valid() && b.Valid()
  {
    var wanted := ResizePriorities(requested, |a.t.files|);
    && b.names == a.names && reply.priorities == b.t.priorities
    && Preserved(a.t, a.store, b.t, b.store)
    && StoppedAt(a.t, wanted, reply.error, b.t.priorities)
    && SameOutside(a.store, b.store, Rehomed(a.t, wanted, |wanted|))
    && a.removals <= b.removals && VacatedAt(a.t, wanted, reply.error, b.removals[|a.removals|..])
    && (reply.error.NoError? ==>
          && Achievable(a.t, a.store, wanted)
          && VacatedUpTo(b.t, a.t.priorities, wanted, |wanted|, b.store)
          && (if NothingSkipped(wanted) then b.t.part !in b.store
              else Progress(a.t, a.store, wanted, |wanted|, b.store)))
    && (b.t.part in a.store && b.t.part !in b.store ==> NothingSkipped(b.t.priorities))
    && (reply.error.Failed? && sound ==> !Achievable(a.t, a.store, wanted))
  }

  /** The bytes are kept; claims are compared with the tree as it is; without any the public files are
      brought to size, and nothing else is touched. */
  ghost predicate CheckEffect(files: FileStorage, a: State, b: State, resume: ResumeData, links: bool, reply: Reply,
                              sound: bool)
    requires a.Valid() && files.Valid()
  {
    && b.t == a.t && b.names == a.names && b.removals == a.removals
    && Preserved(a.t, a.store, b.t, b.store)
    && (reply.status.fatalDiskError <==> reply.error.Failed?)
    && (links ==> reply.error.Failed?)
    && (reply.error.Failed? && sound ==> links || (!resume.Claims() && !HomesSafe(a.t)))
    && (if links || resume.Claims() then b.store == a.store else EachSized(a.t, a.store, b.store, |a.t.files|))
    && (reply.error.NoError? && resume.Claims() ==>
          && (reply.status.needFullCheck <==> CheckDue(files, a.t, a.store, resume))
          && (reply.status.oversizedFile <==> TooLong(files, a.t, a.store, resume)))
    && (reply.error.NoError? && !resume.Claims() ==>
          && !reply.status.oversizedFile && SizedUpTo(a.t, b.store, |a.t.files|)
          && (reply.status.needFullCheck ==> PublicExists(a.t, a.store, |a.t.files|))
          && (sound && PublicExists(a.t, a.store, |a.t.files|) ==> reply.status.needFullCheck))
  }

  /** The removals a delete asks for. */
  function Deletions(t: Torrent, all: bool, partfile: bool): seq<string>
    requires t.WellFormed()
  {
    (if all then DataRemovals(t, |t.files|) else []) + if all || partfile then [t.part] else []
  }

  predicate AllZero(flat: seq<byte>) {
    forall p :: 0 <= p < |flat| ==> flat[p] == 0
  }

  /** Every byte is kept or reads as zero; files that are not skipped lose nothing with the part file
      alone; a complete delete leaves nothing. */
  ghost predicate Deleted(t: Torrent, store: Store, store': Store, all: bool, partfile: bool, error: StorageError)
    requires t.WellFormed()
  {
    && OnlyDeleted(store, store', if all then t.Footprint() else {t.part})
    && (forall p :: 0 <= p < Total(t.files) ==> Flat(t, store')[p] == Flat(t, store)[p] || Flat(t, store')[p] == 0)
    && (!all && !partfile ==> store' == store)
    && (!all ==> forall j :: 0 <= j < |t.files| && !t.files[j].pad && !t.Skipped(j) ==> FileKept(t, store, t, store', j))
    && (all && error.NoError? ==> AllZero(Flat(t, store')) && GoneUpTo(t, store', |t.files|))
    && ((all || partfile) && error.NoError? ==> t.part !in store')
  }

  lemma DeletedIs(t: Torrent, before: Store, after: Store, all: bool, partfile: bool, error: StorageError)
    requires t.Distinct() && t.WellFormed() && OnlyDeleted(before, after, t.Footprint())
    requires !all ==> OnlyDeleted(before, after, {t.part})
    requires !all && !partfile ==> after == before
    requires all && error.NoError? ==> GoneUpTo(t, after, |t.files|) && t.part !in after
    requires (all || partfile) && error.NoError? ==> t.part !in after
    ensures Deleted(t, before, after, all, partfile, error)
  {
    forall p | 0 <= p < Total(t.files)
      ensures FlatByte(t, after, p) == FlatByte(t, before, p) || FlatByte(t, after, p) == 0
      ensures all && error.NoError? ==> FlatByte(t, after, p) == 0
    {
      var i := FileAt(t.files, p);
      assert all && error.NoError? && !t.files[i].pad ==> t.HomePath(i) !in after;
      assert t.HomePath(i) in after ==> Content(after, t.HomePath(i)) == Content(before, t.HomePath(i));
    }
    if !all {
      forall j | 0 <= j < |t.files| && !t.files[j].pad && !t.Skipped(j)
        ensures FileKept(t, before, t, after, j)
      {
        assert Content(after, t.paths[j]) == Content(before, t.paths[j]);
      }
    }
  }

  lemma ExplainsRead(files: FileStorage, command: Command, reply: Reply, event: Event, sha1: seq<byte> -> nat,
                     sha256: seq<byte> -> nat)
    requires command.Read? && event == Got(command.k, files.PieceStart(command.piece) + command.start, reply.bytes)
    requires |reply.bytes| <= command.length
    requires reply.error.NoError? <==> |reply.bytes| == command.length
    ensures Explains(files, command, reply, event, sha1, sha256)
  {
  }

  lemma ExplainsWrite(files: FileStorage, command: Command, reply: Reply, event: Event, sha1: seq<byte> -> nat,
                      sha256: seq<byte> -> nat)
    requires command.Write? && event.Wrote? && event.k == command.k
    requires event.from == files.PieceStart(command.piece) + command.start
    requires |event.bytes| <= |command.bytes| && event.bytes == command.bytes[..|event.bytes|]
    requires reply.error.NoError? <==> |event.bytes| == files.Request(command.piece, command.start, |command.bytes|)
    ensures Explains(files, command, reply, event, sha1, sha256)
  {
  }

  lemma ExplainsQuiet(files: FileStorage, command: Command, reply: Reply,
                      sha1: seq<byte> -> nat, sha256: seq<byte> -> nat)
    requires !command.Read? && !command.Write?
    requires command.Hash? || command.HashAt? ==> reply.error.Failed?
    ensures Explains(files, command, reply, Quiet, sha1, sha256)
  {
  }

  /** The bytes a hash looked at, as the torrent has them. */
  lemma ExplainsHash(files: FileStorage, command: Command, flat: seq<byte>, reply: Reply, sha1: seq<byte> -> nat,
                     sha256: seq<byte> -> nat)
    requires command.Hash? && files.Valid() && command.piece < files.NumPieces() && |flat| == files.TotalSize()
    requires reply.error.NoError?
    requires reply.digest == if command.needV1 then sha1(Piece1(files, flat, command.piece)) else 0
    requires
      var leaves := Leaves(Piece2(files, flat, command.piece));
      command.places > 0 ==>
        |leaves| <= command.places && Digested(reply.digests, seq(command.places, _ => 0), leaves, |leaves|, sha256)
    ensures
      var from, n := files.PieceStart(command.piece), HashedBytes(files, command.piece, command.needV1, command.places > 0);
      && from + n <= |flat| && |Sub(flat, from, n)| == n
      && Explains(files, command, reply, Got(command.k, from, Sub(flat, from, n)), sha1, sha256)
  {
    files.PieceExists(command.piece);
    var from, n := files.PieceStart(command.piece), HashedBytes(files, command.piece, command.needV1, command.places > 0);
    HashedBytesAre(files, command.piece, command.needV1, command.places > 0);
    PieceSize2Within(files, command.piece);
    var bytes := Sub(flat, from, n);
    if command.needV1 {
      SubWithin(flat, from, n, 0, files.PieceBytes(command.piece));
    }
    if command.places > 0 {
      SubWithin(flat, from, n, 0, files.PieceSize2(command.piece));
    }
  }

  lemma ExplainsHashAt(files: FileStorage, command: Command, flat: seq<byte>, reply: Reply, sha1: seq<byte> -> nat,
                       sha256: seq<byte> -> nat)
    requires command.HashAt? && files.Valid() && command.piece < files.NumPieces() && |flat| == files.TotalSize()
    requires reply.error.NoError?
    requires BlockDigest(Piece2(files, flat, command.piece), command.offset, sha256, reply.digest, reply.error)
    ensures files.PieceStart(command.piece) < files.TotalSize()
    ensures
      var from, n := files.PieceStart(command.piece) + command.offset,
                     LeafLength(files.PieceSize2(command.piece), command.offset);
      && 0 < n && from + n <= |flat| && |Sub(flat, from, n)| == n
      && Explains(files, command, reply, Got(command.k, from, Sub(flat, from, n)), sha1, sha256)
  {
    hide Leaves;
    files.PieceExists(command.piece);
    var size := files.PieceSize2(command.piece);
    SubWithin(flat, files.PieceStart(command.piece), size, 0, 0);
    LeafLengthIs(size, command.offset);
    SubWithin(flat, files.PieceStart(command.piece), size, command.offset, LeafLength(size, command.offset));
  }

  /** The torrents have separate names, keep their data at different paths, and the cached
      descriptors are theirs. */
  predicate GoodState(views: seq<Torrent>, keys: set<FileKey>) {
    && (forall k :: 0 <= k < |views| ==> views[k].Distinct() && Settled(keys, k, views[k]))
    && (forall j, k :: 0 <= j < k < |views| ==> views[j].Footprint() !! views[k].Footprint())
    && (forall key :: key in keys ==> key.storage < |views|)
  }

  /** An event applied to torrent k's flat array. */
  function Apply(k: nat, t: Torrent, flat: seq<byte>, e: Event): (r: seq<byte>)
    requires |flat| == Total(t.files)
    ensures |r| == |flat|
  {
    if !e.About(k) then flat
    else if e.Wrote? then Overlay(t, flat, e.from, e.bytes)
    else if e.Became? && |e.flat| == |flat| then e.flat
    else flat
  }

  /** The flat array after a history: the last value written to each byte, from the last point on at
      which the torrent may have lost bytes. */
  function Replay(k: nat, t: Torrent, flat: seq<byte>, log: seq<Event>): (r: seq<byte>)
    requires |flat| == Total(t.files)
    ensures |r| == |flat|
  {
    if log == [] then flat
    else Apply(k, t, Replay(k, t, flat, log[..|log| - 1]), log[|log| - 1])
  }

  /** Every read got what the history before it says. */
  predicate ReadsMatch(k: nat, t: Torrent, flat: seq<byte>, log: seq<Event>)
    requires |flat| == Total(t.files)
  {
    forall n :: 0 <= n < |log| && log[n].About(k) && log[n].Got? ==>
                  log[n].bytes == Sub(Replay(k, t, flat, log[..n]), log[n].from, |log[n].bytes|)
  }

  /** The history has no job that may have cost torrent k bytes. */
  predicate Lossless(k: nat, log: seq<Event>) {
    forall n :: 0 <= n < |log| && log[n].About(k) ==> !log[n].Became?
  }

  /** Everything the history wrote since the last such job can be read. */
  predicate WritesPresent(k: nat, t: Torrent, store: Store, log: seq<Event>)
    requires t.WellFormed()
  {
    forall n :: 0 <= n < |log| && log[n].About(k) && log[n].Wrote? && Lossless(k, log[n + 1..]) ==>
                  AllPresent(t, store, log[n].from, |log[n].bytes|)
  }

  /** One job: torrent k changed as the event says, the others did not. */
  ghost predicate Advance(t: Torrent, store: Store, t': Torrent, store': Store, k: nat, log: seq<Event>)
    requires t.WellFormed() && t'.WellFormed()
  {
    && t'.files == t.files
    && Flat(t', store') == Replay(k, t, Flat(t, store), log)
    && (Lossless(k, log) ==> KeepsPresent(t, store, t', store'))
    && WritesPresent(k, t', store', log)
    && ReadsMatch(k, t, Flat(t, store), log)
  }

  lemma AdvanceQuiet(t: Torrent, store: Store, t': Torrent, store': Store, k: nat)
    requires t.WellFormed() && t'.WellFormed() && t'.files == t.files
    requires Flat(t', store') == Flat(t, store) && KeepsPresent(t, store, t', store')
    ensures Advance(t, store, t', store', k, [Quiet])
  {
  }

  /** The event of a job that kept the torrent's bytes and all that could be read, or did not. */
  ghost function Change(t: Torrent, store: Store, t': Torrent, store': Store, k: nat): (event: Event)
    requires t.WellFormed() && t'.WellFormed() && t'.files == t.files
    ensures event.Quiet? || event == Became(k, Flat(t', store'))
  {
    if Flat(t', store') == Flat(t, store) && KeepsPresent(t, store, t', store') then Quiet else Became(k, Flat(t', store'))
  }

  lemma AdvanceChange(t: Torrent, store: Store, t': Torrent, store': Store, k: nat)
    requires t.WellFormed() && t'.WellFormed() && t'.files == t.files
    ensures Advance(t, store, t', store', k, [Change(t, store, t', store', k)])
    ensures Flat(t', store') == Flat(t, store) && KeepsPresent(t, store, t', store') ==>
              Change(t, store, t', store', k) == Quiet
  {
    var event := Change(t, store, t', store', k);
    assert [event][..0] == [];
    assert event.Became? ==> [event][0].About(k);
  }

  lemma AdvanceWrote(t: Torrent, store: Store, store': Store, k: nat, from: nat, bytes: seq<byte>)
    requires t.WellFormed() && Written(t, store, store', from, bytes)
    ensures Advance(t, store, t, store', k, [Wrote(k, from, bytes)])
  {
  }

  lemma AdvanceGot(t: Torrent, store: Store, k: nat, from: nat, bytes: seq<byte>)
    requires t.WellFormed() && bytes == Sub(Flat(t, store), from, |bytes|)
    ensures Advance(t, store, t, store, k, [Got(k, from, bytes)])
  {
  }

  /** A job of another torrent. */
  lemma AdvanceOther(t: Torrent, store: Store, store': Store, j: nat, event: Event)
    requires t.WellFormed() && Flat(t, store') == Flat(t, store) && KeepsPresent(t, store, t, store')
    requires !event.About(j)
    ensures Advance(t, store, t, store', j, [event])
  {
  }

  // ---- Histories compose

  lemma {:induction false} ReplayConcat(k: nat, t: Torrent, t': Torrent, flat: seq<byte>, a: seq<Event>, b: seq<Event>)
    requires |flat| == Total(t.files) && t'.files == t.files
    ensures Replay(k, t', Replay(k, t, flat, a), b) == Replay(k, t, flat, a + b)
    decreases |b|
  {
    if b == [] {
      assert a + b == a;
    } else {
      var n := |b| - 1;
      ReplayConcat(k, t, t', flat, a, b[..n]);
      assert (a + b)[..|a + b| - 1] == a + b[..n];
      ApplySameFiles(k, t, t', Replay(k, t, flat, a + b[..n]), b[n]);
    }
  }

  lemma ApplySameFiles(k: nat, t: Torrent, t': Torrent, flat: seq<byte>, e: Event)
    requires |flat| == Total(t.files) && t'.files == t.files
    ensures Apply(k, t', flat, e) == Apply(k, t, flat, e)
  {
  }

  lemma ReadsConcat(k: nat, t: Torrent, t': Torrent, flat: seq<byte>, a: seq<Event>, b: seq<Event>)
    requires |flat| == Total(t.files) && t'.files == t.files
    requires ReadsMatch(k, t, flat, a) && ReadsMatch(k, t', Replay(k, t, flat, a), b)
    ensures ReadsMatch(k, t, flat, a + b)
  {
    var log := a + b;
    forall n | 0 <= n < |log| && log[n].About(k) && log[n].Got?
      ensures log[n].bytes == Sub(Replay(k, t, flat, log[..n]), log[n].from, |log[n].bytes|)
    {
      if n < |a| {
        assert log[..n] == a[..n];
      } else {
        assert log[..n] == a + b[..n - |a|];
        ReplayConcat(k, t, t', flat, a, b[..n - |a|]);
      }
    }
  }

  /** Runs compose: what two stretches of a run did is what their histories, one after the other,
      say. */
  lemma AdvanceConcat(t0: Torrent, a: Store, t1: Torrent, b: Store, t2: Torrent, c: Store, k: nat,
                      first: seq<Event>, second: seq<Event>)
    requires t0.WellFormed() && t1.WellFormed() && t2.WellFormed()
    requires Advance(t0, a, t1, b, k, first) && Advance(t1, b, t2, c, k, second)
    ensures Advance(t0, a, t2, c, k, first + second)
  {
    hide *;
    AdvanceElim(t0, a, t1, b, k, first);
    AdvanceElim(t1, b, t2, c, k, second);
    ReplayConcat(k, t0, t1, Flat(t0, a), first, second);
    ReadsConcat(k, t0, t1, Flat(t0, a), first, second);
    LosslessConcat(k, first, second);
    if Lossless(k, first + second) {
      KeepsPresentChain(t0, a, t1, b, t2, c);
    }
    WritesConcat(t1, b, t2, c, k, first, second);
    AdvanceIntro(t0, a, t2, c, k, first + second);
  }

  lemma AdvanceElim(t: Torrent, store: Store, t': Torrent, store': Store, k: nat, log: seq<Event>)
    requires t.WellFormed() && t'.WellFormed() && Advance(t, store, t', store', k, log)
    ensures t'.files == t.files && Flat(t', store') == Replay(k, t, Flat(t, store), log)
    ensures (Lossless(k, log) ==> KeepsPresent(t, store, t', store')) && WritesPresent(k, t', store', log)
    ensures ReadsMatch(k, t, Flat(t, store), log) && |Flat(t, store)| == Total(t.files)
  {
  }

  lemma AdvanceIntro(t: Torrent, store: Store, t': Torrent, store': Store, k: nat, log: seq<Event>)
    requires t.WellFormed() && t'.WellFormed() && t'.files == t.files
    requires |Flat(t, store)| == Total(t.files) && Flat(t', store') == Replay(k, t, Flat(t, store), log)
    requires (Lossless(k, log) ==> KeepsPresent(t, store, t', store')) && WritesPresent(k, t', store', log)
    requires ReadsMatch(k, t, Flat(t, store), log)
    ensures Advance(t, store, t', store', k, log)
  {
  }

  lemma KeepsPresentChain(t0: Torrent, a: Store, t1: Torrent, b: Store, t2: Torrent, c: Store)
    requires t0.WellFormed() && t1.WellFormed() && t2.WellFormed() && t0.files == t1.files == t2.files
    requires KeepsPresent(t0, a, t1, b) && KeepsPresent(t1, b, t2, c)
    ensures KeepsPresent(t0, a, t2, c)
  {
  }

  lemma LosslessConcat(k: nat, first: seq<Event>, second: seq<Event>)
    ensures Lossless(k, first + second) <==> Lossless(k, first) && Lossless(k, second)
  {
    var log := first + second;
    forall n | 0 <= n < |second| && Lossless(k, log)
      ensures second[n].About(k) ==> !second[n].Became?
    {
      assert log[|first| + n] == second[n];
    }
    forall n | 0 <= n < |first| && Lossless(k, log)
      ensures first[n].About(k) ==> !first[n].Became?
    {
      assert log[n] == first[n];
    }
  }

  lemma WritesConcat(t1: Torrent, b: Store, t2: Torrent, c: Store, k: nat, first: seq<Event>, second: seq<Event>)
    requires t1.WellFormed() && t2.WellFormed() && t1.files == t2.files
    requires Lossless(k, second) ==> KeepsPresent(t1, b, t2, c)
    requires WritesPresent(k, t1, b, first) && WritesPresent(k, t2, c, second)
    ensures WritesPresent(k, t2, c, first + second)
  {
    var log := first + second;
    forall n | 0 <= n < |log| && log[n].About(k) && log[n].Wrote? && Lossless(k, log[n + 1..])
      ensures AllPresent(t2, c, log[n].from, |log[n].bytes|)
    {
      if n < |first| {
        assert log[n + 1..] == first[n + 1..] + second;
        LosslessConcat(k, first[n + 1..], second);
        assert AllPresent(t1, b, log[n].from, |log[n].bytes|);
      } else {
        assert log[n + 1..] == second[n - |first| + 1..];
      }
    }
  }

  // ---- One job among many torrents

  /** After a job of torrent k that touched only `touched`, where no other torrent keeps anything. */
  lemma StepGood(views: seq<Torrent>, keys: set<FileKey>, k: nat, t': Torrent, keys': set<FileKey>)
    requires GoodState(views, keys) && k < |views| && t'.Distinct()
    requires forall j :: 0 <= j < |views| && j != k ==> views[j].Footprint() !! t'.Footprint()
    requires Settled(keys', k, t')
    requires forall key :: key in keys' && key !in keys ==> key.storage == k
    ensures GoodState(views[k := t'], keys')
  {
  }

  /** A cached descriptor is at a path of its own torrent, so no other torrent's job meets it. */
  lemma KeysAtHome(views: seq<Torrent>, keys: set<FileKey>, key: FileKey)
    requires GoodState(views, keys) && key in keys
    ensures key.storage < |views| && key.path in views[key.storage].Footprint()
  {
  }

  /** What every job of torrent k leaves: a good state, torrent k as its events say, and all other
      torrents as they were. */
  ghost predicate JobDone(views: seq<Torrent>, k: nat, t': Torrent, keys': set<FileKey>, before: Store, after: Store,
                          event: Event)
  {
    && k < |views| && t'.WellFormed() && (forall j :: 0 <= j < |views| ==> views[j].WellFormed())
    && GoodState(views[k := t'], keys')
    && (event.Quiet? || event.k == k) && Advance(views[k], before, t', after, k, [event])
    && (forall j :: 0 <= j < |views| && j != k ==>
                      Flat(views[j], after) == Flat(views[j], before) && KeepsPresent(views[j], before, views[j], after))
  }

  lemma QuietJob(views: seq<Torrent>, k: nat, t': Torrent, keys': set<FileKey>, before: Store, after: Store)
    requires JobDone(views, k, t', keys', before, after, Quiet)
    ensures k < |views| && views[k].WellFormed() && t'.WellFormed() && t'.files == views[k].files
    ensures Change(views[k], before, t', after, k) == Quiet
  {
    var flat := Flat(views[k], before);
    assert [Quiet][..0] == [];
    assert Replay(k, views[k], flat, [Quiet]) == flat;
    assert Lossless(k, [Quiet]);
  }

  lemma JobDoneIntro(views: seq<Torrent>, keys: set<FileKey>, k: nat, t': Torrent, keys': set<FileKey>,
                     before: Store, after: Store, event: Event, touched: set<string>)
    requires GoodState(views, keys) && k < |views| && t'.Distinct()
    requires forall j :: 0 <= j < |views| && j != k ==> views[j].Footprint() !! t'.Footprint() + touched
    requires Settled(keys', k, t')
    requires forall key :: key in keys' && key !in keys ==> key.storage == k
    requires SameOutside(before, after, touched)
    requires event.Quiet? || event.k == k
    requires Advance(views[k], before, t', after, k, [event])
    ensures JobDone(views, k, t', keys', before, after, event)
  {
    StepGood(views, keys, k, t', keys');
    forall j | 0 <= j < |views| && j != k
      ensures Flat(views[j], after) == Flat(views[j], before) && KeepsPresent(views[j], before, views[j], after)
    {
      FlatFrame(views[j], before, after, touched);
    }
  }

  /** A job that stays at the torrent's own paths. */
  lemma JobDoneAtHome(views: seq<Torrent>, keys: set<FileKey>, k: nat, t': Torrent, keys': set<FileKey>,
                      before: Store, after: Store, event: Event)
    requires GoodState(views, keys) && k < |views| && t'.Distinct()
    requires t'.files == views[k].files && t'.paths == views[k].paths && t'.part == views[k].part
    requires Settled(keys', k, t')
    requires forall key :: key in keys' && key !in keys ==> key.storage == k
    requires SameOutside(before, after, views[k].Footprint())
    requires event.Quiet? || event.k == k
    requires Advance(views[k], before, t', after, k, [event])
    ensures JobDone(views, k, t', keys', before, after, event)
  {
    assert t'.Footprint() == views[k].Footprint();
    forall j | 0 <= j < |views| && j != k
      ensures views[j].Footprint() !! t'.Footprint() + views[k].Footprint()
    {
      assert j < k || k < j;
    }
    JobDoneIntro(views, keys, k, t', keys', before, after, event, views[k].Footprint());
  }

  lemma GoodOne(views: seq<Torrent>, keys: set<FileKey>, k: nat)
    requires GoodState(views, keys) && k < |views|
    ensures views[k].Distinct() && views[k].WellFormed() && Settled(keys, k, views[k])
  {
  }

  /** A stretch of a run, for all torrents at once. */
  ghost predicate AllAdvance(views: seq<Torrent>, before: Store, views': seq<Torrent>, after: Store, log: seq<Event>) {
    && |views'| == |views|
    && (forall j :: 0 <= j < |views| ==> views[j].WellFormed() && views'[j].WellFormed())
    && (forall j :: 0 <= j < |views| ==> Advance(views[j], before, views'[j], after, j, log))
  }

  lemma AllAdvanceJob(views: seq<Torrent>, k: nat, t': Torrent, keys': set<FileKey>, before: Store, after: Store,
                      event: Event)
    requires JobDone(views, k, t', keys', before, after, event)
    ensures k < |views| && GoodState(views[k := t'], keys')
    ensures AllAdvance(views, before, views[k := t'], after, [event])
  {
    forall j | 0 <= j < |views|
      ensures views[j].WellFormed() && views[k := t'][j].WellFormed()
      ensures Advance(views[j], before, views[k := t'][j], after, j, [event])
    {
      if j != k {
        AdvanceOther(views[j], before, after, j, event);
      }
    }
  }

  lemma AllAdvanceNothing(views: seq<Torrent>, keys: set<FileKey>, store: Store)
    requires GoodState(views, keys)
    ensures AllAdvance(views, store, views, store, [])
  {
  }

  lemma AllAdvanceQuiet(views: seq<Torrent>, keys: set<FileKey>, store: Store)
    requires GoodState(views, keys)
    ensures AllAdvance(views, store, views, store, [Quiet])
  {
    forall j | 0 <= j < |views|
      ensures views[j].WellFormed() && Advance(views[j], store, views[j], store, j, [Quiet])
    {
      AdvanceQuiet(views[j], store, views[j], store, j);
    }
  }

  lemma AllAdvanceConcat(v0: seq<Torrent>, a: Store, v1: seq<Torrent>, b: Store, v2: seq<Torrent>, c: Store,
                         first: seq<Event>, second: seq<Event>)
    requires AllAdvance(v0, a, v1, b, first) && AllAdvance(v1, b, v2, c, second)
    ensures AllAdvance(v0, a, v2, c, first + second)
  {
    forall j | 0 <= j < |v0|
      ensures v0[j].WellFormed() && v2[j].WellFormed() && Advance(v0[j], a, v2[j], c, j, first + second)
    {
      AdvanceConcat(v0[j], a, v1[j], b, v2[j], c, j, first, second);
    }
  }
}
