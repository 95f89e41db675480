/** Runs of jobs on several torrents that share one disk and one descriptor cache. */
module Runs {
  import opened Bytes
  import opened Errors
  import opened Layout
  import opened Paths
  import opened FlatView
  import opened Bridges
  import opened Descriptors
  import opened DescriptorCaches
  import opened Torrents
  import opened BlockLayer
  import opened Migration
  import opened MovePlan
  import opened MoveStorages
  import opened Hashing
  import opened Resume
  import opened CheckFilesJob
  import opened SettledKeys
  import opened Priorities
  import opened FileJobs
  import opened RunSpec

  /** Where a torrent is. */
  ghost function At(cache: DescriptorCache, torrent: TorrentStorage): State
    reads torrent, cache, cache.bridge`names, cache.bridge`bodies, cache.bridge`removals
  {
    State(torrent.View(), torrent.Names(), cache.bridge.Contents(), cache.bridge.removals)
  }

  lemma AtIs(cache: DescriptorCache, torrent: TorrentStorage)
    requires torrent.Valid()
    ensures At(cache, torrent)
         == State(torrent.View(), torrent.Names(), cache.bridge.Contents(), cache.bridge.removals)
    ensures At(cache, torrent).Valid() && torrent.files.Valid() && torrent.View().files == torrent.files.entries
    ensures torrent.View().WellFormed() && torrent.View().part == torrent.partPath
    ensures torrent.Names() == Naming(torrent.saveRoot, torrent.logicalPaths)
    ensures |torrent.logicalPaths| == |torrent.files.entries|
  {
  }

  /** What every job of torrent k does, to its torrent and to the others. */
  ghost predicate Done(files: FileStorage, views: seq<Torrent>, k: nat, a: State, b: State,
                       keys: set<FileKey>, keys': set<FileKey>,
                       command: Command, reply: Reply, event: Event, sound: bool,
                       sha1: seq<byte> -> nat, sha256: seq<byte> -> nat)
  {
    && Explains(files, command, reply, event, sha1, sha256)
    && Effect(files, a, b, command, reply, event, sound)
    && KeysAfter(command, k, keys, keys')
    && JobDone(views, k, b.t, keys', a.store, b.store, event)
  }

  /** Only the torrent's own descriptors come to the cache; of a torrent that is released, deleted or
      moved none stays. */
  predicate KeysAfter(command: Command, k: nat, keys: set<FileKey>, keys': set<FileKey>) {
    && (forall key :: key in keys' && key !in keys ==> key.storage == k)
    && (command.Rename? || command.Prioritize? ==> keys' <= keys)
    && (command.Release? || command.Delete? || (command.Move? && Safe(command.root)) ==> keys' == Elsewhere(keys, k))
  }

  lemma KeysAfterIs(command: Command, k: nat, keys: set<FileKey>, keys': set<FileKey>)
    ensures KeysAfter(command, k, keys, keys') <==>
              && (forall key :: key in keys' && key !in keys ==> key.storage == k)
              && (command.Rename? || command.Prioritize? ==> keys' <= keys)
              && (command.Release? || command.Delete? || (command.Move? && Safe(command.root)) ==>
                    keys' == Elsewhere(keys, k))
  {
  }

  lemma DoneIs(files: FileStorage, views: seq<Torrent>, k: nat, a: State, b: State,
               keys: set<FileKey>, keys': set<FileKey>,
               command: Command, reply: Reply, event: Event, sound: bool,
               sha1: seq<byte> -> nat, sha256: seq<byte> -> nat)
    ensures Done(files, views, k, a, b, keys, keys', command, reply, event, sound, sha1, sha256) <==>
              && Explains(files, command, reply, event, sha1, sha256)
              && Effect(files, a, b, command, reply, event, sound)
              && KeysAfter(command, k, keys, keys')
              && JobDone(views, k, b.t, keys', a.store, b.store, event)
  {
  }

  // ---- Reading, hashing and writing

  lemma EffectRead(files: FileStorage, a: State, command: Command, reply: Reply, event: Event, sound: bool)
    requires a.Valid() && files.Valid() && files.entries == a.t.files && command.Read?
    requires
      var from, n := files.PieceStart(command.piece) + command.start, |reply.bytes|;
      && AllPresent(a.t, a.store, from, n) && n <= files.Request(command.piece, command.start, command.length)
      && (sound && HomesSafe(a.t) && n < files.Request(command.piece, command.start, command.length) ==>
            from + n < Total(a.t.files) && !Present(a.t, a.store, from + n))
    ensures Effect(files, a, a, command, reply, event, sound)
  {
  }

  lemma BeforeEnd(files: FileStorage, piece: nat, start: nat, length: nat, n: nat)
    ensures n < files.Request(piece, start, length) ==> files.PieceStart(piece) + start + n < Total(files.entries)
  {
  }

  /** `async_read`: a request that runs past the end of the torrent ends in `end of file`. */
  method RunRead(cache: DescriptorCache, torrent: TorrentStorage, k: nat, piece: nat, start: nat, length: nat,
                 ghost sha1: seq<byte> -> nat, ghost sha256: seq<byte> -> nat, ghost views: seq<Torrent>)
    returns (reply: Reply, ghost event: Event)
    requires cache.Valid() && torrent.Valid() && k < |views| && views[k] == torrent.View()
    requires GoodState(views, Keys(cache.descriptors))
    modifies cache, cache.bridge
    ensures cache.Valid() && torrent.Valid() && cache.bridge.faults >= old(cache.bridge.faults)
    ensures Done(torrent.files, views, k, old(At(cache, torrent)), At(cache, torrent),
                 old(Keys(cache.descriptors)), Keys(cache.descriptors),
                 Read(k, piece, start, length), reply, event, cache.bridge.faults == old(cache.bridge.faults), sha1, sha256)
  {
    hide *;
    ghost var before, keys, a := cache.bridge.Contents(), Keys(cache.descriptors), At(cache, torrent);
    ghost var command := Read(k, piece, start, length);
    AtIs(cache, torrent);
    GoodOne(views, keys, k);
    var output := new byte[length](_ => 0);
    var transferred, error := ReadBlock(cache, torrent, k, piece, start, length, output);
    BeforeEnd(torrent.files, piece, start, length, transferred);
    if error.NoError? && transferred != length {
      error := Failed(EndOfFile, -1, FileRead);
    }
    SettledHome(keys, Keys(cache.descriptors), k, torrent);
    ghost var from := torrent.files.PieceStart(piece) + start;
    reply := Reply(error, NO_STATUS, output[..transferred], 0, [], []);
    event := Got(k, from, output[..transferred]);
    ExplainsRead(torrent.files, command, reply, event, sha1, sha256);
    EffectRead(torrent.files, a, command, reply, event, cache.bridge.faults == old(cache.bridge.faults));
    NothingTouchedAt(before, views[k]);
    AdvanceGot(views[k], before, k, from, output[..transferred]);
    JobDoneAtHome(views, keys, k, torrent.View(), Keys(cache.descriptors), before, cache.bridge.Contents(), event);
    AtIs(cache, torrent);
    KeysAfterIs(command, k, keys, Keys(cache.descriptors));
    DoneIs(torrent.files, views, k, a, At(cache, torrent), keys, Keys(cache.descriptors), command, reply, event,
           cache.bridge.faults == old(cache.bridge.faults), sha1, sha256);
  }

  /** A job that opened descriptors to read the torrent's own files, and may have got bytes. */
  lemma OnlyLooked(views: seq<Torrent>, keys: set<FileKey>, k: nat, torrent: TorrentStorage, keys': set<FileKey>,
                   store: Store, event: Event)
    requires GoodState(views, keys) && torrent.Valid() && k < |views| && views[k] == torrent.View()
    requires keys' <= keys + torrent.HomeKeys(k) && views[k].WellFormed()
    requires event.Quiet? ||
             (event.Got? && event == Got(k, event.from, Sub(Flat(views[k], store), event.from, |event.bytes|)))
    ensures JobDone(views, k, torrent.View(), keys', store, store, event)
    ensures forall key :: key in keys' && key !in keys ==> key.storage == k
  {
    GoodOne(views, keys, k);
    NothingTouchedAt(store, views[k]);
    if event.Quiet? {
      PreservedSame(views[k], store);
      AdvancePreserved(views[k], store, views[k], store, k);
    } else {
      AdvanceGot(views[k], store, k, event.from, event.bytes);
    }
    SettledHome(keys, keys', k, torrent);
    JobDoneAtHome(views, keys, k, views[k], keys', store, store, event);
  }

  lemma EffectHash(files: FileStorage, a: State, command: Command, reply: Reply, event: Event, sound: bool,
                   flat: seq<byte>)
    requires a.Valid() && files.Valid() && files.entries == a.t.files && command.Hash? && command.piece < files.NumPieces()
    requires |flat| == files.TotalSize()
    requires
      var leaves := Leaves(Piece2(files, flat, command.piece));
      var n := HashedBytes(files, command.piece, command.needV1, command.places > 0);
      && (0 < command.places < |leaves| ==> reply.error.Failed?)
      && (reply.error.NoError? ==> AllPresent(a.t, a.store, files.PieceStart(command.piece), n))
      && (reply.error.Failed? && sound ==>
            !HomesSafe(a.t) || 0 < command.places < |leaves| ||
            !AllPresent(a.t, a.store, files.PieceStart(command.piece), n))
    ensures Effect(files, a, a, command, reply, event, sound)
  {
    LeavesCount(Piece2(files, flat, command.piece));
    PieceSize2Within(files, command.piece);
    HashedBytesAre(files, command.piece, command.needV1, command.places > 0);
    SubWithin(flat, files.PieceStart(command.piece), files.PieceSize2(command.piece), 0, 0);
    assert |Piece2(files, flat, command.piece)| == files.PieceSize2(command.piece);
  }

  /** `async_hash`, with any two hash functions. */
  method RunHash(cache: DescriptorCache, torrent: TorrentStorage, k: nat, piece: nat, needV1: bool, places: nat,
                 sha1: seq<byte> -> nat, sha256: seq<byte> -> nat, ghost views: seq<Torrent>)
    returns (reply: Reply, ghost event: Event)
    requires cache.Valid() && torrent.Valid() && k < |views| && views[k] == torrent.View()
    requires GoodState(views, Keys(cache.descriptors))
    requires torrent.files.Valid() && piece < torrent.files.NumPieces()
    modifies cache, cache.bridge
    ensures cache.Valid() && torrent.Valid() && cache.bridge.faults >= old(cache.bridge.faults)
    ensures Done(torrent.files, views, k, old(At(cache, torrent)), At(cache, torrent),
                 old(Keys(cache.descriptors)), Keys(cache.descriptors),
                 Hash(k, piece, needV1, places), reply, event, cache.bridge.faults == old(cache.bridge.faults), sha1, sha256)
  {
    hide *;
    ghost var before, keys, a := cache.bridge.Contents(), Keys(cache.descriptors), At(cache, torrent);
    ghost var command := Hash(k, piece, needV1, places);
    AtIs(cache, torrent);
    GoodOne(views, keys, k);
    var hashes := new nat[places](_ => 0);
    assert hashes[..] == seq(places, _ => 0);
    ghost var flat := Flat(views[k], before);
    var result, error := HashPiece(cache, torrent, k, piece, needV1, hashes, sha1, sha256, 0);
    reply := Reply(error, NO_STATUS, [], result, hashes[..], []);
    event := Quiet;
    if error.Failed? {
      ExplainsQuiet(torrent.files, command, reply, sha1, sha256);
    } else {
      ExplainsHash(torrent.files, command, flat, reply, sha1, sha256);
      event := Got(k, torrent.files.PieceStart(piece),
                   Sub(flat, torrent.files.PieceStart(piece), HashedBytes(torrent.files, piece, needV1, places > 0)));
    }
    EffectHash(torrent.files, a, command, reply, event, cache.bridge.faults == old(cache.bridge.faults), flat);
    OnlyLooked(views, keys, k, torrent, Keys(cache.descriptors), before, event);
    AtIs(cache, torrent);
    KeysAfterIs(command, k, keys, Keys(cache.descriptors));
    DoneIs(torrent.files, views, k, a, At(cache, torrent), keys, Keys(cache.descriptors), command, reply, event,
           cache.bridge.faults == old(cache.bridge.faults), sha1, sha256);
  }

  lemma EffectHashAt(files: FileStorage, a: State, command: Command, reply: Reply, event: Event, sound: bool,
                     flat: seq<byte>)
    requires a.Valid() && files.Valid() && files.entries == a.t.files && command.HashAt? && command.piece < files.NumPieces()
    requires |flat| == files.TotalSize()
    requires
      var size := |Piece2(files, flat, command.piece)|;
      var from, length := files.PieceStart(command.piece) + command.offset, LeafLength(size, command.offset);
      && (reply.error.NoError? ==> command.offset < size && AllPresent(a.t, a.store, from, length))
      && (reply.error.Failed? && command.offset < size && sound ==>
            !HomesSafe(a.t) || !AllPresent(a.t, a.store, from, length))
    ensures Effect(files, a, a, command, reply, event, sound)
  {
    PieceSize2Within(files, command.piece);
    SubWithin(flat, files.PieceStart(command.piece), files.PieceSize2(command.piece), 0, 0);
    assert |Piece2(files, flat, command.piece)| == files.PieceSize2(command.piece);
  }

  /** `async_hash2`. */
  method RunHashAt(cache: DescriptorCache, torrent: TorrentStorage, k: nat, piece: nat, offset: nat,
                   ghost sha1: seq<byte> -> nat, sha256: seq<byte> -> nat, ghost views: seq<Torrent>)
    returns (reply: Reply, ghost event: Event)
    requires cache.Valid() && torrent.Valid() && k < |views| && views[k] == torrent.View()
    requires GoodState(views, Keys(cache.descriptors))
    requires torrent.files.Valid() && piece < torrent.files.NumPieces()
    modifies cache, cache.bridge
    ensures cache.Valid() && torrent.Valid() && cache.bridge.faults >= old(cache.bridge.faults)
    ensures Done(torrent.files, views, k, old(At(cache, torrent)), At(cache, torrent),
                 old(Keys(cache.descriptors)), Keys(cache.descriptors),
                 HashAt(k, piece, offset), reply, event, cache.bridge.faults == old(cache.bridge.faults), sha1, sha256)
  {
    hide *;
    ghost var before, keys, a := cache.bridge.Contents(), Keys(cache.descriptors), At(cache, torrent);
    ghost var command := HashAt(k, piece, offset);
    AtIs(cache, torrent);
    GoodOne(views, keys, k);
    ghost var flat := Flat(views[k], before);
    var result, error := HashBlock(cache, torrent, k, piece, offset, sha256, 0);
    reply := Reply(error, NO_STATUS, [], result, [], []);
    event := Quiet;
    if error.Failed? {
      ExplainsQuiet(torrent.files, command, reply, sha1, sha256);
    } else {
      ExplainsHashAt(torrent.files, command, flat, reply, sha1, sha256);
      event := Got(k, torrent.files.PieceStart(piece) + offset,
                   Sub(flat, torrent.files.PieceStart(piece) + offset,
                       LeafLength(torrent.files.PieceSize2(piece), offset)));
    }
    BlockDigestRange(Piece2(torrent.files, flat, piece), offset, sha256, result, error);
    EffectHashAt(torrent.files, a, command, reply, event, cache.bridge.faults == old(cache.bridge.faults), flat);
    OnlyLooked(views, keys, k, torrent, Keys(cache.descriptors), before, event);
    AtIs(cache, torrent);
    KeysAfterIs(command, k, keys, Keys(cache.descriptors));
    DoneIs(torrent.files, views, k, a, At(cache, torrent), keys, Keys(cache.descriptors), command, reply, event,
           cache.bridge.faults == old(cache.bridge.faults), sha1, sha256);
  }

  lemma BlockDigestRange(part: seq<byte>, offset: nat, sha256: seq<byte> -> nat, result: nat, error: StorageError)
    requires BlockDigest(part, offset, sha256, result, error)
    ensures error.NoError? ==> offset < |part|
  {
  }

  lemma NothingTouchedAt(store: Store, t: Torrent)
    requires t.WellFormed()
    ensures SameOutside(store, store, t.Footprint())
  {
  }

  lemma WrittenParts(t: Torrent, store: Store, store': Store, from: nat, data: seq<byte>)
    requires t.WellFormed() && Written(t, store, store', from, data)
    ensures SameOutside(store, store', t.Footprint())
  {
  }

  lemma EffectWrite(files: FileStorage, a: State, b: State, command: Command, reply: Reply, event: Event, sound: bool)
    requires a.Valid() && b.Valid() && files.Valid() && files.entries == a.t.files && command.Write?
    requires b.t == a.t && b.names == a.names && b.removals == a.removals && event.Wrote?
    requires Written(a.t, a.store, b.store, event.from, event.bytes)
    requires SameOutside(a.store, b.store,
                         HomesOf(a.t, files.PieceStart(command.piece) + command.start, |command.bytes|))
    requires Grown(a.t, a.store, b.store, event.from, |event.bytes|)
    requires reply.error.Failed? && sound ==> !HomesSafe(a.t)
    ensures Effect(files, a, b, command, reply, event, sound)
  {
  }

  /** `async_write`. */
  method RunWrite(cache: DescriptorCache, torrent: TorrentStorage, k: nat, piece: nat, start: nat, bytes: seq<byte>,
                  ghost sha1: seq<byte> -> nat, ghost sha256: seq<byte> -> nat, ghost views: seq<Torrent>)
    returns (reply: Reply, ghost event: Event)
    requires cache.Valid() && torrent.Valid() && k < |views| && views[k] == torrent.View()
    requires GoodState(views, Keys(cache.descriptors))
    modifies cache, cache.bridge
    ensures cache.Valid() && torrent.Valid() && cache.bridge.faults >= old(cache.bridge.faults)
    ensures Done(torrent.files, views, k, old(At(cache, torrent)), At(cache, torrent),
                 old(Keys(cache.descriptors)), Keys(cache.descriptors),
                 Write(k, piece, start, bytes), reply, event, cache.bridge.faults == old(cache.bridge.faults), sha1, sha256)
  {
    hide *;
    ghost var before, keys, a := cache.bridge.Contents(), Keys(cache.descriptors), At(cache, torrent);
    ghost var command := Write(k, piece, start, bytes);
    AtIs(cache, torrent);
    GoodOne(views, keys, k);
    var input := new byte[|bytes|](i requires 0 <= i < |bytes| => bytes[i]);
    assert input[..] == bytes;
    var transferred, error := WriteBlock(cache, torrent, k, piece, start, |bytes|, input);
    SettledHome(keys, Keys(cache.descriptors), k, torrent);
    ghost var from := torrent.files.PieceStart(piece) + start;
    reply := Report(error, NO_STATUS);
    event := Wrote(k, from, bytes[..transferred]);
    assert input[..transferred] == bytes[..transferred];
    ExplainsWrite(torrent.files, command, reply, event, sha1, sha256);
    WrittenParts(views[k], before, cache.bridge.Contents(), from, bytes[..transferred]);
    AdvanceWrote(views[k], before, cache.bridge.Contents(), k, from, bytes[..transferred]);
    JobDoneAtHome(views, keys, k, torrent.View(), Keys(cache.descriptors), before, cache.bridge.Contents(), event);
    AtIs(cache, torrent);
    EffectWrite(torrent.files, a, At(cache, torrent), command, reply, event, cache.bridge.faults == old(cache.bridge.faults));
    KeysAfterIs(command, k, keys, Keys(cache.descriptors));
    DoneIs(torrent.files, views, k, a, At(cache, torrent), keys, Keys(cache.descriptors), command, reply, event,
           cache.bridge.faults == old(cache.bridge.faults), sha1, sha256);
  }

  // ---- Jobs that keep the bytes

  lemma AdvancePreserved(t: Torrent, before: Store, t': Torrent, after: Store, k: nat)
    requires t.WellFormed() && Preserved(t, before, t', after)
    ensures t'.WellFormed() && Advance(t, before, t', after, k, [Quiet]) && SameOutside(before, after, t.Footprint())
    ensures t'.files == t.files && t'.paths == t.paths && t'.part == t.part
  {
  }

  lemma EffectPrioritize(files: FileStorage, a: State, b: State, command: Command, reply: Reply, sound: bool)
    requires a.Valid() && b.Valid() && files.Valid() && files.entries == a.t.files && command.Prioritize?
    requires b.t.files == a.t.files && b.t.part == a.t.part
    requires PrioritizeEffect(a, b, command.priorities, reply, sound)
    ensures Effect(files, a, b, command, reply, Quiet, sound)
  {
  }

  lemma PrioritizeEffectIntro(a: State, b: State, requested: seq<nat>, reply: Reply, sound: bool)
    requires a.Valid() && b.Valid() && b.names == a.names && reply.priorities == b.t.priorities
    requires b.t.files == a.t.files && b.t.part == a.t.part && a.removals <= b.removals
    requires Preserved(a.t, a.store, b.t, b.store)
    requires
      var wanted := ResizePriorities(requested, |a.t.files|);
      && |wanted| == |b.t.files| == |a.t.priorities|
      && StoppedAt(a.t, wanted, reply.error, b.t.priorities)
      && SameOutside(a.store, b.store, Rehomed(a.t, wanted, |wanted|))
      && VacatedAt(a.t, wanted, reply.error, b.removals[|a.removals|..])
      && (reply.error.NoError? ==> Achievable(a.t, a.store, wanted))
      && (reply.error.NoError? ==>
            && |b.t.priorities| == |wanted|
            && VacatedUpTo(b.t, a.t.priorities, b.t.priorities, |wanted|, b.store))
      && (reply.error.Failed? && sound ==> !Achievable(a.t, a.store, wanted))
    requires reply.error.NoError? && NothingSkipped(b.t.priorities) ==> b.t.part !in b.store
    requires
      var wanted := ResizePriorities(requested, |a.t.files|);
      reply.error.NoError? && !NothingSkipped(b.t.priorities) ==> Progress(a.t, a.store, wanted, |wanted|, b.store)
    requires b.t.part in a.store && b.t.part !in b.store ==> NothingSkipped(b.t.priorities)
    ensures PrioritizeEffect(a, b, requested, reply, sound)
  {
    hide Achievable, Preserved, VacatedUpTo, Rehomed, VacatedAt, NothingSkipped, Progress;
    StoppedIs(a.t, ResizePriorities(requested, |a.t.files|), reply.error, b.t.priorities, []);
  }

  /** `async_set_file_priority`. */
  method RunPrioritize(cache: DescriptorCache, torrent: TorrentStorage, k: nat, priorities: seq<nat>,
                       ghost sha1: seq<byte> -> nat, ghost sha256: seq<byte> -> nat, ghost views: seq<Torrent>)
    returns (reply: Reply)
    requires cache.Valid() && torrent.Valid() && k < |views| && views[k] == torrent.View()
    requires GoodState(views, Keys(cache.descriptors))
    modifies cache, cache.bridge, torrent
    ensures cache.Valid() && torrent.Valid() && cache.bridge.faults >= old(cache.bridge.faults)
    ensures old(torrent.PathsSafe()) ==> torrent.PathsSafe()
    ensures Done(torrent.files, views, k, old(At(cache, torrent)), At(cache, torrent),
                 old(Keys(cache.descriptors)), Keys(cache.descriptors),
                 Prioritize(k, priorities), reply, Quiet, cache.bridge.faults == old(cache.bridge.faults), sha1, sha256)
  {
    hide *;
    ghost var before, keys, a := cache.bridge.Contents(), Keys(cache.descriptors), At(cache, torrent);
    ghost var command := Prioritize(k, priorities);
    AtIs(cache, torrent);
    torrent.ViewParts();
    torrent.PathsSafeIs();
    GoodOne(views, keys, k);
    var error, current := SetFilePriority(cache, torrent, k, priorities);
    reply := Report(error, NO_STATUS).(priorities := current);
    ExplainsQuiet(torrent.files, command, reply, sha1, sha256);
    AdvancePreserved(views[k], before, torrent.View(), cache.bridge.Contents(), k);
    SettledSubset(keys, Keys(cache.descriptors), k, views[k]);
    SettledSamePaths(Keys(cache.descriptors), k, views[k], torrent.View());
    JobDoneAtHome(views, keys, k, torrent.View(), Keys(cache.descriptors), before, cache.bridge.Contents(), Quiet);
    AtIs(cache, torrent);
    torrent.ViewParts();
    torrent.PathsSafeIs();
    PrioritizeEffectIntro(a, At(cache, torrent), priorities, reply, cache.bridge.faults == old(cache.bridge.faults));
    EffectPrioritize(torrent.files, a, At(cache, torrent), command, reply, cache.bridge.faults == old(cache.bridge.faults));
    KeysAfterIs(command, k, keys, Keys(cache.descriptors));
    DoneIs(torrent.files, views, k, a, At(cache, torrent), keys, Keys(cache.descriptors), command, reply, Quiet,
           cache.bridge.faults == old(cache.bridge.faults), sha1, sha256);
  }

  lemma EffectCheck(files: FileStorage, a: State, b: State, command: Command, reply: Reply, sound: bool)
    requires a.Valid() && b.Valid() && files.Valid() && files.entries == a.t.files && command.Check? && b.t.files == a.t.files
    requires CheckEffect(files, a, b, command.resume, command.links, reply, sound)
    ensures Effect(files, a, b, command, reply, Quiet, sound)
  {
  }

  lemma CheckEffectIntro(files: FileStorage, a: State, b: State, resume: ResumeData, links: bool, reply: Reply,
                         sound: bool,
                         queries: seq<Query>)
    requires a.Valid() && files.Valid() && b.t == a.t && b.names == a.names && b.removals == a.removals
    requires Preserved(a.t, a.store, b.t, b.store)
    requires reply.status.fatalDiskError <==> reply.error.Failed?
    requires links ==> reply.error.Failed?
    requires reply.error.Failed? && sound ==> links || (!resume.Claims() && !HomesSafe(a.t))
    requires if links || resume.Claims() then b.store == a.store else EachSized(a.t, a.store, b.store, |a.t.files|)
    requires reply.error.NoError? && resume.Claims() ==>
               && (reply.status.needFullCheck <==> CheckDue(files, a.t, a.store, resume))
               && (reply.status.oversizedFile <==> TooLong(files, a.t, a.store, resume))
    requires reply.error.NoError? && !resume.Claims() ==>
               && !reply.status.oversizedFile
               && SizedUpTo(a.t, b.store, |a.t.files|)
               && (reply.status.needFullCheck <==> KnownToExist(a.t, a.store, queries, |a.t.files|))
               && (sound ==> Answered(queries))
    ensures CheckEffect(files, a, b, resume, links, reply, sound)
  {
    KnownExactly(a.t, a.store, queries, |a.t.files|);
  }

  /** `async_check_files`. */
  method RunCheck(cache: DescriptorCache, torrent: TorrentStorage, k: nat, resume: ResumeData, links: bool,
                  ghost sha1: seq<byte> -> nat, ghost sha256: seq<byte> -> nat, ghost views: seq<Torrent>)
    returns (reply: Reply)
    requires cache.Valid() && torrent.Valid() && k < |views| && views[k] == torrent.View()
    requires GoodState(views, Keys(cache.descriptors))
    modifies cache, cache.bridge
    ensures cache.Valid() && torrent.Valid() && cache.bridge.faults >= old(cache.bridge.faults)
    ensures Done(torrent.files, views, k, old(At(cache, torrent)), At(cache, torrent),
                 old(Keys(cache.descriptors)), Keys(cache.descriptors),
                 Check(k, resume, links), reply, Quiet, cache.bridge.faults == old(cache.bridge.faults), sha1, sha256)
  {
    hide *;
    ghost var before, keys, a := cache.bridge.Contents(), Keys(cache.descriptors), At(cache, torrent);
    ghost var command := Check(k, resume, links);
    AtIs(cache, torrent);
    GoodOne(views, keys, k);
    var status, error := CheckFiles(cache, torrent, k, resume, links);
    reply := Report(error, status);
    ExplainsQuiet(torrent.files, command, reply, sha1, sha256);
    AdvancePreserved(views[k], before, torrent.View(), cache.bridge.Contents(), k);
    SettledHome(keys, Keys(cache.descriptors), k, torrent);
    JobDoneAtHome(views, keys, k, torrent.View(), Keys(cache.descriptors), before, cache.bridge.Contents(), Quiet);
    AtIs(cache, torrent);
    CheckEffectIntro(torrent.files, a, At(cache, torrent), resume, links, reply,
                     cache.bridge.faults == old(cache.bridge.faults), cache.bridge.queries[|old(cache.bridge.queries)|..]);
    EffectCheck(torrent.files, a, At(cache, torrent), command, reply, cache.bridge.faults == old(cache.bridge.faults));
    KeysAfterIs(command, k, keys, Keys(cache.descriptors));
    DoneIs(torrent.files, views, k, a, At(cache, torrent), keys, Keys(cache.descriptors), command, reply, Quiet,
           cache.bridge.faults == old(cache.bridge.faults), sha1, sha256);
  }

  lemma EffectRelease(files: FileStorage, a: State, command: Command, reply: Reply, sound: bool)
    requires a.Valid() && files.Valid() && files.entries == a.t.files && command.Release? && reply.error.NoError?
    ensures Effect(files, a, a, command, reply, Quiet, sound)
  {
  }

  /** `async_release_files`. */
  method RunRelease(cache: DescriptorCache, torrent: TorrentStorage, k: nat,
                    ghost sha1: seq<byte> -> nat, ghost sha256: seq<byte> -> nat, ghost views: seq<Torrent>)
    returns (reply: Reply)
    requires cache.Valid() && torrent.Valid() && k < |views| && views[k] == torrent.View()
    requires GoodState(views, Keys(cache.descriptors))
    modifies cache, cache.bridge
    ensures cache.Valid() && torrent.Valid() && cache.bridge.faults >= old(cache.bridge.faults)
    ensures Done(torrent.files, views, k, old(At(cache, torrent)), At(cache, torrent),
                 old(Keys(cache.descriptors)), Keys(cache.descriptors),
                 Release(k), reply, Quiet, cache.bridge.faults == old(cache.bridge.faults), sha1, sha256)
  {
    hide *;
    ghost var before, keys, a := cache.bridge.Contents(), Keys(cache.descriptors), At(cache, torrent);
    AtIs(cache, torrent);
    GoodOne(views, keys, k);
    KeysElsewhere(cache.descriptors, k);
    KeysDrop(cache.descriptors, OfStorage(k));
    cache.CloseStorage(k);
    reply := Report(NoError, NO_STATUS);
    ExplainsQuiet(torrent.files, Release(k), reply, sha1, sha256);
    PreservedSame(views[k], before);
    AdvancePreserved(views[k], before, torrent.View(), cache.bridge.Contents(), k);
    SettledSubset(keys, Keys(cache.descriptors), k, views[k]);
    JobDoneAtHome(views, keys, k, torrent.View(), Keys(cache.descriptors), before, cache.bridge.Contents(), Quiet);
    AtIs(cache, torrent);
    EffectRelease(torrent.files, a, Release(k), reply, cache.bridge.faults == old(cache.bridge.faults));
    KeysAfterIs(Release(k), k, keys, Keys(cache.descriptors));
    DoneIs(torrent.files, views, k, a, At(cache, torrent), keys, Keys(cache.descriptors), Release(k), reply, Quiet,
           cache.bridge.faults == old(cache.bridge.faults), sha1, sha256);
  }

  // ---- Renaming: the new name must be free, which the code leaves to its caller

  /** Nobody keeps data under the new name, nor, for a pad file, under the old one. */
  predicate RenameFree(views: seq<Torrent>, k: nat, i: nat, path: string) {
    && k < |views| && (forall j :: 0 <= j < |views| ==> views[j].WellFormed()) && i < |views[k].files|
    && (if views[k].files[i].pad then Unused(views, views[k].paths[i]) && Unused(views, path)
        else FreePath(views[k], i, path) && forall j :: 0 <= j < |views| && j != k ==> path !in views[j].Footprint())
  }

  predicate Unused(views: seq<Torrent>, path: string)
    requires forall j :: 0 <= j < |views| ==> views[j].WellFormed()
  {
    forall j :: 0 <= j < |views| ==> path !in views[j].Footprint()
  }

  lemma SoleUsers(views: seq<Torrent>, ds: seq<OpenDescriptor>, k: nat, i: nat, path: string)
    requires GoodState(views, Keys(ds)) && RenameFree(views, k, i, path)
    ensures SoleUser(ds, k, i, views[k].paths[i]) && SoleUser(ds, k, i, path)
  {
    FdsKeysMembers(ds);
    forall d | d in ds && (d.path == views[k].paths[i] || d.path == path)
      ensures d.storage == k && d.file == i
    {
      assert d.Key() in Keys(ds);
      KeysAtHome(views, Keys(ds), d.Key());
      assert !views[k].files[i].pad ==> views[k].paths[i] in views[k].Footprint();
    }
  }

  lemma RenamedSettled(views: seq<Torrent>, keys: set<FileKey>, k: nat, i: nat, path: string, keys': set<FileKey>)
    requires GoodState(views, keys) && RenameFree(views, k, i, path) && keys' <= keys
    requires forall key :: key in keys' ==> !(key.storage == k && key.file == i)
    ensures WithPath(views[k], i, path).WellFormed() && Settled(keys', k, WithPath(views[k], i, path))
    ensures forall j :: 0 <= j < |views| && j != k ==>
                          views[j].Footprint() !! WithPath(views[k], i, path).Footprint() + {views[k].paths[i], path}
  {
    var t' := WithPath(views[k], i, path);
    assert !views[k].files[i].pad ==> views[k].paths[i] in views[k].Footprint();
    assert t'.Footprint() <= views[k].Footprint() + {path};
    assert views[k].files[i].pad ==> t'.Footprint() == views[k].Footprint();
    forall key | key in keys'
      ensures if key.storage == k then Tracked(key, t') else key.path !in t'.Footprint()
    {
      KeysAtHome(views, keys, key);
    }
    forall j | 0 <= j < |views| && j != k
      ensures views[j].Footprint() !! t'.Footprint() + {views[k].paths[i], path}
    {
      assert j < k || k < j;
    }
  }

  /** The name of a pad file is of no consequence. */
  lemma PadRenamed(t: Torrent, before: Store, i: nat, path: string)
    requires t.Distinct() && i < |t.files| && t.files[i].pad && t.paths[i] in before
    requires t.paths[i] !in t.Footprint() && path !in t.Footprint()
    ensures
      var t', after := WithPath(t, i, path), RenamedStore(before, t.paths[i], path);
      && t'.Distinct() && Flat(t', after) == Flat(t, before) && KeepsPresent(t, before, t', after)
      && SameOutside(before, after, {t.paths[i], path})
  {
    forall j | 0 <= j < |t.files| && !t.files[j].pad
      ensures t.HomePath(j) in t.Footprint()
    {
      HomeInFootprint(t, j);
    }
    PadRenameKeeps(t, before, i, path);
    RenameKeepsDistinct(t, i, path);
  }

  lemma EffectRename(files: FileStorage, a: State, b: State, command: Command, reply: Reply, sound: bool)
    requires a.Valid() && b.Valid() && files.Valid() && files.entries == a.t.files && command.Rename?
    requires
      var index, path := command.index, RootedPath(a.names.root, command.name);
      && (reply.error.Failed? ==> b == a)
      && (reply.error.Failed? && sound ==>
            !(0 <= index < |a.t.files|) || !Safe(command.name) || !Safe(path) || a.t.paths[index] !in a.store)
      && (reply.error.NoError? ==>
            && 0 <= index < |a.t.files| && Safe(command.name) && Safe(path) && a.t.paths[index] in a.store
            && b.t == a.t.(paths := a.t.paths[index := path])
            && b.names == Naming(a.names.root, a.names.logical[index := command.name])
            && b.store == RenamedStore(a.store, a.t.paths[index], path) && b.removals == a.removals)
    ensures Effect(files, a, b, command, reply, Quiet, sound)
  {
  }

  /** `async_rename_file`. */
  method RunRename(cache: DescriptorCache, torrent: TorrentStorage, k: nat, index: int, name: string,
                   ghost sha1: seq<byte> -> nat, ghost sha256: seq<byte> -> nat, ghost views: seq<Torrent>)
    returns (reply: Reply)
    requires cache.Valid() && torrent.Valid() && k < |views| && views[k] == torrent.View()
    requires GoodState(views, Keys(cache.descriptors))
    requires 0 <= index < |torrent.files.entries| && Safe(name) ==>
               RenameFree(views, k, index, RootedPath(torrent.saveRoot, name))
    modifies cache, cache.bridge, torrent
    ensures cache.Valid() && torrent.Valid() && cache.bridge.faults >= old(cache.bridge.faults)
    ensures old(torrent.PathsSafe()) ==> torrent.PathsSafe()
    ensures Done(torrent.files, views, k, old(At(cache, torrent)), At(cache, torrent),
                 old(Keys(cache.descriptors)), Keys(cache.descriptors),
                 Rename(k, index, name), reply, Quiet, cache.bridge.faults == old(cache.bridge.faults), sha1, sha256)
  {
    hide *;
    ghost var before, keys, a := cache.bridge.Contents(), Keys(cache.descriptors), At(cache, torrent);
    ghost var command, path := Rename(k, index, name), RootedPath(torrent.saveRoot, name);
    AtIs(cache, torrent);
    GoodOne(views, keys, k);
    torrent.ViewParts();
    torrent.PathsSafeIs();
    ghost var names := torrent.Names();
    if 0 <= index < |torrent.files.entries| && Safe(name) {
      SoleUsers(views, cache.descriptors, k, index, path);
    }
    var error := RenameFile(cache, torrent, k, index, name);
    reply := Report(error, NO_STATUS);
    ExplainsQuiet(torrent.files, command, reply, sha1, sha256);
    if SafeNaming(names) {
      NamingStepSafe(names, torrent.Names());
    }
    torrent.PathsSafeIs();
    torrent.ViewParts();
    AtIs(cache, torrent);
    if error.Failed? {
      assert torrent.View() == views[k];
      PreservedSame(views[k], before);
      AdvancePreserved(views[k], before, torrent.View(), cache.bridge.Contents(), k);
      SettledSubset(keys, Keys(cache.descriptors), k, views[k]);
      JobDoneAtHome(views, keys, k, torrent.View(), Keys(cache.descriptors), before, cache.bridge.Contents(), Quiet);
    } else {
      RenameDone(views, keys, k, index, path, torrent.View(), Keys(cache.descriptors), before, cache.bridge.Contents());
    }
    EffectRename(torrent.files, a, At(cache, torrent), command, reply, cache.bridge.faults == old(cache.bridge.faults));
    KeysAfterIs(command, k, keys, Keys(cache.descriptors));
    DoneIs(torrent.files, views, k, a, At(cache, torrent), keys, Keys(cache.descriptors), command, reply, Quiet,
           cache.bridge.faults == old(cache.bridge.faults), sha1, sha256);
  }

  lemma RenameDone(views: seq<Torrent>, keys: set<FileKey>, k: nat, i: nat, path: string, t': Torrent,
                   keys': set<FileKey>, before: Store, after: Store)
    requires GoodState(views, keys) && RenameFree(views, k, i, path) && keys' <= keys
    requires forall key :: key in keys' ==> !(key.storage == k && key.file == i)
    requires t'.files == views[k].files && t'.priorities == views[k].priorities && t'.part == views[k].part
    requires t'.paths == views[k].paths[i := path]
    requires views[k].paths[i] in before && after == RenamedStore(before, views[k].paths[i], path)
    ensures JobDone(views, k, t', keys', before, after, Quiet)
  {
    assert t' == WithPath(views[k], i, path);
    GoodOne(views, keys, k);
    if views[k].files[i].pad {
      PadRenamed(views[k], before, i, path);
    } else {
      RenameKeepsDistinct(views[k], i, path);
      RenameKeepsFlat(views[k], before, i, path);
    }
    RenamedSettled(views, keys, k, i, path, keys');
    AdvanceQuiet(views[k], before, t', after, k);
    JobDoneIntro(views, keys, k, t', keys', before, after, Quiet, {views[k].paths[i], path});
  }

  // ---- Moving: no file may come to a path of another torrent, or to the part file

  predicate MoveFree(views: seq<Torrent>, k: nat, targets: seq<string>) {
    && k < |views| && views[k].WellFormed() && |targets| == |views[k].files|
    && views[k].part !in DataPaths(views[k].files, targets)
    && (forall j :: 0 <= j < |views| && j != k ==>
                      views[j].WellFormed() && DataPaths(views[k].files, targets) !! views[j].Footprint())
  }

  lemma DataPathsInFootprint(t: Torrent)
    requires t.WellFormed()
    ensures t.Footprint() == DataPaths(t.files, t.paths) + {t.part}
  {
  }

  lemma SettledUnshared(ds: seq<OpenDescriptor>, k: nat, t: Torrent)
    requires t.WellFormed() && Settled(Keys(ds), k, t)
    ensures Unshared(ds, k, DataPaths(t.files, t.paths))
  {
    FdsKeysMembers(ds);
    DataPathsInFootprint(t);
    forall d | d in ds && d.storage != k
      ensures d.path !in DataPaths(t.files, t.paths)
    {
      assert d.Key() in Keys(ds);
    }
  }

  lemma {:induction false} NoKeysLeft(ds: seq<OpenDescriptor>, k: nat)
    ensures forall key :: key in Keys(Drop(ds, OfStorage(k))) ==> key.storage != k
  {
    if ds != [] {
      NoKeysLeft(ds[1..], k);
    }
  }

  /** With the torrent's descriptors closed, its new paths may be any that no other torrent has. */
  lemma MovedSettled(views: seq<Torrent>, keys: set<FileKey>, k: nat, t': Torrent, keys': set<FileKey>)
    requires GoodState(views, keys) && k < |views| && t'.WellFormed() && keys' <= keys
    requires forall key :: key in keys' ==> key.storage != k
    requires forall j :: 0 <= j < |views| && j != k ==> views[j].Footprint() !! t'.Footprint()
    ensures Settled(keys', k, t')
  {
    forall key | key in keys'
      ensures key.path !in t'.Footprint()
    {
      KeysAtHome(views, keys, key);
    }
  }

  lemma MoveApart(views: seq<Torrent>, keys: set<FileKey>, k: nat, t': Torrent, targets: seq<string>)
    requires GoodState(views, keys) && MoveFree(views, k, targets)
    requires t'.WellFormed() && t'.files == views[k].files && t'.part == views[k].part
    requires t'.paths == targets || t'.paths == views[k].paths
    ensures forall j :: 0 <= j < |views| && j != k ==>
                          views[j].Footprint() !! t'.Footprint() + (views[k].Footprint() + DataPaths(views[k].files, targets))
  {
  }

  /** A failed move: the torrent is where it was, and what the copies left is nobody's. */
  lemma MoveFailed(views: seq<Torrent>, keys: set<FileKey>, k: nat, targets: seq<string>, keys': set<FileKey>,
                   before: Store, after: Store)
    requires GoodState(views, keys) && MoveFree(views, k, targets) && keys' <= keys
    requires forall key :: key in keys' ==> key.storage != k
    requires Harmless(views[k].files, views[k].paths, targets, before, after)
    ensures JobDone(views, k, views[k], keys', before, after, Quiet)
  {
    var t := views[k];
    GoodOne(views, keys, k);
    SettledSubset(keys, keys', k, t);
    MoveApart(views, keys, k, t, targets);
    HarmlessFlat(t, before, after, targets);
    AdvanceQuiet(t, before, t, after, k);
    JobDoneIntro(views, keys, k, t, keys', before, after, Quiet, t.Footprint() + DataPaths(t.files, targets));
  }

  lemma HarmlessFlat(t: Torrent, before: Store, after: Store, targets: seq<string>)
    requires t.WellFormed() && |targets| == |t.files| && t.part !in DataPaths(t.files, targets)
    requires Harmless(t.files, t.paths, targets, before, after)
    ensures Flat(t, after) == Flat(t, before) && KeepsPresent(t, before, t, after)
    ensures SameOutside(before, after, t.Footprint() + DataPaths(t.files, targets))
  {
    forall i | 0 <= i < |t.files| && !t.files[i].pad && !t.Skipped(i)
      ensures SameFile(before, t.paths[i], after, t.paths[i])
    {
      assert t.paths[i] in DataPaths(t.files, t.paths);
    }
    FlatMoved(t, t, before, after);
  }

  /** A move that succeeded, or a change of the root alone, and its event. */
  lemma MoveDone(views: seq<Torrent>, keys: set<FileKey>, k: nat, t': Torrent, logical: seq<string>, root: string,
                 root': string, keys': set<FileKey>, before: Store, after: Store, flags: MoveFlags)
    returns (event: Event)
    requires GoodState(views, keys) && MoveFree(views, k, t'.paths) && keys' <= keys
    requires forall key :: key in keys' ==> key.storage != k
    requires t'.files == views[k].files && t'.priorities == views[k].priorities && t'.part == views[k].part
    requires t'.WellFormed() && views[k].WellFormed() && |logical| == |t'.files|
    requires views[k].paths == RootedPaths(root, logical) && t'.paths == RootedPaths(root', logical)
    requires if IsReset(flags) then after == before
             else Transferred(views[k].files, views[k].paths, t'.paths, before, after, flags)
    ensures event == Change(views[k], before, t', after, k) && (event.Quiet? || (event.Became? && event.k == k))
    ensures event.Quiet? <==>
            if IsReset(flags) then ReadsAlike(views[k], t', before) else AdoptsAlike(views[k], t', before, flags)
    ensures JobDone(views, k, t', keys', before, after, event)
  {
    var t := views[k];
    GoodOne(views, keys, k);
    MoveFreeIs(views, k, t'.paths);
    MoveKeepsDistinct(t, t', logical, root, root');
    MoveApart(views, keys, k, t', t'.paths);
    MovedSettled(views, keys, k, t', keys');
    DataPathsInFootprint(t);
    TransferredOutside(t.files, t.paths, t'.paths, before, after, flags);
    SameOutsideWider(before, after, DataPaths(t.files, t.paths) + DataPaths(t.files, t'.paths),
                     t.Footprint() + DataPaths(t.files, t'.paths));
    AdvanceChange(t, before, t', after, k);
    event := Change(t, before, t', after, k);
    JobDoneIntro(views, keys, k, t', keys', before, after, event, t.Footprint() + DataPaths(t.files, t'.paths));
    if IsReset(flags) {
      ExactReset(t, t', before, k);
    } else {
      ExactMove(t, t', before, after, flags, k);
    }
  }

  /** Exactly if all that the move adopted reads like what it left, no byte was lost. */
  lemma ExactMove(t: Torrent, t': Torrent, before: Store, after: Store, flags: MoveFlags, k: nat)
    requires t.Distinct() && t.WellFormed() && t'.WellFormed()
    requires t'.files == t.files && t'.priorities == t.priorities && t'.part == t.part
    requires t.part !in DataPaths(t.files, t'.paths)
    requires Transferred(t.files, t.paths, t'.paths, before, after, flags)
    ensures Change(t, before, t', after, k).Quiet? <==> AdoptsAlike(t, t', before, flags)
  {
    assert t.part !in DataPaths(t.files, t.paths);
    MoveKeepsExactly(t, t', before, after, flags);
  }

  lemma ExactReset(t: Torrent, t': Torrent, store: Store, k: nat)
    requires t.WellFormed() && t'.WellFormed()
    requires t'.files == t.files && t'.priorities == t.priorities && t'.part == t.part
    ensures Change(t, store, t', store, k).Quiet? <==> ReadsAlike(t, t', store)
  {
    RerootKeepsExactly(t, t', store);
  }

  /** With nothing in the way there is nothing to adopt. */
  lemma NothingToAdopt(t: Torrent, t': Torrent, before: Store)
    requires t.WellFormed() && t'.WellFormed() && t'.files == t.files
    requires forall path :: path in DataPaths(t.files, t'.paths) ==> path !in before
    ensures AdoptsAlike(t, t', before, FailIfExist)
  {
    forall i | 0 <= i < |t.files| && !t.files[i].pad
      ensures t'.paths[i] !in before
    {
      assert t'.paths[i] in DataPaths(t.files, t'.paths);
    }
  }

  lemma TransferredOutside(fs: seq<FileEntry>, paths: seq<string>, destinations: seq<string>, before: Store,
                           after: Store,
                           flags: MoveFlags)
    requires |fs| == |paths| == |destinations|
    ensures Transferred(fs, paths, destinations, before, after, flags) || after == before ==>
              SameOutside(before, after, DataPaths(fs, paths) + DataPaths(fs, destinations))
  {
  }

  lemma ExplainsMove(files: FileStorage, command: Command, reply: Reply, event: Event,
                     sha1: seq<byte> -> nat, sha256: seq<byte> -> nat)
    requires command.Move?
    requires event.Quiet? ||
             (event.Became? && event.k == command.k && reply.error.NoError? && !command.flags.FailIfExist?)
    ensures Explains(files, command, reply, event, sha1, sha256)
  {
  }

  lemma EffectMove(files: FileStorage, a: State, b: State, command: Command, reply: Reply, event: Event, sound: bool,
                   removals: seq<string>)
    requires a.removals <= b.removals && removals == b.removals[|a.removals|..]
    requires a.Valid() && b.Valid() && files.Valid() && files.entries == a.t.files && command.Move?
    requires b.t == a.t.(paths := b.t.paths) && b.names.logical == a.names.logical
    requires b.names.root == if reply.error.Failed? then a.names.root else NormalizedSaveRoot(command.root)
    requires event == Change(a.t, a.store, b.t, b.store, command.k)
    requires MoveResult(a.t.files, a.names.logical, a.t.paths, NormalizedSaveRoot(command.root), command.flags, a.store,
                        reply.status, reply.error, b.t.paths, b.store, removals)
    requires reply.error.NoError? ==> Safe(command.root)
    requires reply.error.NoError? ==>
               (event.Quiet? <==>
                if IsReset(command.flags) then ReadsAlike(a.t, b.t, a.store)
                else AdoptsAlike(a.t, b.t, a.store, command.flags))
    requires
      reply.error.Failed? && sound ==>
        !Safe(command.root) ||
        !MoveAllowed(a.t.files, a.names.logical, a.t.paths, RootedPaths(NormalizedSaveRoot(command.root), a.names.logical),
                     a.store, command.flags)
    ensures Effect(files, a, b, command, reply, event, sound)
  {
    hide NormalizedSaveRoot, MoveAllowed, Harmless, Transferred, AdoptsAlike, ReadsAlike, InTheWay, AskedToRemove, Change;
    assert removals == [] ==> b.removals == a.removals;
  }

  /** `async_move_storage`. */
  method RunMove(cache: DescriptorCache, torrent: TorrentStorage, k: nat, root: string, flags: MoveFlags,
                 ghost sha1: seq<byte> -> nat, ghost sha256: seq<byte> -> nat, ghost views: seq<Torrent>)
    returns (reply: Reply, ghost event: Event)
    requires cache.Valid() && torrent.Valid() && k < |views| && views[k] == torrent.View()
    requires GoodState(views, Keys(cache.descriptors))
    requires Safe(root) ==> MoveFree(views, k, RootedPaths(NormalizedSaveRoot(root), torrent.logicalPaths))
    modifies cache, cache.bridge, torrent
    ensures cache.Valid() && torrent.Valid() && cache.bridge.faults >= old(cache.bridge.faults)
    ensures old(torrent.PathsSafe()) ==> torrent.PathsSafe()
    ensures Done(torrent.files, views, k, old(At(cache, torrent)), At(cache, torrent),
                 old(Keys(cache.descriptors)), Keys(cache.descriptors),
                 Move(k, root, flags), reply, event, cache.bridge.faults == old(cache.bridge.faults), sha1, sha256)
  {
    hide *;
    ghost var before, keys, a := cache.bridge.Contents(), Keys(cache.descriptors), At(cache, torrent);
    ghost var logical, oldRoot, paths := torrent.logicalPaths, torrent.saveRoot, torrent.paths;
    ghost var command, removals := Move(k, root, flags), cache.bridge.removals;
    AtIs(cache, torrent);
    GoodOne(views, keys, k);
    KeysElsewhere(cache.descriptors, k);
    torrent.ViewParts();
    torrent.Lengths();
    torrent.PathsSafeIs();
    SettledUnshared(cache.descriptors, k, views[k]);
    KeysDrop(cache.descriptors, OfStorage(k));
    NoKeysLeft(cache.descriptors, k);
    var status, error := MoveJob(cache, torrent, k, root, flags);
    reply := Report(error, status);
    ghost var after := cache.bridge.Contents();
    torrent.ViewParts();
    torrent.Lengths();
    torrent.PathsSafeIs();
    AtIs(cache, torrent);
    event := MoveEvent(views, keys, k, a, At(cache, torrent), root, flags, status, error, Keys(cache.descriptors),
                       cache.bridge.removals[|removals|..]);
    ExplainsMove(torrent.files, command, reply, event, sha1, sha256);
    EffectMove(torrent.files, a, At(cache, torrent), command, reply, event,
               cache.bridge.faults == old(cache.bridge.faults), cache.bridge.removals[|removals|..]);
    KeysAfterIs(command, k, keys, Keys(cache.descriptors));
    DoneIs(torrent.files, views, k, a, At(cache, torrent), keys, Keys(cache.descriptors), command, reply, event,
           cache.bridge.faults == old(cache.bridge.faults), sha1, sha256);
  }

  /** What a move did, as its event says it. */
  lemma MoveEvent(views: seq<Torrent>, keys: set<FileKey>, k: nat, a: State, b: State, root: string, flags: MoveFlags,
                  status: Status, error: StorageError, keys': set<FileKey>, removals: seq<string>)
    returns (event: Event)
    requires GoodState(views, keys) && k < |views| && a.Valid() && b.Valid() && a.t == views[k]
    requires b.t == a.t.(paths := b.t.paths) && keys' <= keys
    requires Safe(root) ==> forall key :: key in keys' ==> key.storage != k
    requires !Safe(root) ==> error.Failed? && keys' == keys && b.store == a.store
    requires Safe(root) ==> MoveFree(views, k, RootedPaths(NormalizedSaveRoot(root), a.names.logical))
    requires b.names.logical == a.names.logical
    requires b.names.root == if error.Failed? then a.names.root else NormalizedSaveRoot(root)
    requires MoveResult(a.t.files, a.names.logical, a.t.paths, NormalizedSaveRoot(root), flags, a.store, status, error,
                        b.t.paths, b.store, removals)
    ensures event.Quiet? || (event.Became? && event.k == k && error.NoError? && !flags.FailIfExist?)
    ensures error.NoError? ==>
              (event.Quiet? <==>
               if IsReset(flags) then ReadsAlike(a.t, b.t, a.store) else AdoptsAlike(a.t, b.t, a.store, flags))
    ensures event == Change(a.t, a.store, b.t, b.store, k)
    ensures JobDone(views, k, b.t, keys', a.store, b.store, event)
  {
    hide *;
    var t, targets := views[k], RootedPaths(NormalizedSaveRoot(root), a.names.logical);
    ValidState(a);
    ValidState(b);
    GoodOne(views, keys, k);
    MoveResultIs(a.t.files, a.names.logical, a.t.paths, NormalizedSaveRoot(root), flags, a.store, status, error,
                 b.t.paths, b.store, removals);
    event := Quiet;
    if !Safe(root) {
      PreservedSame(t, a.store);
      AdvancePreserved(t, a.store, t, a.store, k);
      JobDoneAtHome(views, keys, k, t, keys, a.store, a.store, Quiet);
      QuietJob(views, k, t, keys, a.store, a.store);
    } else if error.Failed? {
      MoveFailed(views, keys, k, targets, keys', a.store, b.store);
      QuietJob(views, k, t, keys', a.store, b.store);
    } else {
      event := MoveDone(views, keys, k, b.t, a.names.logical, a.names.root, b.names.root, keys', a.store, b.store, flags);
      MoveAllowedIs(a.t.files, a.names.logical, a.t.paths, targets, a.store, flags);
      if flags.FailIfExist? {
        NothingToAdopt(t, b.t, a.store);
        ResetIs(flags);
      }
    }
  }

  lemma ValidState(a: State)
    requires a.Valid()
    ensures a.t.WellFormed() && |a.t.files| == |a.t.paths| == |a.names.logical|
    ensures a.t.paths == RootedPaths(a.names.root, a.names.logical)
  {
  }

  lemma MoveFreeIs(views: seq<Torrent>, k: nat, targets: seq<string>)
    requires MoveFree(views, k, targets)
    ensures k < |views| && |targets| == |views[k].files| && views[k].part !in DataPaths(views[k].files, targets)
  {
  }

  // ---- Deleting

  lemma DeleteDone(views: seq<Torrent>, keys: set<FileKey>, k: nat, keys': set<FileKey>, before: Store, after: Store)
    requires GoodState(views, keys) && k < |views| && views[k].WellFormed() && keys' <= keys
    requires SameOutside(before, after, views[k].Footprint())
    ensures JobDone(views, k, views[k], keys', before, after, Change(views[k], before, views[k], after, k))
    ensures after == before ==> Change(views[k], before, views[k], after, k) == Quiet
  {
    GoodOne(views, keys, k);
    SettledSubset(keys, keys', k, views[k]);
    AdvanceChange(views[k], before, views[k], after, k);
    JobDoneAtHome(views, keys, k, views[k], keys', before, after, Change(views[k], before, views[k], after, k));
  }

  lemma DeletedOutside(before: Store, after: Store, gone: set<string>)
    requires OnlyDeleted(before, after, gone)
    ensures SameOutside(before, after, gone)
  {
  }

  lemma ExplainsDelete(files: FileStorage, command: Command, reply: Reply, event: Event,
                       sha1: seq<byte> -> nat, sha256: seq<byte> -> nat)
    requires command.Delete? && (event.Quiet? || (event.Became? && event.k == command.k))
    requires !command.files && !command.partfile ==> event.Quiet?
    ensures Explains(files, command, reply, event, sha1, sha256)
  {
  }

  lemma EffectDelete(files: FileStorage, a: State, b: State, command: Command, reply: Reply, event: Event, sound: bool)
    requires a.Valid() && b.Valid() && files.Valid() && files.entries == a.t.files && command.Delete?
    requires b.t == a.t && b.names == a.names && (reply.error.Failed? ==> !sound)
    requires event == Change(a.t, a.store, b.t, b.store, command.k)
    requires b.removals == a.removals + Deletions(a.t, command.files, command.partfile)
    requires Deleted(a.t, a.store, b.store, command.files, command.partfile, reply.error)
    ensures Effect(files, a, b, command, reply, event, sound)
  {
  }

  lemma DeletionsAre(t: Torrent, all: bool, partfile: bool)
    requires t.WellFormed()
    ensures Deletions(t, all, partfile)
         == (if all then DataRemovals(t, |t.files|) else []) + if all || partfile then [t.part] else []
  {
  }

  /** `async_delete_files`. */
  method RunDelete(cache: DescriptorCache, torrent: TorrentStorage, k: nat, files: bool, partfile: bool,
                   ghost sha1: seq<byte> -> nat, ghost sha256: seq<byte> -> nat, ghost views: seq<Torrent>)
    returns (reply: Reply, ghost event: Event)
    requires cache.Valid() && torrent.Valid() && k < |views| && views[k] == torrent.View()
    requires GoodState(views, Keys(cache.descriptors))
    modifies cache, cache.bridge
    ensures cache.Valid() && torrent.Valid() && cache.bridge.faults >= old(cache.bridge.faults)
    ensures Done(torrent.files, views, k, old(At(cache, torrent)), At(cache, torrent),
                 old(Keys(cache.descriptors)), Keys(cache.descriptors),
                 Delete(k, files, partfile), reply, event, cache.bridge.faults == old(cache.bridge.faults), sha1, sha256)
  {
    hide *;
    ghost var before, keys, a := cache.bridge.Contents(), Keys(cache.descriptors), At(cache, torrent);
    ghost var command := Delete(k, files, partfile);
    AtIs(cache, torrent);
    GoodOne(views, keys, k);
    KeysElsewhere(cache.descriptors, k);
    torrent.ViewParts();
    KeysDrop(cache.descriptors, OfStorage(k));
    var error := DeleteFiles(cache, torrent, k, files, partfile);
    reply := Report(error, NO_STATUS);
    ghost var after := cache.bridge.Contents();
    DeletedOutside(before, after, views[k].Footprint());
    DeleteDone(views, keys, k, Keys(cache.descriptors), before, after);
    event := Change(views[k], before, views[k], after, k);
    DeletedIs(views[k], before, after, files, partfile, error);
    DeletionsAre(views[k], files, partfile);
    ExplainsDelete(torrent.files, command, reply, event, sha1, sha256);
    AtIs(cache, torrent);
    EffectDelete(torrent.files, a, At(cache, torrent), command, reply, event, cache.bridge.faults == old(cache.bridge.faults));
    KeysAfterIs(command, k, keys, Keys(cache.descriptors));
    DoneIs(torrent.files, views, k, a, At(cache, torrent), keys, Keys(cache.descriptors), command, reply, event,
           cache.bridge.faults == old(cache.bridge.faults), sha1, sha256);
  }

  // ---- Whole runs

  function Views(torrents: seq<TorrentStorage>): (views: seq<Torrent>)
    reads torrents
    ensures |views| == |torrents| && forall j :: 0 <= j < |views| ==> views[j] == torrents[j].View()
  {
    seq(|torrents|, j requires 0 <= j < |torrents| reads torrents => torrents[j].View())
  }

  function Namings(torrents: seq<TorrentStorage>): (names: seq<Naming>)
    reads torrents
    ensures |names| == |torrents| && forall j :: 0 <= j < |names| ==> names[j] == torrents[j].Names()
  {
    seq(|torrents|, j requires 0 <= j < |torrents| reads torrents => torrents[j].Names())
  }

  function Storages(torrents: seq<TorrentStorage>): (storages: seq<FileStorage>)
    ensures |storages| == |torrents| && forall j :: 0 <= j < |storages| ==> storages[j] == torrents[j].files
  {
    seq(|torrents|, j requires 0 <= j < |torrents| => torrents[j].files)
  }

  /** The torrents are different objects in a consistent state. */
  ghost predicate Loaded(torrents: seq<TorrentStorage>)
    reads torrents
  {
    && (forall i, j :: 0 <= i < j < |torrents| ==> torrents[i] != torrents[j])
    && (forall j :: 0 <= j < |torrents| ==> torrents[j].Valid())
  }

  /** The bridge is only handed paths below the granted tree for these torrents. */
  ghost predicate AllSafe(torrents: seq<TorrentStorage>)
    reads torrents
  {
    forall j :: 0 <= j < |torrents| ==> torrents[j].PathsSafe()
  }

  lemma OneChanged(torrents: seq<TorrentStorage>, views: seq<Torrent>, names: seq<Naming>, k: nat)
    requires |names| == |views| == |torrents| && k < |torrents| && torrents[k].Valid()
    requires forall i, j :: 0 <= i < j < |torrents| ==> torrents[i] != torrents[j]
    requires forall j :: 0 <= j < |torrents| && j != k ==>
                           torrents[j].Valid() && torrents[j].View() == views[j] && torrents[j].Names() == names[j]
    ensures Loaded(torrents) && Views(torrents) == views[k := torrents[k].View()]
    ensures Namings(torrents) == names[k := torrents[k].Names()]
  {
  }

  lemma AllSafeIs(torrents: seq<TorrentStorage>, safe: seq<bool>)
    requires |safe| == |torrents| && forall j :: 0 <= j < |torrents| ==> safe[j] == torrents[j].PathsSafe()
    ensures AllSafe(torrents) <==> forall j :: 0 <= j < |safe| ==> safe[j]
  {
  }

  lemma OneSafe(torrents: seq<TorrentStorage>, k: nat, safe: seq<bool>)
    requires |safe| == |torrents| && k < |torrents| && (safe[k] ==> torrents[k].PathsSafe())
    requires forall j :: 0 <= j < |torrents| && j != k ==> torrents[j].PathsSafe() == safe[j]
    ensures (forall j :: 0 <= j < |safe| ==> safe[j]) ==> AllSafe(torrents)
  {
  }

  /** Where all torrents and the tree are between two jobs, which removals were asked for, how often the
      bridge has failed, and what is in the cache. */
  datatype Snapshot =
    Snapshot(storages: seq<FileStorage>, views: seq<Torrent>, names: seq<Naming>, store: Store, removals: seq<string>,
             faults: nat, keys: set<FileKey>)
  {
    predicate Aligned() {
      |storages| == |views| == |names| && forall j :: 0 <= j < |storages| ==> storages[j].Valid()
    }

    function Of(k: nat): State
      requires Aligned() && k < |views|
    {
      State(views[k], names[k], store, removals)
    }
  }

  ghost function Now(cache: DescriptorCache, torrents: seq<TorrentStorage>): (s: Snapshot)
    reads torrents, cache, cache.bridge
  {
    Snapshot(Storages(torrents), Views(torrents), Namings(torrents), cache.bridge.Contents(), cache.bridge.removals,
             cache.bridge.faults, Keys(cache.descriptors))
  }

  lemma NowIs(cache: DescriptorCache, torrents: seq<TorrentStorage>)
    requires Loaded(torrents)
    ensures Now(cache, torrents)
         == Snapshot(Storages(torrents), Views(torrents), Namings(torrents), cache.bridge.Contents(),
                     cache.bridge.removals, cache.bridge.faults, Keys(cache.descriptors))
    ensures |Storages(torrents)| == |Views(torrents)| == |Namings(torrents)| == |torrents|
    ensures Now(cache, torrents).Aligned()
  {
    forall j | 0 <= j < |torrents|
      ensures Storages(torrents)[j].Valid()
    {
      assert torrents[j].Valid();
    }
  }

  lemma NowOf(cache: DescriptorCache, torrents: seq<TorrentStorage>, k: nat)
    requires k < |torrents| && Loaded(torrents)
    ensures Now(cache, torrents).Aligned() && k < |Now(cache, torrents).views|
    ensures Now(cache, torrents).Of(k) == At(cache, torrents[k])
    ensures Storages(torrents)[k] == torrents[k].files
  {
    NowIs(cache, torrents);
  }

  /** Jobs that are not part of the model's runs: without the torrent, for a piece there is not, or
      with a name or root that another file or torrent has. */
  predicate PassedOver(storages: seq<FileStorage>, views: seq<Torrent>, names: seq<Naming>, command: Command)
    requires |storages| == |views| == |names| && forall j :: 0 <= j < |storages| ==> storages[j].Valid()
  {
    if command.Settings? then false
    else if command.k >= |views| then true
    else
      match command
      case Hash(k, piece, _, _) => piece >= storages[k].NumPieces()
      case HashAt(k, piece, _) => piece >= storages[k].NumPieces()
      case Rename(k, index, name) =>
        0 <= index < |storages[k].entries| && Safe(name) && !RenameFree(views, k, index, RootedPath(names[k].root, name))
      case Move(k, root, _) => Safe(root) && !MoveFree(views, k, RootedPaths(NormalizedSaveRoot(root), names[k].logical))
      case _ => false
  }

  lemma PassingOver(torrents: seq<TorrentStorage>, command: Command)
    requires Loaded(torrents)
    ensures |Storages(torrents)| == |Views(torrents)| == |Namings(torrents)| == |torrents|
    ensures forall j :: 0 <= j < |torrents| ==> Storages(torrents)[j].Valid()
    ensures !PassedOver(Storages(torrents), Views(torrents), Namings(torrents), command) && !command.Settings? ==>
              command.k < |torrents| &&
              var torrent := torrents[command.k];
              && torrent.files.Valid()
              && (command.Hash? || command.HashAt? ==> command.piece < torrent.files.NumPieces())
              && (command.Rename? && 0 <= command.index < |torrent.files.entries| && Safe(command.name) ==>
                    RenameFree(Views(torrents), command.k, command.index, RootedPath(torrent.saveRoot, command.name)))
              && (command.Move? && Safe(command.root) ==>
                    MoveFree(Views(torrents), command.k, RootedPaths(NormalizedSaveRoot(command.root), torrent.logicalPaths)))
  {
    forall j | 0 <= j < |torrents|
      ensures Storages(torrents)[j].Valid()
    {
      assert torrents[j].Valid();
    }
  }

  /** One step of a run: what its command reports, what it does to its torrent, and that the others are
      as they were. */
  ghost predicate Outcome(s: Snapshot, command: Command, reply: Reply, event: Event, s': Snapshot,
                          sha1: seq<byte> -> nat, sha256: seq<byte> -> nat)
  {
    && s.Aligned() && s'.Aligned() && GoodState(s.views, s.keys) && GoodState(s'.views, s'.keys)
    && if command.Settings? then event.Quiet? && reply.error.NoError? && s' == s
       else if PassedOver(s.storages, s.views, s.names, command) then
         event.Quiet? && reply.error == Failed(OperationAborted, -1, FileRename) && s' == s
       else
         var k := command.k;
         && s'.storages == s.storages && s.faults <= s'.faults
         && s'.views == s.views[k := s'.views[k]] && s'.names == s.names[k := s'.names[k]]
         && Explains(s.storages[k], command, reply, event, sha1, sha256)
         && Effect(s.storages[k], s.Of(k), s'.Of(k), command, reply, event, s'.faults == s.faults)
         && AllAdvance(s.views, s.store, s'.views, s'.store, [event])
         && KeysAfter(command, k, s.keys, s'.keys)
  }

  lemma OutcomeJob(s: Snapshot, command: Command, reply: Reply, event: Event, s': Snapshot,
                   sha1: seq<byte> -> nat, sha256: seq<byte> -> nat)
    requires s.Aligned() && s'.Aligned() && GoodState(s.views, s.keys) && GoodState(s'.views, s'.keys)
    requires s'.storages == s.storages && s.faults <= s'.faults
    requires !command.Settings? && !PassedOver(s.storages, s.views, s.names, command) && command.k < |s.views|
    requires s'.views == s.views[command.k := s'.views[command.k]]
    requires s'.names == s.names[command.k := s'.names[command.k]]
    requires Explains(s.storages[command.k], command, reply, event, sha1, sha256)
    requires Effect(s.storages[command.k], s.Of(command.k), s'.Of(command.k), command, reply, event,
                    s'.faults == s.faults)
    requires AllAdvance(s.views, s.store, s'.views, s'.store, [event])
    requires KeysAfter(command, command.k, s.keys, s'.keys)
    ensures Outcome(s, command, reply, event, s', sha1, sha256)
  {
    hide Explains, Effect, AllAdvance, KeysAfter, GoodState;
  }

  lemma OutcomeNone(s: Snapshot, command: Command, reply: Reply, sha1: seq<byte> -> nat, sha256: seq<byte> -> nat)
    requires s.Aligned() && GoodState(s.views, s.keys)
    requires if command.Settings? then reply.error.NoError?
             else PassedOver(s.storages, s.views, s.names, command) &&
                  reply.error == Failed(OperationAborted, -1, FileRename)
    ensures Outcome(s, command, reply, Quiet, s, sha1, sha256)
  {
  }

  /** One command for a torrent. */
  method RunJob(cache: DescriptorCache, torrent: TorrentStorage, command: Command,
                sha1: seq<byte> -> nat, sha256: seq<byte> -> nat,
                ghost views: seq<Torrent>)
    returns (reply: Reply, ghost event: Event)
    requires cache.Valid() && torrent.Valid() && GoodState(views, Keys(cache.descriptors))
    requires !command.Settings? && command.k < |views| && views[command.k] == torrent.View() && torrent.files.Valid()
    requires command.Hash? || command.HashAt? ==> command.piece < torrent.files.NumPieces()
    requires command.Rename? && 0 <= command.index < |torrent.files.entries| && Safe(command.name) ==>
               RenameFree(views, command.k, command.index, RootedPath(torrent.saveRoot, command.name))
    requires command.Move? && Safe(command.root) ==>
               MoveFree(views, command.k, RootedPaths(NormalizedSaveRoot(command.root), torrent.logicalPaths))
    modifies cache, cache.bridge, torrent
    ensures cache.Valid() && torrent.Valid() && cache.bridge.faults >= old(cache.bridge.faults)
    ensures old(torrent.PathsSafe()) ==> torrent.PathsSafe()
    ensures Done(torrent.files, views, command.k, old(At(cache, torrent)), At(cache, torrent),
                 old(Keys(cache.descriptors)), Keys(cache.descriptors),
                 command, reply, event, cache.bridge.faults == old(cache.bridge.faults), sha1, sha256)
  {
    hide *;
    event := Quiet;
    match command {
      case Read(k, piece, start, length) =>
        reply, event := RunRead(cache, torrent, k, piece, start, length, sha1, sha256, views);
      case Write(k, piece, start, bytes) =>
        reply, event := RunWrite(cache, torrent, k, piece, start, bytes, sha1, sha256, views);
      case Hash(k, piece, needV1, places) =>
        reply, event := RunHash(cache, torrent, k, piece, needV1, places, sha1, sha256, views);
      case HashAt(k, piece, offset) =>
        reply, event := RunHashAt(cache, torrent, k, piece, offset, sha1, sha256, views);
      case Rename(k, index, name) =>
        reply := RunRename(cache, torrent, k, index, name, sha1, sha256, views);
      case Move(k, root, flags) =>
        reply, event := RunMove(cache, torrent, k, root, flags, sha1, sha256, views);
      case Prioritize(k, priorities) =>
        reply := RunPrioritize(cache, torrent, k, priorities, sha1, sha256, views);
      case Check(k, resume, links) =>
        reply := RunCheck(cache, torrent, k, resume, links, sha1, sha256, views);
      case Delete(k, files, partfile) =>
        reply, event := RunDelete(cache, torrent, k, files, partfile, sha1, sha256, views);
      case Release(k) =>
        reply := RunRelease(cache, torrent, k, sha1, sha256, views);
    }
  }

  /** The torrent that a command may change. */
  function Concerned(torrents: seq<TorrentStorage>, command: Command): (concerned: set<TorrentStorage>)
    ensures forall t :: t in concerned ==> t in torrents
  {
    if command.Settings? || command.k >= |torrents| then {} else {torrents[command.k]}
  }

  lemma ConcernedIs(torrents: seq<TorrentStorage>, command: Command)
    requires !command.Settings? && command.k < |torrents|
    ensures Concerned(torrents, command) == {torrents[command.k]}
  {
  }

  /** One command. */
  method RunOne(cache: DescriptorCache, torrents: seq<TorrentStorage>, command: Command,
                sha1: seq<byte> -> nat, sha256: seq<byte> -> nat)
    returns (reply: Reply, ghost event: Event)
    requires cache.Valid() && Loaded(torrents) && GoodState(Views(torrents), Keys(cache.descriptors))
    modifies cache, cache.bridge, Concerned(torrents, command)
    ensures cache.Valid() && Loaded(torrents) && GoodState(Views(torrents), Keys(cache.descriptors))
    ensures Outcome(old(Now(cache, torrents)), command, reply, event, Now(cache, torrents), sha1, sha256)
    ensures AllAdvance(old(Views(torrents)), old(cache.bridge.Contents()), Views(torrents), cache.bridge.Contents(), [event])
    ensures old(AllSafe(torrents)) ==> AllSafe(torrents)
  {
    hide *;
    ghost var views, names, before := Views(torrents), Namings(torrents), cache.bridge.Contents();
    ghost var start := Now(cache, torrents);
    NowIs(cache, torrents);
    PassingOver(torrents, command);
    event := Quiet;
    if command.Settings? {
      cache.SettingsUpdated(command.filePoolSize);
      reply := Report(NoError, NO_STATUS);
      AllAdvanceQuiet(views, Keys(cache.descriptors), before);
      OutcomeNone(start, command, reply, sha1, sha256);
      NowIs(cache, torrents);
      return;
    }
    if PassedOver(Storages(torrents), Views(torrents), Namings(torrents), command) {
      reply := Report(Failed(OperationAborted, -1, FileRename), NO_STATUS);
      AllAdvanceQuiet(views, Keys(cache.descriptors), before);
      OutcomeNone(start, command, reply, sha1, sha256);
      return;
    }
    var k := command.k;
    LoadedOne(torrents, k);
    ConcernedIs(torrents, command);
    ghost var safe := seq(|torrents|, j requires 0 <= j < |torrents| reads torrents => torrents[j].PathsSafe());
    AllSafeIs(torrents, safe);
    NowOf(cache, torrents, k);
    assert views[k] == torrents[k].View();
    AtIs(cache, torrents[k]);
    reply, event := RunJob(cache, torrents[k], command, sha1, sha256, views);
    forall j | 0 <= j < |torrents| && j != k
      ensures torrents[j].Valid() && torrents[j].View() == views[j] && torrents[j].Names() == names[j]
      ensures torrents[j].PathsSafe() == safe[j]
    {
      assert torrents[j] != torrents[k];
    }
    OneChanged(torrents, views, names, k);
    OneSafe(torrents, k, safe);
    NowIs(cache, torrents);
    NowOf(cache, torrents, k);
    AtIs(cache, torrents[k]);
    DoneIs(torrents[k].files, views, k, start.Of(k), At(cache, torrents[k]), start.keys, Keys(cache.descriptors),
           command, reply, event, cache.bridge.faults == old(cache.bridge.faults), sha1, sha256);
    AllAdvanceJob(views, k, torrents[k].View(), Keys(cache.descriptors), before, cache.bridge.Contents(), event);
    OutcomeJob(start, command, reply, event, Now(cache, torrents), sha1, sha256);
  }

  lemma LoadedOne(torrents: seq<TorrentStorage>, k: nat)
    requires Loaded(torrents) && k < |torrents|
    ensures torrents[k].Valid()
    ensures forall j :: 0 <= j < |torrents| ==> torrents[j].Valid()
    ensures forall i, j :: 0 <= i < j < |torrents| ==> torrents[i] != torrents[j]
  {
  }

  /** The steps of a run, one after the other. */
  ghost predicate Steps(states: seq<Snapshot>, script: seq<Command>, replies: seq<Reply>, log: seq<Event>,
                        sha1: seq<byte> -> nat, sha256: seq<byte> -> nat)
  {
    && |replies| == |log| == |script| && |states| == |script| + 1
    && forall n :: 0 <= n < |script| ==>
                     Outcome(states[n], script[n], replies[n], log[n], states[n + 1], sha1, sha256)
  }

  lemma StepsNothing(start: Snapshot, sha1: seq<byte> -> nat, sha256: seq<byte> -> nat)
    ensures Steps([start], [], [], [], sha1, sha256)
  {
  }

  lemma StepsMore(states: seq<Snapshot>, script: seq<Command>, replies: seq<Reply>, log: seq<Event>,
                  command: Command, reply: Reply, event: Event, next: Snapshot, sha1: seq<byte> -> nat, sha256: seq<byte> -> nat)
    requires Steps(states, script, replies, log, sha1, sha256) && |states| == |script| + 1
    requires Outcome(states[|script|], command, reply, event, next, sha1, sha256)
    ensures Steps(states + [next], script + [command], replies + [reply], log + [event], sha1, sha256)
  {
    hide Outcome;
  }

  lemma OutcomeAdvance(s: Snapshot, command: Command, reply: Reply, event: Event, s': Snapshot, sha1: seq<byte> -> nat, sha256: seq<byte> -> nat)
    requires Outcome(s, command, reply, event, s', sha1, sha256)
    ensures AllAdvance(s.views, s.store, s'.views, s'.store, [event]) && GoodState(s'.views, s'.keys)
  {
    if command.Settings? || PassedOver(s.storages, s.views, s.names, command) {
      AllAdvanceQuiet(s.views, s.keys, s.store);
    }
  }

  /** Between any two states of a run every torrent changed as that stretch of the log says. */
  lemma {:induction false} StretchesAdvance(states: seq<Snapshot>, script: seq<Command>, replies: seq<Reply>,
                                            log: seq<Event>, sha1: seq<byte> -> nat, sha256: seq<byte> -> nat,
                                            m: nat, n: nat)
    requires Steps(states, script, replies, log, sha1, sha256) && m <= n < |states| == |log| + 1
    requires GoodState(states[0].views, states[0].keys)
    ensures AllAdvance(states[m].views, states[m].store, states[n].views, states[n].store, log[m..n])
    ensures GoodState(states[n].views, states[n].keys)
    decreases n
  {
    hide Outcome, AllAdvance, GoodState;
    if n == 0 {
      AllAdvanceNothing(states[0].views, states[0].keys, states[0].store);
      assert log[0..0] == [];
    } else {
      StretchesAdvance(states, script, replies, log, sha1, sha256, if m < n then m else n - 1, n - 1);
      OutcomeAdvance(states[n - 1], script[n - 1], replies[n - 1], log[n - 1], states[n], sha1, sha256);
      if m == n {
        AllAdvanceNothing(states[n].views, states[n].keys, states[n].store);
        assert log[n..n] == [];
      } else {
        AllAdvanceConcat(states[m].views, states[m].store, states[n - 1].views, states[n - 1].store,
                         states[n].views, states[n].store, log[m..n - 1], [log[n - 1]]);
        assert log[m..n - 1] + [log[n - 1]] == log[m..n];
      }
    }
  }

  /** A move that finds nothing in its way loses nothing, whatever the jobs before it did. */
  lemma MoveOntoNothing(s: Snapshot, command: Command, reply: Reply, event: Event, s': Snapshot, sha1: seq<byte> -> nat, sha256: seq<byte> -> nat)
    requires Outcome(s, command, reply, event, s', sha1, sha256) && command.Move? && command.k < |s.views|
    requires reply.error.NoError? && !IsReset(command.flags)
    requires s.Of(command.k).Valid()
    requires
      var a := s.Of(command.k);
      !InTheWay(a.t.files, a.t.paths, RootedPaths(NormalizedSaveRoot(command.root), a.names.logical), a.store)
    ensures event.Quiet?
  {
    hide Explains, AllAdvance, KeysAfter, GoodState, Transferred, AskedToRemove, MoveAllowed, NormalizedSaveRoot, Change,
      FileStorage.Valid, SameReading;
  }

  /** Any run of jobs, with any failures and any short or interrupted transfers on the way. Every job
      has one entry in the log, a reply, and a state it leaves. For every torrent the flat array at
      the end is the one at the start with the log applied in order; every byte a job read or hashed
      is what the log before it says; nothing that could be read at the start, or was written since, is
      lost, except by a delete or by a move that adopts a file reading unlike the torrent's own, or only
      resets the root; where the bridge does not fail, a job does only if its condition says so; and the
      cache is coherent and owns every open descriptor. */
  method Run(cache: DescriptorCache, torrents: seq<TorrentStorage>, script: seq<Command>,
             sha1: seq<byte> -> nat, sha256: seq<byte> -> nat)
    returns (replies: seq<Reply>, ghost log: seq<Event>, ghost states: seq<Snapshot>)
    requires cache.Valid() && Loaded(torrents) && GoodState(Views(torrents), Keys(cache.descriptors))
    modifies cache, cache.bridge, torrents
    ensures cache.Valid() && Loaded(torrents) && GoodState(Views(torrents), Keys(cache.descriptors))
    ensures Steps(states, script, replies, log, sha1, sha256) && |states| == |script| + 1
    ensures states[0] == old(Now(cache, torrents)) && states[|script|] == Now(cache, torrents)
    ensures AllAdvance(old(Views(torrents)), old(cache.bridge.Contents()), Views(torrents), cache.bridge.Contents(), log)
    ensures old(AllSafe(torrents)) ==> AllSafe(torrents)
  {
    hide *;
    ghost var views, before := Views(torrents), cache.bridge.Contents();
    AllAdvanceNothing(views, Keys(cache.descriptors), before);
    replies, log, states := [], [], [Now(cache, torrents)];
    StepsNothing(Now(cache, torrents), sha1, sha256);
    assert script[..0] == [];
    for n := 0 to |script|
      invariant cache.Valid() && Loaded(torrents) && GoodState(Views(torrents), Keys(cache.descriptors))
      invariant Steps(states, script[..n], replies, log, sha1, sha256) && |states| == n + 1
      invariant states[0] == old(Now(cache, torrents)) && states[n] == Now(cache, torrents)
      invariant AllAdvance(views, before, Views(torrents), cache.bridge.Contents(), log)
      invariant old(AllSafe(torrents)) ==> AllSafe(torrents)
    {
      ghost var v, mid := Views(torrents), cache.bridge.Contents();
      var reply;
      ghost var event;
      reply, event := RunOne(cache, torrents, script[n], sha1, sha256);
      AllAdvanceConcat(views, before, v, mid, Views(torrents), cache.bridge.Contents(), log, [event]);
      StepsMore(states, script[..n], replies, log, script[n], reply, event, Now(cache, torrents), sha1, sha256);
      assert script[..n] + [script[n]] == script[..n + 1];
      replies, log, states := replies + [reply], log + [event], states + [Now(cache, torrents)];
    }
    assert script[..|script|] == script;
  }

  /** A run up to the shutdown: afterwards every descriptor that was ever opened has been closed. */
  method RunToShutdown(cache: DescriptorCache, torrents: seq<TorrentStorage>, script: seq<Command>,
                       sha1: seq<byte> -> nat, sha256: seq<byte> -> nat)
    returns (replies: seq<Reply>, ghost log: seq<Event>, ghost states: seq<Snapshot>)
    requires cache.Valid() && Loaded(torrents) && GoodState(Views(torrents), Keys(cache.descriptors))
    modifies cache, cache.bridge, torrents
    ensures cache.descriptors == [] && cache.bridge.handles == map[]
    ensures Steps(states, script, replies, log, sha1, sha256) && |states| == |script| + 1
    ensures states[0] == old(Now(cache, torrents)) && states[|script|] == Now(cache, torrents).(keys := states[|script|].keys)
    ensures AllAdvance(old(Views(torrents)), old(cache.bridge.Contents()), Views(torrents), cache.bridge.Contents(), log)
  {
    hide *;
    replies, log, states := Run(cache, torrents, script, sha1, sha256);
    NowIs(cache, torrents);
    cache.CloseAll();
    NowIs(cache, torrents);
  }
}
