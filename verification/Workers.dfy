/** The worker thread on the real disk: the jobs that were accepted, in their order, as steps of a run
    whose torrents come to their slots and leave them. */
module Workers {
  import opened Bytes
  import opened Errors
  import opened Layout
  import opened Paths
  import opened FlatView
  import opened Bridges
  import opened Descriptors
  import opened DescriptorCaches
  import opened Torrents
  import opened SettledKeys
  import opened RunSpec
  import opened Runs
  import opened Tenancies
  import P = Protocol

  /** Where a torrent keeps its data, in a slot or not. */
  datatype Seat = Seat(t: Torrent, names: Naming)

  /** Between two jobs: the disk and the cache, which torrent each slot is for, and where every torrent is. */
  datatype Scene = Scene(s: Snapshot, occupants: seq<P.Option<nat>>, seats: seq<Seat>)

  /** A job: whether it was run, from which state, and what it reported. */
  datatype Turn = Turn(ran: bool, start: Snapshot, reply: Reply, event: Event)

  function AtSlot(command: Command, k: nat): Command {
    if command.Settings? then command else command.(k := k)
  }

  predicate NoneOf(keys: set<FileKey>, k: nat) {
    forall key :: key in keys ==> key.storage != k
  }

  /** The torrent is in the slot; nothing else changed. */
  function Seated(s: Snapshot, k: nat, files: FileStorage, seat: Seat): Snapshot
    requires s.Aligned() && k < |s.views|
  {
    s.(storages := s.storages[k := files], views := s.views[k := seat.t], names := s.names[k := seat.names])
  }

  /** What one job did. A job for a torrent runs as a step of a run in the torrent's slot, unless another
      torrent keeps its data where this one does; if the slot was not the torrent's before, no descriptor
      is cached under its index. Releases and removals close what the slot has open. */
  ghost predicate Worked(job: P.Job, payload: nat -> Command, files: seq<FileStorage>, a: Scene, turn: Turn, b: Scene,
                         sha1: seq<byte> -> nat, sha256: seq<byte> -> nat)
  {
    && a.s.Aligned() && b.s.Aligned() && |a.s.views| == |a.occupants| == |b.occupants| == |b.s.views|
    && |a.seats| == |b.seats| == |files|
    && match job
       case Work(id, k, tenant) =>
         && k < |a.occupants| && tenant < |a.seats|
         && if turn.ran then
              && turn.start == Seated(a.s, k, files[tenant], a.seats[tenant])
              && (a.occupants[k] == P.Some(tenant) || NoneOf(turn.start.keys, k))
              && Outcome(turn.start, AtSlot(payload(id), k), turn.reply, turn.event, b.s, sha1, sha256)
              && b.occupants == a.occupants[k := P.Some(tenant)]
              && b.seats == a.seats[tenant := Seat(b.s.views[k], b.s.names[k])]
            else b == a && a.occupants[k] != P.Some(tenant) && !CanMoveIn(a.s.views, k, a.seats[tenant].t)
       case Release(_, k) => b == a.(s := a.s.(keys := Elsewhere(a.s.keys, k)))
       case CloseOf(k) => b.seats == a.seats && Left(a, b, k)
  }

  /** The slot's torrent is gone, and its descriptors with it. */
  ghost predicate Left(a: Scene, b: Scene, k: nat) {
    && b.s.keys == Elsewhere(a.s.keys, k) && b.s.store == a.s.store
    && b.s.removals == a.s.removals && b.s.faults == a.s.faults
    && |a.s.views| == |a.s.names| == |a.s.storages| == |a.occupants|
    && |b.s.views| == |b.s.names| == |b.s.storages| == |b.occupants| == |a.occupants|
    && (k < |a.occupants| ==> b.occupants == a.occupants[k := P.None] && b.s.views[k].files == [])
    && (k >= |a.occupants| ==> b.occupants == a.occupants)
    && forall j :: 0 <= j < |a.s.views| && j != k ==>
                     b.s.views[j] == a.s.views[j] && b.s.names[j] == a.s.names[j] && b.s.storages[j] == a.s.storages[j]
  }

  // ---- Who is where

  function Seats(tenants: seq<TorrentStorage>): (seats: seq<Seat>)
    reads tenants
    ensures |seats| == |tenants|
    ensures forall n :: 0 <= n < |seats| ==> seats[n] == Seat(tenants[n].View(), tenants[n].Names())
  {
    seq(|tenants|, n requires 0 <= n < |tenants| reads tenants => Seat(tenants[n].View(), tenants[n].Names()))
  }

  /** Each slot has its torrent, or another one that stands for none. */
  predicate Housed(torrents: seq<TorrentStorage>, occupants: seq<P.Option<nat>>, tenants: seq<TorrentStorage>) {
    && |torrents| == |occupants|
    && (forall i :: 0 <= i < |occupants| && occupants[i].Some? ==>
                      occupants[i].value < |tenants| && torrents[i] == tenants[occupants[i].value])
    && (forall i :: 0 <= i < |occupants| && occupants[i].None? ==> torrents[i] !in tenants)
    && (forall i, j :: 0 <= i < j < |tenants| ==> tenants[i] != tenants[j])
  }

  ghost predicate AllValid(tenants: seq<TorrentStorage>)
    reads tenants
  {
    forall i :: 0 <= i < |tenants| ==> tenants[i].Valid()
  }

  ghost function SceneNow(cache: DescriptorCache, torrents: seq<TorrentStorage>, occupants: seq<P.Option<nat>>,
                        tenants: seq<TorrentStorage>): Scene
    reads torrents, tenants, cache, cache.bridge
  {
    Scene(Now(cache, torrents), occupants, Seats(tenants))
  }

  lemma SceneIs(cache: DescriptorCache, torrents: seq<TorrentStorage>, occupants: seq<P.Option<nat>>,
                tenants: seq<TorrentStorage>)
    ensures SceneNow(cache, torrents, occupants, tenants) == Scene(Now(cache, torrents), occupants, Seats(tenants))
  {
  }

  /** Whatever is cached was opened for the slot's torrent by one of the jobs so far. */
  ghost predicate Covered(keys: set<FileKey>, occupants: seq<P.Option<nat>>, reach: set<P.Entry>) {
    forall key :: key in keys ==>
                    && key.storage < |occupants| && occupants[key.storage].Some?
                    && P.Entry(key.storage, occupants[key.storage].value) in reach
  }

  /** So that the next job's torrent finds nothing of another one under its index. */
  lemma OthersGone(keys: set<FileKey>, occupants: seq<P.Option<nat>>, reach: set<P.Entry>, job: P.Job)
    requires Covered(keys, occupants, reach) && P.Alone(reach, job) && job.Work? && job.storage < |occupants|
    requires occupants[job.storage] != P.Some(job.tenant)
    ensures NoneOf(keys, job.storage)
  {
    forall key | key in keys
      ensures key.storage != job.storage
    {
      assert P.Entry(key.storage, occupants[key.storage].value) in reach;
    }
  }

  lemma CoveredAfter(keys: set<FileKey>, occupants: seq<P.Option<nat>>, reach: set<P.Entry>, job: P.Job, keys': set<FileKey>)
    requires Covered(keys, occupants, reach) && job.Work? && job.storage < |occupants|
    requires occupants[job.storage] == P.Some(job.tenant) || NoneOf(keys, job.storage)
    requires forall key :: key in keys' && key !in keys ==> key.storage == job.storage
    ensures Covered(keys', occupants[job.storage := P.Some(job.tenant)], P.After(reach, job))
  {
  }

  lemma CoveredLess(keys: set<FileKey>, occupants: seq<P.Option<nat>>, reach: set<P.Entry>, job: P.Job,
                    occupants': seq<P.Option<nat>>)
    requires Covered(keys, occupants, reach) && !job.Work? && |occupants'| == |occupants|
    requires forall i :: 0 <= i < |occupants| && i != job.storage ==> occupants'[i] == occupants[i]
    ensures Covered(Elsewhere(keys, job.storage), occupants', P.After(reach, job))
  {
  }

  lemma OutcomeKeys(s: Snapshot, command: Command, reply: Reply, event: Event, s': Snapshot, k: nat,
                    sha1: seq<byte> -> nat, sha256: seq<byte> -> nat)
    requires Outcome(s, command, reply, event, s', sha1, sha256) && (command.Settings? || command.k == k)
    ensures forall key :: key in s'.keys && key !in s.keys ==> key.storage == k
    ensures |s'.views| == |s.views| && s.Aligned() && s'.Aligned()
  {
  }

  // ---- Empty torrents, for slots that nobody has

  /** No path of these torrents is longer. */
  ghost predicate Bounds(views: seq<Torrent>, n: nat)
    requires forall j :: 0 <= j < |views| ==> views[j].WellFormed()
  {
    forall j, path :: 0 <= j < |views| && path in views[j].Footprint() ==> |path| <= n
  }

  method LongestPath(views: seq<Torrent>) returns (n: nat)
    requires forall j :: 0 <= j < |views| ==> views[j].WellFormed()
    ensures Bounds(views, n)
  {
    n := 0;
    for j := 0 to |views|
      invariant forall l, path :: 0 <= l < j && path in views[l].Footprint() ==> |path| <= n
    {
      ghost var m := n;
      n := Max(n, |views[j].part|);
      for i := 0 to |views[j].paths|
        invariant n >= m && |views[j].part| <= n
        invariant forall l :: 0 <= l < i ==> |views[j].paths[l]| <= n
      {
        n := Max(n, |views[j].paths[i]|);
      }
    }
  }

  /** A torrent without files whose part file is nobody's. */
  method Vacancy(torrents: seq<TorrentStorage>, tenants: seq<TorrentStorage>, k: nat) returns (vacancy: TorrentStorage)
    requires Loaded(torrents) && AllValid(tenants)
    ensures fresh(vacancy) && vacancy.Valid() && vacancy.files.entries == []
    ensures CanMoveIn(Views(torrents), k, vacancy.View())
  {
    AllWellFormed(torrents, tenants);
    var n := LongestPath(Views(torrents) + Views(tenants));
    vacancy := new TorrentStorage(FileStorage([], 1), [], "", [], seq(n + 1, _ => 'x'));
    VacancyFits(Views(torrents), Views(tenants), n, vacancy.View(), k);
  }

  lemma AllWellFormed(torrents: seq<TorrentStorage>, tenants: seq<TorrentStorage>)
    requires Loaded(torrents) && AllValid(tenants)
    ensures forall j :: 0 <= j < |Views(torrents) + Views(tenants)| ==> (Views(torrents) + Views(tenants))[j].WellFormed()
  {
    forall j | 0 <= j < |Views(torrents) + Views(tenants)|
      ensures (Views(torrents) + Views(tenants))[j].WellFormed()
    {
      if j < |torrents| {
        assert torrents[j].Valid();
      } else {
        assert tenants[j - |torrents|].Valid();
      }
    }
  }

  lemma VacancyFits(views: seq<Torrent>, others: seq<Torrent>, n: nat, t: Torrent, k: nat)
    requires forall j :: 0 <= j < |views + others| ==> (views + others)[j].WellFormed()
    requires Bounds(views + others, n) && t.files == [] && t.priorities == [] && t.paths == [] && |t.part| > n
    ensures CanMoveIn(views, k, t)
  {
    forall j | 0 <= j < |views|
      ensures views[j].WellFormed() && views[j].Footprint() !! t.Footprint()
    {
      assert (views + others)[j] == views[j];
      assert t.Footprint() == {t.part};
    }
  }

  // ---- One job

  lemma HousedParts(torrents: seq<TorrentStorage>, occupants: seq<P.Option<nat>>, tenants: seq<TorrentStorage>)
    requires Housed(torrents, occupants, tenants)
    ensures |torrents| == |occupants|
    ensures forall i :: 0 <= i < |occupants| && occupants[i].Some? ==>
                          occupants[i].value < |tenants| && torrents[i] == tenants[occupants[i].value]
    ensures forall i :: 0 <= i < |occupants| && occupants[i].None? ==> torrents[i] !in tenants
    ensures forall i, j :: 0 <= i < j < |tenants| ==> tenants[i] != tenants[j]
  {
  }

  lemma TenantValid(tenants: seq<TorrentStorage>, tenant: nat)
    requires AllValid(tenants) && tenant < |tenants|
    ensures tenants[tenant].Valid()
  {
  }

  /** A torrent that is in no slot is none of those there. */
  lemma NotThere(torrents: seq<TorrentStorage>, occupants: seq<P.Option<nat>>, tenants: seq<TorrentStorage>, tenant: nat)
    requires Housed(torrents, occupants, tenants) && tenant < |tenants|
    requires forall i :: 0 <= i < |occupants| ==> occupants[i] != P.Some(tenant)
    ensures tenants[tenant] !in torrents
  {
    forall i | 0 <= i < |torrents|
      ensures torrents[i] != tenants[tenant]
    {
      assert occupants[i].Some? ==> occupants[i].value < tenant || tenant < occupants[i].value;
    }
  }

  lemma HousedIn(torrents: seq<TorrentStorage>, occupants: seq<P.Option<nat>>, tenants: seq<TorrentStorage>, k: nat,
                 tenant: nat)
    requires Housed(torrents, occupants, tenants) && k < |occupants| && tenant < |tenants|
    ensures |torrents| == |occupants|
    ensures Housed(torrents[k := tenants[tenant]], occupants[k := P.Some(tenant)], tenants)
    ensures occupants[k] == P.Some(tenant) ==>
              torrents[k := tenants[tenant]] == torrents && occupants[k := P.Some(tenant)] == occupants
  {
  }

  lemma HousedOut(torrents: seq<TorrentStorage>, occupants: seq<P.Option<nat>>, tenants: seq<TorrentStorage>, k: nat,
                  vacancy: TorrentStorage)
    requires Housed(torrents, occupants, tenants) && k < |occupants| && vacancy !in tenants
    ensures |torrents| == |occupants|
    ensures Housed(torrents[k := vacancy], occupants[k := P.None], tenants)
  {
  }

  /** Seating the torrent is no more than that. */
  lemma SeatedNow(cache: DescriptorCache, torrents: seq<TorrentStorage>, k: nat, tenant: TorrentStorage)
    requires Loaded(torrents) && k < |torrents| && tenant.Valid() && Loaded(torrents[k := tenant])
    ensures Now(cache, torrents).Aligned() && k < |Now(cache, torrents).views|
    ensures Now(cache, torrents[k := tenant])
         == Seated(Now(cache, torrents), k, tenant.files, Seat(tenant.View(), tenant.Names()))
  {
    NowIs(cache, torrents);
    NowIs(cache, torrents[k := tenant]);
    var s := Seated(Now(cache, torrents), k, tenant.files, Seat(tenant.View(), tenant.Names()));
    var after := torrents[k := tenant];
    assert Storages(after) == s.storages;
    assert Views(after) == s.views;
    assert Namings(after) == s.names;
  }

  function TenantFiles(tenants: seq<TorrentStorage>): (files: seq<FileStorage>)
    ensures |files| == |tenants| && forall n :: 0 <= n < |files| ==> files[n] == tenants[n].files
  {
    Storages(tenants)
  }

  lemma CoveredMore(keys: set<FileKey>, occupants: seq<P.Option<nat>>, reach: set<P.Entry>, job: P.Job)
    requires Covered(keys, occupants, reach) && job.Work?
    ensures Covered(keys, occupants, P.After(reach, job))
  {
  }

  lemma NoneIs(keys: set<FileKey>, k: nat)
    ensures NoneOf(keys, k) <==> forall key :: key in keys ==> key.storage != k
  {
  }

  lemma AtSlotIs(command: Command, k: nat)
    ensures AtSlot(command, k).Settings? <==> command.Settings?
    ensures !command.Settings? ==> AtSlot(command, k).k == k
  {
  }

  lemma ConcernedAt(torrents: seq<TorrentStorage>, command: Command, k: nat)
    requires k < |torrents| && (command.Settings? || command.k == k)
    ensures Concerned(torrents, command) <= {torrents[k]}
  {
  }

  lemma AllValidIs(tenants: seq<TorrentStorage>)
    ensures AllValid(tenants) <==> forall i :: 0 <= i < |tenants| ==> tenants[i].Valid()
  {
  }

  lemma SeatsAfter(tenants: seq<TorrentStorage>, seats: seq<Seat>, tenant: nat)
    requires |seats| == |tenants| && tenant < |tenants|
    requires forall i :: 0 <= i < |tenants| && i != tenant ==> Seat(tenants[i].View(), tenants[i].Names()) == seats[i]
    ensures Seats(tenants) == seats[tenant := Seat(tenants[tenant].View(), tenants[tenant].Names())]
  {
  }

  lemma NotWorked(job: P.Job, payload: nat -> Command, files: seq<FileStorage>, a: Scene, turn: Turn,
                  sha1: seq<byte> -> nat, sha256: seq<byte> -> nat)
    requires a.s.Aligned() && |a.s.views| == |a.occupants| && |a.seats| == |files| && !turn.ran
    requires job.Work? && job.storage < |a.occupants| && job.tenant < |a.seats|
    requires a.occupants[job.storage] != P.Some(job.tenant)
    requires !CanMoveIn(a.s.views, job.storage, a.seats[job.tenant].t)
    ensures Worked(job, payload, files, a, turn, a, sha1, sha256)
  {
  }

  lemma WorkedIs(job: P.Job, payload: nat -> Command, files: seq<FileStorage>, a: Scene, turn: Turn, b: Scene,
                 sha1: seq<byte> -> nat, sha256: seq<byte> -> nat)
    requires a.s.Aligned() && b.s.Aligned() && |a.s.views| == |a.occupants| == |b.occupants| == |b.s.views|
    requires |a.seats| == |b.seats| == |files| && turn.ran
    requires job.Work? && job.storage < |a.occupants| && job.tenant < |a.seats|
    requires turn.start == Seated(a.s, job.storage, files[job.tenant], a.seats[job.tenant])
    requires a.occupants[job.storage] == P.Some(job.tenant) || NoneOf(turn.start.keys, job.storage)
    requires Outcome(turn.start, AtSlot(payload(job.id), job.storage), turn.reply, turn.event, b.s, sha1, sha256)
    requires b.occupants == a.occupants[job.storage := P.Some(job.tenant)]
    requires b.seats == a.seats[job.tenant := Seat(b.s.views[job.storage], b.s.names[job.storage])]
    ensures Worked(job, payload, files, a, turn, b, sha1, sha256)
  {
    hide Outcome, Seated, NoneOf, AtSlot;
  }

  /** The job's torrent takes its slot, unless another one keeps its data where it does. */
  method TakeSeat(cache: DescriptorCache, torrents: seq<TorrentStorage>, occupants: seq<P.Option<nat>>,
                  tenants: seq<TorrentStorage>, job: P.Job, ghost reach: set<P.Entry>)
    returns (seated: bool, torrents': seq<TorrentStorage>, occupants': seq<P.Option<nat>>)
    requires Loaded(torrents) && GoodState(Views(torrents), Keys(cache.descriptors))
    requires Housed(torrents, occupants, tenants) && AllValid(tenants)
    requires job.Work? && job.storage < |occupants| && job.tenant < |tenants|
    requires forall i :: 0 <= i < |occupants| && occupants[i] == P.Some(job.tenant) ==> i == job.storage
    requires Covered(Keys(cache.descriptors), occupants, reach) && P.Alone(reach, job)
    ensures |torrents| == |occupants| && |Views(torrents)| == |torrents|
    ensures !seated ==>
              && torrents' == torrents && occupants' == occupants && occupants[job.storage] != P.Some(job.tenant)
              && !CanMoveIn(Views(torrents), job.storage, tenants[job.tenant].View())
    ensures seated ==>
              && torrents' == torrents[job.storage := tenants[job.tenant]]
              && occupants' == occupants[job.storage := P.Some(job.tenant)]
              && (occupants[job.storage] == P.Some(job.tenant) || NoneOf(Keys(cache.descriptors), job.storage))
    ensures Loaded(torrents') && GoodState(Views(torrents'), Keys(cache.descriptors))
    ensures Housed(torrents', occupants', tenants)
  {
    hide *;
    var k, tenant := job.storage, job.tenant;
    ghost var views, keys := Views(torrents), Keys(cache.descriptors);
    HousedParts(torrents, occupants, tenants);
    TenantValid(tenants, tenant);
    HousedIn(torrents, occupants, tenants, k, tenant);
    seated, torrents', occupants' := true, torrents, occupants;
    if occupants[k] != P.Some(tenant) {
      OthersGone(keys, occupants, reach, job);
      if !CanMoveIn(Views(torrents), k, tenants[tenant].View()) {
        seated := false;
        return;
      }
      NotThere(torrents, occupants, tenants, tenant);
      TenantsLoaded(torrents, k, tenants[tenant]);
      NoneIs(keys, k);
      MovedIn(views, keys, k, tenants[tenant].View(), keys);
      torrents', occupants' := torrents[k := tenants[tenant]], occupants[k := P.Some(tenant)];
    }
  }

  /** A job for a torrent. */
  method RunWork(cache: DescriptorCache, torrents: seq<TorrentStorage>, occupants: seq<P.Option<nat>>,
                 tenants: seq<TorrentStorage>, job: P.Job, payload: nat -> Command, sha1: seq<byte> -> nat, sha256: seq<byte> -> nat,
                 ghost reach: set<P.Entry>)
    returns (torrents': seq<TorrentStorage>, occupants': seq<P.Option<nat>>, reply: Reply, ghost turn: Turn)
    requires cache.Valid() && Loaded(torrents) && GoodState(Views(torrents), Keys(cache.descriptors))
    requires Housed(torrents, occupants, tenants) && AllValid(tenants)
    requires job.Work? && job.storage < |occupants| && job.tenant < |tenants|
    requires forall i :: 0 <= i < |occupants| && occupants[i] == P.Some(job.tenant) ==> i == job.storage
    requires Covered(Keys(cache.descriptors), occupants, reach) && P.Alone(reach, job)
    modifies cache, cache.bridge, tenants
    ensures cache.Valid() && Loaded(torrents') && GoodState(Views(torrents'), Keys(cache.descriptors))
    ensures Housed(torrents', occupants', tenants) && AllValid(tenants)
    ensures |occupants'| == |occupants| && (occupants' == occupants || occupants' == occupants[job.storage := P.Some(job.tenant)])
    ensures forall t :: t in torrents' ==> t in torrents || t in tenants
    ensures Covered(Keys(cache.descriptors), occupants', P.After(reach, job))
    ensures Worked(job, payload, TenantFiles(tenants), old(SceneNow(cache, torrents, occupants, tenants)), turn,
                   SceneNow(cache, torrents', occupants', tenants), sha1, sha256)
    ensures turn.reply == reply
  {
    hide *;
    var k, tenant := job.storage, job.tenant;
    ghost var views, keys, a := Views(torrents), Keys(cache.descriptors), Now(cache, torrents);
    ghost var seats, scene := Seats(tenants), SceneNow(cache, torrents, occupants, tenants);
    HousedParts(torrents, occupants, tenants);
    AllValidIs(tenants);
    NowIs(cache, torrents);
    SceneIs(cache, torrents, occupants, tenants);
    var seated;
    seated, torrents', occupants' := TakeSeat(cache, torrents, occupants, tenants, job, reach);
    if !seated {
      reply := Report(Failed(OperationAborted, -1, FileOpen), NO_STATUS);
      turn := Turn(false, a, reply, Quiet);
      CoveredMore(keys, occupants, reach, job);
      NotWorked(job, payload, TenantFiles(tenants), scene, turn, sha1, sha256);
      return;
    }
    SeatedNow(cache, torrents, k, tenants[tenant]);
    ghost var start := Now(cache, torrents');
    NowIs(cache, torrents');
    AtSlotIs(payload(job.id), k);
    ConcernedAt(torrents', AtSlot(payload(job.id), k), k);
    ghost var event;
    reply, event := RunOne(cache, torrents', AtSlot(payload(job.id), k), sha1, sha256);
    turn := Turn(true, start, reply, event);
    NowIs(cache, torrents');
    SceneIs(cache, torrents', occupants', tenants);
    LoadedOne(torrents', k);
    OutcomeKeys(start, AtSlot(payload(job.id), k), reply, event, Now(cache, torrents'), k, sha1, sha256);
    CoveredAfter(keys, occupants, reach, job, Keys(cache.descriptors));
    forall i | 0 <= i < |tenants| && i != tenant
      ensures tenants[i].Valid() && Seat(tenants[i].View(), tenants[i].Names()) == seats[i]
    {
      assert tenants[i] != tenants[tenant];
    }
    AllValidIs(tenants);
    SeatsAfter(tenants, seats, tenant);
    WorkedIs(job, payload, TenantFiles(tenants), scene, turn, SceneNow(cache, torrents', occupants', tenants), sha1, sha256);
  }

  lemma ReleasedIs(job: P.Job, payload: nat -> Command, files: seq<FileStorage>, a: Scene, turn: Turn,
                   sha1: seq<byte> -> nat, sha256: seq<byte> -> nat)
    requires a.s.Aligned() && |a.s.views| == |a.occupants| && |a.seats| == |files| && job.Release?
    ensures Worked(job, payload, files, a, turn, a.(s := a.s.(keys := Elsewhere(a.s.keys, job.storage))), sha1, sha256)
  {
  }

  lemma LeftIs(job: P.Job, payload: nat -> Command, files: seq<FileStorage>, a: Scene, turn: Turn, b: Scene,
               sha1: seq<byte> -> nat, sha256: seq<byte> -> nat)
    requires a.s.Aligned() && b.s.Aligned() && |a.s.views| == |a.occupants| == |b.occupants| == |b.s.views|
    requires |a.seats| == |files| && job.CloseOf? && b.seats == a.seats
    requires b.s.keys == Elsewhere(a.s.keys, job.storage) && b.s.store == a.s.store
    requires b.s.removals == a.s.removals && b.s.faults == a.s.faults
    requires job.storage < |a.occupants| ==>
               b.occupants == a.occupants[job.storage := P.None] && b.s.views[job.storage].files == []
    requires job.storage >= |a.occupants| ==> b.occupants == a.occupants
    requires forall j :: 0 <= j < |a.s.views| && j != job.storage ==>
                           b.s.views[j] == a.s.views[j] && b.s.names[j] == a.s.names[j] && b.s.storages[j] == a.s.storages[j]
    ensures Worked(job, payload, files, a, turn, b, sha1, sha256)
  {
  }

  /** A release, or the end of a torrent. */
  method RunClose(cache: DescriptorCache, torrents: seq<TorrentStorage>, occupants: seq<P.Option<nat>>,
                  tenants: seq<TorrentStorage>, job: P.Job, payload: nat -> Command, sha1: seq<byte> -> nat, sha256: seq<byte> -> nat,
                  ghost reach: set<P.Entry>)
    returns (torrents': seq<TorrentStorage>, occupants': seq<P.Option<nat>>, reply: Reply, ghost turn: Turn)
    requires cache.Valid() && Loaded(torrents) && GoodState(Views(torrents), Keys(cache.descriptors))
    requires Housed(torrents, occupants, tenants) && AllValid(tenants) && !job.Work?
    requires Covered(Keys(cache.descriptors), occupants, reach)
    modifies cache, cache.bridge
    ensures cache.Valid() && Loaded(torrents') && GoodState(Views(torrents'), Keys(cache.descriptors))
    ensures Housed(torrents', occupants', tenants) && AllValid(tenants)
    ensures |occupants'| == |occupants|
    ensures forall i :: 0 <= i < |occupants| ==> occupants'[i] == occupants[i] || occupants'[i].None?
    ensures forall t :: t in torrents' ==> t in torrents || fresh(t)
    ensures Covered(Keys(cache.descriptors), occupants', P.After(reach, job))
    ensures Worked(job, payload, TenantFiles(tenants), old(SceneNow(cache, torrents, occupants, tenants)), turn,
                   SceneNow(cache, torrents', occupants', tenants), sha1, sha256)
    ensures turn.reply == reply
  {
    hide *;
    var k := job.storage;
    ghost var views, keys, a := Views(torrents), Keys(cache.descriptors), Now(cache, torrents);
    ghost var scene := SceneNow(cache, torrents, occupants, tenants);
    HousedParts(torrents, occupants, tenants);
    NowIs(cache, torrents);
    SceneIs(cache, torrents, occupants, tenants);
    KeysElsewhere(cache.descriptors, k);
    ElsewhereParts(keys, k);
    cache.CloseStorage(k);
    reply := Report(NoError, NO_STATUS);
    turn := Turn(true, a, reply, Quiet);
    torrents', occupants' := torrents, occupants;
    FewerKeys(views, keys, Keys(cache.descriptors));
    if job.CloseOf? && k < |torrents| {
      var vacancy := Vacancy(torrents, tenants, k);
      TenantsLoaded(torrents, k, vacancy);
      HousedOut(torrents, occupants, tenants, k, vacancy);
      torrents', occupants' := torrents[k := vacancy], occupants[k := P.None];
      MovedIn(views, keys, k, vacancy.View(), Keys(cache.descriptors));
      SeatedNow(cache, torrents, k, vacancy);
    }
    CoveredLess(keys, occupants, reach, job, occupants');
    NowIs(cache, torrents');
    SceneIs(cache, torrents', occupants', tenants);
    if job.CloseOf? {
      VacantView(torrents', k);
      LeftIs(job, payload, TenantFiles(tenants), scene, turn, SceneNow(cache, torrents', occupants', tenants), sha1, sha256);
    } else {
      ReleasedIs(job, payload, TenantFiles(tenants), scene, turn, sha1, sha256);
    }
  }

  lemma VacantView(torrents: seq<TorrentStorage>, k: nat)
    ensures k < |torrents| ==> Views(torrents)[k].files == torrents[k].files.entries
  {
  }

  lemma FewerKeys(views: seq<Torrent>, keys: set<FileKey>, fewer: set<FileKey>)
    requires GoodState(views, keys) && fewer <= keys
    ensures GoodState(views, fewer)
  {
  }

  // ---- All jobs

  predicate SeatedBy(jobs: seq<P.Job>, k: nat, tenant: nat) {
    exists job :: job in jobs && job.Work? && job.storage == k && job.tenant == tenant
  }

  /** Who is in a slot came with one of the jobs. */
  predicate FromJobs(occupants: seq<P.Option<nat>>, jobs: seq<P.Job>) {
    forall i :: 0 <= i < |occupants| && occupants[i].Some? ==> SeatedBy(jobs, i, occupants[i].value)
  }

  lemma FromMoreJobs(occupants: seq<P.Option<nat>>, jobs: seq<P.Job>, job: P.Job, occupants': seq<P.Option<nat>>)
    requires FromJobs(occupants, jobs) && |occupants'| == |occupants|
    requires
      || (forall i :: 0 <= i < |occupants| ==> occupants'[i] == occupants[i] || occupants'[i].None?)
      || (job.Work? && job.storage < |occupants| && occupants' == occupants[job.storage := P.Some(job.tenant)])
    ensures FromJobs(occupants', jobs + [job])
  {
    forall i | 0 <= i < |occupants'| && occupants'[i].Some?
      ensures SeatedBy(jobs + [job], i, occupants'[i].value)
    {
      if occupants'[i] == occupants[i] {
        var earlier :| earlier in jobs && earlier.Work? && earlier.storage == i && earlier.tenant == occupants[i].value;
        assert earlier in jobs + [job];
      } else {
        assert job in jobs + [job];
      }
    }
  }

  lemma OnlySlot(occupants: seq<P.Option<nat>>, all: seq<P.Job>, jobs: seq<P.Job>, job: P.Job)
    requires P.OneHome(all) && (forall j :: j in jobs ==> j in all) && job in all && job.Work? && FromJobs(occupants, jobs)
    ensures forall i :: 0 <= i < |occupants| && occupants[i] == P.Some(job.tenant) ==> i == job.storage
  {
    forall i | 0 <= i < |occupants| && occupants[i] == P.Some(job.tenant)
      ensures i == job.storage
    {
      assert SeatedBy(jobs, i, job.tenant);
    }
  }

  /** Each job, one after the other. */
  ghost predicate AllWorked(jobs: seq<P.Job>, payload: nat -> Command, files: seq<FileStorage>, scenes: seq<Scene>,
                            turns: seq<Turn>, sha1: seq<byte> -> nat, sha256: seq<byte> -> nat)
  {
    && |turns| == |jobs| && |scenes| == |jobs| + 1
    && forall n :: 0 <= n < |jobs| ==> Worked(jobs[n], payload, files, scenes[n], turns[n], scenes[n + 1], sha1, sha256)
  }

  lemma NoneWorked(payload: nat -> Command, files: seq<FileStorage>, scene: Scene, sha1: seq<byte> -> nat, sha256: seq<byte> -> nat)
    ensures AllWorked([], payload, files, [scene], [], sha1, sha256)
  {
  }

  lemma OneMoreWorked(jobs: seq<P.Job>, payload: nat -> Command, files: seq<FileStorage>, scenes: seq<Scene>,
                      turns: seq<Turn>, job: P.Job, turn: Turn, scene: Scene, sha1: seq<byte> -> nat, sha256: seq<byte> -> nat)
    requires AllWorked(jobs, payload, files, scenes, turns, sha1, sha256) && |scenes| == |jobs| + 1
    requires Worked(job, payload, files, scenes[|jobs|], turn, scene, sha1, sha256)
    ensures AllWorked(jobs + [job], payload, files, scenes + [scene], turns + [turn], sha1, sha256)
  {
    hide Worked;
  }

  predicate Replied(turns: seq<Turn>, replies: seq<Reply>) {
    |replies| == |turns| && forall n :: 0 <= n < |turns| ==> replies[n] == turns[n].reply
  }

  /** Jobs that name slots and torrents there are, that keep to one slot a torrent, and of which each
      finds at most its own torrent's descriptors. */
  ghost predicate Wellordered(jobs: seq<P.Job>, width: nat, count: nat) {
    && P.AllAlone({}, jobs) && P.OneHome(jobs)
    && forall job :: job in jobs && job.Work? ==> job.storage < width && job.tenant < count
  }

  lemma WellorderedAt(jobs: seq<P.Job>, width: nat, count: nat, n: nat)
    requires Wellordered(jobs, width, count) && n < |jobs|
    ensures P.Alone(P.Reach({}, jobs[..n]), jobs[n]) && P.OneHome(jobs)
    ensures jobs[n].Work? ==> jobs[n].storage < width && jobs[n].tenant < count
    ensures P.Reach({}, jobs[..n + 1]) == P.After(P.Reach({}, jobs[..n]), jobs[n])
    ensures jobs[..n + 1] == jobs[..n] + [jobs[n]]
  {
    P.AloneAt({}, jobs, n);
    P.ReachAppend({}, jobs[..n], jobs[n]);
    assert jobs[..n + 1] == jobs[..n] + [jobs[n]];
  }

  /** Slots without a torrent. */
  method Vacancies(cache: DescriptorCache, tenants: seq<TorrentStorage>, width: nat)
    returns (torrents: seq<TorrentStorage>, occupants: seq<P.Option<nat>>)
    requires cache.Valid() && Keys(cache.descriptors) == {} && AllValid(tenants)
    requires forall i, j :: 0 <= i < j < |tenants| ==> tenants[i] != tenants[j]
    ensures Loaded(torrents) && GoodState(Views(torrents), {}) && Housed(torrents, occupants, tenants)
    ensures occupants == seq(width, _ => P.None)
    ensures forall t :: t in torrents ==> fresh(t)
  {
    hide *;
    torrents := [];
    NothingLoaded();
    for k := 0 to width
      invariant Loaded(torrents) && GoodState(Views(torrents), {}) && |torrents| == k
      invariant forall t :: t in torrents ==> fresh(t)
    {
      var vacancy := Vacancy(torrents, tenants, k);
      TenantsLoaded(torrents, k, vacancy);
      MovedIn(Views(torrents), {}, k, vacancy.View(), {});
      torrents := torrents + [vacancy];
    }
    occupants := seq(width, _ => P.None);
    HousedNone(torrents, occupants, tenants);
  }

  lemma NothingLoaded()
    ensures Loaded([]) && GoodState(Views([]), {})
  {
  }

  lemma HousedNone(torrents: seq<TorrentStorage>, occupants: seq<P.Option<nat>>, tenants: seq<TorrentStorage>)
    requires |torrents| == |occupants| && (forall i :: 0 <= i < |occupants| ==> occupants[i].None?)
    requires forall t :: t in torrents ==> t !in tenants
    requires forall i, j :: 0 <= i < j < |tenants| ==> tenants[i] != tenants[j]
    ensures Housed(torrents, occupants, tenants) && FromJobs(occupants, []) && Covered({}, occupants, {})
  {
  }

  lemma NoKeys(cache: DescriptorCache)
    requires cache.descriptors == []
    ensures Keys(cache.descriptors) == {}
  {
  }

  /** Runs the jobs. */
  method RunJobs(cache: DescriptorCache, empty: seq<TorrentStorage>, vacant: seq<P.Option<nat>>,
                 tenants: seq<TorrentStorage>, jobs: seq<P.Job>, payload: nat -> Command, sha1: seq<byte> -> nat, sha256: seq<byte> -> nat)
    returns (replies: seq<Reply>, ghost scenes: seq<Scene>, ghost turns: seq<Turn>)
    requires cache.Valid() && Loaded(empty) && GoodState(Views(empty), Keys(cache.descriptors))
    requires Housed(empty, vacant, tenants) && AllValid(tenants) && FromJobs(vacant, [])
    requires Covered(Keys(cache.descriptors), vacant, {}) && Wellordered(jobs, |vacant|, |tenants|)
    modifies cache, cache.bridge, tenants
    ensures cache.Valid()
    ensures AllWorked(jobs, payload, TenantFiles(tenants), scenes, turns, sha1, sha256) && Replied(turns, replies)
    ensures |scenes| == |jobs| + 1 && scenes[0] == old(SceneNow(cache, empty, vacant, tenants))
    ensures scenes[|jobs|].s.store == cache.bridge.Contents() && scenes[|jobs|].seats == Seats(tenants)
  {
    hide *;
    var torrents, occupants := empty, vacant;
    replies, scenes, turns := [], [SceneNow(cache, empty, vacant, tenants)], [];
    NoneWorked(payload, TenantFiles(tenants), SceneNow(cache, empty, vacant, tenants), sha1, sha256);
    RepliedNothing();
    NoReach();
    assert jobs[..0] == [];
    for n := 0 to |jobs|
      invariant cache.Valid() && Loaded(torrents) && GoodState(Views(torrents), Keys(cache.descriptors))
      invariant Housed(torrents, occupants, tenants) && AllValid(tenants) && |occupants| == |vacant|
      invariant FromJobs(occupants, jobs[..n])
      invariant Covered(Keys(cache.descriptors), occupants, P.Reach({}, jobs[..n]))
      invariant AllWorked(jobs[..n], payload, TenantFiles(tenants), scenes, turns, sha1, sha256)
      invariant Replied(turns, replies)
      invariant |scenes| == n + 1 && scenes[0] == old(SceneNow(cache, empty, vacant, tenants))
      invariant scenes[n] == SceneNow(cache, torrents, occupants, tenants)
    {
      WellorderedAt(jobs, |vacant|, |tenants|, n);
      ghost var reach, occupied := P.Reach({}, jobs[..n]), occupants;
      var reply;
      ghost var turn;
      if jobs[n].Work? {
        OnlySlot(occupants, jobs, jobs[..n], jobs[n]);
        torrents, occupants, reply, turn :=
          RunWork(cache, torrents, occupants, tenants, jobs[n], payload, sha1, sha256, reach);
      } else {
        torrents, occupants, reply, turn :=
          RunClose(cache, torrents, occupants, tenants, jobs[n], payload, sha1, sha256, reach);
      }
      FromMoreJobs(occupied, jobs[..n], jobs[n], occupants);
      OneMoreWorked(jobs[..n], payload, TenantFiles(tenants), scenes, turns, jobs[n], turn,
                    SceneNow(cache, torrents, occupants, tenants), sha1, sha256);
      RepliedMore(turns, replies, turn);
      replies, turns := replies + [reply], turns + [turn];
      scenes := scenes + [SceneNow(cache, torrents, occupants, tenants)];
    }
    assert jobs[..|jobs|] == jobs;
    SceneIs(cache, torrents, occupants, tenants);
    NowIs(cache, torrents);
  }

  lemma RepliedNothing()
    ensures Replied([], [])
  {
  }

  lemma RepliedMore(turns: seq<Turn>, replies: seq<Reply>, turn: Turn)
    requires Replied(turns, replies)
    ensures Replied(turns + [turn], replies + [turn.reply])
  {
  }

  lemma NoReach()
    ensures P.Reach({}, []) == {}
  {
  }

  /** The worker from its start to its end, for every interleaving of submissions, removals, new torrents
      and the shutdown that `Protocol` admits: each job that was ever accepted is run, once and in the
      order of acceptance, as `Worked` says, on one disk and one cache, and at the end no descriptor is
      open. `tenants` are the torrents in the order of their creation, `payload` is what the submissions
      ask for. */
  method RunWorker(cache: DescriptorCache, tenants: seq<TorrentStorage>, width: nat, jobs: seq<P.Job>,
                   payload: nat -> Command, sha1: seq<byte> -> nat, sha256: seq<byte> -> nat,
                   ghost states: seq<P.State>, ghost steps: seq<P.Step>)
    returns (replies: seq<Reply>, ghost scenes: seq<Scene>, ghost turns: seq<Turn>)
    requires cache.Valid() && cache.descriptors == []
    requires forall i :: 0 <= i < |tenants| ==> tenants[i].Valid()
    requires forall i, j :: 0 <= i < j < |tenants| ==> tenants[i] != tenants[j]
    requires P.Run(states, steps) && |states| == |steps| + 1 && states[|steps|].exited
    requires jobs == states[|steps|].executed
    requires |states[|steps|].slots| <= width && states[|steps|].nextTenant <= |tenants|
    modifies cache, cache.bridge, tenants
    ensures jobs == states[|steps|].accepted
    ensures AllWorked(jobs, payload, TenantFiles(tenants), scenes, turns, sha1, sha256) && Replied(turns, replies)
    ensures |scenes| == |jobs| + 1
    ensures scenes[0].occupants == seq(width, _ => P.None) && scenes[0].seats == old(Seats(tenants))
    ensures scenes[0].s.keys == {} && scenes[0].s.store == old(cache.bridge.Contents())
    ensures scenes[|jobs|].s.store == cache.bridge.Contents() && scenes[|jobs|].seats == Seats(tenants)
    ensures cache.descriptors == [] && cache.bridge.handles == map[]
  {
    hide *;
    AllValidIs(tenants);
    NoKeys(cache);
    AcceptedJobs(states, steps, jobs, width, |tenants|);
    var empty, vacant := Vacancies(cache, tenants, width);
    HousedParts(empty, vacant, tenants);
    VacantCovered(vacant);
    SceneIs(cache, empty, vacant, tenants);
    NowIs(cache, empty);
    replies, scenes, turns := RunJobs(cache, empty, vacant, tenants, jobs, payload, sha1, sha256);
    cache.CloseAll();
  }

  lemma VacantCovered(vacant: seq<P.Option<nat>>)
    requires forall i :: 0 <= i < |vacant| ==> vacant[i].None?
    ensures FromJobs(vacant, []) && Covered({}, vacant, {})
  {
  }

  /** What the protocol guarantees of the jobs that were accepted. */
  lemma AcceptedJobs(states: seq<P.State>, steps: seq<P.Step>, jobs: seq<P.Job>, width: nat, count: nat)
    requires P.Run(states, steps) && |states| == |steps| + 1 && states[|steps|].exited
    requires jobs == states[|steps|].executed
    requires |states[|steps|].slots| <= width && states[|steps|].nextTenant <= count
    ensures jobs == states[|steps|].accepted && Wellordered(jobs, width, count)
  {
    var s := states[|steps|];
    P.DrainedAtExit(states, steps, |steps|, |steps|);
    P.WholeRun(states, steps, |steps|);
    P.WholePending(s);
  }
}
