/** Torrents that come to the slots of a session, and leave them, between the runs of their jobs. */
module Tenancies {
  import opened Bytes
  import opened Layout
  import opened FlatView
  import opened Bridges
  import opened Descriptors
  import opened DescriptorCaches
  import opened Torrents
  import opened SettledKeys
  import opened RunSpec
  import opened Runs

  /** The torrent of slot k is gone and another one has its index. */
  predicate CanMoveIn(views: seq<Torrent>, k: nat, t: Torrent) {
    && t.Distinct() && (forall j :: 0 <= j < |views| ==> views[j].WellFormed())
    && forall j :: 0 <= j < |views| && j != k ==> views[j].Footprint() !! t.Footprint()
  }

  lemma MovedIn(views: seq<Torrent>, keys: set<FileKey>, k: nat, t: Torrent, keys': set<FileKey>)
    requires GoodState(views, keys) && k <= |views| && CanMoveIn(views, k, t) && keys' <= keys
    requires forall key :: key in keys' ==> key.storage != k
    ensures GoodState(if k < |views| then views[k := t] else views + [t], keys')
  {
    forall key | key in keys'
      ensures key.path !in t.Footprint()
    {
      KeysAtHome(views, keys, key);
    }
  }

  lemma TenantsLoaded(torrents: seq<TorrentStorage>, k: nat, tenant: TorrentStorage)
    requires Loaded(torrents) && k <= |torrents| && tenant.Valid() && tenant !in torrents
    ensures
      var torrents' := if k < |torrents| then torrents[k := tenant] else torrents + [tenant];
      && Loaded(torrents')
      && Views(torrents') == if k < |torrents| then Views(torrents)[k := tenant.View()] else Views(torrents) + [tenant.View()]
  {
  }

  lemma NoSuchSlot(views: seq<Torrent>, keys: set<FileKey>)
    requires GoodState(views, keys)
    ensures Elsewhere(keys, |views|) == keys
  {
  }

  lemma ElsewhereParts(keys: set<FileKey>, k: nat)
    ensures Elsewhere(keys, k) <= keys && forall key :: key in Elsewhere(keys, k) ==> key.storage != k
  {
  }

  /** `remove_torrent` and then `new_torrent` with the index that became free, or with a new index:
      what the old tenant had open is closed, so that the new one, which may keep its files anywhere
      that the others do not, finds no descriptor under its index; the run can go on. */
  method ReplaceTenant(cache: DescriptorCache, torrents: seq<TorrentStorage>, k: nat, tenant: TorrentStorage)
    returns (torrents': seq<TorrentStorage>)
    requires cache.Valid() && Loaded(torrents) && GoodState(Views(torrents), Keys(cache.descriptors))
    requires k <= |torrents| && tenant.Valid() && tenant !in torrents && CanMoveIn(Views(torrents), k, tenant.View())
    modifies cache, cache.bridge
    ensures cache.Valid() && cache.bridge.Contents() == old(cache.bridge.Contents())
    ensures cache.bridge.faults == old(cache.bridge.faults)
    ensures torrents' == if k < |torrents| then torrents[k := tenant] else torrents + [tenant]
    ensures Loaded(torrents') && GoodState(Views(torrents'), Keys(cache.descriptors))
    ensures cache.bridge.removals == old(cache.bridge.removals)
    ensures Keys(cache.descriptors) == Elsewhere(Keys(old(cache.descriptors)), k)
  {
    hide *;
    ghost var views, keys := Views(torrents), Keys(cache.descriptors);
    KeysElsewhere(cache.descriptors, k);
    ElsewhereParts(keys, k);
    NoSuchSlot(views, keys);
    TenantsLoaded(torrents, k, tenant);
    torrents' := torrents + [tenant];
    if k < |torrents| {
      cache.CloseStorage(k);
      torrents' := torrents[k := tenant];
    }
    MovedIn(views, keys, k, tenant.View(), Keys(cache.descriptors));
  }

  /** A torrent that comes to slot k, and the jobs from then on until the next one comes. */
  datatype Stay = Stay(k: nat, tenant: TorrentStorage, script: seq<Command>)

  /** What happened in a stay: whether the torrent could come, and the run of its jobs. */
  datatype Stage = Stage(came: bool, states: seq<Snapshot>, replies: seq<Reply>, log: seq<Event>)

  function Tenants(stays: seq<Stay>): (tenants: set<TorrentStorage>)
    ensures forall m :: 0 <= m < |stays| ==> stays[m].tenant in tenants
  {
    set m | 0 <= m < |stays| :: stays[m].tenant
  }

  /** The torrents to come are in a consistent state, different from each other and from those there. */
  ghost predicate Waiting(torrents: seq<TorrentStorage>, stays: seq<Stay>, n: nat)
    requires n <= |stays|
    reads Tenants(stays)
  {
    && (forall m :: n <= m < |stays| ==> stays[m].tenant.Valid() && stays[m].tenant !in torrents)
    && (forall l, m :: n <= l < m < |stays| ==> stays[l].tenant != stays[m].tenant)
  }

  /** One stay: a torrent that came is in its slot and finds no descriptor under its index, and the run is
      as `Run` says. */
  ghost predicate Stayed(stay: Stay, t: Torrent, stage: Stage, sha1: seq<byte> -> nat, sha256: seq<byte> -> nat) {
    && Steps(stage.states, stay.script, stage.replies, stage.log, sha1, sha256)
    && |stage.states| == |stay.script| + 1
    && (stage.came ==> Arrived(stay, t, stage.states[0]))
    && AllAdvance(stage.states[0].views, stage.states[0].store, Last(stage.states).views, Last(stage.states).store, stage.log)
  }

  ghost predicate Arrived(stay: Stay, t: Torrent, s: Snapshot) {
    && stay.k < |s.storages| == |s.views| && s.storages[stay.k] == stay.tenant.files && s.views[stay.k] == t
    && forall key :: key in s.keys ==> key.storage != stay.k
  }

  lemma StayedIs(stay: Stay, t: Torrent, stage: Stage, sha1: seq<byte> -> nat, sha256: seq<byte> -> nat)
    requires Steps(stage.states, stay.script, stage.replies, stage.log, sha1, sha256)
    requires |stage.states| == |stay.script| + 1
    requires stage.came ==>
               && stay.k < |stage.states[0].storages| == |stage.states[0].views|
               && stage.states[0].storages[stay.k] == stay.tenant.files && stage.states[0].views[stay.k] == t
               && forall key :: key in stage.states[0].keys ==> key.storage != stay.k
    requires
      var start, end := stage.states[0], stage.states[|stay.script|];
      AllAdvance(start.views, start.store, end.views, end.store, stage.log)
    ensures Stayed(stay, t, stage, sha1, sha256) && stage.states != []
    ensures Last(stage.states) == stage.states[|stay.script|]
  {
  }

  function Last(states: seq<Snapshot>): Snapshot
    requires states != []
  {
    states[|states| - 1]
  }

  /** Between two runs nothing changed; but where a torrent came to slot k, the descriptors of the one
      before it were closed. */
  ghost predicate Follows(s: Snapshot, s': Snapshot, k: nat, came: bool) {
    if !came then s' == s
    else
      && s'.store == s.store && s'.faults == s.faults && s'.removals == s.removals
      && s'.keys == Elsewhere(s.keys, k)
      && |s.storages| == |s.views| == |s.names| && |s'.storages| == |s'.views| == |s'.names|
      && k <= |s.views| && |s'.views| == (if k < |s.views| then |s.views| else |s.views| + 1)
      && forall j :: 0 <= j < |s.views| && j != k ==>
                       s'.views[j] == s.views[j] && s'.names[j] == s.names[j] && s'.storages[j] == s.storages[j]
  }

  lemma FollowsIs(s: Snapshot, s': Snapshot, k: nat, came: bool)
    requires !came ==> s' == s
    requires came ==>
               && s'.store == s.store && s'.faults == s.faults && s'.removals == s.removals
               && s'.keys == Elsewhere(s.keys, k)
               && |s.storages| == |s.views| == |s.names| && |s'.storages| == |s'.views| == |s'.names|
               && k <= |s.views| && |s'.views| == (if k < |s.views| then |s.views| else |s.views| + 1)
               && forall j :: 0 <= j < |s.views| && j != k ==>
                                s'.views[j] == s.views[j] && s'.names[j] == s.names[j] && s'.storages[j] == s.storages[j]
    ensures Follows(s, s', k, came)
  {
  }

  /** The stages follow one another. */
  ghost predicate Joined(stays: seq<Stay>, stages: seq<Stage>, before: Snapshot, after: Snapshot) {
    && |stages| <= |stays|
    && (forall n :: 0 <= n < |stages| ==> stages[n].states != [])
    && (if stages == [] then after == before
        else
          && Follows(before, stages[0].states[0], stays[0].k, stages[0].came)
          && after == Last(stages[|stages| - 1].states))
    && forall n :: 0 < n < |stages| ==>
                     Follows(Last(stages[n - 1].states), stages[n].states[0], stays[n].k, stages[n].came)
  }

  lemma JoinedNothing(stays: seq<Stay>, s: Snapshot)
    ensures Joined(stays, [], s, s)
  {
  }

  lemma JoinedMore(stays: seq<Stay>, stages: seq<Stage>, before: Snapshot, mid: Snapshot, stage: Stage, after: Snapshot)
    requires Joined(stays, stages, before, mid) && stage.states != [] && |stages| < |stays|
    requires Follows(mid, stage.states[0], stays[|stages|].k, stage.came) && Last(stage.states) == after
    ensures Joined(stays, stages + [stage], before, after)
  {
    hide Follows, Last;
  }

  /** Torrents come and go while the cache and the tree stay, any number of times, and any jobs run in
      between. Whoever comes to a slot finds no descriptor under its index, and nothing of the others
      changes. */
  method RunStays(cache: DescriptorCache, first: seq<TorrentStorage>, stays: seq<Stay>,
                  sha1: seq<byte> -> nat, sha256: seq<byte> -> nat)
    returns (torrents: seq<TorrentStorage>, ghost stages: seq<Stage>)
    requires cache.Valid() && Loaded(first) && GoodState(Views(first), Keys(cache.descriptors))
    requires Waiting(first, stays, 0)
    modifies cache, cache.bridge, first, Tenants(stays)
    ensures cache.Valid() && Loaded(torrents) && GoodState(Views(torrents), Keys(cache.descriptors))
    ensures |stages| == |stays|
    ensures forall n :: 0 <= n < |stays| ==> Stayed(stays[n], old(stays[n].tenant.View()), stages[n], sha1, sha256)
    ensures Joined(stays, stages, old(Now(cache, first)), Now(cache, torrents))
  {
    hide Stayed, Joined, GoodState, Loaded, CacheInv, Views, Namings, Keys, Now, Follows,
      TorrentStorage.Valid, TorrentStorage.View, DescriptorCache.Valid, Last;
    torrents, stages := first, [];
    JoinedNothing(stays, Now(cache, first));
    for n := 0 to |stays|
      invariant cache.Valid() && Loaded(torrents) && GoodState(Views(torrents), Keys(cache.descriptors))
      invariant Waiting(torrents, stays, n)
      invariant forall t :: t in torrents ==> t in first || t in Tenants(stays)
      invariant forall m :: n <= m < |stays| ==> stays[m].tenant.View() == old(stays[m].tenant.View())
      invariant |stages| == n
      invariant forall m :: 0 <= m < n ==> Stayed(stays[m], old(stays[m].tenant.View()), stages[m], sha1, sha256)
      invariant Joined(stays, stages, old(Now(cache, first)), Now(cache, torrents))
    {
      ghost var stage;
      ghost var mid := Now(cache, torrents);
      torrents, stage := RunStay(cache, torrents, stays[n], sha1, sha256);
      JoinedMore(stays, stages, old(Now(cache, first)), mid, stage, Now(cache, torrents));
      stages := stages + [stage];
    }
  }

  /** The torrent comes, unless another one keeps its data where it wants to, and the jobs run. */
  method RunStay(cache: DescriptorCache, before: seq<TorrentStorage>, stay: Stay,
                 sha1: seq<byte> -> nat, sha256: seq<byte> -> nat)
    returns (torrents: seq<TorrentStorage>, ghost stage: Stage)
    requires cache.Valid() && Loaded(before) && GoodState(Views(before), Keys(cache.descriptors))
    requires stay.tenant.Valid() && stay.tenant !in before
    modifies cache, cache.bridge, before, stay.tenant
    ensures cache.Valid() && Loaded(torrents) && GoodState(Views(torrents), Keys(cache.descriptors))
    ensures forall t :: t in torrents ==> t in before || t == stay.tenant
    ensures Stayed(stay, old(stay.tenant.View()), stage, sha1, sha256) && stage.states != []
    ensures stage.came <==>
            stay.k <= |before| && CanMoveIn(old(Views(before)), stay.k, old(stay.tenant.View()))
    ensures Follows(old(Now(cache, before)), stage.states[0], stay.k, stage.came)
    ensures Last(stage.states) == Now(cache, torrents)
  {
    hide *;
    ghost var s, t := Now(cache, before), stay.tenant.View();
    NowIs(cache, before);
    var came := false;
    torrents := before;
    if stay.k <= |before| && CanMoveIn(Views(before), stay.k, stay.tenant.View()) {
      came := true;
      torrents := ReplaceTenant(cache, before, stay.k, stay.tenant);
    }
    NowIs(cache, torrents);
    ghost var start := Now(cache, torrents);
    ElsewhereParts(s.keys, stay.k);
    FollowsIs(s, start, stay.k, came);
    var replies;
    ghost var log, states;
    replies, log, states := Run(cache, torrents, stay.script, sha1, sha256);
    NowIs(cache, torrents);
    stage := Stage(came, states, replies, log);
    StayedIs(stay, t, stage, sha1, sha256);
  }
}
