/** The threads around the disk jobs: submission, the single worker, shutdown, and the reuse of
    storage indices, as a transition system whose steps are the critical sections of the code. */
module Protocol {

  datatype Option<T> = None | Some(value: T)

  /** A queued job. `Work` holds the torrent it was submitted for; a release or the close queued by
      a removal only knows the storage index. */
  datatype Job =
    | Work(id: nat, storage: nat, tenant: nat)
    | Release(id: nat, storage: nat)
    | CloseOf(storage: nat)

  /** A cached descriptor: the index it is filed under and the torrent whose job opened it. */
  datatype Entry = Entry(storage: nat, opener: nat)

  datatype State = State(
    accepting: bool, stopping: bool, joinable: bool, exited: bool,
    queue: seq<Job>, running: Option<Job>, executed: seq<Job>, accepted: seq<Job>,
    slots: seq<Option<nat>>, free: seq<nat>, cache: set<Entry>,
    aborted: seq<nat>, nextId: nat, nextTenant: nat)

  predicate Init(s: State) {
    s == State(true, false, true, false, [], None, [], [], [], [], {}, [], 0, 0)
  }

  /** The index `new_torrent` picks: the last freed slot, or a new one. */
  function PickedIndex(s: State): nat {
    if s.free == [] then |s.slots| else s.free[|s.free| - 1]
  }

  function NewTorrent(s: State): State {
    var index := PickedIndex(s);
    if s.free == [] then
      s.(slots := s.slots + [Some(s.nextTenant)], nextTenant := s.nextTenant + 1)
    else if index < |s.slots| then
      s.(slots := s.slots[index := Some(s.nextTenant)], free := s.free[..|s.free| - 1], nextTenant := s.nextTenant + 1)
    else s
  }

  /** `enqueue`: a job that is not accepted is dropped. */
  function Enqueue(s: State, job: Job): State {
    if s.accepting then s.(queue := s.queue + [job], accepted := s.accepted + [job]) else s
  }

  /** `enqueue_or_abort`: a job that is not accepted has its handler called with an abort. */
  function EnqueueOrAbort(s: State, job: Job): State
    requires !job.CloseOf?
  {
    if s.accepting then Enqueue(s, job) else s.(aborted := s.aborted + [job.id])
  }

  function RemoveTorrent(s: State, index: nat): State {
    if index >= |s.slots| || s.slots[index].None? then s
    else Enqueue(s.(slots := s.slots[index := None], free := s.free + [index]), CloseOf(index))
  }

  /** Looking the torrent up and queueing its job; without a torrent the handler is called at once. */
  function Submit(s: State, index: nat): State {
    var s' := s.(nextId := s.nextId + 1);
    if index >= |s.slots| || s.slots[index].None? then s'.(aborted := s.aborted + [s.nextId])
    else EnqueueOrAbort(s', Work(s.nextId, index, s.slots[index].value))
  }

  function SubmitRelease(s: State, index: nat): State {
    EnqueueOrAbort(s.(nextId := s.nextId + 1), Release(s.nextId, index))
  }

  function WithoutStorage(cache: set<Entry>, storage: nat): set<Entry> {
    set e | e in cache && e.storage != storage
  }

  /** What is cached after the job at most. */
  function After(cache: set<Entry>, job: Job): set<Entry> {
    match job
    case Work(_, storage, tenant) => cache + {Entry(storage, tenant)}
    case Release(_, storage) => WithoutStorage(cache, storage)
    case CloseOf(storage) => WithoutStorage(cache, storage)
  }

  datatype Step =
    | New
    | Remove(index: nat)
    | SubmitWork(index: nat)
    | SubmitClose(index: nat)
    | Pop
    | OpenDescriptor
    | CloseDescriptors(kept: set<Entry>)
    | Finish
    | Exit
    | AbortStart
    | AbortJoin

  ghost predicate Next(s: State, step: Step, s': State) {
    match step
    case New => s' == NewTorrent(s)
    case Remove(index) => s' == RemoveTorrent(s, index)
    case SubmitWork(index) => s' == Submit(s, index)
    case SubmitClose(index) => s' == SubmitRelease(s, index)
    // The worker takes the oldest job, whether or not a shutdown has begun.
    case Pop =>
      && !s.exited && s.running.None? && s.queue != []
      && s' == s.(running := Some(s.queue[0]), queue := s.queue[1..])
    // The running job opens a descriptor, or closes some.
    case OpenDescriptor =>
      && s.running.Some? && s.running.value.Work?
      && s' == s.(cache := s.cache + {Entry(s.running.value.storage, s.running.value.tenant)})
    case CloseDescriptors(kept) =>
      s.running.Some? && kept <= s.cache && s' == s.(cache := kept)
    case Finish =>
      && s.running.Some?
      && s' == s.(running := None, executed := s.executed + [s.running.value],
                  cache := if s.running.value.Work? then s.cache else After(s.cache, s.running.value))
    // The worker leaves only when told to stop and nothing is queued, and closes everything.
    case Exit =>
      && !s.exited && s.running.None? && s.queue == [] && s.stopping
      && s' == s.(exited := true, cache := {})
    case AbortStart =>
      if !s.accepting && !s.joinable then s' == s else s' == s.(accepting := false, stopping := true)
    case AbortJoin =>
      && s.stopping && s.exited && s' == s.(joinable := false, cache := {})
  }

  function Pending(s: State): seq<Job> {
    (if s.running.Some? then [s.running.value] else []) + s.queue
  }

  // ---- Every accepted job is run once, in order

  function Ids(jobs: seq<Job>): seq<nat> {
    if jobs == [] then []
    else Ids(jobs[..|jobs| - 1]) + if jobs[|jobs| - 1].CloseOf? then [] else [jobs[|jobs| - 1].id]
  }

  ghost predicate QueueInv(s: State) {
    && s.accepted == s.executed + Pending(s)
    && s.accepting == !s.stopping
    && (s.exited ==> s.stopping && s.queue == [] && s.running.None? && s.cache == {})
    && (!s.joinable ==> s.exited)
  }

  /** The submissions that have had an outcome: accepted, or their handlers got an abort. */
  function Outcomes(s: State): multiset<nat> {
    multiset(Ids(s.accepted)) + multiset(s.aborted)
  }

  /** Every submission has exactly one outcome. */
  ghost predicate OutcomeInv(s: State) {
    forall id: nat :: Outcomes(s)[id] == if id < s.nextId then 1 else 0
  }

  lemma IdsAppend(jobs: seq<Job>, job: Job)
    ensures Ids(jobs + [job]) == Ids(jobs) + if job.CloseOf? then [] else [job.id]
  {
    assert (jobs + [job])[..|jobs|] == jobs;
  }

  lemma EnqueueKeeps(s: State, job: Job)
    requires QueueInv(s)
    ensures QueueInv(Enqueue(s, job))
  {
    assert s.executed + (Pending(s) + [job]) == (s.executed + Pending(s)) + [job];
    if s.accepting {
      assert Pending(Enqueue(s, job)) == Pending(s) + [job];
    }
  }

  lemma SameQueue(s: State, s': State)
    requires QueueInv(s) && s'.accepting == s.accepting && s'.stopping == s.stopping && s'.exited == s.exited
    requires s'.joinable == s.joinable && s'.queue == s.queue && s'.running == s.running
    requires s'.executed == s.executed && s'.accepted == s.accepted && (s.cache == {} ==> s'.cache == {})
    ensures QueueInv(s')
  {
  }

  /** Submissions and changes of the slots. */
  lemma QueueCall(s: State, step: Step, s': State)
    requires QueueInv(s) && Next(s, step, s')
    requires step.New? || step.Remove? || step.SubmitWork? || step.SubmitClose?
    ensures QueueInv(s')
  {
    hide QueueInv, Enqueue;
    if step.New? {
      SameQueue(s, s');
    } else if step.Remove? {
      if step.index < |s.slots| && s.slots[step.index].Some? {
        var freed := s.(slots := s.slots[step.index := None], free := s.free + [step.index]);
        SameQueue(s, freed);
        EnqueueKeeps(freed, CloseOf(step.index));
      }
    } else {
      var counted := s.(nextId := s.nextId + 1);
      SameQueue(s, counted);
      SameQueue(counted, counted.(aborted := s.aborted + [s.nextId]));
      if step.SubmitClose? {
        EnqueueKeeps(counted, Release(s.nextId, step.index));
      } else if step.index < |s.slots| && s.slots[step.index].Some? {
        EnqueueKeeps(counted, Work(s.nextId, step.index, s.slots[step.index].value));
      }
    }
  }

  lemma QueueStep(s: State, step: Step, s': State)
    requires QueueInv(s) && Next(s, step, s')
    ensures QueueInv(s')
  {
    hide After;
    if step.New? || step.Remove? || step.SubmitWork? || step.SubmitClose? {
      QueueCall(s, step, s');
    } else if step.Pop? {
      assert [s.queue[0]] + s.queue[1..] == s.queue;
    } else if step.Finish? {
      assert s.executed + [s.running.value] + s.queue == s.executed + ([s.running.value] + s.queue);
    }
  }

  lemma OneOutcome(s: State, job: Job)
    requires !job.CloseOf?
    ensures Outcomes(EnqueueOrAbort(s, job)) == Outcomes(s) + multiset{job.id}
  {
    IdsAppend(s.accepted, job);
  }

  lemma NoOutcome(s: State, index: nat)
    ensures Outcomes(Enqueue(s, CloseOf(index))) == Outcomes(s)
  {
    IdsAppend(s.accepted, CloseOf(index));
  }

  /** A submission adds its own outcome, other steps none. */
  lemma OutcomesAdded(s: State, step: Step, s': State)
    requires Next(s, step, s')
    ensures if step.SubmitWork? || step.SubmitClose? then
              s'.nextId == s.nextId + 1 && Outcomes(s') == Outcomes(s) + multiset{s.nextId}
            else s'.nextId == s.nextId && Outcomes(s') == Outcomes(s)
  {
    hide Outcomes, Ids, NewTorrent, After;
    if step.SubmitWork? {
      SubmitOutcome(s, step.index);
    } else if step.SubmitClose? {
      SameOutcomes(s, s.(nextId := s.nextId + 1));
      OneOutcome(s.(nextId := s.nextId + 1), Release(s.nextId, step.index));
    } else if step.Remove? && step.index < |s.slots| && s.slots[step.index].Some? {
      var freed := s.(slots := s.slots[step.index := None], free := s.free + [step.index]);
      SameOutcomes(s, freed);
      NoOutcome(freed, step.index);
    } else {
      OtherStep(s, step, s');
      SameOutcomes(s, s');
    }
  }

  lemma OtherStep(s: State, step: Step, s': State)
    requires Next(s, step, s') && !step.SubmitWork? && !step.SubmitClose?
    requires !(step.Remove? && step.index < |s.slots| && s.slots[step.index].Some?)
    ensures s'.accepted == s.accepted && s'.aborted == s.aborted && s'.nextId == s.nextId
  {
  }

  lemma SameOutcomes(s: State, s': State)
    requires s'.accepted == s.accepted && s'.aborted == s.aborted
    ensures Outcomes(s') == Outcomes(s)
  {
  }

  lemma SubmitOutcome(s: State, index: nat)
    ensures Submit(s, index).nextId == s.nextId + 1 && Outcomes(Submit(s, index)) == Outcomes(s) + multiset{s.nextId}
  {
  }

  lemma OutcomeStep(s: State, step: Step, s': State)
    requires OutcomeInv(s) && Next(s, step, s')
    ensures OutcomeInv(s')
  {
    OutcomesAdded(s, step, s');
  }

  // ---- Storage indices

  /** The free list holds exactly the empty slots, each once. */
  ghost predicate SlotInv(s: State) {
    && (forall i :: i in s.free <==> 0 <= i < |s.slots| && s.slots[i].None?)
    && (forall a, b :: 0 <= a < b < |s.free| ==> s.free[a] != s.free[b])
    && (forall i :: 0 <= i < |s.slots| && s.slots[i].Some? ==> s.slots[i].value < s.nextTenant)
    && (forall i, j :: 0 <= i < j < |s.slots| && s.slots[i].Some? && s.slots[j].Some? ==>
                         s.slots[i].value != s.slots[j].value)
  }

  lemma ReusedSlot(s: State)
    requires SlotInv(s) && s.free != []
    ensures SlotInv(NewTorrent(s))
  {
    var n, s' := |s.free| - 1, NewTorrent(s);
    var index := s.free[n];
    assert index in s.free;
    assert s.free == s'.free + [index];
    forall i
      ensures i in s'.free <==> 0 <= i < |s'.slots| && s'.slots[i].None?
    {
      assert i in s.free <==> i in s'.free || i == index;
    }
  }

  lemma FreedSlot(s: State, index: nat)
    requires SlotInv(s) && index < |s.slots| && s.slots[index].Some?
    ensures SlotInv(s.(slots := s.slots[index := None], free := s.free + [index]))
  {
  }

  lemma SameSlots(s: State, s': State)
    requires SlotInv(s) && s'.slots == s.slots && s'.free == s.free && s'.nextTenant == s.nextTenant
    ensures SlotInv(s')
  {
  }

  lemma FreshSlot(s: State)
    requires SlotInv(s) && s.free == []
    ensures SlotInv(NewTorrent(s))
  {
  }

  lemma RemovedSlot(s: State, index: nat)
    requires SlotInv(s)
    ensures SlotInv(RemoveTorrent(s, index))
  {
    hide SlotInv;
    if index < |s.slots| && s.slots[index].Some? {
      FreedSlot(s, index);
      SameSlots(s.(slots := s.slots[index := None], free := s.free + [index]), RemoveTorrent(s, index));
    }
  }

  lemma SlotStep(s: State, step: Step, s': State)
    requires SlotInv(s) && Next(s, step, s')
    ensures SlotInv(s')
  {
    hide SlotInv, NewTorrent, RemoveTorrent, After;
    if step.New? {
      if s.free != [] {
        ReusedSlot(s);
      } else {
        FreshSlot(s);
      }
    } else if step.Remove? {
      RemovedSlot(s, step.index);
    } else {
      SameSlots(s, s');
    }
  }

  /** `new_torrent` never hands out an index in use. */
  lemma NewIndexUnused(s: State)
    requires SlotInv(s)
    ensures PickedIndex(s) <= |s.slots|
    ensures PickedIndex(s) < |s.slots| ==> s.slots[PickedIndex(s)].None?
    ensures NewTorrent(s).slots[PickedIndex(s)] == Some(s.nextTenant)
  {
    if s.free != [] {
      assert s.free[|s.free| - 1] in s.free;
    }
  }

  // ---- Isolation of the tenants of one index

  /** All that could be cached after the jobs. */
  function Reach(cache: set<Entry>, jobs: seq<Job>): set<Entry>
    decreases jobs
  {
    if jobs == [] then cache else Reach(After(cache, jobs[0]), jobs[1..])
  }

  /** What the job finds cached under its index was opened for its own torrent. */
  ghost predicate Alone(cache: set<Entry>, job: Job) {
    job.Work? ==> forall e :: e in cache && e.storage == job.storage ==> e.opener == job.tenant
  }

  ghost predicate AllAlone(cache: set<Entry>, jobs: seq<Job>)
    decreases jobs
  {
    jobs == [] || (Alone(cache, jobs[0]) && AllAlone(After(cache, jobs[0]), jobs[1..]))
  }

  /** Whatever could still be cached belongs to the index's present torrent. */
  ghost predicate Current(s: State, cache: set<Entry>) {
    forall e :: e in cache ==> e.storage < |s.slots| && s.slots[e.storage] == Some(e.opener)
  }

  ghost predicate IsolationInv(s: State) {
    && AllAlone(s.cache, Pending(s))
    && (s.accepting ==> Current(s, Reach(s.cache, Pending(s))))
  }

  lemma {:induction false} ReachAppend(cache: set<Entry>, jobs: seq<Job>, job: Job)
    ensures Reach(cache, jobs + [job]) == After(Reach(cache, jobs), job)
    decreases |jobs|
  {
    if jobs == [] {
      assert (jobs + [job])[1..] == [];
    } else {
      assert (jobs + [job])[1..] == jobs[1..] + [job];
      ReachAppend(After(cache, jobs[0]), jobs[1..], job);
    }
  }

  lemma {:induction false} AloneAppend(cache: set<Entry>, jobs: seq<Job>, job: Job)
    requires AllAlone(cache, jobs) && Alone(Reach(cache, jobs), job)
    ensures AllAlone(cache, jobs + [job])
    decreases |jobs|
  {
    if jobs == [] {
      assert (jobs + [job])[1..] == [];
    } else {
      assert (jobs + [job])[1..] == jobs[1..] + [job];
      AloneAppend(After(cache, jobs[0]), jobs[1..], job);
    }
  }

  /** Closing descriptors early never hurts. */
  lemma {:induction false} FewerCached(cache: set<Entry>, fewer: set<Entry>, jobs: seq<Job>)
    requires fewer <= cache
    ensures Reach(fewer, jobs) <= Reach(cache, jobs)
    ensures AllAlone(cache, jobs) ==> AllAlone(fewer, jobs)
    decreases |jobs|
  {
    if jobs != [] {
      FewerCached(After(cache, jobs[0]), After(fewer, jobs[0]), jobs[1..]);
    }
  }

  lemma Enqueued(s: State, job: Job)
    requires IsolationInv(s) && s.accepting && Alone(Reach(s.cache, Pending(s)), job)
    ensures AllAlone(s.cache, Pending(Enqueue(s, job)))
    ensures Reach(s.cache, Pending(Enqueue(s, job))) == After(Reach(s.cache, Pending(s)), job)
  {
    assert Pending(Enqueue(s, job)) == Pending(s) + [job];
    ReachAppend(s.cache, Pending(s), job);
    AloneAppend(s.cache, Pending(s), job);
  }

  lemma NewAlone(s: State)
    requires IsolationInv(s) && SlotInv(s)
    ensures IsolationInv(NewTorrent(s))
  {
    hide SlotInv, AllAlone, Reach, After;
    NewIndexUnused(s);
  }

  lemma RemovedAlone(s: State, index: nat)
    requires IsolationInv(s)
    ensures IsolationInv(RemoveTorrent(s, index))
  {
    if index < |s.slots| && s.slots[index].Some? && s.accepting {
      Enqueued(s, CloseOf(index));
      assert Pending(RemoveTorrent(s, index)) == Pending(Enqueue(s, CloseOf(index)));
    }
  }

  lemma SubmittedAlone(s: State, index: nat)
    requires IsolationInv(s)
    ensures IsolationInv(Submit(s, index))
  {
    if index < |s.slots| && s.slots[index].Some? && s.accepting {
      var job := Work(s.nextId, index, s.slots[index].value);
      Enqueued(s, job);
      assert Pending(Submit(s, index)) == Pending(Enqueue(s, job));
    }
  }

  lemma ReleasedAlone(s: State, index: nat)
    requires IsolationInv(s)
    ensures IsolationInv(SubmitRelease(s, index))
  {
    if s.accepting {
      Enqueued(s, Release(s.nextId, index));
      assert Pending(SubmitRelease(s, index)) == Pending(Enqueue(s, Release(s.nextId, index)));
    }
  }

  /** The worker and the shutdown. */
  lemma WorkerAlone(s: State, step: Step, s': State)
    requires IsolationInv(s) && QueueInv(s) && Next(s, step, s')
    requires step.Pop? || step.CloseDescriptors? || step.Exit? || step.AbortStart? || step.AbortJoin?
    ensures IsolationInv(s')
  {
    if step.Pop? {
      assert Pending(s') == Pending(s);
    } else if step.CloseDescriptors? {
      FewerCached(s.cache, step.kept, Pending(s));
    } else if step.Exit? || step.AbortJoin? {
      assert Pending(s') == [];
    }
  }

  lemma IsolationStep(s: State, step: Step, s': State)
    requires IsolationInv(s) && QueueInv(s) && SlotInv(s) && Next(s, step, s')
    ensures IsolationInv(s')
  {
    hide IsolationInv, QueueInv, SlotInv, NewTorrent, RemoveTorrent, Submit, SubmitRelease, After;
    if step.New? {
      NewAlone(s);
    } else if step.Remove? {
      RemovedAlone(s, step.index);
    } else if step.SubmitWork? {
      SubmittedAlone(s, step.index);
    } else if step.SubmitClose? {
      ReleasedAlone(s, step.index);
    } else if step.OpenDescriptor? {
      OpenedAlone(s, s');
    } else if step.Finish? {
      FinishedAlone(s, s');
    } else {
      WorkerAlone(s, step, s');
    }
  }

  lemma OpenedAlone(s: State, s': State)
    requires IsolationInv(s) && Next(s, OpenDescriptor, s')
    ensures IsolationInv(s')
  {
  }

  lemma FinishedAlone(s: State, s': State)
    requires IsolationInv(s) && Next(s, Finish, s')
    ensures IsolationInv(s')
  {
    var job := s.running.value;
    assert Pending(s)[0] == job && Pending(s)[1..] == s.queue && Pending(s') == s.queue;
    FewerCached(After(s.cache, job), s'.cache, s.queue);
  }

  // ---- Whole runs

  ghost predicate Inv(s: State) {
    QueueInv(s) && OutcomeInv(s) && SlotInv(s) && IsolationInv(s)
  }

  ghost predicate Run(states: seq<State>, steps: seq<Step>) {
    && |states| == |steps| + 1
    && Init(states[0])
    && forall n :: 0 <= n < |steps| ==> Next(states[n], steps[n], states[n + 1])
  }

  lemma {:induction false} RunInv(states: seq<State>, steps: seq<Step>, n: nat)
    requires Run(states, steps) && n < |states|
    ensures Inv(states[n])
  {
    if n > 0 {
      RunInv(states, steps, n - 1);
      var s, step, s' := states[n - 1], steps[n - 1], states[n];
      QueueStep(s, step, s');
      OutcomeStep(s, step, s');
      SlotStep(s, step, s');
      IsolationStep(s, step, s');
    }
  }

  lemma RunNext(states: seq<State>, steps: seq<Step>, n: nat)
    requires Run(states, steps) && n < |steps| && |states| == |steps| + 1
    ensures Next(states[n], steps[n], states[n + 1])
  {
  }

  lemma RunLengths(states: seq<State>, steps: seq<Step>)
    requires Run(states, steps)
    ensures |states| == |steps| + 1
  {
  }

  lemma InvQueue(s: State)
    requires Inv(s)
    ensures QueueInv(s)
  {
  }

  lemma GrowStep(s: State, step: Step, s': State)
    requires QueueInv(s) && Next(s, step, s')
    ensures s.executed <= s'.executed && s.accepted <= s'.accepted
    ensures s.stopping ==> s'.stopping && s'.accepted == s.accepted
    ensures s.exited ==> s'.exited
  {
  }

  lemma {:induction false} HistoryGrows(states: seq<State>, steps: seq<Step>, m: nat, n: nat)
    requires Run(states, steps) && m <= n < |states|
    ensures states[m].executed <= states[n].executed && states[m].accepted <= states[n].accepted
    ensures states[m].stopping ==> states[n].stopping && states[n].accepted == states[m].accepted
    ensures states[m].exited ==> states[n].exited
    decreases n - m
  {
    hide *;
    if m < n {
      HistoryGrows(states, steps, m, n - 1);
      RunInv(states, steps, n - 1);
      InvQueue(states[n - 1]);
      RunLengths(states, steps);
      RunNext(states, steps, n - 1);
      GrowStep(states[n - 1], steps[n - 1], states[n]);
    }
  }

  // ---- The whole history of accepted jobs

  /** As if no job had been begun yet. */
  function Whole(s: State): State {
    s.(cache := {}, running := None, executed := [], queue := s.accepted)
  }

  lemma WholePending(s: State)
    ensures Pending(Whole(s)) == s.accepted
  {
  }

  lemma WholeNew(s: State)
    ensures Whole(s).slots == s.slots && Whole(s).free == s.free && Whole(s).nextTenant == s.nextTenant
    ensures Whole(NewTorrent(s)) == NewTorrent(Whole(s))
  {
  }

  lemma WholeEnqueue(s: State, job: Job)
    ensures Whole(Enqueue(s, job)) == Enqueue(Whole(s), job)
  {
  }

  lemma WholeRemove(s: State, index: nat)
    ensures Whole(RemoveTorrent(s, index)) == RemoveTorrent(Whole(s), index)
  {
    hide Enqueue;
    if index < |s.slots| && s.slots[index].Some? {
      WholeEnqueue(s.(slots := s.slots[index := None], free := s.free + [index]), CloseOf(index));
    }
  }

  lemma WholeSubmit(s: State, index: nat)
    ensures Whole(Submit(s, index)) == Submit(Whole(s), index)
  {
    hide Enqueue;
    if index < |s.slots| && s.slots[index].Some? {
      WholeEnqueue(s.(nextId := s.nextId + 1), Work(s.nextId, index, s.slots[index].value));
    }
  }

  lemma WholeSubmitRelease(s: State, index: nat)
    ensures Whole(SubmitRelease(s, index)) == SubmitRelease(Whole(s), index)
  {
    hide Enqueue;
    WholeEnqueue(s.(nextId := s.nextId + 1), Release(s.nextId, index));
  }

  /** From the first job on, each finds only descriptors of its own torrent, whatever the jobs before it
      left open. */
  lemma WholeStep(s: State, step: Step, s': State)
    requires IsolationInv(Whole(s)) && SlotInv(s) && QueueInv(s) && Next(s, step, s')
    ensures IsolationInv(Whole(s'))
  {
    hide IsolationInv, SlotInv, QueueInv, After, Whole, NewTorrent, RemoveTorrent, Submit, SubmitRelease;
    WholeNew(s);
    SameSlots(s, Whole(s));
    if step.New? {
      NewAlone(Whole(s));
    } else if step.Remove? {
      WholeRemove(s, step.index);
      RemovedAlone(Whole(s), step.index);
    } else if step.SubmitWork? {
      WholeSubmit(s, step.index);
      SubmittedAlone(Whole(s), step.index);
    } else if step.SubmitClose? {
      WholeSubmitRelease(s, step.index);
      ReleasedAlone(Whole(s), step.index);
    } else {
      OthersAlone(s, step, s');
    }
  }

  lemma OthersAlone(s: State, step: Step, s': State)
    requires IsolationInv(Whole(s)) && QueueInv(s) && Next(s, step, s')
    requires !step.New? && !step.Remove? && !step.SubmitWork? && !step.SubmitClose?
    ensures IsolationInv(Whole(s'))
  {
    hide After, Reach, AllAlone;
    WholePending(s);
    WholePending(s');
    assert s'.accepted == s.accepted && s'.slots == s.slots;
  }

  /** Jobs name slots and torrents there are, and a torrent has one slot for ever. */
  ghost predicate HomeInv(s: State) {
    && (forall job :: job in s.accepted && job.Work? ==> job.storage < |s.slots| && job.tenant < s.nextTenant)
    && (forall job, i :: job in s.accepted && job.Work? && 0 <= i < |s.slots| && s.slots[i] == Some(job.tenant) ==>
                           i == job.storage)
    && OneHome(s.accepted)
  }

  predicate OneHome(jobs: seq<Job>) {
    forall a, b :: a in jobs && b in jobs && a.Work? && b.Work? && a.tenant == b.tenant ==> a.storage == b.storage
  }

  lemma HomeNew(s: State)
    requires HomeInv(s) && SlotInv(s)
    ensures HomeInv(NewTorrent(s))
  {
    NewIndexUnused(s);
    var s', index := NewTorrent(s), PickedIndex(s);
    forall job, i | job in s'.accepted && job.Work? && 0 <= i < |s'.slots| && s'.slots[i] == Some(job.tenant)
      ensures i == job.storage
    {
      assert i != index && s.slots[i] == s'.slots[i];
    }
  }

  /** Slots are at most emptied, and at most jobs without a torrent are accepted. */
  lemma HomeFewer(s: State, s': State)
    requires HomeInv(s) && s'.nextTenant == s.nextTenant && |s'.slots| == |s.slots|
    requires forall i :: 0 <= i < |s.slots| ==> s'.slots[i] == s.slots[i] || s'.slots[i].None?
    requires forall job :: job in s'.accepted && job.Work? ==> job in s.accepted
    ensures HomeInv(s')
  {
  }

  lemma HomeSubmitted(s: State, index: nat)
    requires HomeInv(s) && SlotInv(s) && s.accepting && index < |s.slots| && s.slots[index].Some?
    ensures HomeInv(Submit(s, index))
  {
    var s', new' := Submit(s, index), Work(s.nextId, index, s.slots[index].value);
    assert s'.accepted == s.accepted + [new'] && s'.slots == s.slots;
    forall job | job in s'.accepted
      ensures job in s.accepted || job == new'
    {
    }
    forall a, b | a in s'.accepted && b in s'.accepted && a.Work? && b.Work? && a.tenant == b.tenant
      ensures a.storage == b.storage
    {
      assert a == new' && b != new' ==> s.slots[index] == Some(b.tenant);
      assert b == new' && a != new' ==> s.slots[index] == Some(a.tenant);
    }
  }

  lemma HomeStep(s: State, step: Step, s': State)
    requires HomeInv(s) && SlotInv(s) && Next(s, step, s')
    ensures HomeInv(s')
  {
    hide After, HomeInv, SlotInv, OneHome;
    if step.New? {
      HomeNew(s);
    } else if step.SubmitWork? && s.accepting && step.index < |s.slots| && s.slots[step.index].Some? {
      HomeSubmitted(s, step.index);
    } else {
      HomeFewer(s, s');
    }
  }

  lemma {:induction false} WholeRun(states: seq<State>, steps: seq<Step>, n: nat)
    requires Run(states, steps) && n < |states|
    ensures IsolationInv(Whole(states[n])) && HomeInv(states[n])
  {
    if n > 0 {
      WholeRun(states, steps, n - 1);
      RunInv(states, steps, n - 1);
      WholeStep(states[n - 1], steps[n - 1], states[n]);
      HomeStep(states[n - 1], steps[n - 1], states[n]);
    }
  }

  lemma {:induction false} AloneAt(cache: set<Entry>, jobs: seq<Job>, n: nat)
    requires AllAlone(cache, jobs) && n < |jobs|
    ensures Alone(Reach(cache, jobs[..n]), jobs[n])
    decreases n
  {
    if n == 0 {
      assert jobs[..0] == [];
    } else {
      assert jobs[..n][1..] == jobs[1..][..n - 1];
      AloneAt(After(cache, jobs[0]), jobs[1..], n - 1);
    }
  }

  /** Jobs run in the order they were accepted, none twice, none skipped. */
  lemma ExecutedInOrder(states: seq<State>, steps: seq<Step>, n: nat)
    requires Run(states, steps) && n < |states|
    ensures states[n].executed + Pending(states[n]) == states[n].accepted
  {
    RunInv(states, steps, n);
  }

  /** Once the worker has left, every accepted job has run, for good, and no descriptor is cached. */
  lemma DrainedAtExit(states: seq<State>, steps: seq<Step>, m: nat, n: nat)
    requires Run(states, steps) && m <= n < |states| && states[m].exited
    ensures states[n].executed == states[n].accepted == states[m].accepted && states[n].cache == {}
  {
    RunInv(states, steps, m);
    RunInv(states, steps, n);
    HistoryGrows(states, steps, m, n);
  }

  /** Nothing is accepted after the shutdown began: later submissions are aborted, each once. */
  lemma NothingAcceptedAfterAbort(states: seq<State>, steps: seq<Step>, m: nat, n: nat, id: nat)
    requires Run(states, steps) && m <= n < |states| && states[m].stopping
    requires states[m].nextId <= id < states[n].nextId
    ensures id !in Ids(states[n].accepted) && multiset(states[n].aborted)[id] == 1
  {
    RunInv(states, steps, m);
    RunInv(states, steps, n);
    HistoryGrows(states, steps, m, n);
    assert Outcomes(states[m])[id] == 0 && Outcomes(states[n])[id] == 1;
  }

  /** While a torrent's job runs, every cached descriptor filed under its index was opened for that
      very torrent, however often the index was reused before. */
  lemma JobFindsOwnDescriptors(states: seq<State>, steps: seq<Step>, n: nat, e: Entry)
    requires Run(states, steps) && n < |states|
    requires states[n].running.Some? && states[n].running.value.Work?
    requires e in states[n].cache && e.storage == states[n].running.value.storage
    ensures e.opener == states[n].running.value.tenant
  {
    RunInv(states, steps, n);
    assert Pending(states[n])[0] == states[n].running.value;
  }

  /** A job for torrent `tenant`, queued some time after the torrent was looked up at the index, is
      harmless exactly if the torrent is still there. */
  lemma LateJobExactly(s: State, index: nat, tenant: nat)
    requires IsolationInv(s) && s.accepting
    ensures IsolationInv(EnqueueOrAbort(s.(nextId := s.nextId + 1), Work(s.nextId, index, tenant))) <==>
            index < |s.slots| && s.slots[index] == Some(tenant)
  {
    var counted, job := s.(nextId := s.nextId + 1), Work(s.nextId, index, tenant);
    var late := EnqueueOrAbort(counted, job);
    var reach := Reach(s.cache, Pending(s));
    assert Pending(late) == Pending(s) + [job];
    ReachAppend(s.cache, Pending(s), job);
    assert Entry(index, tenant) in Reach(late.cache, Pending(late));
    if index < |s.slots| && s.slots[index] == Some(tenant) {
      AloneAppend(s.cache, Pending(s), job);
    }
  }

  /** The lookup and the queueing must be one step: a job queued for a torrent that was removed in
      between, at an index that was given away again, leaves its descriptor to the next tenant. */
  lemma LateJobBreaksIsolation() returns (s: State, late: State)
    ensures Inv(s) && s.accepting && s.slots == [Some(1)]
    ensures late == EnqueueOrAbort(s.(nextId := s.nextId + 1), Work(s.nextId, 0, 0))
    ensures late.nextId == s.nextId + 1 && !AllAlone(late.cache, Pending(Submit(late, 0)))
  {
    var close := CloseOf(0);
    s := State(true, false, true, false, [close], None, [], [close], [Some(1)], [], {}, [], 0, 2);
    assert Ids([close]) == [];
    late := EnqueueOrAbort(s.(nextId := s.nextId + 1), Work(s.nextId, 0, 0));
    var jobs := Pending(Submit(late, 0));
    assert jobs == [close, Work(0, 0, 0), Work(1, 0, 1)];
    assert jobs[1..] == [Work(0, 0, 0), Work(1, 0, 1)] && jobs[1..][1..] == [Work(1, 0, 1)];
    assert After({}, close) == {};
    assert Entry(0, 0) in After({}, Work(0, 0, 0));
    assert !Alone(After({}, Work(0, 0, 0)), Work(1, 0, 1));
    assert !AllAlone(After({}, Work(0, 0, 0)), jobs[1..][1..]);
    assert !AllAlone({}, jobs[1..]);
  }
}
