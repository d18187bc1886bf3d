/**
  The job manager as a whole: clients and workers of airplay/utils/JobManager.cpp, interleaved between its locked
  sections and the steps of waiting on its event.
*/
module JobSystem {
  import opened JobQueues
  import opened Options

  /** Where a worker is in CJobWorker::Process. */
  datatype Phase =
    | Ready                     // about to lock in GetNextJob
    | Leaving                   // found no job, unlocked, not waiting yet
    | Asleep                    // in WaitMSec
    | Woken(newJob: bool)       // WaitMSec has returned, about to lock again
    | Working(job: nat)         // DoWork
    | Telling(item: WorkItem)   // OnJobComplete has its copy of the item and has unlocked
    | Told(item: WorkItem)      // the listener has been called, if there was one
    | Freeing(item: WorkItem)   // the item is off the processing list, its job still to be deleted
    | Exited

  /** What has become of a job that AddJob accepted; jobs are numbered in that order. */
  datatype Fate = Pending(p: Priority) | Running(w: nat) | Dropped(w: nat) | Freed

  /** Where a client is in the loop of CancelJobs. */
  datatype Client = Setting | Checking

  /** The manager, the threads, and a record of each job: the listener it was given and what has happened to it. */
  datatype State = State(
    m: Manager, phase: seq<Phase>, clients: map<nat, Client>, returned: bool,
    given: seq<Option<nat>>, fate: seq<Fate>, freed: multiset<nat>, called: multiset<nat>, muted: set<nat>,
    started: seq<WorkItem>)

  datatype Action =
    | Add(callback: Option<nat>, p: Priority)
    | Cancel(id: nat)
    | Pause(p: Priority)
    | UnPause(p: Priority)
    | CancelAll(c: nat)
    | SetEvent(c: nat)
    | CheckWorkers(c: nat)
    | TryNext(w: nat)
    | EnterWait(w: nat)
    | LeaveWait(w: nat)
    | Complete(w: nat)
    | Tell(w: nat)
    | Erase(w: nat)
    | Free(w: nat)

  ghost predicate Init(s: State) {
    s == State(JobQueues.Initial(), [], map[], false, [], [], multiset{}, multiset{}, {}, [])
  }

  predicate Enabled(s: State, a: Action) {
    s.m.WellShaped() &&
    match a
    case CancelAll(c) => c !in s.clients
    case SetEvent(c) => c in s.clients && s.clients[c].Setting?
    case CheckWorkers(c) => c in s.clients && s.clients[c].Checking?
    case TryNext(w) => w < |s.phase| && (s.phase[w].Ready? || s.phase[w].Woken?)
    case EnterWait(w) => w < |s.phase| && s.phase[w].Leaving?
    case LeaveWait(w) => w < |s.phase| && s.phase[w].Asleep?
    case Complete(w) => w < |s.phase| && s.phase[w].Working?
    case Tell(w) => w < |s.phase| && s.phase[w].Telling?
    case Erase(w) => w < |s.phase| && s.phase[w].Told?
    case Free(w) => w < |s.phase| && s.phase[w].Freeing?
    case _ => true
  }

  function SetFate(fate: seq<Fate>, job: nat, f: Fate): (r: seq<Fate>)
    ensures |r| == |fate|
  {
    if job < |fate| then fate[job := f] else fate
  }

  function Jobs(items: seq<WorkItem>): (jobs: seq<nat>)
    ensures |jobs| == |items| && forall i :: 0 <= i < |items| ==> jobs[i] == items[i].job
  {
    seq(|items|, i requires 0 <= i < |items| => items[i].job)
  }

  /** The jobs still in DoWork: their completion has not been noticed yet. */
  predicate InDoWork(s: State, job: nat) {
    job < |s.fate| && s.fate[job].Running? && s.fate[job].w < |s.phase| && s.phase[s.fate[job].w].Working?
  }

  function AfterAdd(s: State, callback: Option<nat>, p: Priority): State
    requires s.m.WellShaped()
  {
    if !s.m.running then s
    else
      s.(m := Added(s.m, |s.fate|, callback, p, |s.phase|), given := s.given + [callback], fate := s.fate + [Pending(p)],
         phase := if NeedsWorker(s.m, p) then s.phase + [Ready] else s.phase)
  }

  /** CancelJob, where it finds the job. */
  function AfterCancel(s: State, t: Target): State
    requires s.m.WellShaped()
    requires t.InQueue? ==> t.i < |s.m.queue[t.p]|
    requires t.InProcessing? ==> t.i < |s.m.processing|
  {
    match t
    case Nowhere => s
    case InQueue(p, i) =>
      var job := s.m.queue[p][i].job;
      s.(m := Cancelled(s.m, t), freed := s.freed + multiset{job}, fate := SetFate(s.fate, job, Freed),
         muted := s.muted + {job})
    case InProcessing(i) =>
      var job := s.m.processing[i].job;
      s.(m := Cancelled(s.m, t), muted := if InDoWork(s, job) then s.muted + {job} else s.muted)
  }

  function AfterCancelAll(s: State, c: nat): State
    requires s.m.WellShaped()
  {
    var q, running := s.m.queue, Jobs(s.m.processing);
    var queued := Jobs(q[0]) + Jobs(q[1]) + Jobs(q[2]);
    s.(m := AllCancelled(s.m),
       freed := s.freed + multiset(Jobs(q[0])) + multiset(Jobs(q[1])) + multiset(Jobs(q[2])),
       fate := seq(|s.fate|, j requires 0 <= j < |s.fate| => if j in queued then Freed else s.fate[j]),
       muted := s.muted + (set j | j in queued) + (set j | j in running && InDoWork(s, j)),
       clients := if s.m.workers == [] then s.clients else s.clients[c := Setting],
       returned := s.returned || s.m.workers == [])
  }

  /** GetNextJob with a job to take. */
  function AfterPop(s: State, w: nat, p: Priority): State
    requires s.m.WellShaped() && w < |s.phase| && s.m.queue[p] != []
  {
    var item := s.m.queue[p][0];
    s.(m := PoppedFrom(s.m, p), phase := s.phase[w := Working(item.job)], fate := SetFate(s.fate, item.job, Running(w)),
       started := s.started + [item])
  }

  /** GetNextJob without one: back to waiting, or out. */
  function AfterNoJob(s: State, w: nat, again: bool): State
    requires s.m.WellShaped() && w < |s.phase|
  {
    if again && s.m.running then s.(phase := s.phase[w := Leaving])
    else s.(m := WorkerRemoved(s.m, w), phase := s.phase[w := Exited])
  }

  predicate Again(phase: Phase) {
    phase.Ready? || (phase.Woken? && phase.newJob)
  }

  function AfterTryNext(s: State, w: nat): State
    requires s.m.WellShaped() && w < |s.phase|
  {
    var p := NextPriority(s.m, HIGH);
    if p >= 0 then AfterPop(s, w, p) else AfterNoJob(s, w, Again(s.phase[w]))
  }

  /** The manager's part of it is what GetNextJob does under the lock. */
  lemma TryNextIsNextJob(s: State, w: nat)
    requires s.m.WellShaped() && w < |s.phase|
    ensures AfterTryNext(s, w).m == NextJob(s.m, w, Again(s.phase[w]))
    ensures PoppedJob(s.m).Some? ==> AfterTryNext(s, w).phase[w] == Working(PoppedJob(s.m).value)
  {
  }

  function AfterComplete(s: State, w: nat): State
    requires w < |s.phase| && s.phase[w].Working?
  {
    var i := FindJob(s.m.processing, s.phase[w].job);
    s.(phase := s.phase[w := if i < |s.m.processing| then Telling(s.m.processing[i]) else Ready])
  }

  function Apply(s: State, a: Action): State
    requires Enabled(s, a)
  {
    match a
    case Add(callback, p) => AfterAdd(s, callback, p)
    case Cancel(id) => AfterCancel(s, FindTarget(s.m, id, LOW))
    case Pause(p) => s.(m := s.m.(paused := s.m.paused[p := true]))
    case UnPause(p) => s.(m := s.m.(paused := s.m.paused[p := false]))
    case CancelAll(c) => AfterCancelAll(s, c)
    case SetEvent(c) => s.(m := s.m.(signaled := true), clients := s.clients[c := Checking])
    case CheckWorkers(c) =>
      if s.m.workers == [] then s.(clients := s.clients - {c}, returned := true)
      else s.(clients := s.clients[c := Setting])
    case TryNext(w) => AfterTryNext(s, w)
    case EnterWait(w) =>
      s.(m := WaitEntered(s.m), phase := s.phase[w := if s.m.signaled then Woken(true) else Asleep])
    case LeaveWait(w) => s.(m := WaitLeft(s.m), phase := s.phase[w := Woken(s.m.signaled)])
    case Complete(w) => AfterComplete(s, w)
    case Tell(w) =>
      var item := s.phase[w].item;
      s.(phase := s.phase[w := Told(item)],
         called := if item.callback.Some? then s.called + multiset{item.job} else s.called)
    case Erase(w) =>
      var item := s.phase[w].item;
      s.(m := Erased(s.m, item.job), phase := s.phase[w := Freeing(item)], fate := SetFate(s.fate, item.job, Dropped(w)))
    case Free(w) =>
      var item := s.phase[w].item;
      s.(phase := s.phase[w := Ready], freed := s.freed + multiset{item.job}, fate := SetFate(s.fate, item.job, Freed))
  }

  // ---------------------------------------------------------------- queues: jobs wait in the order they were added

  ghost predicate QueuesOk(s: State) {
    && s.m.WellShaped()
    && (forall p, i :: 0 <= p < 3 && 0 <= i < |s.m.queue[p]| ==>
          var item := s.m.queue[p][i]; item.priority == p && item.job < |s.fate| && s.fate[item.job] == Pending(p))
    && (forall p, i, j :: 0 <= p < 3 && 0 <= i < j < |s.m.queue[p]| ==> s.m.queue[p][i].job < s.m.queue[p][j].job)
  }

  // ---------------------------------------------------------------- every running job has a worker of its own

  /** The job on the processing list that a worker answers for. */
  function HeldJob(phase: Phase): Option<nat> {
    match phase
    case Working(job) => Some(job)
    case Telling(item) => Some(item.job)
    case Told(item) => Some(item.job)
    case _ => None
  }

  ghost predicate ProcessingOk(s: State) {
    && (forall i :: 0 <= i < |s.m.processing| ==>
          var job := s.m.processing[i].job;
          job < |s.fate| && s.fate[job].Running? && s.fate[job].w < |s.phase| && HeldJob(s.phase[s.fate[job].w]) == Some(job))
    && (forall i, j :: 0 <= i < j < |s.m.processing| ==> s.m.processing[i].job != s.m.processing[j].job)
  }

  ghost predicate PhasesOk(s: State) {
    forall w {:trigger s.phase[w]} :: 0 <= w < |s.phase| ==>
      && (HeldJob(s.phase[w]).Some? ==>
            var job := HeldJob(s.phase[w]).value; job < |s.fate| && s.fate[job] == Running(w))
      && (s.phase[w].Freeing? ==> s.phase[w].item.job < |s.fate| && s.fate[s.phase[w].item.job] == Dropped(w))
  }

  ghost predicate Core(s: State) {
    QueuesOk(s) && ProcessingOk(s) && PhasesOk(s)
  }

  // ---------------------------------------------------------------- the other invariants

  /** A worker is registered until it exits, once. */
  ghost predicate WorkersOk(s: State) {
    && (forall w: nat {:trigger w in s.m.workers} :: w in s.m.workers <==> w < |s.phase| && !s.phase[w].Exited?)
    && (forall i, j :: 0 <= i < j < |s.m.workers| ==> s.m.workers[i] != s.m.workers[j])
  }

  /** How many of these have priority `p` or lower. */
  function CountUpTo(items: seq<WorkItem>, p: Priority): (n: nat)
    ensures n <= |items|
  {
    if items == [] then 0
    else CountUpTo(items[..|items| - 1], p) + (if items[|items| - 1].priority <= p then 1 else 0)
  }

  ghost predicate SlotsOk(s: State) {
    && |s.m.workers| <= MAX_WORKERS
    && forall p: Priority :: CountUpTo(s.m.processing, p) <= MaxWorkers(p)
  }

  /** A job whose listener has been called is past that point. */
  ghost predicate CalledOk(s: State, j: nat) {
    && j < |s.fate| && !s.fate[j].Pending?
    && (s.fate[j].Running? ==> s.fate[j].w < |s.phase| && s.phase[s.fate[j].w].Told?)
  }

  /** A job cancelled in time has no listener left to call. */
  ghost predicate MutedOk(s: State, j: nat) {
    && s.called[j] == 0 && j < |s.fate| && !s.fate[j].Pending?
    && (s.fate[j].Running? ==> s.fate[j].w < |s.phase| && NoListener(s.phase[s.fate[j].w]))
  }

  predicate NoListener(phase: Phase) {
    phase.Telling? ==> phase.item.callback.None?
  }

  ghost predicate CallsOk(s: State) {
    && (forall j :: s.called[j] <= 1)
    && (forall j :: s.called[j] > 0 ==> CalledOk(s, j))
    && (forall j :: j in s.muted ==> MutedOk(s, j))
    && (forall i :: 0 <= i < |s.m.processing| && s.m.processing[i].job in s.muted && InDoWork(s, s.m.processing[i].job) ==>
          s.m.processing[i].callback.None?)
  }

  ghost predicate FifoOk(s: State)
    requires s.m.WellShaped()
  {
    && (forall i, k :: 0 <= i < |s.started| && 0 <= k < |s.m.queue[s.started[i].priority]| ==>
          s.started[i].job < s.m.queue[s.started[i].priority][k].job)
    && (forall i :: 0 <= i < |s.started| ==> s.started[i].job < |s.fate|)
    && (forall i, j :: 0 <= i < j < |s.started| && s.started[i].priority == s.started[j].priority ==>
          s.started[i].job < s.started[j].job)
  }

  ghost predicate StoppedOk(s: State) {
    && (!s.m.running ==> s.m.queue == [[], [], []] && forall i :: 0 <= i < |s.m.processing| ==> s.m.processing[i].callback.None?)
    && (s.clients != map[] ==> !s.m.running)
    && (s.returned ==> !s.m.running && s.m.workers == [])
  }

  ghost predicate HasJob(items: seq<WorkItem>, j: nat) {
    exists i :: 0 <= i < |items| && items[i].job == j
  }

  ghost predicate Accounted(s: State, j: nat)
    requires s.m.WellShaped() && j < |s.fate|
  {
    && s.freed[j] == (if s.fate[j].Freed? then 1 else 0)
    && match s.fate[j]
       case Pending(p) => HasJob(s.m.queue[p], j)
       case Running(w) => w < |s.phase| && HeldJob(s.phase[w]) == Some(j) && HasJob(s.m.processing, j)
       case Dropped(w) => w < |s.phase| && s.phase[w].Freeing? && s.phase[w].item.job == j
       case Freed => true
  }

  ghost predicate AccountsOk(s: State)
    requires s.m.WellShaped()
  {
    && (forall j: nat {:trigger Accounted(s, j)} :: j < |s.fate| ==> Accounted(s, j))
    && forall j: nat :: j >= |s.fate| ==> s.freed[j] == 0
  }

  predicate Awake(phase: Phase) {
    phase.Ready? || phase.Woken? || phase.Freeing?
  }

  predicate Dozing(phase: Phase) {
    phase.Leaving? || phase.Asleep?
  }

  /** Something is about to look for a job: a worker that is running one, one that is awake, or one the event releases. */
  ghost predicate Live(s: State) {
    || s.m.processing != []
    || (exists w :: 0 <= w < |s.phase| && Awake(s.phase[w]))
    || (s.m.signaled && exists w :: 0 <= w < |s.phase| && Dozing(s.phase[w]))
  }

  ghost predicate NotStranded(s: State)
    requires s.m.WellShaped()
  {
    (exists p :: 0 <= p < 3 && !s.m.paused[p] && s.m.queue[p] != []) ==> Live(s)
  }
}
