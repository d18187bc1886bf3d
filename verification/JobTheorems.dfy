/** What holds in every run of the job manager, for any number of clients and workers. */
module JobTheorems {
  import opened JobQueues
  import opened Options
  import opened JobSystem
  import opened JobSafety
  import opened JobLaws

  ghost predicate IsRun(states: seq<State>, actions: seq<Action>) {
    && |states| == |actions| + 1 && Init(states[0])
    && forall i :: 0 <= i < |actions| ==> Enabled(states[i], actions[i]) && states[i + 1] == Apply(states[i], actions[i])
  }

  lemma InitIsCore(s: State)
    requires Init(s)
    ensures QueuesOk(s) && ProcessingOk(s)
  {
    forall p | 0 <= p < 3 ensures s.m.queue[p] == [] {
    }
  }

  lemma InitHasNoWorkers(s: State)
    requires Init(s)
    ensures PhasesOk(s) && WorkersOk(s) && SlotsOk(s)
  {
    assert s.phase == [] && s.m.workers == [] && s.m.processing == [];
  }

  lemma InitIsSafe(s: State)
    requires Init(s)
    ensures Safe(s)
  {
    InitIsCore(s);
    InitHasNoWorkers(s);
    InitIsQuiet(s);
  }

  lemma InitIsQuiet(s: State)
    requires Init(s)
    ensures s.m.WellShaped() && CallsOk(s) && FifoOk(s) && StoppedOk(s) && AccountsOk(s)
  {
  }

  lemma StepIsSafe(s: State, a: Action, t: State)
    requires Safe(s) && Enabled(s, a) && t == Apply(s, a)
    ensures Safe(t)
  {
    StepKeepsSafe(s, a);
  }

  lemma {:induction false} RunIsSafe(states: seq<State>, actions: seq<Action>, i: nat)
    requires IsRun(states, actions) && i < |states|
    ensures Safe(states[i])
  {
    if i == 0 {
      InitIsSafe(states[0]);
    } else {
      RunIsSafe(states, actions, i - 1);
      StepIsSafe(states[i - 1], actions[i - 1], states[i]);
    }
  }

  // ---------------------------------------------------------------- slots and workers

  /**
    At any moment of any run: of the running jobs at most 3, 4 and 5 have priority LOW, up to NORMAL and up to HIGH;
    there are at most five workers; and each running job has a registered worker of its own.
  */
  lemma SlotsAreReserved(states: seq<State>, actions: seq<Action>, i: nat)
    requires IsRun(states, actions) && i < |states|
    ensures var m := states[i].m;
      && CountUpTo(m.processing, 0) <= 3 && CountUpTo(m.processing, 1) <= 4 && CountUpTo(m.processing, 2) <= 5
      && |m.workers| <= 5
  {
    RunIsSafe(states, actions, i);
    var p: Priority := 0;
    assert CountUpTo(states[i].m.processing, p) <= MaxWorkers(p);
    p := 1;
    assert CountUpTo(states[i].m.processing, p) <= MaxWorkers(p);
    p := 2;
    assert CountUpTo(states[i].m.processing, p) <= MaxWorkers(p);
  }

  /** The worker that holds running job `k`. */
  ghost function Holder(s: State, k: nat): nat
    requires k < |s.m.processing|
  {
    var job := s.m.processing[k].job;
    if job < |s.fate| && s.fate[job].Running? then s.fate[job].w else 0
  }

  lemma RunningJobsHaveWorkers(states: seq<State>, actions: seq<Action>, i: nat, k: nat, l: nat)
    requires IsRun(states, actions) && i < |states|
    requires var m := states[i].m; k < |m.processing| && l < |m.processing|
    ensures var s := states[i]; var w := Holder(s, k);
      && w in s.m.workers && w < |s.phase| && HeldJob(s.phase[w]) == Some(s.m.processing[k].job)
      && (k != l ==> w != Holder(s, l))
  {
    RunIsSafe(states, actions, i);
    var s := states[i];
    assert s.m.processing[k].job < |s.fate| && s.m.processing[l].job < |s.fate|;
    assert k < l ==> s.m.processing[k].job != s.m.processing[l].job;
    assert l < k ==> s.m.processing[l].job != s.m.processing[k].job;
  }

  /** Within a priority, jobs start in the order they were added, and those still waiting come after. */
  lemma JobsStartInOrder(states: seq<State>, actions: seq<Action>, i: nat, k: nat, l: nat)
    requires IsRun(states, actions) && i < |states|
    requires k < l < |states[i].started| && states[i].started[k].priority == states[i].started[l].priority
    ensures states[i].started[k].job < states[i].started[l].job
    ensures var p := states[i].started[l].priority;
      states[i].m.WellShaped() && forall x :: 0 <= x < |states[i].m.queue[p]| ==> states[i].started[l].job < states[i].m.queue[p][x].job
  {
    RunIsSafe(states, actions, i);
  }

  // ---------------------------------------------------------------- jobs are freed once, listeners called once

  /** A job that was accepted is queued, running, about to be freed by its worker, or freed; and freed only once. */
  lemma JobsAreAccountedFor(states: seq<State>, actions: seq<Action>, i: nat, j: nat)
    requires IsRun(states, actions) && i < |states| && j < |states[i].fate|
    ensures states[i].freed[j] <= 1
    ensures states[i].m.WellShaped() && Accounted(states[i], j)
  {
    RunIsSafe(states, actions, i);
    assert Accounted(states[i], j);
  }

  /** Its listener hears of it at most once, and never if it was cancelled before its completion was noticed. */
  lemma ListenersAreCalledOnce(states: seq<State>, actions: seq<Action>, i: nat, j: nat)
    requires IsRun(states, actions) && i < |states|
    ensures states[i].called[j] <= 1
    ensures states[i].called[j] == 1 ==> j < |states[i].fate| && !states[i].fate[j].Pending?
    ensures j in states[i].muted ==> states[i].called[j] == 0
  {
    RunIsSafe(states, actions, i);
    assert states[i].called[j] > 0 ==> CalledOk(states[i], j);
    assert j in states[i].muted ==> MutedOk(states[i], j);
  }

  lemma {:induction false} MutedStays(states: seq<State>, actions: seq<Action>, i: nat, k: nat, j: nat)
    requires IsRun(states, actions) && i <= k < |states| && j in states[i].muted
    ensures j in states[k].muted
  {
    if i < k {
      MutedStays(states, actions, i, k - 1, j);
      assert Enabled(states[k - 1], actions[k - 1]);
    }
  }

  lemma MutedIsSilent(states: seq<State>, actions: seq<Action>, i: nat, k: nat, job: nat)
    requires IsRun(states, actions) && i < k < |states| && job in states[i + 1].muted
    ensures states[k].called[job] == 0
  {
    MutedStays(states, actions, i + 1, k, job);
    ListenersAreCalledOnce(states, actions, k, job);
  }

  /**
    Cancelling is for good.  With an id that the item at place `q` of queue `p` has, and none before it in that queue or
    in a lower one, the job is freed, never starts, and its listener is never called.
  */
  lemma CancelledJobsNeverStart(states: seq<State>, actions: seq<Action>, i: nat, k: nat, p: Priority, q: nat)
    requires IsRun(states, actions) && i < k < |states| && actions[i].Cancel? && states[i].m.WellShaped()
    requires var m, id := states[i].m, actions[i].id;
      FirstHas(m.queue[p], q, id) && (p > 0 ==> NoneHas(m.queue[0], id)) && (p > 1 ==> NoneHas(m.queue[1], id))
    ensures var job := states[i].m.queue[p][q].job;
      && states[k].called[job] == 0 && states[k].freed[job] == 1
      && forall x :: 0 <= x < |states[k].started| ==> states[k].started[x].job != job
  {
    var s, job := states[i], states[i].m.queue[p][q].job;
    RunIsSafe(states, actions, i);
    StartedAreTaken(states, actions, i);
    QueuedTarget(s.m, actions[i].id, p, q);
    assert states[i + 1] == Apply(s, actions[i]) == AfterCancel(s, InQueue(p, q));
    QueuedIsFreed(s, p, q);
    MutedIsSilent(states, actions, i, k, job);
    FreedNeverStarts(states, actions, i + 1, k, job);
    JobsAreAccountedFor(states, actions, k, job);
  }

  lemma QueuedIsFreed(s: State, p: Priority, q: nat)
    requires Safe(s) && StartedOk(s) && q < |s.m.queue[p]|
    ensures var t, job := AfterCancel(s, InQueue(p, q)), s.m.queue[p][q].job;
      job in t.muted && job < |t.fate| && t.fate[job].Freed? && NotStarted(t, job)
  {
    var job := s.m.queue[p][q].job;
    assert s.fate[job] == Pending(p);
  }

  ghost predicate NotStarted(s: State, job: nat) {
    forall x :: 0 <= x < |s.started| ==> s.started[x].job != job
  }

  /** Jobs leave the queue when they start. */
  ghost predicate StartedOk(s: State) {
    forall x :: 0 <= x < |s.started| ==> s.started[x].job < |s.fate| && !s.fate[s.started[x].job].Pending?
  }

  lemma PopMovesFate(s: State, w: nat, p: Priority, j: nat)
    requires Core(s) && w < |s.phase| && s.m.queue[p] != [] && j < |s.fate|
    ensures var t := AfterPop(s, w, p);
      |t.fate| == |s.fate| && (!s.fate[j].Pending? ==> t.fate[j] == s.fate[j])
    ensures var item := s.m.queue[p][0];
      item.job < |s.fate| && s.fate[item.job].Pending? && !AfterPop(s, w, p).fate[item.job].Pending?
  {
  }

  lemma CancelAllMovesFate(s: State, c: nat, j: nat)
    requires Core(s) && j < |s.fate|
    ensures var t := AfterCancelAll(s, c); |t.fate| == |s.fate| && (!s.fate[j].Pending? ==> !t.fate[j].Pending?)
    ensures s.fate[j].Freed? ==> AfterCancelAll(s, c).fate[j].Freed?
  {
  }

  lemma WorkerMovesFate(s: State, a: Action, j: nat)
    requires Core(s) && Enabled(s, a) && (a.Erase? || a.Free?) && j < |s.fate|
    ensures var t := Apply(s, a);
      && |s.fate| == |t.fate| && (!s.fate[j].Pending? ==> !t.fate[j].Pending?) && (s.fate[j].Freed? ==> t.fate[j].Freed?)
      && t.started == s.started
  {
  }

  lemma ClientMovesFate(s: State, a: Action, j: nat)
    requires Core(s) && Enabled(s, a) && (a.Add? || a.Cancel?) && j < |s.fate|
    ensures var t := Apply(s, a);
      && |s.fate| <= |t.fate| && (!s.fate[j].Pending? ==> !t.fate[j].Pending?) && (s.fate[j].Freed? ==> t.fate[j].Freed?)
      && t.started == s.started
  {
  }

  lemma OthersKeepFate(s: State, a: Action)
    requires Enabled(s, a) && !a.TryNext? && !a.CancelAll? && !a.Erase? && !a.Free? && !a.Add? && !a.Cancel?
    ensures Apply(s, a).fate == s.fate && Apply(s, a).started == s.started
  {
  }

  /** A job that has left its queue never returns to one, and a freed one stays so; only queued jobs start. */
  lemma FateMoves(s: State, a: Action, t: State, j: nat)
    requires Core(s) && Enabled(s, a) && t == Apply(s, a) && j < |s.fate|
    ensures j < |t.fate| && (!s.fate[j].Pending? ==> !t.fate[j].Pending?) && (s.fate[j].Freed? ==> t.fate[j].Freed?)
  {
    if a.TryNext? {
      var p := NextPriority(s.m, HIGH);
      if p >= 0 {
        PopMovesFate(s, a.w, p, j);
      }
    } else if a.CancelAll? {
      CancelAllMovesFate(s, a.c, j);
    } else if a.Erase? || a.Free? {
      WorkerMovesFate(s, a, j);
    } else if a.Add? || a.Cancel? {
      ClientMovesFate(s, a, j);
    } else {
      OthersKeepFate(s, a);
    }
  }

  ghost predicate StartsOne(s: State, t: State) {
    && |t.started| == |s.started| + 1 && t.started[..|s.started|] == s.started
    && var job := t.started[|s.started|].job; job < |s.fate| && job < |t.fate| && s.fate[job].Pending? && !t.fate[job].Pending?
  }

  lemma StartsFromQueue(s: State, a: Action, t: State)
    requires Core(s) && Enabled(s, a) && t == Apply(s, a)
    ensures t.started == s.started || StartsOne(s, t)
  {
    if a.TryNext? && NextPriority(s.m, HIGH) >= 0 {
      var p := NextPriority(s.m, HIGH);
      PopMovesFate(s, a.w, p, s.m.queue[p][0].job);
      assert t.started == s.started + [s.m.queue[p][0]];
    } else if !a.TryNext? && !a.CancelAll? && !a.Erase? && !a.Free? && !a.Add? && !a.Cancel? {
      OthersKeepFate(s, a);
    }
  }

  lemma StepKeepsStarted(s: State, a: Action, t: State)
    requires Core(s) && Enabled(s, a) && t == Apply(s, a) && StartedOk(s)
    ensures StartedOk(t)
  {
    StartsFromQueue(s, a, t);
    forall x | 0 <= x < |t.started| ensures t.started[x].job < |t.fate| && !t.fate[t.started[x].job].Pending? {
      if x < |s.started| {
        FateMoves(s, a, t, s.started[x].job);
        assert t.started[..|s.started|][x] == t.started[x];
      }
    }
  }

  lemma {:induction false} StartedAreTaken(states: seq<State>, actions: seq<Action>, i: nat)
    requires IsRun(states, actions) && i < |states|
    ensures StartedOk(states[i])
  {
    if i > 0 {
      StartedAreTaken(states, actions, i - 1);
      RunIsSafe(states, actions, i - 1);
      StepKeepsStarted(states[i - 1], actions[i - 1], states[i]);
    }
  }

  lemma FreedStep(s: State, a: Action, t: State, job: nat)
    requires Core(s) && Enabled(s, a) && t == Apply(s, a) && job < |s.fate| && s.fate[job].Freed? && NotStarted(s, job)
    ensures job < |t.fate| && t.fate[job].Freed? && NotStarted(t, job)
  {
    FateMoves(s, a, t, job);
    StartsFromQueue(s, a, t);
    forall x | 0 <= x < |t.started| ensures t.started[x].job != job {
      assert x < |s.started| ==> t.started[..|s.started|][x] == t.started[x];
    }
  }

  ghost predicate GoneUnstarted(s: State, job: nat) {
    job < |s.fate| && s.fate[job].Freed? && NotStarted(s, job)
  }

  lemma StaysGone(states: seq<State>, actions: seq<Action>, k: nat, job: nat)
    requires IsRun(states, actions) && k < |actions| && GoneUnstarted(states[k], job)
    ensures GoneUnstarted(states[k + 1], job)
  {
    RunIsSafe(states, actions, k);
    FreedStep(states[k], actions[k], states[k + 1], job);
  }

  /** What every step keeps, a run keeps. */
  lemma {:induction false} Persists(holds: seq<bool>, i: nat, k: nat)
    requires i <= k < |holds| && holds[i] && forall x :: i <= x < k && holds[x] ==> holds[x + 1]
    ensures holds[k]
  {
    if i < k {
      Persists(holds, i, k - 1);
    }
  }

  lemma FreedNeverStarts(states: seq<State>, actions: seq<Action>, i: nat, k: nat, job: nat)
    requires IsRun(states, actions) && i <= k < |states| && GoneUnstarted(states[i], job)
    ensures GoneUnstarted(states[k], job)
  {
    var holds := seq(|states|, x requires 0 <= x < |states| => GoneUnstarted(states[x], job));
    forall x | i <= x < k && holds[x] ensures holds[x + 1] {
      StaysGone(states, actions, x, job);
    }
    Persists(holds, i, k);
  }

  /**
    With an id that no queued job has and that is first found at place `q` of the running ones, still in DoWork, the
    job's listener is never called.
  */
  lemma CancelledJobsStaySilent(states: seq<State>, actions: seq<Action>, i: nat, k: nat, q: nat)
    requires IsRun(states, actions) && i < k < |states| && actions[i].Cancel? && states[i].m.WellShaped()
    requires var m, id := states[i].m, actions[i].id;
      NoneQueued(m, id) && FirstHas(m.processing, q, id) && InDoWork(states[i], m.processing[q].job)
    ensures states[k].called[states[i].m.processing[q].job] == 0
  {
    var s, job := states[i], states[i].m.processing[q].job;
    RunningTarget(s.m, actions[i].id, q);
    assert states[i + 1] == Apply(s, actions[i]) == AfterCancel(s, InProcessing(q));
    MutedIsSilent(states, actions, i, k, job);
  }

  // ---------------------------------------------------------------- CancelJobs

  lemma RunningNeedsWorker(s: State, k: nat)
    requires Safe(s) && k < |s.m.processing|
    ensures Holder(s, k) in s.m.workers
  {
    assert s.m.processing[k].job < |s.fate|;
  }

  lemma AfterReturn(s: State)
    requires Safe(s) && s.returned
    ensures s.m.workers == [] && s.m.processing == [] && s.m.queue == [[], [], []] && !s.m.running
    ensures forall w :: 0 <= w < |s.phase| ==> s.phase[w].Exited?
  {
    forall w | 0 <= w < |s.phase| ensures s.phase[w].Exited? {
      assert w !in s.m.workers;
    }
    if s.m.processing != [] {
      RunningNeedsWorker(s, 0);
    }
  }

  lemma StepAfterReturn(s: State, a: Action, t: State)
    requires Safe(s) && s.returned && Enabled(s, a) && t == Apply(s, a)
    ensures t.returned && t.called == s.called && t.started == s.started
  {
    AfterReturn(s);
  }

  lemma NextStaysReturned(states: seq<State>, actions: seq<Action>, k: nat)
    requires IsRun(states, actions) && k < |actions| && states[k].returned
    ensures states[k + 1].returned && states[k + 1].called == states[k].called && states[k + 1].started == states[k].started
  {
    RunIsSafe(states, actions, k);
    StepAfterReturn(states[k], actions[k], states[k + 1]);
  }

  lemma {:induction false} ReturnedStays(states: seq<State>, actions: seq<Action>, i: nat, k: nat)
    requires IsRun(states, actions) && i <= k < |states| && states[i].returned
    ensures states[k].returned && states[k].called == states[i].called && states[k].started == states[i].started
  {
    if i < k {
      ReturnedStays(states, actions, i, k - 1);
      NextStaysReturned(states, actions, k - 1);
    }
  }

  /**
    Once CancelJobs has returned, for the rest of the run nothing is queued, running or registered, and no job starts
    and no listener is called any more.
  */
  lemma CancelJobsIsFinal(states: seq<State>, actions: seq<Action>, i: nat, k: nat)
    requires IsRun(states, actions) && i <= k < |states| && states[i].returned
    ensures states[k].called == states[i].called && states[k].started == states[i].started
    ensures states[k].m.queue == [[], [], []] && states[k].m.processing == [] && states[k].m.workers == []
    ensures forall w :: 0 <= w < |states[k].phase| ==> states[k].phase[w].Exited?
  {
    ReturnedStays(states, actions, i, k);
    RunIsSafe(states, actions, k);
    AfterReturn(states[k]);
  }

  // ---------------------------------------------------------------- no stranded job

  /** A worker that finds nothing to take leaves a job behind only where another one is running. */
  lemma NoJobMeansBusy(m: Manager)
    requires m.WellShaped() && NextPriority(m, HIGH) < 0
    requires exists p :: 0 <= p < 3 && !m.paused[p] && m.queue[p] != []
    ensures m.processing != []
  {
    var p :| 0 <= p < 3 && !m.paused[p] && m.queue[p] != [];
    assert !CanPop(m, p);
  }

  lemma AddStrandsNothing(s: State, callback: Option<nat>, p: Priority)
    requires Safe(s) && NotStranded(s)
    ensures NotStranded(AfterAdd(s, callback, p))
  {
    var t := AfterAdd(s, callback, p);
    if s.m.running && s.m.processing == [] {
      if NeedsWorker(s.m, p) {
        assert Awake(t.phase[|s.phase|]);
      } else {
        var w := s.m.workers[0];
        assert w in s.m.workers;
        assert HeldJob(s.phase[w]).Some? ==> Accounted(s, HeldJob(s.phase[w]).value);
        assert t.phase == s.phase && (Awake(t.phase[w]) || Dozing(t.phase[w]));
      }
    }
  }

  lemma TryNextStrandsNothing(s: State, w: nat)
    requires Safe(s) && NotStranded(s) && w < |s.phase|
    ensures NotStranded(AfterTryNext(s, w))
  {
    if NextPriority(s.m, HIGH) < 0 {
      if exists p :: 0 <= p < 3 && !s.m.paused[p] && s.m.queue[p] != [] {
        NoJobMeansBusy(s.m);
      }
    }
  }

  lemma StepStrandsNothing(s: State, a: Action)
    requires Safe(s) && Enabled(s, a) && !a.UnPause? && NotStranded(s)
    ensures Apply(s, a).m.WellShaped() && NotStranded(Apply(s, a))
  {
    match a
    case Add(callback, p) => AddStrandsNothing(s, callback, p);
    case TryNext(w) => TryNextStrandsNothing(s, w);
    case Cancel(id) => CancelStrandsNothing(s, FindTarget(s.m, id, LOW));
    case CancelAll(c) => CancelAllStrandsNothing(s, c);
    case Pause(p) => PauseStrandsNothing(s, a);
    case SetEvent(c) => PauseStrandsNothing(s, a);
    case CheckWorkers(c) => PauseStrandsNothing(s, a);
    case _ => WorkerStrandsNothing(s, a);
  }

  lemma CancelAllStrandsNothing(s: State, c: nat)
    requires s.m.WellShaped()
    ensures NotStranded(AfterCancelAll(s, c))
  {
  }

  lemma PauseStrandsNothing(s: State, a: Action)
    requires Enabled(s, a) && (a.Pause? || a.SetEvent? || a.CheckWorkers?) && NotStranded(s)
    ensures Apply(s, a).m.WellShaped() && NotStranded(Apply(s, a))
  {
  }

  lemma CancelStrandsNothing(s: State, t: Target)
    requires s.m.WellShaped() && NotStranded(s)
    requires t.InQueue? ==> t.i < |s.m.queue[t.p]|
    requires t.InProcessing? ==> t.i < |s.m.processing|
    ensures NotStranded(AfterCancel(s, t))
  {
    if t.InQueue? {
      assert s.m.queue[t.p] != [];
    }
  }

  predicate IsWorkerStep(a: Action) {
    a.EnterWait? || a.LeaveWait? || a.Complete? || a.Tell? || a.Erase? || a.Free?
  }

  lemma HoldingIsProcessing(s: State, w: nat)
    requires Safe(s) && w < |s.phase| && HeldJob(s.phase[w]).Some?
    ensures s.m.processing != []
  {
    assert Accounted(s, HeldJob(s.phase[w]).value);
  }

  /** The step's own worker is awake behind it, or has a job that is running, or goes to sleep without being counted on. */
  lemma WorkerStrandsNothing(s: State, a: Action)
    requires Safe(s) && Enabled(s, a) && IsWorkerStep(a) && NotStranded(s)
    ensures NotStranded(Apply(s, a))
  {
    var w, t := a.w, Apply(s, a);
    if a.Complete? || a.Tell? {
      HoldingIsProcessing(s, w);
    } else if a.EnterWait? && !s.m.signaled {
      AsleepStrandsNothing(s, w);
    } else {
      assert Awake(t.phase[w]);
    }
  }

  /** Without a signal nobody counted on a worker that was about to wait. */
  lemma AsleepStrandsNothing(s: State, w: nat)
    requires Enabled(s, EnterWait(w)) && !s.m.signaled && NotStranded(s)
    ensures NotStranded(Apply(s, EnterWait(w)))
  {
    if s.m.processing == [] && Live(s) {
      var v :| 0 <= v < |s.phase| && Awake(s.phase[v]);
      assert Apply(s, EnterWait(w)).phase[v] == s.phase[v];
    }
  }

  lemma NextIsNotStranded(s: State, a: Action, t: State)
    requires Safe(s) && Enabled(s, a) && !a.UnPause? && NotStranded(s) && t == Apply(s, a)
    ensures t.m.WellShaped() && NotStranded(t)
  {
    StepStrandsNothing(s, a);
  }

  /**
    In every run in which nothing is un-paused: if a queue that is not paused has a job, then some job is running, or
    some worker is awake and about to look, or the event is set and some worker is at its wait.
  */
  lemma {:induction false} NoJobIsStranded(states: seq<State>, actions: seq<Action>, i: nat)
    requires IsRun(states, actions) && i < |states|
    requires forall k :: 0 <= k < i ==> !actions[k].UnPause?
    ensures states[i].m.WellShaped() && NotStranded(states[i])
  {
    if i > 0 {
      NoJobIsStranded(states, actions, i - 1);
      RunIsSafe(states, actions, i - 1);
      NextIsNotStranded(states[i - 1], actions[i - 1], states[i]);
    }
  }
  // ---------------------------------------------------------------- numWaits

  function Sleepers(phase: seq<Phase>): set<nat> {
    set w: nat | w < |phase| && phase[w].Asleep?
  }

  /** The event counts exactly the workers that sleep in it. */
  ghost predicate WaitsOk(s: State) {
    s.m.waits == |Sleepers(s.phase)|
  }

  lemma WithoutOne(ws: set<nat>, w: nat)
    ensures |ws| == |ws - {w}| + (if w in ws then 1 else 0)
  {
    if w !in ws {
      assert ws - {w} == ws;
    }
  }

  lemma SleepersMove(phase: seq<Phase>, w: nat, p: Phase)
    requires w < |phase|
    ensures |Sleepers(phase[w := p])| == |Sleepers(phase)| - (if phase[w].Asleep? then 1 else 0) + (if p.Asleep? then 1 else 0)
  {
    var ws, us := Sleepers(phase), Sleepers(phase[w := p]);
    assert us - {w} == ws - {w};
    WithoutOne(ws, w);
    WithoutOne(us, w);
  }

  lemma SleepersStay(phase: seq<Phase>, p: Phase)
    requires !p.Asleep?
    ensures Sleepers(phase + [p]) == Sleepers(phase)
  {
  }

  /** The phases after a step: one more worker, or one that moves on, or as before. */
  lemma OnePhaseMoves(s: State, a: Action)
    requires Enabled(s, a) && !a.EnterWait? && !a.LeaveWait?
    ensures var t := Apply(s, a);
      && t.m.waits == s.m.waits
      && (t.phase == s.phase || t.phase == s.phase + [Ready]
          || exists w: nat, p: Phase {:trigger s.phase[w := p]} :: 0 <= w < |s.phase| && !s.phase[w].Asleep? && !p.Asleep? && t.phase == s.phase[w := p])
  {
    var t := Apply(s, a);
    if a.TryNext? || a.Complete? || a.Tell? || a.Erase? || a.Free? {
      assert t.phase == s.phase[a.w := t.phase[a.w]];
    }
  }

  lemma StepKeepsWaits(s: State, a: Action, t: State)
    requires Enabled(s, a) && t == Apply(s, a) && WaitsOk(s)
    ensures WaitsOk(t)
  {
    if a.EnterWait? || a.LeaveWait? {
      SleepersMove(s.phase, a.w, t.phase[a.w]);
    } else {
      OnePhaseMoves(s, a);
      SleepersStay(s.phase, Ready);
      if w: nat, p: Phase :| 0 <= w < |s.phase| && !s.phase[w].Asleep? && !p.Asleep? && t.phase == s.phase[w := p] {
        SleepersMove(s.phase, w, p);
      }
    }
  }

  /**
    In every run the event's count of waits is the number of workers asleep in it.  So it is positive whenever a wait
    ends, as CEvent takes for granted.
  */
  lemma {:induction false} WaitsAreCounted(states: seq<State>, actions: seq<Action>, i: nat)
    requires IsRun(states, actions) && i < |states|
    ensures WaitsOk(states[i])
    ensures i < |actions| && actions[i].LeaveWait? ==> states[i].m.waits > 0
  {
    if i == 0 {
      assert Sleepers(states[0].phase) == {};
    } else {
      WaitsAreCounted(states, actions, i - 1);
      StepKeepsWaits(states[i - 1], actions[i - 1], states[i]);
    }
    if i < |actions| && actions[i].LeaveWait? {
      assert actions[i].w in Sleepers(states[i].phase);
    }
  }
}
