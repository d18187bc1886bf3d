/**
  What the callers of airplay/utils/JobManager.cpp can count on over whole runs: ids that tell jobs apart, listeners that
  hear of every job not cancelled, pauses that hold, and which job starts when.
*/
module JobHistory {
  import opened JobQueues
  import opened Options
  import opened JobSystem
  import opened JobSafety
  import opened JobLaws
  import opened JobTheorems

  // ---------------------------------------------------------------- ids

  /** The id of the `n`-th job accepted, counting from 0: 1, 2, 3, ... and after 2^32 - 1 of them 1 again. */
  function IdOf(n: nat): (id: nat)
    ensures 0 < id < 0x1_0000_0000
  {
    n % 0xFFFF_FFFF + 1
  }

  lemma NextIdIs(n: nat)
    ensures NextId(IdOf(n)) == IdOf(n + 1) && NextId(0) == IdOf(0) == 1
  {
    var k := n % 0xFFFF_FFFF;
    assert (n + 1) % 0xFFFF_FFFF == if k == 0xFFFF_FFFE then 0 else k + 1;
  }

  ghost predicate HaveIds(items: seq<WorkItem>) {
    forall i :: 0 <= i < |items| ==> items[i].id == IdOf(items[i].job)
  }

  ghost predicate IdsOk(s: State) {
    && s.m.WellShaped()
    && s.m.counter == (if s.fate == [] then 0 else IdOf(|s.fate| - 1))
    && HaveIds(s.m.queue[0]) && HaveIds(s.m.queue[1]) && HaveIds(s.m.queue[2]) && HaveIds(s.m.processing)
  }

  lemma AddKeepsIds(s: State, callback: Option<nat>, p: Priority)
    requires IdsOk(s)
    ensures IdsOk(AfterAdd(s, callback, p))
  {
    if s.m.running {
      if s.fate == [] {
        NextIdIs(0);
      } else {
        NextIdIs(|s.fate| - 1);
      }
      AddQueuesLast(s.m, |s.fate|, callback, p, |s.phase|);
      assert NextId(s.m.counter) == IdOf(|s.fate|);
    }
  }

  lemma CancelKeepsIds(s: State, t: Target)
    requires IdsOk(s)
    requires t.InQueue? ==> t.i < |s.m.queue[t.p]|
    requires t.InProcessing? ==> t.i < |s.m.processing|
    ensures IdsOk(AfterCancel(s, t))
  {
  }

  lemma OtherKeepsIds(s: State, a: Action)
    requires IdsOk(s) && Enabled(s, a) && !a.Add? && !a.Cancel?
    ensures IdsOk(Apply(s, a))
  {
    match a
    case TryNext(w) => TryNextKeepsIds(s, w);
    case Erase(w) => EraseKeepsIds(s, w);
    case CancelAll(c) => CancelAllKeepsIds(s, c);
    case _ => QuietKeepsIds(s, a);
  }

  lemma PopKeepsIds(s: State, w: nat, p: Priority)
    requires IdsOk(s) && w < |s.phase| && s.m.queue[p] != []
    ensures IdsOk(AfterPop(s, w, p))
  {
  }

  lemma TryNextKeepsIds(s: State, w: nat)
    requires IdsOk(s) && Enabled(s, TryNext(w))
    ensures IdsOk(Apply(s, TryNext(w)))
  {
    var p := NextPriority(s.m, HIGH);
    if p >= 0 {
      PopKeepsIds(s, w, p);
    }
  }

  lemma EraseKeepsIds(s: State, w: nat)
    requires IdsOk(s) && Enabled(s, Erase(w))
    ensures IdsOk(Apply(s, Erase(w)))
  {
  }

  lemma CancelAllKeepsIds(s: State, c: nat)
    requires IdsOk(s) && Enabled(s, CancelAll(c))
    ensures IdsOk(Apply(s, CancelAll(c)))
  {
    assert |Apply(s, CancelAll(c)).fate| == |s.fate|;
  }

  lemma QuietKeepsIds(s: State, a: Action)
    requires IdsOk(s) && Enabled(s, a) && !a.Add? && !a.Cancel? && !a.TryNext? && !a.Erase? && !a.CancelAll?
    ensures IdsOk(Apply(s, a))
  {
    var t := Apply(s, a);
    assert t.m.queue == s.m.queue && t.m.processing == s.m.processing && t.m.counter == s.m.counter && |t.fate| == |s.fate|;
  }

  lemma StepKeepsIds(states: seq<State>, actions: seq<Action>, i: nat)
    requires IsRun(states, actions) && i < |actions| && IdsOk(states[i])
    ensures IdsOk(states[i + 1])
  {
    var s := states[i];
    assert Enabled(s, actions[i]) && states[i + 1] == Apply(s, actions[i]);
    match actions[i]
    case Add(callback, p) => AddKeepsIds(s, callback, p);
    case Cancel(id) => CancelKeepsIds(s, FindTarget(s.m, id, LOW));
    case a => OtherKeepsIds(s, a);
  }

  lemma IdsStayOk(states: seq<State>, actions: seq<Action>, i: nat)
    requires IsRun(states, actions) && i < |states|
    ensures IdsOk(states[i])
  {
    var holds := seq(|states|, x requires 0 <= x < |states| => IdsOk(states[x]));
    forall x | 0 <= x < i && holds[x] ensures holds[x + 1] {
      StepKeepsIds(states, actions, x);
    }
    Persists(holds, 0, i);
  }

  /** What AddJob gives out: the job's number in the order of acceptance, as an id. */
  lemma AddGivesId(states: seq<State>, actions: seq<Action>, i: nat)
    requires IsRun(states, actions) && i < |actions| && actions[i].Add? && states[i].m.running
    ensures states[i].m.WellShaped() && NextId(states[i].m.counter) == IdOf(|states[i].fate|)
    ensures var a, s, t := actions[i], states[i], states[i + 1];
      && t.m.WellShaped() && |t.m.queue[a.p]| > 0 && |t.fate| == |s.fate| + 1 && t.given == s.given + [a.callback]
      && t.m.queue[a.p] == s.m.queue[a.p] + [WorkItem(|s.fate|, IdOf(|s.fate|), a.callback, a.p)]
  {
    var s := states[i];
    IdsStayOk(states, actions, i);
    if s.fate == [] {
      NextIdIs(0);
    } else {
      NextIdIs(|s.fate| - 1);
    }
    assert Enabled(s, actions[i]) && states[i + 1] == Apply(s, actions[i]);
    AddQueuesLast(s.m, |s.fate|, actions[i].callback, actions[i].p, |s.phase|);
  }

  /** An item that waits or runs. */
  ghost predicate IsLive(s: State, x: WorkItem)
    requires s.m.WellShaped()
  {
    x in s.m.queue[0] || x in s.m.queue[1] || x in s.m.queue[2] || x in s.m.processing
  }

  lemma DistinctIds(m: nat, n: nat)
    requires m < n < m + 0xFFFF_FFFF
    ensures IdOf(m) != IdOf(n)
  {
    var q := n / 0xFFFF_FFFF - m / 0xFFFF_FFFF;
    assert n - m == q * 0xFFFF_FFFF + (n % 0xFFFF_FFFF - m % 0xFFFF_FFFF);
  }

  /** Live jobs have different ids as long as fewer than 2^32 - 1 have been accepted from the one to the other; never 0. */
  lemma IdsTellJobsApart(states: seq<State>, actions: seq<Action>, i: nat, x: WorkItem, y: WorkItem)
    requires IsRun(states, actions) && i < |states| && states[i].m.WellShaped() && IsLive(states[i], x) && IsLive(states[i], y)
    requires x.job < y.job < x.job + 0xFFFF_FFFF
    ensures x.id != y.id && x.id != 0 && y.id != 0
  {
    IdsStayOk(states, actions, i);
    DistinctIds(x.job, y.job);
  }

  // ---------------------------------------------------------------- listeners

  function Hearings(listener: Option<nat>): nat {
    if listener.Some? then 1 else 0
  }

  ghost predicate Listen(items: seq<WorkItem>, given: seq<Option<nat>>) {
    forall i :: 0 <= i < |items| ==> items[i].job < |given| && items[i].callback == given[items[i].job]
  }

  /** Jobs that wait, or run and have not been cancelled, still have the listener they came with. */
  ghost predicate QueuedListeners(s: State) {
    && s.m.WellShaped() && |s.given| == |s.fate|
    && Listen(s.m.queue[0], s.given) && Listen(s.m.queue[1], s.given) && Listen(s.m.queue[2], s.given)
  }

  ghost predicate RunningListeners(s: State) {
    && |s.given| == |s.fate|
    && (forall i :: 0 <= i < |s.m.processing| ==>
          var x := s.m.processing[i];
          x.job !in s.muted && InDoWork(s, x.job) ==> x.callback == s.given[x.job])
    && (forall w :: 0 <= w < |s.phase| ==> PhaseListens(s, s.phase[w]))
  }

  /** The copy OnJobComplete has made, and whether it has been used. */
  ghost predicate PhaseListens(s: State, phase: Phase) {
    match phase
    case Telling(x) => x.job !in s.muted && x.job < |s.given| ==> x.callback == s.given[x.job]
    case Told(x) => x.job !in s.muted && x.job < |s.given| ==> s.called[x.job] == Hearings(s.given[x.job])
    case _ => true
  }

  /** A job that is over and was not cancelled has been heard of. */
  ghost predicate PastListeners(s: State) {
    && |s.given| == |s.fate|
    && forall j :: 0 <= j < |s.fate| && j !in s.muted && (s.fate[j].Dropped? || s.fate[j].Freed?) ==>
         s.called[j] == Hearings(s.given[j])
  }

  ghost predicate ListenersOk(s: State) {
    QueuedListeners(s) && RunningListeners(s) && PastListeners(s)
  }

  lemma AddKeepsListeners(s: State, callback: Option<nat>, p: Priority)
    requires Safe(s) && ListenersOk(s)
    ensures ListenersOk(AfterAdd(s, callback, p))
  {
    if s.m.running {
      AddQueuesListener(s, callback, p);
      AddKeepsOthers(s, callback, p);
    }
  }

  lemma AddKeepsOthers(s: State, callback: Option<nat>, p: Priority)
    requires Safe(s) && ListenersOk(s) && s.m.running
    ensures RunningListeners(AfterAdd(s, callback, p)) && PastListeners(AfterAdd(s, callback, p))
  {
  }

  lemma AddQueuesListener(s: State, callback: Option<nat>, p: Priority)
    requires QueuesOk(s) && QueuedListeners(s) && s.m.running
    ensures QueuedListeners(AfterAdd(s, callback, p))
  {
    QueueListens(s, callback, p, 0);
    QueueListens(s, callback, p, 1);
    QueueListens(s, callback, p, 2);
  }

  lemma QueueListens(s: State, callback: Option<nat>, p: Priority, q: Priority)
    requires s.m.WellShaped() && |s.given| == |s.fate| && Listen(s.m.queue[q], s.given) && s.m.running
    ensures AfterAdd(s, callback, p).m.WellShaped() && Listen(AfterAdd(s, callback, p).m.queue[q], AfterAdd(s, callback, p).given)
  {
    AddedQueue(s, callback, p, q);
    if q == p {
      ListenGrows(s.m.queue[q], s.given, WorkItem(|s.fate|, NextId(s.m.counter), callback, p));
    } else {
      ListenStays(s.m.queue[q], s.given, callback);
    }
  }

  lemma ListenGrows(items: seq<WorkItem>, given: seq<Option<nat>>, item: WorkItem)
    requires Listen(items, given) && item.job == |given|
    ensures Listen(items + [item], given + [item.callback])
  {
  }

  lemma ListenStays(items: seq<WorkItem>, given: seq<Option<nat>>, callback: Option<nat>)
    requires Listen(items, given)
    ensures Listen(items, given + [callback])
  {
  }

  lemma DropKeepsListeners(s: State, p: Priority, i: nat)
    requires Safe(s) && ListenersOk(s) && i < |s.m.queue[p]|
    ensures ListenersOk(AfterCancel(s, InQueue(p, i)))
  {
  }

  lemma MuteKeepsListeners(s: State, i: nat)
    requires Safe(s) && ListenersOk(s) && i < |s.m.processing|
    ensures ListenersOk(AfterCancel(s, InProcessing(i)))
  {
  }

  lemma CancelAllKeepsListeners(s: State, c: nat)
    requires Safe(s) && ListenersOk(s)
    ensures ListenersOk(AfterCancelAll(s, c))
  {
  }

  lemma PopKeepsListeners(s: State, w: nat, p: Priority)
    requires Safe(s) && ListenersOk(s) && w < |s.phase| && s.m.queue[p] != [] && Idle(s.phase[w])
    ensures ListenersOk(AfterPop(s, w, p))
  {
  }

  lemma CompleteKeepsListeners(s: State, w: nat)
    requires Safe(s) && ListenersOk(s) && Enabled(s, Complete(w))
    ensures ListenersOk(Apply(s, Complete(w)))
  {
  }

  /** The listener hears of the job now, for the first time. */
  lemma TellKeepsListeners(s: State, w: nat)
    requires Safe(s) && ListenersOk(s) && Enabled(s, Tell(w))
    ensures ListenersOk(Apply(s, Tell(w)))
  {
    TellKeepsOthers(s, w);
    TellKeepsRunning(s, w);
  }

  lemma TellKeepsRunning(s: State, w: nat)
    requires Safe(s) && RunningListeners(s) && Enabled(s, Tell(w))
    ensures RunningListeners(Apply(s, Tell(w)))
  {
    var job := s.phase[w].item.job;
    assert s.called[job] > 0 ==> CalledOk(s, job);
  }

  lemma TellKeepsOthers(s: State, w: nat)
    requires Safe(s) && ListenersOk(s) && Enabled(s, Tell(w))
    ensures QueuedListeners(Apply(s, Tell(w))) && PastListeners(Apply(s, Tell(w)))
  {
    assert HeldJob(s.phase[w]) == Some(s.phase[w].item.job);
  }

  lemma EraseKeepsListeners(s: State, w: nat)
    requires Safe(s) && ListenersOk(s) && Enabled(s, Erase(w))
    ensures ListenersOk(Apply(s, Erase(w)))
  {
    EraseKeepsRunningListeners(s, w);
  }

  lemma EraseKeepsRunningListeners(s: State, w: nat)
    requires Core(s) && RunningListeners(s) && Enabled(s, Erase(w))
    ensures RunningListeners(Apply(s, Erase(w)))
  {
    var t, k := Apply(s, Erase(w)), FindJob(s.m.processing, s.phase[w].item.job);
    forall i | 0 <= i < |t.m.processing| && t.m.processing[i].job !in t.muted && InDoWork(t, t.m.processing[i].job)
      ensures t.m.processing[i].callback == t.given[t.m.processing[i].job]
    {
      assert t.m.processing[i] == s.m.processing[if i < k then i else i + 1];
    }
  }

  lemma FreeKeepsListeners(s: State, w: nat)
    requires Safe(s) && ListenersOk(s) && Enabled(s, Free(w))
    ensures ListenersOk(Apply(s, Free(w)))
  {
  }

  lemma QuietKeepsListeners(s: State, t: State)
    requires Safe(s) && ListenersOk(s) && Quiet(s, t) && t.given == s.given
    ensures ListenersOk(t)
  {
  }

  lemma TryNextKeepsListeners(s: State, w: nat)
    requires Safe(s) && ListenersOk(s) && Enabled(s, TryNext(w))
    ensures ListenersOk(Apply(s, TryNext(w)))
  {
    var p := NextPriority(s.m, HIGH);
    if p >= 0 {
      PopKeepsListeners(s, w, p);
    }
  }

  lemma StepKeepsListeners(s: State, a: Action)
    requires Safe(s) && Enabled(s, a) && ListenersOk(s)
    ensures ListenersOk(Apply(s, a))
  {
    match a
    case Add(callback, p) => AddKeepsListeners(s, callback, p);
    case Cancel(id) =>
      var t := FindTarget(s.m, id, LOW);
      if t.InQueue? {
        DropKeepsListeners(s, t.p, t.i);
      } else if t.InProcessing? {
        MuteKeepsListeners(s, t.i);
      }
    case CancelAll(c) => CancelAllKeepsListeners(s, c);
    case TryNext(w) => TryNextKeepsListeners(s, w);
    case Complete(w) => CompleteKeepsListeners(s, w);
    case Tell(w) => TellKeepsListeners(s, w);
    case Erase(w) => EraseKeepsListeners(s, w);
    case Free(w) => FreeKeepsListeners(s, w);
    case _ =>
      QuietStep(s, a);
      QuietKeepsListeners(s, Apply(s, a));
  }

  lemma NextKeepsListeners(states: seq<State>, actions: seq<Action>, i: nat)
    requires IsRun(states, actions) && i < |actions| && ListenersOk(states[i])
    ensures ListenersOk(states[i + 1])
  {
    RunIsSafe(states, actions, i);
    StepKeepsListeners(states[i], actions[i]);
  }

  lemma ListenersStayOk(states: seq<State>, actions: seq<Action>, i: nat)
    requires IsRun(states, actions) && i < |states|
    ensures ListenersOk(states[i])
  {
    var holds := seq(|states|, x requires 0 <= x < |states| => ListenersOk(states[x]));
    forall x | 0 <= x < i && holds[x] ensures holds[x + 1] {
      NextKeepsListeners(states, actions, x);
    }
    FirstListeners(states[0]);
    Persists(holds, 0, i);
  }

  lemma FirstListeners(s: State)
    requires Init(s)
    ensures ListenersOk(s)
  {
    forall p | 0 <= p < 3 ensures s.m.queue[p] == [] {
    }
  }

  /** A job that has been freed and was not cancelled in time has been told to its listener, once, if it had one. */
  lemma ListenersAreTold(states: seq<State>, actions: seq<Action>, i: nat, j: nat)
    requires IsRun(states, actions) && i < |states| && j < |states[i].fate| && states[i].fate[j].Freed? && j !in states[i].muted
    ensures |states[i].given| == |states[i].fate|
    ensures states[i].called[j] == if states[i].given[j].Some? then 1 else 0
  {
    ListenersStayOk(states, actions, i);
  }

  /** And it is the listener that AddJob was given for the job which is called. */
  lemma RightListenerIsTold(states: seq<State>, actions: seq<Action>, i: nat)
    requires IsRun(states, actions) && i < |actions| && actions[i].Tell?
    ensures actions[i].w < |states[i].phase| && states[i].phase[actions[i].w].Telling?
    ensures var x := states[i].phase[actions[i].w].item;
      && x.job < |states[i].given|
      && (x.callback.Some? ==> x.callback == states[i].given[x.job])
      && states[i + 1].called[x.job] == states[i].called[x.job] + (if x.callback.Some? then 1 else 0)
  {
    var s, w := states[i], actions[i].w;
    RunIsSafe(states, actions, i);
    ListenersStayOk(states, actions, i);
    assert Enabled(s, Tell(w)) && states[i + 1] == Apply(s, Tell(w));
    var x := s.phase[w].item;
    assert HeldJob(s.phase[w]) == Some(x.job);
    if x.job in s.muted {
      assert MutedOk(s, x.job);
    }
  }

  // ---------------------------------------------------------------- pauses

  ghost predicate NoneSince(s: State, n: nat, p: Priority) {
    && s.m.WellShaped() && s.m.paused[p] && n <= |s.started|
    && forall x :: n <= x < |s.started| ==> s.started[x].priority != p
  }

  lemma PopKeepsPause(s: State, w: nat, q: Priority, n: nat, p: Priority)
    requires Core(s) && w < |s.phase| && CanPop(s.m, q) && NoneSince(s, n, p)
    ensures NoneSince(AfterPop(s, w, q), n, p)
  {
  }

  lemma TryNextKeepsPause(s: State, w: nat, n: nat, p: Priority)
    requires Core(s) && Enabled(s, TryNext(w)) && NoneSince(s, n, p)
    ensures NoneSince(Apply(s, TryNext(w)), n, p)
  {
    var q := NextPriority(s.m, HIGH);
    if q >= 0 {
      PopKeepsPause(s, w, q, n, p);
    }
  }

  lemma OtherKeepsPause(s: State, a: Action, n: nat, p: Priority)
    requires Core(s) && Enabled(s, a) && !a.TryNext? && a != UnPause(p) && NoneSince(s, n, p)
    ensures NoneSince(Apply(s, a), n, p)
  {
    assert Apply(s, a).started == s.started;
  }

  lemma StepKeepsPause(s: State, a: Action, t: State, n: nat, p: Priority)
    requires Core(s) && Enabled(s, a) && t == Apply(s, a) && a != UnPause(p) && NoneSince(s, n, p)
    ensures NoneSince(t, n, p)
  {
    if a.TryNext? {
      TryNextKeepsPause(s, a.w, n, p);
    } else {
      OtherKeepsPause(s, a, n, p);
    }
  }

  /** From a Pause to the next UnPause of its priority no job of that priority starts. */
  lemma PausedJobsWait(states: seq<State>, actions: seq<Action>, i: nat, k: nat, p: Priority)
    requires IsRun(states, actions) && i < k < |states| && actions[i] == Pause(p)
    requires forall x :: i < x < k ==> actions[x] != UnPause(p)
    ensures |states[i].started| <= |states[k].started|
    ensures forall x :: |states[i].started| <= x < |states[k].started| ==> states[k].started[x].priority != p
  {
    var n := |states[i].started|;
    var holds := seq(|states|, x requires 0 <= x < |states| => NoneSince(states[x], n, p));
    assert states[i + 1] == Apply(states[i], actions[i]);
    forall x | i + 1 <= x < k && holds[x] ensures holds[x + 1] {
      RunIsSafe(states, actions, x);
      StepKeepsPause(states[x], actions[x], states[x + 1], n, p);
    }
    Persists(holds, i + 1, k);
  }

  // ---------------------------------------------------------------- what starts, and when

  /**
    A worker that looks for a job starts one exactly if some priority 0, 1 or 2 is not paused, has a job, and fewer than
    3, 4 or 5 jobs are running; then it is the oldest job of the highest such priority.
  */
  lemma MostUrgentStarts(states: seq<State>, actions: seq<Action>, i: nat)
    requires IsRun(states, actions) && i < |actions| && actions[i].TryNext?
    ensures states[i].m.WellShaped()
    ensures forall p: Priority :: MayStart(states[i].m, p) && (forall q: Priority :: q > p ==> !MayStart(states[i].m, q)) ==>
      && states[i + 1].started == states[i].started + [states[i].m.queue[p][0]]
      && actions[i].w < |states[i + 1].phase| && states[i + 1].phase[actions[i].w] == Working(states[i].m.queue[p][0].job)
    ensures (forall p: Priority :: !MayStart(states[i].m, p)) ==> states[i + 1].started == states[i].started
  {
    var s, w := states[i], actions[i].w;
    assert Enabled(s, TryNext(w)) && states[i + 1] == Apply(s, TryNext(w));
    NextIsHighest(s.m);
  }

  /**
    A worker that finds nothing to start goes to wait, unless the manager is stopped or its last wait has run out without
    a signal; then it leaves.
  */
  lemma IdleWorkersWait(states: seq<State>, actions: seq<Action>, i: nat)
    requires IsRun(states, actions) && i < |actions| && actions[i].TryNext? && states[i].m.WellShaped()
    requires forall p: Priority :: !MayStart(states[i].m, p)
    ensures actions[i].w < |states[i].phase| == |states[i + 1].phase|
    ensures var s, t, w := states[i], states[i + 1], actions[i].w;
      if s.m.running && (s.phase[w] == Ready || s.phase[w] == Woken(true))
      then t.phase[w] == Leaving && t.m.workers == s.m.workers
      else t.phase[w] == Exited && w !in t.m.workers
  {
    var s, w := states[i], actions[i].w;
    RunIsSafe(states, actions, i);
    assert Enabled(s, TryNext(w)) && states[i + 1] == Apply(s, TryNext(w));
    NextIsHighest(s.m);
    RemovedWorker(s.m.workers, w, w);
  }

  // ---------------------------------------------------------------- calls and signals

  /** Clients may call at any time, CancelJobs by one thread once. */
  lemma ClientsMayCall(s: State, callback: Option<nat>, id: nat, p: Priority, c: nat)
    requires s.m.WellShaped()
    ensures Enabled(s, Add(callback, p)) && Enabled(s, Cancel(id)) && Enabled(s, Pause(p)) && Enabled(s, UnPause(p))
    ensures Enabled(s, CancelAll(c)) <==> c !in s.clients
  {
  }

  /** Pause and UnPause concern one priority; a wait ends at once, and with news, exactly if the event is set. */
  lemma SignalsAreHeard(s: State, p: Priority, q: Priority, w: nat, c: nat)
    requires s.m.WellShaped()
    ensures Apply(s, Pause(p)).m.paused[q] == (q == p || s.m.paused[q])
    ensures Apply(s, UnPause(p)).m.paused[q] == (q != p && s.m.paused[q])
    ensures Enabled(s, SetEvent(c)) ==> Apply(s, SetEvent(c)).m.signaled
    ensures Enabled(s, EnterWait(w)) ==> Apply(s, EnterWait(w)).phase[w] == if s.m.signaled then Woken(true) else Asleep
    ensures Enabled(s, LeaveWait(w)) ==> Apply(s, LeaveWait(w)).phase[w] == Woken(s.m.signaled)
  {
  }
}
