/** What every step of the job manager keeps: the invariants of JobSystem, action by action. */
module JobSafety {
  import opened JobQueues
  import opened Options
  import opened JobSystem

  ghost predicate Safe(s: State) {
    Core(s) && WorkersOk(s) && SlotsOk(s) && CallsOk(s) && FifoOk(s) && StoppedOk(s) && AccountsOk(s)
  }

  // ---------------------------------------------------------------- steps that touch no job

  predicate Idle(phase: Phase) {
    phase.Ready? || phase.Leaving? || phase.Asleep? || phase.Woken?
  }

  ghost predicate Quiet(s: State, t: State) {
    && t.m.WellShaped() && t.m.queue == s.m.queue && t.m.processing == s.m.processing && t.m.workers == s.m.workers
    && t.m.running == s.m.running && t.fate == s.fate && t.freed == s.freed && t.called == s.called && t.muted == s.muted
    && t.started == s.started && |t.phase| == |s.phase|
    && forall w {:trigger t.phase[w]} {:trigger s.phase[w]} :: 0 <= w < |s.phase| ==>
         t.phase[w] == s.phase[w] || (Idle(s.phase[w]) && Idle(t.phase[w]))
  }

  predicate IsQuiet(a: Action) {
    a.Pause? || a.UnPause? || a.SetEvent? || a.CheckWorkers? || a.EnterWait? || a.LeaveWait?
  }

  lemma QuietStep(s: State, a: Action)
    requires Enabled(s, a) && IsQuiet(a)
    ensures Quiet(s, Apply(s, a))
  {
  }

  lemma QuietKeepsCore(s: State, t: State)
    requires Core(s) && Quiet(s, t)
    ensures Core(t)
  {
  }

  lemma QuietKeepsRest(s: State, t: State)
    requires Core(s) && WorkersOk(s) && SlotsOk(s) && FifoOk(s) && Quiet(s, t)
    ensures WorkersOk(t) && SlotsOk(t) && FifoOk(t)
  {
  }

  lemma QuietKeepsCalls(s: State, t: State)
    requires Core(s) && CallsOk(s) && Quiet(s, t)
    ensures CallsOk(t)
  {
  }

  lemma QuietKeepsAccounts(s: State, t: State)
    requires Core(s) && AccountsOk(s) && Quiet(s, t)
    ensures AccountsOk(t)
  {
    forall j: nat | j < |t.fate| ensures Accounted(t, j) {
      assert Accounted(s, j);
    }
  }

  lemma QuietKeepsStopped(s: State, a: Action)
    requires Enabled(s, a) && IsQuiet(a) && StoppedOk(s)
    ensures StoppedOk(Apply(s, a))
  {
  }

  // ---------------------------------------------------------------- AddJob

  lemma AddedQueue(s: State, callback: Option<nat>, p: Priority, q: Priority)
    requires s.m.WellShaped() && s.m.running
    ensures var t, item := AfterAdd(s, callback, p), WorkItem(|s.fate|, NextId(s.m.counter), callback, p);
      t.m.WellShaped() && t.m.queue[q] == if q == p then s.m.queue[q] + [item] else s.m.queue[q]
  {
  }

  lemma AddKeepsQueues(s: State, callback: Option<nat>, p: Priority)
    requires QueuesOk(s)
    ensures QueuesOk(AfterAdd(s, callback, p))
  {
    if s.m.running {
      AddedQueue(s, callback, p, 0);
      AddedQueue(s, callback, p, 1);
      AddedQueue(s, callback, p, 2);
      QueuesGrow(s, AfterAdd(s, callback, p), p, WorkItem(|s.fate|, NextId(s.m.counter), callback, p));
    }
  }

  lemma QueuesGrow(s: State, t: State, p: Priority, item: WorkItem)
    requires QueuesOk(s) && t.m.WellShaped() && item.job == |s.fate| && item.priority == p
    requires t.fate == s.fate + [Pending(p)]
    requires forall q :: 0 <= q < 3 ==> t.m.queue[q] == if q == p then s.m.queue[q] + [item] else s.m.queue[q]
    ensures QueuesOk(t)
  {
    forall q | 0 <= q < 3 ensures QueueOk(t.m.queue[q], q, t.fate) {
      assert QueueOk(s.m.queue[q], q, s.fate);
      if q == p {
        QueueGrows(s.m.queue[q], p, s.fate, item);
      } else {
        QueueStays(s.m.queue[q], q, s.fate, Pending(p));
      }
    }
  }

  /** One of the queues of QueuesOk. */
  ghost predicate QueueOk(items: seq<WorkItem>, p: Priority, fate: seq<Fate>) {
    && (forall i :: 0 <= i < |items| ==> items[i].priority == p && items[i].job < |fate| && fate[items[i].job] == Pending(p))
    && Ascending(items)
  }

  lemma QueueGrows(items: seq<WorkItem>, p: Priority, fate: seq<Fate>, item: WorkItem)
    requires QueueOk(items, p, fate) && item.job == |fate| && item.priority == p
    ensures QueueOk(items + [item], p, fate + [Pending(p)])
  {
  }

  lemma QueueStays(items: seq<WorkItem>, p: Priority, fate: seq<Fate>, f: Fate)
    requires QueueOk(items, p, fate)
    ensures QueueOk(items, p, fate + [f])
  {
  }

  lemma AddKeepsCore(s: State, callback: Option<nat>, p: Priority)
    requires Core(s)
    ensures Core(AfterAdd(s, callback, p))
  {
    AddKeepsQueues(s, callback, p);
  }

  lemma AddKeepsWorkers(s: State, callback: Option<nat>, p: Priority)
    requires s.m.WellShaped() && WorkersOk(s)
    ensures WorkersOk(AfterAdd(s, callback, p))
  {
    var t := AfterAdd(s, callback, p);
    forall w: nat {:trigger w in t.m.workers} ensures w in t.m.workers <==> w < |t.phase| && !t.phase[w].Exited? {
      assert w in s.m.workers <==> w < |s.phase| && !s.phase[w].Exited?;
      assert w in s.m.workers + [|s.phase|] <==> w in s.m.workers || w == |s.phase|;
    }
    assert |s.phase| !in s.m.workers;
  }

  lemma AddKeepsRest(s: State, callback: Option<nat>, p: Priority)
    requires Core(s) && SlotsOk(s) && FifoOk(s) && StoppedOk(s)
    ensures var t := AfterAdd(s, callback, p); t.m.WellShaped() && SlotsOk(t) && FifoOk(t) && StoppedOk(t)
  {
  }

  lemma AddKeepsCalls(s: State, callback: Option<nat>, p: Priority)
    requires Core(s) && CallsOk(s)
    ensures CallsOk(AfterAdd(s, callback, p))
  {
  }

  lemma HasJobGrows(items: seq<WorkItem>, item: WorkItem)
    ensures forall j :: HasJob(items + [item], j) <==> HasJob(items, j) || j == item.job
  {
    var more := items + [item];
    assert more[|items|] == item;
    forall j | HasJob(items, j) ensures HasJob(more, j) {
      var i :| 0 <= i < |items| && items[i].job == j;
      assert more[i].job == j;
    }
    forall j | HasJob(more, j) && j != item.job ensures HasJob(items, j) {
      var i :| 0 <= i < |more| && more[i].job == j;
      assert items[i].job == j;
    }
  }

  lemma AddKeepsAccounts(s: State, callback: Option<nat>, p: Priority)
    requires Core(s) && AccountsOk(s)
    ensures AccountsOk(AfterAdd(s, callback, p))
  {
    var t := AfterAdd(s, callback, p);
    HasJobGrows(s.m.queue[p], WorkItem(|s.fate|, NextId(s.m.counter), callback, p));
    forall j: nat | j < |t.fate| ensures Accounted(t, j) {
      if j < |s.fate| {
        assert Accounted(s, j);
      }
    }
  }

  lemma AddKeeps(s: State, callback: Option<nat>, p: Priority)
    requires Safe(s)
    ensures Safe(AfterAdd(s, callback, p))
  {
    AddKeepsCore(s, callback, p);
    AddKeepsWorkers(s, callback, p);
    AddKeepsRest(s, callback, p);
    AddKeepsCalls(s, callback, p);
    AddKeepsAccounts(s, callback, p);
  }

  // ---------------------------------------------------------------- CancelJob

  ghost predicate Ascending(items: seq<WorkItem>) {
    forall i, j :: 0 <= i < j < |items| ==> items[i].job < items[j].job
  }

  lemma RemoveKeepsAscending(items: seq<WorkItem>, i: nat)
    requires Ascending(items) && i < |items|
    ensures Ascending(RemoveAt(items, i))
    ensures !HasJob(RemoveAt(items, i), items[i].job)
    ensures forall j :: j != items[i].job && HasJob(items, j) ==> HasJob(RemoveAt(items, i), j)
  {
    var rest := RemoveAt(items, i);
    forall j | j != items[i].job && HasJob(items, j) ensures HasJob(rest, j) {
      var k :| 0 <= k < |items| && items[k].job == j;
      assert rest[if k < i then k else k - 1].job == j;
    }
  }

  lemma DropKeepsQueues(s: State, p: Priority, i: nat)
    requires QueuesOk(s) && i < |s.m.queue[p]|
    ensures QueuesOk(AfterCancel(s, InQueue(p, i)))
  {
    assert Ascending(s.m.queue[p]);
    RemoveKeepsAscending(s.m.queue[p], i);
    var t, job := AfterCancel(s, InQueue(p, i)), s.m.queue[p][i].job;
    forall q, k | 0 <= q < 3 && 0 <= k < |t.m.queue[q]|
      ensures var item := t.m.queue[q][k]; item.priority == q && item.job < |t.fate| && t.fate[item.job] == Pending(q)
    {
      if q == p {
        assert HasJob(t.m.queue[p], t.m.queue[q][k].job);
      }
    }
  }

  lemma DropKeepsCore(s: State, p: Priority, i: nat)
    requires Core(s) && i < |s.m.queue[p]|
    ensures Core(AfterCancel(s, InQueue(p, i)))
  {
    DropKeepsQueues(s, p, i);
  }

  lemma DropKeepsRest(s: State, p: Priority, i: nat)
    requires Core(s) && i < |s.m.queue[p]|
    requires WorkersOk(s) && SlotsOk(s) && StoppedOk(s) && FifoOk(s)
    ensures var t := AfterCancel(s, InQueue(p, i));
      t.m.WellShaped() && WorkersOk(t) && SlotsOk(t) && StoppedOk(t) && FifoOk(t)
  {
  }

  lemma DropKeepsCalls(s: State, p: Priority, i: nat)
    requires Core(s) && i < |s.m.queue[p]| && CallsOk(s)
    ensures CallsOk(AfterCancel(s, InQueue(p, i)))
  {
  }

  lemma DropKeepsAccounts(s: State, p: Priority, i: nat)
    requires Core(s) && i < |s.m.queue[p]| && AccountsOk(s)
    ensures AccountsOk(AfterCancel(s, InQueue(p, i)))
  {
    assert Ascending(s.m.queue[p]);
    RemoveKeepsAscending(s.m.queue[p], i);
    var t := AfterCancel(s, InQueue(p, i));
    forall j: nat | j < |t.fate| ensures Accounted(t, j) {
      assert Accounted(s, j);
    }
  }

  lemma MuteKeepsCore(s: State, i: nat)
    requires Core(s) && i < |s.m.processing|
    ensures Core(AfterCancel(s, InProcessing(i)))
  {
  }

  lemma {:induction false} SamePriorities(a: seq<WorkItem>, b: seq<WorkItem>, p: Priority)
    requires |a| == |b| && forall i :: 0 <= i < |a| ==> a[i].priority == b[i].priority
    ensures CountUpTo(a, p) == CountUpTo(b, p)
  {
    if a != [] {
      SamePriorities(a[..|a| - 1], b[..|b| - 1], p);
    }
  }

  lemma MuteKeepsRest(s: State, i: nat)
    requires Core(s) && i < |s.m.processing|
    requires WorkersOk(s) && SlotsOk(s) && StoppedOk(s) && FifoOk(s)
    ensures var t := AfterCancel(s, InProcessing(i));
      t.m.WellShaped() && WorkersOk(t) && SlotsOk(t) && StoppedOk(t) && FifoOk(t)
  {
    var t := AfterCancel(s, InProcessing(i));
    forall p: Priority ensures CountUpTo(t.m.processing, p) <= MaxWorkers(p) {
      SamePriorities(t.m.processing, s.m.processing, p);
    }
  }

  lemma MuteKeepsCalls(s: State, i: nat)
    requires Core(s) && i < |s.m.processing| && CallsOk(s)
    ensures CallsOk(AfterCancel(s, InProcessing(i)))
  {
  }

  lemma HasJobSame(a: seq<WorkItem>, b: seq<WorkItem>, j: nat)
    requires |a| == |b| && forall i :: 0 <= i < |a| ==> a[i].job == b[i].job
    ensures HasJob(a, j) ==> HasJob(b, j)
  {
    if HasJob(a, j) {
      var i :| 0 <= i < |a| && a[i].job == j;
      assert b[i].job == j;
    }
  }

  lemma MuteKeepsAccounts(s: State, i: nat)
    requires Core(s) && i < |s.m.processing| && AccountsOk(s)
    ensures AccountsOk(AfterCancel(s, InProcessing(i)))
  {
    var t := AfterCancel(s, InProcessing(i));
    forall j: nat | j < |t.fate| ensures Accounted(t, j) {
      assert Accounted(s, j);
      HasJobSame(s.m.processing, t.m.processing, j);
    }
  }

  lemma CancelKeeps(s: State, t: Target)
    requires Safe(s)
    requires t.InQueue? ==> t.i < |s.m.queue[t.p]|
    requires t.InProcessing? ==> t.i < |s.m.processing|
    ensures Safe(AfterCancel(s, t))
  {
    match t
    case Nowhere =>
    case InQueue(p, i) =>
      DropKeepsCore(s, p, i);
      DropKeepsRest(s, p, i);
      DropKeepsCalls(s, p, i);
      DropKeepsAccounts(s, p, i);
    case InProcessing(i) =>
      MuteKeepsCore(s, i);
      MuteKeepsRest(s, i);
      MuteKeepsCalls(s, i);
      MuteKeepsAccounts(s, i);
  }

  // ---------------------------------------------------------------- CancelJobs

  lemma CancelAllKeepsFates(s: State, c: nat, j: nat)
    requires QueuesOk(s) && j < |s.fate| && !s.fate[j].Pending?
    ensures var t := AfterCancelAll(s, c); j < |t.fate| && t.fate[j] == s.fate[j]
  {
  }

  lemma CancelAllKeepsCore(s: State, c: nat)
    requires Core(s)
    ensures Core(AfterCancelAll(s, c))
  {
    var t := AfterCancelAll(s, c);
    forall j: nat | j < |s.fate| && !s.fate[j].Pending? ensures j < |t.fate| && t.fate[j] == s.fate[j] {
      CancelAllKeepsFates(s, c, j);
    }
    AllCancelledIsCore(s, t);
  }

  lemma AllCancelledIsCore(s: State, t: State)
    requires Core(s) && t.m.queue == [[], [], []] && t.m.paused == s.m.paused && t.phase == s.phase
    requires |t.m.processing| == |s.m.processing|
    requires forall i :: 0 <= i < |s.m.processing| ==> t.m.processing[i].job == s.m.processing[i].job
    requires forall j: nat {:trigger t.fate[j]} {:trigger s.fate[j]} :: j < |s.fate| && !s.fate[j].Pending? ==>
      j < |t.fate| && t.fate[j] == s.fate[j]
    ensures Core(t)
  {
  }

  lemma CancelAllKeepsRest(s: State, c: nat)
    requires Core(s) && WorkersOk(s) && SlotsOk(s) && StoppedOk(s) && FifoOk(s)
    ensures var t := AfterCancelAll(s, c);
      t.m.WellShaped() && WorkersOk(t) && SlotsOk(t) && StoppedOk(t) && FifoOk(t)
  {
    var t := AfterCancelAll(s, c);
    forall p: Priority ensures CountUpTo(t.m.processing, p) <= MaxWorkers(p) {
      SamePriorities(t.m.processing, s.m.processing, p);
    }
  }

  lemma CancelAllKeepsCalls(s: State, c: nat)
    requires Core(s) && CallsOk(s)
    ensures CallsOk(AfterCancelAll(s, c))
  {
  }

  lemma {:induction false} CountOfJobs(items: seq<WorkItem>, j: nat)
    requires Ascending(items)
    ensures multiset(Jobs(items))[j] == if HasJob(items, j) then 1 else 0
  {
    if items != [] {
      var last := |items| - 1;
      CountOfJobs(items[..last], j);
      assert Jobs(items) == Jobs(items[..last]) + [items[last].job];
      HasJobGrows(items[..last], items[last]);
      assert items == items[..last] + [items[last]];
      assert HasJob(items, j) <==> HasJob(items[..last], j) || items[last].job == j;
    }
  }

  lemma HasJobIsMember(items: seq<WorkItem>, j: nat)
    ensures HasJob(items, j) <==> j in Jobs(items)
  {
    if HasJob(items, j) {
      var i :| 0 <= i < |items| && items[i].job == j;
      assert Jobs(items)[i] == j;
    }
  }

  lemma CancelAllAccounts(s: State, c: nat, j: nat)
    requires Core(s) && AccountsOk(s) && j < |s.fate|
    ensures Accounted(AfterCancelAll(s, c), j)
  {
    var q, t := s.m.queue, AfterCancelAll(s, c);
    assert Accounted(s, j);
    forall p | 0 <= p < 3 ensures Ascending(q[p]) && (HasJob(q[p], j) ==> s.fate[j] == Pending(p)) {
    }
    CountOfJobs(q[0], j);
    CountOfJobs(q[1], j);
    CountOfJobs(q[2], j);
    HasJobIsMember(q[0], j);
    HasJobIsMember(q[1], j);
    HasJobIsMember(q[2], j);
    HasJobSame(s.m.processing, t.m.processing, j);
  }

  lemma CancelAllKeepsAccounts(s: State, c: nat)
    requires Core(s) && AccountsOk(s)
    ensures AccountsOk(AfterCancelAll(s, c))
  {
    var t, q := AfterCancelAll(s, c), s.m.queue;
    forall j: nat | j < |t.fate| ensures Accounted(t, j) {
      CancelAllAccounts(s, c, j);
    }
    forall j: nat | j >= |t.fate| ensures t.freed[j] == 0 {
      NotQueued(s, 0, j);
      NotQueued(s, 1, j);
      NotQueued(s, 2, j);
    }
  }

  lemma NotQueued(s: State, p: Priority, j: nat)
    requires QueuesOk(s) && j >= |s.fate|
    ensures multiset(Jobs(s.m.queue[p]))[j] == 0
  {
    assert j !in Jobs(s.m.queue[p]);
  }

  lemma CancelAllKeeps(s: State, c: nat)
    requires Safe(s)
    ensures Safe(AfterCancelAll(s, c))
  {
    CancelAllKeepsCore(s, c);
    CancelAllKeepsRest(s, c);
    CancelAllKeepsCalls(s, c);
    CancelAllKeepsAccounts(s, c);
  }

  // ---------------------------------------------------------------- GetNextJob

  lemma PopKeepsQueues(s: State, w: nat, p: Priority)
    requires QueuesOk(s) && w < |s.phase| && s.m.queue[p] != []
    ensures QueuesOk(AfterPop(s, w, p))
  {
  }

  lemma PopKeepsProcessing(s: State, w: nat, p: Priority)
    requires Core(s) && w < |s.phase| && s.m.queue[p] != [] && Idle(s.phase[w])
    ensures ProcessingOk(AfterPop(s, w, p))
  {
  }

  lemma PopKeepsPhases(s: State, w: nat, p: Priority)
    requires Core(s) && w < |s.phase| && s.m.queue[p] != [] && Idle(s.phase[w])
    ensures PhasesOk(AfterPop(s, w, p))
  {
  }

  /** A job starts only below its own limit, so it never uses up the slots kept for higher priorities. */
  lemma PopKeepsSlots(s: State, w: nat, p: Priority)
    requires s.m.WellShaped() && SlotsOk(s) && w < |s.phase| && CanPop(s.m, p) && s.m.queue[p][0].priority == p
    ensures SlotsOk(AfterPop(s, w, p))
  {
    var t := AfterPop(s, w, p);
    forall q: Priority ensures CountUpTo(t.m.processing, q) <= MaxWorkers(q) {
      assert t.m.processing[..|s.m.processing|] == s.m.processing;
    }
  }

  lemma PopKeepsWorkers(s: State, w: nat, p: Priority)
    requires s.m.WellShaped() && WorkersOk(s) && StoppedOk(s) && w < |s.phase| && Idle(s.phase[w]) && s.m.queue[p] != []
    ensures WorkersOk(AfterPop(s, w, p)) && StoppedOk(AfterPop(s, w, p))
  {
  }

  lemma PopKeepsFifo(s: State, w: nat, p: Priority)
    requires Core(s) && FifoOk(s) && w < |s.phase| && s.m.queue[p] != []
    ensures FifoOk(AfterPop(s, w, p))
  {
    var t := AfterPop(s, w, p);
    assert forall k :: 0 <= k < |t.m.queue[p]| ==> t.m.queue[p][k] == s.m.queue[p][k + 1];
  }

  lemma PopKeepsCalls(s: State, w: nat, p: Priority)
    requires Core(s) && CallsOk(s) && w < |s.phase| && s.m.queue[p] != [] && Idle(s.phase[w])
    ensures CallsOk(AfterPop(s, w, p))
  {
  }

  lemma HasJobTail(items: seq<WorkItem>, j: nat)
    requires items != [] && HasJob(items, j) && items[0].job != j
    ensures HasJob(items[1..], j)
  {
    var i :| 0 <= i < |items| && items[i].job == j;
    assert items[1..][i - 1].job == j;
  }

  lemma PopKeepsAccounts(s: State, w: nat, p: Priority)
    requires Core(s) && AccountsOk(s) && w < |s.phase| && s.m.queue[p] != [] && Idle(s.phase[w])
    ensures AccountsOk(AfterPop(s, w, p))
  {
    var t, item := AfterPop(s, w, p), s.m.queue[p][0];
    HasJobGrows(s.m.processing, item);
    forall j: nat | j < |t.fate| ensures Accounted(t, j) {
      assert Accounted(s, j);
      if j != item.job && s.fate[j] == Pending(p) {
        HasJobTail(s.m.queue[p], j);
      }
    }
  }

  lemma PopKeeps(s: State, w: nat, p: Priority)
    requires Safe(s) && w < |s.phase| && Idle(s.phase[w]) && CanPop(s.m, p)
    ensures Safe(AfterPop(s, w, p))
  {
    PopKeepsQueues(s, w, p);
    PopKeepsProcessing(s, w, p);
    PopKeepsPhases(s, w, p);
    PopKeepsSlots(s, w, p);
    PopKeepsWorkers(s, w, p);
    PopKeepsFifo(s, w, p);
    PopKeepsCalls(s, w, p);
    PopKeepsAccounts(s, w, p);
  }

  lemma RemovedWorker(workers: seq<nat>, w: nat, x: nat)
    requires forall i, j :: 0 <= i < j < |workers| ==> workers[i] != workers[j]
    ensures x in RemoveAt(workers, FindWorker(workers, w)) <==> x in workers && x != w
  {
    var k := FindWorker(workers, w);
    var rest := RemoveAt(workers, k);
    if x in workers && x != w {
      var i :| 0 <= i < |workers| && workers[i] == x;
      assert rest[if i < k then i else i - 1] == x;
    }
  }

  lemma RemovedStaysDistinct(workers: seq<nat>, k: nat)
    requires forall i, j :: 0 <= i < j < |workers| ==> workers[i] != workers[j]
    ensures var rest := RemoveAt(workers, k); forall i, j :: 0 <= i < j < |rest| ==> rest[i] != rest[j]
  {
  }

  lemma NoJobKeepsWorkers(s: State, w: nat, again: bool)
    requires s.m.WellShaped() && WorkersOk(s) && w < |s.phase| && Idle(s.phase[w])
    ensures WorkersOk(AfterNoJob(s, w, again))
  {
    var t := AfterNoJob(s, w, again);
    RemovedStaysDistinct(s.m.workers, FindWorker(s.m.workers, w));
    forall x: nat {:trigger x in t.m.workers} ensures x in t.m.workers <==> x < |t.phase| && !t.phase[x].Exited? {
      assert x in s.m.workers <==> x < |s.phase| && !s.phase[x].Exited?;
      RemovedWorker(s.m.workers, w, x);
    }
  }

  lemma NoJobKeepsCore(s: State, w: nat, again: bool)
    requires Core(s) && w < |s.phase| && Idle(s.phase[w])
    ensures Core(AfterNoJob(s, w, again))
  {
  }

  lemma NoJobKeepsRest(s: State, w: nat, again: bool)
    requires Core(s) && SlotsOk(s) && FifoOk(s) && StoppedOk(s) && w < |s.phase| && Idle(s.phase[w])
    ensures SlotsOk(AfterNoJob(s, w, again)) && FifoOk(AfterNoJob(s, w, again)) && StoppedOk(AfterNoJob(s, w, again))
  {
  }

  lemma NoJobKeepsCalls(s: State, w: nat, again: bool)
    requires Core(s) && CallsOk(s) && w < |s.phase| && Idle(s.phase[w])
    ensures CallsOk(AfterNoJob(s, w, again))
  {
  }

  lemma NoJobKeepsAccounts(s: State, w: nat, again: bool)
    requires Core(s) && AccountsOk(s) && w < |s.phase| && Idle(s.phase[w])
    ensures AccountsOk(AfterNoJob(s, w, again))
  {
    forall j: nat | j < |s.fate| ensures Accounted(AfterNoJob(s, w, again), j) {
      assert Accounted(s, j);
    }
  }

  lemma TryNextKeeps(s: State, w: nat)
    requires Safe(s) && w < |s.phase| && Idle(s.phase[w])
    ensures Safe(AfterTryNext(s, w))
  {
    var p, again := NextPriority(s.m, HIGH), Again(s.phase[w]);
    if p >= 0 {
      PopKeeps(s, w, p);
    } else {
      NoJobKeepsWorkers(s, w, again);
      NoJobKeepsCore(s, w, again);
      NoJobKeepsRest(s, w, again);
      NoJobKeepsCalls(s, w, again);
      NoJobKeepsAccounts(s, w, again);
    }
  }

  // ---------------------------------------------------------------- OnJobComplete

  lemma CompleteKeepsCore(s: State, w: nat)
    requires Core(s) && w < |s.phase| && s.phase[w].Working?
    requires HasJob(s.m.processing, s.phase[w].job)
    ensures Core(AfterComplete(s, w)) && AfterComplete(s, w).phase[w].Telling?
  {
  }

  lemma CompleteKeepsRest(s: State, w: nat)
    requires Core(s) && w < |s.phase| && s.phase[w].Working?
    requires WorkersOk(s) && SlotsOk(s) && FifoOk(s) && StoppedOk(s)
    ensures var t := AfterComplete(s, w); t.m.WellShaped() && WorkersOk(t) && SlotsOk(t) && FifoOk(t) && StoppedOk(t)
  {
  }

  /** A worker's job is the only one that is running on it. */
  lemma OneJobAWorker(s: State, w: nat, j: nat)
    requires AccountedFor(s) && w < |s.phase| && j < |s.fate| && s.fate[j] == Running(w)
    ensures HeldJob(s.phase[w]) == Some(j)
  {
    assert Accounted(s, j);
  }

  ghost predicate AccountedFor(s: State) {
    s.m.WellShaped() && AccountsOk(s)
  }

  lemma CompleteKeepsCalls(s: State, w: nat)
    requires Core(s) && CallsOk(s) && AccountedFor(s) && w < |s.phase| && s.phase[w].Working?
    ensures CallsOk(AfterComplete(s, w))
  {
    var t, job := AfterComplete(s, w), s.phase[w].job;
    var i := FindJob(s.m.processing, job);
    assert s.fate[job] == Running(w) && InDoWork(s, job);
    assert i < |s.m.processing| && job in s.muted ==> s.m.processing[i].callback.None?;
    forall j | j in t.muted ensures MutedOk(t, j) {
      assert MutedOk(s, j);
      if s.fate[j] == Running(w) {
        OneJobAWorker(s, w, j);
      }
    }
    forall j | t.called[j] > 0 ensures CalledOk(t, j) {
      assert CalledOk(s, j);
    }
  }

  lemma CompleteKeepsAccounts(s: State, w: nat)
    requires Core(s) && AccountsOk(s) && w < |s.phase| && s.phase[w].Working?
    requires HasJob(s.m.processing, s.phase[w].job)
    ensures AccountsOk(AfterComplete(s, w))
  {
    forall j: nat | j < |s.fate| ensures Accounted(AfterComplete(s, w), j) {
      assert Accounted(s, j);
    }
  }

  lemma CompleteKeeps(s: State, w: nat)
    requires Safe(s) && w < |s.phase| && s.phase[w].Working?
    ensures Safe(AfterComplete(s, w))
  {
    assert s.fate[s.phase[w].job] == Running(w) && Accounted(s, s.phase[w].job);
    CompleteKeepsCore(s, w);
    CompleteKeepsRest(s, w);
    CompleteKeepsCalls(s, w);
    CompleteKeepsAccounts(s, w);
  }

  lemma TellKeeps(s: State, w: nat)
    requires Safe(s) && w < |s.phase| && s.phase[w].Telling?
    ensures Safe(Apply(s, Tell(w)))
  {
    TellKeepsCore(s, w);
    TellKeepsCalls(s, w);
    TellKeepsAccounts(s, w);
  }

  lemma TellKeepsCore(s: State, w: nat)
    requires Core(s) && w < |s.phase| && s.phase[w].Telling?
    requires WorkersOk(s) && SlotsOk(s) && FifoOk(s) && StoppedOk(s)
    ensures var t := Apply(s, Tell(w)); Core(t) && WorkersOk(t) && SlotsOk(t) && FifoOk(t) && StoppedOk(t)
  {
  }

  lemma TellKeepsCalls(s: State, w: nat)
    requires Core(s) && CallsOk(s) && w < |s.phase| && s.phase[w].Telling?
    ensures CallsOk(Apply(s, Tell(w)))
  {
  }

  lemma TellKeepsAccounts(s: State, w: nat)
    requires Core(s) && AccountsOk(s) && w < |s.phase| && s.phase[w].Telling?
    ensures AccountsOk(Apply(s, Tell(w)))
  {
    forall j: nat | j < |s.fate| ensures Accounted(Apply(s, Tell(w)), j) {
      assert Accounted(s, j);
    }
  }

  /** Without item `k` the processing list holds no job twice, and that one not at all. */
  lemma ErasedIsDistinct(items: seq<WorkItem>, k: nat)
    requires k < |items| && forall i, j :: 0 <= i < j < |items| ==> items[i].job != items[j].job
    ensures var rest := RemoveAt(items, k);
      && (forall i, j :: 0 <= i < j < |rest| ==> rest[i].job != rest[j].job)
      && forall i :: 0 <= i < |rest| ==> rest[i].job != items[k].job
  {
  }

  lemma EraseKeepsProcessing(s: State, w: nat)
    requires Core(s) && w < |s.phase| && s.phase[w].Told?
    ensures ProcessingOk(Apply(s, Erase(w)))
  {
    RunningStay(s, Apply(s, Erase(w)), w, s.phase[w].item);
  }

  lemma RunningStay(s: State, t: State, w: nat, item: WorkItem)
    requires ProcessingOk(s) && w < |s.phase| && s.phase[w] == Told(item) && item.job < |s.fate|
    requires t.phase == s.phase[w := Freeing(item)] && t.fate == s.fate[item.job := Dropped(w)]
    requires t.m.processing == RemoveAt(s.m.processing, FindJob(s.m.processing, item.job))
    ensures ProcessingOk(t)
  {
    var k := FindJob(s.m.processing, item.job);
    if k < |s.m.processing| {
      ErasedIsDistinct(s.m.processing, k);
    }
    forall i | 0 <= i < |t.m.processing|
      ensures var j := t.m.processing[i].job; j < |t.fate| && t.fate[j].Running? && t.fate[j].w < |t.phase| && HeldJob(t.phase[t.fate[j].w]) == Some(j)
    {
      OneRunningStays(s, t, w, item, if i < k then i else i + 1);
    }
  }

  lemma OneRunningStays(s: State, t: State, w: nat, item: WorkItem, i: nat)
    requires ProcessingOk(s) && w < |s.phase| && s.phase[w] == Told(item) && item.job < |s.fate|
    requires t.phase == s.phase[w := Freeing(item)] && t.fate == s.fate[item.job := Dropped(w)]
    requires i < |s.m.processing| && s.m.processing[i].job != item.job
    ensures var j := s.m.processing[i].job;
      j < |t.fate| && t.fate[j].Running? && t.fate[j].w < |t.phase| && HeldJob(t.phase[t.fate[j].w]) == Some(j)
  {
    var j := s.m.processing[i].job;
    assert HeldJob(s.phase[s.fate[j].w]) == Some(j);
  }

  lemma EraseKeepsCore(s: State, w: nat)
    requires Core(s) && w < |s.phase| && s.phase[w].Told?
    ensures Core(Apply(s, Erase(w)))
  {
    EraseKeepsProcessing(s, w);
  }

  lemma {:induction false} CountConcat(a: seq<WorkItem>, b: seq<WorkItem>, p: Priority)
    ensures CountUpTo(a + b, p) == CountUpTo(a, p) + CountUpTo(b, p)
  {
    if b == [] {
      assert a + b == a;
    } else {
      assert (a + b)[..|a + b| - 1] == a + b[..|b| - 1];
      CountConcat(a, b[..|b| - 1], p);
    }
  }

  lemma CountWithout(items: seq<WorkItem>, i: nat, p: Priority)
    ensures CountUpTo(RemoveAt(items, i), p) <= CountUpTo(items, p)
  {
    if i < |items| {
      CountConcat(items[..i], items[i + 1..], p);
      CountConcat(items[..i], items[i..], p);
      CountConcat([items[i]], items[i + 1..], p);
      assert items == items[..i] + items[i..] && items[i..] == [items[i]] + items[i + 1..];
    }
  }

  lemma EraseKeepsRest(s: State, w: nat)
    requires Core(s) && WorkersOk(s) && SlotsOk(s) && FifoOk(s) && StoppedOk(s) && w < |s.phase| && s.phase[w].Told?
    ensures var t := Apply(s, Erase(w)); WorkersOk(t) && SlotsOk(t) && FifoOk(t) && StoppedOk(t)
  {
    var t := Apply(s, Erase(w));
    forall p: Priority ensures CountUpTo(t.m.processing, p) <= MaxWorkers(p) {
      CountWithout(s.m.processing, FindJob(s.m.processing, s.phase[w].item.job), p);
    }
  }

  lemma EraseKeepsCalls(s: State, w: nat)
    requires Core(s) && CallsOk(s) && AccountedFor(s) && w < |s.phase| && s.phase[w].Told?
    ensures CallsOk(Apply(s, Erase(w)))
  {
    var t := Apply(s, Erase(w));
    forall j | j in t.muted ensures MutedOk(t, j) {
      assert MutedOk(s, j);
    }
    forall j | t.called[j] > 0 ensures CalledOk(t, j) {
      assert CalledOk(s, j);
      if s.fate[j] == Running(w) {
        OneJobAWorker(s, w, j);
      }
    }
    forall i | 0 <= i < |t.m.processing| && t.m.processing[i].job in t.muted && InDoWork(t, t.m.processing[i].job)
      ensures t.m.processing[i].callback.None?
    {
      StillInDoWork(s, w, t.m.processing[i].job);
      RemovedItem(s.m.processing, FindJob(s.m.processing, s.phase[w].item.job), i);
    }
  }

  lemma StillInDoWork(s: State, w: nat, j: nat)
    requires Core(s) && w < |s.phase| && s.phase[w].Told? && InDoWork(Apply(s, Erase(w)), j)
    ensures InDoWork(s, j)
  {
  }

  /** What is left after erasing was there before. */
  lemma RemovedItem(items: seq<WorkItem>, k: nat, i: nat)
    requires k <= |items| && i < |RemoveAt(items, k)|
    ensures RemoveAt(items, k)[i] in items
  {
    assert RemoveAt(items, k)[i] == items[if i < k then i else i + 1];
  }

  lemma HasJobWithout(items: seq<WorkItem>, i: nat, j: nat)
    requires i < |items| && HasJob(items, j) && items[i].job != j
    ensures HasJob(RemoveAt(items, i), j)
  {
    var k :| 0 <= k < |items| && items[k].job == j;
    assert RemoveAt(items, i)[if k < i then k else k - 1].job == j;
  }

  lemma EraseAccounts(s: State, w: nat, j: nat)
    requires Core(s) && AccountsOk(s) && w < |s.phase| && s.phase[w].Told? && j < |s.fate|
    ensures Accounted(Apply(s, Erase(w)), j)
  {
    var job := s.phase[w].item.job;
    var k := FindJob(s.m.processing, job);
    assert Accounted(s, j);
    if j != job && s.fate[j].Running? {
      if k < |s.m.processing| {
        HasJobWithout(s.m.processing, k, j);
      }
    }
  }

  lemma EraseKeepsAccounts(s: State, w: nat)
    requires Core(s) && AccountsOk(s) && w < |s.phase| && s.phase[w].Told?
    ensures AccountsOk(Apply(s, Erase(w)))
  {
    forall j: nat | j < |s.fate| ensures Accounted(Apply(s, Erase(w)), j) {
      EraseAccounts(s, w, j);
    }
  }

  lemma EraseKeeps(s: State, w: nat)
    requires Safe(s) && w < |s.phase| && s.phase[w].Told?
    ensures Safe(Apply(s, Erase(w)))
  {
    EraseKeepsCore(s, w);
    EraseKeepsRest(s, w);
    EraseKeepsCalls(s, w);
    EraseKeepsAccounts(s, w);
  }

  lemma FreeKeepsCore(s: State, w: nat)
    requires Core(s) && w < |s.phase| && s.phase[w].Freeing?
    ensures Core(Apply(s, Free(w)))
  {
  }

  lemma FreeKeepsRest(s: State, w: nat)
    requires Core(s) && WorkersOk(s) && SlotsOk(s) && FifoOk(s) && StoppedOk(s) && w < |s.phase| && s.phase[w].Freeing?
    ensures var t := Apply(s, Free(w)); WorkersOk(t) && SlotsOk(t) && FifoOk(t) && StoppedOk(t)
  {
  }

  lemma FreeKeepsCalls(s: State, w: nat)
    requires Core(s) && CallsOk(s) && w < |s.phase| && s.phase[w].Freeing?
    ensures CallsOk(Apply(s, Free(w)))
  {
  }

  lemma FreeKeepsAccounts(s: State, w: nat)
    requires Core(s) && AccountsOk(s) && w < |s.phase| && s.phase[w].Freeing?
    ensures AccountsOk(Apply(s, Free(w)))
  {
    forall j: nat | j < |s.fate| ensures Accounted(Apply(s, Free(w)), j) {
      assert Accounted(s, j);
    }
  }

  // ---------------------------------------------------------------- every step

  lemma StepKeepsSafe(s: State, a: Action)
    requires Safe(s) && Enabled(s, a)
    ensures Safe(Apply(s, a))
  {
    match a
    case Add(callback, p) => AddKeeps(s, callback, p);
    case Cancel(id) => CancelKeeps(s, FindTarget(s.m, id, LOW));
    case CancelAll(c) => CancelAllKeeps(s, c);
    case TryNext(w) => TryNextKeeps(s, w);
    case Complete(w) => CompleteKeeps(s, w);
    case Tell(w) => TellKeeps(s, w);
    case Erase(w) => EraseKeeps(s, w);
    case Free(w) =>
      FreeKeepsCore(s, w);
      FreeKeepsRest(s, w);
      FreeKeepsCalls(s, w);
      FreeKeepsAccounts(s, w);
    case _ =>
      QuietKeeps(s, a);
  }

  lemma QuietKeeps(s: State, a: Action)
    requires Safe(s) && Enabled(s, a) && IsQuiet(a)
    ensures Safe(Apply(s, a))
  {
    var t := Apply(s, a);
    QuietStep(s, a);
    QuietKeepsCore(s, t);
    QuietKeepsRest(s, t);
    QuietKeepsCalls(s, t);
    QuietKeepsAccounts(s, t);
    QuietKeepsStopped(s, a);
  }
}
