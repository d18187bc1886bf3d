/** CEvent and CJobManager (airplay/threads/Event.h and Event.cpp, airplay/utils/JobManager.cpp), method by method. */
module JobManager {
  import opened JobQueues
  import opened JobLaws
  import opened Options

  /** CEvent, automatically reset. */
  class Event {
    var signaled: bool
    var numWaits: nat
    const manualReset: bool

    constructor ()
      ensures !signaled && numWaits == 0 && !manualReset
    {
      signaled, numWaits, manualReset := false, 0, false;
    }

    method Set()
      modifies this
      ensures signaled && numWaits == old(numWaits)
    {
      signaled := true;
    }

    method Reset()
      modifies this
      ensures !signaled && numWaits == old(numWaits)
    {
      signaled := false;
    }

    /** WaitMSec up to where the condition variable blocks; `blocked` if it does. */
    method BeginWait() returns (blocked: bool, ret: bool)
      modifies this
      ensures blocked == !old(signaled)
      ensures blocked ==> numWaits == old(numWaits) + 1 && !signaled
      ensures !blocked ==> ret && numWaits == old(numWaits) && signaled == (manualReset || numWaits > 0)
    {
      numWaits := numWaits + 1;
      if signaled {
        numWaits := numWaits - 1;
        ret := PrepReturn();
        return false, ret;
      }
      return true, false;
    }

    /** The rest of WaitMSec, once the condition variable is notified or its time is up. */
    method EndWait() returns (ret: bool)
      requires numWaits > 0
      modifies this
      ensures numWaits == old(numWaits) - 1
      ensures ret == old(signaled) && signaled == (old(signaled) && (manualReset || numWaits > 0))
    {
      numWaits := numWaits - 1;
      ret := PrepReturn();
    }

    method PrepReturn() returns (ret: bool)
      modifies this
      ensures ret == old(signaled) && numWaits == old(numWaits)
      ensures signaled == (old(signaled) && (manualReset || numWaits > 0))
    {
      ret := signaled;
      if !manualReset && numWaits == 0 {
        signaled := false;
      }
    }
  }

  /** Each method is one section under m_section; jobs freed under the lock are returned. */
  class JobManager {
    var jobQueue: seq<seq<WorkItem>>
    var jobPause: seq<bool>
    var processing: seq<WorkItem>
    var workers: seq<nat>
    var running: bool
    var jobCounter: nat
    const jobEvent: Event

    ghost predicate Valid()
      reads this
    {
      |jobQueue| == 3 && |jobPause| == 3 && jobCounter < 0x1_0000_0000
    }

    ghost function View(): Manager
      reads this, jobEvent
    {
      Manager(jobQueue, jobPause, processing, workers, running, jobCounter, jobEvent.signaled, jobEvent.numWaits)
    }

    constructor ()
      ensures Valid() && View() == Initial() && fresh(jobEvent) && !jobEvent.manualReset
      ensures jobQueue == [[], [], []] && jobPause == [false, false, false] && processing == [] && workers == []
      ensures running && jobCounter == 0 && !jobEvent.signaled && jobEvent.numWaits == 0
    {
      jobQueue, processing, workers := [[], [], []], [], [];
      running, jobCounter := true, 0;
      jobPause := [false, false, false];
      jobEvent := new Event();
    }

    method StartWorkers(priority: Priority, newcomer: nat) returns (created: bool)
      requires Valid()
      modifies this, jobEvent
      ensures Valid() && View() == WorkersStarted(old(View()), priority, newcomer)
      ensures created <==> |processing| < priority + 3 && |processing| >= |old(workers)|
      ensures workers == if created then old(workers) + [newcomer] else old(workers)
      ensures jobEvent.signaled == (old(jobEvent.signaled) || (|processing| < priority + 3 && |processing| < |workers| && !created))
    {
      if |processing| >= MaxWorkers(priority) {
        return false;
      }
      if |processing| < |workers| {
        jobEvent.Set();
        return false;
      }
      workers := workers + [newcomer];
      return true;
    }

    method AddJob(job: nat, callback: Option<nat>, priority: Priority, newcomer: nat) returns (id: nat, created: bool)
      requires Valid()
      modifies this, jobEvent
      ensures Valid() && View() == Added(old(View()), job, callback, priority, newcomer)
      ensures id == if !old(running) then 0 else if old(jobCounter) == 0xFFFF_FFFF then 1 else old(jobCounter) + 1
      ensures running ==> jobQueue == old(jobQueue)[priority := old(jobQueue)[priority] + [WorkItem(job, id, callback, priority)]]
      ensures created <==> running && |processing| < priority + 3 && |processing| >= |old(workers)|
    {
      if !running {
        return 0, false;
      }
      jobCounter := (jobCounter + 1) % 0x1_0000_0000;
      if jobCounter == 0 {
        jobCounter := jobCounter + 1;
      }
      var work := WorkItem(job, jobCounter, callback, priority);
      jobQueue := jobQueue[priority := jobQueue[priority] + [work]];
      assert View() == Queued(old(View()), job, callback, priority);
      created := StartWorkers(priority, newcomer);
      return work.id, created;
    }

    /** See JobLaws for where the job is that the id means. */
    method CancelJob(jobID: nat) returns (freed: Option<nat>)
      requires Valid()
      modifies this
      ensures Valid() && View() == Cancelled(old(View()), FindTarget(old(View()), jobID, 0))
      ensures NoneQueued(old(View()), jobID) ==> freed == None && jobQueue == old(jobQueue)
      ensures NoneQueued(old(View()), jobID) ==>
        forall i: nat :: FirstHas(old(processing), i, jobID) ==>
          processing == old(processing)[i := old(processing)[i].(callback := None)]
      ensures forall i: nat :: FirstHas(old(jobQueue)[0], i, jobID) ==> freed == Some(old(jobQueue)[0][i].job)
      ensures var t := FindTarget(old(View()), jobID, 0);
        freed == if t.InQueue? then Some(old(jobQueue)[t.p][t.i].job) else None
    {
      ghost var target := FindTarget(View(), jobID, 0);
      CancelLaws(View(), jobID);
      var priority := 0;
      while priority <= HIGH
        invariant 0 <= priority <= 3 && View() == old(View())
        invariant FindTarget(View(), jobID, priority) == target
      {
        var i := FindById(jobQueue[priority], jobID);
        if i < |jobQueue[priority]| {
          freed := Some(jobQueue[priority][i].job);
          jobQueue := jobQueue[priority := RemoveAt(jobQueue[priority], i)];
          return;
        }
        priority := priority + 1;
      }
      var it := FindById(processing, jobID);
      if it < |processing| {
        processing := processing[it := processing[it].(callback := None)];
      }
      return None;
    }

    /** std::find over work items by id. */
    static method FindById(items: seq<WorkItem>, id: nat) returns (i: nat)
      ensures i == FindId(items, id)
    {
      i := 0;
      while i < |items| && items[i].id != id
        invariant 0 <= i <= |items| && FindId(items, id) == i + FindId(items[i..], id)
      {
        i := i + 1;
      }
    }

    static method FindByJob(items: seq<WorkItem>, job: nat) returns (i: nat)
      ensures i == FindJob(items, job)
    {
      i := 0;
      while i < |items| && items[i].job != job
        invariant 0 <= i <= |items| && FindJob(items, job) == i + FindJob(items[i..], job)
      {
        i := i + 1;
      }
    }

    method PopJob() returns (job: Option<nat>)
      requires Valid()
      modifies this
      ensures Valid() && View() == Popped(old(View())) && job == PoppedJob(old(View()))
      ensures forall p: Priority :: MayStart(old(View()), p) && (forall q: Priority :: q > p ==> !MayStart(old(View()), q)) ==>
        job == Some(old(jobQueue)[p][0].job) && processing == old(processing) + [old(jobQueue)[p][0]]
      ensures (forall p: Priority :: !MayStart(old(View()), p)) ==> job == None && View() == old(View())
    {
      NextIsHighest(View());
      ghost var next := NextPriority(View(), HIGH);
      var priority: int := HIGH;
      while priority >= LOW
        invariant -1 <= priority <= HIGH && View() == old(View())
        invariant NextPriority(View(), priority) == next
      {
        if !jobPause[priority] {
          if |jobQueue[priority]| > 0 && |processing| < MaxWorkers(priority) {
            var item := jobQueue[priority][0];
            jobQueue := jobQueue[priority := jobQueue[priority][1..]];
            processing := processing + [item];
            return Some(item.job);
          }
        }
        priority := priority - 1;
      }
      return None;
    }

    method Pause(priority: Priority)
      requires Valid()
      modifies this
      ensures Valid() && View() == old(View()).(paused := old(jobPause)[priority := true])
    {
      jobPause := jobPause[priority := true];
    }

    method UnPause(priority: Priority)
      requires Valid()
      modifies this
      ensures Valid() && View() == old(View()).(paused := old(jobPause)[priority := false])
    {
      jobPause := jobPause[priority := false];
    }

    /** m_jobEvent.WaitMSec, up to where it blocks. */
    method EnterWait() returns (blocked: bool, newJob: bool)
      requires Valid() && !jobEvent.manualReset
      modifies jobEvent
      ensures Valid() && View() == WaitEntered(old(View()))
      ensures blocked == !old(jobEvent.signaled) && (!blocked ==> newJob)
    {
      blocked, newJob := jobEvent.BeginWait();
    }

    /** And from there on. */
    method LeaveWait() returns (newJob: bool)
      requires Valid() && !jobEvent.manualReset && jobEvent.numWaits > 0
      modifies jobEvent
      ensures Valid() && View() == WaitLeft(old(View())) && newJob == old(jobEvent.signaled)
    {
      newJob := jobEvent.EndWait();
    }

    method IsProcessing(priority: Priority) returns (found: bool)
      ensures found <==> exists i :: 0 <= i < |processing| && processing[i].priority == priority
    {
      var it := 0;
      while it < |processing|
        invariant 0 <= it <= |processing| && forall j :: 0 <= j < it ==> processing[j].priority != priority
      {
        if priority == processing[it].priority {
          return true;
        }
        it := it + 1;
      }
      return false;
    }

    /** Lines 197-207; the jobs to be freed come back in the order they are freed in. */
    method CancelAll() returns (freed: seq<WorkItem>)
      requires Valid()
      modifies this
      ensures Valid() && View() == AllCancelled(old(View()))
      ensures freed == AllQueued(old(jobQueue), 3)
    {
      running := false;
      freed := FreeQueues();
      MuteProcessing();
    }

    method FreeQueues() returns (freed: seq<WorkItem>)
      requires Valid()
      modifies this
      ensures Valid() && View() == old(View()).(queue := [[], [], []]) && freed == AllQueued(old(jobQueue), 3)
    {
      ghost var was := jobQueue;
      freed := [];
      var priority := 0;
      while priority <= HIGH
        invariant 0 <= priority <= 3 && |jobQueue| == 3
        invariant freed == AllQueued(was, priority)
        invariant forall p :: 0 <= p < 3 ==> jobQueue[p] == if p < priority then [] else was[p]
        invariant View() == old(View()).(queue := jobQueue)
      {
        freed := freed + jobQueue[priority];
        jobQueue := jobQueue[priority := []];
        priority := priority + 1;
      }
      assert jobQueue == [[], [], []];
    }

    method MuteProcessing()
      requires Valid()
      modifies this
      ensures Valid() && View() == old(View()).(processing := Muted(old(processing)))
    {
      ghost var was := processing;
      var it := 0;
      while it < |processing|
        invariant 0 <= it <= |processing| == |was|
        invariant forall i :: 0 <= i < |was| ==> processing[i] == if i < it then was[i].(callback := None) else was[i]
        invariant View() == old(View()).(processing := processing)
      {
        processing := processing[it := processing[it].(callback := None)];
        it := it + 1;
      }
      assert processing == Muted(was);
    }

    method RemoveWorker(worker: nat)
      modifies this
      ensures View() == WorkerRemoved(old(View()), worker)
      ensures jobQueue == old(jobQueue) && jobPause == old(jobPause)
    {
      var i := 0;
      while i < |workers| && workers[i] != worker
        invariant 0 <= i <= |workers| && View() == old(View())
        invariant FindWorker(workers, worker) == i + FindWorker(workers[i..], worker)
      {
        i := i + 1;
      }
      if i < |workers| {
        workers := RemoveAt(workers, i);
      }
    }

    /** Lines 351-358 (again) and 361-372, between two waits. */
    method TryNextJob(worker: nat, again: bool) returns (job: Option<nat>)
      requires Valid()
      modifies this
      ensures Valid() && View() == NextJob(old(View()), worker, again) && job == PoppedJob(old(View()))
    {
      if again && running {
        job := PopJob();
        return;
      }
      job := PopJob();
      if job.None? {
        RemoveWorker(worker);
      }
    }

    /** Lines 395-402: the item to tell the listener about. */
    method CompletedItem(job: nat) returns (item: Option<WorkItem>)
      ensures item == (var i := FindJob(processing, job); if i < |processing| then Some(processing[i]) else None)
    {
      var i := FindByJob(processing, job);
      if i < |processing| {
        return Some(processing[i]);
      }
      return None;
    }

    /** Lines 417-421. */
    method EraseCompleted(job: nat)
      requires Valid()
      modifies this
      ensures Valid() && View() == Erased(old(View()), job)
    {
      var j := FindByJob(processing, job);
      if j < |processing| {
        processing := RemoveAt(processing, j);
      }
    }
  }
}
