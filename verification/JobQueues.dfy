/**
  What CJobManager (airplay/utils/JobManager.cpp) keeps under its lock, and what each locked section does to it.
  Its event is a CEvent (airplay/threads/Event.h, lines 44-99).
*/
module JobQueues {
  import opened Options

  /** PRIORITY_LOW, PRIORITY_NORMAL, PRIORITY_HIGH */
  type Priority = p: int | 0 <= p <= 2

  const LOW: Priority := 0
  const HIGH: Priority := 2
  const MAX_WORKERS := 5

  /** CWorkItem: a job, and whom to tell when it completes (None for a null pointer). */
  datatype WorkItem = WorkItem(job: nat, id: nat, callback: Option<nat>, priority: Priority)

  datatype Manager = Manager(
    queue: seq<seq<WorkItem>>, paused: seq<bool>, processing: seq<WorkItem>, workers: seq<nat>,
    running: bool, counter: nat, signaled: bool, waits: nat)
  {
    predicate WellShaped() {
      |queue| == 3 && |paused| == 3
    }
  }

  function Initial(): Manager {
    Manager([[], [], []], [false, false, false], [], [], true, 0, false, 0)
  }

  /** GetMaxWorkers */
  function MaxWorkers(p: Priority): nat {
    MAX_WORKERS - (HIGH - p)
  }

  // ---------------------------------------------------------------- std::find and erase

  function FindJob(items: seq<WorkItem>, job: nat): (i: nat)
    ensures i <= |items| && (i < |items| ==> items[i].job == job)
    ensures forall j :: 0 <= j < i ==> items[j].job != job
  {
    if items == [] || items[0].job == job then 0 else 1 + FindJob(items[1..], job)
  }

  function FindId(items: seq<WorkItem>, id: nat): (i: nat)
    ensures i <= |items| && (i < |items| ==> items[i].id == id)
    ensures forall j :: 0 <= j < i ==> items[j].id != id
  {
    if items == [] || items[0].id == id then 0 else 1 + FindId(items[1..], id)
  }

  function FindWorker(workers: seq<nat>, w: nat): (i: nat)
    ensures i <= |workers| && (i < |workers| ==> workers[i] == w)
    ensures forall j :: 0 <= j < i ==> workers[j] != w
  {
    if workers == [] || workers[0] == w then 0 else 1 + FindWorker(workers[1..], w)
  }

  function RemoveAt<T>(s: seq<T>, i: nat): (r: seq<T>)
    ensures |r| == if i < |s| then |s| - 1 else |s|
    ensures forall k :: 0 <= k < |r| ==> r[k] == if k < i then s[k] else s[k + 1]
  {
    if i < |s| then s[..i] + s[i + 1..] else s
  }

  // ---------------------------------------------------------------- the locked sections

  /** Whether PopJob would take a job of this priority. */
  predicate CanPop(m: Manager, p: Priority)
    requires m.WellShaped()
  {
    !m.paused[p] && m.queue[p] != [] && |m.processing| < MaxWorkers(p)
  }

  /** The first priority, from `p` down, that PopJob would take a job of; -1 for none. */
  function NextPriority(m: Manager, p: int): (r: int)
    requires m.WellShaped() && -1 <= p <= 2
    ensures -1 <= r <= p && (r >= 0 ==> CanPop(m, r))
    ensures forall q :: r < q <= p ==> !CanPop(m, q)
  {
    if p < 0 || CanPop(m, p) then p else NextPriority(m, p - 1)
  }

  /** The oldest job of a priority moves to the processing list. */
  function PoppedFrom(m: Manager, p: Priority): Manager
    requires m.WellShaped() && m.queue[p] != []
  {
    m.(queue := m.queue[p := m.queue[p][1..]], processing := m.processing + [m.queue[p][0]])
  }

  /** PopJob */
  function Popped(m: Manager): Manager
    requires m.WellShaped()
  {
    var p := NextPriority(m, HIGH);
    if p < 0 then m else PoppedFrom(m, p)
  }

  function PoppedJob(m: Manager): Option<nat>
    requires m.WellShaped()
  {
    var p := NextPriority(m, HIGH);
    if p < 0 then None else Some(m.queue[p][0].job)
  }

  predicate NeedsWorker(m: Manager, p: Priority) {
    |m.processing| < MaxWorkers(p) && |m.processing| >= |m.workers|
  }

  /** StartWorkers; `newcomer` is the worker it creates if everyone is busy. */
  function WorkersStarted(m: Manager, p: Priority, newcomer: nat): Manager {
    if |m.processing| >= MaxWorkers(p) then m
    else if |m.processing| < |m.workers| then m.(signaled := true)
    else m.(workers := m.workers + [newcomer])
  }

  /** The counter is 32 bits wide and skips 0. */
  function NextId(counter: nat): (id: nat)
    ensures 0 < id < 0x1_0000_0000
  {
    var next := (counter + 1) % 0x1_0000_0000;
    if next == 0 then 1 else next
  }

  function Queued(m: Manager, job: nat, callback: Option<nat>, p: Priority): Manager
    requires m.WellShaped()
  {
    var id := NextId(m.counter);
    m.(counter := id, queue := m.queue[p := m.queue[p] + [WorkItem(job, id, callback, p)]])
  }

  /** AddJob */
  function Added(m: Manager, job: nat, callback: Option<nat>, p: Priority, newcomer: nat): Manager
    requires m.WellShaped()
  {
    if !m.running then m else WorkersStarted(Queued(m, job, callback, p), p, newcomer)
  }

  /** Where CancelJob finds an id: in the lowest queue that has it, else among the jobs being processed. */
  datatype Target = InQueue(p: Priority, i: nat) | InProcessing(i: nat) | Nowhere

  function FindTarget(m: Manager, id: nat, p: int): (t: Target)
    requires m.WellShaped() && 0 <= p <= 3
    ensures t.InQueue? ==> t.i < |m.queue[t.p]| && m.queue[t.p][t.i].id == id
    ensures t.InProcessing? ==> t.i < |m.processing| && m.processing[t.i].id == id
    decreases 3 - p
  {
    if p == 3 then
      var i := FindId(m.processing, id);
      if i < |m.processing| then InProcessing(i) else Nowhere
    else
      var i := FindId(m.queue[p], id);
      if i < |m.queue[p]| then InQueue(p, i) else FindTarget(m, id, p + 1)
  }

  /** CancelJob: a queued job is dropped, a running one loses its callback. */
  function Cancelled(m: Manager, t: Target): Manager
    requires m.WellShaped()
    requires t.InQueue? ==> t.i < |m.queue[t.p]|
    requires t.InProcessing? ==> t.i < |m.processing|
  {
    match t
    case InQueue(p, i) => m.(queue := m.queue[p := RemoveAt(m.queue[p], i)])
    case InProcessing(i) => m.(processing := m.processing[i := m.processing[i].(callback := None)])
    case Nowhere => m
  }

  function Muted(items: seq<WorkItem>): (r: seq<WorkItem>)
    ensures |r| == |items| && forall i :: 0 <= i < |r| ==> r[i] == items[i].(callback := None)
  {
    seq(|items|, i requires 0 <= i < |items| => items[i].(callback := None))
  }

  /** The jobs of the first `n` queues, one queue after the other. */
  function AllQueued(queue: seq<seq<WorkItem>>, n: nat): seq<WorkItem>
    requires n <= |queue|
  {
    if n == 0 then [] else AllQueued(queue, n - 1) + queue[n - 1]
  }

  /** The first locked section of CancelJobs. */
  function AllCancelled(m: Manager): Manager {
    m.(running := false, queue := [[], [], []], processing := Muted(m.processing))
  }

  /** RemoveWorker */
  function WorkerRemoved(m: Manager, w: nat): Manager {
    m.(workers := RemoveAt(m.workers, FindWorker(m.workers, w)))
  }

  /** GetNextJob, while it holds the lock: `again` if the loop is (re-)entered, else the last attempt behind it. */
  function NextJob(m: Manager, w: nat, again: bool): Manager
    requires m.WellShaped()
  {
    if PoppedJob(m).Some? then Popped(m) else if again && m.running then m else WorkerRemoved(m, w)
  }

  /** The second locked section of OnJobComplete. */
  function Erased(m: Manager, job: nat): Manager {
    m.(processing := RemoveAt(m.processing, FindJob(m.processing, job)))
  }

  /** WaitMSec up to the point where it blocks or returns. */
  function WaitEntered(m: Manager): Manager {
    if m.signaled then m.(signaled := m.waits > 0) else m.(waits := m.waits + 1)
  }

  /** The end of a wait, signalled or timed out: the last one out resets the event. */
  function WaitLeft(m: Manager): Manager {
    var waits := if m.waits > 0 then m.waits - 1 else 0;
    m.(waits := waits, signaled := m.signaled && waits > 0)
  }
}
