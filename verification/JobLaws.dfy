/**
  What the sections under the lock of airplay/utils/JobManager.cpp do, said of ids, positions and numbers alone: which job
  CancelJob means, which job GetNextJob takes, and what AddJob leaves.
*/
module JobLaws {
  import opened JobQueues
  import opened Options

  // ---------------------------------------------------------------- CancelJob

  predicate NoneHas(items: seq<WorkItem>, id: nat) {
    forall i :: 0 <= i < |items| ==> items[i].id != id
  }

  /** The first item with an id, and where it stands. */
  predicate FirstHas(items: seq<WorkItem>, i: nat, id: nat) {
    i < |items| && items[i].id == id && forall j :: 0 <= j < i ==> items[j].id != id
  }

  predicate NoneQueued(m: Manager, id: nat)
    requires m.WellShaped()
  {
    NoneHas(m.queue[0], id) && NoneHas(m.queue[1], id) && NoneHas(m.queue[2], id)
  }

  lemma FindIdIs(items: seq<WorkItem>, id: nat)
    ensures FindId(items, id) == |items| <==> NoneHas(items, id)
    ensures forall i: nat :: FirstHas(items, i, id) <==> FindId(items, id) == i < |items|
  {
    var k := FindId(items, id);
    assert k < |items| ==> FirstHas(items, k, id);
  }

  /** CancelJob means a queued job if there is one with the id: the first in the queue of lowest priority that has it. */
  lemma QueuedTarget(m: Manager, id: nat, p: Priority, i: nat)
    requires m.WellShaped()
    ensures FindTarget(m, id, 0) == InQueue(p, i)
      <==> FirstHas(m.queue[p], i, id) && (p > 0 ==> NoneHas(m.queue[0], id)) && (p > 1 ==> NoneHas(m.queue[1], id))
  {
    FindIdIs(m.queue[0], id);
    FindIdIs(m.queue[1], id);
    FindIdIs(m.queue[2], id);
    assert FindTarget(m, id, 1) == if FindId(m.queue[1], id) < |m.queue[1]| then InQueue(1, FindId(m.queue[1], id)) else FindTarget(m, id, 2);
  }

  /** With none queued it means the first running one, and nothing exactly if there is none either. */
  lemma RunningTarget(m: Manager, id: nat, i: nat)
    requires m.WellShaped()
    ensures FindTarget(m, id, 0) == InProcessing(i) <==> NoneQueued(m, id) && FirstHas(m.processing, i, id)
    ensures FindTarget(m, id, 0) == Nowhere <==> NoneQueued(m, id) && NoneHas(m.processing, id)
  {
    FindIdIs(m.queue[0], id);
    FindIdIs(m.queue[1], id);
    FindIdIs(m.queue[2], id);
    FindIdIs(m.processing, id);
    assert FindTarget(m, id, 1) == if FindId(m.queue[1], id) < |m.queue[1]| then InQueue(1, FindId(m.queue[1], id)) else FindTarget(m, id, 2);
    assert FindTarget(m, id, 2) == if FindId(m.queue[2], id) < |m.queue[2]| then InQueue(2, FindId(m.queue[2], id)) else FindTarget(m, id, 3);
  }

  /** A queued job leaves its queue, and nothing else changes. */
  lemma CancelQueued(m: Manager, id: nat, p: Priority, i: nat)
    requires m.WellShaped() && FirstHas(m.queue[p], i, id)
    requires (p > 0 ==> NoneHas(m.queue[0], id)) && (p > 1 ==> NoneHas(m.queue[1], id))
    ensures Cancelled(m, FindTarget(m, id, 0)) == m.(queue := m.queue[p := m.queue[p][..i] + m.queue[p][i + 1..]])
  {
    QueuedTarget(m, id, p, i);
  }

  /** A running one loses its callback, and nothing else changes; with an id that nobody has nothing does. */
  lemma CancelRunning(m: Manager, id: nat)
    requires m.WellShaped() && NoneQueued(m, id)
    ensures forall i: nat :: FirstHas(m.processing, i, id) ==>
      Cancelled(m, FindTarget(m, id, 0)) == m.(processing := m.processing[i := m.processing[i].(callback := None)])
    ensures NoneHas(m.processing, id) ==> Cancelled(m, FindTarget(m, id, 0)) == m
  {
    forall i: nat | FirstHas(m.processing, i, id)
      ensures Cancelled(m, FindTarget(m, id, 0)) == m.(processing := m.processing[i := m.processing[i].(callback := None)])
    {
      RunningTarget(m, id, i);
    }
    RunningTarget(m, id, 0);
  }

  lemma CancelLaws(m: Manager, id: nat)
    requires m.WellShaped()
    ensures forall i: nat :: FirstHas(m.queue[0], i, id) ==> FindTarget(m, id, 0) == InQueue(0, i)
    ensures NoneQueued(m, id) ==> !FindTarget(m, id, 0).InQueue?
    ensures NoneQueued(m, id) ==> forall i: nat :: FirstHas(m.processing, i, id) ==> FindTarget(m, id, 0) == InProcessing(i)
  {
    forall i: nat ensures FirstHas(m.queue[0], i, id) ==> FindTarget(m, id, 0) == InQueue(0, i) {
      QueuedTarget(m, id, 0, i);
    }
    forall i: nat ensures NoneQueued(m, id) && FirstHas(m.processing, i, id) ==> FindTarget(m, id, 0) == InProcessing(i) {
      RunningTarget(m, id, i);
    }
    RunningTarget(m, id, 0);
    if NoneQueued(m, id) && !NoneHas(m.processing, id) {
      FindIdIs(m.processing, id);
      RunningTarget(m, id, FindId(m.processing, id));
    }
  }

  // ---------------------------------------------------------------- GetNextJob

  /** A job of priority 0, 1 or 2 can start while fewer than 3, 4 or 5 are running. */
  predicate MayStart(m: Manager, p: Priority)
    requires m.WellShaped()
  {
    !m.paused[p] && |m.queue[p]| > 0 && |m.processing| < p + 3
  }

  lemma NextIsHighest(m: Manager)
    requires m.WellShaped()
    ensures NextPriority(m, 2) == if MayStart(m, 2) then 2 else if MayStart(m, 1) then 1 else if MayStart(m, 0) then 0 else -1
  {
    assert NextPriority(m, 1) == if CanPop(m, 1) then 1 else NextPriority(m, 0);
  }

  /** The first job of the highest priority that may start moves behind those running. */
  lemma PopTakesFirst(m: Manager, p: Priority)
    requires m.WellShaped() && MayStart(m, p) && forall q: Priority :: q > p ==> !MayStart(m, q)
    ensures PoppedJob(m) == Some(m.queue[p][0].job)
    ensures Popped(m) == m.(queue := m.queue[p := m.queue[p][1..]], processing := m.processing + [m.queue[p][0]])
  {
    NextIsHighest(m);
  }

  lemma PopTakesNothing(m: Manager)
    requires m.WellShaped() && forall q: Priority :: !MayStart(m, q)
    ensures PoppedJob(m) == None && Popped(m) == m
  {
    NextIsHighest(m);
  }

  // ---------------------------------------------------------------- AddJob

  /** A job goes behind those of its priority, under the next number of 32 bits that is not 0. */
  lemma AddQueuesLast(m: Manager, job: nat, callback: Option<nat>, p: Priority, newcomer: nat)
    requires m.WellShaped() && m.running && m.counter <= 0xFFFF_FFFF
    ensures var t, id := Added(m, job, callback, p, newcomer), if m.counter == 0xFFFF_FFFF then 1 else m.counter + 1;
      && t.queue == m.queue[p := m.queue[p] + [WorkItem(job, id, callback, p)]] && t.counter == id
      && t.paused == m.paused && t.processing == m.processing && t.running && t.waits == m.waits
  {
  }

  /**
    If a slot is left for it, a worker that is free is signalled; without one a new worker is started; and else nothing.
  */
  lemma AddFindsWorker(m: Manager, job: nat, callback: Option<nat>, p: Priority, newcomer: nat)
    requires m.WellShaped() && m.running
    ensures var t := Added(m, job, callback, p, newcomer);
      && (|m.processing| >= p + 3 ==> t.workers == m.workers && t.signaled == m.signaled)
      && (|m.processing| < p + 3 && |m.processing| < |m.workers| ==> t.workers == m.workers && t.signaled)
      && (|m.processing| < p + 3 && |m.processing| >= |m.workers| ==>
            t.workers == m.workers + [newcomer] && t.signaled == m.signaled)
  {
  }

  lemma StoppedAddsNothing(m: Manager, job: nat, callback: Option<nat>, p: Priority, newcomer: nat)
    requires m.WellShaped() && !m.running
    ensures Added(m, job, callback, p, newcomer) == m
  {
  }
}
