/**
  CancelJobs (airplay/utils/JobManager.cpp, lines 194-218) waits until every worker has gone.  Nothing stands in the way of
  that: wherever the workers are, their own steps lead them out, and then it returns.
*/
module JobShutdown {
  import opened JobQueues
  import opened JobSystem
  import opened JobSafety
  import opened JobPaths
  import opened JobTheorems

  /** A worker's step, or one of client `c` in its loop. */
  ghost predicate IsNeeded(a: Action, c: nat) {
    (exists w :: IsStepOf(a, w)) || a == SetEvent(c) || a == CheckWorkers(c)
  }

  /** From `s` to `t` by steps of workers and of client `c`. */
  ghost predicate Leads(states: seq<State>, actions: seq<Action>, s: State, t: State, c: nat) {
    && IsPath(states, actions) && states[0] == s && states[|actions|] == t
    && forall i :: 0 <= i < |actions| ==> IsNeeded(actions[i], c)
  }

  lemma LeadsOn(states: seq<State>, actions: seq<Action>, s: State, t: State, more: seq<State>, steps: seq<Action>, u: State, c: nat)
    requires Leads(states, actions, s, t, c) && Leads(more, steps, t, u, c)
    ensures Leads(states + more[1..], actions + steps, s, u, c)
  {
    PathsJoin(states, actions, more, steps);
  }

  lemma OneStepLeads(s: State, a: Action, c: nat)
    requires Enabled(s, a) && IsNeeded(a, c)
    ensures Leads([s, Apply(s, a)], [a], s, Apply(s, a), c)
  {
  }

  /** The manager has been stopped, and client `c` waits for its workers. */
  ghost predicate Stopping(s: State, c: nat) {
    Safe(s) && !s.m.running && c in s.clients
  }

  lemma StoppedTakesNoJob(s: State)
    requires Safe(s) && !s.m.running
    ensures NextPriority(s.m, HIGH) == -1
  {
    assert s.m.queue[0] == [] && s.m.queue[1] == [] && s.m.queue[2] == [];
  }

  lemma OnTheWayOut(s: State, w: nat)
    requires Safe(s) && !s.m.running && w in s.m.workers && Distance(s.phase[w]) > 0
    ensures var a := NextStep(s.phase[w], w); Enabled(s, a) && IsStepOf(a, w)
    ensures var t := Apply(s, NextStep(s.phase[w], w));
      && !t.m.running && t.clients == s.clients && t.m.workers == s.m.workers && w < |t.phase|
      && Distance(t.phase[w]) < Distance(s.phase[w])
  {
  }

  /** With nothing queued and the manager stopped, a worker that looks for a job leaves. */
  lemma Out(s: State, w: nat)
    requires Safe(s) && !s.m.running && w in s.m.workers && Distance(s.phase[w]) == 0
    ensures Enabled(s, TryNext(w))
    ensures var t := Apply(s, TryNext(w));
      !t.m.running && t.clients == s.clients && |t.m.workers| == |s.m.workers| - 1
  {
    StoppedTakesNoJob(s);
    VisitedWorker(s.m.workers, w);
    assert Apply(s, TryNext(w)) == AfterNoJob(s, w, Again(s.phase[w]));
  }

  lemma VisitedWorker(workers: seq<nat>, w: nat)
    requires w in workers
    ensures FindWorker(workers, w) < |workers|
  {
  }

  lemma StoppingStep(s: State, w: nat, c: nat) returns (a: Action, t: State)
    requires Stopping(s, c) && w in s.m.workers
    ensures Enabled(s, a) && IsNeeded(a, c) && t == Apply(s, a) && Stopping(t, c)
    ensures if Distance(s.phase[w]) == 0 then |t.m.workers| == |s.m.workers| - 1
            else t.m.workers == s.m.workers && w < |t.phase| && Distance(t.phase[w]) < Distance(s.phase[w])
  {
    a := NextStep(s.phase[w], w);
    if Distance(s.phase[w]) == 0 {
      assert !s.phase[w].Exited?;
      Out(s, w);
    } else {
      OnTheWayOut(s, w);
    }
    assert IsStepOf(a, w);
    t := Apply(s, a);
    StepIsSafe(s, a, t);
  }

  /** Any worker leaves with at most five steps of its own. */
  lemma {:induction false} WorkerLeaves(s: State, w: nat, c: nat) returns (states: seq<State>, actions: seq<Action>, t: State)
    requires Stopping(s, c) && w in s.m.workers
    ensures Leads(states, actions, s, t, c) && Stopping(t, c)
    ensures |t.m.workers| == |s.m.workers| - 1 && |actions| <= Distance(s.phase[w]) + 1 <= 5
    decreases Distance(s.phase[w])
  {
    var a, next := StoppingStep(s, w, c);
    OneStepLeads(s, a, c);
    if Distance(s.phase[w]) == 0 {
      states, actions, t := [s, next], [a], next;
    } else {
      var more, steps;
      more, steps, t := WorkerLeaves(next, w, c);
      LeadsOn([s, next], [a], s, next, more, steps, t, c);
      states, actions := [s, next] + more[1..], [a] + steps;
    }
  }

  lemma {:induction false} AllLeave(s: State, c: nat) returns (states: seq<State>, actions: seq<Action>, t: State)
    requires Stopping(s, c)
    ensures Leads(states, actions, s, t, c) && Stopping(t, c) && t.m.workers == [] && |actions| <= 5 * |s.m.workers|
    decreases |s.m.workers|
  {
    if s.m.workers == [] {
      states, actions, t := [s], [], s;
    } else {
      var next;
      states, actions, next := WorkerLeaves(s, s.m.workers[0], c);
      var more, steps;
      more, steps, t := AllLeave(next, c);
      LeadsOn(states, actions, s, next, more, steps, t, c);
      states, actions := states + more[1..], actions + steps;
    }
  }

  /** Without workers the loop of CancelJobs ends, after setting the event if it was about to. */
  lemma LoopEnds(s: State, c: nat) returns (states: seq<State>, actions: seq<Action>, t: State)
    requires Stopping(s, c) && s.m.workers == []
    ensures Leads(states, actions, s, t, c) && |actions| <= 2 && t.returned && c !in t.clients && t.m.workers == []
  {
    if s.clients[c].Setting? {
      var next := Apply(s, SetEvent(c));
      OneStepLeads(s, SetEvent(c), c);
      t := Apply(next, CheckWorkers(c));
      OneStepLeads(next, CheckWorkers(c), c);
      LeadsOn([s, next], [SetEvent(c)], s, next, [next, t], [CheckWorkers(c)], t, c);
      states, actions := [s, next] + [next, t][1..], [SetEvent(c)] + [CheckWorkers(c)];
    } else {
      t := Apply(s, CheckWorkers(c));
      OneStepLeads(s, CheckWorkers(c), c);
      states, actions := [s, t], [CheckWorkers(c)];
    }
  }

  /**
    From every state of every run with a client in CancelJobs, at most 27 steps, of workers and of that client alone, lead
    to its return: no client has to add, cancel or signal anything.
  */
  lemma CancelJobsCanReturn(states: seq<State>, actions: seq<Action>, i: nat, c: nat)
    returns (more: seq<State>, steps: seq<Action>, t: State)
    requires IsRun(states, actions) && i < |states| && c in states[i].clients
    ensures Leads(more, steps, states[i], t, c) && |steps| <= 27
    ensures t.returned && c !in t.clients && t.m.workers == []
  {
    var s := states[i];
    RunIsSafe(states, actions, i);
    assert Stopping(s, c);
    var next;
    more, steps, next := AllLeave(s, c);
    var ending, last;
    ending, last, t := LoopEnds(next, c);
    LeadsOn(more, steps, s, next, ending, last, t, c);
    more, steps := more + ending[1..], steps + last;
  }
}
