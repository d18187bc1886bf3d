/**
  UnPause (airplay/utils/JobManager.cpp, lines 313-317) neither signals the event nor starts a worker.  When that leaves
  a job with nobody to run it, and when it does not.
*/
module JobUnPause {
  import opened JobQueues
  import opened Options
  import opened JobSystem
  import opened JobSafety
  import opened JobPaths
  import opened JobTheorems

  /** A queue that is not paused has a job. */
  ghost predicate JobWaits(m: Manager)
    requires m.WellShaped()
  {
    exists p :: 0 <= p < 3 && !m.paused[p] && m.queue[p] != []
  }

  /** A job waits and no worker can take another step: without a client it waits for ever. */
  ghost predicate Abandoned(s: State) {
    s.m.WellShaped() && JobWaits(s.m) && forall a, w :: IsStepOf(a, w) ==> !Enabled(s, a)
  }

  /** What a caller of UnPause can see under the lock. */
  predicate MayUnPause(m: Manager, p: Priority)
    requires m.WellShaped()
  {
    m.queue[p] == [] || m.workers != []
  }

  // ---------------------------------------------------------------- who can still take a step

  lemma StuckIffNoWorkers(s: State)
    requires Safe(s)
    ensures (forall a, w :: IsStepOf(a, w) ==> !Enabled(s, a)) <==> s.m.workers == []
  {
    if s.m.workers != [] {
      var w := s.m.workers[0];
      assert w in s.m.workers;
      NextStepIsEnabled(s, w);
    } else {
      forall a, w | IsStepOf(a, w) ensures !Enabled(s, a) {
        assert w !in s.m.workers;
      }
    }
  }

  // ---------------------------------------------------------------- steps other than UnPause

  ghost predicate Served(s: State)
    requires s.m.WellShaped()
  {
    JobWaits(s.m) ==> s.m.workers != []
  }

  lemma AddServes(s: State, callback: Option<nat>, p: Priority)
    requires Safe(s) && Served(s)
    ensures Served(AfterAdd(s, callback, p))
  {
    if s.m.running && s.m.processing != [] {
      RunningNeedsWorker(s, 0);
    }
  }

  /** A worker retires from a waiting job only if another worker is running one. */
  lemma RetiringServes(s: State, w: nat)
    requires Safe(s) && Enabled(s, TryNext(w)) && NextPriority(s.m, HIGH) < 0 && JobWaits(s.m)
    ensures WorkerRemoved(s.m, w).workers != []
  {
    NoJobMeansBusy(s.m);
    RunningNeedsWorker(s, 0);
    var job := s.m.processing[0].job;
    assert job < |s.fate| && s.fate[job].Running? && HeldJob(s.phase[s.fate[job].w]) == Some(job);
    RemovedWorker(s.m.workers, w, Holder(s, 0));
  }

  lemma TryNextServes(s: State, w: nat)
    requires Safe(s) && Served(s) && Enabled(s, TryNext(w))
    ensures Served(AfterTryNext(s, w))
  {
    var p, t := NextPriority(s.m, HIGH), AfterTryNext(s, w);
    if JobWaits(t.m) {
      if p >= 0 {
        assert CanPop(s.m, p);
      } else {
        var q :| 0 <= q < 3 && !t.m.paused[q] && t.m.queue[q] != [];
        assert !s.m.paused[q] && s.m.queue[q] != [];
        RetiringServes(s, w);
      }
    }
  }

  lemma CancelServes(s: State, t: Target)
    requires s.m.WellShaped() && Served(s)
    requires t.InQueue? ==> t.i < |s.m.queue[t.p]|
    requires t.InProcessing? ==> t.i < |s.m.processing|
    ensures Served(AfterCancel(s, t))
  {
    if t.InQueue? {
      assert s.m.queue[t.p] != [];
    }
  }

  lemma CancelAllServes(s: State, c: nat)
    requires s.m.WellShaped()
    ensures Served(AfterCancelAll(s, c))
  {
  }

  lemma OtherServes(s: State, a: Action)
    requires Enabled(s, a) && Served(s)
    requires !a.Add? && !a.TryNext? && !a.Cancel? && !a.CancelAll? && !a.UnPause?
    ensures Apply(s, a).m.WellShaped() && Served(Apply(s, a))
  {
  }

  lemma StepServes(s: State, a: Action)
    requires Safe(s) && Enabled(s, a) && !a.UnPause? && Served(s)
    ensures Apply(s, a).m.WellShaped() && Served(Apply(s, a))
  {
    match a
    case Add(callback, p) => AddServes(s, callback, p);
    case TryNext(w) => TryNextServes(s, w);
    case Cancel(id) => CancelServes(s, FindTarget(s.m, id, LOW));
    case CancelAll(c) => CancelAllServes(s, c);
    case _ => OtherServes(s, a);
  }

  lemma UnPauseServesIff(s: State, p: Priority)
    requires s.m.WellShaped() && Served(s)
    ensures var t := Apply(s, UnPause(p)); t.m.WellShaped() && (Served(t) <==> MayUnPause(s.m, p))
  {
    var t := Apply(s, UnPause(p));
    if s.m.queue[p] != [] {
      assert !t.m.paused[p];
    } else if JobWaits(t.m) {
      var q :| 0 <= q < 3 && !t.m.paused[q] && t.m.queue[q] != [];
      assert !s.m.paused[q] && s.m.queue[q] != [];
    }
  }

  // ---------------------------------------------------------------- every run

  predicate Careful(s: State, a: Action) {
    a.UnPause? ==> s.m.WellShaped() && MayUnPause(s.m, a.p)
  }

  /** Every UnPause among the first `i` steps found its queue empty or a worker registered. */
  predicate CarefulUpTo(states: seq<State>, actions: seq<Action>, i: nat) {
    i <= |actions| < |states| && forall k :: 0 <= k < i ==> Careful(states[k], actions[k])
  }

  lemma SafeIsAbandonedIff(s: State)
    requires Safe(s)
    ensures Abandoned(s) <==> !Served(s)
  {
    StuckIffNoWorkers(s);
  }

  lemma NextIsServed(s: State, a: Action, t: State)
    requires Safe(s) && Enabled(s, a) && t == Apply(s, a) && Served(s)
    ensures t.m.WellShaped() && (Served(t) <==> Careful(s, a))
  {
    if a.UnPause? {
      UnPauseServesIff(s, a.p);
    } else {
      StepServes(s, a);
    }
  }

  lemma NextIsAbandonedIff(states: seq<State>, actions: seq<Action>, i: nat)
    requires IsRun(states, actions) && i < |actions| && !Abandoned(states[i])
    ensures !Abandoned(states[i + 1]) <==> Careful(states[i], actions[i])
  {
    RunIsSafe(states, actions, i);
    RunIsSafe(states, actions, i + 1);
    SafeIsAbandonedIff(states[i]);
    SafeIsAbandonedIff(states[i + 1]);
    NextIsServed(states[i], actions[i], states[i + 1]);
  }

  lemma FirstIsNotAbandoned(s: State)
    requires Init(s)
    ensures !Abandoned(s)
  {
  }

  /**
    In a run no job is ever abandoned exactly if every UnPause came when its queue was empty or a worker was registered.
  */
  lemma {:induction false} NoJobIsAbandonedIff(states: seq<State>, actions: seq<Action>, i: nat)
    requires IsRun(states, actions) && i < |states|
    ensures (forall k :: 0 <= k <= i ==> !Abandoned(states[k])) <==> CarefulUpTo(states, actions, i)
  {
    if i == 0 {
      FirstIsNotAbandoned(states[0]);
    } else {
      NoJobIsAbandonedIff(states, actions, i - 1);
      if !Abandoned(states[i - 1]) {
        NextIsAbandonedIff(states, actions, i - 1);
      }
      if CarefulUpTo(states, actions, i) {
        assert CarefulUpTo(states, actions, i - 1) && Careful(states[i - 1], actions[i - 1]);
      }
    }
  }

  // ---------------------------------------------------------------- a worker that is left takes the job

  /** A job of priority `p` waits and there is a slot for it. */
  predicate HasRoom(m: Manager, p: Priority) {
    m.WellShaped() && CanPop(m, p)
  }

  /** Steps of worker `w` alone that lead from `s` to a state in which it runs one job more than have been started in `s`. */
  ghost predicate TakesJob(states: seq<State>, actions: seq<Action>, s: State, w: nat) {
    && IsPath(states, actions) && states[0] == s
    && (forall i :: 0 <= i < |actions| ==> IsStepOf(actions[i], w))
    && var t := states[|actions|];
       |t.started| == |s.started| + 1 && w < |t.phase| && t.phase[w] == Working(t.started[|s.started|].job)
  }

  /** A step towards looking for a job leaves the room there is. */
  lemma OwnStep(s: State, w: nat, p: Priority)
    requires Safe(s) && HasRoom(s.m, p) && w in s.m.workers && Distance(s.phase[w]) > 0
    ensures Enabled(s, NextStep(s.phase[w], w))
    ensures var t := Apply(s, NextStep(s.phase[w], w));
      && HasRoom(t.m, p) && w in t.m.workers && w < |t.phase| && t.started == s.started
      && Distance(t.phase[w]) < Distance(s.phase[w])
  {
    if s.phase[w].Leaving? || s.phase[w].Asleep? {
      WaitingStep(s, w, p);
    } else {
      WorkingStep(s, w, p);
    }
  }

  lemma WaitingStep(s: State, w: nat, p: Priority)
    requires HasRoom(s.m, p) && w in s.m.workers && w < |s.phase| && (s.phase[w].Leaving? || s.phase[w].Asleep?)
    ensures Enabled(s, NextStep(s.phase[w], w))
    ensures var t := Apply(s, NextStep(s.phase[w], w));
      && HasRoom(t.m, p) && w in t.m.workers && w < |t.phase| && t.started == s.started
      && Distance(t.phase[w]) < Distance(s.phase[w])
  {
  }

  lemma WorkingStep(s: State, w: nat, p: Priority)
    requires HasRoom(s.m, p) && w in s.m.workers && w < |s.phase|
    requires s.phase[w].Working? || s.phase[w].Telling? || s.phase[w].Told? || s.phase[w].Freeing?
    ensures Enabled(s, NextStep(s.phase[w], w))
    ensures var t := Apply(s, NextStep(s.phase[w], w));
      && HasRoom(t.m, p) && w in t.m.workers && w < |t.phase| && t.started == s.started
      && Distance(t.phase[w]) < Distance(s.phase[w])
  {
  }

  lemma LastStep(s: State, w: nat, p: Priority)
    requires Safe(s) && HasRoom(s.m, p) && w in s.m.workers && Distance(s.phase[w]) == 0
    ensures Enabled(s, TryNext(w)) && TakesJob([s, Apply(s, TryNext(w))], [TryNext(w)], s, w)
  {
    assert NextPriority(s.m, HIGH) >= p;
  }

  lemma Prepended(s: State, a: Action, t: State, w: nat, states: seq<State>, actions: seq<Action>)
    requires Enabled(s, a) && IsStepOf(a, w) && t == Apply(s, a) && t.started == s.started
    requires TakesJob(states, actions, t, w)
    ensures TakesJob([s] + states, [a] + actions, s, w)
  {
  }

  lemma SafeOwnStep(s: State, w: nat, p: Priority) returns (a: Action, t: State)
    requires Safe(s) && HasRoom(s.m, p) && w in s.m.workers && Distance(s.phase[w]) > 0
    ensures Enabled(s, a) && IsStepOf(a, w) && t == Apply(s, a) && t.started == s.started
    ensures Safe(t) && HasRoom(t.m, p) && w in t.m.workers && w < |t.phase| && Distance(t.phase[w]) < Distance(s.phase[w])
  {
    OwnStep(s, w, p);
    a := NextStep(s.phase[w], w);
    t := Apply(s, a);
    StepIsSafe(s, a, t);
  }

  /** Any registered worker starts a waiting job that there is room for, with at most five steps of its own. */
  lemma {:induction false} WorkerTakesJob(s: State, w: nat, p: Priority) returns (states: seq<State>, actions: seq<Action>)
    requires Safe(s) && HasRoom(s.m, p) && w in s.m.workers
    ensures TakesJob(states, actions, s, w) && |actions| <= Distance(s.phase[w]) + 1 <= 5
    decreases Distance(s.phase[w])
  {
    if Distance(s.phase[w]) == 0 {
      LastStep(s, w, p);
      states, actions := [s, Apply(s, TryNext(w))], [TryNext(w)];
    } else {
      var a, t := SafeOwnStep(s, w, p);
      states, actions := WorkerTakesJob(t, w, p);
      Prepended(s, a, t, w, states, actions);
      states, actions := [s] + states, [a] + actions;
    }
  }

  /**
    So in a run with such care, whenever a job waits that there is room for, some worker can start one all by itself:
    at the latest when its wait of 30 seconds runs out.
  */
  lemma WaitingJobIsTaken(states: seq<State>, actions: seq<Action>, i: nat, p: Priority)
    returns (w: nat, more: seq<State>, steps: seq<Action>)
    requires IsRun(states, actions) && i < |states| && CarefulUpTo(states, actions, i) && HasRoom(states[i].m, p)
    ensures TakesJob(more, steps, states[i], w) && |steps| <= 5
  {
    NoJobIsAbandonedIff(states, actions, i);
    RunIsSafe(states, actions, i);
    SafeIsAbandonedIff(states[i]);
    w := states[i].m.workers[0];
    more, steps := WorkerTakesJob(states[i], w, p);
  }

  // ---------------------------------------------------------------- a run in which UnPause abandons a job

  /** A paused queue offers no job, and here the others are empty. */
  lemma OnlyPaused(m: Manager)
    requires m.WellShaped() && m.paused[0] && m.queue[1] == [] && m.queue[2] == []
    ensures NextPriority(m, HIGH) == -1
  {
    assert NextPriority(m, 0) == -1;
    assert NextPriority(m, 1) == -1;
  }

  /** The last worker retires while the only job is paused; UnPause, the last step, then wakes nobody. */
  lemma UnPauseCanStrand() returns (states: seq<State>, actions: seq<Action>)
    ensures IsRun(states, actions) && |actions| > 0 && actions[|actions| - 1].UnPause?
    ensures forall k :: 0 <= k < |actions| - 1 ==> !actions[k].UnPause?
    ensures forall k :: 0 <= k < |actions| ==> !Abandoned(states[k])
    ensures var s := states[|actions|]; s.m.workers == [] && Abandoned(s) && !NotStranded(s)
  {
    var item := WorkItem(0, 1, None, 0);
    var s0 := State(JobQueues.Initial(), [], map[], false, [], [], multiset{}, multiset{}, {}, []);
    var s1 := s0.(m := s0.m.(paused := [true, false, false]));
    var s2 := s1.(m := s1.m.(queue := [[item], [], []], counter := 1, workers := [0]), phase := [Ready], given := [None],
                  fate := [Pending(0)]);
    OnlyPaused(s2.m);
    var s3 := s2.(phase := [Leaving]);
    var s4 := s3.(m := s3.m.(waits := 1), phase := [Asleep]);
    var s5 := s4.(m := s4.m.(waits := 0), phase := [Woken(false)]);
    OnlyPaused(s5.m);
    var s6 := s5.(m := s5.m.(workers := []), phase := [Exited]);
    var s7 := s6.(m := s6.m.(paused := [false, false, false]));
    FirstSteps(s0, s1, s2);
    NextSteps(s2, s3, s4, s5);
    LastSteps(s5, s6, s7);
    states, actions := FourSteps(s0, s1, s2, s3, s4);
    states, actions := ThreeMore(states, actions, s5, s6, s7);
    LastUnPause(states, actions);
    AllGone(s7);
  }

  lemma AllGone(s: State)
    requires s.m.WellShaped() && s.phase == [Exited] && s.m.workers == [] && s.m.processing == []
    requires !s.m.paused[0] && s.m.queue[0] != []
    ensures !Served(s) && !NotStranded(s)
  {
  }

  /** A first UnPause that is not careful. */
  lemma LastUnPause(states: seq<State>, actions: seq<Action>)
    requires IsRun(states, actions) && |actions| > 0
    requires forall k :: 0 <= k < |actions| - 1 ==> !actions[k].UnPause?
    ensures forall k :: 0 <= k < |actions| ==> !Abandoned(states[k])
    ensures var s := states[|actions|]; s.m.WellShaped() && (Abandoned(s) <==> !Served(s))
  {
    var n := |actions| - 1;
    NoJobIsAbandonedIff(states, actions, n);
    assert CarefulUpTo(states, actions, n);
    RunIsSafe(states, actions, n + 1);
    SafeIsAbandonedIff(states[n + 1]);
  }

  lemma FourSteps(s0: State, s1: State, s2: State, s3: State, s4: State) returns (states: seq<State>, actions: seq<Action>)
    requires Init(s0)
    requires Enabled(s0, Pause(0)) && s1 == Apply(s0, Pause(0))
    requires Enabled(s1, Add(None, 0)) && s2 == Apply(s1, Add(None, 0))
    requires Enabled(s2, TryNext(0)) && s3 == Apply(s2, TryNext(0))
    requires Enabled(s3, EnterWait(0)) && s4 == Apply(s3, EnterWait(0))
    ensures IsRun(states, actions) && states[|actions|] == s4
    ensures actions == [Pause(0), Add(None, 0), TryNext(0), EnterWait(0)]
  {
    states, actions := [s0], [];
    states, actions := Extended(states, actions, Pause(0), s1);
    states, actions := Extended(states, actions, Add(None, 0), s2);
    states, actions := Extended(states, actions, TryNext(0), s3);
    states, actions := Extended(states, actions, EnterWait(0), s4);
  }

  lemma ThreeMore(before: seq<State>, first: seq<Action>, s5: State, s6: State, s7: State)
    returns (states: seq<State>, actions: seq<Action>)
    requires IsRun(before, first)
    requires Enabled(before[|first|], LeaveWait(0)) && s5 == Apply(before[|first|], LeaveWait(0))
    requires Enabled(s5, TryNext(0)) && s6 == Apply(s5, TryNext(0))
    requires Enabled(s6, UnPause(0)) && s7 == Apply(s6, UnPause(0))
    ensures IsRun(states, actions) && states[|actions|] == s7
    ensures actions == first + [LeaveWait(0), TryNext(0), UnPause(0)]
  {
    states, actions := Extended(before, first, LeaveWait(0), s5);
    states, actions := Extended(states, actions, TryNext(0), s6);
    states, actions := Extended(states, actions, UnPause(0), s7);
  }

  lemma Extended(states: seq<State>, actions: seq<Action>, a: Action, t: State) returns (more: seq<State>, done: seq<Action>)
    requires IsRun(states, actions) && Enabled(states[|actions|], a) && t == Apply(states[|actions|], a)
    ensures IsRun(more, done) && more[|done|] == t && done == actions + [a]
  {
    more, done := states + [t], actions + [a];
  }

  lemma FirstSteps(s0: State, s1: State, s2: State)
    requires Init(s0) && s1 == s0.(m := s0.m.(paused := [true, false, false]))
    requires s2 == s1.(m := s1.m.(queue := [[WorkItem(0, 1, None, 0)], [], []], counter := 1, workers := [0]),
                       phase := [Ready], given := [None], fate := [Pending(0)])
    ensures Enabled(s0, Pause(0)) && s1 == Apply(s0, Pause(0))
    ensures Enabled(s1, Add(None, 0)) && s2 == Apply(s1, Add(None, 0))
  {
    assert [false, false, false][0 := true] == [true, false, false];
    var t, item := Apply(s1, Add(None, 0)), WorkItem(0, 1, None, 0);
    assert t.m.queue[0] == [item];
    assert t.m.queue == [[item], [], []] && t.m.workers == [0] && t.phase == [Ready] && t.given == [None] && t.fate == [Pending(0)];
  }

  lemma NextSteps(s2: State, s3: State, s4: State, s5: State)
    requires s2.m.WellShaped() && NextPriority(s2.m, HIGH) == -1 && s2.phase == [Ready] && s2.m.running
    requires s2.m.waits == 0 && !s2.m.signaled
    requires s3 == s2.(phase := [Leaving]) && s4 == s3.(m := s3.m.(waits := 1), phase := [Asleep])
    requires s5 == s4.(m := s4.m.(waits := 0), phase := [Woken(false)])
    ensures Enabled(s2, TryNext(0)) && s3 == Apply(s2, TryNext(0))
    ensures Enabled(s3, EnterWait(0)) && s4 == Apply(s3, EnterWait(0))
    ensures Enabled(s4, LeaveWait(0)) && s5 == Apply(s4, LeaveWait(0))
  {
    assert s2.phase[0 := Leaving] == [Leaving] && s3.phase[0 := Asleep] == [Asleep];
    assert s4.phase[0 := Woken(false)] == [Woken(false)];
  }

  lemma LastSteps(s5: State, s6: State, s7: State)
    requires s5.m.WellShaped() && NextPriority(s5.m, HIGH) == -1 && s5.phase == [Woken(false)] && s5.m.workers == [0]
    requires s5.m.paused == [true, false, false]
    requires s6 == s5.(m := s5.m.(workers := []), phase := [Exited])
    requires s7 == s6.(m := s6.m.(paused := [false, false, false]))
    ensures Enabled(s5, TryNext(0)) && s6 == Apply(s5, TryNext(0))
    ensures Enabled(s6, UnPause(0)) && s7 == Apply(s6, UnPause(0))
  {
    assert FindWorker(s5.m.workers, 0) == 0 && RemoveAt(s5.m.workers, 0) == [];
    assert AfterTryNext(s5, 0) == AfterNoJob(s5, 0, false);
    assert WorkerRemoved(s5.m, 0) == s6.m;
    assert s5.phase[0 := Exited] == [Exited];
    assert [true, false, false][0 := false] == [false, false, false];
  }
}
