/** Runs that go on from a state of the job manager, and the steps a worker takes in them. */
module JobPaths {
  import opened JobSystem

  ghost predicate IsPath(states: seq<State>, actions: seq<Action>) {
    && |states| == |actions| + 1
    && forall i :: 0 <= i < |actions| ==> Enabled(states[i], actions[i]) && states[i + 1] == Apply(states[i], actions[i])
  }

  lemma PathsJoin(states: seq<State>, actions: seq<Action>, more: seq<State>, steps: seq<Action>)
    requires IsPath(states, actions) && IsPath(more, steps) && more[0] == states[|actions|]
    ensures IsPath(states + more[1..], actions + steps)
    ensures (states + more[1..])[0] == states[0] && (states + more[1..])[|actions + steps|] == more[|steps|]
  {
    var all, done := states + more[1..], actions + steps;
    forall i | 0 <= i < |done| ensures Enabled(all[i], done[i]) && all[i + 1] == Apply(all[i], done[i]) {
      if i >= |actions| {
        assert all[i] == more[i - |actions|];
      }
    }
  }

  predicate IsStepOf(a: Action, w: nat) {
    (a.TryNext? || a.EnterWait? || a.LeaveWait? || a.Complete? || a.Tell? || a.Erase? || a.Free?) && a.w == w
  }

  /** The next step of a worker that has not exited. */
  function NextStep(phase: Phase, w: nat): Action {
    match phase
    case Leaving => EnterWait(w)
    case Asleep => LeaveWait(w)
    case Working(_) => Complete(w)
    case Telling(_) => Tell(w)
    case Told(_) => Erase(w)
    case Freeing(_) => Free(w)
    case _ => TryNext(w)
  }

  lemma NextStepIsEnabled(s: State, w: nat)
    requires s.m.WellShaped() && w < |s.phase| && !s.phase[w].Exited?
    ensures Enabled(s, NextStep(s.phase[w], w)) && IsStepOf(NextStep(s.phase[w], w), w)
  {
  }

  /** How many steps a worker is away from looking for a job. */
  function Distance(phase: Phase): nat {
    match phase
    case Leaving => 2
    case Asleep => 1
    case Working(_) => 4
    case Telling(_) => 3
    case Told(_) => 2
    case Freeing(_) => 1
    case _ => 0
  }
}
