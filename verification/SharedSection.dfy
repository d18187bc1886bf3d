/**
  The reader/writer lock of airplay/threads/SharedSection.h (lines 30-48), for any number of threads: a recursive
  section `sec`, a count of shared holds guarded by it, and a condition variable for writers.
*/
module SharedSection {
  type Tid = nat

  /** Where a thread is inside an operation. */
  datatype Pc =
    | Idle
    | LockEntered       // lock(): has sec, about to look at sharedCount
    | Asleep            // in cond.wait, sec released
    | Waking            // notified or woken for no reason, about to take sec back
    | TryEntered        // try_lock(): has sec, about to look at sharedCount
    | SharedEntered     // lock_shared() or try_lock_shared(): has sec, about to count
    | UnsharedEntered   // unlock_shared(): has sec, about to count
    | Leaving           // about to let sec go

  /**
    `depth` is how often the owner has entered sec.  `exclusive` and `shared` are the holds each thread has been given
    and has not given back; `notified` are the sleepers that notifyAll has woken.
  */
  datatype State = State(
    owner: Tid, depth: nat, sharedCount: int,
    pcs: map<Tid, Pc>, exclusive: multiset<Tid>, shared: multiset<Tid>, notified: set<Tid>)
  {
    function PcOf(t: Tid): Pc {
      if t in pcs then pcs[t] else Idle
    }

    function Goto(t: Tid, pc: Pc): State {
      this.(pcs := pcs[t := pc])
    }

    /** Whether a thread can enter sec now. */
    predicate Free(t: Tid) {
      depth == 0 || owner == t
    }

    function Entered(t: Tid): State {
      this.(owner := t, depth := depth + 1)
    }

    function Left(): State {
      this.(depth := if depth > 0 then depth - 1 else 0)
    }
  }

  datatype Action =
    | Lock(t: Tid)
    | TryLock(t: Tid)
    | TryFails(t: Tid)       // try_lock() or try_lock_shared() of a busy section
    | Unlock(t: Tid)
    | LockShared(t: Tid)
    | UnlockShared(t: Tid)
    | Step(t: Tid)           // the next step of the operation the thread is in
    | WakeUp(t: Tid)         // out of the wait, notified or not

  ghost predicate Init(s: State) {
    s.depth == 0 && s.sharedCount == 0 && s.pcs == map[] && s.exclusive == multiset{} && s.shared == multiset{} && s.notified == {}
  }

  /**
    Calls come from threads that are not in one; locks are given back by those that have them, and no thread calls lock()
    while it holds a shared lock (try_lock() then just fails).
  */
  predicate Enabled(s: State, a: Action) {
    match a
    case Lock(t) => s.PcOf(t).Idle? && s.Free(t) && t !in s.shared
    case TryLock(t) => s.PcOf(t).Idle? && s.Free(t)
    case TryFails(t) => s.PcOf(t).Idle? && !s.Free(t)
    case Unlock(t) => s.PcOf(t).Idle? && t in s.exclusive
    case LockShared(t) => s.PcOf(t).Idle? && s.Free(t)
    case UnlockShared(t) => s.PcOf(t).Idle? && s.Free(t) && t in s.shared
    case Step(t) => !s.PcOf(t).Idle? && !s.PcOf(t).Asleep? && (s.PcOf(t).Waking? ==> s.Free(t))
    case WakeUp(t) => s.PcOf(t).Asleep?
  }

  function StepThread(s: State, t: Tid): State {
    match s.PcOf(t)
    case LockEntered =>
      if s.sharedCount != 0 then s.Left().Goto(t, Asleep)
      else s.(exclusive := s.exclusive + multiset{t}).Goto(t, Idle)  // sec.lock(), and the guard lets go once
    case Waking => s.Entered(t).Goto(t, LockEntered)
    case TryEntered =>
      if s.sharedCount == 0 then s.(exclusive := s.exclusive + multiset{t}).Goto(t, Idle) else s.Left().Goto(t, Idle)
    case SharedEntered =>
      s.(sharedCount := s.sharedCount + 1, shared := s.shared + multiset{t}).Goto(t, Leaving)
    case UnsharedEntered =>
      var left := s.(sharedCount := s.sharedCount - 1, shared := s.shared - multiset{t});
      (if s.sharedCount - 1 == 0 then left.(notified := Sleepers(s)) else left).Goto(t, Leaving)
    case Leaving => s.Left().Goto(t, Idle)
    case _ => s
  }

  function Sleepers(s: State): set<Tid> {
    set t | t in s.pcs && s.pcs[t].Asleep?
  }

  function Apply(s: State, a: Action): State {
    match a
    case Lock(t) => s.Entered(t).Goto(t, LockEntered)
    case TryLock(t) => s.Entered(t).Goto(t, TryEntered)
    case TryFails(t) => s
    case Unlock(t) => s.(exclusive := s.exclusive - multiset{t}).Left()
    case LockShared(t) => s.Entered(t).Goto(t, SharedEntered)
    case UnlockShared(t) => s.Entered(t).Goto(t, UnsharedEntered)
    case Step(t) => StepThread(s, t)
    case WakeUp(t) => s.(notified := s.notified - {t}).Goto(t, Waking)
  }

  // ---------------------------------------------------------------- the invariant

  /** The thread is between entering sec and leaving it, within one operation. */
  predicate Inside(pc: Pc) {
    !pc.Idle? && !pc.Asleep? && !pc.Waking?
  }

  ghost predicate Outside(s: State, t: Tid) {
    !Inside(s.PcOf(t)) && t !in s.exclusive
  }

  /** Whoever is inside sec, or holds it exclusively, owns it, once for each. */
  ghost predicate OwnerOk(s: State) {
    && (forall t {:trigger Outside(s, t)} :: s.depth == 0 || t != s.owner ==> Outside(s, t))
    && (s.depth > 0 ==> s.depth == s.exclusive[s.owner] + if Inside(s.PcOf(s.owner)) then 1 else 0)
  }

  ghost predicate Exclusion(s: State) {
    && (forall t, u :: t in s.exclusive && u != t ==> u !in s.shared)
    && s.sharedCount == |s.shared|
  }

  /** No thread waits for a lock while it has a shared one, and every sleeper has somebody to wake it, or has been woken. */
  ghost predicate WritersOk(s: State) {
    && (forall t :: s.PcOf(t).LockEntered? || s.PcOf(t).Asleep? || s.PcOf(t).Waking? ==> t !in s.shared)
    && (forall t :: s.PcOf(t).UnsharedEntered? ==> t in s.shared)
    && (forall t :: s.PcOf(t).Asleep? && t !in s.notified ==> s.sharedCount > 0)
    && (forall t :: s.PcOf(t).Asleep? || s.PcOf(t).Waking? ==> t !in s.exclusive)
    && (forall t :: t in s.notified ==> s.PcOf(t).Asleep?)
  }

  ghost predicate Inv(s: State) {
    OwnerOk(s) && Exclusion(s) && WritersOk(s)
  }

  predicate IsCall(a: Action) {
    a.Lock? || a.TryLock? || a.LockShared? || a.UnlockShared?
  }

  lemma CallKeepsOwner(s: State, a: Action)
    requires OwnerOk(s) && Enabled(s, a) && IsCall(a)
    ensures OwnerOk(Apply(s, a))
  {
    forall u ensures Outside(s, u) && u != a.t ==> Outside(Apply(s, a), u) {
    }
    assert Outside(s, a.t) || s.depth > 0;
  }

  lemma UnlockKeepsOwner(s: State, t: Tid)
    requires OwnerOk(s) && Enabled(s, Unlock(t))
    ensures OwnerOk(Apply(s, Unlock(t)))
  {
    assert Outside(s, t) || (s.depth > 0 && s.owner == t);
    forall u ensures u != t && Outside(s, u) ==> Outside(Apply(s, Unlock(t)), u) {
    }
  }

  lemma WakeUpKeepsOwner(s: State, t: Tid)
    requires OwnerOk(s) && Enabled(s, WakeUp(t))
    ensures OwnerOk(Apply(s, WakeUp(t)))
  {
    forall u ensures Outside(s, u) ==> Outside(Apply(s, WakeUp(t)), u) {
    }
  }

  lemma CallKeepsInv(s: State, a: Action)
    requires Inv(s) && Enabled(s, a) && IsCall(a)
    ensures Inv(Apply(s, a))
  {
    CallKeepsOwner(s, a);
    CallKeepsWriters(s, a);
  }

  lemma CallKeepsWriters(s: State, a: Action)
    requires WritersOk(s) && Enabled(s, a) && IsCall(a)
    ensures WritersOk(Apply(s, a))
  {
  }

  lemma UnlockKeepsInv(s: State, t: Tid)
    requires Inv(s) && Enabled(s, Unlock(t))
    ensures Inv(Apply(s, Unlock(t)))
  {
    UnlockKeepsOwner(s, t);
    UnlockKeepsWriters(s, t);
  }

  lemma UnlockKeepsWriters(s: State, t: Tid)
    requires WritersOk(s) && Enabled(s, Unlock(t))
    ensures WritersOk(Apply(s, Unlock(t)))
  {
  }

  lemma WakeUpKeepsInv(s: State, t: Tid)
    requires Inv(s) && Enabled(s, WakeUp(t))
    ensures Inv(Apply(s, WakeUp(t)))
  {
    WakeUpKeepsOwner(s, t);
    WakeUpKeepsWriters(s, t);
  }

  lemma WakeUpKeepsWriters(s: State, t: Tid)
    requires WritersOk(s) && Enabled(s, WakeUp(t))
    ensures WritersOk(Apply(s, WakeUp(t)))
  {
  }

  /** A thread inside sec is its owner. */
  lemma InsiderOwns(s: State, t: Tid)
    requires OwnerOk(s) && Inside(s.PcOf(t))
    ensures s.depth == s.exclusive[t] + 1 && s.owner == t
  {
    assert !Outside(s, t);
  }

  lemma EmptyIsNobody(m: multiset<Tid>, t: Tid)
    requires |m| == 0
    ensures t !in m
  {
    assert t in m ==> |m - multiset{t}| == |m| - 1;
  }

  /** A writer that finds readers holds nothing itself, so going to sleep lets sec go altogether. */
  lemma SleeperHoldsNothing(s: State, t: Tid)
    requires Inv(s) && s.PcOf(t).LockEntered? && s.sharedCount != 0
    ensures t !in s.exclusive && s.depth == 1 && s.owner == t
  {
    InsiderOwns(s, t);
    var u :| u in s.shared;
    assert u != t;
  }

  predicate AtTest(pc: Pc) {
    pc.LockEntered? || pc.Waking? || pc.TryEntered?
  }

  lemma TestKeepsOwner(s: State, t: Tid)
    requires Inv(s) && Enabled(s, Step(t)) && (s.PcOf(t).LockEntered? || s.PcOf(t).TryEntered?)
    ensures OwnerOk(StepThread(s, t))
  {
    InsiderOwns(s, t);
    if s.PcOf(t).LockEntered? && s.sharedCount != 0 {
      SleeperHoldsNothing(s, t);
    }
    forall u ensures u != t && Outside(s, u) ==> Outside(StepThread(s, t), u) {
    }
  }

  lemma WakingKeepsOwner(s: State, t: Tid)
    requires OwnerOk(s) && Enabled(s, Step(t)) && s.PcOf(t).Waking?
    ensures OwnerOk(StepThread(s, t))
  {
    assert Outside(s, t) || s.depth > 0;
    forall u ensures u != t && Outside(s, u) ==> Outside(StepThread(s, t), u) {
    }
  }

  lemma CountKeepsOwner(s: State, t: Tid)
    requires OwnerOk(s) && Enabled(s, Step(t)) && !AtTest(s.PcOf(t))
    ensures OwnerOk(StepThread(s, t))
  {
    InsiderOwns(s, t);
    forall u ensures u != t && Outside(s, u) ==> Outside(StepThread(s, t), u) {
    }
  }

  lemma StepKeepsExclusion(s: State, t: Tid)
    requires Inv(s) && Enabled(s, Step(t))
    ensures Exclusion(StepThread(s, t))
  {
    if Inside(s.PcOf(t)) {
      InsiderOwns(s, t);
      forall u ensures u != t ==> u !in s.exclusive {
        assert u != t ==> Outside(s, u);
      }
    }
    if AtTest(s.PcOf(t)) {
      forall u ensures s.sharedCount == 0 ==> u !in s.shared {
        if s.sharedCount == 0 {
          EmptyIsNobody(s.shared, u);
        }
      }
    } else {
      CountKeepsExclusion(s, t);
    }
  }

  /** A thread that counts a shared hold, up or down, is the only one inside. */
  lemma CountKeepsExclusion(s: State, t: Tid)
    requires Exclusion(s) && !AtTest(s.PcOf(t)) && (forall u :: u != t ==> u !in s.exclusive)
    requires s.PcOf(t).UnsharedEntered? ==> t in s.shared
    ensures Exclusion(StepThread(s, t))
  {
  }

  lemma WakingKeepsWriters(s: State, t: Tid)
    requires WritersOk(s) && Enabled(s, Step(t)) && s.PcOf(t).Waking?
    ensures WritersOk(StepThread(s, t))
  {
  }

  lemma SleepKeepsWriters(s: State, t: Tid)
    requires WritersOk(s) && s.PcOf(t).LockEntered? && s.sharedCount > 0 && t !in s.exclusive
    ensures WritersOk(StepThread(s, t))
  {
  }

  lemma TestKeepsWriters(s: State, t: Tid)
    requires WritersOk(s) && (s.PcOf(t).TryEntered? || (s.PcOf(t).LockEntered? && s.sharedCount == 0))
    ensures WritersOk(StepThread(s, t))
  {
  }

  lemma SharedKeepsWriters(s: State, t: Tid)
    requires WritersOk(s) && Enabled(s, Step(t)) && (s.PcOf(t).SharedEntered? || s.PcOf(t).Leaving?)
    requires s.sharedCount >= 0
    ensures WritersOk(StepThread(s, t))
  {
  }

  /** The last reader out wakes every sleeper. */
  lemma UnsharedKeepsWriters(s: State, t: Tid)
    requires WritersOk(s) && Exclusion(s) && Enabled(s, Step(t)) && s.PcOf(t).UnsharedEntered?
    ensures WritersOk(StepThread(s, t))
  {
    var after := StepThread(s, t);
    assert forall u :: u != t ==> after.PcOf(u) == s.PcOf(u);
    assert after.sharedCount == |after.shared|;
  }

  lemma StepKeepsInv(s: State, t: Tid)
    requires Inv(s) && Enabled(s, Step(t))
    ensures Inv(StepThread(s, t))
  {
    StepKeepsExclusion(s, t);
    if AtTest(s.PcOf(t)) {
      if s.PcOf(t).Waking? {
        WakingKeepsOwner(s, t);
        WakingKeepsWriters(s, t);
      } else {
        TestKeepsOwner(s, t);
        if s.PcOf(t).LockEntered? && s.sharedCount != 0 {
          SleeperHoldsNothing(s, t);
          SleepKeepsWriters(s, t);
        } else {
          TestKeepsWriters(s, t);
        }
      }
    } else {
      CountKeepsOwner(s, t);
      if s.PcOf(t).UnsharedEntered? {
        UnsharedKeepsWriters(s, t);
      } else {
        SharedKeepsWriters(s, t);
      }
    }
  }

  // ---------------------------------------------------------------- every run

  ghost predicate IsRun(states: seq<State>, actions: seq<Action>) {
    && |states| == |actions| + 1 && Init(states[0])
    && forall i :: 0 <= i < |actions| ==> Enabled(states[i], actions[i]) && states[i + 1] == Apply(states[i], actions[i])
  }

  lemma NextKeepsInv(s: State, a: Action, t: State)
    requires Inv(s) && Enabled(s, a) && t == Apply(s, a)
    ensures Inv(t)
  {
    if a.Step? {
      StepKeepsInv(s, a.t);
    } else if IsCall(a) {
      CallKeepsInv(s, a);
    } else if a.Unlock? {
      UnlockKeepsInv(s, a.t);
    } else if a.WakeUp? {
      WakeUpKeepsInv(s, a.t);
    }
  }

  lemma NextInRunKeepsInv(states: seq<State>, actions: seq<Action>, i: nat)
    requires IsRun(states, actions) && i < |actions| && Inv(states[i])
    ensures Inv(states[i + 1])
  {
    var s, a, t := states[i], actions[i], states[i + 1];
    assert Enabled(s, a) && t == Apply(s, a);
    NextKeepsInv(s, a, t);
  }

  lemma InitKeepsInv(s: State)
    requires Init(s)
    ensures Inv(s)
  {
  }

  lemma {:induction false} RunKeepsInv(states: seq<State>, actions: seq<Action>, i: nat)
    requires IsRun(states, actions) && i < |states|
    ensures Inv(states[i])
  {
    if i == 0 {
      InitKeepsInv(states[0]);
    } else {
      RunKeepsInv(states, actions, i - 1);
      NextInRunKeepsInv(states, actions, i - 1);
    }
  }

  lemma HolderOwns(s: State, t: Tid)
    requires OwnerOk(s) && t in s.exclusive
    ensures s.depth > 0 && s.owner == t && forall u :: u != t ==> Outside(s, u)
  {
    assert !Outside(s, t);
  }

  /** While a thread holds the lock exclusively, no other thread holds it, exclusively or shared. */
  lemma ReadersAndWritersExclude(states: seq<State>, actions: seq<Action>, i: nat, t: Tid, u: Tid)
    requires IsRun(states, actions) && i < |states| && t in states[i].exclusive && u != t
    ensures u !in states[i].exclusive && u !in states[i].shared
    ensures states[i].depth > 0 && states[i].owner == t
  {
    RunKeepsInv(states, actions, i);
    HolderOwns(states[i], t);
    assert Outside(states[i], u);
  }

  /** sharedCount is the number of shared holds. */
  lemma SharedCountIsExact(states: seq<State>, actions: seq<Action>, i: nat)
    requires IsRun(states, actions) && i < |states|
    ensures states[i].sharedCount == |states[i].shared|
  {
    RunKeepsInv(states, actions, i);
  }

  /** try_lock() succeeds exactly if nobody holds the lock shared, the caller included. */
  lemma TryLockSucceedsIff(states: seq<State>, actions: seq<Action>, i: nat, t: Tid)
    requires IsRun(states, actions) && i < |actions| && actions[i] == Step(t) && states[i].PcOf(t).TryEntered?
    ensures states[i + 1].exclusive == states[i].exclusive + (if states[i].shared == multiset{} then multiset{t} else multiset{})
  {
    RunKeepsInv(states, actions, i);
    assert states[i + 1] == Apply(states[i], actions[i]);
  }

  /** A writer that sleeps and has not been notified waits for another thread that holds the lock shared. */
  lemma WritersWaitForReaders(states: seq<State>, actions: seq<Action>, i: nat, t: Tid) returns (u: Tid)
    requires IsRun(states, actions) && i < |states| && states[i].PcOf(t).Asleep? && t !in states[i].notified
    ensures u != t && u in states[i].shared
  {
    RunKeepsInv(states, actions, i);
    var s := states[i];
    assert s.shared != multiset{};
    u :| u in s.shared;
  }

  // ---------------------------------------------------------------- who gets in, and when

  /** No other thread holds the lock exclusively or is between entering sec and leaving it. */
  ghost predicate Alone(s: State, t: Tid) {
    forall u :: u != t ==> u !in s.exclusive && (s.PcOf(u) == Idle || s.PcOf(u) == Asleep || s.PcOf(u) == Waking)
  }

  lemma FreeIff(s: State, t: Tid)
    requires OwnerOk(s)
    ensures s.Free(t) <==> Alone(s, t)
  {
    if s.Free(t) {
      forall u | u != t ensures u !in s.exclusive && !Inside(s.PcOf(u)) {
        assert Outside(s, u);
      }
    } else {
      assert s.owner in s.exclusive || Inside(s.PcOf(s.owner));
    }
  }

  /** Who may call what: the section is entered as soon as no other thread is in it, try_lock() fails exactly otherwise. */
  lemma CallsAreTaken(states: seq<State>, actions: seq<Action>, i: nat, t: Tid)
    requires IsRun(states, actions) && i < |states|
    ensures var s := states[i]; var idle := s.PcOf(t) == Idle;
      && (Enabled(s, LockShared(t)) <==> idle && Alone(s, t))
      && (Enabled(s, Lock(t)) <==> idle && Alone(s, t) && s.shared[t] == 0)
      && (Enabled(s, TryLock(t)) <==> idle && Alone(s, t))
      && (Enabled(s, TryFails(t)) <==> idle && !Alone(s, t))
      && (Enabled(s, Unlock(t)) <==> idle && s.exclusive[t] > 0)
      && (Enabled(s, UnlockShared(t)) <==> idle && Alone(s, t) && s.shared[t] > 0)
  {
    RunKeepsInv(states, actions, i);
    FreeIff(states[i], t);
  }

  /** Who can go on: everybody inside, and a writer that was woken as soon as no other thread is in the section. */
  lemma StepsAreTaken(states: seq<State>, actions: seq<Action>, i: nat, t: Tid)
    requires IsRun(states, actions) && i < |states|
    ensures var s := states[i]; var pc := s.PcOf(t);
      && (Enabled(s, Step(t)) <==> pc != Idle && pc != Asleep && (pc == Waking ==> Alone(s, t)))
      && (Enabled(s, WakeUp(t)) <==> pc == Asleep)
  {
    RunKeepsInv(states, actions, i);
    FreeIff(states[i], t);
  }

  /** The test in lock(): it returns with the lock exactly if there is no shared hold, and sleeps with sec let go otherwise. */
  lemma LockGrantsIff(states: seq<State>, actions: seq<Action>, i: nat, t: Tid)
    requires IsRun(states, actions) && i < |actions| && actions[i] == Step(t) && states[i].PcOf(t) == LockEntered
    ensures var s, after := states[i], states[i + 1];
      && after.shared == s.shared
      && after.PcOf(t) == (if s.shared == multiset{} then Idle else Asleep)
      && after.exclusive == s.exclusive + (if s.shared == multiset{} then multiset{t} else multiset{})
      && (if s.shared == multiset{} then after.depth > 0 && after.owner == t else after.depth == 0)
  {
    RunKeepsInv(states, actions, i);
    var s := states[i];
    assert states[i + 1] == Apply(s, actions[i]);
    InsiderOwns(s, t);
    if s.sharedCount != 0 {
      SleeperHoldsNothing(s, t);
    }
  }

  // ---------------------------------------------------------------- from call to return

  /** Threads change nobody else's holds, nor where anybody else is. */
  lemma OthersLeaveAlone(s: State, a: Action, t: Tid)
    requires Enabled(s, a) && a.t != t
    ensures Apply(s, a).PcOf(t) == s.PcOf(t)
    ensures Apply(s, a).exclusive[t] == s.exclusive[t] && Apply(s, a).shared[t] == s.shared[t]
  {
    if a.Step? {
      StepLeavesAlone(s, a.t, t);
    }
  }

  lemma StepLeavesAlone(s: State, u: Tid, t: Tid)
    requires u != t
    ensures StepThread(s, u).PcOf(t) == s.PcOf(t)
    ensures StepThread(s, u).exclusive[t] == s.exclusive[t] && StepThread(s, u).shared[t] == s.shared[t]
  {
  }

  /** Thread `t` holds the lock this much more than in `from`: exclusively and shared. */
  predicate Gained(from: State, s: State, t: Tid, exclusive: int, shared: int) {
    s.exclusive[t] == from.exclusive[t] + exclusive && s.shared[t] == from.shared[t] + shared
  }

  /** What has become of a call made in `from`. */
  predicate UnderWay(call: Action, from: State, s: State) {
    var t, pc := call.t, s.PcOf(call.t);
    match call
    case Lock(_) =>
      if pc.Idle? then Gained(from, s, t, 1, 0)
      else Gained(from, s, t, 0, 0) && (pc.LockEntered? || pc.Asleep? || pc.Waking?)
    case TryLock(_) =>
      if pc.Idle? then Gained(from, s, t, 1, 0) || Gained(from, s, t, 0, 0) else pc.TryEntered? && Gained(from, s, t, 0, 0)
    case LockShared(_) =>
      if pc.SharedEntered? then Gained(from, s, t, 0, 0) else (pc.Leaving? || pc.Idle?) && Gained(from, s, t, 0, 1)
    case UnlockShared(_) =>
      if pc.UnsharedEntered? then Gained(from, s, t, 0, 0) else (pc.Leaving? || pc.Idle?) && Gained(from, s, t, 0, -1)
    case _ => true
  }

  lemma OwnStepGoesOn(call: Action, from: State, s: State, a: Action)
    requires IsCall(call) && UnderWay(call, from, s) && !s.PcOf(call.t).Idle? && Enabled(s, a) && a.t == call.t
    requires WritersOk(s)
    ensures UnderWay(call, from, Apply(s, a))
  {
    assert a.Step? || a.WakeUp?;
  }

  lemma CallStarts(s: State, call: Action)
    requires Enabled(s, call) && IsCall(call)
    ensures UnderWay(call, s, Apply(s, call))
  {
  }

  lemma GoesOn(call: Action, from: State, s: State, a: Action)
    requires IsCall(call) && UnderWay(call, from, s) && !s.PcOf(call.t).Idle? && Enabled(s, a) && WritersOk(s)
    ensures UnderWay(call, from, Apply(s, a))
  {
    if a.t == call.t {
      OwnStepGoesOn(call, from, s, a);
    } else {
      OthersLeaveAlone(s, a, call.t);
    }
  }

  /** The call made at `i` has returned at `j`, and not before. */
  ghost predicate Returns(states: seq<State>, actions: seq<Action>, i: nat, j: nat) {
    && IsRun(states, actions) && i < j < |states| && IsCall(actions[i])
    && states[j].PcOf(actions[i].t) == Idle
    && forall k :: i < k < j ==> states[k].PcOf(actions[i].t) != Idle
  }

  lemma StartsInRun(states: seq<State>, actions: seq<Action>, i: nat)
    requires IsRun(states, actions) && i < |actions| && IsCall(actions[i])
    ensures UnderWay(actions[i], states[i], states[i + 1])
  {
    var s, a, after := states[i], actions[i], states[i + 1];
    assert Enabled(s, a) && after == Apply(s, a);
    CallStarts(s, a);
  }

  lemma GoesOnInRun(states: seq<State>, actions: seq<Action>, call: Action, from: State, k: nat)
    requires IsRun(states, actions) && k < |actions| && IsCall(call)
    requires UnderWay(call, from, states[k]) && !states[k].PcOf(call.t).Idle?
    ensures UnderWay(call, from, states[k + 1])
  {
    var s, a, after := states[k], actions[k], states[k + 1];
    assert Enabled(s, a) && after == Apply(s, a);
    RunKeepsInv(states, actions, k);
    GoesOn(call, from, s, a);
  }

  lemma {:induction false} StaysUnderWay(states: seq<State>, actions: seq<Action>, i: nat, j: nat, k: nat)
    requires Returns(states, actions, i, j) && i < k <= j
    ensures UnderWay(actions[i], states[i], states[k])
  {
    if k == i + 1 {
      StartsInRun(states, actions, i);
    } else {
      StaysUnderWay(states, actions, i, j, k - 1);
      GoesOnInRun(states, actions, actions[i], states[i], k - 1);
    }
  }

  /** lock(), from call to return, whatever happens in between: one more exclusive hold, and nobody else has any. */
  lemma LockGrants(states: seq<State>, actions: seq<Action>, i: nat, j: nat, t: Tid)
    requires Returns(states, actions, i, j) && actions[i] == Lock(t)
    ensures states[j].exclusive[t] == states[i].exclusive[t] + 1
    ensures states[j].owner == t && states[j].shared == multiset{}
    ensures forall u :: u != t ==> u !in states[j].exclusive
  {
    StaysUnderWay(states, actions, i, j, j);
    RunKeepsInv(states, actions, j);
    HolderOwns(states[j], t);
    forall u ensures u !in states[j].shared && (u != t ==> u !in states[j].exclusive) {
      assert u != t ==> Outside(states[j], u);
    }
  }

  /** lock_shared(): one more shared hold; unlock_shared(): one fewer; exclusive holds stay. */
  lemma SharedCallsCount(states: seq<State>, actions: seq<Action>, i: nat, j: nat, t: Tid)
    requires Returns(states, actions, i, j) && (actions[i] == LockShared(t) || actions[i] == UnlockShared(t))
    ensures states[j].shared[t] == states[i].shared[t] + if actions[i].LockShared? then 1 else -1
    ensures states[j].exclusive[t] == states[i].exclusive[t]
  {
    StaysUnderWay(states, actions, i, j, j);
  }

  /** try_lock(): one more exclusive hold or nothing; unlock() gives one back at once; a refused try changes nothing. */
  lemma OtherCallsCount(states: seq<State>, actions: seq<Action>, i: nat, j: nat, t: Tid)
    requires IsRun(states, actions) && i < |actions|
    ensures Returns(states, actions, i, j) && actions[i] == TryLock(t) ==>
              && states[j].shared[t] == states[i].shared[t]
              && states[i].exclusive[t] <= states[j].exclusive[t] <= states[i].exclusive[t] + 1
    ensures actions[i] == Unlock(t) ==>
              && states[i].exclusive[t] > 0 && states[i + 1].exclusive[t] == states[i].exclusive[t] - 1
              && states[i + 1].shared[t] == states[i].shared[t]
    ensures actions[i] == TryFails(t) ==>
              states[i + 1] == states[i]
  {
    if Returns(states, actions, i, j) && actions[i] == TryLock(t) {
      StaysUnderWay(states, actions, i, j, j);
    }
    assert Enabled(states[i], actions[i]) && states[i + 1] == Apply(states[i], actions[i]);
  }

  // ---------------------------------------------------------------- writers get in

  /** A sleeping writer has the lock after three steps of its own once nobody holds it and nobody is in the section. */
  lemma WriterGetsIn(states: seq<State>, actions: seq<Action>, i: nat, t: Tid)
    requires IsRun(states, actions) && i < |states| && states[i].PcOf(t) == Asleep
    requires Alone(states[i], t) && states[i].shared == multiset{}
    ensures var s := states[i]; var awake := Apply(s, WakeUp(t)); var ready := Apply(awake, Step(t));
      && Enabled(s, WakeUp(t)) && Enabled(awake, Step(t)) && Enabled(ready, Step(t))
      && Apply(ready, Step(t)).PcOf(t) == Idle
      && Apply(ready, Step(t)).exclusive[t] == s.exclusive[t] + 1
  {
    RunKeepsInv(states, actions, i);
    FreeIff(states[i], t);
  }

  /** And a reader after the call and two steps, once no other thread is in the section. */
  lemma ReaderGetsIn(states: seq<State>, actions: seq<Action>, i: nat, t: Tid)
    requires IsRun(states, actions) && i < |states| && states[i].PcOf(t) == Idle && Alone(states[i], t)
    ensures var s := states[i]; var called := Apply(s, LockShared(t)); var counted := Apply(called, Step(t));
      && Enabled(s, LockShared(t)) && Enabled(called, Step(t)) && Enabled(counted, Step(t))
      && Apply(counted, Step(t)).PcOf(t) == Idle
      && Apply(counted, Step(t)).shared[t] == s.shared[t] + 1
  {
    RunKeepsInv(states, actions, i);
    FreeIff(states[i], t);
  }
}
