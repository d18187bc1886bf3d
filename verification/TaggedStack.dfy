/**
  The lock-free stack of airplay/threads/LockFree.cpp (lines 32-72), in its double-word (cas2) form,
  as a transition system over any number of threads.

  One action is one shared-memory access: the load of `top`, the store or load of a node's `next.ptr`,
  the cas2 on `top`, the update of `count`.  Between those accesses every other thread may take any
  number of actions.  Clients own the nodes they have popped (or carved from the general heap) and may
  overwrite them, version and all.
*/
module TaggedStack {
  type Ptr = nat
  type Tid = nat

  const NULL: Ptr := 0

  /** atomic_ptr: a pointer together with a version that every successful cas2 increments. */
  datatype Ref = Ref(ptr: Ptr, version: nat)

  /** Where a thread is inside lf_stack_push or lf_stack_pop, with the locals it needs from there on. */
  datatype Pc =
    | Idle
    | PushLoad(node: Ptr)                 // top = pStack->top
    | PushLink(node: Ptr, top: Ref)       // pNode->next.ptr = top.ptr
    | PushCas(node: Ptr, top: Ref)        // cas2(&pStack->top, top, newTop)
    | PushCount                           // AtomicIncrement(&pStack->count)
    | PopLoad                             // top = pStack->top
    | PopNext(top: Ref)                   // newTop.ptr = top.ptr->next.ptr
    | PopCas(top: Ref, next: Ptr)         // cas2(&pStack->top, top, newTop)
    | PopCount(node: Ptr)                 // AtomicDecrement(&pStack->count)
    | PopReturn(node: Ptr)                // return top.ptr, or NULL

  datatype State = State(next: map<Ptr, Ref>, top: Ref, count: int, pcs: map<Tid, Pc>, held: set<Ptr>)
  {
    function PcOf(t: Tid): Pc {
      if t in pcs then pcs[t] else Idle
    }

    function Goto(t: Tid, pc: Pc): State {
      this.(pcs := pcs[t := pc])
    }
  }

  datatype Action =
    | CallPush(t: Tid, node: Ptr)
    | CallPop(t: Tid)
    | Step(t: Tid)
    | Return(t: Tid)
    | Write(block: Ptr, value: Ref)
    | Carve(memory: map<Ptr, Ref>)

  ghost predicate Init(s: State) {
    && s.next == map[] && s.top.ptr == NULL && s.count == 0 && s.held == {}
    && forall t :: s.PcOf(t) == Idle
  }

  /** Whether the thread is at the right place in its code. */
  predicate Ready(s: State, a: Action) {
    match a
    case CallPush(t, _) => s.PcOf(t).Idle?
    case CallPop(t) => s.PcOf(t).Idle?
    case Step(t) => !s.PcOf(t).Idle? && !s.PcOf(t).PopReturn?
    case Return(t) => s.PcOf(t).PopReturn?
    case _ => true
  }

  /** What the stack asks of its clients besides: touch only blocks they hold, and carve fresh memory. */
  predicate Enabled(s: State, a: Action) {
    && Ready(s, a)
    && match a
       case CallPush(_, node) => node in s.held
       case Write(block, _) => block in s.held
       case Carve(memory) => memory.Keys !! s.next.Keys && NULL !in memory
       case _ => true
  }

  /** The store `node->next.ptr = p`: the version next to it is left alone. */
  function StorePtr(next: map<Ptr, Ref>, node: Ptr, p: Ptr): map<Ptr, Ref> {
    if node in next then next[node := next[node].(ptr := p)] else next
  }

  /** A load of `p->next.ptr`; every block ever carved stays readable. */
  function LoadPtr(next: map<Ptr, Ref>, p: Ptr): Ptr {
    if p in next then next[p].ptr else NULL
  }

  function StepThread(s: State, t: Tid): State
    requires Ready(s, Step(t))
  {
    match s.PcOf(t)
    case PushLoad(node) => s.Goto(t, PushLink(node, s.top))
    case PushLink(node, top) => s.(next := StorePtr(s.next, node, top.ptr)).Goto(t, PushCas(node, top))
    case PushCas(node, top) =>
      if s.top == top
      then s.(top := Ref(node, top.version + 1)).Goto(t, PushCount)
      else s.Goto(t, PushLoad(node))
    case PushCount => s.(count := s.count + 1).Goto(t, Idle)
    case PopLoad =>
      if s.top.ptr == NULL then s.Goto(t, PopReturn(NULL)) else s.Goto(t, PopNext(s.top))
    case PopNext(top) => s.Goto(t, PopCas(top, LoadPtr(s.next, top.ptr)))
    case PopCas(top, next) =>
      if s.top == top
      then s.(top := Ref(next, top.version + 1)).Goto(t, PopCount(top.ptr))
      else s.Goto(t, PopLoad)
    case PopCount(node) => s.(count := s.count - 1).Goto(t, PopReturn(node))
  }

  function Apply(s: State, a: Action): State
    requires Ready(s, a)
  {
    match a
    case CallPush(t, node) => s.(held := s.held - {node}).Goto(t, PushLoad(node))
    case CallPop(t) => s.Goto(t, PopLoad)
    case Step(t) => StepThread(s, t)
    case Return(t) =>
      var node := s.PcOf(t).node;
      s.(held := if node == NULL then s.held else s.held + {node}).Goto(t, Idle)
    case Write(block, value) => s.(next := s.next[block := value])
    case Carve(memory) => s.(next := s.next + memory, held := s.held + memory.Keys)
  }

  // ---------------------------------------------------------------- the invariant

  /** The node at position `i`, or NULL past the end. */
  function At(l: seq<Ptr>, i: nat): Ptr {
    if i < |l| then l[i] else NULL
  }

  /** `l` is what one reads by following next.ptr from `p` to NULL. */
  ghost predicate Chain(next: map<Ptr, Ref>, p: Ptr, l: seq<Ptr>) {
    && p == At(l, 0)
    && forall i {:trigger l[i]} :: 0 <= i < |l| ==>
         l[i] != NULL && l[i] in next && next[l[i]].ptr == At(l, i + 1)
  }

  predicate Distinct(l: seq<Ptr>) {
    forall i, j :: 0 <= i < j < |l| ==> l[i] != l[j]
  }

  /** The block a running push or pop holds: given to push and not linked yet, or unlinked and not returned yet. */
  function InFlight(pc: Pc): Ptr {
    match pc
    case PushLoad(node) => node
    case PushLink(node, _) => node
    case PushCas(node, _) => node
    case PopCount(node) => node
    case PopReturn(node) => node
    case _ => NULL
  }

  /** A copy of `top` taken earlier: if its version is still current, so is the pointer. */
  ghost predicate Snapshot(s: State, r: Ref) {
    r.version <= s.top.version && (r.version == s.top.version ==> r == s.top)
  }

  ghost predicate ThreadOk(s: State, pc: Pc) {
    match pc
    case PushLoad(node) => node != NULL
    case PushLink(node, top) => node != NULL && Snapshot(s, top)
    case PushCas(node, top) => node != NULL && Snapshot(s, top) && node in s.next && s.next[node].ptr == top.ptr
    case PopNext(top) => Snapshot(s, top) && top.ptr != NULL && top.ptr in s.next
    case PopCas(top, next) =>
      Snapshot(s, top) && top.ptr != NULL && top.ptr in s.next && (s.top == top ==> next == s.next[top.ptr].ptr)
    case PopCount(node) => node != NULL
    case _ => true
  }

  /** Every block is in one place only: the list `l`, a client's hands, or one running operation. */
  ghost predicate Partition(s: State, l: seq<Ptr>) {
    && (forall b :: b in l ==> b in s.next && b !in s.held)
    && (forall b :: b in s.held ==> b in s.next)
    && (forall t :: InFlight(s.PcOf(t)) != NULL ==>
          var b := InFlight(s.PcOf(t)); b in s.next && b !in s.held && b !in l)
    && (forall t, u :: t != u && InFlight(s.PcOf(t)) != NULL ==> InFlight(s.PcOf(t)) != InFlight(s.PcOf(u)))
  }

  /** No block is lost. */
  ghost predicate Accounted(s: State, l: seq<Ptr>) {
    forall b :: b in s.next ==> b in l || b in s.held || exists t :: InFlight(s.PcOf(t)) == b
  }

  ghost predicate Inv(s: State, l: seq<Ptr>) {
    && NULL !in s.next && NULL !in s.held
    && Distinct(l)
    && Chain(s.next, s.top.ptr, l)
    && Partition(s, l)
    && Accounted(s, l)
    && forall t :: ThreadOk(s, s.PcOf(t))
  }

  /** What an action does to the list of nodes on the stack: only a successful cas2 changes it. */
  function NextList(s: State, a: Action, l: seq<Ptr>): seq<Ptr>
    requires Ready(s, a)
  {
    match a
    case Step(t) =>
      (match s.PcOf(t)
       case PushCas(node, top) => if s.top == top then [node] + l else l
       case PopCas(top, _) => if s.top == top && l != [] then l[1..] else l
       case _ => l)
    case _ => l
  }

  /** The list is determined by memory: two readings of the same chain agree. */
  lemma {:induction false} ChainUnique(next: map<Ptr, Ref>, p: Ptr, l: seq<Ptr>, m: seq<Ptr>)
    requires Chain(next, p, l) && Chain(next, p, m)
    ensures l == m
    decreases |l|
  {
    if l != [] && m != [] {
      ChainUnique(next, next[p].ptr, l[1..], m[1..]);
      assert l == [l[0]] + l[1..] && m == [m[0]] + m[1..];
    }
  }

  // ---------------------------------------------------------------- every action keeps the invariant

  /** What other threads may rely on: `top` changes only with a higher version, and a linked node keeps its link. */
  ghost predicate Evolves(s: State, s': State) {
    && (s'.top == s.top || s.top.version < s'.top.version)
    && (forall b :: b in s.next ==> b in s'.next)
    && (s'.top == s.top && s.top.ptr != NULL && s.top.ptr in s.next ==> s'.next[s.top.ptr].ptr == s.next[s.top.ptr].ptr)
  }

  /** An unlinked node in another thread's push is written by that thread only. */
  ghost predicate LeavesFlight(s: State, s': State, u: Tid) {
    && s'.PcOf(u) == s.PcOf(u)
    && (s.PcOf(u).PushCas? && s.PcOf(u).node in s.next ==>
          s.PcOf(u).node in s'.next && s'.next[s.PcOf(u).node] == s.next[s.PcOf(u).node])
  }

  function Actor(a: Action): set<Tid> {
    match a
    case CallPush(t, _) => {t}
    case CallPop(t) => {t}
    case Step(t) => {t}
    case Return(t) => {t}
    case _ => {}
  }

  lemma ActionEvolves(s: State, a: Action, l: seq<Ptr>)
    requires Inv(s, l) && Enabled(s, a)
    ensures Evolves(s, Apply(s, a))
    ensures forall u :: u !in Actor(a) ==> LeavesFlight(s, Apply(s, a), u)
  {
    assert At(l, 0) == s.top.ptr;
    if a.Step? {
      assert ThreadOk(s, s.PcOf(a.t));
    }
    forall u | u !in Actor(a) ensures LeavesFlight(s, Apply(s, a), u) {}
  }

  lemma ActionKeepsThreads(s: State, a: Action, l: seq<Ptr>)
    requires Inv(s, l) && Enabled(s, a)
    ensures forall t :: ThreadOk(Apply(s, a), Apply(s, a).PcOf(t))
  {
    var s' := Apply(s, a);
    ActionEvolves(s, a, l);
    forall t ensures ThreadOk(s', s'.PcOf(t)) {
      assert ThreadOk(s, s.PcOf(t));
      if t in Actor(a) {
        assert At(l, 0) == s.top.ptr;
      } else {
        assert LeavesFlight(s, s', t);
      }
    }
  }

  lemma ActionKeepsChain(s: State, a: Action, l: seq<Ptr>)
    requires Inv(s, l) && Enabled(s, a)
    ensures Distinct(NextList(s, a, l))
    ensures Chain(Apply(s, a).next, Apply(s, a).top.ptr, NextList(s, a, l))
  {
    if a.Step? {
      assert ThreadOk(s, s.PcOf(a.t));
    }
  }

  /** The block in an acting thread's hands afterwards is the one it had, or the one it just took. */
  lemma ActionMovesOneBlock(s: State, a: Action, l: seq<Ptr>, t: Tid)
    requires Inv(s, l) && Enabled(s, a)
    ensures t !in Actor(a) ==> Apply(s, a).PcOf(t) == s.PcOf(t)
    ensures
      var mine, mine' := InFlight(s.PcOf(t)), InFlight(Apply(s, a).PcOf(t));
      || mine' == mine || mine' == NULL
      || (mine == NULL && t in Actor(a) && a.CallPush? && mine' in s.held)
      || (mine == NULL && t in Actor(a) && a.Step? && l != [] && mine' == l[0] && NextList(s, a, l) == l[1..])
  {
    assert At(l, 0) == s.top.ptr;
  }

  lemma FlightStaysApart(s: State, a: Action, l: seq<Ptr>, t: Tid)
    requires Inv(s, l) && Enabled(s, a)
    requires InFlight(Apply(s, a).PcOf(t)) != NULL
    ensures var b := InFlight(Apply(s, a).PcOf(t));
      b in Apply(s, a).next && b !in Apply(s, a).held && b !in NextList(s, a, l)
  {
    ActionMovesOneBlock(s, a, l, t);
    var b := InFlight(Apply(s, a).PcOf(t));
    if a.Step? || a.Return? {
      assert InFlight(s.PcOf(a.t)) != NULL && t != a.t ==> InFlight(s.PcOf(t)) != InFlight(s.PcOf(a.t));
    }
  }

  lemma FlightsStayDisjoint(s: State, a: Action, l: seq<Ptr>, t: Tid, u: Tid)
    requires Inv(s, l) && Enabled(s, a) && t != u
    requires InFlight(Apply(s, a).PcOf(t)) != NULL
    ensures InFlight(Apply(s, a).PcOf(t)) != InFlight(Apply(s, a).PcOf(u))
  {
    ActionMovesOneBlock(s, a, l, t);
    ActionMovesOneBlock(s, a, l, u);
  }

  lemma ActionKeepsPartition(s: State, a: Action, l: seq<Ptr>)
    requires Inv(s, l) && Enabled(s, a)
    ensures Partition(Apply(s, a), NextList(s, a, l))
  {
    var s', l' := Apply(s, a), NextList(s, a, l);
    forall t | InFlight(s'.PcOf(t)) != NULL
      ensures var b := InFlight(s'.PcOf(t)); b in s'.next && b !in s'.held && b !in l'
    {
      FlightStaysApart(s, a, l, t);
    }
    forall t, u | t != u && InFlight(s'.PcOf(t)) != NULL
      ensures InFlight(s'.PcOf(t)) != InFlight(s'.PcOf(u))
    {
      FlightsStayDisjoint(s, a, l, t, u);
    }
    ListAndHeldStayApart(s, a, l);
  }

  lemma ListAndHeldStayApart(s: State, a: Action, l: seq<Ptr>)
    requires Inv(s, l) && Enabled(s, a)
    ensures forall b :: b in NextList(s, a, l) ==> b in Apply(s, a).next && b !in Apply(s, a).held
    ensures forall b :: b in Apply(s, a).held ==> b in Apply(s, a).next && b != NULL
    ensures NULL !in Apply(s, a).next
  {
    if a.Step? || a.Return? {
      assert InFlight(s.PcOf(a.t)) != NULL ==>
        var b := InFlight(s.PcOf(a.t)); b in s.next && b !in s.held && b !in l;
    }
  }

  /** A block in flight stays so, or its thread has put it on the stack or handed it to its client. */
  lemma FlightEnds(s: State, a: Action, l: seq<Ptr>, t: Tid, b: Ptr)
    requires Inv(s, l) && Enabled(s, a) && InFlight(s.PcOf(t)) == b && b in s.next
    ensures InFlight(Apply(s, a).PcOf(t)) == b || b in Apply(s, a).held || b in NextList(s, a, l)
  {
  }

  /** A block on the stack or held by a client stays so, or is in flight with the thread that acted. */
  lemma FlightBegins(s: State, a: Action, l: seq<Ptr>, b: Ptr)
    requires Inv(s, l) && Enabled(s, a) && (b in l || b in s.held)
    ensures b in NextList(s, a, l) || b in Apply(s, a).held || exists t :: InFlight(Apply(s, a).PcOf(t)) == b
  {
    if !(b in NextList(s, a, l) || b in Apply(s, a).held) {
      assert At(l, 0) == s.top.ptr;
      assert l != [] && b in l && b !in l[1..] ==> b == l[0];
      assert InFlight(Apply(s, a).PcOf(a.t)) == b;
    }
  }

  lemma CarvedIsHeld(s: State, a: Action, b: Ptr)
    requires Enabled(s, a) && b in Apply(s, a).next && b !in s.next
    ensures b in Apply(s, a).held
  {
  }

  lemma ActionKeepsAccounted(s: State, a: Action, l: seq<Ptr>)
    requires Inv(s, l) && Enabled(s, a)
    ensures Accounted(Apply(s, a), NextList(s, a, l))
  {
    var s', l' := Apply(s, a), NextList(s, a, l);
    forall b | b in s'.next
      ensures b in l' || b in s'.held || exists t :: InFlight(s'.PcOf(t)) == b
    {
      if b !in s.next {
        CarvedIsHeld(s, a, b);
      } else if b in l || b in s.held {
        FlightBegins(s, a, l, b);
      } else {
        var t :| InFlight(s.PcOf(t)) == b;
        FlightEnds(s, a, l, t, b);
      }
    }
  }

  lemma ActionKeepsNull(s: State, a: Action, l: seq<Ptr>)
    requires Inv(s, l) && Enabled(s, a)
    ensures NULL !in Apply(s, a).next && NULL !in Apply(s, a).held
  {
  }

  /** Every action of every thread keeps the invariant, and changes the stack as `NextList` says. */
  lemma ActionKeepsInv(s: State, a: Action, l: seq<Ptr>)
    requires Inv(s, l) && Enabled(s, a)
    ensures Inv(Apply(s, a), NextList(s, a, l))
  {
    ActionKeepsNull(s, a, l);
    ActionKeepsThreads(s, a, l);
    ActionKeepsChain(s, a, l);
    ActionKeepsPartition(s, a, l);
    ActionKeepsAccounted(s, a, l);
  }

  /** The link of a block a client holds changes only by the client's own write, and no version ever drops unless so. */
  lemma HeldBlocksAreStable(s: State, a: Action, l: seq<Ptr>)
    requires Inv(s, l) && Enabled(s, a)
    ensures forall b :: b in s.next ==> b in Apply(s, a).next
    ensures forall b :: b in s.next && !(a.Write? && a.block == b) ==> Apply(s, a).next[b].version == s.next[b].version
    ensures forall b :: b in s.held && !(a.Write? && a.block == b) ==> Apply(s, a).next[b] == s.next[b]
  {
    if a.Step? {
      assert InFlight(s.PcOf(a.t)) != NULL ==> InFlight(s.PcOf(a.t)) !in s.held;
      assert ThreadOk(s, s.PcOf(a.t));
    }
  }

  // ---------------------------------------------------------------- linearizability

  /** What a caller sees of an operation: asked for, taken effect with this result, or neither. */
  datatype Op = NoOp | Push(node: Ptr) | Pushed | Pop | Popped(node: Ptr)

  function OpOf(pc: Pc): Op {
    match pc
    case Idle => NoOp
    case PushLoad(node) => Push(node)
    case PushLink(node, _) => Push(node)
    case PushCas(node, _) => Push(node)
    case PushCount => Pushed
    case PopLoad => Pop
    case PopNext(_) => Pop
    case PopCas(_, _) => Pop
    case PopCount(node) => Popped(node)
    case PopReturn(node) => Popped(node)
  }

  /** The sequential specification: an operation takes effect in one indivisible change of a LIFO list. */
  ghost predicate AtomicStep(l: seq<Ptr>, op: Op, l': seq<Ptr>, op': Op) {
    || (op' == op && l' == l)
    || (op.NoOp? && (op'.Push? || op'.Pop?) && l' == l)                    // call
    || ((op.Pushed? || op.Popped?) && op'.NoOp? && l' == l)                // return
    || (op.Push? && op'.Pushed? && l' == [op.node] + l)                    // push takes effect
    || (op.Pop? && l != [] && op' == Popped(l[0]) && l' == l[1..])         // pop takes effect
    || (op.Pop? && l == [] && op' == Popped(NULL) && l' == l)              // pop finds nothing
  }

  /**
    Each action is an atomic step of the acting thread's operation and no step of any other thread's.
    In particular the cas2 of a pop succeeds only if the link read earlier is still the top node's
    successor, although the node may have been popped, overwritten and pushed again in between.
  */
  lemma ActionIsAtomic(s: State, a: Action, l: seq<Ptr>)
    requires Inv(s, l) && Enabled(s, a)
    ensures forall u :: u !in Actor(a) ==> OpOf(Apply(s, a).PcOf(u)) == OpOf(s.PcOf(u))
    ensures forall t :: t in Actor(a) ==>
      AtomicStep(l, OpOf(s.PcOf(t)), NextList(s, a, l), OpOf(Apply(s, a).PcOf(t)))
    ensures Actor(a) == {} ==> NextList(s, a, l) == l
  {
    if a.Step? {
      assert ThreadOk(s, s.PcOf(a.t));
      StepIsAtomic(s, a.t, l);
    }
  }

  lemma StepIsAtomic(s: State, t: Tid, l: seq<Ptr>)
    requires Enabled(s, Step(t)) && At(l, 0) == s.top.ptr && (l != [] ==> l[0] != NULL)
    requires s.PcOf(t).PopCas? ==> s.PcOf(t).top.ptr != NULL
    ensures AtomicStep(l, OpOf(s.PcOf(t)), NextList(s, Step(t), l), OpOf(StepThread(s, t).PcOf(t)))
  {
  }

  /** A run: states and the actions between them, from a fresh stack, for any threads in any order. */
  ghost predicate IsRun(ss: seq<State>, acts: seq<Action>) {
    && |ss| == |acts| + 1
    && Init(ss[0])
    && forall i :: 0 <= i < |acts| ==> Enabled(ss[i], acts[i]) && ss[i + 1] == Apply(ss[i], acts[i])
  }

  /** The stack's contents after `i` actions. */
  ghost function ListAt(ss: seq<State>, acts: seq<Action>, i: nat): (l: seq<Ptr>)
    requires IsRun(ss, acts) && i <= |acts|
  {
    if i == 0 then [] else NextList(ss[i - 1], acts[i - 1], ListAt(ss, acts, i - 1))
  }

  lemma {:induction false} RunKeepsInv(ss: seq<State>, acts: seq<Action>, i: nat)
    requires IsRun(ss, acts) && i <= |acts|
    ensures Inv(ss[i], ListAt(ss, acts, i))
  {
    if i == 0 {
      forall t ensures ThreadOk(ss[0], ss[0].PcOf(t)) && InFlight(ss[0].PcOf(t)) == NULL {
        assert ss[0].PcOf(t) == Idle;
      }
    } else {
      RunKeepsInv(ss, acts, i - 1);
      ActionKeepsInv(ss[i - 1], acts[i - 1], ListAt(ss, acts, i - 1));
    }
  }

  /**
    Linearizability over whole runs: at every moment memory holds exactly one list (the one reached by the
    atomic steps so far), and every action of every thread is an atomic step on it.
  */
  lemma RunIsLinearizable(ss: seq<State>, acts: seq<Action>, i: nat, t: Tid, l: seq<Ptr>)
    requires IsRun(ss, acts) && i < |acts|
    ensures Chain(ss[i].next, ss[i].top.ptr, l) <==> l == ListAt(ss, acts, i)
    ensures t in Actor(acts[i]) ==>
      AtomicStep(ListAt(ss, acts, i), OpOf(ss[i].PcOf(t)), ListAt(ss, acts, i + 1), OpOf(ss[i + 1].PcOf(t)))
    ensures t !in Actor(acts[i]) ==> OpOf(ss[i + 1].PcOf(t)) == OpOf(ss[i].PcOf(t))
    ensures Actor(acts[i]) == {} ==> ListAt(ss, acts, i + 1) == ListAt(ss, acts, i)
  {
    RunKeepsInv(ss, acts, i);
    ActionIsAtomic(ss[i], acts[i], ListAt(ss, acts, i));
    if Chain(ss[i].next, ss[i].top.ptr, l) {
      ChainUnique(ss[i].next, ss[i].top.ptr, l, ListAt(ss, acts, i));
    }
  }

  /** A returned block is in nobody else's hands: two live allocations never coincide, and no block is lost. */
  lemma PopReturnsUnownedBlock(ss: seq<State>, acts: seq<Action>, i: nat, t: Tid)
    requires IsRun(ss, acts) && i < |acts| && acts[i] == Return(t) && ss[i].PcOf(t).node != NULL
    ensures var b := ss[i].PcOf(t).node;
      && b in ss[i].next && b !in ss[i].held && b !in ListAt(ss, acts, i)
      && (forall u :: u != t ==> InFlight(ss[i].PcOf(u)) != b)
      && b in ss[i + 1].held
  {
    RunKeepsInv(ss, acts, i);
    var b := ss[i].PcOf(t).node;
    assert InFlight(ss[i].PcOf(t)) == b;
  }

  /** Conservation: at every moment each carved block is in exactly one of the three places. */
  lemma BlocksAreConserved(ss: seq<State>, acts: seq<Action>, i: nat, b: Ptr)
    requires IsRun(ss, acts) && i <= |acts| && b in ss[i].next
    ensures var l := ListAt(ss, acts, i);
      var flying := exists t :: InFlight(ss[i].PcOf(t)) == b;
      && (b in l || b in ss[i].held || flying)
      && !(b in l && b in ss[i].held) && !(b in l && flying) && !(b in ss[i].held && flying)
  {
    RunKeepsInv(ss, acts, i);
  }

  // ---------------------------------------------------------------- the counter

  function Pushing(s: State): set<Tid> {
    set t | t in s.pcs && s.pcs[t].PushCount?
  }

  function Popping(s: State): set<Tid> {
    set t | t in s.pcs && s.pcs[t].PopCount?
  }

  /** `count` lags the list by exactly the operations between their cas2 and their counter update. */
  ghost predicate CountOk(s: State, l: seq<Ptr>) {
    s.count == |l| - |Pushing(s)| + |Popping(s)|
  }

  lemma ActionKeepsCount(s: State, a: Action, l: seq<Ptr>)
    requires Inv(s, l) && Enabled(s, a) && CountOk(s, l)
    ensures CountOk(Apply(s, a), NextList(s, a, l))
  {
    if Actor(a) == {} {
      assert Apply(s, a).pcs == s.pcs;
    } else {
      if a.Step? { assert ThreadOk(s, s.PcOf(a.t)); }
      OneThreadKeepsCount(s, Apply(s, a), a.t);
    }
  }

  /** Only the acting thread can enter or leave the two sets of pending counter updates. */
  lemma OneThreadKeepsCount(s: State, s': State, t: Tid)
    requires s'.pcs == s.pcs[t := s'.PcOf(t)]
    ensures |Pushing(s')| == |Pushing(s)| - (if s.PcOf(t).PushCount? then 1 else 0) + (if s'.PcOf(t).PushCount? then 1 else 0)
    ensures |Popping(s')| == |Popping(s)| - (if s.PcOf(t).PopCount? then 1 else 0) + (if s'.PcOf(t).PopCount? then 1 else 0)
  {
    assert Pushing(s') - {t} == Pushing(s) - {t};
    assert Popping(s') - {t} == Popping(s) - {t};
    CardinalityWithout(Pushing(s), t);
    CardinalityWithout(Pushing(s'), t);
    CardinalityWithout(Popping(s), t);
    CardinalityWithout(Popping(s'), t);
  }

  lemma CardinalityWithout(ts: set<Tid>, t: Tid)
    ensures |ts| == |ts - {t}| + (if t in ts then 1 else 0)
  {
    if t in ts {
      assert ts == (ts - {t}) + {t};
    } else {
      assert ts == ts - {t};
    }
  }

  lemma InitCountOk(s: State)
    requires Init(s)
    ensures CountOk(s, [])
  {
    forall t ensures t !in Pushing(s) && t !in Popping(s) {
      assert s.PcOf(t) == Idle;
    }
    assert Pushing(s) == {} && Popping(s) == {};
  }

  lemma NextCountOk(ss: seq<State>, acts: seq<Action>, i: nat)
    requires IsRun(ss, acts) && i < |acts| && CountOk(ss[i], ListAt(ss, acts, i))
    ensures CountOk(ss[i + 1], ListAt(ss, acts, i + 1))
  {
    RunKeepsInv(ss, acts, i);
    ActionKeepsCount(ss[i], acts[i], ListAt(ss, acts, i));
  }

  lemma {:induction false} RunKeepsCount(ss: seq<State>, acts: seq<Action>, i: nat)
    requires IsRun(ss, acts) && i <= |acts|
    ensures CountOk(ss[i], ListAt(ss, acts, i))
  {
    if i == 0 {
      InitCountOk(ss[0]);
    } else {
      RunKeepsCount(ss, acts, i - 1);
      NextCountOk(ss, acts, i - 1);
    }
  }
}
