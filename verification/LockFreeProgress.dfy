/**
  Solo completion of the queue of airplay/threads/LockFree.cpp (lines 141-273): whatever the others were doing when they
  stopped, a thread inside an operation finishes it by steps of its own, within a bound.  The one exception is a second
  pop of lf_heap_alloc that finds nothing, because others have taken all the blocks of the chunk carved for it.
*/
module LockFreeProgress {
  import opened TaggedStack
  import opened LockFreeQueue

  /** At most `n` steps of thread `t` alone bring it out of its operation. */
  ghost predicate Finishes(q: QState, t: Tid, n: nat)
    decreases n
  {
    q.QPcOf(t).Outside? || (n > 0 && exists a: QAction :: a.t == t && QEnabled(q, a) && Finishes(QApply(q, a), t, n - 1))
  }

  // ---------------------------------------------------------------- where a thread is

  predicate InAlloc(pc: QPc) {
    pc.EnqAlloc? || pc.EnqChunk? || pc.EnqGrow? || pc.EnqRetry?
  }

  predicate InLoop(pc: QPc) {
    pc.EnqValue? || pc.EnqReset? || pc.EnqTail? || pc.EnqNext? || pc.EnqCheck? || pc.EnqLink? || pc.EnqHelp?
  }

  predicate InSearch(pc: QPc) {
    QOpOf(pc).Dequeue?
  }

  predicate InEnd(pc: QPc) {
    QOpOf(pc).Enqueued? || QOpOf(pc).Dequeued?
  }

  // ---------------------------------------------------------------- what its progress rests on

  /** `tail` is on the last node or on the one before it. */
  ghost predicate TailNear(q: QState) {
    && q.tail.ptr in q.stk.next
    && var p := q.NextOf(q.tail.ptr).ptr; p == NULL || (p in q.stk.next && q.NextOf(p).ptr == NULL)
  }

  /** The list does not run from tail back to head. */
  ghost predicate HeadBefore(q: QState) {
    q.head.ptr != NULL && q.NextOf(q.tail.ptr).ptr != q.head.ptr
  }

  /** A copied link that is not null is the current one while tail is still the copy. */
  ghost predicate FreshHelp(q: QState, tail: Ref, next: Ref) {
    tail == q.tail ==> next.ptr == q.NextOf(q.tail.ptr).ptr != NULL
  }

  ghost predicate CopyOk(q: QState, pc: QPc) {
    match pc
    case EnqCheck(_, _, tail, next) => next.ptr != NULL ==> FreshHelp(q, tail, next)
    case EnqHelp(_, _, tail, next) => FreshHelp(q, tail, next)
    case DeqCheck(head, tail, next) => head.ptr == tail.ptr && next.ptr != NULL ==> FreshHelp(q, tail, next)
    case DeqHelp(tail, next) => FreshHelp(q, tail, next)
    case _ => true
  }

  /** A block whose link a push may write without touching the end of the queue. */
  predicate Apart(q: QState, b: Ptr) {
    b != NULL && b != q.tail.ptr && b != q.NextOf(q.tail.ptr).ptr
  }

  /** The second pop of lf_heap_alloc has found, or is going to find, the free list empty. */
  predicate OutOfMemory(q: QState, t: Tid) {
    match q.QPcOf(t)
    case EnqGrow(_, blocks) => blocks == [] && q.stk.top.ptr == NULL && (q.stk.PcOf(t).Idle? || q.stk.PcOf(t).PushCount?)
    case EnqRetry(_) => FindsNothing(q, t)
    case _ => false
  }

  predicate FindsNothing(q: QState, t: Tid) {
    match q.stk.PcOf(t)
    case PopReturn(node) => node == NULL
    case PopCount(_) => false
    case _ => q.stk.top.ptr == NULL
  }

  /** A running pop has a block to pop, or had. */
  predicate PopOk(pc: Pc) {
    && (pc.PopNext? || pc.PopCas? ==> pc.top.ptr != NULL)
    && (pc.PopCount? ==> pc.node != NULL)
  }

  ghost predicate AllocOk(q: QState, t: Tid) {
    && TailNear(q) && PopOk(q.stk.PcOf(t)) && !OutOfMemory(q, t)
    && (q.QPcOf(t).EnqGrow? ==>
          && (forall i :: 0 <= i < |q.QPcOf(t).blocks| ==> Apart(q, q.QPcOf(t).blocks[i]))
          && (InFlight(q.stk.PcOf(t)) != NULL ==> Apart(q, InFlight(q.stk.PcOf(t))))
          && (q.stk.PcOf(t).PushCas? || q.stk.PcOf(t).PushLink? || q.stk.PcOf(t).PushLoad? ==> q.stk.PcOf(t).node != NULL))
  }

  ghost predicate Good(q: QState, t: Tid) {
    && Calls(q.QPcOf(t), q.stk.PcOf(t))
    && (InAlloc(q.QPcOf(t)) ==> AllocOk(q, t))
    && (InLoop(q.QPcOf(t)) ==> TailNear(q) && CopyOk(q, q.QPcOf(t)))
    && (InSearch(q.QPcOf(t)) ==> TailNear(q) && HeadBefore(q) && CopyOk(q, q.QPcOf(t)))
  }

  // ---------------------------------------------------------------- how far it is from its end

  /** Steps left in lf_stack_push, if nobody interferes any more; a stale copy of top costs one failed cas2. */
  function PushRank(pc: Pc, top: Ref): nat {
    match pc
    case PushCount => 1
    case PushCas(_, copy) => if copy == top then 2 else 5
    case PushLink(_, copy) => if copy == top then 3 else 6
    case PushLoad(_) => 4
    case _ => 0
  }

  function PopRank(pc: Pc, top: Ref): nat {
    match pc
    case PopCount(_) => 1
    case PopCas(copy, _) => if copy == top then 2 else 5
    case PopNext(copy) => if copy == top then 3 else 6
    case PopLoad => 4
    case _ => 0
  }

  /** The same for a pop that is going to find nothing. */
  function NullPopRank(pc: Pc): nat {
    match pc
    case PopLoad => 1
    case PopCas(_, _) => 2
    case PopNext(_) => 3
    case _ => 0
  }

  function AllocRank(q: QState, t: Tid): nat
    requires InAlloc(q.QPcOf(t))
  {
    match q.QPcOf(t)
    case EnqAlloc(_) =>
      if FindsNothing(q, t) then 25 + NullPopRank(q.stk.PcOf(t)) else 13 + PopRank(q.stk.PcOf(t), q.stk.top)
    case EnqChunk(_) => 24
    case EnqGrow(_, blocks) => 18 + 5 * |blocks| + PushRank(q.stk.PcOf(t), q.stk.top)
    case EnqRetry(_) => 13 + PopRank(q.stk.PcOf(t), q.stk.top)
  }

  /** From `tail = pQueue->tail` on: straight on if tail is on the last node, else with one round of helping. */
  function TailRank(q: QState): nat {
    if q.NextOf(q.tail.ptr).ptr == NULL then 6 else 10
  }

  function LoopRank(q: QState, pc: QPc): nat
    requires InLoop(pc)
  {
    match pc
    case EnqValue(_, _) => 12
    case EnqReset(_, _) => 11
    case EnqTail(_, _) => TailRank(q)
    case EnqNext(_, _, tail) => if tail == q.tail then TailRank(q) - 1 else TailRank(q) + 2
    case EnqCheck(_, _, tail, next) =>
      if tail != q.tail then TailRank(q) + 1
      else if next.ptr != NULL then 8
      else if q.NextOf(tail.ptr) == next then 4 else TailRank(q) + 2
    case EnqLink(_, _, tail, next) => if q.NextOf(tail.ptr) == next then 3 else TailRank(q) + 1
    case EnqHelp(_, _, tail, _) => if tail == q.tail then 7 else TailRank(q) + 1
  }

  /** From `head = pQueue->head` on: to a node, to an empty queue, or to a round of helping first. */
  function HeadRank(q: QState): nat {
    if q.head.ptr != q.tail.ptr then 14 else if q.NextOf(q.head.ptr).ptr == NULL then 5 else 19
  }

  function HeadHelpRank(q: QState, tail: Ref): nat {
    if tail == q.tail then 15 else HeadRank(q) + 1
  }

  function SearchRank(q: QState, pc: QPc): nat
    requires InSearch(pc)
  {
    match pc
    case DeqHead => HeadRank(q)
    case DeqTail(head) => if head == q.head then HeadRank(q) - 1 else HeadRank(q) + 3
    case DeqNext(head, tail) =>
      if head != q.head then HeadRank(q) + 2
      else if head.ptr != tail.ptr then 12
      else if q.NextOf(head.ptr).ptr == NULL then 3 else 2 + HeadHelpRank(q, tail)
    case DeqCheck(head, tail, next) =>
      if head != q.head then HeadRank(q) + 1
      else if head.ptr != tail.ptr then 11
      else if next.ptr == NULL then 2 else 1 + HeadHelpRank(q, tail)
    case DeqHelp(tail, _) => HeadHelpRank(q, tail)
    case DeqValue(head, _) => if head == q.head then 10 else HeadRank(q) + 2
    case DeqCas(head, _, _) => if head == q.head then 9 else HeadRank(q) + 1
  }

  function EndRank(q: QState, t: Tid): nat {
    match q.QPcOf(t)
    case EnqSwing(_, _) => 2
    case EnqCount => 1
    case DeqFree(_, _) => 8
    case DeqFreeing(_) => 3 + PushRank(q.stk.PcOf(t), q.stk.top)
    case DeqCount(_) => 2
    case DeqReturn(_) => 1
    case _ => 0
  }

  function Rank(q: QState, t: Tid): nat {
    if InAlloc(q.QPcOf(t)) then AllocRank(q, t)
    else if InLoop(q.QPcOf(t)) then LoopRank(q, q.QPcOf(t))
    else if InSearch(q.QPcOf(t)) then SearchRank(q, q.QPcOf(t))
    else EndRank(q, t)
  }

  // ---------------------------------------------------------------- each step comes closer

  /** The next access of a thread; the chunk it carves, if it does, is one unused block `p`. */
  function NextAction(q: QState, t: Tid, p: Ptr): QAction {
    if q.QPcOf(t).EnqChunk? then Malloc(t, map[p := Ref(NULL, 0)], [p])
    else if Ready(q.stk, Step(t)) then FreeListStep(t)
    else QueueStep(t)
  }

  ghost predicate Closer(q: QState, t: Tid, p: Ptr) {
    var a := NextAction(q, t, p);
    QEnabled(q, a) && Good(QApply(q, a), t) && Rank(QApply(q, a), t) < Rank(q, t)
  }

  lemma StoreStep(q: QState, t: Tid, p: Ptr)
    requires Good(q, t) && (q.QPcOf(t).EnqValue? || q.QPcOf(t).EnqReset?)
    ensures Closer(q, t, p)
  {
  }

  lemma CopyStep(q: QState, t: Tid, p: Ptr)
    requires Good(q, t) && (q.QPcOf(t).EnqTail? || q.QPcOf(t).EnqNext? || q.QPcOf(t).EnqCheck?)
    ensures Closer(q, t, p)
  {
  }

  lemma SwapStep(q: QState, t: Tid, p: Ptr)
    requires Good(q, t) && (q.QPcOf(t).EnqLink? || q.QPcOf(t).EnqHelp?)
    ensures Closer(q, t, p)
  {
  }

  lemma LoopStep(q: QState, t: Tid, p: Ptr)
    requires Good(q, t) && InLoop(q.QPcOf(t))
    ensures Closer(q, t, p)
  {
    match q.QPcOf(t)
    case EnqValue(_, _) => StoreStep(q, t, p);
    case EnqReset(_, _) => StoreStep(q, t, p);
    case EnqLink(_, _, _, _) => SwapStep(q, t, p);
    case EnqHelp(_, _, _, _) => SwapStep(q, t, p);
    case _ => CopyStep(q, t, p);
  }

  lemma ReadStep(q: QState, t: Tid, p: Ptr)
    requires Good(q, t) && (q.QPcOf(t).DeqHead? || q.QPcOf(t).DeqTail? || q.QPcOf(t).DeqNext?)
    ensures Closer(q, t, p)
  {
  }

  lemma CheckStep(q: QState, t: Tid, p: Ptr)
    requires Good(q, t) && q.QPcOf(t).DeqCheck?
    ensures Closer(q, t, p)
  {
  }

  lemma TakeStep(q: QState, t: Tid, p: Ptr)
    requires Good(q, t) && (q.QPcOf(t).DeqValue? || q.QPcOf(t).DeqCas?)
    ensures Closer(q, t, p)
  {
  }

  /** With tail on the dummy node, helping moves it beyond head. */
  lemma HelpStep(q: QState, t: Tid, p: Ptr)
    requires Good(q, t) && q.QPcOf(t).DeqHelp?
    ensures Closer(q, t, p)
  {
    var q1 := StepQueue(q, t);
    assert q1.stk == q.stk && q1.head == q.head && q1.QPcOf(t) == DeqHead;
  }

  lemma SearchStep(q: QState, t: Tid, p: Ptr)
    requires Good(q, t) && InSearch(q.QPcOf(t))
    ensures Closer(q, t, p)
  {
    match q.QPcOf(t)
    case DeqCheck(_, _, _) => CheckStep(q, t, p);
    case DeqHelp(_, _) => HelpStep(q, t, p);
    case DeqValue(_, _) => TakeStep(q, t, p);
    case DeqCas(_, _, _) => TakeStep(q, t, p);
    case _ => ReadStep(q, t, p);
  }

  lemma FreeStep(q: QState, t: Tid, p: Ptr)
    requires Good(q, t) && q.QPcOf(t).DeqFreeing?
    ensures Closer(q, t, p)
  {
  }

  lemma CountStep(q: QState, t: Tid, p: Ptr)
    requires Good(q, t) && InEnd(q.QPcOf(t)) && !q.QPcOf(t).DeqFreeing?
    ensures Closer(q, t, p)
  {
  }

  lemma EndStep(q: QState, t: Tid, p: Ptr)
    requires Good(q, t) && InEnd(q.QPcOf(t))
    ensures Closer(q, t, p)
  {
    if q.QPcOf(t).DeqFreeing? {
      FreeStep(q, t, p);
    } else {
      CountStep(q, t, p);
    }
  }

  lemma FirstPopStep(q: QState, t: Tid, p: Ptr)
    requires Good(q, t) && q.QPcOf(t).EnqAlloc?
    ensures Closer(q, t, p)
  {
  }

  lemma SecondPopStep(q: QState, t: Tid, p: Ptr)
    requires Good(q, t) && q.QPcOf(t).EnqRetry?
    ensures Closer(q, t, p)
  {
  }

  lemma GrowStep(q: QState, t: Tid, p: Ptr)
    requires Good(q, t) && q.QPcOf(t).EnqGrow?
    ensures Closer(q, t, p)
  {
    var a, blocks := NextAction(q, t, p), q.QPcOf(t).blocks;
    var q1 := QApply(q, a);
    assert q1.tail == q.tail && q1.NextOf(q.tail.ptr).ptr == q.NextOf(q.tail.ptr).ptr;
    if blocks != [] {
      assert Apart(q, blocks[0]);
    }
  }

  lemma ChunkStep(q: QState, t: Tid, p: Ptr)
    requires Good(q, t) && q.QPcOf(t).EnqChunk? && p != NULL && p !in q.stk.next
    ensures Closer(q, t, p)
  {
    assert (set b | b in [p]) == map[p := Ref(NULL, 0)].Keys;
  }

  lemma OwnStep(q: QState, t: Tid, p: Ptr)
    requires Good(q, t) && !q.QPcOf(t).Outside? && p != NULL && p !in q.stk.next
    ensures Closer(q, t, p)
  {
    var pc := q.QPcOf(t);
    if InLoop(pc) {
      LoopStep(q, t, p);
    } else if InSearch(pc) {
      SearchStep(q, t, p);
    } else if InEnd(pc) {
      EndStep(q, t, p);
    } else if pc.EnqChunk? {
      ChunkStep(q, t, p);
    } else if pc.EnqGrow? {
      GrowStep(q, t, p);
    } else if pc.EnqAlloc? {
      FirstPopStep(q, t, p);
    } else {
      SecondPopStep(q, t, p);
    }
  }

  /** There always is memory that was never carved. */
  lemma {:induction false} FreshBlock(used: set<Ptr>) returns (p: Ptr)
    ensures p != NULL && forall b :: b in used ==> b < p
    decreases |used|
  {
    if used == {} {
      p := 1;
    } else {
      var b :| b in used;
      var r := FreshBlock(used - {b});
      p := if r <= b then b + 1 else r;
      assert forall c :: c in used ==> c == b || c in used - {b};
    }
  }

  lemma {:induction false} GoodFinishes(q: QState, t: Tid, n: nat)
    requires Good(q, t) && Rank(q, t) <= n
    ensures Finishes(q, t, n)
    decreases n
  {
    if !q.QPcOf(t).Outside? {
      var p := FreshBlock(q.stk.next.Keys);
      OwnStep(q, t, p);
      GoodFinishes(QApply(q, NextAction(q, t, p)), t, n - 1);
    }
  }

  // ---------------------------------------------------------------- every reachable state

  /** The list of the queue gives what is asked of head and tail. */
  lemma EndsOfQueue(q: QState, l: seq<Ptr>, nodes: seq<Ptr>)
    requires Inv(q.stk, l) && Linked(q, nodes)
    ensures TailNear(q) && HeadBefore(q)
    ensures q.tail.ptr in nodes && (q.NextOf(q.tail.ptr).ptr == NULL || q.NextOf(q.tail.ptr).ptr in nodes)
  {
    var k := if q.tail.ptr == Last(nodes) then |nodes| - 1 else |nodes| - 2;
    assert nodes[k] == q.tail.ptr && q.NextOf(nodes[k]).ptr == At(nodes, k + 1);
    assert nodes[|nodes| - 1] in q.stk.next && q.NextOf(nodes[|nodes| - 1]).ptr == NULL;
    assert nodes[0] == q.head.ptr;
  }

  lemma NotInQueueIsApart(q: QState, l: seq<Ptr>, nodes: seq<Ptr>, b: Ptr)
    requires Inv(q.stk, l) && Linked(q, nodes) && b !in nodes && b != NULL
    ensures Apart(q, b)
  {
    EndsOfQueue(q, l, nodes);
  }

  /** What a growing thread still has to push is nowhere near the queue. */
  lemma BlocksAreApart(q: QState, l: seq<Ptr>, nodes: seq<Ptr>, t: Tid)
    requires QInv(q, l, nodes) && q.QPcOf(t).EnqGrow?
    ensures forall i :: 0 <= i < |q.QPcOf(t).blocks| ==> Apart(q, q.QPcOf(t).blocks[i])
    ensures InFlight(q.stk.PcOf(t)) != NULL ==> Apart(q, InFlight(q.stk.PcOf(t)))
  {
    var blocks, p := q.QPcOf(t).blocks, InFlight(q.stk.PcOf(t));
    forall i | 0 <= i < |blocks| ensures Apart(q, blocks[i]) {
      assert blocks[i] in Private(q.QPcOf(t));
      NotInQueueIsApart(q, l, nodes, blocks[i]);
    }
    if p != NULL {
      assert p !in q.stk.held;
      NotInQueueIsApart(q, l, nodes, p);
    }
  }

  lemma ReachableIsGood(q: QState, l: seq<Ptr>, nodes: seq<Ptr>, t: Tid)
    requires QInv(q, l, nodes) && !OutOfMemory(q, t)
    ensures Good(q, t)
  {
    assert QThreadOk(q, nodes, q.QPcOf(t)) && ThreadOk(q.stk, q.stk.PcOf(t));
    EndsOfQueue(q, l, nodes);
    if q.QPcOf(t).EnqGrow? {
      BlocksAreApart(q, l, nodes, t);
    }
  }

  /** How many steps of its own a thread needs at most. */
  function SoloBound(pc: QPc): nat {
    if pc.EnqGrow? then 24 + 5 * |pc.blocks| else 28
  }

  lemma RankIsBounded(q: QState, t: Tid)
    ensures Rank(q, t) <= SoloBound(q.QPcOf(t))
  {
  }

  /** Alone, it stays there. */
  lemma OutOfMemoryStays(q: QState, a: QAction)
    requires OutOfMemory(q, a.t) && QEnabled(q, a) && PopOk(q.stk.PcOf(a.t)) && Calls(q.QPcOf(a.t), q.stk.PcOf(a.t))
    ensures var q' := QApply(q, a);
      OutOfMemory(q', a.t) && PopOk(q'.stk.PcOf(a.t)) && Calls(q'.QPcOf(a.t), q'.stk.PcOf(a.t))
  {
  }

  lemma {:induction false} OutOfMemoryNeverFinishes(q: QState, t: Tid, n: nat)
    requires OutOfMemory(q, t) && PopOk(q.stk.PcOf(t)) && Calls(q.QPcOf(t), q.stk.PcOf(t))
    ensures !Finishes(q, t, n)
    decreases n
  {
    if n > 0 {
      forall a: QAction | a.t == t && QEnabled(q, a) ensures !Finishes(QApply(q, a), t, n - 1) {
        OutOfMemoryStays(q, a);
        OutOfMemoryNeverFinishes(QApply(q, a), t, n - 1);
      }
    }
  }

  /**
    Solo completion, in every state of every run: by its own steps alone a thread finishes the operation it is in, and
    within the bound, exactly if the second pop of its allocation does not find the free list empty.
  */
  lemma SoloCompletionIff(r: QRun, i: nat, t: Tid)
    requires r.Valid() && i <= |r.qacts|
    ensures !OutOfMemory(r.qs[i], t) ==> Finishes(r.qs[i], t, SoloBound(r.qs[i].QPcOf(t)))
    ensures OutOfMemory(r.qs[i], t) ==> forall n: nat :: !Finishes(r.qs[i], t, n)
  {
    QRunKeepsInv(r, i);
    if OutOfMemory(r.qs[i], t) {
      assert ThreadOk(r.qs[i].stk, r.qs[i].stk.PcOf(t));
      forall n: nat ensures !Finishes(r.qs[i], t, n) {
        OutOfMemoryNeverFinishes(r.qs[i], t, n);
      }
    } else {
      ReachableIsGood(r.qs[i], r.Free(i), r.Nodes(i), t);
      RankIsBounded(r.qs[i], t);
      GoodFinishes(r.qs[i], t, SoloBound(r.qs[i].QPcOf(t)));
    }
  }
}
