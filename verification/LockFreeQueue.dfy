/**
  The lock-free queue of airplay/threads/LockFree.cpp (lines 141-273) together with the block heap its
  nodes come from, for any number of threads in any interleaving.  The free list is the machine of
  TaggedStack; a queue node's `next` is the very word that links it while it is free.

  As there, one action is one access to shared memory.
*/
module LockFreeQueue {
  import opened Options
  import opened TaggedStack

  type Value = int

  /** Where a thread is inside lf_queue_enqueue or lf_queue_dequeue. */
  datatype QPc =
    | Outside
    | EnqAlloc(v: Value)                                    // lf_heap_alloc: the first pop
    | EnqChunk(v: Value)                                    // lf_heap_grow: malloc
    | EnqGrow(v: Value, blocks: seq<Ptr>)                   // lf_heap_grow: pushes still to do
    | EnqRetry(v: Value)                                    // lf_heap_alloc: the second pop
    | EnqValue(v: Value, node: Ptr)                         // pNode->value = value
    | EnqReset(v: Value, node: Ptr)                         // pNode->next.ptr = NULL
    | EnqTail(v: Value, node: Ptr)                          // tail = pQueue->tail
    | EnqNext(v: Value, node: Ptr, tail: Ref)               // next = tail.ptr->next
    | EnqCheck(v: Value, node: Ptr, tail: Ref, next: Ref)   // tail == pQueue->tail ?
    | EnqLink(v: Value, node: Ptr, tail: Ref, next: Ref)    // cas2(&tail.ptr->next, next, node)
    | EnqHelp(v: Value, node: Ptr, tail: Ref, next: Ref)    // cas2(&pQueue->tail, tail, next.ptr)
    | EnqSwing(node: Ptr, tail: Ref)                        // cas2(&pQueue->tail, tail, pNode)
    | EnqCount                                              // AtomicIncrement(&pQueue->len)
    | DeqHead                                               // head = pQueue->head
    | DeqTail(head: Ref)                                    // tail = pQueue->tail
    | DeqNext(head: Ref, tail: Ref)                         // next = head.ptr->next
    | DeqCheck(head: Ref, tail: Ref, next: Ref)             // head == pQueue->head ?
    | DeqHelp(tail: Ref, next: Ref)                         // cas2(&pQueue->tail, tail, next.ptr)
    | DeqValue(head: Ref, next: Ref)                        // pVal = next.ptr->value
    | DeqCas(head: Ref, next: Ref, v: Value)                // cas2(&pQueue->head, head, next.ptr)
    | DeqFree(node: Ptr, v: Value)                          // lf_heap_free(head.ptr): call the push
    | DeqFreeing(v: Value)                                  // the push is running
    | DeqCount(v: Value)                                    // AtomicDecrement(&pQueue->len)
    | DeqReturn(result: Option<Value>)

  datatype QState = QState(stk: State, value: map<Ptr, Value>, head: Ref, tail: Ref, len: int, qpcs: map<Tid, QPc>)
  {
    function QPcOf(t: Tid): QPc {
      if t in qpcs then qpcs[t] else Outside
    }

    function Go(t: Tid, pc: QPc): QState {
      this.(qpcs := qpcs[t := pc])
    }

    /** A load of `p->value`; a block never stored to holds some garbage value. */
    function ValueOf(p: Ptr): Value {
      if p in value then value[p] else 0
    }

    /** A load of `p->next`, both words. */
    function NextOf(p: Ptr): Ref {
      if p in stk.next then stk.next[p] else Ref(NULL, 0)
    }
  }

  datatype QAction =
    | CallEnqueue(t: Tid, v: Value)
    | CallDequeue(t: Tid)
    | Malloc(t: Tid, memory: map<Ptr, Ref>, blocks: seq<Ptr>)   // the chunk lf_heap_grow obtains, cut into blocks
    | FreeListStep(t: Tid)                                      // one access inside lf_stack_push/lf_stack_pop
    | QueueStep(t: Tid)                                         // one access of the queue's own code

  predicate QEnabled(q: QState, a: QAction) {
    match a
    case CallEnqueue(t, _) => q.QPcOf(t).Outside? && q.stk.PcOf(t).Idle?
    case CallDequeue(t) => q.QPcOf(t).Outside?
    case Malloc(t, memory, blocks) =>
      && q.QPcOf(t).EnqChunk? && memory.Keys !! q.stk.next.Keys && NULL !in memory
      && Distinct(blocks) && (set b | b in blocks) == memory.Keys
    case FreeListStep(t) => Ready(q.stk, Step(t))
    case QueueStep(t) =>
      match q.QPcOf(t)
      case Outside => false
      case EnqAlloc(_) => q.stk.PcOf(t).PopReturn?
      case EnqChunk(_) => false
      case EnqGrow(_, _) => q.stk.PcOf(t).Idle?
      // a NULL from the second pop is dereferenced by the enqueue; that run ends here
      case EnqRetry(_) => q.stk.PcOf(t).PopReturn? && q.stk.PcOf(t).node != NULL
      case DeqFree(_, _) => q.stk.PcOf(t).Idle?
      case DeqFreeing(_) => q.stk.PcOf(t).Idle?
      case _ => true
  }

  function StepQueue(q: QState, t: Tid): QState
    requires QEnabled(q, QueueStep(t))
  {
    match q.QPcOf(t)
    case EnqAlloc(v) =>
      var node := q.stk.PcOf(t).node;
      q.(stk := Apply(q.stk, Return(t))).Go(t, if node == NULL then EnqChunk(v) else EnqValue(v, node))
    case EnqGrow(v, blocks) =>
      if blocks == []
      then q.(stk := Apply(q.stk, CallPop(t))).Go(t, EnqRetry(v))
      else q.(stk := Apply(q.stk, CallPush(t, blocks[0]))).Go(t, EnqGrow(v, blocks[1..]))
    case EnqRetry(v) => q.(stk := Apply(q.stk, Return(t))).Go(t, EnqValue(v, q.stk.PcOf(t).node))
    case EnqValue(v, node) => q.(value := q.value[node := v]).Go(t, EnqReset(v, node))
    case EnqReset(v, node) =>
      q.(stk := Apply(q.stk, Write(node, q.NextOf(node).(ptr := NULL)))).Go(t, EnqTail(v, node))
    case EnqTail(v, node) => q.Go(t, EnqNext(v, node, q.tail))
    case EnqNext(v, node, tail) => q.Go(t, EnqCheck(v, node, tail, q.NextOf(tail.ptr)))
    case EnqCheck(v, node, tail, next) =>
      if q.tail != tail then q.Go(t, EnqTail(v, node))
      else if next.ptr == NULL then q.Go(t, EnqLink(v, node, tail, next))
      else q.Go(t, EnqHelp(v, node, tail, next))
    case EnqLink(v, node, tail, next) =>
      if q.NextOf(tail.ptr) == next
      then q.(stk := Apply(q.stk, Write(tail.ptr, Ref(node, next.version + 1)))).Go(t, EnqSwing(node, tail))
      else q.Go(t, EnqTail(v, node))
    case EnqHelp(v, node, tail, next) =>
      (if q.tail == tail then q.(tail := Ref(next.ptr, tail.version + 1)) else q).Go(t, EnqTail(v, node))
    case EnqSwing(node, tail) =>
      (if q.tail == tail then q.(tail := Ref(node, tail.version + 1)) else q).Go(t, EnqCount)
    case EnqCount => q.(len := q.len + 1).Go(t, Outside)
    case DeqHead => q.Go(t, DeqTail(q.head))
    case DeqTail(head) => q.Go(t, DeqNext(head, q.tail))
    case DeqNext(head, tail) => q.Go(t, DeqCheck(head, tail, q.NextOf(head.ptr)))
    case DeqCheck(head, tail, next) =>
      if q.head != head then q.Go(t, DeqHead)
      else if head.ptr != tail.ptr then q.Go(t, DeqValue(head, next))
      else if next.ptr == NULL then q.Go(t, DeqReturn(None))
      else q.Go(t, DeqHelp(tail, next))
    case DeqHelp(tail, next) =>
      (if q.tail == tail then q.(tail := Ref(next.ptr, tail.version + 1)) else q).Go(t, DeqHead)
    case DeqValue(head, next) => q.Go(t, DeqCas(head, next, q.ValueOf(next.ptr)))
    case DeqCas(head, next, v) =>
      if q.head == head
      then q.(head := Ref(next.ptr, head.version + 1)).Go(t, DeqFree(head.ptr, v))
      else q.Go(t, DeqHead)
    case DeqFree(node, v) => q.(stk := Apply(q.stk, CallPush(t, node))).Go(t, DeqFreeing(v))
    case DeqFreeing(v) => q.Go(t, DeqCount(v))
    case DeqCount(v) => q.(len := q.len - 1).Go(t, DeqReturn(Some(v)))
    case DeqReturn(_) => q.Go(t, Outside)
  }

  function QApply(q: QState, a: QAction): QState
    requires QEnabled(q, a)
  {
    match a
    case CallEnqueue(t, v) => q.(stk := Apply(q.stk, CallPop(t))).Go(t, EnqAlloc(v))
    case CallDequeue(t) => q.Go(t, DeqHead)
    case Malloc(t, memory, blocks) => q.(stk := Apply(q.stk, Carve(memory))).Go(t, EnqGrow(q.QPcOf(t).v, blocks))
    case FreeListStep(t) => q.(stk := Apply(q.stk, Step(t)))
    case QueueStep(t) => StepQueue(q, t)
  }

  // ---------------------------------------------------------------- the invariant

  function Last(nodes: seq<Ptr>): Ptr
    requires nodes != []
  {
    nodes[|nodes| - 1]
  }

  /** `nodes` is the linked list from head to the last node; `tail` is the last or second-to-last of it. */
  ghost predicate Linked(q: QState, nodes: seq<Ptr>) {
    && nodes != []
    && Distinct(nodes)
    && Chain(q.stk.next, q.head.ptr, nodes)
    && (q.tail.ptr == Last(nodes) || (|nodes| >= 2 && q.tail.ptr == nodes[|nodes| - 2]))
  }

  /** The values in the queue, oldest first: the first node is the dummy. */
  function Contents(q: QState, nodes: seq<Ptr>): (vs: seq<Value>)
    requires nodes != []
  {
    seq(|nodes| - 1, i requires 0 <= i < |nodes| - 1 => q.ValueOf(nodes[i + 1]))
  }

  /** Blocks an operation holds for itself: allocated and not linked yet, unlinked and not freed yet, or just carved. */
  function Private(pc: QPc): set<Ptr> {
    match pc
    case EnqGrow(_, blocks) => set b | b in blocks
    case EnqValue(_, node) => {node}
    case EnqReset(_, node) => {node}
    case EnqTail(_, node) => {node}
    case EnqNext(_, node, _) => {node}
    case EnqCheck(_, node, _, _) => {node}
    case EnqLink(_, node, _, _) => {node}
    case EnqHelp(_, node, _, _) => {node}
    case DeqFree(node, _) => {node}
    case _ => {}
  }

  /** Every block the free list has handed out is in the queue or private to one operation, never both. */
  ghost predicate Owned(q: QState, nodes: seq<Ptr>) {
    && (forall b :: b in nodes ==> b in q.stk.held)
    && (forall t, b :: b in Private(q.QPcOf(t)) ==> b in q.stk.held && b !in nodes)
    && (forall t, u, b :: t != u && b in Private(q.QPcOf(t)) ==> b !in Private(q.QPcOf(u)))
    && (forall t :: q.QPcOf(t).EnqGrow? ==> Distinct(q.QPcOf(t).blocks))
  }

  ghost predicate NoneLost(q: QState, nodes: seq<Ptr>) {
    forall b :: b in q.stk.held ==> b in nodes || exists t :: b in Private(q.QPcOf(t))
  }

  /** The free-list operation a thread is in, if any, is the one its queue code called. */
  ghost predicate Calls(pc: QPc, inner: Pc) {
    match pc
    case EnqAlloc(_) => OpOf(inner).Pop? || OpOf(inner).Popped?
    case EnqRetry(_) => OpOf(inner).Pop? || OpOf(inner).Popped?
    case EnqGrow(_, _) => inner.Idle? || OpOf(inner).Push? || OpOf(inner).Pushed?
    case DeqFreeing(_) => inner.Idle? || OpOf(inner).Push? || OpOf(inner).Pushed?
    case _ => inner.Idle?
  }

  ghost predicate TailCopy(q: QState, r: Ref) {
    r.version <= q.tail.version && (r.version == q.tail.version ==> r == q.tail) && r.ptr in q.stk.next
  }

  ghost predicate HeadCopy(q: QState, r: Ref) {
    r.version <= q.head.version && (r.version == q.head.version ==> r == q.head) && r.ptr in q.stk.next
  }

  /** A null link copied from `b`: unless its version has moved on, `b` is still the last node and tail points to it. */
  ghost predicate EndCopy(q: QState, nodes: seq<Ptr>, b: Ptr, link: Ref)
    requires nodes != []
  {
    && b in q.stk.next && link.ptr == NULL && link.version <= q.stk.next[b].version
    && (link.version == q.stk.next[b].version ==> b == Last(nodes) && q.tail.ptr == b)
  }

  /** While tail is still `tail`, its node's successor is `p`. */
  ghost predicate TailLink(q: QState, tail: Ref, p: Ptr) {
    p != NULL && (q.tail == tail ==> q.NextOf(tail.ptr).ptr == p)
  }

  /** While head is still `head`, its node's successor is `p`, and tail is beyond head. */
  ghost predicate HeadLink(q: QState, head: Ref, p: Ptr) {
    q.head == head ==> p != NULL && q.NextOf(head.ptr).ptr == p && q.tail.ptr != head.ptr
  }

  /** A node ready to be linked: it carries the value and ends the list. */
  ghost predicate ReadyNode(q: QState, node: Ptr, v: Value) {
    q.ValueOf(node) == v && q.NextOf(node).ptr == NULL && node != NULL
  }

  ghost predicate QThreadOk(q: QState, nodes: seq<Ptr>, pc: QPc)
    requires nodes != []
  {
    match pc
    case EnqReset(v, node) => q.ValueOf(node) == v && node != NULL
    case EnqTail(v, node) => ReadyNode(q, node, v)
    case EnqNext(v, node, tail) => ReadyNode(q, node, v) && TailCopy(q, tail)
    case EnqCheck(v, node, tail, next) =>
      && ReadyNode(q, node, v) && TailCopy(q, tail)
      && (q.tail == tail ==> if next.ptr == NULL then EndCopy(q, nodes, tail.ptr, next) else TailLink(q, tail, next.ptr))
    case EnqLink(v, node, tail, next) =>
      ReadyNode(q, node, v) && TailCopy(q, tail) && EndCopy(q, nodes, tail.ptr, next)
    case EnqHelp(v, node, tail, next) => ReadyNode(q, node, v) && TailCopy(q, tail) && TailLink(q, tail, next.ptr)
    case EnqSwing(node, tail) => TailCopy(q, tail) && TailLink(q, tail, node)
    case DeqTail(head) => HeadCopy(q, head)
    case DeqNext(head, tail) =>
      && HeadCopy(q, head) && TailCopy(q, tail)
      && (q.head == head && head.ptr != tail.ptr ==> q.tail.ptr != head.ptr)
    case DeqCheck(head, tail, next) =>
      && HeadCopy(q, head) && TailCopy(q, tail)
      && (head.ptr != tail.ptr ==> HeadLink(q, head, next.ptr) && (q.head == head ==> next.ptr in q.stk.next))
      && (head.ptr == tail.ptr && next.ptr != NULL ==> TailLink(q, tail, next.ptr))
    case DeqHelp(tail, next) => TailCopy(q, tail) && TailLink(q, tail, next.ptr)
    case DeqValue(head, next) => HeadCopy(q, head) && HeadLink(q, head, next.ptr) && next.ptr in q.stk.next
    case DeqCas(head, next, v) =>
      && HeadCopy(q, head) && HeadLink(q, head, next.ptr) && next.ptr in q.stk.next
      && (q.head == head ==> v == q.ValueOf(next.ptr))
    case _ => true
  }

  ghost predicate QInv(q: QState, l: seq<Ptr>, nodes: seq<Ptr>) {
    && Inv(q.stk, l)
    && Linked(q, nodes)
    && Owned(q, nodes)
    && NoneLost(q, nodes)
    && (forall t :: Calls(q.QPcOf(t), q.stk.PcOf(t)))
    && (forall t :: QThreadOk(q, nodes, q.QPcOf(t)))
  }

  /** What an action does to the list of queue nodes: the cas2 on the last link appends, the cas2 on head drops. */
  function NextNodes(q: QState, a: QAction, nodes: seq<Ptr>): seq<Ptr>
    requires QEnabled(q, a)
  {
    match a
    case QueueStep(t) =>
      (match q.QPcOf(t)
       case EnqLink(_, node, tail, next) => if q.NextOf(tail.ptr) == next then nodes + [node] else nodes
       case DeqCas(head, _, _) => if q.head == head && nodes != [] then nodes[1..] else nodes
       case _ => nodes)
    case _ => nodes
  }

  /** The free-list action inside a queue action, if there is one. */
  function Inner(q: QState, a: QAction): Option<Action>
    requires QEnabled(q, a)
  {
    match a
    case CallEnqueue(t, _) => Some(CallPop(t))
    case CallDequeue(_) => None
    case Malloc(_, memory, _) => Some(Carve(memory))
    case FreeListStep(t) => Some(Step(t))
    case QueueStep(t) =>
      match q.QPcOf(t)
      case EnqAlloc(_) => Some(Return(t))
      case EnqGrow(_, blocks) => Some(if blocks == [] then CallPop(t) else CallPush(t, blocks[0]))
      case EnqRetry(_) => Some(Return(t))
      case EnqReset(_, node) => Some(Write(node, q.NextOf(node).(ptr := NULL)))
      case EnqLink(_, node, tail, next) =>
        if q.NextOf(tail.ptr) == next then Some(Write(tail.ptr, Ref(node, next.version + 1))) else None
      case DeqFree(node, _) => Some(CallPush(t, node))
      case _ => None
  }

  /** The free list after a queue action; the stack contents change only as the inner action says. */
  function NextFree(q: QState, a: QAction, l: seq<Ptr>): seq<Ptr>
    requires QEnabled(q, a) && (Inner(q, a).Some? ==> Ready(q.stk, Inner(q, a).value))
  {
    if Inner(q, a).Some? then NextList(q.stk, Inner(q, a).value, l) else l
  }

  // ---------------------------------------------------------------- the queue is a proper client of the free list

  /** The heart of ABA freedom: a link copied as null equals the current one only at the true end of the queue. */
  lemma EqualLinkMeansLastNode(q: QState, l: seq<Ptr>, nodes: seq<Ptr>, t: Tid)
    requires QInv(q, l, nodes) && q.QPcOf(t).EnqLink? && q.NextOf(q.QPcOf(t).tail.ptr) == q.QPcOf(t).next
    ensures q.QPcOf(t).tail.ptr == Last(nodes) == q.tail.ptr && q.tail.ptr in q.stk.held
  {
    assert QThreadOk(q, nodes, q.QPcOf(t));
    assert Last(nodes) in nodes;
  }

  lemma InnerIsAllowed(q: QState, a: QAction)
    requires QEnabled(q, a) && Calls(q.QPcOf(a.t), q.stk.PcOf(a.t))
    requires forall b :: b in Private(q.QPcOf(a.t)) ==> b in q.stk.held
    requires q.QPcOf(a.t).EnqLink? && q.NextOf(q.QPcOf(a.t).tail.ptr) == q.QPcOf(a.t).next ==> q.QPcOf(a.t).tail.ptr in q.stk.held
    ensures Inner(q, a).Some? ==> Enabled(q.stk, Inner(q, a).value)
    ensures QApply(q, a).stk == if Inner(q, a).Some? then Apply(q.stk, Inner(q, a).value) else q.stk
  {
    if a.QueueStep? && q.QPcOf(a.t).EnqGrow? && q.QPcOf(a.t).blocks != [] {
      assert q.QPcOf(a.t).blocks[0] in Private(q.QPcOf(a.t));
    }
  }

  /** Every write the queue makes is to a block it holds; above all the cas2 on a stale node's link never succeeds. */
  lemma QueueRespectsFreeList(q: QState, a: QAction, l: seq<Ptr>, nodes: seq<Ptr>)
    requires QInv(q, l, nodes) && QEnabled(q, a)
    ensures Inner(q, a).Some? ==> Enabled(q.stk, Inner(q, a).value)
    ensures QApply(q, a).stk == if Inner(q, a).Some? then Apply(q.stk, Inner(q, a).value) else q.stk
  {
    if q.QPcOf(a.t).EnqLink? && q.NextOf(q.QPcOf(a.t).tail.ptr) == q.QPcOf(a.t).next {
      EqualLinkMeansLastNode(q, l, nodes, a.t);
    }
    InnerIsAllowed(q, a);
  }

  lemma ActionKeepsFreeList(q: QState, a: QAction, l: seq<Ptr>, nodes: seq<Ptr>)
    requires QInv(q, l, nodes) && QEnabled(q, a)
    ensures Inner(q, a).Some? ==> Ready(q.stk, Inner(q, a).value)
    ensures Inv(QApply(q, a).stk, NextFree(q, a, l))
  {
    QueueRespectsFreeList(q, a, l, nodes);
    if Inner(q, a).Some? {
      ActionKeepsInv(q.stk, Inner(q, a).value, l);
    }
  }

  // ---------------------------------------------------------------- every action keeps the invariant

  /** The block whose link the queue's own code writes in this action, if any. */
  function Written(q: QState, a: QAction): Ptr
    requires QEnabled(q, a)
  {
    if Inner(q, a).Some? && Inner(q, a).value.Write? then Inner(q, a).value.block else NULL
  }

  /** What an action may do to memory: links of held blocks change only where the queue writes, versions only grow. */
  ghost predicate Frame(q: QState, q': QState, written: Ptr) {
    && NULL !in q'.stk.next && (forall b :: b in q'.stk.held ==> b in q'.stk.next)
    && (forall b :: b in q.stk.next ==> b in q'.stk.next && q.stk.next[b].version <= q'.stk.next[b].version)
    && (forall b :: b in q.stk.held && b in q.stk.next && b != written ==> q'.stk.next[b] == q.stk.next[b])
  }

  lemma ActionFrames(q: QState, a: QAction, l: seq<Ptr>, nodes: seq<Ptr>)
    requires QInv(q, l, nodes) && QEnabled(q, a)
    ensures Frame(q, QApply(q, a), Written(q, a))
    ensures forall b :: b in q.stk.held ==> b in q.stk.next && b != NULL
  {
    QueueRespectsFreeList(q, a, l, nodes);
    ActionKeepsFreeList(q, a, l, nodes);
    if Inner(q, a).Some? {
      HeldBlocksAreStable(q.stk, Inner(q, a).value, l);
      if q.QPcOf(a.t).EnqLink? && a.QueueStep? {
        EqualLinkMeansLastNode(q, l, nodes, a.t);
      }
    }
  }

  /** The part of the invariant about the queue's own list that the steps below argue from. */
  ghost predicate QueueOk(q: QState, nodes: seq<Ptr>) {
    && NULL !in q.stk.next && (forall b :: b in q.stk.held ==> b in q.stk.next)
    && Linked(q, nodes)
    && (forall b :: b in nodes ==> b in q.stk.held)
  }

  lemma ActionKeepsLinked(q: QState, a: QAction, l: seq<Ptr>, nodes: seq<Ptr>)
    requires QInv(q, l, nodes) && QEnabled(q, a)
    ensures Linked(QApply(q, a), NextNodes(q, a, nodes))
  {
    ActionFrames(q, a, l, nodes);
    assert QThreadOk(q, nodes, q.QPcOf(a.t));
    assert forall b :: b in Private(q.QPcOf(a.t)) ==> b in q.stk.held && b !in nodes;
    if a.QueueStep? && q.QPcOf(a.t).EnqLink? && q.NextOf(q.QPcOf(a.t).tail.ptr) == q.QPcOf(a.t).next {
      EqualLinkMeansLastNode(q, l, nodes, a.t);
      LinkKeepsLinked(q, a.t, nodes);
    } else if a.QueueStep? && q.QPcOf(a.t).DeqCas? && q.head == q.QPcOf(a.t).head {
      DropKeepsLinked(q, a.t, nodes);
    } else {
      OtherKeepsLinked(q, a, nodes);
    }
  }

  lemma LinkKeepsLinked(q: QState, t: Tid, nodes: seq<Ptr>)
    requires QueueOk(q, nodes) && q.QPcOf(t).EnqLink? && QThreadOk(q, nodes, q.QPcOf(t))
    requires q.NextOf(q.QPcOf(t).tail.ptr) == q.QPcOf(t).next
    requires q.QPcOf(t).node in q.stk.held && q.QPcOf(t).node !in nodes
    ensures Linked(StepQueue(q, t), NextNodes(q, QueueStep(t), nodes))
  {
  }

  lemma DropKeepsLinked(q: QState, t: Tid, nodes: seq<Ptr>)
    requires QueueOk(q, nodes) && q.QPcOf(t).DeqCas? && QThreadOk(q, nodes, q.QPcOf(t)) && q.head == q.QPcOf(t).head
    ensures Linked(StepQueue(q, t), NextNodes(q, QueueStep(t), nodes))
    ensures |nodes| >= 2 && q.QPcOf(t).next.ptr == nodes[1] && q.QPcOf(t).head.ptr == nodes[0]
  {
    assert nodes[0] == q.head.ptr;
    assert q.NextOf(nodes[0]).ptr == At(nodes, 1);
  }

  lemma OtherKeepsLinked(q: QState, a: QAction, nodes: seq<Ptr>)
    requires QueueOk(q, nodes) && QEnabled(q, a) && QThreadOk(q, nodes, q.QPcOf(a.t))
    requires Frame(q, QApply(q, a), Written(q, a)) && NextNodes(q, a, nodes) == nodes
    requires !(a.QueueStep? && q.QPcOf(a.t).EnqLink? && q.NextOf(q.QPcOf(a.t).tail.ptr) == q.QPcOf(a.t).next)
    requires !(a.QueueStep? && q.QPcOf(a.t).DeqCas? && q.head == q.QPcOf(a.t).head)
    requires forall b :: b in Private(q.QPcOf(a.t)) ==> b !in nodes
    ensures Linked(QApply(q, a), nodes)
  {
    var q' := QApply(q, a);
    assert Written(q, a) !in nodes;
    assert q'.head == q.head;
    assert Chain(q'.stk.next, q'.head.ptr, nodes);
    TailStaysNearEnd(q, a, nodes);
  }

  /** A successful cas2 on tail moves it to the last node. */
  lemma TailStaysNearEnd(q: QState, a: QAction, nodes: seq<Ptr>)
    requires QueueOk(q, nodes) && QEnabled(q, a) && QThreadOk(q, nodes, q.QPcOf(a.t))
    ensures QApply(q, a).tail == q.tail
      || (|nodes| >= 2 && q.tail.ptr == nodes[|nodes| - 2] && QApply(q, a).tail == Ref(Last(nodes), q.tail.version + 1))
  {
    var i := if q.tail.ptr == Last(nodes) then |nodes| - 1 else |nodes| - 2;
    assert nodes[i] == q.tail.ptr && q.NextOf(nodes[i]).ptr == At(nodes, i + 1);
  }

  /** What every thread may rely on while others act. */
  ghost predicate QEvolves(q: QState, q': QState, nodes: seq<Ptr>, nodes': seq<Ptr>)
    requires nodes != [] && nodes' != []
  {
    && (q'.tail == q.tail || q.tail.version < q'.tail.version)
    && (q'.head == q.head || q.head.version < q'.head.version)
    && (forall b :: b in q.stk.next ==> b in q'.stk.next && q.stk.next[b].version <= q'.stk.next[b].version)
    // a link, once set, stays as long as its node is head's or tail's
    && (q'.tail == q.tail && q.NextOf(q.tail.ptr).ptr != NULL ==> q'.NextOf(q.tail.ptr).ptr == q.NextOf(q.tail.ptr).ptr)
    && (q'.head == q.head && q.NextOf(q.head.ptr).ptr != NULL ==>
          && q'.NextOf(q.head.ptr).ptr == q.NextOf(q.head.ptr).ptr
          && q'.ValueOf(q.NextOf(q.head.ptr).ptr) == q.ValueOf(q.NextOf(q.head.ptr).ptr))
    // tail never falls back to head
    && (q'.head == q.head && q.tail.ptr != q.head.ptr ==> q'.tail.ptr != q'.head.ptr)
    // the last node stays last until its link's version grows
    && (var b := Last(nodes);
        q.tail.ptr == b && q'.NextOf(b).version == q.NextOf(b).version ==> b == Last(nodes') && q'.tail.ptr == b)
  }

  /** Another thread's private nodes are left alone. */
  ghost predicate LeavesPrivate(q: QState, q': QState, u: Tid) {
    && q'.QPcOf(u) == q.QPcOf(u)
    && forall b :: b in Private(q.QPcOf(u)) ==> q'.NextOf(b) == q.NextOf(b) && q'.ValueOf(b) == q.ValueOf(b)
  }

  lemma CopiesStay(q: QState, q': QState, nodes: seq<Ptr>, nodes': seq<Ptr>, tail: Ref, head: Ref)
    requires nodes != [] && nodes' != [] && QEvolves(q, q', nodes, nodes')
    ensures TailCopy(q, tail) ==> TailCopy(q', tail)
    ensures HeadCopy(q, head) ==> HeadCopy(q', head)
    ensures TailCopy(q, tail) && q'.tail == tail ==> q.tail == tail
    ensures HeadCopy(q, head) && q'.head == head ==> q.head == head
  {
  }

  lemma EndCopyStays(q: QState, q': QState, nodes: seq<Ptr>, nodes': seq<Ptr>, b: Ptr, link: Ref)
    requires nodes != [] && nodes' != [] && QEvolves(q, q', nodes, nodes') && EndCopy(q, nodes, b, link)
    ensures EndCopy(q', nodes', b, link)
  {
  }

  lemma LinksStay(q: QState, q': QState, nodes: seq<Ptr>, nodes': seq<Ptr>, r: Ref, p: Ptr)
    requires nodes != [] && nodes' != [] && QEvolves(q, q', nodes, nodes')
    ensures TailCopy(q, r) && TailLink(q, r, p) ==> TailLink(q', r, p)
    ensures HeadCopy(q, r) && HeadLink(q, r, p) ==> HeadLink(q', r, p)
    ensures HeadCopy(q, r) && HeadLink(q, r, p) && q'.head == r ==> q'.ValueOf(p) == q.ValueOf(p)
  {
  }

  lemma OtherEnqueuersStayOk(q: QState, q': QState, nodes: seq<Ptr>, nodes': seq<Ptr>, u: Tid)
    requires nodes != [] && nodes' != []
    requires QEvolves(q, q', nodes, nodes') && LeavesPrivate(q, q', u)
    requires QThreadOk(q, nodes, q.QPcOf(u))
    requires q.QPcOf(u).EnqNext? || q.QPcOf(u).EnqCheck? || q.QPcOf(u).EnqLink? || q.QPcOf(u).EnqHelp?
    ensures QThreadOk(q', nodes', q'.QPcOf(u))
  {
    var pc := q.QPcOf(u);
    assert pc.node in Private(pc);
    CopiesStay(q, q', nodes, nodes', pc.tail, pc.tail);
    if pc.EnqLink? || (pc.EnqCheck? && pc.next.ptr == NULL && q.tail == pc.tail) {
      EndCopyStays(q, q', nodes, nodes', pc.tail.ptr, pc.next);
    } else if !pc.EnqNext? {
      LinksStay(q, q', nodes, nodes', pc.tail, pc.next.ptr);
    }
  }

  lemma OtherDequeuersStayOk(q: QState, q': QState, nodes: seq<Ptr>, nodes': seq<Ptr>, pc: QPc)
    requires nodes != [] && nodes' != []
    requires QEvolves(q, q', nodes, nodes')
    requires QThreadOk(q, nodes, pc)
    requires pc.DeqTail? || pc.DeqNext? || pc.DeqCheck? || pc.DeqValue? || pc.DeqCas?
    ensures QThreadOk(q', nodes', pc)
  {
    var tail := if pc.DeqNext? || pc.DeqCheck? then pc.tail else pc.head;
    CopiesStay(q, q', nodes, nodes', tail, pc.head);
    if !pc.DeqTail? && !pc.DeqNext? {
      LinksStay(q, q', nodes, nodes', pc.head, pc.next.ptr);
      LinksStay(q, q', nodes, nodes', tail, pc.next.ptr);
    }
  }

  /** Rely: what one thread knows survives every action of the others. */
  lemma OthersStayOk(q: QState, q': QState, nodes: seq<Ptr>, nodes': seq<Ptr>, u: Tid)
    requires nodes != [] && nodes' != []
    requires QEvolves(q, q', nodes, nodes') && LeavesPrivate(q, q', u)
    requires QThreadOk(q, nodes, q.QPcOf(u))
    ensures QThreadOk(q', nodes', q'.QPcOf(u))
  {
    var pc := q.QPcOf(u);
    if pc.EnqNext? || pc.EnqCheck? || pc.EnqLink? || pc.EnqHelp? {
      OtherEnqueuersStayOk(q, q', nodes, nodes', u);
    } else if pc.DeqTail? || pc.DeqNext? || pc.DeqCheck? || pc.DeqValue? || pc.DeqCas? {
      OtherDequeuersStayOk(q, q', nodes, nodes', pc);
    } else if pc.EnqSwing? {
      CopiesStay(q, q', nodes, nodes', pc.tail, pc.tail);
      LinksStay(q, q', nodes, nodes', pc.tail, pc.node);
    } else if pc.DeqHelp? {
      CopiesStay(q, q', nodes, nodes', pc.tail, pc.tail);
      LinksStay(q, q', nodes, nodes', pc.tail, pc.next.ptr);
    }
  }

  /** Guarantee, part one: values change only in the actor's own node, and so do links except at the cas2 on the last one. */
  lemma ActionTouchesOwn(q: QState, a: QAction, b: Ptr)
    requires QEnabled(q, a)
    ensures b !in Private(q.QPcOf(a.t)) ==> QApply(q, a).ValueOf(b) == q.ValueOf(b)
    ensures !(a.QueueStep? && q.QPcOf(a.t).EnqLink?) && b == Written(q, a) != NULL ==> b in Private(q.QPcOf(a.t))
    ensures !(a.QueueStep? && q.QPcOf(a.t).DeqCas?) ==> QApply(q, a).head == q.head
  {
  }

  lemma QuietActionEvolves(q: QState, q': QState, nodes: seq<Ptr>, written: Ptr)
    requires QueueOk(q, nodes) && Frame(q, q', written) && written !in nodes && q'.head == q.head
    requires forall b :: b in nodes ==> q'.ValueOf(b) == q.ValueOf(b)
    requires q'.tail == q.tail
      || (|nodes| >= 2 && q.tail.ptr == nodes[|nodes| - 2] && q'.tail == Ref(Last(nodes), q.tail.version + 1))
    ensures QEvolves(q, q', nodes, nodes)
  {
    assert nodes[0] == q.head.ptr && q.NextOf(nodes[0]).ptr == At(nodes, 1);
    assert Last(nodes) in nodes && nodes[0] in nodes && q.tail.ptr in nodes;
  }

  /** The cas2 on the last node's link leaves the links of the others. */
  lemma LinkKeepsHeadLink(q: QState, q': QState, nodes: seq<Ptr>)
    requires QueueOk(q, nodes) && q.NextOf(Last(nodes)).ptr == NULL
    requires Frame(q, q', Last(nodes)) && q.NextOf(q.head.ptr).ptr != NULL && q'.value == q.value
    ensures q'.NextOf(q.head.ptr).ptr == q.NextOf(q.head.ptr).ptr
    ensures q'.ValueOf(q.NextOf(q.head.ptr).ptr) == q.ValueOf(q.NextOf(q.head.ptr).ptr)
  {
    assert q.head.ptr != Last(nodes);
    assert nodes[0] == q.head.ptr && q.NextOf(nodes[0]).ptr == At(nodes, 1);
  }

  lemma LinkEvolves(q: QState, q': QState, t: Tid, nodes: seq<Ptr>)
    requires QueueOk(q, nodes) && q.QPcOf(t).EnqLink? && q.QPcOf(t).next == q.NextOf(Last(nodes))
    requires q.QPcOf(t).tail.ptr == Last(nodes) == q.tail.ptr && q.QPcOf(t).node !in nodes
    requires q' == StepQueue(q, t) && Frame(q, q', Last(nodes))
    ensures QEvolves(q, q', nodes, nodes + [q.QPcOf(t).node])
  {
    assert nodes[|nodes| - 1] in q.stk.next && At(nodes, |nodes|) == NULL;
    EndLinkEvolves(q, q', nodes, q.QPcOf(t).node);
  }

  lemma EndLinkEvolves(q: QState, q': QState, nodes: seq<Ptr>, node: Ptr)
    requires QueueOk(q, nodes) && Last(nodes) == q.tail.ptr && q.NextOf(Last(nodes)).ptr == NULL
    requires q'.head == q.head && q'.tail == q.tail && q'.value == q.value && Frame(q, q', Last(nodes))
    requires q.NextOf(Last(nodes)).version < q'.NextOf(Last(nodes)).version
    ensures QEvolves(q, q', nodes, nodes + [node])
  {
    if q.NextOf(q.head.ptr).ptr != NULL {
      LinkKeepsHeadLink(q, q', nodes);
    }
  }

  lemma DropEvolves(q: QState, q': QState, nodes: seq<Ptr>)
    requires nodes != [] && q'.stk == q.stk && q'.tail == q.tail && q.head.version < q'.head.version && |nodes| >= 2
    ensures QEvolves(q, q', nodes, nodes[1..])
  {
  }

  /** Guarantee: every action is one the other threads can rely on. */
  lemma ActionEvolvesQueue(q: QState, a: QAction, l: seq<Ptr>, nodes: seq<Ptr>)
    requires QInv(q, l, nodes) && QEnabled(q, a)
    ensures NextNodes(q, a, nodes) != []
    ensures QEvolves(q, QApply(q, a), nodes, NextNodes(q, a, nodes))
  {
    ActionFrames(q, a, l, nodes);
    assert QThreadOk(q, nodes, q.QPcOf(a.t));
    if a.QueueStep? && q.QPcOf(a.t).EnqLink? && q.NextOf(q.QPcOf(a.t).tail.ptr) == q.QPcOf(a.t).next {
      EqualLinkMeansLastNode(q, l, nodes, a.t);
      assert q.QPcOf(a.t).node in Private(q.QPcOf(a.t));
      LinkEvolves(q, QApply(q, a), a.t, nodes);
    } else if a.QueueStep? && q.QPcOf(a.t).DeqCas? && q.head == q.QPcOf(a.t).head {
      DropKeepsLinked(q, a.t, nodes);
      DropEvolves(q, QApply(q, a), nodes);
    } else {
      assert forall b :: b in Private(q.QPcOf(a.t)) ==> b !in nodes;
      TailStaysNearEnd(q, a, nodes);
      forall b | b in nodes ensures QApply(q, a).ValueOf(b) == q.ValueOf(b) {
        ActionTouchesOwn(q, a, b);
      }
      ActionTouchesOwn(q, a, Written(q, a));
      QuietActionEvolves(q, QApply(q, a), nodes, Written(q, a));
    }
  }

  lemma ActionLeavesPrivate(q: QState, a: QAction, l: seq<Ptr>, nodes: seq<Ptr>, u: Tid)
    requires QInv(q, l, nodes) && QEnabled(q, a) && u != a.t
    ensures LeavesPrivate(q, QApply(q, a), u)
  {
    ActionFrames(q, a, l, nodes);
    ActionTouchesOwn(q, a, Written(q, a));
    if a.QueueStep? && q.QPcOf(a.t).EnqLink? && q.NextOf(q.QPcOf(a.t).tail.ptr) == q.QPcOf(a.t).next {
      EqualLinkMeansLastNode(q, l, nodes, a.t);
    }
    forall b | b in Private(q.QPcOf(u))
      ensures QApply(q, a).NextOf(b) == q.NextOf(b) && QApply(q, a).ValueOf(b) == q.ValueOf(b)
    {
      assert b !in Private(q.QPcOf(a.t)) && b !in nodes && b in q.stk.held;
      ActionTouchesOwn(q, a, b);
    }
    OthersStandStill(q, a, u);
  }

  lemma OthersStandStill(q: QState, a: QAction, u: Tid)
    requires QEnabled(q, a) && u != a.t
    ensures QApply(q, a).QPcOf(u) == q.QPcOf(u)
  {
  }

  // the acting thread's own knowledge, one access at a time

  /** Reading tail and then the link of its node: what an enqueue knows between 187 and 202. */
  lemma EnqueuerStaysOk(q: QState, t: Tid, nodes: seq<Ptr>)
    requires QueueOk(q, nodes) && QEnabled(q, QueueStep(t)) && QThreadOk(q, nodes, q.QPcOf(t))
    requires q.QPcOf(t).EnqTail? || q.QPcOf(t).EnqNext? || q.QPcOf(t).EnqCheck?
    ensures QThreadOk(StepQueue(q, t), nodes, StepQueue(q, t).QPcOf(t))
  {
    assert q.tail.ptr in nodes;
    var i := if q.tail.ptr == Last(nodes) then |nodes| - 1 else |nodes| - 2;
    assert nodes[i] == q.tail.ptr && q.NextOf(nodes[i]).ptr == At(nodes, i + 1);
  }

  lemma DequeuerStaysOk(q: QState, t: Tid, nodes: seq<Ptr>)
    requires QueueOk(q, nodes) && QEnabled(q, QueueStep(t)) && QThreadOk(q, nodes, q.QPcOf(t))
    requires q.QPcOf(t).DeqHead? || q.QPcOf(t).DeqTail? || q.QPcOf(t).DeqNext? || q.QPcOf(t).DeqCheck? || q.QPcOf(t).DeqValue?
    ensures QThreadOk(StepQueue(q, t), nodes, StepQueue(q, t).QPcOf(t))
  {
    assert q.tail.ptr in nodes && nodes[0] == q.head.ptr && q.NextOf(nodes[0]).ptr == At(nodes, 1);
    assert |nodes| >= 2 ==> nodes[1] in nodes;
    var i := if q.tail.ptr == Last(nodes) then |nodes| - 1 else |nodes| - 2;
    assert nodes[i] == q.tail.ptr && q.NextOf(nodes[i]).ptr == At(nodes, i + 1);
  }

  lemma WriterStaysOk(q: QState, a: QAction, nodes: seq<Ptr>)
    requires QueueOk(q, nodes) && QEnabled(q, a) && QThreadOk(q, nodes, q.QPcOf(a.t))
    requires forall b :: b in Private(q.QPcOf(a.t)) ==> b in q.stk.held && b != NULL
    requires var pc := q.QPcOf(a.t);
      && !(a.QueueStep? && (pc.EnqTail? || pc.EnqNext? || pc.EnqCheck?))
      && !(a.QueueStep? && (pc.DeqHead? || pc.DeqTail? || pc.DeqNext? || pc.DeqCheck? || pc.DeqValue?))
      && (a.FreeListStep? ==> pc.EnqAlloc? || pc.EnqGrow? || pc.EnqRetry? || pc.DeqFreeing?)
    ensures NextNodes(q, a, nodes) != [] ==> QThreadOk(QApply(q, a), NextNodes(q, a, nodes), QApply(q, a).QPcOf(a.t))
  {
    if a.QueueStep? && (q.QPcOf(a.t).EnqValue? || q.QPcOf(a.t).EnqReset?) {
      assert q.QPcOf(a.t).node in Private(q.QPcOf(a.t));
    }
    if a.QueueStep? && q.QPcOf(a.t).EnqLink? {
      assert q.QPcOf(a.t).node in Private(q.QPcOf(a.t));
    }
  }

  lemma ActionKeepsQThreads(q: QState, a: QAction, l: seq<Ptr>, nodes: seq<Ptr>)
    requires QInv(q, l, nodes) && QEnabled(q, a)
    ensures NextNodes(q, a, nodes) != []
    ensures forall t :: QThreadOk(QApply(q, a), NextNodes(q, a, nodes), QApply(q, a).QPcOf(t))
  {
    ActionFrames(q, a, l, nodes);
    ActionEvolvesQueue(q, a, l, nodes);
    var q', nodes' := QApply(q, a), NextNodes(q, a, nodes);
    forall t ensures QThreadOk(q', nodes', q'.QPcOf(t)) {
      assert QThreadOk(q, nodes, q.QPcOf(t));
      if t != a.t {
        ActionLeavesPrivate(q, a, l, nodes, t);
        OthersStayOk(q, q', nodes, nodes', t);
      } else {
        ActorStaysOk(q, a, l, nodes);
      }
    }
  }

  lemma ActorStaysOk(q: QState, a: QAction, l: seq<Ptr>, nodes: seq<Ptr>)
    requires QInv(q, l, nodes) && QEnabled(q, a) && QueueOk(q, nodes)
    ensures NextNodes(q, a, nodes) != [] ==> QThreadOk(QApply(q, a), NextNodes(q, a, nodes), QApply(q, a).QPcOf(a.t))
  {
    var pc := q.QPcOf(a.t);
    assert QThreadOk(q, nodes, pc);
    assert Calls(pc, q.stk.PcOf(a.t));
    if a.QueueStep? && (pc.EnqTail? || pc.EnqNext? || pc.EnqCheck?) {
      EnqueuerStaysOk(q, a.t, nodes);
    } else if a.QueueStep? && (pc.DeqHead? || pc.DeqTail? || pc.DeqNext? || pc.DeqCheck? || pc.DeqValue?) {
      DequeuerStaysOk(q, a.t, nodes);
    } else {
      WriterStaysOk(q, a, nodes);
    }
  }

  lemma ActionKeepsCalls(q: QState, a: QAction)
    requires QEnabled(q, a) && forall t :: Calls(q.QPcOf(t), q.stk.PcOf(t))
    ensures forall t :: Calls(QApply(q, a).QPcOf(t), QApply(q, a).stk.PcOf(t))
  {
    forall t ensures Calls(QApply(q, a).QPcOf(t), QApply(q, a).stk.PcOf(t)) {
      assert Calls(q.QPcOf(t), q.stk.PcOf(t));
      if t == a.t {
        ActorKeepsCalls(q, a);
      } else {
        assert QApply(q, a).stk.PcOf(t) == q.stk.PcOf(t);
      }
    }
  }

  lemma ActorKeepsCalls(q: QState, a: QAction)
    requires QEnabled(q, a) && Calls(q.QPcOf(a.t), q.stk.PcOf(a.t))
    ensures Calls(QApply(q, a).QPcOf(a.t), QApply(q, a).stk.PcOf(a.t))
  {
    if a.QueueStep? {
      QueueStepKeepsCalls(q, a.t);
    } else if a.FreeListStep? {
      FreeListStepKeepsCalls(q, a.t);
    }
  }

  lemma QueueStepKeepsCalls(q: QState, t: Tid)
    requires QEnabled(q, QueueStep(t)) && Calls(q.QPcOf(t), q.stk.PcOf(t))
    ensures Calls(StepQueue(q, t).QPcOf(t), StepQueue(q, t).stk.PcOf(t))
  {
  }

  lemma FreeListStepKeepsCalls(q: QState, t: Tid)
    requires Ready(q.stk, Step(t)) && Calls(q.QPcOf(t), q.stk.PcOf(t))
    ensures Calls(q.QPcOf(t), Apply(q.stk, Step(t)).PcOf(t))
  {
  }

  /** How an action moves blocks between the free list, the queue and the operations. */
  datatype Move =
    | Stay
    | Carved(blocks: set<Ptr>)    // fresh memory becomes private to the growing operation
    | Allocated(block: Ptr)       // popped off the free list
    | Freed(block: Ptr)           // given to the free list's push
    | LinkedIn(block: Ptr)        // became the last node of the queue
    | Dropped(block: Ptr)         // was the first node of the queue

  function MoveOf(q: QState, a: QAction): Move
    requires QEnabled(q, a)
  {
    match a
    case Malloc(_, memory, _) => Carved(memory.Keys)
    case QueueStep(t) =>
      (match q.QPcOf(t)
       case EnqAlloc(_) => if q.stk.PcOf(t).node == NULL then Stay else Allocated(q.stk.PcOf(t).node)
       case EnqRetry(_) => Allocated(q.stk.PcOf(t).node)
       case EnqGrow(_, blocks) => if blocks == [] then Stay else Freed(blocks[0])
       case DeqFree(node, _) => Freed(node)
       case EnqLink(_, node, tail, next) => if q.NextOf(tail.ptr) == next then LinkedIn(node) else Stay
       case DeqCas(head, _, _) => if q.head == head then Dropped(head.ptr) else Stay
       case _ => Stay)
    case _ => Stay
  }

  ghost predicate Moved(m: Move, mine: set<Ptr>, mine': set<Ptr>, held: set<Ptr>, held': set<Ptr>) {
    match m
    case Stay => mine' == mine && held' == held
    case Carved(blocks) => mine == {} && mine' == blocks && held' == held + blocks
    case Allocated(b) => mine == {} && mine' == {b} && held' == held + {b}
    case Freed(b) => b in mine && mine' == mine - {b} && held' == held - {b}
    case LinkedIn(b) => mine == {b} && mine' == {} && held' == held
    case Dropped(b) => mine == {} && mine' == {b} && held' == held
  }

  lemma ActionMoves(q: QState, a: QAction)
    requires QEnabled(q, a) && Calls(q.QPcOf(a.t), q.stk.PcOf(a.t))
    requires q.QPcOf(a.t).EnqGrow? ==> Distinct(q.QPcOf(a.t).blocks)
    ensures Moved(MoveOf(q, a), Private(q.QPcOf(a.t)), Private(QApply(q, a).QPcOf(a.t)), q.stk.held, QApply(q, a).stk.held)
    ensures QApply(q, a).QPcOf(a.t).EnqGrow? ==> Distinct(QApply(q, a).QPcOf(a.t).blocks)
  {
    if a.QueueStep? {
      if q.QPcOf(a.t).EnqGrow? && q.QPcOf(a.t).blocks != [] {
        GrowMoves(q, a.t);
      } else {
        QueueStepMoves(q, a.t);
      }
    }
  }

  ghost predicate StepMoves(q: QState, t: Tid)
    requires QEnabled(q, QueueStep(t))
  {
    var q' := StepQueue(q, t);
    && Moved(MoveOf(q, QueueStep(t)), Private(q.QPcOf(t)), Private(q'.QPcOf(t)), q.stk.held, q'.stk.held)
    && !q'.QPcOf(t).EnqGrow?
  }

  lemma AllocMoves(q: QState, t: Tid)
    requires QEnabled(q, QueueStep(t)) && Calls(q.QPcOf(t), q.stk.PcOf(t))
    requires q.QPcOf(t).EnqAlloc? || q.QPcOf(t).EnqRetry? || (q.QPcOf(t).EnqGrow? && q.QPcOf(t).blocks == [])
    ensures StepMoves(q, t)
  {
  }

  /** The accesses that move a block into the queue, out of it, or back to the free list. */
  lemma SwapMoves(q: QState, t: Tid)
    requires QEnabled(q, QueueStep(t)) && (q.QPcOf(t).EnqLink? || q.QPcOf(t).DeqCas? || q.QPcOf(t).DeqFree?)
    ensures StepMoves(q, t)
  {
  }

  lemma OtherMoves(q: QState, t: Tid)
    requires QEnabled(q, QueueStep(t)) && !q.QPcOf(t).EnqAlloc? && !q.QPcOf(t).EnqRetry? && !q.QPcOf(t).EnqGrow?
    requires !q.QPcOf(t).EnqLink? && !q.QPcOf(t).DeqCas? && !q.QPcOf(t).DeqFree?
    ensures StepMoves(q, t)
  {
  }

  lemma QueueStepMoves(q: QState, t: Tid)
    requires QEnabled(q, QueueStep(t)) && Calls(q.QPcOf(t), q.stk.PcOf(t))
    requires q.QPcOf(t).EnqGrow? ==> q.QPcOf(t).blocks == []
    ensures StepMoves(q, t)
  {
    match q.QPcOf(t)
    case EnqAlloc(_) => AllocMoves(q, t);
    case EnqRetry(_) => AllocMoves(q, t);
    case EnqGrow(_, _) => AllocMoves(q, t);
    case EnqLink(_, _, _, _) => SwapMoves(q, t);
    case DeqCas(_, _, _) => SwapMoves(q, t);
    case DeqFree(_, _) => SwapMoves(q, t);
    case _ => OtherMoves(q, t);
  }

  lemma GrowMoves(q: QState, t: Tid)
    requires QEnabled(q, QueueStep(t)) && q.QPcOf(t).EnqGrow? && q.QPcOf(t).blocks != [] && Distinct(q.QPcOf(t).blocks)
    ensures var q' := StepQueue(q, t);
      && Moved(MoveOf(q, QueueStep(t)), Private(q.QPcOf(t)), Private(q'.QPcOf(t)), q.stk.held, q'.stk.held)
      && q'.QPcOf(t).EnqGrow? && Distinct(q'.QPcOf(t).blocks)
  {
    var blocks := q.QPcOf(t).blocks;
    assert blocks == [blocks[0]] + blocks[1..];
    assert (set b | b in blocks[1..]) == (set b | b in blocks) - {blocks[0]};
  }

  /** The block an action adds to what an operation or the queue holds is not held by anyone else before. */
  lemma ActionKeepsOwned(q: QState, a: QAction, l: seq<Ptr>, nodes: seq<Ptr>)
    requires QInv(q, l, nodes) && QEnabled(q, a)
    ensures Owned(QApply(q, a), NextNodes(q, a, nodes))
    ensures NoneLost(QApply(q, a), NextNodes(q, a, nodes))
  {
    assert Calls(q.QPcOf(a.t), q.stk.PcOf(a.t));
    ActionMoves(q, a);
    forall t | t != a.t ensures QApply(q, a).QPcOf(t) == q.QPcOf(t) {
      OthersStandStill(q, a, t);
    }
    ActionFrames(q, a, l, nodes);
    assert QThreadOk(q, nodes, q.QPcOf(a.t));
    FreshIsUnheld(q, a, l);
    if MoveOf(q, a).Dropped? {
      DropKeepsLinked(q, a.t, nodes);
    }
    MoveKeepsOwned(q, QApply(q, a), MoveOf(q, a), nodes, NextNodes(q, a, nodes), a.t);
  }

  lemma FreshIsUnheld(q: QState, a: QAction, l: seq<Ptr>)
    requires Inv(q.stk, l) && QEnabled(q, a)
    ensures MoveOf(q, a).Carved? ==> MoveOf(q, a).blocks !! q.stk.held
    ensures MoveOf(q, a).Allocated? ==> MoveOf(q, a).block !in q.stk.held
  {
    if a.QueueStep? && q.stk.PcOf(a.t).PopReturn? {
      assert InFlight(q.stk.PcOf(a.t)) != NULL ==> InFlight(q.stk.PcOf(a.t)) !in q.stk.held;
    }
  }

  lemma MoveKeepsOwned(q: QState, q': QState, m: Move, nodes: seq<Ptr>, nodes': seq<Ptr>, t: Tid)
    requires Owned(q, nodes) && NoneLost(q, nodes)
    requires Moved(m, Private(q.QPcOf(t)), Private(q'.QPcOf(t)), q.stk.held, q'.stk.held)
    requires forall u :: u != t ==> q'.QPcOf(u) == q.QPcOf(u)
    requires q'.QPcOf(t).EnqGrow? ==> Distinct(q'.QPcOf(t).blocks)
    requires m.Carved? ==> m.blocks !! q.stk.held
    requires m.Allocated? ==> m.block !in q.stk.held
    requires nodes' == (if m.LinkedIn? then nodes + [m.block] else if m.Dropped? && nodes != [] then nodes[1..] else nodes)
    requires m.Dropped? ==> nodes != [] && m.block == nodes[0] && Distinct(nodes)
    ensures Owned(q', nodes') && NoneLost(q', nodes')
  {
    MoveLosesNone(q, q', m, nodes, nodes', t);
    forall u, b | u != t && b in Private(q'.QPcOf(t)) ensures b !in Private(q.QPcOf(u)) {
      if b !in Private(q.QPcOf(t)) {
        assert b !in q.stk.held || b in nodes;
      }
    }
  }

  lemma MoveLosesNone(q: QState, q': QState, m: Move, nodes: seq<Ptr>, nodes': seq<Ptr>, t: Tid)
    requires NoneLost(q, nodes)
    requires Moved(m, Private(q.QPcOf(t)), Private(q'.QPcOf(t)), q.stk.held, q'.stk.held)
    requires forall u :: u != t ==> q'.QPcOf(u) == q.QPcOf(u)
    requires nodes' == (if m.LinkedIn? then nodes + [m.block] else if m.Dropped? && nodes != [] then nodes[1..] else nodes)
    requires m.Dropped? ==> nodes != [] && m.block == nodes[0]
    ensures NoneLost(q', nodes')
  {
    forall b | b in q'.stk.held ensures b in nodes' || exists u :: b in Private(q'.QPcOf(u)) {
      if b !in q.stk.held || (m.Dropped? && b == m.block) {
        assert b in Private(q'.QPcOf(t));
      } else if b !in nodes {
        var u :| b in Private(q.QPcOf(u));
        assert b in nodes' || b in Private(q'.QPcOf(u));
      } else if m.Dropped? {
        assert nodes == [nodes[0]] + nodes[1..];
      }
    }
  }

  /** Every action of every thread keeps the whole invariant. */
  lemma ActionKeepsQInv(q: QState, a: QAction, l: seq<Ptr>, nodes: seq<Ptr>)
    requires QInv(q, l, nodes) && QEnabled(q, a)
    ensures Inner(q, a).Some? ==> Ready(q.stk, Inner(q, a).value)
    ensures QInv(QApply(q, a), NextFree(q, a, l), NextNodes(q, a, nodes))
  {
    ActionKeepsFreeList(q, a, l, nodes);
    ActionKeepsLinked(q, a, l, nodes);
    ActionKeepsOwned(q, a, l, nodes);
    ActionKeepsCalls(q, a);
    ActionKeepsQThreads(q, a, l, nodes);
  }

  // ---------------------------------------------------------------- linearizability

  datatype QOp = NoQOp | Enqueue(v: Value) | Enqueued | Dequeue | Dequeued(result: Option<Value>)

  /** An enqueue has taken effect once its node is linked, a dequeue once head has moved or nothing was found. */
  function QOpOf(pc: QPc): QOp {
    match pc
    case Outside => NoQOp
    case EnqSwing(_, _) => Enqueued
    case EnqCount => Enqueued
    case DeqFree(_, v) => Dequeued(Some(v))
    case DeqFreeing(v) => Dequeued(Some(v))
    case DeqCount(v) => Dequeued(Some(v))
    case DeqReturn(result) => Dequeued(result)
    case DeqHead => Dequeue
    case DeqTail(_) => Dequeue
    case DeqNext(_, _) => Dequeue
    case DeqCheck(_, _, _) => Dequeue
    case DeqHelp(_, _) => Dequeue
    case DeqValue(_, _) => Dequeue
    case DeqCas(_, _, _) => Dequeue
    case _ => Enqueue(pc.v)
  }

  /** One indivisible step of an operation on a FIFO queue. */
  ghost predicate QAtomicStep(vs: seq<Value>, op: QOp, vs': seq<Value>, op': QOp) {
    || (op' == op && vs' == vs)
    || (op.NoQOp? && (op'.Enqueue? || op'.Dequeue?) && vs' == vs)                             // call
    || ((op.Enqueued? || op.Dequeued?) && op'.NoQOp? && vs' == vs)                            // return
    || (op.Enqueue? && op'.Enqueued? && vs' == vs + [op.v])                                   // enqueue takes effect
    || (op.Dequeue? && vs != [] && op' == Dequeued(Some(vs[0])) && vs' == vs[1..])            // dequeue takes effect
    || (op.Dequeue? && op' == Dequeued(None) && vs' == vs)                                    // dequeue found nothing
  }

  lemma LinkIsEnqueue(q: QState, t: Tid, nodes: seq<Ptr>)
    requires QueueOk(q, nodes) && q.QPcOf(t).EnqLink? && q.NextOf(q.QPcOf(t).tail.ptr) == q.QPcOf(t).next
    requires q.ValueOf(q.QPcOf(t).node) == q.QPcOf(t).v
    ensures Contents(StepQueue(q, t), NextNodes(q, QueueStep(t), nodes)) == Contents(q, nodes) + [q.QPcOf(t).v]
  {
  }

  lemma DropIsDequeue(q: QState, t: Tid, nodes: seq<Ptr>)
    requires QueueOk(q, nodes) && q.QPcOf(t).DeqCas? && QThreadOk(q, nodes, q.QPcOf(t)) && q.head == q.QPcOf(t).head
    ensures |nodes| >= 2 && Contents(q, nodes)[0] == q.QPcOf(t).v
    ensures Contents(StepQueue(q, t), NextNodes(q, QueueStep(t), nodes)) == Contents(q, nodes)[1..]
  {
    DropKeepsLinked(q, t, nodes);
  }

  lemma QuietActionKeepsContents(q: QState, a: QAction, nodes: seq<Ptr>)
    requires QEnabled(q, a) && nodes != [] && forall b :: b in Private(q.QPcOf(a.t)) ==> b !in nodes
    ensures Contents(QApply(q, a), nodes) == Contents(q, nodes)
  {
    forall b | b in nodes ensures QApply(q, a).ValueOf(b) == q.ValueOf(b) {
      ActionTouchesOwn(q, a, b);
    }
  }

  /** The two accesses at which an operation takes effect on the contents. */
  predicate Links(q: QState, a: QAction) {
    a.QueueStep? && q.QPcOf(a.t).EnqLink? && q.NextOf(q.QPcOf(a.t).tail.ptr) == q.QPcOf(a.t).next
  }

  predicate Drops(q: QState, a: QAction) {
    a.QueueStep? && q.QPcOf(a.t).DeqCas? && q.head == q.QPcOf(a.t).head
  }

  lemma QuietActionIsAtomic(q: QState, a: QAction, vs: seq<Value>)
    requires QEnabled(q, a) && Calls(q.QPcOf(a.t), q.stk.PcOf(a.t)) && !Links(q, a) && !Drops(q, a)
    ensures QAtomicStep(vs, QOpOf(q.QPcOf(a.t)), vs, QOpOf(QApply(q, a).QPcOf(a.t)))
  {
  }

  lemma AtomicCases(q: QState, a: QAction, nodes: seq<Ptr>)
    requires QueueOk(q, nodes) && QEnabled(q, a)
    requires QThreadOk(q, nodes, q.QPcOf(a.t)) && Calls(q.QPcOf(a.t), q.stk.PcOf(a.t))
    requires forall b :: b in Private(q.QPcOf(a.t)) ==> b !in nodes
    ensures NextNodes(q, a, nodes) != [] ==>
      QAtomicStep(Contents(q, nodes), QOpOf(q.QPcOf(a.t)),
                  Contents(QApply(q, a), NextNodes(q, a, nodes)), QOpOf(QApply(q, a).QPcOf(a.t)))
  {
    if Links(q, a) {
      LinkCase(q, a.t, nodes);
    } else if Drops(q, a) {
      DropCase(q, a.t, nodes);
    } else {
      QuietActionKeepsContents(q, a, nodes);
      QuietActionIsAtomic(q, a, Contents(q, nodes));
      assert NextNodes(q, a, nodes) == nodes;
    }
  }

  lemma LinkCase(q: QState, t: Tid, nodes: seq<Ptr>)
    requires QueueOk(q, nodes) && QThreadOk(q, nodes, q.QPcOf(t)) && Links(q, QueueStep(t))
    ensures QAtomicStep(Contents(q, nodes), QOpOf(q.QPcOf(t)),
                        Contents(StepQueue(q, t), NextNodes(q, QueueStep(t), nodes)), QOpOf(StepQueue(q, t).QPcOf(t)))
  {
    LinkIsEnqueue(q, t, nodes);
  }

  lemma DropCase(q: QState, t: Tid, nodes: seq<Ptr>)
    requires QueueOk(q, nodes) && QThreadOk(q, nodes, q.QPcOf(t)) && Drops(q, QueueStep(t))
    requires NextNodes(q, QueueStep(t), nodes) != []
    ensures QAtomicStep(Contents(q, nodes), QOpOf(q.QPcOf(t)),
                        Contents(StepQueue(q, t), NextNodes(q, QueueStep(t), nodes)), QOpOf(StepQueue(q, t).QPcOf(t)))
  {
    DropIsDequeue(q, t, nodes);
    DropOps(q, t);
    DequeueIsAtomic(Contents(q, nodes), q.QPcOf(t).v, Contents(StepQueue(q, t), NextNodes(q, QueueStep(t), nodes)));
  }

  lemma DropOps(q: QState, t: Tid)
    requires Drops(q, QueueStep(t))
    ensures QOpOf(q.QPcOf(t)) == Dequeue && QOpOf(StepQueue(q, t).QPcOf(t)) == Dequeued(Some(q.QPcOf(t).v))
  {
  }

  lemma DequeueIsAtomic(vs: seq<Value>, v: Value, vs': seq<Value>)
    requires vs != [] && vs[0] == v && vs' == vs[1..]
    ensures QAtomicStep(vs, Dequeue, vs', Dequeued(Some(v)))
  {
  }

  /** Every action is an atomic step of the acting thread's operation on the FIFO contents. */
  lemma QActionIsAtomic(q: QState, a: QAction, l: seq<Ptr>, nodes: seq<Ptr>)
    requires QInv(q, l, nodes) && QEnabled(q, a)
    ensures NextNodes(q, a, nodes) != []
    ensures QAtomicStep(Contents(q, nodes), QOpOf(q.QPcOf(a.t)),
                        Contents(QApply(q, a), NextNodes(q, a, nodes)), QOpOf(QApply(q, a).QPcOf(a.t)))
  {
    ActionFrames(q, a, l, nodes);
    ActionKeepsLinked(q, a, l, nodes);
    AtomicCases(q, a, nodes);
  }

  // ---------------------------------------------------------------- whole runs

  /**
    What lf_queue_init leaves: a free list built by its own operations and now quiet, one block `dummy` taken
    from it with a null link, head and tail on it (with whatever versions the memory held), and no caller yet.
  */
  ghost predicate QInit(q: QState, ss: seq<State>, acts: seq<Action>, dummy: Ptr) {
    && IsRun(ss, acts) && q.stk == ss[|acts|]
    && q.stk.held == {dummy} && dummy in q.stk.next && q.stk.next[dummy].ptr == NULL
    && q.head.ptr == dummy && q.tail.ptr == dummy && q.len == 0
    && (forall t :: q.stk.PcOf(t) == Idle)
    && (forall t :: q.QPcOf(t) == Outside)
  }

  /** A run of the queue: any number of threads, any interleaving; `ss`, `acts` built the free list before it. */
  datatype QRun = QRun(ss: seq<State>, acts: seq<Action>, dummy: Ptr, qs: seq<QState>, qacts: seq<QAction>)
  {
    ghost predicate Valid() {
      && |qs| == |qacts| + 1
      && QInit(qs[0], ss, acts, dummy)
      && forall i :: 0 <= i < |qacts| ==> QEnabled(qs[i], qacts[i]) && qs[i + 1] == QApply(qs[i], qacts[i])
    }

    /** The nodes of the queue after `i` actions: dummy first. */
    ghost function Nodes(i: nat): seq<Ptr>
      requires Valid() && i <= |qacts|
    {
      if i == 0 then [dummy] else NextNodes(qs[i - 1], qacts[i - 1], Nodes(i - 1))
    }

    /** The free list after `i` actions. */
    ghost function Free(i: nat): seq<Ptr>
      requires Valid() && i <= |qacts|
    {
      if i == 0 then ListAt(ss, acts, |acts|)
      else if Inner(qs[i - 1], qacts[i - 1]).Some? ==> Ready(qs[i - 1].stk, Inner(qs[i - 1], qacts[i - 1]).value)
      then NextFree(qs[i - 1], qacts[i - 1], Free(i - 1)) else Free(i - 1)
    }
  }

  lemma QRunStartsWell(r: QRun)
    requires r.Valid()
    ensures QInv(r.qs[0], r.Free(0), r.Nodes(0))
  {
    RunKeepsInv(r.ss, r.acts, |r.acts|);
    var q := r.qs[0];
    forall t ensures q.QPcOf(t) == Outside && q.stk.PcOf(t) == Idle {}
  }

  lemma NextKeepsQInv(r: QRun, i: nat)
    requires r.Valid() && i < |r.qacts| && QInv(r.qs[i], r.Free(i), r.Nodes(i))
    ensures QInv(r.qs[i + 1], r.Free(i + 1), r.Nodes(i + 1))
  {
    ActionKeepsQInv(r.qs[i], r.qacts[i], r.Free(i), r.Nodes(i));
  }

  lemma {:induction false} QRunKeepsInv(r: QRun, i: nat)
    requires r.Valid() && i <= |r.qacts|
    ensures QInv(r.qs[i], r.Free(i), r.Nodes(i))
  {
    if i == 0 {
      QRunStartsWell(r);
    } else {
      QRunKeepsInv(r, i - 1);
      NextKeepsQInv(r, i - 1);
    }
  }

  /** The values in the queue after `i` actions, oldest first. */
  ghost function ValuesAt(r: QRun, i: nat): seq<Value>
    requires r.Valid() && i <= |r.qacts|
  {
    if r.Nodes(i) == [] then [] else Contents(r.qs[i], r.Nodes(i))
  }

  /**
    Linearizability of the queue, over whole runs: the queue starts empty, every action of every thread is an
    atomic step of that thread's own operation on the FIFO contents and of nobody else's, and the contents are what
    memory holds: the values along the only chain from head to NULL.
  */
  lemma QRunIsLinearizable(r: QRun, i: nat, t: Tid, nodes: seq<Ptr>)
    requires r.Valid() && i < |r.qacts|
    ensures ValuesAt(r, 0) == []
    ensures Chain(r.qs[i].stk.next, r.qs[i].head.ptr, nodes) ==> nodes != [] && Contents(r.qs[i], nodes) == ValuesAt(r, i)
    ensures t == r.qacts[i].t ==>
      QAtomicStep(ValuesAt(r, i), QOpOf(r.qs[i].QPcOf(t)), ValuesAt(r, i + 1), QOpOf(r.qs[i + 1].QPcOf(t)))
    ensures t != r.qacts[i].t ==> r.qs[i + 1].QPcOf(t) == r.qs[i].QPcOf(t)
  {
    QRunKeepsInv(r, i);
    QActionIsAtomic(r.qs[i], r.qacts[i], r.Free(i), r.Nodes(i));
    if t != r.qacts[i].t {
      OthersStandStill(r.qs[i], r.qacts[i], t);
    }
    if Chain(r.qs[i].stk.next, r.qs[i].head.ptr, nodes) {
      ChainUnique(r.qs[i].stk.next, r.qs[i].head.ptr, nodes, r.Nodes(i));
    }
  }

  /** From state `i` to state `j` thread `t` is inside one dequeue, and at `i` the queue is empty. */
  ghost predicate EmptyDuring(r: QRun, t: Tid, i: nat, j: nat)
    requires r.Valid() && j <= |r.qacts|
  {
    i <= j && ValuesAt(r, i) == [] && forall k :: i <= k <= j ==> QOpOf(r.qs[k].QPcOf(t)) == Dequeue
  }

  /** The dequeue's own read: one node is linked, so the queue is empty. */
  lemma ReadSawEmpty(r: QRun, j: nat, t: Tid)
    requires r.Valid() && j < |r.qacts| && r.qacts[j].t == t
    requires var pc := r.qs[j + 1].QPcOf(t); pc.DeqCheck? && pc.next.ptr == NULL && r.qs[j + 1].head == pc.head
    ensures EmptyDuring(r, t, j, j + 1)
  {
    QRunKeepsInv(r, j);
    var q := r.qs[j];
    assert Calls(q.QPcOf(t), q.stk.PcOf(t));
    CheckFollowsRead(q, r.qacts[j], r.Nodes(j));
  }

  /** Somebody else's step: head and what was read are as before. */
  lemma StillReads(r: QRun, j: nat, t: Tid)
    requires r.Valid() && j < |r.qacts| && r.qacts[j].t != t
    requires var pc := r.qs[j + 1].QPcOf(t); pc.DeqCheck? && pc.next.ptr == NULL && r.qs[j + 1].head == pc.head
    ensures r.qs[j].QPcOf(t) == r.qs[j + 1].QPcOf(t) && r.qs[j].head == r.qs[j].QPcOf(t).head
  {
    QRunKeepsInv(r, j);
    HeadWasTheSame(r.qs[j], r.qacts[j], r.Free(j), r.Nodes(j), t);
  }

  lemma NobodyReadsYet(r: QRun, t: Tid)
    requires r.Valid()
    ensures !r.qs[0].QPcOf(t).DeqCheck?
  {
  }

  /** While head is still what a dequeue copied and it read a null link, the queue was empty at that read. */
  lemma {:induction false} NullLinkMeansEmpty(r: QRun, j: nat, t: Tid) returns (i: nat)
    requires r.Valid() && j <= |r.qacts|
    requires var pc := r.qs[j].QPcOf(t); pc.DeqCheck? && pc.next.ptr == NULL && r.qs[j].head == pc.head
    ensures EmptyDuring(r, t, i, j)
  {
    NobodyReadsYet(r, t);
    if r.qacts[j - 1].t == t {
      i := j - 1;
      ReadSawEmpty(r, j - 1, t);
    } else {
      StillReads(r, j - 1, t);
      i := NullLinkMeansEmpty(r, j - 1, t);
    }
  }

  /** Head versions only grow, so a head that equals an old copy has not changed since. */
  lemma HeadWasTheSame(q: QState, a: QAction, l: seq<Ptr>, nodes: seq<Ptr>, t: Tid)
    requires QInv(q, l, nodes) && QEnabled(q, a) && a.t != t
    requires QApply(q, a).QPcOf(t).DeqCheck? && QApply(q, a).head == QApply(q, a).QPcOf(t).head
    ensures QApply(q, a).QPcOf(t) == q.QPcOf(t) && q.head == q.QPcOf(t).head
  {
    OthersStandStill(q, a, t);
    assert QThreadOk(q, nodes, q.QPcOf(t));
    ActionEvolvesQueue(q, a, l, nodes);
  }

  lemma CheckFollowsRead(q: QState, a: QAction, nodes: seq<Ptr>)
    requires QEnabled(q, a) && Linked(q, nodes) && Calls(q.QPcOf(a.t), q.stk.PcOf(a.t))
    requires var pc := QApply(q, a).QPcOf(a.t); pc.DeqCheck? && pc.next.ptr == NULL && QApply(q, a).head == pc.head
    ensures q.QPcOf(a.t).DeqNext? && |nodes| == 1
  {
    assert nodes[0] == q.head.ptr && q.NextOf(nodes[0]).ptr == At(nodes, 1);
  }

  /** A dequeue that returns NULL found the queue empty at some moment between its call and its return. */
  lemma EmptyDequeueSawEmptyQueue(r: QRun, j: nat, t: Tid)
    requires r.Valid() && j < |r.qacts|
    requires QOpOf(r.qs[j].QPcOf(t)) == Dequeue && QOpOf(r.qs[j + 1].QPcOf(t)) == Dequeued(None)
    ensures exists i :: EmptyDuring(r, t, i, j)
  {
    if r.qacts[j].t != t {
      OthersStandStill(r.qs[j], r.qacts[j], t);
    } else {
      NothingFoundAfterCheck(r.qs[j], r.qacts[j]);
      var i := NullLinkMeansEmpty(r, j, t);
    }
  }

  lemma NothingFoundAfterCheck(q: QState, a: QAction)
    requires QEnabled(q, a) && QOpOf(q.QPcOf(a.t)) == Dequeue && QOpOf(QApply(q, a).QPcOf(a.t)) == Dequeued(None)
    ensures var pc := q.QPcOf(a.t); pc.DeqCheck? && pc.next.ptr == NULL && q.head == pc.head
  {
  }

  /** Versions of links never drop over a run. */
  lemma {:induction false} LinkVersionsGrow(r: QRun, i: nat, j: nat, b: Ptr)
    requires r.Valid() && i <= j <= |r.qacts| && b in r.qs[i].stk.next
    ensures b in r.qs[j].stk.next && r.qs[i].stk.next[b].version <= r.qs[j].stk.next[b].version
    decreases j - i
  {
    if i < j {
      QRunKeepsInv(r, i);
      ActionFrames(r.qs[i], r.qacts[i], r.Free(i), r.Nodes(i));
      LinkVersionsGrow(r, i + 1, j, b);
    }
  }

  /**
    ABA freedom across reuse: an enqueue ready to link after a node that has left the queue at some moment `k` since
    then (dequeued, perhaps freed, reallocated and queued again by `j`) finds a different link there, so its cas2 fails.
  */
  lemma StaleLinkFails(r: QRun, k: nat, j: nat, t: Tid)
    requires r.Valid() && k <= j <= |r.qacts|
    requires r.qs[k].QPcOf(t).EnqLink? && r.qs[j].QPcOf(t) == r.qs[k].QPcOf(t)
    requires r.qs[k].QPcOf(t).tail.ptr !in r.Nodes(k)
    ensures r.qs[j].NextOf(r.qs[j].QPcOf(t).tail.ptr) != r.qs[j].QPcOf(t).next
  {
    QRunKeepsInv(r, k);
    var pc := r.qs[k].QPcOf(t);
    assert QThreadOk(r.qs[k], r.Nodes(k), pc);
    assert Last(r.Nodes(k)) in r.Nodes(k);
    LinkVersionsGrow(r, k, j, pc.tail.ptr);
  }

  /** The address the next access of a thread goes through, if it goes through a pointer it copied or allocated. */
  function Dereferenced(pc: QPc): Option<Ptr> {
    match pc
    case EnqValue(_, node) => Some(node)
    case EnqReset(_, node) => Some(node)
    case EnqNext(_, _, tail) => Some(tail.ptr)
    case EnqLink(_, _, tail, _) => Some(tail.ptr)
    case DeqNext(head, _) => Some(head.ptr)
    case DeqValue(_, next) => Some(next.ptr)
    case _ => None
  }

  /**
    In every reachable state the queue is one chain from head to a null link, tail is on its last or second-to-last
    node (head never passes it), and no thread is about to go through NULL or through memory that was never carved,
    although dequeued nodes are freed and reused at once.
  */
  lemma QueueIsAlwaysWellFormed(r: QRun, i: nat, t: Tid)
    requires r.Valid() && i <= |r.qacts|
    ensures Linked(r.qs[i], r.Nodes(i))
    ensures Dereferenced(r.qs[i].QPcOf(t)).Some? ==>
      var p := Dereferenced(r.qs[i].QPcOf(t)).value; p != NULL && p in r.qs[i].stk.next
  {
    QRunKeepsInv(r, i);
    assert QThreadOk(r.qs[i], r.Nodes(i), r.qs[i].QPcOf(t));
    if Private(r.qs[i].QPcOf(t)) != {} && Dereferenced(r.qs[i].QPcOf(t)).Some? {
      assert forall b :: b in Private(r.qs[i].QPcOf(t)) ==> b in r.qs[i].stk.held;
    }
  }

  /** Where a carved block is: exactly one of these holds of it, in every reachable state. */
  ghost predicate OnFreeList(r: QRun, i: nat, b: Ptr) requires r.Valid() && i <= |r.qacts| { b in r.Free(i) }
  ghost predicate InQueue(r: QRun, i: nat, b: Ptr) requires r.Valid() && i <= |r.qacts| { b in r.Nodes(i) }
  ghost predicate InOperation(r: QRun, i: nat, b: Ptr) requires r.Valid() && i <= |r.qacts| {
    exists t :: b in Private(r.qs[i].QPcOf(t)) || InFlight(r.qs[i].stk.PcOf(t)) == b
  }

  lemma QueueConservesBlocks(r: QRun, i: nat, b: Ptr)
    requires r.Valid() && i <= |r.qacts| && b in r.qs[i].stk.next
    ensures OnFreeList(r, i, b) || InQueue(r, i, b) || InOperation(r, i, b)
    ensures !(OnFreeList(r, i, b) && InQueue(r, i, b))
    ensures !(OnFreeList(r, i, b) && InOperation(r, i, b))
    ensures !(InQueue(r, i, b) && InOperation(r, i, b))
  {
    QRunKeepsInv(r, i);
  }

  /** No two operations ever hold the same block: two live allocations never coincide. */
  lemma AllocationsAreExclusive(r: QRun, i: nat, t: Tid, u: Tid, b: Ptr)
    requires r.Valid() && i <= |r.qacts| && t != u && b != NULL
    requires b in Private(r.qs[i].QPcOf(t)) || InFlight(r.qs[i].stk.PcOf(t)) == b
    ensures b !in Private(r.qs[i].QPcOf(u)) && InFlight(r.qs[i].stk.PcOf(u)) != b
  {
    QRunKeepsInv(r, i);
  }

  // ---------------------------------------------------------------- the counter

  predicate IsLinking(pc: QPc) {
    QOpOf(pc).Enqueued?
  }

  predicate IsDraining(pc: QPc) {
    pc.DeqFree? || pc.DeqFreeing? || pc.DeqCount?
  }

  function Linking(q: QState): set<Tid> {
    set t | t in q.qpcs && IsLinking(q.qpcs[t])
  }

  function Draining(q: QState): set<Tid> {
    set t | t in q.qpcs && IsDraining(q.qpcs[t])
  }

  /** `len` lags the contents by exactly the operations that have taken effect and not counted themselves yet. */
  ghost predicate LenOk(q: QState, nodes: seq<Ptr>) {
    nodes != [] && q.len == |nodes| - 1 - |Linking(q)| + |Draining(q)|
  }

  lemma OneMemberMoves(ts: set<Tid>, ts': set<Tid>, t: Tid)
    requires ts' - {t} == ts - {t}
    ensures |ts'| == |ts| - (if t in ts then 1 else 0) + (if t in ts' then 1 else 0)
  {
    CardinalityWithout(ts, t);
    CardinalityWithout(ts', t);
  }

  lemma OneThreadMovesLinking(q: QState, q': QState, t: Tid)
    requires q'.qpcs == q.qpcs[t := q'.QPcOf(t)] || q'.qpcs == q.qpcs
    ensures |Linking(q')| == |Linking(q)| - (if IsLinking(q.QPcOf(t)) then 1 else 0) + (if IsLinking(q'.QPcOf(t)) then 1 else 0)
  {
    assert Linking(q') - {t} == Linking(q) - {t};
    OneMemberMoves(Linking(q), Linking(q'), t);
  }

  lemma OneThreadMovesDraining(q: QState, q': QState, t: Tid)
    requires q'.qpcs == q.qpcs[t := q'.QPcOf(t)] || q'.qpcs == q.qpcs
    ensures |Draining(q')| == |Draining(q)| - (if IsDraining(q.QPcOf(t)) then 1 else 0) + (if IsDraining(q'.QPcOf(t)) then 1 else 0)
  {
    assert Draining(q') - {t} == Draining(q) - {t};
    OneMemberMoves(Draining(q), Draining(q'), t);
  }

  lemma OnlyActorMoves(q: QState, a: QAction)
    requires QEnabled(q, a)
    ensures var q' := QApply(q, a); q'.qpcs == q.qpcs[a.t := q'.QPcOf(a.t)] || q'.qpcs == q.qpcs
  {
  }

  /** What one action adds to the contents, to `len` and to the operations in between. */
  lemma ActionCounts(q: QState, a: QAction, nodes: seq<Ptr>)
    requires QEnabled(q, a) && nodes != [] && Calls(q.QPcOf(a.t), q.stk.PcOf(a.t))
    ensures var q' := QApply(q, a);
      q'.len - |NextNodes(q, a, nodes)| + (if IsLinking(q'.QPcOf(a.t)) then 1 else 0) - (if IsDraining(q'.QPcOf(a.t)) then 1 else 0)
      == q.len - |nodes| + (if IsLinking(q.QPcOf(a.t)) then 1 else 0) - (if IsDraining(q.QPcOf(a.t)) then 1 else 0)
  {
  }

  lemma ActionKeepsLen(q: QState, a: QAction, nodes: seq<Ptr>)
    requires QEnabled(q, a) && LenOk(q, nodes) && NextNodes(q, a, nodes) != []
    requires Calls(q.QPcOf(a.t), q.stk.PcOf(a.t))
    ensures LenOk(QApply(q, a), NextNodes(q, a, nodes))
  {
    OnlyActorMoves(q, a);
    ActionCounts(q, a, nodes);
    OneThreadMovesLinking(q, QApply(q, a), a.t);
    OneThreadMovesDraining(q, QApply(q, a), a.t);
  }

  lemma {:induction false} QRunKeepsLen(r: QRun, i: nat)
    requires r.Valid() && i <= |r.qacts|
    ensures LenOk(r.qs[i], r.Nodes(i))
  {
    if i == 0 {
      forall t ensures t !in Linking(r.qs[0]) && t !in Draining(r.qs[0]) {
        assert r.qs[0].QPcOf(t) == Outside;
      }
      assert Linking(r.qs[0]) == {} && Draining(r.qs[0]) == {};
    } else {
      QRunKeepsInv(r, i - 1);
      QRunKeepsInv(r, i);
      QRunKeepsLen(r, i - 1);
      assert Calls(r.qs[i - 1].QPcOf(r.qacts[i - 1].t), r.qs[i - 1].stk.PcOf(r.qacts[i - 1].t));
      ActionKeepsLen(r.qs[i - 1], r.qacts[i - 1], r.Nodes(i - 1));
    }
  }

  /** Whenever no operation is under way, `len` is the number of values in the queue. */
  lemma QuietLenIsExact(r: QRun, i: nat)
    requires r.Valid() && i <= |r.qacts| && forall t :: r.qs[i].QPcOf(t).Outside?
    ensures r.qs[i].len == |ValuesAt(r, i)|
  {
    QRunKeepsLen(r, i);
    forall t ensures t !in Linking(r.qs[i]) && t !in Draining(r.qs[i]) {
      assert r.qs[i].QPcOf(t).Outside?;
    }
    assert Linking(r.qs[i]) == {} && Draining(r.qs[i]) == {};
  }
}
