/**
  Where `tail` of the queue of airplay/threads/LockFree.cpp (lines 187-223) is: it falls behind the last node only between
  the two cas2 of an enqueue, and that enqueue is there to see to it.
*/
module LockFreeTail {
  import opened TaggedStack
  import opened LockFreeQueue

  /** The link and the tail an enqueuer has copied belong together. */
  ghost predicate CopiesMatch(q: QState, t: Tid) {
    var pc := q.QPcOf(t);
    pc.EnqLink? && pc.tail.ptr in q.stk.next && pc.next.version == q.stk.next[pc.tail.ptr].version ==> pc.tail == q.tail
  }

  /** This enqueuer has linked the last node, and its second cas2 will find `tail` as it expects it. */
  ghost predicate Swings(q: QState, nodes: seq<Ptr>, t: Tid)
    requires nodes != []
  {
    q.QPcOf(t) == EnqSwing(Last(nodes), q.tail)
  }

  ghost predicate TailOk(q: QState, nodes: seq<Ptr>)
    requires nodes != []
  {
    && (forall t :: CopiesMatch(q, t))
    && (q.tail.ptr != Last(nodes) ==> exists t :: Swings(q, nodes, t))
  }

  lemma TailStays(q: QState, a: QAction, l: seq<Ptr>, nodes: seq<Ptr>)
    requires QInv(q, l, nodes) && QEnabled(q, a)
    ensures QApply(q, a).tail == q.tail
      || (q.tail.ptr != Last(nodes) && QApply(q, a).tail == Ref(Last(nodes), q.tail.version + 1))
  {
    ActionFrames(q, a, l, nodes);
    assert QThreadOk(q, nodes, q.QPcOf(a.t));
    TailStaysNearEnd(q, a, nodes);
  }

  /** Another thread's copies: as long as the version of the link stands, tail is where it was. */
  lemma OthersMatch(q: QState, a: QAction, l: seq<Ptr>, nodes: seq<Ptr>, u: Tid)
    requires QInv(q, l, nodes) && QEnabled(q, a) && u != a.t && CopiesMatch(q, u)
    ensures CopiesMatch(QApply(q, a), u)
  {
    OthersStandStill(q, a, u);
    ActionFrames(q, a, l, nodes);
    TailStays(q, a, l, nodes);
    if q.QPcOf(u).EnqLink? {
      assert QThreadOk(q, nodes, q.QPcOf(u));
    }
  }

  /** The acting thread's own: it has just seen that tail is the one it copied. */
  lemma OwnMatch(q: QState, a: QAction, l: seq<Ptr>, nodes: seq<Ptr>)
    requires QInv(q, l, nodes) && QEnabled(q, a)
    ensures CopiesMatch(QApply(q, a), a.t)
  {
    assert Calls(q.QPcOf(a.t), q.stk.PcOf(a.t));
  }

  /** Whether the action links a node. */
  predicate LinksNode(q: QState, a: QAction) {
    a.QueueStep? && q.QPcOf(a.t).EnqLink? && q.NextOf(q.QPcOf(a.t).tail.ptr) == q.QPcOf(a.t).next
  }

  lemma LinkerSwings(q: QState, a: QAction, l: seq<Ptr>, nodes: seq<Ptr>)
    requires QInv(q, l, nodes) && QEnabled(q, a) && LinksNode(q, a) && CopiesMatch(q, a.t)
    ensures NextNodes(q, a, nodes) != [] && Swings(QApply(q, a), NextNodes(q, a, nodes), a.t)
  {
    assert QThreadOk(q, nodes, q.QPcOf(a.t));
  }

  lemma LastStays(q: QState, a: QAction, l: seq<Ptr>, nodes: seq<Ptr>)
    requires QInv(q, l, nodes) && QEnabled(q, a) && !LinksNode(q, a)
    ensures NextNodes(q, a, nodes) != [] && Last(NextNodes(q, a, nodes)) == Last(nodes)
  {
    ActionFrames(q, a, l, nodes);
    assert QThreadOk(q, nodes, q.QPcOf(a.t));
    if a.QueueStep? && q.QPcOf(a.t).DeqCas? && q.head == q.QPcOf(a.t).head {
      DropKeepsLinked(q, a.t, nodes);
    }
  }

  /** An enqueuer at its second cas2 does nothing else, and that moves tail. */
  lemma SwingMoves(q: QState, a: QAction, l: seq<Ptr>, nodes: seq<Ptr>)
    requires QInv(q, l, nodes) && QEnabled(q, a) && Swings(q, nodes, a.t)
    ensures QApply(q, a).tail == Ref(Last(nodes), q.tail.version + 1)
  {
    assert Calls(q.QPcOf(a.t), q.stk.PcOf(a.t));
  }

  lemma OtherKeepsTail(q: QState, a: QAction, l: seq<Ptr>, nodes: seq<Ptr>)
    requires QInv(q, l, nodes) && QEnabled(q, a) && !LinksNode(q, a) && TailOk(q, nodes)
    ensures NextNodes(q, a, nodes) != []
    ensures var q', nodes' := QApply(q, a), NextNodes(q, a, nodes); q'.tail.ptr != Last(nodes') ==> exists t :: Swings(q', nodes', t)
  {
    var q' := QApply(q, a);
    LastStays(q, a, l, nodes);
    TailStays(q, a, l, nodes);
    if q'.tail.ptr != Last(nodes) {
      var t :| Swings(q, nodes, t);
      if t == a.t {
        SwingMoves(q, a, l, nodes);
        assert false;
      }
      OthersStandStill(q, a, t);
      assert Swings(q', NextNodes(q, a, nodes), t);
    }
  }

  lemma ActionKeepsTail(q: QState, a: QAction, l: seq<Ptr>, nodes: seq<Ptr>)
    requires QInv(q, l, nodes) && QEnabled(q, a) && TailOk(q, nodes)
    ensures NextNodes(q, a, nodes) != [] && TailOk(QApply(q, a), NextNodes(q, a, nodes))
  {
    forall t ensures CopiesMatch(QApply(q, a), t) {
      if t == a.t {
        OwnMatch(q, a, l, nodes);
      } else {
        OthersMatch(q, a, l, nodes, t);
      }
    }
    if LinksNode(q, a) {
      assert CopiesMatch(q, a.t);
      LinkerSwings(q, a, l, nodes);
    } else {
      OtherKeepsTail(q, a, l, nodes);
    }
  }

  lemma TailStartsWell(r: QRun)
    requires r.Valid()
    ensures TailOk(r.qs[0], r.Nodes(0))
  {
    QRunStartsWell(r);
    forall t ensures CopiesMatch(r.qs[0], t) {
      assert r.qs[0].QPcOf(t) == Outside;
    }
  }

  lemma NextKeepsTail(r: QRun, i: nat)
    requires r.Valid() && i < |r.qacts| && r.Nodes(i) != [] && TailOk(r.qs[i], r.Nodes(i))
    ensures r.Nodes(i + 1) != [] && TailOk(r.qs[i + 1], r.Nodes(i + 1))
  {
    QRunKeepsInv(r, i);
    ActionKeepsTail(r.qs[i], r.qacts[i], r.Free(i), r.Nodes(i));
  }

  lemma {:induction false} RunKeepsTail(r: QRun, i: nat)
    requires r.Valid() && i <= |r.qacts|
    ensures r.Nodes(i) != [] && TailOk(r.qs[i], r.Nodes(i))
  {
    if i == 0 {
      TailStartsWell(r);
    } else {
      RunKeepsTail(r, i - 1);
      NextKeepsTail(r, i - 1);
    }
  }

  lemma LaggingTail(q: QState, nodes: seq<Ptr>)
    requires nodes != [] && TailOk(q, nodes) && q.tail.ptr != nodes[|nodes| - 1]
    ensures exists t :: q.QPcOf(t) == EnqSwing(nodes[|nodes| - 1], q.tail)
  {
    var t :| Swings(q, nodes, t);
    assert q.QPcOf(t) == EnqSwing(nodes[|nodes| - 1], q.tail);
  }

  /** In every run tail is on the last node, unless the enqueuer that linked it has yet to make its second cas2. */
  lemma TailLagsBehindLinker(r: QRun, i: nat)
    requires r.Valid() && i <= |r.qacts|
    ensures r.Nodes(i) != []
    ensures r.qs[i].tail.ptr == r.Nodes(i)[|r.Nodes(i)| - 1]
      || exists t :: r.qs[i].QPcOf(t) == EnqSwing(r.Nodes(i)[|r.Nodes(i)| - 1], r.qs[i].tail)
  {
    RunKeepsTail(r, i);
    var q, nodes := r.qs[i], r.Nodes(i);
    if q.tail.ptr != nodes[|nodes| - 1] {
      LaggingTail(q, nodes);
    }
  }
}
