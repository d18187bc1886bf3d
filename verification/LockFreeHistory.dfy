/**
  The queue of airplay/threads/LockFree.cpp (lines 178-273) seen by its callers: every completed operation, from its call
  on, has exactly one moment at which a FIFO queue gives the result it returns.
*/
module LockFreeHistory {
  import opened Options
  import opened TaggedStack
  import opened LockFreeQueue

  /** What an operation on a FIFO queue does: the contents before and after it, and what it returns. */
  ghost predicate FifoStep(vs: seq<Value>, call: QAction, result: QOp, vs': seq<Value>) {
    match call
    case CallEnqueue(_, v) => result.Enqueued? && vs' == vs + [v]
    case CallDequeue(_) =>
      if vs == [] then result == Dequeued(None) && vs' == vs else result == Dequeued(Some(vs[0])) && vs' == vs[1..]
    case _ => false
  }

  /** Thread `t` calls at `i` and is in that same operation up to and including state `j`. */
  ghost predicate InOneCall(r: QRun, i: nat, j: nat, t: Tid)
    requires r.Valid()
  {
    && i < j <= |r.qacts| && r.qacts[i].t == t && (r.qacts[i].CallEnqueue? || r.qacts[i].CallDequeue?)
    && forall k :: i < k <= j ==> !r.qs[k].QPcOf(t).Outside?
  }

  predicate HasResult(op: QOp) {
    op.Enqueued? || op.Dequeued?
  }

  /** What an operation is until it has taken effect. */
  function Pending(call: QAction): QOp {
    match call
    case CallEnqueue(_, v) => Enqueue(v)
    case CallDequeue(_) => Dequeue
    case _ => NoQOp
  }

  ghost function OpAt(r: QRun, k: nat, t: Tid): QOp
    requires r.Valid() && k <= |r.qacts|
  {
    QOpOf(r.qs[k].QPcOf(t))
  }

  lemma CallIsPending(r: QRun, i: nat, t: Tid)
    requires r.Valid() && i < |r.qacts| && r.qacts[i].t == t && (r.qacts[i].CallEnqueue? || r.qacts[i].CallDequeue?)
    ensures OpAt(r, i, t) == NoQOp && OpAt(r, i + 1, t) == Pending(r.qacts[i])
  {
    assert QEnabled(r.qs[i], r.qacts[i]) && r.qs[i + 1] == QApply(r.qs[i], r.qacts[i]);
  }

  /** One action, as far as thread `t` is concerned. */
  lemma ActionOfRun(r: QRun, k: nat, t: Tid)
    requires r.Valid() && k < |r.qacts|
    ensures r.qacts[k].t == t ==> QAtomicStep(ValuesAt(r, k), OpAt(r, k, t), ValuesAt(r, k + 1), OpAt(r, k + 1, t))
    ensures r.qacts[k].t != t ==> OpAt(r, k + 1, t) == OpAt(r, k, t)
  {
    QRunIsLinearizable(r, k, t, []);
  }

  lemma InsideHasOp(pc: QPc)
    ensures pc.Outside? <==> QOpOf(pc).NoQOp?
  {
  }

  /** Once it has its result, an operation keeps it, and its remaining steps leave the contents alone. */
  lemma StepWithin(r: QRun, i: nat, k: nat, t: Tid)
    requires r.Valid() && InOneCall(r, i, k + 1, t) && i < k
    ensures OpAt(r, k, t) == OpAt(r, k + 1, t) || (HasResult(OpAt(r, k + 1, t)) && !HasResult(OpAt(r, k, t)))
    ensures r.qacts[k].t == t && OpAt(r, k, t) == OpAt(r, k + 1, t) ==> ValuesAt(r, k + 1) == ValuesAt(r, k)
  {
    ActionOfRun(r, k, t);
    InsideHasOp(r.qs[k].QPcOf(t));
    InsideHasOp(r.qs[k + 1].QPcOf(t));
  }

  ghost function OpsOf(r: QRun, n: nat, t: Tid): (ops: seq<QOp>)
    requires r.Valid() && n <= |r.qacts|
    ensures |ops| == n + 1 && forall k :: 0 <= k <= n ==> ops[k] == OpAt(r, k, t)
  {
    seq(n + 1, k requires 0 <= k <= n => OpAt(r, k, t))
  }

  lemma {:induction false} SameUntilResult(ops: seq<QOp>, i: nat, k: nat)
    requires i <= k < |ops|
    requires forall x :: i <= x < k ==> ops[x + 1] == ops[x] || HasResult(ops[x + 1])
    ensures ops[k] == ops[i] || exists x :: i < x <= k && HasResult(ops[x])
  {
    if i < k {
      SameUntilResult(ops, i, k - 1);
    }
  }

  lemma PendingUntilResult(r: QRun, i: nat, k: nat, t: Tid)
    requires r.Valid() && InOneCall(r, i, k, t)
    ensures OpAt(r, k, t) == Pending(r.qacts[i]) || HasResult(OpAt(r, k, t))
  {
    CallIsPending(r, i, t);
    var ops := OpsOf(r, k, t);
    forall x | i + 1 <= x < k ensures ops[x + 1] == ops[x] || HasResult(ops[x + 1]) {
      StepInside(r, i, x, k, t);
    }
    SameUntilResult(ops, i + 1, k);
    if x :| i + 1 < x <= k && HasResult(ops[x]) {
      ResultStays(r, i, x, k, t);
    }
  }

  lemma StepInside(r: QRun, i: nat, x: nat, m: nat, t: Tid)
    requires r.Valid() && InOneCall(r, i, m, t) && i < x < m
    ensures OpAt(r, x + 1, t) == OpAt(r, x, t) || (HasResult(OpAt(r, x + 1, t)) && !HasResult(OpAt(r, x, t)))
  {
    StepWithin(r, i, x, t);
  }

  lemma ResultComesLater(r: QRun, i: nat, j: nat, t: Tid)
    requires r.Valid() && InOneCall(r, i, j, t) && HasResult(OpAt(r, j, t))
    ensures i + 1 < j && InOneCall(r, i, j - 1, t)
  {
    CallIsPending(r, i, t);
  }

  lemma ResultIsOwn(r: QRun, i: nat, m: nat, t: Tid)
    requires r.Valid() && i < m && InOneCall(r, i, m + 1, t) && HasResult(OpAt(r, m + 1, t)) && !HasResult(OpAt(r, m, t))
    ensures r.qacts[m].t == t && OpAt(r, m, t) == Pending(r.qacts[i])
  {
    ActionOfRun(r, m, t);
    PendingUntilResult(r, i, m, t);
  }

  /** The step with which an operation gets its result. */
  lemma {:induction false} ResultStep(r: QRun, i: nat, j: nat, t: Tid) returns (m: nat)
    requires r.Valid() && InOneCall(r, i, j, t) && HasResult(OpAt(r, j, t))
    ensures i < m < j && r.qacts[m].t == t
    ensures OpAt(r, m, t) == Pending(r.qacts[i]) && OpAt(r, m + 1, t) == OpAt(r, j, t)
  {
    ResultComesLater(r, i, j, t);
    m := j - 1;
    if HasResult(OpAt(r, m, t)) {
      StepWithin(r, i, m, t);
      m := ResultStep(r, i, m, t);
    } else {
      ResultIsOwn(r, i, m, t);
    }
  }

  lemma {:induction false} ResultsStay(ops: seq<QOp>, k: nat, m: nat)
    requires k <= m < |ops| && HasResult(ops[k])
    requires forall x :: k <= x < m && HasResult(ops[x]) ==> HasResult(ops[x + 1])
    ensures HasResult(ops[m])
  {
    if k < m {
      ResultsStay(ops, k, m - 1);
    }
  }

  lemma ResultStays(r: QRun, i: nat, k: nat, m: nat, t: Tid)
    requires r.Valid() && InOneCall(r, i, m, t) && i < k <= m && HasResult(OpAt(r, k, t))
    ensures HasResult(OpAt(r, m, t))
  {
    var ops := OpsOf(r, m, t);
    forall x | k <= x < m && HasResult(ops[x]) ensures HasResult(ops[x + 1]) {
      StepInside(r, i, x, m, t);
    }
    ResultsStay(ops, k, m);
  }

  /** An empty queue seen by a dequeue is seen after its call. */
  lemma EmptyIsInside(r: QRun, i: nat, m: nat, t: Tid, e: nat)
    requires r.Valid() && InOneCall(r, i, m, t) && EmptyDuring(r, t, e, m)
    ensures i < e
  {
    CallIsPending(r, i, t);
  }

  /**
    Linearizability, as callers see it: an operation called at `i` that has its result in state `j` took effect at one
    moment `m` in between.  There a FIFO queue goes from the contents before to those after, and gives that very result.
    A dequeue that finds nothing changes nothing; any other effect is the thread's own step.
  */
  lemma OperationTakesEffect(r: QRun, i: nat, j: nat, t: Tid) returns (m: nat)
    requires r.Valid() && InOneCall(r, i, j, t) && HasResult(OpAt(r, j, t))
    ensures i < m < j
    ensures OpAt(r, j, t) == Dequeued(None) ==> FifoStep(ValuesAt(r, m), r.qacts[i], OpAt(r, j, t), ValuesAt(r, m))
    ensures OpAt(r, j, t) != Dequeued(None) ==>
      r.qacts[m].t == t && FifoStep(ValuesAt(r, m), r.qacts[i], OpAt(r, j, t), ValuesAt(r, m + 1))
  {
    m := ResultStep(r, i, j, t);
    ActionOfRun(r, m, t);
    if OpAt(r, j, t) == Dequeued(None) {
      EmptyDequeueSawEmptyQueue(r, m, t);
      var e :| EmptyDuring(r, t, e, m);
      EmptyIsInside(r, i, m, t, e);
      m := e;
    }
  }

  /** And that is all it does: its other steps, the call and the return included, leave the contents as they are. */
  lemma OperationTakesEffectOnce(r: QRun, i: nat, j: nat, t: Tid, k: nat, l: nat)
    requires r.Valid() && InOneCall(r, i, j, t) && i <= k < l < |r.qacts| && (l <= j) && r.qacts[k].t == r.qacts[l].t == t
    ensures ValuesAt(r, k + 1) == ValuesAt(r, k) || ValuesAt(r, l + 1) == ValuesAt(r, l)
  {
    ActionOfRun(r, k, t);
    ActionOfRun(r, l, t);
    CallIsPending(r, i, t);
    if k > i && HasResult(OpAt(r, k + 1, t)) {
      ResultStays(r, i, k + 1, l, t);
    }
  }
}
