/**
  How plist_from_bin hangs the parsed objects together (airplay/libplist/src/bplist.c, lines 698-757): each object is
  moved to the first place that refers to it and copied to every later one.  Nodes are records in one sequence and
  pointers are positions in it (airplay/libplist/libcnary/cnary_node.c, lines 47-95, 209-223).
*/
module PlistRebuild {
  import opened Options
  import opened PlistTree
  import opened PlistFlat

  datatype Rec = Rec(data: Data, kids: seq<nat>, parent: Option<nat>, depth: nat, count: nat, isLeaf: bool, isRoot: bool)

  /** node_create without a parent. */
  function NewNode(data: Data): Rec {
    Rec(data, [], None, 0, 0, true, true)
  }

  /** node_attach */
  function Attached(nodes: seq<Rec>, parent: nat, child: nat): (after: seq<Rec>)
    requires parent < |nodes| && child < |nodes|
    ensures |after| == |nodes|
  {
    var depth := nodes[parent].depth + 1;
    var hung := nodes[child := nodes[child].(isLeaf := true, isRoot := false, parent := Some(parent), depth := depth)];
    var p := hung[parent];
    hung[parent := p.(isLeaf := false, kids := p.kids + [child], count := p.count + 1)]
  }

  predicate IsString(d: Data) {
    d.Text? || d.Key?
  }

  /** The type of a node set to PLIST_KEY, whatever string it holds. */
  function AsKey(d: Data): Data
    requires IsString(d)
  {
    Key(d.s)
  }

  /** Only strings are ever marked as keys: see StringsAreKeys. */
  predicate CanTag(nodes: seq<Rec>, slot: Slot) {
    slot.ref < |nodes| && (slot.asKey ==> IsString(nodes[slot.ref].data))
  }

  function Tagged(nodes: seq<Rec>, slot: Slot): (after: seq<Rec>)
    requires CanTag(nodes, slot)
    ensures |after| == |nodes|
  {
    if slot.asKey then nodes[slot.ref := nodes[slot.ref].(data := AsKey(nodes[slot.ref].data))] else nodes
  }

  /** One child hung under object `i`: the object itself if nothing has it yet, else a copy. */
  function SlotAttached(nodes: seq<Rec>, i: nat, slot: Slot): seq<Rec>
    requires i < |nodes| && CanTag(nodes, slot)
  {
    var tagged := Tagged(nodes, slot);
    if tagged[slot.ref].isRoot then Attached(tagged, i, slot.ref)
    else Attached(tagged + [NewNode(tagged[slot.ref].data)], i, |tagged|)
  }

  function TopData(f: Flat): Data {
    match f
    case Leaf(d) => d
    case Items(_) => Array
    case Entries(_, _) => Dict
  }

  // ---------------------------------------------------------------- the loops

  class Forest {
    var nodes: seq<Rec>

    /** The parsed objects, not hung together yet (lines 687-696). */
    constructor (flat: seq<Flat>)
      ensures nodes == seq(|flat|, i requires 0 <= i < |flat| => NewNode(TopData(flat[i])))
    {
      nodes := seq(|flat|, i requires 0 <= i < |flat| => NewNode(TopData(flat[i])));
    }

    method Attach(parent: nat, child: nat)
      requires parent < |nodes| && child < |nodes|
      modifies this
      ensures nodes == Attached(old(nodes), parent, child)
    {
      var c := nodes[child].(isLeaf := true, isRoot := false, parent := Some(parent));
      c := c.(depth := nodes[parent].depth + 1);
      nodes := nodes[child := c];
      var p := nodes[parent];
      if p.isLeaf {
        p := p.(isLeaf := false);
      }
      p := p.(kids := p.kids + [child], count := p.count + 1);
      nodes := nodes[parent := p];
    }

    /** node_copy_deep, of a node without children. */
    method Copy(k: nat) returns (copy: nat)
      requires k < |nodes| && nodes[k].kids == []
      modifies this
      ensures copy == |old(nodes)| && nodes == old(nodes) + [NewNode(old(nodes)[k].data)]
    {
      copy := |nodes|;
      nodes := nodes + [NewNode(nodes[k].data)];
    }

    /** Line 716. */
    method MarkAsKey(index: nat)
      requires index < |nodes| && IsString(nodes[index].data)
      modifies this
      ensures nodes == Tagged(old(nodes), Slot(index, true))
    {
      nodes := nodes[index := nodes[index].(data := AsKey(nodes[index].data))];
    }

    /** Lines 718-724, and the same again for values and for items. */
    method AttachOrCopy(i: nat, index: nat)
      requires i < |nodes| && index < |nodes| && (!nodes[index].isRoot ==> nodes[index].kids == [])
      modifies this
      ensures nodes == SlotAttached(old(nodes), i, Slot(index, false))
    {
      if nodes[index].isRoot {
        Attach(i, index);
      } else {
        var copy := Copy(index);
        Attach(i, copy);
      }
    }

    method AttachAsKey(i: nat, index: nat)
      requires i < |nodes| && index < |nodes| && (!nodes[index].isRoot ==> nodes[index].kids == [])
      requires IsString(nodes[index].data)
      modifies this
      ensures nodes == SlotAttached(old(nodes), i, Slot(index, true))
    {
      MarkAsKey(index);
      AttachOrCopy(i, index);
    }

    /** Lines 707-733: key, value, key, value, ... */
    method HangEntries(flat: seq<Flat>, i: nat)
      requires TreeLike(flat) && i < |flat| && flat[i].Entries? && Built(nodes, flat, i, 0)
      modifies this
      ensures Built(nodes, flat, i, |Slots(flat[i])|)
    {
      var keys, values := flat[i].keys, flat[i].values;
      var length := if |keys| <= |values| then |keys| else |values|;
      var j := 0;
      ghost var s := 0;
      SlotCount(flat, i);
      while j < length
        invariant 0 <= j <= length && s == 2 * j
        invariant Built(nodes, flat, i, s)
      {
        EntrySlots(flat, i, j, s);
        HangEntry(flat, i, s, keys[j], values[j]);
        j, s := j + 1, s + 2;
      }
    }

    /** One turn: the key is marked as one before it is attached. */
    method HangEntry(flat: seq<Flat>, i: nat, ghost s: nat, index1: nat, index2: nat)
      requires TreeLike(flat) && Built(nodes, flat, i, s)
      requires InSlot(flat, i, s) && SlotAt(flat, i, s) == Slot(index1, true)
      requires InSlot(flat, i, s + 1) && SlotAt(flat, i, s + 1) == Slot(index2, false)
      modifies this
      ensures Built(nodes, flat, i, s + 2)
    {
      HangKey(flat, i, s, index1);
      HangOther(flat, i, s + 1, index2);
    }

    method HangKey(flat: seq<Flat>, i: nat, ghost s: nat, index: nat)
      requires TreeLike(flat) && InSlot(flat, i, s) && SlotAt(flat, i, s) == Slot(index, true) && Built(nodes, flat, i, s)
      modifies this
      ensures Built(nodes, flat, i, s + 1)
    {
      SlotKeepsBuilt(nodes, flat, i, s);
      AttachAsKey(i, index);
    }

    method HangOther(flat: seq<Flat>, i: nat, ghost s: nat, index: nat)
      requires TreeLike(flat) && InSlot(flat, i, s) && SlotAt(flat, i, s) == Slot(index, false) && Built(nodes, flat, i, s)
      modifies this
      ensures Built(nodes, flat, i, s + 1)
    {
      SlotKeepsBuilt(nodes, flat, i, s);
      AttachOrCopy(i, index);
    }

    /** Lines 739-751. */
    method HangItems(flat: seq<Flat>, i: nat)
      requires TreeLike(flat) && i < |flat| && flat[i].Items? && Built(nodes, flat, i, 0)
      modifies this
      ensures Built(nodes, flat, i, |Slots(flat[i])|)
    {
      var refs := flat[i].refs;
      var j := 0;
      while j < |refs|
        invariant 0 <= j <= |refs| && Built(nodes, flat, i, j)
      {
        assert InSlot(flat, i, j) && SlotAt(flat, i, j) == Slot(refs[j], false);
        HangOther(flat, i, j, refs[j]);
        j := j + 1;
      }
    }

    /** Lines 699-757.  What it builds is stated by `Built`; the tree that stands for, by BuiltIsTree below. */
    method HangTogether(flat: seq<Flat>)
      requires TreeLike(flat) && nodes == seq(|flat|, i requires 0 <= i < |flat| => NewNode(TopData(flat[i])))
      modifies this
      ensures Built(nodes, flat, |flat|, 0)
    {
      var i := 0;
      StartIsBuilt(flat);
      while i < |flat|
        invariant 0 <= i <= |flat| && Built(nodes, flat, i, 0)
      {
        match flat[i] {
          case Entries(_, _) => HangEntries(flat, i);
          case Items(_) => HangItems(flat, i);
          case Leaf(_) =>
        }
        NextObject(nodes, flat, i);
        i := i + 1;
      }
    }
  }

  lemma SlotCount(flat: seq<Flat>, i: nat)
    requires i < |flat| && flat[i].Entries?
    ensures |Slots(flat[i])| == 2 * (if |flat[i].keys| <= |flat[i].values| then |flat[i].keys| else |flat[i].values|)
  {
  }

  lemma EntrySlots(flat: seq<Flat>, i: nat, j: nat, s: nat)
    requires s == 2 * j && i < |flat| && flat[i].Entries? && j < |flat[i].keys| && j < |flat[i].values|
    ensures InSlot(flat, i, s) && SlotAt(flat, i, s) == Slot(flat[i].keys[j], true)
    ensures InSlot(flat, i, s + 1) && SlotAt(flat, i, s + 1) == Slot(flat[i].values[j], false)
  {
  }

  // ---------------------------------------------------------------- what holds after every slot

  /** Slot `u` of object `x` has been attached, by the time slot `s` of object `i` is next. */
  ghost predicate Done(flat: seq<Flat>, i: nat, s: nat, x: nat, u: nat) {
    InSlot(flat, x, u) && (x < i || (x == i && u < s))
  }

  /** How many children a node has by then. */
  ghost function DoneCount(flat: seq<Flat>, i: nat, s: nat, x: nat): nat {
    if x >= |flat| then 0 else if x < i then |Slots(flat[x])| else if x == i then s else 0
  }

  ghost predicate Shape(nodes: seq<Rec>, flat: seq<Flat>, i: nat, s: nat, x: nat)
    requires x < |nodes|
  {
    && |nodes[x].kids| == nodes[x].count == DoneCount(flat, i, s, x)
    && (nodes[x].isLeaf <==> nodes[x].kids == [])
    && (x < |flat| && !flat[x].Leaf? ==> nodes[x].data == TopData(flat[x]))
  }

  /** Child `u` of object `x` is the right object in the right place, or a copy of a leaf. */
  ghost predicate KidOk(nodes: seq<Rec>, flat: seq<Flat>, x: nat, u: nat)
    requires InSlot(flat, x, u)
  {
    && x < |nodes| && u < |nodes[x].kids| && SlotAt(flat, x, u).ref < |flat|
    && var k, slot := nodes[x].kids[u], SlotAt(flat, x, u);
    && k < |nodes|
    && (k == slot.ref || (k >= |flat| && flat[slot.ref].Leaf?))
    && nodes[k].parent == Some(x) && !nodes[k].isRoot
    && nodes[k].depth == nodes[x].depth + 1
    && (flat[slot.ref].Leaf? ==> nodes[k].data == Retag(flat[slot.ref].data, slot.asKey))
  }

  /** A node without a parent is an object as parsed; any other is where its parent says. */
  ghost predicate Placed(nodes: seq<Rec>, flat: seq<Flat>, i: nat, s: nat, k: nat)
    requires k < |nodes|
  {
    if nodes[k].isRoot then
      k < |flat| && nodes[k].parent == None && nodes[k].depth == 0 && nodes[k].data == TopData(flat[k])
    else
      exists x: nat, u: nat :: Done(flat, i, s, x, u) && Holds(nodes, x, u, k)
  }

  ghost predicate Holds(nodes: seq<Rec>, x: nat, u: nat, k: nat) {
    x < |nodes| && u < |nodes[x].kids| && nodes[x].kids[u] == k
  }

  /** Slots done so far have been attached, each to a node of its own. */
  ghost predicate Built(nodes: seq<Rec>, flat: seq<Flat>, i: nat, s: nat) {
    && |nodes| >= |flat|
    && (i < |flat| ==> s <= |Slots(flat[i])|)
    && (forall x: nat {:trigger Shape(nodes, flat, i, s, x)} :: x < |nodes| ==> Shape(nodes, flat, i, s, x))
    && (forall x: nat, u: nat {:trigger KidOk(nodes, flat, x, u)} :: Done(flat, i, s, x, u) ==> KidOk(nodes, flat, x, u))
    && (forall x: nat, u: nat, y: nat, v: nat, k: nat {:trigger Holds(nodes, x, u, k), Holds(nodes, y, v, k)} ::
          Holds(nodes, x, u, k) && Holds(nodes, y, v, k) ==> x == y && u == v)
    && (forall k: nat {:trigger Placed(nodes, flat, i, s, k)} :: k < |nodes| ==> Placed(nodes, flat, i, s, k))
  }

  lemma StartIsBuilt(flat: seq<Flat>)
    requires TreeLike(flat)
    ensures Built(seq(|flat|, i requires 0 <= i < |flat| => NewNode(TopData(flat[i]))), flat, 0, 0)
  {
  }

  lemma NextObject(nodes: seq<Rec>, flat: seq<Flat>, i: nat)
    requires i < |flat| && Built(nodes, flat, i, |Slots(flat[i])|)
    ensures Built(nodes, flat, i + 1, 0)
  {
    var s := |Slots(flat[i])|;
    forall x: nat {:trigger nodes[x]} | x < |nodes| ensures Shape(nodes, flat, i + 1, 0, x) {
      assert Shape(nodes, flat, i, s, x);
    }
    forall x: nat, u: nat | Done(flat, i + 1, 0, x, u) ensures KidOk(nodes, flat, x, u) {
      assert Done(flat, i, s, x, u);
    }
    forall k: nat {:trigger nodes[k]} | k < |nodes| ensures Placed(nodes, flat, i + 1, 0, k) {
      assert Placed(nodes, flat, i, s, k);
      if !nodes[k].isRoot {
        var x: nat, u: nat :| Done(flat, i, s, x, u) && Holds(nodes, x, u, k);
        assert Done(flat, i + 1, 0, x, u);
      }
    }
  }

  /** What attaching does: node `k`, moved or new, becomes the last child of object `i`, and nothing else changes. */
  ghost predicate Hung(nodes: seq<Rec>, after: seq<Rec>, i: nat, k: nat, d: Data) {
    && i < |nodes| && i != k && k <= |nodes|
    && |after| == (if k < |nodes| then |nodes| else |nodes| + 1)
    && (forall x: nat {:trigger after[x]} :: x < |nodes| && x != i && x != k ==> after[x] == nodes[x])
    && after[i] == nodes[i].(isLeaf := false, kids := nodes[i].kids + [k], count := nodes[i].count + 1)
    && after[k] == Rec(d, [], Some(i), nodes[i].depth + 1, 0, true, false)
  }

  lemma MoveIsHung(nodes: seq<Rec>, i: nat, slot: Slot)
    requires i < |nodes| && CanTag(nodes, slot) && i != slot.ref
    requires nodes[slot.ref].isRoot && nodes[slot.ref].kids == [] && nodes[slot.ref].count == 0
    ensures Hung(nodes, SlotAttached(nodes, i, slot), i, slot.ref,
                 if slot.asKey then AsKey(nodes[slot.ref].data) else nodes[slot.ref].data)
  {
  }

  lemma CopyIsHung(nodes: seq<Rec>, i: nat, slot: Slot)
    requires i < |nodes| && CanTag(nodes, slot) && i != slot.ref
    requires !nodes[slot.ref].isRoot && (slot.asKey ==> AsKey(nodes[slot.ref].data) == nodes[slot.ref].data)
    ensures Hung(nodes, SlotAttached(nodes, i, slot), i, |nodes|, nodes[slot.ref].data)
  {
    var data := nodes[slot.ref].data;
    assert Tagged(nodes, slot) == nodes;
    var more := nodes + [NewNode(data)];
    assert SlotAttached(nodes, i, slot) == Attached(more, i, |nodes|);
  }

  /** An object already attached somewhere is a leaf, and has the data this slot wants. */
  lemma AttachedBefore(nodes: seq<Rec>, flat: seq<Flat>, i: nat, s: nat)
    requires TreeLike(flat) && InSlot(flat, i, s) && Built(nodes, flat, i, s)
    requires SlotAt(flat, i, s).ref < |flat| && !nodes[SlotAt(flat, i, s).ref].isRoot
    ensures var slot := SlotAt(flat, i, s);
      flat[slot.ref].Leaf? && nodes[slot.ref].data == Retag(flat[slot.ref].data, slot.asKey)
  {
    var slot := SlotAt(flat, i, s);
    assert Placed(nodes, flat, i, s, slot.ref);
    var x: nat, u: nat :| Done(flat, i, s, x, u) && Holds(nodes, x, u, slot.ref);
    assert KidOk(nodes, flat, x, u);
    assert SlotsAgree(flat, x, u, i, s);
  }

  /** Where a slot is next, its object has no children yet. */
  lemma NextIsBare(nodes: seq<Rec>, flat: seq<Flat>, i: nat, s: nat)
    requires TreeLike(flat) && InSlot(flat, i, s) && Built(nodes, flat, i, s)
    ensures var r := SlotAt(flat, i, s).ref; r < |flat| && r != i && nodes[r].kids == [] && nodes[r].count == 0
  {
    assert SlotOk(flat, i, s);
    assert Shape(nodes, flat, i, s, SlotAt(flat, i, s).ref);
  }

  /** What the step attaches: a leaf with its data, or a container itself. */
  ghost predicate Fits(nodes: seq<Rec>, flat: seq<Flat>, slot: Slot, k: nat, d: Data) {
    && slot.ref < |flat| <= |nodes|
    && (if k < |nodes| then k == slot.ref && nodes[k].isRoot else flat[slot.ref].Leaf?)
    && d == (if flat[slot.ref].Leaf? then Retag(flat[slot.ref].data, slot.asKey) else TopData(flat[slot.ref]))
    && (k < |nodes| ==> nodes[k].kids == [])
  }

  /** What is attached as a key is a string, whether it has been marked before or not. */
  lemma StringsAreKeys(nodes: seq<Rec>, flat: seq<Flat>, i: nat, s: nat)
    requires TreeLike(flat) && InSlot(flat, i, s) && Built(nodes, flat, i, s)
    ensures i < |nodes| && CanTag(nodes, SlotAt(flat, i, s))
  {
    var slot := SlotAt(flat, i, s);
    assert SlotOk(flat, i, s);
    if slot.asKey {
      if nodes[slot.ref].isRoot {
        assert Placed(nodes, flat, i, s, slot.ref);
      } else {
        AttachedBefore(nodes, flat, i, s);
      }
    }
  }

  lemma StepHangs(nodes: seq<Rec>, flat: seq<Flat>, i: nat, s: nat) returns (k: nat, d: Data)
    requires TreeLike(flat) && InSlot(flat, i, s) && Built(nodes, flat, i, s)
    ensures i < |nodes| && CanTag(nodes, SlotAt(flat, i, s))
    ensures var slot := SlotAt(flat, i, s); slot.ref < |flat| && nodes[slot.ref].kids == []
    ensures Hung(nodes, SlotAttached(nodes, i, SlotAt(flat, i, s)), i, k, d)
    ensures Fits(nodes, flat, SlotAt(flat, i, s), k, d)
  {
    var slot := SlotAt(flat, i, s);
    NextIsBare(nodes, flat, i, s);
    StringsAreKeys(nodes, flat, i, s);
    assert SlotOk(flat, i, s);
    if nodes[slot.ref].isRoot {
      assert Placed(nodes, flat, i, s, slot.ref);
      MoveIsHung(nodes, i, slot);
      k, d := slot.ref, if slot.asKey then AsKey(nodes[slot.ref].data) else nodes[slot.ref].data;
    } else {
      AttachedBefore(nodes, flat, i, s);
      CopyIsHung(nodes, i, slot);
      k, d := |nodes|, nodes[slot.ref].data;
    }
  }

  lemma ShapeStep(nodes: seq<Rec>, after: seq<Rec>, flat: seq<Flat>, i: nat, s: nat, k: nat, d: Data, x: nat)
    requires Built(nodes, flat, i, s) && InSlot(flat, i, s) && x < |after|
    requires Hung(nodes, after, i, k, d) && Fits(nodes, flat, SlotAt(flat, i, s), k, d)
    ensures Shape(after, flat, i, s + 1, x)
  {
    if x < |nodes| {
      assert Shape(nodes, flat, i, s, x);
    }
  }

  lemma KidStep(nodes: seq<Rec>, after: seq<Rec>, flat: seq<Flat>, i: nat, s: nat, k: nat, d: Data, x: nat, u: nat)
    requires Built(nodes, flat, i, s) && InSlot(flat, i, s) && Done(flat, i, s + 1, x, u)
    requires Hung(nodes, after, i, k, d) && Fits(nodes, flat, SlotAt(flat, i, s), k, d)
    requires Forward(flat)
    ensures KidOk(after, flat, x, u)
  {
    assert Shape(nodes, flat, i, s, i);
    if x == i && u == s {
      assert after[i].kids[s] == k;
    } else {
      assert Done(flat, i, s, x, u);
      assert KidOk(nodes, flat, x, u);
      OldKidStays(nodes, after, flat, i, s, k, d, x, u);
    }
  }

  lemma OldKidStays(nodes: seq<Rec>, after: seq<Rec>, flat: seq<Flat>, i: nat, s: nat, k: nat, d: Data, x: nat, u: nat)
    requires InSlot(flat, i, s) && Forward(flat)
    requires Done(flat, i, s, x, u) && KidOk(nodes, flat, x, u) && |flat| <= |nodes|
    requires Hung(nodes, after, i, k, d) && Fits(nodes, flat, SlotAt(flat, i, s), k, d)
    ensures KidOk(after, flat, x, u)
  {
    var kid := nodes[x].kids[u];
    assert kid != k;
    assert x != k;
    assert after[x].kids[u] == kid && after[x].depth == nodes[x].depth;
  }

  lemma HeldStep(nodes: seq<Rec>, after: seq<Rec>, flat: seq<Flat>, i: nat, s: nat, k: nat, d: Data,
                 x: nat, u: nat, y: nat, v: nat, kid: nat)
    requires InSlot(flat, i, s) && Built(nodes, flat, i, s)
    requires Hung(nodes, after, i, k, d) && Fits(nodes, flat, SlotAt(flat, i, s), k, d)
    requires Holds(after, x, u, kid) && Holds(after, y, v, kid)
    ensures x == y && u == v
  {
    HeldBefore(nodes, after, flat, i, s, k, d, x, u, kid);
    HeldBefore(nodes, after, flat, i, s, k, d, y, v, kid);
    assert Shape(nodes, flat, i, s, i);
  }

  /** A child held after the step was held before it, unless it is the one just attached. */
  lemma HeldBefore(nodes: seq<Rec>, after: seq<Rec>, flat: seq<Flat>, i: nat, s: nat, k: nat, d: Data, x: nat, u: nat, kid: nat)
    requires InSlot(flat, i, s) && Built(nodes, flat, i, s)
    requires Hung(nodes, after, i, k, d) && Fits(nodes, flat, SlotAt(flat, i, s), k, d)
    requires Holds(after, x, u, kid)
    ensures (x == i && u == s && kid == k) || (Holds(nodes, x, u, kid) && kid != k)
  {
    assert Shape(nodes, flat, i, s, i);
    if !(x == i && u == s) {
      assert Holds(nodes, x, u, kid);
      assert Shape(nodes, flat, i, s, x);
      assert Done(flat, i, s, x, u);
      assert KidOk(nodes, flat, x, u);
    }
  }

  lemma PlacedStep(nodes: seq<Rec>, after: seq<Rec>, flat: seq<Flat>, i: nat, s: nat, k: nat, d: Data, m: nat)
    requires InSlot(flat, i, s) && Built(nodes, flat, i, s)
    requires Hung(nodes, after, i, k, d) && Fits(nodes, flat, SlotAt(flat, i, s), k, d)
    requires m < |after|
    ensures Placed(after, flat, i, s + 1, m)
  {
    assert Shape(nodes, flat, i, s, i);
    if m == k {
      assert Done(flat, i, s + 1, i, s) && Holds(after, i, s, k);
    } else {
      assert Placed(nodes, flat, i, s, m);
      if !nodes[m].isRoot {
        var x: nat, u: nat :| Done(flat, i, s, x, u) && Holds(nodes, x, u, m);
        assert Done(flat, i, s + 1, x, u) && Holds(after, x, u, m);
      }
    }
  }

  /** Only an object without children is ever attached, so only leaves are copied; and what was built stays so. */
  lemma SlotKeepsBuilt(nodes: seq<Rec>, flat: seq<Flat>, i: nat, s: nat)
    requires TreeLike(flat) && InSlot(flat, i, s) && Built(nodes, flat, i, s)
    ensures var slot := SlotAt(flat, i, s);
      && slot.ref < |flat| && i < |nodes| && CanTag(nodes, slot) && nodes[slot.ref].kids == []
      && Built(SlotAttached(nodes, i, slot), flat, i, s + 1)
  {
    TreeLikeIsForward(flat);
    var k, d := StepHangs(nodes, flat, i, s);
    HungIsBuilt(nodes, SlotAttached(nodes, i, SlotAt(flat, i, s)), flat, i, s, k, d);
  }

  lemma HungIsBuilt(nodes: seq<Rec>, after: seq<Rec>, flat: seq<Flat>, i: nat, s: nat, k: nat, d: Data)
    requires Built(nodes, flat, i, s) && InSlot(flat, i, s) && Forward(flat)
    requires Hung(nodes, after, i, k, d) && Fits(nodes, flat, SlotAt(flat, i, s), k, d)
    ensures Built(after, flat, i, s + 1)
  {
    forall x: nat {:trigger after[x]} | x < |after| ensures Shape(after, flat, i, s + 1, x) {
      ShapeStep(nodes, after, flat, i, s, k, d, x);
    }
    forall x: nat, u: nat | Done(flat, i, s + 1, x, u) ensures KidOk(after, flat, x, u) {
      KidStep(nodes, after, flat, i, s, k, d, x, u);
    }
    forall x: nat, u: nat, y: nat, v: nat, kid: nat | Holds(after, x, u, kid) && Holds(after, y, v, kid)
      ensures x == y && u == v
    {
      HeldStep(nodes, after, flat, i, s, k, d, x, u, y, v, kid);
    }
    forall m: nat {:trigger after[m]} | m < |after| ensures Placed(after, flat, i, s + 1, m) {
      PlacedStep(nodes, after, flat, i, s, k, d, m);
    }
  }

  /** Every attached node has one parent and one place there, and the copies are leaves. */
  lemma EveryNodeHasOnePlace(nodes: seq<Rec>, flat: seq<Flat>, k: nat) returns (x: nat, u: nat)
    requires TreeLike(flat) && Built(nodes, flat, |flat|, 0) && k < |nodes| && !nodes[k].isRoot
    ensures Holds(nodes, x, u, k) && nodes[k].parent == Some(x)
    ensures forall y: nat, v: nat :: Holds(nodes, y, v, k) ==> y == x && v == u
    ensures k >= |flat| ==> nodes[k].kids == []
    ensures InSlot(flat, x, u) && (k < |flat| ==> SlotAt(flat, x, u).ref == k)
  {
    assert Placed(nodes, flat, |flat|, 0, k) && Shape(nodes, flat, |flat|, 0, k);
    x, u :| Done(flat, |flat|, 0, x, u) && Holds(nodes, x, u, k);
    assert KidOk(nodes, flat, x, u) && SlotOk(flat, x, u);
  }

  // ---------------------------------------------------------------- the tree that was built

  /** The node at `k` is the tree `t`: data, children in order, and every link, depth, count and leaf mark below. */
  ghost predicate IsTree(nodes: seq<Rec>, k: nat, t: Node, depth: nat)
    decreases t, 1
  {
    && k < |nodes| && nodes[k].data == t.data && nodes[k].depth == depth
    && |nodes[k].kids| == |t.kids| == nodes[k].count && (nodes[k].isLeaf <==> t.kids == [])
    && forall u: nat :: u < |t.kids| ==> KidIsTree(nodes, k, u, t, depth)
  }

  ghost predicate KidIsTree(nodes: seq<Rec>, k: nat, u: nat, t: Node, depth: nat)
    requires u < |t.kids|
    decreases t, 0
  {
    && k < |nodes| && u < |nodes[k].kids|
    && var kid := nodes[k].kids[u];
    && kid < |nodes| && nodes[kid].parent == Some(k) && IsTree(nodes, kid, t.kids[u], depth + 1)
  }

  /** A leaf, wherever it ended up, has no children. */
  lemma {:induction false} ObjectIsTree(nodes: seq<Rec>, flat: seq<Flat>, r: nat, k: nat, asKey: bool)
    requires TreeLike(flat) && Forward(flat) && Built(nodes, flat, |flat|, 0) && r < |flat| && k < |nodes|
    requires k == r || (k >= |flat| && flat[r].Leaf?)
    requires flat[r].Leaf? ==> nodes[k].data == Retag(flat[r].data, asKey)
    ensures IsTree(nodes, k, Expand(flat, r, asKey), nodes[k].depth)
    decreases if flat[r].Leaf? then 0 else |flat| - r
  {
    assert Shape(nodes, flat, |flat|, 0, k);
    if !flat[r].Leaf? {
      var t := Expand(flat, r, asKey);
      forall u: nat | u < |t.kids| ensures KidIsTree(nodes, k, u, t, nodes[k].depth) {
        assert Done(flat, |flat|, 0, r, u);
        assert KidOk(nodes, flat, r, u) && SlotOk(flat, r, u);
        var slot := SlotAt(flat, r, u);
        ObjectIsTree(nodes, flat, slot.ref, nodes[k].kids[u], slot.asKey);
      }
    }
  }

  /** The loops build exactly the tree the flat table stands for, at the first object. */
  lemma BuiltIsTree(nodes: seq<Rec>, flat: seq<Flat>)
    requires TreeLike(flat) && Forward(flat) && Built(nodes, flat, |flat|, 0)
    ensures nodes[0].isRoot && nodes[0].parent == None
    ensures IsTree(nodes, 0, Expand(flat, 0, false), 0)
  {
    RootIsFree(nodes, flat);
    ObjectIsTree(nodes, flat, 0, 0, false);
  }

  lemma RootIsFree(nodes: seq<Rec>, flat: seq<Flat>)
    requires TreeLike(flat) && Built(nodes, flat, |flat|, 0)
    ensures nodes[0].isRoot && nodes[0].parent == None && nodes[0].depth == 0 && nodes[0].data == TopData(flat[0])
  {
    forall x: nat, u: nat | Done(flat, |flat|, 0, x, u) ensures !Holds(nodes, x, u, 0) {
      assert KidOk(nodes, flat, x, u) && SlotOk(flat, x, u);
    }
    assert Placed(nodes, flat, |flat|, 0, 0);
  }
}
