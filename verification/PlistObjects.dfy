/**
  How the encoder of airplay/libplist/src/bplist.c lays a tree out as a table of objects (serialize_plist, lines
  763-845), sharing equal scalars through a hash table keyed by plist_data_hash and plist_data_compare.
*/
module PlistObjects {
  import opened Options
  import opened PlistTree

  /**
    A pointer to a node of the tree being written: the node, its number in pre-order (which tells apart nodes with
    equal contents) and the parent and position it hangs from.
  */
  datatype Ref = Ref(id: nat, node: Node, up: Option<(nat, nat)>)

  /** The numbers of the nodes in a tree, and in the first `j` children of one. */
  function Size(n: Node): (size: nat)
    ensures size >= 1
    decreases n, |n.kids| + 1
  {
    1 + SizeUpTo(n, |n.kids|)
  }

  function SizeUpTo(n: Node, j: nat): nat
    requires j <= |n.kids|
    decreases n, j
  {
    if j == 0 then 0 else SizeUpTo(n, j - 1) + Size(n.kids[j - 1])
  }

  function Kid(p: Ref, j: nat): Ref
    requires j < |p.node.kids|
  {
    Ref(p.id + 1 + SizeUpTo(p.node, j), p.node.kids[j], Some((p.id, j)))
  }

  function Root(t: Node): Ref {
    Ref(0, t, None)
  }

  /** plist_data_compare: the same type and, for scalars, the same value or content; containers by pointer. */
  predicate Compare(a: Ref, b: Ref) {
    a.node.data == b.node.data && (a.node.data.IsContainer() ==> a.id == b.id)
  }

  /** Which chain of the table each node goes to; everything up to the sharing theorem holds for any such choice. */
  type Chains = Ref -> nat

  /** Whether the table, holding `a`, would answer with it when asked for `b`. */
  predicate Same(a: Ref, b: Ref, chain: Chains) {
    chain(a) == chain(b) && Compare(a, b)
  }

  /** The object the table finds for a node, as an index into the objects in the order they were added. */
  function IndexOf(objects: seq<Ref>, p: Ref, chain: Chains): (r: Option<nat>)
    ensures r.Some? ==> r.value < |objects| && Same(objects[r.value], p, chain)
  {
    if objects == [] then None
    else
      var last := |objects| - 1;
      var earlier := IndexOf(objects[..last], p, chain);
      if earlier.Some? then earlier else if Same(objects[last], p, chain) then Some(last) else None
  }

  /** It is the only object the table could answer with, as long as no two of them are the same to it. */
  lemma {:induction false} IndexOfNone(objects: seq<Ref>, p: Ref, chain: Chains)
    requires IndexOf(objects, p, chain).None?
    ensures forall i :: 0 <= i < |objects| ==> !Same(objects[i], p, chain)
  {
    if objects != [] {
      IndexOfNone(objects[..|objects| - 1], p, chain);
    }
  }

  // ---------------------------------------------------------------- serialize_plist

  /** Adds a node and then its children, unless the table has an equal object already. */
  function Serialize(p: Ref, objects: seq<Ref>, chain: Chains): seq<Ref>
    decreases p.node, |p.node.kids| + 1
  {
    if IndexOf(objects, p, chain).Some? then objects else SerializeKids(p, 0, objects + [p], chain)
  }

  function SerializeKids(p: Ref, j: nat, objects: seq<Ref>, chain: Chains): seq<Ref>
    requires j <= |p.node.kids|
    decreases p.node, |p.node.kids| - j
  {
    if j == |p.node.kids| then objects
    else SerializeKids(p, j + 1, Serialize(Kid(p, j), objects, chain), chain)
  }

  function ObjectsOf(t: Node, chain: Chains): seq<Ref> {
    Serialize(Root(t), [], chain)
  }

  // ---------------------------------------------------------------- sharing is sound and maximal

  /** No two objects that the table could have told apart as equal. */
  ghost predicate NoRepeats(objects: seq<Ref>, chain: Chains) {
    forall i, j :: 0 <= i < j < |objects| ==> !Same(objects[i], objects[j], chain)
  }

  /** The table answers for this node, with an equal object; for a container, with the container itself. */
  ghost predicate Found(objects: seq<Ref>, p: Ref, chain: Chains) {
    var i := IndexOf(objects, p, chain);
    i.Some? && (p.node.data.IsContainer() ==> objects[i.value] == p)
  }

  lemma {:induction false} IndexOfStays(objects: seq<Ref>, more: seq<Ref>, p: Ref, chain: Chains)
    requires IndexOf(objects, p, chain).Some?
    ensures IndexOf(objects + more, p, chain) == IndexOf(objects, p, chain)
    decreases |more|
  {
    if more == [] {
      assert objects + more == objects;
    } else {
      var last := |more| - 1;
      IndexOfStays(objects, more[..last], p, chain);
      assert (objects + more)[..|objects| + last] == objects + more[..last];
    }
  }

  // ---------------------------------------------------------------- the tree as a list of nodes

  /** All nodes of a tree in pre-order, as pointers. */
  function Flatten(p: Ref): (nodes: seq<Ref>)
    ensures nodes != [] && nodes[0] == p
    decreases p.node, |p.node.kids| + 1
  {
    [p] + FlattenKids(p, 0)
  }

  function FlattenKids(p: Ref, j: nat): seq<Ref>
    requires j <= |p.node.kids|
    decreases p.node, |p.node.kids| - j
  {
    if j == |p.node.kids| then [] else Flatten(Kid(p, j)) + FlattenKids(p, j + 1)
  }

  ghost predicate Ascending(nodes: seq<Ref>, low: nat, high: nat) {
    && (forall i :: 0 <= i < |nodes| ==> low <= nodes[i].id < high)
    && forall i, j :: 0 <= i < j < |nodes| ==> nodes[i].id < nodes[j].id
  }

  /** Pre-order numbers ascend along the list, so no two nodes have the same one. */
  lemma {:induction false} FlattenAscends(p: Ref)
    ensures Ascending(Flatten(p), p.id, p.id + Size(p.node))
    decreases p.node, |p.node.kids| + 1
  {
    FlattenKidsAscends(p, 0);
  }

  lemma {:induction false} FlattenKidsAscends(p: Ref, j: nat)
    requires j <= |p.node.kids|
    ensures SizeUpTo(p.node, j) <= SizeUpTo(p.node, |p.node.kids|)
    ensures Ascending(FlattenKids(p, j), p.id + 1 + SizeUpTo(p.node, j), p.id + Size(p.node))
    decreases p.node, |p.node.kids| - j
  {
    if j < |p.node.kids| {
      FlattenAscends(Kid(p, j));
      FlattenKidsAscends(p, j + 1);
    }
  }

  /** The list is closed under taking children, and all its nodes are well-formed. */
  lemma {:induction false} FlattenIsClosed(p: Ref, q: Ref)
    requires q in Flatten(p) && WellFormed(p.node)
    ensures WellFormed(q.node)
    ensures forall j :: 0 <= j < |q.node.kids| ==> Kid(q, j) in Flatten(p)
    decreases p.node, |p.node.kids| + 1
  {
    if q == p {
      forall j | 0 <= j < |q.node.kids| ensures Kid(q, j) in FlattenKids(p, 0) {
        KidIsListed(p, 0, j);
      }
    } else {
      FlattenKidsIsClosed(p, 0, q);
    }
  }

  lemma {:induction false} KidIsListed(p: Ref, i: nat, j: nat)
    requires i <= j < |p.node.kids|
    ensures Kid(p, j) in FlattenKids(p, i)
    decreases j - i
  {
    if i == j {
      assert Flatten(Kid(p, j))[0] == Kid(p, j);
    } else {
      KidIsListed(p, i + 1, j);
    }
  }

  lemma {:induction false} FlattenKidsIsClosed(p: Ref, i: nat, q: Ref)
    requires i <= |p.node.kids| && q in FlattenKids(p, i) && WellFormed(p.node)
    ensures WellFormed(q.node)
    ensures forall j :: 0 <= j < |q.node.kids| ==> Kid(q, j) in FlattenKids(p, i)
    decreases p.node, |p.node.kids| - i
  {
    if q in Flatten(Kid(p, i)) {
      assert WellFormed(p.node.kids[i]);
      FlattenIsClosed(Kid(p, i), q);
    } else {
      FlattenKidsIsClosed(p, i + 1, q);
    }
  }

  // ---------------------------------------------------------------- serializing is adding the list, node by node

  function AddAll(objects: seq<Ref>, nodes: seq<Ref>, chain: Chains): seq<Ref>
    decreases |nodes|
  {
    if nodes == [] then objects
    else AddAll(if IndexOf(objects, nodes[0], chain).Some? then objects else objects + [nodes[0]], nodes[1..], chain)
  }

  lemma {:induction false} AddAllConcat(objects: seq<Ref>, a: seq<Ref>, b: seq<Ref>, chain: Chains)
    ensures AddAll(objects, a + b, chain) == AddAll(AddAll(objects, a, chain), b, chain)
    decreases |a|
  {
    if a == [] {
      assert a + b == b;
    } else {
      assert (a + b)[1..] == a[1..] + b;
      AddAllConcat(if IndexOf(objects, a[0], chain).Some? then objects else objects + [a[0]], a[1..], b, chain);
    }
  }

  ghost predicate IdsBelow(objects: seq<Ref>, high: nat) {
    forall i :: 0 <= i < |objects| ==> objects[i].id < high
  }

  /** A container is never in the table before its first visit, so the early return is taken for leaves only. */
  lemma {:induction false} SerializeIsAddAll(p: Ref, objects: seq<Ref>, chain: Chains)
    requires WellFormed(p.node) && IdsBelow(objects, p.id)
    ensures Serialize(p, objects, chain) == AddAll(objects, Flatten(p), chain)
    ensures IdsBelow(Serialize(p, objects, chain), p.id + Size(p.node))
    decreases p.node, |p.node.kids| + 1
  {
    assert Flatten(p)[1..] == FlattenKids(p, 0);
    if IndexOf(objects, p, chain).Some? {
      assert !p.node.data.IsContainer();
      assert FlattenKids(p, 0) == [];
    } else {
      SerializeKidsIsAddAll(p, 0, objects + [p], chain);
    }
  }

  lemma {:induction false} SerializeKidsIsAddAll(p: Ref, j: nat, objects: seq<Ref>, chain: Chains)
    requires WellFormed(p.node) && j <= |p.node.kids| && IdsBelow(objects, p.id + 1 + SizeUpTo(p.node, j))
    ensures SerializeKids(p, j, objects, chain) == AddAll(objects, FlattenKids(p, j), chain)
    ensures IdsBelow(SerializeKids(p, j, objects, chain), p.id + Size(p.node))
    decreases p.node, |p.node.kids| - j
  {
    if j < |p.node.kids| {
      assert WellFormed(p.node.kids[j]);
      SerializeIsAddAll(Kid(p, j), objects, chain);
      SerializeKidsIsAddAll(p, j + 1, Serialize(Kid(p, j), objects, chain), chain);
      AddAllConcat(objects, Flatten(Kid(p, j)), FlattenKids(p, j + 1), chain);
    }
  }

  // ---------------------------------------------------------------- sharing is sound and maximal

  ghost predicate Sorted(objects: seq<Ref>) {
    forall i, j :: 0 <= i < j < |objects| ==> objects[i].id < objects[j].id
  }

  /** The table so far: in pre-order, without repeats. */
  ghost predicate Table(objects: seq<Ref>, chain: Chains) {
    Sorted(objects) && NoRepeats(objects, chain)
  }

  function AddNode(objects: seq<Ref>, q: Ref, chain: Chains): seq<Ref> {
    if IndexOf(objects, q, chain).Some? then objects else objects + [q]
  }

  lemma AddNodeKeepsTable(objects: seq<Ref>, q: Ref, chain: Chains)
    requires Table(objects, chain) && IdsBelow(objects, q.id)
    ensures Table(AddNode(objects, q, chain), chain) && IdsBelow(AddNode(objects, q, chain), q.id + 1)
    ensures Found(AddNode(objects, q, chain), q, chain)
  {
    if IndexOf(objects, q, chain).None? {
      IndexOfNone(objects, q, chain);
      NewNodeRepeatsNothing(objects, q, chain);
      NewNodeIsFound(objects, q, chain);
    } else {
      assert AddNode(objects, q, chain) == objects;
      FoundNodeIsSame(objects, q, chain);
    }
  }

  /** What is found for a node that has not been added yet is a leaf. */
  lemma FoundNodeIsSame(objects: seq<Ref>, q: Ref, chain: Chains)
    requires IdsBelow(objects, q.id) && IndexOf(objects, q, chain).Some?
    ensures Found(objects, q, chain)
  {
  }

  lemma NewNodeIsFound(objects: seq<Ref>, q: Ref, chain: Chains)
    requires IndexOf(objects, q, chain).None?
    ensures Found(objects + [q], q, chain)
  {
    var more := objects + [q];
    assert more[..|more| - 1] == objects && more[|more| - 1] == q;
  }

  lemma NewNodeRepeatsNothing(objects: seq<Ref>, q: Ref, chain: Chains)
    requires NoRepeats(objects, chain) && forall i :: 0 <= i < |objects| ==> !Same(objects[i], q, chain)
    ensures NoRepeats(objects + [q], chain)
  {
    assert (objects + [q])[..|objects|] == objects;
  }

  lemma FoundStays(objects: seq<Ref>, more: seq<Ref>, q: Ref, chain: Chains)
    requires Found(objects, q, chain)
    ensures Found(objects + more, q, chain)
  {
    IndexOfStays(objects, more, q, chain);
  }

  lemma {:induction false} AddAllExtends(objects: seq<Ref>, nodes: seq<Ref>, chain: Chains) returns (more: seq<Ref>)
    ensures AddAll(objects, nodes, chain) == objects + more
    ensures forall o :: o in more ==> o in nodes
    decreases |nodes|
  {
    if nodes == [] {
      more := [];
      assert objects == objects + more;
    } else {
      more := AddAllExtends(AddNode(objects, nodes[0], chain), nodes[1..], chain);
      if IndexOf(objects, nodes[0], chain).None? {
        assert objects + [nodes[0]] + more == objects + ([nodes[0]] + more);
        more := [nodes[0]] + more;
      }
    }
  }

  lemma AscendingTail(nodes: seq<Ref>, low: nat, high: nat)
    requires Ascending(nodes, low, high) && nodes != []
    ensures nodes[0].id >= low && Ascending(nodes[1..], nodes[0].id + 1, high)
  {
  }

  lemma {:induction false} AddAllKeepsTable(objects: seq<Ref>, nodes: seq<Ref>, low: nat, high: nat, chain: Chains)
    requires Table(objects, chain) && IdsBelow(objects, low) && Ascending(nodes, low, high)
    ensures Table(AddAll(objects, nodes, chain), chain)
    decreases |nodes|
  {
    if nodes != [] {
      AscendingTail(nodes, low, high);
      AddNodeKeepsTable(objects, nodes[0], chain);
      AddAllKeepsTable(AddNode(objects, nodes[0], chain), nodes[1..], nodes[0].id + 1, high, chain);
    }
  }

  lemma AddAllKeepsFound(objects: seq<Ref>, nodes: seq<Ref>, q: Ref, chain: Chains)
    requires Found(objects, q, chain)
    ensures Found(AddAll(objects, nodes, chain), q, chain)
  {
    var more := AddAllExtends(objects, nodes, chain);
    FoundStays(objects, more, q, chain);
  }

  lemma {:induction false} AddAllFinds(objects: seq<Ref>, nodes: seq<Ref>, low: nat, high: nat, q: Ref, chain: Chains)
    requires Table(objects, chain) && IdsBelow(objects, low) && Ascending(nodes, low, high) && q in nodes
    ensures Found(AddAll(objects, nodes, chain), q, chain)
    decreases |nodes|
  {
    var next := AddNode(objects, nodes[0], chain);
    AscendingTail(nodes, low, high);
    AddNodeKeepsTable(objects, nodes[0], chain);
    assert AddAll(objects, nodes, chain) == AddAll(next, nodes[1..], chain);
    if q == nodes[0] {
      AddAllKeepsFound(next, nodes[1..], q, chain);
    } else {
      AddAllFinds(next, nodes[1..], nodes[0].id + 1, high, q, chain);
    }
  }

  /** Everything the writer and the decoder rely on in the table of a tree; `nodes` are the tree's nodes. */
  ghost predicate GoodTable(objects: seq<Ref>, nodes: seq<Ref>, chain: Chains) {
    && objects != [] && nodes != [] && objects[0] == nodes[0]
    && (nodes[0].node.kids == [] ==> |nodes| == 1)
    && Table(objects, chain)
    && (forall o :: o in objects ==> o in nodes)
    && (forall q :: q in nodes ==> Found(objects, q, chain))
    && (forall q, j :: q in nodes && 0 <= j < |q.node.kids| ==> Kid(q, j) in nodes)
    && (forall q :: q in nodes ==> WellFormed(q.node))
  }

  /**
    The table of any tree: it answers for every node of the tree with an equal object, for every container with that
    very container; no object could have answered for another; the root comes first and pre-order is kept.
  */
  lemma ObjectsAreGood(t: Node, chain: Chains)
    requires WellFormed(t)
    ensures GoodTable(ObjectsOf(t, chain), Flatten(Root(t)), chain)
  {
    var p, nodes, objects := Root(t), Flatten(Root(t)), ObjectsOf(t, chain);
    SerializeIsAddAll(p, [], chain);
    FlattenAscends(p);
    AddAllKeepsTable([], nodes, 0, Size(t), chain);
    forall q | q in nodes ensures Found(objects, q, chain) {
      AddAllFinds([], nodes, 0, Size(t), q, chain);
    }
    var more := AddAllExtends([], nodes, chain);
    assert objects == more;
    assert t.kids == [] ==> FlattenKids(p, 0) == [];
    var tail := AddAllExtends([p], nodes[1..], chain);
    assert [] + [p] == [p] && objects == [p] + tail;
    forall q | q in nodes
      ensures WellFormed(q.node) && forall j :: 0 <= j < |q.node.kids| ==> Kid(q, j) in nodes
    {
      FlattenIsClosed(p, q);
    }
  }

  /** A shared object is never a container, and never stands for both a key and a string. */
  lemma SharedObjectsAreEqualLeaves(t: Node, chain: Chains, a: Ref, b: Ref)
    requires WellFormed(t) && a in Flatten(Root(t)) && b in Flatten(Root(t)) && a != b
    requires IndexOf(ObjectsOf(t, chain), a, chain) == IndexOf(ObjectsOf(t, chain), b, chain)
    ensures a.node.data == b.node.data && !a.node.data.IsContainer()
    ensures a.node.data.Key? <==> b.node.data.Key?
  {
    ObjectsAreGood(t, chain);
    assert Found(ObjectsOf(t, chain), a, chain) && Found(ObjectsOf(t, chain), b, chain);
  }

  /**
    When two nodes are written as one object: their data are the same and no array or dictionary, and they hash to the
    same chain.
  */
  lemma SharedIff(t: Node, chain: Chains, a: Ref, b: Ref)
    requires WellFormed(t) && a in Flatten(Root(t)) && b in Flatten(Root(t)) && a != b
    ensures IndexOf(ObjectsOf(t, chain), a, chain) == IndexOf(ObjectsOf(t, chain), b, chain)
      <==> a.node.data == b.node.data && a.node.data != Array && a.node.data != Dict && chain(a) == chain(b)
  {
    var objects := ObjectsOf(t, chain);
    ObjectsAreGood(t, chain);
    assert Found(objects, a, chain) && Found(objects, b, chain);
    var i, j := IndexOf(objects, a, chain).value, IndexOf(objects, b, chain).value;
    if a.node.data == b.node.data && a.node.data != Array && a.node.data != Dict && chain(a) == chain(b) {
      assert Same(objects[i], objects[j], chain) && Same(objects[j], objects[i], chain);
    }
  }

  // ---------------------------------------------------------------- pre-order

  lemma {:induction false} FlattenLength(p: Ref)
    ensures |Flatten(p)| == Size(p.node)
    decreases p.node, |p.node.kids| + 1
  {
    FlattenKidsLength(p, 0);
  }

  lemma {:induction false} FlattenKidsLength(p: Ref, j: nat)
    requires j <= |p.node.kids|
    ensures |FlattenKids(p, j)| + SizeUpTo(p.node, j) == SizeUpTo(p.node, |p.node.kids|)
    decreases p.node, |p.node.kids| - j
  {
    if j < |p.node.kids| {
      FlattenLength(Kid(p, j));
      FlattenKidsLength(p, j + 1);
    }
  }

  /** A node comes right before its first child, and all that is below a child before the next one. */
  lemma KidsInOrder(p: Ref, j: nat)
    requires j < |p.node.kids|
    ensures Kid(p, 0).id == p.id + 1
    ensures j + 1 < |p.node.kids| ==> Kid(p, j + 1).id == Kid(p, j).id + |Flatten(Kid(p, j))|
  {
    FlattenLength(Kid(p, j));
  }

  /** The objects stand in the file in that order, the root first. */
  lemma ObjectsInOrder(t: Node, chain: Chains, i: nat, j: nat)
    requires WellFormed(t) && i < j < |ObjectsOf(t, chain)|
    ensures ObjectsOf(t, chain)[i].id < ObjectsOf(t, chain)[j].id
    ensures ObjectsOf(t, chain)[0].node == t
  {
    ObjectsAreGood(t, chain);
  }
}
