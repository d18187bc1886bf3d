/**
  The flat form of a property list: what parsing the objects of a binary file gives before plist_from_bin
  (airplay/libplist/src/bplist.c, lines 698-757) hangs them together, and the tree such a table stands for.
*/
module PlistFlat {
  import opened PlistTree
  import opened PlistObjects

  /** A parsed object: a scalar, or a container with the object numbers of its children. */
  datatype Flat = Leaf(data: Data) | Items(refs: seq<nat>) | Entries(keys: seq<nat>, values: seq<nat>)

  /** One child to attach: which object, and whether it is attached as a dictionary key. */
  datatype Slot = Slot(ref: nat, asKey: bool)

  /** The children of an object in the order plist_from_bin attaches them: a key, its value, the next key, ... */
  function Slots(f: Flat): (slots: seq<Slot>)
  {
    match f
    case Leaf(_) => []
    case Items(refs) => seq(|refs|, s requires 0 <= s < |refs| => Slot(refs[s], false))
    case Entries(keys, values) =>
      var n := if |keys| <= |values| then |keys| else |values|;
      seq(2 * n, s requires 0 <= s < 2 * n => if s % 2 == 0 then Slot(keys[s / 2], true) else Slot(values[s / 2], false))
  }

  /** References are in range, and a container refers to later containers only. */
  ghost predicate Forward(flat: seq<Flat>) {
    forall i, s :: 0 <= i < |flat| && 0 <= s < |Slots(flat[i])| ==>
      var r := Slots(flat[i])[s].ref;
      r < |flat| && (flat[r].Leaf? || i < r)
  }

  /** The type a scalar has where it hangs: a string used as a key is one. */
  function Retag(d: Data, asKey: bool): Data {
    if asKey && d.Text? then Key(d.s) else d
  }

  /** The tree that object `i` stands for. */
  ghost function Expand(flat: seq<Flat>, i: nat, asKey: bool): Node
    requires Forward(flat) && i < |flat|
    decreases if flat[i].Leaf? then 0 else |flat| - i
  {
    match flat[i]
    case Leaf(d) => Node(Retag(d, asKey), [])
    case _ =>
      var slots := Slots(flat[i]);
      Node(if flat[i].Items? then Array else Dict,
           seq(|slots|, s requires 0 <= s < |slots| => Expand(flat, slots[s].ref, slots[s].asKey)))
  }

  // ---------------------------------------------------------------- what the encoder's table is, flat

  /** The number under which the table finds a node. */
  ghost function Index(objects: seq<Ref>, q: Ref, chain: Chains): (i: nat)
    requires IndexOf(objects, q, chain).Some?
    ensures i < |objects| && Same(objects[i], q, chain)
  {
    IndexOf(objects, q, chain).value
  }

  /** A scalar in the file: keys are not told apart from strings there. */
  function InFile(d: Data): Data {
    match d
    case Text(s) => Text(Stored(s))
    case Key(s) => Text(Stored(s))
    case _ => d
  }

  ghost predicate KidsKnown(objects: seq<Ref>, o: Ref, chain: Chains) {
    forall j :: 0 <= j < |o.node.kids| ==> IndexOf(objects, Kid(o, j), chain).Some?
  }

  ghost function FlatOf(objects: seq<Ref>, o: Ref, chain: Chains): Flat
    requires KidsKnown(objects, o, chain)
  {
    var n := |o.node.kids|;
    match o.node.data
    case Array => Items(seq(n, j requires 0 <= j < n => Index(objects, Kid(o, j), chain)))
    case Dict =>
      Entries(seq(n / 2, j requires 0 <= j < n / 2 => Index(objects, Kid(o, 2 * j), chain)),
              seq(n / 2, j requires 0 <= j < n / 2 => Index(objects, Kid(o, 2 * j + 1), chain)))
    case d => Leaf(InFile(d))
  }

  ghost predicate AllKidsKnown(objects: seq<Ref>, chain: Chains) {
    forall i :: 0 <= i < |objects| ==> KidsKnown(objects, objects[i], chain)
  }

  ghost function FlatTable(objects: seq<Ref>, chain: Chains): (flat: seq<Flat>)
    requires AllKidsKnown(objects, chain)
    ensures |flat| == |objects|
  {
    seq(|objects|, i requires 0 <= i < |objects| => FlatOf(objects, objects[i], chain))
  }

  lemma GoodTableKnowsKids(objects: seq<Ref>, nodes: seq<Ref>, chain: Chains)
    requires GoodTable(objects, nodes, chain)
    ensures AllKidsKnown(objects, chain)
  {
    forall i, j | 0 <= i < |objects| && 0 <= j < |objects[i].node.kids|
      ensures IndexOf(objects, Kid(objects[i], j), chain).Some?
    {
      assert objects[i] in nodes && Found(objects, Kid(objects[i], j), chain);
    }
  }

  lemma EntriesSlot(keys: seq<nat>, values: seq<nat>, s: nat)
    requires |keys| == |values|
    ensures |Slots(Entries(keys, values))| == 2 * |keys|
    ensures s < 2 * |keys| ==> s / 2 < |keys|
    ensures s < 2 * |keys| ==>
      Slots(Entries(keys, values))[s] == if s % 2 == 0 then Slot(keys[s / 2], true) else Slot(values[s / 2], false)
  {
  }

  /** Child `s` of a container is attached in slot `s`, as a key exactly if it is one. */
  lemma SlotsOfObject(objects: seq<Ref>, o: Ref, s: nat, chain: Chains)
    requires KidsKnown(objects, o, chain) && WellFormed(o.node)
    ensures |Slots(FlatOf(objects, o, chain))| == |o.node.kids|
    ensures s < |o.node.kids| ==>
      Slots(FlatOf(objects, o, chain))[s] == Slot(Index(objects, Kid(o, s), chain), o.node.kids[s].data.Key?)
  {
    if o.node.data.Dict? {
      SlotsOfDict(objects, o, chain);
      if s < |o.node.kids| {
        KeysAreEven(o.node, s);
        SlotOfDict(objects, o, s / 2, s, chain);
      }
    }
  }

  lemma SlotsOfDict(objects: seq<Ref>, o: Ref, chain: Chains)
    requires KidsKnown(objects, o, chain) && o.node.data.Dict? && |o.node.kids| % 2 == 0
    ensures |Slots(FlatOf(objects, o, chain))| == |o.node.kids|
  {
    var f := FlatOf(objects, o, chain);
    EntriesSlot(f.keys, f.values, 0);
  }

  /** The references of entry `i` of a dictionary. */
  lemma EntryOfDict(objects: seq<Ref>, o: Ref, i: nat, chain: Chains)
    requires KidsKnown(objects, o, chain) && o.node.data.Dict? && i < |o.node.kids| / 2
    ensures var f := FlatOf(objects, o, chain);
      && |f.keys| == |f.values| == |o.node.kids| / 2
      && f.keys[i] == Index(objects, Kid(o, 2 * i), chain) && f.values[i] == Index(objects, Kid(o, 2 * i + 1), chain)
  {
  }

  lemma KeysAreEven(node: Node, s: nat)
    requires WellFormed(node) && node.data.Dict? && s < |node.kids|
    ensures node.kids[s].data.Key? <==> s % 2 == 0
  {
  }

  lemma SlotOfDict(objects: seq<Ref>, o: Ref, i: nat, s: nat, chain: Chains)
    requires KidsKnown(objects, o, chain) && o.node.data.Dict? && i < |o.node.kids| / 2
    requires (s == 2 * i && o.node.kids[s].data.Key?) || (s == 2 * i + 1 && !o.node.kids[s].data.Key?)
    ensures s < |Slots(FlatOf(objects, o, chain))|
    ensures Slots(FlatOf(objects, o, chain))[s] == Slot(Index(objects, Kid(o, s), chain), o.node.kids[s].data.Key?)
  {
    EntryOfDict(objects, o, i, chain);
    var f := FlatOf(objects, o, chain);
    EntriesSlot(f.keys, f.values, s);
    assert s / 2 == i;
  }

  lemma FlatTableIsForward(objects: seq<Ref>, nodes: seq<Ref>, chain: Chains)
    requires GoodTable(objects, nodes, chain) && AllKidsKnown(objects, chain)
    ensures Forward(FlatTable(objects, chain))
  {
    var flat := FlatTable(objects, chain);
    forall i, s | 0 <= i < |flat| && 0 <= s < |Slots(flat[i])|
      ensures var r := Slots(flat[i])[s].ref; r < |flat| && (flat[r].Leaf? || i < r)
    {
      var o := objects[i];
      assert o in nodes;
      SlotsOfObject(objects, o, s, chain);
      ContainerKidComesLater(objects, nodes, i, s, chain);
    }
  }

  lemma ContainerKidComesLater(objects: seq<Ref>, nodes: seq<Ref>, i: nat, s: nat, chain: Chains)
    requires GoodTable(objects, nodes, chain) && i < |objects| && s < |objects[i].node.kids|
    requires KidsKnown(objects, objects[i], chain)
    ensures var r := Index(objects, Kid(objects[i], s), chain);
      objects[r].node.data.IsContainer() ==> objects[r] == Kid(objects[i], s) && i < r
  {
    var kid := Kid(objects[i], s);
    assert objects[i] in nodes && kid in nodes && Found(objects, kid, chain);
    var r := Index(objects, kid, chain);
    assert objects[i].id < kid.id;
  }

  /** The flat table stands for the tree it was made from, but for what storage does to strings. */
  lemma {:induction false} ExpandGivesTree(objects: seq<Ref>, nodes: seq<Ref>, q: Ref, chain: Chains)
    requires GoodTable(objects, nodes, chain) && q in nodes
    requires AllKidsKnown(objects, chain) && Forward(FlatTable(objects, chain))
    ensures IndexOf(objects, q, chain).Some?
    ensures Expand(FlatTable(objects, chain), Index(objects, q, chain), q.node.data.Key?) == StoredTree(q.node)
    decreases q.node
  {
    assert Found(objects, q, chain);
    var flat, i := FlatTable(objects, chain), Index(objects, q, chain);
    var o := objects[i];
    assert WellFormed(q.node) && o in nodes;
    if q.node.data.IsContainer() {
      SlotsOfObject(objects, o, 0, chain);
      var slots, tree, stored := Slots(flat[i]), Expand(flat, i, q.node.data.Key?), StoredTree(q.node);
      forall s | 0 <= s < |q.node.kids| ensures tree.kids[s] == stored.kids[s] {
        SlotsOfObject(objects, o, s, chain);
        ExpandGivesTree(objects, nodes, Kid(q, s), chain);
      }
    } else {
      assert q.node.kids == [];
    }
  }

  // ---------------------------------------------------------------- why moving nodes into place is enough

  ghost predicate InSlot(flat: seq<Flat>, i: nat, s: nat) {
    i < |flat| && s < |Slots(flat[i])|
  }

  ghost function SlotAt(flat: seq<Flat>, i: nat, s: nat): Slot
    requires InSlot(flat, i, s)
  {
    Slots(flat[i])[s]
  }

  /** The root is never attached, and a key is attached as a key only where it is a string. */
  ghost predicate SlotOk(flat: seq<Flat>, i: nat, s: nat)
    requires InSlot(flat, i, s)
  {
    var slot := SlotAt(flat, i, s);
    && 0 < slot.ref < |flat|
    && (flat[slot.ref].Leaf? || i < slot.ref)
    && (slot.asKey ==> flat[slot.ref].Leaf? && flat[slot.ref].data.Text?)
  }

  /** No container is attached twice, and no object is a key in one place and something else in another. */
  ghost predicate SlotsAgree(flat: seq<Flat>, i: nat, s: nat, j: nat, u: nat)
    requires InSlot(flat, i, s) && InSlot(flat, j, u)
  {
    SlotAt(flat, i, s).ref == SlotAt(flat, j, u).ref < |flat| ==>
      && SlotAt(flat, i, s).asKey == SlotAt(flat, j, u).asKey
      && (flat[SlotAt(flat, i, s).ref].Leaf? || (i == j && s == u))
  }

  ghost predicate TreeLike(flat: seq<Flat>) {
    && flat != []
    && (forall i: nat, s: nat :: InSlot(flat, i, s) ==> SlotOk(flat, i, s))
    && (forall i: nat, s: nat, j: nat, u: nat :: InSlot(flat, i, s) && InSlot(flat, j, u) ==> SlotsAgree(flat, i, s, j, u))
  }

  lemma TreeLikeIsForward(flat: seq<Flat>)
    requires TreeLike(flat)
    ensures Forward(flat)
  {
    forall i, s | 0 <= i < |flat| && 0 <= s < |Slots(flat[i])|
      ensures var r := Slots(flat[i])[s].ref; r < |flat| && (flat[r].Leaf? || i < r)
    {
      assert InSlot(flat, i, s) && SlotOk(flat, i, s);
    }
  }

  /** Nothing in the table answers for a child with the root. */
  lemma RootIsNoKid(objects: seq<Ref>, nodes: seq<Ref>, o: Ref, s: nat, chain: Chains)
    requires GoodTable(objects, nodes, chain) && o in objects && s < |o.node.kids|
    requires Found(objects, Kid(o, s), chain)
    ensures Index(objects, Kid(o, s), chain) != 0
  {
    assert o in nodes && WellFormed(o.node) && objects[0] in nodes && WellFormed(objects[0].node);
    assert |nodes| == 1 ==> o == objects[0];
  }

  /** The slot of child `s` of object `i`, and what the decoder may rely on in it. */
  lemma EncodedSlot(objects: seq<Ref>, nodes: seq<Ref>, i: nat, s: nat, chain: Chains)
    requires GoodTable(objects, nodes, chain) && AllKidsKnown(objects, chain)
    requires InSlot(FlatTable(objects, chain), i, s)
    ensures s < |objects[i].node.kids| && Found(objects, Kid(objects[i], s), chain)
    ensures SlotAt(FlatTable(objects, chain), i, s)
         == Slot(Index(objects, Kid(objects[i], s), chain), objects[i].node.kids[s].data.Key?)
    ensures SlotAt(FlatTable(objects, chain), i, s).ref != 0
  {
    var o := objects[i];
    assert o in nodes;
    SlotsOfObject(objects, o, s, chain);
    assert Kid(o, s) in nodes && Found(objects, Kid(o, s), chain);
    RootIsNoKid(objects, nodes, o, s, chain);
  }

  lemma EncodedSlotIsOk(objects: seq<Ref>, nodes: seq<Ref>, i: nat, s: nat, chain: Chains)
    requires GoodTable(objects, nodes, chain) && AllKidsKnown(objects, chain)
    requires InSlot(FlatTable(objects, chain), i, s)
    ensures SlotOk(FlatTable(objects, chain), i, s)
  {
    EncodedSlot(objects, nodes, i, s, chain);
    ContainerKidComesLater(objects, nodes, i, s, chain);
    var r := Index(objects, Kid(objects[i], s), chain);
    assert FlatTable(objects, chain)[r] == FlatOf(objects, objects[r], chain);
  }

  lemma EncodedSlotsAgree(objects: seq<Ref>, nodes: seq<Ref>, i: nat, s: nat, j: nat, u: nat, chain: Chains)
    requires GoodTable(objects, nodes, chain) && AllKidsKnown(objects, chain)
    requires InSlot(FlatTable(objects, chain), i, s) && InSlot(FlatTable(objects, chain), j, u)
    ensures SlotsAgree(FlatTable(objects, chain), i, s, j, u)
  {
    EncodedSlot(objects, nodes, i, s, chain);
    EncodedSlot(objects, nodes, j, u, chain);
    var r := Index(objects, Kid(objects[i], s), chain);
    if r == Index(objects, Kid(objects[j], u), chain) && objects[r].node.data.IsContainer() {
      assert Kid(objects[i], s) == objects[r] == Kid(objects[j], u);
      assert objects[i].id == objects[j].id && s == u;
      assert i == j;
    }
  }

  /** The table the encoder writes can be rebuilt by moving each object to its first place and copying scalars to the rest. */
  lemma EncodedTableIsTreeLike(objects: seq<Ref>, nodes: seq<Ref>, chain: Chains)
    requires GoodTable(objects, nodes, chain) && AllKidsKnown(objects, chain)
    ensures TreeLike(FlatTable(objects, chain))
  {
    var flat := FlatTable(objects, chain);
    forall i: nat, s: nat | InSlot(flat, i, s) ensures SlotOk(flat, i, s) {
      EncodedSlotIsOk(objects, nodes, i, s, chain);
    }
    forall i: nat, s: nat, j: nat, u: nat | InSlot(flat, i, s) && InSlot(flat, j, u) ensures SlotsAgree(flat, i, s, j, u) {
      EncodedSlotsAgree(objects, nodes, i, s, j, u, chain);
    }
  }
}
