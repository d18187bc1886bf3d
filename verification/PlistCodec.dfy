/**
  plist_to_bin and plist_from_bin as a pair (airplay/libplist/src/bplist.c, lines 641-761 and 1101-1253): every
  well-formed tree survives being written and read.
*/
module PlistCodec {
  import opened Bytes
  import opened Options
  import opened PlistTree
  import opened PlistObjects
  import opened PlistFlat
  import opened PlistBinary
  import opened PlistFile
  import opened PlistRebuild

  // ---------------------------------------------------------------- what is written

  function Datas(objects: seq<Ref>): (datas: seq<Data>)
    ensures |datas| == |objects|
  {
    seq(|objects|, i requires 0 <= i < |objects| => objects[i].node.data)
  }

  /** The table a tree is written as. */
  ghost function TableOf(t: Node, chain: Chains): (flat: seq<Flat>)
    requires WellFormed(t)
    ensures |flat| == |ObjectsOf(t, chain)|
  {
    ObjectsAreGood(t, chain);
    GoodTableKnowsKids(ObjectsOf(t, chain), Flatten(Root(t)), chain);
    FlatTable(ObjectsOf(t, chain), chain)
  }

  /** The file a tree is written as. */
  ghost function Encode(t: Node, chain: Chains): seq<Byte>
    requires WellFormed(t)
  {
    Pack(Pieces(Datas(ObjectsOf(t, chain)), TableOf(t, chain)))
  }

  lemma ArrayFits(refs: seq<nat>, count: nat, w: nat)
    requires count < 0x1_0000_0000 && w == NeededBytes(count) && forall i :: 0 <= i < |refs| ==> refs[i] < count
    requires |WriteObject(Array, Items(refs), w)| < 0x1_0000_0000
    ensures Writable(Array, Items(refs), w)
  {
    RefListFits(refs, count, w);
  }

  lemma DictFits(keys: seq<nat>, values: seq<nat>, count: nat, w: nat)
    requires count < 0x1_0000_0000 && w == NeededBytes(count) && |keys| == |values|
    requires forall i :: 0 <= i < |keys| ==> keys[i] < count
    requires forall i :: 0 <= i < |values| ==> values[i] < count
    requires |WriteObject(Dict, Entries(keys, values), w)| < 0x1_0000_0000
    ensures Writable(Dict, Entries(keys, values), w)
  {
    RefListFits(keys, count, w);
    RefListFits(values, count, w);
  }

  lemma FlatAtFits(objects: seq<Ref>, o: Ref, chain: Chains, w: nat)
    requires KidsKnown(objects, o, chain) && |objects| < 0x1_0000_0000 && WellFormed(o.node) && w == NeededBytes(|objects|)
    requires |WriteObject(o.node.data, FlatOf(objects, o, chain), w)| < 0x1_0000_0000
    ensures Writable(o.node.data, FlatOf(objects, o, chain), w)
  {
    var f := FlatOf(objects, o, chain);
    if f.Items? {
      ArrayFits(f.refs, |objects|, w);
    } else if f.Entries? {
      DictFits(f.keys, f.values, |objects|, w);
    }
  }

  lemma RefListFits(refs: seq<nat>, count: nat, w: nat)
    requires count < 0x1_0000_0000 && w == NeededBytes(count) && |WriteRefs(refs, w)| < 0x1_0000_0000
    requires forall i :: 0 <= i < |refs| ==> refs[i] < count
    ensures RefsFit(refs, w)
  {
    RefsLength(refs, w);
    TableIsLong(|refs|, w);
  }

  lemma TableIsWritable(t: Node, chain: Chains)
    requires WellFormed(t) && |Encode(t, chain)| < 0x1_0000_0000
    ensures AllWritable(Datas(ObjectsOf(t, chain)), TableOf(t, chain))
  {
    var objects, flat := ObjectsOf(t, chain), TableOf(t, chain);
    ObjectsAreGood(t, chain);
    GoodTableKnowsKids(objects, Flatten(Root(t)), chain);
    var pieces := Pieces(Datas(objects), flat);
    PackedFileIsParsed(pieces);
    forall i | 0 <= i < |flat| ensures Writable(Datas(objects)[i], flat[i], NeededBytes(|flat|)) {
      assert objects[i] in Flatten(Root(t));
      PieceInBody(pieces, i);
      assert |pieces[i]| <= |Body(pieces)| < 0x1_0000_0000;
      FlatAtFits(objects, objects[i], chain, NeededBytes(|flat|));
    }
  }

  // ---------------------------------------------------------------- what is read

  /** The tree that comes back: strings as storage leaves them, and a lone key as the string it is written as. */
  function Reread(t: Node): Node {
    if t.data.Key? then Node(Text(Stored(t.data.s)), []) else StoredTree(t)
  }

  /** Parsing what was written gives the table, and the table stands for the tree. */
  lemma TableRoundTrip(t: Node, chain: Chains)
    requires WellFormed(t) && |Encode(t, chain)| < 0x1_0000_0000
    ensures ParseFile(Encode(t, chain)) == Some(Parsed(TableOf(t, chain), 0))
    ensures TreeLike(TableOf(t, chain)) && Forward(TableOf(t, chain))
    ensures Expand(TableOf(t, chain), 0, false) == Reread(t)
  {
    var p, nodes, objects, flat := Root(t), Flatten(Root(t)), ObjectsOf(t, chain), TableOf(t, chain);
    TableIsWritable(t, chain);
    FileRoundTrip(Datas(objects), flat);
    ObjectsAreGood(t, chain);
    GoodTableKnowsKids(objects, nodes, chain);
    EncodedTableIsTreeLike(objects, nodes, chain);
    TreeLikeIsForward(flat);
    RootComesFirst(t, chain);
    ExpandGivesTree(objects, nodes, p, chain);
  }

  lemma RootComesFirst(t: Node, chain: Chains)
    requires WellFormed(t)
    ensures IndexOf(ObjectsOf(t, chain), Root(t), chain) == Some(0)
  {
    var objects := ObjectsOf(t, chain);
    ObjectsAreGood(t, chain);
    assert [Root(t)] + objects[1..] == objects;
    assert [Root(t)][..0] == [];
    assert IndexOf([Root(t)], Root(t), chain) == Some(0);
    IndexOfStays([Root(t)], objects[1..], Root(t), chain);
  }

  /**
    The round trip of the codec: whatever nodes the loops of the decoder have built from a written tree, node 0 is
    that tree again, every child in its place, with its depth and leaf mark right all the way down.
  */
  lemma CodecRoundTrip(t: Node, chain: Chains, nodes: seq<Rec>)
    requires WellFormed(t) && |Encode(t, chain)| < 0x1_0000_0000
    requires Built(nodes, TableOf(t, chain), |TableOf(t, chain)|, 0)
    ensures ParseFile(Encode(t, chain)) == Some(Parsed(TableOf(t, chain), 0))
    ensures IsTree(nodes, 0, Reread(t), 0)
  {
    TableRoundTrip(t, chain);
    BuiltIsTree(nodes, TableOf(t, chain));
  }

  /** It is the same tree exactly if all its text is UTF-8 in shortest form of at most three bytes a character. */
  lemma RereadIsSameIff(t: Node)
    requires WellFormed(t)
    ensures Reread(t) == t <==> AllShortest(t) && !t.data.Key?
  {
    StoredTreeIsSameIff(t);
  }

  // ---------------------------------------------------------------- plist_from_bin

  /** The loop at line 689. */
  method ParseNodes(bin: seq<Byte>, table: nat, offsetSize: nat, refSize: nat, count: nat) returns (nodes: Option<seq<Flat>>)
    requires refSize > 0
    ensures nodes == ParseObjects(bin, table, offsetSize, refSize, count)
  {
    var list: seq<Flat> := [];
    var i := 0;
    while i < count
      invariant 0 <= i <= count
      invariant ParseObjects(bin, table, offsetSize, refSize, i) == Some(list)
    {
      var node := ParseAt(bin, table, offsetSize, refSize, i);
      if node.None? {
        return None;
      }
      list := list + [node.value];
      i := i + 1;
    }
    return Some(list);
  }

  /** Files that are not what an encoder writes (see TreeLike) are left out. */
  method PlistFromBin(bin: seq<Byte>) returns (plist: Option<(Forest, nat)>)
    requires ParseFile(bin).Some? ==> TreeLike(ParseFile(bin).value.flat)
    ensures plist.None? <==> ParseFile(bin).None?
    ensures plist.Some? ==> fresh(plist.value.0) && plist.value.1 == ParseFile(bin).value.root
    ensures plist.Some? ==> Built(plist.value.0.nodes, ParseFile(bin).value.flat, |ParseFile(bin).value.flat|, 0)
  {
    if !(|bin| >= |MAGIC| + |VERSION| + TRAILER_SIZE) || bin[..6] != MAGIC || bin[6..8] != VERSION {
      return None;
    }
    var trailer := bin[|bin| - TRAILER_SIZE..];
    var offsetSize, refSize := trailer[0], trailer[1];
    var numObjects, rootObject := UintToHost(trailer[2..], 8), UintToHost(trailer[10..], 8);
    var offsetTable := UintToHost(trailer[18..], 8);
    if numObjects == 0 || refSize == 0 {
      return None;
    }
    var objects := ParseNodes(bin, offsetTable, offsetSize, refSize, numObjects);
    if objects.None? {
      return None;
    }
    var forest := new Forest(objects.value);
    forest.HangTogether(objects.value);
    return Some((forest, rootObject));
  }
}
