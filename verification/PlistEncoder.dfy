/** plist_to_bin and the write_ functions of airplay/libplist/src/bplist.c (lines 849-1055, 1101-1253), loop by loop. */
module PlistEncoder {
  import opened Bytes
  import opened Options
  import opened Utf
  import opened PlistTree
  import opened PlistObjects
  import opened PlistFlat
  import opened PlistBinary
  import opened PlistFile
  import opened PlistCodec
  import opened PlistRebuild
  import opened PlistWriter

  // ---------------------------------------------------------------- numbers and text

  /** write_int and write_uid. */
  method WriteInt(mark: Byte, val: nat) returns (bytes: seq<Byte>)
    requires mark < 0xF0
    ensures bytes == WriteNumber(mark, val)
  {
    var size := NeededBytes(val);
    if size == 3 {
      size := size + 1;
    }
    var buff := new Byte[1 + size];
    buff[0] := mark + Log2(size);
    PutNumber(buff, 1, val, size);
    assert buff[..1] == [mark + Log2(size)];
    assert buff[..] == buff[..1] + buff[1..1 + size];
    return buff[..];
  }

  /** The marker of write_raw_data, write_array and write_dict. */
  method WriteLength(mark: Byte, size: nat) returns (bytes: seq<Byte>)
    requires mark < 0xF0
    ensures bytes == WriteMarker(mark, size)
  {
    bytes := [if size < 15 then mark + size else mark + 15];
    if size >= 15 {
      var intBuff := WriteInt(MARK_UINT, size);
      bytes := bytes + intBuff;
    }
  }

  method IsAsciiString(s: seq<Byte>) returns (ret: bool)
    ensures ret == IsAscii(s)
  {
    ret := true;
    var i := 0;
    while i < |s|
      invariant 0 <= i <= |s| && ret && IsAscii(s[..i])
    {
      if s[i] >= 0x80 {
        ret := false;
        return;
      }
      i := i + 1;
    }
  }

  lemma {:induction false} WriteUnitsSnoc(units: seq<Unit>, unit: Unit)
    ensures WriteUnits(units + [unit]) == WriteUnits(units) + BigEndian(unit, 2)
  {
    if units == [] {
      assert units + [unit] == [unit];
    } else {
      WriteUnitsSnoc(units[1..], unit);
      assert (units + [unit])[1..] == units[1..] + [unit];
    }
  }

  /** write_unicode, without its marker. */
  method WriteUnicode(units: seq<Unit>) returns (bytes: seq<Byte>)
    ensures bytes == WriteUnits(units)
  {
    var buff := new Byte[2 * |units|];
    var i := 0;
    while i < |units|
      invariant 0 <= i <= |units|
      invariant buff[..2 * i] == WriteUnits(units[..i])
    {
      WriteUnitsSnoc(units[..i], units[i]);
      assert units[..i + 1] == units[..i] + [units[i]];
      PutNumber(buff, 2 * i, units[i], 2);
      assert buff[..2 * i + 2] == buff[..2 * i] + buff[2 * i..2 * i + 2];
      i := i + 1;
    }
    assert units[..i] == units;
    return buff[..];
  }

  /** Lines 1176-1189. */
  method WriteText(s: CString) returns (bytes: seq<Byte>)
    ensures bytes == WriteString(s)
  {
    var ascii := IsAsciiString(s);
    if ascii {
      var marker := WriteLength(MARK_STRING, |s|);
      return marker + s;
    }
    var outbuf, _, itemsWritten := Utf8ToUtf16(s);
    var units := outbuf[..itemsWritten];
    var marker := WriteLength(MARK_UNICODE, itemsWritten);
    var body := WriteUnicode(units);
    return marker + body;
  }

  // ---------------------------------------------------------------- references

  lemma {:induction false} WriteRefsSnoc(refs: seq<nat>, ref: nat, w: nat)
    ensures WriteRefs(refs + [ref], w) == WriteRefs(refs, w) + BigEndian(ref, w)
  {
    if refs == [] {
      assert refs + [ref] == [ref];
    } else {
      WriteRefsSnoc(refs[1..], ref, w);
      assert (refs + [ref])[1..] == refs[1..] + [ref];
    }
  }

  /** Where reference `n` of `w` bytes starts. */
  ghost function Place(n: nat, w: nat): nat {
    if n == 0 then 0 else Place(n - 1, w) + w
  }

  lemma {:induction false} PlaceIsProduct(n: nat, w: nat)
    ensures Place(n, w) == n * w
  {
    if n > 0 {
      PlaceIsProduct(n - 1, w);
      assert n * w == (n - 1) * w + w;
    }
  }

  lemma {:induction false} NextRef(i: nat, n: nat, w: nat)
    requires i < n
    ensures Place(i, w) + w == Place(i + 1, w) <= Place(n, w)
  {
    if i + 1 < n {
      NextRef(i, n - 1, w);
    }
  }

  /** The reference of one child, in its place in a buffer of them. */
  method PutRef(table: HashTable, ghost objects: seq<Ref>, p: Ref, buff: array<Byte>, at: nat, w: nat)
    requires table.Valid() && Stores(table.entries[..], objects, table.chain)
    requires IndexOf(objects, p, table.chain).Some? && at + w <= buff.Length
    modifies buff
    ensures buff[at..at + w] == BigEndian(Index(objects, p, table.chain), w)
    ensures buff[..at] == old(buff[..at]) && buff[at + w..] == old(buff[at + w..])
  {
    var idx := table.Lookup(p);
    LookupIsIndexOf(objects, p, table.chain);
    PutNumber(buff, at, idx.value, w);
  }

  ghost function KidRefs(objects: seq<Ref>, o: Ref, chain: Chains): (refs: seq<nat>)
    requires KidsKnown(objects, o, chain)
    ensures |refs| == |o.node.kids|
  {
    seq(|o.node.kids|, j requires 0 <= j < |o.node.kids| => Index(objects, Kid(o, j), chain))
  }

  /** One more reference behind those written so far. */
  lemma Extended(before: seq<Byte>, after: seq<Byte>, at: nat, w: nat, refs: seq<nat>, i: nat)
    requires i < |refs| && at + w <= |after| == |before| && after[..at] == before[..at] == WriteRefs(refs[..i], w)
    requires after[at..at + w] == BigEndian(refs[i], w)
    ensures after[..at + w] == WriteRefs(refs[..i + 1], w)
  {
    WriteRefsSnoc(refs[..i], refs[i], w);
    assert refs[..i + 1] == refs[..i] + [refs[i]];
    assert after[..at + w] == after[..at] + after[at..at + w];
  }

  lemma ExtendedBehind(before: seq<Byte>, after: seq<Byte>, half: nat, at: nat, w: nat, refs: seq<nat>, i: nat)
    requires i < |refs| && half + at + w <= |after| == |before|
    requires after[half..half + at] == before[half..half + at] == WriteRefs(refs[..i], w)
    requires after[half + at..half + at + w] == BigEndian(refs[i], w)
    ensures after[half..half + at + w] == WriteRefs(refs[..i + 1], w)
  {
    assert before[half..][..at] == before[half..half + at] && after[half..][..at] == after[half..half + at];
    assert after[half..][at..at + w] == after[half + at..half + at + w];
    Extended(before[half..], after[half..], at, w, refs, i);
    assert after[half..][..at + w] == after[half..half + at + w];
  }

  /** write_array, of an array or of a node without children. */
  method WriteArray(o: Ref, table: HashTable, ghost objects: seq<Ref>, w: nat) returns (bytes: seq<Byte>)
    requires table.Valid() && Stores(table.entries[..], objects, table.chain) && KidsKnown(objects, o, table.chain)
    requires w > 0
    ensures bytes == WriteMarker(MARK_ARRAY, |o.node.kids|) + WriteRefs(KidRefs(objects, o, table.chain), w)
  {
    var size := |o.node.kids|;
    ghost var refs := KidRefs(objects, o, table.chain);
    var marker := WriteLength(MARK_ARRAY, size);
    PlaceIsProduct(size, w);
    var buff := new Byte[size * w];
    var i, at := 0, 0;
    while i < size
      invariant 0 <= i <= size && at == Place(i, w)
      invariant at <= buff.Length
      invariant buff[..at] == WriteRefs(refs[..i], w)
      invariant fresh(buff)
    {
      NextRef(i, size, w);
      ghost var before := buff[..];
      PutRef(table, objects, Kid(o, i), buff, at, w);
      Extended(before, buff[..], at, w, refs, i);
      i, at := i + 1, at + w;
    }
    assert refs[..size] == refs && buff[..at] == buff[..];
    return marker + buff[..];
  }

  ghost function KeyRefs(objects: seq<Ref>, o: Ref, chain: Chains): (refs: seq<nat>)
    requires KidsKnown(objects, o, chain) && o.node.data.Dict?
  {
    FlatOf(objects, o, chain).keys
  }

  ghost function ValueRefs(objects: seq<Ref>, o: Ref, chain: Chains): (refs: seq<nat>)
    requires KidsKnown(objects, o, chain) && o.node.data.Dict?
  {
    FlatOf(objects, o, chain).values
  }

  /** The numbers of a dictionary's keys and of its values. */
  ghost predicate EntryRefs(objects: seq<Ref>, o: Ref, chain: Chains, keys: seq<nat>, values: seq<nat>)
    requires KidsKnown(objects, o, chain)
  {
    && |keys| == |values| == |o.node.kids| / 2
    && forall i {:trigger EntryRef(objects, o, chain, keys, values, i)} :: 0 <= i < |keys| ==>
         EntryRef(objects, o, chain, keys, values, i)
  }

  ghost predicate EntryRef(objects: seq<Ref>, o: Ref, chain: Chains, keys: seq<nat>, values: seq<nat>, i: nat)
    requires KidsKnown(objects, o, chain) && i < |keys| == |values| == |o.node.kids| / 2
  {
    keys[i] == Index(objects, Kid(o, 2 * i), chain) && values[i] == Index(objects, Kid(o, 2 * i + 1), chain)
  }

  /** Two references put `half` bytes apart leave the rest of each half as it was. */
  lemma TwoPuts(start: seq<Byte>, between: seq<Byte>, end: seq<Byte>, at: nat, half: nat, w: nat)
    requires |start| == |between| == |end| == 2 * half && at + w <= half
    requires between[..at] == start[..at] && between[at + w..] == start[at + w..]
    requires end[..half + at] == between[..half + at]
    ensures end[..at + w] == between[..at + w]
    ensures end[half..half + at] == start[half..half + at]
  {
    SlicesOfTake(end, half + at, at + w, half);
    SlicesOfTake(between, half + at, at + w, half);
    SliceOfDrop(start, at + w, half - at - w, half - w);
    SliceOfDrop(between, at + w, half - at - w, half - w);
  }

  lemma SlicesOfTake(s: seq<Byte>, n: nat, m: nat, k: nat)
    requires n <= |s| && m <= n && k <= n
    ensures s[..n][..m] == s[..m] && s[..n][k..] == s[k..n]
  {
  }

  lemma SliceOfDrop(s: seq<Byte>, n: nat, from: nat, to: nat)
    requires from <= to && n + to <= |s|
    ensures s[n..][from..to] == s[n + from..n + to]
  {
  }

  /** The first `i` keys and values are in their places, `at` bytes into each half. */
  ghost predicate HalvesHold(buff: seq<Byte>, half: nat, at: nat, w: nat, keys: seq<nat>, values: seq<nat>, i: nat) {
    && |buff| == 2 * half && at <= half && i <= |keys| == |values|
    && buff[..at] == WriteRefs(keys[..i], w) && buff[half..half + at] == WriteRefs(values[..i], w)
  }

  lemma EmptyHalves(buff: seq<Byte>, half: nat, w: nat, keys: seq<nat>, values: seq<nat>)
    requires |buff| == 2 * half && |keys| == |values|
    ensures HalvesHold(buff, half, 0, w, keys, values, 0)
  {
  }

  lemma FullHalves(buff: seq<Byte>, half: nat, w: nat, keys: seq<nat>, values: seq<nat>)
    requires HalvesHold(buff, half, half, w, keys, values, |keys|)
    ensures buff == WriteRefs(keys, w) + WriteRefs(values, w)
  {
    assert keys[..|keys|] == keys && values[..|keys|] == values;
    assert buff == buff[..half] + buff[half..half + half];
  }

  /** write_dict: keys fill the first half of the buffer, values the second. */
  method WriteDict(o: Ref, table: HashTable, ghost objects: seq<Ref>, w: nat) returns (bytes: seq<Byte>)
    requires table.Valid() && Stores(table.entries[..], objects, table.chain) && KidsKnown(objects, o, table.chain)
    requires w > 0 && o.node.data.Dict?
    ensures bytes == WriteMarker(MARK_DICT, |o.node.kids| / 2)
                   + WriteRefs(KeyRefs(objects, o, table.chain), w) + WriteRefs(ValueRefs(objects, o, table.chain), w)
  {
    ghost var keys, values := KeyRefs(objects, o, table.chain), ValueRefs(objects, o, table.chain);
    var marker := WriteLength(MARK_DICT, |o.node.kids| / 2);
    var size := |o.node.kids| / 2;
    PlaceIsProduct(size, w);
    var buff := WriteEntries(o, table, objects, size, size * w, w, keys, values);
    bytes := marker + buff;
    Associate(marker, WriteRefs(keys, w), WriteRefs(values, w));
  }

  method WriteEntries(o: Ref, table: HashTable, ghost objects: seq<Ref>, size: nat, half: nat, w: nat,
                      ghost keys: seq<nat>, ghost values: seq<nat>)
    returns (bytes: seq<Byte>)
    requires table.Valid() && Stores(table.entries[..], objects, table.chain) && KidsKnown(objects, o, table.chain)
    requires size == |o.node.kids| / 2 && half == Place(size, w) && EntryRefs(objects, o, table.chain, keys, values)
    ensures bytes == WriteRefs(keys, w) + WriteRefs(values, w)
  {
    var buff := new Byte[2 * half];
    var i, at := 0, 0;
    EmptyHalves(buff[..], half, w, keys, values);
    while i < size
      invariant 0 <= i <= size && at == Place(i, w)
      invariant HalvesHold(buff[..], half, at, w, keys, values, i)
      invariant fresh(buff)
    {
      NextRef(i, size, w);
      PutEntry(o, table, objects, buff, i, at, half, w, keys, values);
      i, at := i + 1, at + w;
    }
    FullHalves(buff[..], half, w, keys, values);
    return buff[..];
  }

  /** One turn of that loop. */
  method PutEntry(o: Ref, table: HashTable, ghost objects: seq<Ref>, buff: array<Byte>, i: nat, at: nat, half: nat, w: nat,
                  ghost keys: seq<nat>, ghost values: seq<nat>)
    requires table.Valid() && Stores(table.entries[..], objects, table.chain) && KidsKnown(objects, o, table.chain)
    requires i < |keys| && at + w <= half
    requires EntryRefs(objects, o, table.chain, keys, values)
    requires HalvesHold(buff[..], half, at, w, keys, values, i)
    modifies buff
    ensures HalvesHold(buff[..], half, at + w, w, keys, values, i + 1)
  {
    assert EntryRef(objects, o, table.chain, keys, values, i);
    ghost var start := buff[..];
    PutRef(table, objects, Kid(o, 2 * i), buff, at, w);
    ghost var between := buff[..];
    PutRef(table, objects, Kid(o, 2 * i + 1), buff, half + at, w);
    EntryIsPut(start, between, buff[..], at, half, w, keys, values, i);
  }

  lemma EntryIsPut(start: seq<Byte>, between: seq<Byte>, end: seq<Byte>, at: nat, half: nat, w: nat,
                   keys: seq<nat>, values: seq<nat>, i: nat)
    requires HalvesHold(start, half, at, w, keys, values, i) && i < |keys| && at + w <= half
    requires |between| == |end| == 2 * half
    requires between[..at] == start[..at] && between[at + w..] == start[at + w..]
    requires between[at..at + w] == BigEndian(keys[i], w)
    requires end[..half + at] == between[..half + at] && end[half + at..half + at + w] == BigEndian(values[i], w)
    ensures HalvesHold(end, half, at + w, w, keys, values, i + 1)
  {
    TwoPuts(start, between, end, at, half, w);
    Extended(start, between, at, w, keys, i);
    ExtendedBehind(start, end, half, at, w, values, i);
  }

  // ---------------------------------------------------------------- plist_to_bin

  /** The switch at line 1159. */
  method WriteNode(o: Ref, table: HashTable, ghost objects: seq<Ref>, w: nat) returns (bytes: seq<Byte>)
    requires table.Valid() && Stores(table.entries[..], objects, table.chain) && KidsKnown(objects, o, table.chain)
    requires w > 0 && WellFormed(o.node)
    ensures bytes == WriteObject(o.node.data, FlatOf(objects, o, table.chain), w)
  {
    match o.node.data {
      case Boolean(b) =>
        bytes := [if b then MARK_TRUE else MARK_FALSE];
      case UInt(n) =>
        bytes := WriteInt(MARK_UINT, n);
      case Uid(n) =>
        bytes := WriteInt(MARK_UID, n);
      case Text(s) =>
        bytes := WriteText(s);
      case Key(s) =>
        bytes := WriteText(s);
      case Blob(content) =>
        var marker := WriteLength(MARK_DATA, |content|);
        var stray := WriteArray(o, table, objects, w);
        bytes := marker + content + stray;
      case Array =>
        bytes := WriteArray(o, table, objects, w);
        assert FlatOf(objects, o, table.chain).refs == KidRefs(objects, o, table.chain);
      case Dict =>
        bytes := WriteDict(o, table, objects, w);
    }
  }

  lemma BodyGrows(pieces: seq<seq<Byte>>, i: nat)
    requires i < |pieces|
    ensures Body(pieces[..i + 1]) == Body(pieces[..i]) + pieces[i]
    ensures Offsets(pieces)[..i + 1] == Offsets(pieces)[..i] + [|Body(pieces[..i])|]
  {
    assert pieces[..i + 1][..i] == pieces[..i];
  }

  /** The loop at line 1153. */
  method WriteObjects(objects: seq<Ref>, table: HashTable, w: nat) returns (buff: seq<Byte>, offsets: seq<nat>)
    requires table.Valid() && Stores(table.entries[..], objects, table.chain) && AllKidsKnown(objects, table.chain)
    requires w == NeededBytes(|objects|) && forall i :: 0 <= i < |objects| ==> WellFormed(objects[i].node)
    ensures var pieces := Pieces(Datas(objects), FlatTable(objects, table.chain));
      buff == Body(pieces) && offsets == Offsets(pieces)
  {
    ghost var pieces := Pieces(Datas(objects), FlatTable(objects, table.chain));
    buff, offsets := MAGIC + VERSION, [];
    var i := 0;
    while i < |objects|
      invariant 0 <= i <= |objects|
      invariant buff == Body(pieces[..i]) && offsets == Offsets(pieces)[..i]
    {
      offsets := offsets + [|buff|];
      var bytes := WriteNode(objects[i], table, objects, w);
      BodyGrows(pieces, i);
      buff := buff + bytes;
      i := i + 1;
    }
    assert pieces[..i] == pieces && Offsets(pieces)[..i] == Offsets(pieces);
  }

  /** The loop at line 1216. */
  method WriteOffsets(offsets: seq<nat>, offsetSize: nat) returns (bytes: seq<Byte>)
    ensures bytes == WriteRefs(offsets, offsetSize)
  {
    bytes := [];
    var i := 0;
    while i < |offsets|
      invariant 0 <= i <= |offsets| && bytes == WriteRefs(offsets[..i], offsetSize)
    {
      var offsetBuff := new Byte[offsetSize];
      PutNumber(offsetBuff, 0, offsets[i], offsetSize);
      WriteRefsSnoc(offsets[..i], offsets[i], offsetSize);
      assert offsets[..i + 1] == offsets[..i] + [offsets[i]];
      assert offsetBuff[..] == offsetBuff[0..offsetSize];
      bytes := bytes + offsetBuff[..];
      i := i + 1;
    }
    assert offsets[..i] == offsets;
  }

  /** What is written is exactly Encode, whose round trip is CodecRoundTrip. */
  method PlistToBin(plist: Node, chain: Chains) returns (bin: seq<Byte>)
    requires WellFormed(plist) && forall p :: chain(p) < CHAINS
    ensures bin == Encode(plist, chain)
  {
    ObjectsAreGood(plist, chain);
    GoodTableKnowsKids(ObjectsOf(plist, chain), Flatten(Root(plist)), chain);
    var serializer := new Serializer(chain);
    serializer.Serialize(Root(plist));
    var objects := serializer.objects;
    assert objects == ObjectsOf(plist, chain);
    var refSize := NeededBytes(|objects|);
    forall i | 0 <= i < |objects| ensures WellFormed(objects[i].node) {
      assert objects[i] in Flatten(Root(plist));
    }
    var buff, offsets := WriteObjects(objects, serializer.table, refSize);
    var offsetSize, offsetTable := NeededBytes(|buff|), |buff|;
    var table := WriteOffsets(offsets, offsetSize);
    return buff + (table + PAD) + Trailer(offsetSize, refSize, |objects|, offsetTable);
  }

  /**
    What a caller gets who reads back what it has written (Structure::ToBin and FromBin): node 0 is the root of the tree
    that was written, with its strings as storage leaves them.
  */
  method WriteAndRead(plist: Node, chain: Chains) returns (root: Option<(Forest, nat)>)
    requires WellFormed(plist) && (forall p :: chain(p) < CHAINS) && |Encode(plist, chain)| < 0x1_0000_0000
    ensures root.Some? && root.value.1 == 0 && fresh(root.value.0)
    ensures |root.value.0.nodes| > 0 && root.value.0.nodes[0].isRoot
    ensures IsTree(root.value.0.nodes, 0, Reread(plist), 0)
  {
    var bin := PlistToBin(plist, chain);
    TableRoundTrip(plist, chain);
    root := PlistFromBin(bin);
    BuiltIsTree(root.value.0.nodes, TableOf(plist, chain));
  }
}
