/**
  A whole binary property list: header, objects, offset table and trailer as plist_to_bin lays them out
  (airplay/libplist/src/bplist.c, lines 1145-1252), and how plist_from_bin finds the objects again (lines 659-696).
*/
module PlistFile {
  import opened Bytes
  import opened Options
  import opened PlistTree
  import opened PlistFlat
  import opened PlistBinary

  /** "bplist" and the version "00" */
  const MAGIC: seq<Byte> := [0x62, 0x70, 0x6C, 0x69, 0x73, 0x74]
  const VERSION: seq<Byte> := [0x30, 0x30]
  const PAD: seq<Byte> := [0, 0, 0, 0, 0, 0]
  const TRAILER_SIZE := 26

  function Concat(pieces: seq<seq<Byte>>): seq<Byte> {
    if pieces == [] then [] else Concat(pieces[..|pieces| - 1]) + pieces[|pieces| - 1]
  }

  /** Header and objects. */
  function Body(pieces: seq<seq<Byte>>): (bytes: seq<Byte>)
    ensures |bytes| == 8 + |Concat(pieces)|
  {
    MAGIC + VERSION + Concat(pieces)
  }

  /** The length of the file when each object's turn came. */
  function Offsets(pieces: seq<seq<Byte>>): (offsets: seq<nat>)
    ensures |offsets| == |pieces|
  {
    seq(|pieces|, i requires 0 <= i < |pieces| => |Body(pieces[..i])|)
  }

  function Trailer(offsetSize: Byte, refSize: Byte, count: nat, table: nat): (bytes: seq<Byte>)
    ensures |bytes| == TRAILER_SIZE
  {
    [offsetSize, refSize] + BigEndian(count, 8) + BigEndian(0, 8) + BigEndian(table, 8)
  }

  /** The file with these objects, already written with references of NeededBytes(|pieces|) bytes. */
  function Pack(pieces: seq<seq<Byte>>): seq<Byte> {
    var body := Body(pieces);
    var offsetSize := NeededBytes(|body|);
    body + (WriteRefs(Offsets(pieces), offsetSize) + PAD) + Trailer(offsetSize, NeededBytes(|pieces|), |pieces|, |body|)
  }

  // ---------------------------------------------------------------- finding the objects again

  datatype Parsed = Parsed(flat: seq<Flat>, root: nat)

  /** The object whose offset is found at `at`; None where the original reads outside the file or gets no node. */
  function ParseEntry(bin: seq<Byte>, at: nat, offsetSize: nat, refSize: nat): Option<Flat>
    requires refSize > 0
  {
    if at + 1 > |bin| || at + offsetSize > |bin| then None
    else
      var offset := UintToHost(bin[at..], offsetSize);
      if offset > |bin| then None else ParseObject(bin[offset..], refSize)
  }

  function ParseAt(bin: seq<Byte>, table: nat, offsetSize: nat, refSize: nat, i: nat): Option<Flat>
    requires refSize > 0
  {
    ParseEntry(bin, table + i * offsetSize, offsetSize, refSize)
  }

  function ParseObjects(bin: seq<Byte>, table: nat, offsetSize: nat, refSize: nat, count: nat): (r: Option<seq<Flat>>)
    requires refSize > 0
    ensures r.Some? ==> |r.value| == count
    ensures r.Some? <==> forall i :: 0 <= i < count ==> ParseAt(bin, table, offsetSize, refSize, i).Some?
    ensures r.Some? ==> forall i :: 0 <= i < count ==> ParseAt(bin, table, offsetSize, refSize, i) == Some(r.value[i])
  {
    if count == 0 then Some([])
    else
      var earlier := ParseObjects(bin, table, offsetSize, refSize, count - 1);
      var last := ParseAt(bin, table, offsetSize, refSize, count - 1);
      if earlier.None? || last.None? then None else Some(earlier.value + [last.value])
  }

  /** plist_from_bin up to line 696; None where it gives up or leaves the file. */
  function ParseFile(bin: seq<Byte>): Option<Parsed> {
    if |bin| < |MAGIC| + |VERSION| + TRAILER_SIZE || bin[..6] != MAGIC || bin[6..8] != VERSION then None
    else
      var trailer := bin[|bin| - TRAILER_SIZE..];
      var count := UintToHost(trailer[2..], 8);
      if count == 0 || trailer[1] == 0 then None
      else
        var objects := ParseObjects(bin, UintToHost(trailer[18..], 8), trailer[0], trailer[1], count);
        if objects.None? then None else Some(Parsed(objects.value, UintToHost(trailer[10..], 8)))
  }

  // ---------------------------------------------------------------- the offset table leads to every object

  lemma {:induction false} ConcatSplit(pieces: seq<seq<Byte>>, i: nat)
    requires i < |pieces|
    ensures |Concat(pieces[..i])| + |pieces[i]| <= |Concat(pieces)|
    ensures pieces[i] <= Concat(pieces)[|Concat(pieces[..i])|..]
    decreases |pieces|
  {
    var n := |pieces| - 1;
    if i < n {
      ConcatSplit(pieces[..n], i);
      assert pieces[..n][..i] == pieces[..i];
    }
  }

  lemma PieceInBody(pieces: seq<seq<Byte>>, i: nat)
    requires i < |pieces|
    ensures |Body(pieces[..i])| + |pieces[i]| <= |Body(pieces)|
    ensures pieces[i] <= Body(pieces)[|Body(pieces[..i])|..]
  {
    ConcatSplit(pieces, i);
    assert Body(pieces)[|Body(pieces[..i])|..] == Concat(pieces)[|Concat(pieces[..i])|..];
  }

  lemma {:induction false} RefInTable(refs: seq<nat>, w: nat, i: nat)
    requires i < |refs|
    ensures i * w + w <= |WriteRefs(refs, w)|
    ensures BigEndian(refs[i], w) <= WriteRefs(refs, w)[i * w..]
  {
    if i == 0 {
    } else {
      RefInTable(refs[1..], w, i - 1);
      DropOne(i, w);
      assert WriteRefs(refs, w)[i * w..] == WriteRefs(refs[1..], w)[(i - 1) * w..];
    }
  }

  lemma DropOne(i: nat, w: nat)
    requires i > 0
    ensures i * w == w + (i - 1) * w
  {
  }

  /** A part of the file starting at `at`, of which `piece` is a prefix, goes on with something. */
  lemma PrefixOfDrop(a: seq<Byte>, b: seq<Byte>, at: nat, piece: seq<Byte>)
    requires at <= |a| && piece <= a[at..]
    ensures piece <= (a + b)[at..]
  {
    assert (a + b)[at..] == a[at..] + b;
  }

  lemma PrefixSplits(piece: seq<Byte>, s: seq<Byte>)
    requires piece <= s
    ensures s == piece + s[|piece|..]
  {
  }

  lemma TrailerFields(offsetSize: Byte, refSize: Byte, count: Word64, table: Word64)
    ensures var t := Trailer(offsetSize, refSize, count, table);
      && t[0] == offsetSize && t[1] == refSize
      && UintToHost(t[2..], 8) == count && UintToHost(t[10..], 8) == 0 && UintToHost(t[18..], 8) == table
  {
    var t := Trailer(offsetSize, refSize, count, table);
    WordWidths();
    UintToHostReads(count, 8, BigEndian(0, 8) + BigEndian(table, 8));
    UintToHostReads(0, 8, BigEndian(table, 8));
    UintToHostReads(table, 8, []);
    assert t[2..] == BigEndian(count, 8) + (BigEndian(0, 8) + BigEndian(table, 8));
    assert t[10..] == BigEndian(0, 8) + BigEndian(table, 8);
    assert t[18..] == BigEndian(table, 8) + [];
  }

  /** A number that starts `at` bytes into a table behind `body`. */
  lemma NumberInTable(body: seq<Byte>, table: seq<Byte>, at: nat, tail: seq<Byte>, n: nat, w: nat)
    requires w in {1, 2, 3, 4, 8} && n < Power256(w) && at <= |table| && BigEndian(n, w) <= table[at..]
    ensures UintToHost((body + (table + tail))[|body| + at..], w) == n
  {
    var entry := BigEndian(n, w);
    PrefixOfDrop(table, tail, at, entry);
    var rest := (table + tail)[at..];
    PrefixSplits(entry, rest);
    UintToHostReads(n, w, rest[w..]);
    DropIntoTail(body, table + tail, at);
  }

  lemma TableEntry(body: seq<Byte>, refs: seq<nat>, w: nat, tail: seq<Byte>, i: nat, at: nat)
    requires w in {1, 2, 3, 4, 8} && i < |refs| && refs[i] < Power256(w) && at == i * w
    ensures var bin := body + (WriteRefs(refs, w) + tail);
      |body| + at + w <= |bin| && UintToHost(bin[|body| + at..], w) == refs[i]
  {
    RefInTable(refs, w, i);
    NumberInTable(body, WriteRefs(refs, w), at, tail, refs[i], w);
  }

  lemma DropIntoTail(a: seq<Byte>, b: seq<Byte>, at: nat)
    requires at <= |b|
    ensures (a + b)[|a| + at..] == b[at..]
  {
  }

  /** What follows the objects. */
  function Directory(pieces: seq<seq<Byte>>): seq<Byte> {
    var offsetSize := NeededBytes(|Body(pieces)|);
    WriteRefs(Offsets(pieces), offsetSize) + (PAD + Trailer(offsetSize, NeededBytes(|pieces|), |pieces|, |Body(pieces)|))
  }

  lemma PackSplits(pieces: seq<seq<Byte>>)
    ensures Pack(pieces) == Body(pieces) + Directory(pieces)
  {
  }

  /** Entry `i` of the offset table, as the decoder reads it. */
  lemma OffsetIsRead(pieces: seq<seq<Byte>>, i: nat, w: nat, at: nat)
    requires i < |pieces| && |Body(pieces)| < 0x1_0000_0000
    requires w == NeededBytes(|Body(pieces)|) && at == i * w
    ensures |Body(pieces)| + at + w <= |Pack(pieces)|
    ensures UintToHost(Pack(pieces)[|Body(pieces)| + at..], w) == |Body(pieces[..i])|
  {
    var body := Body(pieces);
    PieceInBody(pieces, i);
    PackSplits(pieces);
    TableEntry(body, Offsets(pieces), w, PAD + Trailer(w, NeededBytes(|pieces|), |pieces|, |body|), i, at);
  }

  /** Objects and what the decoder should make of them. */
  ghost predicate AllWritable(datas: seq<Data>, flat: seq<Flat>) {
    && |datas| == |flat| > 0
    && forall i :: 0 <= i < |flat| ==> Writable(datas[i], flat[i], NeededBytes(|flat|))
  }

  function Pieces(datas: seq<Data>, flat: seq<Flat>): (pieces: seq<seq<Byte>>)
    requires |datas| == |flat|
    ensures |pieces| == |flat|
  {
    seq(|flat|, i requires 0 <= i < |flat| => WriteObject(datas[i], flat[i], NeededBytes(|flat|)))
  }

  /** The bytes from an object's offset to the end of the file start with the object. */
  lemma PieceInFile(pieces: seq<seq<Byte>>, i: nat)
    requires i < |pieces|
    ensures |Body(pieces[..i])| <= |Pack(pieces)|
    ensures pieces[i] <= Pack(pieces)[|Body(pieces[..i])|..]
  {
    PackSplits(pieces);
    PieceInBody(pieces, i);
    PrefixOfDrop(Body(pieces), Directory(pieces), |Body(pieces[..i])|, pieces[i]);
  }

  lemma EntryIsFound(bin: seq<Byte>, at: nat, offsetSize: nat, refSize: nat, offset: nat)
    requires refSize > 0 && offsetSize > 0 && at + offsetSize <= |bin|
    requires UintToHost(bin[at..], offsetSize) == offset <= |bin|
    ensures ParseEntry(bin, at, offsetSize, refSize) == ParseObject(bin[offset..], refSize)
  {
  }

  lemma ObjectIsFound(pieces: seq<seq<Byte>>, i: nat, w: nat, at: nat, refSize: nat)
    requires refSize > 0 && i < |pieces| && |Body(pieces)| < 0x1_0000_0000
    requires w == NeededBytes(|Body(pieces)|) && at == i * w
    ensures |Body(pieces[..i])| <= |Pack(pieces)|
    ensures ParseEntry(Pack(pieces), |Body(pieces)| + at, w, refSize)
         == ParseObject(Pack(pieces)[|Body(pieces[..i])|..], refSize)
  {
    OffsetIsRead(pieces, i, w, at);
    PieceInFile(pieces, i);
    EntryIsFound(Pack(pieces), |Body(pieces)| + at, w, refSize, |Body(pieces[..i])|);
  }

  /** Whatever follows it in the file, `piece` is parsed as `f`. */
  ghost predicate ParsesAs(piece: seq<Byte>, f: Flat, refSize: nat)
    requires refSize > 0
  {
    forall s :: piece <= s ==> ParseObject(s, refSize) == Some(f)
  }

  lemma WrittenParsesAs(d: Data, f: Flat, w: nat)
    requires Writable(d, f, w)
    ensures ParsesAs(WriteObject(d, f, w), f, w)
  {
    var piece := WriteObject(d, f, w);
    forall s | piece <= s ensures ParseObject(s, w) == Some(f) {
      PrefixSplits(piece, s);
      ObjectRoundTrip(d, f, w, s[|piece|..]);
    }
  }

  lemma ObjectIsParsed(pieces: seq<seq<Byte>>, i: nat, w: nat, at: nat, refSize: nat, f: Flat)
    requires refSize > 0 && i < |pieces| && |Body(pieces)| < 0x1_0000_0000
    requires w == NeededBytes(|Body(pieces)|) && at == i * w && ParsesAs(pieces[i], f, refSize)
    ensures ParseEntry(Pack(pieces), |Body(pieces)| + at, w, refSize) == Some(f)
  {
    ObjectIsFound(pieces, i, w, at, refSize);
    PieceInFile(pieces, i);
  }

  /** Header and trailer of a packed file lead the decoder to its objects. */
  lemma PackedFileIsParsed(pieces: seq<seq<Byte>>)
    requires pieces != [] && |Pack(pieces)| < 0x1_0000_0000
    ensures |pieces| < 0x1_0000_0000 && |Body(pieces)| < 0x1_0000_0000
    ensures var body := Body(pieces);
      var objects := ParseObjects(Pack(pieces), |body|, NeededBytes(|body|), NeededBytes(|pieces|), |pieces|);
      ParseFile(Pack(pieces)) == if objects.None? then None else Some(Parsed(objects.value, 0))
  {
    var body, w, n := Body(pieces), NeededBytes(|Body(pieces)|), NeededBytes(|pieces|);
    var refs, trailer := WriteRefs(Offsets(pieces), w), Trailer(w, n, |pieces|, |body|);
    RefsLength(Offsets(pieces), w);
    TableIsLong(|pieces|, w);
    TrailerFields(w, n, |pieces|, |body|);
    EndsOfFile(body, refs + PAD, trailer);
  }

  lemma TableIsLong(n: nat, w: nat)
    requires w > 0
    ensures n * w >= n
  {
  }

  lemma EndsOfFile(body: seq<Byte>, middle: seq<Byte>, trailer: seq<Byte>)
    requires MAGIC + VERSION <= body && |trailer| == TRAILER_SIZE
    ensures var bin := body + middle + trailer;
      bin[|bin| - TRAILER_SIZE..] == trailer && bin[..6] == MAGIC && bin[6..8] == VERSION
  {
    var bin := body + middle + trailer;
    assert bin[..8] == body[..8] == MAGIC + VERSION;
    assert bin[..6] == bin[..8][..6] && bin[6..8] == bin[..8][6..8];
  }

  lemma AllParsed(bin: seq<Byte>, table: nat, offsetSize: nat, refSize: nat, flat: seq<Flat>)
    requires refSize > 0
    requires forall i :: 0 <= i < |flat| ==> ParseAt(bin, table, offsetSize, refSize, i) == Some(flat[i])
    ensures ParseObjects(bin, table, offsetSize, refSize, |flat|) == Some(flat)
  {
    var objects := ParseObjects(bin, table, offsetSize, refSize, |flat|);
    assert objects.Some? && objects.value == flat;
  }

  lemma ObjectIsParsedAt(pieces: seq<seq<Byte>>, w: nat, i: nat, refSize: nat, f: Flat)
    requires refSize > 0 && i < |pieces| && |Body(pieces)| < 0x1_0000_0000 && w == NeededBytes(|Body(pieces)|)
    requires ParsesAs(pieces[i], f, refSize)
    ensures ParseAt(Pack(pieces), |Body(pieces)|, w, refSize, i) == Some(f)
  {
    ObjectIsParsed(pieces, i, w, i * w, refSize, f);
  }

  lemma PiecesParse(pieces: seq<seq<Byte>>, flat: seq<Flat>, w: nat)
    requires |pieces| == |flat| > 0 && |Body(pieces)| < 0x1_0000_0000 && w == NeededBytes(|Body(pieces)|)
    requires forall i :: 0 <= i < |flat| ==> ParsesAs(pieces[i], flat[i], NeededBytes(|flat|))
    ensures ParseObjects(Pack(pieces), |Body(pieces)|, w, NeededBytes(|flat|), |flat|) == Some(flat)
  {
    forall i | 0 <= i < |flat| ensures ParseAt(Pack(pieces), |Body(pieces)|, w, NeededBytes(|flat|), i) == Some(flat[i]) {
      ObjectIsParsedAt(pieces, w, i, NeededBytes(|flat|), flat[i]);
    }
    AllParsed(Pack(pieces), |Body(pieces)|, w, NeededBytes(|flat|), flat);
  }

  /**
    Every written file parses back to the objects it was made from: 1, 2, 3, 4 and 8-byte references and offsets,
    short and long markers, the stray byte after data and all.
  */
  lemma FileRoundTrip(datas: seq<Data>, flat: seq<Flat>)
    requires AllWritable(datas, flat) && |Pack(Pieces(datas, flat))| < 0x1_0000_0000
    ensures ParseFile(Pack(Pieces(datas, flat))) == Some(Parsed(flat, 0))
  {
    var pieces := Pieces(datas, flat);
    forall i | 0 <= i < |flat| ensures ParsesAs(pieces[i], flat[i], NeededBytes(|flat|)) {
      WrittenParsesAs(datas[i], flat[i], NeededBytes(|flat|));
    }
    PackedFileIsParsed(pieces);
    PiecesParse(pieces, flat, NeededBytes(|Body(pieces)|));
  }
}
