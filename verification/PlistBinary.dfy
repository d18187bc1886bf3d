/**
  The bytes of a binary property list: how each object is written (airplay/libplist/src/bplist.c, lines 847-1055,
  1153-1207) and parsed (lines 270-294, 341-594), and that parsing undoes writing.
*/
module PlistBinary {
  import opened Bytes
  import opened Options
  import opened Utf
  import opened PlistTree
  import opened PlistFlat

  // ---------------------------------------------------------------- writing one object

  const MARK_FALSE: Byte := 0x08
  const MARK_TRUE: Byte := 0x09
  const MARK_UINT: Byte := 0x10
  const MARK_DATA: Byte := 0x40
  const MARK_STRING: Byte := 0x50
  const MARK_UNICODE: Byte := 0x60
  const MARK_UID: Byte := 0x80
  const MARK_ARRAY: Byte := 0xA0
  const MARK_DICT: Byte := 0xD0

  function Log2(x: nat): (k: nat)
    ensures k <= 3
  {
    if x == 8 then 3 else if x == 4 then 2 else if x == 2 then 1 else 0
  }

  /** Integers are never written in three bytes. */
  function IntWidth(n: nat): (w: nat)
    ensures w in {1, 2, 4, 8}
    ensures n < 0x1_0000_0000_0000_0000 ==> n < Power256(w)
  {
    WordWidths();
    var w := NeededBytes(n);
    if w == 3 then 4 else w
  }

  /** write_int and write_uid, which differ in the mark only. */
  function WriteNumber(mark: Byte, n: nat): seq<Byte>
    requires mark < 0xF0
  {
    [mark + Log2(IntWidth(n))] + BigEndian(n, IntWidth(n))
  }

  /** The marker of an object with a length: in the low four bits if below fifteen, else as an integer behind it. */
  function WriteMarker(mark: Byte, size: nat): seq<Byte>
    requires mark < 0xF0
  {
    if size < 15 then [mark + size] else [mark + 15] + WriteNumber(MARK_UINT, size)
  }

  function WriteUnits(units: seq<Unit>): (bytes: seq<Byte>)
    ensures |bytes| == 2 * |units|
  {
    if units == [] then [] else BigEndian(units[0], 2) + WriteUnits(units[1..])
  }

  function WriteString(s: CString): seq<Byte> {
    if IsAscii(s) then WriteMarker(MARK_STRING, |s|) + s
    else WriteMarker(MARK_UNICODE, |Utf8ToUnits(s)|) + WriteUnits(Utf8ToUnits(s))
  }

  function WriteRefs(refs: seq<nat>, w: nat): seq<Byte> {
    if refs == [] then [] else BigEndian(refs[0], w) + WriteRefs(refs[1..], w)
  }

  lemma {:induction false} RefsLength(refs: seq<nat>, w: nat)
    ensures |WriteRefs(refs, w)| == |refs| * w
  {
    if refs != [] {
      RefsLength(refs[1..], w);
      assert |refs| * w == w + |refs[1..]| * w;
    }
  }

  /**
    One turn of the loop at line 1153.  The case for data runs on into the one for arrays (there is no `break`), so an
    array marker for no children follows the data.
  */
  function WriteObject(d: Data, f: Flat, w: nat): seq<Byte> {
    match d
    case Boolean(b) => [if b then MARK_TRUE else MARK_FALSE]
    case UInt(n) => WriteNumber(MARK_UINT, n)
    case Uid(n) => WriteNumber(MARK_UID, n)
    case Text(s) => WriteString(s)
    case Key(s) => WriteString(s)
    case Blob(bytes) => WriteMarker(MARK_DATA, |bytes|) + bytes + WriteMarker(MARK_ARRAY, 0)
    case Array => if f.Items? then WriteMarker(MARK_ARRAY, |f.refs|) + WriteRefs(f.refs, w) else []
    case Dict =>
      if f.Entries? then WriteMarker(MARK_DICT, |f.keys|) + WriteRefs(f.keys, w) + WriteRefs(f.values, w) else []
  }

  // ---------------------------------------------------------------- parsing one object

  /** parse_uint_node behind its marker, whose low four bits give the width; None where there is no such width or no such bytes. */
  function ParseNumber(k: nat, s: seq<Byte>): (r: Option<(Word64, nat)>) {
    var width := if k == 0 then 1 else if k == 1 then 2 else if k == 2 then 4 else if k == 3 then 8 else 0;
    if width == 0 || |s| < width then None else Some((UintToHost(s, width), width))
  }

  /** The length of an object, and how many bytes its marker takes. */
  function ParseMarker(s: seq<Byte>): (r: Option<(nat, nat)>)
    requires s != []
    ensures r.Some? ==> r.value.1 <= |s|
  {
    if s[0] % 16 != 15 then Some((s[0] % 16, 1))
    else if |s| < 2 || s[1] / 16 * 16 != MARK_UINT then None
    else
      var n := ParseNumber(s[1] % 16, s[2..]);
      if n.None? then None else Some((n.value.0, 2 + n.value.1))
  }

  function ParseUnits(s: seq<Byte>, n: nat): (units: seq<Unit>)
    requires 2 * n <= |s|
    ensures |units| == n
  {
    if n == 0 then [] else
      WordWidths();
      [FromBigEndian(s[..2])] + ParseUnits(s[2..], n - 1)
  }

  function ParseRefs(s: seq<Byte>, n: nat, w: nat): (refs: seq<nat>)
    requires w > 0 && n * w <= |s|
    ensures |refs| == n
  {
    if n == 0 then [] else
      assert n * w == w + (n - 1) * w;
      [UintToHost(s, w)] + ParseRefs(s[w..], n - 1, w)
  }

  /** parse_bin_node on the bytes from an object's offset to the end of the file; None where it gives NULL or reads outside. */
  function ParseObject(s: seq<Byte>, w: nat): Option<Flat>
    requires w > 0
  {
    if s == [] then None
    else
      var mark, low := s[0] / 16 * 16, s[0] % 16;
      if mark == 0 then
        if s[0] == MARK_TRUE then Some(Leaf(Boolean(true)))
        else if s[0] == MARK_FALSE then Some(Leaf(Boolean(false)))
        else None
      else if mark == MARK_UINT || mark == MARK_UID then
        var n := ParseNumber(low, s[1..]);
        if n.None? then None else Some(Leaf(if mark == MARK_UINT then UInt(n.value.0) else Uid(n.value.0)))
      else
        var m := ParseMarker(s);
        if m.None? then None
        else
          var (size, used) := m.value;
          ParseBody(mark, size, s[used..], w)
  }

  function ParseBody(mark: Byte, size: nat, rest: seq<Byte>, w: nat): Option<Flat>
    requires w > 0
  {
    if mark == MARK_DATA then
      if size <= |rest| then Some(Leaf(Blob(rest[..size]))) else None
    else if mark == MARK_STRING then
      if size <= |rest| then Some(Leaf(Text(UpToZero(rest[..size])))) else None
    else if mark == MARK_UNICODE then
      if 2 * size <= |rest| then Some(Leaf(Text(UpToZero(UnitsToUtf8(ParseUnits(rest, size)))))) else None
    else if mark == MARK_ARRAY || mark == 0x70 then
      if size * w <= |rest| then Some(Items(ParseRefs(rest, size, w))) else None
    else if mark == MARK_DICT || mark == 0xC0 then
      if 2 * (size * w) <= |rest| then
        assert size * w <= |rest|;
        Some(Entries(ParseRefs(rest, size, w), ParseRefs(rest[size * w..], size, w)))
      else None
    else None
  }

  // ---------------------------------------------------------------- parsing undoes writing

  lemma NumberRoundTrip(mark: Byte, n: Word64, rest: seq<Byte>)
    requires mark < 0xF0 && mark % 16 == 0
    ensures var s := WriteNumber(mark, n) + rest;
      && s[0] / 16 * 16 == mark
      && ParseNumber(s[0] % 16, s[1..]) == Some((n, IntWidth(n)))
      && s[1..][IntWidth(n)..] == rest
  {
    var w := IntWidth(n);
    var s := WriteNumber(mark, n) + rest;
    assert s[1..] == BigEndian(n, w) + rest;
    UintToHostReads(n, w, rest);
  }

  lemma MarkerRoundTrip(mark: Byte, size: Word64, rest: seq<Byte>)
    requires mark < 0xF0 && mark % 16 == 0
    ensures var s := WriteMarker(mark, size) + rest;
      && s[0] / 16 * 16 == mark
      && ParseMarker(s) == Some((size, |WriteMarker(mark, size)|))
      && s[|WriteMarker(mark, size)|..] == rest
  {
    if size >= 15 {
      var s := WriteMarker(mark, size) + rest;
      assert s == [mark + 15] + (WriteNumber(MARK_UINT, size) + rest);
      NumberRoundTrip(MARK_UINT, size, rest);
      assert s[1..] == WriteNumber(MARK_UINT, size) + rest;
      assert s[2..] == s[1..][1..];
    }
  }

  lemma {:induction false} UnitsParseBack(units: seq<Unit>, rest: seq<Byte>)
    ensures ParseUnits(WriteUnits(units) + rest, |units|) == units
  {
    if units != [] {
      var s := WriteUnits(units) + rest;
      assert s[..2] == BigEndian(units[0], 2);
      WordWidths();
      BigEndianRoundTrip(units[0], 2);
      assert s[2..] == WriteUnits(units[1..]) + rest;
      UnitsParseBack(units[1..], rest);
    }
  }

  lemma FirstRef(ref: nat, w: nat, n: nat, rest: seq<Byte>)
    requires w in {1, 2, 3, 4, 8} && ref < Power256(w) && n * w <= |rest|
    ensures (n + 1) * w <= |BigEndian(ref, w) + rest|
    ensures ParseRefs(BigEndian(ref, w) + rest, n + 1, w) == [ref] + ParseRefs(rest, n, w)
  {
    assert (n + 1) * w == w + n * w;
    UintToHostReads(ref, w, rest);
    assert (BigEndian(ref, w) + rest)[w..] == rest;
  }

  lemma FirstRefThen(refs: seq<nat>, w: nat, rest: seq<Byte>, n: nat)
    requires w in {1, 2, 3, 4, 8} && |refs| == n + 1 && refs[0] < Power256(w)
    requires n * w <= |WriteRefs(refs[1..], w) + rest| && ParseRefs(WriteRefs(refs[1..], w) + rest, n, w) == refs[1..]
    ensures (n + 1) * w <= |WriteRefs(refs, w) + rest| && ParseRefs(WriteRefs(refs, w) + rest, n + 1, w) == refs
  {
    FirstRef(refs[0], w, n, WriteRefs(refs[1..], w) + rest);
    Associate(BigEndian(refs[0], w), WriteRefs(refs[1..], w), rest);
  }

  lemma {:induction false} RefsRoundTrip(refs: seq<nat>, w: nat, rest: seq<Byte>)
    requires w in {1, 2, 3, 4, 8} && forall i :: 0 <= i < |refs| ==> refs[i] < Power256(w)
    ensures |refs| * w <= |WriteRefs(refs, w) + rest|
    ensures ParseRefs(WriteRefs(refs, w) + rest, |refs|, w) == refs
  {
    RefsLength(refs, w);
    if refs != [] {
      RefsRoundTrip(refs[1..], w, rest);
      FirstRefThen(refs, w, rest, |refs| - 1);
    }
  }

  /** What the writer is given for an object: references that fit, and lengths below 2^64. */
  ghost predicate Writable(d: Data, f: Flat, w: nat) {
    && w in {1, 2, 3, 4, 8}
    && (match d
        case Array => f.Items? && RefsFit(f.refs, w)
        case Dict => f.Entries? && |f.keys| == |f.values| && RefsFit(f.keys, w) && RefsFit(f.values, w)
        case _ => f == Leaf(InFile(d)))
    && |WriteObject(d, f, w)| < 0x1_0000_0000
  }

  ghost predicate RefsFit(refs: seq<nat>, w: nat) {
    |refs| < 0x1_0000_0000 && forall i :: 0 <= i < |refs| ==> refs[i] < Power256(w)
  }

  lemma MarkedObject(mark: Byte, size: Word64, body: seq<Byte>, w: nat)
    requires w > 0 && MARK_DATA <= mark < 0xF0 && mark % 16 == 0 && mark != MARK_UID
    ensures ParseObject(WriteMarker(mark, size) + body, w) == ParseBody(mark, size, body, w)
  {
    MarkerRoundTrip(mark, size, body);
  }

  lemma AsciiRoundTrip(s: CString, rest: seq<Byte>, w: nat)
    requires w > 0 && |s| < 0x1_0000_0000
    ensures ParseObject(WriteMarker(MARK_STRING, |s|) + s + rest, w) == Some(Leaf(Text(s)))
  {
    MarkedObject(MARK_STRING, |s|, s + rest, w);
    Associate(WriteMarker(MARK_STRING, |s|), s, rest);
    assert (s + rest)[..|s|] == s;
    UpToZeroKeeps(s);
  }

  lemma UnicodeRoundTrip(units: seq<Unit>, rest: seq<Byte>, w: nat)
    requires w > 0 && |units| < 0x1_0000_0000
    ensures ParseObject(WriteMarker(MARK_UNICODE, |units|) + WriteUnits(units) + rest, w)
         == Some(Leaf(Text(UpToZero(UnitsToUtf8(units)))))
  {
    MarkedObject(MARK_UNICODE, |units|, WriteUnits(units) + rest, w);
    Associate(WriteMarker(MARK_UNICODE, |units|), WriteUnits(units), rest);
    UnitsParseBack(units, rest);
  }

  lemma StringRoundTrip(s: CString, rest: seq<Byte>, w: nat)
    requires w > 0 && |WriteString(s)| < 0x1_0000_0000
    ensures ParseObject(WriteString(s) + rest, w) == Some(Leaf(Text(Stored(s))))
  {
    if IsAscii(s) {
      AsciiRoundTrip(s, rest, w);
    } else {
      UnicodeRoundTrip(Utf8ToUnits(s), rest, w);
    }
  }

  lemma DataRoundTrip(bytes: seq<Byte>, rest: seq<Byte>, w: nat)
    requires w > 0 && |bytes| < 0x1_0000_0000
    ensures ParseObject(WriteMarker(MARK_DATA, |bytes|) + bytes + rest, w) == Some(Leaf(Blob(bytes)))
  {
    MarkedObject(MARK_DATA, |bytes|, bytes + rest, w);
    Associate(WriteMarker(MARK_DATA, |bytes|), bytes, rest);
    assert (bytes + rest)[..|bytes|] == bytes;
  }

  lemma ArrayRoundTrip(refs: seq<nat>, rest: seq<Byte>, w: nat)
    requires w in {1, 2, 3, 4, 8} && RefsFit(refs, w)
    ensures ParseObject(WriteMarker(MARK_ARRAY, |refs|) + WriteRefs(refs, w) + rest, w) == Some(Items(refs))
  {
    MarkedObject(MARK_ARRAY, |refs|, WriteRefs(refs, w) + rest, w);
    Associate(WriteMarker(MARK_ARRAY, |refs|), WriteRefs(refs, w), rest);
    RefsRoundTrip(refs, w, rest);
  }

  lemma TwoRefLists(keys: seq<nat>, values: seq<nat>, rest: seq<Byte>, w: nat)
    requires w in {1, 2, 3, 4, 8} && RefsFit(keys, w) && RefsFit(values, w) && |keys| == |values|
    ensures ParseBody(MARK_DICT, |keys|, WriteRefs(keys, w) + (WriteRefs(values, w) + rest), w) == Some(Entries(keys, values))
  {
    var tail := WriteRefs(values, w) + rest;
    var body := WriteRefs(keys, w) + tail;
    RefsRoundTrip(keys, w, tail);
    RefsRoundTrip(values, w, rest);
    var n := |keys| * w;
    RefsLength(keys, w);
    RefsLength(values, w);
    assert body[n..] == tail;
  }

  lemma Regroup(a: seq<Byte>, b: seq<Byte>, c: seq<Byte>, d: seq<Byte>)
    ensures a + b + c + d == a + (b + (c + d))
  {
  }

  lemma DictRoundTrip(keys: seq<nat>, values: seq<nat>, rest: seq<Byte>, w: nat)
    requires w in {1, 2, 3, 4, 8} && RefsFit(keys, w) && RefsFit(values, w) && |keys| == |values|
    ensures ParseObject(WriteMarker(MARK_DICT, |keys|) + WriteRefs(keys, w) + WriteRefs(values, w) + rest, w)
         == Some(Entries(keys, values))
  {
    var first, second := WriteRefs(keys, w), WriteRefs(values, w);
    Regroup(WriteMarker(MARK_DICT, |keys|), first, second, rest);
    MarkedDict(|keys|, first + (second + rest), w);
    TwoRefLists(keys, values, rest, w);
  }

  lemma MarkedDict(size: Word64, body: seq<Byte>, w: nat)
    requires w > 0
    ensures ParseObject(WriteMarker(MARK_DICT, size) + body, w) == ParseBody(MARK_DICT, size, body, w)
  {
    MarkedObject(MARK_DICT, size, body, w);
  }

  lemma ScalarRoundTrip(d: Data, w: nat, rest: seq<Byte>)
    requires w > 0 && (d.Boolean? || d.UInt? || d.Uid?)
    ensures ParseObject(WriteObject(d, Leaf(d), w) + rest, w) == Some(Leaf(d))
  {
    if d.UInt? {
      NumberRoundTrip(MARK_UINT, d.n, rest);
    } else if d.Uid? {
      NumberRoundTrip(MARK_UID, d.n, rest);
    }
  }

  /** The stray array marker behind data is among what follows it. */
  lemma BlobRoundTrip(bytes: seq<Byte>, f: Flat, w: nat, rest: seq<Byte>)
    requires w > 0 && |bytes| < 0x1_0000_0000
    ensures ParseObject(WriteObject(Blob(bytes), f, w) + rest, w) == Some(Leaf(Blob(bytes)))
  {
    DataRoundTrip(bytes, WriteMarker(MARK_ARRAY, 0) + rest, w);
    assert WriteObject(Blob(bytes), f, w) + rest
        == WriteMarker(MARK_DATA, |bytes|) + bytes + (WriteMarker(MARK_ARRAY, 0) + rest);
  }

  /** Whatever follows an object in the file (the stray array marker behind data, other objects), it parses back. */
  lemma ObjectRoundTrip(d: Data, f: Flat, w: nat, rest: seq<Byte>)
    requires Writable(d, f, w)
    ensures ParseObject(WriteObject(d, f, w) + rest, w) == Some(f)
  {
    match d
    case Text(s) => StringRoundTrip(s, rest, w);
    case Key(s) => StringRoundTrip(s, rest, w);
    case Blob(bytes) => BlobRoundTrip(bytes, f, w, rest);
    case Array => ArrayRoundTrip(f.refs, rest, w);
    case Dict => DictRoundTrip(f.keys, f.values, rest, w);
    case _ => ScalarRoundTrip(d, w, rest);
  }
}
