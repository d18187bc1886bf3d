/**
  Property list trees as airplay/libplist keeps them: typed nodes with an ordered list of children, a dictionary's
  children alternating between keys and values.  Reals and dates are not part of this model.
*/
module PlistTree {
  import opened Bytes
  import opened Utf

  /** A zero-terminated string, without its terminator. */
  type CString = s: seq<Byte> | 0 !in s

  datatype Data =
    | Boolean(b: bool)
    | UInt(n: Word64)
    | Uid(n: Word64)
    | Text(s: CString)          // PLIST_STRING
    | Key(s: CString)           // PLIST_KEY
    | Blob(bytes: seq<Byte>)    // PLIST_DATA
    | Array
    | Dict
  {
    predicate IsContainer() {
      Array? || Dict?
    }
  }

  datatype Node = Node(data: Data, kids: seq<Node>)

  /** A tree the library's constructors build: leaves have no children, keys stand only before a dictionary's values. */
  ghost predicate WellFormed(n: Node) {
    match n.data
    case Array => forall i :: 0 <= i < |n.kids| ==> !n.kids[i].data.Key? && WellFormed(n.kids[i])
    case Dict => |n.kids| % 2 == 0 && forall i :: 0 <= i < |n.kids| ==> (n.kids[i].data.Key? <==> i % 2 == 0) && WellFormed(n.kids[i])
    case _ => n.kids == []
  }

  /** What the C library sees of a buffer used as a string: everything before the first zero. */
  function UpToZero(bytes: seq<Byte>): (s: CString)
  {
    if bytes == [] || bytes[0] == 0 then [] else [bytes[0]] + UpToZero(bytes[1..])
  }

  lemma {:induction false} UpToZeroKeeps(s: CString)
    ensures UpToZero(s) == s
  {
    if s != [] {
      UpToZeroKeeps(s[1..]);
      assert s == [s[0]] + s[1..];
    }
  }

  predicate IsAscii(s: seq<Byte>) {
    forall i :: 0 <= i < |s| ==> s[i] < 0x80
  }

  /** What a string becomes when written and read back: text outside ASCII goes through 16-bit units. */
  function Stored(s: CString): CString {
    if IsAscii(s) then s else UpToZero(UnitsToUtf8(Utf8ToUnits(s)))
  }

  lemma {:induction false} AsciiIsShortest(s: seq<Byte>)
    requires IsAscii(s)
    ensures ShortestForm(s)
  {
    if s != [] {
      AsciiIsShortest(s[1..]);
    }
  }

  lemma {:induction false} UpToZeroIsShortest(s: seq<Byte>)
    requires ShortestForm(s)
    ensures ShortestForm(UpToZero(s))
  {
    if s != [] && s[0] != 0 {
      var n := if s[0] < 0x80 then 1 else if s[0] < 0xE0 then 2 else 3;
      UpToZeroIsShortest(s[n..]);
      PeelZeroFree(s, n);
    }
  }

  /** A character without a zero byte is kept whole. */
  lemma {:induction false} PeelZeroFree(s: seq<Byte>, n: nat)
    requires n <= |s| && 0 !in s[..n]
    ensures UpToZero(s) == s[..n] + UpToZero(s[n..])
  {
    if n > 0 {
      assert s[0] in s[..n] && s[1..][..n - 1] == s[..n][1..] && s[1..][n - 1..] == s[n..];
      PeelZeroFree(s[1..], n - 1);
    }
  }

  /** A string survives storage exactly if it is UTF-8 in shortest form, of at most three bytes a character. */
  lemma StoredIsSameIff(s: CString)
    ensures Stored(s) == s <==> ShortestForm(s)
  {
    if IsAscii(s) {
      AsciiIsShortest(s);
    } else {
      Utf8RoundTrip(s);
      UpToZeroKeeps(s);
      OutputIsShortestForm(Utf8ToUnits(s));
      UpToZeroIsShortest(UnitsToUtf8(Utf8ToUnits(s)));
    }
  }

  function StoredData(d: Data): Data {
    match d
    case Text(s) => Text(Stored(s))
    case Key(s) => Key(Stored(s))
    case _ => d
  }

  /** The tree with every string as storage leaves it. */
  function StoredTree(n: Node): Node {
    Node(StoredData(n.data), seq(|n.kids|, i requires 0 <= i < |n.kids| => StoredTree(n.kids[i])))
  }

  ghost predicate AllShortest(n: Node) {
    && (n.data.Text? || n.data.Key? ==> ShortestForm(n.data.s))
    && forall i :: 0 <= i < |n.kids| ==> AllShortest(n.kids[i])
  }

  lemma {:induction false} StoredTreeIsSameIff(n: Node)
    ensures StoredTree(n) == n <==> AllShortest(n)
  {
    if n.data.Text? || n.data.Key? {
      StoredIsSameIff(n.data.s);
    }
    forall i | 0 <= i < |n.kids| ensures StoredTree(n.kids[i]) == n.kids[i] <==> AllShortest(n.kids[i]) {
      StoredTreeIsSameIff(n.kids[i]);
    }
    var kids := StoredTree(n).kids;
    assert forall i :: 0 <= i < |n.kids| ==> kids[i] == StoredTree(n.kids[i]);
    assert AllShortest(n) ==> kids == n.kids;
  }
}
