/**
  The bytes of a binary property list, spelled out: what airplay/libplist/src/bplist.c writes for every object and file
  (lines 849-1055, 1101-1253), and what it takes every object and file for (lines 270-294, 341-594, 641-696).
*/
module PlistFormat {
  import opened Bytes
  import opened Options
  import opened Utf
  import opened PlistTree
  import opened PlistFlat
  import opened PlistBinary
  import opened PlistFile

  // ---------------------------------------------------------------- numbers

  lemma SixteenBits(n: nat)
    ensures n / 0x100 / 0x100 == n / 0x1_0000
  {
  }

  lemma MoreBits(n: nat)
    ensures n / 0x1_0000 / 0x100 == n / 0x100_0000
    ensures n / 0x100_0000 / 0x100 == n / 0x1_0000_0000
  {
  }

  /** Most significant byte first. */
  lemma BigEndianBytes(n: nat)
    ensures BigEndian(n, 1) == [n % 256]
    ensures BigEndian(n, 2) == [n / 0x100 % 256, n % 256]
    ensures BigEndian(n, 3) == [n / 0x1_0000 % 256, n / 0x100 % 256, n % 256]
    ensures BigEndian(n, 4) == [n / 0x100_0000 % 256, n / 0x1_0000 % 256, n / 0x100 % 256, n % 256]
  {
    SixteenBits(n);
    MoreBits(n);
    FourBytes(n);
  }

  lemma FourBytes(n: nat)
    ensures BigEndian(n, 4) == [n / 256 / 256 / 256 % 256, n / 256 / 256 % 256, n / 256 % 256, n % 256]
    ensures BigEndian(n, 3) == BigEndian(n, 4)[1..] && BigEndian(n, 2) == BigEndian(n, 4)[2..] && BigEndian(n, 1) == BigEndian(n, 4)[3..]
  {
    var a, b, c := n / 256, n / 256 / 256, n / 256 / 256 / 256;
    assert BigEndian(c, 1) == BigEndian(c / 256, 0) + [c % 256] == [c % 256];
    assert BigEndian(b, 2) == BigEndian(c, 1) + [b % 256] == [c % 256, b % 256];
    assert BigEndian(b, 1) == [b % 256] && BigEndian(a, 1) == [a % 256];
    assert BigEndian(a, 2) == BigEndian(b, 1) + [a % 256];
    assert BigEndian(a, 3) == BigEndian(b, 2) + [a % 256] == [c % 256, b % 256, a % 256];
  }

  /** Eight bytes are two times four. */
  lemma EightBytes(n: nat)
    ensures BigEndian(n, 8) == BigEndian(n / 0x1_0000_0000, 4) + BigEndian(n, 4)
  {
    LongBytes(n, 4);
    SixteenBits(n);
    MoreBits(n);
  }

  lemma LongBytes(n: nat, w: nat)
    ensures BigEndian(n, w + 4) == BigEndian(n / 256 / 256 / 256 / 256, w) + BigEndian(n, 4)
  {
    var a, b, c := n / 256, n / 256 / 256, n / 256 / 256 / 256;
    FourBytes(n);
    assert BigEndian(n, w + 4) == BigEndian(a, w + 3) + [n % 256];
    assert BigEndian(a, w + 3) == BigEndian(b, w + 2) + [a % 256];
    assert BigEndian(b, w + 2) == BigEndian(c, w + 1) + [b % 256];
    assert BigEndian(c, w + 1) == BigEndian(c / 256, w) + [c % 256];
  }

  lemma FourBytesRead(a: Byte, b: Byte, c: Byte, d: Byte)
    ensures FromBigEndian([a]) == a && FromBigEndian([a, b]) == Short(a, b)
    ensures FromBigEndian([a, b, c]) == Long(0, a, b, c)
    ensures FromBigEndian([a, b, c, d]) == Long(a, b, c, d)
  {
    assert [a][..0] == [] && [a, b][..1] == [a] && [a, b, c][..2] == [a, b] && [a, b, c, d][..3] == [a, b, c];
  }

  lemma EightBytesRead(high: seq<Byte>, low: seq<Byte>)
    requires |high| == |low| == 4
    ensures FromBigEndian(high + low) == FromBigEndian(high) * 0x1_0000_0000 + FromBigEndian(low)
  {
    var s, n := high + low, FromBigEndian(high);
    assert low == [low[0], low[1], low[2], low[3]];
    FourBytesRead(low[0], low[1], low[2], low[3]);
    OneMoreByte(s, high, 4);
    OneMoreByte(s, s[..5], 5);
    OneMoreByte(s, s[..6], 6);
    OneMoreByte(s, s[..7], 7);
    assert s[..8] == s;
  }

  lemma OneMoreByte(s: seq<Byte>, before: seq<Byte>, k: nat)
    requires k < |s| && before == s[..k]
    ensures FromBigEndian(s[..k + 1]) == FromBigEndian(before) * 256 + s[k]
  {
    assert s[..k + 1][..k] == before;
  }

  /** The least of the widths that holds the number. */
  lemma WidthIsLeast(n: nat)
    ensures n < 0x100 ==> NeededBytes(n) == 1
    ensures 0x100 <= n < 0x1_0000 ==> NeededBytes(n) == 2
    ensures 0x1_0000 <= n < 0x100_0000 ==> NeededBytes(n) == 3
    ensures 0x100_0000 <= n < 0x1_0000_0000 ==> NeededBytes(n) == 4
    ensures 0x1_0000_0000 <= n ==> NeededBytes(n) == 8
  {
  }

  function Short(a: int, b: int): int {
    a * 0x100 + b
  }

  function Long(a: int, b: int, c: int, d: int): int {
    a * 0x100_0000 + b * 0x1_0000 + c * 0x100 + d
  }

  /** A reference or an offset of each width. */
  lemma RefIsRead(s: seq<Byte>, w: nat)
    requires 1 <= |s| && w <= |s|
    ensures w == 2 ==> UintToHost(s, w) == Short(s[0], s[1])
    ensures w == 3 ==> UintToHost(s, w) == Long(0, s[0], s[1], s[2])
    ensures w == 4 ==> UintToHost(s, w) == Long(s[0], s[1], s[2], s[3])
    ensures w == 8 ==> UintToHost(s, w) == Long(s[0], s[1], s[2], s[3]) * 0x1_0000_0000
                                         + Long(s[4], s[5], s[6], s[7])
    ensures w !in {2, 3, 4, 8} ==> UintToHost(s, w) == s[0]
  {
    if w == 2 {
      assert s[..2] == [s[0], s[1]];
      FourBytesRead(s[0], s[1], 0, 0);
    } else if w == 3 {
      assert s[..3] == [s[0], s[1], s[2]];
      FourBytesRead(s[0], s[1], s[2], 0);
    } else if w == 4 {
      assert s[..4] == [s[0], s[1], s[2], s[3]];
      FourBytesRead(s[0], s[1], s[2], s[3]);
    } else if w == 8 {
      assert s[..8] == s[..4] + s[4..8] && s[..4] == [s[0], s[1], s[2], s[3]] && s[4..8] == [s[4], s[5], s[6], s[7]];
      FourBytesRead(s[0], s[1], s[2], s[3]);
      FourBytesRead(s[4], s[5], s[6], s[7]);
      EightBytesRead(s[..4], s[4..8]);
    }
  }

  // ---------------------------------------------------------------- every object as it is written

  /** An integer behind its marker: 1, 2, 4 or 8 bytes, as few as hold it. */
  lemma NumberIsWritten(mark: Byte, n: Word64)
    requires mark < 0xF0
    ensures n < 0x100 ==> WriteNumber(mark, n) == [mark, n]
    ensures 0x100 <= n < 0x1_0000 ==> WriteNumber(mark, n) == [mark + 1, n / 0x100, n % 0x100]
    ensures 0x1_0000 <= n < 0x1_0000_0000 ==>
      WriteNumber(mark, n) == [mark + 2, n / 0x100_0000, n / 0x1_0000 % 0x100, n / 0x100 % 0x100, n % 0x100]
    ensures 0x1_0000_0000 <= n ==>
      WriteNumber(mark, n) == [mark + 3] + (BigEndian(n / 0x1_0000_0000, 4) + BigEndian(n, 4))
  {
    if n < 0x1_0000 {
      ShortNumber(mark, n);
    } else if n < 0x1_0000_0000 {
      LongNumber(mark, n);
    } else {
      EightBytes(n);
      assert IntWidth(n) == 8 && WriteNumber(mark, n) == [mark + 3] + BigEndian(n, 8);
    }
  }

  lemma ShortNumber(mark: Byte, n: Word64)
    requires mark < 0xF0 && n < 0x1_0000
    ensures WriteNumber(mark, n) == if n < 0x100 then [mark, n] else [mark + 1, n / 0x100, n % 0x100]
  {
    OneOrTwoBytes(n);
    if n < 0x100 {
      assert IntWidth(n) == 1;
    } else {
      assert IntWidth(n) == 2;
    }
  }

  lemma OneOrTwoBytes(n: nat)
    requires n < 0x1_0000
    ensures n < 0x100 ==> BigEndian(n, 1) == [n]
    ensures BigEndian(n, 2) == [n / 0x100, n % 0x100]
  {
    FourBytes(n);
    SmallQuotient(n);
  }

  lemma SmallQuotient(n: nat)
    requires n < 0x1_0000
    ensures n / 256 < 256 && n / 256 % 256 == n / 256 && (n < 256 ==> n % 256 == n)
  {
  }

  lemma LongNumber(mark: Byte, n: Word64)
    requires mark < 0xF0 && 0x1_0000 <= n < 0x1_0000_0000
    ensures WriteNumber(mark, n) == [mark + 2, n / 0x100_0000, n / 0x1_0000 % 0x100, n / 0x100 % 0x100, n % 0x100]
  {
    BigEndianBytes(n);
    assert IntWidth(n) == 4 && n / 0x100_0000 < 0x100;
  }

  /** The marker of an object with a length: up to 14 in its low four bits, from 15 on as an integer behind it. */
  lemma LengthIsWritten(mark: Byte, n: Word64)
    requires mark < 0xF0
    ensures n < 15 ==> WriteMarker(mark, n) == [mark + n]
    ensures 15 <= n < 0x100 ==> WriteMarker(mark, n) == [mark + 15, 0x10, n]
    ensures 0x100 <= n < 0x1_0000 ==> WriteMarker(mark, n) == [mark + 15, 0x11, n / 0x100, n % 0x100]
    ensures 0x1_0000 <= n < 0x1_0000_0000 ==>
      WriteMarker(mark, n) == [mark + 15, 0x12, n / 0x100_0000, n / 0x1_0000 % 0x100, n / 0x100 % 0x100, n % 0x100]
    ensures 0x1_0000_0000 <= n ==>
      WriteMarker(mark, n) == [mark + 15, 0x13] + (BigEndian(n / 0x1_0000_0000, 4) + BigEndian(n, 4))
  {
    if n >= 15 {
      NumberIsWritten(MARK_UINT, n);
      assert WriteMarker(mark, n) == [mark + 15] + WriteNumber(MARK_UINT, n);
    }
  }

  /** Booleans, integers, UIDs and data; a data object is followed by the marker of an empty array. */
  lemma ScalarIsWritten(d: Data, f: Flat, w: nat)
    ensures d == Boolean(false) ==> WriteObject(d, f, w) == [0x08]
    ensures d == Boolean(true) ==> WriteObject(d, f, w) == [0x09]
    ensures d.UInt? ==> WriteObject(d, f, w) == WriteNumber(0x10, d.n)
    ensures d.Uid? ==> WriteObject(d, f, w) == WriteNumber(0x80, d.n)
    ensures d.Blob? ==> WriteObject(d, f, w) == WriteMarker(0x40, |d.bytes|) + d.bytes + [0xA0]
  {
  }

  /** Strings and keys: bytes if all are below 0x80, else 16-bit units, the high byte of each first. */
  lemma StringIsWritten(s: CString, d: Data, f: Flat, w: nat)
    requires d == Text(s) || d == Key(s)
    ensures (forall i :: 0 <= i < |s| ==> s[i] < 0x80) ==> WriteObject(d, f, w) == WriteMarker(0x50, |s|) + s
    ensures (exists i :: 0 <= i < |s| && s[i] >= 0x80) ==>
      var units, head := Utf8ToUnits(s), WriteMarker(0x60, |Utf8ToUnits(s)|);
      && |WriteObject(d, f, w)| == |head| + 2 * |units| && WriteObject(d, f, w)[..|head|] == head
      && forall i :: 0 <= i < |units| ==>
           WriteObject(d, f, w)[|head| + 2 * i] == units[i] / 0x100 && WriteObject(d, f, w)[|head| + 2 * i + 1] == units[i] % 0x100
  {
    if exists i :: 0 <= i < |s| && s[i] >= 0x80 {
      WideStringIsWritten(s);
    }
  }

  lemma WideStringIsWritten(s: CString)
    requires !IsAscii(s)
    ensures var units, head := Utf8ToUnits(s), WriteMarker(0x60, |Utf8ToUnits(s)|);
      && |WriteString(s)| == |head| + 2 * |units| && WriteString(s)[..|head|] == head
      && forall i :: 0 <= i < |units| ==>
           WriteString(s)[|head| + 2 * i] == units[i] / 0x100 && WriteString(s)[|head| + 2 * i + 1] == units[i] % 0x100
  {
    UnitsBehind(WriteMarker(0x60, |Utf8ToUnits(s)|), Utf8ToUnits(s));
  }

  lemma UnitsBehind(head: seq<Byte>, units: seq<Unit>)
    ensures var s := head + WriteUnits(units);
      && |s| == |head| + 2 * |units| && s[..|head|] == head
      && forall i :: 0 <= i < |units| ==> s[|head| + 2 * i] == units[i] / 0x100 && s[|head| + 2 * i + 1] == units[i] % 0x100
  {
    forall i | 0 <= i < |units|
      ensures WriteUnits(units)[2 * i] == units[i] / 0x100 && WriteUnits(units)[2 * i + 1] == units[i] % 0x100
    {
      UnitIsWritten(units, i);
    }
  }

  lemma {:induction false} UnitIsWritten(units: seq<Unit>, i: nat)
    requires i < |units|
    ensures WriteUnits(units)[2 * i] == units[i] / 0x100 && WriteUnits(units)[2 * i + 1] == units[i] % 0x100
  {
    BigEndianBytes(units[0]);
    if i > 0 {
      UnitIsWritten(units[1..], i - 1);
    }
  }

  /** Arrays and dictionaries: the number of items or entries, and big-endian references; keys in front of values. */
  lemma ContainerIsWritten(d: Data, f: Flat, w: nat)
    ensures d == Array && f.Items? ==> WriteObject(d, f, w) == WriteMarker(0xA0, |f.refs|) + WriteRefs(f.refs, w)
    ensures d == Dict && f.Entries? ==>
      WriteObject(d, f, w) == WriteMarker(0xD0, |f.keys|) + WriteRefs(f.keys, w) + WriteRefs(f.values, w)
  {
  }

  lemma RefIsWritten(refs: seq<nat>, w: nat, i: nat)
    requires i < |refs|
    ensures |WriteRefs(refs, w)| == |refs| * w && i * w + w <= |refs| * w
    ensures WriteRefs(refs, w)[i * w..i * w + w] == BigEndian(refs[i], w)
  {
    RefsLength(refs, w);
    RefInTable(refs, w, i);
    var tail := WriteRefs(refs, w)[i * w..];
    PrefixSplits(BigEndian(refs[i], w), tail);
    assert tail[..w] == BigEndian(refs[i], w);
  }

  // ---------------------------------------------------------------- every object as it is taken

  predicate Gives(r: Option<(Word64, nat)>, n: int, used: nat) {
    r.Some? && r.value.0 == n && r.value.1 == used
  }

  /** An integer behind its marker, whose low four bits are `k`. */
  lemma NumberIsTaken(k: nat, s: seq<Byte>)
    ensures ParseNumber(k, s) == None <==> k > 3 || |s| < [1, 2, 4, 8][k]
    ensures k == 0 && |s| >= 1 ==> Gives(ParseNumber(k, s), s[0], 1)
    ensures k == 1 && |s| >= 2 ==> Gives(ParseNumber(k, s), Short(s[0], s[1]), 2)
    ensures k == 2 && |s| >= 4 ==> Gives(ParseNumber(k, s), Long(s[0], s[1], s[2], s[3]), 4)
    ensures k == 3 && |s| >= 8 ==>
      Gives(ParseNumber(k, s), Long(s[0], s[1], s[2], s[3]) * 0x1_0000_0000 + Long(s[4], s[5], s[6], s[7]), 8)
  {
    if k == 0 && |s| >= 1 {
      RefIsRead(s, 1);
    } else if k == 1 && |s| >= 2 {
      RefIsRead(s, 2);
    } else if k == 2 && |s| >= 4 {
      RefIsRead(s, 4);
    } else if k == 3 && |s| >= 8 {
      RefIsRead(s, 8);
    }
  }

  /** The length of an object and the number of bytes its marker takes: see NumberIsTaken for the long form. */
  lemma LengthIsTaken(s: seq<Byte>)
    requires s != []
    ensures s[0] % 16 < 15 ==> ParseMarker(s) == Some((s[0] % 16, 1))
    ensures s[0] % 16 == 15 && (|s| < 2 || !(0x10 <= s[1] < 0x20)) ==> ParseMarker(s) == None
    ensures s[0] % 16 == 15 && |s| >= 2 && 0x10 <= s[1] < 0x20 ==>
      var n := ParseNumber(s[1] - 0x10, s[2..]);
      && (n == None ==> ParseMarker(s) == None)
      && (n.Some? ==> ParseMarker(s).Some? && ParseMarker(s).value.0 == n.value.0 && ParseMarker(s).value.1 == 2 + n.value.1)
  {
  }

  /** First bytes below 0x10: the booleans, and nothing else. */
  lemma BooleanIsTaken(s: seq<Byte>, w: nat)
    requires w > 0 && s != [] && s[0] < 0x10
    ensures ParseObject(s, w)
      == if s[0] == 0x08 then Some(Leaf(Boolean(false))) else if s[0] == 0x09 then Some(Leaf(Boolean(true))) else None
  {
  }

  lemma IntegerIsTaken(s: seq<Byte>, w: nat)
    requires w > 0 && s != [] && 0x10 <= s[0] < 0x20
    ensures var n := ParseNumber(s[0] - 0x10, s[1..]);
      ParseObject(s, w) == if n == None then None else Some(Leaf(UInt(n.value.0)))
  {
    assert s[0] / 16 * 16 == 0x10 && s[0] % 16 == s[0] - 0x10;
  }

  lemma UidIsTaken(s: seq<Byte>, w: nat)
    requires w > 0 && s != [] && 0x80 <= s[0] < 0x90
    ensures var n := ParseNumber(s[0] - 0x80, s[1..]);
      ParseObject(s, w) == if n == None then None else Some(Leaf(Uid(n.value.0)))
  {
    assert s[0] / 16 * 16 == 0x80 && s[0] % 16 == s[0] - 0x80;
  }

  /** Everything else has a length; `rest` is what is behind it. */
  ghost predicate HasLength(s: seq<Byte>, n: nat, rest: seq<Byte>) {
    s != [] && ParseMarker(s).Some? && ParseMarker(s).value.0 == n && rest == s[ParseMarker(s).value.1..]
  }

  lemma DataIsTaken(s: seq<Byte>, w: nat, n: nat, rest: seq<Byte>)
    requires w > 0 && HasLength(s, n, rest) && 0x40 <= s[0] < 0x50
    ensures ParseObject(s, w) == if n <= |rest| then Some(Leaf(Blob(rest[..n]))) else None
  {
    assert s[0] / 16 * 16 == 0x40;
  }

  lemma StringIsTaken(s: seq<Byte>, w: nat, n: nat, rest: seq<Byte>)
    requires w > 0 && HasLength(s, n, rest) && 0x50 <= s[0] < 0x60
    ensures ParseObject(s, w) == if n <= |rest| then Some(Leaf(Text(UpToZero(rest[..n])))) else None
  {
    assert s[0] / 16 * 16 == 0x50;
  }

  lemma UnicodeIsTaken(s: seq<Byte>, w: nat, n: nat, rest: seq<Byte>)
    requires w > 0 && HasLength(s, n, rest) && 0x60 <= s[0] < 0x70
    ensures ParseObject(s, w)
      == if 2 * n <= |rest| then Some(Leaf(Text(UpToZero(UnitsToUtf8(ParseUnits(rest, n)))))) else None
  {
    assert s[0] / 16 * 16 == 0x60;
  }

  lemma ArrayIsTaken(s: seq<Byte>, w: nat, n: nat, rest: seq<Byte>)
    requires w > 0 && HasLength(s, n, rest) && (0x70 <= s[0] < 0x80 || 0xA0 <= s[0] < 0xB0)
    ensures ParseObject(s, w) == if n * w <= |rest| then Some(Items(ParseRefs(rest, n, w))) else None
  {
  }

  lemma DictIsTaken(s: seq<Byte>, w: nat, n: nat, rest: seq<Byte>)
    requires w > 0 && HasLength(s, n, rest) && 0xC0 <= s[0] < 0xE0
    ensures 2 * (n * w) > |rest| ==> ParseObject(s, w) == None
    ensures 2 * (n * w) <= |rest| ==>
      n * w <= |rest| && ParseObject(s, w) == Some(Entries(ParseRefs(rest, n, w), ParseRefs(rest[n * w..], n, w)))
  {
    assert ParseObject(s, w) == ParseBody(s[0] / 16 * 16, n, rest, w);
  }

  /** What is nothing: other first bytes, and lengths that cannot be read. */
  lemma NothingIsTaken(s: seq<Byte>, w: nat)
    requires w > 0
    ensures s == [] ==> ParseObject(s, w) == None
    ensures s != [] && (0x90 <= s[0] < 0xA0 || 0xB0 <= s[0] < 0xC0 || 0xE0 <= s[0]) ==> ParseObject(s, w) == None
    ensures s != [] && s[0] >= 0x40 && !(0x80 <= s[0] < 0x90) && ParseMarker(s) == None ==> ParseObject(s, w) == None
  {
  }

  /** A string in the file ends at its first zero. */
  lemma {:induction false} ZeroEndsString(a: seq<Byte>, b: seq<Byte>)
    requires 0 !in a
    ensures UpToZero(a + [0] + b) == a && UpToZero(a) == a
    decreases |a|
  {
    if a != [] {
      assert (a + [0] + b)[0] == a[0] && (a + [0] + b)[1..] == a[1..] + [0] + b;
      ZeroEndsString(a[1..], b);
    }
  }

  lemma {:induction false} RefIsTaken(s: seq<Byte>, n: nat, w: nat, i: nat)
    requires w > 0 && n * w <= |s| && i < n
    ensures i * w + w <= |s| && ParseRefs(s, n, w)[i] == UintToHost(s[i * w..], w)
    decreases n
  {
    Places(n, i, w);
    if i > 0 {
      RefIsTaken(s[w..], n - 1, w, i - 1);
      assert s[w..][(i - 1) * w..] == s[i * w..];
    }
  }

  lemma Places(n: nat, i: nat, w: nat)
    requires i < n
    ensures n * w == w + (n - 1) * w && i * w + w <= n * w && (i > 0 ==> i * w == w + (i - 1) * w)
  {
    assert (n - i - 1) * w >= 0;
  }

  lemma {:induction false} UnitIsTaken(s: seq<Byte>, n: nat, i: nat)
    requires 2 * n <= |s| && i < n
    ensures ParseUnits(s, n)[i] == Short(s[2 * i], s[2 * i + 1])
    decreases n
  {
    if i == 0 {
      assert s[..2] == [s[0], s[1]];
      FourBytesRead(s[0], s[1], 0, 0);
    } else {
      UnitIsTaken(s[2..], n - 1, i - 1);
    }
  }

  // ---------------------------------------------------------------- every file

  /** Where object `i` starts: behind the header and the objects in front of it. */
  lemma OffsetIsSum(pieces: seq<seq<Byte>>, i: nat)
    requires i < |pieces|
    ensures Offsets(pieces)[0] == 8
    ensures i + 1 < |pieces| ==> Offsets(pieces)[i + 1] == Offsets(pieces)[i] + |pieces[i]|
    ensures i + 1 == |pieces| ==> |Body(pieces)| == Offsets(pieces)[i] + |pieces[i]|
  {
    assert pieces[..0] == [];
    assert pieces[..i + 1][..i] == pieces[..i];
    assert i + 1 == |pieces| ==> pieces[..i + 1] == pieces;
  }

  lemma HeaderIsWritten(pieces: seq<seq<Byte>>)
    ensures forall i :: 0 <= i < 8 ==> Body(pieces)[i] == "bplist00"[i] as int
    ensures Body(pieces)[8..] == Concat(pieces)
  {
    assert Body(pieces)[..8] == MAGIC + VERSION;
    HeaderIsTaken(Body(pieces)[..8] + seq(26, i => 0));
  }

  /** Header and objects, offset table, six zeros and the 26 bytes of the trailer. */
  lemma FileIsWritten(pieces: seq<seq<Byte>>)
    ensures var body, w := Body(pieces), NeededBytes(|Body(pieces)|);
      Pack(pieces) == body + (WriteRefs(Offsets(pieces), w) + [0, 0, 0, 0, 0, 0])
                    + ([w, NeededBytes(|pieces|)] + BigEndian(|pieces|, 8) + [0, 0, 0, 0, 0, 0, 0, 0] + BigEndian(|body|, 8))
  {
    BigEndianBytes(0);
    EightBytes(0);
    assert BigEndian(0, 8) == [0, 0, 0, 0, 0, 0, 0, 0];
  }

  /** A byte string is taken for a property list exactly if its header, its trailer and every object it lists are in order. */
  lemma FileIsTakenIff(bin: seq<Byte>)
    ensures ParseFile(bin).Some? <==>
      && |bin| >= 34 && (forall i :: 0 <= i < 8 ==> bin[i] == "bplist00"[i] as int)
      && var trailer := bin[|bin| - 26..];
         var count, table, offsetSize, refSize := UintToHost(trailer[2..], 8), UintToHost(trailer[18..], 8), trailer[0], trailer[1];
         && count > 0 && refSize > 0
         && forall i {:trigger ParseAt(bin, table, offsetSize, refSize, i)} :: 0 <= i < count ==>
              ParseAt(bin, table, offsetSize, refSize, i).Some?
  {
    HeaderIsTaken(bin);
  }

  lemma HeaderIsTaken(bin: seq<Byte>)
    ensures |bin| >= 34 ==>
      (bin[..6] == MAGIC && bin[6..8] == VERSION <==> forall i :: 0 <= i < 8 ==> bin[i] == "bplist00"[i] as int)
  {
    var s := "bplist00";
    assert s[0] == 'b' && s[1] == 'p' && s[2] == 'l' && s[3] == 'i' && s[4] == 's' && s[5] == 't' && s[6] == '0' && s[7] == '0';
    if |bin| >= 34 {
      if forall i :: 0 <= i < 8 ==> bin[i] == s[i] as int {
        assert bin[0] == 0x62 && bin[1] == 0x70 && bin[2] == 0x6C && bin[3] == 0x69 && bin[4] == 0x73 && bin[5] == 0x74;
        assert bin[6] == 0x30 && bin[7] == 0x30;
        assert bin[..6] == MAGIC && bin[6..8] == VERSION;
      }
      if bin[..6] == MAGIC && bin[6..8] == VERSION {
        assert bin[0] == bin[..6][0] && bin[1] == bin[..6][1] && bin[2] == bin[..6][2] && bin[3] == bin[..6][3];
        assert bin[4] == bin[..6][4] && bin[5] == bin[..6][5] && bin[6] == bin[6..8][0] && bin[7] == bin[6..8][1];
      }
    }
  }

  /** And object `i` is what stands at the offset in entry `i` of the table: see TrailerIsTaken for where that is. */
  lemma EntriesAreTaken(bin: seq<Byte>, table: nat, offsetSize: nat, refSize: nat, flat: seq<Flat>, i: nat, at: nat)
    requires refSize > 0 && ParseObjects(bin, table, offsetSize, refSize, |flat|) == Some(flat) && i < |flat|
    requires at == table + i * offsetSize
    ensures EntryHolds(bin, at, offsetSize, refSize, flat[i])
  {
    assert ParseAt(bin, table, offsetSize, refSize, i) == Some(flat[i]);
    EntryIsTaken(bin, at, offsetSize, refSize, flat[i]);
  }

  /** The trailer: widths of offsets and references, number of objects, root and offset table. */
  lemma TrailerIsTaken(bin: seq<Byte>)
    requires ParseFile(bin).Some?
    ensures |bin| >= 34
    ensures var p, trailer := ParseFile(bin).value, bin[|bin| - 26..];
      && trailer[1] > 0 && |p.flat| == UintToHost(trailer[2..], 8) && p.root == UintToHost(trailer[10..], 8)
      && ParseObjects(bin, UintToHost(trailer[18..], 8), trailer[0], trailer[1], UintToHost(trailer[2..], 8)) == Some(p.flat)
  {
  }

  /** The number at `at` is where the object stands. */
  ghost predicate EntryHolds(bin: seq<Byte>, at: nat, w: nat, refSize: nat, f: Flat) {
    && refSize > 0 && at < |bin| && at + w <= |bin| && UintToHost(bin[at..], w) <= |bin|
    && ParseObject(bin[UintToHost(bin[at..], w)..], refSize) == Some(f)
  }

  lemma EntryIsTaken(bin: seq<Byte>, at: nat, w: nat, refSize: nat, f: Flat)
    requires refSize > 0 && ParseEntry(bin, at, w, refSize) == Some(f)
    ensures EntryHolds(bin, at, w, refSize, f)
  {
  }
}
