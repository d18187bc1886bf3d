/** The two converters between UTF-8 and 16-bit units of airplay/libplist/src/bplist.c (lines 354-385, 1057-1099). */
module Utf {
  import opened Bytes

  type Unit = x: int | 0 <= x < 0x1_0000

  // ---------------------------------------------------------------- what the loops compute

  /** One turn of the loop of plist_utf16_to_utf8. */
  function UnitToUtf8(wc: Unit): (bytes: seq<Byte>)
    ensures 1 <= |bytes| <= 3
  {
    if wc >= 0x800 then
      [(0xE0 + wc / 0x1000), (0x80 + wc / 0x40 % 0x40), (0x80 + wc % 0x40)]
    else if wc >= 0x80 then
      [(0xC0 + wc / 0x40 % 0x20), (0x80 + wc % 0x40)]
    else
      [(wc % 0x80)]
  }

  function UnitsToUtf8(units: seq<Unit>): (bytes: seq<Byte>)
  {
    if units == [] then [] else UnitToUtf8(units[0]) + UnitsToUtf8(units[1..])
  }

  /** The branch plist_utf8_to_utf16 takes at the front of `s`: how many bytes it reads, 0 where it gives up. */
  function SequenceLength(s: seq<Byte>): (n: nat)
    requires s != []
    ensures n <= |s| && n <= 3
  {
    if s[0] >= 0xE0 && |s| > 2 && s[1] >= 0x80 && s[2] >= 0x80 then 3
    else if s[0] >= 0xC0 && |s| > 1 && s[1] >= 0x80 then 2
    else if s[0] < 0x80 then 1
    else 0
  }

  function ThreeByteUnit(c0: Byte, c1: Byte, c2: Byte): Unit {
    ((c2 % 0x40 + c1 % 4 * 0x40) + (c1 / 4 % 16) * 0x100) + (c0 % 16) * 0x1000
  }

  function TwoByteUnit(c0: Byte, c1: Byte): Unit {
    (c1 % 0x40 + c0 % 4 * 0x40) + (c0 / 4 % 8) * 0x100
  }

  /** The shifts and masks put the six low bits of each continuation byte behind the low bits of the first. */
  lemma UnitBits(c0: Byte, c1: Byte, c2: Byte)
    ensures ThreeByteUnit(c0, c1, c2) == c0 % 16 * 0x1000 + c1 % 0x40 * 0x40 + c2 % 0x40
    ensures TwoByteUnit(c0, c1) == c0 % 32 * 0x40 + c1 % 0x40
  {
    SixLowBits(c1);
    FiveLowBits(c0);
  }

  lemma SixLowBits(c: Byte)
    ensures c % 0x40 == c / 4 % 16 * 4 + c % 4
  {
  }

  lemma FiveLowBits(c: Byte)
    ensures c % 32 == c / 4 % 8 * 4 + c % 4
  {
  }

  function SequenceUnit(s: seq<Byte>): Unit
    requires s != [] && SequenceLength(s) > 0
  {
    match SequenceLength(s)
    case 3 => ThreeByteUnit(s[0], s[1], s[2])
    case 2 => TwoByteUnit(s[0], s[1])
    case _ => s[0]
  }

  function Utf8ToUnits(s: seq<Byte>): (units: seq<Unit>)
    ensures |units| <= |s|
  {
    if s == [] || SequenceLength(s) == 0 then [] else [SequenceUnit(s)] + Utf8ToUnits(s[SequenceLength(s)..])
  }

  // ---------------------------------------------------------------- round trips

  /** The digits of a unit to base 64, and the marked bytes that carry them. */
  lemma SixBitDigits(a: nat, b: nat, c: nat)
    requires b < 0x40 && c < 0x40
    ensures var n := a * 0x1000 + b * 0x40 + c; n / 0x1000 == a && n / 0x40 % 0x40 == b && n % 0x40 == c
  {
    var n := a * 0x1000 + b * 0x40 + c;
    assert n / 0x40 == a * 0x40 + b;
  }

  lemma DigitsOf(n: nat)
    ensures n == n / 0x1000 * 0x1000 + n / 0x40 % 0x40 * 0x40 + n % 0x40
  {
    var m := n / 0x40;
    assert n == m * 0x40 + n % 0x40;
    assert m == m / 0x40 * 0x40 + m % 0x40;
    assert m / 0x40 == n / 0x1000;
  }

  lemma MarkedBytes(a: nat, b: nat, c: nat)
    requires a < 16 && b < 0x40 && c < 0x40
    ensures ThreeByteUnit(0xE0 + a, 0x80 + b, 0x80 + c) == a * 0x1000 + b * 0x40 + c
  {
    UnitBits(0xE0 + a, 0x80 + b, 0x80 + c);
    assert (0xE0 + a) % 16 == a && (0x80 + b) % 0x40 == b && (0x80 + c) % 0x40 == c;
  }

  lemma MarkedPair(b: nat, c: nat)
    requires b < 0x20 && c < 0x40
    ensures TwoByteUnit(0xC0 + b, 0x80 + c) == b * 0x40 + c
  {
    UnitBits(0xC0 + b, 0x80 + c, 0);
    assert (0xC0 + b) % 32 == b && (0x80 + c) % 0x40 == c;
  }

  lemma ThreeByteFront(c0: Byte, c1: Byte, c2: Byte, rest: seq<Byte>, wc: Unit)
    requires c0 >= 0xE0 && c1 >= 0x80 && c2 >= 0x80 && ThreeByteUnit(c0, c1, c2) == wc
    ensures SequenceLength([c0, c1, c2] + rest) == 3 && SequenceUnit([c0, c1, c2] + rest) == wc
  {
  }

  lemma TwoByteFront(c0: Byte, c1: Byte, rest: seq<Byte>, wc: Unit)
    requires 0xC0 <= c0 < 0xE0 && c1 >= 0x80 && TwoByteUnit(c0, c1) == wc
    ensures SequenceLength([c0, c1] + rest) == 2 && SequenceUnit([c0, c1] + rest) == wc
  {
  }

  lemma FirstOfThree(a: nat, b: nat, c: nat, rest: seq<Byte>)
    requires a < 16 && b < 0x40 && c < 0x40
    ensures var s := [0xE0 + a, 0x80 + b, 0x80 + c] + rest; SequenceLength(s) == 3 && SequenceUnit(s) == a * 0x1000 + b * 0x40 + c
  {
    MarkedBytes(a, b, c);
    ThreeByteFront(0xE0 + a, 0x80 + b, 0x80 + c, rest, a * 0x1000 + b * 0x40 + c);
  }

  lemma FirstOfTwo(b: nat, c: nat, rest: seq<Byte>)
    requires b < 0x20 && c < 0x40
    ensures var s := [0xC0 + b, 0x80 + c] + rest; SequenceLength(s) == 2 && SequenceUnit(s) == b * 0x40 + c
  {
    MarkedPair(b, c);
    TwoByteFront(0xC0 + b, 0x80 + c, rest, b * 0x40 + c);
  }

  lemma FirstWideUnit(wc: Unit, rest: seq<Byte>)
    requires wc >= 0x800
    ensures SequenceLength(UnitToUtf8(wc) + rest) == 3 && SequenceUnit(UnitToUtf8(wc) + rest) == wc
  {
    var a, b, c := wc / 0x1000, wc / 0x40 % 0x40, wc % 0x40;
    DigitsOf(wc);
    FirstOfThree(a, b, c, rest);
    assert UnitToUtf8(wc) == [0xE0 + a, 0x80 + b, 0x80 + c];
  }

  lemma PairDigits(wc: nat)
    requires wc < 0x800
    ensures wc / 0x40 < 0x20 && wc / 0x40 % 0x20 == wc / 0x40 && wc == wc / 0x40 * 0x40 + wc % 0x40
  {
  }

  lemma FirstPairUnit(wc: Unit, rest: seq<Byte>)
    requires 0x80 <= wc < 0x800
    ensures SequenceLength(UnitToUtf8(wc) + rest) == 2 && SequenceUnit(UnitToUtf8(wc) + rest) == wc
  {
    PairDigits(wc);
    FirstOfTwo(wc / 0x40, wc % 0x40, rest);
  }

  lemma FirstUnit(wc: Unit, rest: seq<Byte>)
    ensures SequenceLength(UnitToUtf8(wc) + rest) == |UnitToUtf8(wc)|
    ensures SequenceUnit(UnitToUtf8(wc) + rest) == wc
  {
    if wc >= 0x800 {
      FirstWideUnit(wc, rest);
    } else if wc >= 0x80 {
      FirstPairUnit(wc, rest);
    }
  }

  /** plist_utf8_to_utf16 undoes plist_utf16_to_utf8, lone surrogates and zero included. */
  lemma {:induction false} UnitsRoundTrip(units: seq<Unit>)
    ensures Utf8ToUnits(UnitsToUtf8(units)) == units
  {
    if units != [] {
      var rest := UnitsToUtf8(units[1..]);
      FirstUnit(units[0], rest);
      UnitsRoundTrip(units[1..]);
      assert (UnitToUtf8(units[0]) + rest)[|UnitToUtf8(units[0])|..] == rest;
    }
  }

  predicate Continuation(b: Byte) {
    0x80 <= b < 0xC0
  }

  /**
    Section 3 of RFC 3629, for characters of at most three bytes: the shortest form, with continuation bytes in
    their range.  (Surrogates, which that section excludes, make no difference to the converters and are let in.)
  */
  predicate ShortestForm(s: seq<Byte>) {
    s == [] ||
    (if s[0] < 0x80 then ShortestForm(s[1..])
     else if 0xC2 <= s[0] < 0xE0 then |s| > 1 && Continuation(s[1]) && ShortestForm(s[2..])
     else if 0xE0 <= s[0] < 0xF0 then
       |s| > 2 && Continuation(s[1]) && Continuation(s[2]) && (s[0] == 0xE0 ==> s[1] >= 0xA0) && ShortestForm(s[3..])
     else false)
  }

  lemma {:induction false} OutputIsShortestForm(units: seq<Unit>)
    ensures ShortestForm(UnitsToUtf8(units))
  {
    if units != [] {
      OutputIsShortestForm(units[1..]);
      UnitThenShortest(units[0], UnitsToUtf8(units[1..]));
    }
  }

  lemma UnitThenShortest(unit: Unit, rest: seq<Byte>)
    requires ShortestForm(rest)
    ensures ShortestForm(UnitToUtf8(unit) + rest)
  {
    var first := UnitToUtf8(unit);
    var s := first + rest;
    if unit >= 0x800 {
      assert s[3..] == rest;
    } else if unit >= 0x80 {
      assert s[2..] == rest;
    } else {
      assert s[1..] == rest;
    }
  }

  lemma FirstSequence(s: seq<Byte>)
    requires s != [] && ShortestForm(s)
    ensures SequenceLength(s) > 0 && UnitToUtf8(SequenceUnit(s)) == s[..SequenceLength(s)]
    ensures ShortestForm(s[SequenceLength(s)..])
  {
    if s[0] >= 0xE0 {
      ThreeByteSequence(s[0], s[1], s[2]);
    } else if s[0] >= 0xC0 {
      TwoByteSequence(s[0], s[1]);
    }
  }

  lemma DigitsToUtf8(a: nat, b: nat, c: nat)
    requires a < 16 && b < 0x40 && c < 0x40 && (a == 0 ==> b >= 0x20)
    ensures UnitToUtf8(a * 0x1000 + b * 0x40 + c) == [0xE0 + a, 0x80 + b, 0x80 + c]
  {
    SixBitDigits(a, b, c);
  }

  lemma ThreeByteSequence(c0: Byte, c1: Byte, c2: Byte)
    requires 0xE0 <= c0 < 0xF0 && Continuation(c1) && Continuation(c2) && (c0 == 0xE0 ==> c1 >= 0xA0)
    ensures UnitToUtf8(ThreeByteUnit(c0, c1, c2)) == [c0, c1, c2]
  {
    var a, b, c := c0 - 0xE0, c1 - 0x80, c2 - 0x80;
    MarkedBytes(a, b, c);
    DigitsToUtf8(a, b, c);
  }

  lemma PairToUtf8(b: nat, c: nat)
    requires 2 <= b < 0x20 && c < 0x40
    ensures UnitToUtf8(b * 0x40 + c) == [0xC0 + b, 0x80 + c]
  {
    SixBitDigits(0, b, c);
    assert b % 0x20 == b && b % 0x40 == b;
  }

  lemma TwoByteSequence(c0: Byte, c1: Byte)
    requires 0xC2 <= c0 < 0xE0 && Continuation(c1)
    ensures UnitToUtf8(TwoByteUnit(c0, c1)) == [c0, c1]
  {
    var b, c := c0 - 0xC0, c1 - 0x80;
    MarkedPair(b, c);
    PairToUtf8(b, c);
  }

  /** The other way round the text survives exactly if it is in shortest form. */
  lemma {:induction false} Utf8RoundTrip(s: seq<Byte>)
    ensures UnitsToUtf8(Utf8ToUnits(s)) == s <==> ShortestForm(s)
  {
    OutputIsShortestForm(Utf8ToUnits(s));
    if ShortestForm(s) {
      ShortestFormSurvives(s);
    }
  }

  lemma UnitsOfFirst(s: seq<Byte>)
    requires s != [] && SequenceLength(s) > 0
    ensures UnitsToUtf8(Utf8ToUnits(s)) == UnitToUtf8(SequenceUnit(s)) + UnitsToUtf8(Utf8ToUnits(s[SequenceLength(s)..]))
  {
    var units := Utf8ToUnits(s);
    assert units == [SequenceUnit(s)] + Utf8ToUnits(s[SequenceLength(s)..]);
    assert units[1..] == Utf8ToUnits(s[SequenceLength(s)..]);
  }

  lemma {:induction false} ShortestFormSurvives(s: seq<Byte>)
    requires ShortestForm(s)
    ensures UnitsToUtf8(Utf8ToUnits(s)) == s
  {
    if s != [] {
      FirstSequence(s);
      var n := SequenceLength(s);
      ShortestFormSurvives(s[n..]);
      UnitsOfFirst(s);
      assert s == s[..n] + s[n..];
    }
  }

  // ---------------------------------------------------------------- the loops

  lemma {:induction false} UnitsToUtf8Snoc(units: seq<Unit>, wc: Unit)
    ensures UnitsToUtf8(units + [wc]) == UnitsToUtf8(units) + UnitToUtf8(wc)
  {
    if units == [] {
      assert units + [wc] == [wc];
    } else {
      UnitsToUtf8Snoc(units[1..], wc);
      assert (units + [wc])[1..] == units[1..] + [wc];
    }
  }

  /** The branches of the loop of plist_utf16_to_utf8. */
  method PutUnit(outbuf: array<Byte>, p: nat, wc: Unit) returns (next: nat)
    requires p + 3 <= outbuf.Length
    modifies outbuf
    ensures p < next <= p + 3
    ensures outbuf[..next] == old(outbuf[..p]) + UnitToUtf8(wc)
  {
    if wc >= 0x800 {
      outbuf[p] := 0xE0 + wc / 0x1000;
      outbuf[p + 1] := 0x80 + wc / 0x40 % 0x40;
      outbuf[p + 2] := 0x80 + wc % 0x40;
      next := p + 3;
    } else if wc >= 0x80 {
      outbuf[p] := 0xC0 + wc / 0x40 % 0x20;
      outbuf[p + 1] := 0x80 + wc % 0x40;
      next := p + 2;
    } else {
      outbuf[p] := wc % 0x80;
      next := p + 1;
    }
  }

  /**
    plist_utf16_to_utf8: nothing for no units; else every write, the final zero included, is inside the
    3 * (len + 1) bytes allocated.  The counts stay at the caller's zeros where there is nothing to convert.
  */
  method Utf16ToUtf8(unistr: seq<Unit>) returns (result: array?<Byte>, itemsRead: nat, itemsWritten: nat)
    ensures result == null <==> unistr == []
    ensures result != null ==> fresh(result) && result.Length == 3 * (|unistr| + 1)
    ensures itemsRead == |unistr| && (result != null ==> itemsWritten < result.Length)
    ensures result != null ==> result[..itemsWritten] == UnitsToUtf8(unistr) && result[itemsWritten] == 0
    ensures result == null ==> itemsWritten == 0
  {
    if unistr == [] {
      return null, 0, 0;
    }
    var len := |unistr|;
    var outbuf := new Byte[3 * (len + 1)];
    var p, i := 0, 0;
    while i < len
      invariant 0 <= i <= len && 0 <= p <= 3 * i
      invariant outbuf[..p] == UnitsToUtf8(unistr[..i])
    {
      var wc := unistr[i];
      UnitsToUtf8Snoc(unistr[..i], wc);
      assert unistr[..i + 1] == unistr[..i] + [wc];
      i := i + 1;
      p := PutUnit(outbuf, p, wc);
    }
    outbuf[p] := 0;
    assert unistr[..len] == unistr;
    return outbuf, i, p;
  }

  /** One turn of the loop below: what it writes and how far it moves. */
  /** With `written` for what is in front of position `i`, and what is still to be decoded, one has it all. */
  ghost predicate Decoded(written: seq<Unit>, unistr: seq<Byte>, i: nat) {
    |written| <= i <= |unistr| && written + Utf8ToUnits(unistr[i..]) == Utf8ToUnits(unistr)
  }

  lemma NothingDecoded(unistr: seq<Byte>)
    ensures Decoded([], unistr, 0)
  {
    assert unistr[0..] == unistr;
  }

  lemma NextSequence(unistr: seq<Byte>, i: nat, written: seq<Unit>)
    requires i < |unistr| && SequenceLength(unistr[i..]) > 0 && Decoded(written, unistr, i)
    ensures Decoded(written + [SequenceUnit(unistr[i..])], unistr, i + SequenceLength(unistr[i..]))
  {
    var s := unistr[i..];
    assert s[SequenceLength(s)..] == unistr[i + SequenceLength(s)..];
  }

  /** plist_utf8_to_utf16: every write is inside the size + 1 units allocated. */
  method Utf8ToUtf16(unistr: seq<Byte>) returns (outbuf: array<Unit>, itemsRead: nat, itemsWritten: nat)
    ensures fresh(outbuf) && outbuf.Length == |unistr| + 1
    ensures itemsRead <= |unistr| && itemsWritten < outbuf.Length
    ensures outbuf[..itemsWritten] == Utf8ToUnits(unistr) && outbuf[itemsWritten] == 0
    ensures itemsRead == |unistr| || SequenceLength(unistr[itemsRead..]) == 0
  {
    var size := |unistr|;
    outbuf := new Unit[size + 1];
    var p, i := 0, 0;
    NothingDecoded(unistr);
    assert outbuf[..0] == [];
    while i < size
      invariant 0 <= p <= i <= size && Decoded(outbuf[..p], unistr, i)
    {
      var unit, length := ReadSequence(unistr, i);
      if length == 0 {
        break;
      }
      NextSequence(unistr, i, outbuf[..p]);
      ghost var before := outbuf[..p];
      outbuf[p] := unit;
      assert outbuf[..p + 1] == before + [unit];
      p, i := p + 1, i + length;
    }
    itemsRead, itemsWritten := i, p;
    StopsHere(outbuf[..p], unistr, i);
    outbuf[p] := 0;
  }

  /** Nothing is decoded behind the end, or from an invalid byte on. */
  lemma StopsHere(written: seq<Unit>, unistr: seq<Byte>, i: nat)
    requires Decoded(written, unistr, i) && (i == |unistr| || SequenceLength(unistr[i..]) == 0)
    ensures written == Utf8ToUnits(unistr)
  {
  }

  /** The branches of that loop; a length of 0 is its `break` at an invalid byte. */
  method ReadSequence(unistr: seq<Byte>, i: nat) returns (unit: Unit, length: nat)
    requires i < |unistr|
    ensures length == SequenceLength(unistr[i..])
    ensures length > 0 ==> unit == SequenceUnit(unistr[i..])
  {
    var size := |unistr|;
    var c0 := unistr[i];
    var c1: Byte := if i < size - 1 then unistr[i + 1] else 0;
    var c2: Byte := if i < size - 2 then unistr[i + 2] else 0;
    if c0 >= 0xE0 && i < size - 2 && c1 >= 0x80 && c2 >= 0x80 {
      return ThreeByteUnit(c0, c1, c2), 3;
    } else if c0 >= 0xC0 && i < size - 1 && c1 >= 0x80 {
      return TwoByteUnit(c0, c1), 2;
    } else if c0 < 0x80 {
      return c0, 1;
    } else {
      return 0, 0;
    }
  }
}
