/**
  The converters of airplay/libplist/src/bplist.c (lines 354-385, 1057-1099) in the bytes themselves: which ones a unit
  becomes, and what is made of any bytes at all, well-formed or not.
*/
module UtfFormat {
  import opened Bytes
  import opened Utf

  lemma UnitInFront(u: Unit, more: seq<Unit>)
    ensures UnitsToUtf8([u] + more) == UnitToUtf8(u) + UnitsToUtf8(more)
  {
    assert ([u] + more)[1..] == more;
  }

  /** Section 3 of RFC 3629: a unit below 128 is its own byte. */
  lemma SmallUnitIsWritten(u: nat, more: seq<Unit>)
    requires u < 128
    ensures UnitsToUtf8([u] + more) == [u] + UnitsToUtf8(more)
  {
    UnitInFront(u, more);
  }

  /** One of eleven bits is two bytes, 110xxxxx and 10xxxxxx. */
  lemma PairUnitIsWritten(b: nat, c: nat, more: seq<Unit>)
    requires 2 <= b < 32 && c < 64
    ensures UnitsToUtf8([b * 64 + c] + more) == [192 + b, 128 + c] + UnitsToUtf8(more)
  {
    UnitInFront(b * 64 + c, more);
    PairToUtf8(b, c);
  }

  /** And a larger one three, 1110xxxx and twice 10xxxxxx. */
  lemma WideUnitIsWritten(a: nat, b: nat, c: nat, more: seq<Unit>)
    requires a < 16 && b < 64 && c < 64 && (a == 0 ==> b >= 32)
    ensures UnitsToUtf8([a * 4096 + b * 64 + c] + more) == [224 + a, 128 + b, 128 + c] + UnitsToUtf8(more)
  {
    UnitInFront(a * 4096 + b * 64 + c, more);
    DigitsToUtf8(a, b, c);
  }

  // ---------------------------------------------------------------- any bytes

  /** The first three bytes, as the converter looks at them. */
  predicate ThreeBytes(s: seq<Byte>) {
    |s| >= 3 && s[0] >= 224 && s[1] >= 128 && s[2] >= 128
  }

  predicate TwoBytes(s: seq<Byte>) {
    |s| >= 2 && s[0] >= 192 && s[1] >= 128 && !ThreeBytes(s)
  }

  function Triple(c0: int, c1: int, c2: int): int {
    c0 % 16 * 4096 + c1 % 64 * 64 + c2 % 64
  }

  function Pair(c0: int, c1: int): int {
    c0 % 32 * 64 + c1 % 64
  }

  lemma TripleIsUnit(c0: Byte, c1: Byte, c2: Byte)
    ensures ThreeByteUnit(c0, c1, c2) == Triple(c0, c1, c2) && TwoByteUnit(c0, c1) == Pair(c0, c1)
    ensures 0 <= Triple(c0, c1, c2) < 65536 && 0 <= Pair(c0, c1) < 2048
  {
    UnitBits(c0, c1, c2);
  }

  lemma UnitsOfSequence(s: seq<Byte>)
    requires s != [] && SequenceLength(s) > 0
    ensures |Utf8ToUnits(s)| > 0 && Utf8ToUnits(s)[0] == SequenceUnit(s)
    ensures Utf8ToUnits(s)[1..] == Utf8ToUnits(s[SequenceLength(s)..])
  {
  }

  /**
    What is at the front of any bytes: a byte below 128 stands for itself; two or three with the marks of section 3 of
    RFC 3629 give their low bits.  Continuation bytes are only tested for the topmost bit.
  */
  lemma FrontIsRead(s: seq<Byte>)
    requires s != []
    ensures var units := Utf8ToUnits(s);
      && (s[0] < 128 ==>
            units == [s[0]] + Utf8ToUnits(s[1..]))
      && (TwoBytes(s) ==>
            |units| > 0 && units[0] == Pair(s[0], s[1]) && units[1..] == Utf8ToUnits(s[2..]))
      && (ThreeBytes(s) ==>
            |units| > 0 && units[0] == Triple(s[0], s[1], s[2]) && units[1..] == Utf8ToUnits(s[3..]))
      && (s[0] >= 128 && !TwoBytes(s) && !ThreeBytes(s) ==>
            units == [])
  {
    if SequenceLength(s) > 0 {
      UnitsOfSequence(s);
      if TwoBytes(s) {
        TripleIsUnit(s[0], s[1], 0);
      } else if ThreeBytes(s) {
        TripleIsUnit(s[0], s[1], s[2]);
      }
    }
  }
}
