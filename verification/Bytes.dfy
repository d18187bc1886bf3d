/** Bytes, machine words and the big-endian numbers of binary property lists (airplay/libplist/src/bplist.c). */
module Bytes {
  type Byte = x: int | 0 <= x < 256

  lemma Associate(a: seq<Byte>, b: seq<Byte>, c: seq<Byte>)
    ensures a + b + c == a + (b + c)
  {
  }

  type Word64 = x: int | 0 <= x < 0x1_0000_0000_0000_0000

  /** 256^w: one more than the largest number `w` bytes hold. */
  function Power256(w: nat): (p: nat)
    ensures p >= 1
  {
    if w == 0 then 1 else 256 * Power256(w - 1)
  }

  /** The low `w` bytes of `n`, most significant first: memcpy from a little-endian word, then byte_convert. */
  function BigEndian(n: nat, w: nat): (bytes: seq<Byte>)
    ensures |bytes| == w
  {
    if w == 0 then [] else BigEndian(n / 256, w - 1) + [n % 256]
  }

  /** The first `w` bytes of a word in memory. */
  function LittleEndian(n: nat, w: nat): (bytes: seq<Byte>)
    ensures |bytes| == w
  {
    if w == 0 then [] else [n % 256] + LittleEndian(n / 256, w - 1)
  }

  function Reversed(s: seq<Byte>): (r: seq<Byte>)
    ensures |r| == |s|
  {
    seq(|s|, i requires 0 <= i < |s| => s[|s| - 1 - i])
  }

  lemma {:induction false} ReversedWord(n: nat, w: nat)
    ensures Reversed(LittleEndian(n, w)) == BigEndian(n, w)
  {
    if w > 0 {
      ReversedWord(n / 256, w - 1);
      var rest := LittleEndian(n / 256, w - 1);
      assert Reversed([n % 256] + rest) == Reversed(rest) + [n % 256];
    }
  }

  function FromBigEndian(bytes: seq<Byte>): (n: nat)
    ensures n < Power256(|bytes|)
  {
    if bytes == [] then 0 else FromBigEndian(bytes[..|bytes| - 1]) * 256 + bytes[|bytes| - 1]
  }

  lemma {:induction false} BigEndianRoundTrip(n: nat, w: nat)
    requires n < Power256(w)
    ensures FromBigEndian(BigEndian(n, w)) == n
  {
    if w > 0 {
      BigEndianRoundTrip(n / 256, w - 1);
      assert BigEndian(n, w)[..w - 1] == BigEndian(n / 256, w - 1);
    }
  }

  /** get_needed_bytes */
  function NeededBytes(x: nat): (w: nat)
    ensures w in {1, 2, 3, 4, 8}
    ensures x < 0x1_0000_0000_0000_0000 ==> x < Power256(w)
  {
    WordWidths();
    if x < 0x100 then 1 else if x < 0x1_0000 then 2 else if x < 0x100_0000 then 3 else if x < 0x1_0000_0000 then 4 else 8
  }

  lemma WordWidths()
    ensures Power256(1) == 0x100 && Power256(2) == 0x1_0000 && Power256(3) == 0x100_0000
    ensures Power256(4) == 0x1_0000_0000 && Power256(8) == 0x1_0000_0000_0000_0000
  {
    assert Power256(1) == 256 * Power256(0) && Power256(2) == 256 * Power256(1) && Power256(3) == 256 * Power256(2);
    assert Power256(4) == 256 * Power256(3) && Power256(5) == 256 * Power256(4) && Power256(6) == 256 * Power256(5);
    assert Power256(7) == 256 * Power256(6) && Power256(8) == 256 * Power256(7);
  }

  /** UINT_TO_HOST: the widths it does not know read a single byte. */
  function UintToHost(bytes: seq<Byte>, w: nat): (n: Word64)
    requires 1 <= |bytes| && w <= |bytes|
  {
    WordWidths();
    if w in {2, 3, 4, 8} then FromBigEndian(bytes[..w]) else bytes[0]
  }

  lemma UintToHostReads(n: nat, w: nat, rest: seq<Byte>)
    requires w in {1, 2, 3, 4, 8} && n < Power256(w)
    ensures UintToHost(BigEndian(n, w) + rest, w) == n
  {
    BigEndianRoundTrip(n, w);
    assert (BigEndian(n, w) + rest)[..w] == BigEndian(n, w);
    if w == 1 {
      assert BigEndian(n, 1) == [n % 256];
      assert Power256(1) == 256 * Power256(0);
    }
  }

  // ---------------------------------------------------------------- the loops

  /** byte_convert on a little-endian machine: the bytes at `at` in reverse. */
  method ByteConvert(a: array<Byte>, at: nat, size: nat)
    requires at + size <= a.Length
    modifies a
    ensures a[at..at + size] == Reversed(old(a[at..at + size]))
    ensures a[..at] == old(a[..at]) && a[at + size..] == old(a[at + size..])
  {
    ghost var was, mirror := a[..], 2 * at + size - 1;
    var i := 0;
    while i < size / 2
      invariant 0 <= i <= size / 2
      invariant forall p :: at <= p < at + i || at + size - i <= p < at + size ==> a[p] == was[mirror - p]
      invariant forall p :: 0 <= p < a.Length && !(at <= p < at + i || at + size - i <= p < at + size) ==> a[p] == was[p]
    {
      var j := size - 1 - i;
      a[at + i], a[at + j] := a[at + j], a[at + i];
      i := i + 1;
    }
    MirrorIsReversed(was, a[..], at, size);
  }

  lemma MirrorIsReversed(was: seq<Byte>, now: seq<Byte>, at: nat, size: nat)
    requires at + size <= |was| == |now|
    requires forall p :: at <= p < at + size ==> now[p] == was[2 * at + size - 1 - p]
    ensures now[at..at + size] == Reversed(was[at..at + size])
  {
  }

  /** memcpy */
  method CopyBytes(a: array<Byte>, at: nat, s: seq<Byte>)
    requires at + |s| <= a.Length
    modifies a
    ensures a[at..at + |s|] == s
    ensures a[..at] == old(a[..at]) && a[at + |s|..] == old(a[at + |s|..])
  {
    var i := 0;
    while i < |s|
      invariant 0 <= i <= |s|
      invariant a[at..at + i] == s[..i]
      invariant a[..at] == old(a[..at]) && a[at + |s|..] == old(a[at + |s|..])
    {
      a[at + i] := s[i];
      i := i + 1;
    }
  }

  /** The two together put a number in its place, most significant byte first. */
  method PutNumber(a: array<Byte>, at: nat, n: nat, w: nat)
    requires at + w <= a.Length
    modifies a
    ensures a[at..at + w] == BigEndian(n, w)
    ensures a[..at] == old(a[..at]) && a[at + w..] == old(a[at + w..])
  {
    ReversedWord(n, w);
    CopyBytes(a, at, LittleEndian(n, w));
    ByteConvert(a, at, w);
  }
}
