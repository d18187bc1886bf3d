/**
  Base64 as airplay/libplist/src/base64.cc writes and reads it (section 4 of RFC 4648), and the line wrapping of
  format_string (airplay/libplist/src/xplist.cc, lines 73-107).
*/
module Base64 {
  import opened Bytes

  // ---------------------------------------------------------------- the alphabet

  type Sextet = x: int | 0 <= x < 64

  const PAD: Byte := 61

  /** base64_str */
  function Letter(v: Sextet): (c: Byte)
    ensures c != PAD && c != 0 && !IsSeparator(c)
  {
    if v < 26 then 65 + v else if v < 52 then 71 + v else if v < 62 then v - 4 else if v == 62 then 43 else 47
  }

  /** base64_table; -1 for what is not in the alphabet. */
  function Value(c: Byte): (v: int)
    ensures -1 <= v < 64
  {
    if 65 <= c <= 90 then c - 65 else if 97 <= c <= 122 then c - 71 else if 48 <= c <= 57 then c + 4
    else if c == 43 then 62 else if c == 47 then 63 else -1
  }

  lemma LetterHasValue(v: Sextet)
    ensures Value(Letter(v)) == v && Value(PAD) == -1
  {
  }

  /** The separators of strtok: carriage return, line feed, tab and space. */
  predicate IsSeparator(c: Byte) {
    c == 13 || c == 10 || c == 9 || c == 32
  }

  // ---------------------------------------------------------------- base64encode

  function Out0(b0: Byte): Sextet {
    b0 / 4
  }

  function Out1(b0: Byte, b1: Byte): Sextet {
    b0 % 4 * 16 + b1 / 16
  }

  function Out2(b1: Byte, b2: Byte): Sextet {
    b1 % 16 * 4 + b2 / 64
  }

  function Out3(b2: Byte): Sextet {
    b2 % 64
  }

  /** Four characters for three bytes, or for the last one or two. */
  function Quad(s: seq<Byte>): (q: seq<Byte>)
    requires s != []
    ensures |q| == 4
  {
    var b0, b1, b2 := s[0], if |s| > 1 then s[1] else 0, if |s| > 2 then s[2] else 0;
    [Letter(Out0(b0)), Letter(Out1(b0, b1)), if |s| > 1 then Letter(Out2(b1, b2)) else PAD,
     if |s| > 2 then Letter(Out3(b2)) else PAD]
  }

  function Rest(s: seq<Byte>): (r: seq<Byte>)
    requires s != []
    ensures |r| < |s|
  {
    if |s| > 3 then s[3..] else []
  }

  function Encode(s: seq<Byte>): (text: seq<Byte>)
    decreases |s|
  {
    if s == [] then [] else Quad(s) + Encode(Rest(s))
  }

  /** The characters for `n` bytes. */
  function TextLength(n: nat): nat {
    (n + 2) / 3 * 4
  }

  lemma LengthSteps(n: nat)
    ensures n > 3 ==> TextLength(n) == 4 + TextLength(n - 3)
    ensures 0 < n <= 3 ==> TextLength(n) == 4
    ensures TextLength(n) <= n / 3 * 4 + 4
  {
    assert n > 3 ==> (n - 3 + 2) / 3 == (n + 2) / 3 - 1;
  }

  lemma {:induction false} EncodedLength(s: seq<Byte>)
    ensures |Encode(s)| == TextLength(|s|)
    decreases |s|
  {
    if s != [] {
      EncodedLength(Rest(s));
      LengthSteps(|s|);
    }
  }

  lemma {:induction false} EncodedText(s: seq<Byte>)
    ensures forall i :: 0 <= i < |Encode(s)| ==> Encode(s)[i] != 0 && !IsSeparator(Encode(s)[i])
    decreases |s|
  {
    if s != [] {
      EncodedText(Rest(s));
    }
  }

  /** The four writes of one turn of the loop. */
  method PutQuad(outbuf: array<Byte>, m: nat, buf: seq<Byte>, n: nat)
    requires n < |buf| && m + 4 <= outbuf.Length
    modifies outbuf
    ensures outbuf[..m + 4] == old(outbuf[..m]) + Quad(buf[n..])
  {
    var input0 := buf[n];
    var input1 := if n + 1 < |buf| then buf[n + 1] else 0;
    var input2 := if n + 2 < |buf| then buf[n + 2] else 0;
    outbuf[m] := Letter(Out0(input0));
    outbuf[m + 1] := Letter(Out1(input0, input1));
    outbuf[m + 2] := if n + 1 < |buf| then Letter(Out2(input1, input2)) else PAD;
    outbuf[m + 3] := if n + 2 < |buf| then Letter(Out3(input2)) else PAD;
  }

  /** What is still to be encoded. */
  function From(buf: seq<Byte>, n: nat): seq<Byte> {
    if n < |buf| then buf[n..] else []
  }

  lemma EncodeStep(done: seq<Byte>, buf: seq<Byte>, n: nat)
    requires n < |buf|
    ensures done + Encode(From(buf, n)) == (done + Quad(buf[n..])) + Encode(From(buf, n + 3))
    ensures |Encode(From(buf, n))| == 4 + |Encode(From(buf, n + 3))|
  {
    assert Rest(buf[n..]) == From(buf, n + 3);
  }

  /** The buffer of `*size / 3 * 4 + 5` bytes holds every write, the final zero included. */
  method Base64Encode(buf: seq<Byte>) returns (result: array?<Byte>, size: nat)
    ensures result == null <==> buf == []
    ensures result != null ==> fresh(result) && result.Length == |buf| / 3 * 4 + 5
    ensures result != null ==> size < result.Length && result[..size] == Encode(buf) && result[size] == 0
  {
    if buf == [] {
      return null, 0;
    }
    var outlen := |buf| / 3 * 4;
    var outbuf := new Byte[outlen + 5];
    EncodedLength(buf);
    LengthSteps(|buf|);
    var n, m := 0, 0;
    while n < |buf|
      invariant m + |Encode(From(buf, n))| == |Encode(buf)| < outbuf.Length
      invariant outbuf[..m] + Encode(From(buf, n)) == Encode(buf)
      decreases |buf| - n
    {
      EncodeStep(outbuf[..m], buf, n);
      PutQuad(outbuf, m, buf, n);
      n, m := n + 3, m + 4;
    }
    outbuf[m] := 0;
    return outbuf, m;
  }

  // ---------------------------------------------------------------- base64decode

  /** The bytes of four characters: one for each of the last three that is in the alphabet. */
  function DecodeQuad(w1: int, w2: int, w3: int, w4: int): (bytes: seq<Byte>)
    ensures |bytes| <= 3
  {
    (if w2 >= 0 then [(w1 * 4 + w2 / 16) % 256] else []) +
    (if w3 >= 0 then [(w2 * 16 + w3 / 4) % 256] else []) +
    (if w4 >= 0 then [(w3 * 64 + w4) % 256] else [])
  }

  /** base64decode_block: whole groups of four characters; what is left over is dropped. */
  function DecodeBlock(data: seq<Byte>): (bytes: seq<Byte>)
    ensures |bytes| <= |data| / 4 * 3
  {
    if |data| < 4 then [] else DecodeQuad(Value(data[0]), Value(data[1]), Value(data[2]), Value(data[3])) + DecodeBlock(data[4..])
  }

  /** The length of the token that starts here. */
  function TokenLength(text: seq<Byte>): (n: nat)
    ensures n <= |text| && (forall i :: 0 <= i < n ==> !IsSeparator(text[i])) && (n < |text| ==> IsSeparator(text[n]))
  {
    if text == [] || IsSeparator(text[0]) then 0 else 1 + TokenLength(text[1..])
  }

  /** base64decode: token by token. */
  function Decode(text: seq<Byte>): seq<Byte>
    decreases |text|
  {
    if text == [] then []
    else if IsSeparator(text[0]) then Decode(text[1..])
    else
      var n := TokenLength(text);
      DecodeBlock(text[..n]) + Decode(text[n..])
  }

  lemma QuartersAdd(a: nat, b: nat)
    ensures a / 4 * 3 + b / 4 * 3 <= (a + b) / 4 * 3
  {
  }

  lemma {:induction false} DecodedLength(text: seq<Byte>)
    ensures |Decode(text)| <= |text| / 4 * 3
    decreases |text|
  {
    if text != [] {
      if IsSeparator(text[0]) {
        DecodedLength(text[1..]);
      } else {
        var n := TokenLength(text);
        DecodedLength(text[n..]);
        QuartersAdd(n, |text| - n);
      }
    }
  }

  // ---------------------------------------------------------------- decoding undoes encoding

  lemma FirstByte(b0: Byte, b1: Byte)
    ensures (Out0(b0) * 4 + Out1(b0, b1) / 16) % 256 == b0
  {
    assert b1 / 16 < 16 && Out1(b0, b1) / 16 == b0 % 4;
  }

  lemma SecondByte(b0: Byte, b1: Byte, b2: Byte)
    ensures (Out1(b0, b1) * 16 + Out2(b1, b2) / 4) % 256 == b1
  {
    assert b2 / 64 < 4 && Out2(b1, b2) / 4 == b1 % 16;
    assert Out1(b0, b1) * 16 + b1 % 16 == b0 % 4 * 256 + b1;
  }

  lemma ThirdByte(b1: Byte, b2: Byte)
    ensures (Out2(b1, b2) * 64 + Out3(b2)) % 256 == b2
  {
    assert Out2(b1, b2) * 64 + Out3(b2) == b1 % 16 * 256 + b2;
  }

  lemma QuadOf(w1: Sextet, w2: Sextet, w3: Sextet, w4: Sextet, b0: Byte, b1: Byte, b2: Byte)
    requires (w1 * 4 + w2 / 16) % 256 == b0 && (w2 * 16 + w3 / 4) % 256 == b1 && (w3 * 64 + w4) % 256 == b2
    ensures DecodeQuad(w1, w2, w3, w4) == [b0, b1, b2]
    ensures DecodeQuad(w1, w2, w3, -1) == [b0, b1] && DecodeQuad(w1, w2, -1, -1) == [b0]
  {
  }

  lemma ThreeBytes(b0: Byte, b1: Byte, b2: Byte)
    ensures DecodeQuad(Out0(b0), Out1(b0, b1), Out2(b1, b2), Out3(b2)) == [b0, b1, b2]
    ensures DecodeQuad(Out0(b0), Out1(b0, b1), Out2(b1, b2), -1) == [b0, b1]
    ensures DecodeQuad(Out0(b0), Out1(b0, b1), -1, -1) == [b0]
  {
    FirstByte(b0, b1);
    SecondByte(b0, b1, b2);
    ThirdByte(b1, b2);
    QuadOf(Out0(b0), Out1(b0, b1), Out2(b1, b2), Out3(b2), b0, b1, b2);
  }

  lemma QuadRoundTrip(s: seq<Byte>)
    requires s != []
    ensures var q := Quad(s);
      DecodeQuad(Value(q[0]), Value(q[1]), Value(q[2]), Value(q[3])) == if |s| > 3 then s[..3] else s
  {
    var b0, b1, b2 := s[0], if |s| > 1 then s[1] else 0, if |s| > 2 then s[2] else 0;
    ThreeBytes(b0, b1, b2);
    LetterHasValue(Out0(b0));
    LetterHasValue(Out1(b0, b1));
    LetterHasValue(Out2(b1, b2));
    LetterHasValue(Out3(b2));
  }

  lemma {:induction false} BlockRoundTrip(s: seq<Byte>)
    ensures DecodeBlock(Encode(s)) == s
    decreases |s|
  {
    if s != [] {
      QuadRoundTrip(s);
      BlockRoundTrip(Rest(s));
      assert Encode(s)[4..] == Encode(Rest(s));
      assert s == (if |s| > 3 then s[..3] else s) + Rest(s);
    }
  }

  /** A text without separators is one token. */
  lemma {:induction false} OneToken(text: seq<Byte>)
    requires forall i :: 0 <= i < |text| ==> !IsSeparator(text[i])
    ensures TokenLength(text) == |text| && Decode(text) == DecodeBlock(text)
  {
    assert text[..|text|] == text && text[|text|..] == [];
  }

  /** base64decode of base64encode is the identity. */
  lemma RoundTrip(s: seq<Byte>)
    ensures Decode(Encode(s)) == s
  {
    EncodedText(s);
    OneToken(Encode(s));
    BlockRoundTrip(s);
  }

  // ---------------------------------------------------------------- format_string

  const NEWLINE: Byte := 10
  const TAB: Byte := 9

  /** A line break and `depth` tabs. */
  function Indent(depth: nat): (s: seq<Byte>)
    ensures |s| == depth + 1 && forall i :: 0 <= i < |s| ==> IsSeparator(s[i])
  {
    [NEWLINE] + seq(depth, i => TAB)
  }

  /** Lines of `cols` characters and a last one shorter than that, if only empty, each behind an indent. */
  function Wrapped(text: seq<Byte>, cols: nat, depth: nat): seq<Byte>
    requires cols > 0
  {
    if |text| < cols then Indent(depth) + text
    else Indent(depth) + text[..cols] + Wrapped(text[cols..], cols, depth)
  }

  function Format(text: seq<Byte>, cols: nat, depth: nat): seq<Byte>
    requires cols > 0
  {
    Wrapped(text, cols, depth) + Indent(depth)
  }

  lemma {:induction false} SkipSeparators(a: seq<Byte>, b: seq<Byte>)
    requires forall i :: 0 <= i < |a| ==> IsSeparator(a[i])
    ensures Decode(a + b) == Decode(b)
  {
    if a == [] {
      assert a + b == b;
    } else {
      assert (a + b)[1..] == a[1..] + b;
      SkipSeparators(a[1..], b);
    }
  }

  lemma {:induction false} TokenThen(a: seq<Byte>, b: seq<Byte>)
    requires (forall i :: 0 <= i < |a| ==> !IsSeparator(a[i])) && (b == [] || IsSeparator(b[0]))
    ensures TokenLength(a + b) == |a|
  {
    if a != [] {
      assert (a + b)[1..] == a[1..] + b;
      TokenThen(a[1..], b);
    }
  }

  /** One line, and what comes behind its line break. */
  lemma DecodeLine(indent: seq<Byte>, line: seq<Byte>, more: seq<Byte>)
    requires (forall i :: 0 <= i < |indent| ==> IsSeparator(indent[i])) && more != [] && IsSeparator(more[0])
    requires forall i :: 0 <= i < |line| ==> !IsSeparator(line[i])
    ensures Decode(indent + line + more) == DecodeBlock(line) + Decode(more)
  {
    assert indent + line + more == indent + (line + more);
    SkipSeparators(indent, line + more);
    TokenThen(line, more);
    if line == [] {
      assert line + more == more;
    } else {
      assert (line + more)[..|line|] == line && (line + more)[|line|..] == more;
    }
  }

  predicate Plain(text: seq<Byte>) {
    forall i :: 0 <= i < |text| ==> !IsSeparator(text[i])
  }

  /** What decoding makes of the lines. */
  function DecodeLines(text: seq<Byte>, cols: nat): seq<Byte>
    requires cols > 0
  {
    if |text| < cols then DecodeBlock(text) else DecodeBlock(text[..cols]) + DecodeLines(text[cols..], cols)
  }

  lemma {:induction false} DecodeWrapped(text: seq<Byte>, cols: nat, depth: nat, tail: seq<Byte>)
    requires cols > 0 && Plain(text) && tail != [] && forall i :: 0 <= i < |tail| ==> IsSeparator(tail[i])
    ensures Decode(Wrapped(text, cols, depth) + tail) == DecodeLines(text, cols)
    decreases |text|
  {
    if |text| < cols {
      DecodeLine(Indent(depth), text, tail);
      SkipSeparators(tail, []);
      assert tail + [] == tail;
    } else {
      var more := Wrapped(text[cols..], cols, depth) + tail;
      DecodeWrapped(text[cols..], cols, depth, tail);
      DecodeLine(Indent(depth), text[..cols], more);
      assert Wrapped(text, cols, depth) + tail == Indent(depth) + text[..cols] + more;
    }
  }

  lemma {:induction false} BlocksJoin(a: seq<Byte>, b: seq<Byte>)
    requires |a| % 4 == 0
    ensures DecodeBlock(a + b) == DecodeBlock(a) + DecodeBlock(b)
  {
    if a == [] {
      assert a + b == b;
    } else {
      assert (a + b)[4..] == a[4..] + b;
      BlocksJoin(a[4..], b);
    }
  }

  lemma {:induction false} LinesJoin(text: seq<Byte>, cols: nat)
    requires cols > 0 && cols % 4 == 0
    ensures DecodeLines(text, cols) == DecodeBlock(text)
  {
    if |text| >= cols {
      LinesJoin(text[cols..], cols);
      BlocksJoin(text[..cols], text[cols..]);
      assert text == text[..cols] + text[cols..];
    }
  }

  /** Groups of four that are whole on their line. */
  function WholeGroups(n: nat, cols: nat): nat
    requires cols > 0
  {
    if n < cols then n / 4 else cols / 4 + WholeGroups(n - cols, cols)
  }

  lemma {:induction false} LinesAreShort(text: seq<Byte>, cols: nat)
    requires cols > 0
    ensures |DecodeLines(text, cols)| <= 3 * WholeGroups(|text|, cols)
  {
    if |text| >= cols {
      LinesAreShort(text[cols..], cols);
    }
  }

  lemma {:induction false} GroupsAreFew(n: nat, cols: nat)
    requires cols > 0
    ensures 4 * WholeGroups(n, cols) <= n
  {
    if n >= cols {
      GroupsAreFew(n - cols, cols);
    }
  }

  /** A line break inside a group loses it. */
  lemma GroupIsLost(s: seq<Byte>, cols: nat)
    requires cols > 0 && cols % 4 != 0 && cols < |Encode(s)|
    ensures |DecodeLines(Encode(s), cols)| < |s|
  {
    var n := |Encode(s)|;
    EncodedLength(s);
    LinesAreShort(Encode(s), cols);
    GroupsAreFew(n - cols, cols);
    assert 4 * WholeGroups(n, cols) <= n - cols % 4 < n;
    assert WholeGroups(n, cols) < (|s| + 2) / 3;
  }

  lemma DecodeFormatted(s: seq<Byte>, cols: nat, depth: nat)
    requires cols > 0
    ensures Decode(Format(Encode(s), cols, depth)) == DecodeLines(Encode(s), cols)
  {
    EncodedText(s);
    DecodeWrapped(Encode(s), cols, depth, Indent(depth));
  }

  lemma OneLine(text: seq<Byte>, cols: nat)
    requires 0 < cols && |text| <= cols
    ensures DecodeLines(text, cols) == DecodeBlock(text)
  {
    if |text| == cols {
      assert text[..cols] == text && text[cols..] == [];
      assert DecodeLines([], cols) == [];
    }
  }

  /** Wrapped text decodes to the bytes it was made from exactly if no line break falls inside a group of four. */
  lemma WrappedRoundTripIff(s: seq<Byte>, cols: nat, depth: nat)
    requires cols > 0
    ensures Decode(Format(Encode(s), cols, depth)) == s <==> cols % 4 == 0 || cols >= |Encode(s)|
  {
    DecodeFormatted(s, cols, depth);
    BlockRoundTrip(s);
    if cols % 4 == 0 {
      LinesJoin(Encode(s), cols);
    } else if cols < |Encode(s)| {
      GroupIsLost(s, cols);
    } else {
      OneLine(Encode(s), cols);
    }
  }

  // ---------------------------------------------------------------- the loops of base64decode

  lemma {:induction false} DecodeBlockStep(data: seq<Byte>, n: nat)
    requires n + 4 <= |data|
    ensures DecodeBlock(data[n..]) == DecodeQuad(Value(data[n]), Value(data[n + 1]), Value(data[n + 2]), Value(data[n + 3]))
                                    + DecodeBlock(data[n + 4..])
  {
    assert data[n..][4..] == data[n + 4..];
  }

  /** The writes of one turn of the loop of base64decode_block. */
  method PutBytes(target: array<Byte>, at: nat, w1: int, w2: int, w3: int, w4: int) returns (i: nat)
    requires at + 3 <= target.Length
    modifies target
    ensures at <= i <= at + 3 && target[..i] == old(target[..at]) + DecodeQuad(w1, w2, w3, w4)
  {
    i := at;
    if w2 >= 0 {
      target[i] := (w1 * 4 + w2 / 16) % 256;
      i := i + 1;
    }
    if w3 >= 0 {
      target[i] := (w2 * 16 + w3 / 4) % 256;
      i := i + 1;
    }
    if w4 >= 0 {
      target[i] := (w3 * 64 + w4) % 256;
      i := i + 1;
    }
  }

  /** Characters that a signed char holds as it is. */
  ghost predicate SevenBit(s: seq<Byte>) {
    forall i :: 0 <= i < |s| ==> s[i] < 0x80
  }

  /**
    base64decode_block, on the part of `target` from `at`: at most three bytes for every four characters.  Where char is
    signed, a character from 0x80 on would be a negative index into base64_table.
  */
  method Base64DecodeBlock(target: array<Byte>, at: nat, data: seq<Byte>, ghost signedChar: bool) returns (i: nat)
    requires at + |data| / 4 * 3 <= target.Length
    requires signedChar ==> SevenBit(data)
    modifies target
    ensures at + i <= target.Length && i <= |data| / 4 * 3
    ensures target[..at + i] == old(target[..at]) + DecodeBlock(data)
  {
    ghost var before, groups := target[..at], 0;
    var n := 0;
    i := 0;
    assert data[0..] == data;
    while n + 3 < |data|
      invariant 0 <= n <= |data| && n == 4 * groups && i <= 3 * groups <= |data| / 4 * 3
      invariant target[..at + i] + DecodeBlock(data[n..]) == before + DecodeBlock(data)
    {
      DecodeBlockStep(data, n);
      GroupFits(groups, |data|);
      Associate(target[..at + i], DecodeQuad(Value(data[n]), Value(data[n + 1]), Value(data[n + 2]), Value(data[n + 3])),
           DecodeBlock(data[n + 4..]));
      i := PutGroup(target, at, i, data, n);
      n, groups := n + 4, groups + 1;
    }
    assert DecodeBlock(data[n..]) == [];
  }

  lemma GroupFits(groups: nat, size: nat)
    requires 4 * groups + 3 < size
    ensures 3 * (groups + 1) <= size / 4 * 3
  {
  }

  /** One turn of that loop. */
  method PutGroup(target: array<Byte>, at: nat, i: nat, data: seq<Byte>, n: nat) returns (next: nat)
    requires at + i + 3 <= target.Length && n + 4 <= |data|
    modifies target
    ensures i <= next <= i + 3
    ensures target[..at + next] == old(target[..at + i])
      + DecodeQuad(Value(data[n]), Value(data[n + 1]), Value(data[n + 2]), Value(data[n + 3]))
  {
    var end := PutBytes(target, at + i, Value(data[n]), Value(data[n + 1]), Value(data[n + 2]), Value(data[n + 3]));
    next := end - at;
  }

  /** Text in a buffer that ends with a zero. */
  ghost predicate IsCString(buf: array<Byte>)
    reads buf
  {
    buf.Length > 0 && buf[buf.Length - 1] == 0 && forall i :: 0 <= i < buf.Length - 1 ==> buf[i] != 0
  }

  /**
    strtok_s behind position `from`: the next token is `buf[start..end]`, which it ends by a zero over the separator
    behind it, and it goes on at `next`.  Behind the last token, start is at the terminator.
  */
  method NextToken(buf: array<Byte>, from: nat) returns (start: nat, end: nat, next: nat)
    requires from < buf.Length && buf[buf.Length - 1] == 0 && forall i :: from <= i < buf.Length - 1 ==> buf[i] != 0
    modifies buf
    ensures from <= start <= end <= next < buf.Length && (start < end || start == buf.Length - 1)
    ensures forall i :: from <= i < start ==> IsSeparator(old(buf[i]))
    ensures forall i :: start <= i < end ==> !IsSeparator(old(buf[i]))
    ensures if end < buf.Length - 1 then IsSeparator(old(buf[end])) && next == end + 1 else next == end
    ensures forall i :: 0 <= i < buf.Length && i != end ==> buf[i] == old(buf[i])
    ensures buf[end] == 0
  {
    start := from;
    while IsSeparator(buf[start])
      invariant from <= start < buf.Length && forall i :: from <= i < start ==> IsSeparator(buf[i])
      decreases buf.Length - start
    {
      start := start + 1;
    }
    end := start;
    while buf[end] != 0 && !IsSeparator(buf[end])
      invariant start <= end < buf.Length && forall i :: start <= i < end ==> !IsSeparator(buf[i])
      invariant start < end || !IsSeparator(buf[start])
      decreases buf.Length - end
    {
      end := end + 1;
    }
    next := end;
    if buf[end] != 0 {
      buf[end] := 0;
      next := end + 1;
    }
  }

  lemma SkipTo(text: seq<Byte>, from: nat, start: nat)
    requires from <= start <= |text| && forall i :: from <= i < start ==> IsSeparator(text[i])
    ensures Decode(text[from..]) == Decode(text[start..])
  {
    assert text[from..] == text[from..start] + text[start..];
    SkipSeparators(text[from..start], text[start..]);
  }

  lemma OneTokenThen(text: seq<Byte>, start: nat, end: nat)
    requires start < end <= |text| && (forall i :: start <= i < end ==> !IsSeparator(text[i])) && (end < |text| ==> IsSeparator(text[end]))
    ensures Decode(text[start..]) == DecodeBlock(text[start..end]) + Decode(text[end..])
  {
    assert text[start..] == text[start..end] + text[end..];
    TokenThen(text[start..end], text[end..]);
    assert text[start..][..end - start] == text[start..end] && text[start..][end - start..] == text[end..];
  }

  /** What the token and what is behind it decode to. */
  lemma DecodeToken(text: seq<Byte>, from: nat, start: nat, end: nat, next: nat)
    requires from <= start <= end <= next <= |text| && (start < end || start == |text|)
    requires forall i :: from <= i < start ==> IsSeparator(text[i])
    requires forall i :: start <= i < end ==> !IsSeparator(text[i])
    requires if end < |text| then IsSeparator(text[end]) && next == end + 1 else next == end
    ensures Decode(text[from..]) == DecodeBlock(text[start..end]) + Decode(text[next..])
  {
    SkipTo(text, from, start);
    if start < |text| {
      OneTokenThen(text, start, end);
      if end < |text| {
        SkipTo(text, end, next);
      }
    }
  }

  /** base64decode: every write is inside the `len / 4 * 3 + 3` bytes; the separators of `buf` are lost. */
  method Base64Decode(buf: array<Byte>, ghost signedChar: bool) returns (result: array?<Byte>, size: nat)
    requires IsCString(buf) && (signedChar ==> SevenBit(buf[..]))
    modifies buf
    ensures result == null <==> buf.Length == 1
    ensures result != null ==> fresh(result) && result.Length == (buf.Length - 1) / 4 * 3 + 3 && size < result.Length
    ensures result != null ==> result[..size] == Decode(old(buf[..buf.Length - 1])) && result[size] == 0
  {
    var len := buf.Length - 1;
    if len == 0 {
      return null, 0;
    }
    ghost var text := buf[..len];
    var outbuf := new Byte[len / 4 * 3 + 3];
    var p, next := 0, 0;
    assert text[0..] == text;
    while next < len
      invariant 0 <= next <= len && 0 <= p <= next / 4 * 3 <= len / 4 * 3 && fresh(outbuf)
      invariant TextFrom(buf, text, next)
      invariant outbuf[..p] + Decode(text[next..]) == Decode(text)
    {
      p, next := DecodeNext(buf, outbuf, p, next, text, signedChar);
    }
    outbuf[p] := 0;
    return outbuf, p;
  }

  /** What is left of the text in its buffer. */
  ghost predicate TextFrom(buf: array<Byte>, text: seq<Byte>, from: nat)
    reads buf
  {
    && buf.Length == |text| + 1 && from <= |text| && buf[|text|] == 0
    && forall i :: from <= i < |text| ==> buf[i] == text[i] != 0
  }

  /** The next token, and what is left behind it. */
  method TakeToken(buf: array<Byte>, from: nat, ghost text: seq<Byte>) returns (token: seq<Byte>, after: nat)
    requires TextFrom(buf, text, from) && from < |text|
    modifies buf
    ensures TextFrom(buf, text, after) && from + |token| <= after && from < after
    ensures Decode(text[from..]) == DecodeBlock(token) + Decode(text[after..])
    ensures SevenBit(text) ==> SevenBit(token)
  {
    var start, end;
    start, end, after := NextToken(buf, from);
    DecodeToken(text, from, start, end, after);
    token := buf[start..end];
    assert token == text[start..end];
  }

  /** One turn of that loop. */
  method DecodeNext(buf: array<Byte>, outbuf: array<Byte>, p: nat, next: nat, ghost text: seq<Byte>, ghost signedChar: bool)
    returns (q: nat, after: nat)
    requires signedChar ==> SevenBit(text)
    requires buf != outbuf && TextFrom(buf, text, next) && next < |text|
    requires outbuf.Length > |text| / 4 * 3 && p <= next / 4 * 3 <= |text| / 4 * 3
    requires outbuf[..p] + Decode(text[next..]) == Decode(text)
    modifies buf, outbuf
    ensures next < after && TextFrom(buf, text, after)
    ensures q <= after / 4 * 3 <= |text| / 4 * 3
    ensures outbuf[..q] + Decode(text[after..]) == Decode(text)
  {
    ghost var done := outbuf[..p];
    var token;
    token, after := TakeToken(buf, next, text);
    TokenFits(p, next, |token|, after, |text|);
    Associate(done, DecodeBlock(token), Decode(text[after..]));
    var i := Base64DecodeBlock(outbuf, p, token, signedChar);
    q := p + i;
    assert outbuf[..q] == done + DecodeBlock(token);
  }

  lemma TokenFits(p: nat, next: nat, size: nat, after: nat, len: nat)
    requires p <= next / 4 * 3 && next + size <= after <= len
    ensures p + size / 4 * 3 <= after / 4 * 3 <= len / 4 * 3
  {
    QuartersAdd(next, size);
    QuartersGrow(next + size, after, len);
  }

  lemma QuartersGrow(a: nat, b: nat, c: nat)
    requires a <= b <= c
    ensures a / 4 * 3 <= b / 4 * 3 <= c / 4 * 3
  {
  }

  // ---------------------------------------------------------------- the loops of format_string

  lemma {:induction false} WrappedLength(text: seq<Byte>, cols: nat, depth: nat)
    requires cols > 0
    ensures |Wrapped(text, cols, depth)| == |text| + Lines(|text|, cols) * (depth + 1)
  {
    if |text| >= cols {
      WrappedLength(text[cols..], cols, depth);
      OneMore(Lines(|text| - cols, cols), depth + 1);
    }
  }

  /** The lines that `n` characters take, an empty last one included. */
  function Lines(n: nat, cols: nat): (lines: nat)
    requires cols > 0
  {
    if n < cols then 1 else 1 + Lines(n - cols, cols)
  }

  lemma {:induction false} LinesIsQuotient(n: nat, cols: nat)
    requires cols > 0
    ensures Lines(n, cols) == n / cols + 1
    ensures n < Lines(n, cols) * cols
  {
    if n >= cols {
      LinesIsQuotient(n - cols, cols);
      QuotientStep(n, cols);
      OneMore(Lines(n - cols, cols), cols);
    } else {
      SmallQuotient(n, cols);
    }
  }

  lemma OneMore(lines: nat, cols: nat)
    ensures (1 + lines) * cols == cols + lines * cols
  {
  }

  lemma SmallQuotient(n: nat, cols: nat)
    requires n < cols
    ensures n / cols == 0
  {
  }

  lemma QuotientStep(n: nat, cols: nat)
    requires n >= cols > 0
    ensures n / cols == (n - cols) / cols + 1
  {
    var q, r := (n - cols) / cols, (n - cols) % cols;
    assert n == (q + 1) * cols + r;
    QuotientOf(n, q + 1, r, cols);
  }

  lemma QuotientOf(n: nat, q: nat, r: nat, cols: nat)
    requires 0 <= r < cols && n == q * cols + r
    ensures n / cols == q
  {
    var d := n / cols - q;
    assert n == n / cols * cols + n % cols;
    assert d * cols == r - n % cols;
    Multiples(d, cols);
  }

  lemma Multiples(d: int, cols: nat)
    ensures d >= 1 ==> d * cols >= cols
    ensures d <= -1 ==> d * cols + cols <= 0
  {
  }

  /** The whole text and its terminator fit into `nlines * colw + depth + 1` bytes. */
  lemma BufferFits(text: seq<Byte>, cols: nat, depth: nat)
    requires cols > 0
    ensures |Format(text, cols, depth)| < (|text| / cols + 1) * (depth + cols + 1) + depth + 1
  {
    var n := Lines(|text|, cols);
    WrappedLength(text, cols, depth);
    LinesIsQuotient(|text|, cols);
    assert n * (depth + cols + 1) == n * (depth + 1) + n * cols;
  }

  /** A line break and tabs. */
  method PutIndent(newBuf: array<Byte>, at: nat, depth: nat)
    requires at + 1 + depth <= newBuf.Length
    modifies newBuf
    ensures newBuf[..at + 1 + depth] == old(newBuf[..at]) + Indent(depth)
  {
    ghost var before := newBuf[..at];
    newBuf[at] := NEWLINE;
    var j := 0;
    while j < depth
      invariant 0 <= j <= depth
      invariant newBuf[..at + 1 + j] == before + Indent(j)
    {
      newBuf[at + 1 + j] := TAB;
      assert Indent(j + 1) == Indent(j) + [TAB];
      j := j + 1;
    }
  }

  lemma WrapStep(done: seq<Byte>, text: seq<Byte>, from: nat, cols: nat, depth: nat)
    requires cols > 0 && from <= |text|
    ensures from + cols <= |text| ==>
      done + Wrapped(text[from..], cols, depth) == done + Indent(depth) + text[from..from + cols] + Wrapped(text[from + cols..], cols, depth)
    ensures from + cols > |text| ==> done + Wrapped(text[from..], cols, depth) == done + Indent(depth) + text[from..]
    ensures |Wrapped(text[from..], cols, depth)| >= depth + 1 + (if from + cols <= |text| then cols else |text| - from)
  {
    if from + cols <= |text| {
      assert text[from..][..cols] == text[from..from + cols] && text[from..][cols..] == text[from + cols..];
    }
  }

  /** One line: behind its indent, `count` characters from `from`. */
  method PutLine(newBuf: array<Byte>, at: nat, depth: nat, buf: seq<Byte>, from: nat, count: nat)
    requires at + 1 + depth + count <= newBuf.Length && from + count <= |buf|
    modifies newBuf
    ensures newBuf[..at + 1 + depth + count] == old(newBuf[..at]) + Indent(depth) + buf[from..from + count]
  {
    PutIndent(newBuf, at, depth);
    CopyBytes(newBuf, at + 1 + depth, buf[from..from + count]);
    assert newBuf[..at + 1 + depth + count] == newBuf[..at + 1 + depth] + newBuf[at + 1 + depth..at + 1 + depth + count];
  }

  /** format_string, with a positive column count: every write is inside the allocation, the final zero included. */
  method FormatString(text: seq<Byte>, cols: nat, depth: nat) returns (result: array?<Byte>)
    requires cols > 0
    ensures result == null <==> text == []
    ensures result != null ==> fresh(result) && result.Length == (|text| / cols + 1) * (depth + cols + 1) + depth + 1
    ensures result != null ==> |Format(text, cols, depth)| < result.Length && result[|Format(text, cols, depth)|] == 0
    ensures result != null ==> result[..|Format(text, cols, depth)|] == Format(text, cols, depth)
  {
    if text == [] {
      return null;
    }
    var colw, nlines := depth + cols + 1, |text| / cols + 1;
    BufferFits(text, cols, depth);
    LinesIsQuotient(|text|, cols);
    var newBuf := new Byte[nlines * colw + depth + 1](_ => 0);
    var at := PutLines(newBuf, text, cols, depth, nlines);
    PutIndent(newBuf, at, depth);
    newBuf[at + 1 + depth] := 0;
    return newBuf;
  }

  /** With `left` lines still to be written, `done` and they are the whole text. */
  ghost predicate Progress(done: seq<Byte>, text: seq<Byte>, from: nat, cols: nat, depth: nat, left: nat)
    requires cols > 0
  {
    if left == 0 then done == Wrapped(text, cols, depth)
    else
      && from <= |text| && Lines(|text| - from, cols) == left
      && done + Wrapped(text[from..], cols, depth) == Wrapped(text, cols, depth)
  }

  /** How long the next line is. */
  function LineLength(text: seq<Byte>, from: nat, cols: nat): nat
    requires from <= |text|
  {
    if from + cols <= |text| then cols else |text| - from
  }

  lemma NextFullLine(done: seq<Byte>, text: seq<Byte>, from: nat, cols: nat, depth: nat, left: nat)
    requires cols > 0 && left > 0 && Progress(done, text, from, cols, depth, left) && from + cols <= |text|
    ensures Progress(done + Indent(depth) + text[from..from + cols], text, from + cols, cols, depth, left - 1)
  {
    WrapStep(done, text, from, cols, depth);
  }

  lemma LastLine(done: seq<Byte>, text: seq<Byte>, from: nat, cols: nat, depth: nat, left: nat)
    requires cols > 0 && left > 0 && Progress(done, text, from, cols, depth, left) && from + cols > |text|
    ensures Progress(done + Indent(depth) + text[from..], text, from + cols, cols, depth, left - 1)
  {
    WrapStep(done, text, from, cols, depth);
  }

  lemma NextLineFits(done: seq<Byte>, text: seq<Byte>, from: nat, cols: nat, depth: nat, left: nat)
    requires cols > 0 && left > 0 && Progress(done, text, from, cols, depth, left)
    ensures from <= |text|
    ensures |done| + 1 + depth + LineLength(text, from, cols) <= |Wrapped(text, cols, depth)|
  {
    LengthsAdd(done, Wrapped(text[from..], cols, depth));
    WrapStep(done, text, from, cols, depth);
  }

  lemma NextLine(done: seq<Byte>, after: seq<Byte>, text: seq<Byte>, from: nat, cols: nat, depth: nat, left: nat)
    requires cols > 0 && left > 0 && from <= |text| && Progress(done, text, from, cols, depth, left)
    requires after == done + Indent(depth) + text[from..from + LineLength(text, from, cols)]
    ensures Progress(after, text, from + cols, cols, depth, left - 1)
  {
    if from + cols <= |text| {
      NextFullLine(done, text, from, cols, depth, left);
    } else {
      LastLine(done, text, from, cols, depth, left);
      LastSlice(text, from);
    }
  }

  lemma LengthsAdd(a: seq<Byte>, b: seq<Byte>)
    ensures |a + b| == |a| + |b|
  {
  }

  lemma LastSlice(text: seq<Byte>, from: nat)
    requires from <= |text|
    ensures text[from..from + (|text| - from)] == text[from..]
  {
  }

  /** One turn of the loop over the lines. */
  method PutNextLine(newBuf: array<Byte>, at: nat, text: seq<Byte>, from: nat, cols: nat, depth: nat, ghost left: nat)
    returns (next: nat)
    requires cols > 0 && left > 0 && at <= newBuf.Length && |Wrapped(text, cols, depth)| <= newBuf.Length
    requires Progress(newBuf[..at], text, from, cols, depth, left)
    modifies newBuf
    ensures next <= newBuf.Length && Progress(newBuf[..next], text, from + cols, cols, depth, left - 1)
  {
    ghost var done := newBuf[..at];
    NextLineFits(done, text, from, cols, depth, left);
    var count := LineLength(text, from, cols);
    PutLine(newBuf, at, depth, text, from, count);
    next := at + 1 + depth + count;
    NextLine(done, newBuf[..next], text, from, cols, depth, left);
  }

  /** That loop; `at` is `i * colw` there, and `from` is `i * cols`. */
  method PutLines(newBuf: array<Byte>, text: seq<Byte>, cols: nat, depth: nat, nlines: nat) returns (at: nat)
    requires cols > 0 && nlines == Lines(|text|, cols) && |Wrapped(text, cols, depth)| <= newBuf.Length
    modifies newBuf
    ensures at <= newBuf.Length && newBuf[..at] == Wrapped(text, cols, depth)
  {
    var i, from := 0, 0;
    at := 0;
    assert text[0..] == text && newBuf[..0] + Wrapped(text, cols, depth) == Wrapped(text, cols, depth);
    while i < nlines
      invariant 0 <= i <= nlines && at <= newBuf.Length && 0 <= from
      invariant Progress(newBuf[..at], text, from, cols, depth, nlines - i)
    {
      at := PutNextLine(newBuf, at, text, from, cols, depth, nlines - i);
      i, from := i + 1, from + cols;
    }
  }
}
