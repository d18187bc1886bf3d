/**
  The texts of airplay/libplist/src/base64.cc and format_string (airplay/libplist/src/xplist.cc, lines 73-107) character
  by character: section 4 of RFC 4648 with its alphabet, what is made of any text at all, and where wrapping puts what.
*/
module Base64Format {
  import opened Bytes
  import opened Base64

  // ---------------------------------------------------------------- the alphabet

  const CAPITALS := "ABCDEFGHIJKLMNOPQRSTUVWXYZ"
  const SMALLS := "abcdefghijklmnopqrstuvwxyz"
  const DIGITS := "0123456789"

  /** The alphabet of section 4 of RFC 4648. */
  const ALPHABET := CAPITALS + SMALLS + DIGITS + "+/"

  lemma CapitalsInOrder(i: nat)
    requires i < 26
    ensures CAPITALS[i] as int == 65 + i
  {
  }

  lemma SmallsInOrder(i: nat)
    requires i < 26
    ensures SMALLS[i] as int == 97 + i
  {
  }

  lemma DigitsInOrder(i: nat)
    requires i < 10
    ensures DIGITS[i] as int == 48 + i
  {
  }

  lemma AlphabetInOrder(v: nat)
    requires v < 64
    ensures |ALPHABET| == 64
    ensures v < 26 ==> ALPHABET[v] as int == 65 + v
    ensures 26 <= v < 52 ==> ALPHABET[v] as int == 97 + (v - 26)
    ensures 52 <= v < 62 ==> ALPHABET[v] as int == 48 + (v - 52)
    ensures ALPHABET[62] == '+' && ALPHABET[63] == '/'
  {
    if v < 26 {
      CapitalsInOrder(v);
    } else if v < 52 {
      SmallsInOrder(v - 26);
    } else if v < 62 {
      DigitsInOrder(v - 52);
    }
  }

  lemma LetterIsInAlphabet(v: Sextet)
    ensures Letter(v) == ALPHABET[v] as int
  {
    AlphabetInOrder(v);
  }

  /** The table gives every character its place in the alphabet, and -1 to all others. */
  lemma ValueIff(c: Byte, v: nat)
    ensures Value(c) == v <==> v < 64 && ALPHABET[v] as int == c
    ensures Value(c) == -1 <==> forall i :: 0 <= i < 64 ==> ALPHABET[i] as int != c
  {
    forall i: nat | i < 64 ensures Value(c) == i <==> ALPHABET[i] as int == c {
      AlphabetInOrder(i);
    }
    if Value(c) >= 0 {
      assert ALPHABET[Value(c)] as int == c;
    }
  }

  /** The character for six bits. */
  function Sign(v: int): (c: int)
    requires 0 <= v < 64
    ensures 0 <= c < 128 && c != 61
  {
    AlphabetInOrder(v);
    ALPHABET[v] as int
  }

  // ---------------------------------------------------------------- encoding

  /** The 24 bits of three bytes, as four times six. */
  predicate SameBits(b0: int, b1: int, b2: int, v0: int, v1: int, v2: int, v3: int) {
    && 0 <= v0 < 64 && 0 <= v1 < 64 && 0 <= v2 < 64 && 0 <= v3 < 64
    && 65536 * b0 + 256 * b1 + b2 == 262144 * v0 + 4096 * v1 + 64 * v2 + v3
  }

  lemma BitsOfThree(b0: Byte, b1: Byte, b2: Byte, v0: int, v1: int, v2: int, v3: int)
    requires SameBits(b0, b1, b2, v0, v1, v2, v3)
    ensures Out0(b0) == v0 && Out1(b0, b1) == v1 && Out2(b1, b2) == v2 && Out3(b2) == v3
  {
    assert b0 == 4 * (b0 / 4) + b0 % 4 && b1 == 16 * (b1 / 16) + b1 % 16 && b2 == 64 * (b2 / 64) + b2 % 64;
  }

  /** Three bytes are four characters, the 24 bits from the left. */
  lemma ThreeAreEncoded(b0: Byte, b1: Byte, b2: Byte, v0: int, v1: int, v2: int, v3: int, rest: seq<Byte>)
    requires SameBits(b0, b1, b2, v0, v1, v2, v3)
    ensures Encode([b0, b1, b2] + rest) == [Sign(v0), Sign(v1), Sign(v2), Sign(v3)] + Encode(rest)
  {
    BitsOfThree(b0, b1, b2, v0, v1, v2, v3);
    LettersOf(v0, v1, v2, v3);
    EncodeThree(b0, b1, b2, rest);
  }

  lemma LettersOf(v0: Sextet, v1: Sextet, v2: Sextet, v3: Sextet)
    ensures [Letter(v0), Letter(v1), Letter(v2), Letter(v3)] == [Sign(v0), Sign(v1), Sign(v2), Sign(v3)]
  {
    LetterIsInAlphabet(v0);
    LetterIsInAlphabet(v1);
    LetterIsInAlphabet(v2);
    LetterIsInAlphabet(v3);
  }

  lemma EncodeThree(b0: Byte, b1: Byte, b2: Byte, rest: seq<Byte>)
    ensures Encode([b0, b1, b2] + rest)
         == [Letter(Out0(b0)), Letter(Out1(b0, b1)), Letter(Out2(b1, b2)), Letter(Out3(b2))] + Encode(rest)
  {
    var s := [b0, b1, b2] + rest;
    assert s[0] == b0 && s[1] == b1 && s[2] == b2 && Rest(s) == rest;
  }

  /** Two bytes at the end are three characters and one "=", one byte is two and two; no byte, no character. */
  lemma EndIsEncoded(b0: Byte, b1: Byte, v0: int, v1: int, v2: int)
    requires SameBits(b0, b1, 0, v0, v1, v2, 0)
    ensures Encode([b0, b1]) == [Sign(v0), Sign(v1), Sign(v2), 61]
    ensures b1 == 0 ==> Encode([b0]) == [Sign(v0), Sign(v1), 61, 61]
    ensures Encode([]) == []
  {
    BitsOfThree(b0, b1, 0, v0, v1, v2, 0);
    LettersOf(v0, v1, v2, 0);
    assert Encode([b0, b1]) == Quad([b0, b1]) + [];
    assert Encode([b0]) == Quad([b0]) + [];
  }

  // ---------------------------------------------------------------- decoding

  /** `v` is the place of a character in the alphabet, -1 for all others. */
  predicate Placed(c: int, v: int) {
    if v == -1 then forall i :: 0 <= i < 64 ==> ALPHABET[i] as int != c else 0 <= v < 64 && ALPHABET[v] as int == c
  }

  lemma PlacedIsValue(c: Byte, v: int)
    requires Placed(c, v)
    ensures Value(c) == v
  {
    if v >= 0 {
      ValueIff(c, v);
    } else {
      ValueIff(c, 0);
    }
  }

  /** The low eight bits of a number, if there is one. */
  function ByteOf(known: bool, n: int): seq<Byte> {
    if known then [n % 256] else []
  }

  lemma FourAreDecoded(c0: Byte, c1: Byte, c2: Byte, c3: Byte, rest: seq<Byte>)
    ensures DecodeBlock([c0, c1, c2, c3] + rest) == DecodeQuad(Value(c0), Value(c1), Value(c2), Value(c3)) + DecodeBlock(rest)
  {
    var text := [c0, c1, c2, c3] + rest;
    assert text[4..] == rest && text[0] == c0 && text[1] == c1 && text[2] == c2 && text[3] == c3;
  }

  lemma QuadIsDecoded(v0: int, v1: int, v2: int, v3: int)
    ensures DecodeQuad(v0, v1, v2, v3)
         == ByteOf(v1 >= 0, 4 * v0 + v1 / 16) + ByteOf(v2 >= 0, 16 * v1 + v2 / 4) + ByteOf(v3 >= 0, 64 * v2 + v3)
  {
  }

  /** Four characters of a token, in the alphabet or not, and what follows; fewer than four are dropped. */
  lemma GroupIsDecoded(c0: Byte, c1: Byte, c2: Byte, c3: Byte, v0: int, v1: int, v2: int, v3: int, rest: seq<Byte>)
    requires Placed(c0, v0) && Placed(c1, v1) && Placed(c2, v2) && Placed(c3, v3)
    ensures DecodeBlock([c0, c1, c2, c3] + rest)
         == ByteOf(v1 >= 0, 4 * v0 + v1 / 16) + ByteOf(v2 >= 0, 16 * v1 + v2 / 4) + ByteOf(v3 >= 0, 64 * v2 + v3) + DecodeBlock(rest)
    ensures |rest| < 4 ==> DecodeBlock(rest) == []
  {
    PlacedIsValue(c0, v0);
    PlacedIsValue(c1, v1);
    PlacedIsValue(c2, v2);
    PlacedIsValue(c3, v3);
    QuadIsDecoded(v0, v1, v2, v3);
    FourAreDecoded(c0, c1, c2, c3, rest);
  }

  lemma SignHasValue(v: int)
    requires 0 <= v < 64
    ensures Value(Sign(v)) == v
  {
    LetterIsInAlphabet(v);
    LetterHasValue(v);
  }

  /** Four characters of the alphabet are the three bytes of their 24 bits. */
  lemma BitsAreDecoded(b0: Byte, b1: Byte, b2: Byte, v0: int, v1: int, v2: int, v3: int, rest: seq<Byte>)
    requires SameBits(b0, b1, b2, v0, v1, v2, v3)
    ensures DecodeBlock([Sign(v0), Sign(v1), Sign(v2), Sign(v3)] + rest) == [b0, b1, b2] + DecodeBlock(rest)
  {
    BitsOfThree(b0, b1, b2, v0, v1, v2, v3);
    ThreeBytes(b0, b1, b2);
    FourAreDecoded(Sign(v0), Sign(v1), Sign(v2), Sign(v3), rest);
    SignHasValue(v0);
    SignHasValue(v1);
    SignHasValue(v2);
    SignHasValue(v3);
  }

  /** Carriage return, line feed, tab and space. */
  predicate Blank(c: int) {
    c == 13 || c == 10 || c == 9 || c == 32
  }

  /** Blanks part a text into tokens that are decoded by themselves; there is nothing in blanks. */
  lemma TokensAreDecoded(blanks: seq<Byte>, token: seq<Byte>, rest: seq<Byte>)
    requires forall i :: 0 <= i < |blanks| ==> Blank(blanks[i])
    requires forall i :: 0 <= i < |token| ==> !Blank(token[i])
    requires rest != [] ==> Blank(rest[0])
    ensures Decode(blanks + token + rest) == DecodeBlock(token) + Decode(rest)
    ensures Decode(blanks) == []
  {
    assert blanks + token + rest == blanks + (token + rest) && blanks + [] == blanks;
    SkipSeparators(blanks, token + rest);
    SkipSeparators(blanks, []);
    TokenThen(token, rest);
    if token == [] {
      assert token + rest == rest;
    } else {
      assert (token + rest)[..|token|] == token && (token + rest)[|token|..] == rest;
    }
  }

  // ---------------------------------------------------------------- wrapping

  /** A line feed and `depth` tabs. */
  predicate Break(s: seq<Byte>, at: nat, depth: nat) {
    && at + depth < |s| && s[at] == 10
    && forall k :: at < k <= at + depth ==> s[k] == 9
  }

  lemma IndentBreaks(a: seq<Byte>, depth: nat, b: seq<Byte>)
    ensures Break(a + Indent(depth) + b, |a|, depth)
  {
  }

  /** Line `row` of the text, behind its break, in full or as far as the text goes. */
  ghost predicate LineAt(text: seq<Byte>, s: seq<Byte>, at: nat, cols: nat, depth: nat) {
    var n := if |text| < cols then |text| else cols;
    Break(s, at, depth) && at + 1 + depth + n <= |s| && s[at + 1 + depth..at + 1 + depth + n] == text[..n]
  }

  /** What is behind a line of full length. */
  lemma WrappedBehind(text: seq<Byte>, cols: nat, depth: nat)
    requires 0 < cols <= |text|
    ensures |Wrapped(text, cols, depth)| == depth + cols + 1 + |Wrapped(text[cols..], cols, depth)|
    ensures Wrapped(text, cols, depth)[depth + cols + 1..] == Wrapped(text[cols..], cols, depth)
  {
    var line := Indent(depth) + text[..cols];
    assert Wrapped(text, cols, depth) == line + Wrapped(text[cols..], cols, depth);
    assert |line| == depth + cols + 1;
  }

  lemma FirstLine(text: seq<Byte>, cols: nat, depth: nat)
    requires cols > 0
    ensures LineAt(text, Wrapped(text, cols, depth), 0, cols, depth)
  {
    var n := if |text| < cols then |text| else cols;
    var s := Wrapped(text, cols, depth);
    var more := if |text| < cols then [] else Wrapped(text[cols..], cols, depth);
    assert s == Indent(depth) + text[..n] + more;
    assert s[..depth + 1] == Indent(depth);
    assert forall k :: 0 < k <= depth ==> s[k] == s[..depth + 1][k] == 9;
    assert s[0] == s[..depth + 1][0] == 10;
  }

  /** A line of what is behind is one of the whole. */
  lemma LineShifts(text: seq<Byte>, s: seq<Byte>, offset: nat, at: nat, cols: nat, depth: nat)
    requires offset <= |s| && LineAt(text, s[offset..], at, cols, depth)
    ensures LineAt(text, s, offset + at, cols, depth)
  {
    var n := if |text| < cols then |text| else cols;
    var u := s[offset..];
    assert s[offset + at] == u[at];
    forall k | offset + at < k <= offset + at + depth ensures s[k] == 9 {
      assert s[k] == u[k - offset];
    }
    assert s[offset + at + 1 + depth..offset + at + 1 + depth + n] == u[at + 1 + depth..at + 1 + depth + n];
  }

  function Times(rows: nat, width: nat): nat {
    if rows == 0 then 0 else width + Times(rows - 1, width)
  }

  lemma {:induction false} TimesIsProduct(rows: nat, width: nat)
    ensures Times(rows, width) == rows * width
  {
    if rows > 0 {
      TimesIsProduct(rows - 1, width);
      Distribute(rows - 1, width);
    }
  }

  /** Every line is where it belongs: `cols` characters each, and behind every line the next break. */
  lemma {:induction false} LinesAreInPlace(text: seq<Byte>, cols: nat, depth: nat, row: nat, line: seq<Byte>)
    requires cols > 0 && Times(row, cols) <= |text| && line == text[Times(row, cols)..]
    ensures LineAt(line, Wrapped(text, cols, depth), Times(row, depth + cols + 1), cols, depth)
    decreases row
  {
    if row == 0 {
      FirstLine(text, cols, depth);
      assert line == text;
    } else {
      RowSteps(row, cols, depth + cols + 1);
      assert line == text[cols..][Times(row - 1, cols)..];
      LinesAreInPlace(text[cols..], cols, depth, row - 1, line);
      LineBehind(text, cols, depth, line, Times(row - 1, depth + cols + 1));
    }
  }

  lemma RowSteps(row: nat, cols: nat, width: nat)
    requires row > 0
    ensures Times(row, cols) == cols + Times(row - 1, cols) && Times(row, width) == width + Times(row - 1, width)
  {
  }

  lemma LineBehind(text: seq<Byte>, cols: nat, depth: nat, line: seq<Byte>, at: nat)
    requires 0 < cols <= |text| && LineAt(line, Wrapped(text[cols..], cols, depth), at, cols, depth)
    ensures LineAt(line, Wrapped(text, cols, depth), depth + cols + 1 + at, cols, depth)
  {
    WrappedBehind(text, cols, depth);
    LineShifts(line, Wrapped(text, cols, depth), depth + cols + 1, at, cols, depth);
  }

  /** How many breaks the lines begin with: one for every started line, an empty one at the end of full ones too. */
  lemma {:induction false} WrappedLength(text: seq<Byte>, cols: nat, depth: nat)
    requires cols > 0
    ensures |Wrapped(text, cols, depth)| == |text| + (|text| / cols + 1) * (depth + 1)
    decreases |text|
  {
    if |text| >= cols {
      WrappedLength(text[cols..], cols, depth);
      WrappedBehind(text, cols, depth);
      QuotientSteps(|text|, cols);
      Distribute(|text| / cols, depth + 1);
    } else {
      SmallQuotient(|text|, cols);
    }
  }

  lemma Distribute(a: nat, b: nat)
    ensures (a + 1) * b == a * b + b
  {
  }

  lemma SmallQuotient(n: nat, cols: nat)
    requires n < cols
    ensures n / cols == 0
  {
  }

  lemma QuotientSteps(n: nat, cols: nat)
    requires 0 < cols <= n
    ensures (n - cols) / cols == n / cols - 1
  {
    var q, r := n / cols, n % cols;
    assert n == q * cols + r;
    assert n - cols == (q - 1) * cols + r;
    QuotientIs(n - cols, cols, q - 1, r);
  }

  lemma QuotientIs(n: nat, cols: nat, q: int, r: nat)
    requires cols > 0 && n == q * cols + r && r < cols
    ensures n / cols == q
  {
    var p, s := n / cols, n % cols;
    if p > q {
      OneMore(p, q, cols);
    } else if p < q {
      OneMore(q, p, cols);
    }
  }

  lemma OneMore(p: int, q: int, cols: nat)
    requires p > q
    ensures p * cols >= q * cols + cols
  {
    assert (p - q - 1) * cols >= 0;
  }

  /** format_string: the lines in their places, and a break behind them. */
  lemma FormatIsWrapped(text: seq<Byte>, cols: nat, depth: nat, row: nat)
    requires cols > 0
    ensures var s, length := Format(text, cols, depth), |text| + (|text| / cols + 1) * (depth + 1);
      && |s| == length + depth + 1 && Break(s, length, depth)
      && (row * cols <= |text| ==>
            LineAt(text[row * cols..], s, row * (depth + cols + 1), cols, depth))
  {
    var lines := Wrapped(text, cols, depth);
    WrappedLength(text, cols, depth);
    IndentBreaks(lines, depth, []);
    assert lines + Indent(depth) + [] == Format(text, cols, depth);
    if row * cols <= |text| {
      TimesIsProduct(row, cols);
      TimesIsProduct(row, depth + cols + 1);
      LinesAreInPlace(text, cols, depth, row, text[row * cols..]);
      LineStays(text[row * cols..], lines, Indent(depth), row * (depth + cols + 1), cols, depth);
    }
  }

  lemma LineStays(text: seq<Byte>, s: seq<Byte>, more: seq<Byte>, at: nat, cols: nat, depth: nat)
    requires LineAt(text, s, at, cols, depth)
    ensures LineAt(text, s + more, at, cols, depth)
  {
    var n := if |text| < cols then |text| else cols;
    assert (s + more)[at + 1 + depth..at + 1 + depth + n] == s[at + 1 + depth..at + 1 + depth + n];
  }
}
