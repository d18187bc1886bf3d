/**
  Where the caller cuts the stream into calls of addBytes (airplay/utils/HttpParser.cpp, lines 182-209) makes no
  difference, or exactly when it does.
*/
module HttpChunks {
  import opened Bytes
  import opened HttpRequest

  // ---------------------------------------------------------------- feeding on

  lemma {:induction false} FailedScan(p: Parser, rest: seq<Byte>)
    requires p.state.Failed?
    ensures Scan(p, rest) == p.(data := p.data + rest)
    decreases |rest|
  {
    if rest == [] {
      assert p.data + rest == p.data;
    } else {
      var q := Step(p, rest[0]);
      FailedScan(q, rest[1..]);
      assert q.data + rest[1..] == p.data + rest;
    }
  }

  lemma {:induction false} ScanConcat(p: Parser, a: seq<Byte>, b: seq<Byte>)
    requires !HeaderDone(p.state)
    ensures Scan(p, a + b) == Fed(Scan(p, a), b)
    decreases |a|
  {
    if a == [] {
      assert a + b == b;
    } else {
      var q := Step(p, a[0]);
      assert (a + b)[0] == a[0] && (a + b)[1..] == a[1..] + b;
      if q.state.Content? {
        assert q.data + (a[1..] + b) == (q.data + a[1..]) + b;
      } else if q.state.Failed? {
        FailedScan(q, a[1..] + b);
        FailedScan(q, a[1..]);
        assert q.data + (a[1..] + b) == (q.data + a[1..]) + b;
      } else {
        ScanConcat(q, a[1..], b);
      }
    }
  }

  /** Two calls are one, as long as the first leaves the message open. */
  lemma TwoCallsAreOne(p: Parser, a: seq<Byte>, b: seq<Byte>)
    requires AddBytes(p, a).status == Incomplete
    ensures AddBytes(AddBytes(p, a), b) == AddBytes(p, a + b)
  {
    if HeaderDone(p.state) {
      assert (p.data + a) + b == p.data + (a + b);
    } else {
      ScanConcat(p, a, b);
    }
  }

  /** A stream in chunks is the whole stream in one call, up to the chunk with which the parser made up its mind. */
  lemma {:induction false} FeedIsOneShot(chunks: seq<seq<Byte>>) returns (k: nat)
    ensures k <= |chunks| && Feed(chunks) == OneShot(Stream(chunks[..k]))
    ensures k < |chunks| ==> Feed(chunks).status != Incomplete
    ensures Stream(chunks[..k]) <= Stream(chunks)
  {
    if chunks == [] {
      k := 0;
    } else {
      var last := |chunks| - 1;
      var before := chunks[..last];
      k := FeedIsOneShot(before);
      if Feed(before).status == Incomplete {
        assert before[..last] == before;
        TwoCallsAreOne(NewParser(), Stream(before), chunks[last]);
        k := |chunks|;
        assert chunks[..k] == chunks;
      } else {
        assert before[..k] == chunks[..k];
      }
    }
  }

  // ---------------------------------------------------------------- spaces survive the scan

  predicate SameSpaces(a: seq<Byte>, b: seq<Byte>) {
    |a| == |b| && forall i :: 0 <= i < |a| ==> (a[i] == SP <==> b[i] == SP)
  }

  lemma {:induction false} FindSameSpace(a: seq<Byte>, b: seq<Byte>, from: nat)
    requires SameSpaces(a, b)
    ensures FindByte(a, SP, from) == FindByte(b, SP, from)
    decreases |a| - from
  {
    if from < |a| && a[from] != SP {
      FindSameSpace(a, b, from + 1);
    }
  }

  lemma SameSpacesSplitAlike(a: seq<Byte>, b: seq<Byte>)
    requires SameSpaces(a, b)
    ensures TwoSpaces(a) <==> TwoSpaces(b)
  {
    FindSameSpace(a, b, 0);
    FindSameSpace(a, b, FindByte(a, SP, 0) + 1);
  }

  lemma RewritingKeepsSpaces(p: Parser, c: Byte)
    ensures Step(p, c).data[|p.data|] == SP <==> c == SP
  {
  }

  lemma {:induction false} ScanKeepsSpaces(p: Parser, rest: seq<Byte>)
    ensures SameSpaces(Scan(p, rest).data, p.data + rest)
    decreases |rest|
  {
    if rest == [] {
      assert p.data + rest == p.data;
    } else {
      var q := Step(p, rest[0]);
      RewritingKeepsSpaces(p, rest[0]);
      assert p.data + rest == (p.data + [rest[0]]) + rest[1..];
      assert SameSpaces(q.data, p.data + [rest[0]]);
      if !q.state.Content? {
        ScanKeepsSpaces(q, rest[1..]);
      }
    }
  }

  lemma {:induction false} FindInPrefix(a: seq<Byte>, b: seq<Byte>, from: nat)
    requires FindByte(a, SP, from) < |a|
    ensures FindByte(a + b, SP, from) == FindByte(a, SP, from)
    decreases |a| - from
  {
    if a[from] != SP {
      FindInPrefix(a, b, from + 1);
    }
  }

  /** The first two spaces are the same ones in every longer buffer. */
  lemma TwoSpacesInPrefix(a: seq<Byte>, b: seq<Byte>)
    requires TwoSpaces(a)
    ensures TwoSpaces(a + b)
    ensures FindByte(a + b, SP, 0) == FindByte(a, SP, 0)
    ensures FindByte(a + b, SP, FindByte(a, SP, 0) + 1) == FindByte(a, SP, FindByte(a, SP, 0) + 1)
  {
    FindInPrefix(a, b, 0);
    FindInPrefix(a, b, FindByte(a, SP, 0) + 1);
  }

  // ---------------------------------------------------------------- where a message ends

  function Scanned(s: seq<Byte>): Parser {
    Scan(NewParser(), s)
  }

  function MessageEnd(p: Parser): nat {
    p.contentStart + p.contentLength
  }

  lemma {:induction false} ScanBounds(p: Parser, rest: seq<Byte>)
    requires !HeaderDone(p.state)
    ensures Scan(p, rest).status == p.status
    ensures Scan(p, rest).state.Content? ==> |p.data| < Scan(p, rest).contentStart <= |p.data| + |rest|
    decreases |rest|
  {
    if rest != [] {
      var q := Step(p, rest[0]);
      if q.state.Failed? {
        FailedScan(q, rest[1..]);
      } else if !q.state.Content? {
        ScanBounds(q, rest[1..]);
      }
    }
  }

  lemma ScannedPrefix(x: seq<Byte>, y: seq<Byte>)
    ensures Scanned(x + y) == Fed(Scanned(x), y)
    ensures Scanned(x).status == Incomplete && |Scanned(x).data| == |x|
  {
    ScanConcat(NewParser(), x, y);
    ScanBounds(NewParser(), x);
  }

  /** For every part of a stream that holds a whole message: open before the message ends, whole from there on. */
  lemma PrefixOfMessage(s: seq<Byte>, n: nat)
    requires Complete(Scanned(s)) && n <= |s|
    ensures MessageEnd(Scanned(s)) <= |s|
    ensures !Scanned(s[..n]).state.Failed?
    ensures Complete(Scanned(s[..n])) <==> MessageEnd(Scanned(s)) <= n
    ensures Complete(Scanned(s[..n])) ==> Scanned(s) == Scanned(s[..n]).(data := Scanned(s[..n]).data + s[n..])
  {
    var f, g := Scanned(s), Scanned(s[..n]);
    assert s[..n] + s[n..] == s;
    ScannedPrefix(s[..n], s[n..]);
    ScanBounds(NewParser(), s);
    if !HeaderDone(g.state) {
      ScanBounds(g, s[n..]);
    } else {
      ScanBounds(NewParser(), s[..n]);
    }
  }

  // ---------------------------------------------------------------- what two parsers have in common

  /** The same in everything but how much of the stream behind the message they have kept. */
  predicate Agrees(p: Parser, q: Parser) {
    p.data <= q.data && p.(data := []) == q.(data := [])
  }

  /** Whether it matters nowhere how the stream is cut. */
  predicate CutsDoNotMatter(s: seq<Byte>) {
    Complete(Scanned(s)) ==> MessageEnd(Scanned(s)) <= |s| && (TwoSpaces(s[..MessageEnd(Scanned(s))]) || !TwoSpaces(s))
  }

  lemma CompleteSplits(s: seq<Byte>, n: nat)
    requires Complete(Scanned(s)) && MessageEnd(Scanned(s)) <= n <= |s|
    ensures TwoSpaces(Scanned(s[..n]).data) <==> TwoSpaces(s[..n])
    ensures OneShot(s[..n]) == if TwoSpaces(s[..n]) then RequestLineSplit(Scanned(s[..n])).(status := Done)
                               else Scanned(s[..n]).(status := Error)
  {
    PrefixOfMessage(s, n);
    ScanKeepsSpaces(NewParser(), s[..n]);
    assert [] + s[..n] == s[..n];
    SameSpacesSplitAlike(Scanned(s[..n]).data, s[..n]);
  }

  lemma SplitAgrees(p: Parser, more: seq<Byte>)
    requires TwoSpaces(p.data)
    ensures TwoSpaces(p.data + more)
    ensures Agrees(RequestLineSplit(p), RequestLineSplit(p.(data := p.data + more)))
  {
    TwoSpacesInPrefix(p.data, more);
    var sp1 := FindByte(p.data, SP, 0);
    var sp2 := FindByte(p.data, SP, sp1 + 1);
    assert (p.data + more)[sp1 := 0][sp2 := 0] == p.data[sp1 := 0][sp2 := 0] + more;
  }

  /** Spaces of the message are spaces of all that was received by the time it was found complete. */
  lemma SpacesOfPrefixes(s: seq<Byte>, end: nat, n: nat)
    requires end <= n <= |s| && (TwoSpaces(s[..end]) || !TwoSpaces(s))
    ensures TwoSpaces(s[..n]) <==> TwoSpaces(s)
  {
    assert s[..n] + s[n..] == s && s[..end] + s[end..n] == s[..n];
    if TwoSpaces(s[..end]) {
      TwoSpacesInPrefix(s[..end], s[end..n]);
    }
    if TwoSpaces(s[..n]) {
      TwoSpacesInPrefix(s[..n], s[n..]);
    }
  }

  lemma SettledAlike(g: Parser, more: seq<Byte>, done: bool)
    requires done ==> TwoSpaces(g.data)
    ensures var f := g.(data := g.data + more);
      if done then TwoSpaces(f.data) && Agrees(RequestLineSplit(g).(status := Done), RequestLineSplit(f).(status := Done))
      else Agrees(g.(status := Error), f.(status := Error))
  {
    if done {
      SplitAgrees(g, more);
    }
  }

  /** A message that was whole after `n` bytes is the same message with the rest of the stream behind it. */
  lemma WholeMessageAgrees(s: seq<Byte>, n: nat)
    requires Complete(Scanned(s)) && MessageEnd(Scanned(s)) <= n <= |s| && CutsDoNotMatter(s)
    ensures Agrees(OneShot(s[..n]), OneShot(s))
  {
    PrefixOfMessage(s, n);
    SpacesOfPrefixes(s, MessageEnd(Scanned(s)), n);
    CompleteSplits(s, n);
    CompleteSplits(s, |s|);
    assert s[..|s|] == s;
    SettledAlike(Scanned(s[..n]), s[n..], TwoSpaces(s));
  }

  /** An error stays one. */
  lemma FailureAgrees(s: seq<Byte>, n: nat)
    requires n <= |s| && Scanned(s[..n]).state.Failed?
    ensures Agrees(OneShot(s[..n]), OneShot(s))
  {
    assert s[..n] + s[n..] == s;
    ScannedPrefix(s[..n], s[n..]);
  }

  lemma MadeUpItsMind(s: seq<Byte>, n: nat)
    requires n <= |s| && OneShot(s[..n]).status != Incomplete
    ensures Scanned(s[..n]).state.Failed? || (Complete(Scanned(s[..n])) && Complete(Scanned(s)))
  {
    assert s[..n] + s[n..] == s;
    ScannedPrefix(s[..n], s[n..]);
  }

  /** Chunk independence: status, URI, content start and length, header table and rewritten message are all the same. */
  lemma CutsAgree(chunks: seq<seq<Byte>>)
    requires CutsDoNotMatter(Stream(chunks))
    ensures Agrees(Feed(chunks), OneShot(Stream(chunks)))
  {
    var k := FeedIsOneShot(chunks);
    var s, n := Stream(chunks), |Stream(chunks[..k])|;
    assert s[..n] == Stream(chunks[..k]);
    if k == |chunks| {
      assert chunks[..k] == chunks;
    } else {
      MadeUpItsMind(s, n);
      if Scanned(s[..n]).state.Failed? {
        FailureAgrees(s, n);
      } else {
        PrefixOfMessage(s, n);
        WholeMessageAgrees(s, n);
      }
    }
  }

  lemma EndDecides(s: seq<Byte>)
    requires !CutsDoNotMatter(s)
    ensures MessageEnd(Scanned(s)) <= |s| && OneShot(s).status == Done
    ensures OneShot(s[..MessageEnd(Scanned(s))]).status == Error
  {
    PrefixOfMessage(s, |s|);
    var end := MessageEnd(Scanned(s));
    CompleteSplits(s, end);
    CompleteSplits(s, |s|);
    assert s[..|s|] == s;
  }

  /** Where the condition fails, cutting the stream right behind the message turns success into an error. */
  lemma CutMatters(s: seq<Byte>) returns (chunks: seq<seq<Byte>>)
    requires !CutsDoNotMatter(s)
    ensures Stream(chunks) == s && Feed(chunks).status == Error && OneShot(s).status == Done
  {
    EndDecides(s);
    var end := MessageEnd(Scanned(s));
    chunks := [s[..end], s[end..]];
    TwoChunks(s[..end], s[end..]);
    assert s[..end] + s[end..] == s;
  }

  /** There are such streams: a request line without spaces, with two of them right behind the message. */
  lemma CutsCanMatter() returns (s: seq<Byte>)
    ensures s == [71, CR, LF, CR, LF, SP, SP] && !CutsDoNotMatter(s)
  {
    s := [71, CR, LF, CR, LF, SP, SP];
    var p0 := NewParser();
    var p1 := Step(p0, 71);
    var p2 := Step(p1, CR);
    var p3 := Step(p2, LF);
    var p4 := Step(p3, CR);
    var p5 := Step(p4, LF);
    assert p1.state == RequestLine && p2.state == RequestLineCr && p3.state == RequestLineCrlf;
    assert p4.state == RequestLineCrlfCr && p5.state == Content && p5.contentStart == 5 && p5.keys == [];
    assert Scan(p4, [LF, SP, SP]).contentStart == 5 && Scan(p4, [LF, SP, SP]).state == Content;
    assert Scan(p4, [LF, SP, SP]).contentLength == Atoi([]);
    assert s[1..] == [CR, LF, CR, LF, SP, SP] && s[1..][1..] == [LF, CR, LF, SP, SP];
    assert [LF, CR, LF, SP, SP][1..] == [CR, LF, SP, SP] && [CR, LF, SP, SP][1..] == [LF, SP, SP];
    assert Scan(p3, [CR, LF, SP, SP]) == Scan(p4, [LF, SP, SP]);
    assert Scan(p2, [LF, CR, LF, SP, SP]) == Scan(p3, [CR, LF, SP, SP]);
    assert Scan(p1, [CR, LF, CR, LF, SP, SP]) == Scan(p2, [LF, CR, LF, SP, SP]);
    assert Scanned(s) == Scan(p1, s[1..]);
    SpaceAt(s, 0, 5);
    SpaceAt(s, 6, 6);
    SpaceAt(s[..5], 0, 5);
  }

  lemma {:induction false} SpaceAt(s: seq<Byte>, from: nat, at: nat)
    requires from <= at <= |s| && (forall i :: from <= i < at ==> s[i] != SP) && (at < |s| ==> s[at] == SP)
    ensures FindByte(s, SP, from) == at
    decreases at - from
  {
    if from < at {
      SpaceAt(s, from + 1, at);
    }
  }

  lemma TwoChunks(a: seq<Byte>, b: seq<Byte>)
    ensures Stream([a, b]) == a + b && Feed([a, b]) == AddBytes(OneShot(a), b)
  {
    assert [a, b][..1] == [a] && [a][..0] == [];
    assert Stream([]) == [] && Stream([a]) == [] + a == a;
    assert Feed([]) == NewParser() && Feed([a]) == OneShot(a);
  }

  /** All ways of cutting the stream agree exactly if its message has two spaces, or the whole of it has not. */
  lemma CutsAgreeIff(s: seq<Byte>)
    ensures (forall chunks :: Stream(chunks) == s ==> Agrees(Feed(chunks), OneShot(s))) <==> CutsDoNotMatter(s)
  {
    if CutsDoNotMatter(s) {
      forall chunks | Stream(chunks) == s ensures Agrees(Feed(chunks), OneShot(s)) {
        CutsAgree(chunks);
      }
    } else {
      var chunks := CutMatters(s);
      assert !Agrees(Feed(chunks), OneShot(s));
    }
  }

  lemma {:induction false} LineWithoutEnd(p: Parser, rest: seq<Byte>)
    requires p.state.RequestLine? && CR !in rest
    ensures Scan(p, rest).state.RequestLine?
    decreases |rest|
  {
    if rest != [] {
      assert Step(p, rest[0]).state.RequestLine?;
      LineWithoutEnd(Step(p, rest[0]), rest[1..]);
    }
  }

  /** What a sender can see to: with two spaces in front of the first carriage return, cuts never matter. */
  lemma TwoSpacesInLineSuffice(s: seq<Byte>)
    requires TwoSpaces(s[..FindByte(s, CR, 0)])
    ensures CutsDoNotMatter(s)
  {
    var n := FindByte(s, CR, 0);
    LineWithoutEnd(NewParser(), s[..n]);
    if Complete(Scanned(s)) {
      PrefixOfMessage(s, n);
      var end := MessageEnd(Scanned(s));
      assert s[..n] + s[n..end] == s[..end];
      TwoSpacesInPrefix(s[..n], s[n..end]);
    }
  }

  function Singles(s: seq<Byte>): seq<seq<Byte>> {
    if s == [] then [] else Singles(s[..|s| - 1]) + [[s[|s| - 1]]]
  }

  lemma {:induction false} SinglesStream(s: seq<Byte>)
    ensures Stream(Singles(s)) == s
  {
    if s != [] {
      SinglesStream(s[..|s| - 1]);
      assert Singles(s)[..|Singles(s)| - 1] == Singles(s[..|s| - 1]);
    }
  }

  /** Fed byte by byte, a message with two spaces is first reported done with its last byte. */
  lemma DoneWithTheLastByte(s: seq<Byte>, n: nat)
    requires Complete(Scanned(s)) && MessageEnd(Scanned(s)) <= |s| && TwoSpaces(s[..MessageEnd(Scanned(s))]) && n <= |s|
    ensures Feed(Singles(s[..n])).status == if n < MessageEnd(Scanned(s)) then Incomplete else Done
  {
    var end := MessageEnd(Scanned(s));
    PrefixOfMessage(s, n);
    SinglesStream(s[..n]);
    if end <= n {
      assert s[..n][..end] == s[..end] && s[..end] + s[end..n] == s[..n];
      TwoSpacesInPrefix(s[..end], s[end..n]);
      CompleteSplits(s, n);
      assert MessageEnd(Scanned(s[..n])) == end;
    } else {
      ScannedPrefix(s[..n], []);
      assert s[..n] + [] == s[..n];
    }
    CutsAgree(Singles(s[..n]));
  }
}
