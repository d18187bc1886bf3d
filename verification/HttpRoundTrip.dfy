/**
  Requests as sections 3 and 5 of RFC 9112 write them, and what the parser (airplay/utils/HttpParser.cpp) finds in them,
  however they arrive.
*/
module HttpRoundTrip {
  import opened Bytes
  import opened HttpRequest
  import opened HttpChunks
  import opened HttpLookups
  import HttpParser

  datatype Header = Header(name: seq<Byte>, value: seq<Byte>)

  datatype Request = Request(verb: seq<Byte>, uri: seq<Byte>, version: seq<Byte>, headers: seq<Header>, body: seq<Byte>)

  /** A header the parser tells from its neighbours: an empty value would take the line's own carriage return in. */
  predicate Readable(h: Header) {
    && h.name != [] && h.name[0] != 13 && 58 !in h.name[1..]
    && h.value != [] && 13 !in h.value[1..]
  }

  /** And one that can be looked up: a zero would cut name or value short. */
  predicate GoodHeader(h: Header) {
    Readable(h) && 0 !in h.name && 0 !in h.value
  }

  predicate GoodWord(s: seq<Byte>) {
    32 !in s && 13 !in s && 0 !in s
  }

  predicate Good(r: Request) {
    && GoodWord(r.verb) && GoodWord(r.uri) && 13 !in r.version
    && forall i :: 0 <= i < |r.headers| ==> GoodHeader(r.headers[i])
  }

  // ---------------------------------------------------------------- printing

  function PrintLine(r: Request): seq<Byte> {
    r.verb + [32] + r.uri + [32] + r.version
  }

  function PrintHeader(h: Header): seq<Byte> {
    h.name + [58, 32] + h.value + [13, 10]
  }

  function PrintHeaders(headers: seq<Header>): seq<Byte> {
    if headers == [] then [] else PrintHeader(headers[0]) + PrintHeaders(headers[1..])
  }

  function PrintHead(r: Request): seq<Byte> {
    PrintLine(r) + [13, 10] + (PrintHeaders(r.headers) + [13, 10])
  }

  function Print(r: Request): seq<Byte> {
    PrintHead(r) + r.body
  }

  // ---------------------------------------------------------------- what the scan makes of it

  function LowerAll(s: seq<Byte>): (r: seq<Byte>)
    ensures |r| == |s|
  {
    seq(|s|, i requires 0 <= i < |s| => ToLower(s[i]))
  }

  function StoredHeader(h: Header): seq<Byte> {
    LowerAll(h.name) + [0, SP] + h.value + [0, LF]
  }

  function StoredHeaders(headers: seq<Header>): seq<Byte> {
    if headers == [] then [] else StoredHeader(headers[0]) + StoredHeaders(headers[1..])
  }

  /** Where the names of the headers stand, the first at `at`. */
  function Places(headers: seq<Header>, at: nat): seq<nat> {
    if headers == [] then [] else [at] + Places(headers[1..], at + |StoredHeader(headers[0])|)
  }

  lemma {:induction false} ScanText(p: Parser, s: seq<Byte>)
    requires (p.state.RequestLine? || p.state.PValue?) && CR !in s
    ensures Scan(p, s) == p.(data := p.data + s)
    decreases |s|
  {
    if s == [] {
      assert p.data + s == p.data;
    } else {
      var q := Step(p, s[0]);
      assert s[0] in s && q == p.(data := p.data + [s[0]]);
      ScanText(q, s[1..]);
      assert q.data + s[1..] == p.data + s;
    }
  }

  lemma {:induction false} ScanName(p: Parser, s: seq<Byte>)
    requires p.state.PKey? && COLON !in s
    ensures Scan(p, s) == p.(data := p.data + LowerAll(s))
    decreases |s|
  {
    if s == [] {
      assert p.data + LowerAll(s) == p.data;
    } else {
      var q := Step(p, s[0]);
      assert s[0] in s && q == p.(data := p.data + [ToLower(s[0])]);
      ScanName(q, s[1..]);
      assert q.data + LowerAll(s[1..]) == p.data + LowerAll(s);
    }
  }

  /** Two characters that do not end the header. */
  lemma ScanTwo(p: Parser, a: Byte, b: Byte)
    requires !HeaderDone(Step(p, a).state) && !HeaderDone(Step(Step(p, a), b).state)
    ensures Scan(p, [a, b]) == Step(Step(p, a), b)
  {
    assert [a, b][1..] == [b] && [b][1..] == [];
    assert Scan(Step(p, a), [b]) == Step(Step(p, a), b);
  }

  /** A part that leaves the header open, and the next one. */
  lemma ScanOn(p: Parser, a: seq<Byte>, b: seq<Byte>)
    requires !HeaderDone(p.state) && !HeaderDone(Scan(p, a).state)
    ensures Scan(p, a + b) == Scan(Scan(p, a), b)
  {
    ScanConcat(p, a, b);
  }

  lemma ScanRequestLine(line: seq<Byte>)
    requires CR !in line
    ensures Scanned(line + [CR, LF]) == NewParser().(data := line + [0, LF], state := RequestLineCrlf)
  {
    var p := NewParser();
    ScanText(p, line);
    assert [] + line == line;
    ScanOn(p, line, [CR, LF]);
    ScanLineEnd(p.(data := line));
  }

  lemma ScanLineEnd(p: Parser)
    requires p.state.RequestLine?
    ensures Scan(p, [CR, LF]) == p.(data := p.data + [0, LF], state := RequestLineCrlf)
  {
    ScanTwo(p, CR, LF);
    assert Step(p, CR).data + [LF] == p.data + [0, LF];
  }

  predicate LineStart(state: FsmState) {
    state.RequestLineCrlf? || state.PValueCrlf?
  }

  /** The parser behind a header line. */
  function BehindHeader(p: Parser, h: Header): Parser {
    var k := |p.data|;
    p.(data := p.data + StoredHeader(h), headerStart := if p.state.RequestLineCrlf? then k else p.headerStart,
       keyIndex := k, valueIndex := k + |h.name| + 2, keys := p.keys + [k], state := PValueCrlf)
  }

  /** The first character of a name opens it. */
  lemma OpenName(p: Parser, c: Byte)
    requires LineStart(p.state) && c != CR
    ensures var k := |p.data|; Step(p, c) == p.(data := p.data + [ToLower(c)], state := PKey, keyIndex := k,
      headerStart := if p.state.RequestLineCrlf? then k else p.headerStart)
  {
  }

  lemma LowerFirst(data: seq<Byte>, name: seq<Byte>)
    requires name != []
    ensures data + [ToLower(name[0])] + LowerAll(name[1..]) == data + LowerAll(name)
  {
  }

  lemma ScanHeaderName(p: Parser, h: Header)
    requires LineStart(p.state) && Readable(h)
    ensures Scan(p, h.name) == BehindHeader(p, h).(data := p.data + LowerAll(h.name), valueIndex := p.valueIndex, keys := p.keys,
                                                   state := PKey)
  {
    var q := Step(p, h.name[0]);
    OpenName(p, h.name[0]);
    assert COLON !in h.name[1..];
    ScanName(q, h.name[1..]);
    LowerFirst(p.data, h.name);
  }

  /** The colon and the space. */
  lemma ScanColon(p: Parser)
    requires p.state.PKey?
    ensures Scan(p, [COLON, SP]) == p.(data := p.data + [0, SP], state := PKeyColonSp)
  {
    ScanTwo(p, COLON, SP);
    assert Step(p, COLON).data + [SP] == p.data + [0, SP];
  }

  lemma ScanHeaderValue(p: Parser, value: seq<Byte>)
    requires p.state.PKeyColonSp? && value != [] && CR !in value[1..]
    ensures Scan(p, value) == p.(data := p.data + value, valueIndex := |p.data|, state := PValue)
  {
    var q := Step(p, value[0]);
    assert q.data == p.data + [value[0]];
    ScanText(q, value[1..]);
    assert q.data + value[1..] == p.data + value;
  }

  lemma ScanValueEnd(p: Parser)
    requires p.state.PValue?
    ensures Scan(p, [CR, LF]) == p.(data := p.data + [0, LF], keys := p.keys + [p.keyIndex], state := PValueCrlf)
  {
    ScanTwo(p, CR, LF);
    assert Step(p, CR).data + [LF] == p.data + [0, LF];
  }

  lemma ScanHeader(p: Parser, h: Header)
    requires LineStart(p.state) && Readable(h)
    ensures Scan(p, PrintHeader(h)) == BehindHeader(p, h)
  {
    ScanHeaderName(p, h);
    var q := Scan(p, h.name);
    ScanColon(q);
    ScanOn(p, h.name, [COLON, SP]);
    var u := Scan(p, h.name + [COLON, SP]);
    ScanHeaderValue(u, h.value);
    ScanOn(p, h.name + [COLON, SP], h.value);
    var v := Scan(p, h.name + [COLON, SP] + h.value);
    ScanValueEnd(v);
    ScanOn(p, h.name + [COLON, SP] + h.value, [CR, LF]);
    StoredInParts(p.data, h);
  }

  lemma StoredInParts(data: seq<Byte>, h: Header)
    ensures data + LowerAll(h.name) + [0, SP] + h.value + [0, LF] == data + StoredHeader(h)
  {
  }

  lemma StoredCons(a: seq<Byte>, headers: seq<Header>)
    requires headers != []
    ensures a + StoredHeaders(headers) == (a + StoredHeader(headers[0])) + StoredHeaders(headers[1..])
  {
  }

  lemma PlacesCons(keys: seq<nat>, headers: seq<Header>, at: nat)
    requires headers != []
    ensures keys + Places(headers, at) == (keys + [at]) + Places(headers[1..], at + |StoredHeader(headers[0])|)
  {
  }

  /** The parser behind all header lines. */
  ghost predicate BehindHeaders(p: Parser, headers: seq<Header>, q: Parser) {
    && LineStart(q.state) && q.data == p.data + StoredHeaders(headers) && q.status == p.status
    && q.keys == p.keys + Places(headers, |p.data|)
  }

  lemma BehindMore(p: Parser, headers: seq<Header>, q: Parser)
    requires headers != [] && BehindHeaders(BehindHeader(p, headers[0]), headers[1..], q)
    ensures BehindHeaders(p, headers, q)
  {
    StoredCons(p.data, headers);
    PlacesCons(p.keys, headers, |p.data|);
  }

  lemma {:induction false} ScanHeaders(p: Parser, headers: seq<Header>)
    requires LineStart(p.state) && forall i :: 0 <= i < |headers| ==> Readable(headers[i])
    ensures BehindHeaders(p, headers, Scan(p, PrintHeaders(headers)))
    decreases |headers|
  {
    if headers == [] {
      assert p.data + [] == p.data && p.keys + [] == p.keys;
    } else {
      var q := BehindHeader(p, headers[0]);
      ScanHeader(p, headers[0]);
      ScanOn(p, PrintHeader(headers[0]), PrintHeaders(headers[1..]));
      ScanHeaders(q, headers[1..]);
      BehindMore(p, headers, Scan(q, PrintHeaders(headers[1..])));
    }
  }

  /** The empty line and the body. */
  lemma ScanEnd(p: Parser, body: seq<Byte>)
    requires LineStart(p.state)
    ensures Scan(p, [CR, LF] + body) == p.(data := p.data + [CR, LF] + body, state := Content, contentStart := |p.data| + 2,
                                           contentLength := Atoi(Lookup(p.data + [CR, LF], p.keys, CONTENT_LENGTH)))
  {
    var s := [CR, LF] + body;
    var q := Step(p, CR);
    assert s[1..] == [LF] + body && s[1..][1..] == body;
    assert q.data == p.data + [CR] && (q.state.RequestLineCrlfCr? || q.state.PValueCrlfCr?);
    assert Step(q, LF).data == p.data + [CR, LF];
  }

  // ---------------------------------------------------------------- looking headers up again

  /** The value of the first header with this name, in whatever case. */
  function FirstValue(headers: seq<Header>, key: seq<Byte>): seq<Byte> {
    if headers == [] then [] else if LowerAll(headers[0].name) == key then headers[0].value else FirstValue(headers[1..], key)
  }

  lemma {:induction false} CStrOf(a: seq<Byte>, s: seq<Byte>, b: seq<Byte>)
    requires 0 !in s
    ensures CStr(a + s + [0] + b, |a|) == s
    decreases |s|
  {
    var data := a + s + [0] + b;
    if s != [] {
      assert s[0] in s && data[|a|] == s[0];
      CStrOf(a + [s[0]], s[1..], b);
      assert a + [s[0]] + s[1..] + [0] + b == data;
    }
  }

  lemma LowerKeepsNonZero(s: seq<Byte>)
    requires 0 !in s
    ensures 0 !in LowerAll(s)
  {
  }

  lemma HeaderIsStored(a: seq<Byte>, h: Header, b: seq<Byte>)
    requires GoodHeader(h)
    ensures CStr(a + StoredHeader(h) + b, |a|) == LowerAll(h.name)
    ensures CStr(a + StoredHeader(h) + b, |a| + |h.name| + 2) == h.value
  {
    var name := LowerAll(h.name);
    LowerKeepsNonZero(h.name);
    CStrOf(a, name, [SP] + h.value + [0, LF] + b);
    assert a + name + [0] + ([SP] + h.value + [0, LF] + b) == a + StoredHeader(h) + b;
    CStrOf(a + name + [0, SP], h.value, [LF] + b);
    assert (a + name + [0, SP]) + h.value + [0] + ([LF] + b) == a + StoredHeader(h) + b;
  }

  /** One key of the lookup. */
  lemma LookupFirst(data: seq<Byte>, a: seq<Byte>, h: Header, b: seq<Byte>, keys: seq<nat>, key: seq<Byte>)
    requires GoodHeader(h) && data == a + StoredHeader(h) + b && keys != [] && keys[0] == |a|
    ensures Lookup(data, keys, key) == if LowerAll(h.name) == key then h.value else Lookup(data, keys[1..], key)
  {
    HeaderIsStored(a, h, b);
  }

  lemma {:induction false} LookupFinds(data: seq<Byte>, a: seq<Byte>, headers: seq<Header>, b: seq<Byte>, key: seq<Byte>)
    requires data == a + StoredHeaders(headers) + b
    requires forall i :: 0 <= i < |headers| ==> GoodHeader(headers[i])
    ensures Lookup(data, Places(headers, |a|), key) == FirstValue(headers, key)
    decreases |headers|
  {
    if headers != [] {
      var more := a + StoredHeader(headers[0]);
      StoredCons(a, headers);
      LookupFinds(data, more, headers[1..], b, key);
      Associate(more, StoredHeaders(headers[1..]), b);
      LookupFirst(data, a, headers[0], StoredHeaders(headers[1..]) + b, Places(headers, |a|), key);
    }
  }

  // ---------------------------------------------------------------- the whole request

  function StoredLine(r: Request): seq<Byte> {
    PrintLine(r) + [0, LF]
  }

  lemma {:induction false} HeadersKeepLength(headers: seq<Header>)
    ensures |StoredHeaders(headers)| == |PrintHeaders(headers)|
  {
    if headers != [] {
      HeadersKeepLength(headers[1..]);
    }
  }

  /** The parser before the empty line. */
  lemma ScanHead(r: Request)
    requires Good(r)
    ensures var p := NewParser().(data := StoredLine(r), state := RequestLineCrlf);
      && !HeaderDone(Scanned(PrintLine(r) + [CR, LF] + PrintHeaders(r.headers)).state)
      && BehindHeaders(p, r.headers, Scanned(PrintLine(r) + [CR, LF] + PrintHeaders(r.headers)))
  {
    var line, headers := PrintLine(r) + [CR, LF], PrintHeaders(r.headers);
    ScanRequestLine(PrintLine(r));
    ScanOn(NewParser(), line, headers);
    ScanHeaders(Scanned(line), r.headers);
  }

  lemma ContentLengthIsRead(r: Request, q: Parser)
    requires Good(r) && BehindHeaders(NewParser().(data := StoredLine(r), state := RequestLineCrlf), r.headers, q)
    ensures q.keys == Places(r.headers, |StoredLine(r)|)
    ensures Lookup(q.data + [CR, LF], q.keys, CONTENT_LENGTH) == FirstValue(r.headers, CONTENT_LENGTH)
  {
    assert q.keys == [] + Places(r.headers, |StoredLine(r)|) == Places(r.headers, |StoredLine(r)|);
    LookupFinds(q.data + [CR, LF], StoredLine(r), r.headers, [CR, LF], CONTENT_LENGTH);
  }

  lemma PrintInParts(r: Request)
    ensures Print(r) == PrintLine(r) + [CR, LF] + PrintHeaders(r.headers) + ([CR, LF] + r.body)
    ensures |PrintHead(r)| == |StoredLine(r)| + |StoredHeaders(r.headers)| + 2
  {
    HeadersKeepLength(r.headers);
  }

  /** What the scan makes of a printed request. */
  lemma ScanRequest(r: Request)
    requires Good(r)
    ensures var p := Scanned(Print(r));
      && p.state.Content? && p.status == Incomplete && p.contentStart == |PrintHead(r)|
      && p.contentLength == Atoi(FirstValue(r.headers, CONTENT_LENGTH))
      && p.data == StoredLine(r) + StoredHeaders(r.headers) + ([CR, LF] + r.body)
      && p.keys == Places(r.headers, |StoredLine(r)|)
  {
    var head := PrintLine(r) + [CR, LF] + PrintHeaders(r.headers);
    var q := Scanned(head);
    ScanHead(r);
    ScanOn(NewParser(), head, [CR, LF] + r.body);
    ScanEnd(q, r.body);
    ContentLengthIsRead(r, q);
    PrintInParts(r);
    Associate(q.data, [CR, LF], r.body);
  }

  lemma {:induction false} SpaceIs(s: seq<Byte>, from: nat, at: nat)
    requires from <= at < |s| && s[at] == SP && forall i :: from <= i < at ==> s[i] != SP
    ensures FindByte(s, SP, from) == at
    decreases at - from
  {
    if from < at {
      SpaceIs(s, from + 1, at);
    }
  }

  lemma SpacesOfLine(r: Request, more: seq<Byte>)
    requires Good(r)
    ensures var s, sp1 := PrintLine(r) + more, |r.verb|;
      FindByte(s, SP, 0) == sp1 && FindByte(s, SP, sp1 + 1) == sp1 + 1 + |r.uri| < |s| && TwoSpaces(s)
  {
    var s, sp1 := PrintLine(r) + more, |r.verb|;
    assert forall i :: 0 <= i < |r.verb| ==> s[i] == r.verb[i];
    assert forall i :: 0 <= i < |r.uri| ==> s[sp1 + 1 + i] == r.uri[i];
    assert forall i :: sp1 + 1 <= i < sp1 + 1 + |r.uri| ==> s[i] == r.uri[i - sp1 - 1];
    assert s[sp1 + 1 + |r.uri|] == SP;
    SpaceIs(s, 0, sp1);
    SpaceIs(s, sp1 + 1, sp1 + 1 + |r.uri|);
  }

  /** The request line with its spaces turned into zeros. */
  function SplitLine(r: Request): seq<Byte> {
    r.verb + [0] + r.uri + [0] + r.version + [0, LF]
  }

  lemma SplitOfLine(r: Request, more: seq<Byte>)
    ensures var s, sp1 := StoredLine(r) + more, |r.verb|;
      sp1 + 1 + |r.uri| < |s| && s[sp1 := 0][sp1 + 1 + |r.uri| := 0] == SplitLine(r) + more
    ensures |SplitLine(r)| == |StoredLine(r)|
  {
    var s, sp1 := StoredLine(r) + more, |r.verb|;
    var t := s[sp1 := 0][sp1 + 1 + |r.uri| := 0];
    assert |t| == |SplitLine(r) + more|;
    forall i | 0 <= i < |t| ensures t[i] == (SplitLine(r) + more)[i] {
    }
  }

  /** What a printed request parses to. */
  ghost predicate Parsed(p: Parser, r: Request) {
    && p.status == Done
    && CStr(p.data, 0) == r.verb && CStr(p.data, p.uriIndex) == r.uri
    && p.contentStart == |PrintHead(r)| <= |p.data|
    && p.contentLength == Atoi(FirstValue(r.headers, CONTENT_LENGTH))
    && p.data[p.contentStart..] == r.body
    && forall key :: Lookup(p.data, p.keys, key) == FirstValue(r.headers, key)
  }

  lemma SplitData(r: Request, p: Parser, more: seq<Byte>)
    requires Good(r) && p.data == StoredLine(r) + more
    ensures TwoSpaces(p.data)
    ensures RequestLineSplit(p).data == SplitLine(r) + more && RequestLineSplit(p).uriIndex == |r.verb| + 1
  {
    Associate(PrintLine(r), [0, LF], more);
    SpacesOfLine(r, [0, LF] + more);
    SplitOfLine(r, more);
  }

  lemma SplitRequest(r: Request)
    requires Good(r)
    ensures TwoSpaces(Scanned(Print(r)).data)
    ensures var q := RequestLineSplit(Scanned(Print(r)));
      q.data == SplitLine(r) + (StoredHeaders(r.headers) + ([CR, LF] + r.body)) && q.uriIndex == |r.verb| + 1
  {
    ScanRequest(r);
    Associate(StoredLine(r), StoredHeaders(r.headers), [CR, LF] + r.body);
    SplitData(r, Scanned(Print(r)), StoredHeaders(r.headers) + ([CR, LF] + r.body));
  }

  /** Method and URI end at the zeros that were spaces. */
  lemma WordsOfLine(r: Request, more: seq<Byte>)
    requires Good(r)
    ensures CStr(SplitLine(r) + more, 0) == r.verb && CStr(SplitLine(r) + more, |r.verb| + 1) == r.uri
  {
    CStrOf([], r.verb, r.uri + [0] + r.version + [0, LF] + more);
    assert [] + r.verb + [0] + (r.uri + [0] + r.version + [0, LF] + more) == SplitLine(r) + more;
    CStrOf(r.verb + [0], r.uri, r.version + [0, LF] + more);
    assert (r.verb + [0]) + r.uri + [0] + (r.version + [0, LF] + more) == SplitLine(r) + more;
  }

  lemma SplitIsParsed(r: Request)
    requires Good(r) && TwoSpaces(Scanned(Print(r)).data)
    ensures Parsed(RequestLineSplit(Scanned(Print(r))).(status := Done), r)
  {
    ScanRequest(r);
    SplitRequest(r);
    StoredIsParsed(r, RequestLineSplit(Scanned(Print(r))).(status := Done));
  }

  lemma StoredIsParsed(r: Request, q: Parser)
    requires Good(r) && q.status == Done && q.uriIndex == |r.verb| + 1
    requires q.data == SplitLine(r) + (StoredHeaders(r.headers) + ([CR, LF] + r.body))
    requires q.keys == Places(r.headers, |StoredLine(r)|) && q.contentStart == |PrintHead(r)|
    requires q.contentLength == Atoi(FirstValue(r.headers, CONTENT_LENGTH))
    ensures Parsed(q, r)
  {
    SplitOfLine(r, []);
    PrintInParts(r);
    WordsOfLine(r, StoredHeaders(r.headers) + ([CR, LF] + r.body));
    Associate(SplitLine(r), StoredHeaders(r.headers), [CR, LF] + r.body);
    forall key ensures Lookup(q.data, q.keys, key) == FirstValue(r.headers, key) {
      LookupFinds(q.data, SplitLine(r), r.headers, [CR, LF] + r.body, key);
    }
    BodyIsBehind(SplitLine(r) + StoredHeaders(r.headers), r.body);
  }

  lemma BodyIsBehind(a: seq<Byte>, body: seq<Byte>)
    ensures (a + ([CR, LF] + body))[|a| + 2..] == body
  {
  }

  /**
    A printed request, in one call: method, URI, body, Content-Length and the first value of every name come back as soon
    as the body is as long as Content-Length says, and the parser waits for more until then.
  */
  lemma PrintedRequestParses(r: Request)
    requires Good(r)
    ensures if |r.body| >= Atoi(FirstValue(r.headers, CONTENT_LENGTH)) then Parsed(OneShot(Print(r)), r)
            else OneShot(Print(r)).status == Incomplete
  {
    ScanRequest(r);
    SplitRequest(r);
    PrintInParts(r);
    if |r.body| >= Atoi(FirstValue(r.headers, CONTENT_LENGTH)) {
      SplitIsParsed(r);
    }
  }

  lemma PrintedCutsDoNotMatter(r: Request)
    requires Good(r)
    ensures CutsDoNotMatter(Print(r))
  {
    ScanRequest(r);
    var s := Print(r);
    if Complete(Scanned(s)) {
      PrefixOfMessage(s, |s|);
      var end := MessageEnd(Scanned(s));
      assert |PrintLine(r)| <= end;
      var more := s[|PrintLine(r)|..end];
      assert s[..|PrintLine(r)|] == PrintLine(r);
      assert s[..end] == PrintLine(r) + more;
      SpacesOfLine(r, more);
    }
  }

  /** And the same however it is cut into calls, except for body bytes beyond Content-Length, which it need not wait for. */
  lemma PrintedChunksParse(r: Request, chunks: seq<seq<Byte>>, key: seq<Byte>)
    requires Good(r) && Stream(chunks) == Print(r) && |r.body| >= Atoi(FirstValue(r.headers, CONTENT_LENGTH))
    ensures var p := Feed(chunks);
      && p.status == Done && p.contentStart == |PrintHead(r)|
      && CStr(p.data, 0) == r.verb && CStr(p.data, p.uriIndex) == r.uri
      && p.contentLength == Atoi(FirstValue(r.headers, CONTENT_LENGTH))
      && p.contentStart + p.contentLength <= |p.data|
      && p.data[p.contentStart..][..p.contentLength] == r.body[..p.contentLength]
      && Lookup(p.data, p.keys, key) == FirstValue(r.headers, key)
  {
    PrintedRequestParses(r);
    PrintedCutsDoNotMatter(r);
    CutsAgree(chunks);
    CutsAgreeOnLookups(chunks, key);
    AgreeingFields(Feed(chunks), OneShot(Print(r)));
    HttpParser.CutsAgreeOnRequestLine(chunks);
    FeedHoldsMessage(chunks);
    AgreeingBodies(Feed(chunks), OneShot(Print(r)));
  }

  lemma AgreeingFields(p: Parser, q: Parser)
    requires Agrees(p, q)
    ensures p.status == q.status && p.contentStart == q.contentStart && p.contentLength == q.contentLength
  {
    assert p.status == p.(data := []).status && p.contentStart == p.(data := []).contentStart;
    assert p.contentLength == p.(data := []).contentLength;
  }

  lemma AgreeingBodies(p: Parser, q: Parser)
    requires Agrees(p, q) && MessageEnd(p) <= |p.data|
    ensures q.contentStart == p.contentStart <= |q.data| && p.contentLength <= |q.data| - q.contentStart
    ensures p.data[p.contentStart..][..p.contentLength] == q.data[q.contentStart..][..p.contentLength]
  {
    AgreeingFields(p, q);
    assert p.data == q.data[..|p.data|];
  }

  /** A parser that is done holds the whole message. */
  lemma FeedHoldsMessage(chunks: seq<seq<Byte>>)
    requires Feed(chunks).status == Done
    ensures MessageEnd(Feed(chunks)) <= |Feed(chunks).data|
  {
    var k := FeedIsOneShot(chunks);
    var x := Stream(chunks[..k]);
    ScannedPrefix(x, []);
    ScanBounds(NewParser(), x);
  }

  // ---------------------------------------------------------------- Content-Length in decimal

  function Decimal(n: nat): seq<Byte> {
    if n < 10 then [48 + n] else Decimal(n / 10) + [48 + n % 10]
  }

  predicate AllDigits(s: seq<Byte>) {
    forall i :: 0 <= i < |s| ==> IsDigit(s[i])
  }

  lemma {:induction false} DigitsOfMore(s: seq<Byte>, d: Byte, n: nat)
    requires AllDigits(s) && IsDigit(d)
    ensures Digits(s + [d], n) == 10 * Digits(s, n) + (d - 48)
    decreases |s|
  {
    if s == [] {
      assert (s + [d])[1..] == [];
    } else {
      DigitsOfMore(s[1..], d, 10 * n + (s[0] - 48));
      assert (s + [d])[1..] == s[1..] + [d];
    }
  }

  lemma {:induction false} DecimalDigits(n: nat)
    ensures AllDigits(Decimal(n)) && Decimal(n) != [] && Digits(Decimal(n), 0) == n
  {
    if n >= 10 {
      DecimalDigits(n / 10);
      DigitsOfMore(Decimal(n / 10), 48 + n % 10, 0);
    } else {
      assert [48 + n][1..] == [];
    }
  }

  /** atoi of what a sender writes, below 2^31, from where on C leaves atoi undefined. */
  lemma AtoiOfDecimal(n: nat)
    requires n < 0x8000_0000
    ensures Atoi(Decimal(n)) == n
  {
    DecimalDigits(n);
    assert IsDigit(Decimal(n)[0]);
  }

  lemma StatedLengthEnds(r: Request)
    requires Good(r) && |r.body| < 0x8000_0000 && FirstValue(r.headers, CONTENT_LENGTH) == Decimal(|r.body|)
    ensures Complete(Scanned(Print(r))) && MessageEnd(Scanned(Print(r))) == |Print(r)|
  {
    AtoiOfDecimal(|r.body|);
    ScanRequest(r);
    PrintInParts(r);
  }

  /** A request that states the length of its body is done exactly with the last byte of it. */
  lemma StatedLengthIsKept(r: Request, n: nat)
    requires Good(r) && |r.body| < 0x8000_0000 && FirstValue(r.headers, CONTENT_LENGTH) == Decimal(|r.body|)
    requires n <= |Print(r)|
    ensures Feed(Singles(Print(r)[..n])).status == if n < |Print(r)| then Incomplete else Done
  {
    var s := Print(r);
    StatedLengthEnds(r);
    assert s[..|s|] == s;
    PrintStartsWithLine(r);
    SpacesOfLine(r, s[|PrintLine(r)|..]);
    DoneWithTheLastByte(s, n);
  }

  lemma PrintStartsWithLine(r: Request)
    ensures |PrintLine(r)| <= |Print(r)| && Print(r) == PrintLine(r) + Print(r)[|PrintLine(r)|..]
  {
    Associate(PrintLine(r), [CR, LF], PrintHeaders(r.headers));
    PrintInParts(r);
    assert Print(r)[..|PrintLine(r)|] == PrintLine(r);
  }
}
