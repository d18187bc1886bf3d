/**
  Which streams of bytes the request parser (airplay/utils/HttpParser.cpp, lines 81-209) takes for a head, which it
  refuses and where, and what it makes of the numbers and names in it, in the bytes themselves.
*/
module HttpGrammar {
  import opened Bytes
  import opened HttpRequest
  import opened HttpChunks
  import opened HttpRoundTrip
  import HttpParser

  // ---------------------------------------------------------------- heads

  ghost predicate Lines(line: seq<Byte>, headers: seq<Header>) {
    13 !in line && forall i :: 0 <= i < |headers| ==> Readable(headers[i])
  }

  function Top(line: seq<Byte>, headers: seq<Header>): seq<Byte> {
    line + [13, 10] + PrintHeaders(headers)
  }

  function Head(line: seq<Byte>, headers: seq<Header>): seq<Byte> {
    Top(line, headers) + [13, 10]
  }

  /** The stream is a head and something behind it. */
  ghost predicate IsMessage(s: seq<Byte>, line: seq<Byte>, headers: seq<Header>, rest: seq<Byte>) {
    Lines(line, headers) && s == Head(line, headers) + rest
  }

  /** What a stream that will not become a head looks like up to the character that gives it away. */
  datatype Fault =
    | BareReturn              // a request line whose carriage return is not followed by a line feed
    | BareReturnAfterHeaders  // nor is the one of the empty line
    | ColonAlone(name: seq<Byte>)  // a colon without a space
    | BareReturnInValue(name: seq<Byte>, value: seq<Byte>)
  {
    ghost predicate Real() {
      match this
      case ColonAlone(name) => name != [] && name[0] != 13 && 58 !in name[1..]
      case BareReturnInValue(name, value) => Readable(Header(name, value))
      case _ => true
    }

    function Text(line: seq<Byte>, headers: seq<Header>): seq<Byte> {
      match this
      case BareReturn => line + [13]
      case BareReturnAfterHeaders => Top(line, headers) + [13]
      case ColonAlone(name) => Top(line, headers) + name + [58]
      case BareReturnInValue(name, value) => Top(line, headers) + name + [58, 32] + value + [13]
    }

    /** The character that had to come. */
    function Missing(): int {
      if ColonAlone? then 32 else 10
    }
  }

  ghost predicate IsBroken(s: seq<Byte>, line: seq<Byte>, headers: seq<Header>, fault: Fault, c: Byte, rest: seq<Byte>) {
    && Lines(line, headers) && fault.Real() && c != fault.Missing()
    && s == fault.Text(line, headers) + [c] + rest
  }

  // ---------------------------------------------------------------- from the grammar to the scan

  /** The scan of something that leaves the head open, and of what follows. */
  lemma ScannedOn(a: seq<Byte>, b: seq<Byte>)
    requires !HeaderDone(Scanned(a).state)
    ensures Scanned(a + b) == Scan(Scanned(a), b)
  {
    ScanOn(NewParser(), a, b);
  }

  lemma ScanTop(line: seq<Byte>, headers: seq<Header>)
    requires Lines(line, headers)
    ensures LineStart(Scanned(Top(line, headers)).state)
    ensures Scanned(Top(line, headers)).state.RequestLineCrlf? <==> headers == []
  {
    ScanRequestLine(line);
    ScannedOn(line + [13, 10], PrintHeaders(headers));
    var p := Scanned(line + [13, 10]);
    ScanHeaders(p, headers);
    StateBehindHeaders(p, headers);
  }

  lemma {:induction false} StateBehindHeaders(p: Parser, headers: seq<Header>)
    requires LineStart(p.state) && forall i :: 0 <= i < |headers| ==> Readable(headers[i])
    ensures Scan(p, PrintHeaders(headers)).state == if headers == [] then p.state else PValueCrlf
    decreases |headers|
  {
    if headers != [] {
      ScanHeader(p, headers[0]);
      ScanOn(p, PrintHeader(headers[0]), PrintHeaders(headers[1..]));
      StateBehindHeaders(BehindHeader(p, headers[0]), headers[1..]);
    }
  }

  lemma MessageIsRead(s: seq<Byte>, line: seq<Byte>, headers: seq<Header>, rest: seq<Byte>)
    requires IsMessage(s, line, headers, rest)
    ensures Scanned(s).state.Content? && Scanned(s).contentStart == |Head(line, headers)|
  {
    var top := Top(line, headers);
    ScanTop(line, headers);
    ScannedOn(top, [13, 10] + rest);
    assert s == top + ([13, 10] + rest);
    ScanEnd(Scanned(top), rest);
  }

  /** One character that fails. */
  lemma ScanFault(p: Parser, c: Byte, rest: seq<Byte>)
    requires Step(p, c).state.Failed?
    ensures Scan(p, [c] + rest).state.Failed?
  {
    assert ([c] + rest)[1..] == rest;
    FailedScan(Step(p, c), rest);
  }

  /** One character that leaves the head open. */
  lemma ScanOne(p: Parser, c: Byte)
    requires !HeaderDone(Step(p, c).state)
    ensures Scan(p, [c]) == Step(p, c)
  {
    assert [c][1..] == [];
  }

  lemma ScanAgain(a: seq<Byte>, c: Byte)
    requires !HeaderDone(Scanned(a).state) && !HeaderDone(Step(Scanned(a), c).state)
    ensures Scanned(a + [c]) == Step(Scanned(a), c)
  {
    ScannedOn(a, [c]);
    ScanOne(Scanned(a), c);
  }

  lemma ScanLine(line: seq<Byte>)
    requires 13 !in line
    ensures Scanned(line).state.RequestLine?
  {
    ScanText(NewParser(), line);
  }

  lemma ScanNameAt(line: seq<Byte>, headers: seq<Header>, name: seq<Byte>)
    requires Lines(line, headers) && name != [] && name[0] != 13 && 58 !in name[1..]
    ensures Scanned(Top(line, headers) + name).state.PKey?
  {
    ScanTop(line, headers);
    ScannedOn(Top(line, headers), name);
    ScanHeaderName(Scanned(Top(line, headers)), Header(name, [0]));
  }

  lemma ScanColonAt(line: seq<Byte>, headers: seq<Header>, name: seq<Byte>)
    requires Lines(line, headers) && name != [] && name[0] != 13 && 58 !in name[1..]
    ensures Scanned(Top(line, headers) + name + [58, 32]).state.PKeyColonSp?
  {
    ScanNameAt(line, headers, name);
    ScannedOn(Top(line, headers) + name, [58, 32]);
    ScanColon(Scanned(Top(line, headers) + name));
  }

  lemma ScanValueAt(line: seq<Byte>, headers: seq<Header>, h: Header)
    requires Lines(line, headers) && Readable(h)
    ensures Scanned(Top(line, headers) + h.name + [58, 32] + h.value).state.PValue?
  {
    ScanColonAt(line, headers, h.name);
    ScannedOn(Top(line, headers) + h.name + [58, 32], h.value);
    ScanHeaderValue(Scanned(Top(line, headers) + h.name + [58, 32]), h.value);
  }

  /** The state before the character that gives a broken head away. */
  lemma ScanBeforeFault(line: seq<Byte>, headers: seq<Header>, fault: Fault)
    requires Lines(line, headers) && fault.Real()
    ensures var state := Scanned(fault.Text(line, headers)).state;
      match fault
      case BareReturn => state == RequestLineCr
      case BareReturnAfterHeaders => state == RequestLineCrlfCr || state == PValueCrlfCr
      case ColonAlone(_) => state == PKeyColon
      case BareReturnInValue(_, _) => state == PValueCr
  {
    match fault
    case BareReturn =>
      ScanLine(line);
      ScanAgain(line, 13);
    case BareReturnAfterHeaders =>
      ScanTop(line, headers);
      ScanAgain(Top(line, headers), 13);
    case ColonAlone(name) =>
      ScanNameAt(line, headers, name);
      ScanAgain(Top(line, headers) + name, 58);
    case BareReturnInValue(name, value) =>
      ScanValueAt(line, headers, Header(name, value));
      ScanAgain(Top(line, headers) + name + [58, 32] + value, 13);
  }

  lemma BrokenIsRefused(s: seq<Byte>, line: seq<Byte>, headers: seq<Header>, fault: Fault, c: Byte, rest: seq<Byte>)
    requires IsBroken(s, line, headers, fault, c, rest)
    ensures Scanned(s).state.Failed?
  {
    var before := fault.Text(line, headers);
    ScanBeforeFault(line, headers, fault);
    ScannedOn(before, [c] + rest);
    assert s == before + ([c] + rest);
    ScanFault(Scanned(before), c, rest);
  }

  // ---------------------------------------------------------------- and back

  /** What has been read on the way to a state: complete lines, and a part of the next header. */
  ghost predicate Reads(s: seq<Byte>, state: FsmState, line: seq<Byte>, headers: seq<Header>, name: seq<Byte>, value: seq<Byte>) {
    && Lines(line, headers)
    && match state
       case RequestLine => s == line
       case RequestLineCr => s == line + [13]
       case RequestLineCrlf => headers == [] && s == Top(line, headers)
       case RequestLineCrlfCr => headers == [] && s == Top(line, headers) + [13]
       case PKey => NameOk(name) && s == Top(line, headers) + name
       case PKeyColon => NameOk(name) && s == Top(line, headers) + name + [58]
       case PKeyColonSp => NameOk(name) && s == Top(line, headers) + name + [58, 32]
       case PValue => Readable(Header(name, value)) && s == Top(line, headers) + name + [58, 32] + value
       case PValueCr => Readable(Header(name, value)) && s == Top(line, headers) + name + [58, 32] + value + [13]
       case PValueCrlf => s == Top(line, headers)
       case PValueCrlfCr => s == Top(line, headers) + [13]
       case _ => false
  }

  predicate NameOk(name: seq<Byte>) {
    name != [] && name[0] != 13 && 58 !in name[1..]
  }

  lemma {:induction false} PrintedMore(headers: seq<Header>, h: Header)
    ensures PrintHeaders(headers + [h]) == PrintHeaders(headers) + PrintHeader(h)
  {
    if headers == [] {
      assert (headers + [h])[1..] == [];
    } else {
      PrintedMore(headers[1..], h);
      assert (headers + [h])[1..] == headers[1..] + [h];
    }
  }

  lemma TopOfMore(line: seq<Byte>, headers: seq<Header>, h: Header)
    ensures Top(line, headers + [h]) == Top(line, headers) + h.name + [58, 32] + h.value + [13, 10]
  {
    PrintedMore(headers, h);
    Associate(line + [13, 10], PrintHeaders(headers), PrintHeader(h));
    var top := Top(line, headers);
    assert top + (h.name + [58, 32] + h.value + [13, 10]) == top + h.name + [58, 32] + h.value + [13, 10];
  }

  /** One more character that leaves the head open. */
  lemma ReadsOn(s: seq<Byte>, c: Byte, state: FsmState, line: seq<Byte>, headers: seq<Header>, name: seq<Byte>, value: seq<Byte>)
      returns (line': seq<Byte>, headers': seq<Header>, name': seq<Byte>, value': seq<Byte>)
    requires Reads(s, state, line, headers, name, value) && !HeaderDone(Transition(state, c).next)
    ensures Reads(s + [c], Transition(state, c).next, line', headers', name', value')
  {
    line', headers', name', value' := line, headers, name, value;
    match state
    case RequestLine =>
      if c != 13 {
        line' := line + [c];
      }
    case RequestLineCr =>
      headers' := [];
      assert s + [10] == Top(line, []);
    case RequestLineCrlf => name' := [c];
    case PValueCrlf => name' := [c];
    case PKey =>
      if c != 58 {
        name' := name + [c];
        assert name'[1..] == name[1..] + [c];
        Associate(Top(line, headers), name, [c]);
      }
    case PKeyColon => Associate(Top(line, headers) + name, [58], [32]);
    case PKeyColonSp => value' := [c];
    case PValue =>
      if c != 13 {
        value' := value + [c];
        assert value'[1..] == value[1..] + [c];
        Associate(Top(line, headers) + name + [58, 32], value, [c]);
      }
    case PValueCr =>
      headers' := headers + [Header(name, value)];
      TopOfMore(line, headers, Header(name, value));
      Associate(Top(line, headers) + name + [58, 32] + value, [13], [10]);
    case _ =>
  }

  lemma {:induction false} OpenReads(s: seq<Byte>)
      returns (line: seq<Byte>, headers: seq<Header>, name: seq<Byte>, value: seq<Byte>)
    requires !HeaderDone(Scanned(s).state)
    ensures Reads(s, Scanned(s).state, line, headers, name, value)
    decreases |s|
  {
    if s == [] {
      line, headers, name, value := [], [], [], [];
    } else {
      var before, c := s[..|s| - 1], s[|s| - 1];
      assert s == before + [c];
      OpenBefore(before, c);
      line, headers, name, value := OpenReads(before);
      line, headers, name, value := ReadsOn(before, c, Scanned(before).state, line, headers, name, value);
    }
  }

  /** What is open was open before. */
  lemma OpenBefore(s: seq<Byte>, c: Byte)
    requires !HeaderDone(Scanned(s + [c]).state)
    ensures !HeaderDone(Scanned(s).state) && Scanned(s + [c]).state == Transition(Scanned(s).state, c).next
  {
    ScanConcat(NewParser(), s, [c]);
    if !HeaderDone(Scanned(s).state) {
      assert [c][1..] == [];
      assert Scan(Step(Scanned(s), c), []) == Step(Scanned(s), c);
    }
  }

  /** The character with which the head ended, one way or the other. */
  lemma {:induction false} LastCharacter(s: seq<Byte>) returns (k: nat)
    requires HeaderDone(Scanned(s).state)
    ensures k < |s| && !HeaderDone(Scanned(s[..k]).state)
    ensures Transition(Scanned(s[..k]).state, s[k]).next == Scanned(s).state
    decreases |s|
  {
    var n := |s| - 1;
    assert s == s[..n] + [s[n]];
    ScanConcat(NewParser(), s[..n], [s[n]]);
    if HeaderDone(Scanned(s[..n]).state) {
      k := LastCharacter(s[..n]);
      assert s[..n][..k] == s[..k];
      FedKeepsState(s[..n], s[n]);
    } else {
      k := n;
      LastStep(Scanned(s[..n]), s[n]);
    }
  }

  lemma FedKeepsState(s: seq<Byte>, c: Byte)
    requires HeaderDone(Scanned(s).state)
    ensures Scanned(s + [c]).state == Scanned(s).state
  {
    ScanConcat(NewParser(), s, [c]);
  }

  lemma LastStep(p: Parser, c: Byte)
    ensures Scan(p, [c]).state == Transition(p.state, c).next
  {
    assert [c][1..] == [];
    assert Scan(Step(p, c), []) == Step(p, c);
  }

  lemma HeadEnds(s: seq<Byte>, c: Byte, state: FsmState, line: seq<Byte>, headers: seq<Header>, name: seq<Byte>, value: seq<Byte>)
    requires Reads(s, state, line, headers, name, value) && Transition(state, c).next.Content?
    ensures s + [c] == Head(line, headers)
  {
    assert state.RequestLineCrlfCr? || state.PValueCrlfCr?;
    Associate(Top(line, headers), [13], [10]);
  }

  lemma FaultFound(s: seq<Byte>, c: Byte, state: FsmState, line: seq<Byte>, headers: seq<Header>, name: seq<Byte>, value: seq<Byte>)
      returns (fault: Fault)
    requires Reads(s, state, line, headers, name, value) && Transition(state, c).next.Failed?
    ensures fault.Real() && c != fault.Missing() && s == fault.Text(line, headers)
  {
    fault := match state
      case RequestLineCr => BareReturn
      case PKeyColon => ColonAlone(name)
      case PValueCr => BareReturnInValue(name, value)
      case _ => BareReturnAfterHeaders;
  }

  /** Every stream that is taken for a head is one. */
  lemma ReadIsMessage(s: seq<Byte>) returns (line: seq<Byte>, headers: seq<Header>, rest: seq<Byte>)
    requires Scanned(s).state.Content?
    ensures IsMessage(s, line, headers, rest)
  {
    var k := LastCharacter(s);
    var name, value;
    line, headers, name, value := OpenReads(s[..k]);
    HeadEnds(s[..k], s[k], Scanned(s[..k]).state, line, headers, name, value);
    rest := s[k + 1..];
    assert s == s[..k] + [s[k]] + rest;
  }

  /** And every stream that is refused has a fault. */
  lemma RefusedIsBroken(s: seq<Byte>)
      returns (line: seq<Byte>, headers: seq<Header>, fault: Fault, c: Byte, rest: seq<Byte>)
    requires Scanned(s).state.Failed?
    ensures IsBroken(s, line, headers, fault, c, rest)
  {
    var k := LastCharacter(s);
    var name, value;
    line, headers, name, value := OpenReads(s[..k]);
    c, rest := s[k], s[k + 1..];
    fault := FaultFound(s[..k], c, Scanned(s[..k]).state, line, headers, name, value);
    assert s == s[..k] + [c] + rest;
  }

  ghost predicate HasHead(s: seq<Byte>) {
    exists line, headers, rest :: IsMessage(s, line, headers, rest)
  }

  ghost predicate HasFault(s: seq<Byte>) {
    exists line, headers, fault, c, rest :: IsBroken(s, line, headers, fault, c, rest)
  }

  lemma HeadIff(s: seq<Byte>)
    ensures Scanned(s).state.Content? <==> HasHead(s)
  {
    if Scanned(s).state.Content? {
      var line, headers, rest := ReadIsMessage(s);
    }
    if HasHead(s) {
      var line, headers, rest :| IsMessage(s, line, headers, rest);
      MessageIsRead(s, line, headers, rest);
    }
  }

  lemma FaultIff(s: seq<Byte>)
    ensures Scanned(s).state.Failed? <==> HasFault(s)
  {
    if Scanned(s).state.Failed? {
      var line, headers, fault, c, rest := RefusedIsBroken(s);
    }
    if HasFault(s) {
      var line, headers, fault, c, rest :| IsBroken(s, line, headers, fault, c, rest);
      BrokenIsRefused(s, line, headers, fault, c, rest);
    }
  }

  // ---------------------------------------------------------------- what addBytes answers

  ghost predicate HasTwoSpaces(s: seq<Byte>) {
    exists i, j :: 0 <= i < j < |s| && s[i] == 32 && s[j] == 32
  }

  lemma TwoSpacesIff(s: seq<Byte>)
    ensures TwoSpaces(s) <==> HasTwoSpaces(s)
  {
    var i := FindByte(s, SP, 0);
    if i < |s| {
      var j := FindByte(s, SP, i + 1);
      if j < |s| {
        assert s[i] == 32 && s[j] == 32;
      }
    }
  }

  lemma ScannedSpaces(s: seq<Byte>)
    ensures TwoSpaces(Scanned(s).data) <==> HasTwoSpaces(s)
  {
    ScanKeepsSpaces(NewParser(), s);
    assert [] + s == s;
    SameSpacesSplitAlike(Scanned(s).data, s);
    TwoSpacesIff(s);
  }

  /** A head, and the body so far: done with the announced length, if there are two spaces to take the line apart at. */
  lemma MessageStatus(s: seq<Byte>, line: seq<Byte>, headers: seq<Header>, rest: seq<Byte>)
    requires IsMessage(s, line, headers, rest)
    ensures var p := OneShot(s);
      && p.contentStart == |line| + |PrintHeaders(headers)| + 4
      && p.status == if |rest| < p.contentLength then Incomplete else if HasTwoSpaces(s) then Done else Error
  {
    MessageIsRead(s, line, headers, rest);
    ScannedSpaces(s);
    ScannedIsIncomplete(NewParser(), s);
    assert |Scanned(s).data| == |s| == |Head(line, headers)| + |rest|;
  }

  lemma {:induction false} ScannedIsIncomplete(p: Parser, s: seq<Byte>)
    ensures Scan(p, s).status == p.status
    decreases |s|
  {
    if s != [] && !Step(p, s[0]).state.Content? {
      ScannedIsIncomplete(Step(p, s[0]), s[1..]);
    }
  }

  /** A fault is an error at once, and a stream with neither head nor fault is waited for. */
  lemma OtherStatus(s: seq<Byte>)
    requires !HasHead(s)
    ensures OneShot(s).status == if HasFault(s) then Error else Incomplete
  {
    HeadIff(s);
    FaultIff(s);
    ScannedIsIncomplete(NewParser(), s);
  }

  // ---------------------------------------------------------------- names, letter by letter

  /** A letter of a received name is taken for a letter of the key: capitals for their small ones. */
  predicate SameLetter(received: int, key: int) {
    received == key || (65 <= received <= 90 && key == received + 32)
  }

  predicate NoCapitals(key: seq<Byte>) {
    forall i :: 0 <= i < |key| ==> !(65 <= key[i] <= 90)
  }

  predicate SameName(received: seq<Byte>, key: seq<Byte>) {
    |received| == |key| && forall i :: 0 <= i < |key| ==> SameLetter(received[i], key[i])
  }

  lemma LoweredIff(name: seq<Byte>, key: seq<Byte>)
    requires NoCapitals(key)
    ensures LowerAll(name) == key <==> SameName(name, key)
  {
    if SameName(name, key) {
      forall i | 0 <= i < |key| ensures LowerAll(name)[i] == key[i] {
        assert SameLetter(name[i], key[i]);
      }
    }
  }

  lemma LoweredHasNoCapitals(name: seq<Byte>)
    ensures NoCapitals(LowerAll(name))
  {
  }

  /** Header `i` is the first with this name. */
  predicate FirstNamed(headers: seq<Header>, key: seq<Byte>, i: nat) {
    && i < |headers| && SameName(headers[i].name, key)
    && forall j :: 0 <= j < i ==> !SameName(headers[j].name, key)
  }

  predicate NoneNamed(headers: seq<Header>, key: seq<Byte>) {
    forall j :: 0 <= j < |headers| ==> !SameName(headers[j].name, key)
  }

  lemma {:induction false} FirstNamedIsFound(headers: seq<Header>, key: seq<Byte>, i: nat)
    requires NoCapitals(key) && FirstNamed(headers, key, i)
    ensures FirstValue(headers, key) == headers[i].value
    decreases i
  {
    LoweredIff(headers[0].name, key);
    if i > 0 {
      assert !SameName(headers[0].name, key);
      FirstNamedIsFound(headers[1..], key, i - 1);
    }
  }

  lemma {:induction false} NoneNamedIsFound(headers: seq<Header>, key: seq<Byte>)
    requires !NoCapitals(key) || NoneNamed(headers, key)
    ensures FirstValue(headers, key) == []
    decreases |headers|
  {
    if headers != [] {
      if NoCapitals(key) {
        LoweredIff(headers[0].name, key);
      } else {
        LoweredHasNoCapitals(headers[0].name);
      }
      NoneNamedIsFound(headers[1..], key);
    }
  }

  /**
    What a lookup in a printed request gives: the value of the first header whose name agrees letter by letter.  A key with
    capitals is not found, whatever the headers.
  */
  lemma LookupByLetters(r: Request, key: seq<Byte>, i: nat)
    requires Good(r) && OneShot(Print(r)).status == Done
    ensures var p := OneShot(Print(r));
      && (NoCapitals(key) && FirstNamed(r.headers, key, i) ==>
            Lookup(p.data, p.keys, key) == r.headers[i].value)
      && (!NoCapitals(key) || NoneNamed(r.headers, key) ==>
            Lookup(p.data, p.keys, key) == [])
  {
    PrintedRequestParses(r);
    if NoCapitals(key) && FirstNamed(r.headers, key, i) {
      FirstNamedIsFound(r.headers, key, i);
    }
    if !NoCapitals(key) || NoneNamed(r.headers, key) {
      NoneNamedIsFound(r.headers, key);
    }
  }

  /** ASCII text as bytes. */
  function Ascii(text: string): (s: seq<Byte>)
    ensures |s| == |text|
  {
    seq(|text|, i requires 0 <= i < |text| => if text[i] as int < 128 then text[i] as int else 0)
  }

  lemma ContentLengthName()
    ensures CONTENT_LENGTH == Ascii("content-length")
  {
    assert |Ascii("content-length")| == 14;
  }

  /** The body length is what the first Content-Length says, in whatever capitals, or zero. */
  lemma ContentLengthByLetters(r: Request, i: nat)
    requires Good(r)
    ensures FirstNamed(r.headers, Ascii("content-length"), i) ==>
              OneShot(Print(r)).contentLength == Atoi(r.headers[i].value)
    ensures NoneNamed(r.headers, Ascii("content-length")) ==>
              OneShot(Print(r)).contentLength == 0
  {
    ScanRequest(r);
    SplitRequest(r);
    ContentLengthName();
    if FirstNamed(r.headers, Ascii("content-length"), i) {
      FirstNamedIsFound(r.headers, CONTENT_LENGTH, i);
    }
    if NoneNamed(r.headers, Ascii("content-length")) {
      NoneNamedIsFound(r.headers, CONTENT_LENGTH);
    }
  }

  // ---------------------------------------------------------------- atoi

  predicate Digital(c: int) {
    48 <= c <= 57
  }

  /** The number digits stand for. */
  function Worth(digits: seq<Byte>): nat
    requires forall i :: 0 <= i < |digits| ==> Digital(digits[i])
  {
    if digits == [] then 0
    else
      var last: int := digits[|digits| - 1];
      assert Digital(last);
      10 * Worth(digits[..|digits| - 1]) + (last - 48)
  }

  predicate Blank(c: int) {
    c == 32 || 9 <= c <= 13
  }

  /** What stands behind a number does not go on with it. */
  predicate EndsNumber(rest: seq<Byte>) {
    rest == [] || !Digital(rest[0])
  }

  lemma {:induction false} DigitsUpTo(digits: seq<Byte>, rest: seq<Byte>, n: nat)
    requires AllDigits(digits) && EndsNumber(rest)
    ensures Digits(digits + rest, n) == Digits(digits, n)
    decreases |digits|
  {
    if digits == [] {
      assert digits + rest == rest;
    } else {
      assert (digits + rest)[1..] == digits[1..] + rest;
      DigitsUpTo(digits[1..], rest, 10 * n + (digits[0] - 48));
    }
  }

  lemma {:induction false} DigitsAreWorth(digits: seq<Byte>)
    requires AllDigits(digits)
    ensures Digits(digits, 0) == Worth(digits)
    decreases |digits|
  {
    if digits != [] {
      var most, last := digits[..|digits| - 1], digits[|digits| - 1];
      DigitsAreWorth(most);
      DigitsOfMore(most, last, 0);
      assert digits == most + [last];
    }
  }

  lemma {:induction false} AtoiSkipsBlanks(blanks: seq<Byte>, s: seq<Byte>)
    requires forall i :: 0 <= i < |blanks| ==> Blank(blanks[i])
    ensures Atoi(blanks + s) == Atoi(s)
    decreases |blanks|
  {
    if blanks == [] {
      assert blanks + s == s;
    } else {
      assert (blanks + s)[1..] == blanks[1..] + s;
      AtoiSkipsBlanks(blanks[1..], s);
    }
  }

  /** Below 2^31, from where on C leaves atoi undefined: blanks, a sign or none, digits, and whatever ends them. */
  lemma AtoiReads(blanks: seq<Byte>, digits: seq<Byte>, rest: seq<Byte>)
    requires forall i :: 0 <= i < |blanks| ==> Blank(blanks[i])
    requires forall i :: 0 <= i < |digits| ==> Digital(digits[i])
    requires EndsNumber(rest) && Worth(digits) < 0x8000_0000
    ensures digits != [] ==> Atoi(blanks + (digits + rest)) == Worth(digits)
    ensures Atoi(blanks + ([43] + (digits + rest))) == Worth(digits)
    ensures Atoi(blanks + ([45] + (digits + rest))) == if Worth(digits) == 0 then 0 else 0x1_0000_0000 - Worth(digits)
  {
    DigitsUpTo(digits, rest, 0);
    DigitsAreWorth(digits);
    AtoiSkipsBlanks(blanks, digits + rest);
    AtoiSkipsBlanks(blanks, [43] + (digits + rest));
    AtoiSkipsBlanks(blanks, [45] + (digits + rest));
    AtoiOfSigned(digits + rest, Worth(digits));
    if digits != [] {
      AtoiOfDigits(digits, rest);
    }
  }

  lemma AtoiOfDigits(digits: seq<Byte>, rest: seq<Byte>)
    requires digits != [] && Digital(digits[0])
    ensures Atoi(digits + rest) == Digits(digits + rest, 0) % 0x1_0000_0000
  {
    assert (digits + rest)[0] == digits[0];
  }

  lemma AtoiOfSigned(s: seq<Byte>, n: nat)
    requires Digits(s, 0) == n < 0x8000_0000
    ensures Atoi([43] + s) == n
    ensures Atoi([45] + s) == if n == 0 then 0 else 0x1_0000_0000 - n
  {
    assert ([43] + s)[1..] == s && ([45] + s)[1..] == s;
  }

  /** Anything else is zero. */
  lemma AtoiOfText(blanks: seq<Byte>, rest: seq<Byte>)
    requires forall i :: 0 <= i < |blanks| ==> Blank(blanks[i])
    requires rest == [] || !(Digital(rest[0]) || Blank(rest[0]) || rest[0] == 43 || rest[0] == 45)
    ensures Atoi(blanks + rest) == 0
  {
    AtoiSkipsBlanks(blanks, rest);
  }

  // ---------------------------------------------------------------- the query

  lemma {:induction false} QueryIsBehindMark(path: seq<Byte>, query: seq<Byte>)
    requires 63 !in path
    ensures HttpParser.Query(path + [63] + query) == query
    ensures HttpParser.Query(path) == []
    decreases |path|
  {
    var uri := path + [63] + query;
    if path == [] {
      assert uri[1..] == query;
    } else {
      assert uri[0] == path[0] && uri[1..] == path[1..] + [63] + query;
      QueryIsBehindMark(path[1..], query);
    }
  }
}
