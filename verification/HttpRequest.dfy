/**
  What the incremental request parser (airplay/utils/HttpParser.cpp) computes: its transition table, one character at a
  time, and what it makes of the buffer once a message is complete.
*/
module HttpRequest {
  import opened Bytes

  datatype FsmState =
    | RequestLine | RequestLineCr | RequestLineCrlf | RequestLineCrlfCr
    | PKey | PKeyColon | PKeyColonSp | PValue | PValueCr | PValueCrlf | PValueCrlfCr
    | Content | Failed

  datatype Act = Lower | Nullify | SetHeaderStart | SetKey | SetValue | StoreKeyValue | SetContentStart

  datatype Status = Done | Error | Incomplete

  const CR: Byte := 13
  const LF: Byte := 10
  const SP: Byte := 32
  const COLON: Byte := 58
  const ANY := 256

  // ---------------------------------------------------------------- the table (lines 81-104)

  datatype Row = Row(cur: FsmState, c: int, next: FsmState, actions: set<Act>)

  const ROWS := 17

  function Fsm(d: nat): Row
    requires d < ROWS
  {
    match d
    case 0 => Row(RequestLine, CR, RequestLineCr, {Nullify})
    case 1 => Row(RequestLine, ANY, RequestLine, {})
    case 2 => Row(RequestLineCr, LF, RequestLineCrlf, {})
    case 3 => Row(RequestLineCrlf, CR, RequestLineCrlfCr, {})
    case 4 => Row(RequestLineCrlf, ANY, PKey, {SetHeaderStart, SetKey, Lower})
    case 5 => Row(RequestLineCrlfCr, LF, Content, {SetContentStart})
    case 6 => Row(PKey, COLON, PKeyColon, {Nullify})
    case 7 => Row(PKey, ANY, PKey, {Lower})
    case 8 => Row(PKeyColon, SP, PKeyColonSp, {})
    case 9 => Row(PKeyColonSp, ANY, PValue, {SetValue})
    case 10 => Row(PValue, CR, PValueCr, {Nullify, StoreKeyValue})
    case 11 => Row(PValue, ANY, PValue, {})
    case 12 => Row(PValueCr, LF, PValueCrlf, {})
    case 13 => Row(PValueCrlf, CR, PValueCrlfCr, {})
    case 14 => Row(PValueCrlf, ANY, PKey, {SetKey, Lower})
    case 15 => Row(PValueCrlfCr, LF, Content, {SetContentStart})
    case _ => Row(Failed, ANY, Failed, {})
  }

  predicate Matches(row: Row, state: FsmState, c: Byte) {
    row.cur == state && (row.c == c || row.c == ANY)
  }

  /** The first row, from `d` on, for this state and character. */
  function FindRow(state: FsmState, c: Byte, d: nat): (i: nat)
    requires d <= ROWS
    ensures d <= i <= ROWS && (i < ROWS ==> Matches(Fsm(i), state, c))
    ensures forall j :: d <= j < i ==> !Matches(Fsm(j), state, c)
    decreases ROWS - d
  {
    if d == ROWS || Matches(Fsm(d), state, c) then d else FindRow(state, c, d + 1)
  }

  datatype Move = Move(next: FsmState, actions: set<Act>)

  /** What the table says; a character it does not expect is an error. */
  function Transition(state: FsmState, c: Byte): Move {
    match state
    case RequestLine => if c == CR then Move(RequestLineCr, {Nullify}) else Move(RequestLine, {})
    case RequestLineCr => if c == LF then Move(RequestLineCrlf, {}) else Move(Failed, {})
    case RequestLineCrlf => if c == CR then Move(RequestLineCrlfCr, {}) else Move(PKey, {SetHeaderStart, SetKey, Lower})
    case RequestLineCrlfCr => if c == LF then Move(Content, {SetContentStart}) else Move(Failed, {})
    case PKey => if c == COLON then Move(PKeyColon, {Nullify}) else Move(PKey, {Lower})
    case PKeyColon => if c == SP then Move(PKeyColonSp, {}) else Move(Failed, {})
    case PKeyColonSp => Move(PValue, {SetValue})
    case PValue => if c == CR then Move(PValueCr, {Nullify, StoreKeyValue}) else Move(PValue, {})
    case PValueCr => if c == LF then Move(PValueCrlf, {}) else Move(Failed, {})
    case PValueCrlf => if c == CR then Move(PValueCrlfCr, {}) else Move(PKey, {SetKey, Lower})
    case PValueCrlfCr => if c == LF then Move(Content, {SetContentStart}) else Move(Failed, {})
    case _ => Move(Failed, {})
  }

  /** The rows of a state, the specific one first, and no other. */
  lemma FoundRow(state: FsmState, c: Byte, d: nat)
    requires d < ROWS && Matches(Fsm(d), state, c) && forall j :: 0 <= j < d ==> !Matches(Fsm(j), state, c)
    ensures FindRow(state, c, 0) == d
  {
    var i := FindRow(state, c, 0);
    assert i <= d;
  }

  predicate Expected(state: FsmState, c: Byte) {
    match state
    case RequestLineCr => c == LF
    case RequestLineCrlfCr => c == LF
    case PKeyColon => c == SP
    case PValueCr => c == LF
    case PValueCrlfCr => c == LF
    case Content => false
    case _ => true
  }

  function RowMove(d: nat): Move {
    if d < ROWS then Move(Fsm(d).next, Fsm(d).actions) else Move(Failed, {})
  }

  lemma NoRow(state: FsmState, c: Byte)
    requires !Expected(state, c)
    ensures FindRow(state, c, 0) == ROWS
    ensures Transition(state, c) == RowMove(ROWS)
  {
    assert forall j :: 0 <= j < ROWS ==> !Matches(Fsm(j), state, c);
  }

  predicate InRequestLine(state: FsmState) {
    state.RequestLine? || state.RequestLineCr? || state.RequestLineCrlf? || state.RequestLineCrlfCr?
  }

  predicate InKey(state: FsmState) {
    state.PKey? || state.PKeyColon? || state.PKeyColonSp?
  }

  /** The row of the table for an expected character. */
  function RowOf(state: FsmState, c: Byte): (d: nat)
    requires Expected(state, c)
    ensures d < ROWS
  {
    match state
    case RequestLine => if c == CR then 0 else 1
    case RequestLineCr => 2
    case RequestLineCrlf => if c == CR then 3 else 4
    case RequestLineCrlfCr => 5
    case PKey => if c == COLON then 6 else 7
    case PKeyColon => 8
    case PKeyColonSp => 9
    case PValue => if c == CR then 10 else 11
    case PValueCr => 12
    case PValueCrlf => if c == CR then 13 else 14
    case PValueCrlfCr => 15
    case Failed => 16
  }

  lemma RequestLineRows(state: FsmState, c: Byte)
    requires Expected(state, c) && InRequestLine(state)
    ensures FindRow(state, c, 0) == RowOf(state, c)
    ensures Transition(state, c) == RowMove(FindRow(state, c, 0))
  {
    FoundRow(state, c, RowOf(state, c));
  }

  lemma KeyRows(state: FsmState, c: Byte)
    requires Expected(state, c) && InKey(state)
    ensures FindRow(state, c, 0) == RowOf(state, c)
    ensures Transition(state, c) == RowMove(FindRow(state, c, 0))
  {
    FoundRow(state, c, RowOf(state, c));
  }

  lemma LastRow(c: Byte)
    ensures FindRow(Failed, c, 0) == 16
    ensures Transition(Failed, c) == RowMove(16)
  {
    FoundRow(Failed, c, 16);
  }

  lemma CrlfRow(c: Byte)
    ensures FindRow(PValueCrlf, c, 0) == RowOf(PValueCrlf, c)
    ensures Transition(PValueCrlf, c) == RowMove(FindRow(PValueCrlf, c, 0))
  {
    FoundRow(PValueCrlf, c, RowOf(PValueCrlf, c));
  }

  lemma ValueRows(state: FsmState, c: Byte)
    requires Expected(state, c) && (state.PValue? || state.PValueCr? || state.PValueCrlfCr?)
    ensures FindRow(state, c, 0) == RowOf(state, c)
    ensures Transition(state, c) == RowMove(FindRow(state, c, 0))
  {
    FoundRow(state, c, RowOf(state, c));
  }

  /** The table and the transitions are the same. */
  lemma TableIsTransition(state: FsmState, c: Byte)
    ensures Transition(state, c) == RowMove(FindRow(state, c, 0))
  {
    if !Expected(state, c) {
      NoRow(state, c);
    } else if InRequestLine(state) {
      RequestLineRows(state, c);
    } else if InKey(state) {
      KeyRows(state, c);
    } else if state.Failed? {
      LastRow(c);
    } else if state.PValueCrlf? {
      CrlfRow(c);
    } else {
      ValueRows(state, c);
    }
  }

  // ---------------------------------------------------------------- C strings in the buffer

  /** The string at `k` in a buffer that ends in a zero. */
  function CStr(data: seq<Byte>, k: nat): (s: seq<Byte>)
    ensures 0 !in s && (s == [] || k + |s| <= |data|)
    decreases |data| - k
  {
    if k >= |data| || data[k] == 0 then [] else [data[k]] + CStr(data, k + 1)
  }

  /** The value behind the first stored key that reads `key`: a colon and a space behind it. */
  function Lookup(data: seq<Byte>, keys: seq<nat>, key: seq<Byte>): seq<Byte> {
    if keys == [] then []
    else if CStr(data, keys[0]) == key then CStr(data, keys[0] + |key| + 2)
    else Lookup(data, keys[1..], key)
  }

  predicate IsDigit(c: Byte) {
    48 <= c <= 57
  }

  function Digits(s: seq<Byte>, n: nat): nat {
    if s == [] || !IsDigit(s[0]) then n else Digits(s[1..], 10 * n + (s[0] - 48))
  }

  predicate IsSpace(c: Byte) {
    c == 32 || 9 <= c <= 13
  }

  /** atoi, taken as an unsigned 32-bit number. */
  function Atoi(s: seq<Byte>): (n: nat)
    ensures n < 0x1_0000_0000
  {
    if s == [] then 0
    else if IsSpace(s[0]) then Atoi(s[1..])
    else if s[0] == 45 then (0x1_0000_0000 - Digits(s[1..], 0) % 0x1_0000_0000) % 0x1_0000_0000
    else if s[0] == 43 then Digits(s[1..], 0) % 0x1_0000_0000
    else Digits(s, 0) % 0x1_0000_0000
  }

  // ---------------------------------------------------------------- one character

  datatype Parser = Parser(
    data: seq<Byte>, headerStart: nat, state: FsmState, keyIndex: nat, valueIndex: nat,
    contentLength: nat, contentStart: nat, uriIndex: nat, keys: seq<nat>, status: Status)

  function NewParser(): Parser {
    Parser([], 0, RequestLine, 0, 0, 0, 0, 0, [], Incomplete)
  }

  function ToLower(c: Byte): Byte {
    if 65 <= c <= 90 then c + 32 else c
  }

  function Rewritten(actions: set<Act>, c: Byte): Byte {
    if Nullify in actions then 0 else if Lower in actions then ToLower(c) else c
  }

  /** The parser after one more character; `data` is what it has scanned so far, rewritten. */
  function Step(p: Parser, c: Byte): (q: Parser)
    ensures |q.data| == |p.data| + 1
  {
    var move, i := Transition(p.state, c), |p.data|;
    var keyIndex := if SetKey in move.actions then i else p.keyIndex;
    p.(data := p.data + [Rewritten(move.actions, c)],
       headerStart := if SetHeaderStart in move.actions then i else p.headerStart,
       keyIndex := keyIndex,
       valueIndex := if SetValue in move.actions then i else p.valueIndex,
       contentStart := if SetContentStart in move.actions then i + 1 else p.contentStart,
       keys := if StoreKeyValue in move.actions then p.keys + [keyIndex] else p.keys,
       state := move.next)
  }

  const CONTENT_LENGTH: seq<Byte> := [99, 111, 110, 116, 101, 110, 116, 45, 108, 101, 110, 103, 116, 104]

  /** parseHeader on the characters not yet scanned: up to the end of the header, or of the input. */
  function Scan(p: Parser, rest: seq<Byte>): (q: Parser)
    ensures |q.data| == |p.data| + |rest|
    decreases |rest|
  {
    if rest == [] then p
    else
      var q := Step(p, rest[0]);
      if q.state.Content? then
        q.(contentLength := Atoi(Lookup(q.data, q.keys, CONTENT_LENGTH)), data := q.data + rest[1..])
      else Scan(q, rest[1..])
  }

  // ---------------------------------------------------------------- addBytes

  function FindByte(data: seq<Byte>, c: Byte, from: nat): (i: nat)
    ensures i <= |data| || i == from
    ensures from <= i && (i < |data| ==> data[i] == c)
    ensures forall j :: from <= j < i && j < |data| ==> data[j] != c
    decreases |data| - from
  {
    if from >= |data| || data[from] == c then from else FindByte(data, c, from + 1)
  }

  /** Whether there are two spaces to take the request line apart at. */
  predicate TwoSpaces(data: seq<Byte>) {
    var sp1 := FindByte(data, SP, 0);
    sp1 < |data| && FindByte(data, SP, sp1 + 1) < |data|
  }

  /** parseRequestLine, where it succeeds. */
  function RequestLineSplit(p: Parser): Parser
    requires TwoSpaces(p.data)
  {
    var sp1 := FindByte(p.data, SP, 0);
    var sp2 := FindByte(p.data, SP, sp1 + 1);
    p.(data := p.data[sp1 := 0][sp2 := 0], uriIndex := sp1 + 1)
  }

  predicate HeaderDone(state: FsmState) {
    state.Content? || state.Failed?
  }

  predicate Complete(p: Parser) {
    p.state.Content? && (p.contentLength == 0 || |p.data| - p.contentStart >= p.contentLength)
  }

  function Settled(p: Parser): Parser {
    if p.state.Failed? then p.(status := Error)
    else if Complete(p) then
      if TwoSpaces(p.data) then RequestLineSplit(p).(status := Done) else p.(status := Error)
    else p
  }

  function Fed(p: Parser, bytes: seq<Byte>): Parser {
    if HeaderDone(p.state) then p.(data := p.data + bytes)
    else Scan(p, bytes)
  }

  function AddBytes(p: Parser, bytes: seq<Byte>): Parser {
    if p.status != Incomplete then p else Settled(Fed(p, bytes))
  }

  /** The whole stream in one call. */
  function OneShot(s: seq<Byte>): Parser {
    AddBytes(NewParser(), s)
  }

  /** The stream call by call. */
  function Feed(chunks: seq<seq<Byte>>): Parser {
    if chunks == [] then NewParser() else AddBytes(Feed(chunks[..|chunks| - 1]), chunks[|chunks| - 1])
  }

  function Stream(chunks: seq<seq<Byte>>): seq<Byte> {
    if chunks == [] then [] else Stream(chunks[..|chunks| - 1]) + chunks[|chunks| - 1]
  }
}
