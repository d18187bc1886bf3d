/** The request parser object (airplay/utils/HttpParser.cpp): it rewrites its buffer where it stands. */
module HttpParser {
  import opened Bytes
  import opened HttpRequest
  import opened HttpChunks
  import opened HttpLookups

  const QUESTION_MARK: Byte := 63

  /** What is behind the first question mark of a URI. */
  function Query(uri: seq<Byte>): seq<Byte> {
    if uri == [] then [] else if uri[0] == QUESTION_MARK then uri[1..] else Query(uri[1..])
  }

  ghost predicate Sound(p: Parser) {
    KeysOk(p) && (p.state.Failed? || PendingOk(p))
  }

  lemma StepIsSound(p: Parser, c: Byte)
    requires Sound(p)
    ensures Sound(Step(p, c))
  {
    StepKeepsKeys(p, c);
  }

  lemma NothingLeft(p: Parser, q: Parser)
    requires q == p.(data := p.data[..|p.data|])
    ensures q == p && Scan(q, p.data[|p.data|..]) == p
  {
    assert p.data[..|p.data|] == p.data;
  }

  class HttpParser {
    var data: seq<Byte>
    var headerStart: nat
    var parsedTo: nat
    var state: FsmState
    var keyIndex: nat
    var valueIndex: nat
    var contentLength: nat
    var contentStart: nat
    var uriIndex: nat
    var keys: seq<nat>
    var status: Status

    ghost function View(): Parser
      reads this
    {
      Parser(data, headerStart, state, keyIndex, valueIndex, contentLength, contentStart, uriIndex, keys, status)
    }

    /** Until the header is done, every character received has been scanned. */
    ghost predicate Valid()
      reads this
    {
      && KeysOk(View())
      && (!HeaderDone(state) ==> PendingOk(View()) && parsedTo == |data|)
      && (status == Incomplete ==> !state.Failed?)
    }

    constructor ()
      ensures Valid() && View() == NewParser()
    {
      data, headerStart, parsedTo, state, keyIndex, valueIndex := [], 0, 0, RequestLine, 0, 0;
      contentLength, contentStart, uriIndex, keys, status := 0, 0, 0, [], Incomplete;
    }

    /** The loop over the table for one character. */
    method FindMove(c: Byte) returns (move: Move)
      ensures move == Transition(state, c)
    {
      TableIsTransition(state, c);
      var d := 0;
      while d < ROWS && !Matches(Fsm(d), state, c)
        invariant d <= ROWS && FindRow(state, c, d) == FindRow(state, c, 0)
      {
        d := d + 1;
      }
      return if d < ROWS then Move(Fsm(d).next, Fsm(d).actions) else Move(Failed, {});
    }

    /** One turn of the outer loop: the actions on the buffer and the indices, and the next state. */
    method ParseChar(i: nat)
      requires i < |data|
      modifies this
      ensures |data| == |old(data)| && data[..i] == old(data[..i]) && data[i + 1..] == old(data[i + 1..])
      ensures View().(data := data[..i + 1]) == Step(old(View()).(data := old(data[..i])), old(data[i]))
      ensures parsedTo == old(parsedTo)
    {
      var move := FindMove(data[i]);
      Rewrite(move.actions, i);
      SetIndices(move.actions, i);
      assert data[..i + 1] == old(data[..i]) + [data[i]];
      state := move.next;
    }

    method Rewrite(actions: set<Act>, i: nat)
      requires i < |data| && !(Lower in actions && Nullify in actions)
      modifies this`data
      ensures data == old(data)[i := Rewritten(actions, old(data)[i])]
    {
      if Lower in actions {
        data := data[i := ToLower(data[i])];
      }
      if Nullify in actions {
        data := data[i := 0];
      }
    }

    method SetIndices(actions: set<Act>, i: nat)
      modifies this`headerStart, this`keyIndex, this`valueIndex, this`contentStart, this`keys
      ensures headerStart == if SetHeaderStart in actions then i else old(headerStart)
      ensures keyIndex == if SetKey in actions then i else old(keyIndex)
      ensures valueIndex == if SetValue in actions then i else old(valueIndex)
      ensures contentStart == if SetContentStart in actions then i + 1 else old(contentStart)
      ensures keys == if StoreKeyValue in actions then old(keys) + [keyIndex] else old(keys)
    {
      if SetHeaderStart in actions {
        headerStart := i;
      }
      if SetKey in actions {
        keyIndex := i;
      }
      if SetValue in actions {
        valueIndex := i;
      }
      if SetContentStart in actions {
        contentStart := i + 1;
      }
      if StoreKeyValue in actions {
        keys := keys + [keyIndex];
      }
    }

    /** What the parser would be had the buffer ended at `i`. */
    ghost function UpTo(i: nat): Parser
      requires i <= |data|
      reads this
    {
      View().(data := data[..i])
    }

    /** The scan has come to `i`, before the end of the header, and is on its way to `target`. */
    ghost predicate Scanning(i: nat, target: Parser)
      reads this
    {
      i <= |data| && !state.Content? && Sound(UpTo(i)) && Scan(UpTo(i), data[i..]) == target
    }

    /** One character; `done` if it was the last of the header. */
    method ScanChar(i: nat, ghost target: Parser) returns (done: bool)
      requires i < |data| && Scanning(i, target)
      modifies this
      ensures |data| == |old(data)| && parsedTo == old(parsedTo)
      ensures if done then View() == target else Scanning(i + 1, target)
    {
      ghost var q, rest := UpTo(i), data[i + 1..];
      ghost var next := Step(q, data[i]);
      assert data[i..][1..] == rest;
      StepIsSound(q, data[i]);
      ParseChar(i);
      assert UpTo(i + 1) == next;
      if state.Content? {
        assert data == next.data + rest;
        ReadContentLength(next, rest);
        return true;
      }
      return false;
    }

    /** The loop at line 106. */
    method ScanAll(ghost target: Parser)
      requires Scanning(parsedTo, target)
      modifies this
      ensures View() == target && |data| == |old(data)|
    {
      var i := parsedTo;
      while i < |data|
        invariant |data| == |old(data)|
        invariant Scanning(i, target)
      {
        var done := ScanChar(i, target);
        if done {
          return;
        }
        i := i + 1;
      }
      NothingLeft(View(), UpTo(i));
    }

    /** The scan goes on from where it was: `p` is the parser as it was before `bytes` were appended. */
    method ParseHeader(ghost p: Parser, ghost bytes: seq<Byte>)
      requires !HeaderDone(p.state) && KeysOk(p) && PendingOk(p)
      requires parsedTo == |p.data| && View() == p.(data := p.data + bytes)
      modifies this
      ensures View() == Scan(p, bytes) && parsedTo == |data|
    {
      assert data[parsedTo..] == bytes && UpTo(parsedTo) == p;
      ScanAll(Scan(p, bytes));
      parsedTo := |data|;
    }

    method ReadContentLength(ghost q: Parser, ghost rest: seq<Byte>)
      requires KeysOk(q) && keys == q.keys && data == q.data + rest
      modifies this`contentLength
      ensures contentLength == Atoi(Lookup(q.data, q.keys, CONTENT_LENGTH))
    {
      var str := GetValue(CONTENT_LENGTH);
      LookupInPrefix(q.data, rest, q.keys, CONTENT_LENGTH);
      contentLength := Atoi(str);
    }

    /** The value of the first header with this name, which should be in lower case. */
    method GetValue(key: seq<Byte>) returns (value: seq<Byte>)
      ensures value == Lookup(data, keys, key)
    {
      var i := 0;
      while i < |keys|
        invariant 0 <= i <= |keys|
        invariant Lookup(data, keys, key) == Lookup(data, keys[i..], key)
      {
        var index := keys[i];
        if CStr(data, index) == key {
          return CStr(data, index + |key| + 2);
        }
        i := i + 1;
      }
      return [];
    }

    /** std::string::find */
    method Find(c: Byte, from: nat) returns (i: nat)
      ensures i == FindByte(data, c, from)
    {
      i := from;
      while i < |data| && data[i] != c
        invariant from <= i && FindByte(data, c, i) == FindByte(data, c, from)
        decreases |data| - i
      {
        i := i + 1;
      }
    }

    method ParseRequestLine() returns (ok: bool)
      modifies this
      ensures ok == TwoSpaces(old(data))
      ensures View() == if ok then RequestLineSplit(old(View())) else old(View())
      ensures parsedTo == old(parsedTo)
    {
      var sp1 := Find(SP, 0);
      if sp1 >= |data| {
        return false;
      }
      var sp2 := Find(SP, sp1 + 1);
      if sp2 >= |data| {
        return false;
      }
      data := data[sp1 := 0];
      data := data[sp2 := 0];
      uriIndex := sp1 + 1;
      return true;
    }

    method AddBytes(bytes: seq<Byte>) returns (r: Status)
      requires Valid()
      modifies this
      ensures Valid() && View() == HttpRequest.AddBytes(old(View()), bytes) && r == status
    {
      if status != Incomplete {
        return status;
      }
      ghost var p := View();
      AddBytesKeepsKeys(p, bytes);
      data := data + bytes;
      if !HeaderDone(state) {
        ParseHeader(p, bytes);
      }
      assert View() == Fed(p, bytes);
      if state.Failed? {
        status := Error;
      } else if state.Content? {
        if contentLength == 0 || |data| - contentStart >= contentLength {
          var ok := ParseRequestLine();
          status := if ok then Done else Error;
        }
      }
      return status;
    }

    method GetMethod() returns (s: seq<Byte>)
      ensures s == CStr(data, 0)
    {
      return CStr(data, 0);
    }

    method GetUri() returns (s: seq<Byte>)
      ensures s == CStr(data, uriIndex)
    {
      return CStr(data, uriIndex);
    }

    method GetQueryString() returns (s: seq<Byte>)
      ensures s == Query(CStr(data, uriIndex))
    {
      var pos := uriIndex;
      while pos < |data| && data[pos] != 0
        invariant uriIndex <= pos && Query(CStr(data, pos)) == Query(CStr(data, uriIndex))
        decreases |data| - pos
      {
        if data[pos] == QUESTION_MARK {
          pos := pos + 1;
          assert CStr(data, pos - 1)[1..] == CStr(data, pos);
          break;
        }
        assert CStr(data, pos)[1..] == CStr(data, pos + 1);
        pos := pos + 1;
      }
      return CStr(data, pos);
    }

    method GetBody() returns (s: seq<Byte>)
      ensures s == if contentLength > 0 then CStr(data, contentStart) else []
    {
      if contentLength > 0 {
        return CStr(data, contentStart);
      } else {
        return [];
      }
    }
  }

  // ---------------------------------------------------------------- what does not depend on the cuts

  ghost predicate HasRequestLine(p: Parser) {
    && 0 < p.uriIndex && Zero(p.data, p.uriIndex - 1)
    && exists n: nat :: p.uriIndex <= n && Zero(p.data, n)
  }

  lemma DoneIsSplit(x: seq<Byte>)
    requires OneShot(x).status.Done?
    ensures HasRequestLine(OneShot(x))
  {
    ScannedPrefix(x, []);
    DoneHasRequestLine(Scanned(x));
  }

  lemma SameRequestLine(p: Parser, q: Parser)
    requires Agrees(p, q) && HasRequestLine(p)
    ensures p.uriIndex == q.uriIndex && CStr(p.data, 0) == CStr(q.data, 0)
    ensures CStr(p.data, p.uriIndex) == CStr(q.data, q.uriIndex)
  {
    var more := q.data[|p.data|..];
    assert q.data == p.data + more;
    assert p.uriIndex == p.(data := []).uriIndex == q.(data := []).uriIndex == q.uriIndex;
    CStrInPrefix(p.data, more, 0, p.uriIndex - 1);
    var n: nat :| p.uriIndex <= n && Zero(p.data, n);
    CStrInPrefix(p.data, more, p.uriIndex, n);
  }

  /** Method and URI of a request that was found done. */
  lemma CutsAgreeOnRequestLine(chunks: seq<seq<Byte>>)
    requires CutsDoNotMatter(Stream(chunks)) && Feed(chunks).status.Done?
    ensures var p, q := Feed(chunks), OneShot(Stream(chunks));
      q.status.Done? && CStr(p.data, 0) == CStr(q.data, 0) && CStr(p.data, p.uriIndex) == CStr(q.data, q.uriIndex)
  {
    CutsAgree(chunks);
    var k := FeedIsOneShot(chunks);
    DoneIsSplit(Stream(chunks[..k]));
    var p, q := Feed(chunks), OneShot(Stream(chunks));
    SameRequestLine(p, q);
    assert p.status == p.(data := []).status == q.(data := []).status == q.status;
  }
}
