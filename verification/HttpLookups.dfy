/**
  Why looking a header up (airplay/utils/HttpParser.cpp, lines 248-262) never reads past what was scanned: every stored
  key and its value end in a zero the transition table has put there.
*/
module HttpLookups {
  import opened Bytes
  import opened HttpRequest
  import opened HttpChunks

  /** Key `k` ends at a zero with room for a value behind it, which ends at a zero too. */
  ghost predicate KeyOk(data: seq<Byte>, k: nat) {
    exists c: nat, e: nat {:trigger Zero(data, c), Zero(data, e)} ::
      k <= c && c + 3 <= e && Zero(data, c) && Zero(data, e)
  }

  predicate Zero(data: seq<Byte>, i: nat) {
    i < |data| && data[i] == 0
  }

  ghost predicate KeysOk(p: Parser) {
    forall j :: 0 <= j < |p.keys| ==> KeyOk(p.data, p.keys[j])
  }

  /** The key being read, up to where the scan is. */
  ghost predicate PendingOk(p: Parser) {
    match p.state
    case PKey => p.keyIndex < |p.data|
    case PKeyColon => p.keyIndex < |p.data| && Zero(p.data, |p.data| - 1)
    case PKeyColonSp => p.keyIndex + 1 < |p.data| && Zero(p.data, |p.data| - 2)
    case PValue => exists c: nat :: p.keyIndex <= c && c + 3 <= |p.data| && Zero(p.data, c)
    case _ => true
  }

  lemma KeyStays(data: seq<Byte>, more: seq<Byte>, k: nat)
    requires KeyOk(data, k)
    ensures KeyOk(data + more, k)
  {
    var c: nat, e: nat :| k <= c && c + 3 <= e && Zero(data, c) && Zero(data, e);
    assert Zero(data + more, c) && Zero(data + more, e);
  }

  lemma StepKeepsKeys(p: Parser, c: Byte)
    requires KeysOk(p) && PendingOk(p)
    ensures KeysOk(Step(p, c)) && PendingOk(Step(p, c))
  {
    var q := Step(p, c);
    StepKeepsPending(p, c);
    forall j | 0 <= j < |q.keys| ensures KeyOk(q.data, q.keys[j]) {
      if j < |p.keys| {
        KeyStays(p.data, [q.data[|p.data|]], p.keys[j]);
      } else {
        assert Transition(p.state, c) == Move(PValueCr, {Nullify, StoreKeyValue});
        var colon: nat :| p.keyIndex <= colon && colon + 3 <= |p.data| && Zero(p.data, colon);
        assert Zero(q.data, colon) && Zero(q.data, |p.data|);
      }
    }
  }

  lemma StepKeepsPending(p: Parser, c: Byte)
    requires PendingOk(p)
    ensures PendingOk(Step(p, c))
  {
    var q := Step(p, c);
    if p.state.PValue? && q.state.PValue? {
      var colon: nat :| p.keyIndex <= colon && colon + 3 <= |p.data| && Zero(p.data, colon);
      assert Zero(q.data, colon);
    } else if p.state.PKeyColonSp? {
      assert Zero(q.data, |p.data| - 2);
    }
  }

  lemma {:induction false} ScanKeepsKeys(p: Parser, rest: seq<Byte>)
    requires KeysOk(p) && PendingOk(p)
    ensures KeysOk(Scan(p, rest)) && (HeaderDone(Scan(p, rest).state) || PendingOk(Scan(p, rest)))
    decreases |rest|
  {
    if rest != [] {
      var q := Step(p, rest[0]);
      StepKeepsKeys(p, rest[0]);
      if q.state.Content? {
        forall j | 0 <= j < |q.keys| ensures KeyOk(q.data + rest[1..], q.keys[j]) {
          KeyStays(q.data, rest[1..], q.keys[j]);
        }
      } else {
        ScanKeepsKeys(q, rest[1..]);
      }
    }
  }

  // ---------------------------------------------------------------- strings that end in the buffer

  lemma {:induction false} CStrInPrefix(data: seq<Byte>, more: seq<Byte>, k: nat, n: nat)
    requires k <= n && Zero(data, n)
    ensures CStr(data + more, k) == CStr(data, k) && k + |CStr(data, k)| <= n
    decreases n - k
  {
    if data[k] != 0 {
      CStrInPrefix(data, more, k + 1, n);
    }
  }

  lemma KeyInPrefix(data: seq<Byte>, more: seq<Byte>, k: nat)
    requires KeyOk(data, k)
    ensures var key := CStr(data, k);
      CStr(data + more, k) == key && CStr(data + more, k + |key| + 2) == CStr(data, k + |key| + 2)
  {
    var c: nat, e: nat :| k <= c && c + 3 <= e && Zero(data, c) && Zero(data, e);
    CStrInPrefix(data, more, k, c);
    CStrInPrefix(data, more, k + |CStr(data, k)| + 2, e);
  }

  /** What is behind the stored keys does not change what they look up. */
  lemma {:induction false} LookupInPrefix(data: seq<Byte>, more: seq<Byte>, keys: seq<nat>, key: seq<Byte>)
    requires forall j :: 0 <= j < |keys| ==> KeyOk(data, keys[j])
    ensures Lookup(data + more, keys, key) == Lookup(data, keys, key)
  {
    if keys != [] {
      KeyInPrefix(data, more, keys[0]);
      if CStr(data, keys[0]) != key {
        LookupInPrefix(data, more, keys[1..], key);
      }
    }
  }

  /** Parsers that agree answer every lookup alike. */
  lemma AgreeingLookups(p: Parser, q: Parser, key: seq<Byte>)
    requires Agrees(p, q) && KeysOk(p)
    ensures Lookup(p.data, p.keys, key) == Lookup(q.data, q.keys, key)
  {
    assert q.data == p.data + q.data[|p.data|..];
    assert p.keys == p.(data := []).keys == q.(data := []).keys == q.keys;
    LookupInPrefix(p.data, q.data[|p.data|..], p.keys, key);
  }

  /** Zeroing bytes leaves every zero where it is. */
  lemma ZeroedKeys(p: Parser, data: seq<Byte>)
    requires KeysOk(p) && |data| == |p.data| && forall i :: 0 <= i < |data| ==> data[i] == p.data[i] || data[i] == 0
    ensures KeysOk(p.(data := data))
  {
    forall j | 0 <= j < |p.keys| ensures KeyOk(data, p.keys[j]) {
      var k := p.keys[j];
      assert KeyOk(p.data, k);
      var c: nat, e: nat :| k <= c && c + 3 <= e && Zero(p.data, c) && Zero(p.data, e);
      assert Zero(data, c) && Zero(data, e);
    }
  }

  lemma SettledKeys(p: Parser)
    requires KeysOk(p)
    ensures KeysOk(Settled(p))
  {
    if Complete(p) && TwoSpaces(p.data) {
      ZeroedKeys(p, RequestLineSplit(p).data);
    }
  }

  lemma AddBytesKeepsKeys(p: Parser, bytes: seq<Byte>)
    requires KeysOk(p) && (HeaderDone(p.state) || PendingOk(p))
    ensures KeysOk(AddBytes(p, bytes)) && (HeaderDone(AddBytes(p, bytes).state) || PendingOk(AddBytes(p, bytes)))
  {
    if HeaderDone(p.state) {
      forall j | 0 <= j < |p.keys| ensures KeyOk(p.data + bytes, p.keys[j]) {
        KeyStays(p.data, bytes, p.keys[j]);
      }
    } else {
      ScanKeepsKeys(p, bytes);
    }
    SettledKeys(Fed(p, bytes));
  }

  lemma {:induction false} FeedKeepsKeys(chunks: seq<seq<Byte>>)
    ensures KeysOk(Feed(chunks)) && (HeaderDone(Feed(chunks).state) || PendingOk(Feed(chunks)))
  {
    if chunks != [] {
      FeedKeepsKeys(chunks[..|chunks| - 1]);
      AddBytesKeepsKeys(Feed(chunks[..|chunks| - 1]), chunks[|chunks| - 1]);
    }
  }

  /** However the stream is cut, every header lookup has the answer of the one-shot parse. */
  lemma CutsAgreeOnLookups(chunks: seq<seq<Byte>>, key: seq<Byte>)
    requires CutsDoNotMatter(Stream(chunks))
    ensures var p, q := Feed(chunks), OneShot(Stream(chunks)); Lookup(p.data, p.keys, key) == Lookup(q.data, q.keys, key)
  {
    CutsAgree(chunks);
    FeedKeepsKeys(chunks);
    AgreeingLookups(Feed(chunks), OneShot(Stream(chunks)), key);
  }

  /** The request line of a message that was found done ends in the two zeros its spaces became. */
  lemma DoneHasRequestLine(p: Parser)
    requires TwoSpaces(p.data)
    ensures var q := RequestLineSplit(p); 0 < q.uriIndex && Zero(q.data, q.uriIndex - 1)
    ensures var q := RequestLineSplit(p); exists n: nat :: q.uriIndex <= n && Zero(q.data, n)
  {
    var q := RequestLineSplit(p);
    assert Zero(q.data, FindByte(p.data, SP, q.uriIndex));
  }
}
