/** A request with a chunked body, from its first byte, and a size line that is none. */
module HttpChunkedRequests {
  import opened HttpTypes
  import opened HttpMachine
  import opened HttpCallbacks
  import opened HttpExecutor
  import opened HttpInvariants
  import opened HttpFraming
  import opened HttpRequests
  import opened HttpRoundTrip
  import opened HttpStrictChunks
  import opened Seqs

  const NAME := "transfer-encoding"
  const CODING := "chunked"

  function NameAt(k: nat): HeaderState { if k < 17 then MatchingTransferEncoding else TransferEncoding }

  lemma NameLetter(k: nat)
    requires 0 < k <= 17
    ensures var c := NAME[k - 1];
            IsPlain(c) && if k == 1 then FirstOfName(c) == NameAt(1) else NameByte(NameAt(k - 1), k - 2, c) == (NameAt(k), k - 1)
  {}

  lemma {:induction false} CodingName(k: nat)
    requires 0 < k <= 17
    ensures IsName(NAME[..k]) && NameState(NAME[..k]) == (NameAt(k), k - 1)
  {
    hide IsName, NameState, NameByte, FirstOfName, NameAt;
    NameLetter(k);
    if k == 1 {
      NameOfOne(NAME);
    } else {
      CodingName(k - 1);
      NameLonger(NAME, k);
    }
  }

  /** In the value, k letters behind b. */
  function InCoding(b: Parser, k: nat): Parser
    requires 0 < k
  {
    b.(state := HeaderValue, index := k - 1, hs := if k < 7 then MatchingChunked else Chunked, nread := b.nread + k)
  }

  lemma CodingFirst(b: Parser)
    requires b.state == HeaderValueDiscardWs && b.hs == TransferEncoding && b.nread + 1 <= b.limit
    ensures Step(b, 'c') == Go(InCoding(b, 1), [Begin(Value), Byte(Value, 'c')])
  {
    hide Step, OnHeaderField, OnHeaderValue, OnDiscardLws, OnValueLws, OnHeadersAlmostDone, OnHeadersDone, OnHeaderFieldStart;
    HeaderStep(b, 'c');
  }

  lemma CodingNext(b: Parser, k: nat)
    requires 0 < k < 7 && b.nread + k + 1 <= b.limit
    ensures Step(InCoding(b, k), CODING[k]) == Go(InCoding(b, k + 1), [Byte(Value, CODING[k])])
  {
    hide Step, OnHeaderField, OnDiscardWs, OnDiscardLws, OnValueLws, OnHeadersAlmostDone, OnHeadersDone, OnHeaderFieldStart;
    HeaderStep(InCoding(b, k), CODING[k]);
  }

  lemma {:induction false} CodingRun(b: Parser, k: nat)
    requires b.state == HeaderValueDiscardWs && b.hs == TransferEncoding && b.nread + k <= b.limit && 0 < k <= 7
    ensures Run(b, CODING[..k]) == Trace(InCoding(b, k), [Begin(Value)] + ByteItems(Value, CODING[..k]), k, Running)
  {
    hide Run, Step, InCoding, ByteItems;
    if k == 1 {
      CodingFirst(b);
      assert CODING[..1] == ['c'];
      OneByteItem(Value, 'c');
      assert [Begin(Value), Byte(Value, 'c')] == [Begin(Value)] + [Byte(Value, 'c')];
      RunByte(b, 'c', InCoding(b, 1), [Begin(Value), Byte(Value, 'c')]);
    } else {
      CodingRun(b, k - 1);
      CodingNext(b, k - 1);
      ValueSnoc(b, CODING[..k - 1], CODING[k - 1], InCoding(b, k - 1), InCoding(b, k));
      assert CODING[..k - 1] + [CODING[k - 1]] == CODING[..k];
    }
  }

  /** The line that announces chunks. */
  lemma CodingGoes(p: Parser)
    returns (q: Parser)
    requires LineReady(p) && p.nread + |HeaderLine(NAME, CODING)| <= p.limit
    ensures Goes(p, HeaderLine(NAME, CODING), q, [Data(Field, NAME), Data(Value, CODING)])
    ensures q.state == HeaderValueLws && q.hs == Chunked && q.flags == AllFlags(p) && SameHead(p, q)
            && q.nread == p.nread + |HeaderLine(NAME, CODING)|
  {
    hide Goes, Run, BeforeValue, IsName, NameState, ByteItems, HeaderLine, AllFlags;
    LineParts(NAME, CODING);
    CodingName(17);
    assert NAME[..17] == NAME && CODING[..7] == CODING;
    var b := BeforeValue(p, NAME);
    NameGoes(p, NAME);
    BeforeValueFields(p, NAME);
    CodingRun(b, 7);
    ValueEnds(b, CODING, InCoding(b, 7));
    q := InCoding(b, 7).(state := HeaderValueLws, nread := b.nread + 9);
    GoesOn(p, NAME + ": ", b, [Data(Field, NAME)], CODING + "\r\n", q, [Data(Value, CODING)]);
    assert [Data(Field, NAME)] + [Data(Value, CODING)] == [Data(Field, NAME), Data(Value, CODING)];
  }

  /** The blank line behind it. */
  lemma BodyBegins(p: Parser)
    requires p.state == HeaderValueLws && p.hs == Chunked && p.flags == NO_FLAGS && p.ptype == Request && p.meth != CONNECT
    requires p.nread + 2 <= p.limit
    ensures Run(p, "\r\n").status == Running
    ensures var q := Run(p, "\r\n").p; q.state == ChunkSizeStart && q.flags.chunked && q.nread == 0 && q.limit == p.limit
  {
    hide Run, Step;
    EndCR(p);
    RunByte(p, CR, AtEnd(p), PendingItems(p));
    ChunksAhead(AtEnd(p));
    var o := Step(AtEnd(p), LF);
    RunByte(AtEnd(p), LF, o.p, o.items);
    RunGo(p, [CR], AtEnd(p), PendingItems(p), [LF], o.p, o.items);
    assert [CR] + [LF] == "\r\n";
  }

  lemma ChunksAhead(p: Parser)
    requires p.state == HeadersAlmostDone && p.flags == NO_FLAGS.(chunked := true) && p.meth != CONNECT && p.nread + 1 <= p.limit
    ensures Step(p, LF).Go?
    ensures var q := Step(p, LF).p; q.state == ChunkSizeStart && q.flags.chunked && q.nread == 0 && q.limit == p.limit
  {
    hide Step, ShouldKeepAlive;
    HeaderStep(p, LF);
  }

  /** The head of a request whose body comes in chunks. */
  function ChunkedHead(m: Message): string
    requires m.major < 10 && m.minor < 10
  {
    HeadLines(m) + HeaderLine(NAME, CODING) + "\r\n"
  }

  /** Behind it the parser is at the first size line. */
  lemma ChunkedHeadGoes(m: Message, limit: nat)
    requires m.meth != CONNECT && GoodTarget(m) && m.major < 10 && m.minor < 10 && |ChunkedHead(m)| <= limit
    ensures var t := Run(Init(Request, limit), ChunkedHead(m));
            t.status == Running && t.p.state == ChunkSizeStart && t.p.flags.chunked && t.p.nread == 0 && t.p.limit == limit
  {
    hide Run, GoodTarget, HeadLines, HeaderLine, Pending, Group;
    var p := Init(Request, limit);
    var p1 := LineGoes(m, limit);
    var p2 := CodingGoes(p1);
    BodyBegins(p2);
    RunAppend(p, HeadLines(m), HeaderLine(NAME, CODING));
    RunAppend(p, HeadLines(m) + HeaderLine(NAME, CODING), "\r\n");
  }

  /** A request that announces chunks, and then a line that is no size line: the byte 0x80 ends the
      body, which by the standard is malformed. */
  lemma HighByteEndsBody(m: Message, limit: nat)
    requires m.meth != CONNECT && GoodTarget(m) && m.major < 10 && m.minor < 10 && |ChunkedHead(m)| <= limit && 3 <= limit
    ensures var line := [128 as char, CR, LF];
            var t := Run(Init(Request, limit), ChunkedHead(m) + line);
            && StrictChunks(line, limit) == Malformed
            && t.status == Running && t.p.flags.trailing && t.items == Run(Init(Request, limit), ChunkedHead(m)).items + [Note(ChunkHeader(0))]
  {
    hide Run, ChunkedHead, GoodTarget;
    var line := [128 as char, CR, LF];
    ChunkedHeadGoes(m, limit);
    ZeroLine(Run(Init(Request, limit), ChunkedHead(m)).p);
    RunAppend(Init(Request, limit), ChunkedHead(m), line);
    LineAgrees(line);
  }
}
