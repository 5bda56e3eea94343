/** No step puts more than its own byte behind a mark: whatever the state, the Byte items of
    one step spell nothing or exactly the byte that was read. */
module HttpStepBytes {
  import opened HttpTypes
  import opened HttpMachine
  import opened HttpCallbacks

  function Bytes(items: seq<Item>): string {
    if items == [] then "" else (if items[0].Byte? then [items[0].b] else "") + Bytes(items[1..])
  }

  lemma NoBytes()
    ensures Bytes([]) == ""
  {}

  lemma BytesCons(x: Item, items: seq<Item>)
    ensures Bytes([x] + items) == (if x.Byte? then [x.b] else "") + Bytes(items)
  {
    assert ([x] + items)[1..] == items;
  }

  lemma {:induction false} BytesAppend(a: seq<Item>, b: seq<Item>)
    ensures Bytes(a + b) == Bytes(a) + Bytes(b)
  {
    hide Bytes;
    if a == [] {
      NoBytes();
      assert a + b == b;
    } else {
      BytesAppend(a[1..], b);
      BytesCons(a[0], a[1..]);
      BytesCons(a[0], a[1..] + b);
      assert a == [a[0]] + a[1..] && a + b == [a[0]] + (a[1..] + b);
    }
  }

  lemma BytesOne(a: Item)
    ensures Bytes([a]) == if a.Byte? then [a.b] else ""
  {
    assert [a][1..] == [];
  }

  lemma BytesTwo(a: Item, b: Item)
    ensures Bytes([a, b]) == Bytes([a]) + Bytes([b])
  {
    assert [a, b] == [a] + [b];
    BytesAppend([a], [b]);
  }

  predicate AtMost(o: Outcome, ch: char) { o.Fail? || Bytes(o.items) == "" || Bytes(o.items) == [ch] }

  lemma PrependAtMost(items: seq<Item>, o: Outcome, ch: char)
    requires AtMost(o, ch) && Bytes(items) == ""
    ensures AtMost(Prepend(items, o), ch)
  {
    if !o.Fail? { BytesAppend(items, o.items); }
  }

  lemma HeadersAlmostDoneBytes(p: Parser, ch: char)
    ensures AtMost(OnHeadersAlmostDone(p, ch), ch)
    ensures AtMost(OnMessageDone(p), ch) && (OnMessageDone(p).Fail? || Bytes(OnMessageDone(p).items) == "")
  {
    hide AtMost, Bytes;
    BytesOne(Note(ChunkComplete));
    MessageDoneBytes(p, ch);
    if ch == LF && p.flags.trailing {
      PrependAtMost([Note(ChunkComplete)], OnMessageDone(p), ch);
    } else if ch == LF && !(p.flags.chunked && p.flags.contentLength) {
      var up := if p.flags.upgrade && p.flags.connUpgrade then p.ptype == Request || p.statusCode == 101
                else p.meth == CONNECT;
      var q := p.(state := HeadersDone, upgrade := up);
      HeadersDoneBytes(q, ch);
      BytesOne(Note(HeadersComplete(HeadOf(q))));
      PrependAtMost([Note(HeadersComplete(HeadOf(q)))], OnHeadersDone(q, ch), ch);
    } else {
      assert AtMost(Fail(Strict), ch) && AtMost(Fail(UnexpectedContentLength), ch) by { FailAtMost(ch); }
    }
  }

  lemma FailAtMost(ch: char)
    ensures forall e :: AtMost(Fail(e), ch)
  {}

  lemma MessageDoneBytes(p: Parser, ch: char)
    ensures AtMost(OnMessageDone(p), ch) && (OnMessageDone(p).Fail? || Bytes(OnMessageDone(p).items) == "")
  {
    BytesOne(Note(MessageComplete));
  }

  lemma HeadersDoneBytes(p: Parser, ch: char)
    ensures AtMost(OnHeadersDone(p, ch), ch)
  {
    HeadersDoneShape(p, ch);
    hide OnHeadersDone;
    BytesOne(Note(MessageComplete));
  }

  lemma HeaderFieldStartBytes(p: Parser, ch: char)
    ensures AtMost(OnHeaderFieldStart(p, ch), ch)
  {
    hide OnHeadersAlmostDone, Token;
    HeadersAlmostDoneBytes(p, ch);
    BytesTwo(Begin(Field), Byte(Field, ch));
    BytesOne(Begin(Field));
    BytesOne(Byte(Field, ch));
  }

  lemma ValueStartBytes(p: Parser, ch: char)
    ensures AtMost(OnValueStart(p, ch), ch)
  {
    ValueStartShape(p, ch);
    hide OnValueStart;
    BytesTwo(Begin(Value), Byte(Value, ch));
    BytesOne(Begin(Value));
    BytesOne(Byte(Value, ch));
  }

  lemma DiscardLwsBytes(p: Parser, ch: char)
    ensures AtMost(OnDiscardLws(p, ch), ch)
  {
    hide OnHeaderFieldStart;
    HeaderFieldStartBytes(p.(flags := SetFlag(p.flags, p.hs)), ch);
    BytesTwo(Begin(Value), End(Value));
    BytesOne(Begin(Value));
    BytesOne(End(Value));
    PrependAtMost([Begin(Value), End(Value)], OnHeaderFieldStart(p.(flags := SetFlag(p.flags, p.hs)), ch), ch);
  }

  lemma ValueLwsBytes(p: Parser, ch: char)
    ensures AtMost(OnValueLws(p, ch), ch)
  {
    hide OnHeaderFieldStart, OnValueStart, AtMost;
    HeaderFieldStartBytes(p.(flags := SetFlag(p.flags, p.hs)), ch);
    ValueStartBytes(if p.hs == ContentLengthNum then p.(hs := ContentLengthWs) else p, ch);
  }

  lemma DiscardWsBytes(p: Parser, ch: char)
    ensures AtMost(OnDiscardWs(p, ch), ch)
  {
    hide OnValueStart;
    ValueStartBytes(p, ch);
  }

  lemma OneItemBytes(ch: char)
    ensures forall k, b :: Bytes([Byte(k, b)]) == [b]
    ensures forall k :: Bytes([End(k)]) == ""
    ensures forall n :: Bytes([Note(n)]) == ""
  {
    forall k, b ensures Bytes([Byte(k, b)]) == [b] { BytesOne(Byte(k, b)); }
    forall k ensures Bytes([End(k)]) == "" { BytesOne(End(k)); }
    forall n ensures Bytes([Note(n)]) == "" { BytesOne(Note(n)); }
  }

  lemma HeaderValueBytes(p: Parser, ch: char)
    ensures AtMost(OnHeaderValue(p, ch), ch)
  {
    hide Bytes, ValueByte;
    OneItemBytes(ch);
  }

  lemma HeaderFieldBytes(p: Parser, ch: char)
    ensures AtMost(OnHeaderField(p, ch), ch)
  {
    HeaderFieldShape(p, ch);
    hide Bytes, OnHeaderField;
    OneItemBytes(ch);
  }

  lemma HeaderLineBytes(p: Parser, ch: char)
    requires IsHeaderLineState(p.state)
    ensures AtMost(OnHeaderLine(p, ch), ch)
  {
    hide AtMost, OnHeaderFieldStart, OnHeaderField, OnDiscardWs, OnDiscardLws, OnValueStart, OnHeaderValue, OnValueLws,
         OnHeadersAlmostDone, OnHeadersDone;
    EmptyAtMost(ch);
    FailAtMost(ch);
    match p.state
    case HeaderFieldStart => HeaderFieldStartBytes(p, ch);
    case HeaderField => HeaderFieldBytes(p, ch);
    case HeaderValueDiscardWs => DiscardWsBytes(p, ch);
    case HeaderValueDiscardWsAlmostDone =>
    case HeaderValueDiscardLws => DiscardLwsBytes(p, ch);
    case HeaderValueStart => ValueStartBytes(p, ch);
    case HeaderValue => HeaderValueBytes(p, ch);
    case HeaderAlmostDone =>
    case HeaderValueLws => ValueLwsBytes(p, ch);
    case HeadersAlmostDone => HeadersAlmostDoneBytes(p, ch);
    case HeadersDone => HeadersDoneBytes(p, ch);
  }

  lemma EmptyAtMost(ch: char)
    ensures forall p :: AtMost(Go(p, []), ch)
  {}

  lemma StatusLineBytes(p: Parser, ch: char)
    requires IsStatusLineState(p.state)
    ensures AtMost(OnStatusLine(p, ch), ch)
  {
    hide OnResVersion, OnStatusCode, OnStatus, OnStatusStart;
    if IsResVersionState(p.state) {
      QuietResVersion(p, ch);
    } else if (p.state == ResFirstStatusCode || p.state == ResStatusCode) && !(p.state == ResStatusCode && (ch == CR || ch == LF)) {
      QuietStatusCode(p, ch);
    } else {
      StatusBytes(p, ch);
      StatusCodeEnds(p, ch);
    }
  }

  lemma StatusCodeEnds(p: Parser, ch: char)
    ensures p.state == ResStatusCode && (ch == CR || ch == LF) ==> OnStatusCode(p, ch) == OnStatusStart(p, ch)
  {}

  lemma StatusBytes(p: Parser, ch: char)
    ensures AtMost(OnStatus(p, ch), ch) && AtMost(OnStatusStart(p, ch), ch)
  {
    hide Bytes;
    OneItemBytes(ch);
    BytesOne(Begin(Status));
    PrependAtMost([Begin(Status)], OnStatus(p.(index := 0), ch), ch);
  }

  lemma UrlBytes(p: Parser, ch: char)
    ensures AtMost(OnUrl(p, ch), ch)
  {
    hide Bytes, ParseUrlChar;
    OneItemBytes(ch);
    BytesOne(Begin(Url));
    BytesAppend([Begin(Url)], [Byte(Url, ch)]);
    assert [] + [Byte(Url, ch)] == [Byte(Url, ch)];
    EmptyAtMost(ch);
  }

  lemma BodyBytes(p: Parser, ch: char)
    requires IsBodyByteState(p.state)
    ensures AtMost(OnBody(p, ch), ch)
  {
    hide Bytes, OnMessageDone;
    OneItemBytes(ch);
    BytesOne(Begin(Body));
    BytesTwo(Begin(Body), Byte(Body, ch));
    var items := [Begin(Body), Byte(Body, ch)];
    BytesAppend(items, [End(Body)]);
    if p.state == BodyIdentity && p.contentLength == 1 {
      var q := p.(contentLength := 0);
      HeadersAlmostDoneBytes(q, ch);
      if !OnMessageDone(q).Fail? { BytesAppend(items + [End(Body)], OnMessageDone(q).items); }
    }
  }

  lemma ChunkBytes(p: Parser, ch: char)
    requires IsChunkLineState(p.state)
    ensures AtMost(OnChunk(p, ch), ch)
  {
    ChunkShape(p, ch);
    hide OnChunk, Bytes;
    OneItemBytes(ch);
    EmptyAtMost(ch);
  }

  lemma DispatchBytes(p: Parser, ch: char)
    ensures AtMost(Dispatch(p, ch), ch)
  {
    hide OnHeaderLine, OnStart, OnRequestLine, OnUrl, OnStatusLine, OnBody, OnChunk, OnMessageDone, Bytes;
    if IsStartState(p.state) {
      StartShape(p, ch);
      OneItemBytes(ch);
      EmptyAtMost(ch);
    } else if IsStatusLineState(p.state) {
      StatusLineBytes(p, ch);
    } else if IsRequestLineState(p.state) {
      QuietRequestLine(p, ch);
      EmptyAtMost(ch);
    } else if p.state == ReqSpacesBeforeUrl || IsUrlState(p.state) {
      UrlBytes(p, ch);
    } else if IsHeaderLineState(p.state) {
      HeaderLineBytes(p, ch);
    } else if IsChunkLineState(p.state) {
      ChunkBytes(p, ch);
    } else if IsBodyByteState(p.state) {
      BodyBytes(p, ch);
    } else {
      HeadersAlmostDoneBytes(p, ch);
    }
  }
}
