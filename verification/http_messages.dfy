/** Whole messages: from the end of its headers to its completion a message delivers exactly its
    body. */
module HttpMessages {
  import opened Options
  import opened HttpTypes
  import opened HttpMachine
  import opened HttpCallbacks
  import opened HttpInvariants
  import opened HttpProtocol
  import opened HttpExecutor
  import opened HttpFraming
  import opened Seqs

  /** What comes before the first completion. */
  function BeforeComplete(items: seq<Item>): seq<Item>
    decreases |items|
  {
    if items == [] || items[0] == Note(MessageComplete) then [] else [items[0]] + BeforeComplete(items[1..])
  }

  lemma {:induction false} BehindQuiet(a: seq<Item>, b: seq<Item>)
    requires Quiet(a)
    ensures BeforeComplete(a + b) == a + BeforeComplete(b) && (Quiet(a + b) <==> Quiet(b))
    decreases |a|
  {
    QuietAppend(a, b);
    if a == [] {
      assert a + b == b;
    } else {
      var x, rest := a[0], a[1..];
      assert a == [x] + rest && (a + b)[1..] == rest + b;
      BehindQuiet(rest, b);
    }
  }

  lemma {:induction false} AllQuiet(items: seq<Item>)
    requires Quiet(items)
    ensures BeforeComplete(items) == items
    decreases |items|
  {
    if items != [] {
      AllQuiet(items[1..]);
      assert items == [items[0]] + items[1..];
    }
  }

  // ---- where headers end ----------------------------------------------------------------------

  predicate EndsHeaders(items: seq<Item>, h: Head) { Note(HeadersComplete(h)) in items }

  lemma NotAtStart(p: Parser, ch: char, h: Head)
    requires IsStartState(p.state) && !OnStart(p, ch).Fail?
    ensures !EndsHeaders(OnStart(p, ch).items, h)
  {
    hide FirstMethod;
  }

  lemma NotInStatusLine(p: Parser, ch: char, h: Head)
    requires IsStatusLineState(p.state) && !OnStatusLine(p, ch).Fail?
    ensures !EndsHeaders(OnStatusLine(p, ch).items, h)
  {}

  lemma NotInRequestLine(p: Parser, ch: char, h: Head)
    requires IsRequestLineState(p.state) && !OnRequestLine(p, ch).Fail?
    ensures !EndsHeaders(OnRequestLine(p, ch).items, h)
  {
    hide MethodName, Rematch;
  }

  lemma NotInUrl(p: Parser, ch: char, h: Head)
    requires (p.state == ReqSpacesBeforeUrl || IsUrlState(p.state)) && !OnUrl(p, ch).Fail?
    ensures !EndsHeaders(OnUrl(p, ch).items, h)
  {
    hide ParseUrlChar;
  }

  /** The parser right behind the headers of a message with a body. */
  predicate Bodied(h: Head, q: Parser) {
    if h.flags.chunked then q.state == ChunkSizeStart && q.flags.chunked && q.nread == 0
    else if h.contentLength == ULLONG_MAX then q.state == BodyIdentityEof
    else q.state == BodyIdentity && q.contentLength == h.contentLength && 0 < h.contentLength
  }

  /** The headers are the last thing, and a body follows; or the message is complete with them. */
  predicate EndsWithHeaders(o: Outcome, h: Head) {
    && !o.Fail? && o.items != []
    && (|| (o.Go? && o.items[|o.items| - 1] == Note(HeadersComplete(h)) && Quiet(o.items) && Bodied(h, o.p))
        || (|o.items| > 1 && o.items[|o.items| - 2..] == [Note(HeadersComplete(h)), Note(MessageComplete)]
            && Quiet(o.items[..|o.items| - 1])))
  }

  lemma DoneKinds(q: Parser, ch: char)
    requires !OnHeadersDone(q, ch).Fail?
    ensures var d := OnHeadersDone(q, ch);
            d.items == [Note(MessageComplete)] || (d.Go? && d.items == [] && Bodied(HeadOf(q), d.p))
  {
    hide ShouldKeepAlive, NeedsEof, NewMessage;
  }

  lemma HeadFirst(d: Outcome, h: Head)
    requires (d.Go? && d.items == [] && Bodied(h, d.p)) || (!d.Fail? && d.items == [Note(MessageComplete)])
    ensures EndsWithHeaders(Prepend([Note(HeadersComplete(h))], d), h)
  {
    hide Bodied;
    var o := Prepend([Note(HeadersComplete(h))], d);
    if d.items != [] {
      assert o.items == [Note(HeadersComplete(h)), Note(MessageComplete)];
      assert o.items[..1] == [Note(HeadersComplete(h))] && o.items[0..] == o.items;
    }
  }

  lemma OnlyHead(d: seq<Item>, h: Head, g: Head)
    requires (d == [] || d == [Note(MessageComplete)]) && EndsHeaders([Note(HeadersComplete(g))] + d, h)
    ensures g == h
  {}

  lemma TrailerIsNoHead(p: Parser, h: Head)
    ensures !EndsHeaders(Prepend([Note(ChunkComplete)], OnMessageDone(p)).items, h)
  {
    hide NewMessage;
  }

  lemma HeadersDoneEnds(p: Parser, ch: char, h: Head)
    requires !OnHeadersAlmostDone(p, ch).Fail? && EndsHeaders(OnHeadersAlmostDone(p, ch).items, h)
    ensures EndsWithHeaders(OnHeadersAlmostDone(p, ch), h)
  {
    hide OnHeadersDone, OnMessageDone, EndsHeaders, EndsWithHeaders, HeadOf;
    TrailerIsNoHead(p, h);
    var up := if p.flags.upgrade && p.flags.connUpgrade then p.ptype == Request || p.statusCode == 101 else p.meth == CONNECT;
    var q := p.(state := HeadersDone, upgrade := up);
    if !p.flags.trailing {
      DoneKinds(q, ch);
      OnlyHead(OnHeadersDone(q, ch).items, h, HeadOf(q));
      HeadFirst(OnHeadersDone(q, ch), h);
    }
  }

  lemma BehindValue(o: Outcome, h: Head)
    requires EndsWithHeaders(o, h)
    ensures EndsWithHeaders(Prepend([Begin(Value), End(Value)], o), h)
  {
    hide Bodied, Quiet;
    var x, n := [Begin(Value), End(Value)] + o.items, |o.items|;
    LastItems([Begin(Value), End(Value)], o.items);
    QuietTwo();
    QuietAppend([Begin(Value), End(Value)], o.items);
    QuietAppend([Begin(Value), End(Value)], o.items[..n - 1]);
    assert x[..n + 1] == [Begin(Value), End(Value)] + o.items[..n - 1];
  }

  lemma QuietTwo()
    ensures Quiet([Begin(Value), End(Value)])
  {}

  lemma FieldStartEnds(p: Parser, ch: char, h: Head)
    requires !OnHeaderFieldStart(p, ch).Fail? && EndsHeaders(OnHeaderFieldStart(p, ch).items, h)
    ensures EndsWithHeaders(OnHeaderFieldStart(p, ch), h)
  {
    hide FirstOfName, OnHeadersAlmostDone, EndsWithHeaders;
    if ch == LF { HeadersDoneEnds(p, ch, h); }
  }

  lemma HeaderLineEnds(p: Parser, ch: char, h: Head)
    requires IsHeaderLineState(p.state) && !OnHeaderLine(p, ch).Fail? && EndsHeaders(OnHeaderLine(p, ch).items, h)
    ensures EndsWithHeaders(OnHeaderLine(p, ch), h)
  {
    hide NameByte, FirstOfName, ValueByte, SetFlag, Lower, OnHeadersAlmostDone, IsHeaderChar, OnHeaderFieldStart, EndsWithHeaders;
    var q := p.(flags := SetFlag(p.flags, p.hs));
    match p.state
    case HeaderFieldStart => FieldStartEnds(p, ch, h);
    case HeaderValueDiscardLws =>
      if ch != ' ' && ch != '\t' && p.hs != ContentLength {
        FieldStartEnds(q, ch, h);
        BehindValue(OnHeaderFieldStart(q, ch), h);
      }
    case HeaderValueLws => if ch != ' ' && ch != '\t' { FieldStartEnds(q, ch, h); }
    case HeadersAlmostDone => HeadersDoneEnds(p, ch, h);
    case _ => NotElsewhere(p, ch, h);
  }

  lemma NotElsewhere(p: Parser, ch: char, h: Head)
    requires IsHeaderLineState(p.state) && !OnHeaderLine(p, ch).Fail?
    requires p.state != HeaderFieldStart && p.state != HeaderValueDiscardLws && p.state != HeaderValueLws && p.state != HeadersAlmostDone
    ensures !EndsHeaders(OnHeaderLine(p, ch).items, h)
  {
    hide NameByte, FirstOfName, ValueByte, SetFlag, Lower, IsHeaderChar, OnHeaderFieldStart, OnHeadersAlmostDone, ShouldKeepAlive, NeedsEof;
  }

  lemma NotInBody(p: Parser, ch: char, h: Head)
    requires IsBodyByteState(p.state) && !OnBody(p, ch).Fail?
    ensures !EndsHeaders(OnBody(p, ch).items, h)
  {
    hide ShouldKeepAlive;
  }

  lemma NotInChunkLine(p: Parser, ch: char, h: Head)
    requires IsChunkLineState(p.state) && !OnChunk(p, ch).Fail?
    ensures !EndsHeaders(OnChunk(p, ch).items, h)
  {
    hide Unhex;
  }

  /** However the headers end, it is the last thing, unless the message is complete with them. */
  lemma StepEndsHeaders(p: Parser, ch: char, h: Head)
    requires p.state != MessageDone && !Step(p, ch).Fail? && EndsHeaders(Step(p, ch).items, h)
    ensures EndsWithHeaders(Step(p, ch), h)
  {
    hide OnHeaderLine, OnStart, OnRequestLine, OnUrl, OnStatusLine, OnBody, OnChunk, EndsHeaders, EndsWithHeaders;
    var q := if InHeader(p.state) then p.(nread := p.nread + 1) else p;
    if IsStartState(p.state) {
      NotAtStart(q, ch, h);
    } else if IsStatusLineState(p.state) {
      NotInStatusLine(q, ch, h);
    } else if IsRequestLineState(p.state) {
      NotInRequestLine(q, ch, h);
    } else if p.state == ReqSpacesBeforeUrl || IsUrlState(p.state) {
      NotInUrl(q, ch, h);
    } else if IsHeaderLineState(p.state) {
      HeaderLineEnds(q, ch, h);
    } else if IsChunkLineState(p.state) {
      NotInChunkLine(q, ch, h);
    } else {
      NotInBody(q, ch, h);
    }
  }

  // ---- the limit stays ----------------------------------------------------------------------------

  predicate KeepsLimit(p: Parser, o: Outcome) { o.Fail? || o.p.limit == p.limit }

  lemma StartLimit(p: Parser, ch: char)
    requires IsStartState(p.state)
    ensures KeepsLimit(p, OnStart(p, ch))
  {
    hide FirstMethod;
  }

  lemma RequestLineLimit(p: Parser, ch: char)
    requires IsRequestLineState(p.state)
    ensures KeepsLimit(p, OnRequestLine(p, ch))
  {
    hide MethodName, Rematch;
  }

  lemma UrlLimit(p: Parser, ch: char)
    ensures KeepsLimit(p, OnUrl(p, ch))
  {
    hide ParseUrlChar;
  }

  lemma HeadersLimit(p: Parser, ch: char)
    ensures KeepsLimit(p, OnHeadersAlmostDone(p, ch)) && KeepsLimit(p, OnHeaderFieldStart(p, ch)) && KeepsLimit(p, OnMessageDone(p))
    ensures KeepsLimit(p, OnHeadersDone(p, ch))
  {
    hide FirstOfName, ShouldKeepAlive, NeedsEof;
  }

  lemma HeaderLineLimit(p: Parser, ch: char)
    ensures KeepsLimit(p, OnHeaderLine(p, ch))
  {
    hide NameByte, ValueByte, SetFlag, Lower, IsHeaderChar, OnHeaderFieldStart, OnHeadersAlmostDone, OnHeadersDone;
    HeadersLimit(p, ch);
    HeadersLimit(p.(flags := SetFlag(p.flags, p.hs)), ch);
  }

  lemma DoneLimit(p: Parser)
    ensures KeepsLimit(p, OnMessageDone(p))
  {}

  lemma BodyLimit(p: Parser, ch: char)
    ensures KeepsLimit(p, OnBody(p, ch))
  {
    hide OnMessageDone;
    DoneLimit(p.(contentLength := 0));
  }

  lemma ChunkLimit(p: Parser, ch: char)
    ensures KeepsLimit(p, OnChunk(p, ch))
  {
    hide Unhex;
  }

  lemma StepLimit(p: Parser, ch: char)
    ensures KeepsLimit(p, Step(p, ch))
  {
    hide OnHeaderLine, OnStart, OnRequestLine, OnUrl, OnStatusLine, OnBody, OnChunk, OnMessageDone;
    var q := if InHeader(p.state) then p.(nread := p.nread + 1) else p;
    HeadersLimit(q, ch);
    HeaderLineLimit(q, ch);
    BodyLimit(q, ch);
    ChunkLimit(q, ch);
    UrlLimit(q, ch);
    if IsStartState(p.state) { StartLimit(q, ch); }
    else if IsStatusLineState(p.state) { StatusLimit(q, ch); }
    else if IsRequestLineState(p.state) { RequestLineLimit(q, ch); }
  }

  lemma StatusLimit(p: Parser, ch: char)
    requires IsStatusLineState(p.state)
    ensures KeepsLimit(p, OnStatusLine(p, ch))
  {}

  lemma {:induction false} RunLimit(p: Parser, s: string)
    ensures Run(p, s).p.limit == p.limit
  {
    hide Step;
    if s != "" {
      RunLimit(p, s[..|s| - 1]);
      StepLimit(Run(p, s[..|s| - 1]).p, s[|s| - 1]);
    }
  }

  // ---- bodies ------------------------------------------------------------------------------------

  predicate InTrailer(ph: Phase) {
    ph == Trailer || ph == Phase.Name(true) || ph == Named(true) || ph == Val(true) || ph == Valued(true) || ph == Finished
  }

  /** The trailer of a chunked message holds no body bytes. */
  lemma {:induction false} TrailerHasNoBody(ph: Phase, items: seq<Item>)
    requires InTrailer(ph) && Watch(ph, items).Some?
    ensures BodyBytes(BeforeComplete(items)) == ""
    decreases |items|
  {
    if items != [] && items[0] != Note(MessageComplete) {
      TrailerHasNoBody(Observe(ph, items[0]).value, items[1..]);
      BodyBytesCons(items[0], BeforeComplete(items[1..]));
    }
  }

  /** What a message with head h has for its body, of the bytes behind its headers. */
  predicate BodyIs(h: Head, rest: string, limit: nat, t: Trace) {
    var body := BodyBytes(BeforeComplete(t.items));
    if h.flags.chunked then
      var d := DecodeChunks(rest, limit);
      && (!Quiet(t.items) ==> d.Ended? && body == d.body)
      && (Quiet(t.items) && !t.status.Failed? ==> !d.Malformed? && body == d.body)
    else if h.contentLength == ULLONG_MAX then Quiet(t.items) && body == rest
    else (!Quiet(t.items) <==> h.contentLength <= |rest|) && body == if h.contentLength <= |rest| then rest[..h.contentLength] else rest
  }

  lemma ChunkedBodyIs(h: Head, ph: Phase, q: Parser, rest: string)
    requires h.flags.chunked && Bodied(h, q) && Inv(q) && Believed(q, ph)
    ensures BodyIs(h, rest, q.limit, Run(q, rest))
  {
    hide Run, Step, BodyBytes, Quiet, DecodeChunks, Believed, Inv;
    ChunkedBodyIsExact(q, rest);
    var t := Run(q, rest);
    match DecodeChunks(rest, q.limit)
    case Malformed =>
    case Open(_) => AllQuiet(t.items);
    case Ended(body, used) =>
      var a, b := rest[..used], rest[used..];
      assert rest == a + b;
      var mid := Run(q, a);
      RunAppend(q, a, b);
      BehindQuiet(mid.items, Run(mid.p, b).items);
      TrailerRun(q, ph, a, b);
      BodyBytesAppend(mid.items, BeforeComplete(Run(mid.p, b).items));
  }

  lemma TrailerRun(q: Parser, ph: Phase, a: string, b: string)
    requires Inv(q) && Believed(q, ph) && Run(q, a).status == Running && Run(q, a).p == SizeRead(q, 0)
    ensures BodyBytes(BeforeComplete(Run(SizeRead(q, 0), b).items)) == ""
  {
    hide Run, Step, BodyBytes, Inv, Watch;
    RunExpected(ph, q, a);
    NoAssertFires(q, a);
    var mid := Watch(ph, Run(q, a).items).value;
    TrailerPhase(SizeRead(q, 0), mid);
    RunExpected(mid, SizeRead(q, 0), b);
    TrailerHasNoBody(mid, Run(SizeRead(q, 0), b).items);
  }

  lemma TrailerPhase(p: Parser, ph: Phase)
    requires p.state == HeaderFieldStart && p.flags.trailing && Believed(p, ph)
    ensures InTrailer(ph)
  {
    BelieveHeader(p);
  }

  lemma CountedBodyIs(h: Head, q: Parser, rest: string)
    requires !h.flags.chunked && h.contentLength < ULLONG_MAX && Bodied(h, q)
    ensures BodyIs(h, rest, q.limit, Run(q, rest))
  {
    hide Run, Step, BodyBytes, Quiet, BodyItems, NewMessage;
    var n := h.contentLength;
    if |rest| < n {
      IdentityPart(q, rest);
      QuietBody(rest);
      AllQuiet(BodyItems(rest));
      BodyBytesOfBody(rest);
    } else {
      var a, b := rest[..n], rest[n..];
      assert rest == a + b;
      IdentityWhole(q, a);
      RunAppend(q, a, b);
      var items := BodyItems(a) + [End(Body)];
      var more := if Run(q, a).status == Running then Run(Run(q, a).p, b).items else [];
      assert Run(q, rest).items == items + ([Note(MessageComplete)] + more);
      QuietBody(a);
      QuietAppend(BodyItems(a), [End(Body)]);
      QuietOne(End(Body));
      BehindQuiet(items, [Note(MessageComplete)] + more);
      QuietAppend([Note(MessageComplete)], more);
      QuietOne(Note(MessageComplete));
      assert BeforeComplete([Note(MessageComplete)] + more) == [] && items + [] == items;
      BodyBytesOfBody(a);
      BodyBytesAppend(BodyItems(a), [End(Body)]);
      NoBodyBytes(End(Body));
    }
  }

  lemma EndlessBodyIs(h: Head, q: Parser, rest: string)
    requires !h.flags.chunked && h.contentLength == ULLONG_MAX && Bodied(h, q)
    ensures BodyIs(h, rest, q.limit, Run(q, rest))
  {
    hide Run, Step, BodyBytes, Quiet, BodyItems;
    EofRun(q, rest);
    QuietBody(rest);
    AllQuiet(BodyItems(rest));
    BodyBytesOfBody(rest);
  }

  lemma InitBelieved(t: ParserType, limit: nat)
    ensures Believed(Init(t, limit), Idle)
  {}

  lemma LastItems(a: seq<Item>, b: seq<Item>)
    requires b != []
    ensures (a + b) != [] && (a + b)[|a + b| - 1] == b[|b| - 1]
    ensures |b| > 1 ==> |a + b| > 1 && (a + b)[|a + b| - 2..] == b[|b| - 2..]
  {}

  lemma ShortOfSentinel(h: Head, q: Parser)
    requires Bodied(h, q) && Inv(q) && !h.flags.chunked && h.contentLength != ULLONG_MAX
    ensures h.contentLength < ULLONG_MAX
  {}

  lemma SameBody(h: Head, rest: string, limit: nat, t: Trace, u: Trace)
    requires BodyIs(h, rest, limit, t) && u.items == t.items && u.status == t.status
    ensures BodyIs(h, rest, limit, u)
  {
    hide BodyBytes, BeforeComplete, DecodeChunks;
  }

  lemma BodyBehind(h: Head, ph: Phase, q: Parser, rest: string)
    requires Bodied(h, q) && Inv(q) && Believed(q, ph)
    ensures BodyIs(h, rest, q.limit, Run(q, rest))
  {
    hide BodyIs, Bodied, Believed, Inv;
    if h.flags.chunked { ChunkedBodyIs(h, ph, q, rest); }
    else if h.contentLength == ULLONG_MAX { EndlessBodyIs(h, q, rest); }
    else { ShortOfSentinel(h, q); CountedBodyIs(h, q, rest); }
  }

  /** The byte that ends the headers, behind what came before. */
  lemma UpToHead(t: ParserType, limit: nat, s: string, k: nat, h: Head)
    requires 0 < k <= |s| && Run(Init(t, limit), s[..k - 1]).status == Running
    requires var o := Step(Run(Init(t, limit), s[..k - 1]).p, s[k - 1]); !o.Fail? && EndsHeaders(o.items, h)
    ensures var b, a := Run(Init(t, limit), s[..k - 1]), Run(Init(t, limit), s[..k]);
            var o := Step(b.p, s[k - 1]);
            && EndsWithHeaders(o, h) && a.items == b.items + o.items && !a.status.Failed?
            && (o.Go? ==> a.status == Running && a.p == o.p)
  {
    hide Run, Step, Believed, Inv, Watch, EndsHeaders, EndsWithHeaders;
    var p := Init(t, limit);
    InitInv(t, limit);
    InitBelieved(t, limit);
    var before := Run(p, s[..k - 1]);
    NoAssertFires(p, s[..k - 1]);
    RunExpected(Idle, p, s[..k - 1]);
    NotMessageDone(Watch(Idle, before.items).value, before.p);
    StepEndsHeaders(before.p, s[k - 1], h);
    RunSnoc(p, s[..k - 1], s[k - 1]);
    assert s[..k - 1] + [s[k - 1]] == s[..k];
  }

  /** What is delivered behind the headers. */
  lemma RestOfRun(t: ParserType, limit: nat, s: string, k: nat, h: Head)
    requires k <= |s| && Run(Init(t, limit), s[..k]).status == Running && Bodied(h, Run(Init(t, limit), s[..k]).p)
    ensures var a, x := Run(Init(t, limit), s[..k]), Run(Init(t, limit), s);
            a.items <= x.items && BodyIs(h, s[k..], limit, x.(items := x.items[|a.items|..]))
  {
    hide Run, Step, Believed, Inv, Watch, BodyIs, Bodied;
    var p := Init(t, limit);
    InitInv(t, limit);
    InitBelieved(t, limit);
    NoAssertFires(p, s[..k]);
    RunExpected(Idle, p, s[..k]);
    RunLimit(p, s[..k]);
    var a := Run(p, s[..k]);
    BodyBehind(h, Watch(Idle, a.items).value, a.p, s[k..]);
    assert s == s[..k] + s[k..];
    RunAppend(p, s[..k], s[k..]);
    var u := Run(a.p, s[k..]);
    assert (a.items + u.items)[|a.items|..] == u.items;
    SameBody(h, s[k..], limit, u, Run(p, s).(items := u.items));
  }

  lemma PrefixItems(p: Parser, a: string, b: string)
    ensures Run(p, a).items <= Run(p, a + b).items
  {
    hide Run, Step;
    RunAppend(p, a, b);
  }

  /** For every run from a fresh parser and every byte of it that ends the headers of a message:
      either the message is complete with them, or what is delivered from there to its completion
      is its body, by chunks, by Content-Length or to the end of the stream; and it is not
      completed before. */
  lemma MessageBodyIsExact(t: ParserType, limit: nat, s: string, k: nat, h: Head)
    requires 0 < k <= |s| && Run(Init(t, limit), s[..k - 1]).status == Running
    requires var o := Step(Run(Init(t, limit), s[..k - 1]).p, s[k - 1]); !o.Fail? && EndsHeaders(o.items, h)
    ensures var a, x := Run(Init(t, limit), s[..k]), Run(Init(t, limit), s);
            && !a.status.Failed? && a.items != [] && a.items <= x.items
            && (|| (|a.items| > 1 && a.items[|a.items| - 2..] == [Note(HeadersComplete(h)), Note(MessageComplete)])
                || (a.items[|a.items| - 1] == Note(HeadersComplete(h))
                    && BodyIs(h, s[k..], limit, x.(items := x.items[|a.items|..]))))
  {
    hide Run, Step, BodyIs, EndsHeaders, Bodied, Quiet;
    UpToHead(t, limit, s, k, h);
    var o := Step(Run(Init(t, limit), s[..k - 1]).p, s[k - 1]);
    LastItems(Run(Init(t, limit), s[..k - 1]).items, o.items);
    PrefixItems(Init(t, limit), s[..k], s[k..]);
    assert s == s[..k] + s[k..];
    if o.items[|o.items| - 1] == Note(HeadersComplete(h)) { RestOfRun(t, limit, s, k, h); }
  }
}
