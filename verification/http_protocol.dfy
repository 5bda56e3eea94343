/** The order in which callbacks can come, with exact body accounting: an observer that knows
    nothing of the parser's states follows every run without ever being surprised. */
module HttpProtocol {
  import opened Options
  import opened HttpTypes
  import opened HttpMachine
  import opened HttpCallbacks
  import opened HttpInvariants

  datatype Phase =
    | Idle
    | Line | Target(kind: Kind) | LineDone
    | Name(trailing: bool) | Named(trailing: bool) | Val(trailing: bool) | Valued(trailing: bool)
    | After(head: Head)
    | Counted(left: nat) | Endless
    | Between | Chunk(rest: nat) | Trailer | Finished

  predicate Announced(h: Head) { h.flags.chunked || (h.contentLength != 0 && h.contentLength != ULLONG_MAX) }

  /** No body is announced, or an upgrade takes the rest of the connection. */
  predicate NoBody(h: Head) { !Announced(h) || (h.upgrade && h.meth == CONNECT) }

  /** One thing the parser does, as the observer sees it; None is a surprise. In particular a
      message completes only when the announced length, or every chunk up to the empty one, has
      been delivered in full, and a chunk completes only after all of its bytes. */
  function Observe(ph: Phase, item: Item): Option<Phase> {
    match (ph, item)
    case (Idle, Note(MessageBegin)) => Some(Line)
    case (Line, Begin(k)) => if k == Url || k == Status then Some(Target(k)) else None
    case (Target(k), Byte(k', _)) => if k == k' then Some(ph) else None
    case (Target(k), End(k')) => if k == k' then Some(LineDone) else None
    case (LineDone, Begin(Field)) => Some(Name(false))
    case (LineDone, Note(HeadersComplete(h))) => Some(After(h))
    case (Name(t), Byte(Field, _)) => Some(ph)
    case (Name(t), End(Field)) => Some(Named(t))
    case (Named(t), Begin(Value)) => Some(Val(t))
    case (Val(t), Byte(Value, _)) => Some(ph)
    case (Val(t), End(Value)) => Some(Valued(t))
    case (Valued(t), Begin(Value)) => Some(Val(t))
    case (Valued(t), Begin(Field)) => Some(Name(t))
    case (Valued(false), Note(HeadersComplete(h))) => Some(After(h))
    case (Valued(true), Note(ChunkComplete)) => Some(Finished)
    case (After(h), Note(MessageComplete)) => if NoBody(h) then Some(Idle) else None
    case (After(h), Note(ChunkHeader(n))) => if h.flags.chunked then Some(ChunkPhase(n)) else None
    case (After(h), Begin(Body)) =>
      if h.flags.chunked || h.contentLength == 0 then None
      else Some(if h.contentLength == ULLONG_MAX then Endless else Counted(h.contentLength))
    case (Counted(n), Begin(Body)) => Some(ph)
    case (Counted(n), Byte(Body, _)) => if n > 0 then Some(Counted(n - 1)) else None
    case (Counted(n), End(Body)) => if n == 0 then Some(ph) else None
    case (Counted(n), Note(MessageComplete)) => if n == 0 then Some(Idle) else None
    case (Endless, Begin(Body)) => Some(ph)
    case (Endless, Byte(Body, _)) => Some(ph)
    case (Between, Note(ChunkHeader(n))) => Some(ChunkPhase(n))
    case (Chunk(n), Begin(Body)) => Some(ph)
    case (Chunk(n), Byte(Body, _)) => if n > 0 then Some(Chunk(n - 1)) else None
    case (Chunk(n), End(Body)) => if n == 0 then Some(ph) else None
    case (Chunk(n), Note(ChunkComplete)) => if n == 0 then Some(Between) else None
    case (Trailer, Begin(Field)) => Some(Name(true))
    case (Trailer, Note(ChunkComplete)) => Some(Finished)
    case (Finished, Note(MessageComplete)) => Some(Idle)
    case _ => None
  }

  function ChunkPhase(n: nat): Phase { if n == 0 then Trailer else Chunk(n) }

  function Watch(ph: Phase, items: seq<Item>): Option<Phase>
    decreases |items|
  {
    if items == [] then Some(ph)
    else match Observe(ph, items[0]) case Some(next) => Watch(next, items[1..]) case None => None
  }

  // ---- what the observer believes in each state ----------------------------------------------

  predicate HeadPhase(p: Parser, ph: Phase) {
    if p.flags.trailing then ph == Trailer || ph == Valued(true) else ph == LineDone || ph == Valued(false)
  }

  predicate HeaderPhase(p: Parser, ph: Phase) {
    match p.state
    case HeaderFieldStart => HeadPhase(p, ph)
    case HeadersAlmostDone => HeadPhase(p, ph)
    case HeaderField => ph == Name(p.flags.trailing)
    case HeaderValueDiscardWs => ph == Named(p.flags.trailing)
    case HeaderValueDiscardWsAlmostDone => ph == Named(p.flags.trailing)
    case HeaderValueDiscardLws => ph == Named(p.flags.trailing)
    case HeaderValue => ph == Val(p.flags.trailing)
    case HeaderAlmostDone => ph == Valued(p.flags.trailing)
    case HeaderValueLws => ph == Valued(p.flags.trailing)
    case _ => false
  }

  predicate ChunkLinePhase(p: Parser, ph: Phase) {
    if p.state == ChunkDataAlmostDone || p.state == ChunkDataDone then ph == Chunk(0)
    else ph == Between || (ph.After? && ph.head.flags.chunked)
  }

  predicate BodyBytePhase(p: Parser, ph: Phase) {
    if p.state == ChunkData then ph == Chunk(p.contentLength)
    else if p.state == BodyIdentity then
      ph == Counted(p.contentLength)
      || (ph.After? && !ph.head.flags.chunked && ph.head.contentLength == p.contentLength)
    else ph == Endless || (ph.After? && !ph.head.flags.chunked && ph.head.contentLength == ULLONG_MAX)
  }

  function LinePhase(s: State): Phase {
    if IsUrlState(s) then Target(Url)
    else if s == ResStatus then Target(Status)
    else if s == ResLineAlmostDone || (IsRequestLineState(s) && s != ReqMethod) then LineDone
    else Line
  }

  predicate Believed(p: Parser, ph: Phase) {
    if IsStartState(p.state) && p.state != ResOrRespH then ph == Idle
    else if IsChunkLineState(p.state) then ChunkLinePhase(p, ph)
    else if IsBodyByteState(p.state) then BodyBytePhase(p, ph)
    else if IsHeaderLineState(p.state) then HeaderPhase(p, ph)
    else p.state != MessageDone && !p.flags.trailing && ph == LinePhase(p.state)
  }

  lemma BelieveIdle(q: Parser)
    requires IsStartState(q.state) && q.state != ResOrRespH
    ensures forall ph :: Believed(q, ph) <==> ph == Idle
  {}

  lemma BelieveLine(q: Parser)
    requires q.state == ResOrRespH || IsStatusLineState(q.state) || IsRequestLineState(q.state)
             || q.state == ReqSpacesBeforeUrl || IsUrlState(q.state)
    ensures forall ph :: Believed(q, ph) <==> !q.flags.trailing && ph == LinePhase(q.state)
  {
    hide LinePhase;
    if IsStatusLineState(q.state) {
    } else if IsRequestLineState(q.state) {
    } else if IsUrlState(q.state) {
    }
  }

  lemma BelieveHeader(q: Parser)
    requires IsHeaderLineState(q.state)
    ensures forall ph :: Believed(q, ph) <==> HeaderPhase(q, ph)
  {}

  lemma BelieveChunkLine(q: Parser)
    requires IsChunkLineState(q.state)
    ensures forall ph :: Believed(q, ph) <==> ChunkLinePhase(q, ph)
  {}

  lemma BelieveBody(q: Parser)
    requires IsBodyByteState(q.state)
    ensures forall ph :: Believed(q, ph) <==> BodyBytePhase(q, ph)
  {}

  predicate Expected(ph: Phase, o: Outcome) {
    o.Fail? || (Watch(ph, o.items).Some? && Believed(o.p, Watch(ph, o.items).value))
  }

  // ---- following lists of items ---------------------------------------------------------------

  lemma WatchOne(ph: Phase, a: Item)
    ensures Watch(ph, [a]) == Observe(ph, a)
  {
    assert [a][1..] == [];
  }

  lemma WatchTwo(ph: Phase, a: Item, b: Item)
    ensures Watch(ph, [a, b]) == if Observe(ph, a).Some? then Observe(Observe(ph, a).value, b) else None
  {
    assert [a, b][1..] == [b];
    if Observe(ph, a).Some? { WatchOne(Observe(ph, a).value, b); }
  }

  lemma {:induction false} WatchAppend(ph: Phase, a: seq<Item>, b: seq<Item>)
    ensures Watch(ph, a + b) == if Watch(ph, a).Some? then Watch(Watch(ph, a).value, b) else None
    decreases |a|
  {
    hide Observe;
    if a == [] {
      assert a + b == b;
    } else {
      assert (a + b)[0] == a[0] && (a + b)[1..] == a[1..] + b;
      if Observe(ph, a[0]).Some? { WatchAppend(Observe(ph, a[0]).value, a[1..], b); }
    }
  }

  lemma PrependExpected(ph: Phase, items: seq<Item>, o: Outcome)
    requires Watch(ph, items).Some? && Expected(Watch(ph, items).value, o)
    ensures Expected(ph, Prepend(items, o))
  {
    hide Watch, Believed;
    if !o.Fail? { WatchAppend(ph, items, o.items); }
  }

  /** A step without items. */
  lemma Silent(ph: Phase, q: Parser)
    requires Believed(q, ph)
    ensures Expected(ph, Go(q, []))
  {
    hide Believed;
  }

  lemma Single(ph: Phase, q: Parser, a: Item)
    requires Observe(ph, a).Some? && Believed(q, Observe(ph, a).value)
    ensures Expected(ph, Go(q, [a])) && Expected(ph, Stop(q, [a]))
  {
    hide Believed, Observe;
    WatchOne(ph, a);
  }

  lemma Double(ph: Phase, q: Parser, a: Item, b: Item)
    requires Observe(ph, a).Some? && Observe(Observe(ph, a).value, b).Some?
    requires Believed(q, Observe(Observe(ph, a).value, b).value)
    ensures Expected(ph, Go(q, [a, b]))
  {
    hide Believed, Observe;
    WatchTwo(ph, a, b);
  }

  lemma Refused(ph: Phase, e: Errno)
    ensures Expected(ph, Fail(e))
  {}

  // ---- every step is expected --------------------------------------------------------------------

  lemma IdleAgain(p: Parser)
    ensures Believed(NewMessage(p), Idle)
  {
    hide ShouldKeepAlive;
    BelieveIdle(NewMessage(p));
  }

  lemma MessageDoneExpected(ph: Phase, p: Parser)
    requires Observe(ph, Note(MessageComplete)) == Some(Idle)
    ensures Expected(ph, OnMessageDone(p))
  {
    hide Expected, Observe, Believed;
    IdleAgain(p);
    Single(ph, NewMessage(p), Note(MessageComplete));
  }

  lemma HeadersDoneExpected(p: Parser, ch: char)
    ensures Expected(After(HeadOf(p)), OnHeadersDone(p, ch))
  {
    hide Expected, Believed;
    var q := p.(nread := 0);
    var ph := After(HeadOf(p));
    var hasBody := p.flags.chunked || (p.contentLength > 0 && p.contentLength != ULLONG_MAX);
    IdleAgain(q);
    if ch != LF {
      Refused(ph, Strict);
    } else if p.upgrade && (p.meth == CONNECT || !hasBody) {
      Single(ph, NewMessage(q), Note(MessageComplete));
    } else if p.flags.chunked {
      AfterHead(ph, q.(state := ChunkSizeStart));
    } else if p.contentLength == 0 {
      Single(ph, NewMessage(q), Note(MessageComplete));
    } else if p.contentLength != ULLONG_MAX {
      AfterHead(ph, q.(state := BodyIdentity));
    } else if !NeedsEof(q) {
      Single(ph, NewMessage(q), Note(MessageComplete));
    } else {
      AfterHead(ph, q.(state := BodyIdentityEof));
    }
  }

  lemma AfterHead(ph: Phase, q: Parser)
    requires ph.After?
    requires || (q.state == ChunkSizeStart && ph.head.flags.chunked)
             || (q.state == BodyIdentity && !ph.head.flags.chunked && ph.head.contentLength == q.contentLength)
             || (q.state == BodyIdentityEof && !ph.head.flags.chunked && ph.head.contentLength == ULLONG_MAX)
    ensures Expected(ph, Go(q, []))
  {
    hide Believed, Expected;
    if q.state == ChunkSizeStart { BelieveChunkLine(q); } else { BelieveBody(q); }
    Silent(ph, q);
  }

  lemma HeadersAlmostDoneExpected(ph: Phase, p: Parser, ch: char)
    requires HeadPhase(p, ph)
    ensures Expected(ph, OnHeadersAlmostDone(p, ch))
  {
    hide Expected, Watch, OnHeadersDone, OnMessageDone;
    if ch != LF {
      Refused(ph, Strict);
    } else if p.flags.trailing {
      WatchOne(ph, Note(ChunkComplete));
      MessageDoneExpected(Finished, p);
      PrependExpected(ph, [Note(ChunkComplete)], OnMessageDone(p));
    } else if p.flags.chunked && p.flags.contentLength {
      Refused(ph, UnexpectedContentLength);
    } else {
      var up := if p.flags.upgrade && p.flags.connUpgrade then p.ptype == Request || p.statusCode == 101
                else p.meth == CONNECT;
      var q := p.(state := HeadersDone, upgrade := up);
      var note := Note(HeadersComplete(HeadOf(q)));
      WatchOne(ph, note);
      HeadersDoneExpected(q, ch);
      PrependExpected(ph, [note], OnHeadersDone(q, ch));
    }
  }

  lemma HeaderFieldStartExpected(ph: Phase, p: Parser, ch: char)
    requires HeadPhase(p, ph)
    ensures Expected(ph, OnHeaderFieldStart(p, ch))
  {
    hide Expected, OnHeadersAlmostDone, Token, Believed, FirstOfName;
    if ch == CR {
      BelieveHeader(p.(state := HeadersAlmostDone));
      Silent(ph, p.(state := HeadersAlmostDone));
    } else if ch == LF {
      HeadersAlmostDoneExpected(ph, p, ch);
    } else if Token(ch) == '\0' {
      Refused(ph, InvalidHeaderToken);
    } else {
      var q := p.(state := HeaderField, index := 0, hs := FirstOfName(Token(ch)));
      BelieveHeader(q);
      Double(ph, q, Begin(Field), Byte(Field, ch));
    }
  }

  lemma ValueStartExpected(ph: Phase, p: Parser, ch: char)
    requires ph == Named(p.flags.trailing) || ph == Valued(p.flags.trailing)
    ensures Expected(ph, OnValueStart(p, ch))
  {
    ValueStartShape(p, ch);
    ValueStartFlags(p, ch);
    hide Expected, OnValueStart, Believed;
    var o := OnValueStart(p, ch);
    if o.Go? {
      BelieveHeader(o.p);
      Double(ph, o.p, Begin(Value), Byte(Value, ch));
    } else {
      Refused(ph, o.err);
    }
  }

  lemma ValueStartFlags(p: Parser, ch: char)
    ensures OnValueStart(p, ch).Go? ==> OnValueStart(p, ch).p.flags.trailing == p.flags.trailing
  {
    hide Lower;
  }

  /** An empty value, and then what the line behind it brings. */
  lemma EmptyValueThen(ph: Phase, trailing: bool, o: Outcome)
    requires ph == Named(trailing) && Expected(Valued(trailing), o)
    ensures Expected(ph, Prepend([Begin(Value), End(Value)], o))
  {
    hide Expected, Watch, Believed;
    WatchTwo(ph, Begin(Value), End(Value));
    PrependExpected(ph, [Begin(Value), End(Value)], o);
  }

  lemma FlagKeepsTrailing(f: Flags, hs: HeaderState)
    ensures SetFlag(f, hs).trailing == f.trailing
  {}

  lemma DiscardLwsExpected(ph: Phase, p: Parser, ch: char)
    requires ph == Named(p.flags.trailing)
    ensures Expected(ph, OnDiscardLws(p, ch))
  {
    hide Expected, OnHeaderFieldStart, Watch, Believed, SetFlag, Observe, Prepend;
    if ch == ' ' || ch == '\t' {
      BelieveHeader(p.(state := HeaderValueDiscardWs));
      Silent(ph, p.(state := HeaderValueDiscardWs));
    } else if p.hs == ContentLength {
      Refused(ph, InvalidContentLength);
    } else {
      var q := p.(flags := SetFlag(p.flags, p.hs));
      FlagKeepsTrailing(p.flags, p.hs);
      HeaderFieldStartExpected(Valued(p.flags.trailing), q, ch);
      EmptyValueThen(ph, p.flags.trailing, OnHeaderFieldStart(q, ch));
    }
  }

  lemma DiscardWsExpected(ph: Phase, p: Parser, ch: char)
    requires p.state == HeaderValueDiscardWs && ph == Named(p.flags.trailing)
    ensures Expected(ph, OnDiscardWs(p, ch))
  {
    hide Expected, OnValueStart, Believed;
    if ch == ' ' || ch == '\t' {
      BelieveHeader(p);
      Silent(ph, p);
    } else if ch == CR {
      LineFeedExpected(ph, p, HeaderValueDiscardWsAlmostDone);
    } else if ch == LF {
      LineFeedExpected(ph, p, HeaderValueDiscardLws);
    } else {
      ValueStartExpected(ph, p, ch);
    }
  }

  lemma HeaderFieldExpected(ph: Phase, p: Parser, ch: char)
    requires p.state == HeaderField && ph == Name(p.flags.trailing)
    ensures Expected(ph, OnHeaderField(p, ch))
  {
    hide Believed;
    HeaderFieldShape(p, ch);
    HeaderFieldFlags(p, ch);
    hide Expected, OnHeaderField;
    var o := OnHeaderField(p, ch);
    if o.Go? { BelieveHeader(o.p); }
    if o.Fail? {
      Refused(ph, o.err);
    } else if o.items == [End(Field)] {
      Single(ph, o.p, End(Field));
    } else {
      Single(ph, o.p, Byte(Field, ch));
    }
  }

  lemma HeaderFieldFlags(p: Parser, ch: char)
    ensures OnHeaderField(p, ch).Go? ==> OnHeaderField(p, ch).p.flags == p.flags
  {
    hide NameByte, Token;
  }

  lemma HeaderValueOutcome(p: Parser, ch: char)
    ensures var o := OnHeaderValue(p, ch);
            || o.Fail?
            || (o.Go? && o.items == [End(Value)] && (o.p.state == HeaderAlmostDone || o.p.state == HeaderValueLws)
                && o.p.flags.trailing == p.flags.trailing)
            || (o.Go? && o.items == [Byte(Value, ch)] && o.p.state == p.state && o.p.flags.trailing == p.flags.trailing)
  {
    MatcherKeepsTrailing(MatcherOf(p), ch);
    hide ValueByte, IsHeaderChar;
  }

  lemma HeaderValueExpected(ph: Phase, p: Parser, ch: char)
    requires p.state == HeaderValue && ph == Val(p.flags.trailing)
    ensures Expected(ph, OnHeaderValue(p, ch))
  {
    hide Believed;
    HeaderValueOutcome(p, ch);
    hide Expected, OnHeaderValue;
    var o := OnHeaderValue(p, ch);
    if o.Go? { BelieveHeader(o.p); }
    if o.Fail? {
      Refused(ph, o.err);
    } else if o.items == [End(Value)] {
      Single(ph, o.p, End(Value));
    } else {
      Single(ph, o.p, Byte(Value, ch));
    }
  }

  lemma MatcherKeepsTrailing(m: Matcher, ch: char)
    requires m.Matcher?
    ensures ValueByte(m, ch).Matcher? ==> ValueByte(m, ch).flags.trailing == m.flags.trailing
  {
    hide Lower, IsToken;
  }

  lemma ValueLwsExpected(ph: Phase, p: Parser, ch: char)
    requires ph == Valued(p.flags.trailing)
    ensures Expected(ph, OnValueLws(p, ch))
  {
    hide Expected, OnHeaderFieldStart, OnValueStart;
    HeaderFieldStartExpected(ph, p.(flags := SetFlag(p.flags, p.hs)), ch);
    ValueStartExpected(ph, if p.hs == ContentLengthNum then p.(hs := ContentLengthWs) else p, ch);
  }

  lemma HeaderLineExpected(ph: Phase, p: Parser, ch: char)
    requires Believed(p, ph) && IsHeaderLineState(p.state)
    ensures Expected(ph, OnHeaderLine(p, ch))
  {
    hide Believed;
    BelieveHeader(p);
    hide Expected, OnHeaderFieldStart, OnHeaderField, OnDiscardWs, OnDiscardLws, OnValueStart, OnHeaderValue, OnValueLws,
         OnHeadersAlmostDone, OnHeadersDone;
    match p.state
    case HeaderFieldStart => HeaderFieldStartExpected(ph, p, ch);
    case HeaderField => HeaderFieldExpected(ph, p, ch);
    case HeaderValueDiscardWs => DiscardWsExpected(ph, p, ch);
    case HeaderValueDiscardWsAlmostDone => LineFeedExpected(ph, p, HeaderValueDiscardLws);
    case HeaderValueDiscardLws => DiscardLwsExpected(ph, p, ch);
    case HeaderValue => HeaderValueExpected(ph, p, ch);
    case HeaderAlmostDone => LineFeedExpected(ph, p, HeaderValueLws);
    case HeaderValueLws => ValueLwsExpected(ph, p, ch);
    case HeadersAlmostDone => HeadersAlmostDoneExpected(ph, p, ch);
    case _ =>
  }

  lemma LineFeedExpected(ph: Phase, p: Parser, after: State)
    requires || ((after == HeaderValueDiscardLws || after == HeaderValueDiscardWsAlmostDone) && ph == Named(p.flags.trailing))
             || (after == HeaderValueLws && ph == Valued(p.flags.trailing))
    ensures Expected(ph, Go(p.(state := after), [])) && Expected(ph, Fail(Strict)) && Expected(ph, Fail(LfExpected))
  {
    hide Believed;
    BelieveHeader(p.(state := after));
    Silent(ph, p.(state := after));
  }

  lemma StartExpected(ph: Phase, p: Parser, ch: char)
    requires Believed(p, ph) && IsStartState(p.state)
    ensures Expected(ph, OnStart(p, ch))
  {
    hide Believed, Expected, OnStart;
    if p.state == ResOrRespH { BelieveLine(p); } else { BelieveIdle(p); }
    StartOutcome(p, ch);
    var o := OnStart(p, ch);
    if o.Fail? {
      Refused(ph, o.err);
    } else if o.items == [] {
      Silent(ph, o.p);
    } else {
      Single(ph, o.p, Note(MessageBegin));
    }
  }

  lemma StartOutcome(p: Parser, ch: char)
    requires IsStartState(p.state) && (p.state == ResOrRespH ==> !p.flags.trailing)
    ensures var o := OnStart(p, ch);
            || o.Fail?
            || (o.Go? && o.items == [] && p.state != ResOrRespH && o.p == p)
            || (o.Go? && o.items == [] && p.state == ResOrRespH && Believed(o.p, Line))
            || (o.Go? && o.items == [Note(MessageBegin)] && p.state != ResOrRespH && Believed(o.p, Line))
  {
    hide FirstMethod, Believed;
    var o := OnStart(p, ch);
    if o.Go? && (p.state == ResOrRespH || o.items != []) { BelieveLine(o.p); }
  }

  lemma StatusExpected(p: Parser, ch: char)
    requires !p.flags.trailing
    ensures Expected(Target(Status), OnStatus(p, ch))
  {
    hide Expected, Believed;
    var o := OnStatus(p, ch);
    if ch == CR {
      BelieveLine(o.p);
      Single(Target(Status), o.p, End(Status));
    } else if ch == LF {
      BelieveHeader(o.p);
      Single(Target(Status), o.p, End(Status));
    } else {
      BelieveLine(o.p);
      Single(Target(Status), o.p, Byte(Status, ch));
    }
  }

  lemma StatusStartExpected(p: Parser, ch: char)
    requires !p.flags.trailing
    ensures Expected(Line, OnStatusStart(p, ch))
  {
    hide Expected, OnStatus, Watch;
    WatchOne(Line, Begin(Status));
    StatusExpected(p.(index := 0), ch);
    PrependExpected(Line, [Begin(Status)], OnStatus(p.(index := 0), ch));
  }

  lemma StatusLineExpected(ph: Phase, p: Parser, ch: char)
    requires Believed(p, ph) && IsStatusLineState(p.state)
    ensures Expected(ph, OnStatusLine(p, ch))
  {
    hide Believed, Expected, OnResVersion, OnStatusCode, OnStatusStart, OnStatus;
    BelieveLine(p);
    if IsResVersionState(p.state) {
      ResVersionExpected(p, ch);
    } else if p.state == ResStatus {
      StatusExpected(p, ch);
    } else if p.state == ResStatusStart {
      StatusStartExpected(p, ch);
    } else if p.state == ResLineAlmostDone {
      BelieveHeader(p.(state := HeaderFieldStart));
      Refused(ph, Strict);
      Silent(ph, p.(state := HeaderFieldStart));
    } else {
      StatusCodeExpected(p, ch);
    }
  }

  lemma ResVersionExpected(p: Parser, ch: char)
    requires !p.flags.trailing && IsResVersionState(p.state)
    ensures Expected(Line, OnResVersion(p, ch))
  {
    QuietResVersion(p, ch);
    ResVersionFlags(p, ch);
    hide Expected, OnResVersion, Believed;
    var o := OnResVersion(p, ch);
    if o.Go? {
      BelieveLine(o.p);
      Silent(Line, o.p);
    } else {
      Refused(Line, o.err);
    }
  }

  lemma ResVersionFlags(p: Parser, ch: char)
    ensures OnResVersion(p, ch).Go? ==> OnResVersion(p, ch).p.flags == p.flags
  {}

  lemma StatusCodeExpected(p: Parser, ch: char)
    requires !p.flags.trailing && (p.state == ResFirstStatusCode || p.state == ResStatusCode)
    ensures Expected(Line, OnStatusCode(p, ch))
  {
    hide Expected, OnStatusStart, Believed;
    var o := OnStatusCode(p, ch);
    if p.state == ResStatusCode && (ch == CR || ch == LF) {
      StatusStartExpected(p, ch);
    } else if o.Fail? {
      Refused(Line, o.err);
    } else {
      BelieveLine(o.p);
      Silent(Line, o.p);
    }
  }

  lemma RequestLineExpected(ph: Phase, p: Parser, ch: char)
    requires Believed(p, ph) && IsRequestLineState(p.state)
    ensures Expected(ph, OnRequestLine(p, ch))
  {
    hide Expected, OnMethod, OnHttpVersion, Believed;
    BelieveLine(p);
    if p.state == ReqMethod { MethodExpected(p, ch); } else { VersionExpected(p, ch); }
  }

  lemma MethodExpected(p: Parser, ch: char)
    requires p.state == ReqMethod && !p.flags.trailing
    ensures Expected(Line, OnMethod(p, ch))
  {
    QuietMethod(p, ch);
    MethodFlags(p, ch);
    hide Expected, OnMethod, Believed;
    var o := OnMethod(p, ch);
    if o.Go? {
      BelieveLine(o.p);
      Silent(Line, o.p);
    } else {
      Refused(Line, o.err);
    }
  }

  lemma VersionExpected(p: Parser, ch: char)
    requires IsRequestLineState(p.state) && p.state != ReqMethod && !p.flags.trailing
    ensures Expected(LineDone, OnHttpVersion(p, ch))
  {
    hide Expected, OnHttpVersion, Believed, LinePhase;
    QuietHttpVersion(p, ch);
    VersionFlags(p, ch);
    var o := OnHttpVersion(p, ch);
    if o.Fail? {
      Refused(LineDone, o.err);
    } else {
      VersionBelieved(o.p);
      hide IsRequestLineState;
      Silent(LineDone, o.p);
    }
  }

  lemma VersionBelieved(q: Parser)
    requires !q.flags.trailing && (q.state == HeaderFieldStart || (IsRequestLineState(q.state) && q.state != ReqMethod))
    ensures Believed(q, LineDone)
  {
    hide Believed, LinePhase;
    if q.state == HeaderFieldStart {
      BelieveHeader(q);
    } else {
      VersionPhase(q.state);
      BelieveLine(q);
    }
  }

  lemma MethodFlags(p: Parser, ch: char)
    ensures OnMethod(p, ch).Go? ==> OnMethod(p, ch).p.flags == p.flags
  {
    hide Rematch, MethodName, IsUpper;
  }

  lemma VersionFlags(p: Parser, ch: char)
    requires IsRequestLineState(p.state) && p.state != ReqMethod
    ensures OnHttpVersion(p, ch).Go? ==> OnHttpVersion(p, ch).p.flags == p.flags && OnHttpVersion(p, ch).p.state != ReqMethod
  {}

  lemma VersionPhase(s: State)
    requires IsRequestLineState(s) && s != ReqMethod
    ensures LinePhase(s) == LineDone
  {}

  lemma UrlExpected(ph: Phase, p: Parser, ch: char)
    requires Believed(p, ph) && (p.state == ReqSpacesBeforeUrl || IsUrlState(p.state))
    ensures Expected(ph, OnUrl(p, ch))
  {
    hide Expected, UrlByte, Believed;
    BelieveLine(p);
    if p.state == ReqSpacesBeforeUrl {
      Silent(ph, p);
      UrlByteExpected(Line, p, if p.meth == CONNECT then ReqServerStart else p.state, ch, [Begin(Url)]);
    } else {
      UrlByteExpected(ph, p, p.state, ch, []);
      UrlEndExpected(p, ch);
    }
  }

  lemma UrlEndExpected(p: Parser, ch: char)
    requires !p.flags.trailing
    ensures Expected(Target(Url), Go(p.(state := ReqHttpStart), [End(Url)]))
    ensures Expected(Target(Url), Go(p.(major := 0, minor := 9, state := ReqLineAlmostDone), [End(Url)]))
    ensures Expected(Target(Url), Go(p.(major := 0, minor := 9, state := HeaderFieldStart), [End(Url)]))
  {
    hide Expected;
    UrlEndsAt(p.(state := ReqHttpStart));
    UrlEndsAt(p.(major := 0, minor := 9, state := ReqLineAlmostDone));
    UrlEndsAt(p.(major := 0, minor := 9, state := HeaderFieldStart));
  }

  lemma UrlEndsAt(q: Parser)
    requires !q.flags.trailing && (q.state == ReqHttpStart || q.state == ReqLineAlmostDone || q.state == HeaderFieldStart)
    ensures Expected(Target(Url), Go(q, [End(Url)]))
  {
    hide Expected, Believed;
    if q.state == HeaderFieldStart { BelieveHeader(q); } else { BelieveLine(q); }
    Single(Target(Url), q, End(Url));
  }

  lemma UrlByteExpected(ph: Phase, p: Parser, from: State, ch: char, items: seq<Item>)
    requires !p.flags.trailing
    requires (items == [] && ph == Target(Url)) || (items == [Begin(Url)] && ph == Line)
    ensures Expected(ph, UrlByte(p, from, ch, items))
  {
    UrlCharStaysInUrl(from, ch);
    hide Expected, ParseUrlChar, Believed;
    var s := ParseUrlChar(from, ch);
    if s == Dead {
      Refused(ph, InvalidUrl);
    } else {
      BelieveLine(p.(state := s));
      if items == [] {
        assert items + [Byte(Url, ch)] == [Byte(Url, ch)];
        Single(ph, p.(state := s), Byte(Url, ch));
      } else {
        assert items + [Byte(Url, ch)] == [Begin(Url), Byte(Url, ch)];
        Double(ph, p.(state := s), Begin(Url), Byte(Url, ch));
      }
    }
  }

  /** The phase that a chunk's lines lead to. */
  function PhaseBehindLine(p: Parser, ph: Phase): Phase {
    if p.state == ChunkSizeAlmostDone then ChunkPhase(p.contentLength)
    else if p.state == ChunkDataAlmostDone then Chunk(0)
    else if p.state == ChunkDataDone then Between
    else ph
  }

  lemma ChunkBelieved(ph: Phase, p: Parser, ch: char)
    requires ChunkLinePhase(p, ph) && IsChunkLineState(p.state) && OnChunk(p, ch).Go?
    ensures Believed(OnChunk(p, ch).p, PhaseBehindLine(p, ph))
  {
    hide Unhex, Believed;
    var q := OnChunk(p, ch).p;
    if p.state == ChunkSizeAlmostDone {
      if p.contentLength == 0 { BelieveHeader(q); } else { BelieveBody(q); }
    } else {
      BelieveChunkLine(q);
    }
  }

  lemma ChunkExpected(ph: Phase, p: Parser, ch: char)
    requires Believed(p, ph) && IsChunkLineState(p.state)
    ensures Expected(ph, OnChunk(p, ch))
  {
    hide Expected, OnChunk, Believed;
    ChunkShape(p, ch);
    BelieveChunkLine(p);
    if OnChunk(p, ch).Go? { ChunkBelieved(ph, p, ch); }
    var o := OnChunk(p, ch);
    if o.Fail? {
      Refused(ph, o.err);
    } else if p.state == ChunkSizeAlmostDone {
      Single(ph, o.p, Note(ChunkHeader(p.contentLength)));
    } else if p.state == ChunkDataAlmostDone {
      Single(ph, o.p, End(Body));
    } else if p.state == ChunkDataDone {
      Single(ph, o.p, Note(ChunkComplete));
    } else {
      Silent(ph, o.p);
    }
  }

  lemma BodyExpected(ph: Phase, p: Parser, ch: char)
    requires Believed(p, ph) && IsBodyByteState(p.state) && Inv(p)
    ensures Expected(ph, OnBody(p, ch))
  {
    if p.state == BodyIdentity && p.contentLength == 1 {
      LastBodyByteExpected(ph, p, ch);
    } else {
      MoreBodyExpected(ph, p, ch);
    }
  }

  lemma LastBodyByteExpected(ph: Phase, p: Parser, ch: char)
    requires Believed(p, ph) && p.state == BodyIdentity && p.contentLength == 1
    ensures Expected(ph, OnBody(p, ch))
  {
    BodyPhase(ph, p, ch);
    hide Expected, Watch, OnMessageDone, Believed;
    var items := [Begin(Body), Byte(Body, ch)];
    var q := p.(contentLength := 0);
    WatchTwo(ph, Begin(Body), Byte(Body, ch));
    WatchOne(Counted(0), End(Body));
    WatchAppend(ph, items, [End(Body)]);
    MessageDoneExpected(Counted(0), q);
    hide Observe;
    PrependExpected(ph, items + [End(Body)], OnMessageDone(q));
  }

  lemma MoreBodyExpected(ph: Phase, p: Parser, ch: char)
    requires Believed(p, ph) && IsBodyByteState(p.state) && Inv(p)
    requires !(p.state == BodyIdentity && p.contentLength == 1)
    ensures Expected(ph, OnBody(p, ch))
  {
    BodyPhase(ph, p, ch);
    hide Expected, Believed, Observe;
    Double(ph, OnBody(p, ch).p, Begin(Body), Byte(Body, ch));
  }

  /** Where the observer is after one more body byte. */
  lemma BodyPhase(ph: Phase, p: Parser, ch: char)
    requires Believed(p, ph) && IsBodyByteState(p.state) && (Inv(p) || (p.state == BodyIdentity && p.contentLength == 1))
    ensures Observe(ph, Begin(Body)).Some?
    ensures Observe(Observe(ph, Begin(Body)).value, Byte(Body, ch)).Some?
    ensures p.state == BodyIdentity ==>
              Observe(Observe(ph, Begin(Body)).value, Byte(Body, ch)).value == Counted(p.contentLength - 1)
    ensures !(p.state == BodyIdentity && p.contentLength == 1) ==>
              && OnBody(p, ch).Go? && OnBody(p, ch).items == [Begin(Body), Byte(Body, ch)]
              && Believed(OnBody(p, ch).p, Observe(Observe(ph, Begin(Body)).value, Byte(Body, ch)).value)
  {
    hide Believed;
    BelieveBody(p);
    if !(p.state == BodyIdentity && p.contentLength == 1) {
      var q := OnBody(p, ch).p;
      if q.state == ChunkDataAlmostDone { BelieveChunkLine(q); } else { BelieveBody(q); }
    }
  }

  lemma StaysBelieved(ph: Phase, p: Parser)
    requires Believed(p, ph) && InHeader(p.state)
    ensures Believed(p.(nread := p.nread + 1), ph)
  {}

  /** One byte from a reachable state never surprises the observer. */
  lemma StepExpected(ph: Phase, p: Parser, ch: char)
    requires Inv(p) && Believed(p, ph)
    ensures Expected(ph, Step(p, ch))
  {
    hide Believed;
    hide Expected, OnHeaderLine, OnStart, OnRequestLine, OnUrl, OnStatusLine, OnBody, OnChunk;
    var q := if InHeader(p.state) then p.(nread := p.nread + 1) else p;
    Refused(ph, HeaderOverflow);
    if InHeader(p.state) { StaysBelieved(ph, p); }
    if IsStartState(p.state) {
      StartExpected(ph, q, ch);
    } else if IsStatusLineState(p.state) {
      StatusLineExpected(ph, q, ch);
    } else if IsRequestLineState(p.state) {
      RequestLineExpected(ph, q, ch);
    } else if p.state == ReqSpacesBeforeUrl || IsUrlState(p.state) {
      UrlExpected(ph, q, ch);
    } else if IsHeaderLineState(p.state) {
      HeaderLineExpected(ph, q, ch);
    } else if IsChunkLineState(p.state) {
      ChunkExpected(ph, q, ch);
    } else if IsBodyByteState(p.state) {
      BodyExpected(ph, q, ch);
    } else {
      NotMessageDone(ph, p);
    }
  }

  lemma NotMessageDone(ph: Phase, p: Parser)
    requires Believed(p, ph)
    ensures p.state != MessageDone
  {}

  /** Callback order and body accounting, for every input from every reachable state. */
  lemma {:induction false} RunExpected(ph: Phase, p: Parser, s: string)
    requires Inv(p) && Believed(p, ph)
    ensures var t := Run(p, s);
            && Watch(ph, t.items).Some?
            && (t.status == Running || t.status == Stopped ==> Believed(t.p, Watch(ph, t.items).value))
  {
    if s == "" {
    } else {
      hide Step, Watch, Believed, Inv;
      var t := Run(p, s[..|s| - 1]);
      RunExpected(ph, p, s[..|s| - 1]);
      NoAssertFires(p, s[..|s| - 1]);
      if t.status == Running {
        var mid := Watch(ph, t.items).value;
        StepExpected(mid, t.p, s[|s| - 1]);
        var o := Step(t.p, s[|s| - 1]);
        if !o.Fail? { WatchAppend(ph, t.items, o.items); }
      }
    }
  }

  /** From a fresh parser of any type the observer starts out idle. */
  lemma InitExpected(t: ParserType, limit: nat, s: string)
    ensures Watch(Idle, Run(Init(t, limit), s).items).Some?
  {
    InitInv(t, limit);
    RunExpected(Idle, Init(t, limit), s);
  }

  // ---- consequences ------------------------------------------------------------------------------------

  function Count(items: seq<Item>, f: Item -> bool): nat {
    if items == [] then 0 else (if f(items[0]) then 1 else 0) + Count(items[1..], f)
  }

  const BEGUN: Item -> bool := (item: Item) => item == Note(MessageBegin)
  const COMPLETED: Item -> bool := (item: Item) => item == Note(MessageComplete)

  /** Messages begin and complete in turn: exactly one completion per message, and at most one
      message open at any time. */
  lemma {:induction false} BeginsAndCompletesAlternate(ph: Phase, items: seq<Item>)
    requires Watch(ph, items).Some?
    ensures Count(items, BEGUN) + (if ph == Idle then 0 else 1)
         == Count(items, COMPLETED) + (if Watch(ph, items).value == Idle then 0 else 1)
    decreases |items|
  {
    if items != [] {
      BeginsAndCompletesAlternate(Observe(ph, items[0]).value, items[1..]);
    }
  }

  function BodyBytes(items: seq<Item>): string {
    if items == [] then "" else (if items[0].Byte? && items[0].kind == Body then [items[0].b] else "") + BodyBytes(items[1..])
  }

  /** From the end of the headers of a counted message to its completion, the body callbacks
      carry exactly Content-Length bytes (section 4.4 of RFC 2616). */
  lemma {:induction false} CountedBodyIsExact(ph: Phase, items: seq<Item>, n: nat)
    requires ph == Counted(n) || (ph.After? && !ph.head.flags.chunked && ph.head.contentLength == n < ULLONG_MAX && !NoBody(ph.head))
    requires Watch(ph, items).Some? && forall i | 0 <= i < |items| :: items[i] != Note(MessageComplete)
    ensures |BodyBytes(items)| <= n && Watch(ph, items + [Note(MessageComplete)]).Some? == (|BodyBytes(items)| == n)
    decreases |items|
  {
    if items == [] {
      assert items + [Note(MessageComplete)] == [Note(MessageComplete)];
      WatchOne(ph, Note(MessageComplete));
    } else {
      var rest := items[1..];
      assert (items + [Note(MessageComplete)])[1..] == rest + [Note(MessageComplete)];
      var next := Observe(ph, items[0]).value;
      CountedBodyIsExact(next, rest, next.left);
    }
  }
}
