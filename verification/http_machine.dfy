/** The HTTP parser as a pure machine that eats one byte at a time. */
module HttpMachine {
  import opened Options
  import opened HttpTypes

  datatype Kind = Url | Status | Field | Value | Body
  /** What a notify callback can see of the parser: the head of the message, the size of the chunk. */
  datatype Head = Head(major: nat, minor: nat, statusCode: nat, meth: Method, upgrade: bool, flags: Flags, contentLength: nat)
  datatype Notice =
    | MessageBegin | HeadersComplete(head: Head) | MessageComplete | ChunkHeader(size: nat) | ChunkComplete

  /** What one byte makes the parser do, in order: set a mark, put the byte behind a mark,
      deliver a marked range, call a notify callback. */
  datatype Item = Begin(kind: Kind) | Byte(kind: Kind, b: char) | End(kind: Kind) | Note(notice: Notice)

  datatype Parser = Parser(
    ptype: ParserType, state: State, hs: HeaderState, index: nat, flags: Flags, nread: nat,
    contentLength: nat, major: nat, minor: nat, statusCode: nat, meth: Method, upgrade: bool,
    lenient: bool, limit: nat)

  function Init(t: ParserType, limit: nat): Parser {
    var s := match t case Request => StartReq case Response => StartRes case Both => StartReqOrRes;
    Parser(t, s, General, 0, NO_FLAGS, 0, 0, 0, 0, 0, DELETE, false, false, limit)
  }

  /** Stop is the early return for an upgrade; the byte is consumed. */
  datatype Outcome = Go(p: Parser, items: seq<Item>) | Stop(p: Parser, items: seq<Item>) | Fail(err: Errno)

  function Prepend(items: seq<Item>, o: Outcome): Outcome {
    match o
    case Go(p, more) => Go(p, items + more)
    case Stop(p, more) => Stop(p, items + more)
    case Fail(e) => Fail(e)
  }

  function Strictly(ok: bool, o: Outcome): Outcome { if ok then o else Fail(Strict) }

  // ---- decisions about the end of a message -------------------------------------------

  predicate NeedsEof(p: Parser) {
    && p.ptype != Request
    && !(p.statusCode / 100 == 1 || p.statusCode == 204 || p.statusCode == 304)
    && !p.flags.chunked && p.contentLength == ULLONG_MAX
  }

  predicate ShouldKeepAlive(p: Parser) {
    && (if p.major > 0 && p.minor > 0 then !p.flags.close else p.flags.keepAlive)
    && !NeedsEof(p)
  }

  function StartState(p: Parser): State { if p.ptype == Request then StartReq else StartRes }

  function NewMessage(p: Parser): Parser {
    p.(state := if ShouldKeepAlive(p) then StartState(p) else Dead)
  }

  predicate InHeader(s: State) {
    !(s.ChunkData? || s.ChunkDataAlmostDone? || s.ChunkDataDone? || s.BodyIdentity? || s.BodyIdentityEof?
      || s.MessageDone?)
  }

  // ---- start of a message ---------------------------------------------------------------

  function Fresh(p: Parser): Parser { p.(flags := NO_FLAGS, contentLength := ULLONG_MAX) }

  function FirstMethod(ch: char): Option<Method> {
    match ch
    case 'A' => Some(ACL) case 'B' => Some(BIND) case 'C' => Some(CONNECT) case 'D' => Some(DELETE)
    case 'G' => Some(GET) case 'H' => Some(HEAD) case 'L' => Some(LOCK) case 'M' => Some(MKCOL)
    case 'N' => Some(NOTIFY) case 'O' => Some(OPTIONS) case 'P' => Some(POST) case 'R' => Some(REPORT)
    case 'S' => Some(SUBSCRIBE) case 'T' => Some(TRACE) case 'U' => Some(UNLOCK) case _ => None
  }

  function OnStartReq(p: Parser, ch: char): Outcome {
    if ch == CR || ch == LF then Go(p, [])
    else match FirstMethod(ch)
      case None => Fail(InvalidMethod)
      case Some(m) => Go(Fresh(p).(meth := m, index := 1, state := ReqMethod), [Note(MessageBegin)])
  }

  function OnStartReqOrRes(p: Parser, ch: char): Outcome {
    if ch == CR || ch == LF then Go(p, [])
    else if ch == 'H' then Go(Fresh(p).(state := ResOrRespH), [Note(MessageBegin)])
    else OnStartReq(Fresh(p).(ptype := Request, state := StartReq), ch)
  }

  function OnResOrRespH(p: Parser, ch: char): Outcome {
    if ch == 'T' then Go(p.(ptype := Response, state := ResHT), [])
    else if ch != 'E' then Fail(InvalidConstant)
    else Go(p.(ptype := Request, meth := HEAD, index := 2, state := ReqMethod), [])
  }

  function OnStartRes(p: Parser, ch: char): Outcome {
    if ch == CR || ch == LF then Go(p, [])
    else if ch == 'H' then Go(Fresh(p).(state := ResH), [Note(MessageBegin)])
    else Fail(InvalidConstant)
  }

  // ---- status line ------------------------------------------------------------------------

  function OnResVersion(p: Parser, ch: char): Outcome {
    match p.state
    case ResH => Strictly(ch == 'T', Go(p.(state := ResHT), []))
    case ResHT => Strictly(ch == 'T', Go(p.(state := ResHTT), []))
    case ResHTT => Strictly(ch == 'P', Go(p.(state := ResHTTP), []))
    case ResHTTP => Strictly(ch == '/', Go(p.(state := ResMajor), []))
    case ResMajor => if IsNum(ch) then Go(p.(major := Digit(ch), state := ResDot), []) else Fail(InvalidVersion)
    case ResDot => if ch == '.' then Go(p.(state := ResMinor), []) else Fail(InvalidVersion)
    case ResMinor => if IsNum(ch) then Go(p.(minor := Digit(ch), state := ResEnd), []) else Fail(InvalidVersion)
    case _ => if ch == ' ' then Go(p.(state := ResFirstStatusCode), []) else Fail(InvalidVersion)
  }

  function OnStatusCode(p: Parser, ch: char): Outcome {
    if p.state == ResFirstStatusCode then
      if IsNum(ch) then Go(p.(statusCode := Digit(ch), state := ResStatusCode), [])
      else if ch == ' ' then Go(p, []) else Fail(InvalidStatus)
    else if IsNum(ch) then
      var code := p.statusCode * 10 + Digit(ch);
      if code > 999 then Fail(InvalidStatus) else Go(p.(statusCode := code), [])
    else if ch == ' ' then Go(p.(state := ResStatusStart), [])
    else if ch == CR || ch == LF then OnStatusStart(p, ch)
    else Fail(InvalidStatus)
  }

  predicate IsResVersionState(s: State) {
    s.ResH? || s.ResHT? || s.ResHTT? || s.ResHTTP? || s.ResMajor? || s.ResDot? || s.ResMinor? || s.ResEnd?
  }

  function OnStatusLine(p: Parser, ch: char): Outcome {
    if IsResVersionState(p.state) then OnResVersion(p, ch)
    else match p.state
      case ResFirstStatusCode => OnStatusCode(p, ch)
      case ResStatusCode => OnStatusCode(p, ch)
      case ResStatusStart => OnStatusStart(p, ch)
      case ResStatus => OnStatus(p, ch)
      case _ => Strictly(ch == LF, Go(p.(state := HeaderFieldStart), []))
  }

  function OnStatusStart(p: Parser, ch: char): Outcome {
    Prepend([Begin(Status)], OnStatus(p.(index := 0), ch))
  }

  function OnStatus(p: Parser, ch: char): Outcome {
    if ch == CR then Go(p.(state := ResLineAlmostDone), [End(Status)])
    else if ch == LF then Go(p.(state := HeaderFieldStart), [End(Status)])
    else Go(p.(state := ResStatus), [Byte(Status, ch)])
  }

  // ---- request line -----------------------------------------------------------------------

  function Rematch(m: Method, index: nat, ch: char): Option<Method> {
    match (m, index, ch)
    case (POST, 1, 'U') => Some(PUT)
    case (POST, 1, 'A') => Some(PATCH)
    case (POST, 1, 'R') => Some(PROPFIND)
    case (PUT, 2, 'R') => Some(PURGE)
    case (CONNECT, 1, 'H') => Some(CHECKOUT)
    case (CONNECT, 2, 'P') => Some(COPY)
    case (MKCOL, 1, 'O') => Some(MOVE)
    case (MKCOL, 1, 'E') => Some(MERGE)
    case (MKCOL, 1, '-') => Some(MSEARCH)
    case (MKCOL, 2, 'A') => Some(MKACTIVITY)
    case (MKCOL, 3, 'A') => Some(MKCALENDAR)
    case (SUBSCRIBE, 1, 'E') => Some(SEARCH)
    case (SUBSCRIBE, 1, 'O') => Some(SOURCE)
    case (REPORT, 2, 'B') => Some(REBIND)
    case (PROPFIND, 4, 'P') => Some(PROPPATCH)
    case (LOCK, 1, 'I') => Some(LINK)
    case (UNLOCK, 2, 'S') => Some(UNSUBSCRIBE)
    case (UNLOCK, 2, 'B') => Some(UNBIND)
    case (UNLOCK, 3, 'I') => Some(UNLINK)
    case _ => None
  }

  /** The C code reads method_strings[method][index]; an index past the NUL would be a fault. */
  function OnMethod(p: Parser, ch: char): Outcome {
    var name := MethodName(p.meth);
    if ch == '\0' then Fail(InvalidMethod)
    else if p.index > |name| then Fail(AssertionFailed)
    else if ch == ' ' && p.index == |name| then Go(p.(state := ReqSpacesBeforeUrl, index := p.index + 1), [])
    else if p.index < |name| && ch == name[p.index] then Go(p.(index := p.index + 1), [])
    else if IsUpper(ch) || ch == '-' then
      match Rematch(p.meth, p.index, ch)
      case Some(m) => Go(p.(meth := m, index := p.index + 1), [])
      case None => Fail(InvalidMethod)
    else Fail(InvalidMethod)
  }

  function ParseUrlChar(s: State, ch: char): State {
    if ch in " \r\n\t" || ch == 12 as char then Dead
    else match s
      case ReqSpacesBeforeUrl =>
        if ch == '/' || ch == '*' then ReqPath else if IsAlpha(ch) then ReqSchema else Dead
      case ReqSchema => if IsAlpha(ch) then s else if ch == ':' then ReqSchemaSlash else Dead
      case ReqSchemaSlash => if ch == '/' then ReqSchemaSlashSlash else Dead
      case ReqSchemaSlashSlash => if ch == '/' then ReqServerStart else Dead
      case ReqServerWithAt => if ch == '@' then Dead else ServerChar(ch)
      case ReqServerStart => ServerChar(ch)
      case ReqServer => ServerChar(ch)
      case ReqPath =>
        if IsUrlChar(ch) then s else if ch == '?' then ReqQueryStart else if ch == '#' then ReqFragmentStart else Dead
      case ReqQueryStart =>
        if IsUrlChar(ch) || ch == '?' then ReqQuery else if ch == '#' then ReqFragmentStart else Dead
      case ReqQuery =>
        if IsUrlChar(ch) || ch == '?' then ReqQuery else if ch == '#' then ReqFragmentStart else Dead
      case ReqFragmentStart =>
        if IsUrlChar(ch) || ch == '?' then ReqFragment else if ch == '#' then s else Dead
      case ReqFragment => if IsUrlChar(ch) || ch == '?' || ch == '#' then s else Dead
      case _ => Dead
  }

  function ServerChar(ch: char): State {
    if ch == '/' then ReqPath
    else if ch == '?' then ReqQueryStart
    else if ch == '@' then ReqServerWithAt
    else if IsUserinfoChar(ch) || ch == '[' || ch == ']' then ReqServer
    else Dead
  }

  predicate IsUrlState(s: State) {
    s.ReqSchema? || s.ReqSchemaSlash? || s.ReqSchemaSlashSlash? || s.ReqServerStart? || s.ReqServer? || s.ReqServerWithAt?
    || s.ReqPath? || s.ReqQueryStart? || s.ReqQuery? || s.ReqFragmentStart? || s.ReqFragment?
  }

  function UrlByte(p: Parser, from: State, ch: char, items: seq<Item>): Outcome {
    var s := ParseUrlChar(from, ch);
    if s == Dead then Fail(InvalidUrl) else Go(p.(state := s), items + [Byte(Url, ch)])
  }

  function OnUrl(p: Parser, ch: char): Outcome {
    if p.state == ReqSpacesBeforeUrl then
      if ch == ' ' then Go(p, [])
      else UrlByte(p, if p.meth == CONNECT then ReqServerStart else p.state, ch, [Begin(Url)])
    else if (p.state.ReqSchema? || p.state.ReqSchemaSlash? || p.state.ReqSchemaSlashSlash? || p.state.ReqServerStart?) then
      UrlByte(p, p.state, ch, [])
    else if ch == ' ' then Go(p.(state := ReqHttpStart), [End(Url)])
    else if ch == CR then Go(p.(major := 0, minor := 9, state := ReqLineAlmostDone), [End(Url)])
    else if ch == LF then Go(p.(major := 0, minor := 9, state := HeaderFieldStart), [End(Url)])
    else UrlByte(p, p.state, ch, [])
  }

  function OnHttpVersion(p: Parser, ch: char): Outcome {
    match p.state
    case ReqHttpStart =>
      if ch == ' ' then Go(p, [])
      else if ch == 'H' then Go(p.(state := ReqHttpH), [])
      else if ch == 'I' && p.meth == SOURCE then Go(p.(state := ReqHttpI), [])
      else Fail(InvalidConstant)
    case ReqHttpH => Strictly(ch == 'T', Go(p.(state := ReqHttpHT), []))
    case ReqHttpHT => Strictly(ch == 'T', Go(p.(state := ReqHttpHTT), []))
    case ReqHttpHTT => Strictly(ch == 'P', Go(p.(state := ReqHttpHTTP), []))
    case ReqHttpI => Strictly(ch == 'C', Go(p.(state := ReqHttpIC), []))
    case ReqHttpIC => Strictly(ch == 'E', Go(p.(state := ReqHttpHTTP), []))
    case ReqHttpHTTP => Strictly(ch == '/', Go(p.(state := ReqMajor), []))
    case ReqMajor => if IsNum(ch) then Go(p.(major := Digit(ch), state := ReqDot), []) else Fail(InvalidVersion)
    case ReqDot => if ch == '.' then Go(p.(state := ReqMinor), []) else Fail(InvalidVersion)
    case ReqMinor => if IsNum(ch) then Go(p.(minor := Digit(ch), state := ReqEnd), []) else Fail(InvalidVersion)
    case ReqEnd =>
      if ch == CR then Go(p.(state := ReqLineAlmostDone), [])
      else if ch == LF then Go(p.(state := HeaderFieldStart), [])
      else Fail(InvalidVersion)
    case _ => if ch == LF then Go(p.(state := HeaderFieldStart), []) else Fail(LfExpected)
  }

  // ---- header names ------------------------------------------------------------------------

  function FirstOfName(c: char): HeaderState {
    match c
    case 'c' => C
    case 'p' => MatchingProxyConnection
    case 't' => MatchingTransferEncoding
    case 'u' => MatchingUpgrade
    case _ => General
  }

  /** One more letter of a word that is being matched, read at the incremented index. */
  function Match(word: string, index: nat, c: char, matching: HeaderState, done: HeaderState, lost: HeaderState)
    : HeaderState
  {
    if index >= |word| || c != word[index] then lost
    else if index == |word| - 1 then done
    else matching
  }

  predicate IsNameState(hs: HeaderState) {
    hs.General? || hs.C? || hs.CO? || hs.CON? || hs.MatchingConnection? || hs.MatchingProxyConnection?
    || hs.MatchingContentLength? || hs.MatchingTransferEncoding? || hs.MatchingUpgrade? || hs.Connection?
    || hs.ContentLength? || hs.TransferEncoding? || hs.Upgrade?
  }

  function NameByte(hs: HeaderState, index: nat, c: char): (HeaderState, nat)
    requires IsNameState(hs)
  {
    match hs
    case General => (General, index)
    case C => (if c == 'o' then CO else General, index + 1)
    case CO => (if c == 'n' then CON else General, index + 1)
    case CON =>
      (if c == 'n' then MatchingConnection else if c == 't' then MatchingContentLength else General, index + 1)
    case MatchingConnection => (Match("connection", index + 1, c, hs, Connection, General), index + 1)
    case MatchingProxyConnection => (Match("proxy-connection", index + 1, c, hs, Connection, General), index + 1)
    case MatchingContentLength => (Match("content-length", index + 1, c, hs, ContentLength, General), index + 1)
    case MatchingTransferEncoding => (Match("transfer-encoding", index + 1, c, hs, TransferEncoding, General), index + 1)
    case MatchingUpgrade => (Match("upgrade", index + 1, c, hs, Upgrade, General), index + 1)
    case _ => (General, index)  // a token character is never a blank in the strict build
  }

  function OnHeaderField(p: Parser, ch: char): Outcome {
    var c := Token(ch);
    if c != '\0' then
      if !IsNameState(p.hs) then Fail(AssertionFailed)
      else
        var (hs, index) := NameByte(p.hs, p.index, c);
        Go(p.(hs := hs, index := index), [Byte(Field, ch)])
    else if ch == ':' then Go(p.(state := HeaderValueDiscardWs), [End(Field)])
    else Fail(InvalidHeaderToken)
  }

  // ---- header values -----------------------------------------------------------------------

  function OnValueStart(p: Parser, ch: char): Outcome {
    var q := p.(state := HeaderValue, index := 0);
    var c := Lower(ch);
    var items := [Begin(Value), Byte(Value, ch)];
    match p.hs
    case Upgrade => Go(q.(flags := q.flags.(upgrade := true), hs := General), items)
    case TransferEncoding => Go(q.(hs := if c == 'c' then MatchingChunked else General), items)
    case ContentLength =>
      if !IsNum(ch) then Fail(InvalidContentLength)
      else if p.flags.contentLength then Fail(UnexpectedContentLength)
      else Go(q.(flags := q.flags.(contentLength := true), contentLength := Digit(ch), hs := ContentLengthNum), items)
    case ContentLengthWs => Go(q, items)
    case Connection =>
      Go(q.(hs := if c == 'k' then MatchingKeepAlive else if c == 'c' then MatchingClose
                  else if c == 'u' then MatchingConnUpgrade else ConnToken), items)
    case ConnTokenStart => Go(q, items)
    case _ => Go(q.(hs := General), items)
  }

  function OnDiscardWs(p: Parser, ch: char): Outcome {
    if ch == ' ' || ch == '\t' then Go(p, [])
    else if ch == CR then Go(p.(state := HeaderValueDiscardWsAlmostDone), [])
    else if ch == LF then Go(p.(state := HeaderValueDiscardLws), [])
    else OnValueStart(p, ch)
  }

  /** The flag a finished header value sets. */
  function SetFlag(f: Flags, hs: HeaderState): Flags {
    match hs
    case ConnKeepAlive => f.(keepAlive := true)
    case ConnClose => f.(close := true)
    case ConnUpgrade => f.(connUpgrade := true)
    case Chunked => f.(chunked := true)
    case _ => f
  }

  function OnDiscardLws(p: Parser, ch: char): Outcome {
    if ch == ' ' || ch == '\t' then Go(p.(state := HeaderValueDiscardWs), [])
    else if p.hs == ContentLength then Fail(InvalidContentLength)
    else Prepend([Begin(Value), End(Value)], OnHeaderFieldStart(p.(flags := SetFlag(p.flags, p.hs)), ch))
  }

  const DECIMAL_LIMIT: nat := (ULLONG_MAX - 10) / 10
  const HEX_LIMIT: nat := (ULLONG_MAX - 16) / 16

  /** What a header value is matched with; a refused byte is an error. */
  datatype Matcher = Matcher(hs: HeaderState, index: nat, flags: Flags, contentLength: nat) | Refused(err: Errno)

  function LengthDigit(m: Matcher, ch: char): Matcher
    requires m.Matcher?
  {
    if ch == ' ' then m.(hs := ContentLengthWs)
    else if !IsNum(ch) then Refused(InvalidContentLength)
    else if DECIMAL_LIMIT < m.contentLength then Refused(InvalidContentLength)
    else m.(hs := ContentLengthNum, contentLength := m.contentLength * 10 + Digit(ch))
  }

  function TokenStart(c: char): HeaderState {
    if c == 'k' then MatchingKeepAlive
    else if c == 'c' then MatchingClose
    else if c == 'u' then MatchingConnUpgrade
    else if IsToken(c) then ConnToken
    else if c == ' ' || c == '\t' then ConnTokenStart
    else General
  }

  /** The matcher inside a header value, for a byte that is neither CR nor LF. */
  function ValueByte(m: Matcher, ch: char): Matcher
    requires m.Matcher?
  {
    var c := Lower(ch);
    var next := m.index + 1;
    match m.hs
    case General => m
    case Connection => Refused(AssertionFailed)
    case TransferEncoding => Refused(AssertionFailed)
    case ContentLength => if ch == ' ' then m else LengthDigit(m, ch)
    case ContentLengthNum => LengthDigit(m, ch)
    case ContentLengthWs => if ch == ' ' then m else Refused(InvalidContentLength)
    case MatchingChunked => m.(index := next, hs := Match("chunked", next, c, m.hs, Chunked, General))
    case ConnTokenStart => m.(hs := TokenStart(c))
    case MatchingKeepAlive => m.(index := next, hs := Match("keep-alive", next, c, m.hs, ConnKeepAlive, ConnToken))
    case MatchingClose => m.(index := next, hs := Match("close", next, c, m.hs, ConnClose, ConnToken))
    case MatchingConnUpgrade => m.(index := next, hs := Match("upgrade", next, c, m.hs, ConnUpgrade, ConnToken))
    case ConnToken => if ch == ',' then m.(hs := ConnTokenStart, index := 0) else m
    case Chunked => if ch == ' ' then m else m.(hs := General)
    case ConnKeepAlive => ConnWord(m, ch)
    case ConnClose => ConnWord(m, ch)
    case ConnUpgrade => ConnWord(m, ch)
    case _ => m.(hs := General)
  }

  function ConnWord(m: Matcher, ch: char): Matcher
    requires m.Matcher?
  {
    if ch == ',' then m.(flags := SetFlag(m.flags, m.hs), hs := ConnTokenStart, index := 0)
    else if ch != ' ' then m.(hs := ConnToken)
    else m
  }

  function MatcherOf(p: Parser): (m: Matcher) ensures m.Matcher? { Matcher(p.hs, p.index, p.flags, p.contentLength) }

  function WithMatcher(p: Parser, m: Matcher): Parser
    requires m.Matcher?
  {
    p.(hs := m.hs, index := m.index, flags := m.flags, contentLength := m.contentLength)
  }

  function OnHeaderValue(p: Parser, ch: char): Outcome {
    if ch == CR then Go(p.(state := HeaderAlmostDone), [End(Value)])
    else if ch == LF then Go(p.(state := HeaderValueLws), [End(Value)])
    else if !p.lenient && !IsHeaderChar(ch) then Fail(InvalidHeaderToken)
    else
      var m := ValueByte(MatcherOf(p), ch);
      if m.Refused? then Fail(m.err) else Go(WithMatcher(p, m), [Byte(Value, ch)])
  }

  function OnValueLws(p: Parser, ch: char): Outcome {
    if ch == ' ' || ch == '\t' then
      OnValueStart(if p.hs == ContentLengthNum then p.(hs := ContentLengthWs) else p, ch)
    else OnHeaderFieldStart(p.(flags := SetFlag(p.flags, p.hs)), ch)
  }

  // ---- end of the headers -------------------------------------------------------------------

  function OnHeaderFieldStart(p: Parser, ch: char): Outcome {
    if ch == CR then Go(p.(state := HeadersAlmostDone), [])
    else if ch == LF then OnHeadersAlmostDone(p, ch)
    else
      var c := Token(ch);
      if c == '\0' then Fail(InvalidHeaderToken)
      else Go(p.(state := HeaderField, index := 0, hs := FirstOfName(c)), [Begin(Field), Byte(Field, ch)])
  }

  function HeadOf(p: Parser): Head {
    Head(p.major, p.minor, p.statusCode, p.meth, p.upgrade, p.flags, p.contentLength)
  }

  function OnHeadersAlmostDone(p: Parser, ch: char): Outcome {
    if ch != LF then Fail(Strict)
    else if p.flags.trailing then Prepend([Note(ChunkComplete)], OnMessageDone(p))
    else if p.flags.chunked && p.flags.contentLength then Fail(UnexpectedContentLength)
    else
      var up := if p.flags.upgrade && p.flags.connUpgrade then p.ptype == Request || p.statusCode == 101
                else p.meth == CONNECT;
      var q := p.(state := HeadersDone, upgrade := up);
      Prepend([Note(HeadersComplete(HeadOf(q)))], OnHeadersDone(q, ch))
  }

  function OnHeadersDone(p: Parser, ch: char): Outcome {
    var q := p.(nread := 0);
    var hasBody := p.flags.chunked || (p.contentLength > 0 && p.contentLength != ULLONG_MAX);
    if ch != LF then Fail(Strict)
    else if p.upgrade && (p.meth == CONNECT || !hasBody) then Stop(NewMessage(q), [Note(MessageComplete)])
    else if p.flags.chunked then Go(q.(state := ChunkSizeStart), [])
    else if p.contentLength == 0 then Go(NewMessage(q), [Note(MessageComplete)])
    else if p.contentLength != ULLONG_MAX then Go(q.(state := BodyIdentity), [])
    else if !NeedsEof(q) then Go(NewMessage(q), [Note(MessageComplete)])
    else Go(q.(state := BodyIdentityEof), [])
  }

  function OnMessageDone(p: Parser): Outcome {
    if p.upgrade then Stop(NewMessage(p), [Note(MessageComplete)]) else Go(NewMessage(p), [Note(MessageComplete)])
  }

  // ---- bodies ---------------------------------------------------------------------------------

  predicate HasLength(p: Parser) { p.contentLength != 0 && p.contentLength != ULLONG_MAX }

  function OnBody(p: Parser, ch: char): Outcome {
    var items := [Begin(Body), Byte(Body, ch)];
    if p.state == BodyIdentityEof then Go(p, items)
    else if !HasLength(p) then Fail(AssertionFailed)
    else
      var q := p.(contentLength := p.contentLength - 1);
      if p.state == BodyIdentity then
        if q.contentLength == 0 then Prepend(items + [End(Body)], OnMessageDone(q)) else Go(q, items)
      else if !p.flags.chunked then Fail(AssertionFailed)
      else Go(if q.contentLength == 0 then q.(state := ChunkDataAlmostDone) else q, items)
  }

  function OnChunk(p: Parser, ch: char): Outcome {
    if !p.flags.chunked then Fail(AssertionFailed)
    else match p.state
      case ChunkSizeStart =>
        if p.nread != 1 then Fail(AssertionFailed)
        else if Unhex(ch) == -1 then Fail(InvalidChunkSize)
        else Go(p.(contentLength := Unhex(ch), state := ChunkSize), [])
      case ChunkSize =>
        if ch == CR then Go(p.(state := ChunkSizeAlmostDone), [])
        else if Unhex(ch) == -1 then
          if ch == ';' || ch == ' ' then Go(p.(state := ChunkParameters), []) else Fail(InvalidChunkSize)
        else if HEX_LIMIT < p.contentLength then Fail(InvalidContentLength)
        else Go(p.(contentLength := p.contentLength * 16 + Unhex(ch)), [])
      case ChunkParameters => Go(if ch == CR then p.(state := ChunkSizeAlmostDone) else p, [])
      case ChunkSizeAlmostDone =>
        if ch != LF then Fail(Strict)
        else if p.contentLength == 0 then
          Go(p.(nread := 0, flags := p.flags.(trailing := true), state := HeaderFieldStart), [Note(ChunkHeader(p.contentLength))])
        else Go(p.(nread := 0, state := ChunkData), [Note(ChunkHeader(p.contentLength))])
      case ChunkDataAlmostDone =>
        if p.contentLength != 0 then Fail(AssertionFailed)
        else Strictly(ch == CR, Go(p.(state := ChunkDataDone), [End(Body)]))
      case _ => Strictly(ch == LF, Go(p.(nread := 0, state := ChunkSizeStart), [Note(ChunkComplete)]))
  }

  // ---- one byte, and a run ------------------------------------------------------------------------

  predicate IsStartState(s: State) {
    s.Dead? || s.StartReqOrRes? || s.ResOrRespH? || s.StartRes? || s.StartReq?
  }

  function OnStart(p: Parser, ch: char): Outcome {
    match p.state
    case Dead => if ch == CR || ch == LF then Go(p, []) else Fail(ClosedConnection)
    case StartReqOrRes => OnStartReqOrRes(p, ch)
    case ResOrRespH => OnResOrRespH(p, ch)
    case StartRes => OnStartRes(p, ch)
    case _ => OnStartReq(p, ch)
  }

  predicate IsStatusLineState(s: State) {
    IsResVersionState(s) || s.ResFirstStatusCode? || s.ResStatusCode? || s.ResStatusStart? || s.ResStatus? || s.ResLineAlmostDone?
  }

  predicate IsRequestLineState(s: State) {
    s.ReqMethod? || s.ReqHttpStart? || s.ReqHttpH? || s.ReqHttpHT? || s.ReqHttpHTT? || s.ReqHttpHTTP? || s.ReqHttpI?
    || s.ReqHttpIC? || s.ReqMajor? || s.ReqDot? || s.ReqMinor? || s.ReqEnd? || s.ReqLineAlmostDone?
  }

  function OnRequestLine(p: Parser, ch: char): Outcome {
    if p.state == ReqMethod then OnMethod(p, ch) else OnHttpVersion(p, ch)
  }

  predicate IsHeaderLineState(s: State) {
    s.HeaderFieldStart? || s.HeaderField? || s.HeaderValueDiscardWs? || s.HeaderValueDiscardWsAlmostDone?
    || s.HeaderValueDiscardLws? || s.HeaderValueStart? || s.HeaderValue? || s.HeaderValueLws? || s.HeaderAlmostDone?
    || s.HeadersAlmostDone? || s.HeadersDone?
  }

  function OnHeaderLine(p: Parser, ch: char): Outcome {
    match p.state
    case HeaderFieldStart => OnHeaderFieldStart(p, ch)
    case HeaderField => OnHeaderField(p, ch)
    case HeaderValueDiscardWs => OnDiscardWs(p, ch)
    case HeaderValueDiscardWsAlmostDone => Strictly(ch == LF, Go(p.(state := HeaderValueDiscardLws), []))
    case HeaderValueDiscardLws => OnDiscardLws(p, ch)
    case HeaderValueStart => OnValueStart(p, ch)
    case HeaderValue => OnHeaderValue(p, ch)
    case HeaderAlmostDone => if ch == LF then Go(p.(state := HeaderValueLws), []) else Fail(LfExpected)
    case HeaderValueLws => OnValueLws(p, ch)
    case HeadersAlmostDone => OnHeadersAlmostDone(p, ch)
    case _ => OnHeadersDone(p, ch)
  }

  predicate IsBodyByteState(s: State) { s.ChunkData? || s.BodyIdentity? || s.BodyIdentityEof? }

  predicate IsChunkLineState(s: State) {
    s.ChunkSizeStart? || s.ChunkSize? || s.ChunkParameters? || s.ChunkSizeAlmostDone?
    || s.ChunkDataAlmostDone? || s.ChunkDataDone?
  }

  function Dispatch(p: Parser, ch: char): Outcome {
    if IsStartState(p.state) then OnStart(p, ch)
    else if IsStatusLineState(p.state) then OnStatusLine(p, ch)
    else if IsRequestLineState(p.state) then OnRequestLine(p, ch)
    else if p.state == ReqSpacesBeforeUrl || IsUrlState(p.state) then OnUrl(p, ch)
    else if IsHeaderLineState(p.state) then OnHeaderLine(p, ch)
    else if IsChunkLineState(p.state) then OnChunk(p, ch)
    else if IsBodyByteState(p.state) then OnBody(p, ch)
    else OnMessageDone(p)
  }

  /** Header bytes are counted before they are looked at. */
  function Step(p: Parser, ch: char): Outcome {
    if !InHeader(p.state) then Dispatch(p, ch)
    else if p.nread + 1 > p.limit then Fail(HeaderOverflow)
    else Dispatch(p.(nread := p.nread + 1), ch)
  }

  datatype Status = Running | Stopped | Failed(err: Errno)
  datatype Trace = Trace(p: Parser, items: seq<Item>, used: nat, status: Status)

  /** A whole input, byte by byte; what follows a stop or an error is not looked at. */
  function Run(p: Parser, s: string): Trace {
    if s == "" then Trace(p, [], 0, Running)
    else
      var t := Run(p, s[..|s| - 1]);
      if t.status != Running then t
      else match Step(t.p, s[|s| - 1])
        case Go(q, items) => Trace(q, t.items + items, t.used + 1, Running)
        case Stop(q, items) => Trace(q, t.items + items, t.used + 1, Stopped)
        case Fail(e) => t.(status := Failed(e))
  }

  lemma {:induction false} RunUsed(p: Parser, s: string)
    ensures Run(p, s).used <= |s|
    ensures Run(p, s).status == Running ==> Run(p, s).used == |s|
  {
    if s != "" { RunUsed(p, s[..|s| - 1]); }
  }

  /** A run over two pieces is the run over the first continued by the run over the second. */
  lemma {:induction false} RunAppend(p: Parser, a: string, b: string)
    ensures var t := Run(p, a);
            Run(p, a + b) ==
              if t.status != Running then t
              else var u := Run(t.p, b); Trace(u.p, t.items + u.items, t.used + u.used, u.status)
  {
    hide Step;
    if b == "" {
      assert a + b == a;
    } else {
      var b0 := b[..|b| - 1];
      RunAppend(p, a, b0);
      assert (a + b)[..|a + b| - 1] == a + b0;
      if Run(p, a).status == Running && Run(Run(p, a).p, b0).status == Running {
        var t := Run(p, a);
        match Step(Run(t.p, b0).p, b[|b| - 1]) {
          case Go(_, items) => assert (t.items + Run(t.p, b0).items) + items == t.items + (Run(t.p, b0).items + items);
          case Stop(_, items) => assert (t.items + Run(t.p, b0).items) + items == t.items + (Run(t.p, b0).items + items);
          case Fail(_) =>
        }
      }
    }
  }
}
