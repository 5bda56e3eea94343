/** What every byte keeps: none of the C asserts can fire, and no bit field or 64-bit
    length of struct http_parser ever needs more room than it has. */
module HttpInvariants {
  import opened Options
  import opened HttpTypes
  import opened HttpMachine

  const LENGTH_MAX: nat := 10 * DECIMAL_LIMIT + 9

  /** The index a matcher of header names is at; 17 is the length of "transfer-encoding". */
  predicate NameIndexOk(hs: HeaderState, index: nat) {
    match hs
    case C => index == 0
    case CO => index == 1
    case CON => index == 2
    case MatchingConnection => index < 9
    case MatchingProxyConnection => index < 15
    case MatchingContentLength => index < 13
    case MatchingTransferEncoding => index < 16
    case MatchingUpgrade => index < 6
    case _ => IsNameState(hs) && index <= 17
  }

  predicate ValueIndexOk(hs: HeaderState, index: nat) {
    match hs
    case MatchingChunked => index < 6
    case MatchingKeepAlive => index < 9
    case MatchingClose => index < 4
    case MatchingConnUpgrade => index < 6
    case ConnTokenStart => index == 0
    case Connection => false
    case TransferEncoding => false
    case _ => index <= 17
  }

  /** Room for the C field widths: 7 bits, 64 bits, 16 bits and the decimal version digits. */
  predicate FieldsFit(p: Parser) {
    && p.index <= 17
    && (p.contentLength == ULLONG_MAX || p.contentLength <= LENGTH_MAX)
    && p.statusCode <= 999 && p.major <= 9 && p.minor <= 9
  }

  predicate StateOk(p: Parser) {
    match p.state
    case ReqMethod => p.index <= |MethodName(p.meth)|
    case HeaderField => NameIndexOk(p.hs, p.index)
    case HeaderValue => ValueIndexOk(p.hs, p.index)
    case ChunkSizeStart => p.flags.chunked && p.nread == 0
    case ChunkSize => p.flags.chunked && p.contentLength != ULLONG_MAX
    case ChunkParameters => p.flags.chunked && p.contentLength != ULLONG_MAX
    case ChunkSizeAlmostDone => p.flags.chunked && p.contentLength != ULLONG_MAX
    case ChunkData => p.flags.chunked && HasLength(p)
    case ChunkDataAlmostDone => p.flags.chunked && p.contentLength == 0
    case ChunkDataDone => p.flags.chunked
    case BodyIdentity => HasLength(p)
    case _ => true
  }

  predicate Inv(p: Parser) { FieldsFit(p) && StateOk(p) }

  predicate Safe(o: Outcome) { if o.Fail? then o.err != AssertionFailed else Inv(o.p) }

  lemma InitInv(t: ParserType, limit: nat)
    ensures Inv(Init(t, limit))
  {}

  /** Leaving the state alone or moving to one without an obligation. */
  lemma PlainState(p: Parser)
    requires FieldsFit(p)
    requires !(p.state.ReqMethod? || p.state.HeaderField? || p.state.HeaderValue? || p.state.BodyIdentity?
               || IsChunkLineState(p.state) || p.state.ChunkData?)
    ensures Inv(p)
  {}

  lemma StartSafe(p: Parser, ch: char)
    requires FieldsFit(p) && IsStartState(p.state)
    ensures Safe(OnStart(p, ch))
  {
    hide FirstMethod;
    match p.state
    case StartReqOrRes => MethodNameLong(Fresh(p), ch);
    case ResOrRespH =>
    case StartRes =>
    case StartReq => MethodNameLong(p, ch);
    case Dead =>
  }

  lemma MethodNameLong(p: Parser, ch: char)
    requires FieldsFit(p)
    ensures FirstMethod(ch).Some? ==> |MethodName(FirstMethod(ch).value)| >= 1
  {}

  /** The method matcher never reads past the name of the method it is at. */
  lemma RematchInName(m: Method, index: nat, ch: char)
    requires Rematch(m, index, ch).Some?
    ensures index + 1 <= |MethodName(Rematch(m, index, ch).value)|
  {
    hide MethodName;
    assert index <= 4;
    var new_ := Rematch(m, index, ch).value;
    MethodNameFits(new_);
    if index >= 3 {
      assert new_ == MKCALENDAR || new_ == UNLINK || new_ == PROPPATCH;
      assert |MethodName(MKCALENDAR)| == 10 && |MethodName(UNLINK)| == 6 && |MethodName(PROPPATCH)| == 9 by { LongNames(); }
    }
  }

  lemma LongNames()
    ensures |MethodName(MKCALENDAR)| == 10 && |MethodName(UNLINK)| == 6 && |MethodName(PROPPATCH)| == 9
  {}

  lemma MethodNameFits(m: Method)
    ensures 3 <= |MethodName(m)| <= 11
  {}

  lemma MethodSafe(p: Parser, ch: char)
    requires Inv(p) && p.state == ReqMethod
    ensures Safe(OnMethod(p, ch))
  {
    MethodNameFits(p.meth);
    if Rematch(p.meth, p.index, ch).Some? {
      RematchInName(p.meth, p.index, ch);
      MethodNameFits(Rematch(p.meth, p.index, ch).value);
    }
    hide Rematch, MethodName;
  }

  lemma VersionMoves(p: Parser, ch: char)
    requires FieldsFit(p) && IsRequestLineState(p.state) && p.state != ReqMethod
    ensures var o := OnHttpVersion(p, ch);
            if o.Fail? then o.err != AssertionFailed
            else o.Go? && FieldsFit(o.p) && ((IsRequestLineState(o.p.state) && o.p.state != ReqMethod) || o.p.state == HeaderFieldStart)
  {
    hide StateOk, Safe;
  }

  lemma HttpVersionSafe(p: Parser, ch: char)
    requires FieldsFit(p) && IsRequestLineState(p.state) && p.state != ReqMethod
    ensures Safe(OnHttpVersion(p, ch))
  {
    hide OnHttpVersion, FieldsFit, StateOk;
    VersionMoves(p, ch);
    var o := OnHttpVersion(p, ch);
    if o.Go? { PlainState(o.p); }
  }

  lemma StatusLineSafe(p: Parser, ch: char)
    requires FieldsFit(p) && IsStatusLineState(p.state)
    ensures Safe(OnStatusLine(p, ch))
  {
    if IsResVersionState(p.state) {
      ResVersionSafe(p, ch);
    } else if p.state == ResFirstStatusCode || p.state == ResStatusCode {
      StatusCodeSafe(p, ch);
    } else {
      hide OnResVersion, OnStatusCode;
    }
  }

  lemma ResVersionSafe(p: Parser, ch: char)
    requires FieldsFit(p) && IsResVersionState(p.state)
    ensures Safe(OnResVersion(p, ch))
  {}

  lemma StatusCodeSafe(p: Parser, ch: char)
    requires FieldsFit(p) && (p.state == ResFirstStatusCode || p.state == ResStatusCode)
    ensures Safe(OnStatusCode(p, ch))
  {
    hide OnStatusStart;
    StatusStartSafe(p, ch);
  }

  lemma StatusStartSafe(p: Parser, ch: char)
    requires FieldsFit(p)
    ensures ch == CR || ch == LF ==> Safe(OnStatusStart(p, ch))
  {}

  lemma UrlByteSafe(p: Parser, from: State, ch: char, items: seq<Item>)
    requires FieldsFit(p)
    ensures Safe(UrlByte(p, from, ch, items))
  {
    UrlStateOnly(from, ch);
    hide ParseUrlChar;
  }

  lemma UrlSafe(p: Parser, ch: char)
    requires FieldsFit(p) && (p.state == ReqSpacesBeforeUrl || IsUrlState(p.state))
    ensures Safe(OnUrl(p, ch))
  {
    hide UrlByte;
    if p.state == ReqSpacesBeforeUrl {
      UrlByteSafe(p, if p.meth == CONNECT then ReqServerStart else p.state, ch, [Begin(Url)]);
    } else {
      UrlByteSafe(p, p.state, ch, []);
      hide IsUrlState;
    }
  }

  lemma UrlStateOnly(s: State, ch: char)
    ensures ParseUrlChar(s, ch) == Dead || IsUrlState(ParseUrlChar(s, ch))
  {}

  lemma NameByteOk(hs: HeaderState, index: nat, c: char)
    requires NameIndexOk(hs, index)
    ensures NameIndexOk(NameByte(hs, index, c).0, NameByte(hs, index, c).1)
    ensures NameByte(hs, index, c).1 <= 17
  {}

  lemma HeaderFieldSafe(p: Parser, ch: char)
    requires Inv(p) && p.state == HeaderField
    ensures Safe(OnHeaderField(p, ch))
  {
    if Token(ch) != '\0' {
      NameByteOk(p.hs, p.index, Token(ch));
    }
    hide NameByte, Token;
  }

  lemma ValueStartSafe(p: Parser, ch: char)
    requires FieldsFit(p)
    ensures Safe(OnValueStart(p, ch))
  {
    hide Lower;
  }

  predicate MatcherOk(m: Matcher) {
    if m.Refused? then m.err != AssertionFailed
    else ValueIndexOk(m.hs, m.index) && m.index <= 17 && (m.contentLength == ULLONG_MAX || m.contentLength <= LENGTH_MAX)
  }

  lemma ValueByteSafe(m: Matcher, ch: char)
    requires m.Matcher? && MatcherOk(m)
    ensures MatcherOk(ValueByte(m, ch))
  {
    hide Lower, IsToken;
    if m.hs == ContentLengthNum || m.hs == ContentLength {
      LengthDigitSafe(m, ch);
    } else {
      hide LengthDigit;
    }
  }

  lemma LengthDigitSafe(m: Matcher, ch: char)
    requires m.Matcher? && MatcherOk(m) && (m.hs == ContentLengthNum || m.hs == ContentLength)
    ensures MatcherOk(LengthDigit(m, ch))
  {}

  lemma HeaderValueSafe(p: Parser, ch: char)
    requires Inv(p) && p.state == HeaderValue
    ensures Safe(OnHeaderValue(p, ch))
  {
    ValueByteSafe(MatcherOf(p), ch);
    hide ValueByte;
  }

  lemma HeadersDoneSafe(p: Parser, ch: char)
    requires FieldsFit(p)
    ensures Safe(OnHeadersDone(p, ch))
  {}

  lemma HeadersAlmostDoneSafe(p: Parser, ch: char)
    requires FieldsFit(p)
    ensures Safe(OnHeadersAlmostDone(p, ch))
  {
    hide OnHeadersDone;
    if ch == LF && !p.flags.trailing {
      var up := if p.flags.upgrade && p.flags.connUpgrade then p.ptype == Request || p.statusCode == 101
                else p.meth == CONNECT;
      HeadersDoneSafe(p.(state := HeadersDone, upgrade := up), ch);
    }
  }

  lemma HeaderFieldStartSafe(p: Parser, ch: char)
    requires FieldsFit(p)
    ensures Safe(OnHeaderFieldStart(p, ch))
  {
    HeadersAlmostDoneSafe(p, ch);
    hide OnHeadersAlmostDone, Token;
  }

  lemma DiscardLwsSafe(p: Parser, ch: char)
    requires FieldsFit(p)
    ensures Safe(OnDiscardLws(p, ch))
  {
    hide OnHeaderFieldStart;
    HeaderFieldStartSafe(p.(flags := SetFlag(p.flags, p.hs)), ch);
  }

  lemma ValueLwsSafe(p: Parser, ch: char)
    requires FieldsFit(p)
    ensures Safe(OnValueLws(p, ch))
  {
    hide OnHeaderFieldStart, OnValueStart;
    HeaderFieldStartSafe(p.(flags := SetFlag(p.flags, p.hs)), ch);
    ValueStartSafe(if p.hs == ContentLengthNum then p.(hs := ContentLengthWs) else p, ch);
  }

  lemma DiscardWsSafe(p: Parser, ch: char)
    requires FieldsFit(p) && p.state == HeaderValueDiscardWs
    ensures Safe(OnDiscardWs(p, ch))
  {
    ValueStartSafe(p, ch);
    hide OnValueStart;
  }

  lemma HeaderLineSafe(p: Parser, ch: char)
    requires Inv(p) && IsHeaderLineState(p.state)
    ensures Safe(OnHeaderLine(p, ch))
  {
    hide OnHeaderFieldStart, OnHeaderField, OnDiscardWs, OnDiscardLws, OnValueStart, OnHeaderValue, OnValueLws,
         OnHeadersAlmostDone, OnHeadersDone;
    match p.state
    case HeaderFieldStart => HeaderFieldStartSafe(p, ch);
    case HeaderField => HeaderFieldSafe(p, ch);
    case HeaderValueDiscardWs => DiscardWsSafe(p, ch);
    case HeaderValueDiscardWsAlmostDone =>
    case HeaderValueDiscardLws => DiscardLwsSafe(p, ch);
    case HeaderValueStart => ValueStartSafe(p, ch);
    case HeaderValue => HeaderValueSafe(p, ch);
    case HeaderAlmostDone =>
    case HeaderValueLws => ValueLwsSafe(p, ch);
    case HeadersAlmostDone => HeadersAlmostDoneSafe(p, ch);
    case HeadersDone => HeadersDoneSafe(p, ch);
  }

  lemma BodySafe(p: Parser, ch: char)
    requires Inv(p) && IsBodyByteState(p.state)
    ensures Safe(OnBody(p, ch))
  {}

  /** Here p has been counted already, so a chunk-size line starts with nread 1. */
  lemma ChunkSafe(p: Parser, ch: char)
    requires IsChunkLineState(p.state) && FieldsFit(p)
    requires p.state == ChunkSizeStart ==> p.nread == 1
    requires p.state != ChunkSizeStart ==> StateOk(p)
    requires p.flags.chunked
    ensures Safe(OnChunk(p, ch))
  {
    hide OnChunk, Unhex, Safe, StateOk;
    if p.state == ChunkSizeStart {
      FirstSizeSafe(p, ch);
    } else if p.state == ChunkSize {
      NextSizeSafe(p, ch);
    } else {
      OtherChunkSafe(p, ch);
    }
  }

  lemma DigitIsSmall(ch: char)
    ensures -1 <= Unhex(ch) < 16
  {}

  lemma FirstSizeSafe(p: Parser, ch: char)
    requires p.state == ChunkSizeStart && FieldsFit(p) && p.nread == 1 && p.flags.chunked
    ensures Safe(OnChunk(p, ch))
  {
    hide Unhex;
    DigitIsSmall(ch);
  }

  lemma NextSizeSafe(p: Parser, ch: char)
    requires p.state == ChunkSize && FieldsFit(p) && StateOk(p) && p.flags.chunked
    ensures Safe(OnChunk(p, ch))
  {
    hide Unhex;
    DigitIsSmall(ch);
  }

  lemma OtherChunkSafe(p: Parser, ch: char)
    requires IsChunkLineState(p.state) && p.state != ChunkSizeStart && p.state != ChunkSize
    requires FieldsFit(p) && StateOk(p) && p.flags.chunked
    ensures Safe(OnChunk(p, ch))
  {
    hide Unhex;
  }

  /** One byte from a reachable state: no assert fires and the fields still fit. */
  lemma StepKeepsInv(p: Parser, ch: char)
    requires Inv(p)
    ensures Safe(Step(p, ch))
  {
    hide OnHeaderLine, OnStart, OnMethod, OnHttpVersion, OnUrl, OnStatusLine, OnBody, OnChunk, OnMessageDone;
    if IsHeaderLineState(p.state) || IsChunkLineState(p.state) || IsBodyByteState(p.state) {
      BehindFirstLineSafe(p, ch);
    } else {
      FirstLineSafe(p, ch);
    }
  }

  function CountedByte(p: Parser): Parser { if InHeader(p.state) then p.(nread := p.nread + 1) else p }

  /** Start states, the first line and the end of the message. */
  lemma FirstLineSafe(p: Parser, ch: char)
    requires Inv(p) && !IsHeaderLineState(p.state) && !IsChunkLineState(p.state) && !IsBodyByteState(p.state)
    ensures Safe(Step(p, ch))
  {
    hide OnHeaderLine, OnStart, OnMethod, OnHttpVersion, OnUrl, OnStatusLine, OnBody, OnChunk;
    var q := CountedByte(p);
    if IsStartState(p.state) {
      StartSafe(q, ch);
    } else if IsStatusLineState(p.state) {
      StatusLineSafe(q, ch);
    } else if p.state == ReqMethod {
      MethodSafe(q, ch);
    } else if IsRequestLineState(p.state) {
      HttpVersionSafe(q, ch);
    } else if p.state == ReqSpacesBeforeUrl || IsUrlState(p.state) {
      UrlSafe(q, ch);
    }
  }

  /** Which part of the machine takes a byte behind the first line. */
  lemma StepBehindFirstLine(p: Parser, ch: char)
    requires IsHeaderLineState(p.state) || IsChunkLineState(p.state) || IsBodyByteState(p.state)
    ensures var q := CountedByte(p);
            || Step(p, ch) == Fail(HeaderOverflow)
            || Step(p, ch) == if IsHeaderLineState(p.state) then OnHeaderLine(q, ch)
                              else if IsChunkLineState(p.state) then OnChunk(q, ch) else OnBody(q, ch)
  {
    hide OnHeaderLine, OnStart, OnRequestLine, OnUrl, OnStatusLine, OnBody, OnChunk, OnMessageDone;
  }

  /** Counting a header byte touches nothing but nread. */
  lemma CountedInv(p: Parser)
    requires Inv(p)
    ensures var q := CountedByte(p);
            && q.state == p.state && q.flags == p.flags && FieldsFit(q) && (p.state != ChunkSizeStart ==> StateOk(q))
            && (p.state == ChunkSizeStart ==> q.nread == 1) && (IsBodyByteState(p.state) || IsHeaderLineState(p.state) ==> Inv(q))
            && (IsChunkLineState(p.state) ==> p.flags.chunked)
  {}

  lemma BehindFirstLineSafe(p: Parser, ch: char)
    requires Inv(p) && (IsHeaderLineState(p.state) || IsChunkLineState(p.state) || IsBodyByteState(p.state))
    ensures Safe(Step(p, ch))
  {
    hide Step, OnHeaderLine, OnChunk, OnBody, Inv, FieldsFit, StateOk, CountedByte, IsHeaderLineState, IsChunkLineState,
      IsBodyByteState;
    StepBehindFirstLine(p, ch);
    CountedInv(p);
    var q := CountedByte(p);
    if IsHeaderLineState(p.state) {
      HeaderLineSafe(q, ch);
    } else if IsChunkLineState(p.state) {
      ChunkSafe(q, ch);
    } else {
      BodySafe(q, ch);
    }
  }

  /** Every internal assert holds and every field fits its C type, on every input. */
  lemma {:induction false} NoAssertFires(p: Parser, s: string)
    requires Inv(p)
    ensures Run(p, s).status != Failed(AssertionFailed)
    ensures Inv(Run(p, s).p)
  {
    if s != "" {
      NoAssertFires(p, s[..|s| - 1]);
      if Run(p, s[..|s| - 1]).status == Running {
        hide Step, Inv;
        StepKeepsInv(Run(p, s[..|s| - 1]).p, s[|s| - 1]);
      }
    }
  }
}
