/** The vocabulary of the C HTTP parser: its enumerations, its character classes
    and the table of methods (strict build, HTTP_PARSER_STRICT = 1). A byte is a char;
    no table looks further than "128 or above" past ASCII. */
module HttpTypes {
  const ULLONG_MAX: nat := 0xFFFF_FFFF_FFFF_FFFF
  const CR := '\r'
  const LF := '\n'

  datatype ParserType = Request | Response | Both

  datatype State =
    | Dead
    | StartReqOrRes | ResOrRespH
    | StartRes | ResH | ResHT | ResHTT | ResHTTP | ResMajor | ResDot | ResMinor | ResEnd
    | ResFirstStatusCode | ResStatusCode | ResStatusStart | ResStatus | ResLineAlmostDone
    | StartReq | ReqMethod | ReqSpacesBeforeUrl
    | ReqSchema | ReqSchemaSlash | ReqSchemaSlashSlash | ReqServerStart | ReqServer | ReqServerWithAt
    | ReqPath | ReqQueryStart | ReqQuery | ReqFragmentStart | ReqFragment
    | ReqHttpStart | ReqHttpH | ReqHttpHT | ReqHttpHTT | ReqHttpHTTP | ReqHttpI | ReqHttpIC
    | ReqMajor | ReqDot | ReqMinor | ReqEnd | ReqLineAlmostDone
    | HeaderFieldStart | HeaderField | HeaderValueDiscardWs | HeaderValueDiscardWsAlmostDone
    | HeaderValueDiscardLws | HeaderValueStart | HeaderValue | HeaderValueLws | HeaderAlmostDone
    | ChunkSizeStart | ChunkSize | ChunkParameters | ChunkSizeAlmostDone
    | HeadersAlmostDone | HeadersDone
    | ChunkData | ChunkDataAlmostDone | ChunkDataDone
    | BodyIdentity | BodyIdentityEof
    | MessageDone

  datatype HeaderState =
    | General | C | CO | CON
    | MatchingConnection | MatchingProxyConnection | MatchingContentLength
    | MatchingTransferEncoding | MatchingUpgrade
    | Connection | ContentLength | ContentLengthNum | ContentLengthWs | TransferEncoding | Upgrade
    | MatchingChunked | ConnTokenStart | MatchingKeepAlive | MatchingClose | MatchingConnUpgrade | ConnToken
    | Chunked | ConnKeepAlive | ConnClose | ConnUpgrade

  datatype Flags = Flags(chunked: bool, keepAlive: bool, close: bool, connUpgrade: bool,
                         trailing: bool, upgrade: bool, contentLength: bool)
  const NO_FLAGS := Flags(false, false, false, false, false, false, false)

  datatype Method =
    | DELETE | GET | HEAD | POST | PUT | CONNECT | OPTIONS | TRACE
    | COPY | LOCK | MKCOL | MOVE | PROPFIND | PROPPATCH | SEARCH | UNLOCK | BIND | REBIND | UNBIND | ACL
    | REPORT | MKACTIVITY | CHECKOUT | MERGE | MSEARCH | NOTIFY | SUBSCRIBE | UNSUBSCRIBE
    | PATCH | PURGE | MKCALENDAR | LINK | UNLINK | SOURCE

  /** AssertionFailed stands for a C assert that fires. */
  datatype Errno =
    | InvalidEofState | HeaderOverflow | ClosedConnection | InvalidVersion | InvalidStatus | InvalidMethod
    | InvalidUrl | LfExpected | InvalidHeaderToken | InvalidContentLength | UnexpectedContentLength
    | InvalidChunkSize | InvalidConstant | Strict | AssertionFailed | Callback

  function MethodName(m: Method): string {
    match m
    case DELETE => "DELETE" case GET => "GET" case HEAD => "HEAD" case POST => "POST" case PUT => "PUT"
    case CONNECT => "CONNECT" case OPTIONS => "OPTIONS" case TRACE => "TRACE" case COPY => "COPY"
    case LOCK => "LOCK" case MKCOL => "MKCOL" case MOVE => "MOVE" case PROPFIND => "PROPFIND"
    case PROPPATCH => "PROPPATCH" case SEARCH => "SEARCH" case UNLOCK => "UNLOCK" case BIND => "BIND"
    case REBIND => "REBIND" case UNBIND => "UNBIND" case ACL => "ACL" case REPORT => "REPORT"
    case MKACTIVITY => "MKACTIVITY" case CHECKOUT => "CHECKOUT" case MERGE => "MERGE"
    case MSEARCH => "M-SEARCH" case NOTIFY => "NOTIFY" case SUBSCRIBE => "SUBSCRIBE"
    case UNSUBSCRIBE => "UNSUBSCRIBE" case PATCH => "PATCH" case PURGE => "PURGE"
    case MKCALENDAR => "MKCALENDAR" case LINK => "LINK" case UNLINK => "UNLINK" case SOURCE => "SOURCE"
  }

  predicate IsNum(c: char) { '0' <= c <= '9' }
  predicate IsUpper(c: char) { 'A' <= c <= 'Z' }
  predicate IsAlpha(c: char) { IsUpper(c) || 'a' <= c <= 'z' }
  predicate IsAlphaNum(c: char) { IsAlpha(c) || IsNum(c) }
  predicate IsMark(c: char) { c in "-_.!~*'()" }
  predicate IsUserinfoChar(c: char) { IsAlphaNum(c) || IsMark(c) || c in "%;:&=+$," }
  predicate IsHostChar(c: char) { IsAlphaNum(c) || c == '.' || c == '-' }
  predicate IsHex(c: char) { IsNum(c) || 'a' <= c <= 'f' || 'A' <= c <= 'F' }
  predicate IsUrlChar(c: char) { '!' <= c <= '~' && c != '#' && c != '?' }
  predicate IsHeaderChar(c: char) { c == CR || c == LF || c == '\t' || (31 as char < c && c != 127 as char) }

  function Digit(c: char): nat requires IsNum(c) { c as int - '0' as int }

  /** LOWER: sets bit 0x20 of the byte. */
  function Lower(c: char): char {
    var n := c as int;
    if n < 256 && (n / 32) % 2 == 0 then (n + 32) as char else c
  }

  predicate IsTokenMark(c: char) { c in "!#$%&'*+-.^_`|~" }
  predicate IsToken(c: char) { IsAlphaNum(c) || IsTokenMark(c) }

  /** The token table: the lower-cased token character, or NUL. */
  function Token(c: char): char {
    if IsUpper(c) then (c as int + 32) as char else if IsToken(c) then c else '\0'
  }

  /** The unhex table. It has initialisers for 128 entries only, so every byte from 0x80
      on reads as the digit 0. */
  function Unhex(c: char): int {
    if IsNum(c) then c as int - '0' as int
    else if 'a' <= c <= 'f' then c as int - 'a' as int + 10
    else if 'A' <= c <= 'F' then c as int - 'A' as int + 10
    else if c as int < 128 then -1
    else 0
  }
}
