/** Requests as they are printed, and the wrapper's callbacks that build one from what the parser
    reports. */
module HttpRequests {
  import opened Options
  import opened HttpTypes
  import opened HttpMachine
  import opened HttpCallbacks
  import opened HttpExecutor
  import opened HttpFraming
  import opened HttpInvariants
  import U = HttpUrl
  import Forms

  datatype Header = Header(name: string, value: string)

  /** A request that is not a websocket handshake; headers in the order of their map. */
  datatype Message = Message(meth: Method, path: string, query: string, fragment: string, major: nat, minor: nat,
                             close: bool, headers: seq<Header>, body: string)

  // ---- printing ------------------------------------------------------------------------------

  function DigitChar(d: nat): (c: char)
    requires d < 10
    ensures IsNum(c) && Digit(c) == d
  {
    ('0' as int + d) as char
  }

  function DecimalString(n: nat): (s: string)
    ensures s != "" && AllDigits(s)
  {
    if n < 10 then [DigitChar(n)] else DecimalString(n / 10) + [DigitChar(n % 10)]
  }

  lemma {:induction false} DecimalOfString(n: nat)
    ensures var s := DecimalString(n); Decimal(s) == n && Decimal(s[..|s| - 1]) == n / 10
  {
    var s := DecimalString(n);
    if n < 10 {
      assert s[..|s| - 1] == "";
    } else {
      DecimalOfString(n / 10);
      assert s[..|s| - 1] == DecimalString(n / 10);
    }
  }

  function Target(m: Message): string {
    m.path + (if m.query == "" then "" else "?" + m.query) + (if m.fragment == "" then "" else "#" + m.fragment)
  }

  function HeaderLine(name: string, value: string): string { name + ": " + value + "\r\n" }

  /** Own headers that dump leaves out: it prints them itself. */
  predicate Skipped(name: string, body: string) {
    Forms.Fold(name) == "connection" || (body != "" && Forms.Fold(name) == "content-length")
  }

  function HeaderLines(headers: seq<Header>, body: string): string {
    if headers == [] then ""
    else (if Skipped(headers[0].name, body) then "" else HeaderLine(headers[0].name, headers[0].value)) + HeaderLines(headers[1..], body)
  }

  function Connection(m: Message): string { if m.close then "close" else "keep-alive" }

  function Version(m: Message): string
    requires m.major < 10 && m.minor < 10
  {
    "HTTP/" + [DigitChar(m.major)] + "." + [DigitChar(m.minor)] + "\r\n"
  }

  function Tail(body: string): string {
    if body == "" then "\r\n" else HeaderLine("content-length", DecimalString(|body|)) + "\r\n" + body
  }

  /** HttpRequest::dump. */
  function Print(m: Message): string
    requires m.major < 10 && m.minor < 10
  {
    MethodName(m.meth) + " " + (Target(m) + " ") + Version(m) + HeaderLine("connection", Connection(m))
    + HeaderLines(m.headers, m.body) + Tail(m.body)
  }

  // ---- building from callbacks -------------------------------------------------------------------

  /** The request under construction, the last header field, and whether the message is finished. */
  datatype Building = Building(meth: Method, version: nat, path: string, query: string, fragment: string,
                               headers: map<string, Header>, body: string, field: string, finished: bool)

  function NewRequest(): Building { Building(GET, 0x11, "/", "", "", map[], "", "", false) }

  /** m_headers[key] = value, found by the folded key. */
  function SetHeader(headers: map<string, Header>, key: string, value: string): map<string, Header> {
    var k := Forms.Fold(key);
    headers[k := Header(if k in headers then headers[k].name else key, value)]
  }

  function Piece(s: string, u: U.ParsedUrl, f: U.Field, otherwise: string): string {
    if f in u.fields && U.End(u.fields[f]) <= |s| then s[u.fields[f].off..U.End(u.fields[f])] else otherwise
  }

  function OnUrl(b: Building, s: string): Building {
    match U.ParseUrl(s, false)
    case None => b
    case Some(u) =>
      b.(path := Piece(s, u, U.PATH, b.path), query := Piece(s, u, U.QUERY, b.query), fragment := Piece(s, u, U.FRAGMENT, b.fragment))
  }

  /** The one callback that can return something other than 0: a URL that does not come apart. */
  const REFUSES: Event -> bool := (e: Event) => e.Data? && e.kind == Url && U.ParseUrl(e.bytes, false).None?

  function On(b: Building, e: Event): Building {
    match e
    case Data(Url, s) => OnUrl(b, s)
    case Data(Field, s) => b.(field := s)
    case Data(Value, s) => b.(headers := SetHeader(b.headers, b.field, s))
    case Data(Body, s) => b.(body := b.body + s)
    case Data(Status, _) => b
    case Notify(HeadersComplete(h)) => b.(version := (h.major * 16 + h.minor) % 256, meth := h.meth)
    case Notify(MessageComplete) => b.(finished := true)
    case Notify(_) => b
  }

  function Replay(b: Building, events: seq<Event>): Building {
    if events == [] then b else On(Replay(b, events[..|events| - 1]), events[|events| - 1])
  }

  lemma {:induction false} ReplayAppend(b: Building, x: seq<Event>, y: seq<Event>)
    ensures Replay(b, x + y) == Replay(Replay(b, x), y)
  {
    hide On;
    if y == [] {
      assert x + y == x;
    } else {
      ReplayAppend(b, x, y[..|y| - 1]);
      assert (x + y)[..|x + y| - 1] == x + y[..|y| - 1];
    }
  }

  lemma ReplayOne(b: Building, e: Event)
    ensures Replay(b, [e]) == On(b, e)
  {
    assert [e][..0] == [];
  }

  /** The wrapper takes every URL apart as if the method were not CONNECT, and so it refuses every
      target that is in order for CONNECT. */
  lemma ConnectTargetIsRefused(s: string)
    requires U.ParseUrl(s, true).Some?
    ensures REFUSES(Data(Url, s))
  {
    hide U.ParseUrl;
    U.OneMethodOnly(s);
  }

  lemma NothingReplayed(b: Building)
    ensures Replay(b, []) == b
  {}

  lemma BlameFails(t: Trace, e: Errno)
    ensures Blames(t, e) ==> t.status.Failed?
  {}

  // ---- the wrapper as it runs -----------------------------------------------------------------------

  class RequestParser {
    const parser: HttpParser
    var data: Building
    /** An error of the parser, or an upgrade, which the wrapper does not follow. */
    var failed: bool

    constructor (limit: nat)
      ensures fresh(parser) && parser.errno.None? && parser.st == Init(Request, limit) && Inv(parser.st)
      ensures parser.refuses == REFUSES && data == NewRequest() && !failed && parser.log == []
    {
      InitInv(Request, limit);
      parser := new HttpParser(Request, limit, REFUSES);
      data, failed := NewRequest(), false;
    }

    /** One call. It fails exactly on a parser error, an upgrade or a refused URL, now or before. If
        the parser makes no error the callbacks have built up data, up to the refused URL if there
        is one, and on success what was not parsed is left over. */
    method Execute(text: string) returns (n: nat, rest: string)
      requires parser.refuses == REFUSES && (parser.errno.None? ==> Inv(parser.st))
      modifies this, parser
      ensures parser.errno.None? ==> Inv(parser.st)
      ensures old(parser.errno).Some? ==> n == 0 && failed && data == old(data) && parser.errno == old(parser.errno)
      ensures old(parser.errno).None? && text != "" ==>
                var t := Run(old(parser.st), text);
                var x := Reported(old(parser.st).state, t);
                && n <= |text|
                && (failed <==> old(failed) || t.status.Failed? || t.p.upgrade || !Accepted(REFUSES, x))
                && (parser.errno.None? <==> !t.status.Failed? && Accepted(REFUSES, x))
                && (!t.status.Failed? ==> data == Replay(old(data), UpTo(REFUSES, x)))
                && (parser.errno.None? ==> n == t.used && parser.st == t.p && data == Replay(old(data), x))
                && (!failed ==> rest == text[n..])
      ensures old(parser.errno).None? && text == "" ==>
                && parser.st == old(parser.st) && rest == ""
                && (parser.errno.Some? <==> n == 1)
                && (failed <==> old(failed) || parser.st.upgrade || parser.errno.Some?)
                && data == if parser.st.state == BodyIdentityEof then old(data).(finished := true) else old(data)
    {
      hide Run, Reported, Replay, Blames, Accepted, UpTo;
      ghost var st, before := parser.st, parser.errno;
      var seen := |parser.log|;
      ghost var log := parser.log;
      n := parser.Execute(text);
      var events := parser.log[seen..];
      CallBack(events);
      rest := text;
      if parser.st.upgrade || parser.errno.Some? {
        failed := true;
      } else {
        rest := text[n..];
      }
      ghost var t := Run(st, text);
      ghost var x := Reported(st.state, t);
      UpToStops(REFUSES, x);
      if before.None? && text != "" {
        RunUsed(st, text);
        if parser.errno.None? { assert events == x; } else { BlameFails(t, parser.errno.value); }
        if !t.status.Failed? { assert events == UpTo(REFUSES, x); }
      } else if before.Some? {
        assert events == [];
        NothingReplayed(old(data));
      } else if st.state == BodyIdentityEof {
        assert events == [Notify(MessageComplete)];
        ReplayOne(old(data), Notify(MessageComplete));
      } else {
        assert events == [];
        NothingReplayed(old(data));
      }
    }

    /** The callbacks of one call, in order. */
    method CallBack(events: seq<Event>)
      modifies `data
      ensures data == Replay(old(data), events)
    {
      var i := 0;
      while i < |events|
        invariant 0 <= i <= |events| && data == Replay(old(data), events[..i])
      {
        assert events[..i + 1][..i] == events[..i];
        data := On(data, events[i]);
        i := i + 1;
      }
      assert events[..|events|] == events;
    }
  }
}
