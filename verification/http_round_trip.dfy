/** A request that is printed and then parsed in one call comes back whole. */
module HttpRoundTrip {
  import opened Options
  import opened HttpTypes
  import opened HttpMachine
  import opened HttpCallbacks
  import opened HttpExecutor
  import opened HttpFraming
  import opened HttpInvariants
  import opened HttpRequests
  import opened Seqs
  import U = HttpUrl
  import Forms

  // ---- runs and the callbacks they come to ------------------------------------------------

  const NOTHING := Grouped(NoMark, [])

  /** An empty header value is reported only with the byte after its line. */
  function Pending(p: Parser): seq<Event> { if p.state == HeaderValueDiscardLws then [Data(Value, "")] else [] }

  /** From p over s to q, with the callbacks x. */
  predicate Goes(p: Parser, s: string, q: Parser, x: seq<Event>) {
    var t := Run(p, s);
    var g := Group(NOTHING, t.items);
    t.status == Running && t.p == q && g.mark == NoMark && g.events + Pending(q) == Pending(p) + x
  }

  /** What was called back before stays in front. */
  lemma {:induction false} GroupBehind(e: seq<Event>, m: Mark, f: seq<Event>, items: seq<Item>)
    ensures var g := Group(Grouped(m, f), items);
            Group(Grouped(m, e + f), items) == Grouped(g.mark, e + g.events)
    decreases |items|
  {
    if items != [] {
      var g := Take(Grouped(m, f), items[0]);
      TakeBehind(e, m, f, items[0]);
      GroupBehind(e, g.mark, g.events, items[1..]);
    }
  }

  lemma TakeBehind(e: seq<Event>, m: Mark, f: seq<Event>, item: Item)
    ensures var g := Take(Grouped(m, f), item); Take(Grouped(m, e + f), item) == Grouped(g.mark, e + g.events)
  {
    match item
    case End(k) => if m.Open? && m.kind == k { Assoc(e, f, [Data(k, m.bytes)]); }
    case Note(n) => Assoc(e, f, [Notify(n)]);
    case _ =>
  }

  lemma GoesOn(p: Parser, a: string, q: Parser, x: seq<Event>, b: string, r: Parser, y: seq<Event>)
    requires Goes(p, a, q, x) && Goes(q, b, r, y)
    ensures Goes(p, a + b, r, x + y)
  {
    hide Run, Group, Pending;
    var t, u := Run(p, a), Run(q, b);
    RunAppend(p, a, b);
    GroupAppend(NOTHING, t.items, u.items);
    var e, f := Group(NOTHING, t.items).events, Group(NOTHING, u.items).events;
    assert e + [] == e;
    GroupBehind(e, NoMark, [], u.items);
    Assoc(e, f, Pending(r));
    Assoc(e, Pending(q), y);
    Assoc(Pending(p), x, y);
  }

  /** A run with these items and no mark left open. */
  lemma GoesBy(p: Parser, s: string, q: Parser, items: seq<Item>, x: seq<Event>)
    requires Run(p, s) == Trace(q, items, |s|, Running) && Group(NOTHING, items) == Grouped(NoMark, x)
    requires Pending(p) == [] && Pending(q) == []
    ensures Goes(p, s, q, x)
  {
    hide Run, Group;
  }

  /** The same after what may still be pending. */
  lemma GoesBehind(p: Parser, s: string, q: Parser, items: seq<Item>, x: seq<Event>)
    requires Run(p, s) == Trace(q, PendingItems(p) + items, |s|, Running) && q.state != HeaderValueDiscardLws
    requires Group(Grouped(NoMark, Pending(p)), items) == Grouped(NoMark, Pending(p) + x)
    ensures Goes(p, s, q, x)
  {
    hide Run, Group, PendingItems;
    PendingGrouped(p);
    GroupAppend(NOTHING, PendingItems(p), items);
    assert (Pending(p) + x) + [] == Pending(p) + x;
  }

  function DataItems(k: Kind, s: string): seq<Item> { [Begin(k)] + ByteItems(k, s) + [End(k)] }

  lemma GroupData(k: Kind, s: string, e: seq<Event>)
    ensures Group(Grouped(NoMark, e), DataItems(k, s)) == Grouped(NoMark, e + [Data(k, s)])
  {
    hide Group, ByteItems;
    var g := Grouped(NoMark, e);
    GroupAppend(g, [Begin(k)] + ByteItems(k, s), [End(k)]);
    GroupAppend(g, [Begin(k)], ByteItems(k, s));
    GroupOne(g, Begin(k));
    GroupByteItems(Grouped(Mark.Open(k, ""), e), k, s);
    assert "" + s == s;
    GroupOne(Grouped(Mark.Open(k, s), e), End(k));
  }

  /** Quiet steps, one byte at a time. */
  lemma QuietStep(p: Parser, s: string, q: Parser, ch: char, r: Parser)
    requires Run(p, s) == Trace(q, [], |s|, Running) && Step(q, ch) == Go(r, [])
    ensures Run(p, s + [ch]) == Trace(r, [], |s| + 1, Running)
  {
    hide Run, Step;
    RunSnoc(p, s, ch);
  }

  lemma QuietGoes(p: Parser, s: string, q: Parser)
    requires Run(p, s) == Trace(q, [], |s|, Running) && Pending(p) == [] && Pending(q) == []
    ensures Goes(p, s, q, [])
  {
    hide Run;
  }

  // ---- the request line ----------------------------------------------------------------------

  /** The method the parser holds after i letters of the name of m. */
  function Sofar(m: Method, i: nat): Method {
    match m
    case PUT => if i <= 1 then POST else m
    case PATCH => if i <= 1 then POST else m
    case PROPFIND => if i <= 1 then POST else m
    case PROPPATCH => if i <= 1 then POST else if i <= 4 then PROPFIND else m
    case PURGE => if i <= 1 then POST else if i <= 2 then PUT else m
    case CHECKOUT => if i <= 1 then CONNECT else m
    case COPY => if i <= 2 then CONNECT else m
    case MOVE => if i <= 1 then MKCOL else m
    case MERGE => if i <= 1 then MKCOL else m
    case MSEARCH => if i <= 1 then MKCOL else m
    case MKACTIVITY => if i <= 2 then MKCOL else m
    case MKCALENDAR => if i <= 3 then MKCOL else m
    case SEARCH => if i <= 1 then SUBSCRIBE else m
    case SOURCE => if i <= 1 then SUBSCRIBE else m
    case REBIND => if i <= 2 then REPORT else m
    case LINK => if i <= 1 then LOCK else m
    case UNSUBSCRIBE => if i <= 2 then UNLOCK else m
    case UNBIND => if i <= 2 then UNLOCK else m
    case UNLINK => if i <= 3 then UNLOCK else m
    case _ => m
  }

  /** Every letter of a name takes the parser one letter on in that name. */
  lemma MethodLetter(m: Method, i: nat)
    requires 0 < i < |MethodName(m)|
    ensures var cur, ch := Sofar(m, i), MethodName(m)[i];
            && ch != '\0' && ch != ' ' && i <= |MethodName(cur)|
            && if i < |MethodName(cur)| && MethodName(cur)[i] == ch then Sofar(m, i + 1) == cur
               else (IsUpper(ch) || ch == '-') && Rematch(cur, i, ch) == Some(Sofar(m, i + 1))
  {
    hide MethodName, Sofar, Rematch, IsUpper;
    if Sofar(m, i) == m { OwnLetter(m, i); } else { OtherLetter(m, i); }
  }

  lemma OwnLetter(m: Method, i: nat)
    requires 0 < i < |MethodName(m)| && Sofar(m, i) == m
    ensures Sofar(m, i + 1) == m && MethodName(m)[i] != '\0' && MethodName(m)[i] != ' '
  {
    hide Rematch;
  }

  /** While the parser takes the method for another one. */
  lemma OtherLetter(m: Method, i: nat)
    requires 0 < i < |MethodName(m)| && Sofar(m, i) != m
    ensures var cur, ch := Sofar(m, i), MethodName(m)[i];
            && ch != '\0' && ch != ' ' && i <= |MethodName(cur)|
            && if i < |MethodName(cur)| && MethodName(cur)[i] == ch then Sofar(m, i + 1) == cur
               else (IsUpper(ch) || ch == '-') && Rematch(cur, i, ch) == Some(Sofar(m, i + 1))
  {}

  lemma MethodBegins(m: Method)
    ensures 0 < |MethodName(m)| && FirstMethod(MethodName(m)[0]) == Some(Sofar(m, 1))
    ensures MethodName(m)[0] != CR && MethodName(m)[0] != LF
    ensures Sofar(m, |MethodName(m)|) == m
  {}

  /** After i letters of the method. */
  function InMethod(p: Parser, m: Method, i: nat): Parser {
    p.(flags := NO_FLAGS, contentLength := ULLONG_MAX, meth := Sofar(m, i), index := i, state := ReqMethod, nread := p.nread + i)
  }

  lemma {:induction false} MethodRun(p: Parser, m: Method, i: nat)
    requires p.state == StartReq && 0 < i <= |MethodName(m)| && p.nread + i <= p.limit
    ensures Run(p, MethodName(m)[..i]) == Trace(InMethod(p, m, i), [Note(MessageBegin)], i, Running)
  {
    hide Run, Step, MethodName, Sofar, InMethod;
    var name := MethodName(m);
    MethodBegins(m);
    if i == 1 {
      MethodFirst(p, m);
      RunByte(p, name[0], InMethod(p, m, 1), [Note(MessageBegin)]);
      assert name[..1] == [name[0]];
    } else {
      MethodRun(p, m, i - 1);
      MethodNext(p, m, i - 1);
      RunByte(InMethod(p, m, i - 1), name[i - 1], InMethod(p, m, i), []);
      RunGo(p, name[..i - 1], InMethod(p, m, i - 1), [Note(MessageBegin)], [name[i - 1]], InMethod(p, m, i), []);
      assert name[..i - 1] + [name[i - 1]] == name[..i] && [Note(MessageBegin)] + [] == [Note(MessageBegin)];
    }
  }

  lemma MethodFirst(p: Parser, m: Method)
    requires p.state == StartReq && p.nread + 1 <= p.limit
    ensures MethodName(m) != "" && Step(p, MethodName(m)[0]) == Go(InMethod(p, m, 1), [Note(MessageBegin)])
  {
    hide MethodName, Sofar, FirstMethod;
    MethodBegins(m);
  }

  lemma MethodNext(p: Parser, m: Method, i: nat)
    requires 0 < i < |MethodName(m)| && p.nread + i + 1 <= p.limit
    ensures Step(InMethod(p, m, i), MethodName(m)[i]) == Go(InMethod(p, m, i + 1), [])
  {
    hide MethodName, Sofar, Rematch, IsUpper;
    MethodLetter(m, i);
  }

  lemma MethodEnds(p: Parser, m: Method)
    requires p.nread + |MethodName(m)| + 1 <= p.limit
    ensures var q := InMethod(p, m, |MethodName(m)|);
            Step(q, ' ') == Go(q.(state := ReqSpacesBeforeUrl, index := q.index + 1, nread := q.nread + 1), [])
  {
    hide MethodName, Sofar, Rematch;
    MethodBegins(m);
  }

  /** The fields of a parser that its headers do not touch. */
  predicate SameHead(p: Parser, q: Parser) {
    p.ptype == q.ptype && p.major == q.major && p.minor == q.minor && p.meth == q.meth && p.upgrade == q.upgrade
    && p.lenient == q.lenient && p.limit == q.limit
  }

  lemma MethodGoes(p: Parser, m: Method)
    requires p.state == StartReq && p.nread + |MethodName(m)| + 1 <= p.limit
    ensures var s := MethodName(m) + " ";
            var q := p.(flags := NO_FLAGS, contentLength := ULLONG_MAX, meth := m, index := |s|, state := ReqSpacesBeforeUrl,
                        nread := p.nread + |s|);
            Goes(p, s, q, [Notify(MessageBegin)])
  {
    hide Goes, Run, Step, MethodName, Sofar, Group;
    var name := MethodName(m);
    var q := InMethod(p, m, |name|);
    var r := q.(state := ReqSpacesBeforeUrl, index := q.index + 1, nread := q.nread + 1);
    MethodBegins(m);
    MethodRun(p, m, |name|);
    assert name[..|name|] == name;
    MethodEnds(p, m);
    RunByte(q, ' ', r, []);
    RunGo(p, name, q, [Note(MessageBegin)], " ", r, []);
    assert [Note(MessageBegin)] + [] == [Note(MessageBegin)];
    GroupOne(NOTHING, Note(MessageBegin));
    assert [] + [Notify(MessageBegin)] == [Notify(MessageBegin)];
    GoesBy(p, name + " ", r, [Note(MessageBegin)], [Notify(MessageBegin)]);
  }

  // ---- the target --------------------------------------------------------------------------------

  predicate UrlChars(s: string) { forall i | 0 <= i < |s| :: IsUrlChar(s[i]) }
  predicate QueryChars(s: string) { forall i | 0 <= i < |s| :: IsUrlChar(s[i]) || s[i] == '?' }
  predicate FragmentChars(s: string) { forall i | 0 <= i < |s| :: IsUrlChar(s[i]) || s[i] == '?' || s[i] == '#' }

  predicate GoodTarget(m: Message) {
    && m.path != "" && m.path[0] == '/' && UrlChars(m.path) && QueryChars(m.query)
    && FragmentChars(m.fragment) && (m.fragment != "" ==> m.fragment[0] != '#')
  }

  predicate Plain(s: State) { s.ReqPath? || s.ReqQueryStart? || s.ReqQuery? || s.ReqFragmentStart? || s.ReqFragment? }

  /** The first n bytes are taken apart without leaving path, query and fragment. */
  predicate AllPlain(buf: string, n: nat)
    requires n <= |buf|
  {
    forall i | 0 < i <= n :: U.OuterRun(buf, i, false).Some? && Plain(U.OuterRun(buf, i, false).value.s)
  }

  /** One byte in a state that keeps to its field, or begins it. */
  lemma FieldByte(buf: string, n: nat, o: U.Outer, st: State, f: U.Field)
    requires n < |buf| && U.OuterRun(buf, n, false) == Some(o) && ParseUrlChar(o.s, buf[n]) == st
    requires Plain(st) && U.FieldOf(st) == Some(f) && (n > 0 ==> AllPlain(buf, n))
    ensures AllPlain(buf, n + 1)
    ensures U.OuterRun(buf, n + 1, false) ==
            Some(U.Outer(st, Some(f), o.foundAt,
                         o.fields[f := if o.last == Some(f) && f in o.fields then U.Longer(o.fields[f]) else U.Span(n, 1)]))
  {
    hide ParseUrlChar, U.FieldOf;
    assert st != ReqServerWithAt && st != Dead;
  }

  /** One delimiter. */
  lemma DelimiterByte(buf: string, n: nat, o: U.Outer, st: State)
    requires n < |buf| && U.OuterRun(buf, n, false) == Some(o) && ParseUrlChar(o.s, buf[n]) == st
    requires Plain(st) && U.FieldOf(st) == None && AllPlain(buf, n)
    ensures AllPlain(buf, n + 1) && U.OuterRun(buf, n + 1, false) == Some(o.(s := st))
  {
    hide ParseUrlChar, U.FieldOf;
    assert st != Dead;
  }

  lemma {:induction false} PathPart(buf: string, n: nat)
    requires 0 < n <= |buf| && buf[0] == '/' && forall i | 0 <= i < n :: IsUrlChar(buf[i])
    ensures AllPlain(buf, n)
    ensures U.OuterRun(buf, n, false) == Some(U.Outer(ReqPath, Some(U.PATH), false, map[U.PATH := U.Span(0, n)]))
  {
    hide AllPlain, U.OuterByte;
    if n == 1 {
      NothingRun(buf);
      FieldByte(buf, 0, U.OuterStart(false), ReqPath, U.PATH);
    } else {
      PathPart(buf, n - 1);
      FieldByte(buf, n - 1, U.Outer(ReqPath, Some(U.PATH), false, map[U.PATH := U.Span(0, n - 1)]), ReqPath, U.PATH);
      assert map[U.PATH := U.Span(0, n - 1)][U.PATH := U.Span(0, n)] == map[U.PATH := U.Span(0, n)];
    }
  }

  lemma NothingRun(buf: string)
    ensures U.OuterRun(buf, 0, false) == Some(U.OuterStart(false)) && AllPlain(buf, 0)
  {}

  /** The bytes of a field whose delimiter was at a - 1; from is the state behind the delimiter. */
  lemma {:induction false} FieldPart(buf: string, a: nat, n: nat, o: U.Outer, st: State, f: U.Field)
    requires a < n <= |buf| && U.OuterRun(buf, a, false) == Some(o) && AllPlain(buf, a) && f !in o.fields
    requires Plain(st) && U.FieldOf(st) == Some(f) && ParseUrlChar(o.s, buf[a]) == st
    requires forall i | a < i < n :: ParseUrlChar(st, buf[i]) == st
    ensures AllPlain(buf, n)
    ensures U.OuterRun(buf, n, false) == Some(U.Outer(st, Some(f), o.foundAt, o.fields[f := U.Span(a, n - a)]))
  {
    hide AllPlain, U.OuterByte, ParseUrlChar, U.FieldOf, U.OuterRun;
    if n == a + 1 {
      FieldByte(buf, a, o, st, f);
    } else {
      FieldPart(buf, a, n - 1, o, st, f);
      FieldByte(buf, n - 1, U.Outer(st, Some(f), o.foundAt, o.fields[f := U.Span(a, n - 1 - a)]), st, f);
      assert o.fields[f := U.Span(a, n - 1 - a)][f := U.Span(a, n - a)] == o.fields[f := U.Span(a, n - a)];
    }
  }

  /** Path, query and fragment of a target, where they are. */
  function Spans(m: Message): map<U.Field, U.Span> {
    var fields := map[U.PATH := U.Span(0, |m.path|)];
    var q := if m.query == "" then fields else fields[U.QUERY := U.Span(|m.path| + 1, |m.query|)];
    if m.fragment == "" then q else q[U.FRAGMENT := U.Span(|Target(m)| - |m.fragment|, |m.fragment|)]
  }

  lemma QueryPart(buf: string, a: nat, n: nat, o: U.Outer)
    requires a + 1 < n <= |buf| && U.OuterRun(buf, a, false) == Some(o) && AllPlain(buf, a) && 0 < a
    requires o.s == ReqPath && U.QUERY !in o.fields && buf[a] == '?' && QueryChars(buf[a + 1..n])
    ensures AllPlain(buf, n)
    ensures U.OuterRun(buf, n, false) == Some(U.Outer(ReqQuery, Some(U.QUERY), o.foundAt, o.fields[U.QUERY := U.Span(a + 1, n - a - 1)]))
  {
    hide AllPlain, U.OuterRun;
    DelimiterByte(buf, a, o, ReqQueryStart);
    forall i | a < i < n ensures IsUrlChar(buf[i]) || buf[i] == '?' {
      assert buf[i] == buf[a + 1..n][i - a - 1];
    }
    FieldPart(buf, a + 1, n, o.(s := ReqQueryStart), ReqQuery, U.QUERY);
  }

  lemma FragmentPart(buf: string, a: nat, n: nat, o: U.Outer)
    requires a + 1 < n <= |buf| && U.OuterRun(buf, a, false) == Some(o) && AllPlain(buf, a) && 0 < a
    requires (o.s == ReqPath || o.s == ReqQuery) && U.FRAGMENT !in o.fields
    requires buf[a] == '#' && FragmentChars(buf[a + 1..n]) && buf[a + 1] != '#'
    ensures AllPlain(buf, n)
    ensures U.OuterRun(buf, n, false) ==
            Some(U.Outer(ReqFragment, Some(U.FRAGMENT), o.foundAt, o.fields[U.FRAGMENT := U.Span(a + 1, n - a - 1)]))
  {
    hide AllPlain, U.OuterRun;
    DelimiterByte(buf, a, o, ReqFragmentStart);
    forall i | a < i < n ensures IsUrlChar(buf[i]) || buf[i] == '?' || buf[i] == '#' {
      assert buf[i] == buf[a + 1..n][i - a - 1];
    }
    FieldPart(buf, a + 1, n, o.(s := ReqFragmentStart), ReqFragment, U.FRAGMENT);
  }

  /** Where the parts of a target are. */
  lemma TargetSlices(m: Message)
    ensures var t, n := Target(m), |m.path|;
            var k := if m.query == "" then n else n + 1 + |m.query|;
            && k <= |t| && t[..n] == m.path
            && (m.query != "" ==> t[n] == '?' && t[n + 1..k] == m.query)
            && (m.fragment == "" ==> |t| == k)
            && (m.fragment != "" ==> |t| == k + 1 + |m.fragment| && t[k] == '#' && t[k + 1] == m.fragment[0] && t[k + 1..] == m.fragment)
  {
    var q := if m.query == "" then "" else "?" + m.query;
    var f := if m.fragment == "" then "" else "#" + m.fragment;
    var t, n := Target(m), |m.path|;
    assert t == m.path + q + f;
    assert t[n..n + |q|] == q && t[n + |q|..] == f;
    if m.query != "" { assert q[1..] == m.query && t[n + 1..n + |q|] == q[1..] && t[n] == q[0]; }
    if m.fragment != "" { assert f[1..] == m.fragment && t[n + |q| + 1..] == f[1..] && t[n + |q|] == f[0]; }
  }

  lemma TargetParts(m: Message)
    requires GoodTarget(m)
    ensures var t := Target(m);
            && t != "" && AllPlain(t, |t|)
            && exists s, last :: U.OuterRun(t, |t|, false) == Some(U.Outer(s, last, false, Spans(m)))
  {
    hide AllPlain, U.OuterRun, UrlChars, QueryChars, FragmentChars, Target;
    var t := Target(m);
    var n := |m.path|;
    TargetSlices(m);
    PathIn(m);
    PathPart(t, n);
    var o := U.Outer(ReqPath, Some(U.PATH), false, map[U.PATH := U.Span(0, n)]);
    var k := n;
    if m.query != "" {
      k := n + 1 + |m.query|;
      QueryPart(t, n, k, o);
      o := U.Outer(ReqQuery, Some(U.QUERY), false, o.fields[U.QUERY := U.Span(n + 1, |m.query|)]);
    }
    if m.fragment != "" {
      assert t[k + 1..|t|] == t[k + 1..];
      FragmentPart(t, k, |t|, o);
      o := U.Outer(ReqFragment, Some(U.FRAGMENT), false, o.fields[U.FRAGMENT := U.Span(k + 1, |m.fragment|)]);
    }
    assert o.fields == Spans(m);
  }

  lemma PathIn(m: Message)
    requires GoodTarget(m)
    ensures forall i | 0 <= i < |m.path| :: IsUrlChar(Target(m)[i]) && Target(m)[i] == m.path[i]
  {}

  /** http_parser_parse_url gives the three parts back. */
  lemma TargetComesApart(m: Message)
    requires GoodTarget(m)
    ensures U.ParseUrl(Target(m), false) == Some(U.ParsedUrl(Spans(m), 0))
    ensures var t := Target(m);
            && |t| >= |m.path| && t[..|m.path|] == m.path
            && (m.query != "" ==> |t| >= |m.path| + 1 + |m.query| && t[|m.path| + 1..|m.path| + 1 + |m.query|] == m.query)
            && (m.fragment != "" ==> |t| >= |m.fragment| && t[|t| - |m.fragment|..] == m.fragment)
  {
    hide U.OuterRun, AllPlain, Target, UrlChars, QueryChars, FragmentChars;
    TargetParts(m);
    TargetSlices(m);
  }

  /** What the building request makes of the target. */
  lemma TargetIsSet(b: Building, m: Message)
    requires GoodTarget(m) && b.query == "" && b.fragment == ""
    ensures On(b, Data(Url, Target(m))) == b.(path := m.path, query := m.query, fragment := m.fragment)
  {
    hide U.ParseUrl, GoodTarget, Piece, Target, Spans;
    TargetComesApart(m);
    PathPiece(m, b.path);
    QueryPiece(m);
    FragmentPiece(m);
  }

  lemma PathPiece(m: Message, otherwise: string)
    requires |Target(m)| >= |m.path| && Target(m)[..|m.path|] == m.path
    ensures Piece(Target(m), U.ParsedUrl(Spans(m), 0), U.PATH, otherwise) == m.path
  {
    hide Target;
    var t := Target(m);
    assert t[0..|m.path|] == t[..|m.path|];
  }

  lemma QueryPiece(m: Message)
    requires m.query != "" ==> |Target(m)| >= |m.path| + 1 + |m.query| && Target(m)[|m.path| + 1..|m.path| + 1 + |m.query|] == m.query
    ensures Piece(Target(m), U.ParsedUrl(Spans(m), 0), U.QUERY, "") == m.query
  {
    hide Target;
  }

  lemma FragmentPiece(m: Message)
    requires m.fragment != "" ==> |Target(m)| >= |m.fragment| && Target(m)[|Target(m)| - |m.fragment|..] == m.fragment
    ensures Piece(Target(m), U.ParsedUrl(Spans(m), 0), U.FRAGMENT, "") == m.fragment
  {
    hide Target;
    var t := Target(m);
    if m.fragment != "" { assert t[|t| - |m.fragment|..|t|] == t[|t| - |m.fragment|..]; }
  }

  /** The parser goes through the target as the URL automaton does. */
  lemma {:induction false} TargetRun(p: Parser, buf: string, n: nat)
    requires p.state == ReqSpacesBeforeUrl && p.meth != CONNECT && 0 < n <= |buf| && AllPlain(buf, n) && p.nread + n <= p.limit
    ensures U.OuterRun(buf, n, false).Some?
    ensures Run(p, buf[..n]) == Trace(p.(state := U.OuterRun(buf, n, false).value.s, nread := p.nread + n),
                                      [Begin(Url)] + ByteItems(Url, buf[..n]), n, Running)
  {
    hide Run, Step, U.OuterByte, ByteItems, U.FieldOf;
    assert U.OuterRun(buf, n, false).Some? && Plain(U.OuterRun(buf, n, false).value.s);
    var s := U.OuterRun(buf, n, false).value.s;
    OuterState(buf, n);
    if n == 1 {
      NothingRun(buf);
      UrlFirst(p, buf[0], s);
      RunByte(p, buf[0], p.(state := s, nread := p.nread + 1), [Begin(Url), Byte(Url, buf[0])]);
      assert buf[..1] == [buf[0]];
      OneByteItem(Url, buf[0]);
      assert [Begin(Url), Byte(Url, buf[0])] == [Begin(Url)] + [Byte(Url, buf[0])];
    } else {
      assert U.OuterRun(buf, n - 1, false).Some? && Plain(U.OuterRun(buf, n - 1, false).value.s);
      TargetRun(p, buf, n - 1);
      var q := p.(state := U.OuterRun(buf, n - 1, false).value.s, nread := p.nread + n - 1);
      UrlNext(q, buf[n - 1], s);
      RunByte(q, buf[n - 1], q.(state := s, nread := q.nread + 1), [Byte(Url, buf[n - 1])]);
      RunGo(p, buf[..n - 1], q, [Begin(Url)] + ByteItems(Url, buf[..n - 1]), [buf[n - 1]],
            q.(state := s, nread := q.nread + 1), [Byte(Url, buf[n - 1])]);
      assert buf[..n - 1] + [buf[n - 1]] == buf[..n];
      ByteItemsSnoc(Url, buf[..n - 1], buf[n - 1]);
      Assoc([Begin(Url)], ByteItems(Url, buf[..n - 1]), [Byte(Url, buf[n - 1])]);
    }
  }

  lemma ByteItemsSnoc(k: Kind, s: string, b: char)
    ensures ByteItems(k, s + [b]) == ByteItems(k, s) + [Byte(k, b)]
  {
    assert (s + [b])[..|s + [b]| - 1] == s;
  }

  lemma OneByteItem(k: Kind, b: char)
    ensures ByteItems(k, [b]) == [Byte(k, b)]
  {
    ByteItemsSnoc(k, "", b);
    assert "" + [b] == [b] && ByteItems(k, "") == [];
  }

  /** The automaton's state after byte n - 1 is the one ParseUrlChar gives. */
  lemma OuterState(buf: string, n: nat)
    requires 0 < n <= |buf| && U.OuterRun(buf, n, false).Some?
    ensures U.OuterRun(buf, n - 1, false).Some?
    ensures U.OuterRun(buf, n, false).value.s == ParseUrlChar(U.OuterRun(buf, n - 1, false).value.s, buf[n - 1])
  {
    hide ParseUrlChar;
  }

  lemma UrlFirst(p: Parser, ch: char, s: State)
    requires p.state == ReqSpacesBeforeUrl && p.meth != CONNECT && p.nread + 1 <= p.limit
    requires s == ParseUrlChar(ReqSpacesBeforeUrl, ch) && Plain(s)
    ensures Step(p, ch) == Go(p.(state := s, nread := p.nread + 1), [Begin(Url), Byte(Url, ch)])
  {
    assert ch != ' ';
    assert [Begin(Url)] + [Byte(Url, ch)] == [Begin(Url), Byte(Url, ch)];
  }

  lemma UrlNext(p: Parser, ch: char, s: State)
    requires Plain(p.state) && p.nread + 1 <= p.limit && s == ParseUrlChar(p.state, ch) && Plain(s)
    ensures Step(p, ch) == Go(p.(state := s, nread := p.nread + 1), [Byte(Url, ch)])
  {
    assert ch != ' ' && ch != CR && ch != LF;
    assert [] + [Byte(Url, ch)] == [Byte(Url, ch)];
  }

  lemma TargetGoes(p: Parser, m: Message)
    requires p.state == ReqSpacesBeforeUrl && p.meth != CONNECT && GoodTarget(m) && p.nread + |Target(m)| + 1 <= p.limit
    ensures Goes(p, Target(m) + " ", p.(state := ReqHttpStart, nread := p.nread + |Target(m)| + 1), [Data(Url, Target(m))])
  {
    hide Run, Step, Group, ByteItems, U.OuterRun, AllPlain, GoodTarget, Target;
    var t := Target(m);
    TargetParts(m);
    PlainAtEnd(t);
    TargetRun(p, t, |t|);
    assert t[..|t|] == t;
    var q := p.(state := U.OuterRun(t, |t|, false).value.s, nread := p.nread + |t|);
    var r := p.(state := ReqHttpStart, nread := p.nread + |t| + 1);
    BlankEndsUrl(q);
    RunByte(q, ' ', r, [End(Url)]);
    RunGo(p, t, q, [Begin(Url)] + ByteItems(Url, t), " ", r, [End(Url)]);
    GroupData(Url, t, []);
    assert [] + [Data(Url, t)] == [Data(Url, t)];
    GoesBy(p, t + " ", r, DataItems(Url, t), [Data(Url, t)]);
  }

  lemma PlainAtEnd(t: string)
    requires t != "" && AllPlain(t, |t|)
    ensures U.OuterRun(t, |t|, false).Some? && Plain(U.OuterRun(t, |t|, false).value.s)
  {}

  lemma BlankEndsUrl(q: Parser)
    requires Plain(q.state) && q.nread + 1 <= q.limit
    ensures Step(q, ' ') == Go(q.(state := ReqHttpStart, nread := q.nread + 1), [End(Url)])
  {}

  // ---- the version --------------------------------------------------------------------------------

  predicate VersionMove(st: State, ch: char, next: State) {
    || (st == ReqHttpStart && ch == 'H' && next == ReqHttpH)
    || (st == ReqHttpH && ch == 'T' && next == ReqHttpHT)
    || (st == ReqHttpHT && ch == 'T' && next == ReqHttpHTT)
    || (st == ReqHttpHTT && ch == 'P' && next == ReqHttpHTTP)
    || (st == ReqHttpHTTP && ch == '/' && next == ReqMajor)
    || (st == ReqDot && ch == '.' && next == ReqMinor)
    || (st == ReqEnd && ch == CR && next == ReqLineAlmostDone)
    || (st == ReqLineAlmostDone && ch == LF && next == HeaderFieldStart)
  }

  /** In the version, n bytes behind p. */
  function InVersion(p: Parser, st: State, major: nat, minor: nat, n: nat): Parser {
    p.(state := st, major := major, minor := minor, nread := p.nread + n)
  }

  lemma VersionByte(p: Parser, s: string, k: nat, st: State, next: State, major: nat, minor: nat)
    requires k < |s| && p.nread + k + 1 <= p.limit && VersionMove(st, s[k], next)
    requires Run(p, s[..k]) == Trace(InVersion(p, st, major, minor, k), [], k, Running)
    ensures Run(p, s[..k + 1]) == Trace(InVersion(p, next, major, minor, k + 1), [], k + 1, Running)
  {
    hide Run, Step;
    VersionStep(p, s[k], k, st, next, major, minor);
    QuietAt(p, s, k, InVersion(p, st, major, minor, k), InVersion(p, next, major, minor, k + 1));
  }

  lemma VersionStep(p: Parser, ch: char, k: nat, st: State, next: State, major: nat, minor: nat)
    requires p.nread + k + 1 <= p.limit && VersionMove(st, ch, next)
    ensures Step(InVersion(p, st, major, minor, k), ch) == Go(InVersion(p, next, major, minor, k + 1), [])
  {
    hide OnMethod, OnHeaderLine, HttpMachine.OnUrl, OnStart, OnStatusLine, OnChunk, OnBody, OnMessageDone;
  }

  lemma VersionDigit(p: Parser, d: nat)
    requires p.nread + 1 <= p.limit && d < 10
    ensures p.state == ReqMajor ==> Step(p, DigitChar(d)) == Go(p.(major := d, state := ReqDot, nread := p.nread + 1), [])
    ensures p.state == ReqMinor ==> Step(p, DigitChar(d)) == Go(p.(minor := d, state := ReqEnd, nread := p.nread + 1), [])
  {
    hide OnMethod, OnHeaderLine, HttpMachine.OnUrl, OnStart, OnStatusLine, OnChunk, OnBody, OnMessageDone;
  }

  lemma MajorByte(p: Parser, s: string, major: nat)
    requires 5 < |s| && p.nread + 6 <= p.limit && major < 10 && s[5] == DigitChar(major)
    requires Run(p, s[..5]) == Trace(InVersion(p, ReqMajor, p.major, p.minor, 5), [], 5, Running)
    ensures Run(p, s[..6]) == Trace(InVersion(p, ReqDot, major, p.minor, 6), [], 6, Running)
  {
    hide Run, Step;
    VersionDigit(InVersion(p, ReqMajor, p.major, p.minor, 5), major);
    QuietAt(p, s, 5, InVersion(p, ReqMajor, p.major, p.minor, 5), InVersion(p, ReqDot, major, p.minor, 6));
  }

  lemma MinorByte(p: Parser, s: string, major: nat, minor: nat)
    requires 7 < |s| && p.nread + 8 <= p.limit && minor < 10 && s[7] == DigitChar(minor)
    requires Run(p, s[..7]) == Trace(InVersion(p, ReqMinor, major, p.minor, 7), [], 7, Running)
    ensures Run(p, s[..8]) == Trace(InVersion(p, ReqEnd, major, minor, 8), [], 8, Running)
  {
    hide Run, Step;
    VersionDigit(InVersion(p, ReqMinor, major, p.minor, 7), minor);
    QuietAt(p, s, 7, InVersion(p, ReqMinor, major, p.minor, 7), InVersion(p, ReqEnd, major, minor, 8));
  }

  lemma VersionGoes(p: Parser, m: Message)
    requires p.state == ReqHttpStart && m.major < 10 && m.minor < 10 && p.nread + 10 <= p.limit
    ensures |Version(m)| == 10
    ensures Goes(p, Version(m), p.(state := HeaderFieldStart, major := m.major, minor := m.minor, nread := p.nread + 10), [])
  {
    hide Run, Step;
    var s := Version(m);
    var end := p.(state := HeaderFieldStart, major := m.major, minor := m.minor, nread := p.nread + 10);
    SlashRun(p, s);
    NumbersRun(p, s, m.major, m.minor);
    assert s[..10] == s;
    QuietGoes(p, s, end);
  }

  lemma SlashRun(p: Parser, s: string)
    requires p.state == ReqHttpStart && p.nread + 10 <= p.limit
    requires |s| == 10 && s[0] == 'H' && s[1] == 'T' && s[2] == 'T' && s[3] == 'P' && s[4] == '/'
    ensures Run(p, s[..5]) == Trace(InVersion(p, ReqMajor, p.major, p.minor, 5), [], 5, Running)
  {
    hide Run, Step, InVersion;
    assert s[..0] == "";
    RunEmpty(p);
    VersionStarts(p);
    VersionByte(p, s, 0, ReqHttpStart, ReqHttpH, p.major, p.minor);
    VersionByte(p, s, 1, ReqHttpH, ReqHttpHT, p.major, p.minor);
    VersionByte(p, s, 2, ReqHttpHT, ReqHttpHTT, p.major, p.minor);
    VersionByte(p, s, 3, ReqHttpHTT, ReqHttpHTTP, p.major, p.minor);
    VersionByte(p, s, 4, ReqHttpHTTP, ReqMajor, p.major, p.minor);
  }

  lemma VersionStarts(p: Parser)
    requires p.state == ReqHttpStart
    ensures p == InVersion(p, ReqHttpStart, p.major, p.minor, 0)
  {}

  lemma NumbersRun(p: Parser, s: string, major: nat, minor: nat)
    requires |s| == 10 && p.nread + 10 <= p.limit && major < 10 && minor < 10
    requires Run(p, s[..5]) == Trace(InVersion(p, ReqMajor, p.major, p.minor, 5), [], 5, Running)
    requires s[5] == DigitChar(major) && s[6] == '.' && s[7] == DigitChar(minor) && s[8] == CR && s[9] == LF
    ensures Run(p, s[..10]) == Trace(InVersion(p, HeaderFieldStart, major, minor, 10), [], 10, Running)
  {
    hide Run, Step, InVersion, DigitChar;
    MajorByte(p, s, major);
    VersionByte(p, s, 6, ReqDot, ReqMinor, major, p.minor);
    MinorByte(p, s, major, minor);
    VersionByte(p, s, 8, ReqEnd, ReqLineAlmostDone, major, minor);
    VersionByte(p, s, 9, ReqLineAlmostDone, HeaderFieldStart, major, minor);
  }

  lemma QuietAt(p: Parser, s: string, k: nat, q: Parser, r: Parser)
    requires k < |s| && Run(p, s[..k]) == Trace(q, [], k, Running) && Step(q, s[k]) == Go(r, [])
    ensures Run(p, s[..k + 1]) == Trace(r, [], k + 1, Running)
  {
    hide Run, Step;
    QuietStep(p, s[..k], q, s[k], r);
    assert s[..k] + [s[k]] == s[..k + 1];
  }

  // ---- header names -------------------------------------------------------------------------------

  predicate IsName(s: string) { s != "" && forall i | 0 <= i < |s| :: IsToken(s[i]) }

  /** The name matcher after a name. */
  function NameState(s: string): (r: (HeaderState, nat))
    requires IsName(s)
    ensures NameIndexOk(r.0, r.1) && IsNameState(r.0)
  {
    var c := Token(s[|s| - 1]);
    if |s| == 1 then (FirstOfName(c), 0)
    else
      var (hs, index) := NameState(s[..|s| - 1]);
      NameByteOk(hs, index, c);
      NameByte(hs, index, c)
  }

  function Low(s: string): string { if s == "" then "" else Low(s[..|s| - 1]) + [Token(s[|s| - 1])] }

  /** What the state of the matcher says about the name so far. */
  predicate NameMeans(hs: HeaderState, index: nat, low: string) {
    match hs
    case C => low == "c" && index == 0
    case CO => low == "co" && index == 1
    case CON => low == "con" && index == 2
    case MatchingConnection => Begun("connection", index, low)
    case MatchingProxyConnection => Begun("proxy-connection", index, low)
    case MatchingContentLength => Begun("content-length", index, low)
    case MatchingTransferEncoding => Begun("transfer-encoding", index, low)
    case MatchingUpgrade => Begun("upgrade", index, low)
    case Connection => low == "connection" || low == "proxy-connection"
    case ContentLength => low == "content-length"
    case TransferEncoding => low == "transfer-encoding"
    case Upgrade => low == "upgrade"
    case _ => true
  }

  predicate Begun(word: string, index: nat, low: string) { |low| == index + 1 < |word| && low == word[..index + 1] }

  lemma FirstMeans(c: char)
    ensures NameMeans(FirstOfName(c), 0, [c])
  {}

  lemma MatchMeans(word: string, index: nat, c: char, low: string, matching: HeaderState, done: HeaderState)
    requires Begun(word, index, low) && matching != done && matching != General && done != General
    ensures var hs := Match(word, index + 1, c, matching, done, General);
            && (hs == matching ==> Begun(word, index + 1, low + [c]))
            && (hs == done ==> low + [c] == word)
            && (hs == matching || hs == done || hs == General)
  {
    if index + 1 < |word| && c == word[index + 1] { assert word[..index + 2] == word[..index + 1] + [c]; }
    if index + 2 == |word| { assert word[..|word|] == word; }
  }

  lemma NameStep(hs: HeaderState, index: nat, c: char, low: string)
    requires IsNameState(hs) && NameMeans(hs, index, low)
    ensures var (next, i) := NameByte(hs, index, c); NameMeans(next, i, low + [c])
  {
    match hs
    case MatchingConnection => MatchMeans("connection", index, c, low, hs, Connection);
    case MatchingProxyConnection => MatchMeans("proxy-connection", index, c, low, hs, Connection);
    case MatchingContentLength => MatchMeans("content-length", index, c, low, hs, ContentLength);
    case MatchingTransferEncoding => MatchMeans("transfer-encoding", index, c, low, hs, TransferEncoding);
    case MatchingUpgrade => MatchMeans("upgrade", index, c, low, hs, Upgrade);
    case _ =>
  }

  lemma {:induction false} NameIsKnown(s: string)
    requires IsName(s)
    ensures NameMeans(NameState(s).0, NameState(s).1, Low(s))
  {
    hide NameMeans, NameByte, FirstOfName, Token;
    var c := Token(s[|s| - 1]);
    if |s| == 1 {
      assert s[..0] == "" && Low("") == "" && "" + [c] == [c];
      FirstMeans(c);
    } else {
      NameIsKnown(s[..|s| - 1]);
      var (hs, index) := NameState(s[..|s| - 1]);
      NameStep(hs, index, c, Low(s[..|s| - 1]));
    }
  }

  predicate Special(hs: HeaderState) { hs.Connection? || hs.ContentLength? || hs.TransferEncoding? || hs.Upgrade? }

  predicate SpecialName(low: string) {
    low == "connection" || low == "proxy-connection" || low == "content-length" || low == "transfer-encoding" || low == "upgrade"
  }

  /** Only the five names that matter to the parser make its matcher end in a state that matters. */
  lemma OrdinaryName(s: string)
    requires IsName(s) && !SpecialName(Forms.Fold(s))
    ensures !Special(NameState(s).0)
  {
    hide Low, Forms.Fold, NameState, IsToken, Begun;
    NameIsKnown(s);
    LowIsFold(s);
  }

  lemma {:induction false} LowIsFold(s: string)
    requires forall i | 0 <= i < |s| :: IsToken(s[i])
    ensures Low(s) == Forms.Fold(s)
  {
    if s != "" {
      LowIsFold(s[1..]);
      LowCons(s);
      assert s[0] != '\0';
    }
  }

  lemma {:induction false} LowCons(s: string)
    requires s != ""
    ensures Low(s) == [Token(s[0])] + Low(s[1..])
  {
    hide Token;
    if |s| == 1 {
      assert s[..0] == "" && s[1..] == "" && Low("") == "";
    } else {
      LowCons(s[..|s| - 1]);
      assert s[..|s| - 1][1..] == s[1..][..|s| - 2] && s[1..][|s| - 2] == s[|s| - 1];
      assert Low(s[1..]) == Low(s[1..][..|s| - 2]) + [Token(s[|s| - 1])];
    }
  }

  predicate IsPlain(c: char) { 'a' <= c <= 'z' || c == '-' }

  lemma PlainToken(c: char)
    requires IsPlain(c)
    ensures IsToken(c) && Token(c) == c
  {}

  /** One more letter of a name in lower case. */
  lemma NameLonger(w: string, k: nat)
    requires 1 < k <= |w| && IsName(w[..k - 1]) && IsPlain(w[k - 1])
    ensures IsName(w[..k])
    ensures var (hs, index) := NameState(w[..k - 1]); NameState(w[..k]) == NameByte(hs, index, w[k - 1])
  {
    hide NameByte, Token, FirstOfName, IsToken;
    PlainToken(w[k - 1]);
    assert w[..k][..k - 1] == w[..k - 1];
  }

  lemma NameOfOne(w: string)
    requires w != "" && IsPlain(w[0])
    ensures IsName(w[..1]) && NameState(w[..1]) == (FirstOfName(w[0]), 0)
  {
    hide Token, FirstOfName, IsToken;
    PlainToken(w[0]);
  }

  /** The matcher after k letters of "connection". */
  function ConnectionAt(k: nat): HeaderState {
    if k == 1 then C else if k == 2 then CO else if k == 3 then CON else if k < 10 then MatchingConnection else Connection
  }

  lemma {:induction false} ConnectionName(k: nat)
    requires 0 < k <= 10
    ensures IsName("connection"[..k]) && NameState("connection"[..k]) == (ConnectionAt(k), k - 1)
  {
    hide IsName, NameState, NameByte, FirstOfName, ConnectionAt;
    var w := "connection";
    ConnectionLetter(k);
    if k == 1 {
      NameOfOne(w);
    } else {
      ConnectionName(k - 1);
      NameLonger(w, k);
    }
  }

  lemma ConnectionLetter(k: nat)
    requires 0 < k <= 10
    ensures var c := "connection"[k - 1];
            IsPlain(c) && if k == 1 then FirstOfName(c) == ConnectionAt(1)
                          else NameByte(ConnectionAt(k - 1), k - 2, c) == (ConnectionAt(k), k - 1)
  {}

  /** The matcher after k letters of "content-length". */
  function LengthAt(k: nat): HeaderState {
    if k == 1 then C else if k == 2 then CO else if k == 3 then CON else if k < 14 then MatchingContentLength else ContentLength
  }

  lemma {:induction false} ContentLengthName(k: nat)
    requires 0 < k <= 14
    ensures IsName("content-length"[..k]) && NameState("content-length"[..k]) == (LengthAt(k), k - 1)
  {
    hide IsName, NameState, NameByte, FirstOfName, LengthAt;
    var w := "content-length";
    LengthLetter(k);
    if k == 1 {
      NameOfOne(w);
    } else {
      ContentLengthName(k - 1);
      NameLonger(w, k);
    }
  }

  lemma LengthLetter(k: nat)
    requires 0 < k <= 14
    ensures var c := "content-length"[k - 1];
            IsPlain(c) && if k == 1 then FirstOfName(c) == LengthAt(1)
                          else NameByte(LengthAt(k - 1), k - 2, c) == (LengthAt(k), k - 1)
  {}

  // ---- header lines --------------------------------------------------------------------------------

  /** At the start of a header line: the line before may still have a flag to set and an empty
      value to report. */
  predicate LineReady(p: Parser) {
    p.state == HeaderFieldStart || p.state == HeaderValueLws || (p.state == HeaderValueDiscardLws && p.hs != ContentLength)
  }

  /** The flags with those of the line before. */
  function AllFlags(p: Parser): Flags { if p.state == HeaderFieldStart then p.flags else SetFlag(p.flags, p.hs) }

  function PendingItems(p: Parser): seq<Item> { if p.state == HeaderValueDiscardLws then [Begin(Value), End(Value)] else [] }

  lemma PendingGrouped(p: Parser)
    ensures Group(NOTHING, PendingItems(p)) == Grouped(NoMark, Pending(p))
  {
    if p.state == HeaderValueDiscardLws {
      GroupTwo(NOTHING, Begin(Value), End(Value));
      assert [] + [Data(Value, "")] == [Data(Value, "")];
    }
  }

  function InName(p: Parser, s: string): Parser
    requires IsName(s)
  {
    p.(state := HeaderField, flags := AllFlags(p), hs := NameState(s).0, index := NameState(s).1, nread := p.nread + |s|)
  }

  lemma NameFirst(p: Parser, ch: char)
    requires LineReady(p) && IsToken(ch) && p.nread + 1 <= p.limit
    ensures IsName([ch]) && Step(p, ch) == Go(InName(p, [ch]), PendingItems(p) + [Begin(Field), Byte(Field, ch)])
  {
    hide FirstOfName, SetFlag, Step, OnHeaderField, OnHeaderValue, OnDiscardWs, OnHeadersAlmostDone, OnHeadersDone;
    TokenFacts(ch);
    HeaderStep(p, ch);
    assert [] + [Begin(Field), Byte(Field, ch)] == [Begin(Field), Byte(Field, ch)];
  }

  lemma TokenFacts(ch: char)
    requires IsToken(ch)
    ensures Token(ch) != '\0' && ch != CR && ch != LF && ch != ' ' && ch != '\t' && ch != ':'
  {}

  lemma NameNext(p: Parser, s: string, ch: char)
    requires IsName(s) && IsToken(ch) && p.nread + |s| + 1 <= p.limit
    ensures IsName(s + [ch]) && Step(InName(p, s), ch) == Go(InName(p, s + [ch]), [Byte(Field, ch)])
  {
    hide NameByte, SetFlag, Step, OnHeaderValue, OnDiscardWs, OnDiscardLws, OnValueLws, OnHeaderFieldStart, OnHeadersAlmostDone, OnHeadersDone;
    TokenFacts(ch);
    HeaderStep(InName(p, s), ch);
    assert (s + [ch])[..|s + [ch]| - 1] == s;
  }

  lemma {:induction false} NameRun(p: Parser, s: string)
    requires LineReady(p) && IsName(s) && p.nread + |s| <= p.limit
    ensures Run(p, s) == Trace(InName(p, s), PendingItems(p) + ([Begin(Field)] + ByteItems(Field, s)), |s|, Running)
  {
    hide Run, Step, InName, ByteItems, PendingItems, IsToken;
    var n := |s| - 1;
    if n == 0 {
      NameFirst(p, s[0]);
      assert s == [s[0]];
      OneByteItem(Field, s[0]);
      assert [Begin(Field), Byte(Field, s[0])] == [Begin(Field)] + [Byte(Field, s[0])];
      RunByte(p, s[0], InName(p, s), PendingItems(p) + [Begin(Field), Byte(Field, s[0])]);
    } else {
      var init := s[..n];
      assert s == init + [s[n]];
      NameRun(p, init);
      NameNext(p, init, s[n]);
      RunByte(InName(p, init), s[n], InName(p, s), [Byte(Field, s[n])]);
      RunGo(p, init, InName(p, init), PendingItems(p) + ([Begin(Field)] + ByteItems(Field, init)), [s[n]], InName(p, s), [Byte(Field, s[n])]);
      ByteItemsSnoc(Field, init, s[n]);
      Assoc(PendingItems(p), [Begin(Field)] + ByteItems(Field, init), [Byte(Field, s[n])]);
      Assoc([Begin(Field)], ByteItems(Field, init), [Byte(Field, s[n])]);
    }
  }

  /** A name, its colon and the blank: before the value. */
  function BeforeValue(p: Parser, s: string): Parser
    requires IsName(s)
  {
    InName(p, s).(state := HeaderValueDiscardWs, nread := p.nread + |s| + 2)
  }

  lemma NameGoes(p: Parser, s: string)
    requires LineReady(p) && IsName(s) && p.nread + |s| + 2 <= p.limit
    ensures Goes(p, s + ": ", BeforeValue(p, s), [Data(Field, s)])
  {
    hide Goes, Run, Step, InName, ByteItems, PendingItems, Group, Pending;
    NameRun(p, s);
    var items := [Begin(Field)] + ByteItems(Field, s);
    var q := InName(p, s);
    var q1 := q.(state := HeaderValueDiscardWs, nread := q.nread + 1);
    var q2 := q1.(nread := q1.nread + 1);
    InNameFields(p, s);
    Colon(q);
    RunByte(q, ':', q1, [End(Field)]);
    RunGo(p, s, q, PendingItems(p) + items, ":", q1, [End(Field)]);
    Blank(q1);
    RunByte(q1, ' ', q2, []);
    RunGo(p, s + ":", q1, (PendingItems(p) + items) + [End(Field)], " ", q2, []);
    assert s + ":" + " " == s + ": ";
    assert ((PendingItems(p) + items) + [End(Field)]) + [] == PendingItems(p) + DataItems(Field, s);
    GroupData(Field, s, Pending(p));
    GoesBehind(p, s + ": ", q2, DataItems(Field, s), [Data(Field, s)]);
  }

  lemma NonePending(q: Parser)
    requires q.state != HeaderValueDiscardLws
    ensures Pending(q) == []
  {}

  lemma InNameFields(p: Parser, s: string)
    requires IsName(s)
    ensures InName(p, s).state == HeaderField && InName(p, s).nread == p.nread + |s| && InName(p, s).limit == p.limit
  {}

  lemma Colon(q: Parser)
    requires q.state == HeaderField && q.nread + 1 <= q.limit
    ensures Step(q, ':') == Go(q.(state := HeaderValueDiscardWs, nread := q.nread + 1), [End(Field)])
  {}

  lemma Blank(q: Parser)
    requires q.state == HeaderValueDiscardWs && q.nread + 1 <= q.limit
    ensures Step(q, ' ') == Go(q.(nread := q.nread + 1), [])
  {}

  // ---- header values -------------------------------------------------------------------------------

  /** No control bytes but tabs, and no blank in front. */
  predicate GoodValue(v: string) {
    (forall i | 0 <= i < |v| :: IsHeaderChar(v[i]) && v[i] != CR && v[i] != LF) && (v != "" ==> v[0] != ' ' && v[0] != '\t')
  }

  function InValue(q: Parser, v: string): Parser { q.(state := HeaderValue, index := 0, hs := General, nread := q.nread + |v|) }

  lemma ValueFirst(q: Parser, ch: char)
    requires q.state == HeaderValueDiscardWs && IsNameState(q.hs) && !Special(q.hs) && q.nread + 1 <= q.limit
    requires ch != CR && ch != LF && ch != ' ' && ch != '\t'
    ensures Step(q, ch) == Go(InValue(q, [ch]), [Begin(Value), Byte(Value, ch)])
  {
    hide Lower;
  }

  lemma ValueNext(q: Parser, v: string, ch: char)
    requires ch != CR && ch != LF && IsHeaderChar(ch) && q.nread + |v| + 1 <= q.limit
    ensures Step(InValue(q, v), ch) == Go(InValue(q, v + [ch]), [Byte(Value, ch)])
  {
    hide Lower, IsHeaderChar;
  }

  lemma {:induction false} ValueRun(q: Parser, v: string)
    requires q.state == HeaderValueDiscardWs && IsNameState(q.hs) && !Special(q.hs)
    requires v != "" && GoodValue(v) && q.nread + |v| <= q.limit
    ensures Run(q, v) == Trace(InValue(q, v), [Begin(Value)] + ByteItems(Value, v), |v|, Running)
  {
    hide Run, Step, InValue, ByteItems, IsHeaderChar;
    var n := |v| - 1;
    if n == 0 {
      ValueFirst(q, v[0]);
      assert v == [v[0]];
      OneByteItem(Value, v[0]);
      assert [Begin(Value), Byte(Value, v[0])] == [Begin(Value)] + [Byte(Value, v[0])];
      RunByte(q, v[0], InValue(q, v), [Begin(Value), Byte(Value, v[0])]);
    } else {
      var init := v[..n];
      assert v == init + [v[n]];
      ValueRun(q, init);
      ValueNext(q, init, v[n]);
      ValueSnoc(q, init, v[n], InValue(q, init), InValue(q, v));
    }
  }

  /** One more byte of a value. */
  lemma ValueSnoc(q: Parser, init: string, ch: char, mid: Parser, end: Parser)
    requires Run(q, init) == Trace(mid, [Begin(Value)] + ByteItems(Value, init), |init|, Running)
    requires Step(mid, ch) == Go(end, [Byte(Value, ch)])
    ensures Run(q, init + [ch]) == Trace(end, [Begin(Value)] + ByteItems(Value, init + [ch]), |init| + 1, Running)
  {
    hide Run, Step, ByteItems;
    RunByte(mid, ch, end, [Byte(Value, ch)]);
    RunGo(q, init, mid, [Begin(Value)] + ByteItems(Value, init), [ch], end, [Byte(Value, ch)]);
    ByteItemsSnoc(Value, init, ch);
    Assoc([Begin(Value)], ByteItems(Value, init), [Byte(Value, ch)]);
  }

  /** A value that has begun, to the end of its line. */
  lemma ValueEnds(q: Parser, v: string, mid: Parser)
    requires Run(q, v) == Trace(mid, [Begin(Value)] + ByteItems(Value, v), |v|, Running)
    requires mid.state == HeaderValue && mid.nread + 2 <= mid.limit && q.state == HeaderValueDiscardWs
    ensures Goes(q, v + "\r\n", mid.(state := HeaderValueLws, nread := mid.nread + 2), [Data(Value, v)])
  {
    hide Run, Step, ByteItems, Group;
    var a := mid.(state := HeaderAlmostDone, nread := mid.nread + 1);
    var b := mid.(state := HeaderValueLws, nread := mid.nread + 2);
    ValueLineEnd(mid);
    RunByte(mid, CR, a, [End(Value)]);
    RunGo(q, v, mid, [Begin(Value)] + ByteItems(Value, v), [CR], a, [End(Value)]);
    RunByte(a, LF, b, []);
    RunGo(q, v + [CR], a, DataItems(Value, v), [LF], b, []);
    assert v + [CR] + [LF] == v + "\r\n" && DataItems(Value, v) + [] == DataItems(Value, v);
    GroupData(Value, v, []);
    assert [] + [Data(Value, v)] == [Data(Value, v)];
    GoesBy(q, v + "\r\n", b, DataItems(Value, v), [Data(Value, v)]);
  }

  lemma ValueLineEnd(mid: Parser)
    requires mid.state == HeaderValue && mid.nread + 2 <= mid.limit
    ensures var a := mid.(state := HeaderAlmostDone, nread := mid.nread + 1);
            && Step(mid, CR) == Go(a, [End(Value)])
            && Step(a, LF) == Go(mid.(state := HeaderValueLws, nread := mid.nread + 2), [])
  {
    hide Step, OnHeaderField, OnDiscardWs, OnDiscardLws, OnValueStart, OnValueLws, OnHeadersAlmostDone, OnHeadersDone, OnHeaderFieldStart;
    HeaderStep(mid, CR);
    HeaderStep(mid.(state := HeaderAlmostDone, nread := mid.nread + 1), LF);
  }

  lemma HeaderStep(p: Parser, ch: char)
    requires IsHeaderLineState(p.state) && p.nread + 1 <= p.limit
    ensures Step(p, ch) == OnHeaderLine(p.(nread := p.nread + 1), ch)
  {
    hide OnHeaderLine, OnStart, OnStatusLine, OnRequestLine, HttpMachine.OnUrl, OnChunk, OnBody, OnMessageDone;
  }

  /** An empty value. */
  lemma EmptyValueGoes(q: Parser)
    requires q.state == HeaderValueDiscardWs && q.nread + 2 <= q.limit
    ensures Goes(q, "\r\n", q.(state := HeaderValueDiscardLws, nread := q.nread + 2), [Data(Value, "")])
  {
    hide Run, Step, Group;
    var a := q.(state := HeaderValueDiscardWsAlmostDone, nread := q.nread + 1);
    var b := q.(state := HeaderValueDiscardLws, nread := q.nread + 2);
    EmptyLine(q);
    RunByte(q, CR, a, []);
    RunByte(a, LF, b, []);
    RunGo(q, [CR], a, [], [LF], b, []);
    assert [CR] + [LF] == "\r\n";
    NothingGrouped();
    assert [] + [Data(Value, "")] == [Data(Value, "")];
  }

  lemma NothingGrouped()
    ensures Group(NOTHING, []) == NOTHING
  {}

  lemma EmptyLine(q: Parser)
    requires q.state == HeaderValueDiscardWs && q.nread + 2 <= q.limit
    ensures var a := q.(state := HeaderValueDiscardWsAlmostDone, nread := q.nread + 1);
            && Step(q, CR) == Go(a, [])
            && Step(a, LF) == Go(q.(state := HeaderValueDiscardLws, nread := q.nread + 2), [])
  {
    hide Step, OnHeaderField, OnHeaderValue, OnDiscardLws, OnValueStart, OnValueLws, OnHeadersAlmostDone, OnHeadersDone, OnHeaderFieldStart;
    HeaderStep(q, CR);
    HeaderStep(q.(state := HeaderValueDiscardWsAlmostDone, nread := q.nread + 1), LF);
  }

  // ---- whole lines -----------------------------------------------------------------------------------

  predicate GoodHeader(h: Header) { IsName(h.name) && !SpecialName(Forms.Fold(h.name)) && GoodValue(h.value) }

  /** Behind the line of a value that began at b. */
  function BehindValue(b: Parser, v: string): Parser {
    if v == "" then b.(state := HeaderValueDiscardLws, nread := b.nread + 2)
    else InValue(b, v).(state := HeaderValueLws, nread := b.nread + |v| + 2)
  }

  function AfterHeader(p: Parser, h: Header): Parser
    requires IsName(h.name)
  {
    BehindValue(BeforeValue(p, h.name), h.value)
  }

  /** From one line to the next: what an ordinary line leaves as it is. */
  predicate SameButLine(p: Parser, q: Parser, n: nat) {
    LineReady(q) && SameHead(p, q) && AllFlags(q) == AllFlags(p) && q.contentLength == p.contentLength && q.nread == p.nread + n
  }

  lemma AfterHeaderFields(p: Parser, h: Header)
    requires LineReady(p) && GoodHeader(h)
    ensures SameButLine(p, AfterHeader(p, h), |HeaderLine(h.name, h.value)|)
  {
    hide NameByte, FirstOfName, IsToken, GoodValue;
    OrdinaryName(h.name);
    NoFlagOfName(AllFlags(p), NameState(h.name).0);
  }

  lemma NoFlagOfName(f: Flags, hs: HeaderState)
    requires IsNameState(hs)
    ensures SetFlag(f, hs) == f
  {}

  lemma LineParts(name: string, value: string)
    ensures HeaderLine(name, value) == (name + ": ") + (value + "\r\n") && |HeaderLine(name, value)| == |name| + |value| + 4
  {}

  lemma ValueGoes(b: Parser, v: string)
    requires b.state == HeaderValueDiscardWs && IsNameState(b.hs) && !Special(b.hs) && GoodValue(v) && b.nread + |v| + 2 <= b.limit
    ensures Goes(b, v + "\r\n", BehindValue(b, v), [Data(Value, v)])
  {
    hide Goes, InValue, GoodValue, Run, Special, IsNameState;
    if v == "" {
      EmptyValueGoes(b);
      assert v + "\r\n" == "\r\n";
    } else {
      ValueRun(b, v);
      InValueFields(b, v);
      ValueEnds(b, v, InValue(b, v));
    }
  }

  lemma HeaderGoes(p: Parser, h: Header)
    requires LineReady(p) && GoodHeader(h) && p.nread + |HeaderLine(h.name, h.value)| <= p.limit
    ensures Goes(p, HeaderLine(h.name, h.value), AfterHeader(p, h), [Data(Field, h.name), Data(Value, h.value)])
  {
    hide Goes, BeforeValue, BehindValue, GoodValue, IsName, NameState, Forms.Fold, SpecialName, SameHead, AllFlags, HeaderLine, Special;
    LineParts(h.name, h.value);
    var b := BeforeValue(p, h.name);
    NameGoes(p, h.name);
    OrdinaryName(h.name);
    BeforeValueFields(p, h.name);
    ValueGoes(b, h.value);
    GoesOn(p, h.name + ": ", b, [Data(Field, h.name)], h.value + "\r\n", AfterHeader(p, h), [Data(Value, h.value)]);
    assert [Data(Field, h.name)] + [Data(Value, h.value)] == [Data(Field, h.name), Data(Value, h.value)];
  }

  lemma BeforeValueFields(p: Parser, s: string)
    requires IsName(s)
    ensures var b := BeforeValue(p, s);
            && b.state == HeaderValueDiscardWs && b.hs == NameState(s).0 && IsNameState(b.hs) && b.nread == p.nread + |s| + 2
            && b.limit == p.limit && b.flags == AllFlags(p) && b.contentLength == p.contentLength && SameHead(p, b)
  {
    hide IsToken, NameState;
  }

  lemma InValueFields(q: Parser, v: string)
    ensures var r := InValue(q, v);
            r.state == HeaderValue && r.hs == General && r.nread == q.nread + |v| && r.limit == q.limit
  {}

  /** Everything about the flags but the connection's. */
  predicate SameButConnection(f: Flags, g: Flags) {
    f.chunked == g.chunked && f.trailing == g.trailing && f.upgrade == g.upgrade && f.contentLength == g.contentLength
  }

  predicate ConnectionState(hs: HeaderState) {
    hs.MatchingKeepAlive? || hs.MatchingClose? || hs.MatchingConnUpgrade? || hs.ConnToken? || hs.ConnTokenStart?
    || hs.ConnKeepAlive? || hs.ConnClose? || hs.ConnUpgrade? || hs.General?
  }

  /** In the value of a connection header. */
  predicate InConnection(q: Parser, mid: Parser, n: nat) {
    mid.state == HeaderValue && ConnectionState(mid.hs) && SameHead(q, mid) && SameButConnection(q.flags, mid.flags)
    && mid.contentLength == q.contentLength && mid.nread == q.nread + n
  }

  lemma ConnectionFirst(q: Parser, ch: char)
    requires q.state == HeaderValueDiscardWs && q.hs == HeaderState.Connection && q.nread + 1 <= q.limit
    requires ch != CR && ch != LF && ch != ' ' && ch != '\t'
    ensures Step(q, ch).Go? && Step(q, ch).items == [Begin(Value), Byte(Value, ch)] && InConnection(q, Step(q, ch).p, 1)
  {
    hide Lower;
  }

  lemma ConnectionNext(q: Parser, mid: Parser, n: nat, ch: char)
    requires InConnection(q, mid, n) && ch != CR && ch != LF && IsHeaderChar(ch) && q.nread + n + 1 <= q.limit
    ensures Step(mid, ch).Go? && Step(mid, ch).items == [Byte(Value, ch)] && InConnection(q, Step(mid, ch).p, n + 1)
  {
    hide ValueByte, IsHeaderChar;
    ConnectionMatcher(MatcherOf(mid), ch);
  }

  lemma ConnectionMatcher(m: Matcher, ch: char)
    requires m.Matcher? && ConnectionState(m.hs)
    ensures var n := ValueByte(m, ch);
            n.Matcher? && ConnectionState(n.hs) && SameButConnection(m.flags, n.flags) && n.contentLength == m.contentLength
  {
    hide Lower, IsToken;
  }

  lemma {:induction false} ConnectionRun(q: Parser, v: string)
    requires q.state == HeaderValueDiscardWs && q.hs == HeaderState.Connection && v != "" && GoodValue(v) && q.nread + |v| <= q.limit
    ensures Run(q, v) == Trace(Run(q, v).p, [Begin(Value)] + ByteItems(Value, v), |v|, Running)
    ensures InConnection(q, Run(q, v).p, |v|)
  {
    hide Run, Step, InConnection, ByteItems, IsHeaderChar;
    var n := |v| - 1;
    if n == 0 {
      ConnectionFirst(q, v[0]);
      assert v == [v[0]];
      OneByteItem(Value, v[0]);
      assert [Begin(Value), Byte(Value, v[0])] == [Begin(Value)] + [Byte(Value, v[0])];
      RunByte(q, v[0], Step(q, v[0]).p, [Begin(Value), Byte(Value, v[0])]);
    } else {
      var init := v[..n];
      assert v == init + [v[n]];
      ConnectionRun(q, init);
      var mid := Run(q, init).p;
      ConnectionNext(q, mid, n, v[n]);
      ValueSnoc(q, init, v[n], mid, Step(mid, v[n]).p);
    }
  }

  lemma GoodConnection(m: Message)
    ensures GoodValue(HttpRequests.Connection(m)) && HttpRequests.Connection(m) != ""
  {}

  /** The connection line that is always printed. */
  lemma ConnectionValueGoes(b: Parser, v: string)
    returns (q: Parser)
    requires b.state == HeaderValueDiscardWs && b.hs == HeaderState.Connection && v != "" && GoodValue(v) && b.nread + |v| + 2 <= b.limit
    ensures Goes(b, v + "\r\n", q, [Data(Value, v)])
    ensures q.state == HeaderValueLws && SameHead(b, q) && SameButConnection(b.flags, AllFlags(q)) && q.contentLength == b.contentLength
            && q.nread == b.nread + |v| + 2
  {
    hide Goes, Run, GoodValue, ByteItems;
    ConnectionRun(b, v);
    var mid := Run(b, v).p;
    ValueEnds(b, v, mid);
    q := mid.(state := HeaderValueLws, nread := mid.nread + 2);
  }

  lemma ConnectionGoes(p: Parser, m: Message)
    returns (q: Parser)
    requires LineReady(p) && p.nread + |HeaderLine("connection", HttpRequests.Connection(m))| <= p.limit
    ensures var v := HttpRequests.Connection(m);
            Goes(p, HeaderLine("connection", v), q, [Data(Field, "connection"), Data(Value, v)])
    ensures LineReady(q) && SameHead(p, q) && SameButConnection(AllFlags(p), AllFlags(q)) && q.contentLength == p.contentLength
            && q.nread == p.nread + |HeaderLine("connection", HttpRequests.Connection(m))|
  {
    hide Goes, BeforeValue, GoodValue, IsName, NameState, HeaderLine, HttpRequests.Connection, AllFlags;
    LineParts("connection", HttpRequests.Connection(m));
    var v := HttpRequests.Connection(m);
    var name := "connection";
    ConnectionName(10);
    assert name[..10] == name;
    var b := BeforeValue(p, name);
    NameGoes(p, name);
    BeforeValueFields(p, name);
    GoodConnection(m);
    q := ConnectionValueGoes(b, v);
    GoesOn(p, name + ": ", b, [Data(Field, name)], v + "\r\n", q, [Data(Value, v)]);
    assert [Data(Field, name)] + [Data(Value, v)] == [Data(Field, name), Data(Value, v)];
  }

  lemma LengthValueGoes(b: Parser, n: nat)
    returns (q: Parser)
    requires b.state == HeaderValueDiscardWs && b.hs == ContentLength && !b.flags.contentLength && n / 10 <= DECIMAL_LIMIT
    requires b.nread + |DecimalString(n)| + 2 <= b.limit
    ensures Goes(b, DecimalString(n) + "\r\n", q, [Data(Value, DecimalString(n))])
    ensures q.state == HeaderValueLws && SameHead(b, q) && AllFlags(q) == b.flags.(contentLength := true) && q.contentLength == n
            && q.nread == b.nread + |DecimalString(n)| + 2
  {
    hide Goes, Run, ByteItems, Decimal, DecimalString, AllDigits;
    var v := DecimalString(n);
    DecimalOfString(n);
    ContentLengthIsExact(b, v);
    RunUsed(b, v);
    var mid := LengthRead(b, v);
    ValueEnds(b, v, mid);
    q := mid.(state := HeaderValueLws, nread := mid.nread + 2);
  }

  /** The content-length line that is printed when there is a body. */
  lemma LengthGoes(p: Parser, n: nat)
    returns (q: Parser)
    requires LineReady(p) && !AllFlags(p).contentLength && n / 10 <= DECIMAL_LIMIT
    requires p.nread + |HeaderLine("content-length", DecimalString(n))| <= p.limit
    ensures var v := DecimalString(n); Goes(p, HeaderLine("content-length", v), q, [Data(Field, "content-length"), Data(Value, v)])
    ensures LineReady(q) && SameHead(p, q) && AllFlags(q) == AllFlags(p).(contentLength := true) && q.contentLength == n
            && q.nread == p.nread + |HeaderLine("content-length", DecimalString(n))|
  {
    hide Goes, BeforeValue, IsName, NameState, DecimalString, HeaderLine, AllFlags;
    LineParts("content-length", DecimalString(n));
    var v := DecimalString(n);
    var name := "content-length";
    ContentLengthName(14);
    assert name[..14] == name;
    var b := BeforeValue(p, name);
    NameGoes(p, name);
    BeforeValueFields(p, name);
    q := LengthValueGoes(b, n);
    GoesOn(p, name + ": ", b, [Data(Field, name)], v + "\r\n", q, [Data(Value, v)]);
    assert [Data(Field, name)] + [Data(Value, v)] == [Data(Field, name), Data(Value, v)];
  }

  predicate GoodHeaders(headers: seq<Header>) { forall i | 0 <= i < |headers| :: GoodHeader(headers[i]) }

  function HeaderEvents(headers: seq<Header>): seq<Event> {
    if headers == [] then [] else [Data(Field, headers[0].name), Data(Value, headers[0].value)] + HeaderEvents(headers[1..])
  }

  lemma OrdinaryIsPrinted(h: Header, body: string)
    requires GoodHeader(h)
    ensures !Skipped(h.name, body)
  {}

  lemma {:induction false} HeadersGo(p: Parser, headers: seq<Header>, body: string)
    returns (q: Parser)
    requires LineReady(p) && GoodHeaders(headers) && p.nread + |HeaderLines(headers, body)| <= p.limit
    ensures Goes(p, HeaderLines(headers, body), q, HeaderEvents(headers))
    ensures SameButLine(p, q, |HeaderLines(headers, body)|)
    decreases |headers|
  {
    hide Goes, GoodHeader, LineReady, AllFlags, SameHead, HeaderLine;
    if headers == [] {
      q := p;
      NoLines(p);
      SameAsBefore(p);
    } else {
      var h := headers[0];
      OrdinaryIsPrinted(h, body);
      HeaderGoes(p, h);
      AfterHeaderFields(p, h);
      GoodIsName(h);
      var mid := AfterHeader(p, h);
      SameLimit(p, mid);
      q := HeadersGo(mid, headers[1..], body);
      GoesOn(p, HeaderLine(h.name, h.value), mid, [Data(Field, h.name), Data(Value, h.value)],
             HeaderLines(headers[1..], body), q, HeaderEvents(headers[1..]));
      SameTwice(p, mid, |HeaderLine(h.name, h.value)|, q, |HeaderLines(headers[1..], body)|);
    }
  }

  lemma GoodIsName(h: Header)
    requires GoodHeader(h)
    ensures IsName(h.name)
  {}

  lemma SameLimit(p: Parser, q: Parser)
    requires SameHead(p, q)
    ensures q.limit == p.limit
  {}

  lemma NoLines(p: Parser)
    ensures Goes(p, "", p, [])
  {
    RunEmpty(p);
    NothingGrouped();
    assert [] + Pending(p) == Pending(p) + [];
  }

  lemma SameAsBefore(p: Parser)
    requires LineReady(p)
    ensures SameButLine(p, p, 0)
  {}

  lemma SameTwice(p: Parser, q: Parser, m: nat, r: Parser, n: nat)
    requires SameButLine(p, q, m) && SameButLine(q, r, n)
    ensures SameButLine(p, r, m + n)
  {}

  // ---- the end of the headers and the body ------------------------------------------------------------

  /** What makes the end of the headers an ordinary one. */
  predicate Ordinary(p: Parser) {
    LineReady(p) && p.ptype == Request && p.meth != CONNECT
    && !AllFlags(p).chunked && !AllFlags(p).trailing && !AllFlags(p).upgrade
  }

  function AtEnd(p: Parser): Parser { p.(flags := AllFlags(p), state := HeadersAlmostDone, nread := p.nread + 1) }

  lemma EndCR(p: Parser)
    requires LineReady(p) && p.nread + 1 <= p.limit
    ensures Step(p, CR) == Go(AtEnd(p), PendingItems(p))
  {
    assert PendingItems(p) + [] == PendingItems(p);
  }

  function DoneHead(p: Parser): Parser { AtEnd(p).(state := HeadersDone, upgrade := false, nread := p.nread + 2) }

  lemma EndLF(p: Parser)
    requires Ordinary(p) && p.nread + 2 <= p.limit
    ensures var q := DoneHead(p);
            Step(AtEnd(p), LF) ==
              if p.contentLength == ULLONG_MAX || p.contentLength == 0 then
                Go(NewMessage(q.(nread := 0)), [Note(HeadersComplete(HeadOf(q))), Note(MessageComplete)])
              else Go(q.(nread := 0, state := BodyIdentity), [Note(HeadersComplete(HeadOf(q)))])
  {
    hide ShouldKeepAlive, LineReady, SetFlag;
    var q := DoneHead(p);
    assert [Note(HeadersComplete(HeadOf(q)))] + [Note(MessageComplete)] == [Note(HeadersComplete(HeadOf(q))), Note(MessageComplete)];
    assert [Note(HeadersComplete(HeadOf(q)))] + [] == [Note(HeadersComplete(HeadOf(q)))];
  }

  lemma EmptyTailGoes(p: Parser)
    requires Ordinary(p) && p.contentLength == ULLONG_MAX && p.nread + 2 <= p.limit
    ensures Goes(p, "\r\n", NewMessage(DoneHead(p).(nread := 0)),
                 [Notify(HeadersComplete(HeadOf(DoneHead(p)))), Notify(MessageComplete)])
  {
    hide Goes, Run, Step, Group, Ordinary, PendingItems, Pending, NewMessage, DoneHead, AtEnd, HeadOf;
    IsReady(p);
    var q := DoneHead(p);
    var end := NewMessage(q.(nread := 0));
    var notes := [Note(HeadersComplete(HeadOf(q))), Note(MessageComplete)];
    EndLF(p);
    LastLineRun(p, end, notes);
    NotesGrouped(Pending(p), HeadersComplete(HeadOf(q)), MessageComplete);
    NewMessageState(q.(nread := 0));
    GoesBehind(p, "\r\n", end, notes, [Notify(HeadersComplete(HeadOf(q))), Notify(MessageComplete)]);
  }

  /** The blank line, byte by byte. */
  lemma LastLineRun(p: Parser, end: Parser, notes: seq<Item>)
    requires LineReady(p) && p.nread + 1 <= p.limit && Step(AtEnd(p), LF) == Go(end, notes)
    ensures Run(p, "\r\n") == Trace(end, PendingItems(p) + notes, 2, Running)
  {
    hide Run, Step, PendingItems, AtEnd;
    EndCR(p);
    RunByte(p, CR, AtEnd(p), PendingItems(p));
    RunByte(AtEnd(p), LF, end, notes);
    RunGo(p, [CR], AtEnd(p), PendingItems(p), [LF], end, notes);
    assert [CR] + [LF] == "\r\n";
  }

  lemma IsReady(p: Parser)
    requires Ordinary(p)
    ensures LineReady(p)
  {}

  lemma NewMessageState(q: Parser)
    ensures NewMessage(q).state != HeaderValueDiscardLws && NewMessage(q).upgrade == q.upgrade
  {
    hide ShouldKeepAlive;
  }

  lemma NotesGrouped(e: seq<Event>, a: Notice, b: Notice)
    ensures Group(Grouped(NoMark, e), [Note(a), Note(b)]) == Grouped(NoMark, e + [Notify(a), Notify(b)])
  {
    GroupTwo(Grouped(NoMark, e), Note(a), Note(b));
    assert (e + [Notify(a)]) + [Notify(b)] == e + [Notify(a), Notify(b)];
  }

  /** The blank line before a body. */
  lemma BlankLineGoes(p: Parser)
    requires Ordinary(p) && p.contentLength != ULLONG_MAX && p.contentLength != 0 && p.nread + 2 <= p.limit
    ensures Goes(p, "\r\n", DoneHead(p).(nread := 0, state := BodyIdentity), [Notify(HeadersComplete(HeadOf(DoneHead(p))))])
  {
    hide Goes, Run, Step, Group, Ordinary, PendingItems, Pending, DoneHead, AtEnd, HeadOf;
    IsReady(p);
    var q := DoneHead(p);
    var end := q.(nread := 0, state := BodyIdentity);
    var note := Note(HeadersComplete(HeadOf(q)));
    EndLF(p);
    LastLineRun(p, end, [note]);
    GroupOne(Grouped(NoMark, Pending(p)), note);
    GoesBehind(p, "\r\n", end, [note], [Notify(HeadersComplete(HeadOf(q)))]);
  }

  lemma BodyGoes(p: Parser, body: string)
    requires p.state == BodyIdentity && body != "" && p.contentLength == |body| < ULLONG_MAX && !p.upgrade
    ensures Goes(p, body, NewMessage(p.(contentLength := 0)), [Data(Body, body), Notify(MessageComplete)])
  {
    hide Run, Step, Group, NewMessage, BodyItems;
    IdentityWhole(p, body);
    var end := NewMessage(p.(contentLength := 0));
    GroupAppend(NOTHING, BodyItems(body) + [End(Body)], [Note(MessageComplete)]);
    GroupAppend(NOTHING, BodyItems(body), [End(Body)]);
    GroupBodyItems(NOTHING, body);
    assert "" + body == body;
    GroupOne(Grouped(Mark.Open(Body, body), []), End(Body));
    GroupOne(Grouped(NoMark, [] + [Data(Body, body)]), Note(MessageComplete));
    NewMessageState(p.(contentLength := 0));
    NonePending(end);
    NonePending(p);
    assert ([] + [Data(Body, body)]) + [Notify(MessageComplete)] == [Data(Body, body), Notify(MessageComplete)];
    GoesBy(p, body, end, (BodyItems(body) + [End(Body)]) + [Note(MessageComplete)], [Data(Body, body), Notify(MessageComplete)]);
  }

  // ---- the whole request ---------------------------------------------------------------------------------

  predicate DistinctNames(headers: seq<Header>) {
    forall i, j | 0 <= i < j < |headers| :: Forms.Fold(headers[i].name) != Forms.Fold(headers[j].name)
  }

  /** What the promise asks of a request: not CONNECT, a target of path, query and fragment that can
      be measured in 16 bits, one-digit version numbers, ordinary headers with names that differ
      ignoring case, a header section within the limit and a body whose length can be parsed. */
  predicate Printable(m: Message, limit: nat) {
    && m.meth != CONNECT && GoodTarget(m) && |Target(m)| <= 0xffff && m.major < 10 && m.minor < 10
    && GoodHeaders(m.headers) && DistinctNames(m.headers)
    && |Print(m)| <= limit + |m.body| && |m.body| / 10 <= DECIMAL_LIMIT
  }

  function TailEvents(h: Head, body: string): seq<Event> {
    if body == "" then [Notify(HeadersComplete(h)), Notify(MessageComplete)]
    else [Data(Field, "content-length"), Data(Value, DecimalString(|body|))]
         + ([Notify(HeadersComplete(h))] + [Data(Body, body), Notify(MessageComplete)])
  }

  lemma BodyTailGoes(p: Parser, body: string)
    returns (q: Parser, h: Head)
    requires Ordinary(p) && p.contentLength == |body| < ULLONG_MAX && body != "" && p.nread + 2 <= p.limit
    ensures Goes(p, "\r\n" + body, q, [Notify(HeadersComplete(h))] + [Data(Body, body), Notify(MessageComplete)])
    ensures !q.upgrade && q.state != HeaderValueDiscardLws && h.meth == p.meth && h.major == p.major && h.minor == p.minor
  {
    hide Goes, NewMessage, Ordinary, Pending, AllFlags;
    BlankLineGoes(p);
    DoneHeadFields(p);
    var b := DoneHead(p).(nread := 0, state := BodyIdentity);
    h := HeadOf(DoneHead(p));
    BodyGoes(b, body);
    q := NewMessage(b.(contentLength := 0));
    NewMessageState(b.(contentLength := 0));
    GoesOn(p, "\r\n", b, [Notify(HeadersComplete(h))], body, q, [Data(Body, body), Notify(MessageComplete)]);
  }

  lemma TailGoes(p: Parser, body: string)
    returns (q: Parser, h: Head)
    requires Ordinary(p) && !AllFlags(p).contentLength && p.contentLength == ULLONG_MAX && |body| / 10 <= DECIMAL_LIMIT
    requires p.nread + |Tail(body)| <= p.limit + |body|
    ensures Goes(p, Tail(body), q, TailEvents(h, body)) && !q.upgrade && q.state != HeaderValueDiscardLws
    ensures h.meth == p.meth && h.major == p.major && h.minor == p.minor
  {
    hide Goes, LineReady, AllFlags, NewMessage, Ordinary, HeaderLine, DecimalString, Pending;
    if body == "" {
      EmptyTailGoes(p);
      DoneHeadFields(p);
      NewMessageState(DoneHead(p).(nread := 0));
      q, h := NewMessage(DoneHead(p).(nread := 0)), HeadOf(DoneHead(p));
    } else {
      IsReady(p);
      var line, v := HeaderLine("content-length", DecimalString(|body|)), DecimalString(|body|);
      var r := LengthGoes(p, |body|);
      StillOrdinary(p, r);
      SameFields(p, r);
      q, h := BodyTailGoes(r, body);
      GoesOn(p, line, r, [Data(Field, "content-length"), Data(Value, v)],
             "\r\n" + body, q, [Notify(HeadersComplete(h))] + [Data(Body, body), Notify(MessageComplete)]);
      assert line + ("\r\n" + body) == Tail(body);
    }
  }

  lemma DoneHeadFields(p: Parser)
    ensures var d := DoneHead(p);
            && !d.upgrade && d.contentLength == p.contentLength && d.meth == p.meth && d.major == p.major && d.minor == p.minor
  {}

  lemma SameFields(p: Parser, q: Parser)
    requires SameHead(p, q)
    ensures q.meth == p.meth && q.major == p.major && q.minor == p.minor && q.limit == p.limit && q.ptype == p.ptype
  {}

  lemma StillOrdinary(p: Parser, q: Parser)
    requires Ordinary(p) && LineReady(q) && SameHead(p, q)
    requires AllFlags(q) == AllFlags(p).(contentLength := true)
    ensures Ordinary(q)
  {}

  function HeadLines(m: Message): string
    requires m.major < 10 && m.minor < 10
  {
    MethodName(m.meth) + " " + (Target(m) + " ") + Version(m)
  }

  lemma LineGoes(m: Message, limit: nat)
    returns (q: Parser)
    requires m.meth != CONNECT && GoodTarget(m) && m.major < 10 && m.minor < 10 && |HeadLines(m)| <= limit
    ensures Goes(Init(Request, limit), HeadLines(m), q, [Notify(MessageBegin), Data(Url, Target(m))])
    ensures LineReady(q) && Ordinary(q) && AllFlags(q) == NO_FLAGS && q.contentLength == ULLONG_MAX && q.nread == |HeadLines(m)|
            && q.limit == limit && q.meth == m.meth && q.major == m.major && q.minor == m.minor
  {
    hide Goes, MethodName, Target, GoodTarget, Version;
    var p := Init(Request, limit);
    var name := MethodName(m.meth) + " ";
    VersionLength(m);
    MethodGoes(p, m.meth);
    var p1 := p.(flags := NO_FLAGS, contentLength := ULLONG_MAX, meth := m.meth, index := |name|, state := ReqSpacesBeforeUrl,
                 nread := p.nread + |name|);
    TargetGoes(p1, m);
    var p2 := p1.(state := ReqHttpStart, nread := p1.nread + |Target(m)| + 1);
    VersionGoes(p2, m);
    q := p2.(state := HeaderFieldStart, major := m.major, minor := m.minor, nread := p2.nread + 10);
    GoesOn(p, name, p1, [Notify(MessageBegin)], Target(m) + " ", p2, [Data(Url, Target(m))]);
    GoesOn(p, name + (Target(m) + " "), p2, [Notify(MessageBegin)] + [Data(Url, Target(m))], Version(m), q, []);
    assert [Notify(MessageBegin)] + [Data(Url, Target(m))] + [] == [Notify(MessageBegin), Data(Url, Target(m))];
  }

  lemma VersionLength(m: Message)
    requires m.major < 10 && m.minor < 10
    ensures |Version(m)| == 10
  {}

  function RequestEvents(m: Message, h: Head): seq<Event> {
    [Notify(MessageBegin), Data(Url, Target(m))]
    + [Data(Field, "connection"), Data(Value, HttpRequests.Connection(m))] + HeaderEvents(m.headers) + TailEvents(h, m.body)
  }

  lemma RequestGoes(m: Message, limit: nat)
    returns (q: Parser, h: Head)
    requires Printable(m, limit)
    ensures Goes(Init(Request, limit), Print(m), q, RequestEvents(m, h)) && q.state != HeaderValueDiscardLws
    ensures !q.upgrade && h.meth == m.meth && h.major == m.major && h.minor == m.minor
  {
    hide Goes, GoodTarget, Target, GoodHeaders, HeaderLines, HeaderLine, Tail, HeadLines, LineReady, AllFlags, Ordinary;
    hide HttpRequests.Connection, TailEvents, HeaderEvents, DistinctNames;
    PrintParts(m);
    var p := Init(Request, limit);
    var conn := HeaderLine("connection", HttpRequests.Connection(m));
    var lines := HeaderLines(m.headers, m.body);
    var p3 := LineGoes(m, limit);
    var p4 := ConnectionGoes(p3, m);
    SameFields(p3, p4);
    var p5 := HeadersGo(p4, m.headers, m.body);
    SameFields(p4, p5);
    OrdinaryThrough(p3, p4, p5);
    q, h := TailGoes(p5, m.body);
    var x := [Notify(MessageBegin), Data(Url, Target(m))];
    var y := [Data(Field, "connection"), Data(Value, HttpRequests.Connection(m))];
    GoesOn(p, HeadLines(m), p3, x, conn, p4, y);
    GoesOn(p, HeadLines(m) + conn, p4, x + y, lines, p5, HeaderEvents(m.headers));
    GoesOn(p, HeadLines(m) + conn + lines, p5, x + y + HeaderEvents(m.headers), Tail(m.body), q, TailEvents(h, m.body));
  }

  lemma PrintParts(m: Message)
    requires m.major < 10 && m.minor < 10
    ensures Print(m) == HeadLines(m) + HeaderLine("connection", HttpRequests.Connection(m)) + HeaderLines(m.headers, m.body) + Tail(m.body)
    ensures |Tail(m.body)| >= |m.body|
  {}

  lemma OrdinaryThrough(p: Parser, q: Parser, r: Parser)
    requires Ordinary(p) && AllFlags(p) == NO_FLAGS
    requires SameHead(p, q) && SameButConnection(AllFlags(p), AllFlags(q)) && SameHead(q, r) && LineReady(r) && AllFlags(r) == AllFlags(q)
    ensures Ordinary(r) && !AllFlags(r).contentLength
  {}

  // ---- what the wrapper makes of it ------------------------------------------------------------------------

  lemma FieldAndValue(b: Building, name: string, value: string)
    ensures Replay(b, [Data(Field, name), Data(Value, value)]) ==
            b.(field := name, headers := SetHeader(b.headers, name, value))
  {
    hide SetHeader;
    ReplayAppend(b, [Data(Field, name)], [Data(Value, value)]);
    assert [Data(Field, name)] + [Data(Value, value)] == [Data(Field, name), Data(Value, value)];
    ReplayOne(b, Data(Field, name));
    ReplayOne(b.(field := name), Data(Value, value));
  }

  /** The headers that were there, and after them those of the list. */
  function WithHeaders(headers: map<string, Header>, more: seq<Header>): map<string, Header>
    decreases |more|
  {
    if more == [] then headers else WithHeaders(headers[Forms.Fold(more[0].name) := more[0]], more[1..])
  }

  lemma {:induction false} HeadersReplay(b: Building, headers: seq<Header>)
    requires DistinctNames(headers) && forall i | 0 <= i < |headers| :: Forms.Fold(headers[i].name) !in b.headers
    ensures var r := Replay(b, HeaderEvents(headers));
            r == b.(field := r.field, headers := WithHeaders(b.headers, headers))
    decreases |headers|
  {
    hide Replay, Forms.Fold;
    if headers == [] {
      NothingReplayed(b);
    } else {
      var h := headers[0];
      FieldAndValue(b, h.name, h.value);
      var next := Replay(b, [Data(Field, h.name), Data(Value, h.value)]);
      ReplayAppend(b, [Data(Field, h.name), Data(Value, h.value)], HeaderEvents(headers[1..]));
      HeadersReplay(next, headers[1..]);
    }
  }

  predicate Names(more: seq<Header>, k: string) { exists i :: 0 <= i < |more| && Forms.Fold(more[i].name) == k }

  lemma {:induction false} KeptHeader(headers: map<string, Header>, more: seq<Header>, k: string)
    requires k in headers && !Names(more, k)
    ensures var r := WithHeaders(headers, more); k in r && r[k] == headers[k]
    decreases |more|
  {
    hide Forms.Fold;
    if more != [] {
      assert forall i | 0 <= i < |more[1..]| :: more[1..][i] == more[i + 1];
      assert Forms.Fold(more[0].name) != k;
      KeptHeader(headers[Forms.Fold(more[0].name) := more[0]], more[1..], k);
    }
  }

  lemma {:induction false} AddedHeader(headers: map<string, Header>, more: seq<Header>, i: nat)
    requires i < |more| && DistinctNames(more)
    ensures var r := WithHeaders(headers, more); Forms.Fold(more[i].name) in r && r[Forms.Fold(more[i].name)] == more[i]
    decreases |more|
  {
    hide Forms.Fold;
    var with, rest := headers[Forms.Fold(more[0].name) := more[0]], more[1..];
    assert forall j | 0 <= j < |rest| :: rest[j] == more[j + 1];
    if i == 0 { KeptHeader(with, rest, Forms.Fold(more[0].name)); } else { AddedHeader(with, rest, i - 1); }
  }

  lemma {:induction false} OnlyThese(headers: map<string, Header>, more: seq<Header>, k: string)
    requires k in WithHeaders(headers, more)
    ensures k in headers || Names(more, k)
    decreases |more|
  {
    hide Forms.Fold;
    if more != [] && Forms.Fold(more[0].name) != k {
      OnlyThese(headers[Forms.Fold(more[0].name) := more[0]], more[1..], k);
      if k !in headers {
        var i :| 0 <= i < |more[1..]| && Forms.Fold(more[1..][i].name) == k;
        assert more[i + 1] == more[1..][i];
      }
    }
  }

  lemma WithHeadersIs(headers: map<string, Header>, more: seq<Header>)
    requires DistinctNames(more) && forall i | 0 <= i < |more| :: Forms.Fold(more[i].name) !in headers
    ensures var r := WithHeaders(headers, more);
            && (forall i | 0 <= i < |more| :: Forms.Fold(more[i].name) in r && r[Forms.Fold(more[i].name)] == more[i])
            && (forall k | k in headers :: k in r && r[k] == headers[k])
            && (forall k | k in r :: k in headers || Names(more, k))
  {
    hide Forms.Fold, WithHeaders;
    var r := WithHeaders(headers, more);
    forall i | 0 <= i < |more| ensures Forms.Fold(more[i].name) in r && r[Forms.Fold(more[i].name)] == more[i] {
      AddedHeader(headers, more, i);
    }
    forall k | k in headers ensures k in r && r[k] == headers[k] {
      KeptHeader(headers, more, k);
    }
    forall k | k in r ensures k in headers || Names(more, k) {
      OnlyThese(headers, more, k);
    }
  }

  /** The request is there again: in its parts, and in its headers, which are its own, the printed
      connection header, the printed length if there is a body, and no others. */
  predicate Rebuilt(m: Message, b: Building) {
    && b.finished && b.meth == m.meth && b.version == m.major * 16 + m.minor
    && b.path == m.path && b.query == m.query && b.fragment == m.fragment && b.body == m.body
    && (forall i | 0 <= i < |m.headers| ::
          Forms.Fold(m.headers[i].name) in b.headers && b.headers[Forms.Fold(m.headers[i].name)] == m.headers[i])
    && "connection" in b.headers && b.headers["connection"] == Header("connection", HttpRequests.Connection(m))
    && ("content-length" in b.headers <==> m.body != "")
    && (m.body != "" ==> b.headers["content-length"] == Header("content-length", DecimalString(|m.body|)))
    && (forall k | k in b.headers ::
          k == "connection" || k == "content-length" || Names(m.headers, k))
  }

  lemma FoldedNames()
    ensures Forms.Fold("connection") == "connection" && Forms.Fold("content-length") == "content-length"
  {
    FoldedConnection();
    FoldedLength();
  }

  lemma FoldedConnection()
    ensures Forms.Fold("connection") == "connection"
  {
    hide Forms.Fold;
    FoldKeeps("connection");
  }

  lemma FoldedLength()
    ensures Forms.Fold("content-length") == "content-length"
  {
    hide Forms.Fold;
    FoldKeeps("content-length");
  }

  lemma {:induction false} FoldKeeps(s: string)
    requires forall i | 0 <= i < |s| :: IsPlain(s[i])
    ensures Forms.Fold(s) == s
  {
    if s != "" {
      FoldKeeps(s[1..]);
      assert s == [s[0]] + s[1..];
    }
  }

  lemma HeadReplay(b: Building, h: Head)
    requires h.major < 10 && h.minor < 10
    ensures Replay(b, [Notify(HeadersComplete(h))]) == b.(meth := h.meth, version := h.major * 16 + h.minor)
  {
    hide Replay;
    ReplayOne(b, Notify(HeadersComplete(h)));
  }

  lemma BodyReplay(b: Building, body: string)
    ensures Replay(b, [Data(Body, body), Notify(MessageComplete)]) == b.(body := b.body + body, finished := true)
  {
    hide Replay;
    ReplayAppend(b, [Data(Body, body)], [Notify(MessageComplete)]);
    assert [Data(Body, body)] + [Notify(MessageComplete)] == [Data(Body, body), Notify(MessageComplete)];
    ReplayOne(b, Data(Body, body));
    ReplayOne(b.(body := b.body + body), Notify(MessageComplete));
  }

  lemma NewHeader(headers: map<string, Header>, key: string, value: string)
    requires Forms.Fold(key) == key && key !in headers
    ensures SetHeader(headers, key, value) == headers[key := Header(key, value)]
  {}

  lemma FramedReplay(b: Building, x: seq<Event>, h: Head, body: string)
    requires h.major < 10 && h.minor < 10
    ensures Replay(b, x + ([Notify(HeadersComplete(h))] + [Data(Body, body), Notify(MessageComplete)])) ==
            var c := Replay(b, x);
            c.(meth := h.meth, version := h.major * 16 + h.minor, body := c.body + body, finished := true)
  {
    hide Replay, On;
    var hc, y := [Notify(HeadersComplete(h))], [Data(Body, body), Notify(MessageComplete)];
    var c := Replay(b, x);
    ReplayAppend(b, x, hc + y);
    ReplayAppend(c, hc, y);
    HeadReplay(c, h);
    BodyReplay(Replay(c, hc), body);
  }

  lemma EmptyTailReplay(b: Building, h: Head)
    requires h.major < 10 && h.minor < 10
    ensures Replay(b, [Notify(HeadersComplete(h)), Notify(MessageComplete)]) ==
            b.(meth := h.meth, version := h.major * 16 + h.minor, finished := true)
  {
    hide Replay, On;
    HeadReplay(b, h);
    ReplayAppend(b, [Notify(HeadersComplete(h))], [Notify(MessageComplete)]);
    assert [Notify(HeadersComplete(h))] + [Notify(MessageComplete)] == [Notify(HeadersComplete(h)), Notify(MessageComplete)];
    Completed(Replay(b, [Notify(HeadersComplete(h))]));
  }

  lemma BodyTailReplay(b: Building, h: Head, name: string, v: string, body: string)
    requires h.major < 10 && h.minor < 10 && Forms.Fold(name) == name && name !in b.headers
    ensures Replay(b, [Data(Field, name), Data(Value, v)] + ([Notify(HeadersComplete(h))] + [Data(Body, body), Notify(MessageComplete)])) ==
            b.(meth := h.meth, version := h.major * 16 + h.minor, body := b.body + body, finished := true, field := name,
               headers := b.headers[name := Header(name, v)])
  {
    hide Replay, On, Forms.Fold, SetHeader;
    FieldAndValue(b, name, v);
    NewHeader(b.headers, name, v);
    FramedReplay(b, [Data(Field, name), Data(Value, v)], h, body);
  }

  /** What the end of the request does to the one being built. */
  function Ended(b: Building, h: Head, body: string): Building
    requires h.major < 10 && h.minor < 10
  {
    var c := b.(meth := h.meth, version := h.major * 16 + h.minor, body := body, finished := true);
    if body == "" then c
    else c.(field := "content-length", headers := b.headers["content-length" := Header("content-length", DecimalString(|body|))])
  }

  lemma TailReplay(b: Building, h: Head, body: string)
    requires b.body == "" && "content-length" !in b.headers && h.major < 10 && h.minor < 10
    ensures Replay(b, TailEvents(h, body)) == Ended(b, h, body)
  {
    hide Replay, On, DecimalString, Forms.Fold;
    if body == "" {
      EmptyTailReplay(b, h);
    } else {
      FoldedNames();
      BodyTailReplay(b, h, "content-length", DecimalString(|body|), body);
      assert b.body + body == body;
    }
  }

  lemma Completed(b: Building)
    ensures Replay(b, [Notify(MessageComplete)]) == b.(finished := true)
  {
    hide Replay;
    ReplayOne(b, Notify(MessageComplete));
  }

  lemma RequestReplay(m: Message, h: Head)
    requires GoodTarget(m) && GoodHeaders(m.headers) && DistinctNames(m.headers)
    requires h.meth == m.meth && h.major == m.major < 10 && h.minor == m.minor < 10
    ensures Rebuilt(m, Replay(NewRequest(), RequestEvents(m, h)))
  {
    hide Replay, TailEvents, HeaderEvents, GoodTarget, Target, Forms.Fold, WithHeaders, DecimalString, IsName, GoodValue;
    FoldedNames();
    var b0 := NewRequest();
    var x := [Notify(MessageBegin), Data(Url, Target(m))];
    var y := [Data(Field, "connection"), Data(Value, HttpRequests.Connection(m))];
    BeginReplay(b0, m);
    var b1 := Replay(b0, x);
    FieldAndValue(b1, "connection", HttpRequests.Connection(m));
    var b2 := Replay(b1, y);
    HeadersReplay(b2, m.headers);
    WithHeadersIs(b2.headers, m.headers);
    var b3 := Replay(b2, HeaderEvents(m.headers));
    TailReplay(b3, h, m.body);
    ReplayAppend(b0, x, y);
    ReplayAppend(b0, x + y, HeaderEvents(m.headers));
    ReplayAppend(b0, x + y + HeaderEvents(m.headers), TailEvents(h, m.body));
  }

  lemma BeginReplay(b: Building, m: Message)
    requires GoodTarget(m) && b.query == "" && b.fragment == ""
    ensures Replay(b, [Notify(MessageBegin), Data(Url, Target(m))]) == b.(path := m.path, query := m.query, fragment := m.fragment)
  {
    hide Replay, GoodTarget, Target;
    ReplayAppend(b, [Notify(MessageBegin)], [Data(Url, Target(m))]);
    assert [Notify(MessageBegin)] + [Data(Url, Target(m))] == [Notify(MessageBegin), Data(Url, Target(m))];
    ReplayOne(b, Notify(MessageBegin));
    ReplayOne(b, Data(Url, Target(m)));
    TargetIsSet(b, m);
  }

  /** From the start, with no value left to report: the callbacks of one call. */
  lemma WholeRun(s: string, limit: nat, q: Parser, x: seq<Event>)
    requires Goes(Init(Request, limit), s, q, x) && q.state != HeaderValueDiscardLws
    ensures var t := Run(Init(Request, limit), s); t.status == Running && t.p == q && Callbacks(StartReq, t) == x
  {
    hide Run, Group;
    var t := Run(Init(Request, limit), s);
    var g := Group(NOTHING, t.items);
    assert g.events + [] == g.events && [] + x == x;
  }

  /** No callback of a printed request is refused. */
  lemma RequestIsAccepted(m: Message, h: Head)
    requires GoodTarget(m)
    ensures Accepted(REFUSES, RequestEvents(m, h))
  {
    hide GoodTarget, Target, HeaderEvents, TailEvents, UpTo, U.ParseUrl;
    TargetComesApart(m);
    var x := [Notify(MessageBegin), Data(Url, Target(m))];
    var y := [Data(Field, "connection"), Data(Value, HttpRequests.Connection(m))];
    HeadersAccepted(m.headers);
    TailAccepted(h, m.body);
    UpToAppend(REFUSES, x, y);
    UpToAppend(REFUSES, x + y, HeaderEvents(m.headers));
    UpToAppend(REFUSES, x + y + HeaderEvents(m.headers), TailEvents(h, m.body));
  }

  lemma {:induction false} HeadersAccepted(headers: seq<Header>)
    ensures Accepted(REFUSES, HeaderEvents(headers))
    decreases |headers|
  {
    hide U.ParseUrl;
    if headers != [] {
      HeadersAccepted(headers[1..]);
      UpToAppend(REFUSES, [Data(Field, headers[0].name), Data(Value, headers[0].value)], HeaderEvents(headers[1..]));
    }
  }

  lemma TailAccepted(h: Head, body: string)
    ensures Accepted(REFUSES, TailEvents(h, body))
  {
    hide U.ParseUrl, DecimalString;
  }

  /** Print, then parse in one call: the parser takes every byte, reports no error and no upgrade,
      no callback is refused, and they rebuild the request. */
  lemma PrintThenParse(m: Message, limit: nat)
    requires Printable(m, limit)
    ensures var t := Run(Init(Request, limit), Print(m));
            && t.status == Running && t.used == |Print(m)| && !t.p.upgrade && Accepted(REFUSES, Callbacks(StartReq, t))
            && Rebuilt(m, Replay(NewRequest(), Callbacks(StartReq, t)))
  {
    hide Run, Group, Print, RequestEvents, Replay, Rebuilt, GoodTarget, GoodHeaders, DistinctNames, Accepted;
    var q, h := RequestGoes(m, limit);
    RunUsed(Init(Request, limit), Print(m));
    RequestReplay(m, h);
    RequestIsAccepted(m, h);
    var t := Run(Init(Request, limit), Print(m));
    WholeRun(Print(m), limit, q, RequestEvents(m, h));
  }

  /** The same through the objects: a fresh wrapper, one call to execute, and nothing is left. */
  method ParsePrinted(m: Message, limit: nat) returns (r: Building, n: nat, failed: bool)
    requires Printable(m, limit)
    ensures Rebuilt(m, r) && n == |Print(m)| && !failed
  {
    hide Run, Replay, Rebuilt, Callbacks, Reported, Accepted, UpTo;
    PrintThenParse(m, limit);
    PrintIsNotEmpty(m);
    var parser := new RequestParser(limit);
    NotFailed(parser.parser.st, Print(m));
    var rest;
    n, rest := parser.Execute(Print(m));
    r, failed := parser.data, parser.failed;
  }

  lemma PrintIsNotEmpty(m: Message)
    requires m.major < 10 && m.minor < 10
    ensures Print(m) != ""
  {}
}
