/** Callbacks of one buffer. The machine says when a mark is set and when a marked range is
    delivered; the parser delivers what is still marked when the buffer ends. Cutting the
    input elsewhere therefore changes the callbacks, but not the bytes they carry. */
module HttpCallbacks {
  import opened HttpTypes
  import opened HttpMachine
  import opened Seqs

  datatype Event = Data(kind: Kind, bytes: string) | Notify(notice: Notice)

  /** The open mark and the bytes behind it. */
  datatype Mark = NoMark | Open(kind: Kind, bytes: string)

  datatype Grouped = Grouped(mark: Mark, events: seq<Event>)

  /** MARK, the byte behind a mark, CALLBACK_DATA and CALLBACK_NOTIFY. */
  function Take(g: Grouped, item: Item): Grouped {
    match item
    case Begin(k) => if g.mark == NoMark then g.(mark := Open(k, "")) else g
    case Byte(_, b) => if g.mark == NoMark then g else g.(mark := Open(g.mark.kind, g.mark.bytes + [b]))
    case End(k) =>
      if g.mark.Open? && g.mark.kind == k then Grouped(NoMark, g.events + [Data(k, g.mark.bytes)]) else g
    case Note(n) => g.(events := g.events + [Notify(n)])
  }

  function Group(g: Grouped, items: seq<Item>): Grouped
    decreases |items|
  {
    if items == [] then g else Group(Take(g, items[0]), items[1..])
  }

  /** The mark a buffer starts with, by the state the parser was left in. */
  function InitialMark(s: State): Mark {
    if s == HeaderField then Open(Field, "")
    else if s == HeaderValue then Open(Value, "")
    else if IsUrlState(s) then Open(Url, "")
    else if s == ResStatus then Open(Status, "")
    else NoMark
  }

  function Flush(g: Grouped): seq<Event> {
    if g.mark == NoMark then g.events else g.events + [Data(g.mark.kind, g.mark.bytes)]
  }

  /** The callbacks of one call; an upgrade returns before the final flush. */
  function Callbacks(s: State, t: Trace): seq<Event> {
    var g := Group(Grouped(InitialMark(s), []), t.items);
    if t.status == Stopped then g.events else Flush(g)
  }

  /** The callbacks of one call as far as the run goes, also if it fails. */
  function Reported(s: State, t: Trace): seq<Event> {
    if t.status.Failed? then Group(Grouped(InitialMark(s), []), t.items).events else Callbacks(s, t)
  }

  // ---- callbacks that refuse --------------------------------------------------------------

  predicate Accepted(refuses: Event -> bool, events: seq<Event>) { forall i | 0 <= i < |events| :: !refuses(events[i]) }

  /** Calling back ends with the first event that is refused. */
  function UpTo(refuses: Event -> bool, events: seq<Event>): seq<Event>
    decreases |events|
  {
    if events == [] then []
    else if refuses(events[0]) then [events[0]]
    else [events[0]] + UpTo(refuses, events[1..])
  }

  lemma {:induction false} UpToAppend(refuses: Event -> bool, a: seq<Event>, b: seq<Event>)
    ensures Accepted(refuses, a) ==> UpTo(refuses, a + b) == a + UpTo(refuses, b)
    ensures !Accepted(refuses, a) ==> UpTo(refuses, a + b) == UpTo(refuses, a)
    ensures Accepted(refuses, a + b) <==> Accepted(refuses, a) && Accepted(refuses, b)
    decreases |a|
  {
    hide Accepted, UpTo;
    if a == [] {
      assert a + b == b && a + UpTo(refuses, b) == UpTo(refuses, b);
      AcceptedNone(refuses);
    } else {
      var e, rest := a[0], a[1..];
      assert a == [e] + rest;
      UpToAppend(refuses, rest, b);
      FirstEvent(refuses, e, rest);
      FirstEvent(refuses, e, rest + b);
      Assoc([e], rest, b);
      Assoc([e], rest, UpTo(refuses, b));
    }
  }

  lemma AcceptedNone(refuses: Event -> bool)
    ensures Accepted(refuses, [])
  {}

  lemma FirstEvent(refuses: Event -> bool, e: Event, rest: seq<Event>)
    ensures Accepted(refuses, [e] + rest) <==> !refuses(e) && Accepted(refuses, rest)
    ensures UpTo(refuses, [e] + rest) == if refuses(e) then [e] else [e] + UpTo(refuses, rest)
  {
    assert ([e] + rest)[1..] == rest;
    AcceptedCons(refuses, [e] + rest);
  }

  lemma AcceptedCons(refuses: Event -> bool, a: seq<Event>)
    requires a != []
    ensures Accepted(refuses, a) <==> !refuses(a[0]) && Accepted(refuses, a[1..])
  {
    if !refuses(a[0]) && Accepted(refuses, a[1..]) {
      forall i | 0 <= i < |a| ensures !refuses(a[i]) {
        if i > 0 { assert a[i] == a[1..][i - 1]; }
      }
    }
  }

  /** It ends behind exactly one refused event, the last, and all events are there if none is
      refused. */
  lemma {:induction false} UpToStops(refuses: Event -> bool, events: seq<Event>)
    ensures var x := UpTo(refuses, events);
            && x <= events && (Accepted(refuses, events) ==> x == events)
            && (!Accepted(refuses, events) ==> x != [] && refuses(x[|x| - 1]) && Accepted(refuses, x[..|x| - 1]))
    decreases |events|
  {
    hide Accepted;
    AcceptedNone(refuses);
    if events != [] {
      AcceptedCons(refuses, events);
      if refuses(events[0]) {
        assert [events[0]][..0] == [];
      } else {
        UpToStops(refuses, events[1..]);
        var x, rest := UpTo(refuses, events), UpTo(refuses, events[1..]);
        assert x == [events[0]] + rest;
        if !Accepted(refuses, events) {
          assert x[..|x| - 1] == [events[0]] + rest[..|rest| - 1];
          AcceptedCons(refuses, x[..|x| - 1]);
          assert x[..|x| - 1][1..] == rest[..|rest| - 1];
        }
      }
    }
  }

  // ---- which marks can be open ------------------------------------------------------------

  predicate BodyState(s: State) { (s.BodyIdentity? || s.BodyIdentityEof? || s.ChunkData? || s.ChunkDataAlmostDone?) }

  /** At most one mark is set, and the state says which. */
  predicate MarkOk(s: State, m: Mark) {
    if InitialMark(s).Open? then m.Open? && m.kind == InitialMark(s).kind
    else m == NoMark || (BodyState(s) && m.kind == Body)
  }

  /** A byte always lands behind a mark of its kind, and marks of two kinds never meet. */
  predicate Fits(m: Mark, item: Item) {
    match item
    case Begin(k) => m.Open? ==> m.kind == k
    case Byte(k, _) => m.Open? && m.kind == k
    case End(k) => m.Open? ==> m.kind == k
    case Note(_) => m == NoMark
  }

  predicate AllFit(g: Grouped, items: seq<Item>)
    decreases |items|
  {
    items == [] || (Fits(g.mark, items[0]) && AllFit(Take(g, items[0]), items[1..]))
  }

  lemma {:induction false} GroupAppend(g: Grouped, a: seq<Item>, b: seq<Item>)
    ensures Group(g, a + b) == Group(Group(g, a), b)
    ensures AllFit(g, a + b) == (AllFit(g, a) && AllFit(Group(g, a), b))
    decreases |a|
  {
    if a == [] {
      assert a + b == b;
    } else {
      GroupAppend(Take(g, a[0]), a[1..], b);
      assert (a + b)[1..] == a[1..] + b;
    }
  }

  /** What was called back stays called back. */
  lemma {:induction false} GroupExtends(g: Grouped, items: seq<Item>)
    ensures g.events <= Group(g, items).events
    decreases |items|
  {
    if items != [] { GroupExtends(Take(g, items[0]), items[1..]); }
  }

  lemma GroupOne(g: Grouped, a: Item)
    ensures Group(g, [a]) == Take(g, a)
    ensures AllFit(g, [a]) == Fits(g.mark, a)
  {
    assert [a][1..] == [];
  }

  lemma GroupTwo(g: Grouped, a: Item, b: Item)
    ensures Group(g, [a, b]) == Take(Take(g, a), b)
    ensures AllFit(g, [a, b]) == (Fits(g.mark, a) && Fits(Take(g, a).mark, b))
  {
    assert [a, b][1..] == [b];
    GroupOne(Take(g, a), b);
  }

  // ---- the content of callbacks -----------------------------------------------------------

  /** What can be told apart from outside: data bytes one at a time, and notifications. */
  datatype Sight = Carried(kind: Kind, b: char) | Told(notice: Notice)

  function Spread(k: Kind, bytes: string): seq<Sight> {
    if bytes == "" then [] else Spread(k, bytes[..|bytes| - 1]) + [Carried(k, bytes[|bytes| - 1])]
  }

  function Sights(e: Event): seq<Sight> {
    match e case Data(k, s) => Spread(k, s) case Notify(n) => [Told(n)]
  }

  function Flatten(events: seq<Event>): seq<Sight> {
    if events == [] then [] else Flatten(events[..|events| - 1]) + Sights(events[|events| - 1])
  }

  function Sighted(item: Item): seq<Sight> {
    match item case Byte(k, b) => [Carried(k, b)] case Note(n) => [Told(n)] case _ => []
  }

  function Visible(items: seq<Item>): seq<Sight> {
    if items == [] then [] else Sighted(items[0]) + Visible(items[1..])
  }

  /** Everything delivered so far together with what stands behind the open mark. */
  function Seen(g: Grouped): seq<Sight> {
    Flatten(g.events) + if g.mark == NoMark then [] else Spread(g.mark.kind, g.mark.bytes)
  }

  lemma {:induction false} VisibleAppend(a: seq<Item>, b: seq<Item>)
    ensures Visible(a + b) == Visible(a) + Visible(b)
  {
    if a == [] {
      assert a + b == b;
    } else {
      hide Visible, Sighted;
      var rest := a[1..];
      var first := Sighted(a[0]);
      calc {
        Visible(a + b);
        { assert a + b == [a[0]] + (rest + b); VisibleCons(a[0], rest + b); }
        first + Visible(rest + b);
        { VisibleAppend(rest, b); }
        first + (Visible(rest) + Visible(b));
        { Assoc(first, Visible(rest), Visible(b)); }
        (first + Visible(rest)) + Visible(b);
        { assert a == [a[0]] + rest; VisibleCons(a[0], rest); }
        Visible(a) + Visible(b);
      }
    }
  }

  lemma VisibleCons(a: Item, rest: seq<Item>)
    ensures Visible([a] + rest) == Sighted(a) + Visible(rest)
  {
    assert ([a] + rest)[1..] == rest;
  }

  lemma FlattenSnoc(a: seq<Event>, e: Event)
    ensures Flatten(a + [e]) == Flatten(a) + Sights(e)
  {
    assert (a + [e])[..|a + [e]| - 1] == a;
  }

  lemma {:induction false} FlattenAppend(a: seq<Event>, b: seq<Event>)
    ensures Flatten(a + b) == Flatten(a) + Flatten(b)
  {
    if b == [] {
      assert a + b == a;
    } else {
      hide Flatten, Sights;
      var init, e := b[..|b| - 1], b[|b| - 1];
      calc {
        Flatten(a + b);
        { assert b == init + [e]; Assoc(a, init, [e]); FlattenSnoc(a + init, e); }
        Flatten(a + init) + Sights(e);
        { FlattenAppend(a, init); }
        (Flatten(a) + Flatten(init)) + Sights(e);
        { Assoc(Flatten(a), Flatten(init), Sights(e)); }
        Flatten(a) + (Flatten(init) + Sights(e));
        { assert b == init + [e]; FlattenSnoc(init, e); }
        Flatten(a) + Flatten(b);
      }
    }
  }

  lemma TakeSeen(g: Grouped, item: Item)
    requires Fits(g.mark, item)
    ensures Seen(Take(g, item)) == Seen(g) + Sighted(item)
  {
    match item
    case Begin(_) =>
    case Byte(k, b) =>
      var s := g.mark.bytes + [b];
      assert s[..|s| - 1] == g.mark.bytes;
    case End(_) => if g.mark.Open? { FlattenSnoc(g.events, Data(g.mark.kind, g.mark.bytes)); }
    case Note(n) => FlattenSnoc(g.events, Notify(n));
  }

  /** Grouping neither loses, invents nor reorders anything. */
  lemma {:induction false} GroupSeen(g: Grouped, items: seq<Item>)
    requires AllFit(g, items)
    ensures Seen(Group(g, items)) == Seen(g) + Visible(items)
    decreases |items|
  {
    if items != [] {
      TakeSeen(g, items[0]);
      GroupSeen(Take(g, items[0]), items[1..]);
    }
  }

  lemma FlushSeen(g: Grouped)
    ensures Flatten(Flush(g)) == Seen(g)
  {
    if g.mark.Open? { FlattenSnoc(g.events, Data(g.mark.kind, g.mark.bytes)); }
  }

  // ---- every step respects the marks ----------------------------------------------------------

  /** The items suit the marks of both states, and an open mark reaches up to the last byte. */
  predicate Suits(g: Grouped, items: seq<Item>, after: State) {
    var h := Group(g, items);
    && AllFit(g, items)
    && MarkOk(after, h.mark)
    && (h.mark.Open? ==> items != [] && items[|items| - 1].Byte?)
  }

  predicate OutcomeSuits(g: Grouped, o: Outcome) {
    match o
    case Go(q, items) => Suits(g, items, q.state)
    case Stop(q, items) => Suits(g, items, q.state) && Group(g, items).mark == NoMark
    case Fail(_) => true
  }

  lemma SuitsEmpty(g: Grouped, after: State)
    requires g.mark == NoMark && MarkOk(after, NoMark)
    ensures Suits(g, [], after)
  {}

  lemma SuitsOne(g: Grouped, a: Item, after: State)
    requires Fits(g.mark, a) && MarkOk(after, Take(g, a).mark) && (Take(g, a).mark.Open? ==> a.Byte?)
    ensures Suits(g, [a], after)
  {
    GroupOne(g, a);
  }

  lemma SuitsTwo(g: Grouped, a: Item, b: Item, after: State)
    requires Fits(g.mark, a) && Fits(Take(g, a).mark, b)
    requires MarkOk(after, Take(Take(g, a), b).mark) && (Take(Take(g, a), b).mark.Open? ==> b.Byte?)
    ensures Suits(g, [a, b], after)
  {
    GroupTwo(g, a, b);
  }

  lemma PrependSuits(g: Grouped, items: seq<Item>, o: Outcome)
    requires AllFit(g, items) && Group(g, items).mark == NoMark && OutcomeSuits(Group(g, items), o)
    ensures OutcomeSuits(g, Prepend(items, o))
  {
    if !o.Fail? { GroupAppend(g, items, o.items); }
  }

  lemma MessageDoneSuits(g: Grouped, p: Parser)
    requires g.mark == NoMark
    ensures OutcomeSuits(g, OnMessageDone(p))
  {
    hide Suits, Group, AllFit;
    SuitsOne(g, Note(MessageComplete), NewMessage(p).state);
    GroupOne(g, Note(MessageComplete));
  }

  lemma HeadersDoneShape(p: Parser, ch: char)
    ensures var o := OnHeadersDone(p, ch);
            || o.Fail?
            || (o.items == [Note(MessageComplete)] && MarkOk(o.p.state, NoMark))
            || (o.Go? && o.items == [] && MarkOk(o.p.state, NoMark))
  {
    hide NeedsEof;
  }

  lemma HeadersDoneSuits(g: Grouped, p: Parser, ch: char)
    requires g.mark == NoMark
    ensures OutcomeSuits(g, OnHeadersDone(p, ch))
  {
    hide Suits, Group, AllFit, OnHeadersDone, MarkOk;
    HeadersDoneShape(p, ch);
    var o := OnHeadersDone(p, ch);
    if o.Fail? {
    } else if o.items == [] {
      SuitsEmpty(g, o.p.state);
    } else {
      SuitsOne(g, Note(MessageComplete), o.p.state);
      GroupOne(g, Note(MessageComplete));
    }
  }

  lemma HeadersAlmostDoneSuits(g: Grouped, p: Parser, ch: char)
    requires g.mark == NoMark
    ensures OutcomeSuits(g, OnHeadersAlmostDone(p, ch))
  {
    hide Suits, Group, AllFit;
    if ch == LF && p.flags.trailing {
      GroupOne(g, Note(ChunkComplete));
      MessageDoneSuits(Take(g, Note(ChunkComplete)), p);
      PrependSuits(g, [Note(ChunkComplete)], OnMessageDone(p));
    } else if ch == LF && !(p.flags.chunked && p.flags.contentLength) {
      var up := if p.flags.upgrade && p.flags.connUpgrade then p.ptype == Request || p.statusCode == 101
                else p.meth == CONNECT;
      var q := p.(state := HeadersDone, upgrade := up);
      GroupOne(g, Note(HeadersComplete(HeadOf(q))));
      HeadersDoneSuits(Take(g, Note(HeadersComplete(HeadOf(q)))), q, ch);
      PrependSuits(g, [Note(HeadersComplete(HeadOf(q)))], OnHeadersDone(q, ch));
    }
  }

  lemma HeaderFieldStartSuits(g: Grouped, p: Parser, ch: char)
    requires g.mark == NoMark
    ensures OutcomeSuits(g, OnHeaderFieldStart(p, ch))
  {
    hide Suits, Group, AllFit;
    if ch == CR {
      SuitsEmpty(g, HeadersAlmostDone);
    } else if ch == LF {
      HeadersAlmostDoneSuits(g, p, ch);
    } else if Token(ch) != '\0' {
      SuitsTwo(g, Begin(Field), Byte(Field, ch), HeaderField);
    }
  }

  lemma ValueStartShape(p: Parser, ch: char)
    ensures var o := OnValueStart(p, ch);
            o.Fail? || (o.Go? && o.p.state == HeaderValue && o.items == [Begin(Value), Byte(Value, ch)])
  {}

  lemma ValueStartSuits(g: Grouped, p: Parser, ch: char)
    requires g.mark == NoMark
    ensures OutcomeSuits(g, OnValueStart(p, ch))
  {
    hide Suits, Group, AllFit, OnValueStart;
    SuitsTwo(g, Begin(Value), Byte(Value, ch), HeaderValue);
    ValueStartShape(p, ch);
  }

  lemma DiscardLwsSuits(g: Grouped, p: Parser, ch: char)
    requires g.mark == NoMark
    ensures OutcomeSuits(g, OnDiscardLws(p, ch))
  {
    hide Suits, Group, AllFit;
    if ch == ' ' || ch == '\t' {
      SuitsEmpty(g, HeaderValueDiscardWs);
    } else if p.hs != ContentLength {
      GroupTwo(g, Begin(Value), End(Value));
      var q := p.(flags := SetFlag(p.flags, p.hs));
      HeaderFieldStartSuits(Group(g, [Begin(Value), End(Value)]), q, ch);
      PrependSuits(g, [Begin(Value), End(Value)], OnHeaderFieldStart(q, ch));
    }
  }

  lemma HeaderValueSuits(g: Grouped, p: Parser, ch: char)
    requires MarkOk(HeaderValue, g.mark) && p.state == HeaderValue
    ensures OutcomeSuits(g, OnHeaderValue(p, ch))
  {
    hide Suits, Group, AllFit, ValueByte;
    if ch == CR {
      SuitsOne(g, End(Value), HeaderAlmostDone);
    } else if ch == LF {
      SuitsOne(g, End(Value), HeaderValueLws);
    } else {
      SuitsOne(g, Byte(Value, ch), HeaderValue);
    }
  }

  lemma HeaderFieldShape(p: Parser, ch: char)
    ensures var o := OnHeaderField(p, ch);
            || o.Fail?
            || (o.Go? && o.p.state == p.state && o.items == [Byte(Field, ch)])
            || (o.Go? && o.p.state == HeaderValueDiscardWs && o.items == [End(Field)])
    ensures OnHeaderField(p, ch).Go? ==> OnHeaderField(p, ch).p.nread == p.nread && OnHeaderField(p, ch).p.limit == p.limit
  {
    hide NameByte, Token;
  }

  lemma HeaderFieldSuits(g: Grouped, p: Parser, ch: char)
    requires MarkOk(HeaderField, g.mark) && p.state == HeaderField
    ensures OutcomeSuits(g, OnHeaderField(p, ch))
  {
    hide Suits, Group, AllFit, OnHeaderField;
    HeaderFieldShape(p, ch);
    SuitsOne(g, Byte(Field, ch), HeaderField);
    SuitsOne(g, End(Field), HeaderValueDiscardWs);
  }

  lemma DiscardWsSuits(g: Grouped, p: Parser, ch: char)
    requires g.mark == NoMark && p.state == HeaderValueDiscardWs
    ensures OutcomeSuits(g, OnDiscardWs(p, ch))
  {
    hide Suits, Group, AllFit, OnValueStart;
    if ch == ' ' || ch == '\t' {
      SuitsEmpty(g, p.state);
    } else if ch == CR {
      SuitsEmpty(g, HeaderValueDiscardWsAlmostDone);
    } else if ch == LF {
      SuitsEmpty(g, HeaderValueDiscardLws);
    } else {
      ValueStartSuits(g, p, ch);
    }
  }

  lemma ValueLwsSuits(g: Grouped, p: Parser, ch: char)
    requires g.mark == NoMark
    ensures OutcomeSuits(g, OnValueLws(p, ch))
  {
    hide OutcomeSuits, OnValueStart, OnHeaderFieldStart;
    ValueStartSuits(g, if p.hs == ContentLengthNum then p.(hs := ContentLengthWs) else p, ch);
    HeaderFieldStartSuits(g, p.(flags := SetFlag(p.flags, p.hs)), ch);
  }

  lemma HeaderLineSuits(g: Grouped, p: Parser, ch: char)
    requires MarkOk(p.state, g.mark) && IsHeaderLineState(p.state)
    ensures OutcomeSuits(g, OnHeaderLine(p, ch))
  {
    hide Suits, Group, AllFit, OnHeaderFieldStart, OnValueStart, OnHeaderValue, OnHeadersAlmostDone, OnHeadersDone,
         OnDiscardLws, OnHeaderField, OnDiscardWs, OnValueLws, OutcomeSuits;
    match p.state
    case HeaderFieldStart => HeaderFieldStartSuits(g, p, ch);
    case HeaderField => HeaderFieldSuits(g, p, ch);
    case HeaderValueDiscardWs => DiscardWsSuits(g, p, ch);
    case HeaderValueDiscardWsAlmostDone => LineFeedSuits(g, p, HeaderValueDiscardLws);
    case HeaderValueDiscardLws => DiscardLwsSuits(g, p, ch);
    case HeaderValueStart => ValueStartSuits(g, p, ch);
    case HeaderValue => HeaderValueSuits(g, p, ch);
    case HeaderAlmostDone => LineFeedSuits(g, p, HeaderValueLws);
    case HeaderValueLws => ValueLwsSuits(g, p, ch);
    case HeadersAlmostDone => HeadersAlmostDoneSuits(g, p, ch);
    case HeadersDone => HeadersDoneSuits(g, p, ch);
  }

  lemma LineFeedSuits(g: Grouped, p: Parser, after: State)
    requires g.mark == NoMark && MarkOk(after, NoMark)
    ensures OutcomeSuits(g, Go(p.(state := after), []))
    ensures OutcomeSuits(g, Fail(LfExpected)) && OutcomeSuits(g, Fail(Strict))
  {
    SuitsEmpty(g, after);
  }

  lemma StartShape(p: Parser, ch: char)
    requires IsStartState(p.state)
    ensures var o := OnStart(p, ch);
            || o.Fail?
            || (o.Go? && (o.items == [] || o.items == [Note(MessageBegin)]) && MarkOk(o.p.state, NoMark))
  {
    hide FirstMethod;
    match p.state
    case StartReqOrRes =>
    case StartRes =>
    case StartReq =>
    case ResOrRespH =>
    case Dead =>
  }

  lemma StartSuits(g: Grouped, p: Parser, ch: char)
    requires g.mark == NoMark && IsStartState(p.state)
    ensures OutcomeSuits(g, OnStart(p, ch))
  {
    hide Suits, Group, AllFit, OnStart;
    StartShape(p, ch);
    var o := OnStart(p, ch);
    if o.Go? {
      hide MarkOk;
      if o.items == [] { SuitsEmpty(g, o.p.state); } else { SuitsOne(g, Note(MessageBegin), o.p.state); }
    }
  }

  lemma StatusSuits(g: Grouped, p: Parser, ch: char)
    requires g.mark.Open? && g.mark.kind == Status
    ensures OutcomeSuits(g, OnStatus(p, ch))
  {
    hide Suits, Group, AllFit;
    if ch == CR {
      SuitsOne(g, End(Status), ResLineAlmostDone);
    } else if ch == LF {
      SuitsOne(g, End(Status), HeaderFieldStart);
    } else {
      SuitsOne(g, Byte(Status, ch), ResStatus);
    }
  }

  lemma StatusStartSuits(g: Grouped, p: Parser, ch: char)
    requires g.mark == NoMark
    ensures OutcomeSuits(g, OnStatusStart(p, ch))
  {
    GroupOne(g, Begin(Status));
    var h := Take(g, Begin(Status));
    var o := OnStatus(p.(index := 0), ch);
    StatusSuits(h, p.(index := 0), ch);
    GroupAppend(g, [Begin(Status)], o.items);
  }

  lemma QuietResVersion(p: Parser, ch: char)
    requires IsResVersionState(p.state)
    ensures var o := OnResVersion(p, ch);
            o.Fail? || (o.Go? && o.items == [] && (IsResVersionState(o.p.state) || o.p.state == ResFirstStatusCode))
  {}

  lemma QuietStatusCode(p: Parser, ch: char)
    requires p.state == ResFirstStatusCode || p.state == ResStatusCode
    requires p.state == ResStatusCode ==> ch != CR && ch != LF
    ensures var o := OnStatusCode(p, ch);
            o.Fail? || (o.Go? && o.items == [] && MarkOk(o.p.state, NoMark))
  {
    hide OnStatusStart;
  }

  lemma StatusLineSuits(g: Grouped, p: Parser, ch: char)
    requires MarkOk(p.state, g.mark) && IsStatusLineState(p.state)
    ensures OutcomeSuits(g, OnStatusLine(p, ch))
  {
    hide Suits, Group, AllFit, OnStatus, OnStatusStart, OnResVersion, OnStatusCode;
    if IsResVersionState(p.state) {
      QuietResVersion(p, ch);
      var o := OnResVersion(p, ch);
      if o.Go? { SuitsEmpty(g, o.p.state); }
    } else if p.state == ResStatus {
      StatusSuits(g, p, ch);
    } else if p.state == ResStatusStart {
      StatusStartSuits(g, p, ch);
    } else if p.state == ResLineAlmostDone {
      SuitsEmpty(g, HeaderFieldStart);
    } else {
      StatusCodeSuits(g, p, ch);
    }
  }

  lemma StatusCodeSuits(g: Grouped, p: Parser, ch: char)
    requires g.mark == NoMark && (p.state == ResFirstStatusCode || p.state == ResStatusCode)
    ensures OutcomeSuits(g, OnStatusCode(p, ch))
  {
    hide Suits, Group, AllFit, OnStatusStart;
    if p.state == ResStatusCode && (ch == CR || ch == LF) {
      StatusStartSuits(g, p, ch);
    } else {
      QuietStatusCode(p, ch);
      hide OnStatusCode;
      var o := OnStatusCode(p, ch);
      if o.Go? { SuitsEmpty(g, o.p.state); }
    }
  }

  lemma QuietMethod(p: Parser, ch: char)
    ensures var o := OnMethod(p, ch);
            || o.Fail?
            || (o.Go? && o.items == [] && (o.p.state == p.state || o.p.state == ReqSpacesBeforeUrl))
  {
    hide Rematch, MethodName, IsUpper;
  }

  lemma QuietHttpVersion(p: Parser, ch: char)
    requires IsRequestLineState(p.state) && p.state != ReqMethod
    ensures var o := OnHttpVersion(p, ch);
            o.Fail? || (o.Go? && o.items == [] && (IsRequestLineState(o.p.state) || o.p.state == HeaderFieldStart))
  {}

  lemma QuietRequestLine(p: Parser, ch: char)
    requires IsRequestLineState(p.state)
    ensures var o := OnRequestLine(p, ch);
            o.Fail? || (o.Go? && o.items == [] && MarkOk(o.p.state, NoMark))
  {
    hide OnMethod, OnHttpVersion;
    if p.state == ReqMethod { QuietMethod(p, ch); } else { QuietHttpVersion(p, ch); }
  }

  lemma RequestLineSuits(g: Grouped, p: Parser, ch: char)
    requires g.mark == NoMark && IsRequestLineState(p.state)
    ensures OutcomeSuits(g, OnRequestLine(p, ch))
  {
    hide Suits, Group, AllFit, OnRequestLine;
    QuietRequestLine(p, ch);
    if OnRequestLine(p, ch).Go? { SuitsEmpty(g, OnRequestLine(p, ch).p.state); }
  }

  lemma UrlCharStaysInUrl(s: State, ch: char)
    ensures ParseUrlChar(s, ch) == Dead || IsUrlState(ParseUrlChar(s, ch))
  {}

  lemma UrlByteSuits(g: Grouped, p: Parser, from: State, ch: char, items: seq<Item>)
    requires items == [] || items == [Begin(Url)]
    requires if items == [] then g.mark.Open? && g.mark.kind == Url else g.mark == NoMark
    ensures OutcomeSuits(g, UrlByte(p, from, ch, items))
  {
    hide Suits, Group, AllFit, ParseUrlChar;
    var s := ParseUrlChar(from, ch);
    UrlCharStaysInUrl(from, ch);
    if s != Dead {
      hide MarkOk;
      if items == [] {
        assert items + [Byte(Url, ch)] == [Byte(Url, ch)];
        UrlStateMark(s, g.mark.bytes + [ch]);
        SuitsOne(g, Byte(Url, ch), s);
      } else {
        assert items + [Byte(Url, ch)] == [Begin(Url), Byte(Url, ch)];
        UrlStateMark(s, [ch]);
        assert "" + [ch] == [ch];
        SuitsTwo(g, Begin(Url), Byte(Url, ch), s);
      }
    }
  }

  lemma UrlStateMark(s: State, bytes: string)
    requires IsUrlState(s)
    ensures MarkOk(s, Open(Url, bytes))
  {}

  lemma UrlSuits(g: Grouped, p: Parser, ch: char)
    requires MarkOk(p.state, g.mark) && (p.state == ReqSpacesBeforeUrl || IsUrlState(p.state))
    ensures OutcomeSuits(g, OnUrl(p, ch))
  {
    hide Suits, Group, AllFit, UrlByte;
    if p.state == ReqSpacesBeforeUrl {
      SuitsEmpty(g, p.state);
      UrlByteSuits(g, p, if p.meth == CONNECT then ReqServerStart else p.state, ch, [Begin(Url)]);
    } else {
      assert g.mark.Open? && g.mark.kind == Url;
      UrlByteSuits(g, p, p.state, ch, []);
      UrlEndSuits(g);
      hide IsUrlState, MarkOk;
    }
  }

  lemma UrlEndSuits(g: Grouped)
    requires g.mark.Open? && g.mark.kind == Url
    ensures Suits(g, [End(Url)], ReqHttpStart) && Suits(g, [End(Url)], ReqLineAlmostDone)
    ensures Suits(g, [End(Url)], HeaderFieldStart)
  {
    hide Suits, Group, AllFit;
    SuitsOne(g, End(Url), ReqHttpStart);
    SuitsOne(g, End(Url), ReqLineAlmostDone);
    SuitsOne(g, End(Url), HeaderFieldStart);
  }

  lemma BodySuits(g: Grouped, p: Parser, ch: char)
    requires MarkOk(p.state, g.mark) && IsBodyByteState(p.state)
    ensures OutcomeSuits(g, OnBody(p, ch))
  {
    hide Suits, Group, AllFit;
    var items := [Begin(Body), Byte(Body, ch)];
    if p.state == BodyIdentity && p.contentLength == 1 {
      GroupTwo(g, Begin(Body), Byte(Body, ch));
      GroupAppend(g, items, [End(Body)]);
      GroupOne(Group(g, items), End(Body));
      var q := p.(contentLength := 0);
      MessageDoneSuits(Group(g, items + [End(Body)]), q);
      PrependSuits(g, items + [End(Body)], OnMessageDone(q));
    } else if p.state == ChunkData && p.contentLength == 1 {
      SuitsTwo(g, Begin(Body), Byte(Body, ch), ChunkDataAlmostDone);
    } else {
      SuitsTwo(g, Begin(Body), Byte(Body, ch), p.state);
    }
  }

  /** What a byte of a chunk's lines can report. */
  predicate ChunkOutcome(p: Parser, o: Outcome) {
    match p.state
    case ChunkDataAlmostDone => o.Fail? || (o.Go? && o.items == [End(Body)] && o.p.state == ChunkDataDone)
    case ChunkSizeAlmostDone =>
      o.Fail? || (o.Go? && o.items == [Note(ChunkHeader(p.contentLength))] && (o.p.state == HeaderFieldStart || o.p.state == ChunkData))
    case ChunkDataDone => o.Fail? || (o.Go? && o.items == [Note(ChunkComplete)] && o.p.state == ChunkSizeStart)
    case _ => o.Fail? || (o.Go? && o.items == [] && IsChunkLineState(o.p.state) && !o.p.state.ChunkDataAlmostDone?)
  }

  lemma ChunkShape(p: Parser, ch: char)
    requires IsChunkLineState(p.state)
    ensures ChunkOutcome(p, OnChunk(p, ch))
  {
    hide Unhex;
  }

  lemma ChunkSuits(g: Grouped, p: Parser, ch: char)
    requires MarkOk(p.state, g.mark) && IsChunkLineState(p.state)
    ensures OutcomeSuits(g, OnChunk(p, ch))
  {
    hide Suits, Group, AllFit, OnChunk;
    ChunkShape(p, ch);
    var o := OnChunk(p, ch);
    if o.Go? {
      if o.items == [] {
        SuitsEmpty(g, o.p.state);
      } else if p.state == ChunkDataAlmostDone {
        SuitsOne(g, End(Body), ChunkDataDone);
      } else {
        SuitsOne(g, o.items[0], o.p.state);
      }
    }
  }

  lemma DispatchSuits(g: Grouped, p: Parser, ch: char)
    requires MarkOk(p.state, g.mark)
    ensures OutcomeSuits(g, Dispatch(p, ch))
  {
    hide Suits, Group, AllFit, OnHeaderLine, OnStart, OnRequestLine, OnUrl, OnStatusLine, OnBody, OnChunk, OnMessageDone,
         OutcomeSuits;
    if IsStartState(p.state) {
      StartSuits(g, p, ch);
    } else if IsStatusLineState(p.state) {
      StatusLineSuits(g, p, ch);
    } else if IsRequestLineState(p.state) {
      RequestLineSuits(g, p, ch);
    } else if p.state == ReqSpacesBeforeUrl || IsUrlState(p.state) {
      UrlSuits(g, p, ch);
    } else if IsHeaderLineState(p.state) {
      HeaderLineSuits(g, p, ch);
    } else if IsChunkLineState(p.state) {
      ChunkSuits(g, p, ch);
    } else if IsBodyByteState(p.state) {
      BodySuits(g, p, ch);
    } else {
      MessageDoneSuits(g, p);
    }
  }

  /** Whatever the state and the byte: no byte is dropped and no two marks are ever set. */
  lemma StepSuits(g: Grouped, p: Parser, ch: char)
    requires MarkOk(p.state, g.mark)
    ensures OutcomeSuits(g, Step(p, ch))
  {
    hide Suits, Group, AllFit, Dispatch;
    DispatchSuits(g, if InHeader(p.state) then p.(nread := p.nread + 1) else p, ch);
  }

  // ---- whole runs --------------------------------------------------------------------------------

  /** In every run each byte is delivered exactly once, in order, and at most one mark is
      open at any time; after an upgrade no mark is left. */
  lemma {:induction false} RunSuits(g: Grouped, p: Parser, s: string)
    requires MarkOk(p.state, g.mark)
    ensures var t := Run(p, s);
            && AllFit(g, t.items)
            && (t.status == Running ==> MarkOk(t.p.state, Group(g, t.items).mark))
            && (t.status == Stopped ==> Group(g, t.items).mark == NoMark)
  {
    if s == "" {
    } else {
      hide Step, AllFit, Group;
      var t := Run(p, s[..|s| - 1]);
      RunSuits(g, p, s[..|s| - 1]);
      if t.status == Running {
        StepSuits(Group(g, t.items), t.p, s[|s| - 1]);
        match Step(t.p, s[|s| - 1])
        case Go(_, items) => GroupAppend(g, t.items, items);
        case Stop(_, items) => GroupAppend(g, t.items, items);
        case Fail(_) =>
      }
    }
  }

  /** The callbacks of one call carry exactly what the machine shows. */
  lemma CallbacksShowRun(p: Parser, s: string)
    requires !Run(p, s).status.Failed?
    ensures Flatten(Callbacks(p.state, Run(p, s))) == Visible(Run(p, s).items)
  {
    hide Step, Run, AllFit, Group, Visible;
    var g0 := Grouped(InitialMark(p.state), []);
    var t := Run(p, s);
    RunSuits(g0, p, s);
    assert Seen(g0) == [];
    hide Flatten, InitialMark;
    GroupSeen(g0, t.items);
    FlushSeen(Group(g0, t.items));
    hide Seen;
  }

  // ---- feeding a stream buffer by buffer ------------------------------------------------------------

  datatype Fed = Fed(p: Parser, events: seq<Event>, used: nat, status: Status)

  /** One call per buffer, until an error or an upgrade. */
  function Feed(p: Parser, buffers: seq<string>): Fed
    decreases |buffers|
  {
    if buffers == [] then Fed(p, [], 0, Running)
    else
      var t := Run(p, buffers[0]);
      if t.status.Failed? then Fed(t.p, [], t.used, t.status)
      else
        var events := Callbacks(p.state, t);
        if t.status == Stopped then Fed(t.p, events, t.used, Stopped)
        else
          var rest := Feed(t.p, buffers[1..]);
          Fed(rest.p, events + rest.events, t.used + rest.used, rest.status)
  }

  function Concat(buffers: seq<string>): string {
    if buffers == [] then "" else buffers[0] + Concat(buffers[1..])
  }

  /** Split invariance: however a stream is cut into buffers, the outcome, the final parser
      fields, the consumed bytes and everything the callbacks carry, in order, are those of
      one call on the whole stream. */
  lemma {:induction false} SplitInvariance(p: Parser, buffers: seq<string>)
    ensures var whole := Run(p, Concat(buffers));
            var fed := Feed(p, buffers);
            && fed.status == whole.status
            && (!whole.status.Failed? ==>
                  && fed.p == whole.p && fed.used == whole.used
                  && Flatten(fed.events) == Flatten(Callbacks(p.state, whole)))
    decreases |buffers|
  {
    if buffers == [] {
      CallbacksShowRun(p, "");
    } else {
      hide Run, Callbacks, Visible, Flatten;
      var rest := buffers[1..];
      var t := Run(p, buffers[0]);
      RunAppend(p, buffers[0], Concat(rest));
      if t.status == Running {
        var fed := Feed(t.p, rest);
        assert Feed(p, buffers) == Fed(fed.p, Callbacks(p.state, t) + fed.events, t.used + fed.used, fed.status);
        assert Concat(buffers) == buffers[0] + Concat(rest);
        hide Feed, Concat;
        SplitInvariance(t.p, rest);
        if !Run(p, Concat(buffers)).status.Failed? {
          FirstBuffer(p, buffers[0], Concat(rest), fed.events);
        }
      }
    }
  }

  lemma FirstBuffer(p: Parser, a: string, b: string, more: seq<Event>)
    requires Run(p, a).status == Running && !Run(Run(p, a).p, b).status.Failed?
    requires Flatten(more) == Flatten(Callbacks(Run(p, a).p.state, Run(Run(p, a).p, b)))
    ensures Flatten(Callbacks(p.state, Run(p, a)) + more) == Flatten(Callbacks(p.state, Run(p, a + b)))
  {
    hide Run, Callbacks, Visible, Flatten;
    var t := Run(p, a);
    RunAppend(p, a, b);
    CallbacksShowRun(p, a + b);
    CallbacksShowRun(p, a);
    CallbacksShowRun(t.p, b);
    VisibleAppend(t.items, Run(t.p, b).items);
    FlattenAppend(Callbacks(p.state, t), more);
  }
}
