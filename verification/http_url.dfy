/** Taking a URL apart: two automata that mark off its fields, one for the whole URL and one for
    the part between the slashes. */
module HttpUrl {
  import opened Options
  import opened HttpTypes
  import opened HttpMachine
  import opened HttpFraming

  datatype Field = SCHEMA | HOST | PORT | PATH | QUERY | FRAGMENT | USERINFO
  datatype Span = Span(off: nat, len: nat)

  function Longer(s: Span): Span { s.(len := s.len + 1) }
  function End(s: Span): nat { s.off + s.len }
  predicate In(s: Span, k: int) { s.off <= k < End(s) }

  /** struct http_parser_url; a field is in the map if its bit is set. */
  datatype ParsedUrl = ParsedUrl(fields: map<Field, Span>, port: nat)

  predicate Delimiter(c: char) { c == ':' || c == '/' || c == '?' || c == '#' || c == '@' || c == '[' || c == ']' }

  // ---- the outer automaton -------------------------------------------------------------------

  /** The field a byte belongs to, by the state it leads to; None skips a delimiter. */
  function FieldOf(s: State): Option<Field> {
    match s
    case ReqSchema => Some(SCHEMA)
    case ReqServer => Some(HOST)
    case ReqServerWithAt => Some(HOST)
    case ReqPath => Some(PATH)
    case ReqQuery => Some(QUERY)
    case ReqFragment => Some(FRAGMENT)
    case _ => None
  }

  datatype Outer = Outer(s: State, last: Option<Field>, foundAt: bool, fields: map<Field, Span>)

  function OuterStart(isConnect: bool): Outer {
    Outer(if isConnect then ReqServerStart else ReqSpacesBeforeUrl, None, false, map[])
  }

  /** Byte p of the URL. */
  function OuterByte(o: Outer, p: nat, ch: char): Option<Outer> {
    var s := ParseUrlChar(o.s, ch);
    if s == Dead then None
    else match FieldOf(s)
      case None => Some(o.(s := s))
      case Some(f) =>
        var at := o.foundAt || s == ReqServerWithAt;
        if o.last == Some(f) && f in o.fields then
          Some(Outer(s, o.last, at, o.fields[f := Longer(o.fields[f])]))
        else Some(Outer(s, Some(f), at, o.fields[f := Span(p, 1)]))
  }

  function OuterRun(buf: string, n: nat, isConnect: bool): Option<Outer>
    requires n <= |buf|
  {
    if n == 0 then Some(OuterStart(isConnect))
    else match OuterRun(buf, n - 1, isConnect)
      case Some(o) => OuterByte(o, n - 1, buf[n - 1])
      case None => None
  }

  // ---- the inner automaton --------------------------------------------------------------------

  datatype HostState =
    | HostDead | UserinfoStart | Userinfo | HostStart | V6Start | Host | V6 | V6End | ZoneStart | Zone | PortStart | Port

  function HostChar(s: HostState, ch: char): HostState {
    match s
    case UserinfoStart => if ch == '@' then HostStart else if IsUserinfoChar(ch) then Userinfo else HostDead
    case Userinfo => if ch == '@' then HostStart else if IsUserinfoChar(ch) then Userinfo else HostDead
    case HostStart => if ch == '[' then V6Start else if IsHostChar(ch) then Host else HostDead
    case Host => if IsHostChar(ch) then Host else if ch == ':' then PortStart else HostDead
    case V6End => if ch == ':' then PortStart else HostDead
    case V6 => if ch == ']' then V6End else if IsV6(ch) then V6 else if ch == '%' then ZoneStart else HostDead
    case V6Start => if IsV6(ch) then V6 else HostDead
    case Zone => if ch == ']' then V6End else if IsZone(ch) then Zone else HostDead
    case ZoneStart => if IsZone(ch) then Zone else HostDead
    case PortStart => if IsNum(ch) then Port else HostDead
    case Port => if IsNum(ch) then Port else HostDead
    case HostDead => HostDead
  }

  predicate IsV6(ch: char) { IsHex(ch) || ch == ':' || ch == '.' }

  /** A zone id of RFC 6874: unreserved or percent-encoded. */
  predicate IsZone(ch: char) { IsAlphaNum(ch) || ch == '%' || ch == '.' || ch == '-' || ch == '_' || ch == '~' }

  datatype Inner = Inner(s: HostState, host: Span, port: Option<Span>, user: Option<Span>)

  function LongerOr(s: Option<Span>, again: bool, p: nat): Option<Span> {
    if again && s.Some? then Some(Longer(s.value)) else Some(Span(p, 1))
  }

  function InnerByte(h: Inner, p: nat, ch: char): Option<Inner> {
    var s := HostChar(h.s, ch);
    match s
    case HostDead => None
    case Host => Some(h.(s := s, host := Longer(if h.s != Host then h.host.(off := p) else h.host)))
    case V6 => Some(h.(s := s, host := Longer(if h.s != V6 then h.host.(off := p) else h.host)))
    case ZoneStart => Some(h.(s := s, host := Longer(h.host)))
    case Zone => Some(h.(s := s, host := Longer(h.host)))
    case Port => Some(h.(s := s, port := LongerOr(h.port, h.s == Port, p)))
    case Userinfo => Some(h.(s := s, user := LongerOr(h.user, h.s == Userinfo, p)))
    case _ => Some(h.(s := s))
  }

  /** The bytes from off to n. */
  function InnerRun(buf: string, off: nat, n: nat, foundAt: bool): Option<Inner>
    requires off <= n <= |buf|
    decreases n
  {
    if n == off then Some(Inner(if foundAt then UserinfoStart else HostStart, Span(off, 0), None, None))
    else match InnerRun(buf, off, n - 1, foundAt)
      case Some(h) => InnerByte(h, n - 1, buf[n - 1])
      case None => None
  }

  predicate GoodEnd(s: HostState) { s == Host || s == V6End || s == Port }

  // ---- the whole -------------------------------------------------------------------------------

  function SetField(fields: map<Field, Span>, f: Field, s: Option<Span>): map<Field, Span> {
    if s.Some? then fields[f := s.value] else fields
  }

  function ParseHost(buf: string, fields: map<Field, Span>, foundAt: bool): Option<map<Field, Span>>
    requires HOST in fields && End(fields[HOST]) <= |buf|
  {
    match InnerRun(buf, fields[HOST].off, End(fields[HOST]), foundAt)
    case Some(h) =>
      if GoodEnd(h.s) then Some(SetField(SetField(fields[HOST := h.host], PORT, h.port), USERINFO, h.user)) else None
    case None => None
  }

  /** The port digits, as long as the number fits. */
  function PortValue(s: string): Option<nat>
    requires AllDigits(s)
  {
    if s == "" then Some(0)
    else match PortValue(s[..|s| - 1])
      case Some(v) => if v * 10 + Digit(s[|s| - 1]) > 0xffff then None else Some(v * 10 + Digit(s[|s| - 1]))
      case None => None
  }

  lemma {:induction false} PortIsDecimal(s: string)
    requires AllDigits(s)
    ensures PortValue(s) == if Decimal(s) <= 0xffff then Some(Decimal(s)) else None
  {
    if s != "" { PortIsDecimal(s[..|s| - 1]); }
  }

  // ---- what the outer automaton marks off --------------------------------------------------------

  function Rank(f: Field): nat {
    match f case SCHEMA => 0 case USERINFO => 1 case HOST => 2 case PORT => 3 case PATH => 4 case QUERY => 5 case FRAGMENT => 6
  }

  /** Non-empty, inside the first n bytes, one after the other in the order of Rank. */
  predicate Ordered(fields: map<Field, Span>, n: nat) {
    && (forall f | f in fields :: 0 < fields[f].len && End(fields[f]) <= n)
    && (forall f, g | f in fields && g in fields && Rank(f) < Rank(g) :: End(fields[f]) <= fields[g].off)
  }

  /** Of the bytes up to n all outside the fields are delimiters. */
  predicate Covered(fields: map<Field, Span>, buf: string, from: nat, n: nat)
    requires n <= |buf|
  {
    forall k | from <= k < n :: Delimiter(buf[k]) || exists f :: f in fields && In(fields[f], k)
  }

  /** How far a state is along the URL, and where a field begins. */
  function Stage(s: State): nat {
    match s
    case ReqSpacesBeforeUrl => 0
    case ReqSchema => 1
    case ReqSchemaSlash => 2
    case ReqSchemaSlashSlash => 2
    case ReqServerStart => 3
    case ReqServer => 4
    case ReqServerWithAt => 4
    case ReqPath => 5
    case ReqQueryStart => 6
    case ReqQuery => 7
    case ReqFragmentStart => 8
    case _ => 9
  }

  function FieldStage(f: Field): nat {
    match f case SCHEMA => 1 case HOST => 4 case PATH => 5 case QUERY => 7 case FRAGMENT => 9 case _ => 10
  }

  lemma StageGrows(s: State, ch: char)
    requires ParseUrlChar(s, ch) != Dead
    ensures Stage(s) <= Stage(ParseUrlChar(s, ch)) <= 9
    ensures FieldOf(ParseUrlChar(s, ch)).None? ==> Delimiter(ch)
    ensures IsUrlState(ParseUrlChar(s, ch))
  {}

  predicate OuterOk(o: Outer, buf: string, n: nat)
    requires n <= |buf|
  {
    && Ordered(o.fields, n) && Covered(o.fields, buf, 0, n)
    && (forall f | f in o.fields :: FieldStage(f) <= Stage(o.s) && f != PORT && f != USERINFO)
    && (o.last.Some? ==> o.last.value in o.fields && forall f | f in o.fields :: Rank(f) <= Rank(o.last.value))
    && (o.last.None? ==> o.fields == map[])
    && (FieldOf(o.s).Some? ==> o.last == FieldOf(o.s) && End(o.fields[o.last.value]) == n)
    && (IsUrlState(o.s) || o.s == ReqSpacesBeforeUrl)
  }

  lemma OuterByteKeeps(o: Outer, buf: string, n: nat)
    requires n < |buf| && OuterOk(o, buf, n) && OuterByte(o, n, buf[n]).Some?
    ensures OuterOk(OuterByte(o, n, buf[n]).value, buf, n + 1)
  {
    hide ParseUrlChar, Ordered, Covered, Stage, FieldOf, FieldStage, Rank, Delimiter, IsUrlState;
    StageGrows(o.s, buf[n]);
    var s := ParseUrlChar(o.s, buf[n]);
    if FieldOf(s).Some? {
      var f := FieldOf(s).value;
      SameStage(o.s, s);
      forall g | g in o.fields
        ensures (FieldStage(g) < Stage(s) ==> Rank(g) < Rank(f)) && (FieldStage(g) == Stage(s) ==> g == f)
      {
        RankByStage(g, s);
      }
      if o.last == Some(f) {
        Extended(o.fields, f, buf, 0, n);
      } else {
        FieldIsReal(s);
        Entered(o.fields, f, buf, 0, n);
      }
    } else {
      Skipped(o.fields, buf, 0, n);
    }
  }

  lemma FieldIsReal(s: State)
    ensures FieldOf(s).Some? ==> FieldOf(s).value != PORT && FieldOf(s).value != USERINFO
    ensures FieldOf(s).Some? ==> FieldStage(FieldOf(s).value) == Stage(s)
  {}

  /** A delimiter. */
  lemma Skipped(fields: map<Field, Span>, buf: string, from: nat, n: nat)
    requires n < |buf| && Ordered(fields, n) && Covered(fields, buf, from, n) && Delimiter(buf[n])
    ensures Ordered(fields, n + 1) && Covered(fields, buf, from, n + 1)
  {}

  /** A new field, behind all others. */
  lemma Entered(fields: map<Field, Span>, f: Field, buf: string, from: nat, n: nat)
    requires n < |buf| && Ordered(fields, n) && Covered(fields, buf, from, n) && f !in fields
    requires forall g | g in fields :: Rank(g) < Rank(f)
    ensures Ordered(fields[f := Span(n, 1)], n + 1) && Covered(fields[f := Span(n, 1)], buf, from, n + 1)
  {
    hide Rank, Delimiter;
    var u := fields[f := Span(n, 1)];
    assert f in u && In(u[f], n);
    forall k | from <= k < n ensures Delimiter(buf[k]) || exists g :: g in u && In(u[g], k) {
      if !Delimiter(buf[k]) {
        var g :| g in fields && In(fields[g], k);
        assert g in u && In(u[g], k);
      }
    }
  }

  /** One more byte of the last field. */
  lemma Extended(fields: map<Field, Span>, f: Field, buf: string, from: nat, n: nat)
    requires n < |buf| && Ordered(fields, n) && Covered(fields, buf, from, n) && f in fields && End(fields[f]) == n
    requires forall g | g in fields :: Rank(g) <= Rank(f)
    ensures Ordered(fields[f := Longer(fields[f])], n + 1) && Covered(fields[f := Longer(fields[f])], buf, from, n + 1)
  {
    hide Ordered, Covered, Rank;
    ExtendedOrdered(fields, f, n);
    ExtendedCovered(fields, f, buf, from, n);
  }

  lemma ExtendedOrdered(fields: map<Field, Span>, f: Field, n: nat)
    requires Ordered(fields, n) && f in fields && End(fields[f]) == n
    requires forall g | g in fields :: Rank(g) <= Rank(f)
    ensures Ordered(fields[f := Longer(fields[f])], n + 1)
  {
    hide Rank;
  }

  lemma ExtendedCovered(fields: map<Field, Span>, f: Field, buf: string, from: nat, n: nat)
    requires n < |buf| && Covered(fields, buf, from, n) && f in fields && End(fields[f]) == n && fields[f].off <= n
    ensures Covered(fields[f := Longer(fields[f])], buf, from, n + 1)
  {
    hide Delimiter;
    var u := fields[f := Longer(fields[f])];
    assert f in u && In(u[f], n);
    forall k | from <= k < n ensures Delimiter(buf[k]) || exists g :: g in u && In(u[g], k) {
      if !Delimiter(buf[k]) {
        var g :| g in fields && In(fields[g], k);
        assert g in u && In(u[g], k);
      }
    }
  }

  /** A field's states are all of one stage, and the stage has no other states. */
  lemma SameStage(s: State, t: State)
    requires FieldOf(t).Some? && (IsUrlState(s) || s == ReqSpacesBeforeUrl)
    ensures FieldStage(FieldOf(t).value) == Stage(t)
    ensures Stage(s) == Stage(t) ==> FieldOf(s) == FieldOf(t)
  {
    hide FieldOf, Stage, IsUrlState, FieldStage;
    StageField(s);
    StageField(t);
    FieldIsReal(t);
  }

  function FieldAt(stage: nat): Option<Field> {
    if stage == 1 then Some(SCHEMA) else if stage == 4 then Some(HOST) else if stage == 5 then Some(PATH)
    else if stage == 7 then Some(QUERY) else if stage == 9 then Some(FRAGMENT) else None
  }

  lemma StageField(s: State)
    ensures IsUrlState(s) || s == ReqSpacesBeforeUrl || FieldOf(s).Some? ==> FieldOf(s) == FieldAt(Stage(s))
  {}

  lemma RankByStage(f: Field, t: State)
    requires FieldOf(t).Some?
    ensures FieldStage(f) < Stage(t) ==> Rank(f) < Rank(FieldOf(t).value)
    ensures FieldStage(f) == Stage(t) && f != PORT && f != USERINFO ==> f == FieldOf(t).value
  {}

  lemma OuterStartOk(buf: string, isConnect: bool)
    ensures OuterOk(OuterStart(isConnect), buf, 0)
  {}

  lemma {:induction false} OuterRunKeeps(buf: string, n: nat, isConnect: bool)
    requires n <= |buf| && OuterRun(buf, n, isConnect).Some?
    ensures OuterOk(OuterRun(buf, n, isConnect).value, buf, n)
  {
    hide OuterByte, OuterOk, OuterStart;
    if n == 0 {
      OuterStartOk(buf, isConnect);
    } else {
      OuterRunKeeps(buf, n - 1, isConnect);
      OuterByteKeeps(OuterRun(buf, n - 1, isConnect).value, buf, n - 1);
    }
  }

  // ---- what the inner automaton marks off --------------------------------------------------------

  function HostStage(s: HostState): nat {
    match s
    case UserinfoStart => 0
    case Userinfo => 1
    case HostStart => 2
    case V6Start => 3
    case V6End => 5
    case PortStart => 6
    case Port => 7
    case _ => 4
  }

  predicate InHost(s: HostState) { s.Host? || s.V6? || s.ZoneStart? || s.Zone? }

  /** The fields the inner automaton has marked off so far. */
  function Marks(h: Inner): map<Field, Span> {
    SetField(SetField(if h.host.len > 0 then map[HOST := h.host] else map[], PORT, h.port), USERINFO, h.user)
  }

  predicate InnerOk(h: Inner, buf: string, off: nat, n: nat)
    requires n <= |buf|
  {
    var m := Marks(h);
    && Ordered(m, n) && Covered(m, buf, off, n) && (forall f | f in m :: off <= m[f].off)
    && (h.host.len > 0 <==> HostStage(h.s) >= 4) && (h.port.Some? <==> h.s == Port)
    && (h.s == UserinfoStart ==> h.user.None?) && (h.s == Userinfo ==> h.user.Some? && End(h.user.value) == n)
    && (InHost(h.s) ==> End(h.host) == n) && (h.s == Port ==> End(h.port.value) == n)
    && (h.s == HostDead ==> false) && off <= n
    && (h.port.Some? ==> forall k | h.port.value.off <= k < n :: IsNum(buf[k]))
  }

  lemma HostCharCases(s: HostState, ch: char)
    requires HostChar(s, ch) != HostDead
    ensures var t := HostChar(s, ch);
            && (t == Userinfo ==> s == UserinfoStart || s == Userinfo)
            && (t == Host ==> s == HostStart || s == Host)
            && (t == V6 ==> s == V6Start || s == V6)
            && (t == ZoneStart ==> s == V6) && (t == Zone ==> s == ZoneStart || s == Zone)
            && (t == Port ==> (s == PortStart || s == Port) && IsNum(ch))
            && (t == HostStart ==> s == UserinfoStart || s == Userinfo) && (t == V6Start ==> s == HostStart)
            && (t == V6End ==> s == V6 || s == Zone) && (t == PortStart ==> s == Host || s == V6End) && t != UserinfoStart
            && (t == HostStart || t == V6Start || t == V6End || t == PortStart ==> Delimiter(ch))
  {}

  lemma InnerByteKeeps(h: Inner, buf: string, off: nat, n: nat)
    requires n < |buf| && InnerOk(h, buf, off, n) && InnerByte(h, n, buf[n]).Some?
    ensures InnerOk(InnerByte(h, n, buf[n]).value, buf, off, n + 1)
  {
    hide HostChar, Ordered, Covered, Delimiter, IsNum, Marks, SetField;
    HostCharCases(h.s, buf[n]);
    var u := InnerByte(h, n, buf[n]).value;
    MarksOf(h);
    MarksOf(u);
    if u.s == Userinfo {
      MarkedByte(h, u, USERINFO, h.s == Userinfo, buf, off, n);
    } else if u.s == Port {
      MarkedByte(h, u, PORT, h.s == Port, buf, off, n);
    } else if InHost(u.s) {
      MarkedByte(h, u, HOST, InHost(h.s), buf, off, n);
    } else {
      MarksSame(h, u);
      Skipped(Marks(h), buf, off, n);
    }
  }

  lemma MarksOf(h: Inner)
    ensures var m := Marks(h);
            && m.Keys <= {HOST, PORT, USERINFO}
            && (HOST in m <==> h.host.len > 0) && (PORT in m <==> h.port.Some?) && (USERINFO in m <==> h.user.Some?)
            && (HOST in m ==> m[HOST] == h.host) && (PORT in m ==> m[PORT] == h.port.value)
            && (USERINFO in m ==> m[USERINFO] == h.user.value)
  {}

  lemma MarksSame(h: Inner, u: Inner)
    requires h.host.len == 0 == u.host.len || h.host == u.host
    requires h.user == u.user && h.port == u.port
    ensures Marks(u) == Marks(h)
  {}

  /** One byte more for field f, its first or its next. */
  lemma MarkedByte(h: Inner, u: Inner, f: Field, again: bool, buf: string, off: nat, n: nat)
    requires n < |buf| && off <= n && Ordered(Marks(h), n) && Covered(Marks(h), buf, off, n)
    requires forall g | g in Marks(h) :: off <= Marks(h)[g].off
    requires f in Marks(u) && Marks(u) == Marks(h)[f := Marks(u)[f]]
    requires again ==> f in Marks(h) && End(Marks(h)[f]) == n && Marks(u)[f] == Longer(Marks(h)[f])
    requires !again ==> f !in Marks(h) && Marks(u)[f] == Span(n, 1)
    requires forall g | g in Marks(h) :: Rank(g) <= Rank(f)
    ensures Ordered(Marks(u), n + 1) && Covered(Marks(u), buf, off, n + 1) && forall g | g in Marks(u) :: off <= Marks(u)[g].off
  {
    hide Ordered, Covered, Marks;
    if again { Extended(Marks(h), f, buf, off, n); } else { Entered(Marks(h), f, buf, off, n); }
  }

  lemma InnerStartOk(buf: string, off: nat, s: HostState)
    requires off <= |buf| && (s == UserinfoStart || s == HostStart)
    ensures InnerOk(Inner(s, Span(off, 0), None, None), buf, off, off)
  {}

  lemma {:induction false} InnerRunKeeps(buf: string, off: nat, n: nat, foundAt: bool)
    requires off <= n <= |buf| && InnerRun(buf, off, n, foundAt).Some?
    ensures InnerOk(InnerRun(buf, off, n, foundAt).value, buf, off, n)
    decreases n
  {
    hide InnerByte, InnerOk;
    if n == off {
      InnerStartOk(buf, off, if foundAt then UserinfoStart else HostStart);
    } else {
      InnerRunKeeps(buf, off, n - 1, foundAt);
      InnerByteKeeps(InnerRun(buf, off, n - 1, foundAt).value, buf, off, n - 1);
    }
  }

  // ---- the whole, again -----------------------------------------------------------------------------

  /** http_parser_parse_url; None is its failure. */
  function ParseUrl(buf: string, isConnect: bool): Option<ParsedUrl> {
    if buf == "" then None
    else match OuterRun(buf, |buf|, isConnect)
      case None => None
      case Some(o) =>
        if SCHEMA in o.fields && HOST !in o.fields then None
        else
          var fields :=
            if HOST in o.fields && End(o.fields[HOST]) <= |buf| then ParseHost(buf, o.fields, o.foundAt) else Some(o.fields);
          match fields
          case None => None
          case Some(all) =>
            if isConnect && all.Keys != {HOST, PORT} then None
            else if PORT !in all then Some(ParsedUrl(all, 0))
            else if End(all[PORT]) > |buf| || !AllDigits(buf[all[PORT].off..End(all[PORT])]) then None
            else match PortValue(buf[all[PORT].off..End(all[PORT])])
              case Some(v) => Some(ParsedUrl(all, v))
              case None => None
  }

  /** The fields of the part between the slashes take the place of the whole. */
  lemma HostReplaced(buf: string, fields: map<Field, Span>, foundAt: bool)
    requires HOST in fields && Ordered(fields, |buf|) && Covered(fields, buf, 0, |buf|) && PORT !in fields && USERINFO !in fields
    requires End(fields[HOST]) <= |buf| && ParseHost(buf, fields, foundAt).Some?
    ensures var all := ParseHost(buf, fields, foundAt).value;
            && Ordered(all, |buf|) && Covered(all, buf, 0, |buf|) && HOST in all && (SCHEMA in all <==> SCHEMA in fields)
            && (PORT in all ==> End(all[PORT]) <= |buf| && AllDigits(buf[all[PORT].off..End(all[PORT])]))
  {
    hide InnerRun, Ordered, Covered, Marks, InnerOk, AllDigits, Delimiter, SetField;
    var off, end := fields[HOST].off, End(fields[HOST]);
    InnerRunKeeps(buf, off, end, foundAt);
    var h := InnerRun(buf, off, end, foundAt).value;
    var m := Marks(h);
    InnerAtEnd(h, buf, off, end);
    MarksMerged(fields, h);
    var all := ParseHost(buf, fields, foundAt).value;
    assert all == fields + m;
    MergedOrdered(fields, m, all, |buf|);
    MergedCovered(fields, m, all, buf);
  }

  lemma InnerAtEnd(h: Inner, buf: string, off: nat, n: nat)
    requires n <= |buf| && InnerOk(h, buf, off, n) && GoodEnd(h.s)
    ensures var m := Marks(h);
            && h.host.len > 0 && Ordered(m, n) && Covered(m, buf, off, n) && (forall f | f in m :: off <= m[f].off)
            && (PORT in m ==> End(m[PORT]) <= n && AllDigits(buf[m[PORT].off..End(m[PORT])]))
  {
    hide Ordered, Covered, IsNum;
    if PORT in Marks(h) {
      InOrder(Marks(h), n, PORT, PORT);
      PortDigits(buf, h.port.value);
    }
  }

  lemma PortDigits(buf: string, s: Span)
    requires End(s) <= |buf| && forall k | s.off <= k < End(s) :: IsNum(buf[k])
    ensures AllDigits(buf[s.off..End(s)])
  {}

  lemma MarksMerged(fields: map<Field, Span>, h: Inner)
    requires HOST in fields && PORT !in fields && USERINFO !in fields && h.host.len > 0
    ensures SetField(SetField(fields[HOST := h.host], PORT, h.port), USERINFO, h.user) == fields + Marks(h)
    ensures HOST in Marks(h) && Marks(h).Keys <= {HOST, PORT, USERINFO}
  {}

  lemma MergedOrdered(fields: map<Field, Span>, m: map<Field, Span>, all: map<Field, Span>, n: nat)
    requires HOST in fields && HOST in m && m.Keys <= {HOST, PORT, USERINFO} && PORT !in fields && USERINFO !in fields
    requires all == fields + m && Ordered(fields, n) && Ordered(m, End(fields[HOST]))
    requires forall f | f in m :: fields[HOST].off <= m[f].off
    ensures Ordered(all, n)
  {
    hide Ordered, Rank;
    forall f | f in all ensures 0 < all[f].len && End(all[f]) <= n {
      if f in m { InOrder(m, End(fields[HOST]), f, f); } else { InOrder(fields, n, f, f); }
      InOrder(fields, n, HOST, HOST);
    }
    forall f, g | f in all && g in all && Rank(f) < Rank(g) ensures End(all[f]) <= all[g].off {
      if f in m && g in m {
        InOrder(m, End(fields[HOST]), f, g);
      } else if f in m {
        AroundHost(f, g);
        InOrder(m, End(fields[HOST]), f, f);
        InOrder(fields, n, HOST, g);
      } else if g in m {
        AroundHost(g, f);
        InOrder(fields, n, f, HOST);
      } else {
        InOrder(fields, n, f, g);
      }
    }
    IsOrdered(all, n);
  }

  lemma InOrder(fields: map<Field, Span>, n: nat, f: Field, g: Field)
    requires Ordered(fields, n) && f in fields && g in fields
    ensures 0 < fields[f].len && End(fields[f]) <= n
    ensures Rank(f) < Rank(g) ==> End(fields[f]) <= fields[g].off
  {}

  lemma IsOrdered(fields: map<Field, Span>, n: nat)
    requires forall f | f in fields :: 0 < fields[f].len && End(fields[f]) <= n
    requires forall f, g | f in fields && g in fields && Rank(f) < Rank(g) :: End(fields[f]) <= fields[g].off
    ensures Ordered(fields, n)
  {}

  lemma AroundHost(f: Field, g: Field)
    requires (f == HOST || f == PORT || f == USERINFO) && g != HOST && g != PORT && g != USERINFO
    ensures (Rank(f) < Rank(g) <==> Rank(HOST) < Rank(g)) && (Rank(g) < Rank(f) <==> Rank(g) < Rank(HOST))
  {}

  lemma MergedCovered(fields: map<Field, Span>, m: map<Field, Span>, all: map<Field, Span>, buf: string)
    requires HOST in fields && HOST in m && all == fields + m && End(fields[HOST]) <= |buf|
    requires Covered(fields, buf, 0, |buf|) && Covered(m, buf, fields[HOST].off, End(fields[HOST]))
    requires forall f | f in m && f != HOST :: f !in fields
    ensures Covered(all, buf, 0, |buf|)
  {
    hide Delimiter;
    forall k | 0 <= k < |buf| ensures Delimiter(buf[k]) || exists f :: f in all && In(all[f], k) {
      if !Delimiter(buf[k]) {
        var f :| f in fields && In(fields[f], k);
        if f == HOST {
          var g :| g in m && In(m[g], k);
          assert g in all && In(all[g], k);
        } else {
          assert f in all && In(all[f], k);
        }
      }
    }
  }

  /** Of every accepted URL the fields are not empty, in bounds, disjoint and in the order schema,
      userinfo, host, port, path, query, fragment; every byte outside them is one of the
      delimiters; and the port is the number its digits spell, at most 65535. With a schema there
      is a host, and CONNECT has exactly host and port. Offsets and lengths of the source have 16
      bits; a URL of this size needs no more. */
  lemma UrlIsTakenApart(buf: string, isConnect: bool)
    requires |buf| <= 0xffff && ParseUrl(buf, isConnect).Some?
    ensures var u := ParseUrl(buf, isConnect).value;
            && Ordered(u.fields, |buf|) && Covered(u.fields, buf, 0, |buf|)
            && (SCHEMA in u.fields ==> HOST in u.fields) && (isConnect ==> u.fields.Keys == {HOST, PORT})
            && (PORT !in u.fields ==> u.port == 0)
            && (PORT in u.fields ==>
                  var s := buf[u.fields[PORT].off..End(u.fields[PORT])];
                  AllDigits(s) && u.port == Decimal(s) <= 0xffff)
  {
    hide OuterRun, ParseHost, Ordered, Covered, PortValue, Decimal, AllDigits;
    OuterRunKeeps(buf, |buf|, isConnect);
    var o := OuterRun(buf, |buf|, isConnect).value;
    if HOST in o.fields {
      FieldEnds(o.fields, HOST, |buf|);
      HostReplaced(buf, o.fields, o.foundAt);
    }
    var u := ParseUrl(buf, isConnect).value;
    if PORT in u.fields {
      FieldEnds(u.fields, PORT, |buf|);
      PortIsDecimal(buf[u.fields[PORT].off..End(u.fields[PORT])]);
    }
  }

  lemma FieldEnds(fields: map<Field, Span>, f: Field, n: nat)
    requires Ordered(fields, n) && f in fields
    ensures End(fields[f]) <= n
  {}

  // ---- the two functions as they run --------------------------------------------------------------

  /** http_parse_host on the host part of fields: it fails exactly when ParseHost does. */
  method ParseHostPart(buf: string, fields: map<Field, Span>, foundAt: bool) returns (all: Option<map<Field, Span>>)
    requires HOST in fields && End(fields[HOST]) <= |buf|
    ensures all == ParseHost(buf, fields, foundAt)
  {
    hide HostChar, InnerByte;
    var off, end := fields[HOST].off, End(fields[HOST]);
    var s := if foundAt then UserinfoStart else HostStart;
    var host, port, user := Span(off, 0), None, None;
    var p := off;
    while p < end
      invariant off <= p <= end
      invariant InnerRun(buf, off, p, foundAt) == Some(Inner(s, host, port, user))
      invariant InnerRun(buf, off, p, foundAt).None? ==> InnerRun(buf, off, end, foundAt).None?
    {
      var next := HostChar(s, buf[p]);
      InnerByteIs(Inner(s, host, port, user), p, buf[p]);
      if next == HostDead {
        DeadStaysDead(buf, off, p + 1, end, foundAt);
        return None;
      }
      match next {
        case Host =>
          if s != Host { host := host.(off := p); }
          host := Longer(host);
        case V6 =>
          if s != V6 { host := host.(off := p); }
          host := Longer(host);
        case ZoneStart => host := Longer(host);
        case Zone => host := Longer(host);
        case Port => port := LongerOr(port, s == Port, p);
        case Userinfo => user := LongerOr(user, s == Userinfo, p);
        case _ =>
      }
      s := next;
      p := p + 1;
    }
    if !GoodEnd(s) {
      return None;
    }
    all := Some(SetField(SetField(fields[HOST := host], PORT, port), USERINFO, user));
  }

  lemma InnerByteIs(h: Inner, p: nat, ch: char)
    ensures InnerByte(h, p, ch) ==
            match HostChar(h.s, ch)
            case HostDead => None
            case Host => Some(h.(s := Host, host := Longer(if h.s != Host then h.host.(off := p) else h.host)))
            case V6 => Some(h.(s := V6, host := Longer(if h.s != V6 then h.host.(off := p) else h.host)))
            case ZoneStart => Some(h.(s := ZoneStart, host := Longer(h.host)))
            case Zone => Some(h.(s := Zone, host := Longer(h.host)))
            case Port => Some(h.(s := Port, port := LongerOr(h.port, h.s == Port, p)))
            case Userinfo => Some(h.(s := Userinfo, user := LongerOr(h.user, h.s == Userinfo, p)))
            case other => Some(h.(s := other))
  {
    hide HostChar;
  }

  lemma {:induction false} DeadStaysDead(buf: string, off: nat, p: nat, n: nat, foundAt: bool)
    requires off <= p <= n <= |buf| && InnerRun(buf, off, p, foundAt).None?
    ensures InnerRun(buf, off, n, foundAt).None?
  {
    hide InnerByte;
    if p < n { DeadStaysDead(buf, off, p, n - 1, foundAt); }
  }

  lemma {:induction false} OuterDead(buf: string, p: nat, n: nat, isConnect: bool)
    requires p <= n <= |buf| && OuterRun(buf, p, isConnect).None?
    ensures OuterRun(buf, n, isConnect).None?
  {
    hide OuterByte;
    if p < n { OuterDead(buf, p, n - 1, isConnect); }
  }

  lemma OuterByteIs(o: Outer, p: nat, ch: char)
    ensures OuterByte(o, p, ch) ==
            var s := ParseUrlChar(o.s, ch);
            if s == Dead then None
            else if FieldOf(s).None? then Some(o.(s := s))
            else
              var f := FieldOf(s).value;
              var at := o.foundAt || s == ReqServerWithAt;
              if o.last == Some(f) && f in o.fields then Some(Outer(s, o.last, at, o.fields[f := Longer(o.fields[f])]))
              else Some(Outer(s, Some(f), at, o.fields[f := Span(p, 1)]))
  {
    hide ParseUrlChar, FieldOf;
  }

  /** The first loop of http_parser_parse_url. */
  method MarkFields(buf: string, isConnect: bool) returns (o: Option<Outer>)
    ensures o == OuterRun(buf, |buf|, isConnect)
  {
    hide ParseUrlChar, FieldOf, OuterByte;
    var s := if isConnect then ReqServerStart else ReqSpacesBeforeUrl;
    var last: Option<Field> := None;
    var foundAt := false;
    var fields: map<Field, Span> := map[];
    var p := 0;
    while p < |buf|
      invariant 0 <= p <= |buf| && OuterRun(buf, p, isConnect) == Some(Outer(s, last, foundAt, fields))
      invariant last.Some? ==> last.value in fields
    {
      OuterByteIs(Outer(s, last, foundAt, fields), p, buf[p]);
      s := ParseUrlChar(s, buf[p]);
      if s == Dead {
        OuterDead(buf, p + 1, |buf|, isConnect);
        return None;
      }
      if FieldOf(s).Some? {
        foundAt := foundAt || s == ReqServerWithAt;
        var uf := FieldOf(s).value;
        if last == Some(uf) {
          fields := fields[uf := Longer(fields[uf])];
        } else {
          fields := fields[uf := Span(p, 1)];
          last := Some(uf);
        }
      }
      p := p + 1;
    }
    o := Some(Outer(s, last, foundAt, fields));
  }

  /** http_parser_parse_url. */
  method ParseUrlFields(buf: string, isConnect: bool) returns (u: Option<ParsedUrl>)
    ensures u == ParseUrl(buf, isConnect)
  {
    hide OuterRun, ParseHost, PortValue, Ordered, Covered, AllDigits;
    if buf == "" {
      return None;
    }
    var o := MarkFields(buf, isConnect);
    if o.None? {
      return None;
    }
    OuterRunKeeps(buf, |buf|, isConnect);
    var fields := o.value.fields;
    if SCHEMA in fields && HOST !in fields {
      return None;
    }
    if HOST in fields {
      FieldEnds(fields, HOST, |buf|);
      var all := ParseHostPart(buf, fields, o.value.foundAt);
      if all.None? {
        return None;
      }
      HostReplaced(buf, fields, o.value.foundAt);
      fields := all.value;
    }
    if isConnect && fields.Keys != {HOST, PORT} {
      return None;
    }
    if PORT !in fields {
      return Some(ParsedUrl(fields, 0));
    }
    var port := ReadPort(buf[fields[PORT].off..End(fields[PORT])]);
    u := if port.Some? then Some(ParsedUrl(fields, port.value)) else None;
  }

  method ReadPort(digits: string) returns (v: Option<nat>)
    requires AllDigits(digits)
    ensures v == PortValue(digits)
  {
    var n := 0;
    var i := 0;
    while i < |digits|
      invariant 0 <= i <= |digits| && PortValue(digits[..i]) == Some(n)
    {
      var d := digits[..i + 1];
      assert d[..|d| - 1] == digits[..i];
      n := n * 10 + Digit(digits[i]);
      if n > 0xffff {
        TooLargeStays(digits, i + 1);
        return None;
      }
      i := i + 1;
    }
    assert digits[..|digits|] == digits;
    v := Some(n);
  }

  lemma {:induction false} TooLargeStays(s: string, i: nat)
    requires AllDigits(s) && i <= |s| && PortValue(s[..i]).None?
    ensures PortValue(s).None?
    decreases |s|
  {
    if i == |s| {
      assert s[..i] == s;
    } else {
      assert s[..|s| - 1][..i] == s[..i];
      TooLargeStays(s[..|s| - 1], i);
    }
  }

  // ---- CONNECT and the other methods -----------------------------------------------------------------

  predicate OnlyHost(fields: map<Field, Span>) {
    PATH !in fields && QUERY !in fields && FRAGMENT !in fields
  }

  /** As long as a CONNECT target has a host only there is no slash in it; and if it begins with an
      asterisk, so does its host. */
  lemma {:induction false} ConnectRun(s: string, n: nat)
    requires n <= |s| && OuterRun(s, n, true).Some? && OnlyHost(OuterRun(s, n, true).value.fields)
    ensures var o := OuterRun(s, n, true).value;
            && (o.s.ReqServerStart? || o.s.ReqServer? || o.s.ReqServerWithAt? || o.s.ReqQueryStart? || o.s.ReqFragmentStart?)
            && (n > 0 && s[0] == '*' ==> HOST in o.fields && o.fields[HOST].off == 0 && o.last == Some(HOST))
    ensures forall i | 0 <= i < n :: s[i] != '/'
  {
    hide OuterByte;
    if n > 0 {
      var o := OuterRun(s, n - 1, true).value;
      FieldsStay(o, n - 1, s[n - 1]);
      ConnectRun(s, n - 1);
      ConnectByte(o, n - 1, s[n - 1]);
    }
  }

  lemma FieldsStay(o: Outer, p: nat, ch: char)
    requires OuterByte(o, p, ch).Some?
    ensures o.fields.Keys <= OuterByte(o, p, ch).value.fields.Keys
  {
    hide ParseUrlChar;
  }

  lemma ConnectByte(o: Outer, p: nat, ch: char)
    requires o.s.ReqServerStart? || o.s.ReqServer? || o.s.ReqServerWithAt? || o.s.ReqQueryStart? || o.s.ReqFragmentStart?
    requires OuterByte(o, p, ch).Some? && OnlyHost(OuterByte(o, p, ch).value.fields)
    ensures var u := OuterByte(o, p, ch).value;
            && (u.s.ReqServerStart? || u.s.ReqServer? || u.s.ReqServerWithAt? || u.s.ReqQueryStart? || u.s.ReqFragmentStart?)
            && (o == OuterStart(true) && ch == '*' ==> u.fields == map[HOST := Span(p, 1)] && u.last == Some(HOST))
            && (HOST in o.fields && o.last == Some(HOST) ==>
                  HOST in u.fields && u.fields[HOST].off == o.fields[HOST].off && u.last == Some(HOST))
    ensures ch != '/'
  {}

  /** Without a slash, and without an asterisk in front, other methods see a schema and no host. */
  lemma {:induction false} SchemaRun(s: string, n: nat)
    requires 0 < n <= |s| && s[0] != '*' && forall i | 0 <= i < n :: s[i] != '/'
    ensures OuterRun(s, n, false).Some? ==>
              var o := OuterRun(s, n, false).value;
              (o.s.ReqSchema? || o.s.ReqSchemaSlash?) && SCHEMA in o.fields && HOST !in o.fields
  {
    hide OuterByte;
    if n > 1 { SchemaRun(s, n - 1); }
    if OuterRun(s, n, false).Some? { SchemaByte(OuterRun(s, n - 1, false).value, n - 1, s[n - 1]); }
  }

  lemma SchemaByte(o: Outer, p: nat, ch: char)
    requires OuterByte(o, p, ch).Some? && ch != '/' && (o == OuterStart(false) ==> ch != '*')
    requires o == OuterStart(false) || ((o.s.ReqSchema? || o.s.ReqSchemaSlash?) && SCHEMA in o.fields && HOST !in o.fields)
    ensures var u := OuterByte(o, p, ch).value;
            (u.s.ReqSchema? || u.s.ReqSchemaSlash?) && SCHEMA in u.fields && HOST !in u.fields
  {}

  /** A host that begins with an asterisk is none, or begins with userinfo. */
  lemma {:induction false} AsteriskRun(s: string, n: nat, foundAt: bool)
    requires 0 < n <= |s| && s[0] == '*' && InnerRun(s, 0, n, foundAt).Some?
    ensures foundAt && InnerRun(s, 0, n, foundAt).value.user.Some?
  {
    if n > 1 { AsteriskRun(s, n - 1, foundAt); }
  }

  /** No URL is in order both for CONNECT and for the other methods. */
  lemma OneMethodOnly(s: string)
    requires ParseUrl(s, true).Some?
    ensures ParseUrl(s, false).None?
  {
    var o := ConnectFields(s);
    hide ParseHost, PortValue, AllDigits, OuterByte, InnerByte;
    ConnectRun(s, |s|);
    if s[0] == '*' {
      ConnectHost(s, o);
      AsteriskRun(s, End(o.fields[HOST]), o.foundAt);
      assert false;
    }
    SchemaRun(s, |s|);
  }

  /** What CONNECT asks of the fields it ends with. */
  lemma ConnectKeys(s: string)
    requires ParseUrl(s, true).Some?
    ensures s != "" && OuterRun(s, |s|, true).Some?
    ensures var o := OuterRun(s, |s|, true).value;
            if HOST in o.fields && End(o.fields[HOST]) <= |s|
            then ParseHost(s, o.fields, o.foundAt).Some? && ParseHost(s, o.fields, o.foundAt).value.Keys == {HOST, PORT}
            else o.fields.Keys == {HOST, PORT}
  {
    hide OuterRun, ParseHost, PortValue, AllDigits;
  }

  lemma HostAdds(buf: string, fields: map<Field, Span>, foundAt: bool)
    requires HOST in fields && End(fields[HOST]) <= |buf| && ParseHost(buf, fields, foundAt).Some?
    ensures forall f | f in fields :: f in ParseHost(buf, fields, foundAt).value
  {
    hide InnerRun;
  }

  /** What CONNECT asks of its target: a host, and no field behind it. */
  lemma ConnectFields(s: string)
    returns (o: Outer)
    requires ParseUrl(s, true).Some?
    ensures s != "" && OuterRun(s, |s|, true) == Some(o) && HOST in o.fields && OnlyHost(o.fields)
    ensures 0 < o.fields[HOST].len && End(o.fields[HOST]) <= |s|
    ensures ParseHost(s, o.fields, o.foundAt).Some? && ParseHost(s, o.fields, o.foundAt).value.Keys == {HOST, PORT}
  {
    hide OuterRun, ParseHost, ParseUrl;
    ConnectKeys(s);
    o := OuterRun(s, |s|, true).value;
    OuterRunKeeps(s, |s|, true);
    assert HOST in o.fields;
    HostAdds(s, o.fields, o.foundAt);
    var all := ParseHost(s, o.fields, o.foundAt).value;
    assert PATH !in all && QUERY !in all && FRAGMENT !in all;
  }

  lemma ConnectHost(s: string, o: Outer)
    requires HOST in o.fields && o.fields[HOST].off == 0 && End(o.fields[HOST]) <= |s|
    requires ParseHost(s, o.fields, o.foundAt).Some? && ParseHost(s, o.fields, o.foundAt).value.Keys == {HOST, PORT}
    ensures InnerRun(s, 0, End(o.fields[HOST]), o.foundAt).Some?
    ensures InnerRun(s, 0, End(o.fields[HOST]), o.foundAt).value.user.None?
  {
    hide InnerRun;
    assert USERINFO !in ParseHost(s, o.fields, o.foundAt).value;
  }
}
