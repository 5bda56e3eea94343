/** http_parser_execute: the buffer-at-a-time parser with its marks and its inner loops that
    eat many bytes at once, proved against the byte-at-a-time machine. */
module HttpExecutor {
  import opened Options
  import opened HttpTypes
  import opened HttpMachine
  import opened HttpCallbacks
  import opened HttpInvariants
  import opened HttpStepBytes
  import opened Seqs

  // ---- stretches of one kind of byte -----------------------------------------------------

  function ByteItems(k: Kind, s: string): seq<Item> {
    if s == "" then [] else ByteItems(k, s[..|s| - 1]) + [Byte(k, s[|s| - 1])]
  }

  function BodyItems(s: string): seq<Item> {
    if s == "" then [] else BodyItems(s[..|s| - 1]) + [Begin(Body), Byte(Body, s[|s| - 1])]
  }

  lemma {:induction false} GroupByteItems(g: Grouped, k: Kind, s: string)
    requires g.mark.Open? && g.mark.kind == k
    ensures Group(g, ByteItems(k, s)) == g.(mark := Open(k, g.mark.bytes + s))
  {
    if s == "" {
      assert g.mark.bytes + s == g.mark.bytes;
    } else {
      var init, last := s[..|s| - 1], s[|s| - 1];
      GroupByteItems(g, k, init);
      GroupAppend(g, ByteItems(k, init), [Byte(k, last)]);
      GroupOne(Group(g, ByteItems(k, init)), Byte(k, last));
      assert (g.mark.bytes + init) + [last] == g.mark.bytes + s;
    }
  }

  lemma {:induction false} GroupBodyItems(g: Grouped, s: string)
    requires s != "" && (g.mark.Open? ==> g.mark.kind == Body)
    ensures Group(g, BodyItems(s)) == g.(mark := Open(Body, (if g.mark.Open? then g.mark.bytes else "") + s))
  {
    var init, last := s[..|s| - 1], s[|s| - 1];
    var mid := Group(g, BodyItems(init));
    if init != "" { GroupBodyItems(g, init); }
    GroupAppend(g, BodyItems(init), [Begin(Body), Byte(Body, last)]);
    GroupTwo(mid, Begin(Body), Byte(Body, last));
    var before := if g.mark.Open? then g.mark.bytes else "";
    assert (before + init) + [last] == before + s;
    assert before + "" == before;
  }

  /** Counting a header byte and looking at it are one step of the machine. */
  function Counted(p: Parser): Parser { if InHeader(p.state) then p.(nread := p.nread + 1) else p }

  lemma RunSnoc(p: Parser, s: string, ch: char)
    requires Run(p, s).status == Running
    ensures var t := Run(p, s);
            Run(p, s + [ch]) ==
              match Step(t.p, ch)
              case Go(q, items) => Trace(q, t.items + items, t.used + 1, Running)
              case Stop(q, items) => Trace(q, t.items + items, t.used + 1, Stopped)
              case Fail(e) => t.(status := Failed(e))
  {
    hide Step;
    assert (s + [ch])[..|s + [ch]| - 1] == s;
  }

  /** An error or a stop in a prefix decides the whole run. */
  lemma PrefixDecides(p: Parser, s: string, k: nat)
    requires k <= |s| && Run(p, s[..k]).status != Running
    ensures Run(p, s) == Run(p, s[..k])
  {
    hide Run, Step;
    RunAppend(p, s[..k], s[k..]);
    assert s[..k] + s[k..] == s;
  }

  // ---- the inner loops ------------------------------------------------------------------------

  /** Inside a header token the loop counts its bytes only at its end. As long as they fit, the
      machine is where the loop is; once they do not, the machine has already failed. */
  ghost predicate Tracks(prev: Parser, s: string, cur: Parser, k: Kind) {
    if prev.nread + |s| <= prev.limit
    then Run(prev, s) == Trace(cur.(nread := prev.nread + |s|), ByteItems(k, s), |s|, Running)
    else Run(prev, s).status == Failed(HeaderOverflow)
  }

  /** One more byte of a token, when the machine's own step on it is known. */
  lemma TracksSnoc(prev: Parser, s: string, cur: Parser, k: Kind, ch: char, next: Parser)
    requires Tracks(prev, s, cur, k) && InHeader(cur.state)
    requires cur.limit == prev.limit
    requires prev.nread + |s| + 1 <= prev.limit ==>
      Dispatch(cur.(nread := prev.nread + |s| + 1), ch) == Go(next.(nread := prev.nread + |s| + 1), [Byte(k, ch)])
    ensures Tracks(prev, s + [ch], next, k)
  {
    hide Dispatch, Run;
    if prev.nread + |s| <= prev.limit {
      RunSnoc(prev, s, ch);
      assert (s + [ch])[..|s + [ch]| - 1] == s;
      assert ByteItems(k, s + [ch]) == ByteItems(k, s) + [Byte(k, ch)];
    } else {
      PrefixDecides(prev, s + [ch], |s|);
      assert (s + [ch])[..|s|] == s;
    }
  }

  lemma GeneralNameByte(p: Parser, ch: char)
    requires p.state == HeaderField && p.hs == General && Token(ch) != '\0'
    ensures Dispatch(p, ch) == Go(p, [Byte(Field, ch)])
  {}

  lemma NameByteDispatch(p: Parser, ch: char)
    requires p.state == HeaderField && IsNameState(p.hs) && Token(ch) != '\0'
    ensures var (hs, index) := NameByte(p.hs, p.index, Token(ch));
            Dispatch(p, ch) == Go(p.(hs := hs, index := index), [Byte(Field, ch)])
  {
    hide NameByte;
  }

  /** The loop of s_header_field from byte p on; q is the first byte that is not a token
      character, or the end of the buffer. */
  method NameLoop(data: string, start: nat, prev: Parser) returns (q: nat, cur: Parser)
    requires start < |data| && prev.state == HeaderField && Inv(prev) && prev.nread + 1 <= prev.limit
    ensures start <= q <= |data| && (q < |data| ==> Token(data[q]) == '\0')
    ensures cur == prev.(hs := cur.hs, index := cur.index)
    ensures Tracks(prev, data[start..q], cur, Field)
  {
    hide Tracks, Token, NameByte;
    q, cur := start, prev;
    TracksEmpty(prev, data, start, Field);
    while q < |data| && Token(data[q]) != '\0'
      invariant start <= q <= |data|
      invariant cur == prev.(hs := cur.hs, index := cur.index) && NameIndexOk(cur.hs, cur.index)
      invariant Tracks(prev, data[start..q], cur, Field)
    {
      if cur.hs == General {
        q := NameSkip(data, start, q, prev, cur);
      } else {
        OtherNameTracks(prev, data, start, q, cur);
        NameByteOk(cur.hs, cur.index, Token(data[q]));
        var (hs, index) := NameByte(cur.hs, cur.index, Token(data[q]));
        cur := cur.(hs := hs, index := index);
      }
      q := q + 1;
    }
  }

  /** A whole run of token characters at once; p is the last of them that was looked at. */
  method NameSkip(data: string, start: nat, q: nat, prev: Parser, cur: Parser) returns (p: nat)
    requires start <= q < |data| && Token(data[q]) != '\0'
    requires cur.limit == prev.limit && cur.state == HeaderField && cur.hs == General
    requires Tracks(prev, data[start..q], cur, Field)
    ensures q <= p < |data| && Tracks(prev, data[start..p + 1], cur, Field)
  {
    hide Tracks, Token;
    p := q;
    var left := |data| - p;
    var pe := p + if left < cur.limit then left else cur.limit;
    GeneralNameTracks(prev, data, start, p, cur);
    while p + 1 < pe && Token(data[p + 1]) != '\0'
      invariant q <= p < |data| && pe <= |data|
      invariant Tracks(prev, data[start..p + 1], cur, Field)
    {
      p := p + 1;
      GeneralNameTracks(prev, data, start, p, cur);
    }
  }

  lemma TracksEmpty(prev: Parser, data: string, start: nat, k: Kind)
    requires start <= |data| && prev.nread <= prev.limit
    ensures Tracks(prev, data[start..start], prev, k)
  {
    assert data[start..start] == "";
  }

  lemma OtherNameTracks(prev: Parser, data: string, start: nat, q: nat, cur: Parser)
    requires start <= q < |data| && Token(data[q]) != '\0' && cur.limit == prev.limit
    requires cur.state == HeaderField && IsNameState(cur.hs) && Tracks(prev, data[start..q], cur, Field)
    ensures var (hs, index) := NameByte(cur.hs, cur.index, Token(data[q]));
            Tracks(prev, data[start..q + 1], cur.(hs := hs, index := index), Field)
  {
    hide NameByte, Token, Tracks, Dispatch;
    var (hs, index) := NameByte(cur.hs, cur.index, Token(data[q]));
    NameByteDispatch(cur.(nread := prev.nread + (q - start) + 1), data[q]);
    assert data[start..q] + [data[q]] == data[start..q + 1];
    assert |data[start..q]| == q - start;
    TracksSnoc(prev, data[start..q], cur, Field, data[q], cur.(hs := hs, index := index));
  }

  lemma GeneralNameTracks(prev: Parser, data: string, start: nat, q: nat, cur: Parser)
    requires start <= q < |data| && Token(data[q]) != '\0' && cur.limit == prev.limit
    requires cur.state == HeaderField && cur.hs == General && Tracks(prev, data[start..q], cur, Field)
    ensures Tracks(prev, data[start..q + 1], cur, Field)
  {
    hide Token, Tracks, Dispatch;
    GeneralNameByte(cur.(nread := prev.nread + (q - start) + 1), data[q]);
    assert data[start..q] + [data[q]] == data[start..q + 1];
    TracksSnoc(prev, data[start..q], cur, Field, data[q], cur);
  }

  lemma ValueDispatch(p: Parser, n: nat, ch: char)
    requires p.state == HeaderValue && ch != CR && ch != LF
    ensures var m := ValueByte(MatcherOf(p), ch);
            Dispatch(p.(nread := n), ch) ==
              if !p.lenient && !IsHeaderChar(ch) then Fail(InvalidHeaderToken)
              else if m.Refused? then Fail(m.err)
              else Go(WithMatcher(p, m).(nread := n), [Byte(Value, ch)])
  {
    hide ValueByte, IsHeaderChar;
  }

  /** An error and the machine's: the same one, or the machine had already seen too many header bytes. */
  ghost predicate Blames(t: Trace, e: Errno) { t.status == Failed(e) || t.status == Failed(HeaderOverflow) }

  /** The machine's verdict when the loop stops at a byte with an error. */
  lemma TracksFail(prev: Parser, data: string, start: nat, q: nat, cur: Parser, k: Kind, e: Errno)
    requires start <= q < |data| && Tracks(prev, data[start..q], cur, k)
    requires InHeader(cur.state) && cur.limit == prev.limit
    requires Dispatch(cur.(nread := prev.nread + (q - start) + 1), data[q]) == Fail(e)
    ensures Blames(Run(prev, data[start..q + 1]), e)
  {
    hide Dispatch, Run;
    var s := data[start..q];
    assert data[start..q + 1] == s + [data[q]];
    if prev.nread + |s| <= prev.limit {
      RunSnoc(prev, s, data[q]);
    } else {
      PrefixDecides(prev, s + [data[q]], |s|);
      assert (s + [data[q]])[..|s|] == s;
    }
  }

  lemma ValueTracks(prev: Parser, data: string, start: nat, q: nat, cur: Parser)
    requires start <= q < |data| && data[q] != CR && data[q] != LF && cur.limit == prev.limit
    requires cur.state == HeaderValue && Tracks(prev, data[start..q], cur, Value)
    ensures var m := ValueByte(MatcherOf(cur), data[q]);
            if !cur.lenient && !IsHeaderChar(data[q]) then Blames(Run(prev, data[start..q + 1]), InvalidHeaderToken)
            else if m.Refused? then Blames(Run(prev, data[start..q + 1]), m.err)
            else Tracks(prev, data[start..q + 1], WithMatcher(cur, m), Value)
  {
    hide Dispatch, ValueByte, Run, Tracks, IsHeaderChar, Blames;
    var m := ValueByte(MatcherOf(cur), data[q]);
    ValueDispatch(cur, prev.nread + (q - start) + 1, data[q]);
    assert data[start..q] + [data[q]] == data[start..q + 1];
    if !cur.lenient && !IsHeaderChar(data[q]) {
      TracksFail(prev, data, start, q, cur, Value, InvalidHeaderToken);
    } else if m.Refused? {
      TracksFail(prev, data, start, q, cur, Value, m.err);
    } else {
      TracksSnoc(prev, data[start..q], cur, Value, data[q], WithMatcher(cur, m));
    }
  }

  /** The skip of s_header_value over a plain value; it looks at no more than limit bytes, and
      if the buffer goes on after them it passes over one more byte without looking at it. */
  method ValueSkip(data: string, start: nat, q: nat, prev: Parser, cur: Parser)
    returns (p: nat, err: Option<Errno>)
    requires start <= q < |data| && cur.limit == prev.limit && cur.state == HeaderValue && cur.hs == General
    requires 0 < cur.limit && data[q] != CR && data[q] != LF
    requires Tracks(prev, data[start..q], cur, Value)
    ensures q < p <= |data| || (err.Some? && q <= p < |data|)
    ensures err.None? ==> Tracks(prev, data[start..p], cur, Value)
    ensures err.Some? ==> p < |data| && Blames(Run(prev, data[start..p + 1]), err.value)
  {
    hide Tracks, Run, ValueByte, IsHeaderChar;
    p, err := q, None;
    var left := |data| - p;
    var pe := p + if left < cur.limit then left else cur.limit;
    while p != pe && data[p] != CR && data[p] != LF
      invariant q <= p <= pe && (p == q ==> p != pe)
      invariant Tracks(prev, data[start..p], cur, Value)
      decreases pe - p
    {
      ValueTracks(prev, data, start, p, cur);
      if !cur.lenient && !IsHeaderChar(data[p]) {
        err := Some(InvalidHeaderToken);
        return;
      }
      GeneralValueByte(cur, data[p]);
      p := p + 1;
    }
    if p == pe && p != |data| {
      SkippedByte(prev, data, start, p, cur);
      p := p + 1;
    }
  }

  lemma GeneralValueByte(p: Parser, ch: char)
    requires p.hs == General
    ensures ValueByte(MatcherOf(p), ch) == MatcherOf(p) && WithMatcher(p, MatcherOf(p)) == p
  {}

  /** By the time a byte is passed over unseen, the machine has run into the header limit. */
  lemma SkippedByte(prev: Parser, data: string, start: nat, q: nat, cur: Parser)
    requires start <= q < |data| && prev.limit <= q - start && InHeader(cur.state) && cur.limit == prev.limit
    requires Tracks(prev, data[start..q], cur, Value)
    ensures Tracks(prev, data[start..q + 1], cur, Value)
  {
    hide Dispatch, Run;
    var s := data[start..q];
    assert data[start..q + 1] == s + [data[q]];
    if prev.nread + |s| <= prev.limit {
      RunSnoc(prev, s, data[q]);
    } else {
      PrefixDecides(prev, s + [data[q]], |s|);
      assert (s + [data[q]])[..|s|] == s;
    }
  }

  /** The loop of s_header_value from byte start on; q is the CR or LF that ends it, or the end
      of the buffer, or the byte that is refused. */
  method ValueLoop(data: string, start: nat, prev: Parser) returns (q: nat, cur: Parser, err: Option<Errno>)
    requires start < |data| && prev.state == HeaderValue && prev.nread + 1 <= prev.limit
    ensures start <= q <= |data| && (err.None? && q < |data| ==> data[q] == CR || data[q] == LF)
    ensures cur.state == HeaderValue && cur.limit == prev.limit
    ensures err.None? ==> Tracks(prev, data[start..q], cur, Value)
    ensures err.Some? ==> q < |data| && Blames(Run(prev, data[start..q + 1]), err.value)
  {
    hide Tracks, Run, ValueByte, IsHeaderChar;
    q, cur, err := start, prev, None;
    TracksEmpty(prev, data, start, Value);
    while q < |data| && data[q] != CR && data[q] != LF
      invariant start <= q <= |data| && cur.state == HeaderValue && cur.limit == prev.limit
      invariant Tracks(prev, data[start..q], cur, Value) && err == None
      decreases |data| - q
    {
      ValueTracks(prev, data, start, q, cur);
      if !cur.lenient && !IsHeaderChar(data[q]) {
        err := Some(InvalidHeaderToken);
        return;
      }
      if cur.hs == General {
        q, err := ValueSkip(data, start, q, prev, cur);
        if err.Some? { return; }
      } else {
        var m := ValueByte(MatcherOf(cur), data[q]);
        if m.Refused? {
          err := Some(m.err);
          return;
        }
        cur := WithMatcher(cur, m);
        q := q + 1;
      }
    }
  }

  // ---- bodies taken in one piece ----------------------------------------------------------------

  lemma {:induction false} IdentityPart(p: Parser, s: string)
    requires p.state == BodyIdentity && HasLength(p) && |s| < p.contentLength < ULLONG_MAX
    ensures Run(p, s) == Trace(p.(contentLength := p.contentLength - |s|), BodyItems(s), |s|, Running)
  {
    hide Step, OnMessageDone, Run;
    if s == "" {
      RunEmpty(p);
    } else {
      var init, last := s[..|s| - 1], s[|s| - 1];
      IdentityPart(p, init);
      IdentityByte(p.(contentLength := p.contentLength - |init|), last);
      assert s == init + [last];
      RunSnoc(p, init, last);
    }
  }

  /** The last byte of a counted body also completes the message. */
  lemma IdentityWhole(p: Parser, s: string)
    requires p.state == BodyIdentity && HasLength(p) && |s| == p.contentLength < ULLONG_MAX
    ensures var o := OnMessageDone(p.(contentLength := 0));
            Run(p, s) == Trace(o.p, (BodyItems(s) + [End(Body)]) + o.items, |s|, if o.Stop? then Stopped else Running)
  {
    hide Step, OnMessageDone, Run;
    var init, last := s[..|s| - 1], s[|s| - 1];
    var o := OnMessageDone(p.(contentLength := 0));
    IdentityPart(p, init);
    IdentityByte(p.(contentLength := 1), last);
    MessageDoneOutcome(p.(contentLength := 0));
    assert s == init + [last];
    RunSnoc(p, init, last);
    assert BodyItems(init) + (([Begin(Body), Byte(Body, last)] + [End(Body)]) + o.items)
        == (BodyItems(s) + [End(Body)]) + o.items;
  }

  lemma RunEmpty(p: Parser)
    ensures Run(p, "") == Trace(p, [], 0, Running)
  {}

  lemma MessageDoneOutcome(p: Parser)
    ensures !OnMessageDone(p).Fail? && OnMessageDone(p).items == [Note(MessageComplete)] && OnMessageDone(p).p == NewMessage(p)
    ensures OnMessageDone(p).Stop? == p.upgrade
  {}

  lemma IdentityByte(p: Parser, ch: char)
    requires p.state == BodyIdentity && HasLength(p)
    ensures var q := p.(contentLength := p.contentLength - 1);
            var items := [Begin(Body), Byte(Body, ch)];
            Step(p, ch) == if q.contentLength == 0 then Prepend(items + [End(Body)], OnMessageDone(q)) else Go(q, items)
  {
    hide OnMessageDone;
  }

  /** s_chunk_data over a piece of at most the rest of the chunk. */
  lemma {:induction false} ChunkRun(p: Parser, s: string)
    requires p.state == ChunkData && p.flags.chunked && HasLength(p) && 1 <= |s| <= p.contentLength < ULLONG_MAX
    ensures var left := p.contentLength - |s|;
            Run(p, s) == Trace(p.(contentLength := left, state := if left == 0 then ChunkDataAlmostDone else ChunkData),
                               BodyItems(s), |s|, Running)
  {
    hide Step, Run;
    var init, last := s[..|s| - 1], s[|s| - 1];
    if init == "" { RunEmpty(p); } else { ChunkRun(p, init); }
    var mid := p.(contentLength := p.contentLength - |init|);
    assert Run(p, init) == Trace(mid, BodyItems(init), |init|, Running);
    ChunkDataByte(mid, last);
    assert s == init + [last];
    RunSnoc(p, init, last);
  }

  lemma ChunkDataByte(p: Parser, ch: char)
    requires p.state == ChunkData && p.flags.chunked && HasLength(p)
    ensures var left := p.contentLength - 1;
            Step(p, ch) == Go(p.(contentLength := left, state := if left == 0 then ChunkDataAlmostDone else ChunkData),
                              [Begin(Body), Byte(Body, ch)])
  {}

  lemma {:induction false} EofRun(p: Parser, s: string)
    requires p.state == BodyIdentityEof
    ensures Run(p, s) == Trace(p, BodyItems(s), |s|, Running)
  {
    hide Step, Run;
    if s == "" {
      RunEmpty(p);
    } else {
      var init, last := s[..|s| - 1], s[|s| - 1];
      EofRun(p, init);
      EofByte(p, last);
      assert s == init + [last];
      RunSnoc(p, init, last);
    }
  }

  lemma EofByte(p: Parser, ch: char)
    requires p.state == BodyIdentityEof
    ensures Step(p, ch) == Go(p, [Begin(Body), Byte(Body, ch)])
  {}

  // ---- marks of the executor ----------------------------------------------------------------------

  /** The C parser has one pointer per kind; an unset pointer is an absent key. */
  type Marks = map<Kind, nat>

  ghost predicate MarksAgree(marks: Marks, m: Mark, data: string, p: nat) {
    && p <= |data|
    && (m == NoMark ==> marks == map[])
    && (m.Open? ==> marks.Keys == {m.kind} && marks[m.kind] <= p && m.bytes == data[marks[m.kind]..p])
  }

  function Range(data: string, from: nat, to: nat): string { if from <= to <= |data| then data[from..to] else "" }

  /** Does what the items of one step ask for. The byte at p is behind a mark from the moment
      its item is met, which is what lets the last byte of a counted body be delivered at once. */
  method Apply(data: string, p: nat, marks: Marks, items: seq<Item>, ghost g: Grouped)
    returns (marks': Marks, events: seq<Event>, q: nat)
    requires p < |data| && MarksAgree(marks, g.mark, data, p) && AllFit(g, items)
    requires Bytes(items) == "" || Bytes(items) == [data[p]]
    ensures q == p + |Bytes(items)| && MarksAgree(marks', Group(g, items).mark, data, q)
    ensures Group(g, items).events == g.events + events
  {
    hide Group, AllFit, Bytes;
    marks', events, q := marks, [], p;
    ghost var cur := g;
    var i := 0;
    assert items[0..] == items;
    while i < |items|
      invariant 0 <= i <= |items|
      invariant Group(cur, items[i..]) == Group(g, items) && AllFit(cur, items[i..])
      invariant cur.events == g.events + events
      invariant p <= q && q + |Bytes(items[i..])| == p + |Bytes(items)|
      invariant Bytes(items[i..]) == "" || Bytes(items[i..]) == [data[p]]
      invariant MarksAgree(marks', cur.mark, data, q)
    {
      var item := items[i];
      Unfold(cur, items[i..]);
      assert items[i..][1..] == items[i + 1..];
      match item {
        case Begin(k) => if k !in marks' { marks' := marks'[k := q]; }
        case Byte(_, b) => q := q + 1;
        case End(k) =>
          if k in marks' {
            events := events + [Data(k, Range(data, marks'[k], q))];
            marks' := marks' - {k};
          }
        case Note(n) => events := events + [Notify(n)];
      }
      cur := Take(cur, item);
      i := i + 1;
    }
    assert items[i..] == [];
    Unfold(cur, items[i..]);
  }

  lemma Unfold(g: Grouped, items: seq<Item>)
    ensures items == [] ==> Group(g, items) == g && Bytes(items) == ""
    ensures items != [] ==>
              && Group(g, items) == Group(Take(g, items[0]), items[1..])
              && AllFit(g, items) == (Fits(g.mark, items[0]) && AllFit(Take(g, items[0]), items[1..]))
              && Bytes(items) == (if items[0].Byte? then [items[0].b] else "") + Bytes(items[1..])
              && (items[0].Byte? ==> Bytes(items)[0] == items[0].b)
  {}

  // ---- the parser --------------------------------------------------------------------------------

  /** Where the parser is after p bytes of a buffer that it entered in state st0. */
  ghost predicate Here(st0: Parser, data: string, p: nat, cur: Parser, marks: Marks, log0: seq<Event>, log: seq<Event>) {
    && p <= |data|
    && Run(st0, data[..p]) == Trace(cur, Run(st0, data[..p]).items, p, Running)
    && log == log0 + Entered(st0, data[..p]).events
    && MarksAgree(marks, Entered(st0, data[..p]).mark, data, p)
  }

  ghost function Entered(st0: Parser, s: string): Grouped {
    Group(Grouped(InitialMark(st0.state), []), Run(st0, s).items)
  }

  /** Carries a run over data[p..q] into the run over the buffer so far. */
  lemma Advance(st0: Parser, data: string, p: nat, q: nat)
    requires p <= q <= |data| && Run(st0, data[..p]).status == Running && Run(st0, data[..p]).used == p
    ensures var t, u := Run(st0, data[..p]), Run(Run(st0, data[..p]).p, data[p..q]);
            && Run(st0, data[..q]) == Trace(u.p, t.items + u.items, p + u.used, u.status)
            && Entered(st0, data[..q]) == Group(Entered(st0, data[..p]), u.items)
  {
    hide Run, Group;
    assert data[..q] == data[..p] + data[p..q];
    RunAppend(st0, data[..p], data[p..q]);
    GroupAppend(Grouped(InitialMark(st0.state), []), Run(st0, data[..p]).items, Run(Run(st0, data[..p]).p, data[p..q]).items);
  }

  lemma HereSafe(st0: Parser, data: string, p: nat, cur: Parser, marks: Marks, log0: seq<Event>, log: seq<Event>)
    requires Here(st0, data, p, cur, marks, log0, log) && Inv(st0)
    ensures Inv(cur) && MarkOk(cur.state, Entered(st0, data[..p]).mark)
  {
    hide Run, Group;
    NoAssertFires(st0, data[..p]);
    RunSuits(Grouped(InitialMark(st0.state), []), st0, data[..p]);
  }

  lemma HereAtStart(st0: Parser, data: string, log0: seq<Event>)
    ensures Here(st0, data, 0, st0, match InitialMark(st0.state) case NoMark => map[] case Open(k, _) => map[k := 0], log0, log0)
  {
    assert data[..0] == "";
  }

  /** A stretch of token bytes moves on without touching marks or callbacks. */
  lemma HereStretch(st0: Parser, data: string, p: nat, q: nat, cur: Parser, next: Parser, marks: Marks, k: Kind,
                    log0: seq<Event>, log: seq<Event>)
    requires Here(st0, data, p, cur, marks, log0, log) && p <= q <= |data|
    requires Entered(st0, data[..p]).mark.Open? && Entered(st0, data[..p]).mark.kind == k
    requires Run(cur, data[p..q]) == Trace(next, ByteItems(k, data[p..q]), q - p, Running)
    ensures Here(st0, data, q, next, marks, log0, log)
  {
    hide Run, Group, Entered;
    Advance(st0, data, p, q);
    GroupByteItems(Entered(st0, data[..p]), k, data[p..q]);
    var m := marks[k];
    assert data[m..p] + data[p..q] == data[m..q];
  }

  lemma Verdict(st0: Parser, data: string, k: nat, e: Errno)
    requires k <= |data| && Blames(Run(st0, data[..k]), e)
    ensures Blames(Run(st0, data), e)
  {
    hide Run;
    PrefixDecides(st0, data, k);
  }

  lemma TracksRun(prev: Parser, s: string, cur: Parser, k: Kind)
    requires Tracks(prev, s, cur, k)
    ensures if prev.nread + |s| <= prev.limit
            then Run(prev, s) == Trace(cur.(nread := prev.nread + |s|), ByteItems(k, s), |s|, Running)
            else Blames(Run(prev, s), HeaderOverflow)
  {}

  /** MARK(body) and the bytes behind it. */
  lemma BodyMark(data: string, p: nat, q: nat, marks: Marks, g: Grouped)
    requires p < q <= |data| && MarksAgree(marks, g.mark, data, p) && (g.mark.Open? ==> g.mark.kind == Body)
    ensures var after := if Body in marks then marks else marks[Body := p];
            && Group(g, BodyItems(data[p..q])).events == g.events
            && Group(g, BodyItems(data[p..q])).mark == Open(Body, data[after[Body]..q])
            && MarksAgree(after, Open(Body, data[after[Body]..q]), data, q) && after[Body] <= q
  {
    GroupBodyItems(g, data[p..q]);
    hide Group, BodyItems;
    if g.mark.Open? {
      assert data[marks[Body]..p] + data[p..q] == data[marks[Body]..q];
    } else {
      assert "" + data[p..q] == data[p..q];
    }
  }

  /** Nothing was refused since log0. */
  ghost predicate Clean(refuses: Event -> bool, log0: seq<Event>, log: seq<Event>) {
    log0 <= log && Accepted(refuses, log[|log0|..])
  }

  /** The call ended with a refusal: the callbacks are those of the run up to it. */
  ghost predicate CutShort(refuses: Event -> bool, st0: Parser, data: string, log0: seq<Event>, log: seq<Event>) {
    var x := Reported(st0.state, Run(st0, data));
    !Accepted(refuses, x) && log == log0 + UpTo(refuses, x)
  }

  /** What an error of a call means. */
  ghost predicate GoneWrong(refuses: Event -> bool, st0: Parser, data: string, e: Option<Errno>, log0: seq<Event>, log: seq<Event>) {
    e.Some? && log0 <= log && (Blames(Run(st0, data), e.value) || (e.value == Callback && CutShort(refuses, st0, data, log0, log)))
  }

  lemma CleanExtends(refuses: Event -> bool, log0: seq<Event>, log: seq<Event>)
    requires Clean(refuses, log0, log)
    ensures log0 <= log
  {}

  lemma CutExtends(refuses: Event -> bool, st0: Parser, data: string, log0: seq<Event>, log: seq<Event>)
    requires CutShort(refuses, st0, data, log0, log)
    ensures log0 <= log
  {
    hide Run, Reported, UpTo, Accepted;
  }

  lemma CleanGrows(refuses: Event -> bool, log0: seq<Event>, log: seq<Event>, events: seq<Event>)
    requires Clean(refuses, log0, log) && Accepted(refuses, events)
    ensures Clean(refuses, log0, log + events) && UpTo(refuses, events) == events
  {
    UpToStops(refuses, events);
    UpToAppend(refuses, log[|log0|..], events);
    assert (log + events)[|log0|..] == log[|log0|..] + events;
  }

  /** A refusal among the events that come behind n bytes cuts the whole call short. */
  lemma RefusedHere(refuses: Event -> bool, st0: Parser, data: string, n: nat, log0: seq<Event>, log: seq<Event>, events: seq<Event>)
    requires n <= |data| && !Run(st0, data[..n]).status.Failed? && Clean(refuses, log0, log) && !Accepted(refuses, events)
    requires log + events == log0 + Entered(st0, data[..n]).events
    ensures CutShort(refuses, st0, data, log0, log + UpTo(refuses, events))
  {
    hide Run, Group, UpTo;
    var x, y := Entered(st0, data[..n]).events, Reported(st0.state, Run(st0, data));
    ReportedExtends(st0, data, n);
    var said := log[|log0|..];
    assert log == log0 + said;
    Assoc(log0, said, events);
    Cancel(log0, x, said + events);
    UpToAppend(refuses, said, events);
    UpToAppend(refuses, x, y[|x|..]);
    assert y == x + y[|x|..];
    Assoc(log0, said, UpTo(refuses, events));
  }

  lemma ReportedExtends(st0: Parser, data: string, n: nat)
    requires n <= |data| && !Run(st0, data[..n]).status.Failed?
    ensures Entered(st0, data[..n]).events <= Reported(st0.state, Run(st0, data))
  {
    hide Run, Group;
    var g := Entered(st0, data[..n]);
    var whole := Run(st0, data);
    assert data == data[..n] + data[n..];
    RunAppend(st0, data[..n], data[n..]);
    if Run(st0, data[..n]).status == Running {
      var more := Run(Run(st0, data[..n]).p, data[n..]).items;
      GroupAppend(Grouped(InitialMark(st0.state), []), Run(st0, data[..n]).items, more);
      GroupExtends(g, more);
    }
  }

  lemma CleanResult(refuses: Event -> bool, log0: seq<Event>, log: seq<Event>, x: seq<Event>)
    requires Clean(refuses, log0, log) && log == log0 + x
    ensures Accepted(refuses, x)
  {
    assert log[|log0|..] == x;
  }

  class HttpParser {
    var st: Parser
    var errno: Option<Errno>
    var log: seq<Event>
    /** Which callbacks return something other than 0. */
    const refuses: Event -> bool

    /** What on_headers_complete returns means something else, which is not modelled. */
    constructor (t: ParserType, limit: nat, refuses: Event -> bool)
      requires forall h :: !refuses(Notify(HeadersComplete(h)))
      ensures st == Init(t, limit) && Inv(st) && errno == None && log == [] && this.refuses == refuses
    {
      st, errno, log, this.refuses := Init(t, limit), None, [], refuses;
      InitInv(t, limit);
    }

    /** Calls back, up to the first refusal. */
    method Call(events: seq<Event>)
      requires errno == None
      modifies `log, `errno
      ensures errno == if Accepted(refuses, events) then None else Some(Callback)
      ensures log == old(log) + UpTo(refuses, events)
    {
      var i := 0;
      assert events[0..] == events;
      while i < |events|
        invariant 0 <= i <= |events| && errno == None
        invariant log + UpTo(refuses, events[i..]) == old(log) + UpTo(refuses, events)
        invariant Accepted(refuses, events[..i])
      {
        assert events[i..][1..] == events[i + 1..] && events[i..][0] == events[i];
        ghost var before := log;
        log := log + [events[i]];
        if refuses(events[i]) {
          errno := Some(Callback);
          return;
        }
        Assoc(before, [events[i]], UpTo(refuses, events[i + 1..]));
        i := i + 1;
      }
      assert events[..i] == events && events[i..] == [];
    }

    /** The token loops of s_header_field and s_header_value with their COUNT_HEADER_SIZE. */
    method Stretch(data: string, p: nat, marks: Marks, ghost st0: Parser, ghost log0: seq<Event>) returns (q: nat)
      requires p < |data| && errno == None && Inv(st0) && Here(st0, data, p, st, marks, log0, log) && Clean(refuses, log0, log)
      requires (st.state == HeaderField || st.state == HeaderValue) && st.nread + 1 <= st.limit
      modifies this
      ensures log == old(log)
      ensures q <= |data|
      ensures errno.None? ==> p <= q && Here(st0, data, q, st, marks, log0, log)
      ensures errno.Some? ==> GoneWrong(refuses, st0, data, errno, log0, log)
    {
      hide Here, Tracks, Run, Blames, Entered, MarkOk, Inv, Clean, CutShort;
      HereMark(st0, data, p, st, marks, log0, log);
      CleanExtends(refuses, log0, log);
      var cur: Parser, err: Option<Errno> := st, None;
      ghost var k := if st.state == HeaderField then Field else Value;
      if st.state == HeaderField {
        q, cur := NameLoop(data, p, st);
      } else {
        q, cur, err := ValueLoop(data, p, st);
        if err.Some? {
          errno := err;
          StretchVerdict(st0, data, p, q + 1, st, marks, log0, log, errno.value);
          return;
        }
      }
      TracksRun(st, data[p..q], cur, k);
      var n := st.nread + (q - p);
      if n > st.limit {
        errno := Some(HeaderOverflow);
        StretchVerdict(st0, data, p, q, st, marks, log0, log, HeaderOverflow);
        return;
      }
      HereStretch(st0, data, p, q, st, cur.(nread := n), marks, k, log0, log);
      st := cur.(nread := n);
    }

    /** One byte: count it, look at it, and do what it asks for. */
    method OneByte(data: string, p: nat, marks: Marks, ghost st0: Parser, ghost log0: seq<Event>)
      returns (marks': Marks, stop: bool)
      requires p < |data| && errno == None && Inv(st0) && Here(st0, data, p, st, marks, log0, log) && Clean(refuses, log0, log)
      modifies this
      ensures errno.Some? ==> GoneWrong(refuses, st0, data, errno, log0, log)
      ensures errno.None? ==> Clean(refuses, log0, log)
      ensures errno.None? && !stop ==> Here(st0, data, p + 1, st, marks', log0, log)
      ensures errno.None? && stop ==> Halted(st0, data, p + 1, st, log0, log)
    {
      hide Here, Run, Dispatch, Group, AllFit, Suits, Bytes, Halted, Blames, MarkOk, Clean, CutShort, Accepted, UpTo;
      marks', stop := marks, false;
      CleanExtends(refuses, log0, log);
      StepAgrees(st, data[p]);
      HereStep(st0, data, p, st, marks, log0, log);
      if InHeader(st.state) && st.nread + 1 > st.limit {
        errno := Some(HeaderOverflow);
        return;
      }
      match Dispatch(Counted(st), data[p]) {
        case Fail(e) =>
          errno := Some(e);
        case Go(next, items) =>
          var events, q;
          marks', events, q := Apply(data, p, marks, items, Entered(st0, data[..p]));
          HereNext(st0, data, p, st, marks, log0, log, next, items, marks', events, q);
          HereCalls(st0, data, p + 1, next, marks', log0, log + events);
          Report(data, p + 1, events, st0, log0);
          if errno.None? { st := next; }
        case Stop(next, items) =>
          var events, q;
          marks', events, q := Apply(data, p, marks, items, Entered(st0, data[..p]));
          HaltedNext(st0, data, p, st, marks, log0, log, next, items, events);
          HaltedCalls(st0, data, p + 1, next, log0, log + events);
          Report(data, p + 1, events, st0, log0);
          if errno.None? { st, stop := next, true; }
      }
    }

    /** Calls back what the bytes up to n ask for. */
    method Report(data: string, ghost n: nat, events: seq<Event>, ghost st0: Parser, ghost log0: seq<Event>)
      requires errno == None && Clean(refuses, log0, log) && n <= |data| && !Run(st0, data[..n]).status.Failed?
      requires log + events == log0 + Entered(st0, data[..n]).events
      modifies `log, `errno
      ensures errno.None? ==> Clean(refuses, log0, log) && log == old(log) + events
      ensures errno.Some? ==> errno.value == Callback && CutShort(refuses, st0, data, log0, log) && log0 <= log
    {
      hide Run, Group, Clean, CutShort, Accepted, UpTo;
      ghost var before := log;
      Call(events);
      if errno.None? {
        CleanGrows(refuses, log0, before, events);
      } else {
        RefusedHere(refuses, st0, data, n, log0, before, events);
        CutExtends(refuses, st0, data, log0, log);
      }
    }

    /** s_body_identity, s_chunk_data and s_body_identity_eof: everything the buffer has of the body. */
    method Piece(data: string, p: nat, marks: Marks, ghost st0: Parser, ghost log0: seq<Event>)
      returns (q: nat, marks': Marks, stop: bool)
      requires p < |data| && errno == None && Inv(st0) && Here(st0, data, p, st, marks, log0, log) && Clean(refuses, log0, log)
      requires IsBodyByteState(st.state)
      modifies this
      ensures p < q <= |data|
      ensures errno.Some? ==> GoneWrong(refuses, st0, data, errno, log0, log)
      ensures errno.None? ==> Clean(refuses, log0, log)
      ensures errno.None? && !stop ==> Here(st0, data, q, st, marks', log0, log)
      ensures errno.None? && stop ==> Halted(st0, data, q, st, log0, log)
    {
      hide Here, Run, Group, Entered, MarkOk, OnMessageDone, MarksAgree, Halted, BodyItems, Clean, CutShort, Accepted, UpTo;
      HereBody(st0, data, p, st, marks, log0, log);
      ghost var g := Entered(st0, data[..p]);
      stop := false;
      var left := |data| - p;
      marks' := if Body in marks then marks else marks[Body := p];
      if st.state == BodyIdentityEof {
        q := |data|;
        EofRun(st, data[p..q]);
        BodyMark(data, p, q, marks, g);
        HereBodyNext(st0, data, p, q, st, marks, log0, log, st, marks');
      } else {
        var to_read := if st.contentLength < left then st.contentLength else left;
        q := p + to_read;
        BodyMark(data, p, q, marks, g);
        var next := st.(contentLength := st.contentLength - to_read);
        if st.state == ChunkData {
          if next.contentLength == 0 { next := next.(state := ChunkDataAlmostDone); }
          ChunkRun(st, data[p..q]);
          HereBodyNext(st0, data, p, q, st, marks, log0, log, next, marks');
          st := next;
        } else if next.contentLength != 0 {
          IdentityPart(st, data[p..q]);
          HereBodyNext(st0, data, p, q, st, marks, log0, log, next, marks');
          st := next;
        } else {
          stop := LastPiece(data, p, q, marks, marks', next, st0, log0);
          marks' := map[];
        }
      }
    }

    /** The end of a counted body completes the message. */
    method LastPiece(data: string, ghost p: nat, q: nat, ghost before: Marks, marks: Marks, next: Parser,
                     ghost st0: Parser, ghost log0: seq<Event>)
      returns (stop: bool)
      requires p < q <= |data| && errno == None && Inv(st0) && Here(st0, data, p, st, before, log0, log) && Clean(refuses, log0, log)
      requires st.state == BodyIdentity && HasLength(st) && st.contentLength == q - p < ULLONG_MAX && next == st.(contentLength := 0)
      requires Body in marks && marks[Body] <= q
      requires var h := Group(Entered(st0, data[..p]), BodyItems(data[p..q]));
               h.events == Entered(st0, data[..p]).events && h.mark == Mark.Open(Body, data[marks[Body]..q])
      modifies this
      ensures errno.Some? ==> GoneWrong(refuses, st0, data, errno, log0, log)
      ensures errno.None? ==> Clean(refuses, log0, log)
      ensures errno.None? && !stop ==> Here(st0, data, q, st, map[], log0, log)
      ensures errno.None? && stop ==> Halted(st0, data, q, st, log0, log)
    {
      hide Here, Run, Group, Entered, OnMessageDone, Halted, BodyItems, Clean, CutShort, Accepted, UpTo;
      stop := false;
      IdentityWhole(st, data[p..q]);
      var o := OnMessageDone(next);
      MessageDoneOutcome(next);
      var events := [Data(Body, Range(data, marks[Body], q)), Notify(MessageComplete)];
      HereWhole(st0, data, p, q, st, before, log0, log, o.p, marks, events);
      WholeCalls(st0, data, q, o.p, log0, log + events);
      Report(data, q, events, st0, log0);
      if errno.None? { stop, st := o.Stop?, o.p; }
    }

    /** One turn of the loop: a stretch of token bytes if there is one, then a piece of the body or
        one byte. */
    method Turn(data: string, from: nat, marks: Marks, ghost st0: Parser, ghost log0: seq<Event>)
      returns (p: nat, marks': Marks, stop: bool)
      requires from < |data| && errno == None && Inv(st0) && Here(st0, data, from, st, marks, log0, log) && Clean(refuses, log0, log)
      modifies this
      ensures p <= |data| && (errno.None? ==> from < p)
      ensures errno.Some? ==> GoneWrong(refuses, st0, data, errno, log0, log)
      ensures errno.None? ==> Clean(refuses, log0, log)
      ensures errno.None? && !stop ==> Here(st0, data, p, st, marks', log0, log)
      ensures errno.None? && stop ==> Halted(st0, data, p, st, log0, log)
    {
      hide Run, Here, Halted, Blames, Inv, Entered, Group, MarksAgree, Clean, CutShort, Accepted, UpTo, GoneWrong;
      p, marks', stop := from, marks, false;
      if (st.state == HeaderField || st.state == HeaderValue) && st.nread + 1 <= st.limit {
        p := Stretch(data, p, marks, st0, log0);
        if errno.Some? { return; }
      }
      if IsBodyByteState(st.state) && p < |data| {
        p, marks', stop := Piece(data, p, marks, st0, log0);
      } else if p < |data| {
        marks', stop := OneByte(data, p, marks, st0, log0);
        if errno.None? || errno.value == Callback { p := p + 1; }
      }
    }

    /** http_parser_execute; appending to log is calling back. On success everything is as the
        machine's run says. It is a success exactly if the run is one and no callback is refused.
        After a refusal the callbacks are those of the run up to the refused one; any other error
        is the machine's error, unless the machine had already counted too many header bytes. */
    method Execute(data: string) returns (n: nat)
      requires errno.None? ==> Inv(st)
      modifies this
      ensures errno.None? ==> Inv(st)
      ensures old(errno).Some? ==> n == 0 && errno == old(errno) && st == old(st) && log == old(log)
      ensures old(log) <= log
      ensures old(errno).None? && data != "" ==>
                var t := Run(old(st), data);
                var x := Reported(old(st).state, t);
                && n <= |data|
                && (errno.None? <==> !t.status.Failed? && Accepted(refuses, x))
                && (errno.None? ==> st == t.p && n == t.used && log == old(log) + x)
                && (errno.Some? ==>
                      || Blames(t, errno.value)
                      || (errno.value == Callback && !Accepted(refuses, x) && log == old(log) + UpTo(refuses, x)))
      ensures old(errno).None? && data == "" ==>
                && st == old(st)
                && log == old(log) + (if st.state == BodyIdentityEof then [Notify(MessageComplete)] else [])
                && errno == (if st.state == BodyIdentityEof then (if refuses(Notify(MessageComplete)) then Some(Callback) else None)
                             else if st.state.Dead? || st.state.StartReqOrRes? || st.state.StartRes? || st.state.StartReq? then None
                             else Some(InvalidEofState))
                && n == (if errno == Some(InvalidEofState) then 1 else 0)
    {
      hide Run, Callbacks, Reported, Here, Halted, Blames, Inv, Entered, Group, MarksAgree, Clean, CutShort, Accepted, UpTo, GoneWrong;
      if errno.Some? { return 0; }
      if data == "" {
        n := AtEnd();
        return;
      }
      ghost var st0, log0 := st, log;
      var marks: Marks := match InitialMark(st.state) case NoMark => map[] case Open(k, _) => map[k := 0];
      HereAtStart(st0, data, log0);
      CleanAtStart(refuses, log0);
      var p: nat := 0;
      while p < |data|
        invariant p <= |data| && errno == None && Inv(st0) && Here(st0, data, p, st, marks, log0, log) && Clean(refuses, log0, log)
        decreases |data| - p
      {
        var stop: bool;
        p, marks, stop := Turn(data, p, marks, st0, log0);
        if errno.Some? {
          WentWrong(refuses, st0, data, errno, log0, log);
          return p;
        }
        if stop {
          HaltedResult(st0, data, p, st, log0, log);
          NotFailed(st0, data);
          CleanResult(refuses, log0, log, Callbacks(st0.state, Run(st0, data)));
          return p;
        }
      }
      FinalMarks(st0, data, st, marks, log0, log);
      assert |marks| <= 1;
      NotFailed(st0, data);
      ghost var before := log;
      var events := FlushEvents(data, marks);
      Call(events);
      FlushResult(refuses, st0, data, log0, before, events);
      return p;
    }

    /** The end of the stream. */
    method AtEnd() returns (n: nat)
      requires errno == None
      modifies `log, `errno
      ensures log == old(log) + (if st.state == BodyIdentityEof then [Notify(MessageComplete)] else [])
      ensures errno == (if st.state == BodyIdentityEof then (if refuses(Notify(MessageComplete)) then Some(Callback) else None)
                        else if st.state.Dead? || st.state.StartReqOrRes? || st.state.StartRes? || st.state.StartReq? then None
                        else Some(InvalidEofState))
      ensures n == (if errno == Some(InvalidEofState) then 1 else 0)
    {
      if st.state == BodyIdentityEof {
        Call([Notify(MessageComplete)]);
        return 0;
      }
      if st.state.Dead? || st.state.StartReqOrRes? || st.state.StartRes? || st.state.StartReq? { return 0; }
      errno := Some(InvalidEofState);
      return 1;
    }
  }

  lemma CleanAtStart(refuses: Event -> bool, log0: seq<Event>)
    ensures Clean(refuses, log0, log0)
  {}

  /** Running or stopped, what was called back is what the run reports so far. */
  lemma HereCalls(st0: Parser, data: string, p: nat, cur: Parser, marks: Marks, log0: seq<Event>, log: seq<Event>)
    requires Here(st0, data, p, cur, marks, log0, log)
    ensures p <= |data| && !Run(st0, data[..p]).status.Failed? && log == log0 + Entered(st0, data[..p]).events
  {
    hide Run, Group, Entered;
  }

  lemma HaltedCalls(st0: Parser, data: string, n: nat, cur: Parser, log0: seq<Event>, log: seq<Event>)
    requires Halted(st0, data, n, cur, log0, log)
    ensures n <= |data| && !Run(st0, data[..n]).status.Failed? && log == log0 + Entered(st0, data[..n]).events
  {
    hide Run, Group, Entered;
  }

  lemma WholeCalls(st0: Parser, data: string, q: nat, cur: Parser, log0: seq<Event>, log: seq<Event>)
    requires Here(st0, data, q, cur, map[], log0, log) || Halted(st0, data, q, cur, log0, log)
    ensures q <= |data| && !Run(st0, data[..q]).status.Failed? && log == log0 + Entered(st0, data[..q]).events
  {
    hide Run, Group, Entered;
  }

  lemma WentWrong(refuses: Event -> bool, st0: Parser, data: string, e: Option<Errno>, log0: seq<Event>, log: seq<Event>)
    requires GoneWrong(refuses, st0, data, e, log0, log)
    ensures var x := Reported(st0.state, Run(st0, data));
            && e.Some? && log0 <= log && !(!Run(st0, data).status.Failed? && Accepted(refuses, x))
            && (|| Blames(Run(st0, data), e.value)
                || (e.value == Callback && !Accepted(refuses, x) && log == log0 + UpTo(refuses, x)))
  {
    hide Run, Reported, Accepted, UpTo;
  }

  lemma NotFailed(st0: Parser, data: string)
    ensures !Run(st0, data).status.Failed? ==> Reported(st0.state, Run(st0, data)) == Callbacks(st0.state, Run(st0, data))
  {
    hide Run, Callbacks;
  }

  /** The callbacks at the end of the buffer, refused or not. */
  lemma FlushResult(refuses: Event -> bool, st0: Parser, data: string, log0: seq<Event>, log: seq<Event>, events: seq<Event>)
    requires Clean(refuses, log0, log) && !Run(st0, data).status.Failed?
    requires log + events == log0 + Callbacks(st0.state, Run(st0, data))
    ensures var x := Reported(st0.state, Run(st0, data));
            && log + UpTo(refuses, events) == log0 + UpTo(refuses, x)
            && (Accepted(refuses, x) <==> Accepted(refuses, events))
            && (Accepted(refuses, x) ==> UpTo(refuses, x) == x)
  {
    hide Run, Callbacks, UpTo, Accepted;
    var said := log[|log0|..];
    var x := Callbacks(st0.state, Run(st0, data));
    assert log == log0 + said;
    Assoc(log0, said, events);
    Cancel(log0, x, said + events);
    UpToAppend(refuses, said, events);
    UpToStops(refuses, x);
    Assoc(log0, said, UpTo(refuses, events));
  }

  /** The callbacks for marks left over at the end of the buffer, in the order of the C code. */
  function FlushEvents(data: string, marks: Marks): seq<Event> {
    FlushOne(data, marks, Field) + FlushOne(data, marks, Value) + FlushOne(data, marks, Url)
    + FlushOne(data, marks, Body) + FlushOne(data, marks, Status)
  }

  function FlushOne(data: string, marks: Marks, k: Kind): seq<Event> {
    if k in marks then [Data(k, Range(data, marks[k], |data|))] else []
  }

  lemma HaltedResult(st0: Parser, data: string, n: nat, cur: Parser, log0: seq<Event>, log: seq<Event>)
    requires Halted(st0, data, n, cur, log0, log) && Inv(st0)
    ensures var t := Run(st0, data);
            !t.status.Failed? && cur == t.p && n == t.used && log == log0 + Callbacks(st0.state, t) && Inv(cur)
  {
    hide Run, Group, Inv;
    PrefixDecides(st0, data, n);
    NoAssertFires(st0, data);
  }

  lemma FinalMarks(st0: Parser, data: string, cur: Parser, marks: Marks, log0: seq<Event>, log: seq<Event>)
    requires Here(st0, data, |data|, cur, marks, log0, log) && Inv(st0)
    ensures |marks| <= 1
    ensures var t := Run(st0, data);
            !t.status.Failed? && cur == t.p && |data| == t.used
            && log + FlushEvents(data, marks) == log0 + Callbacks(st0.state, t) && Inv(cur)
  {
    hide Run, Group, Inv, FlushEvents;
    assert data[..|data|] == data;
    NoAssertFires(st0, data);
    var g := Entered(st0, data);
    if g.mark == NoMark {
      NothingToFlush(data);
    } else {
      var k := g.mark.kind;
      assert marks == map[k := marks[k]];
      FlushSingle(data, k, marks[k]);
      Assoc(log0, g.events, [Data(k, g.mark.bytes)]);
    }
  }

  lemma NothingToFlush(data: string)
    ensures FlushEvents(data, map[]) == []
  {}

  lemma FlushSingle(data: string, k: Kind, m: nat)
    requires m <= |data|
    ensures FlushEvents(data, map[k := m]) == [Data(k, data[m..|data|])]
  {
    match k
    case Url =>
    case Status =>
    case Field =>
    case Value =>
    case Body =>
  }

  lemma HereBody(st0: Parser, data: string, p: nat, cur: Parser, marks: Marks, log0: seq<Event>, log: seq<Event>)
    requires Here(st0, data, p, cur, marks, log0, log) && Inv(st0) && IsBodyByteState(cur.state)
    ensures MarksAgree(marks, Entered(st0, data[..p]).mark, data, p)
    ensures Entered(st0, data[..p]).mark.Open? ==> Entered(st0, data[..p]).mark.kind == Body
    ensures cur.state != BodyIdentityEof ==> HasLength(cur) && cur.contentLength < ULLONG_MAX
    ensures cur.state == ChunkData ==> cur.flags.chunked
  {
    hide Run, Group, Entered;
    HereSafe(st0, data, p, cur, marks, log0, log);
  }

  lemma HereBodyNext(st0: Parser, data: string, p: nat, q: nat, cur: Parser, marks: Marks, log0: seq<Event>,
                     log: seq<Event>, next: Parser, after: Marks)
    requires Here(st0, data, p, cur, marks, log0, log) && p <= q <= |data|
    requires Run(cur, data[p..q]) == Trace(next, BodyItems(data[p..q]), q - p, Running)
    requires var h := Group(Entered(st0, data[..p]), BodyItems(data[p..q]));
             h.events == Entered(st0, data[..p]).events && MarksAgree(after, h.mark, data, q)
    ensures Here(st0, data, q, next, after, log0, log)
  {
    hide Run, Group, Entered, MarksAgree;
    Advance(st0, data, p, q);
  }

  lemma HereWhole(st0: Parser, data: string, p: nat, q: nat, cur: Parser, marks: Marks, log0: seq<Event>,
                  log: seq<Event>, next: Parser, after: Marks, events: seq<Event>)
    requires Here(st0, data, p, cur, marks, log0, log) && p <= q <= |data| && Body in after && after[Body] <= q
    requires var t := Run(cur, data[p..q]);
             && t == Trace(next, (BodyItems(data[p..q]) + [End(Body)]) + [Note(MessageComplete)], q - p, t.status)
             && (t.status == Running || t.status == Stopped)
    requires var h := Group(Entered(st0, data[..p]), BodyItems(data[p..q]));
             h.events == Entered(st0, data[..p]).events && h.mark == Open(Body, data[after[Body]..q])
    requires events == [Data(Body, Range(data, after[Body], q)), Notify(MessageComplete)]
    ensures Run(cur, data[p..q]).status == Running ==> Here(st0, data, q, next, map[], log0, log + events)
    ensures Run(cur, data[p..q]).status == Stopped ==> Halted(st0, data, q, next, log0, log + events)
  {
    hide Run, Group, Entered;
    Advance(st0, data, p, q);
    var g := Entered(st0, data[..p]);
    var body := BodyItems(data[p..q]);
    var h := Group(g, body);
    GroupAppend(g, body + [End(Body)], [Note(MessageComplete)]);
    GroupAppend(g, body, [End(Body)]);
    GroupOne(h, End(Body));
    GroupOne(Take(h, End(Body)), Note(MessageComplete));
    assert (g.events + [events[0]]) + [events[1]] == g.events + events;
    Assoc(log0, g.events, events);
  }

  /** The call ended early, for an upgrade, after n bytes. */
  ghost predicate Halted(st0: Parser, data: string, n: nat, cur: Parser, log0: seq<Event>, log: seq<Event>) {
    && n <= |data|
    && Run(st0, data[..n]) == Trace(cur, Run(st0, data[..n]).items, n, Stopped)
    && log == log0 + Entered(st0, data[..n]).events
  }

  lemma HereMark(st0: Parser, data: string, p: nat, cur: Parser, marks: Marks, log0: seq<Event>, log: seq<Event>)
    requires Here(st0, data, p, cur, marks, log0, log) && Inv(st0)
    requires cur.state == HeaderField || cur.state == HeaderValue
    ensures Entered(st0, data[..p]).mark.Open?
    ensures Entered(st0, data[..p]).mark.kind == if cur.state == HeaderField then Field else Value
    ensures Inv(cur)
  {
    hide Run, Group, Entered, Here;
    HereSafe(st0, data, p, cur, marks, log0, log);
  }

  lemma StretchVerdict(st0: Parser, data: string, p: nat, k: nat, cur: Parser, marks: Marks, log0: seq<Event>,
                       log: seq<Event>, e: Errno)
    requires Here(st0, data, p, cur, marks, log0, log) && p <= k <= |data| && Blames(Run(cur, data[p..k]), e)
    ensures Blames(Run(st0, data), e)
  {
    hide Run, Group, Entered;
    Advance(st0, data, p, k);
    Verdict(st0, data, k, e);
  }

  lemma StepAgrees(p: Parser, ch: char)
    ensures Step(p, ch) == if InHeader(p.state) && p.nread + 1 > p.limit then Fail(HeaderOverflow) else Dispatch(Counted(p), ch)
  {
    hide Dispatch;
  }

  /** What is known of the machine's step at byte p. */
  lemma HereStep(st0: Parser, data: string, p: nat, cur: Parser, marks: Marks, log0: seq<Event>, log: seq<Event>)
    requires p < |data| && Here(st0, data, p, cur, marks, log0, log) && Inv(st0)
    ensures MarksAgree(marks, Entered(st0, data[..p]).mark, data, p)
    ensures OutcomeSuits(Entered(st0, data[..p]), Step(cur, data[p]))
    ensures !(InHeader(cur.state) && cur.nread + 1 > cur.limit) ==> AtMost(Dispatch(Counted(cur), data[p]), data[p])
    ensures Step(cur, data[p]).Fail? ==> Blames(Run(st0, data), Step(cur, data[p]).err)
    ensures !Step(cur, data[p]).Fail? ==> AllFit(Entered(st0, data[..p]), Step(cur, data[p]).items)
  {
    hide Run, Group, Entered, Dispatch, Suits, AllFit, AtMost;
    HereSafe(st0, data, p, cur, marks, log0, log);
    StepSuits(Entered(st0, data[..p]), cur, data[p]);
    SuitsFits(Entered(st0, data[..p]), Step(cur, data[p]));
    DispatchBytes(Counted(cur), data[p]);
    if Step(cur, data[p]).Fail? {
      RunSnoc(st0, data[..p], data[p]);
      assert data[..p] + [data[p]] == data[..p + 1];
      Verdict(st0, data, p + 1, Step(cur, data[p]).err);
    }
  }

  lemma SuitsFits(g: Grouped, o: Outcome)
    requires OutcomeSuits(g, o)
    ensures !o.Fail? ==> AllFit(g, o.items)
  {}

  lemma StepEntered(st0: Parser, data: string, p: nat, cur: Parser, items: seq<Item>)
    requires p < |data| && Run(st0, data[..p]) == Trace(cur, Run(st0, data[..p]).items, p, Running)
    requires !Step(cur, data[p]).Fail? && Step(cur, data[p]).items == items
    ensures var o := Step(cur, data[p]);
            Run(st0, data[..p + 1]) ==
              Trace(o.p, Run(st0, data[..p]).items + items, p + 1, if o.Stop? then Stopped else Running)
    ensures Entered(st0, data[..p + 1]) == Group(Entered(st0, data[..p]), items)
  {
    hide Run, Group, Step;
    RunSnoc(st0, data[..p], data[p]);
    assert data[..p] + [data[p]] == data[..p + 1];
    GroupAppend(Grouped(InitialMark(st0.state), []), Run(st0, data[..p]).items, items);
  }

  lemma HereNext(st0: Parser, data: string, p: nat, cur: Parser, marks: Marks, log0: seq<Event>, log: seq<Event>,
                 next: Parser, items: seq<Item>, marks': Marks, events: seq<Event>, q: nat)
    requires p < |data| && Here(st0, data, p, cur, marks, log0, log)
    requires Step(cur, data[p]) == Go(next, items) && OutcomeSuits(Entered(st0, data[..p]), Step(cur, data[p]))
    requires Bytes(items) == "" || Bytes(items) == [data[p]]
    requires q == p + |Bytes(items)| && MarksAgree(marks', Group(Entered(st0, data[..p]), items).mark, data, q)
    requires Group(Entered(st0, data[..p]), items).events == Entered(st0, data[..p]).events + events
    ensures Here(st0, data, p + 1, next, marks', log0, log + events)
  {
    hide Run, Group, Step, Entered, AllFit, MarkOk;
    StepEntered(st0, data, p, cur, items);
    Assoc(log0, Entered(st0, data[..p]).events, events);
    if Group(Entered(st0, data[..p]), items).mark.Open? { LastByte(items); }
  }

  lemma LastByte(items: seq<Item>)
    requires items != [] && items[|items| - 1].Byte?
    ensures Bytes(items) != ""
  {
    var init, last := items[..|items| - 1], items[|items| - 1];
    assert items == init + [last];
    BytesAppend(init, [last]);
    BytesOne(last);
  }

  lemma HaltedNext(st0: Parser, data: string, p: nat, cur: Parser, marks: Marks, log0: seq<Event>, log: seq<Event>,
                   next: Parser, items: seq<Item>, events: seq<Event>)
    requires p < |data| && Here(st0, data, p, cur, marks, log0, log)
    requires Step(cur, data[p]) == Stop(next, items)
    requires Group(Entered(st0, data[..p]), items).events == Entered(st0, data[..p]).events + events
    ensures Halted(st0, data, p + 1, next, log0, log + events)
  {
    hide Run, Group, Step, Entered;
    StepEntered(st0, data, p, cur, items);
    Assoc(log0, Entered(st0, data[..p]).events, events);
  }
}
