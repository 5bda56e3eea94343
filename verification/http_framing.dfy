/** Message bodies: the numerals that give their length, and the chunked coding of
    section 3.6.1 of RFC 2616 as a decoder of its own that the machine agrees with. */
module HttpFraming {
  import opened HttpTypes
  import opened HttpMachine
  import opened HttpExecutor
  import opened HttpProtocol
  import opened Seqs

  // ---- Content-Length --------------------------------------------------------------------

  predicate AllDigits(s: string) { forall i | 0 <= i < |s| :: IsNum(s[i]) }

  function Decimal(s: string): nat
    requires AllDigits(s)
  {
    if s == "" then 0 else Decimal(s[..|s| - 1]) * 10 + Digit(s[|s| - 1])
  }

  /** The digits of a Content-Length: accepted exactly when the number without its last digit
      is within the limit; then content_length is the number itself, below 2^64 - 1. */
  lemma {:induction false} ContentLengthIsExact(p: Parser, s: string)
    requires p.state == HeaderValueDiscardWs && p.hs == ContentLength && !p.flags.contentLength
    requires s != "" && AllDigits(s) && p.nread + |s| <= p.limit
    ensures var t := Run(p, s);
            if Decimal(s[..|s| - 1]) <= DECIMAL_LIMIT
            then && t.status == Running && t.p == LengthRead(p, s) && t.p.contentLength == Decimal(s) < ULLONG_MAX
                 && t.items == [Begin(Value)] + ByteItems(Value, s)
            else t.status == Failed(InvalidContentLength)
  {
    hide Step, Run;
    var init, last := s[..|s| - 1], s[|s| - 1];
    assert s == init + [last];
    if init == "" {
      FirstLengthDigit(p, last);
      RunByte(p, last, LengthRead(p, s), [Begin(Value), Byte(Value, last)]);
      assert [Begin(Value), Byte(Value, last)] == [Begin(Value)] + ByteItems(Value, s);
    } else {
      ContentLengthIsExact(p, init);
      DecimalGrows(init);
      if Decimal(init[..|init| - 1]) <= DECIMAL_LIMIT {
        NextLengthDigit(LengthRead(p, init), last);
        LengthReadSnoc(p, s);
        RunUsed(p, init);
        hide AllDigits, Decimal;
        LengthSnoc(p, s);
      } else {
        assert s[..|init|] == init;
        PrefixDecides(p, s, |init|);
      }
    }
  }

  lemma LengthSnoc(p: Parser, s: string)
    requires s != "" && AllDigits(s) && AllDigits(s[..|s| - 1])
    requires var init, last := s[..|s| - 1], s[|s| - 1];
             && Run(p, init) == Trace(LengthRead(p, init), [Begin(Value)] + ByteItems(Value, init), |init|, Running)
             && Step(LengthRead(p, init), last) ==
                  (if DECIMAL_LIMIT < Decimal(init) then Fail(InvalidContentLength) else Go(LengthRead(p, s), [Byte(Value, last)]))
    ensures if DECIMAL_LIMIT < Decimal(s[..|s| - 1]) then Run(p, s).status == Failed(InvalidContentLength)
            else Run(p, s) == Trace(LengthRead(p, s), [Begin(Value)] + ByteItems(Value, s), |s|, Running)
  {
    hide Step, Run, LengthRead, Decimal, AllDigits;
    var init, last := s[..|s| - 1], s[|s| - 1];
    assert s == init + [last];
    RunSnoc(p, init, last);
    Assoc([Begin(Value)], ByteItems(Value, init), [Byte(Value, last)]);
  }

  function LengthRead(p: Parser, s: string): Parser
    requires AllDigits(s)
  {
    p.(state := HeaderValue, index := 0, hs := ContentLengthNum, nread := p.nread + |s|,
       flags := p.flags.(contentLength := true), contentLength := Decimal(s))
  }

  lemma LengthReadSnoc(p: Parser, s: string)
    requires s != "" && AllDigits(s)
    ensures var q := LengthRead(p, s[..|s| - 1]);
            LengthRead(p, s) == q.(nread := q.nread + 1, contentLength := q.contentLength * 10 + Digit(s[|s| - 1]))
  {}

  lemma FirstLengthDigit(p: Parser, ch: char)
    requires p.state == HeaderValueDiscardWs && p.hs == ContentLength && !p.flags.contentLength
    requires IsNum(ch) && p.nread + 1 <= p.limit
    ensures Step(p, ch) == Go(LengthRead(p, [ch]), [Begin(Value), Byte(Value, ch)])
  {
    assert Decimal([ch]) == Digit(ch) by { assert [ch][..0] == ""; }
  }

  lemma NextLengthDigit(p: Parser, ch: char)
    requires p.state == HeaderValue && p.hs == ContentLengthNum && IsNum(ch) && p.nread + 1 <= p.limit
    ensures Step(p, ch) ==
            if DECIMAL_LIMIT < p.contentLength then Fail(InvalidContentLength)
            else Go(p.(nread := p.nread + 1, contentLength := p.contentLength * 10 + Digit(ch)), [Byte(Value, ch)])
  {}

  lemma DecimalGrows(s: string)
    requires s != "" && AllDigits(s)
    ensures Decimal(s[..|s| - 1]) <= Decimal(s)
  {}

  // ---- stitching runs together ----------------------------------------------------------------

  lemma RunByte(p: Parser, ch: char, q: Parser, items: seq<Item>)
    requires Step(p, ch) == Go(q, items)
    ensures Run(p, [ch]) == Trace(q, items, 1, Running)
  {
    hide Step, Run;
    RunEmpty(p);
    RunSnoc(p, "", ch);
    assert "" + [ch] == [ch] && [] + items == items;
  }

  lemma RunGo(p: Parser, a: string, q: Parser, x: seq<Item>, b: string, r: Parser, y: seq<Item>)
    requires Run(p, a) == Trace(q, x, |a|, Running) && Run(q, b) == Trace(r, y, |b|, Running)
    ensures Run(p, a + b) == Trace(r, x + y, |a| + |b|, Running)
    ensures x == [] ==> Run(p, a + b).items == y
  {
    hide Step, Run;
    RunAppend(p, a, b);
  }

  /** The byte at k is one that cannot be. */
  lemma FailsAt(p: Parser, s: string, k: nat)
    requires k < |s| && Run(p, s[..k]).status == Running && Step(Run(p, s[..k]).p, s[k]).Fail?
    ensures Run(p, s).status.Failed? && Run(p, s).items == Run(p, s[..k]).items
  {
    hide Step, Run;
    RunSnoc(p, s[..k], s[k]);
    assert s[..k] + [s[k]] == s[..k + 1];
    PrefixDecides(p, s, k + 1);
  }

  // ---- chunk sizes ---------------------------------------------------------------------------

  predicate SizeDigit(c: char) { Unhex(c) != -1 }

  predicate AllSizeDigits(s: string) { forall i | 0 <= i < |s| :: SizeDigit(s[i]) }

  function HexValue(s: string): nat
    requires AllSizeDigits(s)
  {
    if s == "" then 0 else HexValue(s[..|s| - 1]) * 16 + Unhex(s[|s| - 1])
  }

  predicate HexFits(s: string)
    requires AllSizeDigits(s)
  {
    s == "" || HexValue(s[..|s| - 1]) <= HEX_LIMIT
  }

  /** What the parser takes for a chunk-size digit. RFC 2616 allows hexadecimal digits only; the
      bytes from 0x80 on, for which the table has no initialiser, pass for zeros. */
  lemma SizeDigitsExactly(c: char)
    ensures SizeDigit(c) <==> IsHex(c) || 128 <= c as int
    ensures 128 <= c as int ==> Unhex(c) == 0
  {}

  /** The byte 0x80 and a line end make a size line of size 0. */
  lemma ZeroLine(p: Parser)
    requires p.state == ChunkSizeStart && p.flags.chunked && p.nread == 0 && 3 <= p.limit
    ensures !IsHex(128 as char)
    ensures var t := Run(p, [128 as char, CR, LF]);
            t.status == Running && t.p.flags.trailing && t.items == [Note(ChunkHeader(0))]
  {
    var line := [128 as char, CR, LF];
    assert NumDigits(line) == 1 by { assert line[1..][0] == CR; }
    assert HexValue(line[..1]) == 0 by { assert line[..1][..0] == ""; }
    SizeLineRun(p, line);
    assert line[..3] == line;
  }

  // ---- a chunk-size line ------------------------------------------------------------------------

  /** Sized gives the size and the number of bytes up to and including LF. */
  datatype SizeLine = Short | Broken | Sized(size: nat, used: nat)

  function NumDigits(s: string): (n: nat)
    ensures n <= |s| && AllSizeDigits(s[..n]) && (n < |s| ==> !SizeDigit(s[n]))
  {
    if s == "" || !SizeDigit(s[0]) then 0
    else
      var n := NumDigits(s[1..]);
      assert s[..n + 1] == [s[0]] + s[1..][..n];
      n + 1
  }

  function FindCR(s: string, from: nat): (n: nat)
    requires from <= |s|
    ensures from <= n <= |s|
    decreases |s| - from
  {
    if from == |s| || s[from] == CR then from else FindCR(s, from + 1)
  }

  lemma {:induction false} FindCRIsFirst(s: string, from: nat)
    requires from <= |s|
    ensures var n := FindCR(s, from); (n < |s| ==> s[n] == CR) && CR !in s[from..n]
    decreases |s| - from
  {
    if from < |s| && s[from] != CR {
      FindCRIsFirst(s, from + 1);
      var n := FindCR(s, from);
      assert s[from..n] == [s[from]] + s[from + 1..n];
    }
  }

  /** chunk-size [ chunk-extension ] CRLF, read from the start of s. */
  function ReadSizeLine(s: string): SizeLine {
    var nd := NumDigits(s);
    if !HexFits(s[..nd]) then Broken
    else if nd == |s| then Short
    else if nd == 0 || !(s[nd] == CR || s[nd] == ';' || s[nd] == ' ') then Broken
    else
      var e := FindCR(s, nd);
      if e + 1 >= |s| then Short
      else if s[e + 1] != LF then Broken
      else Sized(HexValue(s[..nd]), e + 2)
  }

  predicate InSizeLine(s: State) { s.ChunkSizeStart? || s.ChunkSize? || s.ChunkParameters? || s.ChunkSizeAlmostDone? }

  function SizeRead(p: Parser, n: nat): Parser {
    if n == 0 then p.(nread := 0, contentLength := 0, flags := p.flags.(trailing := true), state := HeaderFieldStart)
    else p.(nread := 0, contentLength := n, state := ChunkData)
  }

  /** The parser on a size line. */
  function At(p: Parser, s: State, nread: nat, size: nat): Parser {
    p.(state := s, nread := nread, contentLength := size)
  }

  lemma AtFields(p: Parser, s: State, nread: nat, size: nat)
    ensures var q := At(p, s, nread, size);
            && q.state == s && q.nread == nread && q.contentLength == size && q.flags == p.flags && q.limit == p.limit
            && SizeRead(q, size) == SizeRead(p, size)
  {}

  lemma AtIs(p: Parser, k: nat)
    ensures At(p, ChunkSizeAlmostDone, p.nread + 1, p.contentLength) == p.(state := ChunkSizeAlmostDone, nread := p.nread + 1)
    ensures At(p, ChunkParameters, k, p.contentLength) == p.(state := ChunkParameters, nread := k)
  {}

  lemma AtAt(p: Parser, s: State, nread: nat, size: nat, t: State, k: nat, n: nat)
    ensures At(At(p, s, nread, size), t, k, n) == At(p, t, k, n)
  {}

  /** The machine started on s does what the line read from s says. */
  predicate Reads(p: Parser, s: string, line: SizeLine) {
    match line
    case Short => Run(p, s).status == Running && Run(p, s).items == []
    case Broken => Run(p, s).status.Failed? && Run(p, s).items == []
    case Sized(n, k) => k <= |s| && Run(p, s[..k]) == Trace(SizeRead(p, n), [Note(ChunkHeader(n))], k, Running)
  }

  lemma HexSnoc(s: string)
    requires s != "" && AllSizeDigits(s)
    ensures var init, last := s[..|s| - 1], s[|s| - 1];
            && AllSizeDigits(init) && SizeDigit(last) && s == init + [last]
            && HexValue(s) == HexValue(init) * 16 + Unhex(last) && HexFits(s) == (HexValue(init) <= HEX_LIMIT)
            && (init == "" ==> HexValue(init) == 0) && (!HexFits(init) ==> init != "" && !HexFits(s))
  {
    var init := s[..|s| - 1];
    if init != "" { HexGrows(init); }
  }

  lemma {:induction false} HexRun(p: Parser, s: string)
    requires p.state == ChunkSizeStart && p.flags.chunked && p.nread == 0
    requires s != "" && AllSizeDigits(s) && |s| <= p.limit
    ensures var t := Run(p, s);
            if HexFits(s) then t == Trace(At(p, ChunkSize, |s|, HexValue(s)), [], |s|, Running)
            else t.status == Failed(InvalidContentLength) && t.items == []
  {
    hide Step, Run, HexValue, HexFits, AllSizeDigits, Unhex;
    HexSnoc(s);
    var init, last := s[..|s| - 1], s[|s| - 1];
    if init == "" {
      RunEmpty(p);
      FirstSizeDigit(p, last);
      RunSnoc(p, init, last);
    } else {
      HexRun(p, init);
      if HexFits(init) {
        NextSizeDigit(p.(state := ChunkSize, nread := |init|, contentLength := HexValue(init)), last);
        RunSnoc(p, init, last);
      } else {
        assert s[..|init|] == init;
        PrefixDecides(p, s, |init|);
      }
    }
  }

  lemma HexGrows(s: string)
    requires s != "" && AllSizeDigits(s)
    ensures HexValue(s[..|s| - 1]) <= HexValue(s)
  {}

  lemma FirstSizeDigit(p: Parser, ch: char)
    requires p.state == ChunkSizeStart && p.flags.chunked && p.nread == 0 && 1 <= p.limit
    ensures Step(p, ch) == if SizeDigit(ch) then Go(p.(state := ChunkSize, nread := 1, contentLength := Unhex(ch)), [])
                           else Fail(InvalidChunkSize)
  {
    hide Unhex;
  }

  lemma NextSizeDigit(p: Parser, ch: char)
    requires p.state == ChunkSize && p.flags.chunked && SizeDigit(ch) && p.nread + 1 <= p.limit
    ensures Step(p, ch) == if HEX_LIMIT < p.contentLength then Fail(InvalidContentLength)
                           else Go(p.(nread := p.nread + 1, contentLength := p.contentLength * 16 + Unhex(ch)), [])
  {
    assert ch != CR;
    hide Unhex;
  }

  /** The byte after the digits, and the bytes of an extension. */
  lemma AfterDigits(p: Parser, ch: char)
    requires p.state == ChunkSize && p.flags.chunked && !SizeDigit(ch) && p.nread + 1 <= p.limit
    ensures var q := p.(nread := p.nread + 1);
            Step(p, ch) == if ch == CR then Go(q.(state := ChunkSizeAlmostDone), [])
                           else if ch == ';' || ch == ' ' then Go(q.(state := ChunkParameters), [])
                           else Fail(InvalidChunkSize)
  {
    hide Unhex;
  }

  lemma {:induction false} ExtensionRun(p: Parser, s: string)
    requires p.state == ChunkParameters && p.flags.chunked && CR !in s && p.nread + |s| <= p.limit
    ensures Run(p, s) == Trace(p.(nread := p.nread + |s|), [], |s|, Running)
  {
    hide Step, Run;
    if s == "" {
      RunEmpty(p);
    } else {
      var init, last := s[..|s| - 1], s[|s| - 1];
      ExtensionRun(p, init);
      ExtensionByte(p.(nread := p.nread + |init|), last);
      assert s == init + [last];
      RunSnoc(p, init, last);
    }
  }

  lemma ExtensionByte(p: Parser, ch: char)
    requires p.state == ChunkParameters && p.flags.chunked && p.nread + 1 <= p.limit
    ensures Step(p, ch) == Go(p.(nread := p.nread + 1, state := if ch == CR then ChunkSizeAlmostDone else ChunkParameters), [])
  {}

  lemma SizeLineFeed(p: Parser, ch: char)
    requires p.state == ChunkSizeAlmostDone && p.flags.chunked && p.nread + 1 <= p.limit
    ensures Step(p, ch) == if ch == LF then Go(SizeRead(p, p.contentLength), [Note(ChunkHeader(p.contentLength))])
                           else Fail(Strict)
  {}

  function ThroughCR(s: string): string {
    var e := FindCR(s, 0);
    if e == |s| then s else s[..e + 1]
  }

  function AfterLine(s: string): State { if FindCR(s, 0) == |s| then ChunkParameters else ChunkSizeAlmostDone }

  /** What the machine does from the end of the digits to the CR that ends the line. */
  lemma ToLineEnd(p: Parser, s: string)
    requires p.state == ChunkSize && p.flags.chunked && s != "" && !SizeDigit(s[0]) && p.nread + |s| <= p.limit
    requires s[0] == CR || s[0] == ';' || s[0] == ' '
    ensures var w := ThroughCR(s);
            Run(p, w) == Trace(At(p, AfterLine(s), p.nread + |w|, p.contentLength), [], |w|, Running)
  {
    hide Step, Run, SizeDigit, At;
    var e := FindCR(s, 0);
    if s[0] == CR {
      AfterDigits(p, CR);
      RunByte(p, CR, At(p, ChunkSizeAlmostDone, p.nread + 1, p.contentLength), []) by { AtIs(p, 0); }
      assert e == 0 && s[..1] == [CR];
    } else {
      FindCRIsFirst(s, 0);
      assert 0 < e;
      hide FindCR;
      ExtensionUpTo(p, s, e);
      if e == |s| {
        AtIs(p, p.nread + e);
        assert s[..e] == s;
      } else {
        LastOfLine(p, s, e);
      }
    }
  }

  lemma LastOfLine(p: Parser, s: string, e: nat)
    requires p.flags.chunked && 0 < e < |s| && s[e] == CR && p.nread + |s| <= p.limit
    requires Run(p, s[..e]) == Trace(p.(nread := p.nread + e, state := ChunkParameters), [], e, Running)
    ensures Run(p, s[..e + 1]) == Trace(At(p, ChunkSizeAlmostDone, p.nread + e + 1, p.contentLength), [], e + 1, Running)
  {
    hide Step, Run;
    var q := p.(nread := p.nread + e, state := ChunkParameters);
    var r := At(p, ChunkSizeAlmostDone, p.nread + e + 1, p.contentLength);
    ExtensionByte(q, s[e]);
    RunByte(q, s[e], r, []);
    RunGo(p, s[..e], q, [], [s[e]], r, []);
    assert s[..e] + [s[e]] == s[..e + 1];
  }

  lemma ExtensionUpTo(p: Parser, s: string, e: nat)
    requires p.state == ChunkSize && p.flags.chunked && 0 < e <= |s| && p.nread + |s| <= p.limit
    requires !SizeDigit(s[0]) && (s[0] == ';' || s[0] == ' ') && CR !in s[0..e]
    ensures Run(p, s[..e]) == Trace(p.(nread := p.nread + e, state := ChunkParameters), [], e, Running)
  {
    hide Step, Run, SizeDigit;
    var q := p.(nread := p.nread + 1, state := ChunkParameters);
    var mid := s[1..e];
    AfterDigits(p, s[0]);
    RunByte(p, s[0], q, []);
    assert CR !in mid by { assert forall c | c in mid :: c in s[0..e]; }
    ExtensionRun(q, mid);
    RunGo(p, [s[0]], q, [], mid, q.(nread := q.nread + |mid|), []);
    assert [s[0]] + mid == s[..e];
  }

  /** The machine reads a size line as the grammar does, when the line is within the limit. */
  lemma SizeLineRun(p: Parser, s: string)
    requires p.state == ChunkSizeStart && p.flags.chunked && p.nread == 0 && |s| <= p.limit
    ensures Reads(p, s, ReadSizeLine(s))
    ensures ReadSizeLine(s).Short? ==>
              InSizeLine(Run(p, s).p.state) && Run(p, s).p.nread == |s| && Run(p, s).p.limit == p.limit
  {
    hide Step, Run, FindCR;
    var nd := NumDigits(s);
    var ds, rest := s[..nd], s[nd..];
    assert s == ds + rest;
    if s == "" {
      RunEmpty(p);
    } else if nd == 0 {
      RunEmpty(p);
      FirstSizeDigit(p, s[0]);
      RunSnoc(p, "", s[0]);
      assert "" + [s[0]] == s[..1];
      PrefixDecides(p, s, 1);
    } else {
      HexRun(p, ds);
      if !HexFits(ds) {
        PrefixDecides(p, s, nd);
      } else if nd == |s| {
        assert ds == s;
      } else {
        RestOfSizeLine(p, s);
      }
    }
  }

  lemma SizeLineShape(s: string)
    requires var nd := NumDigits(s); 0 < nd < |s| && HexFits(s[..nd])
    ensures var nd := NumDigits(s);
            var e := FindCR(s, nd);
            ReadSizeLine(s) ==
              if !(s[nd] == CR || s[nd] == ';' || s[nd] == ' ') then Broken
              else if e + 1 >= |s| then Short
              else if s[e + 1] != LF then Broken
              else Sized(HexValue(s[..nd]), e + 2)
  {
    hide NumDigits, FindCR, HexFits, HexValue;
  }

  lemma UpToCR(p: Parser, ds: string, rest: string)
    requires p.state == ChunkSizeStart && p.flags.chunked && p.nread == 0 && |ds| + |rest| <= p.limit
    requires ds != "" && AllSizeDigits(ds) && HexFits(ds)
    requires rest != "" && (rest[0] == CR || rest[0] == ';' || rest[0] == ' ')
    ensures var w := ds + ThroughCR(rest);
            Run(p, w) == Trace(At(p, AfterLine(rest), |w|, HexValue(ds)), [], |w|, Running)
  {
    hide Step, Run, SizeDigit, HexFits, HexValue, AllSizeDigits, At, SizeRead, ThroughCR, AfterLine;
    SeparatorIsNoDigit(rest[0]);
    var n := HexValue(ds);
    var q := At(p, ChunkSize, |ds|, n);
    var w := ThroughCR(rest);
    AtFields(p, ChunkSize, |ds|, n);
    HexRun(p, ds);
    ToLineEnd(q, rest);
    AtAt(p, ChunkSize, |ds|, n, AfterLine(rest), |ds| + |w|, n);
    RunGo(p, ds, q, [], w, At(p, AfterLine(rest), |ds| + |w|, n), []);
  }

  lemma SeparatorIsNoDigit(c: char)
    ensures c == CR || c == ';' || c == ' ' ==> !SizeDigit(c)
  {}

  lemma SeparatedLine(p: Parser, s: string, nd: nat)
    requires p.state == ChunkSizeStart && p.flags.chunked && p.nread == 0 && |s| <= p.limit
    requires 0 < nd < |s| && AllSizeDigits(s[..nd]) && HexFits(s[..nd])
    requires s[nd] == CR || s[nd] == ';' || s[nd] == ' '
    ensures var e := FindCR(s, nd);
            Reads(p, s, if e + 1 >= |s| then Short else if s[e + 1] != LF then Broken else Sized(HexValue(s[..nd]), e + 2))
    ensures FindCR(s, nd) + 1 >= |s| ==>
              InSizeLine(Run(p, s).p.state) && Run(p, s).p.nread == |s| && Run(p, s).p.limit == p.limit
  {
    hide Step, Run, FindCR, HexFits, HexValue, AllSizeDigits, At, SizeRead;
    var n := HexValue(s[..nd]);
    var e := FindCR(s, nd);
    var ds, rest := s[..nd], s[nd..];
    UpToCR(p, ds, rest);
    FindCRShift(s, nd, 0);
    if e < |s| {
      assert ds + rest[..e - nd + 1] == s[..e + 1];
      AtFields(p, ChunkSizeAlmostDone, e + 1, n);
      AfterCR(p, s, e, At(p, ChunkSizeAlmostDone, e + 1, n));
    } else {
      assert ds + rest == s;
      AtFields(p, ChunkParameters, e, n);
    }
  }

  lemma RestOfSizeLine(p: Parser, s: string)
    requires p.state == ChunkSizeStart && p.flags.chunked && p.nread == 0 && |s| <= p.limit
    requires var nd := NumDigits(s); 0 < nd < |s| && HexFits(s[..nd])
    ensures Reads(p, s, ReadSizeLine(s))
    ensures ReadSizeLine(s).Short? ==>
              InSizeLine(Run(p, s).p.state) && Run(p, s).p.nread == |s| && Run(p, s).p.limit == p.limit
  {
    hide Step, Run, FindCR, SizeDigit, HexFits, HexValue, AllSizeDigits, At, SizeRead;
    var nd := NumDigits(s);
    SizeLineShape(s);
    hide ReadSizeLine;
    if s[nd] == CR || s[nd] == ';' || s[nd] == ' ' {
      hide Reads, NumDigits;
      SeparatedLine(p, s, nd);
    } else {
      var n := HexValue(s[..nd]);
      HexRun(p, s[..nd]);
      AtFields(p, ChunkSize, nd, n);
      AfterDigits(At(p, ChunkSize, nd, n), s[nd]);
      hide NumDigits;
      FailsAt(p, s, nd);
    }
  }

  lemma AfterCR(p: Parser, s: string, e: nat, r: Parser)
    requires e < |s| <= p.limit && Run(p, s[..e + 1]) == Trace(r, [], e + 1, Running)
    requires r.state == ChunkSizeAlmostDone && r.flags.chunked && r.limit == p.limit && r.nread == e + 1
    requires SizeRead(r, r.contentLength) == SizeRead(p, r.contentLength)
    ensures Reads(p, s, if e + 1 == |s| then Short else if s[e + 1] != LF then Broken else Sized(r.contentLength, e + 2))
    ensures e + 1 == |s| ==> Run(p, s).p == r
  {
    hide Step, Run, SizeRead;
    if e + 1 == |s| {
      assert s[..e + 1] == s;
    } else {
      SizeLineFeed(r, s[e + 1]);
      if s[e + 1] != LF {
        FailsAt(p, s, e + 1);
      } else {
        var n := r.contentLength;
        RunByte(r, s[e + 1], SizeRead(r, n), [Note(ChunkHeader(n))]);
        RunGo(p, s[..e + 1], r, [], [s[e + 1]], SizeRead(r, n), [Note(ChunkHeader(n))]);
        assert s[..e + 1] + [s[e + 1]] == s[..e + 2];
      }
    }
  }

  lemma {:induction false} FindCRShift(s: string, n: nat, from: nat)
    requires n + from <= |s|
    ensures FindCR(s, n + from) == n + FindCR(s[n..], from)
    decreases |s| - from
  {
    if n + from < |s| && s[n + from] != CR { FindCRShift(s, n, from + 1); }
  }

  // ---- the chunked coding ------------------------------------------------------------------------

  /** Ended gives the body and where the trailer starts; Open gives what there is so far. */
  datatype Decoded = Ended(body: string, used: nat) | Malformed | Open(body: string)

  /** A line may have at most limit bytes. */
  function LimitedLine(s: string, limit: nat): SizeLine {
    if |s| <= limit then ReadSizeLine(s)
    else match ReadSizeLine(s[..limit]) case Short => Broken case line => line
  }

  /** Chunked-Body up to and including the last-chunk line, by recursive descent. */
  function DecodeChunks(s: string, limit: nat): Decoded
    decreases |s|
  {
    match LimitedLine(s, limit)
    case Short => Open("")
    case Broken => Malformed
    case Sized(n, k) =>
      if k == 0 || k > |s| then Malformed
      else if n == 0 then Ended("", k)
      else Behind("", k, DecodeChunkData(s[k..], n, limit))
  }

  /** chunk-data CRLF and the chunks after it. */
  function DecodeChunkData(s: string, n: nat, limit: nat): Decoded
    decreases |s|
  {
    if |s| <= n then Open(s)
    else if s[n] != CR then Malformed
    else if |s| == n + 1 then Open(s[..n])
    else if s[n + 1] != LF then Malformed
    else Behind(s[..n], n + 2, DecodeChunks(s[n + 2..], limit))
  }

  function Behind(body: string, used: nat, d: Decoded): Decoded {
    match d
    case Ended(more, n) => Ended(body + more, used + n)
    case Open(more) => Open(body + more)
    case Malformed => Malformed
  }

  lemma BodyBytesCons(item: Item, rest: seq<Item>)
    ensures BodyBytes([item] + rest) == (if item.Byte? && item.kind == Body then [item.b] else "") + BodyBytes(rest)
  {
    assert ([item] + rest)[1..] == rest;
  }

  lemma {:induction false} BodyBytesAppend(a: seq<Item>, b: seq<Item>)
    ensures BodyBytes(a + b) == BodyBytes(a) + BodyBytes(b)
  {
    if a == [] {
      assert a + b == b;
    } else {
      hide BodyBytes;
      var x, rest := a[0], a[1..];
      var own := if x.Byte? && x.kind == Body then [x.b] else "";
      assert a == [x] + rest && a + b == [x] + (rest + b);
      BodyBytesCons(x, rest);
      BodyBytesCons(x, rest + b);
      BodyBytesAppend(rest, b);
      Assoc(own, BodyBytes(rest), BodyBytes(b));
    }
  }

  lemma {:induction false} BodyBytesOfBody(s: string)
    ensures BodyBytes(BodyItems(s)) == s
  {
    if s == "" {
    } else {
      var init, b := s[..|s| - 1], s[|s| - 1];
      BodyBytesOfBody(init);
      BodyBytesAppend(BodyItems(init), [Begin(Body), Byte(Body, b)]);
      OneBodyByte(b);
      assert init + [b] == s;
    }
  }

  lemma OneBodyByte(b: char)
    ensures BodyBytes([Begin(Body), Byte(Body, b)]) == [b]
  {
    assert [Begin(Body)] + [Byte(Body, b)] == [Begin(Body), Byte(Body, b)];
    assert [Byte(Body, b)] + [] == [Byte(Body, b)];
    BodyBytesCons(Begin(Body), [Byte(Body, b)]);
    BodyBytesCons(Byte(Body, b), []);
  }

  lemma NoBodyBytes(item: Item)
    requires !item.Byte?
    ensures BodyBytes([item]) == ""
  {
    assert [item][1..] == [];
  }

  /** The machine on a limited line. */
  lemma LimitedLineRun(p: Parser, s: string)
    requires p.state == ChunkSizeStart && p.flags.chunked && p.nread == 0
    ensures Reads(p, s, LimitedLine(s, p.limit))
    ensures LimitedLine(s, p.limit).Sized? ==> 0 < LimitedLine(s, p.limit).used
  {
    hide Step, Run;
    if |s| <= p.limit {
      SizeLineRun(p, s);
      LineIsNotEmpty(s);
    } else {
      var w := s[..p.limit];
      SizeLineRun(p, w);
      LineIsNotEmpty(w);
      match ReadSizeLine(w)
      case Short =>
        OneTooMany(Run(p, w).p, s[p.limit]);
        RunSnoc(p, w, s[p.limit]);
        assert w + [s[p.limit]] == s[..p.limit + 1];
        PrefixDecides(p, s, p.limit + 1);
      case Broken => PrefixDecides(p, s, p.limit);
      case Sized(n, k) => assert w[..k] == s[..k];
    }
  }

  lemma LineIsNotEmpty(s: string)
    ensures ReadSizeLine(s).Sized? ==> 0 < ReadSizeLine(s).used
  {}

  lemma OneTooMany(p: Parser, ch: char)
    requires InSizeLine(p.state) && p.nread == p.limit
    ensures Step(p, ch) == Fail(HeaderOverflow)
  {}

  lemma ChunkEnd(p: Parser, ch: char)
    requires p.flags.chunked && (p.state == ChunkDataDone || (p.state == ChunkDataAlmostDone && p.contentLength == 0))
    ensures Step(p, ch) ==
            if p.state == ChunkDataDone then
              (if ch == LF then Go(p.(nread := 0, state := ChunkSizeStart), [Note(ChunkComplete)]) else Fail(Strict))
            else (if ch == CR then Go(p.(state := ChunkDataDone), [End(Body)]) else Fail(Strict))
  {}

  /** No message is completed. */
  predicate Quiet(items: seq<Item>) { forall i | 0 <= i < |items| :: items[i] != Note(MessageComplete) }

  lemma QuietAppend(a: seq<Item>, b: seq<Item>)
    ensures Quiet(a + b) <==> Quiet(a) && Quiet(b)
  {
    if Quiet(a + b) {
      forall i | 0 <= i < |a| ensures a[i] != Note(MessageComplete) { assert a[i] == (a + b)[i]; }
      forall i | 0 <= i < |b| ensures b[i] != Note(MessageComplete) { assert b[i] == (a + b)[|a| + i]; }
    }
  }

  lemma QuietOne(item: Item)
    ensures Quiet([item]) <==> item != Note(MessageComplete)
  {
    assert [item][0] == item;
  }

  lemma {:induction false} QuietBody(s: string)
    ensures Quiet(BodyItems(s))
  {
    if s != "" { QuietBody(s[..|s| - 1]); }
  }

  predicate Delivers(t: Trace, body: string) { t.status == Running && BodyBytes(t.items) == body && Quiet(t.items) }

  /** The machine started on s fails, delivers the body so far, or delivers the body and is at
      the start of the trailer; no message is completed by then. */
  predicate Agrees(p: Parser, s: string, d: Decoded) {
    match d
    case Malformed => Run(p, s).status.Failed? && Quiet(Run(p, s).items)
    case Open(body) => Delivers(Run(p, s), body)
    case Ended(body, used) =>
      used <= |s| && Delivers(Run(p, s[..used]), body) && Run(p, s[..used]).p == SizeRead(p, 0)
  }

  /** The data of one chunk and what follows it. */
  lemma ChunkBody(p: Parser, n: nat, rest: string)
    requires p.state == ChunkData && p.flags.chunked && p.contentLength == n && 0 < n < ULLONG_MAX && p.nread == 0
    ensures if |rest| <= n then Delivers(Run(p, rest), rest)
            else if rest[n] != CR then Run(p, rest).status.Failed? && Quiet(Run(p, rest).items)
            else if |rest| == n + 1 then Delivers(Run(p, rest), rest[..n])
            else if rest[n + 1] != LF then Run(p, rest).status.Failed? && Quiet(Run(p, rest).items)
            else Delivers(Run(p, rest[..n + 2]), rest[..n]) && Run(p, rest[..n + 2]).used == n + 2
                 && Run(p, rest[..n + 2]).p == p.(contentLength := 0, state := ChunkSizeStart)
  {
    hide Step, Run, BodyBytes, BodyItems, Quiet;
    if |rest| <= n {
      if rest == "" { RunEmpty(p); EmptyBody(); } else { ChunkRun(p, rest); BodyBytesOfBody(rest); QuietBody(rest); }
    } else {
      var d := rest[..n];
      var q := p.(contentLength := 0, state := ChunkDataAlmostDone);
      ChunkRun(p, d);
      BodyBytesOfBody(d);
      QuietBody(d);
      ChunkEnd(q, rest[n]);
      if rest[n] != CR {
        FailsAt(p, rest, n);
      } else {
        var r := q.(state := ChunkDataDone);
        RunByte(q, CR, r, [End(Body)]);
        RunGo(p, d, q, BodyItems(d), [CR], r, [End(Body)]);
        assert d + [CR] == rest[..n + 1];
        BodyBytesAppend(BodyItems(d), [End(Body)]);
        NoBodyBytes(End(Body));
        QuietAppend(BodyItems(d), [End(Body)]);
        QuietOne(End(Body));
        ChunkLineFeed(p, r, n, rest);
      }
    }
  }

  lemma ChunkLineFeed(p: Parser, r: Parser, n: nat, rest: string)
    requires n + 1 <= |rest| && Delivers(Run(p, rest[..n + 1]), rest[..n]) && Run(p, rest[..n + 1]).p == r
    requires r.state == ChunkDataDone && r.flags.chunked
    ensures if |rest| == n + 1 then Delivers(Run(p, rest), rest[..n])
            else if rest[n + 1] != LF then Run(p, rest).status.Failed? && Quiet(Run(p, rest).items)
            else Delivers(Run(p, rest[..n + 2]), rest[..n]) && Run(p, rest[..n + 2]).used == n + 2
                 && Run(p, rest[..n + 2]).p == r.(nread := 0, state := ChunkSizeStart)
  {
    hide Step, Run, BodyBytes, Quiet;
    if |rest| == n + 1 {
      assert rest[..n + 1] == rest;
    } else {
      ChunkEnd(r, rest[n + 1]);
      if rest[n + 1] != LF {
        FailsAt(p, rest, n + 1);
      } else {
        var t := Run(p, rest[..n + 1]);
        RunUsed(p, rest[..n + 1]);
        RunByte(r, LF, r.(nread := 0, state := ChunkSizeStart), [Note(ChunkComplete)]);
        RunGo(p, rest[..n + 1], r, t.items, [LF], r.(nread := 0, state := ChunkSizeStart), [Note(ChunkComplete)]);
        assert rest[..n + 1] + [LF] == rest[..n + 2];
        BodyBytesAppend(t.items, [Note(ChunkComplete)]);
        NoBodyBytes(Note(ChunkComplete));
        QuietAppend(t.items, [Note(ChunkComplete)]);
        QuietOne(Note(ChunkComplete));
      }
    }
  }

  lemma EmptyBody()
    ensures BodyBytes([]) == "" && Quiet([])
  {}

  /** Sizes that are accepted are below the sentinel. */
  lemma SizeFits(s: string)
    ensures ReadSizeLine(s).Sized? ==> ReadSizeLine(s).size < ULLONG_MAX
  {
    var ds := s[..NumDigits(s)];
    if ReadSizeLine(s).Sized? { assert HexValue(ds) == HexValue(ds[..|ds| - 1]) * 16 + Unhex(ds[|ds| - 1]); }
  }

  /** The machine and the grammar agree on every string: it fails exactly on malformed bodies,
      and otherwise has delivered exactly the chunk data, sizes and line ends removed. */
  lemma {:induction false} ChunkedBodyIsExact(p: Parser, s: string)
    requires p.state == ChunkSizeStart && p.flags.chunked && p.nread == 0
    ensures Agrees(p, s, DecodeChunks(s, p.limit))
    decreases |s|
  {
    hide Step, Run, BodyBytes, LimitedLine, DecodeChunkData, Behind, Quiet;
    LimitedLineRun(p, s);
    LimitedSizeFits(s, p.limit);
    EmptyBody();
    match LimitedLine(s, p.limit)
    case Short =>
    case Broken =>
    case Sized(n, k) =>
      NoBodyBytes(Note(ChunkHeader(n)));
      QuietOne(Note(ChunkHeader(n)));
      if n != 0 {
        ChunkDataIsExact(SizeRead(p, n), n, s[k..]);
        AfterPart(p, s, k, "", SizeRead(p, n), DecodeChunkData(s[k..], n, p.limit));
      }
  }

  lemma {:induction false} ChunkDataIsExact(p: Parser, n: nat, s: string)
    requires p.state == ChunkData && p.flags.chunked && p.contentLength == n && 0 < n < ULLONG_MAX && p.nread == 0
    ensures Agrees(p, s, DecodeChunkData(s, n, p.limit))
    decreases |s|
  {
    hide Step, Run, BodyBytes, DecodeChunks, Behind, Quiet;
    ChunkBody(p, n, s);
    if n + 2 <= |s| && s[n] == CR && s[n + 1] == LF {
      var r := p.(contentLength := 0, state := ChunkSizeStart);
      ChunkedBodyIsExact(r, s[n + 2..]);
      AfterPart(p, s, n + 2, s[..n], r, DecodeChunks(s[n + 2..], p.limit));
    }
  }

  /** What a part delivers, in front of what the decoder says of the rest. */
  lemma AfterPart(p: Parser, s: string, k: nat, body: string, r: Parser, d: Decoded)
    requires k <= |s| && Delivers(Run(p, s[..k]), body) && Run(p, s[..k]).used == k && Run(p, s[..k]).p == r
    requires Agrees(r, s[k..], d) && SizeRead(r, 0) == SizeRead(p, 0)
    ensures Agrees(p, s, Behind(body, k, d))
  {
    hide Step, Run, BodyBytes, SizeRead, Quiet;
    var a, rest := s[..k], s[k..];
    assert s == a + rest;
    match d
    case Malformed =>
      RunAppend(p, a, rest);
      QuietAppend(Run(p, a).items, Run(r, rest).items);
    case Open(_) =>
      RunAppend(p, a, rest);
      BodyBytesAppend(Run(p, a).items, Run(r, rest).items);
      QuietAppend(Run(p, a).items, Run(r, rest).items);
    case Ended(_, used) =>
      var b := rest[..used];
      RunAppend(p, a, b);
      assert a + b == s[..k + used];
      BodyBytesAppend(Run(p, a).items, Run(r, b).items);
      QuietAppend(Run(p, a).items, Run(r, b).items);
  }

  lemma LimitedSizeFits(s: string, limit: nat)
    ensures LimitedLine(s, limit).Sized? ==> LimitedLine(s, limit).size < ULLONG_MAX
  {
    SizeFits(s);
    if |s| > limit { SizeFits(s[..limit]); }
  }

  // ---- the encoder ---------------------------------------------------------------------------------

  function HexDigit(d: nat): char
    requires d < 16
  {
    if d < 10 then (d + '0' as int) as char else (d - 10 + 'a' as int) as char
  }

  function Hex(n: nat): (s: string)
    ensures s != "" && AllSizeDigits(s)
  {
    if n < 16 then [HexDigit(n)] else Hex(n / 16) + [HexDigit(n % 16)]
  }

  lemma {:induction false} HexValueOfHex(n: nat)
    requires n / 16 <= HEX_LIMIT
    ensures HexValue(Hex(n)) == n && HexFits(Hex(n))
  {
    var s := Hex(n);
    if n < 16 {
      assert s[..|s| - 1] == "";
    } else {
      HexValueOfHex(n / 16);
      assert s[..|s| - 1] == Hex(n / 16);
    }
  }

  /** Chunked-Body of section 3.6.1 of RFC 2616 up to the last-chunk line, without extensions. */
  function Encode(chunks: seq<string>): string {
    if chunks == [] then "0\r\n"
    else Hex(|chunks[0]|) + "\r\n" + chunks[0] + "\r\n" + Encode(chunks[1..])
  }

  function Join(chunks: seq<string>): string {
    if chunks == [] then "" else chunks[0] + Join(chunks[1..])
  }

  predicate Encodable(chunks: seq<string>, limit: nat) {
    3 <= limit && forall i | 0 <= i < |chunks| :: 0 < |chunks[i]| && |chunks[i]| / 16 <= HEX_LIMIT && |Hex(|chunks[i]|)| + 2 <= limit
  }

  lemma {:induction false} DigitsThenCR(ds: string, rest: string)
    requires AllSizeDigits(ds)
    ensures NumDigits(ds + "\r\n" + rest) == |ds|
  {
    var s := ds + "\r\n" + rest;
    if ds != "" {
      DigitsThenCR(ds[1..], rest);
      assert s[0] == ds[0] && s[1..] == ds[1..] + "\r\n" + rest;
    }
  }

  lemma SizeLineOfHex(n: nat, rest: string, limit: nat)
    requires n / 16 <= HEX_LIMIT && |Hex(n)| + 2 <= limit
    ensures LimitedLine(Hex(n) + "\r\n" + rest, limit) == Sized(n, |Hex(n)| + 2)
  {
    hide Hex, HexValue, HexFits, ReadSizeLine, NumDigits, SizeDigit;
    var ds := Hex(n);
    var s := ds + "\r\n" + rest;
    var cut := if |s| <= limit then rest else rest[..limit - |ds| - 2];
    var w := ds + "\r\n" + cut;
    assert w == if |s| <= limit then s else s[..limit];
    DigitsThenCR(ds, cut);
    HexValueOfHex(n);
    assert w[..|ds|] == ds && w[|ds|] == CR && w[|ds| + 1] == LF;
    SizeLineShape(w);
  }

  /** Decoding what was encoded gives the chunks joined, whatever follows. */
  lemma {:induction false} DecodeEncode(chunks: seq<string>, rest: string, limit: nat)
    requires Encodable(chunks, limit)
    ensures DecodeChunks(Encode(chunks) + rest, limit) == Ended(Join(chunks), |Encode(chunks)|)
  {
    hide LimitedLine, Hex, DecodeChunks;
    if chunks == [] {
      LastLine();
      SizeLineOfHex(0, rest, limit);
      assert Encode(chunks) + rest == Hex(0) + "\r\n" + rest;
      DecodeLast(Hex(0) + "\r\n" + rest, limit, 3);
    } else {
      var c, more := chunks[0], Encode(chunks[1..]) + rest;
      var h := Hex(|c|);
      var data := c + "\r\n" + more;
      DecodeEncode(chunks[1..], rest, limit);
      SizeLineOfHex(|c|, data, limit);
      DecodeOne(h, c, more, limit);
      assert Encode(chunks) + rest == h + "\r\n" + data;
    }
  }

  lemma DecodeLast(s: string, limit: nat, k: nat)
    requires LimitedLine(s, limit) == Sized(0, k) && 0 < k <= |s|
    ensures DecodeChunks(s, limit) == Ended("", k)
  {}

  lemma DecodeOne(h: string, c: string, more: string, limit: nat)
    requires c != "" && LimitedLine(h + "\r\n" + (c + "\r\n" + more), limit) == Sized(|c|, |h| + 2)
    ensures DecodeChunks(h + "\r\n" + (c + "\r\n" + more), limit) ==
            Behind("", |h| + 2, Behind(c, |c| + 2, DecodeChunks(more, limit)))
  {
    hide LimitedLine, Behind;
    var data := c + "\r\n" + more;
    var s := h + "\r\n" + data;
    assert s[|h| + 2..] == data;
    assert data[..|c|] == c && data[|c| + 2..] == more && data[|c|] == CR && data[|c| + 1] == LF;
  }

  lemma LastLine()
    ensures Hex(0) == "0"
  {}

  /** What the machine delivers for an encoded body is the chunks joined. */
  lemma EncodedBodyIsDelivered(p: Parser, chunks: seq<string>)
    requires p.state == ChunkSizeStart && p.flags.chunked && p.nread == 0 && Encodable(chunks, p.limit)
    ensures Delivers(Run(p, Encode(chunks)), Join(chunks)) && Run(p, Encode(chunks)).p == SizeRead(p, 0)
  {
    hide Run, Step, BodyBytes, Encode, SizeRead, DecodeChunks;
    var s := Encode(chunks);
    DecodeEncode(chunks, "", p.limit);
    assert s + "" == s && s[..|s|] == s;
    ChunkedBodyIsExact(p, s);
  }
}
