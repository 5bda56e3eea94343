/** Percent-encoding and the splitter of form and query parameters. A byte is a char below 256. */
module Forms {
  import opened Options
  import opened Seqs

  predicate Bytes(s: string) { forall i | 0 <= i < |s| :: s[i] as int < 256 }

  // ---- percent-encoding ----------------------------------------------------------------------

  predicate IsLetter(c: char) { 'A' <= c <= 'Z' || 'a' <= c <= 'z' }
  predicate IsDigit(c: char) { '0' <= c <= '9' }

  /** Section 2.3 of RFC 3986. */
  predicate Unreserved(c: char) { IsLetter(c) || IsDigit(c) || c == '-' || c == '.' || c == '_' || c == '~' }

  /** The uri_chars table, which has the equals sign as well. */
  predicate Kept(c: char) { Unreserved(c) || c == '=' }

  function HexDigit(n: nat): char
    requires n < 16
  {
    "0123456789ABCDEF"[n]
  }

  predicate IsXDigit(c: char) { IsDigit(c) || 'A' <= c <= 'F' || 'a' <= c <= 'f' }

  /** The xdigit_chars table, where isxdigit holds. */
  function XDigit(c: char): (n: nat)
    requires IsXDigit(c)
    ensures n < 16
  {
    if IsDigit(c) then c as int - '0' as int
    else if 'A' <= c <= 'F' then c as int - 'A' as int + 10
    else c as int - 'a' as int + 10
  }

  function EncodeChar(c: char, plus: bool): (r: string)
    requires c as int < 256
    ensures 1 <= |r|
  {
    if Kept(c) then [c]
    else if c == ' ' && plus then "+"
    else ['%', HexDigit(c as int / 16), HexDigit(c as int % 16)]
  }

  /** What UrlEncode means: every byte on its own. */
  function UrlEncode(s: string, plus: bool): string
    requires Bytes(s)
  {
    if s == "" then "" else UrlEncode(s[..|s| - 1], plus) + EncodeChar(s[|s| - 1], plus)
  }

  /** An escape is the percent sign and two hexadecimal digits. */
  predicate Escape(s: string, i: nat) {
    i + 2 < |s| && s[i] == '%' && IsXDigit(s[i + 1]) && IsXDigit(s[i + 2])
  }

  /** What UrlDecode means, from position i on. */
  function UrlDecode(s: string, i: nat, plus: bool): string
    requires i <= |s|
    decreases |s| - i
  {
    if i == |s| then ""
    else if s[i] == '+' && plus then " " + UrlDecode(s, i + 1, plus)
    else if Escape(s, i) then [(16 * XDigit(s[i + 1]) + XDigit(s[i + 2])) as char] + UrlDecode(s, i + 3, plus)
    else [s[i]] + UrlDecode(s, i + 1, plus)
  }

  lemma DecodeAt(s: string, i: nat, plus: bool)
    requires i <= |s|
    ensures UrlDecode(s, i, plus) ==
            if i == |s| then ""
            else if s[i] == '+' && plus then " " + UrlDecode(s, i + 1, plus)
            else if Escape(s, i) then [(16 * XDigit(s[i + 1]) + XDigit(s[i + 2])) as char] + UrlDecode(s, i + 3, plus)
            else [s[i]] + UrlDecode(s, i + 1, plus)
  {}

  lemma EscapeShift(a: string, s: string, i: nat)
    requires i < |s|
    ensures (a + s)[|a| + i] == s[i] && Escape(a + s, |a| + i) == Escape(s, i)
    ensures Escape(s, i) ==> (a + s)[|a| + i + 1] == s[i + 1] && (a + s)[|a| + i + 2] == s[i + 2]
  {}

  lemma {:induction false} DecodeShift(a: string, s: string, i: nat, plus: bool)
    requires i <= |s|
    ensures UrlDecode(a + s, |a| + i, plus) == UrlDecode(s, i, plus)
    decreases |s| - i
  {
    hide UrlDecode, Escape;
    DecodeAt(s, i, plus);
    DecodeAt(a + s, |a| + i, plus);
    if i < |s| {
      EscapeShift(a, s, i);
      DecodeShift(a, s, i + 1, plus);
      if Escape(s, i) {
        EscapeFits(s, i);
        DecodeShift(a, s, i + 3, plus);
      }
    }
  }

  lemma EscapeFits(s: string, i: nat)
    requires Escape(s, i)
    ensures i + 2 < |s| && IsXDigit(s[i + 1]) && IsXDigit(s[i + 2])
  {}

  lemma DecodeEncodedChar(c: char, rest: string, plus: bool)
    requires c as int < 256
    ensures UrlDecode(EncodeChar(c, plus) + rest, 0, plus) == [c] + UrlDecode(rest, 0, plus)
  {
    hide UrlDecode;
    var e := EncodeChar(c, plus);
    DecodeShift(e, rest, 0, plus);
    if !Kept(c) && !(c == ' ' && plus) {
      EncodedIsEscape(c, rest, plus);
      DecodeFirst(e + rest, 3, plus);
    } else {
      KeptIsPlain(c, rest, plus);
      DecodeFirst(e + rest, 1, plus);
    }
  }

  /** What the first n characters decode to. */
  lemma DecodeFirst(s: string, n: nat, plus: bool)
    requires n == (if s != "" && Escape(s, 0) && !(s[0] == '+' && plus) then 3 else 1) <= |s|
    ensures UrlDecode(s, 0, plus) ==
            (if s[0] == '+' && plus then " " else if Escape(s, 0) then [(16 * XDigit(s[1]) + XDigit(s[2])) as char] else [s[0]])
            + UrlDecode(s, n, plus)
  {}

  lemma EncodedIsEscape(c: char, rest: string, plus: bool)
    requires c as int < 256 && !Kept(c) && !(c == ' ' && plus)
    ensures var s := EncodeChar(c, plus) + rest;
            |EncodeChar(c, plus)| == 3 && Escape(s, 0) && s[0] != '+' && (16 * XDigit(s[1]) + XDigit(s[2])) as char == c
  {
    var n := c as int;
    HexBack(n / 16);
    HexBack(n % 16);
    assert (EncodeChar(c, plus) + rest)[..3] == EncodeChar(c, plus);
  }

  lemma KeptIsPlain(c: char, rest: string, plus: bool)
    requires Kept(c) || (c == ' ' && plus)
    ensures var s := EncodeChar(c, plus) + rest;
            && |EncodeChar(c, plus)| == 1 && !Escape(s, 0)
            && (if s[0] == '+' && plus then ' ' else s[0]) == c
  {}

  lemma HexBack(n: nat)
    requires n < 16
    ensures IsXDigit(HexDigit(n)) && XDigit(HexDigit(n)) == n
  {}

  lemma NothingEncoded(plus: bool)
    ensures UrlEncode("", plus) == ""
  {}

  lemma EncodeSnoc(s: string, c: nat, plus: bool)
    requires Bytes(s) && c < |s|
    ensures UrlEncode(s[..c + 1], plus) == UrlEncode(s[..c], plus) + EncodeChar(s[c], plus)
    ensures s[..c + 1] == s[..c] + [s[c]]
  {
    assert s[..c + 1][..c] == s[..c];
  }

  lemma {:induction false} EncodeCons(s: string, plus: bool)
    requires Bytes(s) && s != ""
    ensures UrlEncode(s, plus) == EncodeChar(s[0], plus) + UrlEncode(s[1..], plus)
  {
    hide UrlEncode, EncodeChar;
    var n := |s| - 1;
    EncodeSnoc(s, n, plus);
    assert s[..n + 1] == s;
    if n == 0 {
      assert s[..0] == "" && s[1..] == "";
      NothingEncoded(plus);
    } else {
      EncodeCons(s[..n], plus);
      EncodeSnoc(s[1..], n - 1, plus);
      assert s[..n][1..] == s[1..][..n - 1] && s[1..][..n] == s[1..];
      Assoc(EncodeChar(s[0], plus), UrlEncode(s[1..][..n - 1], plus), EncodeChar(s[n], plus));
    }
  }

  /** Decoding what was encoded gives the bytes back, with either treatment of blanks. */
  lemma {:induction false} DecodeEncode(s: string, plus: bool)
    requires Bytes(s)
    ensures UrlDecode(UrlEncode(s, plus), 0, plus) == s
    decreases |s|
  {
    if s != "" {
      EncodeCons(s, plus);
      DecodeEncodedChar(s[0], UrlEncode(s[1..], plus), plus);
      DecodeEncode(s[1..], plus);
      assert s == [s[0]] + s[1..];
    }
  }

  /** Encoded text holds no ampersand, and no equals sign if the bytes have none. */
  lemma {:induction false} EncodedHasNo(s: string, plus: bool, c: char)
    requires Bytes(s) && (c == '&' || (c == '=' && '=' !in s))
    ensures c !in UrlEncode(s, plus)
  {
    if s != "" {
      EncodedHasNo(s[..|s| - 1], plus, c);
      var e := EncodeChar(s[|s| - 1], plus);
      assert c !in e by {
        forall n: nat | n < 16 ensures HexDigit(n) != c {}
      }
    }
  }

  lemma {:induction false} EncodeAppend(a: string, b: string, plus: bool)
    requires Bytes(a) && Bytes(b)
    ensures UrlEncode(a + b, plus) == UrlEncode(a, plus) + UrlEncode(b, plus)
    decreases |b|
  {
    hide UrlEncode, EncodeChar;
    var n := |b| - 1;
    if b == "" {
      assert a + b == a;
      NothingEncoded(plus);
    } else {
      EncodeAppend(a, b[..n], plus);
      EncodeSnoc(a + b, |a| + n, plus);
      EncodeSnoc(b, n, plus);
      assert (a + b)[..|a| + n] == a + b[..n] && (a + b)[..|a| + n + 1] == a + b && b[..n + 1] == b;
      Assoc(UrlEncode(a, plus), UrlEncode(b[..n], plus), EncodeChar(b[n], plus));
    }
  }

  // ---- the two functions as they run: the copy is made only when a byte changes ---------------

  method UrlEncodeLazily(str: string, plus: bool) returns (r: string)
    requires Bytes(str)
    ensures r == UrlEncode(str, plus)
  {
    hide UrlEncode, Kept, HexDigit;
    var ss: Option<string> := None;
    var c := 0;
    NothingEncoded(plus);
    while c < |str|
      invariant 0 <= c <= |str|
      invariant UrlEncode(str[..c], plus) == if ss.Some? then ss.value else str[..c]
    {
      EncodeSnoc(str, c, plus);
      if !Kept(str[c]) {
        if ss.None? {
          ss := Some(str[..c]);
        }
        if str[c] == ' ' && plus {
          ss := Some(ss.value + ['+']);
        } else {
          ss := Some(ss.value + ['%', HexDigit(str[c] as int / 16), HexDigit(str[c] as int % 16)]);
        }
      } else if ss.Some? {
        ss := Some(ss.value + [str[c]]);
      }
      c := c + 1;
    }
    assert str[..|str|] == str;
    r := if ss.Some? then ss.value else str;
  }

  /** One round of decoding, behind what was decoded before. */
  lemma DecodeStep(done: string, s: string, i: nat, plus: bool)
    requires i < |s|
    ensures done + UrlDecode(s, i, plus) ==
            if s[i] == '+' && plus then (done + [' ']) + UrlDecode(s, i + 1, plus)
            else if Escape(s, i) then (done + [(16 * XDigit(s[i + 1]) + XDigit(s[i + 2])) as char]) + UrlDecode(s, i + 3, plus)
            else (done + [s[i]]) + UrlDecode(s, i + 1, plus)
  {}

  method UrlDecodeLazily(str: string, plus: bool) returns (r: string)
    ensures r == UrlDecode(str, 0, plus)
  {
    hide UrlDecode, IsXDigit;
    var ss: Option<string> := None;
    var c := 0;
    while c < |str|
      invariant 0 <= c <= |str|
      invariant UrlDecode(str, 0, plus) == (if ss.Some? then ss.value else str[..c]) + UrlDecode(str, c, plus)
    {
      DecodeStep(if ss.Some? then ss.value else str[..c], str, c, plus);
      assert str[..c] + [str[c]] == str[..c + 1];
      if str[c] == '+' && plus {
        if ss.None? {
          ss := Some(str[..c]);
        }
        ss := Some(ss.value + [' ']);
      } else if str[c] == '%' && c + 2 < |str| && IsXDigit(str[c + 1]) && IsXDigit(str[c + 2]) {
        if ss.None? {
          ss := Some(str[..c]);
        }
        ss := Some(ss.value + [(16 * XDigit(str[c + 1]) + XDigit(str[c + 2])) as char]);
        c := c + 2;
      } else if ss.Some? {
        ss := Some(ss.value + [str[c]]);
      }
      c := c + 1;
    }
    assert str[..|str|] == str;
    DecodedAll(str, plus);
    r := if ss.Some? then ss.value else str;
  }

  lemma DecodedAll(s: string, plus: bool)
    ensures UrlDecode(s, |s|, plus) == ""
  {}

  // ---- the splitter --------------------------------------------------------------------------------

  /** std::string::find: the first place from i on, or the length. */
  function Find(s: string, c: char, i: nat): (k: nat)
    requires i <= |s|
    ensures i <= k <= |s| && (k < |s| ==> s[k] == c)
    decreases |s| - i
  {
    if i == |s| || s[i] == c then i else Find(s, c, i + 1)
  }

  lemma {:induction false} FindIsFirst(s: string, c: char, i: nat, k: nat)
    requires i <= k <= |s| && c !in s[i..k] && (k == |s| || s[k] == c)
    ensures Find(s, c, i) == k
    decreases |s| - i
  {
    if i < k {
      assert s[i] == s[i..k][0] && s[i + 1..k] == s[i..k][1..];
      FindIsFirst(s, c, i + 1, k);
    }
  }

  datatype Pair = Pair(key: string, value: string)

  /** The pair with its equals sign at key that ends before end. */
  function PairAt(s: string, pos: nat, key: nat, end: nat): Pair
    requires pos <= key < end <= |s|
  {
    Pair(UrlDecode(s[pos..key], 0, true), UrlDecode(s[key + 1..end], 0, true))
  }

  /** The pairs of PARSE_PARAM from position pos on, decoded. */
  function Pairs(s: string, pos: nat): seq<Pair>
    requires pos <= |s|
    decreases |s| - pos
  {
    var key := Find(s, '=', pos);
    if key == |s| then []
    else
      var end := Find(s, '&', key);
      var pair := PairAt(s, pos, key, end);
      if end == |s| then [pair] else [pair] + Pairs(s, end + 1)
  }

  /** strcasecmp, as the order of the parameter maps sees a key: up to a NUL, in lower case. */
  function Fold(s: string): string {
    if s == "" || s[0] == '\0' then "" else [if 'A' <= s[0] <= 'Z' then (s[0] as int + 32) as char else s[0]] + Fold(s[1..])
  }

  /** std::map::insert keeps what is there. A parameter is found by its folded key. */
  function Insert(m: map<string, Pair>, p: Pair): map<string, Pair> {
    if Fold(p.key) in m then m else m[Fold(p.key) := p]
  }

  function InsertAll(m: map<string, Pair>, pairs: seq<Pair>): map<string, Pair>
    decreases |pairs|
  {
    if pairs == [] then m else InsertAll(Insert(m, pairs[0]), pairs[1..])
  }

  lemma FindBehind(s: string, key: nat)
    requires key < |s| && s[key] == '='
    ensures key < Find(s, '&', key)
  {}

  lemma PairsAt(s: string, pos: nat, key: nat, end: nat)
    requires pos <= |s| && key == Find(s, '=', pos) && (key < |s| ==> end == Find(s, '&', key))
    ensures Pairs(s, pos) ==
            if key == |s| then []
            else
              var pair := PairAt(s, pos, key, end);
              if end == |s| then [pair] else [pair] + Pairs(s, end + 1)
  {
    hide UrlDecode, Find;
  }

  lemma InsertNone(m: map<string, Pair>)
    ensures InsertAll(m, []) == m
  {}

  method ParseParam(str: string, before: map<string, Pair>) returns (m: map<string, Pair>)
    ensures m == InsertAll(before, Pairs(str, 0))
  {
    hide UrlDecode, Find, Pairs, InsertAll, Insert;
    m := before;
    var pos := 0;
    while true
      invariant 0 <= pos <= |str|
      invariant InsertAll(m, Pairs(str, pos)) == InsertAll(before, Pairs(str, 0))
      decreases |str| - pos
    {
      var last := pos;
      pos := Find(str, '=', pos);
      if pos == |str| {
        PairsAt(str, last, pos, pos);
        InsertNone(m);
        break;
      }
      var key := pos;
      pos := Find(str, '&', pos);
      PairsAt(str, last, key, pos);
      var k := UrlDecodeLazily(str[last..key], true);
      var v := UrlDecodeLazily(str[key + 1..pos], true);
      InsertFirst(m, Pair(k, v), if pos == |str| then [] else Pairs(str, pos + 1));
      m := Insert(m, Pair(k, v));
      if pos == |str| {
        InsertNone(m);
        break;
      }
      pos := pos + 1;
    }
  }

  lemma InsertFirst(m: map<string, Pair>, p: Pair, rest: seq<Pair>)
    ensures InsertAll(m, [p] + rest) == InsertAll(Insert(m, p), rest)
    ensures [p] + [] == [p] && InsertAll(m, []) == m
  {
    assert ([p] + rest)[1..] == rest;
  }

  // ---- a form there and back -------------------------------------------------------------------------

  predicate BytePairs(pairs: seq<Pair>) { forall i | 0 <= i < |pairs| :: Bytes(pairs[i].key) && Bytes(pairs[i].value) }

  function Join(pairs: seq<Pair>): string
    requires BytePairs(pairs)
  {
    if pairs == [] then ""
    else
      var one := UrlEncode(pairs[0].key, true) + "=" + UrlEncode(pairs[0].value, true);
      if |pairs| == 1 then one else one + "&" + Join(pairs[1..])
  }

  /** What a pair comes back as: encoding leaves equals signs alone, so a key is cut at its first. */
  function Cut(p: Pair): Pair {
    var k := Find(p.key, '=', 0);
    if k == |p.key| then p else Pair(p.key[..k], p.key[k + 1..] + "=" + p.value)
  }

  function CutAll(pairs: seq<Pair>): seq<Pair> {
    if pairs == [] then [] else [Cut(pairs[0])] + CutAll(pairs[1..])
  }

  function One(p: Pair): string
    requires Bytes(p.key) && Bytes(p.value)
  {
    UrlEncode(p.key, true) + "=" + UrlEncode(p.value, true)
  }

  lemma {:induction false} NotBefore(s: string, c: char, i: nat)
    requires i <= |s|
    ensures c !in s[i..Find(s, c, i)]
    decreases |s| - i
  {
    if i < |s| && s[i] != c {
      NotBefore(s, c, i + 1);
      var k := Find(s, c, i);
      assert s[i..k] == [s[i]] + s[i + 1..k];
    }
  }

  /** A key cut at its equals sign encodes to the same text. */
  lemma CutIsSame(p: Pair)
    ensures Cut(p) == p <==> '=' !in p.key
  {
    hide Find;
    var k := Find(p.key, '=', 0);
    NotBefore(p.key, '=', 0);
    assert p.key[0..k] == p.key[..k];
    if k == |p.key| { assert p.key[..k] == p.key; }
  }

  lemma CutEncodesSame(p: Pair)
    requires Bytes(p.key) && Bytes(p.value)
    ensures Bytes(Cut(p).key) && Bytes(Cut(p).value) && '=' !in Cut(p).key && One(Cut(p)) == One(p)
  {
    hide UrlEncode, Find;
    var k := Find(p.key, '=', 0);
    NotBefore(p.key, '=', 0);
    assert p.key[0..k] == p.key[..k];
    if k < |p.key| {
      var a, b := p.key[..k], p.key[k + 1..];
      assert p.key == a + ("=" + b);
      EncodeAppend(a, "=" + b, true);
      EncodeAppend("=", b, true);
      EncodeAppend(b + "=", p.value, true);
      EncodeAppend(b, "=", true);
      EqualsIsKept();
      var ea, eb, ev := UrlEncode(a, true), UrlEncode(b, true), UrlEncode(p.value, true);
      assert b + "=" + p.value == (b + "=") + p.value;
      assert ea + "=" + (eb + "=" + ev) == (ea + ("=" + eb)) + "=" + ev;
    } else {
      assert p.key[..k] == p.key;
    }
  }

  lemma EqualsIsKept()
    ensures UrlEncode("=", true) == "="
  {
    assert "="[..0] == "";
    assert UrlEncode("", true) == "";
  }

  lemma {:induction false} FindShift(a: string, s: string, c: char, i: nat)
    requires i <= |s|
    ensures Find(a + s, c, |a| + i) == |a| + Find(s, c, i)
    decreases |s| - i
  {
    if i < |s| && s[i] != c { FindShift(a, s, c, i + 1); }
  }

  lemma PairShift(a: string, s: string, i: nat, key: nat, end: nat)
    requires i <= key < end <= |s|
    ensures PairAt(a + s, |a| + i, |a| + key, |a| + end) == PairAt(s, i, key, end)
  {
    hide UrlDecode;
    Seqs.BehindPrefix(a, s, i, key);
    Seqs.BehindPrefix(a, s, key + 1, end);
  }

  lemma {:induction false} PairsShift(a: string, s: string, i: nat)
    requires i <= |s|
    ensures Pairs(a + s, |a| + i) == Pairs(s, i)
    decreases |s| - i
  {
    hide PairAt, Find, Pairs;
    FindShift(a, s, '=', i);
    var key := Find(s, '=', i);
    if key < |s| {
      FindShift(a, s, '&', key);
      var end := Find(s, '&', key);
      FindBehind(s, key);
      PairsAt(s, i, key, end);
      PairsAt(a + s, |a| + i, |a| + key, |a| + end);
      PairShift(a, s, i, key, end);
      if end < |s| { PairsShift(a, s, end + 1); }
    } else {
      PairsAt(s, i, key, key);
      PairsAt(a + s, |a| + i, |a| + key, |a| + key);
    }
  }

  /** Where key and value are in one encoded pair. */
  lemma OneParts(p: Pair)
    requires Bytes(p.key) && Bytes(p.value) && '=' !in p.key
    ensures var k, v, one := UrlEncode(p.key, true), UrlEncode(p.value, true), One(p);
            && |one| == |k| + 1 + |v| && one[0..|k|] == k && one[|k|] == '=' && one[|k| + 1..|one|] == v
            && '=' !in k && '&' !in one[|k|..|one|]
  {
    hide UrlEncode;
    EncodedHasNo(p.key, true, '=');
    EncodedHasNo(p.value, true, '&');
    var k, v := UrlEncode(p.key, true), UrlEncode(p.value, true);
    Seqs.BehindPrefix(k + "=", v, 0, |v|);
    assert One(p)[|k|..|One(p)|] == "=" + v;
  }

  /** The splitter on a text that begins with an encoded pair. */
  lemma OneIsFirst(p: Pair, s: string)
    requires Bytes(p.key) && Bytes(p.value) && '=' !in p.key && One(p) <= s && (|s| == |One(p)| || s[|One(p)|] == '&')
    ensures Pairs(s, 0) == if |s| == |One(p)| then [p] else [p] + Pairs(s, |One(p)| + 1)
  {
    hide UrlEncode, UrlDecode, Find, Pairs, One;
    var k, one, n := UrlEncode(p.key, true), One(p), |One(p)|;
    OneParts(p);
    DecodeEncode(p.key, true);
    DecodeEncode(p.value, true);
    assert s[0..n] == one[0..n];
    Seqs.SamePart(s, one, 0, n, 0, |k|);
    Seqs.SamePart(s, one, 0, n, |k| + 1, n);
    Seqs.SamePart(s, one, 0, n, |k|, n);
    assert s[|k|] == s[|k|..n][0];
    FindIsFirst(s, '=', 0, |k|);
    FindIsFirst(s, '&', |k|, n);
    PairsAt(s, 0, |k|, n);
  }

  /** The splitter on one encoded pair, and on one followed by others. */
  lemma FirstPair(p: Pair, rest: string)
    requires Bytes(p.key) && Bytes(p.value) && '=' !in p.key
    ensures Pairs(One(p), 0) == [p]
    ensures Pairs(One(p) + "&" + rest, 0) == [p] + Pairs(rest, 0)
  {
    hide Pairs, One;
    OneIsFirst(p, One(p));
    OneIsFirst(p, One(p) + "&" + rest);
    PairsShift(One(p) + "&", rest, 0);
  }

  lemma {:induction false} CutAllIsSame(pairs: seq<Pair>)
    ensures CutAll(pairs) == pairs <==> forall i | 0 <= i < |pairs| :: '=' !in pairs[i].key
  {
    if pairs != [] {
      hide Cut;
      var p, rest := pairs[0], pairs[1..];
      CutIsSame(p);
      CutAllIsSame(rest);
      assert pairs == [p] + rest;
      assert CutAll(pairs) == pairs <==> Cut(p) == p && CutAll(rest) == rest;
    }
  }

  /** Splitting what was joined gives every pair back, cut at the first equals sign of its key:
      the list itself exactly if no key has one. */
  lemma {:induction false} FormRoundTrip(pairs: seq<Pair>)
    requires BytePairs(pairs)
    ensures Pairs(Join(pairs), 0) == CutAll(pairs)
    ensures CutAll(pairs) == pairs <==> forall i | 0 <= i < |pairs| :: '=' !in pairs[i].key
    decreases |pairs|
  {
    hide UrlEncode, UrlDecode, Find, Cut, Pairs;
    CutAllIsSame(pairs);
    if pairs == [] {
      NoPairs();
    } else {
      var p, rest := pairs[0], pairs[1..];
      assert BytePairs(rest);
      FormRoundTrip(rest);
      CutEncodesSame(p);
      FirstPair(Cut(p), Join(rest));
      assert pairs == [p] + rest;
      if |pairs| == 1 { assert rest == [] && CutAll(rest) == []; }
    }
  }

  lemma NoPairs()
    ensures Pairs("", 0) == []
  {}

  predicate DistinctKeys(pairs: seq<Pair>) {
    forall i, j | 0 <= i < j < |pairs| :: Fold(pairs[i].key) != Fold(pairs[j].key)
  }

  lemma {:induction false} AllInserted(m: map<string, Pair>, pairs: seq<Pair>)
    requires DistinctKeys(pairs) && forall i | 0 <= i < |pairs| :: Fold(pairs[i].key) !in m
    ensures var r := InsertAll(m, pairs);
            && (forall i | 0 <= i < |pairs| :: Fold(pairs[i].key) in r && r[Fold(pairs[i].key)] == pairs[i])
            && (forall k | k in m :: k in r && r[k] == m[k])
            && (forall k | k in r :: k in m || exists i :: 0 <= i < |pairs| && k == Fold(pairs[i].key))
    decreases |pairs|
  {
    hide Fold;
    if pairs != [] {
      var rest := pairs[1..];
      AllInserted(Insert(m, pairs[0]), rest);
      var r := InsertAll(m, pairs);
      hide InsertAll;
      forall i | 0 <= i < |pairs| ensures Fold(pairs[i].key) in r && r[Fold(pairs[i].key)] == pairs[i] {
        if i > 0 {
          assert rest[i - 1] == pairs[i];
          assert Fold(rest[i - 1].key) in r && r[Fold(rest[i - 1].key)] == rest[i - 1];
        } else {
          var one := Insert(m, pairs[0]);
          assert Fold(pairs[0].key) in one && one[Fold(pairs[0].key)] == pairs[0];
        }
      }
      forall k | k in r ensures k in m || exists i :: 0 <= i < |pairs| && k == Fold(pairs[i].key) {
        if k !in m && k != Fold(pairs[0].key) {
          var i :| 0 <= i < |rest| && k == Fold(rest[i].key);
          assert pairs[i + 1] == rest[i];
        }
      }
    }
  }

  /** A form whose keys have no equals sign and differ ignoring case comes back as the same map. */
  lemma FormComesBack(pairs: seq<Pair>)
    requires BytePairs(pairs) && DistinctKeys(pairs) && forall i | 0 <= i < |pairs| :: '=' !in pairs[i].key
    ensures var r := InsertAll(map[], Pairs(Join(pairs), 0));
            && (forall i | 0 <= i < |pairs| :: Fold(pairs[i].key) in r && r[Fold(pairs[i].key)] == pairs[i])
            && (forall k | k in r :: exists i :: 0 <= i < |pairs| && k == Fold(pairs[i].key))
  {
    hide Pairs, Join, InsertAll;
    FormRoundTrip(pairs);
    AllInserted(map[], pairs);
  }

  /** A key with an equals sign does not come back. */
  lemma EqualsInKeyIsLost()
    ensures Pairs(Join([Pair("a=b", "c")]), 0) == [Pair("a", "b=c")]
  {
    hide UrlEncode, UrlDecode, Pairs, Join, Find;
    var p := Pair("a=b", "c");
    FormRoundTrip([p]);
    assert p.key[0..1] == "a";
    FindIsFirst(p.key, '=', 0, 1);
    assert p.key[..1] == "a" && p.key[2..] == "b" && "b" + "=" + "c" == "b=c";
    assert [p][0] == p && [p][1..] == [] && [Cut(p)] + [] == [Cut(p)];
  }
}
