/** Chunked bodies by section 3.6.1 of RFC 2616, where sizes have hexadecimal digits and nothing else,
    and how far the parser goes with it. */
module HttpStrictChunks {
  import opened HttpTypes
  import opened HttpMachine
  import opened HttpFraming
  import opened HttpCallbacks

  // ---- sizes by the standard ------------------------------------------------------------------

  predicate AllHex(s: string) { forall i | 0 <= i < |s| :: IsHex(s[i]) }

  function HexOf(c: char): nat
    requires IsHex(c)
  {
    if c <= '9' then c as int - '0' as int else if c <= 'F' then c as int - 'A' as int + 10 else c as int - 'a' as int + 10
  }

  function SizeOf(s: string): nat
    requires AllHex(s)
  {
    if s == "" then 0 else SizeOf(s[..|s| - 1]) * 16 + HexOf(s[|s| - 1])
  }

  /** The number without its last digit is within the parser's limit. */
  predicate SizeInRange(s: string)
    requires AllHex(s)
  {
    s == "" || SizeOf(s[..|s| - 1]) <= HEX_LIMIT
  }

  function NumHex(s: string): (n: nat)
    ensures n <= |s| && AllHex(s[..n]) && (n < |s| ==> !IsHex(s[n]))
  {
    if s == "" || !IsHex(s[0]) then 0
    else
      var n := NumHex(s[1..]);
      assert s[..n + 1] == [s[0]] + s[1..][..n];
      n + 1
  }

  /** chunk-size [ chunk-extension ] CRLF. */
  function StrictLine(s: string): SizeLine {
    var nd := NumHex(s);
    if !SizeInRange(s[..nd]) then Broken
    else if nd == |s| then Short
    else if nd == 0 || !(s[nd] == CR || s[nd] == ';' || s[nd] == ' ') then Broken
    else
      var e := FindCR(s, nd);
      if e + 1 >= |s| then Short
      else if s[e + 1] != LF then Broken
      else Sized(SizeOf(s[..nd]), e + 2)
  }

  function StrictLimited(s: string, limit: nat): SizeLine {
    if |s| <= limit then StrictLine(s)
    else match StrictLine(s[..limit]) case Short => Broken case line => line
  }

  function StrictChunks(s: string, limit: nat): Decoded
    decreases |s|
  {
    match StrictLimited(s, limit)
    case Short => Decoded.Open("")
    case Broken => Malformed
    case Sized(n, k) =>
      if k == 0 || k > |s| then Malformed
      else if n == 0 then Ended("", k)
      else Behind("", k, StrictChunkData(s[k..], n, limit))
  }

  function StrictChunkData(s: string, n: nat, limit: nat): Decoded
    decreases |s|
  {
    if |s| <= n then Decoded.Open(s)
    else if s[n] != CR then Malformed
    else if |s| == n + 1 then Decoded.Open(s[..n])
    else if s[n + 1] != LF then Malformed
    else Behind(s[..n], n + 2, StrictChunks(s[n + 2..], limit))
  }

  // ---- what the parser takes besides --------------------------------------------------------------

  /** No byte from 0x80 on stands behind the hexadecimal digits of a size line. */
  predicate PlainLine(s: string) { NumHex(s) < |s| ==> s[NumHex(s)] as int < 128 }

  /** Nor of any size line of the body. */
  predicate PlainChunks(s: string, limit: nat)
    decreases |s|
  {
    PlainLine(if |s| <= limit then s else s[..limit])
    && match StrictLimited(s, limit)
       case Sized(n, k) => 0 < n && 0 < k <= |s| ==> PlainData(s[k..], n, limit)
       case _ => true
  }

  predicate PlainData(s: string, n: nat, limit: nat)
    decreases |s|
  {
    n + 1 < |s| && s[n] == CR && s[n + 1] == LF ==> PlainChunks(s[n + 2..], limit)
  }

  lemma {:induction false} HexIsDigits(s: string)
    requires AllHex(s)
    ensures AllSizeDigits(s) && HexValue(s) == SizeOf(s) && HexFits(s) == SizeInRange(s)
  {
    if s != "" { HexIsDigits(s[..|s| - 1]); }
  }

  lemma {:induction false} SameDigits(s: string)
    requires PlainLine(s)
    ensures NumDigits(s) == NumHex(s)
  {
    if s != "" && IsHex(s[0]) {
      assert NumHex(s[1..]) < |s| - 1 ==> s[1..][NumHex(s[1..])] == s[NumHex(s)];
      SameDigits(s[1..]);
    }
  }

  lemma LineAgrees(s: string)
    ensures StrictLine(s) == if PlainLine(s) then ReadSizeLine(s) else Broken
  {
    HexIsDigits(s[..NumHex(s)]);
    if PlainLine(s) { SameDigits(s); }
  }

  /** The parser's decoder is the standard's on exactly the bodies without such a byte; all others
      are malformed by the standard. */
  lemma {:induction false} StrictIsPlain(s: string, limit: nat)
    ensures StrictChunks(s, limit) == if PlainChunks(s, limit) then DecodeChunks(s, limit) else Malformed
    decreases |s|
  {
    hide StrictLine, ReadSizeLine, PlainLine, StrictChunkData, DecodeChunkData, PlainData;
    LineAgrees(if |s| <= limit then s else s[..limit]);
    match StrictLimited(s, limit)
    case Sized(n, k) =>
      if 0 < n && 0 < k <= |s| { DataIsPlain(s[k..], n, limit); }
    case _ =>
  }

  lemma {:induction false} DataIsPlain(s: string, n: nat, limit: nat)
    ensures StrictChunkData(s, n, limit) == if PlainData(s, n, limit) then DecodeChunkData(s, n, limit) else Malformed
    decreases |s|
  {
    hide StrictChunks, DecodeChunks, PlainChunks;
    if n + 1 < |s| && s[n] == CR && s[n + 1] == LF { StrictIsPlain(s[n + 2..], limit); }
  }

  /** So the parser delivers what the standard says on every body without a byte from 0x80 on behind
      the digits of a size; and it refuses no body that is in order. */
  lemma ParserByTheStandard(p: Parser, s: string)
    requires p.state == ChunkSizeStart && p.flags.chunked && p.nread == 0
    ensures PlainChunks(s, p.limit) ==> Agrees(p, s, StrictChunks(s, p.limit))
    ensures !StrictChunks(s, p.limit).Malformed? ==> Agrees(p, s, StrictChunks(s, p.limit))
  {
    hide Agrees, DecodeChunks, StrictChunks, PlainChunks;
    ChunkedBodyIsExact(p, s);
    StrictIsPlain(s, p.limit);
  }
}
