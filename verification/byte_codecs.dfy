/** The typed records of a ByteArray: fixed-length integers in either byte order, varints,
    zigzag, float bit patterns and strings. */
module ByteCodecs {
  import opened BytesTypes
  import opened ByteArrays

  // ---- fixed-length integers --------------------------------------------------------------

  function Pow256(w: nat): (p: nat)
    ensures 0 < p && (0 < w ==> 2 <= p && p % 2 == 0)
  {
    if w == 0 then 1 else 256 * Pow256(w - 1)
  }

  /** The w low bytes of n, least significant first. */
  function LittleBytes(n: nat, w: nat): (s: seq<byte>)
    ensures |s| == w
  {
    if w == 0 then [] else [n % 256] + LittleBytes(n / 256, w - 1)
  }

  function FromLittle(s: seq<byte>): (n: nat)
    ensures n < Pow256(|s|)
  {
    if s == [] then 0 else s[0] + 256 * FromLittle(s[1..])
  }

  function Reverse(s: seq<byte>): (r: seq<byte>)
    ensures |r| == |s|
  {
    seq(|s|, i requires 0 <= i < |s| => s[|s| - 1 - i])
  }

  /** n as the machine holds it in memory. */
  function Memory(order: Order, n: nat, w: nat): (s: seq<byte>)
    ensures |s| == w
  {
    if order == Little then LittleBytes(n, w) else Reverse(LittleBytes(n, w))
  }

  function FromMemory(order: Order, s: seq<byte>): (n: nat)
    ensures n < Pow256(|s|)
  {
    FromLittle(if order == Little then s else Reverse(s))
  }

  /** byteswap: the number whose bytes are those of n backwards. */
  function Swap(n: nat, w: nat): nat { FromLittle(Reverse(LittleBytes(n, w))) }

  /** What the writers of fixed-length integers put into the array. */
  function Wire(order: Order, host: Order, n: nat, w: nat): (s: seq<byte>)
    ensures |s| == w
  {
    Memory(host, if order != host then Swap(n, w) else n, w)
  }

  /** What the readers make of it. */
  function FromWire(order: Order, host: Order, s: seq<byte>): nat {
    var v := FromMemory(host, s);
    if order == host then v else Swap(v, |s|)
  }

  lemma {:induction false} LittleOfFrom(s: seq<byte>)
    ensures LittleBytes(FromLittle(s), |s|) == s
  {
    if s != [] {
      LittleOfFrom(s[1..]);
      var n := FromLittle(s);
      assert n % 256 == s[0] && n / 256 == FromLittle(s[1..]);
      assert [s[0]] + s[1..] == s;
    }
  }

  /** Reading back w bytes gives the number, or what is left of it above w bytes. */
  lemma {:induction false} FromOfLittle(n: nat, w: nat)
    ensures FromLittle(LittleBytes(n, w)) == n % Pow256(w)
    ensures n < Pow256(w) ==> FromLittle(LittleBytes(n, w)) == n
  {
    if w > 0 {
      FromOfLittle(n / 256, w - 1);
      assert LittleBytes(n, w)[1..] == LittleBytes(n / 256, w - 1);
      ModStep(n, Pow256(w - 1));
    }
  }

  lemma ModStep(n: nat, m: nat)
    requires 0 < m
    ensures n % (256 * m) == n % 256 + 256 * ((n / 256) % m)
  {
    var q, r := (n / 256) / m, (n / 256) % m;
    assert n / 256 == q * m + r;
    assert n == 256 * (q * m + r) + n % 256;
    var low := n % 256 + 256 * r;
    assert n == q * (256 * m) + low && low < 256 * m;
    DivModUnique(n, 256 * m, q, low);
  }

  lemma DivModUnique(n: nat, m: nat, q: nat, r: nat)
    requires n == q * m + r && r < m
    ensures n % m == r
  {
    PlaceIs(q, m, r);
    PlaceOf(q, m, r);
  }

  lemma ReverseTwice(s: seq<byte>)
    ensures Reverse(Reverse(s)) == s
  {}

  /** The bytes in the array depend on the chosen order only, not on the machine. */
  lemma WireIsOrder(order: Order, host: Order, n: nat, w: nat)
    ensures Wire(order, host, n, w) == Memory(order, n, w)
  {
    if order != host {
      var s := LittleBytes(n, w);
      LittleOfFrom(Reverse(s));
      ReverseTwice(s);
    }
  }

  lemma FromWireIsOrder(order: Order, host: Order, s: seq<byte>)
    ensures FromWire(order, host, s) == FromMemory(order, s)
  {
    if order != host {
      LittleOfFrom(s);
      LittleOfFrom(Reverse(s));
      ReverseTwice(s);
    }
  }

  lemma FixedRoundTrip(order: Order, n: nat, w: nat)
    ensures FromMemory(order, Memory(order, n, w)) == n % Pow256(w)
    ensures n < Pow256(w) ==> FromMemory(order, Memory(order, n, w)) == n
  {
    FromOfLittle(n, w);
    ReverseTwice(LittleBytes(n, w));
  }

  // ---- two's complement and zigzag ---------------------------------------------------------

  function Modulus(w: nat): nat { Pow256(w) }

  predicate SignedFits(v: int, w: nat) { -(Modulus(w) / 2) <= v < Modulus(w) / 2 }

  function Bits(v: int, w: nat): nat
    requires SignedFits(v, w) || 0 <= v < Modulus(w)
  {
    if v < 0 then v + Modulus(w) else v
  }

  function FromBits(n: nat, w: nat): int
    requires n < Modulus(w)
  {
    if n < Modulus(w) / 2 then n else n - Modulus(w)
  }

  lemma BitsRoundTrip(v: int, w: nat)
    requires SignedFits(v, w)
    ensures Bits(v, w) < Modulus(w) && (w > 0 ==> FromBits(Bits(v, w), w) == v)
  {
    if w > 0 { assert Modulus(w) == 256 * Pow256(w - 1); }
  }

  /** EncodeZigzag: -v and the doubling wrap around. */
  function Zigzag(v: int, w: nat): nat
    requires 0 < w && SignedFits(v, w)
  {
    if v < 0 then (-v * 2 - 1) % Modulus(w) else v * 2
  }

  /** DecodeZigzag: half of n, its bits inverted if n is odd, read as a signed number. */
  function Unzigzag(n: nat, w: nat): int
    requires 0 < w && n < Modulus(w)
  {
    FromBits(if n % 2 == 1 then Modulus(w) - 1 - n / 2 else n / 2, w)
  }

  lemma SmallMod(x: nat, m: nat)
    requires x < m
    ensures x % m == x
  {}

  lemma ZigzagCases(v: int, w: nat)
    requires 0 < w && SignedFits(v, w)
    ensures Zigzag(v, w) == (if v < 0 then -v * 2 - 1 else v * 2) < Modulus(w)
  {
    hide Pow256;
    if v < 0 { SmallMod(-v * 2 - 1, Modulus(w)); }
  }

  lemma ZigzagRoundTrip(v: int, w: nat)
    requires 0 < w && SignedFits(v, w)
    ensures Zigzag(v, w) < Modulus(w) && Unzigzag(Zigzag(v, w), w) == v
  {
    hide Pow256, Zigzag;
    ZigzagCases(v, w);
  }

  lemma UnzigzagRoundTrip(n: nat, w: nat)
    requires 0 < w && n < Modulus(w)
    ensures SignedFits(Unzigzag(n, w), w) && Zigzag(Unzigzag(n, w), w) == n
  {
    hide Pow256, Zigzag;
    ZigzagCases(Unzigzag(n, w), w);
  }

  /** Small magnitudes get small codes: that is what zigzag is for. */
  lemma ZigzagIsSmall(v: int, w: nat)
    requires 0 < w && SignedFits(v, w)
    ensures Zigzag(v, w) <= 2 * (if v < 0 then -v else v)
  {
    hide Pow256, Zigzag;
    ZigzagCases(v, w);
  }

  // ---- varints --------------------------------------------------------------------------------

  function Varint(n: nat): seq<byte> {
    if n < 128 then [n] else [n % 128 + 128] + Varint(n / 128)
  }

  function Pow2(i: nat): (p: nat)
    ensures 0 < p
  {
    if i == 0 then 1 else 2 * Pow2(i - 1)
  }

  lemma Pow2Ahead(i: nat)
    ensures Pow2(i + 7) == 128 * Pow2(i) && Pow2(i + 8) == 256 * Pow2(i)
  {
    assert Pow2(i + 1) == 2 * Pow2(i) && Pow2(i + 2) == 2 * Pow2(i + 1) && Pow2(i + 3) == 2 * Pow2(i + 2);
    assert Pow2(i + 4) == 2 * Pow2(i + 3) && Pow2(i + 5) == 2 * Pow2(i + 4) && Pow2(i + 6) == 2 * Pow2(i + 5);
    assert Pow2(i + 7) == 2 * Pow2(i + 6) && Pow2(i + 8) == 2 * Pow2(i + 7);
  }

  function Pow128(k: nat): nat { if k == 0 then 1 else 128 * Pow128(k - 1) }

  /** One to k bytes for a number of at most 7k bits. */
  lemma {:induction false} VarintLength(n: nat, k: nat)
    requires 0 < k && n < Pow128(k)
    ensures 1 <= |Varint(n)| <= k
  {
    if n >= 128 { VarintLength(n / 128, k - 1); }
  }

  lemma Varint32Length(n: nat)
    requires n < 0x1_0000_0000
    ensures 1 <= |Varint(n)| <= 5
  {
    assert Pow128(5) == 128 * 128 * 128 * 128 * 128 by {
      assert Pow128(3) == 128 * 128 * 128;
    }
    VarintLength(n, 5);
  }

  lemma Varint64Length(n: nat)
    requires n < 0x1_0000_0000_0000_0000
    ensures 1 <= |Varint(n)| <= 10
  {
    assert Pow128(3) == 128 * 128 * 128;
    assert Pow128(6) == Pow128(3) * Pow128(3);
    assert Pow128(10) == Pow128(6) * 128 * 128 * 128 * 128;
    VarintLength(n, 10);
  }

  // ---- records --------------------------------------------------------------------------------

  datatype Prefix = F16 | F32 | F64 | Vint

  /** What a record is; w counts bytes. A float is the bit pattern that memcpy moves. */
  datatype Kind = FixedOf(w: nat, signed: bool) | VarOf(w: nat, signed: bool) | FloatOf(w: nat) | StrOf(prefix: Prefix)
  datatype Item =
    | Fixed(w: nat, signed: bool, v: int) | Var(w: nat, signed: bool, v: int) | Float(w: nat, pattern: nat)
    | Str(prefix: Prefix, bytes: seq<byte>)

  function KindOf(item: Item): Kind {
    match item
    case Fixed(w, signed, _) => FixedOf(w, signed)
    case Var(w, signed, _) => VarOf(w, signed)
    case Float(w, _) => FloatOf(w)
    case Str(prefix, _) => StrOf(prefix)
  }

  predicate InRange(v: int, w: nat, signed: bool) { if signed then SignedFits(v, w) else 0 <= v < Pow256(w) }

  /** What the C types of the writers allow; strings may be of any length. */
  predicate Writable(item: Item) {
    match item
    case Fixed(w, signed, v) => (w == 1 || w == 2 || w == 4 || w == 8) && InRange(v, w, signed)
    case Var(w, signed, v) => (w == 4 || w == 8) && InRange(v, w, signed)
    case Float(w, pattern) => (w == 4 || w == 8) && pattern < Pow256(w)
    case Str(_, bytes) => |bytes| < Pow256(8)
  }

  function PrefixWidth(p: Prefix): nat
    requires p != Vint
  {
    match p case F16 => 2 case F32 => 4 case F64 => 8
  }

  /** A string's length must fit its prefix. */
  predicate Fits(item: Item) {
    Writable(item) && (item.Str? && item.prefix != Vint ==> |item.bytes| < Pow256(PrefixWidth(item.prefix)))
  }

  function EncodeLength(p: Prefix, n: nat, order: Order): seq<byte> {
    if p == Vint then Varint(n) else Memory(order, n, PrefixWidth(p))
  }

  function Encode(item: Item, order: Order): seq<byte>
    requires Writable(item)
  {
    match item
    case Fixed(w, _, v) => Memory(order, Bits(v, w), w)
    case Var(w, signed, v) => Varint(if signed then Zigzag(v, w) else v)
    case Float(w, pattern) => Memory(order, pattern, w)
    case Str(p, bytes) => EncodeLength(p, |bytes|, order) + bytes
  }

  // ---- reading, as functions of what the reader sees ------------------------------------------

  /** The result and the position it leaves, also after an exception. */
  datatype Read<+T> = Read(got: Got<T>, position: nat)

  function Failed<T, U>(r: Got<T>): Got<U>
    requires !r.Ok?
  {
    if r.OutOfRange? then OutOfRange else NullDeref
  }

  predicate Sound(v: View) { v.position <= |v.bytes| <= v.capacity }

  function ReadBytes(v: View, n: nat): (r: Read<seq<byte>>)
    requires Sound(v)
    ensures v.position <= r.position <= |v.bytes| && (r.got.Ok? ==> |r.got.value| == n)
  {
    var got := ReadOf(v, n);
    Read(got, if got.Ok? then v.position + n else v.position)
  }

  function ReadFixed(v: View, w: nat, order: Order): (r: Read<nat>)
    requires Sound(v)
    ensures v.position <= r.position <= |v.bytes| && (r.got.Ok? ==> r.got.value < Pow256(w))
  {
    match ReadBytes(v, w)
    case Read(Ok(s), p) => Read(Ok(FromMemory(order, s)), p)
    case Read(bad, p) => Read(Failed(bad), p)
  }

  /** The loop of readUint32 and readUint64, of w bytes: the bits are shifted by i and what does
      not fit is lost; or-ing them in is adding, for they are zero so far. */
  function ReadVarFrom(v: View, w: nat, i: nat, result: nat): (r: Read<nat>)
    requires Sound(v) && result < Pow256(w)
    ensures v.position <= r.position <= |v.bytes| && (r.got.Ok? ==> r.got.value < Pow256(w))
    decreases 8 * w - i
  {
    if i >= 8 * w then Read(Ok(result), v.position)
    else match ReadBytes(v, 1)
      case Read(Ok(s), p) =>
        var next := (result + (s[0] % 128) * Pow2(i)) % Pow256(w);
        if s[0] < 128 then Read(Ok(next), p) else ReadVarFrom(v.(position := p), w, i + 7, next)
      case Read(bad, p) => Read(Failed(bad), p)
  }

  function ReadLength(v: View, p: Prefix, order: Order): (r: Read<nat>)
    requires Sound(v)
    ensures v.position <= r.position <= |v.bytes|
  {
    if p == Vint then ReadVarFrom(v, 8, 0, 0) else ReadFixed(v, PrefixWidth(p), order)
  }

  function ReadStr(v: View, p: Prefix, order: Order): (r: Read<seq<byte>>)
    requires Sound(v)
    ensures v.position <= r.position <= |v.bytes|
  {
    match ReadLength(v, p, order)
    case Read(Ok(n), q) => ReadBytes(v.(position := q), n)
    case Read(bad, q) => Read(Failed(bad), q)
  }

  predicate IsKind(k: Kind) {
    match k
    case FixedOf(w, _) => w == 1 || w == 2 || w == 4 || w == 8
    case VarOf(w, _) => w == 4 || w == 8
    case FloatOf(w) => w == 4 || w == 8
    case StrOf(_) => true
  }

  function Record(k: Kind, n: nat): Item
    requires IsKind(k) && !k.StrOf? && n < Pow256(k.w)
  {
    match k
    case FixedOf(w, signed) => Fixed(w, signed, if signed then FromBits(n, w) else n)
    case VarOf(w, signed) => Var(w, signed, if signed then Unzigzag(n, w) else n)
    case FloatOf(w) => Float(w, n)
  }

  function ReadItem(v: View, k: Kind, order: Order): (r: Read<Item>)
    requires Sound(v) && IsKind(k)
    ensures v.position <= r.position <= |v.bytes|
  {
    match k
    case FixedOf(w, _) => Recorded(k, ReadFixed(v, w, order))
    case VarOf(w, _) => Recorded(k, ReadVarFrom(v, w, 0, 0))
    case FloatOf(w) => Recorded(k, ReadFixed(v, w, order))
    case StrOf(p) =>
      match ReadStr(v, p, order)
      case Read(Ok(s), q) => Read(Ok(Str(p, s)), q)
      case Read(bad, q) => Read(Failed(bad), q)
  }

  function Recorded(k: Kind, r: Read<nat>): Read<Item>
    requires IsKind(k) && !k.StrOf? && (r.got.Ok? ==> r.got.value < Pow256(k.w))
  {
    match r
    case Read(Ok(n), q) => Read(Ok(Record(k, n)), q)
    case Read(bad, q) => Read(Failed(bad), q)
  }

  // ---- one record there and back ------------------------------------------------------------------

  /** s is what comes next. */
  predicate Next(v: View, s: seq<byte>) {
    Sound(v) && v.position + |s| <= |v.bytes| && v.bytes[v.position..v.position + |s|] == s
  }

  lemma NextSplits(v: View, a: seq<byte>, b: seq<byte>)
    requires Next(v, a + b)
    ensures Next(v, a) && Next(v.(position := v.position + |a|), b)
  {
    var s := v.bytes[v.position..v.position + |a + b|];
    assert s[..|a|] == a && s[|a|..] == b;
    assert v.bytes[v.position..v.position + |a|] == s[..|a|];
    assert v.bytes[v.position + |a|..v.position + |a| + |b|] == s[|a|..];
  }

  /** Reading what comes next. */
  lemma ReadNext(v: View, s: seq<byte>)
    requires Next(v, s)
    ensures ReadBytes(v, |s|) ==
            if s == [] && v.position == v.capacity then Read(NullDeref, v.position) else Read(Ok(s), v.position + |s|)
  {}

  lemma FixedBack(v: View, n: nat, w: nat, order: Order)
    requires 0 < w && Next(v, Memory(order, n, w))
    ensures ReadFixed(v, w, order) == Read(Ok(n % Pow256(w)), v.position + w)
    ensures n < Pow256(w) ==> ReadFixed(v, w, order).got == Ok(n)
  {
    ReadNext(v, Memory(order, n, w));
    FixedRoundTrip(order, n, w);
  }

  lemma VarStep(v: View, w: nat, i: nat, result: nat, b: byte)
    requires Next(v, [b]) && i < 8 * w && result + (b % 128) * Pow2(i) < Pow256(w)
    ensures var next := result + (b % 128) * Pow2(i);
            ReadVarFrom(v, w, i, result) ==
              if b < 128 then Read(Ok(next), v.position + 1) else ReadVarFrom(v.(position := v.position + 1), w, i + 7, next)
  {
    hide ReadBytes, Pow2, Pow256;
    ReadNext(v, [b]);
    SmallMod(result + (b % 128) * Pow2(i), Pow256(w));
  }

  lemma {:induction false} VarintBack(v: View, n: nat, w: nat, i: nat, result: nat, m: nat)
    requires Next(v, Varint(m)) && result + m * Pow2(i) == n < Pow256(w) && (i == 0 || m > 0) && 0 < w
    ensures ReadVarFrom(v, w, i, result) == Read(Ok(n), v.position + |Varint(m)|)
    decreases m
  {
    hide ReadVarFrom, Pow2, Pow256, Next;
    ShiftFits(i, w, m, n);
    if m < 128 {
      VarStep(v, w, i, result, m);
    } else {
      var b: byte := m % 128 + 128;
      SevenBits(i, m);
      NextSplits(v, [b], Varint(m / 128));
      VarStep(v, w, i, result, b);
      VarintBack(v.(position := v.position + 1), n, w, i + 7, result + (m % 128) * Pow2(i), m / 128);
    }
  }

  /** The low seven bits of m and the rest, seven places up. */
  lemma SevenBits(i: nat, m: nat)
    ensures (m % 128) * Pow2(i) + (m / 128) * Pow2(i + 7) == m * Pow2(i)
  {
    hide Pow2;
    var p := Pow2(i);
    Pow2Ahead(i);
    assert (m / 128) * (128 * p) == 128 * (m / 128) * p;
    assert m == m % 128 + 128 * (m / 128);
    assert (m % 128 + 128 * (m / 128)) * p == (m % 128) * p + 128 * (m / 128) * p;
  }

  lemma AtLeastOnce(m: nat, p: nat)
    requires 0 < m
    ensures p <= m * p
  {}

  /** As long as there are bits left the loop is not over. */
  lemma ShiftFits(i: nat, w: nat, m: nat, n: nat)
    requires m * Pow2(i) <= n < Pow256(w) && (i == 0 || m > 0) && 0 < w
    ensures i < 8 * w
  {
    hide Pow2, Pow256;
    PowersAgree(w);
    if 0 < m { AtLeastOnce(m, Pow2(i)); }
    if 8 * w <= i { Pow2Grows(8 * w, i); }
  }

  lemma {:induction false} PowersAgree(w: nat)
    ensures Pow2(8 * w) == Pow256(w)
  {
    if w > 0 {
      PowersAgree(w - 1);
      Pow2Ahead(8 * w - 8);
    }
  }

  lemma {:induction false} Pow2Grows(i: nat, j: nat)
    requires i <= j
    ensures Pow2(i) <= Pow2(j)
  {
    if i < j { Pow2Grows(i, j - 1); }
  }

  lemma LengthBack(v: View, p: Prefix, n: nat, order: Order)
    requires n < Pow256(8) && Next(v, EncodeLength(p, n, order))
    ensures ReadLength(v, p, order) ==
            Read(Ok(if p == Vint then n else n % Pow256(PrefixWidth(p))), v.position + |EncodeLength(p, n, order)|)
  {
    hide ReadVarFrom, ReadFixed, Pow2, Pow256, Varint, Memory, Next;
    if p == Vint {
      assert n * Pow2(0) == n by { PowerOfNone(); }
      VarintBack(v, n, 8, 0, 0, n);
    } else {
      FixedBack(v, n, PrefixWidth(p), order);
    }
  }

  lemma PowerOfNone()
    ensures Pow2(0) == 1
  {}

  /** The length a string comes back with. */
  function Kept(p: Prefix, n: nat): nat { if p == Vint then n else n % Pow256(PrefixWidth(p)) }

  /** A string of any length comes back cut to what its prefix can say: whole exactly if it
      fits. The one string that cannot be read is the empty one at the end of the capacity. */
  lemma StrBack(v: View, p: Prefix, bytes: seq<byte>, order: Order)
    requires |bytes| < Pow256(8) && Next(v, EncodeLength(p, |bytes|, order) + bytes)
    ensures var n := Kept(p, |bytes|);
            var q := v.position + |EncodeLength(p, |bytes|, order)|;
            && n <= |bytes|
            && ReadItem(v, StrOf(p), order) ==
                 (if n == 0 && q == v.capacity then Read(NullDeref, q) else Read(Ok(Str(p, bytes[..n])), q + n))
            && (n == |bytes| <==> p == Vint || |bytes| < Pow256(PrefixWidth(p)))
  {
    hide ReadLength, ReadBytes, EncodeLength, Pow256, Next;
    var n := Kept(p, |bytes|);
    var len := EncodeLength(p, |bytes|, order);
    NextSplits(v, len, bytes);
    LengthBack(v, p, |bytes|, order);
    if p != Vint { ModKeeps(|bytes|, Pow256(PrefixWidth(p))); }
    var u := v.(position := v.position + |len|);
    assert bytes[..n] + bytes[n..] == bytes;
    NextSplits(u, bytes[..n], bytes[n..]);
    ReadNext(u, bytes[..n]);
  }

  lemma ModKeeps(n: nat, m: nat)
    requires 0 < m
    ensures n % m <= n && (n % m == n <==> n < m)
  {
    if n < m { SmallMod(n, m); }
  }

  /** What a read of the record leads to: it is there again, or the cursor was null. */
  function Back<T>(item: T, stuck: bool, end: nat): Read<T> { Read(if stuck then NullDeref else Ok(item), end) }

  /** The empty string whose prefix fills the capacity. */
  predicate Stuck(item: Item, end: nat, capacity: nat) { item.Str? && item.bytes == [] && end == capacity }

  lemma ItemBack(v: View, item: Item, order: Order)
    requires Fits(item) && Next(v, Encode(item, order))
    ensures var end := v.position + |Encode(item, order)|;
            ReadItem(v, KindOf(item), order) == Back(item, Stuck(item, end, v.capacity), end)
  {
    hide ReadVarFrom, ReadFixed, ReadStr, Pow2, Pow256, Varint, Memory, Next, EncodeLength;
    match item
    case Fixed(w, signed, n) =>
      if signed { BitsRoundTrip(n, w); }
      FixedBack(v, Bits(n, w), w, order);
    case Var(w, signed, n) =>
      hide Zigzag, Unzigzag;
      if signed { ZigzagRoundTrip(n, w); }
      var m := if signed then Zigzag(n, w) else n;
      assert m * Pow2(0) == m by { PowerOfNone(); }
      VarintBack(v, m, w, 0, 0, m);
    case Float(w, pattern) =>
      FixedBack(v, pattern, w, order);
    case Str(p, bytes) =>
      StrBack(v, p, bytes, order);
      assert bytes[..|bytes|] == bytes;
  }

  // ---- lists of records ----------------------------------------------------------------------------

  predicate AllFit(items: seq<Item>) { forall i | 0 <= i < |items| :: Fits(items[i]) }

  predicate AllKinds(kinds: seq<Kind>) { forall i | 0 <= i < |kinds| :: IsKind(kinds[i]) }

  function EncodeAll(items: seq<Item>, order: Order): seq<byte>
    requires AllFit(items)
  {
    if items == [] then [] else Encode(items[0], order) + EncodeAll(items[1..], order)
  }

  function Kinds(items: seq<Item>): (kinds: seq<Kind>)
    requires AllFit(items)
    ensures AllKinds(kinds) && |kinds| == |items|
  {
    if items == [] then [] else [KindOf(items[0])] + Kinds(items[1..])
  }

  function ReadAll(v: View, kinds: seq<Kind>, order: Order): (r: Read<seq<Item>>)
    requires Sound(v) && AllKinds(kinds)
    decreases |kinds|
  {
    if kinds == [] then Read(Ok([]), v.position)
    else match ReadItem(v, kinds[0], order)
      case Read(Ok(item), q) => (
        match ReadAll(v.(position := q), kinds[1..], order)
        case Read(Ok(rest), end) => Read(Ok([item] + rest), end)
        case Read(bad, end) => Read(bad, end)
      )
      case Read(bad, q) => Read(Failed(bad), q)
  }

  lemma EncodeIsNotEmpty(item: Item, order: Order)
    requires Fits(item)
    ensures 0 < |Encode(item, order)|
  {}

  /** Only the last record of all can end at the capacity. */
  predicate LastStuck(items: seq<Item>, end: nat, capacity: nat) {
    items != [] && Stuck(items[|items| - 1], end, capacity)
  }

  lemma {:induction false} AllBack(v: View, items: seq<Item>, order: Order)
    requires AllFit(items) && Next(v, EncodeAll(items, order))
    ensures var end := v.position + |EncodeAll(items, order)|;
            ReadAll(v, Kinds(items), order) == Back(items, LastStuck(items, end, v.capacity), end)
    decreases |items|
  {
    hide ReadItem, Encode, Next;
    if items == [] {
    } else {
      var item, rest := items[0], items[1..];
      var s, t := Encode(item, order), EncodeAll(rest, order);
      NextSplits(v, s, t);
      ItemBack(v, item, order);
      var u := v.(position := v.position + |s|);
      NextIsThere(u, t);
      AllBack(u, rest, order);
      assert Kinds(items)[0] == KindOf(item) && Kinds(items)[1..] == Kinds(rest);
      assert [item] + rest == items;
      if rest != [] {
        EncodeIsNotEmpty(rest[0], order);
        assert rest[|rest| - 1] == items[|items| - 1];
      }
    }
  }

  lemma NextIsThere(v: View, s: seq<byte>)
    requires Next(v, s)
    ensures Sound(v) && v.position + |s| <= |v.bytes| <= v.capacity
  {}
}
