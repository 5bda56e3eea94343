/** The record readers and writers of a ByteArray as they run on it, and the socket stream that
    fills and drains it in place. */
module ByteStreams {
  import opened BytesTypes
  import opened ByteArrays
  import Codec = ByteCodecs
  import Seqs

  // ---- what writing does to the whole array ----------------------------------------------

  datatype Snap = Snap(flat: seq<byte>, position: nat, size: nat)

  ghost function Snapshot(ba: ByteArray): Snap
    reads ba
  {
    Snap(ba.flat, ba.position, ba.size)
  }

  ghost predicate Wrote(a: Snap, chunk: seq<byte>, b: Snap, base: nat) {
    && 0 < base && a.position <= |a.flat|
    && Written(a.flat, a.position, chunk, b.flat) && |b.flat| == Grown(|a.flat|, a.position, |chunk|, base)
    && b.position == a.position + |chunk| && b.size == if b.position > a.size then b.position else a.size
  }

  /** Growing twice is growing once. */
  lemma GrownTwice(c: nat, p: nat, n: nat, m: nat, base: nat)
    requires 0 < base && p <= c
    ensures p + n <= Grown(c, p, n, base)
    ensures Grown(Grown(c, p, n, base), p + n, m, base) == Grown(c, p, n + m, base)
  {
    hide Place, Grown;
    GrownIsEnough(c, p, n, base);
    var g := Grown(c, p, n, base);
    var x := GrownIsLeast(c, p, n, base);
    var y := GrownIsLeast(g, p + n, m, base);
    var z := GrownIsLeast(c, p, n + m, base);
    PlacesAdd(x, y, base);
    assert p + n + m <= c + Place(z, base, 0) && p + n + m <= c + Place(x + y, base, 0);
    PlacesAdd(x, z - x, base);
  }

  lemma {:induction false} PlacesAdd(j: nat, k: nat, base: nat)
    ensures Place(j + k, base, 0) == Place(j, base, 0) + Place(k, base, 0)
  {
    if j > 0 { PlacesAdd(j - 1, k, base); }
  }

  lemma WroteNothing(a: Snap, base: nat)
    requires 0 < base && a.position <= a.size && a.position <= |a.flat|
    ensures Wrote(a, [], a, base)
  {
    WrittenNothing(a.flat, a.position);
  }

  /** Two writes in a row are one write of both. */
  lemma WroteTwice(a: Snap, x: seq<byte>, b: Snap, y: seq<byte>, c: Snap, base: nat)
    requires Wrote(a, x, b, base) && Wrote(b, y, c, base)
    ensures Wrote(a, x + y, c, base)
  {
    hide Grown;
    GrownTwice(|a.flat|, a.position, |x|, |y|, base);
    WrittenTwice(a.flat, a.position, x, b.flat, y, c.flat);
  }

  lemma WrittenTwice(f: seq<byte>, p: nat, x: seq<byte>, g: seq<byte>, y: seq<byte>, h: seq<byte>)
    requires Written(f, p, x, g) && Written(g, p + |x|, y, h)
    ensures Written(f, p, x + y, h)
  {
    var m, n := p + |x|, p + |x| + |y|;
    assert p + |x + y| == n;
    Seqs.SamePart(h, g, 0, m, 0, p);
    Seqs.SamePart(h, g, 0, m, p, m);
    Seqs.Joined(h, p, m, n);
    if n <= |f| {
      Seqs.SamePart(h, g, n, |g|, n, |f|);
      Seqs.SamePart(g, f, m, |f|, n, |f|);
    }
  }

  // ---- writers ---------------------------------------------------------------------------------

  method WriteBytes(ba: ByteArray, chunk: seq<byte>)
    requires ba.Valid()
    modifies ba.Repr
    ensures ba.Valid() && fresh(ba.Repr - old(ba.Repr)) && ba.order == old(ba.order)
    ensures Wrote(old(Snapshot(ba)), chunk, Snapshot(ba), ba.base)
  {
    ba.RootIsFirst();
    ba.CapacityIsLength();
    ba.Write(chunk);
    ba.CapacityIsLength();
  }

  /** writeFint8 to writeFuint64 and the float writers, on the bits of the value. */
  method WriteFixed(ba: ByteArray, n: nat, w: nat)
    requires ba.Valid()
    modifies ba.Repr
    ensures ba.Valid() && fresh(ba.Repr - old(ba.Repr)) && ba.order == old(ba.order)
    ensures Wrote(old(Snapshot(ba)), Codec.Memory(ba.order, n, w), Snapshot(ba), ba.base)
  {
    hide Codec.Swap, Codec.Memory, Wrote;
    var value := n;
    if ba.order != ba.host {
      value := Codec.Swap(value, w);
    }
    Codec.WireIsOrder(ba.order, ba.host, n, w);
    WriteBytes(ba, Codec.Memory(ba.host, value, w));
  }

  lemma VarintGroup(n: nat)
    ensures Codec.Varint(n) == if n >= 0x80 then [n % 128 + 128] + Codec.Varint(n / 128) else [n]
    ensures 0 < |Codec.Varint(n)| && 0 < |Codec.Varint(n / 128)|
  {}

  /** The groups of seven bits are collected in a small array, which has room for them all. */
  method Groups(n: nat, w: nat) returns (tmp: array<byte>, i: nat)
    requires (w == 4 || w == 8) && n < Codec.Pow256(w)
    ensures i <= tmp.Length && tmp[..i] == Codec.Varint(n)
  {
    hide Codec.Pow256, Codec.Varint;
    tmp := new byte[if w == 4 then 5 else 10];
    VarintFitsBuffer(n, w);
    ghost var all := Codec.Varint(n);
    var value := n;
    i := 0;
    while value >= 0x80
      invariant i < |all| <= tmp.Length && all[i..] == Codec.Varint(value) && tmp[..i] == all[..i]
      decreases value
    {
      VarintGroup(value);
      assert all[i] == all[i..][0] && all[i + 1..] == all[i..][1..];
      tmp[i] := value % 128 + 128;
      i := i + 1;
      value := value / 128;
    }
    VarintGroup(value);
    assert all[i] == all[i..][0] && |all[i..]| == 1;
    tmp[i] := value;
    i := i + 1;
  }

  /** writeUint32 and writeUint64. */
  method WriteUint(ba: ByteArray, n: nat, w: nat)
    requires ba.Valid() && (w == 4 || w == 8) && n < Codec.Pow256(w)
    modifies ba.Repr
    ensures ba.Valid() && fresh(ba.Repr - old(ba.Repr)) && ba.order == old(ba.order)
    ensures Wrote(old(Snapshot(ba)), Codec.Varint(n), Snapshot(ba), ba.base)
  {
    hide Wrote, Codec.Varint, Codec.Pow256;
    var tmp, i := Groups(n, w);
    WriteBytes(ba, tmp[..i]);
  }

  lemma VarintFitsBuffer(n: nat, w: nat)
    requires (w == 4 || w == 8) && n < Codec.Pow256(w)
    ensures 1 <= |Codec.Varint(n)| <= if w == 4 then 5 else 10
  {
    hide Codec.Varint;
    if w == 4 { Pow256Of4(); Codec.Varint32Length(n); } else { Pow256Of8(); Codec.Varint64Length(n); }
  }

  lemma Pow256Of4()
    ensures Codec.Pow256(4) == 0x1_0000_0000
  {
    assert Codec.Pow256(2) == 65536;
  }

  lemma Pow256Of8()
    ensures Codec.Pow256(8) == 0x1_0000_0000_0000_0000
  {
    Pow256Of4();
    assert Codec.Pow256(6) == 65536 * Codec.Pow256(4);
  }

  method WriteStr(ba: ByteArray, p: Codec.Prefix, bytes: seq<byte>)
    requires ba.Valid() && |bytes| < Codec.Pow256(8)
    modifies ba.Repr
    ensures ba.Valid() && fresh(ba.Repr - old(ba.Repr)) && ba.order == old(ba.order)
    ensures Wrote(old(Snapshot(ba)), Codec.EncodeLength(p, |bytes|, ba.order) + bytes, Snapshot(ba), ba.base)
  {
    hide Wrote, Codec.Memory, Codec.Varint, Codec.Pow256;
    if p == Codec.Vint {
      WriteUint(ba, |bytes|, 8);
    } else {
      WriteFixed(ba, |bytes|, Codec.PrefixWidth(p));
    }
    ghost var mid := Snapshot(ba);
    WriteBytes(ba, bytes);
    WroteTwice(old(Snapshot(ba)), Codec.EncodeLength(p, |bytes|, ba.order), mid, bytes, Snapshot(ba), ba.base);
  }

  method WriteItem(ba: ByteArray, item: Codec.Item)
    requires ba.Valid() && Codec.Writable(item)
    modifies ba.Repr
    ensures ba.Valid() && fresh(ba.Repr - old(ba.Repr)) && ba.order == old(ba.order)
    ensures Wrote(old(Snapshot(ba)), Codec.Encode(item, ba.order), Snapshot(ba), ba.base)
  {
    hide Wrote, Codec.Memory, Codec.Varint, Codec.EncodeLength, Codec.Pow256;
    match item
    case Fixed(w, _, v) =>
      WriteFixed(ba, Codec.Bits(v, w), w);
    case Var(w, signed, v) =>
      if signed { Codec.ZigzagRoundTrip(v, w); }
      WriteUint(ba, if signed then Codec.Zigzag(v, w) else v, w);
    case Float(w, pattern) =>
      WriteFixed(ba, pattern, w);
    case Str(p, bytes) =>
      WriteStr(ba, p, bytes);
  }

  // ---- readers ---------------------------------------------------------------------------------

  method ReadBytes(ba: ByteArray, n: nat) returns (r: Got<seq<byte>>)
    requires ba.Valid()
    modifies ba`position, ba`cur
    ensures ba.Valid() && Codec.Sound(old(ba.Seen())) && ba.Seen() == old(ba.Seen()).(position := ba.position)
    ensures Codec.Read(r, ba.position) == Codec.ReadBytes(old(ba.Seen()), n)
  {
    ba.CapacityIsLength();
    r := ba.Read(n);
  }

  method ReadFixed(ba: ByteArray, w: nat) returns (r: Got<nat>)
    requires ba.Valid()
    modifies ba`position, ba`cur
    ensures ba.Valid() && Codec.Sound(old(ba.Seen())) && ba.Seen() == old(ba.Seen()).(position := ba.position)
    ensures Codec.Read(r, ba.position) == Codec.ReadFixed(old(ba.Seen()), w, ba.order)
  {
    hide Codec.ReadBytes, Codec.FromMemory, Codec.Swap;
    var got := ReadBytes(ba, w);
    if got.Ok? {
      var v := Codec.FromMemory(ba.host, got.value);
      Codec.FromWireIsOrder(ba.order, ba.host, got.value);
      r := Ok(if ba.order == ba.host then v else Codec.Swap(v, w));
    } else {
      r := Codec.Failed(got);
    }
  }

  /** readUint32 and readUint64. */
  method ReadUint(ba: ByteArray, w: nat) returns (r: Got<nat>)
    requires ba.Valid()
    modifies ba`position, ba`cur
    ensures ba.Valid() && Codec.Sound(old(ba.Seen())) && ba.Seen() == old(ba.Seen()).(position := ba.position)
    ensures Codec.Read(r, ba.position) == Codec.ReadVarFrom(old(ba.Seen()), w, 0, 0)
  {
    hide ByteArray.Valid, ByteArray.Seen, Codec.ReadBytes;
    SeenIsSound(ba);
    var result: nat := 0;
    var i: nat := 0;
    while i < 8 * w
      invariant ba.Valid() && Codec.Sound(ba.Seen()) && ba.Seen() == old(ba.Seen()).(position := ba.position)
      invariant result < Codec.Pow256(w)
      invariant Codec.ReadVarFrom(ba.Seen(), w, i, result) == Codec.ReadVarFrom(old(ba.Seen()), w, 0, 0)
    {
      var got := ReadBytes(ba, 1);
      SeenIsSound(ba);
      if !got.Ok? {
        return Codec.Failed(got);
      }
      var b := got.value[0];
      result := (result + (b % 128) * Codec.Pow2(i)) % Codec.Pow256(w);
      if b < 0x80 {
        return Ok(result);
      }
      i := i + 7;
    }
    r := Ok(result);
  }

  lemma SeenIsSound(ba: ByteArray)
    requires ba.Valid()
    ensures Codec.Sound(ba.Seen()) && ba.Seen().position == ba.position
  {
    ba.CapacityIsLength();
  }

  method ReadStr(ba: ByteArray, p: Codec.Prefix) returns (r: Got<seq<byte>>)
    requires ba.Valid()
    modifies ba`position, ba`cur
    ensures ba.Valid() && Codec.Sound(old(ba.Seen())) && ba.Seen() == old(ba.Seen()).(position := ba.position)
    ensures Codec.Read(r, ba.position) == Codec.ReadStr(old(ba.Seen()), p, ba.order)
  {
    hide ByteArray.Valid, ByteArray.Seen, Codec.ReadBytes, Codec.ReadVarFrom, Codec.ReadFixed;
    var len;
    if p == Codec.Vint {
      len := ReadUint(ba, 8);
    } else {
      len := ReadFixed(ba, Codec.PrefixWidth(p));
    }
    if !len.Ok? {
      return Codec.Failed(len);
    }
    r := ReadBytes(ba, len.value);
  }

  method ReadItem(ba: ByteArray, k: Codec.Kind) returns (r: Got<Codec.Item>)
    requires ba.Valid() && Codec.IsKind(k)
    modifies ba`position, ba`cur
    ensures ba.Valid() && Codec.Sound(old(ba.Seen())) && ba.Seen() == old(ba.Seen()).(position := ba.position)
    ensures Codec.Read(r, ba.position) == Codec.ReadItem(old(ba.Seen()), k, ba.order)
  {
    hide ByteArray.Valid, ByteArray.Seen, Codec.ReadStr, Codec.ReadVarFrom, Codec.ReadFixed, Codec.Record;
    match k
    case FixedOf(w, _) =>
      var n := ReadFixed(ba, w);
      r := if n.Ok? then Ok(Codec.Record(k, n.value)) else Codec.Failed(n);
    case VarOf(w, _) =>
      var n := ReadUint(ba, w);
      r := if n.Ok? then Ok(Codec.Record(k, n.value)) else Codec.Failed(n);
    case FloatOf(w) =>
      var n := ReadFixed(ba, w);
      r := if n.Ok? then Ok(Codec.Record(k, n.value)) else Codec.Failed(n);
    case StrOf(p) =>
      var s := ReadStr(ba, p);
      r := if s.Ok? then Ok(Codec.Str(p, s.value)) else Codec.Failed(s);
  }

  // ---- a whole list there and back ---------------------------------------------------------------

  method WriteAll(ba: ByteArray, items: seq<Codec.Item>)
    requires ba.Valid() && Codec.AllFit(items)
    modifies ba.Repr
    ensures ba.Valid() && fresh(ba.Repr - old(ba.Repr)) && ba.order == old(ba.order)
    ensures Wrote(old(Snapshot(ba)), Codec.EncodeAll(items, ba.order), Snapshot(ba), ba.base)
    decreases |items|
  {
    hide Wrote, Codec.Encode, ByteArray.Valid;
    SnapshotIsSound(ba);
    if items == [] {
      WroteNothing(Snapshot(ba), ba.base);
    } else {
      WriteItem(ba, items[0]);
      ghost var mid := Snapshot(ba);
      WriteAll(ba, items[1..]);
      WroteTwice(old(Snapshot(ba)), Codec.Encode(items[0], ba.order), mid, Codec.EncodeAll(items[1..], ba.order),
                 Snapshot(ba), ba.base);
    }
  }

  lemma SnapshotIsSound(ba: ByteArray)
    requires ba.Valid()
    ensures 0 < ba.base && ba.position <= ba.size <= ba.capacity == |ba.flat| && ba in ba.Repr
  {
    ba.RootIsFirst();
    ba.CapacityIsLength();
  }

  method ReadAll(ba: ByteArray, kinds: seq<Codec.Kind>) returns (r: Got<seq<Codec.Item>>)
    requires ba.Valid() && Codec.AllKinds(kinds)
    modifies ba`position, ba`cur
    ensures ba.Valid() && Codec.Sound(old(ba.Seen())) && ba.Seen() == old(ba.Seen()).(position := ba.position)
    ensures Codec.Read(r, ba.position) == Codec.ReadAll(old(ba.Seen()), kinds, ba.order)
    decreases |kinds|
  {
    hide ByteArray.Valid, ByteArray.Seen, Codec.ReadItem;
    SeenIsSound(ba);
    if kinds == [] {
      return Ok([]);
    }
    var item := ReadItem(ba, kinds[0]);
    if !item.Ok? {
      return Codec.Failed(item);
    }
    var rest := ReadAll(ba, kinds[1..]);
    r := if rest.Ok? then Ok([item.value] + rest.value) else rest;
  }

  /** Records written, the position put back to the start, and records read: whatever the block
      size, the byte orders and what was in the array before, the same list comes back and
      exactly its bytes are consumed, unless the last record is an empty string that ends at
      the capacity. */
  method RoundTrip(ba: ByteArray, items: seq<Codec.Item>) returns (r: Got<seq<Codec.Item>>)
    requires ba.Valid() && Codec.AllFit(items)
    modifies ba.Repr
    ensures ba.Valid() && fresh(ba.Repr - old(ba.Repr))
    ensures ba.position == old(ba.position) + |Codec.EncodeAll(items, ba.order)|
    ensures ba.capacity == Grown(old(ba.capacity), old(ba.position), |Codec.EncodeAll(items, ba.order)|, ba.base)
    ensures r == if Codec.LastStuck(items, ba.position, ba.capacity) then NullDeref else Ok(items)
  {
    hide ByteArray.Valid, ByteArray.Seen, Codec.ReadAll, Codec.LastStuck, Codec.EncodeAll, Codec.AllFit, Grown;
    hide Wrote, Written, Codec.Next, Codec.AllKinds;
    SnapshotIsSound(ba);
    var start := ba.position;
    WriteAll(ba, items);
    SnapshotIsSound(ba);
    ghost var s := Codec.EncodeAll(items, ba.order);
    WroteIsThere(old(Snapshot(ba)), s, Snapshot(ba), ba.base);
    var ok := ba.SetPosition(start);
    SeenAt(ba, start, s);
    Codec.AllBack(ba.Seen(), items, ba.order);
    r := ReadAll(ba, Codec.Kinds(items));
  }

  lemma WroteIsThere(a: Snap, s: seq<byte>, b: Snap, base: nat)
    requires Wrote(a, s, b, base)
    ensures b.position == a.position + |s| <= b.size && b.position <= |b.flat| == Grown(|a.flat|, a.position, |s|, base)
    ensures b.flat[a.position..b.position] == s
  {}

  lemma SeenAt(ba: ByteArray, start: nat, s: seq<byte>)
    requires ba.Valid() && ba.position == start && start + |s| <= ba.size && ba.flat[start..start + |s|] == s
    ensures Codec.Next(ba.Seen(), s) && ba.Seen().position == start && ba.Seen().capacity == ba.capacity
  {
    ba.CapacityIsLength();
    assert ba.flat[..ba.size][start..start + |s|] == ba.flat[start..start + |s|];
  }

  // ---- the socket stream ----------------------------------------------------------------------------

  /** SocketStream::read: recv puts what it received into the write buffers, and the position
      moves behind it. rt is what recv returned: an error, the end, or a number of bytes. */
  method ReceiveInto(ba: ByteArray, length: nat, rt: int, received: seq<byte>)
    requires ba.Valid() && |received| == (if rt > 0 then rt else 0) && |received| <= length
    modifies ba.Repr
    ensures ba.Valid() && fresh(ba.Repr - old(ba.Repr)) && ba.order == old(ba.order)
    ensures Written(old(ba.flat), old(ba.position), received, ba.flat)
    ensures ba.position == old(ba.position) + |received|
    ensures ba.size == if ba.position > old(ba.size) then ba.position else old(ba.size)
    ensures ba.capacity == Grown(old(ba.capacity), old(ba.position), length, ba.base)
  {
    hide ByteArray.SlicesAt, Grown, ByteArray.Chain, ByteArray.NodeAt;
    SnapshotIsSound(ba);
    ghost var p := ba.position;
    var iovs := ba.GetWriteBuffers([], length);
    SnapshotIsSound(ba);
    if length > 0 {
      assert [] + ba.SlicesAt(p, length) == ba.SlicesAt(p, length);
      ghost var grown := ba.flat;
      ba.Scatter(iovs, p, length, received);
      OverwriteWrites(old(ba.flat), grown, p, received);
    } else {
      OverwriteNothing(ba.flat, p);
      OverwriteWrites(old(ba.flat), ba.flat, p, received);
    }
    if rt > 0 {
      var _ := ba.SetPosition(ba.position + rt);
    }
  }

  /** What the stream reads in place is what one write of the same bytes leaves: the same bytes
      below the size, the same position and the same size; only the capacity can be larger. */
  lemma ReceivingIsWriting(f: seq<byte>, p: nat, chunk: seq<byte>, g: seq<byte>, h: seq<byte>, before: nat, after: nat)
    requires Written(f, p, chunk, g) && Written(f, p, chunk, h)
    requires p <= before <= |f| && after == if p + |chunk| > before then p + |chunk| else before
    ensures after <= |g| && after <= |h| && g[..after] == h[..after]
  {
    var q := p + |chunk|;
    Seqs.Joined(g, 0, p, q);
    Seqs.Joined(h, 0, p, q);
    if q < before {
      Seqs.SamePart(g, h, q, |f|, q, before);
      Seqs.Joined(g, 0, q, before);
      Seqs.Joined(h, 0, q, before);
    }
  }

  /** SocketStream::write: send takes the first rt bytes of the read buffers. */
  method SendFrom(ba: ByteArray, length: nat, rt: int) returns (iovs: seq<Slice>, ghost sent: seq<byte>)
    requires ba.Valid() && rt <= length && rt <= ba.size - ba.position
    modifies ba`position, ba`cur, ba`size
    ensures ba.Valid() && ba.size == old(ba.size)
    ensures ba.position == old(ba.position) + (if rt > 0 then rt else 0)
    ensures sent == ba.flat[old(ba.position)..ba.position]
    ensures (forall s | s in iovs :: s.from + s.len <= s.data.Length) && sent <= Gather(iovs)
  {
    hide ByteArray.Slices, ByteArray.SlicesAt, ByteArray.Chain, ByteArray.NodeAt, Gather, Place;
    SnapshotIsSound(ba);
    ghost var p := ba.position;
    var n;
    iovs, n := ba.GetReadBuffers([], length);
    GatherNothing();
    assert [] + (if n == 0 then [] else ba.SlicesAt(p, n)) == if n == 0 then [] else ba.SlicesAt(p, n);
    if n > 0 { GatherAt(ba, p, n); }
    var m := if rt > 0 then rt else 0;
    sent := ba.flat[p..p + m];
    assert ba.flat[p..p + n][..m] == sent;
    if rt > 0 {
      var _ := ba.SetPosition(ba.position + rt);
    }
  }

  /** The read buffers hold, one after the other, exactly the next bytes. */
  lemma GatherAt(ba: ByteArray, p: nat, n: nat)
    requires ba.Chain() && 0 < n && p + n <= ba.capacity
    ensures 0 < ba.base && (forall s | s in ba.SlicesAt(p, n) :: s.from + s.len <= s.data.Length)
    ensures ba.capacity == |ba.flat| && Gather(ba.SlicesAt(p, n)) == ba.flat[p..p + n]
  {
    hide ByteArray.Chain, ByteArray.NodeAt, ByteArray.Slices, Place, Gather, BlockNo, Offset;
    ba.RootIsFirst();
    ba.CapacityIsLength();
    ba.BlockOfPosition(p);
    ba.GatherIsFlat(BlockNo(p, ba.base), Offset(p, ba.base), n);
  }
}
