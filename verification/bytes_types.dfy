/** Bytes, places in a chain of equal blocks, and sequences that are partly overwritten. */
module BytesTypes {
  type byte = x: int | 0 <= x < 256

  datatype Order = Little | Big

  // ---- places in a chain of blocks --------------------------------------------------------

  /** Byte i of block k, counted from the start of the chain: k * base + i. */
  function Place(k: nat, base: nat, i: nat): nat {
    if k == 0 then i else base + Place(k - 1, base, i)
  }

  function BlockNo(p: nat, base: nat): nat
    requires 0 < base
  {
    p / base
  }

  function Offset(p: nat, base: nat): nat
    requires 0 < base
  {
    p % base
  }

  lemma {:induction false} PlaceIs(k: nat, base: nat, i: nat)
    ensures Place(k, base, i) == k * base + i
  {
    if k > 0 {
      PlaceIs(k - 1, base, i);
      assert k * base == (k - 1) * base + base;
    }
  }

  lemma {:induction false} PlaceShift(k: nat, base: nat, i: nat, n: nat)
    ensures Place(k, base, i + n) == Place(k, base, i) + n
  {
    if k > 0 { PlaceShift(k - 1, base, i, n); }
  }

  lemma {:induction false} PlaceOrder(j: nat, k: nat, base: nat)
    requires j <= k
    ensures Place(j, base, 0) <= Place(k, base, 0)
    ensures j < k ==> Place(j, base, base) <= Place(k, base, 0)
  {
    if j < k {
      PlaceOrder(j, k - 1, base);
      PlaceShift(j, base, 0, base);
      if j == k - 1 { PlaceShift(j, base, 0, base); PlaceNext(j, base); }
    }
  }

  lemma {:induction false} PlaceNext(k: nat, base: nat)
    ensures Place(k, base, base) == Place(k + 1, base, 0)
  {
    PlaceShift(k, base, 0, base);
  }

  lemma PlaceGrows(k: nat, base: nat)
    ensures Place(k + 1, base, 0) == Place(k, base, 0) + base
  {}

  lemma PlaceOfNone(base: nat)
    ensures Place(0, base, 0) == 0
  {}

  lemma PlaceInChain(k: nat, base: nat, i: nat, blocks: nat)
    requires k < blocks && i < base
    ensures Place(k, base, i) < Place(blocks, base, 0)
  {
    PlaceOrder(k, blocks, base);
    PlaceShift(k, base, 0, i);
    PlaceShift(k, base, 0, base);
  }

  lemma PlaceBelow(j: nat, k: nat, base: nat)
    requires Place(j, base, 0) < Place(k, base, 0)
    ensures j < k
  {
    if k <= j { PlaceOrder(k, j, base); }
  }

  /** Different blocks do not overlap; within one block places are counted from its start. */
  lemma PlacesApart(j: nat, k: nat, base: nat, i: nat, from: nat, len: nat)
    requires i < base && from + len <= base
    ensures Place(k, base, from) <= Place(j, base, i) < Place(k, base, from) + len <==> j == k && from <= i < from + len
    ensures j == k ==> Place(j, base, i) - Place(k, base, from) == i - from
  {
    hide Place;
    PlaceShift(j, base, 0, i);
    PlaceShift(k, base, 0, from);
    PlaceShift(j, base, 0, base);
    PlaceShift(k, base, 0, base);
    if j < k { PlaceOrder(j, k, base); }
    if k < j { PlaceOrder(k, j, base); }
  }

  /** Dividing finds the place of a position. */
  lemma BlockOf(p: nat, base: nat)
    requires 0 < base
    ensures p == Place(BlockNo(p, base), base, Offset(p, base)) && Offset(p, base) < base
  {
    PlaceIs(p / base, base, p % base);
  }

  /** There is only one. */
  lemma PlaceOf(k: nat, base: nat, i: nat)
    requires i < base
    ensures BlockNo(Place(k, base, i), base) == k && Offset(Place(k, base, i), base) == i
  {
    var p := Place(k, base, i);
    BlockOf(p, base);
    hide Place, BlockNo, Offset;
    var q := BlockNo(p, base);
    PlacesApart(k, q, base, i, 0, base);
    PlacesApart(q, q, base, Offset(p, base), 0, base);
    PlacesApart(k, q, base, i, Offset(p, base), 0);
  }

  // ---- overwriting --------------------------------------------------------------------------

  function Overwrite<T>(s: seq<T>, at: nat, chunk: seq<T>): seq<T>
    requires at + |chunk| <= |s|
  {
    s[..at] + chunk + s[at + |chunk|..]
  }

  lemma OverwriteLength<T>(s: seq<T>, at: nat, chunk: seq<T>)
    requires at + |chunk| <= |s|
    ensures |Overwrite(s, at, chunk)| == |s|
  {}

  lemma OverwriteAt<T>(s: seq<T>, at: nat, chunk: seq<T>, x: nat)
    requires at + |chunk| <= |s| && x < |s|
    ensures |Overwrite(s, at, chunk)| == |s| && Overwrite(s, at, chunk)[x] == if at <= x < at + |chunk| then chunk[x - at] else s[x]
  {}

  lemma OverwriteTwice<T>(s: seq<T>, at: nat, a: seq<T>, b: seq<T>)
    requires at + |a| + |b| <= |s|
    ensures Overwrite(Overwrite(s, at, a), at + |a|, b) == Overwrite(s, at, a + b)
  {
    var once := Overwrite(s, at, a);
    assert once[..at + |a|] == s[..at] + a;
    assert once[at + |a| + |b|..] == s[at + |a| + |b|..];
  }

  lemma OverwriteNothing<T>(s: seq<T>, at: nat)
    requires at <= |s|
    ensures Overwrite(s, at, []) == s
  {}

  lemma OverwriteMore<T>(s: seq<T>, at: nat, buf: seq<T>, i: nat, n: nat)
    requires i + n <= |buf| && at + |buf| <= |s|
    ensures |Overwrite(s, at, buf[..i])| == |s|
    ensures Overwrite(Overwrite(s, at, buf[..i]), at + i, buf[i..i + n]) == Overwrite(s, at, buf[..i + n])
  {
    OverwriteTwice(s, at, buf[..i], buf[i..i + n]);
    assert buf[..i] + buf[i..i + n] == buf[..i + n];
  }

  lemma OverwriteEnds<T>(s: seq<T>, at: nat, buf: seq<T>)
    requires at + |buf| <= |s|
    ensures Overwrite(s, at, buf[..0]) == s && Overwrite(s, at, buf[..|buf|]) == Overwrite(s, at, buf)
  {
    assert buf[..|buf|] == buf;
  }

  lemma SliceMore<T>(s: seq<T>, p: nat, i: nat, j: nat)
    requires p <= i <= j <= |s|
    ensures s[p..i] + s[i..j] == s[p..j]
  {}
}
