/** ByteArray: a linked chain of equal blocks with a cursor node, which acts as one flat
    sequence of bytes with a position. */
module ByteArrays {
  import opened BytesTypes
  import opened Seqs

  class Node {
    const data: array<byte>
    var next: Node?

    constructor (size: nat)
      ensures fresh(data) && data.Length == size && next == null
    {
      data := new byte[size];
      next := null;
    }
  }

  /** What a read can come to: the bytes, the out_of_range exception, or a null cursor
      dereferenced. */
  datatype Got<+T> = Ok(value: T) | OutOfRange | NullDeref

  /** A stretch of one block, as an iovec. */
  datatype Slice = Slice(data: array<byte>, from: nat, len: nat)

  ghost function Behind(nodes: seq<Node>, k: nat): Node? { if k + 1 < |nodes| then nodes[k + 1] else null }

  /** How many blocks n bytes take. */
  function Ceiling(n: nat, base: nat): nat
    requires 0 < base
  {
    BlockNo(n + base - 1, base)
  }

  /** The capacity once n bytes fit behind the position. */
  function Grown(capacity: nat, position: nat, n: nat, base: nat): nat
    requires 0 < base && position <= capacity
  {
    if n <= capacity - position then capacity else capacity + Place(Ceiling(n - (capacity - position), base), base, 0)
  }

  /** It suffices, with less than a block to spare if it grew. */
  lemma GrownIsEnough(capacity: nat, position: nat, n: nat, base: nat)
    requires 0 < base && position <= capacity
    ensures position + n <= Grown(capacity, position, n, base)
    ensures n > capacity - position ==> Ceiling(n - (capacity - position), base) > 0
    ensures n > capacity - position ==> Grown(capacity, position, n, base) < position + n + base
  {
    if n > capacity - position {
      var need := n - (capacity - position);
      BlockOf(need + base - 1, base);
      PlaceShift(Ceiling(need, base), base, 0, Offset(need + base - 1, base));
    }
  }

  lemma GrownIs(capacity: nat, position: nat, n: nat, base: nat)
    requires 0 < base && position <= capacity
    ensures n > capacity - position ==>
              Grown(capacity, position, n, base) == capacity + Place(Ceiling(n - (capacity - position), base), base, 0)
    ensures n <= capacity - position ==> Grown(capacity, position, n, base) == capacity
  {}

  /** Of all capacities that add whole blocks it is the least that suffices. */
  lemma GrownIsLeast(capacity: nat, position: nat, n: nat, base: nat)
    returns (blocks: nat)
    requires 0 < base && position <= capacity
    ensures Grown(capacity, position, n, base) == capacity + Place(blocks, base, 0)
    ensures forall k: nat :: position + n <= capacity + Place(k, base, 0) <==> blocks <= k
  {
    PlaceOfNone(base);
    GrownIsEnough(capacity, position, n, base);
    blocks := if n > capacity - position then Ceiling(n - (capacity - position), base) else 0;
    forall k: nat
      ensures position + n <= capacity + Place(k, base, 0) <==> blocks <= k
    {
      if k < blocks {
        PlaceOrder(k, blocks, base);
        PlaceShift(k, base, 0, base);
      } else {
        PlaceOrder(blocks, k, base);
      }
    }
  }

  lemma BlockIsInChain(p: nat, blocks: nat, base: nat)
    requires 0 < base
    ensures p < Place(blocks, base, 0) <==> BlockNo(p, base) < blocks
  {
    BlockOf(p, base);
    hide Place, BlockNo, Offset;
    var k := BlockNo(p, base);
    if k < blocks {
      PlaceInChain(k, base, Offset(p, base), blocks);
    } else {
      PlaceOrder(blocks, k, base);
      PlaceShift(k, base, 0, Offset(p, base));
    }
  }

  /** after is before with chunk put in at a position, and may go on behind it. */
  ghost predicate Written(before: seq<byte>, at: nat, chunk: seq<byte>, after: seq<byte>) {
    && at <= |before| <= |after| && at + |chunk| <= |after|
    && after[..at] == before[..at] && after[at..at + |chunk|] == chunk
    && (at + |chunk| <= |before| ==> after[at + |chunk|..|before|] == before[at + |chunk|..])
  }

  lemma WrittenNothing(s: seq<byte>, at: nat)
    requires at <= |s|
    ensures Written(s, at, [], s)
  {
    assert s[at..at] == [];
  }

  lemma OverwriteWrites(before: seq<byte>, grown: seq<byte>, at: nat, chunk: seq<byte>)
    requires before <= grown && at <= |before| && at + |chunk| <= |grown|
    ensures Written(before, at, chunk, Overwrite(grown, at, chunk))
  {
    var after := Overwrite(grown, at, chunk);
    assert after[..at] == grown[..at] == before[..at];
    if at + |chunk| <= |before| { assert after[at + |chunk|..|before|] == grown[at + |chunk|..|before|]; }
  }

  /** What a reader can see: the bytes below the size, the capacity and the position. */
  datatype View = View(bytes: seq<byte>, capacity: nat, position: nat)

  function ReadOf(v: View, n: nat): Got<seq<byte>>
    requires v.position <= |v.bytes|
  {
    if n > |v.bytes| - v.position then OutOfRange
    else if v.position == v.capacity then NullDeref
    else Ok(v.bytes[v.position..v.position + n])
  }

  /** size_t arithmetic. */
  const SIZE_MODULUS: nat := 0x1_0000_0000_0000_0000

  /** Where the positional read of p starts when the cursor is at position. */
  function ReadAtStart(position: nat, p: nat, base: nat): nat
    requires 0 < base
  {
    Place(BlockNo(position, base), base, Offset(p, base))
  }

  /** How many of len bytes from position on can be read. */
  function Readable(size: nat, position: nat, len: nat): nat
    requires position <= size
  {
    if len > size - position then size - position else len
  }

  /** What the positional buffer getter cuts the length to is right for p exactly if p is the
      position, or the length has to be cut at neither. */
  lemma PositionalCutIsRight(size: nat, position: nat, p: nat, len: nat)
    requires position <= size && p <= size
    ensures Readable(size, position, len) == Readable(size, p, len) <==> p == position || (len <= size - position && len <= size - p)
  {}

  /** It is p exactly when p lies in the block of the cursor. */
  lemma PositionalReadIsRight(position: nat, p: nat, base: nat)
    requires 0 < base
    ensures ReadAtStart(position, p, base) == p <==> BlockNo(p, base) == BlockNo(position, base)
  {
    BlockOf(p, base);
    BlockOf(position, base);
    PlaceOf(BlockNo(position, base), base, Offset(p, base));
  }

  class ByteArray {
    const base: nat
    /** The byte order of the machine. */
    const host: Order
    /** The byte order of the fixed-length integers; big endian to begin with. */
    var order: Order
    var position: nat
    var capacity: nat
    var size: nat
    var root: Node
    var cur: Node?
    /** The chain, the bytes of its blocks end to end, and everything it is made of. */
    ghost var nodes: seq<Node>
    ghost var flat: seq<byte>
    ghost var Repr: set<object>
    /** Which block a node or its memory belongs to. */
    ghost var block: map<object, nat>

    predicate IsLittleEndian()
      reads `order
    {
      order == Little
    }

    method SetIsLittleEndian(val: bool)
      requires Valid()
      modifies `order
      ensures Valid() && IsLittleEndian() == val
    {
      if val {
        order := Little;
      } else {
        order := Big;
      }
    }

    /** The chain holds together and its blocks, end to end, are flat. */
    ghost predicate Chain()
      reads this, Repr
    {
      && this in Repr && 0 < base && 0 < |nodes| && root == nodes[0]
      && capacity == Place(|nodes|, base, 0) == |flat|
      && (forall k | 0 <= k < |nodes| :: nodes[k] in Repr && nodes[k].data in Repr && nodes[k].data.Length == base)
      && (forall k | 0 <= k < |nodes| :: nodes[k] in block && block[nodes[k]] == k)
      && (forall k | 0 <= k < |nodes| :: nodes[k].data in block && block[nodes[k].data] == k)
      && (forall k | 0 <= k < |nodes| :: nodes[k].next == Behind(nodes, k))
      && (forall k, i | 0 <= k < |nodes| && 0 <= i < base :: Place(k, base, i) < |flat| && nodes[k].data[i] == flat[Place(k, base, i)])
    }

    /** The block a position is in: none exactly at the capacity. */
    ghost function NodeAt(p: nat): Node?
      requires 0 < base
      reads `nodes
    {
      if BlockNo(p, base) < |nodes| then nodes[BlockNo(p, base)] else null
    }

    ghost predicate Valid()
      reads this, Repr
    {
      Chain() && position <= size <= capacity && cur == NodeAt(position)
    }

    constructor (baseSize: nat, machine: Order)
      requires 1 <= baseSize
      ensures Valid() && fresh(Repr) && host == machine && order == Big
      ensures base == baseSize == capacity && position == 0 && size == 0
    {
      base, host, order := baseSize, machine, Big;
      position, capacity, size := 0, baseSize, 0;
      var first := new Node(baseSize);
      root, cur := first, first;
      nodes := [first];
      flat := first.data[..];
      block := map[first := 0, first.data := 0];
      Repr := {this, first, first.data};
    }

    // ---- one block at a time ----------------------------------------------------------------

    /** memcpy into one block. */
    method Poke(data: array<byte>, ghost k: nat, npos: nat, chunk: seq<byte>)
      requires Chain() && k < |nodes| && data == nodes[k].data && npos + |chunk| <= base
      requires Place(k, base, npos) + |chunk| <= capacity
      modifies data, this`flat
      ensures Chain() && flat == Overwrite(old(flat), Place(k, base, npos), chunk)
    {
      hide Overwrite, Place;
      ghost var p, was := Place(k, base, npos), flat;
      flat := Overwrite(was, p, chunk);
      forall i | 0 <= i < |chunk| { data[npos + i] := chunk[i]; }
      OverwriteLength(was, p, chunk);
      forall j, i | 0 <= j < |nodes| && 0 <= i < base
        ensures Place(j, base, i) < |flat| && nodes[j].data[i] == flat[Place(j, base, i)]
      {
        assert old(nodes[j].data[i]) == was[Place(j, base, i)];
        OverwriteAt(was, p, chunk, Place(j, base, i));
        PlacesApart(j, k, base, i, npos, |chunk|);
      }
      forall j | 0 <= j < |nodes| ensures nodes[j].next == Behind(nodes, j) {
        assert nodes[j].next == old(nodes[j].next);
      }
    }

    lemma ByteOf(k: nat, npos: nat, i: nat)
      requires Chain() && k < |nodes| && npos + i < base
      ensures npos + i < nodes[k].data.Length && Place(k, base, npos) + i < |flat|
      ensures nodes[k].data[npos + i] == flat[Place(k, base, npos) + i]
    {
      hide Place;
      PlaceShift(k, base, npos, i);
      assert nodes[k].data[npos + i] == flat[Place(k, base, npos + i)];
    }

    lemma BytesOf(k: nat, npos: nat, n: nat)
      requires Chain() && k < |nodes| && npos + n <= base
      ensures npos + n <= nodes[k].data.Length && Place(k, base, npos) + n <= |flat|
      ensures nodes[k].data[npos..npos + n] == flat[Place(k, base, npos)..Place(k, base, npos) + n]
    {
      SlicesShape(k, 0, base);
      PlaceInFlat(k, npos, n);
      hide Chain, Place;
      var p := Place(k, base, npos);
      var a, b := nodes[k].data[npos..npos + n], flat[p..p + n];
      forall i | 0 <= i < n ensures a[i] == b[i] { ByteOf(k, npos, i); }
    }

    lemma PlaceInFlat(k: nat, npos: nat, n: nat)
      requires Chain() && k < |nodes| && npos + n <= base
      ensures Place(k, base, npos) + n <= |flat|
    {
      hide Place;
      PlaceOrder(k, |nodes|, base);
      PlaceShift(k, base, npos, n);
      PlaceShift(k, base, npos + n, base - npos - n);
    }

    /** memcpy out of one block. */
    method Peek(node: Node, ghost k: nat, npos: nat, n: nat) returns (chunk: seq<byte>)
      requires Chain() && k < |nodes| && node == nodes[k] && npos + n <= base
      ensures Place(k, base, npos) + n <= |flat| && chunk == flat[Place(k, base, npos)..Place(k, base, npos) + n]
    {
      hide Chain, Place;
      BytesOf(k, npos, n);
      chunk := node.data[npos..npos + n];
    }

    // ---- growing ---------------------------------------------------------------------------------

    /** One more block at the end of the chain. */
    method Append(last: Node) returns (added: Node)
      requires Chain() && 0 < |nodes| && last == nodes[|nodes| - 1]
      modifies this`nodes, this`flat, this`Repr, this`block, this`capacity, last`next
      ensures Chain() && fresh(added) && fresh(Repr - old(Repr)) && old(Repr) <= Repr && added in Repr
      ensures nodes == old(nodes) + [added] && capacity == old(capacity) + base && old(flat) <= flat
    {
      added := new Node(base);
      Link(last, added);
    }

    method Link(last: Node, added: Node)
      requires Chain() && 0 < |nodes| && last == nodes[|nodes| - 1]
      requires added !in Repr && added.data !in Repr && added.data.Length == base && added.next == null
      modifies this`nodes, this`flat, this`Repr, this`block, this`capacity, last`next
      ensures Chain() && Repr == old(Repr) + {added, added.data}
      ensures nodes == old(nodes) + [added] && capacity == old(capacity) + base && old(flat) <= flat
    {
      hide Place;
      last.next := added;
      capacity := capacity + base;
      ghost var n, was := |nodes|, flat;
      PlaceGrows(n, base);
      nodes := nodes + [added];
      flat := flat + added.data[..];
      Repr := Repr + {added, added.data};
      block := block[added := n][added.data := n];
      forall k | 0 <= k < n ensures nodes[k].next == Behind(nodes, k) {
        assert old(nodes[k].next) == Behind(old(nodes), k);
      }
      assert forall k, i | 0 <= k < n && 0 <= i < base :: nodes[k].data[i] == was[Place(k, base, i)];
      OneMore(n, was);
    }

    /** A chain, if it was one without its last block. */
    lemma OneMore(n: nat, was: seq<byte>)
      requires this in Repr && 0 < base && 0 < n && |nodes| == n + 1 && root == nodes[0]
      requires capacity == Place(n + 1, base, 0) && |was| == Place(n, base, 0) && flat == was + nodes[n].data[..]
      requires forall k | 0 <= k < n :: nodes[k] in Repr && nodes[k].data in Repr && nodes[k].data.Length == base
      requires forall k | 0 <= k < n :: nodes[k] in block && block[nodes[k]] == k
      requires forall k | 0 <= k < n :: nodes[k].data in block && block[nodes[k].data] == k
      requires forall k | 0 <= k < n :: nodes[k].next == Behind(nodes, k)
      requires forall k, i | 0 <= k < n && 0 <= i < base ::
                 Place(k, base, i) < |was| && nodes[k].data[i] == was[Place(k, base, i)]
      requires nodes[n] in Repr && nodes[n].data in Repr && nodes[n].data.Length == base && nodes[n].next == null
      requires nodes[n] in block && block[nodes[n]] == n && nodes[n].data in block && block[nodes[n].data] == n
      ensures Chain()
    {
      PlaceGrows(n, base);
      hide Place;
      SpreadsOn(was);
    }

    lemma SpreadsOn(was: seq<byte>)
      requires 0 < |nodes| && (forall k | 0 <= k < |nodes| :: nodes[k].data.Length == base)
      requires |was| == Place(|nodes| - 1, base, 0) && flat == was + nodes[|nodes| - 1].data[..]
      requires forall k, i | 0 <= k < |nodes| - 1 && 0 <= i < base ::
                 Place(k, base, i) < |was| && nodes[k].data[i] == was[Place(k, base, i)]
      ensures forall k, i | 0 <= k < |nodes| && 0 <= i < base ::
                Place(k, base, i) < |flat| && nodes[k].data[i] == flat[Place(k, base, i)]
    {
      hide Place;
      var n := |nodes| - 1;
      forall k, i | 0 <= k < |nodes| && 0 <= i < base
        ensures Place(k, base, i) < |flat| && nodes[k].data[i] == flat[Place(k, base, i)]
      {
        if k == n { PlaceShift(n, base, 0, i); }
      }
    }

    method Last() returns (node: Node)
      requires Chain()
      ensures 0 < |nodes| && node == nodes[|nodes| - 1] && node in Repr && this in Repr
    {
      node := root;
      ghost var k := 0;
      while node.next != null
        invariant k < |nodes| && node == nodes[k]
        decreases |nodes| - k
      {
        node := node.next;
        k := k + 1;
      }
    }

    /** Puts count blocks behind the last one; first is the first of them. */
    method Extend(count: nat) returns (first: Node?)
      requires Chain()
      modifies Repr
      ensures Chain() && fresh(Repr - old(Repr)) && old(nodes) <= nodes && |nodes| == |old(nodes)| + count
      ensures position == old(position) && size == old(size) && order == old(order) && cur == old(cur) && old(flat) <= flat
      ensures capacity == old(capacity) + Place(count, base, 0)
      ensures first == if count == 0 then null else nodes[|old(nodes)|]
    {
      hide Chain, Place;
      var tmp := Last();
      ghost var blocks := |nodes|;
      PlaceOfNone(base);
      first := null;
      var i := 0;
      while i < count
        invariant 0 <= i <= count
        invariant Chain() && fresh(Repr - old(Repr)) && 0 < |nodes| && tmp == nodes[|nodes| - 1] && tmp in Repr
        invariant this in Repr && (tmp in old(Repr) || fresh(tmp)) && old(nodes) <= nodes
        invariant position == old(position) && size == old(size) && order == old(order) && cur == old(cur) && old(flat) <= flat
        invariant |nodes| == blocks + i && capacity == old(capacity) + Place(i, base, 0)
        invariant first == if i == 0 then null else nodes[blocks]
      {
        tmp := Append(tmp);
        if first == null {
          first := tmp;
        }
        PlaceGrows(i, base);
        i := i + 1;
      }
    }

    /** Makes room for n more bytes behind the position; the bytes that are there stay. */
    method AddCapacity(n: nat)
      requires Valid()
      modifies Repr
      ensures Valid() && fresh(Repr - old(Repr))
      ensures position == old(position) && size == old(size) && order == old(order)
      ensures capacity == Grown(old(capacity), old(position), n, base) && old(flat) <= flat
    {
      hide Grown, Ceiling;
      GrownIsEnough(capacity, position, n, base);
      GrownIs(capacity, position, n, base);
      if n == 0 {
        return;
      }
      var room := capacity - position;
      if room >= n {
        return;
      }
      BlockIsInChain(position, |nodes|, base);
      ghost var blocks := |nodes|;
      var first := Extend(Ceiling(n - room, base));
      hide NodeAt;
      if room == 0 {
        cur := first;
        FirstBehind(blocks);
      } else {
        StillAt(old(nodes), old(cur));
      }
    }

    lemma FirstBehind(blocks: nat)
      requires Chain() && position == Place(blocks, base, 0) < capacity
      ensures blocks < |nodes| && NodeAt(position) == nodes[blocks]
    {
      PlaceOf(blocks, base, 0);
      BlockIsInChain(position, |nodes|, base);
    }

    lemma StillAt(before: seq<Node>, node: Node?)
      requires 0 < base && BlockNo(position, base) < |before| && before <= nodes && node == before[BlockNo(position, base)]
      ensures NodeAt(position) == node
    {}

    // ---- the cursor -------------------------------------------------------------------------------

    lemma InBlock(k: nat, npos: nat)
      requires Chain() && k < |nodes| && npos < base
      ensures NodeAt(Place(k, base, npos)) == nodes[k] && Place(k, base, npos) < capacity
    {
      PlaceOf(k, base, npos);
      PlaceInChain(k, base, npos, |nodes|);
    }

    lemma PastBlock(k: nat)
      requires Chain() && k < |nodes|
      ensures NodeAt(Place(k, base, base)) == nodes[k].next && Place(k, base, base) <= capacity
      ensures Place(k, base, base) == Place(k + 1, base, 0)
      ensures if Place(k, base, base) < capacity then k + 1 < |nodes| && nodes[k].next == nodes[k + 1] else nodes[k].next == null
    {
      hide Place, BlockNo;
      PlaceNext(k, base);
      PlaceOf(k + 1, base, 0);
      PlaceOrder(k, |nodes|, base);
      if Place(k + 1, base, 0) < Place(|nodes|, base, 0) { PlaceBelow(k + 1, |nodes|, base); }
    }

    lemma BlockOfPosition(p: nat)
      requires Chain() && p < capacity
      ensures var k := BlockNo(p, base);
              k < |nodes| && p == Place(k, base, Offset(p, base)) && Offset(p, base) < base && NodeAt(p) == nodes[k]
    {
      BlockOf(p, base);
      BlockIsInChain(p, |nodes|, base);
    }

    // ---- writing ------------------------------------------------------------------------------------

    /** Moving n bytes on inside block k. */
    lemma StepInBlock(k: nat, npos: nat, n: nat)
      requires Chain() && k < |nodes| && npos + n <= base
      ensures Place(k, base, npos + n) == Place(k, base, npos) + n <= capacity
      ensures NodeAt(Place(k, base, npos + n)) == if npos + n == base then nodes[k].next else nodes[k]
    {
      hide Place, NodeAt;
      PlaceShift(k, base, npos, n);
      if npos + n == base { PastBlock(k); } else { InBlock(k, npos + n); }
    }

    lemma SizeOfBlock(k: nat)
      requires Chain() && k < |nodes|
      ensures nodes[k].data.Length == base && nodes[k].data in Repr && this in Repr
    {}

    lemma CapacityIsLength()
      requires Chain()
      ensures capacity == |flat|
    {}

    /** The cursor is at byte npos of block k. */
    ghost predicate On(k: nat, npos: nat)
      reads `nodes, `cur, `position
    {
      k < |nodes| && cur == nodes[k] && npos < base && position == Place(k, base, npos)
    }

    lemma OnBlock(k: nat, npos: nat)
      requires Chain() && On(k, npos)
      ensures cur != null && cur.data.Length == base && cur.data in Repr && this in Repr && npos < base
    {}

    lemma OnSomeBlock()
      requires Chain() && position < capacity && cur == NodeAt(position)
      ensures On(BlockNo(position, base), Offset(position, base))
    {
      BlockOfPosition(position);
    }

    /** Copies chunk into the block of the cursor and moves on. */
    method Put(npos: nat, chunk: seq<byte>, ghost k: nat)
      requires Chain() && On(k, npos) && npos + |chunk| <= base && position + |chunk| <= |flat|
      modifies this`flat, this`cur, this`position, cur.data
      ensures Chain() && flat == Overwrite(old(flat), old(position), chunk)
      ensures position == old(position) + |chunk| && cur == NodeAt(position)
      ensures npos + |chunk| == base && position < capacity ==> On(k + 1, 0)
    {
      hide Place, Overwrite, Chain, NodeAt;
      CapacityIsLength();
      SizeOfBlock(k);
      Poke(cur.data, k, npos, chunk);
      StepInBlock(k, npos, |chunk|);
      PastBlock(k);
      MoveTo(if cur.data.Length == npos + |chunk| then cur.next else cur, position + |chunk|);
    }

    method MoveTo(node: Node?, p: nat)
      requires Chain()
      modifies this`cur, this`position
      ensures Chain() && cur == node && position == p
    {
      cur := node;
      position := p;
    }

    /** The copying loop of write: from the cursor on, block by block. */
    method CopyIn(buf: seq<byte>)
      requires Chain() && position < capacity && cur == NodeAt(position) && position + |buf| <= capacity
      modifies Repr
      ensures Chain() && flat == Overwrite(old(flat), old(position), buf)
      ensures position == old(position) + |buf| && cur == NodeAt(position)
      ensures nodes == old(nodes) && Repr == old(Repr) && capacity == old(capacity) && size == old(size) && order == old(order)
    {
      hide Place, Overwrite, NodeAt, BlockNo, Offset, Chain, On;
      CapacityIsLength();
      OnSomeBlock();
      var remaining: nat := |buf|;
      var npos: nat := Offset(position, base);
      ghost var k: nat := BlockNo(position, base);
      OnBlock(k, npos);
      var ncap: nat := cur.data.Length - npos;
      var bpos: nat := 0;
      OverwriteEnds(flat, position, buf);
      while remaining > 0
        invariant bpos + remaining == |buf| && position == old(position) + bpos
        invariant Chain() && flat == Overwrite(old(flat), old(position), buf[..bpos])
        invariant nodes == old(nodes) && Repr == old(Repr) && capacity == old(capacity) && size == old(size) && order == old(order)
        invariant cur == NodeAt(position)
        invariant remaining > 0 ==> On(k, npos) && npos + ncap == base
        decreases remaining
      {
        OnBlock(k, npos);
        if ncap >= remaining {
          OverwriteMore(old(flat), old(position), buf, bpos, remaining);
          Put(npos, buf[bpos..bpos + remaining], k);
          bpos := bpos + remaining;
          remaining := 0;
        } else {
          OverwriteMore(old(flat), old(position), buf, bpos, ncap);
          Put(npos, buf[bpos..bpos + ncap], k);
          bpos := bpos + ncap;
          remaining := remaining - ncap;
          k, npos := k + 1, 0;
          OnBlock(k, npos);
          ncap := cur.data.Length;
        }
      }
    }

    method Write(buf: seq<byte>)
      requires Valid()
      modifies Repr
      ensures Valid() && fresh(Repr - old(Repr))
      ensures position == old(position) + |buf| && size == (if position > old(size) then position else old(size))
      ensures capacity == Grown(old(capacity), old(position), |buf|, base) && order == old(order)
      ensures Written(old(flat), old(position), buf, flat)
    {
      if |buf| == 0 {
        WrittenNothing(flat, position);
        return;
      }
      GrownIsEnough(capacity, position, |buf|, base);
      AddCapacity(|buf|);
      ghost var grown := flat;
      CopyIn(buf);
      OverwriteWrites(old(flat), grown, old(position), buf);
      if position > size {
        Resize(position);
      }
    }

    method Resize(n: nat)
      requires Chain()
      modifies this`size
      ensures Chain() && size == n
    {
      size := n;
    }

    // ---- reading ------------------------------------------------------------------------------------

    /** The copying loop of both reads: n bytes from block k on. */
    method CopyOut(start: Node, ghost first: nat, from: nat, n: nat) returns (ok: bool, buf: seq<byte>, node: Node?)
      requires Chain() && first < |nodes| && start == nodes[first] && from < base
      ensures ok == (Place(first, base, from) + n <= capacity)
      ensures ok ==> buf == flat[Place(first, base, from)..Place(first, base, from) + n]
      ensures ok && n > 0 ==> node == NodeAt(Place(first, base, from) + n)
    {
      hide Place, NodeAt, Chain;
      CapacityIsLength();
      var remaining: nat := n;
      var npos: nat := from;
      ghost var k: nat := first;
      ghost var p := Place(first, base, from);
      SizeOfBlock(k);
      InBlock(k, npos);
      var ncap: nat := start.data.Length - npos;
      node, buf := start, [];
      while remaining > 0
        invariant |buf| + remaining == n && p + |buf| <= capacity && buf == flat[p..p + |buf|]
        invariant remaining == 0 && n > 0 ==> node == NodeAt(p + n)
        invariant remaining > 0 ==>
          k < |nodes| && node == nodes[k] && npos < base && ncap == base - npos && p + |buf| == Place(k, base, npos)
        decreases remaining
      {
        var m := if ncap >= remaining then remaining else ncap;
        SizeOfBlock(k);
        StepInBlock(k, npos, m);
        PastBlock(k);
        var chunk := Peek(node, k, npos, m);
        SliceMore(flat, p, p + |buf|, p + |buf| + m);
        buf := buf + chunk;
        if ncap >= remaining {
          if node.data.Length == npos + remaining {
            node := node.next;
          }
          remaining := 0;
        } else {
          remaining := remaining - ncap;
          node := node.next;
          if node == null {
            return false, buf, null;
          }
          k := k + 1;
          SizeOfBlock(k);
          ncap := node.data.Length;
          npos := 0;
        }
      }
      ok := true;
    }

    ghost function Seen(): (v: View)
      requires Valid()
      reads this, Repr
      ensures v.position <= |v.bytes|
    {
      View(flat[..size], capacity, position)
    }

    /** The cursor is null exactly at the capacity. */
    lemma CursorIsNullAtCapacity()
      requires Valid()
      ensures cur == null <==> position == capacity
    {
      hide Place;
      BlockIsInChain(position, |nodes|, base);
    }

    /** A read at the cursor. Asking for nothing exactly at the capacity faults. */
    method Read(n: nat) returns (r: Got<seq<byte>>)
      requires Valid()
      modifies this`position, this`cur
      ensures Valid() && r == ReadOf(old(Seen()), n)
      ensures position == old(position) + (if r.Ok? then n else 0)
    {
      hide Place, Chain, NodeAt, BlockNo, Offset;
      CapacityIsLength();
      CursorIsNullAtCapacity();
      if n > size - position {
        return OutOfRange;
      }
      if cur == null {
        return NullDeref;
      }
      BlockOfPosition(position);
      var ok, buf, node := CopyOut(cur, BlockNo(position, base), Offset(position, base), n);
      r := Ok(buf);
      assert flat[..size][position..position + n] == flat[position..position + n];
      if n > 0 { MoveTo(node, position + n); }
    }

    /** The positional read starts in the block of the cursor, whatever the position says. */
    method ReadAt(n: nat, p: nat) returns (r: Got<seq<byte>>)
      requires Valid()
      ensures r == if n > (size - p) % SIZE_MODULUS then OutOfRange
                   else if position == capacity then NullDeref
                   else
                     var from := ReadAtStart(position, p, base);
                     if from + n > capacity then NullDeref else Ok(flat[from..from + n])
    {
      hide Place, Chain, NodeAt, BlockNo, Offset;
      CapacityIsLength();
      CursorIsNullAtCapacity();
      if n > (size - p) % SIZE_MODULUS {
        return OutOfRange;
      }
      if cur == null {
        return NullDeref;
      }
      BlockOfPosition(position);
      BlockOf(p, base);
      var ok, buf, _ := CopyOut(cur, BlockNo(position, base), Offset(p, base), n);
      r := if ok then Ok(buf) else NullDeref;
    }

    /** toString, which reads at the position itself, is right. */
    method ToString() returns (r: Got<seq<byte>>)
      requires Valid() && capacity < SIZE_MODULUS
      ensures r == Ok(flat[position..size])
    {
      var n := size - position;
      hide Place, Chain, NodeAt, BlockNo, Offset, ReadAtStart;
      CapacityIsLength();
      assert flat[position..position + n] == flat[position..size];
      if n == 0 {
        return Ok([]);
      }
      RootIsFirst();
      PositionalReadIsRight(position, position, base);
      r := ReadAt(n, position);
    }

    // ---- moving about ----------------------------------------------------------------------------

    /** Any position up to the capacity; the size grows with it. */
    method SetPosition(v: nat) returns (ok: bool)
      requires Valid()
      modifies this`position, this`size, this`cur
      ensures Valid() && ok == (v <= capacity)
      ensures position == (if ok then v else old(position))
      ensures size == (if ok && v > old(size) then v else old(size))
    {
      if v > capacity {
        return false;
      }
      hide Chain, NodeAt, Place;
      var node := Find(v);
      MoveTo(node, v);
      if position > size {
        Resize(position);
      }
      ok := true;
    }

    lemma RootIsFirst()
      requires Chain()
      ensures 0 < base && 0 < |nodes| && root == nodes[0]
    {}

    /** Walks the chain to the block of v. */
    method Find(v: nat) returns (node: Node?)
      requires Chain() && v <= capacity
      ensures node == NodeAt(v)
    {
      hide Place, NodeAt, Chain;
      var left: nat := v;
      ghost var k: nat := 0;
      node := root;
      RootIsFirst();
      SizeOfBlock(0);
      PlaceIs(0, base, left);
      while left > node.data.Length
        invariant node != null && k < |nodes| && node == nodes[k] && node.data.Length == base
        invariant Place(k, base, left) == v
        decreases left
      {
        PlaceShift(k, base, base, left - base);
        PlaceNext(k, base);
        PlaceShift(k + 1, base, 0, left - base);
        PastBlock(k);
        left := left - node.data.Length;
        node := node.next;
        k := k + 1;
        SizeOfBlock(k);
      }
      if left == node.data.Length {
        PastBlock(k);
        node := node.next;
      } else {
        InBlock(k, left);
      }
    }

    /** Back to one block. */
    method Clear()
      requires Valid()
      modifies Repr
      ensures Valid() && position == 0 && size == 0 && capacity == base && flat == old(flat)[..base]
      ensures Repr == old(Repr) && order == old(order)
    {
      hide Place;
      FirstBytes();
      position, size := 0, 0;
      capacity := base;
      cur := root;
      root.next := null;
      nodes, flat := [root], flat[..base];
      OnlyBlock();
    }

    lemma FirstBytes()
      requires Chain()
      ensures base <= |flat| && root.data.Length == base && root.data[..] == flat[..base]
      ensures root in Repr && root.data in Repr && this in Repr
      ensures root in block && block[root] == 0 && root.data in block && block[root.data] == 0
    {
      hide Place;
      PlaceOfNone(base);
      PlaceGrows(0, base);
      PlaceOrder(1, |nodes|, base);
      forall i | 0 <= i < base ensures Place(0, base, i) == i { PlaceIs(0, base, i); }
    }

    lemma OnlyBlock()
      requires this in Repr && 0 < base && nodes == [root] && root.next == null && capacity == base && flat == root.data[..]
      requires root in Repr && root.data in Repr && root.data.Length == base
      requires root in block && block[root] == 0 && root.data in block && block[root.data] == 0
      ensures Chain() && NodeAt(0) == root
    {
      hide Place;
      PlaceOfNone(base);
      PlaceGrows(0, base);
      PlaceOf(0, base, 0);
      forall i | 0 <= i < base ensures Place(0, base, i) == i { PlaceIs(0, base, i); }
    }

    // ---- scatter and gather ------------------------------------------------------------------------

    /** The stretches of the chain that hold len bytes from byte npos of block k on. */
    ghost function Slices(k: nat, npos: nat, len: nat): seq<Slice>
      requires npos < base
      reads `nodes
      decreases len
    {
      if len == 0 || k >= |nodes| then []
      else if base - npos >= len then [Slice(nodes[k].data, npos, len)]
      else [Slice(nodes[k].data, npos, base - npos)] + Slices(k + 1, 0, len - (base - npos))
    }

    /** The loop that all three buffer getters share. It stays in the chain exactly if the bytes do. */
    method Carve(start: Node, ghost first: nat, from: nat, n: nat, before: seq<Slice>) returns (r: Got<seq<Slice>>)
      requires Chain() && first < |nodes| && start == nodes[first] && from < base
      ensures r == if Place(first, base, from) + n <= capacity then Ok(before + Slices(first, from, n)) else NullDeref
    {
      hide Chain, Place, NodeAt;
      var buffers := before;
      var node: Node? := start;
      var len: nat, npos: nat := n, from;
      ghost var k: nat := first;
      SizeOfBlock(k);
      InBlock(k, npos);
      var ncap: nat := start.data.Length - npos;
      while len > 0
        invariant npos < base && before + Slices(first, from, n) == buffers + Slices(k, npos, len)
        invariant len > 0 ==>
          k < |nodes| && node == nodes[k] && ncap == base - npos && Place(k, base, npos) + len == Place(first, base, from) + n
        invariant len == 0 ==> Place(first, base, from) + n <= capacity
        decreases len
      {
        SizeOfBlock(k);
        if ncap >= len {
          StepInBlock(k, npos, len);
          buffers := buffers + [Slice(node.data, npos, len)];
          len := 0;
        } else {
          Assoc(buffers, [Slice(node.data, npos, ncap)], Slices(k + 1, 0, len - ncap));
          buffers := buffers + [Slice(node.data, npos, ncap)];
          StepInBlock(k, npos, ncap);
          PastBlock(k);
          len := len - ncap;
          node := node.next;
          if node == null {
            return NullDeref;
          }
          k := k + 1;
          SizeOfBlock(k);
          ncap := node.data.Length;
          npos := 0;
        }
      }
      assert buffers + Slices(k, npos, len) == buffers;
      r := Ok(buffers);
    }

    /** The next bytes to read, at most len, in place. */
    method GetReadBuffers(before: seq<Slice>, len: nat) returns (buffers: seq<Slice>, n: nat)
      requires Valid()
      ensures n == Readable(size, position, len)
      ensures buffers == before + (if n == 0 then [] else SlicesAt(position, n))
    {
      n := Readable(size, position, len);
      if n == 0 {
        return before + [], 0;
      }
      hide Chain, Place, NodeAt, Slices, BlockNo, Offset;
      BlockOfPosition(position);
      var r := Carve(cur, BlockNo(position, base), Offset(position, base), n, before);
      buffers := r.value;
    }

    /** The same from another position, with the length still cut at what is readable at the
        cursor. Where that runs past the chain the walk or the loop faults. */
    method GetReadBuffersAt(before: seq<Slice>, len: nat, p: nat) returns (r: Got<seq<Slice>>, n: nat)
      requires Valid()
      ensures n == Readable(size, position, len)
      ensures r == if n == 0 then Ok(before)
                   else if p + n <= capacity then Ok(before + SlicesAt(p, n))
                   else NullDeref
    {
      n := Readable(size, position, len);
      if n == 0 {
        return Ok(before), 0;
      }
      hide Chain, Place, NodeAt, Slices, BlockNo, Offset, Readable;
      InChainExactly(p);
      var node := Block(BlockNo(p, base));
      if node == null {
        return NullDeref, n;
      }
      BlockOfPosition(p);
      r := Carve(node, BlockNo(p, base), Offset(p, base), n, before);
    }

    /** The walk from the first block on; null behind the last one. */
    method Block(count: nat) returns (node: Node?)
      requires Chain()
      ensures node == if count < |nodes| then nodes[count] else null
    {
      hide Chain;
      RootIsFirst();
      node := root;
      var k: nat := 0;
      while k < count
        invariant k <= count && node == if k < |nodes| then nodes[k] else null
      {
        if node == null {
          return null;
        }
        NextIs(k);
        node := node.next;
        k := k + 1;
      }
    }

    /** Room for the next len bytes, in place. */
    method GetWriteBuffers(before: seq<Slice>, len: nat) returns (buffers: seq<Slice>)
      requires Valid()
      modifies Repr
      ensures Valid() && fresh(Repr - old(Repr))
      ensures position == old(position) && size == old(size) && order == old(order)
      ensures capacity == Grown(old(capacity), old(position), len, base) && old(flat) <= flat
      ensures position + len <= capacity && buffers == before + (if len == 0 then [] else SlicesAt(position, len))
    {
      if len == 0 {
        return before + [];
      }
      hide Chain, Place, NodeAt, Slices, BlockNo, Offset, Grown;
      RootIsFirst();
      GrownIsEnough(capacity, position, len, base);
      AddCapacity(len);
      BlockOfPosition(position);
      var r := Carve(cur, BlockNo(position, base), Offset(position, base), len, before);
      buffers := r.value;
    }

    lemma NextIs(k: nat)
      requires Chain() && k < |nodes|
      ensures nodes[k].next == if k + 1 < |nodes| then nodes[k + 1] else null
    {}

    lemma InChainExactly(p: nat)
      requires Chain()
      ensures 0 < base && (p < capacity <==> BlockNo(p, base) < |nodes|)
    {
      BlockIsInChain(p, |nodes|, base);
    }

    ghost function SlicesAt(p: nat, n: nat): seq<Slice>
      requires 0 < base
      reads `nodes
    {
      Slices(BlockNo(p, base), Offset(p, base), n)
    }

    lemma SlicesShape(k: nat, npos: nat, len: nat)
      requires Chain() && k < |nodes| && npos < base && 0 < len
      ensures var m := if base - npos >= len then len else base - npos;
              && nodes[k].data.Length == base && nodes[k].data in Repr && this in Repr
              && Slices(k, npos, len) == [Slice(nodes[k].data, npos, m)] + (if m < len then Slices(k + 1, 0, len - m) else [])
    {}

    lemma NoSlices(k: nat, npos: nat)
      requires Chain() && k < |nodes| && npos < base
      ensures Slices(k, npos, 0) == []
    {}

    /** Slices in order hold the flat bytes. */
    lemma {:induction false} GatherIsFlat(k: nat, npos: nat, len: nat)
      requires Chain() && k < |nodes| && npos < base && Place(k, base, npos) + len <= |flat|
      ensures (forall s | s in Slices(k, npos, len) :: npos < base && s.from + s.len <= s.data.Length)
      ensures Gather(Slices(k, npos, len)) == flat[Place(k, base, npos)..Place(k, base, npos) + len]
      decreases len
    {
      hide Chain, Place, Gather, Slices;
      if len == 0 {
        NoSlices(k, npos);
        GatherNothing();
      } else {
        var m := if base - npos >= len then len else base - npos;
        var p := Place(k, base, npos);
        SlicesShape(k, npos, len);
        CapacityIsLength();
        BytesOf(k, npos, m);
        var one := Slice(nodes[k].data, npos, m);
        if m < len {
          StepInBlock(k, npos, m);
          PastBlock(k);
          GatherIsFlat(k + 1, 0, len - m);
          GatherFirst(one, Slices(k + 1, 0, len - m));
          SliceMore(flat, p, p + m, p + len);
        } else {
          GatherFirst(one, []);
          GatherNothing();
        }
      }
    }

    /** recv into the slices: the received bytes fill them in order. */
    method Scatter(slices: seq<Slice>, ghost p: nat, ghost len: nat, received: seq<byte>)
      requires Chain() && p + len <= capacity && |received| <= len && 0 < len && slices == SlicesAt(p, len)
      modifies Repr
      ensures Chain() && flat == Overwrite(old(flat), p, received)
      ensures nodes == old(nodes) && Repr == old(Repr) && capacity == old(capacity) && size == old(size) && order == old(order)
      ensures position == old(position) && cur == old(cur)
    {
      hide Chain, Place, NodeAt, Slices, BlockNo, Offset, Overwrite;
      CapacityIsLength();
      BlockOfPosition(p);
      OverwriteEnds(flat, p, received);
      ghost var k: nat, npos: nat, left: nat := BlockNo(p, base), Offset(p, base), len;
      var j: nat, done: nat := 0, 0;
      while done < |received|
        invariant done <= |received| && done + left == len && j <= |slices|
        invariant Chain() && flat == Overwrite(old(flat), p, received[..done])
        invariant nodes == old(nodes) && Repr == old(Repr) && capacity == old(capacity) && size == old(size) && order == old(order)
        invariant position == old(position) && cur == old(cur)
        invariant done < |received| ==>
          k < |nodes| && npos < base && Place(k, base, npos) == p + done && slices[j..] == Slices(k, npos, left)
        decreases |received| - done
      {
        SlicesShape(k, npos, left);
        var s := slices[j];
        assert s == slices[j..][0] && s.len == (if base - npos >= left then left else base - npos);
        var m := if s.len <= |received| - done then s.len else |received| - done;
        StepInBlock(k, npos, s.len);
        PastBlock(k);
        OverwriteMore(old(flat), p, received, done, m);
        Poke(s.data, k, s.from, received[done..done + m]);
        assert slices[j + 1..] == slices[j..][1..] && ([s] + Slices(k + 1, 0, 0))[1..] == Slices(k + 1, 0, 0);
        done := done + m;
        left := left - m;
        j := j + 1;
        k, npos := k + 1, 0;
      }
    }
  }

  /** The bytes of some slices, in order. */
  ghost function Gather(slices: seq<Slice>): seq<byte>
    requires forall s | s in slices :: s.from + s.len <= s.data.Length
    reads set s | s in slices :: s.data
  {
    if slices == [] then [] else slices[0].data[slices[0].from..slices[0].from + slices[0].len] + Gather(slices[1..])
  }

  lemma GatherNothing()
    ensures Gather([]) == []
  {}

  lemma GatherFirst(one: Slice, rest: seq<Slice>)
    requires forall s | s in [one] + rest :: s.from + s.len <= s.data.Length
    ensures (forall s | s in rest :: s.from + s.len <= s.data.Length) && one.from + one.len <= one.data.Length
    ensures Gather([one] + rest) == one.data[one.from..one.from + one.len] + Gather(rest)
  {
    assert ([one] + rest)[0] == one && ([one] + rest)[1..] == rest;
    assert one in [one] + rest && forall s | s in rest :: s in [one] + rest;
  }
}
