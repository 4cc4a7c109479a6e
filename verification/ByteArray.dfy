/** The chunked byte buffer: a linked list of equal-sized nodes and a cursor. */
module ByteArrays {
  import opened Words
  import opened Wire
  import opened Blocks
  import Varint

  class Node {
    const ptr: array<byte>
    const size: nat
    var next: Node?

    constructor (s: nat)
      ensures fresh(ptr) && ptr.Length == size == s && next == null
    {
      ptr := new byte[s];
      size := s;
      next := null;
    }

    constructor Around(data: array<byte>)
      ensures ptr == data && size == data.Length && next == null
    {
      ptr := data;
      size := data.Length;
      next := null;
    }
  }

  /** The node behind node i of a list. */
  ghost function Follower(nodes: seq<Node>, i: nat): Node? {
    if i + 1 < |nodes| then nodes[i + 1] else null
  }

  /** The node a position lies in; null at the end of the last one. */
  ghost function NodeAt(nodes: seq<Node>, p: nat, base: nat): Node?
    requires base > 0
  {
    if BlockOf(p, base) < |nodes| then nodes[BlockOf(p, base)] else null
  }

  /** No two nodes share themselves or their memory. */
  ghost predicate Separate(nodes: seq<Node>) {
    forall i, j :: 0 <= i < j < |nodes| ==> nodes[i] != nodes[j] && nodes[i].ptr != nodes[j].ptr
  }

  /** Equal-sized nodes, each pointing at the next, the last at null. */
  ghost predicate Chain(nodes: seq<Node>, base: nat)
    reads nodes
  {
    && Separate(nodes)
    && (forall i :: 0 <= i < |nodes| ==> nodes[i].size == nodes[i].ptr.Length == base)
    && (forall i :: 0 <= i < |nodes| ==> nodes[i].next == Follower(nodes, i))
  }

  /** The nodes and their memory are among the given objects. */
  ghost predicate Owned(nodes: seq<Node>, repr: set<object>) {
    forall i :: 0 <= i < |nodes| ==> nodes[i] in repr && nodes[i].ptr in repr
  }

  lemma DistinctAppend(nodes: seq<Node>, node: Node)
    requires Separate(nodes)
    requires forall i :: 0 <= i < |nodes| ==> nodes[i] != node && nodes[i].ptr != node.ptr
    ensures Separate(nodes + [node])
  {
  }

  lemma ChainOfOne(node: Node, base: nat)
    requires node.size == node.ptr.Length == base && node.next == null
    ensures Chain([node], base)
  {
  }

  /** What the nodes hold, one block each. */
  ghost function Contents(nodes: seq<Node>): (blocks: seq<seq<byte>>)
    reads set n | n in nodes :: n.ptr
    ensures |blocks| == |nodes|
    ensures forall i :: 0 <= i < |nodes| ==> blocks[i] == nodes[i].ptr[..]
  {
    seq(|nodes|, i requires 0 <= i < |nodes| reads (set n | n in nodes :: n.ptr) => nodes[i].ptr[..])
  }

  /** All their memory, end to end. */
  ghost function DataOf(nodes: seq<Node>): seq<byte>
    reads set n | n in nodes :: n.ptr
  {
    Concat(Contents(nodes))
  }

  lemma DataPrefix(ns: seq<Node>, ms: seq<Node>)
    requires ns <= ms
    ensures |DataOf(ns)| <= |DataOf(ms)| && DataOf(ms)[..|DataOf(ns)|] == DataOf(ns)
  {
    hide Concat;
    var rest := Contents(ms)[|ns|..];
    assert Contents(ms) == Contents(ns) + rest;
    ConcatAppend(Contents(ns), rest);
  }

  /** A stretch of somebody's memory: struct iovec. */
  datatype View = View(base: array<byte>, off: nat, len: nat)

  function Total(views: seq<View>): nat {
    if views == [] then 0 else Total(views[..|views| - 1]) + views[|views| - 1].len
  }

  /** What the view collectors give: views, or the dereference of a null node. */
  datatype Views = Shown(views: seq<View>) | NullNode

  /** min(n, size - p) in 64-bit unsigned arithmetic. */
  function ShownLength(n: nat, size: nat, p: nat): nat {
    var left := (size - p) % Modulus(B64);
    if n > left then left else n
  }

  lemma ShownWithin(n: nat, size: nat, p: nat)
    requires p <= size < Modulus(B64) || size < p < Modulus(B64)
    ensures p <= size ==> ShownLength(n, size, p) == if n > size - p then size - p else n
  {
  }

  /** The view is the part of node k that starts at flat position p. */
  ghost predicate PieceOf(nodes: seq<Node>, base: nat, v: View, p: nat, k: nat) {
    && k < |nodes| && v.base == nodes[k].ptr && p == Cells(k, base) + v.off
    && v.off < base && v.off + v.len <= base
  }

  /** The view is the part of its node that starts at flat position p. */
  ghost predicate PieceAt(nodes: seq<Node>, base: nat, v: View, p: nat) {
    exists k: nat :: PieceOf(nodes, base, v, p, k)
  }

  /** The views lie end to end from flat position p on. */
  ghost predicate Cover(nodes: seq<Node>, base: nat, views: seq<View>, p: nat) {
    forall i :: 0 <= i < |views| ==> PieceAt(nodes, base, views[i], p + Total(views[..i]))
  }

  lemma TotalOne(views: seq<View>, v: View)
    ensures Total(views + [v]) == Total(views) + v.len
  {
    assert (views + [v])[..|views|] == views;
  }

  lemma CoverAppend(nodes: seq<Node>, base: nat, views: seq<View>, v: View, p: nat)
    requires Cover(nodes, base, views, p) && PieceAt(nodes, base, v, p + Total(views))
    ensures Cover(nodes, base, views + [v], p) && Total(views + [v]) == Total(views) + v.len
  {
    hide PieceAt, Total;
    var longer := views + [v];
    assert longer[..|views|] == views;
    TotalOne(views, v);
    forall i | 0 <= i < |longer|
      ensures PieceAt(nodes, base, longer[i], p + Total(longer[..i]))
    {
      if i < |views| {
        assert longer[..i] == views[..i] && longer[i] == views[i];
      }
    }
  }

  lemma CoverFront(nodes: seq<Node>, base: nat, views: seq<View>, p: nat)
    requires views != [] && Cover(nodes, base, views, p)
    ensures Cover(nodes, base, views[..|views| - 1], p)
    ensures PieceAt(nodes, base, views[|views| - 1], p + Total(views[..|views| - 1]))
  {
    hide PieceAt, Total;
    var front := views[..|views| - 1];
    forall i | 0 <= i < |front|
      ensures PieceAt(nodes, base, front[i], p + Total(front[..i]))
    {
      assert front[..i] == views[..i];
    }
  }

  /** The bytes behind the views. */
  ghost function Gather(views: seq<View>): seq<byte>
    requires forall v :: v in views ==> v.off + v.len <= v.base.Length
    reads set v | v in views :: v.base
  {
    if views == [] then []
    else
      var v := views[|views| - 1];
      Gather(views[..|views| - 1]) + v.base[v.off..v.off + v.len]
  }

  lemma GatherLast(views: seq<View>)
    requires views != [] && forall v :: v in views ==> v.off + v.len <= v.base.Length
    ensures
      var front, v := views[..|views| - 1], views[|views| - 1];
      && Total(views) == Total(front) + v.len
      && Gather(views) == Gather(front) + v.base[v.off..v.off + v.len]
      && (front == [] ==> Gather(front) == [] && Total(front) == 0)
  {
  }

  /** memcpy of src to dst + off. */
  method CopyIn(dst: array<byte>, off: nat, src: seq<byte>)
    requires off + |src| <= dst.Length
    modifies dst
    ensures dst[..] == Splice(old(dst[..]), off, src)
  {
    ghost var before := dst[..];
    for i := 0 to |src|
      invariant dst[..] == Splice(before, off, src[..i])
    {
      dst[off + i] := src[i];
      assert dst[..] == Splice(before, off, src[..i + 1]);
    }
    assert src[..|src|] == src;
  }

  method LinkLast(ghost nodes: seq<Node>, last: Node, node: Node)
    requires nodes != [] && last == nodes[|nodes| - 1] && Chain(nodes, node.size)
    requires node.next == null && node.ptr.Length == node.size
    requires forall i :: 0 <= i < |nodes| ==> nodes[i] != node && nodes[i].ptr != node.ptr
    modifies last`next
    ensures Chain(nodes + [node], node.size)
  {
    DistinctAppend(nodes, node);
    ghost var longer := nodes + [node];
    assert longer[|nodes| - 1] == last && longer[|nodes|] == node;
    assert forall i :: 0 <= i < |nodes| ==> longer[i] == nodes[i];
    last.next := node;
    forall i | 0 <= i < |longer|
      ensures longer[i].next == Follower(longer, i)
    {
      assert i < |nodes| - 1 ==> nodes[i] != last;
    }
  }

  class ByteArray {
    const baseSize: nat
    const host: Order
    var position: nat
    var capacity: nat
    var size: nat
    var order: Order
    var root: Node
    var cur: Node?
    ghost var nodes: seq<Node>
    ghost var repr: set<object>

    ghost function Buffers(): set<array<byte>>
      reads this
    {
      set n | n in nodes :: n.ptr
    }

    /** The list from root on is nodes. */
    ghost predicate Linked()
      reads this, nodes
    {
      && baseSize > 0
      && nodes != [] && root == nodes[0]
      && Chain(nodes, baseSize) && Owned(nodes, repr) && this !in repr
      && capacity == Cells(|nodes|, baseSize)
    }

    ghost predicate Valid()
      reads this, nodes
    {
      Linked() && position <= size <= capacity && cur == NodeAt(nodes, position, baseSize)
    }

    ghost function Data(): seq<byte>
      reads this, nodes, Buffers()
    {
      DataOf(nodes)
    }

    /** The buffer as one flat byte string with a cursor. */
    ghost function Abs(): Flat
      reads this, nodes, Buffers()
    {
      Flat(Data(), position, size)
    }

    lemma DataLength()
      requires Linked()
      ensures |Data()| == capacity
    {
      ConcatLength(Contents(nodes), baseSize);
    }

    lemma ValidAbs()
      requires Valid()
      ensures Abs().Valid() && |Abs().data| == capacity
    {
      DataLength();
    }

    /** The cursor is null exactly at capacity, else in the node of its position. */
    lemma CursorNode()
      requires Valid()
      ensures cur == null <==> position == capacity
      ensures cur != null ==>
                var k := BlockOf(position, baseSize);
                && k < |nodes| && cur == nodes[k] && cur.size == baseSize
                && position == Cells(k, baseSize) + position % baseSize && 0 <= position % baseSize < baseSize
    {
      if position < capacity {
        DivBelow(position, |nodes|, baseSize);
      } else {
        DivMod(|nodes|, 0, baseSize);
      }
    }

    constructor (base: nat, host: Order)
      requires base > 0
      ensures Valid() && fresh(repr)
      ensures baseSize == base && this.host == host && order == Big
      ensures position == size == 0 && capacity == base
    {
      var node := new Node(base);
      baseSize, this.host := base, host;
      position, capacity, size, order := 0, base, 0, Big;
      root, cur, nodes, repr := node, node, [node], {node, node.ptr};
    }

    /** Wraps memory of the caller's: all of it counts as written. */
    constructor FromData(data: array<byte>, host: Order)
      requires data.Length > 0
      ensures Valid() && fresh(repr - {data})
      ensures baseSize == data.Length && this.host == host && order == Big
      ensures Abs() == Flat(data[..], 0, data.Length)
    {
      var node := new Node.Around(data);
      baseSize, this.host := data.Length, host;
      position, capacity, size, order := 0, data.Length, data.Length, Big;
      root, cur, nodes, repr := node, node, [node], {node, node.ptr};
      new;
      assert Contents(nodes) == [data[..]];
      assert Concat([data[..]]) == data[..] + Concat([]) == data[..];
    }

    method SetIsLittleEndian(v: bool)
      requires Valid()
      modifies this`order
      ensures Valid() && Abs() == old(Abs())
      ensures order == if v then Little else Big
    {
      order := if v then Little else Big;
    }

    method Clear()
      requires Valid()
      modifies this`position, this`size, this`capacity, this`cur, this`nodes, root`next
      ensures Valid() && nodes == [root] && root == old(root)
      ensures position == size == 0 && capacity == baseSize
      ensures baseSize <= |old(Data())| && Data() == old(Data())[..baseSize]
    {
      assert root.size == root.ptr.Length == baseSize;
      hide Concat, Cells, Chain, BlockOf;
      FirstBlock();
      position, size, capacity := 0, 0, baseSize;
      root.next := null;
      cur := root;
      nodes := [root];
      CellsSucc(0, baseSize);
      DivMod(0, 0, baseSize);
      ChainOfOne(root, baseSize);
    }

    lemma FirstBlock()
      requires Linked()
      ensures |Data()| >= baseSize && DataOf([root]) == Data()[..baseSize]
    {
      assert Concat([root.ptr[..]]) == root.ptr[..] + Concat([]);
      assert Contents([root]) == [root.ptr[..]];
    }

    method SetPosition(v: nat) returns (ok: bool)
      requires Valid()
      modifies this`position, this`size, this`cur
      ensures ok <==> v <= capacity
      ensures Valid() && Data() == old(Data())
      ensures ok ==> position == v && size == Max(old(size), v)
      ensures !ok ==> position == old(position) && size == old(size) && cur == old(cur)
    {
      hide DataOf, Cells, Chain, NodeAt;
      if v > capacity {
        return false;
      }
      position := v;
      if position > size {
        size := position;
      }
      cur := Locate(v);
      return true;
    }

    /** The walk of setPosition from the root to the node of a position. */
    method Locate(v: nat) returns (node: Node?)
      requires Linked() && v <= capacity
      ensures node == NodeAt(nodes, v, baseSize)
    {
      hide DataOf, Cells, BlockOf;
      var w, n := v, root;
      ghost var k: nat := 0;
      CellsSucc(0, baseSize);
      while w > n.size
        invariant k < |nodes| && n == nodes[k] && 0 <= w
        invariant v == Cells(k, baseSize) + w
        decreases w
      {
        NextBlock(k, w, |nodes|, baseSize);
        w, n := w - n.size, n.next;
        k := k + 1;
      }
      if w == n.size {
        NextBlock(k, w, |nodes|, baseSize);
        DivMod(k + 1, 0, baseSize);
        return n.next;
      }
      DivMod(k, w, baseSize);
      return n;
    }

    /** The walk of addCapacity to the end of the list. */
    method Last() returns (node: Node)
      requires Linked()
      ensures node == nodes[|nodes| - 1]
    {
      hide DataOf, Cells, BlockOf;
      node := root;
      ghost var t := 0;
      while node.next != null
        invariant 0 <= t < |nodes| && node == nodes[t]
        decreases |nodes| - t
      {
        node := node.next;
        t := t + 1;
      }
    }

    method Append(last: Node) returns (node: Node)
      requires Linked() && last == nodes[|nodes| - 1]
      modifies this`capacity, this`nodes, this`repr, last`next
      ensures Linked() && nodes == old(nodes) + [node] && fresh(node) && fresh(node.ptr)
      ensures repr == old(repr) + {node, node.ptr}
      ensures capacity == old(capacity) + baseSize
    {
      hide DataOf, Cells, BlockOf, Chain, Separate;
      node := new Node(baseSize);
      LinkLast(nodes, last, node);
      CellsSucc(|nodes|, baseSize);
      capacity := capacity + baseSize;
      nodes := nodes + [node];
      repr := repr + {node, node.ptr};
    }

    method AppendAll(count: nat) returns (first: Node?)
      requires Linked()
      modifies this`capacity, this`nodes, this`repr, nodes
      ensures Linked() && fresh(repr - old(repr)) && |nodes| == |old(nodes)| + count
      ensures old(nodes) <= nodes && fresh(nodes[|old(nodes)|..])
      ensures forall j :: |old(nodes)| <= j < |nodes| ==> fresh(nodes[j].ptr)
      ensures first == if count == 0 then null else nodes[|old(nodes)|]
    {
      hide DataOf, Cells, BlockOf, Chain;
      var tmp := Last();
      first := null;
      ghost var m := |nodes|;
      for i := 0 to count
        invariant Linked() && |nodes| == m + i && fresh(repr - old(repr))
        invariant tmp == nodes[|nodes| - 1]
        invariant old(nodes) <= nodes && fresh(nodes[m..])
        invariant forall j :: m <= j < |nodes| ==> fresh(nodes[j].ptr)
        invariant first == if i == 0 then null else nodes[m]
      {
        tmp := Append(tmp);
        if first == null {
          first := tmp;
        }
      }
    }

    /** Room for n more bytes behind the cursor. */
    method AddCapacity(n: nat)
      requires Valid()
      modifies this`capacity, this`cur, this`nodes, this`repr, nodes
      ensures Valid() && fresh(repr - old(repr))
      ensures Grown(old(capacity), capacity, position + n, baseSize)
      ensures |old(Data())| <= |Data()| && Data()[..|old(Data())|] == old(Data())
    {
      hide DataOf, Cells, BlockOf, Chain;
      var oldCap := capacity - position;
      if n == 0 || oldCap >= n {
        DataLength();
        return;
      }
      CursorNode();
      var missing := n - oldCap;
      var count := (missing + baseSize - 1) / baseSize;
      RoundUp(missing, baseSize);
      ghost var m := |nodes|;
      var first := AppendAll(count);
      CellsSum(m, count, baseSize);
      if oldCap == 0 {
        cur := first;
        DivMod(m, 0, baseSize);
      }
      DataPrefix(old(nodes), nodes);
    }

    /** The node and offset of a position short of the capacity. */
    ghost predicate Inside(k: nat, node: Node?, p: nat, off: nat)
      requires baseSize > 0
      reads this
    {
      k < |nodes| && node == nodes[k] && p == Cells(k, baseSize) + off && off < baseSize
    }

    /** Moving n bytes on within a node, and past its end when it is used up. */
    lemma Advance(k: nat, node: Node, p: nat, off: nat, n: nat)
      requires Linked() && Inside(k, node, p, off) && off + n <= baseSize
      ensures node.size == node.ptr.Length == baseSize
      ensures off + n < baseSize ==> NodeAt(nodes, p + n, baseSize) == node
      ensures off + n == baseSize ==> NodeAt(nodes, p + n, baseSize) == node.next
      ensures off + n == baseSize && p + n < capacity ==>
                Inside(k + 1, node.next, p + n, 0) && node.next.size == baseSize
    {
      hide Concat, Separate;
      CellsSucc(k, baseSize);
      if off + n < baseSize {
        DivMod(k, off + n, baseSize);
      } else {
        DivMod(k + 1, 0, baseSize);
        if p + n < capacity {
          DivBelow(p + n, |nodes|, baseSize);
        }
      }
    }

    /** memcpy into the memory of a node, seen in the whole. */
    method Store(ghost k: nat, dst: array<byte>, ghost p: nat, off: nat, src: seq<byte>)
      requires Linked() && k < |nodes| && Inside(k, nodes[k], p, off) && off + |src| <= baseSize
      requires dst == nodes[k].ptr
      modifies dst
      ensures p + |src| <= |old(DataOf(nodes))| && DataOf(nodes) == Splice(old(DataOf(nodes)), p, src)
    {
      hide Concat, Cells, Owned, Splice;
      ghost var before := Contents(nodes);
      BlockSplice(before, k, baseSize, off, src);
      CopyIn(dst, off, src);
      forall i | 0 <= i < |nodes|
        ensures Contents(nodes)[i] == before[k := Splice(before[k], off, src)][i]
      {
        assert i < k ==> nodes[i].ptr != nodes[k].ptr;
      }
      assert Contents(nodes) == before[k := Splice(before[k], off, src)];
    }

    /** One memcpy of a longer one: n more bytes of buf behind the first done. */
    method StoreNext(ghost k: nat, dst: array<byte>, ghost p0: nat, off: nat, buf: seq<byte>, done: nat, n: nat,
                     ghost before: seq<byte>)
      requires done + n <= |buf| && p0 + |buf| <= |before|
      requires Linked() && k < |nodes| && Inside(k, nodes[k], p0 + done, off) && off + n <= baseSize
      requires dst == nodes[k].ptr
      requires DataOf(nodes) == Splice(before, p0, buf[..done])
      modifies dst
      ensures DataOf(nodes) == Splice(before, p0, buf[..done + n])
    {
      hide DataOf, Cells, Chain, Splice;
      Store(k, dst, p0 + done, off, buf[done..done + n]);
      SpliceTwice(before, p0, buf[..done], buf[done..done + n]);
      assert buf[..done] + buf[done..done + n] == buf[..done + n];
    }

    /** Part of a node, seen in the whole. */
    lemma Fetch(k: nat, node: Node, p: nat, off: nat, n: nat)
      requires Linked() && Inside(k, node, p, off) && off + n <= baseSize
      ensures node.ptr.Length == baseSize && p + n <= |DataOf(nodes)|
      ensures node.ptr[off..off + n] == DataOf(nodes)[p..p + n]
    {
      hide Concat, Cells, Separate, Owned;
      BlockSlice(Contents(nodes), k, baseSize, off, n);
      assert Contents(nodes)[k][off..off + n] == node.ptr[off..off + n];
    }

    method Write(buf: seq<byte>)
      requires Valid()
      modifies this`position, this`size, this`capacity, this`cur, this`nodes, this`repr, repr
      ensures Valid() && fresh(repr - old(repr))
      ensures Wrote(old(Abs()), Abs(), buf, baseSize)
    {
      hide DataOf, Cells, BlockOf, Chain, Wrote;
      ValidAbs();
      if |buf| == 0 {
        WroteNothing(Abs(), baseSize);
        assert buf == [];
        return;
      }
      AddCapacity(|buf|);
      ghost var start := Abs();
      ValidAbs();
      CopyAll(buf);
      if position > size {
        size := position;
      }
      WroteGrown(old(Abs()), start, Abs(), buf, baseSize);
    }

    /** The copying loop of write, with room for all of buf. */
    method CopyAll(buf: seq<byte>)
      requires Valid() && position + |buf| <= capacity && buf != []
      modifies this`position, this`cur, Buffers()
      ensures Linked() && position == old(position) + |buf|
      ensures cur == NodeAt(nodes, position, baseSize)
      ensures old(position) + |buf| <= |old(Data())| && Data() == Splice(old(Data()), old(position), buf)
    {
      hide DataOf, Cells, BlockOf, Chain, Owned, Splice, NodeAt;
      CursorNode();
      DataLength();
      ghost var k, before, p0 := BlockOf(position, baseSize), Data(), position;
      var len: nat := |buf|;
      var npos: nat := position % baseSize;
      var ncap := cur.size - npos;
      var bpos: nat := 0;
      SpliceNothing(before, p0);
      assert buf[..0] == [];
      while len > 0
        invariant len + bpos == |buf| && position == p0 + bpos
        invariant DataOf(nodes) == Splice(before, p0, buf[..bpos])
        invariant len > 0 ==> Inside(k, cur, position, npos) && ncap == baseSize - npos
        invariant len == 0 ==> cur == NodeAt(nodes, position, baseSize)
      {
        var n := if ncap >= len then len else ncap;
        var node := cur;
        Advance(k, node, position, npos, n);
        StoreNext(k, node.ptr, p0, npos, buf, bpos, n, before);
        position, bpos := position + n, bpos + n;
        if ncap >= len {
          if node.size == npos + len {
            cur := node.next;
          }
          len := 0;
        } else {
          len := len - ncap;
          cur := node.next;
          k := k + 1;
          ncap := cur.size;
          npos := 0;
        }
      }
      assert buf[..|buf|] == buf;
    }

    method Read(n: nat) returns (r: Read<seq<byte>>)
      requires Valid()
      modifies this`position, this`cur
      ensures Valid() && Data() == old(Data())
      ensures old(Abs()).Valid() && r == ReadBytes(old(Abs()), n) && position == r.position
    {
      hide DataOf, Cells, BlockOf, Chain;
      ValidAbs();
      CursorNode();
      if n > size - position {
        return OutOfRange(position);
      }
      if cur == null {
        return NullCursor(position);
      }
      var buf := TakeAll(n);
      return Got(buf, position);
    }

    /** The copying loop of read, with n bytes behind the cursor. */
    method TakeAll(n: nat) returns (buf: seq<byte>)
      requires Valid() && position + n <= capacity && cur != null
      modifies this`position, this`cur
      ensures Linked() && position == old(position) + n
      ensures cur == NodeAt(nodes, position, baseSize)
      ensures position <= |Data()| && buf == Data()[old(position)..position]
    {
      hide DataOf, Cells, BlockOf, Chain, Owned, NodeAt;
      CursorNode();
      DataLength();
      ghost var k, p0 := BlockOf(position, baseSize), position;
      var len: nat := n;
      var npos: nat := position % baseSize;
      var ncap := cur.size - npos;
      buf := [];
      while len > 0
        invariant position + len == p0 + n
        invariant p0 <= position && buf == DataOf(nodes)[p0..position]
        invariant len > 0 ==> Inside(k, cur, position, npos) && ncap == baseSize - npos
        invariant len == 0 ==> cur == NodeAt(nodes, position, baseSize)
      {
        var c := if ncap >= len then len else ncap;
        var node := cur;
        Advance(k, node, position, npos, c);
        Fetch(k, node, position, npos, c);
        SliceJoin(DataOf(nodes), p0, position, position + c);
        buf := buf + node.ptr[npos..npos + c];
        position := position + c;
        if ncap >= len {
          if node.size == npos + len {
            cur := node.next;
          }
          len := 0;
        } else {
          len := len - ncap;
          cur := node.next;
          k := k + 1;
          ncap := cur.size;
          npos := 0;
        }
      }
    }

    // ------------------------------------------------------------ scatter views

    /** The loop all three view collectors share: views of n bytes from a
        position inside a node on. Past the last node it follows a null pointer. */
    method Collect(start: Node?, ghost p: nat, off: nat, n: nat) returns (r: Views)
      requires Linked() && start == NodeAt(nodes, p, baseSize) && off == p % baseSize
      requires n > 0 && p < capacity
      ensures r.Shown? <==> p + n <= capacity
      ensures r.Shown? ==> Cover(nodes, baseSize, r.views, p) && Total(r.views) == n
    {
      hide DataOf, Cells, BlockOf, Chain, Owned, NodeAt, Cover;
      PositionInside(p);
      EndIsNull();
      ghost var k := BlockOf(p, baseSize);
      var cur, len: nat, npos: nat := start, n, off;
      var ncap := cur.size - npos;
      var views := [];
      CoverNothing(nodes, baseSize, p);
      while len > 0
        invariant Cover(nodes, baseSize, views, p) && Total(views) + len == n && p + Total(views) <= capacity
        invariant len > 0 ==> Inside(k, cur, p + Total(views), npos) && ncap == baseSize - npos
      {
        var c := if ncap >= len then len else ncap;
        var v := View(cur.ptr, npos, c);
        Advance(k, cur, p + Total(views), npos, c);
        InsideFits(k, cur, p + Total(views), npos, c);
        assert PieceOf(nodes, baseSize, v, p + Total(views), k);
        CoverAppend(nodes, baseSize, views, v, p);
        if ncap >= len {
          len := 0;
        } else {
          len := len - ncap;
          cur := cur.next;
          if cur == null {
            return NullNode;
          }
          k := k + 1;
          ncap := cur.size;
          npos := 0;
        }
        views := views + [v];
      }
      return Shown(views);
    }

    lemma EndIsNull()
      requires Linked()
      ensures NodeAt(nodes, capacity, baseSize) == null
    {
      DivMod(|nodes|, 0, baseSize);
    }

    lemma InsideFits(k: nat, node: Node, p: nat, off: nat, n: nat)
      requires Linked() && Inside(k, node, p, off) && off + n <= baseSize
      ensures p + n <= capacity
      ensures off + n == baseSize && node.next == null ==> p + n == capacity
    {
      hide DataOf, Owned, Separate;
      BlockFits(k, |nodes|, baseSize);
      CellsSucc(k, baseSize);
    }

    lemma PositionInside(p: nat)
      requires Linked() && p < capacity
      ensures
        var k := BlockOf(p, baseSize);
        Inside(k, NodeAt(nodes, p, baseSize), p, p % baseSize) && nodes[k].size == baseSize
    {
      DivBelow(p, |nodes|, baseSize);
    }

    /** Views that cover a stretch show what the flat string holds there. */
    lemma {:induction false} CoverGathers(views: seq<View>, p: nat)
      requires Linked() && Cover(nodes, baseSize, views, p)
      ensures forall v :: v in views ==> v.off + v.len <= v.base.Length
      ensures p + Total(views) <= |DataOf(nodes)| || views == []
      ensures views != [] ==> Gather(views) == DataOf(nodes)[p..p + Total(views)]
      decreases |views|
    {
      hide DataOf, Linked, Cover, PieceAt, Gather, Total;
      if views != [] {
        var front, v := views[..|views| - 1], views[|views| - 1];
        CoverFront(nodes, baseSize, views, p);
        CoverGathers(front, p);
        var q := p + Total(front);
        PieceShows(v, q);
        SliceJoin(DataOf(nodes), p, q, q + v.len);
        assert views == front + [v];
        GatherLast(views);
      }
    }

    lemma PieceShows(v: View, q: nat)
      requires Linked() && PieceAt(nodes, baseSize, v, q)
      ensures v.off + v.len <= v.base.Length && q + v.len <= |DataOf(nodes)|
      ensures v.base[v.off..v.off + v.len] == DataOf(nodes)[q..q + v.len]
    {
      hide DataOf, Cells, Owned;
      var k: nat :| PieceOf(nodes, baseSize, v, q, k);
      Fetch(k, nodes[k], q, v.off, v.len);
    }

    /** getReadBuffers(buffers, len). */
    method GetReadBuffers(n: nat) returns (views: seq<View>)
      requires Valid()
      ensures
        var len := if n > size - position then size - position else n;
        && (forall v :: v in views ==> v.off + v.len <= v.base.Length)
        && position + len <= |Data()|
        && Total(views) == len && Gather(views) == Data()[position..position + len]
    {
      hide Cells, BlockOf, Chain, Owned, NodeAt, DataOf, Cover, PieceAt;
      DataLength();
      var len := if n > size - position then size - position else n;
      if len == 0 {
        return [];
      }
      var r := Collect(cur, position, position % baseSize, len);
      views := r.views;
      CoverGathers(views, position);
    }

    /** getReadBuffers(buffers, len, position). A position beyond the size makes
        the unsigned difference wrap around, so that whatever was asked for is
        shown, as far as there are nodes. */
    method GetReadBuffersAt(n: nat, p: nat) returns (r: Views)
      requires Valid() && n < Modulus(B64) && p < Modulus(B64) && size < Modulus(B64)
      ensures
        var len := ShownLength(n, size, p);
        && (r.Shown? <==> len == 0 || p + len <= capacity)
        && (len == 0 ==> r == Shown([]))
        && (r.Shown? && len > 0 ==> Shows(r.views, p, len))
      ensures p <= size ==> r.Shown? && ShownLength(n, size, p) == if n > size - p then size - p else n
    {
      hide DataOf, Cells, BlockOf, Chain, Owned, NodeAt, ShownLength, Shows;
      ShownWithin(n, size, p);
      var len := ShownLength(n, size, p);
      if len == 0 {
        return Shown([]);
      }
      r := ViewsAt(p, len);
    }

    /** The views together are len bytes of the flat string from p on. */
    ghost predicate Shows(views: seq<View>, p: nat, len: nat)
      reads this, nodes, set i | 0 <= i < |nodes| :: nodes[i].ptr, set v | v in views :: v.base
    {
      && (forall v :: v in views ==> v.off + v.len <= v.base.Length)
      && p + len <= |DataOf(nodes)| && Total(views) == len && Gather(views) == DataOf(nodes)[p..p + len]
    }

    method ViewsAt(p: nat, len: nat) returns (r: Views)
      requires Linked() && len > 0
      ensures r.Shown? <==> p + len <= capacity
      ensures r.Shown? ==> Shows(r.views, p, len)
    {
      hide DataOf, Cells, BlockOf, Chain, Owned, NodeAt, Cover, PieceAt, Gather;
      var node := Skip(p);
      if node == null {
        return NullNode;
      }
      r := Collect(node, p, p % baseSize, len);
      if r.Shown? {
        CoverGathers(r.views, p);
      }
    }

    /** The walk over position / m_baseSize nodes, as far as there are any. */
    method Skip(p: nat) returns (node: Node?)
      requires Linked()
      ensures node == NodeAt(nodes, p, baseSize)
      ensures node == null <==> capacity <= p
    {
      hide DataOf, Cells, Owned, Separate;
      BlockBelow(p, |nodes|, baseSize);
      var count := p / baseSize;
      node := root;
      ghost var t := 0;
      while count > 0
        invariant 0 <= t <= |nodes| && 0 <= count && t + count == BlockOf(p, baseSize)
        invariant node == if t < |nodes| then nodes[t] else null
      {
        if node == null {
          return;
        }
        node := node.next;
        t, count := t + 1, count - 1;
      }
    }

    /** getWriteBuffers: room for n bytes, shown as views; nothing is written. */
    method GetWriteBuffers(n: nat) returns (views: seq<View>)
      requires Valid()
      modifies this`capacity, this`cur, this`nodes, this`repr, nodes
      ensures Valid() && fresh(repr - old(repr))
      ensures Grown(old(capacity), capacity, position + n, baseSize)
      ensures |old(Data())| <= |Data()| && Data()[..|old(Data())|] == old(Data())
      ensures Cover(nodes, baseSize, views, position) && Total(views) == n
    {
      hide DataOf, Cells, BlockOf, Chain, Owned, NodeAt, Cover;
      if n == 0 {
        DataLength();
        CoverNothing(nodes, baseSize, position);
        return [];
      }
      AddCapacity(n);
      var r := Collect(cur, position, position % baseSize, n);
      views := r.views;
    }

    method StoreView(v: View, ghost p: nat, d: seq<byte>, done: nat, ghost before: seq<byte>)
      requires done + v.len <= |d| && p + |d| <= |before|
      requires Linked() && PieceAt(nodes, baseSize, v, p + done)
      requires DataOf(nodes) == Splice(before, p, d[..done])
      modifies v.base
      ensures DataOf(nodes) == Splice(before, p, d[..done + v.len])
    {
      hide DataOf, Cells, Chain, Owned, Splice;
      ghost var k: nat :| PieceOf(nodes, baseSize, v, p + done, k);
      StoreNext(k, v.base, p, v.off, d, done, v.len, before);
    }

    lemma PieceOwned(v: View, q: nat)
      requires PieceAt(nodes, baseSize, v, q)
      ensures v.base in Buffers()
    {
    }

    /** What readv does with the views: fills them with d in order. */
    method Fill(views: seq<View>, d: seq<byte>, ghost p: nat)
      requires Valid() && Cover(nodes, baseSize, views, p) && Total(views) == |d| && p + |d| <= capacity
      modifies Buffers()
      ensures Valid() && p + |d| <= |old(Data())|
      ensures Data() == Splice(old(Data()), p, d)
    {
      hide DataOf, Cells, BlockOf, Chain, Owned, Splice, NodeAt, PieceAt, Total;
      DataLength();
      ghost var before := Data();
      var done: nat := 0;
      TotalMonotone(views, 0);
      SpliceNothing(before, p);
      assert d[..0] == [];
      for i := 0 to |views|
        invariant done == Total(views[..i]) <= |d|
        invariant DataOf(nodes) == Splice(before, p, d[..done])
      {
        var v := views[i];
        TotalPrefix(views, i);
        PieceOwned(v, p + done);
        StoreView(v, p, d, done, before);
        done := done + v.len;
      }
      assert views[..|views|] == views && d[..|d|] == d;
    }

    /** Filling the write views with d and moving the cursor past them is
        writing d. */
    method WriteThroughViews(d: seq<byte>)
      requires Valid()
      modifies this`position, this`size, this`capacity, this`cur, this`nodes, this`repr, repr
      ensures Valid() && fresh(repr - old(repr))
      ensures Wrote(old(Abs()), Abs(), d, baseSize)
    {
      hide DataOf, Cells, BlockOf, Chain, Wrote, Cover, Splice;
      ValidAbs();
      var views := GetWriteBuffers(|d|);
      ghost var start := Abs();
      ValidAbs();
      Fill(views, d, position);
      ValidAbs();
      var ok := SetPosition(position + |d|);
      WroteGrown(old(Abs()), start, Abs(), d, baseSize);
    }

    /** toString: the positional read from the current node on. */
    method ToString() returns (s: seq<byte>)
      requires Valid()
      ensures size <= |Data()| && s == Data()[position..size]
    {
      hide DataOf, Cells, BlockOf, Chain, Owned, NodeAt;
      DataLength();
      CursorNode();
      var len: nat := size - position;
      s := [];
      if len == 0 {
        return;
      }
      ghost var k, p := BlockOf(position, baseSize), position;
      var node: Node? := cur;
      var npos: nat := position % baseSize;
      var ncap := node.size - npos;
      while len > 0
        invariant p + len == size && position <= p && s == DataOf(nodes)[position..p]
        invariant len > 0 ==> Inside(k, node, p, npos) && ncap == baseSize - npos
      {
        var c := if ncap >= len then len else ncap;
        Advance(k, node, p, npos, c);
        Fetch(k, node, p, npos, c);
        SliceJoin(DataOf(nodes), position, p, p + c);
        s := s + node.ptr[npos..npos + c];
        p := p + c;
        if ncap >= len {
          len := 0;
        } else {
          len := len - ncap;
          node := node.next;
          k := k + 1;
          ncap := node.size;
          npos := 0;
        }
      }
    }

    // ---------------------------------------------------------- typed writers

    /** writeFuint8 to writeFuint64; the signed ones write the same word. */
    method WriteWord(v: nat, w: Width)
      requires Valid() && v < Pow256(w)
      modifies this`position, this`size, this`capacity, this`cur, this`nodes, this`repr, repr
      ensures Valid() && fresh(repr - old(repr)) && Wrote(old(Abs()), Abs(), InMemory(v, w, order), baseSize)
      ensures StandsAt(Data(), old(position), v, w, order)
    {
      var x := v;
      if order != host {
        x := ByteSwap(x, w);
      }
      SwapGivesWireOrder(v, w, order, host);
      hide DataOf, Chain, Owned, Wrote, InMemory, Pow256, StandsAt;
      ValidAbs();
      Write(InMemory(x, w, host));
      WordAt(old(Abs()), Abs(), v, w, order, baseSize);
    }

    /** writeUint32 and writeUint64. */
    method WriteVarint(v: nat, b: Bits)
      requires Valid() && v < Modulus(b)
      modifies this`position, this`size, this`capacity, this`cur, this`nodes, this`repr, repr
      ensures Valid() && fresh(repr - old(repr)) && Wrote(old(Abs()), Abs(), Varint.Encode(v), baseSize)
    {
      hide DataOf, Chain, Owned, Wrote;
      var tmp := VarintBytes(v, b);
      Write(tmp);
    }

    /** writeInt32 and writeInt64. */
    method WriteZigzag(v: int, b: Bits)
      requires Valid() && SignedRange(v, Modulus(b))
      modifies this`position, this`size, this`capacity, this`cur, this`nodes, this`repr, repr
      ensures Valid() && fresh(repr - old(repr))
      ensures Wrote(old(Abs()), Abs(), Varint.Encode(Varint.EncodeZigzag(v, b)), baseSize)
    {
      hide DataOf, Chain, Owned, Wrote;
      WriteVarint(Varint.EncodeZigzag(v, b), b);
    }

    /** writeStringF16, F32 and F64: the prefix is the length cut to its width. */
    method WriteString(s: seq<byte>, w: Width)
      requires Valid()
      modifies this`position, this`size, this`capacity, this`cur, this`nodes, this`repr, repr
      ensures Valid() && fresh(repr - old(repr))
      ensures Wrote(old(Abs()), Abs(), InMemory(|s| % Pow256(w), w, order) + s, baseSize)
    {
      hide DataOf, Chain, Owned, Wrote, InMemory, Pow256;
      ValidAbs();
      WriteWord(|s| % Pow256(w), w);
      ghost var mid := Abs();
      Write(s);
      WroteThen(old(Abs()), mid, Abs(), InMemory(|s| % Pow256(w), w, order), s, baseSize);
    }

    method WriteStringVint(s: seq<byte>)
      requires Valid() && |s| < Modulus(B64)
      modifies this`position, this`size, this`capacity, this`cur, this`nodes, this`repr, repr
      ensures Valid() && fresh(repr - old(repr))
      ensures Wrote(old(Abs()), Abs(), Varint.Encode(|s|) + s, baseSize)
    {
      hide DataOf, Chain, Owned, Wrote;
      ValidAbs();
      WriteVarint(|s|, B64);
      ghost var mid := Abs();
      Write(s);
      WroteThen(old(Abs()), mid, Abs(), Varint.Encode(|s|), s, baseSize);
    }

    /** Sets the byte order an item asks for and calls the writer of its kind. */
    method WriteItem(i: Item)
      requires Valid() && Typed(i)
      modifies this`position, this`size, this`capacity, this`cur, this`nodes, this`repr, repr, this`order
      ensures Valid() && fresh(repr - old(repr)) && Wrote(old(Abs()), Abs(), Encode(i), baseSize)
    {
      hide DataOf, Chain, Owned, Wrote, InMemory, Pow256, Modulus, Varint.Encode, Varint.EncodeZigzag;
      match i.kind
      case FixedInt(w, _, o) =>
        SetIsLittleEndian(o.Little?);
        WriteWord(ToUnsigned(i.value.n, Pow256(w)), w);
      case PlainVarint(b) =>
        WriteVarint(i.value.n, b);
      case ZigzagVarint(b) =>
        WriteZigzag(i.value.n, b);
      case FixedString(w, o) =>
        SetIsLittleEndian(o.Little?);
        WriteString(i.value.s, w);
      case VintString =>
        WriteStringVint(i.value.s);
    }

    method WriteAll(items: seq<Item>)
      requires Valid() && AllTyped(items)
      modifies this`position, this`size, this`capacity, this`cur, this`nodes, this`repr, repr, this`order
      ensures Valid() && fresh(repr - old(repr)) && Wrote(old(Abs()), Abs(), EncodeAll(items), baseSize)
      decreases |items|
    {
      hide DataOf, Chain, Owned, Wrote, Encode, Typed;
      ValidAbs();
      if items == [] {
        WroteNothing(Abs(), baseSize);
        return;
      }
      WriteItem(items[0]);
      ghost var mid := Abs();
      WriteAll(items[1..]);
      WroteThen(old(Abs()), mid, Abs(), Encode(items[0]), EncodeAll(items[1..]), baseSize);
    }

    // ---------------------------------------------------------- typed readers

    method ReadWord(w: Width) returns (r: Read<nat>)
      requires Valid()
      modifies this`position, this`cur
      ensures Valid() && Data() == old(Data())
      ensures old(Abs()).Valid() && r == Wire.ReadWord(old(Abs()), w, order) && position == r.position
      ensures r.Got? ==> position == old(position) + w <= |Data()|
      ensures r.Got? ==> r.value == Weighed(Data()[old(position)..position], order, w)
    {
      hide DataOf, Chain, Owned, FromMemory, ByteSwap;
      var bs := Read(w);
      if !bs.Got? {
        return bs.PropagateFailure();
      }
      ReadGivesHostValue(bs.value, order, host);
      MemoryMeans(bs.value, order);
      var v := FromMemory(bs.value, host);
      if order != host {
        v := ByteSwap(v, w);
      }
      return Got(v, bs.position);
    }

    method ReadVarint(b: Bits) returns (r: Read<nat>)
      requires Valid()
      modifies this`position, this`cur
      ensures Valid() && Data() == old(Data())
      ensures old(Abs()).Valid() && r == Wire.ReadVarint(old(Abs()), b) && position == r.position
    {
      hide DataOf, Chain, Owned, Varint.MaxGroups, Modulus, ReadGroups, Finish;
      ValidAbs();
      var result: nat, scale: nat, left: nat := 0, 1, Varint.MaxGroups(b);
      FinishStart(old(Abs()), b);
      while left > 0
        invariant Valid() && Abs() == old(Abs()).At(position) && Abs().Valid() && result < Modulus(b)
        invariant Wire.ReadVarint(old(Abs()), b) == Finish(ReadGroups(Abs(), left), result, scale, Modulus(b))
      {
        FinishStep(Abs(), left, result, scale, Modulus(b));
        var bs := Read(1);
        if !bs.Got? {
          return bs.PropagateFailure();
        }
        ValidAbs();
        var val := bs.value[0];
        result := (result + scale * (val % 128)) % Modulus(b);
        if val < 128 {
          return Got(result, position);
        }
        scale, left := scale * 128, left - 1;
      }
      FinishEnd(Abs(), result, scale, Modulus(b));
      return Got(result, position);
    }

    method ReadText(n: nat) returns (r: Read<Value>)
      requires Valid()
      modifies this`position, this`cur
      ensures Valid() && Data() == old(Data())
      ensures old(Abs()).Valid() && r == Wire.ReadText(old(Abs()), n) && position == r.position
    {
      hide DataOf, Chain, Owned;
      var bs := Read(n);
      if !bs.Got? {
        return bs.PropagateFailure();
      }
      return Got(Text(bs.value), bs.position);
    }

    /** Sets the byte order a kind asks for and calls its reader. */
    method ReadItem(k: Kind) returns (r: Read<Value>)
      requires Valid()
      modifies this`position, this`cur, this`order
      ensures Valid() && Data() == old(Data())
      ensures old(Abs()).Valid() && r == Wire.ReadItem(old(Abs()), k) && position == r.position
    {
      hide DataOf, Chain, Owned, Wire.ReadWord, Wire.ReadVarint, Wire.ReadText;
      ValidAbs();
      if k.FixedInt? || k.FixedString? {
        SetIsLittleEndian(k.order.Little?);
      }
      if k.FixedInt? {
        var u := ReadWord(k.width);
        if !u.Got? {
          return u.PropagateFailure();
        }
        return Got(Number(if k.signed then ToSigned(u.value, Pow256(k.width)) else u.value), u.position);
      }
      if k.FixedString? {
        var n := ReadWord(k.width);
        if !n.Got? {
          return n.PropagateFailure();
        }
        r := ReadText(n.value);
        return;
      }
      var u := ReadVarint(if k.VintString? then B64 else k.bits);
      if !u.Got? {
        return u.PropagateFailure();
      }
      if k.VintString? {
        r := ReadText(u.value);
      } else {
        r := Got(Number(if k.PlainVarint? then u.value else Varint.DecodeZigzag(u.value, k.bits)), u.position);
      }
    }

    method ReadAll(kinds: seq<Kind>) returns (r: Read<seq<Value>>)
      requires Valid()
      modifies this`position, this`cur, this`order
      ensures Valid() && Data() == old(Data())
      ensures old(Abs()).Valid() && r == Wire.ReadAll(old(Abs()), kinds) && position == r.position
      decreases |kinds|
    {
      hide DataOf, Chain, Owned, Wire.ReadItem;
      ValidAbs();
      if kinds == [] {
        return Got([], position);
      }
      var v := ReadItem(kinds[0]);
      if !v.Got? {
        return v.PropagateFailure();
      }
      ghost var mid := Abs();
      var vs := ReadAll(kinds[1..]);
      if !vs.Got? {
        return vs;
      }
      return Got([v.value] + vs.value, vs.position);
    }
  }

  lemma EncodeMore(x: nat)
    requires x >= 128
    ensures Varint.Encode(x) == [x % 128 + 128] + Varint.Encode(x / 128)
  {
  }

  lemma EncodeLast(x: nat)
    requires x < 128
    ensures Varint.Encode(x) == [x]
  {
  }

  lemma SeqAssoc(a: seq<byte>, b: seq<byte>, c: seq<byte>)
    ensures a + b + c == a + (b + c)
  {
  }

  /** The loop of the varint writers: the bytes left in tmp[..i]. */
  method VarintBytes(v: nat, b: Bits) returns (bs: seq<byte>)
    requires v < Modulus(b)
    ensures bs == Varint.Encode(v)
  {
    hide Modulus, Varint.MaxGroups, Varint.Encode;
    Varint.EncodeFits(v, b);
    var tmp := new byte[Varint.MaxGroups(b)];
    var x, i := v, 0;
    while x >= 128
      invariant 0 <= i && i + |Varint.Encode(x)| <= tmp.Length
      invariant tmp[..i] + Varint.Encode(x) == Varint.Encode(v)
    {
      ghost var done := tmp[..i];
      tmp[i] := x % 128 + 128;
      EncodeMore(x);
      assert tmp[..i + 1] == done + [x % 128 + 128];
      SeqAssoc(done, [x % 128 + 128], Varint.Encode(x / 128));
      x, i := x / 128, i + 1;
    }
    ghost var done := tmp[..i];
    tmp[i] := x;
    assert tmp[..i + 1] == done + [x];
    EncodeLast(x);
    return tmp[..i + 1];
  }

  /** What a varint reader holding acc returns when the groups still to come,
      worth scale each, read as r. */
  function Finish(r: Read<nat>, acc: nat, scale: nat, m: nat): Read<nat>
    requires m > 0
  {
    if r.Got? then Got((acc + scale * r.value) % m, r.position) else r
  }

  lemma FinishStart(f: Flat, b: Bits)
    requires f.Valid()
    ensures Wire.ReadVarint(f, b) == Finish(ReadGroups(f, Varint.MaxGroups(b)), 0, 1, Modulus(b))
  {
  }

  lemma FinishEnd(f: Flat, acc: nat, scale: nat, m: nat)
    requires f.Valid() && m > 0 && acc < m
    ensures Finish(ReadGroups(f, 0), acc, scale, m) == Got(acc, f.position)
  {
  }

  lemma FinishStep(f: Flat, k: nat, acc: nat, scale: nat, m: nat)
    requires f.Valid() && k > 0 && m > 0
    ensures
      var bs := ReadBytes(f, 1);
      Finish(ReadGroups(f, k), acc, scale, m) ==
      if !bs.Got? then bs.PropagateFailure()
      else if bs.value[0] < 128 then Got((acc + scale * (bs.value[0] % 128)) % m, bs.position)
      else Finish(ReadGroups(f.At(bs.position), k - 1), (acc + scale * (bs.value[0] % 128)) % m, scale * 128, m)
  {
    var bs := ReadBytes(f, 1);
    if bs.Got? && bs.value[0] >= 128 {
      var rest := ReadGroups(f.At(bs.position), k - 1);
      if rest.Got? {
        Accumulate(acc, scale, bs.value[0] % 128, rest.value, m);
      }
    }
  }

  lemma Accumulate(acc: nat, scale: nat, d: nat, v: nat, m: nat)
    requires m > 0
    ensures (acc + scale * (d + 128 * v)) % m == ((acc + scale * d) % m + scale * 128 * v) % m
  {
    assert acc + scale * (d + 128 * v) == (acc + scale * d) + scale * 128 * v;
    ModAbsorb(acc + scale * d, scale * 128 * v, m);
  }

  lemma ModAbsorb(a: nat, b: nat, m: nat)
    requires m > 0
    ensures (a % m + b) % m == (a + b) % m
  {
    var q := a / m;
    assert a == m * q + a % m;
    ModMultiple(a % m + b, q, m);
  }

  lemma {:induction false} ModMultiple(x: nat, q: nat, m: nat)
    requires m > 0
    ensures (x + m * q) % m == x % m
    decreases q
  {
    if q > 0 {
      ModMultiple(x, q - 1, m);
      assert m * q == m * (q - 1) + m;
      ModPlus(x + m * (q - 1), m);
    }
  }

  lemma ModPlus(x: nat, m: nat)
    requires m > 0
    ensures (x + m) % m == x % m
  {
    var q, r := x / m, x % m;
    assert x + m == m * (q + 1) + r by { assert m * (q + 1) == m * q + m; }
    DivUnique(x + m, q + 1, r, m);
  }

  lemma DivUnique(x: nat, q: nat, r: nat, m: nat)
    requires m > 0 && r < m && x == m * q + r
    ensures x % m == r
  {
    Blocks.DivMod(q, r, m);
    assert Blocks.Cells(q, m) + r == x;
  }

  lemma CoverNothing(nodes: seq<Node>, base: nat, p: nat)
    ensures Cover(nodes, base, [], p)
  {
  }

  lemma TotalPrefix(views: seq<View>, i: nat)
    requires i < |views|
    ensures Total(views[..i + 1]) == Total(views[..i]) + views[i].len <= Total(views)
  {
    assert views[..i + 1][..i] == views[..i];
    TotalMonotone(views, i + 1);
  }

  lemma {:induction false} TotalMonotone(views: seq<View>, i: nat)
    requires i <= |views|
    ensures Total(views[..i]) <= Total(views) && Total(views[..0]) == 0
    decreases |views|
  {
    if i < |views| {
      var front := views[..|views| - 1];
      TotalMonotone(front, i);
      assert front[..i] == views[..i];
    } else {
      assert views[..i] == views;
    }
  }

  lemma SliceJoin(s: seq<byte>, a: nat, b: nat, c: nat)
    requires a <= b <= c <= |s|
    ensures s[a..b] + s[b..c] == s[a..c]
  {
  }

  lemma SpliceNothing(s: seq<byte>, p: nat)
    requires p <= |s|
    ensures Splice(s, p, []) == s
  {
  }

  lemma WroteNothing(f: Flat, base: nat)
    requires f.Valid()
    ensures Wrote(f, f, [], base)
  {
  }

  /** Growing and then splicing is writing. */
  lemma WroteGrown(f: Flat, start: Flat, g: Flat, buf: seq<byte>, base: nat)
    requires f.Valid() && start.position == f.position
    requires |f.data| <= |start.data| && start.data[..|f.data|] == f.data
    requires Grown(|f.data|, |start.data|, f.position + |buf|, base)
    requires g.data == Splice(start.data, f.position, buf)
    requires g.position == f.position + |buf| && g.size == Max(f.size, g.position)
    ensures Wrote(f, g, buf, base)
  {
    var p, end := f.position, f.position + |buf|;
    assert g.data[p..end] == buf;
    forall i | 0 <= i < |f.data| && !(p <= i < end)
      ensures g.data[i] == f.data[i]
    {
      assert start.data[i] == start.data[..|f.data|][i];
    }
  }

  /** Write any list of typed items at the cursor, rewind, read the same kinds. */
  method RoundTrip(b: ByteArray, items: seq<Item>) returns (r: Read<seq<Value>>)
    requires b.Valid() && AllTyped(items)
    modifies b, b.repr
    ensures b.Valid()
    ensures r == Got(Values(items), old(b.position) + |EncodeAll(items)|)
       <==> AllFit(items) && !TrailingNull(items, old(b.position) + |EncodeAll(items)|, b.capacity)
  {
    hide DataOf, Chain, Owned, EncodeAll, Typed, Wire.ReadAll, Fits;
    b.ValidAbs();
    var p := b.position;
    b.WriteAll(items);
    ghost var g := b.Abs();
    b.ValidAbs();
    WriteRewindRead(old(b.Abs()), g, items, b.baseSize);
    var ok := b.SetPosition(p);
    r := b.ReadAll(Kinds(items));
  }
}
