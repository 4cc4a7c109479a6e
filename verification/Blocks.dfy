/** Equal-sized blocks laid end to end, and overwriting a stretch of them. */
module Blocks {

  function Concat<T>(blocks: seq<seq<T>>): seq<T> {
    if blocks == [] then [] else blocks[0] + Concat(blocks[1..])
  }

  predicate Uniform<T>(blocks: seq<seq<T>>, b: nat) {
    forall i :: 0 <= i < |blocks| ==> |blocks[i]| == b
  }

  /** s with t written over it from off on. */
  function Splice<T>(s: seq<T>, off: nat, t: seq<T>): (r: seq<T>)
    requires off + |t| <= |s|
    ensures |r| == |s|
  {
    s[..off] + t + s[off + |t|..]
  }

  /** How many cells n blocks have. */
  function Cells(n: nat, b: nat): nat {
    n * b
  }

  lemma CellsSucc(n: nat, b: nat)
    ensures Cells(n + 1, b) == Cells(n, b) + b
    ensures Cells(0, b) == 0
  {
  }

  lemma CellsSum(m: nat, n: nat, b: nat)
    ensures Cells(m + n, b) == Cells(m, b) + Cells(n, b)
  {
  }

  lemma {:induction false} ConcatLength<T>(blocks: seq<seq<T>>, b: nat)
    requires Uniform(blocks, b)
    ensures |Concat(blocks)| == Cells(|blocks|, b)
  {
    if blocks != [] {
      ConcatLength(blocks[1..], b);
      CellsSucc(|blocks| - 1, b);
    }
  }

  lemma {:induction false} ConcatAppend<T>(xs: seq<seq<T>>, ys: seq<seq<T>>)
    ensures Concat(xs + ys) == Concat(xs) + Concat(ys)
  {
    if xs == [] {
      assert xs + ys == ys;
    } else {
      ConcatAppend(xs[1..], ys);
      assert (xs + ys)[1..] == xs[1..] + ys;
      Associative(xs[0], Concat(xs[1..]), Concat(ys));
    }
  }

  lemma Associative<T>(a: seq<T>, b: seq<T>, c: seq<T>)
    ensures a + (b + c) == a + b + c
  {
  }

  /** Block k occupies the stretch from k * b on. */
  lemma ConcatAround<T>(blocks: seq<seq<T>>, k: nat, b: nat)
    requires Uniform(blocks, b) && k < |blocks|
    ensures |Concat(blocks[..k])| == Cells(k, b)
    ensures Concat(blocks) == Concat(blocks[..k]) + blocks[k] + Concat(blocks[k + 1..])
  {
    ConcatLength(blocks[..k], b);
    assert blocks == blocks[..k] + blocks[k..];
    ConcatAppend(blocks[..k], blocks[k..]);
  }

  lemma BlockFits(k: nat, n: nat, b: nat)
    requires k < n
    ensures Cells(k, b) + b <= Cells(n, b)
  {
    assert Cells(n, b) == Cells(k, b) + b + Cells(n - k - 1, b);
  }

  /** The part of a block from off on is that part of the whole. */
  lemma BlockSlice<T>(blocks: seq<seq<T>>, k: nat, b: nat, off: nat, n: nat)
    requires Uniform(blocks, b) && k < |blocks| && off + n <= b
    ensures Cells(k, b) + off + n <= |Concat(blocks)|
    ensures blocks[k][off..off + n] == Concat(blocks)[Cells(k, b) + off..Cells(k, b) + off + n]
  {
    hide Concat, Cells;
    ConcatAround(blocks, k, b);
    SliceInMiddle(Concat(blocks[..k]), blocks[k], Concat(blocks[k + 1..]), off, n);
  }

  lemma SliceInMiddle<T>(x: seq<T>, y: seq<T>, z: seq<T>, off: nat, n: nat)
    requires off + n <= |y|
    ensures (x + y + z)[|x| + off..|x| + off + n] == y[off..off + n]
  {
  }

  lemma SpliceInMiddle<T>(x: seq<T>, y: seq<T>, z: seq<T>, off: nat, t: seq<T>)
    requires off + |t| <= |y|
    ensures x + Splice(y, off, t) + z == Splice(x + y + z, |x| + off, t)
  {
  }

  /** Writing into one block writes into the whole. */
  lemma BlockSplice<T>(blocks: seq<seq<T>>, k: nat, b: nat, off: nat, t: seq<T>)
    requires Uniform(blocks, b) && k < |blocks| && off + |t| <= b
    ensures Cells(k, b) + off + |t| <= |Concat(blocks)|
    ensures Concat(blocks[k := Splice(blocks[k], off, t)]) == Splice(Concat(blocks), Cells(k, b) + off, t)
  {
    hide Concat, Splice, Cells;
    var x, z := Concat(blocks[..k]), Concat(blocks[k + 1..]);
    ConcatAround(blocks, k, b);
    var changed := blocks[k := Splice(blocks[k], off, t)];
    ConcatAround(changed, k, b);
    assert changed[..k] == blocks[..k] && changed[k + 1..] == blocks[k + 1..];
    SpliceInMiddle(x, blocks[k], z, off, t);
  }

  /** Two adjacent writes are one. */
  lemma SpliceTwice<T>(s: seq<T>, p: nat, t: seq<T>, u: seq<T>)
    requires p + |t| + |u| <= |s|
    ensures Splice(Splice(s, p, t), p + |t|, u) == Splice(s, p, t + u)
  {
    var l, r := Splice(Splice(s, p, t), p + |t|, u), Splice(s, p, t + u);
    assert forall i :: 0 <= i < |s| ==> l[i] == r[i];
  }

  /** The block a position lies in. */
  function BlockOf(p: nat, b: nat): nat
    requires b > 0
  {
    p / b
  }

  /** The quotient and remainder of a position are its block and offset. */
  lemma DivMod(k: nat, off: nat, b: nat)
    requires off < b
    ensures BlockOf(Cells(k, b) + off, b) == k && (Cells(k, b) + off) % b == off
  {
    var p := Cells(k, b) + off;
    assert p == Cells(p / b, b) + p % b;
    if p / b < k {
      BlockFits(p / b, k, b);
    } else if p / b > k {
      BlockFits(k, p / b, b);
    }
  }

  /** A position below n blocks lies in one of them. */
  lemma DivBelow(p: nat, n: nat, b: nat)
    requires b > 0 && p < Cells(n, b)
    ensures BlockOf(p, b) < n && p == Cells(BlockOf(p, b), b) + p % b
  {
    assert p == Cells(p / b, b) + p % b;
    if p / b > n {
      BlockFits(n, p / b, b);
    }
  }

  lemma BlockBelow(p: nat, n: nat, b: nat)
    requires b > 0
    ensures BlockOf(p, b) < n <==> p < Cells(n, b)
  {
    if p < Cells(n, b) {
      DivBelow(p, n, b);
    } else if p / b < n {
      assert p == Cells(p / b, b) + p % b;
      BlockFits(p / b, n, b);
    }
  }

  /** A walk of w beyond block k that does not end in it goes on. */
  lemma NextBlock(k: nat, w: nat, n: nat, b: nat)
    requires k < n && b <= w && Cells(k, b) + w <= Cells(n, b)
    ensures Cells(k + 1, b) + (w - b) == Cells(k, b) + w
    ensures w > b ==> k + 1 < n
  {
    CellsSucc(k, b);
  }

  /** Rounding up to whole blocks overshoots by less than one. */
  lemma RoundUp(m: nat, b: nat)
    requires b > 0
    ensures m <= Cells((m + b - 1) / b, b) < m + b
  {
    var q := (m + b - 1) / b;
    assert m + b - 1 == Cells(q, b) + (m + b - 1) % b;
  }
}
