/** Fixed-width machine words: bytes, byte order, two's complement. */
module Words {

  type byte = x: int | 0 <= x < 256

  /** The two byte orders of endian.h. */
  datatype Order = Little | Big

  /** The widths, in bytes, of the fixed-width integers. */
  type Width = n: nat | n == 1 || n == 2 || n == 4 || n == 8 witness 1

  function Pow256(n: nat): (p: nat)
    ensures p > 0
  {
    if n == 0 then 1 else 256 * Pow256(n - 1)
  }

  /** The word sizes of the variable-length integers. */
  datatype Bits = B32 | B64

  /** One more than the largest unsigned word. */
  function Modulus(b: Bits): (m: nat)
    ensures m > 0
  {
    match b
    case B32 => 0x1_0000_0000
    case B64 => 0x1_0000_0000_0000_0000
  }

  // ---------------------------------------------------------------- byte order

  function LittleBytes(v: nat, n: nat): (s: seq<byte>)
    ensures |s| == n
  {
    if n == 0 then [] else [v % 256] + LittleBytes(v / 256, n - 1)
  }

  function FromLittle(s: seq<byte>): nat {
    if s == [] then 0 else s[0] + 256 * FromLittle(s[1..])
  }

  function Reversed<T>(s: seq<T>): (r: seq<T>)
    ensures |r| == |s|
    ensures forall i :: 0 <= i < |s| ==> r[i] == s[|s| - 1 - i]
  {
    if s == [] then [] else Reversed(s[1..]) + [s[0]]
  }

  /** Byte swapping of an n-byte word, as bswap_16/32/64 do it. */
  function ByteSwap(v: nat, n: nat): nat {
    FromLittle(Reversed(LittleBytes(v, n)))
  }

  /** The bytes a word occupies in the memory of a host of the given order. */
  function InMemory(v: nat, n: nat, host: Order): (s: seq<byte>) {
    if host.Little? then LittleBytes(v, n) else Reversed(LittleBytes(v, n))
  }

  function FromMemory(s: seq<byte>, host: Order): nat {
    if host.Little? then FromLittle(s) else FromLittle(Reversed(s))
  }

  lemma {:induction false} LittleRoundTrip(v: nat, n: nat)
    requires v < Pow256(n)
    ensures FromLittle(LittleBytes(v, n)) == v
  {
    if n > 0 {
      LittleRoundTrip(v / 256, n - 1);
      assert LittleBytes(v, n)[1..] == LittleBytes(v / 256, n - 1);
    }
  }

  lemma {:induction false} LittleOnto(s: seq<byte>)
    ensures FromLittle(s) < Pow256(|s|)
    ensures LittleBytes(FromLittle(s), |s|) == s
  {
    if s != [] {
      LittleOnto(s[1..]);
      assert s == [s[0]] + s[1..];
    }
  }

  lemma ReversedTwice<T>(s: seq<T>)
    ensures Reversed(Reversed(s)) == s
  {
    var r := Reversed(Reversed(s));
    assert |r| == |s|;
    assert forall i :: 0 <= i < |s| ==> r[i] == s[i];
  }

  // ------------------------------------------------- what the orders mean, byte by byte

  /** The power of 256 that byte i of n stands for: the lowest byte comes first in
      the little order and last in the big one. */
  function Place(i: nat, n: nat, order: Order): nat
    requires i < n
  {
    if order.Little? then i else n - 1 - i
  }

  lemma AtLeastOnce(m: nat, d: int)
    ensures d >= 1 ==> m * d >= m
    ensures d <= -1 ==> m * d + m <= 0
  {
  }

  lemma DivUnique(v: int, m: nat, q: int, r: nat)
    requires m > 0 && v == m * q + r && r < m
    ensures v / m == q && v % m == r
  {
    var d := v / m - q;
    assert v == m * (v / m) + v % m;
    assert m * d == m * (v / m) - m * q;
    AtLeastOnce(m, d);
  }

  lemma DivDiv(v: nat, b: nat)
    requires b > 0
    ensures v / 256 / b == v / (256 * b)
  {
    var q := v / 256;
    assert q == b * (q / b) + q % b;
    DivUnique(v, 256 * b, q / b, 256 * (q % b) + v % 256);
  }

  lemma {:induction false} LittleAt(v: nat, n: nat, i: nat)
    requires i < n
    ensures LittleBytes(v, n)[i] == v / Pow256(i) % 256
    decreases n
  {
    if i > 0 {
      LittleAt(v / 256, n - 1, i - 1);
      DivDiv(v, Pow256(i - 1));
    }
  }

  /** Where each byte of a word stands in memory. */
  lemma MemoryAt(v: nat, n: nat, order: Order, i: nat)
    requires i < n
    ensures |InMemory(v, n, order)| == n
    ensures InMemory(v, n, order)[i] == v / Pow256(Place(i, n, order)) % 256
  {
    LittleAt(v, n, Place(i, n, order));
  }

  /** The first k bytes of a word, each times its power of 256. */
  function Weighed(s: seq<byte>, order: Order, k: nat): nat
    requires k <= |s|
  {
    if k == 0 then 0 else Weighed(s, order, k - 1) + s[k - 1] * Pow256(Place(k - 1, |s|, order))
  }

  lemma Regroup(a: nat, b: nat)
    ensures a * (256 * b) == 256 * (a * b)
  {
  }

  lemma {:induction false} WeighedFront(s: seq<byte>, order: Order, k: nat)
    requires k < |s|
    ensures Weighed(s, order, k + 1) ==
            if order.Little? then s[0] + 256 * Weighed(s[1..], order, k)
            else s[0] * Pow256(|s| - 1) + Weighed(s[1..], order, k)
  {
    if k > 0 {
      WeighedFront(s, order, k - 1);
      assert s[1..][k - 1] == s[k];
      Regroup(s[k], Pow256(k - 1));
    }
  }

  lemma {:induction false} LittleLast(s: seq<byte>, x: byte)
    ensures FromLittle(s + [x]) == FromLittle(s) + x * Pow256(|s|)
  {
    if s == [] {
      assert [] + [x] == [x] && [x][1..] == [];
    } else {
      LittleLast(s[1..], x);
      assert (s + [x])[1..] == s[1..] + [x];
      Regroup(x, Pow256(|s| - 1));
    }
  }

  /** The value of a word in memory is the sum of its bytes, each times its power
      of 256. */
  lemma {:induction false} MemoryMeans(s: seq<byte>, order: Order)
    ensures FromMemory(s, order) == Weighed(s, order, |s|)
    decreases |s|
  {
    if s != [] {
      MemoryMeans(s[1..], order);
      WeighedFront(s, order, |s| - 1);
      if order.Big? {
        LittleLast(Reversed(s[1..]), s[0]);
      }
    }
  }

  /** Swapping is an involution on n-byte words and stays within n bytes. */
  lemma ByteSwapInvolution(v: nat, n: nat)
    requires v < Pow256(n)
    ensures ByteSwap(v, n) < Pow256(n)
    ensures LittleBytes(ByteSwap(v, n), n) == Reversed(LittleBytes(v, n))
    ensures ByteSwap(ByteSwap(v, n), n) == v
  {
    LittleOnto(Reversed(LittleBytes(v, n)));
    ReversedTwice(LittleBytes(v, n));
    LittleRoundTrip(v, n);
  }

  /** Swapping exactly when the wanted order differs from the host's puts the
      wanted order into memory, whatever the host is, and undoes itself. */
  lemma SwapGivesWireOrder(v: nat, n: nat, order: Order, host: Order)
    requires v < Pow256(n)
    ensures InMemory(if order != host then ByteSwap(v, n) else v, n, host) == InMemory(v, n, order)
  {
    ByteSwapInvolution(v, n);
    ReversedTwice(LittleBytes(v, n));
  }

  lemma ReadGivesHostValue(s: seq<byte>, order: Order, host: Order)
    ensures FromMemory(s, host) < Pow256(|s|)
    ensures (if order != host then ByteSwap(FromMemory(s, host), |s|) else FromMemory(s, host)) == FromMemory(s, order)
  {
    LittleOnto(s);
    LittleOnto(Reversed(s));
    ReversedTwice(s);
  }

  lemma MemoryRoundTrip(v: nat, n: nat, order: Order)
    requires v < Pow256(n)
    ensures |InMemory(v, n, order)| == n
    ensures FromMemory(InMemory(v, n, order), order) == v
  {
    LittleRoundTrip(v, n);
    ReversedTwice(LittleBytes(v, n));
  }

  // --------------------------------------------------------- two's complement

  function ToUnsigned(v: int, modulus: nat): int {
    if v < 0 then v + modulus else v
  }

  function ToSigned(u: nat, modulus: nat): int {
    if u >= modulus / 2 then u - modulus else u
  }

  predicate SignedRange(v: int, modulus: nat) {
    -(modulus / 2) <= v < modulus / 2
  }

  /** What a signed computation leaves in a word when it wraps. */
  function Wrap(v: int, b: Bits): (r: int)
    ensures SignedRange(r, Modulus(b))
  {
    match b
    case B32 => ToSigned(v % 0x1_0000_0000, Modulus(B32))
    case B64 => ToSigned(v % 0x1_0000_0000_0000_0000, Modulus(B64))
  }
}
