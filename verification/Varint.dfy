/** Base-128 varints and zigzag numbers, as ByteArray writes them. */
module Varint {
  import opened Words

  /** The bytes writeUint32 and writeUint64 produce: seven bits at a time, low
      group first, the top bit set on all but the last. */
  function Encode(v: nat): (s: seq<byte>)
    ensures |s| > 0
  {
    if v < 128 then [v] else [v % 128 + 128] + Encode(v / 128)
  }

  /** How many bytes the temporary array of a writer holds. */
  function MaxGroups(b: Bits): nat {
    match b
    case B32 => 5
    case B64 => 10
  }

  function Pow128(k: nat): (p: nat)
    ensures p > 0
  {
    if k == 0 then 1 else 128 * Pow128(k - 1)
  }

  /** A byte string that ends where a varint reader stops. */
  predicate Terminated(s: seq<byte>) {
    s != [] && s[|s| - 1] < 128 && forall i :: 0 <= i < |s| - 1 ==> s[i] >= 128
  }

  /** The number its seven-bit groups denote. */
  function Value(s: seq<byte>): nat {
    if s == [] then 0 else s[0] % 128 + 128 * Value(s[1..])
  }

  /** The encoding ends with the first byte below 0x80. */
  lemma {:induction false} EncodeTerminated(v: nat)
    ensures Terminated(Encode(v))
  {
    if v >= 128 {
      EncodeTerminated(v / 128);
      var s, t := Encode(v), Encode(v / 128);
      assert forall i :: 0 < i < |s| ==> s[i] == t[i - 1];
    }
  }

  /** The encoding denotes the number. */
  lemma {:induction false} EncodeMeaning(v: nat)
    ensures Value(Encode(v)) == v
  {
    if v < 128 {
      assert Encode(v)[1..] == [];
    } else {
      EncodeMeaning(v / 128);
      assert Encode(v)[1..] == Encode(v / 128);
      assert (v % 128 + 128) % 128 == v % 128;
    }
  }

  lemma DivDiv(v: nat, b: nat)
    requires b > 0
    ensures v / 128 / b == v / (128 * b)
  {
    var q := v / 128;
    assert q == b * (q / b) + q % b;
    DivUnique(v, 128 * b, q / b, 128 * (q % b) + v % 128);
  }

  /** Byte i holds the seven bits that stand for the i-th power of 128, low ones
      first, and says whether more follow. */
  lemma {:induction false} EncodeAt(v: nat, i: nat)
    requires i < |Encode(v)|
    ensures Encode(v)[i] == v / Pow128(i) % 128 + if i < |Encode(v)| - 1 then 128 else 0
  {
    if i > 0 {
      EncodeAt(v / 128, i - 1);
      DivDiv(v, Pow128(i - 1));
    }
  }

  /** Its length is the number of seven-bit groups the number needs. */
  lemma {:induction false} EncodeLength(v: nat)
    ensures v < Pow128(|Encode(v)|)
    ensures |Encode(v)| > 1 ==> v >= Pow128(|Encode(v)| - 1)
  {
    if v >= 128 {
      var q := v / 128;
      EncodeLength(q);
      var k := |Encode(q)|;
      assert |Encode(v)| == k + 1;
      assert Pow128(k + 1) == 128 * Pow128(k);
      assert k > 1 ==> Pow128(k) == 128 * Pow128(k - 1);
      assert Pow128(1) == 128;
    }
  }

  lemma {:induction false} ValueBound(s: seq<byte>)
    ensures Value(s) < Pow128(|s|)
  {
    if s != [] {
      ValueBound(s[1..]);
    }
  }

  lemma {:induction false} Pow128Monotone(i: nat, j: nat)
    requires i <= j
    ensures Pow128(i) <= Pow128(j)
    decreases j
  {
    if i < j {
      Pow128Monotone(i, j - 1);
    }
  }

  /** No byte string denoting the number is shorter than its encoding. */
  lemma EncodeMinimal(s: seq<byte>)
    requires s != []
    ensures |Encode(Value(s))| <= |s|
  {
    var v := Value(s);
    ValueBound(s);
    EncodeLength(v);
    if |Encode(v)| > |s| {
      Pow128Monotone(|s|, |Encode(v)| - 1);
    }
  }

  /** The temporary arrays of five and ten bytes never overflow. */
  lemma EncodeFits(v: nat, b: Bits)
    requires v < Modulus(b)
    ensures |Encode(v)| <= MaxGroups(b) == if b.B32? then 5 else 10
  {
    EncodeLength(v);
    if |Encode(v)| > MaxGroups(b) {
      Pow128Monotone(MaxGroups(b), |Encode(v)| - 1);
      Pow128Values();
    }
  }

  lemma Pow128Values()
    ensures Pow128(5) == 0x8_0000_0000
    ensures Pow128(10) == 0x40_0000_0000_0000_0000
  {
    assert Pow128(2) == 128 * 128;
    assert Pow128(4) == 128 * 128 * 128 * 128;
    assert Pow128(6) == 128 * 128 * 128 * 128 * 128 * 128;
    assert Pow128(8) == 128 * 128 * 128 * 128 * 128 * 128 * 128 * 128;
  }

  // ------------------------------------------------------------------- zigzag

  /** EncodeZigzag32/64, with the negation and doubling wrapping. */
  function EncodeZigzag(v: int, b: Bits): (u: nat)
    requires SignedRange(v, Modulus(b))
    ensures u < Modulus(b)
  {
    var m := Modulus(b);
    if v < 0 then (ToUnsigned(Wrap(-v, b), m) * 2 - 1) % m
    else ToUnsigned(Wrap(v * 2, b), m)
  }

  /** DecodeZigzag32/64: xor of the halved word with all ones complements it. */
  function DecodeZigzag(u: nat, b: Bits): (v: int)
    requires u < Modulus(b)
    ensures SignedRange(v, Modulus(b))
  {
    ToSigned(if u % 2 == 0 then u / 2 else Modulus(b) - 1 - u / 2, Modulus(b))
  }

  lemma WrapOnce(v: nat, b: Bits)
    requires v < Modulus(b)
    ensures Wrap(v, b) == ToSigned(v, Modulus(b))
  {
    match b
    case B32 =>
    case B64 =>
  }

  /** The meaning of the zigzag number: 0, -1, 1, -2, 2 and so on. */
  lemma ZigzagMeaning(v: int, b: Bits)
    requires SignedRange(v, Modulus(b))
    ensures EncodeZigzag(v, b) == if v < 0 then -2 * v - 1 else 2 * v
  {
    hide Wrap;
    WrapOnce(if v < 0 then -v else 2 * v, b);
    match b
    case B32 =>
    case B64 =>
  }

  /** Zigzag is a bijection between signed and unsigned words. */
  lemma ZigzagRoundTrip(v: int, b: Bits)
    requires SignedRange(v, Modulus(b))
    ensures DecodeZigzag(EncodeZigzag(v, b), b) == v
  {
    hide EncodeZigzag;
    ZigzagMeaning(v, b);
    match b
    case B32 =>
    case B64 =>
  }

  lemma ZigzagOnto(u: nat, b: Bits)
    requires u < Modulus(b)
    ensures EncodeZigzag(DecodeZigzag(u, b), b) == u
  {
    hide EncodeZigzag;
    ZigzagMeaning(DecodeZigzag(u, b), b);
  }
}
