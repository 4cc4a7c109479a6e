/** What the formats of the buffer are, byte by byte, and what its readers make of
    any bytes. */
module WireFormat {
  import opened Words
  import opened Wire
  import Varint

  /** A varint that denotes v and ends where a reader stops. */
  predicate Denotes(bs: seq<byte>, v: nat) {
    Varint.Terminated(bs) && Varint.Value(bs) == v
  }

  /** The bytes of each kind: a word in its order, two's complement if it is
      signed; a varint, zigzag if it is signed; a string behind its length. */
  lemma EncodeLayout(i: Item)
    requires Typed(i)
    ensures
      var bs := Encode(i);
      match i.kind
      case FixedInt(w, _, order) => |bs| == w && StandsAt(bs, 0, i.value.n % Pow256(w), w, order)
      case PlainVarint(_) => Denotes(bs, i.value.n)
      case ZigzagVarint(_) => Denotes(bs, if i.value.n < 0 then -2 * i.value.n - 1 else 2 * i.value.n)
      case FixedString(w, order) =>
        |bs| == w + |i.value.s| && StandsAt(bs, 0, |i.value.s| % Pow256(w), w, order) && bs[w..] == i.value.s
      case VintString =>
        var n := |bs| - |i.value.s|;
        n >= 0 && Denotes(bs[..n], |i.value.s|) && bs[n..] == i.value.s
  {
    hide InMemory, Pow256, Varint.Encode, Varint.EncodeZigzag, Varint.Value, Varint.Terminated;
    match i.kind
    case FixedInt(w, _, order) =>
      DivUnique(i.value.n, Pow256(w), if i.value.n < 0 then -1 else 0, ToUnsigned(i.value.n, Pow256(w)));
      WordStands(i.value.n % Pow256(w), w, order, []);
    case PlainVarint(_) => EncodeDenotes(i.value.n);
    case ZigzagVarint(b) =>
      Varint.ZigzagMeaning(i.value.n, b);
      EncodeDenotes(Varint.EncodeZigzag(i.value.n, b));
    case FixedString(w, order) =>
      WordStands(|i.value.s| % Pow256(w), w, order, i.value.s);
    case VintString => EncodeDenotes(|i.value.s|);
  }

  lemma EncodeDenotes(v: nat)
    ensures Denotes(Varint.Encode(v), v)
  {
    Varint.EncodeTerminated(v);
    Varint.EncodeMeaning(v);
  }

  lemma WordStands(v: nat, w: Width, order: Order, rest: seq<byte>)
    ensures |InMemory(v, w, order)| == w && StandsAt(InMemory(v, w, order) + rest, 0, v, w, order)
    ensures InMemory(v, w, order) + [] == InMemory(v, w, order)
  {
    hide InMemory, Pow256;
    MemoryAt(v, w, order, 0);
    forall i | 0 <= i < w
      ensures (InMemory(v, w, order) + rest)[i] == v / Pow256(Place(i, w, order)) % 256
    {
      MemoryAt(v, w, order, i);
    }
  }

  /** A read gives the bytes behind the cursor if that many are in use, and throws
      otherwise; only reading nothing can follow the null node. */
  lemma ReadBytesMeans(f: Flat, n: nat)
    requires f.Valid()
    ensures
      match ReadBytes(f, n)
      case Got(bs, p) => p == f.position + n <= f.size && Holds(f, bs) && |bs| == n
      case OutOfRange(p) => p == f.position && f.size < f.position + n
      case NullCursor(p) => p == f.position == |f.data| && n == 0
  {
  }

  /** The bytes between two positions. */
  function Between(f: Flat, p: nat, q: nat): seq<byte>
    requires p <= q <= |f.data|
  {
    f.data[p..q]
  }

  /** Every byte says that more follow. */
  predicate Continues(bs: seq<byte>) {
    forall i :: 0 <= i < |bs| ==> bs[i] >= 128
  }

  /** What a varint reader makes of any bytes: it stops behind the first byte below
      0x80 or after k bytes, and throws if the bytes in use end before. */
  ghost predicate GroupsRead(f: Flat, k: nat, r: Read<nat>)
    requires f.Valid()
  {
    match r
    case Got(v, p) =>
      && f.position <= p <= f.size && p - f.position <= k
      && var bs := Between(f, f.position, p);
         v == Varint.Value(bs) && (Varint.Terminated(bs) || (|bs| == k && Continues(bs)))
    case OutOfRange(p) =>
      f.position <= p == f.size && p - f.position < k && Continues(Between(f, f.position, p))
    case NullCursor(_) => false
  }

  lemma OneMore(b: byte, bs: seq<byte>)
    requires b >= 128
    ensures Varint.Value([b] + bs) == b % 128 + 128 * Varint.Value(bs)
    ensures Varint.Terminated(bs) ==> Varint.Terminated([b] + bs)
    ensures Continues(bs) ==> Continues([b] + bs)
  {
    assert ([b] + bs)[1..] == bs;
  }

  lemma LastGroup(b: byte)
    requires b < 128
    ensures Varint.Value([b]) == b && Varint.Terminated([b])
  {
    assert Varint.Value([b][1..]) == 0;
  }

  lemma FirstGroup(f: Flat, k: nat)
    requires f.Valid() && k > 0
    ensures
      if f.position == f.size then ReadGroups(f, k) == OutOfRange(f.position)
      else
        var b := f.data[f.position];
        if b < 128 then ReadGroups(f, k) == Got(b, f.position + 1)
        else
          var rest := ReadGroups(f.At(f.position + 1), k - 1);
          ReadGroups(f, k) == if rest.Got? then Got(b % 128 + 128 * rest.value, rest.position) else rest
  {
  }

  lemma NoneLeft(f: Flat, k: nat)
    requires f.Valid() && k > 0 && f.position == f.size
    ensures GroupsRead(f, k, OutOfRange(f.position))
  {
    assert Between(f, f.position, f.position) == [];
  }

  lemma LastRead(f: Flat, k: nat)
    requires f.Valid() && k > 0 && f.position < f.size && f.data[f.position] < 128
    ensures GroupsRead(f, k, Got(f.data[f.position], f.position + 1))
  {
    hide Varint.Value, Varint.Terminated;
    LastGroup(f.data[f.position]);
    assert Between(f, f.position, f.position + 1) == [f.data[f.position]];
  }

  lemma MoreRead(f: Flat, k: nat, r: Read<nat>)
    requires f.Valid() && k > 0 && f.position < f.size && f.data[f.position] >= 128
    requires GroupsRead(f.At(f.position + 1), k - 1, r)
    ensures
      var b := f.data[f.position];
      GroupsRead(f, k, if r.Got? then Got(b % 128 + 128 * r.value, r.position) else r)
  {
    hide Varint.Value, Varint.Terminated, Continues;
    var g, b := f.At(f.position + 1), f.data[f.position];
    OneMore(b, Between(g, g.position, r.position));
    assert Between(f, f.position, r.position) == [b] + Between(g, g.position, r.position);
  }

  lemma {:induction false} GroupsMean(f: Flat, k: nat)
    requires f.Valid()
    ensures GroupsRead(f, k, ReadGroups(f, k))
    decreases k
  {
    if k == 0 {
      assert Between(f, f.position, f.position) == [];
    } else {
      FirstGroup(f, k);
      hide ReadGroups, Varint.Value, Varint.Terminated, Continues, GroupsRead;
      if f.position == f.size {
        NoneLeft(f, k);
      } else if f.data[f.position] < 128 {
        LastRead(f, k);
      } else {
        var g := f.At(f.position + 1);
        GroupsMean(g, k - 1);
        MoreRead(f, k, ReadGroups(g, k - 1));
      }
    }
  }

  /** readUint32 and readUint64 on any bytes: the value is the number that the bytes
      read denote, cut to the word. */
  lemma ReadVarintMeans(f: Flat, b: Bits)
    requires f.Valid()
    ensures
      var k := if b.B32? then 5 else 10;
      match ReadVarint(f, b)
      case Got(v, p) =>
        && f.position < p <= f.size && p - f.position <= k
        && var bs := Between(f, f.position, p);
           v == Varint.Value(bs) % Modulus(b) && (Varint.Terminated(bs) || (|bs| == k && Continues(bs)))
      case OutOfRange(p) => p == f.size < f.position + k && Continues(Between(f, f.position, p))
      case NullCursor(_) => false
  {
    hide ReadGroups, Varint.Value, Modulus;
    GroupsMean(f, Varint.MaxGroups(b));
  }

  lemma ReadWordMeans(f: Flat, w: Width, order: Order)
    requires f.Valid()
    ensures
      var r := ReadWord(f, w, order);
      if f.size < f.position + w then r.OutOfRange?
      else
        && r.Got? && r.position == f.position + w
        && r.value == Weighed(Between(f, f.position, r.position), order, w) && r.value < Pow256(w)
  {
    hide Weighed, FromMemory, Pow256;
    ReadBytesMeans(f, w);
    if ReadBytes(f, w).Got? {
      MemoryMeans(ReadBytes(f, w).value, order);
      ReadGivesHostValue(ReadBytes(f, w).value, order, order);
    }
  }

  /** What the readers of numbers make of any bytes. */
  lemma ReadNumberMeans(f: Flat, k: Kind)
    requires f.Valid() && !k.FixedString? && !k.VintString? && ReadItem(f, k).Got?
    ensures ReadItem(f, k).value.Number?
    ensures
      var n, p := ReadItem(f, k).value.n, ReadItem(f, k).position;
      match k
      case FixedInt(w, signed, order) =>
        && p == f.position + w && (if signed then SignedRange(n, Pow256(w)) else 0 <= n < Pow256(w))
        && n % Pow256(w) == Weighed(Between(f, f.position, p), order, w)
      case PlainVarint(b) => ReadVarint(f, b) == Got(n, p)
      case ZigzagVarint(b) => ReadVarint(f, b) == Got(if n < 0 then -2 * n - 1 else 2 * n, p)
      case _ => false
  {
    hide Weighed, ReadWord, ReadVarint, Pow256, Varint.DecodeZigzag, Varint.EncodeZigzag, Modulus;
    match k {
      case FixedInt(w, signed, order) =>
        ReadWordMeans(f, w, order);
        var u, n := ReadWord(f, w, order).value, ReadItem(f, k).value.n;
        EvenPower(w);
        SignedMeans(u, Pow256(w), signed);
        DivUnique(n, Pow256(w), if n < 0 then -1 else 0, u);
      case ZigzagVarint(b) =>
        var u := ReadVarint(f, b).value;
        Varint.ZigzagOnto(u, b);
        Varint.ZigzagMeaning(Varint.DecodeZigzag(u, b), b);
      case _ =>
    }
  }

  lemma EvenPower(w: Width)
    ensures Pow256(w) % 2 == 0
  {
    assert Pow256(w) == 256 * Pow256(w - 1);
  }

  /** Two's complement. */
  lemma SignedMeans(u: nat, m: nat, signed: bool)
    requires u < m && m % 2 == 0
    ensures
      var n := if signed then ToSigned(u, m) else u;
      (if signed then SignedRange(n, m) else 0 <= n < m) && u == if n < 0 then n + m else n
  {
  }

  /** What the readers of strings make of any bytes: the length, then that many
      bytes. */
  lemma ReadTextMeans(f: Flat, k: Kind)
    requires f.Valid() && (k.FixedString? || k.VintString?) && ReadItem(f, k).Got?
    ensures ReadItem(f, k).value.Text?
    ensures
      var s, p := ReadItem(f, k).value.s, ReadItem(f, k).position;
      var n := p - |s|;
      && f.position <= n <= p <= f.size && s == Between(f, n, p)
      && (if k.FixedString?
          then n == f.position + k.width && |s| == Weighed(Between(f, f.position, n), k.order, k.width)
          else ReadVarint(f, B64) == Got(|s|, n))
  {
    hide Weighed, ReadWord, ReadVarint, Pow256, Varint.MaxGroups, Varint.Terminated, Continues;
    if k.FixedString? {
      ReadWordMeans(f, k.width, k.order);
    } else {
      ReadVarintMeans(f, B64);
    }
  }

  lemma VarintCutOff(f: Flat, v: nat, b: Bits, k: nat)
    requires v < Modulus(b) && k < |Varint.Encode(v)|
    requires Holds(f, Varint.Encode(v)[..k]) && f.size == f.position + k
    ensures ReadVarint(f, b).OutOfRange?
  {
    hide ReadVarint, Varint.Encode, Modulus, Varint.Value;
    Varint.EncodeTerminated(v);
    Varint.EncodeFits(v, b);
    var all := Between(f, f.position, f.size);
    assert all == Varint.Encode(v)[..k];
    forall p | f.position <= p <= f.size
      ensures !Varint.Terminated(Between(f, f.position, p))
    {
      var bs := Between(f, f.position, p);
      assert bs == all[..|bs|];
      assert forall i :: 0 <= i < |bs| ==> bs[i] == Varint.Encode(v)[i];
    }
    ReadVarintMeans(f, b);
  }

  lemma StringCutOff(f: Flat, i: Item, k: nat)
    requires Typed(i) && Fits(i) && i.value.Text? && k < |Encode(i)|
    requires Holds(f, Encode(i)[..k]) && f.size == f.position + k
    ensures ReadItem(f, i.kind).OutOfRange?
  {
    hide Pow256, InMemory, Varint.Encode, ReadVarint, ReadWord, Holds;
    var s := i.value.s;
    match i.kind
    case FixedString(w, order) =>
      MemoryRoundTrip(|s|, w, order);
      DivUnique(|s|, Pow256(w), 0, |s|);
      assert Encode(i) == InMemory(|s|, w, order) + s;
      hide Encode;
      CutWord(f, |s|, w, order, s, k);
    case VintString =>
      assert Encode(i) == Varint.Encode(|s|) + s;
      hide Encode;
      CutVint(f, s, k);
  }

  lemma CutWord(f: Flat, v: nat, w: Width, order: Order, s: seq<byte>, k: nat)
    requires v == |s| < Pow256(w) && |InMemory(v, w, order)| == w && k < w + |s|
    requires Holds(f, (InMemory(v, w, order) + s)[..k]) && f.size == f.position + k
    ensures ReadItem(f, FixedString(w, order)).OutOfRange?
  {
    hide Pow256, InMemory, Weighed;
    var head := InMemory(v, w, order);
    if k >= w {
      assert (head + s)[..k] == head + s[..k - w];
      HoldsSplit(f, head, s[..k - w]);
      WordRoundTrip(f, v, w, order);
    } else {
      ReadWordMeans(f, w, order);
    }
  }

  lemma CutVint(f: Flat, s: seq<byte>, k: nat)
    requires |s| < Modulus(B64) && k < |Varint.Encode(|s|)| + |s|
    requires Holds(f, (Varint.Encode(|s|) + s)[..k]) && f.size == f.position + k
    ensures ReadItem(f, VintString).OutOfRange?
  {
    hide Varint.Encode, ReadVarint, Modulus;
    var head := Varint.Encode(|s|);
    if k >= |head| {
      assert (head + s)[..k] == head + s[..k - |head|];
      HoldsSplit(f, head, s[..k - |head|]);
      VarintRoundTrip(f, |s|, B64);
    } else {
      assert (head + s)[..k] == head[..k];
      VarintCutOff(f, |s|, B64, k);
    }
  }

  /** The encoding of an item cut off anywhere: its reader throws. */
  lemma CutOffThrows(f: Flat, i: Item, k: nat)
    requires Typed(i) && Fits(i) && k < |Encode(i)|
    requires Holds(f, Encode(i)[..k]) && f.size == f.position + k
    ensures ReadItem(f, i.kind).OutOfRange?
  {
    hide Varint.Encode, ReadVarint, InMemory, Pow256, Weighed;
    match i.kind
    case FixedInt(w, _, order) =>
      MemoryAt(ToUnsigned(i.value.n, Pow256(w)), w, order, 0);
      ReadWordMeans(f, w, order);
    case PlainVarint(b) => VarintCutOff(f, i.value.n, b, k);
    case ZigzagVarint(b) => VarintCutOff(f, Varint.EncodeZigzag(i.value.n, b), b, k);
    case _ => StringCutOff(f, i, k);
  }
}
