/** The byte stream of ByteArray seen as one flat byte string with a cursor:
    what the typed writers put into it and what the typed readers take out. */
module Wire {
  import opened Words
  import Varint

  /** All allocated bytes, the cursor, and how many bytes are in use. */
  datatype Flat = Flat(data: seq<byte>, position: nat, size: nat) {
    predicate Valid() {
      position <= size <= |data|
    }

    function At(p: nat): Flat {
      this.(position := p)
    }
  }

  /** A read yields a value, throws std::out_of_range, or follows a null node
      pointer; the cursor is where the read left it. */
  datatype Read<+T> = Got(value: T, position: nat) | OutOfRange(position: nat) | NullCursor(position: nat) {
    predicate IsFailure() {
      !Got?
    }

    function PropagateFailure<U>(): Read<U>
      requires !Got?
    {
      if OutOfRange? then OutOfRange(position) else NullCursor(position)
    }

    function Extract(): (T, nat)
      requires Got?
    {
      (value, position)
    }
  }

  /** The values a reader or writer is chosen for; each fixed-width kind names
      the byte order in force when it is used. */
  datatype Kind =
    | FixedInt(width: Width, signed: bool, order: Order)
    | PlainVarint(bits: Bits)
    | ZigzagVarint(bits: Bits)
    | FixedString(width: Width, order: Order)
    | VintString

  datatype Value = Number(n: int) | Text(s: seq<byte>)

  datatype Item = Item(kind: Kind, value: Value)

  /** The value is one the C++ parameter type can hold. */
  predicate Typed(i: Item) {
    match i.kind
    case FixedInt(w, signed, _) =>
      i.value.Number? && (if signed then SignedRange(i.value.n, Pow256(w)) else 0 <= i.value.n < Pow256(w))
    case PlainVarint(b) => i.value.Number? && 0 <= i.value.n < Modulus(b)
    case ZigzagVarint(b) => i.value.Number? && SignedRange(i.value.n, Modulus(b))
    case FixedString(_, _) => i.value.Text? && |i.value.s| < Modulus(B64)
    case VintString => i.value.Text? && |i.value.s| < Modulus(B64)
  }

  /** The length of a string can be held by its prefix. */
  predicate Fits(i: Item) {
    i.kind.FixedString? && i.value.Text? ==> |i.value.s| < Pow256(i.kind.width)
  }

  // ------------------------------------------------------------------ writing

  function Encode(i: Item): (bs: seq<byte>)
    requires Typed(i)
  {
    match i.kind
    case FixedInt(w, _, order) => InMemory(ToUnsigned(i.value.n, Pow256(w)), w, order)
    case PlainVarint(_) => Varint.Encode(i.value.n)
    case ZigzagVarint(b) => Varint.Encode(Varint.EncodeZigzag(i.value.n, b))
    case FixedString(w, order) => InMemory(|i.value.s| % Pow256(w), w, order) + i.value.s
    case VintString => Varint.Encode(|i.value.s|) + i.value.s
  }

  predicate AllTyped(items: seq<Item>) {
    forall i :: 0 <= i < |items| ==> Typed(items[i])
  }

  predicate AllFit(items: seq<Item>) {
    forall i :: 0 <= i < |items| ==> Fits(items[i])
  }

  function EncodeAll(items: seq<Item>): seq<byte>
    requires AllTyped(items)
  {
    if items == [] then [] else Encode(items[0]) + EncodeAll(items[1..])
  }

  function Max(a: int, b: int): int {
    if a < b then b else a
  }

  /** Capacity grows only when it must, by less than one node too much. */
  predicate Grown(before: nat, after: nat, end: nat, base: nat) {
    end <= after && (after == before || before < end <= after < end + base)
  }

  /** Writing bs turns f into g: only the bytes under the write change. */
  predicate Wrote(f: Flat, g: Flat, bs: seq<byte>, base: nat) {
    var end := f.position + |bs|;
    && g.position == end
    && g.size == Max(f.size, end)
    && |f.data| <= |g.data|
    && Grown(|f.data|, |g.data|, end, base)
    && g.data[f.position..end] == bs
    && forall i :: 0 <= i < |f.data| && !(f.position <= i < end) ==> g.data[i] == f.data[i]
  }

  /** The bytes from p on are those of the word v in the given order. */
  predicate StandsAt(data: seq<byte>, p: nat, v: nat, w: Width, order: Order) {
    p + w <= |data| && forall i :: 0 <= i < w ==> data[p + i] == v / Pow256(Place(i, w, order)) % 256
  }

  lemma WordAt(f: Flat, g: Flat, v: nat, w: Width, order: Order, base: nat)
    requires f.Valid() && Wrote(f, g, InMemory(v, w, order), base)
    ensures StandsAt(g.data, f.position, v, w, order)
  {
    hide InMemory, Pow256;
    MemoryAt(v, w, order, 0);
    forall i | 0 <= i < w
      ensures g.data[f.position + i] == v / Pow256(Place(i, w, order)) % 256
    {
      MemoryAt(v, w, order, i);
      assert g.data[f.position..f.position + w][i] == g.data[f.position + i];
    }
  }

  lemma WroteThen(f: Flat, g: Flat, h: Flat, a: seq<byte>, b: seq<byte>, base: nat)
    requires f.Valid() && Wrote(f, g, a, base) && Wrote(g, h, b, base)
    ensures Wrote(f, h, a + b, base)
  {
    var p, q, r := f.position, g.position, h.position;
    assert h.data[p..r] == a + b by {
      assert h.data[p..r] == h.data[p..q] + h.data[q..r];
      assert forall i :: p <= i < q ==> h.data[i] == g.data[i];
      assert h.data[p..q] == g.data[p..q];
    }
  }

  // ------------------------------------------------------------------ reading

  /** read(buf, n). With n == 0 at the end of the last node the current node
      pointer is null and is followed all the same. */
  function ReadBytes(f: Flat, n: nat): (r: Read<seq<byte>>)
    requires f.Valid()
    ensures r.Got? ==> |r.value| == n && r.position == f.position + n
    ensures r.position <= f.size
  {
    if n > f.size - f.position then OutOfRange(f.position)
    else if f.position == |f.data| then NullCursor(f.position)
    else Got(f.data[f.position..f.position + n], f.position + n)
  }

  function ReadWord(f: Flat, n: nat, order: Order): (r: Read<nat>)
    requires f.Valid()
    ensures r.position <= f.size
  {
    var (bs, p) :- ReadBytes(f, n);
    Got(FromMemory(bs, order), p)
  }

  /** At most k groups of seven bits, up to and including the first byte
      below 0x80. */
  function ReadGroups(f: Flat, k: nat): (r: Read<nat>)
    requires f.Valid()
    ensures r.position <= f.size
    decreases k
  {
    if k == 0 then Got(0, f.position)
    else
      var (bs, p) :- ReadBytes(f, 1);
      if bs[0] < 128 then Got(bs[0], p)
      else
        var (rest, q) :- ReadGroups(f.At(p), k - 1);
        Got(bs[0] % 128 + 128 * rest, q)
  }

  /** readUint32 and readUint64: shifts drop the bits above the word. */
  function ReadVarint(f: Flat, b: Bits): (r: Read<nat>)
    requires f.Valid()
    ensures r.position <= f.size
    ensures r.Got? ==> r.value < Modulus(b)
  {
    var (v, p) :- ReadGroups(f, Varint.MaxGroups(b));
    Got(v % Modulus(b), p)
  }

  function ReadText(f: Flat, n: nat): (r: Read<Value>)
    requires f.Valid()
    ensures r.position <= f.size
  {
    var (bs, p) :- ReadBytes(f, n);
    Got(Text(bs), p)
  }

  function ReadItem(f: Flat, k: Kind): (r: Read<Value>)
    requires f.Valid()
    ensures r.position <= f.size
  {
    match k
    case FixedInt(w, signed, order) =>
      var (u, p) :- ReadWord(f, w, order);
      Got(Number(if signed then ToSigned(u, Pow256(w)) else u), p)
    case PlainVarint(b) =>
      var (u, p) :- ReadVarint(f, b);
      Got(Number(u), p)
    case ZigzagVarint(b) =>
      var (u, p) :- ReadVarint(f, b);
      Got(Number(Varint.DecodeZigzag(u, b)), p)
    case FixedString(w, order) =>
      var (n, p) :- ReadWord(f, w, order);
      ReadText(f.At(p), n)
    case VintString =>
      var (n, p) :- ReadVarint(f, B64);
      ReadText(f.At(p), n)
  }

  function ReadAll(f: Flat, kinds: seq<Kind>): (r: Read<seq<Value>>)
    requires f.Valid()
    ensures r.position <= f.size
    decreases |kinds|
  {
    if kinds == [] then Got([], f.position)
    else
      var (v, p) :- ReadItem(f, kinds[0]);
      var (vs, q) :- ReadAll(f.At(p), kinds[1..]);
      Got([v] + vs, q)
  }

  // -------------------------------------------------------------- round trips

  /** The bytes at the cursor are bs, all of them in use. */
  predicate Holds(f: Flat, bs: seq<byte>) {
    && f.Valid()
    && f.position + |bs| <= f.size
    && f.data[f.position..f.position + |bs|] == bs
  }

  lemma HoldsSplit(f: Flat, a: seq<byte>, b: seq<byte>)
    requires Holds(f, a + b)
    ensures Holds(f, a) && Holds(f.At(f.position + |a|), b)
  {
    var p, q, r := f.position, f.position + |a|, f.position + |a| + |b|;
    assert a == (a + b)[..|a|] && b == (a + b)[|a|..];
    assert f.data[p..q] == f.data[p..r][..|a|];
    assert f.data[q..r] == f.data[p..r][|a|..];
  }

  lemma {:induction false} GroupsRoundTrip(f: Flat, v: nat, k: nat)
    requires Holds(f, Varint.Encode(v)) && |Varint.Encode(v)| <= k
    ensures ReadGroups(f, k) == Got(v, f.position + |Varint.Encode(v)|)
    decreases k
  {
    var bs := Varint.Encode(v);
    assert f.data[f.position] == f.data[f.position..f.position + |bs|][0] == bs[0];
    if v >= 128 {
      HoldsSplit(f, [bs[0]], Varint.Encode(v / 128));
      GroupsRoundTrip(f.At(f.position + 1), v / 128, k - 1);
      assert bs[0] % 128 == v % 128;
    }
  }

  /** Decoding inverts encoding and stops right behind it. */
  lemma VarintRoundTrip(f: Flat, v: nat, b: Bits)
    requires v < Modulus(b) && Holds(f, Varint.Encode(v))
    ensures ReadVarint(f, b) == Got(v, f.position + |Varint.Encode(v)|)
  {
    hide ReadGroups, Varint.Encode, Varint.MaxGroups;
    Varint.EncodeFits(v, b);
    GroupsRoundTrip(f, v, Varint.MaxGroups(b));
  }

  lemma WordRoundTrip(f: Flat, v: nat, w: Width, order: Order)
    requires v < Pow256(w) && Holds(f, InMemory(v, w, order))
    ensures ReadWord(f, w, order) == Got(v, f.position + w)
  {
    MemoryRoundTrip(v, w, order);
  }

  /** An empty string whose (non-empty) prefix ends the last node. */
  predicate EndsAtNull(i: Item, end: nat, capacity: nat) {
    i.value == Text([]) && end == capacity
  }

  lemma TextRoundTrip(f: Flat, s: seq<byte>)
    requires Holds(f, s)
    ensures ReadText(f, |s|) ==
            if s == [] && f.position == |f.data| then NullCursor(f.position)
            else Got(Text(s), f.position + |s|)
  {
  }

  lemma FixedStringRoundTrip(f: Flat, s: seq<byte>, w: Width, order: Order)
    requires |s| < Pow256(w) && Holds(f, InMemory(|s|, w, order) + s)
    ensures
      var end := f.position + w + |s|;
      ReadItem(f, FixedString(w, order)) ==
      if s == [] && end == |f.data| then NullCursor(end) else Got(Text(s), end)
  {
    hide Pow256, LittleBytes, ReadWord, ReadText;
    HoldsSplit(f, InMemory(|s|, w, order), s);
    WordRoundTrip(f, |s|, w, order);
    TextRoundTrip(f.At(f.position + w), s);
  }

  lemma VintStringRoundTrip(f: Flat, s: seq<byte>)
    requires |s| < Modulus(B64) && Holds(f, Varint.Encode(|s|) + s)
    ensures
      var end := f.position + |Varint.Encode(|s|)| + |s|;
      ReadItem(f, VintString) ==
      if s == [] && end == |f.data| then NullCursor(end) else Got(Text(s), end)
  {
    hide Varint.Encode, ReadVarint;
    HoldsSplit(f, Varint.Encode(|s|), s);
    VarintRoundTrip(f, |s|, B64);
    TextRoundTrip(f.At(f.position + |Varint.Encode(|s|)|), s);
  }

  lemma NumberRoundTrip(f: Flat, i: Item)
    requires Typed(i) && i.value.Number? && Holds(f, Encode(i))
    ensures ReadItem(f, i.kind) == Got(i.value, f.position + |Encode(i)|)
  {
    match i.kind
    case FixedInt(w, _, order) =>
      WordRoundTrip(f, ToUnsigned(i.value.n, Pow256(w)), w, order);
    case PlainVarint(b) =>
      VarintRoundTrip(f, i.value.n, b);
    case ZigzagVarint(b) =>
      VarintRoundTrip(f, Varint.EncodeZigzag(i.value.n, b), b);
      Varint.ZigzagRoundTrip(i.value.n, b);
  }

  /** One item comes back as it was written, except for the null pointer. */
  lemma ItemRoundTrip(f: Flat, i: Item)
    requires Typed(i) && Fits(i) && Holds(f, Encode(i))
    ensures
      var end := f.position + |Encode(i)|;
      ReadItem(f, i.kind) == if EndsAtNull(i, end, |f.data|) then NullCursor(end) else Got(i.value, end)
  {
    hide ReadItem, Pow256, InMemory, Varint.Encode, Holds;
    match i.value
    case Number(_) =>
      NumberRoundTrip(f, i);
    case Text(s) =>
      if i.kind.FixedString? {
        DivUnique(|s|, Pow256(i.kind.width), 0, |s|);
        MemoryRoundTrip(|s|, i.kind.width, i.kind.order);
        FixedStringRoundTrip(f, s, i.kind.width, i.kind.order);
      } else {
        VintStringRoundTrip(f, s);
      }
  }

  /** A string too long for its prefix never comes back. */
  lemma MisfitLost(f: Flat, i: Item)
    requires Typed(i) && !Fits(i) && Holds(f, Encode(i))
    ensures forall p :: ReadItem(f, i.kind) != Got(i.value, p)
  {
    var w, order, s := i.kind.width, i.kind.order, i.value.s;
    var n := |s| % Pow256(w);
    HoldsSplit(f, InMemory(n, w, order), s);
    WordRoundTrip(f, n, w, order);
    assert n < |s|;
    assert ReadItem(f, i.kind) == ReadText(f.At(f.position + w), n);
  }

  function Kinds(items: seq<Item>): (ks: seq<Kind>)
    ensures |ks| == |items|
  {
    seq(|items|, i requires 0 <= i < |items| => items[i].kind)
  }

  function Values(items: seq<Item>): (vs: seq<Value>)
    ensures |vs| == |items|
  {
    seq(|items|, i requires 0 <= i < |items| => items[i].value)
  }

  lemma EncodeNonEmpty(i: Item)
    requires Typed(i)
    ensures Encode(i) != []
  {
    match i.kind
    case FixedInt(w, _, _) =>
      assert |Encode(i)| == w;
    case FixedString(w, order) =>
      assert |InMemory(|i.value.s| % Pow256(w), w, order)| == w;
    case _ =>
  }

  lemma EncodeAllNonEmpty(items: seq<Item>)
    requires AllTyped(items) && items != []
    ensures EncodeAll(items) != []
  {
    EncodeNonEmpty(items[0]);
  }

  lemma Uncons(items: seq<Item>)
    requires items != []
    ensures Kinds(items)[1..] == Kinds(items[1..])
    ensures Values(items) == [items[0].value] + Values(items[1..])
  {
  }

  /** The list ends with an empty string that ends the last node. */
  predicate TrailingNull(items: seq<Item>, end: nat, capacity: nat) {
    items != [] && EndsAtNull(items[|items| - 1], end, capacity)
  }

  /** Any list of items that fit their prefixes comes back whole, or the last
      of them makes the reader follow the null pointer. */
  lemma {:induction false} StreamRoundTrip(f: Flat, items: seq<Item>)
    requires AllTyped(items) && AllFit(items) && Holds(f, EncodeAll(items))
    ensures
      var end := f.position + |EncodeAll(items)|;
      ReadAll(f, Kinds(items)) ==
      if TrailingNull(items, end, |f.data|) then NullCursor(end) else Got(Values(items), end)
    decreases |items|
  {
    hide ReadItem, Encode, Typed, Fits;
    if items != [] {
      var head, rest := Encode(items[0]), EncodeAll(items[1..]);
      HoldsSplit(f, head, rest);
      ItemRoundTrip(f, items[0]);
      Uncons(items);
      if |items| > 1 {
        EncodeAllNonEmpty(items[1..]);
        StreamRoundTrip(f.At(f.position + |head|), items[1..]);
      } else {
        assert items[1..] == [];
      }
    }
  }

  lemma {:induction false} MisfitStreamLost(f: Flat, items: seq<Item>, p: nat)
    requires AllTyped(items) && !AllFit(items) && Holds(f, EncodeAll(items))
    ensures ReadAll(f, Kinds(items)) != Got(Values(items), p)
    decreases |items|
  {
    hide ReadItem, Encode, Typed, Fits;
    var head, rest := Encode(items[0]), EncodeAll(items[1..]);
    HoldsSplit(f, head, rest);
    Uncons(items);
    if !Fits(items[0]) {
      MisfitLost(f, items[0]);
    } else {
      ItemRoundTrip(f, items[0]);
      assert !AllFit(items[1..]);
      MisfitStreamLost(f.At(f.position + |head|), items[1..], p);
      var tail := ReadAll(f.At(f.position + |head|), Kinds(items[1..]));
      assert tail.Got? && [items[0].value] + tail.value == Values(items) ==>
          tail.value == Values(items)[1..] == Values(items[1..]);
    }
  }

  lemma WroteHolds(f: Flat, g: Flat, bs: seq<byte>, base: nat)
    requires f.Valid() && Wrote(f, g, bs, base)
    ensures g.Valid() && g.At(f.position).Valid() && Holds(g.At(f.position), bs)
    ensures g.position == f.position + |bs|
  {
  }

  /** Writing any typed items, rewinding and reading the same kinds returns
      the same values and stops where the writing stopped, exactly when every
      string fits its prefix and the list does not end with an empty string
      flush with the capacity. */
  lemma WriteRewindRead(f: Flat, g: Flat, items: seq<Item>, base: nat)
    requires f.Valid() && AllTyped(items) && Wrote(f, g, EncodeAll(items), base)
    ensures g.At(f.position).Valid()
    ensures ReadAll(g.At(f.position), Kinds(items)) == Got(Values(items), g.position)
       <==> AllFit(items) && !TrailingNull(items, g.position, |g.data|)
  {
    hide ReadAll, EncodeAll, Encode, Typed, Fits, Wrote, Holds;
    var h := g.At(f.position);
    WroteHolds(f, g, EncodeAll(items), base);
    if AllFit(items) {
      StreamRoundTrip(h, items);
    } else {
      MisfitStreamLost(h, items, g.position);
    }
  }

  /** The exception happens: an empty string written into a one-byte node. */
  lemma EmptyStringFollowsNull()
    ensures
      var f, g, items := Flat([7], 0, 0), Flat([0], 1, 1), [Item(VintString, Text([]))];
      && AllTyped(items) && AllFit(items) && Wrote(f, g, EncodeAll(items), 1)
      && ReadAll(g.At(0), Kinds(items)) == NullCursor(1)
  {
    var g, items := Flat([0], 1, 1), [Item(VintString, Text([]))];
    assert EncodeAll(items) == Encode(items[0]) + EncodeAll([]) == [0];
    StreamRoundTrip(g.At(0), items);
  }
}
