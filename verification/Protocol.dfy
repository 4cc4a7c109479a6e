/** Request, Response and Notify messages over a ByteArray. */
module Protocol {
  import opened Words
  import opened Wire
  import opened WireFormat
  import opened ByteArrays
  import Varint

  type uint32 = x: int | 0 <= x < 0x1_0000_0000

  datatype Message =
    | Request(sn: uint32, cmd: uint32)
    | Response(sn: uint32, cmd: uint32, result: uint32, resultStr: seq<byte>)
    | Notify(notify: uint32)

  const REQUEST := 1
  const RESPONSE := 2
  const NOTIFY := 3

  /** A std::string has a 64-bit length. */
  predicate Typed(m: Message) {
    m.Response? ==> |m.resultStr| < Modulus(B64)
  }

  function TypeOf(m: Message): byte {
    match m
    case Request(_, _) => REQUEST
    case Response(_, _, _, _) => RESPONSE
    case Notify(_) => NOTIFY
  }

  /** What follows the type byte. */
  function Body(m: Message): seq<byte> {
    match m
    case Request(sn, cmd) => Varint.Encode(sn) + Varint.Encode(cmd)
    case Response(sn, cmd, result, str) =>
      Varint.Encode(sn) + (Varint.Encode(cmd) + (Varint.Encode(result) + (Varint.Encode(|str|) + str)))
    case Notify(n) => Varint.Encode(n)
  }

  function Bytes(m: Message): seq<byte> {
    [TypeOf(m)] + Body(m)
  }

  function AllBytes(ms: seq<Message>): seq<byte> {
    if ms == [] then [] else Bytes(ms[0]) + AllBytes(ms[1..])
  }

  /** How a message is laid out: the number of its type, then its numbers as varints in
      the order of the class, a string behind its length. */
  ghost predicate Laid(bs: seq<byte>, m: Message) {
    match m
    case Request(sn, cmd) =>
      exists a, b :: bs == [1] + a + b && Denotes(a, sn) && Denotes(b, cmd)
    case Response(sn, cmd, result, str) =>
      exists a, b, c, d ::
        && bs == [2] + a + b + c + d + str
        && Denotes(a, sn) && Denotes(b, cmd) && Denotes(c, result) && Denotes(d, |str|)
    case Notify(n) => exists a :: bs == [3] + a && Denotes(a, n)
  }

  lemma BytesMean(m: Message)
    ensures Laid(Bytes(m), m)
  {
    hide Denotes, Varint.Encode;
    match m
    case Request(sn, cmd) =>
      EncodeDenotes(sn);
      EncodeDenotes(cmd);
      assert Bytes(m) == [1] + Varint.Encode(sn) + Varint.Encode(cmd);
    case Response(sn, cmd, result, str) =>
      EncodeDenotes(sn);
      EncodeDenotes(cmd);
      EncodeDenotes(result);
      EncodeDenotes(|str|);
      var a, b, c, d := Varint.Encode(sn), Varint.Encode(cmd), Varint.Encode(result), Varint.Encode(|str|);
      assert Bytes(m) == [2] + a + b + c + d + str;
    case Notify(n) => EncodeDenotes(n);
  }

  /** parseFromByteArray of the message class a type byte selects. */
  function ParseBody(f: Flat, t: nat): (r: Read<Message>)
    requires f.Valid() && REQUEST <= t <= NOTIFY
    ensures r.position <= f.size
  {
    if t == NOTIFY then
      var (n, p) :- ReadVarint(f, B32);
      Got(Notify(n), p)
    else
      var (sn, p) :- ReadVarint(f, B32);
      var (cmd, q) :- ReadVarint(f.At(p), B32);
      if t == REQUEST then Got(Request(sn, cmd), q)
      else
        var (result, s) :- ReadVarint(f.At(q), B32);
        var (str, e) :- ReadItem(f.At(s), VintString);
        Got(Response(sn, cmd, result, if str.Text? then str.s else []), e)
  }

  /** The messages read, or the type byte at which reading stopped. */
  datatype Parsed = Known(messages: seq<Message>) | UnknownType(t: nat)

  function ParseAll(f: Flat, n: nat): (r: Read<Parsed>)
    requires f.Valid()
    decreases n
  {
    if n == 0 then Got(Known([]), f.position)
    else
      var (t, p) :- ReadWord(f, 1, Big);
      if !(REQUEST <= t <= NOTIFY) then Got(UnknownType(t), p)
      else
        var (m, q) :- ParseBody(f.At(p), t);
        var (rest, e) :- ParseAll(f.At(q), n - 1);
        Got(if rest.Known? then Known([m] + rest.messages) else rest, e)
  }

  /** A response with an empty string that ends the last node. */
  predicate EndsAtNull(m: Message, end: nat, capacity: nat) {
    m.Response? && m.resultStr == [] && end == capacity
  }

  lemma TypeByte(f: Flat, t: byte)
    requires Holds(f, [t])
    ensures ReadWord(f, 1, Big) == Got(t, f.position + 1)
  {
    assert Reversed([t]) == [t];
    assert FromLittle([t]) == t + 256 * FromLittle([]);
  }

  lemma RequestRoundTrip(f: Flat, m: Message)
    requires m.Request? && Holds(f, Body(m))
    ensures ParseBody(f, REQUEST) == Got(m, f.position + |Body(m)|)
  {
    hide ReadVarint, Varint.Encode;
    HoldsSplit(f, Varint.Encode(m.sn), Varint.Encode(m.cmd));
    VarintRoundTrip(f, m.sn, B32);
    VarintRoundTrip(f.At(f.position + |Varint.Encode(m.sn)|), m.cmd, B32);
  }

  lemma ResponseRoundTrip(f: Flat, m: Message)
    requires m.Response? && Typed(m) && Holds(f, Body(m))
    ensures
      var end := f.position + |Body(m)|;
      ParseBody(f, RESPONSE) == if EndsAtNull(m, end, |f.data|) then NullCursor(end) else Got(m, end)
  {
    hide ReadVarint, Varint.Encode, Holds, ReadItem;
    var a, b, c := Varint.Encode(m.sn), Varint.Encode(m.cmd), Varint.Encode(m.result);
    var d := Varint.Encode(|m.resultStr|) + m.resultStr;
    HoldsSplit(f, a, b + (c + d));
    VarintRoundTrip(f, m.sn, B32);
    var f1 := f.At(f.position + |a|);
    HoldsSplit(f1, b, c + d);
    VarintRoundTrip(f1, m.cmd, B32);
    var f2 := f1.At(f1.position + |b|);
    HoldsSplit(f2, c, d);
    VarintRoundTrip(f2, m.result, B32);
    VintStringRoundTrip(f2.At(f2.position + |c|), m.resultStr);
  }

  /** Parsing what was serialized gives the message back, all fields of it. */
  lemma BodyRoundTrip(f: Flat, m: Message)
    requires Typed(m) && Holds(f, Body(m))
    ensures
      var end := f.position + |Body(m)|;
      ParseBody(f, TypeOf(m)) == if EndsAtNull(m, end, |f.data|) then NullCursor(end) else Got(m, end)
  {
    match m
    case Request(_, _) => RequestRoundTrip(f, m);
    case Response(_, _, _, _) => ResponseRoundTrip(f, m);
    case Notify(n) => VarintRoundTrip(f, n, B32);
  }

  predicate TrailingNull(ms: seq<Message>, end: nat, capacity: nat) {
    ms != [] && EndsAtNull(ms[|ms| - 1], end, capacity)
  }

  /** One message in front of whatever the rest parses as. */
  function Cons(m: Message, r: Read<Parsed>): Read<Parsed> {
    if r.Got? && r.value.Known? then Got(Known([m] + r.value.messages), r.position) else r
  }

  lemma FirstMessage(f: Flat, m: Message, n: nat)
    requires Typed(m) && Holds(f, Bytes(m))
    ensures
      var end := f.position + |Bytes(m)|;
      ParseAll(f, n + 1) ==
      if EndsAtNull(m, end, |f.data|) then NullCursor(end) else Cons(m, ParseAll(f.At(end), n))
  {
    hide ParseBody, Body, Holds, ReadWord, EndsAtNull, Typed;
    HoldsSplit(f, [TypeOf(m)], Body(m));
    TypeByte(f, TypeOf(m));
    BodyRoundTrip(f.At(f.position + 1), m);
  }

  lemma {:induction false} MessagesRoundTrip(f: Flat, ms: seq<Message>)
    requires (forall m :: m in ms ==> Typed(m)) && Holds(f, AllBytes(ms))
    ensures
      var end := f.position + |AllBytes(ms)|;
      ParseAll(f, |ms|) == if TrailingNull(ms, end, |f.data|) then NullCursor(end) else Got(Known(ms), end)
    decreases |ms|
  {
    hide Holds, ParseAll, Bytes, Typed, AllBytes;
    AllBytesSplit(ms);
    if ms == [] {
      NothingLeft(f);
    } else {
      hide TrailingNull;
      var m, rest := ms[0], ms[1..];
      AllBytesSplit(rest);
      HoldsSplit(f, Bytes(m), AllBytes(rest));
      FirstMessage(f, m, |rest|);
      MessagesRoundTrip(f.At(f.position + |Bytes(m)|), rest);
      EndInside(f, Bytes(m), AllBytes(rest));
      NullLast(m, rest, f.position + |AllBytes(ms)|, |f.data|);
      assert [m] + rest == ms;
    }
  }

  /** Only the last message can end at the null node. */
  lemma NullLast(m: Message, rest: seq<Message>, end: nat, capacity: nat)
    ensures TrailingNull([m] + rest, end, capacity) ==
            if rest == [] then EndsAtNull(m, end, capacity) else TrailingNull(rest, end, capacity)
  {
  }

  lemma AllBytesSplit(ms: seq<Message>)
    ensures AllBytes(ms) == if ms == [] then [] else Bytes(ms[0]) + AllBytes(ms[1..])
    ensures ms != [] ==> |AllBytes(ms)| > 0
  {
  }

  lemma NothingLeft(f: Flat)
    requires Holds(f, [])
    ensures f.Valid() && ParseAll(f, 0) == Got(Known([]), f.position)
  {
  }

  lemma EndInside(f: Flat, a: seq<byte>, b: seq<byte>)
    requires Holds(f, a + b)
    ensures f.position + |a| + |b| <= |f.data|
  {
  }

  /** Any messages, written one after the other, rewound and parsed, come back
      and consume exactly the bytes written; exactly when they do not end with
      a response whose empty string is flush with the capacity. */
  lemma WriteRewindParse(f: Flat, g: Flat, ms: seq<Message>, base: nat)
    requires f.Valid() && (forall m :: m in ms ==> Typed(m)) && Wrote(f, g, AllBytes(ms), base)
    ensures g.At(f.position).Valid()
    ensures ParseAll(g.At(f.position), |ms|) == Got(Known(ms), g.position)
       <==> !TrailingNull(ms, g.position, |g.data|)
  {
    hide ParseAll, AllBytes, Typed, Wrote, Holds;
    WroteHolds(f, g, AllBytes(ms), base);
    MessagesRoundTrip(g.At(f.position), ms);
  }

  /** serializeToByteArray of the three classes. */
  method Serialize(b: ByteArray, m: Message)
    requires b.Valid() && Typed(m)
    modifies b, b.repr
    ensures b.Valid() && fresh(b.repr - old(b.repr))
    ensures Wrote(old(b.Abs()), b.Abs(), Bytes(m), b.baseSize)
  {
    hide DataOf, Chain, Owned, Wrote, Body, Typed, TypeOf;
    b.ValidAbs();
    WriteType(b, TypeOf(m));
    ghost var f := b.Abs();
    SerializeBody(b, m);
    WroteThen(old(b.Abs()), f, b.Abs(), [TypeOf(m)], Body(m), b.baseSize);
  }

  method WriteType(b: ByteArray, t: byte)
    requires b.Valid()
    modifies b, b.repr
    ensures b.Valid() && fresh(b.repr - old(b.repr))
    ensures Wrote(old(b.Abs()), b.Abs(), [t], b.baseSize)
  {
    assert Pow256(1) == 256;
    hide DataOf, Chain, Owned, Wrote, InMemory, Pow256;
    b.WriteWord(t, 1);
    OneByte(t, b.order);
  }

  method SerializeBody(b: ByteArray, m: Message)
    requires b.Valid() && Typed(m)
    modifies b, b.repr
    ensures b.Valid() && fresh(b.repr - old(b.repr))
    ensures Wrote(old(b.Abs()), b.Abs(), Body(m), b.baseSize)
  {
    hide DataOf, Chain, Owned, Wrote, Varint.Encode;
    b.ValidAbs();
    match m
    case Request(sn, cmd) =>
      b.WriteVarint(sn, B32);
      ghost var f := b.Abs();
      b.WriteVarint(cmd, B32);
      WroteThen(old(b.Abs()), f, b.Abs(), Varint.Encode(sn), Varint.Encode(cmd), b.baseSize);
    case Response(_, _, _, _) =>
      SerializeResponse(b, m);
    case Notify(n) =>
      b.WriteVarint(n, B32);
  }

  method SerializeResponse(b: ByteArray, m: Message)
    requires b.Valid() && Typed(m) && m.Response?
    modifies b, b.repr
    ensures b.Valid() && fresh(b.repr - old(b.repr))
    ensures Wrote(old(b.Abs()), b.Abs(), Body(m), b.baseSize)
  {
    hide DataOf, Chain, Owned, Wrote, Varint.Encode;
    b.ValidAbs();
    b.WriteVarint(m.sn, B32);
    ghost var f1 := b.Abs();
    b.ValidAbs();
    b.WriteVarint(m.cmd, B32);
    ghost var f2 := b.Abs();
    SerializeResult(b, m.result, m.resultStr);
    ghost var c := Varint.Encode(m.result) + (Varint.Encode(|m.resultStr|) + m.resultStr);
    WroteThen(f1, f2, b.Abs(), Varint.Encode(m.cmd), c, b.baseSize);
    WroteThen(old(b.Abs()), f1, b.Abs(), Varint.Encode(m.sn), Varint.Encode(m.cmd) + c, b.baseSize);
  }

  /** The fields that only a response has. */
  method SerializeResult(b: ByteArray, result: nat, text: seq<byte>)
    requires b.Valid() && result < Modulus(B32) && |text| < Modulus(B64)
    modifies b, b.repr
    ensures b.Valid() && fresh(b.repr - old(b.repr))
    ensures
      Wrote(old(b.Abs()), b.Abs(), Varint.Encode(result) + (Varint.Encode(|text|) + text), b.baseSize)
  {
    hide DataOf, Chain, Owned, Wrote, Varint.Encode;
    b.ValidAbs();
    b.WriteVarint(result, B32);
    ghost var f := b.Abs();
    b.ValidAbs();
    b.WriteStringVint(text);
    WroteThen(old(b.Abs()), f, b.Abs(), Varint.Encode(result), Varint.Encode(|text|) + text, b.baseSize);
  }

  lemma OneByte(t: byte, order: Order)
    ensures InMemory(t, 1, order) == [t]
  {
    assert LittleBytes(t, 1) == [t % 256] + LittleBytes(t / 256, 0);
    assert Reversed([t]) == [t];
  }

  /** parseFromByteArray: the fields in order, up to the first failure. */
  method Parse(b: ByteArray, t: nat) returns (r: Read<Message>)
    requires b.Valid() && REQUEST <= t <= NOTIFY
    modifies b`position, b`cur, b`order
    ensures b.Valid() && b.Data() == old(b.Data())
    ensures old(b.Abs()).Valid() && r == ParseBody(old(b.Abs()), t) && b.position == r.position
  {
    hide DataOf, Chain, Owned, Wire.ReadVarint, Wire.ReadItem;
    b.ValidAbs();
    var first := b.ReadVarint(B32);
    if !first.Got? {
      return first.PropagateFailure();
    }
    if t == NOTIFY {
      return Got(Notify(first.value), first.position);
    }
    var cmd := b.ReadVarint(B32);
    if !cmd.Got? {
      return cmd.PropagateFailure();
    }
    if t == REQUEST {
      return Got(Request(first.value, cmd.value), cmd.position);
    }
    var result := b.ReadVarint(B32);
    if !result.Got? {
      return result.PropagateFailure();
    }
    var str := b.ReadItem(VintString);
    if !str.Got? {
      return str.PropagateFailure();
    }
    var text := if str.value.Text? then str.value.s else [];
    return Got(Response(first.value, cmd.value, result.value, text), str.position);
  }

  method SerializeAll(b: ByteArray, ms: seq<Message>)
    requires b.Valid() && forall m :: m in ms ==> Typed(m)
    modifies b, b.repr
    ensures b.Valid() && fresh(b.repr - old(b.repr))
    ensures Wrote(old(b.Abs()), b.Abs(), AllBytes(ms), b.baseSize)
    decreases |ms|
  {
    hide DataOf, Chain, Owned, Wrote, Bytes, Typed;
    b.ValidAbs();
    if ms == [] {
      WroteNothing(b.Abs(), b.baseSize);
      return;
    }
    Serialize(b, ms[0]);
    ghost var f := b.Abs();
    b.ValidAbs();
    SerializeAll(b, ms[1..]);
    WroteThen(old(b.Abs()), f, b.Abs(), Bytes(ms[0]), AllBytes(ms[1..]), b.baseSize);
  }

  /** A single byte has no byte order. */
  lemma ByteOrder(f: Flat, order: Order)
    requires f.Valid()
    ensures ReadWord(f, 1, order) == ReadWord(f, 1, Big)
  {
    forall s: seq<byte> | |s| == 1
      ensures FromMemory(s, order) == FromMemory(s, Big)
    {
      assert Reversed(s) == s;
    }
  }

  /** n times: the type byte, and the parser it selects. */
  method ParseMessages(b: ByteArray, n: nat) returns (r: Read<Parsed>)
    requires b.Valid()
    modifies b`position, b`cur, b`order
    ensures b.Valid() && b.Data() == old(b.Data())
    ensures old(b.Abs()).Valid() && r == ParseAll(old(b.Abs()), n) && b.position == r.position
    decreases n
  {
    hide DataOf, Chain, Owned, Wire.ReadWord, ParseBody;
    b.ValidAbs();
    if n == 0 {
      return Got(Known([]), b.position);
    }
    ByteOrder(b.Abs(), b.order);
    var t := b.ReadWord(1);
    if !t.Got? {
      return t.PropagateFailure();
    }
    if !(REQUEST <= t.value <= NOTIFY) {
      return Got(UnknownType(t.value), t.position);
    }
    var m := Parse(b, t.value);
    if !m.Got? {
      return m.PropagateFailure();
    }
    var rest := ParseMessages(b, n - 1);
    if !rest.Got? {
      return rest;
    }
    return Got(if rest.value.Known? then Known([m.value] + rest.value.messages) else rest.value, rest.position);
  }

  /** Write any messages at the cursor, rewind, parse as many. */
  method RoundTrip(b: ByteArray, ms: seq<Message>) returns (r: Read<Parsed>)
    requires b.Valid() && forall m :: m in ms ==> Typed(m)
    modifies b, b.repr
    ensures b.Valid()
    ensures r == Got(Known(ms), old(b.position) + |AllBytes(ms)|)
       <==> !TrailingNull(ms, old(b.position) + |AllBytes(ms)|, b.capacity)
  {
    hide DataOf, Chain, Owned, AllBytes, Typed, ParseAll;
    b.ValidAbs();
    var p := b.position;
    SerializeAll(b, ms);
    ghost var g := b.Abs();
    b.ValidAbs();
    WriteRewindParse(old(b.Abs()), g, ms, b.baseSize);
    var ok := b.SetPosition(p);
    r := ParseMessages(b, |ms|);
  }
}
