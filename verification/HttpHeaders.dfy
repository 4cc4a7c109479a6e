/** The header-field part of the generated HTTP/1.1 parser, states 13 to 18 and
    348, and its agreement with the printed form "name: value CR LF". */
module HttpHeaders {

  import opened Words

  type Text = seq<byte>

  datatype Field = Field(name: Text, value: Text)

  /** State 0 is the error state and 348 the final one. */
  datatype State = S13 | S14 | S15 | S16 | S17 | S18 | Done348 | Error0

  /** The registers of http_parser that these states use, and the fields handed
      to the http_field callback so far. */
  datatype Parser = Parser(
    cs: State,
    mark: nat,
    fieldStart: nat,
    fieldLen: nat,
    bodyStart: nat,
    fields: seq<Field>)

  const HT: byte := 9
  const LF: byte := 10
  const CR: byte := 13
  const SP: byte := 32
  const COLON: byte := 58
  const CRLF: Text := [CR, LF]

  /** The bytes that state 14 keeps as part of a name. Bytes above 127 are
      refused whether char is signed or not. */
  predicate NameByte(c: byte) {
    || 1 <= c <= 8 || 10 <= c <= 31 || c == 33 || 35 <= c <= 39 || c == 42 || c == 43
    || c == 45 || c == 46 || 48 <= c <= 57 || 65 <= c <= 90 || 94 <= c <= 122 || c == 124 || c == 126
  }

  predicate ValueByte(c: byte) {
    c != 0 && c != LF && c != CR && c != 127
  }

  predicate Blank(c: byte) {
    c == SP || c == HT
  }

  /** What the assertions at the end of http_parser_execute demand, and the
      order of the registers that makes each field lie inside the buffer. */
  predicate Bounded(buf: Text, p: nat, m: Parser) {
    && m.mark <= p && m.mark < |buf|
    && m.fieldStart <= p && m.fieldStart < |buf|
    && m.fieldLen <= |buf|
    && m.bodyStart <= |buf|
    && (m.cs.S15? || m.cs.S16? ==> m.fieldStart + m.fieldLen <= p)
  }

  /** The http_field callback with the value ending at p. */
  function Emit(buf: Text, p: nat, m: Parser): Parser
    requires p <= |buf| && m.mark <= p && m.fieldStart + m.fieldLen <= |buf|
  {
    m.(fields := m.fields + [Field(buf[m.fieldStart..m.fieldStart + m.fieldLen], buf[m.mark..p])])
  }

  /** One transition on the byte at p. */
  function Next(buf: Text, p: nat, m: Parser): (n: Parser)
    requires p < |buf| && Bounded(buf, p, m)
    ensures Bounded(buf, p + 1, n) && (n.cs.Error0? ==> Bounded(buf, p, n))
  {
    var c := buf[p];
    match m.cs
    case S13 =>
      if c == LF then m.(fieldStart := p, bodyStart := p + 1, cs := Done348)
      else if c == CR then m.(fieldStart := p, cs := S18)
      else if NameByte(c) then m.(fieldStart := p, cs := S14)
      else m.(cs := Error0)
    case S14 =>
      if c == COLON then m.(fieldLen := p - m.fieldStart, cs := S15)
      else if NameByte(c) then m
      else m.(cs := Error0)
    case S15 =>
      if c == 0 || c == 127 then m.(cs := Error0)
      else if Blank(c) then m.(mark := p)
      else if c == LF then Emit(buf, p, m.(mark := p)).(cs := S13)
      else if c == CR then Emit(buf, p, m.(mark := p)).(cs := S17)
      else m.(mark := p, cs := S16)
    case S16 =>
      if c == 0 || c == 127 then m.(cs := Error0)
      else if c == LF then Emit(buf, p, m).(cs := S13)
      else if c == CR then Emit(buf, p, m).(cs := S17)
      else m
    case S17 =>
      if c == LF then m.(cs := S13) else m.(cs := Error0)
    case S18 =>
      if c == LF then m.(bodyStart := p + 1, cs := Done348)
      else if c == COLON then m.(fieldLen := p - m.fieldStart, cs := S15)
      else if NameByte(c) then m.(cs := S14)
      else m.(cs := Error0)
    case Done348 => m
    case Error0 => m
  }

  /** The parser and the position where it stops: at the end of the buffer, on
      the offending byte, or just past the blank line. */
  function Run(buf: Text, p: nat, m: Parser): (Parser, nat)
    requires p <= |buf| && Bounded(buf, p, m)
    decreases |buf| - p
  {
    if p == |buf| || m.cs.Done348? || m.cs.Error0? then (m, p)
    else
      var n := Next(buf, p, m);
      if n.cs.Error0? then (n, p) else Run(buf, p + 1, n)
  }

  /** The registers as http_parser_execute clears them on entry. */
  function Start(bodyStart: nat): Parser {
    Parser(S13, 0, 0, 0, bodyStart, [])
  }

  class HttpParser {
    var cs: State
    var mark: nat
    var fieldStart: nat
    var fieldLen: nat
    var bodyStart: nat
    var fields: seq<Field>

    ghost function Abs(): Parser
      reads this
    {
      Parser(cs, mark, fieldStart, fieldLen, bodyStart, fields)
    }

    constructor ()
      ensures Abs() == Start(0)
    {
      cs, mark, fieldStart, fieldLen, bodyStart, fields := S13, 0, 0, 0, 0, [];
    }

    method HttpField(buf: Text, p: nat)
      requires p <= |buf| && mark <= p && fieldStart + fieldLen <= |buf|
      modifies this`fields
      ensures Abs() == Emit(buf, p, old(Abs()))
    {
      fields := fields + [Field(buf[fieldStart..fieldStart + fieldLen], buf[mark..p])];
    }

    method InName(buf: Text, p: nat)
      requires p < |buf| && Bounded(buf, p, Abs()) && (cs.S13? || cs.S14? || cs.S18?)
      modifies this
      ensures Abs() == Next(buf, p, old(Abs()))
    {
      var c := buf[p];
      if cs.S13? {
        if c == LF {
          fieldStart, bodyStart, cs := p, p + 1, Done348;
        } else if c == CR {
          fieldStart, cs := p, S18;
        } else if NameByte(c) {
          fieldStart, cs := p, S14;
        } else {
          cs := Error0;
        }
      } else if c == COLON {
        fieldLen, cs := p - fieldStart, S15;
      } else if cs.S18? && c == LF {
        bodyStart, cs := p + 1, Done348;
      } else if NameByte(c) {
        cs := S14;
      } else {
        cs := Error0;
      }
    }

    method InValue(buf: Text, p: nat)
      requires p < |buf| && Bounded(buf, p, Abs()) && (cs.S15? || cs.S16? || cs.S17?)
      modifies this
      ensures Abs() == Next(buf, p, old(Abs()))
    {
      hide NameByte;
      var c := buf[p];
      if cs.S17? {
        cs := if c == LF then S13 else Error0;
      } else if c == 0 || c == 127 {
        cs := Error0;
      } else {
        if cs.S15? {
          mark := p;
        }
        if c == LF || c == CR {
          HttpField(buf, p);
          cs := if c == LF then S13 else S17;
        } else if !(cs.S15? && Blank(c)) {
          cs := S16;
        }
      }
    }

    /** http_parser_execute entered in state 13 with the bytes from off on; it
        returns p - off. An empty buffer changes nothing. */
    method Execute(buf: Text, off: nat) returns (nread: nat)
      requires cs.S13? && off <= |buf| && (buf != [] ==> bodyStart <= |buf|)
      modifies this
      ensures buf == [] ==> Abs() == old(Abs()) && nread == 0
      ensures buf != [] ==>
        var m := Start(old(bodyStart)).(fields := old(fields));
        Bounded(buf, off, m) && (Abs(), off + nread) == Run(buf, off, m)
      ensures buf != [] ==> off + nread <= |buf| && Bounded(buf, off + nread, Abs())
    {
      hide NameByte, ValueByte, Next;
      nread := 0;
      if buf == [] {
        return;
      }
      mark, fieldStart, fieldLen := 0, 0, 0;
      ghost var start := Abs();
      var p := off;
      while p < |buf| && !cs.Done348?
        invariant off <= p <= |buf| && !cs.Error0?
        invariant Bounded(buf, p, Abs())
        invariant Run(buf, p, Abs()) == Run(buf, off, start)
        decreases |buf| - p
      {
        if cs.S13? || cs.S14? || cs.S18? {
          InName(buf, p);
        } else {
          InValue(buf, p);
        }
        if cs.Error0? {
          return p - off;
        }
        p := p + 1;
      }
      return p - off;
    }
  }

  // ------------------------------------------------------ what can be emitted

  /** A name as the automaton delimits it: a superset of the tokens of section
      3.2.6 of RFC 7230. */
  predicate NameOk(n: Text) {
    && n != [] && n[0] != LF && (|n| > 1 && n[0] == CR ==> n[1] != LF)
    && forall i :: 0 <= i < |n| ==> NameByte(n[i])
  }

  predicate ValueBytes(v: Text) {
    forall i :: 0 <= i < |v| ==> ValueByte(v[i])
  }

  predicate FieldOk(f: Field) {
    NameOk(f.name) && ValueBytes(f.value) && (f.value != [] ==> !Blank(f.value[0]))
  }

  predicate AllOk(fs: seq<Field>) {
    forall i :: 0 <= i < |fs| ==> FieldOk(fs[i])
  }

  /** What the registers hold in each state. */
  predicate Sound(buf: Text, p: nat, m: Parser)
    requires p <= |buf|
  {
    && Bounded(buf, p, m)
    && AllOk(m.fields)
    && (m.cs.S14? ==>
          var n := buf[m.fieldStart..p]; NameOk(n) && n != [CR])
    && (m.cs.S15? || m.cs.S16? ==> NameOk(buf[m.fieldStart..m.fieldStart + m.fieldLen]))
    && (m.cs.S16? ==>
          var v := buf[m.mark..p]; v != [] && ValueBytes(v) && !Blank(v[0]))
    && (m.cs.S18? ==> m.fieldStart + 1 == p && buf[m.fieldStart] == CR)
  }

  lemma NameGrows(n: Text, c: byte)
    requires NameOk(n) && n != [CR] && NameByte(c)
    ensures NameOk(n + [c]) && n + [c] != [CR]
  {
  }

  lemma NextSoundName(buf: Text, p: nat, m: Parser)
    requires p < |buf| && Sound(buf, p, m) && (m.cs.S13? || m.cs.S14? || m.cs.S18?)
    ensures Sound(buf, p + 1, Next(buf, p, m))
  {
    var c := buf[p];
    hide AllOk, ValueBytes;
    match m.cs
    case S13 =>
      assert buf[p..p + 1] == [c];
    case S14 =>
      if NameByte(c) {
        NameGrows(buf[m.fieldStart..p], c);
        assert buf[m.fieldStart..p + 1] == buf[m.fieldStart..p] + [c];
      }
    case S18 =>
      assert buf[m.fieldStart..p + 1] == [CR, c];
      assert buf[m.fieldStart..p] == [CR];
      assert NameByte(CR);
  }

  lemma EmitOk(buf: Text, p: nat, m: Parser)
    requires p <= |buf| && m.mark <= p && m.fieldStart + m.fieldLen <= |buf| && AllOk(m.fields)
    requires FieldOk(Field(buf[m.fieldStart..m.fieldStart + m.fieldLen], buf[m.mark..p]))
    ensures AllOk(Emit(buf, p, m).fields)
  {
    hide FieldOk;
  }

  lemma NextSoundValue(buf: Text, p: nat, m: Parser)
    requires p < |buf| && Sound(buf, p, m) && (m.cs.S15? || m.cs.S16? || m.cs.S17?)
    ensures Sound(buf, p + 1, Next(buf, p, m))
  {
    var c := buf[p];
    hide NameOk, NameByte;
    if m.cs.S15? {
      assert buf[p..p] == [];
      assert buf[p..p + 1] == [c];
      assert c == LF || c == CR ==> AllOk(Emit(buf, p, m.(mark := p)).fields) by {
        EmitOk(buf, p, m.(mark := p));
      }
      hide AllOk;
    } else if m.cs.S16? {
      assert buf[m.mark..p + 1] == buf[m.mark..p] + [c];
      EmitOk(buf, p, m);
      hide AllOk;
    }
  }

  lemma NextSound(buf: Text, p: nat, m: Parser)
    requires p < |buf| && Sound(buf, p, m)
    ensures Sound(buf, p + 1, Next(buf, p, m))
  {
    if m.cs.S13? || m.cs.S14? || m.cs.S18? {
      hide Sound, Next;
      NextSoundName(buf, p, m);
    } else if m.cs.S15? || m.cs.S16? || m.cs.S17? {
      hide Sound, Next;
      NextSoundValue(buf, p, m);
    }
  }

  lemma {:induction false} RunSound(buf: Text, p: nat, m: Parser)
    requires p <= |buf| && Sound(buf, p, m)
    ensures AllOk(Run(buf, p, m).0.fields)
    decreases |buf| - p
  {
    if p < |buf| && !m.cs.Done348? && !m.cs.Error0? {
      NextSound(buf, p, m);
      hide Sound, Next, AllOk;
      if Next(buf, p, m).cs.Error0? {
        assert AllOk(Next(buf, p, m).fields) by { SoundFields(buf, p + 1, Next(buf, p, m)); }
      } else {
        RunSound(buf, p + 1, Next(buf, p, m));
      }
    }
  }

  lemma SoundFields(buf: Text, p: nat, m: Parser)
    requires p <= |buf| && Sound(buf, p, m)
    ensures AllOk(m.fields) && Bounded(buf, p, m)
  {
  }

  // -------------------------------------------------------- the printed form

  function Line(f: Field): Text {
    f.name + [COLON, SP] + f.value + CRLF
  }

  function Lines(fs: seq<Field>): Text {
    if fs == [] then [] else Line(fs[0]) + Lines(fs[1..])
  }

  /** Header lines and the blank line. */
  function Block(fs: seq<Field>): Text {
    Lines(fs) + CRLF
  }

  function Stripped(v: Text): Text {
    if v != [] && Blank(v[0]) then Stripped(v[1..]) else v
  }

  lemma {:induction false} StrippedMeans(v: Text)
    ensures
      var k := |v| - |Stripped(v)|;
      && 0 <= k && Stripped(v) == v[k..]
      && (forall i :: 0 <= i < k ==> Blank(v[i]))
      && (k < |v| ==> !Blank(v[k]))
  {
    if v != [] && Blank(v[0]) {
      StrippedMeans(v[1..]);
      var k := |v| - |Stripped(v)|;
      forall i | 0 <= i < k
        ensures Blank(v[i])
      {
        if i > 0 {
          assert v[i] == v[1..][i - 1];
        }
      }
    }
  }

  function StrippedFields(fs: seq<Field>): (r: seq<Field>)
    ensures |r| == |fs|
  {
    if fs == [] then [] else [fs[0].(value := Stripped(fs[0].value))] + StrippedFields(fs[1..])
  }

  ghost predicate At(buf: Text, p: nat, s: Text) {
    p + |s| <= |buf| && buf[p..p + |s|] == s
  }

  /** Bytes of a name leave state 14 and its registers alone. */
  lemma {:induction false} RunName(buf: Text, p: nat, q: nat, m: Parser)
    requires p <= q <= |buf| && Bounded(buf, p, m) && m.cs.S14?
    requires forall i :: p <= i < q ==> NameByte(buf[i])
    ensures Bounded(buf, q, m) && Run(buf, p, m) == Run(buf, q, m)
    decreases q - p
  {
    if p < q {
      assert NameByte(buf[p]);
      RunName(buf, p + 1, q, m);
    }
  }

  /** Blanks before a value only move the mark. */
  lemma {:induction false} RunBlanks(buf: Text, p: nat, q: nat, m: Parser)
    requires p < q <= |buf| && Bounded(buf, p, m) && m.cs.S15?
    requires forall i :: p <= i < q ==> Blank(buf[i])
    ensures Bounded(buf, q, m.(mark := q - 1)) && Run(buf, p, m) == Run(buf, q, m.(mark := q - 1))
    decreases q - p
  {
    assert Blank(buf[p]);
    if p + 1 < q {
      RunBlanks(buf, p + 1, q, m.(mark := p));
    }
  }

  lemma {:induction false} RunValue(buf: Text, p: nat, q: nat, m: Parser)
    requires p <= q <= |buf| && Bounded(buf, p, m) && m.cs.S16?
    requires forall i :: p <= i < q ==> ValueByte(buf[i])
    ensures Bounded(buf, q, m) && Run(buf, p, m) == Run(buf, q, m)
    decreases q - p
  {
    if p < q {
      assert ValueByte(buf[p]);
      RunValue(buf, p + 1, q, m);
    }
  }

  lemma RunStep(buf: Text, p: nat, m: Parser)
    requires p < |buf| && Bounded(buf, p, m) && !m.cs.Done348? && !m.cs.Error0?
    requires !Next(buf, p, m).cs.Error0?
    ensures Run(buf, p, m) == Run(buf, p + 1, Next(buf, p, m))
  {
  }

  /** From state 13 over a name and its colon. */
  lemma RunNameColon(buf: Text, p: nat, m: Parser, n: Text)
    requires p <= |buf| && Bounded(buf, p, m) && m.cs.S13?
    requires NameOk(n) && At(buf, p, n + [COLON])
    ensures
      var r := m.(fieldStart := p, fieldLen := |n|, cs := S15);
      Bounded(buf, p + |n| + 1, r) && Run(buf, p, m) == Run(buf, p + |n| + 1, r)
  {
    var q := p + |n|;
    assert forall i :: 0 <= i < |n| ==> buf[p + i] == n[i] by {
      assert forall i :: 0 <= i < |n| ==> buf[p..p + |n| + 1][i] == (n + [COLON])[i];
    }
    assert buf[q] == COLON by {
      assert buf[p..p + |n| + 1][|n|] == (n + [COLON])[|n|];
    }
    hide Run, At;
    assert buf[p] == n[0];
    RunStep(buf, p, m);
    if n[0] == CR {
      var a := m.(fieldStart := p, cs := S18);
      assert |n| > 1 ==> buf[p + 1] == n[1];
      RunStep(buf, p + 1, a);
      if |n| > 1 {
        RunTail(buf, p + 2, q, a.(cs := S14), n, p);
      }
    } else {
      RunTail(buf, p + 1, q, m.(fieldStart := p, cs := S14), n, p);
    }
  }

  lemma RunTail(buf: Text, p: nat, q: nat, m: Parser, n: Text, s: nat)
    requires s < p <= q == s + |n| < |buf| && Bounded(buf, p, m) && m.cs.S14? && m.fieldStart == s
    requires forall i :: 0 <= i < |n| ==> buf[s + i] == n[i]
    requires forall i :: 0 <= i < |n| ==> NameByte(n[i])
    requires buf[q] == COLON
    ensures
      var r := m.(fieldLen := |n|, cs := S15);
      Bounded(buf, q + 1, r) && Run(buf, p, m) == Run(buf, q + 1, r)
  {
    hide Run;
    forall i | p <= i < q
      ensures NameByte(buf[i])
    {
      assert buf[s + (i - s)] == n[i - s];
    }
    RunName(buf, p, q, m);
    RunStep(buf, q, m);
  }

  /** The line end after a value: the field is emitted at the CR. */
  lemma RunLineEnd(buf: Text, p: nat, m: Parser)
    requires p + 2 <= |buf| && buf[p] == CR && buf[p + 1] == LF
    requires Bounded(buf, p, m) && (m.cs.S16? || m.cs.S15?)
    ensures
      var e := if m.cs.S15? then m.(mark := p) else m;
      Bounded(buf, p + 2, Emit(buf, p, e).(cs := S13)) && Run(buf, p, m) == Run(buf, p + 2, Emit(buf, p, e).(cs := S13))
  {
    hide Run, NameByte;
    RunStep(buf, p, m);
    RunStep(buf, p + 1, Next(buf, p, m));
  }

  /** From state 15 over blanks up to k, a value up to q and the line end. */
  lemma RunValueAndEnd(buf: Text, p: nat, k: nat, q: nat, m: Parser)
    requires p < k <= q && q + 2 <= |buf| && Bounded(buf, p, m) && m.cs.S15?
    requires forall i :: p <= i < k ==> Blank(buf[i])
    requires forall i :: k <= i < q ==> ValueByte(buf[i])
    requires k < q ==> !Blank(buf[k])
    requires buf[q] == CR && buf[q + 1] == LF
    ensures
      var r := Emit(buf, q, m.(mark := k)).(cs := S13);
      Bounded(buf, q + 2, r) && Run(buf, p, m) == Run(buf, q + 2, r)
  {
    hide Run, NameByte;
    RunBlanks(buf, p, k, m);
    var a := m.(mark := k - 1);
    if k == q {
      RunLineEnd(buf, q, a);
    } else {
      assert ValueByte(buf[k]);
      RunStep(buf, k, a);
      RunValue(buf, k + 1, q, m.(mark := k, cs := S16));
      RunLineEnd(buf, q, m.(mark := k, cs := S16));
    }
  }

  /** From state 15 over a blank, a value and the line end. */
  lemma RunValueLine(buf: Text, p: nat, m: Parser, v: Text)
    requires p <= |buf| && Bounded(buf, p, m) && m.cs.S15?
    requires ValueBytes(v) && At(buf, p, [SP] + v + CRLF)
    ensures |Stripped(v)| <= |v|
    ensures
      var q := p + 1 + |v|;
      var r := m.(mark := q - |Stripped(v)|, cs := S13,
                  fields := m.fields + [Field(buf[m.fieldStart..m.fieldStart + m.fieldLen], Stripped(v))]);
      Bounded(buf, q + 2, r) && Run(buf, p, m) == Run(buf, q + 2, r)
  {
    var q := p + 1 + |v|;
    AtValue(buf, p, v);
    StrippedMeans(v);
    hide Run, At, NameByte, Stripped, ValueBytes;
    var k := q - |Stripped(v)|;
    forall i | p <= i < k
      ensures Blank(buf[i])
    {
      assert i > p ==> buf[i] == v[i - p - 1];
    }
    assert buf[k..q] == Stripped(v);
    RunValueAndEnd(buf, p, k, q, m);
  }

  lemma AtValue(buf: Text, p: nat, v: Text)
    requires ValueBytes(v) && At(buf, p, [SP] + v + CRLF)
    ensures p + |v| + 3 <= |buf|
    ensures buf[p] == SP && buf[p + 1 + |v|] == CR && buf[p + 2 + |v|] == LF
    ensures forall i :: p < i < p + 1 + |v| ==> buf[i] == v[i - p - 1] && ValueByte(buf[i])
  {
    var s := [SP] + v + CRLF;
    assert forall i :: 0 <= i < |s| ==> buf[p + i] == s[i] by {
      assert forall i :: 0 <= i < |s| ==> buf[p..p + |s|][i] == s[i];
    }
    forall i | p < i < p + 1 + |v|
      ensures buf[i] == v[i - p - 1] && ValueByte(buf[i])
    {
      assert buf[p + (i - p)] == s[i - p] == v[i - p - 1];
    }
    assert buf[p + 0] == s[0];
    assert buf[p + (1 + |v|)] == s[1 + |v|];
    assert buf[p + (2 + |v|)] == s[2 + |v|];
  }

  lemma AtSplit(buf: Text, p: nat, a: Text, b: Text)
    requires At(buf, p, a + b)
    ensures At(buf, p, a) && At(buf, p + |a|, b)
  {
    var s := a + b;
    assert buf[p..p + |a|] == buf[p..p + |s|][..|a|];
    assert buf[p + |a|..p + |a| + |b|] == buf[p..p + |s|][|a|..];
  }

  /** One printed line emits its field and returns to state 13. */
  lemma RunLine(buf: Text, p: nat, m: Parser, f: Field)
    requires p <= |buf| && Bounded(buf, p, m) && m.cs.S13?
    requires NameOk(f.name) && ValueBytes(f.value) && At(buf, p, Line(f))
    ensures exists r: Parser ::
      && r.cs.S13? && r.fields == m.fields + [f.(value := Stripped(f.value))] && r.bodyStart == m.bodyStart
      && Bounded(buf, p + |Line(f)|, r)
      && Run(buf, p, m) == Run(buf, p + |Line(f)|, r)
  {
    hide Run, NameOk, ValueBytes, Stripped;
    var n, v := f.name, f.value;
    assert Line(f) == (n + [COLON]) + ([SP] + v + CRLF);
    AtSplit(buf, p, n + [COLON], [SP] + v + CRLF);
    RunNameColon(buf, p, m, n);
    var a := m.(fieldStart := p, fieldLen := |n|, cs := S15);
    var q := p + |n| + 1;
    AtSplit(buf, p, n, [COLON]);
    RunValueLine(buf, q, a, v);
    assert buf[p..p + |n|] == n;
  }

  /** The blank line ends the header. */
  lemma RunBlankLine(buf: Text, p: nat, m: Parser)
    requires p <= |buf| && Bounded(buf, p, m) && m.cs.S13? && At(buf, p, CRLF)
    ensures Run(buf, p, m) == (m.(fieldStart := p, bodyStart := p + 2, cs := Done348), p + 2)
  {
    assert buf[p] == buf[p..p + 2][0] == CR;
    assert buf[p + 1] == buf[p..p + 2][1] == LF;
    hide NameByte;
    RunStep(buf, p, m);
    RunStep(buf, p + 1, m.(fieldStart := p, cs := S18));
  }

  lemma BlockCons(fs: seq<Field>)
    requires fs != []
    ensures Block(fs) == Line(fs[0]) + Block(fs[1..])
  {
  }

  /** Over every header block whose names the automaton can delimit and whose
      values hold no NUL, CR, LF or DEL, each field is emitted in order without
      the blanks that lead its value, and the parser stops past the blank line. */
  lemma {:induction false} RunBlock(buf: Text, p: nat, m: Parser, fs: seq<Field>)
    requires p <= |buf| && Bounded(buf, p, m) && m.cs.S13? && At(buf, p, Block(fs))
    requires forall i :: 0 <= i < |fs| ==> NameOk(fs[i].name) && ValueBytes(fs[i].value)
    ensures
      var (r, q) := Run(buf, p, m);
      r.cs.Done348? && r.fields == m.fields + StrippedFields(fs) && q == r.bodyStart == p + |Block(fs)|
    decreases |fs|
  {
    hide Run, NameOk, ValueBytes, Stripped, Line;
    if fs == [] {
      assert Block(fs) == CRLF;
      RunBlankLine(buf, p, m);
    } else {
      hide Block, At;
      BlockCons(fs);
      AtSplit(buf, p, Line(fs[0]), Block(fs[1..]));
      RunLine(buf, p, m, fs[0]);
      var r: Parser :|
        && r.cs.S13? && r.fields == m.fields + [fs[0].(value := Stripped(fs[0].value))] && r.bodyStart == m.bodyStart
        && Bounded(buf, p + |Line(fs[0])|, r)
        && Run(buf, p, m) == Run(buf, p + |Line(fs[0])|, r);
      RunBlock(buf, p + |Line(fs[0])|, r, fs[1..]);
    }
  }

  lemma {:induction false} StrippedOk(fs: seq<Field>)
    requires AllOk(fs)
    ensures StrippedFields(fs) == fs
    decreases |fs|
  {
    if fs != [] {
      assert FieldOk(fs[0]);
      assert AllOk(fs[1..]);
      StrippedOk(fs[1..]);
    }
  }

  /** The round trip of printed header fields, exactly: in a buffer that holds
      a printed block from off on, the automaton started in state 13 gives back
      the very fields that were printed and stops past the blank line if and
      only if every name is one it can delimit and every value is free of NUL,
      CR, LF and DEL and does not start with a blank. */
  lemma PrintParse(buf: Text, off: nat, b: nat, fs: seq<Field>)
    requires At(buf, off, Block(fs)) && b <= |buf|
    ensures Bounded(buf, off, Start(b))
    ensures
      var (m, p) := Run(buf, off, Start(b));
      m.cs.Done348? && m.fields == fs && p == m.bodyStart == off + |Block(fs)| <==> AllOk(fs)
  {
    assert |Block(fs)| >= 2;
    hide Run, Block;
    RunSound(buf, off, Start(b));
    if AllOk(fs) {
      assert forall i :: 0 <= i < |fs| ==> FieldOk(fs[i]);
      RunBlock(buf, off, Start(b), fs);
      StrippedOk(fs);
    }
  }

  /** Whatever a buffer holds, the fields emitted for it print to a block that
      gives them back. */
  lemma EmittedFieldsReparse(buf: Text, off: nat, b: nat)
    requires off <= |buf| && b <= |buf| && buf != []
    ensures Bounded(buf, off, Start(b))
    ensures
      var fs := Run(buf, off, Start(b)).0.fields;
      && Bounded(Block(fs), 0, Start(0))
      && Run(Block(fs), 0, Start(0)).0.fields == fs
      && Run(Block(fs), 0, Start(0)).0.cs.Done348?
  {
    hide Run;
    RunSound(buf, off, Start(b));
    var fs := Run(buf, off, Start(b)).0.fields;
    assert At(Block(fs), 0, Block(fs));
    PrintParse(Block(fs), 0, 0, fs);
  }

  /** The names of section 3.2.6 of RFC 7230. */
  predicate TokenByte(c: byte) {
    || c == 33 || 35 <= c <= 39 || c == 42 || c == 43 || c == 45 || c == 46
    || 48 <= c <= 57 || 65 <= c <= 90 || 94 <= c <= 122 || c == 124 || c == 126
  }

  lemma TokensAreNames(n: Text)
    requires n != [] && forall i :: 0 <= i < |n| ==> TokenByte(n[i])
    ensures NameOk(n)
  {
  }
}
