/** Which texts the header automaton accepts, exactly. */
module HttpGrammar {

  import opened Words
  import opened CStrings
  import opened HttpHeaders

  /** The bytes of a name are the ASCII characters other than NUL, DEL, blank, tab and
      the separators. */
  lemma NameByteMeans(c: byte)
    ensures NameByte(c) <==> 0 < c < 127 && c !in Ascii("\t \"(),/:;<=>?@[\\]{}")
  {
    var s := Ascii("\t \"(),/:;<=>?@[\\]{}");
    assert s == [9, 32, 34, 40, 41, 44, 47, 58, 59, 60, 61, 62, 63, 64, 91, 92, 93, 123, 125];
  }

  /** Lines may end with LF alone. */
  datatype Ending = Lf | CrLf

  /** A header line: any number of blanks may stand before the value. */
  datatype Spelling = Spelling(field: Field, blanks: Text, ending: Ending)

  function Eol(e: Ending): (s: Text)
    ensures 1 <= |s| <= 2
  {
    if e.Lf? then [LF] else CRLF
  }

  predicate AllBlank(s: Text) {
    forall i :: 0 <= i < |s| ==> Blank(s[i])
  }

  predicate SpellingOk(x: Spelling) {
    FieldOk(x.field) && AllBlank(x.blanks)
  }

  function Spelled(x: Spelling): Text {
    (x.field.name + [COLON]) + (x.blanks + (x.field.value + Eol(x.ending)))
  }

  function SpelledAll(xs: seq<Spelling>, e: Ending): Text {
    if xs == [] then Eol(e) else Spelled(xs[0]) + SpelledAll(xs[1..], e)
  }

  function FieldsOf(xs: seq<Spelling>): seq<Field> {
    if xs == [] then [] else [xs[0].field] + FieldsOf(xs[1..])
  }

  predicate AllSpelled(xs: seq<Spelling>) {
    forall i :: 0 <= i < |xs| ==> SpellingOk(xs[i])
  }

  // ------------------------------------------------------- what is accepted, is read

  lemma EolAt(buf: Text, p: nat, e: Ending)
    requires At(buf, p, Eol(e))
    ensures p + |Eol(e)| <= |buf|
    ensures if e.Lf? then buf[p] == LF else buf[p] == CR && buf[p + 1] == LF
  {
    assert buf[p] == buf[p..p + |Eol(e)|][0];
    assert e.CrLf? ==> buf[p + 1] == buf[p..p + |Eol(e)|][1];
  }

  /** The registers after a value that ends at q. */
  function Emitted(buf: Text, q: nat, m: Parser, k: nat): Parser
    requires k <= q <= |buf| && m.fieldStart + m.fieldLen <= |buf|
  {
    Emit(buf, q, m.(mark := k)).(cs := S13)
  }

  lemma LineEnd(buf: Text, p: nat, m: Parser, e: Ending)
    requires p < |buf| && Bounded(buf, p, m) && (m.cs.S15? || m.cs.S16?) && At(buf, p, Eol(e))
    ensures
      var q, r := p + |Eol(e)|, Emitted(buf, p, m, if m.cs.S15? then p else m.mark);
      q <= |buf| && Bounded(buf, q, r) && Run(buf, p, m) == Run(buf, q, r)
  {
    EolAt(buf, p, e);
    hide Run, NameByte, At;
    RunStep(buf, p, m);
    if e.CrLf? {
      RunStep(buf, p + 1, Next(buf, p, m));
    }
  }

  /** From state 15 over blanks up to k, a value up to q and the line end. */
  lemma ValueLine(buf: Text, p: nat, k: nat, q: nat, e: Ending, m: Parser)
    requires p <= k <= q < |buf| && Bounded(buf, p, m) && m.cs.S15? && At(buf, q, Eol(e))
    requires forall i :: p <= i < k ==> Blank(buf[i])
    requires forall i :: k <= i < q ==> ValueByte(buf[i])
    requires k < q ==> !Blank(buf[k])
    ensures
      var n, r := q + |Eol(e)|, Emitted(buf, q, m, k);
      n <= |buf| && Bounded(buf, n, r) && Run(buf, p, m) == Run(buf, n, r)
  {
    hide Run, NameByte, At;
    var a := m;
    if p < k {
      RunBlanks(buf, p, k, m);
      a := m.(mark := k - 1);
    }
    if k < q {
      assert ValueByte(buf[k]);
      RunStep(buf, k, a);
      RunValue(buf, k + 1, q, m.(mark := k, cs := S16));
      LineEnd(buf, q, m.(mark := k, cs := S16), e);
    } else {
      LineEnd(buf, q, a, e);
    }
  }

  /** Where the parts of a value and its line end lie. */
  lemma ValueParts(buf: Text, p: nat, blanks: Text, value: Text, e: Ending)
    requires At(buf, p, blanks + (value + Eol(e))) && AllBlank(blanks) && ValueBytes(value)
    ensures
      var k := p + |blanks|;
      var q := k + |value|;
      && q < |buf| && At(buf, q, Eol(e)) && buf[k..q] == value
      && (forall i :: p <= i < k ==> Blank(buf[i])) && (forall i :: k <= i < q ==> ValueByte(buf[i]))
  {
    var k := p + |blanks|;
    AtSplit(buf, p, blanks, value + Eol(e));
    AtSplit(buf, k, value, Eol(e));
    forall i | p <= i < k
      ensures Blank(buf[i])
    {
      assert buf[i] == buf[p..k][i - p];
    }
    forall i | k <= i < k + |value|
      ensures ValueByte(buf[i])
    {
      assert buf[i] == buf[k..k + |value|][i - k];
    }
  }

  lemma AcceptLine(buf: Text, p: nat, m: Parser, x: Spelling) returns (r: Parser)
    requires p <= |buf| && Bounded(buf, p, m) && m.cs.S13? && SpellingOk(x) && At(buf, p, Spelled(x))
    ensures r.cs.S13? && r.fields == m.fields + [x.field] && p + |Spelled(x)| <= |buf|
    ensures Bounded(buf, p + |Spelled(x)|, r) && Run(buf, p, m) == Run(buf, p + |Spelled(x)|, r)
  {
    var n, v := x.field.name, x.field.value;
    hide Run, NameOk, ValueBytes;
    AtSplit(buf, p, n + [COLON], x.blanks + (v + Eol(x.ending)));
    RunNameColon(buf, p, m, n);
    var a := m.(fieldStart := p, fieldLen := |n|, cs := S15);
    var from := p + |n| + 1;
    var k := from + |x.blanks|;
    var q := k + |v|;
    ValueParts(buf, from, x.blanks, v, x.ending);
    AtSplit(buf, p, n, [COLON]);
    assert v != [] ==> buf[k] == buf[k..q][0];
    hide At, AllBlank;
    ValueLine(buf, from, k, q, x.ending, a);
    r := Emitted(buf, q, a, k);
  }

  /** The blank line ends the header. */
  lemma AcceptEnd(buf: Text, p: nat, m: Parser, e: Ending)
    requires p <= |buf| && Bounded(buf, p, m) && m.cs.S13? && At(buf, p, Eol(e))
    ensures
      var (r, q) := Run(buf, p, m);
      r.cs.Done348? && r.fields == m.fields && q == r.bodyStart == p + |Eol(e)|
  {
    EolAt(buf, p, e);
    hide NameByte, At;
    RunStep(buf, p, m);
    if e.CrLf? {
      RunStep(buf, p + 1, m.(fieldStart := p, cs := S18));
    }
  }

  /** The text from p on is a block of spelled lines; the run reads its fields and
      stops behind it. */
  ghost predicate Reads(buf: Text, p: nat, m: Parser, xs: seq<Spelling>, e: Ending) {
    && p <= |buf| && Bounded(buf, p, m) && AllSpelled(xs) && At(buf, p, SpelledAll(xs, e))
    && var (r, q) := Run(buf, p, m);
       r.cs.Done348? && r.fields == m.fields + FieldsOf(xs) && q == r.bodyStart == p + |SpelledAll(xs, e)|
  }

  lemma {:induction false} Accepts(buf: Text, p: nat, m: Parser, xs: seq<Spelling>, e: Ending)
    requires p <= |buf| && Bounded(buf, p, m) && m.cs.S13? && AllSpelled(xs) && At(buf, p, SpelledAll(xs, e))
    ensures Reads(buf, p, m, xs, e)
    decreases |xs|
  {
    hide Run, Spelled, SpellingOk, At;
    if xs == [] {
      AcceptEnd(buf, p, m, e);
    } else {
      AtSplit(buf, p, Spelled(xs[0]), SpelledAll(xs[1..], e));
      hide Reads, Bounded;
      var r := AcceptLine(buf, p, m, xs[0]);
      Accepts(buf, p + |Spelled(xs[0])|, r, xs[1..], e);
      ReadsMore(buf, p, m, xs[0], r, xs[1..], e);
      assert xs == [xs[0]] + xs[1..];
    }
  }

  // ----------------------------------------------------- what is read, is spelled so

  /** The run from p on ends behind a blank line. */
  ghost predicate Ends(buf: Text, p: nat, m: Parser) {
    p <= |buf| && Bounded(buf, p, m) && Run(buf, p, m).0.cs.Done348?
  }

  lemma EndsStep(buf: Text, p: nat, m: Parser)
    requires Ends(buf, p, m) && !m.cs.Done348?
    ensures p < |buf| && !m.cs.Error0? && !Next(buf, p, m).cs.Error0?
    ensures Ends(buf, p + 1, Next(buf, p, m)) && Run(buf, p, m) == Run(buf, p + 1, Next(buf, p, m))
  {
    hide Next;
  }

  /** The run from p on goes through r at q and ends behind a blank line. */
  ghost predicate Leads(buf: Text, p: nat, m: Parser, q: nat, r: Parser) {
    p <= |buf| && Bounded(buf, p, m) && Ends(buf, q, r) && Run(buf, p, m) == Run(buf, q, r)
  }

  lemma LeadsOn(buf: Text, p: nat, m: Parser, q: nat, r: Parser, n: nat, t: Parser)
    requires Leads(buf, p, m, q, r) && Leads(buf, q, r, n, t)
    ensures Leads(buf, p, m, n, t)
  {
    hide Run, Bounded;
  }

  lemma LeadsStep(buf: Text, p: nat, m: Parser)
    requires Ends(buf, p, m) && !m.cs.Done348?
    ensures p < |buf| && Bounded(buf, p, m) && !Next(buf, p, m).cs.Error0?
    ensures Leads(buf, p, m, p + 1, Next(buf, p, m)) && Ends(buf, p + 1, Next(buf, p, m))
  {
    EndsStep(buf, p, m);
    hide Run, Next;
  }

  lemma LeadsEnds(buf: Text, p: nat, m: Parser, q: nat, r: Parser)
    requires Leads(buf, p, m, q, r)
    ensures Ends(buf, p, m) && Ends(buf, q, r) && q <= |buf| && Bounded(buf, q, r)
    ensures Run(buf, p, m) == Run(buf, q, r)
  {
  }

  lemma Stays(buf: Text, p: nat, m: Parser)
    requires Ends(buf, p, m)
    ensures Leads(buf, p, m, p, m)
  {
  }

  /** The rest of a name, up to its colon. */
  lemma {:induction false} ScanName(buf: Text, p: nat, m: Parser) returns (q: nat)
    requires Ends(buf, p, m) && m.cs.S14? && m.fieldStart < p
    requires p <= |buf| && NameOk(buf[m.fieldStart..p]) && buf[m.fieldStart..p] != [CR]
    ensures p <= q < |buf| && buf[q] == COLON && NameOk(buf[m.fieldStart..q])
    ensures Leads(buf, p, m, q + 1, m.(fieldLen := q - m.fieldStart, cs := S15))
    decreases |buf| - p
  {
    LeadsStep(buf, p, m);
    hide Ends, Leads, Bounded;
    if buf[p] == COLON {
      q := p;
    } else {
      NameGrows(buf[m.fieldStart..p], buf[p]);
      assert buf[m.fieldStart..p + 1] == buf[m.fieldStart..p] + [buf[p]];
      q := ScanName(buf, p + 1, m);
      LeadsOn(buf, p, m, p + 1, m, q + 1, m.(fieldLen := q - m.fieldStart, cs := S15));
    }
  }

  lemma {:induction false} ScanBlanks(buf: Text, p: nat, m: Parser) returns (k: nat, mark: nat)
    requires Ends(buf, p, m) && m.cs.S15?
    ensures p <= k < |buf| && !Blank(buf[k]) && forall i :: p <= i < k ==> Blank(buf[i])
    ensures Leads(buf, p, m, k, m.(mark := mark))
    decreases |buf| - p
  {
    LeadsStep(buf, p, m);
    Stays(buf, p, m);
    hide Ends, Leads, Bounded, NameByte;
    if Blank(buf[p]) {
      k, mark := ScanBlanks(buf, p + 1, m.(mark := p));
      LeadsOn(buf, p, m, p + 1, m.(mark := p), k, m.(mark := mark));
    } else {
      k, mark := p, m.mark;
    }
  }

  lemma ScanEnd(buf: Text, q: nat, m: Parser) returns (e: Ending)
    requires Ends(buf, q, m) && (m.cs.S15? || m.cs.S16?) && q < |buf| && (buf[q] == LF || buf[q] == CR)
    ensures At(buf, q, Eol(e)) && q + |Eol(e)| <= |buf| && m.fieldStart + m.fieldLen <= |buf| && m.mark <= q
    ensures Leads(buf, q, m, q + |Eol(e)|, Emitted(buf, q, m, if m.cs.S15? then q else m.mark))
  {
    LeadsStep(buf, q, m);
    var n := Next(buf, q, m);
    hide Ends, Leads, NameByte;
    if buf[q] == LF {
      e := Lf;
      assert buf[q..q + 1] == [LF];
    } else {
      LeadsStep(buf, q + 1, n);
      e := CrLf;
      assert buf[q..q + 2] == CRLF;
      LeadsOn(buf, q, m, q + 1, n, q + 2, Next(buf, q + 1, n));
    }
  }

  lemma {:induction false} ScanValue(buf: Text, p: nat, m: Parser) returns (q: nat)
    requires Ends(buf, p, m) && m.cs.S16?
    ensures p <= q < |buf| && (buf[q] == LF || buf[q] == CR) && forall i :: p <= i < q ==> ValueByte(buf[i])
    ensures Leads(buf, p, m, q, m)
    decreases |buf| - p
  {
    LeadsStep(buf, p, m);
    Stays(buf, p, m);
    hide Ends, Leads, Bounded, NameByte;
    if buf[p] == LF || buf[p] == CR {
      q := p;
    } else {
      q := ScanValue(buf, p + 1, m);
      LeadsOn(buf, p, m, p + 1, m, q, m);
    }
  }

  /** From state 15, on a byte that is neither a blank nor a line end. */
  lemma EnterValue(buf: Text, k: nat, m: Parser)
    requires Ends(buf, k, m) && m.cs.S15? && k < |buf|
    requires !Blank(buf[k]) && buf[k] != LF && buf[k] != CR
    ensures ValueByte(buf[k]) && Leads(buf, k, m, k + 1, m.(mark := k, cs := S16))
    ensures Ends(buf, k + 1, m.(mark := k, cs := S16))
  {
    LeadsStep(buf, k, m);
    hide Ends, Leads, Bounded, NameByte;
  }

  /** From the colon to the next line. */
  lemma ScanLine(buf: Text, p: nat, m: Parser) returns (k: nat, q: nat, e: Ending)
    requires Ends(buf, p, m) && m.cs.S15?
    ensures p <= k <= q < |buf| && At(buf, q, Eol(e)) && q + |Eol(e)| <= |buf|
    ensures forall i :: p <= i < k ==> Blank(buf[i])
    ensures (forall i :: k <= i < q ==> ValueByte(buf[i])) && (k < q ==> !Blank(buf[k]))
    ensures m.fieldStart + m.fieldLen <= |buf| && Leads(buf, p, m, q + |Eol(e)|, Emitted(buf, q, m, k))
  {
    hide Run, Next, NameByte, At, Ends, Leads;
    var mark;
    k, mark := ScanBlanks(buf, p, m);
    var a := m.(mark := mark);
    LeadsEnds(buf, p, m, k, a);
    if buf[k] == LF || buf[k] == CR {
      q := k;
      e := ScanEnd(buf, k, a);
    } else {
      var b := m.(mark := k, cs := S16);
      EnterValue(buf, k, a);
      LeadsOn(buf, p, m, k, a, k + 1, b);
      q := ScanValue(buf, k + 1, b);
      LeadsEnds(buf, k + 1, b, q, b);
      LeadsOn(buf, p, m, k + 1, b, q, b);
      e := ScanEnd(buf, q, b);
      a := b;
    }
    LeadsOn(buf, p, m, q, a, q + |Eol(e)|, Emitted(buf, q, m, k));
  }

  lemma NameBegins(buf: Text, p: nat, m: Parser)
    requires Ends(buf, p, m) && m.cs.S13? && p < |buf| && buf[p] != LF && buf[p] != CR
    ensures NameByte(buf[p]) && Leads(buf, p, m, p + 1, m.(fieldStart := p, cs := S14))
  {
    LeadsStep(buf, p, m);
    hide Ends, Leads, Bounded, NameByte;
  }

  /** A name may begin with CR, unless LF follows. */
  lemma CrBegins(buf: Text, p: nat, m: Parser)
    requires Ends(buf, p, m) && m.cs.S13? && p < |buf| && buf[p] == CR && (p + 1 < |buf| ==> buf[p + 1] != LF)
    ensures p + 1 < |buf|
    ensures
      var a := m.(fieldStart := p);
      if buf[p + 1] == COLON then Leads(buf, p, m, p + 2, a.(fieldLen := 1, cs := S15))
      else NameByte(buf[p + 1]) && Leads(buf, p, m, p + 2, a.(cs := S14))
  {
    LeadsStep(buf, p, m);
    var a := m.(fieldStart := p, cs := S18);
    LeadsStep(buf, p + 1, a);
    hide Ends, Leads, NameByte;
    LeadsOn(buf, p, m, p + 1, a, p + 2, Next(buf, p + 1, a));
  }

  /** The name at the beginning of a line, unless the line is blank. */
  lemma ScanStart(buf: Text, p: nat, m: Parser) returns (q: nat)
    requires Ends(buf, p, m) && m.cs.S13? && p < |buf| && buf[p] != LF
    requires p + 1 < |buf| && buf[p] == CR ==> buf[p + 1] != LF
    ensures p < q < |buf| && buf[q] == COLON && NameOk(buf[p..q])
    ensures Leads(buf, p, m, q + 1, m.(fieldStart := p, fieldLen := q - p, cs := S15))
  {
    hide Ends, Leads, Bounded, Run;
    assert buf[p..p + 1] == [buf[p]];
    var a, b := m.(fieldStart := p, cs := S14), m.(fieldStart := p, cs := S15);
    if buf[p] == CR {
      CrBegins(buf, p, m);
      if buf[p + 1] == COLON {
        q := p + 1;
      } else {
        assert buf[p..p + 2] == [CR, buf[p + 1]];
        LeadsEnds(buf, p, m, p + 2, a);
        q := ScanName(buf, p + 2, a);
        LeadsOn(buf, p, m, p + 2, a, q + 1, b.(fieldLen := q - p));
      }
    } else {
      NameBegins(buf, p, m);
      LeadsEnds(buf, p, m, p + 1, a);
      q := ScanName(buf, p + 1, a);
      LeadsOn(buf, p, m, p + 1, a, q + 1, b.(fieldLen := q - p));
    }
  }

  /** The parts of a line make up its spelling. */
  lemma LineParts(buf: Text, p: nat, c: nat, k: nat, q: nat, e: Ending) returns (x: Spelling)
    requires p < c < k <= q < |buf| && buf[c] == COLON && NameOk(buf[p..c]) && At(buf, q, Eol(e))
    requires forall i :: c < i < k ==> Blank(buf[i])
    requires (forall i :: k <= i < q ==> ValueByte(buf[i])) && (k < q ==> !Blank(buf[k]))
    ensures SpellingOk(x) && At(buf, p, Spelled(x)) && p + |Spelled(x)| == q + |Eol(e)|
    ensures x.field == Field(buf[p..c], buf[k..q])
  {
    hide NameOk;
    x := Spelling(Field(buf[p..c], buf[k..q]), buf[c + 1..k], e);
    var end := q + |Eol(e)|;
    assert buf[p..c + 1] == buf[p..c] + [COLON];
    assert buf[k..end] == buf[k..q] + Eol(e);
    assert buf[c + 1..end] == buf[c + 1..k] + buf[k..end];
    assert buf[p..end] == buf[p..c + 1] + buf[c + 1..end];
  }

  /** A line that is not blank, as it is spelled. */
  lemma AcceptedLine(buf: Text, p: nat, m: Parser) returns (x: Spelling, r: Parser)
    requires Ends(buf, p, m) && m.cs.S13? && p < |buf| && buf[p] != LF
    requires p + 1 < |buf| && buf[p] == CR ==> buf[p + 1] != LF
    ensures SpellingOk(x) && At(buf, p, Spelled(x)) && |Spelled(x)| > 0
    ensures r.cs.S13? && r.fields == m.fields + [x.field] && Leads(buf, p, m, p + |Spelled(x)|, r)
  {
    hide Ends, Leads, At, SpellingOk, Spelled, NameOk, Blank, ValueByte;
    var c := ScanStart(buf, p, m);
    var a := m.(fieldStart := p, fieldLen := c - p, cs := S15);
    LeadsEnds(buf, p, m, c + 1, a);
    var k, q, e := ScanLine(buf, c + 1, a);
    x := LineParts(buf, p, c, k, q, e);
    r := Emitted(buf, q, a, k);
    LeadsOn(buf, p, m, c + 1, a, q + |Eol(e)|, r);
  }

  lemma JoinLines(buf: Text, p: nat, x: Spelling, rest: seq<Spelling>, e: Ending)
    requires SpellingOk(x) && AllSpelled(rest)
    requires At(buf, p, Spelled(x)) && At(buf, p + |Spelled(x)|, SpelledAll(rest, e))
    ensures
      var xs := [x] + rest;
      && AllSpelled(xs) && At(buf, p, SpelledAll(xs, e)) && FieldsOf(xs) == [x.field] + FieldsOf(rest)
      && |SpelledAll(xs, e)| == |Spelled(x)| + |SpelledAll(rest, e)|
  {
    hide SpellingOk, Spelled;
    assert ([x] + rest)[1..] == rest;
    var q := p + |Spelled(x)|;
    var r := q + |SpelledAll(rest, e)|;
    assert buf[p..r] == buf[p..q] + buf[q..r];
  }

  lemma ReadsMore(buf: Text, p: nat, m: Parser, x: Spelling, r: Parser, rest: seq<Spelling>, e: Ending)
    requires p <= |buf| && Bounded(buf, p, m) && SpellingOk(x) && At(buf, p, Spelled(x))
    requires Reads(buf, p + |Spelled(x)|, r, rest, e) && r.fields == m.fields + [x.field]
    requires Run(buf, p, m) == Run(buf, p + |Spelled(x)|, r)
    ensures Reads(buf, p, m, [x] + rest, e)
  {
    hide Run, SpellingOk, Spelled, At, Bounded, FieldsOf, SpelledAll, AllSpelled;
    JoinLines(buf, p, x, rest, e);
    assert (m.fields + [x.field]) + FieldsOf(rest) == m.fields + ([x.field] + FieldsOf(rest));
  }

  /** The text read is a block of spelled lines, and its fields are those emitted. */
  lemma {:induction false} Accepted(buf: Text, p: nat, m: Parser) returns (xs: seq<Spelling>, e: Ending)
    requires Ends(buf, p, m) && m.cs.S13?
    ensures Reads(buf, p, m, xs, e)
    decreases |buf| - p
  {
    LeadsStep(buf, p, m);
    hide Ends, Leads, SpellingOk, Spelled, Run, Next;
    if buf[p] == LF || (buf[p] == CR && p + 1 < |buf| && buf[p + 1] == LF) {
      xs, e := [], if buf[p] == LF then Lf else CrLf;
      assert buf[p..p + |Eol(e)|] == Eol(e);
      AcceptEnd(buf, p, m, e);
    } else {
      hide At, Bounded, Reads;
      var x, r := AcceptedLine(buf, p, m);
      LeadsEnds(buf, p, m, p + |Spelled(x)|, r);
      var rest;
      rest, e := Accepted(buf, p + |Spelled(x)|, r);
      xs := [x] + rest;
      ReadsMore(buf, p, m, x, r, rest, e);
    }
  }

  /** The text from off to q is a block of header lines that spell the given fields. */
  ghost predicate SpellsOut(buf: Text, off: nat, q: nat, fs: seq<Field>, xs: seq<Spelling>, e: Ending) {
    AllSpelled(xs) && At(buf, off, SpelledAll(xs, e)) && FieldsOf(xs) == fs && q == off + |SpelledAll(xs, e)|
  }

  /** The automaton, started at off, ends behind a blank line at q with the given
      fields if and only if the text from off to q is a block of header lines that
      spell them: a name it can delimit, a colon, blanks, a value without NUL, CR, LF
      and DEL that does not begin with a blank, and LF or CR LF. */
  lemma LanguageExactly(buf: Text, off: nat, b: nat, fs: seq<Field>, q: nat)
    requires off <= |buf| && b <= |buf| && buf != []
    ensures Bounded(buf, off, Start(b))
    ensures
      var (m, p) := Run(buf, off, Start(b));
      m.cs.Done348? && m.fields == fs && p == q <==> exists xs, e :: SpellsOut(buf, off, q, fs, xs, e)
  {
    var (m, p) := Run(buf, off, Start(b));
    hide Run, SpelledAll, AllSpelled, FieldsOf, At;
    if m.cs.Done348? {
      var xs, e := Accepted(buf, off, Start(b));
      assert [] + FieldsOf(xs) == FieldsOf(xs);
      assert SpellsOut(buf, off, p, m.fields, xs, e);
    }
    forall xs, e | SpellsOut(buf, off, q, fs, xs, e)
      ensures m.cs.Done348? && m.fields == fs && p == q
    {
      Accepts(buf, off, Start(b), xs, e);
      assert [] + FieldsOf(xs) == FieldsOf(xs);
    }
  }
}
