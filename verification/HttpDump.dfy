/** Printing of requests and responses, and what the header automaton makes of
    the printed text. */
module HttpDump {

  import opened Basics
  import opened Words
  import opened CStrings
  import opened HttpHeaders

  /** The parts of HttpRequest and HttpResponse that dump prints. startLine is
      the request or status line with its CR LF; headers are in the order of the
      map; a request has no cookies. */
  datatype Message = Message(
    startLine: Text,
    websocket: bool,
    close: bool,
    headers: seq<Field>,
    cookies: seq<Text>,
    body: Text)

  const CONNECTION: Text := [99, 111, 110, 110, 101, 99, 116, 105, 111, 110]
  const CLOSE: Text := [99, 108, 111, 115, 101]
  const KEEP_ALIVE: Text := [107, 101, 101, 112, 45, 97, 108, 105, 118, 101]
  const CONTENT_LENGTH: Text := [99, 111, 110, 116, 101, 110, 116, 45, 108, 101, 110, 103, 116, 104]
  const SET_COOKIE: Text := [83, 101, 116, 45, 67, 111, 111, 107, 105, 101]

  function Decimal(n: nat): Text {
    if n < 10 then [48 + n] else Decimal(n / 10) + [48 + n % 10]
  }

  function Value(digits: Text): int {
    if digits == [] then 0 else 10 * Value(digits[..|digits| - 1]) + digits[|digits| - 1] - 48
  }

  lemma {:induction false} DecimalMeans(n: nat)
    ensures Decimal(n) != [] && Value(Decimal(n)) == n
    ensures forall i :: 0 <= i < |Decimal(n)| ==> 48 <= Decimal(n)[i] <= 57
  {
    if n < 10 {
      assert Value([]) == 0;
      assert [48 + n][..0] == [];
    } else {
      DecimalMeans(n / 10);
      assert Decimal(n)[..|Decimal(n)| - 1] == Decimal(n / 10);
    }
  }

  /** The header loop leaves out a connection field unless this is a web socket. */
  predicate Skipped(msg: Message, f: Field) {
    !msg.websocket && Key(f.name) == CONNECTION
  }

  function Kept(msg: Message, fs: seq<Field>): seq<Field> {
    if fs == [] then []
    else if Skipped(msg, fs[|fs| - 1]) then Kept(msg, fs[..|fs| - 1])
    else Kept(msg, fs[..|fs| - 1]) + [fs[|fs| - 1]]
  }

  function Cookies(cs: seq<Text>): seq<Field> {
    if cs == [] then [] else Cookies(cs[..|cs| - 1]) + [Field(SET_COOKIE, cs[|cs| - 1])]
  }

  function Opening(msg: Message): seq<Field> {
    if msg.websocket then [] else [Field(CONNECTION, if msg.close then CLOSE else KEEP_ALIVE)]
  }

  function Closing(msg: Message): seq<Field> {
    if msg.body == [] then [] else [Field(CONTENT_LENGTH, Decimal(|msg.body|))]
  }

  /** The fields that the printed text announces, in order. */
  function Printed(msg: Message): seq<Field> {
    Opening(msg) + Kept(msg, msg.headers) + Cookies(msg.cookies) + Closing(msg)
  }

  lemma {:induction false} LinesAppend(a: seq<Field>, b: seq<Field>)
    ensures Lines(a + b) == Lines(a) + Lines(b)
    decreases |a|
  {
    hide Line;
    if a == [] {
      assert a + b == b;
    } else {
      assert (a + b)[1..] == a[1..] + b;
      LinesAppend(a[1..], b);
    }
  }

  lemma LinesOne(fs: seq<Field>, f: Field)
    ensures Lines(fs + [f]) == Lines(fs) + Line(f)
  {
    hide Line;
    LinesAppend(fs, [f]);
    assert [f][1..] == [];
    assert Lines([f]) == Line(f) + Lines([]);
  }

  method DumpHeaders(msg: Message, before: Text) returns (os: Text)
    ensures os == before + Lines(Kept(msg, msg.headers))
  {
    hide Line, Lines, Skipped;
    os := before;
    assert Lines([]) == [] by { EmptyLines(); }
    for i := 0 to |msg.headers|
      invariant os == before + Lines(Kept(msg, msg.headers[..i]))
    {
      var f := msg.headers[i];
      assert msg.headers[..i + 1][..i] == msg.headers[..i];
      if !Skipped(msg, f) {
        LinesOne(Kept(msg, msg.headers[..i]), f);
        os := os + Line(f);
      }
    }
    assert msg.headers[..|msg.headers|] == msg.headers;
  }

  method DumpCookies(cookies: seq<Text>, before: Text) returns (os: Text)
    ensures os == before + Lines(Cookies(cookies))
  {
    hide Line, Lines;
    os := before;
    assert Lines([]) == [] by { EmptyLines(); }
    for i := 0 to |cookies|
      invariant os == before + Lines(Cookies(cookies[..i]))
    {
      assert cookies[..i + 1][..i] == cookies[..i];
      LinesOne(Cookies(cookies[..i]), Field(SET_COOKIE, cookies[i]));
      os := os + Line(Field(SET_COOKIE, cookies[i]));
    }
    assert cookies[..|cookies|] == cookies;
  }

  lemma EmptyLines()
    ensures Lines([]) == []
  {
  }

  /** dump: its text is the start line, the announced fields as a header block,
      and the body. */
  method Dump(msg: Message) returns (os: Text)
    ensures os == msg.startLine + Block(Printed(msg)) + msg.body
  {
    hide Line, Lines, Kept, Cookies, Decimal;
    EmptyLines();
    var a, d := Opening(msg), Closing(msg);
    var b, c := Kept(msg, msg.headers), Cookies(msg.cookies);
    os := msg.startLine;
    if !msg.websocket {
      LinesOne([], a[0]);
      assert [] + [a[0]] == a;
      os := os + Line(Field(CONNECTION, if msg.close then CLOSE else KEEP_ALIVE));
    }
    assert os == msg.startLine + Lines(a);
    os := DumpHeaders(msg, os);
    os := DumpCookies(msg.cookies, os);
    LinesAppend(a, b);
    LinesAppend(a + b, c);
    assert os == msg.startLine + Lines(a + b + c);
    DumpEnds(msg, os, msg.startLine, a + b + c);
    hide Opening, Closing, Block;
    if msg.body != [] {
      os := os + Line(Field(CONTENT_LENGTH, Decimal(|msg.body|))) + CRLF + msg.body;
    } else {
      os := os + CRLF;
    }
  }

  /** The length field, the blank line and the body. */
  lemma DumpEnds(msg: Message, os: Text, s: Text, fs: seq<Field>)
    requires os == s + Lines(fs)
    ensures
      var all := s + Block(fs + Closing(msg)) + msg.body;
      if msg.body == [] then all == os + CRLF
      else all == os + Line(Field(CONTENT_LENGTH, Decimal(|msg.body|))) + CRLF + msg.body
  {
    hide Line, Lines, Decimal;
    if msg.body != [] {
      var f := Closing(msg)[0];
      LinesOne(fs, f);
      assert fs + Closing(msg) == fs + [f];
      Assemble(s, Lines(fs), Line(f), CRLF);
    } else {
      assert fs + Closing(msg) == fs;
      Assemble(s, Lines(fs), [], CRLF);
    }
  }

  lemma Assemble(a: Text, b: Text, c: Text, d: Text)
    ensures a + ((b + c) + d) == ((a + b) + c) + d && b + [] == b && a + (b + d) == (a + b) + d && d + [] == d
    ensures (a + (b + d)) + [] == (a + b) + d
  {
  }

  // ------------------------------------------------------------ parsing it back

  ghost predicate Printable(msg: Message) {
    && (forall i :: 0 <= i < |msg.headers| && !Skipped(msg, msg.headers[i]) ==> FieldOk(msg.headers[i]))
    && (forall i :: 0 <= i < |msg.cookies| ==> FieldOk(Field(SET_COOKIE, msg.cookies[i])))
  }

  lemma {:induction false} KeptOk(msg: Message, fs: seq<Field>)
    ensures AllOk(Kept(msg, fs)) <==> forall i :: 0 <= i < |fs| && !Skipped(msg, fs[i]) ==> FieldOk(fs[i])
    decreases |fs|
  {
    hide FieldOk, Skipped;
    if fs != [] {
      var init, last := fs[..|fs| - 1], fs[|fs| - 1];
      KeptOk(msg, init);
      if !Skipped(msg, last) {
        AllOkAppend(Kept(msg, init), [last]);
        assert AllOk([last]) <==> FieldOk([last][0]);
      }
      assert forall i :: 0 <= i < |init| ==> init[i] == fs[i];
    }
  }

  lemma {:induction false} CookiesOk(cs: seq<Text>)
    ensures AllOk(Cookies(cs)) <==> forall i :: 0 <= i < |cs| ==> FieldOk(Field(SET_COOKIE, cs[i]))
    decreases |cs|
  {
    hide FieldOk;
    if cs != [] {
      var init, last := cs[..|cs| - 1], Field(SET_COOKIE, cs[|cs| - 1]);
      CookiesOk(init);
      AllOkAppend(Cookies(init), [last]);
      assert AllOk([last]) <==> FieldOk([last][0]);
      assert forall i :: 0 <= i < |init| ==> init[i] == cs[i];
    }
  }

  lemma AllOkAppend(a: seq<Field>, b: seq<Field>)
    ensures AllOk(a + b) <==> AllOk(a) && AllOk(b)
  {
    hide FieldOk;
    assert forall i :: 0 <= i < |a| ==> (a + b)[i] == a[i];
    assert forall i :: 0 <= i < |b| ==> (a + b)[|a| + i] == b[i];
  }

  lemma OpeningOk(msg: Message)
    ensures AllOk(Opening(msg))
  {
    assert forall i :: 0 <= i < |CONNECTION| ==> NameByte(CONNECTION[i]);
    assert ValueBytes(CLOSE) && ValueBytes(KEEP_ALIVE);
  }

  lemma ClosingOk(msg: Message)
    ensures AllOk(Closing(msg))
  {
    DecimalMeans(|msg.body|);
    hide Decimal;
    assert forall i :: 0 <= i < |CONTENT_LENGTH| ==> NameByte(CONTENT_LENGTH[i]);
  }

  lemma PrintedOk(msg: Message)
    ensures AllOk(Printed(msg)) <==> Printable(msg)
  {
    OpeningOk(msg);
    ClosingOk(msg);
    KeptOk(msg, msg.headers);
    CookiesOk(msg.cookies);
    hide AllOk, Opening, Closing, Kept, Cookies, FieldOk;
    var a, b, c, d := Opening(msg), Kept(msg, msg.headers), Cookies(msg.cookies), Closing(msg);
    AllOkAppend(a, b);
    AllOkAppend(a + b, c);
    AllOkAppend(a + b + c, d);
  }

  /** The header automaton, started after the start line of the printed text,
      gives back exactly the announced fields and finds the body exactly where
      it is, if and only if every header that is printed and every cookie can
      be read back. The automaton is that of requests, which have no cookies;
      responses are read by another parser. */
  lemma DumpParse(msg: Message, text: Text)
    requires text == msg.startLine + Block(Printed(msg)) + msg.body
    ensures Bounded(text, |msg.startLine|, Start(0))
    ensures
      var (m, p) := Run(text, |msg.startLine|, Start(0));
      m.cs.Done348? && m.fields == Printed(msg) && p == m.bodyStart == |text| - |msg.body| <==> Printable(msg)
    ensures text[|text| - |msg.body|..] == msg.body
  {
    PrintedOk(msg);
    hide Run, Block, Printed, Printable, AllOk;
    var fs := Printed(msg);
    assert At(text, |msg.startLine|, Block(fs));
    PrintParse(text, |msg.startLine|, 0, fs);
  }

  // ------------------------------------------------- what the receiver makes of it

  /** The names and values in the source. */
  lemma Spelled()
    ensures CONNECTION == Ascii("connection") && CLOSE == Ascii("close") && KEEP_ALIVE == Ascii("keep-alive")
    ensures CONTENT_LENGTH == Ascii("content-length") && SET_COOKIE == Ascii("Set-Cookie")
  {
  }

  /** setHeader for each field, then getHeader: the last field of that name. */
  function HeaderOf(fs: seq<Field>, k: Text): Option<Text> {
    if fs == [] then None
    else if Key(fs[|fs| - 1].name) == k then Some(fs[|fs| - 1].value)
    else HeaderOf(fs[..|fs| - 1], k)
  }

  /** HttpRequest::init: a connection field that is not empty says whether the
      connection is closed; without one m_close stays as it was. */
  function ClosesAfter(fs: seq<Field>, before: bool): bool {
    match HeaderOf(fs, CONNECTION)
    case None => before
    case Some(v) => if v == [] then before else Key(v) != KEEP_ALIVE
  }

  lemma {:induction false} HeaderAppend(a: seq<Field>, b: seq<Field>, k: Text)
    ensures HeaderOf(a + b, k) == if HeaderOf(b, k).Some? then HeaderOf(b, k) else HeaderOf(a, k)
    decreases |b|
  {
    hide Key;
    if b == [] {
      assert a + b == a;
    } else {
      HeaderAppend(a, b[..|b| - 1], k);
      assert (a + b)[..|a + b| - 1] == a + b[..|b| - 1];
    }
  }

  lemma {:induction false} KeptHeader(msg: Message, fs: seq<Field>, k: Text)
    ensures HeaderOf(Kept(msg, fs), k) == if !msg.websocket && k == CONNECTION then None else HeaderOf(fs, k)
    decreases |fs|
  {
    hide Key;
    if fs != [] {
      var init, last := fs[..|fs| - 1], fs[|fs| - 1];
      KeptHeader(msg, init, k);
      assert (Kept(msg, init) + [last])[..|Kept(msg, init)|] == Kept(msg, init);
    }
  }

  /** Without a connection field the headers are printed as they are. */
  lemma {:induction false} KeptAll(msg: Message, fs: seq<Field>)
    requires msg.websocket || forall i :: 0 <= i < |fs| ==> Key(fs[i].name) != CONNECTION
    ensures Kept(msg, fs) == fs
    decreases |fs|
  {
    hide Key;
    if fs != [] {
      KeptAll(msg, fs[..|fs| - 1]);
    }
  }

  lemma {:induction false} CookieHeader(cs: seq<Text>, k: Text)
    requires k != Key(SET_COOKIE)
    ensures HeaderOf(Cookies(cs), k) == None
    decreases |cs|
  {
    hide Key;
    if cs != [] {
      CookieHeader(cs[..|cs| - 1], k);
      assert Cookies(cs)[..|cs| - 1] == Cookies(cs[..|cs| - 1]) by { CookieCount(cs[..|cs| - 1]); }
    }
  }

  /** One field for each cookie, in order. */
  lemma {:induction false} CookieCount(cs: seq<Text>)
    ensures |Cookies(cs)| == |cs|
    ensures forall i :: 0 <= i < |cs| ==> Cookies(cs)[i] == Field(SET_COOKIE, cs[i])
    decreases |cs|
  {
    if cs != [] {
      CookieCount(cs[..|cs| - 1]);
    }
  }

  lemma Keys()
    ensures Key(CONNECTION) == CONNECTION && Key(CONTENT_LENGTH) == CONTENT_LENGTH && Key(KEEP_ALIVE) == KEEP_ALIVE
    ensures Key(SET_COOKIE) != CONNECTION && Key(SET_COOKIE) != CONTENT_LENGTH && Key(CLOSE) == CLOSE
  {
    hide Key;
    SmallKey(CONNECTION);
    SmallKey(CONTENT_LENGTH);
    SmallKey(KEEP_ALIVE);
    SmallKey(CLOSE);
    VisibleWhole(SET_COOKIE);
    KeyMeans(SET_COOKIE);
    assert SameLetter(Key(SET_COOKIE)[0], SET_COOKIE[0]) && SET_COOKIE[0] == 'S' as int;
    assert CONNECTION[0] == CONTENT_LENGTH[0] == 'c' as int;
  }

  /** The header k in the printed message. */
  lemma PrintedHeader(msg: Message, k: Text)
    requires k != Key(SET_COOKIE)
    ensures HeaderOf(Printed(msg), k) ==
            if msg.body != [] && k == CONTENT_LENGTH then Some(Decimal(|msg.body|))
            else if !msg.websocket && k == CONNECTION then Some(if msg.close then CLOSE else KEEP_ALIVE)
            else HeaderOf(msg.headers, k)
  {
    Keys();
    hide Key, Decimal, Kept, Cookies;
    var a, b, c, d := Opening(msg), Kept(msg, msg.headers), Cookies(msg.cookies), Closing(msg);
    HeaderAppend(a + b + c, d, k);
    HeaderAppend(a + b, c, k);
    HeaderAppend(a, b, k);
    KeptHeader(msg, msg.headers, k);
    CookieHeader(msg.cookies, k);
  }

  /** A receiver that stores the fields and calls init() closes the connection exactly
      when the sender said so, unless this is a web socket; reads as many bytes of body
      as were sent; and finds every other header as it was set. */
  lemma ReceiverAgrees(msg: Message, before: bool, k: Text)
    ensures !msg.websocket ==> ClosesAfter(Printed(msg), before) == msg.close
    ensures msg.body != [] ==>
              var length := HeaderOf(Printed(msg), CONTENT_LENGTH);
              && length.Some? && Value(length.value) == |msg.body|
              && forall i :: 0 <= i < |length.value| ==> '0' as int <= length.value[i] <= '9' as int
    ensures k != CONNECTION && k != CONTENT_LENGTH && k != Key(SET_COOKIE) ==>
              HeaderOf(Printed(msg), k) == HeaderOf(msg.headers, k)
  {
    Keys();
    DecimalMeans(|msg.body|);
    assert CLOSE != KEEP_ALIVE by { assert |CLOSE| != |KEEP_ALIVE|; }
    hide Key, Decimal, Printed, HeaderOf;
    PrintedHeader(msg, CONNECTION);
    PrintedHeader(msg, CONTENT_LENGTH);
    if k != Key(SET_COOKIE) {
      PrintedHeader(msg, k);
    }
  }
}
