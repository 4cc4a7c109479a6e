/** Parameter parsing of HttpRequest: the scanning loop, the map it fills, and
    the lookups that trigger it. */
module HttpParams {

  import opened Words
  import opened CStrings

  type Text = seq<byte>

  datatype Pair = Pair(key: Text, value: Text)

  const EQ: byte := 61
  const AMP: byte := 38

  predicate Absent(s: Text, c: byte, from: nat, to: nat)
    requires to <= |s|
  {
    forall j :: from <= j < to ==> s[j] != c
  }

  /** std::string::find, with the length of the string for npos. */
  function Find(s: Text, c: byte, from: nat): (i: nat)
    requires from <= |s|
    ensures from <= i <= |s| && (i < |s| ==> s[i] == c)
    ensures Absent(s, c, from, i)
    decreases |s| - from
  {
    if from == |s| || s[from] == c then from else Find(s, c, from + 1)
  }

  function Cut(s: Text, pos: nat, eq: nat, end: nat): Pair
    requires pos <= eq < end <= |s|
  {
    Pair(s[pos..eq], s[eq + 1..end])
  }

  /** The pairs that the loop inserts, scanning from pos on. */
  function Pairs(s: Text, flag: byte, pos: nat): seq<Pair>
    requires pos <= |s| && flag != EQ
    decreases |s| - pos
  {
    var eq := Find(s, EQ, pos);
    if eq == |s| then []
    else
      var end := Find(s, flag, eq);
      if end == |s| then [Cut(s, pos, eq, end)] else [Cut(s, pos, eq, end)] + Pairs(s, flag, end + 1)
  }

  lemma PairsNone(s: Text, flag: byte, pos: nat)
    requires pos <= |s| && flag != EQ && Find(s, EQ, pos) == |s|
    ensures Pairs(s, flag, pos) == []
  {
  }

  lemma PairsSome(s: Text, flag: byte, pos: nat, eq: nat, end: nat)
    requires pos <= |s| && flag != EQ && eq == Find(s, EQ, pos) < |s| && end == Find(s, flag, eq)
    ensures eq < end
    ensures end == |s| ==> Pairs(s, flag, pos) == [Cut(s, pos, eq, end)]
    ensures end < |s| ==> Pairs(s, flag, pos) == [Cut(s, pos, eq, end)] + Pairs(s, flag, end + 1)
  {
    hide Find, Absent, Cut;
  }

  /** The map is ordered by strcasecmp, so it is keyed by what that compares;
      insert keeps an entry that is already there. */
  function Insert(m: map<Text, Text>, p: Pair): map<Text, Text> {
    if Key(p.key) in m then m else m[Key(p.key) := p.value]
  }

  function InsertAll(m: map<Text, Text>, ps: seq<Pair>): map<Text, Text>
    decreases |ps|
  {
    if ps == [] then m else InsertAll(Insert(m, ps[0]), ps[1..])
  }

  lemma InsertOne(m: map<Text, Text>, p: Pair, rest: seq<Pair>)
    ensures InsertAll(m, [p] + rest) == InsertAll(Insert(m, p), rest)
  {
    assert ([p] + rest)[1..] == rest;
  }

  /** PARSE_PARAM without trimming. */
  method ParseParam(s: Text, m: map<Text, Text>, flag: byte) returns (r: map<Text, Text>)
    requires flag != EQ
    ensures r == InsertAll(m, Pairs(s, flag, 0))
  {
    hide InsertAll, Insert, Find, Absent, Pairs;
    r := m;
    var pos := 0;
    while true
      invariant pos <= |s|
      invariant InsertAll(m, Pairs(s, flag, 0)) == InsertAll(r, Pairs(s, flag, pos))
      decreases |s| - pos
    {
      var last := pos;
      pos := Find(s, EQ, pos);
      if pos == |s| {
        PairsNone(s, flag, last);
        InsertNone(r);
        break;
      }
      var key := pos;
      pos := Find(s, flag, pos);
      PairsSome(s, flag, last, key, pos);
      ghost var before := r;
      r := Insert(r, Pair(s[last..key], s[key + 1..pos]));
      if pos == |s| {
        InsertLast(before, Cut(s, last, key, pos));
        break;
      }
      InsertOne(before, Cut(s, last, key, pos), Pairs(s, flag, pos + 1));
      pos := pos + 1;
    }
  }

  lemma InsertLast(m: map<Text, Text>, p: Pair)
    ensures InsertAll(m, [p]) == Insert(m, p)
  {
    assert [p][1..] == [];
  }

  lemma InsertNone(m: map<Text, Text>)
    ensures InsertAll(m, []) == m
  {
  }

  // --------------------------------------------------------------- round trip

  /** The text "k=v" for each pair, separated by flag. */
  function Joined(ps: seq<Pair>, flag: byte): Text {
    if ps == [] then []
    else ps[0].key + [EQ] + ps[0].value + (if |ps| == 1 then [] else [flag] + Joined(ps[1..], flag))
  }

  predicate Clean(p: Pair, flag: byte) {
    EQ !in p.key && flag !in p.value
  }

  ghost predicate Suffix(s: Text, pos: nat, t: Text) {
    pos <= |s| && s[pos..] == t
  }

  lemma SuffixAt(s: Text, pos: nat, t: Text, i: nat)
    requires Suffix(s, pos, t) && i < |t|
    ensures pos + i < |s| && s[pos + i] == t[i]
  {
    assert s[pos..][i] == t[i];
  }

  lemma SuffixSplit(s: Text, pos: nat, a: Text, b: Text)
    requires Suffix(s, pos, a + b)
    ensures pos + |a| <= |s| && s[pos..pos + |a|] == a && Suffix(s, pos + |a|, b)
  {
    assert s[pos..pos + |a|] == s[pos..][..|a|];
    assert s[pos + |a|..] == s[pos..][|a|..];
  }

  /** Where the parts of the first pair lie. */
  lemma Pieces(s: Text, pos: nat, p: Pair, rest: Text)
    requires Suffix(s, pos, p.key + ([EQ] + (p.value + rest)))
    ensures
      var eq := pos + |p.key|;
      var end := eq + 1 + |p.value|;
      && end <= |s| && s[pos..eq] == p.key && s[eq] == EQ && s[eq + 1..end] == p.value
      && Suffix(s, end, rest)
  {
    hide Suffix;
    var eq := pos + |p.key|;
    SuffixSplit(s, pos, p.key, [EQ] + (p.value + rest));
    SuffixAt(s, eq, [EQ] + (p.value + rest), 0);
    SuffixSplit(s, eq, [EQ], p.value + rest);
    SuffixSplit(s, eq + 1, p.value, rest);
  }

  lemma FindIs(s: Text, c: byte, from: nat, i: nat)
    requires from <= i <= |s| && Absent(s, c, from, i) && (i < |s| ==> s[i] == c)
    ensures Find(s, c, from) == i
  {
    hide Find;
  }

  /** The first pair of a joined text is found whole. */
  lemma FirstPair(s: Text, flag: byte, pos: nat, p: Pair, rest: Text)
    requires flag != EQ && Clean(p, flag) && (rest == [] || rest[0] == flag)
    requires Suffix(s, pos, p.key + ([EQ] + (p.value + rest)))
    ensures
      var eq := pos + |p.key|;
      var end := eq + 1 + |p.value|;
      && pos <= |s| && Find(s, EQ, pos) == eq < |s| && Find(s, flag, eq) == end <= |s|
      && Cut(s, pos, eq, end) == p && Suffix(s, end, rest)
  {
    Pieces(s, pos, p, rest);
    hide Find, Suffix;
    var eq := pos + |p.key|;
    var end := eq + 1 + |p.value|;
    forall i | pos <= i < eq
      ensures s[i] != EQ
    {
      assert s[i] == s[pos..eq][i - pos];
    }
    forall i | eq <= i < end
      ensures s[i] != flag
    {
      assert i > eq ==> s[i] == s[eq + 1..end][i - eq - 1];
    }
    if rest == [] {
      SuffixEnds(s, end);
    } else {
      SuffixAt(s, end, rest, 0);
    }
    FindIs(s, EQ, pos, eq);
    FindIs(s, flag, eq, end);
  }

  /** What follows the first pair of a joined text. */
  function Remainder(more: seq<Pair>, flag: byte): Text {
    if more == [] then [] else [flag] + Joined(more, flag)
  }

  lemma JoinedCons(ps: seq<Pair>, flag: byte)
    requires ps != []
    ensures Joined(ps, flag) == ps[0].key + ([EQ] + (ps[0].value + Remainder(ps[1..], flag)))
  {
  }

  /** What may follow the last pair: nothing, or a separator and text without '=';
      without any pair, text without '='. */
  predicate Ignored(tail: Text, flag: byte, ps: seq<Pair>) {
    tail == [] || (EQ !in tail && (ps != [] ==> tail[0] == flag))
  }

  lemma Regroup(a: Text, b: Text, c: Text, d: Text, e: Text)
    ensures (a + (b + (c + d))) + e == a + (b + (c + (d + e)))
  {
  }

  lemma RestIs(more: seq<Pair>, flag: byte, tail: Text)
    ensures Remainder(more, flag) + tail == if more == [] then tail else [flag] + (Joined(more, flag) + tail)
  {
    hide Joined;
  }

  lemma JoinedRest(ps: seq<Pair>, flag: byte, tail: Text)
    requires ps != []
    ensures
      var more := ps[1..];
      var rest := if more == [] then tail else [flag] + (Joined(more, flag) + tail);
      Joined(ps, flag) + tail == ps[0].key + ([EQ] + (ps[0].value + rest))
  {
    JoinedCons(ps, flag);
    hide Joined, Remainder;
    RestIs(ps[1..], flag, tail);
    Regroup(ps[0].key, [EQ], ps[0].value, Remainder(ps[1..], flag), tail);
  }

  lemma NothingMore(s: Text, flag: byte, pos: nat, tail: Text)
    requires flag != EQ && Suffix(s, pos, tail) && EQ !in tail
    ensures pos <= |s| && Pairs(s, flag, pos) == []
  {
    forall i | pos <= i < |s|
      ensures s[i] != EQ
    {
      assert s[i] == s[pos..][i - pos];
    }
    FindIs(s, EQ, pos, |s|);
    PairsNone(s, flag, pos);
  }

  /** Behind the last pair. */
  lemma LastPair(s: Text, flag: byte, end: nat, tail: Text)
    requires flag != EQ && Suffix(s, end, tail) && (tail == [] || (EQ !in tail && tail[0] == flag))
    ensures end <= |s| && (end < |s| ==> Pairs(s, flag, end + 1) == [])
  {
    if tail != [] {
      hide Pairs;
      assert tail == [flag] + tail[1..];
      SuffixNext(s, end, flag, tail[1..]);
      NothingMore(s, flag, end + 1, tail[1..]);
    }
  }

  lemma OnePair(s: Text, flag: byte, pos: nat, p: Pair, rest: Text) returns (end: nat)
    requires flag != EQ && Clean(p, flag) && (rest == [] || rest[0] == flag)
    requires Suffix(s, pos, p.key + ([EQ] + (p.value + rest)))
    ensures pos <= |s| && end <= |s| && Suffix(s, end, rest)
    ensures Pairs(s, flag, pos) == [p] + (if end == |s| then [] else Pairs(s, flag, end + 1))
  {
    hide Find, Absent, Pairs, Suffix, Clean, Cut;
    FirstPair(s, flag, pos, p, rest);
    end := pos + |p.key| + 1 + |p.value|;
    PairsSome(s, flag, pos, pos + |p.key|, end);
  }

  lemma {:induction false} PairsOfJoined(s: Text, flag: byte, pos: nat, ps: seq<Pair>, tail: Text)
    requires flag != EQ && Suffix(s, pos, Joined(ps, flag) + tail) && Ignored(tail, flag, ps)
    requires forall i :: 0 <= i < |ps| ==> Clean(ps[i], flag)
    ensures pos <= |s| && Pairs(s, flag, pos) == ps
    decreases |ps|
  {
    hide Find, Absent, Pairs;
    if ps == [] {
      assert Joined(ps, flag) + tail == tail;
      NothingMore(s, flag, pos, tail);
    } else {
      var p, more := ps[0], ps[1..];
      var rest := if more == [] then tail else [flag] + (Joined(more, flag) + tail);
      JoinedRest(ps, flag, tail);
      hide Joined, Suffix, Clean;
      var end := OnePair(s, flag, pos, p, rest);
      if more == [] {
        LastPair(s, flag, end, tail);
      } else {
        SuffixNext(s, end, flag, Joined(more, flag) + tail);
        PairsOfJoined(s, flag, end + 1, more, tail);
      }
      assert ps == [p] + more;
    }
  }

  lemma SuffixEnds(s: Text, pos: nat)
    requires Suffix(s, pos, [])
    ensures pos == |s|
  {
  }

  lemma SuffixNext(s: Text, pos: nat, c: byte, t: Text)
    requires Suffix(s, pos, [c] + t)
    ensures pos < |s| && Suffix(s, pos + 1, t)
  {
    assert s[pos + 1..] == s[pos..][1..];
  }

  /** Whatever the text, the keys found hold no '=' and the values no flag. */
  lemma {:induction false} PairsClean(s: Text, flag: byte, pos: nat)
    requires pos <= |s| && flag != EQ
    ensures forall i :: 0 <= i < |Pairs(s, flag, pos)| ==> Clean(Pairs(s, flag, pos)[i], flag)
    decreases |s| - pos
  {
    hide Find, Pairs;
    var eq := Find(s, EQ, pos);
    if eq == |s| {
      PairsNone(s, flag, pos);
    } else {
      var end := Find(s, flag, eq);
      PairsSome(s, flag, pos, eq, end);
      if end < |s| {
        PairsClean(s, flag, end + 1);
      }
    }
  }

  /** The text is the pairs joined, and then something that is ignored. */
  ghost predicate Spells(s: Text, pos: nat, flag: byte, ps: seq<Pair>, tail: Text) {
    Suffix(s, pos, Joined(ps, flag) + tail) && Ignored(tail, flag, ps)
  }

  lemma SpelledFirst(s: Text, flag: byte, pos: nat, eq: nat, end: nat)
    requires pos <= eq < end <= |s| && s[eq] == EQ
    ensures
      var c := Cut(s, pos, eq, end);
      Joined([c], flag) == s[pos..end] && s[pos..] == Joined([c], flag) + s[end..]
  {
    assert [Cut(s, pos, eq, end)][1..] == [];
  }

  lemma SpelledMore(p: Pair, more: seq<Pair>, flag: byte)
    requires more != []
    ensures Joined([p] + more, flag) == Joined([p], flag) + ([flag] + Joined(more, flag))
  {
    assert ([p] + more)[1..] == more && [p][1..] == [];
  }

  lemma SpellsMore(s: Text, flag: byte, pos: nat, end: nat, c: Pair, more: seq<Pair>, rest: Text)
    returns (tail: Text)
    requires flag != EQ && pos < end < |s| && s[end] == flag && s[pos..] == Joined([c], flag) + s[end..]
    requires Spells(s, end + 1, flag, more, rest)
    ensures Spells(s, pos, flag, [c] + more, tail)
  {
    assert s[end..] == [flag] + s[end + 1..];
    if more == [] {
      assert Joined([], flag) + rest == rest;
      tail := [flag] + rest;
    } else {
      SpelledMore(c, more, flag);
      hide Joined;
      tail := rest;
      assert s[pos..] == Joined([c] + more, flag) + tail;
    }
  }

  /** Every text is its pairs joined, and then something that is ignored. */
  lemma {:induction false} PairsSpell(s: Text, flag: byte, pos: nat) returns (tail: Text)
    requires pos <= |s| && flag != EQ
    ensures Spells(s, pos, flag, Pairs(s, flag, pos), tail)
    decreases |s| - pos
  {
    hide Find, Pairs;
    var eq := Find(s, EQ, pos);
    if eq == |s| {
      PairsNone(s, flag, pos);
      tail := s[pos..];
      assert Joined([], flag) + tail == tail;
    } else {
      var end := Find(s, flag, eq);
      PairsSome(s, flag, pos, eq, end);
      SpelledFirst(s, flag, pos, eq, end);
      var c := Cut(s, pos, eq, end);
      if end == |s| {
        tail := [];
        assert s[end..] == [];
      } else {
        hide Cut;
        var more := Pairs(s, flag, end + 1);
        tail := PairsSpell(s, flag, end + 1);
        tail := SpellsMore(s, flag, pos, end, c, more, tail);
      }
    }
  }

  /** What the scanning loop finds in any text, exactly. */
  lemma PairsExactly(s: Text, flag: byte, ps: seq<Pair>)
    requires flag != EQ
    ensures Pairs(s, flag, 0) == ps <==>
            (forall i :: 0 <= i < |ps| ==> Clean(ps[i], flag)) && exists tail :: Spells(s, 0, flag, ps, tail)
  {
    hide Pairs, Spells;
    if Pairs(s, flag, 0) == ps {
      PairsClean(s, flag, 0);
      var tail := PairsSpell(s, flag, 0);
    }
    if forall i :: 0 <= i < |ps| ==> Clean(ps[i], flag) {
      forall tail | Spells(s, 0, flag, ps, tail)
        ensures Pairs(s, flag, 0) == ps
      {
        SpellsMeans(s, flag, ps, tail);
      }
    }
  }

  lemma SpellsMeans(s: Text, flag: byte, ps: seq<Pair>, tail: Text)
    requires flag != EQ && Spells(s, 0, flag, ps, tail) && forall i :: 0 <= i < |ps| ==> Clean(ps[i], flag)
    ensures Pairs(s, flag, 0) == ps
  {
    hide Pairs, Joined;
    PairsOfJoined(s, flag, 0, ps, tail);
  }

  /** Parsing a joined text gives back its pairs, in order, if and only if no
      key holds '=' and no value holds the separator. */
  lemma JoinParse(ps: seq<Pair>, flag: byte)
    requires flag != EQ
    ensures Pairs(Joined(ps, flag), flag, 0) == ps <==> forall i :: 0 <= i < |ps| ==> Clean(ps[i], flag)
  {
    PairsClean(Joined(ps, flag), flag, 0);
    if forall i :: 0 <= i < |ps| ==> Clean(ps[i], flag) {
      assert Joined(ps, flag) + [] == Joined(ps, flag);
      PairsOfJoined(Joined(ps, flag), flag, 0, ps, []);
    }
  }

  // ------------------------------------------------------------- first one wins

  /** The first pair whose key equals k without regard to case. */
  function First(ps: seq<Pair>, k: Text): (i: nat)
    ensures i <= |ps| && (i < |ps| ==> Key(ps[i].key) == k)
    ensures forall j :: 0 <= j < i ==> Key(ps[j].key) != k
  {
    if ps == [] || Key(ps[0].key) == k then 0 else 1 + First(ps[1..], k)
  }

  /** An entry that is there stays; any other key gets its first value. */
  lemma {:induction false} FirstWins(m: map<Text, Text>, ps: seq<Pair>, k: Text)
    ensures
      var r := InsertAll(m, ps);
      var i := First(ps, k);
      && (k in r <==> k in m || i < |ps|)
      && (k in m ==> r[k] == m[k])
      && (k !in m && i < |ps| ==> r[k] == ps[i].value)
    decreases |ps|
  {
    if ps != [] {
      FirstWins(Insert(m, ps[0]), ps[1..], k);
    }
  }

  lemma {:induction false} InsertAppend(m: map<Text, Text>, a: seq<Pair>, b: seq<Pair>)
    ensures InsertAll(m, a + b) == InsertAll(InsertAll(m, a), b)
    decreases |a|
  {
    hide Insert;
    if a == [] {
      assert a + b == b;
    } else {
      assert (a + b)[1..] == a[1..] + b;
      InsertAppend(Insert(m, a[0]), a[1..], b);
    }
  }

  // ------------------------------------------------------------------- requests

  /** The two low bits of m_parseParamFlag and what they guard. */
  datatype Request = Request(
    query: Text,
    body: Text,
    headers: map<Text, Text>,
    params: map<Text, Text>,
    queryParsed: bool,
    bodyParsed: bool)

  const CONTENT_TYPE: Text := [99, 111, 110, 116, 101, 110, 116, 45, 116, 121, 112, 101]

  /** application/x-www-form-urlencoded */
  const FORM: Text := [
    97, 112, 112, 108, 105, 99, 97, 116, 105, 111, 110, 47,
    120, 45, 119, 119, 119, 45, 102, 111, 114, 109, 45,
    117, 114, 108, 101, 110, 99, 111, 100, 101, 100]

  /** strcasestr with a lower-case needle. */
  predicate Contains(s: Text, t: Text) {
    exists i :: 0 <= i <= |Key(s)| && MatchAt(Key(s), t, i)
  }

  predicate MatchAt(s: Text, t: Text, i: nat) {
    i + |t| <= |s| && s[i..i + |t|] == t
  }

  /** The names in the source. */
  lemma Spelled()
    ensures CONTENT_TYPE == Ascii("content-type") && FORM == Ascii("application/x-www-form-urlencoded")
    ensures [EQ] == Ascii("=") && [AMP] == Ascii("&")
  {
  }

  /** In s, behind a, stands t in some mixture of cases, before any NUL. */
  predicate Around(s: Text, t: Text, a: Text, m: Text, b: Text) {
    s == a + m + b && 0 !in a && 0 !in m && Lower(m) == t
  }

  /** strcasestr looks for the needle anywhere before the first NUL, in any mixture
      of cases. */
  lemma ContainsMeans(s: Text, t: Text)
    requires 0 !in t
    ensures Contains(s, t) <==>
            exists a: Text, m: Text, b: Text :: Around(s, t, a, m, b)
  {
    if Contains(s, t) {
      var i: nat :| i <= |Key(s)| && MatchAt(Key(s), t, i);
      VisibleMeans(s);
      hide Visible, Contains;
      var v := Visible(s);
      var a, m, b := v[..i], v[i..i + |t|], s[i + |t|..];
      assert s == a + m + b;
      assert Lower(m) == Lower(v)[i..i + |t|];
      assert Around(s, t, a, m, b);
    } else {
      forall a: Text, m: Text, b: Text | s == a + m + b && 0 !in a && 0 !in m
        ensures !Around(s, t, a, m, b)
      {
        InVisible(a, m, b);
        assert !MatchAt(Key(s), t, |a|);
        if |m| == |t| {
          assert Lower(m) == Lower(Visible(s))[|a|..|a| + |t|];
        }
      }
    }
  }

  lemma InVisible(a: Text, m: Text, b: Text)
    requires 0 !in a && 0 !in m
    ensures |a| + |m| <= |Visible(a + m + b)| && Visible(a + m + b)[|a|..|a| + |m|] == m
  {
    VisibleMeans(a + m + b);
  }

  predicate IsForm(headers: map<Text, Text>) {
    CONTENT_TYPE in headers && Contains(headers[CONTENT_TYPE], FORM)
  }

  function QueryPairs(r: Request): seq<Pair> {
    if r.queryParsed then [] else Pairs(r.query, AMP, 0)
  }

  function BodyPairs(r: Request): seq<Pair> {
    if r.bodyParsed || !IsForm(r.headers) then [] else Pairs(r.body, AMP, 0)
  }

  /** The pairs a request offers, in the order in which they are inserted. */
  function Offered(r: Request): seq<Pair> {
    QueryPairs(r) + BodyPairs(r)
  }

  /** The request after a lookup. */
  function Resolved(r: Request): Request {
    r.(params := InsertAll(r.params, Offered(r)), queryParsed := true, bodyParsed := true)
  }

  /** Repeated lookups change nothing. */
  lemma ResolvedTwice(r: Request)
    ensures Resolved(Resolved(r)) == Resolved(r)
  {
    assert Offered(Resolved(r)) == [];
  }

  /** A lookup in a request that has not been parsed finds what was set before,
      else the first such query parameter, else the first such form parameter. */
  lemma LookupMeans(r: Request, k: Text)
    requires !r.queryParsed && !r.bodyParsed
    ensures
      var q, b := Pairs(r.query, AMP, 0), Pairs(r.body, AMP, 0);
      var found := Resolved(r).params;
      && (k in r.params ==> k in found && found[k] == r.params[k])
      && (k !in r.params && First(q, k) < |q| ==> k in found && found[k] == q[First(q, k)].value)
      && (k !in r.params && First(q, k) == |q| ==>
            && (k in found <==> IsForm(r.headers) && First(b, k) < |b|)
            && (k in found ==> found[k] == b[First(b, k)].value))
  {
    var q, b := Pairs(r.query, AMP, 0), Pairs(r.body, AMP, 0);
    hide Pairs, InsertAll, IsForm;
    if IsForm(r.headers) {
      InsertAppend(r.params, q, b);
      FirstWins(InsertAll(r.params, q), b, k);
    } else {
      assert q + [] == q;
    }
    FirstWins(r.params, q, k);
  }

  /** The printed form of two parameter lists gives each key its first value,
      the query before the body. */
  lemma QueryBeforeBody(r: Request, q: seq<Pair>, b: seq<Pair>, k: Text)
    requires r.query == Joined(q, AMP) && forall i :: 0 <= i < |q| ==> Clean(q[i], AMP)
    requires r.body == Joined(b, AMP) && forall i :: 0 <= i < |b| ==> Clean(b[i], AMP)
    requires !r.queryParsed && !r.bodyParsed && r.params == map[] && IsForm(r.headers)
    ensures
      var all := q + b;
      var found := Resolved(r).params;
      (k in found <==> First(all, k) < |all|) && (k in found ==> found[k] == all[First(all, k)].value)
  {
    JoinParse(q, AMP);
    JoinParse(b, AMP);
    hide Pairs, Joined, IsForm;
    FirstWins(map[], q + b, k);
  }

  class HttpRequest {
    var query: Text
    var body: Text
    var headers: map<Text, Text>
    var params: map<Text, Text>
    var queryParsed: bool
    var bodyParsed: bool

    ghost function Abs(): Request
      reads this
    {
      Request(query, body, headers, params, queryParsed, bodyParsed)
    }

    constructor (q: Text, b: Text, h: map<Text, Text>)
      ensures Abs() == Request(q, b, h, map[], false, false)
    {
      query, body, headers, params := q, b, h, map[];
      queryParsed, bodyParsed := false, false;
    }

    method SetParam(key: Text, value: Text)
      modifies this
      ensures Abs() == old(Abs()).(params := old(params)[Key(key) := value])
    {
      params := params[Key(key) := value];
    }

    method InitQueryParam()
      modifies this
      ensures Abs() == old(Abs()).(params := InsertAll(old(params), old(QueryPairs(Abs()))), queryParsed := true)
    {
      hide Pairs, InsertAll;
      if queryParsed {
        InsertNone(params);
        return;
      }
      params := ParseParam(query, params, AMP);
      queryParsed := true;
    }

    method InitBodyParam()
      modifies this
      ensures Abs() == old(Abs()).(params := InsertAll(old(params), old(BodyPairs(Abs()))), bodyParsed := true)
    {
      hide Pairs, InsertAll, IsForm, Contains;
      InsertNone(params);
      if bodyParsed {
        return;
      }
      var contentType := if CONTENT_TYPE in headers then headers[CONTENT_TYPE] else [];
      FormMeans(headers, contentType);
      if !Contains(contentType, FORM) {
        bodyParsed := true;
        return;
      }
      params := ParseParam(body, params, AMP);
      bodyParsed := true;
    }

    /** getParam: the lookup itself leaves the resolved request as it is. */
    method GetParam(key: Text, def: Text) returns (value: Text)
      modifies this
      ensures Abs() == Resolved(old(Abs()))
      ensures value == if Key(key) in params then params[Key(key)] else def
    {
      hide Pairs, InsertAll, IsForm;
      InsertAppend(params, QueryPairs(Abs()), BodyPairs(Abs()));
      InitQueryParam();
      InitBodyParam();
      value := if Key(key) in params then params[Key(key)] else def;
    }
  }

  lemma FormMeans(headers: map<Text, Text>, contentType: Text)
    requires contentType == if CONTENT_TYPE in headers then headers[CONTENT_TYPE] else []
    ensures Contains(contentType, FORM) <==> IsForm(headers)
  {
    assert |Key([])| == 0;
    assert |FORM| > 0;
  }
}
