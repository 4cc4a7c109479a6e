/** The lease accounting of HttpConnectionPool. The list of idle connections is
    guarded by a mutex; m_total is an atomic counter that is adjusted outside
    of it, so other threads run between the two. */
module ConnectionPools {
  import opened Basics

  type Id = nat

  /** leases counts how often getConnection has handed the connection out. */
  datatype Conn = Conn(createTime: nat, requests: nat, leases: nat)

  /** pending holds connections that were created and not yet counted; owed is
      the number of deleted connections not yet subtracted from total. */
  datatype Pool = Pool(
    maxAlive: nat,
    maxRequest: nat,
    conns: map<Id, Conn>,
    idle: seq<Id>,
    leased: set<Id>,
    pending: set<Id>,
    owed: nat,
    total: int)

  datatype Step =
    | Scan(now: nat, up: set<Id>)
    | Subtract(n: nat)
    | Open(id: Id, createTime: nat)
    | Count(id: Id)
    | Release(id: Id, now: nat, connected: bool)

  const U64: nat := 0x1_0000_0000_0000_0000

  /** m_createTime + m_maxAliveTime < now in 64-bit unsigned arithmetic. */
  predicate Expired(createTime: nat, maxAlive: nat, now: nat) {
    (createTime + maxAlive) % U64 < now
  }

  /** The index of the first element of s in good, or |s|. */
  function FirstGood<T(==)>(s: seq<T>, good: set<T>): (k: nat)
    ensures k <= |s| && (k < |s| ==> s[k] in good)
    ensures forall i :: 0 <= i < k ==> s[i] !in good
  {
    if s == [] || s[0] in good then 0 else 1 + FirstGood(s[1..], good)
  }

  /** What is left of s after the loop has taken its first good element and
      everything before it. */
  function Beyond<T(==)>(s: seq<T>, good: set<T>): seq<T> {
    var k := FirstGood(s, good);
    if k < |s| then s[k + 1..] else []
  }

  /** Connections that getConnection may hand out at this moment. */
  function Usable(p: Pool, now: nat, up: set<Id>): set<Id> {
    set id | id in up && id in p.conns && !Expired(p.conns[id].createTime, p.maxAlive, now)
  }

  predicate Enabled(p: Pool, step: Step) {
    match step
    case Scan(_, _) => true
    case Subtract(n) => n <= p.owed
    case Open(id, _) => id !in p.conns
    case Count(id) => id in p.pending && id in p.conns
    case Release(id, _, _) => id in p.leased && id in p.conns
  }

  function Lease(p: Pool, id: Id): Pool
    requires id in p.conns
  {
    p.(leased := p.leased + {id}, conns := p.conns[id := p.conns[id].(leases := p.conns[id].leases + 1)])
  }

  function Forget(p: Pool, ids: seq<Id>): Pool {
    p.(conns := map id | id in p.conns && id !in ids :: p.conns[id], owed := p.owed + |ids|)
  }

  /** The list is cut behind its element k; that one is leased, those before it are deleted. */
  function Take(p: Pool, k: nat): Pool
    requires k <= |p.idle|
  {
    var q := Forget(p, p.idle[..k]).(idle := if k < |p.idle| then p.idle[k + 1..] else []);
    if k < |p.idle| && p.idle[k] in q.conns then Lease(q, p.idle[k]) else q
  }

  function Apply(p: Pool, step: Step): Pool
    requires Enabled(p, step)
  {
    match step
    case Scan(now, up) => Take(p, FirstGood(p.idle, Usable(p, now, up)))
    case Subtract(n) => p.(total := p.total - n, owed := p.owed - n)
    case Open(id, createTime) =>
      p.(conns := p.conns[id := Conn(createTime, 0, 0)], pending := p.pending + {id})
    case Count(id) =>
      Lease(p.(total := p.total + 1, pending := p.pending - {id}), id)
    case Release(id, now, connected) =>
      var c := p.conns[id].(requests := p.conns[id].requests + 1);
      var q := p.(leased := p.leased - {id}, conns := p.conns[id := c]);
      if !connected || Expired(c.createTime, p.maxAlive, now) || c.requests >= p.maxRequest then Forget(q, [id])
      else q.(idle := q.idle + [id])
  }

  ghost predicate Run(p: Pool, steps: seq<Step>)
    decreases |steps|
  {
    steps == [] || (Enabled(p, steps[0]) && Run(Apply(p, steps[0]), steps[1..]))
  }

  ghost function After(p: Pool, steps: seq<Step>): Pool
    requires Run(p, steps)
    decreases |steps|
  {
    if steps == [] then p else After(Apply(p, steps[0]), steps[1..])
  }

  // ---------------------------------------------------------------- invariants

  /** Every live connection is in exactly one place. */
  ghost predicate Placed(p: Pool) {
    && Distinct(p.idle)
    && p.leased !! p.pending
    && (forall id :: id in p.idle ==> id !in p.leased && id !in p.pending)
    && (forall id :: id in p.conns <==> id in p.idle || id in p.leased || id in p.pending)
  }

  /** How often a connection has been handed out, by where it is. */
  ghost predicate Counted(p: Pool) {
    forall id :: id in p.conns ==>
      var c := p.conns[id];
      && (id in p.idle ==> c.leases == c.requests && 0 < c.requests < p.maxRequest)
      && (id in p.leased ==> c.leases == c.requests + 1 && (c.requests == 0 || c.requests < p.maxRequest))
      && (id in p.pending ==> c.leases == c.requests == 0)
  }

  ghost predicate Balanced(p: Pool) {
    p.total == |p.idle| + |p.leased| + p.owed
  }

  ghost predicate Inv(p: Pool) {
    Placed(p) && Counted(p) && Balanced(p)
  }

  /** The three parts of the idle list around the chosen element. */
  lemma Around(s: seq<Id>, k: nat)
    requires Distinct(s) && k < |s|
    ensures Distinct(s[k + 1..]) && s[k] !in s[..k] && s[k] !in s[k + 1..]
    ensures forall id :: id in s <==> id in s[..k] || id == s[k] || id in s[k + 1..]
    ensures forall id :: id in s[..k] ==> id !in s[k + 1..]
  {
    assert s == s[..k] + [s[k]] + s[k + 1..];
  }

  lemma TakePlaced(p: Pool, k: nat)
    requires Placed(p) && k < |p.idle|
    ensures Placed(Take(p, k)) && p.idle[k] !in p.leased && Take(p, k).leased == p.leased + {p.idle[k]}
  {
    Around(p.idle, k);
    hide Distinct;
    assert p.idle[k] in p.idle;
  }

  lemma TakeCounted(p: Pool, k: nat)
    requires Placed(p) && Counted(p) && k < |p.idle|
    ensures Counted(Take(p, k))
  {
    Around(p.idle, k);
    hide Distinct;
    assert p.idle[k] in p.idle;
  }

  lemma TakeBalanced(p: Pool, k: nat)
    requires Placed(p) && Balanced(p) && k < |p.idle|
    ensures Balanced(Take(p, k))
  {
    Around(p.idle, k);
    hide Distinct;
    assert p.idle[k] in p.idle;
    assert |p.leased + {p.idle[k]}| == |p.leased| + 1;
  }

  lemma TakeAll(p: Pool)
    requires Inv(p)
    ensures Inv(Take(p, |p.idle|))
  {
    assert p.idle[..|p.idle|] == p.idle;
  }

  lemma ScanKeeps(p: Pool, now: nat, up: set<Id>)
    requires Inv(p)
    ensures Inv(Apply(p, Scan(now, up)))
    ensures
      var k := FirstGood(p.idle, Usable(p, now, up));
      k < |p.idle| ==>
        p.idle[k] !in p.leased && Apply(p, Scan(now, up)).leased == p.leased + {p.idle[k]}
  {
    var k := FirstGood(p.idle, Usable(p, now, up));
    hide Usable, Placed, Counted, Balanced, Take, FirstGood;
    if k < |p.idle| {
      TakePlaced(p, k);
      TakeCounted(p, k);
      TakeBalanced(p, k);
    } else {
      TakeAll(p);
    }
  }

  /** A connection is too old once it has lived longer than the pool allows, if the
      sum fits 64 bits; otherwise once the clock has passed what is left of the sum. */
  lemma ExpiredMeans(createTime: nat, maxAlive: nat, now: nat)
    requires createTime < U64 && maxAlive < U64
    ensures Expired(createTime, maxAlive, now) <==>
            now > createTime + maxAlive || (createTime + maxAlive >= U64 && now > createTime + maxAlive - U64)
  {
  }

  /** A connection that getConnection passes over. */
  predicate Unfit(p: Pool, id: Id, now: nat, up: set<Id>)
    requires id in p.conns
  {
    id !in up || Expired(p.conns[id].createTime, p.maxAlive, now)
  }

  /** getConnection takes the first idle connection that is up and not too old,
      deletes those before it, and leaves those behind it in their order. */
  lemma ScanMeans(p: Pool, now: nat, up: set<Id>) returns (k: nat)
    requires Inv(p)
    ensures k <= |p.idle| && forall i :: 0 <= i < |p.idle| ==> p.idle[i] in p.conns
    ensures forall i :: 0 <= i < k ==> Unfit(p, p.idle[i], now, up)
    ensures k < |p.idle| ==> !Unfit(p, p.idle[k], now, up)
    ensures
      var t := Apply(p, Scan(now, up));
      && t.owed == p.owed + k && t.total == p.total && t.pending == p.pending
      && t.idle == (if k < |p.idle| then p.idle[k + 1..] else [])
      && t.leased == (if k < |p.idle| then p.leased + {p.idle[k]} else p.leased)
      && (forall id :: id in t.conns <==> id in p.conns && id !in p.idle[..k])
      && (forall id :: id in t.conns ==>
            var leases := p.conns[id].leases + if k < |p.idle| && id == p.idle[k] then 1 else 0;
            t.conns[id] == p.conns[id].(leases := leases))
  {
    k := FirstGood(p.idle, Usable(p, now, up));
    forall i | 0 <= i < |p.idle|
      ensures p.idle[i] in p.conns
    {
      assert p.idle[i] in p.idle;
    }
    if k < |p.idle| {
      Around(p.idle, k);
    }
    hide Distinct, Expired, FirstGood;
  }

  /** A connection that comes back is kept, behind all idle ones, if it is up, not too
      old and has been used fewer times than the pool allows; otherwise it is deleted. */
  lemma ReleaseMeans(p: Pool, id: Id, now: nat, connected: bool)
    requires Enabled(p, Release(id, now, connected))
    ensures
      var t := Apply(p, Release(id, now, connected));
      var c := p.conns[id].(requests := p.conns[id].requests + 1);
      && t.leased == p.leased - {id} && t.total == p.total && t.pending == p.pending
      && (if connected && !Expired(c.createTime, p.maxAlive, now) && c.requests < p.maxRequest
          then t.idle == p.idle + [id] && t.conns == p.conns[id := c] && t.owed == p.owed
          else t.idle == p.idle && t.conns == p.conns - {id} && t.owed == p.owed + 1)
  {
    hide Expired;
    var t := Apply(p, Release(id, now, connected));
    if t.owed != p.owed {
      assert forall x :: x in t.conns <==> x in p.conns && x != id;
    }
  }

  lemma ReleaseKeeps(p: Pool, id: Id, now: nat, connected: bool)
    requires Inv(p) && Enabled(p, Release(id, now, connected))
    ensures Inv(Apply(p, Release(id, now, connected)))
  {
    hide Expired;
    assert p.leased == (p.leased - {id}) + {id};
    assert |[id]| == 1 && [id][0] == id;
  }

  lemma OpenKeeps(p: Pool, id: Id, createTime: nat)
    requires Inv(p) && id !in p.conns
    ensures Inv(Apply(p, Open(id, createTime)))
  {
    hide Distinct;
  }

  lemma CountKeeps(p: Pool, id: Id)
    requires Inv(p) && Enabled(p, Count(id))
    ensures Inv(Apply(p, Count(id)))
  {
    hide Distinct;
    assert |p.leased + {id}| == |p.leased| + 1;
  }

  lemma ApplyKeeps(p: Pool, step: Step)
    requires Inv(p) && Enabled(p, step)
    ensures Inv(Apply(p, step))
    ensures Apply(p, step).maxRequest == p.maxRequest
  {
    match step
    case Scan(now, up) => ScanKeeps(p, now, up); hide Inv;
    case Release(id, now, connected) => ReleaseKeeps(p, id, now, connected); hide Inv;
    case Open(id, createTime) => OpenKeeps(p, id, createTime); hide Inv;
    case Count(id) => CountKeeps(p, id); hide Inv;
    case Subtract(_) =>
  }

  function Empty(maxAlive: nat, maxRequest: nat): Pool {
    Pool(maxAlive, maxRequest, map[], [], {}, {}, 0, 0)
  }

  lemma {:induction false} RunKeeps(p: Pool, steps: seq<Step>)
    requires Inv(p) && Run(p, steps)
    ensures Inv(After(p, steps)) && After(p, steps).maxRequest == p.maxRequest
    decreases |steps|
  {
    if steps != [] {
      hide Inv, Apply, Enabled;
      ApplyKeeps(p, steps[0]);
      RunKeeps(Apply(p, steps[0]), steps[1..]);
    }
  }

  /** Over every run, whatever disconnects, whatever the clock shows and however
      the threads interleave: m_total is the number of idle and leased
      connections plus the deletions it has yet to hear of, no connection is
      idle and leased at once or idle twice, and each has been handed out at
      most max(1, m_maxRequest) times. */
  lemma PoolAccounting(maxAlive: nat, maxRequest: nat, steps: seq<Step>)
    requires Run(Empty(maxAlive, maxRequest), steps)
    ensures
      var p := After(Empty(maxAlive, maxRequest), steps);
      && p.total == |p.idle| + |p.leased| + p.owed
      && Distinct(p.idle) && (forall id :: id in p.idle ==> id !in p.leased)
      && (forall id :: id in p.conns ==> p.conns[id].leases <= if maxRequest == 0 then 1 else maxRequest)
  {
    RunKeeps(Empty(maxAlive, maxRequest), steps);
  }

  // -------------------------------------------------------------------- objects

  /** The id is the name of the connection in the books. */
  class HttpConnection {
    const createTime: nat
    var requests: nat
    var connected: bool
    ghost const id: Id

    constructor (createTime: nat, ghost id: Id)
      ensures this.createTime == createTime && requests == 0 && connected && this.id == id
    {
      this.createTime, this.id := createTime, id;
      requests, connected := 0, true;
    }
  }

  ghost function Ids(s: seq<HttpConnection>): (ids: seq<Id>)
    ensures |ids| == |s| && forall i :: 0 <= i < |s| ==> ids[i] == s[i].id
  {
    seq(|s|, i requires 0 <= i < |s| => s[i].id)
  }

  ghost function Up(s: seq<HttpConnection>): set<Id>
    reads s
  {
    set c | c in s && c.connected :: c.id
  }

  /** The objects agree with the books, by their ids. */
  ghost predicate Recorded(live: map<Id, HttpConnection>, conns: map<Id, Conn>, bound: nat)
    reads live.Values
  {
    && live.Keys == conns.Keys
    && forall id :: id in live ==>
         && id < bound && live[id].id == id
         && live[id].createTime == conns[id].createTime && live[id].requests == conns[id].requests
  }

  ghost function Among(live: map<Id, HttpConnection>, ids: set<Id>): map<Id, HttpConnection> {
    map id | id in live && id in ids :: live[id]
  }

  ghost predicate Listed(s: seq<HttpConnection>, live: map<Id, HttpConnection>) {
    forall i :: 0 <= i < |s| ==> s[i].id in live && live[s[i].id] == s[i]
  }

  /** A step as long as nobody else is between his steps: what is owed is
      subtracted at once. */
  ghost function Settled(p: Pool): Pool {
    Apply(p, Subtract(p.owed))
  }

  class HttpConnectionPool {
    const maxAlive: nat
    const maxRequest: nat
    var conns: seq<HttpConnection>
    var total: int
    ghost var books: Pool
    ghost var live: map<Id, HttpConnection>
    ghost var nextId: nat

    /** Between two calls the object is what its books say, and the books are in
        order. */
    ghost predicate Valid()
      reads this, live.Values
    {
      && Inv(books) && books.owed == 0 && books.pending == {}
      && books.maxAlive == maxAlive && books.maxRequest == maxRequest
      && books.total == total && books.idle == Ids(conns)
      && Listed(conns, live) && Recorded(live, books.conns, nextId)
    }

    constructor (maxAlive: nat, maxRequest: nat)
      ensures Valid() && books == Empty(maxAlive, maxRequest)
      ensures this.maxAlive == maxAlive && this.maxRequest == maxRequest
    {
      this.maxAlive, this.maxRequest := maxAlive, maxRequest;
      conns, total := [], 0;
      books, live, nextId := Empty(maxAlive, maxRequest), map[], 0;
    }

    /** What PoolAccounting says of the books holds of the object. */
    lemma Accounts()
      requires Valid()
      ensures total == |conns| + |books.leased|
      ensures forall i, j :: 0 <= i < j < |conns| ==> conns[i] != conns[j]
      ensures forall c :: c in conns ==> c.id !in books.leased
      ensures forall id :: id in live ==> books.conns[id].leases <= if maxRequest == 0 then 1 else maxRequest
    {
      assert forall c :: c in conns ==> c.id in books.idle by {
        forall c | c in conns
          ensures c.id in books.idle
        {
          var i :| 0 <= i < |conns| && conns[i] == c;
          assert books.idle[i] == c.id;
        }
      }
      assert forall i, j :: 0 <= i < j < |conns| ==> books.idle[i] != books.idle[j];
    }

    ghost function Good(s: seq<HttpConnection>, now: nat): set<HttpConnection>
      reads s
    {
      set c | c in s && c.connected && !Expired(c.createTime, maxAlive, now)
    }

    /** The scan under the lock. */
    method ScanIdle(now: nat) returns (invalid: seq<HttpConnection>, ptr: HttpConnection?)
      modifies this`conns
      ensures
        var good := old(Good(conns, now));
        var k := FirstGood(old(conns), good);
        && conns == Beyond(old(conns), good) && invalid == old(conns)[..k]
        && ptr == if k < |old(conns)| then old(conns)[k] else null
    {
      hide Expired, FirstGood, Beyond;
      ghost var good := Good(conns, now);
      ghost var whole := conns;
      invalid, ptr := [], null;
      while conns != []
        invariant |invalid| <= |whole| && invalid == whole[..|invalid|] && conns == whole[|invalid|..]
        invariant forall i :: 0 <= i < |invalid| ==> whole[i] !in good
        decreases |conns|
      {
        var conn := conns[0];
        assert conn == whole[|invalid|];
        conns := conns[1..];
        if !conn.connected || Expired(conn.createTime, maxAlive, now) {
          invalid := invalid + [conn];
          continue;
        }
        FirstGoodIs(whole, good, |invalid|);
        return invalid, conn;
      }
      FirstGoodIs(whole, good, |whole|);
    }

    /** Which connection the scan chooses: the length of the list if none. */
    ghost function Choice(now: nat): (k: nat)
      reads this, conns
      ensures k <= |conns|
    {
      FirstGood(conns, Good(conns, now))
    }

    /** The books after the step Scan, and the subtraction of what it dropped. */
    ghost function Scanned(now: nat): Pool
      reads this, conns
    {
      Settled(Apply(books, Scan(now, Up(conns))))
    }

    /** The scan finds in the list what the step finds in the books. */
    lemma SameChoice(now: nat)
      requires Valid()
      ensures FirstGood(books.idle, Usable(books, now, Up(conns))) == Choice(now)
    {
      hide Expired, FirstGood;
      var good, usable := Good(conns, now), Usable(books, now, Up(conns));
      forall i | 0 <= i < |conns|
        ensures books.idle[i] in usable <==> conns[i] in good
      {
        assert conns[i].id in live && live[conns[i].id] == conns[i];
        assert conns[i] in conns;
      }
      FirstGoodIs(books.idle, usable, FirstGood(conns, good));
    }

    ghost function Rest(now: nat): seq<HttpConnection>
      reads this, conns
    {
      if Choice(now) < |conns| then conns[Choice(now) + 1..] else []
    }

    ghost function StillLive(now: nat): map<Id, HttpConnection>
      reads this, conns
    {
      Among(live, Scanned(now).conns.Keys)
    }

    /** What the scan makes of the books and of the objects behind them. */
    lemma ScanParts(now: nat)
      requires Valid()
      ensures
        var q, k, left := Scanned(now), Choice(now), StillLive(now);
        && Inv(q) && q.owed == 0 && q.pending == {} && q.maxAlive == maxAlive && q.maxRequest == maxRequest
        && q.total == total - k && q.idle == Ids(Rest(now))
        && Listed(Rest(now), left) && Recorded(left, q.conns, nextId)
        && (k < |conns| ==> conns[k].id in q.leased && conns[k].id in left && left[conns[k].id] == conns[k])
    {
      hide Inv, FirstGood, Usable, Good, Recorded, Listed, Take, Apply, Up, Choice, Ids, Settled, Among;
      SameChoice(now);
      ScanKeeps(books, now, Up(conns));
      ScanIsTake(books, now, Up(conns));
      TakeParts(books, conns, live, nextId, Choice(now));
      SettledKeeps(Apply(books, Scan(now, Up(conns))));
    }

    /** The part of getConnection up to the adjustment of m_total. */
    method TakeIdle(now: nat) returns (ptr: HttpConnection?)
      requires Valid()
      modifies this
      ensures Valid() && books == old(Scanned(now)) && nextId == old(nextId)
      ensures
        var k := old(Choice(now));
        conns == old(Rest(now)) && ptr == if k < |old(conns)| then old(conns)[k] else null
      ensures ptr != null ==> ptr.id in books.leased && ptr.id in live && live[ptr.id] == ptr
    {
      hide Inv, FirstGood, Good, Recorded, Listed, Apply, Settled, Up;
      ScanParts(now);
      ghost var q, left := Scanned(now), StillLive(now);
      var invalid;
      invalid, ptr := ScanIdle(now);
      total := total - |invalid|;
      live := left;
      books := q;
    }

    /** A new connection in the books: the steps Open and Count. */
    ghost function Opened(p: Pool, id: Id, createTime: nat): Pool
      requires id !in p.conns
    {
      Apply(Apply(p, Open(id, createTime)), Count(id))
    }

    method OpenNew(createTime: nat) returns (ptr: HttpConnection)
      requires Valid()
      modifies this
      ensures Valid() && fresh(ptr) && ptr.createTime == createTime && ptr.requests == 0
      ensures ptr.id !in old(books).conns && books == Opened(old(books), ptr.id, createTime)
      ensures ptr.id in books.leased && ptr.id in live && live[ptr.id] == ptr && conns == old(conns)
    {
      hide Inv, Apply, Listed;
      ptr := new HttpConnection(createTime, nextId);
      OpenedParts(books, nextId, createTime);
      ListedMore(conns, live, ptr);
      total := total + 1;
      books := Opened(books, nextId, createTime);
      live := live[nextId := ptr];
      nextId := nextId + 1;
    }

    /** getConnection: the first connection that is up and not too old is handed
        out and those before it are dropped; if there is none a new one is
        opened, which may fail. In the books this is the step Scan and, for a
        new connection, Open and Count. */
    method GetConnection(now: nat, reachable: bool, createTime: nat) returns (ptr: HttpConnection?)
      requires Valid()
      modifies this
      ensures Valid() && conns == old(Rest(now))
      ensures old(Choice(now)) < |old(conns)| ==>
                ptr == old(conns)[old(Choice(now))] && books == old(Scanned(now))
      ensures old(Choice(now)) == |old(conns)| && !reachable ==>
                ptr == null && books == old(Scanned(now))
      ensures old(Choice(now)) == |old(conns)| && reachable ==>
                && ptr != null && fresh(ptr) && ptr.createTime == createTime && ptr.requests == 0
                && ptr.id !in old(Scanned(now)).conns && books == Opened(old(Scanned(now)), ptr.id, createTime)
      ensures ptr != null ==> ptr.id in books.leased && ptr.id in live && live[ptr.id] == ptr
    {
      hide Valid, Choice, Scanned, Rest, Opened;
      ptr := TakeIdle(now);
      if ptr == null && reachable {
        ptr := OpenNew(createTime);
      }
    }

    /** A leased connection whose request has been counted, but not in the books. */
    ghost predicate Returning(ptr: HttpConnection)
      reads this, live.Values, ptr
    {
      && Inv(books) && books.owed == 0 && books.pending == {}
      && books.maxAlive == maxAlive && books.maxRequest == maxRequest
      && books.total == total && books.idle == Ids(conns)
      && Listed(conns, live) && Recorded(live - {ptr.id}, books.conns - {ptr.id}, nextId)
      && ptr.id < nextId && ptr.id in live && live[ptr.id] == ptr && ptr.id in books.leased && ptr.id in books.conns
      && ptr.createTime == books.conns[ptr.id].createTime && ptr.requests == books.conns[ptr.id].requests + 1
    }

    method Discard(ptr: HttpConnection, now: nat)
      requires Returning(ptr)
      requires !ptr.connected || Expired(ptr.createTime, maxAlive, now) || ptr.requests >= maxRequest
      modifies this
      ensures Valid() && books == Settled(old(Apply(books, Release(ptr.id, now, ptr.connected))))
      ensures conns == old(conns) && total == old(total) - 1
    {
      hide Expired, Inv, Apply, Settled, Ids, Recorded, Listed;
      ReleaseDrops(books, ptr.id, now, ptr.connected);
      ListedLess(conns, live, ptr.id);
      total := total - 1;
      live := live - {ptr.id};
      books := Settled(Apply(books, Release(ptr.id, now, ptr.connected)));
    }

    method PutBack(ptr: HttpConnection, now: nat)
      requires Returning(ptr)
      requires ptr.connected && !Expired(ptr.createTime, maxAlive, now) && ptr.requests < maxRequest
      modifies this
      ensures Valid() && books == Settled(old(Apply(books, Release(ptr.id, now, ptr.connected))))
      ensures conns == old(conns) + [ptr] && total == old(total)
    {
      hide Expired, Inv, Apply, Settled, Recorded, Listed, Ids;
      ReleaseReturns(books, ptr.id, now, ptr.connected);
      RecordedBack(live, books.conns, ptr, nextId);
      ListedOne(conns, live, ptr);
      conns := conns + [ptr];
      books := Settled(Apply(books, Release(ptr.id, now, ptr.connected)));
    }

    /** ReleasePtr: the connection goes back to the end of the list unless it is
        down, too old or used up. In the books this is the step Release, and
        the subtraction of a connection that is dropped. */
    method ReleasePtr(ptr: HttpConnection, now: nat)
      requires Valid() && ptr.id in books.leased && ptr.id in live && live[ptr.id] == ptr
      modifies this, ptr
      ensures Valid() && books == Settled(old(Apply(books, Release(ptr.id, now, ptr.connected))))
      ensures ptr.requests == old(ptr.requests) + 1
      ensures
        var keep := old(ptr.connected) && !Expired(ptr.createTime, maxAlive, now) && ptr.requests < maxRequest;
        && conns == old(conns) + (if keep then [ptr] else [])
        && total == old(total) - (if keep then 0 else 1)
    {
      hide Expired, Inv, Apply, Settled, Ids, Listed;
      ptr.requests := ptr.requests + 1;
      if !ptr.connected || Expired(ptr.createTime, maxAlive, now) || ptr.requests >= maxRequest {
        Discard(ptr, now);
      } else {
        PutBack(ptr, now);
      }
    }
  }

  lemma ListedOne(s: seq<HttpConnection>, live: map<Id, HttpConnection>, c: HttpConnection)
    requires Listed(s, live) && c.id in live && live[c.id] == c
    ensures Listed(s + [c], live) && Ids(s + [c]) == Ids(s) + [c.id]
  {
  }

  lemma ListedLess(s: seq<HttpConnection>, live: map<Id, HttpConnection>, id: Id)
    requires Listed(s, live) && id !in Ids(s)
    ensures Listed(s, live - {id})
  {
    assert forall i :: 0 <= i < |s| ==> s[i].id == Ids(s)[i];
  }

  lemma RecordedBack(live: map<Id, HttpConnection>, conns: map<Id, Conn>, c: HttpConnection, bound: nat)
    requires Recorded(live - {c.id}, conns - {c.id}, bound)
    requires c.id in live && live[c.id] == c && c.id in conns && c.id < bound
    requires c.createTime == conns[c.id].createTime && c.requests == conns[c.id].requests + 1
    ensures Recorded(live, conns[c.id := conns[c.id].(requests := conns[c.id].requests + 1)], bound)
  {
    var more := conns[c.id := conns[c.id].(requests := conns[c.id].requests + 1)];
    assert live.Keys == (live - {c.id}).Keys + {c.id};
    assert more.Keys == (conns - {c.id}).Keys + {c.id};
  }

  lemma OpenedParts(p: Pool, id: Id, createTime: nat)
    requires Inv(p) && id !in p.conns && p.pending == {}
    ensures
      var q := Apply(Apply(p, Open(id, createTime)), Count(id));
      Inv(q) && q == p.(total := p.total + 1, conns := p.conns[id := Conn(createTime, 0, 1)], leased := p.leased + {id})
  {
    OpenKeeps(p, id, createTime);
    CountKeeps(Apply(p, Open(id, createTime)), id);
    hide Inv;
    assert {id} - {id} == {};
  }

  lemma ListedMore(s: seq<HttpConnection>, live: map<Id, HttpConnection>, c: HttpConnection)
    requires Listed(s, live) && c.id !in live
    ensures Listed(s, live[c.id := c])
  {
  }

  lemma ScanIsTake(p: Pool, now: nat, up: set<Id>)
    ensures Apply(p, Scan(now, up)) == Take(p, FirstGood(p.idle, Usable(p, now, up)))
  {
  }

  lemma SettledKeeps(p: Pool)
    requires Inv(p)
    ensures Inv(Settled(p)) && Settled(p) == p.(total := p.total - p.owed, owed := 0)
  {
  }

  /** What a scan does to the books. */
  lemma TakeShape(p: Pool, k: nat)
    requires Inv(p) && k <= |p.idle|
    ensures
      var q := Take(p, k);
      && q.idle == (if k < |p.idle| then p.idle[k + 1..] else []) && q.owed == p.owed + k && q.total == p.total
      && q.pending == p.pending && q.maxAlive == p.maxAlive && q.maxRequest == p.maxRequest
      && (forall id :: id in q.conns <==> id in p.conns && id !in p.idle[..k])
      && (forall id :: id in q.conns ==>
            q.conns[id].createTime == p.conns[id].createTime && q.conns[id].requests == p.conns[id].requests)
      && (forall i :: k <= i < |p.idle| ==> p.idle[i] in q.conns)
      && (k < |p.idle| ==> p.idle[k] in q.leased)
  {
    hide Counted, Balanced;
    if k < |p.idle| {
      Around(p.idle, k);
      assert p.idle[k] in p.idle;
      forall i | k < i < |p.idle|
        ensures p.idle[i] in p.idle && p.idle[i] !in p.idle[..k]
      {
        assert p.idle[i] == p.idle[k + 1..][i - k - 1];
      }
    }
  }

  /** What a scan does to the objects behind the books. */
  lemma TakeParts(p: Pool, conns: seq<HttpConnection>, live: map<Id, HttpConnection>, bound: nat, k: nat)
    requires Inv(p) && p.idle == Ids(conns) && Listed(conns, live) && Recorded(live, p.conns, bound) && k <= |conns|
    ensures
      var q := Take(p, k);
      var left := Among(live, q.conns.Keys);
      var rest := if k < |conns| then conns[k + 1..] else [];
      && q.idle == Ids(rest) && q.owed == p.owed + k && q.total == p.total && q.pending == p.pending
      && q.maxAlive == p.maxAlive && q.maxRequest == p.maxRequest
      && Listed(rest, left) && Recorded(left, q.conns, bound)
      && (k < |conns| ==> conns[k].id in q.leased && conns[k].id in left && left[conns[k].id] == conns[k])
  {
    hide Inv, Take;
    TakeShape(p, k);
    var q := Take(p, k);
    RecordedAmong(live, p.conns, q.conns, bound);
    assert forall i :: k <= i < |conns| ==> conns[i].id in q.conns by {
      assert forall i :: k <= i < |conns| ==> conns[i].id == p.idle[i];
    }
    ListedAmong(conns, live, q.conns.Keys, k);
    hide Recorded, Listed, Among;
    assert k < |conns| ==> p.idle[k] == conns[k].id;
    assert k < |conns| ==> Ids(conns[k + 1..]) == Ids(conns)[k + 1..];
  }

  lemma RecordedAmong(live: map<Id, HttpConnection>, conns: map<Id, Conn>, fewer: map<Id, Conn>, bound: nat)
    requires Recorded(live, conns, bound) && fewer.Keys <= conns.Keys
    requires forall id :: id in fewer ==>
               fewer[id].createTime == conns[id].createTime && fewer[id].requests == conns[id].requests
    ensures Recorded(Among(live, fewer.Keys), fewer, bound)
  {
    assert Among(live, fewer.Keys).Keys == fewer.Keys;
  }

  lemma ListedAmong(s: seq<HttpConnection>, live: map<Id, HttpConnection>, ids: set<Id>, k: nat)
    requires Listed(s, live) && k <= |s| && forall i :: k <= i < |s| ==> s[i].id in ids
    ensures Listed(if k < |s| then s[k + 1..] else [], Among(live, ids))
    ensures k < |s| ==> s[k].id in Among(live, ids) && Among(live, ids)[s[k].id] == s[k]
  {
  }

  lemma ReleaseDrops(p: Pool, id: Id, now: nat, connected: bool)
    requires Inv(p) && p.owed == 0 && id in p.leased && id in p.conns
    requires
      !connected || Expired(p.conns[id].createTime, p.maxAlive, now) || p.conns[id].requests + 1 >= p.maxRequest
    ensures
      var q := Settled(Apply(p, Release(id, now, connected)));
      && Inv(q) && q == p.(leased := p.leased - {id}, conns := p.conns - {id}, total := p.total - 1)
      && id !in p.idle
  {
    hide Expired;
    ReleaseKeeps(p, id, now, connected);
    SettledKeeps(Apply(p, Release(id, now, connected)));
    hide Counted, Balanced, Settled;
    assert [id][0] == id;
    var c := p.conns[id].(requests := p.conns[id].requests + 1);
    assert (map i | i in p.conns[id := c] && i !in [id] :: p.conns[id := c][i]) == p.conns - {id};
  }

  lemma ReleaseReturns(p: Pool, id: Id, now: nat, connected: bool)
    requires Inv(p) && p.owed == 0 && id in p.leased && id in p.conns
    requires
      connected && !Expired(p.conns[id].createTime, p.maxAlive, now) && p.conns[id].requests + 1 < p.maxRequest
    ensures
      var q := Settled(Apply(p, Release(id, now, connected)));
      var c := p.conns[id].(requests := p.conns[id].requests + 1);
      && Inv(q) && q == p.(leased := p.leased - {id}, conns := p.conns[id := c], idle := p.idle + [id])
      && id !in p.idle
  {
    hide Expired;
    ReleaseKeeps(p, id, now, connected);
    SettledKeeps(Apply(p, Release(id, now, connected)));
    hide Counted, Balanced, Settled;
  }

  lemma FirstGoodIs<T>(s: seq<T>, good: set<T>, k: nat)
    requires k <= |s| && (forall i :: 0 <= i < k ==> s[i] !in good) && (k < |s| ==> s[k] in good)
    ensures FirstGood(s, good) == k && Beyond(s, good) == if k < |s| then s[k + 1..] else []
  {
    hide FirstGood;
  }
}
