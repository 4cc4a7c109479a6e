/** The timer manager with its timers updated in place. */
module TimerManagers {
  import opened Basics
  import T = Timers
  type Id = T.Id

  class Timer {
    const addr: Id
    var recurring: bool
    var ms: nat
    var next: nat
    var cb: Option<nat>

    ghost function Rec(): T.Timer
      reads this
    {
      T.Timer(recurring, ms, next, cb)
    }

    constructor (addr: Id, now: nat, ms: nat, cb: nat, recurring: bool)
      ensures this.addr == addr
      ensures Rec() == T.Timer(recurring, ms, T.Plus(now, ms), Some(cb))
    {
      this.addr, this.recurring, this.ms, this.cb := addr, recurring, ms, Some(cb);
      next := T.Plus(now, ms);
    }
  }

  ghost function Ids(ts: seq<Timer>): (ids: seq<Id>)
    ensures |ids| == |ts| && forall i :: 0 <= i < |ts| ==> ids[i] == ts[i].addr
  {
    seq(|ts|, i requires 0 <= i < |ts| => ts[i].addr)
  }

  /** The address book is right and the timers of the set are in it. */
  ghost predicate InBook(ts: seq<Timer>, made: map<Id, Timer>) {
    && (forall a :: a in made ==> made[a].addr == a)
    && (forall i :: 0 <= i < |ts| ==> ts[i].addr in made && made[ts[i].addr] == ts[i])
  }

  lemma IdsInsert(ts: seq<Timer>, p: nat, t: Timer)
    requires p <= |ts|
    ensures Ids(ts[..p] + [t] + ts[p..]) == T.InsertAt(Ids(ts), p, t.addr)
  {
  }

  lemma IdsRemove(ts: seq<Timer>, p: nat)
    requires p < |ts|
    ensures Ids(ts[..p] + ts[p + 1..]) == T.RemoveAt(Ids(ts), p)
  {
  }

  lemma InBookInsert(ts: seq<Timer>, made: map<Id, Timer>, p: nat, t: Timer)
    requires InBook(ts, made) && p <= |ts| && t.addr in made && made[t.addr] == t
    ensures InBook(ts[..p] + [t] + ts[p..], made)
  {
  }

  lemma InBookRemove(ts: seq<Timer>, made: map<Id, Timer>, p: nat)
    requires InBook(ts, made) && p < |ts|
    ensures InBook(ts[..p] + ts[p + 1..], made)
  {
  }

  lemma InBookAdd(ts: seq<Timer>, made: map<Id, Timer>, t: Timer)
    requires InBook(ts, made) && t.addr !in made
    ensures InBook(ts, made[t.addr := t])
  {
  }

  ghost function RecsOf(made: map<Id, Timer>): (m: map<Id, T.Timer>)
    reads made.Values
    ensures m.Keys == made.Keys && forall a :: a in made ==> m[a] == made[a].Rec()
  {
    map a | a in made :: made[a].Rec()
  }

  lemma RecsAdd(made: map<Id, Timer>, t: Timer)
    ensures RecsOf(made[t.addr := t]) == RecsOf(made)[t.addr := t.Rec()]
  {
  }

  class TimerManager {
    var timers: seq<Timer>
    var tickled: bool
    var previous: nat
    ghost var made: map<Id, Timer>

    ghost predicate Linked()
      reads this
    {
      InBook(timers, made)
    }

    ghost function Recs(): (m: map<Id, T.Timer>)
      reads this, made.Values
    {
      RecsOf(made)
    }

    ghost function Abs(): T.State
      reads this, made.Values
    {
      T.State(Recs(), Ids(timers), tickled, previous)
    }

    ghost predicate Valid()
      reads this, made.Values
    {
      Linked() && T.Inv(Abs())
    }

    constructor (now: nat)
      ensures Valid() && Abs() == T.State(map[], [], false, now)
    {
      timers, tickled, previous, made := [], false, now, map[];
    }

    /** The tree search of std::set for a key. */
    method LowerBound(next: nat, addr: Id) returns (p: nat)
      requires Linked()
      ensures T.Known(Recs(), Ids(timers)) && p == T.LowerBound(Recs(), Ids(timers), next, addr)
    {
      ghost var recs, ids := Recs(), Ids(timers);
      p := 0;
      assert ids[0..] == ids;
      while p < |timers| && (timers[p].next < next || (timers[p].next == next && timers[p].addr < addr))
        invariant p <= |timers| && T.Known(recs, ids[p..])
        invariant T.LowerBound(recs, ids, next, addr) == p + T.LowerBound(recs, ids[p..], next, addr)
      {
        assert ids[p..][0] == timers[p].addr && recs[timers[p].addr] == timers[p].Rec();
        assert ids[p..][1..] == ids[p + 1..];
        p := p + 1;
      }
      if p < |timers| {
        assert ids[p..][0] == timers[p].addr && recs[timers[p].addr] == timers[p].Rec();
      }
    }

    method Insert(t: Timer) returns (p: nat)
      requires Linked() && t.addr in made && made[t.addr] == t
      modifies this`timers
      ensures Linked() && Recs() == old(Recs()) && T.Known(old(Recs()), old(Ids(timers)))
      ensures Ids(timers) == T.Insert(Recs(), old(Ids(timers)), t.addr)
      ensures p < |timers| && timers[p] == t && p == T.LowerBound(Recs(), old(Ids(timers)), t.next, t.addr)
    {
      hide T.LowerBound, RecsOf, T.InsertAt;
      p := LowerBound(t.next, t.addr);
      IdsInsert(timers, p, t);
      InBookInsert(timers, made, p, t);
      hide InBook, Ids;
      timers := timers[..p] + [t] + timers[p..];
    }

    method Erase(t: Timer)
      requires Valid() && t in timers
      modifies this`timers
      ensures Linked() && made == old(made)
      ensures t.addr in old(Abs()).order && Abs() == T.Erase(old(Abs()), t.addr)
    {
      hide T.Inv, T.Erase, T.LowerBound;
      ghost var k :| 0 <= k < |timers| && timers[k] == t;
      assert Ids(timers)[k] == t.addr;
      T.EraseAtLowerBound(Abs(), t.addr);
      var p := LowerBound(t.next, t.addr);
      IdsRemove(timers, p);
      InBookRemove(timers, made, p);
      hide InBook, Ids, T.RemoveAt;
      timers := timers[..p] + timers[p + 1..];
    }

    /** A timer with a callback is in the set. */
    lemma Alive(t: Timer)
      requires Valid() && t.addr in made && made[t.addr] == t
      ensures t.cb.Some? <==> t in timers
      ensures t in timers <==> t.addr in Ids(timers)
    {
      if t.addr in Ids(timers) {
        var k :| 0 <= k < |timers| && Ids(timers)[k] == t.addr;
      }
      if t in timers {
        var k :| 0 <= k < |timers| && timers[k] == t;
        assert Ids(timers)[k] == t.addr;
      }
    }

    /** addTimer(val, lock); true when onTimerInsertedAtFront is called. */
    method AddSorted(t: Timer) returns (front: bool)
      requires Linked() && t.addr in made && made[t.addr] == t
      modifies this`timers, this`tickled
      ensures Linked() && T.Known(old(Recs()), old(Ids(timers)))
      ensures (Abs(), T.Quiet.(front := front)) == T.AddSorted(old(Abs()), t.addr)
    {
      hide T.LowerBound;
      var p := Insert(t);
      front := p == 0 && !tickled;
      assert Ids(timers)[0] == t.addr <==> p == 0 by {
        FrontOnce(old(Recs()), old(Ids(timers)), t.addr);
      }
      if front {
        tickled := true;
      }
      assert Recs() == old(Recs());
    }

    /** One timer changed; the others are as they were. */
    twostate lemma OneChanged(t: Timer)
      requires old(Linked()) && made == old(made) && t.addr in made && made[t.addr] == t
      requires forall u :: u in made.Values && u != t ==> unchanged(u)
      ensures Recs() == old(Recs())[t.addr := t.Rec()]
    {
      forall a | a in made && a != t.addr
        ensures made[a].Rec() == old(made[a].Rec())
      {
        assert made[a] in made.Values;
      }
    }

    method AddTimer(addr: Id, now: nat, ms: nat, cb: nat, recurring: bool) returns (t: Timer, front: bool)
      requires Valid() && addr !in made
      modifies this`timers, this`tickled, this`made
      ensures Valid() && fresh(t) && t.addr == addr && made == old(made)[addr := t]
      ensures (Abs(), T.Quiet.(front := front)) == T.Add(old(Abs()), addr, now, ms, cb, recurring)
    {
      hide T.Inv, T.AddSorted, T.Plus, InBook, RecsOf, Ids;
      T.AddKeeps(Abs(), addr, now, ms, cb, recurring);
      t := MakeTimer(addr, now, ms, cb, recurring);
      front := AddSorted(t);
    }

    /** The new timer object, not yet in the set. */
    method MakeTimer(addr: Id, now: nat, ms: nat, cb: nat, recurring: bool) returns (t: Timer)
      requires Linked() && addr !in made
      modifies this`made
      ensures Linked() && fresh(t) && t.addr == addr && made == old(made)[addr := t]
      ensures
        var rec := T.Timer(recurring, ms, T.Plus(now, ms), Some(cb));
        Recs() == old(Recs())[addr := rec] && t.Rec() == rec
    {
      hide T.Plus, InBook, RecsOf;
      t := new Timer(addr, now, ms, cb, recurring);
      InBookAdd(timers, made, t);
      RecsAdd(made, t);
      made := made[addr := t];
    }

    method Cancel(t: Timer) returns (ok: bool)
      requires Valid() && t.addr in made && made[t.addr] == t
      modifies this`timers, t`cb
      ensures Valid()
      ensures (Abs(), T.Quiet.(ok := ok)) == T.Cancel(old(Abs()), t.addr)
    {
      T.CancelKeeps(Abs(), t.addr);
      Alive(t);
      hide T.Inv, T.Erase;
      if t.cb.None? {
        return false;
      }
      Erase(t);
      t.cb := None;
      OneChanged(t);
      return true;
    }

    method Refresh(t: Timer, now: nat) returns (ok: bool)
      requires Valid() && t.addr in made && made[t.addr] == t
      modifies this`timers, t`next
      ensures Valid()
      ensures (Abs(), T.Quiet.(ok := ok)) == T.Refresh(old(Abs()), t.addr, now)
    {
      T.RefreshKeeps(Abs(), t.addr, now);
      Alive(t);
      hide T.Inv, T.Erase, T.Insert, T.LowerBound, T.Plus, InBook;
      if t.cb.None? {
        return false;
      }
      Erase(t);
      t.next := T.Plus(now, t.ms);
      OneChanged(t);
      var _ := Insert(t);
      return true;
    }

    /** Takes a timer out and puts it back with a new period and deadline. */
    method Restart(t: Timer, ms: nat, next: nat) returns (front: bool)
      requires Valid() && t in timers
      modifies this`timers, this`tickled, t`ms, t`next
      ensures Linked() && t.addr in old(Abs()).order
      ensures
        var s := T.Erase(old(Abs()), t.addr).(recs := old(Recs())[t.addr := old(t.Rec()).(ms := ms, next := next)]);
        T.Known(s.recs, s.order) && (Abs(), T.Quiet.(front := front)) == T.AddSorted(s, t.addr)
    {
      hide T.Inv, T.Erase, T.AddSorted;
      Erase(t);
      t.ms := ms;
      t.next := next;
      OneChanged(t);
      front := AddSorted(t);
    }

    method Reset(t: Timer, now: nat, ms: nat, fromNow: bool) returns (ok: bool, front: bool)
      requires Valid() && t.addr in made && made[t.addr] == t
      modifies this`timers, this`tickled, t`ms, t`next
      ensures Valid()
      ensures (Abs(), T.Quiet.(ok := ok, front := front)) == T.Reset(old(Abs()), t.addr, now, ms, fromNow)
    {
      T.ResetKeeps(Abs(), t.addr, now, ms, fromNow);
      Alive(t);
      hide T.Inv, T.Erase, T.AddSorted, T.Plus, T.Minus, InBook;
      if ms == t.ms && !fromNow {
        return true, false;
      }
      if t.cb.None? {
        return false, false;
      }
      var start := if fromNow then now else T.Minus(t.next, t.ms);
      front := Restart(t, ms, T.Plus(start, ms));
      ok := true;
    }

    method GetNextTimer(now: nat) returns (sleep: nat)
      requires Valid()
      modifies this`tickled
      ensures Valid()
      ensures (Abs(), sleep) == T.NextTimer(old(Abs()), now)
    {
      tickled := false;
      if |timers| == 0 {
        return T.U64 - 1;
      }
      assert Recs()[timers[0].addr] == timers[0].Rec();
      return if now >= timers[0].next then 0 else timers[0].next - now;
    }

    /** The search of listExpiredCb for the first timer that stays. */
    method CountExpired(now: nat, probe: Id) returns (k: nat)
      requires Linked() && timers != []
      modifies this`previous
      ensures Linked() && T.Known(Recs(), Ids(timers)) && previous == now
      ensures k == T.ExpiredCount(old(Abs()), now, probe)
    {
      hide T.LowerBound, T.Rollover, RecsOf;
      var rollover := T.Rollover(previous, now);
      previous := now;
      assert Recs()[timers[0].addr] == timers[0].Rec();
      if !rollover && timers[0].next > now {
        return 0;
      }
      if rollover {
        return |timers|;
      }
      k := LowerBound(now, probe);
      k := SkipEqual(k, now);
    }

    /** The loop behind lower_bound over timers due at now. */
    method SkipEqual(p: nat, now: nat) returns (k: nat)
      requires Linked() && p <= |timers|
      ensures T.Known(Recs(), Ids(timers)) && k == T.SkipDue(Recs(), Ids(timers), p, now)
    {
      k := p;
      while k < |timers| && timers[k].next == now
        invariant p <= k <= |timers|
        invariant T.SkipDue(Recs(), Ids(timers), p, now) == T.SkipDue(Recs(), Ids(timers), k, now)
      {
        assert Recs()[Ids(timers)[k]] == timers[k].Rec();
        k := k + 1;
      }
      if k < |timers| {
        assert Recs()[Ids(timers)[k]] == timers[k].Rec();
      }
    }

    /** One turn of the loop over the expired timers. */
    method FireOne(t: Timer, now: nat) returns (cb: seq<nat>)
      requires Linked() && t.addr in made && made[t.addr] == t
      modifies this`timers, t`next, t`cb
      ensures Linked() && T.Known(old(Recs()), old(Ids(timers)))
      ensures Recs() == old(Recs())[t.addr := T.Fired(old(t.Rec()), now)]
      ensures Ids(timers) == if t.recurring then T.Insert(Recs(), old(Ids(timers)), t.addr) else old(Ids(timers))
      ensures cb == if old(t.cb).Some? then [old(t.cb).value] else []
    {
      hide T.Insert, T.LowerBound;
      cb := if t.cb.Some? then [t.cb.value] else [];
      if t.recurring {
        t.next := T.Plus(now, t.ms);
        OneChanged(t);
        var _ := Insert(t);
      } else {
        t.cb := None;
        OneChanged(t);
      }
    }

    /** The loop over the expired timers, already taken out of the set. */
    method FireAll(expired: seq<Timer>, now: nat) returns (cbs: seq<nat>)
      requires Linked() && InBook(expired, made)
      modifies this`timers, made.Values
      ensures Linked() && T.Known(old(Recs()), old(Ids(timers))) && T.Known(old(Recs()), Ids(expired))
      ensures (Recs(), Ids(timers), cbs) == T.Fire(old(Recs()), old(Ids(timers)), Ids(expired), now)
    {
      hide T.Insert, T.Fired;
      cbs := [];
      ghost var ids := Ids(expired);
      ghost var all := T.Fire(Recs(), Ids(timers), ids, now);
      assert ids[0..] == ids;
      PrependNothing(all);
      for i := 0 to |expired|
        invariant Linked() && T.Known(Recs(), Ids(timers)) && T.Known(Recs(), ids[i..])
        invariant all == Prepend(cbs, T.Fire(Recs(), Ids(timers), ids[i..], now))
      {
        var t := expired[i];
        assert ids[i..][0] == t.addr && ids[i..][1..] == ids[i + 1..];
        FireStep(Recs(), Ids(timers), ids[i..], now);
        assert t in made.Values;
        ghost var before := cbs;
        hide T.Fire;
        var cb := FireOne(t, now);
        cbs := cbs + cb;
        PrependTwice(before, cb, T.Fire(Recs(), Ids(timers), ids[i + 1..], now));
      }
      assert ids[|expired|..] == [];
      FireNothing(Recs(), Ids(timers), cbs, now);
    }

    /** Takes the first k timers out of the set and fires them. */
    method Expire(k: nat, now: nat) returns (cbs: seq<nat>)
      requires Linked() && k <= |timers|
      modifies this`timers, made.Values
      ensures Linked()
      ensures
        var ids := old(Ids(timers));
        && T.Known(old(Recs()), ids[..k]) && T.Known(old(Recs()), ids[k..])
        && (Recs(), Ids(timers), cbs) == T.Fire(old(Recs()), ids[k..], ids[..k], now)
    {
      hide T.Fire;
      var expired := timers[..k];
      timers := timers[k..];
      assert Ids(expired) == old(Ids(timers))[..k] && Ids(timers) == old(Ids(timers))[k..];
      cbs := FireAll(expired, now);
    }

    method ListExpiredCb(now: nat, probe: Id) returns (cbs: seq<nat>)
      requires Valid()
      modifies this`timers, this`previous, made.Values
      ensures Valid() && made == old(made)
      ensures Abs() == T.ListExpired(old(Abs()), now, probe).0 && cbs == T.ListExpired(old(Abs()), now, probe).1.cbs
    {
      T.ListExpiredKeeps(Abs(), now, probe);
      hide T.Inv, T.ExpiredCount, T.Fire, T.Known, InBook;
      if |timers| == 0 {
        return [];
      }
      var k := CountExpired(now, probe);
      cbs := Expire(k, now);
    }
  }

  ghost function Prepend(cbs: seq<nat>, f: (map<Id, T.Timer>, seq<Id>, seq<nat>))
    : (map<Id, T.Timer>, seq<Id>, seq<nat>)
  {
    (f.0, f.1, cbs + f.2)
  }

  lemma PrependNothing(f: (map<Id, T.Timer>, seq<Id>, seq<nat>))
    ensures Prepend([], f) == f
  {
    assert [] + f.2 == f.2;
  }

  lemma FireNothing(recs: map<Id, T.Timer>, order: seq<Id>, cbs: seq<nat>, now: nat)
    requires T.Known(recs, order)
    ensures Prepend(cbs, T.Fire(recs, order, [], now)) == (recs, order, cbs)
  {
    assert cbs + [] == cbs;
  }

  lemma PrependTwice(a: seq<nat>, b: seq<nat>, f: (map<Id, T.Timer>, seq<Id>, seq<nat>))
    ensures Prepend(a + b, f) == Prepend(a, Prepend(b, f))
  {
    assert a + b + f.2 == a + (b + f.2);
  }

  /** A timer inserted elsewhere than in front finds another in front. */
  lemma FrontOnce(recs: map<Id, T.Timer>, order: seq<Id>, a: Id)
    requires T.Known(recs, order) && a in recs
    ensures T.Insert(recs, order, a)[0] == a <==> T.LowerBound(recs, order, recs[a].next, a) == 0
  {
  }

  lemma FireStep(recs: map<Id, T.Timer>, order: seq<Id>, expired: seq<Id>, now: nat)
    requires T.Known(recs, order) && T.Known(recs, expired) && expired != []
    ensures
      var a := expired[0];
      var recs' := recs[a := T.Fired(recs[a], now)];
      var order' := if recs[a].recurring then T.Insert(recs', order, a) else order;
      var rest := T.Fire(recs', order', expired[1..], now);
      T.Fire(recs, order, expired, now) == Prepend(if recs[a].cb.Some? then [recs[a].cb.value] else [], rest)
  {
  }
}
