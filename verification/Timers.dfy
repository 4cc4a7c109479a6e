/** The timer manager on values: an ordered set of timers keyed by a deadline
    that the operations change, and what each operation does to it. */
module Timers {

  import opened Basics

  /** The address of a timer; breaks ties between equal deadlines. */
  type Id = nat

  const U64: nat := 0x1_0000_0000_0000_0000
  const HOUR: nat := 60 * 60 * 1000

  datatype Timer = Timer(recurring: bool, ms: nat, next: nat, cb: Option<nat>)

  /** Every timer made so far, the set in its order, the tickled flag and the
      time of the last expiry scan. */
  datatype State = State(recs: map<Id, Timer>, order: seq<Id>, tickled: bool, previous: nat)

  /** Unsigned 64-bit addition and subtraction. */
  function Plus(a: nat, b: nat): (r: nat) {
    (a + b) % U64
  }

  function Minus(a: nat, b: nat): (r: nat) {
    (a - b) % U64
  }

  // -------------------------------------------------------------- the ordering

  predicate Known(recs: map<Id, Timer>, order: seq<Id>) {
    forall i :: 0 <= i < |order| ==> order[i] in recs
  }

  /** Timer a comes before a timer at address id with deadline next. */
  predicate Before(recs: map<Id, Timer>, a: Id, next: nat, id: Id)
    requires a in recs
  {
    recs[a].next < next || (recs[a].next == next && a < id)
  }

  predicate Sorted(recs: map<Id, Timer>, order: seq<Id>)
    requires Known(recs, order)
  {
    forall i, j :: 0 <= i < j < |order| ==> Before(recs, order[i], recs[order[j]].next, order[j])
  }

  /** Where std::set looks for a key: behind all timers before it. */
  function LowerBound(recs: map<Id, Timer>, order: seq<Id>, next: nat, id: Id): (p: nat)
    requires Known(recs, order)
    ensures p <= |order|
  {
    if order == [] || !Before(recs, order[0], next, id) then 0
    else 1 + LowerBound(recs, order[1..], next, id)
  }

  lemma {:induction false} LowerBoundSplits(recs: map<Id, Timer>, order: seq<Id>, next: nat, id: Id)
    requires Known(recs, order) && Sorted(recs, order)
    ensures
      var p := LowerBound(recs, order, next, id);
      && (forall i :: 0 <= i < p ==> Before(recs, order[i], next, id))
      && (forall i :: p <= i < |order| ==> !Before(recs, order[i], next, id))
    decreases |order|
  {
    if order != [] {
      var rest := order[1..];
      assert forall i :: 0 <= i < |rest| ==> rest[i] == order[i + 1];
      LowerBoundSplits(recs, rest, next, id);
      assert forall i :: 0 < i < |order| ==> order[i] == rest[i - 1];
    }
  }

  function InsertAt(order: seq<Id>, p: nat, a: Id): (r: seq<Id>)
    requires p <= |order|
    ensures |r| == |order| + 1 && r[p] == a
    ensures forall i :: 0 <= i < p ==> r[i] == order[i]
    ensures forall i :: p < i < |r| ==> r[i] == order[i - 1]
    ensures forall b :: b in r <==> b == a || b in order
  {
    var r := order[..p] + [a] + order[p..];
    assert order == order[..p] + order[p..];
    r
  }

  function RemoveAt(order: seq<Id>, p: nat): (r: seq<Id>)
    requires p < |order|
    ensures |r| == |order| - 1
    ensures forall i :: 0 <= i < p ==> r[i] == order[i]
    ensures forall i :: p <= i < |r| ==> r[i] == order[i + 1]
  {
    order[..p] + order[p + 1..]
  }

  function Insert(recs: map<Id, Timer>, order: seq<Id>, a: Id): (r: seq<Id>)
    requires Known(recs, order) && a in recs
    ensures Known(recs, r) && (forall b :: b in r <==> b == a || b in order)
  {
    InsertAt(order, LowerBound(recs, order, recs[a].next, a), a)
  }

  lemma InsertSorted(recs: map<Id, Timer>, order: seq<Id>, a: Id)
    requires Known(recs, order) && Sorted(recs, order) && a in recs && a !in order
    ensures Sorted(recs, Insert(recs, order, a))
  {
    LowerBoundSplits(recs, order, recs[a].next, a);
  }

  lemma SortedDistinct(recs: map<Id, Timer>, order: seq<Id>, i: nat, j: nat)
    requires Known(recs, order) && Sorted(recs, order) && i < |order| && j < |order| && i != j
    ensures order[i] != order[j]
  {
  }

  /** std::set::find. */
  function Find(recs: map<Id, Timer>, order: seq<Id>, a: Id): (p: Option<nat>)
    requires Known(recs, order) && a in recs
    ensures p.Some? ==> p.value < |order|
  {
    var p := LowerBound(recs, order, recs[a].next, a);
    if p < |order| && !(recs[a].next < recs[order[p]].next || (recs[a].next == recs[order[p]].next && a < order[p]))
    then Some(p) else None
  }

  /** While the set is sorted by current deadlines, find finds what is there. */
  lemma FindFinds(recs: map<Id, Timer>, order: seq<Id>, a: Id)
    requires Known(recs, order) && Sorted(recs, order) && a in order
    ensures Find(recs, order, a).Some? && order[Find(recs, order, a).value] == a
  {
    LowerBoundSplits(recs, order, recs[a].next, a);
    var k :| 0 <= k < |order| && order[k] == a;
    assert !Before(recs, order[k], recs[a].next, a);
  }

  // ------------------------------------------------------------- the invariant

  /** A timer is in the set exactly while it has a callback, and the set is
      sorted by current deadlines; pending timers are being handed out. */
  ghost predicate Sound(recs: map<Id, Timer>, order: seq<Id>, pending: seq<Id>) {
    && Known(recs, order) && Known(recs, pending) && Sorted(recs, order)
    && (forall a :: a in order ==> a !in pending)
    && (forall a :: a in recs ==> (a in order || a in pending <==> recs[a].cb.Some?))
  }

  ghost predicate Inv(s: State) {
    Sound(s.recs, s.order, [])
  }

  /** The set is in the order of the deadlines; equal ones are in that of the
      addresses. */
  lemma OrderMeans(s: State, i: nat, j: nat)
    requires Inv(s) && i < j < |s.order|
    ensures
      var a, b := s.order[i], s.order[j];
      s.recs[a].next < s.recs[b].next || (s.recs[a].next == s.recs[b].next && a < b)
  {
    assert Before(s.recs, s.order[i], s.recs[s.order[j]].next, s.order[j]);
  }

  lemma SoundInsert(recs: map<Id, Timer>, order: seq<Id>, pending: seq<Id>, a: Id, t: Timer)
    requires Sound(recs, order, pending) && a !in order && a !in pending && t.cb.Some?
    ensures
      var recs' := recs[a := t];
      Known(recs', order) && Sound(recs', Insert(recs', order, a), pending)
  {
    var recs' := recs[a := t];
    assert forall i :: 0 <= i < |order| ==> order[i] != a;
    assert Sorted(recs', order);
    InsertSorted(recs', order, a);
  }

  lemma SoundRemove(recs: map<Id, Timer>, order: seq<Id>, a: Id)
    requires Sound(recs, order, []) && a in order
    ensures
      var p := Find(recs, order, a);
      var recs' := recs[a := recs[a].(cb := None)];
      p.Some? && Sound(recs', RemoveAt(order, p.value), []) && a !in RemoveAt(order, p.value)
      && (forall b :: b in RemoveAt(order, p.value) <==> b in order && b != a)
  {
    FindFinds(recs, order, a);
    var p := Find(recs, order, a).value;
    var r := RemoveAt(order, p);
    forall i | 0 <= i < |r|
      ensures r[i] != a && r[i] in order
    {
      SortedDistinct(recs, order, p, if i < p then i else i + 1);
    }
    forall b | b in order && b != a
      ensures b in r
    {
      var k :| 0 <= k < |order| && order[k] == b;
      assert r[if k < p then k else k - 1] == b;
    }
  }

  // ------------------------------------------------------------- the operations

  /** What an operation reports: its boolean result, whether it called
      onTimerInsertedAtFront, and the timers and callbacks it handed out. */
  datatype Output = Output(ok: bool, front: bool, fired: seq<Id>, cbs: seq<nat>)

  const Quiet := Output(true, false, [], [])

  /** addTimer(val, lock): insert, and notify unless already notified. */
  function AddSorted(s: State, a: Id): (r: (State, Output))
    requires Known(s.recs, s.order) && a in s.recs
  {
    var order := Insert(s.recs, s.order, a);
    var front := order[0] == a && !s.tickled;
    (s.(order := order, tickled := s.tickled || front), Quiet.(front := front))
  }

  /** addTimer(ms, cb, recurring), the timer built at time now. */
  function Add(s: State, a: Id, now: nat, ms: nat, cb: nat, recurring: bool): (r: (State, Output))
    requires Inv(s) && a !in s.recs
  {
    AddSorted(s.(recs := s.recs[a := Timer(recurring, ms, Plus(now, ms), Some(cb))]), a)
  }

  function Erase(s: State, a: Id): (r: State)
    requires Inv(s) && a in s.order
  {
    FindFinds(s.recs, s.order, a);
    s.(order := RemoveAt(s.order, Find(s.recs, s.order, a).value))
  }

  lemma EraseAtLowerBound(s: State, a: Id)
    requires Inv(s) && a in s.order
    ensures
      var p := LowerBound(s.recs, s.order, s.recs[a].next, a);
      p < |s.order| && s.order[p] == a && Erase(s, a) == s.(order := RemoveAt(s.order, p))
  {
    FindFinds(s.recs, s.order, a);
  }

  function Cancel(s: State, a: Id): (r: (State, Output))
    requires Inv(s) && a in s.recs
  {
    if s.recs[a].cb.None? then (s, Quiet.(ok := false))
    else (Erase(s, a).(recs := s.recs[a := s.recs[a].(cb := None)]), Quiet)
  }

  function Refresh(s: State, a: Id, now: nat): (r: (State, Output))
    requires Inv(s) && a in s.recs
  {
    if s.recs[a].cb.None? then (s, Quiet.(ok := false))
    else
      var t := Erase(s, a).(recs := s.recs[a := s.recs[a].(next := Plus(now, s.recs[a].ms))]);
      assert Known(t.recs, t.order);
      (t.(order := Insert(t.recs, t.order, a)), Quiet)
  }

  function Reset(s: State, a: Id, now: nat, ms: nat, fromNow: bool): (r: (State, Output))
    requires Inv(s) && a in s.recs
  {
    var rec := s.recs[a];
    if ms == rec.ms && !fromNow then (s, Quiet)
    else if rec.cb.None? then (s, Quiet.(ok := false))
    else
      var start := if fromNow then now else Minus(rec.next, rec.ms);
      var t := Erase(s, a).(recs := s.recs[a := rec.(ms := ms, next := Plus(start, ms))]);
      assert Known(t.recs, t.order);
      AddSorted(t, a)
  }

  /** getNextTimer: how long to sleep; all ones when there is no timer. */
  function NextTimer(s: State, now: nat): (r: (State, nat))
    requires Known(s.recs, s.order)
  {
    (s.(tickled := false),
     if s.order == [] then U64 - 1
     else var next := s.recs[s.order[0]].next; if now >= next then 0 else next - now)
  }

  /** deleteClockRollover. */
  predicate Rollover(previous: nat, now: nat) {
    now < previous && now < Minus(previous, HOUR)
  }

  /** The clock counts as set back when it lost more than an hour; within the
      first hour of its range, when it lost anything at all. */
  lemma RolloverMeans(previous: nat, now: nat)
    requires previous < U64
    ensures Rollover(previous, now) <==> now < previous && (previous < 3_600_000 || now < previous - 3_600_000)
  {
  }

  /** The scan behind lower_bound over timers due at now. */
  function SkipDue(recs: map<Id, Timer>, order: seq<Id>, p: nat, now: nat): (q: nat)
    requires Known(recs, order) && p <= |order|
    ensures p <= q <= |order|
    decreases |order| - p
  {
    if p < |order| && recs[order[p]].next == now then SkipDue(recs, order, p + 1, now) else p
  }

  /** How many timers, from the front, expire. */
  function ExpiredCount(s: State, now: nat, probe: Id): (k: nat)
    requires Known(s.recs, s.order)
    ensures k <= |s.order|
  {
    if s.order == [] then 0
    else if Rollover(s.previous, now) then |s.order|
    else if s.recs[s.order[0]].next > now then 0
    else SkipDue(s.recs, s.order, LowerBound(s.recs, s.order, now, probe), now)
  }

  /** An expired timer starts over or loses its callback. */
  function Fired(t: Timer, now: nat): Timer {
    if t.recurring then t.(next := Plus(now, t.ms)) else t.(cb := None)
  }

  /** The loop over the expired timers. */
  function Fire(recs: map<Id, Timer>, order: seq<Id>, expired: seq<Id>, now: nat)
    : (r: (map<Id, Timer>, seq<Id>, seq<nat>))
    requires Known(recs, order) && Known(recs, expired)
    decreases |expired|
  {
    if expired == [] then (recs, order, [])
    else
      var a := expired[0];
      var t := recs[a];
      var cb := if t.cb.Some? then [t.cb.value] else [];
      var recs' := recs[a := Fired(t, now)];
      var order' := if t.recurring then Insert(recs', order, a) else order;
      var rest := Fire(recs', order', expired[1..], now);
      (rest.0, rest.1, cb + rest.2)
  }

  /** listExpiredCb; the probe timer it allocates sits at address probe. */
  function ListExpired(s: State, now: nat, probe: Id): (r: (State, Output))
    requires Known(s.recs, s.order)
  {
    if s.order == [] then (s, Quiet)
    else
      var k := ExpiredCount(s, now, probe);
      var expired := s.order[..k];
      var f := Fire(s.recs, s.order[k..], expired, now);
      (State(f.0, f.1, s.tickled, now), Output(true, false, expired, f.2))
  }

  // --------------------------------------------------- the invariant is kept

  lemma AddKeeps(s: State, a: Id, now: nat, ms: nat, cb: nat, recurring: bool)
    requires Inv(s) && a !in s.recs
    ensures Inv(Add(s, a, now, ms, cb, recurring).0)
  {
    SoundInsert(s.recs, s.order, [], a, Timer(recurring, ms, Plus(now, ms), Some(cb)));
  }

  lemma CancelKeeps(s: State, a: Id)
    requires Inv(s) && a in s.recs
    ensures Inv(Cancel(s, a).0)
    ensures Cancel(s, a).1.ok <==> a in s.order
    ensures a !in Cancel(s, a).0.order
  {
    if a in s.order {
      SoundRemove(s.recs, s.order, a);
    }
  }

  /** Taking a timer out and putting it back under a new deadline. */
  lemma RekeyKeeps(s: State, a: Id, t: Timer)
    requires Inv(s) && a in s.order && t.cb.Some?
    ensures
      var order := Erase(s, a).order;
      var recs := s.recs[a := t];
      && Known(recs, order) && Sound(recs, Insert(recs, order, a), [])
      && (forall b :: b in order <==> b in s.order && b != a)
  {
    hide Sorted, Insert;
    SoundRemove(s.recs, s.order, a);
    var dead := s.recs[a := s.recs[a].(cb := None)];
    SoundInsert(dead, Erase(s, a).order, [], a, t);
    assert dead[a := t] == s.recs[a := t];
  }

  lemma RefreshKeeps(s: State, a: Id, now: nat)
    requires Inv(s) && a in s.recs
    ensures Inv(Refresh(s, a, now).0)
  {
    if a in s.order {
      RekeyKeeps(s, a, s.recs[a].(next := Plus(now, s.recs[a].ms)));
    }
  }

  lemma ResetKeeps(s: State, a: Id, now: nat, ms: nat, fromNow: bool)
    requires Inv(s) && a in s.recs
    ensures Inv(Reset(s, a, now, ms, fromNow).0)
  {
    if a in s.order {
      var start := if fromNow then now else Minus(s.recs[a].next, s.recs[a].ms);
      RekeyKeeps(s, a, s.recs[a].(ms := ms, next := Plus(start, ms)));
    }
  }

  /** Timer a is due before every other in the set. */
  ghost predicate Earliest(s: State, a: Id)
    requires Known(s.recs, s.order) && a in s.recs
  {
    forall b :: b in s.order && b != a ==> Before(s.recs, a, s.recs[b].next, b)
  }

  lemma FrontIsEarliest(s: State, a: Id)
    requires Known(s.recs, s.order) && Sorted(s.recs, s.order) && a in s.order
    ensures s.order[0] == a <==> Earliest(s, a)
  {
    var k :| 0 <= k < |s.order| && s.order[k] == a;
    if k > 0 {
      assert Before(s.recs, s.order[0], s.recs[a].next, a);
      SortedDistinct(s.recs, s.order, 0, k);
      assert s.order[0] in s.order;
    }
  }

  /** What changes when timer a gets record t: nothing but that record, its
      place in the set, and the notification when it is the new earliest one
      and none has been sent since the last getNextTimer. */
  ghost predicate Placed(s: State, t: State, a: Id, rec: Timer, told: bool, front: bool) {
    && Inv(t) && t.previous == s.previous
    && t.recs == s.recs[a := rec]
    && (forall b :: b in t.order <==> b in s.order || b == a)
    && (front <==> told && !s.tickled && Earliest(t, a))
    && t.tickled == (s.tickled || front)
  }

  lemma AddMeans(s: State, a: Id, now: nat, ms: nat, cb: nat, recurring: bool)
    requires Inv(s) && a !in s.recs
    ensures
      var (t, out) := Add(s, a, now, ms, cb, recurring);
      out.ok && out.fired == [] && Placed(s, t, a, Timer(recurring, ms, Plus(now, ms), Some(cb)), true, out.front)
  {
    AddKeeps(s, a, now, ms, cb, recurring);
    FrontIsEarliest(Add(s, a, now, ms, cb, recurring).0, a);
  }

  /** A live timer is removed for good, and nothing else changes. */
  lemma CancelMeans(s: State, a: Id)
    requires Inv(s) && a in s.recs
    ensures
      var (t, out) := Cancel(s, a);
      && (out.ok <==> s.recs[a].cb.Some?)
      && Inv(t) && t.tickled == s.tickled && t.previous == s.previous
      && t.recs == s.recs[a := s.recs[a].(cb := None)]
      && (forall b :: b in t.order <==> b in s.order && b != a)
  {
    if a in s.order {
      SoundRemove(s.recs, s.order, a);
    }
  }

  /** A live timer runs its full period again, without a notification. */
  lemma RefreshMeans(s: State, a: Id, now: nat)
    requires Inv(s) && a in s.recs
    ensures
      var (t, out) := Refresh(s, a, now);
      && (out.ok <==> s.recs[a].cb.Some?) && !out.front
      && (if out.ok then Placed(s, t, a, s.recs[a].(next := Plus(now, s.recs[a].ms)), false, false) else t == s)
  {
    if a in s.order {
      RekeyKeeps(s, a, s.recs[a].(next := Plus(now, s.recs[a].ms)));
    }
  }

  /** A live timer gets a new period, counted from now or from the start of the
      old one; asking for the period it has, not from now, changes nothing. */
  lemma ResetMeans(s: State, a: Id, now: nat, ms: nat, fromNow: bool)
    requires Inv(s) && a in s.recs
    ensures
      var (t, out) := Reset(s, a, now, ms, fromNow);
      var rec := s.recs[a];
      var same := ms == rec.ms && !fromNow;
      var next := if fromNow then Plus(now, ms) else Plus(Minus(rec.next, rec.ms), ms);
      && (out.ok <==> same || rec.cb.Some?)
      && (if same || !out.ok then t == s && !out.front
          else Placed(s, t, a, rec.(ms := ms, next := next), true, out.front))
  {
    if a in s.order && !(ms == s.recs[a].ms && !fromNow) {
      var start := if fromNow then now else Minus(s.recs[a].next, s.recs[a].ms);
      RekeyKeeps(s, a, s.recs[a].(ms := ms, next := Plus(start, ms)));
      FrontIsEarliest(Reset(s, a, now, ms, fromNow).0, a);
    }
  }

  lemma {:induction false} FireKeeps(recs: map<Id, Timer>, order: seq<Id>, expired: seq<Id>, now: nat)
    requires Sound(recs, order, expired) && Distinct(expired)
    ensures Sound(Fire(recs, order, expired, now).0, Fire(recs, order, expired, now).1, [])
    decreases |expired|
  {
    if expired != [] {
      FireOneKeeps(recs, order, expired, now);
      var a, rest := expired[0], expired[1..];
      var recs' := recs[a := Fired(recs[a], now)];
      var order' := if recs[a].recurring then Insert(recs', order, a) else order;
      FireKeeps(recs', order', rest, now);
    }
  }

  lemma FireOneKeeps(recs: map<Id, Timer>, order: seq<Id>, expired: seq<Id>, now: nat)
    requires Sound(recs, order, expired) && Distinct(expired) && expired != []
    ensures
      var a := expired[0];
      var recs' := recs[a := Fired(recs[a], now)];
      && Known(recs', order)
      && Sound(recs', if recs[a].recurring then Insert(recs', order, a) else order, expired[1..])
      && Distinct(expired[1..])
  {
    hide Insert;
    var a, rest := expired[0], expired[1..];
    assert expired == [a] + rest;
    assert a !in rest;
    var dead := recs[a := recs[a].(cb := None)];
    assert Sound(dead, order, rest);
    if recs[a].recurring {
      SoundInsert(dead, order, rest, a, Fired(recs[a], now));
      assert dead[a := Fired(recs[a], now)] == recs[a := Fired(recs[a], now)];
    }
  }

  lemma InvSplit(s: State, k: nat)
    requires Inv(s) && k <= |s.order|
    ensures Sound(s.recs, s.order[k..], s.order[..k]) && Distinct(s.order[..k])
  {
    var front, back := s.order[..k], s.order[k..];
    assert s.order == front + back;
    forall a | a in back
      ensures a !in front
    {
      var j :| 0 <= j < |back| && back[j] == a;
      forall i | 0 <= i < |front|
        ensures front[i] != a
      {
        SortedDistinct(s.recs, s.order, i, k + j);
      }
    }
  }

  lemma ListExpiredKeeps(s: State, now: nat, probe: Id)
    requires Inv(s)
    ensures Inv(ListExpired(s, now, probe).0)
  {
    hide Fire, Sorted;
    var k := ExpiredCount(s, now, probe);
    InvSplit(s, k);
    FireKeeps(s.recs, s.order[k..], s.order[..k], now);
  }

  // ---------------------------------------------------------- expiry exactness

  lemma {:induction false} SkipDueSkips(recs: map<Id, Timer>, order: seq<Id>, p: nat, now: nat)
    requires Known(recs, order) && Sorted(recs, order) && p <= |order|
    requires forall i :: p <= i < |order| ==> recs[order[i]].next >= now
    ensures
      var q := SkipDue(recs, order, p, now);
      && (forall i :: p <= i < q ==> recs[order[i]].next == now)
      && (forall i :: q <= i < |order| ==> recs[order[i]].next > now)
    decreases |order| - p
  {
    if p < |order| && recs[order[p]].next == now {
      SkipDueSkips(recs, order, p + 1, now);
    }
  }

  /** Without a rollover exactly the timers due by now expire, wherever the
      probe timer was allocated; with one, all of them do. */
  lemma ExpiredExactly(s: State, now: nat, probe: Id)
    requires Inv(s)
    ensures
      var k := ExpiredCount(s, now, probe);
      if Rollover(s.previous, now) then k == |s.order|
      else
        && (forall i :: 0 <= i < k ==> s.recs[s.order[i]].next <= now)
        && (forall i :: k <= i < |s.order| ==> s.recs[s.order[i]].next > now)
  {
    if s.order != [] && !Rollover(s.previous, now) && s.recs[s.order[0]].next <= now {
      var p := LowerBound(s.recs, s.order, now, probe);
      LowerBoundSplits(s.recs, s.order, now, probe);
      SkipDueSkips(s.recs, s.order, p, now);
    }
  }

  /** The callbacks of the given timers, in order. */
  function Callbacks(recs: map<Id, Timer>, ids: seq<Id>): seq<nat>
    requires Known(recs, ids)
  {
    if ids == [] then []
    else (if recs[ids[0]].cb.Some? then [recs[ids[0]].cb.value] else []) + Callbacks(recs, ids[1..])
  }

  lemma {:induction false} CallbacksFrame(recs: map<Id, Timer>, a: Id, t: Timer, ids: seq<Id>)
    requires Known(recs, ids) && a !in ids
    ensures Known(recs[a := t], ids) && Callbacks(recs[a := t], ids) == Callbacks(recs, ids)
    decreases |ids|
  {
    if ids != [] {
      CallbacksFrame(recs, a, t, ids[1..]);
    }
  }

  /** What the expiry loop does: it hands out the callbacks in order, starts
      the recurring timers over and drops the others. */
  lemma {:induction false} FireEffect(recs: map<Id, Timer>, order: seq<Id>, expired: seq<Id>, now: nat)
    requires Known(recs, order) && Known(recs, expired) && Distinct(expired)
    ensures
      var f := Fire(recs, order, expired, now);
      && f.0.Keys == recs.Keys
      && (forall a :: a in recs ==> f.0[a] == if a in expired then Fired(recs[a], now) else recs[a])
      && (forall a :: a in f.1 <==> a in order || (a in expired && recs[a].recurring))
      && f.2 == Callbacks(recs, expired)
    decreases |expired|
  {
    if expired != [] {
      hide Insert, Fired;
      var a, rest := expired[0], expired[1..];
      assert expired == [a] + rest;
      assert a !in rest;
      var recs' := recs[a := Fired(recs[a], now)];
      var order' := if recs[a].recurring then Insert(recs', order, a) else order;
      FireEffect(recs', order', rest, now);
      CallbacksFrame(recs, a, Fired(recs[a], now), rest);
    }
  }

  lemma {:induction false} CallbacksAt(recs: map<Id, Timer>, ids: seq<Id>)
    requires Known(recs, ids) && forall i :: 0 <= i < |ids| ==> recs[ids[i]].cb.Some?
    ensures |Callbacks(recs, ids)| == |ids|
    ensures forall i :: 0 <= i < |ids| ==> recs[ids[i]].cb == Some(Callbacks(recs, ids)[i])
    decreases |ids|
  {
    if ids != [] {
      assert recs[ids[0]].cb.Some?;
      CallbacksAt(recs, ids[1..]);
    }
  }

  /** The whole of listExpiredCb: it returns the callbacks of exactly the
      expired timers in deadline order, gives the recurring ones a full period
      from now and takes the callback from the others; apart from this it changes
      nothing but the time of the last scan. */
  lemma ListExpiredExactly(s: State, now: nat, probe: Id)
    requires Inv(s)
    ensures
      var (t, out) := ListExpired(s, now, probe);
      && out.fired == s.order[..|out.fired|]
      && |out.cbs| == |out.fired|
      && (forall i :: 0 <= i < |out.fired| ==> s.recs[out.fired[i]].cb == Some(out.cbs[i]))
      && (forall a :: a in out.fired <==> a in s.order && (Rollover(s.previous, now) || s.recs[a].next <= now))
      && (forall a :: a in t.order <==> a in s.order && (a in out.fired ==> s.recs[a].recurring))
      && t.recs.Keys == s.recs.Keys
      && (forall a :: a in s.recs && a !in out.fired ==> t.recs[a] == s.recs[a])
      && (forall a :: a in out.fired && s.recs[a].recurring ==>
            t.recs[a] == s.recs[a].(next := Plus(now, s.recs[a].ms)))
      && (forall a :: a in out.fired && !s.recs[a].recurring ==> t.recs[a] == s.recs[a].(cb := None))
      && t.tickled == s.tickled && t.previous == if s.order == [] then s.previous else now
  {
    hide Fire, Sorted, Rollover, Plus;
    var k := ExpiredCount(s, now, probe);
    ExpiredExactly(s, now, probe);
    InvSplit(s, k);
    assert s.order == s.order[..k] + s.order[k..];
    FireEffect(s.recs, s.order[k..], s.order[..k], now);
    forall i | 0 <= i < k
      ensures s.recs[s.order[..k][i]].cb.Some?
    {
      assert s.order[i] in s.order;
    }
    CallbacksAt(s.recs, s.order[..k]);
  }

  lemma FiredWhenDue(s: State, a: Id, now: nat, probe: Id)
    requires Inv(s) && a in s.order
    ensures a in ListExpired(s, now, probe).1.fired <==> Rollover(s.previous, now) || s.recs[a].next <= now
  {
    hide ListExpired, Rollover, Sorted;
    ListExpiredExactly(s, now, probe);
  }

  /** After a scan nothing in the set is due if and only if every recurring timer
      that it starts over gets a later deadline. */
  lemma NothingDueAfter(s: State, now: nat, probe: Id)
    requires Inv(s)
    ensures
      var (t, out) := ListExpired(s, now, probe);
      && Known(t.recs, t.order)
      && ((forall a :: a in t.order ==> t.recs[a].next > now) <==>
          (forall a :: a in s.order && a in out.fired && s.recs[a].recurring ==> Plus(now, s.recs[a].ms) > now))
  {
    hide ListExpired, Plus, Rollover;
    ListExpiredExactly(s, now, probe);
    ListExpiredKeeps(s, now, probe);
    var (t, out) := ListExpired(s, now, probe);
    forall a | a in s.order && a in out.fired && s.recs[a].recurring
      ensures a in t.order && t.recs[a].next == Plus(now, s.recs[a].ms)
    {
    }
  }
}
