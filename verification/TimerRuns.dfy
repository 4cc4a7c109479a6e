/** Whole runs of the timer manager. */
module TimerRuns {
  import opened Basics
  import opened Timers

  /** One call, with the clock value it reads. */
  datatype Op =
    | DoAdd(a: Id, at: nat, ms: nat, cb: nat, recurring: bool)
    | DoCancel(a: Id)
    | DoRefresh(a: Id, at: nat)
    | DoReset(a: Id, at: nat, ms: nat, fromNow: bool)
    | DoExpire(at: nat, probe: Id)
    | DoNext(at: nat)

  /** A new timer has an address of its own; other calls are on made timers. */
  predicate Legal(s: State, op: Op) {
    match op
    case DoAdd(a, _, _, _, _) => a !in s.recs
    case DoCancel(a) => a in s.recs
    case DoRefresh(a, _) => a in s.recs
    case DoReset(a, _, _, _) => a in s.recs
    case DoExpire(_, _) => true
    case DoNext(_) => true
  }

  function Apply(s: State, op: Op): (r: (State, Output))
    requires Inv(s) && Legal(s, op)
    ensures Inv(r.0)
  {
    ApplyKeeps(s, op);
    match op
    case DoAdd(a, at, ms, cb, recurring) => Add(s, a, at, ms, cb, recurring)
    case DoCancel(a) => Cancel(s, a)
    case DoRefresh(a, at) => Refresh(s, a, at)
    case DoReset(a, at, ms, fromNow) => Reset(s, a, at, ms, fromNow)
    case DoExpire(at, probe) => ListExpired(s, at, probe)
    case DoNext(at) => (NextTimer(s, at).0, Quiet)
  }

  lemma ApplyKeeps(s: State, op: Op)
    requires Inv(s) && Legal(s, op)
    ensures match op
            case DoAdd(a, at, ms, cb, recurring) => Inv(Add(s, a, at, ms, cb, recurring).0)
            case DoCancel(a) => Inv(Cancel(s, a).0)
            case DoRefresh(a, at) => Inv(Refresh(s, a, at).0)
            case DoReset(a, at, ms, fromNow) => Inv(Reset(s, a, at, ms, fromNow).0)
            case DoExpire(at, probe) => Inv(ListExpired(s, at, probe).0)
            case DoNext(at) => Inv(NextTimer(s, at).0)
  {
    hide Inv, Add, Cancel, Refresh, Reset, ListExpired;
    match op
    case DoAdd(a, at, ms, cb, recurring) => AddKeeps(s, a, at, ms, cb, recurring);
    case DoCancel(a) => CancelKeeps(s, a);
    case DoRefresh(a, at) => RefreshKeeps(s, a, at);
    case DoReset(a, at, ms, fromNow) => ResetKeeps(s, a, at, ms, fromNow);
    case DoExpire(at, probe) => ListExpiredKeeps(s, at, probe);
    case DoNext(_) => NextKeeps(s);
  }

  lemma NextKeeps(s: State)
    requires Inv(s)
    ensures Inv(s.(tickled := false))
  {
  }

  ghost predicate LegalRun(s: State, ops: seq<Op>)
    requires Inv(s)
    decreases |ops|
  {
    ops == [] || (Legal(s, ops[0]) && LegalRun(Apply(s, ops[0]).0, ops[1..]))
  }

  ghost function End(s: State, ops: seq<Op>): (r: State)
    requires Inv(s) && LegalRun(s, ops)
    ensures Inv(r)
    decreases |ops|
  {
    if ops == [] then s else End(Apply(s, ops[0]).0, ops[1..])
  }

  // --------------------------------------------------------- timer lifecycle

  /** How often the run hands timer a out. */
  ghost function TimesFired(s: State, ops: seq<Op>, a: Id): nat
    requires Inv(s) && LegalRun(s, ops)
    decreases |ops|
  {
    if ops == [] then 0
    else
      var (t, out) := Apply(s, ops[0]);
      multiset(out.fired)[a] + TimesFired(t, ops[1..], a)
  }

  /** One call hands a timer out at most once and only if it is in the set;
      timers stay made, and one without a callback never gets one back. */
  lemma ApplyLifecycle(s: State, op: Op, a: Id)
    requires Inv(s) && Legal(s, op) && a in s.recs
    ensures
      var (t, out) := Apply(s, op);
      && a in t.recs
      && t.recs[a].recurring == s.recs[a].recurring
      && (s.recs[a].cb.None? ==> t.recs[a].cb.None?)
      && multiset(out.fired)[a] == (if a in out.fired then 1 else 0)
      && (a in out.fired ==> s.recs[a].cb.Some?)
      && (a in out.fired && !s.recs[a].recurring ==> t.recs[a].cb.None?)
  {
    if op.DoExpire? {
      hide ListExpired;
      ListExpiredExactly(s, op.at, op.probe);
      var fired := Apply(s, op).1.fired;
      forall i, j | 0 <= i < j < |fired|
        ensures fired[i] != fired[j]
      {
        SortedDistinct(s.recs, s.order, i, j);
      }
      DistinctCount(fired, a);
    } else {
      QuietLifecycle(s, op, a);
    }
  }

  /** The calls that hand nothing out. */
  lemma QuietLifecycle(s: State, op: Op, a: Id)
    requires Inv(s) && Legal(s, op) && a in s.recs && !op.DoExpire?
    ensures
      var (t, out) := Apply(s, op);
      && out.fired == [] && a in t.recs && t.recs[a].recurring == s.recs[a].recurring
      && (s.recs[a].cb.None? ==> t.recs[a].cb.None?)
  {
    hide Insert, Erase, Sorted, Known;
  }

  lemma {:induction false} DistinctCount(ids: seq<Id>, a: Id)
    requires Distinct(ids)
    ensures multiset(ids)[a] == if a in ids then 1 else 0
    decreases |ids|
  {
    if ids != [] {
      DistinctCount(ids[1..], a);
      assert ids == [ids[0]] + ids[1..];
    }
  }

  /** A timer without a callback is never handed out again. */
  lemma {:induction false} DeadStaysDead(s: State, ops: seq<Op>, a: Id)
    requires Inv(s) && LegalRun(s, ops) && a in s.recs && s.recs[a].cb.None?
    ensures TimesFired(s, ops, a) == 0
    decreases |ops|
  {
    if ops != [] {
      hide Apply, Legal;
      ApplyLifecycle(s, ops[0], a);
      DeadStaysDead(Apply(s, ops[0]).0, ops[1..], a);
    }
  }

  /** Over any run a one-shot timer is handed out at most once. */
  lemma {:induction false} OneShotOnce(s: State, ops: seq<Op>, a: Id)
    requires Inv(s) && LegalRun(s, ops) && a in s.recs && !s.recs[a].recurring
    ensures TimesFired(s, ops, a) <= 1
    decreases |ops|
  {
    if ops != [] {
      hide Apply, Legal;
      var (t, out) := Apply(s, ops[0]);
      ApplyLifecycle(s, ops[0], a);
      if a in out.fired {
        DeadStaysDead(t, ops[1..], a);
      } else {
        OneShotOnce(t, ops[1..], a);
      }
    }
  }

  /** Which timers exist after a call, and that only existing ones are handed out. */
  lemma ApplyMade(s: State, op: Op, a: Id)
    requires Inv(s) && Legal(s, op) && a !in s.recs
    ensures
      var (t, out) := Apply(s, op);
      && multiset(out.fired)[a] == 0
      && (a in t.recs <==> op.DoAdd? && op.a == a)
      && (op.DoAdd? && op.a == a ==> t.recs[a].recurring == op.recurring)
  {
    hide Sorted;
    match op
    case DoAdd(_, _, _, _, _) =>
    case DoCancel(_) =>
    case DoRefresh(_, _) =>
    case DoReset(_, _, _, _) =>
    case DoExpire(at, probe) =>
      hide ListExpired;
      ListExpiredExactly(s, at, probe);
    case DoNext(_) =>
  }

  /** Over any run of any manager, a timer that is made in the run as a one-shot
      timer is handed out at most once. */
  lemma {:induction false} OneShotOnceEver(s: State, ops: seq<Op>, a: Id)
    requires Inv(s) && LegalRun(s, ops) && a !in s.recs
    requires forall i :: 0 <= i < |ops| && ops[i].DoAdd? && ops[i].a == a ==> !ops[i].recurring
    ensures TimesFired(s, ops, a) <= 1
    decreases |ops|
  {
    if ops != [] {
      hide Apply, Legal;
      ApplyMade(s, ops[0], a);
      var t := Apply(s, ops[0]).0;
      if a in t.recs {
        OneShotOnce(t, ops[1..], a);
      } else {
        OneShotOnceEver(t, ops[1..], a);
      }
    }
  }

  /** No timer is handed out after it was cancelled successfully. */
  lemma NeverAfterCancel(s: State, ops: seq<Op>, a: Id)
    requires Inv(s) && a in s.recs && Cancel(s, a).1.ok
    requires Legal(s, DoCancel(a)) && LegalRun(Apply(s, DoCancel(a)).0, ops)
    ensures TimesFired(Apply(s, DoCancel(a)).0, ops, a) == 0
  {
    DeadStaysDead(Apply(s, DoCancel(a)).0, ops, a);
  }

  // ------------------------------------------------------ what is handed out

  datatype HandOut = HandOut(id: Id, cb: nat)

  /** What is handed out comes with the callback it has, and every timer keeps its
      callback or loses it. */
  ghost predicate SameCallbacks(s: State, t: State, out: Output) {
    && |out.cbs| == |out.fired|
    && (forall i :: 0 <= i < |out.fired| ==> out.fired[i] in s.recs && s.recs[out.fired[i]].cb == Some(out.cbs[i]))
    && (forall a :: a in s.recs ==> a in t.recs && (t.recs[a].cb == s.recs[a].cb || t.recs[a].cb == None))
  }

  lemma ScanCallback(s: State, at: nat, probe: Id)
    requires Inv(s)
    ensures SameCallbacks(s, ListExpired(s, at, probe).0, ListExpired(s, at, probe).1)
  {
    hide ListExpired, Rollover, Sorted;
    ListExpiredExactly(s, at, probe);
  }

  lemma QuietCallback(s: State, op: Op)
    requires Inv(s) && Legal(s, op) && !op.DoExpire?
    ensures SameCallbacks(s, Apply(s, op).0, Apply(s, op).1)
  {
    hide Insert, Erase, Sorted, Known, Find;
  }

  lemma ApplyCallback(s: State, op: Op)
    requires Inv(s) && Legal(s, op)
    ensures SameCallbacks(s, Apply(s, op).0, Apply(s, op).1)
  {
    hide SameCallbacks, ListExpired, Inv, Legal;
    if op.DoExpire? {
      ScanCallback(s, op.at, op.probe);
    } else {
      QuietCallback(s, op);
    }
  }

  /** Everything that a run hands out, in order. */
  ghost function HandOuts(s: State, ops: seq<Op>): seq<HandOut>
    requires Inv(s) && LegalRun(s, ops)
    decreases |ops|
  {
    if ops == [] then []
    else
      ApplyCallback(s, ops[0]);
      var (t, out) := Apply(s, ops[0]);
      seq(|out.fired|, i requires 0 <= i < |out.fired| => HandOut(out.fired[i], out.cbs[i])) + HandOuts(t, ops[1..])
  }

  predicate Only(hs: seq<HandOut>, a: Id, cb: nat) {
    forall i :: 0 <= i < |hs| && hs[i].id == a ==> hs[i].cb == cb
  }

  lemma {:induction false} CallbackKept(s: State, ops: seq<Op>, a: Id, cb: nat)
    requires Inv(s) && LegalRun(s, ops) && a in s.recs && (s.recs[a].cb == Some(cb) || s.recs[a].cb == None)
    ensures Only(HandOuts(s, ops), a, cb)
    decreases |ops|
  {
    if ops != [] {
      hide Apply, Legal;
      ApplyCallback(s, ops[0]);
      CallbackKept(Apply(s, ops[0]).0, ops[1..], a, cb);
    }
  }

  lemma AddedCallback(s: State, op: Op)
    requires Inv(s) && Legal(s, op) && op.DoAdd?
    ensures op.a in Apply(s, op).0.recs && Apply(s, op).0.recs[op.a].cb == Some(op.cb)
  {
    AddMeans(s, op.a, op.at, op.ms, op.cb, op.recurring);
    hide Add;
  }

  /** Over any run, whatever else is called on it, every hand-out of a timer gives
      the callback that it was added with. */
  lemma {:induction false} CallbackKeptEver(s: State, ops: seq<Op>, a: Id, cb: nat)
    requires Inv(s) && LegalRun(s, ops) && a !in s.recs
    requires forall i :: 0 <= i < |ops| && ops[i].DoAdd? && ops[i].a == a ==> ops[i].cb == cb
    ensures Only(HandOuts(s, ops), a, cb)
    decreases |ops|
  {
    if ops != [] {
      hide Apply, Legal;
      ApplyMade(s, ops[0], a);
      ApplyCallback(s, ops[0]);
      var t := Apply(s, ops[0]).0;
      if a in t.recs {
        AddedCallback(s, ops[0]);
        CallbackKept(t, ops[1..], a, cb);
      } else {
        CallbackKeptEver(t, ops[1..], a, cb);
      }
    }
  }

  // ------------------------------------------------------ no lost wake-up

  /** A call of getNextTimer: the deadline it saw in front, if any, and
      whether a front notification has been sent since. */
  datatype Report = Report(deadline: Option<nat>, notified: bool)

  /** The manager, the clock, and every report made so far. */
  datatype Watched = Watched(s: State, now: nat, reports: seq<Report>)

  /** The clock after a call; addTimer and listExpiredCb read it before they
      take the lock, so what they read may be old by then. */
  function TimeOf(op: Op, now: nat): nat {
    if op.DoCancel? || ((op.DoAdd? || op.DoExpire?) && op.at < now) then now else op.at
  }

  /** The deadlines that the call writes stay within 64 bits. */
  predicate Fits(s: State, op: Op)
    requires Legal(s, op)
  {
    match op
    case DoAdd(_, at, ms, _, _) => at + ms < U64
    case DoRefresh(a, at) => s.recs[a].cb.Some? ==> at + s.recs[a].ms < U64
    case DoReset(a, at, ms, fromNow) =>
      s.recs[a].cb.Some? ==> (if fromNow then at else s.recs[a].next - s.recs[a].ms) + ms < U64
    case DoExpire(at, _) =>
      forall a :: a in s.order && a in s.recs && s.recs[a].recurring && Due(s, a, at) ==> at + s.recs[a].ms < U64
    case _ => true
  }

  predicate Due(s: State, a: Id, at: nat)
    requires a in s.recs
  {
    Rollover(s.previous, at) || s.recs[a].next <= at
  }

  /** A scan that takes its clock reading for a clock set back starts every
      recurring timer over: none of them may be due earlier for it. */
  predicate ScanInTime(s: State, op: Op) {
    op.DoExpire? && Rollover(s.previous, op.at) ==>
      forall a :: a in s.order && a in s.recs && s.recs[a].recurring ==> s.recs[a].next <= op.at + s.recs[a].ms
  }

  /** The clock does not run backwards, deadlines fit, and no scan is so stale
      that it moves a deadline forward. */
  predicate Timely(w: Watched, op: Op) {
    Legal(w.s, op) && w.now <= TimeOf(op, w.now) && Fits(w.s, op) && ScanInTime(w.s, op)
  }

  function Notified(reports: seq<Report>): (r: seq<Report>)
    ensures |r| == |reports|
    ensures forall i :: 0 <= i < |r| ==> r[i] == reports[i].(notified := true)
  {
    seq(|reports|, i requires 0 <= i < |reports| => reports[i].(notified := true))
  }

  function Front(s: State): Option<nat>
    requires Known(s.recs, s.order)
  {
    if s.order == [] then None else Some(s.recs[s.order[0]].next)
  }

  function Watch(w: Watched, op: Op): (r: Watched)
    requires Inv(w.s) && Legal(w.s, op)
    ensures Inv(r.s)
  {
    var (t, out) := Apply(w.s, op);
    Watched(t, TimeOf(op, w.now),
            if out.front then Notified(w.reports)
            else if op.DoNext? then w.reports + [Report(Front(w.s), false)]
            else w.reports)
  }

  /** The report promised no later wake-up than timer deadline next needs. */
  predicate Covers(r: Report, next: nat) {
    r.deadline.Some? && r.deadline.value <= next
  }

  /** Every report not followed by a notification covers every timer. */
  ghost predicate NoneLost(w: Watched)
    requires Inv(w.s)
  {
    forall r, a :: r in w.reports && !r.notified && a in w.s.order ==> Covers(r, w.s.recs[a].next)
  }

  /** What keeps it true: a timer was started no later than now, and tickled
      means that all were notified. */
  ghost predicate WatchInv(w: Watched) {
    && Inv(w.s) && NoneLost(w)
    && (forall a :: a in w.s.order ==> w.s.recs[a].ms <= w.s.recs[a].next <= w.now + w.s.recs[a].ms)
    && (w.s.tickled ==> forall r :: r in w.reports ==> r.notified)
  }

  /** Putting timer a back under a later deadline loses no wake-up. */
  lemma RekeyLater(w: Watched, a: Id, t: Timer, s': State, now: nat)
    requires WatchInv(w) && a in w.s.order && w.now <= now
    requires t.next >= w.s.recs[a].next && t.ms <= t.next <= now + t.ms
    requires Inv(s') && s'.recs == w.s.recs[a := t] && s'.tickled == w.s.tickled
    requires forall b :: b in s'.order <==> b in w.s.order
    ensures WatchInv(Watched(s', now, w.reports))
  {
    hide Sorted;
    forall r, b | r in w.reports && !r.notified && b in s'.order
      ensures Covers(r, s'.recs[b].next)
    {
      assert Covers(r, w.s.recs[b].next);
    }
  }

  /** Inserting timer a with any deadline: either it is not in front, so that
      an older timer is due first, or all waiting threads have been told. */
  lemma InsertTold(w: Watched, s: State, a: Id, now: nat)
    requires WatchInv(w) && w.now <= now && a in s.recs
    requires s.tickled == w.s.tickled && Known(s.recs, s.order) && Sound(s.recs, Insert(s.recs, s.order, a), [])
    requires forall b :: b in s.order ==> b in w.s.order && b != a && s.recs[b] == w.s.recs[b]
    requires s.recs[a].ms <= s.recs[a].next <= now + s.recs[a].ms
    ensures
      var (t, out) := AddSorted(s, a);
      WatchInv(Watched(t, now, if out.front then Notified(w.reports) else w.reports))
  {
    var (t, out) := AddSorted(s, a);
    var reports := if out.front then Notified(w.reports) else w.reports;
    if out.front {
      assert forall r :: r in reports ==> r.notified;
    } else if !s.tickled {
      var first := t.order[0];
      assert first in s.order;
      var k :| 0 <= k < |t.order| && t.order[k] == a;
      assert Before(t.recs, first, t.recs[t.order[k]].next, a);
      forall r, b | r in reports && !r.notified && b in t.order
        ensures Covers(r, t.recs[b].next)
      {
        assert Covers(r, w.s.recs[first].next);
        if b != a {
          assert Covers(r, w.s.recs[b].next);
        }
      }
    }
  }

  lemma WatchAdd(w: Watched, op: Op)
    requires WatchInv(w) && Timely(w, op) && op.DoAdd?
    ensures WatchInv(Watch(w, op))
  {
    hide Insert, Sorted, NoneLost;
    var t := Timer(op.recurring, op.ms, Plus(op.at, op.ms), Some(op.cb));
    SoundInsert(w.s.recs, w.s.order, [], op.a, t);
    InsertTold(w, w.s.(recs := w.s.recs[op.a := t]), op.a, TimeOf(op, w.now));
  }

  lemma WatchCancel(w: Watched, op: Op)
    requires WatchInv(w) && Timely(w, op) && op.DoCancel?
    ensures WatchInv(Watch(w, op))
  {
    hide Sorted, Cancel;
    CancelMeans(w.s, op.a);
  }

  lemma WatchRefresh(w: Watched, op: Op)
    requires WatchInv(w) && Timely(w, op) && op.DoRefresh?
    ensures WatchInv(Watch(w, op))
  {
    hide Sorted, Refresh, NoneLost;
    RefreshMeans(w.s, op.a, op.at);
    var (t, out) := Refresh(w.s, op.a, op.at);
    if out.ok {
      assert Plus(op.at, w.s.recs[op.a].ms) == op.at + w.s.recs[op.a].ms;
      hide Plus;
      RekeyLater(w, op.a, t.recs[op.a], t, op.at);
    } else {
      NoneLostLater(w, op.at);
    }
  }

  lemma RestartTime(rec: Timer, now: nat, op: Op)
    requires op.DoReset? && now <= op.at && rec.ms <= rec.next <= now + rec.ms
    requires (if op.fromNow then op.at else rec.next - rec.ms) + op.ms < U64
    ensures
      var start := if op.fromNow then op.at else Minus(rec.next, rec.ms);
      op.ms <= Plus(start, op.ms) <= op.at + op.ms
  {
  }

  lemma WatchReset(w: Watched, op: Op)
    requires WatchInv(w) && Timely(w, op) && op.DoReset?
    ensures WatchInv(Watch(w, op))
  {
    hide Sorted, Insert, NoneLost;
    var rec := w.s.recs[op.a];
    if op.a in w.s.order && !(op.ms == rec.ms && !op.fromNow) {
      var start := if op.fromNow then op.at else Minus(rec.next, rec.ms);
      RestartTime(rec, w.now, op);
      hide Plus, Minus;
      var t := rec.(ms := op.ms, next := Plus(start, op.ms));
      RekeyKeeps(w.s, op.a, t);
      InsertTold(w, Erase(w.s, op.a).(recs := w.s.recs[op.a := t]), op.a, op.at);
    } else {
      NoneLostLater(w, op.at);
    }
  }

  lemma NoneLostLater(w: Watched, now: nat)
    requires WatchInv(w) && w.now <= now
    ensures WatchInv(w.(now := now))
  {
  }

  /** No timer left in the set by a scan is due earlier than before it. */
  lemma ExpiredLater(w: Watched, op: Op, b: Id)
    requires WatchInv(w) && Timely(w, op) && op.DoExpire? && b in ListExpired(w.s, op.at, op.probe).0.order
    ensures
      var t := ListExpired(w.s, op.at, op.probe).0;
      && b in w.s.order && b in t.recs && w.s.recs[b].next <= t.recs[b].next
      && t.recs[b].ms <= t.recs[b].next <= TimeOf(op, w.now) + t.recs[b].ms
  {
    hide ListExpired, Sorted, Rollover, NoneLost;
    ListExpiredExactly(w.s, op.at, op.probe);
  }

  lemma WatchExpire(w: Watched, op: Op)
    requires WatchInv(w) && Timely(w, op) && op.DoExpire?
    ensures WatchInv(Watch(w, op))
  {
    hide ListExpired, Sorted, Rollover, Plus;
    ListExpiredKeeps(w.s, op.at, op.probe);
    var t := ListExpired(w.s, op.at, op.probe).0;
    ExpireQuiet(w.s, op.at, op.probe);
    forall b | b in t.order
      ensures b in w.s.order && b in t.recs && w.s.recs[b].next <= t.recs[b].next
      ensures t.recs[b].ms <= t.recs[b].next <= TimeOf(op, w.now) + t.recs[b].ms
      ensures forall r :: r in w.reports && !r.notified ==> Covers(r, t.recs[b].next)
    {
      ExpiredLater(w, op, b);
      forall r | r in w.reports && !r.notified
        ensures Covers(r, t.recs[b].next)
      {
        assert Covers(r, w.s.recs[b].next);
      }
    }
  }

  lemma ExpireQuiet(s: State, now: nat, probe: Id)
    requires Inv(s)
    ensures !ListExpired(s, now, probe).1.front && ListExpired(s, now, probe).0.tickled == s.tickled
  {
  }

  lemma WatchNext(w: Watched, op: Op)
    requires WatchInv(w) && Timely(w, op) && op.DoNext?
    ensures WatchInv(Watch(w, op))
  {
    var v := Watch(w, op);
    forall r, b | r in v.reports && !r.notified && b in v.s.order
      ensures Covers(r, v.s.recs[b].next)
    {
      if r in w.reports {
        assert Covers(r, w.s.recs[b].next);
      } else {
        var k :| 0 <= k < |w.s.order| && w.s.order[k] == b;
        assert k > 0 ==> Before(w.s.recs, w.s.order[0], w.s.recs[w.s.order[k]].next, b);
      }
    }
  }

  lemma WatchKeeps(w: Watched, op: Op)
    requires WatchInv(w) && Timely(w, op)
    ensures WatchInv(Watch(w, op))
  {
    hide WatchInv, Watch, Timely;
    match op
    case DoAdd(_, _, _, _, _) => WatchAdd(w, op);
    case DoCancel(_) => WatchCancel(w, op);
    case DoRefresh(_, _) => WatchRefresh(w, op);
    case DoReset(_, _, _, _) => WatchReset(w, op);
    case DoExpire(_, _) => WatchExpire(w, op);
    case DoNext(_) => WatchNext(w, op);
  }

  ghost predicate TimelyRun(w: Watched, ops: seq<Op>)
    requires WatchInv(w)
    decreases |ops|
  {
    ops == [] || (Timely(w, ops[0]) && (WatchKeeps(w, ops[0]); TimelyRun(Watch(w, ops[0]), ops[1..])))
  }

  ghost function WatchAll(w: Watched, ops: seq<Op>): Watched
    requires WatchInv(w) && TimelyRun(w, ops)
    decreases |ops|
  {
    if ops == [] then w
    else
      WatchKeeps(w, ops[0]);
      WatchAll(Watch(w, ops[0]), ops[1..])
  }

  /** A fresh manager: no timers, nobody waiting. */
  function Fresh(now: nat): Watched {
    Watched(State(map[], [], false, now), now, [])
  }

  lemma FreshInv(now: nat)
    ensures WatchInv(Fresh(now))
  {
  }

  lemma {:induction false} WatchAllKeeps(w: Watched, ops: seq<Op>)
    requires WatchInv(w) && TimelyRun(w, ops)
    ensures WatchInv(WatchAll(w, ops))
    decreases |ops|
  {
    hide Sound, NoneLost, Watch, Fits, ScanInTime;
    if ops != [] {
      WatchKeeps(w, ops[0]);
      WatchAllKeeps(Watch(w, ops[0]), ops[1..]);
    }
  }

  /** A run of a new manager whose clock starts at now. */
  ghost predicate TimelyFrom(now: nat, ops: seq<Op>) {
    FreshInv(now);
    TimelyRun(Fresh(now), ops)
  }

  ghost function History(now: nat, ops: seq<Op>): Watched
    requires TimelyFrom(now, ops)
  {
    FreshInv(now);
    WatchAll(Fresh(now), ops)
  }

  /** In every run each report not yet followed by a notification is no later
      than any stored deadline, and no deadline is further away than its period. */
  lemma HistoryKeeps(now: nat, ops: seq<Op>)
    requires TimelyFrom(now, ops)
    ensures WatchInv(History(now, ops))
  {
    FreshInv(now);
    WatchAllKeeps(Fresh(now), ops);
  }

  /** In every run, if some stored deadline is earlier than the front deadline
      a call of getNextTimer saw (or it saw none), a front notification has
      been sent since that call. This holds of every call, not only the last. */
  lemma NoLostWakeUp(now: nat, ops: seq<Op>, r: Report, a: Id)
    requires TimelyFrom(now, ops) && r in History(now, ops).reports && a in History(now, ops).s.order
    ensures
      var recs := History(now, ops).s.recs;
      a in recs && (r.deadline.None? || recs[a].next < r.deadline.value ==> r.notified)
  {
    HistoryKeeps(now, ops);
  }

  // ------------------------------------------- why the assumptions are needed

  /** What a report of the front deadline is worth after a change. */
  ghost predicate StillCovered(s: State, t: State)
    requires Known(s.recs, s.order) && s.order != [] && Known(t.recs, t.order)
  {
    forall b :: b in t.order ==> Front(s).value <= t.recs[b].next
  }

  lemma FrontFirst(s: State, b: Id)
    requires Inv(s) && b in s.order
    ensures Front(s).Some? && Front(s).value <= s.recs[b].next
  {
    var k :| 0 <= k < |s.order| && s.order[k] == b;
    assert k > 0 ==> Before(s.recs, s.order[0], s.recs[s.order[k]].next, b);
  }

  /** refresh sends no notification: a report of the front deadline is still
      good after it if and only if the new deadline is no earlier. */
  lemma RefreshCovered(s: State, a: Id, at: nat)
    requires Inv(s) && a in s.order
    ensures
      var (t, out) := Refresh(s, a, at);
      !out.front && Inv(t) && (StillCovered(s, t) <==> Front(s).value <= Plus(at, s.recs[a].ms))
  {
    RefreshMeans(s, a, at);
    hide Refresh, Plus, Sorted;
    var t := Refresh(s, a, at).0;
    assert a in t.order;
    forall b | b in s.order
      ensures Front(s).value <= s.recs[b].next
    {
      FrontFirst(s, b);
    }
  }

  /** Nor does a scan: a report of the front deadline is still good after it if
      and only if no recurring timer that it starts over is due earlier. */
  lemma ExpireCovered(s: State, at: nat, probe: Id)
    requires Inv(s) && s.order != []
    ensures
      var (t, out) := ListExpired(s, at, probe);
      && !out.front && Inv(t)
      && (StillCovered(s, t) <==>
            forall a :: a in s.order && s.recs[a].recurring && Due(s, a, at) ==>
                          Front(s).value <= Plus(at, s.recs[a].ms))
  {
    ListExpiredKeeps(s, at, probe);
    ListExpiredExactly(s, at, probe);
    ExpireQuiet(s, at, probe);
    hide ListExpired, Plus, Sorted, Rollover;
    forall b | b in s.order
      ensures Front(s).value <= s.recs[b].next
    {
      FrontFirst(s, b);
    }
    var t := ListExpired(s, at, probe).0;
    forall a | a in s.order && s.recs[a].recurring && Due(s, a, at)
      ensures a in t.order && t.recs[a].next == Plus(at, s.recs[a].ms)
    {
    }
  }

  ghost predicate LegalWatch(w: Watched, ops: seq<Op>)
    requires Inv(w.s)
    decreases |ops|
  {
    ops == [] || (Legal(w.s, ops[0]) && LegalWatch(Watch(w, ops[0]), ops[1..]))
  }

  /** A run about whose clock nothing is known. */
  ghost function Watching(w: Watched, ops: seq<Op>): (r: Watched)
    requires Inv(w.s) && LegalWatch(w, ops)
    ensures Inv(r.s)
    decreases |ops|
  {
    if ops == [] then w else Watching(Watch(w, ops[0]), ops[1..])
  }

  /** A timer is stored with a deadline earlier than an un-notified report. */
  ghost predicate Lost(w: Watched)
    requires Inv(w.s)
  {
    exists r, a :: r in w.reports && !r.notified && a in w.s.order && !Covers(r, w.s.recs[a].next)
  }

  /** One recurring timer, reported by getNextTimer. */
  function Prelude(now: nat, ms: nat): seq<Op> {
    [DoAdd(1, now, ms, 0, true)] + [DoNext(now)]
  }

  lemma PreludeGives(now: nat, ms: nat)
    requires now + ms < U64
    ensures Inv(Fresh(now).s) && LegalWatch(Fresh(now), Prelude(now, ms))
    ensures
      var w := Watching(Fresh(now), Prelude(now, ms));
      && w.reports == [Report(Some(now + ms), false)] && w.s.previous == now
      && w.s.recs == map[1 := Timer(true, ms, now + ms, Some(0))] && (forall b :: b in w.s.order <==> b == 1)
  {
    var w0 := Fresh(now);
    AddMeans(w0.s, 1, now, ms, 0, true);
    hide Add;
    var add, next := DoAdd(1, now, ms, 0, true), DoNext(now);
    var w1 := Watch(w0, add);
    assert w1.s.order[0] in w1.s.order;
    assert Front(w1.s) == Some(now + ms);
    assert [] + [add] == [add];
    WatchingAppend(w0, [], add);
    WatchingAppend(w0, [add], next);
  }

  lemma {:induction false} WatchingAppend(w: Watched, ops: seq<Op>, op: Op)
    requires Inv(w.s) && LegalWatch(w, ops) && Legal(Watching(w, ops).s, op)
    ensures LegalWatch(w, ops + [op]) && Watching(w, ops + [op]) == Watch(Watching(w, ops), op)
    decreases |ops|
  {
    hide Watch, Legal, Inv;
    if ops == [] {
      assert [] + [op] == [op] && [op][1..] == [];
      assert Watching(w, [op]) == Watching(Watch(w, op), []);
    } else {
      assert (ops + [op])[1..] == ops[1..] + [op];
      WatchingAppend(Watch(w, ops[0]), ops[1..], op);
    }
  }

  /** A refresh with the clock set back, one whose deadline overflows, and a
      scan whose stale reading passes for a clock set back each lose a wake-up.
      In the last two runs the clock never runs backwards. */
  lemma WakeUpsLost()
    ensures
      var clockBack := Prelude(50, 100) + [DoRefresh(1, 10)];
      LegalWatch(Fresh(50), clockBack) && Lost(Watching(Fresh(50), clockBack))
    ensures
      var overflow := Prelude(0, U64 - 50) + [DoRefresh(1, 100)];
      LegalWatch(Fresh(0), overflow) && Lost(Watching(Fresh(0), overflow))
    ensures
      var stale := Prelude(2 * HOUR, 100) + [DoExpire(0, 2)];
      LegalWatch(Fresh(2 * HOUR), stale) && Lost(Watching(Fresh(2 * HOUR), stale))
  {
    hide LegalWatch, Watching;
    RefreshLoses(50, 100, 10);
    RefreshLoses(0, U64 - 50, 100);
    ScanLoses(2 * HOUR, 100, 0);
  }

  lemma RefreshLoses(now: nat, ms: nat, at: nat)
    requires now + ms < U64 && Plus(at, ms) < now + ms
    ensures
      var ops := Prelude(now, ms) + [DoRefresh(1, at)];
      LegalWatch(Fresh(now), ops) && Lost(Watching(Fresh(now), ops))
  {
    PreludeGives(now, ms);
    hide LegalWatch, Watching, Prelude;
    var w := Watching(Fresh(now), Prelude(now, ms));
    RefreshMeans(w.s, 1, at);
    hide Refresh, Plus;
    var op := DoRefresh(1, at);
    WatchingAppend(Fresh(now), Prelude(now, ms), op);
    var v := Watch(w, op);
    assert w.reports[0] in v.reports && 1 in v.s.order && !Covers(w.reports[0], v.s.recs[1].next);
  }

  lemma ScanMoves(s: State, at: nat, ms: nat)
    requires Inv(s) && 1 in s.order && Rollover(s.previous, at) && at + ms < U64
    requires s.recs[1].recurring && s.recs[1].ms == ms
    ensures
      var (t, out) := ListExpired(s, at, 2);
      !out.front && 1 in t.order && 1 in t.recs && t.recs[1].next == at + ms
  {
    ListExpiredExactly(s, at, 2);
    ExpireQuiet(s, at, 2);
    hide ListExpired, Rollover, Sorted;
  }

  lemma ScanLoses(now: nat, ms: nat, at: nat)
    requires now + ms < U64 && Rollover(now, at) && at < now
    ensures
      var ops := Prelude(now, ms) + [DoExpire(at, 2)];
      LegalWatch(Fresh(now), ops) && Lost(Watching(Fresh(now), ops))
  {
    PreludeGives(now, ms);
    hide LegalWatch, Watching, Prelude;
    var w := Watching(Fresh(now), Prelude(now, ms));
    WatchingAppend(Fresh(now), Prelude(now, ms), DoExpire(at, 2));
    LostByScan(w, at, ms);
  }

  lemma LostByScan(w: Watched, at: nat, ms: nat)
    requires Inv(w.s) && 1 in w.s.order && Rollover(w.s.previous, at) && at + ms < U64
    requires w.s.recs[1].recurring && w.s.recs[1].ms == ms
    requires w.reports != [] && !w.reports[0].notified && !Covers(w.reports[0], at + ms)
    ensures Lost(Watch(w, DoExpire(at, 2)))
  {
    hide ListExpired, Rollover, Sorted, Plus, Sound;
    ScanMoves(w.s, at, ms);
    var v := Watch(w, DoExpire(at, 2));
    assert w.reports[0] in v.reports && 1 in v.s.order && !Covers(w.reports[0], v.s.recs[1].next);
  }

  /** getNextTimer tells the caller to sleep until the deadline it saw, or not
      at all when that has passed. */
  lemma SleepUntilFront(s: State, now: nat)
    requires Inv(s) && now < U64
    ensures
      var (_, sleep) := NextTimer(s, now);
      match Front(s)
      case None => sleep == U64 - 1
      case Some(next) => if next <= now then sleep == 0 else now + sleep == next
  {
  }
}
