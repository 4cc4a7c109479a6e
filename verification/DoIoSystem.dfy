/** A call of do_io inside the whole system: its registration is a slot of the
    event registry, its timers are timers of the timer manager, and everyone
    else uses both at the same time. */
module DoIoSystem {

  import opened Basics
  import opened EventSlots
  import E = EventRegistry
  import R = EventRuns
  import T = Timers
  import TR = TimerRuns
  import P = DoIo

  /** The fiber that calls, and the descriptor and event it calls for. */
  datatype Who = Who(me: nat, key: R.Key)

  /** limit is the time limit in milliseconds. mine has the timer of each
      attempt; handed are all timers that scans have handed out; the callbacks
      of the attempts in begun have been started, and those in marking stand
      between setting tinfo->cancelled and cancelEvent. resumed counts how often
      the fiber has gone on after a suspension. */
  datatype System = System(
    phase: P.Phase,
    limit: Option<nat>,
    cancelled: bool,
    suspended: nat,
    resumed: nat,
    events: E.State,
    timers: T.State,
    mine: seq<Option<T.Id>>,
    handed: set<T.Id>,
    begun: set<nat>,
    marking: set<nat>)

  datatype Act =
    | DoAgain(id: T.Id, now: nat)
    | DoComplete
    | DoRegister(sched: nat, ok: bool)
    | DoResume
    | DoScan(now: nat, probe: T.Id)
    | DoRunCallback(i: nat)
    | DoCancelEvent(i: nat, ok: bool)
    | Other(op: R.Op)
    | OtherTimer(top: TR.Op)

  // --------------------------------------------------------- what a state means

  predicate IsOn(c: System, who: Who) {
    SlotAt(c.events, who.key).on
  }

  function Woken(c: System, who: Who): nat {
    Count(c.events.scheduled, who.me)
  }

  function ClockOf(c: System, i: nat): P.Clock
    requires i < |c.mine|
  {
    match c.mine[i]
    case None => P.NoTimer
    case Some(id) =>
      if i in c.marking then P.Marking
      else if i in c.begun then P.Ran
      else if id in c.handed then P.HandedOut
      else if id in c.timers.order then P.Pending
      else P.Stopped
  }

  function Clocks(c: System): (ts: seq<P.Clock>)
    ensures |ts| == |c.mine| && forall i :: 0 <= i < |ts| ==> ts[i] == ClockOf(c, i)
  {
    seq(|c.mine|, i requires 0 <= i < |c.mine| => ClockOf(c, i))
  }

  /** The call as the protocol sees it. */
  function Abs(c: System, who: Who): P.Call {
    P.Call(if c.phase.Waiting? && !IsOn(c, who) then P.Queued else c.phase, c.limit.Some?, Clocks(c), c.cancelled,
           IsOn(c, who), c.suspended, Woken(c, who))
  }

  /** An attempt's timer is a known one-shot timer of its own. */
  ghost predicate TimerOk(c: System, i: nat)
    requires i < |c.mine|
  {
    && (c.mine[i].Some? <==> c.limit.Some?)
    && (c.mine[i].Some? ==>
          var id := c.mine[i].value;
          && id in c.timers.recs && !c.timers.recs[id].recurring
          && (id in c.handed ==> c.timers.recs[id].cb.None?)
          && (forall j :: 0 <= j < |c.mine| && j != i ==> c.mine[j] != Some(id)))
    && (i in c.begun ==> c.mine[i].Some? && c.mine[i].value in c.handed)
  }

  ghost predicate Mine(c: System) {
    && T.Inv(c.timers) && c.handed <= c.timers.recs.Keys
    && (forall i :: 0 <= i < |c.mine| ==> TimerOk(c, i))
    && (forall i :: i in c.begun ==> i < |c.mine|) && c.marking <= c.begun
  }

  /** The fiber waits in its slot and in no other; while it waits, either its bit
      is set or it has been queued once more than it has gone on, and otherwise
      neither. */
  ghost predicate Slots(c: System, who: Who) {
    && E.Inv(c.events) && OnlyAt(c.events, who.key, who.me)
    && (IsOn(c, who) ==> Holds(SlotAt(c.events, who.key), who.me))
    && !c.phase.Queued?
    && (if c.phase.Waiting? then Woken(c, who) == c.resumed + (if IsOn(c, who) then 0 else 1)
        else Woken(c, who) == c.resumed && !IsOn(c, who))
  }

  ghost predicate Inv(c: System, who: Who) {
    Mine(c) && Slots(c, who) && P.Inv(Abs(c, who))
  }

  // ------------------------------------------------------------------- the steps

  predicate IsMine(c: System, id: T.Id) {
    Some(id) in c.mine
  }

  ghost predicate Enabled(c: System, act: Act, who: Who)
    requires Inv(c, who)
  {
    match act
    case DoAgain(id, _) => c.phase.Trying? && id !in c.timers.recs
    case DoComplete => c.phase.Trying?
    case DoRegister(_, _) => c.phase.Armed?
    case DoResume => c.phase.Waiting? && Woken(c, who) > c.resumed
    case DoScan(_, _) => true
    case DoRunCallback(i) => i < |c.mine| && c.mine[i].Some? && c.mine[i].value in c.handed && i !in c.begun
    case DoCancelEvent(i, _) => i in c.marking
    case Other(op) => Elsewhere(op, who.key, who.me) && !R.Perform(c.events, op).1.Aborted?
    case OtherTimer(top) =>
      && TR.Legal(c.timers, top) && !top.DoExpire?
      && (top.DoCancel? || top.DoRefresh? || top.DoReset? ==> !IsMine(c, top.a))
  }

  /** timer->cancel() on the timer of the current attempt. */
  ghost function StopTimer(c: System): System
    requires Mine(c)
  {
    if c.mine == [] || c.mine[|c.mine| - 1].None? then c
    else
      assert TimerOk(c, |c.mine| - 1);
      c.(timers := T.Cancel(c.timers, c.mine[|c.mine| - 1].value).0)
  }

  ghost function Again(c: System, id: T.Id, now: nat): System
    requires Mine(c) && id !in c.timers.recs
  {
    if c.limit.None? then c.(phase := P.Armed, mine := c.mine + [None])
    else c.(phase := P.Armed, mine := c.mine + [Some(id)],
            timers := T.Add(c.timers, id, now, c.limit.value, 0, false).0)
  }

  ghost function Registered(c: System, who: Who, sched: nat, ok: bool): System
    requires Mine(c) && E.Inv(c.events)
  {
    var (t, out) := E.AddEvent(c.events, who.key.fd, who.key.event, sched, E.FiberWaiter(who.me), ok);
    if out.Done? then c.(events := t, phase := P.Waiting, suspended := c.suspended + 1)
    else StopTimer(c).(events := t, phase := P.Returned(P.AddFailed))
  }

  ghost function Resumed(c: System): System
    requires Mine(c)
  {
    StopTimer(c).(resumed := c.resumed + 1, phase := if c.cancelled then P.Returned(P.TimedOut) else P.Trying)
  }

  ghost function Scanned(c: System, now: nat, probe: T.Id): System
    requires Mine(c)
  {
    var (t, out) := T.ListExpired(c.timers, now, probe);
    c.(timers := t, handed := c.handed + set a | a in out.fired)
  }

  function Called(c: System, i: nat): System {
    if c.phase.Returned? || c.cancelled then c.(begun := c.begun + {i})
    else c.(begun := c.begun + {i}, marking := c.marking + {i}, cancelled := true)
  }

  ghost function EventCancelled(c: System, who: Who, i: nat, ok: bool): System
    requires E.Inv(c.events)
  {
    c.(marking := c.marking - {i}, events := E.CancelEvent(c.events, who.key.fd, who.key.event, ok).0)
  }

  ghost function Apply(c: System, act: Act, who: Who): System
    requires Inv(c, who) && Enabled(c, act, who)
  {
    match act
    case DoAgain(id, now) => Again(c, id, now)
    case DoComplete => c.(phase := P.Returned(P.Value))
    case DoRegister(sched, ok) => Registered(c, who, sched, ok)
    case DoResume => Resumed(c)
    case DoScan(now, probe) => Scanned(c, now, probe)
    case DoRunCallback(i) => Called(c, i)
    case DoCancelEvent(i, ok) => EventCancelled(c, who, i, ok)
    case Other(op) => c.(events := R.Perform(c.events, op).0)
    case OtherTimer(top) => c.(timers := TR.Apply(c.timers, top).0)
  }

  /** What a scan means for the call: its current timer may be handed out. */
  ghost function ScanStep(c: System, now: nat, probe: T.Id): Option<P.Step>
    requires Mine(c)
  {
    var last := |c.mine| - 1;
    if c.mine != [] && c.mine[last].Some? && c.mine[last].value in T.ListExpired(c.timers, now, probe).1.fired
    then Some(P.Expire(last)) else None
  }

  /** What an operation of others means for it: it may end the registration. */
  ghost function OtherStep(c: System, who: Who, op: R.Op): Option<P.Step>
    requires E.Inv(c.events)
  {
    if IsOn(c, who) && !SlotAt(R.Perform(c.events, op).0, who.key).on then Some(P.Readiness) else None
  }

  /** The step of the protocol that an act amounts to, if it concerns the call. */
  ghost function StepOf(c: System, act: Act, who: Who): Option<P.Step>
    requires Inv(c, who) && Enabled(c, act, who)
  {
    match act
    case DoAgain(_, _) => Some(P.Again)
    case DoComplete => Some(P.Complete)
    case DoRegister(_, ok) => Some(P.Register(ok))
    case DoResume => Some(P.Resume)
    case DoScan(now, probe) => ScanStep(c, now, probe)
    case DoRunCallback(i) => Some(P.RunCallback(i))
    case DoCancelEvent(i, ok) => Some(P.CancelEvent(i, ok))
    case Other(op) => OtherStep(c, who, op)
    case OtherTimer(_) => None
  }

  /** d is a well-formed state that the step leads to. */
  ghost predicate Follows(c: System, d: System, who: Who, step: Option<P.Step>) {
    && Mine(d) && Slots(d, who)
    && (match step
        case None => Abs(d, who) == Abs(c, who)
        case Some(st) => P.Enabled(Abs(c, who), st) && Abs(d, who) == P.Apply(Abs(c, who), st))
  }

  // ------------------------------------------------------------ the timer side

  lemma SameClocks(c: System, d: System)
    requires |d.mine| == |c.mine| && forall i :: 0 <= i < |c.mine| ==> ClockOf(d, i) == ClockOf(c, i)
    ensures Clocks(d) == Clocks(c)
  {
    hide ClockOf;
  }

  /** The event side and the bookkeeping of the call stay as they are. */
  ghost predicate SameCall(c: System, d: System) {
    d.events == c.events && d.limit == c.limit && d.suspended == c.suspended && d.resumed == c.resumed
  }

  /** A change on the timer side that keeps the phase. */
  lemma TimerSide(c: System, d: System, who: Who)
    requires Slots(c, who) && SameCall(c, d) && d.phase == c.phase
    ensures Slots(d, who)
    ensures Abs(d, who) == Abs(c, who).(timers := Clocks(d), cancelled := d.cancelled)
  {
    hide E.Inv, Count, Clocks, OnlyAt;
  }

  /** Timers of others come and go. */
  lemma OtherTimerFollows(c: System, who: Who, top: TR.Op)
    requires Mine(c) && Slots(c, who) && TR.Legal(c.timers, top) && !top.DoExpire?
    requires top.DoCancel? || top.DoRefresh? || top.DoReset? ==> !IsMine(c, top.a)
    ensures Follows(c, c.(timers := TR.Apply(c.timers, top).0), who, None)
  {
    var d := c.(timers := TR.Apply(c.timers, top).0);
    OtherTimerKeeps(c, top);
    hide TR.Apply, Slots, Mine, ClockOf;
    TimerSide(c, d, who);
    SameClocks(c, d);
    hide Clocks;
  }

  lemma OtherTimerKeeps(c: System, top: TR.Op)
    requires Mine(c) && TR.Legal(c.timers, top) && !top.DoExpire?
    requires top.DoCancel? || top.DoRefresh? || top.DoReset? ==> !IsMine(c, top.a)
    ensures
      var d := c.(timers := TR.Apply(c.timers, top).0);
      Mine(d) && forall i :: 0 <= i < |c.mine| ==> ClockOf(d, i) == ClockOf(c, i)
  {
    TimersKept(c.timers, top);
    hide TR.Apply, T.Inv;
    var d := c.(timers := TR.Apply(c.timers, top).0);
    forall i | 0 <= i < |c.mine|
      ensures TimerOk(d, i) && ClockOf(d, i) == ClockOf(c, i)
    {
      assert TimerOk(c, i);
      if c.mine[i].Some? {
        assert IsMine(c, c.mine[i].value);
        TimerKept(c.timers, top, c.mine[i].value);
      }
    }
  }

  lemma TimersKept(s: T.State, top: TR.Op)
    requires T.Inv(s) && TR.Legal(s, top) && !top.DoExpire?
    ensures s.recs.Keys <= TR.Apply(s, top).0.recs.Keys
  {
    hide T.Insert, T.Erase, T.Sorted, T.Known;
  }

  /** A call on another timer does not touch timer id. */
  lemma TimerKept(s: T.State, top: TR.Op, id: T.Id)
    requires T.Inv(s) && TR.Legal(s, top) && !top.DoExpire? && id in s.recs
    requires top.DoCancel? || top.DoRefresh? || top.DoReset? ==> top.a != id
    ensures
      var t := TR.Apply(s, top).0;
      id in t.recs && t.recs[id] == s.recs[id] && (id in t.order <==> id in s.order)
  {
    match top
    case DoAdd(a, at, ms, cb, recurring) => T.AddMeans(s, a, at, ms, cb, recurring); hide T.Add, T.Inv;
    case DoCancel(a) => T.CancelMeans(s, a); hide T.Cancel, T.Inv;
    case DoRefresh(a, at) => T.RefreshMeans(s, a, at); hide T.Refresh, T.Inv;
    case DoReset(a, at, ms, fromNow) => T.ResetMeans(s, a, at, ms, fromNow); hide T.Reset, T.Inv;
    case DoNext(_) =>
  }

  /** Stopping the current timer: a pending one will not be handed out. */
  lemma StopGives(c: System)
    requires Mine(c) && c.mine != []
    ensures
      var k := |c.mine| - 1;
      var d := StopTimer(c);
      && d == c.(timers := d.timers) && Mine(d)
      && Clocks(d) == (if ClockOf(c, k).Pending? then Clocks(c)[k := P.Stopped] else Clocks(c))
  {
    var k := |c.mine| - 1;
    assert TimerOk(c, k);
    if c.mine[k].Some? {
      var id := c.mine[k].value;
      T.CancelMeans(c.timers, id);
      hide T.Cancel, T.Sorted;
      var d := StopTimer(c);
      forall i | 0 <= i < |c.mine|
        ensures TimerOk(d, i)
        ensures ClockOf(d, i) == if i == k && ClockOf(c, k).Pending? then P.Stopped else ClockOf(c, i)
      {
        assert TimerOk(c, i);
      }
    }
  }

  lemma AgainUnlimited(c: System)
    requires Mine(c) && c.limit.None?
    ensures
      var d := c.(phase := P.Armed, mine := c.mine + [None]);
      Mine(d) && Clocks(d) == Clocks(c) + [P.NoTimer]
  {
    hide T.Inv;
    var d := c.(phase := P.Armed, mine := c.mine + [None]);
    forall i | 0 <= i < |d.mine|
      ensures TimerOk(d, i) && ClockOf(d, i) == if i < |c.mine| then ClockOf(c, i) else P.NoTimer
    {
      assert i < |c.mine| ==> TimerOk(c, i);
    }
  }

  lemma AgainLimited(c: System, id: T.Id, t: T.State, rec: T.Timer)
    requires Mine(c) && c.limit.Some? && id !in c.timers.recs && !rec.recurring
    requires T.Inv(t) && t.recs == c.timers.recs[id := rec]
    requires forall b :: b in t.order <==> b in c.timers.order || b == id
    ensures
      var d := c.(phase := P.Armed, mine := c.mine + [Some(id)], timers := t);
      Mine(d) && Clocks(d) == Clocks(c) + [P.Pending]
  {
    hide T.Inv;
    var d := c.(phase := P.Armed, mine := c.mine + [Some(id)], timers := t);
    forall j | 0 <= j < |c.mine|
      ensures c.mine[j] != Some(id)
    {
      assert TimerOk(c, j);
    }
    forall i | 0 <= i < |d.mine|
      ensures TimerOk(d, i) && ClockOf(d, i) == if i < |c.mine| then ClockOf(c, i) else P.Pending
    {
      assert i < |c.mine| ==> TimerOk(c, i);
    }
  }

  lemma AgainGives(c: System, id: T.Id, now: nat)
    requires Mine(c) && id !in c.timers.recs
    ensures
      var d := Again(c, id, now);
      && d == c.(phase := P.Armed, mine := d.mine, timers := d.timers) && Mine(d)
      && Clocks(d) == Clocks(c) + [if c.limit.Some? then P.Pending else P.NoTimer]
  {
    if c.limit.Some? {
      T.AddMeans(c.timers, id, now, c.limit.value, 0, false);
      hide T.Add, T.Inv, TimerOk, ClockOf, T.Plus;
      AgainLimited(c, id, T.Add(c.timers, id, now, c.limit.value, 0, false).0,
                   T.Timer(false, c.limit.value, T.Plus(now, c.limit.value), Some(0)));
    } else {
      hide T.Inv, TimerOk, ClockOf;
      AgainUnlimited(c);
    }
  }

  lemma AgainFollows(c: System, who: Who, id: T.Id, now: nat)
    requires Mine(c) && Slots(c, who) && id !in c.timers.recs && c.phase.Trying?
    ensures Follows(c, Again(c, id, now), who, Some(P.Again))
  {
    AgainGives(c, id, now);
    hide Again, E.Inv, Count, Mine, ClockOf, Clocks, OnlyAt;
  }

  lemma CompleteFollows(c: System, who: Who)
    requires Mine(c) && Slots(c, who) && c.phase.Trying?
    ensures Follows(c, c.(phase := P.Returned(P.Value)), who, Some(P.Complete))
  {
    hide E.Inv, Count, T.Inv, OnlyAt;
    var d := c.(phase := P.Returned(P.Value));
    forall i | 0 <= i < |c.mine|
      ensures TimerOk(d, i) && ClockOf(d, i) == ClockOf(c, i)
    {
      assert TimerOk(c, i);
    }
    SameClocks(c, d);
  }

  /** A scan by anyone: of the call's timers only the current one can be due. */
  lemma ScanFollows(c: System, who: Who, now: nat, probe: T.Id)
    requires Inv(c, who)
    ensures Follows(c, Scanned(c, now, probe), who, ScanStep(c, now, probe))
  {
    hide T.ListExpired, Mine, Slots, P.Inv, Clocks, ClockOf, P.Apply, P.Enabled, Abs;
    PendingIsLast(c, who);
    ScanGives(c, now, probe);
    var d := Scanned(c, now, probe);
    TimerSide(c, d, who);
    AbsParts(c, who);
    if ScanStep(c, now, probe).Some? {
      ExpireGives(Abs(c, who), |c.mine| - 1);
    }
  }

  lemma AbsParts(c: System, who: Who)
    ensures Abs(c, who).timers == Clocks(c) && Abs(c, who).cancelled == c.cancelled
  {
  }

  lemma ExpireGives(a: P.Call, i: nat)
    requires i < |a.timers| && a.timers[i].Pending?
    ensures P.Enabled(a, P.Expire(i)) && P.Apply(a, P.Expire(i)) == a.(timers := a.timers[i := P.HandedOut])
  {
  }

  lemma ScanGives(c: System, now: nat, probe: T.Id)
    requires Mine(c) && forall i :: 0 <= i < |c.mine| && ClockOf(c, i).Pending? ==> i == |c.mine| - 1
    ensures
      var d := Scanned(c, now, probe);
      var last := |c.mine| - 1;
      && Mine(d)
      && (ScanStep(c, now, probe).None? ==> Clocks(d) == Clocks(c))
      && (ScanStep(c, now, probe).Some? ==>
            && last >= 0 && ScanStep(c, now, probe) == Some(P.Expire(last))
            && Clocks(c)[last].Pending? && Clocks(d) == Clocks(c)[last := P.HandedOut])
  {
    ScanClocks(c, now, probe);
    ScanStepMeans(c, now, probe);
    hide Mine, ClockOf, Scanned, OneFired, ScanStep;
    var d, last := Scanned(c, now, probe), |c.mine| - 1;
    if ScanStep(c, now, probe).None? {
      SameClocks(c, d);
    } else {
      assert Clocks(d) == Clocks(c)[last := P.HandedOut];
    }
  }

  lemma ScanStepMeans(c: System, now: nat, probe: T.Id)
    requires Mine(c)
    ensures
      var last := |c.mine| - 1;
      if c.mine != [] && OneFired(c, now, probe, last) then ScanStep(c, now, probe) == Some(P.Expire(last))
      else ScanStep(c, now, probe) == None
  {
    hide T.ListExpired, T.Inv, TimerOk;
  }

  lemma PendingIsLast(c: System, who: Who)
    requires P.Inv(Abs(c, who))
    ensures forall i :: 0 <= i < |c.mine| && ClockOf(c, i).Pending? ==> i == |c.mine| - 1
  {
    assert forall i :: 0 <= i < |c.mine| ==> Abs(c, who).timers[i] == ClockOf(c, i);
  }

  lemma ScanClocks(c: System, now: nat, probe: T.Id)
    requires Mine(c) && forall i :: 0 <= i < |c.mine| && ClockOf(c, i).Pending? ==> i == |c.mine| - 1
    ensures
      var d := Scanned(c, now, probe);
      && Mine(d) && d.mine == c.mine
      && (forall i :: 0 <= i < |c.mine| ==>
            if OneFired(c, now, probe, i) then i == |c.mine| - 1 && ClockOf(c, i).Pending? && ClockOf(d, i).HandedOut?
            else ClockOf(d, i) == ClockOf(c, i))
  {
    T.ListExpiredKeeps(c.timers, now, probe);
    T.ListExpiredExactly(c.timers, now, probe);
    var d := Scanned(c, now, probe);
    hide T.ListExpired, T.Sorted, T.Rollover, TimerOk, ClockOf;
    forall i | 0 <= i < |c.mine|
      ensures TimerOk(d, i) && (OneFired(c, now, probe, i) ==> ClockOf(c, i).Pending? && ClockOf(d, i).HandedOut?)
      ensures !OneFired(c, now, probe, i) ==> ClockOf(d, i) == ClockOf(c, i)
    {
      ScanOne(c, now, probe, i);
    }
  }

  ghost predicate OneFired(c: System, now: nat, probe: T.Id, i: nat)
    requires Mine(c) && i < |c.mine|
  {
    c.mine[i].Some? && c.mine[i].value in T.ListExpired(c.timers, now, probe).1.fired
  }

  lemma ScanOne(c: System, now: nat, probe: T.Id, i: nat)
    requires Mine(c) && i < |c.mine|
    ensures
      var d := Scanned(c, now, probe);
      && TimerOk(d, i)
      && (OneFired(c, now, probe, i) ==> ClockOf(c, i).Pending? && ClockOf(d, i).HandedOut?)
      && (!OneFired(c, now, probe, i) ==> ClockOf(d, i) == ClockOf(c, i))
  {
    T.ListExpiredExactly(c.timers, now, probe);
    assert TimerOk(c, i);
    hide T.ListExpired, T.Sorted, T.Rollover;
  }

  lemma CalledClocks(c: System, i: nat)
    requires Mine(c) && i < |c.mine| && c.mine[i].Some? && c.mine[i].value in c.handed && i !in c.begun
    ensures
      var d := Called(c, i);
      && Mine(d) && ClockOf(c, i).HandedOut?
      && Clocks(d) == Clocks(c)[i := if c.phase.Returned? || c.cancelled then P.Ran else P.Marking]
  {
    hide T.Inv;
    var d := Called(c, i);
    var now := if c.phase.Returned? || c.cancelled then P.Ran else P.Marking;
    forall j | 0 <= j < |c.mine|
      ensures TimerOk(d, j) && ClockOf(d, j) == if j == i then now else ClockOf(c, j)
    {
      assert TimerOk(c, j);
    }
  }

  lemma RunCallbackFollows(c: System, who: Who, i: nat)
    requires Mine(c) && Slots(c, who)
    requires i < |c.mine| && c.mine[i].Some? && c.mine[i].value in c.handed && i !in c.begun
    ensures Follows(c, Called(c, i), who, Some(P.RunCallback(i)))
  {
    CalledClocks(c, i);
    hide Mine, Slots;
    TimerSide(c, Called(c, i), who);
    assert Clocks(c)[i] == ClockOf(c, i);
    hide Clocks, ClockOf;
  }

  // ------------------------------------------------------------ the event side

  lemma MineFrame(c: System, d: System)
    requires Mine(c) && d.limit == c.limit && d.timers == c.timers && d.mine == c.mine
    requires d.handed == c.handed && d.begun == c.begun && d.marking == c.marking
    ensures Mine(d) && Clocks(d) == Clocks(c)
  {
    hide T.Inv;
    forall i | 0 <= i < |c.mine|
      ensures TimerOk(d, i) && ClockOf(d, i) == ClockOf(c, i)
    {
      assert TimerOk(c, i);
    }
  }

  /** Whatever happens to the registry, the call sees either nothing or the end
      of its registration. */
  lemma EventSide(c: System, t: E.State, who: Who)
    requires Slots(c, who) && E.Inv(t)
    requires Bystander(c.events, t, who.key, who.me) || Ended(c.events, t, who.key, who.me)
    ensures
      var d := c.(events := t);
      && Slots(d, who)
      && (IsOn(d, who) <==> IsOn(c, who) && Bystander(c.events, t, who.key, who.me))
      && Abs(d, who).timers == Clocks(d)
      && Abs(d, who) ==
         (if IsOn(c, who) && !IsOn(d, who) then P.Wake(Abs(c, who)) else Abs(c, who)).(timers := Clocks(d))
  {
    hide E.Inv, Count, Clocks, OnlyAt;
  }

  lemma OtherFollows(c: System, who: Who, op: R.Op)
    requires Mine(c) && Slots(c, who) && Elsewhere(op, who.key, who.me)
    ensures Follows(c, c.(events := R.Perform(c.events, op).0), who, OtherStep(c, who, op))
  {
    OthersEffect(c.events, op, who.key, who.me);
    hide R.Perform, Bystander, Ended, E.Inv, Count, Clocks, P.Apply, P.Enabled, Abs, Mine;
    var d := c.(events := R.Perform(c.events, op).0);
    EventSide(c, R.Perform(c.events, op).0, who);
    MineFrame(c, d);
    AbsParts(c, who);
    if OtherStep(c, who, op).Some? {
      ReadinessGives(c, who);
    }
  }

  lemma ReadinessGives(c: System, who: Who)
    requires IsOn(c, who)
    ensures P.Enabled(Abs(c, who), P.Readiness)
    ensures P.Apply(Abs(c, who), P.Readiness) == P.Wake(Abs(c, who))
  {
  }

  lemma MarkedClocks(c: System, i: nat)
    requires Mine(c) && i in c.marking
    ensures
      var d := c.(marking := c.marking - {i});
      i < |c.mine| && Mine(d) && ClockOf(c, i).Marking? && Clocks(d) == Clocks(c)[i := P.Ran]
  {
    hide T.Inv;
    var d := c.(marking := c.marking - {i});
    assert TimerOk(c, i);
    forall j | 0 <= j < |c.mine|
      ensures TimerOk(d, j) && ClockOf(d, j) == if j == i then P.Ran else ClockOf(c, j)
    {
      assert TimerOk(c, j);
    }
  }

  lemma CancelEventFollows(c: System, who: Who, i: nat, ok: bool)
    requires Mine(c) && Slots(c, who) && i in c.marking
    ensures Follows(c, EventCancelled(c, who, i, ok), who, Some(P.CancelEvent(i, ok)))
  {
    var m := c.(marking := c.marking - {i});
    var t := E.CancelEvent(c.events, who.key.fd, who.key.event, ok).0;
    MarkedClocks(c, i);
    CancelSlots(c.events, who.key.fd, who.key.event, ok, who.key, who.me);
    assert Clocks(c)[i] == ClockOf(c, i);
    assert IsOn(c, who) && ok ==> Ended(c.events, t, who.key, who.me);
    assert !(IsOn(c, who) && ok) ==> Bystander(c.events, t, who.key, who.me);
    hide E.CancelEvent, E.Inv, Count, Clocks, ClockOf, P.Apply, P.Enabled, Abs, Mine;
    TimerSide(c, m, who);
    EventSide(m, t, who);
    MineFrame(m, m.(events := t));
    AbsParts(c, who);
    CancelEventGives(Abs(c, who), i, ok);
    AbsOn(c, who);
    assert EventCancelled(c, who, i, ok) == m.(events := t);
  }

  lemma AbsOn(c: System, who: Who)
    ensures Abs(c, who).registered == IsOn(c, who)
  {
  }

  lemma CancelEventGives(a: P.Call, i: nat, ok: bool)
    requires i < |a.timers| && a.timers[i].Marking?
    ensures
      var b := a.(timers := a.timers[i := P.Ran]);
      P.Enabled(a, P.CancelEvent(i, ok)) &&
      P.Apply(a, P.CancelEvent(i, ok)) == if a.registered && ok then P.Wake(b) else b
  {
  }

  // ------------------------------------------------ the steps of the call itself

  /** addEvent on a free slot fails exactly when the kernel refuses. */
  lemma RegisterSlots(s: E.State, who: Who, sched: nat, ok: bool)
    requires E.Inv(s) && OnlyAt(s, who.key, who.me) && !SlotAt(s, who.key).on
    ensures
      var (t, out) := E.AddEvent(s, who.key.fd, who.key.event, sched, E.FiberWaiter(who.me), ok);
      && E.Inv(t) && OnlyAt(t, who.key, who.me) && (out.Done? <==> ok) && !out.Aborted?
      && t.scheduled == s.scheduled
      && (if ok then SlotAt(t, who.key).on && Holds(SlotAt(t, who.key), who.me) else !SlotAt(t, who.key).on)
  {
    var fd, e, w := who.key.fd, who.key.event, E.FiberWaiter(who.me);
    E.AddEventKeeps(s, fd, e, sched, w, ok);
    AddSlots(s, fd, e, sched, w, ok, who.key);
    var t := E.AddEvent(s, fd, e, sched, w, ok).0;
    forall j: R.Key | j != who.key
      ensures SlotAt(t, j) == SlotAt(s, j)
    {
      AddSlots(s, fd, e, sched, w, ok, j);
    }
    hide E.AddEvent, E.Inv;
  }

  lemma HasTimers(c: System, who: Who)
    requires P.Inv(Abs(c, who)) && (c.phase.Armed? || c.phase.Waiting?)
    ensures c.mine != []
  {
  }

  lemma RegisterDone(c: System, t: E.State, who: Who)
    requires Slots(c, who) && c.phase.Armed? && c.mine != [] && E.Inv(t) && OnlyAt(t, who.key, who.me)
    requires t.scheduled == c.events.scheduled && SlotAt(t, who.key).on && Holds(SlotAt(t, who.key), who.me)
    ensures
      var d := c.(events := t, phase := P.Waiting, suspended := c.suspended + 1);
      && Slots(d, who) && P.Enabled(Abs(c, who), P.Register(true))
      && (Clocks(d) == Clocks(c) ==> Abs(d, who) == P.Apply(Abs(c, who), P.Register(true)))
  {
    hide E.Inv, Count, OnlyAt, ClockOf;
    assert |Clocks(c)| > 0;
    hide Clocks;
  }

  /** What timer->cancel() is in the protocol. */
  lemma StopAbs(c: System, who: Who)
    requires c.mine != []
    ensures
      var k := |c.mine| - 1;
      && Abs(c, who).timers != []
      && P.StopTimer(Abs(c, who)).timers ==
         (if ClockOf(c, k).Pending? then Clocks(c)[k := P.Stopped] else Clocks(c))
  {
    assert Clocks(c)[|c.mine| - 1] == ClockOf(c, |c.mine| - 1);
  }

  lemma RegisterRefused(c: System, d: System, who: Who)
    requires Slots(c, who) && c.phase.Armed? && c.mine != []
    requires E.Inv(d.events) && OnlyAt(d.events, who.key, who.me)
    requires d.events.scheduled == c.events.scheduled && !SlotAt(d.events, who.key).on
    requires d == c.(events := d.events, timers := d.timers, phase := P.Returned(P.AddFailed))
    requires Clocks(d) == P.StopTimer(Abs(c, who)).timers
    ensures
      && Slots(d, who) && P.Enabled(Abs(c, who), P.Register(false))
      && Abs(d, who) == P.Apply(Abs(c, who), P.Register(false))
  {
    hide E.Inv, Count, OnlyAt, ClockOf, Clocks;
  }

  lemma FreeSlot(c: System, who: Who)
    requires Slots(c, who) && c.phase.Armed?
    ensures E.Inv(c.events) && OnlyAt(c.events, who.key, who.me) && !SlotAt(c.events, who.key).on
  {
  }

  lemma RegisterOk(c: System, who: Who, t: E.State)
    requires Mine(c) && Slots(c, who) && c.phase.Armed? && c.mine != [] && E.Inv(t) && OnlyAt(t, who.key, who.me)
    requires t.scheduled == c.events.scheduled && SlotAt(t, who.key).on && Holds(SlotAt(t, who.key), who.me)
    ensures Follows(c, c.(events := t, phase := P.Waiting, suspended := c.suspended + 1), who, Some(P.Register(true)))
  {
    hide E.Inv, Clocks, P.Apply, P.Enabled, Abs, Mine, Slots, OnlyAt;
    MineFrame(c, c.(events := t, phase := P.Waiting, suspended := c.suspended + 1));
    RegisterDone(c, t, who);
  }

  lemma RegisterFails(c: System, who: Who, t: E.State)
    requires Mine(c) && Slots(c, who) && c.phase.Armed? && c.mine != [] && E.Inv(t) && OnlyAt(t, who.key, who.me)
    requires t.scheduled == c.events.scheduled && !SlotAt(t, who.key).on
    ensures Follows(c, StopTimer(c).(events := t, phase := P.Returned(P.AddFailed)), who, Some(P.Register(false)))
  {
    hide E.Inv, Clocks, P.Apply, P.Enabled, Abs, Mine, Slots, OnlyAt, StopTimer, P.StopTimer;
    StopForGood(c, t, who);
    RegisterRefused(c, StopTimer(c).(events := t, phase := P.Returned(P.AddFailed)), who);
  }

  lemma RegisterFollows(c: System, who: Who, sched: nat, ok: bool)
    requires Inv(c, who) && c.phase.Armed?
    ensures Follows(c, Registered(c, who, sched, ok), who, Some(P.Register(ok)))
  {
    var t := E.AddEvent(c.events, who.key.fd, who.key.event, sched, E.FiberWaiter(who.me), ok).0;
    FreeSlot(c, who);
    hide P.Inv, E.Inv, Mine, Slots, E.AddEvent, StopTimer, OnlyAt, Follows, Abs;
    HasTimers(c, who);
    RegisterSlots(c.events, who, sched, ok);
    if ok {
      RegisterOk(c, who, t);
    } else {
      RegisterFails(c, who, t);
    }
  }

  lemma StopForGood(c: System, t: E.State, who: Who)
    requires Mine(c) && c.mine != []
    ensures
      var d := StopTimer(c).(events := t, phase := P.Returned(P.AddFailed));
      && d == c.(events := t, timers := d.timers, phase := P.Returned(P.AddFailed)) && Mine(d)
      && Clocks(d) == P.StopTimer(Abs(c, who)).timers
  {
    hide Mine, Clocks, ClockOf, Abs, StopTimer, P.StopTimer;
    StopGives(c);
    StopAbs(c, who);
    MineFrame(StopTimer(c), StopTimer(c).(events := t, phase := P.Returned(P.AddFailed)));
  }

  lemma ResumeGives(c: System, d: System, who: Who)
    requires Slots(c, who) && c.phase.Waiting? && Woken(c, who) > c.resumed && c.mine != []
    requires d == c.(timers := d.timers, resumed := c.resumed + 1,
                     phase := if c.cancelled then P.Returned(P.TimedOut) else P.Trying)
    requires Clocks(d) == P.StopTimer(Abs(c, who)).timers
    ensures
      && Slots(d, who) && P.Enabled(Abs(c, who), P.Resume)
      && Abs(d, who) == P.Apply(Abs(c, who), P.Resume)
  {
    hide E.Inv, Count, OnlyAt, ClockOf, Clocks;
  }

  lemma ResumeFollows(c: System, who: Who)
    requires Inv(c, who) && c.phase.Waiting? && Woken(c, who) > c.resumed
    ensures Follows(c, Resumed(c), who, Some(P.Resume))
  {
    hide P.Inv, E.Inv, Count, Clocks, ClockOf, P.Apply, P.Enabled, Abs, Mine, Slots, StopTimer, P.StopTimer;
    HasTimers(c, who);
    StopGives(c);
    StopAbs(c, who);
    MineFrame(StopTimer(c), Resumed(c));
    ResumeGives(c, Resumed(c), who);
  }

  // ------------------------------------------------------- the protocol is exact

  /** Everything that can happen in the system keeps it well-formed and is, for
      the call, a step of the protocol or nothing. */
  lemma Simulates(c: System, act: Act, who: Who)
    requires Inv(c, who) && Enabled(c, act, who)
    ensures Follows(c, Apply(c, act, who), who, StepOf(c, act, who)) && Inv(Apply(c, act, who), who)
  {
    hide Follows, Mine, Slots, P.Inv, Abs, Again, Registered, Resumed, Scanned, Called, EventCancelled, R.Perform,
      TR.Apply, ScanStep, OtherStep, T.Inv, E.Inv;
    match act {
    case DoAgain(id, now) => AgainFollows(c, who, id, now);
    case DoComplete => CompleteFollows(c, who);
    case DoRegister(sched, ok) => RegisterFollows(c, who, sched, ok);
    case DoResume => ResumeFollows(c, who);
    case DoScan(now, probe) => ScanFollows(c, who, now, probe);
    case DoRunCallback(i) => RunCallbackFollows(c, who, i);
    case DoCancelEvent(i, ok) => CancelEventFollows(c, who, i, ok);
    case Other(op) => OtherFollows(c, who, op);
    case OtherTimer(top) => OtherTimerFollows(c, who, top);
    }
    FollowsInv(c, Apply(c, act, who), who, StepOf(c, act, who));
  }

  lemma FollowsInv(c: System, d: System, who: Who, step: Option<P.Step>)
    requires P.Inv(Abs(c, who)) && Follows(c, d, who, step)
    ensures Inv(d, who)
  {
    hide P.Inv, Abs, P.Apply, P.Enabled, Mine, Slots;
    if step.Some? {
      P.ApplyKeeps(Abs(c, who), step.value);
    }
  }

  /** Acts of the timers: scans, callbacks and their calls of cancelEvent. */
  predicate TimedAct(act: Act) {
    act.DoScan? || act.DoRunCallback? || act.DoCancelEvent?
  }

  lemma RealizeReadiness(c: System, who: Who) returns (act: Act)
    requires Inv(c, who) && IsOn(c, who)
    ensures act.Other? && Enabled(c, act, who) && StepOf(c, act, who) == Some(P.Readiness)
  {
    act := Other(R.Ready(who.key.fd, E.Only(who.key.event), false, true));
    hide Mine, P.Inv, Count, Clocks;
    var fd, e := who.key.fd, who.key.event;
    DispatchSlots(c.events, fd, E.Only(e), false, true, who.key, who.me);
    hide E.Inv, E.Dispatch, OnlyAt;
  }

  lemma RealizeExpire(c: System, who: Who, i: nat) returns (act: Act)
    requires Inv(c, who) && i < |c.mine| && ClockOf(c, i).Pending?
    ensures act.DoScan? && Enabled(c, act, who) && StepOf(c, act, who) == Some(P.Expire(i))
  {
    PendingIsLast(c, who);
    hide P.Inv, Slots, Clocks, Abs, T.Inv;
    assert TimerOk(c, i);
    var id := c.mine[i].value;
    act := DoScan(c.timers.recs[id].next, 0);
    T.FiredWhenDue(c.timers, id, c.timers.recs[id].next, 0);
    hide T.ListExpired;
  }

  lemma AbsPhases(c: System, who: Who)
    requires Slots(c, who)
    ensures
      var a := Abs(c, who);
      && (a.phase.Trying? ==> c.phase.Trying?) && (a.phase.Armed? ==> c.phase.Armed?)
      && (a.phase.Queued? <==> c.phase.Waiting? && !IsOn(c, who))
      && (a.phase.Queued? ==> Woken(c, who) > c.resumed) && (a.phase.Waiting? <==> IsOn(c, who))
      && (a.registered <==> IsOn(c, who)) && a.timers == Clocks(c)
      && (a.phase.Returned? ==> c.phase == a.phase)
  {
    hide Clocks, Count, E.Inv;
  }

  lemma ClockFacts(c: System, i: nat)
    requires Mine(c) && i < |c.mine|
    ensures ClockOf(c, i).HandedOut? ==> c.mine[i].Some? && c.mine[i].value in c.handed && i !in c.begun
    ensures ClockOf(c, i).Marking? <==> c.mine[i].Some? && i in c.marking
    ensures i in c.marking ==> c.mine[i].Some?
    ensures ClockOf(c, i).Marking? || ClockOf(c, i).Ran? ==> i in c.begun
    ensures ClockOf(c, i).Stopped? ==> c.mine[i].Some? && c.mine[i].value !in c.handed
  {
    hide T.Inv;
    assert TimerOk(c, i);
  }

  /** And every step of the protocol can be brought about in the system. */
  lemma Realizes(c: System, who: Who, st: P.Step) returns (act: Act)
    requires Inv(c, who) && P.Enabled(Abs(c, who), st)
    ensures Enabled(c, act, who) && StepOf(c, act, who) == Some(st)
    ensures (st.Timed() ==> TimedAct(act)) && (st.Again? <==> act.DoAgain?)
  {
    AbsPhases(c, who);
    hide P.Inv, Slots, Mine, Clocks, ClockOf, T.Inv, E.Inv, R.Perform, T.ListExpired, Count;
    match st
    case Again =>
      var id := SomeBound(c.timers.recs.Keys);
      act := DoAgain(id, 0);
    case Complete => act := DoComplete;
    case Register(ok) => act := DoRegister(0, ok);
    case Resume => act := DoResume;
    case Readiness => act := RealizeReadiness(c, who);
    case Expire(i) => act := RealizeExpire(c, who, i);
    case RunCallback(i) =>
      ClockFacts(c, i);
      act := DoRunCallback(i);
    case CancelEvent(i, ok) =>
      ClockFacts(c, i);
      act := DoCancelEvent(i, ok);
  }

  // ------------------------------------------------------------------ whole runs

  ghost predicate Run(c: System, acts: seq<Act>, who: Who)
    requires Inv(c, who)
    decreases |acts|
  {
    acts == [] ||
    (Enabled(c, acts[0], who) && (Simulates(c, acts[0], who); Run(Apply(c, acts[0], who), acts[1..], who)))
  }

  ghost function After(c: System, acts: seq<Act>, who: Who): System
    requires Inv(c, who) && Run(c, acts, who)
    decreases |acts|
  {
    if acts == [] then c
    else
      Simulates(c, acts[0], who);
      After(Apply(c, acts[0], who), acts[1..], who)
  }

  lemma {:induction false} AfterInv(c: System, acts: seq<Act>, who: Who)
    requires Inv(c, who) && Run(c, acts, who)
    ensures Inv(After(c, acts, who), who)
    decreases |acts|
  {
    hide Inv, Apply, Enabled;
    if acts != [] {
      Simulates(c, acts[0], who);
      AfterInv(Apply(c, acts[0], who), acts[1..], who);
    }
  }

  /** A call that begins, the fiber's first or a later one, in any state of the
      registry and the timers in which its fiber waits nowhere and nobody waits
      for its event. The two counters go on from how often the fiber has been
      queued so far. */
  ghost predicate Initial(c: System, who: Who) {
    && c.phase.Trying? && !c.cancelled && c.suspended == c.resumed == Woken(c, who)
    && c.mine == [] && c.begun == {} && c.marking == {}
    && T.Inv(c.timers) && c.handed <= c.timers.recs.Keys
    && E.Inv(c.events) && OnlyAt(c.events, who.key, who.me) && !IsOn(c, who)
  }

  lemma InitialInv(c: System, who: Who)
    requires Initial(c, who)
    ensures Inv(c, who) && P.Fresh(Abs(c, who))
  {
    hide T.Inv, E.Inv, Count, OnlyAt;
  }

  ghost predicate RunFrom(c: System, acts: seq<Act>, who: Who)
    requires Initial(c, who)
  {
    InitialInv(c, who);
    Run(c, acts, who)
  }

  ghost function AfterFrom(c: System, acts: seq<Act>, who: Who): System
    requires Initial(c, who) && RunFrom(c, acts, who)
  {
    InitialInv(c, who);
    After(c, acts, who)
  }

  /** Whatever everyone else does with the registry and the timers, and however
      readiness, the callbacks of all its timers and the call itself interleave,
      its fiber is handed to a scheduler, from the start of the call on, exactly
      once for each registration that has ended, and not at all for one that has
      not; and while the call is not suspended no such entry is left over. */
  lemma QueuedOncePerSuspension(c: System, acts: seq<Act>, who: Who)
    requires Initial(c, who) && RunFrom(c, acts, who)
    ensures
      var d := AfterFrom(c, acts, who);
      var queued := Count(d.events.scheduled, who.me) - Count(c.events.scheduled, who.me);
      && queued == d.suspended - c.suspended - (if SlotAt(d.events, who.key).on then 1 else 0)
      && (SlotAt(d.events, who.key).on ==> Holds(SlotAt(d.events, who.key), who.me) && d.phase.Waiting?)
      && (!d.phase.Waiting? ==> queued == d.resumed - c.resumed == d.suspended - c.suspended)
  {
    InitialInv(c, who);
    AfterInv(c, acts, who);
    assert c.suspended == c.resumed == Woken(c, who);
    hide Mine, Clocks, E.Inv, OnlyAt, Initial, Run, After;
    assert P.Inv(Abs(AfterFrom(c, acts, who), who));
  }

  /** The call fails with a timeout only after a callback of one of its own
      timers, which a scan had handed out, has started. */
  lemma TimeoutNeedsCallback(c: System, acts: seq<Act>, who: Who)
    requires Initial(c, who) && RunFrom(c, acts, who) && AfterFrom(c, acts, who).phase == P.Returned(P.TimedOut)
    ensures
      var d := AfterFrom(c, acts, who);
      exists i :: 0 <= i < |d.mine| && i in d.begun && d.mine[i].Some? && d.mine[i].value in d.handed
  {
    InitialInv(c, who);
    AfterInv(c, acts, who);
    hide Initial, Run, After;
    var d := AfterFrom(c, acts, who);
    assert P.AnyCalled(Clocks(d));
    var i: nat :| i < |Clocks(d)| && P.Called(Clocks(d), i);
    hide Slots, P.Inv;
    ClockFacts(d, i);
    assert TimerOk(d, i);
  }

  lemma LateStep(c: System, act: Act, who: Who)
    requires Inv(c, who) && Enabled(c, act, who) && c.phase.Returned?
    ensures
      var d := Apply(c, act, who);
      d.phase == c.phase && d.cancelled == c.cancelled && d.marking <= c.marking
  {
    hide T.ListExpired, R.Perform, P.Inv, Slots, Mine, E.AddEvent, E.CancelEvent, T.Cancel, TR.Apply;
  }

  /** Once the call has returned, a callback of one of its timers that begins later
      sets no flag and goes on to cancel no event; and the result stays. */
  lemma {:induction false} LateCallbacks(c: System, acts: seq<Act>, who: Who)
    requires Inv(c, who) && Run(c, acts, who) && c.phase.Returned?
    ensures
      var d := After(c, acts, who);
      d.phase == c.phase && d.cancelled == c.cancelled && d.marking <= c.marking
    decreases |acts|
  {
    hide Inv, Apply, Enabled;
    if acts != [] {
      Simulates(c, acts[0], who);
      LateStep(c, acts[0], who);
      LateCallbacks(Apply(c, acts[0], who), acts[1..], who);
    }
  }

  /** Registered, with the flag set and no callback on its way to cancelEvent. */
  predicate Stranded(c: System, who: Who) {
    IsOn(c, who) && c.cancelled && c.marking == {}
  }

  lemma StrandedAbs(c: System, who: Who)
    requires Inv(c, who)
    ensures Stranded(c, who) <==> P.Stranded(Abs(c, who))
  {
    AbsPhases(c, who);
    hide P.Inv, Slots;
    forall i | 0 <= i < |c.mine|
      ensures Clocks(c)[i].Marking? <==> i in c.marking
    {
      ClockFacts(c, i);
    }
    if c.marking != {} {
      var i :| i in c.marking;
      assert i < |c.mine| && Clocks(c)[i].Marking?;
    }
  }

  ghost predicate AllTimed(acts: seq<Act>) {
    forall i :: 0 <= i < |acts| ==> TimedAct(acts[i])
  }

  lemma TimedSteps(c: System, act: Act, who: Who)
    requires Inv(c, who) && Enabled(c, act, who) && TimedAct(act)
    ensures StepOf(c, act, who).Some? ==> StepOf(c, act, who).value.Timed()
  {
    hide T.ListExpired, R.Perform, P.Inv;
  }

  lemma {:induction false} StrandedStays(c: System, acts: seq<Act>, who: Who)
    requires Inv(c, who) && Run(c, acts, who) && AllTimed(acts) && P.Stranded(Abs(c, who))
    ensures P.Stranded(Abs(After(c, acts, who), who))
    decreases |acts|
  {
    if acts != [] {
      var d := Apply(c, acts[0], who);
      assert TimedAct(acts[0]);
      Simulates(c, acts[0], who);
      TimedSteps(c, acts[0], who);
      hide Apply, Enabled, StepOf, Inv, P.Stranded, P.Apply, P.Enabled, Mine, Slots, Abs;
      if StepOf(c, acts[0], who).Some? {
        P.OneStep(Abs(c, who), StepOf(c, acts[0], who).value);
        P.StrandedStays(Abs(c, who), [StepOf(c, acts[0], who).value]);
      }
      StrandedStays(d, acts[1..], who);
    }
  }

  /** Every run of the protocol is a run of the system. */
  lemma {:induction false} RealizeRun(c: System, who: Who, steps: seq<P.Step>) returns (acts: seq<Act>)
    requires Inv(c, who) && P.Run(Abs(c, who), steps)
    ensures Run(c, acts, who) && Abs(After(c, acts, who), who) == P.After(Abs(c, who), steps)
    ensures P.AllTimed(steps) ==> AllTimed(acts)
    ensures |acts| == |steps| && forall i :: 0 <= i < |acts| ==> (acts[i].DoAgain? <==> steps[i].Again?)
    decreases |steps|
  {
    hide Inv, P.Apply, P.Enabled, Apply, Enabled, StepOf, Mine, Slots, Abs;
    if steps == [] {
      acts := [];
    } else {
      var act := Realizes(c, who, steps[0]);
      Simulates(c, act, who);
      var rest := RealizeRun(Apply(c, act, who), who, steps[1..]);
      acts := [act] + rest;
      assert acts[1..] == rest;
      if P.AllTimed(steps) {
        assert steps[0].Timed();
        assert P.AllTimed(steps[1..]);
      }
    }
  }

  /** The timers alone end the suspension. */
  ghost predicate WokenBy(c: System, acts: seq<Act>, who: Who)
    requires Inv(c, who)
  {
    AllTimed(acts) && Run(c, acts, who) && !IsOn(After(c, acts, who), who)
  }

  /** In any state that a call with a time limit can reach, timers alone can
      still end its suspension if and only if it is not stranded. */
  lemma TimeoutStillComes(c: System, who: Who)
    requires Inv(c, who) && c.limit.Some? && IsOn(c, who)
    ensures (exists acts :: WokenBy(c, acts, who)) <==> !Stranded(c, who)
  {
    StrandedAbs(c, who);
    AbsPhases(c, who);
    var a := Abs(c, who);
    assert a.limited;
    P.TimeoutStillComes(a);
    hide Run, After, P.Run, P.After, P.Inv, Mine, Slots, Abs, P.Stranded;
    if Stranded(c, who) {
      forall acts | AllTimed(acts) && Run(c, acts, who)
        ensures IsOn(After(c, acts, who), who)
      {
        StrandedStays(c, acts, who);
        AfterInv(c, acts, who);
        StrandedAbs(After(c, acts, who), who);
      }
    } else {
      var more :| P.WokenBy(a, more);
      var acts := RealizeRun(c, who, more);
      AfterInv(c, acts, who);
      AbsPhases(After(c, acts, who), who);
      assert WokenBy(c, acts, who);
    }
  }

  /** It does happen: the timer is armed before the event is registered, and a
      callback that runs in between leaves the fiber without a time limit. */
  lemma TimeoutLost(c: System, who: Who)
    requires Initial(c, who) && c.limit.Some?
    ensures exists acts :: RunFrom(c, acts, who) && Stranded(AfterFrom(c, acts, who), who)
  {
    InitialInv(c, who);
    assert Abs(c, who).limited;
    P.TimeoutLost(Abs(c, who));
    hide Run, After, P.Run, P.After, Inv, Abs, P.Stranded, Initial;
    var acts := RealizeRun(c, who, P.TooEarly);
    AfterInv(c, acts, who);
    StrandedAbs(After(c, acts, who), who);
    assert RunFrom(c, acts, who) && Stranded(AfterFrom(c, acts, who), who);
  }

  /** The call has failed with a timeout, and no scan has handed out the timer of
      its last attempt. */
  predicate TimedOutEarly(c: System) {
    c.phase == P.Returned(P.TimedOut) && c.mine != [] && Unexpired(c, |c.mine| - 1)
  }

  predicate Unexpired(c: System, n: nat) {
    n < |c.mine| && c.mine[n].Some? && c.mine[n].value !in c.handed
  }

  /** The timeout can come from an earlier attempt. */
  lemma StaleTimeout(c: System, who: Who)
    requires Initial(c, who) && c.limit.Some?
    ensures exists acts :: RunFrom(c, acts, who) && TimedOutEarly(AfterFrom(c, acts, who))
  {
    InitialInv(c, who);
    assert Abs(c, who).limited;
    P.StaleTimeout(Abs(c, who));
    hide Run, After, P.Run, P.After, Inv, Abs, Initial;
    var acts := RealizeRun(c, who, P.FirstWait + P.SecondWait);
    AfterInv(c, acts, who);
    EarlyAbs(After(c, acts, who), who);
    assert RunFrom(c, acts, who) && TimedOutEarly(AfterFrom(c, acts, who));
  }

  lemma EarlyAbs(c: System, who: Who)
    requires Inv(c, who) && Abs(c, who).phase == P.Returned(P.TimedOut) && Abs(c, who).timers == [P.Ran, P.Stopped]
    ensures TimedOutEarly(c)
  {
    AbsPhases(c, who);
    assert ClockOf(c, 1) == Clocks(c)[1] == P.Stopped;
    ClockFacts(c, 1);
  }

  // ------------------------------------------ whose timer ends an attempt, exactly

  /** The flag is set already, or the callback of an earlier attempt has been handed
      out and has not begun. */
  predicate AtRisk(c: System) {
    || c.cancelled
    || exists i :: 0 <= i < |c.mine| && c.mine[i].Some? && c.mine[i].value in c.handed && i !in c.begun
  }

  lemma AtRiskAbs(c: System, who: Who)
    requires Inv(c, who)
    ensures AtRisk(c) <==> P.AtRisk(Abs(c, who))
    ensures AtRisk(c) ==> c.limit.Some?
  {
    hide Slots;
    forall i | 0 <= i < |c.mine|
      ensures Clocks(c)[i].HandedOut? <==> c.mine[i].Some? && c.mine[i].value in c.handed && i !in c.begun
      ensures c.limit.None? ==> c.mine[i].None? && Clocks(c)[i].NoTimer?
    {
      ClockFacts(c, i);
      assert TimerOk(c, i);
    }
    hide Mine, TimerOk, ClockOf, P.Inv;
    if c.cancelled {
      FlagHasCallback(Abs(c, who));
    }
  }

  lemma FlagHasCallback(a: P.Call)
    requires P.Inv(a) && a.cancelled
    ensures exists i :: 0 <= i < |a.timers| && !a.timers[i].NoTimer?
  {
  }

  /** One attempt: no act after the first begins another. */
  ghost predicate OneAttempt(acts: seq<Act>) {
    acts != [] && acts[0].DoAgain? && NoAgain(acts[1..])
  }

  ghost predicate NoAgain(acts: seq<Act>) {
    forall i :: 0 <= i < |acts| ==> !acts[i].DoAgain?
  }

  /** The next attempt fails with a timeout although no scan hands out its timer. */
  ghost predicate EarlyTimeout(c: System, acts: seq<Act>, who: Who)
    requires Inv(c, who)
  {
    OneAttempt(acts) && Run(c, acts, who) && TimedOutEarly(After(c, acts, who))
  }

  lemma HandedGrows(c: System, act: Act, who: Who)
    requires Inv(c, who) && Enabled(c, act, who) && !act.DoAgain?
    ensures Apply(c, act, who).mine == c.mine && c.handed <= Apply(c, act, who).handed
    ensures forall n: nat :: StepOf(c, act, who) == Some(P.Expire(n)) ==> !Unexpired(Apply(c, act, who), n)
    ensures StepOf(c, act, who) != Some(P.Again)
  {
    hide T.ListExpired, R.Perform, P.Inv, Slots, Mine, E.AddEvent, E.CancelEvent, T.Cancel, TR.Apply;
  }

  lemma {:induction false} HandedStays(c: System, acts: seq<Act>, who: Who)
    requires Inv(c, who) && Run(c, acts, who) && NoAgain(acts)
    ensures After(c, acts, who).mine == c.mine && c.handed <= After(c, acts, who).handed
    decreases |acts|
  {
    hide Inv, Apply, Enabled, StepOf;
    if acts != [] {
      assert !acts[0].DoAgain?;
      Simulates(c, acts[0], who);
      HandedGrows(c, acts[0], who);
      HandedStays(Apply(c, acts[0], who), acts[1..], who);
    }
  }

  /** While timer n is not handed out, calm stays. */
  lemma {:induction false} CalmStays(c: System, acts: seq<Act>, who: Who, n: nat)
    requires Inv(c, who) && Run(c, acts, who) && NoAgain(acts) && P.Calm(Abs(c, who), n)
    requires Unexpired(After(c, acts, who), n)
    ensures P.Calm(Abs(After(c, acts, who), who), n)
    decreases |acts|
  {
    hide Inv, Apply, Enabled, StepOf, P.Calm, P.Apply, P.Enabled, Abs;
    if acts != [] {
      var d := Apply(c, acts[0], who);
      assert !acts[0].DoAgain?;
      Simulates(c, acts[0], who);
      HandedGrows(c, acts[0], who);
      HandedStays(d, acts[1..], who);
      assert Unexpired(d, n);
      if StepOf(c, acts[0], who).Some? {
        P.CalmStep(Abs(c, who), StepOf(c, acts[0], who).value, n);
      }
      CalmStays(d, acts[1..], who, n);
    }
  }

  lemma FirstAct(c: System, acts: seq<Act>, who: Who)
    requires Inv(c, who) && Run(c, acts, who) && OneAttempt(acts)
    ensures Enabled(c, acts[0], who) && Abs(Apply(c, acts[0], who), who) == P.Apply(Abs(c, who), P.Again)
    ensures Inv(Apply(c, acts[0], who), who) && |Apply(c, acts[0], who).mine| == |c.mine| + 1
  {
    Simulates(c, acts[0], who);
    hide Mine, Slots, P.Inv;
  }

  lemma NotEarly(c: System, acts: seq<Act>, who: Who)
    requires Inv(c, who) && c.phase.Trying? && !AtRisk(c) && Run(c, acts, who) && OneAttempt(acts)
    ensures !TimedOutEarly(After(c, acts, who))
  {
    AtRiskAbs(c, who);
    AbsPhases(c, who);
    P.AgainCalm(Abs(c, who));
    FirstAct(c, acts, who);
    var d, e := Apply(c, acts[0], who), After(c, acts, who);
    hide Apply, Enabled, Inv, AtRisk, P.Apply, P.AtRisk, P.Inv;
    HandedStays(d, acts[1..], who);
    if TimedOutEarly(e) {
      CalmStays(d, acts[1..], who, |c.mine|);
      AfterInv(c, acts, who);
      AbsPhases(e, who);
    }
  }

  lemma RiskEarly(c: System, who: Who) returns (acts: seq<Act>)
    requires Inv(c, who) && c.phase.Trying? && AtRisk(c)
    ensures EarlyTimeout(c, acts, who)
  {
    AtRiskAbs(c, who);
    AbsPhases(c, who);
    var steps := P.RiskRuns(Abs(c, who));
    hide Inv, AtRisk, P.AtRisk, P.Inv, Run, After, P.Run, P.After, Abs, TimedOutEarly, P.Unexpired;
    acts := RealizeRun(c, who, [P.Again] + steps);
    AfterInv(c, acts, who);
    assert forall i :: 0 <= i < |steps| ==> acts[1..][i].DoAgain? == ([P.Again] + steps)[i + 1].Again?;
    EarlyMeans(After(c, acts, who), who, |c.mine|);
  }

  lemma EarlyMeans(c: System, who: Who, n: nat)
    requires Inv(c, who) && P.Unexpired(Abs(c, who), n) && Abs(c, who).phase == P.Returned(P.TimedOut)
    ensures TimedOutEarly(c)
  {
    AbsPhases(c, who);
    AtRiskAbs(c, who);
    ClockFacts(c, n);
    assert TimerOk(c, n) && Clocks(c)[n] == ClockOf(c, n);
    hide Slots, T.Inv;
  }

  /** In any state that a call can reach before an attempt: that attempt can fail
      with a timeout although no scan hands out its own timer if and only if the
      flag is already set or the callback of an earlier attempt is still to run. */
  lemma EarlyTimeoutExactly(c: System, who: Who)
    requires Inv(c, who) && c.phase.Trying?
    ensures (exists acts :: EarlyTimeout(c, acts, who)) <==> AtRisk(c)
  {
    hide Run, After, Inv, AtRisk, TimedOutEarly;
    if AtRisk(c) {
      var acts := RiskEarly(c, who);
    } else {
      forall acts | OneAttempt(acts) && Run(c, acts, who)
        ensures !TimedOutEarly(After(c, acts, who))
      {
        NotEarly(c, acts, who);
      }
    }
  }
}
