/** What a call of do_io and the callbacks of its timers leave alone. */
module DoIoFrame {

  import opened Basics
  import opened DoIoSystem
  import opened EventSlots
  import E = EventRegistry
  import R = EventRuns
  import T = Timers
  import TR = TimerRuns
  import P = DoIo

  /** Every slot but that of key is as it was, and nobody but fiber me was queued. */
  ghost predicate OnlyMine(s: E.State, t: E.State, key: R.Key, me: nat) {
    && (forall k: R.Key :: k != key ==> SlotAt(t, k) == SlotAt(s, k))
    && s.scheduled <= t.scheduled
    && forall i :: |s.scheduled| <= i < |t.scheduled| ==> t.scheduled[i].waiter == E.FiberWaiter(me)
  }

  lemma AddFrame(s: E.State, who: Who, sched: nat, ok: bool)
    requires E.Inv(s)
    ensures
      var t := E.AddEvent(s, who.key.fd, who.key.event, sched, E.FiberWaiter(who.me), ok).0;
      OnlyMine(s, t, who.key, who.me)
  {
    var fd, e := who.key.fd, who.key.event;
    E.AddEventKeeps(s, fd, e, sched, E.FiberWaiter(who.me), ok);
    hide E.AddEvent, E.Inv;
  }

  lemma CancelFrame(s: E.State, who: Who, ok: bool)
    requires E.Inv(s) && (SlotAt(s, who.key).on ==> Holds(SlotAt(s, who.key), who.me))
    ensures OnlyMine(s, E.CancelEvent(s, who.key.fd, who.key.event, ok).0, who.key, who.me)
  {
    E.CancelEventKeeps(s, who.key.fd, who.key.event, ok);
    hide E.CancelEvent, E.Inv;
  }

  /** The steps of the call, the scans and the callbacks of its timers change no slot
      but its own and queue no fiber but its own. */
  lemma SlotsUntouched(c: System, act: Act, who: Who)
    requires Inv(c, who) && Enabled(c, act, who) && !act.Other?
    ensures OnlyMine(c.events, Apply(c, act, who).events, who.key, who.me)
  {
    hide Mine, P.Inv, Count, T.ListExpired, T.Cancel, T.Add, TR.Apply, OnlyMine;
    match act {
      case DoRegister(sched, ok) => AddFrame(c.events, who, sched, ok);
      case DoCancelEvent(_, ok) => CancelFrame(c.events, who, ok);
      case _ => SameFrame(c.events, who);
    }
    hide E.AddEvent, E.CancelEvent, E.Inv, OnlyAt;
  }

  lemma SameFrame(s: E.State, who: Who)
    ensures OnlyMine(s, s, who.key, who.me)
  {
  }

  ghost predicate SameTimer(s: T.State, t: T.State, id: T.Id) {
    id in s.recs && id in t.recs && t.recs[id] == s.recs[id] && (id in t.order <==> id in s.order)
  }

  lemma StopFrame(c: System, id: T.Id)
    requires Mine(c) && id in c.timers.recs && !IsMine(c, id)
    ensures SameTimer(c.timers, StopTimer(c).timers, id)
  {
    if c.mine != [] && c.mine[|c.mine| - 1].Some? {
      var k := |c.mine| - 1;
      assert TimerOk(c, k);
      T.CancelMeans(c.timers, c.mine[k].value);
      hide T.Cancel, T.Sorted;
    }
  }

  lemma AgainFrame(c: System, id: T.Id, next: T.Id, now: nat)
    requires Mine(c) && id in c.timers.recs && next !in c.timers.recs
    ensures SameTimer(c.timers, Again(c, next, now).timers, id)
  {
    if c.limit.Some? {
      T.AddMeans(c.timers, next, now, c.limit.value, 0, false);
      hide T.Add, T.Inv, TimerOk;
    }
  }

  /** Apart from scans, the steps of the call and the callbacks of its timers change no
      timer but its own. */
  lemma TimersUntouched(c: System, act: Act, who: Who, id: T.Id)
    requires Inv(c, who) && Enabled(c, act, who) && !act.DoScan? && !act.OtherTimer?
    requires id in c.timers.recs && !IsMine(c, id)
    ensures SameTimer(c.timers, Apply(c, act, who).timers, id)
  {
    hide Slots, P.Inv, Mine, StopTimer, Again, E.AddEvent, E.CancelEvent, R.Perform;
    if act.DoAgain? {
      AgainFrame(c, id, act.id, act.now);
    } else {
      StopFrame(c, id);
    }
  }
}
