/** When the timers of do_io are due, over whole runs. */
module DoIoDeadlines {

  import opened Basics
  import opened DoIoSystem
  import E = EventRegistry
  import R = EventRuns
  import T = Timers
  import TR = TimerRuns
  import P = DoIo

  // ------------------------------------------------------------------ one step

  /** An attempt of a call with a time limit arms a one-shot timer that is due when
      the limit is over. */
  lemma AgainArms(c: System, id: T.Id, now: nat, who: Who)
    requires Inv(c, who) && Enabled(c, DoAgain(id, now), who) && c.limit.Some?
    ensures
      var d := Apply(c, DoAgain(id, now), who);
      && d.mine == c.mine + [Some(id)] && d.handed == c.handed && id !in c.handed
      && id in d.timers.order && id in d.timers.recs
      && !d.timers.recs[id].recurring && d.timers.recs[id].next == T.Plus(now, c.limit.value)
  {
    hide Slots, P.Inv, TimerOk;
    T.AddMeans(c.timers, id, now, c.limit.value, 0, false);
    hide T.Add, T.Inv;
  }

  lemma StopKeeps(c: System, id: T.Id)
    requires Mine(c) && id in c.timers.recs
    ensures
      var d := StopTimer(c);
      d.mine == c.mine && d.handed == c.handed && d.limit == c.limit
      && id in d.timers.recs && d.timers.recs[id].next == c.timers.recs[id].next
  {
    if c.mine != [] && c.mine[|c.mine| - 1].Some? {
      var k := |c.mine| - 1;
      assert TimerOk(c, k);
      T.CancelMeans(c.timers, c.mine[k].value);
      hide T.Cancel, T.Sorted;
    }
  }

  /** What a step does to a timer of the call, and when it hands it out. */
  ghost predicate Kept(c: System, d: System, id: T.Id, act: Act) {
    && c.mine <= d.mine && d.limit == c.limit && c.handed <= d.handed
    && id in c.timers.recs && id in d.timers.recs && d.timers.recs[id].next == c.timers.recs[id].next
    && (id in d.handed && id !in c.handed ==>
          act.DoScan? && (T.Rollover(c.timers.previous, act.now) || c.timers.recs[id].next <= act.now))
  }

  lemma ScanKeeps(c: System, id: T.Id, now: nat, probe: T.Id)
    requires Mine(c) && IsMine(c, id)
    ensures Kept(c, Scanned(c, now, probe), id, DoScan(now, probe))
  {
    T.ListExpiredExactly(c.timers, now, probe);
    var i :| 0 <= i < |c.mine| && c.mine[i] == Some(id);
    assert TimerOk(c, i);
    hide T.ListExpired, T.Sorted, T.Rollover, T.Plus;
  }

  lemma OtherTimerKeeps(c: System, id: T.Id, top: TR.Op)
    requires Mine(c) && IsMine(c, id) && TR.Legal(c.timers, top) && !top.DoExpire?
    requires top.DoCancel? || top.DoRefresh? || top.DoReset? ==> !IsMine(c, top.a)
    ensures Kept(c, c.(timers := TR.Apply(c.timers, top).0), id, OtherTimer(top))
  {
    var i :| 0 <= i < |c.mine| && c.mine[i] == Some(id);
    assert TimerOk(c, i);
    TimerKept(c.timers, top, id);
    hide TR.Apply, T.Inv, TR.Legal;
  }

  lemma MineKnown(c: System, id: T.Id)
    requires Mine(c) && IsMine(c, id)
    ensures id in c.timers.recs
  {
    var i :| 0 <= i < |c.mine| && c.mine[i] == Some(id);
    assert TimerOk(c, i);
  }

  lemma AgainKeeps(c: System, id: T.Id, act: Act, who: Who)
    requires Inv(c, who) && Enabled(c, act, who) && act.DoAgain? && id in c.timers.recs
    ensures Kept(c, Apply(c, act, who), id, act)
  {
    hide Slots, P.Inv, TimerOk;
    if c.limit.Some? {
      T.AddMeans(c.timers, act.id, act.now, c.limit.value, 0, false);
      hide T.Add, T.Inv;
    }
  }

  lemma QuietKeeps(c: System, act: Act, who: Who, id: T.Id)
    requires Inv(c, who) && Enabled(c, act, who) && id in c.timers.recs
    requires !act.DoAgain? && !act.DoScan? && !act.OtherTimer?
    ensures Kept(c, Apply(c, act, who), id, act)
  {
    StopKeeps(c, id);
    hide Slots, Mine, P.Inv, StopTimer, E.AddEvent, E.CancelEvent, R.Perform, T.Rollover;
  }

  lemma StepKeeps(c: System, act: Act, who: Who, id: T.Id)
    requires Inv(c, who) && Enabled(c, act, who) && IsMine(c, id)
    ensures Kept(c, Apply(c, act, who), id, act)
  {
    hide Slots, Mine, P.Inv, Kept, Scanned, TR.Apply, TR.Legal;
    MineKnown(c, id);
    match act
    case DoAgain(_, _) => AgainKeeps(c, id, act, who);
    case DoScan(now, probe) => ScanKeeps(c, id, now, probe);
    case OtherTimer(top) => OtherTimerKeeps(c, id, top);
    case _ => QuietKeeps(c, act, who, id);
  }

  // ------------------------------------------------------------------ whole runs

  lemma {:induction false} RunSplit(c: System, acts: seq<Act>, who: Who, j: nat)
    requires Inv(c, who) && Run(c, acts, who) && j <= |acts|
    ensures Run(c, acts[..j], who) && Inv(After(c, acts[..j], who), who)
    ensures Run(After(c, acts[..j], who), acts[j..], who)
    ensures After(After(c, acts[..j], who), acts[j..], who) == After(c, acts, who)
    decreases j
  {
    hide Inv, Apply, Enabled;
    if j == 0 {
      assert acts[..0] == [] && acts[0..] == acts;
    } else {
      Simulates(c, acts[0], who);
      RunSplit(Apply(c, acts[0], who), acts[1..], who, j - 1);
      assert acts[..j][1..] == acts[1..][..j - 1] && acts[j..] == acts[1..][j - 1..];
    }
  }

  /** The last step of a run. */
  lemma RunLast(c: System, acts: seq<Act>, who: Who)
    requires Inv(c, who) && Run(c, acts, who) && acts != []
    ensures
      var n := |acts| - 1;
      && Run(c, acts[..n], who) && Inv(After(c, acts[..n], who), who)
      && Enabled(After(c, acts[..n], who), acts[n], who)
      && After(c, acts, who) == Apply(After(c, acts[..n], who), acts[n], who)
  {
    hide Inv, Apply, Enabled;
    var n := |acts| - 1;
    RunSplit(c, acts, who, n);
    var d := After(c, acts[..n], who);
    assert acts[n..] == [acts[n]];
    Simulates(d, acts[n], who);
    assert [acts[n]][1..] == [];
  }

  /** The attempt that act k began is waited for with a timer due when the limit is
      over. */
  ghost predicate ArmedBy(d: System, acts: seq<Act>, i: nat, k: nat, ms: nat) {
    && k < |acts| && acts[k].DoAgain? && i < |d.mine| && d.mine[i] == Some(acts[k].id)
    && acts[k].id in d.timers.recs && d.timers.recs[acts[k].id].next == T.Plus(acts[k].now, ms)
  }

  /** Act j is a scan, later than act k, whose reading is not before the time of act
      k plus the limit, if that fits 64 bits, or passes for a clock set back. */
  ghost predicate InTime(c: System, acts: seq<Act>, who: Who, ms: nat, k: nat, j: nat)
    requires Inv(c, who)
  {
    && k < j < |acts| && acts[k].DoAgain? && acts[j].DoScan? && Run(c, acts[..j], who)
    && (|| acts[k].now + ms <= acts[j].now || acts[k].now + ms >= T.U64
        || T.Rollover(After(c, acts[..j], who).timers.previous, acts[j].now))
  }

  ghost predicate HandedInTime(c: System, acts: seq<Act>, who: Who, ms: nat, k: nat)
    requires Inv(c, who)
  {
    exists j: nat :: InTime(c, acts, who, ms, k, j)
  }

  /** Act k armed attempt i, and the timer has been handed out, if it has been, in
      time. */
  ghost predicate TimedBy(c: System, acts: seq<Act>, who: Who, ms: nat, i: nat, k: nat)
    requires Inv(c, who) && Run(c, acts, who)
  {
    var d := After(c, acts, who);
    ArmedBy(d, acts, i, k, ms) && (acts[k].id in d.handed ==> HandedInTime(c, acts, who, ms, k))
  }

  ghost predicate Timed(c: System, acts: seq<Act>, who: Who, ms: nat, i: nat)
    requires Inv(c, who) && Run(c, acts, who)
  {
    exists k: nat :: TimedBy(c, acts, who, ms, i, k)
  }

  lemma InTimeStays(c: System, acts: seq<Act>, who: Who, ms: nat, k: nat)
    requires Inv(c, who) && acts != [] && HandedInTime(c, acts[..|acts| - 1], who, ms, k)
    ensures HandedInTime(c, acts, who, ms, k)
  {
    hide Inv, Run, After, T.Rollover;
    var front := acts[..|acts| - 1];
    var j: nat :| InTime(c, front, who, ms, k, j);
    assert front[..j] == acts[..j];
    assert InTime(c, acts, who, ms, k, j);
  }

  lemma ScannedNow(c: System, acts: seq<Act>, who: Who, ms: nat, k: nat, n: nat)
    requires Inv(c, who) && n + 1 == |acts| && k < n && Run(c, acts[..n], who)
    requires acts[k].DoAgain? && acts[n].DoScan?
    requires
      var s := After(c, acts[..n], who).timers;
      T.Rollover(s.previous, acts[n].now) || T.Plus(acts[k].now, ms) <= acts[n].now
    ensures HandedInTime(c, acts, who, ms, k)
  {
    hide Inv, Run, After, T.Rollover;
    assert InTime(c, acts, who, ms, k, n);
  }

  lemma StillTimed(c: System, acts: seq<Act>, who: Who, ms: nat, i: nat, k: nat)
    requires Inv(c, who) && Run(c, acts, who) && acts != [] && Run(c, acts[..|acts| - 1], who)
    requires TimedBy(c, acts[..|acts| - 1], who, ms, i, k)
    ensures TimedBy(c, acts, who, ms, i, k)
  {
    var n := |acts| - 1;
    RunLast(c, acts, who);
    hide Inv, Apply, Enabled, Run, After, T.Rollover, T.Plus, HandedInTime;
    var b, d := After(c, acts[..n], who), After(c, acts, who);
    var id := acts[k].id;
    StepKeeps(b, acts[n], who, id);
    if id in b.handed {
      InTimeStays(c, acts, who, ms, k);
    } else if id in d.handed {
      ScannedNow(c, acts, who, ms, k, n);
    }
  }

  lemma TimedStays(c: System, acts: seq<Act>, who: Who, ms: nat, i: nat)
    requires Inv(c, who) && Run(c, acts, who) && acts != [] && Run(c, acts[..|acts| - 1], who)
    requires Timed(c, acts[..|acts| - 1], who, ms, i)
    ensures Timed(c, acts, who, ms, i)
  {
    hide Inv, Run, After, TimedBy;
    var k: nat :| TimedBy(c, acts[..|acts| - 1], who, ms, i, k);
    StillTimed(c, acts, who, ms, i, k);
  }

  /** Every attempt of a run is armed with the limit and handed out in time. */
  lemma {:induction false} AllTimed(c: System, acts: seq<Act>, who: Who, ms: nat)
    requires Inv(c, who) && c.mine == [] && c.limit == Some(ms) && Run(c, acts, who)
    ensures After(c, acts, who).limit == Some(ms)
    ensures forall i :: 0 <= i < |After(c, acts, who).mine| ==> Timed(c, acts, who, ms, i)
    decreases |acts|
  {
    hide Inv, Apply, Enabled, Timed;
    if acts != [] {
      hide Run, After;
      var n := |acts| - 1;
      RunLast(c, acts, who);
      AllTimed(c, acts[..n], who, ms);
      var b, d := After(c, acts[..n], who), After(c, acts, who);
      StepMine(b, acts[n], who);
      forall i | 0 <= i < |d.mine|
        ensures Timed(c, acts, who, ms, i)
      {
        if i < |b.mine| {
          TimedStays(c, acts, who, ms, i);
        } else {
          NewlyTimed(c, acts, who, ms);
        }
      }
    }
  }

  lemma StepMine(c: System, act: Act, who: Who)
    requires Inv(c, who) && Enabled(c, act, who)
    ensures Apply(c, act, who).limit == c.limit
    ensures |Apply(c, act, who).mine| == |c.mine| + if act.DoAgain? then 1 else 0
  {
    hide T.ListExpired, R.Perform, P.Inv, Slots, Mine, E.AddEvent, E.CancelEvent, T.Cancel, TR.Apply, T.Add;
  }

  lemma NewlyTimed(c: System, acts: seq<Act>, who: Who, ms: nat)
    requires Inv(c, who) && Run(c, acts, who) && acts != [] && acts[|acts| - 1].DoAgain?
    requires
      var front := acts[..|acts| - 1];
      Run(c, front, who) && After(c, front, who).limit == Some(ms)
    ensures After(c, acts, who).mine != [] && Timed(c, acts, who, ms, |After(c, acts, who).mine| - 1)
  {
    var n := |acts| - 1;
    RunLast(c, acts, who);
    var b, d := After(c, acts[..n], who), After(c, acts, who);
    AgainArms(b, acts[n].id, acts[n].now, who);
    hide Inv, Apply, Enabled, Run, After, T.Plus;
    assert TimedBy(c, acts, who, ms, |d.mine| - 1, n);
  }

  /** A call fails with a timeout only after a scan whose reading of the clock was not
      before the time at which some attempt began plus the limit, unless the scan took
      the reading for a clock set back or the sum does not fit 64 bits. */
  lemma TimeoutNotBefore(c: System, acts: seq<Act>, who: Who, ms: nat)
    requires Initial(c, who) && c.limit == Some(ms) && RunFrom(c, acts, who)
    requires AfterFrom(c, acts, who).phase == P.Returned(P.TimedOut)
    ensures Inv(c, who) && exists k: nat, j: nat :: InTime(c, acts, who, ms, k, j)
  {
    InitialInv(c, who);
    TimeoutNeedsCallback(c, acts, who);
    AllTimed(c, acts, who, ms);
    hide Inv, Initial, Run, After, T.Rollover, T.Plus, InTime;
    var d := AfterFrom(c, acts, who);
    var i :| 0 <= i < |d.mine| && i in d.begun && d.mine[i].Some? && d.mine[i].value in d.handed;
    assert Timed(c, acts, who, ms, i);
    var k: nat :| TimedBy(c, acts, who, ms, i, k);
    var j: nat :| InTime(c, acts, who, ms, k, j);
  }

  /** A timer of the call keeps its deadline. */
  lemma {:induction false} DeadlineStays(c: System, acts: seq<Act>, who: Who, id: T.Id)
    requires Inv(c, who) && Run(c, acts, who) && IsMine(c, id) && id in c.timers.recs
    ensures
      var d := After(c, acts, who);
      IsMine(d, id) && id in d.timers.recs && d.timers.recs[id].next == c.timers.recs[id].next
    decreases |acts|
  {
    hide Inv, Apply, Enabled;
    if acts != [] {
      Simulates(c, acts[0], who);
      StepKeeps(c, acts[0], who, id);
      DeadlineStays(Apply(c, acts[0], who), acts[1..], who, id);
    }
  }

  /** In every state of every run, a scan hands out the timer of an attempt that is
      still pending if and only if the limit is over since the attempt began, or the
      reading passes for a clock set back. */
  lemma HandedOutExactly(c: System, acts: seq<Act>, who: Who, ms: nat, k: nat, now: nat, probe: T.Id)
    requires Inv(c, who) && c.mine == [] && c.limit == Some(ms) && Run(c, acts, who)
    requires k < |acts| && acts[k].DoAgain?
    ensures
      var d, id := After(c, acts, who), acts[k].id;
      && Inv(d, who) && Some(id) in d.mine
      && (id in d.timers.order ==>
            (id in Apply(d, DoScan(now, probe), who).handed <==>
             T.Plus(acts[k].now, ms) <= now || T.Rollover(d.timers.previous, now)))
  {
    RunSplit(c, acts, who, k + 1);
    assert acts[..k + 1][k] == acts[k] && acts[..k + 1][..k] == acts[..k];
    RunLast(c, acts[..k + 1], who);
    AllTimed(c, acts[..k], who, ms);
    AfterInv(c, acts, who);
    var b := After(c, acts[..k], who);
    AgainArms(b, acts[k].id, acts[k].now, who);
    hide Apply, Enabled, Run, After, T.Rollover, T.Plus, Inv;
    DeadlineStays(After(c, acts[..k + 1], who), acts[k + 1..], who, acts[k].id);
    ScanHandsOut(After(c, acts, who), who, acts[k].id, now, probe);
  }

  lemma ScanHandsOut(d: System, who: Who, id: T.Id, now: nat, probe: T.Id)
    requires Inv(d, who) && IsMine(d, id)
    ensures id in d.timers.recs
    ensures id in d.timers.order ==>
              (id in Apply(d, DoScan(now, probe), who).handed <==>
               d.timers.recs[id].next <= now || T.Rollover(d.timers.previous, now))
  {
    MineKnown(d, id);
    var i :| 0 <= i < |d.mine| && d.mine[i] == Some(id);
    assert TimerOk(d, i);
    hide Slots, P.Inv, T.ListExpired, T.Rollover, T.Sorted;
    if id in d.timers.order {
      T.FiredWhenDue(d.timers, id, now, probe);
    }
  }
}
