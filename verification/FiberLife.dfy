/** One fiber in the whole program: it runs on the scheduler, suspends itself only
    in do_io and in FiberSemaphore::wait, and everyone else does what they like. */
module FiberLife {

  import opened Basics
  import opened Sleepers
  import opened EventSlots
  import R = EventRuns
  import S = Scheduler
  import C = Discipline
  import D = DoIoSystem
  import P = DoIo
  import Q = Semaphores

  /** The scheduler, the fibers that stand at their yieldToHold, the descriptor and
      event of the fiber's current or last call of do_io, that call, the semaphores,
      and the one in whose list the fiber waits. */
  datatype Life = Life(
    s: S.State,
    dozing: set<S.Fiber>,
    key: R.Key,
    c: D.System,
    sems: map<nat, Q.Sem>,
    at: Option<nat>)

  /** What worker thread w does when it runs the fiber: a step of do_io, the next
      call of do_io, or a wait; and what happens elsewhere. */
  datatype Act =
    | InCall(w: S.Thread, act: D.Act)
    | NextCall(w: S.Thread, key: R.Key, limit: Option<nat>)
    | Wait(w: S.Thread, j: nat)
    | Outside(act: D.Act, thread: int)
    | Notify(j: nat, thread: int)
    | OtherWait(j: nat, f: S.Fiber)
    | Sched(step: S.Step)

  function Me(l: Life, me: S.Fiber): D.Who {
    D.Who(me, l.key)
  }

  predicate IsOn(l: Life) {
    SlotAt(l.c.events, l.key).on
  }

  ghost predicate SemsOk(l: Life, me: S.Fiber) {
    forall j :: j in l.sems ==> multiset(l.sems[j].waiters)[me] == if l.at == Some(j) then 1 else 0
  }

  /** The fiber is registered with the scheduler's clients exactly as often as it
      waits for its event or for a semaphore, and never for both. */
  ghost predicate Inv(l: Life, me: S.Fiber) {
    && S.Inv(l.s) && Told(l.s, l.dozing) && D.Inv(l.c, Me(l, me))
    && l.s.parked[me] == (if IsOn(l) then 1 else 0) + (if l.at.Some? then 1 else 0)
    && (l.at.Some? ==> l.c.phase.Returned? && l.at.value in l.sems) && SemsOk(l, me)
  }

  // ------------------------------------------------------------------- the steps

  /** Steps that the fiber itself takes in do_io. */
  predicate Own(act: D.Act) {
    act.DoAgain? || act.DoComplete? || act.DoRegister? || act.DoResume?
  }

  /** The fiber runs on worker w and does not stand at its yieldToHold. */
  predicate Goes(l: Life, w: S.Thread, me: S.Fiber) {
    Runs(l.s, w, me) && me !in l.dozing
  }

  /** Where do_io takes which step. That somebody has queued the fiber when it goes
      on after its yieldToHold is not asked for here. */
  predicate Next(c: D.System, act: D.Act) {
    match act
    case DoAgain(id, _) => c.phase.Trying? && id !in c.timers.recs
    case DoComplete => c.phase.Trying?
    case DoRegister(_, _) => c.phase.Armed?
    case DoResume => c.phase.Waiting?
    case _ => false
  }

  /** The other steps of the scheduler: all other fibers obey, and this one yields
      READY or ends only outside of do_io and of wait. */
  predicate Elsewhen(l: Life, step: S.Step, me: S.Fiber) {
    && S.Enabled(l.s, step) && Obeys(l.s, l.dozing, step)
    && (step.Wake? ==> step.fiber != me)
    && (step.Park? ==> !Runs(l.s, step.worker, me))
    && (step.YieldReady? || step.Finish? ==> Runs(l.s, step.worker, me) ==> l.c.phase.Returned?)
  }

  ghost predicate Enabled(l: Life, a: Act, me: S.Fiber)
    requires Inv(l, me)
  {
    match a
    case InCall(w, act) => Goes(l, w, me) && Next(l.c, act)
    case NextCall(w, key, _) => Goes(l, w, me) && l.c.phase.Returned? && !SlotAt(l.c.events, key).on
    case Wait(w, j) => Goes(l, w, me) && l.c.phase.Returned? && j in l.sems
    case Outside(act, _) => !Own(act) && D.Enabled(l.c, act, Me(l, me))
    case Notify(j, _) => j in l.sems
    case OtherWait(j, f) => j in l.sems && f != me
    case Sched(step) => Elsewhen(l, step, me)
  }

  /** A fiber that runs and does not stand at its yieldToHold is registered nowhere. */
  lemma GoesFree(l: Life, w: S.Thread, me: S.Fiber)
    requires Inv(l, me) && Goes(l, w, me)
    ensures S.WakeUps(l.s, me) == 0 && !IsOn(l) && l.at.None?
  {
    hide S.Inv, D.Inv, S.Queued, SemsOk;
  }

  /** When it goes on after the suspension in do_io, its wake-up has come: do_io
      needs no guard of its own. */
  lemma InCallEnabled(l: Life, a: Act, me: S.Fiber)
    requires Inv(l, me) && Enabled(l, a, me) && a.InCall?
    ensures D.Enabled(l.c, a.act, Me(l, me)) && Own(a.act)
  {
    GoesFree(l, a.w, me);
    hide S.Inv, Told, SemsOk, D.Mine, P.Inv, Count;
  }

  ghost function CallAfter(l: Life, a: Act, me: S.Fiber): D.System
    requires Inv(l, me) && Enabled(l, a, me)
  {
    match a
    case InCall(_, act) => InCallEnabled(l, a, me); D.Apply(l.c, act, Me(l, me))
    case NextCall(_, _, limit) =>
      l.c.(phase := P.Trying, limit := limit, cancelled := false, mine := [], begun := {}, marking := {})
    case Outside(act, _) => D.Apply(l.c, act, Me(l, me))
    case _ => l.c
  }

  /** The step of the scheduler that an act brings about: a registration parks the
      fiber, the end of one wakes it. */
  ghost function StepOf(l: Life, a: Act, me: S.Fiber): Option<S.Step>
    requires Inv(l, me) && Enabled(l, a, me)
  {
    match a
    case InCall(w, _) => if CallAfter(l, a, me).suspended > l.c.suspended then Some(S.Park(w)) else None
    case NextCall(_, _, _) => None
    case Wait(w, j) => if l.sems[j].Wait(me).1 then None else Some(S.Park(w))
    case Outside(_, thread) =>
      if Count(CallAfter(l, a, me).events.scheduled, me) > Count(l.c.events.scheduled, me)
      then Some(S.Wake(me, thread)) else None
    case Notify(j, thread) => if l.sems[j].Notify().1 == Some(me) then Some(S.Wake(me, thread)) else None
    case OtherWait(_, _) => None
    case Sched(step) => Some(step)
  }

  // -------------------------------------------------- what a step does to the call

  /** Every registration has been queued or is still on, step by step. */
  lemma CountsMove(a: P.Call, st: P.Step)
    requires P.Inv(a) && P.Enabled(a, st)
    ensures
      var b := P.Apply(a, st);
      if st.Again? || st.Complete? || st.Register? || st.Resume?
      then b.woken == a.woken && a.suspended <= b.suspended <= a.suspended + 1
      else b.suspended == a.suspended && a.woken <= b.woken <= a.woken + 1
  {
  }

  function OnCount(c: D.System, key: R.Key): nat {
    if SlotAt(c.events, key).on then 1 else 0
  }

  lemma Balance(c: D.System, who: D.Who)
    requires D.Inv(c, who)
    ensures c.suspended == Count(c.events.scheduled, who.me) + OnCount(c, who.key)
  {
    hide D.Mine, D.Slots, Count;
    assert P.Inv(D.Abs(c, who));
  }

  lemma OwnStepOf(c: D.System, act: D.Act, who: D.Who)
    requires D.Inv(c, who) && D.Enabled(c, act, who)
    ensures Own(act) <==>
            var st := D.StepOf(c, act, who);
            st.Some? && (st.value.Again? || st.value.Complete? || st.value.Register? || st.value.Resume?)
  {
    hide D.Mine, D.Slots, P.Inv, R.Perform;
  }

  /** A step of do_io registers the fiber at most once; a step of others ends the
      registration at most once and then queues the fiber. */
  lemma CallMoves(c: D.System, act: D.Act, who: D.Who)
    requires D.Inv(c, who) && D.Enabled(c, act, who)
    ensures
      var d := D.Apply(c, act, who);
      && D.Inv(d, who)
      && (Own(act) ==> OnCount(d, who.key) == OnCount(c, who.key) + d.suspended - c.suspended)
      && (Own(act) ==> c.suspended <= d.suspended <= c.suspended + 1)
      && (!Own(act) ==> OnCount(c, who.key) - OnCount(d, who.key) ==
                        Count(d.events.scheduled, who.me) - Count(c.events.scheduled, who.me) <= 1)
      && (!Own(act) ==> Count(c.events.scheduled, who.me) <= Count(d.events.scheduled, who.me))
  {
    D.Simulates(c, act, who);
    OwnStepOf(c, act, who);
    var d := D.Apply(c, act, who);
    Balance(c, who);
    Balance(d, who);
    assert P.Inv(D.Abs(c, who));
    hide D.Inv, D.Apply, D.Enabled, P.Inv, P.Apply, P.Enabled, D.StepOf, Count;
    if D.StepOf(c, act, who).Some? {
      CountsMove(D.Abs(c, who), D.StepOf(c, act, who).value);
    }
  }

  lemma OutsidePhase(c: D.System, act: D.Act, who: D.Who)
    requires D.Inv(c, who) && D.Enabled(c, act, who) && !Own(act)
    ensures D.Apply(c, act, who).phase == c.phase
  {
    hide D.Mine, D.Slots, P.Inv, R.Perform;
  }

  /** After do_io has returned, its fiber can call it again, for any event for which
      nobody waits. */
  lemma NextInitial(l: Life, a: Act, me: S.Fiber)
    requires Inv(l, me) && Enabled(l, a, me) && a.NextCall?
    ensures D.Initial(CallAfter(l, a, me), D.Who(me, a.key))
  {
    GoesFree(l, a.w, me);
    Balance(l.c, Me(l, me));
    hide S.Inv, Told, SemsOk, Count, P.Inv;
  }

  lemma CallKept(l: Life, a: Act, me: S.Fiber)
    requires Inv(l, me) && Enabled(l, a, me)
    ensures D.Inv(CallAfter(l, a, me), D.Who(me, if a.NextCall? then a.key else l.key))
  {
    hide S.Inv, Told, SemsOk, D.Inv, D.Initial;
    match a
    case InCall(_, act) => InCallEnabled(l, a, me); CallMoves(l.c, act, Me(l, me));
    case NextCall(_, key, _) =>
      NextInitial(l, a, me);
      D.InitialInv(CallAfter(l, a, me), D.Who(me, key));
    case Outside(act, _) => CallMoves(l.c, act, Me(l, me));
    case _ =>
  }

  // --------------------------------------------- what a step does to the scheduler

  lemma NotifiedWaits(l: Life, j: nat, me: S.Fiber)
    requires Inv(l, me) && j in l.sems && l.sems[j].Notify().1 == Some(me)
    ensures l.at == Some(j) && l.s.parked[me] > 0
  {
    hide S.Inv, Told, D.Inv;
    assert l.sems[j].waiters[0] in multiset(l.sems[j].waiters);
  }

  /** The scheduler can take the step, and it keeps to the rule of the fibers. */
  lemma StepAllowed(l: Life, a: Act, me: S.Fiber)
    requires Inv(l, me) && Enabled(l, a, me) && StepOf(l, a, me).Some?
    ensures S.Enabled(l.s, StepOf(l, a, me).value) && Obeys(l.s, l.dozing, StepOf(l, a, me).value)
  {
    hide S.Inv, Told, D.Inv, D.Enabled, SemsOk, Count, S.FirstEligible;
    if a.Outside? {
      CallMoves(l.c, a.act, Me(l, me));
    } else if a.Notify? {
      NotifiedWaits(l, a.j, me);
    }
  }

  ghost function SemsAfter(l: Life, a: Act, me: S.Fiber): map<nat, Q.Sem>
    requires Inv(l, me) && Enabled(l, a, me)
  {
    match a
    case Wait(_, j) => l.sems[j := l.sems[j].Wait(me).0]
    case Notify(j, _) => l.sems[j := l.sems[j].Notify().0]
    case OtherWait(j, f) => l.sems[j := l.sems[j].Wait(f).0]
    case _ => l.sems
  }

  ghost function AtAfter(l: Life, a: Act, me: S.Fiber): Option<nat>
    requires Inv(l, me) && Enabled(l, a, me)
  {
    match a
    case Wait(_, j) => if l.sems[j].Wait(me).1 then l.at else Some(j)
    case Notify(j, _) => if l.sems[j].Notify().1 == Some(me) then None else l.at
    case _ => l.at
  }

  ghost function Apply(l: Life, a: Act, me: S.Fiber): Life
    requires Inv(l, me) && Enabled(l, a, me)
  {
    var k := if a.NextCall? then a.key else l.key;
    var c, sems, at := CallAfter(l, a, me), SemsAfter(l, a, me), AtAfter(l, a, me);
    match StepOf(l, a, me)
    case None => Life(l.s, l.dozing, k, c, sems, at)
    case Some(step) =>
      StepAllowed(l, a, me);
      Life(S.Apply(l.s, step), Dozing(l.s, l.dozing, step), k, c, sems, at)
  }

  /** Only registering and waking the fiber changes how often it is registered. */
  lemma ParkedMoves(s: S.State, step: S.Step, me: S.Fiber)
    requires S.Enabled(s, step)
    ensures
      var p := S.Apply(s, step).parked[me];
      if step.Park? && Runs(s, step.worker, me) then p == s.parked[me] + 1
      else if step.Wake? && step.fiber == me then p == s.parked[me] - 1
      else p == s.parked[me]
  {
    hide S.FirstEligible;
  }

  lemma SchedulerKept(l: Life, a: Act, me: S.Fiber)
    requires Inv(l, me) && Enabled(l, a, me)
    ensures S.Inv(Apply(l, a, me).s) && Told(Apply(l, a, me).s, Apply(l, a, me).dozing)
    ensures StepOf(l, a, me).Some? ==> S.Disciplined(l.s, StepOf(l, a, me).value)
  {
    if StepOf(l, a, me).Some? {
      var step := StepOf(l, a, me).value;
      StepAllowed(l, a, me);
      hide S.Inv, Told, D.Inv, Enabled, StepOf, S.Apply, S.Enabled, Obeys, Dozing, S.Disciplined, CallAfter;
      ObeysIsDisciplined(l.s, l.dozing, step);
      S.ApplyKeeps(l.s, step);
      StepTold(l.s, l.dozing, step);
    }
  }

  /** A waiter list after a wait or a notify. */
  lemma WaitersMove(q: Q.Sem, f: S.Fiber, me: S.Fiber)
    ensures multiset(q.Wait(f).0.waiters)[me] == multiset(q.waiters)[me] + if !q.Wait(f).1 && f == me then 1 else 0
    ensures multiset(q.Notify().0.waiters)[me] == multiset(q.waiters)[me] - if q.Notify().1 == Some(me) then 1 else 0
  {
    if q.waiters != [] {
      assert q.waiters == [q.waiters[0]] + q.waiters[1..];
    }
  }

  lemma SemKept(l: Life, a: Act, me: S.Fiber, j: nat)
    requires Inv(l, me) && Enabled(l, a, me) && j in SemsAfter(l, a, me)
    ensures multiset(SemsAfter(l, a, me)[j].waiters)[me] == if AtAfter(l, a, me) == Some(j) then 1 else 0
  {
    hide S.Inv, Told, D.Inv, D.Enabled, S.Enabled, Next, Elsewhen, Goes, IsOn;
    if a.Wait? {
      GoesFree(l, a.w, me);
    } else if a.Notify? && l.sems[a.j].Notify().1 == Some(me) {
      NotifiedWaits(l, a.j, me);
    }
    assert j in l.sems;
    WaitersMove(l.sems[j], if a.OtherWait? then a.f else me, me);
  }

  lemma SemsKept(l: Life, a: Act, me: S.Fiber)
    requires Inv(l, me) && Enabled(l, a, me)
    ensures SemsOk(Apply(l, a, me), me)
  {
    hide Inv, Enabled, CallAfter, StepOf, S.Enabled, SemsAfter, AtAfter, S.Apply, Dozing;
    forall j | j in SemsAfter(l, a, me)
      ensures multiset(SemsAfter(l, a, me)[j].waiters)[me] == if AtAfter(l, a, me) == Some(j) then 1 else 0
    {
      SemKept(l, a, me, j);
    }
  }

  /** The count of registrations after a step. */
  lemma ParkedKept(l: Life, a: Act, me: S.Fiber)
    requires Inv(l, me) && Enabled(l, a, me)
    ensures
      var m := Apply(l, a, me);
      m.s.parked[me] == (if IsOn(m) then 1 else 0) + (if m.at.Some? then 1 else 0)
  {
    hide S.Inv, Told, D.Inv, D.Enabled, S.Enabled, S.Apply, Count, SemsOk, D.Apply, SemsAfter, Dozing;
    if StepOf(l, a, me).Some? {
      StepAllowed(l, a, me);
      ParkedMoves(l.s, StepOf(l, a, me).value, me);
    }
    match a {
      case InCall(_, act) =>
        InCallEnabled(l, a, me);
        CallMoves(l.c, act, Me(l, me));
      case NextCall(w, _, _) => GoesFree(l, w, me);
      case Wait(w, _) => GoesFree(l, w, me);
      case Outside(act, _) => CallMoves(l.c, act, Me(l, me));
      case Notify(j, _) =>
        if l.sems[j].Notify().1 == Some(me) {
          NotifiedWaits(l, j, me);
        }
      case _ =>
    }
  }

  lemma WaitKept(l: Life, a: Act, me: S.Fiber)
    requires Inv(l, me) && Enabled(l, a, me)
    ensures
      var m := Apply(l, a, me);
      m.at.Some? ==> m.c.phase.Returned? && m.at.value in m.sems
  {
    hide S.Inv, Told, D.Inv, D.Enabled, S.Enabled, S.Apply, Count, SemsOk, D.Apply, StepOf;
    match a {
      case InCall(w, _) => GoesFree(l, w, me);
      case NextCall(w, _, _) => GoesFree(l, w, me);
      case Outside(act, _) => OutsidePhase(l.c, act, Me(l, me));
      case _ =>
    }
  }

  /** Every step keeps the fiber's books and the scheduler's, and every step of the
      scheduler that it takes is disciplined. */
  lemma ApplyKeeps(l: Life, a: Act, me: S.Fiber)
    requires Inv(l, me) && Enabled(l, a, me)
    ensures Inv(Apply(l, a, me), me)
    ensures StepOf(l, a, me).Some? ==>
              S.Enabled(l.s, StepOf(l, a, me).value) && S.Disciplined(l.s, StepOf(l, a, me).value)
  {
    if StepOf(l, a, me).Some? {
      StepAllowed(l, a, me);
    }
    SchedulerKept(l, a, me);
    CallKept(l, a, me);
    ParkedKept(l, a, me);
    WaitKept(l, a, me);
    SemsKept(l, a, me);
    hide S.Inv, Told, D.Inv, Enabled, StepOf, S.Apply, S.Enabled, S.Disciplined, CallAfter, SemsOk, SemsAfter, AtAfter;
  }

  // ------------------------------------------------------------------ whole runs

  ghost predicate Run(l: Life, acts: seq<Act>, me: S.Fiber)
    requires Inv(l, me)
    decreases |acts|
  {
    acts == [] ||
    (Enabled(l, acts[0], me) && (ApplyKeeps(l, acts[0], me); Run(Apply(l, acts[0], me), acts[1..], me)))
  }

  ghost function After(l: Life, acts: seq<Act>, me: S.Fiber): Life
    requires Inv(l, me) && Run(l, acts, me)
    decreases |acts|
  {
    if acts == [] then l
    else
      ApplyKeeps(l, acts[0], me);
      After(Apply(l, acts[0], me), acts[1..], me)
  }

  /** The steps of the scheduler in a run. */
  ghost function Trace(l: Life, acts: seq<Act>, me: S.Fiber): seq<S.Step>
    requires Inv(l, me) && Run(l, acts, me)
    decreases |acts|
  {
    if acts == [] then []
    else
      ApplyKeeps(l, acts[0], me);
      var rest := Trace(Apply(l, acts[0], me), acts[1..], me);
      match StepOf(l, acts[0], me)
      case None => rest
      case Some(step) => [step] + rest
  }

  /** However its calls of do_io and its waits on semaphores, their timers, everyone
      else and all workers interleave: what the scheduler sees is a disciplined run. */
  lemma {:induction false} TraceDisciplined(l: Life, acts: seq<Act>, me: S.Fiber)
    requires Inv(l, me) && Run(l, acts, me)
    ensures Inv(After(l, acts, me), me)
    ensures
      var steps := Trace(l, acts, me);
      && S.Run(l.s, steps) && S.DisciplinedRun(l.s, steps)
      && S.After(l.s, steps) == After(l, acts, me).s
    decreases |acts|
  {
    if acts != [] {
      hide Inv, Enabled, StepOf, S.Apply, S.Enabled, S.Disciplined, CallAfter, SemsAfter, AtAfter, Dozing;
      ApplyKeeps(l, acts[0], me);
      var m := Apply(l, acts[0], me);
      TraceDisciplined(m, acts[1..], me);
      if StepOf(l, acts[0], me).Some? {
        assert ([StepOf(l, acts[0], me).value] + Trace(m, acts[1..], me))[1..] == Trace(m, acts[1..], me);
      }
    }
  }

  /** A fiber that waits nowhere, at the beginning of a call of do_io; everyone else
      may be anywhere. */
  ghost predicate Begins(l: Life, me: S.Fiber) {
    && S.Inv(l.s) && Told(l.s, l.dozing) && D.Initial(l.c, Me(l, me))
    && l.s.parked[me] == 0 && l.at.None? && forall j :: j in l.sems ==> me !in l.sems[j].waiters
  }

  /** For example, the only fiber of a new scheduler. */
  lemma LaunchedBegins(s: S.State, key: R.Key, c: D.System)
    requires S.Initial(s) && 0 in s.workers && D.Initial(c, D.Who(7, key))
    ensures
      var l := Life(S.Launched(s), {}, key, c, map[], None);
      Begins(l, 7) && Goes(l, 0, 7)
  {
    hide D.Initial, S.Run, S.After, S.Inv;
    S.InitialInv(s);
    S.LaunchRuns(s);
    C.LaunchDisciplined(s);
    S.RunKeepsInv(s, S.Launch);
  }

  lemma BeginsInv(l: Life, me: S.Fiber)
    requires Begins(l, me)
    ensures Inv(l, me)
  {
    D.InitialInv(l.c, Me(l, me));
    hide S.Inv, Told, D.Inv;
  }

  ghost predicate RunFrom(l: Life, acts: seq<Act>, me: S.Fiber)
    requires Begins(l, me)
  {
    BeginsInv(l, me);
    Run(l, acts, me)
  }

  ghost function AfterFrom(l: Life, acts: seq<Act>, me: S.Fiber): Life
    requires Begins(l, me) && RunFrom(l, acts, me)
  {
    BeginsInv(l, me);
    After(l, acts, me)
  }

  /** A fiber that suspends itself only in do_io and in wait: at most one worker has
      it in its hands; whenever it registers, for an event or with a semaphore, no
      wake-up of it is outstanding; and whenever it goes on after the suspension in
      do_io, its registration has ended and has queued it once. */
  lemma SuspendsSafely(l: Life, acts: seq<Act>, me: S.Fiber, w: S.Thread, v: S.Thread)
    requires Begins(l, me) && RunFrom(l, acts, me)
    requires
      var m := AfterFrom(l, acts, me);
      w in m.s.workers && v in m.s.workers && S.Owns(m.s.workers[w].pc, me)
    ensures
      var m := AfterFrom(l, acts, me);
      && (S.Owns(m.s.workers[v].pc, me) ==> v == w)
      && (Goes(m, w, me) ==> S.WakeUps(m.s, me) == 0)
      && (Goes(m, w, me) && m.c.phase.Waiting? ==>
            !IsOn(m) && Count(m.c.events.scheduled, me) == m.c.resumed + 1 == m.c.suspended)
  {
    BeginsInv(l, me);
    hide Run, After, Begins;
    TraceDisciplined(l, acts, me);
    var m := AfterFrom(l, acts, me);
    OneOwner(m, me, w, v);
    if Goes(m, w, me) {
      GoesFree(m, w, me);
      if m.c.phase.Waiting? {
        WaitOver(m, w, me);
      }
    }
  }

  lemma OneOwner(l: Life, me: S.Fiber, w: S.Thread, v: S.Thread)
    requires Inv(l, me) && w in l.s.workers && v in l.s.workers && S.Owns(l.s.workers[w].pc, me)
    ensures S.Owns(l.s.workers[v].pc, me) ==> v == w
  {
    hide S.Inv, Told, D.Inv, S.WakeUps;
    S.OnlyUser(l.s, w, me);
    assert S.Owns(l.s.workers[v].pc, me) ==> S.Uses(l.s.workers[v], me);
  }

  lemma WaitOver(l: Life, w: S.Thread, me: S.Fiber)
    requires Inv(l, me) && Goes(l, w, me) && l.c.phase.Waiting?
    ensures Count(l.c.events.scheduled, me) == l.c.resumed + 1 == l.c.suspended
  {
    GoesFree(l, w, me);
    Balance(l.c, Me(l, me));
    hide S.Inv, Told, D.Mine, P.Inv, Count, SemsOk;
  }
}
