/** One pass of Scheduler::run by one worker: what it does to the queue, the
    counter, the fiber states and the worker's cb_fiber, said without its
    steps, and that both the object and the state machine do just that. */
module SchedulerPasses {

  import opened Basics
  import opened Scheduler

  /** How the fiber comes back from swapIn. */
  datatype Outcome = Holds | Readies | Ends(thrown: bool)

  /** What a pass can change. */
  datatype View = View(queue: seq<Task>, active: int, fibers: map<Fiber, FiberState>, cbFiber: Option<Fiber>)

  /** The state in which a fiber is left. A finished cb_fiber is reset. */
  function Left(t: Task, o: Outcome): FiberState {
    match o
    case Holds => HOLD
    case Readies => READY
    case Ends(thrown) => if t.CbTask? then INIT else if thrown then EXCEPT else TERM
  }

  /** A callback runs in the worker's cb_fiber, or in a new fiber. */
  function RunsIn(v: View, t: Task, spare: Fiber): Fiber {
    if t.FiberTask? then t.fiber else if v.cbFiber.Some? then v.cbFiber.value else spare
  }

  /** A pass takes the first task the worker may run, leaves the others in
      their order, and ends with the counter where it was. A fiber that is over
      is dropped. Any other one is left in its new state, behind all other tasks
      if it is READY. The worker keeps a cb_fiber that finished and gives up one
      that goes on living. */
  ghost predicate Passed(v: View, u: View, w: Thread, spare: Fiber, o: Outcome) {
    var k := FirstEligible(v.queue, v.fibers, w);
    if k == |v.queue| then u == v
    else
      var t := v.queue[k];
      var f := RunsIn(v, t, spare);
      var rest := v.queue[..k] + v.queue[k + 1..];
      if t.FiberTask? && f in v.fibers && Over(v.fibers[f]) then u == v.(queue := rest)
      else
        && u.active == v.active
        && u.queue == rest + (if o.Readies? then [FiberTask(f, -1)] else [])
        && u.fibers == v.fibers[f := Left(t, o)]
        && u.cbFiber == (if t.FiberTask? then v.cbFiber else if o.Ends? then Some(f) else None)
  }

  predicate TasksKnown(queue: seq<Task>, fibers: map<Fiber, FiberState>) {
    forall i :: 0 <= i < |queue| && queue[i].FiberTask? ==> queue[i].fiber in fibers
  }

  // ------------------------------------------------------------------ objects

  class TaskScheduler {
    var states: map<Fiber, FiberState>
    var tasks: seq<Task>
    var activeThreadCount: int

    constructor ()
      ensures states == map[] && tasks == [] && activeThreadCount == 0
    {
      states, tasks, activeThreadCount := map[], [], 0;
    }

    /** scheduleNoLock: the answer is whether a worker has to be woken. */
    method ScheduleNoLock(t: Task) returns (needTickle: bool)
      modifies this`tasks
      ensures tasks == old(tasks) + [t]
      ensures needTickle <==> old(tasks) == []
    {
      needTickle := tasks == [];
      tasks := tasks + [t];
    }

    /** swapIn, up to the moment in which the fiber swaps out again. */
    method SwapIn(f: Fiber, o: Outcome)
      modifies this`states
      ensures states == old(states)[f := match o case Holds => EXEC case Readies => READY
                                           case Ends(thrown) => if thrown then EXCEPT else TERM]
    {
      states := states[f := EXEC];
      match o
      case Holds =>
      case Readies => states := states[f := READY];
      case Ends(thrown) => states := states[f := if thrown then EXCEPT else TERM];
    }

    method RunFiberTask(f: Fiber, o: Outcome)
      modifies this
      ensures tasks == old(tasks) + (if o.Readies? then [FiberTask(f, -1)] else [])
      ensures activeThreadCount == old(activeThreadCount) - 1
      ensures states == old(states)[f := Left(FiberTask(f, -1), o)]
    {
      SwapIn(f, o);
      activeThreadCount := activeThreadCount - 1;
      if states[f] == READY {
        var _ := ScheduleNoLock(FiberTask(f, -1));
      } else if states[f] != TERM && states[f] != EXCEPT {
        states := states[f := HOLD];
      }
    }

    method RunCallback(cb: Callback, cbFiber: Option<Fiber>, spare: Fiber, o: Outcome) returns (kept: Option<Fiber>)
      modifies this
      ensures
        var f := if cbFiber.Some? then cbFiber.value else spare;
        && tasks == old(tasks) + (if o.Readies? then [FiberTask(f, -1)] else [])
        && activeThreadCount == old(activeThreadCount) - 1
        && states == old(states)[f := Left(CbTask(cb, -1), o)]
        && kept == if o.Ends? then Some(f) else None
    {
      var f := if cbFiber.Some? then cbFiber.value else spare;
      states := states[f := INIT];
      SwapIn(f, o);
      activeThreadCount := activeThreadCount - 1;
      if states[f] == READY {
        var _ := ScheduleNoLock(FiberTask(f, -1));
        kept := None;
      } else if states[f] == TERM || states[f] == EXCEPT {
        states := states[f := INIT];
        kept := Some(f);
      } else {
        states := states[f := HOLD];
        kept := None;
      }
    }

    /** The scan under the lock. */
    method TakeTask(w: Thread) returns (ft: Option<Task>, tickleMe: bool)
      modifies this
      ensures states == old(states)
      ensures
        var k := FirstEligible(old(tasks), old(states), w);
        && (k == |old(tasks)| ==>
              ft.None? && tasks == old(tasks) && activeThreadCount == old(activeThreadCount))
        && (k < |old(tasks)| ==>
              && ft == Some(old(tasks)[k]) && tasks == old(tasks)[..k] + old(tasks)[k + 1..]
              && activeThreadCount == old(activeThreadCount) + 1)
        && (tickleMe <==>
              || (exists i :: 0 <= i < k && old(tasks)[i].thread != -1 && old(tasks)[i].thread != w)
              || k + 1 < |old(tasks)|)
    {
      hide FirstEligible, Eligible;
      var k;
      k, tickleMe := Scan(tasks, states, w);
      if k == |tasks| {
        return None, tickleMe;
      }
      ft := Some(tasks[k]);
      tasks := tasks[..k] + tasks[k + 1..];
      activeThreadCount := activeThreadCount + 1;
    }

    /** The body of the loop of run() up to the idle fiber, for both kinds of
        task and every way in which a fiber can come back. */
    method Pass(w: Thread, cbFiber: Option<Fiber>, spare: Fiber, o: Outcome)
      returns (kept: Option<Fiber>, tickleMe: bool)
      requires TasksKnown(tasks, states)
      modifies this
      ensures Passed(old(View(tasks, activeThreadCount, states, cbFiber)),
                     View(tasks, activeThreadCount, states, kept), w, spare, o)
    {
      hide FirstEligible, Left;
      var ft;
      ft, tickleMe := TakeTask(w);
      kept := cbFiber;
      match ft {
        case None =>
        case Some(FiberTask(f, _)) =>
          if states[f] != TERM && states[f] != EXCEPT {
            RunFiberTask(f, o);
            assert Left(FiberTask(f, -1), o) == Left(ft.value, o) by { LeftSame(FiberTask(f, -1), ft.value, o); }
          } else {
            activeThreadCount := activeThreadCount - 1;
          }
        case Some(CbTask(cb, _)) =>
          kept := RunCallback(cb, cbFiber, spare, o);
          assert Left(CbTask(cb, -1), o) == Left(ft.value, o) by { LeftSame(CbTask(cb, -1), ft.value, o); }
      }
    }
  }

  lemma LeftSame(t: Task, u: Task, o: Outcome)
    requires t.CbTask? <==> u.CbTask?
    ensures Left(t, o) == Left(u, o)
  {
  }

  // ------------------------------------------------------------ state machine

  lemma RunStep(s: State, a: seq<Step>, step: Step)
    requires Run(s, a) && Enabled(After(s, a), step)
    ensures Run(s, a + [step]) && After(s, a + [step]) == Apply(After(s, a), step)
  {
    hide Enabled, Apply;
    OneStep(After(s, a), step);
    RunAppend(s, a, [step]);
  }

  function BackStep(w: Thread, o: Outcome): Step {
    match o
    case Holds => YieldHold(w)
    case Readies => YieldReady(w)
    case Ends(thrown) => Finish(w, thrown)
  }

  /** From a running fiber to the next scan. */
  function BackSteps(w: Thread, o: Outcome): seq<Step> {
    [BackStep(w, o)] + [Leave(w)] + [Settle(w)]
  }

  function PassSteps(s: State, w: Thread, spare: Fiber, o: Outcome): seq<Step> {
    var k := FirstEligible(s.queue, s.fibers, w);
    if k == |s.queue| then []
    else match s.queue[k]
      case FiberTask(f, _) =>
        if f in s.fibers && Over(s.fibers[f]) then [Take(w)] + [Drop(w)]
        else [Take(w)] + [Enter(w)] + BackSteps(w, o)
      case CbTask(_, _) => [Take(w)] + [Prepare(w, spare)] + [EnterCb(w)] + BackSteps(w, o)
  }

  ghost function ViewOf(s: State, w: Thread): View
    requires w in s.workers
  {
    View(s.queue, s.active, s.fibers, s.workers[w].cache)
  }

  /** Everything a pass of worker w leaves alone. */
  ghost predicate Aside(s: State, t: State, w: Thread) {
    && w in t.workers && t.workers.Keys == s.workers.Keys
    && (forall v :: v in s.workers && v != w ==> t.workers[v] == s.workers[v])
    && t.parked == s.parked && t.autoStop == s.autoStop && t.stop == s.stop && t.submitted == s.submitted
  }

  lemma AsideTrans(s: State, r: State, t: State, w: Thread)
    requires w in s.workers && Aside(s, r, w) && Aside(r, t, w)
    ensures Aside(s, t, w)
  {
  }

  /** The fiber has come back but is not yet settled. */
  function Back(s: State, w: Thread, f: Fiber, via: bool, o: Outcome): State
    requires w in s.workers
  {
    Goto(s, w, Returned(f, via)).(
      fibers := s.fibers[f := match o case Holds => EXEC case Readies => READY
                                case Ends(thrown) => if thrown then EXCEPT else TERM])
  }

  lemma BackStepGives(s: State, w: Thread, f: Fiber, via: bool, o: Outcome)
    requires w in s.workers && s.workers[w].pc == Running(f, via) && f in s.fibers && s.fibers[f] == EXEC
    ensures Enabled(s, BackStep(w, o)) && Apply(s, BackStep(w, o)) == Back(s, w, f, via, o)
  {
    assert s.fibers[f := EXEC] == s.fibers;
  }

  lemma LeaveGives(s: State, w: Thread, f: Fiber, via: bool)
    requires w in s.workers && s.workers[w].pc == Returned(f, via)
    ensures Enabled(s, Leave(w)) && Apply(s, Leave(w)) == Goto(s, w, Settling(f, via)).(active := s.active - 1)
  {
  }

  lemma SettleGives(s: State, w: Thread, f: Fiber, via: bool)
    requires w in s.workers && s.workers[w].pc == Settling(f, via) && f in s.fibers
    ensures Enabled(s, Settle(w)) && Apply(s, Settle(w)) == Settled(s, w)
  {
  }

  /** What settling does, by the way in which the fiber came back. */
  lemma SettledGives(s: State, w: Thread, f: Fiber, via: bool, o: Outcome)
    requires w in s.workers && s.workers[w].pc == Settling(f, via) && f in s.fibers
    requires s.fibers[f] == match o case Holds => EXEC case Readies => READY
                              case Ends(thrown) => if thrown then EXCEPT else TERM
    ensures
      var t := Settled(s, w);
      && w in t.workers && Aside(s, t, w) && t.active == s.active
      && t.workers[w] == Worker(Scanning, if via && !o.Ends? then None else s.workers[w].cache)
      && t.queue == s.queue + (if o.Readies? then [FiberTask(f, -1)] else [])
      && t.fibers == s.fibers[f := Left(if via then CbTask(0, -1) else FiberTask(f, -1), o)]
  {
    assert s.fibers[f := s.fibers[f]] == s.fibers;
  }

  lemma BackRuns(s: State, w: Thread, f: Fiber, via: bool, o: Outcome)
    requires w in s.workers && s.workers[w].pc == Running(f, via) && f in s.fibers && s.fibers[f] == EXEC
    ensures Run(s, BackSteps(w, o))
    ensures
      var t := After(s, BackSteps(w, o));
      && w in t.workers && Aside(s, t, w) && t.active == s.active - 1
      && t.workers[w] == Worker(Scanning, if via && !o.Ends? then None else s.workers[w].cache)
      && t.queue == s.queue + (if o.Readies? then [FiberTask(f, -1)] else [])
      && t.fibers == s.fibers[f := Left(if via then CbTask(0, -1) else FiberTask(f, -1), o)]
  {
    hide Run, After, Apply, Enabled, Settled;
    BackStepGives(s, w, f, via, o);
    var s1 := Back(s, w, f, via, o);
    OneStep(s, BackStep(w, o));
    LeaveGives(s1, w, f, via);
    var s2 := Goto(s1, w, Settling(f, via)).(active := s1.active - 1);
    RunStep(s, [BackStep(w, o)], Leave(w));
    SettleGives(s2, w, f, via);
    SettledGives(s2, w, f, via, o);
    RunStep(s, [BackStep(w, o)] + [Leave(w)], Settle(w));
  }

  lemma TakeGives(s: State, w: Thread)
    requires w in s.workers && s.workers[w].pc.Scanning? && FirstEligible(s.queue, s.fibers, w) < |s.queue|
    ensures
      var k := FirstEligible(s.queue, s.fibers, w);
      && Enabled(s, Take(w))
      && Apply(s, Take(w)) ==
         Goto(s, w, Holding(s.queue[k])).(queue := s.queue[..k] + s.queue[k + 1..], active := s.active + 1)
  {
    hide FirstEligible;
  }

  lemma EnterGives(s: State, w: Thread, f: Fiber, thread: int)
    requires w in s.workers && s.workers[w].pc == Holding(FiberTask(f, thread)) && f in s.fibers && !Over(s.fibers[f])
    ensures Enabled(s, Enter(w))
    ensures Apply(s, Enter(w)) == Goto(s, w, Running(f, false)).(fibers := s.fibers[f := EXEC])
  {
  }

  /** The first half of a pass over a fiber. */
  lemma FiberBegins(s: State, w: Thread)
    requires w in s.workers && s.workers[w].pc.Scanning? && TasksKnown(s.queue, s.fibers)
    requires
      var k := FirstEligible(s.queue, s.fibers, w);
      k < |s.queue| && s.queue[k].FiberTask? && !Over(s.fibers[s.queue[k].fiber])
    ensures Run(s, [Take(w)] + [Enter(w)])
    ensures
      var k := FirstEligible(s.queue, s.fibers, w);
      var f := s.queue[k].fiber;
      var t := After(s, [Take(w)] + [Enter(w)]);
      && w in t.workers && Aside(s, t, w) && t.active == s.active + 1 && t.fibers == s.fibers[f := EXEC]
      && t.workers[w] == Worker(Running(f, false), s.workers[w].cache)
      && t.queue == s.queue[..k] + s.queue[k + 1..]
  {
    hide Run, After, FirstEligible, Apply, Enabled;
    var k := FirstEligible(s.queue, s.fibers, w);
    TakeGives(s, w);
    OneStep(s, Take(w));
    EnterGives(Apply(s, Take(w)), w, s.queue[k].fiber, s.queue[k].thread);
    RunStep(s, [Take(w)], Enter(w));
  }

  lemma FiberPassRuns(s: State, w: Thread, spare: Fiber, o: Outcome)
    requires w in s.workers && s.workers[w].pc.Scanning? && TasksKnown(s.queue, s.fibers)
    requires
      var k := FirstEligible(s.queue, s.fibers, w);
      k < |s.queue| && s.queue[k].FiberTask? && !Over(s.fibers[s.queue[k].fiber])
    ensures Run(s, PassSteps(s, w, spare, o))
    ensures
      var t := After(s, PassSteps(s, w, spare, o));
      w in t.workers && Aside(s, t, w) && t.workers[w].pc.Scanning? && Passed(ViewOf(s, w), ViewOf(t, w), w, spare, o)
  {
    hide Run, After, FirstEligible, Left, Apply, Enabled, Aside;
    var k := FirstEligible(s.queue, s.fibers, w);
    var f := s.queue[k].fiber;
    FiberBegins(s, w);
    BackRuns(After(s, [Take(w)] + [Enter(w)]), w, f, false, o);
    RunAppend(s, [Take(w)] + [Enter(w)], BackSteps(w, o));
    assert [Take(w)] + [Enter(w)] + BackSteps(w, o) == PassSteps(s, w, spare, o);
    LeftSame(FiberTask(f, -1), s.queue[k], o);
    AsideTrans(s, After(s, [Take(w)] + [Enter(w)]), After(s, PassSteps(s, w, spare, o)), w);
  }

  lemma PrepareGives(s: State, w: Thread, cb: Callback, thread: int, spare: Fiber)
    requires w in s.workers && s.workers[w].pc == Holding(CbTask(cb, thread)) && spare !in s.fibers
    ensures Enabled(s, Prepare(w, spare))
    ensures
      var f := if s.workers[w].cache.Some? then s.workers[w].cache.value else spare;
      Apply(s, Prepare(w, spare)) ==
      s.(workers := s.workers[w := Worker(Entering(f), Some(f))], fibers := s.fibers[f := INIT],
         started := s.started + {cb})
  {
  }

  lemma EnterCbGives(s: State, w: Thread, f: Fiber)
    requires w in s.workers && s.workers[w].pc == Entering(f)
    ensures Enabled(s, EnterCb(w))
    ensures Apply(s, EnterCb(w)) == Goto(s, w, Running(f, true)).(fibers := s.fibers[f := EXEC])
  {
  }

  lemma CallbackEnters(s: State, w: Thread, cb: Callback, thread: int, spare: Fiber)
    requires w in s.workers && s.workers[w].pc == Holding(CbTask(cb, thread)) && spare !in s.fibers
    ensures Run(s, [Prepare(w, spare)] + [EnterCb(w)])
    ensures
      var f := if s.workers[w].cache.Some? then s.workers[w].cache.value else spare;
      After(s, [Prepare(w, spare)] + [EnterCb(w)]) ==
      s.(workers := s.workers[w := Worker(Running(f, true), Some(f))], fibers := s.fibers[f := EXEC],
         started := s.started + {cb})
  {
    hide Run, After, Apply, Enabled;
    PrepareGives(s, w, cb, thread, spare);
    OneStep(s, Prepare(w, spare));
    EnterCbGives(Apply(s, Prepare(w, spare)), w, if s.workers[w].cache.Some? then s.workers[w].cache.value else spare);
    RunStep(s, [Prepare(w, spare)], EnterCb(w));
  }

  /** The first half of a pass over a callback. */
  lemma CallbackBegins(s: State, w: Thread, spare: Fiber)
    requires w in s.workers && s.workers[w].pc.Scanning? && spare !in s.fibers
    requires
      var k := FirstEligible(s.queue, s.fibers, w);
      k < |s.queue| && s.queue[k].CbTask?
    ensures Run(s, [Take(w)] + [Prepare(w, spare)] + [EnterCb(w)])
    ensures
      var k := FirstEligible(s.queue, s.fibers, w);
      var f := if s.workers[w].cache.Some? then s.workers[w].cache.value else spare;
      var t := After(s, [Take(w)] + [Prepare(w, spare)] + [EnterCb(w)]);
      && w in t.workers && Aside(s, t, w) && t.active == s.active + 1 && t.fibers == s.fibers[f := EXEC]
      && t.workers[w] == Worker(Running(f, true), Some(f))
      && t.queue == s.queue[..k] + s.queue[k + 1..]
  {
    hide Run, After, FirstEligible, Apply, Enabled;
    var k := FirstEligible(s.queue, s.fibers, w);
    TakeGives(s, w);
    OneStep(s, Take(w));
    CallbackEnters(Apply(s, Take(w)), w, s.queue[k].cb, s.queue[k].thread, spare);
    RunAppend(s, [Take(w)], [Prepare(w, spare)] + [EnterCb(w)]);
    assert [Take(w)] + ([Prepare(w, spare)] + [EnterCb(w)]) == [Take(w)] + [Prepare(w, spare)] + [EnterCb(w)];
  }

  lemma CallbackPassRuns(s: State, w: Thread, spare: Fiber, o: Outcome)
    requires w in s.workers && s.workers[w].pc.Scanning? && spare !in s.fibers
    requires
      var k := FirstEligible(s.queue, s.fibers, w);
      k < |s.queue| && s.queue[k].CbTask?
    ensures Run(s, PassSteps(s, w, spare, o))
    ensures
      var t := After(s, PassSteps(s, w, spare, o));
      w in t.workers && Aside(s, t, w) && t.workers[w].pc.Scanning? && Passed(ViewOf(s, w), ViewOf(t, w), w, spare, o)
  {
    hide Run, After, FirstEligible, Left, Apply, Enabled, Aside;
    var k := FirstEligible(s.queue, s.fibers, w);
    var begin := [Take(w)] + [Prepare(w, spare)] + [EnterCb(w)];
    CallbackBegins(s, w, spare);
    BackRuns(After(s, begin), w, RunsIn(ViewOf(s, w), s.queue[k], spare), true, o);
    RunAppend(s, begin, BackSteps(w, o));
    assert begin + BackSteps(w, o) == PassSteps(s, w, spare, o);
    LeftSame(CbTask(0, -1), s.queue[k], o);
    AsideTrans(s, After(s, begin), After(s, PassSteps(s, w, spare, o)), w);
  }

  lemma DropGives(s: State, w: Thread, f: Fiber, thread: int)
    requires w in s.workers && s.workers[w].pc == Holding(FiberTask(f, thread)) && f in s.fibers && Over(s.fibers[f])
    ensures Enabled(s, Drop(w)) && Apply(s, Drop(w)) == Goto(s, w, Scanning).(active := s.active - 1)
  {
  }

  lemma DropPassRuns(s: State, w: Thread, spare: Fiber, o: Outcome)
    requires w in s.workers && s.workers[w].pc.Scanning? && TasksKnown(s.queue, s.fibers)
    requires
      var k := FirstEligible(s.queue, s.fibers, w);
      k < |s.queue| && s.queue[k].FiberTask? && Over(s.fibers[s.queue[k].fiber])
    ensures Run(s, PassSteps(s, w, spare, o))
    ensures
      var t := After(s, PassSteps(s, w, spare, o));
      w in t.workers && Aside(s, t, w) && t.workers[w].pc.Scanning? && Passed(ViewOf(s, w), ViewOf(t, w), w, spare, o)
  {
    hide Run, After, FirstEligible, Left, Apply, Enabled;
    TakeGives(s, w);
    OneStep(s, Take(w));
    var k := FirstEligible(s.queue, s.fibers, w);
    DropGives(Apply(s, Take(w)), w, s.queue[k].fiber, s.queue[k].thread);
    RunStep(s, [Take(w)], Drop(w));
  }

  /** In the state machine a worker that nobody disturbs makes exactly such a
      pass, and touches nothing else. */
  lemma PassIsRun(s: State, w: Thread, spare: Fiber, o: Outcome)
    requires w in s.workers && s.workers[w].pc.Scanning? && TasksKnown(s.queue, s.fibers) && spare !in s.fibers
    ensures Run(s, PassSteps(s, w, spare, o))
    ensures
      var t := After(s, PassSteps(s, w, spare, o));
      w in t.workers && Aside(s, t, w) && t.workers[w].pc.Scanning? && Passed(ViewOf(s, w), ViewOf(t, w), w, spare, o)
  {
    var k := FirstEligible(s.queue, s.fibers, w);
    hide FirstEligible;
    if k == |s.queue| {
      assert PassSteps(s, w, spare, o) == [];
    } else {
      hide Passed, PassSteps, Run, After;
      if s.queue[k].CbTask? {
        CallbackPassRuns(s, w, spare, o);
      } else if Over(s.fibers[s.queue[k].fiber]) {
        DropPassRuns(s, w, spare, o);
      } else {
        FiberPassRuns(s, w, spare, o);
      }
    }
  }
}
