/** The discipline of the clients, fiber by fiber: a rule that each fiber can keep
    by looking at its own program alone. */
module Sleepers {

  import opened Scheduler

  /** Worker w runs fiber f. */
  predicate Runs(s: State, w: Thread, f: Fiber) {
    PcOf(s, w).Running? && PcOf(s, w).fiber == f
  }

  /** A fiber that has registered for a wake-up does nothing but yield to hold: it
      does not register again, yield READY or end before it has been entered again. */
  predicate Obeys(s: State, dozing: set<Fiber>, step: Step) {
    step.Park? || step.YieldReady? || step.Finish? ==>
      PcOf(s, step.worker).Running? ==> PcOf(s, step.worker).fiber !in dozing
  }

  /** The fibers that have registered and have not been entered since. */
  function Dozing(s: State, dozing: set<Fiber>, step: Step): set<Fiber>
    requires Enabled(s, step)
  {
    match step
    case Park(w) => dozing + {PcOf(s, w).fiber}
    case Enter(w) => dozing - {PcOf(s, w).task.fiber}
    case EnterCb(w) => dozing - {PcOf(s, w).fiber}
    case _ => dozing
  }

  /** A running fiber has one wake-up outstanding if it has registered, and none
      otherwise. */
  ghost predicate Told(s: State, dozing: set<Fiber>) {
    forall w, f :: Runs(s, w, f) ==> WakeUps(s, f) == if f in dozing then 1 else 0
  }

  /** Under it the rule of the clients is the discipline. */
  lemma ObeysIsDisciplined(s: State, dozing: set<Fiber>, step: Step)
    requires Told(s, dozing) && Enabled(s, step)
    ensures Obeys(s, dozing, step) <==> Disciplined(s, step)
  {
    if step.Park? || step.YieldReady? || step.Finish? {
      hide WakeUps;
      assert Runs(s, step.worker, PcOf(s, step.worker).fiber);
    }
  }

  /** A running fiber is executing and in the hands of its worker only. */
  lemma RunsAlone(s: State, w: Thread, f: Fiber)
    requires Inv(s) && Runs(s, w, f)
    ensures w in s.workers && f in s.fibers && s.fibers[f] == EXEC
    ensures forall v :: v in s.workers && v != w ==> !Uses(s.workers[v], f)
  {
    hide Inv, WakeUps;
    OnlyUser(s, w, f);
  }

  lemma ScheduleStep(s: State, step: Step, v: Thread, g: Fiber)
    requires Inv(s) && Enabled(s, step) && Runs(s, v, g) && (step.Submit? || step.Spawn? || step.Wake?)
    ensures WakeUps(Apply(s, step), g) == WakeUps(s, g)
  {
    RunsAlone(s, v, g);
    hide Inv, Queued;
    var task := if step.Submit? then CbTask(step.cb, step.thread) else FiberTask(step.fiber, step.thread);
    QueuedAppend(s.queue, task, g);
  }

  lemma TakeStep(s: State, w: Thread, v: Thread, g: Fiber)
    requires Inv(s) && Enabled(s, Take(w)) && Runs(s, v, g)
    ensures WakeUps(Apply(s, Take(w)), g) == WakeUps(s, g)
  {
    RunsAlone(s, v, g);
    hide Inv, Queued, FirstEligible;
    QueuedRemove(s.queue, FirstEligible(s.queue, s.fibers, w), g);
  }

  lemma SettledQueue(s: State, w: Thread)
    requires Enabled(s, Settle(w))
    ensures
      var t := Apply(s, Settle(w));
      t.parked == s.parked && (t.queue == s.queue || t.queue == s.queue + [FiberTask(PcOf(s, w).fiber, -1)])
  {
  }

  lemma SettleStep(s: State, w: Thread, v: Thread, g: Fiber)
    requires Inv(s) && Enabled(s, Settle(w)) && Runs(s, v, g)
    ensures WakeUps(Apply(s, Settle(w)), g) == WakeUps(s, g)
  {
    RunsAlone(s, v, g);
    assert Uses(s.workers[w], PcOf(s, w).fiber);
    SettledQueue(s, w);
    hide Inv, Queued, Settled, Enabled, Uses;
    QueuedAppend(s.queue, FiberTask(PcOf(s, w).fiber, -1), g);
  }

  /** What is scheduled, woken, taken or settled leaves the wake-ups of a running
      fiber alone. */
  lemma QueueStep(s: State, step: Step, v: Thread, g: Fiber)
    requires Inv(s) && Enabled(s, step) && Runs(s, v, g)
    requires step.Submit? || step.Spawn? || step.Wake? || step.Take? || step.Settle?
    ensures WakeUps(Apply(s, step), g) == WakeUps(s, g)
  {
    hide Inv, Apply, Enabled, WakeUps, Runs;
    match step
    case Take(w) => TakeStep(s, w, v, g);
    case Settle(w) => SettleStep(s, w, v, g);
    case _ => ScheduleStep(s, step, v, g);
  }

  /** A fiber that keeps running. */
  lemma StillRuns(s: State, dozing: set<Fiber>, step: Step, v: Thread, g: Fiber)
    requires Inv(s) && Told(s, dozing) && Enabled(s, step) && Obeys(s, dozing, step)
    requires Runs(s, v, g) && Runs(Apply(s, step), v, g)
    ensures WakeUps(Apply(s, step), g) == if g in Dozing(s, dozing, step) then 1 else 0
  {
    hide Inv;
    RunsAlone(s, v, g);
    if step.Submit? || step.Spawn? || step.Wake? || step.Take? || step.Settle? {
      QueueStep(s, step, v, g);
    } else {
      hide Queued;
      if step.Enter? || step.EnterCb? || (step.Park? && step.worker != v) {
        var w := step.worker;
        assert Uses(s.workers[w], if step.Enter? then PcOf(s, w).task.fiber else PcOf(s, w).fiber);
      }
    }
  }

  /** A fiber that is entered has no wake-up left. */
  lemma BeginsToRun(s: State, step: Step, v: Thread, g: Fiber)
    requires Inv(s) && Enabled(s, step) && !Runs(s, v, g) && Runs(Apply(s, step), v, g)
    ensures step.Enter? || step.EnterCb?
    ensures WakeUps(Apply(s, step), g) == 0 && forall dozing :: g !in Dozing(s, dozing, step)
  {
    hide Inv, Queued, FirstEligible;
    assert (step.Enter? || step.EnterCb?) && step.worker == v;
    OnlyUser(s, v, g);
  }

  lemma StepTold(s: State, dozing: set<Fiber>, step: Step)
    requires Inv(s) && Told(s, dozing) && Enabled(s, step) && Obeys(s, dozing, step)
    ensures Told(Apply(s, step), Dozing(s, dozing, step))
  {
    forall v, g | Runs(Apply(s, step), v, g)
      ensures WakeUps(Apply(s, step), g) == if g in Dozing(s, dozing, step) then 1 else 0
    {
      hide Inv, Apply, Enabled, Dozing, WakeUps, Told, Obeys;
      if Runs(s, v, g) {
        StillRuns(s, dozing, step, v, g);
      } else {
        BeginsToRun(s, step, v, g);
      }
    }
  }

  // ------------------------------------------------------------------ whole runs

  /** A run in which every fiber obeys. */
  ghost predicate ObeyingRun(s: State, dozing: set<Fiber>, steps: seq<Step>)
    requires Run(s, steps)
    decreases |steps|
  {
    steps == [] ||
    (Obeys(s, dozing, steps[0]) && ObeyingRun(Apply(s, steps[0]), Dozing(s, dozing, steps[0]), steps[1..]))
  }

  /** The rule of the fibers and the discipline of the scheduler allow the same runs. */
  lemma {:induction false} ObeyingIsDisciplined(s: State, dozing: set<Fiber>, steps: seq<Step>)
    requires Inv(s) && Told(s, dozing) && Run(s, steps)
    ensures ObeyingRun(s, dozing, steps) <==> DisciplinedRun(s, steps)
    decreases |steps|
  {
    if steps != [] {
      ObeysIsDisciplined(s, dozing, steps[0]);
      hide Inv, Apply, Enabled, Dozing, Told, Obeys, Disciplined;
      if Disciplined(s, steps[0]) {
        ApplyKeeps(s, steps[0]);
        StepTold(s, dozing, steps[0]);
        ObeyingIsDisciplined(Apply(s, steps[0]), Dozing(s, dozing, steps[0]), steps[1..]);
      }
    }
  }

  /** If every fiber keeps to the rule, no fiber ever has two owners. */
  lemma ObedientFibersRunAlone(s: State, steps: seq<Step>, f: Fiber, w: Thread, v: Thread)
    requires Initial(s) && Run(s, steps) && ObeyingRun(s, {}, steps)
    requires
      var t := After(s, steps);
      w in t.workers && v in t.workers && Owns(t.workers[w].pc, f) && Owns(t.workers[v].pc, f)
    ensures w == v
  {
    InitialInv(s);
    hide Run, After, Inv, DisciplinedRun, ObeyingRun;
    ObeyingIsDisciplined(s, {}, steps);
    ExclusiveExecution(s, steps, f, w, v);
  }
}
