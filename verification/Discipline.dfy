/** What clients must do for a fiber never to have two owners, exactly. */
module Discipline {

  import opened Basics
  import opened Scheduler
  import opened SchedulerPasses

  predicate IsFor(t: Task, f: Fiber) {
    t.FiberTask? && t.fiber == f
  }

  predicate NoneFor(queue: seq<Task>, f: Fiber) {
    forall i :: 0 <= i < |queue| ==> !IsFor(queue[i], f)
  }

  predicate TwoOwners(s: State, f: Fiber) {
    exists w, v :: w in s.workers && v in s.workers && w != v && Owns(s.workers[w].pc, f) && Owns(s.workers[v].pc, f)
  }

  /** Steps that no client has to think about. */
  ghost predicate Calm(steps: seq<Step>) {
    forall i :: 0 <= i < |steps| ==> !steps[i].Park? && !steps[i].YieldReady? && !steps[i].Finish?
  }

  lemma {:induction false} CalmDisciplined(s: State, steps: seq<Step>)
    requires Run(s, steps) && Calm(steps)
    ensures DisciplinedRun(s, steps)
    decreases |steps|
  {
    if steps != [] {
      hide Apply, Enabled;
      assert !steps[0].Park?;
      CalmDisciplined(Apply(s, steps[0]), steps[1..]);
    }
  }

  // --------------------------------------------------------- entries of a fiber

  lemma {:induction false} QueuedNone(queue: seq<Task>, f: Fiber)
    ensures Queued(queue, f) == 0 <==> NoneFor(queue, f)
    decreases |queue|
  {
    if queue != [] {
      QueuedNone(queue[1..], f);
      assert queue == [queue[0]] + queue[1..];
      assert !NoneFor(queue[1..], f) ==> !NoneFor(queue, f) by {
        if !NoneFor(queue[1..], f) {
          var i :| 0 <= i < |queue[1..]| && IsFor(queue[1..][i], f);
          assert IsFor(queue[i + 1], f);
        }
      }
    }
  }

  /** The only entry of a fiber that is queued once. */
  lemma {:induction false} OnlyEntry(queue: seq<Task>, f: Fiber) returns (k: nat)
    requires Queued(queue, f) == 1
    ensures k < |queue| && IsFor(queue[k], f) && NoneFor(queue[..k], f) && NoneFor(queue[k + 1..], f)
    decreases |queue|
  {
    if IsFor(queue[0], f) {
      QueuedNone(queue[1..], f);
      k := 0;
    } else {
      var j := OnlyEntry(queue[1..], f);
      k := j + 1;
      assert queue[..k] == [queue[0]] + queue[1..][..j];
      assert queue[k + 1..] == queue[1..][j + 1..];
    }
  }

  // -------------------------------------------------------- getting to a task

  /** Worker v is free to go for entry k of the queue, a task of fiber f. */
  ghost predicate CanReach(s: State, f: Fiber, v: Thread, k: nat) {
    && v in s.workers && s.workers[v].pc.Scanning? && s.workers[v].cache != Some(f)
    && TasksKnown(s.queue, s.fibers) && f in s.fibers && s.fibers[f] != EXEC
    && k < |s.queue| && IsFor(s.queue[k], f) && (s.queue[k].thread == -1 || s.queue[k].thread == v)
    && NoneFor(s.queue[..k], f)
  }

  /** Worker v has got it; what was behind the entry is still there. */
  ghost predicate Reached(s: State, t: State, f: Fiber, v: Thread, k: nat, front: seq<Task>) {
    && k < |s.queue|
    && Aside(s, t, v) && t.workers[v].pc == Holding(s.queue[k])
    && TasksKnown(t.queue, t.fibers) && f in t.fibers && f in s.fibers && t.fibers[f] == s.fibers[f]
    && t.queue == front + s.queue[k + 1..] && NoneFor(front, f)
  }

  lemma TakeReaches(s: State, f: Fiber, v: Thread, k: nat)
    requires CanReach(s, f, v, k) && FirstEligible(s.queue, s.fibers, v) == k
    ensures Run(s, [Take(v)]) && Reached(s, After(s, [Take(v)]), f, v, k, s.queue[..k])
  {
    hide FirstEligible, Apply, Enabled, Run, After;
    TakeGives(s, v);
    OneStep(s, Take(v));
  }

  /** One pass over a task in front of it, which is then out of the way. */
  lemma PassNears(s: State, f: Fiber, v: Thread, k: nat, spare: Fiber)
    requires CanReach(s, f, v, k) && FirstEligible(s.queue, s.fibers, v) < k && spare !in s.fibers
    ensures Run(s, PassSteps(s, v, spare, Holds))
    ensures
      var t := After(s, PassSteps(s, v, spare, Holds));
      && Aside(s, t, v) && k > 0 && CanReach(t, f, v, k - 1) && t.fibers[f] == s.fibers[f]
      && t.queue[k - 1] == s.queue[k] && t.queue[k..] == s.queue[k + 1..]
  {
    hide Run, After, FirstEligible, PassSteps;
    PassIsRun(s, v, spare, Holds);
    var j := FirstEligible(s.queue, s.fibers, v);
    var t := After(s, PassSteps(s, v, spare, Holds));
    var rest := s.queue[..j] + s.queue[j + 1..];
    assert !IsFor(s.queue[j], f) by { assert s.queue[j] == s.queue[..k][j]; }
    assert t.queue == rest;
    assert rest[k - 1] == s.queue[k] && rest[k..] == s.queue[k + 1..];
    var before := rest[..k - 1];
    forall i | 0 <= i < k - 1
      ensures !IsFor(before[i], f)
    {
      assert before[i] == s.queue[..k][if i < j then i else i + 1];
    }
    assert TasksKnown(rest, t.fibers);
  }

  lemma CalmPass(s: State, v: Thread, spare: Fiber)
    ensures Calm(PassSteps(s, v, spare, Holds))
  {
  }

  lemma CalmAppend(a: seq<Step>, b: seq<Step>)
    requires Calm(a) && Calm(b)
    ensures Calm(a + b)
  {
  }

  /** Undisturbed, the worker gets to the entry, whatever stands before it. */
  lemma {:induction false} Reach(s: State, f: Fiber, v: Thread, k: nat) returns (more: seq<Step>, front: seq<Task>)
    requires CanReach(s, f, v, k)
    ensures Run(s, more) && Calm(more) && Reached(s, After(s, more), f, v, k, front)
    decreases k
  {
    var j := FirstEligible(s.queue, s.fibers, v);
    assert Eligible(s.queue[k], s.fibers, v);
    hide FirstEligible, Eligible, CanReach, Run, After, PassSteps, Apply, Enabled;
    if j == k {
      TakeReaches(s, f, v, k);
      more, front := [Take(v)], s.queue[..k];
    } else {
      var spare := SomeBound(s.fibers.Keys);
      PassNears(s, f, v, k, spare);
      CalmPass(s, v, spare);
      var first := PassSteps(s, v, spare, Holds);
      var t := After(s, first);
      var rest;
      rest, front := Reach(t, f, v, k - 1);
      RunAppend(s, first, rest);
      CalmAppend(first, rest);
      more := first + rest;
      AsideTrans(s, t, After(s, more), v);
    }
  }

  // ---------------------------------------------------------- two owners follow

  /** Worker v could take what wakes fiber f. */
  predicate MayTake(s: State, f: Fiber, v: Thread) {
    && v in s.workers && s.workers[v].pc.Scanning?
    && forall i :: 0 <= i < |s.queue| && IsFor(s.queue[i], f) ==> s.queue[i].thread == -1 || s.queue[i].thread == v
  }

  /** What the invariant says of a running fiber with a wake-up outstanding. */
  lemma RunningFacts(s: State, w: Thread, f: Fiber, v: Thread)
    requires Inv(s) && w in s.workers && s.workers[w].pc.Running? && s.workers[w].pc.fiber == f
    requires v in s.workers && v != w && WakeUps(s, f) != 0
    ensures f in s.fibers && s.fibers[f] == EXEC && s.workers[v].cache != Some(f)
    ensures TasksKnown(s.queue, s.fibers)
    ensures (Queued(s.queue, f) == 1 && s.parked[f] == 0) || (Queued(s.queue, f) == 0 && s.parked[f] == 1)
    ensures !s.workers[w].pc.viaCb ==> s.workers[w].cache != Some(f)
  {
    hide Queued;
    OnlyUser(s, w, f);
    assert FiberOk(s, f);
    forall i | 0 <= i < |s.queue| && s.queue[i].FiberTask?
      ensures s.queue[i].fiber in s.fibers
    {
      QueuedNone(s.queue, s.queue[i].fiber);
      assert IsFor(s.queue[i], s.queue[i].fiber);
    }
  }

  lemma WakeGives(s: State, f: Fiber, thread: int)
    requires f in s.parked
    ensures Enabled(s, Wake(f, thread))
    ensures Apply(s, Wake(f, thread)) ==
            s.(queue := s.queue + [FiberTask(f, thread)], parked := s.parked - multiset{f})
  {
  }

  /** The outstanding wake-up is in the queue, or is put there. */
  lemma Summon(s: State, f: Fiber, v: Thread) returns (more: seq<Step>, k: nat)
    requires v in s.workers && s.workers[v].pc.Scanning? && s.workers[v].cache != Some(f)
    requires TasksKnown(s.queue, s.fibers) && f in s.fibers && s.fibers[f] != EXEC && MayTake(s, f, v)
    requires Queued(s.queue, f) == 1 || (Queued(s.queue, f) == 0 && s.parked[f] == 1)
    ensures Run(s, more) && Calm(more) && CanReach(After(s, more), f, v, k)
    ensures After(s, more).workers == s.workers && After(s, more).fibers == s.fibers
  {
    hide Apply, Enabled, Queued;
    if Queued(s.queue, f) == 1 {
      more := [];
      k := OnlyEntry(s.queue, f);
    } else {
      QueuedNone(s.queue, f);
      more, k := [Wake(f, -1)], |s.queue|;
      WakeGives(s, f, -1);
      OneStep(s, Wake(f, -1));
      hide Run, After;
      assert (s.queue + [FiberTask(f, -1)])[..k] == s.queue;
    }
  }

  /** A fiber that is no longer executing, still in its worker's hands, with a
      wake-up outstanding: another worker gets it too. */
  lemma SecondOwner(s: State, w: Thread, f: Fiber, v: Thread) returns (more: seq<Step>)
    requires w in s.workers && w != v && Owns(s.workers[w].pc, f)
    requires v in s.workers && s.workers[v].pc.Scanning? && s.workers[v].cache != Some(f)
    requires TasksKnown(s.queue, s.fibers) && f in s.fibers && s.fibers[f] != EXEC && MayTake(s, f, v)
    requires Queued(s.queue, f) == 1 || (Queued(s.queue, f) == 0 && s.parked[f] == 1)
    ensures Run(s, more) && Calm(more) && TwoOwners(After(s, more), f)
  {
    hide Apply, Enabled, Run, After, Queued;
    var a, k := Summon(s, f, v);
    var r := After(s, a);
    var b, front := Reach(r, f, v, k);
    RunAppend(s, a, b);
    CalmAppend(a, b);
    more := a + b;
    var t := After(s, more);
    assert IsFor(r.queue[k], f);
    assert w in t.workers && v in t.workers && Owns(t.workers[w].pc, f) && Owns(t.workers[v].pc, f);
  }

  /** Two entries of the fiber, the second at the very end and for anyone. */
  predicate TwoEntries(queue: seq<Task>, f: Fiber, k: nat) {
    && k + 1 < |queue| && IsFor(queue[k], f) && queue[|queue| - 1] == FiberTask(f, -1)
    && NoneFor(queue[..k], f) && NoneFor(queue[k + 1..|queue| - 1], f)
  }

  lemma SummonOne(s: State, f: Fiber) returns (k: nat)
    requires f in s.parked && Queued(s.queue, f) == 1
    ensures Run(s, [Wake(f, -1)]) && Calm([Wake(f, -1)])
    ensures After(s, [Wake(f, -1)]) == s.(queue := s.queue + [FiberTask(f, -1)], parked := s.parked - multiset{f})
    ensures k < |s.queue| && s.queue[k] == (s.queue + [FiberTask(f, -1)])[k]
    ensures TwoEntries(s.queue + [FiberTask(f, -1)], f, k)
  {
    k := OnlyEntry(s.queue, f);
    hide Apply, Enabled, Queued;
    WakeGives(s, f, -1);
    OneStep(s, Wake(f, -1));
    hide Run, After;
    var q := s.queue + [FiberTask(f, -1)];
    assert q[..k] == s.queue[..k] && q[k + 1..|q| - 1] == s.queue[k + 1..];
  }

  lemma AppendQueued(queue: seq<Task>, f: Fiber)
    requires Queued(queue, f) == 0
    ensures Queued(queue + [FiberTask(f, -1)], f) == 1
  {
    QueuedAppend(queue, FiberTask(f, -1), f);
  }

  /** Both wake-ups of a fiber are put in the queue. */
  lemma SummonBoth(s: State, f: Fiber, v: Thread) returns (more: seq<Step>, k: nat)
    requires TasksKnown(s.queue, s.fibers) && f in s.fibers && MayTake(s, f, v)
    requires (Queued(s.queue, f) == 1 && s.parked[f] == 1) || (Queued(s.queue, f) == 0 && s.parked[f] == 2)
    ensures Run(s, more) && Calm(more)
    ensures
      var t := After(s, more);
      && t == s.(queue := t.queue, parked := t.parked)
      && TasksKnown(t.queue, t.fibers) && TwoEntries(t.queue, f, k)
      && (t.queue[k].thread == -1 || t.queue[k].thread == v)
  {
    hide Apply, Enabled, Run, After, Queued;
    if Queued(s.queue, f) == 1 {
      k := SummonOne(s, f);
      more := [Wake(f, -1)];
    } else {
      QueuedNone(s.queue, f);
      WakeGives(s, f, -1);
      OneStep(s, Wake(f, -1));
      var r := Apply(s, Wake(f, -1));
      AppendQueued(s.queue, f);
      k := SummonOne(r, f);
      RunStep(s, [Wake(f, -1)], Wake(f, -1)) by { WakeGives(r, f, -1); }
      WakeGives(r, f, -1);
      more := [Wake(f, -1)] + [Wake(f, -1)];
      assert r.queue[k].thread == -1;
    }
  }

  /** The two workers get one entry each. */
  lemma BothTake(s: State, w: Thread, f: Fiber, v: Thread, k: nat) returns (more: seq<Step>)
    requires w in s.workers && w != v && s.workers[w].pc.Scanning? && s.workers[w].cache != Some(f)
    requires CanReach(s, f, v, k) && TwoEntries(s.queue, f, k)
    ensures Run(s, more) && Calm(more) && TwoOwners(After(s, more), f)
  {
    hide Apply, Enabled, Run, After;
    var a, front := Reach(s, f, v, k);
    var r := After(s, a);
    var last := |r.queue| - 1;
    var tail := s.queue[k + 1..];
    assert tail == s.queue[k + 1..|s.queue| - 1] + [FiberTask(f, -1)];
    assert r.queue[..last] == front + s.queue[k + 1..|s.queue| - 1];
    var b, _ := Reach(r, f, w, last);
    RunAppend(s, a, b);
    CalmAppend(a, b);
    more := a + b;
    var t := After(s, more);
    assert w in t.workers && v in t.workers && Owns(t.workers[w].pc, f) && Owns(t.workers[v].pc, f);
  }

  /** A running fiber with two wake-ups outstanding: it is held, and both
      workers take it. */
  lemma TwoTakers(s: State, w: Thread, f: Fiber, v: Thread) returns (more: seq<Step>)
    requires w in s.workers && w != v && s.workers[w].pc.Running? && s.workers[w].pc.fiber == f
    requires !s.workers[w].pc.viaCb ==> s.workers[w].cache != Some(f)
    requires v in s.workers && s.workers[v].pc.Scanning? && s.workers[v].cache != Some(f)
    requires TasksKnown(s.queue, s.fibers) && f in s.fibers && s.fibers[f] == EXEC && MayTake(s, f, v)
    requires (Queued(s.queue, f) == 1 && s.parked[f] == 1) || (Queued(s.queue, f) == 0 && s.parked[f] == 2)
    ensures Run(s, more) && Calm(more) && TwoOwners(After(s, more), f)
  {
    hide Apply, Enabled, Run, After, Queued;
    var a, k := SummonBoth(s, f, v);
    var r := After(s, a);
    BackRuns(r, w, f, s.workers[w].pc.viaCb, Holds);
    var b := BackSteps(w, Holds);
    var u := After(r, b);
    assert u.queue == r.queue;
    var c := BothTake(u, w, f, v, k);
    RunAppend(r, b, c);
    RunAppend(s, a, b + c);
    CalmAppend(b, c);
    CalmAppend(a, b + c);
    more := a + (b + c);
  }

  // ----------------------------------------------------------- the exact condition

  /** A continuation in which every client behaves and yet two workers own f. */
  ghost predicate Leads(s: State, f: Fiber, more: seq<Step>) {
    Run(s, more) && DisciplinedRun(s, more) && TwoOwners(After(s, more), f)
  }

  lemma YieldedHurts(s: State, step: Step, v: Thread)
    requires Inv(s) && Enabled(s, step) && !Disciplined(s, step) && (step.YieldReady? || step.Finish?)
    requires v != step.worker && MayTake(s, PcOf(s, step.worker).fiber, v)
    ensures exists more :: Leads(Apply(s, step), PcOf(s, step.worker).fiber, more)
  {
    var w, f := step.worker, PcOf(s, step.worker).fiber;
    RunningFacts(s, w, f, v);
    hide Inv, Queued, Run, After, DisciplinedRun;
    var t := Apply(s, step);
    var more := SecondOwner(t, w, f, v);
    CalmDisciplined(t, more);
    assert Leads(t, f, more);
  }

  lemma ParkedHurts(s: State, step: Step, v: Thread)
    requires Inv(s) && Enabled(s, step) && !Disciplined(s, step) && step.Park?
    requires v != step.worker && MayTake(s, PcOf(s, step.worker).fiber, v)
    ensures exists more :: Leads(Apply(s, step), PcOf(s, step.worker).fiber, more)
  {
    var w, f := step.worker, PcOf(s, step.worker).fiber;
    RunningFacts(s, w, f, v);
    hide Inv, Queued, Run, After, DisciplinedRun;
    var t := Apply(s, step);
    var more := TwoTakers(t, w, f, v);
    CalmDisciplined(t, more);
    assert Leads(t, f, more);
  }

  /** In any state that disciplined clients can reach, a step that breaks the
      discipline leads to two owners, however disciplined everyone is from then
      on, as soon as another worker is free to take what wakes the fiber. */
  lemma UndisciplinedHurts(s: State, step: Step, v: Thread)
    requires Inv(s) && Enabled(s, step) && !Disciplined(s, step)
    requires v != step.worker && MayTake(s, PcOf(s, step.worker).fiber, v)
    ensures exists more :: Leads(Apply(s, step), PcOf(s, step.worker).fiber, more)
  {
    if step.Park? {
      ParkedHurts(s, step, v);
    } else {
      YieldedHurts(s, step, v);
    }
  }

  lemma InvOneOwner(s: State, f: Fiber)
    requires Inv(s)
    ensures !TwoOwners(s, f)
  {
    if TwoOwners(s, f) {
      var w, v :| w in s.workers && v in s.workers && w != v && Owns(s.workers[w].pc, f) && Owns(s.workers[v].pc, f);
      OnlyUser(s, w, f);
      assert Uses(s.workers[v], f);
      assert false;
    }
  }

  lemma DisciplinedHelps(s: State, step: Step, f: Fiber, more: seq<Step>)
    requires Inv(s) && Enabled(s, step) && Disciplined(s, step)
    ensures !Leads(Apply(s, step), f, more)
  {
    hide Inv, Apply, Enabled, Disciplined;
    if Leads(Apply(s, step), f, more) {
      ApplyKeeps(s, step);
      RunKeepsInv(Apply(s, step), more);
      InvOneOwner(After(Apply(s, step), more), f);
    }
  }

  /** The discipline is exactly what excludes two owners: a step of a running
      fiber is safe, whatever disciplined steps follow, if and only if it keeps
      the discipline. */
  lemma DisciplineIsExact(s: State, step: Step, v: Thread)
    requires Inv(s) && Enabled(s, step) && (step.Park? || step.YieldReady? || step.Finish?)
    requires v != step.worker && MayTake(s, PcOf(s, step.worker).fiber, v)
    ensures Disciplined(s, step) <==> forall f, more :: !Leads(Apply(s, step), f, more)
  {
    if Disciplined(s, step) {
      forall f, more
        ensures !Leads(Apply(s, step), f, more)
      {
        DisciplinedHelps(s, step, f, more);
      }
    } else {
      UndisciplinedHurts(s, step, v);
    }
  }

  // -------------------------------------- one wake-up at a time is not enough

  /** No fiber has two wake-ups outstanding at any time of the run. */
  ghost predicate OneWakeUpEach(s: State, steps: seq<Step>)
    requires Run(s, steps)
    decreases |steps|
  {
    && (forall f :: WakeUps(s, f) <= 1)
    && (steps == [] || OneWakeUpEach(Apply(s, steps[0]), steps[1..]))
  }

  lemma {:induction false} OneEachAppend(s: State, a: seq<Step>, b: seq<Step>)
    requires Run(s, a) && Run(After(s, a), b) && OneWakeUpEach(s, a) && OneWakeUpEach(After(s, a), b)
    ensures Run(s, a + b) && OneWakeUpEach(s, a + b)
    decreases |a|
  {
    RunAppend(s, a, b);
    hide Enabled, Apply, WakeUps;
    if a == [] {
      assert a + b == b;
    } else {
      assert (a + b)[1..] == a[1..] + b;
      OneEachAppend(Apply(s, a[0]), a[1..], b);
    }
  }

  lemma OneEachStep(s: State, step: Step)
    requires Enabled(s, step) && (forall f :: WakeUps(s, f) <= 1) && forall f :: WakeUps(Apply(s, step), f) <= 1
    ensures Run(s, [step]) && After(s, [step]) == Apply(s, step) && OneWakeUpEach(s, [step])
  {
    hide Enabled, Apply, WakeUps;
    OneStep(s, step);
    assert [step][1..] == [];
    assert OneWakeUpEach(Apply(s, step), []);
  }

  /** A state in which at most fiber 7 has a wake-up, at most one. */
  lemma AtMostSeven(s: State)
    requires (s.queue == [] && s.parked <= multiset{7}) || (s.queue == [FiberTask(7, -1)] && s.parked == multiset{})
    ensures forall f :: WakeUps(s, f) <= 1
  {
    assert s.queue != [] ==> s.queue[1..] == [];
    forall f
      ensures WakeUps(s, f) <= 1
    {
      assert Queued([], f) == 0;
      assert s.parked[f] <= multiset{7}[f];
    }
  }

  lemma LaunchOneEach(s: State)
    requires Initial(s) && 0 in s.workers
    ensures Run(s, Launch) && OneWakeUpEach(s, Launch) && After(s, Launch) == Launched(s)
  {
    hide Run, After, WakeUps, OneWakeUpEach;
    LaunchRuns(s);
    var s1 := s.(queue := [FiberTask(7, -1)], fibers := map[7 := INIT]);
    assert Apply(s, Spawn(7, -1)) == s1;
    AtMostSeven(s);
    AtMostSeven(s1);
    OneEachStep(s, Spawn(7, -1));
    var s2 := s1.(queue := [], workers := s.workers[0 := Worker(Holding(FiberTask(7, -1)), None)], active := 1);
    assert Apply(s1, Take(0)) == s2;
    AtMostSeven(s2);
    OneEachStep(s1, Take(0));
    OneEachAppend(s, [Spawn(7, -1)], [Take(0)]);
    RunAppend(s, [Spawn(7, -1)], [Take(0)]);
    assert Apply(s2, Enter(0)) == Launched(s);
    AtMostSeven(Launched(s));
    OneEachStep(s2, Enter(0));
    OneEachAppend(s, [Spawn(7, -1)] + [Take(0)], [Enter(0)]);
  }

  /** The fiber registers, is woken while it still runs, and then yields READY
      or ends; another worker takes the wake-up. */
  function Slip(last: Step): seq<Step> {
    [Park(0)] + [Wake(7, -1)] + [last] + [Take(1)]
  }

  lemma SlipRuns(s: State, last: Step)
    requires Initial(s) && 0 in s.workers && 1 in s.workers
    requires last in {YieldReady(0), Finish(0, false), Finish(0, true)}
    ensures Run(Launched(s), Slip(last)) && OneWakeUpEach(Launched(s), Slip(last))
    ensures TwoOwners(After(Launched(s), Slip(last)), 7)
  {
    hide Run, After, WakeUps, OneWakeUpEach;
    var s0 := Launched(s);
    var s1 := s0.(parked := multiset{7});
    assert Apply(s0, Park(0)) == s1;
    AtMostSeven(s0);
    AtMostSeven(s1);
    OneEachStep(s0, Park(0));
    var s2 := s0.(queue := [FiberTask(7, -1)]);
    assert Apply(s1, Wake(7, -1)) == s2;
    AtMostSeven(s2);
    OneEachStep(s1, Wake(7, -1));
    OneEachAppend(s0, [Park(0)], [Wake(7, -1)]);
    RunAppend(s0, [Park(0)], [Wake(7, -1)]);
    SlipEnds(s, last);
    OneEachAppend(s0, [Park(0)] + [Wake(7, -1)], [last] + [Take(1)]);
    RunAppend(s0, [Park(0)] + [Wake(7, -1)], [last] + [Take(1)]);
    assert [Park(0)] + [Wake(7, -1)] + ([last] + [Take(1)]) == Slip(last);
  }

  lemma SlipEnds(s: State, last: Step)
    requires Initial(s) && 0 in s.workers && 1 in s.workers
    requires last in {YieldReady(0), Finish(0, false), Finish(0, true)}
    ensures
      var s2 := Launched(s).(queue := [FiberTask(7, -1)]);
      && Run(s2, [last] + [Take(1)]) && OneWakeUpEach(s2, [last] + [Take(1)])
      && TwoOwners(After(s2, [last] + [Take(1)]), 7)
  {
    hide Run, After, WakeUps, OneWakeUpEach;
    var s2 := Launched(s).(queue := [FiberTask(7, -1)]);
    var s3 := Apply(s2, last);
    assert Enabled(s2, last) && s3.queue == s2.queue && s3.parked == s2.parked && s3.fibers[7] != EXEC;
    assert s3.workers == s.workers[0 := Worker(Returned(7, false), None)];
    assert FirstEligible(s3.queue, s3.fibers, 1) == 0;
    hide Apply, Enabled, FirstEligible;
    AtMostSeven(s2);
    AtMostSeven(s3);
    OneEachStep(s2, last);
    TakeGives(s3, 1);
    var s4 := Apply(s3, Take(1));
    AtMostSeven(s4);
    OneEachStep(s3, Take(1));
    OneEachAppend(s2, [last], [Take(1)]);
    RunAppend(s2, [last], [Take(1)]);
    assert 0 in s4.workers && 1 in s4.workers && Owns(s4.workers[0].pc, 7) && Owns(s4.workers[1].pc, 7);
  }

  /** Never more than one wake-up outstanding, and yet two owners: the fiber
      yields READY, or ends, while its wake-up is queued. */
  lemma OneWakeUpIsNotEnough(s: State, last: Step)
    requires Initial(s) && 0 in s.workers && 1 in s.workers
    requires last in {YieldReady(0), Finish(0, false), Finish(0, true)}
    ensures Run(s, Launch + Slip(last)) && OneWakeUpEach(s, Launch + Slip(last))
    ensures TwoOwners(After(s, Launch + Slip(last)), 7) && !DisciplinedRun(s, Launch + Slip(last))
  {
    hide Run, After, OneWakeUpEach, DisciplinedRun, Apply, Inv;
    LaunchOneEach(s);
    SlipRuns(s, last);
    OneEachAppend(s, Launch, Slip(last));
    RunAppend(s, Launch, Slip(last));
    if DisciplinedRun(s, Launch + Slip(last)) {
      InitialInv(s);
      RunKeepsInv(s, Launch + Slip(last));
      InvOneOwner(After(s, Launch + Slip(last)), 7);
      assert false;
    }
  }

  /** A second registration before the first is used up does the same harm. */
  lemma ParkingTwiceHurts(s: State)
    requires Initial(s) && 0 in s.workers && 1 in s.workers
    ensures exists more :: Run(s, Launch + [Park(0)] + [Park(0)] + more)
                           && TwoOwners(After(s, Launch + [Park(0)] + [Park(0)] + more), 7)
  {
    LaunchRuns(s);
    var s0 := Launched(s);
    var s1 := s0.(parked := multiset{7});
    assert Apply(s0, Park(0)) == s1;
    RunStep(s, Launch, Park(0));
    assert Inv(s1) by { ParkedInv(s); }
    hide Run, After, DisciplinedRun, Inv, WakeUps;
    assert !Disciplined(s1, Park(0)) by { assert WakeUps(s1, 7) == 1 by { ParkedOnce(s1); } }
    UndisciplinedHurts(s1, Park(0), 1);
    var more :| Leads(Apply(s1, Park(0)), 7, more);
    RunStep(s, Launch + [Park(0)], Park(0));
    RunAppend(s, Launch + [Park(0)] + [Park(0)], more);
  }

  lemma ParkedOnce(s: State)
    requires s.queue == [] && s.parked == multiset{7}
    ensures WakeUps(s, 7) == 1
  {
  }

  lemma ParkedInv(s: State)
    requires Initial(s) && 0 in s.workers
    ensures Inv(Launched(s).(parked := multiset{7}))
  {
    var s0 := Launched(s);
    assert Apply(s0, Park(0)) == s0.(parked := multiset{7});
    InitialInv(s);
    LaunchRuns(s);
    LaunchDisciplined(s);
    RunKeepsInv(s, Launch);
    hide Inv;
    assert WakeUps(s0, 7) == 0;
    ApplyKeeps(s0, Park(0));
  }

  lemma LaunchDisciplined(s: State)
    requires Initial(s) && 0 in s.workers
    ensures Run(s, Launch) && DisciplinedRun(s, Launch)
  {
    LaunchRuns(s);
    CalmDisciplined(s, Launch);
  }
}
