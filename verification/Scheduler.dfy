/** The fiber scheduler as a state machine: any number of worker threads take
    tasks from one queue, run them and put them back, one step at a time. */
module Scheduler {

  import opened Basics

  type Fiber = nat
  type Thread = nat
  type Callback = nat

  datatype FiberState = INIT | HOLD | EXEC | TERM | READY | EXCEPT

  /** A queue entry; thread -1 means that any worker may take it. */
  datatype Task = FiberTask(fiber: Fiber, thread: int) | CbTask(cb: Callback, thread: int)

  /** Where a worker is in Scheduler::run. */
  datatype Pc =
    | Scanning
    | Holding(task: Task)
    | Entering(fiber: Fiber)
    | Running(fiber: Fiber, viaCb: bool)
    | Returned(fiber: Fiber, viaCb: bool)
    | Settling(fiber: Fiber, viaCb: bool)

  /** cache is the worker's cb_fiber. */
  datatype Worker = Worker(pc: Pc, cache: Option<Fiber>)

  /** parked holds a fiber once for each wake-up that is neither queued nor
      taken: in an event context, a semaphore's waiters or a timer. submitted
      and started record which callbacks were scheduled and begun. */
  datatype State = State(
    fibers: map<Fiber, FiberState>,
    queue: seq<Task>,
    workers: map<Thread, Worker>,
    active: int,
    parked: multiset<Fiber>,
    autoStop: bool,
    stop: bool,
    submitted: set<Callback>,
    started: set<Callback>)

  datatype Step =
    | Submit(cb: Callback, thread: int)
    | Spawn(fiber: Fiber, thread: int)
    | Wake(fiber: Fiber, thread: int)
    | RequestStop
    | Take(worker: Thread)
    | Drop(worker: Thread)
    | Enter(worker: Thread)
    | Prepare(worker: Thread, spare: Fiber)
    | EnterCb(worker: Thread)
    | Park(worker: Thread)
    | YieldHold(worker: Thread)
    | YieldReady(worker: Thread)
    | Finish(worker: Thread, thrown: bool)
    | Leave(worker: Thread)
    | Settle(worker: Thread)

  // ---------------------------------------------------------------- the scan

  /** A worker may take a task that is not pinned elsewhere and whose fiber is
      not still executing. */
  predicate Eligible(t: Task, fibers: map<Fiber, FiberState>, w: Thread) {
    && (t.thread == -1 || t.thread == w)
    && (t.FiberTask? ==> !(t.fiber in fibers && fibers[t.fiber] == EXEC))
  }

  /** The first task the worker may take, or the length of the queue. */
  function FirstEligible(queue: seq<Task>, fibers: map<Fiber, FiberState>, w: Thread): (k: nat)
    ensures k <= |queue|
    ensures k < |queue| ==> Eligible(queue[k], fibers, w)
    ensures forall i :: 0 <= i < k ==> !Eligible(queue[i], fibers, w)
  {
    if queue == [] || Eligible(queue[0], fibers, w) then 0
    else
      var k := FirstEligible(queue[1..], fibers, w);
      assert forall i :: 0 < i < |queue| ==> queue[i] == queue[1..][i - 1];
      1 + k
  }

  /** The scan of run(): which task is taken, and whether another worker has to
      be woken because of a task pinned elsewhere or of tasks behind it. */
  method Scan(queue: seq<Task>, fibers: map<Fiber, FiberState>, w: Thread) returns (k: nat, tickleMe: bool)
    ensures k == FirstEligible(queue, fibers, w)
    ensures tickleMe <==>
            || (exists i :: 0 <= i < k && queue[i].thread != -1 && queue[i].thread != w)
            || k + 1 < |queue|
  {
    k, tickleMe := 0, false;
    while k < |queue|
      invariant k <= |queue|
      invariant forall i :: 0 <= i < k ==> !Eligible(queue[i], fibers, w)
      invariant tickleMe <==> exists i :: 0 <= i < k && queue[i].thread != -1 && queue[i].thread != w
    {
      var it := queue[k];
      if it.thread != -1 && it.thread != w {
        k, tickleMe := k + 1, true;
        continue;
      }
      if it.FiberTask? && it.fiber in fibers && fibers[it.fiber] == EXEC {
        k := k + 1;
        continue;
      }
      break;
    }
    tickleMe := tickleMe || k + 1 < |queue|;
  }

  // --------------------------------------------------------------- the steps

  function PcOf(s: State, w: Thread): Pc {
    if w in s.workers then s.workers[w].pc else Scanning
  }

  function Over(st: FiberState): bool {
    st == TERM || st == EXCEPT
  }

  /** When the program can take a step. */
  predicate Enabled(s: State, step: Step) {
    match step
    case Submit(cb, _) => cb !in s.submitted
    case Spawn(f, _) => f !in s.fibers
    case Wake(f, _) => f in s.parked
    case RequestStop => true
    case Take(w) => w in s.workers && PcOf(s, w).Scanning? && FirstEligible(s.queue, s.fibers, w) < |s.queue|
    case Drop(w) =>
      && w in s.workers && PcOf(s, w).Holding? && PcOf(s, w).task.FiberTask?
      && PcOf(s, w).task.fiber in s.fibers && Over(s.fibers[PcOf(s, w).task.fiber])
    case Enter(w) =>
      && w in s.workers && PcOf(s, w).Holding? && PcOf(s, w).task.FiberTask?
      && PcOf(s, w).task.fiber in s.fibers && !Over(s.fibers[PcOf(s, w).task.fiber])
    case Prepare(w, spare) =>
      w in s.workers && PcOf(s, w).Holding? && PcOf(s, w).task.CbTask? && spare !in s.fibers
    case EnterCb(w) => w in s.workers && PcOf(s, w).Entering?
    case Park(w) => w in s.workers && PcOf(s, w).Running?
    case YieldHold(w) => w in s.workers && PcOf(s, w).Running?
    case YieldReady(w) => w in s.workers && PcOf(s, w).Running?
    case Finish(w, _) => w in s.workers && PcOf(s, w).Running?
    case Leave(w) => w in s.workers && PcOf(s, w).Returned?
    case Settle(w) => w in s.workers && PcOf(s, w).Settling? && PcOf(s, w).fiber in s.fibers
  }

  function Goto(s: State, w: Thread, pc: Pc): State
    requires w in s.workers
  {
    s.(workers := s.workers[w := s.workers[w].(pc := pc)])
  }

  /** What happens to a fiber when its worker settles it: a READY one is queued
      again, a finished cb_fiber is reset and kept, any other is put on hold. */
  function Settled(s: State, w: Thread): State
    requires w in s.workers && PcOf(s, w).Settling? && PcOf(s, w).fiber in s.fibers
  {
    var f, via, st := PcOf(s, w).fiber, PcOf(s, w).viaCb, s.fibers[PcOf(s, w).fiber];
    var kept := if via && !Over(st) then None else s.workers[w].cache;
    var t := s.(workers := s.workers[w := Worker(Scanning, kept)]);
    if st == READY then t.(queue := s.queue + [FiberTask(f, -1)])
    else if Over(st) then (if via then t.(fibers := s.fibers[f := INIT]) else t)
    else t.(fibers := s.fibers[f := HOLD])
  }

  function Apply(s: State, step: Step): State
    requires Enabled(s, step)
  {
    match step
    case Submit(cb, thread) => s.(queue := s.queue + [CbTask(cb, thread)], submitted := s.submitted + {cb})
    case Spawn(f, thread) => s.(queue := s.queue + [FiberTask(f, thread)], fibers := s.fibers[f := INIT])
    case Wake(f, thread) => s.(queue := s.queue + [FiberTask(f, thread)], parked := s.parked - multiset{f})
    case RequestStop => s.(autoStop := true, stop := true)
    case Take(w) =>
      var k := FirstEligible(s.queue, s.fibers, w);
      Goto(s, w, Holding(s.queue[k])).(queue := s.queue[..k] + s.queue[k + 1..], active := s.active + 1)
    case Drop(w) => Goto(s, w, Scanning).(active := s.active - 1)
    case Enter(w) =>
      var f := PcOf(s, w).task.fiber;
      Goto(s, w, Running(f, false)).(fibers := s.fibers[f := EXEC])
    case Prepare(w, spare) =>
      var f := if s.workers[w].cache.Some? then s.workers[w].cache.value else spare;
      s.(workers := s.workers[w := Worker(Entering(f), Some(f))], fibers := s.fibers[f := INIT],
         started := s.started + {PcOf(s, w).task.cb})
    case EnterCb(w) =>
      var f := PcOf(s, w).fiber;
      Goto(s, w, Running(f, true)).(fibers := s.fibers[f := EXEC])
    case Park(w) => s.(parked := s.parked + multiset{PcOf(s, w).fiber})
    case YieldHold(w) => Goto(s, w, Returned(PcOf(s, w).fiber, PcOf(s, w).viaCb))
    case YieldReady(w) =>
      var f := PcOf(s, w).fiber;
      Goto(s, w, Returned(f, PcOf(s, w).viaCb)).(fibers := s.fibers[f := READY])
    case Finish(w, thrown) =>
      var f := PcOf(s, w).fiber;
      Goto(s, w, Returned(f, PcOf(s, w).viaCb)).(fibers := s.fibers[f := if thrown then EXCEPT else TERM])
    case Leave(w) => Goto(s, w, Settling(PcOf(s, w).fiber, PcOf(s, w).viaCb)).(active := s.active - 1)
    case Settle(w) => Settled(s, w)
  }

  /** A take removes the first task in the queue that the worker may run, leaves
      the others in their order, and is counted. */
  lemma TakeInOrder(s: State, w: Thread)
    requires Enabled(s, Take(w))
    ensures exists a, t, b ::
      && s.queue == a + [t] + b && Apply(s, Take(w)).queue == a + b
      && Apply(s, Take(w)).workers[w].pc == Holding(t) && Apply(s, Take(w)).active == s.active + 1
      && !OutOfReach(t, s.fibers, w) && forall i :: 0 <= i < |a| ==> OutOfReach(a[i], s.fibers, w)
  {
    var k := FirstEligible(s.queue, s.fibers, w);
    var a, t, b := s.queue[..k], s.queue[k], s.queue[k + 1..];
    forall i | 0 <= i < |a|
      ensures OutOfReach(a[i], s.fibers, w)
    {
      assert !Eligible(s.queue[i], s.fibers, w);
    }
    assert s.queue == a + [t] + b && Apply(s, Take(w)).queue == a + b;
  }

  /** The task is pinned to another thread, or its fiber is executing. */
  predicate OutOfReach(t: Task, fibers: map<Fiber, FiberState>, w: Thread) {
    || (t.thread != -1 && t.thread != w)
    || (t.FiberTask? && t.fiber in fibers && fibers[t.fiber] == EXEC)
  }

  // ------------------------------------------------------- wake-ups and owners

  function Queued(queue: seq<Task>, f: Fiber): nat {
    if queue == [] then 0
    else (if queue[0].FiberTask? && queue[0].fiber == f then 1 else 0) + Queued(queue[1..], f)
  }

  /** The outstanding wake-ups of a fiber. */
  function WakeUps(s: State, f: Fiber): nat {
    Queued(s.queue, f) + s.parked[f]
  }

  /** The discipline of the clients: a fiber registers for a wake-up only when
      none is outstanding, and with one outstanding it can only be held. */
  predicate Disciplined(s: State, step: Step) {
    step.Park? || step.YieldReady? || step.Finish? ==>
      PcOf(s, step.worker).Running? ==> WakeUps(s, PcOf(s, step.worker).fiber) == 0
  }

  /** The worker has the fiber in its hands, taken, entered or not yet settled. */
  predicate Owns(pc: Pc, f: Fiber) {
    match pc
    case Scanning => false
    case Holding(t) => t.FiberTask? && t.fiber == f
    case Entering(g) => g == f
    case Running(g, _) => g == f
    case Returned(g, _) => g == f
    case Settling(g, _) => g == f
  }

  predicate Uses(w: Worker, f: Fiber) {
    Owns(w.pc, f) || w.cache == Some(f)
  }

  /** The state and number of wake-ups of a fiber in a worker's hands. */
  predicate UseOk(w: Worker, f: Fiber, st: FiberState, n: nat) {
    if !Owns(w.pc, f) then n == 0 && st == INIT
    else match w.pc
      case Scanning => true
      case Holding(_) => w.cache != Some(f) && n == 0 && st != EXEC && !Over(st)
      case Entering(_) => w.cache == Some(f) && n == 0 && st == INIT
      case Running(_, via) => (via <==> w.cache == Some(f)) && st == EXEC
      case Returned(_, via) => (via <==> w.cache == Some(f)) && LeftOk(st, n)
      case Settling(_, via) => (via <==> w.cache == Some(f)) && LeftOk(st, n)
  }

  predicate LeftOk(st: FiberState, n: nat) {
    st == EXEC || (n == 0 && (st == READY || Over(st)))
  }

  /** A fiber in nobody's hands: ready only if queued, finished only without
      wake-ups. */
  predicate FreeOk(st: FiberState, queued: nat, parked: nat) {
    && st != EXEC
    && (st == READY ==> queued == 1 && parked == 0)
    && (Over(st) ==> queued == 0 && parked == 0)
  }

  ghost predicate FiberOk(s: State, f: Fiber)
    requires f in s.fibers
  {
    && WakeUps(s, f) <= 1
    && (forall w :: w in s.workers && Uses(s.workers[w], f) ==> UseOk(s.workers[w], f, s.fibers[f], WakeUps(s, f)))
    && ((forall w :: w in s.workers ==> !Uses(s.workers[w], f)) ==>
          FreeOk(s.fibers[f], Queued(s.queue, f), s.parked[f]))
    && (forall w, v :: w in s.workers && v in s.workers && Uses(s.workers[w], f) && Uses(s.workers[v], f) ==> w == v)
  }

  /** The worker counts as active. */
  predicate Busy(w: Worker) {
    w.pc.Holding? || w.pc.Entering? || w.pc.Running? || w.pc.Returned?
  }

  function BusyWorkers(ws: map<Thread, Worker>): set<Thread> {
    set w | w in ws && Busy(ws[w])
  }

  ghost predicate NoStrangers(s: State) {
    forall f :: f !in s.fibers ==> WakeUps(s, f) == 0 && forall w :: w in s.workers ==> !Uses(s.workers[w], f)
  }

  ghost predicate Inv(s: State) {
    && (forall f :: f in s.fibers ==> FiberOk(s, f))
    && NoStrangers(s)
    && s.active == |BusyWorkers(s.workers)|
  }

  // -------------------------------------------------------------- small lemmas

  lemma {:induction false} QueuedAppend(queue: seq<Task>, t: Task, f: Fiber)
    ensures Queued(queue + [t], f) == Queued(queue, f) + if t.FiberTask? && t.fiber == f then 1 else 0
    decreases |queue|
  {
    if queue != [] {
      QueuedAppend(queue[1..], t, f);
      assert (queue + [t])[1..] == queue[1..] + [t];
    } else {
      assert (queue + [t])[1..] == [];
    }
  }

  lemma {:induction false} QueuedRemove(queue: seq<Task>, k: nat, f: Fiber)
    requires k < |queue|
    ensures Queued(queue, f) ==
            Queued(queue[..k] + queue[k + 1..], f) + if queue[k].FiberTask? && queue[k].fiber == f then 1 else 0
    decreases |queue|
  {
    if k == 0 {
      assert queue[..0] + queue[1..] == queue[1..];
    } else {
      QueuedRemove(queue[1..], k - 1, f);
      assert (queue[..k] + queue[k + 1..])[1..] == queue[1..][..k - 1] + queue[1..][k..];
    }
  }

  lemma BusyChange(ws: map<Thread, Worker>, w: Thread, nw: Worker)
    requires w in ws
    ensures |BusyWorkers(ws[w := nw])| ==
            |BusyWorkers(ws)| + (if Busy(nw) then 1 else 0) - (if Busy(ws[w]) then 1 else 0)
  {
    var others := BusyWorkers(ws) - {w};
    assert BusyWorkers(ws) == others + if Busy(ws[w]) then {w} else {};
    assert BusyWorkers(ws[w := nw]) == others + if Busy(nw) then {w} else {};
  }

  /** A fiber the step does not touch. */
  lemma KeepOther(s: State, t: State, w: Thread, nw: Worker, g: Fiber)
    requires g in s.fibers && FiberOk(s, g) && w in s.workers && t.workers == s.workers[w := nw]
    requires g in t.fibers && t.fibers[g] == s.fibers[g]
    requires Queued(t.queue, g) == Queued(s.queue, g) && t.parked[g] == s.parked[g]
    requires Owns(nw.pc, g) <==> Owns(s.workers[w].pc, g)
    requires nw.cache == Some(g) <==> s.workers[w].cache == Some(g)
    requires Owns(nw.pc, g) ==> nw.pc == s.workers[w].pc
    ensures FiberOk(t, g)
  {
    hide Queued, FreeOk, LeftOk;
    assert forall v :: v in t.workers && v != w ==> t.workers[v] == s.workers[v];
    assert t.workers[w] == nw;
    if forall v :: v in t.workers ==> !Uses(t.workers[v], g) {
      assert forall v :: v in s.workers ==> !Uses(s.workers[v], g);
    }
  }

  /** The fiber the step is about, used by this worker or by none. */
  lemma KeepOwn(s: State, t: State, w: Thread, nw: Worker, f: Fiber)
    requires w in s.workers && t.workers == s.workers[w := nw]
    requires f in t.fibers && WakeUps(t, f) <= 1
    requires forall v :: v in s.workers && v != w ==> !Uses(s.workers[v], f)
    requires Uses(nw, f) ==> UseOk(nw, f, t.fibers[f], WakeUps(t, f))
    requires !Uses(nw, f) ==> FreeOk(t.fibers[f], Queued(t.queue, f), t.parked[f])
    ensures FiberOk(t, f)
  {
    hide Queued, FreeOk, UseOk;
    assert forall v :: v in t.workers && v != w ==> t.workers[v] == s.workers[v];
    assert t.workers[w] == nw;
  }

  /** A fiber whose worker-side is unchanged. */
  lemma KeepQueue(s: State, t: State, f: Fiber)
    requires f in s.fibers && FiberOk(s, f) && t.workers == s.workers
    requires f in t.fibers && t.fibers[f] == s.fibers[f] && WakeUps(t, f) == WakeUps(s, f)
    requires Queued(t.queue, f) >= Queued(s.queue, f) && (s.parked[f] == t.parked[f] || s.parked[f] > 0)
    ensures FiberOk(t, f)
  {
    hide Queued, UseOk;
  }

  // ------------------------------------------------------ every step keeps Inv

  lemma SubmitKeeps(s: State, step: Step)
    requires Inv(s) && Enabled(s, step) && step.Submit?
    ensures Inv(Apply(s, step))
  {
    hide FiberOk;
    var t := Apply(s, step);
    forall f
      ensures f in t.fibers ==> FiberOk(t, f)
      ensures WakeUps(t, f) == WakeUps(s, f)
    {
      QueuedAppend(s.queue, CbTask(step.cb, step.thread), f);
      if f in s.fibers {
        KeepQueue(s, t, f);
      }
    }
  }

  lemma SpawnKeeps(s: State, step: Step)
    requires Inv(s) && Enabled(s, step) && step.Spawn?
    ensures Inv(Apply(s, step))
  {
    hide Queued, UseOk;
    var t := Apply(s, step);
    forall f
      ensures f in t.fibers ==> FiberOk(t, f)
      ensures f != step.fiber ==> WakeUps(t, f) == WakeUps(s, f)
    {
      QueuedAppend(s.queue, FiberTask(step.fiber, step.thread), f);
      if f in s.fibers {
        KeepQueue(s, t, f);
      }
    }
  }

  lemma WakeKeeps(s: State, step: Step)
    requires Inv(s) && Enabled(s, step) && step.Wake?
    ensures Inv(Apply(s, step))
  {
    hide FiberOk;
    var t := Apply(s, step);
    forall f
      ensures f in t.fibers ==> FiberOk(t, f)
      ensures WakeUps(t, f) == WakeUps(s, f)
    {
      QueuedAppend(s.queue, FiberTask(step.fiber, step.thread), f);
      if f in s.fibers {
        KeepQueue(s, t, f);
      }
    }
  }

  /** A queued fiber that is not executing is in nobody's hands. */
  lemma QueuedIsFree(s: State, f: Fiber)
    requires f in s.fibers && FiberOk(s, f) && Queued(s.queue, f) > 0 && s.fibers[f] != EXEC
    ensures forall w :: w in s.workers ==> !Uses(s.workers[w], f)
    ensures WakeUps(s, f) == 1 && !Over(s.fibers[f])
  {
    hide Queued;
  }

  lemma TakeKeeps(s: State, step: Step)
    requires Inv(s) && Enabled(s, step) && step.Take?
    ensures Inv(Apply(s, step))
  {
    hide FiberOk, FirstEligible, Queued;
    var t, w := Apply(s, step), step.worker;
    var k := FirstEligible(s.queue, s.fibers, w);
    var task := s.queue[k];
    var nw := s.workers[w].(pc := Holding(task));
    BusyChange(s.workers, w, nw);
    forall f
      ensures f in t.fibers ==> FiberOk(t, f)
      ensures f !in t.fibers ==> WakeUps(t, f) == 0 && !Uses(nw, f)
    {
      QueuedRemove(s.queue, k, f);
      if task.FiberTask? && task.fiber == f {
        assert f in s.fibers;
        QueuedIsFree(s, f);
        KeepOwn(s, t, w, nw, f);
      } else if f in s.fibers {
        KeepOther(s, t, w, nw, f);
      }
    }
  }

  /** A step of a worker on the fiber it owns. */
  lemma OwnStep(s: State, t: State, w: Thread, nw: Worker, f: Fiber)
    requires Inv(s) && w in s.workers && Owns(s.workers[w].pc, f)
    requires t.workers == s.workers[w := nw] && t.fibers.Keys == s.fibers.Keys
    requires forall g :: g in s.fibers && g != f ==> t.fibers[g] == s.fibers[g]
    requires forall g :: g != f ==> Queued(t.queue, g) == Queued(s.queue, g) && t.parked[g] == s.parked[g]
    requires forall g :: g != f ==> !Owns(nw.pc, g)
    requires nw.cache == s.workers[w].cache || (nw.cache == None && s.workers[w].cache == Some(f))
    requires t.active == s.active + (if Busy(nw) then 1 else 0) - (if Busy(s.workers[w]) then 1 else 0)
    requires WakeUps(t, f) <= 1
    requires Uses(nw, f) ==> f in t.fibers && UseOk(nw, f, t.fibers[f], WakeUps(t, f))
    requires !Uses(nw, f) ==> f in t.fibers && FreeOk(t.fibers[f], Queued(t.queue, f), t.parked[f])
    ensures Inv(t)
  {
    hide Queued, UseOk, FreeOk, FiberOk;
    BusyChange(s.workers, w, nw);
    assert f in s.fibers;
    OnlyUser(s, w, f);
    KeepOwn(s, t, w, nw, f);
    forall g | g in t.fibers && g != f
      ensures FiberOk(t, g)
    {
      OwnsOne(s.workers[w].pc, f, g);
      KeepOther(s, t, w, nw, g);
    }
  }

  lemma OwnsOne(pc: Pc, f: Fiber, g: Fiber)
    requires Owns(pc, f) && f != g
    ensures !Owns(pc, g)
  {
  }

  lemma OnlyUser(s: State, w: Thread, f: Fiber)
    requires Inv(s) && w in s.workers && Uses(s.workers[w], f)
    ensures f in s.fibers && UseOk(s.workers[w], f, s.fibers[f], WakeUps(s, f)) && WakeUps(s, f) <= 1
    ensures forall v :: v in s.workers && v != w ==> !Uses(s.workers[v], f)
  {
    hide Queued, UseOk, FreeOk;
    assert f in s.fibers;
    assert FiberOk(s, f);
  }

  lemma RunKeeps(s: State, step: Step)
    requires Inv(s) && Enabled(s, step) && Disciplined(s, step)
    requires
      || step.Drop? || step.Enter? || step.EnterCb? || step.Park?
      || step.YieldHold? || step.YieldReady? || step.Finish? || step.Leave?
    ensures Inv(Apply(s, step))
  {
    hide Inv, Queued;
    var t, w := Apply(s, step), step.worker;
    var pc := s.workers[w].pc;
    var f := if pc.Holding? then pc.task.fiber else pc.fiber;
    OnlyUser(s, w, f);
    OwnStep(s, t, w, t.workers[w], f);
  }

  lemma SettleKeeps(s: State, step: Step)
    requires Inv(s) && Enabled(s, step) && step.Settle?
    ensures Inv(Apply(s, step))
  {
    hide Inv, Queued;
    var t, w, f := Apply(s, step), step.worker, s.workers[step.worker].pc.fiber;
    OnlyUser(s, w, f);
    if s.fibers[f] == READY {
      forall g
        ensures Queued(t.queue, g) == Queued(s.queue, g) + if g == f then 1 else 0
      {
        QueuedAppend(s.queue, FiberTask(f, -1), g);
      }
      OwnStep(s, t, w, t.workers[w], f);
    } else {
      OwnStep(s, t, w, t.workers[w], f);
    }
  }

  lemma PrepareKeeps(s: State, step: Step)
    requires Inv(s) && Enabled(s, step) && step.Prepare?
    ensures Inv(Apply(s, step))
  {
    hide Queued, FiberOk;
    var t, w := Apply(s, step), step.worker;
    var f := if s.workers[w].cache.Some? then s.workers[w].cache.value else step.spare;
    var nw := Worker(Entering(f), Some(f));
    BusyChange(s.workers, w, nw);
    if s.workers[w].cache.Some? {
      OnlyUser(s, w, f);
    }
    forall g | g in t.fibers
      ensures FiberOk(t, g)
    {
      if g == f {
        KeepOwn(s, t, w, nw, f);
      } else {
        KeepOther(s, t, w, nw, g);
      }
    }
  }

  lemma ApplyKeeps(s: State, step: Step)
    requires Inv(s) && Enabled(s, step) && Disciplined(s, step)
    ensures Inv(Apply(s, step))
  {
    match step
    case Submit(_, _) => SubmitKeeps(s, step);
    case Spawn(_, _) => SpawnKeeps(s, step);
    case Wake(_, _) => WakeKeeps(s, step);
    case RequestStop => StopKeeps(s);
    case Take(_) => TakeKeeps(s, step);
    case Prepare(_, _) => PrepareKeeps(s, step);
    case Settle(_) => SettleKeeps(s, step);
    case _ => RunKeeps(s, step);
  }

  lemma StopKeeps(s: State)
    requires Inv(s)
    ensures Inv(s.(autoStop := true, stop := true))
  {
    hide Queued, UseOk, FreeOk;
    var t := s.(autoStop := true, stop := true);
    forall f | f in t.fibers
      ensures FiberOk(t, f)
    {
      KeepQueue(s, t, f);
    }
  }

  /** The queue: which step puts what behind all other tasks. A task keeps the thread
      that it was scheduled for; a fiber that yielded READY comes back for any thread. */
  lemma QueueMoves(s: State, step: Step)
    requires Enabled(s, step)
    ensures
      var q := Apply(s, step).queue;
      match step
      case Submit(cb, thread) => q == s.queue + [CbTask(cb, thread)]
      case Spawn(f, thread) => q == s.queue + [FiberTask(f, thread)]
      case Wake(f, thread) => q == s.queue + [FiberTask(f, thread)]
      case Take(_) => |q| == |s.queue| - 1
      case Settle(w) =>
        var f := PcOf(s, w).fiber;
        q == s.queue + if s.fibers[f] == READY then [FiberTask(f, -1)] else []
      case _ => q == s.queue
  {
    hide FirstEligible;
  }

  /** The cb_fiber of a worker: it is made for the first callback, used again for the
      next one, and given up when a callback leaves it alive. */
  lemma CbFibers(s: State, step: Step, v: Thread)
    requires Enabled(s, step) && v in s.workers
    ensures v in Apply(s, step).workers
    ensures
      var t, cache := Apply(s, step), s.workers[v].cache;
      if step.Prepare? && step.worker == v then
        && t.workers[v].cache == Some(if cache.Some? then cache.value else step.spare)
        && t.workers[v].pc == Entering(t.workers[v].cache.value)
      else
        var lives := step.Settle? && step.worker == v && PcOf(s, v).viaCb && !Over(s.fibers[PcOf(s, v).fiber]);
        t.workers[v].cache == if lives then None else cache
  {
    if !step.Prepare? && !step.Settle? {
      SameCache(s, step, v);
      hide Apply;
    }
  }

  lemma SameCache(s: State, step: Step, v: Thread)
    requires Enabled(s, step) && v in s.workers && !step.Prepare? && !step.Settle?
    ensures v in Apply(s, step).workers && Apply(s, step).workers[v].cache == s.workers[v].cache
  {
    hide FirstEligible;
  }

  /** Fibers are made by spawning them, and for a callback when the worker has no
      cb_fiber. */
  lemma NewFibers(s: State, step: Step)
    requires Inv(s) && Enabled(s, step)
    ensures Apply(s, step).fibers.Keys ==
            s.fibers.Keys + match step
                            case Spawn(f, _) => {f}
                            case Prepare(w, spare) => if s.workers[w].cache.None? then {spare} else {}
                            case _ => {}
  {
    hide Inv, Queued, FirstEligible;
    if step.Prepare? {
      if s.workers[step.worker].cache.Some? {
        OnlyUser(s, step.worker, s.workers[step.worker].cache.value);
      }
    } else if !step.Submit? && !step.Spawn? && !step.Wake? && !step.RequestStop? && !step.Take? {
      var pc := PcOf(s, step.worker);
      OnlyUser(s, step.worker, if pc.Holding? then pc.task.fiber else pc.fiber);
    }
  }

  /** The states of a fiber: which step takes it from which state to which. */
  lemma StateChanges(s: State, step: Step, f: Fiber)
    requires Inv(s) && Enabled(s, step) && f in s.fibers
    requires f in Apply(s, step).fibers && Apply(s, step).fibers[f] != s.fibers[f]
    ensures
      var was, now := s.fibers[f], Apply(s, step).fibers[f];
      match now
      case EXEC => (step.Enter? || step.EnterCb?) && was in {INIT, HOLD, READY}
      case READY => step.YieldReady? && was == EXEC
      case TERM => step.Finish? && !step.thrown && was == EXEC
      case EXCEPT => step.Finish? && step.thrown && was == EXEC
      case HOLD => step.Settle? && was == EXEC
      case INIT => step.Settle? && was in {TERM, EXCEPT} && s.workers[step.worker].cache == Some(f)
  {
    hide Inv, Queued, FirstEligible;
    if step.Prepare? {
      if s.workers[step.worker].cache == Some(f) {
        OnlyUser(s, step.worker, f);
      }
    } else if !step.Submit? && !step.Spawn? && !step.Wake? && !step.RequestStop? && !step.Take? {
      var pc := PcOf(s, step.worker);
      OnlyUser(s, step.worker, if pc.Holding? then pc.task.fiber else pc.fiber);
    }
  }

  // -------------------------------------------------------------- whole runs

  /** A scheduler with some idle workers and nothing to do. */
  predicate Initial(s: State) {
    && s.fibers == map[] && s.queue == [] && s.active == 0 && s.parked == multiset{}
    && (forall w :: w in s.workers ==> s.workers[w] == Worker(Scanning, None))
    && !s.autoStop && !s.stop && s.submitted == {} && s.started == {}
  }

  ghost predicate Run(s: State, steps: seq<Step>)
    decreases |steps|
  {
    steps == [] || (Enabled(s, steps[0]) && Run(Apply(s, steps[0]), steps[1..]))
  }

  ghost predicate DisciplinedRun(s: State, steps: seq<Step>)
    requires Run(s, steps)
    decreases |steps|
  {
    steps == [] || (Disciplined(s, steps[0]) && DisciplinedRun(Apply(s, steps[0]), steps[1..]))
  }

  ghost function After(s: State, steps: seq<Step>): State
    requires Run(s, steps)
    decreases |steps|
  {
    if steps == [] then s else After(Apply(s, steps[0]), steps[1..])
  }

  lemma InitialInv(s: State)
    requires Initial(s)
    ensures Inv(s)
  {
    assert BusyWorkers(s.workers) == {};
  }

  lemma {:induction false} RunKeepsInv(s: State, steps: seq<Step>)
    requires Inv(s) && Run(s, steps) && DisciplinedRun(s, steps)
    ensures Inv(After(s, steps))
    decreases |steps|
  {
    if steps != [] {
      hide Inv, Enabled, Disciplined, Apply;
      ApplyKeeps(s, steps[0]);
      RunKeepsInv(Apply(s, steps[0]), steps[1..]);
    }
  }

  /** In every interleaving a fiber is in the hands of at most one worker. */
  lemma ExclusiveExecution(s: State, steps: seq<Step>, f: Fiber, w: Thread, v: Thread)
    requires Initial(s) && Run(s, steps) && DisciplinedRun(s, steps)
    requires
      var t := After(s, steps);
      w in t.workers && v in t.workers && Owns(t.workers[w].pc, f) && Owns(t.workers[v].pc, f)
    ensures w == v
  {
    InitialInv(s);
    RunKeepsInv(s, steps);
    var t := After(s, steps);
    OnlyUser(t, w, f);
    assert Uses(t.workers[v], f);
  }

  /** A worker has only tasks in its hands that may run on its thread. */
  predicate PinsKept(s: State) {
    forall w :: w in s.workers && s.workers[w].pc.Holding? ==>
      s.workers[w].pc.task.thread == -1 || s.workers[w].pc.task.thread == w
  }

  lemma StepKeepsPins(s: State, step: Step)
    requires Enabled(s, step) && PinsKept(s)
    ensures PinsKept(Apply(s, step))
  {
    hide FirstEligible;
  }

  /** In every interleaving a task that is scheduled for a thread is taken by that
      thread only. */
  lemma {:induction false} PinnedTasks(s: State, steps: seq<Step>)
    requires Run(s, steps) && PinsKept(s)
    ensures PinsKept(After(s, steps))
    decreases |steps|
  {
    if steps != [] {
      hide Apply, Enabled, PinsKept;
      StepKeepsPins(s, steps[0]);
      PinnedTasks(Apply(s, steps[0]), steps[1..]);
    }
  }

  /** The assertions of Fiber::swapIn and Fiber::reset: the fiber a worker is
      about to enter is not executing, and the cb_fiber it is about to reuse
      or has just finished is INIT, TERM or EXCEPT. */
  predicate AssertionsHold(s: State, w: Thread)
    requires w in s.workers
  {
    match s.workers[w].pc
    case Holding(FiberTask(f, _)) => f in s.fibers && s.fibers[f] != EXEC
    case Holding(CbTask(_, _)) =>
      s.workers[w].cache.Some? ==> s.workers[w].cache.value in s.fibers && s.fibers[s.workers[w].cache.value] == INIT
    case Entering(f) => f in s.fibers && s.fibers[f] != EXEC
    case Running(f, _) => f in s.fibers && s.fibers[f] == EXEC
    case _ => true
  }

  lemma SwapInNeverSeesExec(s: State, steps: seq<Step>, w: Thread)
    requires Initial(s) && Run(s, steps) && DisciplinedRun(s, steps) && w in After(s, steps).workers
    ensures AssertionsHold(After(s, steps), w)
  {
    InitialInv(s);
    RunKeepsInv(s, steps);
    var t := After(s, steps);
    hide Inv, Initial, Run, DisciplinedRun, After;
    match t.workers[w].pc
    case Holding(FiberTask(f, _)) => OnlyUser(t, w, f);
    case Holding(CbTask(_, _)) => if t.workers[w].cache.Some? { OnlyUser(t, w, t.workers[w].cache.value); }
    case Entering(f) => OnlyUser(t, w, f);
    case Running(f, _) => OnlyUser(t, w, f);
    case _ =>
  }

  lemma {:induction false} RunAppend(s: State, a: seq<Step>, b: seq<Step>)
    requires Run(s, a) && Run(After(s, a), b)
    ensures Run(s, a + b) && After(s, a + b) == After(After(s, a), b)
    decreases |a|
  {
    hide Enabled, Apply;
    if a == [] {
      assert a + b == b;
    } else {
      assert (a + b)[1..] == a[1..] + b;
      RunAppend(Apply(s, a[0]), a[1..], b);
    }
  }

  lemma OneStep(s: State, step: Step)
    requires Enabled(s, step)
    ensures Run(s, [step]) && After(s, [step]) == Apply(s, step)
  {
    hide Enabled, Apply;
    assert [step][1..] == [];
    assert Run(Apply(s, step), []);
  }

  /** A scheduler in which worker 0 runs fiber 7 and that is all. */
  function Launched(s: State): State {
    s.(fibers := map[7 := EXEC], workers := s.workers[0 := Worker(Running(7, false), None)], active := 1)
  }

  const Launch := [Spawn(7, -1)] + [Take(0)] + [Enter(0)]

  lemma LaunchRuns(s: State)
    requires Initial(s) && 0 in s.workers
    ensures Run(s, Launch) && After(s, Launch) == Launched(s)
  {
    hide Run, After;
    var s1 := s.(queue := [FiberTask(7, -1)], fibers := map[7 := INIT]);
    assert Apply(s, Spawn(7, -1)) == s1;
    assert FirstEligible(s1.queue, s1.fibers, 0) == 0;
    hide FirstEligible;
    OneStep(s, Spawn(7, -1));
    var s2 := s1.(queue := [], workers := s.workers[0 := Worker(Holding(FiberTask(7, -1)), None)], active := 1);
    assert Apply(s1, Take(0)) == s2;
    OneStep(s1, Take(0));
    RunAppend(s, [Spawn(7, -1)], [Take(0)]);
    assert Apply(s2, Enter(0)) == Launched(s);
    OneStep(s2, Enter(0));
    RunAppend(s, [Spawn(7, -1)] + [Take(0)], [Enter(0)]);
  }

  // ------------------------------------------------------------- quiescence

  /** Scheduler::stopping. */
  predicate Stopping(s: State) {
    s.autoStop && s.stop && s.queue == [] && s.active == 0
  }

  /** No task is queued or held and no fiber waits to go on. */
  predicate NothingLeft(s: State) {
    && s.queue == []
    && (forall w :: w in s.workers ==> !Busy(s.workers[w]))
    && (forall f :: f in s.fibers ==> s.fibers[f] != READY)
  }

  /** A worker has counted itself out but not yet put its fiber back. */
  predicate Requeueing(s: State, w: Thread) {
    && w in s.workers && s.workers[w].pc.Settling?
    && s.workers[w].pc.fiber in s.fibers && s.fibers[s.workers[w].pc.fiber] == READY
  }

  /** When stopping() is true the workers hold nothing; and nothing at all is
      left exactly when no worker is about to requeue a READY fiber. */
  lemma StoppingMeans(s: State)
    requires Inv(s) && Stopping(s)
    ensures forall w :: w in s.workers ==> s.workers[w].pc.Scanning? || s.workers[w].pc.Settling?
    ensures NothingLeft(s) <==> forall w :: !Requeueing(s, w)
  {
    forall w | w in s.workers
      ensures !Busy(s.workers[w])
    {
      assert w !in BusyWorkers(s.workers) by { assert BusyWorkers(s.workers) == {}; }
    }
    forall f | f in s.fibers && s.fibers[f] == READY
      ensures exists w :: Requeueing(s, w)
    {
      assert FiberOk(s, f);
      var w :| w in s.workers && Uses(s.workers[w], f);
      assert Requeueing(s, w);
    }
  }

  lemma StoppingInRuns(s: State, steps: seq<Step>)
    requires Initial(s) && Run(s, steps) && DisciplinedRun(s, steps) && Stopping(After(s, steps))
    ensures
      var t := After(s, steps);
      NothingLeft(t) <==> forall w :: !Requeueing(t, w)
  {
    InitialInv(s);
    RunKeepsInv(s, steps);
    StoppingMeans(After(s, steps));
  }

  /** stop() has been called. */
  predicate Requested(steps: seq<Step>) {
    exists i :: 0 <= i < |steps| && steps[i].RequestStop?
  }

  lemma FlagsMove(s: State, step: Step)
    requires Enabled(s, step)
    ensures Apply(s, step).autoStop == (s.autoStop || step.RequestStop?)
    ensures Apply(s, step).stop == (s.stop || step.RequestStop?)
  {
    hide FirstEligible;
  }

  lemma {:induction false} FlagsInRuns(s: State, steps: seq<Step>)
    requires Run(s, steps)
    ensures After(s, steps).autoStop == (s.autoStop || Requested(steps))
    ensures After(s, steps).stop == (s.stop || Requested(steps))
    decreases |steps|
  {
    if steps != [] {
      hide Apply, Enabled;
      FlagsMove(s, steps[0]);
      FlagsInRuns(Apply(s, steps[0]), steps[1..]);
      assert steps == [steps[0]] + steps[1..];
      assert Requested(steps) <==> steps[0].RequestStop? || Requested(steps[1..]) by {
        if Requested(steps[1..]) {
          var i :| 0 <= i < |steps[1..]| && steps[1..][i].RequestStop?;
          assert steps[i + 1].RequestStop?;
        }
      }
    }
  }

  /** No worker has a task in its hands that it counts. */
  predicate AllIdle(s: State) {
    forall w :: w in s.workers ==> s.workers[w].pc.Scanning? || s.workers[w].pc.Settling?
  }

  lemma IdleMeans(s: State)
    requires Inv(s)
    ensures s.active == 0 <==> AllIdle(s)
  {
    hide FiberOk, NoStrangers;
    if AllIdle(s) {
      assert BusyWorkers(s.workers) == {};
    } else {
      var w :| w in s.workers && !(s.workers[w].pc.Scanning? || s.workers[w].pc.Settling?);
      assert w in BusyWorkers(s.workers);
    }
  }

  /** In every interleaving stopping() is true if and only if stop() has been called,
      nothing is queued and every worker is looking for a task or putting one back. */
  lemma StoppingExactly(s: State, steps: seq<Step>)
    requires Initial(s) && Run(s, steps) && DisciplinedRun(s, steps)
    ensures
      var t := After(s, steps);
      Stopping(t) <==> Requested(steps) && t.queue == [] && AllIdle(t)
  {
    InitialInv(s);
    RunKeepsInv(s, steps);
    FlagsInRuns(s, steps);
    IdleMeans(After(s, steps));
    hide Inv, Run, AllIdle, Requested, After;
  }

  const Hasty := [YieldReady(0)] + [RequestStop] + [Leave(0)]

  lemma HastyRuns(s: State)
    requires Initial(s) && 0 in s.workers
    ensures Run(Launched(s), Hasty)
    ensures After(Launched(s), Hasty) ==
            s.(fibers := map[7 := READY], workers := s.workers[0 := Worker(Settling(7, false), None)],
               autoStop := true, stop := true)
  {
    hide Run, After;
    var s0 := Launched(s);
    var s1 := s0.(fibers := map[7 := READY], workers := s.workers[0 := Worker(Returned(7, false), None)]);
    assert Apply(s0, YieldReady(0)) == s1;
    OneStep(s0, YieldReady(0));
    var s2 := s1.(autoStop := true, stop := true);
    OneStep(s1, RequestStop);
    RunAppend(s0, [YieldReady(0)], [RequestStop]);
    OneStep(s2, Leave(0));
    RunAppend(s0, [YieldReady(0)] + [RequestStop], [Leave(0)]);
  }

  /** It does happen: the counter drops before a READY fiber is put back, and
      stopping() is true in between. */
  lemma StoppingTooEarly(s: State)
    requires Initial(s) && 0 in s.workers
    ensures Run(s, Launch + Hasty)
    ensures
      var t := After(s, Launch + Hasty);
      Stopping(t) && Requeueing(t, 0) && !NothingLeft(t) && !Stopping(Apply(t, Settle(0)))
  {
    hide Run, After;
    LaunchRuns(s);
    HastyRuns(s);
    RunAppend(s, Launch, Hasty);
    assert 7 in After(s, Launch + Hasty).fibers;
  }

  // ----------------------------------------------------- task conservation

  function QueuedCb(queue: seq<Task>, c: Callback): nat {
    if queue == [] then 0
    else (if queue[0].CbTask? && queue[0].cb == c then 1 else 0) + QueuedCb(queue[1..], c)
  }

  predicate HoldsCb(w: Worker, c: Callback) {
    w.pc.Holding? && w.pc.task.CbTask? && w.pc.task.cb == c
  }

  function Holders(ws: map<Thread, Worker>, c: Callback): set<Thread> {
    set w | w in ws && HoldsCb(ws[w], c)
  }

  /** A scheduled callback is queued once, held once or started. */
  ghost predicate Conserved(s: State) {
    forall c ::
      QueuedCb(s.queue, c) + |Holders(s.workers, c)| + (if c in s.started then 1 else 0)
      == if c in s.submitted then 1 else 0
  }

  lemma {:induction false} QueuedCbAppend(queue: seq<Task>, t: Task, c: Callback)
    ensures QueuedCb(queue + [t], c) == QueuedCb(queue, c) + if t.CbTask? && t.cb == c then 1 else 0
    decreases |queue|
  {
    if queue != [] {
      QueuedCbAppend(queue[1..], t, c);
      assert (queue + [t])[1..] == queue[1..] + [t];
    } else {
      assert (queue + [t])[1..] == [];
    }
  }

  lemma {:induction false} QueuedCbRemove(queue: seq<Task>, k: nat, c: Callback)
    requires k < |queue|
    ensures QueuedCb(queue, c) ==
            QueuedCb(queue[..k] + queue[k + 1..], c) + if queue[k].CbTask? && queue[k].cb == c then 1 else 0
    decreases |queue|
  {
    if k == 0 {
      assert queue[..0] + queue[1..] == queue[1..];
    } else {
      QueuedCbRemove(queue[1..], k - 1, c);
      assert (queue[..k] + queue[k + 1..])[1..] == queue[1..][..k - 1] + queue[1..][k..];
    }
  }

  lemma HoldersChange(ws: map<Thread, Worker>, w: Thread, nw: Worker, c: Callback)
    requires w in ws
    ensures |Holders(ws[w := nw], c)| ==
            |Holders(ws, c)| + (if HoldsCb(nw, c) then 1 else 0) - (if HoldsCb(ws[w], c) then 1 else 0)
  {
    var others := Holders(ws, c) - {w};
    assert Holders(ws, c) == others + if HoldsCb(ws[w], c) then {w} else {};
    assert Holders(ws[w := nw], c) == others + if HoldsCb(nw, c) then {w} else {};
  }

  lemma ApplyConserves(s: State, step: Step)
    requires Conserved(s) && Enabled(s, step)
    ensures Conserved(Apply(s, step))
  {
    hide QueuedCb, Queued, FirstEligible, Settled;
    var t := Apply(s, step);
    forall c
      ensures QueuedCb(t.queue, c) + |Holders(t.workers, c)| + (if c in t.started then 1 else 0)
              == if c in t.submitted then 1 else 0
    {
      match step
      case Submit(cb, thread) => QueuedCbAppend(s.queue, CbTask(cb, thread), c);
      case Spawn(f, thread) => QueuedCbAppend(s.queue, FiberTask(f, thread), c);
      case Wake(f, thread) => QueuedCbAppend(s.queue, FiberTask(f, thread), c);
      case RequestStop =>
      case Take(w) =>
        QueuedCbRemove(s.queue, FirstEligible(s.queue, s.fibers, w), c);
        HoldersChange(s.workers, w, t.workers[w], c);
      case Park(w) =>
      case Settle(w) => SettleConserves(s, w, c);
      case _ =>
        HoldersChange(s.workers, step.worker, t.workers[step.worker], c);
    }
  }

  lemma SettleConserves(s: State, w: Thread, c: Callback)
    requires w in s.workers && PcOf(s, w).Settling? && PcOf(s, w).fiber in s.fibers
    ensures
      var t := Settled(s, w);
      && QueuedCb(t.queue, c) == QueuedCb(s.queue, c) && |Holders(t.workers, c)| == |Holders(s.workers, c)|
      && t.started == s.started && t.submitted == s.submitted
  {
    QueuedCbAppend(s.queue, FiberTask(PcOf(s, w).fiber, -1), c);
    HoldersChange(s.workers, w, Settled(s, w).workers[w], c);
  }

  lemma {:induction false} RunConserves(s: State, steps: seq<Step>)
    requires Conserved(s) && Run(s, steps)
    ensures Conserved(After(s, steps))
    decreases |steps|
  {
    if steps != [] {
      hide Conserved, Enabled, Apply;
      ApplyConserves(s, steps[0]);
      RunConserves(Apply(s, steps[0]), steps[1..]);
    }
  }

  /** Over any run no callback is lost, duplicated or begun twice: a worker
      about to begin one finds it scheduled and not yet begun. */
  lemma CallbacksOnce(s: State, steps: seq<Step>, w: Thread, c: Callback)
    requires Initial(s) && Run(s, steps)
    requires w in After(s, steps).workers && HoldsCb(After(s, steps).workers[w], c)
    ensures Conserved(After(s, steps))
    ensures c in After(s, steps).submitted && c !in After(s, steps).started && QueuedCb(After(s, steps).queue, c) == 0
  {
    var t := After(s, steps);
    assert forall d :: Holders(s.workers, d) == {};
    RunConserves(s, steps);
    hide QueuedCb;
    assert w in Holders(t.workers, c);
    assert |Holders(t.workers, c)| >= 1 by {
      assert Holders(t.workers, c) == Holders(t.workers, c) - {w} + {w};
    }
  }
}
