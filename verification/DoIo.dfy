/** The suspension protocol of do_io, seen from one call: a fiber that would
    block arms a timer, registers its event, yields, and is queued again by
    readiness or by the timer's callback, whichever comes first. DoIoSystem
    shows that the event registry and the timer manager make exactly this. */
module DoIo {

  datatype Result = Value | TimedOut | AddFailed

  datatype Phase = Trying | Armed | Waiting | Queued | Returned(result: Result)

  /** The timer of one attempt. NoTimer: there is no time limit. HandedOut: its
      callback is queued but has not run. Marking: the callback has set
      tinfo->cancelled and has not yet called cancelEvent. */
  datatype Clock = NoTimer | Pending | HandedOut | Marking | Ran | Stopped

  /** One call of do_io. cancelled is tinfo->cancelled, which all attempts
      share; registered is the event bit of this fiber; suspended and woken
      count its registrations and how often it was queued for them. */
  datatype Call = Call(
    phase: Phase,
    limited: bool,
    timers: seq<Clock>,
    cancelled: bool,
    registered: bool,
    suspended: nat,
    woken: nat)

  datatype Step =
    | Again
    | Complete
    | Register(ok: bool)
    | Resume
    | Readiness
    | Expire(i: nat)
    | RunCallback(i: nat)
    | CancelEvent(i: nat, ok: bool)
  {
    predicate Timed() {
      Expire? || RunCallback? || CancelEvent?
    }
  }

  predicate Enabled(c: Call, step: Step) {
    match step
    case Again => c.phase.Trying?
    case Complete => c.phase.Trying?
    case Register(_) => c.phase.Armed? && c.timers != []
    case Resume => c.phase.Queued? && c.timers != []
    case Readiness => c.registered
    case Expire(i) => i < |c.timers| && c.timers[i].Pending?
    case RunCallback(i) => i < |c.timers| && c.timers[i].HandedOut?
    case CancelEvent(i, _) => i < |c.timers| && c.timers[i].Marking?
  }

  /** The event is taken out of the registry and the fiber queued. */
  function Wake(c: Call): Call {
    c.(registered := false, phase := Queued, woken := c.woken + 1)
  }

  /** timer->cancel() on the timer of the current attempt. */
  function StopTimer(c: Call): Call
    requires c.timers != []
  {
    var k := |c.timers| - 1;
    if c.timers[k].Pending? then c.(timers := c.timers[k := Stopped]) else c
  }

  function Apply(c: Call, step: Step): Call
    requires Enabled(c, step)
  {
    match step
    case Again => c.(phase := Armed, timers := c.timers + [if c.limited then Pending else NoTimer])
    case Complete => c.(phase := Returned(Value))
    case Register(ok) =>
      if ok then c.(phase := Waiting, registered := true, suspended := c.suspended + 1)
      else StopTimer(c).(phase := Returned(AddFailed))
    case Resume =>
      if c.cancelled then StopTimer(c).(phase := Returned(TimedOut)) else StopTimer(c).(phase := Trying)
    case Readiness => Wake(c)
    case Expire(i) => c.(timers := c.timers[i := HandedOut])
    case RunCallback(i) =>
      if c.phase.Returned? || c.cancelled then c.(timers := c.timers[i := Ran])
      else c.(timers := c.timers[i := Marking], cancelled := true)
    case CancelEvent(i, ok) =>
      if c.registered && ok then Wake(c.(timers := c.timers[i := Ran])) else c.(timers := c.timers[i := Ran])
  }

  /** A call that begins; what earlier calls of the fiber registered is over. */
  predicate Fresh(c: Call) {
    c == Call(Trying, c.limited, [], false, false, c.suspended, c.suspended)
  }

  predicate Called(timers: seq<Clock>, i: int) {
    0 <= i < |timers| && (timers[i].Marking? || timers[i].Ran?)
  }

  predicate AnyCalled(timers: seq<Clock>) {
    exists i: nat :: i < |timers| && Called(timers, i)
  }

  predicate Inv(c: Call) {
    && (c.registered <==> c.phase.Waiting?)
    && c.suspended == c.woken + (if c.registered then 1 else 0)
    && (c.phase.Armed? || c.phase.Waiting? || c.phase.Queued? ==> c.timers != [])
    && (c.phase == Returned(TimedOut) ==> c.cancelled)
    && (c.cancelled ==> AnyCalled(c.timers))
    && (!c.phase.Returned? && AnyCalled(c.timers) ==> c.cancelled)
    && ((c.phase.Armed? || c.phase.Waiting?) && c.limited && !c.cancelled ==>
          var last := c.timers[|c.timers| - 1]; last.Pending? || last.HandedOut?)
    && (forall i :: 0 <= i < |c.timers| && c.timers[i].Pending? ==> i == |c.timers| - 1 && Suspending(c.phase))
  }

  /** Between arming the timer and going on after the suspension. */
  predicate Suspending(p: Phase) {
    p.Armed? || p.Waiting? || p.Queued?
  }

  lemma CalledAt(c: Call, step: Step, i: nat)
    requires Enabled(c, step)
    ensures Called(Apply(c, step).timers, i) <==> Called(c.timers, i) || step == RunCallback(i)
  {
  }

  /** A callback that ran has run; only running one makes one run. */
  lemma CalledFrame(c: Call, step: Step)
    requires Enabled(c, step)
    ensures AnyCalled(Apply(c, step).timers) <==> AnyCalled(c.timers) || step.RunCallback?
  {
    hide Apply, Enabled;
    forall i: nat
      ensures Called(Apply(c, step).timers, i) <==> Called(c.timers, i) || step == RunCallback(i)
    {
      CalledAt(c, step, i);
    }
    if step.RunCallback? {
      assert Called(Apply(c, step).timers, step.i);
    }
  }

  lemma ApplyKeeps(c: Call, step: Step)
    requires Inv(c) && Enabled(c, step)
    ensures Inv(Apply(c, step)) && Apply(c, step).limited == c.limited
  {
    CalledFrame(c, step);
    hide AnyCalled;
  }

  ghost predicate Run(c: Call, steps: seq<Step>)
    decreases |steps|
  {
    steps == [] || (Enabled(c, steps[0]) && Run(Apply(c, steps[0]), steps[1..]))
  }

  ghost function After(c: Call, steps: seq<Step>): Call
    requires Run(c, steps)
    decreases |steps|
  {
    if steps == [] then c else After(Apply(c, steps[0]), steps[1..])
  }

  lemma OneStep(c: Call, step: Step)
    requires Enabled(c, step)
    ensures Run(c, [step]) && After(c, [step]) == Apply(c, step)
  {
    assert [step][1..] == [];
    assert Run(Apply(c, step), []);
  }

  lemma {:induction false} RunAppend(c: Call, a: seq<Step>, b: seq<Step>)
    requires Run(c, a) && Run(After(c, a), b)
    ensures Run(c, a + b) && After(c, a + b) == After(After(c, a), b)
    decreases |a|
  {
    hide Enabled, Apply;
    if a == [] {
      assert a + b == b;
    } else {
      assert (a + b)[1..] == a[1..] + b;
      RunAppend(Apply(c, a[0]), a[1..], b);
    }
  }

  lemma RunStep(c: Call, a: seq<Step>, step: Step)
    requires Run(c, a) && Enabled(After(c, a), step)
    ensures Run(c, a + [step]) && After(c, a + [step]) == Apply(After(c, a), step)
  {
    hide Enabled, Apply;
    OneStep(After(c, a), step);
    RunAppend(c, a, [step]);
  }

  /** Suspended, with the flag set and no callback left that would call cancelEvent. */
  predicate Stranded(c: Call) {
    c.phase.Waiting? && c.cancelled && forall i :: 0 <= i < |c.timers| ==> !c.timers[i].Marking?
  }

  ghost predicate AllTimed(steps: seq<Step>) {
    forall i :: 0 <= i < |steps| ==> steps[i].Timed()
  }

  ghost predicate WokenBy(c: Call, steps: seq<Step>) {
    AllTimed(steps) && Run(c, steps) && After(c, steps).phase.Queued?
  }

  lemma {:induction false} StrandedStays(c: Call, steps: seq<Step>)
    requires Stranded(c) && AllTimed(steps) && Run(c, steps)
    ensures Stranded(After(c, steps))
    decreases |steps|
  {
    if steps != [] {
      assert steps[0].Timed();
      StrandedStays(Apply(c, steps[0]), steps[1..]);
    }
  }

  /** From an expired timer on, its callback wakes the fiber. */
  lemma CallbackWakes(c: Call, i: nat)
    requires c.phase.Waiting? && c.registered && !c.cancelled && i < |c.timers| && c.timers[i].HandedOut?
    ensures WokenBy(c, [RunCallback(i)] + [CancelEvent(i, true)])
  {
    hide Run, After;
    OneStep(c, RunCallback(i));
    RunStep(c, [RunCallback(i)], CancelEvent(i, true));
  }

  lemma ExpiryWakes(c: Call, i: nat)
    requires c.phase.Waiting? && c.registered && !c.cancelled && i < |c.timers| && c.timers[i].Pending?
    ensures WokenBy(c, [Expire(i)] + [RunCallback(i)] + [CancelEvent(i, true)])
  {
    hide Run, After;
    OneStep(c, Expire(i));
    RunStep(c, [Expire(i)], RunCallback(i));
    RunStep(c, [Expire(i)] + [RunCallback(i)], CancelEvent(i, true));
  }

  /** Timers alone can still end the suspension of a call with a time limit
      exactly when it is not stranded. */
  lemma TimeoutStillComes(d: Call)
    requires Inv(d) && d.limited && d.phase.Waiting?
    ensures (exists more :: WokenBy(d, more)) <==> !Stranded(d)
  {
    hide Run, After;
    var k := |d.timers| - 1;
    if Stranded(d) {
      forall more | WokenBy(d, more)
        ensures false
      {
        StrandedStays(d, more);
      }
    } else if d.cancelled {
      var i :| 0 <= i < |d.timers| && d.timers[i].Marking?;
      OneStep(d, CancelEvent(i, true));
      assert WokenBy(d, [CancelEvent(i, true)]);
    } else if d.timers[k].HandedOut? {
      CallbackWakes(d, k);
    } else {
      ExpiryWakes(d, k);
    }
  }

  const TooEarly := [Again] + [Expire(0)] + [RunCallback(0)] + [CancelEvent(0, true)] + [Register(true)]

  /** It does happen: the timer is armed before the event is registered, and a
      callback that runs in between leaves the fiber without a time limit. */
  lemma TimeoutLost(c: Call)
    requires Fresh(c) && c.limited
    ensures Run(c, TooEarly) && Stranded(After(c, TooEarly))
  {
    hide Run, After;
    OneStep(c, Again);
    RunStep(c, [Again], Expire(0));
    RunStep(c, [Again] + [Expire(0)], RunCallback(0));
    RunStep(c, [Again] + [Expire(0)] + [RunCallback(0)], CancelEvent(0, true));
    RunStep(c, [Again] + [Expire(0)] + [RunCallback(0)] + [CancelEvent(0, true)], Register(true));
  }

  const FirstWait := [Again] + [Register(true)] + [Expire(0)] + [Readiness] + [Resume]
  const SecondWait := [Again] + [Register(true)] + [RunCallback(0)] + [CancelEvent(0, true)] + [Resume]

  /** It can come from an earlier attempt: a callback handed out during the
      first suspension ends the second, whose own timer has not expired. */
  lemma StaleTimeout(c: Call)
    requires Fresh(c) && c.limited
    ensures Run(c, FirstWait + SecondWait)
    ensures After(c, FirstWait + SecondWait).phase == Returned(TimedOut)
    ensures After(c, FirstWait + SecondWait).timers == [Ran, Stopped]
  {
    hide Run, After;
    FirstWaitRuns(c);
    SecondWaitRuns(c.(timers := [HandedOut], suspended := c.suspended + 1, woken := c.woken + 1));
    RunAppend(c, FirstWait, SecondWait);
  }

  lemma FirstWaitRuns(c: Call)
    requires Fresh(c) && c.limited
    ensures Run(c, FirstWait)
    ensures After(c, FirstWait) == c.(timers := [HandedOut], suspended := c.suspended + 1, woken := c.woken + 1)
  {
    hide Run, After;
    OneStep(c, Again);
    RunStep(c, [Again], Register(true));
    RunStep(c, [Again] + [Register(true)], Expire(0));
    assert After(c, [Again] + [Register(true)] + [Expire(0)]).timers == [HandedOut];
    RunStep(c, [Again] + [Register(true)] + [Expire(0)], Readiness);
    RunStep(c, [Again] + [Register(true)] + [Expire(0)] + [Readiness], Resume);
  }

  lemma SecondWaitRuns(c: Call)
    requires c.phase.Trying? && c.limited && c.timers == [HandedOut] && !c.cancelled && !c.registered
    ensures Run(c, SecondWait)
    ensures After(c, SecondWait).phase == Returned(TimedOut) && After(c, SecondWait).timers == [Ran, Stopped]
  {
    hide Run, After;
    OneStep(c, Again);
    RunStep(c, [Again], Register(true));
    RunStep(c, [Again] + [Register(true)], RunCallback(0));
    RunStep(c, [Again] + [Register(true)] + [RunCallback(0)], CancelEvent(0, true));
    assert After(c, [Again] + [Register(true)] + [RunCallback(0)] + [CancelEvent(0, true)]).timers == [Ran, Pending];
    RunStep(c, [Again] + [Register(true)] + [RunCallback(0)] + [CancelEvent(0, true)], Resume);
  }

  // ------------------------------------------ whose timer ends an attempt, exactly

  /** No further attempt begins, and timer n does not expire. */
  ghost predicate Quiet(steps: seq<Step>, n: nat) {
    forall i :: 0 <= i < |steps| ==> !steps[i].Again? && steps[i] != Expire(n)
  }

  /** The next attempt fails with a timeout although its own timer never expires. */
  ghost predicate EarlyTimeout(c: Call, steps: seq<Step>) {
    && Quiet(steps, |c.timers|) && Run(c, [Again] + steps)
    && After(c, [Again] + steps).phase == Returned(TimedOut)
  }

  /** The flag is set already, or an earlier attempt's callback is queued and has
      not begun. */
  predicate AtRisk(c: Call) {
    c.cancelled || exists i :: 0 <= i < |c.timers| && c.timers[i].HandedOut?
  }

  /** Timer n has not been handed out. */
  predicate Unexpired(c: Call, n: nat) {
    |c.timers| == n + 1 && (c.timers[n].Pending? || c.timers[n].Stopped? || c.timers[n].NoTimer?)
  }

  /** Nothing is on its way that could set the flag. */
  predicate Calm(c: Call, n: nat) {
    && !c.cancelled && c.phase != Returned(TimedOut) && Unexpired(c, n)
    && forall i :: 0 <= i < n ==> !c.timers[i].Pending? && !c.timers[i].HandedOut? && !c.timers[i].Marking?
  }

  lemma CalmStep(c: Call, step: Step, n: nat)
    requires Calm(c, n) && Enabled(c, step) && !step.Again? && step != Expire(n)
    ensures Calm(Apply(c, step), n)
  {
  }

  lemma UnexpiredStep(c: Call, step: Step, n: nat)
    requires Unexpired(c, n) && Enabled(c, step) && !step.Again? && step != Expire(n)
    ensures Unexpired(Apply(c, step), n)
  {
  }

  lemma {:induction false} CalmStays(c: Call, steps: seq<Step>, n: nat)
    requires Calm(c, n) && Run(c, steps) && Quiet(steps, n)
    ensures Calm(After(c, steps), n)
    decreases |steps|
  {
    if steps != [] {
      assert !steps[0].Again? && steps[0] != Expire(n);
      CalmStep(c, steps[0], n);
      hide Calm, Apply, Enabled;
      CalmStays(Apply(c, steps[0]), steps[1..], n);
    }
  }

  lemma {:induction false} UnexpiredStays(c: Call, steps: seq<Step>, n: nat)
    requires Unexpired(c, n) && Run(c, steps) && Quiet(steps, n)
    ensures Unexpired(After(c, steps), n)
    decreases |steps|
  {
    if steps != [] {
      assert !steps[0].Again? && steps[0] != Expire(n);
      UnexpiredStep(c, steps[0], n);
      hide Unexpired, Apply, Enabled;
      UnexpiredStays(Apply(c, steps[0]), steps[1..], n);
    }
  }

  lemma AgainFirst(c: Call, steps: seq<Step>)
    requires Run(c, [Again] + steps)
    ensures c.phase.Trying? && Run(Apply(c, Again), steps)
    ensures After(c, [Again] + steps) == After(Apply(c, Again), steps)
  {
    assert ([Again] + steps)[1..] == steps;
  }

  /** The next attempt begins in calm unless the call is at risk. */
  lemma AgainCalm(c: Call)
    requires Inv(c) && c.phase.Trying?
    ensures Unexpired(Apply(c, Again), |c.timers|)
    ensures !AtRisk(c) ==> Calm(Apply(c, Again), |c.timers|)
  {
    forall i | 0 <= i < |c.timers|
      ensures !c.cancelled ==> !c.timers[i].Marking?
    {
      assert c.timers[i].Marking? ==> Called(c.timers, i);
    }
  }

  const FlagSet := [Register(true)] + [Readiness] + [Resume]

  lemma FlagSetRuns(c: Call)
    requires c.phase.Armed? && c.timers != [] && c.cancelled
    ensures Run(c, FlagSet) && After(c, FlagSet).phase == Returned(TimedOut)
  {
    hide Run, After;
    OneStep(c, Register(true));
    RunStep(c, [Register(true)], Readiness);
    RunStep(c, [Register(true)] + [Readiness], Resume);
  }

  function Belated(i: nat): seq<Step> {
    [Register(true)] + [RunCallback(i)] + [CancelEvent(i, true)] + [Resume]
  }

  lemma BelatedRuns(c: Call, i: nat)
    requires c.phase.Armed? && !c.cancelled && i < |c.timers| && c.timers[i].HandedOut?
    ensures Run(c, Belated(i)) && After(c, Belated(i)).phase == Returned(TimedOut)
  {
    hide Run, After;
    OneStep(c, Register(true));
    RunStep(c, [Register(true)], RunCallback(i));
    RunStep(c, [Register(true)] + [RunCallback(i)], CancelEvent(i, true));
    RunStep(c, [Register(true)] + [RunCallback(i)] + [CancelEvent(i, true)], Resume);
  }

  lemma RiskRuns(c: Call) returns (steps: seq<Step>)
    requires Inv(c) && c.phase.Trying? && AtRisk(c)
    ensures EarlyTimeout(c, steps) && Unexpired(After(c, [Again] + steps), |c.timers|)
  {
    AgainCalm(c);
    hide Run, After, Inv;
    OneStep(c, Again);
    var a := Apply(c, Again);
    if c.cancelled {
      steps := FlagSet;
      FlagSetRuns(a);
    } else {
      var i: nat :| i < |c.timers| && c.timers[i].HandedOut?;
      steps := Belated(i);
      BelatedRuns(a, i);
    }
    RunAppend(c, [Again], steps);
    UnexpiredStays(a, steps, |c.timers|);
  }

  /** An attempt can fail with a timeout although its own timer does not expire
      if and only if, when it begins, the flag is set or the callback of an earlier
      attempt is queued and has not begun. */
  lemma EarlyTimeoutExactly(c: Call)
    requires Inv(c) && c.phase.Trying?
    ensures (exists steps :: EarlyTimeout(c, steps)) <==> AtRisk(c)
  {
    AgainCalm(c);
    hide Run, After, Inv, AtRisk, Apply;
    if AtRisk(c) {
      var steps := RiskRuns(c);
    } else {
      forall steps | Quiet(steps, |c.timers|) && Run(c, [Again] + steps)
        ensures After(c, [Again] + steps).phase != Returned(TimedOut)
      {
        AgainFirst(c, steps);
        CalmStays(Apply(c, Again), steps, |c.timers|);
      }
    }
  }
}
