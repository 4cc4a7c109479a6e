/** The event registry of IOManager on values: for each descriptor the events
    waited for and who waits, the pending-event counter, the kernel's epoll
    interest table, and the tasks handed to schedulers. */
module EventRegistry {

  import opened Basics

  datatype Event = READ | WRITE

  datatype Waiter = FiberWaiter(fiber: nat) | CbWaiter(cb: nat)

  /** An event bit of FdContext::events and its EventContext. */
  datatype Slot = Slot(on: bool, scheduler: Option<nat>, fiber: Option<nat>, cb: Option<nat>)

  const Empty := Slot(false, None, None, None)

  datatype FdContext = FdContext(read: Slot, write: Slot) {
    function At(e: Event): Slot {
      if e.READ? then read else write
    }

    function With(e: Event, s: Slot): FdContext {
      if e.READ? then this.(read := s) else this.(write := s)
    }

    function Events(): Bits {
      Bits(read.on, write.on)
    }
  }

  datatype Bits = Bits(read: bool, write: bool) {
    function Has(e: Event): bool {
      if e.READ? then read else write
    }

    function Any(): bool {
      read || write
    }

    function Minus(b: Bits): Bits {
      Bits(read && !b.read, write && !b.write)
    }

    function Count(): nat {
      (if read then 1 else 0) + (if write then 1 else 0)
    }
  }

  function Only(e: Event): Bits {
    Bits(e.READ?, e.WRITE?)
  }

  /** What was handed to Scheduler::schedule, and to which scheduler. */
  datatype Scheduled = Scheduled(scheduler: nat, waiter: Waiter)

  datatype State = State(fds: seq<FdContext>, pending: int, epoll: map<nat, Bits>, scheduled: seq<Scheduled>)

  /** What a call returns; Aborted is a failed JKYI_ASSERT. */
  datatype Outcome = Done | Refused | Aborted

  // -------------------------------------------------------------- epoll_ctl

  datatype EpollOp = ADD | MOD | DEL

  /** The kernel refuses ADD of a known and MOD or DEL of an unknown
      descriptor. */
  predicate Permitted(epoll: map<nat, Bits>, op: EpollOp, fd: nat) {
    if op.ADD? then fd !in epoll else fd in epoll
  }

  function EpollCtl(epoll: map<nat, Bits>, op: EpollOp, fd: nat, bits: Bits): map<nat, Bits> {
    if op.DEL? then epoll - {fd} else epoll[fd := bits]
  }

  // ------------------------------------------------------------- operations

  /** contextResize(fd * 1.5) when the descriptor has no context yet. */
  function Resized(fds: seq<FdContext>, fd: nat): (r: seq<FdContext>)
    requires |fds| >= 32
    ensures fds <= r && fd < |r| && forall i :: |fds| <= i < |r| ==> r[i] == FdContext(Empty, Empty)
  {
    if fd < |fds| then fds else fds + seq(fd * 3 / 2 - |fds|, _ => FdContext(Empty, Empty))
  }

  /** FdContext::triggerEvent: clear the bit, hand the waiter over (which swaps
      it out of the context), forget the scheduler. */
  function Trigger(s: State, fd: nat, e: Event): (r: State)
    requires fd < |s.fds| && s.fds[fd].At(e).on && s.fds[fd].At(e).scheduler.Some?
    requires s.fds[fd].At(e).fiber.Some? || s.fds[fd].At(e).cb.Some?
  {
    var slot := s.fds[fd].At(e);
    var waiter := if slot.cb.Some? then CbWaiter(slot.cb.value) else FiberWaiter(slot.fiber.value);
    var left := if slot.cb.Some? then slot.(on := false, scheduler := None, cb := None)
                else slot.(on := false, scheduler := None, fiber := None);
    s.(fds := s.fds[fd := s.fds[fd].With(e, left)],
       scheduled := s.scheduled + [Scheduled(slot.scheduler.value, waiter)])
  }

  /** addEvent; ok says whether the kernel has any other reason to refuse. */
  function AddEvent(s: State, fd: nat, e: Event, sched: nat, waiter: Waiter, ok: bool): (r: (State, Outcome))
    requires |s.fds| >= 32
  {
    var t := s.(fds := Resized(s.fds, fd));
    var ctx := t.fds[fd];
    if ctx.At(e).on then (t, Aborted)
    else
      var op := if ctx.Events().Any() then MOD else ADD;
      var slot := Slot(true, Some(sched), if waiter.FiberWaiter? then Some(waiter.fiber) else None,
                       if waiter.CbWaiter? then Some(waiter.cb) else None);
      if !ok || !Permitted(t.epoll, op, fd) then (t, Refused)
      else if ctx.At(e) != Empty then (t, Aborted)
      else
        var changed := ctx.With(e, slot);
        (t.(fds := t.fds[fd := changed], pending := s.pending + 1,
            epoll := EpollCtl(s.epoll, op, fd, changed.Events())), Done)
  }

  /** The common part of delEvent and cancelEvent: take one bit out of the
      kernel's table and count it out. */
  function Unregister(s: State, fd: nat, e: Event, ok: bool): (r: Option<State>)
    requires fd < |s.fds|
  {
    var left := s.fds[fd].Events().Minus(Only(e));
    var op := if left.Any() then MOD else DEL;
    if !s.fds[fd].At(e).on || !ok || !Permitted(s.epoll, op, fd) then None
    else Some(s.(epoll := EpollCtl(s.epoll, op, fd, left), pending := s.pending - 1))
  }

  function DelEvent(s: State, fd: nat, e: Event, ok: bool): (r: (State, Outcome)) {
    if fd >= |s.fds| then (s, Refused)
    else match Unregister(s, fd, e, ok)
      case None => (s, Refused)
      case Some(t) => (t.(fds := t.fds[fd := t.fds[fd].With(e, Empty)]), Done)
  }

  function CancelEvent(s: State, fd: nat, e: Event, ok: bool): (r: (State, Outcome))
    requires Inv(s)
  {
    if fd >= |s.fds| then (s, Refused)
    else match Unregister(s, fd, e, ok)
      case None => (s, Refused)
      case Some(t) =>
        assert SlotOk(s.fds[fd].At(e));
        (Trigger(t, fd, e), Done)
  }

  /** Trigger the given events of a descriptor, READ first, and count them out. */
  function TriggerAll(s: State, fd: nat, b: Bits): (r: State)
    requires fd < |s.fds| && FdOk(s.fds[fd])
    requires b.read ==> s.fds[fd].read.on
    requires b.write ==> s.fds[fd].write.on
  {
    var t := if b.read then Trigger(s, fd, READ).(pending := s.pending - 1) else s;
    if b.write then Trigger(t, fd, WRITE).(pending := t.pending - 1) else t
  }

  function CancelAll(s: State, fd: nat, ok: bool): (r: (State, Outcome))
    requires Inv(s)
  {
    if fd >= |s.fds| || !s.fds[fd].Events().Any() then (s, Refused)
    else if !ok || !Permitted(s.epoll, DEL, fd) then (s, Refused)
    else (TriggerAll(s, fd, s.fds[fd].Events()).(epoll := EpollCtl(s.epoll, DEL, fd, Bits(false, false))), Done)
  }

  /** One turn of the loop over ready descriptors in idle(). A bit that is
      reported but not registered, next to one that is, fails the assertion of
      triggerEvent. */
  function Dispatch(s: State, fd: nat, ready: Bits, error: bool, ok: bool): (r: (State, Outcome))
    requires Inv(s) && fd < |s.fds|
  {
    var events := s.fds[fd].Events();
    var hit := if error then Bits(ready.read || events.read, ready.write || events.write) else ready;
    if !(events.read && hit.read) && !(events.write && hit.write) then (s, Refused)
    else
      var left := events.Minus(hit);
      var op := if left.Any() then MOD else DEL;
      if !ok || !Permitted(s.epoll, op, fd) then (s, Refused)
      else if hit.Minus(events).Any() then (s, Aborted)
      else (TriggerAll(s, fd, hit).(epoll := EpollCtl(s.epoll, op, fd, left)), Done)
  }

  // -------------------------------------------------------------- invariant

  /** A bit is set exactly while its context holds a scheduler and exactly one
      of fiber and callback. */
  predicate SlotOk(s: Slot) {
    if s.on then s.scheduler.Some? && (s.fiber.Some? <==> s.cb.None?) else s == Empty
  }

  predicate FdOk(f: FdContext) {
    SlotOk(f.read) && SlotOk(f.write)
  }

  function CountBits(fds: seq<FdContext>): nat {
    if fds == [] then 0 else fds[0].Events().Count() + CountBits(fds[1..])
  }

  /** The kernel's table holds exactly the bits. */
  ghost predicate Mirrors(fds: seq<FdContext>, epoll: map<nat, Bits>) {
    forall fd: nat ::
      if fd < |fds| && fds[fd].Events().Any() then fd in epoll && epoll[fd] == fds[fd].Events() else fd !in epoll
  }

  ghost predicate Inv(s: State) {
    && |s.fds| >= 32
    && (forall i :: 0 <= i < |s.fds| ==> FdOk(s.fds[i]))
    && Mirrors(s.fds, s.epoll)
    && s.pending == CountBits(s.fds)
  }

  lemma {:induction false} CountUpdate(fds: seq<FdContext>, i: nat, f: FdContext)
    requires i < |fds|
    ensures CountBits(fds[i := f]) == CountBits(fds) - fds[i].Events().Count() + f.Events().Count()
    decreases |fds|
  {
    if i > 0 {
      CountUpdate(fds[1..], i - 1, f);
      assert fds[i := f][1..] == fds[1..][i - 1 := f];
    } else {
      assert fds[0 := f][1..] == fds[1..];
    }
  }

  lemma {:induction false} CountAppend(fds: seq<FdContext>, more: seq<FdContext>)
    requires forall i :: 0 <= i < |more| ==> more[i] == FdContext(Empty, Empty)
    ensures CountBits(fds + more) == CountBits(fds)
    decreases |fds| + |more|
  {
    if fds != [] {
      CountAppend(fds[1..], more);
      assert (fds + more)[1..] == fds[1..] + more;
    } else if more != [] {
      CountAppend([], more[1..]);
      assert fds + more == more && [] + more[1..] == more[1..];
    }
  }

  lemma ResizedKeeps(s: State, fd: nat)
    requires Inv(s)
    ensures Inv(s.(fds := Resized(s.fds, fd)))
  {
    hide CountBits;
    var r := Resized(s.fds, fd);
    assert r == s.fds + r[|s.fds|..];
    CountAppend(s.fds, r[|s.fds|..]);
  }

  /** Changing one context along with its entry in the table. */
  lemma ChangeKeeps(s: State, t: State, fd: nat, f: FdContext)
    requires Inv(s) && fd < |s.fds| && FdOk(f)
    requires t.fds == s.fds[fd := f]
    requires t.epoll == if f.Events().Any() then s.epoll[fd := f.Events()] else s.epoll - {fd}
    requires t.pending == s.pending - s.fds[fd].Events().Count() + f.Events().Count()
    ensures Inv(t)
  {
    hide CountBits;
    CountUpdate(s.fds, fd, f);
  }

  /** What addEvent stores for a waiter. */
  function Taken(sched: nat, waiter: Waiter): Slot {
    match waiter
    case FiberWaiter(f) => Slot(true, Some(sched), Some(f), None)
    case CbWaiter(c) => Slot(true, Some(sched), None, Some(c))
  }

  /** addEvent queues nobody; it fills the slot, in a table grown to half as much
      again as the descriptor if it has to be. */
  lemma AddEventKeeps(s: State, fd: nat, e: Event, sched: nat, waiter: Waiter, ok: bool)
    requires Inv(s)
    ensures
      var (t, out) := AddEvent(s, fd, e, sched, waiter, ok);
      && Inv(t) && t.scheduled == s.scheduled
      && (out.Aborted? <==> fd < |s.fds| && s.fds[fd].At(e).on)
      && (out.Refused? <==> !(fd < |s.fds| && s.fds[fd].At(e).on) && !ok)
      && |t.fds| == (if fd < |s.fds| then |s.fds| else fd * 3 / 2) && fd < |t.fds|
      && (forall k, x :: 0 <= k < |t.fds| && (k != fd || x != e || !out.Done?) ==>
            t.fds[k].At(x) == if k < |s.fds| then s.fds[k].At(x) else Empty)
      && (out.Done? ==> t.fds[fd].At(e) == Taken(sched, waiter))
  {
    hide CountBits;
    ResizedKeeps(s, fd);
    var r := s.(fds := Resized(s.fds, fd));
    var (t, out) := AddEvent(s, fd, e, sched, waiter, ok);
    assert r.fds[fd].At(e).on <==> fd < |s.fds| && s.fds[fd].At(e).on;
    assert FdOk(r.fds[fd]);
    if out.Done? {
      ChangeKeeps(r, t, fd, t.fds[fd]);
    }
  }

  /** The given slots of one descriptor are empty, and all others as they were. */
  ghost predicate Emptied(s: State, t: State, fd: nat, b: Bits) {
    && |t.fds| == |s.fds|
    && forall k, x :: 0 <= k < |s.fds| ==>
         t.fds[k].At(x) == if k == fd && b.Has(x) then Empty else s.fds[k].At(x)
  }

  lemma DelEventKeeps(s: State, fd: nat, e: Event, ok: bool)
    requires Inv(s)
    ensures
      var (t, out) := DelEvent(s, fd, e, ok);
      && Inv(t) && t.scheduled == s.scheduled
      && (if fd < |s.fds| && s.fds[fd].At(e).on && ok then out.Done? && Emptied(s, t, fd, Only(e))
          else out.Refused? && t == s)
  {
    hide CountBits;
    var (t, out) := DelEvent(s, fd, e, ok);
    if out.Done? {
      ChangeKeeps(s, t, fd, t.fds[fd]);
    }
  }

  /** Who waits in a slot. */
  function Waits(sl: Slot): Scheduled
    requires SlotOk(sl) && sl.on
  {
    Scheduled(sl.scheduler.value, if sl.cb.Some? then CbWaiter(sl.cb.value) else FiberWaiter(sl.fiber.value))
  }

  /** Triggering leaves an empty slot and hands over exactly its waiter. */
  lemma TriggerEmpties(s: State, fd: nat, e: Event)
    requires fd < |s.fds| && FdOk(s.fds[fd]) && s.fds[fd].At(e).on
    ensures
      Trigger(s, fd, e) ==
      s.(fds := s.fds[fd := s.fds[fd].With(e, Empty)], scheduled := s.scheduled + [Waits(s.fds[fd].At(e))])
  {
  }

  lemma CancelEventKeeps(s: State, fd: nat, e: Event, ok: bool)
    requires Inv(s)
    ensures
      var (t, out) := CancelEvent(s, fd, e, ok);
      && Inv(t)
      && (if fd < |s.fds| && s.fds[fd].At(e).on && ok
          then && out.Done? && Emptied(s, t, fd, Only(e))
               && FdOk(s.fds[fd]) && t.scheduled == s.scheduled + [Waits(s.fds[fd].At(e))]
          else out.Refused? && t == s)
  {
    hide CountBits, Trigger;
    var (t, out) := CancelEvent(s, fd, e, ok);
    if out.Done? {
      TriggerEmpties(Unregister(s, fd, e, ok).value, fd, e);
      ChangeKeeps(s, t, fd, t.fds[fd]);
    }
  }

  /** The waiters of the given events, READ first. */
  function WaitsOf(f: FdContext, b: Bits): seq<Scheduled>
    requires FdOk(f)
    requires b.read ==> f.read.on
    requires b.write ==> f.write.on
  {
    (if b.read then [Waits(f.read)] else []) + (if b.write then [Waits(f.write)] else [])
  }

  function Without(f: FdContext, b: Bits): FdContext {
    FdContext(if b.read then Empty else f.read, if b.write then Empty else f.write)
  }

  lemma TriggerAllEmpties(s: State, fd: nat, b: Bits)
    requires fd < |s.fds| && FdOk(s.fds[fd])
    requires b.read ==> s.fds[fd].read.on
    requires b.write ==> s.fds[fd].write.on
    ensures
      TriggerAll(s, fd, b) ==
      s.(fds := s.fds[fd := Without(s.fds[fd], b)], pending := s.pending - b.Count(),
         scheduled := s.scheduled + WaitsOf(s.fds[fd], b))
  {
    hide Trigger;
    var t := s;
    if b.read {
      TriggerEmpties(s, fd, READ);
      t := Trigger(s, fd, READ).(pending := s.pending - 1);
    }
    if b.write {
      TriggerEmpties(t, fd, WRITE);
    }
    assert s.fds[fd := s.fds[fd]] == s.fds;
  }

  lemma CancelAllKeeps(s: State, fd: nat, ok: bool)
    requires Inv(s)
    ensures
      var (t, out) := CancelAll(s, fd, ok);
      && Inv(t)
      && (if fd < |s.fds| && s.fds[fd].Events().Any() && ok
          then && out.Done? && Emptied(s, t, fd, Bits(true, true))
               && FdOk(s.fds[fd]) && t.scheduled == s.scheduled + WaitsOf(s.fds[fd], s.fds[fd].Events())
          else out.Refused? && t == s)
  {
    hide CountBits, TriggerAll;
    var (t, out) := CancelAll(s, fd, ok);
    if out.Done? {
      TriggerAllEmpties(s, fd, s.fds[fd].Events());
      ChangeKeeps(s, t, fd, Without(s.fds[fd], s.fds[fd].Events()));
    }
  }

  /** The bits a report amounts to: an error stands for all that is waited for. */
  function Real(events: Bits, ready: Bits, error: bool): Bits {
    if error then Bits(ready.read || events.read, ready.write || events.write) else ready
  }

  predicate Overlap(a: Bits, b: Bits) {
    (a.read && b.read) || (a.write && b.write)
  }

  /** Dispatch hands over exactly the waiters of the reported bits; it aborts
      exactly when it would act on a report that names an unregistered bit. */
  lemma DispatchKeeps(s: State, fd: nat, ready: Bits, error: bool, ok: bool)
    requires Inv(s) && fd < |s.fds|
    ensures
      var (t, out) := Dispatch(s, fd, ready, error, ok);
      var events := s.fds[fd].Events();
      var hit := Real(events, ready, error);
      && Inv(t)
      && (out.Aborted? <==> ok && Overlap(events, hit) && hit.Minus(events).Any())
      && (out.Done? <==> ok && Overlap(events, hit) && !hit.Minus(events).Any())
      && (if out.Done? then FdOk(s.fds[fd]) && t.scheduled == s.scheduled + WaitsOf(s.fds[fd], hit) else t == s)
  {
    hide CountBits, TriggerAll;
    var (t, out) := Dispatch(s, fd, ready, error, ok);
    var hit := Real(s.fds[fd].Events(), ready, error);
    if out.Done? {
      TriggerAllEmpties(s, fd, hit);
      ChangeKeeps(s, t, fd, Without(s.fds[fd], hit));
    }
  }

  /** What one report does: an error or hang-up counts for every registered event,
      any other report for the events it names. The waiters of these are queued, READ
      first, and their slots emptied, unless the report also names an event that is
      not registered. */
  lemma DispatchMeans(s: State, fd: nat, ready: Bits, error: bool, ok: bool)
    requires Inv(s) && fd < |s.fds|
    ensures
      var (t, out) := Dispatch(s, fd, ready, error, ok);
      var f := s.fds[fd];
      var read, write := f.read.on && (error || ready.read), f.write.on && (error || ready.write);
      var stale := (ready.read && !f.read.on) || (ready.write && !f.write.on);
      if !ok || (!read && !write) then t == s && out.Refused?
      else if stale then t == s && out.Aborted?
      else
        && out.Done? && Inv(t) && Emptied(s, t, fd, Bits(read, write)) && FdOk(f)
        && t.scheduled ==
           s.scheduled + (if read then [Waits(f.read)] else []) + (if write then [Waits(f.write)] else [])
  {
    hide CountBits, TriggerAll;
    DispatchKeeps(s, fd, ready, error, ok);
    var hit := Real(s.fds[fd].Events(), ready, error);
    if Dispatch(s, fd, ready, error, ok).1.Done? {
      TriggerAllEmpties(s, fd, hit);
    }
  }
}
