/** The event registry with its contexts updated in place. */
module IOManagers {
  import opened Basics
  import R = EventRegistry

  class FdContext {
    var read: R.Slot
    var write: R.Slot

    function Value(): R.FdContext
      reads this
    {
      R.FdContext(read, write)
    }

    constructor ()
      ensures Value() == R.FdContext(R.Empty, R.Empty)
    {
      read, write := R.Empty, R.Empty;
    }

    /** getContext and the event bit, written together. */
    method Set(e: R.Event, s: R.Slot)
      modifies this
      ensures Value() == old(Value()).With(e, s)
    {
      if e.READ? {
        read := s;
      } else {
        write := s;
      }
    }
  }

  ghost function Values(cs: seq<FdContext>): (vs: seq<R.FdContext>)
    reads cs
    ensures |vs| == |cs| && forall i :: 0 <= i < |cs| ==> vs[i] == cs[i].Value()
  {
    seq(|cs|, i requires 0 <= i < |cs| reads cs => cs[i].Value())
  }

  class IOManager {
    var contexts: seq<FdContext>
    var pending: int
    var epoll: map<nat, R.Bits>
    var scheduled: seq<R.Scheduled>

    ghost function Abs(): R.State
      reads this, contexts
    {
      R.State(Values(contexts), pending, epoll, scheduled)
    }

    ghost predicate Valid()
      reads this, contexts
    {
      Distinct(contexts) && R.Inv(Abs())
    }

    /** The kernel call; ok says whether it has any other reason to refuse. */
    method EpollCtl(op: R.EpollOp, fd: nat, bits: R.Bits, ok: bool) returns (done: bool)
      modifies this`epoll
      ensures done <==> ok && R.Permitted(old(epoll), op, fd)
      ensures epoll == if done then R.EpollCtl(old(epoll), op, fd, bits) else old(epoll)
    {
      done := ok && R.Permitted(epoll, op, fd);
      if done {
        epoll := R.EpollCtl(epoll, op, fd, bits);
      }
    }

    /** One context changed; the others are as they were. */
    twostate lemma OneChanged(fd: nat)
      requires contexts == old(contexts) && Distinct(contexts) && fd < |contexts|
      requires forall c :: c in contexts && c != contexts[fd] ==> unchanged(c)
      ensures Values(contexts) == old(Values(contexts))[fd := contexts[fd].Value()]
    {
      forall i | 0 <= i < |contexts| && i != fd
        ensures contexts[i].Value() == old(contexts[i].Value())
      {
        assert contexts[i] in contexts && contexts[i] != contexts[fd];
      }
    }

    method ContextResize(size: nat)
      requires Distinct(contexts) && size >= |contexts|
      modifies this`contexts
      ensures Distinct(contexts) && |contexts| == size && old(contexts) <= contexts
      ensures forall i :: |old(contexts)| <= i < |contexts| ==> fresh(contexts[i])
      ensures Values(contexts) ==
              old(Values(contexts)) + seq(size - |old(contexts)|, _ => R.FdContext(R.Empty, R.Empty))
    {
      ghost var n := |contexts|;
      while |contexts| < size
        invariant n <= |contexts| <= size && Distinct(contexts) && old(contexts) <= contexts
        invariant forall i :: n <= i < |contexts| ==> fresh(contexts[i])
        invariant forall i :: n <= i < |contexts| ==> contexts[i].Value() == R.FdContext(R.Empty, R.Empty)
      {
        var c := new FdContext();
        contexts := contexts + [c];
      }
      assert forall i :: 0 <= i < n ==> contexts[i] == old(contexts)[i];
    }

    /** FdContext::triggerEvent. */
    method TriggerEvent(fd: nat, e: R.Event)
      requires Distinct(contexts) && fd < |contexts| && R.FdOk(contexts[fd].Value()) && contexts[fd].Value().At(e).on
      modifies this`scheduled, contexts[fd]
      ensures Abs() == R.Trigger(old(Abs()), fd, e)
    {
      var ctx := contexts[fd];
      var slot := ctx.Value().At(e);
      if slot.cb.Some? {
        scheduled := scheduled + [R.Scheduled(slot.scheduler.value, R.CbWaiter(slot.cb.value))];
        ctx.Set(e, slot.(on := false, scheduler := None, cb := None));
      } else {
        scheduled := scheduled + [R.Scheduled(slot.scheduler.value, R.FiberWaiter(slot.fiber.value))];
        ctx.Set(e, slot.(on := false, scheduler := None, fiber := None));
      }
      OneChanged(fd);
    }

    method AddEvent(fd: nat, e: R.Event, sched: nat, waiter: R.Waiter, ok: bool) returns (out: R.Outcome)
      requires Valid()
      modifies this`contexts, this`pending, this`epoll, contexts
      ensures Valid() && old(contexts) <= contexts
      ensures forall i :: |old(contexts)| <= i < |contexts| ==> fresh(contexts[i])
      ensures (Abs(), out) == R.AddEvent(old(Abs()), fd, e, sched, waiter, ok)
    {
      R.AddEventKeeps(Abs(), fd, e, sched, waiter, ok);
      LargeEnough(Abs());
      AddAfterResize(Abs(), fd, e, sched, waiter, ok);
      hide R.Inv, R.AddEvent, R.Resized;
      Grow(fd);
      out := Register(fd, e, sched, waiter, ok);
    }

    /** A context for the descriptor. */
    method Grow(fd: nat)
      requires Distinct(contexts) && |contexts| >= 32
      modifies this`contexts
      ensures Distinct(contexts) && old(contexts) <= contexts
      ensures forall i :: |old(contexts)| <= i < |contexts| ==> fresh(contexts[i])
      ensures Abs() == old(Abs()).(fds := R.Resized(old(Values(contexts)), fd))
    {
      if |contexts| <= fd {
        ContextResize(fd * 3 / 2);
      }
    }

    method Register(fd: nat, e: R.Event, sched: nat, waiter: R.Waiter, ok: bool) returns (out: R.Outcome)
      requires Distinct(contexts) && 32 <= |contexts| && fd < |contexts|
      modifies this`pending, this`epoll, contexts[fd]
      ensures (Abs(), out) == R.AddEvent(old(Abs()), fd, e, sched, waiter, ok)
    {
      var ctx := contexts[fd];
      if ctx.Value().At(e).on {
        return R.Aborted;
      }
      var op := if ctx.Value().Events().Any() then R.MOD else R.ADD;
      var slot := R.Slot(true, Some(sched), if waiter.FiberWaiter? then Some(waiter.fiber) else None,
                         if waiter.CbWaiter? then Some(waiter.cb) else None);
      if ctx.Value().At(e) != R.Empty {
        return if !ok || !R.Permitted(epoll, op, fd) then R.Refused else R.Aborted;
      }
      var done := EpollCtl(op, fd, ctx.Value().With(e, slot).Events(), ok);
      if !done {
        return R.Refused;
      }
      pending := pending + 1;
      ctx.Set(e, slot);
      OneChanged(fd);
      return R.Done;
    }

    /** Takes one bit out of the kernel's table and counts it out. */
    method Unregister(fd: nat, e: R.Event, ok: bool) returns (done: bool)
      requires fd < |contexts|
      modifies this`pending, this`epoll
      ensures
        match R.Unregister(old(Abs()), fd, e, ok)
        case None => !done && Abs() == old(Abs())
        case Some(t) => done && Abs() == t
    {
      var ctx := contexts[fd].Value();
      if !ctx.At(e).on {
        return false;
      }
      var left := ctx.Events().Minus(R.Only(e));
      done := EpollCtl(if left.Any() then R.MOD else R.DEL, fd, left, ok);
      if done {
        pending := pending - 1;
      }
    }

    method DelEvent(fd: nat, e: R.Event, ok: bool) returns (out: R.Outcome)
      requires Valid()
      modifies this`pending, this`epoll, contexts
      ensures Valid() && contexts == old(contexts)
      ensures (Abs(), out) == R.DelEvent(old(Abs()), fd, e, ok)
    {
      R.DelEventKeeps(Abs(), fd, e, ok);
      hide R.Inv, R.Unregister;
      if |contexts| <= fd {
        return R.Refused;
      }
      var done := Unregister(fd, e, ok);
      if !done {
        return R.Refused;
      }
      contexts[fd].Set(e, R.Empty);
      OneChanged(fd);
      return R.Done;
    }

    method CancelEvent(fd: nat, e: R.Event, ok: bool) returns (out: R.Outcome)
      requires Valid()
      modifies this`pending, this`epoll, this`scheduled, contexts
      ensures Valid() && contexts == old(contexts)
      ensures (Abs(), out) == R.CancelEvent(old(Abs()), fd, e, ok)
    {
      R.CancelEventKeeps(Abs(), fd, e, ok);
      if |contexts| <= fd {
        return R.Refused;
      }
      Context(fd);
      UnregisterOn(Abs(), fd, e, ok);
      hide R.Inv, R.Trigger, R.Unregister, R.FdOk, Values;
      var done := Unregister(fd, e, ok);
      if !done {
        return R.Refused;
      }
      TriggerEvent(fd, e);
      return R.Done;
    }

    lemma Context(fd: nat)
      requires Valid() && fd < |contexts|
      ensures R.FdOk(contexts[fd].Value())
    {
      assert R.FdOk(Abs().fds[fd]);
    }

    /** Trigger the given events, READ first, and count them out. */
    method TriggerAll(fd: nat, b: R.Bits)
      requires Distinct(contexts) && fd < |contexts| && R.FdOk(contexts[fd].Value())
      requires (b.read ==> contexts[fd].read.on) && (b.write ==> contexts[fd].write.on)
      modifies this`pending, this`scheduled, contexts[fd]
      ensures Abs() == R.TriggerAll(old(Abs()), fd, b)
    {
      TriggerFirst(Abs(), fd, b);
      hide R.Trigger;
      if b.read {
        TriggerEvent(fd, R.READ);
        pending := pending - 1;
      }
      if b.write {
        TriggerEvent(fd, R.WRITE);
        pending := pending - 1;
      }
    }

    method CancelAll(fd: nat, ok: bool) returns (out: R.Outcome)
      requires Valid()
      modifies this`pending, this`epoll, this`scheduled, contexts
      ensures Valid() && contexts == old(contexts)
      ensures (Abs(), out) == R.CancelAll(old(Abs()), fd, ok)
    {
      R.CancelAllKeeps(Abs(), fd, ok);
      if |contexts| <= fd || !contexts[fd].Value().Events().Any() {
        return R.Refused;
      }
      Context(fd);
      hide R.Inv, R.TriggerAll, R.FdOk;
      var done := EpollCtl(R.DEL, fd, R.Bits(false, false), ok);
      if !done {
        return R.Refused;
      }
      TriggerAllLater(old(Abs()), Abs(), fd, contexts[fd].Value().Events());
      TriggerAll(fd, contexts[fd].Value().Events());
      return R.Done;
    }

    /** The loop body of idle() for a ready descriptor. */
    method Dispatch(fd: nat, ready: R.Bits, error: bool, ok: bool) returns (out: R.Outcome)
      requires Valid() && fd < |contexts|
      modifies this`pending, this`epoll, this`scheduled, contexts
      ensures Valid() && contexts == old(contexts)
      ensures (Abs(), out) == R.Dispatch(old(Abs()), fd, ready, error, ok)
    {
      R.DispatchKeeps(Abs(), fd, ready, error, ok);
      Context(fd);
      hide R.Inv, R.TriggerAll, R.FdOk;
      var events := contexts[fd].Value().Events();
      var hit := R.Real(events, ready, error);
      if !R.Overlap(events, hit) {
        return R.Refused;
      }
      var left := events.Minus(hit);
      var op := if left.Any() then R.MOD else R.DEL;
      if hit.Minus(events).Any() {
        return if !ok || !R.Permitted(epoll, op, fd) then R.Refused else R.Aborted;
      }
      var done := EpollCtl(op, fd, left, ok);
      if !done {
        return R.Refused;
      }
      TriggerAllLater(old(Abs()), Abs(), fd, hit);
      TriggerAll(fd, hit);
      return R.Done;
    }
  }

  lemma LargeEnough(s: R.State)
    requires R.Inv(s)
    ensures |s.fds| >= 32
  {
  }

  lemma AddAfterResize(s: R.State, fd: nat, e: R.Event, sched: nat, waiter: R.Waiter, ok: bool)
    requires |s.fds| >= 32
    ensures
      var t := s.(fds := R.Resized(s.fds, fd));
      && |t.fds| >= 32 && fd < |t.fds|
      && R.AddEvent(s, fd, e, sched, waiter, ok) == R.AddEvent(t, fd, e, sched, waiter, ok)
  {
    hide R.EpollCtl, R.Permitted;
    assert R.Resized(R.Resized(s.fds, fd), fd) == R.Resized(s.fds, fd);
  }

  lemma TriggerFirst(s: R.State, fd: nat, b: R.Bits)
    requires fd < |s.fds| && R.FdOk(s.fds[fd])
    ensures b.read && s.fds[fd].read.on ==>
              var t := R.Trigger(s, fd, R.READ);
              fd < |t.fds| && R.FdOk(t.fds[fd]) && t.fds[fd].write == s.fds[fd].write && t.pending == s.pending
  {
  }

  lemma UnregisterOn(s: R.State, fd: nat, e: R.Event, ok: bool)
    requires fd < |s.fds|
    ensures
      var r := R.Unregister(s, fd, e, ok);
      r.Some? ==> s.fds[fd].At(e).on && r.value.fds == s.fds && r.value.scheduled == s.scheduled
  {
  }

  /** The kernel's table plays no part in triggering. */
  lemma TriggerAllLater(s: R.State, t: R.State, fd: nat, b: R.Bits)
    requires fd < |s.fds| && R.FdOk(s.fds[fd]) && t == s.(epoll := t.epoll)
    requires (b.read ==> s.fds[fd].read.on) && (b.write ==> s.fds[fd].write.on)
    ensures R.TriggerAll(t, fd, b) == R.TriggerAll(s, fd, b).(epoll := t.epoll)
  {
  }
}
