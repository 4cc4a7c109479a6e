/** What the operations of the event registry do to one slot, and how often
    they hand a given fiber to a scheduler. */
module EventSlots {

  import opened Basics
  import opened EventRegistry
  import opened EventRuns

  function SlotAt(s: State, k: Key): Slot {
    if k.fd < |s.fds| then s.fds[k.fd].At(k.event) else Empty
  }

  predicate IsMe(w: Scheduled, me: nat) {
    w.waiter == FiberWaiter(me)
  }

  /** How often fiber me was handed to a scheduler. */
  function Count(ws: seq<Scheduled>, me: nat): nat {
    if ws == [] then 0 else Count(ws[..|ws| - 1], me) + if IsMe(ws[|ws| - 1], me) then 1 else 0
  }

  lemma CountOne(ws: seq<Scheduled>, w: Scheduled, me: nat)
    ensures Count(ws + [w], me) == Count(ws, me) + if IsMe(w, me) then 1 else 0
  {
    assert (ws + [w])[..|ws|] == ws;
  }

  /** The slot holds fiber me. */
  predicate Holds(sl: Slot, me: nat) {
    sl.on && sl.cb.None? && sl.fiber == Some(me)
  }

  /** Fiber me waits in no slot but that of k. */
  ghost predicate OnlyAt(s: State, k: Key, me: nat) {
    forall j: Key :: j != k ==> !Holds(SlotAt(s, j), me)
  }

  /** A slot of another fiber or callback changes, or is handed over. */
  ghost predicate Bystander(s: State, t: State, k: Key, me: nat) {
    SlotAt(t, k) == SlotAt(s, k) && Count(t.scheduled, me) == Count(s.scheduled, me) && OnlyAt(t, k, me)
  }

  /** The registration of k ends and its waiter is queued. */
  ghost predicate Ended(s: State, t: State, k: Key, me: nat) {
    && SlotAt(s, k).on && SlotAt(t, k) == Empty && OnlyAt(t, k, me)
    && Count(t.scheduled, me) == Count(s.scheduled, me) + if Holds(SlotAt(s, k), me) then 1 else 0
  }

  /** Emptying slots of one descriptor, READ first. */
  lemma WithoutSlots(s: State, t: State, fd: nat, b: Bits, k: Key)
    requires fd < |s.fds| && t.fds == s.fds[fd := Without(s.fds[fd], b)]
    ensures SlotAt(t, k) == if k.fd == fd && b.Has(k.event) then Empty else SlotAt(s, k)
  {
  }

  lemma CountWaits(ws: seq<Scheduled>, f: FdContext, b: Bits, me: nat)
    requires FdOk(f) && (b.read ==> f.read.on) && (b.write ==> f.write.on)
    ensures
      Count(ws + WaitsOf(f, b), me) == Count(ws, me)
        + (if b.read && Holds(f.read, me) then 1 else 0) + (if b.write && Holds(f.write, me) then 1 else 0)
  {
    var a := if b.read then ws + [Waits(f.read)] else ws;
    if b.read {
      CountOne(ws, Waits(f.read), me);
    }
    if b.write {
      CountOne(a, Waits(f.write), me);
    }
    assert ws + WaitsOf(f, b) == if b.write then a + [Waits(f.write)] else a;
  }

  /** Handing over the waiters of some set bits of a descriptor. */
  lemma HandOver(s: State, t: State, fd: nat, b: Bits, k: Key, me: nat)
    requires EventRegistry.Inv(s) && fd < |s.fds| && OnlyAt(s, k, me) && FdOk(s.fds[fd])
    requires (b.read ==> s.fds[fd].read.on) && (b.write ==> s.fds[fd].write.on)
    requires t.fds == s.fds[fd := Without(s.fds[fd], b)] && t.scheduled == s.scheduled + WaitsOf(s.fds[fd], b)
    ensures if k.fd == fd && b.Has(k.event) then Ended(s, t, k, me) else Bystander(s, t, k, me)
  {
    forall j: Key
      ensures SlotAt(t, j) == if j.fd == fd && b.Has(j.event) then Empty else SlotAt(s, j)
    {
      WithoutSlots(s, t, fd, b, j);
    }
    CountWaits(s.scheduled, s.fds[fd], b, me);
    hide Count, EventRegistry.Inv, Without;
    assert SlotAt(s, Key(fd, READ)) == s.fds[fd].read && SlotAt(s, Key(fd, WRITE)) == s.fds[fd].write;
  }

  lemma CancelGives(s: State, fd: nat, e: Event, ok: bool)
    requires EventRegistry.Inv(s)
    ensures
      var (t, out) := CancelEvent(s, fd, e, ok);
      && EventRegistry.Inv(t)
      && (if SlotAt(s, Key(fd, e)).on && ok
          then && out.Done? && FdOk(s.fds[fd])
               && t.fds == s.fds[fd := Without(s.fds[fd], Only(e))]
               && t.scheduled == s.scheduled + WaitsOf(s.fds[fd], Only(e))
          else out.Refused? && t == s)
  {
    CancelEventKeeps(s, fd, e, ok);
    hide CountBits, Mirrors, Trigger;
    var (t, out) := CancelEvent(s, fd, e, ok);
    if out.Done? {
      TriggerEmpties(Unregister(s, fd, e, ok).value, fd, e);
    }
  }

  lemma CancelSlots(s: State, fd: nat, e: Event, ok: bool, k: Key, me: nat)
    requires EventRegistry.Inv(s) && OnlyAt(s, k, me)
    ensures
      var (t, out) := CancelEvent(s, fd, e, ok);
      && EventRegistry.Inv(t)
      && (if SlotAt(s, Key(fd, e)).on && ok
          then out.Done? && (if k == Key(fd, e) then Ended(s, t, k, me) else Bystander(s, t, k, me))
          else out.Refused? && t == s && Bystander(s, t, k, me))
  {
    hide EventRegistry.Inv, Count, CancelEvent;
    CancelGives(s, fd, e, ok);
    if SlotAt(s, Key(fd, e)).on && ok {
      HandOver(s, CancelEvent(s, fd, e, ok).0, fd, Only(e), k, me);
    }
  }

  lemma CancelAllSlots(s: State, fd: nat, ok: bool, k: Key, me: nat)
    requires EventRegistry.Inv(s) && OnlyAt(s, k, me)
    ensures
      var (t, out) := CancelAll(s, fd, ok);
      && EventRegistry.Inv(t) && !out.Aborted?
      && (Bystander(s, t, k, me) || Ended(s, t, k, me))
  {
    CancelAllKeeps(s, fd, ok);
    var (t, out) := CancelAll(s, fd, ok);
    if out.Done? {
      TriggerAllEmpties(s, fd, s.fds[fd].Events());
      assert t.fds == s.fds[fd := Without(s.fds[fd], s.fds[fd].Events())];
      hide EventRegistry.Inv, Count, CancelAll;
      HandOver(s, t, fd, s.fds[fd].Events(), k, me);
    }
  }

  lemma DispatchSlots(s: State, fd: nat, ready: Bits, error: bool, ok: bool, k: Key, me: nat)
    requires EventRegistry.Inv(s) && OnlyAt(s, k, me) && fd < |s.fds|
    ensures
      var (t, out) := Dispatch(s, fd, ready, error, ok);
      var hit := Real(s.fds[fd].Events(), ready, error);
      && EventRegistry.Inv(t)
      && (if out.Done? && k.fd == fd && hit.Has(k.event) then Ended(s, t, k, me) else Bystander(s, t, k, me))
      && (out.Done? <==> ok && Overlap(s.fds[fd].Events(), hit) && !hit.Minus(s.fds[fd].Events()).Any())
  {
    DispatchKeeps(s, fd, ready, error, ok);
    var (t, out) := Dispatch(s, fd, ready, error, ok);
    var hit := Real(s.fds[fd].Events(), ready, error);
    if out.Done? {
      TriggerAllEmpties(s, fd, hit);
      assert t.fds == s.fds[fd := Without(s.fds[fd], hit)];
      hide EventRegistry.Inv, Count, Dispatch;
      HandOver(s, t, fd, hit, k, me);
    }
  }

  lemma AddSlots(s: State, fd: nat, e: Event, sched: nat, waiter: Waiter, ok: bool, j: Key)
    requires EventRegistry.Inv(s)
    ensures
      var (t, out) := AddEvent(s, fd, e, sched, waiter, ok);
      && (j != Key(fd, e) || !out.Done? ==> SlotAt(t, j) == SlotAt(s, j))
      && (j == Key(fd, e) && out.Done? ==>
            SlotAt(t, j).on && (forall me :: Holds(SlotAt(t, j), me) <==> waiter == FiberWaiter(me)))
  {
    hide CountBits, Mirrors;
    var r := s.(fds := Resized(s.fds, fd));
    assert SlotAt(r, j) == SlotAt(s, j);
  }

  lemma DelSlots(s: State, fd: nat, e: Event, ok: bool, j: Key)
    ensures
      var (t, out) := DelEvent(s, fd, e, ok);
      SlotAt(t, j) == if j == Key(fd, e) && out.Done? then Empty else SlotAt(s, j)
  {
  }

  lemma AddOthers(s: State, fd: nat, e: Event, sched: nat, waiter: Waiter, ok: bool, k: Key, me: nat)
    requires EventRegistry.Inv(s) && OnlyAt(s, k, me) && Key(fd, e) != k && waiter != FiberWaiter(me)
    ensures
      var t := AddEvent(s, fd, e, sched, waiter, ok).0;
      EventRegistry.Inv(t) && Bystander(s, t, k, me)
  {
    AddEventKeeps(s, fd, e, sched, waiter, ok);
    var t := AddEvent(s, fd, e, sched, waiter, ok).0;
    forall j: Key
      ensures (j == k ==> SlotAt(t, j) == SlotAt(s, j)) && (j != k ==> !Holds(SlotAt(t, j), me))
    {
      AddSlots(s, fd, e, sched, waiter, ok, j);
    }
    hide AddEvent, Count, EventRegistry.Inv;
  }

  lemma DelOthers(s: State, fd: nat, e: Event, ok: bool, k: Key, me: nat)
    requires EventRegistry.Inv(s) && OnlyAt(s, k, me) && Key(fd, e) != k
    ensures
      var t := DelEvent(s, fd, e, ok).0;
      EventRegistry.Inv(t) && Bystander(s, t, k, me)
  {
    DelEventKeeps(s, fd, e, ok);
    var t := DelEvent(s, fd, e, ok).0;
    forall j: Key
      ensures (j == k ==> SlotAt(t, j) == SlotAt(s, j)) && (j != k ==> !Holds(SlotAt(t, j), me))
    {
      DelSlots(s, fd, e, ok, j);
    }
    hide DelEvent, Count, EventRegistry.Inv;
  }

  /** Nobody else registers or deletes this event, and fiber me itself registers
      nowhere else. */
  predicate Elsewhere(op: Op, k: Key, me: nat) {
    match op
    case Add(fd, e, _, waiter, _) => Key(fd, e) != k && waiter != FiberWaiter(me)
    case Del(fd, e, _) => Key(fd, e) != k
    case _ => true
  }

  /** Any operation that others carry out either leaves the registration of k
      and the count alone, or ends it and queues its waiter once. */
  lemma OthersEffect(s: State, op: Op, k: Key, me: nat)
    requires EventRegistry.Inv(s) && OnlyAt(s, k, me) && Elsewhere(op, k, me)
    ensures
      var t := Perform(s, op).0;
      EventRegistry.Inv(t) && (Bystander(s, t, k, me) || Ended(s, t, k, me))
  {
    hide EventRegistry.Inv, Count;
    match op
    case Add(fd, e, sched, waiter, ok) =>
      AddOthers(s, fd, e, sched, waiter, ok, k, me); hide Bystander, AddEvent;
    case Del(fd, e, ok) => DelOthers(s, fd, e, ok, k, me); hide Bystander, DelEvent;
    case Cancel(fd, e, ok) => CancelSlots(s, fd, e, ok, k, me); hide Bystander, Ended, CancelEvent;
    case CancelFd(fd, ok) => CancelAllSlots(s, fd, ok, k, me); hide Bystander, Ended, CancelAll;
    case Ready(fd, ready, error, ok) =>
      if fd < |s.fds| {
        DispatchSlots(s, fd, ready, error, ok, k, me);
        hide Bystander, Ended, Dispatch;
      }
  }
}
