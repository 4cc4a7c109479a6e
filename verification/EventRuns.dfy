/** Whole runs of the event registry: every registration is ended once. */
module EventRuns {
  import opened EventRegistry

  datatype Key = Key(fd: nat, event: Event)

  datatype How = Deleted | Cancelled | CancelledAll | Dispatched

  /** The end of the registration with the given number. */
  datatype End = End(ticket: nat, how: How)

  /** The registry, who registered so far (numbered from 0), which
      registrations are live, and how the others ended. */
  datatype Ledger = Ledger(s: State, registered: seq<Scheduled>, live: map<Key, nat>, ended: seq<End>)

  datatype Op =
    | Add(fd: nat, event: Event, sched: nat, waiter: Waiter, ok: bool)
    | Del(fd: nat, event: Event, ok: bool)
    | Cancel(fd: nat, event: Event, ok: bool)
    | CancelFd(fd: nat, ok: bool)
    | Ready(fd: nat, ready: Bits, error: bool, ok: bool)

  function OpenLive(l: Ledger, k: Key, who: Scheduled): Ledger {
    l.(registered := l.registered + [who], live := l.live[k := |l.registered|])
  }

  function EndLive(l: Ledger, k: Key, how: How): Ledger {
    if k in l.live then l.(live := l.live - {k}, ended := l.ended + [End(l.live[k], how)]) else l
  }

  function EndBits(l: Ledger, fd: nat, b: Bits, how: How): Ledger {
    var m := if b.read then EndLive(l, Key(fd, READ), how) else l;
    if b.write then EndLive(m, Key(fd, WRITE), how) else m
  }

  /** The state and the answer of an operation. */
  ghost function Perform(s: State, op: Op): (State, Outcome)
    requires Inv(s)
  {
    match op
    case Add(fd, e, sched, waiter, ok) => AddEvent(s, fd, e, sched, waiter, ok)
    case Del(fd, e, ok) => DelEvent(s, fd, e, ok)
    case Cancel(fd, e, ok) => CancelEvent(s, fd, e, ok)
    case CancelFd(fd, ok) => CancelAll(s, fd, ok)
    case Ready(fd, ready, error, ok) => if fd < |s.fds| then Dispatch(s, fd, ready, error, ok) else (s, Refused)
  }

  function EventsOf(s: State, fd: nat): Bits {
    if fd < |s.fds| then s.fds[fd].Events() else Bits(false, false)
  }

  /** What the ledger records of an operation that succeeded. */
  function Record(l: Ledger, op: Op): Ledger {
    match op
    case Add(fd, e, sched, waiter, _) => OpenLive(l, Key(fd, e), Scheduled(sched, waiter))
    case Del(fd, e, _) => EndLive(l, Key(fd, e), Deleted)
    case Cancel(fd, e, _) => EndLive(l, Key(fd, e), Cancelled)
    case CancelFd(fd, _) => EndBits(l, fd, EventsOf(l.s, fd), CancelledAll)
    case Ready(fd, ready, error, _) => EndBits(l, fd, Real(EventsOf(l.s, fd), ready, error), Dispatched)
  }

  ghost function Apply(l: Ledger, op: Op): Ledger
    requires Inv(l.s)
  {
    var (t, out) := Perform(l.s, op);
    (if out.Done? then Record(l, op) else l).(s := t)
  }

  // -------------------------------------------------------------- invariant

  predicate IsLive(live: map<Key, nat>, t: nat) {
    exists k :: k in live && live[k] == t
  }

  predicate IsEnded(ended: seq<End>, t: nat) {
    exists i :: 0 <= i < |ended| && ended[i].ticket == t
  }

  /** Tickets: live ones and ended ones are distinct and together all. */
  ghost predicate Tickets(n: nat, live: map<Key, nat>, ended: seq<End>) {
    && (forall k :: k in live ==> live[k] < n)
    && (forall k, j :: k in live && j in live && live[k] == live[j] ==> k == j)
    && (forall i :: 0 <= i < |ended| ==> ended[i].ticket < n)
    && (forall i, j :: 0 <= i < j < |ended| ==> ended[i].ticket != ended[j].ticket)
    && (forall k, i :: k in live && 0 <= i < |ended| ==> live[k] != ended[i].ticket)
    && (forall t: nat :: t < n ==> IsLive(live, t) || IsEnded(ended, t))
  }

  /** What was handed to the schedulers: the waiter of every registration that
      ended otherwise than by delEvent, in that order. */
  function Handed(registered: seq<Scheduled>, ended: seq<End>): seq<Scheduled> {
    if ended == [] then []
    else
      var last := ended[|ended| - 1];
      Handed(registered, ended[..|ended| - 1]) +
      if last.how == Deleted || last.ticket >= |registered| then [] else [registered[last.ticket]]
  }

  predicate On(s: State, k: Key) {
    k.fd < |s.fds| && s.fds[k.fd].At(k.event).on
  }

  /** The live registrations are the set bits, with their waiters. */
  ghost predicate LiveBits(s: State, registered: seq<Scheduled>, live: map<Key, nat>)
    requires Inv(s)
  {
    && (forall k: Key :: k in live <==> On(s, k))
    && (forall k :: k in live ==> live[k] < |registered| && registered[live[k]] == Waits(s.fds[k.fd].At(k.event)))
  }

  ghost predicate Good(l: Ledger) {
    && Inv(l.s)
    && Tickets(|l.registered|, l.live, l.ended)
    && LiveBits(l.s, l.registered, l.live)
    && l.s.scheduled == Handed(l.registered, l.ended)
  }

  lemma {:induction false} HandedFrame(registered: seq<Scheduled>, who: Scheduled, ended: seq<End>)
    requires forall i :: 0 <= i < |ended| ==> ended[i].ticket < |registered|
    ensures Handed(registered + [who], ended) == Handed(registered, ended)
    decreases |ended|
  {
    if ended != [] {
      HandedFrame(registered, who, ended[..|ended| - 1]);
    }
  }

  lemma HandedEnd(registered: seq<Scheduled>, ended: seq<End>, e: End)
    requires e.ticket < |registered|
    ensures Handed(registered, ended + [e]) ==
            Handed(registered, ended) + if e.how == Deleted then [] else [registered[e.ticket]]
  {
    assert (ended + [e])[..|ended|] == ended;
  }

  lemma OpenTickets(n: nat, live: map<Key, nat>, ended: seq<End>, k: Key)
    requires Tickets(n, live, ended) && k !in live
    ensures Tickets(n + 1, live[k := n], ended)
  {
    var now := live[k := n];
    forall t: nat | t < n + 1
      ensures IsLive(now, t) || IsEnded(ended, t)
    {
      if t == n {
        assert now[k] == t;
      } else if IsLive(live, t) {
        var j :| j in live && live[j] == t;
        assert now[j] == t;
      }
    }
  }

  lemma EndTickets(n: nat, live: map<Key, nat>, ended: seq<End>, k: Key, how: How)
    requires Tickets(n, live, ended) && k in live
    ensures Tickets(n, live - {k}, ended + [End(live[k], how)])
  {
    var more := ended + [End(live[k], how)];
    forall t: nat | t < n
      ensures IsLive(live - {k}, t) || IsEnded(more, t)
    {
      if IsEnded(ended, t) {
        var i :| 0 <= i < |ended| && ended[i].ticket == t;
        assert more[i].ticket == t;
      } else if t == live[k] {
        assert more[|ended|].ticket == t;
      } else {
        var j :| j in live && live[j] == t;
        assert (live - {k})[j] == t;
      }
    }
  }

  /** Ending one live registration whose slot was emptied. */
  lemma EndOne(l: Ledger, t: State, k: Key, how: How)
    requires Good(l) && k in l.live && l.live[k] < |l.registered| && Inv(t)
    requires forall j: Key :: j != k ==> (On(t, j) <==> On(l.s, j))
    requires forall j: Key :: j != k && On(t, j) ==> t.fds[j.fd].At(j.event) == l.s.fds[j.fd].At(j.event)
    requires !On(t, k)
    requires t.scheduled == l.s.scheduled + if how == Deleted then [] else [l.registered[l.live[k]]]
    ensures Good(EndLive(l, k, how).(s := t))
  {
    hide Tickets, Inv, Handed;
    EndTickets(|l.registered|, l.live, l.ended, k, how);
    HandedEnd(l.registered, l.ended, End(l.live[k], how));
  }

  /** Ending several of one descriptor, READ first. */
  lemma EndSome(l: Ledger, t: State, fd: nat, b: Bits, how: How)
    requires Good(l) && Inv(t) && fd < |l.s.fds| && how != Deleted && FdOk(l.s.fds[fd]) && b.Any()
    requires (b.read ==> l.s.fds[fd].read.on) && (b.write ==> l.s.fds[fd].write.on)
    requires t.fds == l.s.fds[fd := Without(l.s.fds[fd], b)]
    requires t.scheduled == l.s.scheduled + WaitsOf(l.s.fds[fd], b)
    ensures Good(EndBits(l, fd, b, how).(s := t))
  {
    hide Inv, CountBits, Handed, Tickets, LiveBits;
    if b.read && b.write {
      assert Without(l.s.fds[fd], b) == FdContext(Empty, Empty);
      EndBoth(l, t, fd, how);
    } else {
      var k := Key(fd, if b.read then READ else WRITE);
      KeyLive(l, k);
      EndOne(l, t, k, how);
    }
  }

  lemma EndBoth(l: Ledger, t: State, fd: nat, how: How)
    requires Good(l) && Inv(t) && fd < |l.s.fds| && how != Deleted && FdOk(l.s.fds[fd])
    requires l.s.fds[fd].read.on && l.s.fds[fd].write.on
    requires t.fds == l.s.fds[fd := FdContext(Empty, Empty)]
    requires t.scheduled == l.s.scheduled + [Waits(l.s.fds[fd].read), Waits(l.s.fds[fd].write)]
    ensures Good(EndLive(EndLive(l, Key(fd, READ), how), Key(fd, WRITE), how).(s := t))
  {
    hide CountBits, Handed, Tickets, LiveBits;
    var f := l.s.fds[fd].With(READ, Empty);
    var s1 := l.s.(fds := l.s.fds[fd := f], epoll := l.s.epoll[fd := f.Events()], pending := l.s.pending - 1,
                   scheduled := l.s.scheduled + [Waits(l.s.fds[fd].read)]);
    ChangeKeeps(l.s, s1, fd, f);
    KeyLive(l, Key(fd, READ));
    EndOne(l, s1, Key(fd, READ), how);
    var m := EndLive(l, Key(fd, READ), how).(s := s1);
    KeyLive(m, Key(fd, WRITE));
    EndOne(m, t, Key(fd, WRITE), how);
  }

  lemma EndedBelow(l: Ledger)
    requires Good(l)
    ensures forall i :: 0 <= i < |l.ended| ==> l.ended[i].ticket < |l.registered|
  {
    hide Inv, Handed, LiveBits;
  }

  /** A new registration whose slot was filled. */
  lemma OpenOne(l: Ledger, t: State, k: Key, who: Scheduled)
    requires Good(l) && !On(l.s, k) && Inv(t) && On(t, k) && t.scheduled == l.s.scheduled
    requires FdOk(t.fds[k.fd]) && Waits(t.fds[k.fd].At(k.event)) == who
    requires forall j: Key :: j != k ==> (On(t, j) <==> On(l.s, j))
    requires forall j: Key :: j != k && On(t, j) ==> t.fds[j.fd].At(j.event) == l.s.fds[j.fd].At(j.event)
    ensures Good(OpenLive(l, k, who).(s := t))
  {
    hide Inv, Handed, Tickets;
    assert k !in l.live;
    OpenTickets(|l.registered|, l.live, l.ended, k);
    EndedBelow(l);
    HandedFrame(l.registered, who, l.ended);
  }

  lemma AddGood(l: Ledger, op: Op)
    requires Good(l) && op.Add?
    ensures Good(Apply(l, op))
  {
    hide CountBits, Handed, Tickets, LiveBits;
    AddEventKeeps(l.s, op.fd, op.event, op.sched, op.waiter, op.ok);
    var (t, out) := AddEvent(l.s, op.fd, op.event, op.sched, op.waiter, op.ok);
    if out.Done? {
      OpenOne(l, t, Key(op.fd, op.event), Scheduled(op.sched, op.waiter));
    } else {
      SameBits(l, t);
    }
  }

  /** More empty contexts change nothing. */
  lemma SameBits(l: Ledger, t: State)
    requires Good(l) && Inv(t) && t.scheduled == l.s.scheduled && l.s.fds <= t.fds
    requires forall i :: |l.s.fds| <= i < |t.fds| ==> t.fds[i] == FdContext(Empty, Empty)
    ensures Good(l.(s := t))
  {
    hide Tickets, Handed, CountBits;
    forall k: Key
      ensures On(t, k) <==> On(l.s, k)
    {
      assert k.fd < |l.s.fds| ==> t.fds[k.fd] == l.s.fds[k.fd];
    }
    assert forall k :: k in l.live ==> t.fds[k.fd] == l.s.fds[k.fd];
  }

  lemma DelGood(l: Ledger, op: Op)
    requires Good(l) && op.Del?
    ensures Good(Apply(l, op))
  {
    hide CountBits, Handed, Tickets, LiveBits;
    DelEventKeeps(l.s, op.fd, op.event, op.ok);
    var (t, out) := DelEvent(l.s, op.fd, op.event, op.ok);
    if out.Done? {
      KeyLive(l, Key(op.fd, op.event));
      EndOne(l, t, Key(op.fd, op.event), Deleted);
    } else {
      assert l.(s := t) == l;
    }
  }

  lemma KeyLive(l: Ledger, k: Key)
    requires Good(l) && On(l.s, k)
    ensures k in l.live && l.live[k] < |l.registered| && FdOk(l.s.fds[k.fd])
    ensures l.registered[l.live[k]] == Waits(l.s.fds[k.fd].At(k.event))
  {
    hide Tickets, Handed, CountBits;
  }

  lemma CancelGood(l: Ledger, op: Op)
    requires Good(l) && op.Cancel?
    ensures Good(Apply(l, op))
  {
    hide CountBits, Handed, Tickets, LiveBits;
    CancelEventKeeps(l.s, op.fd, op.event, op.ok);
    var (t, out) := CancelEvent(l.s, op.fd, op.event, op.ok);
    if out.Done? {
      KeyLive(l, Key(op.fd, op.event));
      EndOne(l, t, Key(op.fd, op.event), Cancelled);
    } else {
      assert l.(s := t) == l;
    }
  }

  lemma CancelFdGood(l: Ledger, op: Op)
    requires Good(l) && op.CancelFd?
    ensures Good(Apply(l, op))
  {
    hide CountBits, Handed, Tickets, LiveBits, TriggerAll;
    CancelAllKeeps(l.s, op.fd, op.ok);
    var (t, out) := CancelAll(l.s, op.fd, op.ok);
    if out.Done? {
      TriggerAllEmpties(l.s, op.fd, l.s.fds[op.fd].Events());
      EndSome(l, t, op.fd, l.s.fds[op.fd].Events(), CancelledAll);
    } else {
      assert l.(s := t) == l;
    }
  }

  lemma ReadyGood(l: Ledger, op: Op)
    requires Good(l) && op.Ready?
    ensures Good(Apply(l, op))
  {
    hide CountBits, Handed, Tickets, LiveBits, TriggerAll;
    if op.fd < |l.s.fds| {
      DispatchKeeps(l.s, op.fd, op.ready, op.error, op.ok);
      var (t, out) := Dispatch(l.s, op.fd, op.ready, op.error, op.ok);
      if out.Done? {
        var hit := Real(l.s.fds[op.fd].Events(), op.ready, op.error);
        TriggerAllEmpties(l.s, op.fd, hit);
        EndSome(l, t, op.fd, hit, Dispatched);
      } else {
        assert l.(s := t) == l;
      }
    }
  }

  lemma ApplyGood(l: Ledger, op: Op)
    requires Good(l)
    ensures Good(Apply(l, op))
  {
    hide Apply, Inv, Tickets, LiveBits, Handed;
    match op
    case Add(_, _, _, _, _) => AddGood(l, op);
    case Del(_, _, _) => DelGood(l, op);
    case Cancel(_, _, _) => CancelGood(l, op);
    case CancelFd(_, _) => CancelFdGood(l, op);
    case Ready(_, _, _, _) => ReadyGood(l, op);
  }

  // ------------------------------------------------------------- whole runs

  ghost function Replay(l: Ledger, ops: seq<Op>): Ledger
    requires Good(l)
    decreases |ops|
  {
    if ops == [] then l
    else
      ApplyGood(l, ops[0]);
      Replay(Apply(l, ops[0]), ops[1..])
  }

  lemma {:induction false} ReplayGood(l: Ledger, ops: seq<Op>)
    requires Good(l)
    ensures Good(Replay(l, ops))
    decreases |ops|
  {
    hide Apply, Inv, Tickets, LiveBits, Handed;
    if ops != [] {
      ApplyGood(l, ops[0]);
      ReplayGood(Apply(l, ops[0]), ops[1..]);
    }
  }

  /** A new IOManager: 32 empty contexts. */
  function Fresh(): Ledger {
    Ledger(State(seq(32, _ => FdContext(Empty, Empty)), 0, map[], []), [], map[], [])
  }

  lemma NoBits()
    ensures CountBits([]) == 0
  {
  }

  lemma FreshGood()
    ensures Good(Fresh())
  {
    hide CountBits;
    var fds := Fresh().s.fds;
    NoBits();
    CountAppend([], fds);
    assert [] + fds == fds;
  }

  /** The ledger after a run of a new IOManager. */
  ghost function History(ops: seq<Op>): Ledger {
    FreshGood();
    Replay(Fresh(), ops)
  }

  /** In every run the counter equals the number of set bits, a bit is set
      exactly while its context holds a scheduler and one waiter, and the
      kernel's table holds exactly the bits. */
  lemma RegistryAgrees(ops: seq<Op>)
    ensures
      var s := History(ops).s;
      && s.pending == CountBits(s.fds) && Mirrors(s.fds, s.epoll)
      && forall i :: 0 <= i < |s.fds| ==> FdOk(s.fds[i])
  {
    FreshGood();
    ReplayGood(Fresh(), ops);
  }

  /** In every run a registration is still live or was ended exactly once, by
      one of delEvent, cancelEvent, cancelAll and readiness; and its waiter was
      queued once unless delEvent ended it. */
  lemma EndedOnce(ops: seq<Op>, t: nat)
    requires t < |History(ops).registered|
    ensures
      var l := History(ops);
      && (IsLive(l.live, t) <==> !IsEnded(l.ended, t))
      && (forall i, j ::
            0 <= i < |l.ended| && 0 <= j < |l.ended| && l.ended[i].ticket == l.ended[j].ticket == t ==> i == j)
      && l.s.scheduled == Handed(l.registered, l.ended)
  {
    FreshGood();
    ReplayGood(Fresh(), ops);
  }
}
