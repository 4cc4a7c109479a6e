/** FiberSemaphore: a permit count and a list of suspended fibers. */
module Semaphores {

  import opened Basics

  type Fiber = nat

  datatype Sem = Sem(permits: nat, waiters: seq<Fiber>)
  {
    function TryWait(): (Sem, bool) {
      if permits > 0 then (this.(permits := permits - 1), true) else (this, false)
    }

    /** True when the fiber goes on at once, false when it is suspended. */
    function Wait(f: Fiber): (Sem, bool) {
      if permits > 0 then (this.(permits := permits - 1), true) else (this.(waiters := waiters + [f]), false)
    }

    /** The fiber handed to its scheduler, if one was waiting. */
    function Notify(): (Sem, Option<Fiber>) {
      if waiters != [] then (this.(waiters := waiters[1..]), Some(waiters[0]))
      else (this.(permits := permits + 1), None)
    }
  }

  /** The ghost fields are the books: how often notify was called, how many
      waits passed without suspending, which fibers were suspended and which
      were resumed, in order. */
  class FiberSemaphore {
    var concurrency: nat
    var waiters: seq<Fiber>
    ghost const initial: nat
    ghost var notified: nat
    ghost var passed: nat
    ghost var suspended: seq<Fiber>
    ghost var resumed: seq<Fiber>

    /** Nobody waits while a permit is free, no permit is lost or made up, and
        fibers are resumed in the order in which they were suspended. */
    ghost predicate Valid()
      reads this
    {
      && (waiters != [] ==> concurrency == 0)
      && concurrency + passed + |resumed| == initial + notified
      && suspended == resumed + waiters
    }

    ghost function Abs(): Sem
      reads this
    {
      Sem(concurrency, waiters)
    }

    constructor (initial: nat)
      ensures Valid() && Abs() == Sem(initial, []) && this.initial == initial
      ensures notified == passed == 0 && suspended == resumed == []
    {
      concurrency, waiters, this.initial := initial, [], initial;
      notified, passed, suspended, resumed := 0, 0, [], [];
    }

    method TryWait() returns (ok: bool)
      requires Valid()
      modifies this
      ensures Valid() && waiters == old(waiters)
      ensures ok <==> old(concurrency) > 0
      ensures notified == old(notified) && suspended == old(suspended) && resumed == old(resumed)
      ensures passed == old(passed) + if ok then 1 else 0
    {
      if concurrency > 0 {
        concurrency := concurrency - 1;
        passed := passed + 1;
        return true;
      }
      return false;
    }

    /** A fiber that does not pass is suspended behind all others. */
    method Wait(f: Fiber) returns (ok: bool)
      requires Valid()
      modifies this
      ensures Valid()
      ensures ok <==> old(concurrency) > 0
      ensures notified == old(notified) && resumed == old(resumed)
      ensures passed == old(passed) + if ok then 1 else 0
      ensures suspended == old(suspended) + if ok then [] else [f]
      ensures Abs() == old(Abs()).Wait(f).0
    {
      if concurrency > 0 {
        concurrency := concurrency - 1;
        passed := passed + 1;
        return true;
      }
      waiters := waiters + [f];
      suspended := suspended + [f];
      return false;
    }

    /** The fiber resumed is the one that has waited longest. */
    method Notify() returns (woken: Option<Fiber>)
      requires Valid()
      modifies this
      ensures Valid()
      ensures woken.Some? <==> |old(resumed)| < |old(suspended)|
      ensures woken.Some? ==> woken.value == old(suspended)[|old(resumed)|]
      ensures notified == old(notified) + 1 && passed == old(passed) && suspended == old(suspended)
      ensures resumed == old(resumed) + if woken.Some? then [woken.value] else []
      ensures (Abs(), woken) == old(Abs()).Notify()
    {
      notified := notified + 1;
      if waiters != [] {
        var next := waiters[0];
        waiters := waiters[1..];
        resumed := resumed + [next];
        return Some(next);
      } else {
        concurrency := concurrency + 1;
        return None;
      }
    }
  }

  datatype Op = DoTryWait | DoWait(f: Fiber) | DoNotify

  /** A semaphore with the history of its run: how often notify was called, how
      many waits passed without suspending, which fibers were suspended and
      which were resumed, in order. */
  datatype History = History(sem: Sem, notified: nat, passed: nat, suspended: seq<Fiber>, resumed: seq<Fiber>)

  function Record(h: History, op: Op): History {
    match op
    case DoTryWait =>
      var (s, ok) := h.sem.TryWait();
      h.(sem := s, passed := h.passed + if ok then 1 else 0)
    case DoWait(f) =>
      var (s, ok) := h.sem.Wait(f);
      if ok then h.(sem := s, passed := h.passed + 1) else h.(sem := s, suspended := h.suspended + [f])
    case DoNotify =>
      var (s, woken) := h.sem.Notify();
      var g := h.(sem := s, notified := h.notified + 1);
      if woken.Some? then g.(resumed := h.resumed + [woken.value]) else g
  }

  function Replay(initial: nat, ops: seq<Op>): History {
    if ops == [] then History(Sem(initial, []), 0, 0, [], [])
    else Record(Replay(initial, ops[..|ops| - 1]), ops[|ops| - 1])
  }

  /** Over every run: nobody waits while a permit is free; every permit is
      either free, taken or handed to a suspended fiber; and fibers are resumed
      in the order in which they were suspended. */
  lemma {:induction false} PermitsConserved(initial: nat, ops: seq<Op>)
    ensures
      var h := Replay(initial, ops);
      && (h.sem.waiters != [] ==> h.sem.permits == 0)
      && h.sem.permits + h.passed + |h.resumed| == initial + h.notified
      && h.suspended == h.resumed + h.sem.waiters
  {
    if ops != [] {
      PermitsConserved(initial, ops[..|ops| - 1]);
    }
  }
}
