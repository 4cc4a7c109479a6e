/** IOManager::stopping, taken as one step over the timers, the registrations
    and the scheduler. */
module Shutdown {

  import E = EventRegistry
  import T = Timers
  import S = Scheduler

  predicate Stopping(timers: T.State, events: E.State, sched: S.State, now: nat)
    requires T.Known(timers.recs, timers.order)
  {
    T.NextTimer(timers, now).1 == T.U64 - 1 && events.pending == 0 && S.Stopping(sched)
  }

  lemma {:induction false} NoBits(fds: seq<E.FdContext>)
    requires E.CountBits(fds) == 0
    ensures forall i :: 0 <= i < |fds| ==> !fds[i].Events().Any()
  {
    if fds != [] {
      NoBits(fds[1..]);
      forall i | 0 <= i < |fds|
        ensures !fds[i].Events().Any()
      {
        if i > 0 {
          assert fds[i] == fds[1..][i - 1];
        }
      }
    }
  }

  /** The largest sleeping time stands for no timer at all. It is also the answer
      for a timer due in exactly that time, which needs a clock that shows 0. */
  lemma NoTimerMeans(s: T.State, now: nat)
    requires T.Inv(s) && forall a :: a in s.order ==> s.recs[a].next < T.U64
    ensures T.NextTimer(s, now).1 == T.U64 - 1 <==>
            s.order == [] || (now == 0 && s.recs[s.order[0]].next == T.U64 - 1)
  {
    assert s.order != [] ==> s.order[0] in s.order;
  }

  /** When stopping() is true on a clock that runs, there is no timer, nobody
      waits for an event, the kernel watches nothing, no worker holds a task, and
      nothing at all is left to run exactly when no worker is about to requeue a
      READY fiber. */
  lemma StoppingMeans(timers: T.State, events: E.State, sched: S.State, now: nat)
    requires T.Inv(timers) && E.Inv(events) && S.Inv(sched) && now > 0
    requires forall a :: a in timers.order ==> timers.recs[a].next < T.U64
    requires Stopping(timers, events, sched, now)
    ensures timers.order == [] && forall a :: a in timers.recs ==> timers.recs[a].cb.None?
    ensures forall fd :: 0 <= fd < |events.fds| ==> events.fds[fd] == E.FdContext(E.Empty, E.Empty)
    ensures events.epoll == map[]
    ensures forall w :: w in sched.workers ==> sched.workers[w].pc.Scanning? || sched.workers[w].pc.Settling?
    ensures S.NothingLeft(sched) <==> forall w :: !S.Requeueing(sched, w)
  {
    NoTimerMeans(timers, now);
    NoBits(events.fds);
    S.StoppingMeans(sched);
    hide S.Inv, T.Sorted, E.CountBits;
    assert forall fd :: fd !in events.epoll;
  }

  lemma {:induction false} SomeBit(fds: seq<E.FdContext>, i: nat)
    requires i < |fds| && fds[i].Events().Any()
    ensures E.CountBits(fds) > 0
    decreases |fds|
  {
    if i > 0 {
      SomeBit(fds[1..], i - 1);
    }
  }

  lemma PendingMeans(events: E.State)
    requires E.Inv(events)
    ensures events.pending == 0 <==>
            forall fd :: 0 <= fd < |events.fds| ==> !events.fds[fd].read.on && !events.fds[fd].write.on
  {
    if events.pending == 0 {
      NoBits(events.fds);
      hide E.CountBits;
    } else if exists fd :: 0 <= fd < |events.fds| && events.fds[fd].Events().Any() {
      var fd :| 0 <= fd < |events.fds| && events.fds[fd].Events().Any();
      SomeBit(events.fds, fd);
    } else {
      NoBitsNone(events.fds);
    }
  }

  lemma {:induction false} NoBitsNone(fds: seq<E.FdContext>)
    requires forall i :: 0 <= i < |fds| ==> !fds[i].Events().Any()
    ensures E.CountBits(fds) == 0
    decreases |fds|
  {
    if fds != [] {
      NoBitsNone(fds[1..]);
    }
  }

  /** On a clock that runs, and in every interleaving of the scheduler, stopping() is
      true if and only if there is no timer, nobody waits for an event, stop() has
      been called, nothing is queued and no worker has a task in its hands. */
  lemma StoppingExactly(timers: T.State, events: E.State, s: S.State, steps: seq<S.Step>, now: nat)
    requires T.Inv(timers) && E.Inv(events) && now > 0
    requires forall a :: a in timers.order ==> timers.recs[a].next < T.U64
    requires S.Initial(s) && S.Run(s, steps) && S.DisciplinedRun(s, steps)
    ensures
      var t := S.After(s, steps);
      Stopping(timers, events, t, now) <==>
        && (forall a :: a in timers.recs ==> timers.recs[a].cb.None?)
        && (forall fd :: 0 <= fd < |events.fds| ==> !events.fds[fd].read.on && !events.fds[fd].write.on)
        && S.Requested(steps) && t.queue == [] && S.AllIdle(t)
  {
    NoTimerMeans(timers, now);
    PendingMeans(events);
    S.StoppingExactly(s, steps);
    hide S.Stopping, S.Requested, S.AllIdle, S.After, S.Run, S.Initial, T.Sorted, E.Inv, T.NextTimer;
    assert timers.order != [] ==> timers.order[0] in timers.order;
  }
}
