/** BlockingQueue: a list guarded by a spin lock, with a FiberSemaphore that
    counts its elements. push appends under the lock and notifies after it;
    pop waits and then takes from the front under the lock, so other fibers
    run between the two halves of each. */
module BlockingQueues {

  import opened Basics
  import opened Semaphores

  /** appending holds the fibers between the halves of push, granted those
      between the halves of pop; broken is set when front() is called on an
      empty list. pushed and popped record the values, suspended and resumed
      the fibers that waited, all in order. */
  datatype Queue<T> = Queue(
    sem: Sem,
    datas: seq<T>,
    appending: set<Fiber>,
    granted: set<Fiber>,
    broken: bool,
    pushed: seq<T>,
    popped: seq<T>,
    suspended: seq<Fiber>,
    resumed: seq<Fiber>)

  datatype Step<T> =
    | Append(f: Fiber, data: T)
    | Announce(f: Fiber)
    | Await(f: Fiber)
    | Take(f: Fiber)

  predicate Idle<T>(q: Queue<T>, f: Fiber) {
    f !in q.appending && f !in q.granted && f !in q.sem.waiters
  }

  predicate Enabled<T>(q: Queue<T>, step: Step<T>) {
    match step
    case Append(f, _) => Idle(q, f)
    case Announce(f) => f in q.appending
    case Await(f) => Idle(q, f)
    case Take(f) => f in q.granted
  }

  function Apply<T>(q: Queue<T>, step: Step<T>): Queue<T>
    requires Enabled(q, step)
  {
    match step
    case Append(f, data) =>
      q.(datas := q.datas + [data], appending := q.appending + {f}, pushed := q.pushed + [data])
    case Announce(f) =>
      var (s, woken) := q.sem.Notify();
      var r := q.(sem := s, appending := q.appending - {f});
      if woken.Some? then r.(granted := q.granted + {woken.value}, resumed := q.resumed + [woken.value]) else r
    case Await(f) =>
      var (s, passed) := q.sem.Wait(f);
      if passed then q.(sem := s, granted := q.granted + {f})
      else q.(sem := s, suspended := q.suspended + [f])
    case Take(f) =>
      var r := q.(granted := q.granted - {f});
      if q.datas == [] then r.(broken := true)
      else r.(datas := q.datas[1..], popped := q.popped + [q.datas[0]])
  }

  function Empty<T>(): Queue<T> {
    Queue(Sem(0, []), [], {}, {}, false, [], [], [], [])
  }

  ghost predicate Run<T>(q: Queue<T>, steps: seq<Step<T>>)
    decreases |steps|
  {
    steps == [] || (Enabled(q, steps[0]) && Run(Apply(q, steps[0]), steps[1..]))
  }

  ghost function After<T>(q: Queue<T>, steps: seq<Step<T>>): Queue<T>
    requires Run(q, steps)
    decreases |steps|
  {
    if steps == [] then q else After(Apply(q, steps[0]), steps[1..])
  }

  /** No fiber plays two parts at once. */
  ghost predicate Apart<T>(q: Queue<T>) {
    && Distinct(q.sem.waiters)
    && q.appending !! q.granted
    && forall f :: f in q.sem.waiters ==> f !in q.appending && f !in q.granted
  }

  predicate Balanced<T>(q: Queue<T>) {
    && !q.broken
    && (q.sem.waiters != [] ==> q.sem.permits == 0)
    && |q.datas| == q.sem.permits + |q.granted| + |q.appending|
  }

  ghost predicate InOrder<T>(q: Queue<T>) {
    q.pushed == q.popped + q.datas && q.suspended == q.resumed + q.sem.waiters
  }

  lemma ApplyKeepsApart<T>(q: Queue<T>, step: Step<T>)
    requires Apart(q) && Enabled(q, step)
    ensures Apart(Apply(q, step))
  {
  }

  lemma ApplyKeepsBalance<T>(q: Queue<T>, step: Step<T>)
    requires Apart(q) && Balanced(q) && Enabled(q, step)
    ensures Balanced(Apply(q, step))
  {
    if step.Take? {
      assert |q.granted| > 0 by {
        assert q.granted == (q.granted - {step.f}) + {step.f};
      }
    }
  }

  lemma ApplyKeepsOrder<T>(q: Queue<T>, step: Step<T>)
    requires InOrder(q) && Enabled(q, step)
    ensures InOrder(Apply(q, step))
  {
    var r := Apply(q, step);
    match step
    case Append(_, data) =>
      assert r.pushed == (q.popped + q.datas) + [data];
    case Announce(_) =>
      if q.sem.waiters != [] {
        MoveFront(q.resumed, q.sem.waiters);
      }
    case Await(f) =>
      if q.sem.permits == 0 {
        assert r.suspended == (q.resumed + q.sem.waiters) + [f];
      }
    case Take(_) =>
      if q.datas != [] {
        MoveFront(q.popped, q.datas);
      }
  }

  lemma MoveFront<T>(gone: seq<T>, left: seq<T>)
    requires left != []
    ensures (gone + [left[0]]) + left[1..] == gone + left
  {
  }

  lemma {:induction false} RunKeeps<T>(q: Queue<T>, steps: seq<Step<T>>)
    requires Apart(q) && Balanced(q) && InOrder(q) && Run(q, steps)
    ensures Apart(After(q, steps)) && Balanced(After(q, steps)) && InOrder(After(q, steps))
    decreases |steps|
  {
    if steps != [] {
      ApplyKeepsApart(q, steps[0]);
      ApplyKeepsBalance(q, steps[0]);
      ApplyKeepsOrder(q, steps[0]);
      hide Apart, Balanced, InOrder, Apply, Enabled;
      RunKeeps(Apply(q, steps[0]), steps[1..]);
    }
  }

  /** The values that a run pushes, and how many it pops. */
  function Pushes<T>(steps: seq<Step<T>>): seq<T> {
    if steps == [] then []
    else (if steps[0].Append? then [steps[0].data] else []) + Pushes(steps[1..])
  }

  function Pops<T>(steps: seq<Step<T>>): nat {
    if steps == [] then 0 else (if steps[0].Take? then 1 else 0) + Pops(steps[1..])
  }

  lemma BookMoves<T>(q: Queue<T>, step: Step<T>)
    requires Apart(q) && Balanced(q) && Enabled(q, step)
    ensures Apply(q, step).pushed == q.pushed + if step.Append? then [step.data] else []
    ensures |Apply(q, step).popped| == |q.popped| + if step.Take? then 1 else 0
  {
    ApplyKeepsBalance(q, step);
    hide Apart;
  }

  lemma {:induction false} BooksMatch<T>(q: Queue<T>, steps: seq<Step<T>>)
    requires Apart(q) && Balanced(q) && InOrder(q) && Run(q, steps)
    ensures After(q, steps).pushed == q.pushed + Pushes(steps)
    ensures |After(q, steps).popped| == |q.popped| + Pops(steps)
    decreases |steps|
  {
    if steps != [] {
      hide Apart, Balanced, InOrder, Apply, Enabled;
      ApplyKeepsAll(q, steps[0]);
      BookMoves(q, steps[0]);
      BooksMatch(Apply(q, steps[0]), steps[1..]);
    }
  }

  /** In every interleaving of pushes and pops: pop never takes from an empty
      list, the values popped are the first ones pushed, in order, the rest is in
      the list, and waiting fibers are served in the order in which they came. */
  lemma NeverPopsEmpty<T>(steps: seq<Step<T>>)
    requires Run(Empty(), steps)
    ensures
      var q := After(Empty(), steps);
      && !q.broken
      && Pushes(steps) == q.popped + q.datas && |q.popped| == Pops(steps)
      && q.suspended == q.resumed + q.sem.waiters
      && Distinct(q.sem.waiters)
  {
    RunKeeps(Empty(), steps);
    BooksMatch(Empty(), steps);
  }

  /** A fiber waits beside a non-empty list only while some push has not yet
      notified or some pop that was let through has not yet taken its value. */
  lemma NobodyForgotten<T>(steps: seq<Step<T>>)
    requires Run(Empty(), steps)
    ensures
      var q := After(Empty(), steps);
      && (q.sem.waiters != [] ==> |q.datas| == |q.granted| + |q.appending|)
      && (q.sem.waiters != [] && q.granted == {} && q.appending == {} ==> q.datas == [])
      && (q.sem.waiters == [] && q.granted == {} && q.appending == {} ==> q.sem.permits == |q.datas|)
  {
    RunKeeps(Empty(), steps);
  }

  /** The queue as an object. The ghost books follow the steps, so that what
      holds in every interleaving holds of the object between any two halves. */
  class BlockingQueue<T> {
    const sem: FiberSemaphore
    var datas: seq<T>
    ghost var books: Queue<T>

    ghost predicate Valid()
      reads this, sem
    {
      && sem.Valid() && books.datas == datas && books.sem == sem.Abs()
      && Apart(books) && Balanced(books) && InOrder(books)
    }

    constructor ()
      ensures Valid() && books == Empty() && fresh(sem)
    {
      sem := new FiberSemaphore(0);
      datas, books := [], Empty();
    }

    /** The half of push under the lock. */
    method AppendData(f: Fiber, data: T) returns (size: nat)
      requires Valid() && Idle(books, f)
      modifies this
      ensures Valid() && books == Apply(old(books), Append(f, data)) && size == |books.datas|
    {
      ApplyKeepsAll(books, Append(f, data));
      hide Apart, Balanced, InOrder;
      datas := datas + [data];
      size := |datas|;
      books := Apply(books, Append(f, data));
    }

    /** The half of push after it; woken is the fiber handed to its scheduler. */
    method NotifyOne(f: Fiber) returns (woken: Option<Fiber>)
      requires Valid() && f in books.appending
      modifies this, sem
      ensures Valid() && books == Apply(old(books), Announce(f))
      ensures books.resumed == old(books.resumed) + if woken.Some? then [woken.value] else []
    {
      ApplyKeepsAll(books, Announce(f));
      hide Apart, Balanced, InOrder;
      books := Apply(books, Announce(f));
      woken := sem.Notify();
    }

    /** push, undisturbed. */
    method Push(f: Fiber, data: T) returns (size: nat)
      requires Valid() && Idle(books, f)
      modifies this, sem
      ensures Valid() && size == |old(datas)| + 1 && datas == old(datas) + [data] && Idle(books, f)
      ensures books.pushed == old(books.pushed) + [data] && books.popped == old(books.popped)
    {
      size := AppendData(f, data);
      var _ := NotifyOne(f);
    }

    /** The half of pop before the fiber may be suspended. */
    method BeginPop(f: Fiber) returns (passed: bool)
      requires Valid() && Idle(books, f)
      modifies this, sem
      ensures Valid() && books == Apply(old(books), Await(f))
      ensures passed <==> f in books.granted
    {
      ApplyKeepsAll(books, Await(f));
      hide Apart, Balanced, InOrder;
      books := Apply(books, Await(f));
      passed := sem.Wait(f);
    }

    /** The half of pop after the semaphore has let the fiber through: there is
        a value, and it is the oldest one not yet popped. */
    method FinishPop(f: Fiber) returns (v: T)
      requires Valid() && f in books.granted
      modifies this
      ensures Valid() && books == Apply(old(books), Take(f))
      ensures books.popped == old(books.popped) + [v]
      ensures |old(books.popped)| < |books.pushed| && v == books.pushed[|old(books.popped)|]
    {
      ApplyKeepsAll(books, Take(f));
      assert datas != [] by {
        assert books.granted == (books.granted - {f}) + {f};
      }
      hide Apart, Balanced;
      v := datas[0];
      datas := datas[1..];
      books := Apply(books, Take(f));
    }
  }

  lemma ApplyKeepsAll<T>(q: Queue<T>, step: Step<T>)
    requires Apart(q) && Balanced(q) && InOrder(q) && Enabled(q, step)
    ensures Apart(Apply(q, step)) && Balanced(Apply(q, step)) && InOrder(Apply(q, step))
  {
    ApplyKeepsApart(q, step);
    ApplyKeepsBalance(q, step);
    ApplyKeepsOrder(q, step);
    hide Apart, Balanced, InOrder, Apply, Enabled;
  }
}
