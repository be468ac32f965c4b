/** src/utils/BoundedBlockingQueue.h: `put` and `take` as a monitor with two condition
    variables, used by any number of threads. A step is what one thread does between taking
    the mutex and releasing it (by returning or by waiting). A signal moves one waiting thread
    of the condition's choice to the threads that are awake and will look again; waking up
    without a signal is a step of its own. */
module BoundedQueue {
  import opened Conditions
  import opened Traces

  datatype State<T> = State(
    capacity: nat,
    queue: seq<T>,
    notEmpty: Condition, notFull: Condition,
    wants: map<Thread, T>,  // what each thread that has waited inside `put` wants to put
    // history
    put: seq<T>, taken: seq<T>)

  /** One pass of `put` under the mutex: wait if full, else push and `notEmpty_.notify()`. */
  function TryPut<T>(s: State<T>, t: Thread, x: T, woken: Woken): State<T> {
    if |s.queue| == s.capacity then
      s.(wants := s.wants[t := x], notFull := Wait(s.notFull, t))
    else
      s.(queue := s.queue + [x], put := s.put + [x],
         wants := s.wants - {t}, notFull := Proceed(s.notFull, t), notEmpty := Notify(s.notEmpty, woken))
  }

  /** One pass of `take` under the mutex: wait if empty, else pop and `notFull_.notify()`. */
  function TryTake<T>(s: State<T>, t: Thread, woken: Woken): State<T> {
    if s.queue == [] then s.(notEmpty := Wait(s.notEmpty, t))
    else
      s.(queue := s.queue[1..], taken := s.taken + [s.queue[0]],
         notEmpty := Proceed(s.notEmpty, t), notFull := Notify(s.notFull, woken))
  }

  datatype Step<T> = PutStep(thread: Thread, item: T, woken: Woken)
                   | TakeStep(thread: Thread, woken: Woken)
                   | SpuriousWake(thread: Thread)

  predicate Outside<T>(s: State<T>, t: Thread) {
    t !in s.notEmpty.waiting && t !in s.notEmpty.awake && t !in s.wants
  }

  /** A thread enters a call, or goes on with the call in which it has been woken up. */
  ghost predicate Enabled<T>(s: State<T>, step: Step<T>) {
    match step
    case PutStep(t, x, woken) =>
      (Outside(s, t) || (t in s.notFull.awake && t in s.wants && s.wants[t] == x)) && MayWake(s.notEmpty, woken)
    case TakeStep(t, woken) =>
      (Outside(s, t) || t in s.notEmpty.awake) && MayWake(s.notFull, woken)
    case SpuriousWake(t) => t in s.notEmpty.waiting || t in s.notFull.waiting
  }

  function Apply<T>(s: State<T>, step: Step<T>): State<T> {
    match step
    case PutStep(t, x, woken) => TryPut(s, t, x, woken)
    case TakeStep(t, woken) => TryTake(s, t, woken)
    case SpuriousWake(t) =>
      if t in s.notEmpty.waiting then s.(notEmpty := Notify(s.notEmpty, Somebody(t)))
      else s.(notFull := Notify(s.notFull, Somebody(t)))
  }

  function Initial<T>(capacity: nat): State<T> {
    State(capacity, [], Condition({}, {}), Condition({}, {}), map[], [], [])
  }

  ghost predicate Leads<T(!new)>(s: State<T>, steps: seq<Step<T>>, s': State<T>)
    decreases |steps|
  {
    if steps == [] then s == s' else Enabled(s, steps[0]) && Leads(Apply(s, steps[0]), steps[1..], s')
  }

  // ---------- What every step keeps ----------

  /** Each thread is inside at most one call, and a thread in `put` wants to put something. */
  predicate Consistent<T>(s: State<T>) {
    s.wants.Keys == Inside(s.notFull) && Inside(s.notFull) !! Inside(s.notEmpty)
  }

  /** Sleeping takers are covered by awake ones for every item, sleeping putters by awake ones
      for every free slot. */
  ghost predicate Inv<T(!new)>(s: State<T>) {
    && |s.queue| <= s.capacity && s.put == s.taken + s.queue && Consistent(s)
    && Covered(s.notEmpty, |s.queue|) && Covered(s.notFull, s.capacity - |s.queue|)
  }

  lemma CallersAreAwake<T(!new)>(s: State<T>, t: Thread)
    requires Inv(s)
    ensures Outside(s, t) || t in s.notFull.awake ==> t !in s.notFull.waiting && t !in Inside(s.notEmpty)
    ensures Outside(s, t) || t in s.notEmpty.awake ==> t !in s.notEmpty.waiting && t !in Inside(s.notFull)
  {
  }

  lemma PutKeeps<T(!new)>(s: State<T>, t: Thread, x: T, woken: Woken)
    requires Inv(s) && Enabled(s, PutStep(t, x, woken))
    ensures Inv(TryPut(s, t, x, woken))
  {
    hide Covered, Separate, Wait, Proceed, Notify, MayWake, Inside, Outside;
    CallersAreAwake(s, t);
    var free := s.capacity - |s.queue|;
    InsideAfter(s.notFull, t, Nobody, free);
    InsideAfter(s.notEmpty, t, woken, |s.queue|);
    if |s.queue| < s.capacity {
      assert s.taken + (s.queue + [x]) == (s.taken + s.queue) + [x];
      NotifyCovers(s.notEmpty, woken, |s.queue|);
      ProceedCovers(s.notFull, t, free);
      assert (s.wants - {t}).Keys == s.wants.Keys - {t};
    } else {
      WaitCovers(s.notFull, t, free);
      assert s.wants[t := x].Keys == s.wants.Keys + {t};
    }
  }

  lemma TakeKeeps<T(!new)>(s: State<T>, t: Thread, woken: Woken)
    requires Inv(s) && Enabled(s, TakeStep(t, woken))
    ensures Inv(TryTake(s, t, woken))
  {
    hide Covered, Separate, Wait, Proceed, Notify, MayWake, Inside, Outside;
    CallersAreAwake(s, t);
    var free := s.capacity - |s.queue|;
    InsideAfter(s.notFull, t, woken, free);
    InsideAfter(s.notEmpty, t, Nobody, |s.queue|);
    if s.queue != [] {
      assert (s.taken + [s.queue[0]]) + s.queue[1..] == s.taken + s.queue;
      ProceedCovers(s.notEmpty, t, |s.queue|);
      NotifyCovers(s.notFull, woken, free);
    } else {
      WaitCovers(s.notEmpty, t, 0);
    }
  }

  lemma SpuriousKeeps<T(!new)>(s: State<T>, t: Thread)
    requires Inv(s) && Enabled(s, SpuriousWake(t))
    ensures Inv(Apply(s, SpuriousWake(t)))
  {
    hide Covered, Notify, Inside;
    if t in s.notEmpty.waiting {
      NotifyCovers(s.notEmpty, Somebody(t), |s.queue|);
      CoverMore(Notify(s.notEmpty, Somebody(t)), |s.queue| + 1);
      InsideAfter(s.notEmpty, t, Somebody(t), |s.queue|);
    } else {
      NotifyCovers(s.notFull, Somebody(t), s.capacity - |s.queue|);
      CoverMore(Notify(s.notFull, Somebody(t)), s.capacity - |s.queue| + 1);
      InsideAfter(s.notFull, t, Somebody(t), s.capacity - |s.queue|);
    }
  }

  lemma StepKeeps<T(!new)>(s: State<T>, step: Step<T>)
    requires Inv(s) && Enabled(s, step)
    ensures Inv(Apply(s, step)) && Apply(s, step).capacity == s.capacity
  {
    hide Inv;
    match step
    case PutStep(t, x, woken) => PutKeeps(s, t, x, woken);
    case TakeStep(t, woken) => TakeKeeps(s, t, woken);
    case SpuriousWake(t) => SpuriousKeeps(s, t);
  }

  lemma {:induction false} RunKeeps<T(!new)>(s: State<T>, steps: seq<Step<T>>, s': State<T>)
    requires Inv(s) && Leads(s, steps, s')
    ensures Inv(s') && s'.capacity == s.capacity
    decreases |steps|
  {
    hide Inv, Apply;
    if steps != [] {
      StepKeeps(s, steps[0]);
      RunKeeps(Apply(s, steps[0]), steps[1..], s');
    }
  }

  lemma ReachableInv<T(!new)>(capacity: nat, steps: seq<Step<T>>, s: State<T>)
    requires Leads(Initial(capacity), steps, s)
    ensures Inv(s) && s.capacity == capacity
  {
    assert Inv(Initial<T>(capacity));
    RunKeeps(Initial(capacity), steps, s);
  }

  // ---------- What the threads see ----------

  /** The calls that begin and return in a step: `put` returns when it finds room, `take` when it
      finds an item, and that item is the one at the front. */
  function Happens<T>(s: State<T>, step: Step<T>): seq<Event<T>> {
    match step
    case PutStep(t, x, _) => Seen(t !in s.wants, Offers(t, x), |s.queue| < s.capacity, Accepts(t, x))
    case TakeStep(t, _) =>
      Seen(t !in s.notEmpty.awake, Asks(t), s.queue != [], if s.queue != [] then Gets(t, s.queue[0]) else GetsNone(t))
    case SpuriousWake(_) => []
  }

  function Trace<T>(s: State<T>, steps: seq<Step<T>>): seq<Event<T>>
    decreases |steps|
  {
    if steps == [] then [] else Happens(s, steps[0]) + Trace(Apply(s, steps[0]), steps[1..])
  }

  function OpenOffers<T>(s: State<T>, t: Thread): seq<T> { if t in s.wants then [s.wants[t]] else [] }
  function OpenAsks<T>(s: State<T>, t: Thread): int { One(t in Inside(s.notEmpty)) }

  lemma StepItems<T(!new)>(s: State<T>, step: Step<T>)
    requires Inv(s) && Enabled(s, step)
    ensures var s', seen := Apply(s, step), Happens(s, step);
            s'.put == Items(seen, Accepted, s.put) && s'.taken == Items(seen, Gotten, s.taken)
  {
    hide Items, Seen;
    match step
    case PutStep(t, x, woken) =>
      SeenItems(t !in s.wants, Offers(t, x), |s.queue| < s.capacity, Accepts(t, x), Accepted, s.put);
      SeenItems(t !in s.wants, Offers(t, x), |s.queue| < s.capacity, Accepts(t, x), Gotten, s.taken);
    case TakeStep(t, woken) =>
      var e := if s.queue != [] then Gets(t, s.queue[0]) else GetsNone(t);
      SeenItems(t !in s.notEmpty.awake, Asks(t), s.queue != [], e, Accepted, s.put);
      SeenItems(t !in s.notEmpty.awake, Asks(t), s.queue != [], e, Gotten, s.taken);
    case SpuriousWake(t) =>
      NothingSeen(t, [], 0, Accepted, s.put);
      NothingSeen(t, [], 0, Gotten, s.taken);
  }

  lemma StepCalls<T(!new)>(s: State<T>, step: Step<T>, u: Thread)
    requires Inv(s) && Enabled(s, step)
    ensures var s', seen := Apply(s, step), Happens(s, step);
            && Offered(seen, u, OpenOffers(s, u)) == OpenOffers(s', u)
            && Asking(seen, u, OpenAsks(s, u)) == OpenAsks(s', u)
  {
    hide Offered, Asking, Seen, Covered;
    match step
    case PutStep(t, x, woken) =>
      CallersAreAwake(s, t);
      InsideOne(s.notEmpty, woken, u);
      SeenCalls(t !in s.wants, Offers(t, x), |s.queue| < s.capacity, Accepts(t, x),
                u, OpenOffers(s, u), OpenAsks(s, u));
    case TakeStep(t, woken) =>
      CallersAreAwake(s, t);
      SeenCalls(t !in s.notEmpty.awake, Asks(t), s.queue != [],
                if s.queue != [] then Gets(t, s.queue[0]) else GetsNone(t), u, OpenOffers(s, u), OpenAsks(s, u));
    case SpuriousWake(t) =>
      NothingSeen(u, OpenOffers(s, u), OpenAsks(s, u), Accepted, s.put);
      if t in s.notEmpty.waiting { InsideOne(s.notEmpty, Somebody(t), u); }
  }

  lemma InsideOne(c: Condition, woken: Woken, u: Thread)
    requires MayWake(c, woken)
    ensures u in Inside(Notify(c, woken)) <==> u in Inside(c)
  {
  }

  lemma {:induction false} RunIsSeen<T(!new)>(s: State<T>, steps: seq<Step<T>>, s': State<T>, u: Thread)
    requires Inv(s) && Leads(s, steps, s')
    ensures var seen := Trace(s, steps);
            && s'.put == Items(seen, Accepted, s.put) && s'.taken == Items(seen, Gotten, s.taken)
            && Offered(seen, u, OpenOffers(s, u)) == OpenOffers(s', u)
            && Asking(seen, u, OpenAsks(s, u)) == OpenAsks(s', u)
    decreases |steps|
  {
    hide Inv, Apply, Happens, Offered, Asking, Items, OpenOffers, OpenAsks;
    if steps == [] {
      NothingSeen(u, OpenOffers(s, u), OpenAsks(s, u), Accepted, s.put);
      NothingSeen(u, OpenOffers(s, u), OpenAsks(s, u), Gotten, s.taken);
    } else {
      var s1, now, later := Apply(s, steps[0]), Happens(s, steps[0]), Trace(Apply(s, steps[0]), steps[1..]);
      StepKeeps(s, steps[0]);
      StepItems(s, steps[0]);
      StepCalls(s, steps[0], u);
      RunIsSeen(s1, steps[1..], s', u);
      JoinItems(now, later, Accepted, s.put);
      JoinItems(now, later, Gotten, s.taken);
      JoinOffers(now, later, u, OpenOffers(s, u));
      JoinAsks(now, later, u, OpenAsks(s, u));
    }
  }

  // ---------- The main results ----------

  /** No wake-up is lost: while a consumer still waits without a signal there are at least as
      many awake consumers as items, and while a producer waits, as many awake producers as
      free slots. So if everybody inside is asleep, takers sleep because the queue is empty and
      putters because it is full: with room for anything at all they are never both asleep. */
  lemma NoLostWakeUp<T(!new)>(capacity: nat, steps: seq<Step<T>>, s: State<T>)
    requires Leads(Initial(capacity), steps, s)
    ensures s.notEmpty.waiting != {} ==> |s.notEmpty.awake| >= |s.queue|
    ensures s.notFull.waiting != {} ==> |s.notFull.awake| >= capacity - |s.queue|
    ensures s.notEmpty.waiting != {} && s.notEmpty.awake == {} ==> s.queue == []
    ensures s.notFull.waiting != {} && s.notFull.awake == {} ==> |s.queue| == capacity
    ensures s.notEmpty.waiting != {} && s.notFull.waiting != {} && s.notEmpty.awake + s.notFull.awake == {}
            ==> capacity == 0
  {
    ReachableInv(capacity, steps, s);
  }

  /** Items leave in the order they came, each once, and there are never more than `capacity`:
      what the `put`s that returned have put in is what the `take`s that returned have got, and
      then the queue. */
  lemma FirstInFirstOut<T(!new)>(capacity: nat, steps: seq<Step<T>>, s: State<T>)
    requires Leads(Initial(capacity), steps, s)
    ensures var seen := Trace(Initial(capacity), steps);
            && Items(seen, Accepted, []) == Items(seen, Gotten, []) + s.queue && |s.queue| <= capacity
            && s.put == Items(seen, Accepted, []) && s.taken == Items(seen, Gotten, [])
  {
    hide Items;
    ReachableInv(capacity, steps, s);
    assert Inv(Initial<T>(capacity));
    RunIsSeen(Initial(capacity), steps, s, 0);
  }

  /** And no call is lost: thread `t` is inside `put`, wanting the item it offered, exactly while
      one of its `put`s has not returned, and inside `take` exactly while one of its `take`s has
      not. Every return answers a call. */
  lemma CallsAreAnswered<T(!new)>(capacity: nat, steps: seq<Step<T>>, s: State<T>, t: Thread)
    requires Leads(Initial(capacity), steps, s)
    ensures var seen := Trace(Initial(capacity), steps);
            && Offered(seen, t, []) == (if t in s.wants then [s.wants[t]] else [])
            && Asking(seen, t, 0) == One(t in s.notEmpty.waiting || t in s.notEmpty.awake)
  {
    assert Inv(Initial<T>(capacity));
    RunIsSeen(Initial(capacity), steps, s, t);
  }

  /** An awake thread that finds what it waits for gets it and leaves. */
  lemma AwakeThreadsProceed<T(!new)>(capacity: nat, steps: seq<Step<T>>, s: State<T>, t: Thread, woken: Woken)
    requires Leads(Initial(capacity), steps, s)
    ensures t in s.notEmpty.awake && s.queue != [] && MayWake(s.notFull, woken) ==>
              var s' := Apply(s, TakeStep(t, woken));
              Enabled(s, TakeStep(t, woken)) && s'.taken == s.taken + [s.queue[0]] && Outside(s', t)
    ensures t in s.notFull.awake && |s.queue| < capacity && MayWake(s.notEmpty, woken) ==>
              t in s.wants &&
              var s' := Apply(s, PutStep(t, s.wants[t], woken));
              Enabled(s, PutStep(t, s.wants[t], woken)) && s'.put == s.put + [s.wants[t]] && Outside(s', t)
  {
    ReachableInv(capacity, steps, s);
  }

  // ---------- The object ----------

  /** The queue and who waits on its conditions, changed in place by each pass. */
  class BlockingQueue<T(!new)> {
    const capacity: nat
    var queue: seq<T>
    var notEmpty: Condition
    var notFull: Condition
    var wants: map<Thread, T>
    ghost var put: seq<T>
    ghost var taken: seq<T>

    ghost function Value(): State<T>
      reads this
    {
      State(capacity, queue, notEmpty, notFull, wants, put, taken)
    }

    constructor (maxSize: nat)
      ensures Value() == Initial(maxSize)
    {
      capacity := maxSize;
      queue, notEmpty, notFull, wants := [], Condition({}, {}), Condition({}, {}), map[];
      put, taken := [], [];
    }

    method Put(t: Thread, x: T, woken: Woken) returns (done: bool)
      requires Inv(Value()) && Enabled(Value(), PutStep(t, x, woken))
      modifies this
      ensures Inv(Value()) && Value() == TryPut(old(Value()), t, x, woken)
      ensures done <==> |old(queue)| < capacity
    {
      PutKeeps(Value(), t, x, woken);
      assert |queue| <= capacity;
      hide Inv, Wait, Proceed, Notify;
      if |queue| == capacity {
        wants := wants[t := x];
        notFull := Wait(notFull, t);
        return false;
      }
      notFull := Proceed(notFull, t);
      wants := wants - {t};
      queue, put := queue + [x], put + [x];
      notEmpty := Notify(notEmpty, woken);
      done := true;
    }

    method Take(t: Thread, woken: Woken) returns (done: bool, front: seq<T>)
      requires Inv(Value()) && Enabled(Value(), TakeStep(t, woken))
      modifies this
      ensures Inv(Value()) && Value() == TryTake(old(Value()), t, woken)
      ensures done <==> old(queue) != []
      ensures done ==> front == [old(queue)[0]]
    {
      TakeKeeps(Value(), t, woken);
      hide Inv, Wait, Proceed, Notify;
      front := [];
      if queue == [] {
        notEmpty := Wait(notEmpty, t);
        return false, front;
      }
      notEmpty := Proceed(notEmpty, t);
      front := [queue[0]];
      taken := taken + front;
      queue := queue[1..];
      notFull := Notify(notFull, woken);
      done := true;
    }
  }
}
