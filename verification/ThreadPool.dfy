/** src/utils/ThreadPool.cpp: `run`, `take`, `stop` and the workers' loop as a monitor over any
    number of threads. `maxQueueSize_` and the workers are fixed before the run begins. */
module ThreadPool {
  import opened Conditions
  import opened Traces

  type Task = int

  datatype State = State(
    maxQueueSize: nat,
    workers: set<Thread>,
    running: bool,
    queue: seq<Task>,
    notEmpty: Condition, notFull: Condition,
    heads: set<Thread>,    // workers about to test `running_`
    takers: set<Thread>,   // workers that found it true and are about to take
    busy: set<Thread>,     // workers running a task, which may itself call `run`
    exited: set<Thread>,
    wants: map<Thread, Task>,  // the task of each thread that has waited inside `run`
    // history
    accepted: seq<Task>, taken: seq<Task>, inline: seq<Task>)

  predicate IsFull(s: State) { s.maxQueueSize > 0 && |s.queue| >= s.maxQueueSize }

  /** One pass of `run`: inline without workers, else wait while full, else push and wake all. */
  function TryRun(s: State, t: Thread, task: Task): State {
    if s.workers == {} then s.(inline := s.inline + [task])
    else if IsFull(s) then s.(wants := s.wants[t := task], notFull := Wait(s.notFull, t))
    else s.(queue := s.queue + [task], accepted := s.accepted + [task],
            wants := s.wants - {t}, notFull := Proceed(s.notFull, t), notEmpty := NotifyAll(s.notEmpty))
  }

  datatype TakeResult = Waits | Got(task: Task) | EmptyTask

  function TakeOutcome(s: State): TakeResult {
    if s.queue == [] && s.running then Waits else if s.queue != [] then Got(s.queue[0]) else EmptyTask
  }

  /** One pass of `take` by a worker; afterwards it runs the task, or with an empty one is back
      at the head of its loop. */
  function TryTake(s: State, w: Thread, woken: Woken): State {
    match TakeOutcome(s)
    case Waits => s.(takers := s.takers - {w}, notEmpty := Wait(s.notEmpty, w))
    case Got(task) =>
      s.(takers := s.takers - {w}, notEmpty := Proceed(s.notEmpty, w), busy := s.busy + {w},
         queue := s.queue[1..], taken := s.taken + [task],
         notFull := if s.maxQueueSize > 0 then Notify(s.notFull, woken) else s.notFull)
    case EmptyTask =>
      s.(takers := s.takers - {w}, notEmpty := Proceed(s.notEmpty, w), heads := s.heads + {w})
  }

  /** `while (running_)`, read without the mutex. */
  function TestRunning(s: State, w: Thread): State {
    if s.running then s.(heads := s.heads - {w}, takers := s.takers + {w})
    else s.(heads := s.heads - {w}, exited := s.exited + {w})
  }

  /** The worker's task returns. */
  function Return(s: State, w: Thread): State { s.(busy := s.busy - {w}, heads := s.heads + {w}) }

  function Stop(s: State): State { s.(running := false, notEmpty := NotifyAll(s.notEmpty)) }

  datatype Step = RunStep(thread: Thread, task: Task) | TakeStep(worker: Thread, woken: Woken)
                | ReturnStep(worker: Thread) | TestStep(worker: Thread) | StopStep | SpuriousWake(thread: Thread)

  /** `run` is called by threads that are not workers and from tasks; a thread that is waiting
      inside `run` does nothing else before it is through. */
  predicate Enabled(s: State, step: Step) {
    match step
    case RunStep(t, task) =>
      if t in s.wants then t in s.notFull.awake && s.wants[t] == task else t !in s.workers || t in s.busy
    case TakeStep(w, woken) => (w in s.takers || w in s.notEmpty.awake) && MayWake(s.notFull, woken)
    case ReturnStep(w) => w in s.busy && w !in s.wants
    case TestStep(w) => w in s.heads
    case StopStep => true
    case SpuriousWake(t) => t in s.notEmpty.waiting || t in s.notFull.waiting
  }

  function Apply(s: State, step: Step): State {
    match step
    case RunStep(t, task) => TryRun(s, t, task)
    case TakeStep(w, woken) => TryTake(s, w, woken)
    case ReturnStep(w) => Return(s, w)
    case TestStep(w) => TestRunning(s, w)
    case StopStep => Stop(s)
    case SpuriousWake(t) =>
      if t in s.notEmpty.waiting then s.(notEmpty := Notify(s.notEmpty, Somebody(t)))
      else s.(notFull := Notify(s.notFull, Somebody(t)))
  }

  const NOBODY: Condition := Condition({}, {})

  /** After `start`. */
  function Started(maxQueueSize: nat, workers: set<Thread>): State {
    State(maxQueueSize, workers, true, [], NOBODY, NOBODY, workers, {}, {}, {}, map[], [], [], [])
  }

  predicate Leads(s: State, steps: seq<Step>, s': State)
    decreases |steps|
  {
    if steps == [] then s == s' else Enabled(s, steps[0]) && Leads(Apply(s, steps[0]), steps[1..], s')
  }

  // ---------- What every step keeps ----------

  function Free(s: State): int { s.maxQueueSize - |s.queue| }

  predicate Inv(s: State) {
    && (s.notEmpty.waiting != {} ==> s.queue == [] && s.running)
    && (s.maxQueueSize > 0 ==> |s.queue| <= s.maxQueueSize)
    && (s.maxQueueSize == 0 ==> s.wants == map[] && s.notFull == NOBODY)
    && (s.maxQueueSize > 0 ==> Covered(s.notFull, Free(s)))
    && s.accepted == s.taken + s.queue
    && s.wants.Keys == Inside(s.notFull)
    && (s.workers == {} ==> s.wants == map[])
  }

  lemma RunStepKeeps(s: State, t: Thread, task: Task)
    requires Inv(s) && Enabled(s, RunStep(t, task))
    ensures Inv(TryRun(s, t, task))
  {
    hide Covered, Wait, Proceed, Inside, NotifyAll;
    RunnersAreAwake(s, t);
    NobodyWaitsAfterAll(s.notEmpty);
    if s.workers != {} && s.maxQueueSize > 0 {
      InsideAfter(s.notFull, t, Nobody, Free(s));
      if IsFull(s) {
        WaitCovers(s.notFull, t, Free(s));
        assert s.wants[t := task].Keys == s.wants.Keys + {t};
      } else {
        ProceedCovers(s.notFull, t, Free(s));
        assert s.taken + (s.queue + [task]) == (s.taken + s.queue) + [task];
        assert (s.wants - {t}).Keys == s.wants.Keys - {t};
      }
    } else if s.workers != {} {
      assert s.taken + (s.queue + [task]) == (s.taken + s.queue) + [task];
      ProceedNobody(t);
      assert s.wants - {t} == s.wants;
    }
  }

  lemma NobodyWaitsAfterAll(c: Condition)
    ensures NotifyAll(c).waiting == {}
  {
  }

  lemma ProceedNobody(t: Thread)
    ensures Proceed(NOBODY, t) == NOBODY
  {
  }

  lemma RunnersAreAwake(s: State, t: Thread)
    requires Inv(s) && (t !in s.wants || t in s.notFull.awake)
    ensures t !in s.notFull.waiting
  {
    if s.maxQueueSize > 0 { assert Separate(s.notFull); }
    assert t in s.notFull.waiting ==> t in Inside(s.notFull);
  }

  lemma TakeStepKeeps(s: State, w: Thread, woken: Woken)
    requires Inv(s) && Enabled(s, TakeStep(w, woken))
    ensures Inv(TryTake(s, w, woken))
  {
    hide Covered, Notify, Inside;
    if s.queue != [] {
      assert (s.taken + [s.queue[0]]) + s.queue[1..] == s.taken + s.queue;
      if s.maxQueueSize > 0 {
        NotifyCovers(s.notFull, woken, Free(s));
        InsideAfter(s.notFull, w, woken, Free(s));
      }
    }
  }

  lemma SpuriousKeeps(s: State, t: Thread)
    requires Inv(s) && Enabled(s, SpuriousWake(t))
    ensures Inv(Apply(s, SpuriousWake(t)))
  {
    hide Covered, Inside;
    if t !in s.notEmpty.waiting {
      NotifyCovers(s.notFull, Somebody(t), Free(s));
      CoverMore(Notify(s.notFull, Somebody(t)), Free(s) + 1);
      InsideAfter(s.notFull, t, Somebody(t), Free(s));
    }
  }

  lemma StepKeeps(s: State, step: Step)
    requires Inv(s) && Enabled(s, step)
    ensures Inv(Apply(s, step)) && Apply(s, step).maxQueueSize == s.maxQueueSize
  {
    match step
    case RunStep(t, task) => RunStepKeeps(s, t, task);
    case TakeStep(w, woken) => TakeStepKeeps(s, w, woken);
    case ReturnStep(w) =>
    case TestStep(w) =>
    case StopStep =>
    case SpuriousWake(t) => SpuriousKeeps(s, t);
  }

  lemma {:induction false} RunKeeps(s: State, steps: seq<Step>, s': State)
    requires Inv(s) && Leads(s, steps, s')
    ensures Inv(s') && s'.maxQueueSize == s.maxQueueSize
    decreases |steps|
  {
    hide Inv, Apply;
    if steps != [] {
      StepKeeps(s, steps[0]);
      RunKeeps(Apply(s, steps[0]), steps[1..], s');
    }
  }

  lemma ReachableInv(max: nat, workers: set<Thread>, steps: seq<Step>, s: State)
    requires Leads(Started(max, workers), steps, s)
    ensures Inv(s) && s.maxQueueSize == max
  {
    assert Inv(Started(max, workers));
    RunKeeps(Started(max, workers), steps, s);
  }

  // ---------- The main results ----------

  /** No worker sleeps while there is a task or the pool is stopped; no producer sleeps beyond
      what the awake ones will fill; the queue keeps its bound; tasks are taken in the order
      they were accepted, each once. */
  lemma MonitorIsSound(max: nat, workers: set<Thread>, steps: seq<Step>, s: State)
    requires Leads(Started(max, workers), steps, s)
    ensures s.queue != [] || !s.running ==> s.notEmpty.waiting == {}
    ensures s.notFull.waiting != {} ==> max > 0 && |s.notFull.awake| >= max - |s.queue|
    ensures max > 0 ==> |s.queue| <= max
    ensures s.accepted == s.taken + s.queue
  {
    ReachableInv(max, workers, steps, s);
  }

  /** `take` gives an empty task exactly when the pool is stopped and has no task left, and
      what it gives otherwise is the oldest accepted task not yet taken. */
  lemma TakeIsExact(max: nat, workers: set<Thread>, steps: seq<Step>, s: State)
    requires Leads(Started(max, workers), steps, s)
    ensures TakeOutcome(s).EmptyTask? <==> !s.running && s.accepted == s.taken
    ensures TakeOutcome(s).Got? <==> |s.taken| < |s.accepted|
    ensures TakeOutcome(s).Got? ==> TakeOutcome(s).task == s.accepted[|s.taken|]
  {
    ReachableInv(max, workers, steps, s);
  }

  // ---------- Where the threads are ----------

  /** In how many of its five places worker `w` is. */
  function Places(s: State, w: Thread): nat {
    One(w in s.heads) + One(w in s.takers) + One(w in s.busy) + One(w in s.exited) + One(w in Inside(s.notEmpty))
  }

  /** A worker is in one place of its loop, and waits inside `run` only from a task; no worker
      has left while the pool is running. */
  predicate PlacedThread(s: State, t: Thread) {
    && Places(s, t) == One(t in s.workers)
    && (t in s.wants && t in s.workers ==> t in s.busy)
    && (s.running ==> t !in s.exited)
  }

  ghost predicate Placed(s: State) { forall t :: PlacedThread(s, t) }

  /** Whoever takes a step out of `take` does not sleep any more. */
  lemma TakersAreAwake(s: State, w: Thread, woken: Woken)
    requires Inv(s) && Enabled(s, TakeStep(w, woken)) && Placed(s) && !TakeOutcome(s).Waits?
    ensures w !in Proceed(s.notEmpty, w).waiting
  {
  }

  lemma InsideIs(c: Condition, t: Thread)
    ensures t in Inside(c) <==> t in c.waiting || t in c.awake
  {
  }

  lemma PlacedStays(s: State, step: Step, t: Thread)
    requires Placed(s) && Enabled(s, step) && Inv(s)
    ensures PlacedThread(Apply(s, step), t)
  {
    assert PlacedThread(s, t);
    if step.TakeStep? || step.ReturnStep? || step.TestStep? { assert PlacedThread(s, step.worker); }
    if step.TakeStep? && !TakeOutcome(s).Waits? { TakersAreAwake(s, step.worker, step.woken); }
    InsideIs(s.notEmpty, t);
    InsideIs(Apply(s, step).notEmpty, t);
    hide Inside, Inv, Placed, Covered;
  }

  lemma AllPlacedStay(s: State, step: Step)
    requires Placed(s) && Enabled(s, step) && Inv(s)
    ensures Placed(Apply(s, step))
  {
    hide PlacedThread, Apply, Enabled, Inv;
    forall t ensures PlacedThread(Apply(s, step), t) { PlacedStays(s, step, t); }
  }

  lemma {:induction false} RunKeepsPlaced(s: State, steps: seq<Step>, s': State)
    requires Placed(s) && Inv(s) && Leads(s, steps, s')
    ensures Placed(s')
    decreases |steps|
  {
    hide Placed, Apply, Inv;
    if steps != [] {
      AllPlacedStay(s, steps[0]);
      StepKeeps(s, steps[0]);
      RunKeepsPlaced(Apply(s, steps[0]), steps[1..], s');
    }
  }

  /** Every worker is in exactly one place of its loop, one that waits inside `run` is running a
      task, and none has left while the pool is running. */
  lemma WorkersAreInOnePlace(max: nat, workers: set<Thread>, steps: seq<Step>, s: State, w: Thread)
    requires Leads(Started(max, workers), steps, s) && w in s.workers
    ensures Places(s, w) == 1
    ensures w in s.wants ==> w in s.busy
    ensures s.running ==> w !in s.exited
  {
    var s0 := Started(max, workers);
    StartsPlaced(max, workers);
    assert Inv(s0);
    RunKeepsPlaced(s0, steps, s);
    assert PlacedThread(s, w);
  }

  // ---------- What the threads see ----------

  /** The calls that begin and return in a step: `run` returns at once without workers, and else
      when it finds room; `take` returns when it finds a task, or finds the pool stopped. */
  function Happens(s: State, step: Step): seq<Event<Task>> {
    match step
    case RunStep(t, task) =>
      Seen(t !in s.wants, Offers(t, task), s.workers == {} || !IsFull(s),
           if s.workers == {} then Inlines(t, task) else Accepts(t, task))
    case TakeStep(w, _) =>
      Seen(w !in s.notEmpty.awake, Asks(w), s.queue != [] || !s.running,
           if s.queue != [] then Gets(w, s.queue[0]) else GetsNone(w))
    case _ => []
  }

  function Trace(s: State, steps: seq<Step>): seq<Event<Task>>
    decreases |steps|
  {
    if steps == [] then [] else Happens(s, steps[0]) + Trace(Apply(s, steps[0]), steps[1..])
  }

  /** What is recorded of one kind of return. */
  function Recorded(s: State, kind: Kind): seq<Task> {
    match kind case Accepted => s.accepted case Inline => s.inline case Gotten => s.taken
  }

  function OpenOffers(s: State, t: Thread): seq<Task> { if t in s.wants then [s.wants[t]] else [] }
  function OpenAsks(s: State, t: Thread): int { One(t in Inside(s.notEmpty)) }

  lemma StepItems(s: State, step: Step, kind: Kind)
    requires Enabled(s, step)
    ensures Recorded(Apply(s, step), kind) == Items(Happens(s, step), kind, Recorded(s, kind))
  {
    hide Items, Seen;
    var before := Recorded(s, kind);
    match step
    case RunStep(t, task) =>
      SeenItems(t !in s.wants, Offers(t, task), s.workers == {} || !IsFull(s),
                if s.workers == {} then Inlines(t, task) else Accepts(t, task), kind, before);
    case TakeStep(w, woken) =>
      SeenItems(w !in s.notEmpty.awake, Asks(w), s.queue != [] || !s.running,
                if s.queue != [] then Gets(w, s.queue[0]) else GetsNone(w), kind, before);
    case _ =>
      NothingSeen(0, [], 0, kind, before);
  }

  lemma StepCalls(s: State, step: Step, u: Thread)
    requires Inv(s) && Placed(s) && Enabled(s, step)
    ensures Offered(Happens(s, step), u, OpenOffers(s, u)) == OpenOffers(Apply(s, step), u)
    ensures Asking(Happens(s, step), u, OpenAsks(s, u)) == OpenAsks(Apply(s, step), u)
  {
    hide Offered, Asking, Seen, Covered;
    InsideIs(s.notEmpty, u);
    InsideIs(Apply(s, step).notEmpty, u);
    match step
    case RunStep(t, task) =>
      SeenCalls(t !in s.wants, Offers(t, task), s.workers == {} || !IsFull(s),
                if s.workers == {} then Inlines(t, task) else Accepts(t, task), u, OpenOffers(s, u), OpenAsks(s, u));
    case TakeStep(w, woken) =>
      assert PlacedThread(s, w);
      InsideIs(s.notEmpty, w);
      if !TakeOutcome(s).Waits? { TakersAreAwake(s, w, woken); }
      SeenCalls(w !in s.notEmpty.awake, Asks(w), s.queue != [] || !s.running,
                if s.queue != [] then Gets(w, s.queue[0]) else GetsNone(w), u, OpenOffers(s, u), OpenAsks(s, u));
    case _ =>
      NothingSeen(u, OpenOffers(s, u), OpenAsks(s, u), Accepted, []);
  }

  lemma {:induction false} RunIsSeen(s: State, steps: seq<Step>, s': State, u: Thread, kind: Kind)
    requires Inv(s) && Placed(s) && Leads(s, steps, s')
    ensures var seen := Trace(s, steps);
            && Recorded(s', kind) == Items(seen, kind, Recorded(s, kind))
            && Offered(seen, u, OpenOffers(s, u)) == OpenOffers(s', u)
            && Asking(seen, u, OpenAsks(s, u)) == OpenAsks(s', u)
    decreases |steps|
  {
    hide Inv, Placed, Apply, Enabled, Happens, Offered, Asking, Items, OpenOffers, OpenAsks, Recorded;
    if steps == [] {
      NothingSeen(u, OpenOffers(s, u), OpenAsks(s, u), kind, Recorded(s, kind));
    } else {
      var s1, now, later := Apply(s, steps[0]), Happens(s, steps[0]), Trace(Apply(s, steps[0]), steps[1..]);
      StepKeeps(s, steps[0]);
      AllPlacedStay(s, steps[0]);
      StepItems(s, steps[0], kind);
      StepCalls(s, steps[0], u);
      RunIsSeen(s1, steps[1..], s', u, kind);
      JoinItems(now, later, kind, Recorded(s, kind));
      JoinOffers(now, later, u, OpenOffers(s, u));
      JoinAsks(now, later, u, OpenAsks(s, u));
    }
  }

  /** Over any run: the tasks the returned `run`s have put in are the tasks the returned `take`s
      have got, and then the queue, in order. A thread is inside `run`, with the task it offered,
      exactly while one of its `run`s has not returned, and inside `take` exactly while one of
      its `take`s has not. Every return answers a call. Without workers all is run inline. */
  lemma TasksAreConserved(max: nat, workers: set<Thread>, steps: seq<Step>, s: State, t: Thread)
    requires Leads(Started(max, workers), steps, s)
    ensures var seen := Trace(Started(max, workers), steps);
            && Items(seen, Accepted, []) == Items(seen, Gotten, []) + s.queue
            && Offered(seen, t, []) == (if t in s.wants then [s.wants[t]] else [])
            && Asking(seen, t, 0) == One(t in s.notEmpty.waiting || t in s.notEmpty.awake)
    ensures var seen := Trace(Started(max, workers), steps);
            && s.accepted == Items(seen, Accepted, []) && s.taken == Items(seen, Gotten, [])
            && s.inline == Items(seen, Inline, []) && (workers == {} ==> s.accepted == [])
  {
    hide Items, Offered, Asking;
    var s0 := Started(max, workers);
    StartsPlaced(max, workers);
    assert Inv(s0);
    RunIsSeen(s0, steps, s, t, Accepted);
    RunIsSeen(s0, steps, s, t, Inline);
    RunIsSeen(s0, steps, s, t, Gotten);
    ReachableInv(max, workers, steps, s);
    WorkersStay(s0, steps, s);
    InsideIs(s.notEmpty, t);
    InsideIs(NOBODY, t);
  }

  lemma StartsPlaced(max: nat, workers: set<Thread>)
    ensures Placed(Started(max, workers))
  {
    forall t ensures PlacedThread(Started(max, workers), t) { InsideIs(NOBODY, t); }
  }

  lemma {:induction false} WorkersStay(s: State, steps: seq<Step>, s': State)
    requires Leads(s, steps, s')
    ensures s'.workers == s.workers && (s.workers == {} ==> s'.accepted == s.accepted)
    decreases |steps|
  {
    if steps != [] { WorkersStay(Apply(s, steps[0]), steps[1..], s'); }
  }

  // ---------- Which producers get out of `run` ----------

  predicate NoSpurious(steps: seq<Step>) { forall step <- steps :: !step.SpuriousWake? }

  /** `q` can get out of `run` from `s`, woken up by signals only. */
  ghost predicate CanLeave(s: State, q: Thread) {
    exists steps, s' :: Leads(s, steps, s') && NoSpurious(steps) && q !in s'.wants
  }

  /** `q` can get out of `run` from `s` if it may also wake up without a signal. */
  ghost predicate CanLeaveByLuck(s: State, q: Thread) {
    exists steps, s' :: Leads(s, steps, s') && q !in s'.wants
  }

  /** Thread `t` is inside `run` and cannot go on by itself. */
  predicate Held(s: State, t: Thread) { t in s.wants && (t !in s.notFull.awake || IsFull(s)) }

  /** Some worker can still get to a `take`: it is in it or about to be; or, while the pool is
      running, it is at the head of its loop, or its task does not hang in `run`. */
  predicate CanPop(s: State) {
    || s.takers != {} || Inside(s.notEmpty) != {}
    || (s.running && (s.heads != {} || exists w <- s.busy :: !Held(s, w)))
  }

  // Without a worker that can pop, nobody who is held ever leaves

  predicate Lost(s: State, q: Thread) { s.workers != {} && !CanPop(s) && Held(s, q) }

  lemma NoTakers(s: State)
    requires !CanPop(s)
    ensures s.takers == {} && s.notEmpty == NOBODY
  {
    assert s.notEmpty.waiting <= Inside(s.notEmpty) && s.notEmpty.awake <= Inside(s.notEmpty);
  }

  lemma HeldStays(s: State, step: Step, t: Thread)
    requires s.workers != {} && !CanPop(s) && Enabled(s, step) && !step.SpuriousWake? && Held(s, t)
    ensures Held(Apply(s, step), t)
  {
    NoTakers(s);
  }

  lemma LostStays(s: State, step: Step, q: Thread)
    requires Lost(s, q) && Enabled(s, step) && !step.SpuriousWake?
    ensures Lost(Apply(s, step), q)
  {
    NoTakers(s);
    var r := Apply(s, step);
    HeldStays(s, step, q);
    assert Inside(r.notEmpty) == {} && r.takers == {};
    if r.running {
      forall w <- r.busy ensures Held(r, w) { HeldStays(s, step, w); }
    }
  }

  lemma {:induction false} LostForever(s: State, steps: seq<Step>, s': State, q: Thread)
    requires Lost(s, q) && Leads(s, steps, s') && NoSpurious(steps)
    ensures q in s'.wants
    decreases |steps|
  {
    hide Lost, Apply, Enabled;
    if steps != [] {
      assert steps[0] in steps;
      LostStays(s, steps[0], q);
      LostForever(Apply(s, steps[0]), steps[1..], s', q);
    } else {
      LostIsInside(s, q);
    }
  }

  lemma LostIsInside(s: State, q: Thread)
    requires Lost(s, q)
    ensures q in s.wants
  {
  }

  // And with one, everybody inside `run` can leave

  lemma LeavesAfter(s: State, step: Step, q: Thread)
    requires Enabled(s, step) && !step.SpuriousWake? && CanLeave(Apply(s, step), q)
    ensures CanLeave(s, q)
  {
    hide Apply, Enabled;
    var steps, s' :| Leads(Apply(s, step), steps, s') && NoSpurious(steps) && q !in s'.wants;
    assert ([step] + steps)[1..] == steps;
    assert Leads(s, [step] + steps, s');
  }

  lemma LeavesAtOnce(s: State, q: Thread)
    requires q !in s.wants
    ensures CanLeave(s, q)
  {
    assert Leads(s, [], s) && NoSpurious([]);
  }

  /** With room in the queue, a producer that is awake leaves. */
  lemma AwakeLeaves(s: State, q: Thread)
    requires Inv(s) && q in s.wants && !Held(s, q)
    ensures CanLeave(s, q)
  {
    hide CanLeave;
    var step := RunStep(q, s.wants[q]);
    LeavesAtOnce(Apply(s, step), q);
    LeavesAfter(s, step, q);
  }

  /** Whom a signal may wake up: `q` if it sleeps. */
  lemma SomeoneToWake(c: Condition, q: Thread) returns (woken: Woken)
    ensures MayWake(c, woken) && (q in c.waiting ==> woken == Somebody(q))
  {
    if q in c.waiting {
      woken := Somebody(q);
    } else if t :| t in c.waiting {
      woken := Somebody(t);
    } else {
      NobodyIn(c.waiting);
      woken := Nobody;
    }
  }

  /** A worker in `take` that finds a task makes room, and may signal `q`. */
  lemma LeavesByPop(s: State, w: Thread, q: Thread)
    requires Inv(s) && q in s.wants && s.queue != [] && (w in s.takers || w in s.notEmpty.awake)
    ensures CanLeave(s, q)
  {
    hide CanLeave;
    assert q in Inside(s.notFull);
    var woken := SomeoneToWake(s.notFull, q);
    var step := TakeStep(w, woken);
    StepKeeps(s, step);
    AwakeLeaves(Apply(s, step), q);
    LeavesAfter(s, step, q);
  }

  /** A worker in `take` that finds none is given one by an awake producer, of which there are
      enough. */
  lemma LeavesByTaker(s: State, w: Thread, q: Thread)
    requires Inv(s) && q in s.wants && (w in s.takers || w in Inside(s.notEmpty))
    ensures CanLeave(s, q)
  {
    hide CanLeave;
    if !Held(s, q) {
      AwakeLeaves(s, q);
    } else if s.queue != [] {
      LeavesByPop(s, w, q);
    } else {
      assert q in Inside(s.notFull) && q in s.notFull.waiting;
      assert |s.notFull.awake| >= Free(s) > 0;
      if p :| p in s.notFull.awake {
        assert p in Inside(s.notFull);
        var step := RunStep(p, s.wants[p]);
        StepKeeps(s, step);
        LeavesByPop(Apply(s, step), w, q);
        LeavesAfter(s, step, q);
      } else {
        NobodyIn(s.notFull.awake);
      }
    }
  }

  lemma LeavesByHead(s: State, w: Thread, q: Thread)
    requires Inv(s) && q in s.wants && s.running && w in s.heads
    ensures CanLeave(s, q)
  {
    hide CanLeave;
    StepKeeps(s, TestStep(w));
    LeavesByTaker(Apply(s, TestStep(w)), w, q);
    LeavesAfter(s, TestStep(w), q);
  }

  lemma LeavesByBusy(s: State, w: Thread, q: Thread)
    requires Inv(s) && q in s.wants && s.running && w in s.busy && !Held(s, w)
    ensures CanLeave(s, q)
    decreases w in s.wants
  {
    hide CanLeave;
    if w in s.wants {
      var step := RunStep(w, s.wants[w]);
      StepKeeps(s, step);
      if w == q {
        LeavesAtOnce(Apply(s, step), q);
      } else {
        LeavesByBusy(Apply(s, step), w, q);
      }
      LeavesAfter(s, step, q);
    } else {
      StepKeeps(s, ReturnStep(w));
      LeavesByHead(Apply(s, ReturnStep(w)), w, q);
      LeavesAfter(s, ReturnStep(w), q);
    }
  }

  lemma LeavesIfPopped(s: State, q: Thread)
    requires Inv(s) && q in s.wants && CanPop(s)
    ensures CanLeave(s, q)
  {
    hide CanLeave, Inv;
    if w :| w in s.takers || w in Inside(s.notEmpty) {
      LeavesByTaker(s, w, q);
    } else {
      NobodyIn(s.takers);
      NobodyIn(Inside(s.notEmpty));
      if w :| w in s.heads {
        LeavesByHead(s, w, q);
      } else {
        NobodyIn(s.heads);
        var w :| w in s.busy && !Held(s, w);
        LeavesByBusy(s, w, q);
      }
    }
  }

  /** In any reachable state, a thread inside `run` can still get out, woken up by signals only,
      exactly if a worker can still get to a `take`, or the thread is awake and there is room. */
  lemma ProducerLeavesExactly(max: nat, workers: set<Thread>, steps: seq<Step>, s: State, q: Thread)
    requires Leads(Started(max, workers), steps, s) && q in s.wants
    ensures CanLeave(s, q) <==> CanPop(s) || (q in s.notFull.awake && !IsFull(s))
  {
    ReachableInv(max, workers, steps, s);
    assert s.workers != {};
    if CanPop(s) {
      LeavesIfPopped(s, q);
    } else if !Held(s, q) {
      AwakeLeaves(s, q);
    } else {
      forall more, s' | Leads(s, more, s') && NoSpurious(more) ensures q in s'.wants {
        LostForever(s, more, s', q);
      }
    }
  }

  /** The queue is full and no worker will get to a `take`, because the pool is stopped or
      because every worker waits inside `run` itself. */
  predicate Doomed(s: State) { IsFull(s) && s.workers != {} && !CanPop(s) }

  lemma DoomedStays(s: State, step: Step)
    requires Doomed(s) && Enabled(s, step)
    ensures var r := Apply(s, step);
            Doomed(r) && r.queue == s.queue && r.accepted == s.accepted && s.wants.Keys <= r.wants.Keys
  {
    NoTakers(s);
    var r := Apply(s, step);
    assert Inside(r.notEmpty) == {} && r.takers == {};
    if r.running {
      forall w <- r.busy ensures Held(r, w) { assert Held(s, w); }
    }
  }

  /** From then on, whatever happens, the queue stays as it is and no thread gets out of `run`. */
  lemma {:induction false} DoomedForever(s: State, steps: seq<Step>, s': State)
    requires Doomed(s) && Leads(s, steps, s')
    ensures Doomed(s') && s'.queue == s.queue && s'.accepted == s.accepted && s.wants.Keys <= s'.wants.Keys
    decreases |steps|
  {
    hide Doomed, Apply, Enabled;
    if steps != [] {
      DoomedStays(s, steps[0]);
      DoomedForever(Apply(s, steps[0]), steps[1..], s');
    }
  }

  lemma WokenByLuck(s: State, q: Thread)
    requires Inv(s) && !IsFull(s) && q in s.wants && q !in s.notEmpty.waiting
    ensures CanLeaveByLuck(s, q)
  {
    hide CanLeave;
    if Held(s, q) {
      assert q in Inside(s.notFull);
      var step := SpuriousWake(q);
      StepKeeps(s, step);
      AwakeLeaves(Apply(s, step), q);
      LuckBefore(s, step, q);
    } else {
      AwakeLeaves(s, q);
      LuckUnneeded(s, q);
    }
  }

  lemma LuckUnneeded(s: State, q: Thread)
    requires CanLeave(s, q)
    ensures CanLeaveByLuck(s, q)
  {
  }

  lemma LuckBefore(s: State, step: Step, q: Thread)
    requires Enabled(s, step) && CanLeave(Apply(s, step), q)
    ensures CanLeaveByLuck(s, q)
  {
    hide Apply, Enabled;
    var steps, s' :| Leads(Apply(s, step), steps, s') && NoSpurious(steps) && q !in s'.wants;
    assert ([step] + steps)[1..] == steps;
    assert Leads(s, [step] + steps, s');
  }

  /** If threads may also wake up without a signal, being doomed is all that keeps one in. */
  lemma ProducerLeavesByLuckExactly(max: nat, workers: set<Thread>, steps: seq<Step>, s: State, q: Thread)
    requires Leads(Started(max, workers), steps, s) && q in s.wants
    ensures CanLeaveByLuck(s, q) <==> !Doomed(s)
  {
    ReachableInv(max, workers, steps, s);
    hide CanLeave;
    if Doomed(s) {
      forall more, s' | Leads(s, more, s') ensures q in s'.wants {
        DoomedForever(s, more, s');
      }
    } else if CanPop(s) {
      LeavesIfPopped(s, q);
      LuckUnneeded(s, q);
    } else {
      NoTakers(s);
      WokenByLuck(s, q);
    }
  }

  // ---------- How producers are lost ----------

  /** One worker, room for one task, two producers, and a stop before the worker has looked at
      `running_`: the second producer is doomed. */
  lemma StopDoomsProducers(w: Thread, p: Thread, q: Thread, a: Task, b: Task) returns (steps: seq<Step>, s: State)
    requires p != q && w !in {p, q}
    ensures Leads(Started(1, {w}), steps, s) && Doomed(s) && !s.running && q in s.wants
  {
    var s0 := Started(1, {w});
    var s1 := Apply(s0, RunStep(p, a));
    var s2 := Apply(s1, RunStep(q, b));
    s := Apply(s2, StopStep);
    assert s2.wants == map[q := b];
    steps := [RunStep(p, a), RunStep(q, b), StopStep];
    LeadsBy3(s0, s1, s2, s, steps);
  }

  /** A running pool dooms its only worker if a task calls `run` with the queue full. */
  lemma WorkerLocksItselfOut(w: Thread, p: Thread, a: Task, b: Task, c: Task) returns (steps: seq<Step>, s: State)
    requires p != w
    ensures Leads(Started(1, {w}), steps, s) && NoSpurious(steps) && Doomed(s) && s.running && w in s.wants
  {
    var s0 := Started(1, {w});
    var s1 := Apply(s0, RunStep(p, a));
    var s2 := Apply(s1, TestStep(w));
    var s3 := Apply(s2, TakeStep(w, Nobody));
    var s4 := Apply(s3, RunStep(w, b));
    s := Apply(s4, RunStep(w, c));
    assert s3.busy == {w} && s3.heads == {} && s3.takers == {} && s3.queue == [] && s3.notEmpty == NOBODY;
    assert s4.queue == [b] && s.wants == map[w := c];
    var first, second := [RunStep(p, a), TestStep(w), TakeStep(w, Nobody)], [RunStep(w, b), RunStep(w, c)];
    LeadsBy3(s0, s1, s2, s3, first);
    LeadsBy2(s3, s4, s, second);
    LeadsFurther(s0, first, s3, second, s);
    steps := first + second;
    NoTakersDoom(s, w);
  }

  lemma NoTakersDoom(s: State, w: Thread)
    requires IsFull(s) && s.workers != {} && s.takers == {} && s.notEmpty == NOBODY && s.heads == {}
    requires s.busy == {w} && w in s.wants
    ensures Doomed(s)
  {
    assert Inside(NOBODY) == {};
  }

  /** After a stop a producer may sleep for good beside an empty queue: the last `take` has
      signalled another one. */
  lemma StopLosesSleepers(w: Thread, p: Thread, q: Thread, r: Thread, a: Task, b: Task, c: Task)
    returns (steps: seq<Step>, s: State)
    requires p != q && p != r && q != r && w !in {p, q, r}
    ensures Leads(Started(1, {w}), steps, s) && NoSpurious(steps)
    ensures q in s.wants && s.queue == [] && !CanLeave(s, q)
  {
    var s0 := Started(1, {w});
    var s1 := Apply(s0, RunStep(p, a));
    var s2 := Apply(s1, TestStep(w));
    var s3 := Apply(s2, RunStep(q, b));
    var s4 := Apply(s3, RunStep(r, c));
    var s5 := Apply(s4, StopStep);
    s := Apply(s5, TakeStep(w, Somebody(r)));
    assert s4.wants == map[q := b, r := c] && s4.notFull == Condition({q, r}, {});
    assert s5.takers == {w} && s5.notEmpty == NOBODY && s5.heads == {};
    var first := [RunStep(p, a), TestStep(w), RunStep(q, b)];
    var second := [RunStep(r, c), StopStep, TakeStep(w, Somebody(r))];
    LeadsBy3(s0, s1, s2, s3, first);
    LeadsBy3(s3, s4, s5, s, second);
    LeadsFurther(s0, first, s3, second, s);
    steps := first + second;
    assert s.takers == {} && Inside(s.notEmpty) == {} && q !in s.notFull.awake;
    ProducerLeavesExactly(1, {w}, steps, s, q);
  }

  lemma LeadsBy2(s0: State, s1: State, s2: State, steps: seq<Step>)
    requires |steps| == 2 && Enabled(s0, steps[0]) && Enabled(s1, steps[1])
    requires s1 == Apply(s0, steps[0]) && s2 == Apply(s1, steps[1])
    ensures Leads(s0, steps, s2)
  {
    hide Apply, Enabled;
    assert steps[1..][1..] == [];
    assert Leads(s1, steps[1..], s2);
  }

  lemma LeadsBy3(s0: State, s1: State, s2: State, s3: State, steps: seq<Step>)
    requires |steps| == 3 && Enabled(s0, steps[0]) && Enabled(s1, steps[1]) && Enabled(s2, steps[2])
    requires s1 == Apply(s0, steps[0]) && s2 == Apply(s1, steps[1]) && s3 == Apply(s2, steps[2])
    ensures Leads(s0, steps, s3)
  {
    hide Apply, Enabled;
    LeadsBy2(s1, s2, s3, steps[1..]);
  }

  lemma {:induction false} LeadsFurther(s: State, steps: seq<Step>, s1: State, more: seq<Step>, s2: State)
    requires Leads(s, steps, s1) && Leads(s1, more, s2)
    ensures Leads(s, steps + more, s2)
    decreases |steps|
  {
    hide Apply, Enabled;
    if steps == [] {
      assert steps + more == more;
    } else {
      LeadsFurther(Apply(s, steps[0]), steps[1..], s1, more, s2);
      assert (steps + more)[1..] == steps[1..] + more;
    }
  }

  // ---------- The object ----------

  /** The pool's fields, changed in place by each pass under the mutex. */
  class Pool {
    const maxQueueSize: nat
    const workers: set<Thread>
    var running: bool
    var queue: seq<Task>
    var notEmpty: Condition
    var notFull: Condition
    var wants: map<Thread, Task>
    ghost var heads: set<Thread>
    ghost var takers: set<Thread>
    ghost var busy: set<Thread>
    ghost var exited: set<Thread>
    ghost var accepted: seq<Task>
    ghost var taken: seq<Task>
    ghost var inline: seq<Task>

    ghost function Value(): State
      reads this
    {
      State(maxQueueSize, workers, running, queue, notEmpty, notFull, heads, takers, busy, exited, wants,
            accepted, taken, inline)
    }

    constructor (maxQueueSize: nat, workers: set<Thread>)
      ensures Value() == Started(maxQueueSize, workers)
    {
      this.maxQueueSize, this.workers := maxQueueSize, workers;
      running, queue, notEmpty, notFull, wants := true, [], NOBODY, NOBODY, map[];
      heads, takers, busy, exited, accepted, taken, inline := workers, {}, {}, {}, [], [], [];
    }

    method Run(t: Thread, task: Task) returns (waits: bool)
      requires Inv(Value()) && Enabled(Value(), RunStep(t, task))
      modifies this
      ensures Inv(Value()) && Value() == TryRun(old(Value()), t, task)
      ensures waits <==> workers != {} && IsFull(old(Value()))
    {
      hide Inv, Wait, Proceed, NotifyAll;
      RunStepKeeps(Value(), t, task);
      waits := false;
      if workers == {} {
        inline := inline + [task];
      } else if maxQueueSize > 0 && |queue| >= maxQueueSize {
        wants := wants[t := task];
        notFull := Wait(notFull, t);
        waits := true;
      } else {
        notFull := Proceed(notFull, t);
        wants := wants - {t};
        queue, accepted := queue + [task], accepted + [task];
        notEmpty := NotifyAll(notEmpty);
      }
    }

    method Take(w: Thread, woken: Woken) returns (result: TakeResult)
      requires Inv(Value()) && Enabled(Value(), TakeStep(w, woken))
      modifies this
      ensures Inv(Value()) && Value() == TryTake(old(Value()), w, woken)
      ensures result == TakeOutcome(old(Value()))
    {
      hide Inv, Wait, Proceed, Notify;
      TakeStepKeeps(Value(), w, woken);
      takers := takers - {w};
      if queue == [] && running {
        notEmpty := Wait(notEmpty, w);
        return Waits;
      }
      notEmpty := Proceed(notEmpty, w);
      result := EmptyTask;
      if queue == [] {
        heads := heads + {w};
      } else {
        busy := busy + {w};
        result := Got(queue[0]);
        taken := taken + [queue[0]];
        queue := queue[1..];
        if maxQueueSize > 0 {
          notFull := Notify(notFull, woken);
        }
      }
    }

    method StopPool()
      requires Inv(Value())
      modifies this
      ensures Inv(Value()) && Value() == Stop(old(Value()))
    {
      StepKeeps(Value(), StopStep);
      hide Inv, NotifyAll;
      running := false;
      notEmpty := NotifyAll(notEmpty);
    }
  }
}
