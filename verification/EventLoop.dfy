/** src/port/EventLoop.cpp: functors queued by any thread and run by the loop thread in
    batches. `wakeup()` is a stub in the source, so `wakeRequested` only says that it has been
    called since poll(2) last returned. */
module EventLoop {

  type Functor = int
  type Thread = int

  /** Where the loop thread is: outside `loop()`, at the `while` test, in the poller, handling
      events, or in `doPendingFunctors` with a batch. */
  datatype Place = Outside | Test | Polling | Handling | Functors(batch: seq<Functor>, next: nat)

  /** Who queued a functor: the loop thread while it was not in `loop()`, or anybody else. */
  datatype Origin = LoopThreadOutside | Elsewhere

  datatype State = State(
    place: Place,
    pending: seq<Functor>,
    quit: bool,
    callingPendingFunctors: bool,
    pushed: set<Thread>,    // other threads that have queued and are about to call wakeup()
    wakeRequested: bool,
    // history
    origins: seq<Origin>,   // of the pending functors
    queued: seq<Functor>, ran: seq<Functor>, ranBefore: nat)

  // ---------- The steps ----------

  /** `queueInLoop` by another thread, up to the end of its critical section ... */
  function Push(s: State, t: Thread, f: Functor): State {
    s.(pending := s.pending + [f], origins := s.origins + [Elsewhere], queued := s.queued + [f],
       pushed := s.pushed + {t})
  }

  /** ... and the rest of it. */
  function Wake(s: State, t: Thread): State { s.(pushed := s.pushed - {t}, wakeRequested := true) }

  /** `queueInLoop` by the loop thread itself, from a callback or a functor or before looping. */
  function QueueFromLoop(s: State, f: Functor): State {
    s.(pending := s.pending + [f], queued := s.queued + [f],
       origins := s.origins + [if s.place.Outside? then LoopThreadOutside else Elsewhere],
       wakeRequested := s.wakeRequested || s.callingPendingFunctors)
  }

  function Quit(s: State, fromLoop: bool): State {
    s.(quit := true, wakeRequested := s.wakeRequested || !fromLoop)
  }

  function Start(s: State): State { s.(place := Test, quit := false) }

  function TestQuit(s: State): State { s.(place := if s.quit then Outside else Polling) }

  function PollReturns(s: State): State { s.(place := Handling, wakeRequested := false) }

  /** The start of `doPendingFunctors`: take everything pending. */
  function Swap(s: State): State {
    s.(callingPendingFunctors := true, place := Functors(s.pending, 0), pending := [], origins := [],
       ranBefore := |s.ran|)
  }

  function RunNext(s: State): State
    requires s.place.Functors? && s.place.next < |s.place.batch|
  {
    s.(ran := s.ran + [s.place.batch[s.place.next]], place := s.place.(next := s.place.next + 1))
  }

  function EndBatch(s: State): State { s.(callingPendingFunctors := false, place := Test) }

  datatype Step = PushStep(thread: Thread, f: Functor) | WakeStep(thread: Thread) | LoopQueueStep(f: Functor)
                | QuitStep(fromLoop: bool) | StartStep | TestStep | PollStep | SwapStep | RunStep | EndStep

  predicate Enabled(s: State, step: Step) {
    match step
    case PushStep(t, _) => t !in s.pushed
    case WakeStep(t) => t in s.pushed
    case LoopQueueStep(_) => s.place.Outside? || s.place.Handling? || s.place.Functors?
    case QuitStep(_) => true
    case StartStep => s.place.Outside?
    case TestStep => s.place.Test?
    case PollStep => s.place.Polling?
    case SwapStep => s.place.Handling?
    case RunStep => s.place.Functors? && s.place.next < |s.place.batch|
    case EndStep => s.place.Functors? && s.place.next == |s.place.batch|
  }

  function Apply(s: State, step: Step): State
    requires Enabled(s, step)
  {
    match step
    case PushStep(t, f) => Push(s, t, f)
    case WakeStep(t) => Wake(s, t)
    case LoopQueueStep(f) => QueueFromLoop(s, f)
    case QuitStep(fromLoop) => Quit(s, fromLoop)
    case StartStep => Start(s)
    case TestStep => TestQuit(s)
    case PollStep => PollReturns(s)
    case SwapStep => Swap(s)
    case RunStep => RunNext(s)
    case EndStep => EndBatch(s)
  }

  const INITIAL: State := State(Outside, [], false, false, {}, false, [], [], [], 0)

  predicate Leads(s: State, steps: seq<Step>, s': State)
    decreases |steps|
  {
    if steps == [] then s == s' else Enabled(s, steps[0]) && Leads(Apply(s, steps[0]), steps[1..], s')
  }

  // ---------- What every step keeps ----------

  /** What the current batch still has to run. */
  function Rest(s: State): seq<Functor> {
    if s.place.Functors? && s.place.next <= |s.place.batch| then s.place.batch[s.place.next..] else []
  }

  predicate QueueOk(s: State) { s.queued == s.ran + Rest(s) + s.pending }

  /** In a batch, what has run since it was taken is its beginning. */
  predicate BatchOk(s: State) {
    && s.callingPendingFunctors == s.place.Functors?
    && (s.place.Functors? ==>
          && s.place.next <= |s.place.batch| && s.ranBefore <= |s.ran|
          && s.ran[s.ranBefore..] == s.place.batch[..s.place.next])
  }

  predicate NoWakeUp(s: State) { !s.wakeRequested && s.pushed == {} }

  predicate AllOutside(origins: seq<Origin>) { forall o <- origins :: o.LoopThreadOutside? }

  /** Unless events are being handled, which ends in taking everything pending: with no wake-up
      requested or coming, all that is pending was queued by the loop thread outside `loop()`. */
  predicate WakeOk(s: State) {
    && |s.origins| == |s.pending|
    && (NoWakeUp(s) && !s.place.Handling? ==> AllOutside(s.origins))
  }

  predicate Inv(s: State) { QueueOk(s) && BatchOk(s) && WakeOk(s) }

  lemma StepKeepsQueue(s: State, step: Step)
    requires QueueOk(s) && BatchOk(s) && Enabled(s, step)
    ensures QueueOk(Apply(s, step))
  {
    match step
    case PushStep(_, f) =>
      assert s.ran + Rest(s) + (s.pending + [f]) == (s.ran + Rest(s) + s.pending) + [f];
    case LoopQueueStep(f) =>
      assert s.ran + Rest(s) + (s.pending + [f]) == (s.ran + Rest(s) + s.pending) + [f];
    case SwapStep =>
      assert s.ran + [] + s.pending == s.ran + s.pending + [];
    case RunStep =>
      var f := s.place.batch[s.place.next];
      assert Rest(s) == [f] + Rest(RunNext(s));
      assert s.ran + ([f] + Rest(RunNext(s))) == (s.ran + [f]) + Rest(RunNext(s));
    case EndStep =>
      assert Rest(s) == [];
    case _ =>
  }

  lemma StepKeeps(s: State, step: Step)
    requires Inv(s) && Enabled(s, step)
    ensures Inv(Apply(s, step))
  {
    StepKeepsQueue(s, step);
    hide QueueOk;
    if step.RunStep? {
      assert RunNext(s).ran[s.ranBefore..] == s.ran[s.ranBefore..] + [s.place.batch[s.place.next]];
    }
  }

  lemma {:induction false} RunKeeps(s: State, steps: seq<Step>, s': State)
    requires Inv(s) && Leads(s, steps, s')
    ensures Inv(s')
    decreases |steps|
  {
    hide Inv, Apply;
    if steps != [] {
      StepKeeps(s, steps[0]);
      RunKeeps(Apply(s, steps[0]), steps[1..], s');
    }
  }

  lemma ReachableInv(steps: seq<Step>, s: State)
    requires Leads(INITIAL, steps, s)
    ensures Inv(s)
  {
    assert Inv(INITIAL);
    RunKeeps(INITIAL, steps, s);
  }

  lemma LeadsNowhere(s: State)
    ensures Leads(s, [], s)
  {
  }

  lemma {:induction false} LeadsFurther(s: State, steps: seq<Step>, s1: State, more: seq<Step>, s2: State)
    requires Leads(s, steps, s1) && Leads(s1, more, s2)
    ensures Leads(s, steps + more, s2)
    decreases |steps|
  {
    hide Apply;
    if steps == [] {
      assert steps + more == more;
    } else {
      LeadsFurther(Apply(s, steps[0]), steps[1..], s1, more, s2);
      assert (steps + more)[1..] == steps[1..] + more;
    }
  }

  lemma LeadsOn(s: State, steps: seq<Step>, s1: State, step: Step)
    requires Leads(s, steps, s1) && Enabled(s1, step)
    ensures Leads(s, steps + [step], Apply(s1, step))
  {
    hide Apply;
    var s2 := Apply(s1, step);
    assert [step][1..] == [];
    LeadsNowhere(s2);
    assert Leads(s1, [step], s2);
    LeadsFurther(s, steps, s1, [step], s2);
  }

  // ---------- What happens in a run, read off its steps ----------

  function QueuedIn(steps: seq<Step>, before: seq<Functor>): seq<Functor>
    decreases |steps|
  {
    if steps == [] then before
    else QueuedIn(steps[1..], if steps[0].PushStep? || steps[0].LoopQueueStep? then before + [steps[0].f] else before)
  }

  function RunsIn(steps: seq<Step>): nat {
    if steps == [] then 0 else (if steps[0].RunStep? then 1 else 0) + RunsIn(steps[1..])
  }

  /** Who queued the functors of the run. */
  function OriginsIn(s: State, steps: seq<Step>, before: seq<Origin>): seq<Origin>
    decreases |steps|
  {
    if steps == [] || !Enabled(s, steps[0]) then before
    else OriginsIn(Apply(s, steps[0]), steps[1..],
                   match steps[0]
                   case PushStep(_, _) => before + [Elsewhere]
                   case LoopQueueStep(_) => before + [if s.place.Outside? then LoopThreadOutside else Elsewhere]
                   case _ => before)
  }

  /** Has `wakeup()` been called since poll(2) last returned: by a thread that had queued a
      functor, by a functor that queued one, or by `quit()` from another thread? */
  function RequestedIn(s: State, steps: seq<Step>, before: bool): bool
    decreases |steps|
  {
    if steps == [] || !Enabled(s, steps[0]) then before
    else RequestedIn(Apply(s, steps[0]), steps[1..],
                     match steps[0]
                     case WakeStep(_) => true
                     case QuitStep(fromLoop) => before || !fromLoop
                     case LoopQueueStep(_) => before || s.place.Functors?
                     case PollStep => false
                     case _ => before)
  }

  /** Has thread `t` queued a functor and not called `wakeup()` yet? */
  function MidQueue(steps: seq<Step>, t: Thread, before: bool): bool
    decreases |steps|
  {
    if steps == [] then before
    else MidQueue(steps[1..], t, match steps[0]
                                 case PushStep(u, _) => before || u == t
                                 case WakeStep(u) => before && u != t
                                 case _ => before)
  }

  lemma {:induction false} RunIsRecorded(s: State, steps: seq<Step>, s': State)
    requires Leads(s, steps, s')
    ensures s'.queued == QueuedIn(steps, s.queued) && |s'.ran| == |s.ran| + RunsIn(steps)
    decreases |steps|
  {
    if steps != [] { RunIsRecorded(Apply(s, steps[0]), steps[1..], s'); }
  }

  lemma {:induction false} WakesAreRecorded(s: State, steps: seq<Step>, s': State, t: Thread)
    requires Inv(s) && Leads(s, steps, s')
    ensures s'.wakeRequested == RequestedIn(s, steps, s.wakeRequested)
    ensures t in s'.pushed <==> MidQueue(steps, t, t in s.pushed)
    decreases |steps|
  {
    if steps != [] {
      StepKeeps(s, steps[0]);
      WakesAreRecorded(Apply(s, steps[0]), steps[1..], s', t);
    }
  }

  predicate EndsWith(all: seq<Origin>, last: seq<Origin>) { |last| <= |all| && all[|all| - |last|..] == last }

  lemma {:induction false} OriginsAreRecorded(s: State, steps: seq<Step>, s': State, before: seq<Origin>)
    requires Leads(s, steps, s') && EndsWith(before, s.origins)
    ensures EndsWith(OriginsIn(s, steps, before), s'.origins)
    decreases |steps|
  {
    if steps != [] {
      var s1 := Apply(s, steps[0]);
      if steps[0].PushStep? || steps[0].LoopQueueStep? {
        var o := if steps[0].LoopQueueStep? && s.place.Outside? then LoopThreadOutside else Elsewhere;
        assert (before + [o])[|before| - |s.origins|..] == before[|before| - |s.origins|..] + [o];
        OriginsAreRecorded(s1, steps[1..], s', before + [o]);
      } else {
        assert before[|before|..] == [];
        OriginsAreRecorded(s1, steps[1..], s', before);
      }
    }
  }

  /** Who queued what is pending after a run: the last ones who queued. */
  function PendingOrigins(steps: seq<Step>, s: State): seq<Origin> {
    var all := OriginsIn(INITIAL, steps, []);
    if |s.pending| <= |all| then all[|all| - |s.pending|..] else all
  }

  lemma PendingAre(steps: seq<Step>, s: State)
    requires Leads(INITIAL, steps, s)
    ensures PendingOrigins(steps, s) == s.origins && |s.origins| == |s.pending|
  {
    ReachableInv(steps, s);
    OriginsAreRecorded(INITIAL, steps, s, []);
  }

  /** The record of wake-ups is what the steps of the run say. */
  lemma WakeUpsAreAsCalled(steps: seq<Step>, s: State, t: Thread)
    requires Leads(INITIAL, steps, s)
    ensures s.wakeRequested == RequestedIn(INITIAL, steps, false)
    ensures t in s.pushed <==> MidQueue(steps, t, false)
  {
    assert Inv(INITIAL);
    WakesAreRecorded(INITIAL, steps, s, t);
  }

  // ---------- The main results ----------

  /** Functors run once each and in the order they were queued, over all threads: what has run,
      the rest of the batch and what is pending is the sequence the steps of the run queued, and
      each running step has run one of them. */
  lemma QueueIsLinear(steps: seq<Step>, s: State)
    requires Leads(INITIAL, steps, s)
    ensures QueuedIn(steps, []) == s.ran + Rest(s) + s.pending
    ensures RunsIn(steps) <= |QueuedIn(steps, [])| && s.ran == QueuedIn(steps, [])[..RunsIn(steps)]
    ensures s.place.Outside? ==> QueuedIn(steps, []) == s.ran + s.pending
  {
    ReachableInv(steps, s);
    RunIsRecorded(INITIAL, steps, s);
    assert s.ran + Rest(s) + s.pending == s.ran + (Rest(s) + s.pending);
  }

  /** The loop goes on until somebody quits. */
  lemma {:induction false} LoopEndsOnlyByQuit(s: State, steps: seq<Step>, s': State)
    requires !s.place.Outside? && Leads(s, steps, s') && s'.place.Outside?
    ensures s.quit || exists fromLoop :: QuitStep(fromLoop) in steps
    decreases |steps|
  {
    if !s.quit && steps != [] {
      var s1 := Apply(s, steps[0]);
      assert steps[0] in steps && forall step <- steps[1..] :: step in steps;
      if s1.quit {
        assert steps[0].QuitStep? && steps[0] == QuitStep(steps[0].fromLoop);
      } else {
        LoopEndsOnlyByQuit(s1, steps[1..], s');
      }
    }
  }

  /** What is queued while a batch runs waits for a later batch: from the moment a batch is taken
      until it ends, exactly the functors pending at that moment run, whoever queues more. */
  lemma {:induction false} BatchIsFixed(s: State, steps: seq<Step>, s': State)
    requires Inv(s) && s.place.Functors? && Leads(s, steps, s')
    requires forall step <- steps :: !step.EndStep?
    ensures s'.place.Functors? && s'.place.batch == s.place.batch && s'.ranBefore == s.ranBefore
    ensures s.pending <= s'.pending
    ensures s'.place.next <= |s.place.batch| && s'.ranBefore <= |s'.ran|
    ensures s'.ran[s'.ranBefore..] == s.place.batch[..s'.place.next]
    decreases |steps|
  {
    if steps != [] {
      assert steps[0] in steps;
      StepKeeps(s, steps[0]);
      hide Inv;
      BatchIsFixed(Apply(s, steps[0]), steps[1..], s');
    }
  }

  ghost predicate CanSleepOn(pending: seq<Functor>, origins: seq<Origin>) {
    exists steps, s :: Leads(INITIAL, steps, s) && s.place.Polling? && NoWakeUp(s)
                       && s.pending == pending && PendingOrigins(steps, s) == origins
  }

  /** What the loop can sleep on in poll(2), with no wake-up requested and no thread about to
      request one: exactly functors which the loop thread itself queued outside `loop()`, all of
      them. For anything another thread, a callback or a functor has queued, `wakeup()` is called. */
  lemma SleepsExactlyOn(pending: seq<Functor>, origins: seq<Origin>)
    ensures CanSleepOn(pending, origins) <==> |origins| == |pending| && AllOutside(origins)
  {
    if CanSleepOn(pending, origins) {
      var steps, s :| Leads(INITIAL, steps, s) && s.place.Polling? && NoWakeUp(s)
                      && s.pending == pending && PendingOrigins(steps, s) == origins;
      ReachableInv(steps, s);
      PendingAre(steps, s);
    }
    if |origins| == |pending| && AllOutside(origins) {
      var steps, s := EarlyFunctorsSleep(pending);
      PendingAre(steps, s);
      assert forall i :: 0 <= i < |origins| ==> origins[i] in origins && s.origins[i] in s.origins;
      assert s.origins == origins;
    }
  }

  /** The loop thread queues `fs` before it enters the loop. */
  lemma {:induction false} QueuedBeforeLoop(fs: seq<Functor>) returns (steps: seq<Step>, s: State)
    ensures Leads(INITIAL, steps, s) && s.place.Outside? && !s.quit && s.pending == fs && NoWakeUp(s)
    ensures |s.origins| == |fs| && AllOutside(s.origins) && !s.callingPendingFunctors
  {
    if fs == [] {
      steps, s := [], INITIAL;
    } else {
      var last := |fs| - 1;
      var before, s1 := QueuedBeforeLoop(fs[..last]);
      LeadsOn(INITIAL, before, s1, LoopQueueStep(fs[last]));
      steps, s := before + [LoopQueueStep(fs[last])], QueueFromLoop(s1, fs[last]);
      assert fs == fs[..last] + [fs[last]];
    }
  }

  /** Such functors wait in poll(2) with no wake-up requested. */
  lemma EarlyFunctorsSleep(fs: seq<Functor>) returns (steps: seq<Step>, s: State)
    ensures Leads(INITIAL, steps, s) && s.place.Polling? && s.pending == fs && NoWakeUp(s)
    ensures |s.origins| == |fs| && AllOutside(s.origins)
  {
    var before, s1 := QueuedBeforeLoop(fs);
    var s2 := Start(s1);
    s := TestQuit(s2);
    LeadsOn(INITIAL, before, s1, StartStep);
    LeadsOn(INITIAL, before + [StartStep], s2, TestStep);
    steps := before + [StartStep] + [TestStep];
  }

  /** But `wakeup()` is a stub: whatever the threads queue and request, the loop stays in poll(2)
      and runs nothing until that returns by itself. */
  lemma {:induction false} StubWakesNobody(s: State, steps: seq<Step>, s': State)
    requires s.place.Polling? && Leads(s, steps, s') && PollStep !in steps
    ensures s'.place.Polling? && s'.ran == s.ran && s.pending <= s'.pending
    decreases |steps|
  {
    if steps != [] {
      assert steps[0] in steps;
      StubWakesNobody(Apply(s, steps[0]), steps[1..], s');
    }
  }

  /** So a functor another thread has queued, wake-up and all, does wait there. */
  lemma PushedFunctorsSleep(t: Thread, f: Functor) returns (steps: seq<Step>, s: State)
    ensures steps == [StartStep, TestStep, PushStep(t, f), WakeStep(t)]
    ensures Leads(INITIAL, steps, s) && s.place.Polling? && s.pending == [f] && s.wakeRequested
  {
    var s1 := Start(INITIAL);
    var s2 := TestQuit(s1);
    var s3 := Push(s2, t, f);
    s := Wake(s3, t);
    LeadsNowhere(INITIAL);
    LeadsOn(INITIAL, [], INITIAL, StartStep);
    LeadsOn(INITIAL, [] + [StartStep], s1, TestStep);
    LeadsOn(INITIAL, [] + [StartStep] + [TestStep], s2, PushStep(t, f));
    LeadsOn(INITIAL, [] + [StartStep] + [TestStep] + [PushStep(t, f)], s3, WakeStep(t));
    steps := [] + [StartStep] + [TestStep] + [PushStep(t, f)] + [WakeStep(t)];
  }

  /** Once `quit()` has been called inside the loop, whoever called it, the loop is in poll(2)
      only if it already was and that poll(2) has not returned yet: it finishes its iteration,
      takes what is pending if it has not yet, and never polls again, whatever the threads do. */
  lemma {:induction false} QuitEndsLoop(s: State, steps: seq<Step>, s': State)
    requires s.quit && Leads(s, steps, s')
    requires forall step <- steps :: !step.StartStep?
    ensures s'.quit && (s'.place.Polling? ==> s.place.Polling? && PollStep !in steps)
    decreases |steps|
  {
    if steps != [] {
      assert steps[0] in steps;
      QuitEndsLoop(Apply(s, steps[0]), steps[1..], s');
      assert steps == [steps[0]] + steps[1..];
    }
  }

  /** But a `quit()` while the loop thread is not in `loop()` is forgotten: whatever state it
      comes in, the next `loop()` still goes to poll(2), unless somebody quits once more. */
  lemma QuitBeforeLoopIsLost(s: State, fromLoop: bool) returns (steps: seq<Step>, s': State)
    requires s.place.Outside?
    ensures steps == [QuitStep(fromLoop), StartStep, TestStep] && Leads(s, steps, s') && s'.place.Polling?
  {
    var s1 := Quit(s, fromLoop);
    var s2 := Start(s1);
    s' := TestQuit(s2);
    LeadsNowhere(s);
    LeadsOn(s, [], s, QuitStep(fromLoop));
    LeadsOn(s, [] + [QuitStep(fromLoop)], s1, StartStep);
    LeadsOn(s, [] + [QuitStep(fromLoop)] + [StartStep], s2, TestStep);
    steps := [] + [QuitStep(fromLoop)] + [StartStep] + [TestStep];
  }

  // ---------- The object ----------

  /** Everything the functors of `batch` queue, in the order they run. */
  function QueuedBy(batch: seq<Functor>, script: map<Functor, seq<Functor>>): seq<Functor> {
    if batch == [] then []
    else QueuedBy(batch[..|batch| - 1], script) + Queues(batch[|batch| - 1], script)
  }

  /** What functor `f` queues when it runs. */
  function Queues(f: Functor, script: map<Functor, seq<Functor>>): seq<Functor> {
    if f in script then script[f] else []
  }

  lemma QueuedByNone(functors: seq<Functor>, script: map<Functor, seq<Functor>>)
    ensures functors[..0] == [] && QueuedBy(functors[..0], script) == []
    ensures functors[..|functors|] == functors
  {
  }

  lemma QueuedByNext(functors: seq<Functor>, i: nat, script: map<Functor, seq<Functor>>)
    requires i < |functors|
    ensures QueuedBy(functors[..i + 1], script) == QueuedBy(functors[..i], script) + Queues(functors[i], script)
  {
    assert functors[..i + 1][..i] == functors[..i];
  }

  class Loop {
    var pendingFunctors: seq<Functor>
    var quit: bool
    var callingPendingFunctors: bool
    var wakeRequested: bool
    ghost var place: Place
    ghost var pushed: set<Thread>
    ghost var origins: seq<Origin>
    ghost var queued: seq<Functor>
    ghost var ran: seq<Functor>
    ghost var ranBefore: nat

    ghost function Value(): State
      reads this
    {
      State(place, pendingFunctors, quit, callingPendingFunctors, pushed, wakeRequested, origins,
            queued, ran, ranBefore)
    }

    constructor ()
      ensures Value() == INITIAL
    {
      pendingFunctors, quit, callingPendingFunctors, wakeRequested := [], false, false, false;
      place, pushed, origins, queued, ran, ranBefore := Outside, {}, [], [], [], 0;
    }

    /** `queueInLoop`, by the loop thread or in one go by thread `t`. */
    method QueueInLoop(f: Functor, inLoopThread: bool, ghost t: Thread)
      requires Inv(Value()) && Enabled(Value(), if inLoopThread then LoopQueueStep(f) else PushStep(t, f))
      modifies this`pendingFunctors, this`wakeRequested, this`origins, this`queued
      ensures Inv(Value())
      ensures Value() == if inLoopThread then QueueFromLoop(old(Value()), f)
                         else Wake(Push(old(Value()), t, f), t)
    {
      ghost var s := Value();
      StepKeeps(s, if inLoopThread then LoopQueueStep(f) else PushStep(t, f));
      if !inLoopThread { StepKeeps(Push(s, t, f), WakeStep(t)); }
      hide Inv;
      origins := origins + [if inLoopThread && place.Outside? then LoopThreadOutside else Elsewhere];
      pendingFunctors := pendingFunctors + [f];
      queued := queued + [f];
      if !inLoopThread || callingPendingFunctors {
        wakeRequested := true;
      }
      assert !inLoopThread ==> pushed + {t} - {t} == pushed;
    }

    /** The whole of `doPendingFunctors`, when `script` says what each functor queues: a run of
        the steps above from the swap to the end of the batch, in which exactly what was pending
        runs, in order; what the functors queue is pending afterwards, in order. */
    method DoPendingFunctors(script: map<Functor, seq<Functor>>) returns (ghost steps: seq<Step>)
      requires Inv(Value()) && place.Handling?
      modifies this
      ensures Inv(Value()) && place.Test? && Leads(old(Value()), [SwapStep] + steps + [EndStep], Value())
      ensures forall step <- steps :: step.RunStep? || step.LoopQueueStep?
      ensures ran == old(ran) + old(pendingFunctors)
      ensures pendingFunctors == QueuedBy(old(pendingFunctors), script)
      ensures wakeRequested <==> old(wakeRequested) || pendingFunctors != []
    {
      hide Inv, Leads, QueuedBy;
      ghost var s0 := Value();
      StepKeeps(s0, SwapStep);
      LeadsNowhere(s0);
      LeadsOn(s0, [], s0, SwapStep);
      callingPendingFunctors := true;
      var functors := pendingFunctors;
      pendingFunctors, origins, place, ranBefore := [], [], Functors(functors, 0), |ran|;
      assert Value() == Swap(s0);
      steps := RunFunctors(functors, script);
      LeadsFurther(s0, [] + [SwapStep], Swap(s0), steps, Value());
      ghost var s := Value();
      StepKeeps(s, EndStep);
      LeadsOn(s0, [] + [SwapStep] + steps, s, EndStep);
      callingPendingFunctors, place := false, Test;
      assert [] + [SwapStep] + steps + [EndStep] == [SwapStep] + steps + [EndStep];
    }

    /** The loop over the swapped-out functors. */
    method RunFunctors(functors: seq<Functor>, script: map<Functor, seq<Functor>>) returns (ghost steps: seq<Step>)
      requires Inv(Value()) && place == Functors(functors, 0) && callingPendingFunctors && pendingFunctors == []
      modifies this`pendingFunctors, this`wakeRequested, this`origins, this`queued, this`ran, this`place
      ensures Inv(Value()) && place == Functors(functors, |functors|) && Leads(old(Value()), steps, Value())
      ensures forall step <- steps :: step.RunStep? || step.LoopQueueStep?
      ensures ran == old(ran) + functors && pendingFunctors == QueuedBy(functors, script)
      ensures wakeRequested <==> old(wakeRequested) || pendingFunctors != []
    {
      hide Inv, Leads, QueuedBy, Queues;
      ghost var s0 := Value();
      LeadsNowhere(s0);
      QueuedByNone(functors, script);
      steps := [];
      var i := 0;
      while i < |functors|
        invariant i <= |functors| && Inv(Value()) && place == Functors(functors, i)
        invariant Leads(s0, steps, Value()) && forall step <- steps :: step.RunStep? || step.LoopQueueStep?
        invariant ran == old(ran) + functors[..i] && pendingFunctors == QueuedBy(functors[..i], script)
        invariant wakeRequested <==> old(wakeRequested) || pendingFunctors != []
      {
        ghost var s := Value();
        ghost var more := RunFunctor(functors, i, script);
        LeadsFurther(s0, steps, s, more, Value());
        steps := steps + more;
        QueuedByNext(functors, i, script);
        assert functors[..i + 1] == functors[..i] + [functors[i]];
        i := i + 1;
      }
    }

    method RunFunctor(functors: seq<Functor>, i: nat, script: map<Functor, seq<Functor>>)
      returns (ghost steps: seq<Step>)
      requires Inv(Value()) && i < |functors| && place == Functors(functors, i) && callingPendingFunctors
      modifies this`pendingFunctors, this`wakeRequested, this`origins, this`queued, this`ran, this`place
      ensures Inv(Value()) && place == Functors(functors, i + 1) && Leads(old(Value()), steps, Value())
      ensures forall step <- steps :: step.RunStep? || step.LoopQueueStep?
      ensures ran == old(ran) + [functors[i]] && pendingFunctors == old(pendingFunctors) + Queues(functors[i], script)
      ensures wakeRequested <==> old(wakeRequested) || Queues(functors[i], script) != []
    {
      hide Inv, Leads;
      ghost var s := Value();
      StepKeeps(s, RunStep);
      LeadsNowhere(s);
      LeadsOn(s, [], s, RunStep);
      steps := [] + [RunStep];
      ran, place := ran + [functors[i]], Functors(functors, i + 1);
      if functors[i] in script {
        ghost var s1 := Value();
        ghost var more := QueueAll(script[functors[i]]);
        LeadsFurther(s, steps, s1, more, Value());
        steps := steps + more;
      }
    }

    /** What one functor queues. */
    method QueueAll(fs: seq<Functor>) returns (ghost steps: seq<Step>)
      requires Inv(Value()) && place.Functors? && callingPendingFunctors
      modifies this`pendingFunctors, this`wakeRequested, this`origins, this`queued
      ensures Inv(Value()) && Leads(old(Value()), steps, Value()) && forall step <- steps :: step.LoopQueueStep?
      ensures pendingFunctors == old(pendingFunctors) + fs
      ensures wakeRequested <==> old(wakeRequested) || fs != []
    {
      hide Inv, Leads;
      ghost var s0 := Value();
      LeadsNowhere(s0);
      steps := [];
      for i := 0 to |fs|
        invariant Inv(Value()) && Leads(s0, steps, Value()) && forall step <- steps :: step.LoopQueueStep?
        invariant pendingFunctors == old(pendingFunctors) + fs[..i]
        invariant wakeRequested <==> old(wakeRequested) || i > 0
      {
        ghost var s := Value();
        LeadsOn(s0, steps, s, LoopQueueStep(fs[i]));
        QueueInLoop(fs[i], true, 0);
        steps := steps + [LoopQueueStep(fs[i])];
        assert fs[..i + 1] == fs[..i] + [fs[i]];
      }
    }

    method QuitLoop(inLoopThread: bool)
      requires Inv(Value())
      modifies this`quit, this`wakeRequested
      ensures Inv(Value()) && Value() == Quit(old(Value()), inLoopThread)
    {
      StepKeeps(Value(), QuitStep(inLoopThread));
      hide Inv;
      quit := true;
      if !inLoopThread {
        wakeRequested := true;
      }
    }
  }
}
