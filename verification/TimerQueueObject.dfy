/** The TimerQueue object itself: fields changed in place, loops over the expired batch,
    callbacks that re-enter `addTimer` and `cancel`. Each method is a step of module
    TimerQueue, or a run of them. */
module TimerQueueObject {
  import opened CInts
  import opened TimerQueue

  /** What a callback may do to the queue while it runs. */
  datatype Action = Wait(micros: nat) | Add(when: int, interval: nat, repeat: bool) | CancelTimer(id: TimerId)

  class Queue {
    const sentry: Address

    var clock: int
    var heap: map<Address, Timer>
    var timers: seq<Entry>
    var activeTimers: set<TimerId>
    var cancelingTimers: set<TimerId>
    var callingExpiredTimers: bool
    var numCreated: nat
    var timerfd: TimerFd

    // The batch of the handleRead in progress
    var readAt: int
    var expired: seq<Entry>
    ghost var ids: seq<nat>
    ghost var next: nat

    // History
    ghost var calls: seq<Call>
    ghost var freed: seq<nat>
    ghost var pastSentry: bool

    ghost function Value(): State
      reads this
    {
      State(clock, heap, timers, activeTimers, cancelingTimers,
            if callingExpiredTimers then Calling(readAt, expired, ids, next) else Idle,
            numCreated, timerfd, calls, freed, false, pastSentry)
    }

    ghost predicate Valid()
      reads this
    {
      Inv(Value())
    }

    constructor (sentry: Address, now: int)
      requires now > 0
      ensures Valid() && Initial(Value()) && this.sentry == sentry && clock == now
    {
      this.sentry := sentry;
      clock, heap, timers, activeTimers, cancelingTimers := now, map[], [], {}, {};
      callingExpiredTimers, numCreated, timerfd := false, 0, Disarmed;
      readAt, expired, ids, next, calls, freed, pastSentry := 0, [], [], 0, [], [], false;
    }

    method Tick(now: int)
      requires Valid() && clock <= now
      modifies this
      ensures Valid() && Value() == TimerQueue.Tick(old(Value()), now)
    {
      TickKeeps(Value(), now);
      clock := now;
      if timerfd.Armed? && timerfd.deadline <= now {
        timerfd := Readable;
      }
    }

    method ResetFd(expiration: int)
      modifies this`timerfd
      ensures timerfd == ResetTimerfd(expiration, clock)
    {
      var ts := HowMuchTimeFromNow(expiration, clock);
      timerfd := Armed(clock + ts.sec * 1_000_000 + ts.nsec / 1000, clock);
    }

    /** The timer's entry joins the others, in order; `earliestChanged` says that it is due
        before every one of them. */
    method Insert(timer: Address) returns (earliestChanged: bool)
      requires timer in heap && Entry(heap[timer].expiration, timer) !in timers && Sorted(timers)
      modifies this`timers
      ensures Sorted(timers) && |timers| == |old(timers)| + 1
      ensures forall e :: e in timers <==> e in old(timers) || e == Entry(heap[timer].expiration, timer)
      ensures earliestChanged <==> forall e <- old(timers) :: heap[timer].expiration < e.when
      ensures timers == InsertEntry(old(timers), Entry(heap[timer].expiration, timer))
      ensures earliestChanged <==> EarliestChanges(old(Value()), heap[timer].expiration)
    {
      hide CountBefore;
      earliestChanged := false;
      var when := heap[timer].expiration;
      EarliestOfAll(timers, when);
      if timers == [] || when < timers[0].when {
        earliestChanged := true;
      }
      InsertsAtBound(timers, Entry(when, timer));
      var n := LowerBound(timers, Entry(when, timer));
      timers := timers[..n] + [Entry(when, timer)] + timers[n..];
    }

    method AddTimer(timer: Address, when: int, interval: nat, repeat: bool) returns (id: TimerId)
      requires Valid() && timer !in heap
      modifies this
      ensures Valid() && Value() == TimerQueue.AddTimer(old(Value()), timer, when, interval, repeat)
      ensures id == TimerId(timer, old(numCreated) + 1)
    {
      hide InsertEntry, Inv, ResetTimerfd;
      AddKeeps(Value(), timer, when, interval, repeat);
      TimersAreLive(Value());
      NewTimerIsNotInSet(Value(), timer);
      numCreated := numCreated + 1;
      heap := heap[timer := Timer(when, interval, repeat, numCreated)];
      id := TimerId(timer, numCreated);
      var earliestChanged := Insert(timer);
      if earliestChanged {
        ResetFd(heap[timer].expiration);
      }
    }

    method CancelInLoop(id: TimerId)
      requires Valid()
      modifies this
      ensures Valid() && Value() == Cancel(old(Value()), id)
    {
      CancelKeeps(Value(), id);
      assert id !in activeTimers;
      if callingExpiredTimers {
        cancelingTimers := cancelingTimers + {id};
      }
    }

    /** The batch that is due is moved from `timers_` to `expired`. */
    method GetExpired()
      requires AllLive(heap, timers)
      modifies this`expired, this`timers, this`activeTimers, this`pastSentry
      ensures var n := CountBefore(old(timers), Entry(readAt, sentry));
              expired == old(timers)[..n] && timers == old(timers)[n..]
      ensures AllLive(heap, expired)
      ensures activeTimers == old(activeTimers) - TimerIds(heap, expired)
      ensures pastSentry == (old(pastSentry) || !NothingDueLeft(old(timers), readAt, sentry))
    {
      hide CountBefore, TimerIds;
      var n := LowerBound(timers, Entry(readAt, sentry));
      if !(n == |timers| || readAt < timers[n].when) {
        pastSentry := true;  // the assert of line 180
      }
      expired, timers := timers[..n], timers[n..];
      EraseActive();
    }

    method ReadTimerfd()
      modifies this`timerfd
      ensures timerfd == if old(timerfd).Readable? then Disarmed else old(timerfd)
    {
      if timerfd.Readable? { timerfd := Disarmed; }
    }

    /** The timerfd is read and the batch taken, as of now. */
    method TakeBatch()
      requires !callingExpiredTimers && AllLive(heap, timers)
      modifies this`readAt, this`timerfd, this`expired, this`timers, this`activeTimers
      modifies this`pastSentry, this`ids, this`next
      ensures Taken(old(Value()), Value(), CountBefore(old(timers), Entry(clock, sentry)), sentry)
      ensures readAt == clock && expired == old(timers)[..CountBefore(old(timers), Entry(clock, sentry))]
      ensures AllLive(heap, expired) && ids == IdsOf(heap, expired) && next == 0
    {
      hide CountBefore, TimerIds, IdsOf, NothingDueLeft, AllLive;
      readAt := clock;
      ReadTimerfd();
      GetExpired();
      ids, next := IdsOf(heap, expired), 0;
    }

    /** `handleRead` up to its loop over the callbacks. */
    method BeginHandleRead()
      requires Valid() && !callingExpiredTimers
      modifies this
      ensures Valid() && Value() == BeginRead(old(Value()), sentry) && Value().phase.Calling?
    {
      hide Inv, CountBefore, TimerIds, IdsOf, NothingDueLeft, BeginRead, AllLive, Taken;
      ghost var s := Value();
      BeginKeeps(s, sentry);
      TimersAreLive(s);
      TakeBatch();
      ghost var r := Value();
      callingExpiredTimers := true;
      cancelingTimers := {};
      BeginsAs(s, r, CountBefore(s.timers, Entry(s.clock, sentry)), sentry);
    }

    /** `it->second->run()` */
    method CallTimer()
      requires Valid() && Enabled(Value(), CallOp)
      modifies this`calls, this`next
      ensures Valid() && Value() == CallNext(old(Value()))
    {
      hide Inv;
      CallKeeps(Value());
      BatchIsLive(Value());
      ghost var t := heap[expired[next].timer];
      calls := calls + [Call(t.sequence, clock, t.expiration, t.repeat, |freed|)];
      next := next + 1;
    }

    /** An address no live Timer has. */
    method Allocate() returns (a: Address)
      ensures a !in heap
    {
      a := 0;
      ghost var used: set<Address> := {};
      while a in heap
        invariant used <= heap.Keys && forall x <- used :: x < a
        decreases heap.Keys - used
      {
        used := used + {a};
        a := a + 1;
      }
    }

    /** What one callback does before it returns. */
    method RunActions(actions: seq<Action>) returns (ghost ops: seq<Op>)
      requires Valid()
      modifies this
      ensures Valid() && Leads(old(Value()), ops, Value(), sentry)
      ensures Value().phase == old(Value().phase) && calls == old(calls) && WithinCallback(ops)
    {
      hide Inv, Leads, Apply;
      ops := [];
      LeadsNowhere(Value(), sentry);
      for i := 0 to |actions|
        invariant Valid() && Leads(old(Value()), ops, Value(), sentry)
        invariant Value().phase == old(Value().phase) && calls == old(calls) && WithinCallback(ops)
      {
        ghost var s := Value();
        ghost var op := RunAction(actions[i]);
        LeadsOn(old(Value()), ops, s, op, sentry);
        ops := ops + [op];
      }
    }

    method RunAction(action: Action) returns (ghost op: Op)
      requires Valid()
      modifies this
      ensures Valid() && Enabled(old(Value()), op) && Value() == Apply(old(Value()), op, sentry)
      ensures Value().phase == old(Value().phase) && calls == old(calls) && !op.BeginOp? && !op.EndOp?
    {
      hide Inv, InsertEntry, ResetTimerfd;
      match action
      case Wait(micros) =>
        op := TickOp(clock + micros);
        Tick(clock + micros);
      case Add(when, interval, repeat) =>
        var a := Allocate();
        op := AddOp(a, when, interval, repeat);
        var _ := AddTimer(a, when, interval, repeat);
      case CancelTimer(id) =>
        op := CancelOp(id);
        NoneActive(Value());
        CancelInLoop(id);
    }

    /** One turn of the loop of `handleRead`: the next timer of the batch is called, and its
        callback does what `callbacks` says. */
    method RunTimer(i: nat, callbacks: map<nat, seq<Action>>) returns (ghost ops: seq<Op>)
      requires Valid() && Enabled(Value(), CallOp) && i == next
      modifies this
      ensures Valid() && Leads(old(Value()), ops, Value(), sentry) && WithinCallback(ops)
      ensures Value().phase == old(Value().phase).(next := i + 1)
      ensures |calls| == |old(calls)| + 1 && calls[..|old(calls)|] == old(calls) && i < |ids|
      ensures calls[|old(calls)|].sequence == ids[i]
    {
      hide Inv, Leads, CallNext;
      ghost var s := Value();
      BatchIsLive(s);
      var sequence := heap[expired[i].timer].sequence;
      CallTimer();
      CallsOne(s);
      LeadsNowhere(s, sentry);
      LeadsOn(s, [], s, CallOp, sentry);
      ops := [] + [CallOp];
      if sequence in callbacks {
        ghost var s1 := Value();
        ghost var more := RunActions(callbacks[sequence]);
        LeadsFurther(s, ops, s1, more, Value(), sentry);
        ops := ops + more;
      }
    }

    /** The whole of `handleRead`, whatever the callbacks do: one batch is taken and reset, with
        steps of module TimerQueue in between, and the calls made are those of exactly the
        timers that were due, each once and the earliest first. */
    method HandleRead(callbacks: map<nat, seq<Action>>) returns (ghost ops: seq<Op>)
      requires Valid() && !callingExpiredTimers
      modifies this
      ensures Valid() && !callingExpiredTimers && Leads(old(Value()), ops, Value(), sentry)
      ensures |ops| >= 2 && ops[0] == BeginOp && ops[|ops| - 1] == EndOp && WithinCallback(ops[1..|ops| - 1])
      ensures var due := old(timers)[..CountBefore(old(timers), Entry(old(clock), sentry))];
              && AllLive(old(heap), due) && old(calls) <= calls
              && Numbers(calls[|old(calls)|..]) == IdsOf(old(heap), due)
    {
      hide Inv, Leads, BeginRead, CallNext, EndRead, Numbers, CountBefore, IdsOf, AllLive;
      ghost var s0 := Value();
      BeginHandleRead();
      LeadsNowhere(s0, sentry);
      LeadsOn(s0, [], s0, BeginOp, sentry);
      Begins(s0, sentry);
      ghost var inner := RunBatch(callbacks);
      ghost var s := Value();
      LeadsFurther(s0, [] + [BeginOp], BeginRead(s0, sentry), inner, s, sentry);
      Reset();
      LeadsOn(s0, [] + [BeginOp] + inner, s, EndOp, sentry);
      ops := [] + [BeginOp] + inner + [EndOp];
      assert ops[1..|ops| - 1] == inner;
      EndsIdle(s);
    }

    /** The loop of `handleRead`. */
    method RunBatch(callbacks: map<nat, seq<Action>>) returns (ghost ops: seq<Op>)
      requires Valid() && callingExpiredTimers && next == 0
      modifies this
      ensures Valid() && Enabled(Value(), EndOp) && Leads(old(Value()), ops, Value(), sentry) && WithinCallback(ops)
      ensures old(calls) <= calls && Numbers(calls[|old(calls)|..]) == old(ids)
    {
      hide Inv, Leads, Numbers;
      ghost var s0 := Value();
      LeadsNowhere(s0, sentry);
      NumbersOfNone(calls);
      BatchIsLive(s0);
      ops := [];
      var i := 0;
      while i < |expired|
        invariant Valid() && callingExpiredTimers && Leads(s0, ops, Value(), sentry) && WithinCallback(ops)
        invariant Value().phase == s0.phase.(next := i) && i <= |expired|
        invariant s0.calls <= calls && Numbers(calls[|s0.calls|..]) == ids[..i]
        decreases |expired| - i
      {
        ghost var s := Value();
        ghost var more := RunTimer(i, callbacks);
        assert calls == s.calls + [calls[|s.calls|]];
        NumbersGrow(s0.calls, s.calls, calls[|s.calls|]);
        LeadsFurther(s0, ops, s, more, Value(), sentry);
        ops := ops + more;
        i := i + 1;
      }
      assert ids[..|ids|] == ids;
    }

    static method LowerBound(es: seq<Entry>, bound: Entry) returns (n: nat)
      ensures n == CountBefore(es, bound)
    {
      n := 0;
      while n < |es| && Less(es[n], bound)
        invariant n <= |es|
        invariant CountBefore(es, bound) == n + CountBefore(es[n..], bound)
      {
        assert es[n..][1..] == es[n + 1..];
        n := n + 1;
      }
    }

    method EraseActive()
      requires AllLive(heap, expired)
      modifies this`activeTimers
      ensures activeTimers == old(activeTimers) - TimerIds(heap, expired)
    {
      var i := 0;
      while i < |expired|
        invariant i <= |expired|
        invariant activeTimers ==
                  old(activeTimers) - (set e <- expired[..i] :: TimerId(e.timer, heap[e.timer].sequence))
      {
        assert expired[..i + 1] == expired[..i] + [expired[i]];
        activeTimers := activeTimers - {TimerId(expired[i].timer, heap[expired[i].timer].sequence)};
        i := i + 1;
      }
      assert expired[..|expired|] == expired;
    }

    /** One turn of the loop of `reset`: restart and reinsert, or delete. */
    method ResetTimer(a: Address)
      requires a in heap && Sorted(timers) && forall e <- timers :: e.timer != a
      modifies this`heap, this`timers, this`freed
      ensures Value() == ResetOne(old(Value()), a, readAt)
    {
      hide InsertEntry;
      if heap[a].repeat && TimerId(a, heap[a].sequence) !in cancelingTimers {
        heap := heap[a := Restart(heap[a], readAt)];
        var _ := Insert(a);
      } else {
        freed := freed + [heap[a].sequence];
        heap := heap - {a};
      }
    }

    method Reset()
      requires Valid() && Enabled(Value(), EndOp)
      modifies this
      ensures Valid() && Value() == EndRead(old(Value()))
    {
      hide Inv, ResetBatch, Resetting, ResetOne;
      EndKeeps(Value());
      BatchToReset(Value());
      ResetLoop();
      if timers != [] {
        var nextExpire := timers[0].when;
        if nextExpire > 0 {
          ResetFd(nextExpire);
        }
      }
    }

    method ResetLoop()
      requires callingExpiredTimers && readAt > 0 && Resetting(Value().(phase := Idle), expired)
      modifies this
      ensures Value() == ResetBatch(old(Value()).(phase := Idle), old(expired), old(readAt))
    {
      hide Resetting, ResetOne;
      callingExpiredTimers := false;
      var i := 0;
      assert expired[0..] == expired;
      while i < |expired|
        invariant i <= |expired| && Resetting(Value(), expired[i..])
        invariant ResetBatch(Value(), expired[i..], readAt)
               == ResetBatch(old(Value()).(phase := Idle), expired, readAt)
        invariant expired == old(expired) && readAt == old(readAt)
      {
        assert expired[i..][1..] == expired[i + 1..];
        NextToReset(Value(), expired[i..]);
        ResetOneKeeps(Value(), expired[i..], readAt);
        ResetTimer(expired[i].timer);
        i := i + 1;
      }
    }
  }

  lemma BatchToReset(s: State)
    requires Inv(s) && s.phase.Calling?
    ensures Resetting(s.(phase := Idle), s.phase.expired) && s.phase.now > 0
  {
  }

  lemma NextToReset(s: State, rest: seq<Entry>)
    requires Resetting(s, rest) && rest != []
    ensures rest[0].timer in s.heap && Sorted(s.timers) && forall e <- s.timers :: e.timer != rest[0].timer
  {
    FirstDropped(s.heap, s.timers, rest);
  }

  lemma NewTimerIsNotInSet(s: State, a: Address)
    requires Inv(s) && a !in s.heap
    ensures forall e <- s.timers :: e.timer != a
  {
    TimersAreLive(s);
  }

  lemma NoneActive(s: State)
    requires Inv(s)
    ensures s.active == {}
  {
  }

  lemma BatchIsLive(s: State)
    requires Inv(s) && s.phase.Calling?
    ensures AllLive(s.heap, s.phase.expired) && |s.phase.ids| == |s.phase.expired|
    ensures forall i :: 0 <= i < |s.phase.ids| ==> s.heap[s.phase.expired[i].timer].sequence == s.phase.ids[i]
  {
    hide Owned, Numbered, CallsInOrder;
    BatchHasIds(s);
  }

  /** The batch `handleRead` takes. */
  lemma Begins(s: State, sentry: Address)
    requires Inv(s) && s.phase.Idle?
    ensures var r := BeginRead(s, sentry);
            var due := s.timers[..CountBefore(s.timers, Entry(s.clock, sentry))];
            && r.calls == s.calls && AllLive(s.heap, due)
            && r.phase == Calling(s.clock, due, IdsOf(s.heap, due), 0)
  {
    TimersAreLive(s);
    hide Inv, CountBefore, IdsOf, TimerIds, NothingDueLeft;
  }

  /** `r` is `s` with its timerfd read and its first `n` timers taken out. */
  ghost predicate Taken(s: State, r: State, n: nat, sentry: Address) {
    && n <= |s.timers| && AllLive(s.heap, s.timers[..n])
    && r == s.(fd := if s.fd.Readable? then Disarmed else s.fd, timers := s.timers[n..],
               active := s.active - TimerIds(s.heap, s.timers[..n]),
               pastSentry := s.pastSentry || !NothingDueLeft(s.timers, s.clock, sentry))
  }

  lemma BeginsAs(s: State, r: State, n: nat, sentry: Address)
    requires n == CountBefore(s.timers, Entry(s.clock, sentry)) && Taken(s, r, n, sentry)
    ensures AllLive(s.heap, s.timers[..n])
    ensures BeginRead(s, sentry) ==
            r.(canceling := {}, phase := Calling(s.clock, s.timers[..n], IdsOf(s.heap, s.timers[..n]), 0))
    ensures r.clock == s.clock && r.heap == s.heap
  {
    hide CountBefore, IdsOf, TimerIds, NothingDueLeft;
  }

  lemma CallsOne(s: State)
    requires Inv(s) && Enabled(s, CallOp)
    ensures var r := CallNext(s);
            && r.phase == s.phase.(next := s.phase.next + 1) && r.heap == s.heap
            && |r.calls| == |s.calls| + 1 && r.calls == s.calls + [r.calls[|s.calls|]]
            && s.phase.next < |s.phase.ids| && r.calls[|s.calls|].sequence == s.phase.ids[s.phase.next]
  {
    BatchIsLive(s);
    hide Inv;
  }

  lemma NumbersOfNone(calls: seq<Call>)
    ensures Numbers(calls[|calls|..]) == []
  {
  }

  lemma NumbersGrow(before: seq<Call>, calls: seq<Call>, c: Call)
    requires before <= calls
    ensures before <= calls + [c]
    ensures Numbers((calls + [c])[|before|..]) == Numbers(calls[|before|..]) + [c.sequence]
  {
    assert (calls + [c])[|before|..] == calls[|before|..] + [c];
    NumbersAppend(calls[|before|..], c);
  }

  lemma {:induction false} InsertsAtBound(es: seq<Entry>, e: Entry)
    requires Sorted(es) && e !in es
    ensures var n := CountBefore(es, e);
            && InsertEntry(es, e) == es[..n] + [e] + es[n..] && Sorted(InsertEntry(es, e))
            && forall x :: x in InsertEntry(es, e) <==> x in es || x == e
  {
    InsertSorted(es, e);
    forall x ensures x in InsertEntry(es, e) <==> x in es || x == e { InsertMembers(es, e, x); }
    InsertsAtPosition(es, e);
  }

  lemma {:induction false} InsertsAtPosition(es: seq<Entry>, e: Entry)
    requires Sorted(es) && e !in es
    ensures var n := CountBefore(es, e); InsertEntry(es, e) == es[..n] + [e] + es[n..]
  {
    if es == [] || Less(e, es[0]) {
    } else {
      assert Less(es[0], e);
      var m := CountBefore(es[1..], e);
      InsertsAtPosition(es[1..], e);
      assert es[..m + 1] == [es[0]] + es[1..][..m] && es[m + 1..] == es[1..][m..];
    }
  }

  lemma EarliestOfAll(es: seq<Entry>, when: int)
    requires Sorted(es)
    ensures es == [] || when < es[0].when <==> forall e <- es :: when < e.when
  {
    forall e <- es ensures es[0].when <= e.when {
      var i :| 0 <= i < |es| && es[i] == e;
      assert i > 0 ==> Less(es[0], es[i]);
    }
  }

  lemma EndsIdle(s: State)
    requires Inv(s) && Enabled(s, EndOp)
    ensures EndRead(s).phase.Idle? && EndRead(s).calls == s.calls
  {
    hide Owned, Numbered, ResetBatch;
    ResetKeeps(s.(phase := Idle), s.phase.expired, s.phase.now);
  }

  lemma LeadsNowhere(s: State, sentry: Address)
    ensures Leads(s, [], s, sentry)
  {
  }

  lemma {:induction false} LeadsFurther(s: State, ops: seq<Op>, s1: State, more: seq<Op>, s2: State, sentry: Address)
    requires Leads(s, ops, s1, sentry) && Leads(s1, more, s2, sentry)
    ensures Leads(s, ops + more, s2, sentry)
    decreases |ops|
  {
    hide Apply;
    if ops == [] {
      assert ops + more == more;
    } else {
      LeadsFurther(Apply(s, ops[0], sentry), ops[1..], s1, more, s2, sentry);
      assert (ops + more)[1..] == ops[1..] + more;
    }
  }

  lemma LeadsOn(s: State, ops: seq<Op>, s1: State, op: Op, sentry: Address)
    requires Leads(s, ops, s1, sentry) && Enabled(s1, op)
    ensures Leads(s, ops + [op], Apply(s1, op, sentry), sentry)
  {
    hide Apply;
    var s2 := Apply(s1, op, sentry);
    assert [op][1..] == [];
    LeadsNowhere(s2, sentry);
    assert Leads(s1, [op], s2, sentry);
    LeadsFurther(s, ops, s1, [op], s2, sentry);
  }
}
