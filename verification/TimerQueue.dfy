/** src/port/TimerQueue.cpp, src/port/Timer.cpp and src/port/Timer.h: timers in an ordered
    set, one timerfd armed for the earliest of them, callbacks that add and cancel timers
    while a batch is running, and `new`/`delete` on a heap whose addresses are reused.
    Everything happens on the loop thread and reads one clock, in microseconds. */
module TimerQueue {
  import opened CInts

  type Address = int

  /** A Timer object; `interval` is `interval_` in whole microseconds. */
  datatype Timer = Timer(expiration: int, interval: nat, repeat: bool, sequence: nat)

  datatype TimerId = TimerId(timer: Address, sequence: nat)
  datatype Entry = Entry(when: int, timer: Address)

  /** The order of `std::pair<Timestamp, Timer*>`. */
  predicate Less(x: Entry, y: Entry) {
    x.when < y.when || (x.when == y.when && x.timer < y.timer)
  }

  /** The timerfd, which is never periodic: setting it discards an unread expiration. */
  datatype TimerFd = Disarmed | Armed(deadline: int, setAt: int) | Readable

  /** One call of a timer's callback, with what was true when it was made. */
  datatype Call = Call(sequence: nat, at: int, expiration: int, repeat: bool, freedBefore: nat)

  /** Inside `handleRead` callbacks are being called from `expired`; `ids` are the sequence
      numbers the batch had when it was taken. */
  datatype Phase = Idle | Calling(now: int, expired: seq<Entry>, ids: seq<nat>, next: nat)

  datatype State = State(
    clock: int,
    heap: map<Address, Timer>,
    timers: seq<Entry>,
    active: set<TimerId>,
    canceling: set<TimerId>,
    phase: Phase,
    numCreated: nat,
    fd: TimerFd,
    calls: seq<Call>,
    freed: seq<nat>,
    fault: bool,       // a dead pointer was used, or an assert other than that of line 180 failed
    pastSentry: bool)  // the assert of line 180 failed: a timer that is due was left behind

  // ---------- Arming the timerfd ----------

  datatype Timespec = Timespec(sec: int, nsec: int)

  function HowMuchTimeFromNow(when: int, now: int): Timespec {
    var microseconds := if when - now < 100 then 100 else when - now;
    Timespec(Quot(microseconds, 1_000_000), Rem(microseconds, 1_000_000) * 1000)
  }

  /** The relative time is a legal timespec, is never the zero that would disarm the
      timerfd, and denotes the wait exactly. */
  lemma TimespecIsExact(when: int, now: int)
    ensures var ts := HowMuchTimeFromNow(when, now);
            && ts.sec >= 0 && 0 <= ts.nsec < 1_000_000_000 && ts != Timespec(0, 0)
            && now + ts.sec * 1_000_000 + ts.nsec / 1000 == Max(when, now + 100)
            && ts.nsec % 1000 == 0
  {
  }

  function Max(x: int, y: int): int { if x < y then y else x }

  /** `timerfd_settime` with the relative time above. */
  function ResetTimerfd(expiration: int, now: int): TimerFd {
    var ts := HowMuchTimeFromNow(expiration, now);
    Armed(now + ts.sec * 1_000_000 + ts.nsec / 1000, now)
  }

  // ---------- The ordered set ----------

  predicate Sorted(es: seq<Entry>) {
    forall i, j :: 0 <= i < j < |es| ==> Less(es[i], es[j])
  }

  /** `std::set::insert` */
  function InsertEntry(es: seq<Entry>, e: Entry): seq<Entry> {
    if es == [] || Less(e, es[0]) then [e] + es
    else if es[0] == e then es
    else [es[0]] + InsertEntry(es[1..], e)
  }

  /** `std::set::lower_bound`, as the number of entries before `e`. */
  function CountBefore(es: seq<Entry>, e: Entry): (n: nat)
    ensures n <= |es|
    ensures forall i :: 0 <= i < n ==> Less(es[i], e)
    ensures n < |es| ==> !Less(es[n], e)
  {
    if es == [] || !Less(es[0], e) then 0 else 1 + CountBefore(es[1..], e)
  }

  lemma {:induction false} InsertMembers(es: seq<Entry>, e: Entry, x: Entry)
    ensures x in InsertEntry(es, e) <==> x in es || x == e
  {
    if !(es == [] || Less(e, es[0]) || es[0] == e) {
      InsertMembers(es[1..], e, x);
      assert es == [es[0]] + es[1..];
    }
  }

  lemma {:induction false} InsertSorted(es: seq<Entry>, e: Entry)
    requires Sorted(es)
    ensures Sorted(InsertEntry(es, e))
    ensures InsertEntry(es, e) != []
    ensures InsertEntry(es, e)[0] == (if es == [] || Less(e, es[0]) then e else es[0])
  {
    if es == [] || Less(e, es[0]) || es[0] == e {
    } else {
      InsertSorted(es[1..], e);
      forall x ensures x in InsertEntry(es[1..], e) <==> x in es[1..] || x == e {
        InsertMembers(es[1..], e, x);
      }
      var r := InsertEntry(es[1..], e);
      forall i | 0 <= i < |r| ensures Less(es[0], r[i]) {
        assert r[i] in r;
      }
    }
  }

  lemma InsertKeepsEarliest(es: seq<Entry>, e: Entry)
    ensures InsertEntry(es, e) != []
    ensures InsertEntry(es, e)[0] == (if es == [] || Less(e, es[0]) then e else es[0])
  {
  }

  // ---------- The operations ----------

  /** `insert`: puts the timer into `timers_` only; `activeTimers_` is left alone. */
  function Insert(s: State, timer: Address): State {
    if timer !in s.heap then s.(fault := true) else
    var e := Entry(s.heap[timer].expiration, timer);
    if e in s.timers then s.(fault := true)
    else s.(timers := InsertEntry(s.timers, e))
  }

  predicate EarliestChanges(s: State, when: int) {
    s.timers == [] || when < s.timers[0].when
  }

  /** `addTimer` on the loop thread: allocate at `timer`, insert, re-arm if it is now the
      earliest. */
  function AddTimer(s: State, timer: Address, when: int, interval: nat, repeat: bool): State {
    var s1 := s.(numCreated := s.numCreated + 1,
                 heap := s.heap[timer := Timer(when, interval, repeat, s.numCreated + 1)]);
    var s2 := Insert(s1, timer);
    if EarliestChanges(s, when) then s2.(fd := ResetTimerfd(when, s.clock)) else s2
  }

  function Delete(s: State, timer: Address): State {
    if timer !in s.heap then s.(fault := true)
    else s.(heap := s.heap - {timer}, freed := s.freed + [s.heap[timer].sequence])
  }

  function Cancel(s: State, id: TimerId): State {
    if id in s.active then
      if id.timer !in s.heap then s.(fault := true) else
      var e := Entry(s.heap[id.timer].expiration, id.timer);
      if e !in s.timers then s.(fault := true) else
      Delete(s.(timers := Without(s.timers, e), active := s.active - {id}), id.timer)
    else if s.phase.Calling? then s.(canceling := s.canceling + {id})
    else s
  }

  function Without(es: seq<Entry>, e: Entry): seq<Entry> {
    if es == [] then [] else if es[0] == e then es[1..] else [es[0]] + Without(es[1..], e)
  }

  predicate AllLive(heap: map<Address, Timer>, es: seq<Entry>) {
    forall e <- es :: e.timer in heap
  }

  function IdsOf(heap: map<Address, Timer>, es: seq<Entry>): seq<nat>
    requires AllLive(heap, es)
  {
    seq(|es|, i requires 0 <= i < |es| => heap[es[i].timer].sequence)
  }

  function TimerIds(heap: map<Address, Timer>, es: seq<Entry>): set<TimerId>
    requires AllLive(heap, es)
  {
    set e <- es :: TimerId(e.timer, heap[e.timer].sequence)
  }

  /** The assert of line 180: what `lower_bound` leaves behind is not due. */
  predicate NothingDueLeft(timers: seq<Entry>, now: int, sentry: Address) {
    var n := CountBefore(timers, Entry(now, sentry));
    n == |timers| || now < timers[n].when
  }

  /** `handleRead` up to the first callback: read the timerfd and take the expired batch. */
  function BeginRead(s: State, sentry: Address): State {
    var now := s.clock;
    var n := CountBefore(s.timers, Entry(now, sentry));
    var expired := s.timers[..n];
    if !AllLive(s.heap, expired) then s.(fault := true) else
    s.(fd := if s.fd.Readable? then Disarmed else s.fd,
       timers := s.timers[n..],
       active := s.active - TimerIds(s.heap, expired),
       canceling := {},
       phase := Calling(now, expired, IdsOf(s.heap, expired), 0),
       pastSentry := s.pastSentry || !NothingDueLeft(s.timers, now, sentry))
  }

  /** The loop of `handleRead`: call the next expired timer. */
  function CallNext(s: State): State
    requires s.phase.Calling? && s.phase.next < |s.phase.expired|
  {
    var a := s.phase.expired[s.phase.next].timer;
    if a !in s.heap then s.(fault := true) else
    var t := s.heap[a];
    s.(calls := s.calls + [Call(t.sequence, s.clock, t.expiration, t.repeat, |s.freed|)],
       phase := s.phase.(next := s.phase.next + 1))
  }

  function Restart(t: Timer, now: int): Timer {
    t.(expiration := if t.repeat then now + t.interval else 0)
  }

  predicate Restarts(s: State, a: Address)
    requires a in s.heap
  {
    s.heap[a].repeat && TimerId(a, s.heap[a].sequence) !in s.canceling
  }

  function ResetOne(s: State, a: Address, now: int): State {
    if a !in s.heap then s.(fault := true)
    else if Restarts(s, a) then Insert(s.(heap := s.heap[a := Restart(s.heap[a], now)]), a)
    else Delete(s, a)
  }

  /** The loop of `reset`. */
  function ResetBatch(s: State, expired: seq<Entry>, now: int): State
    decreases |expired|
  {
    if expired == [] then s else ResetBatch(ResetOne(s, expired[0].timer, now), expired[1..], now)
  }

  /** The end of `handleRead`: `reset`. */
  function EndRead(s: State): State
    requires s.phase.Calling?
  {
    var s1 := ResetBatch(s.(phase := Idle), s.phase.expired, s.phase.now);
    if s1.timers != [] && s1.timers[0].when > 0
    then s1.(fd := ResetTimerfd(s1.timers[0].when, s1.clock)) else s1
  }

  /** Time passes; the timerfd becomes readable at its deadline. */
  function Tick(s: State, clock: int): State {
    s.(clock := clock, fd := if s.fd.Armed? && s.fd.deadline <= clock then Readable else s.fd)
  }

  datatype Op = TickOp(clock: int) | AddOp(timer: Address, when: int, interval: nat, repeat: bool)
              | CancelOp(id: TimerId) | BeginOp | CallOp | EndOp

  /** What the environment may do: clocks do not go back, the allocator returns an address
      that is not in use, and `handleRead` is not re-entered. */
  predicate Enabled(s: State, op: Op) {
    match op
    case TickOp(clock) => s.clock <= clock
    case AddOp(timer, _, _, _) => timer !in s.heap
    case CancelOp(_) => true
    case BeginOp => s.phase.Idle?
    case CallOp => s.phase.Calling? && s.phase.next < |s.phase.expired|
    case EndOp => s.phase.Calling? && s.phase.next == |s.phase.expired|
  }

  function Apply(s: State, op: Op, sentry: Address): State
    requires Enabled(s, op)
  {
    match op
    case TickOp(clock) => Tick(s, clock)
    case AddOp(timer, when, interval, repeat) => AddTimer(s, timer, when, interval, repeat)
    case CancelOp(id) => Cancel(s, id)
    case BeginOp => BeginRead(s, sentry)
    case CallOp => CallNext(s)
    case EndOp => EndRead(s)
  }

  predicate Initial(s: State) {
    && s.clock > 0 && s.heap == map[] && s.timers == [] && s.active == {} && s.canceling == {}
    && s.phase.Idle? && s.numCreated == 0 && s.fd.Disarmed? && s.calls == [] && s.freed == []
    && !s.fault && !s.pastSentry
  }

  /** `s` leads to `s'` by the operations `ops`. */
  predicate Leads(s: State, ops: seq<Op>, s': State, sentry: Address)
    decreases |ops|
  {
    if ops == [] then s == s'
    else Enabled(s, ops[0]) && Leads(Apply(s, ops[0], sentry), ops[1..], s', sentry)
  }

  predicate Reachable(s: State, ops: seq<Op>, sentry: Address, s0: State) {
    Initial(s0) && Leads(s0, ops, s, sentry)
  }

  // ---------- What every operation keeps ----------

  function Batch(s: State): seq<Entry> { if s.phase.Idle? then [] else s.phase.expired }

  predicate PointsTo(heap: map<Address, Timer>, e: Entry) {
    e.timer in heap && heap[e.timer].expiration == e.when
  }

  /** The live timer at `a` is in exactly one of `timers_` and the running batch. */
  predicate Placed(heap: map<Address, Timer>, timers: seq<Entry>, batch: seq<Entry>, a: Address) {
    a in heap ==> var e := Entry(heap[a].expiration, a); (e in timers) != (e in batch)
  }

  /** Every live timer is in exactly one place, and those hold live timers only. */
  predicate Owned(heap: map<Address, Timer>, timers: seq<Entry>, batch: seq<Entry>) {
    && Sorted(timers) && Sorted(batch)
    && (forall e <- timers :: PointsTo(heap, e))
    && (forall e <- batch :: PointsTo(heap, e))
    && (forall a {:trigger Placed(heap, timers, batch, a)} | a in heap :: Placed(heap, timers, batch, a))
  }

  predicate LiveNumber(heap: map<Address, Timer>, q: nat) {
    exists a :: a in heap && heap[a].sequence == q
  }

  /** Sequence numbers name timers: each one ever given out is live once or freed once. */
  predicate Numbered(heap: map<Address, Timer>, freed: seq<nat>, numCreated: nat) {
    && (forall a <- heap :: 1 <= heap[a].sequence <= numCreated && heap[a].sequence !in freed)
    && (forall a, b :: a in heap && b in heap && heap[a].sequence == heap[b].sequence ==> a == b)
    && (forall q <- freed :: 1 <= q <= numCreated)
    && (forall i, j :: 0 <= i < j < |freed| ==> freed[i] != freed[j])
    && (forall q :: 1 <= q <= numCreated && q !in freed ==> LiveNumber(heap, q))
  }

  /** The batch is what was taken when it expired, none of it before its time. */
  predicate BatchIntact(s: State) {
    s.phase.Calling? ==>
      && s.phase.next <= |s.phase.expired| && |s.phase.ids| == |s.phase.expired|
      && 0 < s.phase.now <= s.clock
      && forall i :: 0 <= i < |s.phase.expired| ==>
           && s.phase.expired[i].when <= s.phase.now
           && s.phase.expired[i].timer in s.heap
           && s.heap[s.phase.expired[i].timer].sequence == s.phase.ids[i]
  }

  /** The timers of the batch whose callback has been called. */
  function CalledIds(phase: Phase): seq<nat> {
    if phase.Calling? && phase.next <= |phase.ids| then phase.ids[..phase.next] else []
  }

  /** The callback calls made so far. */
  predicate CallsInOrder(s: State) {
    && (forall c <- s.calls ::
          && c.expiration <= c.at <= s.clock && 1 <= c.sequence <= s.numCreated
          && c.freedBefore <= |s.freed| && c.sequence !in s.freed[..c.freedBefore]
          && (forall a <- s.heap :: s.heap[a].sequence == c.sequence ==> s.heap[a].repeat == c.repeat))
    && (forall i, j :: 0 <= i < j < |s.calls| && !s.calls[i].repeat ==>
          s.calls[i].sequence != s.calls[j].sequence)
    && (forall c <- s.calls :: !c.repeat ==> c.sequence in s.freed || c.sequence in CalledIds(s.phase))
  }

  function Numbers(calls: seq<Call>): seq<nat> {
    if calls == [] then [] else [calls[0].sequence] + Numbers(calls[1..])
  }

  /** The calls of the running batch are the last ones made, in the order of the batch. */
  predicate CallsFollowBatch(s: State) {
    |CalledIds(s.phase)| <= |s.calls| &&
    Numbers(s.calls[|s.calls| - |CalledIds(s.phase)|..]) == CalledIds(s.phase)
  }

  /** The timerfd will fire, or has fired, in time for an entry due at `when`. */
  predicate WakesFor(s: State, when: int) {
    || s.fd.Readable?
    || (s.fd.Armed? && s.fd.deadline <= Max(when, s.fd.setAt + 100) && s.fd.setAt <= s.clock < s.fd.deadline)
  }

  /** Outside `handleRead` the timerfd covers the earliest timer. Inside it, that matters only
      for timers the end of `handleRead` will not arm for. */
  predicate WakeUpPending(s: State) {
    s.timers != [] && (s.phase.Idle? || s.timers[0].when <= 0) ==> WakesFor(s, s.timers[0].when)
  }

  predicate Inv(s: State) {
    && !s.fault && s.active == {} && s.clock > 0
    && Owned(s.heap, s.timers, Batch(s))
    && Numbered(s.heap, s.freed, s.numCreated)
    && BatchIntact(s) && CallsInOrder(s) && CallsFollowBatch(s) && WakeUpPending(s)
  }

  lemma TickKeeps(s: State, clock: int)
    requires Inv(s) && s.clock <= clock
    ensures Inv(Tick(s, clock))
  {
  }

  /** The batch without the timer at `a`, in the same order. */
  ghost predicate DropsFrom(batch: seq<Entry>, a: Address, batch': seq<Entry>) {
    Sorted(batch') && forall x :: x in batch' <==> x in batch && x.timer != a
  }

  /** (Re)inserting the timer at `a`, which is new or comes from the batch. */
  lemma InsertOwned(heap: map<Address, Timer>, timers: seq<Entry>, batch: seq<Entry>,
                    a: Address, heap': map<Address, Timer>, batch': seq<Entry>)
    requires Owned(heap, timers, batch) && DropsFrom(batch, a, batch')
    requires a !in heap || Entry(heap[a].expiration, a) in batch
    requires a in heap' && heap'.Keys == heap.Keys + {a}
    requires forall b <- heap :: b != a ==> heap'[b] == heap[b]
    ensures var e := Entry(heap'[a].expiration, a);
            e !in timers && Owned(heap', InsertEntry(timers, e), batch')
  {
    var e := Entry(heap'[a].expiration, a);
    var timers' := InsertEntry(timers, e);
    assert Placed(heap, timers, batch, a);
    InsertSorted(timers, e);
    forall x ensures x in timers' <==> x in timers || x == e {
      InsertMembers(timers, e, x);
    }
    forall b ensures Placed(heap', timers', batch', b) {
      assert Placed(heap, timers, batch, b);
    }
  }

  lemma AddNumbered(heap: map<Address, Timer>, freed: seq<nat>, n: nat, a: Address, t: Timer)
    requires Numbered(heap, freed, n) && a !in heap && t.sequence == n + 1
    ensures Numbered(heap[a := t], freed, n + 1)
  {
    var heap' := heap[a := t];
    forall q | 1 <= q <= n + 1 && q !in freed ensures LiveNumber(heap', q) {
      if q <= n {
        assert LiveNumber(heap, q);
        var b :| b in heap && heap[b].sequence == q;
        assert b in heap' && heap'[b].sequence == q;
      } else {
        assert a in heap' && heap'[a].sequence == q;
      }
    }
  }

  /** What keeps the record of calls valid while no call is made. */
  lemma CallsFrame(s: State, s': State)
    requires CallsInOrder(s)
    requires s'.calls == s.calls && s.clock <= s'.clock && s.numCreated <= s'.numCreated && s.freed <= s'.freed
    requires forall a <- s'.heap :: s'.heap[a].sequence <= s.numCreated ==>
               a in s.heap && s.heap[a].sequence == s'.heap[a].sequence && s.heap[a].repeat == s'.heap[a].repeat
    requires forall c <- s.calls :: !c.repeat && c.sequence in CalledIds(s.phase) ==>
               c.sequence in s'.freed || c.sequence in CalledIds(s'.phase)
    ensures CallsInOrder(s')
  {
    forall c <- s'.calls ensures s'.freed[..c.freedBefore] == s.freed[..c.freedBefore] { }
  }

  lemma AddKeeps(s: State, a: Address, when: int, interval: nat, repeat: bool)
    requires Inv(s) && a !in s.heap
    ensures Inv(AddTimer(s, a, when, interval, repeat))
  {
    hide Numbered, Owned, CallsInOrder, WakeUpPending, InsertEntry, ResetTimerfd;
    var t := Timer(when, interval, repeat, s.numCreated + 1);
    var heap' := s.heap[a := t];
    AddOwned(s, a, heap');
    AddNumbered(s.heap, s.freed, s.numCreated, a, t);
    var s' := AddTimer(s, a, when, interval, repeat);
    assert s'.heap == heap' && s'.timers == InsertEntry(s.timers, Entry(when, a)) && !s'.fault;
    assert s'.calls == s.calls && s'.phase == s.phase && s'.freed == s.freed && s'.clock == s.clock;
    assert s'.fd == if EarliestChanges(s, when) then ResetTimerfd(when, s.clock) else s.fd;
    AddCalls(s, a, s');
    AddWakes(s, a, s', when);
    hide AddTimer, BatchIntact, CallsFollowBatch;
  }

  lemma AddCalls(s: State, a: Address, s': State)
    requires Inv(s) && a !in s.heap && a in s'.heap && s'.heap[a].sequence == s.numCreated + 1
    requires s'.heap == s.heap[a := s'.heap[a]] && s'.numCreated == s.numCreated + 1
    requires s'.calls == s.calls && s'.phase == s.phase && s'.freed == s.freed && s'.clock == s.clock
    ensures CallsInOrder(s') && BatchIntact(s') && CallsFollowBatch(s')
  {
    hide CallsInOrder, Owned, Numbered, WakeUpPending;
    CallsFrame(s, s');
  }

  lemma AddOwned(s: State, a: Address, heap': map<Address, Timer>)
    requires Owned(s.heap, s.timers, Batch(s)) && a !in s.heap
    requires a in heap' && heap' == s.heap[a := heap'[a]]
    ensures Entry(heap'[a].expiration, a) !in s.timers
    ensures Owned(heap', InsertEntry(s.timers, Entry(heap'[a].expiration, a)), Batch(s))
  {
    hide InsertEntry;
    assert DropsFrom(Batch(s), a, Batch(s));
    InsertOwned(s.heap, s.timers, Batch(s), a, heap', Batch(s));
  }

  lemma AddWakes(s: State, a: Address, s': State, when: int)
    requires WakeUpPending(s) && s'.timers == InsertEntry(s.timers, Entry(when, a))
    requires s'.phase == s.phase && s'.clock == s.clock
    requires s'.fd == if EarliestChanges(s, when) then ResetTimerfd(when, s.clock) else s.fd
    ensures WakeUpPending(s')
  {
    InsertKeepsEarliest(s.timers, Entry(when, a));
    hide InsertEntry;
    TimespecIsExact(when, s.clock);
  }

  lemma BeginOwned(heap: map<Address, Timer>, timers: seq<Entry>, n: nat)
    requires Owned(heap, timers, []) && n <= |timers|
    ensures Owned(heap, timers[n..], timers[..n])
  {
    var expired, rest := timers[..n], timers[n..];
    assert timers == expired + rest;
    forall a ensures Placed(heap, rest, expired, a) {
      assert Placed(heap, timers, [], a);
      forall i, j | 0 <= i < n <= j < |timers| ensures timers[i] != timers[j] { assert Less(timers[i], timers[j]); }
    }
  }

  lemma BeginKeeps(s: State, sentry: Address)
    requires Inv(s) && s.phase.Idle?
    ensures Inv(BeginRead(s, sentry))
  {
    hide CountBefore, Numbered, CallsInOrder;
    var n := CountBefore(s.timers, Entry(s.clock, sentry));
    BeginOwned(s.heap, s.timers, n);
    forall i | 0 <= i < n ensures s.timers[i].when <= s.clock && s.timers[i].timer in s.heap {
      assert s.timers[i] in s.timers;
    }
    hide Owned;
    var s' := BeginRead(s, sentry);
    CallsFrame(s, s');
    if n < |s.timers| { assert s'.timers[0] == s.timers[n]; }
  }

  lemma BatchDistinct(s: State, i: nat, k: nat)
    requires Inv(s) && s.phase.Calling? && i < k < |s.phase.expired|
    ensures s.phase.ids[i] != s.phase.ids[k]
  {
    hide CallsInOrder;
    var x, y := s.phase.expired[i], s.phase.expired[k];
    assert Less(x, y) && x in Batch(s) && y in Batch(s);
  }

  lemma CallKeeps(s: State)
    requires Inv(s) && Enabled(s, CallOp)
    ensures Inv(CallNext(s))
  {
    var k := s.phase.next;
    var q := s.phase.ids[k];
    forall i: nat | i < k ensures s.phase.ids[i] != q { BatchDistinct(s, i, k); }
    var e := s.phase.expired[k];
    assert e in Batch(s);
    assert forall a <- s.heap :: s.heap[a].sequence == q ==> a == e.timer;
    hide Owned, Numbered;
    NewCall(s, s.heap[e.timer]);
    CallFollows(s);
  }

  lemma {:induction false} NumbersAppend(calls: seq<Call>, c: Call)
    ensures Numbers(calls + [c]) == Numbers(calls) + [c.sequence]
  {
    if calls != [] {
      NumbersAppend(calls[1..], c);
      assert (calls + [c])[1..] == calls[1..] + [c];
    }
  }

  lemma CallFollows(s: State)
    requires CallsFollowBatch(s) && BatchIntact(s) && Enabled(s, CallOp)
    ensures CallsFollowBatch(CallNext(s))
  {
    var s' := CallNext(s);
    var c := s'.calls[|s.calls|];
    assert CalledIds(s'.phase) == CalledIds(s.phase) + [c.sequence];
    var n := |CalledIds(s.phase)|;
    var recent := s.calls[|s.calls| - n..];
    assert s'.calls[|s'.calls| - (n + 1)..] == recent + [c];
    NumbersAppend(recent, c);
  }

  lemma NewCall(s: State, t: Timer)
    requires CallsInOrder(s) && BatchIntact(s) && Enabled(s, CallOp)
    requires t == s.heap[s.phase.expired[s.phase.next].timer]
    requires t.expiration <= s.clock && 1 <= t.sequence <= s.numCreated && t.sequence !in s.freed
    requires t.sequence !in CalledIds(s.phase)
    requires forall a <- s.heap :: s.heap[a].sequence == t.sequence ==> s.heap[a] == t
    ensures CallsInOrder(CallNext(s)) && BatchIntact(CallNext(s))
  {
    var s' := CallNext(s);
    assert CalledIds(s'.phase) == CalledIds(s.phase) + [t.sequence];
    forall i, j | 0 <= i < j < |s'.calls| && !s'.calls[i].repeat
      ensures s'.calls[i].sequence != s'.calls[j].sequence
    {
      assert s'.calls[i] in s.calls;
    }
  }

  // ---------- reset ----------

  /** The state inside the loop of `reset`, with `rest` of the batch still to do. */
  predicate Resetting(s: State, rest: seq<Entry>) {
    !s.fault && s.active == {} && Owned(s.heap, s.timers, rest) && Numbered(s.heap, s.freed, s.numCreated)
  }

  /** What `reset` does not change, and that it makes no timer out of nothing. */
  predicate OnlyResets(s: State, r: State) {
    && r == s.(heap := r.heap, timers := r.timers, freed := r.freed)
    && s.freed <= r.freed
    && forall a <- r.heap :: a in s.heap && r.heap[a].(expiration := 0) == s.heap[a].(expiration := 0)
  }

  /** Entries due before the clock's origin, which `reset` does not arm for, are left alone. */
  predicate SameOverdue(es: seq<Entry>, es': seq<Entry>) {
    && (es != [] && es[0].when <= 0 ==> es' != [] && es'[0] == es[0])
    && (es' != [] && es'[0].when <= 0 ==> es != [] && es'[0] == es[0])
  }

  lemma DeleteNumbered(heap: map<Address, Timer>, freed: seq<nat>, n: nat, a: Address)
    requires Numbered(heap, freed, n) && a in heap
    ensures Numbered(heap - {a}, freed + [heap[a].sequence], n)
  {
    forall q | 1 <= q <= n && q !in freed + [heap[a].sequence] ensures LiveNumber(heap - {a}, q) {
      assert LiveNumber(heap, q);
      var b :| b in heap && heap[b].sequence == q;
      assert b in heap - {a};
    }
  }

  lemma RestartNumbered(heap: map<Address, Timer>, freed: seq<nat>, n: nat, a: Address, t: Timer)
    requires Numbered(heap, freed, n) && a in heap && t.sequence == heap[a].sequence
    ensures Numbered(heap[a := t], freed, n)
  {
    forall q | 1 <= q <= n && q !in freed ensures LiveNumber(heap[a := t], q) {
      assert LiveNumber(heap, q);
      var b :| b in heap && heap[b].sequence == q;
      assert b in heap[a := t] && heap[a := t][b].sequence == q;
    }
  }

  lemma FirstDropped(heap: map<Address, Timer>, timers: seq<Entry>, batch: seq<Entry>)
    requires Owned(heap, timers, batch) && batch != []
    ensures batch[0].timer in heap && batch[0] == Entry(heap[batch[0].timer].expiration, batch[0].timer)
    ensures batch[0] !in timers && DropsFrom(batch, batch[0].timer, batch[1..])
  {
    assert batch[0] in batch && Placed(heap, timers, batch, batch[0].timer);
    forall x ensures x in batch[1..] <==> x in batch && x.timer != batch[0].timer {
      assert batch == [batch[0]] + batch[1..];
      if x in batch[1..] {
        var i :| 1 <= i < |batch| && batch[i] == x;
        assert Less(batch[0], batch[i]);
      }
    }
  }

  lemma DeleteOwned(heap: map<Address, Timer>, timers: seq<Entry>, batch: seq<Entry>)
    requires Owned(heap, timers, batch) && batch != []
    ensures Owned(heap - {batch[0].timer}, timers, batch[1..])
  {
    FirstDropped(heap, timers, batch);
    var first := batch[0];
    forall e <- timers ensures PointsTo(heap - {first.timer}, e) {
      assert e.timer == first.timer ==> e == first;
    }
    forall a ensures Placed(heap - {first.timer}, timers, batch[1..], a) {
      assert Placed(heap, timers, batch, a);
    }
  }

  /** One turn of the loop. */
  lemma ResetOneKeeps(s: State, rest: seq<Entry>, now: int)
    requires Resetting(s, rest) && rest != [] && now > 0
    ensures var r := ResetOne(s, rest[0].timer, now);
            Resetting(r, rest[1..]) && OnlyResets(s, r) && SameOverdue(s.timers, r.timers)
  {
    FirstDropped(s.heap, s.timers, rest);
    var a := rest[0].timer;
    var t := s.heap[a];
    if Restarts(s, a) {
      var t' := Restart(t, now);
      var e := Entry(t'.expiration, a);
      InsertOwned(s.heap, s.timers, rest, a, s.heap[a := t'], rest[1..]);
      RestartNumbered(s.heap, s.freed, s.numCreated, a, t');
      InsertKeepsEarliest(s.timers, e);
      hide Owned, Numbered, InsertEntry;
    } else {
      DeleteOwned(s.heap, s.timers, rest);
      DeleteNumbered(s.heap, s.freed, s.numCreated, a);
      hide Owned, Numbered;
    }
  }

  lemma {:induction false} ResetKeeps(s: State, rest: seq<Entry>, now: int)
    requires Resetting(s, rest) && now > 0
    ensures var r := ResetBatch(s, rest, now);
            Resetting(r, []) && OnlyResets(s, r) && SameOverdue(s.timers, r.timers)
    decreases |rest|
  {
    hide Resetting, ResetOne;
    if rest != [] {
      ResetOneKeeps(s, rest, now);
      ResetKeeps(ResetOne(s, rest[0].timer, now), rest[1..], now);
    }
  }

  /** A timer `reset` is not given stays as it is. */
  lemma {:induction false} ResetSpares(s: State, rest: seq<Entry>, now: int, a: Address)
    requires Resetting(s, rest) && now > 0
    requires forall e <- rest :: e.timer != a
    ensures var r := ResetBatch(s, rest, now);
            (a in r.heap <==> a in s.heap) && (a in s.heap ==> r.heap[a] == s.heap[a])
    decreases |rest|
  {
    if rest != [] {
      ResetOneKeeps(s, rest, now);
      var r := ResetOne(s, rest[0].timer, now);
      assert rest[0] in rest;
      assert (a in r.heap <==> a in s.heap) && (a in s.heap ==> r.heap[a] == s.heap[a]);
      hide Resetting, ResetOne;
      ResetSpares(r, rest[1..], now, a);
    }
  }

  /** Each timer of the batch is either restarted for `now` plus its interval, and is in
      `timers_` again, or it is freed. */
  lemma {:induction false} ResetOutcome(s: State, rest: seq<Entry>, now: int, e: Entry)
    requires Resetting(s, rest) && now > 0 && e in rest && e.timer in s.heap
    ensures var r := ResetBatch(s, rest, now);
            var t := s.heap[e.timer];
            if Restarts(s, e.timer)
            then e.timer in r.heap && r.heap[e.timer] == t.(expiration := now + t.interval)
                 && Entry(now + t.interval, e.timer) in r.timers
            else e.timer !in r.heap && t.sequence in r.freed
    decreases |rest|
  {
    FirstDropped(s.heap, s.timers, rest);
    ResetOneKeeps(s, rest, now);
    ResetKeeps(s, rest, now);
    var s1 := ResetOne(s, rest[0].timer, now);
    var r := ResetBatch(s, rest, now);
    if e.timer == rest[0].timer {
      assert forall x <- rest[1..] :: x.timer != e.timer;
      assert if Restarts(s, e.timer) then e.timer in s1.heap && s1.heap[e.timer] == Restart(s.heap[e.timer], now)
             else e.timer !in s1.heap && s.heap[e.timer].sequence in s1.freed;
      hide ResetOne;
      ResetSpares(s1, rest[1..], now, e.timer);
      ResetKeeps(s1, rest[1..], now);
      assert Placed(r.heap, r.timers, [], e.timer);
    } else {
      assert s1.heap[e.timer] == s.heap[e.timer];
      assert e in rest[1..];
      hide ResetOne;
      ResetOutcome(s1, rest[1..], now, e);
    }
  }

  lemma EndKeeps(s: State)
    requires Inv(s) && Enabled(s, EndOp)
    ensures Inv(EndRead(s))
  {
    hide Owned, Numbered, CallsInOrder, ResetBatch, BatchIntact, CallsFollowBatch, WakeUpPending;
    var r := ResetBatch(s.(phase := Idle), s.phase.expired, s.phase.now);
    BatchIsPast(s);
    ResetKeeps(s.(phase := Idle), s.phase.expired, s.phase.now);
    EndCalls(s);
    EndWakes(s, r);
  }

  lemma BatchIsPast(s: State)
    requires BatchIntact(s) && s.phase.Calling?
    ensures s.phase.now > 0 && |s.phase.ids| == |s.phase.expired|
  {
  }

  lemma EndWakes(s: State, r: State)
    requires WakeUpPending(s) && s.phase.Calling? && s.clock > 0
    requires r == s.(phase := Idle, heap := r.heap, timers := r.timers, freed := r.freed)
    requires SameOverdue(s.timers, r.timers)
    ensures WakeUpPending(if r.timers != [] && r.timers[0].when > 0
                          then r.(fd := ResetTimerfd(r.timers[0].when, r.clock)) else r)
  {
    if r.timers != [] {
      TimespecIsExact(r.timers[0].when, s.clock);
    }
  }

  lemma EndCalls(s: State)
    requires Inv(s) && Enabled(s, EndOp)
    ensures var r := EndRead(s); CallsInOrder(r) && BatchIntact(r) && CallsFollowBatch(r)
  {
    hide Owned, Numbered, CallsInOrder, ResetBatch, WakeUpPending, ResetTimerfd;
    var r := ResetBatch(s.(phase := Idle), s.phase.expired, s.phase.now);
    ResetKeeps(s.(phase := Idle), s.phase.expired, s.phase.now);
    assert CalledIds(s.phase) == s.phase.ids;
    forall c <- s.calls | !c.repeat && c.sequence in s.phase.ids ensures c.sequence in r.freed {
      var k :| 0 <= k < |s.phase.ids| && s.phase.ids[k] == c.sequence;
      CalledOnceFreed(s, c, k);
    }
    CallsFrame(s, EndRead(s));
  }

  lemma CalledOnceFreed(s: State, c: Call, k: nat)
    requires Inv(s) && s.phase.Calling? && c in s.calls && !c.repeat
    requires k < |s.phase.ids| && s.phase.ids[k] == c.sequence
    ensures c.sequence in ResetBatch(s.(phase := Idle), s.phase.expired, s.phase.now).freed
  {
    var e := s.phase.expired[k];
    assert e in s.phase.expired;
    assert !s.heap[e.timer].repeat;
    hide CallsInOrder, ResetBatch, Owned, Numbered;
    ResetOutcome(s.(phase := Idle), s.phase.expired, s.phase.now, e);
  }

  // ---------- Every run ----------

  lemma StepKeeps(s: State, op: Op, sentry: Address)
    requires Inv(s) && Enabled(s, op)
    ensures Inv(Apply(s, op, sentry))
  {
    hide Inv;
    match op
    case TickOp(clock) => TickKeeps(s, clock);
    case AddOp(a, when, interval, repeat) => AddKeeps(s, a, when, interval, repeat);
    case CancelOp(id) => CancelKeeps(s, id);
    case BeginOp => BeginKeeps(s, sentry);
    case CallOp => CallKeeps(s);
    case EndOp => EndKeeps(s);
  }

  lemma CancelKeeps(s: State, id: TimerId)
    requires Inv(s)
    ensures Inv(Cancel(s, id))
  {
    hide Owned, Numbered;
  }

  lemma {:induction false} RunKeeps(s: State, ops: seq<Op>, s': State, sentry: Address)
    requires Inv(s) && Leads(s, ops, s', sentry)
    ensures Inv(s')
    decreases |ops|
  {
    hide Inv, Apply;
    if ops != [] {
      StepKeeps(s, ops[0], sentry);
      RunKeeps(Apply(s, ops[0], sentry), ops[1..], s', sentry);
    }
  }

  lemma ReachableInv(s: State, ops: seq<Op>, sentry: Address, s0: State)
    requires Reachable(s, ops, sentry, s0)
    ensures Inv(s)
  {
    hide Inv, Leads;
    InitialInv(s0);
    RunKeeps(s0, ops, s, sentry);
  }

  lemma InitialInv(s: State)
    requires Initial(s)
    ensures Inv(s)
  {
  }

  // ---------- The main results ----------

  predicate HoldsNumber(s: State, es: seq<Entry>, q: nat) {
    exists e <- es :: e.timer in s.heap && s.heap[e.timer].sequence == q
  }

  function One(b: bool): nat { if b then 1 else 0 }

  /** In how many of the three places timer number `q` is. */
  function Places(s: State, q: nat): nat {
    One(HoldsNumber(s, s.timers, q)) + One(HoldsNumber(s, Batch(s), q)) + One(q in s.freed)
  }

  /** No pointer is used after it is freed and no assert of the operations fails, that of line
      180 aside (SentryAssertHoldsExactly); every timer ever created is in exactly one place;
      none is freed twice. */
  lemma Ownership(s: State, ops: seq<Op>, sentry: Address, s0: State, q: nat)
    requires Reachable(s, ops, sentry, s0)
    ensures !s.fault
    ensures 1 <= q <= s.numCreated ==> Places(s, q) == 1
    ensures forall i, j :: 0 <= i < j < |s.freed| ==> s.freed[i] != s.freed[j]
  {
    hide Reachable;
    ReachableInv(s, ops, sentry, s0);
    if 1 <= q <= s.numCreated && q !in s.freed {
      assert LiveNumber(s.heap, q);
      var a :| a in s.heap && s.heap[a].sequence == q;
      var e := Entry(s.heap[a].expiration, a);
      assert Placed(s.heap, s.timers, Batch(s), a);
      assert HoldsNumber(s, s.timers, q) <==> e in s.timers;
      assert HoldsNumber(s, Batch(s), q) <==> e in Batch(s);
    }
  }

  /** No callback is called before its timer expires or after its timer is freed, and a
      one-shot timer is called at most once. */
  lemma Timing(s: State, ops: seq<Op>, sentry: Address, s0: State)
    requires Reachable(s, ops, sentry, s0)
    ensures forall c <- s.calls :: c.expiration <= c.at
    ensures forall c <- s.calls :: c.freedBefore <= |s.freed| && c.sequence !in s.freed[..c.freedBefore]
    ensures forall i, j :: 0 <= i < j < |s.calls| && !s.calls[i].repeat ==>
              s.calls[i].sequence != s.calls[j].sequence
  {
    hide Reachable;
    ReachableInv(s, ops, sentry, s0);
  }

  /** Outside `handleRead`, with timers waiting, the timerfd is readable or armed for no later
      than the earliest of them (or 100 microseconds after it was set). So once that moment has
      passed it is readable. */
  lemma WakeUpNeverLost(s: State, ops: seq<Op>, sentry: Address, s0: State)
    requires Reachable(s, ops, sentry, s0) && s.phase.Idle?
    ensures forall e <- s.timers ::
              || s.fd.Readable?
              || (s.fd.Armed? && s.fd.setAt <= s.clock && s.clock < s.fd.deadline <= Max(e.when, s.fd.setAt + 100))
  {
    hide Reachable;
    ReachableInv(s, ops, sentry, s0);
    forall e <- s.timers ensures s.timers[0].when <= e.when {
      var i :| 0 <= i < |s.timers| && s.timers[i] == e;
      assert i > 0 ==> Less(s.timers[0], s.timers[i]);
    }
  }

  lemma PrefixIsBefore(timers: seq<Entry>, limit: Entry, e: Entry)
    requires Sorted(timers)
    ensures var n := CountBefore(timers, limit);
            && (e in timers[..n] <==> e in timers && Less(e, limit))
            && (e in timers[n..] <==> e in timers && !Less(e, limit))
  {
    hide CountBefore;
    var n := CountBefore(timers, limit);
    forall i | n <= i < |timers| ensures !Less(timers[i], limit) {
      assert n < i ==> Less(timers[n], timers[i]);
    }
    assert timers == timers[..n] + timers[n..];
  }

  lemma TimersAreLive(s: State)
    requires Inv(s)
    ensures Sorted(s.timers) && AllLive(s.heap, s.timers)
  {
    hide Numbered, CallsInOrder, BatchIntact, CallsFollowBatch, WakeUpPending;
    forall e <- s.timers ensures e.timer in s.heap { assert PointsTo(s.heap, e); }
  }

  /** A batch is every timer that is due, the earliest first, and nothing else ... */
  lemma BatchIsWhatIsDue(s: State, ops: seq<Op>, sentry: Address, s0: State, e: Entry)
    requires Reachable(s, ops, sentry, s0) && s.phase.Idle?
    ensures var r := BeginRead(s, sentry);
            && r.phase.Calling? && Sorted(r.phase.expired)
            && (e in r.phase.expired <==> e in s.timers && Less(e, Entry(s.clock, sentry)))
            && (e in r.timers <==> e in s.timers && !Less(e, Entry(s.clock, sentry)))
  {
    hide Reachable, Inv, CountBefore, NothingDueLeft, IdsOf, TimerIds;
    ReachableInv(s, ops, sentry, s0);
    TimersAreLive(s);
    PrefixIsBefore(s.timers, Entry(s.clock, sentry), e);
  }

  /** ... and each of its timers is called, in that order, before the batch ends. */
  lemma BatchIsCalled(s: State, ops: seq<Op>, sentry: Address, s0: State)
    requires Reachable(s, ops, sentry, s0) && Enabled(s, EndOp)
    ensures var n := |s.phase.expired|;
            && n <= |s.calls| && AllLive(s.heap, s.phase.expired)
            && Numbers(s.calls[|s.calls| - n..]) == IdsOf(s.heap, s.phase.expired)
  {
    hide Reachable, Numbers, Owned, Numbered, CallsInOrder, WakeUpPending;
    ReachableInv(s, ops, sentry, s0);
    BatchHasIds(s);
    assert CalledIds(s.phase) == s.phase.ids;
  }

  lemma BatchHasIds(s: State)
    requires BatchIntact(s) && s.phase.Calling?
    ensures AllLive(s.heap, s.phase.expired) && IdsOf(s.heap, s.phase.expired) == s.phase.ids
  {
  }

  /** How a batch ends: a repeating timer that was not cancelled meanwhile is due again one
      interval after the batch was taken; every other timer is freed. */
  lemma BatchEnds(s: State, ops: seq<Op>, sentry: Address, s0: State, e: Entry)
    requires Reachable(s, ops, sentry, s0) && Enabled(s, EndOp) && e in s.phase.expired
    ensures e.timer in s.heap
    ensures var t := s.heap[e.timer];
            var r := EndRead(s);
            if t.repeat && TimerId(e.timer, t.sequence) !in s.canceling
            then Entry(s.phase.now + t.interval, e.timer) in r.timers
            else e.timer !in r.heap && t.sequence in r.freed
  {
    hide Reachable;
    ReachableInv(s, ops, sentry, s0);
    hide ResetBatch;
    ResetOutcome(s.(phase := Idle), s.phase.expired, s.phase.now, e);
  }

  /** Since `insert` never fills `activeTimers_`, cancelling outside a callback does nothing
      at all (for inside one see CancelMattersExactly), and the size comparisons the source has
      commented out hold only when empty. */
  lemma CancelOutsideBatchIsLost(s: State, ops: seq<Op>, sentry: Address, s0: State, id: TimerId)
    requires Reachable(s, ops, sentry, s0)
    ensures s.phase.Idle? ==> Cancel(s, id) == s
    ensures |s.timers| == |s.active| <==> s.timers == []
  {
    hide Reachable;
    ReachableInv(s, ops, sentry, s0);
  }

  /** What `reset` makes of the batch depends on the marks of its own timers only. */
  lemma {:induction false} ResetSameMarks(s: State, s': State, rest: seq<Entry>, now: int)
    requires Resetting(s, rest) && now > 0 && s' == s.(canceling := s'.canceling)
    requires AllLive(s.heap, rest) && forall e <- rest :: Restarts(s, e.timer) == Restarts(s', e.timer)
    ensures ResetBatch(s', rest, now) == ResetBatch(s, rest, now).(canceling := s'.canceling)
    decreases |rest|
  {
    if rest != [] {
      assert rest[0] in rest;
      ResetOneKeeps(s, rest, now);
      var r, r' := ResetOne(s, rest[0].timer, now), ResetOne(s', rest[0].timer, now);
      assert r' == r.(canceling := s'.canceling);
      hide ResetOne;
      FirstDropped(s.heap, s.timers, rest);
      forall e <- rest[1..] ensures e.timer in r.heap && Restarts(r, e.timer) == Restarts(r', e.timer) {
        StillToReset(r, rest[1..], e);
        assert e in rest;
      }
      ResetSameMarks(r, r', rest[1..], now);
    }
  }

  lemma StillToReset(s: State, rest: seq<Entry>, e: Entry)
    requires Resetting(s, rest) && e in rest
    ensures e.timer in s.heap
  {
    assert PointsTo(s.heap, e);
  }

  /** The timer `id` names is a repeating one of the running batch and not marked yet. */
  predicate Stoppable(s: State, id: TimerId) {
    && s.phase.Calling? && id !in s.canceling
    && id.timer in s.heap && s.heap[id.timer].sequence == id.sequence && s.heap[id.timer].repeat
    && Entry(s.heap[id.timer].expiration, id.timer) in s.phase.expired
  }

  /** Inside a callback `cancel` only marks. The mark makes a difference when the batch ends
      exactly if it names a repeating timer of that batch which was not marked before; a timer
      that is still waiting in `timers_`, or was added by a callback, is not cancelled. */
  lemma CancelMattersExactly(s: State, ops: seq<Op>, sentry: Address, s0: State, id: TimerId)
    requires Reachable(s, ops, sentry, s0) && s.phase.Calling?
    ensures Cancel(s, id).phase == s.phase
    ensures EndRead(Cancel(s, id)).(canceling := {}) != EndRead(s).(canceling := {}) <==> Stoppable(s, id)
  {
    hide Reachable;
    ReachableInv(s, ops, sentry, s0);
    var batch, now := s.phase.expired, s.phase.now;
    var r, r' := s.(phase := Idle), Cancel(s, id).(phase := Idle);
    assert r' == r.(canceling := s.canceling + {id});
    forall e <- batch ensures PointsTo(s.heap, e) { }
    if Stoppable(s, id) {
      var e := Entry(s.heap[id.timer].expiration, id.timer);
      hide ResetBatch;
      ResetOutcome(r, batch, now, e);
      ResetOutcome(r', batch, now, e);
    } else {
      forall e <- batch ensures Restarts(r, e.timer) == Restarts(r', e.timer) {
        assert PointsTo(s.heap, e);
      }
      hide ResetBatch, Inv;
      ResetSameMarks(r, r', batch, now);
    }
  }

  // ---------- Timers are what was asked for ----------

  /** The timers a run adds, in order. */
  function Adds(ops: seq<Op>): (adds: seq<Op>)
    ensures forall op <- adds :: op.AddOp?
  {
    if ops == [] then [] else (if ops[0].AddOp? then [ops[0]] else []) + Adds(ops[1..])
  }

  lemma {:induction false} NumbersJoin(xs: seq<Call>, ys: seq<Call>)
    ensures Numbers(xs + ys) == Numbers(xs) + Numbers(ys)
  {
    if xs == [] {
      assert xs + ys == ys;
    } else {
      var q, rest := xs[0].sequence, xs[1..];
      NumbersJoin(rest, ys);
      assert (xs + ys)[1..] == rest + ys;
      assert Numbers(xs + ys) == [q] + Numbers(rest + ys) && Numbers(xs) == [q] + Numbers(rest);
      hide Numbers;
      assert [q] + (Numbers(rest) + Numbers(ys)) == ([q] + Numbers(rest)) + Numbers(ys);
    }
  }

  /** The live timer at `a` is what its add asked for, and due when that said until its first
      call. */
  predicate AskedFor(s: State, adds: seq<Op>, a: Address) {
    a in s.heap ==>
      var t := s.heap[a];
      && 1 <= t.sequence <= |adds|
      && var op := adds[t.sequence - 1];
         && op.AddOp? && op.timer == a && t.interval == op.interval && t.repeat == op.repeat
         && (t.expiration == op.when || t.sequence in Numbers(s.calls))
  }

  predicate FreedAfterCall(s: State) { forall q <- s.freed :: q in Numbers(s.calls) }

  /** Timer number `q` is what the `q`-th add asked for; it is freed only after a call. */
  predicate AsAsked(s: State, adds: seq<Op>) {
    && |adds| == s.numCreated && FreedAfterCall(s)
    && forall a {:trigger AskedFor(s, adds, a)} | a in s.heap :: AskedFor(s, adds, a)
  }

  lemma AskedStays(s: State, adds: seq<Op>, s': State, adds': seq<Op>, a: Address)
    requires AskedFor(s, adds, a) && a in s.heap && a in s'.heap && s'.heap[a] == s.heap[a]
    requires adds <= adds' && s.calls <= s'.calls
    ensures AskedFor(s', adds', a)
  {
    assert s'.calls == s.calls + s'.calls[|s.calls|..];
    NumbersJoin(s.calls, s'.calls[|s.calls|..]);
  }

  lemma FreedStays(s: State, s': State)
    requires FreedAfterCall(s) && s.calls <= s'.calls && s'.freed == s.freed
    ensures FreedAfterCall(s')
  {
    assert s'.calls == s.calls + s'.calls[|s.calls|..];
    NumbersJoin(s.calls, s'.calls[|s.calls|..]);
  }

  lemma AddAsAsked(s: State, adds: seq<Op>, op: Op)
    requires AsAsked(s, adds) && op.AddOp? && Enabled(s, op)
    ensures AsAsked(AddTimer(s, op.timer, op.when, op.interval, op.repeat), adds + [op])
  {
    hide InsertEntry, ResetTimerfd, Numbers, FreedAfterCall;
    var s' := AddTimer(s, op.timer, op.when, op.interval, op.repeat);
    FreedStays(s, s');
    forall a <- s'.heap ensures AskedFor(s', adds + [op], a) {
      if a != op.timer {
        assert AskedFor(s, adds, a);
        AskedStays(s, adds, s', adds + [op], a);
      }
    }
  }

  lemma SameAsAsked(s: State, adds: seq<Op>, s': State)
    requires AsAsked(s, adds) && s'.heap == s.heap && s.calls <= s'.calls && s'.freed == s.freed
    requires s'.numCreated == s.numCreated
    ensures AsAsked(s', adds)
  {
    hide AskedFor, FreedAfterCall;
    FreedStays(s, s');
    forall a <- s'.heap ensures AskedFor(s', adds, a) {
      assert AskedFor(s, adds, a);
      AskedStays(s, adds, s', adds, a);
    }
  }

  /** What `reset` frees is of the batch. */
  lemma {:induction false} ResetFrees(s: State, rest: seq<Entry>, now: int, q: nat)
    requires Resetting(s, rest) && now > 0 && q in ResetBatch(s, rest, now).freed
    ensures q in s.freed || HoldsNumber(s, rest, q)
    decreases |rest|
  {
    if rest != [] {
      FirstDropped(s.heap, s.timers, rest);
      ResetOneKeeps(s, rest, now);
      var r := ResetOne(s, rest[0].timer, now);
      assert q in r.freed ==> q in s.freed || (q == s.heap[rest[0].timer].sequence && rest[0] in rest);
      ResetFrees(r, rest[1..], now, q);
      if HoldsNumber(r, rest[1..], q) {
        var e :| e in rest[1..] && e.timer in r.heap && r.heap[e.timer].sequence == q;
        assert e in rest && e.timer in s.heap && s.heap[e.timer].sequence == q;
      }
    }
  }

  lemma BatchWasCalled(s: State, e: Entry)
    requires Inv(s) && Enabled(s, EndOp) && e in s.phase.expired
    ensures e.timer in s.heap && s.heap[e.timer].sequence in Numbers(s.calls)
  {
    hide Owned, Numbered, CallsInOrder, WakeUpPending, Numbers;
    BatchHasIds(s);
    var n := |s.calls| - |s.phase.ids|;
    assert CalledIds(s.phase) == s.phase.ids;
    assert s.calls == s.calls[..n] + s.calls[n..];
    NumbersJoin(s.calls[..n], s.calls[n..]);
    var i :| 0 <= i < |s.phase.expired| && s.phase.expired[i] == e;
    assert s.phase.ids[i] in Numbers(s.calls[n..]);
  }

  lemma EndAsAsked(s: State, adds: seq<Op>)
    requires Inv(s) && AsAsked(s, adds) && Enabled(s, EndOp)
    ensures AsAsked(EndRead(s), adds)
  {
    hide Numbers, ResetBatch, Owned, Numbered, CallsInOrder, ResetTimerfd, CallsFollowBatch, WakeUpPending;
    var s0, batch, now := s.(phase := Idle), s.phase.expired, s.phase.now;
    ResetKeeps(s0, batch, now);
    var r := ResetBatch(s0, batch, now);
    forall a <- r.heap ensures AskedFor(r, adds, a) {
      assert AskedFor(s, adds, a);
      if e :| e in batch && e.timer == a {
        BatchWasCalled(s, e);
      } else {
        ResetSpares(s0, batch, now, a);
      }
    }
    forall q <- r.freed ensures q in Numbers(s.calls) {
      ResetFrees(s0, batch, now, q);
      if q !in s.freed {
        var e :| e in batch && e.timer in s0.heap && s0.heap[e.timer].sequence == q;
        BatchWasCalled(s, e);
      }
    }
    assert AsAsked(r, adds);
    SameAsAsked(r, adds, EndRead(s));
  }

  /** What a step that neither adds nor ends a batch leaves alone. */
  lemma KeepsTimers(s: State, op: Op, sentry: Address)
    requires Inv(s) && Enabled(s, op) && !op.AddOp? && !op.EndOp?
    ensures var s' := Apply(s, op, sentry);
            && s'.heap == s.heap && s.calls <= s'.calls && s'.freed == s.freed && s'.numCreated == s.numCreated
  {
    hide Owned, Numbered, CallsInOrder, CallsFollowBatch, WakeUpPending, CountBefore, NothingDueLeft;
  }

  lemma StepAsAsked(s: State, adds: seq<Op>, op: Op, sentry: Address)
    requires Inv(s) && AsAsked(s, adds) && Enabled(s, op)
    ensures AsAsked(Apply(s, op, sentry), if op.AddOp? then adds + [op] else adds)
  {
    hide Inv, AsAsked;
    match op
    case AddOp(_, _, _, _) => AddAsAsked(s, adds, op);
    case EndOp => EndAsAsked(s, adds);
    case _ =>
      hide Apply;
      KeepsTimers(s, op, sentry);
      SameAsAsked(s, adds, Apply(s, op, sentry));
  }

  lemma {:induction false} RunAsAsked(s: State, adds: seq<Op>, ops: seq<Op>, s': State, sentry: Address)
    requires Inv(s) && AsAsked(s, adds) && Leads(s, ops, s', sentry)
    ensures AsAsked(s', adds + Adds(ops))
    decreases |ops|
  {
    hide Inv, Apply, AsAsked;
    if ops == [] {
      assert adds + Adds(ops) == adds;
    } else {
      StepKeeps(s, ops[0], sentry);
      StepAsAsked(s, adds, ops[0], sentry);
      var adds' := if ops[0].AddOp? then adds + [ops[0]] else adds;
      RunAsAsked(Apply(s, ops[0], sentry), adds', ops[1..], s', sentry);
      assert adds' + Adds(ops[1..]) == adds + Adds(ops);
    }
  }

  /** In every reachable state timer number `q` is the one the `q`-th add of the run asked for: at
      the address it was given, with that interval and kind, and until its first call due when
      it was asked to be; while it lives it is in `timers_` or in the running batch, and it is
      freed only after it has been called. */
  lemma TimerIsAsAsked(s: State, ops: seq<Op>, sentry: Address, s0: State, q: nat)
    requires Reachable(s, ops, sentry, s0) && 1 <= q <= |Adds(ops)|
    ensures s.numCreated == |Adds(ops)|
    ensures q in s.freed ==> q in Numbers(s.calls)
    ensures q !in s.freed ==>
              var op := Adds(ops)[q - 1];
              && op.timer in s.heap
              && var t := s.heap[op.timer];
                 && t == Timer(t.expiration, op.interval, op.repeat, q)
                 && (Entry(t.expiration, op.timer) in s.timers + Batch(s))
                 && (q !in Numbers(s.calls) ==> t.expiration == op.when)
  {
    hide Numbers, Inv, AsAsked, Leads;
    InitialInv(s0);
    InitiallyAsked(s0);
    RunKeeps(s0, ops, s, sentry);
    RunAsAsked(s0, [], ops, s, sentry);
    assert [] + Adds(ops) == Adds(ops);
    LiveAsAsked(s, Adds(ops), q);
  }

  lemma InitiallyAsked(s: State)
    requires Initial(s)
    ensures AsAsked(s, [])
  {
  }

  lemma LiveAsAsked(s: State, adds: seq<Op>, q: nat)
    requires Inv(s) && AsAsked(s, adds) && 1 <= q <= |adds|
    ensures s.numCreated == |adds| && (q in s.freed ==> q in Numbers(s.calls))
    ensures q !in s.freed ==>
              var op := adds[q - 1];
              && op.AddOp? && op.timer in s.heap
              && var t := s.heap[op.timer];
                 && t == Timer(t.expiration, op.interval, op.repeat, q)
                 && (Entry(t.expiration, op.timer) in s.timers + Batch(s))
                 && (q !in Numbers(s.calls) ==> t.expiration == op.when)
  {
    hide Numbers, CallsInOrder, BatchIntact, CallsFollowBatch, WakeUpPending;
    if q !in s.freed {
      assert LiveNumber(s.heap, q);
      var a :| a in s.heap && s.heap[a].sequence == q;
      assert AskedFor(s, adds, a);
      assert Placed(s.heap, s.timers, Batch(s), a);
    }
  }

  /** What a call of a callback finds, in every reachable state: its timer is alive and due, and
      if it is a one-shot it has not been called before. */
  lemma CallIsTimely(s: State, ops: seq<Op>, sentry: Address, s0: State)
    requires Reachable(s, ops, sentry, s0) && Enabled(s, CallOp)
    ensures var a := s.phase.expired[s.phase.next].timer;
            && a in s.heap
            && var t := s.heap[a];
               && t.expiration <= s.clock && t.sequence !in s.freed
               && (!t.repeat ==> t.sequence !in Numbers(s.calls))
               && CallNext(s).calls == s.calls + [Call(t.sequence, s.clock, t.expiration, t.repeat, |s.freed|)]
  {
    hide Reachable;
    ReachableInv(s, ops, sentry, s0);
    var k := s.phase.next;
    var e := s.phase.expired[k];
    assert e in Batch(s) && PointsTo(s.heap, e);
    var t := s.heap[e.timer];
    forall i: nat | i < k ensures s.phase.ids[i] != t.sequence { BatchDistinct(s, i, k); }
    if t.sequence in Numbers(s.calls) {
      NumbersMember(s.calls, t.sequence);
    }
  }

  lemma {:induction false} NumbersMember(calls: seq<Call>, q: nat)
    requires q in Numbers(calls)
    ensures exists c <- calls :: c.sequence == q
  {
    if q != calls[0].sequence {
      NumbersMember(calls[1..], q);
      var c :| c in calls[1..] && c.sequence == q;
      assert c in calls;
    } else {
      assert calls[0] in calls;
    }
  }

  /** What happens between the start of a batch and its end. */
  predicate WithinCallback(ops: seq<Op>) {
    forall op <- ops :: !op.BeginOp? && !op.EndOp?
  }

  /** The marks are those the callbacks of the running batch have made. */
  lemma {:induction false} MarksOfBatch(s: State, ops: seq<Op>, s': State, sentry: Address, id: TimerId)
    requires Inv(s) && s.phase.Calling? && Leads(s, ops, s', sentry) && WithinCallback(ops)
    ensures s'.phase.Calling? && s'.phase.expired == s.phase.expired && s'.phase.now == s.phase.now
    ensures id in s'.canceling <==> id in s.canceling || CancelOp(id) in ops
    ensures forall a <- s.heap :: a in s'.heap && s'.heap[a] == s.heap[a]
    decreases |ops|
  {
    if ops != [] {
      assert ops[0] in ops;
      StepKeeps(s, ops[0], sentry);
      MarkStep(s, ops[0], sentry);
      assert ops == [ops[0]] + ops[1..];
      hide Inv, Apply;
      MarksOfBatch(Apply(s, ops[0], sentry), ops[1..], s', sentry, id);
    }
  }

  lemma MarkStep(s: State, op: Op, sentry: Address)
    requires Inv(s) && s.phase.Calling? && Enabled(s, op) && !op.BeginOp? && !op.EndOp?
    ensures var r := Apply(s, op, sentry);
            && r.phase.Calling? && r.phase.expired == s.phase.expired && r.phase.now == s.phase.now
            && r.canceling == (if op.CancelOp? then s.canceling + {op.id} else s.canceling)
            && forall a <- s.heap :: a in r.heap && r.heap[a] == s.heap[a]
  {
    hide Owned, Numbered, CallsInOrder, CallsFollowBatch, WakeUpPending, InsertEntry, ResetTimerfd;
  }

  /** A whole batch: a timer that is due is called, and afterwards put back one interval later
      exactly if it repeats and no callback of this batch has cancelled it; else it is freed. */
  lemma BatchOutcome(s: State, ops: seq<Op>, sentry: Address, s0: State, inner: seq<Op>, s': State, e: Entry)
    requires Reachable(s, ops, sentry, s0) && s.phase.Idle?
    requires Leads(BeginRead(s, sentry), inner, s', sentry) && WithinCallback(inner) && Enabled(s', EndOp)
    requires e in s.timers && Less(e, Entry(s.clock, sentry))
    ensures e.timer in s.heap
    ensures var t := s.heap[e.timer];
            var r := EndRead(s');
            && t.sequence in Numbers(r.calls)
            && if t.repeat && CancelOp(TimerId(e.timer, t.sequence)) !in inner
               then e.timer in r.heap && r.heap[e.timer] == t.(expiration := s.clock + t.interval)
                    && Entry(s.clock + t.interval, e.timer) in r.timers
               else e.timer !in r.heap && t.sequence in r.freed
  {
    hide Numbers, CountBefore, NothingDueLeft, ResetBatch, Inv, CallsInOrder, Reachable;
    ReachableInv(s, ops, sentry, s0);
    TimersAreLive(s);
    PrefixIsBefore(s.timers, Entry(s.clock, sentry), e);
    var s1 := BeginRead(s, sentry);
    assert e in s1.phase.expired && s1.heap == s.heap && s1.canceling == {};
    BeginKeeps(s, sentry);
    var id := TimerId(e.timer, s.heap[e.timer].sequence);
    MarksOfBatch(s1, inner, s', sentry, id);
    RunKeeps(s1, inner, s', sentry);
    BatchWasCalled(s', e);
    EndCallsSame(s');
    EndOutcome(s', e);
  }

  lemma EndCallsSame(s: State)
    requires Inv(s) && Enabled(s, EndOp)
    ensures EndRead(s).calls == s.calls
  {
    hide Owned, Numbered, ResetBatch, CallsInOrder;
    ResetKeeps(s.(phase := Idle), s.phase.expired, s.phase.now);
  }

  lemma EndOutcome(s: State, e: Entry)
    requires Inv(s) && Enabled(s, EndOp) && e in s.phase.expired && e.timer in s.heap
    ensures var t := s.heap[e.timer];
            var r := EndRead(s);
            if t.repeat && TimerId(e.timer, t.sequence) !in s.canceling
            then e.timer in r.heap && r.heap[e.timer] == t.(expiration := s.phase.now + t.interval)
                 && Entry(s.phase.now + t.interval, e.timer) in r.timers
            else e.timer !in r.heap && t.sequence in r.freed
  {
    hide Owned, Numbered, ResetBatch, CallsInOrder;
    ResetOutcome(s.(phase := Idle), s.phase.expired, s.phase.now, e);
  }

  // ---------- The timerfd is not armed too early ----------

  /** While it is armed outside `handleRead`, it is armed for the earliest timer exactly. */
  predicate ArmedExactly(s: State) {
    s.phase.Idle? && s.timers != [] && s.timers[0].when > 0 && s.fd.Armed? ==>
      s.fd.deadline == Max(s.timers[0].when, s.fd.setAt + 100)
  }

  lemma StepArmsExactly(s: State, op: Op, sentry: Address)
    requires Inv(s) && ArmedExactly(s) && Enabled(s, op)
    ensures ArmedExactly(Apply(s, op, sentry))
  {
    hide Owned, Numbered, CallsInOrder, CallsFollowBatch, WakeUpPending;
    match op
    case AddOp(a, when, interval, repeat) =>
      TimersAreLive(s);
      InsertKeepsEarliest(s.timers, Entry(when, a));
      hide InsertEntry;
      TimespecIsExact(when, s.clock);
    case EndOp =>
      hide ResetBatch;
      ResetKeeps(s.(phase := Idle), s.phase.expired, s.phase.now);
      var r := ResetBatch(s.(phase := Idle), s.phase.expired, s.phase.now);
      if r.timers != [] { TimespecIsExact(r.timers[0].when, r.clock); }
    case BeginOp =>
      hide CountBefore, NothingDueLeft;
      TimersAreLive(s);
    case _ =>
  }

  lemma {:induction false} RunArmsExactly(s: State, ops: seq<Op>, s': State, sentry: Address)
    requires Inv(s) && ArmedExactly(s) && Leads(s, ops, s', sentry)
    ensures ArmedExactly(s')
    decreases |ops|
  {
    hide Inv, Apply, ArmedExactly;
    if ops != [] {
      StepKeeps(s, ops[0], sentry);
      StepArmsExactly(s, ops[0], sentry);
      RunArmsExactly(Apply(s, ops[0], sentry), ops[1..], s', sentry);
    }
  }

  /** In every reachable state outside `handleRead` with valid expirations, an armed timerfd is
      armed for the earliest timer, or 100 microseconds after it was set: neither later nor
      earlier. */
  lemma ArmedForTheEarliest(s: State, ops: seq<Op>, sentry: Address, s0: State)
    requires Reachable(s, ops, sentry, s0) && s.phase.Idle? && s.fd.Armed?
    requires s.timers != [] && s.timers[0].when > 0
    ensures s.fd.deadline == Max(s.timers[0].when, s.fd.setAt + 100)
  {
    hide Inv, Leads;
    InitialInv(s0);
    assert ArmedExactly(s0);
    RunArmsExactly(s0, ops, s, sentry);
  }

  // ---------- The sentry ----------

  /** The assert of line 180 holds exactly when no timer due right now lies at or above the
      sentry address. */
  lemma NothingDueLeftBehind(timers: seq<Entry>, now: int, sentry: Address)
    requires Sorted(timers)
    ensures NothingDueLeft(timers, now, sentry)
            <==> forall e <- timers :: e.when == now ==> e.timer < sentry
  {
    var n := CountBefore(timers, Entry(now, sentry));
    if n < |timers| {
      assert timers[n] in timers;
      forall i | 0 <= i < |timers| && now < timers[n].when && timers[i].when == now
        ensures timers[i].timer < sentry
      {
        assert i > n ==> Less(timers[n], timers[i]);
      }
    }
  }

  /** Whenever the run enters `handleRead`, every timer due at that very microsecond lies below
      the sentry. */
  predicate DueBelowSentry(s: State, ops: seq<Op>, sentry: Address)
    decreases |ops|
  {
    ops != [] && Enabled(s, ops[0]) ==>
      && (ops[0].BeginOp? ==> forall e <- s.timers :: e.when == s.clock ==> e.timer < sentry)
      && DueBelowSentry(Apply(s, ops[0], sentry), ops[1..], sentry)
  }

  lemma SentryStep(s: State, op: Op, sentry: Address)
    requires Inv(s) && Enabled(s, op)
    ensures Apply(s, op, sentry).pastSentry <==>
            s.pastSentry || (op.BeginOp? && !NothingDueLeft(s.timers, s.clock, sentry))
  {
    match op
    case EndOp =>
      hide ResetBatch;
      ResetKeeps(s.(phase := Idle), s.phase.expired, s.phase.now);
    case BeginOp =>
      hide CountBefore, NothingDueLeft;
      var n := CountBefore(s.timers, Entry(s.clock, sentry));
      forall e <- s.timers[..n] ensures e.timer in s.heap { assert e in s.timers && PointsTo(s.heap, e); }
    case _ =>
      hide NothingDueLeft;
  }

  lemma {:induction false} SentryRun(s: State, ops: seq<Op>, s': State, sentry: Address)
    requires Inv(s) && Leads(s, ops, s', sentry)
    ensures s'.pastSentry <==> s.pastSentry || !DueBelowSentry(s, ops, sentry)
    decreases |ops|
  {
    if ops != [] {
      NothingDueLeftBehind(s.timers, s.clock, sentry);
      StepKeeps(s, ops[0], sentry);
      SentryStep(s, ops[0], sentry);
      hide Inv, Apply, NothingDueLeft;
      SentryRun(Apply(s, ops[0], sentry), ops[1..], s', sentry);
    }
  }

  /** Over a whole run the assert of line 180 holds exactly if, each time `handleRead` was
      entered, no timer due at that microsecond was at or above the sentry. */
  lemma SentryAssertHoldsExactly(s: State, ops: seq<Op>, sentry: Address, s0: State)
    requires Reachable(s, ops, sentry, s0)
    ensures !s.pastSentry <==> DueBelowSentry(s0, ops, sentry)
  {
    hide Inv;
    InitialInv(s0);
    SentryRun(s0, ops, s, sentry);
  }

  predicate AllocatesFrom(ops: seq<Op>, addresses: iset<Address>) {
    forall op <- ops :: op.AddOp? ==> op.timer in addresses
  }

  lemma HeapFrom(s: State, op: Op, sentry: Address, addresses: iset<Address>)
    requires Inv(s) && Enabled(s, op) && AllocatesFrom([op], addresses)
    requires forall a <- s.heap :: a in addresses
    ensures forall a <- Apply(s, op, sentry).heap :: a in addresses
  {
    match op
    case EndOp =>
      hide ResetBatch;
      ResetKeeps(s.(phase := Idle), s.phase.expired, s.phase.now);
    case AddOp(a, _, _, _) => assert [op][0] == op;
    case _ =>
  }

  lemma {:induction false} BelowWithLowAddresses(s: State, ops: seq<Op>, s': State, sentry: Address,
                                                 addresses: iset<Address>)
    requires Inv(s) && Leads(s, ops, s', sentry) && AllocatesFrom(ops, addresses)
    requires (forall a <- s.heap :: a in addresses) && forall a <- addresses :: a < sentry
    ensures DueBelowSentry(s, ops, sentry)
    decreases |ops|
  {
    if ops != [] {
      forall e <- s.timers ensures e.timer < sentry { assert PointsTo(s.heap, e); }
      assert ops[0] in ops;
      StepKeeps(s, ops[0], sentry);
      HeapFrom(s, ops[0], sentry, addresses);
      hide Inv, Apply;
      BelowWithLowAddresses(Apply(s, ops[0], sentry), ops[1..], s', sentry, addresses);
    }
  }

  lemma LowAddressesAreSafe(s: State, ops: seq<Op>, sentry: Address, s0: State, addresses: iset<Address>)
    requires Reachable(s, ops, sentry, s0) && AllocatesFrom(ops, addresses) && forall a <- addresses :: a < sentry
    ensures !s.pastSentry
  {
    hide DueBelowSentry, AllocatesFrom, Leads;
    InitialInv(s0);
    hide Inv;
    BelowWithLowAddresses(s0, ops, s, sentry, addresses);
    SentryAssertHoldsExactly(s, ops, sentry, s0);
  }

  /** `handleRead` is the read callback of the timerfd: the run enters it only when that is
      readable. */
  predicate ReadsWhenReadable(s: State, ops: seq<Op>, sentry: Address)
    decreases |ops|
  {
    ops != [] && Enabled(s, ops[0]) ==>
      && (ops[0].BeginOp? ==> s.fd.Readable?)
      && ReadsWhenReadable(Apply(s, ops[0], sentry), ops[1..], sentry)
  }

  /** A timer at or above the sentry, due in the very microsecond in which the timerfd has become
      readable and `handleRead` is entered, makes the assert fail. */
  lemma DueAtSentryFails(timer: Address, sentry: Address, now: int) returns (s0: State, ops: seq<Op>, s: State)
    requires sentry <= timer && now > 0
    ensures ops == [AddOp(timer, now + 100, 0, false), TickOp(now + 100), BeginOp]
    ensures Reachable(s, ops, sentry, s0) && ReadsWhenReadable(s0, ops, sentry) && s.pastSentry
  {
    s0 := State(now, map[], [], {}, {}, Idle, 0, Disarmed, [], [], false, false);
    var s1 := AddTimer(s0, timer, now + 100, 0, false);
    assert s1.timers == [Entry(now + 100, timer)];
    TimespecIsExact(now + 100, now);
    assert s1.fd == Armed(now + 100, now);
    var s2 := Tick(s1, now + 100);
    s := BeginRead(s2, sentry);
    ops := [AddOp(timer, now + 100, 0, false), TickOp(now + 100), BeginOp];
    assert ops[1..] == [TickOp(now + 100), BeginOp] && ops[1..][1..] == [BeginOp] && ops[1..][1..][1..] == [];
    assert Leads(s, [], s, sentry) && ReadsWhenReadable(s, [], sentry);
    assert Leads(s2, [BeginOp], s, sentry) && ReadsWhenReadable(s2, [BeginOp], sentry);
    assert Leads(s1, ops[1..], s, sentry) && ReadsWhenReadable(s1, ops[1..], sentry);
  }

  /** So the assert of line 180 is safe exactly if the allocator only hands out addresses below
      the sentry: then in every run at all, and otherwise not even in the runs the timerfd
      drives. UINT32_MAX is not above every address of a 64-bit heap. */
  lemma SentrySafeExactly(sentry: Address, addresses: iset<Address>)
    ensures (forall s, ops, s0 | Reachable(s, ops, sentry, s0) && AllocatesFrom(ops, addresses) :: !s.pastSentry)
            <==> forall a <- addresses :: a < sentry
    ensures (forall s, ops, s0 |
               Reachable(s, ops, sentry, s0) && AllocatesFrom(ops, addresses) && ReadsWhenReadable(s0, ops, sentry)
               :: !s.pastSentry)
            <==> forall a <- addresses :: a < sentry
  {
    hide Reachable, ReadsWhenReadable;
    if forall a <- addresses :: a < sentry {
      forall s, ops, s0 | Reachable(s, ops, sentry, s0) && AllocatesFrom(ops, addresses) ensures !s.pastSentry {
        LowAddressesAreSafe(s, ops, sentry, s0, addresses);
      }
    } else {
      var a :| a in addresses && sentry <= a;
      var s0, ops, s := DueAtSentryFails(a, sentry, 1);
      assert AllocatesFrom(ops, addresses);
    }
  }
}
