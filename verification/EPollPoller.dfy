/** src/port/EPollPoller.cpp: channels are New, Added or Deleted, and the kernel keeps an
    interest set of its own. `assigns` says what line 98 does to `channels_[fd]`: true is the
    assignment that is meant; false is the comparison that is written, which leaves a null
    pointer in the table. */
module EPollPoller {
  import opened Channels

  /** A channel the poller knows, Added or Deleted; one it does not know is New. */
  datatype Registration = Registration(events: nat, added: bool)

  /** What the kernel keeps for an fd: the mask, and `data.ptr`. */
  datatype Interest = Interest(events: nat, channel: Channel)

  datatype Operation = ADD | MOD | DEL

  datatype State = State(
    registered: map<Channel, Registration>,
    table: map<int, Channel?>,    // channels_
    kernel: map<int, Interest>,
    failed: bool)                 // an epoll_ctl call returned an error

  /** epoll_ctl(2): ADD wants an fd that is absent, MOD and DEL one that is present. */
  function Control(s: State, op: Operation, c: Channel, events: nat): State {
    match op
    case ADD =>
      if c.fd in s.kernel then s.(failed := true) else s.(kernel := s.kernel[c.fd := Interest(events, c)])
    case MOD =>
      if c.fd in s.kernel then s.(kernel := s.kernel[c.fd := Interest(events, c)]) else s.(failed := true)
    case DEL =>
      if c.fd in s.kernel then s.(kernel := s.kernel - {c.fd}) else s.(failed := true)
  }

  /** What line 98 leaves in the table. */
  function Stored(c: Channel, assigns: bool): Channel? { if assigns then c else null }

  /** `updateChannel` of a channel whose events have just been set. */
  function Update(s: State, c: Channel, events: nat, assigns: bool): State {
    var asAdded := s.(registered := s.registered[c := Registration(events, true)]);
    if c !in s.registered then
      Control(asAdded.(table := s.table[c.fd := Stored(c, assigns)]), ADD, c, events)
    else if !s.registered[c].added then
      Control(asAdded, ADD, c, events)
    else if events == 0 then
      Control(s.(registered := s.registered[c := Registration(events, false)]), DEL, c, events)
    else
      Control(asAdded, MOD, c, events)
  }

  function Remove(s: State, c: Channel): State
    requires c in s.registered
  {
    var s1 := s.(table := s.table - {c.fd}, registered := s.registered - {c});
    if s.registered[c].added then Control(s1, DEL, c, s.registered[c].events) else s1
  }

  datatype Op = UpdateOp(channel: Channel, events: nat) | RemoveOp(channel: Channel)

  /** What callers owe the poller: one channel to an fd, and no removal of a channel that is
      not registered or still has events. */
  predicate Legal(s: State, op: Op) {
    match op
    case UpdateOp(c, _) => forall d <- s.registered :: d.fd == c.fd ==> d == c
    case RemoveOp(c) => c in s.registered && s.registered[c].events == 0
  }

  /** The asserts of lines 97, 102-103, 112-114 and 131-135, pointers compared. */
  predicate AssertsHold(s: State, op: Op) {
    match op
    case UpdateOp(c, _) =>
      if c !in s.registered then c.fd !in s.table
      else c.fd in s.table && s.table[c.fd] == c
    case RemoveOp(c) =>
      c.fd in s.table && s.table[c.fd] == c && c in s.registered && s.registered[c].events == 0
  }

  function Apply(s: State, op: Op, assigns: bool): State
    requires Legal(s, op)
  {
    match op
    case UpdateOp(c, events) => Update(s, c, events, assigns)
    case RemoveOp(c) => Remove(s, c)
  }

  const EMPTY: State := State(map[], map[], map[], false)

  /** Runs of calls by lawful callers; an assert that fails does not stop them (NDEBUG). */
  predicate Leads(s: State, ops: seq<Op>, s': State, assigns: bool)
    decreases |ops|
  {
    if ops == [] then s == s' else Legal(s, ops[0]) && Leads(Apply(s, ops[0], assigns), ops[1..], s', assigns)
  }

  // ---------- What every operation keeps ----------

  predicate OwnsEntry(s: State, c: Channel, assigns: bool) {
    c.fd in s.table && s.table[c.fd] == Stored(c, assigns)
  }

  predicate IsOwned(s: State, fd: int) { exists c <- s.registered :: c.fd == fd }

  /** The kernel watches `c` exactly as it is registered. */
  predicate WatchedAsRegistered(s: State, c: Channel)
    requires c in s.registered
  {
    if s.registered[c].added
    then c.fd in s.kernel && s.kernel[c.fd] == Interest(s.registered[c].events, c)
    else c.fd !in s.kernel
  }

  predicate Inv(s: State, assigns: bool) {
    && !s.failed
    && (forall c <- s.registered :: OwnsEntry(s, c, assigns))
    && (forall c <- s.registered :: WatchedAsRegistered(s, c))
    && (forall c, d :: c in s.registered && d in s.registered && c.fd == d.fd ==> c == d)
    && (forall fd <- s.table :: IsOwned(s, fd))
    && (forall fd <- s.kernel :: s.kernel[fd].channel in s.registered && s.kernel[fd].channel.fd == fd)
  }

  /** Is `c` left Added by an update? */
  predicate StaysAdded(s: State, c: Channel, events: nat) {
    c !in s.registered || !s.registered[c].added || events > 0
  }

  /** The net effect of an update: every epoll_ctl call it makes succeeds. */
  lemma UpdateSucceeds(s: State, c: Channel, events: nat, assigns: bool)
    requires Inv(s, assigns) && Legal(s, UpdateOp(c, events))
    ensures var added := StaysAdded(s, c, events);
            Update(s, c, events, assigns) == State(
              s.registered[c := Registration(events, added)],
              if c in s.registered then s.table else s.table[c.fd := Stored(c, assigns)],
              if added then s.kernel[c.fd := Interest(events, c)] else s.kernel - {c.fd},
              false)
  {
    if c in s.registered {
      assert WatchedAsRegistered(s, c);
    }
  }

  lemma UpdateKeeps(s: State, c: Channel, events: nat, assigns: bool)
    requires Inv(s, assigns) && Legal(s, UpdateOp(c, events))
    ensures Inv(Update(s, c, events, assigns), assigns)
    ensures OwnsEntry(Update(s, c, events, assigns), c, assigns)
  {
    UpdateSucceeds(s, c, events, assigns);
    hide Update;
    var s' := Update(s, c, events, assigns);
    assert OwnsEntry(s', c, assigns) by {
      if c in s.registered { assert OwnsEntry(s, c, assigns); }
    }
    forall d <- s'.registered ensures OwnsEntry(s', d, assigns) && WatchedAsRegistered(s', d) {
      if d != c { assert OwnsEntry(s, d, assigns) && WatchedAsRegistered(s, d); }
    }
    forall fd <- s'.table ensures IsOwned(s', fd) {
      assert c in s'.registered;
      if fd != c.fd { assert IsOwned(s, fd); }
    }
  }

  lemma RemoveKeeps(s: State, c: Channel, assigns: bool)
    requires Inv(s, assigns) && Legal(s, RemoveOp(c))
    ensures Inv(Remove(s, c), assigns)
  {
    var s' := Remove(s, c);
    assert OwnsEntry(s, c, assigns) && WatchedAsRegistered(s, c);
    forall d <- s'.registered ensures OwnsEntry(s', d, assigns) && WatchedAsRegistered(s', d) {
      assert OwnsEntry(s, d, assigns) && WatchedAsRegistered(s, d);
    }
    forall fd <- s'.table ensures IsOwned(s', fd) {
      assert IsOwned(s, fd);
      var d :| d in s.registered && d.fd == fd;
      assert d in s'.registered;
    }
  }

  lemma StepKeeps(s: State, op: Op, assigns: bool)
    requires Inv(s, assigns) && Legal(s, op)
    ensures Inv(Apply(s, op, assigns), assigns)
  {
    hide Inv, Legal, Update, Remove;
    match op
    case UpdateOp(c, events) => UpdateKeeps(s, c, events, assigns);
    case RemoveOp(c) => RemoveKeeps(s, c, assigns);
  }

  lemma {:induction false} RunKeeps(s: State, ops: seq<Op>, s': State, assigns: bool)
    requires Inv(s, assigns) && Leads(s, ops, s', assigns)
    ensures Inv(s', assigns)
    decreases |ops|
  {
    hide Inv, Apply;
    if ops != [] {
      StepKeeps(s, ops[0], assigns);
      RunKeeps(Apply(s, ops[0], assigns), ops[1..], s', assigns);
    }
  }

  // ---------- The main results ----------

  /** After any run, with line 98 as written or as meant: the kernel watches an fd exactly for
      an Added channel, with its current mask and a pointer to it; an fd is in `channels_`
      exactly for an Added or Deleted channel; no epoll_ctl call has failed; and whatever the
      kernel reports, `fillActiveChannels` finds its fd in the table. */
  lemma AgreesWithKernel(ops: seq<Op>, s: State, assigns: bool)
    requires Leads(EMPTY, ops, s, assigns)
    ensures !s.failed
    ensures forall c <- s.registered :: WatchedAsRegistered(s, c) && c.fd in s.table
    ensures forall c, d :: c in s.registered && d in s.registered && c.fd == d.fd ==> c == d
    ensures forall fd <- s.kernel ::
              var c := s.kernel[fd].channel; c.fd == fd && c in s.registered && fd in s.table
    ensures forall fd <- s.table :: IsOwned(s, fd)
  {
    assert Inv(EMPTY, assigns);
    RunKeeps(EMPTY, ops, s, assigns);
    forall c <- s.registered ensures c.fd in s.table { assert OwnsEntry(s, c, assigns); }
  }

  /** The events last asked for on `c`, -1 while it is New. */
  function EventsAfter(ops: seq<Op>, c: Channel, before: int): int
    decreases |ops|
  {
    if ops == [] then before
    else if ops[0].channel != c then EventsAfter(ops[1..], c, before)
    else EventsAfter(ops[1..], c, if ops[0].RemoveOp? then -1 else ops[0].events)
  }

  /** Is `c` left Added? An update without events takes an Added channel out, and puts any other
      in. */
  function AddedAfter(ops: seq<Op>, c: Channel, before: bool): bool
    decreases |ops|
  {
    if ops == [] then before
    else if ops[0].channel != c then AddedAfter(ops[1..], c, before)
    else AddedAfter(ops[1..], c, ops[0].UpdateOp? && (ops[0].events > 0 || !before))
  }

  function Asked(s: State, c: Channel): int { if c in s.registered then s.registered[c].events else -1 }
  predicate IsAdded(s: State, c: Channel) { c in s.registered && s.registered[c].added }

  lemma {:induction false} RunAsAsked(s: State, ops: seq<Op>, s': State, assigns: bool, c: Channel)
    requires Leads(s, ops, s', assigns)
    ensures Asked(s', c) == EventsAfter(ops, c, Asked(s, c))
    ensures IsAdded(s', c) <==> AddedAfter(ops, c, IsAdded(s, c))
    decreases |ops|
  {
    if ops != [] {
      RunAsAsked(Apply(s, ops[0], assigns), ops[1..], s', assigns, c);
    }
  }

  /** After any run a channel is Added, Deleted or New, and watched for events, exactly as the
      operations on it say, whatever has happened to the other channels. */
  lemma WatchedAsAsked(ops: seq<Op>, s: State, assigns: bool, c: Channel)
    requires Leads(EMPTY, ops, s, assigns)
    ensures c in s.registered <==> EventsAfter(ops, c, -1) >= 0
    ensures c in s.registered ==> s.registered[c] == Registration(EventsAfter(ops, c, -1), AddedAfter(ops, c, false))
    ensures AddedAfter(ops, c, false)
            <==> c.fd in s.kernel && s.kernel[c.fd].channel == c && s.kernel[c.fd].events == EventsAfter(ops, c, -1)
  {
    RunAsAsked(EMPTY, ops, s, assigns, c);
    assert Inv(EMPTY, assigns);
    RunKeeps(EMPTY, ops, s, assigns);
    if c in s.registered { assert WatchedAsRegistered(s, c); }
  }

  /** Which asserts hold, after any run of lawful callers. With line 98 as meant they are
      exactly what callers owe; as written they hold exactly for the first update of a New
      channel, and fail for every later call on it. */
  lemma AssertsHoldExactly(ops: seq<Op>, s: State, op: Op, assigns: bool)
    requires Leads(EMPTY, ops, s, assigns)
    ensures AssertsHold(s, op) <==>
            Legal(s, op) && (assigns || (op.UpdateOp? && op.channel !in s.registered))
  {
    assert Inv(EMPTY, assigns);
    RunKeeps(EMPTY, ops, s, assigns);
    AssertsByTable(s, op, assigns);
  }

  lemma AssertsByTable(s: State, op: Op, assigns: bool)
    requires Inv(s, assigns)
    ensures AssertsHold(s, op) <==>
            Legal(s, op) && (assigns || (op.UpdateOp? && op.channel !in s.registered))
  {
    var c := op.channel;
    if c in s.registered {
      assert OwnsEntry(s, c, assigns);
    } else if c.fd in s.table {
      assert IsOwned(s, c.fd);
    } else {
      forall d <- s.registered ensures d.fd != c.fd { assert OwnsEntry(s, d, assigns); }
    }
  }

  /** Every operation of the run passes its asserts. */
  predicate AllAssertsHold(s: State, ops: seq<Op>, assigns: bool)
    decreases |ops|
  {
    ops != [] && Legal(s, ops[0]) ==>
      AssertsHold(s, ops[0]) && AllAssertsHold(Apply(s, ops[0], assigns), ops[1..], assigns)
  }

  /** Each operation is the first update of its channel. */
  predicate FirstUpdatesOnly(s: State, ops: seq<Op>) {
    && (forall i :: 0 <= i < |ops| ==> ops[i].UpdateOp? && ops[i].channel !in s.registered)
    && (forall i, j :: 0 <= i < j < |ops| ==> ops[i].channel != ops[j].channel)
  }

  lemma FirstUpdatesStep(s: State, ops: seq<Op>, assigns: bool)
    requires ops != [] && Legal(s, ops[0]) && ops[0].UpdateOp? && ops[0].channel !in s.registered
    ensures FirstUpdatesOnly(s, ops) <==> FirstUpdatesOnly(Apply(s, ops[0], assigns), ops[1..])
  {
    var s' := Apply(s, ops[0], assigns);
    var c := ops[0].channel;
    assert s'.registered.Keys == s.registered.Keys + {c};
    if FirstUpdatesOnly(s', ops[1..]) {
      forall i | 1 <= i < |ops| ensures ops[i].UpdateOp? && ops[i].channel !in s.registered && ops[i].channel != c {
        assert ops[i] == ops[1..][i - 1];
      }
      forall i, j | 0 <= i < j < |ops| ensures ops[i].channel != ops[j].channel {
        if i > 0 { assert ops[i] == ops[1..][i - 1] && ops[j] == ops[1..][j - 1]; }
      }
    }
  }

  /** Over whole runs: as meant, a lawful caller never meets a failing assert; as written, a run
      passes all asserts exactly if no channel is ever updated twice or removed. */
  lemma RunsThatPass(ops: seq<Op>, s: State, assigns: bool)
    requires Leads(EMPTY, ops, s, assigns)
    ensures AllAssertsHold(EMPTY, ops, assigns) <==> assigns || FirstUpdatesOnly(EMPTY, ops)
  {
    assert Inv(EMPTY, assigns);
    PassesFrom(EMPTY, ops, s, assigns);
  }

  lemma {:induction false} PassesFrom(s: State, ops: seq<Op>, s': State, assigns: bool)
    requires Inv(s, assigns) && Leads(s, ops, s', assigns)
    ensures AllAssertsHold(s, ops, assigns) <==> assigns || FirstUpdatesOnly(s, ops)
    decreases |ops|
  {
    hide Inv, Apply, Legal, AssertsHold;
    if ops != [] {
      AssertsByTable(s, ops[0], assigns);
      StepKeeps(s, ops[0], assigns);
      var s1 := Apply(s, ops[0], assigns);
      PassesFrom(s1, ops[1..], s', assigns);
      if ops[0].UpdateOp? && ops[0].channel !in s.registered {
        FirstUpdatesStep(s, ops, assigns);
      }
    }
  }

  /** The shortest failing run: as written, updating a channel twice. */
  lemma SecondUpdateFails(c: Channel, events: nat) returns (ops: seq<Op>, s: State)
    ensures ops == [UpdateOp(c, events), UpdateOp(c, events)]
    ensures Leads(EMPTY, ops, s, false) && !AllAssertsHold(EMPTY, ops, false)
    ensures Leads(EMPTY, ops[..1], Update(EMPTY, c, events, false), false) && AllAssertsHold(EMPTY, ops[..1], false)
  {
    var op := UpdateOp(c, events);
    ops := [op, op];
    var s1 := Update(EMPTY, c, events, false);
    s := Update(s1, c, events, false);
    assert ops[1..] == [op] && [op][1..] == [] && ops[..1] == [op];
    assert Leads(s, [], s, false);
    assert Leads(s1, [op], s, false);
    assert Leads(s1, [], s1, false);
    assert s1.table[c.fd] == null;
    assert !AssertsHold(s1, op);
    assert !AllAssertsHold(s1, ops[1..], false);
  }

  // ---------- The object ----------

  const NEW: int := -1
  const ADDED: int := 1
  const DELETED: int := 2

  class Poller {
    const assigns: bool
    var channels: map<int, Channel?>
    var kernel: map<int, Interest>
    var failed: bool
    ghost var known: set<Channel>

    ghost function Registered(): map<Channel, Registration>
      reads this`known, known
    {
      map c | c in known :: Registration(c.events, c.index == ADDED)
    }

    ghost function Value(): State
      reads this, known
    {
      State(Registered(), channels, kernel, failed)
    }

    ghost predicate Valid()
      reads this, known
    {
      Inv(Value(), assigns) && forall c <- known :: c.index in {ADDED, DELETED}
    }

    constructor (assigns: bool)
      ensures Valid() && Value() == EMPTY && this.assigns == assigns
    {
      this.assigns := assigns;
      channels, kernel, failed, known := map[], map[], false, {};
    }

    /** `update` */
    method ControlKernel(operation: Operation, channel: Channel)
      modifies this`kernel, this`failed
      ensures Value() == Control(old(Value()), operation, channel, channel.events)
    {
      match operation
      case ADD =>
        if channel.fd in kernel {
          failed := true;
        } else {
          kernel := kernel[channel.fd := Interest(channel.events, channel)];
        }
      case MOD =>
        if channel.fd in kernel {
          kernel := kernel[channel.fd := Interest(channel.events, channel)];
        } else {
          failed := true;
        }
      case DEL =>
        if channel.fd in kernel { kernel := kernel - {channel.fd}; } else { failed := true; }
    }

    method SetChannel(channel: Channel, events: nat, index: int)
      requires index in {ADDED, DELETED} && forall c <- known :: c.index in {ADDED, DELETED}
      modifies this`known, channel
      ensures Registered() == old(Registered())[channel := Registration(events, index == ADDED)]
      ensures known == old(known) + {channel} && forall c <- known :: c.index in {ADDED, DELETED}
      ensures channel.events == events && channel.index == index
    {
      channel.events := events;
      channel.index := index;
      known := known + {channel};
    }

    /** A channel sets its events and updates itself. */
    method UpdateChannel(channel: Channel, events: nat)
      requires Valid() && (channel.index == NEW <==> channel !in known)
      requires Legal(Value(), UpdateOp(channel, events))
      modifies this, channel
      ensures Valid() && Value() == Update(old(Value()), channel, events, assigns)
      ensures known == old(known) + {channel} && channel.index in {ADDED, DELETED} && channel.events == events
      ensures channel.fd in channels && channels[channel.fd] == (if assigns then channel else null)
    {
      hide Inv, Legal, Control;
      UpdateKeeps(Value(), channel, events, assigns);
      var index := channel.index;
      if index == NEW || index == DELETED {
        if index == NEW {
          channels := channels[channel.fd := if assigns then channel else null];
        }
        SetChannel(channel, events, ADDED);
        ControlKernel(ADD, channel);
      } else if events == 0 {
        SetChannel(channel, events, DELETED);
        ControlKernel(DEL, channel);
      } else {
        SetChannel(channel, events, ADDED);
        ControlKernel(MOD, channel);
      }
    }

    method RemoveChannel(channel: Channel)
      requires Valid() && channel in known && Legal(Value(), RemoveOp(channel))
      modifies this, channel
      ensures Valid() && Value() == Remove(old(Value()), channel)
      ensures channel.index == NEW && known == old(known) - {channel}
    {
      hide Inv, Legal;
      RemoveKeeps(Value(), channel, assigns);
      var index := channel.index;
      channels := channels - {channel.fd};
      if index == ADDED {
        ControlKernel(DEL, channel);
      }
      channel.index := NEW;
      known := known - {channel};
      assert Registered() == old(Registered()) - {channel};
    }
  }
}
