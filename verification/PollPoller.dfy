/** src/port/PollPoller.cpp: the array handed to poll(2), and the table of channels that point
    into it by index. Removing swaps with the last slot. */
module PollPoller {
  import opened Channels

  datatype PollFd = PollFd(fd: int, events: nat, revents: nat)

  /** What the poller keeps in a registered channel. */
  datatype Registration = Registration(events: nat, index: int)

  datatype State = State(
    pollfds: seq<PollFd>,
    channels: map<int, Registration>,
    disabled: set<int>)  // history: fds updated to no events since they were registered

  /** The channel a slot belongs to: a disabled slot holds `-fd - 1`. */
  function Decode(fd: int): int { if fd < 0 then -fd - 1 else fd }

  // ---------- The operations ----------

  function Register(s: State, fd: int, events: nat): State {
    State(s.pollfds + [PollFd(fd, events, 0)],
          s.channels[fd := Registration(events, |s.pollfds|)],
          s.disabled)
  }

  /** An update of a registered channel: the slot of a disabled channel is negated, and never
      restored. */
  function Change(s: State, fd: int, events: nat): State
    requires fd in s.channels && 0 <= s.channels[fd].index < |s.pollfds|
  {
    var i := s.channels[fd].index;
    var slot := PollFd(if events == 0 then -fd - 1 else s.pollfds[i].fd, events, 0);
    State(s.pollfds[i := slot],
          s.channels[fd := Registration(events, i)],
          if events == 0 then s.disabled + {fd} else s.disabled)
  }

  function Remove(s: State, fd: int): State
    requires fd in s.channels && 0 <= s.channels[fd].index < |s.pollfds|
  {
    var i := s.channels[fd].index;
    var last := |s.pollfds| - 1;
    var rest := s.channels - {fd};
    if i == last then State(s.pollfds[..last], rest, s.disabled - {fd})
    else
      var moved := Decode(s.pollfds[last].fd);
      State(s.pollfds[i := s.pollfds[last]][..last],
            if moved in rest then rest[moved := rest[moved].(index := i)] else rest,
            s.disabled - {fd})
  }

  datatype Op = RegisterOp(fd: int, events: nat) | ChangeOp(fd: int, events: nat) | RemoveOp(fd: int)

  /** The asserts at the head of `updateChannel` and `removeChannel`. */
  predicate Legal(s: State, op: Op) {
    match op
    case RegisterOp(fd, _) => fd >= 0 && fd !in s.channels
    case ChangeOp(fd, _) => fd in s.channels && 0 <= s.channels[fd].index < |s.pollfds|
    case RemoveOp(fd) =>
      && fd in s.channels && 0 <= s.channels[fd].index < |s.pollfds|
      && s.channels[fd].events == 0 && s.pollfds[s.channels[fd].index].fd == -fd - 1
  }

  function Apply(s: State, op: Op): State
    requires Legal(s, op)
  {
    match op
    case RegisterOp(fd, events) => Register(s, fd, events)
    case ChangeOp(fd, events) => Change(s, fd, events)
    case RemoveOp(fd) => Remove(s, fd)
  }

  const EMPTY: State := State([], map[], {})

  predicate Leads(s: State, ops: seq<Op>, s': State)
    decreases |ops|
  {
    if ops == [] then s == s' else Legal(s, ops[0]) && Leads(Apply(s, ops[0]), ops[1..], s')
  }

  // ---------- The bijection ----------

  /** Channel `fd` and its slot. */
  predicate Matches(s: State, fd: int)
    requires fd in s.channels
  {
    var r := s.channels[fd];
    && fd >= 0 && 0 <= r.index < |s.pollfds|
    && s.pollfds[r.index].events == r.events
    && s.pollfds[r.index].fd == (if fd in s.disabled then -fd - 1 else fd)
  }

  /** Channels and slots correspond one to one through the index. */
  predicate Inv(s: State) {
    && (forall fd <- s.channels :: Matches(s, fd))
    && (forall i :: 0 <= i < |s.pollfds| ==>
          var fd := Decode(s.pollfds[i].fd); fd in s.channels && s.channels[fd].index == i)
    && s.disabled <= s.channels.Keys
  }

  lemma RegisterKeeps(s: State, fd: int, events: nat)
    requires Inv(s) && Legal(s, RegisterOp(fd, events))
    ensures Inv(Register(s, fd, events))
  {
    var s' := Register(s, fd, events);
    forall g <- s'.channels ensures Matches(s', g) {
      if g != fd { assert Matches(s, g); }
    }
  }

  lemma ChangeKeeps(s: State, fd: int, events: nat)
    requires Inv(s) && Legal(s, ChangeOp(fd, events))
    ensures Inv(Change(s, fd, events))
  {
    var s' := Change(s, fd, events);
    assert Matches(s, fd);
    forall g <- s'.channels ensures Matches(s', g) {
      assert Matches(s, g);
    }
    forall i | 0 <= i < |s'.pollfds|
      ensures var g := Decode(s'.pollfds[i].fd); g in s'.channels && s'.channels[g].index == i
    {
    }
  }

  lemma RemoveKeeps(s: State, fd: int)
    requires Inv(s) && Legal(s, RemoveOp(fd))
    ensures Inv(Remove(s, fd))
  {
    var s' := Remove(s, fd);
    var i, last := s.channels[fd].index, |s.pollfds| - 1;
    assert Matches(s, fd);
    var moved := Decode(s.pollfds[last].fd);
    assert moved in s.channels && s.channels[moved].index == last && Matches(s, moved);
    forall g <- s'.channels ensures Matches(s', g) {
      assert Matches(s, g) && s.channels[g].index != i;
      assert g != moved ==> s.channels[g].index != last;
    }
    forall k | 0 <= k < |s'.pollfds|
      ensures var g := Decode(s'.pollfds[k].fd); g in s'.channels && s'.channels[g].index == k
    {
      var g := Decode(s.pollfds[k].fd);
      assert g in s.channels && s.channels[g].index == k;
    }
  }

  lemma {:induction false} RunKeeps(s: State, ops: seq<Op>, s': State)
    requires Inv(s) && Leads(s, ops, s')
    ensures Inv(s')
    decreases |ops|
  {
    hide Inv, Register, Change, Remove;
    if ops != [] {
      match ops[0] {
        case RegisterOp(fd, events) => RegisterKeeps(s, fd, events);
        case ChangeOp(fd, events) => ChangeKeeps(s, fd, events);
        case RemoveOp(fd) => RemoveKeeps(s, fd);
      }
      RunKeeps(Apply(s, ops[0]), ops[1..], s');
    }
  }

  /** After any legal run: every registered channel has exactly the slot its index names, every
      slot belongs to exactly the channel that names it, and the slot holds the fd, or its
      negation once the channel has been disabled. */
  lemma SlotsMatchChannels(ops: seq<Op>, s: State)
    requires Leads(EMPTY, ops, s)
    ensures forall fd <- s.channels ::
              var i := s.channels[fd].index;
              && 0 <= i < |s.pollfds| && Decode(s.pollfds[i].fd) == fd
              && s.pollfds[i].fd in {fd, -fd - 1} && s.pollfds[i].events == s.channels[fd].events
              && (s.pollfds[i].fd == -fd - 1 <==> fd in s.disabled)
    ensures forall i :: 0 <= i < |s.pollfds| ==>
              var fd := Decode(s.pollfds[i].fd); fd in s.channels && s.channels[fd].index == i
  {
    RunKeeps(EMPTY, ops, s);
    forall fd <- s.channels ensures Matches(s, fd) { }
  }

  /** The events last asked for on `fd`, -1 while it is not registered. */
  function EventsAfter(ops: seq<Op>, fd: int, before: int): int
    decreases |ops|
  {
    if ops == [] then before
    else if ops[0].fd != fd then EventsAfter(ops[1..], fd, before)
    else EventsAfter(ops[1..], fd, if ops[0].RemoveOp? then -1 else ops[0].events)
  }

  /** Has `fd` been updated to no events since it was registered? */
  function DisabledAfter(ops: seq<Op>, fd: int, before: bool): bool
    decreases |ops|
  {
    if ops == [] then before
    else if ops[0].fd != fd then DisabledAfter(ops[1..], fd, before)
    else DisabledAfter(ops[1..], fd, ops[0].ChangeOp? && (ops[0].events == 0 || before))
  }

  function Asked(s: State, fd: int): int { if fd in s.channels then s.channels[fd].events else -1 }

  lemma {:induction false} RunAsAsked(s: State, ops: seq<Op>, s': State, fd: int)
    requires Inv(s) && Leads(s, ops, s')
    ensures Asked(s', fd) == EventsAfter(ops, fd, Asked(s, fd))
    ensures fd in s'.disabled <==> DisabledAfter(ops, fd, fd in s.disabled)
    decreases |ops|
  {
    if ops != [] {
      var s1 := Apply(s, ops[0]);
      RunKeeps(s, [ops[0]], s1);
      hide Inv;
      RunAsAsked(s1, ops[1..], s', fd);
    }
  }

  /** After any legal run a channel is registered, with the events last asked for, exactly as the
      operations on its fd say, whatever has happened to the other channels; and so has it been
      disabled. */
  lemma RegisteredAsAsked(ops: seq<Op>, s: State, fd: int)
    requires Leads(EMPTY, ops, s)
    ensures fd in s.channels <==> EventsAfter(ops, fd, -1) >= 0
    ensures fd in s.channels ==> s.channels[fd].events == EventsAfter(ops, fd, -1)
    ensures fd in s.disabled <==> DisabledAfter(ops, fd, false)
  {
    RunAsAsked(EMPTY, ops, s, fd);
  }

  /** The asserts of `removeChannel` hold exactly for a channel without events that has been
      updated to none: one that was registered without events fails the last of them. */
  lemma RemovableExactlyWhenDisabled(ops: seq<Op>, s: State, fd: int)
    requires Leads(EMPTY, ops, s) && fd in s.channels
    ensures Legal(s, RemoveOp(fd)) <==> s.channels[fd].events == 0 && fd in s.disabled
  {
    SlotsMatchChannels(ops, s);
  }

  /** A channel registered without events cannot be removed, until it has been updated to none
      once more. */
  lemma QuietRegistrationIsStuck(fd: int) returns (s: State, s': State)
    requires fd >= 0
    ensures Leads(EMPTY, [RegisterOp(fd, 0)], s) && s.channels == map[fd := Registration(0, 0)]
    ensures !Legal(s, RemoveOp(fd))
    ensures Leads(EMPTY, [RegisterOp(fd, 0), ChangeOp(fd, 0)], s') && Legal(s', RemoveOp(fd))
  {
    s := Register(EMPTY, fd, 0);
    s' := Change(s, fd, 0);
    assert [RegisterOp(fd, 0)][1..] == [];
    assert [RegisterOp(fd, 0), ChangeOp(fd, 0)][1..] == [ChangeOp(fd, 0)] && [ChangeOp(fd, 0)][1..] == [];
    assert Leads(s', [], s');
    assert Leads(s, [ChangeOp(fd, 0)], s');
  }

  // ---------- fillActiveChannels ----------

  /** Every lookup by the raw slot fd finds a channel. */
  predicate LookupsSucceed(s: State) {
    forall i :: 0 <= i < |s.pollfds| && s.pollfds[i].events > 0 ==> s.pollfds[i].fd in s.channels
  }

  /** Exactly when no channel has been disabled and then enabled again. */
  lemma LookupsSucceedExactly(ops: seq<Op>, s: State)
    requires Leads(EMPTY, ops, s)
    ensures LookupsSucceed(s) <==> forall fd <- s.disabled :: fd in s.channels && s.channels[fd].events == 0
  {
    RunKeeps(EMPTY, ops, s);
    forall g <- s.channels ensures g >= 0 { assert Matches(s, g); }
    if LookupsSucceed(s) {
      forall fd <- s.disabled ensures fd in s.channels && s.channels[fd].events == 0 {
        assert Matches(s, fd);
      }
    } else {
      var i :| 0 <= i < |s.pollfds| && s.pollfds[i].events > 0 && s.pollfds[i].fd !in s.channels;
      var fd := Decode(s.pollfds[i].fd);
      assert Matches(s, fd);
    }
  }

  /** No step of the run enables a channel that was disabled. */
  predicate NeverReEnables(s: State, ops: seq<Op>)
    decreases |ops|
  {
    ops != [] && Legal(s, ops[0]) ==>
      && (ops[0].ChangeOp? && ops[0].fd in s.disabled ==> ops[0].events == 0)
      && NeverReEnables(Apply(s, ops[0]), ops[1..])
  }

  predicate DisabledAreQuiet(s: State) {
    forall fd <- s.disabled :: fd in s.channels ==> s.channels[fd].events == 0
  }

  lemma {:induction false} QuietStays(s: State, ops: seq<Op>, s': State)
    requires Inv(s) && DisabledAreQuiet(s) && Leads(s, ops, s') && NeverReEnables(s, ops)
    ensures DisabledAreQuiet(s') && Inv(s')
    decreases |ops|
  {
    if ops != [] {
      match ops[0] {
        case RegisterOp(fd, events) => RegisterKeeps(s, fd, events);
        case ChangeOp(fd, events) => ChangeKeeps(s, fd, events);
        case RemoveOp(fd) => RemoveKeeps(s, fd);
      }
      assert DisabledAreQuiet(Apply(s, ops[0]));
      QuietStays(Apply(s, ops[0]), ops[1..], s');
    }
  }

  /** So in a run that never enables a disabled channel again, polling never loses a channel. */
  lemma LookupsSucceedWithoutReEnabling(ops: seq<Op>, s: State)
    requires Leads(EMPTY, ops, s) && NeverReEnables(EMPTY, ops)
    ensures LookupsSucceed(s)
  {
    QuietStays(EMPTY, ops, s);
    LookupsSucceedExactly(ops, s);
  }

  /** Disabling a channel and enabling it again is enough to break the lookup. */
  lemma ReEnablingBreaksLookup(fd: int, events: nat) returns (ops: seq<Op>, s: State)
    requires fd >= 0 && events > 0
    ensures Leads(EMPTY, ops, s) && !LookupsSucceed(s)
  {
    ops := [RegisterOp(fd, events), ChangeOp(fd, 0), ChangeOp(fd, events)];
    var s1 := Register(EMPTY, fd, events);
    var s2 := Change(s1, fd, 0);
    s := Change(s2, fd, events);
    assert ops[1..][1..] == [ChangeOp(fd, events)] && ops[1..][1..][1..] == [];
    assert Leads(s2, ops[1..][1..], s);
    assert s.pollfds == [PollFd(-fd - 1, events, 0)];
    assert s.pollfds[0].fd !in s.channels;
  }

  lemma IsMatched(s: State, fd: int)
    requires Inv(s) && fd in s.channels
    ensures Matches(s, fd)
  {
  }

  lemma LastIsMatched(s: State)
    requires Inv(s) && s.pollfds != []
    ensures var fd := Decode(s.pollfds[|s.pollfds| - 1].fd);
            fd in s.channels && s.channels[fd].index == |s.pollfds| - 1
  {
  }

  // ---------- The object ----------

  class Poller {
    var pollfds: seq<PollFd>
    var channels: map<int, Channel>
    ghost var disabled: set<int>

    ghost function Value(): State
      reads this, channels.Values
    {
      State(pollfds, map fd | fd in channels :: Registration(channels[fd].events, channels[fd].index), disabled)
    }

    ghost predicate Valid()
      reads this, channels.Values
    {
      Inv(Value()) && forall fd <- channels :: channels[fd].fd == fd
    }

    constructor ()
      ensures Valid() && Value() == EMPTY
    {
      pollfds, channels, disabled := [], map[], {};
    }

    /** A channel sets its events and updates itself for the first time. */
    method AddChannel(channel: Channel, events: nat)
      requires Valid() && channel.index < 0 && channel.fd >= 0 && channel.fd !in channels
      modifies this, channel
      ensures Valid() && Value() == Register(old(Value()), channel.fd, events)
      ensures channels == old(channels)[channel.fd := channel]
    {
      RegisterKeeps(Value(), channel.fd, events);
      forall fd <- channels ensures channels[fd] != channel { }
      hide Inv;
      channel.events := events;
      pollfds := pollfds + [PollFd(channel.fd, channel.events, 0)];
      channel.index := |pollfds| - 1;
      channels := channels[channel.fd := channel];
      assert Value().channels == Register(old(Value()), channel.fd, events).channels;
    }

    /** A registered channel sets its events and updates itself. */
    method UpdateChannel(channel: Channel, events: nat)
      requires Valid() && channel.fd in channels && channels[channel.fd] == channel
      modifies this, channel
      ensures Valid() && channels == old(channels)
      ensures Legal(old(Value()), ChangeOp(channel.fd, events))
      ensures Value() == Change(old(Value()), channel.fd, events)
    {
      hide Inv;
      ghost var s := Value();
      IsMatched(s, channel.fd);
      ChangeKeeps(s, channel.fd, events);
      assert forall fd <- channels :: fd != channel.fd ==> channels[fd] != channel;
      channel.events := events;
      var i := channel.index;
      pollfds := pollfds[i := pollfds[i].(events := channel.events, revents := 0)];
      if channel.events == 0 {
        pollfds := pollfds[i := pollfds[i].(fd := -channel.fd - 1)];
        disabled := disabled + {channel.fd};
      }
      assert forall fd <- channels :: fd != channel.fd ==> Value().channels[fd] == s.channels[fd];
      assert Value().channels == Change(s, channel.fd, events).channels;
      assert Value().pollfds == Change(s, channel.fd, events).pollfds;
    }

    /** The removed object keeps its index, so it cannot be registered again. */
    method RemoveChannel(channel: Channel)
      requires Valid() && channel.fd in channels && channels[channel.fd] == channel
      requires Legal(Value(), RemoveOp(channel.fd))
      modifies this, channels.Values
      ensures Valid() && Value() == Remove(old(Value()), channel.fd)
      ensures channels == old(channels) - {channel.fd} && channel.index == old(channel.index) >= 0
    {
      hide Inv;
      ghost var s := Value();
      RemoveKeeps(s, channel.fd);
      var i := channel.index;
      var last := |pollfds| - 1;
      IsMatched(s, channel.fd);
      LastIsMatched(s);
      assert forall f, g :: f in channels && g in channels && f != g ==> channels[f] != channels[g];
      channels := channels - {channel.fd};
      disabled := disabled - {channel.fd};
      if i == last {
        pollfds := pollfds[..last];
      } else {
        var channelAtEnd := pollfds[last].fd;
        pollfds := pollfds[i := pollfds[last]][last := pollfds[i]];
        if channelAtEnd < 0 {
          channelAtEnd := -channelAtEnd - 1;
        }
        channels[channelAtEnd].index := i;
        pollfds := pollfds[..last];
      }
      assert Value().pollfds == Remove(s, channel.fd).pollfds;
      assert Value().channels == Remove(s, channel.fd).channels;
    }

    /** The channels whose slots ask for events, each once and in slot order, each with what
        poll(2) reported in its own slot (the source tests `events`, not `revents`). */
    method FillActiveChannels() returns (active: seq<Channel>)
      requires Valid() && LookupsSucceed(Value())
      modifies channels.Values`revents
      ensures Valid() && Value() == old(Value()) && channels == old(channels)
      ensures forall j, k :: 0 <= j < k < |active| ==> active[j].index < active[k].index
      ensures forall c <- active :: c.fd in channels && channels[c.fd] == c
      ensures forall fd <- channels ::
                var c := channels[fd];
                && 0 <= c.index < |pollfds|
                && (c in active <==> pollfds[c.index].events > 0)
                && c.revents == (if c in active then pollfds[c.index].revents else old(c.revents))
    {
      ghost var s := Value();
      ghost var slots: seq<nat>;
      active, slots := LookUpSlots();
      hide Inv, LookupsSucceed;
      forall k | 0 <= k < |active| ensures active[k].index == slots[k] && active[k].fd == pollfds[slots[k]].fd {
        assert slots[k] in slots;
        OwnerOfSlot(s, slots[k], pollfds[slots[k]].fd);
      }
      forall fd <- channels
        ensures 0 <= channels[fd].index < |pollfds|
        ensures channels[fd] in active <==> pollfds[channels[fd].index].events > 0
      {
        var c := channels[fd];
        IsMatched(s, fd);
        assert s.channels[fd].index == c.index;
        if pollfds[c.index].events > 0 {
          OwnerOfSlot(s, c.index, fd);
          assert c.index in slots;
          var k :| 0 <= k < |slots| && slots[k] == c.index;
          assert active[k] == c;
        }
      }
    }

    /** `channel->set_revents(pfd->revents)` */
    method SetRevents(channel: Channel, revents: nat)
      requires Valid() && channel.fd in channels && channels[channel.fd] == channel
      modifies channel`revents
      ensures Value() == old(Value()) && channel.revents == revents
      ensures forall fd <- channels :: fd != channel.fd ==> channels[fd].revents == old(channels[fd].revents)
    {
      hide Inv;
      ghost var s := Value();
      channel.revents := revents;
      assert Value().channels == s.channels;
    }

    /** The loop: `slots` are the slots with events. */
    method LookUpSlots() returns (active: seq<Channel>, ghost slots: seq<nat>)
      requires Valid() && LookupsSucceed(Value())
      modifies channels.Values`revents
      ensures Valid() && Value() == old(Value())
      ensures Picks(pollfds, slots, |pollfds|) && |active| == |slots|
      ensures forall k :: 0 <= k < |active| ==>
                pollfds[slots[k]].fd in channels && active[k] == channels[pollfds[slots[k]].fd]
      ensures forall fd <- channels ::
                channels[fd].revents == Reported(Value(), fd, |pollfds|, old(channels[fd].revents))
    {
      hide Inv, LookupsSucceed, Picks, Reported;
      ghost var s := Value();
      active, slots := [], [];
      NothingPicked(s);
      var i := 0;
      while i < |pollfds|
        invariant i <= |pollfds| && Value() == s
        invariant Picks(pollfds, slots, i) && |active| == |slots|
        invariant forall k :: 0 <= k < |slots| ==> slots[k] < i
        invariant forall k :: 0 <= k < |active| ==>
                    pollfds[slots[k]].fd in channels && active[k] == channels[pollfds[slots[k]].fd]
        invariant forall fd <- channels ::
                    channels[fd].revents == Reported(s, fd, i, old(channels[fd].revents))
      {
        var pfd := pollfds[i];
        PickNext(pollfds, slots, i);
        forall fd <- channels
          ensures Reported(s, fd, i + 1, old(channels[fd].revents)) ==
                  if pfd.events > 0 && fd == pfd.fd then pfd.revents
                  else Reported(s, fd, i, old(channels[fd].revents))
        {
          assert fd in s.channels;
          ReportNext(s, fd, i, old(channels[fd].revents));
        }
        if pfd.events > 0 {
          LookedUp(s, i);
          assert pfd.fd in s.channels;
          SetRevents(channels[pfd.fd], pfd.revents);
          active, slots := active + [channels[pfd.fd]], slots + [i];
        }
        i := i + 1;
      }
    }
  }

  /** The slots with events among the first `i`, in order. */
  ghost predicate Picks(pollfds: seq<PollFd>, slots: seq<nat>, i: nat) {
    && i <= |pollfds|
    && (forall j, k :: 0 <= j < k < |slots| ==> slots[j] < slots[k])
    && (forall k :: 0 <= k < |slots| ==> slots[k] < i)
    && (forall k | 0 <= k < i :: k in slots <==> pollfds[k].events > 0)
  }

  lemma NothingPicked(s: State)
    ensures Picks(s.pollfds, [], 0)
    ensures forall fd, before: nat :: Reported(s, fd, 0, before) == before
  {
  }

  lemma LookedUp(s: State, i: nat)
    requires LookupsSucceed(s) && i < |s.pollfds| && s.pollfds[i].events > 0
    ensures s.pollfds[i].fd in s.channels
  {
  }

  lemma PickNext(pollfds: seq<PollFd>, slots: seq<nat>, i: nat)
    requires Picks(pollfds, slots, i) && i < |pollfds|
    ensures Picks(pollfds, if pollfds[i].events > 0 then slots + [i] else slots, i + 1)
  {
  }

  /** What `revents` channel `fd` has once the first `i` slots have been looked at. */
  ghost function Reported(s: State, fd: int, i: nat, before: nat): nat {
    if fd in s.channels && 0 <= s.channels[fd].index < i <= |s.pollfds| && s.pollfds[s.channels[fd].index].events > 0
    then s.pollfds[s.channels[fd].index].revents else before
  }

  lemma ReportNext(s: State, fd: int, i: nat, before: nat)
    requires Inv(s) && LookupsSucceed(s) && i < |s.pollfds| && fd in s.channels
    ensures Reported(s, fd, i + 1, before) ==
            if s.pollfds[i].events > 0 && fd == s.pollfds[i].fd then s.pollfds[i].revents
            else Reported(s, fd, i, before)
  {
    if s.pollfds[i].events > 0 { OwnerOfSlot(s, i, fd); }
  }

  /** A slot with events holds the fd of exactly the channel whose index names it. */
  lemma OwnerOfSlot(s: State, i: nat, fd: int)
    requires Inv(s) && LookupsSucceed(s) && i < |s.pollfds| && s.pollfds[i].events > 0 && fd in s.channels
    ensures s.channels[fd].index == i <==> s.pollfds[i].fd == fd
  {
    assert Matches(s, fd) && Matches(s, s.pollfds[i].fd);
  }
}
