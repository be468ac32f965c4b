/** What the threads that use a monitor see of it: calls that begin and calls that return. The
    monitors derive it from the steps of a run alone, so that a statement about a trace does not
    depend on what a step keeps in the state. */
module Traces {
  import opened Conditions

  datatype Event<T> =
    | Offers(thread: Thread, item: T)    // a call begins that offers an item (`put`, `run`)
    | Accepts(thread: Thread, item: T)   // such a call returns, with the item in the queue
    | Inlines(thread: Thread, item: T)   // such a call returns, having run the item itself
    | Asks(thread: Thread)               // a `take` begins
    | Gets(thread: Thread, item: T)      // a `take` returns with an item
    | GetsNone(thread: Thread)           // a `take` returns without one

  datatype Kind = Accepted | Inline | Gotten

  function ItemOf<T>(e: Event<T>, kind: Kind): seq<T> {
    match e
    case Accepts(_, x) => if kind == Accepted then [x] else []
    case Inlines(_, x) => if kind == Inline then [x] else []
    case Gets(_, x) => if kind == Gotten then [x] else []
    case _ => []
  }

  /** The items accepted, run inline or gotten, in the order in which the calls returned, after
      those of `before`. */
  function Items<T>(trace: seq<Event<T>>, kind: Kind, before: seq<T>): seq<T>
    decreases |trace|
  {
    if trace == [] then before else Items(trace[1..], kind, before + ItemOf(trace[0], kind))
  }

  function Answer<T(==)>(open: seq<T>, x: T): seq<T> {
    if open != [] && open[0] == x then open[1..] else open + [x]
  }

  function OfferedBy<T(==)>(e: Event<T>, t: Thread, open: seq<T>): seq<T> {
    if e.thread != t then open else
    match e
    case Offers(_, x) => open + [x]
    case Accepts(_, x) => Answer(open, x)
    case Inlines(_, x) => Answer(open, x)
    case _ => open
  }

  /** The items thread `t` has offered without an answer, starting with `open`; an answer that
      no offer asked for stays in the list. */
  function Offered<T(==)>(trace: seq<Event<T>>, t: Thread, open: seq<T>): seq<T>
    decreases |trace|
  {
    if trace == [] then open else Offered(trace[1..], t, OfferedBy(trace[0], t, open))
  }

  function AskingBy<T>(e: Event<T>, t: Thread, open: int): int {
    if e.thread != t then open else
    match e
    case Asks(_) => open + 1
    case Gets(_, _) => open - 1
    case GetsNone(_) => open - 1
    case _ => open
  }

  /** How many `take`s thread `t` has begun and not returned from, starting with `open`. */
  function Asking<T>(trace: seq<Event<T>>, t: Thread, open: int): int
    decreases |trace|
  {
    if trace == [] then open else Asking(trace[1..], t, AskingBy(trace[0], t, open))
  }

  function One(b: bool): nat { if b then 1 else 0 }

  lemma {:induction false} JoinItems<T>(xs: seq<Event<T>>, ys: seq<Event<T>>, kind: Kind, before: seq<T>)
    ensures Items(xs + ys, kind, before) == Items(ys, kind, Items(xs, kind, before))
    decreases |xs|
  {
    if xs == [] {
      assert xs + ys == ys;
    } else {
      JoinItems(xs[1..], ys, kind, before + ItemOf(xs[0], kind));
      assert (xs + ys)[1..] == xs[1..] + ys;
    }
  }

  lemma {:induction false} JoinOffers<T>(xs: seq<Event<T>>, ys: seq<Event<T>>, t: Thread, open: seq<T>)
    ensures Offered(xs + ys, t, open) == Offered(ys, t, Offered(xs, t, open))
    decreases |xs|
  {
    if xs == [] {
      assert xs + ys == ys;
    } else {
      JoinOffers(xs[1..], ys, t, OfferedBy(xs[0], t, open));
      assert (xs + ys)[1..] == xs[1..] + ys;
    }
  }

  lemma {:induction false} JoinAsks<T>(xs: seq<Event<T>>, ys: seq<Event<T>>, t: Thread, open: int)
    ensures Asking(xs + ys, t, open) == Asking(ys, t, Asking(xs, t, open))
    decreases |xs|
  {
    if xs == [] {
      assert xs + ys == ys;
    } else {
      JoinAsks(xs[1..], ys, t, AskingBy(xs[0], t, open));
      assert (xs + ys)[1..] == xs[1..] + ys;
    }
  }

  /** A step in which a call may begin and may return. */
  function Seen<T>(begins: bool, first: Event<T>, ends: bool, second: Event<T>): seq<Event<T>> {
    (if begins then [first] else []) + (if ends then [second] else [])
  }

  lemma SeenItems<T>(begins: bool, first: Event<T>, ends: bool, second: Event<T>, kind: Kind, before: seq<T>)
    requires first.Offers? || first.Asks?
    ensures Items(Seen(begins, first, ends, second), kind, before)
            == if ends then before + ItemOf(second, kind) else before
  {
    JoinItems(if begins then [first] else [], if ends then [second] else [], kind, before);
    OneItem(first, kind, before);
    OneItem(second, kind, before);
    assert before + [] == before;
  }

  lemma OneItem<T>(e: Event<T>, kind: Kind, before: seq<T>)
    ensures Items([e], kind, before) == before + ItemOf(e, kind)
  {
    assert [e][1..] == [];
  }

  lemma SeenCalls<T>(begins: bool, first: Event<T>, ends: bool, second: Event<T>, t: Thread,
                     open: seq<T>, asking: int)
    ensures var seen := Seen(begins, first, ends, second);
            var open1 := if begins then OfferedBy(first, t, open) else open;
            var asking1 := if begins then AskingBy(first, t, asking) else asking;
            && Offered(seen, t, open) == (if ends then OfferedBy(second, t, open1) else open1)
            && Asking(seen, t, asking) == (if ends then AskingBy(second, t, asking1) else asking1)
  {
    var xs, ys := if begins then [first] else [], if ends then [second] else [];
    JoinOffers(xs, ys, t, open);
    JoinAsks(xs, ys, t, asking);
    OneCall(first, t, open, asking);
    OneCall(second, t, if begins then OfferedBy(first, t, open) else open,
            if begins then AskingBy(first, t, asking) else asking);
  }

  lemma OneCall<T>(e: Event<T>, t: Thread, open: seq<T>, asking: int)
    ensures Offered([e], t, open) == OfferedBy(e, t, open) && Asking([e], t, asking) == AskingBy(e, t, asking)
  {
    assert [e][1..] == [];
  }

  lemma NothingSeen<T>(t: Thread, open: seq<T>, asking: int, kind: Kind, before: seq<T>)
    ensures Items([], kind, before) == before && Offered([], t, open) == open && Asking<T>([], t, asking) == asking
  {
  }
}
