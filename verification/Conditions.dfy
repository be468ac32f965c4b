/** src/utils/Condition.h: the threads that have waited on a condition variable. `waiting`
    sleep until they are signalled; `awake` have been woken up and will look again as soon as
    they hold the mutex. */
module Conditions {

  type Thread = int

  datatype Condition = Condition(waiting: set<Thread>, awake: set<Thread>)

  /** Which thread a `notify` wakes up. */
  datatype Woken = Nobody | Somebody(thread: Thread)

  predicate MayWake(c: Condition, woken: Woken) {
    match woken
    case Nobody => c.waiting == {}
    case Somebody(t) => t in c.waiting
  }

  function Notify(c: Condition, woken: Woken): Condition {
    match woken
    case Nobody => c
    case Somebody(t) => Condition(c.waiting - {t}, c.awake + {t})
  }

  function NotifyAll(c: Condition): Condition { Condition({}, c.awake + c.waiting) }

  /** `wait()`, by a thread that comes for the first time or was woken up. */
  function Wait(c: Condition, t: Thread): Condition { Condition(c.waiting + {t}, c.awake - {t}) }

  /** A thread goes on without waiting (any more). */
  function Proceed(c: Condition, t: Thread): Condition { c.(awake := c.awake - {t}) }

  predicate Separate(c: Condition) { c.waiting !! c.awake }

  /** While a thread sleeps there are at least `need` awake ones. */
  predicate Covered(c: Condition, need: int) {
    Separate(c) && (c.waiting != {} ==> |c.awake| >= need)
  }

  lemma NotifyCovers(c: Condition, woken: Woken, need: int)
    requires Covered(c, need) && MayWake(c, woken)
    ensures Covered(Notify(c, woken), need + 1)
  {
    if woken.Somebody? {
      assert |c.awake + {woken.thread}| == |c.awake| + 1;
    }
  }

  lemma ProceedCovers(c: Condition, t: Thread, need: int)
    requires Covered(c, need)
    ensures Covered(Proceed(c, t), need - 1)
  {
    if t in c.awake {
      assert |c.awake - {t}| == |c.awake| - 1;
    } else {
      assert c.awake - {t} == c.awake;
    }
  }

  lemma WaitCovers(c: Condition, t: Thread, need: int)
    requires Covered(c, need) && need <= 0
    ensures Covered(Wait(c, t), need)
  {
  }

  lemma CoverMore(c: Condition, need: int)
    requires Covered(c, need)
    ensures Covered(c, need - 1)
  {
  }

  lemma NobodyIn(threads: set<Thread>)
    requires forall t :: t !in threads
    ensures threads == {}
  {
    var none: set<Thread> := {};
    assert forall t :: t in threads <==> t in none;
    assert threads == none;
  }

  /** The threads that have waited and are not gone. */
  function Inside(c: Condition): set<Thread> { c.waiting + c.awake }

  lemma InsideAfter(c: Condition, t: Thread, woken: Woken, need: int)
    requires Covered(c, need)
    ensures Inside(Wait(c, t)) == Inside(c) + {t}
    ensures t !in c.waiting ==> Inside(Proceed(c, t)) == Inside(c) - {t}
    ensures MayWake(c, woken) ==> Inside(Notify(c, woken)) == Inside(c)
  {
    hide Covered, Wait, Proceed, Notify, Inside;
    InsideWait(c, t);
    if t !in c.waiting { InsideProceed(c, t); }
    if woken.Somebody? && MayWake(c, woken) { InsideNotify(c, woken.thread); }
    else { NotifyNobody(c); }
  }

  lemma InsideWait(c: Condition, t: Thread)
    ensures Inside(Wait(c, t)) == Inside(c) + {t}
  {
  }

  lemma InsideProceed(c: Condition, t: Thread)
    requires t !in c.waiting
    ensures Inside(Proceed(c, t)) == Inside(c) - {t}
  {
  }

  lemma InsideNotify(c: Condition, t: Thread)
    requires t in c.waiting
    ensures Inside(Notify(c, Somebody(t))) == Inside(c)
  {
  }

  lemma NotifyNobody(c: Condition)
    ensures Notify(c, Nobody) == c
  {
  }
}
