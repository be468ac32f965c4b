/** src/utils/AsyncLogging.cpp: front-end threads append lines to a current buffer under a
    mutex; one backend thread takes the full buffers away, writes them and hands two of them
    back as spares. Each critical section, and each step of the backend outside it, is one
    step here; they interleave in any order. */
module AsyncLogging {

  datatype Option<T> = None | Some(value: T)

  /** What the backend leaves in the log file. */
  datatype Output = Text(text: string) | Notice(dropped: nat)

  /** Where the backend is in its loop. */
  datatype Place = Head | Waiting | Swapped | Writing(next: nat) | Done

  datatype State = State(
    // shared, under the mutex; None is a null pointer
    current: Option<string>, next: Option<string>, buffers: seq<string>,
    running: bool,
    // the backend's own
    place: Place, spare1: Option<string>, spare2: Option<string>, batch: seq<string>, file: seq<Output>,
    // history: the lines appended, the batches the backend took
    lines: seq<string>, batches: seq<seq<string>>,
    fault: bool)  // a null pointer was used, or an assert of the source failed

  const MAX_BATCH: nat := 25

  // ---------- The steps ----------

  /** `FixedBuffer::append`: all or nothing. */
  function Put(buffer: string, line: string, capacity: nat): string {
    if capacity - |buffer| > |line| then buffer + line else buffer
  }

  function Append(s: State, line: string, capacity: nat): State {
    var s1 := s.(lines := s.lines + [line]);
    if s.current.None? then s1.(fault := true)
    else if capacity - |s.current.value| > |line| then
      s1.(current := Some(Put(s.current.value, line, capacity)))
    else
      var spare := if s.next.Some? then s.next.value else "";
      s1.(buffers := s.buffers + [s.current.value],
          next := None,
          current := Some(Put(spare, line, capacity)))
  }

  /** The rest of the backend's critical section, after any wait. */
  function Swap(s: State): State {
    if s.current.None? then s.(fault := true) else
    var taken := s.buffers + [s.current.value];
    s.(current := s.spare1, spare1 := None,
       batch := taken, buffers := s.batch, batches := s.batches + [taken],
       next := if s.next.None? then s.spare2 else s.next,
       spare2 := if s.next.None? then None else s.spare2,
       place := Swapped)
  }

  /** The top of the loop, with its three asserts, into the critical section. */
  function Enter(s: State): State {
    if !s.running then s.(place := Done)
    else if s.spare1 != Some("") || s.spare2 != Some("") || s.batch != [] then s.(fault := true)
    else if s.buffers == [] then s.(place := Waiting)
    else Swap(s)
  }

  function Trim(s: State): State {
    if s.batch == [] then s.(fault := true) else
    s.(file := if |s.batch| > MAX_BATCH then s.file + [Notice(|s.batch| - 2)] else s.file,
       batch := if |s.batch| > MAX_BATCH then s.batch[..2] else s.batch,
       place := Writing(0))
  }

  function WriteNext(s: State): State
    requires s.place.Writing? && s.place.next < |s.batch|
  {
    s.(file := s.file + [Text(s.batch[s.place.next])], place := Writing(s.place.next + 1))
  }

  /** `newBuffer = buffersToWrite.pop_back(); newBuffer->reset();` if there is no spare. */
  function Refill(spare: Option<string>, batch: seq<string>): (Option<string>, seq<string>)
    requires spare.None? ==> batch != []
  {
    if spare.Some? then (spare, batch) else (Some(""), batch[..|batch| - 1])
  }

  function Recycle(s: State): State {
    var b0 := if |s.batch| > 2 then s.batch[..2] else s.batch;
    if s.spare1.None? && b0 == [] then s.(fault := true) else
    var (spare1, b1) := Refill(s.spare1, b0);
    if s.spare2.None? && b1 == [] then s.(fault := true) else
    var (spare2, _) := Refill(s.spare2, b1);
    s.(spare1 := spare1, spare2 := spare2, batch := [], place := Head)
  }

  datatype Step = AppendLine(line: string) | Stop | EnterLoop | WakeUp | TrimBatch | WriteOne | RecycleSpares

  predicate Enabled(s: State, step: Step) {
    match step
    case AppendLine(_) => true
    case Stop => true
    case EnterLoop => s.place.Head?
    case WakeUp => s.place.Waiting?
    case TrimBatch => s.place.Swapped?
    case WriteOne => s.place.Writing? && s.place.next < |s.batch|
    case RecycleSpares => s.place.Writing? && s.place.next == |s.batch|
  }

  function Apply(s: State, step: Step, capacity: nat): State
    requires Enabled(s, step)
  {
    match step
    case AppendLine(line) => Append(s, line, capacity)
    case Stop => s.(running := false)
    case EnterLoop => Enter(s)
    case WakeUp => Swap(s)
    case TrimBatch => Trim(s)
    case WriteOne => WriteNext(s)
    case RecycleSpares => Recycle(s)
  }

  const INITIAL: State :=
    State(Some(""), Some(""), [], true, Head, Some(""), Some(""), [], [], [], [], false)

  /** `s` is reached from the start by `steps`, in any interleaving. */
  predicate Leads(s: State, steps: seq<Step>, s': State, capacity: nat)
    decreases |steps|
  {
    if steps == [] then s == s'
    else Enabled(s, steps[0]) && Leads(Apply(s, steps[0], capacity), steps[1..], s', capacity)
  }

  // ---------- Text ----------

  function Concat(bufs: seq<string>): string {
    if bufs == [] then "" else Concat(bufs[..|bufs| - 1]) + bufs[|bufs| - 1]
  }

  /** The lines a buffer of this capacity can hold at all. */
  function Accepted(lines: seq<string>, capacity: nat): string {
    if lines == [] then ""
    else Accepted(lines[..|lines| - 1], capacity) +
         (if |lines[|lines| - 1]| < capacity then lines[|lines| - 1] else "")
  }

  function AllText(batches: seq<seq<string>>): string {
    if batches == [] then "" else AllText(batches[..|batches| - 1]) + Concat(batches[|batches| - 1])
  }

  /** What is written of a batch, and what is dropped: of more than 25 buffers, all from the
      third on. */
  function Kept(batch: seq<string>): seq<string> { if |batch| > 25 then batch[..2] else batch }
  function Lost(batch: seq<string>): seq<string> { if |batch| > 25 then batch[2..] else [] }

  /** The batches without the whole buffers the backend drops. */
  function KeptText(batches: seq<seq<string>>): string {
    if batches == [] then "" else KeptText(batches[..|batches| - 1]) + Concat(Kept(batches[|batches| - 1]))
  }

  function LostCount(batches: seq<seq<string>>): nat {
    if batches == [] then 0 else LostCount(batches[..|batches| - 1]) + |Lost(batches[|batches| - 1])|
  }

  function FileText(file: seq<Output>): string {
    if file == [] then "" else
    FileText(file[..|file| - 1]) + (match file[|file| - 1] case Text(t) => t case Notice(_) => "")
  }

  function NoticedCount(file: seq<Output>): nat {
    if file == [] then 0 else
    NoticedCount(file[..|file| - 1]) + (match file[|file| - 1] case Text(_) => 0 case Notice(n) => n)
  }

  // ---------- What every step keeps ----------

  /** A missing `nextBuffer_` means a full buffer is waiting in `buffers_`. */
  predicate SharedOk(s: State) {
    s.current.Some? && (s.next == Some("") || (s.next.None? && s.buffers != []))
  }

  predicate SparesOk(s: State) {
    match s.place
    case Swapped => s.spare1.None? && s.batch != [] && (s.spare2 == Some("") || (s.spare2.None? && |s.batch| >= 2))
    case Writing(next) => s.spare1.None? && s.batch != [] && next <= |s.batch|
                          && (s.spare2 == Some("") || (s.spare2.None? && |s.batch| >= 2))
    case _ => s.spare1 == Some("") && s.spare2 == Some("") && s.batch == []
  }

  /** The batches whose notice has been written. */
  function Settled(place: Place, batches: seq<seq<string>>): seq<seq<string>> {
    if place.Swapped? && batches != [] then batches[..|batches| - 1] else batches
  }

  /** Text of settled batches that is kept but not yet written. */
  function InFlight(place: Place, batch: seq<string>): seq<string> {
    if place.Writing? && place.next <= |batch| then batch[place.next..] else []
  }

  /** The front end: taken, full and current buffers hold the accepted lines in order. */
  predicate FrontTextOk(taken: string, buffers: seq<string>, current: string, lines: seq<string>, capacity: nat) {
    taken + Concat(buffers) + current == Accepted(lines, capacity)
  }

  /** The back end: the file and what is in flight are the kept text of the settled batches. */
  predicate BackTextOk(place: Place, batch: seq<string>, file: seq<Output>, batches: seq<seq<string>>) {
    && FileText(file) + Concat(InFlight(place, batch)) == KeptText(Settled(place, batches))
    && NoticedCount(file) == LostCount(Settled(place, batches))
    && (place.Swapped? ==> batches != [] && batch == batches[|batches| - 1])
  }

  predicate Inv(s: State, capacity: nat) {
    && !s.fault && SharedOk(s) && SparesOk(s)
    && FrontTextOk(AllText(s.batches), s.buffers, s.current.value, s.lines, capacity)
    && BackTextOk(s.place, s.batch, s.file, s.batches)
  }

  lemma ConcatPush(bufs: seq<string>, b: string)
    ensures Concat(bufs + [b]) == Concat(bufs) + b
  {
    assert (bufs + [b])[..|bufs|] == bufs;
  }

  lemma ConcatSmall(b: string)
    ensures Concat([]) == "" && Concat([b]) == b
  {
    ConcatPush([], b);
    assert [] + [b] == [b];
  }

  lemma {:induction false} ConcatJoin(xs: seq<string>, ys: seq<string>)
    ensures Concat(xs + ys) == Concat(xs) + Concat(ys)
  {
    if ys == [] {
      assert xs + ys == xs;
    } else {
      var zs, y := ys[..|ys| - 1], ys[|ys| - 1];
      assert Concat(ys) == Concat(zs) + y;
      hide Concat;
      ConcatJoin(xs, zs);
      assert xs + ys == (xs + zs) + [y];
      ConcatPush(xs + zs, y);
      assert (Concat(xs) + Concat(zs)) + y == Concat(xs) + (Concat(zs) + y);
    }
  }

  lemma AcceptedPush(lines: seq<string>, line: string, capacity: nat)
    ensures Accepted(lines + [line], capacity) == Accepted(lines, capacity) + (if |line| < capacity then line else "")
  {
    assert (lines + [line])[..|lines|] == lines;
  }

  lemma AppendKeeps(s: State, line: string, capacity: nat)
    requires Inv(s, capacity)
    ensures Inv(Append(s, line, capacity), capacity)
  {
    hide BackTextOk, AllText, Concat, Accepted;
    AcceptedPush(s.lines, line, capacity);
    var taken, c := AllText(s.batches), s.current.value;
    if capacity - |c| > |line| {
      assert taken + Concat(s.buffers) + (c + line) == (taken + Concat(s.buffers) + c) + line;
    } else {
      ConcatPush(s.buffers, c);
      var added := if |line| < capacity then line else "";
      assert Put("", line, capacity) == added;
      assert taken + (Concat(s.buffers) + c) + added == (taken + Concat(s.buffers) + c) + added;
    }
  }

  lemma AllTextPush(batches: seq<seq<string>>, batch: seq<string>)
    ensures AllText(batches + [batch]) == AllText(batches) + Concat(batch)
    ensures KeptText(batches + [batch]) == KeptText(batches) + Concat(Kept(batch))
    ensures LostCount(batches + [batch]) == LostCount(batches) + |Lost(batch)|
  {
    assert (batches + [batch])[..|batches|] == batches;
  }

  lemma FilePush(file: seq<Output>, out: Output)
    ensures FileText(file + [out]) == FileText(file) + (match out case Text(t) => t case Notice(_) => "")
    ensures NoticedCount(file + [out]) == NoticedCount(file) + (match out case Text(_) => 0 case Notice(n) => n)
  {
    assert (file + [out])[..|file|] == file;
  }

  lemma SwapKeeps(s: State, capacity: nat)
    requires Inv(s, capacity) && (s.place.Head? || s.place.Waiting?)
    ensures Inv(Swap(s), capacity)
  {
    hide AllText, Concat, Accepted, KeptText, LostCount, FileText, NoticedCount;
    var taken := s.buffers + [s.current.value];
    AllTextPush(s.batches, taken);
    ConcatPush(s.buffers, s.current.value);
    ConcatSmall("");
    assert (s.batches + [taken])[..|s.batches|] == s.batches;
    var t := AllText(s.batches);
    assert (t + (Concat(s.buffers) + s.current.value)) + "" + "" == t + Concat(s.buffers) + s.current.value;
  }

  lemma TrimKeeps(s: State, capacity: nat)
    requires Inv(s, capacity) && s.place.Swapped?
    ensures Inv(Trim(s), capacity)
  {
    hide AllText, Concat, Accepted, KeptText, LostCount, FileText, NoticedCount, FrontTextOk;
    ConcatSmall("");
    var s' := Trim(s);
    var before := s.batches[..|s.batches| - 1];
    AllTextPush(before, s.batch);
    assert s.batches == before + [s.batch];
    if |s.batch| > MAX_BATCH { FilePush(s.file, Notice(|s.batch| - 2)); }
    assert FileText(s.file) + "" == FileText(s.file);
    assert InFlight(s'.place, s'.batch) == Kept(s.batch);
  }

  lemma WriteKeeps(s: State, capacity: nat)
    requires Inv(s, capacity) && Enabled(s, WriteOne)
    ensures Inv(WriteNext(s), capacity)
  {
    hide AllText, Concat, Accepted, KeptText, LostCount, FileText, NoticedCount, FrontTextOk;
    var b := s.batch[s.place.next];
    ConcatSmall(b);
    var rest := s.batch[s.place.next + 1..];
    FilePush(s.file, Text(b));
    assert InFlight(s.place, s.batch) == [b] + rest;
    ConcatJoin([b], rest);
    assert FileText(s.file) + (b + Concat(rest)) == (FileText(s.file) + b) + Concat(rest);
  }

  lemma StepKeeps(s: State, step: Step, capacity: nat)
    requires Inv(s, capacity) && Enabled(s, step)
    ensures Inv(Apply(s, step, capacity), capacity)
  {
    hide AllText, Concat, Accepted, KeptText, LostCount, FileText, NoticedCount, FrontTextOk;
    match step
    case AppendLine(line) => AppendKeeps(s, line, capacity);
    case Stop =>
    case EnterLoop =>
      if s.running && s.buffers != [] { SwapKeeps(s, capacity); }
    case WakeUp => SwapKeeps(s, capacity);
    case TrimBatch => TrimKeeps(s, capacity);
    case WriteOne => WriteKeeps(s, capacity);
    case RecycleSpares =>
      assert InFlight(s.place, s.batch) == [];
  }

  lemma {:induction false} RunKeeps(s: State, steps: seq<Step>, s': State, capacity: nat)
    requires Inv(s, capacity) && Leads(s, steps, s', capacity)
    ensures Inv(s', capacity)
    decreases |steps|
  {
    hide Inv, Apply;
    if steps != [] {
      StepKeeps(s, steps[0], capacity);
      RunKeeps(Apply(s, steps[0], capacity), steps[1..], s', capacity);
    }
  }

  lemma ReachableInv(s: State, steps: seq<Step>, capacity: nat)
    requires Leads(INITIAL, steps, s, capacity)
    ensures Inv(s, capacity)
  {
    assert Inv(INITIAL, capacity);
    RunKeeps(INITIAL, steps, s, capacity);
  }

  /** The lines appended in a run, in order. */
  function Appended(steps: seq<Step>): seq<string> {
    if steps == [] then []
    else (if steps[0].AppendLine? then [steps[0].line] else []) + Appended(steps[1..])
  }

  lemma {:induction false} LinesAreAppended(s: State, steps: seq<Step>, s': State, capacity: nat)
    requires Leads(s, steps, s', capacity)
    ensures s'.lines == s.lines + Appended(steps)
    decreases |steps|
  {
    if steps != [] {
      LinesAreAppended(Apply(s, steps[0], capacity), steps[1..], s', capacity);
    }
  }

  lemma LinesOfRun(steps: seq<Step>, s: State, capacity: nat)
    requires Leads(INITIAL, steps, s, capacity)
    ensures s.lines == Appended(steps)
  {
    LinesAreAppended(INITIAL, steps, s, capacity);
    assert [] + Appended(steps) == Appended(steps);
  }

  // ---------- The main results ----------

  /** Nothing appended is lost or reordered between the threads: what the backend took, then
      `buffers_`, then `currentBuffer_` is every line shorter than a buffer, in order; and the
      file plus what is about to be written is what the backend took, less whole buffers from
      the third on of a batch of more than 25, whose number is the number reported. */
  lemma OrderIsConserved(s: State, steps: seq<Step>, capacity: nat)
    requires Leads(INITIAL, steps, s, capacity)
    ensures s.current.Some?
    ensures AllText(s.batches) + Concat(s.buffers) + s.current.value == Accepted(Appended(steps), capacity)
    ensures FileText(s.file) + Concat(InFlight(s.place, s.batch)) == KeptText(Settled(s.place, s.batches))
    ensures NoticedCount(s.file) == LostCount(Settled(s.place, s.batches))
  {
    ReachableInv(s, steps, capacity);
    LinesOfRun(steps, s, capacity);
  }

  lemma {:induction false} NothingLostIsAll(batches: seq<seq<string>>)
    requires LostCount(batches) == 0
    ensures KeptText(batches) == AllText(batches)
  {
    if batches != [] {
      NothingLostIsAll(batches[..|batches| - 1]);
    }
  }

  /** Without a notice in the file, and with no batch waiting to be looked at, the file, the
      batch in flight and the shared buffers together are exactly the lines. */
  lemma WithoutNoticeNothingIsLost(s: State, steps: seq<Step>, capacity: nat)
    requires Leads(INITIAL, steps, s, capacity) && !s.place.Swapped? && NoticedCount(s.file) == 0
    ensures s.current.Some?
    ensures FileText(s.file) + Concat(InFlight(s.place, s.batch)) + Concat(s.buffers) + s.current.value
            == Accepted(Appended(steps), capacity)
  {
    ReachableInv(s, steps, capacity);
    LinesOfRun(steps, s, capacity);
    NothingLostIsAll(s.batches);
  }

  /** No null buffer is used and no assert fails: `nextBuffer_` is missing only while a full
      buffer waits, so both `pop_back`s find a buffer, and at the head of the loop both spares
      are empty buffers and the batch is empty. */
  lemma RecyclingIsSafe(s: State, steps: seq<Step>, capacity: nat)
    requires Leads(INITIAL, steps, s, capacity)
    ensures !s.fault
    ensures s.next.None? ==> s.buffers != []
    ensures s.place.Head? ==> s.spare1 == Some("") && s.spare2 == Some("") && s.batch == []
  {
    ReachableInv(s, steps, capacity);
  }

  /** When the backend has left its loop, what it never took stays behind unwritten. */
  lemma StoppedLeavesTheRest(s: State, steps: seq<Step>, capacity: nat)
    requires Leads(INITIAL, steps, s, capacity) && s.place.Done?
    ensures s.current.Some?
    ensures FileText(s.file) == KeptText(s.batches)
    ensures AllText(s.batches) + (Concat(s.buffers) + s.current.value) == Accepted(Appended(steps), capacity)
  {
    hide AllText, Concat, Accepted, KeptText, LostCount, FileText, NoticedCount, Leads;
    ReachableInv(s, steps, capacity);
    LinesOfRun(steps, s, capacity);
    ConcatSmall("");
    assert FileText(s.file) + "" == FileText(s.file);
    var t, b, c := AllText(s.batches), Concat(s.buffers), s.current.value;
    assert t + (b + c) == t + b + c;
  }

  /** The backend leaves its loop only when it has been stopped. */
  lemma {:induction false} DoneOnlyIfStopped(s: State, steps: seq<Step>, s': State, capacity: nat)
    requires s.running && !s.place.Done? && Leads(s, steps, s', capacity) && s'.place.Done?
    ensures Stop in steps
    decreases |steps|
  {
    if steps != [] && steps[0] != Stop {
      DoneOnlyIfStopped(Apply(s, steps[0], capacity), steps[1..], s', capacity);
    }
  }

  /** In every reachable state a line shorter than a buffer ends up whole at the end of
      `currentBuffer_`, behind what was there exactly if it fits (with a character to spare);
      only otherwise is that buffer full. A longer line goes nowhere. */
  lemma LineIsPlaced(s: State, steps: seq<Step>, line: string, capacity: nat)
    requires Leads(INITIAL, steps, s, capacity)
    ensures s.current.Some?
    ensures var r := Append(s, line, capacity);
            if |s.current.value| + |line| < capacity
            then r.buffers == s.buffers && r.current == Some(s.current.value + line)
            else r.buffers == s.buffers + [s.current.value]
                 && r.current == Some(if |line| < capacity then line else "")
  {
    hide FrontTextOk, BackTextOk, Leads;
    ReachableInv(s, steps, capacity);
    assert "" + line == line;
  }

  // ---------- One turn of the backend ----------

  predicate ByBackend(steps: seq<Step>) { forall step <- steps :: !step.AppendLine? && !step.Stop? }

  lemma LeadsThen(s: State, step: Step, s1: State, steps: seq<Step>, s': State, capacity: nat)
    requires Enabled(s, step) && s1 == Apply(s, step, capacity) && Leads(s1, steps, s', capacity)
    ensures Leads(s, [step] + steps, s', capacity)
  {
    hide Apply;
    assert ([step] + steps)[1..] == steps;
  }

  /** The rest of the write loop and what comes after it. */
  lemma {:induction false} FinishWriting(s: State, capacity: nat) returns (steps: seq<Step>, s': State)
    requires Inv(s, capacity) && s.place.Writing?
    ensures Leads(s, steps, s', capacity) && ByBackend(steps)
    ensures s'.place.Head? && s'.batches == s.batches && s'.buffers == s.buffers && s'.current == s.current
    ensures s'.next == s.next
    decreases |s.batch| - s.place.next
  {
    hide FrontTextOk, BackTextOk;
    if s.place.next < |s.batch| {
      StepKeeps(s, WriteOne, capacity);
      var s1 := Apply(s, WriteOne, capacity);
      var more: seq<Step>;
      more, s' := FinishWriting(s1, capacity);
      steps := [WriteOne] + more;
      LeadsThen(s, WriteOne, s1, more, s', capacity);
    } else {
      s' := Apply(s, RecycleSpares, capacity);
      steps := [RecycleSpares] + [];
      LeadsThen(s, RecycleSpares, s', [], s', capacity);
    }
  }

  /** From every reachable state in which the backend is about to take buffers, one turn of its
      loop empties the shared buffers and brings their text to the file: all of it, or with more
      than 25 buffers the first two and the number of the others. */
  lemma BackendWritesWhatItTakes(s: State, before: seq<Step>, capacity: nat) returns (steps: seq<Step>, s': State)
    requires Leads(INITIAL, before, s, capacity)
    requires s.place.Waiting? || (s.place.Head? && s.running && s.buffers != [])
    ensures Leads(s, steps, s', capacity) && ByBackend(steps) && s.current.Some?
    ensures s'.place.Head? && s'.buffers == [] && s'.current == Some("") && s'.next == Some("")
    ensures var taken := s.buffers + [s.current.value];
            && FileText(s'.file) == FileText(s.file) + Concat(if |taken| > 25 then taken[..2] else taken)
            && NoticedCount(s'.file) == NoticedCount(s.file) + (if |taken| > 25 then |taken| - 2 else 0)
  {
    hide FrontTextOk, BackTextOk, AllText, Concat, KeptText, LostCount, FileText, NoticedCount;
    ReachableInv(s, before, capacity);
    var taken := s.buffers + [s.current.value];
    var first := if s.place.Waiting? then WakeUp else EnterLoop;
    StepKeeps(s, first, capacity);
    var s1 := Swap(s);
    StepKeeps(s1, TrimBatch, capacity);
    var s2 := Trim(s1);
    var rest: seq<Step>;
    rest, s' := FinishWriting(s2, capacity);
    LeadsThen(s1, TrimBatch, s2, rest, s', capacity);
    LeadsThen(s, first, s1, [TrimBatch] + rest, s', capacity);
    steps := [first] + ([TrimBatch] + rest);
    RunKeeps(s2, rest, s', capacity);
    AtRestAllWritten(s, capacity);
    AtRestAllWritten(s', capacity);
    AllTextPush(s.batches, taken);
  }

  lemma AtRestAllWritten(s: State, capacity: nat)
    requires Inv(s, capacity) && (s.place.Head? || s.place.Waiting?)
    ensures FileText(s.file) == KeptText(s.batches) && NoticedCount(s.file) == LostCount(s.batches)
  {
    hide FrontTextOk, Concat, KeptText, LostCount, FileText, NoticedCount;
    ConcatSmall("");
    assert FileText(s.file) + "" == FileText(s.file);
  }
}
