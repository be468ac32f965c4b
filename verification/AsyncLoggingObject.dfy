/** The AsyncLogging object: `append` and the pieces of `threadFunc`, changing the buffer
    pointers in place. Each method is a step of module AsyncLogging; WriteAll
    is the loop over its step WriteNext. */
module AsyncLoggingObject {
  import opened AsyncLogging

  class Logging {
    const capacity: nat
    var currentBuffer: Option<string>
    var nextBuffer: Option<string>
    var buffers: seq<string>
    var running: bool
    var place: Place
    var newBuffer1: Option<string>
    var newBuffer2: Option<string>
    var buffersToWrite: seq<string>
    var output: seq<Output>
    ghost var lines: seq<string>
    ghost var batches: seq<seq<string>>

    ghost function Value(): State
      reads this
    {
      State(currentBuffer, nextBuffer, buffers, running, place, newBuffer1, newBuffer2, buffersToWrite,
            output, lines, batches, false)
    }

    ghost predicate Valid()
      reads this
    {
      Inv(Value(), capacity)
    }

    constructor (capacity: nat)
      ensures Valid() && Value() == INITIAL && this.capacity == capacity
    {
      this.capacity := capacity;
      currentBuffer, nextBuffer, buffers, running := Some(""), Some(""), [], true;
      place, newBuffer1, newBuffer2, buffersToWrite := Head, Some(""), Some(""), [];
      output, lines, batches := [], [], [];
      new;
      assert AsyncLogging.Leads(INITIAL, [], Value(), capacity);
      ReachableInv(Value(), [], capacity);
    }

    method Append(line: string)
      requires Valid()
      modifies this
      ensures Valid() && Value() == AsyncLogging.Append(old(Value()), line, capacity)
    {
      hide Inv;
      PointersAreThere(Value(), capacity);
      AppendKeeps(Value(), line, capacity);
      lines := lines + [line];
      if capacity - |currentBuffer.value| > |line| {
        currentBuffer := Some(Put(currentBuffer.value, line, capacity));
      } else {
        buffers := buffers + [currentBuffer.value];
        if nextBuffer.Some? {
          currentBuffer := nextBuffer;
          nextBuffer := None;
        } else {
          currentBuffer := Some("");
        }
        currentBuffer := Some(Put(currentBuffer.value, line, capacity));
      }
    }

    /** The backend's critical section once it holds the lock and need not wait (any more). */
    method TakeBuffers()
      requires Valid() && (place.Head? || place.Waiting?)
      modifies this
      ensures Valid() && Value() == Swap(old(Value()))
    {
      hide Inv;
      PointersAreThere(Value(), capacity);
      SwapKeeps(Value(), capacity);
      buffers := buffers + [currentBuffer.value];
      batches := batches + [buffers];
      currentBuffer := newBuffer1;
      newBuffer1 := None;
      buffersToWrite, buffers := buffers, buffersToWrite;
      if nextBuffer.None? {
        nextBuffer := newBuffer2;
        newBuffer2 := None;
      }
      place := Swapped;
    }

    method DropExcess()
      requires Valid() && place.Swapped?
      modifies this
      ensures Valid() && Value() == Trim(old(Value()))
    {
      hide Inv;
      PointersAreThere(Value(), capacity);
      TrimKeeps(Value(), capacity);
      if |buffersToWrite| > MAX_BATCH {
        output := output + [Notice(|buffersToWrite| - 2)];
        buffersToWrite := buffersToWrite[..2];
      }
      place := Writing(0);
    }

    /** The write loop: the batch goes to the file in order. */
    method WriteAll()
      requires Valid() && place == Writing(0)
      modifies this`output, this`place
      ensures Valid() && place == Writing(|buffersToWrite|)
      ensures |output| == |old(output)| + |buffersToWrite| && output[..|old(output)|] == old(output)
      ensures forall i :: 0 <= i < |buffersToWrite| ==> output[|old(output)| + i] == Text(buffersToWrite[i])
    {
      hide Inv;
      for i := 0 to |buffersToWrite|
        invariant Valid() && place == Writing(i)
        invariant |output| == |old(output)| + i && output[..|old(output)|] == old(output)
        invariant forall k :: 0 <= k < i ==> output[|old(output)| + k] == Text(buffersToWrite[k])
      {
        PointersAreThere(Value(), capacity);
        WriteKeeps(Value(), capacity);
        output := output + [Text(buffersToWrite[i])];
        place := Writing(i + 1);
      }
    }

    method RefillSpares()
      requires Valid() && Enabled(Value(), RecycleSpares)
      modifies this
      ensures Valid() && Value() == Recycle(old(Value()))
    {
      hide Inv;
      PointersAreThere(Value(), capacity);
      StepKeeps(Value(), RecycleSpares, capacity);
      if |buffersToWrite| > 2 {
        buffersToWrite := buffersToWrite[..2];
      }
      if newBuffer1.None? {
        newBuffer1, buffersToWrite := Some(""), buffersToWrite[..|buffersToWrite| - 1];
      }
      if newBuffer2.None? {
        newBuffer2, buffersToWrite := Some(""), buffersToWrite[..|buffersToWrite| - 1];
      }
      buffersToWrite := [];
      place := Head;
    }
  }

  lemma PointersAreThere(s: State, capacity: nat)
    requires Inv(s, capacity)
    ensures SharedOk(s) && SparesOk(s)
  {
  }
}
