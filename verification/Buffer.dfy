/** src/port/Buffer.h and src/port/Buffer.cpp: a byte queue over a growable array, with room
    kept in front for prepending. A View is what a caller can see of it; the class at the end
    is the array and its two indices. */
module Buffer {
  import opened Sequences

  type Byte = b: int | 0 <= b < 256

  const CHEAP_PREPEND: nat := 8
  const INITIAL_SIZE: nat := 1024
  const EXTRA_SIZE: nat := 65536

  /** The readable bytes, the room in front of them, and the size of the array. */
  datatype View = View(content: seq<Byte>, prependable: nat, size: nat) {
    /** 0 <= readerIndex <= writerIndex <= size, and the array holds its prepend area. */
    predicate Valid() { prependable + |content| <= size && CHEAP_PREPEND <= size }

    function Writable(): nat
      requires Valid()
    {
      size - prependable - |content|
    }
  }

  const EMPTY: View := View([], CHEAP_PREPEND, CHEAP_PREPEND + INITIAL_SIZE)

  // ---------- The operations ----------

  function Retrieve(v: View, len: nat): View
    requires v.Valid() && len <= |v.content|
  {
    if len < |v.content| then View(v.content[len..], v.prependable + len, v.size)
    else View([], CHEAP_PREPEND, v.size)
  }

  /** Compact in place if that is enough, otherwise grow to fit exactly. */
  function MakeSpace(v: View, len: nat): View
    requires v.Valid()
  {
    if v.Writable() + v.prependable < len + CHEAP_PREPEND
    then v.(size := v.prependable + |v.content| + len)
    else v.(prependable := CHEAP_PREPEND)
  }

  function EnsureWritable(v: View, len: nat): View
    requires v.Valid()
  {
    if v.Writable() < len then MakeSpace(v, len) else v
  }

  function Append(v: View, bytes: seq<Byte>): View
    requires v.Valid()
  {
    var w := EnsureWritable(v, |bytes|);
    w.(content := w.content + bytes)
  }

  function Prepend(v: View, bytes: seq<Byte>): View
    requires v.Valid() && |bytes| <= v.prependable
  {
    View(bytes + v.content, v.prependable - |bytes|, v.size)
  }

  function Shrink(v: View, reserve: nat): View
    requires v.Valid()
  {
    Append(EnsureWritable(EMPTY, |v.content| + reserve), v.content)
  }

  /** `readFd` when `readv` delivers `chunk`, into the array first and then into the extra
      buffer on the stack. */
  function ReadChunk(v: View, chunk: seq<Byte>): View
    requires v.Valid() && |chunk| <= v.Writable() + EXTRA_SIZE
  {
    if |chunk| <= v.Writable() then v.(content := v.content + chunk)
    else Append(v.(content := v.content + chunk[..v.Writable()]), chunk[v.Writable()..])
  }

  /** Making space keeps the bytes and makes the space; it allocates only when the free bytes
      at both ends, less the prepend area, are too few, and then no more than needed; and compacting moves the content
      strictly towards the front, which is what the assert of line 316 says. */
  lemma SpaceIsMade(v: View, len: nat)
    requires v.Valid()
    ensures var w := EnsureWritable(v, len);
            && w.Valid() && w.content == v.content && w.Writable() >= len && w.size >= v.size
            && (w.size > v.size <==> v.Writable() + v.prependable < len + CHEAP_PREPEND && v.Writable() < len)
            && (w.size > v.size ==> w.Writable() == len)
            && (w.prependable != v.prependable ==> CHEAP_PREPEND == w.prependable < v.prependable)
  {
  }

  // ---------- A byte queue ----------

  datatype Op = AppendOp(bytes: seq<Byte>) | PrependOp(bytes: seq<Byte>) | RetrieveOp(len: nat)
              | ShrinkOp(reserve: nat) | ReadOp(chunk: seq<Byte>)

  /** What the operation asks of its caller (and, for a read, what `readv` guarantees). */
  predicate Legal(v: View, op: Op) {
    v.Valid() &&
    match op
    case AppendOp(_) => true
    case PrependOp(bytes) => |bytes| <= v.prependable
    case RetrieveOp(len) => len <= |v.content|
    case ShrinkOp(_) => true
    case ReadOp(chunk) => |chunk| <= v.Writable() + EXTRA_SIZE
  }

  function Apply(v: View, op: Op): View
    requires Legal(v, op)
  {
    match op
    case AppendOp(bytes) => Append(v, bytes)
    case PrependOp(bytes) => Prepend(v, bytes)
    case RetrieveOp(len) => Retrieve(v, len)
    case ShrinkOp(reserve) => Shrink(v, reserve)
    case ReadOp(chunk) => ReadChunk(v, chunk)
  }

  /** The same operation on a plain sequence of bytes. */
  function Meaning(s: seq<Byte>, op: Op): seq<Byte> {
    match op
    case AppendOp(bytes) => s + bytes
    case PrependOp(bytes) => bytes + s
    case RetrieveOp(len) => if len <= |s| then s[len..] else []
    case ShrinkOp(_) => s
    case ReadOp(chunk) => s + chunk
  }

  function Replay(s: seq<Byte>, ops: seq<Op>): seq<Byte>
    decreases |ops|
  {
    if ops == [] then s else Replay(Meaning(s, ops[0]), ops[1..])
  }

  predicate Leads(v: View, ops: seq<Op>, v': View)
    decreases |ops|
  {
    if ops == [] then v == v' else Legal(v, ops[0]) && Leads(Apply(v, ops[0]), ops[1..], v')
  }

  lemma StepRefines(v: View, op: Op)
    requires Legal(v, op)
    ensures Apply(v, op).Valid() && Apply(v, op).content == Meaning(v.content, op)
  {
    match op
    case ReadOp(chunk) =>
      if |chunk| > v.Writable() {
        var w := v.Writable();
        assert v.content + chunk[..w] + chunk[w..] == v.content + chunk;
      }
    case _ =>
  }

  /** Any run of operations, with chunks of any size, leaves in the buffer exactly the bytes a
      plain sequence would hold, and the indices in order. */
  lemma {:induction false} RefinesByteSequence(v: View, ops: seq<Op>, v': View)
    requires v.Valid() && Leads(v, ops, v')
    ensures v'.Valid() && v'.content == Replay(v.content, ops)
    decreases |ops|
  {
    if ops != [] {
      StepRefines(v, ops[0]);
      RefinesByteSequence(Apply(v, ops[0]), ops[1..], v');
    }
  }

  /** The prepend area survives everything but prepending. */
  lemma {:induction false} PrependRoomStays(v: View, ops: seq<Op>, v': View)
    requires v.Valid() && v.prependable >= CHEAP_PREPEND && Leads(v, ops, v')
    requires forall op <- ops :: !op.PrependOp?
    ensures v'.prependable >= 8
    decreases |ops|
  {
    if ops != [] {
      StepRefines(v, ops[0]);
      assert ops[0] in ops;
      PrependRoomStays(Apply(v, ops[0]), ops[1..], v');
    }
  }

  /** What else a caller can count on: reading moves no byte, reading everything gives all the
      room back, prepending uses up the room in front only, and shrinking leaves the reserve
      asked for and no more, in an array that is not smaller than a new buffer's. */
  lemma RoomIsAccountedFor(v: View, op: Op)
    requires Legal(v, op)
    ensures var w := Apply(v, op);
            && w.Valid()
            && (op.RetrieveOp? && w.content != [] ==> w.Writable() == v.Writable() && w.size == v.size)
            && (op.RetrieveOp? && w.content == [] ==> w.Writable() == v.size - 8 && w.size == v.size)
            && (op.PrependOp? ==> w.Writable() == v.Writable() && w.size == v.size)
            && (op.ShrinkOp? ==> w.Writable() >= op.reserve && w.prependable == 8
                                 && (w.size == 1032 || w.Writable() == op.reserve))
  {
    StepRefines(v, op);
  }

  // ---------- Integers in network byte order ----------

  function Pow256(n: nat): (p: nat)
    ensures p > 0
  {
    if n == 0 then 1 else 256 * Pow256(n - 1)
  }

  /** The `n` bytes of `u` in the memory of a little-endian host. */
  function HostBytes(u: nat, n: nat): seq<Byte> {
    if n == 0 then [] else [u % 256] + HostBytes(u / 256, n - 1)
  }

  function HostValue(bytes: seq<Byte>): nat {
    if bytes == [] then 0 else bytes[0] + 256 * HostValue(bytes[1..])
  }

  /** `htobe16`, `htobe32` and their inverses. */
  function SwapBytes(u: nat, n: nat): nat { HostValue(Reverse(HostBytes(u, n))) }

  predicate InRange(x: int, n: nat) { 0 <= 2 * x + Pow256(n) < 2 * Pow256(n) }

  /** The bits of a signed integer of `n` bytes, and back. */
  function Bits(x: int, n: nat): nat
    requires InRange(x, n)
  {
    if x < 0 then x + Pow256(n) else x
  }

  function Signed(u: nat, n: nat): int { if 2 * u < Pow256(n) then u else u - Pow256(n) }

  /** The bytes `appendInt` puts into the buffer. */
  function EncodeInt(x: int, n: nat): seq<Byte>
    requires InRange(x, n)
  {
    HostBytes(SwapBytes(Bits(x, n), n), n)
  }

  /** The integer `peekInt` makes of the bytes at the front. */
  function DecodeInt(bytes: seq<Byte>): int {
    Signed(SwapBytes(HostValue(bytes), |bytes|), |bytes|)
  }

  lemma {:induction false} BytesOfValue(bytes: seq<Byte>)
    ensures HostValue(bytes) < Pow256(|bytes|)
    ensures HostBytes(HostValue(bytes), |bytes|) == bytes
  {
    if bytes != [] { BytesOfValue(bytes[1..]); }
  }

  lemma {:induction false} ValueOfBytes(u: nat, n: nat)
    requires u < Pow256(n)
    ensures |HostBytes(u, n)| == n && HostValue(HostBytes(u, n)) == u
  {
    if n > 0 {
      assert u / 256 < Pow256(n - 1);
      ValueOfBytes(u / 256, n - 1);
      assert HostBytes(u, n)[1..] == HostBytes(u / 256, n - 1);
    }
  }

  /** Swapping twice is the identity, and what is in memory afterwards is the bytes reversed. */
  lemma SwapTwice(u: nat, n: nat)
    requires u < Pow256(n)
    ensures SwapBytes(u, n) < Pow256(n) && SwapBytes(SwapBytes(u, n), n) == u
    ensures HostBytes(SwapBytes(u, n), n) == Reverse(HostBytes(u, n))
  {
    ValueOfBytes(u, n);
    var bytes := HostBytes(u, n);
    ReverseTwice(bytes);
    BytesOfValue(Reverse(bytes));
  }

  /** What is appended (or prepended) as an integer of any width is read back as that integer. */
  lemma IntRoundTrip(x: int, n: nat)
    requires InRange(x, n)
    ensures |EncodeInt(x, n)| == n && DecodeInt(EncodeInt(x, n)) == x
    ensures EncodeInt(x, n) == Reverse(HostBytes(Bits(x, n), n))
  {
    var u := Bits(x, n);
    SwapTwice(u, n);
    ValueOfBytes(SwapBytes(u, n), n);
  }

  lemma DivideTwice(u: nat, p: nat)
    requires p > 0
    ensures u / 256 / p == u / (256 * p)
  {
    var q, r := u / (256 * p), u % (256 * p);
    assert u == 256 * (p * q) + r by { assert u == (256 * p) * q + r; }
    assert u / 256 == p * q + r / 256;
    QuotientIs(u / 256, p, q, r / 256);
  }

  lemma QuotientIs(u: int, p: int, q: int, r: int)
    requires 0 <= r < p && u == p * q + r
    ensures u / p == q && u % p == r
  {
    var k, m := u / p, u % p;
    assert u == p * k + m;
    Distribute(p, k, q);
    AtLeastOnce(p, k - q);
  }

  lemma Distribute(p: int, k: int, q: int)
    ensures p * (k - q) == p * k - p * q
  {
  }

  lemma AtLeastOnce(p: int, d: int)
    requires p > 0
    ensures d > 0 ==> p * d >= p
    ensures d < 0 ==> p * d + p <= 0
  {
    if d < 0 { assert p * (d + 1) <= 0; }
  }

  lemma {:induction false} HostByteAt(u: nat, n: nat, k: nat)
    requires k < n
    ensures |HostBytes(u, n)| == n && HostBytes(u, n)[k] == u / Pow256(k) % 256
  {
    if n > 1 {
      HostByteAt(u / 256, n - 1, if k > 0 then k - 1 else 0);
    }
    if k > 0 {
      DivideTwice(u, Pow256(k - 1));
    }
  }

  lemma {:induction false} HostValuePush(bytes: seq<Byte>, b: Byte)
    ensures HostValue(bytes + [b]) == HostValue(bytes) + Pow256(|bytes|) * b
  {
    if bytes == [] {
      assert bytes + [b] == [b] && HostValue([b][1..]) == 0;
    } else {
      HostValuePush(bytes[1..], b);
      assert (bytes + [b])[1..] == bytes[1..] + [b];
      assert 256 * (Pow256(|bytes| - 1) * b) == Pow256(|bytes|) * b;
    }
  }

  /** Bytes as a number, the first one the most significant. */
  function NetworkValue(bytes: seq<Byte>): nat {
    if bytes == [] then 0 else bytes[0] * Pow256(|bytes| - 1) + NetworkValue(bytes[1..])
  }

  lemma {:induction false} ReversedIsNetwork(bytes: seq<Byte>)
    ensures HostValue(Reverse(bytes)) == NetworkValue(bytes)
  {
    if bytes != [] {
      ReversedIsNetwork(bytes[1..]);
      ReverseLength(bytes[1..]);
      HostValuePush(Reverse(bytes[1..]), bytes[0]);
    }
  }

  lemma SmallModulo(x: int, n: nat)
    requires InRange(x, n)
    ensures Bits(x, n) == x % Pow256(n)
  {
    QuotientIs(x, Pow256(n), if x < 0 then -1 else 0, Bits(x, n));
  }

  /** What is on the wire: byte `k` of an integer of `n` bytes is its `k`-th most significant
      one, in two's complement. */
  lemma IntIsBigEndian(x: int, n: nat, k: nat)
    requires InRange(x, n) && k < n
    ensures |EncodeInt(x, n)| == n && EncodeInt(x, n)[k] == x % Pow256(n) / Pow256(n - 1 - k) % 256
  {
    IntRoundTrip(x, n);
    SmallModulo(x, n);
    HostByteAt(Bits(x, n), n, n - 1 - k);
    ReverseIndex(HostBytes(Bits(x, n), n), k);
  }

  /** And any bytes are read as such an integer: the one in range that agrees with them. */
  lemma BytesReadBigEndian(bytes: seq<Byte>)
    ensures var n := |bytes|;
            && InRange(DecodeInt(bytes), n) && DecodeInt(bytes) % Pow256(n) == NetworkValue(bytes)
            && EncodeInt(DecodeInt(bytes), n) == bytes
  {
    hide HostBytes, HostValue, Reverse, Pow256, NetworkValue;
    var n := |bytes|;
    BytesOfValue(bytes);
    ReversedIsNetwork(bytes);
    ReverseTwice(bytes);
    BytesOfValue(Reverse(bytes));
    var u := NetworkValue(bytes);
    assert SwapBytes(HostValue(bytes), n) == u < Pow256(n);
    SmallModulo(Signed(u, n), n);
    SwapTwice(u, n);
  }

  /** Read through the queue: the integer at the front, whatever follows it. */
  lemma IntThroughQueue(v: View, x: int, n: nat)
    requires v.Valid() && InRange(x, n)
    ensures var w := Append(v, EncodeInt(x, n));
            && |w.content| == |v.content| + n
            && DecodeInt(w.content[|v.content|..]) == x && w.content[..|v.content|] == v.content
    ensures n <= v.prependable ==>
              var w := Prepend(v, EncodeInt(x, n));
              && |w.content| == |v.content| + n
              && DecodeInt(w.content[..n]) == x && w.content[n..] == v.content
  {
    IntRoundTrip(x, n);
    var bytes := EncodeInt(x, n);
    assert (v.content + bytes)[|v.content|..] == bytes;
    assert (bytes + v.content)[..n] == bytes;
  }

  // ---------- The object ----------

  class Buffer {
    var data: array<Byte>
    var readerIndex: nat
    var writerIndex: nat

    ghost predicate Valid()
      reads this
    {
      readerIndex <= writerIndex <= data.Length && CHEAP_PREPEND <= data.Length
    }

    ghost function Value(): View
      requires Valid()
      reads this, data
    {
      View(data[readerIndex..writerIndex], readerIndex, data.Length)
    }

    constructor ()
      ensures Valid() && fresh(data) && Value() == EMPTY
    {
      data := new Byte[CHEAP_PREPEND + INITIAL_SIZE];
      readerIndex := CHEAP_PREPEND;
      writerIndex := CHEAP_PREPEND;
    }

    method RetrieveBytes(len: nat)
      requires Valid() && len <= writerIndex - readerIndex
      modifies this`readerIndex, this`writerIndex
      ensures Valid() && Value() == Retrieve(old(Value()), len)
    {
      if len < writerIndex - readerIndex {
        readerIndex := readerIndex + len;
      } else {
        readerIndex := CHEAP_PREPEND;
        writerIndex := CHEAP_PREPEND;
      }
    }

    /** The readable bytes copied one by one, front to back, over themselves. */
    method Compact()
      requires Valid() && CHEAP_PREPEND < readerIndex
      modifies this`readerIndex, this`writerIndex, data
      ensures Valid() && readerIndex == CHEAP_PREPEND
      ensures data[readerIndex..writerIndex] == old(data[readerIndex..writerIndex])
    {
      ghost var bytes := data[readerIndex..writerIndex];
      var readable := writerIndex - readerIndex;
      var i := 0;
      while i < readable
        invariant 0 <= i <= readable && readerIndex == old(readerIndex) && writerIndex == old(writerIndex)
        invariant forall k :: 0 <= k < i ==> data[CHEAP_PREPEND + k] == bytes[k]
        invariant forall k :: i <= k < readable ==> data[readerIndex + k] == bytes[k]
      {
        data[CHEAP_PREPEND + i] := data[readerIndex + i];
        i := i + 1;
      }
      readerIndex := CHEAP_PREPEND;
      writerIndex := readerIndex + readable;
      assert data[readerIndex..writerIndex] == bytes;
    }

    /** `std::vector::resize` to a larger size. */
    method Resize(size: nat)
      requires Valid() && data.Length <= size
      modifies this`data
      ensures Valid() && fresh(data) && data.Length == size
      ensures data[readerIndex..writerIndex] == old(data[readerIndex..writerIndex])
    {
      var larger := new Byte[size](i => 0);
      forall i | 0 <= i < data.Length {
        larger[i] := data[i];
      }
      data := larger;
    }

    method MakeSpaceFor(len: nat)
      requires Valid() && data.Length - writerIndex < len
      modifies this, data
      ensures Valid() && (data == old(data) || fresh(data))
      ensures Value() == MakeSpace(old(Value()), len)
    {
      if data.Length - writerIndex + readerIndex < len + CHEAP_PREPEND {
        Resize(writerIndex + len);
      } else {
        assert CHEAP_PREPEND < readerIndex;
        Compact();
      }
    }

    method EnsureWritableBytes(len: nat)
      requires Valid()
      modifies this, data
      ensures Valid() && (data == old(data) || fresh(data))
      ensures Value() == EnsureWritable(old(Value()), len) && data.Length - writerIndex >= len
    {
      SpaceIsMade(Value(), len);
      if data.Length - writerIndex < len {
        MakeSpaceFor(len);
      }
    }

    /** `std::copy` into the array, from `at` on. */
    method Store(at: nat, bytes: seq<Byte>)
      requires at + |bytes| <= data.Length
      modifies data
      ensures data[..] == old(data[..at]) + bytes + old(data[at + |bytes|..])
    {
      var i := 0;
      while i < |bytes|
        invariant 0 <= i <= |bytes|
        invariant forall k :: 0 <= k < at ==> data[k] == old(data[k])
        invariant forall k :: 0 <= k < i ==> data[at + k] == bytes[k]
        invariant forall k :: at + i <= k < data.Length ==> data[k] == old(data[k])
      {
        data[at + i] := bytes[i];
        i := i + 1;
      }
    }

    method AppendBytes(bytes: seq<Byte>)
      requires Valid()
      modifies this, data
      ensures Valid() && (data == old(data) || fresh(data))
      ensures Value() == Append(old(Value()), bytes)
    {
      hide MakeSpace;
      EnsureWritableBytes(|bytes|);
      StoreAtEnd(bytes);
    }

    /** `std::copy(..., beginWrite()); hasWritten(len);` */
    method StoreAtEnd(bytes: seq<Byte>)
      requires Valid() && writerIndex + |bytes| <= data.Length
      modifies this`writerIndex, data
      ensures Valid() && Value() == old(Value()).(content := old(Value()).content + bytes)
    {
      ghost var before := data[readerIndex..writerIndex];
      Store(writerIndex, bytes);
      writerIndex := writerIndex + |bytes|;
      assert data[readerIndex..writerIndex] == before + bytes;
    }

    method PrependBytes(bytes: seq<Byte>)
      requires Valid() && |bytes| <= readerIndex
      modifies this`readerIndex, data
      ensures Valid() && Value() == Prepend(old(Value()), bytes)
    {
      ghost var before := data[readerIndex..writerIndex];
      readerIndex := readerIndex - |bytes|;
      Store(readerIndex, bytes);
      assert data[readerIndex..writerIndex] == bytes + before;
    }

    method AppendInt(x: int, n: nat)
      requires Valid() && InRange(x, n)
      modifies this, data
      ensures Valid() && (data == old(data) || fresh(data))
      ensures Value() == Append(old(Value()), EncodeInt(x, n))
    {
      var be := SwapBytes(Bits(x, n), n);
      AppendBytes(HostBytes(be, n));
    }

    method ReadInt(n: nat) returns (x: int)
      requires Valid() && n <= writerIndex - readerIndex
      modifies this`readerIndex, this`writerIndex
      ensures Valid() && x == DecodeInt(old(Value()).content[..n]) && Value() == Retrieve(old(Value()), n)
    {
      var be := HostValue(data[readerIndex..readerIndex + n]);
      assert data[readerIndex..readerIndex + n] == data[readerIndex..writerIndex][..n];
      x := Signed(SwapBytes(be, n), n);
      RetrieveBytes(n);
    }

    method ShrinkTo(reserve: nat)
      requires Valid()
      modifies this
      ensures Valid() && fresh(data) && Value() == Shrink(old(Value()), reserve)
    {
      var other := new Buffer();
      other.EnsureWritableBytes(writerIndex - readerIndex + reserve);
      other.AppendBytes(data[readerIndex..writerIndex]);
      data, readerIndex, writerIndex := other.data, other.readerIndex, other.writerIndex;
    }

    /** `chunk` is what `readv` delivers; on an error nothing changes. */
    method ReadFd(error: bool, chunk: seq<Byte>) returns (n: int)
      requires Valid() && |chunk| <= data.Length - writerIndex + EXTRA_SIZE
      modifies this, data
      ensures Valid() && (data == old(data) || fresh(data))
      ensures if error then n < 0 && Value() == old(Value())
              else n == |chunk| && Value() == ReadChunk(old(Value()), chunk)
    {
      hide Append;
      if error { return -1; }
      var writable := data.Length - writerIndex;
      if |chunk| <= writable {
        StoreAtEnd(chunk);
      } else {
        StoreAtEnd(chunk[..writable]);
        AppendBytes(chunk[writable..]);
      }
      n := |chunk|;
    }
  }
}
