/** src/utils/LogStream.cpp and src/utils/LogStream.h: integers turned into text digit by digit
    in a fixed buffer, and the stream of writes that fills it. */
module LogStream {
  import opened CInts
  import opened Sequences

  const MAX_NUMERIC_SIZE: nat := 32
  const ZERO: string := "9876543210123456789"  // index 9 is '0'; a digit may be negative
  const DIGITS_HEX: string := "0123456789ABCDEF"

  // ---------- Numbers as text ----------

  predicate Base(b: nat) { b == 10 || b == 16 }

  function Digit(d: nat): char
    requires d < 16
  {
    DIGITS_HEX[d]
  }

  function DigitValue(c: char): nat {
    if '0' <= c <= '9' then (c - '0') as nat else if 'A' <= c <= 'F' then (c - 'A') as nat + 10 else 0
  }

  /** `n` written in base `b`, most significant digit first. */
  function Digits(n: nat, b: nat): string
    requires Base(b)
  {
    if n < b then [Digit(n)] else Digits(n / b, b) + [Digit(n % b)]
  }

  function Decimal(v: int): string { if v < 0 then "-" + Digits(-v, 10) else Digits(v, 10) }

  /** Reading digits back. */
  function Number(text: string, b: nat): nat {
    if text == "" then 0 else Number(text[..|text| - 1], b) * b + DigitValue(text[|text| - 1])
  }

  function Parse(text: string): int {
    if text != "" && text[0] == '-' then 0 - Number(text[1..], 10) else Number(text, 10)
  }

  function Pow(b: nat, k: nat): nat { if k == 0 then 1 else b * Pow(b, k - 1) }

  lemma {:induction false} DigitsAreNumber(n: nat, b: nat)
    requires Base(b)
    ensures Number(Digits(n, b), b) == n
  {
    if n >= b {
      DigitsAreNumber(n / b, b);
      var text := Digits(n, b);
      assert text[..|text| - 1] == Digits(n / b, b);
      DigitReadsBack(n % b);
      assert n == n / b * b + n % b;
    } else {
      DigitReadsBack(n);
      assert [Digit(n)][..0] == "";
    }
  }

  lemma DigitReadsBack(d: nat)
    requires d < 16
    ensures DigitValue(Digit(d)) == d
  {
  }

  /** No leading zero, and only digits. */
  lemma {:induction false} DigitsAreCanonical(n: nat, b: nat)
    requires Base(b)
    ensures Digits(n, b) != "" && (Digits(n, b)[0] == '0' <==> n == 0)
    ensures forall c <- Digits(n, b) :: c in DIGITS_HEX[..b]
  {
    if n >= b {
      DigitsAreCanonical(n / b, b);
    }
    forall d: nat | d < b ensures Digit(d) in DIGITS_HEX[..b] {
      assert DIGITS_HEX[..b][d] == Digit(d);
    }
  }

  lemma {:induction false} DigitsAreFew(n: nat, b: nat, k: nat)
    requires Base(b) && k > 0 && n < Pow(b, k)
    ensures |Digits(n, b)| <= k
  {
    if n >= b {
      assert k > 1 by { assert Pow(b, 1) == b * Pow(b, 0); }
      assert n / b < Pow(b, k - 1);
      DigitsAreFew(n / b, b, k - 1);
    }
  }

  /** Every 64-bit value, signed or unsigned, prints to text that reads back as the value, with
      no superfluous character, in at most 20 characters. */
  lemma DecimalRoundTrip(v: int)
    ensures Parse(Decimal(v)) == v
    ensures Decimal(v) != "" && (Decimal(v)[0] == '0' <==> v == 0) && (Decimal(v)[0] == '-' <==> v < 0)
    ensures v < 0 ==> |Decimal(v)| > 1 && Decimal(v)[1] != '0'
    ensures forall i :: (if v < 0 then 1 else 0) <= i < |Decimal(v)| ==> '0' <= Decimal(v)[i] <= '9'
    ensures INT64_MIN <= v <= UINT64_MAX ==> |Decimal(v)| <= 20
  {
    hide Digits, Number, Pow;
    var n := if v < 0 then -v else v;
    DigitsAreNumber(n, 10);
    DigitsAreCanonical(n, 10);
    DigitsAreDecimal(Digits(n, 10));
    if v < 0 {
      assert Decimal(v)[1..] == Digits(n, 10);
    }
    if INT64_MIN <= v <= UINT64_MAX {
      PowersOfTen();
      DigitsAreFew(n, 10, if v < 0 then 19 else 20);
    }
  }

  lemma DigitsAreDecimal(text: string)
    requires forall c <- text :: c in DIGITS_HEX[..10]
    ensures forall i :: 0 <= i < |text| ==> '0' <= text[i] <= '9'
  {
    assert DIGITS_HEX[..10] == "0123456789";
    forall i | 0 <= i < |text| ensures '0' <= text[i] <= '9' {
      assert text[i] in "0123456789";
    }
  }

  lemma PowersOfTen()
    ensures Pow(10, 19) == 10_000_000_000_000_000_000 && Pow(10, 20) == 100_000_000_000_000_000_000
    ensures Pow(16, 16) == UINT64_MAX + 1
  {
    assert Pow(10, 5) == 100_000;
    assert Pow(10, 10) == 10_000_000_000;
    assert Pow(10, 15) == 1_000_000_000_000_000;
    assert Pow(10, 19) == 10_000 * Pow(10, 15);
    assert Pow(16, 5) == 0x100000;
    assert Pow(16, 10) == 0x10000000000;
    assert Pow(16, 15) == 0x1000000000000000;
  }

  /** The same for hexadecimal digits, of which there are at most 16. */
  lemma HexRoundTrip(v: nat)
    ensures Number(Digits(v, 16), 16) == v
    ensures Digits(v, 16) != "" && (Digits(v, 16)[0] == '0' <==> v == 0)
    ensures forall c <- Digits(v, 16) :: c in DIGITS_HEX
    ensures v <= UINT64_MAX ==> |Digits(v, 16)| <= 16
  {
    DigitsAreNumber(v, 16);
    DigitsAreCanonical(v, 16);
    if v <= UINT64_MAX {
      PowersOfTen();
      DigitsAreFew(v, 16, 16);
    }
  }

  // ---------- convert ----------

  /** `std::reverse(buf + lo, buf + hi)` */
  method ReverseRange(buf: array<char>, lo: nat, hi: nat)
    requires lo <= hi <= buf.Length
    modifies buf
    ensures buf[..] == old(buf[..lo]) + Reverse(old(buf[lo..hi])) + old(buf[hi..])
  {
    hide Reverse;
    ghost var was := buf[lo..hi];
    var i, j := lo, hi;
    while i < j
      invariant lo <= i && j <= hi && i - lo == hi - j && i <= j + 1
      invariant forall k :: 0 <= k < lo || hi <= k < buf.Length ==> buf[k] == old(buf[k])
      invariant forall k :: i <= k < j ==> buf[k] == was[k - lo]
      invariant forall k :: lo <= k < i || j <= k < hi ==> buf[k] == was[hi - 1 - k]
    {
      j := j - 1;
      buf[i], buf[j] := buf[j], buf[i];
      i := i + 1;
    }
    ReverseLength(was);
    forall k | lo <= k < hi ensures buf[k] == Reverse(was)[k - lo] {
      ReverseIndex(was, k - lo);
    }
    assert buf[lo..hi] == Reverse(was);
    assert buf[..] == buf[..lo] + buf[lo..hi] + buf[hi..];
    assert buf[..lo] == old(buf[..lo]) && buf[hi..] == old(buf[hi..]);
  }

  /** The digits still to come and the digits written, last one first. */
  ghost predicate Emitted(n: nat, b: nat, i: nat, written: string)
    requires Base(b)
  {
    Digits(n, b) == (if i == 0 then "" else Digits(i, b)) + Reverse(written)
  }

  lemma LastDigit(i: nat, b: nat)
    requires Base(b)
    ensures Digits(i, b) == (if i / b == 0 then "" else Digits(i / b, b)) + [Digit(i % b)]
  {
    if b == 10 { assert i < 10 <==> i / 10 == 0; } else { assert i < 16 <==> i / 16 == 0; }
  }

  lemma EmitOne(n: nat, b: nat, i: nat, written: string)
    requires Base(b) && ((Emitted(n, b, i, written) && i > 0) || (written == "" && i == n))
    ensures Emitted(n, b, i / b, written + [Digit(i % b)])
  {
    hide Reverse, Digits;
    ReversePush(written, Digit(i % b));
    ReverseLength(written);
    LastDigit(i, b);
    var rest := if i / b == 0 then "" else Digits(i / b, b);
    assert (rest + [Digit(i % b)]) + Reverse(written) == rest + ([Digit(i % b)] + Reverse(written));
  }

  function Magnitude(i: int): nat { if i < 0 then -i else i }

  /** The digit table works for the negative remainders of C as well. */
  lemma DigitOfRemainder(i: int)
    ensures 0 <= 9 + Rem(i, 10) < 19 && ZERO[9 + Rem(i, 10)] == Digit(Magnitude(i) % 10)
    ensures Magnitude(Quot(i, 10)) == Magnitude(i) / 10
  {
    var d := Magnitude(i) % 10;
    assert Rem(i, 10) == d || Rem(i, 10) == -d;
  }

  /** The loop of `convert`: no value is ever negated, so the minimum is no exception. */
  method EmitDecimal(buf: array<char>, at: nat, value: int) returns (p: nat)
    requires at + |Digits(Magnitude(value), 10)| <= buf.Length
    modifies buf
    ensures at <= p <= buf.Length && Reverse(buf[at..p]) == Digits(Magnitude(value), 10)
    ensures forall k :: 0 <= k < at || p <= k < buf.Length ==> buf[k] == old(buf[k])
  {
    hide Digits, Reverse, Emitted;
    ghost var n := Magnitude(value);
    var i := value;
    p := at;
    var first := true;
    while first || i != 0
      invariant at <= p <= at + |Digits(n, 10)|
      invariant first ==> i == value && p == at
      invariant !first ==> Emitted(n, 10, Magnitude(i), buf[at..p])
      invariant if value < 0 then value <= i <= 0 else 0 <= i <= value
      invariant forall k :: 0 <= k < at || p <= k < buf.Length ==> buf[k] == old(buf[k])
      decreases first, Magnitude(i)
    {
      ghost var written := buf[at..p];
      EmitOne(n, 10, Magnitude(i), written);
      DigitOfRemainder(i);
      var lsd := Rem(i, 10);
      i := Quot(i, 10);
      EmittedIsShort(n, 10, Magnitude(i), written + [ZERO[9 + lsd]]);
      buf[p] := ZERO[9 + lsd];
      p := p + 1;
      first := false;
      assert buf[at..p] == written + [ZERO[9 + lsd]];
    }
    EmittedIsShort(n, 10, 0, buf[at..p]);
  }

  /** `convert<T>` */
  method Convert(buf: array<char>, at: nat, value: int) returns (len: nat)
    requires INT64_MIN <= value <= UINT64_MAX && at + 21 <= buf.Length
    modifies buf
    ensures len <= 20 && buf[at..at + len] == Decimal(value) && buf[at + len] == '\0'
    ensures forall k :: 0 <= k < at || at + 21 <= k < buf.Length ==> buf[k] == old(buf[k])
  {
    hide Digits, Reverse;
    DecimalRoundTrip(value);
    var p := EmitDecimal(buf, at, value);
    ghost var digits := buf[at..p];
    ReverseLength(digits);
    if value < 0 {
      buf[p] := '-';
      p := p + 1;
      assert buf[at..p] == digits + ['-'];
      ReversePush(digits, '-');
    }
    assert Reverse(buf[at..p]) == Decimal(value);
    ReverseLength(buf[at..p]);
    buf[p] := '\0';
    ghost var whole := buf[..];
    ReverseRange(buf, at, p);
    len := p - at;
    assert buf[..] == whole[..at] + Decimal(value) + whole[p..];
  }

  lemma EmittedIsShort(n: nat, b: nat, i: nat, written: string)
    requires Base(b) && Emitted(n, b, i, written)
    ensures |written| <= |Digits(n, b)|
    ensures i == 0 ==> Reverse(written) == Digits(n, b)
  {
    if written != "" { ReverseIndex(written, 0); }
  }

  /** `convertHex` */
  method ConvertHex(buf: array<char>, at: nat, value: nat) returns (len: nat)
    requires value <= UINT64_MAX && at + 17 <= buf.Length
    modifies buf
    ensures len <= 16 && buf[at..at + len] == Digits(value, 16) && buf[at + len] == '\0'
    ensures forall k :: 0 <= k < at || at + 17 <= k < buf.Length ==> buf[k] == old(buf[k])
  {
    hide Digits, Reverse, Emitted;
    HexRoundTrip(value);
    var i := value;
    var p := at;
    var first := true;
    while first || i != 0
      invariant at <= p <= at + |Digits(value, 16)|
      invariant first ==> i == value && p == at
      invariant !first ==> Emitted(value, 16, i, buf[at..p])
      invariant forall k :: 0 <= k < at || at + 17 <= k < buf.Length ==> buf[k] == old(buf[k])
      decreases first, i
    {
      ghost var written := buf[at..p];
      EmitOne(value, 16, i, written);
      var lsd := i % 16;
      i := i / 16;
      EmittedIsShort(value, 16, i, written + [DIGITS_HEX[lsd]]);
      buf[p] := DIGITS_HEX[lsd];
      p := p + 1;
      first := false;
      assert buf[at..p] == written + [DIGITS_HEX[lsd]];
    }
    EmittedIsShort(value, 16, 0, buf[at..p]);
    ReverseLength(buf[at..p]);
    buf[p] := '\0';
    ghost var whole := buf[..];
    ReverseRange(buf, at, p);
    len := p - at;
    assert buf[..] == whole[..at] + Digits(value, 16) + whole[p..];
  }

  // ---------- A stream of writes ----------

  /** What `operator<<` is given: an integer of any built-in type, a pointer, or text. */
  datatype Item = Integer(value: int) | Pointer(address: nat) | Text(text: string)

  predicate ItemOk(item: Item) {
    match item
    case Integer(v) => INT64_MIN <= v <= UINT64_MAX
    case Pointer(a) => a <= UINT64_MAX
    case Text(_) => true
  }

  function Render(item: Item): string {
    match item
    case Integer(v) => Decimal(v)
    case Pointer(a) => "0x" + Digits(a, 16)
    case Text(text) => text
  }

  /** What is written of an item reads back as the item. */
  lemma RenderReadsBack(item: Item)
    ensures match item
            case Integer(v) => Parse(Render(item)) == v
            case Pointer(a) => |Render(item)| > 2 && Render(item)[..2] == "0x" && Number(Render(item)[2..], 16) == a
            case Text(text) => Render(item) == text
  {
    hide Digits, Number;
    match item
    case Integer(v) => DecimalRoundTrip(v);
    case Pointer(a) =>
      HexRoundTrip(a);
      assert Render(item)[..2] == "0x" && Render(item)[2..] == Digits(a, 16);
    case Text(_) =>
  }

  /** Numbers need 32 free characters, text one more than its length; otherwise the item is
      left out as a whole. */
  predicate Fits(content: string, item: Item, size: nat) {
    if item.Text? then size - |content| > |item.text| else size - |content| >= MAX_NUMERIC_SIZE
  }

  function Write(content: string, item: Item, size: nat): string {
    if Fits(content, item, size) then content + Render(item) else content
  }

  function WriteAll(content: string, items: seq<Item>, size: nat): string
    decreases |items|
  {
    if items == [] then content else WriteAll(Write(content, items[0], size), items[1..], size)
  }

  /** One past the last character a write touches, its terminating NUL included. */
  function Reach(content: string, item: Item, size: nat): nat {
    if !Fits(content, item, size) then 0
    else |content| + |Render(item)| + (if item.Text? then 0 else 1)
  }

  lemma WriteStaysInside(content: string, item: Item, size: nat)
    requires |content| < size && ItemOk(item)
    ensures |Write(content, item, size)| < size && Reach(content, item, size) <= size
  {
    match item
    case Integer(v) => DecimalRoundTrip(v);
    case Pointer(a) => HexRoundTrip(a);
    case Text(_) =>
  }

  /** Over any stream of writes the end of the text stays strictly inside the buffer, so there
      is always room for the NUL of `debugString`, and no write reaches past the end. */
  lemma {:induction false} StreamStaysInside(content: string, items: seq<Item>, size: nat, next: Item)
    requires |content| < size && ItemOk(next) && forall item <- items :: ItemOk(item)
    ensures |WriteAll(content, items, size)| < size
    ensures Reach(WriteAll(content, items, size), next, size) <= size
    decreases |items|
  {
    if items == [] {
      WriteStaysInside(content, next, size);
    } else {
      assert items[0] in items;
      WriteStaysInside(content, items[0], size);
      StreamStaysInside(Write(content, items[0], size), items[1..], size, next);
    }
  }

  function Rendered(items: seq<Item>): string {
    if items == [] then "" else Render(items[0]) + Rendered(items[1..])
  }

  lemma TextRendersItself(item: Item)
    ensures item.Text? ==> Render(item) == item.text
  {
  }

  /** While everything leaves 32 characters free the stream is the plain concatenation. */
  lemma {:induction false} NothingDropped(content: string, items: seq<Item>, size: nat)
    requires |content| + |Rendered(items)| + MAX_NUMERIC_SIZE <= size
    ensures WriteAll(content, items, size) == content + Rendered(items)
    decreases |items|
  {
    hide Render;
    if items != [] {
      var c := Write(content, items[0], size);
      assert |Rendered(items)| == |Render(items[0])| + |Rendered(items[1..])|;
      TextRendersItself(items[0]);
      assert c == content + Render(items[0]);
      NothingDropped(c, items[1..], size);
      assert (content + Render(items[0])) + Rendered(items[1..]) == content + (Render(items[0]) + Rendered(items[1..]));
    }
  }

  // ---------- The objects ----------

  class FixedBuffer {
    const data: array<char>
    var cur: nat

    ghost predicate Valid()
      reads this
    {
      cur < data.Length
    }

    ghost function Content(): string
      requires Valid()
      reads this, data
    {
      data[..cur]
    }

    constructor (size: nat)
      requires size > 0
      ensures Valid() && fresh(data) && data.Length == size && Content() == ""
    {
      data := new char[size];
      cur := 0;
    }

    method Append(text: string)
      requires Valid()
      modifies this`cur, data
      ensures Valid() && Content() == Write(old(Content()), Text(text), data.Length)
    {
      if data.Length - cur > |text| {
        ghost var before := data[..cur];
        for i := 0 to |text|
          invariant cur == old(cur) && data[..cur] == before
          invariant forall k :: 0 <= k < i ==> data[cur + k] == text[k]
        {
          data[cur + i] := text[i];
        }
        cur := cur + |text|;
        assert data[..cur] == before + text;
      }
    }
  }

  class Stream {
    const buffer: FixedBuffer

    ghost predicate Valid()
      reads this, buffer
    {
      buffer.Valid()
    }

    constructor (size: nat)
      requires size > 0
      ensures Valid() && fresh(buffer) && fresh(buffer.data) && buffer.data.Length == size && buffer.Content() == ""
    {
      buffer := new FixedBuffer(size);
    }

    /** `formatInteger` */
    method WriteInteger(v: int)
      requires Valid() && ItemOk(Integer(v))
      modifies buffer`cur, buffer.data
      ensures Valid() && buffer.Content() == Write(old(buffer.Content()), Integer(v), buffer.data.Length)
    {
      hide Digits, Decimal;
      if buffer.data.Length - buffer.cur >= MAX_NUMERIC_SIZE {
        ghost var before := buffer.data[..buffer.cur];
        var len := Convert(buffer.data, buffer.cur, v);
        assert buffer.data[..buffer.cur] == before;
        buffer.cur := buffer.cur + len;
        assert buffer.data[..buffer.cur] == before + Decimal(v);
      }
    }

    /** `operator<<(const void*)` */
    method WritePointer(a: nat)
      requires Valid() && ItemOk(Pointer(a))
      modifies buffer`cur, buffer.data
      ensures Valid() && buffer.Content() == Write(old(buffer.Content()), Pointer(a), buffer.data.Length)
    {
      hide Digits;
      if buffer.data.Length - buffer.cur >= MAX_NUMERIC_SIZE {
        var cur := buffer.cur;
        ghost var before := buffer.data[..cur];
        buffer.data[cur] := '0';
        buffer.data[cur + 1] := 'x';
        var len := ConvertHex(buffer.data, cur + 2, a);
        assert buffer.data[..cur] == before;
        buffer.cur := cur + len + 2;
        assert buffer.data[..buffer.cur] == before + ("0x" + Digits(a, 16));
      }
    }

    method WriteText(text: string)
      requires Valid()
      modifies buffer`cur, buffer.data
      ensures Valid() && buffer.Content() == Write(old(buffer.Content()), Text(text), buffer.data.Length)
    {
      buffer.Append(text);
    }
  }
}
