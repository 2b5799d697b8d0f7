/** The byte buffer of the wire protocol, its reader, and alignment padding. */
module WireBuffer {
  import opened Types
  import opened Endianness
  import Rotations

  /** `computeAlignmentPadding`; 0 and 1 both mean no alignment. */
  function AlignmentPadding(alignment: nat, currentSize: nat): (padding: nat)
    ensures alignment >= 2 ==> (currentSize + padding) % alignment == 0 && padding < alignment
    ensures alignment < 2 ==> padding == 0
  {
    if 2 > alignment then 0
    else
      var leftover := currentSize % alignment;
      if leftover == 0 then 0
      else
        PaddedUp(alignment, currentSize);
        alignment - leftover
  }

  lemma PaddedUp(a: nat, n: nat)
    requires a > 0
    ensures (n + (a - n % a)) % a == 0
  {
    assert n + (a - n % a) == a * (n / a + 1);
    MultipleMod(a, n / a + 1);
  }

  lemma {:induction false} MultipleMod(a: nat, k: nat)
    requires a > 0
    ensures a * k % a == 0
  {
    if k > 0 {
      MultipleMod(a, k - 1);
      assert a * k == a * (k - 1) + a;
      ModAddSelf(a * (k - 1), a);
    }
  }

  lemma ModAddSelf(x: nat, a: nat)
    requires a > 0
    ensures (x + a) % a == x % a
  {
    Rotations.DivUnique(x + a, a, x / a + 1, x % a);
  }

  function Zeros(n: nat): (z: seq<byte>)
    ensures |z| == n && forall i :: 0 <= i < n ==> z[i] == 0
  {
    seq(n, i => 0)
  }

  /** One thing to put into a buffer: the image of a value or a run of bytes, where it
      falls or at an alignment, or padding. */
  datatype Item =
    | Plain(bytes: seq<byte>)
    | Aligned(bytes: seq<byte>, alignment: nat)
    | Padding(count: nat)
  {
    function Shape(): Shape {
      match this
      case Plain(bytes) => PlainShape(|bytes|)
      case Aligned(bytes, alignment) => AlignedShape(|bytes|, alignment)
      case Padding(count) => PaddingShape(count)
    }

    /** What a reader gets for it; nothing for padding. */
    function Value(): seq<byte> {
      if Padding? then [] else bytes
    }
  }

  /** What a reader must know of an item. */
  datatype Shape =
    | PlainShape(size: nat)
    | AlignedShape(size: nat, alignment: nat)
    | PaddingShape(count: nat)

  function Emit(buf: seq<byte>, item: Item): seq<byte> {
    match item
    case Plain(bytes) => buf + bytes
    case Aligned(bytes, alignment) => buf + Zeros(AlignmentPadding(alignment, |buf|)) + bytes
    case Padding(count) => buf + Zeros(count)
  }

  function EmitAll(buf: seq<byte>, items: seq<Item>): seq<byte>
    decreases |items|
  {
    if items == [] then buf else EmitAll(Emit(buf, items[0]), items[1..])
  }

  /** A read either yields bytes or throws; it may have skipped padding before it throws. */
  datatype ReadResult = Got(value: seq<byte>, pos: nat) | Threw(pos: nat)

  function ReadAt(data: seq<byte>, pos: nat, size: nat): (r: ReadResult)
    requires pos <= |data|
    ensures r.pos <= |data|
  {
    if |data| - pos < size then Threw(pos) else Got(data[pos..pos + size], pos + size)
  }

  function SkipAt(data: seq<byte>, pos: nat, count: nat): (r: ReadResult)
    requires pos <= |data|
    ensures r.pos <= |data|
  {
    if count == 0 then Got([], pos) else if |data| - pos < count then Threw(pos) else Got([], pos + count)
  }

  function Parse(data: seq<byte>, pos: nat, shape: Shape): (r: ReadResult)
    requires pos <= |data|
    ensures r.pos <= |data|
  {
    match shape
    case PlainShape(size) => ReadAt(data, pos, size)
    case PaddingShape(count) => SkipAt(data, pos, count)
    case AlignedShape(size, alignment) =>
      var skipped := SkipAt(data, pos, AlignmentPadding(alignment, pos));
      if skipped.Threw? then skipped else ReadAt(data, skipped.pos, size)
  }

  function ParseAll(data: seq<byte>, pos: nat, shapes: seq<Shape>): Option<(seq<seq<byte>>, nat)>
    requires pos <= |data|
    decreases |shapes|
  {
    if shapes == [] then Some(([], pos))
    else
      var first := Parse(data, pos, shapes[0]);
      if first.Threw? then None
      else
        match ParseAll(data, first.pos, shapes[1..])
        case None => None
        case Some((values, end)) => Some(([first.value] + values, end))
  }

  class Buffer {
    var buf: seq<byte>

    constructor ()
      ensures buf == []
    {
      buf := [];
    }

    /** Serves both for the image of a value and for a byte array. */
    method Append(bytes: seq<byte>)
      modifies this
      ensures buf == Emit(old(buf), Plain(bytes))
    {
      buf := buf + bytes;
    }

    method AppendPadding(bytes: nat)
      modifies this
      ensures buf == Emit(old(buf), Padding(bytes))
    {
      if bytes == 0 {
        assert buf + Zeros(0) == buf;
        return;
      }
      buf := buf + Zeros(bytes);
    }

    method AppendAligned(bytes: seq<byte>, alignment: nat)
      modifies this
      ensures buf == Emit(old(buf), Aligned(bytes, alignment))
    {
      AppendPadding(AlignmentPadding(alignment, |buf|));
      Append(bytes);
    }
  }

  /** A single pass over bytes that do not change meanwhile; false stands for the exception. */
  class BufferReader {
    const data: seq<byte>
    var readIter: nat

    ghost predicate Valid()
      reads this
    {
      readIter <= |data|
    }

    constructor (data: seq<byte>)
      ensures Valid() && this.data == data && readIter == 0
    {
      this.data := data;
      readIter := 0;
    }

    function BytesRemaining(): nat
      requires Valid()
      reads this
    {
      |data| - readIter
    }

    method Read(size: nat) returns (ok: bool, v: seq<byte>)
      requires Valid()
      modifies this
      ensures Valid()
      ensures var r := Parse(data, old(readIter), PlainShape(size));
        readIter == r.pos && ok == r.Got? && (ok ==> v == r.value)
    {
      if BytesRemaining() < size {
        return false, [];
      }
      v := data[readIter..readIter + size];
      readIter := readIter + size;
      ok := true;
    }

    /** Returns where the bytes begin; copying them is left to the caller. */
    method ReadBytes(n: nat) returns (ok: bool, begin: nat)
      requires Valid()
      modifies this
      ensures Valid()
      ensures var r := Parse(data, old(readIter), PlainShape(n));
        readIter == r.pos && ok == r.Got? && (ok ==> begin + n <= |data| && data[begin..begin + n] == r.value)
    {
      if BytesRemaining() < n {
        return false, 0;
      }
      begin := readIter;
      readIter := readIter + n;
      ok := true;
    }

    method SkipPadding(bytes: nat) returns (ok: bool)
      requires Valid()
      modifies this
      ensures Valid()
      ensures var r := Parse(data, old(readIter), PaddingShape(bytes)); readIter == r.pos && ok == r.Got?
    {
      if bytes == 0 {
        return true;
      }
      if BytesRemaining() < bytes {
        return false;
      }
      readIter := readIter + bytes;
      ok := true;
    }

    method ReadAligned(size: nat, alignment: nat) returns (ok: bool, v: seq<byte>)
      requires Valid()
      modifies this
      ensures Valid()
      ensures var r := Parse(data, old(readIter), AlignedShape(size, alignment));
        readIter == r.pos && ok == r.Got? && (ok ==> v == r.value)
    {
      ok := SkipPadding(AlignmentPadding(alignment, readIter));
      if !ok {
        return false, [];
      }
      ok, v := Read(size);
    }

    method ReadBytesAligned(n: nat, alignment: nat) returns (ok: bool, begin: nat)
      requires Valid()
      modifies this
      ensures Valid()
      ensures var r := Parse(data, old(readIter), AlignedShape(n, alignment));
        readIter == r.pos && ok == r.Got? && (ok ==> begin + n <= |data| && data[begin..begin + n] == r.value)
    {
      ok := SkipPadding(AlignmentPadding(alignment, readIter));
      if !ok {
        return false, 0;
      }
      ok, begin := ReadBytes(n);
    }
  }

  // ----- Appending

  /** No append changes bytes that are already there. */
  lemma {:induction false} EmitAllExtends(buf: seq<byte>, items: seq<Item>)
    ensures buf <= EmitAll(buf, items)
    decreases |items|
  {
    if items != [] {
      EmitAllExtends(Emit(buf, items[0]), items[1..]);
      assert buf <= Emit(buf, items[0]);
    }
  }

  /** An aligned item begins at a multiple of its alignment, after fewer zero bytes than that. */
  lemma AlignedStart(buf: seq<byte>, bytes: seq<byte>, alignment: nat) returns (start: nat)
    requires alignment >= 2
    ensures |buf| <= start < |buf| + alignment && start % alignment == 0
    ensures Emit(buf, Aligned(bytes, alignment)) == buf + Zeros(start - |buf|) + bytes
  {
    start := |buf| + AlignmentPadding(alignment, |buf|);
  }

  // ----- Round trip

  function Shapes(items: seq<Item>): (shapes: seq<Shape>)
    ensures |shapes| == |items|
  {
    seq(|items|, i requires 0 <= i < |items| => items[i].Shape())
  }

  function Values(items: seq<Item>): (values: seq<seq<byte>>)
    ensures |values| == |items|
  {
    seq(|items|, i requires 0 <= i < |items| => items[i].Value())
  }

  /** Reading an item where it was put gives its value and ends where it ends. */
  lemma ParseEmitted(buf: seq<byte>, item: Item, rest: seq<byte>)
    ensures Parse(Emit(buf, item) + rest, |buf|, item.Shape()) == Got(item.Value(), |Emit(buf, item)|)
  {
    var data := Emit(buf, item) + rest;
    match item
    case Plain(bytes) =>
      assert data[|buf|..|buf| + |bytes|] == bytes;
    case Aligned(bytes, alignment) =>
      var start := |buf| + AlignmentPadding(alignment, |buf|);
      assert data[start..start + |bytes|] == bytes;
    case Padding(_) =>
  }

  lemma {:induction false} ParseAllEmitted(buf: seq<byte>, items: seq<Item>, rest: seq<byte>)
    ensures |buf| <= |EmitAll(buf, items) + rest|
    ensures ParseAll(EmitAll(buf, items) + rest, |buf|, Shapes(items)) == Some((Values(items), |EmitAll(buf, items)|))
    decreases |items|
  {
    EmitAllExtends(buf, items);
    if items != [] {
      FirstParsed(buf, items, rest);
      ParseAllEmitted(Emit(buf, items[0]), items[1..], rest);
      ShapesAndValues(items);
    }
  }

  lemma ShapesAndValues(items: seq<Item>)
    requires items != []
    ensures Shapes(items)[0] == items[0].Shape() && Shapes(items)[1..] == Shapes(items[1..])
    ensures Values(items) == [items[0].Value()] + Values(items[1..])
  {
  }

  /** The first of several reads. */
  lemma FirstParsed(buf: seq<byte>, items: seq<Item>, rest: seq<byte>)
    requires items != []
    ensures |buf| <= |EmitAll(buf, items) + rest|
    ensures Parse(EmitAll(buf, items) + rest, |buf|, items[0].Shape()) == Got(items[0].Value(), |Emit(buf, items[0])|)
  {
    var next := Emit(buf, items[0]);
    EmitAllExtends(next, items[1..]);
    ParseWithin(buf, items[0], EmitAll(buf, items) + rest);
  }

  lemma ParseWithin(buf: seq<byte>, item: Item, data: seq<byte>)
    requires Emit(buf, item) <= data
    ensures |buf| <= |data| && Parse(data, |buf|, item.Shape()) == Got(item.Value(), |Emit(buf, item)|)
  {
    var next := Emit(buf, item);
    assert data == next + data[|next|..];
    ParseEmitted(buf, item, data[|next|..]);
  }

  /** Whatever is appended to an empty buffer can be read back by the same sequence of reads:
      none throws, the values come back, and the whole buffer is consumed. */
  lemma RoundTrip(items: seq<Item>)
    ensures var data := EmitAll([], items);
      ParseAll(data, 0, Shapes(items)) == Some((Values(items), |data|))
  {
    ParseAllEmitted([], items, []);
    assert EmitAll([], items) + [] == EmitAll([], items);
  }

  /** Where the reads end; it depends on the shapes alone. */
  function End(pos: nat, shapes: seq<Shape>): (end: nat)
    ensures end >= pos
    decreases |shapes|
  {
    if shapes == [] then pos
    else
      var next := match shapes[0]
        case PlainShape(size) => pos + size
        case PaddingShape(count) => pos + count
        case AlignedShape(size, alignment) => pos + AlignmentPadding(alignment, pos) + size;
      End(next, shapes[1..])
  }

  /** A sequence of reads throws if and only if the data ends before the last of them does. */
  lemma {:induction false} ThrowsIffShort(data: seq<byte>, pos: nat, shapes: seq<Shape>)
    requires pos <= |data|
    ensures ParseAll(data, pos, shapes).Some? <==> End(pos, shapes) <= |data|
    ensures ParseAll(data, pos, shapes).Some? ==> ParseAll(data, pos, shapes).value.1 == End(pos, shapes)
    decreases |shapes|
  {
    if shapes != [] {
      var first := Parse(data, pos, shapes[0]);
      if first.Got? {
        ThrowsIffShort(data, first.pos, shapes[1..]);
      }
    }
  }

  /** A read that throws has consumed nothing but, at most, the padding before an aligned item. */
  lemma ThrowConsumes(data: seq<byte>, pos: nat, shape: Shape)
    requires pos <= |data| && Parse(data, pos, shape).Threw?
    ensures var after := Parse(data, pos, shape).pos;
      && pos <= after <= |data|
      && (!shape.AlignedShape? ==> after == pos)
      && (after != pos ==> shape.alignment >= 2 && after % shape.alignment == 0 && after - pos < shape.alignment)
    ensures Parse(data, Parse(data, pos, shape).pos, PlainShape(|data| - Parse(data, pos, shape).pos))
            == Got(data[Parse(data, pos, shape).pos..], |data|)
  {
  }

  /** An aligned read throws in one of two ways: the padding does not fit and nothing is
      consumed, or it fits and is consumed, and the item does not fit. */
  lemma AlignedThrowIff(data: seq<byte>, pos: nat, size: nat, alignment: nat)
    requires pos <= |data|
    ensures var r, start := Parse(data, pos, AlignedShape(size, alignment)), pos + AlignmentPadding(alignment, pos);
      r.Threw? <==> start + size > |data|
    ensures var r, start := Parse(data, pos, AlignedShape(size, alignment)), pos + AlignmentPadding(alignment, pos);
      r.Threw? ==> r.pos == if start <= |data| then start else pos
  {
  }

  /** A buffer that lost its last bytes cannot be read to the end. */
  lemma TruncatedThrows(items: seq<Item>, cut: nat)
    requires cut < |EmitAll([], items)|
    ensures ParseAll(EmitAll([], items)[..cut], 0, Shapes(items)) == None
  {
    RoundTrip(items);
    ThrowsIffShort(EmitAll([], items), 0, Shapes(items));
    ThrowsIffShort(EmitAll([], items)[..cut], 0, Shapes(items));
  }

  // ----- Numbers between hosts

  /** An unsigned integer of w bytes, or a double given by its IEEE bits. */
  datatype Number = Integer(v: nat, w: nat) | Double(v: nat)
  {
    function Size(): nat {
      if Integer? then w else 8
    }

    predicate Fits() {
      v < Capacity(Size())
    }
  }

  /** The memory image of a number. */
  function Image(host: Host, n: Number): (image: seq<byte>)
    requires n.Fits()
    ensures |image| == n.Size()
  {
    if n.Integer? then ToHost(host.order, n.v, n.w) else DoubleImage(host, n.v)
  }

  /** The number that a memory image is of. */
  function ValueOf(host: Host, isDouble: bool, image: seq<byte>): nat {
    FromHost(host.order, if isDouble && host.mixedDoubles then SwapWords(image) else image)
  }

  lemma ValueOfImage(host: Host, n: Number)
    requires n.Fits()
    ensures ValueOf(host, n.Double?, Image(host, n)) == n.v
  {
    HostRoundTrip(host.order, n.v, n.Size());
    if n.Double? {
      SwapWordsTwice(ToHost(host.order, n.v, 8));
    }
  }

  /** What the conversion between host and network order does to a memory image. */
  function Convert(host: Host, isDouble: bool, image: seq<byte>): (r: seq<byte>)
    ensures |r| == |image|
  {
    if isDouble then HtonDouble(host, image) else TypePunHton(host.order, image)
  }

  /** A number as the serialization layer appends it: in network order, aligned to its size. */
  function NumberItem(host: Host, n: Number): Item
    requires n.Fits()
  {
    Aligned(Convert(host, n.Double?, Image(host, n)), n.Size())
  }

  /** What deserialization makes of the bytes it reads. */
  function ReadNumber(host: Host, isDouble: bool, bytes: seq<byte>): nat {
    ValueOf(host, isDouble, Convert(host, isDouble, bytes))
  }

  function NumberItems(host: Host, numbers: seq<Number>): (items: seq<Item>)
    requires forall i :: 0 <= i < |numbers| ==> numbers[i].Fits()
    ensures |items| == |numbers|
  {
    seq(|numbers|, i requires 0 <= i < |numbers| => NumberItem(host, numbers[i]))
  }

  /** An integer's memory image is converted just as its value is. */
  lemma ConvertInteger(host: Host, v: nat, w: nat)
    requires v < Capacity(w)
    ensures Convert(host, false, ToHost(host.order, v, w)) == ToHost(host.order, HtonInt(host.order, v, w), w)
  {
    HostRoundTrip(host.order, v, w);
  }

  lemma ConvertTwice(host: Host, n: Number)
    requires n.Fits()
    ensures Convert(host, n.Double?, Image(host, n)) == NetworkBytes(n.v, n.Size())
    ensures Convert(host, n.Double?, NetworkBytes(n.v, n.Size())) == Image(host, n)
  {
    var image := Image(host, n);
    if n.Integer? {
      ConvertInteger(host, n.v, n.w);
      ImageOfHton(host.order, n.v, n.w);
      TypePunImage(host.order, image);
      TypePunImage(host.order, NetworkBytes(n.v, n.w));
      ReverseTwice(image);
    } else {
      DoubleWireFormat(host, n.v);
      HtonDoubleInvolutive(host, image);
    }
  }

  /** A number has the same bytes on the wire from every host, and every host reads the number from them. */
  lemma NumberCrosses(from: Host, to: Host, n: Number)
    requires n.Fits()
    ensures NumberItem(from, n) == Aligned(NetworkBytes(n.v, n.Size()), n.Size())
    ensures ReadNumber(to, n.Double?, NetworkBytes(n.v, n.Size())) == n.v
  {
    ConvertTwice(from, n);
    ConvertTwice(to, n);
    ValueOfImage(to, n);
  }

  /** Numbers written on one host, integers and doubles, are read back on any other: the bytes are
      the same on every host, and reading them gives the values. */
  lemma NumbersCross(from: Host, to: Host, numbers: seq<Number>)
    requires forall i :: 0 <= i < |numbers| ==> numbers[i].Fits()
    ensures NumberItems(from, numbers) == NumberItems(to, numbers)
    ensures var data := EmitAll([], NumberItems(from, numbers));
      var parsed := ParseAll(data, 0, Shapes(NumberItems(to, numbers)));
      && parsed.Some? && parsed.value.1 == |data| && |parsed.value.0| == |numbers|
      && forall i :: 0 <= i < |numbers| ==> ReadNumber(to, numbers[i].Double?, parsed.value.0[i]) == numbers[i].v
  {
    forall i | 0 <= i < |numbers|
      ensures NumberItems(from, numbers)[i] == NumberItems(to, numbers)[i]
      ensures ReadNumber(to, numbers[i].Double?, NumberItems(from, numbers)[i].Value()) == numbers[i].v
    {
      NumberCrosses(from, to, numbers[i]);
      NumberCrosses(to, to, numbers[i]);
    }
    RoundTrip(NumberItems(from, numbers));
  }
}
