/** Memory images of numbers, byte orders, and the conversion between host and network order. */
module Endianness {
  import Rotations

  type byte = b: int | 0 <= b < 256

  datatype ByteOrder = LittleEndian | BigEndian

  /** A host: its byte order, and whether its doubles have the other word order. */
  datatype Host = Host(order: ByteOrder, mixedDoubles: bool)

  function Reverse(s: seq<byte>): (r: seq<byte>)
    ensures |r| == |s| && forall i :: 0 <= i < |s| ==> r[i] == s[|s| - 1 - i]
  {
    seq(|s|, i requires 0 <= i < |s| => s[|s| - 1 - i])
  }

  lemma ReverseTwice(s: seq<byte>)
    ensures Reverse(Reverse(s)) == s
  {
  }

  /** How many values w bytes can hold. */
  function Capacity(w: nat): (c: nat)
    ensures c > 0
  {
    if w == 0 then 1 else 256 * Capacity(w - 1)
  }

  /** The bytes of v, least significant first. */
  function ToLittle(v: nat, w: nat): (bytes: seq<byte>)
    requires v < Capacity(w)
    ensures |bytes| == w
  {
    if w == 0 then [] else [v % 256] + ToLittle(v / 256, w - 1)
  }

  function FromLittle(bytes: seq<byte>): (v: nat)
    ensures v < Capacity(|bytes|)
  {
    if bytes == [] then 0 else bytes[0] + 256 * FromLittle(bytes[1..])
  }

  lemma {:induction false} FromToLittle(v: nat, w: nat)
    requires v < Capacity(w)
    ensures FromLittle(ToLittle(v, w)) == v
  {
    if w > 0 {
      FromToLittle(v / 256, w - 1);
      assert ToLittle(v, w)[1..] == ToLittle(v / 256, w - 1);
    }
  }

  lemma {:induction false} ToFromLittle(bytes: seq<byte>)
    ensures ToLittle(FromLittle(bytes), |bytes|) == bytes
  {
    if bytes != [] {
      ToFromLittle(bytes[1..]);
      var v := FromLittle(bytes);
      assert v % 256 == bytes[0] && v / 256 == FromLittle(bytes[1..]);
    }
  }

  /** The memory image of an unsigned integer of w bytes. */
  function ToHost(order: ByteOrder, v: nat, w: nat): (bytes: seq<byte>)
    requires v < Capacity(w)
    ensures |bytes| == w
  {
    if order.LittleEndian? then ToLittle(v, w) else Reverse(ToLittle(v, w))
  }

  function FromHost(order: ByteOrder, bytes: seq<byte>): (v: nat)
    ensures v < Capacity(|bytes|)
  {
    if order.LittleEndian? then FromLittle(bytes) else FromLittle(Reverse(bytes))
  }

  lemma HostRoundTrip(order: ByteOrder, v: nat, w: nat)
    requires v < Capacity(w)
    ensures FromHost(order, ToHost(order, v, w)) == v
  {
    FromToLittle(v, w);
    ReverseTwice(ToLittle(v, w));
  }

  lemma ImageRoundTrip(order: ByteOrder, bytes: seq<byte>)
    ensures ToHost(order, FromHost(order, bytes), |bytes|) == bytes
  {
    ToFromLittle(bytes);
    ToFromLittle(Reverse(bytes));
    ReverseTwice(bytes);
  }

  /** The bytes of v in network order, most significant first. */
  function NetworkBytes(v: nat, w: nat): (bytes: seq<byte>)
    requires v < Capacity(w)
    ensures |bytes| == w
  {
    ToHost(BigEndian, v, w)
  }

  lemma {:induction false} LastByteOfLittle(v: nat, w: nat)
    requires v < Capacity(w + 1)
    ensures v % Capacity(w) < Capacity(w) && v / Capacity(w) < 256
    ensures ToLittle(v, w + 1) == ToLittle(v % Capacity(w), w) + [v / Capacity(w)]
  {
    if w > 0 {
      var c := Capacity(w - 1);
      LastByteOfLittle(v / 256, w - 1);
      SplitDigit(v, c);
      assert ToLittle(v % Capacity(w), w) == [v % 256] + ToLittle(v / 256 % c, w - 1);
    }
  }

  /** Taking off the lowest digit and then the highest one. */
  lemma SplitDigit(v: nat, c: nat)
    requires c > 0
    ensures v % (256 * c) < 256 * c && v % (256 * c) % 256 == v % 256 && v % (256 * c) / 256 == v / 256 % c
    ensures v / (256 * c) == v / 256 / c
  {
    var low, rest := v % 256, v / 256;
    var mid, high := rest % c, rest / c;
    assert v == 256 * (c * high + mid) + low;
    assert v == 256 * c * high + (256 * mid + low);
    assert 256 * mid + low < 256 * c;
    Rotations.DivUnique(v, 256 * c, high, 256 * mid + low);
  }

  /** Network order puts the most significant byte first. */
  lemma MostSignificantFirst(v: nat, w: nat)
    requires v < Capacity(w + 1)
    ensures v % Capacity(w) < Capacity(w) && v / Capacity(w) < 256
    ensures NetworkBytes(v, w + 1) == [v / Capacity(w)] + NetworkBytes(v % Capacity(w), w)
  {
    LastByteOfLittle(v, w);
    var low, all := ToLittle(v % Capacity(w), w), ToLittle(v, w + 1);
    assert Reverse(low + [v / Capacity(w)]) == [v / Capacity(w)] + Reverse(low);
  }

  // ----- Integers

  /** `genericByteSwap`: the memory image of the result is that of the argument, reversed. */
  method GenericByteSwap(v: array<byte>) returns (ret: array<byte>)
    ensures fresh(ret) && ret[..] == Reverse(v[..])
  {
    ret := new byte[v.Length];
    for i := 0 to v.Length
      invariant forall j :: 0 <= j < i ==> ret[j] == v[v.Length - 1 - j]
    {
      ret[i] := v[v.Length - 1 - i];
    }
  }

  function IntegerByteSwap(order: ByteOrder, v: nat, w: nat): (r: nat)
    requires v < Capacity(w)
    ensures r < Capacity(w)
  {
    FromHost(order, Reverse(ToHost(order, v, w)))
  }

  /** Host to network order; the other direction is defined to be the same function. */
  function HtonInt(order: ByteOrder, v: nat, w: nat): (r: nat)
    requires v < Capacity(w)
    ensures r < Capacity(w)
  {
    if order.BigEndian? then v else IntegerByteSwap(order, v, w)
  }

  lemma ImageOfHton(order: ByteOrder, v: nat, w: nat)
    requires v < Capacity(w)
    ensures ToHost(order, HtonInt(order, v, w), w) == NetworkBytes(v, w)
  {
    ImageRoundTrip(order, Reverse(ToHost(order, v, w)));
  }

  /** Converting twice gives the value back, on either kind of host. */
  lemma HtonIntInvolutive(order: ByteOrder, v: nat, w: nat)
    requires v < Capacity(w)
    ensures HtonInt(order, HtonInt(order, v, w), w) == v
  {
    ImageOfHton(order, v, w);
    if order.LittleEndian? {
      assert Reverse(ToHost(order, HtonInt(order, v, w), w)) == ToLittle(v, w) by {
        ReverseTwice(ToLittle(v, w));
      }
      FromToLittle(v, w);
    }
  }

  // ----- Doubles, given by their memory images

  /** Conversion by punning the image as an integer and back. */
  function TypePunHton(order: ByteOrder, image: seq<byte>): (r: seq<byte>)
    ensures |r| == |image|
  {
    ToHost(order, HtonInt(order, FromHost(order, image), |image|), |image|)
  }

  function SwapWords(image: seq<byte>): (r: seq<byte>)
    ensures |r| == |image|
  {
    image[|image| / 2..] + image[..|image| / 2]
  }

  function HtonDouble(host: Host, image: seq<byte>): (r: seq<byte>)
    ensures |r| == |image|
  {
    if host.mixedDoubles then SwapWords(TypePunHton(host.order, image)) else TypePunHton(host.order, image)
  }

  /** Punning amounts to reversing the image on little-endian hosts and to nothing on big-endian ones. */
  lemma TypePunImage(order: ByteOrder, image: seq<byte>)
    ensures TypePunHton(order, image) == if order.BigEndian? then image else Reverse(image)
  {
    ImageOfHton(order, FromHost(order, image), |image|);
    ImageRoundTrip(order, image);
  }

  lemma SwapWordsTwice(image: seq<byte>)
    requires |image| % 2 == 0
    ensures SwapWords(SwapWords(image)) == image
    ensures SwapWords(Reverse(image)) == Reverse(SwapWords(image))
  {
  }

  /** Converting a double twice gives it back, on every kind of host. */
  lemma HtonDoubleInvolutive(host: Host, image: seq<byte>)
    requires |image| == 8
    ensures HtonDouble(host, HtonDouble(host, image)) == image
  {
    var once := TypePunHton(host.order, image);
    TypePunImage(host.order, image);
    TypePunImage(host.order, once);
    TypePunImage(host.order, SwapWords(once));
    ReverseTwice(image);
    SwapWordsTwice(image);
    SwapWordsTwice(once);
    ReverseTwice(SwapWords(image));
  }

  /** The memory image of the double with these IEEE bits. */
  function DoubleImage(host: Host, bits: nat): (image: seq<byte>)
    requires bits < Capacity(8)
    ensures |image| == 8
  {
    if host.mixedDoubles then SwapWords(ToHost(host.order, bits, 8)) else ToHost(host.order, bits, 8)
  }

  /** What goes on the wire does not depend on the host: it is the IEEE bits in network order. */
  lemma DoubleWireFormat(host: Host, bits: nat)
    requires bits < Capacity(8)
    ensures HtonDouble(host, DoubleImage(host, bits)) == NetworkBytes(bits, 8)
  {
    var image := ToHost(host.order, bits, 8);
    TypePunImage(host.order, DoubleImage(host, bits));
    SwapWordsTwice(image);
    SwapWordsTwice(Reverse(image));
  }
}
