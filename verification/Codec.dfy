/** Fixed-width integers as little-endian octets, the way object dictionary values
    travel in PDOs and SDOs. */
module Codec {
  import opened OctetValues
  import opened Words
  import opened Wrappers

  /** uint8, int8, ... int64: a sign and a size in octets. */
  datatype IntType = IntType(signed: bool, size: nat)

  const UINT8 := IntType(false, 1)
  const INT8 := IntType(true, 1)
  const UINT16 := IntType(false, 2)
  const INT16 := IntType(true, 2)
  const UINT32 := IntType(false, 4)
  const INT32 := IntType(true, 4)

  /** The number of values of so many octets. */
  function Span(size: nat): (n: nat)
    ensures n >= 1 && (size > 0 ==> n % 256 == 0 && n >= 256)
  {
    if size == 0 then 1 else 256 * Span(size - 1)
  }

  function LittleEndian(value: nat, size: nat): (data: Octets)
    ensures |data| == size
  {
    if size == 0 then [] else [Octet(value % 256)] + LittleEndian(value / 256, size - 1)
  }

  function FromLittleEndian(data: Octets): (value: nat)
    ensures value < Span(|data|)
  {
    OctetBelow(data);
    if data == [] then 0 else OctetValue(data[0]) + 256 * FromLittleEndian(data[1..])
  }

  lemma OctetBelow(data: Octets)
    ensures data != [] ==> OctetValue(data[0]) < 256
  {
  }

  predicate InRange(t: IntType, value: int) {
    if t.signed then -(Span(t.size) / 2) <= value < Span(t.size) / 2 else 0 <= value < Span(t.size)
  }

  /** A value outside the type's range is an error. */
  function Encode(t: IntType, value: int): Option<Octets> {
    if !InRange(t, value) then None
    else Some(LittleEndian(if value < 0 then value + Span(t.size) else value, t.size))
  }

  /** Too few octets are an error; surplus octets are ignored. */
  function Decode(t: IntType, data: Octets): Option<int> {
    if |data| < t.size then None
    else Some(TwosComplement(t, FromLittleEndian(data[..t.size])))
  }

  /** Two's complement. */
  function TwosComplement(t: IntType, raw: nat): int {
    if t.signed && raw >= Span(t.size) / 2 then raw - Span(t.size) else raw
  }

  lemma {:induction false} FromLittleEndianOf(value: nat, size: nat)
    requires value < Span(size)
    ensures FromLittleEndian(LittleEndian(value, size)) == value
  {
    hide Octet, OctetValue;
    if size > 0 {
      var data := LittleEndian(value, size);
      assert data[1..] == LittleEndian(value / 256, size - 1);
      FromLittleEndianOf(value / 256, size - 1);
      OctetRoundTrip(value % 256);
    }
  }

  lemma FirstOctet(head: nat, rest: nat)
    requires head < 256
    ensures (head + 256 * rest) % 256 == head && (head + 256 * rest) / 256 == rest
  {
  }

  lemma {:induction false} LittleEndianOf(data: Octets)
    ensures LittleEndian(FromLittleEndian(data), |data|) == data
  {
    hide Octet, OctetValue;
    if data != [] {
      var head, rest := OctetValue(data[0]), FromLittleEndian(data[1..]);
      OctetValueRoundTrip(data[0]);
      FirstOctet(head, rest);
      LittleEndianOf(data[1..]);
      assert FromLittleEndian(data) == head + 256 * rest;
      calc {
        LittleEndian(head + 256 * rest, |data|);
        [Octet(head)] + LittleEndian(rest, |data| - 1);
        [data[0]] + data[1..];
        data;
      }
    }
  }

  lemma SpanOfFour()
    ensures Span(4) == 0x1_0000_0000
  {
    assert Span(1) == 256;
    assert Span(2) == 65536;
    assert Span(3) == 16777216;
  }

  lemma SpanIsEven(size: nat)
    requires size > 0
    ensures Span(size) == 2 * (Span(size) / 2)
  {
  }

  /** What was encoded decodes to the same value, whatever follows it; encoding fails
      exactly outside the range of the type. */
  lemma DecodeEncoded(t: IntType, value: int, tail: Octets)
    requires t.size > 0
    ensures Encode(t, value).Some? <==> InRange(t, value)
    ensures InRange(t, value) ==>
              |Encode(t, value).value| == t.size && Decode(t, Encode(t, value).value + tail) == Some(value)
  {
    hide LittleEndian, FromLittleEndian, Span;
    if InRange(t, value) {
      var raw: nat := if value < 0 then value + Span(t.size) else value;
      SpanIsEven(t.size);
      FromLittleEndianOf(raw, t.size);
      var data := LittleEndian(raw, t.size);
      assert (data + tail)[..t.size] == data;
    }
  }

  /** Octets of the right length survive decoding and encoding. */
  lemma EncodeDecoded(t: IntType, data: Octets)
    requires t.size > 0 && |data| >= t.size
    ensures InRange(t, Decode(t, data).value)
    ensures Encode(t, Decode(t, data).value) == Some(data[..t.size])
  {
    hide LittleEndian, FromLittleEndian, Span;
    var raw := FromLittleEndian(data[..t.size]);
    SpanIsEven(t.size);
    LittleEndianOf(data[..t.size]);
  }
}
