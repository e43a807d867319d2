/** Octets as numbers: the eight bits of an octet are the binary digits of its value. */
module OctetValues {

  function BitAt(b: bv8, mask: bv8): nat {
    if b & mask != 0 then 1 else 0
  }

  function Horner(x0: nat, x1: nat, x2: nat, x3: nat, x4: nat, x5: nat, x6: nat, x7: nat): nat {
    x0 + 2 * (x1 + 2 * (x2 + 2 * (x3 + 2 * (x4 + 2 * (x5 + 2 * (x6 + 2 * x7))))))
  }

  /** The value of an octet, from its bits. */
  function OctetValue(b: bv8): nat {
    Horner(BitAt(b, 1), BitAt(b, 2), BitAt(b, 4), BitAt(b, 8), BitAt(b, 16), BitAt(b, 32), BitAt(b, 64), BitAt(b, 128))
  }

  function Low(value: nat, mask: bv8): bv8 {
    if value % 2 == 1 then mask else 0
  }

  function Half(value: nat, n: nat): nat {
    if n == 0 then value else Half(value / 2, n - 1)
  }

  /** The octet of a value below 256. */
  function Octet(value: nat): bv8 {
    Low(value, 1) | Low(Half(value, 1), 2) | Low(Half(value, 2), 4) | Low(Half(value, 3), 8)
    | Low(Half(value, 4), 16) | Low(Half(value, 5), 32) | Low(Half(value, 6), 64) | Low(Half(value, 7), 128)
  }

  lemma BitsOfSum(b0: bv8, b1: bv8, b2: bv8, b3: bv8, b4: bv8, b5: bv8, b6: bv8, b7: bv8)
    requires b0 in {0, 1} && b1 in {0, 2} && b2 in {0, 4} && b3 in {0, 8}
    requires b4 in {0, 16} && b5 in {0, 32} && b6 in {0, 64} && b7 in {0, 128}
    ensures var b := b0 | b1 | b2 | b3 | b4 | b5 | b6 | b7;
            && b & 1 == b0 && b & 2 == b1 && b & 4 == b2 && b & 8 == b3
            && b & 16 == b4 && b & 32 == b5 && b & 64 == b6 && b & 128 == b7
  {
  }

  lemma BitsAreOctet(b: bv8)
    ensures (b & 1) | (b & 2) | (b & 4) | (b & 8) | (b & 16) | (b & 32) | (b & 64) | (b & 128) == b
    ensures b & 1 in {0, 1} && b & 2 in {0, 2} && b & 4 in {0, 4} && b & 8 in {0, 8}
    ensures b & 16 in {0, 16} && b & 32 in {0, 32} && b & 64 in {0, 64} && b & 128 in {0, 128}
  {
  }

  lemma {:induction false} HalfStep(value: nat, n: nat)
    ensures Half(value, n + 1) == Half(value, n) / 2
  {
    if n > 0 {
      HalfStep(value / 2, n - 1);
    }
  }

  /** Halving a Horner sum drops its first term. */
  lemma Halves(x0: nat, x1: nat, x2: nat, x3: nat, x4: nat, x5: nat, x6: nat, x7: nat)
    requires x0 < 2 && x1 < 2 && x2 < 2 && x3 < 2 && x4 < 2 && x5 < 2 && x6 < 2 && x7 < 2
    ensures var v := Horner(x0, x1, x2, x3, x4, x5, x6, x7);
            && v < 256 && v % 2 == x0 && Half(v, 1) % 2 == x1 && Half(v, 2) % 2 == x2 && Half(v, 3) % 2 == x3
            && Half(v, 4) % 2 == x4 && Half(v, 5) % 2 == x5 && Half(v, 6) % 2 == x6 && Half(v, 7) % 2 == x7
  {
    hide Half;
    var v := Horner(x0, x1, x2, x3, x4, x5, x6, x7);
    AllHalves(v);
    var y6 := x6 + 2 * x7;
    var y5 := x5 + 2 * y6;
    var y4 := x4 + 2 * y5;
    var y3 := x3 + 2 * y4;
    var y2 := x2 + 2 * y3;
    var y1 := x1 + 2 * y2;
    assert v == x0 + 2 * y1;
    assert Half(v, 1) == y1;
    assert Half(v, 2) == y2;
    assert Half(v, 3) == y3;
    assert Half(v, 4) == y4;
    assert Half(v, 5) == y5;
    assert Half(v, 6) == y6;
  }

  lemma AllHalves(v: nat)
    ensures Half(v, 1) == v / 2 && Half(v, 2) == Half(v, 1) / 2 && Half(v, 3) == Half(v, 2) / 2
    ensures Half(v, 4) == Half(v, 3) / 2 && Half(v, 5) == Half(v, 4) / 2
    ensures Half(v, 6) == Half(v, 5) / 2 && Half(v, 7) == Half(v, 6) / 2
  {
    HalfStep(v, 0);
    HalfStep(v, 1);
    HalfStep(v, 2);
    HalfStep(v, 3);
    HalfStep(v, 4);
    HalfStep(v, 5);
    HalfStep(v, 6);
  }

  lemma HornerOfHalves(v: nat)
    requires v < 256
    ensures v == Horner(v % 2, Half(v, 1) % 2, Half(v, 2) % 2, Half(v, 3) % 2,
                        Half(v, 4) % 2, Half(v, 5) % 2, Half(v, 6) % 2, Half(v, 7) % 2)
  {
    hide Half;
    AllHalves(v);
  }

  /** The bit of a value and the bit of its octet. */
  lemma LowBit(b: bv8, value: nat, mask: bv8)
    requires mask != 0
    ensures b & mask == Low(value, mask) ==> BitAt(b, mask) == value % 2
    ensures b & mask in {0, mask} && BitAt(b, mask) == value % 2 ==> b & mask == Low(value, mask)
  {
  }

  lemma LowBits(b: bv8, v: nat)
    ensures b == Octet(v) <==>
              && BitAt(b, 1) == v % 2 && BitAt(b, 2) == Half(v, 1) % 2 && BitAt(b, 4) == Half(v, 2) % 2
              && BitAt(b, 8) == Half(v, 3) % 2 && BitAt(b, 16) == Half(v, 4) % 2 && BitAt(b, 32) == Half(v, 5) % 2
              && BitAt(b, 64) == Half(v, 6) % 2 && BitAt(b, 128) == Half(v, 7) % 2
  {
    hide Half, BitAt;
    BitsAreOctet(b);
    OctetBits(v);
    LowBit(b, v, 1);
    LowBit(b, Half(v, 1), 2);
    LowBit(b, Half(v, 2), 4);
    LowBit(b, Half(v, 3), 8);
    LowBit(b, Half(v, 4), 16);
    LowBit(b, Half(v, 5), 32);
    LowBit(b, Half(v, 6), 64);
    LowBit(b, Half(v, 7), 128);
  }

  lemma OctetBits(v: nat)
    ensures var b := Octet(v);
            && b & 1 == Low(v, 1) && b & 2 == Low(Half(v, 1), 2) && b & 4 == Low(Half(v, 2), 4)
            && b & 8 == Low(Half(v, 3), 8) && b & 16 == Low(Half(v, 4), 16) && b & 32 == Low(Half(v, 5), 32)
            && b & 64 == Low(Half(v, 6), 64) && b & 128 == Low(Half(v, 7), 128)
  {
    hide Half;
    BitsOfSum(Low(v, 1), Low(Half(v, 1), 2), Low(Half(v, 2), 4), Low(Half(v, 3), 8),
              Low(Half(v, 4), 16), Low(Half(v, 5), 32), Low(Half(v, 6), 64), Low(Half(v, 7), 128));
  }

  lemma OctetRoundTrip(value: nat)
    requires value < 256
    ensures OctetValue(Octet(value)) == value
  {
    hide Half, Octet, BitAt, Horner;
    LowBits(Octet(value), value);
    HornerOfHalves(value);
  }

  lemma OctetValueRoundTrip(b: bv8)
    ensures OctetValue(b) < 256 && Octet(OctetValue(b)) == b
  {
    hide Half, Octet, Horner;
    Halves(BitAt(b, 1), BitAt(b, 2), BitAt(b, 4), BitAt(b, 8), BitAt(b, 16), BitAt(b, 32), BitAt(b, 64), BitAt(b, 128));
    LowBits(b, OctetValue(b));
  }
}
