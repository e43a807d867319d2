/** Octet strings and the little-endian 16-bit words at their head. */
module Words {

  type Octets = seq<bv8>

  predicate Bit(w: bv16, mask: bv16) {
    w & mask != 0
  }

  function Word(data: Octets): bv16
    requires |data| >= 2
  {
    (data[0] as bv16) | ((data[1] as bv16) << 8)
  }

  function WordOctets(w: bv16): (data: Octets)
    ensures |data| == 2
  {
    [(w & 0xff) as bv8, (w >> 8) as bv8]
  }

  /** An octet string with its leading word replaced. */
  function WithWord(w: bv16, data: Octets): (r: Octets)
    requires |data| >= 2
    ensures |r| == |data| && r[2..] == data[2..]
  {
    WordOctets(w) + data[2..]
  }

  lemma WordRoundTrip(w: bv16, tail: Octets)
    ensures Word(WordOctets(w) + tail) == w
  {
    var low, high := (w & 0xff) as bv8, (w >> 8) as bv8;
    var data := WordOctets(w) + tail;
    assert data[0] == low && data[1] == high;
    assert (low as bv16) == w & 0xff;
    assert (high as bv16) == w >> 8;
    assert (w & 0xff) | ((w >> 8) << 8) == w;
  }

  lemma WithWordReads(w: bv16, data: Octets)
    requires |data| >= 2
    ensures Word(WithWord(w, data)) == w
  {
    WordRoundTrip(w, data[2..]);
  }
}
