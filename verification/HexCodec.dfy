/** Octets as lower-case hexadecimal text, the payload encoding of the model socket. */
module HexCodec {
  import opened Words
  import opened Wrappers

  function DigitOf(n: bv8): char {
    if n == 0 then '0' else if n == 1 then '1' else if n == 2 then '2' else if n == 3 then '3'
    else if n == 4 then '4' else if n == 5 then '5' else if n == 6 then '6' else if n == 7 then '7'
    else if n == 8 then '8' else if n == 9 then '9' else if n == 10 then 'a' else if n == 11 then 'b'
    else if n == 12 then 'c' else if n == 13 then 'd' else if n == 14 then 'e' else 'f'
  }

  predicate IsDigit(c: char) {
    '0' <= c <= '9' || 'a' <= c <= 'f'
  }

  function DigitValue(c: char): bv8 {
    if c == '0' then 0 else if c == '1' then 1 else if c == '2' then 2 else if c == '3' then 3
    else if c == '4' then 4 else if c == '5' then 5 else if c == '6' then 6 else if c == '7' then 7
    else if c == '8' then 8 else if c == '9' then 9 else if c == 'a' then 10 else if c == 'b' then 11
    else if c == 'c' then 12 else if c == 'd' then 13 else if c == 'e' then 14 else 15
  }

  lemma DigitRoundTrip(n: bv8, c: char)
    ensures n < 16 ==> IsDigit(DigitOf(n)) && DigitValue(DigitOf(n)) == n
    ensures IsDigit(c) ==> DigitValue(c) < 16 && DigitOf(DigitValue(c)) == c
  {
  }

  /** The two digits of an octet. */
  function Pair(b: bv8): (text: string)
    ensures |text| == 2
  {
    [DigitOf(b >> 4), DigitOf(b & 15)]
  }

  function PairValue(high: char, low: char): bv8 {
    (DigitValue(high) << 4) | DigitValue(low)
  }

  lemma NibblesRoundTrip(b: bv8, h: bv8, l: bv8)
    ensures b >> 4 < 16 && b & 15 < 16 && ((b >> 4) << 4) | (b & 15) == b
    ensures h < 16 && l < 16 ==> ((h << 4) | l) >> 4 == h && ((h << 4) | l) & 15 == l
  {
  }

  lemma PairRoundTrip(b: bv8, high: char, low: char)
    ensures IsDigit(Pair(b)[0]) && IsDigit(Pair(b)[1]) && PairValue(Pair(b)[0], Pair(b)[1]) == b
    ensures IsDigit(high) && IsDigit(low) ==> Pair(PairValue(high, low)) == [high, low]
  {
    hide DigitOf, DigitValue, IsDigit;
    NibblesRoundTrip(b, DigitValue(high), DigitValue(low));
    DigitRoundTrip(b >> 4, high);
    DigitRoundTrip(b & 15, low);
  }

  function Hex(data: Octets): (text: string)
    ensures |text| == 2 * |data|
  {
    if data == [] then [] else Hex(data[..|data| - 1]) + Pair(data[|data| - 1])
  }

  predicate AllDigits(text: string) {
    forall i :: 0 <= i < |text| ==> IsDigit(text[i])
  }

  function FromPairs(text: string): (data: Octets)
    requires |text| % 2 == 0
    ensures 2 * |data| == |text|
  {
    if text == [] then []
    else
      var n := |text| - 2;
      FromPairs(text[..n]) + [PairValue(text[n], text[n + 1])]
  }

  /** Text of the wrong length or with another character is refused. */
  function Unhex(text: string, size: nat): Option<Octets> {
    if |text| == 2 * size && AllDigits(text) then Some(FromPairs(text)) else None
  }

  lemma {:induction false} UnhexHex(data: Octets)
    ensures Unhex(Hex(data), |data|) == Some(data)
  {
    hide Pair, PairValue, IsDigit;
    if data != [] {
      var n := |data| - 1;
      UnhexHex(data[..n]);
      PairRoundTrip(data[n], '0', '0');
      var text := Hex(data);
      assert text[..2 * n] == Hex(data[..n]);
      assert text[2 * n] == Pair(data[n])[0] && text[2 * n + 1] == Pair(data[n])[1];
      assert data == data[..n] + [data[n]];
      forall i | 0 <= i < |text|
        ensures IsDigit(text[i])
      {
        if i < 2 * n {
          assert text[i] == Hex(data[..n])[i];
        }
      }
    }
  }

  lemma HexAppend(data: Octets, b: bv8)
    ensures Hex(data + [b]) == Hex(data) + Pair(b)
  {
    hide Pair;
    assert (data + [b])[..|data|] == data;
  }

  lemma DigitsOfPrefix(text: string, n: nat)
    requires AllDigits(text) && n <= |text|
    ensures AllDigits(text[..n])
  {
    hide IsDigit;
  }

  lemma {:induction false} HexFromPairs(text: string)
    requires |text| % 2 == 0 && AllDigits(text)
    ensures Hex(FromPairs(text)) == text
  {
    hide Pair, PairValue, IsDigit, Hex;
    if text == [] {
      assert FromPairs(text) == [];
      HexOfNothing();
    } else {
      var n := |text| - 2;
      DigitsOfPrefix(text, n);
      HexFromPairs(text[..n]);
      PairRoundTrip(0, text[n], text[n + 1]);
      HexAppend(FromPairs(text[..n]), PairValue(text[n], text[n + 1]));
      assert text == text[..n] + [text[n], text[n + 1]];
    }
  }

  lemma HexOfNothing()
    ensures Hex([]) == []
  {
  }

  /** Decoding succeeds exactly on the texts that encoding produces. */
  lemma UnhexIsInverse(text: string, size: nat, data: Octets)
    ensures Unhex(text, size) == Some(data) <==> Hex(data) == text && |data| == size
  {
    hide IsDigit;
    UnhexHex(data);
    if Unhex(text, size) == Some(data) {
      HexFromPairs(text);
    }
  }

  method EncodeHex(data: array<bv8>, size: nat) returns (result: string)
    requires size <= data.Length
    ensures result == Hex(data[..size])
  {
    result := "";
    for i := 0 to size
      invariant result == Hex(data[..i])
    {
      result := result + [DigitOf(data[i] >> 4)];
      result := result + [DigitOf(data[i] & 15)];
      assert data[..i + 1][..i] == data[..i];
    }
  }

  /** On a bad character the octets before it are already written. */
  method DecodeHex(text: string, p: array<bv8>) returns (ok: bool)
    modifies p
    ensures ok == Unhex(text, p.Length).Some?
    ensures ok ==> Unhex(text, p.Length) == Some(p[..])
    ensures |text| != 2 * p.Length ==> p[..] == old(p[..])
  {
    hide IsDigit, PairValue;
    if |text| != 2 * p.Length {
      return false;
    }
    for i := 0 to p.Length
      invariant AllDigits(text[..2 * i])
      invariant p[..i] == FromPairs(text[..2 * i])
    {
      if !IsDigit(text[2 * i]) || !IsDigit(text[2 * i + 1]) {
        return false;
      }
      p[i] := PairValue(text[2 * i], text[2 * i + 1]);
      assert text[..2 * (i + 1)][..2 * i] == text[..2 * i];
    }
    assert text[..2 * p.Length] == text && p[..p.Length] == p[..];
    return true;
  }
}
