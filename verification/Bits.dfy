// Bit vectors of the header: eight flags to a byte, the first one highest,
// and the set of indices they are kept in.
module Bits {
  import opened Common
  import opened Numbers

  function Octets(n: nat): nat {
    (n + 7) / 8
  }

  function Weight(k: nat): (w: nat)
    requires k < 8
    ensures 1 <= w <= 128
  {
    if k == 0 then 128 else if k == 1 then 64 else if k == 2 then 32 else if k == 3 then 16
    else if k == 4 then 8 else if k == 5 then 4 else if k == 6 then 2 else 1
  }

  function Halved(b: nat, m: nat): nat {
    if m == 0 then b else Halved(b, m - 1) / 2
  }

  // The k-th bit from the top.
  predicate Bit(b: byte, k: nat)
    requires k < 8
  {
    Halved(b, 7 - k) % 2 == 1
  }

  predicate Flag(v: seq<bool>, i: nat) {
    i < |v| && v[i]
  }

  function Num(b: bool): (n: nat)
    ensures n <= 1
  {
    if b then 1 else 0
  }

  function Octet(b0: bool, b1: bool, b2: bool, b3: bool, b4: bool, b5: bool, b6: bool, b7: bool): byte {
    2 * (2 * (2 * (2 * (2 * (2 * (2 * Num(b0) + Num(b1)) + Num(b2)) + Num(b3)) + Num(b4)) + Num(b5)) + Num(b6)) + Num(b7)
  }

  // The q-th octet of `v`, clear beyond its end.
  function Packed(v: seq<bool>, q: nat): byte {
    Octet(Flag(v, 8 * q), Flag(v, 8 * q + 1), Flag(v, 8 * q + 2), Flag(v, 8 * q + 3),
          Flag(v, 8 * q + 4), Flag(v, 8 * q + 5), Flag(v, 8 * q + 6), Flag(v, 8 * q + 7))
  }

  function BitBytes(v: seq<bool>): (b: seq<byte>)
    ensures |b| == Octets(|v|)
  {
    seq(Octets(|v|), q requires 0 <= q => Packed(v, q))
  }

  function ReadBits(s: seq<byte>, n: nat): (p: Parse<seq<bool>>)
    ensures p.Got? ==> |p.value| == n && |p.rest| <= |s|
  {
    if |s| < Octets(n) then Bad(Eof)
    else Got(seq(n, j requires 0 <= j < n => Bit(s[j / 8], j % 8)), s[Octets(n)..])
  }

  function ReadAllOrBits(s: seq<byte>, n: nat): (p: Parse<seq<bool>>)
    ensures p.Got? ==> |p.value| == n && |p.rest| <= |s|
  {
    if s == [] then Bad(Eof)
    else if s[0] != 0 then Got(seq(n, _ => true), s[1..])
    else ReadBits(s[1..], n)
  }

  // `v` and then as many clear flags as it takes to make `n`.
  function Padded(v: seq<bool>, n: nat): (r: seq<bool>)
    requires |v| <= n
    ensures |r| == n
  {
    seq(n, j requires 0 <= j => Flag(v, j))
  }

  lemma OctetBits(b0: bool, b1: bool, b2: bool, b3: bool, b4: bool, b5: bool, b6: bool, b7: bool)
    ensures var b := Octet(b0, b1, b2, b3, b4, b5, b6, b7);
      Bit(b, 0) == b0 && Bit(b, 1) == b1 && Bit(b, 2) == b2 && Bit(b, 3) == b3 &&
      Bit(b, 4) == b4 && Bit(b, 5) == b5 && Bit(b, 6) == b6 && Bit(b, 7) == b7
  {
    var b: nat := Octet(b0, b1, b2, b3, b4, b5, b6, b7);
    var o1 := 2 * Num(b0) + Num(b1);
    var o2 := 2 * o1 + Num(b2);
    var o3 := 2 * o2 + Num(b3);
    var o4 := 2 * o3 + Num(b4);
    var o5 := 2 * o4 + Num(b5);
    var o6 := 2 * o5 + Num(b6);
    assert Halved(b, 0) == 2 * o6 + Num(b7);
    assert Halved(b, 1) == o6;
    assert Halved(b, 2) == o5;
    assert Halved(b, 3) == o4;
    assert Halved(b, 4) == o3;
    assert Halved(b, 5) == o2;
    assert Halved(b, 6) == o1;
    assert Halved(b, 7) == Num(b0);
  }

  lemma PackedBit(v: seq<bool>, q: nat, k: nat)
    requires k < 8
    ensures Bit(Packed(v, q), k) == Flag(v, 8 * q + k)
  {
    hide Bit, Octet, Flag;
    OctetBits(Flag(v, 8 * q), Flag(v, 8 * q + 1), Flag(v, 8 * q + 2), Flag(v, 8 * q + 3),
              Flag(v, 8 * q + 4), Flag(v, 8 * q + 5), Flag(v, 8 * q + 6), Flag(v, 8 * q + 7));
    if k == 0 {} else if k == 1 {} else if k == 2 {} else if k == 3 {}
    else if k == 4 {} else if k == 5 {} else if k == 6 {} else {}
  }

  // A vector read for `n` flags where fewer were written comes back padded,
  // provided that both take the same number of bytes.
  lemma BitsPadded(v: seq<bool>, n: nat, tail: seq<byte>)
    requires |v| <= n && Octets(|v|) == Octets(n)
    ensures ReadBits(BitBytes(v) + tail, n) == Got(Padded(v, n), tail)
  {
    var s := BitBytes(v) + tail;
    forall j | 0 <= j < n ensures Bit(s[j / 8], j % 8) == Flag(v, j) {
      PackedBit(v, j / 8, j % 8);
      assert s[j / 8] == BitBytes(v)[j / 8] == Packed(v, j / 8);
    }
    assert s[Octets(n)..] == tail;
    assert seq(n, j requires 0 <= j < n => Bit(s[j / 8], j % 8)) == Padded(v, n);
  }

  lemma BitsRoundTrip(v: seq<bool>, tail: seq<byte>)
    ensures ReadBits(BitBytes(v) + tail, |v|) == Got(v, tail)
  {
    BitsPadded(v, |v|, tail);
    assert Padded(v, |v|) == v;
  }

  // The byte counts agreeing is exactly what it takes.
  lemma BitsPaddedIff(v: seq<bool>, n: nat)
    requires |v| <= n
    ensures (forall tail: seq<byte> :: ReadBits(BitBytes(v) + tail, n) == Got(Padded(v, n), tail))
            <==> Octets(|v|) == Octets(n)
  {
    if Octets(|v|) == Octets(n) {
      forall tail: seq<byte> ensures ReadBits(BitBytes(v) + tail, n) == Got(Padded(v, n), tail) {
        BitsPadded(v, n, tail);
      }
    } else {
      assert ReadBits(BitBytes(v) + [], n) == Bad(Eof);
    }
  }
}
