// The set of indices kept in words of 64 bits, and how it is printed and read.
module BitSets {
  import opened Common
  import opened Numbers
  import opened Bits
  import opened Wire

  // A machine word, bit by bit, the lowest first.
  type Word64 = s: seq<bool> | |s| == 64 witness seq(64, _ => false)

  function Clear(): Word64 {
    seq(64, _ => false)
  }

  function WordsFor(bits: nat): nat {
    if bits == 0 then 0 else (bits - 1) / 64 + 1
  }

  class BitSet {
    var words: seq<Word64>
    var bitCount: nat

    ghost predicate Valid()
      reads this
    {
      && |words| == WordsFor(bitCount)
      && forall i | bitCount <= i < 64 * |words| :: !words[i / 64][i % 64]
    }

    predicate Contains(value: nat)
      reads this
    {
      value < bitCount && value / 64 < |words| && words[value / 64][value % 64]
    }

    // The flags kept, one for each index below `bitCount`.
    function Flags(): (f: seq<bool>)
      reads this
      ensures |f| == bitCount && forall i: nat :: Flag(f, i) == Contains(i)
    {
      seq(bitCount, i requires 0 <= i reads this => Contains(i))
    }

    constructor WithCapacity(n: nat)
      ensures Valid() && Flags() == seq(n, _ => false)
    {
      bitCount := n;
      words := seq(WordsFor(n), _ => Clear());
    }

    method Grow(n: nat)
      requires Valid()
      modifies this
      ensures Valid() && bitCount == if n > old(bitCount) then n else old(bitCount)
      ensures forall i: nat :: Contains(i) == old(Contains(i))
    {
      if n <= bitCount {
        return;
      }
      if WordsFor(n) > |words| {
        words := words + seq(WordsFor(n) - |words|, _ => Clear());
      }
      bitCount := n;
    }

    method Insert(value: nat) returns (added: bool)
      requires Valid()
      modifies this
      ensures Valid() && added == !old(Contains(value))
      ensures bitCount == if value >= old(bitCount) then value + 1 else old(bitCount)
      ensures forall i: nat :: Contains(i) == (i == value || old(Contains(i)))
      ensures value < old(bitCount) ==> Flags() == old(Flags())[value := true]
    {
      if Contains(value) {
        return false;
      }
      if value >= bitCount {
        Grow(value + 1);
      }
      words := words[value / 64 := words[value / 64][value % 64 := true]];
      return true;
    }

    method Remove(value: nat) returns (present: bool)
      requires Valid()
      modifies this
      ensures Valid() && present == old(Contains(value)) && bitCount == old(bitCount)
      ensures forall i: nat :: Contains(i) == (i != value && old(Contains(i)))
      ensures value < bitCount ==> Flags() == old(Flags())[value := false]
    {
      if !Contains(value) {
        return false;
      }
      words := words[value / 64 := words[value / 64][value % 64 := false]];
      return true;
    }
  }

  lemma SameFlags(a: seq<bool>, b: seq<bool>)
    requires |a| == |b| && forall i: nat :: Flag(a, i) == Flag(b, i)
    ensures a == b
  {
    forall i | 0 <= i < |a| ensures a[i] == b[i] {
      assert Flag(a, i) == Flag(b, i);
    }
  }

  // --- Printing ---

  // The first `k` flags of an octet.
  ghost function Part(v: seq<bool>, q: nat, k: nat): nat
    requires k <= 8
  {
    if k == 0 then 0 else Part(v, q, k - 1) + (if Flag(v, 8 * q + (k - 1)) then Weight(k - 1) else 0)
  }

  lemma OctetSum(b0: bool, b1: bool, b2: bool, b3: bool, b4: bool, b5: bool, b6: bool, b7: bool)
    ensures Octet(b0, b1, b2, b3, b4, b5, b6, b7)
         == 128 * Num(b0) + 64 * Num(b1) + 32 * Num(b2) + 16 * Num(b3) + 8 * Num(b4) + 4 * Num(b5) + 2 * Num(b6) + Num(b7)
  {
    hide Num;
  }

  lemma WholePart(v: seq<bool>, q: nat)
    ensures Part(v, q, 8) == Packed(v, q)
  {
    hide Flag, Octet;
    OctetSum(Flag(v, 8 * q), Flag(v, 8 * q + 1), Flag(v, 8 * q + 2), Flag(v, 8 * q + 3),
             Flag(v, 8 * q + 4), Flag(v, 8 * q + 5), Flag(v, 8 * q + 6), Flag(v, 8 * q + 7));
    assert Part(v, q, 1) == 128 * Num(Flag(v, 8 * q));
    assert Part(v, q, 2) == 128 * Num(Flag(v, 8 * q)) + 64 * Num(Flag(v, 8 * q + 1));
    assert Part(v, q, 4) == Part(v, q, 2) + 32 * Num(Flag(v, 8 * q + 2)) + 16 * Num(Flag(v, 8 * q + 3));
    assert Part(v, q, 6) == Part(v, q, 4) + 8 * Num(Flag(v, 8 * q + 4)) + 4 * Num(Flag(v, 8 * q + 5));
    assert Part(v, q, 8) == Part(v, q, 6) + 2 * Num(Flag(v, 8 * q + 6)) + Num(Flag(v, 8 * q + 7));
  }

  // Beyond the end nothing is added.
  lemma {:induction false} LastPart(v: seq<bool>, q: nat, k: nat, j: nat)
    requires k <= j <= 8 && |v| <= 8 * q + k
    ensures Part(v, q, j) == Part(v, q, k)
  {
    if k < j {
      LastPart(v, q, k, j - 1);
    }
  }

  function FirstOctets(v: seq<bool>, q: nat): (b: seq<byte>)
    ensures |b| == q
  {
    seq(q, j requires 0 <= j => Packed(v, j))
  }

  lemma AllOctets(v: seq<bool>)
    ensures |v| % 8 == 0 ==> BitBytes(v) == FirstOctets(v, |v| / 8)
    ensures |v| % 8 != 0 ==> BitBytes(v) == FirstOctets(v, |v| / 8) + [Packed(v, |v| / 8)]
  {
    hide Packed;
  }

  lemma OneMore(v: seq<bool>, q: nat)
    ensures FirstOctets(v, q + 1) == FirstOctets(v, q) + [Packed(v, q)]
  {
    hide Packed;
  }

  // Flags fill an octet from the top; a full one, and a last part of one, is
  // put out.
  method WriteBitSet(out: Buffer, bs: BitSet)
    requires bs.Valid()
    modifies out
    ensures out.bytes == old(out.bytes) + BitBytes(bs.Flags())
  {
    hide Packed, FirstOctets, BitBytes, Part, PartOf, Weight;
    ghost var v := bs.Flags();
    var cache: int, shift: int := 0, 7;
    PartBegins(v);
    for i := 0 to bs.bitCount
      invariant shift == 7 - i % 8 && cache == PartOf(v, i / 8, i % 8)
      invariant out.bytes == old(out.bytes) + FirstOctets(v, i / 8)
    {
      PartStep(v, i);
      if bs.Contains(i) {
        cache := cache + Weight(7 - shift);
      }
      shift := shift - 1;
      if shift < 0 {
        OneMore(v, i / 8);
        out.U8(cache);
        shift := 7;
        cache := 0;
      }
    }
    AllOctets(v);
    PartEnds(v);
    if shift != 7 {
      out.U8(cache);
    }
  }

  ghost function PartOf(v: seq<bool>, q: nat, k: nat): nat {
    if k <= 8 then Part(v, q, k) else 0
  }

  // One more flag: the part grows, and is an octet when it has all eight.
  lemma PartStep(v: seq<bool>, i: nat)
    requires i < |v|
    ensures PartOf(v, i / 8, i % 8) + (if Flag(v, i) then Weight(i % 8) else 0)
         == if i % 8 == 7 then Packed(v, i / 8) else PartOf(v, (i + 1) / 8, (i + 1) % 8)
    ensures i % 8 == 7 ==> PartOf(v, (i + 1) / 8, (i + 1) % 8) == 0
  {
    hide Packed, Flag;
    WholePart(v, i / 8);
    assert 8 * (i / 8) + i % 8 == i;
    assert Part(v, i / 8, i % 8 + 1) == Part(v, i / 8, i % 8) + if Flag(v, i) then Weight(i % 8) else 0;
  }

  lemma PartBegins(v: seq<bool>)
    ensures PartOf(v, 0, 0) == 0 && FirstOctets(v, 0) == []
  {
  }

  lemma PartEnds(v: seq<bool>)
    ensures |v| % 8 != 0 ==> PartOf(v, |v| / 8, |v| % 8) == Packed(v, |v| / 8)
  {
    hide Packed;
    WholePart(v, |v| / 8);
    LastPart(v, |v| / 8, |v| % 8, 8);
  }

  lemma BitOfByte(b: byte, k: nat)
    requires k < 8
    ensures Bit(b, k) == (b / Weight(k) % 2 == 1)
  {
    assert Halved(b, 1) == b / 2;
    assert Halved(b, 2) == b / 4;
    assert Halved(b, 3) == b / 8;
    assert Halved(b, 4) == b / 16;
    assert Halved(b, 5) == b / 32;
    assert Halved(b, 6) == b / 64;
    assert Halved(b, 7) == b / 128;
    if k == 0 {} else if k == 1 {} else if k == 2 {} else if k == 3 {}
    else if k == 4 {} else if k == 5 {} else if k == 6 {} else {}
  }

  // The first `i` of `n` flags.
  ghost function Seen(s: seq<byte>, n: nat, i: nat): (f: seq<bool>)
    requires Octets(i) <= |s|
    ensures |f| == n
  {
    seq(n, j requires 0 <= j => j < i && Bit(s[j / 8], j % 8))
  }

  lemma SeenStep(s: seq<byte>, n: nat, i: nat)
    requires i < n && Octets(i) <= |s| && Octets(i + 1) <= |s|
    ensures Seen(s, n, i + 1) == if Bit(s[i / 8], i % 8) then Seen(s, n, i)[i := true] else Seen(s, n, i)
  {
    hide Bit;
    var a, b := Seen(s, n, i), Seen(s, n, i + 1);
    assert forall j | 0 <= j < n && j != i :: a[j] == b[j];
  }

  lemma SeenAll(s: seq<byte>, n: nat)
    requires Octets(n) <= |s|
    ensures ReadBits(s, n) == Got(Seen(s, n, n), s[Octets(n)..])
  {
    hide Bit;
    assert seq(n, j requires 0 <= j < n => Bit(s[j / 8], j % 8)) == Seen(s, n, n);
  }

  lemma SeenNone(s: seq<byte>, n: nat)
    ensures Seen(s, n, 0) == seq(n, _ => false)
  {
  }

  // After `i` flags: `mask` is on the next bit of `cache`, or has run out.
  ghost predicate At(s: seq<byte>, n: nat, i: nat, mask: int, cache: byte, rest: seq<byte>) {
    && i <= n && mask == (if i % 8 == 0 then 0 else Weight(i % 8))
    && Octets(i) <= |s| && rest == s[Octets(i)..] && (mask != 0 ==> cache == s[i / 8])
  }

  lemma AtRefill(s: seq<byte>, n: nat, i: nat, cache: byte, rest: seq<byte>)
    requires At(s, n, i, 0, cache, rest) && i < n
    ensures rest == [] ==> |s| < Octets(n)
    ensures rest != [] ==> Octets(i + 1) <= |s| && At(s, n, i + 1, 0x40, rest[0], rest[1..])
    ensures rest != [] ==> Bit(s[i / 8], i % 8) == (rest[0] / 0x80 % 2 == 1)
  {
    hide Bit;
    if rest != [] {
      BitOfByte(rest[0], 0);
    }
  }

  lemma AtNext(s: seq<byte>, n: nat, i: nat, mask: int, cache: byte, rest: seq<byte>)
    requires At(s, n, i, mask, cache, rest) && i < n && mask != 0
    ensures mask > 0 && Octets(i + 1) <= |s| && At(s, n, i + 1, mask / 2, cache, rest)
    ensures Bit(s[i / 8], i % 8) == (cache / mask % 2 == 1)
  {
    hide Bit;
    BitOfByte(cache, i % 8);
  }

  // A byte is taken in whenever the mask has run out.
  method ReadBitSet(header: Cursor, n: nat) returns (r: Result<seq<bool>, HeaderError>)
    modifies header
    ensures Agrees(r, header.rest, ReadBits(old(header.rest), n))
  {
    hide Bit, BitSet.Flags, Seen, BitSet.Contains, BitSet.Valid, Octets, At;
    var bits := new BitSet.WithCapacity(n);
    var mask: int, cache: byte := 0, 0;
    ghost var s := header.rest;
    SeenNone(s, n);
    AtFirst(s, n);
    for i := 0 to n
      invariant bits.Valid() && bits.bitCount == n && fresh(bits)
      invariant At(s, n, i, mask, cache, header.rest) && Octets(i) <= |s|
      invariant bits.Flags() == Seen(s, n, i)
    {
      if mask == 0 {
        AtRefill(s, n, i, cache, header.rest);
        mask := 0x80;
        cache :- header.U8();
      } else {
        AtNext(s, n, i, mask, cache, header.rest);
      }
      SeenStep(s, n, i);
      if cache / mask % 2 == 1 {
        var _ := bits.Insert(i);
      }
      mask := mask / 2;
    }
    SeenAll(s, n);
    AtLast(s, n, mask, cache, header.rest);
    return Ok(bits.Flags());
  }

  lemma AtFirst(s: seq<byte>, n: nat)
    ensures At(s, n, 0, 0, 0, s) && Octets(0) == 0
  {
  }

  lemma AtLast(s: seq<byte>, n: nat, mask: int, cache: byte, rest: seq<byte>)
    requires At(s, n, n, mask, cache, rest)
    ensures rest == s[Octets(n)..]
  {
  }

  method ReadAllOrBitSet(header: Cursor, n: nat) returns (r: Result<seq<bool>, HeaderError>)
    modifies header
    ensures Agrees(r, header.rest, ReadAllOrBits(old(header.rest), n))
  {
    var all :- header.U8();
    if all == 0 {
      r := ReadBitSet(header, n);
      return;
    }
    var bits := new BitSet.WithCapacity(n);
    for i := 0 to n
      invariant bits.Valid() && bits.bitCount == n && fresh(bits) && header.rest == old(header.rest)[1..]
      invariant forall j: nat :: bits.Contains(j) == (j < i)
    {
      var _ := bits.Insert(i);
    }
    SameFlags(bits.Flags(), seq(n, _ => true));
    return Ok(bits.Flags());
  }
}
