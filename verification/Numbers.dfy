// The header's variable-length number: a first byte whose leading ones count
// the bytes that follow it, low byte first.
module Numbers {
  import opened Common

  datatype HeaderError =
    | Eof                   // the header ends early
    | Limit                 // a count or size beyond what the bounds allow
    | Unsupported           // a legal feature this reader does not take
    | BadTerminator(nid: byte)
    | BadStructure          // anything else that cannot be

  // What reading something from the front of a byte string gives.
  datatype Parse<+T> = Got(value: T, rest: seq<byte>) | Bad(error: HeaderError) {
    predicate IsFailure() { Bad? }
    function PropagateFailure<U>(): Parse<U>
      requires Bad?
    {
      Parse<U>.Bad(error)
    }
    function Extract(): (T, seq<byte>)
      requires Got?
    {
      (value, rest)
    }
  }

  function Pow2(n: nat): (r: nat)
    ensures r >= 1
  {
    if n == 0 then 1 else 2 * Pow2(n - 1)
  }

  function Pow256(n: nat): (r: nat)
    ensures r >= 1
  {
    if n == 0 then 1 else 256 * Pow256(n - 1)
  }

  function BytesOf(v: nat, n: nat): (b: seq<byte>)
    ensures |b| == n
  {
    if n == 0 then [] else [v % 256] + BytesOf(v / 256, n - 1)
  }

  // `v` without its `n` lowest bytes.
  function High(v: nat, n: nat): nat {
    if n == 0 then v else High(v / 256, n - 1)
  }

  // Bytes that follow the first one: the least number that makes `v` fit.
  function Extra(v: u64, i: nat): (n: nat)
    requires i <= 8
    ensures i <= n <= 8
    decreases 8 - i
  {
    if i == 8 || v < Pow2(7 * (i + 1)) then i else Extra(v, i + 1)
  }

  // As many leading ones as bytes follow, and the highest bits of `v` below.
  function FirstByte(v: u64): byte {
    var n := Extra(v, 0);
    FirstFits(v, n);
    256 - Pow2(8 - n) + High(v, n)
  }

  function NumberBytes(v: u64): seq<byte> {
    [FirstByte(v)] + BytesOf(v, Extra(v, 0))
  }

  // Reading: each leading one of `first` announces a byte, low bytes first.
  function ReadMore(first: byte, i: nat, s: seq<byte>): (p: Parse<nat>)
    requires i <= 8
    ensures p.Got? ==> p.value < Pow256(8 - i)
    decreases 8 - i
  {
    Powers();
    if i == 8 then Got(0, s)
    else if first / Pow2(7 - i) % 2 == 0 then Got(first % Pow2(7 - i), s)
    else if s == [] then Bad(Eof)
    else match ReadMore(first, i + 1, s[1..])
      case Got(v, rest) => Got(s[0] + 256 * v, rest)
      case Bad(e) => Bad(e)
  }

  function ReadNumber(s: seq<byte>): Parse<u64> {
    Powers();
    if s == [] then Bad(Eof) else
    match ReadMore(s[0], 0, s[1..])
    case Got(v, rest) => Got(v, rest)
    case Bad(e) => Bad(e)
  }

  lemma Powers()
    ensures Pow2(0) == 1 && Pow2(1) == 2 && Pow2(2) == 4 && Pow2(3) == 8 && Pow2(4) == 16
    ensures Pow2(5) == 32 && Pow2(6) == 64 && Pow2(7) == 128 && Pow2(8) == 256
    ensures Pow256(0) == 1 && Pow256(1) == 0x100 && Pow256(2) == 0x1_0000 && Pow256(3) == 0x100_0000
    ensures Pow256(4) == 0x1_0000_0000 && Pow256(5) == 0x100_0000_0000 && Pow256(6) == 0x1_0000_0000_0000
    ensures Pow256(7) == 0x100_0000_0000_0000 && Pow256(8) == 0x1_0000_0000_0000_0000
  {
    assert Pow2(2) == 4 && Pow2(4) == 16 && Pow2(6) == 64;
    assert Pow256(2) == 0x1_0000 && Pow256(4) == 0x1_0000_0000 && Pow256(6) == 0x1_0000_0000_0000;
  }

  lemma PowerStep(n: nat)
    ensures Pow2(n + 8) == 256 * Pow2(n)
  {
    assert Pow2(n + 8) == 2 * Pow2(n + 7) == 4 * Pow2(n + 6) == 8 * Pow2(n + 5);
    assert Pow2(n + 5) == 2 * Pow2(n + 4) == 4 * Pow2(n + 3) == 8 * Pow2(n + 2);
    assert Pow2(n + 2) == 2 * Pow2(n + 1) == 4 * Pow2(n);
  }

  lemma {:induction false} HighBelow(v: nat, n: nat, e: nat)
    requires v < Pow2(8 * n + e)
    ensures High(v, n) < Pow2(e)
  {
    if n > 0 {
      PowerStep(8 * (n - 1) + e);
      HighBelow(v / 256, n - 1, e);
    }
  }

  lemma {:induction false} ExtraFits(v: u64, i: nat)
    requires i <= 8
    ensures Extra(v, i) < 8 ==> v < Pow2(7 * (Extra(v, i) + 1))
    decreases 8 - i
  {
    if i < 8 && v >= Pow2(7 * (i + 1)) {
      ExtraFits(v, i + 1);
    }
  }

  // What is left for the first byte stays below its leading ones.
  lemma FirstFits(v: u64, n: nat)
    requires n == Extra(v, 0)
    ensures n < 8 ==> High(v, n) < Pow2(7 - n)
    ensures n == 8 ==> High(v, n) == 0
    ensures 1 <= Pow2(8 - n) <= 256 && (n < 8 ==> Pow2(8 - n) == 2 * Pow2(7 - n))
  {
    hide Pow2, Pow256, Extra, High;
    Powers();
    ExtraFits(v, 0);
    if n < 8 {
      assert 8 * n + (7 - n) == 7 * (n + 1);
      HighBelow(v, n, 7 - n);
    } else {
      WordBelow();
      HighBelow(v, 8, 0);
    }
  }

  lemma WordBelow()
    ensures Pow2(64) == TWO_64
  {
    PowerStep(0); PowerStep(8); PowerStep(16); PowerStep(24);
    PowerStep(32); PowerStep(40); PowerStep(48); PowerStep(56);
  }

  lemma {:induction false} HighNext(v: nat, i: nat)
    ensures High(v, i + 1) == High(v, i) / 256
  {
    if i > 0 {
      HighNext(v / 256, i - 1);
    }
  }

  // Byte `i` counts for 256 to the power of `i`.
  lemma {:induction false} BytesAt(v: nat, n: nat, i: nat)
    requires i < n
    ensures BytesOf(v, n)[i] == High(v, i) % 256
  {
    if i > 0 {
      BytesAt(v / 256, n - 1, i - 1);
    }
  }

  // The bits of a first byte announcing `n` more: ones down to bit 8 - n.
  lemma LeadingOnes(first: byte, n: nat, i: nat)
    requires i <= n <= 8 && i < 8 && 256 - Pow2(8 - n) <= first
    requires n < 8 ==> first < 256 - Pow2(8 - n) + Pow2(7 - n)
    ensures (first / Pow2(7 - i) % 2 == 0) == (i == n)
    ensures i == n ==> first % Pow2(7 - i) == first - (256 - Pow2(8 - n))
  {
    hide Pow2;
    PowersMeet(i);
    TopBits(first, Pow2(7 - i), Pow2(i + 1));
    if i == n {
      PowerNext(7 - i);
    } else {
      PowerMono(8 - n, 7 - i);
    }
  }

  // The last two of the stretches of length `p` that a byte's range falls into.
  lemma TopBits(first: byte, p: nat, k: nat)
    requires p > 0 && p * k == 256 && k % 2 == 0
    ensures 256 - p <= first ==> first / p % 2 == 1
    ensures 256 - 2 * p <= first < 256 - p ==> first / p % 2 == 0 && first % p == first - (256 - 2 * p)
  {
    assert k >= 2;
    assert p * (k - 1) == p * k - p;
    assert p * (k - 2) == p * k - 2 * p;
    if 256 - p <= first {
      DivIs(first, p, k - 1);
    } else if 256 - 2 * p <= first {
      DivIs(first, p, k - 2);
    }
  }

  // The two halves of a byte at bit 7 - i.
  lemma PowersMeet(i: nat)
    requires i < 8
    ensures Pow2(7 - i) * Pow2(i + 1) == 256 && Pow2(i + 1) % 2 == 0
  {
    Powers();
  }

  lemma PowerNext(n: nat)
    ensures Pow2(n + 1) == 2 * Pow2(n)
  {
  }

  lemma {:induction false} PowerMono(m: nat, n: nat)
    requires m <= n
    ensures Pow2(m) <= Pow2(n)
    decreases n
  {
    if m < n {
      PowerMono(m, n - 1);
    }
  }

  lemma DivIs(a: nat, p: nat, k: nat)
    requires p > 0 && p * k <= a < p * (k + 1)
    ensures a / p == k && a % p == a - p * k
  {
    var q, r := a / p, a % p;
    assert a == p * q + r;
    if q < k {
      Larger(p, q + 1, k);
    } else if q > k {
      Larger(p, k + 1, q);
    }
  }

  lemma Larger(p: nat, a: nat, b: nat)
    requires a <= b
    ensures p * a <= p * b
  {
    assert p * b == p * a + p * (b - a);
  }

  lemma FirstByteIs(v: u64, n: nat)
    requires n == Extra(v, 0)
    ensures FirstByte(v) == 256 - Pow2(8 - n) + High(v, n) && (n == 8 ==> High(v, n) == 0)
    ensures n < 8 ==> FirstByte(v) < 256 - Pow2(8 - n) + Pow2(7 - n)
  {
    hide Pow2, Extra, High;
    FirstFits(v, n);
  }

  lemma FirstTells(v: u64, n: nat, i: nat)
    requires n == Extra(v, 0) && i <= n
    ensures i < 8 ==> (FirstByte(v) / Pow2(7 - i) % 2 == 0) == (i == n)
    ensures i < 8 && i == n ==> FirstByte(v) % Pow2(7 - i) == High(v, n)
    ensures n == 8 ==> High(v, n) == 0
  {
    hide Pow2, Extra, High, FirstByte;
    FirstByteIs(v, n);
    if i < 8 {
      LeadingOnes(FirstByte(v), n, i);
    }
  }

  lemma NextByte(v: nat, n: nat, i: nat, tail: seq<byte>)
    requires i <= n
    ensures var s := BytesOf(High(v, i), n - i) + tail;
      if i == n then s == tail
      else s != [] && s[0] == High(v, i) % 256 && s[1..] == BytesOf(High(v, i + 1), n - (i + 1)) + tail
           && High(v, i) == s[0] + 256 * High(v, i + 1)
  {
    hide High;
    HighNext(v, i);
  }

  lemma NoMoreBytes(first: byte, i: nat, s: seq<byte>)
    requires i == 8 || (i < 8 && first / Pow2(7 - i) % 2 == 0)
    ensures ReadMore(first, i, s) == Got(if i == 8 then 0 else first % Pow2(7 - i), s)
  {
    hide Pow2, Pow256;
  }

  lemma AnotherByte(first: byte, i: nat, s: seq<byte>, v: nat, rest: seq<byte>)
    requires i < 8 && first / Pow2(7 - i) % 2 != 0 && s != []
    requires ReadMore(first, i + 1, s[1..]) == Got(v, rest)
    ensures ReadMore(first, i, s) == Got(s[0] + 256 * v, rest)
  {
    hide Pow2, Pow256;
  }

  // From the i-th announced byte on, what is read is `v` without its lower bytes.
  lemma {:induction false} ReadRest(v: u64, n: nat, i: nat, tail: seq<byte>)
    requires n == Extra(v, 0) && i <= n
    ensures ReadMore(FirstByte(v), i, BytesOf(High(v, i), n - i) + tail) == Got(High(v, i), tail)
    decreases n - i
  {
    hide Extra, High, FirstByte, Pow2, Pow256, BytesOf, ReadMore;
    FirstTells(v, n, i);
    NextByte(v, n, i, tail);
    var s := BytesOf(High(v, i), n - i) + tail;
    if i < n {
      ReadRest(v, n, i + 1, tail);
      AnotherByte(FirstByte(v), i, s, High(v, i + 1), tail);
    } else {
      NoMoreBytes(FirstByte(v), i, s);
    }
  }

  // For every 64-bit value and whatever follows: what was printed is read
  // back, and not a byte more.
  lemma NumberRoundTrip(v: u64, tail: seq<byte>)
    ensures ReadNumber(NumberBytes(v) + tail) == Got(v, tail)
  {
    hide Extra, FirstByte, Pow2, ReadMore;
    var s := NumberBytes(v) + tail;
    assert s[1..] == BytesOf(v, Extra(v, 0)) + tail;
    ReadRest(v, Extra(v, 0), 0, tail);
  }

  lemma OneByte(v: u64)
    requires v < 0x80
    ensures NumberBytes(v) == [v]
  {
    Powers();
    assert Extra(v, 0) == 0;
  }

  lemma TwoBytes(v: u64)
    requires 0x80 <= v < 0x4000
    ensures NumberBytes(v) == [0x80 + v / 256, v % 256]
  {
    Powers();
    assert Pow2(14) == 0x4000;
    assert Extra(v, 0) == Extra(v, 1) == 1;
    assert BytesOf(v, 1) == [v % 256] + [];
    assert High(v, 1) == v / 256;
  }

  lemma ThreeBytes(v: u64)
    requires 0x4000 <= v < 0x20_0000
    ensures NumberBytes(v) == [0xC0 + v / 0x1_0000, v % 256, v / 256 % 256]
  {
    Powers();
    assert Pow2(14) == 0x4000 && Pow2(21) == 0x20_0000;
    assert Extra(v, 0) == Extra(v, 1) == Extra(v, 2) == 2;
    assert BytesOf(v / 256, 1) == [v / 256 % 256] + [];
    assert BytesOf(v, 2) == [v % 256] + BytesOf(v / 256, 1);
    assert High(v, 2) == High(v / 256, 1) && High(v / 256, 1) == v / 256 / 256;
  }

  // The leading ones of the first byte count the bytes behind it, of which the
  // lowest comes first; the bits below them are the highest of the number.
  lemma NumberKnown(v: u64)
    ensures v < 0x80 ==> NumberBytes(v) == [v]
    ensures 0x80 <= v < 0x4000 ==> NumberBytes(v) == [0x80 + v / 0x100, v % 0x100]
    ensures 0x4000 <= v < 0x20_0000 ==> NumberBytes(v) == [0xC0 + v / 0x1_0000, v % 0x100, v / 0x100 % 0x100]
  {
    hide NumberBytes;
    if v < 0x80 {
      OneByte(v);
    } else if v < 0x4000 {
      TwoBytes(v);
    } else if v < 0x20_0000 {
      ThreeBytes(v);
    }
  }

  // Exclusive or of the `n` lowest bits.
  function XorBits(a: nat, b: nat, n: nat): (r: nat)
    ensures r < Pow2(n)
  {
    if n == 0 then 0 else (if a % 2 == b % 2 then 0 else 1) + 2 * XorBits(a / 2, b / 2, n - 1)
  }

  lemma {:induction false} XorTwice(a: nat, b: nat, n: nat)
    requires a < Pow2(n)
    ensures XorBits(XorBits(a, b, n), b, n) == a
  {
    if n > 0 {
      XorTwice(a / 2, b / 2, n - 1);
      var x := XorBits(a, b, n);
      assert x % 2 == (if a % 2 == b % 2 then 0 else 1) && x / 2 == XorBits(a / 2, b / 2, n - 1);
    }
  }

  // Bit `k` of a number, from the bottom.
  function BitOf(v: nat, k: nat): (b: nat)
    ensures b < 2
  {
    if k == 0 then v % 2 else BitOf(v / 2, k - 1)
  }

  // A bit of the exclusive or is set where just one of the two is.
  lemma {:induction false} XorBit(a: nat, b: nat, n: nat, k: nat)
    requires k < n
    ensures BitOf(XorBits(a, b, n), k) == 1 <==> BitOf(a, k) != BitOf(b, k)
  {
    var x := XorBits(a, b, n);
    assert x % 2 == (if a % 2 == b % 2 then 0 else 1) && x / 2 == XorBits(a / 2, b / 2, n - 1);
    if k > 0 {
      XorBit(a / 2, b / 2, n - 1, k - 1);
    }
  }

  // The bits of two numbers laid side by side, `x` in the lower `m`.
  lemma {:induction false} BitsBeside(x: nat, y: nat, m: nat, k: nat)
    requires x < Pow2(m)
    ensures BitOf(x + Pow2(m) * y, k) == if k < m then BitOf(x, k) else BitOf(y, k - m)
  {
    if m > 0 {
      var v, rest := x + Pow2(m) * y, x / 2 + Pow2(m - 1) * y;
      assert Pow2(m) * y == 2 * (Pow2(m - 1) * y);
      assert v % 2 == x % 2 && v / 2 == rest;
      if k > 0 {
        BitsBeside(x / 2, y, m - 1, k - 1);
      }
    } else {
      assert Pow2(0) * y == y;
    }
  }
}
