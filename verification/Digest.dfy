// The benchmark's digest: four lanes mixed four words at a time, over a carry
// for bytes short of a word.
module Digest {
  import opened Common
  import opened Numbers
  import opened Wire
  import opened Sources

  const DIGEST_K: int := 0x100_0000_01b3

  function Seeds(): (l: seq<u64>)
    ensures |l| == 4
  {
    [0xcbf2_9ce4_8422_2325, 0x9e37_79b9_7f4a_7c15, 0xff51_afd7_ed55_8ccd, 0xc4ce_b9fe_1a85_ec53]
  }

  function Xor64(a: u64, b: u64): u64 {
    WordBelow();
    XorBits(a, b, 64)
  }

  function Times64(a: u64): u64 {
    a * DIGEST_K % TWO_64
  }

  // The 23 highest bits come round to the bottom.
  function Rotate23(a: u64): u64 {
    a * 0x80_0000 % TWO_64 + a / 0x200_0000_0000
  }

  function Mix(lane: u64, word: u64): u64 {
    Rotate23(Times64(Xor64(lane, word)))
  }

  lemma Powers23()
    ensures Pow2(23) == 0x80_0000 && Pow2(41) == 0x200_0000_0000 && Pow2(64) == TWO_64
  {
    Powers();
    PowerStep(8);
    PowerStep(16);
    PowerStep(24);
    PowerStep(32);
    PowerStep(7);
    PowerStep(15);
    PowerStep(1);
    PowerStep(9);
    PowerStep(17);
    PowerStep(25);
    PowerStep(33);
    PowerStep(40);
    PowerStep(48);
    PowerStep(56);
  }

  lemma Wrapped(x: nat, h: nat)
    requires x < TWO_64
    ensures (x + TWO_64 * h) % TWO_64 == x
  {
  }

  lemma Turned(a: u64)
    ensures Rotate23(a) == a / 0x200_0000_0000 + 0x80_0000 * (a % 0x200_0000_0000)
  {
    var low, high: nat := a % 0x200_0000_0000, a / 0x200_0000_0000;
    assert a == low + 0x200_0000_0000 * high;
    assert a * 0x80_0000 == low * 0x80_0000 + TWO_64 * high;
    Wrapped(low * 0x80_0000, high);
  }

  lemma Beside41(low: nat, high: nat, k: nat)
    requires low < 0x200_0000_0000
    ensures BitOf(low + 0x200_0000_0000 * high, k) == if k < 41 then BitOf(low, k) else BitOf(high, k - 41)
  {
    Powers23();
    BitsBeside(low, high, 41, k);
    hide BitOf, Pow2;
    assert Pow2(41) * high == 0x200_0000_0000 * high;
  }

  lemma Beside23(low: nat, high: nat, k: nat)
    requires low < 0x80_0000
    ensures BitOf(low + 0x80_0000 * high, k) == if k < 23 then BitOf(low, k) else BitOf(high, k - 23)
  {
    Powers23();
    BitsBeside(low, high, 23, k);
    hide BitOf, Pow2;
    assert Pow2(23) * high == 0x80_0000 * high;
  }

  lemma Halves(a: u64) returns (low: nat, high: nat)
    ensures low < 0x200_0000_0000 && high < 0x80_0000 && a == low + 0x200_0000_0000 * high
    ensures Rotate23(a) == high + 0x80_0000 * low
  {
    Turned(a);
    low, high := a % 0x200_0000_0000, a / 0x200_0000_0000;
  }

  // Every bit goes 23 places up, the highest coming round.
  lemma RotateBit(a: u64, k: nat)
    requires k < 64
    ensures BitOf(Rotate23(a), if k < 41 then k + 23 else k - 41) == BitOf(a, k)
  {
    hide *;
    var low, high := Halves(a);
    Beside41(low, high, k);
    Beside23(high, low, if k < 41 then k + 23 else k - 41);
  }

  // No two words are mixed into a lane the same.
  lemma MixTells(lane: u64, a: u64, b: u64)
    requires Mix(lane, a) == Mix(lane, b)
    ensures a == b
  {
    WordBelow();
    RotateBack(Times64(Xor64(lane, a)), Times64(Xor64(lane, b)));
    TimesBack(Xor64(lane, a));
    TimesBack(Xor64(lane, b));
    XorCommutes(lane, a, 64);
    XorCommutes(lane, b, 64);
    XorTwice(a, lane, 64);
    XorTwice(b, lane, 64);
  }

  lemma RotateBack(a: u64, b: u64)
    requires Rotate23(a) == Rotate23(b)
    ensures a == b
  {
    Turned(a);
    Turned(b);
    hide Rotate23;
    var l, h: nat := a % 0x200_0000_0000, a / 0x200_0000_0000;
    var l', h': nat := b % 0x200_0000_0000, b / 0x200_0000_0000;
    assert a == l + 0x200_0000_0000 * h && b == l' + 0x200_0000_0000 * h';
  }

  // The factor is odd, so there is one that undoes it.
  lemma TimesBack(a: u64)
    ensures Times64(a) * 0xce96_5057_aff6_957b % TWO_64 == a
  {
    var k, j, r: nat := DIGEST_K, 0xce96_5057_aff6_957b, 0xce_9650_590f;
    assert k * j == 1 + r * TWO_64;
    var q := a * k / TWO_64;
    assert Times64(a) == a * k - q * TWO_64;
    var n := a * r - q * j;
    assert Times64(a) * j == a + n * TWO_64;
  }

  lemma {:induction false} XorCommutes(a: nat, b: nat, n: nat)
    ensures XorBits(a, b, n) == XorBits(b, a, n)
  {
    if n > 0 {
      XorCommutes(a / 2, b / 2, n - 1);
    }
  }

  lemma {:induction false} XorNothing(b: nat, n: nat)
    requires b < Pow2(n)
    ensures XorBits(0, b, n) == b
  {
    if n > 0 {
      XorNothing(b / 2, n - 1);
    }
  }

  // Multiplied first and then turned round.
  lemma MixKnown()
    ensures Mix(0, 1) == 0x8000_0000_D980_0000 && Mix(0, 0x8000_0000_0000_0000) == 0x40_0000
  {
    hide *;
    MixNothing(1);
    MixNothing(0x8000_0000_0000_0000);
    TurnedKnown();
  }

  lemma TurnedKnown()
    ensures Rotate23(Times64(1)) == 0x8000_0000_D980_0000 && Rotate23(Times64(0x8000_0000_0000_0000)) == 0x40_0000
  {
    Wrapped(DIGEST_K, 0);
    Wrapped(0x8000_0000_0000_0000, 0x80_0000_00d9);
    assert Times64(1) == DIGEST_K && Times64(0x8000_0000_0000_0000) == 0x8000_0000_0000_0000;
    hide Rotate23, Times64;
    Turned(DIGEST_K);
    Turned(0x8000_0000_0000_0000);
  }

  lemma MixNothing(word: u64)
    ensures Mix(0, word) == Rotate23(Times64(word))
  {
    WordBelow();
    hide XorBits;
    XorNothing(word, 64);
  }

  // --- What the digest is of ---

  // Word `k` of a byte string.
  function WordAt(s: seq<byte>, k: nat): u64
    requires 8 * k + 8 <= |s|
  {
    Powers();
    Word(s[8 * k..8 * k + 8], 8)
  }

  // Word k goes to lane k mod 4.
  function Lanes(s: seq<byte>, n: nat): (l: seq<u64>)
    requires 8 * n <= |s|
    ensures |l| == 4
  {
    if n == 0 then Seeds() else
    var l, k := Lanes(s, n - 1), (n - 1) % 4;
    l[k := Mix(l[k], WordAt(s, n - 1))]
  }

  // The bytes left over go to the lane of the word they would have begun.
  function TailLanes(l: seq<u64>, k: nat, tail: seq<byte>): (r: seq<u64>)
    requires |l| == 4 && k < 4
    ensures |r| == 4
  {
    if tail == [] then l else
    var before := TailLanes(l, k, tail[..|tail| - 1]);
    before[k := Times64(Xor64(before[k], tail[|tail| - 1]))]
  }

  function Folded(l: seq<u64>, bytes: u64): u64 {
    if l == [] then bytes else Mix(Folded(l[..|l| - 1], bytes), l[|l| - 1])
  }

  function DigestOf(s: seq<byte>): u64 {
    var n := |s| / 8;
    Folded(TailLanes(Lanes(s, n), n % 4, s[8 * n..]), |s| % TWO_64)
  }

  lemma {:induction false} LanesPrefix(s: seq<byte>, b: seq<byte>, n: nat)
    requires 8 * n <= |s|
    ensures Lanes(s + b, n) == Lanes(s, n)
  {
    hide Mix, Word;
    if n > 0 {
      LanesPrefix(s, b, n - 1);
      assert (s + b)[8 * (n - 1)..8 * (n - 1) + 8] == s[8 * (n - 1)..8 * (n - 1) + 8];
    }
  }

  class Sink {
    var lanes: seq<u64>
    var words: nat
    var tail: seq<byte>
    var bytes: nat
    ghost var seen: seq<byte>

    ghost predicate Valid()
      reads this
    {
      && bytes == |seen| && words == |seen| / 8 && lanes == Lanes(seen, words) && tail == seen[8 * words..]
    }

    constructor ()
      ensures Valid() && seen == []
    {
      lanes, words, tail, bytes, seen := Seeds(), 0, [], 0, [];
    }

    method MixLane(lane: nat, word: u64)
      requires lane < |lanes|
      modifies `lanes
      ensures lanes == old(lanes)[lane := Mix(old(lanes[lane]), word)]
    {
      lanes := lanes[lane := Mix(lanes[lane], word)];
    }

    // The word at `at` of `buf`, which is the next one of `all`.
    method MixNext(buf: seq<byte>, at: nat, ghost all: seq<byte>, ghost from: nat)
      requires 8 * words <= |all| && lanes == Lanes(all, words)
      requires from <= |all| && at + 8 <= |buf| && all[from..] == buf && 8 * words == from + at
      modifies `lanes, `words
      ensures words == old(words) + 1 && 8 * words <= |all| && lanes == Lanes(all, words)
    {
      hide Lanes, Mix, Word;
      assert all[8 * words..8 * words + 8] == buf[at..at + 8];
      WordStep(all, words, buf[at..at + 8]);
      MixLane(words % 4, Word(buf[at..at + 8], 8));
      words := words + 1;
    }

    // The carry is filled up first, then words go one at a time up to a lane
    // boundary, four at a time, and one at a time again.
    method Update(data: seq<byte>)
      requires Valid()
      modifies this
      ensures Valid() && seen == old(seen) + data
    {
      hide Lanes, Mix, Word;
      ghost var all := seen + data;
      LanesPrefix(seen, data, words);
      bytes := bytes + |data|;
      seen := all;
      var buf := data;
      if tail != [] {
        var take := if 8 - |tail| < |buf| then 8 - |tail| else |buf|;
        CarryParts(old(seen), data, 8 * words, tail);
        tail := tail + buf[..take];
        buf := buf[take..];
        if |tail| < 8 {
          assert tail == all[8 * words..];
          return;
        }
        WordStep(all, words, tail);
        Powers();
        MixLane(words % 4, Word(tail, 8));
        words := words + 1;
        tail := [];
      }
      assert all[8 * words..] == buf;
      MixAll(buf, all);
    }

    // What is carried and the new bytes, as one.
    static lemma CarryParts(seen: seq<byte>, data: seq<byte>, at: nat, tail: seq<byte>)
      requires at <= |seen| && seen[at..] == tail && |tail| < 8
      ensures (seen + data)[at..] == tail + data
      ensures |tail| + |data| >= 8 ==>
        && (seen + data)[at..at + 8] == tail + data[..8 - |tail|]
        && (seen + data)[at + 8..] == data[8 - |tail|..]
    {
      if |tail| + |data| >= 8 {
        assert (seen + data)[at..at + 8] == (seen + data)[at..][..8];
        assert (seen + data)[at + 8..] == (seen + data)[at..][8..];
      }
    }

    method MixAll(buf: seq<byte>, ghost all: seq<byte>)
      requires bytes == |all| && seen == all && 8 * words <= |all| && lanes == Lanes(all, words) && all[8 * words..] == buf
      modifies this
      ensures Valid() && seen == old(seen)
    {
      hide Lanes, Mix, Word;
      var at: nat := 0;
      ghost var from := 8 * words;
      while words % 4 != 0 && at + 8 <= |buf|
        invariant at <= |buf| && 8 * words == from + at && lanes == Lanes(all, words)
        invariant bytes == |all| && seen == all
        decreases |buf| - at
      {
        MixNext(buf, at, all, from);
        at := at + 8;
      }
      while at + 32 <= |buf|
        invariant at <= |buf| && 8 * words == from + at && lanes == Lanes(all, words)
        invariant (words % 4 == 0 || at + 8 > |buf|) && bytes == |all| && seen == all
      {
        MixFour(buf, at, all, from);
        at := at + 32;
      }
      while at + 8 <= |buf|
        invariant at <= |buf| && 8 * words == from + at && lanes == Lanes(all, words)
        invariant bytes == |all| && seen == all
        decreases |buf| - at
      {
        MixNext(buf, at, all, from);
        at := at + 8;
      }
      assert buf[at..] == all[8 * words..];
      tail := buf[at..];
    }

    // Four words, each to the lane of its place.
    method MixFour(buf: seq<byte>, at: nat, ghost all: seq<byte>, ghost from: nat)
      requires words % 4 == 0 && 8 * words <= |all| && lanes == Lanes(all, words)
      requires from <= |all| && at + 32 <= |buf| && all[from..] == buf && 8 * words == from + at
      modifies `lanes, `words
      ensures words == old(words) + 4 && 8 * words <= |all| && lanes == Lanes(all, words)
    {
      hide Lanes, Mix, Word;
      Powers();
      for lane := 0 to 4
        invariant words == old(words) && 8 * (words + lane) <= |all| && lanes == Lanes(all, words + lane)
      {
        var word := buf[at + 8 * lane..at + 8 * lane + 8];
        assert all[8 * (words + lane)..8 * (words + lane) + 8] == word;
        WordStep(all, words + lane, word);
        MixLane(lane, Word(word, 8));
      }
      words := words + 4;
    }

    // The digest of everything seen, however it was cut.
    method Finish() returns (folded: u64)
      requires Valid()
      modifies this
      ensures folded == DigestOf(seen) && seen == old(seen)
    {
      hide Lanes, Mix, Times64, Xor64;
      ghost var l, k := lanes, words % 4;
      assert tail[..0] == [];
      for i := 0 to |tail|
        invariant tail == old(tail) && |lanes| == 4 && words % 4 == k && lanes == TailLanes(l, k, tail[..i])
        invariant seen == old(seen) && bytes == old(bytes)
      {
        var lane := words % 4;
        assert tail[..i + 1][..i] == tail[..i];
        lanes := lanes[lane := Times64(Xor64(lanes[lane], tail[i]))];
      }
      assert tail[..|tail|] == tail;
      tail := [];
      folded := bytes % TWO_64;
      assert lanes[..0] == [];
      for i := 0 to 4
        invariant |lanes| == 4 && folded == Folded(lanes[..i], bytes % TWO_64) && seen == old(seen)
        invariant lanes == TailLanes(l, k, old(tail)) && bytes == old(bytes)
      {
        assert lanes[..i + 1][..i] == lanes[..i];
        folded := Mix(folded, lanes[i]);
      }
      assert lanes[..4] == lanes;
    }
  }

  lemma WordStep(all: seq<byte>, n: nat, word: seq<byte>)
    requires 8 * n + 8 <= |all| && word == all[8 * n..8 * n + 8]
    ensures 0 <= Word(word, 8) < TWO_64
    ensures var l := Lanes(all, n); Lanes(all, n + 1) == l[n % 4 := Mix(l[n % 4], Word(word, 8))]
  {
    hide Mix, Word;
    Powers();
  }

  // Any cutting of the same bytes gives the same digest.
  method DigestPieces(pieces: seq<seq<byte>>) returns (digest: u64)
    ensures digest == DigestOf(Joined(pieces))
  {
    hide DigestOf, Lanes;
    var sink := new Sink();
    for i := 0 to |pieces|
      invariant sink.Valid() && fresh(sink) && sink.seen == Joined(pieces[..i])
    {
      assert pieces[..i + 1][..i] == pieces[..i];
      sink.Update(pieces[i]);
    }
    assert pieces[..|pieces|] == pieces;
    digest := sink.Finish();
  }
}
