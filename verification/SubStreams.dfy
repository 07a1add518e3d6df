// How the blocks divide into the streams of single files: their numbers,
// sizes and checksums, in one flat list over all blocks.
module SubStreams {
  import opened Common
  import opened Numbers
  import opened Bits
  import opened Wire
  import opened HeaderFormat
  import opened Blocks
  import opened CoderGraph
  import opened UnpackFormat

  datatype SubStreams = SubStreams(sizes: seq<u64>, hasCrc: seq<bool>, crcs: seq<nat>)

  function Sum(ns: seq<nat>): nat {
    if ns == [] then 0 else ns[0] + Sum(ns[1..])
  }

  function Subs(blocks: seq<Block>): (ns: seq<nat>)
    ensures |ns| == |blocks|
  {
    seq(|blocks|, i requires 0 <= i < |blocks| => blocks[i].numSub)
  }

  predicate Sized(block: Block) {
    |block.unpackSizes| == block.totalOut
  }

  // The size of the last output that nothing reads.
  function UnpackSizeBelow(block: Block, n: nat): u64
    requires Sized(block) && n <= block.totalOut
  {
    if n == 0 then 0
    else if FindOut(block.bindPairs, n - 1).None? then block.unpackSizes[n - 1]
    else UnpackSizeBelow(block, n - 1)
  }

  function UnpackSize(block: Block): u64
    requires Sized(block)
  {
    UnpackSizeBelow(block, block.totalOut)
  }

  lemma FoundIffBound(pairs: seq<BindPair>, o: nat)
    ensures FindOut(pairs, o).Some? <==> Bound(pairs, o)
  {
    if FindOut(pairs, o).Some? {
      var p := FindOut(pairs, o).value;
      var k :| 0 <= k < |pairs| && pairs[k] == p;
      assert pairs[k].outIndex == o;
    } else {
      forall k | 0 <= k < |pairs| ensures pairs[k].outIndex != o {
        assert pairs[k] in pairs;
      }
    }
  }

  lemma {:induction false} UnpackSizeIs(block: Block, out: nat, n: nat)
    requires Sized(block) && Wired(block, out) && out < n <= block.totalOut
    ensures UnpackSizeBelow(block, n) == block.unpackSizes[out]
  {
    FoundIffBound(block.bindPairs, n - 1);
    assert Bound(block.bindPairs, n - 1) <==> n - 1 != out;
    if n - 1 != out {
      UnpackSizeIs(block, out, n - 1);
    }
  }

  // The one size of a wired block that counts is that of its unbound output.
  lemma UnpackSizeOfOutput(block: Block, out: nat)
    requires Sized(block) && Wired(block, out)
    ensures UnpackSize(block) == block.unpackSizes[out]
  {
    UnpackSizeIs(block, out, block.totalOut);
  }

  // --- Reading ---

  function ReadCounts(s: seq<byte>, n: nat, total: nat, b: Bounds): (p: Parse<seq<nat>>)
    ensures p.Got? ==> |p.rest| <= |s| && |p.value| == n
    decreases n
  {
    if n == 0 then Got([], s) else
    NumberShrinks(s);
    var (v, s1) :- ReadNumber(s);
    if !b.Allows(v, b.maxEntries) || !b.Allows(total + v, b.maxEntries) then Bad(Limit) else
    var (more, s2) :- ReadCounts(s1, n - 1, total + v, b);
    Got([v as nat] + more, s2)
  }

  function WithSubs(blocks: seq<Block>, ns: seq<nat>): (r: seq<Block>)
    requires |blocks| == |ns|
    ensures |r| == |blocks| && forall i | 0 <= i < |r| :: r[i] == blocks[i].(numSub := ns[i])
  {
    seq(|blocks|, i requires 0 <= i < |blocks| => blocks[i].(numSub := ns[i]))
  }

  lemma StillSized(blocks: seq<Block>, ns: seq<nat>)
    requires |blocks| == |ns| && forall i | 0 <= i < |blocks| :: Sized(blocks[i])
    ensures forall i | 0 <= i < |blocks| :: Sized(WithSubs(blocks, ns)[i])
  {
    forall i | 0 <= i < |blocks| ensures Sized(WithSubs(blocks, ns)[i]) {
      assert Sized(blocks[i]);
    }
  }

  // `n` sizes that, with `sum`, stay below 2^64.
  function ReadSomeSizes(s: seq<byte>, n: nat, sum: u64): (p: Parse<(seq<u64>, u64)>)
    ensures p.Got? ==> |p.rest| <= |s| && |p.value.0| == n && p.value.1 == sum + Sum(p.value.0)
    decreases n
  {
    if n == 0 then Got(([], sum), s) else
    NumberShrinks(s);
    var (v, s1) :- ReadNumber(s);
    if sum + v >= TWO_64 then Bad(BadStructure) else
    var (more, s2) :- ReadSomeSizes(s1, n - 1, sum + v);
    Got(([v] + more.0, more.1), s2)
  }

  // All but the last size of every block, when they are there; the last one
  // is what is left of the block.
  function ReadSubSizes(s: seq<byte>, blocks: seq<Block>, explicit: bool): (p: Parse<seq<u64>>)
    requires forall i | 0 <= i < |blocks| :: Sized(blocks[i])
    ensures p.Got? ==> |p.rest| <= |s|
    decreases |blocks|
  {
    if blocks == [] then Got([], s)
    else if blocks[0].numSub == 0 then ReadSubSizes(s, blocks[1..], explicit)
    else
      var (some, s1) :- ReadSomeSizes(s, if explicit then blocks[0].numSub - 1 else 0, 0);
      var size := UnpackSize(blocks[0]);
      if some.1 > size then Bad(BadStructure) else
      var (more, s2) :- ReadSubSizes(s1, blocks[1..], explicit);
      Got(some.0 + [size - some.1] + more, s2)
  }

  // `sizes` in an array of `n` that was zero before.
  function Filled(sizes: seq<u64>, n: nat): seq<u64> {
    if |sizes| >= n then sizes else sizes + seq(n - |sizes|, _ => 0)
  }

  predicate OwnCrc(block: Block) {
    block.numSub == 1 && block.hasCrc
  }

  // Streams whose checksum is not that of their block.
  function Digests(blocks: seq<Block>): (n: nat)
    ensures n <= Sum(Subs(blocks))
  {
    if blocks == [] then 0 else
    assert Subs(blocks)[1..] == Subs(blocks[1..]);
    (if OwnCrc(blocks[0]) then 0 else blocks[0].numSub) + Digests(blocks[1..])
  }

  // The checksums in order: those of blocks, and the digests for the others.
  function Spread<T>(blocks: seq<Block>, own: Block -> T, digests: seq<T>): (r: seq<T>)
    requires |digests| == Digests(blocks)
    ensures |r| == Sum(Subs(blocks))
    decreases |blocks|
  {
    if blocks == [] then [] else
    assert Subs(blocks)[1..] == Subs(blocks[1..]);
    if OwnCrc(blocks[0]) then [own(blocks[0])] + Spread(blocks[1..], own, digests)
    else digests[..blocks[0].numSub] + Spread(blocks[1..], own, digests[blocks[0].numSub..])
  }

  predicate Present(block: Block) {
    true
  }

  function BlockCrc(block: Block): nat {
    block.crc
  }

  function ReadDigests(s: seq<byte>, blocks: seq<Block>): (p: Parse<(seq<bool>, seq<nat>)>)
    ensures p.Got? ==> |p.rest| <= |s| && |p.value.0| == |p.value.1| == Sum(Subs(blocks))
  {
    var (flags, s1) :- ReadAllOrBits(s, Digests(blocks));
    var (crcs, s2) :- ReadWhere(s1, 4, flags);
    Got((Spread(blocks, Present, flags), Spread(blocks, BlockCrc, crcs)), s2)
  }

  function ReadNumSubs(s: seq<byte>, n: nat, b: Bounds): (p: Parse<(seq<nat>, byte)>)
    ensures p.Got? ==> |p.rest| <= |s| && |p.value.0| == n
  {
    var (nid, s1) :- ReadByte(s);
    if nid != K_NUM_UNPACK_STREAM then Got((seq(n, _ => 1), nid), s1) else
    var (ns, s2) :- ReadCounts(s1, n, 0, b);
    var (next, s3) :- ReadByte(s2);
    Got((ns, next), s3)
  }

  function ReadFlatSizes(s: seq<byte>, blocks: seq<Block>, nid: byte): (p: Parse<(seq<u64>, byte)>)
    requires forall i | 0 <= i < |blocks| :: Sized(blocks[i])
    ensures p.Got? ==> |p.rest| <= |s|
  {
    var (sizes, s1) :- ReadSubSizes(s, blocks, nid == K_SIZE);
    var flat := Filled(sizes, Sum(Subs(blocks)));
    if nid != K_SIZE then Got((flat, nid), s1) else
    var (next, s2) :- ReadByte(s1);
    Got((flat, next), s2)
  }

  function ReadSubStreams(s: seq<byte>, had: seq<Block>, b: Bounds): (p: Parse<(seq<Block>, SubStreams)>)
    requires forall i | 0 <= i < |had| :: Sized(had[i])
    ensures p.Got? ==> |p.rest| <= |s|
  {
    var (counts, s1) :- ReadNumSubs(s, |had|, b);
    var blocks := WithSubs(had, counts.0);
    StillSized(had, counts.0);
    var (sizes, s2) :- ReadFlatSizes(s1, blocks, counts.1);
    var n := Sum(Subs(blocks));
    if sizes.1 != K_CRC then
      if sizes.1 != K_END then Bad(BadTerminator(sizes.1))
      else Got((blocks, SubStreams(sizes.0, seq(n, _ => false), seq(n, _ => 0))), s2)
    else
      var (digests, s3) :- ReadDigests(s2, blocks);
      var (last, s4) :- ReadByte(s3);
      if last != K_END then Bad(BadTerminator(last))
      else Got((blocks, SubStreams(sizes.0, digests.0, digests.1)), s4)
  }

  // --- Where the sizes lie ---

  // The sizes of each block that has streams add up to that of the block, and
  // begin where the streams of the blocks before it end.
  predicate Aligned(ns: seq<nat>, us: seq<nat>, sizes: seq<nat>)
    requires |ns| == |us|
    decreases |ns|
  {
    if ns == [] then sizes == []
    else |sizes| >= ns[0] && (ns[0] > 0 ==> Sum(sizes[..ns[0]]) == us[0]) && Aligned(ns[1..], us[1..], sizes[ns[0]..])
  }

  ghost predicate AlignedFlat(ns: seq<nat>, us: seq<nat>, sizes: seq<nat>)
    requires |ns| == |us|
  {
    && |sizes| == Sum(ns)
    && forall i | 0 <= i < |ns| ::
         Sum(ns[..i]) + ns[i] <= |sizes| &&
         (ns[i] > 0 ==> Sum(sizes[Sum(ns[..i])..Sum(ns[..i]) + ns[i]]) == us[i])
  }

  lemma {:induction false} SumSplit(a: seq<nat>, b: seq<nat>)
    ensures Sum(a + b) == Sum(a) + Sum(b)
  {
    if a == [] {
      assert a + b == b;
    } else {
      assert (a + b)[1..] == a[1..] + b;
      SumSplit(a[1..], b);
    }
  }

  lemma {:induction false} AlignedAt(ns: seq<nat>, us: seq<nat>, sizes: seq<nat>, i: nat)
    requires |ns| == |us| && i < |ns| && Aligned(ns, us, sizes)
    ensures |sizes| == Sum(ns) && Sum(ns[..i]) + ns[i] <= |sizes|
    ensures ns[i] > 0 ==> Sum(sizes[Sum(ns[..i])..Sum(ns[..i]) + ns[i]]) == us[i]
    decreases |ns|
  {
    hide Sum;
    AlignedTotal(ns, us, sizes);
    if i == 0 {
      SumNone();
      assert ns[..0] == [] && sizes[0..0 + ns[0]] == sizes[..ns[0]];
    } else {
      hide Aligned;
      AlignedRest(ns, us, sizes);
      AlignedAt(ns[1..], us[1..], sizes[ns[0]..], i - 1);
      assert ns[..i] == [ns[0]] + ns[1..][..i - 1];
      var first := Sum(ns[1..][..i - 1]);
      SumSplit([ns[0]], ns[1..][..i - 1]);
      SumOne(ns[0]);
      assert sizes[ns[0]..][first..first + ns[i]] == sizes[ns[0] + first..ns[0] + first + ns[i]];
    }
  }

  lemma SumNone()
    ensures Sum([]) == 0
  {
  }

  lemma AlignedRest(ns: seq<nat>, us: seq<nat>, sizes: seq<nat>)
    requires |ns| == |us| && ns != [] && Aligned(ns, us, sizes)
    ensures ns[0] <= |sizes| && Aligned(ns[1..], us[1..], sizes[ns[0]..])
  {
  }

  lemma {:induction false} AlignedTotal(ns: seq<nat>, us: seq<nat>, sizes: seq<nat>)
    requires |ns| == |us| && Aligned(ns, us, sizes)
    ensures |sizes| == Sum(ns)
    decreases |ns|
  {
    if ns != [] {
      AlignedTotal(ns[1..], us[1..], sizes[ns[0]..]);
    }
  }

  lemma {:induction false} FlatAligned(ns: seq<nat>, us: seq<nat>, sizes: seq<nat>)
    requires |ns| == |us| && AlignedFlat(ns, us, sizes)
    ensures Aligned(ns, us, sizes)
    decreases |ns|
  {
    if ns != [] {
      assert ns[..0] == [] && sizes[0..ns[0]] == sizes[..ns[0]];
      var rest, more, left := ns[1..], us[1..], sizes[ns[0]..];
      hide Sum, Aligned;
      forall i | 0 <= i < |rest|
        ensures Sum(rest[..i]) + rest[i] <= |left|
        ensures rest[i] > 0 ==> Sum(left[Sum(rest[..i])..Sum(rest[..i]) + rest[i]]) == more[i]
      {
        FlatTail(ns, us, sizes, i);
      }
      FlatAligned(rest, more, left);
    }
  }

  lemma FlatTail(ns: seq<nat>, us: seq<nat>, sizes: seq<nat>, i: nat)
    requires |ns| == |us| && AlignedFlat(ns, us, sizes) && i + 1 < |ns|
    ensures ns[0] <= |sizes|
    ensures var rest, left := ns[1..], sizes[ns[0]..];
      && Sum(rest[..i]) + rest[i] <= |left|
      && (rest[i] > 0 ==> Sum(left[Sum(rest[..i])..Sum(rest[..i]) + rest[i]]) == us[1..][i])
  {
    hide Sum;
    var rest := ns[1..];
    assert ns[..i + 1] == [ns[0]] + rest[..i];
    SumSplit([ns[0]], rest[..i]);
    SumOne(ns[0]);
    var first := Sum(rest[..i]);
    assert Sum(ns[..i + 1]) + ns[i + 1] <= |sizes|;
    assert sizes[ns[0]..][first..first + rest[i]] == sizes[ns[0] + first..ns[0] + first + rest[i]];
  }

  lemma AlignedIff(ns: seq<nat>, us: seq<nat>, sizes: seq<nat>)
    requires |ns| == |us|
    ensures Aligned(ns, us, sizes) <==> AlignedFlat(ns, us, sizes)
  {
    if Aligned(ns, us, sizes) {
      AlignedTotal(ns, us, sizes);
      forall i | 0 <= i < |ns|
        ensures Sum(ns[..i]) + ns[i] <= |sizes|
        ensures ns[i] > 0 ==> Sum(sizes[Sum(ns[..i])..Sum(ns[..i]) + ns[i]]) == us[i]
      {
        AlignedAt(ns, us, sizes, i);
      }
    }
    if AlignedFlat(ns, us, sizes) {
      FlatAligned(ns, us, sizes);
    }
  }

  function UnpackSizes(blocks: seq<Block>): (us: seq<nat>)
    requires forall i | 0 <= i < |blocks| :: Sized(blocks[i])
    ensures |us| == |blocks|
  {
    seq(|blocks|, i requires 0 <= i < |blocks| => UnpackSize(blocks[i]))
  }

  lemma AlignedCons(n: nat, u: nat, own: seq<nat>, ns: seq<nat>, us: seq<nat>, more: seq<nat>)
    requires |ns| == |us| && |own| == n && (n > 0 ==> Sum(own) == u) && Aligned(ns, us, more)
    ensures Aligned([n] + ns, [u] + us, own + more)
  {
    hide Sum;
    assert ([n] + ns)[1..] == ns && ([u] + us)[1..] == us;
    assert (own + more)[..n] == own && (own + more)[n..] == more;
  }

  lemma SubsCons(blocks: seq<Block>)
    requires blocks != [] && forall i | 0 <= i < |blocks| :: Sized(blocks[i])
    ensures Subs(blocks) == [blocks[0].numSub] + Subs(blocks[1..])
    ensures UnpackSizes(blocks) == [UnpackSize(blocks[0])] + UnpackSizes(blocks[1..])
  {
    hide UnpackSize;
  }

  lemma SumOne(v: nat)
    ensures Sum([v]) == v
  {
    assert [v][1..] == [];
  }

  // With the size record, every block has its sizes where they are looked for.
  // Without it that holds as long as no block has more than one stream.
  lemma {:induction false} SizesAligned(s: seq<byte>, blocks: seq<Block>, explicit: bool)
    requires forall i | 0 <= i < |blocks| :: Sized(blocks[i])
    requires explicit || forall i | 0 <= i < |blocks| :: blocks[i].numSub <= 1
    ensures var p := ReadSubSizes(s, blocks, explicit);
      p.Got? ==> Aligned(Subs(blocks), UnpackSizes(blocks), p.value)
    decreases |blocks|
  {
    hide UnpackSize, Aligned, Sum, Subs, UnpackSizes, ReadSomeSizes;
    var p := ReadSubSizes(s, blocks, explicit);
    if blocks == [] {
      AlignedNone(Subs(blocks), UnpackSizes(blocks));
    } else if p.Got? {
      SubsCons(blocks);
      var n := blocks[0].numSub;
      if n == 0 {
        SizesAligned(s, blocks[1..], explicit);
        AlignedCons(0, UnpackSize(blocks[0]), [], Subs(blocks[1..]), UnpackSizes(blocks[1..]), p.value);
        assert [] + p.value == p.value;
      } else {
        var some := ReadSomeSizes(s, if explicit then n - 1 else 0, 0);
        SizesAligned(some.rest, blocks[1..], explicit);
        var last := [UnpackSize(blocks[0]) - some.value.1];
        SumSplit(some.value.0, last);
        SumOne(last[0]);
        var more := ReadSubSizes(some.rest, blocks[1..], explicit).value;
        AlignedCons(n, UnpackSize(blocks[0]), some.value.0 + last, Subs(blocks[1..]), UnpackSizes(blocks[1..]), more);
      }
    }
  }

  lemma AlignedNone(ns: seq<nat>, us: seq<nat>)
    requires ns == [] == us
    ensures Aligned(ns, us, [])
  {
  }

  // What the sizes are taken to be without the record: one for each block that
  // has streams, the others being left at zero.
  function Ones(ns: seq<nat>, us: seq<nat>): (r: seq<nat>)
    requires |ns| == |us|
    ensures |r| <= Sum(ns)
  {
    if ns == [] then [] else (if ns[0] == 0 then [] else [us[0]]) + Ones(ns[1..], us[1..])
  }

  function Zeros(n: nat): (z: seq<nat>)
    ensures |z| == n
  {
    seq(n, _ => 0)
  }

  function Implied(ns: seq<nat>, us: seq<nat>): (r: seq<nat>)
    requires |ns| == |us|
    ensures |r| == Sum(ns)
  {
    var r := Ones(ns, us);
    r + Zeros(Sum(ns) - |r|)
  }

  lemma {:induction false} ImpliedIs(s: seq<byte>, blocks: seq<Block>)
    requires forall i | 0 <= i < |blocks| :: Sized(blocks[i])
    ensures ReadSubSizes(s, blocks, false) == Got(Ones(Subs(blocks), UnpackSizes(blocks)), s)
    decreases |blocks|
  {
    hide UnpackSize, Subs, UnpackSizes;
    if blocks != [] {
      SubsCons(blocks);
      assert Subs(blocks)[1..] == Subs(blocks[1..]) && UnpackSizes(blocks)[1..] == UnpackSizes(blocks[1..]);
      ImpliedIs(s, blocks[1..]);
      if blocks[0].numSub > 0 {
        assert ReadSomeSizes(s, 0, 0) == Got(([], 0), s);
        assert [] + [UnpackSize(blocks[0]) - 0] == [UnpackSize(blocks[0])];
      } else {
        assert [] + Ones(Subs(blocks[1..]), UnpackSizes(blocks[1..])) == Ones(Subs(blocks[1..]), UnpackSizes(blocks[1..]));
      }
    }
  }

  // The blocks behind one of several streams have none.
  predicate OnlyLastShared(ns: seq<nat>) {
    forall i, j | 0 <= i < j < |ns| && ns[i] > 1 :: ns[j] == 0
  }

  lemma {:induction false} SumZeros(ns: seq<nat>)
    requires forall i | 0 <= i < |ns| :: ns[i] == 0
    ensures Sum(ns) == 0
  {
    if ns != [] {
      SumZeros(ns[1..]);
    }
  }

  lemma ImpliedFew(n: nat, u: nat, ns: seq<nat>, us: seq<nat>)
    requires |ns| == |us| && n <= 1
    ensures Implied([n] + ns, [u] + us) == (if n == 0 then [] else [u]) + Implied(ns, us)
  {
    assert ([n] + ns)[1..] == ns && ([u] + us)[1..] == us;
  }

  lemma ImpliedMany(n: nat, u: nat, ns: seq<nat>, us: seq<nat>)
    requires |ns| == |us| && n > 1 && forall j | 0 <= j < |ns| :: ns[j] == 0
    ensures Implied([n] + ns, [u] + us) == [u] + Zeros(n - 1) + Implied(ns, us)
  {
    assert ([n] + ns)[1..] == ns && ([u] + us)[1..] == us;
    SumZeros(ns);
  }

  lemma {:induction false} ImpliedAligned(ns: seq<nat>, us: seq<nat>)
    requires |ns| == |us| && OnlyLastShared(ns)
    ensures Aligned(ns, us, Implied(ns, us))
    decreases |ns|
  {
    hide Aligned, Implied, Sum;
    if ns == [] {
      AlignedNone(ns, us);
      SumNone();
    } else {
      var n, u, rest, more := ns[0], us[0], ns[1..], us[1..];
      ImpliedAligned(rest, more);
      assert ns == [n] + rest && us == [u] + more;
      SumOne(u);
      if n <= 1 {
        ImpliedFew(n, u, rest, more);
        AlignedCons(n, u, if n == 0 then [] else [u], rest, more, Implied(rest, more));
      } else {
        assert forall j | 0 <= j < |rest| :: rest[j] == ns[j + 1];
        ImpliedMany(n, u, rest, more);
        SumSplit([u], Zeros(n - 1));
        SumZeros(Zeros(n - 1));
        AlignedCons(n, u, [u] + Zeros(n - 1), rest, more, Implied(rest, more));
      }
    }
  }

  lemma {:induction false} SharedMisaligned(ns: seq<nat>, i: nat, j: nat)
    requires i < j < |ns| && ns[i] > 1 && ns[j] > 0
    ensures var us := seq(|ns|, _ => 1); !Aligned(ns, us, Implied(ns, us))
    decreases |ns|
  {
    var us: seq<nat> := seq(|ns|, _ => 1);
    var r := Implied(ns, us);
    assert us[1..] == seq(|ns[1..]|, _ => 1);
    if ns[0] <= 1 {
      assert r[ns[0]..] == Implied(ns[1..], us[1..]);
      SharedMisaligned(ns[1..], i - 1, j - 1);
    } else {
      var k := if i == 0 then j else i;
      FirstOfOnes(ns[1..], us[1..], k - 1);
      var own := r[..ns[0]];
      assert own[0] == 1 && own[1..][0] == 1;
      assert Sum(own) == 1 + Sum(own[1..]) && Sum(own[1..]) == 1 + Sum(own[1..][1..]);
    }
  }

  lemma {:induction false} FirstOfOnes(ns: seq<nat>, us: seq<nat>, k: nat)
    requires |ns| == |us| && k < |ns| && ns[k] > 0 && forall i | 0 <= i < |us| :: us[i] == 1
    ensures Ones(ns, us) != [] && Ones(ns, us)[0] == 1
    decreases |ns|
  {
    if ns[0] == 0 {
      FirstOfOnes(ns[1..], us[1..], k - 1);
    }
  }

  // Without the size record, the sizes lie where they are looked for, whatever
  // the sizes of the blocks, just when a block of several streams is the last
  // that has any.
  lemma MissingSizesIff(ns: seq<nat>)
    ensures (forall us: seq<nat> | |us| == |ns| :: AlignedFlat(ns, us, Implied(ns, us))) <==> OnlyLastShared(ns)
  {
    if OnlyLastShared(ns) {
      forall us: seq<nat> | |us| == |ns| ensures AlignedFlat(ns, us, Implied(ns, us)) {
        ImpliedAligned(ns, us);
        AlignedIff(ns, us, Implied(ns, us));
      }
    } else {
      var i, j :| 0 <= i < j < |ns| && ns[i] > 1 && ns[j] != 0;
      SharedMisaligned(ns, i, j);
      var us := seq(|ns|, _ => 1);
      AlignedIff(ns, us, Implied(ns, us));
    }
  }

  // The sizes and checksums that are read, and where.
  lemma SubStreamsAligned(s: seq<byte>, had: seq<Block>, b: Bounds)
    requires forall i | 0 <= i < |had| :: Sized(had[i])
    requires ReadSubStreams(s, had, b).Got?
    ensures var (blocks, subs) := ReadSubStreams(s, had, b).value;
      && ReadNumSubs(s, |had|, b).Got? && (forall i | 0 <= i < |blocks| :: Sized(blocks[i]))
      && |subs.sizes| == |subs.hasCrc| == |subs.crcs| == Sum(Subs(blocks))
      && if ReadNumSubs(s, |had|, b).value.1 == K_SIZE || forall i | 0 <= i < |blocks| :: blocks[i].numSub <= 1
         then AlignedFlat(Subs(blocks), UnpackSizes(blocks), subs.sizes)
         else subs.sizes == Implied(Subs(blocks), UnpackSizes(blocks))
  {
    hide ReadSubSizes, ReadDigests, UnpackSizes, Subs, Sum, Aligned, AlignedFlat;
    var counts := ReadNumSubs(s, |had|, b);
    var blocks := WithSubs(had, counts.value.0);
    StillSized(had, counts.value.0);
    var explicit := counts.value.1 == K_SIZE;
    var sizes := ReadSubSizes(counts.rest, blocks, explicit).value;
    if explicit || forall i | 0 <= i < |blocks| :: blocks[i].numSub <= 1 {
      SizesAligned(counts.rest, blocks, explicit);
      AlignedTotal(Subs(blocks), UnpackSizes(blocks), sizes);
      AlignedIff(Subs(blocks), UnpackSizes(blocks), sizes);
    } else {
      ImpliedIs(counts.rest, blocks);
      FilledIs(Subs(blocks), UnpackSizes(blocks), sizes);
    }
  }

  lemma FilledIs(ns: seq<nat>, us: seq<nat>, sizes: seq<u64>)
    requires |ns| == |us| && sizes == Ones(ns, us)
    ensures Filled(sizes, Sum(ns)) == Implied(ns, us)
  {
    hide Ones;
    if |sizes| == Sum(ns) {
      assert Ones(ns, us) + Zeros(0) == Ones(ns, us);
    }
  }

  lemma SubsSplit(blocks: seq<Block>)
    requires blocks != []
    ensures Subs(blocks) == [blocks[0].numSub] + Subs(blocks[1..])
  {
  }

  // The index of a block's first stream in the flat lists, and of its first
  // digest among the digests.
  function FirstSub(blocks: seq<Block>, i: nat): nat
    requires i <= |blocks|
  {
    Sum(Subs(blocks[..i]))
  }

  function FirstDigest(blocks: seq<Block>, i: nat): nat
    requires i <= |blocks|
  {
    Digests(blocks[..i])
  }

  lemma PrefixCounts(blocks: seq<Block>, i: nat)
    requires 0 < i <= |blocks|
    ensures FirstSub(blocks, i) == blocks[0].numSub + FirstSub(blocks[1..], i - 1)
    ensures FirstDigest(blocks, i) == (if OwnCrc(blocks[0]) then 0 else blocks[0].numSub) + FirstDigest(blocks[1..], i - 1)
  {
    hide OwnCrc;
    var front := blocks[..i];
    assert front[1..] == blocks[1..][..i - 1];
    SubsSplit(front);
    assert Subs(front)[1..] == Subs(front[1..]);
  }

  lemma NoneBefore(blocks: seq<Block>)
    ensures FirstSub(blocks, 0) == 0 && FirstDigest(blocks, 0) == 0
  {
  }

  lemma SliceShift<T>(head: seq<T>, tail: seq<T>, k: nat, n: nat)
    requires k + n <= |tail|
    ensures (head + tail)[|head| + k..|head| + k + n] == tail[k..k + n]
  {
  }

  lemma SliceDrop<T>(s: seq<T>, d: nat, k: nat, n: nat)
    requires d + k + n <= |s|
    ensures s[d..][k..k + n] == s[d + k..d + k + n]
  {
  }

  // The span of a block's streams, and of those of its digests.
  lemma {:induction false} SpanOf(blocks: seq<Block>, i: nat)
    requires i < |blocks|
    ensures FirstSub(blocks, i) + blocks[i].numSub <= Sum(Subs(blocks))
    ensures FirstDigest(blocks, i) + (if OwnCrc(blocks[i]) then 0 else blocks[i].numSub) <= Digests(blocks)
    decreases |blocks|
  {
    hide OwnCrc, FirstSub, FirstDigest;
    SubsSplit(blocks);
    assert Subs(blocks)[1..] == Subs(blocks[1..]);
    if i == 0 {
      NoneBefore(blocks);
    } else {
      SpanOf(blocks[1..], i - 1);
      PrefixCounts(blocks, i);
    }
  }

  lemma SpreadCons<T>(blocks: seq<Block>, own: Block -> T, digests: seq<T>)
    requires |digests| == Digests(blocks) && blocks != []
    ensures var n := blocks[0].numSub;
      && (OwnCrc(blocks[0]) || n <= |digests|)
      && var taken := if OwnCrc(blocks[0]) then 0 else n;
      && |digests[taken..]| == Digests(blocks[1..])
      && var head := if OwnCrc(blocks[0]) then [own(blocks[0])] else digests[..taken];
      && |head| == n && Spread(blocks, own, digests) == head + Spread(blocks[1..], own, digests[taken..])
  {
  }

  // What the checksums of block `i` are.
  ghost function Own<T>(block: Block, own: Block -> T, digests: seq<T>, from: nat): seq<T>
    requires OwnCrc(block) || from + block.numSub <= |digests|
  {
    if OwnCrc(block) then [own(block)] else digests[from..from + block.numSub]
  }

  lemma OwnShift<T>(block: Block, own: Block -> T, digests: seq<T>, taken: nat, from: nat)
    requires taken <= |digests| && (OwnCrc(block) || taken + from + block.numSub <= |digests|)
    ensures Own(block, own, digests[taken..], from) == Own(block, own, digests, taken + from)
  {
    if !OwnCrc(block) {
      SliceDrop(digests, taken, from, block.numSub);
    }
  }

  lemma OwnFirst<T>(block: Block, own: Block -> T, digests: seq<T>, tail: seq<T>)
    requires OwnCrc(block) || block.numSub <= |digests|
    ensures var head := if OwnCrc(block) then [own(block)] else digests[..block.numSub];
      |head| == block.numSub && (head + tail)[0..block.numSub] == Own(block, own, digests, 0)
  {
  }

  // A block's checksum, and the digests of its streams, are found behind those
  // of the blocks before it.
  lemma {:induction false} SpreadAt<T>(blocks: seq<Block>, own: Block -> T, digests: seq<T>, i: nat)
    requires |digests| == Digests(blocks) && i < |blocks|
    ensures var first, from, n := FirstSub(blocks, i), FirstDigest(blocks, i), blocks[i].numSub;
      && first + n <= Sum(Subs(blocks)) && (OwnCrc(blocks[i]) || from + n <= |digests|)
      && Spread(blocks, own, digests)[first..first + n] == Own(blocks[i], own, digests, from)
    decreases |blocks|
  {
    hide OwnCrc, Sum, Subs, Spread, Digests, FirstSub, FirstDigest, Own;
    SpanOf(blocks, i);
    SpreadCons(blocks, own, digests);
    var taken := if OwnCrc(blocks[0]) then 0 else blocks[0].numSub;
    var tail := Spread(blocks[1..], own, digests[taken..]);
    if i == 0 {
      NoneBefore(blocks);
      OwnFirst(blocks[0], own, digests, tail);
    } else {
      var n, first, from := blocks[i].numSub, FirstSub(blocks[1..], i - 1), FirstDigest(blocks[1..], i - 1);
      SpreadAt(blocks[1..], own, digests[taken..], i - 1);
      PrefixCounts(blocks, i);
      SliceShift(if OwnCrc(blocks[0]) then [own(blocks[0])] else digests[..taken], tail, first, n);
      OwnShift(blocks[i], own, digests, taken, from);
    }
  }

  // With a record of checksums, the stream of a block that has one of its own
  // gets that; the others get what the record lists for them, in order.
  lemma DigestsMean(s: seq<byte>, blocks: seq<Block>, i: nat)
    requires i < |blocks| && ReadDigests(s, blocks).Got?
    ensures var (flags, crcs) := ReadDigests(s, blocks).value;
      var first, n := FirstSub(blocks, i), blocks[i].numSub;
      && first + n <= |flags| == |crcs|
      && if n == 1 && blocks[i].hasCrc then flags[first] && crcs[first] == blocks[i].crc
         else
           var listed := ReadAllOrBits(s, Digests(blocks));
           var words := ReadWhere(listed.rest, 4, listed.value);
           var from := FirstDigest(blocks, i);
           && from + n <= Digests(blocks)
           && flags[first..first + n] == listed.value[from..from + n] && crcs[first..first + n] == words.value[from..from + n]
  {
    hide ReadAllOrBits, ReadWhere, Spread, Digests, FirstSub, FirstDigest, Sum, Subs;
    var listed := ReadAllOrBits(s, Digests(blocks));
    var words := ReadWhere(listed.rest, 4, listed.value);
    SpreadIs(blocks, Present, listed.value, i);
    SpreadIs(blocks, BlockCrc, words.value, i);
  }

  lemma SpreadIs<T>(blocks: seq<Block>, own: Block -> T, digests: seq<T>, i: nat)
    requires |digests| == Digests(blocks) && i < |blocks|
    ensures var all, first, n, from := Spread(blocks, own, digests), FirstSub(blocks, i), blocks[i].numSub, FirstDigest(blocks, i);
      && first + n <= |all|
      && if n == 1 && blocks[i].hasCrc then all[first] == own(blocks[i])
         else from + n <= |digests| && all[first..first + n] == digests[from..from + n]
  {
    hide Spread, Digests, FirstSub, FirstDigest, Sum, Subs, Own, OwnCrc;
    SpreadAt(blocks, own, digests, i);
    OwnIs(blocks[i], own, digests, FirstDigest(blocks, i), Spread(blocks, own, digests), FirstSub(blocks, i));
  }

  lemma OwnIs<T>(block: Block, own: Block -> T, digests: seq<T>, from: nat, all: seq<T>, first: nat)
    requires (OwnCrc(block) || from + block.numSub <= |digests|) && first + block.numSub <= |all|
    requires all[first..first + block.numSub] == Own(block, own, digests, from)
    ensures if block.numSub == 1 && block.hasCrc then all[first] == own(block)
            else from + block.numSub <= |digests| && all[first..first + block.numSub] == digests[from..from + block.numSub]
  {
    if OwnCrc(block) {
      assert all[first..first + 1][0] == all[first];
    }
  }

  // Without that record no stream has a checksum, not even the only one of a
  // block that has.
  lemma NoDigests(had: seq<Block>, b: Bounds, tail: seq<byte>)
    requires forall i | 0 <= i < |had| :: Sized(had[i])
    ensures var p := ReadSubStreams([0x00] + tail, had, b); p.Got? ==>
      && |p.value.1.hasCrc| == |had| && |p.value.1.crcs| == |had|
      && forall k | 0 <= k < |had| :: !p.value.1.hasCrc[k] && p.value.1.crcs[k] == 0
  {
    hide ReadSubSizes, Filled, Sum;
    var ones: seq<nat> := seq(|had|, _ => 1);
    assert Subs(WithSubs(had, ones)) == ones;
    AllOnes(ones);
  }

  lemma {:induction false} AllOnes(ns: seq<nat>)
    requires forall i | 0 <= i < |ns| :: ns[i] == 1
    ensures Sum(ns) == |ns|
  {
    if ns != [] {
      AllOnes(ns[1..]);
    }
  }
}
