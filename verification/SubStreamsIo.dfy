// Printing and reading the streams of the blocks, step by step.
module SubStreamsIo {
  import opened Common
  import opened Numbers
  import opened Bits
  import opened Wire
  import opened BitSets
  import opened HeaderFormat
  import opened Blocks
  import opened PackFormat
  import opened UnpackFormat
  import opened SubStreams
  import opened SubStreamsOut
  import UnpackIo

  class UnpackInfo {
    var blocks: seq<BlockInfo>

    constructor ()
      ensures blocks == []
    {
      blocks := [];
    }

    // A block of a single stream.
    method Add(methods: seq<Method>, sizes: seq<u64>, crc: u32)
      modifies this
      ensures blocks == old(blocks) + [BlockInfo(methods, sizes, crc, 1, [], [])]
    {
      blocks := blocks + [BlockInfo(methods, sizes, crc, 1, [], [])];
    }

    method AddMultiple(methods: seq<Method>, sizes: seq<u64>, crc: u32, n: u64, subSizes: seq<u64>, subCrcs: seq<u32>)
      modifies this
      ensures blocks == old(blocks) + [BlockInfo(methods, sizes, crc, n, subSizes, subCrcs)]
    {
      blocks := blocks + [BlockInfo(methods, sizes, crc, n, subSizes, subCrcs)];
    }

    method WriteTo(header: Buffer)
      requires Countable(blocks)
      modifies header
      ensures header.bytes == old(header.bytes) + UnpackBytes(blocks, [])
    {
      UnpackIo.WriteTo(blocks, header);
    }

    method WriteSubstreams(header: Buffer)
      modifies header
      ensures header.bytes == old(header.bytes) + SubBytes(blocks, [])
    {
      hide NumbersPart, SizesPart, CrcsPart, AllCrcs;
      header.U8(K_SUB_STREAMS_INFO);
      WriteNumbers(header);
      WriteFrontSizes(header);
      WriteCrcs(header);
      header.U8(K_END);
      Nest5(old(header.bytes), [K_SUB_STREAMS_INFO], NumbersPart(blocks), SizesPart(blocks), CrcsPart(AllCrcs(blocks)), [K_END]);
      assert [K_END] + [] == [K_END];
    }

    // Only written when some block does not have exactly one stream.
    method WriteNumbers(header: Buffer)
      modifies header
      ensures header.bytes == old(header.bytes) + NumbersPart(blocks)
    {
      hide NumberBytes;
      var i := 0;
      while i < |blocks| && blocks[i].numSub == 1
        invariant 0 <= i <= |blocks| && header.bytes == old(header.bytes)
        invariant forall k | 0 <= k < i :: blocks[k].numSub == 1
      {
        i := i + 1;
      }
      if i < |blocks| {
        header.U8(K_NUM_UNPACK_STREAM);
        ghost var before, ns := header.bytes, NumSubs(blocks);
        assert ns[0..] == ns;
        for j := 0 to |blocks|
          invariant header.bytes + NumbersBytes(ns[j..]) == before + NumbersBytes(ns)
        {
          assert ns[j..][1..] == ns[j + 1..];
          Nest2(header.bytes, NumberBytes(ns[j]), NumbersBytes(ns[j + 1..]));
          header.Number(blocks[j].numSub);
        }
        assert header.bytes + [] == header.bytes && ns[|blocks|..] == [];
        Nest2(old(header.bytes), [K_NUM_UNPACK_STREAM], NumbersBytes(ns));
      } else {
        assert header.bytes + [] == header.bytes;
      }
    }

    // Only written when some block has several sizes; its last one is left out.
    method WriteFrontSizes(header: Buffer)
      modifies header
      ensures header.bytes == old(header.bytes) + SizesPart(blocks)
    {
      hide NumbersBytes, FrontSizes;
      var i := 0;
      while i < |blocks| && |blocks[i].subSizes| <= 1
        invariant 0 <= i <= |blocks| && header.bytes == old(header.bytes)
        invariant forall k | 0 <= k < i :: |blocks[k].subSizes| <= 1
      {
        i := i + 1;
      }
      if i < |blocks| {
        header.U8(K_SIZE);
        ghost var before := header.bytes;
        assert blocks[0..] == blocks;
        for j := 0 to |blocks|
          invariant header.bytes + NumbersBytes(AllFrontSizes(blocks[j..])) == before + NumbersBytes(AllFrontSizes(blocks))
        {
          assert blocks[j..][1..] == blocks[j + 1..];
          NumbersSplit(FrontSizes(blocks[j]), AllFrontSizes(blocks[j + 1..]));
          Nest2(header.bytes, NumbersBytes(FrontSizes(blocks[j])), NumbersBytes(AllFrontSizes(blocks[j + 1..])));
          WriteFront(blocks[j], header);
        }
        NoNumbers([]);
        assert NumbersBytes([]) == NumbersBytes([]) + [] && header.bytes + [] == header.bytes && blocks[|blocks|..] == [];
        Nest2(old(header.bytes), [K_SIZE], NumbersBytes(AllFrontSizes(blocks)));
      } else {
        assert header.bytes + [] == header.bytes;
      }
    }

    static method WriteFront(info: BlockInfo, header: Buffer)
      modifies header
      ensures header.bytes == old(header.bytes) + NumbersBytes(FrontSizes(info))
    {
      if |info.subSizes| > 1 {
        header.Numbers(info.subSizes[..|info.subSizes| - 1]);
      } else {
        assert header.bytes + [] == header.bytes;
      }
    }

    method WriteCrcs(header: Buffer)
      modifies header
      ensures header.bytes == old(header.bytes) + CrcsPart(AllCrcs(blocks))
    {
      hide CrcsOf, WhereBytes;
      var crcs: seq<u32> := [];
      assert blocks[0..] == blocks;
      for i := 0 to |blocks|
        invariant crcs + AllCrcs(blocks[i..]) == AllCrcs(blocks) && header.bytes == old(header.bytes)
      {
        assert blocks[i..][1..] == blocks[i + 1..];
        assert (crcs + CrcsOf(blocks[i])) + AllCrcs(blocks[i + 1..]) == crcs + AllCrcs(blocks[i..]);
        crcs := crcs + CrcsOf(blocks[i]);
      }
      assert blocks[|blocks|..] == [] && crcs + [] == crcs;
      if crcs != [] {
        header.U8(K_CRC);
        header.U8(1);
        header.Where(crcs, 4, AllTrue(|crcs|));
        Nest3(old(header.bytes), [K_CRC], [1], WhereBytes(crcs, 4, AllTrue(|crcs|)));
      } else {
        assert header.bytes + [] == header.bytes;
      }
    }
  }

  // --- Reading ---

  lemma PrependCount(front: seq<nat>, s: seq<byte>, n: nat, total: nat, b: Bounds)
    requires n > 0
    ensures match ReadNumber(s)
      case Bad(e) => Prepend(front, ReadCounts(s, n, total, b)) == Bad(e)
      case Got(v, rest) =>
        Prepend(front, ReadCounts(s, n, total, b)) ==
          if !b.Allows(v, b.maxEntries) || !b.Allows(total + v, b.maxEntries) then Bad(Limit)
          else Prepend(front + [v as nat], ReadCounts(rest, n - 1, total + v, b))
  {
    hide ReadNumber;
    if ReadNumber(s).Got? {
      var p := ReadNumber(s);
      PrependMore(front, p.value as nat, ReadCounts(p.rest, n - 1, total + p.value, b));
    }
  }

  method ParseNumSubs(header: Cursor, n: nat, b: Bounds) returns (r: Result<(seq<nat>, byte), HeaderError>)
    modifies header
    ensures Agrees(r, header.rest, ReadNumSubs(old(header.rest), n, b))
  {
    hide ReadNumber, Prepend, ReadCounts;
    var ns: seq<nat> := seq(n, _ => 1);
    var nid :- header.U8();
    if nid == K_NUM_UNPACK_STREAM {
      var counts: seq<nat>, total := [], 0;
      ghost var start := header.rest;
      PrependNothing(ReadCounts(start, n, 0, b));
      for i := 0 to n
        invariant Prepend(counts, ReadCounts(header.rest, n - i, total, b)) == ReadCounts(start, n, 0, b)
      {
        PrependCount(counts, header.rest, n - i, total, b);
        var number :- header.Number();
        var count :- b.Count(number, b.maxEntries);
        total :- b.Count(total + count, b.maxEntries);
        counts := counts + [count];
      }
      NoMoreCounts(counts, header.rest, total, b);
      ns := counts;
      nid :- header.U8();
    }
    return Ok((ns, nid));
  }

  lemma NoMoreCounts(front: seq<nat>, s: seq<byte>, total: nat, b: Bounds)
    ensures Prepend(front, ReadCounts(s, 0, total, b)) == Got(front, s)
  {
    assert front + [] == front;
  }

  ghost function Front(some: seq<u64>, p: Parse<(seq<u64>, u64)>): Parse<(seq<u64>, u64)> {
    match p
    case Got(v, rest) => Got((some + v.0, v.1), rest)
    case Bad(e) => Bad(e)
  }

  lemma FrontSize(some: seq<u64>, s: seq<byte>, n: nat, sum: u64)
    requires n > 0
    ensures match ReadNumber(s)
      case Bad(e) => Front(some, ReadSomeSizes(s, n, sum)) == Bad(e)
      case Got(v, rest) =>
        Front(some, ReadSomeSizes(s, n, sum)) ==
          if sum + v >= TWO_64 then Bad(BadStructure)
          else Front(some + [v], ReadSomeSizes(rest, n - 1, sum + v))
  {
    hide ReadNumber, Sum;
    if ReadNumber(s).Got? && sum + ReadNumber(s).value < TWO_64 {
      var p := ReadNumber(s);
      var more := ReadSomeSizes(p.rest, n - 1, sum + p.value);
      if more.Got? {
        assert (some + [p.value]) + more.value.0 == some + ([p.value] + more.value.0);
      }
    }
  }

  lemma FrontBounds(s: seq<byte>, n: nat, sum: u64)
    ensures Front([], ReadSomeSizes(s, n, sum)) == ReadSomeSizes(s, n, sum)
    ensures n == 0 ==> forall some: seq<u64> :: Front(some, ReadSomeSizes(s, n, sum)) == Got((some, sum), s)
  {
    hide Sum;
    var p := ReadSomeSizes(s, n, sum);
    if p.Got? {
      assert [] + p.value.0 == p.value.0;
    }
    if n == 0 {
      forall some: seq<u64> ensures Front(some, p) == Got((some, sum), s) {
        assert some + [] == some;
      }
    }
  }

  lemma FillNext(w: seq<u64>, n: nat, v: u64)
    requires |w| < n
    ensures Filled(w, n)[|w| := v] == Filled(w + [v], n)
  {
  }

  // `n` sizes put behind those in `w`, and their sum.
  method FillSome(header: Cursor, flat: seq<u64>, ghost w: seq<u64>, next: nat, n: nat)
      returns (r: Result<(seq<u64>, u64), HeaderError>)
    requires next == |w| && next + n <= |flat| && flat == Filled(w, |flat|)
    modifies header
    ensures match ReadSomeSizes(old(header.rest), n, 0)
      case Got(v, rest) => r == Ok((Filled(w + v.0, |flat|), v.1)) && header.rest == rest
      case Bad(e) => r == Err(e)
    ensures r.Ok? ==> |r.value.0| == |flat|
  {
    hide ReadNumber, Front, ReadSomeSizes, Filled, Sum;
    var sizes, sum: u64 := flat, 0;
    ghost var some: seq<u64> := [];
    FrontBounds(header.rest, n, 0);
    assert w + [] == w;
    for i := 0 to n
      invariant |some| == i && |sizes| == |flat| && sizes == Filled(w + some, |flat|)
      invariant Front(some, ReadSomeSizes(header.rest, n - i, sum)) == ReadSomeSizes(old(header.rest), n, 0)
    {
      FrontSize(some, header.rest, n - i, sum);
      var size :- header.Number();
      FillNext(w + some, |flat|, size);
      assert (w + some) + [size] == w + (some + [size]);
      sizes := sizes[next + i := size];
      if sum + size >= TWO_64 {
        return Err(BadStructure);
      }
      sum := sum + size;
      some := some + [size];
    }
    FrontBounds(header.rest, 0, sum);
    return Ok((sizes, sum));
  }

  // Reading on from block `i`, with the sizes in `w` found before.
  ghost function OnFrom(w: seq<u64>, s: seq<byte>, blocks: seq<Block>, explicit: bool): Parse<seq<u64>>
    requires forall i | 0 <= i < |blocks| :: Sized(blocks[i])
  {
    Prepend(w, ReadSubSizes(s, blocks, explicit))
  }

  lemma OnFromStep(w: seq<u64>, s: seq<byte>, blocks: seq<Block>, explicit: bool)
    requires blocks != [] && forall i | 0 <= i < |blocks| :: Sized(blocks[i])
    ensures blocks[0].numSub == 0 ==> OnFrom(w, s, blocks, explicit) == OnFrom(w, s, blocks[1..], explicit)
    ensures blocks[0].numSub > 0 ==>
      var p := ReadSomeSizes(s, if explicit then blocks[0].numSub - 1 else 0, 0);
      OnFrom(w, s, blocks, explicit) ==
        if p.Bad? then Bad(p.error)
        else if p.value.1 > UnpackSize(blocks[0]) then Bad(BadStructure)
        else OnFrom(w + p.value.0 + [UnpackSize(blocks[0]) - p.value.1], p.rest, blocks[1..], explicit)
  {
    hide ReadSomeSizes, UnpackSize, Sum;
    if blocks[0].numSub > 0 {
      var p := ReadSomeSizes(s, if explicit then blocks[0].numSub - 1 else 0, 0);
      if p.Got? && p.value.1 <= UnpackSize(blocks[0]) {
        var own := p.value.0 + [UnpackSize(blocks[0]) - p.value.1];
        var more := ReadSubSizes(p.rest, blocks[1..], explicit);
        assert w + p.value.0 + [UnpackSize(blocks[0]) - p.value.1] == w + own;
        if more.Got? {
          assert (w + own) + more.value == w + (own + more.value);
        }
      }
    }
  }

  lemma OnFromEnds(w: seq<u64>, s: seq<byte>, blocks: seq<Block>, explicit: bool)
    requires forall i | 0 <= i < |blocks| :: Sized(blocks[i])
    ensures blocks == [] ==> OnFrom(w, s, blocks, explicit) == Got(w, s)
    ensures w == [] ==> OnFrom(w, s, blocks, explicit) == ReadSubSizes(s, blocks, explicit)
  {
    hide ReadSubSizes;
    assert w + [] == w;
    PrependNothing(ReadSubSizes(s, blocks, explicit));
    if blocks == [] {
      assert ReadSubSizes(s, blocks, explicit) == Got([], s) by { NoBlocksLeft(s, explicit); }
    }
  }

  lemma NoBlocksLeft(s: seq<byte>, explicit: bool)
    ensures ReadSubSizes(s, [], explicit) == Got([], s)
  {
  }

  method ParseFlatSizes(header: Cursor, blocks: seq<Block>, total: nat, nid: byte)
      returns (r: Result<(seq<u64>, byte), HeaderError>)
    requires (forall i | 0 <= i < |blocks| :: Sized(blocks[i])) && total == Sum(Subs(blocks))
    modifies header
    ensures Agrees(r, header.rest, ReadFlatSizes(old(header.rest), blocks, nid))
  {
    hide OnFrom, ReadSubSizes, ReadSomeSizes, Filled, UnpackSize, Sum, Subs;
    var flat: seq<u64> := seq(total, _ => 0);
    var next := 0;
    ghost var w: seq<u64> := [];
    FilledZero(total);
    OnFromEnds(w, header.rest, blocks, nid == K_SIZE);
    assert blocks[0..] == blocks;
    for i := 0 to |blocks|
      invariant |flat| == total && flat == Filled(w, total) && next == |w|
      invariant next + Sum(Subs(blocks[i..])) <= total
      invariant OnFrom(w, header.rest, blocks[i..], nid == K_SIZE)
             == ReadSubSizes(old(header.rest), blocks, nid == K_SIZE)
    {
      OnFromStep(w, header.rest, blocks[i..], nid == K_SIZE);
      assert blocks[i..][1..] == blocks[i + 1..];
      SumSubsStep(blocks[i..]);
      if blocks[i].numSub == 0 {
        continue;
      }
      var sum: u64 := 0;
      ghost var some := ReadSomeSizes(header.rest, if nid == K_SIZE then blocks[i].numSub - 1 else 0, 0);
      NoneRead(header.rest);
      assert w + [] == w;
      if nid == K_SIZE {
        var filled :- FillSome(header, flat, w, next, blocks[i].numSub - 1);
        next := next + (blocks[i].numSub - 1);
        flat, sum := filled.0, filled.1;
      }
      if sum > UnpackSize(blocks[i]) {
        return Err(BadStructure);
      }
      w := w + some.value.0;
      FillNext(w, total, UnpackSize(blocks[i]) - sum);
      flat := flat[next := UnpackSize(blocks[i]) - sum];
      next := next + 1;
      w := w + [UnpackSize(blocks[i]) - sum];
    }
    OnFromEnds(w, header.rest, blocks[|blocks|..], nid == K_SIZE);
    var last := nid;
    if nid == K_SIZE {
      last :- header.U8();
    }
    return Ok((flat, last));
  }

  lemma FilledZero(n: nat)
    ensures Filled([], n) == seq(n, _ => 0) && |Filled([], n)| == n
  {
  }

  lemma SumSubsStep(blocks: seq<Block>)
    requires blocks != []
    ensures Sum(Subs(blocks)) == blocks[0].numSub + Sum(Subs(blocks[1..]))
  {
    SubsSplit(blocks);
    assert Subs(blocks)[1..] == Subs(blocks[1..]);
  }

  lemma NoneRead(s: seq<byte>)
    ensures ReadSomeSizes(s, 0, 0) == Got(([], 0), s)
  {
  }

  // --- Checksums ---

  // Flags, or words, put so far into a list of `n` that was clear before.
  function FlagsIn(done: seq<bool>, n: nat): seq<bool> {
    if |done| >= n then done else done + seq(n - |done|, _ => false)
  }

  function WordsIn(done: seq<nat>, n: nat): seq<nat> {
    if |done| >= n then done else done + seq(n - |done|, _ => 0)
  }

  lemma PutFlag(done: seq<bool>, n: nat, v: bool)
    requires |done| < n
    ensures |FlagsIn(done, n)| == n && FlagsIn(done, n)[|done| := v] == FlagsIn(done + [v], n)
    ensures !FlagsIn(done, n)[|done|]
  {
  }

  lemma PutWord(done: seq<nat>, n: nat, v: nat)
    requires |done| < n
    ensures |WordsIn(done, n)| == n && WordsIn(done, n)[|done| := v] == WordsIn(done + [v], n)
  {
  }

  // The digests of one block, from the `k`-th on, go to the flat lists.
  method PutDigests(bits: BitSet, crcs: seq<nat>, ghost flags: seq<bool>, ghost words: seq<nat>, next: nat,
                    present: seq<bool>, missing: seq<nat>, k: nat, n: nat) returns (r: seq<nat>)
    requires bits.Valid() && |crcs| == bits.bitCount && |present| == |missing| && k + n <= |present|
    requires |flags| == |words| == next && next + n <= bits.bitCount
    requires bits.Flags() == FlagsIn(flags, bits.bitCount) && crcs == WordsIn(words, bits.bitCount)
    modifies bits
    ensures bits.Valid() && bits.bitCount == old(bits.bitCount)
    ensures bits.Flags() == FlagsIn(flags + present[k..k + n], bits.bitCount)
    ensures r == WordsIn(words + missing[k..k + n], bits.bitCount) && |r| == |crcs|
  {
    hide BitSet.Flags, BitSet.Contains, BitSet.Valid, FlagsIn, WordsIn;
    r := crcs;
    assert flags + present[k..k] == flags && words + missing[k..k] == words;
    for j := 0 to n
      invariant bits.Valid() && bits.bitCount == old(bits.bitCount)
      invariant bits.Flags() == FlagsIn(flags + present[k..k + j], bits.bitCount)
      invariant r == WordsIn(words + missing[k..k + j], bits.bitCount) && |r| == |crcs|
    {
      ghost var f, w := flags + present[k..k + j], words + missing[k..k + j];
      PutFlag(f, bits.bitCount, present[k + j]);
      PutWord(w, bits.bitCount, missing[k + j]);
      Longer(flags, present, k, k + j);
      Longer(words, missing, k, k + j);
      if present[k + j] {
        var _ := bits.Insert(next + j);
      } else {
        var _ := bits.Remove(next + j);
      }
      r := r[next + j := missing[k + j]];
    }
  }

  lemma Longer<T>(front: seq<T>, s: seq<T>, k: nat, j: nat)
    requires k <= j < |s|
    ensures (front + s[k..j]) + [s[j]] == front + s[k..j + 1]
  {
  }

  // The check that the digests stay within the streams never fails.
  method CountDigests(blocks: seq<Block>, total: nat) returns (r: Result<nat, HeaderError>)
    requires total == Sum(Subs(blocks))
    ensures r == Ok(Digests(blocks))
  {
    hide Sum, Subs, OwnCrc;
    var n := 0;
    assert blocks[0..] == blocks;
    for i := 0 to |blocks|
      invariant n + Digests(blocks[i..]) == Digests(blocks)
    {
      assert blocks[i..][1..] == blocks[i + 1..];
      if !(blocks[i].numSub == 1 && blocks[i].hasCrc) {
        OwnIs(blocks[i]);
        if n + blocks[i].numSub > total {
          return Err(BadStructure);
        }
        n := n + blocks[i].numSub;
      } else {
        OwnIs(blocks[i]);
      }
    }
    return Ok(n);
  }

  lemma OwnIs(block: Block)
    ensures OwnCrc(block) == (block.numSub == 1 && block.hasCrc)
  {
  }

  // What is done, and what the blocks from here on add to it.
  ghost predicate Spreading<T>(done: seq<T>, blocks: seq<Block>, own: Block -> T, digests: seq<T>, k: nat, whole: seq<T>) {
    && k <= |digests| && |digests| - k == Digests(blocks)
    && done + Spread(blocks, own, digests[k..]) == whole
  }

  lemma SpreadingStep<T>(done: seq<T>, blocks: seq<Block>, own: Block -> T, digests: seq<T>, k: nat, whole: seq<T>)
    requires blocks != [] && Spreading(done, blocks, own, digests, k, whole)
    ensures OwnCrc(blocks[0]) || k + blocks[0].numSub <= |digests|
    ensures |done| + blocks[0].numSub <= |whole| && (OwnCrc(blocks[0]) ==> blocks[0].numSub == 1)
    ensures var taken := if OwnCrc(blocks[0]) then 0 else blocks[0].numSub;
      var head := if OwnCrc(blocks[0]) then [own(blocks[0])] else digests[k..k + taken];
      Spreading(done + head, blocks[1..], own, digests, k + taken, whole)
  {
    hide Digests, Spread;
    SpreadCons(blocks, own, digests[k..]);
    var taken := if OwnCrc(blocks[0]) then 0 else blocks[0].numSub;
    var head := if OwnCrc(blocks[0]) then [own(blocks[0])] else digests[k..][..taken];
    assert digests[k..][..taken] == digests[k..k + taken] && digests[k..][taken..] == digests[k + taken..];
    var more := Spread(blocks[1..], own, digests[k + taken..]);
    assert (done + head) + more == done + (head + more);
  }

  lemma SpreadingStarts<T>(blocks: seq<Block>, own: Block -> T, digests: seq<T>)
    requires |digests| == Digests(blocks)
    ensures Spreading([], blocks, own, digests, 0, Spread(blocks, own, digests))
  {
    assert digests[0..] == digests;
    assert [] + Spread(blocks, own, digests) == Spread(blocks, own, digests);
  }

  lemma SpreadingEnds<T>(done: seq<T>, own: Block -> T, digests: seq<T>, k: nat, whole: seq<T>)
    requires Spreading(done, [], own, digests, k, whole)
    ensures done == whole
  {
    assert done + [] == done;
  }

  method ParseDigests(header: Cursor, blocks: seq<Block>, total: nat) returns (r: Result<(seq<bool>, seq<nat>), HeaderError>)
    requires total == Sum(Subs(blocks))
    modifies header
    ensures Agrees(r, header.rest, ReadDigests(old(header.rest), blocks))
  {
    hide ReadAllOrBits, ReadWhere, BitSet.Flags, BitSet.Contains, BitSet.Valid, FlagsIn, WordsIn;
    hide Spreading, Spread, Digests, Sum, Subs, OwnCrc;
    var counted := CountDigests(blocks, total);
    var n := counted.value;
    var present :- ReadAllOrBitSet(header, n);
    var missing :- header.Where(4, present);
    SpreadingStarts(blocks, Present, present);
    SpreadingStarts(blocks, BlockCrc, missing);
    ghost var allFlags, allWords := Spread(blocks, Present, present), Spread(blocks, BlockCrc, missing);
    var bits := new BitSet.WithCapacity(total);
    var crcs: seq<nat> := seq(total, _ => 0);
    var next: nat, k: nat := 0, 0;
    ghost var flags: seq<bool>, words: seq<nat> := [], [];
    NothingIn(total);
    assert blocks[0..] == blocks;
    for i := 0 to |blocks|
      invariant bits.Valid() && bits.bitCount == total && fresh(bits) && |crcs| == total && next == |flags| == |words|
      invariant bits.Flags() == FlagsIn(flags, total) && crcs == WordsIn(words, total)
      invariant Spreading(flags, blocks[i..], Present, present, k, allFlags)
      invariant Spreading(words, blocks[i..], BlockCrc, missing, k, allWords)
      invariant header.rest == ReadDigests(old(header.rest), blocks).rest
    {
      SpreadingStep(flags, blocks[i..], Present, present, k, allFlags);
      SpreadingStep(words, blocks[i..], BlockCrc, missing, k, allWords);
      assert blocks[i..][1..] == blocks[i + 1..];
      OwnIs(blocks[i]);
      if blocks[i].numSub == 1 && blocks[i].hasCrc {
        PutFlag(flags, total, true);
        PutWord(words, total, blocks[i].crc);
        var _ := bits.Insert(next);
        crcs := crcs[next := blocks[i].crc];
        flags, words := flags + [true], words + [blocks[i].crc];
        next := next + 1;
      } else {
        var n := blocks[i].numSub;
        crcs := PutDigests(bits, crcs, flags, words, next, present, missing, k, n);
        flags, words := flags + present[k..k + n], words + missing[k..k + n];
        next, k := next + n, k + n;
      }
    }
    assert blocks[|blocks|..] == [];
    SpreadingEnds(flags, Present, present, k, allFlags);
    SpreadingEnds(words, BlockCrc, missing, k, allWords);
    AllIn(flags, words, total);
    return Ok((bits.Flags(), crcs));
  }

  lemma NothingIn(n: nat)
    ensures FlagsIn([], n) == seq(n, _ => false) && WordsIn([], n) == seq(n, _ => 0)
  {
  }

  lemma AllIn(flags: seq<bool>, words: seq<nat>, n: nat)
    requires |flags| == |words| == n
    ensures FlagsIn(flags, n) == flags && WordsIn(words, n) == words
  {
  }

  // A missing size record leaves sizes at zero; every index stays inside.
  method ParseSubStreams(header: Cursor, had: seq<Block>, b: Bounds)
      returns (r: Result<(seq<Block>, SubStreams), HeaderError>)
    requires forall i | 0 <= i < |had| :: Sized(had[i])
    modifies header
    ensures Agrees(r, header.rest, ReadSubStreams(old(header.rest), had, b))
  {
    hide ReadNumSubs, ReadFlatSizes, ReadDigests, Sum, Subs;
    var counts :- ParseNumSubs(header, |had|, b);
    var blocks := WithSubs(had, counts.0);
    StillSized(had, counts.0);
    var total := Total(blocks);
    var sizes :- ParseFlatSizes(header, blocks, total, counts.1);
    var hasCrc: seq<bool>, crcs: seq<nat> := seq(total, _ => false), seq(total, _ => 0);
    var nid := sizes.1;
    if nid == K_CRC {
      var digests :- ParseDigests(header, blocks, total);
      hasCrc, crcs := digests.0, digests.1;
      nid :- header.U8();
    }
    if nid != K_END {
      return Err(BadTerminator(nid));
    }
    return Ok((blocks, SubStreams(sizes.0, hasCrc, crcs)));
  }

  method Total(blocks: seq<Block>) returns (n: nat)
    ensures n == Sum(Subs(blocks))
  {
    hide Sum, Subs;
    n := 0;
    assert blocks[0..] == blocks;
    for i := 0 to |blocks|
      invariant n + Sum(Subs(blocks[i..])) == Sum(Subs(blocks))
    {
      assert blocks[i..][1..] == blocks[i + 1..];
      SumSubsStep(blocks[i..]);
      n := n + blocks[i].numSub;
    }
    assert blocks[|blocks|..] == [];
    NoSubs();
  }

  lemma NoSubs()
    ensures Sum(Subs([])) == 0
  {
  }
}
