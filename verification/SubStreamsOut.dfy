// Printing the streams of the blocks, and what is read back of it.
module SubStreamsOut {
  import opened Common
  import opened Numbers
  import opened Bits
  import opened Wire
  import opened HeaderFormat
  import opened Blocks
  import opened PackFormat
  import opened UnpackFormat
  import opened SubStreams

  function NumSubs(blocks: seq<BlockInfo>): (ns: seq<u64>)
    ensures |ns| == |blocks|
  {
    seq(|blocks|, i requires 0 <= i < |blocks| => blocks[i].numSub)
  }

  predicate NeedsNumbers(blocks: seq<BlockInfo>) {
    exists i :: 0 <= i < |blocks| && blocks[i].numSub != 1
  }

  predicate NeedsSizes(blocks: seq<BlockInfo>) {
    exists i :: 0 <= i < |blocks| && |blocks[i].subSizes| > 1
  }

  // All sizes but the last, which follows from that of the block.
  function FrontSizes(info: BlockInfo): seq<u64> {
    if |info.subSizes| > 1 then info.subSizes[..|info.subSizes| - 1] else []
  }

  function AllFrontSizes(blocks: seq<BlockInfo>): seq<u64> {
    if blocks == [] then [] else FrontSizes(blocks[0]) + AllFrontSizes(blocks[1..])
  }

  function CrcsOf(info: BlockInfo): seq<u32> {
    if info.numSub > 1 then info.subCrcs
    else if info.numSub == 1 then [if info.subCrcs == [] then info.crc else info.subCrcs[0]]
    else []
  }

  function AllCrcs(blocks: seq<BlockInfo>): seq<u32> {
    if blocks == [] then [] else CrcsOf(blocks[0]) + AllCrcs(blocks[1..])
  }

  function NumbersPart(blocks: seq<BlockInfo>): seq<byte> {
    if NeedsNumbers(blocks) then [K_NUM_UNPACK_STREAM] + NumbersBytes(NumSubs(blocks)) else []
  }

  function SizesPart(blocks: seq<BlockInfo>): seq<byte> {
    if NeedsSizes(blocks) then [K_SIZE] + NumbersBytes(AllFrontSizes(blocks)) else []
  }

  function CrcsPart(crcs: seq<nat>): seq<byte> {
    if crcs != [] then [K_CRC] + ([1] + WhereBytes(crcs, 4, AllTrue(|crcs|))) else []
  }

  function SubBytes(blocks: seq<BlockInfo>, tail: seq<byte>): seq<byte> {
    [K_SUB_STREAMS_INFO] + (NumbersPart(blocks) + (SizesPart(blocks) + (CrcsPart(AllCrcs(blocks)) + ([K_END] + tail))))
  }

  // --- What was printed is read back ---

  // The size of the last coder's output.
  function BlockSize(info: BlockInfo): u64 {
    if info.sizes == [] then 0 else info.sizes[|info.sizes| - 1]
  }

  function SubSizesOf(info: BlockInfo): seq<u64> {
    if info.numSub == 0 then [] else if info.numSub == 1 then [BlockSize(info)] else info.subSizes
  }

  function AllSubSizes(blocks: seq<BlockInfo>): seq<u64> {
    if blocks == [] then [] else SubSizesOf(blocks[0]) + AllSubSizes(blocks[1..])
  }

  // The streams of a block add up to it.
  predicate Consistent(info: BlockInfo) {
    && info.sizes != [] && |info.sizes| == |info.methods|
    && (info.numSub > 1 ==> |info.subSizes| == |info.subCrcs| == info.numSub && Sum(info.subSizes) == BlockSize(info))
    && (info.numSub <= 1 ==> |info.subSizes| <= 1)
    && (info.numSub == 1 && info.subSizes != [] ==> info.subSizes == [BlockSize(info)])
  }

  predicate SubsFit(blocks: seq<BlockInfo>, b: Bounds) {
    && (forall i | 0 <= i < |blocks| :: Consistent(blocks[i]))
    && b.Allows(Sum(NumSubs(blocks)), b.maxEntries)
  }

  // The blocks that are read back, with the numbers of their streams.
  function ReadBack(blocks: seq<BlockInfo>): (r: seq<Block>)
    ensures |r| == |blocks|
  {
    WithSubs(SizedBlocks(blocks), NumSubs(blocks))
  }

  lemma BackCons(blocks: seq<BlockInfo>)
    requires blocks != []
    ensures ReadBack(blocks)[1..] == ReadBack(blocks[1..])
    ensures ReadBack(blocks)[0] == ChainBlock(blocks[0]).(unpackSizes := blocks[0].sizes, numSub := blocks[0].numSub)
    ensures NumSubs(blocks) == [blocks[0].numSub] + NumSubs(blocks[1..])
    ensures Subs(ReadBack(blocks)) == NumSubs(blocks)
  {
  }

  lemma BackSize(info: BlockInfo)
    requires Consistent(info)
    ensures var block := ChainBlock(info).(unpackSizes := info.sizes, numSub := info.numSub);
      Sized(block) && UnpackSize(block) == BlockSize(info)
  {
    var pairs := ChainPairs(|info.methods|);
    assert forall p | p in pairs :: p.outIndex < |info.methods| - 1;
  }

  lemma BackSized(blocks: seq<BlockInfo>)
    requires forall i | 0 <= i < |blocks| :: Consistent(blocks[i])
    ensures forall i | 0 <= i < |blocks| :: Sized(ReadBack(blocks)[i]) && Sized(SizedBlocks(blocks)[i])
  {
    hide Sum;
    forall i | 0 <= i < |blocks| ensures Sized(ReadBack(blocks)[i]) && Sized(SizedBlocks(blocks)[i]) {
      assert Consistent(blocks[i]);
    }
  }

  lemma {:induction false} CountsRoundTrip(ns: seq<u64>, total: nat, b: Bounds, tail: seq<byte>)
    requires b.Allows(total + Sum(ns), b.maxEntries)
    ensures ReadCounts(NumbersBytes(ns) + tail, |ns|, total, b) == Got(ns, tail)
    decreases |ns|
  {
    hide ReadNumber, NumberBytes;
    if ns == [] {
      NoNumbers(tail);
    } else {
      var more := NumbersBytes(ns[1..]) + tail;
      Nest2(NumberBytes(ns[0]), NumbersBytes(ns[1..]), tail);
      NumberRoundTrip(ns[0], more);
      CountsRoundTrip(ns[1..], total + ns[0], b, tail);
      assert [ns[0]] + ns[1..] == ns;
    }
  }

  lemma NumbersPartBack(blocks: seq<BlockInfo>, b: Bounds, nid: byte, tail: seq<byte>)
    requires SubsFit(blocks, b) && nid != K_NUM_UNPACK_STREAM
    ensures ReadNumSubs(NumbersPart(blocks) + ([nid] + tail), |blocks|, b) == Got((NumSubs(blocks), nid), tail)
  {
    hide NumbersBytes, ReadCounts, Consistent;
    var s := NumbersBytes(NumSubs(blocks)) + ([nid] + tail);
    if NeedsNumbers(blocks) {
      Nest2([K_NUM_UNPACK_STREAM], NumbersBytes(NumSubs(blocks)), [nid] + tail);
      CountsRoundTrip(NumSubs(blocks), 0, b, [nid] + tail);
      TakeDrop([K_NUM_UNPACK_STREAM], s);
    } else {
      assert [] + ([nid] + tail) == [nid] + tail;
      assert NumSubs(blocks) == seq(|blocks|, _ => 1);
    }
    TakeDrop([nid], tail);
  }

  lemma {:induction false} SomeSizesBack(vs: seq<u64>, sum: u64, tail: seq<byte>)
    requires sum + Sum(vs) < TWO_64
    ensures ReadSomeSizes(NumbersBytes(vs) + tail, |vs|, sum) == Got((vs, sum + Sum(vs)), tail)
    decreases |vs|
  {
    hide ReadNumber, NumberBytes;
    if vs == [] {
      NoNumbers(tail);
    } else {
      var more := NumbersBytes(vs[1..]) + tail;
      Nest2(NumberBytes(vs[0]), NumbersBytes(vs[1..]), tail);
      NumberRoundTrip(vs[0], more);
      SomeSizesBack(vs[1..], sum + vs[0], tail);
      assert [vs[0]] + vs[1..] == vs;
    }
  }

  // The sizes of one block: what was left out is what remains of it.
  lemma BlockSizesBack(info: BlockInfo, tail: seq<byte>)
    requires Consistent(info) && info.numSub > 0
    ensures var p := ReadSomeSizes(NumbersBytes(FrontSizes(info)) + tail, info.numSub - 1, 0);
      && p.Got? && p.rest == tail && p.value.1 <= BlockSize(info)
      && p.value.0 + [BlockSize(info) - p.value.1] == SubSizesOf(info)
  {
    hide ReadSomeSizes, Sum, NumbersBytes;
    if info.numSub == 1 {
      NoNumbers(tail);
      NothingToRead(tail);
      assert [] + [BlockSize(info) - 0] == [BlockSize(info)];
    } else {
      SeveralBack(info, tail);
    }
  }

  lemma SeveralBack(info: BlockInfo, tail: seq<byte>)
    requires Consistent(info) && info.numSub > 1
    ensures var p := ReadSomeSizes(NumbersBytes(FrontSizes(info)) + tail, info.numSub - 1, 0);
      && p.Got? && p.rest == tail && p.value.1 <= BlockSize(info)
      && p.value.0 + [BlockSize(info) - p.value.1] == info.subSizes
  {
    hide ReadSomeSizes, Sum, NumbersBytes;
    var front := FrontSizes(info);
    SplitLast(info.subSizes);
    assert front == info.subSizes[..|info.subSizes| - 1] && |front| == info.numSub - 1;
    hide Consistent, FrontSizes, BlockSize;
    SomeSizesBack(front, 0, tail);
  }

  lemma NothingToRead(s: seq<byte>)
    ensures ReadSomeSizes(s, 0, 0) == Got(([], 0), s)
  {
  }

  lemma SplitLast(vs: seq<u64>)
    requires |vs| > 0
    ensures Sum(vs[..|vs| - 1]) + vs[|vs| - 1] == Sum(vs)
    ensures vs == vs[..|vs| - 1] + [vs[|vs| - 1]]
  {
    hide Sum;
    var front, last := vs[..|vs| - 1], vs[|vs| - 1];
    assert vs == front + [last];
    SumSplit(front, [last]);
    SumOne(last);
  }

  lemma {:induction false} SizesBack(blocks: seq<BlockInfo>, explicit: bool, tail: seq<byte>)
    requires forall i | 0 <= i < |blocks| :: Consistent(blocks[i]) && Sized(ReadBack(blocks)[i])
    requires !explicit ==> forall i | 0 <= i < |blocks| :: blocks[i].numSub <= 1
    ensures ReadSubSizes(NumbersBytes(AllFrontSizes(blocks)) + tail, ReadBack(blocks), explicit)
         == Got(AllSubSizes(blocks), tail)
    decreases |blocks|
  {
    hide Consistent, UnpackSize, ReadSomeSizes, ReadBack, SubSizesOf, FrontSizes, NumbersBytes;
    if blocks == [] {
      NoNumbers(tail);
    } else {
      var info := blocks[0];
      var more := NumbersBytes(AllFrontSizes(blocks[1..])) + tail;
      assert Consistent(info);
      BackCons(blocks);
      BackSize(info);
      BackSized(blocks[1..]);
      NumbersSplit(FrontSizes(info), AllFrontSizes(blocks[1..]));
      Nest2(NumbersBytes(FrontSizes(info)), NumbersBytes(AllFrontSizes(blocks[1..])), tail);
      SizesBack(blocks[1..], explicit, tail);
      NoneOrSome(info);
      NoNumbers(more);
      if info.numSub == 0 {
        assert [] + AllSubSizes(blocks[1..]) == AllSubSizes(blocks[1..]);
      } else {
        BlockSizesBack(info, more);
      }
    }
  }

  lemma NoneOrSome(info: BlockInfo)
    requires Consistent(info)
    ensures info.numSub <= 1 ==> FrontSizes(info) == []
    ensures info.numSub == 0 ==> SubSizesOf(info) == []
  {
  }

  lemma {:induction false} AllFit(blocks: seq<BlockInfo>)
    requires forall i | 0 <= i < |blocks| :: Consistent(blocks[i])
    ensures |AllSubSizes(blocks)| == Sum(NumSubs(blocks)) == |AllCrcs(blocks)|
    ensures !NeedsSizes(blocks) ==> AllFrontSizes(blocks) == [] && forall i | 0 <= i < |blocks| :: blocks[i].numSub <= 1
    decreases |blocks|
  {
    if blocks != [] {
      BackCons(blocks);
      AllFit(blocks[1..]);
      assert Consistent(blocks[0]);
      if !NeedsSizes(blocks) {
        assert forall i | 0 <= i < |blocks[1..]| :: blocks[1..][i] == blocks[i + 1];
      }
    }
  }

  lemma SizesPartBack(blocks: seq<BlockInfo>, nid: byte, tail: seq<byte>)
    requires forall i | 0 <= i < |blocks| :: Consistent(blocks[i]) && Sized(ReadBack(blocks)[i])
    requires nid != K_SIZE
    ensures var s := SizesPart(blocks) + ([nid] + tail);
      && s != [] && s[0] == (if NeedsSizes(blocks) then K_SIZE else nid)
      && ReadFlatSizes(s[1..], ReadBack(blocks), s[0]) == Got((AllSubSizes(blocks), nid), tail)
  {
    hide Consistent, ReadBack, ReadSubSizes, NumbersBytes, AllFrontSizes, AllSubSizes, Sum, NeedsSizes;
    AllFit(blocks);
    if NeedsSizes(blocks) {
      Nest2([K_SIZE], NumbersBytes(AllFrontSizes(blocks)), [nid] + tail);
      TakeDrop([K_SIZE], NumbersBytes(AllFrontSizes(blocks)) + ([nid] + tail));
      hide ReadFlatSizes;
      FlatSizesBack(blocks, nid, tail);
    } else {
      assert [] + ([nid] + tail) == [nid] + tail;
      TakeDrop([nid], tail);
      hide ReadFlatSizes;
      FlatSizesImplied(blocks, nid, tail);
    }
  }

  lemma FlatSizesBack(blocks: seq<BlockInfo>, nid: byte, tail: seq<byte>)
    requires forall i | 0 <= i < |blocks| :: Consistent(blocks[i]) && Sized(ReadBack(blocks)[i])
    ensures ReadFlatSizes(NumbersBytes(AllFrontSizes(blocks)) + ([nid] + tail), ReadBack(blocks), K_SIZE)
         == Got((AllSubSizes(blocks), nid), tail)
  {
    hide Consistent, ReadBack, ReadSubSizes, NumbersBytes, AllFrontSizes, AllSubSizes, Sum, NeedsSizes;
    AllFit(blocks);
    BackSubs(blocks);
    SizesBack(blocks, true, [nid] + tail);
    FilledWhole(AllSubSizes(blocks));
    TakeDrop([nid], tail);
  }

  lemma FlatSizesImplied(blocks: seq<BlockInfo>, nid: byte, tail: seq<byte>)
    requires forall i | 0 <= i < |blocks| :: Consistent(blocks[i]) && Sized(ReadBack(blocks)[i])
    requires nid != K_SIZE && !NeedsSizes(blocks)
    ensures ReadFlatSizes(tail, ReadBack(blocks), nid) == Got((AllSubSizes(blocks), nid), tail)
  {
    hide Consistent, ReadBack, ReadSubSizes, NumbersBytes, AllSubSizes, Sum, NeedsSizes;
    AllFit(blocks);
    BackSubs(blocks);
    SizesBack(blocks, false, tail);
    FilledWhole(AllSubSizes(blocks));
    NoNumbers(tail);
  }

  lemma FilledWhole(sizes: seq<u64>)
    ensures Filled(sizes, |sizes|) == sizes
  {
  }

  lemma BackSubs(blocks: seq<BlockInfo>)
    ensures Subs(ReadBack(blocks)) == NumSubs(blocks)
  {
  }

  lemma {:induction false} NoOwn<T>(blocks: seq<Block>, own: Block -> T, digests: seq<T>)
    requires forall i | 0 <= i < |blocks| :: !blocks[i].hasCrc
    requires |digests| == Digests(blocks)
    ensures Digests(blocks) == Sum(Subs(blocks)) && Spread(blocks, own, digests) == digests
    decreases |blocks|
  {
    if blocks != [] {
      SubsSplit(blocks);
      assert Subs(blocks)[1..] == Subs(blocks[1..]);
      var n := blocks[0].numSub;
      NoOwn(blocks[1..], own, digests[n..]);
      assert digests[..n] + digests[n..] == digests;
    }
  }

  lemma {:induction false} AllDigests(blocks: seq<Block>)
    requires forall i | 0 <= i < |blocks| :: !blocks[i].hasCrc
    ensures Digests(blocks) == Sum(Subs(blocks))
    decreases |blocks|
  {
    if blocks != [] {
      SubsSplit(blocks);
      assert Subs(blocks)[1..] == Subs(blocks[1..]);
      AllDigests(blocks[1..]);
    }
  }

  lemma DigestsBack(blocks: seq<Block>, crcs: seq<nat>, tail: seq<byte>)
    requires forall i | 0 <= i < |blocks| :: !blocks[i].hasCrc
    requires |crcs| == Sum(Subs(blocks)) && Words(crcs)
    ensures ReadDigests([1] + WhereBytes(crcs, 4, AllTrue(|crcs|)) + tail, blocks) == Got((AllTrue(|crcs|), crcs), tail)
  {
    hide WhereBytes, ReadWhere, Spread, Digests, Sum, Subs;
    Powers();
    var flags := AllTrue(|crcs|);
    AllDigests(blocks);
    Nest2([1], WhereBytes(crcs, 4, flags), tail);
    TakeDrop([1], WhereBytes(crcs, 4, flags) + tail);
    WhereRoundTrip(crcs, 4, flags, tail);
    assert Where(crcs, flags) == crcs;
    NoOwn(blocks, Present, flags);
    NoOwn(blocks, BlockCrc, crcs);
    assert ReadAllOrBits([1] + (WhereBytes(crcs, 4, flags) + tail), Digests(blocks)) == Got(flags, WhereBytes(crcs, 4, flags) + tail);
  }

  // The sizes and checksums of all streams come back.
  lemma SubsRoundTrip(blocks: seq<BlockInfo>, b: Bounds, tail: seq<byte>)
    requires SubsFit(blocks, b) && forall i | 0 <= i < |blocks| :: Sized(SizedBlocks(blocks)[i])
    ensures ReadSubStreams(SubBytes(blocks, tail)[1..], SizedBlocks(blocks), b)
         == Got((ReadBack(blocks), SubStreams(AllSubSizes(blocks), AllTrue(|AllCrcs(blocks)|), AllCrcs(blocks))), tail)
  {
    hide NumbersPart, SizesPart, ReadNumSubs, ReadFlatSizes, ReadDigests, AllSubSizes, AllCrcs, Consistent, Sum;
    var crcs := AllCrcs(blocks);
    var nid := if crcs == [] then K_END else K_CRC;
    var words := [1] + WhereBytes(crcs, 4, AllTrue(|crcs|));
    var more := if crcs == [] then tail else words + ([K_END] + tail);
    assert CrcsPart(crcs) + ([K_END] + tail) == [nid] + more by {
      if crcs == [] {
        assert [] + ([K_END] + tail) == [K_END] + tail;
      } else {
        Nest2([K_CRC], words, [K_END] + tail);
      }
    }
    BackSized(blocks);
    AllFit(blocks);
    BackSubs(blocks);
    SizesPartBack(blocks, nid, more);
    var s := SizesPart(blocks) + ([nid] + more);
    assert s == [s[0]] + s[1..];
    NumbersPartBack(blocks, b, s[0], s[1..]);
    assert SubBytes(blocks, tail)[1..] == NumbersPart(blocks) + s;
    if crcs == [] {
      assert seq(0, _ => false) == AllTrue(0) && seq(0, _ => 0) == [];
    } else {
      DigestsBack(ReadBack(blocks), crcs, [K_END] + tail);
      TakeDrop([K_END], tail);
    }
  }
}
