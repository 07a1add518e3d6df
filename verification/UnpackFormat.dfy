// The blocks of an archive: the chains of coders a writer prints, and the
// coder graphs a reader takes in.
module UnpackFormat {
  import opened Common
  import opened Numbers
  import opened Bits
  import opened Wire
  import opened BitSets
  import opened HeaderFormat
  import opened Blocks
  import opened CoderGraph
  import opened CoderWalk

  // The identifiers of methods are constants of at most 15 bytes.
  type MethodId = s: seq<byte> | |s| < 16

  // No coder is given properties of more than 34 bytes.
  type Properties = s: seq<byte> | |s| <= 34

  datatype Method = Method(id: MethodId, props: Properties)

  datatype BlockInfo = BlockInfo(methods: seq<Method>, sizes: seq<u64>, crc: u32,
                                 numSub: u64, subSizes: seq<u64>, subCrcs: seq<u32>)

  // --- Printing ---

  function CodecFlags(m: Method): byte {
    |m.id| + (if m.props != [] then 0x20 else 0)
  }

  function PropsBytes(m: Method): seq<byte> {
    if m.props != [] then [|m.props| % 256] + m.props else []
  }

  function CodecBytes(m: Method): seq<byte> {
    [CodecFlags(m)] + (m.id + PropsBytes(m))
  }

  function CodecsBytes(ms: seq<Method>): seq<byte> {
    if ms == [] then [] else CodecBytes(ms[0]) + CodecsBytes(ms[1..])
  }

  // Each coder reads what the one before it puts out.
  function ChainPairs(n: nat): (p: seq<BindPair>)
    ensures |p| == if n == 0 then 0 else n - 1
  {
    seq(if n == 0 then 0 else n - 1, i requires 0 <= i => BindPair(i + 1, i))
  }

  predicate Indices(pairs: seq<BindPair>) {
    forall p | p in pairs :: p.inIndex < TWO_64 && p.outIndex < TWO_64
  }

  function PairsBytes(pairs: seq<BindPair>): seq<byte>
    requires Indices(pairs)
  {
    if pairs == [] then []
    else NumberBytes(pairs[0].inIndex) + (NumberBytes(pairs[0].outIndex) + PairsBytes(pairs[1..]))
  }

  function BlockBytes(info: BlockInfo): seq<byte>
    requires |info.methods| < TWO_64
  {
    NumberBytes(|info.methods|) + (CodecsBytes(info.methods) + PairsBytes(ChainPairs(|info.methods|)))
  }

  predicate Countable(blocks: seq<BlockInfo>) {
    |blocks| < TWO_64 && forall i | 0 <= i < |blocks| :: 0 < |blocks[i].methods| < TWO_64
  }

  function BlocksBytes(blocks: seq<BlockInfo>): seq<byte>
    requires forall i | 0 <= i < |blocks| :: 0 < |blocks[i].methods| < TWO_64
  {
    if blocks == [] then [] else BlockBytes(blocks[0]) + BlocksBytes(blocks[1..])
  }

  function AllSizes(blocks: seq<BlockInfo>): seq<u64> {
    if blocks == [] then [] else blocks[0].sizes + AllSizes(blocks[1..])
  }

  function UnpackBytes(blocks: seq<BlockInfo>, tail: seq<byte>): seq<byte>
    requires Countable(blocks)
  {
    [K_UNPACK_INFO] + ([K_FOLDER] + (NumberBytes(|blocks|) + ([0] + (BlocksBytes(blocks) +
      ([K_CODERS_UNPACK_SIZE] + (NumbersBytes(AllSizes(blocks)) + ([K_END] + tail)))))))
  }

  // --- Reading ---

  datatype Counts = Counts(coders: seq<Coder>, totalIn: nat, totalOut: nat)

  // One coder, checked against the streams of those before it.
  function ReadCoder(s: seq<byte>, had: Counts, b: Bounds): (p: Parse<Counts>)
    ensures p.Got? ==> |p.rest| < |s| && |p.value.coders| == |had.coders| + 1 && p.value.coders[..|had.coders|] == had.coders
    ensures p.Got? ==> var c := p.value.coders[|had.coders|];
      p.value.totalIn == had.totalIn + c.numIn && p.value.totalOut == had.totalOut + c.numOut
  {
    var (bits, s1) :- ReadByte(s);
    var (id, s2) :- ReadBytes(s1, bits % 16);
    var (streams, s3) :- ReadStreamCounts(s2, bits / 16 % 2 == 0);
    var (numIn, numOut) := streams;
    if had.totalIn + numIn >= TWO_64 || had.totalOut + numOut >= TWO_64 then Bad(BadStructure)
    else if numIn > b.maxStreamsPerCoder || numOut > b.maxStreamsPerCoder then Bad(Limit)
    else if !b.Allows(had.totalIn + numIn, b.maxEntries) || !b.Allows(had.totalOut + numOut, b.maxEntries) then Bad(Limit)
    else
      var (props, s4) :- ReadProps(s3, bits / 32 % 2 == 1, b);
      if bits / 128 == 1 then Bad(Unsupported)
      else Got(Counts(had.coders + [Coder(id, numIn, numOut, props)], had.totalIn + numIn, had.totalOut + numOut), s4)
  }

  function ReadStreamCounts(s: seq<byte>, simple: bool): (p: Parse<(nat, nat)>)
    ensures p.Got? ==> |p.rest| <= |s|
  {
    if simple then Got((1, 1), s) else
    NumberShrinks(s);
    var (numIn, s1) :- ReadNumber(s);
    NumberShrinks(s1);
    var (numOut, s2) :- ReadNumber(s1);
    Got((numIn, numOut), s2)
  }

  function ReadProps(s: seq<byte>, present: bool, b: Bounds): (p: Parse<seq<byte>>)
    ensures p.Got? ==> |p.rest| <= |s|
  {
    if !present then Got([], s) else
    NumberShrinks(s);
    var (size, s1) :- ReadNumber(s);
    if size > b.bytes then Bad(Limit) else ReadBytes(s1, size)
  }

  function ReadCoders(s: seq<byte>, n: nat, had: Counts, b: Bounds): (p: Parse<Counts>)
    ensures p.Got? ==> |p.rest| <= |s| && |p.value.coders| == |had.coders| + n
    ensures p.Got? && had.totalIn == InSum(had.coders) && had.totalOut == OutSum(had.coders) ==>
      p.value.totalIn == InSum(p.value.coders) && p.value.totalOut == OutSum(p.value.coders)
    decreases n
  {
    if n == 0 then Got(had, s) else
    var (more, s1) :- ReadCoder(s, had, b);
    assert more.coders == had.coders + [more.coders[|had.coders|]];
    ReadCoders(s1, n - 1, more, b)
  }

  predicate Within(pairs: seq<BindPair>, totalIn: nat, totalOut: nat) {
    forall i | 0 <= i < |pairs| :: pairs[i].inIndex < totalIn && pairs[i].outIndex < totalOut
  }

  function ReadPairs(s: seq<byte>, n: nat, totalIn: nat, totalOut: nat): (p: Parse<seq<BindPair>>)
    ensures p.Got? ==> |p.rest| <= |s| && |p.value| == n && Within(p.value, totalIn, totalOut)
    decreases n
  {
    if n == 0 then Got([], s) else
    NumberShrinks(s);
    var (i, s1) :- ReadNumber(s);
    NumberShrinks(s1);
    var (o, s2) :- ReadNumber(s1);
    if i >= totalIn || o >= totalOut then Bad(BadStructure) else
    var (more, s3) :- ReadPairs(s2, n - 1, totalIn, totalOut);
    WithinMore(BindPair(i, o), more, totalIn, totalOut);
    Got([BindPair(i, o)] + more, s3)
  }

  lemma WithinMore(p: BindPair, more: seq<BindPair>, totalIn: nat, totalOut: nat)
    requires Within(more, totalIn, totalOut) && p.inIndex < totalIn && p.outIndex < totalOut
    ensures Within([p] + more, totalIn, totalOut)
  {
  }

  // The first input stream that no bind pair feeds.
  function FirstUnbound(pairs: seq<BindPair>, i: nat, n: nat): (r: Option<nat>)
    requires i <= n
    ensures r.Some? ==> i <= r.value < n && FindIn(pairs, r.value).None?
    decreases n - i
  {
    if i == n then None else if FindIn(pairs, i).None? then Some(i) else FirstUnbound(pairs, i + 1, n)
  }

  function ReadPacked(s: seq<byte>, pairs: seq<BindPair>, totalIn: nat): (p: Parse<seq<nat>>)
    ensures p.Got? ==> |p.rest| <= |s| && |p.value| + |pairs| == totalIn
  {
    if totalIn < |pairs| then Bad(BadStructure)
    else if totalIn - |pairs| == 1 then
      match FirstUnbound(pairs, 0, totalIn)
      case None => Bad(BadStructure)
      case Some(i) => Got([i], s)
    else ReadNumbers(s, totalIn - |pairs|)
  }

  // A block as it is read, before its sizes are known: the wiring is checked.
  ghost function ReadBlock(s: seq<byte>, b: Bounds): (p: Parse<Block>)
    ensures p.Got? ==> |p.rest| < |s| && p.value.unpackSizes == []
    ensures p.Got? ==> Validated(p.value)
  {
    NumberShrinks(s);
    var (n, s1) :- ReadNumber(s);
    if !b.Allows(n, b.maxCodersPerBlock) then Bad(Limit) else
    var (c, s2) :- ReadCoders(s1, n, Counts([], 0, 0), b);
    if c.totalOut == 0 then Bad(BadStructure) else
    var (pairs, s3) :- ReadPairs(s2, c.totalOut - 1, c.totalIn, c.totalOut);
    var (packed, s4) :- ReadPacked(s3, pairs, c.totalIn);
    var block := Block(c.coders, pairs, packed, c.totalIn, c.totalOut, [], false, 0, 0);
    if Accepted(block) then Got(block, s4) else Bad(BadStructure)
  }

  ghost predicate Accepted(block: Block)
    requires RangeChecked(block)
  {
    exists out: nat :: Decodable(block, out)
  }

  ghost function ReadBlocks(s: seq<byte>, n: nat, coders: nat, b: Bounds): (p: Parse<seq<Block>>)
    ensures p.Got? ==> |p.rest| <= |s| && |p.value| == n
    decreases n
  {
    if n == 0 then Got([], s) else
    var (block, s1) :- ReadBlock(s, b);
    if coders + |block.coders| > b.maxTotalCoders then Bad(Limit) else
    var (more, s2) :- ReadBlocks(s1, n - 1, coders + |block.coders|, b);
    Got([block] + more, s2)
  }

  ghost predicate Validated(block: Block) {
    RangeChecked(block) && Counted(block) && Accepted(block)
  }

  // Every block that is read has been validated.
  lemma {:induction false} BlocksValidated(s: seq<byte>, n: nat, coders: nat, b: Bounds)
    ensures var p := ReadBlocks(s, n, coders, b); p.Got? ==> forall i | 0 <= i < n :: Validated(p.value[i])
    decreases n
  {
    hide Validated, ReadBlock;
    var p := ReadBlock(s, b);
    if n > 0 && p.Got? && coders + |p.value.coders| <= b.maxTotalCoders {
      BlocksValidated(p.rest, n - 1, coders + |p.value.coders|, b);
      var more := ReadBlocks(p.rest, n - 1, coders + |p.value.coders|, b);
      if more.Got? {
        var all := [p.value] + more.value;
        assert ReadBlocks(s, n, coders, b) == Got(all, more.rest);
        forall i | 0 <= i < n ensures Validated(all[i]) {
          assert i > 0 ==> all[i] == more.value[i - 1];
        }
      }
    }
  }

  // One size for each output stream of each block.
  function ReadSizes(s: seq<byte>, blocks: seq<Block>): (p: Parse<seq<Block>>)
    ensures p.Got? ==> |p.rest| <= |s| && |p.value| == |blocks|
    decreases |blocks|
  {
    if blocks == [] then Got([], s) else
    var (sizes, s1) :- ReadNumbers(s, blocks[0].totalOut);
    var (more, s2) :- ReadSizes(s1, blocks[1..]);
    Got([blocks[0].(unpackSizes := sizes)] + more, s2)
  }

  function WithCrcs(blocks: seq<Block>, defined: seq<bool>, crcs: seq<nat>): (r: seq<Block>)
    requires |blocks| == |defined| == |crcs| && forall i | 0 <= i < |crcs| :: crcs[i] < TWO_32
    ensures |r| == |blocks|
  {
    seq(|blocks|, i requires 0 <= i < |blocks| =>
      if defined[i] then blocks[i].(hasCrc := true, crc := crcs[i]) else blocks[i].(hasCrc := false))
  }

  // The checksums that may close the record.
  function ReadBlockCrcs(s: seq<byte>, blocks: seq<Block>): (p: Parse<seq<Block>>)
    ensures p.Got? ==> |p.rest| <= |s| && |p.value| == |blocks|
    ensures p.Got? ==> forall i | 0 <= i < |blocks| ::
      p.value[i] == blocks[i].(hasCrc := p.value[i].hasCrc, crc := p.value[i].crc)
  {
    Powers();
    var (nid, s1) :- ReadByte(s);
    if nid != K_CRC then
      if nid != K_END then Bad(BadTerminator(nid)) else Got(blocks, s1)
    else
      var (defined, s2) :- ReadAllOrBits(s1, |blocks|);
      var (crcs, s3) :- ReadWhere(s2, 4, defined);
      var (last, s4) :- ReadByte(s3);
      if last != K_END then Bad(BadTerminator(last)) else Got(WithCrcs(blocks, defined, crcs), s4)
  }

  lemma {:induction false} SizesSized(s: seq<byte>, blocks: seq<Block>)
    ensures var p := ReadSizes(s, blocks);
      p.Got? ==> forall i | 0 <= i < |blocks| :: |p.value[i].unpackSizes| == p.value[i].totalOut
    decreases |blocks|
  {
    hide ReadNumbers;
    if blocks != [] {
      var sizes := ReadNumbers(s, blocks[0].totalOut);
      if sizes.Got? {
        SizesSized(sizes.rest, blocks[1..]);
      }
    }
  }

  // Every block that is read has a size for each of its outputs.
  lemma UnpackSized(s: seq<byte>, b: Bounds)
    ensures var p := ReadUnpackInfo(s, b);
      p.Got? ==> forall i | 0 <= i < |p.value| :: |p.value[i].unpackSizes| == p.value[i].totalOut
  {
    hide ReadNumber, ReadBlocks, ReadSizes, ReadBlockCrcs;
    var p := ReadUnpackInfo(s, b);
    if p.Got? {
      var n := ReadNumber(s[1..]);
      var blocks := ReadBlocks(n.rest[1..], n.value, 0, b);
      var sized := ReadSizes(blocks.rest[1..], blocks.value);
      SizesSized(blocks.rest[1..], blocks.value);
    }
  }

  ghost function ReadUnpackInfo(s: seq<byte>, b: Bounds): (p: Parse<seq<Block>>)
    ensures p.Got? ==> |p.rest| <= |s|
  {
    var (nid, s1) :- ReadByte(s);
    if nid != K_FOLDER then Bad(BadStructure) else
    NumberShrinks(s1);
    var (n, s2) :- ReadNumber(s1);
    if !b.Allows(n, b.maxEntries) then Bad(Limit) else
    var (external, s3) :- ReadByte(s2);
    if external != 0 then Bad(Unsupported) else
    var (blocks, s4) :- ReadBlocks(s3, n, 0, b);
    var (mark, s5) :- ReadByte(s4);
    if mark != K_CODERS_UNPACK_SIZE then Bad(BadStructure) else
    var (sized, s6) :- ReadSizes(s5, blocks);
    ReadBlockCrcs(s6, sized)
  }

  // --- What was printed is read back ---

  function CoderOf(m: Method): Coder {
    Coder(m.id, 1, 1, m.props)
  }

  function CodersOf(ms: seq<Method>): (cs: seq<Coder>)
    ensures |cs| == |ms|
  {
    seq(|ms|, i requires 0 <= i < |ms| => CoderOf(ms[i]))
  }

  // The block a printed chain stands for.
  function ChainBlock(info: BlockInfo): Block {
    var n := |info.methods|;
    Block(CodersOf(info.methods), ChainPairs(n), [0], n, n, [], false, 0, 0)
  }

  // What the caller's limits have to leave room for.
  predicate BlockLimits(info: BlockInfo, b: Bounds) {
    && 0 < |info.methods| < TWO_64 && |info.sizes| == |info.methods| && b.maxStreamsPerCoder >= 1
    && |info.methods| <= b.maxCodersPerBlock && |info.methods| <= b.maxEntries
  }

  predicate BlockFits(info: BlockInfo, b: Bounds) {
    && BlockLimits(info, b) && |info.methods| <= b.bytes
    && forall i | 0 <= i < |info.methods| :: |info.methods[i].props| <= b.bytes
  }

  predicate BlocksFit(blocks: seq<BlockInfo>, b: Bounds) {
    && Countable(blocks) && b.Allows(|blocks|, b.maxEntries) && TotalCoders(blocks) <= b.maxTotalCoders
    && forall i | 0 <= i < |blocks| :: BlockFits(blocks[i], b)
  }

  function TotalCoders(blocks: seq<BlockInfo>): nat {
    if blocks == [] then 0 else |blocks[0].methods| + TotalCoders(blocks[1..])
  }

  lemma ShortNumber(v: u64)
    requires v < 128
    ensures NumberBytes(v) == [v]
  {
    OneByte(v);
  }

  lemma PropsRoundTrip(props: seq<byte>, b: Bounds, tail: seq<byte>)
    requires |props| < 128 && |props| <= b.bytes
    ensures ReadProps([|props|] + props + tail, true, b) == Got(props, tail)
  {
    hide ReadNumber, NumberBytes;
    ShortNumber(|props|);
    Nest2([|props|], props, tail);
    NumberRoundTrip(|props|, props + tail);
  }

  // A first byte from 128 on announces at least one more.
  lemma LongNumber(s: seq<byte>)
    requires s != [] && s[0] >= 128
    ensures ReadNumber(s).Got? ==> |ReadNumber(s).rest| + 2 <= |s|
  {
    Powers();
    if |s| > 1 {
      assert s[1..][1..] == s[2..];
      MoreShrinks(s[0], 1, s[2..]);
    }
  }

  lemma PropsLength(s: seq<byte>, b: Bounds)
    ensures var n, p := ReadNumber(s), ReadProps(s, true, b);
      p.Got? ==> n.Got? && |p.value| == n.value && |p.value| + |p.rest| == |n.rest|
  {
    hide ReadNumber;
  }

  // The length goes out as one byte and is taken in as a number, so properties
  // come back just when there are fewer than 128 of them.
  lemma PropsIff(props: seq<byte>, b: Bounds, tail: seq<byte>)
    requires props != [] && |props| <= b.bytes
    ensures ReadProps([|props| % 256] + (props + tail), true, b) == Got(props, tail) <==> |props| < 128
  {
    hide ReadProps, ReadNumber, NumberBytes;
    var first := |props| % 256;
    var s := [first] + (props + tail);
    if |props| < 128 {
      PropsRoundTrip(props, b, tail);
      Nest2([first], props, tail);
    } else {
      PropsLength(s, b);
      if first >= 128 {
        LongNumber(s);
      } else {
        ShortNumber(first);
        NumberRoundTrip(first, props + tail);
      }
    }
  }

  lemma CodecFlagsMean(m: Method)
    ensures var f := CodecFlags(m);
      f % 16 == |m.id| && f / 16 % 2 == 0 && f / 128 == 0 && (f / 32 % 2 == 1 <==> m.props != [])
  {
  }

  lemma CodecParts(m: Method, tail: seq<byte>)
    ensures CodecBytes(m) + tail == [CodecFlags(m)] + (m.id + (PropsBytes(m) + tail))
  {
    Nest3([CodecFlags(m)], m.id, PropsBytes(m), tail);
    Nest2([CodecFlags(m)], m.id, PropsBytes(m));
  }

  lemma TakeDrop(a: seq<byte>, b: seq<byte>)
    ensures (a + b)[..|a|] == a && (a + b)[|a|..] == b
  {
  }

  lemma CodecRoundTrip(m: Method, had: Counts, b: Bounds, tail: seq<byte>)
    requires |m.props| <= b.bytes && b.maxStreamsPerCoder >= 1
    requires had.totalIn + 1 < TWO_64 && had.totalOut + 1 < TWO_64
    requires b.Allows(had.totalIn + 1, b.maxEntries) && b.Allows(had.totalOut + 1, b.maxEntries)
    ensures ReadCoder(CodecBytes(m) + tail, had, b)
         == Got(Counts(had.coders + [CoderOf(m)], had.totalIn + 1, had.totalOut + 1), tail)
  {
    hide ReadProps, CodecBytes, CodecFlags, PropsBytes;
    var more := PropsBytes(m) + tail;
    CodecParts(m, tail);
    CodecFlagsMean(m);
    TakeDrop([CodecFlags(m)], m.id + more);
    TakeDrop(m.id, more);
    PropsBack(m, b, tail);
  }

  lemma PropsBack(m: Method, b: Bounds, tail: seq<byte>)
    requires |m.props| <= b.bytes
    ensures ReadProps(PropsBytes(m) + tail, m.props != [], b) == Got(m.props, tail)
  {
    hide ReadProps;
    if m.props != [] {
      PropsRoundTrip(m.props, b, tail);
    } else {
      NoProps(tail, b);
      assert [] + tail == tail;
    }
  }

  lemma NoProps(s: seq<byte>, b: Bounds)
    ensures ReadProps(s, false, b) == Got([], s)
  {
  }

  lemma {:induction false} CodecsRoundTrip(ms: seq<Method>, had: Counts, b: Bounds, tail: seq<byte>)
    requires forall i | 0 <= i < |ms| :: |ms[i].props| <= b.bytes
    requires b.maxStreamsPerCoder >= 1 && had.totalIn + |ms| < TWO_64 && had.totalOut + |ms| < TWO_64
    requires b.Allows(had.totalIn + |ms|, b.maxEntries) && b.Allows(had.totalOut + |ms|, b.maxEntries)
    ensures ReadCoders(CodecsBytes(ms) + tail, |ms|, had, b)
         == Got(Counts(had.coders + CodersOf(ms), had.totalIn + |ms|, had.totalOut + |ms|), tail)
  {
    hide ReadCoder, CodecBytes;
    if ms == [] {
      assert had.coders + CodersOf(ms) == had.coders && CodecsBytes(ms) + tail == tail;
    } else {
      var more := CodecsBytes(ms[1..]) + tail;
      Nest2(CodecBytes(ms[0]), CodecsBytes(ms[1..]), tail);
      CodecRoundTrip(ms[0], had, b, more);
      var next := Counts(had.coders + [CoderOf(ms[0])], had.totalIn + 1, had.totalOut + 1);
      CodecsRoundTrip(ms[1..], next, b, tail);
      assert had.coders + [CoderOf(ms[0])] + CodersOf(ms[1..]) == had.coders + CodersOf(ms);
    }
  }

  lemma {:induction false} PairsRoundTrip(pairs: seq<BindPair>, totalIn: nat, totalOut: nat, tail: seq<byte>)
    requires Within(pairs, totalIn, totalOut) && Indices(pairs)
    ensures ReadPairs(PairsBytes(pairs) + tail, |pairs|, totalIn, totalOut) == Got(pairs, tail)
    decreases |pairs|
  {
    hide ReadNumber, NumberBytes;
    if pairs == [] {
      assert PairsBytes(pairs) + tail == tail;
    } else {
      var p := pairs[0];
      var more := PairsBytes(pairs[1..]) + tail;
      Nest3([], NumberBytes(p.inIndex), NumberBytes(p.outIndex), PairsBytes(pairs[1..]));
      assert PairsBytes(pairs) + tail == NumberBytes(p.inIndex) + (NumberBytes(p.outIndex) + more);
      NumberRoundTrip(p.inIndex, NumberBytes(p.outIndex) + more);
      NumberRoundTrip(p.outIndex, more);
      PairsRoundTrip(pairs[1..], totalIn, totalOut, tail);
      assert [p] + pairs[1..] == pairs;
    }
  }

  // --- A chain is a decodable graph ---

  lemma ChainCounts(info: BlockInfo)
    requires info.methods != []
    ensures RangeChecked(ChainBlock(info)) && Counted(ChainBlock(info)) && Simple(ChainBlock(info))
  {
    SimpleSums(ChainBlock(info).coders);
  }

  lemma ChainWired(info: BlockInfo)
    requires info.methods != []
    ensures Wired(ChainBlock(info), |info.methods| - 1)
  {
    var b := ChainBlock(info);
    forall i | 0 <= i < b.totalIn ensures Fed(b.bindPairs, i) || i in b.packed {
      if i > 0 {
        assert b.bindPairs[i - 1].inIndex == i;
      } else {
        assert b.packed[0] == 0;
      }
    }
    forall o | 0 <= o < b.totalOut ensures Bound(b.bindPairs, o) <==> o != |info.methods| - 1 {
      if o < |info.methods| - 1 {
        assert b.bindPairs[o].outIndex == o;
      }
    }
  }

  // A coder takes its input from the one before it.
  lemma ChainEdge(info: BlockInfo, c: nat, d: nat)
    requires info.methods != [] && RangeChecked(ChainBlock(info)) && Edge(ChainBlock(info), c, d)
    ensures d < c
  {
    var b := ChainBlock(info);
    SimpleSums(b.coders);
    SimpleSums(b.coders[..c]);
    SingleOwners(b.coders);
    var p := FindIn(b.bindPairs, FirstIn(b, c)).value;
    assert p in b.bindPairs;
  }

  lemma {:induction false} ChainGoesBack(info: BlockInfo, p: seq<nat>)
    requires info.methods != [] && RangeChecked(ChainBlock(info)) && Path(ChainBlock(info), p) && |p| > 1
    ensures p[|p| - 1] < p[0]
    decreases |p|
  {
    hide RangeChecked, Edge;
    var n := |p|;
    ChainEdge(info, p[n - 2], p[n - 1]);
    if n > 2 {
      ChainGoesBack(info, p[..n - 1]);
    }
  }

  lemma ChainDecodable(info: BlockInfo)
    requires info.methods != []
    ensures RangeChecked(ChainBlock(info)) && Decodable(ChainBlock(info), |info.methods| - 1)
    ensures Accepted(ChainBlock(info))
  {
    hide RangeChecked, Wired, Path;
    var b := ChainBlock(info);
    ChainCounts(info);
    ChainWired(info);
    ChainOwner(info);
    forall q: seq<nat> | |q| > 1 && Path(b, q) ensures q[0] != q[|q| - 1] {
      ChainGoesBack(info, q);
    }
  }

  lemma ChainOwner(info: BlockInfo)
    requires info.methods != []
    ensures |Owners(ChainBlock(info).coders)| == |info.methods|
  {
    SingleOwners(ChainBlock(info).coders);
  }

  lemma BlockRoundTrip(info: BlockInfo, b: Bounds, tail: seq<byte>)
    requires BlockFits(info, b)
    ensures ReadBlock(BlockBytes(info) + tail, b) == Got(ChainBlock(info), tail)
  {
    hide ReadNumber, NumberBytes, CodecsBytes, ReadCoders, PairsBytes, ReadPairs, ReadPacked, Decodable, RangeChecked;
    var n: nat := |info.methods|;
    var pairs := ChainPairs(n);
    var s2 := PairsBytes(pairs) + tail;
    var s1 := CodecsBytes(info.methods) + s2;
    Nest4([], NumberBytes(n), CodecsBytes(info.methods), PairsBytes(pairs), tail);
    assert BlockBytes(info) + tail == NumberBytes(n) + s1;
    NumberRoundTrip(n, s1);
    ChainCodecs(info, b, s2);
    PairsRoundTrip(pairs, n, n, tail);
    OnePacked(n, tail);
    ChainDecodable(info);
    assert Accepted(ChainBlock(info));
  }

  lemma ChainCodecs(info: BlockInfo, b: Bounds, s: seq<byte>)
    requires BlockFits(info, b)
    ensures var n := |info.methods|;
      ReadCoders(CodecsBytes(info.methods) + s, n, Counts([], 0, 0), b) == Got(Counts(CodersOf(info.methods), n, n), s)
  {
    hide ReadCoders, CodecsBytes;
    CodecsRoundTrip(info.methods, Counts([], 0, 0), b, s);
    assert [] + CodersOf(info.methods) == CodersOf(info.methods);
  }

  lemma ChainFeeds(n: nat)
    ensures FindIn(ChainPairs(n), 0).None?
  {
    assert forall p | p in ChainPairs(n) :: p.inIndex > 0;
  }

  lemma OnePacked(n: nat, s: seq<byte>)
    requires n > 0
    ensures ReadPacked(s, ChainPairs(n), n) == Got([0], s)
  {
    ChainFeeds(n);
  }

  function ChainBlocks(blocks: seq<BlockInfo>): (r: seq<Block>)
    ensures |r| == |blocks|
  {
    seq(|blocks|, i requires 0 <= i < |blocks| => ChainBlock(blocks[i]))
  }

  function SizedBlocks(blocks: seq<BlockInfo>): (r: seq<Block>)
    ensures |r| == |blocks|
  {
    seq(|blocks|, i requires 0 <= i < |blocks| => ChainBlock(blocks[i]).(unpackSizes := blocks[i].sizes))
  }

  lemma {:induction false} BlocksRoundTrip(blocks: seq<BlockInfo>, coders: nat, b: Bounds, tail: seq<byte>)
    requires coders + TotalCoders(blocks) <= b.maxTotalCoders
    requires forall i | 0 <= i < |blocks| :: 0 < |blocks[i].methods| < TWO_64 && BlockFits(blocks[i], b)
    ensures ReadBlocks(BlocksBytes(blocks) + tail, |blocks|, coders, b) == Got(ChainBlocks(blocks), tail)
    decreases |blocks|
  {
    hide ReadBlock, BlockBytes, Decodable;
    if blocks == [] {
      assert BlocksBytes(blocks) + tail == tail;
    } else {
      var more := BlocksBytes(blocks[1..]) + tail;
      Nest2(BlockBytes(blocks[0]), BlocksBytes(blocks[1..]), tail);
      BlockRoundTrip(blocks[0], b, more);
      BlocksRoundTrip(blocks[1..], coders + |blocks[0].methods|, b, tail);
      assert ChainBlocks(blocks) == [ChainBlock(blocks[0])] + ChainBlocks(blocks[1..]);
    }
  }

  lemma {:induction false} SizesRoundTrip(blocks: seq<BlockInfo>, tail: seq<byte>)
    requires forall i | 0 <= i < |blocks| :: |blocks[i].sizes| == |blocks[i].methods|
    ensures ReadSizes(NumbersBytes(AllSizes(blocks)) + tail, ChainBlocks(blocks)) == Got(SizedBlocks(blocks), tail)
    decreases |blocks|
  {
    hide ReadNumbers, NumbersBytes;
    if blocks == [] {
      assert NumbersBytes([]) + tail == tail by { NoNumbers(tail); }
    } else {
      var more := NumbersBytes(AllSizes(blocks[1..])) + tail;
      NumbersSplit(blocks[0].sizes, AllSizes(blocks[1..]));
      Nest2(NumbersBytes(blocks[0].sizes), NumbersBytes(AllSizes(blocks[1..])), tail);
      NumbersRoundTrip(blocks[0].sizes, more);
      SizesRoundTrip(blocks[1..], tail);
      assert ChainBlocks(blocks)[1..] == ChainBlocks(blocks[1..]);
      var first := ChainBlock(blocks[0]).(unpackSizes := blocks[0].sizes);
      assert SizedBlocks(blocks) == [first] + SizedBlocks(blocks[1..]);
    }
  }

  lemma NoNumbers(tail: seq<byte>)
    ensures NumbersBytes([]) + tail == tail
  {
  }

  lemma {:induction false} NumbersSplit(a: seq<u64>, c: seq<u64>)
    ensures NumbersBytes(a + c) == NumbersBytes(a) + NumbersBytes(c)
  {
    hide NumberBytes;
    if a == [] {
      assert a + c == c;
    } else {
      assert (a + c)[1..] == a[1..] + c;
      NumbersSplit(a[1..], c);
    }
  }

  // Every number takes a byte at least.
  lemma NumberLong(v: u64)
    ensures |NumberBytes(v)| >= 1
  {
  }

  lemma {:induction false} NumbersLong(vs: seq<u64>)
    ensures |NumbersBytes(vs)| >= |vs|
  {
    hide NumberBytes;
    if vs != [] {
      NumberLong(vs[0]);
      NumbersLong(vs[1..]);
    }
  }

  // The coder chains and sizes of every block come back.
  lemma UnpackRoundTrip(blocks: seq<BlockInfo>, b: Bounds, tail: seq<byte>)
    requires BlocksFit(blocks, b)
    ensures ReadUnpackInfo(UnpackBytes(blocks, tail)[1..], b) == Got(SizedBlocks(blocks), tail)
  {
    hide ReadNumber, NumberBytes, ReadBlocks, BlocksBytes, ReadSizes, NumbersBytes, AllSizes, ReadAllOrBits;
    var s6 := NumbersBytes(AllSizes(blocks)) + ([K_END] + tail);
    var s5 := [K_CODERS_UNPACK_SIZE] + s6;
    var s4 := BlocksBytes(blocks) + s5;
    var s2 := NumberBytes(|blocks|) + ([0] + s4);
    assert UnpackBytes(blocks, tail)[1..] == [K_FOLDER] + s2;
    assert ([K_FOLDER] + s2)[1..] == s2 && ([0] + s4)[1..] == s4 && s5[1..] == s6 && ([K_END] + tail)[1..] == tail;
    NumberRoundTrip(|blocks|, [0] + s4);
    BlocksRoundTrip(blocks, 0, b, s5);
    SizesRoundTrip(blocks, [K_END] + tail);
  }
}
