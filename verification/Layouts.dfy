// Records laid out field by field as the format has them, of which a writer of
// chains uses only a part, and that the reader takes them in.
module Layouts {
  import opened Common
  import opened Numbers
  import opened Bits
  import opened Wire
  import opened HeaderFormat
  import opened Blocks
  import opened CoderGraph
  import opened CoderWalk
  import opened PackFormat
  import opened UnpackFormat

  // --- Coders ---

  predicate Representable(c: Coder) {
    |c.id| < 16 && c.numIn < TWO_64 && c.numOut < TWO_64 && |c.props| < TWO_64
  }

  // The numbers of streams, first of the inputs and then of the outputs.
  function CountsLayout(c: Coder, counted: bool): seq<byte>
    requires Representable(c)
  {
    if counted then NumberBytes(c.numIn) + NumberBytes(c.numOut) else []
  }

  function PropsLayout(props: seq<byte>): seq<byte>
    requires |props| < TWO_64
  {
    if props == [] then [] else NumberBytes(|props|) + props
  }

  // A coder that has one of each may leave the numbers out.
  predicate Counting(c: Coder, long: bool) {
    long || c.numIn != 1 || c.numOut != 1
  }

  // 0x10 announces the numbers of streams, 0x20 properties.
  function FlagsLayout(c: Coder, long: bool): byte
    requires Representable(c)
  {
    |c.id| + (if Counting(c, long) then 0x10 else 0) + (if c.props == [] then 0 else 0x20)
  }

  function CoderLayout(c: Coder, long: bool): seq<byte>
    requires Representable(c)
  {
    [FlagsLayout(c, long)] + (c.id + (CountsLayout(c, Counting(c, long)) + PropsLayout(c.props)))
  }

  function CodersLayout(cs: seq<Coder>, long: nat -> bool, i: nat): seq<byte>
    requires i <= |cs| && forall j | 0 <= j < |cs| :: Representable(cs[j])
    decreases |cs| - i
  {
    if i == |cs| then [] else CoderLayout(cs[i], long(i)) + CodersLayout(cs, long, i + 1)
  }

  lemma FlagsMean(c: Coder, long: bool)
    requires Representable(c)
    ensures var f := FlagsLayout(c, long);
      f % 16 == |c.id| && (f / 16 % 2 == 0 <==> !Counting(c, long)) && (f / 32 % 2 == 1 <==> c.props != []) && f / 128 == 0
  {
  }

  lemma CountsBack(c: Coder, counted: bool, tail: seq<byte>)
    requires Representable(c) && (counted || (c.numIn == 1 && c.numOut == 1))
    ensures ReadStreamCounts(CountsLayout(c, counted) + tail, !counted) == Got((c.numIn, c.numOut), tail)
  {
    hide ReadNumber, NumberBytes;
    if counted {
      Nest2(NumberBytes(c.numIn), NumberBytes(c.numOut), tail);
      NumberRoundTrip(c.numIn, NumberBytes(c.numOut) + tail);
      NumberRoundTrip(c.numOut, tail);
    } else {
      assert [] + tail == tail;
    }
  }

  lemma PropsRead(props: seq<byte>, b: Bounds, tail: seq<byte>)
    requires |props| < TWO_64 && |props| <= b.bytes
    ensures ReadProps(PropsLayout(props) + tail, props != [], b) == Got(props, tail)
  {
    hide ReadNumber, NumberBytes;
    if props != [] {
      Nest2(NumberBytes(|props|), props, tail);
      NumberRoundTrip(|props|, props + tail);
      TakeDrop(props, tail);
    } else {
      assert [] + tail == tail;
    }
  }

  // The next coder of a block within the caller's limits.
  ghost predicate Room(c: Coder, had: Counts, b: Bounds) {
    && Representable(c) && |c.props| <= b.bytes
    && c.numIn <= b.maxStreamsPerCoder && c.numOut <= b.maxStreamsPerCoder
    && had.totalIn + c.numIn < TWO_64 && had.totalOut + c.numOut < TWO_64
    && b.Allows(had.totalIn + c.numIn, b.maxEntries) && b.Allows(had.totalOut + c.numOut, b.maxEntries)
  }

  lemma CoderBack(c: Coder, long: bool, had: Counts, b: Bounds, tail: seq<byte>)
    requires Room(c, had, b)
    ensures ReadCoder(CoderLayout(c, long) + tail, had, b)
         == Got(Counts(had.coders + [c], had.totalIn + c.numIn, had.totalOut + c.numOut), tail)
  {
    hide ReadStreamCounts, ReadProps, FlagsLayout, CountsLayout, PropsLayout;
    var flags, counts, props := FlagsLayout(c, long), CountsLayout(c, Counting(c, long)), PropsLayout(c.props);
    Nest4([flags], c.id, counts, props, tail);
    Nest3([flags], c.id, counts, props);
    assert CoderLayout(c, long) + tail == [flags] + (c.id + (counts + (props + tail)));
    TakeDrop([flags], c.id + (counts + (props + tail)));
    TakeDrop(c.id, counts + (props + tail));
    FlagsMean(c, long);
    CountsBack(c, Counting(c, long), props + tail);
    PropsRead(c.props, b, tail);
    assert Coder(c.id, c.numIn, c.numOut, c.props) == c;
  }

  // Alternatives for a coder, announced by 0x80, are not taken.
  lemma AlternativesRefused(s: seq<byte>, had: Counts, b: Bounds)
    requires s != [] && s[0] >= 0x80
    ensures ReadCoder(s, had, b).Bad?
  {
    hide ReadStreamCounts, ReadProps;
  }

  // --- Blocks ---

  // The coders, the bind pairs, and the packed inputs unless there is only one.
  function BlockLayout(block: Block, long: nat -> bool): seq<byte>
    requires Printable(block)
  {
    NumberBytes(|block.coders|) + (CodersLayout(block.coders, long, 0) + (PairsBytes(block.bindPairs) + PackedLayout(block.packed)))
  }

  predicate Printable(block: Block) {
    && |block.coders| < TWO_64 && (forall j | 0 <= j < |block.coders| :: Representable(block.coders[j]))
    && block.totalIn < TWO_64 && block.totalOut < TWO_64
    && Indices(block.bindPairs) && (forall j | 0 <= j < |block.packed| :: block.packed[j] < TWO_64)
  }

  function PackedLayout(packed: seq<nat>): seq<byte>
    requires forall j | 0 <= j < |packed| :: packed[j] < TWO_64
  {
    if |packed| == 1 then [] else NumbersBytes(packed)
  }

  // What the caller's limits have to leave room for.
  ghost predicate Allowed(block: Block, b: Bounds) {
    && |block.coders| <= b.maxCodersPerBlock && block.totalIn <= b.maxEntries && block.totalOut <= b.maxEntries
    && forall j | 0 <= j < |block.coders| ::
         block.coders[j].numIn <= b.maxStreamsPerCoder && block.coders[j].numOut <= b.maxStreamsPerCoder
  }

  ghost predicate CodersFit(cs: seq<Coder>, b: Bounds) {
    && InSum(cs) < TWO_64 && OutSum(cs) < TWO_64
    && b.Allows(InSum(cs), b.maxEntries) && b.Allows(OutSum(cs), b.maxEntries)
    && forall j | 0 <= j < |cs| :: Representable(cs[j]) && |cs[j].props| <= b.bytes
         && cs[j].numIn <= b.maxStreamsPerCoder && cs[j].numOut <= b.maxStreamsPerCoder
  }

  lemma {:induction false} CodersBack(cs: seq<Coder>, long: nat -> bool, i: nat, b: Bounds, tail: seq<byte>)
    requires i <= |cs| && CodersFit(cs, b)
    ensures ReadCoders(CodersLayout(cs, long, i) + tail, |cs| - i, Counts(cs[..i], InSum(cs[..i]), OutSum(cs[..i])), b)
         == Got(Counts(cs, InSum(cs), OutSum(cs)), tail)
    decreases |cs| - i
  {
    hide ReadCoder, CoderLayout, InSum, OutSum;
    if i == |cs| {
      assert cs[..i] == cs && [] + tail == tail;
    } else {
      InSumGrows(cs, i);
      OutSumGrows(cs, i);
      var had := Counts(cs[..i], InSum(cs[..i]), OutSum(cs[..i]));
      var more := CodersLayout(cs, long, i + 1) + tail;
      Nest2(CoderLayout(cs[i], long(i)), CodersLayout(cs, long, i + 1), tail);
      CoderBack(cs[i], long(i), had, b, more);
      assert cs[..i] + [cs[i]] == cs[..i + 1];
      CodersBack(cs, long, i + 1, b, tail);
    }
  }

  // The one packed input is the first that nothing is bound to.
  lemma {:induction false} FirstIsPacked(block: Block, out: nat, i: nat)
    requires RangeChecked(block) && Wired(block, out) && |block.packed| == 1 && i <= block.packed[0]
    ensures FirstUnbound(block.bindPairs, i, block.totalIn) == Some(block.packed[0])
    decreases block.packed[0] - i
  {
    hide RangeChecked;
    FedIs(block.bindPairs, i);
    if i < block.packed[0] {
      assert i !in block.packed;
      FirstIsPacked(block, out, i + 1);
    }
  }

  lemma FedIs(pairs: seq<BindPair>, i: nat)
    ensures FindIn(pairs, i).Some? <==> Fed(pairs, i)
  {
  }

  lemma PackedBack(block: Block, out: nat, tail: seq<byte>)
    requires RangeChecked(block) && Wired(block, out) && CoderWalk.Counted(block)
    requires forall j | 0 <= j < |block.packed| :: block.packed[j] < TWO_64
    ensures ReadPacked(PackedLayout(block.packed) + tail, block.bindPairs, block.totalIn) == Got(block.packed, tail)
  {
    hide RangeChecked, Wired, ReadNumbers, NumbersBytes;
    if |block.packed| == 1 {
      FirstIsPacked(block, out, 0);
      assert [] + tail == tail && block.packed == [block.packed[0]];
    } else {
      NumbersRoundTrip(block.packed, tail);
    }
  }

  lemma {:induction false} CodersLayoutLong(cs: seq<Coder>, long: nat -> bool, i: nat)
    requires i <= |cs| && forall j | 0 <= j < |cs| :: Representable(cs[j])
    ensures |CodersLayout(cs, long, i)| >= |cs| - i
    ensures forall j | i <= j < |cs| :: |CodersLayout(cs, long, i)| >= |cs[j].props|
    decreases |cs| - i
  {
    hide CoderLayout;
    if i < |cs| {
      CoderLayoutLong(cs[i], long(i));
      CodersLayoutLong(cs, long, i + 1);
    }
  }

  lemma CoderLayoutLong(c: Coder, long: bool)
    requires Representable(c)
    ensures |CoderLayout(c, long)| > |c.props|
  {
    hide NumberBytes;
  }

  lemma {:induction false} PairsLong(pairs: seq<BindPair>)
    requires Indices(pairs)
    ensures |PairsBytes(pairs)| >= 2 * |pairs|
  {
    hide NumberBytes;
    if pairs != [] {
      NumberLong(pairs[0].inIndex);
      NumberLong(pairs[0].outIndex);
      PairsLong(pairs[1..]);
    }
  }

  // A validated block within the limits is within what its own bytes allow.
  lemma LayoutAllows(block: Block, out: nat, long: nat -> bool, b: Bounds)
    requires Printable(block) && RangeChecked(block) && Wired(block, out) && CoderWalk.Counted(block) && Allowed(block, b)
    requires |BlockLayout(block, long)| <= b.bytes
    ensures CodersFit(block.coders, b) && b.Allows(|block.coders|, b.maxCodersPerBlock)
  {
    hide NumberBytes, CodersLayout, PairsBytes, NumbersBytes, Wired;
    NumberLong(|block.coders|);
    CodersLayoutLong(block.coders, long, 0);
    PairsLong(block.bindPairs);
    if |block.packed| != 1 {
      NumbersLong(block.packed);
    }
  }

  // As the block reader leaves it: the sizes and checksums come later.
  predicate Bare(block: Block) {
    block.unpackSizes == [] && !block.hasCrc && block.crc == 0 && block.numSub == 0
  }

  // Every validated block, with coders of any numbers of inputs and outputs,
  // any properties and any wiring, is read back as it was laid out.
  lemma BlockBack(block: Block, long: nat -> bool, b: Bounds, tail: seq<byte>)
    requires Validated(block) && Bare(block) && Printable(block) && Allowed(block, b)
    requires |BlockLayout(block, long)| <= b.bytes
    ensures ReadBlock(BlockLayout(block, long) + tail, b) == Got(block, tail)
  {
    hide ReadNumber, NumberBytes, ReadCoders, CodersLayout, ReadPairs, PairsBytes, ReadPacked, PackedLayout, RangeChecked;
    hide Wired, CycleBehind, InSum, OutSum;
    var out: nat :| Decodable(block, out);
    LayoutAllows(block, out, long, b);
    var n := |block.coders|;
    var coders, pairs, packed := CodersLayout(block.coders, long, 0), PairsBytes(block.bindPairs), PackedLayout(block.packed);
    Nest4([], NumberBytes(n), coders, pairs, packed);
    Nest4(NumberBytes(n), coders, pairs, packed, tail);
    Nest3(NumberBytes(n), coders, pairs, packed);
    NumberRoundTrip(n, coders + (pairs + (packed + tail)));
    FirstCoders(block.coders);
    CodersBack(block.coders, long, 0, b, pairs + (packed + tail));
    PairsInside(block);
    PairsRoundTrip(block.bindPairs, block.totalIn, block.totalOut, packed + tail);
    PackedBack(block, out, tail);
  }

  lemma FirstCoders(cs: seq<Coder>)
    ensures cs[..0] == [] && InSum([]) == 0 && OutSum([]) == 0
  {
  }

  lemma PairsInside(block: Block)
    requires RangeChecked(block)
    ensures Within(block.bindPairs, block.totalIn, block.totalOut)
    ensures block.totalIn == InSum(block.coders) && block.totalOut == OutSum(block.coders)
  {
  }

  // The record of the BCJ2 coder: four inputs, one output, no properties.
  lemma Bcj2Record()
    ensures CoderLayout(Coder([0x03, 0x03, 0x01, 0x1B], 4, 1, []), false) == [0x14, 0x03, 0x03, 0x01, 0x1B, 0x04, 0x01]
  {
    ShortNumber(4);
    ShortNumber(1);
  }

  // --- Tables of checksums ---

  predicate AllSet(flags: seq<bool>) {
    forall i | 0 <= i < |flags| :: flags[i]
  }

  // Which are there, a vector unless all are, and then their values.
  function TableLayout(flags: seq<bool>, words: seq<nat>): seq<byte>
    requires |flags| == |words|
  {
    (if AllSet(flags) then [1] else [0] + BitBytes(flags)) + WhereBytes(words, 4, flags)
  }

  // Checksums of 32 bits, zero where there is none.
  predicate Words32(flags: seq<bool>, words: seq<nat>) {
    |flags| == |words| && forall i | 0 <= i < |words| :: words[i] < TWO_32 && (flags[i] || words[i] == 0)
  }

  lemma TableBack(flags: seq<bool>, words: seq<nat>, tail: seq<byte>)
    requires Words32(flags, words)
    ensures ReadCrcs(TableLayout(flags, words) + tail, |flags|) == Got((flags, words), tail)
  {
    hide ReadWhere, WhereBytes, ReadBits, BitBytes;
    Powers();
    var w := WhereBytes(words, 4, flags);
    var head := if AllSet(flags) then [1] else [0] + BitBytes(flags);
    Nest2(head, w, tail);
    FlagsBack(flags, w + tail);
    WhereRoundTrip(words, 4, flags, tail);
    assert Where(words, flags) == words;
  }

  lemma FlagsBack(flags: seq<bool>, tail: seq<byte>)
    ensures ReadAllOrBits((if AllSet(flags) then [1] else [0] + BitBytes(flags)) + tail, |flags|) == Got(flags, tail)
  {
    hide ReadBits, BitBytes;
    if AllSet(flags) {
      assert seq(|flags|, _ => true) == flags;
      TakeDrop([1], tail);
    } else {
      Nest2([0], BitBytes(flags), tail);
      TakeDrop([0], BitBytes(flags) + tail);
      BitsRoundTrip(flags, tail);
    }
  }

  // --- Packed streams ---

  // Any packed streams, with checksums for any of them.
  function PacksLayout(p: Packs): seq<byte>
    requires |p.sizes| < TWO_64 && |p.defined| == |p.crcs|
  {
    NumberBytes(p.pos) + (NumberBytes(|p.sizes|) + ([K_SIZE] + (NumbersBytes(p.sizes) +
      ([K_CRC] + (TableLayout(p.defined, p.crcs) + [K_END])))))
  }

  lemma PacksBack(p: Packs, b: Bounds, tail: seq<byte>)
    requires |p.sizes| == |p.defined| < TWO_64 && Words32(p.defined, p.crcs) && b.Allows(|p.sizes|, b.maxEntries)
    ensures ReadPackInfo(PacksLayout(p) + tail, b) == Got(p, tail)
  {
    hide ReadNumber, NumberBytes, ReadNumbers, NumbersBytes, TableLayout, ReadCrcs;
    var table := TableLayout(p.defined, p.crcs);
    var s6 := table + ([K_END] + tail);
    var s5 := [K_CRC] + s6;
    var s4 := NumbersBytes(p.sizes) + s5;
    var s3 := [K_SIZE] + s4;
    Nest6(NumberBytes(p.pos), NumberBytes(|p.sizes|), [K_SIZE], NumbersBytes(p.sizes), [K_CRC], table, [K_END] + tail);
    Nest6(NumberBytes(p.pos), NumberBytes(|p.sizes|), [K_SIZE], NumbersBytes(p.sizes), [K_CRC], table, [K_END]);
    Nest2(NumberBytes(p.pos) + NumberBytes(|p.sizes|) + [K_SIZE] + NumbersBytes(p.sizes) + [K_CRC] + table, [K_END], tail);
    assert PacksLayout(p) + tail == NumberBytes(p.pos) + (NumberBytes(|p.sizes|) + s3);
    NumberRoundTrip(p.pos, NumberBytes(|p.sizes|) + s3);
    NumberRoundTrip(|p.sizes|, s3);
    NumbersRoundTrip(p.sizes, s5);
    assert PackFormat.ReadSizes(s3, |p.sizes|) == Got((p.sizes, K_CRC), s6) by {
      TakeDrop([K_SIZE], s4);
      TakeDrop([K_CRC], s6);
    }
    TableBack(p.defined, p.crcs, [K_END] + tail);
    TakeDrop([K_END], tail);
  }

  // --- All blocks, their sizes and checksums ---

  // What the block reader makes of a block, before its sizes are read.
  function Skeleton(block: Block): (r: Block)
    ensures Bare(r)
  {
    block.(unpackSizes := [], hasCrc := false, crc := 0, numSub := 0)
  }

  // What the record of the blocks leaves: a size for each output, and a
  // checksum or none.
  ghost predicate Recorded(block: Block) {
    && Validated(Skeleton(block)) && Printable(block) && |block.unpackSizes| == block.totalOut
    && (block.hasCrc || block.crc == 0) && block.numSub == 0
  }

  predicate AllPrintable(blocks: seq<Block>) {
    forall j | 0 <= j < |blocks| :: Printable(blocks[j])
  }

  function BlocksLayout(blocks: seq<Block>, long: (nat, nat) -> bool, i: nat): seq<byte>
    requires i <= |blocks| && AllPrintable(blocks)
    decreases |blocks| - i
  {
    if i == |blocks| then [] else BlockLayout(blocks[i], (c: nat) => long(i, c)) + BlocksLayout(blocks, long, i + 1)
  }

  function SizesLayout(blocks: seq<Block>, i: nat): seq<byte>
    requires i <= |blocks|
    decreases |blocks| - i
  {
    if i == |blocks| then [] else NumbersBytes(blocks[i].unpackSizes) + SizesLayout(blocks, i + 1)
  }

  function CrcFlags(blocks: seq<Block>): (f: seq<bool>)
    ensures |f| == |blocks|
  {
    seq(|blocks|, i requires 0 <= i < |blocks| => blocks[i].hasCrc)
  }

  function CrcWords(blocks: seq<Block>): (w: seq<nat>)
    ensures |w| == |blocks|
  {
    seq(|blocks|, i requires 0 <= i < |blocks| => blocks[i].crc as nat)
  }

  // Checksums are left out when no block has one, or may be.
  function CrcsLayout(blocks: seq<Block>, listed: bool): seq<byte> {
    (if listed then [K_CRC] + TableLayout(CrcFlags(blocks), CrcWords(blocks)) else []) + [K_END]
  }

  function UnpackLayout(blocks: seq<Block>, long: (nat, nat) -> bool, listed: bool): seq<byte>
    requires |blocks| < TWO_64 && AllPrintable(blocks)
  {
    [K_FOLDER] + (NumberBytes(|blocks|) + ([0] + (BlocksLayout(blocks, long, 0) +
      ([K_CODERS_UNPACK_SIZE] + (SizesLayout(blocks, 0) + CrcsLayout(blocks, listed))))))
  }

  function Skeletons(blocks: seq<Block>, i: nat): (r: seq<Block>)
    requires i <= |blocks|
    ensures |r| == |blocks| - i
  {
    seq(|blocks| - i, j requires 0 <= j < |blocks| - i => Skeleton(blocks[i + j]))
  }

  function Sizeds(blocks: seq<Block>, i: nat): (r: seq<Block>)
    requires i <= |blocks|
    ensures |r| == |blocks| - i
  {
    seq(|blocks| - i, j requires 0 <= j < |blocks| - i => Skeleton(blocks[i + j]).(unpackSizes := blocks[i + j].unpackSizes))
  }

  function CodersFrom(blocks: seq<Block>, i: nat): nat
    requires i <= |blocks|
    decreases |blocks| - i
  {
    if i == |blocks| then 0 else |blocks[i].coders| + CodersFrom(blocks, i + 1)
  }

  ghost predicate BlockAllowed(block: Block, b: Bounds) {
    Recorded(block) && Allowed(block, b)
  }

  lemma SameLayout(block: Block, long: nat -> bool)
    requires Printable(block)
    ensures Printable(Skeleton(block)) && BlockLayout(Skeleton(block), long) == BlockLayout(block, long)
  {
  }

  lemma {:induction false} BlocksBack(blocks: seq<Block>, long: (nat, nat) -> bool, i: nat, coders: nat, b: Bounds, tail: seq<byte>)
    requires i <= |blocks| && AllPrintable(blocks) && forall j | 0 <= j < |blocks| :: BlockAllowed(blocks[j], b)
    requires |BlocksLayout(blocks, long, i)| <= b.bytes && coders + CodersFrom(blocks, i) <= b.maxTotalCoders
    ensures ReadBlocks(BlocksLayout(blocks, long, i) + tail, |blocks| - i, coders, b) == Got(Skeletons(blocks, i), tail)
    decreases |blocks| - i
  {
    hide ReadBlock, BlockLayout, Validated;
    if i == |blocks| {
      assert [] + tail == tail && Skeletons(blocks, i) == [];
    } else {
      var own := (c: nat) => long(i, c);
      var more := BlocksLayout(blocks, long, i + 1) + tail;
      assert BlockAllowed(blocks[i], b);
      Nest2(BlockLayout(blocks[i], own), BlocksLayout(blocks, long, i + 1), tail);
      SameLayout(blocks[i], own);
      BlockBack(Skeleton(blocks[i]), own, b, more);
      BlocksBack(blocks, long, i + 1, coders + |blocks[i].coders|, b, tail);
      assert Skeletons(blocks, i) == [Skeleton(blocks[i])] + Skeletons(blocks, i + 1);
    }
  }

  lemma {:induction false} SizesBack(blocks: seq<Block>, i: nat, tail: seq<byte>)
    requires i <= |blocks| && forall j | 0 <= j < |blocks| :: |blocks[j].unpackSizes| == blocks[j].totalOut
    ensures UnpackFormat.ReadSizes(SizesLayout(blocks, i) + tail, Skeletons(blocks, i)) == Got(Sizeds(blocks, i), tail)
    decreases |blocks| - i
  {
    hide ReadNumbers, NumbersBytes;
    if i == |blocks| {
      assert [] + tail == tail && Sizeds(blocks, i) == [];
    } else {
      var more := SizesLayout(blocks, i + 1) + tail;
      Nest2(NumbersBytes(blocks[i].unpackSizes), SizesLayout(blocks, i + 1), tail);
      NumbersRoundTrip(blocks[i].unpackSizes, more);
      SizesBack(blocks, i + 1, tail);
      assert Skeletons(blocks, i)[1..] == Skeletons(blocks, i + 1);
      assert Sizeds(blocks, i) == [Skeleton(blocks[i]).(unpackSizes := blocks[i].unpackSizes)] + Sizeds(blocks, i + 1);
    }
  }

  lemma CrcsBack(blocks: seq<Block>, listed: bool, tail: seq<byte>)
    requires forall j | 0 <= j < |blocks| :: (blocks[j].hasCrc || blocks[j].crc == 0) && blocks[j].numSub == 0
    requires listed || forall j | 0 <= j < |blocks| :: !blocks[j].hasCrc
    ensures ReadBlockCrcs(CrcsLayout(blocks, listed) + tail, Sizeds(blocks, 0)) == Got(blocks, tail)
  {
    hide ReadAllOrBits, ReadWhere, TableLayout;
    var flags, words := CrcFlags(blocks), CrcWords(blocks);
    var table := TableLayout(flags, words);
    if listed {
      Nest3([K_CRC], table, [K_END], tail);
      Nest2([K_CRC] + table, [K_END], tail);
      TakeDrop([K_CRC], table + ([K_END] + tail));
      TableBack(flags, words, [K_END] + tail);
      TakeDrop([K_END], tail);
      assert WithCrcs(Sizeds(blocks, 0), flags, words) == blocks;
    } else {
      assert [] + [K_END] + tail == [K_END] + tail;
      TakeDrop([K_END], tail);
      assert Sizeds(blocks, 0) == blocks;
    }
  }

  lemma {:induction false} BlocksLayoutLong(blocks: seq<Block>, long: (nat, nat) -> bool, i: nat)
    requires i <= |blocks| && AllPrintable(blocks)
    ensures |BlocksLayout(blocks, long, i)| >= |blocks| - i
    decreases |blocks| - i
  {
    hide NumberBytes, CodersLayout, PairsBytes, PackedLayout;
    if i < |blocks| {
      NumberLong(|blocks[i].coders|);
      BlocksLayoutLong(blocks, long, i + 1);
    }
  }

  // All the blocks of an archive, however wired, with a size for each output
  // and checksums for any of them, are read back as they were laid out.
  lemma UnpackBack(blocks: seq<Block>, long: (nat, nat) -> bool, listed: bool, b: Bounds, tail: seq<byte>)
    requires |blocks| < TWO_64 && |blocks| <= b.maxEntries && CodersFrom(blocks, 0) <= b.maxTotalCoders
    requires AllPrintable(blocks) && forall j | 0 <= j < |blocks| :: BlockAllowed(blocks[j], b)
    requires listed || forall j | 0 <= j < |blocks| :: !blocks[j].hasCrc
    requires |UnpackLayout(blocks, long, listed)| <= b.bytes
    ensures ReadUnpackInfo(UnpackLayout(blocks, long, listed) + tail, b) == Got(blocks, tail)
  {
    hide ReadNumber, NumberBytes, ReadBlocks, BlocksLayout, UnpackFormat.ReadSizes, SizesLayout, ReadBlockCrcs, CrcsLayout, Allowed, Validated, Printable;
    var n, all, sizes, crcs := NumberBytes(|blocks|), BlocksLayout(blocks, long, 0), SizesLayout(blocks, 0), CrcsLayout(blocks, listed);
    var s5 := sizes + (crcs + tail);
    var s3 := all + ([K_CODERS_UNPACK_SIZE] + s5);
    Nest6([K_FOLDER], n, [0], all, [K_CODERS_UNPACK_SIZE], sizes, crcs + tail);
    Nest6([K_FOLDER], n, [0], all, [K_CODERS_UNPACK_SIZE], sizes, crcs);
    Nest2([K_FOLDER] + n + [0] + all + [K_CODERS_UNPACK_SIZE] + sizes, crcs, tail);
    assert UnpackLayout(blocks, long, listed) + tail == [K_FOLDER] + (n + ([0] + s3));
    TakeDrop([K_FOLDER], n + ([0] + s3));
    NumberRoundTrip(|blocks|, [0] + s3);
    TakeDrop([0], s3);
    BlocksLayoutLong(blocks, long, 0);
    BlocksBack(blocks, long, 0, 0, b, [K_CODERS_UNPACK_SIZE] + s5);
    TakeDrop([K_CODERS_UNPACK_SIZE], s5);
    SizesBack(blocks, 0, crcs + tail);
    CrcsBack(blocks, listed, tail);
  }
}
