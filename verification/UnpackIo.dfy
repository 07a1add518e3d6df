// Printing and reading the blocks of an archive, step by step.
module UnpackIo {
  import opened Common
  import opened Numbers
  import opened Bits
  import opened Wire
  import opened BitSets
  import opened HeaderFormat
  import opened Blocks
  import opened CoderGraph
  import opened CoderWalk
  import opened UnpackFormat

  // --- Printing ---

  method WriteCodec(m: Method, out: Buffer)
    modifies out
    ensures out.bytes == old(out.bytes) + CodecBytes(m)
  {
    var flags := |m.id|;
    if m.props != [] {
      flags := flags + 0x20;
    }
    out.U8(flags);
    out.All(m.id);
    if m.props != [] {
      out.U8(|m.props| % 256);
      out.All(m.props);
      Nest2(old(out.bytes) + [flags] + m.id, [|m.props| % 256], m.props);
      Nest3(old(out.bytes), [flags], m.id, [|m.props| % 256] + m.props);
    } else {
      Nest3(old(out.bytes), [flags], m.id, []);
    }
  }

  // The coders go through a buffer of their own, because their number comes first.
  method WriteBlock(info: BlockInfo, header: Buffer, cache: Buffer)
    requires header != cache && 0 < |info.methods| < TWO_64
    modifies header, cache
    ensures header.bytes == old(header.bytes) + BlockBytes(info)
  {
    hide CodecBytes, NumberBytes;
    var ms := info.methods;
    cache.bytes := [];
    var count := 0;
    while count < |ms|
      invariant 0 <= count <= |ms| && header.bytes == old(header.bytes)
      invariant cache.bytes + CodecsBytes(ms[count..]) == CodecsBytes(ms)
    {
      assert ms[count..][1..] == ms[count + 1..];
      Nest2(cache.bytes, CodecBytes(ms[count]), CodecsBytes(ms[count + 1..]));
      WriteCodec(ms[count], cache);
      count := count + 1;
    }
    assert cache.bytes + [] == cache.bytes && ms[count..] == [];
    header.Number(count);
    header.All(cache.bytes);
    ghost var before, pairs := header.bytes, ChainPairs(count);
    for i := 0 to count - 1
      invariant header.bytes + PairsBytes(pairs[i..]) == before + PairsBytes(pairs)
    {
      assert pairs[i..][0] == BindPair(i + 1, i) && pairs[i..][1..] == pairs[i + 1..];
      Nest3(header.bytes, NumberBytes(i + 1), NumberBytes(i), PairsBytes(pairs[i + 1..]));
      header.Number(i + 1);
      header.Number(i);
    }
    assert header.bytes + [] == header.bytes && pairs[count - 1..] == [];
    Nest3(old(header.bytes), NumberBytes(count), CodecsBytes(ms), PairsBytes(pairs));
  }

  method WriteTo(blocks: seq<BlockInfo>, header: Buffer)
    requires Countable(blocks)
    modifies header
    ensures header.bytes == old(header.bytes) + UnpackBytes(blocks, [])
  {
    hide BlockBytes, NumberBytes;
    header.U8(K_UNPACK_INFO);
    header.U8(K_FOLDER);
    header.Number(|blocks|);
    header.U8(0);
    Nest4(old(header.bytes), [K_UNPACK_INFO], [K_FOLDER], NumberBytes(|blocks|), [0]);
    ghost var before := header.bytes;
    var cache := new Buffer();
    for i := 0 to |blocks|
      invariant header.bytes + BlocksBytes(blocks[i..]) == before + BlocksBytes(blocks)
    {
      assert blocks[i..][1..] == blocks[i + 1..];
      Nest2(header.bytes, BlockBytes(blocks[i]), BlocksBytes(blocks[i + 1..]));
      WriteBlock(blocks[i], header, cache);
    }
    assert blocks[|blocks|..] == [] && header.bytes + [] == header.bytes;
    header.U8(K_CODERS_UNPACK_SIZE);
    WriteSizes(blocks, header);
    header.U8(K_END);
    UnpackParts(old(header.bytes), blocks);
  }

  lemma UnpackParts(x: seq<byte>, blocks: seq<BlockInfo>)
    requires Countable(blocks)
    ensures x + ([K_UNPACK_INFO] + ([K_FOLDER] + (NumberBytes(|blocks|) + [0]))) + BlocksBytes(blocks)
              + [K_CODERS_UNPACK_SIZE] + NumbersBytes(AllSizes(blocks)) + [K_END]
         == x + UnpackBytes(blocks, [])
  {
    hide NumberBytes, BlocksBytes, NumbersBytes;
    var sizes := NumbersBytes(AllSizes(blocks));
    Nest4(x, [K_UNPACK_INFO], [K_FOLDER], NumberBytes(|blocks|), [0]);
    var y := x + [K_UNPACK_INFO] + [K_FOLDER] + NumberBytes(|blocks|) + [0];
    Nest4(y, BlocksBytes(blocks), [K_CODERS_UNPACK_SIZE], sizes, [K_END]);
    assert [K_END] + [] == [K_END];
    Nest5(x, [K_UNPACK_INFO], [K_FOLDER], NumberBytes(|blocks|), [0],
          BlocksBytes(blocks) + ([K_CODERS_UNPACK_SIZE] + (sizes + [K_END])));
  }

  method WriteSizes(blocks: seq<BlockInfo>, header: Buffer)
    modifies header
    ensures header.bytes == old(header.bytes) + NumbersBytes(AllSizes(blocks))
  {
    hide NumberBytes, NumbersBytes;
    NoNumbers([]);
    for i := 0 to |blocks|
      invariant header.bytes + NumbersBytes(AllSizes(blocks[i..])) == old(header.bytes) + NumbersBytes(AllSizes(blocks))
    {
      assert blocks[i..][1..] == blocks[i + 1..];
      NumbersSplit(blocks[i].sizes, AllSizes(blocks[i + 1..]));
      Nest2(header.bytes, NumbersBytes(blocks[i].sizes), NumbersBytes(AllSizes(blocks[i + 1..])));
      header.Numbers(blocks[i].sizes);
    }
    assert blocks[|blocks|..] == [] && NumbersBytes([]) + [] == NumbersBytes([]);
    assert header.bytes + [] == header.bytes;
  }

  // --- Reading ---

  method ParseCoder(header: Cursor, had: Counts, b: Bounds) returns (r: Result<Counts, HeaderError>)
    modifies header
    ensures Agrees(r, header.rest, ReadCoder(old(header.rest), had, b))
  {
    hide ReadNumber;
    var bits :- header.U8();
    var simple := bits / 16 % 2 == 0;
    var id :- header.Exact(bits % 16);
    var numIn: nat, numOut: nat := 1, 1;
    if !simple {
      numIn :- header.Number();
      numOut :- header.Number();
    }
    if had.totalIn + numIn >= TWO_64 || had.totalOut + numOut >= TWO_64 {
      return Err(BadStructure);
    }
    if numIn > b.maxStreamsPerCoder || numOut > b.maxStreamsPerCoder {
      return Err(Limit);
    }
    var totalIn :- b.Count(had.totalIn + numIn, b.maxEntries);
    var totalOut :- b.Count(had.totalOut + numOut, b.maxEntries);
    var props := [];
    if bits / 32 % 2 == 1 {
      var size :- header.Number();
      if size > b.bytes {
        return Err(Limit);
      }
      props :- header.Exact(size);
    }
    if bits / 128 == 1 {
      return Err(Unsupported);
    }
    return Ok(Counts(had.coders + [Coder(id, numIn, numOut, props)], totalIn, totalOut));
  }

  lemma PrependPair(front: seq<BindPair>, s: seq<byte>, n: nat, totalIn: nat, totalOut: nat)
    requires n > 0
    ensures match ReadNumber(s)
      case Bad(e) => Prepend(front, ReadPairs(s, n, totalIn, totalOut)) == Bad(e)
      case Got(i, s1) =>
        match ReadNumber(s1)
        case Bad(e) => Prepend(front, ReadPairs(s, n, totalIn, totalOut)) == Bad(e)
        case Got(o, s2) =>
          Prepend(front, ReadPairs(s, n, totalIn, totalOut)) ==
            if i >= totalIn || o >= totalOut then Bad(BadStructure)
            else Prepend(front + [BindPair(i, o)], ReadPairs(s2, n - 1, totalIn, totalOut))
  {
    hide ReadNumber;
    if ReadNumber(s).Got? && ReadNumber(ReadNumber(s).rest).Got? {
      var i, p := ReadNumber(s).value, ReadNumber(ReadNumber(s).rest);
      PrependMore(front, BindPair(i, p.value), ReadPairs(p.rest, n - 1, totalIn, totalOut));
    }
  }

  method ParsePairs(header: Cursor, n: nat, totalIn: nat, totalOut: nat) returns (r: Result<seq<BindPair>, HeaderError>)
    modifies header
    ensures Agrees(r, header.rest, ReadPairs(old(header.rest), n, totalIn, totalOut))
  {
    var pairs: seq<BindPair> := [];
    PrependNothing(ReadPairs(header.rest, n, totalIn, totalOut));
    for i := 0 to n
      invariant Prepend(pairs, ReadPairs(header.rest, n - i, totalIn, totalOut))
             == ReadPairs(old(header.rest), n, totalIn, totalOut)
    {
      hide ReadNumber, Prepend, ReadPairs;
      PrependPair(pairs, header.rest, n - i, totalIn, totalOut);
      var inIndex :- header.Number();
      var outIndex :- header.Number();
      if inIndex >= totalIn || outIndex >= totalOut {
        return Err(BadStructure);
      }
      pairs := pairs + [BindPair(inIndex, outIndex)];
    }
    assert pairs + [] == pairs;
    return Ok(pairs);
  }

  method ParsePacked(header: Cursor, pairs: seq<BindPair>, totalIn: nat) returns (r: Result<seq<nat>, HeaderError>)
    modifies header
    ensures Agrees(r, header.rest, ReadPacked(old(header.rest), pairs, totalIn))
  {
    hide ReadNumbers;
    if totalIn < |pairs| {
      return Err(BadStructure);
    }
    if totalIn - |pairs| != 1 {
      var packed :- header.Numbers(totalIn - |pairs|);
      return Ok(packed);
    }
    var i := 0;
    while i < totalIn && FindIn(pairs, i).Some?
      invariant 0 <= i <= totalIn && FirstUnbound(pairs, 0, totalIn) == FirstUnbound(pairs, i, totalIn)
      invariant header.rest == old(header.rest)
    {
      i := i + 1;
    }
    if i == totalIn {
      return Err(BadStructure);
    }
    return Ok([i]);
  }

  // A block whose wiring does not decode is refused here.
  method ParseBlock(header: Cursor, b: Bounds) returns (r: Result<Block, HeaderError>)
    modifies header
    ensures Agrees(r, header.rest, ReadBlock(old(header.rest), b))
  {
    hide ReadNumber, ReadCoder, ReadPairs, ReadPacked, Decodable, RangeChecked;
    var number :- header.Number();
    var n :- b.Count(number, b.maxCodersPerBlock);
    var had := Counts([], 0, 0);
    ghost var coders := ReadCoders(header.rest, n, had, b);
    for i := 0 to n
      invariant ReadCoders(header.rest, n - i, had, b) == coders
    {
      had :- ParseCoder(header, had, b);
    }
    assert coders == Got(had, header.rest);
    if had.totalOut == 0 {
      return Err(BadStructure);
    }
    var pairs :- ParsePairs(header, had.totalOut - 1, had.totalIn, had.totalOut);
    var packed :- ParsePacked(header, pairs, had.totalIn);
    var block := Block(had.coders, pairs, packed, had.totalIn, had.totalOut, [], false, 0, 0);
    InRange(block);
    var error := ValidateCoderGraph(block);
    assert error.None? <==> Accepted(block);
    if error.Some? {
      return Err(BadStructure);
    }
    return Ok(block);
  }

  lemma InRange(block: Block)
    requires Within(block.bindPairs, block.totalIn, block.totalOut)
    requires block.totalIn == InSum(block.coders) && block.totalOut == OutSum(block.coders)
    ensures RangeChecked(block)
  {
  }

  lemma PrependBlock(front: seq<Block>, s: seq<byte>, n: nat, coders: nat, b: Bounds)
    requires n > 0
    ensures match ReadBlock(s, b)
      case Bad(e) => Prepend(front, ReadBlocks(s, n, coders, b)) == Bad(e)
      case Got(block, rest) =>
        Prepend(front, ReadBlocks(s, n, coders, b)) ==
          if coders + |block.coders| > b.maxTotalCoders then Bad(Limit)
          else Prepend(front + [block], ReadBlocks(rest, n - 1, coders + |block.coders|, b))
  {
    hide ReadBlock, Validated;
    if ReadBlock(s, b).Got? {
      var p := ReadBlock(s, b);
      PrependMore(front, p.value, ReadBlocks(p.rest, n - 1, coders + |p.value.coders|, b));
    }
  }

  lemma NoMoreBlocks(front: seq<Block>, s: seq<byte>, coders: nat, b: Bounds)
    ensures Prepend(front, ReadBlocks(s, 0, coders, b)) == Got(front, s)
  {
    hide ReadBlock;
    assert front + [] == front;
  }

  method ParseBlocks(header: Cursor, n: nat, b: Bounds) returns (r: Result<seq<Block>, HeaderError>)
    modifies header
    ensures Agrees(r, header.rest, ReadBlocks(old(header.rest), n, 0, b))
  {
    hide ReadBlock, Prepend, ReadBlocks, Validated;
    var blocks: seq<Block>, coders: nat := [], 0;
    PrependNothing(ReadBlocks(header.rest, n, 0, b));
    for i := 0 to n
      invariant Prepend(blocks, ReadBlocks(header.rest, n - i, coders, b)) == ReadBlocks(old(header.rest), n, 0, b)
    {
      PrependBlock(blocks, header.rest, n - i, coders, b);
      var block :- ParseBlock(header, b);
      coders := coders + |block.coders|;
      if coders > b.maxTotalCoders {
        return Err(Limit);
      }
      blocks := blocks + [block];
    }
    NoMoreBlocks(blocks, header.rest, coders, b);
    return Ok(blocks);
  }

  lemma PrependSized(front: seq<Block>, s: seq<byte>, blocks: seq<Block>)
    requires blocks != []
    ensures match ReadNumbers(s, blocks[0].totalOut)
      case Bad(e) => Prepend(front, ReadSizes(s, blocks)) == Bad(e)
      case Got(sizes, rest) =>
        Prepend(front, ReadSizes(s, blocks)) == Prepend(front + [blocks[0].(unpackSizes := sizes)], ReadSizes(rest, blocks[1..]))
  {
    hide ReadNumbers;
    if ReadNumbers(s, blocks[0].totalOut).Got? {
      var p := ReadNumbers(s, blocks[0].totalOut);
      PrependMore(front, blocks[0].(unpackSizes := p.value), ReadSizes(p.rest, blocks[1..]));
    }
  }

  method ParseSizes(header: Cursor, blocks: seq<Block>) returns (r: Result<seq<Block>, HeaderError>)
    modifies header
    ensures Agrees(r, header.rest, ReadSizes(old(header.rest), blocks))
  {
    var sized: seq<Block> := [];
    PrependNothing(ReadSizes(header.rest, blocks));
    assert blocks[0..] == blocks;
    for i := 0 to |blocks|
      invariant Prepend(sized, ReadSizes(header.rest, blocks[i..])) == ReadSizes(old(header.rest), blocks)
    {
      hide ReadNumbers, Prepend, ReadSizes;
      PrependSized(sized, header.rest, blocks[i..]);
      assert blocks[i..][1..] == blocks[i + 1..];
      var sizes :- header.Numbers(blocks[i].totalOut);
      sized := sized + [blocks[i].(unpackSizes := sizes)];
    }
    assert sized + [] == sized && blocks[|blocks|..] == [];
    return Ok(sized);
  }

  method ParseBlockCrcs(header: Cursor, blocks: seq<Block>) returns (r: Result<seq<Block>, HeaderError>)
    modifies header
    ensures Agrees(r, header.rest, ReadBlockCrcs(old(header.rest), blocks))
  {
    hide ReadAllOrBits, ReadWhere;
    Powers();
    var nid :- header.U8();
    r := Ok(blocks);
    if nid == K_CRC {
      var defined :- ReadAllOrBitSet(header, |blocks|);
      var crcs :- header.Where(4, defined);
      r := Ok(WithCrcs(blocks, defined, crcs));
      nid :- header.U8();
    }
    if nid != K_END {
      return Err(BadTerminator(nid));
    }
  }

  method ParseUnpackInfo(header: Cursor, b: Bounds) returns (r: Result<seq<Block>, HeaderError>)
    modifies header
    ensures Agrees(r, header.rest, ReadUnpackInfo(old(header.rest), b))
  {
    hide ReadNumber, ReadBlocks, ReadSizes, ReadBlockCrcs;
    var nid :- header.U8();
    if nid != K_FOLDER {
      return Err(BadStructure);
    }
    var number :- header.Number();
    var n :- b.Count(number, b.maxEntries);
    var external :- header.U8();
    if external != 0 {
      return Err(Unsupported);
    }
    var blocks :- ParseBlocks(header, n, b);
    nid :- header.U8();
    if nid != K_CODERS_UNPACK_SIZE {
      return Err(BadStructure);
    }
    blocks :- ParseSizes(header, blocks);
    r := ParseBlockCrcs(header, blocks);
  }
}
