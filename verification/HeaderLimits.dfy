// Whatever header is read, nothing in it is beyond the caller's limits, and no
// count beyond the bytes the header has.
module HeaderLimits {
  import opened Common
  import opened Numbers
  import opened Bits
  import opened Wire
  import opened HeaderFormat
  import opened Blocks
  import opened PackFormat
  import opened UnpackFormat
  import opened SubStreams
  import opened FilesFormat
  import opened StreamMaps
  import opened Headers

  ghost predicate BlockWithin(block: Block, b: Bounds) {
    && |block.coders| <= b.maxCodersPerBlock && |block.coders| <= b.bytes
    && forall c | 0 <= c < |block.coders| :: CoderWithin(block.coders[c], b)
  }

  ghost predicate CoderWithin(c: Coder, b: Bounds) {
    && c.numIn <= b.maxStreamsPerCoder && c.numIn <= b.maxEntries && c.numIn <= b.bytes
    && c.numOut <= b.maxStreamsPerCoder && c.numOut <= b.maxEntries && c.numOut <= b.bytes
    && |c.props| <= b.bytes
  }

  ghost predicate BlocksWithin(blocks: seq<Block>, b: Bounds) {
    forall i | 0 <= i < |blocks| :: BlockWithin(blocks[i], b)
  }

  function CodersIn(blocks: seq<Block>): nat {
    if blocks == [] then 0 else |blocks[0].coders| + CodersIn(blocks[1..])
  }

  ghost predicate NamesWithin(names: seq<seq<u16>>, b: Bounds) {
    forall i | 0 <= i < |names| :: names[i] == [] || 2 * (|names[i]| - 1) < b.maxNameBytes
  }

  // The bytes of the names, two for each unit.
  function NamesSize(names: seq<seq<u16>>): nat {
    if names == [] then 0 else 2 * |names[0]| + NamesSize(names[1..])
  }

  function NamesOf(files: seq<Entry>): (names: seq<seq<u16>>)
    ensures |names| == |files|
  {
    seq(|files|, i requires 0 <= i < |files| => files[i].name)
  }

  ghost predicate EntriesWithin(files: seq<Entry>, b: Bounds) {
    NamesWithin(NamesOf(files), b) && NamesSize(NamesOf(files)) <= b.maxTotalNameBytes
  }

  // An archive within the limits.
  ghost predicate Within(a: Archive, b: Bounds) {
    && |a.packs.sizes| <= b.maxEntries && |a.packs.sizes| <= b.bytes
    && |a.blocks| <= b.maxEntries && |a.blocks| <= b.bytes
    && BlocksWithin(a.blocks, b) && (a.blocks != [] ==> CodersIn(a.blocks) <= b.maxTotalCoders)
    && |a.files| <= b.maxEntries && |a.files| <= b.bytes && EntriesWithin(a.files, b)
    && (a.subs.Some? ==> Sum(Subs(a.blocks)) <= b.maxEntries && Sum(Subs(a.blocks)) <= b.bytes)
  }

  // --- Packed streams and blocks ---

  lemma PacksRead(s: seq<byte>, b: Bounds)
    ensures var p := ReadPackPart(s, b); p.Got? ==> |p.value.0.sizes| <= b.maxEntries && |p.value.0.sizes| <= b.bytes
  {
    hide ReadNumber, ReadNumbers, ReadCrcs;
  }

  lemma PropsRead(s: seq<byte>, present: bool, b: Bounds)
    ensures var p := ReadProps(s, present, b); p.Got? ==> |p.value| <= b.bytes
  {
    hide ReadNumber;
  }

  lemma CoderRead(s: seq<byte>, had: Counts, b: Bounds)
    ensures var p := ReadCoder(s, had, b); p.Got? ==>
      |p.value.coders| == |had.coders| + 1 && CoderWithin(p.value.coders[|had.coders|], b)
  {
    hide ReadStreamCounts, ReadProps;
    forall t: seq<byte>, present: bool ensures ReadProps(t, present, b).Got? ==> |ReadProps(t, present, b).value| <= b.bytes {
      PropsRead(t, present, b);
    }
  }

  lemma {:induction false} CodersRead(s: seq<byte>, n: nat, had: Counts, b: Bounds)
    requires forall c | 0 <= c < |had.coders| :: CoderWithin(had.coders[c], b)
    ensures var p := ReadCoders(s, n, had, b); p.Got? ==>
      forall c | 0 <= c < |p.value.coders| :: CoderWithin(p.value.coders[c], b)
    decreases n
  {
    hide ReadCoder, CoderWithin;
    var p := ReadCoder(s, had, b);
    if n > 0 && p.Got? {
      CoderRead(s, had, b);
      assert p.value.coders == had.coders + [p.value.coders[|had.coders|]];
      CodersRead(p.rest, n - 1, p.value, b);
    }
  }

  lemma BlockRead(s: seq<byte>, b: Bounds)
    ensures var p := ReadBlock(s, b); p.Got? ==> BlockWithin(p.value, b)
  {
    hide ReadNumber, ReadCoders, ReadPairs, ReadPacked, Accepted, CoderWithin;
    var n := ReadNumber(s);
    if n.Got? {
      CodersRead(n.rest, n.value, Counts([], 0, 0), b);
    }
  }

  lemma {:induction false} BlocksRead(s: seq<byte>, n: nat, coders: nat, b: Bounds)
    ensures var p := ReadBlocks(s, n, coders, b); p.Got? ==>
      BlocksWithin(p.value, b) && (n > 0 ==> coders + CodersIn(p.value) <= b.maxTotalCoders)
    decreases n
  {
    hide ReadBlock, BlockWithin, BlocksWithin, CodersIn;
    NoBlocks(b);
    var p := ReadBlock(s, b);
    if n > 0 && p.Got? && coders + |p.value.coders| <= b.maxTotalCoders {
      BlockRead(s, b);
      BlocksRead(p.rest, n - 1, coders + |p.value.coders|, b);
      var more := ReadBlocks(p.rest, n - 1, coders + |p.value.coders|, b);
      if more.Got? {
        OneBlockMore(p.value, more.value, b);
      }
    }
  }

  lemma OneBlockMore(block: Block, more: seq<Block>, b: Bounds)
    requires BlockWithin(block, b) && BlocksWithin(more, b)
    ensures BlocksWithin([block] + more, b) && CodersIn([block] + more) == |block.coders| + CodersIn(more)
    ensures more == [] ==> CodersIn(more) == 0
  {
    hide BlockWithin;
    assert ([block] + more)[1..] == more;
  }

  // Sizes, checksums and numbers of streams leave the coders alone.
  ghost predicate SameCoders(blocks: seq<Block>, other: seq<Block>) {
    |blocks| == |other| && forall i | 0 <= i < |blocks| :: other[i].coders == blocks[i].coders
  }

  lemma {:induction false} SizesSame(s: seq<byte>, blocks: seq<Block>)
    ensures var p := UnpackFormat.ReadSizes(s, blocks); p.Got? ==> SameCoders(blocks, p.value)
    decreases |blocks|
  {
    hide ReadNumbers;
    if blocks != [] {
      var p := ReadNumbers(s, blocks[0].totalOut);
      if p.Got? {
        SizesSame(p.rest, blocks[1..]);
      }
    }
  }

  lemma {:induction false} SameWithin(blocks: seq<Block>, other: seq<Block>, b: Bounds)
    requires SameCoders(blocks, other) && BlocksWithin(blocks, b)
    ensures BlocksWithin(other, b) && CodersIn(other) == CodersIn(blocks)
    decreases |blocks|
  {
    hide CoderWithin;
    forall i | 0 <= i < |other| ensures BlockWithin(other[i], b) {
      assert BlockWithin(blocks[i], b);
    }
    if blocks != [] {
      SameWithin(blocks[1..], other[1..], b);
    }
  }

  lemma UnpackRead(s: seq<byte>, b: Bounds)
    ensures var p := ReadUnpackInfo(s, b); p.Got? ==>
      && |p.value| <= b.maxEntries && |p.value| <= b.bytes && BlocksWithin(p.value, b)
      && (p.value != [] ==> CodersIn(p.value) <= b.maxTotalCoders)
  {
    hide ReadNumber, ReadBlocks, UnpackFormat.ReadSizes, ReadBlockCrcs, BlocksWithin, CodersIn;
    if ReadUnpackInfo(s, b).Got? {
      var n := ReadNumber(s[1..]);
      var blocks := ReadBlocks(n.rest[1..], n.value, 0, b);
      var sized := UnpackFormat.ReadSizes(blocks.rest[1..], blocks.value);
      BlocksRead(n.rest[1..], n.value, 0, b);
      SizesSame(blocks.rest[1..], blocks.value);
      SameWithin(blocks.value, sized.value, b);
      SameWithin(sized.value, ReadBlockCrcs(sized.rest, sized.value).value, b);
    }
  }

  // --- Streams ---

  lemma {:induction false} CountsRead(s: seq<byte>, n: nat, total: nat, b: Bounds)
    requires b.Allows(total, b.maxEntries)
    ensures var p := ReadCounts(s, n, total, b); p.Got? ==> b.Allows(total + Sum(p.value), b.maxEntries)
    decreases n
  {
    hide ReadNumber;
    var v := ReadNumber(s);
    if n > 0 && v.Got? && b.Allows(total + v.value, b.maxEntries) {
      CountsRead(v.rest, n - 1, total + v.value, b);
    }
  }

  lemma SubsRead(s: seq<byte>, had: seq<Block>, b: Bounds)
    requires (forall i | 0 <= i < |had| :: Sized(had[i])) && b.Allows(|had|, b.maxEntries)
    ensures var p := ReadSubStreams(s, had, b); p.Got? ==>
      SameCoders(had, p.value.0) && b.Allows(Sum(Subs(p.value.0)), b.maxEntries)
  {
    hide ReadCounts, ReadFlatSizes, ReadDigests, Sum;
    if ReadSubStreams(s, had, b).Got? {
      var counts := ReadNumSubs(s, |had|, b).value.0;
      assert Subs(WithSubs(had, counts)) == counts;
      if s[0] == K_NUM_UNPACK_STREAM {
        NothingYet();
        CountsRead(s[1..], |had|, 0, b);
      } else {
        AllOnes(counts);
      }
    }
  }

  lemma NothingYet()
    ensures Sum([]) == 0
  {
  }

  // --- Entries ---

  lemma {:induction false} NameRead(s: seq<byte>, left: nat, max: nat, got: seq<u16>)
    requires left % 2 == 0 && (got == [] || 2 * (|got| - 1) < max)
    ensures var p := ReadName(s, left, max, got); p.Got? ==>
      && (p.value.0 == [] || 2 * (|p.value.0| - 1) < max)
      && p.value.1 + 2 * (|p.value.0| - |got|) <= left
    decreases left
  {
    if left > 0 && |s| >= 2 {
      var low: int, high: int := s[0], s[1];
      var u := low + 256 * high;
      if u != 0 && 2 * |got| < max {
        NameRead(s[2..], left - 2, max, got + [u]);
      }
    }
  }

  lemma {:induction false} NamesRead(s: seq<byte>, left: nat, n: nat, b: Bounds)
    requires left % 2 == 0
    ensures var p := ReadNames(s, left, n, b.maxNameBytes); p.Got? ==> NamesWithin(p.value, b) && NamesSize(p.value) <= left
    decreases left
  {
    hide ReadName, ValidUtf16;
    if left > 0 && n > 0 {
      var p := ReadName(s, left, b.maxNameBytes, []);
      NameRead(s, left, b.maxNameBytes, []);
      if p.Got? {
        NamesRead(p.rest, p.value.1, n - 1, b);
      }
    }
  }

  lemma PropertyRead(nid: byte, s: seq<byte>, size: u64, st: Props, b: Bounds)
    requires EntriesWithin(st.files, b)
    ensures var p := ReadProperty(nid, s, size, st, b); p.Got? ==> EntriesWithin(p.value.files, b)
  {
    hide ReadBits, ReadNames, ReadAllOrBits, ReadWhere, NamesSize;
    var p := ReadProperty(nid, s, size, st, b);
    if p.Got? {
      if nid == K_NAME {
        NamesRead(s[1..], size - 1, |st.files|, b);
        assert NamesOf(p.value.files) == ReadNames(s[1..], size - 1, |st.files|, b.maxNameBytes).value;
      } else {
        assert NamesOf(p.value.files) == NamesOf(st.files);
      }
    }
  }

  lemma {:induction false} PropertiesRead(s: seq<byte>, st: Props, b: Bounds)
    requires EntriesWithin(st.files, b)
    ensures var p := ReadProperties(s, st, b); p.Got? ==>
      |p.value.files| == |st.files| && EntriesWithin(p.value.files, b)
    decreases |s|
  {
    hide ReadNumber, ReadProperty, EntriesWithin;
    if s != [] && s[0] != K_END {
      NumberShrinks(s[1..]);
      var size := ReadNumber(s[1..]);
      if size.Got? {
        PropertyRead(s[0], size.rest, size.value, st, b);
        var next := ReadProperty(s[0], size.rest, size.value, st, b);
        if next.Got? {
          PropertiesRead(next.rest, next.value, b);
        }
      }
    }
  }

  lemma {:induction false} SettleName(files: seq<Entry>, i: nat, k: nat, e: nat, st: Props, subs: Option<SubStreams>, j: nat)
    requires i + j < |files| && Settle(files, i, k, e, st, subs).Some?
    ensures Settle(files, i, k, e, st, subs).value[j].name == files[i + j].name
    decreases j
  {
    if j > 0 {
      var streamless := Told(st.emptyStream, i, false);
      SettleName(files, i + 1, if streamless then k else k + 1, if streamless then e + 1 else e, st, subs, j - 1);
    }
  }

  lemma {:induction false} NoNames(n: nat)
    ensures NamesSize(NamesOf(seq(n, _ => Blank()))) == 0
  {
    if n > 0 {
      NoNames(n - 1);
      assert NamesOf(seq(n, _ => Blank()))[1..] == NamesOf(seq(n - 1, _ => Blank()));
    } else {
      assert NamesOf(seq(0, _ => Blank())) == [];
    }
  }

  lemma FilesRead(s: seq<byte>, subs: Option<SubStreams>, b: Bounds)
    ensures var p := ReadFilesInfo(s, subs, b); p.Got? ==> b.Allows(|p.value|, b.maxEntries) && EntriesWithin(p.value, b)
  {
    hide ReadNumber, ReadProperties, Settle;
    var n := ReadNumber(s);
    if n.Got? && b.Allows(n.value, b.maxEntries) {
      var st := Props(seq(n.value, _ => Blank()), None, None, None);
      NoNames(n.value);
      PropertiesRead(n.rest, st, b);
      var read := ReadProperties(n.rest, st, b);
      if read.Got? && Settle(read.value.files, 0, 0, 0, read.value, subs).Some? {
        forall j | 0 <= j < |read.value.files|
          ensures Settle(read.value.files, 0, 0, 0, read.value, subs).value[j].name == read.value.files[j].name
        {
          SettleName(read.value.files, 0, 0, 0, read.value, subs, j);
        }
        assert NamesOf(Settle(read.value.files, 0, 0, 0, read.value, subs).value) == NamesOf(read.value.files);
      }
    }
  }

  // --- The whole header ---

  lemma StreamsRead(s: seq<byte>, b: Bounds)
    ensures var p := ReadStreamsInfo(s, b); p.Got? ==> Within(Archive(p.value.packs, p.value.blocks, p.value.subs, []), b)
  {
    hide ReadPackInfo, ReadUnpackInfo, ReadSubStreams, BlocksWithin, CodersIn, Sum;
    PacksRead(s, b);
    var packs := ReadPackPart(s, b);
    if packs.Got? {
      UnpackRead(packs.rest, b);
      NoBlocks(b);
      var blocks := ReadUnpackPart(packs.rest, packs.value.1, b);
      if blocks.Got? && blocks.value.1 == K_SUB_STREAMS_INFO {
        SubsRead(blocks.rest, blocks.value.0, b);
        var subs := ReadSubStreams(blocks.rest, blocks.value.0, b);
        if subs.Got? {
          SameWithin(blocks.value.0, subs.value.0, b);
        }
      }
    }
  }

  lemma NoBlocks(b: Bounds)
    ensures BlocksWithin([], b)
  {
  }

  lemma MappedNames(a: Archive)
    requires MapStreams(a).Some?
    ensures |MapStreams(a).value.1| == |a.files| && NamesOf(MapStreams(a).value.1) == NamesOf(a.files)
  {
    MapFiles(a);
    hide MapStreams;
    assert NamesOf(MapStreams(a).value.1) == NamesOf(a.files);
  }

  // Whatever is read as a header is an archive within the limits.
  lemma HeaderRead(s: seq<byte>, b: Bounds)
    ensures var p := ReadHeader(s, b); p.Got? ==> Within(p.value.archive, b)
  {
    hide ReadStart, ReadStreamsInfo, ReadFilesInfo, MapStreams, BlocksWithin, CodersIn, Sum;
    var start := ReadStart(s, b);
    if start.Got? {
      if start.value == K_MAIN_STREAMS_INFO {
        StreamsRead(start.rest, b);
      }
      var main := ReadMainPart(start.rest, start.value, b);
      NoBlocks(b);
      if main.Got? {
        var streams := main.value.0;
        FilesRead(main.rest, streams.subs, b);
        var files := if main.value.1 == K_FILES_INFO then ReadFilesInfo(main.rest, streams.subs, b) else Got([], main.rest);
        if files.Got? {
          var a := Archive(streams.packs, streams.blocks, streams.subs, files.value);
          if MapStreams(a).Some? {
            MappedNames(a);
          }
        }
      }
    }
  }
}
