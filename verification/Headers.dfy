// The whole header: printed by the archive writer, read by the archive reader.
module Headers {
  import opened Common
  import opened Numbers
  import opened Bits
  import opened Wire
  import opened HeaderFormat
  import opened Blocks
  import opened PackFormat
  import opened UnpackFormat
  import opened SubStreams
  import opened SubStreamsOut
  import opened FilesFormat
  import opened FilesBack
  import opened StreamMaps

  // What a writer knows of its archive.
  datatype Contents = Contents(pos: u64, sizes: seq<u64>, crcs: seq<u32>, blocks: seq<BlockInfo>, files: seq<Entry>)

  predicate Writable(c: Contents) {
    |c.sizes| < TWO_64 && Countable(c.blocks) && Printable(c.files)
  }

  // --- Printing ---

  function StreamsBytes(c: Contents, tail: seq<byte>): seq<byte>
    requires Writable(c)
  {
    var subs := SubBytes(c.blocks, [K_END] + tail);
    if c.sizes == [] then subs else PackBytes(c.pos, c.sizes, c.crcs, UnpackBytes(c.blocks, subs))
  }

  function HeaderBytes(c: Contents): seq<byte>
    requires Writable(c)
  {
    [K_HEADER] + ([K_MAIN_STREAMS_INFO] + StreamsBytes(c, FilesBytes(c.files, [K_END])))
  }

  // --- Reading ---

  datatype Streams = Streams(packs: Packs, blocks: seq<Block>, subs: Option<SubStreams>)

  ghost function ReadUnpackPart(s: seq<byte>, nid: byte, b: Bounds): (p: Parse<(seq<Block>, byte)>)
    ensures p.Got? ==> |p.rest| <= |s| && forall i | 0 <= i < |p.value.0| :: Sized(p.value.0[i])
  {
    if nid != K_UNPACK_INFO then Got(([], nid), s) else
    UnpackSized(s, b);
    var (blocks, s1) :- ReadUnpackInfo(s, b);
    var (next, s2) :- ReadByte(s1);
    Got((blocks, next), s2)
  }

  function ReadPackPart(s: seq<byte>, b: Bounds): (p: Parse<(Packs, byte)>)
    ensures p.Got? ==> |p.rest| < |s|
  {
    var (nid, s1) :- ReadByte(s);
    if nid != K_PACK_INFO then Got((Packs(0, [], [], []), nid), s1) else
    var (packs, s2) :- ReadPackInfo(s1, b);
    var (next, s3) :- ReadByte(s2);
    Got((packs, next), s3)
  }

  ghost function ReadStreamsInfo(s: seq<byte>, b: Bounds): (p: Parse<Streams>)
    ensures p.Got? ==> |p.rest| <= |s|
  {
    var (packs, s1) :- ReadPackPart(s, b);
    var (blocks, s2) :- ReadUnpackPart(s1, packs.1, b);
    if blocks.1 == K_SUB_STREAMS_INFO then
      var (subs, s3) :- ReadSubStreams(s2, blocks.0, b);
      var (last, s4) :- ReadByte(s3);
      if last != K_END then Bad(BadTerminator(last)) else Got(Streams(packs.0, subs.0, Some(subs.1)), s4)
    else if blocks.1 != K_END then Bad(BadTerminator(blocks.1))
    else Got(Streams(packs.0, blocks.0, None), s2)
  }

  // Properties of the archive are skipped.
  function SkipProperties(s: seq<byte>, b: Bounds): (p: Parse<()>)
    ensures p.Got? ==> |p.rest| < |s|
    decreases |s|
  {
    var (nid, s1) :- ReadByte(s);
    if nid == K_END then Got((), s1) else
    NumberShrinks(s1);
    var (size, s2) :- ReadNumber(s1);
    if size > b.bytes then Bad(Limit) else
    SkipProperties(if size <= |s2| then s2[size..] else [], b)
  }

  // A property of the archive is passed over, just as long as it says.
  lemma SkipsProperty(nid: byte, data: seq<byte>, b: Bounds, tail: seq<byte>)
    requires nid != 0 && |data| < TWO_64 && |data| <= b.bytes
    ensures SkipProperties([nid] + (NumberBytes(|data|) + (data + tail)), b) == SkipProperties(tail, b)
    ensures SkipProperties([0] + tail, b) == Got((), tail)
  {
    hide ReadNumber, NumberBytes;
    TakeDrop([nid], NumberBytes(|data|) + (data + tail));
    NumberRoundTrip(|data|, data + tail);
    TakeDrop(data, tail);
    TakeDrop([0], tail);
  }

  ghost function ReadMainPart(s: seq<byte>, nid: byte, b: Bounds): Parse<(Streams, byte)> {
    if nid == K_ADDITIONAL_STREAMS_INFO then Bad(Unsupported)
    else if nid != K_MAIN_STREAMS_INFO then Got((Streams(Packs(0, [], [], []), [], None), nid), s)
    else
      var (streams, s1) :- ReadStreamsInfo(s, b);
      var (next, s2) :- ReadByte(s1);
      Got((streams, next), s2)
  }

  function ReadStart(s: seq<byte>, b: Bounds): Parse<byte> {
    var (nid, s1) :- ReadByte(s);
    if nid != K_ARCHIVE_PROPERTIES then Got(nid, s1) else
    var (_, s2) :- SkipProperties(s1, b);
    ReadByte(s2)
  }

  // Properties of the archive may stand in front, and change nothing.
  lemma PropertiesInFront(nid: byte, data: seq<byte>, b: Bounds, s: seq<byte>)
    requires nid != 0 && |data| < TWO_64 && |data| <= b.bytes && s != [] && s[0] != 0x02
    ensures ReadStart([0x02] + ([nid] + (NumberBytes(|data|) + (data + ([0x00] + s)))), b) == ReadStart(s, b)
  {
    hide NumberBytes, SkipProperties;
    SkipsProperty(nid, data, b, [0x00] + s);
    SkipsProperty(nid, data, b, s);
    TakeDrop([0x02], [nid] + (NumberBytes(|data|) + (data + ([0x00] + s))));
  }

  datatype Opened = Opened(archive: Archive, streamMap: StreamMap)

  function Mapped(streams: Streams, files: seq<Entry>): Option<Opened> {
    var a := Archive(streams.packs, streams.blocks, streams.subs, files);
    match MapStreams(a)
    case None => None
    case Some(m) => Some(Opened(a.(files := m.1), m.0))
  }

  function ReadFilesPart(s: seq<byte>, nid: byte, streams: Streams, b: Bounds): Parse<(Opened, byte)> {
    if nid != K_FILES_INFO then
      match Mapped(streams, [])
      case None => Bad(BadStructure)
      case Some(whole) => Got((whole, nid), s)
    else
      var (files, s1) :- ReadFilesInfo(s, streams.subs, b);
      match Mapped(streams, files)
      case None => Bad(BadStructure)
      case Some(whole) =>
        var (next, s2) :- ReadByte(s1);
        Got((whole, next), s2)
  }

  ghost function ReadHeader(s: seq<byte>, b: Bounds): Parse<Opened> {
    var (nid, s1) :- ReadStart(s, b);
    var (main, s2) :- ReadMainPart(s1, nid, b);
    var (whole, s3) :- ReadFilesPart(s2, main.1, main.0, b);
    if whole.1 != K_END then Bad(BadTerminator(whole.1)) else Got(whole.0, s3)
  }

  // --- What was printed is read back ---

  // The archives that come back: within the caller's limits, one packed stream
  // to a block, streams that add up, checksums of packed streams all there or
  // all missing, and as many entries with a stream as streams.
  predicate Fits(c: Contents, b: Bounds) {
    && Writable(c)
    && |c.sizes| == |c.crcs| == |c.blocks| <= b.maxEntries
    && Uniform(c.crcs) && Sum(c.sizes) < TWO_64
    && TotalCoders(c.blocks) <= b.maxTotalCoders
    && (forall i | 0 <= i < |c.blocks| :: BlockLimits(c.blocks[i], b) && Consistent(c.blocks[i]))
    && FilesLimits(c.files, b)
    && Streamed(c.files) == Sum(NumSubs(c.blocks)) <= b.maxEntries
  }

  // And within what is counted against the bytes of the header.
  predicate Counted(c: Contents, b: Bounds) {
    && Fits(c, b) && |c.sizes| <= b.bytes
    && BlocksFit(c.blocks, b) && SubsFit(c.blocks, b) && FilesFit(c.files, b)
  }

  // --- What is counted is there ---

  lemma CodecLong(m: Method)
    ensures |CodecBytes(m)| > |m.props|
  {
  }

  lemma {:induction false} CodecsLong(ms: seq<Method>)
    ensures |CodecsBytes(ms)| >= |ms|
    ensures forall i | 0 <= i < |ms| :: |CodecsBytes(ms)| >= |ms[i].props|
  {
    hide CodecBytes;
    if ms != [] {
      CodecLong(ms[0]);
      CodecsLong(ms[1..]);
      forall i | 0 <= i < |ms| ensures |CodecsBytes(ms)| >= |ms[i].props| {
        assert i > 0 ==> ms[i] == ms[1..][i - 1];
      }
    }
  }

  lemma BlockLong(info: BlockInfo)
    requires |info.methods| < TWO_64
    ensures |BlockBytes(info)| >= |info.methods|
    ensures forall i | 0 <= i < |info.methods| :: |BlockBytes(info)| >= |info.methods[i].props|
  {
    hide NumberBytes, CodecsBytes, PairsBytes;
    CodecsLong(info.methods);
  }

  lemma {:induction false} BlocksLong(blocks: seq<BlockInfo>, i: nat)
    requires i < |blocks| && forall j | 0 <= j < |blocks| :: 0 < |blocks[j].methods| < TWO_64
    ensures |BlocksBytes(blocks)| >= |BlockBytes(blocks[i])|
    decreases |blocks|
  {
    hide BlockBytes;
    if i > 0 {
      BlocksLong(blocks[1..], i - 1);
    }
  }

  lemma {:induction false} WordsLong(crcs: seq<nat>)
    ensures |WhereBytes(crcs, 4, AllTrue(|crcs|))| >= |crcs|
  {
    if crcs != [] {
      assert AllTrue(|crcs|)[1..] == AllTrue(|crcs[1..]|);
      WordsLong(crcs[1..]);
    }
  }

  lemma SubsLong(blocks: seq<BlockInfo>, tail: seq<byte>)
    requires forall i | 0 <= i < |blocks| :: Consistent(blocks[i])
    ensures |SubBytes(blocks, tail)| >= Sum(NumSubs(blocks)) + |tail|
  {
    hide NumbersPart, SizesPart, AllCrcs, Consistent, Sum;
    AllFit(blocks);
    WordsLong(AllCrcs(blocks));
  }

  lemma UnpackLong(blocks: seq<BlockInfo>, tail: seq<byte>)
    requires Countable(blocks)
    ensures |UnpackBytes(blocks, tail)| >= |BlocksBytes(blocks)| + |tail|
  {
    hide NumberBytes, BlocksBytes, NumbersBytes, AllSizes;
  }

  lemma PackLong(pos: u64, sizes: seq<u64>, crcs: seq<nat>, tail: seq<byte>)
    requires |sizes| < TWO_64
    ensures |PackBytes(pos, sizes, crcs, tail)| >= |sizes| + |tail|
  {
    hide NumberBytes, NumbersBytes, CrcTable;
    NumbersLong(sizes);
  }

  lemma {:induction false} NamesLong(files: seq<Entry>)
    ensures |NamesBytes(files)| >= |files|
  {
    hide UnitsBytes;
    if files != [] {
      NamesLong(files[1..]);
    }
  }

  lemma FilesLong(files: seq<Entry>, tail: seq<byte>)
    requires Printable(files)
    ensures |FilesBytes(files, tail)| > |NamesBytes(files)| + 1 > |files|
  {
    hide NumberBytes, VectorPart, TrimmedPart, StampsPart, NamesBytes, StampsBytes, EmptyStreams, EmptyFiles, AntiItems;
    NamesLong(files);
  }

  lemma StreamsLong(c: Contents, tail: seq<byte>)
    requires Writable(c) && |c.sizes| == |c.blocks| && forall i | 0 <= i < |c.blocks| :: Consistent(c.blocks[i])
    ensures |StreamsBytes(c, tail)| >= |c.sizes| + |tail| && |StreamsBytes(c, tail)| >= |BlocksBytes(c.blocks)|
    ensures |StreamsBytes(c, tail)| >= Sum(NumSubs(c.blocks))
  {
    hide SubBytes, PackBytes, UnpackBytes, Consistent, Sum, Printable;
    var subs := SubBytes(c.blocks, [K_END] + tail);
    SubsLong(c.blocks, [K_END] + tail);
    if c.sizes != [] {
      UnpackLong(c.blocks, subs);
      PackLong(c.pos, c.sizes, c.crcs, UnpackBytes(c.blocks, subs));
    }
  }

  // Whatever the reader counts against the bytes of the header it was given
  // has a byte of its own there: only the caller's limits can refuse it.
  lemma BytesAllow(c: Contents, b: Bounds)
    requires Fits(c, b) && |HeaderBytes(c)| - 1 <= b.bytes
    ensures Counted(c, b)
  {
    hide StreamsBytes, FilesBytes, FilesLimits, Sum, Consistent, BlockBytes, BlocksBytes, NamesBytes, Streamed, BlockLimits;
    FitsParts(c, b);
    StreamsLong(c, FilesBytes(c.files, [K_END]));
    LimitsPrintable(c.files, b);
    FilesLong(c.files, [K_END]);
    forall i | 0 <= i < |c.blocks| ensures BlockFits(c.blocks[i], b) {
      BlocksLong(c.blocks, i);
      BlockLong(c.blocks[i]);
    }
  }

  lemma LimitsPrintable(files: seq<Entry>, b: Bounds)
    requires FilesLimits(files, b)
    ensures Printable(files)
  {
  }

  function PacksBack(c: Contents): Packs {
    if c.sizes == [] then Packs(0, [], [], []) else Packs(c.pos, c.sizes, Defined(c.crcs), c.crcs)
  }

  function StreamsBack(c: Contents): Streams {
    Streams(PacksBack(c), ReadBack(c.blocks),
            Some(SubStreams(AllSubSizes(c.blocks), AllTrue(|AllCrcs(c.blocks)|), AllCrcs(c.blocks))))
  }

  lemma SubsPartBack(c: Contents, b: Bounds, tail: seq<byte>)
    requires Counted(c, b)
    ensures var s := SubBytes(c.blocks, [K_END] + tail);
      && s != [] && s[0] == K_SUB_STREAMS_INFO
      && (forall i | 0 <= i < |c.blocks| :: Sized(SizedBlocks(c.blocks)[i]))
      && ReadSubStreams(s[1..], SizedBlocks(c.blocks), b)
         == Got((StreamsBack(c).blocks, StreamsBack(c).subs.value), [K_END] + tail)
  {
    hide SubBytes, ReadSubStreams, FilesFit, BlocksFit, Uniform, Sum;
    BackSized(c.blocks);
    SubsRoundTrip(c.blocks, b, [K_END] + tail);
    SubStart(c.blocks, [K_END] + tail);
  }

  lemma SubStart(blocks: seq<BlockInfo>, tail: seq<byte>)
    ensures SubBytes(blocks, tail) != [] && SubBytes(blocks, tail)[0] == K_SUB_STREAMS_INFO
  {
  }

  lemma UnpackStart(blocks: seq<BlockInfo>, tail: seq<byte>)
    requires Countable(blocks)
    ensures UnpackBytes(blocks, tail) != [] && UnpackBytes(blocks, tail)[0] == K_UNPACK_INFO
  {
  }

  lemma PackStart(pos: u64, sizes: seq<u64>, crcs: seq<nat>, tail: seq<byte>)
    requires |sizes| < TWO_64
    ensures PackBytes(pos, sizes, crcs, tail) != [] && PackBytes(pos, sizes, crcs, tail)[0] == K_PACK_INFO
  {
  }

  lemma PackUnpackBack(c: Contents, b: Bounds, tail: seq<byte>)
    requires Counted(c, b)
    ensures var subs := SubBytes(c.blocks, [K_END] + tail);
      var packs := ReadPackPart(StreamsBytes(c, tail), b);
      && packs.Got? && packs.value.0 == PacksBack(c)
      && ReadUnpackPart(packs.rest, packs.value.1, b) == Got((SizedBlocks(c.blocks), K_SUB_STREAMS_INFO), subs[1..])
  {
    hide SubBytes, PackBytes, UnpackBytes, ReadPackInfo, ReadUnpackInfo, FilesFit, SubsFit, Sum, BlocksFit;
    var subs := SubBytes(c.blocks, [K_END] + tail);
    SubStart(c.blocks, [K_END] + tail);
    if c.sizes == [] {
      assert SizedBlocks(c.blocks) == [];
    } else {
      var unpack := UnpackBytes(c.blocks, subs);
      PackStart(c.pos, c.sizes, c.crcs, unpack);
      UnpackStart(c.blocks, subs);
      PackInfoIff(c.pos, c.sizes, c.crcs, b, unpack);
      UnpackRoundTrip(c.blocks, b, subs);
    }
  }

  // The packed streams, the blocks and their streams come back.
  lemma StreamsRoundTrip(c: Contents, b: Bounds, tail: seq<byte>)
    requires Counted(c, b)
    ensures ReadStreamsInfo(StreamsBytes(c, tail), b) == Got(StreamsBack(c), tail)
  {
    hide Counted, StreamsBytes, ReadPackPart, ReadUnpackPart, ReadSubStreams, SubBytes, PacksBack;
    PackUnpackBack(c, b, tail);
    SubsPartBack(c, b, tail);
    TakeDrop([K_END], tail);
  }

  // What an entry keeps: its name, its kind, the dates and attributes it has,
  // and with a stream the size and checksum of that stream.
  predicate EntryKept(f: Entry, g: Entry, k: nat, subs: SubStreams) {
    && g.name == f.name && g.hasStream == f.hasStream
    && g.created == Norm(f.created) && g.accessed == Norm(f.accessed)
    && g.modified == Norm(f.modified) && g.attributes == Norm(f.attributes)
    && if f.hasStream
       then k < |subs.sizes| == |subs.crcs| && g.size == subs.sizes[k] && g.crc == subs.crcs[k] && g.hasCrc == Flag(subs.hasCrc, k)
            && !g.isDirectory && !g.isAnti
       else g.isDirectory == f.isDirectory && g.isAnti == f.isAnti && !g.hasCrc && g.size == 0
  }

  lemma {:induction false} BackAt(files: seq<Entry>, k: nat, subs: SubStreams, i: nat)
    requires k + Streamed(files) <= |subs.sizes| == |subs.crcs| && i < |files|
    ensures EntryKept(files[i], BackEntries(files, k, subs)[i], k + Before(files, i), subs)
    decreases |files|
  {
    if i > 0 {
      BackAt(files[1..], if files[0].hasStream then k + 1 else k, subs, i - 1);
      BeforeShift(files, i);
    }
  }

  lemma {:induction false} BeforeShift(files: seq<Entry>, i: nat)
    requires 0 < i <= |files|
    ensures Before(files, i) == (if files[0].hasStream then 1 else 0) + Before(files[1..], i - 1)
  {
    if i > 1 {
      BeforeShift(files, i - 1);
    }
  }

  lemma {:induction false} BeforeSame(files: seq<Entry>, other: seq<Entry>, i: nat)
    requires |files| == |other| && i <= |files|
    requires forall j | 0 <= j < |files| :: files[j].hasStream == other[j].hasStream
    ensures Before(files, i) == Before(other, i)
  {
    if i > 0 {
      BeforeSame(files, other, i - 1);
    }
  }

  lemma SubsCount(c: Contents, b: Bounds)
    requires Counted(c, b)
    ensures var subs := StreamsBack(c).subs.value;
      Streamed(c.files) == |subs.sizes| == |subs.crcs| == Sum(Subs(ReadBack(c.blocks)))
  {
    hide BlocksFit, SubsFit, FilesFit, FilesLimits, BlockLimits, Consistent, Sum, ReadBack, Subs, AllSubSizes, AllCrcs, Streamed;
    AllFit(c.blocks);
    BackSubs(c.blocks);
  }

  // The entries as they come back fill the streams exactly.
  lemma BackFills(c: Contents, b: Bounds)
    requires Counted(c, b)
    ensures var subs := StreamsBack(c).subs.value;
      && Streamed(c.files) == |subs.sizes| == |subs.crcs|
      && Before(BackEntries(c.files, 0, subs), |c.files|) == Sum(Subs(ReadBack(c.blocks)))
      && forall i | 0 <= i < |c.files| ::
           EntryKept(c.files[i], BackEntries(c.files, 0, subs)[i], Before(c.files, i), subs)
  {
    hide Counted, Sum, EntryKept, AllSubSizes, AllCrcs, BackEntries, Before, Streamed, Subs, ReadBack;
    SubsCount(c, b);
    BackStreams(c.files, SubStreams(AllSubSizes(c.blocks), AllTrue(|AllCrcs(c.blocks)|), AllCrcs(c.blocks)));
  }

  lemma BackStreams(files: seq<Entry>, subs: SubStreams)
    requires Streamed(files) == |subs.sizes| == |subs.crcs|
    ensures Before(BackEntries(files, 0, subs), |files|) == Streamed(files)
    ensures forall i | 0 <= i < |files| :: EntryKept(files[i], BackEntries(files, 0, subs)[i], Before(files, i), subs)
  {
    hide EntryKept, BackEntries;
    var back := BackEntries(files, 0, subs);
    forall i | 0 <= i < |files|
      ensures EntryKept(files[i], back[i], Before(files, i), subs)
      ensures back[i].hasStream == files[i].hasStream
    {
      BackAt(files, 0, subs, i);
      KeptStream(files[i], back[i], Before(files, i), subs);
    }
    BeforeSame(back, files, |files|);
    BeforeAll(files, 0);
    assert files[0..] == files;
  }

  lemma KeptStream(f: Entry, g: Entry, k: nat, subs: SubStreams)
    requires EntryKept(f, g, k, subs)
    ensures g.hasStream == f.hasStream
  {
  }

  lemma BackIsMapped(c: Contents, b: Bounds)
    requires Counted(c, b)
    ensures Streamed(c.files) == |StreamsBack(c).subs.value.sizes| == |StreamsBack(c).subs.value.crcs|
    ensures var streams := StreamsBack(c);
      var back := BackEntries(c.files, 0, streams.subs.value);
      var whole := Mapped(streams, back);
      && whole.Some? && SameStreams(back, whole.value.archive.files)
      && whole.value.archive == Archive(streams.packs, streams.blocks, streams.subs, whole.value.archive.files)
  {
    hide BlocksFit, FilesFit, Sum, EntryKept, MapStreams, PlaceFiles, BackEntries;
    var streams := StreamsBack(c);
    BackFills(c, b);
    var back := BackEntries(c.files, 0, streams.subs.value);
    var a := Archive(streams.packs, streams.blocks, streams.subs, back);
    AllOnes(PackedCounts(a.blocks));
    NothingPacked(c);
    MapExists(a);
    MapFiles(a);
  }

  lemma NothingPacked(c: Contents)
    ensures |PacksBack(c).sizes| == |c.sizes|
    ensures PacksBack(c).sizes == c.sizes
  {
  }

  lemma MapFiles(a: Archive)
    requires MapStreams(a).Some?
    ensures PlaceFiles(GivenOf(a), a.files, |a.files|).Some?
    ensures SameStreams(a.files, MapStreams(a).value.1)
  {
    hide Sum, PlaceFiles;
    PlacesMean(GivenOf(a), a.files, |a.files|);
  }

  // Parsing what was printed gives back the packed streams, the chains of
  // coders, the streams with their sizes and checksums, and every entry.
  // A count is believed up to the bytes of the header behind its first.
  lemma HeaderRoundTrip(c: Contents, b: Bounds)
    requires Fits(c, b) && |HeaderBytes(c)| - 1 <= b.bytes
    ensures ReadHeader(HeaderBytes(c)[1..], b).Got?
    ensures var (rest, archive) := (ReadHeader(HeaderBytes(c)[1..], b).rest, ReadHeader(HeaderBytes(c)[1..], b).value.archive);
      && rest == [] && archive.packs == PacksBack(c) && archive.blocks == ReadBack(c.blocks)
      && archive.subs == Some(SubStreams(AllSubSizes(c.blocks), AllTrue(|AllCrcs(c.blocks)|), AllCrcs(c.blocks)))
      && |archive.files| == |c.files|
      && forall i | 0 <= i < |c.files| ::
           EntryKept(c.files[i], archive.files[i], Before(c.files, i), archive.subs.value)
  {
    hide StreamsBytes, FilesBytes, ReadStreamsInfo, ReadFilesInfo, Mapped, BackEntries, Fits, Counted, EntryKept;
    BytesAllow(c, b);
    FitsParts(c, b);
    var tail := FilesBytes(c.files, [K_END]);
    var s := HeaderBytes(c)[1..];
    TakeDrop([K_HEADER], [K_MAIN_STREAMS_INFO] + StreamsBytes(c, tail));
    TakeDrop([K_MAIN_STREAMS_INFO], StreamsBytes(c, tail));
    StreamsRoundTrip(c, b, tail);
    FilesStart(c.files, [K_END]);
    var subs := StreamsBack(c).subs.value;
    BackFills(c, b);
    FilesRoundTrip(c.files, subs, b, [K_END]);
    BackIsMapped(c, b);
    var archive := Mapped(StreamsBack(c), BackEntries(c.files, 0, subs)).value.archive;
    assert ReadHeader(s, b).Got? && ReadHeader(s, b).value.archive == archive;
    forall i | 0 <= i < |c.files|
      ensures EntryKept(c.files[i], archive.files[i], Before(c.files, i), subs)
    {
      StillKept(c.files[i], BackEntries(c.files, 0, subs)[i], archive.files[i], Before(c.files, i), subs);
    }
  }

  lemma StillKept(f: Entry, g: Entry, h: Entry, k: nat, subs: SubStreams)
    requires EntryKept(f, g, k, subs) && h == g.(compressedSize := h.compressedSize)
    ensures EntryKept(f, h, k, subs)
  {
  }

  lemma FitsParts(c: Contents, b: Bounds)
    requires Fits(c, b)
    ensures Writable(c) && FilesLimits(c.files, b)
    ensures Counted(c, b) ==> FilesFit(c.files, b)
  {
  }

  lemma FilesStart(files: seq<Entry>, tail: seq<byte>)
    requires Printable(files)
    ensures FilesBytes(files, tail) != [] && FilesBytes(files, tail)[0] == K_FILES_INFO
  {
  }
}
