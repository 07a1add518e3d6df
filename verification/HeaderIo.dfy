// Printing and reading the whole header, step by step.
module HeaderIo {
  import opened Common
  import opened Numbers
  import opened Bits
  import opened Wire
  import opened HeaderFormat
  import opened Blocks
  import opened PackFormat
  import opened UnpackFormat
  import opened SubStreams
  import opened SubStreamsOut
  import opened FilesFormat
  import opened FilesBack
  import opened StreamMaps
  import opened Headers
  import UnpackIo
  import SubStreamsIo
  import FilesIo

  class ArchiveWriter {
    var files: seq<Entry>
    const packInfo: PackInfo
    const unpackInfo: SubStreamsIo.UnpackInfo

    constructor ()
      ensures files == [] && fresh(packInfo) && fresh(unpackInfo)
      ensures packInfo.sizes == [] && packInfo.crcs == [] && unpackInfo.blocks == []
    {
      files := [];
      packInfo := new PackInfo();
      unpackInfo := new SubStreamsIo.UnpackInfo();
    }

    function Held(): Contents
      reads this, packInfo, unpackInfo
    {
      Contents(packInfo.pos, packInfo.sizes, packInfo.crcs, unpackInfo.blocks, files)
    }

    method WriteStreamsInfo(header: Buffer)
      requires Writable(Held())
      modifies header
      ensures header.bytes == old(header.bytes) + StreamsBytes(Held(), [])
    {
      hide UnpackBytes, PackBytes, SubBytes;
      ghost var c := Held();
      if |packInfo.sizes| > 0 {
        packInfo.WriteTo(header);
        unpackInfo.WriteTo(header);
      }
      unpackInfo.WriteSubstreams(header);
      header.U8(K_END);
      StreamsParts(old(header.bytes), c);
    }

    method WriteHeader(header: Buffer)
      requires Writable(Held())
      modifies header
      ensures header.bytes == old(header.bytes) + HeaderBytes(Held())
    {
      hide StreamsBytes, FilesBytes, Writable;
      ghost var c := Held();
      WritableFiles(c);
      header.U8(K_HEADER);
      header.U8(K_MAIN_STREAMS_INFO);
      WriteStreamsInfo(header);
      FilesIo.WriteFilesInfo(files, header);
      header.U8(K_END);
      HeaderParts(old(header.bytes), c);
    }
  }

  lemma WritableFiles(c: Contents)
    requires Writable(c)
    ensures Printable(c.files)
  {
  }

  // What is printed in front of `tail` is what is printed alone, and then `tail`.
  lemma PackTail(pos: u64, sizes: seq<u64>, crcs: seq<nat>, tail: seq<byte>)
    requires |sizes| < TWO_64
    ensures PackBytes(pos, sizes, crcs, tail) == PackBytes(pos, sizes, crcs, []) + tail
  {
    hide NumberBytes, NumbersBytes, CrcTable;
    EmptyEnd8([K_END]);
    Nest4([K_PACK_INFO], NumberBytes(pos), NumberBytes(|sizes|), [K_SIZE], NumbersBytes(sizes));
    var x := [K_PACK_INFO] + NumberBytes(pos) + NumberBytes(|sizes|) + [K_SIZE] + NumbersBytes(sizes);
    Nest4(x, [K_CRC], CrcTable(crcs), [K_END], tail);
    Nest3(x, [K_CRC], CrcTable(crcs), [K_END]);
    Nest5([K_PACK_INFO], NumberBytes(pos), NumberBytes(|sizes|), [K_SIZE], NumbersBytes(sizes),
          [K_CRC] + (CrcTable(crcs) + [K_END]));
    Nest5([K_PACK_INFO], NumberBytes(pos), NumberBytes(|sizes|), [K_SIZE], NumbersBytes(sizes),
          [K_CRC] + (CrcTable(crcs) + ([K_END] + tail)));
  }

  lemma EmptyEnd8(s: seq<byte>)
    ensures s + [] == s
  {
  }

  lemma UnpackTail(blocks: seq<BlockInfo>, tail: seq<byte>)
    requires Countable(blocks)
    ensures UnpackBytes(blocks, tail) == UnpackBytes(blocks, []) + tail
  {
    hide NumberBytes, BlocksBytes, NumbersBytes, AllSizes;
    var sizes := NumbersBytes(AllSizes(blocks));
    EmptyEnd8([K_END]);
    var x := [K_UNPACK_INFO] + [K_FOLDER] + NumberBytes(|blocks|) + [0] + BlocksBytes(blocks);
    Nest4(x, [K_CODERS_UNPACK_SIZE], sizes, [K_END], tail);
    Nest3(x, [K_CODERS_UNPACK_SIZE], sizes, [K_END]);
    Nest5([K_UNPACK_INFO], [K_FOLDER], NumberBytes(|blocks|), [0], BlocksBytes(blocks),
          [K_CODERS_UNPACK_SIZE] + (sizes + [K_END]));
    Nest5([K_UNPACK_INFO], [K_FOLDER], NumberBytes(|blocks|), [0], BlocksBytes(blocks),
          [K_CODERS_UNPACK_SIZE] + (sizes + ([K_END] + tail)));
  }

  lemma SubTail(blocks: seq<BlockInfo>, tail: seq<byte>)
    ensures SubBytes(blocks, tail) == SubBytes(blocks, []) + tail
  {
    hide NumbersPart, SizesPart, CrcsPart, AllCrcs;
    EmptyEnd8([K_END]);
    Nest5([K_SUB_STREAMS_INFO], NumbersPart(blocks), SizesPart(blocks), CrcsPart(AllCrcs(blocks)), [K_END], tail);
    Nest4([K_SUB_STREAMS_INFO], NumbersPart(blocks), SizesPart(blocks), CrcsPart(AllCrcs(blocks)), [K_END]);
  }

  lemma StreamsParts(x: seq<byte>, c: Contents)
    requires Writable(c)
    ensures c.sizes == [] ==> x + SubBytes(c.blocks, []) + [K_END] == x + StreamsBytes(c, [])
    ensures c.sizes != [] ==>
      x + PackBytes(c.pos, c.sizes, c.crcs, []) + UnpackBytes(c.blocks, []) + SubBytes(c.blocks, []) + [K_END]
      == x + StreamsBytes(c, [])
  {
    hide PackBytes, UnpackBytes, SubBytes;
    EmptyEnd8([K_END]);
    EmptyEnd8(x);
    var subs := SubBytes(c.blocks, [K_END]);
    SubTail(c.blocks, [K_END]);
    Nest2(x, SubBytes(c.blocks, []), [K_END]);
    if c.sizes != [] {
      var pack, unpack := PackBytes(c.pos, c.sizes, c.crcs, []), UnpackBytes(c.blocks, []);
      UnpackTail(c.blocks, subs);
      PackTail(c.pos, c.sizes, c.crcs, UnpackBytes(c.blocks, subs));
      Nest4(x, pack, unpack, SubBytes(c.blocks, []), [K_END]);
      Nest2(x, pack, unpack);
    }
  }

  lemma StreamsTail(c: Contents, tail: seq<byte>)
    requires Writable(c)
    ensures StreamsBytes(c, tail) == StreamsBytes(c, []) + tail
  {
    hide PackBytes, UnpackBytes, SubBytes;
    EmptyEnd8([K_END]);
    var subs := SubBytes(c.blocks, [K_END]);
    SubTail(c.blocks, [K_END]);
    SubTail(c.blocks, [K_END] + tail);
    Nest2(SubBytes(c.blocks, []), [K_END], tail);
    if c.sizes != [] {
      var pack, unpack := PackBytes(c.pos, c.sizes, c.crcs, []), UnpackBytes(c.blocks, []);
      UnpackTail(c.blocks, subs);
      UnpackTail(c.blocks, subs + tail);
      PackTail(c.pos, c.sizes, c.crcs, unpack + subs);
      PackTail(c.pos, c.sizes, c.crcs, unpack + (subs + tail));
      Nest3(pack, unpack, subs, tail);
      Nest2(pack, unpack, subs);
    }
  }

  lemma FilesTail(files: seq<Entry>, tail: seq<byte>)
    requires Printable(files)
    ensures FilesBytes(files, tail) == FilesBytes(files, []) + tail
  {
    hide NumberBytes, VectorPart, TrimmedPart, NamesPart, StampsPart, NamesBytes, StampsBytes, EmptyStreams, Streamless;
    var x: seq<byte> := [];
    FilesIo.FilesParts(x, files);
    var a, c, d := VectorPart(K_EMPTY_STREAM, EmptyStreams(files)), TrimmedPart(K_EMPTY_FILE, EmptyFiles(files)), TrimmedPart(K_ANTI, AntiItems(files));
    var y := x + [K_FILES_INFO] + NumberBytes(|files|) + a + c + d + NamesPart(files);
    Nest6(y, StampsPart(files, Created), StampsPart(files, Accessed), StampsPart(files, Modified),
          StampsPart(files, Attributes), [K_END], tail);
    var t := StampsPart(files, Created) + (StampsPart(files, Accessed) +
      (StampsPart(files, Modified) + (StampsPart(files, Attributes) + ([K_END] + tail))));
    Nest6(x + [K_FILES_INFO], NumberBytes(|files|), a, c, d, NamesPart(files), t);
    Nest2(x, [K_FILES_INFO], NumberBytes(|files|) + (a + (c + (d + (NamesPart(files) + t)))));
    EmptyFront(FilesBytes(files, tail));
    EmptyFront(FilesBytes(files, []));
  }

  lemma HeaderParts(x: seq<byte>, c: Contents)
    requires Writable(c) && Printable(c.files)
    ensures x + [K_HEADER] + [K_MAIN_STREAMS_INFO] + StreamsBytes(c, []) + FilesBytes(c.files, []) + [K_END] == x + HeaderBytes(c)
  {
    hide StreamsBytes, FilesBytes;
    Nest5(x, [K_HEADER], [K_MAIN_STREAMS_INFO], StreamsBytes(c, []), FilesBytes(c.files, []), [K_END]);
    FilesTail(c.files, [K_END]);
    StreamsTail(c, FilesBytes(c.files, [K_END]));
  }

  // --- Reading ---

  method ParseStreamsInfo(header: Cursor, b: Bounds) returns (r: Result<Streams, HeaderError>)
    modifies header
    ensures Agrees(r, header.rest, ReadStreamsInfo(old(header.rest), b))
  {
    hide ReadPackInfo, ReadUnpackInfo, ReadSubStreams;
    var packs, blocks := Packs(0, [], [], []), [];
    var subs: Option<SubStreams> := None;
    var nid :- header.U8();
    if nid == K_PACK_INFO {
      packs :- ParsePackInfo(header, b);
      nid :- header.U8();
    }
    if nid == K_UNPACK_INFO {
      UnpackSized(header.rest, b);
      blocks :- UnpackIo.ParseUnpackInfo(header, b);
      nid :- header.U8();
    }
    if nid == K_SUB_STREAMS_INFO {
      assert forall i | 0 <= i < |blocks| :: Sized(blocks[i]);
      var read :- SubStreamsIo.ParseSubStreams(header, blocks, b);
      blocks, subs := read.0, Some(read.1);
      nid :- header.U8();
    }
    if nid != K_END {
      return Err(BadTerminator(nid));
    }
    return Ok(Streams(packs, blocks, subs));
  }

  method ParseProperties(header: Cursor, b: Bounds) returns (r: Result<(), HeaderError>)
    modifies header
    ensures Agrees(r, header.rest, SkipProperties(old(header.rest), b))
  {
    hide ReadNumber;
    ghost var whole := SkipProperties(header.rest, b);
    ghost var before := header.rest;
    var nid :- header.U8();
    while nid != K_END
      invariant before != [] && nid == before[0] && header.rest == before[1..] && SkipProperties(before, b) == whole
      decreases |header.rest|
    {
      NumberShrinks(header.rest);
      var size :- header.Number();
      if size > b.bytes {
        return Err(Limit);
      }
      header.Skip(size);
      before := header.rest;
      nid :- header.U8();
    }
    return Ok(());
  }

  method ParseHeader(header: Cursor, b: Bounds) returns (r: Result<Opened, HeaderError>)
    modifies header
    ensures Agrees(r, header.rest, ReadHeader(old(header.rest), b))
  {
    hide SkipProperties, ReadStreamsInfo, ReadFilesInfo, MapStreams;
    var nid :- header.U8();
    if nid == K_ARCHIVE_PROPERTIES {
      var _ :- ParseProperties(header, b);
      nid :- header.U8();
    }
    if nid == K_ADDITIONAL_STREAMS_INFO {
      return Err(Unsupported);
    }
    var streams := Streams(Packs(0, [], [], []), [], None);
    if nid == K_MAIN_STREAMS_INFO {
      streams :- ParseStreamsInfo(header, b);
      nid :- header.U8();
    }
    var named := nid == K_FILES_INFO;
    var files: seq<Entry> := [];
    if named {
      files :- FilesIo.ParseFilesInfo(header, streams.subs, b);
    }
    var a := Archive(streams.packs, streams.blocks, streams.subs, files);
    var m := CalculateStreamMap(a);
    if m.None? {
      return Err(BadStructure);
    }
    if named {
      nid :- header.U8();
    }
    if nid != K_END {
      return Err(BadTerminator(nid));
    }
    return Ok(Opened(a.(files := m.value.1), m.value.0));
  }

  // A header that is written is read back by the reader, all of it, within the
  // caller's limits: the reader counts against the bytes that are left of it.
  method WriteThenRead(w: ArchiveWriter, limits: Bounds) returns (r: Result<Opened, HeaderError>)
    requires Fits(w.Held(), limits)
    ensures r.Ok? && r.value.archive.packs == PacksBack(w.Held()) && r.value.archive.blocks == ReadBack(w.unpackInfo.blocks)
    ensures |r.value.archive.files| == |w.files| && r.value.archive.subs.Some?
    ensures forall i | 0 <= i < |w.files| ::
      EntryKept(w.files[i], r.value.archive.files[i], Before(w.files, i), r.value.archive.subs.value)
  {
    hide HeaderBytes, ReadHeader, EntryKept, PacksBack, ReadBack;
    ghost var c := w.Held();
    FitsParts(c, limits);
    var out := new Buffer();
    w.WriteHeader(out);
    EmptyFront(HeaderBytes(c));
    HeaderStart(c);
    var b := limits.(bytes := |out.bytes| - 1);
    SameLimits(c, limits, b);
    hide Fits;
    HeaderRoundTrip(c, b);
    var header := new Cursor(out.bytes[1..]);
    r := ParseHeader(header, b);
  }

  // The bytes of the header are none of the caller's limits.
  lemma SameLimits(c: Contents, limits: Bounds, b: Bounds)
    requires Fits(c, limits) && b == limits.(bytes := b.bytes)
    ensures Fits(c, b)
  {
    hide Sum, Consistent, Streamed, NamesBytes;
    forall i | 0 <= i < |c.blocks| ensures BlockLimits(c.blocks[i], b) {
      assert BlockLimits(c.blocks[i], limits);
    }
  }

  lemma HeaderStart(c: Contents)
    requires Writable(c)
    ensures HeaderBytes(c) != []
  {
  }
}
