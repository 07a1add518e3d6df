// One header, byte by byte: what the record numbers, the flags and the order
// of the records come to.
module KnownHeader {
  import opened Common
  import opened Numbers
  import opened Bits
  import opened Wire
  import opened HeaderFormat
  import opened Blocks
  import opened PackFormat
  import opened UnpackFormat
  import opened SubStreamsOut
  import opened FilesFormat
  import opened Headers

  // Three entries: two in a block of LZMA2 behind a converter, and an empty one to be removed,
  // which has all its dates and attributes.
  const STREAMED_A := Entry([0x61], true, false, false, NEVER, NEVER, NEVER, NEVER, false, 0, 0, 0)
  const STREAMED_B := Entry([0x62], true, false, false, NEVER, NEVER, NEVER, NEVER, false, 0, 0, 0)
  const EMPTY_C := Entry([0x63], false, false, true, Stamp(true, 1), Stamp(true, 2), Stamp(true, 3), Stamp(true, 0x20),
                         false, 0, 0, 0)
  const NEVER := Stamp(false, 0)
  const FILES: seq<Entry> := [STREAMED_A, STREAMED_B, EMPTY_C]
  const BLOCKS: seq<BlockInfo> := [BlockInfo([Method([0x03, 0x03, 0x01, 0x03], []), Method([0x21], [0x18])], [7, 7], 0, 2, [3, 4], [0x0D0C_0B0A, 0x1D1C_1B1A])]

  lemma Word4(v: u32, b: seq<byte>)
    requires |b| == 4 && v == b[0] as int + 0x100 * b[1] as int + 0x1_0000 * b[2] as int + 0x100_0000 * b[3] as int
    ensures BytesOf(v, 4) == b
  {
    var b0: int, b1: int, b2: int, b3: int := b[0], b[1], b[2], b[3];
    assert v / 256 == b1 + 0x100 * b2 + 0x1_0000 * b3;
    assert v / 256 / 256 == b2 + 0x100 * b3;
    assert v / 256 / 256 / 256 == b3;
    assert BytesOf(v, 4) == [v % 256] + BytesOf(v / 256, 3);
    assert BytesOf(v / 256, 3) == [v / 256 % 256] + BytesOf(v / 256 / 256, 2);
    assert BytesOf(v / 256 / 256, 2) == [v / 256 / 256 % 256] + BytesOf(v / 256 / 256 / 256, 1);
    assert BytesOf(v / 256 / 256 / 256, 1) == [v / 256 / 256 / 256 % 256] + [];
  }

  lemma PackKnown(tail: seq<byte>)
    ensures PackBytes(0, [5], [0x0403_0201], tail) == [0x06, 0, 1, 0x09, 5, 0x0A, 1, 0x01, 0x02, 0x03, 0x04, 0x00] + tail
  {
    hide NumberBytes, CrcTable;
    ShortNumber(0);
    ShortNumber(1);
    ShortNumber(5);
    OneNumber(5);
    TableKnown();
  }

  lemma TableKnown()
    ensures CrcTable([0x0403_0201]) == [1, 0x01, 0x02, 0x03, 0x04]
  {
    hide BytesOf;
    Word4(0x0403_0201, [0x01, 0x02, 0x03, 0x04]);
    One32(0x0403_0201);
  }

  lemma OneNumber(v: u64)
    requires v < 128
    ensures NumbersBytes([v]) == [v]
  {
    hide NumberBytes;
    ShortNumber(v);
    assert [v][1..] == [];
  }

  lemma One32(v: nat)
    ensures WhereBytes([v], 4, AllTrue(1)) == BytesOf(v, 4)
  {
    hide BytesOf;
    assert [v][1..] == [];
  }

  lemma UnpackKnown(tail: seq<byte>)
    ensures Countable(BLOCKS)
    ensures UnpackBytes(BLOCKS, tail)
         == [0x07, 0x0B, 1, 0, 2, 0x04, 0x03, 0x03, 0x01, 0x03, 0x21, 0x21, 1, 0x18, 1, 0, 0x0C, 7, 7, 0x00] + tail
  {
    hide NumberBytes, BlocksBytes, AllSizes, NumbersBytes;
    ShortNumber(1);
    BlocksKnown();
  }

  lemma BlocksKnown()
    ensures BlocksBytes(BLOCKS) == [2, 0x04, 0x03, 0x03, 0x01, 0x03, 0x21, 0x21, 1, 0x18, 1, 0]
    ensures AllSizes(BLOCKS) == [7, 7] && NumbersBytes(AllSizes(BLOCKS)) == [7, 7]
  {
    hide NumberBytes, CodecsBytes, PairsBytes, NumbersBytes;
    ShortNumber(2);
    CodersKnown();
    OnePair();
    assert BLOCKS[1..] == [];
    assert BlockBytes(BLOCKS[0]) == [2, 0x04, 0x03, 0x03, 0x01, 0x03, 0x21, 0x21, 1, 0x18, 1, 0];
    assert BlocksBytes(BLOCKS) == BlockBytes(BLOCKS[0]) + [];
    assert AllSizes(BLOCKS) == [7, 7];
    TwoNumbers(7, 7);
  }

  lemma CodersKnown()
    ensures CodecsBytes(BLOCKS[0].methods) == [0x04, 0x03, 0x03, 0x01, 0x03, 0x21, 0x21, 1, 0x18]
  {
    var ms := BLOCKS[0].methods;
    assert ms[1..][1..] == [];
    assert CodecBytes(ms[0]) == [0x04, 0x03, 0x03, 0x01, 0x03];
    assert CodecBytes(ms[1]) == [0x21, 0x21, 1, 0x18];
    assert CodecsBytes(ms[1..]) == CodecBytes(ms[1]) + [];
    assert CodecsBytes(ms) == CodecBytes(ms[0]) + CodecsBytes(ms[1..]);
  }

  // The input of the second coder is fed by the output of the first.
  lemma OnePair()
    ensures PairsBytes(ChainPairs(2)) == [1, 0]
  {
    hide NumberBytes;
    ShortNumber(0);
    ShortNumber(1);
    assert ChainPairs(2) == [BindPair(1, 0)] && ChainPairs(2)[1..] == [];
  }

  lemma TwoNumbers(v: u64, w: u64)
    requires v < 128 && w < 128
    ensures NumbersBytes([v, w]) == [v, w]
  {
    hide NumberBytes;
    ShortNumber(v);
    assert [v, w][1..] == [w];
    OneNumber(w);
  }

  lemma SubsKnown(tail: seq<byte>)
    ensures SubBytes(BLOCKS, tail)
         == [0x08, 0x0D, 2, 0x09, 3, 0x0A, 1, 0x0A, 0x0B, 0x0C, 0x0D, 0x1A, 0x1B, 0x1C, 0x1D, 0x00] + tail
  {
    hide NumberBytes, BytesOf;
    ShortNumber(2);
    ShortNumber(3);
    Word4(0x0D0C_0B0A, [0x0A, 0x0B, 0x0C, 0x0D]);
    Word4(0x1D1C_1B1A, [0x1A, 0x1B, 0x1C, 0x1D]);
    assert BLOCKS[1..] == [];
    assert NumSubs(BLOCKS) == [2];
    OneNumber(2);
    OneNumber(3);
    assert NumbersPart(BLOCKS) == [0x0D, 2] by { assert BLOCKS[0].numSub != 1; }
    assert [3, 4][..1] == [3];
    assert AllFrontSizes(BLOCKS) == [3];
    assert SizesPart(BLOCKS) == [0x09, 3] by { assert |BLOCKS[0].subSizes| > 1; }
    var crcs: seq<nat> := [0x0D0C_0B0A, 0x1D1C_1B1A];
    assert AllCrcs(BLOCKS) == crcs;
    TwoWords(0x0D0C_0B0A, 0x1D1C_1B1A);
  }

  lemma TwoWords(v: nat, w: nat)
    ensures WhereBytes([v, w], 4, AllTrue(2)) == BytesOf(v, 4) + BytesOf(w, 4)
  {
    hide BytesOf;
    assert [v, w][1..] == [w] && AllTrue(2)[1..] == AllTrue(1);
    One32(w);
  }

  lemma OneOctet(v: seq<bool>)
    requires 1 <= |v| <= 8
    ensures BitBytes(v) == [Packed(v, 0)]
  {
    hide Packed;
    assert Octets(|v|) == 1;
  }

  lemma ThirdOfThree(v: seq<bool>)
    requires v == [false, false, true]
    ensures BitBytes(v) == [0x20] && Any(v) && !All(v)
  {
    OneOctet(v);
    hide BitBytes;
    assert v[2] && !v[0];
    assert Flag(v, 2) && !Flag(v, 0) && !Flag(v, 1) && !Flag(v, 3) && !Flag(v, 4) && !Flag(v, 5) && !Flag(v, 6) && !Flag(v, 7);
    hide Flag;
    assert Packed(v, 0) == Octet(false, false, true, false, false, false, false, false);
  }

  lemma OnlyOne(v: seq<bool>)
    requires v == [true]
    ensures BitBytes(v) == [0x80] && Any(v) && Trim(v) == v
  {
    assert Trim(v) == v;
    OneOctet(v);
    hide BitBytes, Trim, Octets;
    assert v[0];
    assert Flag(v, 0) && !Flag(v, 1) && !Flag(v, 2) && !Flag(v, 3) && !Flag(v, 4) && !Flag(v, 5) && !Flag(v, 6) && !Flag(v, 7);
    hide Flag;
    assert Packed(v, 0) == Octet(true, false, false, false, false, false, false, false);
  }

  // The flag of the third of three, the one flag of the entries without a stream.
  lemma VectorsKnown()
    ensures VectorPart(K_EMPTY_STREAM, EmptyStreams(FILES)) == [0x0E, 1, 0x20]
    ensures TrimmedPart(K_EMPTY_FILE, EmptyFiles(FILES)) == [0x0F, 1, 0x80]
    ensures TrimmedPart(K_ANTI, AntiItems(FILES)) == [0x10, 1, 0x80]
  {
    hide NumberBytes, BitBytes, Streamless, Trim, Any;
    ShortNumber(1);
    ThirdOfThree(EmptyStreams(FILES));
    StreamlessKnown();
    OnlyOne(EmptyFiles(FILES));
    OnlyOne(AntiItems(FILES));
  }

  lemma StreamlessKnown()
    ensures Streamless(FILES) == [EMPTY_C]
  {
    assert FILES[1..] == [STREAMED_B, EMPTY_C] && FILES[1..][1..] == [EMPTY_C] && [EMPTY_C][1..] == [];
    assert Streamless([EMPTY_C]) == [EMPTY_C] + Streamless([]);
    assert Streamless([STREAMED_B, EMPTY_C]) == [] + Streamless([EMPTY_C]);
    assert Streamless(FILES) == [] + Streamless([STREAMED_B, EMPTY_C]);
  }

  lemma NamesKnown()
    ensures NamesBytes(FILES) == [0x61, 0, 0, 0, 0x62, 0, 0, 0, 0x63, 0, 0, 0]
    ensures NamesPart(FILES) == [0x11, 13, 0, 0x61, 0, 0, 0, 0x62, 0, 0, 0, 0x63, 0, 0, 0]
  {
    hide NumberBytes;
    ShortNumber(13);
    assert FILES[1..] == [STREAMED_B, EMPTY_C] && FILES[1..][1..] == [EMPTY_C] && [EMPTY_C][1..] == [];
    Unit(0x61);
    Unit(0x62);
    Unit(0x63);
    assert NamesBytes([EMPTY_C]) == [0x63, 0, 0, 0];
    assert NamesBytes([STREAMED_B, EMPTY_C]) == [0x62, 0, 0, 0, 0x63, 0, 0, 0];
  }

  lemma Unit(u: u16)
    ensures UnitsBytes([u]) == [u % 256, u / 256]
  {
    assert [u][1..] == [];
  }

  lemma Word8(v: byte)
    ensures BytesOf(v, 8) == [v, 0, 0, 0, 0, 0, 0, 0] && BytesOf(v, 4) == [v, 0, 0, 0]
  {
    assert BytesOf(0, 1) == [0] && BytesOf(0, 2) == [0, 0] && BytesOf(0, 3) == [0, 0, 0];
    assert BytesOf(0, 5) == [0, 0, 0, 0, 0] && BytesOf(0, 7) == [0, 0, 0, 0, 0, 0, 0];
    assert v as int / 256 == 0;
  }

  lemma LastWord(values: seq<nat>, w: nat)
    requires |values| == 3
    ensures WhereBytes(values, w, [false, false, true]) == BytesOf(values[2], w)
  {
    hide BytesOf;
    var flags := [false, false, true];
    var v1, f1 := values[1..], flags[1..];
    var v2, f2 := v1[1..], f1[1..];
    assert v2[1..] == [] && f2[1..] == [];
    assert WhereBytes(v2, w, f2) == BytesOf(values[2], w) + [];
    assert WhereBytes(v1, w, f1) == [] + WhereBytes(v2, w, f2);
    assert WhereBytes(values, w, flags) == [] + WhereBytes(v1, w, f1);
  }

  lemma StampKnown(k: Kind, v: u64)
    requires k.Of(EMPTY_C) == Stamp(true, v)
    ensures StampsBytes(FILES, k) == [0, 0x20, 0] + BytesOf(v, k.Width())
    ensures |StampsBytes(FILES, k)| == 3 + k.Width()
    ensures StampsPart(FILES, k) == [k.Nid(), 3 + k.Width()] + ([0, 0x20, 0] + BytesOf(v, k.Width()))
  {
    hide NumberBytes, BytesOf, BitBytes, All, Any, WhereBytes;
    ShortNumber(3 + k.Width());
    StampFlags(k, v);
    ThirdOfThree(Flags(FILES, k));
    LastWord(Values(FILES, k), k.Width());
  }

  lemma StampFlags(k: Kind, v: u64)
    requires k.Of(EMPTY_C) == Stamp(true, v)
    ensures Flags(FILES, k) == [false, false, true] && Values(FILES, k)[2] == v
  {
  }

  lemma StampsKnown()
    ensures forall k: Kind :: |StampsBytes(FILES, k)| < TWO_64
    ensures StampsPart(FILES, Created) == [0x12, 11, 0, 0x20, 0, 1, 0, 0, 0, 0, 0, 0, 0]
    ensures StampsPart(FILES, Accessed) == [0x13, 11, 0, 0x20, 0, 2, 0, 0, 0, 0, 0, 0, 0]
    ensures StampsPart(FILES, Modified) == [0x14, 11, 0, 0x20, 0, 3, 0, 0, 0, 0, 0, 0, 0]
    ensures StampsPart(FILES, Attributes) == [0x15, 7, 0, 0x20, 0, 0x20, 0, 0, 0]
  {
    hide BytesOf, StampsBytes, StampsPart;
    StampKnown(Created, 1);
    StampKnown(Accessed, 2);
    StampKnown(Modified, 3);
    StampKnown(Attributes, 0x20);
    Word8(1);
    Word8(2);
    Word8(3);
    Word8(0x20);
    forall k: Kind ensures |StampsBytes(FILES, k)| < TWO_64 {
      match k
      case Created =>
      case Accessed =>
      case Modified =>
      case Attributes =>
    }
  }

  lemma FilesKnown(tail: seq<byte>)
    ensures Printable(FILES)
    ensures FilesBytes(FILES, tail)
         == [0x05, 3] + ([0x0E, 1, 0x20] + ([0x0F, 1, 0x80] + ([0x10, 1, 0x80]
            + ([0x11, 13, 0, 0x61, 0, 0, 0, 0x62, 0, 0, 0, 0x63, 0, 0, 0]
            + ([0x12, 11, 0, 0x20, 0, 1, 0, 0, 0, 0, 0, 0, 0]
            + ([0x13, 11, 0, 0x20, 0, 2, 0, 0, 0, 0, 0, 0, 0]
            + ([0x14, 11, 0, 0x20, 0, 3, 0, 0, 0, 0, 0, 0, 0]
            + ([0x15, 7, 0, 0x20, 0, 0x20, 0, 0, 0] + ([0x00] + tail)))))))))
  {
    hide NumberBytes, NamesBytes, StampsBytes, VectorPart, TrimmedPart, NamesPart, StampsPart, FilesBytes, Printable;
    ShortNumber(3);
    VectorsKnown();
    NamesKnown();
    StampsKnown();
    FewNames();
    var rest := FilesApart(FILES, 3, tail);
    FrontTwo(K_FILES_INFO, 3, rest);
  }

  lemma FewNames()
    ensures (forall k: Kind :: |StampsBytes(FILES, k)| < TWO_64) ==> Printable(FILES)
  {
    hide StampsBytes;
    NamesKnown();
  }

  lemma FilesApart(files: seq<Entry>, n: byte, tail: seq<byte>) returns (rest: seq<byte>)
    requires Printable(files) && NumberBytes(|files|) == [n]
    ensures rest ==
      VectorPart(K_EMPTY_STREAM, EmptyStreams(files)) +
        (TrimmedPart(K_EMPTY_FILE, EmptyFiles(files)) + (TrimmedPart(K_ANTI, AntiItems(files)) +
          (NamesPart(files) + (StampsPart(files, Created) + (StampsPart(files, Accessed) +
            (StampsPart(files, Modified) + (StampsPart(files, Attributes) + ([K_END] + tail))))))))
    ensures FilesBytes(files, tail) == [K_FILES_INFO] + ([n] + rest)
  {
    hide NumberBytes, NamesBytes, StampsBytes, VectorPart, TrimmedPart, NamesPart, StampsPart, EmptyStreams, EmptyFiles, AntiItems;
    rest := VectorPart(K_EMPTY_STREAM, EmptyStreams(files)) +
        (TrimmedPart(K_EMPTY_FILE, EmptyFiles(files)) + (TrimmedPart(K_ANTI, AntiItems(files)) +
          (NamesPart(files) + (StampsPart(files, Created) + (StampsPart(files, Accessed) +
            (StampsPart(files, Modified) + (StampsPart(files, Attributes) + ([K_END] + tail))))))));
  }

  lemma FrontTwo(a: byte, b: byte, s: seq<byte>)
    ensures [a] + ([b] + s) == [a, b] + s
  {
  }

  // The header as the writer has it and the reader takes it.
  lemma HeaderKnown()
    ensures var c := Contents(0, [5], [0x0403_0201], BLOCKS, FILES);
      && Writable(c)
      && HeaderBytes(c) == [0x01, 0x04]
         + ([0x06, 0, 1, 0x09, 5, 0x0A, 1, 0x01, 0x02, 0x03, 0x04, 0x00]
         + ([0x07, 0x0B, 1, 0, 2, 0x04, 0x03, 0x03, 0x01, 0x03, 0x21, 0x21, 1, 0x18, 1, 0, 0x0C, 7, 7, 0x00]
         + ([0x08, 0x0D, 2, 0x09, 3, 0x0A, 1, 0x0A, 0x0B, 0x0C, 0x0D, 0x1A, 0x1B, 0x1C, 0x1D, 0x00]
         + ([0x00]
         + ([0x05, 3] + ([0x0E, 1, 0x20] + ([0x0F, 1, 0x80] + ([0x10, 1, 0x80]
         + ([0x11, 13, 0, 0x61, 0, 0, 0, 0x62, 0, 0, 0, 0x63, 0, 0, 0]
         + ([0x12, 11, 0, 0x20, 0, 1, 0, 0, 0, 0, 0, 0, 0]
         + ([0x13, 11, 0, 0x20, 0, 2, 0, 0, 0, 0, 0, 0, 0]
         + ([0x14, 11, 0, 0x20, 0, 3, 0, 0, 0, 0, 0, 0, 0]
         + ([0x15, 7, 0, 0x20, 0, 0x20, 0, 0, 0] + ([0x00] + [0x00]))))))))))))))
  {
    hide PackBytes, UnpackBytes, SubBytes, FilesBytes, FilesFormat.Printable, Countable;
    var files := FilesBytesOf();
    UnpackKnown(SubBytes(BLOCKS, [0x00] + files));
    SubsKnown([0x00] + files);
    PackKnown(UnpackBytes(BLOCKS, SubBytes(BLOCKS, [0x00] + files)));
  }

  lemma FilesBytesOf() returns (files: seq<byte>)
    ensures Printable(FILES) && files == FilesBytes(FILES, [K_END])
    ensures files == [0x05, 3] + ([0x0E, 1, 0x20] + ([0x0F, 1, 0x80] + ([0x10, 1, 0x80]
            + ([0x11, 13, 0, 0x61, 0, 0, 0, 0x62, 0, 0, 0, 0x63, 0, 0, 0]
            + ([0x12, 11, 0, 0x20, 0, 1, 0, 0, 0, 0, 0, 0, 0]
            + ([0x13, 11, 0, 0x20, 0, 2, 0, 0, 0, 0, 0, 0, 0]
            + ([0x14, 11, 0, 0x20, 0, 3, 0, 0, 0, 0, 0, 0, 0]
            + ([0x15, 7, 0, 0x20, 0, 0x20, 0, 0, 0] + ([0x00] + [0x00])))))))))
  {
    FilesKnown([K_END]);
    files := FilesBytes(FILES, [K_END]);
  }
}
