// Dictionary sizes, and the memory of decoders: what is estimated of a whole
// archive up front, and what each coder is checked for when it is built.
module Memory {
  import opened Common
  import opened Numbers
  import opened Wire
  import opened Blocks

  const KIB: nat := 1024
  const MIB: nat := 0x10_0000
  const LZ_STATE_BYTES: nat := 0x10_0000
  const U32_MAX: nat := 0xFFFF_FFFF

  function Least(a: nat, b: nat): nat {
    if a <= b then a else b
  }

  function Most(a: nat, b: nat): nat {
    if a >= b then a else b
  }

  function CeilDiv(a: nat, d: nat): nat
    requires d > 0
  {
    (a + d - 1) / d
  }

  datatype SizeError = PropsTooShort | ReservedBits | TooLarge

  // --- The dictionaries of LZMA2 ---

  // The size a property byte stands for: two or three times a power of two.
  function TableSize(p: nat): nat {
    if p >= 40 then U32_MAX else (2 + p % 2) * Pow2(p / 2 + 11)
  }

  function Lzma2DictionarySize(prop: byte): Result<u32, SizeError> {
    if prop >= 64 then Err(ReservedBits)
    else if prop > 40 then Err(TooLarge)
    else TableFits(prop); Ok(TableSize(prop))
  }

  lemma TableGrows(p: nat)
    requires p < 39
    ensures TableSize(p) < TableSize(p + 1)
  {
    var x := Pow2(p / 2 + 11);
    if p % 2 == 0 {
      assert (p + 1) / 2 == p / 2;
      assert TableSize(p) == 2 * x && TableSize(p + 1) == 3 * x;
    } else {
      assert (p + 1) / 2 == p / 2 + 1 && Pow2(p / 2 + 12) == 2 * x;
      assert TableSize(p) == 3 * x && TableSize(p + 1) == 4 * x;
    }
  }

  lemma LastSizes()
    ensures TableSize(39) == 0xC000_0000 && TableSize(0) == 4096
  {
    PowerStep(0);
    PowerStep(3);
    PowerStep(8);
    PowerStep(16);
    assert Pow2(30) == 2 * Pow2(29) == 4 * Pow2(28) == 8 * Pow2(27) == 16 * Pow2(26);
    assert Pow2(26) == 2 * Pow2(25) == 4 * Pow2(24);
  }

  lemma {:induction false} TableMono(p: nat, q: nat)
    requires p < q
    ensures p < 40 ==> TableSize(p) < TableSize(q)
    decreases q
  {
    if q >= 40 && p < 39 {
      TableMono(p, 39);
      LastSizes();
    } else if p == 39 {
      LastSizes();
    } else if p < 39 && q > p + 1 {
      TableMono(p, q - 1);
      TableGrows(q - 1);
    } else if p < 39 {
      TableGrows(p);
    }
  }

  lemma TableFits(p: nat)
    ensures TableSize(p) <= U32_MAX
  {
    if p < 39 {
      TableMono(p, 39);
      LastSizes();
    } else if p == 39 {
      LastSizes();
    }
  }

  // The least of the table's 41 dictionaries that is no smaller.
  method Lzma2PropertyFor(dictSize: u32) returns (prop: byte)
    ensures prop <= 40 && TableSize(prop) >= dictSize
    ensures forall q | 0 <= q <= 40 && TableSize(q) >= dictSize :: prop <= q
  {
    hide TableSize;
    prop := 0;
    while prop < 40
      invariant prop <= 40 && forall q | 0 <= q < prop :: TableSize(q) < dictSize
    {
      TableFits(prop);
      if TableSize(prop) >= dictSize {
        return;
      }
      prop := prop + 1;
    }
    assert TableSize(40) == U32_MAX by { Table40(); }
  }

  lemma Table40()
    ensures TableSize(40) == U32_MAX
  {
  }

  // No more dictionary than there is output to refer back to.
  function ClampDictionary(dictSize: u32, unpacked: u64): (r: u32)
    ensures r <= dictSize && r <= Most(unpacked, 4096) && (r == dictSize || r == Most(unpacked, 4096))
  {
    Least(dictSize, Least(Most(unpacked, 4096), U32_MAX))
  }

  // The least property that still covers what the output can refer back to.
  method Lzma2ClampedProp(prop: byte, unpacked: u64) returns (r: byte)
    ensures prop > 40 ==> r == prop
    ensures prop <= 40 ==> r <= prop && TableSize(r) >= Least(TableSize(prop), Most(unpacked, 4096))
    ensures prop <= 40 ==>
      forall q | 0 <= q <= 40 && TableSize(q) >= Least(TableSize(prop), Most(unpacked, 4096)) :: r <= q
  {
    hide TableSize;
    var dict := Lzma2DictionarySize(prop);
    if dict.Err? {
      return prop;
    }
    TableFits(prop);
    var target := ClampDictionary(dict.value, unpacked);
    r := 0;
    while r < prop
      invariant r <= prop && forall q | 0 <= q < r :: TableSize(q) < target
    {
      TableFits(r);
      if TableSize(r) >= target {
        return;
      }
      r := r + 1;
    }
  }

  // --- What one coder needs ---

  datatype Method =
    | Copy | Lzma | Lzma2 | Ppmd | Bzip2 | Deflate | Brotli | Zstd | Lz4 | Bcj2 | Filter | Unknown

  // The identifiers of the methods there is a model for.
  function MethodOf(id: seq<byte>): Method {
    if id == [0x00] then Copy
    else if id == [0x03, 0x01, 0x01] then Lzma
    else if id == [0x21] then Lzma2
    else if id == [0x03, 0x04, 0x01] then Ppmd
    else if id == [0x04, 0x02, 0x02] then Bzip2
    else if id == [0x04, 0x01, 0x08] then Deflate
    else if id == [0x04, 0xF7, 0x11, 0x02] then Brotli
    else if id == [0x04, 0xF7, 0x11, 0x01] then Zstd
    else if id == [0x04, 0xF7, 0x11, 0x04] then Lz4
    else if id == [0x03, 0x03, 0x01, 0x1B] then Bcj2
    else if id in {[0x06, 0xF1, 0x07, 0x01], [0x03], [0x03, 0x03, 0x01, 0x03], [0x03, 0x03, 0x05, 0x01], [0x0A],
                   [0x03, 0x03, 0x07, 0x01], [0x03, 0x03, 0x02, 0x05], [0x03, 0x03, 0x04, 0x01],
                   [0x03, 0x03, 0x08, 0x05], [0x0B]} then Filter
    else Unknown
  }

  // Four bytes behind the first, low byte first.
  function SizeField(props: seq<byte>): (r: Result<u32, SizeError>)
    ensures r.Ok? <==> |props| >= 5
  {
    Powers();
    if |props| < 5 then Err(PropsTooShort) else Ok(Word(props[1..5], 4))
  }

  // The decoder rounds its dictionary up to a multiple of sixteen.
  function Lzma2DictionaryBytes(props: seq<byte>): Result<nat, SizeError> {
    if props == [] then Err(PropsTooShort)
    else if props[0] >= 64 then Err(ReservedBits)
    else if props[0] > 40 then Err(TooLarge)
    else Ok((TableSize(props[0]) + 15) / 16 * 16)
  }

  // None for a coder without a model.
  function CoderEstimate(c: Coder): Option<nat> {
    match MethodOf(c.id)
    case Copy => Some(0)
    case Lzma => if SizeField(c.props).Ok? then Some(SizeField(c.props).value + LZ_STATE_BYTES) else None
    case Lzma2 => if Lzma2DictionaryBytes(c.props).Ok? then Some(Lzma2DictionaryBytes(c.props).value + LZ_STATE_BYTES) else None
    case Ppmd => if SizeField(c.props).Ok? then Some(SizeField(c.props).value + MIB) else None
    case Bzip2 => Some(8 * MIB)
    case Deflate => Some(MIB)
    case Brotli => Some(32 * MIB)
    case Zstd => Some(160 * MIB)
    case Lz4 => Some(16 * MIB)
    case Bcj2 => Some(16 * MIB)
    case Filter => Some(MIB)
    case Unknown => None
  }

  // The methods whose need does not depend on their properties, in bytes: copy,
  // bzip2, deflate, BCJ2; and none for one there is no model of.
  lemma FixedEstimates(props: seq<byte>)
    ensures CoderEstimate(Coder([0x00], 1, 1, props)) == Some(0)
    ensures CoderEstimate(Coder([0x04, 0x02, 0x02], 1, 1, props)) == Some(0x80_0000)
    ensures CoderEstimate(Coder([0x04, 0x01, 0x08], 1, 1, props)) == Some(0x10_0000)
    ensures CoderEstimate(Coder([0x03, 0x03, 0x01, 0x1B], 4, 1, props)) == Some(0x100_0000)
    ensures CoderEstimate(Coder([0x04, 0x01, 0x09], 1, 1, props)) == None
  {
  }

  // And the branch converters.
  lemma ConverterEstimate(id: seq<byte>, props: seq<byte>)
    requires id in {[0x03, 0x03, 0x01, 0x03], [0x03, 0x03, 0x05, 0x01], [0x0A], [0x03, 0x03, 0x07, 0x01],
                    [0x03, 0x03, 0x02, 0x05], [0x03, 0x03, 0x04, 0x01], [0x03, 0x03, 0x08, 0x05], [0x0B]}
    ensures CoderEstimate(Coder(id, 1, 1, props)) == Some(0x10_0000)
  {
  }

  // The coders of a block are all live at once.
  function ChainEstimate(coders: seq<Coder>): Option<nat> {
    if coders == [] then Some(0) else
    match ChainEstimate(coders[..|coders| - 1])
    case None => None
    case Some(front) =>
      match CoderEstimate(coders[|coders| - 1])
      case None => None
      case Some(last) => Some(front + last)
  }

  lemma {:induction false} ChainCovers(coders: seq<Coder>, i: nat)
    requires ChainEstimate(coders).Some? && i < |coders|
    ensures CoderEstimate(coders[i]).Some? && CoderEstimate(coders[i]).value <= ChainEstimate(coders).value
    decreases |coders|
  {
    hide CoderEstimate;
    if i < |coders| - 1 {
      ChainCovers(coders[..|coders| - 1], i);
    }
  }

  // Blocks are decoded one after the other.
  function ArchiveEstimate(blocks: seq<Block>): Option<nat> {
    if blocks == [] then Some(0) else
    match ArchiveEstimate(blocks[..|blocks| - 1])
    case None => None
    case Some(front) =>
      match ChainEstimate(blocks[|blocks| - 1].coders)
      case None => None
      case Some(last) => Some(Most(front, last))
  }

  // Sums stop at the top of a 64-bit word.
  function Saturated(n: nat): (r: u64)
    ensures r <= n && (r == n || r == TWO_64 - 1)
  {
    Least(n, TWO_64 - 1)
  }

  method DecoderMemoryEstimate(blocks: seq<Block>) returns (r: Option<u64>)
    ensures r == if ArchiveEstimate(blocks).None? then None else Some(Saturated(ArchiveEstimate(blocks).value))
  {
    hide CoderEstimate;
    var largest: nat := 0;
    ghost var all := 0;
    assert blocks[..0] == [];
    for b := 0 to |blocks|
      invariant ArchiveEstimate(blocks[..b]) == Some(all) && largest == Saturated(all)
    {
      assert blocks[..b + 1][..b] == blocks[..b];
      var chain := EstimateChain(blocks[b].coders);
      if chain.None? {
        NeverAgain(blocks, b + 1, |blocks|);
        assert blocks[..|blocks|] == blocks;
        return None;
      }
      all := Most(all, ChainEstimate(blocks[b].coders).value);
      largest := Most(largest, chain.value);
    }
    assert blocks[..|blocks|] == blocks;
    return Some(largest);
  }

  method EstimateChain(coders: seq<Coder>) returns (r: Option<u64>)
    ensures r == if ChainEstimate(coders).None? then None else Some(Saturated(ChainEstimate(coders).value))
  {
    hide CoderEstimate;
    var chain: nat := 0;
    assert coders[..0] == [];
    for i := 0 to |coders|
      invariant ChainEstimate(coders[..i]).Some? && chain == Saturated(ChainEstimate(coders[..i]).value)
    {
      assert coders[..i + 1][..i] == coders[..i];
      var one := CoderEstimate(coders[i]);
      if one.None? {
        ChainNeverAgain(coders, i + 1, |coders|);
        assert coders[..|coders|] == coders;
        return None;
      }
      chain := Saturated(chain + one.value);
    }
    assert coders[..|coders|] == coders;
    return Some(chain);
  }

  lemma {:induction false} ChainNeverAgain(coders: seq<Coder>, i: nat, j: nat)
    requires i <= j <= |coders| && ChainEstimate(coders[..i]).None?
    ensures ChainEstimate(coders[..j]).None?
    decreases j
  {
    if i < j {
      assert coders[..j][..j - 1] == coders[..j - 1];
      ChainNeverAgain(coders, i, j - 1);
    }
  }

  lemma {:induction false} NeverAgain(blocks: seq<Block>, i: nat, j: nat)
    requires i <= j <= |blocks| && ArchiveEstimate(blocks[..i]).None?
    ensures ArchiveEstimate(blocks[..j]).None?
    decreases j
  {
    if i < j {
      assert blocks[..j][..j - 1] == blocks[..j - 1];
      NeverAgain(blocks, i, j - 1);
    }
  }

  // --- What a coder is checked for when it is built ---

  // The limit in kilobytes, as far as a machine word of `usizeMax` goes.
  function LimitKb(limitBytes: u64, usizeMax: nat): nat {
    Least(CeilDiv(limitBytes, KIB), usizeMax)
  }

  function LzmaUsageKb(dictSize: nat): nat {
    CeilDiv(dictSize + LZ_STATE_BYTES, KIB)
  }

  datatype Verdict = Accepted | MemLimited | Refused

  // What PPMd takes: bounds of its order and of its memory.
  datatype PpmdBounds = PpmdBounds(minOrder: nat, maxOrder: nat, minMemory: nat, maxMemory: nat)

  function PpmdVerdict(props: seq<byte>, limitKb: nat, p: PpmdBounds): Verdict {
    if SizeField(props).Err? then Refused
    else if props[0] < p.minOrder || props[0] > p.maxOrder then Refused
    else if SizeField(props).value < p.minMemory || SizeField(props).value > p.maxMemory then Refused
    else if CeilDiv(SizeField(props).value, KIB) > limitKb then MemLimited
    else Accepted
  }

  // What of a declared dictionary the output can refer back to.
  function Useful(dictSize: nat, unpacked: u64): nat {
    Least(dictSize, Most(unpacked, 4096))
  }

  // No dictionary of the table that covers the need fits into the limit.
  ghost predicate NoneFits(need: nat, limitKb: nat) {
    forall q | 0 <= q <= 40 && TableSize(q) >= need :: LzmaUsageKb(TableSize(q)) > limitKb
  }

  // The checks for memory when a coder is built; the other methods have none.
  // LZMA is measured by the dictionary it can use, LZMA2 by the least of the
  // table that covers it, PPMd by what it declares; whatever fits the estimate
  // passes.
  method CheckCoder(c: Coder, unpacked: u64, limitKb: nat, p: PpmdBounds) returns (v: Verdict)
    ensures MethodOf(c.id).Lzma? ==>
      && (v.Refused? <==> |c.props| < 5)
      && (v.MemLimited? <==> |c.props| >= 5 && LzmaUsageKb(Useful(SizeField(c.props).value, unpacked)) > limitKb)
    ensures MethodOf(c.id).Lzma2? ==>
      && (v.Refused? <==> c.props == [] || c.props[0] > 40)
      && (v.MemLimited? <==> c.props != [] && c.props[0] <= 40 && NoneFits(Useful(TableSize(c.props[0]), unpacked), limitKb))
    ensures MethodOf(c.id).Ppmd? ==> v == PpmdVerdict(c.props, limitKb, p)
    ensures MethodOf(c.id) !in {Lzma, Lzma2, Ppmd} ==> v == if MethodOf(c.id).Unknown? then Refused else Accepted
    ensures CoderEstimate(c).None? || CeilDiv(CoderEstimate(c).value, KIB) <= limitKb ==> !v.MemLimited?
  {
    hide TableSize;
    var m := MethodOf(c.id);
    if m.Lzma? {
      var declared := SizeField(c.props);
      if declared.Err? {
        return Refused;
      }
      var dict := ClampDictionary(declared.value, unpacked);
      return if LzmaUsageKb(dict) > limitKb then MemLimited else Accepted;
    } else if m.Lzma2? {
      if c.props == [] {
        return Refused;
      }
      var prop := Lzma2ClampedProp(c.props[0], unpacked);
      var dict := Lzma2DictionarySize(prop);
      if dict.Err? {
        return Refused;
      }
      if prop < c.props[0] && c.props[0] <= 40 {
        TableMono(prop, c.props[0]);
      }
      forall q | prop <= q <= 40 ensures LzmaUsageKb(TableSize(q)) >= LzmaUsageKb(TableSize(prop)) {
        if prop < q {
          TableMono(prop, q);
        }
      }
      return if LzmaUsageKb(dict.value) > limitKb then MemLimited else Accepted;
    } else if m.Ppmd? {
      return PpmdVerdict(c.props, limitKb, p);
    }
    return if m.Unknown? then Refused else Accepted;
  }

  // What the reader does before it builds a decoder: a limit below the largest
  // number is checked against the estimate.
  predicate AcceptedUpFront(blocks: seq<Block>, limitBytes: u64) {
    limitBytes == TWO_64 - 1 ||
    (ArchiveEstimate(blocks).Some? && Saturated(ArchiveEstimate(blocks).value) <= limitBytes)
  }

  lemma {:induction false} EstimateCovers(blocks: seq<Block>, b: nat)
    requires ArchiveEstimate(blocks).Some? && b < |blocks|
    ensures ChainEstimate(blocks[b].coders).Some?
    ensures ChainEstimate(blocks[b].coders).value <= ArchiveEstimate(blocks).value
    decreases |blocks|
  {
    hide ChainEstimate;
    if b < |blocks| - 1 {
      EstimateCovers(blocks[..|blocks| - 1], b);
    }
  }

  // Whatever is accepted up front, no coder of it is refused for memory later:
  // one estimate, one limit, and no output size that makes them disagree.
  method NeverLimitedLater(blocks: seq<Block>, limitBytes: u64, usizeMax: nat, p: PpmdBounds,
                           b: nat, i: nat, unpacked: u64) returns (v: Verdict)
    requires usizeMax >= U32_MAX && AcceptedUpFront(blocks, limitBytes)
    requires b < |blocks| && i < |blocks[b].coders|
    ensures !v.MemLimited?
  {
    hide ArchiveEstimate, ChainEstimate, CoderEstimate;
    var c := blocks[b].coders[i];
    Unlimited(c);
    if ArchiveEstimate(blocks).Some? {
      EstimateCovers(blocks, b);
      ChainCovers(blocks[b].coders, i);
    }
    var limitKb := LimitKb(limitBytes, usizeMax);
    v := CheckCoder(c, unpacked, limitKb, p);
  }

  // No estimate comes near the largest limit.
  lemma Unlimited(c: Coder)
    ensures CoderEstimate(c).Some? ==> CoderEstimate(c).value <= U32_MAX + 16 + MIB
  {
    hide MethodOf;
    if c.props != [] {
      TableFits(c.props[0]);
    }
  }

  // --- Room for decoding in parallel ---

  const MT_BUDGET_PER_THREAD_BYTES: nat := 512 * MIB
  const MT_MIN_BUDGET_FLOOR_BYTES: nat := 0x8000_0000
  const MT_MIN_BUDGET_BYTES: nat := 32 * MIB

  // What may be in flight besides the decoder itself: all that the caller's
  // limit leaves, and none when that is too little to be worth it.
  function MtBudget(threads: u32, limitBytes: u64, dictSize: u32): (r: Option<nat>)
    ensures r.Some? ==> r.value >= MT_MIN_BUDGET_BYTES
    ensures r.Some? && limitBytes < TWO_64 - 1 ==> r.value + dictSize + LZ_STATE_BYTES == limitBytes
    ensures r.None? ==> limitBytes < dictSize + LZ_STATE_BYTES + MT_MIN_BUDGET_BYTES
  {
    var budget :=
      if limitBytes == TWO_64 - 1 then Most(Saturated(threads * MT_BUDGET_PER_THREAD_BYTES), MT_MIN_BUDGET_FLOOR_BYTES)
      else if limitBytes >= dictSize + LZ_STATE_BYTES then limitBytes - (dictSize + LZ_STATE_BYTES) else 0;
    if budget >= MT_MIN_BUDGET_BYTES then Some(budget) else None
  }
}
