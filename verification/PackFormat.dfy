// The packed streams of an archive: where they begin, how long they are, and
// their checksums.
module PackFormat {
  import opened Common
  import opened Numbers
  import opened Bits
  import opened Wire
  import opened BitSets
  import opened HeaderFormat

  // What the reader keeps of the packed streams.
  datatype Packs = Packs(pos: u64, sizes: seq<u64>, defined: seq<bool>, crcs: seq<nat>)

  function AllTrue(n: nat): (f: seq<bool>)
    ensures |f| == n
  {
    seq(n, _ => true)
  }

  // A checksum of zero stands for none.
  function Defined(crcs: seq<nat>): (f: seq<bool>)
    ensures |f| == |crcs|
  {
    seq(|crcs|, i requires 0 <= i < |crcs| => crcs[i] != 0)
  }

  predicate Uniform(crcs: seq<nat>) {
    (forall i | 0 <= i < |crcs| :: crcs[i] != 0) || (forall i | 0 <= i < |crcs| :: crcs[i] == 0)
  }

  predicate AllNonzero(crcs: seq<nat>) {
    forall i | 0 <= i < |crcs| :: crcs[i] != 0
  }

  // --- Printing: what is put in front of `tail` ---

  function CrcTable(crcs: seq<nat>): seq<byte> {
    if AllNonzero(crcs) then [1] + WhereBytes(crcs, 4, AllTrue(|crcs|)) else [0] + BitBytes(Defined(crcs))
  }

  function PackBytes(pos: u64, sizes: seq<u64>, crcs: seq<nat>, tail: seq<byte>): seq<byte>
    requires |sizes| < TWO_64
  {
    [K_PACK_INFO] + (NumberBytes(pos) + (NumberBytes(|sizes|) + ([K_SIZE] + (NumbersBytes(sizes) +
      ([K_CRC] + (CrcTable(crcs) + ([K_END] + tail)))))))
  }

  class PackInfo {
    var crcs: seq<u32>
    var sizes: seq<u64>
    var pos: u64

    constructor ()
      ensures crcs == [] && sizes == [] && pos == 0
    {
      crcs, sizes, pos := [], [], 0;
    }

    method AddStream(size: u64, crc: u32)
      modifies this
      ensures sizes == old(sizes) + [size] && crcs == old(crcs) + [crc] && pos == old(pos)
    {
      sizes := sizes + [size];
      crcs := crcs + [crc];
    }

    method WriteTo(header: Buffer)
      requires |sizes| < TWO_64
      modifies header
      ensures header.bytes == old(header.bytes) + PackBytes(pos, sizes, crcs, [])
    {
      hide NumberBytes, NumbersBytes, CrcTable;
      header.U8(K_PACK_INFO);
      header.Number(pos);
      header.Number(|sizes|);
      header.U8(K_SIZE);
      header.Numbers(sizes);
      ghost var before := header.bytes;
      Nest5(old(header.bytes), [K_PACK_INFO], NumberBytes(pos), NumberBytes(|sizes|), [K_SIZE], NumbersBytes(sizes));
      header.U8(K_CRC);
      WriteTable(header);
      header.U8(K_END);
      assert header.bytes == before + [K_CRC] + CrcTable(crcs) + [K_END];
      Nest4(before, [K_CRC], CrcTable(crcs), [K_END], []);
      ghost var more := [K_CRC] + (CrcTable(crcs) + ([K_END] + []));
      Nest6(old(header.bytes), [K_PACK_INFO], NumberBytes(pos), NumberBytes(|sizes|), [K_SIZE], NumbersBytes(sizes), more);
    }

    method WriteTable(header: Buffer)
      modifies header
      ensures header.bytes == old(header.bytes) + CrcTable(crcs)
    {
      var all := true;
      for i := 0 to |crcs|
        invariant all <==> forall j | 0 <= j < i :: crcs[j] != 0
        invariant header.bytes == old(header.bytes)
      {
        all := all && crcs[i] != 0;
      }
      if all {
        header.U8(1);
        header.Where(crcs, 4, AllTrue(|crcs|));
        Nest2(old(header.bytes), [1], WhereBytes(crcs, 4, AllTrue(|crcs|)));
      } else {
        header.U8(0);
        var bits := new BitSet.WithCapacity(|crcs|);
        for i := 0 to |crcs|
          invariant bits.Valid() && bits.bitCount == |crcs| && fresh(bits)
          invariant header.bytes == old(header.bytes) + [0]
          invariant forall j: nat :: bits.Contains(j) <==> j < i && crcs[j] != 0
        {
          if crcs[i] != 0 {
            var _ := bits.Insert(i);
          }
        }
        SameFlags(bits.Flags(), Defined(crcs));
        WriteBitSet(header, bits);
        Nest2(old(header.bytes), [0], BitBytes(Defined(crcs)));
      }
    }
  }

  // --- Reading, from behind the first byte ---

  function ReadSizes(s: seq<byte>, n: nat): (p: Parse<(seq<u64>, byte)>)
    ensures p.Got? ==> |p.rest| < |s|
  {
    var (nid, s1) :- ReadByte(s);
    if nid != K_SIZE then Got(([], nid), s1) else
    var (sizes, s2) :- ReadNumbers(s1, n);
    var (next, s3) :- ReadByte(s2);
    Got((sizes, next), s3)
  }

  function ReadCrcs(s: seq<byte>, n: nat): (p: Parse<(seq<bool>, seq<nat>)>)
    ensures p.Got? ==> |p.value.0| == |p.value.1| == n && |p.rest| <= |s|
  {
    var (defined, s1) :- ReadAllOrBits(s, n);
    var (crcs, s2) :- ReadWhere(s1, 4, defined);
    Got((defined, crcs), s2)
  }

  function ReadPackInfo(s: seq<byte>, b: Bounds): (p: Parse<Packs>)
    ensures p.Got? ==> |p.rest| <= |s|
  {
    NumberShrinks(s);
    var (pos, s1) :- ReadNumber(s);
    NumberShrinks(s1);
    var (n, s2) :- ReadNumber(s1);
    if !b.Allows(n, b.maxEntries) then Bad(Limit) else
    var (szs, s3) :- ReadSizes(s2, n);
    var (sizes, nid) := szs;
    if nid != K_CRC then
      if nid != K_END then Bad(BadTerminator(nid)) else Got(Packs(pos, sizes, [], []), s3)
    else
      var (table, s4) :- ReadCrcs(s3, n);
      var (last, s5) :- ReadByte(s4);
      if last != K_END then Bad(BadTerminator(last)) else Got(Packs(pos, sizes, table.0, table.1), s5)
  }

  method ParsePackInfo(header: Cursor, b: Bounds) returns (r: Result<Packs, HeaderError>)
    modifies header
    ensures Agrees(r, header.rest, ReadPackInfo(old(header.rest), b))
  {
    hide ReadNumber, ReadNumbers, ReadWhere, ReadAllOrBits;
    var pos :- header.Number();
    var number :- header.Number();
    var n :- b.Count(number, b.maxEntries);
    var sizes, defined, crcs := [], [], [];
    var nid :- header.U8();
    if nid == K_SIZE {
      sizes :- header.Numbers(n);
      nid :- header.U8();
    }
    if nid == K_CRC {
      defined :- ReadAllOrBitSet(header, n);
      crcs :- header.Where(4, defined);
      nid :- header.U8();
    }
    if nid != K_END {
      return Err(BadTerminator(nid));
    }
    return Ok(Packs(pos, sizes, defined, crcs));
  }

  // --- What was printed is read back ---

  predicate Words(crcs: seq<nat>) {
    forall i | 0 <= i < |crcs| :: crcs[i] < TWO_32
  }

  lemma TableRoundTrip(crcs: seq<nat>, tail: seq<byte>)
    requires Words(crcs) && Uniform(crcs)
    ensures ReadCrcs(CrcTable(crcs) + tail, |crcs|) == Got((Defined(crcs), crcs), tail)
  {
    hide ReadWhere, WhereBytes, ReadBits, BitBytes;
    Powers();
    if AllNonzero(crcs) {
      var flags := AllTrue(|crcs|);
      Nest2([1], WhereBytes(crcs, 4, flags), tail);
      WhereRoundTrip(crcs, 4, flags, tail);
      assert Where(crcs, flags) == crcs && Defined(crcs) == flags;
      assert ReadAllOrBits([1] + (WhereBytes(crcs, 4, flags) + tail), |crcs|)
          == Got(flags, WhereBytes(crcs, 4, flags) + tail);
    } else {
      var flags := Defined(crcs);
      Nest2([0], BitBytes(flags), tail);
      BitsRoundTrip(flags, tail);
      NoneSet(flags, tail);
      assert Zeros(flags) == crcs;
      assert ([0] + (BitBytes(flags) + tail))[1..] == BitBytes(flags) + tail;
    }
  }

  ghost function Zeros(flags: seq<bool>): seq<nat> {
    seq(|flags|, _ => 0)
  }

  lemma {:induction false} NoneSet(flags: seq<bool>, s: seq<byte>)
    requires forall i | 0 <= i < |flags| :: !flags[i]
    ensures ReadWhere(s, 4, flags) == Got(Zeros(flags), s)
    decreases |flags|
  {
    hide Word;
    if flags != [] {
      NoneSet(flags[1..], s);
      assert Zeros(flags) == [0] + Zeros(flags[1..]);
    }
  }

  lemma {:induction false} SomeSet(flags: seq<bool>)
    requires exists i :: 0 <= i < |flags| && flags[i]
    ensures CountSet(flags) > 0
  {
    if !flags[0] {
      var i :| 0 <= i < |flags| && flags[i];
      assert flags[1..][i - 1];
      SomeSet(flags[1..]);
    }
  }

  // With some checksums and not others, their values are not there to be read.
  lemma MixedTable(crcs: seq<nat>, tail: seq<byte>)
    requires !Uniform(crcs)
    ensures var p := ReadCrcs(CrcTable(crcs) + tail, |crcs|); p.Got? ==> |p.rest| + 4 <= |tail|
  {
    hide ReadWhere, ReadBits, BitBytes;
    var flags := Defined(crcs);
    Nest2([0], BitBytes(flags), tail);
    BitsRoundTrip(flags, tail);
    assert ([0] + (BitBytes(flags) + tail))[1..] == BitBytes(flags) + tail;
    WhereConsumes(tail, 4, flags);
    var i :| 0 <= i < |crcs| && crcs[i] != 0;
    assert flags[i];
    SomeSet(flags);
  }

  // The packed streams are read back just when their checksums are all there
  // or all missing, whatever follows.
  lemma PackInfoIff(pos: u64, sizes: seq<u64>, crcs: seq<nat>, b: Bounds, tail: seq<byte>)
    requires |sizes| == |crcs| < TWO_64 && Words(crcs) && b.Allows(|sizes|, b.maxEntries)
    ensures ReadPackInfo(PackBytes(pos, sizes, crcs, tail)[1..], b) == Got(Packs(pos, sizes, Defined(crcs), crcs), tail)
            <==> Uniform(crcs)
  {
    hide ReadNumber, NumberBytes, ReadNumbers, NumbersBytes, CrcTable, ReadCrcs, Uniform;
    var s7 := [K_END] + tail;
    var s6 := CrcTable(crcs) + s7;
    var s5 := NumbersBytes(sizes) + ([K_CRC] + s6);
    var s3 := NumberBytes(|sizes|) + ([K_SIZE] + s5);
    assert PackBytes(pos, sizes, crcs, tail)[1..] == NumberBytes(pos) + s3;
    NumberRoundTrip(pos, s3);
    NumberRoundTrip(|sizes|, [K_SIZE] + s5);
    NumbersRoundTrip(sizes, [K_CRC] + s6);
    assert ReadSizes([K_SIZE] + s5, |sizes|) == Got((sizes, K_CRC), s6);
    if Uniform(crcs) {
      TableRoundTrip(crcs, s7);
      assert s7[1..] == tail;
    } else {
      MixedTable(crcs, s7);
    }
  }
}
