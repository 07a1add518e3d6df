// A block: coders wired to one another by bind pairs, fed by packed streams.
module Blocks {
  import opened Common

  datatype Coder = Coder(id: seq<byte>, numIn: nat, numOut: nat, props: seq<byte>)

  datatype BindPair = BindPair(inIndex: nat, outIndex: nat)

  datatype Block = Block(
    coders: seq<Coder>, bindPairs: seq<BindPair>, packed: seq<nat>,
    totalIn: nat, totalOut: nat, unpackSizes: seq<u64>,
    hasCrc: bool, crc: u32, numSub: nat)

  // Input streams of the first coders, and likewise output streams.
  function InSum(coders: seq<Coder>): nat {
    if coders == [] then 0 else InSum(coders[..|coders| - 1]) + coders[|coders| - 1].numIn
  }

  function OutSum(coders: seq<Coder>): nat {
    if coders == [] then 0 else OutSum(coders[..|coders| - 1]) + coders[|coders| - 1].numOut
  }

  // The index of the first input stream of coder `c`.
  function FirstIn(b: Block, c: nat): nat
    requires c <= |b.coders|
  {
    InSum(b.coders[..c])
  }

  // The coder each output stream belongs to.
  function Owners(coders: seq<Coder>): (o: seq<nat>)
    ensures |o| == OutSum(coders)
    ensures forall i | 0 <= i < |o| :: o[i] < |coders|
  {
    if coders == [] then []
    else Owners(coders[..|coders| - 1]) + seq(coders[|coders| - 1].numOut, _ => |coders| - 1)
  }

  function FindIn(pairs: seq<BindPair>, i: nat): (r: Option<BindPair>)
    ensures r.Some? ==> r.value in pairs && r.value.inIndex == i
    ensures r.None? ==> forall p | p in pairs :: p.inIndex != i
  {
    if pairs == [] then None else if pairs[0].inIndex == i then Some(pairs[0]) else FindIn(pairs[1..], i)
  }

  function FindOut(pairs: seq<BindPair>, o: nat): (r: Option<BindPair>)
    ensures r.Some? ==> r.value in pairs && r.value.outIndex == o
    ensures r.None? ==> forall p | p in pairs :: p.outIndex != o
  {
    if pairs == [] then None else if pairs[0].outIndex == o then Some(pairs[0]) else FindOut(pairs[1..], o)
  }

  // What the block reader checks while it reads: the totals are those of the
  // coders, and the bind pairs stay inside them.
  ghost predicate RangeChecked(b: Block) {
    && b.totalIn == InSum(b.coders) && b.totalOut == OutSum(b.coders)
    && forall p | p in b.bindPairs :: p.inIndex < b.totalIn && p.outIndex < b.totalOut
  }

  lemma {:induction false} InSumGrows(coders: seq<Coder>, c: nat)
    requires c < |coders|
    ensures InSum(coders[..c + 1]) == InSum(coders[..c]) + coders[c].numIn
    ensures InSum(coders[..c + 1]) <= InSum(coders)
    decreases |coders|
  {
    assert coders[..c + 1][..c] == coders[..c];
    if c + 1 == |coders| {
      assert coders[..c + 1] == coders;
    } else {
      var front := coders[..|coders| - 1];
      assert front[..c + 1] == coders[..c + 1] && front[..c] == coders[..c];
      InSumGrows(front, c);
    }
  }

  lemma {:induction false} InSumMono(coders: seq<Coder>, a: nat, c: nat)
    requires a <= c <= |coders|
    ensures InSum(coders[..a]) <= InSum(coders[..c])
    decreases c - a
  {
    if a < c {
      InSumGrows(coders, a);
      InSumMono(coders, a + 1, c);
    }
  }

  lemma {:induction false} OutSumGrows(coders: seq<Coder>, c: nat)
    requires c < |coders|
    ensures OutSum(coders[..c + 1]) == OutSum(coders[..c]) + coders[c].numOut
    ensures OutSum(coders[..c + 1]) <= OutSum(coders)
    decreases |coders|
  {
    assert coders[..c + 1][..c] == coders[..c];
    if c + 1 == |coders| {
      assert coders[..c + 1] == coders;
    } else {
      var front := coders[..|coders| - 1];
      assert front[..c + 1] == coders[..c + 1] && front[..c] == coders[..c];
      OutSumGrows(front, c);
    }
  }

  // An input stream belongs to one coder only.
  lemma InputOwner(b: Block, c: nat, t: nat, c': nat, t': nat)
    requires c < |b.coders| && t < b.coders[c].numIn && c' < |b.coders| && t' < b.coders[c'].numIn
    requires FirstIn(b, c) + t == FirstIn(b, c') + t'
    ensures c == c' && t == t'
  {
    InSumGrows(b.coders, c);
    InSumGrows(b.coders, c');
    if c < c' {
      InSumMono(b.coders, c + 1, c');
    } else if c' < c {
      InSumMono(b.coders, c' + 1, c);
    }
  }

  lemma {:induction false} SingleOwners(coders: seq<Coder>)
    requires forall c | 0 <= c < |coders| :: coders[c].numOut == 1
    ensures |Owners(coders)| == |coders| && forall o | 0 <= o < |coders| :: Owners(coders)[o] == o
  {
    if coders != [] {
      SingleOwners(coders[..|coders| - 1]);
    }
  }
}
