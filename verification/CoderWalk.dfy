// The chain of one-in/one-out coders walked from a block's packed stream.
module CoderWalk {
  import opened Common
  import opened Blocks
  import opened CoderGraph

  // The counts the block reader derives one from another.
  predicate Counted(b: Block) {
    |b.bindPairs| + 1 == b.totalOut && |b.bindPairs| + |b.packed| == b.totalIn
  }

  ghost predicate Distinct<T>(s: seq<T>) {
    forall i, j | 0 <= i < j < |s| :: s[i] != s[j]
  }

  // Distinct numbers below `n` are at most `n` many.
  lemma {:induction false} Pigeonhole(s: seq<nat>, n: nat)
    requires Distinct(s) && forall i | 0 <= i < |s| :: s[i] < n
    ensures |s| <= n
  {
    if s != [] {
      assert s[0] < n;
      var rest := if n - 1 in s then Without(s, n - 1) else s;
      Pigeonhole(rest, n - 1);
    }
  }

  ghost function Without(s: seq<nat>, x: nat): (r: seq<nat>)
    requires Distinct(s) && x in s
    ensures |r| == |s| - 1 && Distinct(r) && forall i | 0 <= i < |r| :: r[i] in s && r[i] != x
  {
    var k :| 0 <= k < |s| && s[k] == x;
    s[..k] + s[k + 1..]
  }

  ghost predicate Simple(b: Block) {
    forall c | 0 <= c < |b.coders| :: b.coders[c].numIn == 1 && b.coders[c].numOut == 1
  }

  lemma {:induction false} SimpleSums(coders: seq<Coder>)
    requires forall c | 0 <= c < |coders| :: coders[c].numIn == 1 && coders[c].numOut == 1
    ensures InSum(coders) == |coders| == OutSum(coders)
  {
    if coders != [] {
      SimpleSums(coders[..|coders| - 1]);
    }
  }

  // The coder that reads what coder `c` puts out.
  function Reader(b: Block, c: nat): Option<nat> {
    match FindOut(b.bindPairs, c)
    case None => None
    case Some(p) => Some(p.inIndex)
  }

  // A chain of coders, each read by the next, from the packed stream on.
  ghost predicate IsChain(b: Block, s: seq<nat>) {
    && (s != [] ==> b.packed != [] && s[0] == b.packed[0])
    && (forall i | 0 <= i < |s| :: s[i] < |b.coders|)
    && forall i | 0 < i < |s| :: Reader(b, s[i - 1]) == Some(s[i])
  }

  lemma FindOutIs(pairs: seq<BindPair>, p: BindPair)
    requires p in pairs && forall i, j | 0 <= i < j < |pairs| :: pairs[i].outIndex != pairs[j].outIndex
    ensures FindOut(pairs, p.outIndex) == Some(p)
  {
    var r := FindOut(pairs, p.outIndex);
    var i :| 0 <= i < |pairs| && pairs[i] == p;
    var j :| 0 <= j < |pairs| && pairs[j] == r.value;
    if i < j {} else if j < i {} else {}
  }

  lemma FindInIs(pairs: seq<BindPair>, p: BindPair)
    requires p in pairs && forall i, j | 0 <= i < j < |pairs| :: pairs[i].inIndex != pairs[j].inIndex
    ensures FindIn(pairs, p.inIndex) == Some(p)
  {
    var r := FindIn(pairs, p.inIndex);
    var i :| 0 <= i < |pairs| && pairs[i] == p;
    var j :| 0 <= j < |pairs| && pairs[j] == r.value;
    if i < j {} else if j < i {} else {}
  }

  // No two coders of a wired block are read by the same coder.
  lemma ReaderInjective(b: Block, out: nat, c: nat, d: nat)
    requires Wired(b, out) && Reader(b, c).Some? && Reader(b, c) == Reader(b, d)
    ensures c == d
  {
    var p, q := FindOut(b.bindPairs, c).value, FindOut(b.bindPairs, d).value;
    FindInIs(b.bindPairs, p);
    FindInIs(b.bindPairs, q);
  }

  lemma PackedUnread(b: Block, out: nat, c: nat)
    requires Wired(b, out) && b.packed != []
    ensures Reader(b, c) != Some(b.packed[0])
  {
    if Reader(b, c) == Some(b.packed[0]) {
      var p := FindOut(b.bindPairs, c).value;
      var k :| 0 <= k < |b.bindPairs| && b.bindPairs[k] == p;
      assert Fed(b.bindPairs, b.packed[0]);
    }
  }

  lemma {:induction false} NoRepeat(b: Block, out: nat, s: seq<nat>, i: nat, j: nat)
    requires Wired(b, out) && IsChain(b, s) && i < j < |s|
    ensures s[i] != s[j]
  {
    assert Reader(b, s[j - 1]) == Some(s[j]);
    if s[i] == s[j] {
      if i == 0 {
        PackedUnread(b, out, s[j - 1]);
      } else {
        assert Reader(b, s[i - 1]) == Some(s[i]);
        ReaderInjective(b, out, s[i - 1], s[j - 1]);
        NoRepeat(b, out, s, i - 1, j - 1);
      }
    }
  }

  lemma ChainIsShort(b: Block, out: nat, s: seq<nat>)
    requires Wired(b, out) && IsChain(b, s)
    ensures Distinct(s) && |s| <= |b.coders|
  {
    forall i, j | 0 <= i < j < |s| ensures s[i] != s[j] {
      NoRepeat(b, out, s, i, j);
    }
    Pigeonhole(s, |b.coders|);
  }

  // A reader exists, and is a coder, unless the output is the block's.
  lemma ReaderOf(b: Block, out: nat, c: nat)
    requires RangeChecked(b) && Simple(b) && Wired(b, out) && c < |b.coders|
    ensures Reader(b, c).None? <==> c == out
    ensures Reader(b, c).Some? ==> Reader(b, c).value < |b.coders|
  {
    SimpleSums(b.coders);
    if Bound(b.bindPairs, c) {
      var k :| 0 <= k < |b.bindPairs| && b.bindPairs[k].outIndex == c;
      assert b.bindPairs[k] in b.bindPairs;
    }
  }

  class OrderedCoderIter {
    const block: Block
    var current: Option<nat>
    var remaining: nat

    constructor (block: Block)
      ensures this.block == block && remaining == |block.coders|
      ensures current == if block.packed == [] then None else Some(block.packed[0])
    {
      this.block := block;
      current := if block.packed == [] then None else Some(block.packed[0]);
      remaining := |block.coders|;
    }

    method Next() returns (item: Option<nat>)
      modifies this
      ensures old(remaining) == 0 || old(current).None? ==> item.None? && remaining == old(remaining)
      ensures old(remaining) > 0 && old(current).Some? ==>
                var i := old(current).value;
                && current == Reader(block, i)
                && item == (if i < |block.coders| then Some(i) else None)
                && remaining == old(remaining) - (if item.Some? then 1 else 0)
      ensures item.Some? ==> remaining < old(remaining)
    {
      if remaining == 0 || current.None? {
        return None;
      }
      var i := current.value;
      current := Reader(block, i);
      item := if i < |block.coders| then Some(i) else None;
      if item.Some? {
        remaining := remaining - 1;
      }
    }
  }

  lemma StartsInside(b: Block, out: nat)
    requires RangeChecked(b) && Counted(b) && Simple(b) && Wired(b, out)
    ensures |b.packed| == 1 && b.packed[0] < |b.coders|
  {
    SimpleSums(b.coders);
  }

  lemma ChainStart(b: Block)
    ensures IsChain(b, [])
  {
  }

  lemma ChainGrows(b: Block, s: seq<nat>, c: nat)
    requires IsChain(b, s) && c < |b.coders|
    requires if s == [] then b.packed != [] && c == b.packed[0] else Reader(b, s[|s| - 1]) == Some(c)
    ensures IsChain(b, s + [c])
  {
  }

  // On a validated block of one-in/one-out coders the iterator goes from the
  // packed stream to the coder of the block's output, no coder twice, and it
  // is the missing reader that ends it, never the guard.
  method OrderedCoders(b: Block, ghost out: nat) returns (all: seq<nat>)
    requires RangeChecked(b) && Counted(b) && Simple(b) && Decodable(b, out)
    ensures IsChain(b, all) && Distinct(all) && all != []
    ensures all[|all| - 1] == out && Reader(b, out).None?
  {
    StartsInside(b, out);
    hide RangeChecked, Wired, CycleBehind, Simple, IsChain;
    var iter := new OrderedCoderIter(b);
    all := [];
    ChainStart(b);
    while true
      invariant iter.block == b && IsChain(b, all) && iter.remaining + |all| == |b.coders|
      invariant if all == [] then iter.current == Some(b.packed[0]) else iter.current == Reader(b, all[|all| - 1])
      invariant iter.current.Some? ==> iter.current.value < |b.coders|
      decreases iter.remaining
    {
      ghost var was := iter.current;
      ChainIsShort(b, out, all);
      if was.Some? {
        ChainGrows(b, all, was.value);
        ChainIsShort(b, out, all + [was.value]);
      }
      var item := iter.Next();
      if item.None? {
        break;
      }
      all := all + [item.value];
      ReaderOf(b, out, item.value);
    }
    ReaderOf(b, out, all[|all| - 1]);
  }

  // Coders 1 and 2 feed each other, out of reach of the output of coder 0.
  function Island(): Block {
    var filter := Coder([0x03], 1, 1, []);
    Block([filter, filter, filter], [BindPair(1, 2), BindPair(2, 1)], [0], 3, 3, [0, 0, 0], false, 0, 1)
  }

  lemma IslandShape()
    ensures RangeChecked(Island()) && Counted(Island()) && Simple(Island())
    ensures FirstIn(Island(), 0) == 0 && FirstIn(Island(), 1) == 1 && FirstIn(Island(), 2) == 2
    ensures Owners(Island().coders) == [0, 1, 2]
  {
    var b := Island();
    SimpleSums(b.coders);
    SingleOwners(b.coders);
    SimpleSums(b.coders[..0]);
    SimpleSums(b.coders[..1]);
    SimpleSums(b.coders[..2]);
  }

  lemma IslandWired()
    ensures Wired(Island(), 0)
  {
    hide Fed, Bound;
    var b := Island();
    IslandBound();
    forall i | 0 <= i < b.totalIn ensures Fed(b.bindPairs, i) || i in b.packed {
      assert i == 0 ==> b.packed[i] == i;
    }
  }

  lemma IslandBound()
    ensures var pairs := Island().bindPairs;
      && !Fed(pairs, 0) && Fed(pairs, 1) && Fed(pairs, 2)
      && !Bound(pairs, 0) && Bound(pairs, 1) && Bound(pairs, 2)
  {
    var pairs := Island().bindPairs;
    assert pairs[0] == BindPair(1, 2) && pairs[1] == BindPair(2, 1);
  }

  lemma NoEdge(d: nat)
    requires RangeChecked(Island())
    ensures !Edge(Island(), 0, d)
  {
    IslandShape();
    assert FindIn(Island().bindPairs, 0).None?;
  }

  lemma PathStep(b: Block, p: seq<nat>, i: nat)
    requires RangeChecked(b) && Path(b, p) && 0 < i < |p|
    ensures Edge(b, p[i - 1], p[i])
  {
  }

  lemma NothingBehind(p: seq<nat>)
    requires RangeChecked(Island()) && Path(Island(), p) && p[0] == 0
    ensures |p| == 1
  {
    hide Island, Edge;
    if |p| > 1 {
      PathStep(Island(), p, 1);
      NoEdge(p[1]);
    }
  }

  // A cycle that the output does not depend on is let through.
  lemma CycleElsewhere()
    ensures RangeChecked(Island()) && Counted(Island()) && Simple(Island()) && Decodable(Island(), 0)
    ensures Edge(Island(), 1, 2) && Edge(Island(), 2, 1)
  {
    hide Wired, Path;
    var b := Island();
    IslandShape();
    IslandWired();
    assert FindIn(b.bindPairs, 1) == Some(BindPair(1, 2)) && FindIn(b.bindPairs, 2) == Some(BindPair(2, 1));
    assert Target(b, 1, 0) == Some(2) && Target(b, 2, 0) == Some(1);
    forall p, q | q != [] && Path(b, q) && q[0] == q[|q| - 1] && Joins(b, p, 0, q[0]) ensures |q| == 1 {
      OnlyZero(p);
      NothingBehind(q);
    }
  }

  lemma OnlyZero(p: seq<nat>)
    requires RangeChecked(Island()) && Path(Island(), p) && p[0] == 0
    ensures p[|p| - 1] == 0
  {
    NothingBehind(p);
  }
}
