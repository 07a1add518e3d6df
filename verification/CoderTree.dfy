// The tree of single-output coders resolved back from a block's output.
module CoderTree {
  import opened Common
  import opened Blocks
  import opened CoderGraph
  import opened CoderWalk

  const ID_BCJ2: seq<byte> := [0x03, 0x03, 0x01, 0x1B]

  // A packed stream, or a coder over what feeds its inputs.
  datatype Tree = Leaf(index: nat) | Node(coder: nat, inputs: seq<Tree>)

  datatype BuildError = CyclicGraph | NoPair | OutOfRange | NotFour | Unsupported

  function IndexOf(packed: seq<nat>, i: nat): (r: Option<nat>)
    ensures r.Some? ==> r.value < |packed| && packed[r.value] == i
    ensures r.None? ==> i !in packed
  {
    if packed == [] then None
    else if packed[0] == i then Some(0)
    else match IndexOf(packed[1..], i) case None => None case Some(k) => Some(k + 1)
  }

  // The stream of input `i`: a packed one, or the coder bound to it.
  function GetInStream(b: Block, i: nat, depth: nat): Result<Tree, BuildError>
    decreases |b.coders| + 1 - depth, 2
  {
    match IndexOf(b.packed, i)
    case Some(k) => Ok(Leaf(k))
    case None =>
      match FindIn(b.bindPairs, i)
      case None => Err(NoPair)
      case Some(p) => GetCoder(b, p.outIndex, depth)
  }

  // The coder `c` over its inputs; `depth` guards against cycles.
  function GetCoder(b: Block, c: nat, depth: nat): Result<Tree, BuildError>
    decreases |b.coders| + 1 - depth, 1
  {
    if depth > |b.coders| then Err(CyclicGraph)
    else if c >= |b.coders| || c >= |b.unpackSizes| then Err(OutOfRange)
    else
      var n := b.coders[c].numIn;
      if n != 1 && b.coders[c].id != ID_BCJ2 then Err(Unsupported)
      else if n != 1 && n != 4 then Err(NotFour)
      else
        match GetInputs(b, FirstIn(b, c), n, depth + 1)
        case Err(e) => Err(e)
        case Ok(ts) => Ok(Node(c, ts))
  }

  function GetInputs(b: Block, first: nat, n: nat, depth: nat): (r: Result<seq<Tree>, BuildError>)
    ensures r.Ok? ==> |r.value| == n
    decreases |b.coders| + 1 - depth, 3, n
  {
    if n == 0 then Ok([])
    else
      match GetInputs(b, first, n - 1, depth)
      case Err(e) => Err(e)
      case Ok(ts) =>
        match GetInStream(b, first + (n - 1), depth)
        case Err(e) => Err(e)
        case Ok(t) => Ok(ts + [t])
  }

  function Coders(t: Tree): seq<nat> {
    match t
    case Leaf(_) => []
    case Node(c, ts) => [c] + CodersOf(ts)
  }

  function CodersOf(ts: seq<Tree>): seq<nat> {
    if ts == [] then [] else CodersOf(ts[..|ts| - 1]) + Coders(ts[|ts| - 1])
  }

  function Leaves(t: Tree): seq<nat> {
    match t
    case Leaf(k) => [k]
    case Node(c, ts) => LeavesOf(ts)
  }

  function LeavesOf(ts: seq<Tree>): seq<nat> {
    if ts == [] then [] else LeavesOf(ts[..|ts| - 1]) + Leaves(ts[|ts| - 1])
  }

  // A validated block whose coders each have one output.
  ghost predicate Sound(b: Block, out: nat) {
    && RangeChecked(b) && Decodable(b, out)
    && (forall c | 0 <= c < |b.coders| :: b.coders[c].numOut == 1)
    && |b.unpackSizes| == b.totalOut
  }

  ghost predicate FromRoot(b: Block, out: nat, p: seq<nat>)
    requires RangeChecked(b)
  {
    Path(b, p) && p[0] == out
  }

  lemma {:induction false} OutSums(coders: seq<Coder>)
    requires forall c | 0 <= c < |coders| :: coders[c].numOut == 1
    ensures OutSum(coders) == |coders|
  {
    if coders != [] {
      OutSums(coders[..|coders| - 1]);
    }
  }

  lemma SoundRoot(b: Block, out: nat)
    requires Sound(b, out)
    ensures RangeChecked(b) && b.totalOut == |b.coders| && out < |b.coders| && !CycleBehind(b, out)
    ensures |Owners(b.coders)| == |b.coders| && forall o | 0 <= o < |b.coders| :: Owners(b.coders)[o] == o
  {
    OutSums(b.coders);
    SingleOwners(b.coders);
  }

  // A path back from the output never comes to a coder twice.
  lemma PathIsShort(b: Block, out: nat, p: seq<nat>)
    requires Sound(b, out) && FromRoot(b, out, p)
    ensures Distinct(p) && |p| <= |b.coders|
  {
    SoundRoot(b, out);
    forall i, j | 0 <= i < j < |p| ensures p[i] != p[j] {
      if p[i] == p[j] {
        var q, front := p[i..j + 1], p[..i + 1];
        assert Path(b, q) && q[0] == q[|q| - 1];
        assert Joins(b, front, out, q[0]);
      }
    }
    Pigeonhole(p, |b.coders|);
  }

  // Each coder but the last one is read through one input only.
  lemma OneReader(b: Block, out: nat, c: nat, t: nat, c': nat, t': nat)
    requires Sound(b, out) && c < |b.coders| && t < b.coders[c].numIn && c' < |b.coders| && t' < b.coders[c'].numIn
    requires Target(b, c, t).Some? && Target(b, c, t) == Target(b, c', t')
    ensures c == c' && t == t'
  {
    SoundRoot(b, out);
    var p := FindIn(b.bindPairs, FirstIn(b, c) + t).value;
    var q := FindIn(b.bindPairs, FirstIn(b, c') + t').value;
    FindOutIs(b.bindPairs, p);
    FindOutIs(b.bindPairs, q);
    InputOwner(b, c, t, c', t');
  }

  // There is one path only from the output to any coder.
  lemma {:induction false} OnePath(b: Block, out: nat, p: seq<nat>, q: seq<nat>)
    requires Sound(b, out) && FromRoot(b, out, p) && FromRoot(b, out, q) && p[|p| - 1] == q[|q| - 1]
    ensures p == q
    decreases |p|
  {
    hide Sound, RangeChecked, FromRoot, Path, Edge, Target;
    if |p| <= 1 {
      OnlyRoot(b, out, p, q);
    } else if |q| <= 1 {
      OnlyRoot(b, out, q, p);
    } else {
      var i, j := |p| - 1, |q| - 1;
      var t := LastEdge(b, out, p);
      var t' := LastEdge(b, out, q);
      OneReader(b, out, p[i - 1], t, q[j - 1], t');
      OnePath(b, out, p[..i], q[..j]);
      assert p == p[..i] + [p[i]] && q == q[..j] + [q[j]];
    }
  }

  lemma OnlyRoot(b: Block, out: nat, p: seq<nat>, q: seq<nat>)
    requires Sound(b, out) && FromRoot(b, out, p) && FromRoot(b, out, q) && |p| <= 1 && p[|p| - 1] == q[|q| - 1]
    ensures p == q
  {
    hide Sound;
    PathIsShort(b, out, q);
  }

  // The last step of a path, and the path up to it.
  lemma LastEdge(b: Block, out: nat, p: seq<nat>) returns (t: nat)
    requires Sound(b, out) && FromRoot(b, out, p) && |p| > 1
    ensures RangeChecked(b) && p[|p| - 2] < |b.coders| && t < b.coders[p[|p| - 2]].numIn
    ensures Target(b, p[|p| - 2], t) == Some(p[|p| - 1])
    ensures FromRoot(b, out, p[..|p| - 1])
  {
    hide Decodable, Target;
    var i := |p| - 1;
    assert Edge(b, p[i - 1], p[i]);
    t :| 0 <= t < b.coders[p[i - 1]].numIn && Target(b, p[i - 1], t) == Some(p[i]);
  }

  // The only ways left for the tree to fail once the block is validated.
  predicate Refused(r: BuildError) {
    r.NotFour? || r.Unsupported?
  }

  lemma RootShape(b: Block, out: nat, p: seq<nat>)
    requires Sound(b, out) && FromRoot(b, out, p)
    ensures p != [] && p[|p| - 1] < |b.coders| == b.totalOut == |b.unpackSizes| && |p| <= |b.coders|
    ensures RangeChecked(b)
  {
    PathIsShort(b, out, p);
    SoundRoot(b, out);
  }

  lemma Extend(b: Block, out: nat, p: seq<nat>, d: nat)
    requires RangeChecked(b) && FromRoot(b, out, p) && Edge(b, p[|p| - 1], d) && d < |b.coders|
    ensures FromRoot(b, out, p + [d])
  {
    hide Edge;
    var q := p + [d];
    forall j | 0 < j < |q| ensures Edge(b, q[j - 1], q[j]) {
      assert j < |p| ==> Edge(b, p[j - 1], p[j]);
    }
  }

  lemma BoundTo(b: Block, out: nat, c: nat, t: nat)
    requires Sound(b, out) && c < |b.coders| && t < b.coders[c].numIn && FirstIn(b, c) + t !in b.packed
    ensures FindIn(b.bindPairs, FirstIn(b, c) + t).Some?
    ensures var d := FindIn(b.bindPairs, FirstIn(b, c) + t).value.outIndex;
      d < |b.coders| && Target(b, c, t) == Some(d) && Edge(b, c, d)
  {
    hide CycleBehind;
    InSumGrows(b.coders, c);
    SoundRoot(b, out);
    assert Fed(b.bindPairs, FirstIn(b, c) + t);
  }

  // Input `t` of the last coder of a path: packed, or one coder further back.
  lemma InputOf(b: Block, out: nat, p: seq<nat>, t: nat)
    requires Sound(b, out) && FromRoot(b, out, p) && t < b.coders[p[|p| - 1]].numIn
    ensures var i := FirstIn(b, p[|p| - 1]) + t;
      IndexOf(b.packed, i).None? ==>
        && FindIn(b.bindPairs, i).Some?
        && var d := FindIn(b.bindPairs, i).value.outIndex;
        && Target(b, p[|p| - 1], t) == Some(d) && FromRoot(b, out, p + [d]) && |p| < |b.coders|
  {
    hide Sound, FromRoot;
    RootShape(b, out, p);
    var i := FirstIn(b, p[|p| - 1]) + t;
    if IndexOf(b.packed, i).None? {
      BoundTo(b, out, p[|p| - 1], t);
      var d := FindIn(b.bindPairs, i).value.outIndex;
      Extend(b, out, p, d);
      RootShape(b, out, p + [d]);
    }
  }

  lemma {:induction false} NoGuard(b: Block, out: nat, p: seq<nat>)
    requires Sound(b, out) && FromRoot(b, out, p)
    ensures var r := GetCoder(b, p[|p| - 1], |p| - 1); r.Err? ==> Refused(r.error)
    decreases |b.coders| + 1 - |p|, 1, 0
  {
    hide Sound, FromRoot, GetInputs, RangeChecked;
    RootShape(b, out, p);
    var c := p[|p| - 1];
    var n := b.coders[c].numIn;
    if n == 1 || n == 4 {
      NoGuardInputs(b, out, p, n);
    }
  }

  lemma {:induction false} NoGuardInputs(b: Block, out: nat, p: seq<nat>, n: nat)
    requires Sound(b, out) && FromRoot(b, out, p) && n <= b.coders[p[|p| - 1]].numIn
    ensures var r := GetInputs(b, FirstIn(b, p[|p| - 1]), n, |p|); r.Err? ==> Refused(r.error)
    decreases |b.coders| + 1 - |p|, 0, n
  {
    hide Sound, FromRoot, GetCoder, RangeChecked;
    RootShape(b, out, p);
    if n > 0 {
      NoGuardInputs(b, out, p, n - 1);
      InputOf(b, out, p, n - 1);
      var i := FirstIn(b, p[|p| - 1]) + (n - 1);
      if IndexOf(b.packed, i).None? {
        NoGuard(b, out, p + [FindIn(b.bindPairs, i).value.outIndex]);
      }
    }
  }

  // Coder `x` lies on a path that begins with `p`.
  ghost predicate Behind(b: Block, out: nat, p: seq<nat>, x: nat)
    requires RangeChecked(b)
  {
    exists r :: FromRoot(b, out, r) && p <= r && r[|r| - 1] == x
  }

  lemma Further(b: Block, out: nat, p: seq<nat>, d: nat, x: nat)
    requires RangeChecked(b) && Behind(b, out, p + [d], x)
    ensures Behind(b, out, p, x)
  {
    hide FromRoot;
    var r :| FromRoot(b, out, r) && p + [d] <= r && r[|r| - 1] == x;
    assert p <= r;
  }

  // The last coder of `p` is not behind one of its own inputs.
  lemma NotBehindItself(b: Block, out: nat, p: seq<nat>, d: nat)
    requires Sound(b, out) && FromRoot(b, out, p)
    ensures !Behind(b, out, p + [d], p[|p| - 1])
  {
    hide FromRoot, Sound;
    RootShape(b, out, p);
    if Behind(b, out, p + [d], p[|p| - 1]) {
      var r :| FromRoot(b, out, r) && p + [d] <= r && r[|r| - 1] == p[|p| - 1];
      OnePath(b, out, p, r);
    }
  }

  lemma BehindOne(b: Block, out: nat, p: seq<nat>, d: nat, e: nat, x: nat)
    requires Sound(b, out) && Behind(b, out, p + [d], x) && Behind(b, out, p + [e], x)
    ensures d == e
  {
    hide FromRoot, Sound;
    SoundRoot(b, out);
    var q :| FromRoot(b, out, q) && p + [d] <= q && q[|q| - 1] == x;
    var r :| FromRoot(b, out, r) && p + [e] <= r && r[|r| - 1] == x;
    OnePath(b, out, q, r);
    assert q[|p|] == d && r[|p|] == e;
  }

  // Coder `x` is behind one of the first `n` inputs of the last coder of `p`.
  ghost predicate Via(b: Block, out: nat, p: seq<nat>, n: nat, x: nat)
    requires RangeChecked(b)
  {
    exists t: nat, d: nat :: t < n && Takes(b, p, t, d) && Behind(b, out, p + [d], x)
  }

  ghost predicate Takes(b: Block, p: seq<nat>, t: nat, d: nat)
    requires RangeChecked(b)
  {
    && p != [] && p[|p| - 1] < |b.coders| && t < b.coders[p[|p| - 1]].numIn
    && Target(b, p[|p| - 1], t) == Some(d)
  }

  // `k` is the packed stream read by input `u` of coder `x`.
  ghost predicate ReadBy(b: Block, k: nat, x: nat, u: nat) {
    k < |b.packed| && x < |b.coders| && u < b.coders[x].numIn && b.packed[k] == FirstIn(b, x) + u
  }

  // Packed stream `k` is read by one of `cs`, or by one of the first `n` inputs of `c`.
  ghost predicate Taken(b: Block, cs: seq<nat>, c: nat, n: nat, k: nat) {
    exists x: nat, u: nat :: ReadBy(b, k, x, u) && (x in cs || (x == c && u < n))
  }

  // What the tree over the last coder of `p` is made of.
  ghost predicate Proper(b: Block, out: nat, p: seq<nat>, t: Tree)
    requires RangeChecked(b)
  {
    && t.Node? && Distinct(Coders(t)) && Distinct(Leaves(t))
    && (forall x | x in Coders(t) :: Behind(b, out, p, x))
    && forall k | k in Leaves(t) :: Taken(b, Coders(t), 0, 0, k)
  }

  // The same for the first inputs of the last coder of `p`.
  ghost predicate ProperInputs(b: Block, out: nat, p: seq<nat>, ts: seq<Tree>)
    requires RangeChecked(b) && p != []
  {
    && Distinct(CodersOf(ts)) && Distinct(LeavesOf(ts))
    && (forall x | x in CodersOf(ts) :: Via(b, out, p, |ts|, x))
    && forall k | k in LeavesOf(ts) :: Taken(b, CodersOf(ts), p[|p| - 1], |ts|, k)
  }

  lemma DistinctConcat<T>(a: seq<T>, b: seq<T>)
    requires Distinct(a) && Distinct(b) && forall x | x in a :: x !in b
    ensures Distinct(a + b)
  {
    forall i, j | 0 <= i < j < |a + b| ensures (a + b)[i] != (a + b)[j] {
      if i < |a| && |a| <= j {
        assert a[i] in a;
      }
    }
  }

  // None of the coders of the inputs is the coder they feed.
  lemma NotFedByItself(b: Block, out: nat, p: seq<nat>, n: nat)
    requires Sound(b, out) && FromRoot(b, out, p)
    ensures !Via(b, out, p, n, p[|p| - 1])
  {
    hide FromRoot, Sound, Takes, Behind;
    RootShape(b, out, p);
    if Via(b, out, p, n, p[|p| - 1]) {
      var t: nat, d: nat :| t < n && Takes(b, p, t, d) && Behind(b, out, p + [d], p[|p| - 1]);
      NotBehindItself(b, out, p, d);
    }
  }

  // No coder is behind two inputs.
  lemma BehindOneInput(b: Block, out: nat, p: seq<nat>, n: nat, d: nat, x: nat)
    requires Sound(b, out) && FromRoot(b, out, p) && Takes(b, p, n, d) && Behind(b, out, p + [d], x)
    ensures !Via(b, out, p, n, x)
  {
    hide FromRoot, Sound, Behind;
    RootShape(b, out, p);
    if Via(b, out, p, n, x) {
      var t: nat, e: nat :| t < n && Takes(b, p, t, e) && Behind(b, out, p + [e], x);
      BehindOne(b, out, p, d, e, x);
      OneReader(b, out, p[|p| - 1], t, p[|p| - 1], n);
    }
  }

  lemma TakenMore(b: Block, cs: seq<nat>, c: nat, n: nat, k: nat, cs': seq<nat>, c': nat, n': nat)
    requires Taken(b, cs, c, n, k) && (forall x | x in cs :: x in cs') && (n > 0 ==> (c == c' && n <= n') || c in cs')
    ensures Taken(b, cs', c', n', k)
  {
    hide ReadBy;
    var x: nat, u: nat :| ReadBy(b, k, x, u) && (x in cs || (x == c && u < n));
  }

  // A packed stream is read in one place.
  lemma NotTakenTwice(b: Block, cs: seq<nat>, c: nat, n: nat, k: nat, ds: seq<nat>)
    requires Taken(b, cs, c, n, k) && (forall x | x in cs :: x !in ds) && c !in ds
    ensures !Taken(b, ds, 0, 0, k)
  {
    var x: nat, u: nat :| ReadBy(b, k, x, u) && (x in cs || (x == c && u < n));
    if Taken(b, ds, 0, 0, k) {
      var y: nat, w: nat :| ReadBy(b, k, y, w) && y in ds;
      InputOwner(b, x, u, y, w);
    }
  }

  lemma NotTakenYet(b: Block, cs: seq<nat>, c: nat, n: nat, k: nat)
    requires ReadBy(b, k, c, n) && c !in cs
    ensures !Taken(b, cs, c, n, k)
  {
    if Taken(b, cs, c, n, k) {
      var x: nat, u: nat :| ReadBy(b, k, x, u) && (x in cs || (x == c && u < n));
      InputOwner(b, x, u, c, n);
    }
  }

  lemma LeafAdded(ts: seq<Tree>, k: nat)
    ensures CodersOf(ts + [Leaf(k)]) == CodersOf(ts) && LeavesOf(ts + [Leaf(k)]) == LeavesOf(ts) + [k]
  {
    assert (ts + [Leaf(k)])[..|ts|] == ts;
  }

  lemma TakenNow(b: Block, cs: seq<nat>, c: nat, n: nat, k: nat)
    requires ReadBy(b, k, c, n)
    ensures Taken(b, cs, c, n + 1, k)
  {
    hide ReadBy;
  }

  lemma ViaMore(b: Block, out: nat, p: seq<nat>, n: nat)
    requires RangeChecked(b) && p != []
    ensures forall x | Via(b, out, p, n, x) :: Via(b, out, p, n + 1, x)
  {
    hide Takes, Behind;
  }

  lemma AddLeaf(b: Block, out: nat, p: seq<nat>, ts: seq<Tree>, k: nat)
    requires Sound(b, out) && FromRoot(b, out, p) && ProperInputs(b, out, p, ts)
    requires ReadBy(b, k, p[|p| - 1], |ts|)
    ensures ProperInputs(b, out, p, ts + [Leaf(k)])
  {
    hide FromRoot, Sound, Behind, ReadBy, RangeChecked, CodersOf, LeavesOf, Taken, Via;
    RootShape(b, out, p);
    var c, us := p[|p| - 1], ts + [Leaf(k)];
    LeafAdded(ts, k);
    TakenNow(b, CodersOf(us), c, |ts|, k);
    ViaMore(b, out, p, |ts|);
    NotFedByItself(b, out, p, |ts|);
    NotTakenYet(b, CodersOf(ts), c, |ts|, k);
    DistinctConcat(LeavesOf(ts), [k]);
    forall j | j in LeavesOf(us) ensures Taken(b, CodersOf(us), c, |us|, j) {
      if j in LeavesOf(ts) {
        TakenMore(b, CodersOf(ts), c, |ts|, j, CodersOf(us), c, |us|);
      }
    }
  }

  lemma AddNode(b: Block, out: nat, p: seq<nat>, ts: seq<Tree>, d: nat, node: Tree)
    requires Sound(b, out) && FromRoot(b, out, p) && ProperInputs(b, out, p, ts)
    requires Takes(b, p, |ts|, d) && Proper(b, out, p + [d], node)
    ensures ProperInputs(b, out, p, ts + [node])
  {
    hide FromRoot, Sound, Behind, Taken, Takes, RangeChecked;
    RootShape(b, out, p);
    var c, us := p[|p| - 1], ts + [node];
    assert us[..|us| - 1] == ts;
    assert CodersOf(us) == CodersOf(ts) + Coders(node) && LeavesOf(us) == LeavesOf(ts) + Leaves(node);
    NotFedByItself(b, out, p, |ts|);
    NotBehindItself(b, out, p, d);
    forall x | x in Coders(node) ensures x !in CodersOf(ts) {
      BehindOneInput(b, out, p, |ts|, d, x);
    }
    DistinctConcat(CodersOf(ts), Coders(node));
    forall k | k in LeavesOf(ts) ensures k !in Leaves(node) {
      NotTakenTwice(b, CodersOf(ts), c, |ts|, k, Coders(node));
    }
    DistinctConcat(LeavesOf(ts), Leaves(node));
    forall k | k in LeavesOf(us) ensures Taken(b, CodersOf(us), c, |us|, k) {
      if k in LeavesOf(ts) {
        TakenMore(b, CodersOf(ts), c, |ts|, k, CodersOf(us), c, |us|);
      } else {
        TakenMore(b, Coders(node), 0, 0, k, CodersOf(us), c, |us|);
      }
    }
  }

  lemma OverInputs(b: Block, out: nat, p: seq<nat>, ts: seq<Tree>)
    requires Sound(b, out) && FromRoot(b, out, p) && ProperInputs(b, out, p, ts)
    ensures Proper(b, out, p, Node(p[|p| - 1], ts))
  {
    hide FromRoot, Sound, Behind, Taken, Takes, RangeChecked;
    RootShape(b, out, p);
    var c := p[|p| - 1];
    var t := Node(c, ts);
    NotFedByItself(b, out, p, |ts|);
    DistinctConcat([c], CodersOf(ts));
    forall x | x in Coders(t) ensures Behind(b, out, p, x) {
      if x == c {
        BehindSelf(b, out, p);
      } else {
        var u: nat, d: nat :| u < |ts| && Takes(b, p, u, d) && Behind(b, out, p + [d], x);
        Further(b, out, p, d, x);
      }
    }
    forall k | k in Leaves(t) ensures Taken(b, Coders(t), 0, 0, k) {
      TakenMore(b, CodersOf(ts), c, |ts|, k, Coders(t), 0, 0);
    }
  }

  lemma BehindSelf(b: Block, out: nat, p: seq<nat>)
    requires RangeChecked(b) && FromRoot(b, out, p)
    ensures Behind(b, out, p, p[|p| - 1])
  {
  }

  lemma {:induction false} Built(b: Block, out: nat, p: seq<nat>)
    requires Sound(b, out) && FromRoot(b, out, p)
    ensures var r := GetCoder(b, p[|p| - 1], |p| - 1); r.Ok? ==> Proper(b, out, p, r.value)
    decreases |b.coders| + 1 - |p|, 1, 0
  {
    hide Sound, FromRoot, GetInputs, RangeChecked, Proper, ProperInputs;
    RootShape(b, out, p);
    var n := b.coders[p[|p| - 1]].numIn;
    var r := GetInputs(b, FirstIn(b, p[|p| - 1]), n, |p|);
    if (n == 1 || n == 4) && r.Ok? {
      BuiltInputs(b, out, p, n);
      OverInputs(b, out, p, r.value);
    }
  }

  lemma {:induction false} BuiltInputs(b: Block, out: nat, p: seq<nat>, n: nat)
    requires Sound(b, out) && FromRoot(b, out, p) && n <= b.coders[p[|p| - 1]].numIn
    ensures var r := GetInputs(b, FirstIn(b, p[|p| - 1]), n, |p|); r.Ok? ==> ProperInputs(b, out, p, r.value)
    decreases |b.coders| + 1 - |p|, 0, n
  {
    hide Sound, FromRoot, GetCoder, RangeChecked, Proper, ProperInputs;
    RootShape(b, out, p);
    var r := GetInputs(b, FirstIn(b, p[|p| - 1]), n, |p|);
    if n == 0 {
      NoInputs(b, out, p);
    } else if r.Ok? {
      var ts := r.value[..n - 1];
      BuiltInputs(b, out, p, n - 1);
      InputOf(b, out, p, n - 1);
      var i := FirstIn(b, p[|p| - 1]) + (n - 1);
      if IndexOf(b.packed, i).None? {
        var d := FindIn(b.bindPairs, i).value.outIndex;
        Built(b, out, p + [d]);
        AddNode(b, out, p, ts, d, r.value[n - 1]);
      } else {
        AddLeaf(b, out, p, ts, IndexOf(b.packed, i).value);
      }
      assert r.value == ts + [r.value[n - 1]];
    }
  }

  lemma NoInputs(b: Block, out: nat, p: seq<nat>)
    requires RangeChecked(b) && p != []
    ensures ProperInputs(b, out, p, [])
  {
  }

  // One input, or the four of BCJ2.
  predicate Buildable(c: Coder) {
    c.numIn == 1 || (c.numIn == 4 && c.id == [3, 3, 1, 27])
  }

  // `t` is what feeds input stream `i`: the packed stream of that input, or the
  // coder bound to it over what feeds its own inputs.
  ghost predicate Feeds(b: Block, i: nat, t: Tree)
    decreases t, 1
  {
    match t
    case Leaf(k) => k < |b.packed| && b.packed[k] == i
    case Node(d, _) => BindPair(i, d) in b.bindPairs && Follows(b, t)
  }

  // A coder with one tree for each of its inputs, in their order.
  ghost predicate Follows(b: Block, t: Tree)
    decreases t, 0
  {
    match t
    case Leaf(_) => false
    case Node(c, ts) =>
      && c < |b.coders| && Buildable(b.coders[c]) && |ts| == b.coders[c].numIn
      && forall j | 0 <= j < |ts| :: Feeds(b, FirstIn(b, c) + j, ts[j])
  }

  lemma {:induction false} StreamFeeds(b: Block, i: nat, depth: nat)
    ensures var r := GetInStream(b, i, depth); r.Ok? ==> Feeds(b, i, r.value)
    decreases |b.coders| + 1 - depth, 2
  {
    hide GetCoder;
    var p := FindIn(b.bindPairs, i);
    if p.Some? {
      CoderFollows(b, p.value.outIndex, depth);
      assert p.value == BindPair(i, p.value.outIndex);
    }
  }

  lemma {:induction false} CoderFollows(b: Block, c: nat, depth: nat)
    ensures var r := GetCoder(b, c, depth); r.Ok? ==> r.value.Node? && r.value.coder == c && Follows(b, r.value)
    decreases |b.coders| + 1 - depth, 1
  {
    hide GetInputs, Feeds, Follows;
    if GetCoder(b, c, depth).Ok? {
      InputsFeed(b, FirstIn(b, c), b.coders[c].numIn, depth + 1);
      assert Buildable(b.coders[c]);
      NodeFollows(b, c, GetInputs(b, FirstIn(b, c), b.coders[c].numIn, depth + 1).value);
    }
  }

  lemma NodeFollows(b: Block, c: nat, ts: seq<Tree>)
    requires c < |b.coders| && Buildable(b.coders[c]) && |ts| == b.coders[c].numIn
    requires forall j | 0 <= j < |ts| :: Feeds(b, FirstIn(b, c) + j, ts[j])
    ensures Follows(b, Node(c, ts))
  {
    hide Feeds, Buildable;
  }

  lemma {:induction false} InputsFeed(b: Block, first: nat, n: nat, depth: nat)
    ensures var r := GetInputs(b, first, n, depth); r.Ok? ==> forall j | 0 <= j < n :: Feeds(b, first + j, r.value[j])
    decreases |b.coders| + 1 - depth, 3, n
  {
    hide GetInStream, Feeds;
    if n > 0 {
      InputsFeed(b, first, n - 1, depth);
      StreamFeeds(b, first + (n - 1), depth);
    }
  }

  ghost predicate AllBuildable(b: Block) {
    forall c | 0 <= c < |b.coders| :: Buildable(b.coders[c])
  }

  // Only for another coder is a tree refused.
  lemma {:induction false} CoderAllowed(b: Block, c: nat, depth: nat)
    requires AllBuildable(b)
    ensures var r := GetCoder(b, c, depth); r.Err? ==> !Refused(r.error)
    decreases |b.coders| + 1 - depth, 1
  {
    hide GetInputs;
    if depth <= |b.coders| && c < |b.coders| {
      assert Buildable(b.coders[c]);
      InputsAllowed(b, FirstIn(b, c), b.coders[c].numIn, depth + 1);
    }
  }

  lemma {:induction false} InputsAllowed(b: Block, first: nat, n: nat, depth: nat)
    requires AllBuildable(b)
    ensures var r := GetInputs(b, first, n, depth); r.Err? ==> !Refused(r.error)
    decreases |b.coders| + 1 - depth, 3, n
  {
    hide GetCoder;
    if n > 0 {
      InputsAllowed(b, first, n - 1, depth);
      var p := FindIn(b.bindPairs, first + (n - 1));
      if p.Some? {
        CoderAllowed(b, p.value.outIndex, depth);
      }
    }
  }

  // The decoder of a validated block of single-output coders: the depth guard
  // and the lookups never fail, no coder is built twice and no packed stream
  // is read twice, and every input of every coder has the stream that the
  // packed streams and the bind pairs give it. It is refused only for a coder
  // of several inputs that is not BCJ2.
  lemma TreeOfBlock(b: Block, out: nat)
    requires Sound(b, out)
    ensures GetCoder(b, out, 0).Err? ==> Refused(GetCoder(b, out, 0).error) && !AllBuildable(b)
    ensures GetCoder(b, out, 0).Ok? ==>
      var t := GetCoder(b, out, 0).value;
      && Distinct(Coders(t)) && Distinct(Leaves(t))
      && t.Node? && t.coder == out && Follows(b, t)
  {
    hide Sound, GetCoder, Behind, Taken, Follows;
    SoundRoot(b, out);
    assert FromRoot(b, out, [out]);
    NoGuard(b, out, [out]);
    Built(b, out, [out]);
    CoderFollows(b, out, 0);
    if AllBuildable(b) {
      CoderAllowed(b, out, 0);
    }
  }

  // The coder the tree starts from: the first whose output is not bound.
  method MainCoder(b: Block, ghost out: nat) returns (m: Option<nat>)
    requires Sound(b, out)
    ensures m == Some(out)
  {
    SoundRoot(b, out);
    var used := seq(|b.coders|, _ => false);
    var i := 0;
    while i < |b.bindPairs|
      invariant 0 <= i <= |b.bindPairs| && |used| == |b.coders|
      invariant forall c | 0 <= c < |used| :: used[c] <==> exists k :: 0 <= k < i && b.bindPairs[k].outIndex == c
    {
      var o := b.bindPairs[i].outIndex;
      if o >= |b.coders| {
        return None;
      }
      used := used[o := true];
      i := i + 1;
    }
    forall c: nat | c < |used| ensures used[c] <==> c != out {
      assert Bound(b.bindPairs, c) <==> c != out;
    }
    var c := 0;
    while c < |used| && used[c]
      invariant 0 <= c <= out
    {
      c := c + 1;
    }
    return Some(if c < |used| then c else 0);
  }
}
