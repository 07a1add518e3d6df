// Which wirings of a block's coders can be decoded, and the check for it.
module CoderGraph {
  import opened Common
  import opened Blocks

  // The coder whose output the t-th input of coder `c` is bound to, if any.
  function Target(b: Block, c: nat, t: nat): (r: Option<nat>)
    requires RangeChecked(b) && c < |b.coders|
    ensures r.Some? ==> r.value < |b.coders|
  {
    match FindIn(b.bindPairs, FirstIn(b, c) + t)
    case None => None
    case Some(p) => Some(Owners(b.coders)[p.outIndex])
  }

  // Coder `c` takes an input from coder `d`.
  ghost predicate Edge(b: Block, c: nat, d: nat)
    requires RangeChecked(b)
  {
    c < |b.coders| && exists t :: 0 <= t < b.coders[c].numIn && Target(b, c, t) == Some(d)
  }

  ghost predicate Path(b: Block, p: seq<nat>)
    requires RangeChecked(b)
  {
    p != [] && (forall i | 0 <= i < |p| :: p[i] < |b.coders|) &&
    forall i | 0 < i < |p| :: Edge(b, p[i - 1], p[i])
  }

  ghost predicate Joins(b: Block, p: seq<nat>, c: nat, d: nat)
    requires RangeChecked(b)
  {
    Path(b, p) && p[0] == c && p[|p| - 1] == d
  }

  // Going back from `root` one can come to a coder that depends on itself.
  ghost predicate CycleBehind(b: Block, root: nat)
    requires RangeChecked(b)
  {
    exists p, q :: |q| > 1 && q[0] == q[|q| - 1] && Path(b, q) && Joins(b, p, root, q[0])
  }

  predicate Bound(pairs: seq<BindPair>, o: nat) {
    exists k :: 0 <= k < |pairs| && pairs[k].outIndex == o
  }

  predicate Fed(pairs: seq<BindPair>, i: nat) {
    exists k :: 0 <= k < |pairs| && pairs[k].inIndex == i
  }

  // No stream is bound twice, every input is bound or packed but not both, and
  // `out` is the one output that is not bound.
  ghost predicate Wired(b: Block, out: nat) {
    && (forall i, j | 0 <= i < j < |b.bindPairs| ::
          b.bindPairs[i].inIndex != b.bindPairs[j].inIndex && b.bindPairs[i].outIndex != b.bindPairs[j].outIndex)
    && (forall i, j | 0 <= i < j < |b.packed| :: b.packed[i] != b.packed[j])
    && (forall i | 0 <= i < |b.packed| :: b.packed[i] < b.totalIn && !Fed(b.bindPairs, b.packed[i]))
    && (forall i | 0 <= i < b.totalIn :: Fed(b.bindPairs, i) || i in b.packed)
    && out < b.totalOut && (forall o | 0 <= o < b.totalOut :: Bound(b.bindPairs, o) <==> o != out)
  }

  // The wirings that decode: `out` is the block's output.
  ghost predicate Decodable(b: Block, out: nat)
    requires RangeChecked(b)
  {
    Wired(b, out) && !CycleBehind(b, Owners(b.coders)[out])
  }

  datatype GraphError = BoundTwice | PackedRange | PackedBound | Unaccounted | Outputs | Cycle

  // --- The walk back from the output ---

  datatype Mark = Unseen | OnPath | Done

  // A coder on the stack, and how many of its inputs have been walked.
  datatype Frame = Frame(coder: nat, step: nat)

  ghost predicate InputsDone(b: Block, marks: seq<Mark>, c: nat, n: nat)
    requires RangeChecked(b)
  {
    c < |b.coders| == |marks| && n <= b.coders[c].numIn &&
    forall t | 0 <= t < n && Target(b, c, t).Some? :: marks[Target(b, c, t).value].Done?
  }

  ghost function OnStack(s: seq<Frame>): set<nat> {
    set f | f in s :: f.coder
  }

  // The frames of `s` lead from `root` to `next`, the inputs before the ones
  // taken being done.
  ghost predicate Chain(b: Block, root: nat, marks: seq<Mark>, s: seq<Frame>, next: nat)
    requires RangeChecked(b)
  {
    if s == [] then next == root else
    var f, front := s[|s| - 1], s[..|s| - 1];
    && f.step > 0 && InputsDone(b, marks, f.coder, f.step - 1)
    && f.step <= b.coders[f.coder].numIn && Target(b, f.coder, f.step - 1) == Some(next)
    && f.coder !in OnStack(front) && Chain(b, root, marks, front, f.coder)
  }

  // Coders are done in an order in which each comes after those it reads from.
  ghost predicate DoneOrder(b: Block, marks: seq<Mark>, done: seq<nat>)
    requires RangeChecked(b)
  {
    && |marks| == |b.coders|
    && (forall c | 0 <= c < |marks| :: marks[c].Done? <==> c in done)
    && (forall k | 0 <= k < |done| :: done[k] < |b.coders| &&
          forall t | 0 <= t < b.coders[done[k]].numIn && Target(b, done[k], t).Some? ::
            Target(b, done[k], t).value in done[..k])
  }

  ghost predicate PathMarks(marks: seq<Mark>, on: set<nat>) {
    forall c | 0 <= c < |marks| :: marks[c].OnPath? <==> c in on
  }

  // The state between two rounds: `step` inputs of the topmost coder are done.
  ghost predicate Walking(b: Block, root: nat, marks: seq<Mark>, stack: seq<Frame>, done: seq<nat>)
    requires RangeChecked(b)
  {
    && DoneOrder(b, marks, done) && root < |b.coders|
    && if stack == [] then marks[root].Done? && PathMarks(marks, {})
       else
         var f, front := stack[|stack| - 1], stack[..|stack| - 1];
         && f.coder < |b.coders| && Chain(b, root, marks, front, f.coder)
         && if f.step == 0 then PathMarks(marks, OnStack(front))
            else Inside(b, root, marks, front, f.coder, f.step)
  }

  // The walk stands inside coder `c`, the first `step` of whose inputs are done.
  ghost predicate Inside(b: Block, root: nat, marks: seq<Mark>, front: seq<Frame>, c: nat, step: nat)
    requires RangeChecked(b)
  {
    c !in OnStack(front) && PathMarks(marks, OnStack(front) + {c}) && InputsDone(b, marks, c, step)
  }

  lemma {:induction false} ChainKept(b: Block, root: nat, marks: seq<Mark>, marks': seq<Mark>, s: seq<Frame>, next: nat)
    requires RangeChecked(b) && Chain(b, root, marks, s, next) && |marks| == |marks'|
    requires forall c | 0 <= c < |marks| && marks[c].Done? :: marks'[c].Done?
    ensures Chain(b, root, marks', s, next)
  {
    if s != [] {
      ChainKept(b, root, marks, marks', s[..|s| - 1], s[|s| - 1].coder);
    }
  }

  function PathOf(s: seq<Frame>): (p: seq<nat>)
    ensures |p| == |s|
  {
    seq(|s|, i requires 0 <= i < |s| => s[i].coder)
  }

  lemma {:induction false} ChainPath(b: Block, root: nat, marks: seq<Mark>, s: seq<Frame>, next: nat)
    requires RangeChecked(b) && Chain(b, root, marks, s, next) && next < |b.coders|
    ensures Path(b, PathOf(s) + [next]) && (PathOf(s) + [next])[0] == root
  {
    if s != [] {
      var f, front := s[|s| - 1], s[..|s| - 1];
      ChainPath(b, root, marks, front, f.coder);
      assert PathOf(s) == PathOf(front) + [f.coder];
      assert Edge(b, f.coder, next);
    }
  }

  // Meeting a coder that is on the path is a cycle behind the root.
  lemma MeetIsCycle(b: Block, root: nat, marks: seq<Mark>, s: seq<Frame>, c: nat)
    requires RangeChecked(b) && Chain(b, root, marks, s, c) && c < |b.coders| && c in OnStack(s)
    ensures CycleBehind(b, root)
  {
    ChainPath(b, root, marks, s, c);
    var whole := PathOf(s) + [c];
    var f :| f in s && f.coder == c;
    var i :| 0 <= i < |s| && s[i] == f;
    assert whole[i] == c;
    var p, q := whole[..i + 1], whole[i..];
    assert Path(b, q) && |q| > 1 && q[0] == q[|q| - 1] == c;
    assert Joins(b, p, root, c);
  }

  lemma DoneBelow(b: Block, marks: seq<Mark>, done: seq<nat>, k: nat, c: nat, d: nat)
    requires RangeChecked(b) && DoneOrder(b, marks, done) && k <= |done|
    requires c in done[..k] && Edge(b, c, d)
    ensures d in done[..k]
  {
    var j :| 0 <= j < k && done[j] == c;
    var t :| 0 <= t < b.coders[c].numIn && Target(b, c, t) == Some(d);
    assert d in done[..j];
  }

  lemma {:induction false} PathBelow(b: Block, marks: seq<Mark>, done: seq<nat>, k: nat, p: seq<nat>, i: nat)
    requires RangeChecked(b) && DoneOrder(b, marks, done) && k <= |done|
    requires Path(b, p) && i < |p| && p[0] in done[..k]
    ensures p[i] in done[..k]
  {
    if i > 0 {
      PathBelow(b, marks, done, k, p, i - 1);
      DoneBelow(b, marks, done, k, p[i - 1], p[i]);
    }
  }

  function FirstAt(done: seq<nat>, c: nat): (k: nat)
    requires c in done
    ensures k < |done| && done[k] == c && c !in done[..k]
  {
    if done[0] == c then 0 else
    assert c in done[1..];
    var k := 1 + FirstAt(done[1..], c);
    assert done[..k] == [done[0]] + done[1..][..k - 1];
    k
  }

  // Once the root is done there is no cycle behind it.
  lemma DoneIsAcyclic(b: Block, root: nat, marks: seq<Mark>, done: seq<nat>)
    requires RangeChecked(b) && DoneOrder(b, marks, done) && root < |b.coders| && marks[root].Done?
    ensures !CycleBehind(b, root)
  {
    forall p, q | |q| > 1 && q[0] == q[|q| - 1] && Path(b, q) && Joins(b, p, root, q[0])
      ensures false
    {
      assert done[..|done|] == done;
      PathBelow(b, marks, done, |done|, p, |p| - 1);
      var k := FirstAt(done, q[0]);
      assert Edge(b, q[1 - 1], q[1]);
      var t :| 0 <= t < b.coders[q[0]].numIn && Target(b, q[0], t) == Some(q[1]);
      assert q[1] in done[..k];
      var rest := q[1..];
      assert Path(b, rest);
      PathBelow(b, marks, done, k, rest, |rest| - 1);
    }
  }

  // A coder found done already: its reader has one input more done.
  lemma Skip(b: Block, root: nat, marks: seq<Mark>, front: seq<Frame>, c: nat, done: seq<nat>)
    requires RangeChecked(b) && DoneOrder(b, marks, done) && root < |b.coders| && c < |b.coders|
    requires Chain(b, root, marks, front, c) && PathMarks(marks, OnStack(front)) && marks[c].Done?
    ensures Walking(b, root, marks, front, done)
  {
    if front != [] {
      var f, rest := front[|front| - 1], front[..|front| - 1];
      assert OnStack(front) == OnStack(rest) + {f.coder};
    }
  }

  // A coder first met is entered.
  lemma Enter(b: Block, root: nat, marks: seq<Mark>, front: seq<Frame>, c: nat, done: seq<nat>)
    requires RangeChecked(b) && DoneOrder(b, marks, done) && c < |b.coders|
    requires Chain(b, root, marks, front, c) && PathMarks(marks, OnStack(front)) && marks[c].Unseen?
    ensures var marks' := marks[c := OnPath];
      DoneOrder(b, marks', done) && Chain(b, root, marks', front, c) && Inside(b, root, marks', front, c, 0)
  {
    ChainKept(b, root, marks, marks[c := OnPath], front, c);
  }

  // The next input of the coder is walked: into another coder or not.
  lemma Advance(b: Block, root: nat, marks: seq<Mark>, front: seq<Frame>, c: nat, step: nat, done: seq<nat>)
    requires RangeChecked(b) && DoneOrder(b, marks, done) && root < |b.coders| && c < |b.coders|
    requires Chain(b, root, marks, front, c) && Inside(b, root, marks, front, c, step) && step < b.coders[c].numIn
    ensures var s := front + [Frame(c, step + 1)];
      match Target(b, c, step)
      case None => Walking(b, root, marks, s, done)
      case Some(d) => Walking(b, root, marks, s + [Frame(d, 0)], done)
  {
    var s := front + [Frame(c, step + 1)];
    assert s[..|s| - 1] == front && OnStack(s) == OnStack(front) + {c};
    match Target(b, c, step)
    case None =>
    case Some(d) =>
      var r := s + [Frame(d, 0)];
      assert r[..|r| - 1] == s;
  }

  // All inputs walked: the coder is done.
  lemma Leave(b: Block, root: nat, marks: seq<Mark>, front: seq<Frame>, c: nat, done: seq<nat>)
    requires RangeChecked(b) && DoneOrder(b, marks, done) && root < |b.coders| && c < |b.coders|
    requires Chain(b, root, marks, front, c) && Inside(b, root, marks, front, c, b.coders[c].numIn)
    ensures Walking(b, root, marks[c := Done], front, done + [c])
  {
    hide Target;
    ChainKept(b, root, marks, marks[c := Done], front, c);
    OneMoreDone(b, marks, done, c, OnStack(front));
    hide DoneOrder;
    if front != [] {
      var f, rest := front[|front| - 1], front[..|front| - 1];
      assert OnStack(front) == OnStack(rest) + {f.coder};
    }
  }

  lemma OneMoreDone(b: Block, marks: seq<Mark>, done: seq<nat>, c: nat, on: set<nat>)
    requires RangeChecked(b) && DoneOrder(b, marks, done) && c < |b.coders| && InputsDone(b, marks, c, b.coders[c].numIn)
    requires c !in on && PathMarks(marks, on + {c})
    ensures DoneOrder(b, marks[c := Done], done + [c]) && PathMarks(marks[c := Done], on)
  {
    hide Target;
    var done' := done + [c];
    forall k, t | 0 <= k < |done'| && 0 <= t < b.coders[done'[k]].numIn && Target(b, done'[k], t).Some?
      ensures Target(b, done'[k], t).value in done'[..k]
    {
      if k < |done| {
        assert done'[..k] == done[..k];
      } else {
        assert done'[..k] == done;
      }
    }
  }

  // Rounds still to come: every stacked input, and every coder not yet seen.
  function Weight(b: Block, s: seq<Frame>): nat {
    if s == [] then 0 else
    var f := s[|s| - 1];
    Weight(b, s[..|s| - 1]) +
    (if f.step == 0 || f.coder >= |b.coders| || b.coders[f.coder].numIn < f.step then 1
     else 2 * (b.coders[f.coder].numIn - f.step) + 2)
  }

  function UnseenIn(marks: seq<Mark>): nat {
    if marks == [] then 0 else UnseenIn(marks[1..]) + (if marks[0].Unseen? then 1 else 0)
  }

  lemma {:induction false} SeenOne(marks: seq<Mark>, c: nat, m: Mark)
    requires c < |marks| && !m.Unseen?
    ensures UnseenIn(marks[c := m]) == UnseenIn(marks) - (if marks[c].Unseen? then 1 else 0)
  {
    if c == 0 {
      assert marks[c := m][1..] == marks[1..];
    } else {
      assert marks[c := m][1..] == marks[1..][c - 1 := m];
      SeenOne(marks[1..], c - 1, m);
    }
  }

  lemma WeightPush(b: Block, s: seq<Frame>, f: Frame)
    ensures Weight(b, s + [f]) == Weight(b, s) + Weight(b, [f])
  {
    assert (s + [f])[..|s|] == s && [f][..0] == [];
  }

  lemma TopOf(b: Block, root: nat, marks: seq<Mark>, stack: seq<Frame>, done: seq<nat>)
    requires RangeChecked(b) && Walking(b, root, marks, stack, done) && stack != []
    ensures
      var f, front := stack[|stack| - 1], stack[..|stack| - 1];
      && DoneOrder(b, marks, done) && f.coder < |b.coders| == |marks| && root < |b.coders|
      && Chain(b, root, marks, front, f.coder)
      && (f.step == 0 ==> PathMarks(marks, OnStack(front)))
      && (f.step > 0 ==> Inside(b, root, marks, front, f.coder, f.step) && f.step <= b.coders[f.coder].numIn)
  {
  }

  lemma MarkedOn(marks: seq<Mark>, front: seq<Frame>, c: nat)
    requires PathMarks(marks, OnStack(front)) && c < |marks| && marks[c].OnPath?
    ensures c in OnStack(front)
  {
  }

  // What one input of a coder adds to the stack.
  method Descend(b: Block, owners: seq<nat>, f: Frame, stack: seq<Frame>) returns (s: seq<Frame>)
    requires RangeChecked(b) && owners == Owners(b.coders)
    requires f.coder < |b.coders| && f.step < b.coders[f.coder].numIn
    ensures s == stack + [Frame(f.coder, f.step + 1)] +
                 (match Target(b, f.coder, f.step) case None => [] case Some(d) => [Frame(d, 0)])
    ensures Weight(b, s) <= Weight(b, stack) + 2 * (b.coders[f.coder].numIn - f.step) + 1
  {
    var firstIn := FirstInOf(b, f.coder);
    WeightPush(b, stack, Frame(f.coder, f.step + 1));
    s := stack + [Frame(f.coder, f.step + 1)];
    var bp := FindIn(b.bindPairs, firstIn + f.step);
    if bp.Some? {
      WeightPush(b, s, Frame(owners[bp.value.outIndex], 0));
      s := s + [Frame(owners[bp.value.outIndex], 0)];
    }
  }

  // A coder come to anew: on the path, done, or to be entered.
  method Meet(b: Block, root: nat, marks: seq<Mark>, front: seq<Frame>, c: nat, ghost done: seq<nat>)
    returns (met: Mark, now: seq<Mark>)
    requires RangeChecked(b) && DoneOrder(b, marks, done) && root < |b.coders| == |marks| && c < |b.coders|
    requires Chain(b, root, marks, front, c) && PathMarks(marks, OnStack(front))
    ensures met == marks[c] && |now| == |marks|
    ensures met.OnPath? ==> CycleBehind(b, root)
    ensures met.Done? ==> Walking(b, root, marks, front, done) && now == marks
    ensures met.Unseen? ==> DoneOrder(b, now, done) && Chain(b, root, now, front, c) && Inside(b, root, now, front, c, 0)
    ensures met.Unseen? ==> UnseenIn(now) < UnseenIn(marks)
  {
    hide Walking, Chain, DoneOrder, Inside, PathMarks, OnStack, CycleBehind, RangeChecked;
    met, now := marks[c], marks;
    match met
    case OnPath =>
      MarkedOn(marks, front, c);
      MeetIsCycle(b, root, marks, front, c);
    case Done =>
      Skip(b, root, marks, front, c, done);
    case Unseen =>
      Enter(b, root, marks, front, c, done);
      SeenOne(marks, c, OnPath);
      now := marks[c := OnPath];
  }

  lemma WalkStarts(b: Block, root: nat)
    requires RangeChecked(b) && root < |b.coders|
    ensures Walking(b, root, seq(|b.coders|, _ => Unseen), [Frame(root, 0)], [])
  {
    var marks: seq<Mark> := seq(|b.coders|, _ => Unseen);
  }

  // One round of the walk: the topmost coder is entered, gone on with, or left.
  method WalkOn(b: Block, root: nat, owners: seq<nat>, marks: seq<Mark>, stack: seq<Frame>, ghost done: seq<nat>)
      returns (cyclic: bool, now: seq<Mark>, s: seq<Frame>, ghost d: seq<nat>)
    requires RangeChecked(b) && owners == Owners(b.coders) && stack != [] && Walking(b, root, marks, stack, done)
    ensures if cyclic then CycleBehind(b, root)
            else Walking(b, root, now, s, d)
                 && (UnseenIn(now) < UnseenIn(marks) || (UnseenIn(now) == UnseenIn(marks) && Weight(b, s) < Weight(b, stack)))
  {
    hide Walking, Chain, DoneOrder, Inside, PathMarks, OnStack, CycleBehind, RangeChecked, UnseenIn, Weight;
    TopOf(b, root, marks, stack, done);
    var f := stack[|stack| - 1];
    var front := stack[..|stack| - 1];
    WeightTop(b, front, f);
    assert stack == front + [f];
    now, d := marks, done;
    if f.step == 0 {
      var met;
      met, now := Meet(b, root, marks, front, f.coder, done);
      if met.OnPath? {
        return true, now, stack, done;
      }
      if met.Done? {
        return false, now, front, done;
      }
    }
    if f.step < b.coders[f.coder].numIn {
      Advance(b, root, now, front, f.coder, f.step, done);
      s := Descend(b, owners, f, front);
      assert front + [Frame(f.coder, f.step + 1)] + [] == front + [Frame(f.coder, f.step + 1)];
    } else {
      SeenOne(now, f.coder, Done);
      Leave(b, root, now, front, f.coder, done);
      s, now, d := front, now[f.coder := Done], done + [f.coder];
    }
    return false, now, s, d;
  }

  lemma WeightTop(b: Block, front: seq<Frame>, f: Frame)
    ensures Weight(b, front + [f]) > Weight(b, front)
    ensures f.coder < |b.coders| && 0 < f.step <= b.coders[f.coder].numIn ==>
      Weight(b, front + [f]) == Weight(b, front) + 2 * (b.coders[f.coder].numIn - f.step) + 2
  {
    assert (front + [f])[..|front|] == front;
  }

  // Depth first from `root` back through the bind pairs; meeting a coder of
  // the current path again is a cycle.
  method WalkBack(b: Block, root: nat, owners: seq<nat>) returns (cyclic: bool)
    requires RangeChecked(b) && root < |b.coders| && owners == Owners(b.coders)
    ensures cyclic <==> CycleBehind(b, root)
  {
    hide Walking, CycleBehind, RangeChecked, UnseenIn, Weight;
    var marks := seq(|b.coders|, _ => Unseen);
    var stack := [Frame(root, 0)];
    ghost var done: seq<nat> := [];
    WalkStarts(b, root);
    while stack != []
      invariant Walking(b, root, marks, stack, done)
      decreases UnseenIn(marks), Weight(b, stack)
    {
      cyclic, marks, stack, done := WalkOn(b, root, owners, marks, stack, done);
      if cyclic {
        return;
      }
    }
    Finished(b, root, marks, done);
    DoneIsAcyclic(b, root, marks, done);
    return false;
  }

  lemma Finished(b: Block, root: nat, marks: seq<Mark>, done: seq<nat>)
    requires RangeChecked(b) && Walking(b, root, marks, [], done)
    ensures DoneOrder(b, marks, done) && root < |b.coders| == |marks| && marks[root].Done?
  {
  }

  // The sum over the coders before `c` that the walk takes anew every round.
  method FirstInOf(b: Block, c: nat) returns (n: nat)
    requires c <= |b.coders|
    ensures n == FirstIn(b, c)
  {
    n := 0;
    for i := 0 to c
      invariant n == FirstIn(b, i)
    {
      InSumGrows(b.coders, i);
      n := n + b.coders[i].numIn;
    }
  }

  // --- Wiring ---

  ghost predicate PairsDistinct(pairs: seq<BindPair>, n: nat) {
    n <= |pairs| && forall i, j | 0 <= i < j < n ::
      pairs[i].inIndex != pairs[j].inIndex && pairs[i].outIndex != pairs[j].outIndex
  }

  method MarkPairs(b: Block, inBound: array<bool>, outBound: array<bool>) returns (ok: bool)
    requires RangeChecked(b) && inBound != outBound && inBound.Length == b.totalIn && outBound.Length == b.totalOut
    requires forall i | 0 <= i < inBound.Length :: !inBound[i]
    requires forall o | 0 <= o < outBound.Length :: !outBound[o]
    modifies inBound, outBound
    ensures ok <==> PairsDistinct(b.bindPairs, |b.bindPairs|)
    ensures ok ==> forall i | 0 <= i < inBound.Length :: inBound[i] <==> Fed(b.bindPairs, i)
    ensures ok ==> forall o | 0 <= o < outBound.Length :: outBound[o] <==> Bound(b.bindPairs, o)
  {
    var k := 0;
    while k < |b.bindPairs|
      invariant k <= |b.bindPairs| && PairsDistinct(b.bindPairs, k)
      invariant forall i | 0 <= i < inBound.Length :: inBound[i] <==> Fed(b.bindPairs[..k], i)
      invariant forall o | 0 <= o < outBound.Length :: outBound[o] <==> Bound(b.bindPairs[..k], o)
    {
      var p := b.bindPairs[k];
      assert p in b.bindPairs;
      if inBound[p.inIndex] || outBound[p.outIndex] {
        return false;
      }
      NoneBefore(b.bindPairs, k);
      inBound[p.inIndex], outBound[p.outIndex] := true, true;
      OneMore(b.bindPairs, k);
      k := k + 1;
    }
    assert b.bindPairs[..k] == b.bindPairs;
    return true;
  }

  lemma OneMore(pairs: seq<BindPair>, k: nat)
    requires k < |pairs|
    ensures forall i: nat :: Fed(pairs[..k + 1], i) <==> Fed(pairs[..k], i) || i == pairs[k].inIndex
    ensures forall o: nat :: Bound(pairs[..k + 1], o) <==> Bound(pairs[..k], o) || o == pairs[k].outIndex
  {
    var a, c := pairs[..k], pairs[..k + 1];
    assert c[k] == pairs[k] && forall j | 0 <= j < k :: c[j] == a[j];
    forall i: nat ensures Fed(c, i) <==> Fed(a, i) || i == pairs[k].inIndex {
      if Fed(a, i) {
        var j :| 0 <= j < k && a[j].inIndex == i;
        assert c[j].inIndex == i;
      }
      if Fed(c, i) && i != pairs[k].inIndex {
        var j :| 0 <= j < |c| && c[j].inIndex == i;
        assert a[j].inIndex == i;
      }
    }
    forall o: nat ensures Bound(c, o) <==> Bound(a, o) || o == pairs[k].outIndex {
      if Bound(a, o) {
        var j :| 0 <= j < k && a[j].outIndex == o;
        assert c[j].outIndex == o;
      }
      if Bound(c, o) && o != pairs[k].outIndex {
        var j :| 0 <= j < |c| && c[j].outIndex == o;
        assert a[j].outIndex == o;
      }
    }
  }

  lemma NoneBefore(pairs: seq<BindPair>, k: nat)
    requires k < |pairs| && PairsDistinct(pairs, k)
    requires !Fed(pairs[..k], pairs[k].inIndex) && !Bound(pairs[..k], pairs[k].outIndex)
    ensures PairsDistinct(pairs, k + 1)
  {
    forall i | 0 <= i < k
      ensures pairs[i].inIndex != pairs[k].inIndex && pairs[i].outIndex != pairs[k].outIndex
    {
      assert pairs[..k][i] == pairs[i];
    }
  }

  ghost predicate PackedOk(b: Block, n: nat) {
    n <= |b.packed| &&
    (forall i, j | 0 <= i < j < n :: b.packed[i] != b.packed[j]) &&
    forall i | 0 <= i < n :: b.packed[i] < b.totalIn && !Fed(b.bindPairs, b.packed[i])
  }

  method MarkPacked(b: Block, inBound: array<bool>) returns (e: Option<GraphError>)
    requires inBound.Length == b.totalIn
    requires forall i | 0 <= i < inBound.Length :: inBound[i] <==> Fed(b.bindPairs, i)
    modifies inBound
    ensures e.None? <==> PackedOk(b, |b.packed|)
    ensures e.None? ==> forall i | 0 <= i < inBound.Length :: inBound[i] <==> Fed(b.bindPairs, i) || i in b.packed
    ensures e.Some? ==> e.value.PackedRange? || e.value.PackedBound?
  {
    hide Fed;
    var k := 0;
    while k < |b.packed|
      invariant k <= |b.packed| && PackedOk(b, k)
      invariant forall i | 0 <= i < inBound.Length :: inBound[i] <==> Fed(b.bindPairs, i) || i in b.packed[..k]
    {
      var i := b.packed[k];
      if i >= b.totalIn {
        return Some(PackedRange);
      }
      if inBound[i] {
        return Some(PackedBound);
      }
      forall j | 0 <= j < k ensures b.packed[j] != i {
        assert b.packed[j] in b.packed[..k];
      }
      inBound[i] := true;
      assert b.packed[..k + 1] == b.packed[..k] + [i];
      k := k + 1;
    }
    assert b.packed[..k] == b.packed;
    return None;
  }

  // Flag `o` is the one that is clear.
  ghost predicate OnlyClear(flags: seq<bool>, o: nat) {
    o < |flags| && !flags[o] && forall j | 0 <= j < |flags| && j != o :: flags[j]
  }

  // How many flags are clear, and where the first of them is.
  method ClearFlags(flags: array<bool>) returns (count: nat, first: nat)
    ensures count == 0 <==> forall o | 0 <= o < flags.Length :: flags[o]
    ensures count > 0 ==> first < flags.Length && !flags[first]
    ensures count == 1 ==> OnlyClear(flags[..], first)
    ensures count != 1 ==> forall o: nat :: !OnlyClear(flags[..], o)
  {
    count, first := 0, 0;
    ghost var last := 0;
    for o := 0 to flags.Length
      invariant count == 0 ==> forall j | 0 <= j < o :: flags[j]
      invariant count > 0 ==> first <= last < o && !flags[first] && !flags[last]
      invariant count == 1 ==> forall j | 0 <= j < o && j != first :: flags[j]
      invariant count > 1 ==> first < last
    {
      if !flags[o] {
        if count == 0 {
          first := o;
        }
        last := o;
        count := count + 1;
      }
    }
    ghost var s := flags[..];
    assert count > 1 ==> !s[first] && !s[last];
  }

  // The outputs that are bound are flagged.
  ghost predicate OutsFlagged(b: Block, outs: seq<bool>) {
    |outs| == b.totalOut && forall o | 0 <= o < |outs| :: outs[o] <==> Bound(b.bindPairs, o)
  }

  lemma WiredNow(b: Block, ins: seq<bool>, outs: seq<bool>, out: nat)
    requires PairsDistinct(b.bindPairs, |b.bindPairs|) && PackedOk(b, |b.packed|)
    requires AllIn(b, ins)
    requires OutsFlagged(b, outs) && OnlyClear(outs, out)
    ensures Wired(b, out)
  {
    hide Fed, Bound;
    forall i | 0 <= i < b.totalIn ensures Fed(b.bindPairs, i) || i in b.packed {
      assert ins[i];
    }
    forall o | 0 <= o < b.totalOut ensures Bound(b.bindPairs, o) <==> o != out {
      assert outs[o] <==> o != out;
    }
  }

  lemma WiredParts(b: Block, out: nat)
    requires Wired(b, out)
    ensures PairsDistinct(b.bindPairs, |b.bindPairs|) && PackedOk(b, |b.packed|)
    ensures forall i | 0 <= i < b.totalIn :: Fed(b.bindPairs, i) || i in b.packed
  {
  }

  lemma NoneWired(b: Block, ins: seq<bool>)
    requires !PairsDistinct(b.bindPairs, |b.bindPairs|) || !PackedOk(b, |b.packed|) ||
             (|ins| == b.totalIn && exists i | 0 <= i < |ins| :: !ins[i] && !(Fed(b.bindPairs, i) || i in b.packed))
    ensures forall out: nat :: !Wired(b, out)
  {
    hide Wired, PairsDistinct, PackedOk, Fed;
    forall out: nat ensures !Wired(b, out) {
      if Wired(b, out) {
        WiredParts(b, out);
      }
    }
  }

  // Every input is bound or packed, and none twice.
  method CheckInputs(b: Block, inBound: array<bool>) returns (e: Option<GraphError>)
    requires inBound.Length == b.totalIn
    requires forall i | 0 <= i < inBound.Length :: inBound[i] <==> Fed(b.bindPairs, i)
    modifies inBound
    ensures e.Some? ==> !e.value.Cycle? && forall out: nat :: !Wired(b, out)
    ensures e.None? ==> PackedOk(b, |b.packed|) && AllIn(b, inBound[..])
  {
    hide Fed, Wired, PairsDistinct, PackedOk;
    e := MarkPacked(b, inBound);
    if e.Some? {
      NoneWired(b, []);
      return;
    }
    var missing, at := ClearFlags(inBound);
    if missing > 0 {
      assert !inBound[..][at];
      NoneWired(b, inBound[..]);
      return Some(Unaccounted);
    }
  }

  ghost predicate AllIn(b: Block, ins: seq<bool>) {
    |ins| == b.totalIn && forall i | 0 <= i < |ins| :: ins[i] && (ins[i] <==> Fed(b.bindPairs, i) || i in b.packed)
  }

  // The wiring half of the check: the output that is left, or what is wrong.
  method CheckWiring(b: Block) returns (r: Result<nat, GraphError>)
    requires RangeChecked(b)
    ensures r.Ok? ==> Wired(b, r.value)
    ensures r.Err? ==> !r.error.Cycle? && forall out: nat :: !Wired(b, out)
  {
    hide Fed, Bound, Wired, PairsDistinct, PackedOk, AllIn, OnlyClear;
    var inBound := new bool[b.totalIn](_ => false);
    var outBound := new bool[b.totalOut](_ => false);
    var distinct := MarkPairs(b, inBound, outBound);
    if !distinct {
      NoneWired(b, []);
      return Err(BoundTwice);
    }
    ghost var outs := outBound[..];
    assert OutsFlagged(b, outs);
    hide OutsFlagged;
    var e := CheckInputs(b, inBound);
    if e.Some? {
      return Err(e.value);
    }
    assert outBound[..] == outs;
    var count, first := ClearFlags(outBound);
    if count != 1 {
      assert outBound[..] == outs;
      forall o: nat ensures !OnlyClear(outs, o) {
        assert !OnlyClear(outBound[..], o);
      }
      NotOneLeft(b, outs);
      return Err(Outputs);
    }
    WiredNow(b, inBound[..], outs, first);
    return Ok(first);
  }

  lemma NotOneLeft(b: Block, flags: seq<bool>)
    requires OutsFlagged(b, flags) && forall o: nat :: !OnlyClear(flags, o)
    ensures forall out: nat :: !Wired(b, out)
  {
    hide Wired, OnlyClear, OutsFlagged;
    forall out: nat ensures !Wired(b, out) {
      if Wired(b, out) {
        LeavesOne(b, flags, out);
      }
    }
  }

  lemma LeavesOne(b: Block, flags: seq<bool>, out: nat)
    requires OutsFlagged(b, flags) && Wired(b, out)
    ensures OnlyClear(flags, out)
  {
    hide Bound;
  }

  // The coder of each output stream, as the check lists them.
  method ListOwners(b: Block) returns (owners: seq<nat>)
    ensures owners == Owners(b.coders)
  {
    owners := [];
    for ci := 0 to |b.coders|
      invariant owners == Owners(b.coders[..ci])
    {
      ghost var before := owners;
      for j := 0 to b.coders[ci].numOut
        invariant owners == before + seq(j, _ => ci)
      {
        owners := owners + [ci];
      }
      assert b.coders[..ci + 1][..ci] == b.coders[..ci];
    }
    assert b.coders[..|b.coders|] == b.coders;
  }

  // Accepts exactly the wirings that can be decoded.
  method ValidateCoderGraph(b: Block) returns (e: Option<GraphError>)
    requires RangeChecked(b)
    ensures e.None? <==> exists out: nat :: Decodable(b, out)
    ensures e == Some(Cycle) <==> exists out: nat :: Wired(b, out) && CycleBehind(b, Owners(b.coders)[out])
  {
    hide RangeChecked, CycleBehind;
    var r := CheckWiring(b);
    if r.Err? {
      assert !exists out: nat :: Decodable(b, out);
      return Some(r.error);
    }
    var owners := ListOwners(b);
    WiredRoot(b, r.value);
    var cyclic := WalkBack(b, owners[r.value], owners);
    forall out: nat | Wired(b, out) ensures out == r.value {
      OneOutput(b, out, r.value);
    }
    assert !cyclic ==> Decodable(b, r.value);
    return if cyclic then Some(Cycle) else None;
  }

  lemma WiredRoot(b: Block, out: nat)
    requires RangeChecked(b) && Wired(b, out)
    ensures out < |Owners(b.coders)|
  {
  }

  lemma OneOutput(b: Block, out: nat, out': nat)
    requires Wired(b, out) && Wired(b, out')
    ensures out == out'
  {
    assert !Bound(b.bindPairs, out) && !Bound(b.bindPairs, out');
  }
}
