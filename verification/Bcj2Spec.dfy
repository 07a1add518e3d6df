// BCJ2 decoding, one byte at a time: the reference that the buffered,
// interruptible decoder is proved against.
module Bcj2Spec {
  import opened Common

  const MAIN: nat := 0
  const CALL: nat := 1
  const JUMP: nat := 2
  const RC: nat := 3

  const TOP: int := 0x100_0000
  const BIT_MODEL_TOTAL: int := 2048
  const PROBS: nat := 258

  // The whole contents of the four input streams.
  type Streams = s: seq<seq<byte>> | |s| == 4 witness [[], [], [], []]

  datatype Mode =
    | Init(got: nat)             // reading the five range-coder start bytes
    | Plain                      // the next output byte is copied from MAIN
    | Fetch                      // a marker was accepted: an address word comes next
    | Emit(bytes: seq<byte>)     // converted address bytes still to be output
    | Failed                     // the stream is malformed

  datatype Machine = Machine(
    mode: Mode, prev: byte, ip: u32, range: u32, code: u32,
    probs: seq<nat>, pos: seq<nat>, out: seq<byte>)

  ghost predicate ProbsOk(probs: seq<nat>) {
    |probs| == PROBS && forall i | 0 <= i < PROBS :: 31 <= probs[i] <= 2017
  }

  // What every reachable state satisfies.
  ghost predicate Inv(S: Streams, m: Machine) {
    && |m.pos| == 4
    && (forall i | 0 <= i < 4 :: m.pos[i] <= |S[i]|)
    && ProbsOk(m.probs)
    && (match m.mode
        case Init(got) => got <= 5 && (got == 0 ==> m.code == 0) && (got == 1 ==> m.code < 256)
        case Failed => true
        case Emit(bytes) => 1 <= |bytes| <= 4 && m.code < m.range && 253952 <= m.range
        case _ => m.code < m.range && 253952 <= m.range)
  }

  // A byte after `prev` that the encoder may have followed by an address.
  predicate Marker(prev: byte, b: byte) {
    b == 0xE8 || b == 0xE9 || (prev == 0x0F && 0x80 <= b < 0x90)
  }

  function ProbIndex(prev: byte, b: byte): (i: nat)
    ensures i < PROBS
  {
    if b == 0xE8 then 2 + prev else if b == 0xE9 then 1 else 0
  }

  function AddressStream(prev: byte): (i: nat)
    ensures i == CALL || i == JUMP
  {
    if prev == 0xE8 then CALL else JUMP
  }

  function WordBE(b: seq<byte>): u32
    requires |b| == 4
  {
    var b0: int, b1: int, b2: int, b3: int := b[0], b[1], b[2], b[3];
    ((b0 * 256 + b1) * 256 + b2) * 256 + b3
  }

  function BytesLE(v: u32): (b: seq<byte>)
    ensures |b| == 4
  {
    [v % 256, v / 256 % 256, v / 65536 % 256, v / 16777216 % 256]
  }

  function Raise(p: nat): nat
    requires p <= BIT_MODEL_TOTAL
  {
    p + (BIT_MODEL_TOTAL - p) / 32
  }

  function Lower(p: nat): nat {
    p - p / 32
  }

  // One byte shifted into the range coder.
  function Shift(S: Streams, m: Machine): Machine
    requires |m.pos| == 4 && m.pos[RC] < |S[RC]|
  {
    m.(range := m.range * 256 % TWO_32,
       code := (m.code * 256 + S[RC][m.pos[RC]]) % TWO_32,
       pos := m.pos[RC := m.pos[RC] + 1])
  }

  // The share of the range given to a zero bit of probability `p`.
  function Bound(range: u32, p: nat): nat {
    range / 2048 * p
  }

  // The adaptive binary decision at probability `i`.
  function Decide(m: Machine, i: nat): (r: Machine)
    requires ProbsOk(m.probs) && i < PROBS && m.code < m.range && TOP <= m.range
    ensures r.mode == m.mode && r.prev == m.prev && r.ip == m.ip && r.pos == m.pos && r.out == m.out
    ensures ProbsOk(r.probs) && r.code < r.range && 253952 <= r.range
  {
    var p := m.probs[i];
    var bound := Bound(m.range, p);
    BoundIsInside(m.range, p);
    if m.code < bound then
      m.(range := bound, probs := m.probs[i := Raise(p)])
    else
      m.(range := m.range - bound, code := m.code - bound, probs := m.probs[i := Lower(p)])
  }

  predicate Taken(m: Machine, i: nat)
    requires i < |m.probs|
  {
    m.code >= Bound(m.range, m.probs[i])
  }

  lemma BoundIsInside(range: u32, p: nat)
    requires 31 <= p <= 2017 && TOP <= range
    ensures 253952 <= Bound(range, p) <= range - 253952
  {
    var q := range / 2048;
    assert 8192 <= q && 2048 * q <= range;
    Times(q, 31, p);
    Times(q, p, 2017);
  }

  lemma Times(q: nat, a: nat, b: nat)
    requires a <= b
    ensures q * a <= q * b
  {
    assert q * b == q * a + q * (b - a);
  }

  // One main byte: copied out, and decided upon when it is a marker.
  function TakePlain(S: Streams, m: Machine): (r: Machine)
    requires Inv(S, m) && m.mode.Plain? && TOP <= m.range && m.pos[MAIN] < |S[MAIN]|
    ensures Inv(S, r)
  {
    var b := S[MAIN][m.pos[MAIN]];
    var moved := m.(prev := b, ip := (m.ip + 1) % TWO_32,
                    pos := m.pos[MAIN := m.pos[MAIN] + 1], out := m.out + [b]);
    if !Marker(m.prev, b) then moved
    else
      var i := ProbIndex(m.prev, b);
      Decide(moved, i).(mode := if Taken(m, i) then Fetch else Plain)
  }

  // One address word: the stored absolute address less the position after it.
  function TakeAddress(S: Streams, m: Machine): (r: Machine)
    requires Inv(S, m) && m.mode.Fetch?
    requires m.pos[AddressStream(m.prev)] + 4 <= |S[AddressStream(m.prev)]|
    ensures Inv(S, r)
  {
    var cj := AddressStream(m.prev);
    var at := m.pos[cj];
    var ip := (m.ip + 4) % TWO_32;
    var bytes := BytesLE((WordBE(S[cj][at..at + 4]) - ip) % TWO_32);
    m.(mode := Emit(bytes), prev := bytes[3], ip := ip, pos := m.pos[cj := at + 4])
  }

  // The stream without whose next bytes the machine cannot move.
  function Wants(m: Machine): Option<nat> {
    match m.mode
    case Init(got) => if (got == 1 && m.code != 0) || got >= 5 then None else Some(RC)
    case Plain => if m.range < TOP then Some(RC) else Some(MAIN)
    case Fetch => Some(AddressStream(m.prev))
    case _ => None
  }

  function Need(m: Machine): nat {
    if m.mode.Fetch? then 4 else 1
  }

  predicate Starved(S: Streams, m: Machine)
    requires |m.pos| == 4
  {
    match Wants(m)
    case Some(i) => m.pos[i] + Need(m) > |S[i]|
    case None => m.mode.Failed?
  }

  // The next address has been decided on, and some of its word is there, but
  // not all.
  predicate CutShort(S: Streams, m: Machine) {
    && m.mode.Fetch? && |m.pos| == 4
    && m.pos[AddressStream(m.prev)] < |S[AddressStream(m.prev)]| < m.pos[AddressStream(m.prev)] + 4
  }

  function Step(S: Streams, m: Machine): (r: Machine)
    requires Inv(S, m)
    ensures Inv(S, r)
  {
    if Starved(S, m) then m else
    match m.mode
    case Init(got) =>
      if got == 1 && m.code != 0 then m.(mode := Failed)
      else if got < 5 then
        m.(mode := Init(got + 1), code := (m.code * 256 + S[RC][m.pos[RC]]) % TWO_32,
           pos := m.pos[RC := m.pos[RC] + 1])
      else if m.code == 0xFFFF_FFFF then m.(mode := Failed)
      else m.(mode := Plain, range := 0xFFFF_FFFF)
    case Plain => if m.range < TOP then Shift(S, m) else TakePlain(S, m)
    case Fetch => TakeAddress(S, m)
    case Emit(bytes) =>
      m.(mode := if |bytes| == 1 then Plain else Emit(bytes[1..]), out := m.out + [bytes[0]])
    case Failed => m
  }

  function Flat(n: nat): (s: seq<nat>)
    ensures |s| == n && forall i | 0 <= i < n :: s[i] == 1024
  {
    if n == 0 then [] else Flat(n - 1) + [1024]
  }

  const START := Machine(Init(0), 0, 0, 0, 0, Flat(PROBS), [0, 0, 0, 0], [])

  // The state after `k` steps on streams `S`.
  function After(S: Streams, k: nat): (m: Machine)
    ensures Inv(S, m)
  {
    if k == 0 then START else Step(S, After(S, k - 1))
  }

  lemma AfterNext(S: Streams, k: nat)
    ensures After(S, k + 1) == Step(S, After(S, k))
  {
  }

  // Bound on the steps still possible: every step uses up input or output in hand.
  function Left(S: Streams, m: Machine): (n: int)
    requires Inv(S, m)
    ensures n >= 0
  {
    6 * (|S[CALL]| - m.pos[CALL] + |S[JUMP]| - m.pos[JUMP]) +
    (|S[MAIN]| - m.pos[MAIN]) + (|S[RC]| - m.pos[RC]) +
    (match m.mode case Init(_) => 2 case Emit(bytes) => 1 + |bytes| case Failed => 0 case _ => 1)
  }

  lemma StepUsesInput(S: Streams, m: Machine)
    requires Inv(S, m)
    ensures Starved(S, m) || Left(S, Step(S, m)) < Left(S, m)
  {
  }

  // The most steps a run can take.
  function Most(S: Streams): (n: nat) {
    Left(S, START)
  }

  // The bytes the four streams decode to.
  function Decoded(S: Streams): seq<byte> {
    After(S, Most(S)).out
  }

  lemma StarvedForever(S: Streams, j: nat, k: nat)
    requires j <= k && Starved(S, After(S, j))
    ensures After(S, k) == After(S, j)
  {
    if j < k {
      StarvedForever(S, j, k - 1);
    }
  }

  lemma {:induction false} RunsDry(S: Streams, k: nat)
    ensures Starved(S, After(S, k)) || k + Left(S, After(S, k)) <= Most(S)
  {
    if k > 0 {
      hide Step, Left, Starved, ProbsOk;
      RunsDry(S, k - 1);
      if Starved(S, After(S, k - 1)) {
        StarvedForever(S, k - 1, k);
      } else {
        StepUsesInput(S, After(S, k - 1));
      }
    }
  }

  // `b` has output and consumed at least what `a` had, and is no less started.
  ghost predicate Later(a: Machine, b: Machine) {
    |a.pos| == |b.pos| == 4 && a.out <= b.out && (!a.mode.Init? ==> !b.mode.Init?)
    && forall i | 0 <= i < 4 :: a.pos[i] <= b.pos[i]
  }

  lemma StepLater(S: Streams, m: Machine)
    requires Inv(S, m)
    ensures Later(m, Step(S, m))
  {
  }

  lemma LaterStill(a: Machine, b: Machine, c: Machine)
    requires Later(a, b) && Later(b, c)
    ensures Later(a, c)
  {
  }

  lemma {:induction false} RunLater(S: Streams, j: nat, k: nat)
    requires j <= k
    ensures Later(After(S, j), After(S, k))
    decreases k - j
  {
    hide Step, After, Inv, Later;
    if j == k {
      StepLater(S, After(S, j));
      Itself(After(S, j), Step(S, After(S, j)));
    } else {
      RunLater(S, j, k - 1);
      StepLater(S, After(S, k - 1));
      AfterNext(S, k - 1);
      LaterStill(After(S, j), After(S, k - 1), After(S, k));
    }
  }

  lemma Itself(a: Machine, b: Machine)
    requires Later(a, b)
    ensures Later(a, a)
  {
  }

  // Wherever a run stops, what it has output is a prefix of the one decoding.
  lemma OutputIsPrefix(S: Streams, k: nat)
    ensures After(S, k).out <= Decoded(S)
    ensures Starved(S, After(S, k)) ==> After(S, k).out == Decoded(S)
  {
    hide Step, After, ProbsOk;
    var n := Most(S);
    if Starved(S, After(S, k)) {
      if k <= n { StarvedForever(S, k, n); }
      else {
        RunLater(S, n, k);
        RunsDry(S, n);
        StepUsesInput(S, After(S, n));
        StarvedForever(S, n, k);
      }
    } else {
      RunsDry(S, k);
      RunLater(S, k, n);
    }
  }

  // Past its start bytes the range coder never degenerates, whatever the
  // input: one byte more always makes the range large enough again, nothing
  // wraps around, and the small ranges that mean "not started" are never met.
  lemma RangeCoderInvariant(S: Streams, k: nat)
    requires !After(S, k).mode.Init? && !After(S, k).mode.Failed?
    ensures var m := After(S, k);
      && ProbsOk(m.probs) && m.code < m.range && 253952 <= m.range
      && (m.range < TOP && m.pos[RC] < |S[RC]| ==>
          var n := Shift(S, m);
          && n.range == m.range * 256 && TOP <= n.range && n.code < n.range
          && n.code == m.code * 256 + S[RC][m.pos[RC]])
  {
    hide After;
    var m := After(S, k);
    if m.range < TOP && m.pos[RC] < |S[RC]| {
      ShiftRestores(S, m);
    }
  }

  lemma ShiftRestores(S: Streams, m: Machine)
    requires |m.pos| == 4 && m.pos[RC] < |S[RC]| && m.code < m.range && 253952 <= m.range < TOP
    ensures var n := Shift(S, m);
      && n.range == m.range * 256 && TOP <= n.range && n.code < n.range
      && n.code == m.code * 256 + S[RC][m.pos[RC]]
  {
  }

  lemma StepStarted(S: Streams, m: Machine)
    requires Inv(S, m) && !m.mode.Init? && !m.mode.Failed?
    ensures !Step(S, m).mode.Init? && !Step(S, m).mode.Failed?
  {
    hide ProbsOk;
  }

  lemma StartedRange(S: Streams, m: Machine)
    requires Inv(S, m) && !m.mode.Init? && !m.mode.Failed?
    ensures m.code < m.range && 253952 <= m.range
  {
    hide ProbsOk;
  }

  // Once started, the machine neither starts again nor fails, and its range is
  // never again one of those that stand for a start under way.
  lemma {:induction false} StartedForGood(S: Streams, j: nat, k: nat)
    requires j <= k && !After(S, j).mode.Init? && !After(S, j).mode.Failed?
    ensures var m := After(S, k); !m.mode.Init? && !m.mode.Failed? && m.code < m.range && 253952 <= m.range
    decreases k
  {
    hide After, Inv, Step;
    if j < k {
      StartedForGood(S, j, k - 1);
      AfterNext(S, k - 1);
      StepStarted(S, After(S, k - 1));
    }
    StartedRange(S, After(S, k));
  }

  // The byte before the next one, and the position, are those of the output.
  ghost predicate Told(m: Machine) {
    match m.mode
    case Init(_) => m.out == [] && m.prev == 0 && m.ip == 0
    case Plain => m.ip == |m.out| % TWO_32 && m.prev == if m.out == [] then 0 else m.out[|m.out| - 1]
    case Fetch => m.ip == |m.out| % TWO_32 && m.out != [] && m.prev == m.out[|m.out| - 1]
    case Emit(bytes) => bytes != [] && m.ip == (|m.out| + |bytes|) % TWO_32 && m.prev == bytes[|bytes| - 1]
    case Failed => true
  }

  lemma NextPosition(n: nat, k: nat)
    ensures (n % TWO_32 + k) % TWO_32 == (n + k) % TWO_32
  {
  }

  lemma FetchTold(S: Streams, m: Machine)
    requires Inv(S, m) && Told(m) && m.mode.Fetch? && !Starved(S, m)
    ensures Told(Step(S, m))
  {
    hide ProbsOk, BytesLE, WordBE;
    NextPosition(|m.out|, 4);
  }

  lemma PlainTold(S: Streams, m: Machine)
    requires Inv(S, m) && Told(m) && m.mode.Plain? && !Starved(S, m)
    ensures Told(Step(S, m))
  {
    hide ProbsOk, BytesLE, WordBE, Bound, Taken;
    NextPosition(|m.out|, 1);
  }

  lemma StepTold(S: Streams, m: Machine)
    requires Inv(S, m) && Told(m)
    ensures Told(Step(S, m))
  {
    hide ProbsOk, BytesLE, WordBE, Starved, Shift, TakePlain, TakeAddress;
    if !Starved(S, m) {
      if m.mode.Plain? {
        PlainTold(S, m);
      } else if m.mode.Fetch? {
        FetchTold(S, m);
      }
    }
  }

  lemma {:induction false} AlwaysTold(S: Streams, k: nat)
    ensures Told(After(S, k))
  {
    hide Step, Told;
    if k > 0 {
      AlwaysTold(S, k - 1);
      StepTold(S, After(S, k - 1));
    } else {
      StartTold();
    }
  }

  lemma StartTold()
    ensures Told(START)
  {
  }

  // An address goes behind the byte put out last. Behind 0xE8 it is taken from
  // the second stream, behind any other byte from the third, and no other
  // stream is touched; the position is that of the output.
  lemma AddressComesFrom(S: Streams, k: nat)
    requires After(S, k).mode.Fetch? && !Starved(S, After(S, k))
    ensures var m, n := After(S, k), After(S, k + 1);
      && m.out != [] && n.out == m.out && n.mode.Emit? && |n.mode.bytes| == 4
      && var j := if m.out[|m.out| - 1] == 0xE8 then 1 else 2;
      && n.pos == m.pos[j := m.pos[j] + 4] && n.pos[j] <= |S[j]|
      && (WordLE(n.mode.bytes) + |m.out| + 4) % TWO_32 == WordBE(S[j][m.pos[j]..m.pos[j] + 4])
  {
    AlwaysTold(S, k);
    AfterNext(S, k);
    var m := After(S, k);
    FetchTells(S, m);
    hide After, Inv, Step, WordLE, WordBE, Starved;
    SamePlace(WordLE(Step(S, m).mode.bytes), |m.out|);
  }

  lemma FetchTells(S: Streams, m: Machine)
    requires Inv(S, m) && m.mode.Fetch? && !Starved(S, m)
    ensures var n, j := Step(S, m), if m.prev == 0xE8 then 1 else 2;
      && n.out == m.out && n.mode.Emit? && |n.mode.bytes| == 4
      && m.pos[j] + 4 <= |S[j]| && n.pos == m.pos[j := m.pos[j] + 4]
      && (WordLE(n.mode.bytes) + (m.ip + 4) % TWO_32) % TWO_32 == WordBE(S[j][m.pos[j]..m.pos[j] + 4])
  {
    AddressIsRelative(S, m);
    hide ProbsOk, WordLE, WordBE, BytesLE;
  }

  lemma SamePlace(w: int, n: nat)
    ensures (w + (n % TWO_32 + 4) % TWO_32) % TWO_32 == (w + n + 4) % TWO_32
  {
    assert (n % TWO_32 + 4) % TWO_32 == (n + 4) % TWO_32;
    assert n + 4 == (n + 4) / TWO_32 * TWO_32 + (n + 4) % TWO_32;
    assert w + n + 4 == (w + (n + 4) % TWO_32) + (n + 4) / TWO_32 * TWO_32;
  }

  // The output of a fetched word, read back little-endian and made absolute
  // again by the position behind it, is the stored big-endian word.
  lemma AddressIsRelative(S: Streams, m: Machine)
    requires Inv(S, m) && m.mode.Fetch?
    requires m.pos[AddressStream(m.prev)] + 4 <= |S[AddressStream(m.prev)]|
    ensures var cj := AddressStream(m.prev);
      var r := TakeAddress(S, m);
      && r.mode.Emit? && |r.mode.bytes| == 4
      && (WordLE(r.mode.bytes) + r.ip) % TWO_32 == WordBE(S[cj][m.pos[cj]..m.pos[cj] + 4])
  {
    var cj := AddressStream(m.prev);
    var word := WordBE(S[cj][m.pos[cj]..m.pos[cj] + 4]);
    var ip := (m.ip + 4) % TWO_32;
    LittleEndian((word - ip) % TWO_32);
    Undone(word, ip);
  }

  function WordLE(b: seq<byte>): int
    requires |b| == 4
  {
    var b0: int, b1: int, b2: int, b3: int := b[0], b[1], b[2], b[3];
    b0 + 256 * (b1 + 256 * (b2 + 256 * b3))
  }

  lemma LittleEndian(v: u32)
    ensures WordLE(BytesLE(v)) == v
  {
    var v1: nat, v2: nat, v3: nat := v / 256, v / 65536, v / 16777216;
    assert v2 == v1 / 256;
    assert v3 == v2 / 256;
    assert v == v % 256 + 256 * v1;
    assert v1 == v1 % 256 + 256 * v2;
    assert v2 == v2 % 256 + 256 * v3;
    assert v3 % 256 == v3;
  }

  lemma Undone(word: u32, ip: u32)
    ensures ((word - ip) % TWO_32 + ip) % TWO_32 == word
  {
    assert (word - ip) % TWO_32 == if word >= ip then word - ip else word - ip + TWO_32;
  }
}
