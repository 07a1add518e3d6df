// A reference encoder for BCJ2. What it makes of any bytes, converting any of
// the addresses it may, decodes to those bytes again.
module Bcj2Encode {
  import opened Common
  import opened Bcj2Spec
  import Bcj2
  import Bcj2Sync
  import Numbers

  // What has been encoded. The range coder's `low` is kept whole, so that
  // nothing is ever carried; `shifts` bytes have left its 32 bits.
  datatype Coding = Coding(main: seq<byte>, call: seq<byte>, jump: seq<byte>,
                           low: nat, range: nat, shifts: nat, probs: seq<nat>)

  function Nothing(): Coding {
    Coding([], [], [], 0, 0xFFFF_FFFF, 0, seq(258, _ => 1024))
  }

  ghost predicate Ready(e: Coding) {
    && 0x100_0000 <= e.range < 0x1_0000_0000
    && |e.probs| == 258 && forall i | 0 <= i < 258 :: 31 <= e.probs[i] <= 2017
  }

  // CALL, JUMP, and the conditional jumps of two bytes.
  predicate Convertible(prev: byte, b: byte) {
    b == 0xE8 || b == 0xE9 || (prev == 0x0F && 0x80 <= b <= 0x8F)
  }

  // A CALL is decided upon by the byte before it.
  function Slot(prev: byte, b: byte): (s: nat)
    ensures s < 258
  {
    if b == 0xE8 then 2 + prev else if b == 0xE9 then 1 else 0
  }

  function Share(range: nat, p: nat): nat {
    range / 2048 * p
  }

  // One decision: the lower part of the range stands for "not converted".
  function Decision(e: Coding, slot: nat, bit: bool): Coding
    requires slot < |e.probs| && e.probs[slot] <= 2048
  {
    var p := e.probs[slot];
    var share := Share(e.range, p);
    if bit then e.(low := e.low + share, range := if e.range > share then e.range - share else 0, probs := e.probs[slot := p - p / 32])
    else e.(range := share, probs := e.probs[slot := p + (2048 - p) / 32])
  }

  function Normal(e: Coding): Coding {
    if e.range < 0x100_0000 then e.(low := e.low * 256, range := e.range * 256, shifts := e.shifts + 1) else e
  }

  function LittleEnd(b: seq<byte>): nat
    requires |b| == 4
  {
    var b0: int, b1: int, b2: int, b3: int := b[0], b[1], b[2], b[3];
    b0 + 0x100 * b1 + 0x1_0000 * b2 + 0x100_0000 * b3
  }

  function BigEnd(v: u32): (b: seq<byte>)
    ensures |b| == 4
  {
    [v / 0x100_0000, v / 0x1_0000 % 256, v / 0x100 % 256, v % 256]
  }

  // The four bytes behind place `i`, as an address in the whole.
  function Target(x: seq<byte>, i: nat): u32
    requires i + 5 <= |x|
  {
    (LittleEnd(x[i + 1..i + 5]) + (i + 5)) % 0x1_0000_0000
  }

  // An address that follows a CALL has a stream of its own.
  function Address(e: Coding, b: byte, v: u32): Coding {
    if b == 0xE8 then e.(call := e.call + BigEnd(v)) else e.(jump := e.jump + BigEnd(v))
  }

  function Prev(x: seq<byte>, i: nat): byte
    requires i <= |x|
  {
    if i == 0 then 0 else x[i - 1]
  }

  // The rest of `x`, from place `i` on: `conv` says which addresses to convert.
  function Encode(x: seq<byte>, conv: nat -> bool, i: nat, e: Coding): Coding
    requires i <= |x| && Ready(e)
    decreases |x| - i
  {
    if i == |x| then e else
    var f := e.(main := e.main + [x[i]]);
    if !Convertible(Prev(x, i), x[i]) then Encode(x, conv, i + 1, f)
    else
      var bit := conv(i) && i + 5 <= |x|;
      var slot := Slot(Prev(x, i), x[i]);
      DecisionReady(f, slot, bit);
      var g := Normal(Decision(f, slot, bit));
      if bit then Encode(x, conv, i + 5, Address(g, x[i], Target(x, i))) else Encode(x, conv, i + 1, g)
  }

  // The bytes of `v`, the highest first.
  function Digits(v: nat, n: nat): (b: seq<byte>)
    ensures |b| == n
  {
    if n == 0 then [] else Digits(v / 256, n - 1) + [v % 256]
  }

  function StreamsOf(e: Coding): Streams {
    [e.main, e.call, e.jump, Digits(e.low, 5 + e.shifts)]
  }

  function Encoded(x: seq<byte>, conv: nat -> bool): Streams {
    StreamsOf(Encode(x, conv, 0, Nothing()))
  }

  // --- The range coder ---

  lemma DecisionReady(e: Coding, slot: nat, bit: bool)
    requires Ready(e) && slot < 258
    ensures var d := Decision(e, slot, bit);
      && 253952 <= d.range < 0x1_0000_0000 && Ready(Normal(d))
      && e.low <= d.low && d.low + d.range <= e.low + e.range
      && (bit ==> d.range == e.range - Share(e.range, e.probs[slot]))
  {
    BoundIsInside(e.range, e.probs[slot]);
  }

  lemma {:induction false} DigitAt(v: nat, n: nat, j: nat)
    requires j < n
    ensures Digits(v, n)[j] == Numbers.High(v, n - 1 - j) % 256
    decreases n
  {
    if j < n - 1 {
      DigitAt(v / 256, n - 1, j);
    }
  }

  // What the first bytes of the range coder's stream are worth, once `shifts`
  // bytes have left the 32 bits, when the whole is `f`.
  function Front(f: Coding, shifts: nat): nat
    requires shifts <= f.shifts
  {
    Numbers.High(f.low, f.shifts - shifts)
  }

  lemma FrontNext(f: Coding, shifts: nat)
    requires shifts < f.shifts
    ensures var b: int := Digits(f.low, 5 + f.shifts)[5 + shifts]; Front(f, shifts + 1) == 256 * Front(f, shifts) + b
  {
    Numbers.HighNext(f.low, f.shifts - shifts - 1);
    DigitAt(f.low, 5 + f.shifts, 5 + shifts);
  }

  // All that is encoded later stays within the range there is now, and behind
  // what is there in each stream.
  ghost predicate Beyond(e: Coding, f: Coding) {
    && e.shifts <= f.shifts && e.low <= Front(f, e.shifts) < e.low + e.range
    && e.main <= f.main && e.call <= f.call && e.jump <= f.jump
  }

  lemma BeyondNormal(e: Coding, f: Coding)
    requires Beyond(Normal(e), f)
    ensures Beyond(e, f)
  {
    if e.range < 0x100_0000 {
      FrontNext(f, e.shifts);
    }
  }

  lemma BeyondDecision(e: Coding, slot: nat, bit: bool, f: Coding)
    requires Ready(e) && slot < 258 && Beyond(Decision(e, slot, bit), f)
    ensures Beyond(e, f)
  {
    DecisionReady(e, slot, bit);
  }

  lemma BeyondAddress(e: Coding, b: byte, v: u32, f: Coding)
    requires Beyond(Address(e, b, v), f)
    ensures Beyond(e, f)
  {
  }

  lemma BeyondByte(e: Coding, b: byte, f: Coding)
    requires Beyond(e.(main := e.main + [b]), f)
    ensures Beyond(e, f) && |e.main| < |f.main| && f.main[|e.main|] == b
  {
  }

  lemma {:induction false} EncodeBeyond(x: seq<byte>, conv: nat -> bool, i: nat, e: Coding)
    requires i <= |x| && Ready(e)
    ensures Beyond(e, Encode(x, conv, i, e)) && Ready(Encode(x, conv, i, e))
    decreases |x| - i
  {
    hide Beyond, Decision, Normal, Address, Target, Slot, Convertible;
    var r := Encode(x, conv, i, e);
    if i == |x| {
      BeyondItself(e);
    } else {
      var f := e.(main := e.main + [x[i]]);
      if !Convertible(Prev(x, i), x[i]) {
        EncodeBeyond(x, conv, i + 1, f);
      } else {
        var bit, slot := conv(i) && i + 5 <= |x|, Slot(Prev(x, i), x[i]);
        DecisionReady(f, slot, bit);
        var d := Decision(f, slot, bit);
        if bit {
          AddressReady(Normal(d), x[i], Target(x, i));
          EncodeBeyond(x, conv, i + 5, Address(Normal(d), x[i], Target(x, i)));
          BeyondAddress(Normal(d), x[i], Target(x, i), r);
        } else {
          EncodeBeyond(x, conv, i + 1, Normal(d));
        }
        BeyondNormal(d, r);
        BeyondDecision(f, slot, bit, r);
      }
      BeyondByte(e, x[i], r);
    }
  }

  lemma BeyondItself(e: Coding)
    requires Ready(e)
    ensures Beyond(e, e)
  {
  }

  lemma AddressReady(e: Coding, b: byte, v: u32)
    requires Ready(e)
    ensures Ready(Address(e, b, v))
  {
  }

  // --- The decoder follows the encoder ---

  // The state of the decoder behind the first `i` bytes, where the encoder
  // stands at `e` and will have come to `f`.
  function At(x: seq<byte>, i: nat, mode: Mode, e: Coding, f: Coding): Machine
    requires i <= |x| && Beyond(e, f) && e.range < TWO_32
  {
    Machine(mode, Prev(x, i), i % TWO_32, e.range, Front(f, e.shifts) - e.low, e.probs,
            [|e.main|, |e.call|, |e.jump|, 5 + e.shifts], x[..i])
  }

  ghost predicate Bounded(e: Coding) {
    253952 <= e.range < TWO_32 && ProbsOk(e.probs)
  }

  lemma AtInv(x: seq<byte>, i: nat, mode: Mode, e: Coding, f: Coding)
    requires i <= |x| && Beyond(e, f) && Bounded(e) && (mode.Plain? || mode.Fetch?)
    ensures Inv(StreamsOf(f), At(x, i, mode, e, f))
  {
  }

  lemma CopyStep(x: seq<byte>, i: nat, e: Coding, f: Coding)
    requires i < |x| && Ready(e) && !Convertible(Prev(x, i), x[i]) && Beyond(e.(main := e.main + [x[i]]), f)
    ensures Beyond(e, f) && Inv(StreamsOf(f), At(x, i, Plain, e, f))
    ensures Step(StreamsOf(f), At(x, i, Plain, e, f)) == At(x, i + 1, Plain, e.(main := e.main + [x[i]]), f)
  {
    BeyondByte(e, x[i], f);
    AtInv(x, i, Plain, e, f);
    AtNext(x, i, Plain, e, e.(main := e.main + [x[i]]), f);
    hide Inv, Step, Digits, Front, Beyond;
    Bcj2Sync.TakeCopies(StreamsOf(f), At(x, i, Plain, e, f));
  }

  // A marker, in the terms of the decoder.
  lemma TakeDecides(S: Streams, m: Machine, b: byte)
    requires Inv(S, m) && m.mode.Plain? && TOP <= m.range && m.pos[MAIN] < |S[MAIN]| && b == S[MAIN][m.pos[MAIN]]
    requires Marker(m.prev, b)
    ensures var slot := ProbIndex(m.prev, b);
      var bound := Bound(m.range, m.probs[slot]);
      var moved := m.(prev := b, ip := (m.ip + 1) % TWO_32, pos := m.pos[MAIN := m.pos[MAIN] + 1], out := m.out + [b]);
      && 0 <= bound < m.range && 31 <= m.probs[slot] <= 2017
      && Step(S, m) ==
           if m.code < bound then moved.(range := bound, probs := m.probs[slot := Raise(m.probs[slot])])
           else moved.(mode := Fetch, range := m.range - bound, code := m.code - bound,
                       probs := m.probs[slot := Lower(m.probs[slot])])
  {
    BoundIsInside(m.range, m.probs[ProbIndex(m.prev, b)]);
  }

  // The decoder's code tells which part of the range the encoder took.
  lemma CodeDecides(e: Coding, slot: nat, bit: bool, f: Coding)
    requires Ready(e) && slot < 258 && Beyond(Decision(e, slot, bit), f)
    ensures var d, share, code := Decision(e, slot, bit), Bound(e.range, e.probs[slot]), Front(f, e.shifts) - e.low;
      && Beyond(e, f) && Bounded(d) && d.shifts == e.shifts && (code < share <==> !bit)
      && d == e.(low := d.low, range := d.range, probs := d.probs)
      && d.range == (if bit then e.range - share else share)
      && Front(f, d.shifts) - d.low == (if bit then code - share else code)
      && d.probs == e.probs[slot := if bit then Lower(e.probs[slot]) else Raise(e.probs[slot])]
  {
    DecisionReady(e, slot, bit);
    BeyondDecision(e, slot, bit, f);
    assert Share(e.range, e.probs[slot]) == Bound(e.range, e.probs[slot]);
    hide Share, Bound;
  }

  lemma SlotsMeet(prev: byte, b: byte)
    ensures Slot(prev, b) == ProbIndex(prev, b) && (Convertible(prev, b) <==> Marker(prev, b))
  {
  }

  // One main byte more, in the terms of the decoder's state.
  lemma AtNext(x: seq<byte>, i: nat, mode: Mode, e: Coding, d: Coding, f: Coding)
    requires i < |x| && Beyond(e, f) && Beyond(d, f) && e.range < TWO_32 && d.range < TWO_32
    requires d == e.(main := e.main + [x[i]], low := d.low, range := d.range, probs := d.probs)
    ensures var m := At(x, i, Plain, e, f);
      && m.pos[MAIN] < |f.main| && f.main[m.pos[MAIN]] == x[i]
      && At(x, i + 1, mode, d, f)
         == m.(mode := mode, prev := x[i], ip := (m.ip + 1) % TWO_32, pos := m.pos[MAIN := m.pos[MAIN] + 1],
               out := m.out + [x[i]], range := d.range, code := Front(f, d.shifts) - d.low, probs := d.probs)
  {
    hide Front;
    var m := At(x, i, Plain, e, f);
    assert x[..i] + [x[i]] == x[..i + 1];
    assert (i % TWO_32 + 1) % TWO_32 == (i + 1) % TWO_32;
    assert m.pos[MAIN := m.pos[MAIN] + 1] == [|e.main| + 1, |e.call|, |e.jump|, 5 + e.shifts];
  }

  lemma MarkerStep(x: seq<byte>, i: nat, e: Coding, bit: bool, f: Coding)
    requires i < |x| && Ready(e) && Convertible(Prev(x, i), x[i])
    requires Beyond(Decision(e.(main := e.main + [x[i]]), Slot(Prev(x, i), x[i]), bit), f)
    ensures var d := Decision(e.(main := e.main + [x[i]]), Slot(Prev(x, i), x[i]), bit);
      && Bounded(d) && Beyond(d, f) && Beyond(e, f) && Inv(StreamsOf(f), At(x, i, Plain, e, f))
      && Step(StreamsOf(f), At(x, i, Plain, e, f)) == At(x, i + 1, if bit then Fetch else Plain, d, f)
  {
    var b, slot := x[i], Slot(Prev(x, i), x[i]);
    var c := e.(main := e.main + [b]);
    CodeDecides(c, slot, bit, f);
    BeyondByte(e, b, f);
    AtInv(x, i, Plain, e, f);
    var S, m := StreamsOf(f), At(x, i, Plain, e, f);
    SlotsMeet(m.prev, b);
    AtNext(x, i, if bit then Fetch else Plain, e, Decision(c, slot, bit), f);
    hide Inv, Step, Decision, Bound, Beyond, Marker, Slot, ProbIndex, Front, Bounded, Digits, Prev;
    TakeDecides(S, m, b);
  }

  // A byte comes into the range coder where one has left the encoder's.
  lemma ShiftStep(x: seq<byte>, i: nat, e: Coding, f: Coding)
    requires i <= |x| && Bounded(e) && e.range < TOP && Beyond(Normal(e), f)
    ensures Ready(Normal(e)) && Beyond(e, f) && Inv(StreamsOf(f), At(x, i, Plain, e, f))
    ensures Step(StreamsOf(f), At(x, i, Plain, e, f)) == At(x, i, Plain, Normal(e), f)
  {
    BeyondNormal(e, f);
    AtInv(x, i, Plain, e, f);
    FrontNext(f, e.shifts);
    var S, m := StreamsOf(f), At(x, i, Plain, e, f);
    hide Inv, Digits, Front;
    assert Step(S, m) == Shift(S, m);
    ShiftRestores(S, m);
    assert m.pos[RC := m.pos[RC] + 1] == [|e.main|, |e.call|, |e.jump|, 5 + (e.shifts + 1)];
  }

  lemma BigEndBack(v: u32)
    ensures WordBE(BigEnd(v)) == v
  {
    var v1, v2, v3 := v / 256, v / 65536, v / 16777216;
    assert v2 == v1 / 256 && v3 == v2 / 256;
    assert v == v % 256 + 256 * v1 && v1 == v1 % 256 + 256 * v2 && v2 == v2 % 256 + 256 * v3;
  }

  lemma LittleEndBack(b: seq<byte>)
    requires |b| == 4
    ensures LittleEnd(b) < TWO_32 && BytesLE(LittleEnd(b)) == b
  {
    var b0: int, b1: int, b2: int, b3: int := b[0], b[1], b[2], b[3];
    var v := LittleEnd(b);
    assert v / 256 == b1 + 256 * b2 + 65536 * b3;
    assert v / 65536 == b2 + 256 * b3;
    assert v / 16777216 == b3;
  }

  // The address made relative again is the one there was.
  lemma TargetBack(x: seq<byte>, i: nat)
    requires i + 5 <= |x|
    ensures BytesLE((Target(x, i) - (i + 5) % TWO_32) % TWO_32) == x[i + 1..i + 5]
  {
    var w := LittleEnd(x[i + 1..i + 5]);
    LittleEndBack(x[i + 1..i + 5]);
    Relative(w, i + 5);
  }

  lemma Relative(w: nat, n: nat)
    requires w < TWO_32
    ensures ((w + n) % TWO_32 - n % TWO_32) % TWO_32 == w
  {
    var q, r := n / TWO_32, n % TWO_32;
    assert w + n == q * TWO_32 + (w + r);
    assert (w + n) % TWO_32 == (w + r) % TWO_32;
  }

  // Where the encoder put the address; the streams are counted from MAIN on.
  lemma WordThere(e: Coding, b: byte, v: u32, f: Coding)
    requires Beyond(Address(e, b, v), f)
    ensures var j, at := if b == 0xE8 then 1 else 2, if b == 0xE8 then |e.call| else |e.jump|;
      at + 4 <= |StreamsOf(f)[j]| && StreamsOf(f)[j][at..at + 4] == BigEnd(v)
  {
    hide Front, BigEnd;
    var g := Address(e, b, v);
    if b == 0xE8 {
      assert g.call[|e.call|..|e.call| + 4] == BigEnd(v);
    } else {
      assert g.jump[|e.jump|..|e.jump| + 4] == BigEnd(v);
    }
  }

  lemma TakesWord(S: Streams, m: Machine, j: nat, v: u32, bytes: seq<byte>)
    requires Inv(S, m) && m.mode.Fetch? && j == (if m.prev == 0xE8 then 1 else 2)
    requires m.pos[j] + 4 <= |S[j]| && S[j][m.pos[j]..m.pos[j] + 4] == BigEnd(v)
    requires bytes == BytesLE((v - (m.ip + 4) % TWO_32) % TWO_32)
    ensures Step(S, m) == m.(mode := Emit(bytes), prev := bytes[3], ip := (m.ip + 4) % TWO_32, pos := m.pos[j := m.pos[j] + 4])
  {
    BigEndBack(v);
    hide BytesLE, BigEnd, WordBE, ProbsOk;
  }

  // An address more, in the terms of the decoder's state.
  lemma AtFetched(x: seq<byte>, i: nat, e: Coding, v: u32, f: Coding)
    requires i + 5 <= |x| && Beyond(e, f) && Beyond(Address(e, x[i], v), f) && e.range < TWO_32
    ensures var m, j := At(x, i + 1, Fetch, e, f), if x[i] == 0xE8 then 1 else 2;
      At(x, i + 5, Plain, Address(e, x[i], v), f).(mode := Emit(x[i + 1..i + 5]), out := x[..i + 1])
      == m.(mode := Emit(x[i + 1..i + 5]), prev := x[i + 1..i + 5][3], ip := (m.ip + 4) % TWO_32, pos := m.pos[j := m.pos[j] + 4])
  {
    hide Front, BigEnd, Beyond;
    var g := Address(e, x[i], v);
    assert ((i + 1) % TWO_32 + 4) % TWO_32 == (i + 5) % TWO_32;
    var m := At(x, i + 1, Fetch, e, f);
    if x[i] == 0xE8 {
      assert m.pos[1 := m.pos[1] + 4] == [|g.main|, |g.call|, |g.jump|, 5 + g.shifts];
    } else {
      assert m.pos[2 := m.pos[2] + 4] == [|g.main|, |g.call|, |g.jump|, 5 + g.shifts];
    }
  }

  lemma AtFetch(x: seq<byte>, i: nat, e: Coding, f: Coding)
    requires i < |x| && Beyond(e, f) && e.range < TWO_32
    ensures var m := At(x, i + 1, Fetch, e, f);
      m.mode.Fetch? && m.prev == x[i] && m.ip == (i + 1) % TWO_32 && m.pos == [|e.main|, |e.call|, |e.jump|, 5 + e.shifts]
  {
  }

  // The word taken for an accepted marker is the one the encoder put there.
  lemma FetchStep(x: seq<byte>, i: nat, e: Coding, f: Coding)
    requires i + 5 <= |x| && Bounded(e) && Beyond(Address(e, x[i], Target(x, i)), f)
    ensures Beyond(e, f) && Inv(StreamsOf(f), At(x, i + 1, Fetch, e, f))
    ensures var g := Address(e, x[i], Target(x, i));
      Step(StreamsOf(f), At(x, i + 1, Fetch, e, f))
      == At(x, i + 5, Plain, g, f).(mode := Emit(x[i + 1..i + 5]), out := x[..i + 1])
  {
    var b, v := x[i], Target(x, i);
    BeyondAddress(e, b, v, f);
    AtInv(x, i + 1, Fetch, e, f);
    WordThere(e, b, v, f);
    TargetBack(x, i);
    AtFetch(x, i, e, f);
    AtFetched(x, i, e, v, f);
    assert ((i + 1) % TWO_32 + 4) % TWO_32 == (i + 5) % TWO_32;
    hide *;
    TakesWord(StreamsOf(f), At(x, i + 1, Fetch, e, f), if b == 0xE8 then 1 else 2, v, x[i + 1..i + 5]);
  }

  lemma NormalAddress(e: Coding, b: byte, v: u32)
    ensures Normal(Address(e, b, v)) == Address(Normal(e), b, v)
  {
  }

  // An address taken, and put out.
  lemma EmitSteps(x: seq<byte>, i: nat, g: Coding, f: Coding, k: nat)
    requires i + 5 <= |x| && Beyond(g, f) && g.range < TWO_32
    requires After(StreamsOf(f), k) == At(x, i + 5, Plain, g, f).(mode := Emit(x[i + 1..i + 5]), out := x[..i + 1])
    ensures After(StreamsOf(f), k + 4) == At(x, i + 5, Plain, g, f)
  {
    hide Inv, Step, After, Front, StreamsOf, Beyond, Prev;
    Bcj2Sync.EmitRun(StreamsOf(f), k, 4);
    assert x[..i + 1] + x[i + 1..i + 5] == x[..i + 5];
    assert x[i + 1..i + 5][..4] == x[i + 1..i + 5];
  }

  // The steps of the decoder for an address that was converted.
  lemma ConvertedSteps(x: seq<byte>, i: nat, e: Coding, d: Coding, f: Coding, k: nat)
    requires i + 5 <= |x| && Ready(e) && Convertible(Prev(x, i), x[i])
    requires d == Decision(e.(main := e.main + [x[i]]), Slot(Prev(x, i), x[i]), true)
    requires Beyond(Address(d, x[i], Target(x, i)), f) && Beyond(e, f) && Beyond(d, f)
    requires After(StreamsOf(f), k) == At(x, i, Plain, e, f)
    ensures Bounded(d) && Address(d, x[i], Target(x, i)).range < TWO_32
    ensures After(StreamsOf(f), k + 6) == At(x, i + 5, Plain, Address(d, x[i], Target(x, i)), f)
  {
    hide Inv, Step, After, Front, Digits, Beyond, Decision, Target, Prev, At, StreamsOf, Slot, Convertible, ProbsOk;
    var g := Address(d, x[i], Target(x, i));
    MarkerStep(x, i, e, true, f);
    hide Ready;
    AfterNext(StreamsOf(f), k);
    FetchStep(x, i, d, f);
    hide Address, Bounded;
    AfterNext(StreamsOf(f), k + 1);
    EmitSteps(x, i, g, f, k + 2);
  }

  // The decoder comes to where the encoder does.
  lemma {:induction false} Follow(x: seq<byte>, conv: nat -> bool, i: nat, e: Coding, k: nat) returns (n: nat)
    requires i <= |x| && Ready(e)
    requires var f := Encode(x, conv, i, e);
      Beyond(e, f) && After(StreamsOf(f), k) == At(x, i, Plain, e, f)
    ensures var f := Encode(x, conv, i, e);
      Beyond(f, f) && Ready(f) && After(StreamsOf(f), n) == At(x, |x|, Plain, f, f)
    decreases |x| - i
  {
    hide Beyond, Decision, Normal, Address, Target, Slot, Convertible, After, At, StreamsOf;
    var f := Encode(x, conv, i, e);
    if i == |x| {
      n := k;
    } else {
      var c := e.(main := e.main + [x[i]]);
      if !Convertible(Prev(x, i), x[i]) {
        EncodeBeyond(x, conv, i + 1, c);
        CopyStep(x, i, e, f);
        AfterNext(StreamsOf(f), k);
        n := Follow(x, conv, i + 1, c, k + 1);
      } else {
        var bit, slot := conv(i) && i + 5 <= |x|, Slot(Prev(x, i), x[i]);
        DecisionReady(c, slot, bit);
        var d := Decision(c, slot, bit);
        if bit {
          var v := Target(x, i);
          AddressReady(Normal(d), x[i], v);
          EncodeBeyond(x, conv, i + 5, Address(Normal(d), x[i], v));
          n := FollowConverted(x, i, e, f, k);
          n := Follow(x, conv, i + 5, Address(Normal(d), x[i], v), n);
        } else {
          EncodeBeyond(x, conv, i + 1, Normal(d));
          BeyondNormal(d, f);
          MarkerStep(x, i, e, false, f);
          AfterNext(StreamsOf(f), k);
          n := FollowNormal(x, i + 1, d, f, k + 1);
          n := Follow(x, conv, i + 1, Normal(d), n);
        }
      }
    }
  }

  lemma FollowNormal(x: seq<byte>, i: nat, e: Coding, f: Coding, k: nat) returns (n: nat)
    requires i <= |x| && Bounded(e) && Beyond(e, f) && Beyond(Normal(e), f)
    requires After(StreamsOf(f), k) == At(x, i, Plain, e, f)
    ensures Ready(Normal(e)) && After(StreamsOf(f), n) == At(x, i, Plain, Normal(e), f)
  {
    hide After, Beyond, Step, At, StreamsOf;
    n := k;
    if e.range < TOP {
      ShiftStep(x, i, e, f);
      AfterNext(StreamsOf(f), k);
      n := k + 1;
    }
  }

  lemma FollowConverted(x: seq<byte>, i: nat, e: Coding, f: Coding, k: nat) returns (n: nat)
    requires i + 5 <= |x| && Ready(e) && Convertible(Prev(x, i), x[i]) && Beyond(e, f)
    requires After(StreamsOf(f), k) == At(x, i, Plain, e, f)
    requires var d := Decision(e.(main := e.main + [x[i]]), Slot(Prev(x, i), x[i]), true);
      Beyond(Address(Normal(d), x[i], Target(x, i)), f)
    ensures var d := Decision(e.(main := e.main + [x[i]]), Slot(Prev(x, i), x[i]), true);
      var g := Address(Normal(d), x[i], Target(x, i));
      Ready(g) && After(StreamsOf(f), n) == At(x, i + 5, Plain, g, f)
  {
    hide After, Beyond, Step, At, StreamsOf, Decision, Normal, Target, Slot, Convertible;
    var slot := Slot(Prev(x, i), x[i]);
    var c := e.(main := e.main + [x[i]]);
    var d, v := Decision(c, slot, true), Target(x, i);
    DecisionReady(c, slot, true);
    NormalAddress(d, x[i], v);
    BeyondNormal(Address(d, x[i], v), f);
    BeyondAddress(d, x[i], v, f);
    ConvertedSteps(x, i, e, d, f, k);
    n := FollowNormal(x, i + 5, Address(d, x[i], v), f, k + 6);
  }

  lemma {:induction false} LowBytes(f: Coding, n: nat)
    requires Front(f, 0) < TWO_32
    ensures Numbers.High(f.low, f.shifts + n) <= Front(f, 0) && (n >= 4 ==> Numbers.High(f.low, f.shifts + n) == 0)
    ensures n == 1 ==> Numbers.High(f.low, f.shifts + n) < 0x100_0000
    ensures n == 2 ==> Numbers.High(f.low, f.shifts + n) < 0x1_0000
    ensures n == 3 ==> Numbers.High(f.low, f.shifts + n) < 0x100
  {
    if n > 0 {
      LowBytes(f, n - 1);
      Numbers.HighNext(f.low, f.shifts + (n - 1));
    }
  }

  lemma StartByte(S: Streams, j: nat, code: u32, next: u32)
    requires j < 5 <= |S[RC]| && (j == 1 ==> code == 0)
    requires After(S, j) == START.(mode := Init(j), code := code, pos := [0, 0, 0, j])
    requires var b: int := S[RC][j]; next == 256 * code + b
    ensures After(S, j + 1) == START.(mode := Init(j + 1), code := next, pos := [0, 0, 0, j + 1])
  {
    AfterNext(S, j);
    hide After, ProbsOk;
    assert [0, 0, 0, j][RC := j + 1] == [0, 0, 0, j + 1];
  }

  // The start bytes are the first of the encoder's low end, and the very first
  // of them is zero.
  lemma {:induction false} StartBytes(f: Coding, j: nat)
    requires j <= 5 && Front(f, 0) < 0xFFFF_FFFF
    ensures Numbers.High(f.low, f.shifts + (5 - j)) <= Front(f, 0)
    ensures After(StreamsOf(f), j)
         == START.(mode := Init(j), code := Numbers.High(f.low, f.shifts + (5 - j)), pos := [0, 0, 0, j])
  {
    hide After, Digits, Inv, Step, Flat, Numbers.High, Front;
    LowBytes(f, 5 - j);
    if j > 0 {
      StartBytes(f, j - 1);
      LowBytes(f, 6 - j);
      DigitAt(f.low, 5 + f.shifts, j - 1);
      Numbers.HighNext(f.low, f.shifts + (5 - j));
      StartByte(StreamsOf(f), j - 1, Numbers.High(f.low, f.shifts + (6 - j)), Numbers.High(f.low, f.shifts + (5 - j)));
    } else {
      AtStart(StreamsOf(f));
    }
  }

  lemma AtStart(S: Streams)
    ensures After(S, 0) == START.(mode := Init(0), code := 0, pos := [0, 0, 0, 0])
  {
  }

  lemma Started(x: seq<byte>, f: Coding)
    requires Beyond(Nothing(), f)
    ensures After(StreamsOf(f), 6) == At(x, 0, Plain, Nothing(), f)
  {
    StartBytes(f, 5);
    AfterNext(StreamsOf(f), 5);
    var m := After(StreamsOf(f), 5);
    hide After, Digits;
    assert START.probs == Nothing().probs;
  }

  lemma NothingReady()
    ensures Ready(Nothing())
  {
  }

  // Where the decoder ends: all is put out, all four streams are used up, and
  // the range coder is at its end.
  ghost predicate Ended(S: Streams, m: Machine, x: seq<byte>) {
    && m.mode.Plain? && TOP <= m.range && m.code == 0 && m.out == x
    && m.pos == [|S[0]|, |S[1]|, |S[2]|, |S[3]|] && Starved(S, m)
  }

  lemma EncodedEnds(x: seq<byte>, conv: nat -> bool) returns (n: nat)
    ensures Ended(Encoded(x, conv), After(Encoded(x, conv), n), x)
  {
    hide After, Encode;
    NothingReady();
    EncodeBeyond(x, conv, 0, Nothing());
    var f := Encode(x, conv, 0, Nothing());
    Started(x, f);
    n := Follow(x, conv, 0, Nothing(), 6);
    assert x[..|x|] == x;
  }

  // Whatever the bytes, and whichever addresses are converted: they come back.
  lemma RoundTrip(x: seq<byte>, conv: nat -> bool)
    ensures Decoded(Encoded(x, conv)) == x
  {
    hide Encoded, After, Decoded;
    var n := EncodedEnds(x, conv);
    OutputIsPrefix(Encoded(x, conv), n);
  }

  // --- The reader over what was encoded ---

  // With a step, the machine puts a byte out, or is about to.
  lemma StepGrows(S: Streams, m: Machine)
    requires Inv(S, m) && !Starved(S, m) && !m.mode.Init?
    ensures m.mode.Plain? && TOP <= m.range ==> |Step(S, m).out| == |m.out| + 1
    ensures m.mode.Emit? ==> |Step(S, m).out| == |m.out| + 1
    ensures m.mode.Fetch? ==> Step(S, m).mode.Emit? && Step(S, m).out == m.out
    ensures m.mode.Plain? && m.range < TOP ==>
      var n := Step(S, m); n.mode.Plain? && TOP <= n.range && n.out == m.out && n == Shift(S, m)
    ensures !m.mode.Failed?
  {
    hide ProbsOk;
    if m.mode.Plain? && m.range < TOP {
      ShiftRestores(S, m);
    }
  }

  lemma NoLonger(x: seq<byte>, conv: nat -> bool, k: nat)
    ensures After(Encoded(x, conv), k).out <= x
    ensures Starved(Encoded(x, conv), After(Encoded(x, conv), k)) ==> Ended(Encoded(x, conv), After(Encoded(x, conv), k), x)
  {
    hide Encoded, After, Decoded, Starved;
    var S := Encoded(x, conv);
    RoundTrip(x, conv);
    OutputIsPrefix(S, k);
    var n := EncodedEnds(x, conv);
    if Starved(S, After(S, k)) {
      if k <= n {
        StarvedForever(S, k, n);
      } else {
        StarvedForever(S, n, k);
      }
    }
  }

  // A machine that has put out everything is at its end, but for one byte of
  // the range coder.
  lemma AllOut(x: seq<byte>, conv: nat -> bool, k: nat)
    requires var m := After(Encoded(x, conv), k); m.out == x && !m.mode.Init? && !Starved(Encoded(x, conv), m)
    ensures var m := After(Encoded(x, conv), k);
      && m.mode.Plain? && m.range < TOP && After(Encoded(x, conv), k + 1) == Shift(Encoded(x, conv), m)
      && Ended(Encoded(x, conv), After(Encoded(x, conv), k + 1), x)
  {
    var S := Encoded(x, conv);
    hide Encoded, After, Decoded, Starved, Step, ProbsOk;
    var m, m1 := After(S, k), After(S, k + 1);
    AfterNext(S, k);
    AfterNext(S, k + 1);
    StepGrows(S, m);
    NoLonger(x, conv, k + 1);
    NoLonger(x, conv, k + 2);
    if !Starved(S, m1) && !m1.mode.Init? {
      StepGrows(S, m1);
    }
    StartedForGood(S, k, k + 1);
  }

  // What a reader on the encoding can be at when it stops.
  ghost predicate OnEncoded(x: seq<byte>, conv: nat -> bool, reader: Bcj2.Bcj2Reader)
    reads reader, reader.bufs, reader.inputs, reader.decoder
  {
    reader.Valid() && reader.inputs.S == Encoded(x, conv) == reader.decoder.g.S && |reader.delivered| + reader.size == |x|
    && reader.delivered <= x
  }

  // Whatever stops a reader there, it is not the reader: at the end of `x` the
  // end check passes, and before it there is always more.
  lemma NoFault(x: seq<byte>, conv: nat -> bool, g: Bcj2Sync.Progress)
    requires g.S == Encoded(x, conv)
    ensures var m := After(g.S, g.steps);
      && !m.mode.Failed? && !CutShort(g.S, m)
      && (Starved(g.S, m) ==> Bcj2Sync.Seen(g).out == x && Bcj2Sync.Seen(g) == m && Ended(g.S, m, x))
    ensures var v := Bcj2Sync.Seen(g);
      v.out == x && !v.mode.Init? ==> v.mode.Plain? && (TOP <= v.range || Starved(g.S, After(g.S, g.steps)) ==> v.code == 0 && TOP <= v.range)
  {
    hide Encoded, After, Step, ProbsOk;
    var m := After(g.S, g.steps);
    NoLonger(x, conv, g.steps);
    if Starved(g.S, m) {
    } else if m.out == x && !m.mode.Init? {
      AllOut(x, conv, g.steps);
    }
  }

  lemma InitPutsNothing(S: Streams, k: nat)
    ensures After(S, k).mode.Init? ==> After(S, k).out == []
  {
    if k > 0 {
      InitPutsNothing(S, k - 1);
    }
  }

  // One read: the next bytes of `x`, as many as there is room for.
  method ReadPiece(x: seq<byte>, conv: nat -> bool, reader: Bcj2.Bcj2Reader, len: nat)
      returns (piece: seq<byte>, e: Option<Bcj2.Bcj2Error>)
    requires OnEncoded(x, conv, reader)
    modifies reader`extra, reader`size, reader`delivered, reader.bufs, reader.inputs, reader.decoder
    ensures e.Some? ==> e == Some(Bcj2.Bcj2Error.Io) && reader.inputs.failed
    ensures e.None? ==>
      && OnEncoded(x, conv, reader) && reader.delivered == old(reader.delivered) + piece
      && |piece| == if len < old(reader.size) then len else old(reader.size)
  {
    hide Encoded, After, Bcj2Sync.Seen, Starved, CutShort, Bcj2.Bcj2Reader.Consistent, Decoded, Ended;
    ghost var g0 := reader.decoder.g;
    var buf := new byte[len];
    var n := reader.Read(buf);
    ghost var g := reader.decoder.g;
    NoFault(x, conv, g);
    NoLonger(x, conv, g.steps);
    Bcj2.SeenOut(g);
    InitPutsNothing(g.S, g.steps);
    Bcj2.SeenMode(g);
    if n.Err? {
      return [], Some(n.error);
    }
    return buf[..n.value], None;
  }

  // Encoded and read with any sequence of buffer sizes: nothing but a failing
  // input keeps the bytes from coming back.
  method EncodeThenRead(x: seq<byte>, conv: nat -> bool, sizes: seq<nat>) returns (all: seq<byte>, e: Option<Bcj2.Bcj2Error>)
    ensures e.Some? ==> e == Some(Bcj2.Bcj2Error.Io)
    ensures e.None? ==> all <= x && (|all| == |x| || |all| == Bcj2.Sum(sizes))
  {
    hide Encoded, Bcj2Sync.Seen, Bcj2.Bcj2Reader.Consistent;
    var reader := new Bcj2.Bcj2Reader(Encoded(x, conv), |x|);
    all := [];
    assert sizes[0..] == sizes;
    for i := 0 to |sizes|
      invariant fresh(reader) && fresh(reader.bufs) && fresh(reader.inputs) && fresh(reader.decoder)
      invariant OnEncoded(x, conv, reader) && all == reader.delivered
      invariant |all| == |x| || |all| + Bcj2.Sum(sizes[i..]) == Bcj2.Sum(sizes)
    {
      assert sizes[i..][1..] == sizes[i + 1..];
      var piece, failed := ReadPiece(x, conv, reader, sizes[i]);
      if failed.Some? {
        return [], failed;
      }
      all := all + piece;
    }
    return all, None;
  }
}
