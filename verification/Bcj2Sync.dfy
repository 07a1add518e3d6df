// How the registers of the buffered BCJ2 decoder stand for a state of the
// byte-at-a-time specification, and what each of its moves does to both.
module Bcj2Sync {
  import opened Common
  import opened Bcj2Spec

  const ORIG_0: nat := 4
  const ORIG_3: nat := 7
  const ORIG: nat := 8
  const OK_STATE: nat := 9

  datatype Outcome = Go | Pause | Malformed

  datatype Turn = Stopped | Again | Accepted

  // src[lo..hi] holds the bytes of `stream` from `at` up to `end`.
  ghost predicate Window(src: seq<byte>, lo: nat, hi: nat, stream: seq<byte>, at: nat, end: nat) {
    lo <= hi <= |src| && at + (hi - lo) == end <= |stream| && src[lo..hi] == stream[at..end]
  }

  ghost predicate Windows(src: seq<byte>, e: seq<nat>, bufs: seq<nat>, lims: seq<nat>, S: Streams, pos: seq<nat>) {
    |e| == 4 && |bufs| == 4 && |lims| == 4 && |pos| == 4 &&
    forall i | 0 <= i < 4 :: Window(src, bufs[i], lims[i], S[i], pos[i], e[i])
  }

  lemma AdvanceOne(src: seq<byte>, lo: nat, hi: nat, str: seq<byte>, at: nat, end: nat, n: nat)
    requires Window(src, lo, hi, str, at, end) && n <= hi - lo
    ensures Window(src, lo + n, hi, str, at + n, end)
    ensures src[lo..lo + n] == str[at..at + n]
    ensures forall j {:trigger src[lo + j]} {:trigger str[at + j]} | 0 <= j < n :: src[lo + j] == str[at + j]
  {
    assert src[lo..hi][..n] == src[lo..lo + n] && str[at..at + (hi - lo)][..n] == str[at..at + n];
    assert src[lo..hi][n..] == src[lo + n..hi] && str[at..at + (hi - lo)][n..] == str[at + n..at + (hi - lo)];
    forall j {:trigger src[lo + j]} | 0 <= j < n ensures src[lo + j] == str[at + j] {
      assert src[lo..lo + n][j] == str[at..at + n][j];
    }
  }

  // Taking `n` bytes from window `i` keeps every window in step with its stream.
  lemma Advance(src: seq<byte>, e: seq<nat>, bufs: seq<nat>, lims: seq<nat>, S: Streams, pos: seq<nat>, i: nat, n: nat)
    requires Windows(src, e, bufs, lims, S, pos) && i < 4 && n <= lims[i] - bufs[i]
    ensures Windows(src, e, bufs[i := bufs[i] + n], lims, S, pos[i := pos[i] + n])
    ensures pos[i] + n <= |S[i]| && lims[i] <= |src|
    ensures src[bufs[i]..bufs[i] + n] == S[i][pos[i]..pos[i] + n]
    ensures forall j {:trigger src[bufs[i] + j]} {:trigger S[i][pos[i] + j]} | 0 <= j < n :: src[bufs[i] + j] == S[i][pos[i] + j]
  {
    assert Window(src, bufs[i], lims[i], S[i], pos[i], e[i]);
    AdvanceOne(src, bufs[i], lims[i], S[i], pos[i], e[i], n);
    forall j | 0 <= j < 4
      ensures Window(src, bufs[i := bufs[i] + n][j], lims[j], S[j], pos[i := pos[i] + n][j], e[j])
    {
      assert Window(src, bufs[j], lims[j], S[j], pos[j], e[j]);
    }
    hide Window;
  }

  lemma SameSlice(a: seq<byte>, i: nat, b: seq<byte>, j: nat, n: nat)
    requires i + n <= |a| && j + n <= |b|
    requires forall k | i <= k < i + n :: a[k] == b[k - i + j]
    ensures a[i..i + n] == b[j..j + n]
  {
  }

  // `out` is `base` and then what has been written to `dst` so far.
  ghost predicate Filled(base: seq<byte>, dst: seq<byte>, d: nat, out: seq<byte>) {
    d <= |dst| && out == base + dst[..d]
  }

  lemma FillMore(base: seq<byte>, was: seq<byte>, dst: seq<byte>, d: nat, n: nat, out: seq<byte>, more: seq<byte>)
    requires Filled(base, was, d, out) && |was| == |dst| && d + n <= |dst|
    requires dst[..d] == was[..d] && dst[d..d + n] == more
    ensures Filled(base, dst, d + n, out + more)
  {
    assert dst[..d + n] == dst[..d] + dst[d..d + n];
  }

  predicate Is32Bit(state: nat) {
    state == CALL || state == JUMP
  }

  // None of bytes[lo..hi] is a marker, `prev` being the byte before them.
  ghost predicate PlainBytes(bytes: seq<byte>, lo: nat, hi: nat, prev: byte) {
    hi <= |bytes| &&
    forall i {:trigger bytes[i]} | lo <= i < hi :: !Marker(if i == lo then prev else bytes[i - 1], bytes[i])
  }

  lemma PlainMore(bytes: seq<byte>, lo: nat, hi: nat, prev: byte)
    requires lo <= hi < |bytes|
    ensures hi == lo ==> PlainBytes(bytes, lo, hi, prev)
    ensures var before := if hi == lo then prev else bytes[hi - 1];
      if bytes[hi] == 0xE8 || bytes[hi] == 0xE9 || (before == 0x0F && 0x80 <= bytes[hi] < 0x90)
      then Marker(before, bytes[hi])
      else PlainBytes(bytes, lo, hi, prev) ==> PlainBytes(bytes, lo, hi + 1, prev)
  {
  }

  lemma PlainSame(src: seq<byte>, lo: nat, str: seq<byte>, at: nat, n: nat, prev: byte)
    requires PlainBytes(src, lo, lo + n, prev) && at + n <= |str|
    requires src[lo..lo + n] == str[at..at + n]
    ensures PlainBytes(str, at, at + n, prev)
  {
    forall i {:trigger str[i]} | at <= i < at + n
      ensures !Marker(if i == at then prev else str[i - 1], str[i])
    {
      var j := i - at;
      assert src[lo..lo + n][j] == str[at..at + n][j];
      assert j > 0 ==> src[lo..lo + n][j - 1] == str[at..at + n][j - 1];
      assert !Marker(if lo + j == lo then prev else src[lo + j - 1], src[lo + j]);
    }
  }

  ghost predicate MayRunAhead(S: Streams, m: Machine) {
    |m.pos| == 4 && m.pos[RC] < |S[RC]| && m.range < TOP && (m.mode.Fetch? || m.mode.Emit?)
  }

  // The decoder may shift a range-coder byte in before the step that needs it.
  ghost function RunAhead(S: Streams, m: Machine, ahead: bool): Machine {
    if ahead && MayRunAhead(S, m) then Shift(S, m) else m
  }

  // The machine after `n` main bytes none of which is a marker.
  ghost function Copied(S: Streams, m: Machine, n: nat): Machine
    requires Inv(S, m) && m.pos[MAIN] + n <= |S[MAIN]|
  {
    var at := m.pos[MAIN];
    m.(prev := if n == 0 then m.prev else S[MAIN][at + n - 1],
       ip := (m.ip + n) % TWO_32,
       pos := m.pos[MAIN := at + n],
       out := m.out + S[MAIN][at..at + n])
  }

  lemma WrapAdd(a: int, n: nat)
    ensures ((a + n) % TWO_32 + 1) % TWO_32 == (a + (n + 1)) % TWO_32
  {
  }

  lemma CopiedInv(S: Streams, m: Machine, n: nat)
    requires Inv(S, m) && m.pos[MAIN] + n <= |S[MAIN]|
    ensures Inv(S, Copied(S, m, n))
  {
  }

  lemma TakeCopies(S: Streams, m: Machine)
    requires Inv(S, m) && m.mode.Plain? && TOP <= m.range && m.pos[MAIN] < |S[MAIN]|
    requires !Marker(m.prev, S[MAIN][m.pos[MAIN]])
    ensures Step(S, m) == TakePlain(S, m)
    ensures TakePlain(S, m) == m.(prev := S[MAIN][m.pos[MAIN]], ip := (m.ip + 1) % TWO_32,
                                  pos := m.pos[MAIN := m.pos[MAIN] + 1], out := m.out + [S[MAIN][m.pos[MAIN]]])
  {
  }

  lemma CopiedNext(S: Streams, m: Machine, n: nat)
    requires Inv(S, m) && m.pos[MAIN] + n + 1 <= |S[MAIN]|
    ensures var c := Copied(S, m, n);
      var b := S[MAIN][m.pos[MAIN] + n];
      Copied(S, m, n + 1) ==
        c.(prev := b, ip := (c.ip + 1) % TWO_32, pos := c.pos[MAIN := c.pos[MAIN] + 1], out := c.out + [b])
  {
    var at := m.pos[MAIN];
    hide Inv;
    WrapAdd(m.ip, n);
    assert m.out + S[MAIN][at..at + n] + [S[MAIN][at + n]] == m.out + S[MAIN][at..at + n + 1];
  }

  lemma CopyOne(S: Streams, m: Machine, n: nat)
    requires Inv(S, m) && m.mode.Plain? && TOP <= m.range && m.pos[MAIN] + n + 1 <= |S[MAIN]|
    requires PlainBytes(S[MAIN], m.pos[MAIN], m.pos[MAIN] + n + 1, m.prev)
    ensures Inv(S, Copied(S, m, n))
    ensures Step(S, Copied(S, m, n)) == Copied(S, m, n + 1)
  {
    hide Step, TakePlain, Inv, Marker, PlainBytes;
    CopiedInv(S, m, n);
    LastPlain(S, m, n);
    TakeCopies(S, Copied(S, m, n));
    CopiedNext(S, m, n);
  }

  lemma LastPlain(S: Streams, m: Machine, n: nat)
    requires Inv(S, m) && m.mode.Plain? && TOP <= m.range && m.pos[MAIN] + n + 1 <= |S[MAIN]|
    requires PlainBytes(S[MAIN], m.pos[MAIN], m.pos[MAIN] + n + 1, m.prev)
    ensures var c := Copied(S, m, n);
      |c.pos| == 4 && c.mode.Plain? && TOP <= c.range && c.pos[MAIN] == m.pos[MAIN] + n && !Marker(c.prev, S[MAIN][c.pos[MAIN]])
  {
    hide Marker;
    var at := m.pos[MAIN];
    assert !Marker(if at + n == at then m.prev else S[MAIN][at + n - 1], S[MAIN][at + n]);
  }

  lemma {:induction false} PlainRun(S: Streams, k: nat, n: nat)
    requires After(S, k).mode.Plain? && TOP <= After(S, k).range
    requires After(S, k).pos[MAIN] + n <= |S[MAIN]|
    requires PlainBytes(S[MAIN], After(S, k).pos[MAIN], After(S, k).pos[MAIN] + n, After(S, k).prev)
    ensures After(S, k + n) == Copied(S, After(S, k), n)
  {
    hide Step, After, Inv;
    var m := After(S, k);
    if n == 0 {
      CopiedNone(S, m);
    } else {
      PlainRun(S, k, n - 1);
      CopyOne(S, m, n - 1);
      AfterNext(S, k + n - 1);
    }
  }

  lemma CopiedNone(S: Streams, m: Machine)
    requires Inv(S, m)
    ensures Copied(S, m, 0) == m
  {
    var at := m.pos[MAIN];
    assert m.pos[MAIN := at] == m.pos && m.out + S[MAIN][at..at] == m.out;
  }

  lemma StepInit(S: Streams, m: Machine)
    requires Inv(S, m) && m.mode.Init?
    requires Wants(m) == Some(RC) ==> m.pos[RC] < |S[RC]|
    ensures var got := m.mode.got;
      Step(S, m) ==
        if got == 1 && m.code != 0 then m.(mode := Failed)
        else if got < 5 then
          m.(mode := Init(got + 1), code := (m.code * 256 + S[RC][m.pos[RC]]) % TWO_32,
             pos := m.pos[RC := m.pos[RC] + 1])
        else if m.code == 0xFFFF_FFFF then m.(mode := Failed)
        else m.(mode := Plain, range := 0xFFFF_FFFF)
  {
  }

  lemma StepEmit(S: Streams, m: Machine)
    requires Inv(S, m) && m.mode.Emit?
    ensures Step(S, m) == m.(mode := if |m.mode.bytes| == 1 then Plain else Emit(m.mode.bytes[1..]),
                             out := m.out + [m.mode.bytes[0]])
  {
  }

  ghost function Emitted(m: Machine, n: nat): Machine
    requires m.mode.Emit? && n <= |m.mode.bytes|
  {
    var bytes := m.mode.bytes;
    m.(mode := if n == |bytes| then Plain else Emit(bytes[n..]), out := m.out + bytes[..n])
  }

  lemma {:induction false} EmitRun(S: Streams, k: nat, n: nat)
    requires After(S, k).mode.Emit? && n <= |After(S, k).mode.bytes|
    ensures After(S, k + n) == Emitted(After(S, k), n)
  {
    hide Step;
    var m := After(S, k);
    var bytes := m.mode.bytes;
    assert Inv(S, m);
    if n == 0 {
      assert bytes[0..] == bytes && m.out + bytes[..0] == m.out;
    } else {
      EmitRun(S, k, n - 1);
      var before := After(S, k + n - 1);
      assert before.mode == Emit(bytes[n - 1..]);
      StepEmit(S, before);
      assert m.out + bytes[..n] == m.out + bytes[..n - 1] + [bytes[n - 1]];
    }
  }

  // The decoder's registers, as a value.
  datatype Regs = Regs(bufs: seq<nat>, lims: seq<nat>, temp: seq<byte>,
                       ip: u32, range: u32, code: u32, probs: seq<nat>)

  // Registers and window contents stand for the specification state `v`;
  // while the start bytes are read, `range` counts them.
  ghost predicate Synced(src: seq<byte>, e: seq<nat>, d: Regs, S: Streams, v: Machine) {
    && Inv(S, v)
    && Windows(src, e, d.bufs, d.lims, S, v.pos)
    && (d.lims[CALL] - d.bufs[CALL]) % 4 == 0 && (d.lims[JUMP] - d.bufs[JUMP]) % 4 == 0
    && |d.temp| == 4 && d.temp[3] == v.prev
    && d.ip == v.ip && d.code == v.code && d.probs == v.probs
    && d.range == (if v.mode.Init? then v.mode.got else v.range)
  }

  lemma Shape(src: seq<byte>, e: seq<nat>, d: Regs, S: Streams, v: Machine)
    requires Synced(src, e, d, S, v)
    ensures |d.bufs| == 4 && |d.lims| == 4 && |d.temp| == 4 && |d.probs| == PROBS && |v.pos| == 4
    ensures forall i | 0 <= i < 4 :: d.bufs[i] <= d.lims[i] <= |src|
    ensures |e| == 4 && forall i | 0 <= i < 4 :: v.pos[i] + (d.lims[i] - d.bufs[i]) == e[i] <= |S[i]|
    ensures d.temp[3] == v.prev && d.code == v.code && d.probs == v.probs && ProbsOk(v.probs)
    ensures v.mode.Init? ==> d.range == v.mode.got <= 5
    ensures !v.mode.Init? ==> d.range == v.range
    ensures v.mode.Plain? || v.mode.Fetch? || v.mode.Emit? ==> d.code < d.range && 253952 <= d.range
    ensures v.mode.Emit? ==> 1 <= |v.mode.bytes| <= 4
  {
    forall i | 0 <= i < 4
      ensures d.bufs[i] <= d.lims[i] <= |src| && v.pos[i] + (d.lims[i] - d.bufs[i]) == e[i] <= |S[i]|
    {
      assert Window(src, d.bufs[i], d.lims[i], S[i], v.pos[i], e[i]);
    }
  }

  // A range-coder byte of the window shifted into `code`, as every refill does.
  function Loaded(src: seq<byte>, d: Regs, range: u32): Regs
    requires |d.bufs| == 4 && d.bufs[RC] < |src|
  {
    d.(code := (d.code * 256 + src[d.bufs[RC]]) % TWO_32, bufs := d.bufs[RC := d.bufs[RC] + 1], range := range)
  }

  lemma SyncStart(src: seq<byte>, e: seq<nat>, d: Regs, S: Streams, m: Machine)
    requires Synced(src, e, d, S, m) && m.mode.Init?
    requires d.range < 5 && !(d.range == 1 && d.code != 0) ==> d.bufs[RC] < d.lims[RC]
    ensures d.range == m.mode.got && d.range <= 5 && d.code == m.code
    ensures (d.range == 1 && d.code != 0) || (d.range == 5 && d.code == 0xFFFF_FFFF) ==> Step(S, m).mode.Failed?
    ensures d.range < 5 && !(d.range == 1 && d.code != 0) ==>
      d.bufs[RC] < |src| &&
      Synced(src, e, Loaded(src, d, d.range + 1), S, Step(S, m)) &&
      Step(S, m) == m.(mode := Init(d.range + 1), code := Step(S, m).code, pos := Step(S, m).pos)
    ensures d.range == 5 && d.code != 0xFFFF_FFFF ==>
      Synced(src, e, d.(range := 0xFFFF_FFFF), S, Step(S, m)) &&
      Step(S, m) == m.(mode := Plain, range := 0xFFFF_FFFF)
  {
    Shape(src, e, d, S, m);
    StepInit(S, m);
    if d.range < 5 && !(d.range == 1 && d.code != 0) {
      Advance(src, e, d.bufs, d.lims, S, m.pos, RC, 1);
    }
  }

  lemma SyncShift(src: seq<byte>, e: seq<nat>, d: Regs, S: Streams, m: Machine)
    requires Synced(src, e, d, S, m) && (m.mode.Plain? || m.mode.Fetch? || m.mode.Emit?)
    requires d.range < TOP && |d.bufs| == |d.lims| == 4 && d.bufs[RC] < d.lims[RC]
    ensures |m.pos| == 4 && m.pos[RC] < |S[RC]| && d.bufs[RC] < |src| && d.range * 256 < TWO_32
    ensures Synced(src, e, Loaded(src, d, d.range * 256), S, Shift(S, m))
    ensures Shift(S, m).range >= TOP && Shift(S, m).mode == m.mode && Shift(S, m).out == m.out
    ensures m.mode.Plain? ==> Step(S, m) == Shift(S, m)
  {
    Shape(src, e, d, S, m);
    Advance(src, e, d.bufs, d.lims, S, m.pos, RC, 1);
  }

  lemma SyncCopy(src: seq<byte>, e: seq<nat>, d: Regs, S: Streams, m: Machine, n: nat)
    requires Synced(src, e, d, S, m) && m.mode.Plain? && TOP <= d.range
    requires |d.bufs| == |d.lims| == |d.temp| == 4 && d.bufs[MAIN] + n <= d.lims[MAIN] <= |src|
    requires PlainBytes(src, d.bufs[MAIN], d.bufs[MAIN] + n, d.temp[3])
    ensures m.pos[MAIN] + n <= |S[MAIN]| && PlainBytes(S[MAIN], m.pos[MAIN], m.pos[MAIN] + n, m.prev)
    ensures src[d.bufs[MAIN]..d.bufs[MAIN] + n] == S[MAIN][m.pos[MAIN]..m.pos[MAIN] + n]
    ensures Synced(src, e, d.(bufs := d.bufs[MAIN := d.bufs[MAIN] + n], ip := (d.ip + n) % TWO_32,
                           temp := d.temp[3 := if n == 0 then d.temp[3] else src[d.bufs[MAIN] + n - 1]]),
                   S, Copied(S, m, n))
  {
    Shape(src, e, d, S, m);
    Advance(src, e, d.bufs, d.lims, S, m.pos, MAIN, n);
    PlainSame(src, d.bufs[MAIN], S[MAIN], m.pos[MAIN], n, m.prev);
    assert n > 0 ==> src[d.bufs[MAIN] + (n - 1)] == S[MAIN][m.pos[MAIN] + (n - 1)];
    hide PlainBytes;
    CopiedInv(S, m, n);
  }

  // The registers after a marker byte `b` following `d.temp[3]`.
  function Judged(d: Regs, b: byte): (r: Regs)
    requires |d.bufs| == 4 && |d.temp| == 4 && ProbsOk(d.probs) && d.code < d.range && TOP <= d.range
  {
    var i := ProbIndex(d.temp[3], b);
    var p := d.probs[i];
    BoundIsInside(d.range, p);
    var bound := Bound(d.range, p);
    var moved := d.(temp := d.temp[3 := b], bufs := d.bufs[MAIN := d.bufs[MAIN] + 1], ip := (d.ip + 1) % TWO_32);
    if d.code < bound then moved.(range := bound, probs := d.probs[i := Raise(p)])
    else moved.(range := d.range - bound, code := d.code - bound, probs := d.probs[i := Lower(p)])
  }

  lemma SyncMarker(src: seq<byte>, e: seq<nat>, d: Regs, S: Streams, m: Machine)
    requires Synced(src, e, d, S, m) && m.mode.Plain? && TOP <= d.range
    requires |d.bufs| == |d.lims| == |d.temp| == 4 && d.bufs[MAIN] < d.lims[MAIN] <= |src|
    requires Marker(d.temp[3], src[d.bufs[MAIN]])
    ensures ProbsOk(d.probs) && d.code < d.range && m.pos[MAIN] < |S[MAIN]|
    ensures TOP <= m.range && Step(S, m) == TakePlain(S, m)
    ensures Synced(src, e, Judged(d, src[d.bufs[MAIN]]), S, TakePlain(S, m))
    ensures TakePlain(S, m).out == m.out + [src[d.bufs[MAIN]]]
    ensures var i := ProbIndex(d.temp[3], src[d.bufs[MAIN]]);
      TakePlain(S, m).mode == if d.code < Bound(d.range, d.probs[i]) then Plain else Fetch
  {
    Shape(src, e, d, S, m);
    Advance(src, e, d.bufs, d.lims, S, m.pos, MAIN, 1);
    assert src[d.bufs[MAIN] + 0] == S[MAIN][m.pos[MAIN] + 0];
  }

  // The word the decoder reads from its window, less the position after it.
  function Converted(src: seq<byte>, d: Regs, cj: nat): (bytes: seq<byte>)
    requires cj < |d.bufs| && d.bufs[cj] + 4 <= |src|
    ensures |bytes| == 4
  {
    BytesLE((WordBE(src[d.bufs[cj]..d.bufs[cj] + 4]) - (d.ip + 4) % TWO_32) % TWO_32)
  }

  lemma AddressReady(src: seq<byte>, e: seq<nat>, d: Regs, S: Streams, m: Machine, cj: nat)
    requires Synced(src, e, d, S, m) && m.mode.Fetch? && |d.bufs| == |d.lims| == |d.temp| == 4
    requires cj == AddressStream(d.temp[3]) && d.bufs[cj] < d.lims[cj]
    ensures d.bufs[cj] + 4 <= d.lims[cj] <= |src| && AddressStream(m.prev) == cj
    ensures |m.pos| == 4 && m.pos[cj] + 4 <= |S[cj]|
    ensures src[d.bufs[cj]..d.bufs[cj] + 4] == S[cj][m.pos[cj]..m.pos[cj] + 4]
    ensures Windows(src, e, d.bufs[cj := d.bufs[cj] + 4], d.lims, S, m.pos[cj := m.pos[cj] + 4])
    ensures TakeAddress(S, m) == m.(mode := Emit(Converted(src, d, cj)), prev := Converted(src, d, cj)[3],
                                    ip := (m.ip + 4) % TWO_32, pos := m.pos[cj := m.pos[cj] + 4])
  {
    hide WordBE, BytesLE;
    Shape(src, e, d, S, m);
    assert d.lims[cj] - d.bufs[cj] >= 4;
    Advance(src, e, d.bufs, d.lims, S, m.pos, cj, 4);
  }

  lemma SyncAddress(src: seq<byte>, e: seq<nat>, d: Regs, S: Streams, m: Machine, cj: nat, temp: seq<byte>)
    requires Synced(src, e, d, S, m) && m.mode.Fetch? && |d.bufs| == |d.lims| == |d.temp| == 4
    requires cj == AddressStream(d.temp[3]) == AddressStream(m.prev) && d.bufs[cj] + 4 <= d.lims[cj] <= |src|
    requires |m.pos| == 4 && m.pos[cj] + 4 <= |S[cj]|
    requires |temp| == 4 && temp[3] == Converted(src, d, cj)[3]
    ensures Synced(src, e, d.(bufs := d.bufs[cj := d.bufs[cj] + 4], ip := (d.ip + 4) % TWO_32, temp := temp),
                   S, TakeAddress(S, m))
    ensures TakeAddress(S, m).mode == Emit(Converted(src, d, cj)) && TakeAddress(S, m).out == m.out
  {
    hide Converted, Windows, TakeAddress, Inv, AddressStream, WordBE, BytesLE;
    AddressReady(src, e, d, S, m, cj);
  }

  lemma StepFetch(S: Streams, m: Machine)
    requires Inv(S, m) && m.mode.Fetch?
    requires m.pos[AddressStream(m.prev)] + 4 <= |S[AddressStream(m.prev)]|
    ensures Step(S, m) == TakeAddress(S, m)
  {
  }

  lemma ShiftKeeps(S: Streams, m: Machine)
    requires Inv(S, m) && MayRunAhead(S, m)
    ensures Inv(S, Shift(S, m)) && Shift(S, m).range >= TOP
  {
  }

  lemma AddressCommutes(S: Streams, m: Machine)
    requires Inv(S, m) && m.mode.Fetch? && MayRunAhead(S, m) && Inv(S, Shift(S, m))
    requires m.pos[AddressStream(m.prev)] + 4 <= |S[AddressStream(m.prev)]|
    ensures Shift(S, TakeAddress(S, m)) == TakeAddress(S, Shift(S, m))
  {
  }

  lemma StepShift(S: Streams, m: Machine)
    requires Inv(S, m) && m.mode.Plain? && m.range < TOP && m.pos[RC] < |S[RC]|
    ensures Step(S, m) == Shift(S, m)
  {
  }

  // How far the specification has come: its streams, the step reached,
  // whether a range-coder byte was shifted in ahead of that step, and where in
  // each stream the buffered part ends.
  datatype Progress = Progress(S: Streams, steps: nat, ahead: bool, ends: seq<nat>)

  // The specification state the registers stand for.
  ghost function Seen(g: Progress): Machine {
    RunAhead(g.S, After(g.S, g.steps), g.ahead)
  }

  // The registers after `n` plain bytes from `lo` on.
  function Skipped(src: seq<byte>, d: Regs, n: nat): Regs
    requires |d.bufs| == |d.temp| == 4 && d.bufs[MAIN] + n <= |src|
  {
    var s := d.bufs[MAIN] + n;
    d.(bufs := d.bufs[MAIN := s], ip := (d.ip + n) % TWO_32,
       temp := d.temp[3 := if n == 0 then d.temp[3] else src[s - 1]])
  }

  lemma UpdateTwice<T>(q: seq<T>, i: nat, x: T, y: T)
    requires i < |q|
    ensures q[i := x][i := y] == q[i := y]
  {
  }

  // Plain bytes and the marker after them, passed at once.
  lemma JudgedAfter(src: seq<byte>, d: Regs, n: nat)
    requires |d.bufs| == |d.temp| == 4 && d.bufs[MAIN] + n < |src|
    requires ProbsOk(d.probs) && d.code < d.range && TOP <= d.range
    ensures
      var s := d.bufs[MAIN] + n;
      var prev := if n == 0 then d.temp[3] else src[s - 1];
      var i := ProbIndex(prev, src[s]);
      var p := d.probs[i];
      var bound := Bound(d.range, p);
      && 253952 <= bound <= d.range - 253952
      && Judged(Skipped(src, d, n), src[s]) ==
         Regs(d.bufs[MAIN := s + 1], d.lims, d.temp[3 := src[s]], (d.ip + (n + 1)) % TWO_32,
              if d.code < bound then bound else d.range - bound,
              if d.code < bound then d.code else d.code - bound,
              d.probs[i := if d.code < bound then Raise(p) else Lower(p)])
  {
    var s := d.bufs[MAIN] + n;
    var prev := if n == 0 then d.temp[3] else src[s - 1];
    UpdateTwice(d.temp, 3, prev, src[s]);
    UpdateTwice(d.bufs, MAIN, s, s + 1);
    WrapAdd(d.ip, n);
    var i := ProbIndex(prev, src[s]);
    BoundIsInside(d.range, d.probs[i]);
    hide Bound, Raise, Lower;
  }

  lemma AfterScan(src: seq<byte>, d: Regs, g: Progress, n: nat, base: seq<byte>, was: seq<byte>, dst: seq<byte>, at: nat)
    requires Synced(src, g.ends, d, g.S, Seen(g)) && Seen(g).mode.Plain? && !g.ahead && TOP <= d.range
    requires |d.bufs| == |d.lims| == |d.temp| == 4 && d.bufs[MAIN] + n <= d.lims[MAIN] <= |src|
    requires PlainBytes(src, d.bufs[MAIN], d.bufs[MAIN] + n, d.temp[3])
    requires Filled(base, was, at, Seen(g).out) && |was| == |dst| && at + n <= |dst|
    requires dst[..at] == was[..at] && dst[at..at + n] == src[d.bufs[MAIN]..d.bufs[MAIN] + n]
    ensures var h := g.(steps := g.steps + n);
      && Seen(h).mode.Plain? && Synced(src, g.ends, Skipped(src, d, n), g.S, Seen(h))
      && Filled(base, dst, at + n, Seen(h).out)
  {
    hide Step, After, Synced, Inv, PlainBytes, Filled;
    var m := After(g.S, g.steps);
    Shape(src, g.ends, d, g.S, m);
    SyncCopy(src, g.ends, d, g.S, m, n);
    PlainRun(g.S, g.steps, n);
    FillMore(base, was, dst, at, n, m.out, src[d.bufs[MAIN]..d.bufs[MAIN] + n]);
  }

  // An address is fetched the same whether or not a range-coder byte came in early.
  lemma FetchAhead(g: Progress)
    requires Seen(g).mode.Fetch? && Inv(g.S, Seen(g))
    requires Seen(g).pos[AddressStream(Seen(g).prev)] + 4 <= |g.S[AddressStream(Seen(g).prev)]|
    ensures Seen(g.(steps := g.steps + 1)) == TakeAddress(g.S, Seen(g))
  {
    hide Step, Inv, TakeAddress;
    var m := After(g.S, g.steps);
    AfterNext(g.S, g.steps);
    SameFetch(g.S, m, g.ahead);
    StepFetch(g.S, m);
  }

  lemma SameFetch(S: Streams, m: Machine, ahead: bool)
    requires Inv(S, m) && m.mode.Fetch? && Inv(S, RunAhead(S, m, ahead))
    requires var v := RunAhead(S, m, ahead); v.pos[AddressStream(v.prev)] + 4 <= |S[AddressStream(v.prev)]|
    ensures m.pos[AddressStream(m.prev)] + 4 <= |S[AddressStream(m.prev)]|
    ensures RunAhead(S, TakeAddress(S, m), ahead) == TakeAddress(S, RunAhead(S, m, ahead))
  {
    if ahead && MayRunAhead(S, m) {
      AddressCommutes(S, m);
    }
  }

  // Some or all of the pending address bytes output; the early byte, if any,
  // is accounted for when the last of them is.
  lemma EmitAhead(g: Progress, n: nat) returns (g': Progress)
    requires Seen(g).mode.Emit? && n <= |Seen(g).mode.bytes|
    ensures g'.S == g.S && g'.ends == g.ends && g'.steps >= g.steps
    ensures Seen(g') == Emitted(Seen(g), n)
    ensures Seen(g').mode.Plain? ==> !g'.ahead
  {
    hide Step, Inv;
    var m := After(g.S, g.steps);
    EmitRun(g.S, g.steps, n);
    g' := g.(steps := g.steps + n);
    if n == |m.mode.bytes| {
      if g.ahead && MayRunAhead(g.S, m) {
        AfterNext(g.S, g'.steps);
        StepShift(g.S, After(g.S, g'.steps));
        g' := g'.(steps := g'.steps + 1);
      }
      g' := g'.(ahead := false);
    }
  }

  lemma SyncEmit(src: seq<byte>, e: seq<nat>, d: Regs, S: Streams, m: Machine, n: nat)
    requires Synced(src, e, d, S, m) && m.mode.Emit? && n <= |m.mode.bytes|
    ensures Synced(src, e, d, S, Emitted(m, n))
  {
  }

  // Address bytes pending in `temp`, `state` telling how many are out.
  ghost predicate Resting(mode: Mode, state: nat, temp: seq<byte>) {
    mode.Emit? && ORIG_0 <= state <= ORIG_3 && |temp| == 4 && temp[state - ORIG_0..] == mode.bytes
  }

  // One address word passed, and `n` of its bytes written out.
  lemma AfterFetch(src: seq<byte>, d: Regs, g: Progress, cj: nat, temp: seq<byte>, n: nat) returns (g': Progress)
    requires Synced(src, g.ends, d, g.S, Seen(g)) && Seen(g).mode.Fetch?
    requires |d.bufs| == |d.lims| == |d.temp| == 4 && cj == AddressStream(d.temp[3]) && d.bufs[cj] < d.lims[cj]
    requires d.bufs[cj] + 4 <= |src| ==> |temp| == 4 && temp[3] == Converted(src, d, cj)[3]
    requires n <= 4
    ensures d.bufs[cj] + 4 <= |src| && |temp| == 4
    ensures g'.S == g.S && g'.ends == g.ends && g'.steps >= g.steps
    ensures Synced(src, g.ends, d.(bufs := d.bufs[cj := d.bufs[cj] + 4], ip := (d.ip + 4) % TWO_32, temp := temp),
                   g.S, Seen(g'))
    ensures Seen(g').mode == if n == 4 then Plain else Emit(Converted(src, d, cj)[n..])
    ensures Seen(g').out == Seen(g).out + Converted(src, d, cj)[..n]
    ensures n == 4 ==> !g'.ahead
  {
    var v := Seen(g);
    Shape(src, g.ends, d, g.S, v);
    AddressReady(src, g.ends, d, g.S, v, cj);
    assert Inv(g.S, v);
    hide Synced, Step, After, Inv, Converted, RunAhead;
    SyncAddress(src, g.ends, d, g.S, v, cj, temp);
    FetchAhead(g);
    var f := g.(steps := g.steps + 1);
    g' := EmitAhead(f, n);
    SyncEmit(src, g.ends, d.(bufs := d.bufs[cj := d.bufs[cj] + 4], ip := (d.ip + 4) % TWO_32, temp := temp),
             g.S, Seen(f), n);
  }

  // What holds between calls of the decoder.
  ghost predicate Tracks(src: seq<byte>, d: Regs, g: Progress, state: nat) {
    && Synced(src, g.ends, d, g.S, Seen(g))
    && match Seen(g).mode
       case Init(_) => !g.ahead
       case Plain => !g.ahead && !Is32Bit(state) && !(ORIG_0 <= state <= ORIG_3)
       case Fetch => |d.temp| == 4 && state == AddressStream(d.temp[3])
       case Emit(_) => Resting(Seen(g).mode, state, d.temp)
       case Failed => false
  }

  // A range-coder byte shifted in before the step that would ask for it.
  lemma ShiftedEarly(src: seq<byte>, d: Regs, g: Progress)
    requires Synced(src, g.ends, d, g.S, Seen(g)) && (Seen(g).mode.Fetch? || Seen(g).mode.Emit?)
    requires d.range < TOP && |d.bufs| == |d.lims| == 4 && d.bufs[RC] < d.lims[RC]
    ensures d.bufs[RC] < |src| && d.range * 256 < TWO_32
    ensures Synced(src, g.ends, Loaded(src, d, d.range * 256), g.S, Seen(g.(ahead := true)))
    ensures Seen(g.(ahead := true)).mode == Seen(g).mode && Seen(g.(ahead := true)).out == Seen(g).out
  {
    var m := After(g.S, g.steps);
    Shape(src, g.ends, d, g.S, Seen(g));
    SyncShift(src, g.ends, d, g.S, Seen(g));
    if g.ahead && MayRunAhead(g.S, m) {
      ShiftKeeps(g.S, m);
    }
  }

  // Bytes waiting in the windows.
  function InHand(d: Regs): int
    requires |d.bufs| == |d.lims| == 4
  {
    var ends: int := d.lims[0] + d.lims[1] + d.lims[2] + d.lims[3];
    var starts: int := d.bufs[0] + d.bufs[1] + d.bufs[2] + d.bufs[3];
    ends - starts
  }

  // A main stream without markers decodes to itself.
  lemma PlainIsIdentity(S: Streams)
    requires PlainBytes(S[MAIN], 0, |S[MAIN]|, 0)
    requires |S[RC]| >= 5 && S[RC][0] == 0 && WordBE(S[RC][1..5]) != 0xFFFF_FFFF
    ensures Decoded(S) == S[MAIN]
  {
    hide After, Inv, Step, WordBE, PlainBytes, Decoded, Starved, Copied;
    Started(S);
    PlainRun(S, 6, |S[MAIN]|);
    CopiedAll(S, After(S, 6));
    OutputIsPrefix(S, 6 + |S[MAIN]|);
  }

  lemma CopiedAll(S: Streams, m: Machine)
    requires Inv(S, m) && m.mode.Plain? && TOP <= m.range && m.pos == [0, 0, 0, 5] && m.out == []
    ensures Copied(S, m, |S[MAIN]|).out == S[MAIN] && |Copied(S, m, |S[MAIN]|).pos| == 4
    ensures Starved(S, Copied(S, m, |S[MAIN]|))
  {
    hide Inv;
    assert [] + S[MAIN][0..0 + |S[MAIN]|] == S[MAIN];
  }

  lemma StartBytes(S: Streams) returns (m: Machine)
    requires |S[RC]| >= 5 && S[RC][0] == 0
    ensures m == After(S, 5) && m.mode == Init(5) && m.code == WordBE(S[RC][1..5])
    ensures m.prev == 0 && m.pos == [0, 0, 0, 5] && m.out == []
  {
    var w := S[RC][1..5];
    assert w[0] == S[RC][1] && w[1] == S[RC][2] && w[2] == S[RC][3] && w[3] == S[RC][4];
    assert After(S, 0) == START;
    hide After, Inv, Step;
    m := StartByte(S, 0);
    m := StartByte(S, 1);
    m := StartByte(S, 2);
    m := StartByte(S, 3);
    m := StartByte(S, 4);
  }

  lemma Started(S: Streams)
    requires |S[RC]| >= 5 && S[RC][0] == 0 && WordBE(S[RC][1..5]) != 0xFFFF_FFFF
    ensures var m := After(S, 6);
      m.mode.Plain? && m.range == 0xFFFF_FFFF && m.prev == 0 && m.pos == [0, 0, 0, 5] && m.out == []
  {
    hide After, Inv, Step, WordBE;
    var m := StartBytes(S);
    AfterNext(S, 5);
    StepInit(S, m);
  }

  lemma StartByte(S: Streams, k: nat) returns (n: Machine)
    requires k < 5 <= |S[RC]| && After(S, k).mode == Init(k) && After(S, k).pos == [0, 0, 0, k]
    requires After(S, k).code < 0x100_0000 && (k == 1 ==> After(S, k).code == 0)
    ensures n == After(S, k + 1)
    ensures n == After(S, k).(mode := Init(k + 1), pos := [0, 0, 0, k + 1],
                              code := After(S, k).code * 256 + S[RC][k])
  {
    hide After, Inv, Step;
    var m := After(S, k);
    AfterNext(S, k);
    StepInit(S, m);
    n := After(S, k + 1);
    assert m.pos[RC := k + 1] == [0, 0, 0, k + 1];
  }
}
