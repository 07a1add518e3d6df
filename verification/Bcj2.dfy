// The BCJ2 reader: refills the decoder's windows from four byte sources and
// hands the decoded bytes to its caller, whatever the buffer sizes.
module Bcj2 {
  import opened Common
  import opened Bcj2Spec
  import opened Bcj2Sync
  import opened Bcj2Decode

  const BUF_SIZE: nat := 0x4_0000

  datatype Bcj2Error =
    | Io           // an inner read failed
    | Malformed    // the range coder's start bytes are impossible
    | ShortWord    // a stream of address words ends inside a word
    | BadCode      // the range coder does not end at zero
    | BadEnd       // the output ends inside an address or an unread decision

  // The four inner readers: what they hold, and how much was read so far. A
  // read returns any number of bytes, none only at the end of its stream.
  class Inputs {
    const S: Streams
    var at: seq<nat>
    ghost var failed: bool

    constructor (S: Streams)
      ensures this.S == S && at == [0, 0, 0, 0] && !failed
    {
      this.S := S;
      at, failed := [0, 0, 0, 0], false;
    }

    ghost predicate Valid()
      reads this
    {
      |at| == 4 && forall i | 0 <= i < 4 :: at[i] <= |S[i]|
    }

    method Read(i: nat, buf: array<byte>, lo: nat, hi: nat) returns (n: Result<nat, Bcj2Error>)
      requires Valid() && i < 4 && lo < hi <= buf.Length
      modifies this, buf
      ensures Valid()
      ensures forall j | 0 <= j < buf.Length && !(n.Ok? && lo <= j < lo + n.value) :: buf[j] == old(buf[j])
      ensures n.Ok? ==> n.value <= hi - lo && at == old(at)[i := old(at)[i] + n.value]
      ensures n.Ok? ==> buf[lo..lo + n.value] == S[i][old(at)[i]..at[i]]
      ensures n.Ok? && n.value == 0 ==> at[i] == |S[i]|
      ensures n.Err? ==> at == old(at) && failed
    {
      if * {
        failed := true;
        return Err(Bcj2Error.Io);
      }
      var from := at[i];
      var most := if hi - lo < |S[i]| - from then hi - lo else |S[i]| - from;
      var k: nat :| k <= most && (k == 0 ==> most == 0);
      forall j | lo <= j < lo + k {
        buf[j] := S[i][from + (j - lo)];
      }
      SameSlice(buf[..], lo, S[i], from, k);
      at := at[i := from + k];
      return Ok(k);
    }
  }
  datatype Halt = Full | Dry | Short | Io | Malformed

  datatype RefillOutcome = Restocked | Dry | Short | Broken

  predicate IsWordStream(i: nat) {
    i == CALL || i == JUMP
  }

  // The buffer is four regions; in each, beyond the window of the decoder, lie
  // the `extra` bytes of a word not yet complete.
  ghost predicate Stocked(src: seq<byte>, r: Regs, g: Progress, at: seq<nat>, extra: seq<nat>) {
    && |r.lims| == |g.ends| == |at| == |extra| == 4 && |src| == 4 * BUF_SIZE
    && forall i | 0 <= i < 4 ::
         Region(src, i, r.lims[i], g.S[i], After(g.S, g.steps).pos[i], g.ends[i], at[i], extra[i])
  }

  ghost predicate Region(src: seq<byte>, i: nat, lim: nat, stream: seq<byte>, pos: nat, end: nat, at: nat, extra: nat) {
    && i * BUF_SIZE <= lim && lim + extra <= (i + 1) * BUF_SIZE && (i + 1) * BUF_SIZE <= |src|
    && extra < 4 && (!IsWordStream(i) ==> extra == 0)
    && at == end + extra && at <= |stream| && end <= pos + (lim - i * BUF_SIZE)
    && src[lim..lim + extra] == stream[end..at]
  }

  // Running the decoder leaves the regions as they are.
  lemma StillStocked(src: seq<byte>, r: Regs, g: Progress, r': Regs, g': Progress, at: seq<nat>, extra: seq<nat>)
    requires Stocked(src, r, g, at, extra)
    requires r'.lims == r.lims && g'.S == g.S && g'.ends == g.ends && g'.steps >= g.steps
    ensures Stocked(src, r', g', at, extra)
  {
    hide After;
    RunLater(g.S, g.steps, g'.steps);
    forall i | 0 <= i < 4
      ensures Region(src, i, r'.lims[i], g'.S[i], After(g'.S, g'.steps).pos[i], g'.ends[i], at[i], extra[i])
    {
      assert Region(src, i, r.lims[i], g.S[i], After(g.S, g.steps).pos[i], g.ends[i], at[i], extra[i]);
    }
  }

  lemma StartStocked(src: seq<byte>, r: Regs, g: Progress)
    requires r.lims == [0, BUF_SIZE, 2 * BUF_SIZE, 3 * BUF_SIZE] && |src| == 4 * BUF_SIZE
    requires g.steps == 0 && !g.ahead && g.ends == [0, 0, 0, 0]
    ensures Stocked(src, r, g, [0, 0, 0, 0], [0, 0, 0, 0]) && Seen(g).out == []
  {
    assert After(g.S, 0) == START;
    forall i | 0 <= i < 4
      ensures Region(src, i, r.lims[i], g.S[i], After(g.S, g.steps).pos[i], g.ends[i], 0, 0)
    {
      assert src[r.lims[i]..r.lims[i] + 0] == g.S[i][0..0];
    }
  }

  lemma WantedPos(g: Progress, s: nat)
    requires Wants(Seen(g)) == Some(s)
    ensures s < 4 && After(g.S, g.steps).mode == Seen(g).mode && Wants(After(g.S, g.steps)) == Some(s)
    ensures After(g.S, g.steps).pos[s] == Seen(g).pos[s]
    ensures IsWordStream(s) ==> Seen(g).mode.Fetch?
  {
  }

  lemma GrowSlice(was: seq<byte>, now: seq<byte>, lo: nat, a: nat, n: nat, str: seq<byte>, start: nat)
    requires |was| == |now| && lo + a + n <= |now| && start + a + n <= |str|
    requires forall j | lo <= j < lo + a :: now[j] == was[j]
    requires was[lo..lo + a] == str[start..start + a]
    requires now[lo + a..lo + a + n] == str[start + a..start + a + n]
    ensures now[lo..lo + (a + n)] == str[start..start + (a + n)]
  {
    assert now[lo..lo + a] == was[lo..lo + a];
    assert now[lo..lo + (a + n)] == now[lo..lo + a] + now[lo + a..lo + a + n];
    assert str[start..start + (a + n)] == str[start..start + a] + str[start + a..start + a + n];
  }

  // A region and window not refilled stay what they were.
  lemma KeepRegion(was: seq<byte>, src: seq<byte>, s: nat, i: nat, buf: nat, lim: nat, stream: seq<byte>,
                   pos: nat, seen: nat, end: nat, at: nat, extra: nat)
    requires |src| == |was| && forall j | 0 <= j < |src| && !(s * BUF_SIZE <= j < (s + 1) * BUF_SIZE) :: src[j] == was[j]
    requires i != s && pos <= seen
    requires Window(was, buf, lim, stream, seen, end) && Region(was, i, lim, stream, pos, end, at, extra)
    ensures Window(src, buf, lim, stream, seen, end) && Region(src, i, lim, stream, pos, end, at, extra)
  {
    assert i < s ==> (i + 1) * BUF_SIZE <= s * BUF_SIZE;
    assert i > s ==> (s + 1) * BUF_SIZE <= i * BUF_SIZE;
    assert src[buf..lim] == was[buf..lim];
    assert src[lim..lim + extra] == was[lim..lim + extra];
  }

  // A region filled anew: `n` bytes for the decoder and `x` kept back.
  lemma FillRegion(src: seq<byte>, s: nat, stream: seq<byte>, end: nat, n: nat, x: nat)
    requires (s + 1) * BUF_SIZE <= |src| && n + x <= BUF_SIZE && end + n + x <= |stream|
    requires x < 4 && (!IsWordStream(s) ==> x == 0)
    requires src[s * BUF_SIZE..s * BUF_SIZE + n + x] == stream[end..end + n + x]
    ensures var lo := s * BUF_SIZE;
      Window(src, lo, lo + n, stream, end, end + n) &&
      Region(src, s, lo + n, stream, end, end + n, end + n + x, x)
  {
    var lo := s * BUF_SIZE;
    TwoSlices(src, lo, n, x);
    TwoSlices(stream, end, n, x);
    assert lo + BUF_SIZE == (s + 1) * BUF_SIZE;
  }

  lemma TwoSlices(a: seq<byte>, lo: nat, n: nat, x: nat)
    requires lo + n + x <= |a|
    ensures a[lo..lo + n] == a[lo..lo + n + x][..n]
    ensures a[lo + n..lo + n + x] == a[lo..lo + n + x][n..]
  {
  }

  function Reloaded(d: Regs, s: nat, n: nat): Regs
    requires s < |d.bufs| == |d.lims|
  {
    d.(bufs := d.bufs[s := s * BUF_SIZE], lims := d.lims[s := s * BUF_SIZE + n])
  }

  lemma Refilled(was: seq<byte>, src: seq<byte>, d: Regs, g: Progress, at: seq<nat>, extra: seq<nat>,
                 s: nat, n: nat, x: nat)
    requires Synced(was, g.ends, d, g.S, Seen(g)) && Stocked(was, d, g, at, extra) && s < 4
    requires |d.bufs| == |d.lims| == |g.ends| == 4 && d.bufs[s] == d.lims[s] && Wants(Seen(g)) == Some(s)
    requires |src| == |was| && forall j | 0 <= j < |src| && !(s * BUF_SIZE <= j < (s + 1) * BUF_SIZE) :: src[j] == was[j]
    requires n + x <= BUF_SIZE && g.ends[s] + n + x <= |g.S[s]|
    requires if IsWordStream(s) then x < 4 && n % 4 == 0 else x == 0
    requires src[s * BUF_SIZE..s * BUF_SIZE + n + x] == g.S[s][g.ends[s]..g.ends[s] + n + x]
    ensures
      var g' := g.(ends := g.ends[s := g.ends[s] + n]);
      && Seen(g') == Seen(g)
      && Synced(src, g'.ends, Reloaded(d, s, n), g.S, Seen(g'))
      && Stocked(src, Reloaded(d, s, n), g', at[s := g.ends[s] + n + x], extra[s := x])
  {
    hide After, Wants, Window, Region, Inv;
    Shape(was, g.ends, d, g.S, Seen(g));
    WantedPos(g, s);
    var d', ends := Reloaded(d, s, n), g.ends[s := g.ends[s] + n];
    var pos, seen := After(g.S, g.steps).pos, Seen(g).pos;
    FillRegion(src, s, g.S[s], g.ends[s], n, x);
    forall i | 0 <= i < 4
      ensures Window(src, d'.bufs[i], d'.lims[i], g.S[i], seen[i], ends[i])
      ensures Region(src, i, d'.lims[i], g.S[i], pos[i], ends[i], at[s := g.ends[s] + n + x][i], extra[s := x][i])
    {
      if i != s {
        KeepRegion(was, src, s, i, d.bufs[i], d.lims[i], g.S[i], pos[i], seen[i], g.ends[i], at[i], extra[i]);
      }
    }
  }

  lemma TracksSynced(src: seq<byte>, d: Regs, g: Progress, state: nat)
    requires Tracks(src, d, g, state)
    ensures Synced(src, g.ends, d, g.S, Seen(g))
  {
  }

  lemma TracksRefilled(was: seq<byte>, src: seq<byte>, d: Regs, d': Regs, g: Progress, g': Progress, state: nat)
    requires Tracks(was, d, g, state) && d'.temp == d.temp
    requires Seen(g') == Seen(g) && g'.S == g.S && g'.ahead == g.ahead && Synced(src, g'.ends, d', g'.S, Seen(g'))
    ensures Tracks(src, d', g', state)
  {
    hide Synced, Seen;
  }

  lemma BeforeRefill(src: seq<byte>, d: Regs, g: Progress, at: seq<nat>, extra: seq<nat>, s: nat)
    requires Synced(src, g.ends, d, g.S, Seen(g)) && Stocked(src, d, g, at, extra) && s < 4
    requires |d.bufs| == |d.lims| == 4 && d.bufs[s] == d.lims[s]
    ensures |src| == 4 * BUF_SIZE && |at| == |extra| == |g.ends| == 4
    ensures s * BUF_SIZE <= d.bufs[s] && d.bufs[s] + extra[s] <= (s + 1) * BUF_SIZE
    ensures extra[s] < 4 && extra[s] <= at[s] && g.ends[s] == at[s] - extra[s] && at[s] <= |g.S[s]|
    ensures src[d.bufs[s]..d.bufs[s] + extra[s]] == g.S[s][at[s] - extra[s]..at[s]]
    ensures !IsWordStream(s) ==> extra[s] == 0
  {
    hide After;
    Shape(src, g.ends, d, g.S, Seen(g));
    assert Region(src, s, d.lims[s], g.S[s], After(g.S, g.steps).pos[s], g.ends[s], at[s], extra[s]);
  }

  lemma RefillStarved(src: seq<byte>, d: Regs, g: Progress, s: nat, total: nat)
    requires Synced(src, g.ends, d, g.S, Seen(g)) && s < 4
    requires |d.bufs| == |d.lims| == 4 && d.bufs[s] == d.lims[s]
    requires Wants(Seen(g)) == Some(s) && |g.ends| == 4 && g.ends[s] + total == |g.S[s]|
    requires total == 0 || (total < 4 && IsWordStream(s))
    ensures Starved(g.S, After(g.S, g.steps))
    ensures CutShort(g.S, After(g.S, g.steps)) <==> total > 0
  {
    Shape(src, g.ends, d, g.S, Seen(g));
    WantedPos(g, s);
  }

  lemma FilledNone(base: seq<byte>, dst: seq<byte>)
    ensures Filled(base, dst, 0, base)
  {
    assert base + dst[..0] == base;
  }

  lemma FilledIs(base: seq<byte>, dst: seq<byte>, d: nat, out: seq<byte>)
    requires Filled(base, dst, d, out)
    ensures d <= |dst| && out == base + dst[..d] && (d == 0 ==> out == base)
  {
    assert base + dst[..0] == base;
  }

  lemma NotFetching(src: seq<byte>, d: Regs, g: Progress, state: nat)
    requires Tracks(src, d, g, state) && state >= 4
    ensures !CutShort(g.S, After(g.S, g.steps))
  {
    hide After, Synced, Inv;
  }

  lemma RangesMeet(src: seq<byte>, d: Regs, g: Progress, state: nat)
    requires Tracks(src, d, g, state)
    ensures Seen(g).mode.Plain? ==> d.range == Seen(g).range
  {
    hide After, Inv, Seen;
  }

  // One marker, which asks for an address of which a single byte is there.
  const SHORT_WORD: Streams := [[0xE8], [0], [], [0, 0x80, 0, 0, 0]]

  // A size of one is reached there with the range coder not at its end.
  lemma ShortWordPasses()
    ensures var m := After(SHORT_WORD, 7);
      && CutShort(SHORT_WORD, m) && Starved(SHORT_WORD, m)
      && m.out == [0xE8] == Decoded(SHORT_WORD) && m.code != 0
  {
    StartLast();
    OutputIsPrefix(SHORT_WORD, 7);
  }

  // Nothing has been put out, and the machine can go on.
  predicate Starting(m: Machine) {
    m.out == [] && !m.mode.Failed? && !CutShort(SHORT_WORD, m) && |m.pos| == 4 && !Starved(SHORT_WORD, m)
  }

  lemma StartBytes()
    ensures forall k | 0 <= k <= 5 :: Starting(After(SHORT_WORD, k))
    ensures After(SHORT_WORD, 5) == START.(mode := Init(5), code := 0x8000_0000, pos := [0, 0, 0, 5])
  {
    assert After(SHORT_WORD, 0) == START;
    StartStep(SHORT_WORD, 0, 0);
    StartStep(SHORT_WORD, 1, 0);
    StartStep(SHORT_WORD, 2, 0x80);
    StartStep(SHORT_WORD, 3, 0x8000);
    StartStep(SHORT_WORD, 4, 0x80_0000);
    hide After;
    forall k | 0 <= k <= 5 ensures Starting(After(SHORT_WORD, k)) {
      assert k == 0 || k == 1 || k == 2 || k == 3 || k == 4 || k == 5;
    }
  }

  lemma StartDone()
    requires After(SHORT_WORD, 5) == START.(mode := Init(5), code := 0x8000_0000, pos := [0, 0, 0, 5])
    ensures After(SHORT_WORD, 6) == After(SHORT_WORD, 5).(mode := Plain, range := 0xFFFF_FFFF)
  {
    AfterNext(SHORT_WORD, 5);
    hide After, ProbsOk, TakePlain;
  }

  lemma MarkerTaken(S: Streams, m: Machine, b: byte)
    requires Inv(S, m) && m.mode.Plain? && TOP <= m.range && m.pos[MAIN] < |S[MAIN]| && b == S[MAIN][m.pos[MAIN]]
    requires Marker(m.prev, b) && Taken(m, ProbIndex(m.prev, b))
    ensures var n := Step(S, m);
      && n.mode.Fetch? && n.prev == b && n.out == m.out + [b] && n.pos == m.pos[MAIN := m.pos[MAIN] + 1]
      && n.code == m.code - Bound(m.range, m.probs[ProbIndex(m.prev, b)])
  {
  }

  // The only main byte, whose address is asked for.
  lemma LastByte(S: Streams, m: Machine)
    requires S == [[0xE8], [0], [], [0, 0x80, 0, 0, 0]] && Inv(S, m) && m.mode.Plain?
    requires m.code == 0x8000_0000 && m.range == 0xFFFF_FFFF && m.pos == [0, 0, 0, 5] && m.out == [] && m.prev == 0
    requires |m.probs| == PROBS && m.probs[2] == 1024
    ensures var n := Step(S, m); CutShort(S, n) && Starved(S, n) && n.out == [0xE8] && n.code != 0
  {
    hide Inv, Step;
    assert Bound(m.range, 1024) == 0x7FFF_FC00;
    assert Taken(m, ProbIndex(0, 0xE8));
    MarkerTaken(S, m, 0xE8);
    assert m.pos[MAIN := 1] == [1, 0, 0, 5];
  }

  lemma StartLast()
    ensures var n := After(SHORT_WORD, 7);
      CutShort(SHORT_WORD, n) && Starved(SHORT_WORD, n) && n.out == [0xE8] && n.code != 0
  {
    StartBytes();
    StartDone();
    AfterNext(SHORT_WORD, 6);
    hide After, Step, Starved, CutShort, Inv, Starting;
    LastByte(SHORT_WORD, After(SHORT_WORD, 6));
  }

  lemma BeforeLast()
    ensures Starting(After(SHORT_WORD, 6))
  {
    StartBytes();
    StartDone();
    hide After;
  }

  // Whatever state a reader stops in, it has put out nothing or all there is.
  lemma ShortWordStates(k: nat)
    ensures var m := After(SHORT_WORD, k);
      if k < 7 then Starting(m) else m == After(SHORT_WORD, 7)
  {
    hide After, Starting, CutShort;
    StartBytes();
    StartLast();
    BeforeLast();
    if k >= 7 {
      StarvedForever(SHORT_WORD, 7, k);
    }
  }

  lemma StartStep(S: Streams, k: nat, code: u32)
    requires k < 5 <= |S[RC]| && (k == 0 ==> code == 0) && (k == 1 ==> code == 0) && code < 0x100_0000
    requires After(S, k) == START.(mode := Init(k), code := code, pos := [0, 0, 0, k])
    ensures After(S, k + 1) == START.(mode := Init(k + 1), code := code * 256 + S[RC][k], pos := [0, 0, 0, k + 1])
  {
    AfterNext(S, k);
  }

  class Bcj2Reader {
    const bufs: array<byte>
    const inputs: Inputs
    const decoder: Bcj2Decoder
    var extra: seq<nat>
    var size: nat
    ghost var delivered: seq<byte>

    ghost predicate Valid()
      reads this, bufs, inputs, decoder
    {
      Consistent() && delivered == Seen(decoder.g).out
    }

    // `Valid`, while a call of `Read` is under way.
    ghost predicate Consistent()
      reads this, bufs, inputs, decoder
    {
      && inputs.Valid()
      && decoder.g.S == inputs.S
      && Tracks(bufs[..], decoder.r, decoder.g, decoder.state)
      && Stocked(bufs[..], decoder.r, decoder.g, inputs.at, extra)
    }

    constructor (S: Streams, size: nat)
      ensures Valid() && fresh(bufs) && fresh(inputs) && fresh(decoder)
      ensures inputs.S == decoder.g.S == S && this.size == size && delivered == []
    {
      var memory := new byte[4 * BUF_SIZE];
      bufs := memory;
      inputs := new Inputs(S);
      decoder := new Bcj2Decoder(S, [0, BUF_SIZE, 2 * BUF_SIZE, 3 * BUF_SIZE], memory[..]);
      extra := [0, 0, 0, 0];
      this.size := size;
      delivered := [];
      new;
      hide Tracks, Stocked, Seen, After;
      StartStocked(bufs[..], decoder.r, decoder.g);
    }

    // What a valid reader has returned is the beginning of the one decoding.
    lemma DeliversPrefix()
      requires Valid()
      ensures delivered <= Decoded(inputs.S)
      ensures Starved(inputs.S, After(inputs.S, decoder.g.steps)) ==> delivered == Decoded(inputs.S)
    {
      hide After, Tracks, Stocked;
      OutputIsPrefix(inputs.S, decoder.g.steps);
    }

    // Bytes the four inner readers have still to give.
    ghost function Unread(): int
      requires inputs.Valid()
      reads inputs
    {
      var held: int := |inputs.S[0]| + |inputs.S[1]| + |inputs.S[2]| + |inputs.S[3]|;
      var read: int := inputs.at[0] + inputs.at[1] + inputs.at[2] + inputs.at[3];
      held - read
    }

    // The bytes of an incomplete word move to the front of their region.
    method MoveExtra(s: nat, from: nat, total: nat)
      requires s < 4 && bufs.Length == 4 * BUF_SIZE && s * BUF_SIZE <= from && from + total <= (s + 1) * BUF_SIZE
      modifies bufs
      ensures forall j | 0 <= j < bufs.Length && !(s * BUF_SIZE <= j < s * BUF_SIZE + total) :: bufs[j] == old(bufs[j])
      ensures bufs[s * BUF_SIZE..s * BUF_SIZE + total] == old(bufs[from..from + total])
    {
      var lo := s * BUF_SIZE;
      ghost var was := bufs[..];
      for i := 0 to total
        invariant forall j | 0 <= j < bufs.Length && !(lo <= j < lo + i) :: bufs[j] == was[j]
        invariant forall j | lo <= j < lo + i :: bufs[j] == was[j - lo + from]
      {
        bufs[lo + i] := bufs[from + i];
      }
      SameSlice(bufs[..], lo, was, from, total);
    }

    // Region `s` begins with `total` bytes of its stream, of which `had` were
    // there when the inner readers were at `at`.
    ghost predicate Holding(s: nat, had: nat, total: nat, at: seq<nat>)
      requires s < 4 && bufs.Length == 4 * BUF_SIZE
      reads this, bufs, inputs
    {
      && inputs.Valid() && |at| == 4 && had <= total <= BUF_SIZE && had <= at[s] && total <= inputs.at[s]
      && inputs.at == at[s := at[s] - had + total]
      && bufs[s * BUF_SIZE..s * BUF_SIZE + total] == inputs.S[s][inputs.at[s] - total..inputs.at[s]]
    }

    // Reads until the region holds something; for an address stream, a word.
    method ReadSome(s: nat, had: nat) returns (f: Result<nat, Bcj2Error>)
      requires s < 4 && bufs.Length == 4 * BUF_SIZE && had < 4 && inputs.Valid() && Holding(s, had, had, inputs.at)
      modifies bufs, inputs
      ensures inputs.Valid()
      ensures forall j | 0 <= j < bufs.Length && !(s * BUF_SIZE <= j < (s + 1) * BUF_SIZE) :: bufs[j] == old(bufs[j])
      ensures f.Ok? ==> Holding(s, had, f.value, old(inputs.at))
      ensures f.Ok? && (f.value == had || (IsWordStream(s) && f.value < 4)) ==> inputs.at[s] == |inputs.S[s]|
      ensures f.Err? ==> inputs.failed
    {
      hide IsWordStream, Holding;
      ghost var at := inputs.at;
      var total := had;
      var more := true;
      while more
        invariant inputs.Valid() && Holding(s, had, total, at) && (more ==> total < 4)
        invariant forall j | 0 <= j < bufs.Length && !(s * BUF_SIZE <= j < (s + 1) * BUF_SIZE) :: bufs[j] == old(bufs[j])
        invariant !more ==> total >= 4 || !IsWordStream(s) || inputs.at[s] == |inputs.S[s]|
        invariant !more && total == had ==> inputs.at[s] == |inputs.S[s]|
        decreases more, |inputs.S[s]| - inputs.at[s]
      {
        var n := ReadOnce(s, had, total, at);
        if n.Err? {
          return Err(Bcj2Error.Io);
        }
        total := total + n.value;
        more := n.value > 0 && total < 4 && IsWordStream(s);
      }
      return Ok(total);
    }

    // One read behind the `total` bytes the region holds.
    method ReadOnce(s: nat, ghost had: nat, total: nat, ghost at: seq<nat>) returns (n: Result<nat, Bcj2Error>)
      requires s < 4 && bufs.Length == 4 * BUF_SIZE && total < 4 && Holding(s, had, total, at)
      modifies bufs, inputs
      ensures inputs.Valid()
      ensures forall j | 0 <= j < bufs.Length && !(s * BUF_SIZE <= j < (s + 1) * BUF_SIZE) :: bufs[j] == old(bufs[j])
      ensures n.Ok? ==> Holding(s, had, total + n.value, at) && inputs.at[s] == old(inputs.at)[s] + n.value
      ensures n.Ok? && n.value == 0 ==> inputs.at[s] == |inputs.S[s]|
      ensures n.Ok? ==> had <= total
      ensures n.Err? ==> inputs.failed
    {
      hide Holding;
      Holds(s, had, total, at);
      var lo := s * BUF_SIZE;
      ghost var was, before, start := bufs[..], inputs.at, inputs.at[s] - total;
      n := inputs.Read(s, bufs, lo + total, (s + 1) * BUF_SIZE);
      if n.Ok? {
        GrowSlice(was, bufs[..], lo, total, n.value, inputs.S[s], start);
        HoldsMore(s, had, total, at, before, n.value);
      }
    }

    lemma Holds(s: nat, had: nat, total: nat, at: seq<nat>)
      requires s < 4 && bufs.Length == 4 * BUF_SIZE && Holding(s, had, total, at)
      ensures inputs.Valid() && had <= total <= BUF_SIZE && total <= inputs.at[s]
      ensures bufs[s * BUF_SIZE..s * BUF_SIZE + total] == inputs.S[s][inputs.at[s] - total..inputs.at[s]]
      ensures |at| == 4 && had <= at[s] && inputs.at == at[s := at[s] - had + total]
    {
    }

    lemma HoldsMore(s: nat, had: nat, total: nat, at: seq<nat>, before: seq<nat>, n: nat)
      requires s < 4 && bufs.Length == 4 * BUF_SIZE && inputs.Valid() && |at| == 4 && had <= at[s]
      requires had <= total && total + n <= BUF_SIZE && total <= at[s] - had + total
      requires before == at[s := at[s] - had + total] && inputs.at == before[s := before[s] + n]
      requires bufs[s * BUF_SIZE..s * BUF_SIZE + (total + n)] == inputs.S[s][before[s] - total..before[s] + n]
      ensures Holding(s, had, total + n, at)
    {
      assert inputs.at == at[s := at[s] - had + (total + n)];
    }

    // What is left of region `s` moves to its front, and more is read behind it.
    method Collect(s: nat) returns (f: Result<nat, Bcj2Error>)
      requires Consistent() && s < 4 && Wants(Seen(decoder.g)) == Some(s)
      requires |decoder.r.bufs| == |decoder.r.lims| == 4 && decoder.r.bufs[s] == decoder.r.lims[s]
      modifies bufs, inputs
      ensures inputs.Valid() && |decoder.g.ends| == |extra| == 4
      ensures forall j | 0 <= j < bufs.Length && !(s * BUF_SIZE <= j < (s + 1) * BUF_SIZE) :: bufs[j] == old(bufs[j])
      ensures f.Ok? ==> f.value <= BUF_SIZE && inputs.at == old(inputs.at)[s := decoder.g.ends[s] + f.value]
      ensures f.Ok? ==> bufs[s * BUF_SIZE..s * BUF_SIZE + f.value] == inputs.S[s][decoder.g.ends[s]..inputs.at[s]]
      ensures f.Ok? ==> f.value >= old(inputs.at)[s] - decoder.g.ends[s]
      ensures f.Ok? && (f.value == old(inputs.at)[s] - decoder.g.ends[s] || (IsWordStream(s) && f.value < 4)) ==>
                inputs.at[s] == |inputs.S[s]|
      ensures f.Ok? ==> old(inputs.at)[s] < decoder.g.ends[s] + 4
      ensures f.Ok? && !IsWordStream(s) ==> old(inputs.at)[s] == decoder.g.ends[s]
      ensures f.Err? ==> inputs.failed
    {
      hide Step, After, Synced, Inv, Stocked, Wants, Seen, Holding, IsWordStream;
      BeforeRefill(bufs[..], decoder.r, decoder.g, inputs.at, extra, s);
      ghost var at, end := inputs.at, decoder.g.ends[s];
      MoveExtra(s, decoder.r.bufs[s], extra[s]);
      HeldAtFirst(s, extra[s], end);
      f := ReadSome(s, extra[s]);
      if f.Ok? {
        Held(s, extra[s], f.value, at, end);
      }
    }

    lemma HeldAtFirst(s: nat, had: nat, end: nat)
      requires s < 4 && bufs.Length == 4 * BUF_SIZE && inputs.Valid() && had < 4 && end + had == inputs.at[s]
      requires bufs[s * BUF_SIZE..s * BUF_SIZE + had] == inputs.S[s][end..inputs.at[s]]
      ensures Holding(s, had, had, inputs.at)
    {
    }

    lemma Held(s: nat, had: nat, total: nat, at: seq<nat>, end: nat)
      requires s < 4 && bufs.Length == 4 * BUF_SIZE && Holding(s, had, total, at) && end + had == at[s]
      ensures had <= total <= BUF_SIZE && inputs.at == at[s := end + total]
      ensures bufs[s * BUF_SIZE..s * BUF_SIZE + total] == inputs.S[s][end..inputs.at[s]]
    {
    }

    // Refills the window the decoder stopped at.
    method Refill() returns (f: RefillOutcome)
      requires Consistent() && decoder.state < 4 && Wants(Seen(decoder.g)) == Some(decoder.state)
      requires |decoder.r.bufs| == |decoder.r.lims| == 4
      requires decoder.r.bufs[decoder.state] == decoder.r.lims[decoder.state]
      modifies `extra, bufs, inputs, decoder`r, decoder`g
      ensures Seen(decoder.g) == old(Seen(decoder.g)) && decoder.g == old(decoder.g).(ends := decoder.g.ends)
      ensures decoder.r == old(decoder.r).(bufs := decoder.r.bufs, lims := decoder.r.lims)
      ensures !f.Broken? ==> Consistent() && (f.Restocked? ==> Unread() < old(Unread()))
      ensures f.Dry? || f.Short? ==> Starved(inputs.S, After(inputs.S, decoder.g.steps))
      ensures f.Short? ==> CutShort(inputs.S, After(inputs.S, decoder.g.steps))
      ensures f.Dry? ==> !CutShort(inputs.S, After(inputs.S, decoder.g.steps))
      ensures f.Broken? ==> inputs.failed
    {
      hide Step, After, Synced, Inv, Stocked, Wants, Seen, Tracks, CutShort;
      ghost var was, d, g, at := bufs[..], decoder.r, decoder.g, inputs.at;
      assert Synced(was, g.ends, d, g.S, Seen(g)) by { TracksSynced(was, d, g, decoder.state); }
      var s := decoder.state;
      var got := Collect(s);
      if got.Err? {
        return RefillOutcome.Broken;
      }
      var total := got.value;
      var over := if IsWordStream(s) then total % 4 else 0;
      Refilled(was, bufs[..], d, g, at, extra, s, total - over, over);
      if total == 0 || (total < 4 && IsWordStream(s)) {
        RefillStarved(was, d, g, s, total);
      }
      extra := extra[s := over];
      decoder.g := g.(ends := g.ends[s := g.ends[s] + (total - over)]);
      decoder.r := Reloaded(decoder.r, s, total - over);
      TracksRefilled(was, bufs[..], d, decoder.r, g, decoder.g, s);
      if total == 0 {
        return RefillOutcome.Dry;
      }
      return if IsWordStream(s) && total < 4 then RefillOutcome.Short else Restocked;
    }

    // The machine has output all it will and the range coder is at its end.
    ghost predicate AtEnd()
      reads decoder
    {
      var m := Seen(decoder.g);
      m.mode.Plain? && TOP <= m.range && m.code == 0
    }

    // What the end of the declared size is checked for.
    method CheckEnd() returns (e: Option<Bcj2Error>)
      requires Consistent()
      requires decoder.state == MAIN || decoder.state == ORIG <==> Seen(decoder.g).mode.Plain? && TOP <= decoder.r.range
      ensures size == 0 ==> (e.None? <==> AtEnd())
      ensures e == None || (size == 0 && e == Some(BadCode)) || (size == 0 && e == Some(BadEnd))
    {
      hide Step, After, Inv, Stocked, Seen;
      if size == 0 {
        Shape(bufs[..], decoder.g.ends, decoder.r, decoder.g.S, Seen(decoder.g));
        if decoder.r.code != 0 {
          return Some(BadCode);
        }
        if decoder.state != MAIN && decoder.state != ORIG {
          return Some(BadEnd);
        }
      }
      return None;
    }

    ghost predicate AtShortWord()
      reads decoder
    {
      CutShort(decoder.g.S, After(decoder.g.S, decoder.g.steps))
    }

    // Decodes into the first `lim` bytes of `buf` until they are full, the input
    // has no more to give, or something fails.
    method FillUp(buf: array<byte>, lim: nat) returns (h: Halt, offset: nat)
      requires Valid() && buf != bufs && lim <= buf.Length && lim <= size
      modifies `extra, `size, bufs, inputs, decoder, buf
      ensures decoder.g.S == old(decoder.g.S) && decoder.g.steps >= old(decoder.g.steps)
      ensures h.Malformed? ==> After(inputs.S, decoder.g.steps).mode.Failed?
      ensures h.Io? ==> inputs.failed
      ensures h.Full? || h.Dry? || h.Short? ==>
        && Consistent() && offset <= lim && size == old(size) - offset
        && Filled(old(delivered), buf[..], offset, Seen(decoder.g).out)
        && (AtShortWord() <==> h.Short?)
        && if h.Full? then offset == lim else Starved(inputs.S, After(inputs.S, decoder.g.steps))
      ensures h.Full? || h.Dry? ==>
        (decoder.state == MAIN || decoder.state == ORIG <==> Seen(decoder.g).mode.Plain? && TOP <= decoder.r.range)
      ensures h.Full? && Seen(decoder.g).mode.Plain? ==> TOP <= decoder.r.range == Seen(decoder.g).range
    {
      hide Step, After, Synced, Inv, Stocked, Wants, Seen, Starved, CutShort, Filled;
      FilledNone(delivered, buf[..]);
      decoder.dest := 0;
      offset := 0;
      while true
        invariant Consistent() && decoder.g.S == old(decoder.g.S) && decoder.g.steps >= old(decoder.g.steps)
        invariant offset == decoder.dest <= lim && size == old(size) - offset
        invariant Filled(old(delivered), buf[..], decoder.dest, Seen(decoder.g).out)
        decreases Unread()
      {
        ghost var d, g := decoder.r, decoder.g;
        var ok := decoder.Decode(bufs[..], buf, lim, old(delivered));
        if !ok {
          return Halt.Malformed, offset;
        }
        StillStocked(bufs[..], d, g, decoder.r, decoder.g, inputs.at, extra);
        size := size - (decoder.dest - offset);
        offset := decoder.dest;
        if decoder.state >= 4 {
          NotFetching(bufs[..], decoder.r, decoder.g, decoder.state);
          RangesMeet(bufs[..], decoder.r, decoder.g, decoder.state);
          return Full, offset;
        }
        var f := Refill();
        match f {
          case Broken => return Halt.Io, offset;
          case Dry => return Halt.Dry, offset;
          case Short => return Halt.Short, offset;
          case Restocked =>
        }
      }
    }

    // Fills the caller's buffer as far as the declared size and the input allow.
    method Read(buf: array<byte>) returns (n: Result<nat, Bcj2Error>)
      requires Valid() && buf != bufs
      modifies `extra, `size, `delivered, bufs, inputs, decoder, buf
      ensures decoder.g.S == old(decoder.g.S) && decoder.g.steps >= old(decoder.g.steps)
      // What a successful read returns is the next piece of the one decoding.
      ensures n.Ok? ==> Valid() && n.value <= buf.Length && n.value <= old(size) && size == old(size) - n.value
      ensures n.Ok? ==> delivered == old(delivered) + buf[..n.value]
      // It is short only when the input has no more to give.
      ensures n.Ok? && n.value < buf.Length && n.value < old(size) ==>
                Starved(inputs.S, After(inputs.S, decoder.g.steps))
      // Reaching the declared size succeeds at a proper end, and also when the
      // last decision asks for an address whose stream ends inside a word;
      // otherwise, and only otherwise, the end check fails.
      ensures n.Ok? && n.value > 0 && size == 0 ==> AtEnd() || AtShortWord()
      ensures n.Err? && (n.error.BadCode? || n.error.BadEnd?) ==>
        && size == 0 && !AtEnd() && !AtShortWord() && |Seen(decoder.g).out| == |old(delivered)| + old(size)
        && (Seen(decoder.g).mode.Plain? ==> TOP <= Seen(decoder.g).range || Starved(inputs.S, After(inputs.S, decoder.g.steps)))
      // A word cut short is an error only when nothing was decoded before it.
      ensures n.Err? && n.error.ShortWord? ==>
        AtShortWord() && size == old(size) > 0 && Seen(decoder.g).out == old(delivered)
      ensures n.Err? && n.error.Malformed? ==> After(inputs.S, decoder.g.steps).mode.Failed?
      ensures n.Err? && n.error.Io? ==> inputs.failed
      ensures n.Err? ==> old(size) > 0
    {
      hide Step, After, Synced, Inv, Stocked, Seen, Starved, CutShort, Filled, Tracks;
      var lim := if buf.Length > size then size else buf.Length;
      if lim == 0 {
        assert delivered + buf[..0] == delivered;
        return Ok(0);
      }
      var h, offset := FillUp(buf, lim);
      match h {
        case Malformed => return Err(Bcj2Error.Malformed);
        case Io => return Err(Bcj2Error.Io);
        case Short =>
          FilledIs(delivered, buf[..], offset, Seen(decoder.g).out);
          if offset == 0 {
            return Err(ShortWord);
          }
          delivered := Seen(decoder.g).out;
          return Ok(offset);
        case _ =>
      }
      FilledIs(delivered, buf[..], offset, Seen(decoder.g).out);
      delivered := Seen(decoder.g).out;
      var e := CheckEnd();
      return if e.Some? then Err(e.value) else Ok(offset);
    }

    // One read into a buffer of `len` bytes, as a caller sees it.
    method ReadNext(len: nat) returns (piece: seq<byte>, e: Option<Bcj2Error>)
      requires Valid()
      modifies `extra, `size, `delivered, bufs, inputs, decoder
      ensures |piece| <= len && (e.Some? ==> piece == [])
      ensures e.None? ==> Valid() && delivered == old(delivered) + piece && size == old(size) - |piece|
      ensures e.None? ==> delivered <= Decoded(inputs.S)
      ensures e.None? && |piece| < len ==> size == 0 || delivered == Decoded(inputs.S)
    {
      hide Tracks, Stocked, After, Seen, Decoded, Starved;
      var buf := new byte[len];
      var n := Read(buf);
      if n.Err? {
        return [], Some(n.error);
      }
      DeliversPrefix();
      return buf[..n.value], None;
    }

    // A caller reading with any sequence of buffer sizes until it has had
    // enough, a read falls short, or one fails.
    method ReadAll(sizes: seq<nat>) returns (all: seq<byte>, e: Option<Bcj2Error>)
      requires Valid()
      modifies `extra, `size, `delivered, bufs, inputs, decoder
      ensures |all| <= old(size) && old(delivered) + all <= Decoded(inputs.S)
      ensures e.None? ==> |all| == Sum(sizes) || |all| == old(size) || old(delivered) + all == Decoded(inputs.S)
      decreases |sizes|
    {
      hide Decoded, Bcj2Reader.Consistent, Seen;
      ghost var had := delivered;
      DeliversPrefix();
      all, e := [], None;
      assert had + [] == had;
      if sizes == [] {
        return;
      }
      var piece, failed := ReadNext(sizes[0]);
      if failed.Some? || |piece| < sizes[0] {
        return piece, failed;
      }
      ghost var now := delivered;
      var rest;
      rest, e := ReadAll(sizes[1..]);
      all := piece + rest;
      assert had + (piece + rest) == now + rest;
    }
  }

  // A whole decode, from a new reader on.
  method ReadRun(S: Streams, size: nat, sizes: seq<nat>) returns (all: seq<byte>, e: Option<Bcj2Error>)
    ensures all <= Decoded(S) && |all| <= size
    ensures e.None? ==> |all| == Sum(sizes) || |all| == size || all == Decoded(S)
  {
    hide Decoded, Bcj2Reader.Consistent, Seen;
    var reader := new Bcj2Reader(S, size);
    all, e := reader.ReadAll(sizes);
    assert [] + all == all;
  }

  lemma SeenOut(g: Progress)
    ensures Seen(g).out == After(g.S, g.steps).out
  {
    hide After;
  }

  lemma SeenMode(g: Progress)
    ensures Seen(g).mode == After(g.S, g.steps).mode
  {
    hide After;
  }

  // A read of the declared size returns it, unless an inner read fails: the end
  // check that the state would not pass is not made.
  method ReadShortWord() returns (n: Result<nat, Bcj2Error>, reader: Bcj2Reader)
    ensures n == Ok(1) || (n == Err(Bcj2Error.Io) && reader.inputs.failed)
  {
    hide After, Seen, Starved, CutShort, Bcj2Reader.Consistent, Decoded;
    reader := new Bcj2Reader(SHORT_WORD, 1);
    var buf := new byte[1];
    n := reader.Read(buf);
    ShortWordPasses();
    ShortWordStates(reader.decoder.g.steps);
    SeenOut(reader.decoder.g);
  }

  function Sum(sizes: seq<nat>): nat {
    if sizes == [] then 0 else sizes[0] + Sum(sizes[1..])
  }
}
