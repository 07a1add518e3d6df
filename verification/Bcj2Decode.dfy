// The resumable BCJ2 decoder: works on a buffered window of each stream, may
// stop at any destination byte or any empty window, and picks up from there.
module Bcj2Decode {
  import opened Common
  import opened Bcj2Spec
  import opened Bcj2Sync

  // Copies main bytes until `lim` or a marker, which is written but not passed.
  method Scan(src: seq<byte>, dst: array<byte>, dest: nat, prev: byte, from: nat, lim: nat) returns (s: nat)
    requires from < lim <= |src| && dest + (lim - from) <= dst.Length
    modifies dst
    ensures from <= s <= lim && PlainBytes(src, from, s, prev)
    ensures s < lim ==> Marker(if s == from then prev else src[s - 1], src[s]) && dst[dest + (s - from)] == src[s]
    ensures dst[..dest] == old(dst[..dest]) && dst[dest..dest + (s - from)] == src[from..s]
  {
    hide PlainBytes, Marker;
    PlainMore(src, from, from, prev);
    s := from;
    assert dst[dest..dest + 0] == src[from..from];
    if prev == 0x0F && 0x80 <= src[s] < 0x90 {
      dst[dest] := src[s];
      return;
    }
    while true
      invariant from <= s < lim && PlainBytes(src, from, s, prev)
      invariant (if s == from then prev else src[s - 1]) == 0x0F ==> !(0x80 <= src[s] < 0x90)
      invariant forall j | 0 <= j < dest :: dst[j] == old(dst[j])
      invariant forall j | dest <= j < dest + (s - from) :: dst[j] == src[j - dest + from]
      decreases lim - s
    {
      PlainMore(src, from, s, prev);
      var b, at := src[s], dest + (s - from);
      dst[at] := b;
      if b == 0xE8 || b == 0xE9 {
        break;
      }
      s := s + 1;
      if s == lim {
        break;
      }
      if b == 0x0F && 0x80 <= src[s] < 0x90 {
        PlainMore(src, from, s, prev);
        dst[at + 1] := src[s];
        break;
      }
    }
    SameSlice(dst[..], dest, src, from, s - from);
  }

  class Bcj2Decoder {
    var r: Regs
    var dest: nat
    var state: nat
    ghost var g: Progress

    constructor (ghost S: Streams, bufs: seq<nat>, ghost src: seq<byte>)
      requires |bufs| == 4 && forall i | 0 <= i < 4 :: bufs[i] <= |src|
      ensures r.bufs == bufs && r.lims == bufs && g == Progress(S, 0, false, [0, 0, 0, 0])
      ensures Tracks(src, r, g, state)
    {
      r := Regs(bufs, bufs, [0, 0, 0, 0], 0, 0, 0, Flat(PROBS));
      dest, state := 0, OK_STATE;
      g := Progress(S, 0, false, [0, 0, 0, 0]);
    }

    // The five start bytes of the range coder.
    method Begin(src: seq<byte>) returns (o: Outcome)
      requires Synced(src, g.ends, r, g.S, Seen(g)) && Seen(g).mode.Init? && !g.ahead
      modifies this
      ensures g.S == old(g).S && g.ends == old(g).ends && dest == old(dest) && r.temp == old(r).temp && r.lims == old(r).lims && !g.ahead
      ensures g.steps >= old(g).steps && |r.bufs| == 4
      ensures o.Malformed? ==> After(g.S, g.steps).mode.Failed?
      ensures !o.Malformed? ==> Synced(src, g.ends, r, g.S, Seen(g)) && Seen(g).out == old(Seen(g).out)
      ensures o.Go? ==> Seen(g).mode.Plain? && state == OK_STATE
      ensures o.Pause? ==> Seen(g).mode.Init? && Wants(Seen(g)) == Some(RC) && state == RC && r.bufs[RC] == r.lims[RC]
    {
      hide Step, After, Synced, Inv, ProbsOk;
      Shape(src, g.ends, r, g.S, Seen(g));
      state := OK_STATE;
      while r.range != 5
        invariant Synced(src, g.ends, r, g.S, Seen(g)) && Seen(g).mode.Init? && !g.ahead && state == OK_STATE
        invariant g.S == old(g).S && g.ends == old(g).ends && dest == old(dest) && r.temp == old(r).temp && r.lims == old(r).lims
        invariant g.steps >= old(g).steps && |r.bufs| == 4 && Seen(g).out == old(Seen(g).out)
        decreases 5 - r.range
      {
        Shape(src, g.ends, r, g.S, Seen(g));
        if r.range == 1 && r.code != 0 {
          SyncStart(src, g.ends, r, g.S, Seen(g));
          AfterNext(g.S, g.steps);
          g := g.(steps := g.steps + 1);
          return Malformed;
        }
        if r.bufs[RC] == r.lims[RC] {
          state := RC;
          return Pause;
        }
        SyncStart(src, g.ends, r, g.S, Seen(g));
        AfterNext(g.S, g.steps);
        g := g.(steps := g.steps + 1);
        r := r.(code := (r.code * 256 + src[r.bufs[RC]]) % TWO_32,
                bufs := r.bufs[RC := r.bufs[RC] + 1], range := r.range + 1);
      }
      SyncStart(src, g.ends, r, g.S, Seen(g));
      AfterNext(g.S, g.steps);
      g := g.(steps := g.steps + 1);
      if r.code == 0xFFFF_FFFF {
        return Malformed;
      }
      r := r.(range := 0xFFFF_FFFF);
      return Go;
    }

    // A range-coder byte shifted in when the range has become too small.
    method Normalise(src: seq<byte>) returns (ready: bool)
      requires Synced(src, g.ends, r, g.S, Seen(g)) && Seen(g).mode.Plain? && !g.ahead
      modifies `r, `g
      ensures g.S == old(g).S && g.ends == old(g).ends && g.steps >= old(g).steps && !g.ahead
      ensures Synced(src, g.ends, r, g.S, Seen(g)) && Seen(g).mode.Plain? && Seen(g).out == old(Seen(g).out)
      ensures |r.bufs| == |r.lims| == |old(r).bufs| == 4 && r.lims == old(r).lims
      ensures ready ==> TOP <= r.range && InHand(r) <= InHand(old(r))
      ensures !ready ==> r == old(r) && r.range < TOP && r.bufs[RC] == r.lims[RC] && Wants(Seen(g)) == Some(RC)
    {
      hide Step, After, Synced, Inv, ProbsOk;
      Shape(src, g.ends, r, g.S, Seen(g));
      ready := true;
      if r.range < TOP {
        if r.bufs[RC] == r.lims[RC] {
          return false;
        }
        SyncShift(src, g.ends, r, g.S, Seen(g));
        AfterNext(g.S, g.steps);
        g := g.(steps := g.steps + 1);
        r := r.(code := (r.code * 256 + src[r.bufs[RC]]) % TWO_32,
                bufs := r.bufs[RC := r.bufs[RC] + 1], range := r.range * 256 % TWO_32);
      }
    }

    // Passes the marker at `s`, `num` plain bytes on, and decides whether an
    // address follows it. The plain bytes are counted in `g.steps` already.
    method Judge(src: seq<byte>, s: nat, num: nat, ghost d: Regs) returns (o: Turn)
      requires |r.bufs| == |r.lims| == |r.temp| == 4 && r.bufs[MAIN] + num == s < r.lims[MAIN] <= |src|
      requires d == Skipped(src, r, num) && Marker(d.temp[3], src[s])
      requires Synced(src, g.ends, d, g.S, Seen(g)) && Seen(g).mode.Plain? && !g.ahead && TOP <= r.range
      modifies `r, `g, `dest
      ensures Synced(src, g.ends, r, g.S, Seen(g)) && g == old(g).(steps := old(g).steps + 1)
      ensures dest == old(dest) + num + 1 && Seen(g).out == old(Seen(g).out) + [src[s]]
      ensures r.lims == old(r).lims && r.bufs == old(r).bufs[MAIN := s + 1]
      ensures if o.Accepted? then Seen(g).mode.Fetch? else o.Again? && Seen(g).mode.Plain?
    {
      hide Step, After, Synced, Inv, Marker, Bound, ProbsOk, ProbIndex;
      SyncMarker(src, g.ends, d, g.S, Seen(g));
      AfterNext(g.S, g.steps);
      JudgedAfter(src, r, num);
      assert d.bufs[MAIN] == s;
      var b := src[s];
      var prev := if num == 0 then r.temp[3] else src[s - 1];
      var i := ProbIndex(prev, b);
      var ttt := r.probs[i];
      var bound := Bound(r.range, ttt);
      var moved := r.(temp := r.temp[3 := b], bufs := r.bufs[MAIN := s + 1], ip := (r.ip + (num + 1)) % TWO_32);
      if r.code < bound {
        r := moved.(range := bound, probs := r.probs[i := ttt + (BIT_MODEL_TOTAL - ttt) / 32]);
        o := Again;
      } else {
        r := moved.(range := r.range - bound, code := r.code - bound, probs := r.probs[i := ttt - ttt / 32]);
        o := Accepted;
      }
      assert r == Judged(d, b);
      dest, g := dest + num + 1, g.(steps := g.steps + 1);
    }

    // Copies main bytes up to a marker and decides whether an address follows.
    method TakeMain(src: seq<byte>, dst: array<byte>, lim: nat, ghost base: seq<byte>) returns (o: Turn)
      requires Synced(src, g.ends, r, g.S, Seen(g)) && Seen(g).mode.Plain? && !g.ahead && TOP <= r.range
      requires Filled(base, dst[..], dest, Seen(g).out) && dest <= lim <= dst.Length
      modifies this, dst
      ensures Synced(src, g.ends, r, g.S, Seen(g)) && !g.ahead && g.S == old(g).S && g.ends == old(g).ends && g.steps >= old(g).steps
      ensures Filled(base, dst[..], dest, Seen(g).out) && dest <= lim <= dst.Length && dest >= old(dest)
      ensures |r.bufs| == |r.lims| == |old(r).bufs| == 4 && r.lims == old(r).lims
      ensures o.Accepted? ==> Seen(g).mode.Fetch?
      ensures !o.Accepted? ==> Seen(g).mode.Plain?
      ensures !o.Stopped? ==> InHand(r) < InHand(old(r)) && state == old(state)
      ensures o.Stopped? ==> TOP <= r.range &&
                             ((state == MAIN && r.bufs[MAIN] == r.lims[MAIN]) || (state == ORIG && dest == lim))
    {
      hide Step, After, Synced, Inv, ProbsOk, PlainBytes, Marker, Filled, Seen;
      ghost var v := Seen(g);
      ghost var was := dst[..];
      Shape(src, g.ends, r, g.S, v);
      var from := r.bufs[MAIN];
      var num := r.lims[MAIN] - from;
      if num == 0 {
        state := MAIN;
        return Stopped;
      }
      if num > lim - dest {
        num := lim - dest;
        if num == 0 {
          state := ORIG;
          return Stopped;
        }
      }
      var srcLim := from + num;
      var s := Scan(src, dst, dest, r.temp[3], from, srcLim);
      num := s - from;
      AfterScan(src, r, g, num, base, was, dst[..], dest);
      ghost var d := Skipped(src, r, num);
      g := g.(steps := g.steps + num);
      if s == srcLim {
        r := r.(temp := r.temp[3 := src[s - 1]], bufs := r.bufs[MAIN := s], ip := (r.ip + num) % TWO_32);
        dest := dest + num;
        state := if r.bufs[MAIN] == r.lims[MAIN] then MAIN else ORIG;
        return Stopped;
      }
      ghost var now := dst[..];
      FillMore(base, now, now, dest + num, 1, Seen(g).out, [src[s]]);
      o := Judge(src, s, num, d);
    }

    // Converts one address word, keeping in `temp` what `dst` has no room for.
    method FetchWord(src: seq<byte>, dst: array<byte>, lim: nat, ghost base: seq<byte>) returns (stopped: bool)
      requires Synced(src, g.ends, r, g.S, Seen(g)) && Seen(g).mode.Fetch?
      requires Filled(base, dst[..], dest, Seen(g).out) && dest <= lim <= dst.Length
      modifies this, dst
      ensures Synced(src, g.ends, r, g.S, Seen(g)) && g.S == old(g).S && g.ends == old(g).ends && g.steps >= old(g).steps
      ensures Filled(base, dst[..], dest, Seen(g).out) && dest <= lim <= dst.Length && dest >= old(dest)
      ensures |r.bufs| == |r.lims| == |r.temp| == |old(r).bufs| == 4 && r.lims == old(r).lims
      ensures !stopped ==> Seen(g).mode.Plain? && !g.ahead && state == old(state)
      ensures !stopped ==> InHand(r) < InHand(old(r))
      ensures stopped ==>
                (Seen(g).mode.Fetch? && state == AddressStream(r.temp[3]) && r.bufs[state] == r.lims[state]) ||
                (Resting(Seen(g).mode, state, r.temp) && dest == lim)
    {
      hide Step, After, Synced, Inv, ProbsOk, Filled, WordBE, BytesLE;
      ghost var v := Seen(g);
      ghost var was := dst[..];
      Shape(src, g.ends, r, g.S, v);
      var cj := AddressStream(r.temp[3]);
      var cur := r.bufs[cj];
      if cur == r.lims[cj] {
        state := cj;
        return true;
      }
      AddressReady(src, g.ends, r, g.S, v, cj);
      var ip := (r.ip + 4) % TWO_32;
      var le := BytesLE((WordBE(src[cur..cur + 4]) - ip) % TWO_32);
      assert le == Converted(src, r, cj);
      hide Converted;
      var n := PutWord(dst, lim, le);
      g := AfterFetch(src, r, g, cj, if n < 4 then le else r.temp[3 := le[3]], n);
      FillMore(base, was, dst[..], dest, n, v.out, le[..n]);
      r := r.(bufs := r.bufs[cj := cur + 4], ip := ip, temp := if n < 4 then le else r.temp[3 := le[3]]);
      dest := dest + n;
      if n < 4 {
        state := ORIG_0 + n;
        return true;
      }
      return false;
    }

    // As much of an address word as there is room for.
    method PutWord(dst: array<byte>, lim: nat, le: seq<byte>) returns (n: nat)
      requires |le| == 4 && dest <= lim <= dst.Length
      modifies dst
      ensures n == (if lim - dest < 4 then lim - dest else 4)
      ensures dst[..dest] == old(dst[..dest]) && dst[dest..dest + n] == le[..n]
    {
      var rem := lim - dest;
      if rem < 4 {
        if rem > 0 {
          dst[dest] := le[0];
        }
        if rem > 1 {
          dst[dest + 1] := le[1];
        }
        if rem > 2 {
          dst[dest + 2] := le[2];
        }
        return rem;
      }
      dst[dest], dst[dest + 1], dst[dest + 2], dst[dest + 3] := le[0], le[1], le[2], le[3];
      return 4;
    }

    // Address bytes left over from an earlier call.
    method Flush(src: seq<byte>, dst: array<byte>, lim: nat, ghost base: seq<byte>) returns (stopped: bool)
      requires Synced(src, g.ends, r, g.S, Seen(g)) && Filled(base, dst[..], dest, Seen(g).out) && dest <= lim <= dst.Length
      requires if state <= ORIG_3 then Resting(Seen(g).mode, state, r.temp) else Seen(g).mode.Plain? && !g.ahead
      modifies dst, `dest, `state, `g
      ensures Synced(src, g.ends, r, g.S, Seen(g)) && g.S == old(g).S && g.ends == old(g).ends && g.steps >= old(g).steps
      ensures Filled(base, dst[..], dest, Seen(g).out) && dest <= lim <= dst.Length && dest >= old(dest)
      ensures if stopped then Resting(Seen(g).mode, state, r.temp) && dest == lim
              else Seen(g).mode.Plain? && !g.ahead && state >= ORIG
    {
      hide Step, After, Synced, Inv, ProbsOk;
      while state <= ORIG_3
        invariant Synced(src, g.ends, r, g.S, Seen(g)) && g.S == old(g).S && g.ends == old(g).ends && g.steps >= old(g).steps
        invariant Filled(base, dst[..], dest, Seen(g).out) && dest <= lim <= dst.Length && dest >= old(dest)
        invariant if state <= ORIG_3 then Resting(Seen(g).mode, state, r.temp)
                  else Seen(g).mode.Plain? && !g.ahead && state >= ORIG
      {
        if dest == lim {
          return true;
        }
        ghost var v, was := Seen(g), dst[..];
        var b := r.temp[state - ORIG_0];
        dst[dest] := b;
        g := EmitAhead(g, 1);
        SyncEmit(src, g.ends, r, g.S, v, 1);
        assert v.mode.bytes[..1] == [b];
        FillMore(base, was, dst[..], dest, 1, v.out, [b]);
        assert v.mode.bytes[1..] == r.temp[state + 1 - ORIG_0..];
        state := state + 1;
        dest := dest + 1;
      }
      return false;
    }

    // The last word of `decode`: one range-coder byte more, if there is one.
    method LoadEarly(src: seq<byte>)
      requires Synced(src, g.ends, r, g.S, Seen(g)) && (Seen(g).mode.Fetch? || Seen(g).mode.Emit?)
      modifies `r, `g
      ensures Synced(src, g.ends, r, g.S, Seen(g)) && g == old(g).(ahead := g.ahead)
      ensures Seen(g).mode == old(Seen(g).mode) && Seen(g).out == old(Seen(g).out)
      ensures r.temp == old(r).temp && r.lims == old(r).lims && |r.bufs| == |old(r).bufs| == 4
      ensures forall i | 0 <= i < RC :: r.bufs[i] == old(r).bufs[i]
    {
      hide Step, After, Synced, Inv, ProbsOk;
      Shape(src, g.ends, r, g.S, Seen(g));
      if r.range < TOP && r.bufs[RC] != r.lims[RC] {
        ShiftedEarly(src, r, g);
        g := g.(ahead := true);
        r := r.(code := (r.code * 256 + src[r.bufs[RC]]) % TWO_32,
                bufs := r.bufs[RC := r.bufs[RC] + 1], range := r.range * 256 % TWO_32);
      }
    }

    // One round: a main run with its decision, then an address if there is one.
    // Again: go round; Accepted: leave by way of `LoadEarly`; Stopped: return.
    method Round(src: seq<byte>, dst: array<byte>, lim: nat, ghost base: seq<byte>) returns (o: Turn)
      requires Synced(src, g.ends, r, g.S, Seen(g)) && Filled(base, dst[..], dest, Seen(g).out) && dest <= lim <= dst.Length
      requires if Is32Bit(state) then Seen(g).mode.Fetch? else Seen(g).mode.Plain? && !g.ahead
      modifies this, dst
      ensures Synced(src, g.ends, r, g.S, Seen(g)) && g.S == old(g).S && g.ends == old(g).ends && g.steps >= old(g).steps
      ensures Filled(base, dst[..], dest, Seen(g).out) && dest <= lim <= dst.Length && dest >= old(dest)
      ensures |r.bufs| == |r.lims| == |r.temp| == |old(r).bufs| == |old(r).lims| == 4 && r.lims == old(r).lims
      ensures o.Again? ==> Seen(g).mode.Plain? && !g.ahead && InHand(r) < InHand(old(r))
      ensures o.Again? ==> state == if Is32Bit(old(state)) then OK_STATE else old(state)
      ensures o.Accepted? ==>
                (Seen(g).mode.Fetch? && state == AddressStream(r.temp[3]) && r.bufs[state] == r.lims[state]) ||
                (Resting(Seen(g).mode, state, r.temp) && dest == lim)
      ensures o.Stopped? ==> Seen(g).mode.Plain? && !g.ahead &&
                             ((state == RC && r.range < TOP && Wants(Seen(g)) == Some(RC) && r.bufs[RC] == r.lims[RC]) ||
                              (TOP <= r.range && state == MAIN && Wants(Seen(g)) == Some(MAIN)
                               && r.bufs[MAIN] == r.lims[MAIN]) ||
                              (TOP <= r.range && state == ORIG && dest == lim))
    {
      hide Step, After, Synced, Inv, ProbsOk, Filled, Seen, Resting;
      Shape(src, g.ends, r, g.S, Seen(g));
      if Is32Bit(state) {
        state := OK_STATE;
      } else {
        var ready := Normalise(src);
        if !ready {
          state := RC;
          return Stopped;
        }
        o := TakeMain(src, dst, lim, base);
        if !o.Accepted? {
          Shape(src, g.ends, r, g.S, Seen(g));
          return;
        }
      }
      var stopped := FetchWord(src, dst, lim, base);
      o := if stopped then Accepted else Again;
    }

    // Where an earlier call left off: the start bytes, or a half-written address.
    method Resume(src: seq<byte>, dst: array<byte>, lim: nat, ghost base: seq<byte>) returns (o: Outcome)
      requires Tracks(src, r, g, state) && Filled(base, dst[..], dest, Seen(g).out) && dest <= lim <= dst.Length
      modifies this, dst
      ensures g.S == old(g).S && g.ends == old(g).ends && g.steps >= old(g).steps && dest >= old(dest)
      ensures |r.bufs| == |r.lims| == 4 && r.lims == old(r).lims
      ensures o.Malformed? ==> After(g.S, g.steps).mode.Failed?
      ensures !o.Malformed? ==> Tracks(src, r, g, state) && Filled(base, dst[..], dest, Seen(g).out) && dest <= lim <= dst.Length
      ensures o.Go? ==> Seen(g).mode.Plain? || Seen(g).mode.Fetch?
      ensures o.Pause? ==>
                (Resting(Seen(g).mode, state, r.temp) && dest == lim) ||
                (Seen(g).mode.Init? && Wants(Seen(g)) == Some(RC) && state == RC && r.bufs[RC] == r.lims[RC])
    {
      hide Step, After, Synced, Inv, ProbsOk, Filled, Seen, Wants;
      Shape(src, g.ends, r, g.S, Seen(g));
      if r.range <= 5 {
        o := Begin(src);
      } else if state >= ORIG_0 {
        var stopped := Flush(src, dst, lim, base);
        o := if stopped then Pause else Go;
      } else {
        o := Go;
      }
    }

    // Decodes until the destination is full, a window is empty, or the input
    // proves malformed.
    method Decode(src: seq<byte>, dst: array<byte>, lim: nat, ghost base: seq<byte>) returns (ok: bool)
      requires Tracks(src, r, g, state) && Filled(base, dst[..], dest, Seen(g).out) && dest <= lim <= dst.Length
      modifies this, dst
      ensures g.S == old(g).S && g.ends == old(g).ends && g.steps >= old(g).steps
      ensures !ok ==> After(g.S, g.steps).mode.Failed?
      ensures ok ==> Tracks(src, r, g, state) && Filled(base, dst[..], dest, Seen(g).out) && dest <= lim <= dst.Length && dest >= old(dest)
      ensures |r.bufs| == |r.lims| == 4 && r.lims == old(r).lims
      ensures ok && state < 4 ==> Wants(Seen(g)) == Some(state) && r.bufs[state] == r.lims[state]
      ensures ok && state >= 4 ==> dest == lim
      ensures ok ==> (state == MAIN || state == ORIG <==> Seen(g).mode.Plain? && TOP <= r.range)
      ensures ok && state >= 4 && Seen(g).mode.Plain? ==> TOP <= r.range
    {
      hide Step, After, Synced, Inv, ProbsOk, Filled, Seen;
      var begun := Resume(src, dst, lim, base);
      if !begun.Go? {
        return begun.Pause?;
      }
      while true
        invariant Synced(src, g.ends, r, g.S, Seen(g)) && Filled(base, dst[..], dest, Seen(g).out) && dest <= lim <= dst.Length
        invariant g.S == old(g).S && g.ends == old(g).ends && g.steps >= old(g).steps && dest >= old(dest)
        invariant |r.bufs| == |r.lims| == 4 && r.lims == old(r).lims
        invariant if Is32Bit(state) then Seen(g).mode.Fetch?
                  else Seen(g).mode.Plain? && !g.ahead && !(ORIG_0 <= state <= ORIG_3)
        decreases InHand(r)
      {
        Shape(src, g.ends, r, g.S, Seen(g));
        var o := Round(src, dst, lim, base);
        if o.Stopped? {
          return true;
        }
        if o.Accepted? {
          break;
        }
      }
      LoadEarly(src);
      Shape(src, g.ends, r, g.S, Seen(g));
      return true;
    }
  }
}
