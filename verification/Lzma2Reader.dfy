// Feeding a parallel LZMA2 decoder whole runs out of a window on the packed
// stream, and handing its output on.
module Lzma2Reader {
  import opened Common
  import opened Sources

  const MT_INPUT_CHUNK: nat := 0x10_0000
  const MT_OUTPUT_CHUNK: nat := 0x10_0000
  const MT_NO_WORKER_GIVE_UP_BYTES: nat := 256 * 0x10_0000
  const MT_INPUT_HOLD_BYTES: nat := 192 * 0x10_0000
  const MT_FEED_PER_THREAD_BYTES: nat := 128 * 0x10_0000
  const MT_MIN_FEED_BYTES: nat := 0x4000_0000

  function Least(a: nat, b: nat): nat {
    if a <= b then a else b
  }

  function Most(a: nat, b: nat): nat {
    if a >= b then a else b
  }

  // How far ahead of the decoder to read: a run per thread, but never less
  // than the floor, and never more than half of the budget.
  function FeedTarget(threads: nat, memoryLimit: u64): (t: nat)
    ensures t <= memoryLimit / 2
    ensures t == memoryLimit / 2 || (t >= MT_MIN_FEED_BYTES && t >= threads * MT_FEED_PER_THREAD_BYTES)
    ensures t <= MT_MIN_FEED_BYTES || t <= threads * MT_FEED_PER_THREAD_BYTES
  {
    Least(Most(Most(threads, 1) * MT_FEED_PER_THREAD_BYTES, MT_MIN_FEED_BYTES), memoryLimit / 2)
  }

  // --- What the reader stands on ---

  // The walk over chunk headers, of which only positions are seen here: where
  // it stands, where the run it is in began, and whether the stream has ended.
  // Short of the end it takes all it is given.
  class Scanner {
    var position: nat
    var openRun: Option<nat>
    var finished: bool

    ghost predicate Valid()
      reads this
    {
      openRun.Some? ==> openRun.value <= position
    }

    constructor ()
      ensures Valid() && position == 0 && openRun.None? && !finished
    {
      position, openRun, finished := 0, None, false;
    }

    function Limit(): nat
      reads this
    {
      if openRun.Some? then openRun.value else position
    }

    // How many runs end in what it took; the boundary in reach never moves back.
    method Feed(data: seq<byte>) returns (r: Option<(nat, nat)>)
      requires Valid()
      modifies this
      ensures Valid() && Limit() >= old(Limit())
      ensures r.Some? ==> r.value.0 <= |data| && position == old(position) + r.value.0
      ensures r.Some? && r.value.0 < |data| ==> finished
      ensures r.None? ==> position >= old(position)
      ensures old(finished) ==> finished
    {
      var n: nat, open: nat :| n <= |data| && Limit() <= open <= position + n;
      var runs: nat, broken: bool, done: bool := *, *, *;
      position := position + n;
      openRun := if open == position then None else Some(open);
      finished := finished || done || n < |data|;
      r := if broken then None else Some((n, runs));
    }
  }

  datatype Status = Finished | Progress | NeedsMoreInput

  // The decoder: what it has accepted and handed over, how much it holds,
  // whether it was last offered more than it may hold, and whether it has ever
  // failed; nothing else of it.
  class Decoder {
    var inFlight: nat
    ghost var fed: seq<byte>
    ghost var delivered: seq<byte>
    ghost var full: bool
    ghost var failed: bool

    constructor ()
      ensures fed == [] && delivered == [] && !failed
    {
      inFlight, fed, delivered, full, failed := 0, [], [], false, false;
    }

    // It takes as much as it may hold, or fails.
    method Feed(data: seq<byte>) returns (taken: Option<nat>)
      modifies this
      ensures delivered == old(delivered)
      ensures taken.Some? ==> taken.value <= |data| && fed == old(fed) + data[..taken.value]
      ensures taken.Some? ==> (full <==> taken.value < |data|)
      ensures taken.None? ==> fed == old(fed)
      ensures failed <==> old(failed) || taken.None?
    {
      var n: nat :| n <= |data|;
      inFlight := *;
      if * {
        failed := true;
        return None;
      }
      fed, full := fed + data[..n], n < |data|;
      return Some(n);
    }

    // The pieces the sink is called with, in order, whatever their sizes.
    method DrainUpto(limit: nat) returns (pieces: seq<seq<byte>>, status: Option<Status>)
      modifies this
      ensures fed == old(fed) && delivered == old(delivered) + Flat(pieces)
      ensures failed <==> old(failed) || status.None?
    {
      pieces, status, inFlight := *, *, *;
      failed := failed || status.None?;
      delivered := delivered + Flat(pieces);
    }
  }

  function Flat(pieces: seq<seq<byte>>): seq<byte> {
    if pieces == [] then [] else pieces[0] + Flat(pieces[1..])
  }

  // --- The window ---

  datatype Window = Window(inbuf: seq<byte>, inPos: nat, base: nat, scanPos: nat, runsSeen: nat,
                           chasing: bool, scanBroken: bool, inputDone: bool)

  datatype ReadError = Decode | UnexpectedEof

  // The window lies on the input where it says; what was fed is the input up
  // to where feeding stands.
  ghost predicate OnInput(w: Window, input: seq<byte>, rest: seq<byte>, fed: seq<byte>) {
    && w.inPos <= |w.inbuf| && w.base <= |input| && input == input[..w.base] + w.inbuf + rest
    && fed == input[..w.base] + w.inbuf[..w.inPos]
    && |w.inbuf| - w.inPos < MT_INPUT_HOLD_BYTES + MT_INPUT_CHUNK
    && (w.inputDone ==> rest == [])
  }

  // The scanner stands where the window says, or has nothing more to find.
  ghost predicate Scanned(w: Window, position: nat, finished: bool) {
    w.scanPos <= |w.inbuf| && (!w.scanBroken && !finished ==> position == w.base + w.scanPos)
  }

  // The offset past which feeding would put the decoder inside a run.
  function SafeLimit(w: Window, limit: nat): nat {
    if w.inputDone || w.scanBroken then w.base + |w.inbuf| else limit
  }

  // Nothing is fed of an open run, unless it is being chased.
  ghost predicate Held(w: Window, limit: nat) {
    w.chasing || w.inputDone || w.scanBroken || w.base + w.inPos <= limit
  }

  // Bytes that have been fed leave the window.
  function Dropped(w: Window): Window
    requires w.inPos <= |w.inbuf| && w.inPos <= w.scanPos
  {
    w.(inbuf := w.inbuf[w.inPos..], base := w.base + w.inPos, scanPos := w.scanPos - w.inPos, inPos := 0)
  }

  lemma DropKeeps(w: Window, input: seq<byte>, rest: seq<byte>, fed: seq<byte>)
    requires OnInput(w, input, rest, fed) && w.inPos <= w.scanPos
    ensures OnInput(Dropped(w), input, rest, fed)
  {
    var a, b := w.inbuf[..w.inPos], w.inbuf[w.inPos..];
    assert w.inbuf == a + b;
    assert input == (input[..w.base] + a) + b + rest;
    assert input[..w.base + w.inPos] == input[..w.base] + a;
    assert b[..0] == [] && fed + [] == fed;
  }

  lemma MoreKeeps(w: Window, input: seq<byte>, rest: seq<byte>, fed: seq<byte>, s: seq<byte>)
    requires OnInput(w, input, rest, fed) && |s| <= |rest| && s == rest[..|s|]
    requires |w.inbuf| + |s| - w.inPos < MT_INPUT_HOLD_BYTES + MT_INPUT_CHUNK
    ensures OnInput(w.(inbuf := w.inbuf + s), input, rest[|s|..], fed)
  {
    assert rest == s + rest[|s|..];
    assert input[..w.base] + w.inbuf + rest == input[..w.base] + (w.inbuf + s) + rest[|s|..];
    assert (w.inbuf + s)[..w.inPos] == w.inbuf[..w.inPos];
  }

  lemma FeedKeeps(w: Window, input: seq<byte>, rest: seq<byte>, fed: seq<byte>, n: nat)
    requires OnInput(w, input, rest, fed) && w.inPos + n <= |w.inbuf|
    ensures OnInput(w.(inPos := w.inPos + n), input, rest, fed + w.inbuf[w.inPos..w.inPos + n])
  {
    assert w.inbuf[..w.inPos + n] == w.inbuf[..w.inPos] + w.inbuf[w.inPos..w.inPos + n];
    assert input[..w.base] + w.inbuf[..w.inPos] + w.inbuf[w.inPos..w.inPos + n]
        == input[..w.base] + (w.inbuf[..w.inPos] + w.inbuf[w.inPos..w.inPos + n]);
  }

  // What was fed is the input up to where feeding stands.
  lemma FedIsPrefix(w: Window, input: seq<byte>, rest: seq<byte>, fed: seq<byte>)
    requires OnInput(w, input, rest, fed)
    ensures w.base + w.inPos <= |input| && fed == input[..w.base + w.inPos]
  {
    assert input == (input[..w.base] + w.inbuf[..w.inPos]) + (w.inbuf[w.inPos..] + rest) by {
      assert w.inbuf == w.inbuf[..w.inPos] + w.inbuf[w.inPos..];
    }
  }

  lemma SliceTake(s: seq<byte>, a: nat, e: nat, n: nat)
    requires a + n <= e <= |s|
    ensures s[a..e][..n] == s[a..a + n]
  {
  }

  lemma WindowShape(w: Window, input: seq<byte>, rest: seq<byte>, fed: seq<byte>)
    requires OnInput(w, input, rest, fed)
    ensures w.inPos <= |w.inbuf| && |w.inbuf| - w.inPos < MT_INPUT_HOLD_BYTES + MT_INPUT_CHUNK
  {
  }

  lemma EndKeeps(w: Window, input: seq<byte>, rest: seq<byte>, fed: seq<byte>)
    requires OnInput(w, input, rest, fed) && rest == []
    ensures OnInput(w.(inputDone := true), input, rest, fed)
  {
  }

  lemma FlagsKeep(w: Window, input: seq<byte>, rest: seq<byte>, fed: seq<byte>, runs: nat, chasing: bool, broken: bool, at: nat)
    requires OnInput(w, input, rest, fed)
    ensures OnInput(w.(runsSeen := runs, chasing := chasing, scanBroken := broken, scanPos := at), input, rest, fed)
  {
  }

  class Lzma2MtReader {
    const decoder: Decoder
    const input: Source
    const scanner: Scanner
    const threads: nat
    const memoryLimit: u64
    var w: Window
    var out: seq<seq<byte>>
    var outPos: nat
    var finished: bool
    ghost const whole: seq<byte>
    ghost var given: seq<byte>

    ghost predicate Valid()
      reads this, decoder, input, scanner
    {
      && scanner.Valid() && OnInput(w, whole, input.rest, decoder.fed) && w.scanPos == |w.inbuf|
      && Scanned(w, scanner.position, scanner.finished) && Held(w, scanner.Limit())
      && Pending(out, outPos) && given + Rest(out, outPos) == decoder.delivered
    }

    constructor (input: Source, threads: nat, memoryLimit: u64)
      ensures Valid() && this.input == input && whole == input.rest && given == []
      ensures fresh(decoder) && fresh(scanner)
    {
      this.input, this.threads, this.memoryLimit := input, threads, memoryLimit;
      decoder := new Decoder();
      scanner := new Scanner();
      w := Window([], 0, 0, 0, 0, false, false, false);
      out, outPos, finished, given, whole := [], 0, false, [], input.rest;
      new;
      assert whole[..0] == [] && [] + [] + input.rest == whole;
    }

    // Another chunk, or less at the end, and its chunk headers walked.
    method Refill()
      requires Valid() && |w.inbuf| - w.inPos < MT_INPUT_HOLD_BYTES && !w.inputDone
      modifies this`w, input, scanner
      ensures Valid() && w.base + w.inPos == old(w.base + w.inPos) && w.chasing == old(w.chasing)
      ensures if w.inputDone then input.rest == old(input.rest) else |input.rest| < |old(input.rest)|
      ensures w.runsSeen >= old(w.runsSeen)
    {
      hide OnInput;
      WindowShape(w, whole, input.rest, decoder.fed);
      if w.inPos >= MT_INPUT_CHUNK {
        DropKeeps(w, whole, input.rest, decoder.fed);
        w := Dropped(w);
      }
      WindowShape(w, whole, input.rest, decoder.fed);
      var was := |w.inbuf|;
      ReadChunk();
      if |w.inbuf| == was {
        EndKeeps(w, whole, input.rest, decoder.fed);
        w := w.(inputDone := true);
        return;
      }
      Scan();
    }

    // Reads until the chunk is full or nothing comes.
    method ReadChunk()
      requires scanner.Valid() && OnInput(w, whole, input.rest, decoder.fed) && |w.inbuf| - w.inPos < MT_INPUT_HOLD_BYTES
      modifies this`w, input
      ensures OnInput(w, whole, input.rest, decoder.fed)
      ensures |w.inbuf| >= |old(w.inbuf)| && w == old(w).(inbuf := w.inbuf)
      ensures w.inbuf[..|old(w.inbuf)|] == old(w.inbuf)
      ensures |w.inbuf| == |old(w.inbuf)| ==> input.rest == [] == old(input.rest)
      ensures |w.inbuf| > |old(w.inbuf)| ==> |input.rest| < |old(input.rest)|
    {
      hide OnInput;
      WindowShape(w, whole, input.rest, decoder.fed);
      var was := |w.inbuf|;
      while |w.inbuf| < was + MT_INPUT_CHUNK
        invariant OnInput(w, whole, input.rest, decoder.fed)
        invariant was <= |w.inbuf| <= was + MT_INPUT_CHUNK && w == old(w).(inbuf := w.inbuf)
        invariant w.inbuf[..was] == old(w.inbuf)
        invariant |input.rest| + |w.inbuf| == |old(input.rest)| + was
        decreases |input.rest|
      {
        ghost var rest := input.rest;
        var s := input.Take(was + MT_INPUT_CHUNK - |w.inbuf|);
        if s == [] {
          break;
        }
        MoreKeeps(w, whole, rest, decoder.fed, s);
        w := w.(inbuf := w.inbuf + s);
      }
    }

    // The walk over what the scanner has not seen. It takes all it is given
    // unless it has come to the end of the stream or cannot go on, and then
    // what is left counts as seen.
    method Scan()
      requires scanner.Valid() && OnInput(w, whole, input.rest, decoder.fed)
      requires Scanned(w, scanner.position, scanner.finished) && Held(w, scanner.Limit())
      modifies this`w, scanner
      ensures scanner.Valid() && OnInput(w, whole, input.rest, decoder.fed)
      ensures Scanned(w, scanner.position, scanner.finished) && Held(w, scanner.Limit())
      ensures w == old(w).(scanBroken := w.scanBroken, runsSeen := w.runsSeen, scanPos := |w.inbuf|)
      ensures w.runsSeen >= old(w.runsSeen)
    {
      hide OnInput;
      if !w.scanBroken && !scanner.finished {
        var r := scanner.Feed(w.inbuf[w.scanPos..]);
        match r {
          case None =>
            FlagsKeep(w, whole, input.rest, decoder.fed, w.runsSeen, w.chasing, true, w.scanPos);
            w := w.(scanBroken := true);
          case Some(taken) =>
            FlagsKeep(w, whole, input.rest, decoder.fed, w.runsSeen + taken.1, w.chasing, w.scanBroken, w.scanPos + taken.0);
            w := w.(scanPos := w.scanPos + taken.0, runsSeen := w.runsSeen + taken.1);
        }
      }
      if w.scanBroken || scanner.finished {
        FlagsKeep(w, whole, input.rest, decoder.fed, w.runsSeen, w.chasing, w.scanBroken, |w.inbuf|);
        w := w.(scanPos := |w.inbuf|);
      }
    }

    // A stream that is long and still in its first run: it has but one.
    predicate OneRun()
      reads this, scanner
    {
      w.runsSeen == 0 && scanner.position > MT_NO_WORKER_GIVE_UP_BYTES && !w.inputDone
    }

    // What the decoder is to hold, and what the window may hold unfed.
    function Target(): nat
      reads this, scanner
    {
      if OneRun() then MT_INPUT_CHUNK else FeedTarget(threads, memoryLimit)
    }

    function Hold(): nat
      reads this, scanner
    {
      if OneRun() then 2 * MT_INPUT_CHUNK else MT_INPUT_HOLD_BYTES
    }

    // There is nothing to feed that ends at a boundary, none to look for, and
    // no reason to feed a run in part.
    predicate OutOfReach()
      reads this, scanner, decoder
    {
      && (w.inPos >= |w.inbuf| || SafeLimit(w, scanner.Limit()) <= w.base + w.inPos)
      && (w.inputDone || |w.inbuf| - w.inPos >= Hold())
      && (w.inPos >= |w.inbuf| || (!w.chasing && decoder.inFlight > 0))
    }

    // Feeds whole runs until the decoder holds enough or takes no more, or no
    // boundary is in reach; only then is a run fed in part. It tells whether
    // anything was fed, and stops for one of four reasons only.
    method PumpInput(wantRuns: nat) returns (r: Result<bool, ReadError>)
      requires Valid()
      modifies this`w, input, scanner, decoder
      ensures Valid() && decoder.delivered == old(decoder.delivered) && (old(w.inputDone) ==> w.inputDone)
      ensures r.Err? ==> r.error.Decode?
      ensures decoder.failed <==> old(decoder.failed) || r.Err?
      ensures w.base + w.inPos >= old(w.base + w.inPos)
      ensures r.Ok? ==> (r.value <==> w.base + w.inPos > old(w.base + w.inPos))
      ensures r.Ok? ==>
        || (r.value && w.runsSeen >= old(w.runsSeen) + wantRuns)
        || decoder.inFlight >= Target() || decoder.full || OutOfReach()
    {
      hide OnInput, Held, Scanned, Pending, Rest;
      var fed, atStart := false, w.runsSeen;
      while true
        invariant Valid() && w.runsSeen >= atStart && decoder.delivered == old(decoder.delivered)
        invariant old(w.inputDone) ==> w.inputDone
        invariant decoder.failed == old(decoder.failed)
        invariant w.base + w.inPos >= old(w.base + w.inPos)
        invariant fed <==> w.base + w.inPos > old(w.base + w.inPos)
        decreases |input.rest|, !w.inputDone, |w.inbuf| - w.inPos
      {
        WindowShape(w, whole, input.rest, decoder.fed);
        if fed && w.runsSeen - atStart >= wantRuns {
          break;
        }
        if decoder.inFlight >= Target() {
          break;
        }
        var limit := SafeLimit(w, scanner.Limit());
        var end := Least(|w.inbuf|, if limit >= w.base then limit - w.base else 0);
        var chase := false;
        if end <= w.inPos {
          if !w.inputDone && |w.inbuf| - w.inPos < Hold() {
            Refill();
            continue;
          }
          if !((w.chasing || decoder.inFlight == 0) && w.inPos < |w.inbuf|) {
            break;
          }
          chase := true;
          end := Least(|w.inbuf|, w.inPos + MT_INPUT_CHUNK);
        }
        var offered := end - w.inPos;
        var taken := FeedUpTo(end, chase);
        if taken.None? {
          return Err(Decode);
        }
        fed := fed || taken.value > 0;
        if taken.value < offered {
          break;
        }
      }
      return Ok(fed);
    }

    // Feeds up to index `end` of the window, past the safe limit only to chase.
    method FeedUpTo(end: nat, chase: bool) returns (taken: Option<nat>)
      requires Valid() && w.inPos < end <= |w.inbuf|
      requires chase || w.base + end <= SafeLimit(w, scanner.Limit())
      modifies this`w, decoder
      ensures Valid() && decoder.delivered == old(decoder.delivered)
      ensures w == old(w).(inPos := w.inPos, chasing := chase)
      ensures taken.Some? ==> w.inPos == old(w.inPos) + taken.value <= end
      ensures taken.Some? ==> (decoder.full <==> w.inPos < end)
      ensures taken.None? ==> w.inPos == old(w.inPos)
      ensures decoder.failed <==> old(decoder.failed) || taken.None?
    {
      hide OnInput, Pending, Rest;
      FlagsKeep(w, whole, input.rest, decoder.fed, w.runsSeen, chase, w.scanBroken, w.scanPos);
      w := w.(chasing := chase);
      ghost var before := decoder.fed;
      taken := decoder.Feed(w.inbuf[w.inPos..end]);
      if taken.Some? {
        FeedKeeps(w, whole, input.rest, before, taken.value);
        SliceTake(w.inbuf, w.inPos, end, taken.value);
        w := w.(inPos := w.inPos + taken.value);
      }
    }

    // What the sink is handed goes to the caller's buffer, and what does not
    // fit into pieces that are read out later.
    method Sink(pieces: seq<seq<byte>>, buf: array<byte>) returns (direct: nat)
      requires out == [] && outPos == 0
      modifies this`out, buf
      ensures direct <= buf.Length && Flat(pieces) == buf[..direct] + Flat(out)
      ensures out != [] ==> direct == buf.Length
      ensures outPos == 0
    {
      hide Flat;
      direct := 0;
      NoPieces();
      assert buf[..0] == [] && pieces[..0] == [];
      for i := 0 to |pieces|
        invariant direct <= buf.Length && Flat(pieces[..i]) == buf[..direct] + Flat(out) && outPos == 0
        invariant out != [] ==> direct == buf.Length
      {
        var piece := pieces[i];
        var n := Least(buf.Length - direct, |piece|);
        ghost var had := buf[..direct];
        forall j | 0 <= j < n {
          buf[direct + j] := piece[j];
        }
        assert buf[..direct + n] == had + piece[..n];
        assert out != [] ==> n == 0;
        FlatTo(pieces, i);
        PieceGoes(had, out, piece, n);
        direct := direct + n;
        Spill(piece[n..]);
      }
      assert pieces[..|pieces|] == pieces;
    }

    // Pieces of a fixed size are filled one after the other.
    method Spill(bytes: seq<byte>)
      modifies this`out
      ensures Flat(out) == Flat(old(out)) + bytes
      ensures bytes == [] ==> out == old(out)
    {
      hide Flat;
      var rest := bytes;
      assert bytes == bytes + [] && Flat(out) + bytes == Flat(out) + rest;
      while rest != []
        invariant Flat(out) + rest == Flat(old(out)) + bytes && (bytes == [] ==> out == old(out))
        decreases |rest|
      {
        if out == [] || |out[|out| - 1]| >= MT_OUTPUT_CHUNK {
          var n := Least(MT_OUTPUT_CHUNK, |rest|);
          FlatPush(out, rest[..n]);
          assert Flat(out) + rest == (Flat(out) + rest[..n]) + rest[n..];
          out, rest := out + [rest[..n]], rest[n..];
        } else {
          var last := out[|out| - 1];
          var n := Least(MT_OUTPUT_CHUNK - |last|, |rest|);
          FlatExtend(out, rest[..n]);
          assert Flat(out) + rest == (Flat(out) + rest[..n]) + rest[n..];
          out, rest := out[|out| - 1 := last + rest[..n]], rest[n..];
        }
      }
      assert Flat(out) + [] == Flat(out);
    }

    // Some of what is held back.
    method TakeFront(buf: array<byte>) returns (n: nat)
      requires Valid() && out != [] && outPos < |out[0]|
      modifies this`outPos, this`given, buf
      ensures Valid() && n == Least(|out[0]| - old(outPos), buf.Length) && given == old(given) + buf[..n]
    {
      hide OnInput, Held, Scanned;
      hide Rest, Pending;
      var front := out[0];
      n := Least(|front| - outPos, buf.Length);
      forall i | 0 <= i < n {
        buf[i] := front[outPos + i];
      }
      assert buf[..n] == front[outPos..outPos + n];
      RestAdvances(given, out, outPos, n);
      given := given + buf[..n];
      outPos := outPos + n;
    }

    method PopFront()
      requires Valid() && out != [] && outPos == |out[0]|
      modifies this`out, this`outPos
      ensures Valid() && out == old(out)[1..]
    {
      hide OnInput, Held, Scanned;
      PopKeeps(out, outPos);
      out, outPos := out[1..], 0;
    }

    // Drains no more than the buffer holds; what comes is handed on in order,
    // even when it is more than was asked for.
    method Drain(buf: array<byte>) returns (direct: nat, status: Option<Status>)
      requires Valid() && out == [] && buf.Length > 0
      modifies this`out, this`given, decoder, buf
      ensures Valid() && direct <= buf.Length && given == old(given) + buf[..direct]
      ensures direct == 0 ==> out == []
      ensures decoder.failed <==> old(decoder.failed) || status.None?
    {
      hide OnInput, Held, Scanned, Flat, Pending, Rest;
      PendingIs(out, outPos);
      OnlyEmpty(out, outPos);
      assert given + [] == given;
      var pieces;
      pieces, status := decoder.DrainUpto(buf.Length);
      direct := Sink(pieces, buf);
      AllGiven(out);
      assert given + (buf[..direct] + Flat(out)) == (given + buf[..direct]) + Flat(out);
      given := given + buf[..direct];
    }

    // One round: feed what is wanted, and drain.
    method Round(buf: array<byte>) returns (r: Result<nat, ReadError>)
      requires Valid() && out == [] && buf.Length > 0
      modifies this, input, scanner, decoder, buf
      ensures r.Ok? || r.error.UnexpectedEof? ==> Valid()
      ensures r.Ok? ==> r.value <= buf.Length && given == old(given) + buf[..r.value]
      ensures r.Ok? && r.value == 0 ==> out == []
      ensures r.Err? && r.error.UnexpectedEof? ==> w.inputDone && given == decoder.delivered == old(given)
      ensures decoder.failed <==> old(decoder.failed) || r == Err(Decode)
    {
      hide OnInput, Held, Scanned, Flat, Pending, Rest;
      if !w.inputDone {
        var want: nat := *;
        if want > 0 {
          var _ :- PumpInput(want);
        }
      }
      var toldTheEnd := w.inputDone;
      var direct, status := Drain(buf);
      if status.None? {
        return Err(Decode);
      }
      if status.value.Finished? {
        finished := true;
      } else if status.value.NeedsMoreInput? {
        var want: nat := *;
        var pumped :- PumpInput(Most(want, 1));
        if !pumped && toldTheEnd && direct == 0 && out == [] {
          PendingIs(out, outPos);
          assert buf[..0] == [] && old(given) + [] == old(given) && given + [] == given;
          return Err(UnexpectedEof);
        }
      }
      return Ok(direct);
    }

    // What the caller is given is what the sink was handed, in order. Nothing
    // more comes only when the decoder has finished. How many rounds it takes
    // for something to come is the decoder's affair: after `rounds` of them
    // the caller is told to wait.
    method Read(buf: array<byte>, rounds: nat) returns (r: Result<Option<nat>, ReadError>)
      requires Valid()
      modifies this, input, scanner, decoder, buf
      ensures r.Ok? || r.error.UnexpectedEof? ==> Valid()
      ensures r.Ok? ==> given == old(given) + buf[..if r.value.Some? && r.value.value <= buf.Length then r.value.value else 0]
      ensures r.Ok? && r.value.Some? ==> r.value.value <= buf.Length
      ensures r == Ok(Some(0)) && buf.Length > 0 ==> finished && given == decoder.delivered
      ensures r.Err? && r.error.UnexpectedEof? ==> w.inputDone && given == decoder.delivered == old(given)
      ensures decoder.failed <==> old(decoder.failed) || r == Err(Decode)
    {
      hide OnInput, Held, Scanned, Flat, Pending, Rest;
      var left := rounds;
      assert buf[..0] == [] && given + [] == given;
      while true
        invariant Valid() && given == old(given) && decoder.failed == old(decoder.failed)
        decreases left, |out|
      {
        if out != [] {
          PendingIs(out, outPos);
          if outPos < |out[0]| {
            var n := TakeFront(buf);
            return Ok(Some(n));
          }
          PopFront();
          continue;
        }
        PendingIs(out, outPos);
        assert given + [] == given && buf[..0] == [];
        if finished || buf.Length == 0 {
          return Ok(Some(0));
        }
        if left == 0 {
          return Ok(None);
        }
        left := left - 1;
        var n :- Round(buf);
        if n > 0 {
          return Ok(Some(n));
        }
        assert buf[..0] == [] && given == old(given) + [];
      }
    }
  }

  // --- Output held back ---

  // Only the front piece is partly read.
  ghost predicate Pending(out: seq<seq<byte>>, outPos: nat) {
    if out == [] then outPos == 0 else outPos <= |out[0]|
  }

  function Rest(out: seq<seq<byte>>, outPos: nat): seq<byte> {
    if out == [] then [] else if outPos <= |out[0]| then out[0][outPos..] + Flat(out[1..]) else []
  }

  lemma PendingIs(out: seq<seq<byte>>, outPos: nat)
    requires Pending(out, outPos)
    ensures out != [] ==> outPos <= |out[0]|
    ensures out == [] ==> Rest(out, outPos) == []
  {
  }

  lemma RestAdvances(given: seq<byte>, out: seq<seq<byte>>, outPos: nat, n: nat)
    requires out != [] && outPos + n <= |out[0]|
    ensures given + Rest(out, outPos) == (given + out[0][outPos..outPos + n]) + Rest(out, outPos + n)
    ensures Pending(out, outPos + n)
  {
    hide Flat;
    var front := out[0];
    assert front[outPos..] == front[outPos..outPos + n] + front[outPos + n..];
    assert given + (front[outPos..] + Flat(out[1..]))
        == (given + front[outPos..outPos + n]) + (front[outPos + n..] + Flat(out[1..]));
  }

  lemma PopKeeps(out: seq<seq<byte>>, outPos: nat)
    requires out != [] && outPos == |out[0]|
    ensures Rest(out[1..], 0) == Rest(out, outPos) && Pending(out[1..], 0)
  {
    AllGiven(out[1..]);
    assert out[0][|out[0]|..] == [] && [] + Flat(out[1..]) == Flat(out[1..]);
  }

  lemma AllGiven(out: seq<seq<byte>>)
    ensures Rest(out, 0) == Flat(out)
  {
    if out != [] {
      assert out[0][0..] == out[0];
    }
  }

  lemma OnlyEmpty(out: seq<seq<byte>>, outPos: nat)
    requires Pending(out, outPos) && out == []
    ensures outPos == 0 && forall ps: seq<seq<byte>> :: Pending(ps, 0)
  {
  }

  lemma NoPieces()
    ensures Flat([]) == []
  {
  }

  lemma {:induction false} FlatPush(pieces: seq<seq<byte>>, p: seq<byte>)
    ensures Flat(pieces + [p]) == Flat(pieces) + p
  {
    if pieces == [] {
      assert [] + [p] == [p] && [p][1..] == [] && p + [] == p && [] + p == p;
    } else {
      assert (pieces + [p])[1..] == pieces[1..] + [p];
      FlatPush(pieces[1..], p);
      assert pieces[0] + (Flat(pieces[1..]) + p) == (pieces[0] + Flat(pieces[1..])) + p;
    }
  }

  lemma FlatTo(pieces: seq<seq<byte>>, i: nat)
    requires i < |pieces|
    ensures Flat(pieces[..i + 1]) == Flat(pieces[..i]) + pieces[i]
  {
    assert pieces[..i + 1] == pieces[..i] + [pieces[i]];
    FlatPush(pieces[..i], pieces[i]);
  }

  lemma FlatExtend(pieces: seq<seq<byte>>, p: seq<byte>)
    requires pieces != []
    ensures Flat(pieces[|pieces| - 1 := pieces[|pieces| - 1] + p]) == Flat(pieces) + p
  {
    var front, last := pieces[..|pieces| - 1], pieces[|pieces| - 1];
    assert pieces == front + [last] && pieces[|pieces| - 1 := last + p] == front + [last + p];
    FlatPush(front, last);
    FlatPush(front, last + p);
    assert Flat(front) + (last + p) == (Flat(front) + last) + p;
  }

  // The next piece: a part is handed on, if anything, before what is held back.
  lemma PieceGoes(had: seq<byte>, out: seq<seq<byte>>, piece: seq<byte>, n: nat)
    requires n <= |piece| && (out != [] ==> n == 0)
    ensures (had + Flat(out)) + piece == (had + piece[..n]) + (Flat(out) + piece[n..])
  {
    assert piece == piece[..n] + piece[n..];
    if out == [] {
      NoPieces();
    }
  }
}
