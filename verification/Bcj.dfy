// Reading and writing through an in-place branch converter that leaves a
// short tail for its next call.
module Bcj {
  import opened Common
  import opened Sources

  const FILTER_BUF_SIZE: nat := 4096

  // What a converter makes of the front of its data, and its state after it.
  datatype Coded<S> = Coded(out: seq<byte>, state: S)

  datatype Converter<!S> = Converter(start: S, code: (S, seq<byte>) -> Coded<S>)

  // Converting in two calls, the tail carried over, is converting in one; the
  // tail is short; nothing comes of nothing.
  ghost predicate Lawful<S(!new)>(c: Converter<S>) {
    && (forall s: S, a: seq<byte> :: Tail(c, s, a))
    && (forall s: S :: c.code(s, []) == Coded([], s))
    && forall s: S, a: seq<byte>, b: seq<byte> :: Tail(c, s, a) ==> Splits(c, s, a, b)
  }

  ghost predicate Tail<S>(c: Converter<S>, s: S, a: seq<byte>) {
    |c.code(s, a).out| <= |a| < |c.code(s, a).out| + FILTER_BUF_SIZE
  }

  ghost predicate Splits<S>(c: Converter<S>, s: S, a: seq<byte>, b: seq<byte>)
    requires Tail(c, s, a)
  {
    var x := c.code(s, a);
    var y := c.code(x.state, a[|x.out|..] + b);
    c.code(s, a + b) == Coded(x.out + y.out, y.state)
  }

  // A whole stream: what is converted of it, and its tail as it is.
  ghost function Whole<S>(c: Converter<S>, data: seq<byte>): seq<byte>
    requires Tail(c, c.start, data)
  {
    var x := c.code(c.start, data);
    x.out + data[|x.out|..]
  }

  // The converter has been through `taken`, of which `done` came.
  ghost predicate Through<S>(c: Converter<S>, taken: seq<byte>, done: seq<byte>, state: S) {
    c.code(c.start, taken) == Coded(done, state) && |done| <= |taken|
  }

  lemma ThroughNothing<S(!new)>(c: Converter<S>)
    requires Lawful(c)
    ensures Through(c, [], [], c.start)
  {
  }

  // One call more, over the tail and what came behind it.
  lemma ThroughMore<S(!new)>(c: Converter<S>, taken: seq<byte>, done: seq<byte>, state: S, more: seq<byte>)
    requires Lawful(c) && Through(c, taken, done, state)
    ensures var x := c.code(state, taken[|done|..] + more);
      && |x.out| <= |taken| - |done| + |more| < |x.out| + FILTER_BUF_SIZE
      && Through(c, taken + more, done + x.out, x.state)
      && (taken + more)[|done + x.out|..] == (taken[|done|..] + more)[|x.out|..]
  {
    assert Tail(c, c.start, taken) && Splits(c, c.start, taken, more);
    assert Tail(c, state, taken[|done|..] + more);
    assert taken + more == taken[..|done|] + (taken[|done|..] + more);
  }

  lemma ThroughTail<S(!new)>(c: Converter<S>, taken: seq<byte>, done: seq<byte>, state: S)
    requires Lawful(c) && Through(c, taken, done, state)
    ensures Tail(c, c.start, taken) && Whole(c, taken) == done + taken[|done|..] && |taken| < |done| + FILTER_BUF_SIZE
  {
    assert Tail(c, c.start, taken);
  }

  // --- The reader ---

  // The window: bytes ready to be read out, and behind them the tail.
  datatype Window = Window(buf: seq<byte>, pos: nat, filtered: nat, unfiltered: nat, ended: bool)

  ghost predicate InRange(w: Window) {
    |w.buf| == FILTER_BUF_SIZE && w.pos + w.filtered + w.unfiltered <= FILTER_BUF_SIZE
  }

  function Ready(w: Window): seq<byte>
    requires w.pos + w.filtered <= |w.buf|
  {
    w.buf[w.pos..w.pos + w.filtered]
  }

  function Rest(w: Window): seq<byte>
    requires w.pos + w.filtered + w.unfiltered <= |w.buf|
  {
    w.buf[w.pos + w.filtered..w.pos + w.filtered + w.unfiltered]
  }

  // What was given and is ready is what came of the input taken; at the end
  // the tail is ready too.
  ghost predicate Flow<S(!new)>(c: Converter<S>, w: Window, taken: seq<byte>, done: seq<byte>, state: S, given: seq<byte>) {
    && InRange(w)
    && if w.ended then w.unfiltered == 0 && Tail(c, c.start, taken) && given + Ready(w) == Whole(c, taken)
       else Through(c, taken, done, state) && given + Ready(w) == done && Rest(w) == taken[|done|..]
            && w.unfiltered < FILTER_BUF_SIZE
  }

  lemma FlowStarts<S(!new)>(c: Converter<S>, buf: seq<byte>)
    requires Lawful(c) && |buf| == FILTER_BUF_SIZE
    ensures Flow(c, Window(buf, 0, 0, 0, false), [], [], c.start, [])
  {
    ThroughNothing(c);
  }

  lemma FlowCopies<S(!new)>(c: Converter<S>, w: Window, taken: seq<byte>, done: seq<byte>, state: S, given: seq<byte>, n: nat)
    requires Flow(c, w, taken, done, state, given) && n <= w.filtered
    ensures Flow(c, w.(pos := w.pos + n, filtered := w.filtered - n), taken, done, state, given + w.buf[w.pos..w.pos + n])
  {
    hide Whole, Tail, Through;
    var w' := w.(pos := w.pos + n, filtered := w.filtered - n);
    assert Ready(w) == w.buf[w.pos..w.pos + n] + Ready(w');
    assert given + (w.buf[w.pos..w.pos + n] + Ready(w')) == (given + w.buf[w.pos..w.pos + n]) + Ready(w');
    assert Rest(w') == Rest(w);
  }

  // The bytes still needed move to the front.
  function Rotated(w: Window): Window
    requires w.pos <= |w.buf|
  {
    w.(buf := w.buf[w.pos..] + w.buf[..w.pos], pos := 0)
  }

  lemma FlowRotates<S(!new)>(c: Converter<S>, w: Window, taken: seq<byte>, done: seq<byte>, state: S, given: seq<byte>)
    requires Flow(c, w, taken, done, state, given)
    ensures Flow(c, Rotated(w), taken, done, state, given)
  {
    hide Whole, Tail, Through;
    assert Ready(Rotated(w)) == Ready(w) && Rest(Rotated(w)) == Rest(w);
  }

  lemma FlowEnds<S(!new)>(c: Converter<S>, w: Window, taken: seq<byte>, done: seq<byte>, state: S, given: seq<byte>)
    requires Lawful(c) && Flow(c, w, taken, done, state, given) && !w.ended && w.filtered == 0
    ensures Flow(c, w.(ended := true, filtered := w.unfiltered, unfiltered := 0), taken, done, state, given)
  {
    ThroughTail(c, taken, done, state);
    hide Whole, Tail, Through, Lawful;
    assert given + Ready(w) == given;
    assert Ready(w.(ended := true, filtered := w.unfiltered, unfiltered := 0)) == Rest(w);
  }

  // New input `s` behind the tail, converted with it where it lies.
  function Converted<S>(w: Window, s: seq<byte>, x: Coded<S>): Window
    requires w.pos + w.unfiltered + |s| <= |w.buf| && |x.out| <= w.unfiltered + |s|
  {
    var buf := w.buf[..w.pos + w.unfiltered] + s + w.buf[w.pos + w.unfiltered + |s|..];
    w.(buf := buf[..w.pos] + x.out + buf[w.pos + |x.out|..], filtered := |x.out|, unfiltered := w.unfiltered + |s| - |x.out|)
  }

  lemma FlowConverts<S(!new)>(c: Converter<S>, w: Window, taken: seq<byte>, done: seq<byte>, state: S, given: seq<byte>, s: seq<byte>)
    requires Lawful(c) && Flow(c, w, taken, done, state, given) && !w.ended && w.filtered == 0
    requires w.pos + w.unfiltered + |s| <= FILTER_BUF_SIZE
    ensures var x := c.code(state, Rest(w) + s);
      |x.out| <= w.unfiltered + |s| && Flow(c, Converted(w, s, x), taken + s, done + x.out, x.state, given)
  {
    ThroughMore(c, taken, done, state, s);
    hide Whole, Tail, Through, Lawful;
    var x := c.code(state, Rest(w) + s);
    var w' := Converted(w, s, x);
    assert given + Ready(w) == given == done;
    assert Ready(w') == x.out;
    assert Rest(w') == (Rest(w) + s)[|x.out|..];
  }

  lemma StillGoing<S>(w: Window, s: seq<byte>, x: Coded<S>)
    requires w.pos + w.unfiltered + |s| <= |w.buf| && |x.out| <= w.unfiltered + |s|
    ensures Converted(w, s, x).ended == w.ended
  {
  }

  lemma FlowShape<S(!new)>(c: Converter<S>, w: Window, taken: seq<byte>, done: seq<byte>, state: S, given: seq<byte>)
    requires Flow(c, w, taken, done, state, given)
    ensures InRange(w) && (w.ended ==> w.unfiltered == 0) && w.unfiltered < FILTER_BUF_SIZE
  {
  }

  class BcjReader<S(!new)> {
    const filter: Converter<S>
    const inner: Source
    var state: S
    var w: Window
    ghost const whole: seq<byte>
    ghost var taken: seq<byte>
    ghost var done: seq<byte>
    ghost var given: seq<byte>

    ghost predicate Valid()
      reads this, inner
    {
      && Lawful(filter) && Flow(filter, w, taken, done, state, given) && taken + inner.rest == whole
      && (w.ended ==> inner.rest == [])
    }

    constructor (filter: Converter<S>, inner: Source)
      requires Lawful(filter)
      ensures Valid() && this.filter == filter && this.inner == inner && whole == inner.rest && given == []
    {
      this.filter, this.inner, state := filter, inner, filter.start;
      w := Window(seq(FILTER_BUF_SIZE, _ => 0), 0, 0, 0, false);
      whole, taken, done, given := inner.rest, [], [], [];
      new;
      FlowStarts(filter, w.buf);
      assert [] + inner.rest == inner.rest;
    }

    // Fills the buffer unless the stream ends first: what comes out is the
    // conversion of the whole stream, whatever the sizes read.
    method Read(buf: array<byte>) returns (size: nat)
      requires Valid()
      modifies this, inner, buf
      ensures Valid() && size <= buf.Length && given == old(given) + buf[..size]
      ensures size < buf.Length ==> Tail(filter, filter.start, whole) && given == Whole(filter, whole)
    {
      hide Flow, Lawful, Tail, Whole;
      size := 0;
      assert buf[..0] == [] && given + [] == given;
      if buf.Length == 0 {
        return;
      }
      while true
        invariant Valid() && size <= buf.Length && given == old(given) + buf[..size]
        invariant size < buf.Length
        decreases |inner.rest|, !w.ended
      {
        size := CopyOut(buf, size);
        if size == buf.Length || w.ended {
          if size < buf.Length {
            AllGiven();
          }
          return;
        }
        Fill();
      }
    }

    // What is ready, as far as the buffer takes it; a window whose end has been
    // reached is moved to the front.
    method CopyOut(buf: array<byte>, at: nat) returns (size: nat)
      requires Valid() && at < buf.Length
      modifies this`w, this`given, buf
      ensures Valid() && at <= size <= buf.Length && buf[..at] == old(buf[..at]) && w.ended == old(w.ended)
      ensures given == old(given) + buf[at..size]
      ensures size < buf.Length ==> w.filtered == 0
      ensures w.pos + w.filtered + w.unfiltered < FILTER_BUF_SIZE
    {
      hide Flow, Lawful;
      FlowShape(filter, w, taken, done, state, given);
      var n := if w.filtered < buf.Length - at then w.filtered else buf.Length - at;
      var pos := w.pos;
      forall i | 0 <= i < n {
        buf[at + i] := w.buf[pos + i];
      }
      assert buf[at..at + n] == w.buf[pos..pos + n];
      FlowCopies(filter, w, taken, done, state, given, n);
      given := given + w.buf[pos..pos + n];
      w := w.(pos := pos + n, filtered := w.filtered - n);
      if w.pos + w.filtered + w.unfiltered == FILTER_BUF_SIZE {
        FlowRotates(filter, w, taken, done, state, given);
        w := Rotated(w);
      }
      return at + n;
    }

    // Another read behind the tail, and the converter over both; or the end.
    method Fill()
      requires Valid() && w.filtered == 0 && !w.ended && w.pos + w.unfiltered < FILTER_BUF_SIZE
      modifies this`w, this`state, this`taken, this`done, inner
      ensures Valid()
      ensures if w.ended then inner.rest == old(inner.rest) else |inner.rest| < |old(inner.rest)|
    {
      hide Flow, Lawful, Tail, Whole, Converted;
      FlowShape(filter, w, taken, done, state, given);
      ghost var rest := inner.rest;
      var s := inner.Take(FILTER_BUF_SIZE - (w.pos + w.unfiltered));
      if s == [] {
        FlowEnds(filter, w, taken, done, state, given);
        w := w.(ended := true, filtered := w.unfiltered, unfiltered := 0);
        return;
      }
      FlowConverts(filter, w, taken, done, state, given, s);
      var x := filter.code(state, Rest(w) + s);
      assert (taken + s) + rest[|s|..] == taken + rest;
      taken, done := taken + s, done + x.out;
      StillGoing(w, s, x);
      w := Converted(w, s, x);
      state := x.state;
    }

    lemma AllGiven()
      requires Valid() && w.ended && w.filtered == 0
      ensures Tail(filter, filter.start, whole) && given == Whole(filter, whole)
    {
      assert given + Ready(w) == given && taken + [] == taken;
    }
  }

  // --- The writer ---

  class BcjWriter<S(!new)> {
    const filter: Converter<S>
    var state: S
    var inner: seq<byte>
    var buffer: seq<byte>
    ghost var taken: seq<byte>

    ghost predicate Valid()
      reads this
    {
      Lawful(filter) && Through(filter, taken, inner, state) && buffer == taken[|inner|..]
    }

    constructor (filter: Converter<S>)
      requires Lawful(filter)
      ensures Valid() && this.filter == filter && taken == []
    {
      this.filter, state := filter, filter.start;
      inner, buffer, taken := [], [], [];
      new;
      ThroughNothing(filter);
    }

    // The tail stays in the buffer, moved to its front.
    method Write(buf: seq<byte>) returns (n: nat)
      requires Valid()
      modifies this
      ensures Valid() && n == |buf| && taken == old(taken) + buf
    {
      hide Lawful;
      ThroughMore(filter, taken, inner, state, buf);
      buffer := buffer + buf;
      var x := filter.code(state, buffer);
      inner := inner + x.out;
      buffer := buffer[|x.out|..];
      state := x.state;
      taken := taken + buf;
      return |buf|;
    }

    // What is left of the tail goes out as it is.
    method Finish() returns (out: seq<byte>)
      requires Valid()
      ensures Tail(filter, filter.start, taken) && out == Whole(filter, taken)
    {
      ThroughTail(filter, taken, inner, state);
      return inner + buffer;
    }
  }

  // Decoding undoes encoding, for whole streams.
  ghost predicate Undoes<D(!new), E(!new)>(d: Converter<D>, e: Converter<E>) {
    forall data: seq<byte> :: Tail(e, e.start, data) ==>
      Tail(d, d.start, Whole(e, data)) && Whole(d, Whole(e, data)) == data
  }

  // Written in any pieces and read in any sizes, data comes back.
  method RoundTrip<D(!new), E(!new)>(d: Converter<D>, e: Converter<E>, pieces: seq<seq<byte>>, sizes: seq<nat>)
      returns (out: seq<byte>, ended: bool)
    requires Lawful(d) && Lawful(e) && Undoes(d, e)
    ensures ended ==> out == Joined(pieces)
    ensures !ended ==> |out| == SumOf(sizes)
  {
    hide Lawful, Undoes, Whole, Tail;
    var writer := new BcjWriter(e);
    for i := 0 to |pieces|
      invariant writer.Valid() && fresh(writer) && writer.filter == e && writer.taken == Joined(pieces[..i])
    {
      assert pieces[..i + 1][..i] == pieces[..i];
      var _ := writer.Write(pieces[i]);
    }
    assert pieces[..|pieces|] == pieces;
    var coded := writer.Finish();
    Undone(d, e, Joined(pieces));
    var source := new Source(coded);
    var reader := new BcjReader(d, source);
    out := [];
    for i := 0 to |sizes|
      invariant reader.Valid() && fresh(reader) && fresh(source) && reader.inner == source && reader.filter == d
      invariant reader.whole == coded && out == reader.given && |out| == SumOf(sizes[..i])
    {
      assert sizes[..i + 1][..i] == sizes[..i];
      var buf := new byte[sizes[i]];
      var n := reader.Read(buf);
      out := out + buf[..n];
      if n < buf.Length {
        return out, true;
      }
    }
    assert sizes[..|sizes|] == sizes;
    return out, false;
  }

  function SumOf(ns: seq<nat>): nat {
    if ns == [] then 0 else SumOf(ns[..|ns| - 1]) + ns[|ns| - 1]
  }

  lemma Undone<D(!new), E(!new)>(d: Converter<D>, e: Converter<E>, data: seq<byte>)
    requires Undoes(d, e) && Tail(e, e.start, data)
    ensures Tail(d, d.start, Whole(e, data)) && Whole(d, Whole(e, data)) == data
  {
  }
}
