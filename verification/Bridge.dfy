// The thread between an archive writer, which pushes, and an encoder, which
// pulls: a bounded channel in, an unbounded one out, in every interleaving.
module Bridge {
  import opened Common
  import opened Sources

  const CHUNK: nat := 0x10_0000
  const INPUT_DEPTH: nat := 2

  // An encoder, from outside: what it makes of a whole input, and what it may
  // have put out when it has read no more than a first part.
  datatype Coder = Coder(enc: seq<byte> -> seq<byte>, ready: seq<byte> -> seq<byte>)

  // Reading on takes back nothing of what may have been put out.
  ghost predicate Lawful(k: Coder) {
    && (forall a: seq<byte>, b: seq<byte> :: k.ready(a) <= k.enc(a + b))
    && forall a: seq<byte>, b: seq<byte> :: k.ready(a) <= k.ready(a + b)
  }

  datatype Writer =
    | Idle
    | Sending(rest: seq<byte>)    // in a write, `rest` still to be cut into chunks
    | Draining(rest: seq<byte>)   // between two sends
    | Flushing
    | Finishing                   // input closed, taking output until it ends
    | Finished                    // the worker joined, without an error
    | Failed

  datatype Outcome = Running | Done | Error

  datatype State = State(
    writer: Writer, written: seq<byte>, accepted: seq<byte>, inner: seq<byte>, open: bool,
    input: seq<seq<byte>>, output: seq<seq<byte>>,
    pending: seq<byte>, pos: nat, consumed: seq<byte>, ended: bool, emitted: seq<byte>, worker: Outcome)

  datatype Action =
    | Write(buf: seq<byte>) | Send | SendFails | Drain | Drained | Return | Flush | Flushed | Close | Collect | Join
    | Read(n: nat) | Receive | ReadEnd | Emit(data: seq<byte>) | Complete | Fail

  function Start(): State {
    State(Idle, [], [], [], true, [], [], [], 0, [], false, [], Running)
  }

  function Flat(chunks: seq<seq<byte>>): seq<byte> {
    if chunks == [] then [] else chunks[0] + Flat(chunks[1..])
  }

  function Least(a: nat, b: nat): nat {
    if a <= b then a else b
  }

  function Head(rest: seq<byte>): seq<byte> {
    rest[..Least(CHUNK, |rest|)]
  }

  // What the encoder may have put out by now.
  function Bound(k: Coder, s: State): seq<byte> {
    if s.ended then k.enc(s.consumed) else k.ready(s.consumed)
  }

  // --- The steps ---

  ghost predicate WriterStep(s: State, a: Action, t: State) {
    match a
    case Write(buf) => s.writer.Idle? && t == s.(writer := Sending(buf), written := s.written + buf)
    // A send waits while the channel is full, and fails when nobody receives.
    case Send =>
      && s.writer.Sending? && s.writer.rest != [] && s.worker.Running? && |s.input| < INPUT_DEPTH
      && var c := Head(s.writer.rest);
      t == s.(writer := Draining(s.writer.rest[|c|..]), input := s.input + [c], accepted := s.accepted + c)
    case SendFails => s.writer.Sending? && s.writer.rest != [] && !s.worker.Running? && t == s.(writer := Failed)
    case Drain =>
      && (s.writer.Draining? || s.writer.Flushing?) && s.output != []
      && t == s.(inner := s.inner + s.output[0], output := s.output[1..])
    case Drained => s.writer.Draining? && s.output == [] && t == s.(writer := Sending(s.writer.rest))
    case Return => s.writer == Sending([]) && t == s.(writer := Idle)
    case Flush => s.writer.Idle? && t == s.(writer := Flushing)
    case Flushed => s.writer.Flushing? && s.output == [] && t == s.(writer := Idle)
    case Close => s.writer.Idle? && t == s.(writer := Finishing, open := false)
    case Collect =>
      && s.writer.Finishing? && s.output != []
      && t == s.(inner := s.inner + s.output[0], output := s.output[1..])
    case Join =>
      && s.writer.Finishing? && s.output == [] && !s.worker.Running?
      && t == s.(writer := if s.worker.Done? then Finished else Failed)
    case _ => false
  }

  ghost predicate WorkerStep(k: Coder, s: State, a: Action, t: State) {
    s.worker.Running? &&
    match a
    case Read(n) =>
      && 0 < n <= |s.pending| - s.pos
      && t == s.(consumed := s.consumed + s.pending[s.pos..s.pos + n], pos := s.pos + n)
    case Receive =>
      && s.pos >= |s.pending| && s.input != []
      && t == s.(pending := s.input[0], pos := 0, input := s.input[1..])
    // A closed and empty channel is the end of the input; reading again after
    // that changes nothing.
    case ReadEnd => !s.ended && s.pos >= |s.pending| && s.input == [] && !s.open && t == s.(ended := true)
    case Emit(data) =>
      && data != [] && s.emitted + data <= Bound(k, s)
      && t == s.(emitted := s.emitted + data, output := s.output + [data])
    case Complete => s.ended && s.emitted == k.enc(s.consumed) && t == s.(worker := Done)
    case Fail => t == s.(worker := Error)
    case _ => false
  }

  ghost predicate Next(k: Coder, s: State, a: Action, t: State) {
    WriterStep(s, a, t) || WorkerStep(k, s, a, t)
  }

  // --- What every step keeps ---

  // Bytes the writer still holds of what it was given.
  function Unsent(w: Writer): seq<byte> {
    if w.Sending? || w.Draining? then w.rest else []
  }

  function Left(s: State): seq<byte> {
    if s.pos <= |s.pending| then s.pending[s.pos..] else []
  }

  ghost predicate Conserved(s: State) {
    && s.consumed + Left(s) + Flat(s.input) == s.accepted
    && s.inner + Flat(s.output) == s.emitted
    && (s.writer.Failed? || s.accepted + Unsent(s.writer) == s.written)
  }

  ghost predicate Orderly(k: Coder, s: State) {
    && s.pos <= |s.pending| <= CHUNK && |s.input| <= INPUT_DEPTH
    && (forall i | 0 <= i < |s.input| :: 0 < |s.input[i]| <= CHUNK)
    && (s.writer.Finishing? || s.writer.Finished? ==> !s.open)
    && (!s.open ==> s.writer.Finishing? || s.writer.Finished? || s.writer.Failed?)
    && (s.ended ==> !s.open && s.input == [] && Left(s) == [])
    && s.emitted <= Bound(k, s)
    && (s.worker.Done? ==> s.ended && s.emitted == k.enc(s.consumed))
    && (s.writer.Finished? ==> s.worker.Done? && s.output == [])
  }

  ghost predicate Inv(k: Coder, s: State) {
    Conserved(s) && Orderly(k, s)
  }

  lemma StartsRight(k: Coder)
    ensures Inv(k, Start())
  {
  }

  lemma {:induction false} FlatMore(chunks: seq<seq<byte>>, c: seq<byte>)
    ensures Flat(chunks + [c]) == Flat(chunks) + c
  {
    if chunks == [] {
      assert [] + [c] == [c] && [c][1..] == [];
    } else {
      assert (chunks + [c])[1..] == chunks[1..] + [c];
      FlatMore(chunks[1..], c);
    }
  }

  lemma SendConserves(s: State, t: State)
    requires Conserved(s) && WriterStep(s, Send, t)
    ensures Conserved(t)
  {
    hide Flat;
    var c := Head(s.writer.rest);
    FlatMore(s.input, c);
    assert s.writer.rest == c + s.writer.rest[|c|..];
    assert (s.consumed + Left(s) + Flat(s.input)) + c == s.consumed + Left(s) + (Flat(s.input) + c);
    assert s.accepted + (c + s.writer.rest[|c|..]) == (s.accepted + c) + s.writer.rest[|c|..];
  }

  // A chunk goes from the channel to the sink.
  lemma Delivered(inner: seq<byte>, output: seq<seq<byte>>)
    requires output != []
    ensures inner + Flat(output) == (inner + output[0]) + Flat(output[1..])
  {
    assert inner + (output[0] + Flat(output[1..])) == (inner + output[0]) + Flat(output[1..]);
  }

  lemma WriterConserves(s: State, a: Action, t: State)
    requires Conserved(s) && WriterStep(s, a, t)
    ensures Conserved(t)
  {
    hide Flat;
    match a
    case Write(buf) =>
      assert s.accepted + [] == s.accepted;
    case Send => SendConserves(s, t);
    case Drain => Delivered(s.inner, s.output);
    case Collect => Delivered(s.inner, s.output);
    case _ =>
  }

  lemma WorkerConserves(k: Coder, s: State, a: Action, t: State)
    requires Conserved(s) && WorkerStep(k, s, a, t) && s.pos <= |s.pending|
    ensures Conserved(t)
  {
    hide Flat;
    match a
    case Read(n) =>
      var got := s.pending[s.pos..s.pos + n];
      assert Left(s) == got + Left(t);
      Moved(s.consumed, got, Left(t), Flat(s.input));
    case Receive =>
      assert Left(s) == [] && Left(t) == s.input[0];
      FlatHead(s.input);
      assert s.consumed + [] == s.consumed;
      assert s.consumed + (s.input[0] + Flat(s.input[1..])) == (s.consumed + s.input[0]) + Flat(s.input[1..]);
    case Emit(data) =>
      FlatMore(s.output, data);
      assert (s.inner + Flat(s.output)) + data == s.inner + (Flat(s.output) + data);
    case _ =>
  }

  lemma FlatHead(chunks: seq<seq<byte>>)
    requires chunks != []
    ensures Flat(chunks) == chunks[0] + Flat(chunks[1..])
  {
  }

  // Bytes taken out of the middle go to the front.
  lemma Moved(a: seq<byte>, got: seq<byte>, left: seq<byte>, rest: seq<byte>)
    ensures (a + (got + left)) + rest == ((a + got) + left) + rest
  {
    assert a + (got + left) == (a + got) + left;
  }

  lemma WriterOrderly(k: Coder, s: State, a: Action, t: State)
    requires Orderly(k, s) && WriterStep(s, a, t)
    ensures Orderly(k, t)
  {
  }

  lemma WorkerOrderly(k: Coder, s: State, a: Action, t: State)
    requires Lawful(k) && Orderly(k, s) && WorkerStep(k, s, a, t)
    ensures Orderly(k, t)
  {
    match a
    case Read(n) =>
      assert k.ready(s.consumed) <= k.ready(s.consumed + s.pending[s.pos..s.pos + n]);
    case ReadEnd =>
      assert s.consumed + [] == s.consumed;
      assert k.ready(s.consumed) <= k.enc(s.consumed + []);
    case _ =>
  }

  // In every interleaving, every step keeps the invariant.
  lemma StepKeeps(k: Coder, s: State, a: Action, t: State)
    requires Lawful(k) && Inv(k, s) && Next(k, s, a, t)
    ensures Inv(k, t)
  {
    hide Conserved, WriterStep, WorkerStep;
    if WriterStep(s, a, t) {
      WriterConserves(s, a, t);
      WriterOrderly(k, s, a, t);
    } else {
      WorkerConserves(k, s, a, t);
      WorkerOrderly(k, s, a, t);
    }
  }

  // --- Whole runs ---

  ghost predicate Run(k: Coder, states: seq<State>, actions: seq<Action>) {
    && |states| == |actions| + 1 && states[0] == Start()
    && forall i | 0 <= i < |actions| :: Next(k, states[i], actions[i], states[i + 1])
  }

  lemma {:induction false} RunKeeps(k: Coder, states: seq<State>, actions: seq<Action>)
    requires Lawful(k) && Run(k, states, actions)
    ensures forall i | 0 <= i < |states| :: Inv(k, states[i])
    decreases |actions|
  {
    hide Inv, Next, Lawful;
    if actions == [] {
      StartsRight(k);
    } else {
      var n := |actions|;
      RunKeeps(k, states[..n], actions[..n - 1]);
      assert Inv(k, states[..n][n - 1]);
      StepKeeps(k, states[n - 1], actions[n - 1], states[n]);
    }
  }

  // Once the writer has finished, the inner sink holds the encoding of all
  // that was written.
  lemma FinishedIsEncoded(k: Coder, s: State)
    requires Inv(k, s) && s.writer.Finished?
    ensures s.inner == k.enc(s.written)
  {
    assert s.consumed + [] + [] == s.consumed && s.accepted + [] == s.accepted && s.inner + [] == s.inner;
  }

  // What is on its way to the encoder is bounded by the channel and a chunk.
  lemma InFlight(k: Coder, s: State)
    requires Inv(k, s)
    ensures |s.accepted| - |s.consumed| <= (INPUT_DEPTH + 1) * CHUNK
  {
    FlatBounded(s.input);
  }

  lemma {:induction false} FlatBounded(chunks: seq<seq<byte>>)
    requires forall i | 0 <= i < |chunks| :: |chunks[i]| <= CHUNK
    ensures |Flat(chunks)| <= |chunks| * CHUNK
  {
    if chunks != [] {
      FlatBounded(chunks[1..]);
    }
  }

  // --- Nobody waits for ever ---

  // What the caller decides; every other step is the machine's own.
  predicate Request(a: Action) {
    a.Write? || a.Flush? || a.Close?
  }

  predicate AtRest(w: Writer) {
    w.Idle? || w.Finished? || w.Failed?
  }

  // A step that can be taken, short of the encoder failing.
  ghost function Possible(k: Coder, s: State): Action {
    var w := s.writer;
    if w.Sending? && w.rest == [] then Return
    else if w.Sending? && !s.worker.Running? then SendFails
    else if w.Sending? && |s.input| < INPUT_DEPTH then Send
    else if w.Draining? then (if s.output != [] then Drain else Drained)
    else if w.Flushing? then (if s.output != [] then Drain else Flushed)
    else if w.Finishing? && s.output != [] then Collect
    else if w.Finishing? && !s.worker.Running? then Join
    else if Left(s) != [] then Read(1)
    else if s.input != [] then Receive
    else if !s.ended then ReadEnd
    else if |s.emitted| < |k.enc(s.consumed)| then Emit(k.enc(s.consumed)[|s.emitted|..])
    else Complete
  }

  ghost function After(k: Coder, s: State, a: Action): State
    requires s.pos <= |s.pending|
  {
    match a
    case Send => var c := if Unsent(s.writer) == [] then [] else Head(Unsent(s.writer));
      s.(writer := Draining(Unsent(s.writer)[|c|..]), input := s.input + [c], accepted := s.accepted + c)
    case SendFails => s.(writer := Failed)
    case Drain => if s.output == [] then s else s.(inner := s.inner + s.output[0], output := s.output[1..])
    case Collect => if s.output == [] then s else s.(inner := s.inner + s.output[0], output := s.output[1..])
    case Drained => s.(writer := Sending(Unsent(s.writer)))
    case Return => s.(writer := Idle)
    case Flushed => s.(writer := Idle)
    case Join => s.(writer := if s.worker.Done? then Finished else Failed)
    case Read(n) => if n <= |Left(s)| then s.(consumed := s.consumed + s.pending[s.pos..s.pos + n], pos := s.pos + n) else s
    case Receive => if s.input == [] then s else s.(pending := s.input[0], pos := 0, input := s.input[1..])
    case ReadEnd => s.(ended := true)
    case Emit(data) => s.(emitted := s.emitted + data, output := s.output + [data])
    case Complete => s.(worker := Done)
    case _ => s
  }

  // While a call is under way, some step can be taken.
  lemma NoDeadlock(k: Coder, s: State)
    requires Inv(k, s) && !AtRest(s.writer)
    ensures var a := Possible(k, s); !Request(a) && !a.Fail? && Next(k, s, a, After(k, s, a))
  {
    hide Conserved, Flat;
    var a := Possible(k, s);
    if a.Emit? {
      assert k.enc(s.consumed) == s.emitted + a.data;
    }
  }

  // --- Every call returns ---

  function Phase(w: Writer): nat {
    if w.Draining? then 2 else if AtRest(w) then 0 else 1
  }

  function One(b: bool): nat {
    if b then 1 else 0
  }

  // What the machine can still do by itself, most significant first.
  ghost function Work(k: Coder, s: State): (w: seq<int>)
    ensures |w| == 8
  {
    [|Unsent(s.writer)|, |s.accepted| - |s.consumed|, |s.input|, One(!s.ended), |Bound(k, s)| - |s.emitted|,
     Phase(s.writer), |s.output|, One(s.worker.Running?)]
  }

  ghost predicate Less(v: seq<int>, w: seq<int>) {
    |v| == |w| && exists i :: 0 <= i < |v| && v[..i] == w[..i] && v[i] < w[i]
  }

  lemma LessAt(v: seq<int>, w: seq<int>, i: nat)
    requires |v| == |w| && i < |v| && v[i] < w[i] && forall j | 0 <= j < i :: v[j] == w[j]
    ensures Less(v, w)
  {
    assert v[..i] == w[..i];
  }

  lemma SameBound(k: Coder, s: State, t: State)
    requires t.ended == s.ended && t.consumed == s.consumed
    ensures Bound(k, t) == Bound(k, s)
  {
  }

  lemma WorkIs(k: Coder, s: State)
    ensures var w := Work(k, s);
      && w[0] == |Unsent(s.writer)| && w[1] == |s.accepted| - |s.consumed| && w[2] == |s.input|
      && w[3] == One(!s.ended) && w[4] == |Bound(k, s)| - |s.emitted| && w[5] == Phase(s.writer)
      && w[6] == |s.output| && w[7] == One(s.worker.Running?)
  {
  }

  lemma WriterEnds(k: Coder, s: State, a: Action, t: State)
    requires WriterStep(s, a, t) && !Request(a)
    ensures Less(Work(k, t), Work(k, s))
  {
    hide Less, Work, Bound;
    var v, w := Work(k, t), Work(k, s);
    WorkIs(k, t);
    WorkIs(k, s);
    assert Bound(k, t) == Bound(k, s) by { SameBound(k, s, t); }
    match a
    case Send => LessAt(v, w, 0);
    case SendFails => LessAt(v, w, 0);
    case Drain => LessAt(v, w, 6);
    case Drained => LessAt(v, w, 5);
    case Return => LessAt(v, w, 5);
    case Flushed => LessAt(v, w, 5);
    case Collect => LessAt(v, w, 6);
    case Join => LessAt(v, w, 5);
  }

  lemma WorkerEnds(k: Coder, s: State, a: Action, t: State)
    requires WorkerStep(k, s, a, t)
    ensures Less(Work(k, t), Work(k, s))
  {
    hide Less, Work;
    var v, w := Work(k, t), Work(k, s);
    WorkIs(k, t);
    WorkIs(k, s);
    match a
    case Read(n) => LessAt(v, w, 1);
    case Receive => LessAt(v, w, 2);
    case ReadEnd => LessAt(v, w, 3);
    case Emit(data) => LessAt(v, w, 4);
    case Complete => LessAt(v, w, 7);
    case Fail => LessAt(v, w, 7);
  }

  // Whatever step is taken next, if it is not a new request there is less to do.
  lemma StepsEnd(k: Coder, s: State, a: Action, t: State)
    requires Inv(k, s) && Next(k, s, a, t) && !Request(a)
    ensures Less(Work(k, t), Work(k, s))
    ensures forall i | 0 <= i < 8 :: Work(k, s)[i] >= 0
  {
    hide Less, Work, WriterStep, WorkerStep, Inv;
    WorkBounded(k, s);
    if WriterStep(s, a, t) {
      WriterEnds(k, s, a, t);
    } else {
      WorkerEnds(k, s, a, t);
    }
  }

  lemma WorkBounded(k: Coder, s: State)
    requires Inv(k, s)
    ensures forall i | 0 <= i < 8 :: Work(k, s)[i] >= 0
  {
    hide Flat;
    assert |s.accepted| >= |s.consumed|;
  }

  // Any schedule of the machine's own steps comes to rest.
  ghost method RunToRest(k: Coder, start: State) returns (s: State)
    requires Lawful(k) && Inv(k, start)
    ensures Inv(k, s) && AtRest(s.writer)
    ensures s.writer.Finished? ==> s.inner == k.enc(s.written)
  {
    hide Inv, Next, Lawful, Less, Work, Possible, After, AtRest;
    s := start;
    while !AtRest(s.writer)
      invariant Inv(k, s)
      decreases Work(k, s)[0], Work(k, s)[1], Work(k, s)[2], Work(k, s)[3], Work(k, s)[4],
                Work(k, s)[5], Work(k, s)[6], Work(k, s)[7]
    {
      InvShape(k, s);
      NoDeadlock(k, s);
      var a: Action, t: State :| Next(k, s, a, t) && !Request(a);
      StepKeeps(k, s, a, t);
      StepsEnd(k, s, a, t);
      LessWhere(Work(k, t), Work(k, s));
      s := t;
    }
    if s.writer.Finished? {
      FinishedIsEncoded(k, s);
    }
  }

  lemma InvShape(k: Coder, s: State)
    requires Inv(k, s)
    ensures s.pos <= |s.pending|
  {
  }

  lemma LessWhere(v: seq<int>, w: seq<int>)
    requires Less(v, w) && |v| == 8
    ensures v[0] < w[0] || (v[0] == w[0] &&
      (v[1] < w[1] || (v[1] == w[1] &&
        (v[2] < w[2] || (v[2] == w[2] &&
          (v[3] < w[3] || (v[3] == w[3] &&
            (v[4] < w[4] || (v[4] == w[4] &&
              (v[5] < w[5] || (v[5] == w[5] &&
                (v[6] < w[6] || (v[6] == w[6] && v[7] < w[7])))))))))))))
  {
    var i :| 0 <= i < |v| && v[..i] == w[..i] && v[i] < w[i];
    forall j | 0 <= j < i ensures v[j] == w[j] {
      assert v[..i][j] == w[..i][j];
    }
  }

  // --- The writer without a thread ---

  // Where no thread can be started, all input is held and encoded at the end.
  class BufferedWriter {
    const coder: Coder
    var held: seq<byte>

    constructor (coder: Coder)
      ensures this.coder == coder && held == []
    {
      this.coder, held := coder, [];
    }

    method Write(buf: seq<byte>) returns (n: nat)
      modifies this
      ensures n == |buf| && held == old(held) + buf
    {
      held := held + buf;
      return |buf|;
    }

    method Finish() returns (inner: seq<byte>)
      ensures inner == coder.enc(held)
    {
      return coder.enc(held);
    }
  }

  // The writes of a run, in order.
  function Writes(actions: seq<Action>): seq<seq<byte>> {
    if actions == [] then [] else
    var last := actions[|actions| - 1];
    Writes(actions[..|actions| - 1]) + if last.Write? then [last.buf] else []
  }

  lemma StepWrites(k: Coder, s: State, a: Action, t: State)
    requires Next(k, s, a, t)
    ensures t.written == s.written + if a.Write? then a.buf else []
  {
    assert s.written + [] == s.written;
  }

  lemma {:induction false} WrittenIsJoined(k: Coder, states: seq<State>, actions: seq<Action>)
    requires Run(k, states, actions)
    ensures |states| == |actions| + 1 && states[|actions|].written == Joined(Writes(actions))
    decreases |actions|
  {
    hide Next;
    if actions != [] {
      var n := |actions|;
      var a, ws := actions[n - 1], Writes(actions[..n - 1]);
      WrittenIsJoined(k, states[..n], actions[..n - 1]);
      StepWrites(k, states[n - 1], a, states[n]);
      JoinedMore(ws, a);
    }
  }

  lemma JoinedMore(ws: seq<seq<byte>>, a: Action)
    ensures Joined(ws + if a.Write? then [a.buf] else []) == Joined(ws) + if a.Write? then a.buf else []
  {
    if a.Write? {
      assert (ws + [a.buf])[..|ws|] == ws;
    } else {
      assert ws + [] == ws && Joined(ws) + [] == Joined(ws);
    }
  }

  // In every interleaving that finishes, the thread's result is the one
  // without a thread: where both run the same encoder, the same bytes.
  method SameAsBuffered(k: Coder, ghost states: seq<State>, ghost actions: seq<Action>, writes: seq<seq<byte>>)
      returns (inner: seq<byte>)
    requires Lawful(k) && Run(k, states, actions) && states[|actions|].writer.Finished? && writes == Writes(actions)
    ensures inner == states[|actions|].inner
  {
    hide Run, Next, Inv, Lawful;
    WrittenIsJoined(k, states, actions);
    RunKeeps(k, states, actions);
    FinishedIsEncoded(k, states[|actions|]);
    var w := new BufferedWriter(k);
    for i := 0 to |writes|
      invariant w.coder == k && fresh(w) && w.held == Joined(writes[..i])
    {
      assert writes[..i + 1][..i] == writes[..i];
      var _ := w.Write(writes[i]);
    }
    assert writes[..|writes|] == writes;
    inner := w.Finish();
  }
}
