// Handing every entry of an archive to a callback, with its own part of the
// output of its block.
module Extraction {
  import opened Common
  import opened Bits
  import opened Blocks
  import opened PackFormat
  import opened SubStreams
  import opened FilesFormat
  import opened FilesBack
  import opened StreamMaps
  import opened Headers

  // A callback, for each entry: how many bytes it asks for, whether it goes on,
  // and whether it takes no notice of a checksum that does not match.
  datatype Callback = Callback(wants: nat -> nat, goOn: nat -> bool, ignores: nat -> bool)

  // What a callback was given, and what it read.
  datatype Visit = Visit(file: nat, bytes: seq<byte>)

  // What the completion hook is told of an entry read to its end.
  datatype Completion = Completion(block: nat, subStream: nat, file: nat, offset: nat, len: nat, crc: nat)

  datatype Outcome = Finished | Stopped | BadChecksum

  // --- Where the entries of a block lie in its output ---

  function SizeOf(f: Entry): nat {
    if f.hasStream then f.size else 0
  }

  // The sizes of `m` entries from `first` on.
  function Offset(files: seq<Entry>, first: nat, m: nat): nat
    requires first + m <= |files|
  {
    if m == 0 then 0 else Offset(files, first, m - 1) + SizeOf(files[first + m - 1])
  }

  ghost function Own(files: seq<Entry>, data: seq<byte>, first: nat, m: nat): seq<byte>
    requires first + m < |files| && Offset(files, first, m + 1) <= |data|
  {
    data[Offset(files, first, m)..Offset(files, first, m + 1)]
  }

  lemma OffsetStep(files: seq<Entry>, first: nat, m: nat)
    requires first + m < |files|
    ensures Offset(files, first, m + 1) == Offset(files, first, m) + SizeOf(files[first + m])
  {
  }

  // --- What each entry of a block is handed ---

  predicate Full(f: Entry) {
    f.hasStream && f.size > 0
  }

  function Least(x: nat, y: nat): nat {
    if x <= y then x else y
  }

  // What is read of entry `f`, when `room` bytes are left of its block.
  function Taken(files: seq<Entry>, cb: Callback, f: nat, room: nat): nat
    requires f < |files|
  {
    if Full(files[f]) then Least(Least(cb.wants(f), files[f].size), room) else 0
  }

  // Where in a block of `n` bytes the entry after `m` others begins to read:
  // behind what was read of those. Nothing is skipped.
  function From(files: seq<Entry>, cb: Callback, n: nat, first: nat, m: nat): (p: nat)
    requires first + m <= |files|
    ensures p <= n
  {
    if m == 0 then 0 else
    var p := From(files, cb, n, first, m - 1);
    p + Taken(files, cb, first + m - 1, n - p)
  }

  function VisitAt(files: seq<Entry>, cb: Callback, data: seq<byte>, first: nat, m: nat): Visit
    requires first + m < |files|
  {
    Visit(first + m, data[From(files, cb, |data|, first, m)..From(files, cb, |data|, first, m + 1)])
  }

  function VisitsIn(files: seq<Entry>, cb: Callback, data: seq<byte>, first: nat, m: nat): (vs: seq<Visit>)
    requires first + m <= |files|
    ensures |vs| == m
  {
    seq(m, j requires 0 <= j < m => VisitAt(files, cb, data, first, j))
  }

  // How many of `n` entries the callback is handed before it stops.
  function Reached(cb: Callback, first: nat, n: nat): (m: nat)
    ensures m <= n
    decreases n
  {
    if n == 0 then 0 else if !cb.goOn(first) then 1 else 1 + Reached(cb, first + 1, n - 1)
  }

  ghost predicate GoesOnAlways(files: seq<Entry>, cb: Callback) {
    forall i | 0 <= i < |files| :: cb.goOn(i)
  }

  // The callback reads entry `f` to its end.
  predicate WantsAll(files: seq<Entry>, cb: Callback, f: nat)
    requires f < |files|
  {
    Full(files[f]) ==> cb.wants(f) >= files[f].size
  }

  // Reading never gets ahead, and it keeps up just as long as every entry is
  // read to its end.
  lemma {:induction false} FromIff(files: seq<Entry>, cb: Callback, n: nat, first: nat, m: nat)
    requires first + m <= |files| && Offset(files, first, m) <= n
    ensures From(files, cb, n, first, m) <= Offset(files, first, m)
    ensures From(files, cb, n, first, m) == Offset(files, first, m) <==>
            forall i | first <= i < first + m :: WantsAll(files, cb, i)
  {
    if m > 0 {
      OffsetStep(files, first, m - 1);
      FromIff(files, cb, n, first, m - 1);
      var last, p := first + m - 1, From(files, cb, n, first, m - 1);
      assert Taken(files, cb, last, n - p) <= SizeOf(files[last]);
      if p == Offset(files, first, m - 1) {
        assert WantsAll(files, cb, last) <==> Taken(files, cb, last, n - p) == SizeOf(files[last]);
      }
    }
  }

  // An entry that is read to its end is handed its own interval, whatever the
  // block holds, just when every entry before it in the block is read to its end.
  lemma OwnIff(files: seq<Entry>, cb: Callback, n: nat, first: nat, m: nat)
    requires first + m < |files| && Offset(files, first, m + 1) <= n
    requires Full(files[first + m]) && WantsAll(files, cb, first + m)
    ensures (forall data: seq<byte> | |data| == n ::
              VisitAt(files, cb, data, first, m).bytes == Own(files, data, first, m))
            <==> forall i | first <= i < first + m :: WantsAll(files, cb, i)
  {
    hide WantsAll;
    OffsetStep(files, first, m);
    FromIff(files, cb, n, first, m);
    var p, o, size := From(files, cb, n, first, m), Offset(files, first, m), files[first + m].size;
    FullTaken(files, cb, n, first, m);
    if p < o {
      var data: seq<byte> := seq(n, i => if i == o then 1 else 0);
      assert data[p] == 0 && data[o] == 1;
      assert VisitAt(files, cb, data, first, m).bytes[0] == data[p];
      assert Own(files, data, first, m)[0] == data[o];
    } else {
      forall data: seq<byte> | |data| == n
        ensures VisitAt(files, cb, data, first, m).bytes == Own(files, data, first, m)
      {
      }
    }
  }

  lemma FullTaken(files: seq<Entry>, cb: Callback, n: nat, first: nat, m: nat)
    requires first + m < |files| && Full(files[first + m]) && WantsAll(files, cb, first + m)
    requires From(files, cb, n, first, m) + files[first + m].size <= n
    ensures From(files, cb, n, first, m + 1) == From(files, cb, n, first, m) + files[first + m].size
  {
  }

  // Two entries of two bytes each, of the first of which only one byte is read:
  // the second is handed bytes two and three, so that a checksum which is right
  // for the archive is found not to match.
  lemma ShiftedEntry(files: seq<Entry>, cb: Callback, crcOf: seq<byte> -> nat)
    requires |files| == 2 && files[0].hasStream && files[1].hasStream && files[0].size == files[1].size == 2
    requires cb.wants(0) == 1 && cb.wants(1) == 2 && cb.goOn(0) && cb.goOn(1)
    ensures var data: seq<byte> := [1, 2, 3, 4];
      && VisitsIn(files, cb, data, 0, Reached(cb, 0, 2)) == [Visit(0, [1]), Visit(1, [2, 3])]
      && Offset(files, 0, 2) == |data| && Own(files, data, 0, 1) == [3, 4]
      && (files[1].hasCrc && files[1].crc == crcOf([3, 4]) != crcOf([2, 3]) ==>
           Mismatch(files, true, crcOf, Visit(1, [2, 3])))
  {
    var data: seq<byte> := [1, 2, 3, 4];
    assert From(files, cb, 4, 0, 1) == 1 && From(files, cb, 4, 0, 2) == 3;
    assert Offset(files, 0, 1) == 2 && Offset(files, 0, 2) == 4;
    assert Reached(cb, 1, 1) == 1;
    assert data[1..3] == [2, 3] && data[2..4] == [3, 4] && data[0..1] == [1];
  }

  // --- What is checked and reported ---

  predicate CheckedAt(files: seq<Entry>, verify: bool, v: Visit) {
    verify && v.file < |files| && Full(files[v.file]) && files[v.file].hasCrc && |v.bytes| == files[v.file].size
  }

  // A visit whose checksum is the one on record, and one whose is not.
  predicate Passed(files: seq<Entry>, verify: bool, crcOf: seq<byte> -> nat, v: Visit) {
    CheckedAt(files, verify, v) && crcOf(v.bytes) == files[v.file].crc
  }

  predicate Mismatch(files: seq<Entry>, verify: bool, crcOf: seq<byte> -> nat, v: Visit) {
    CheckedAt(files, verify, v) && crcOf(v.bytes) != files[v.file].crc
  }

  // The error of the reader reaches the one who called.
  predicate Raised(files: seq<Entry>, cb: Callback, verify: bool, crcOf: seq<byte> -> nat, v: Visit) {
    Mismatch(files, verify, crcOf, v) && !cb.ignores(v.file)
  }

  ghost predicate NoneRaised(files: seq<Entry>, cb: Callback, verify: bool, crcOf: seq<byte> -> nat, visits: seq<Visit>) {
    forall v | v in visits :: !Raised(files, cb, verify, crcOf, v)
  }

  // It is the last visit that ends all, and none before it would have.
  ghost predicate EndsRaised(files: seq<Entry>, cb: Callback, verify: bool, crcOf: seq<byte> -> nat, visits: seq<Visit>) {
    && visits != [] && Raised(files, cb, verify, crcOf, visits[|visits| - 1])
    && NoneRaised(files, cb, verify, crcOf, visits[..|visits| - 1])
  }

  // The entries whose checksums were found right, in order.
  function Listed(files: seq<Entry>, verify: bool, crcOf: seq<byte> -> nat, visits: seq<Visit>): seq<nat> {
    if visits == [] then [] else
    var last := visits[|visits| - 1];
    Listed(files, verify, crcOf, visits[..|visits| - 1]) + if Passed(files, verify, crcOf, last) then [last.file] else []
  }

  function DoneFiles(done: seq<Completion>): seq<nat> {
    seq(|done|, i requires 0 <= i < |done| => done[i].file)
  }

  lemma NothingListed(files: seq<Entry>, verify: bool, crcOf: seq<byte> -> nat)
    ensures DoneFiles([]) == Listed(files, verify, crcOf, [])
  {
  }

  // One visit more, and the report of it if there is one.
  lemma ListedMore(files: seq<Entry>, verify: bool, crcOf: seq<byte> -> nat, visits: seq<Visit>, done: seq<Completion>,
                   v: Visit, c: Completion)
    requires DoneFiles(done) == Listed(files, verify, crcOf, visits) && c.file == v.file
    ensures DoneFiles(if Passed(files, verify, crcOf, v) then done + [c] else done)
         == Listed(files, verify, crcOf, visits + [v])
  {
    hide Passed;
    assert (visits + [v])[..|visits|] == visits;
    assert DoneFiles(done + [c]) == DoneFiles(done) + [c.file];
  }

  lemma {:induction false} ListedJoin(files: seq<Entry>, verify: bool, crcOf: seq<byte> -> nat, a: seq<Visit>, b: seq<Visit>)
    ensures Listed(files, verify, crcOf, a + b) == Listed(files, verify, crcOf, a) + Listed(files, verify, crcOf, b)
    decreases |b|
  {
    hide Passed;
    if b == [] {
      assert a + b == a;
    } else {
      var front := b[..|b| - 1];
      assert (a + b)[..|a + b| - 1] == a + front && (a + b)[|a + b| - 1] == b[|b| - 1];
      ListedJoin(files, verify, crcOf, a, front);
    }
  }

  lemma BothListed(files: seq<Entry>, verify: bool, crcOf: seq<byte> -> nat, visits: seq<Visit>, done: seq<Completion>,
                   more: seq<Visit>, reports: seq<Completion>)
    requires DoneFiles(done) == Listed(files, verify, crcOf, visits)
    requires DoneFiles(reports) == Listed(files, verify, crcOf, more)
    ensures DoneFiles(done + reports) == Listed(files, verify, crcOf, visits + more)
  {
    ListedJoin(files, verify, crcOf, visits, more);
    assert DoneFiles(done + reports) == DoneFiles(done) + DoneFiles(reports);
  }

  // An entry from no block is neither checked nor reported.
  lemma EmptyVisit(files: seq<Entry>, cb: Callback, verify: bool, crcOf: seq<byte> -> nat, visits: seq<Visit>, f: nat)
    ensures !Raised(files, cb, verify, crcOf, Visit(f, []))
    ensures Listed(files, verify, crcOf, visits + [Visit(f, [])]) == Listed(files, verify, crcOf, visits)
  {
    assert (visits + [Visit(f, [])])[..|visits|] == visits;
  }

  // A completion names its entry, the number of its stream over all blocks,
  // where it begins in the block, its size and its checksum.
  ghost predicate Reported(files: seq<Entry>, firstSub: nat, b: nat, first: nat, m: nat, c: Completion) {
    && first <= c.file < first + m <= |files| && c.block == b && files[c.file].hasStream
    && c.offset == Offset(files, first, c.file - first) && c.len == files[c.file].size
    && Before(files, first) <= Before(files, c.file)
    && c.subStream == firstSub + (Before(files, c.file) - Before(files, first))
    && c.crc == files[c.file].crc
  }

  // After `m` entries of a block, however much was read of them.
  ghost predicate Going(files: seq<Entry>, firstSub: nat, b: nat, first: nat, m: nat,
                        offset: nat, sub: nat, done: seq<Completion>)
  {
    && first + m <= |files| && offset == Offset(files, first, m)
    && Before(files, first) + sub == Before(files, first + m)
    && forall c | c in done :: Reported(files, firstSub, b, first, m, c)
  }

  lemma GoingStarts(files: seq<Entry>, firstSub: nat, b: nat, first: nat)
    requires first <= |files|
    ensures Going(files, firstSub, b, first, 0, 0, 0, [])
  {
  }

  lemma ReportedMore(files: seq<Entry>, firstSub: nat, b: nat, first: nat, m: nat, n: nat, done: seq<Completion>)
    requires m <= n && first + n <= |files| && forall c | c in done :: Reported(files, firstSub, b, first, m, c)
    ensures forall c | c in done :: Reported(files, firstSub, b, first, n, c)
  {
  }

  // The entry after `m` others is past, and may be reported.
  lemma GoesOn(files: seq<Entry>, firstSub: nat, b: nat, first: nat, m: nat,
               offset: nat, sub: nat, done: seq<Completion>)
    requires Going(files, firstSub, b, first, m, offset, sub, done) && first + m < |files|
    ensures var f := files[first + m];
      var size, sub' := SizeOf(f), if f.hasStream then sub + 1 else sub;
      && Going(files, firstSub, b, first, m + 1, offset + size, sub', done)
      && (f.hasStream ==> var c := Completion(b, firstSub + sub, first + m, offset, f.size, f.crc);
            Going(files, firstSub, b, first, m + 1, offset + size, sub', done + [c]))
  {
    hide Reported;
    OffsetStep(files, first, m);
    ReportedMore(files, firstSub, b, first, m, m + 1, done);
    if files[first + m].hasStream {
      ReportedNow(files, firstSub, b, first, m, sub, offset);
    }
  }

  lemma ReportedNow(files: seq<Entry>, firstSub: nat, b: nat, first: nat, m: nat, sub: nat, offset: nat)
    requires first + m < |files| && files[first + m].hasStream && offset == Offset(files, first, m)
    requires Before(files, first) + sub == Before(files, first + m)
    ensures Reported(files, firstSub, b, first, m + 1,
              Completion(b, firstSub + sub, first + m, offset, files[first + m].size, files[first + m].crc))
  {
  }

  lemma GoingDone(files: seq<Entry>, firstSub: nat, b: nat, first: nat, m: nat, n: nat,
                  offset: nat, sub: nat, done: seq<Completion>)
    requires Going(files, firstSub, b, first, m, offset, sub, done) && m <= n && first + n <= |files|
    ensures forall c | c in done :: Reported(files, firstSub, b, first, n, c)
  {
    hide Reported;
    ReportedMore(files, firstSub, b, first, m, n, done);
  }

  lemma VisitsMore(files: seq<Entry>, cb: Callback, data: seq<byte>, first: nat, m: nat)
    requires first + m < |files|
    ensures VisitsIn(files, cb, data, first, m + 1) == VisitsIn(files, cb, data, first, m) + [VisitAt(files, cb, data, first, m)]
    ensures VisitsIn(files, cb, data, first, 0) == []
  {
    hide VisitAt;
  }

  lemma VisitsPrefix(files: seq<Entry>, cb: Callback, data: seq<byte>, first: nat, m: nat, n: nat)
    requires m <= n && first + n <= |files|
    ensures VisitsIn(files, cb, data, first, m) <= VisitsIn(files, cb, data, first, n)
  {
    hide VisitAt;
  }

  lemma NoneRaisedMore(files: seq<Entry>, cb: Callback, verify: bool, crcOf: seq<byte> -> nat, visits: seq<Visit>, v: Visit)
    requires NoneRaised(files, cb, verify, crcOf, visits)
    ensures if Raised(files, cb, verify, crcOf, v) then EndsRaised(files, cb, verify, crcOf, visits + [v])
            else NoneRaised(files, cb, verify, crcOf, visits + [v])
  {
    hide Raised;
    assert (visits + [v])[..|visits|] == visits;
  }

  // `m` of `n` entries of a block are past, and the callback has not stopped.
  ghost predicate Standing(files: seq<Entry>, cb: Callback, data: seq<byte>, first: nat, n: nat,
                           m: nat, pos: nat, visits: seq<Visit>)
  {
    && m <= n && first + n <= |files|
    && pos == From(files, cb, |data|, first, m) && visits == VisitsIn(files, cb, data, first, m)
    && Reached(cb, first, n) == m + Reached(cb, first + m, n - m)
    && forall i | first <= i < first + m :: cb.goOn(i)
  }

  lemma StandingStarts(files: seq<Entry>, cb: Callback, data: seq<byte>, first: nat, n: nat)
    requires first + n <= |files|
    ensures Standing(files, cb, data, first, n, 0, 0, [])
  {
  }

  lemma StandingNext(files: seq<Entry>, cb: Callback, data: seq<byte>, first: nat, n: nat,
                     m: nat, pos: nat, visits: seq<Visit>)
    requires Standing(files, cb, data, first, n, m, pos, visits) && m < n
    ensures pos <= |data|
    ensures var len := Taken(files, cb, first + m, |data| - pos);
      var now, all := visits + [Visit(first + m, data[pos..pos + len])], VisitsIn(files, cb, data, first, Reached(cb, first, n));
      && now <= all
      && if cb.goOn(first + m) then Standing(files, cb, data, first, n, m + 1, pos + len, now) else now == all
  {
    hide Taken, VisitsIn;
    VisitsMore(files, cb, data, first, m);
    VisitsPrefix(files, cb, data, first, m + 1, Reached(cb, first, n));
  }

  lemma StandingEnds(files: seq<Entry>, cb: Callback, data: seq<byte>, first: nat, n: nat, pos: nat, visits: seq<Visit>)
    requires Standing(files, cb, data, first, n, n, pos, visits)
    ensures visits == VisitsIn(files, cb, data, first, Reached(cb, first, n))
    ensures forall i | first <= i < first + n :: cb.goOn(i)
  {
  }

  // The entries of one block, one after the other out of its output `data`,
  // for any callback: each is handed what comes next behind what was read.
  method EachInBlock(a: Archive, at: StreamMap, b: nat, data: seq<byte>, cb: Callback, verify: bool, crcOf: seq<byte> -> nat)
      returns (visits: seq<Visit>, done: seq<Completion>, outcome: Outcome)
    requires b < |a.blocks| == |at.firstFile| == |at.firstSub|
    requires at.firstFile[b] + a.blocks[b].numSub <= |a.files|
    ensures var first, n := at.firstFile[b], a.blocks[b].numSub;
      var all := VisitsIn(a.files, cb, data, first, Reached(cb, first, n));
      if outcome.BadChecksum? then visits <= all && EndsRaised(a.files, cb, verify, crcOf, visits)
      else visits == all && NoneRaised(a.files, cb, verify, crcOf, visits)
           && (outcome.Finished? <==> forall i | first <= i < first + n :: cb.goOn(i))
    ensures DoneFiles(done) == Listed(a.files, verify, crcOf, visits)
    ensures forall c | c in done :: Reported(a.files, at.firstSub[b], b, at.firstFile[b], a.blocks[b].numSub, c)
  {
    hide Reported, Offset, Going, Before, Listed, DoneFiles, VisitsIn, NoneRaised, EndsRaised, Standing, From, Reached;
    NothingListed(a.files, verify, crcOf);
    visits, done, outcome := [], [], Finished;
    var files, first, n, firstSub := a.files, at.firstFile[b], a.blocks[b].numSub, at.firstSub[b];
    var offset: nat, sub: nat, pos: nat := 0, 0, 0;
    GoingStarts(files, firstSub, b, first);
    StandingStarts(files, cb, data, first, n);
    NothingRaised(files, cb, verify, crcOf);
    for m := 0 to n
      invariant Standing(files, cb, data, first, n, m, pos, visits)
      invariant NoneRaised(files, cb, verify, crcOf, visits)
      invariant Going(files, firstSub, b, first, m, offset, sub, done)
      invariant DoneFiles(done) == Listed(files, verify, crcOf, visits)
    {
      var f := first + m;
      StandingNext(files, cb, data, first, n, m, pos, visits);
      var full := files[f].hasStream && files[f].size > 0;
      var len := if full then Least(Least(cb.wants(f), files[f].size), |data| - pos) else 0;
      var bytes := data[pos..pos + len];
      ghost var report := Completion(b, firstSub + sub, f, offset, files[f].size, files[f].crc);
      NoneRaisedMore(files, cb, verify, crcOf, visits, Visit(f, bytes));
      ListedMore(files, verify, crcOf, visits, done, Visit(f, bytes), report);
      GoingDone(files, firstSub, b, first, m, n, offset, sub, done);
      GoesOn(files, firstSub, b, first, m, offset, sub, done);
      visits := visits + [Visit(f, bytes)];
      pos := pos + len;
      if full {
        if files[f].hasCrc && verify && len == files[f].size {
          if crcOf(bytes) == files[f].crc {
            done := done + [Completion(b, firstSub + sub, f, offset, files[f].size, crcOf(bytes))];
          } else if !cb.ignores(f) {
            return visits, done, BadChecksum;
          }
        }
        offset := offset + files[f].size;
      }
      if files[f].hasStream {
        sub := sub + 1;
      }
      if !cb.goOn(f) {
        GoingDone(files, firstSub, b, first, m + 1, n, offset, sub, done);
        return visits, done, Stopped;
      }
    }
    StandingEnds(files, cb, data, first, n, pos, visits);
    GoingDone(files, firstSub, b, first, n, n, offset, sub, done);
  }

  lemma NothingRaised(files: seq<Entry>, cb: Callback, verify: bool, crcOf: seq<byte> -> nat)
    ensures NoneRaised(files, cb, verify, crcOf, [])
  {
  }

  // --- All blocks ---

  // The entries with a stream, and those without, in order.
  function StreamedOf(files: seq<Entry>, i: nat): (r: seq<nat>)
    requires i <= |files|
    ensures |r| == Before(files, i)
  {
    if i == 0 then [] else StreamedOf(files, i - 1) + if files[i - 1].hasStream then [i - 1] else []
  }

  function StreamlessOf(files: seq<Entry>, i: nat): seq<nat>
    requires i <= |files|
  {
    if i == 0 then [] else StreamlessOf(files, i - 1) + if files[i - 1].hasStream then [] else [i - 1]
  }

  function UpTo(n: nat): (r: seq<nat>) {
    if n == 0 then [] else UpTo(n - 1) + [n - 1]
  }

  lemma Adds(a: seq<nat>, b: seq<nat>)
    ensures multiset(a + b) == multiset(a) + multiset(b)
  {
  }

  // The next one joins either of two lists.
  lemma JoinsFirst(a: seq<nat>, b: seq<nat>, all: seq<nat>, x: nat)
    requires multiset(a + b) == multiset(all)
    ensures multiset((a + [x]) + b) == multiset(all + [x])
  {
    Adds(a + [x], b);
    Adds(a, [x]);
    Adds(a, b);
    Adds(all, [x]);
  }

  lemma JoinsSecond(a: seq<nat>, b: seq<nat>, all: seq<nat>, x: nat)
    requires multiset(a + b) == multiset(all)
    ensures multiset(a + (b + [x])) == multiset(all + [x])
  {
    assert a + (b + [x]) == (a + b) + [x];
    Adds(a + b, [x]);
    Adds(all, [x]);
  }

  lemma NextPlaced(files: seq<Entry>, i: nat)
    requires i < |files|
    ensures UpTo(i + 1) == UpTo(i) + [i]
    ensures files[i].hasStream ==>
      StreamedOf(files, i + 1) == StreamedOf(files, i) + [i] && StreamlessOf(files, i + 1) == StreamlessOf(files, i)
    ensures !files[i].hasStream ==>
      StreamedOf(files, i + 1) == StreamedOf(files, i) && StreamlessOf(files, i + 1) == StreamlessOf(files, i) + [i]
  {
    assert StreamedOf(files, i) + [] == StreamedOf(files, i) && StreamlessOf(files, i) + [] == StreamlessOf(files, i);
  }

  lemma NoneYet(files: seq<Entry>)
    ensures StreamedOf(files, 0) + StreamlessOf(files, 0) == UpTo(0)
  {
  }

  // Together they are all the entries, each once.
  lemma {:induction false} EachOnce(files: seq<Entry>, i: nat)
    requires i <= |files|
    ensures multiset(StreamedOf(files, i) + StreamlessOf(files, i)) == multiset(UpTo(i))
  {
    hide StreamedOf, StreamlessOf, UpTo;
    if i == 0 {
      NoneYet(files);
    } else {
      EachOnce(files, i - 1);
      NextPlaced(files, i - 1);
      if files[i - 1].hasStream {
        JoinsFirst(StreamedOf(files, i - 1), StreamlessOf(files, i - 1), UpTo(i - 1), i - 1);
      } else {
        JoinsSecond(StreamedOf(files, i - 1), StreamlessOf(files, i - 1), UpTo(i - 1), i - 1);
      }
    }
  }

  lemma {:induction false} StreamedAt(files: seq<Entry>, f: nat, i: nat)
    requires f < i <= |files| && files[f].hasStream
    ensures Before(files, f) < Before(files, i) && StreamedOf(files, i)[Before(files, f)] == f
    decreases i
  {
    if f + 1 < i {
      StreamedAt(files, f, i - 1);
    }
  }

  // The map of an archive.
  ghost predicate Maps(a: Archive, at: StreamMap) {
    && Laid(a, at)
    && |at.firstFile| == |a.blocks| && at.firstSub == Starts(Subs(a.blocks)) && |at.fileBlock| == |a.files|
    && SpansFit(Subs(a.blocks), at.firstFile, |a.files|)
    && exists st :: Placed(Subs(a.blocks), a.files, |a.files|, st) && st.firstFile == at.firstFile && st.fileBlock == at.fileBlock
  }

  // No entry without a stream lies among those of a block.
  ghost predicate Tidy(a: Archive) {
    forall i, b | 0 <= i < |a.files| && !a.files[i].hasStream && 0 <= b < |a.blocks| ::
      !Inside(Subs(a.blocks), b, Before(a.files, i))
  }

  predicate Matched(a: Archive) {
    Before(a.files, |a.files|) == Sum(Subs(a.blocks))
  }

  lemma InBlock(a: Archive, i: nat, b: nat)
    requires Tidy(a) && i < |a.files| && b < |a.blocks| && Inside(Subs(a.blocks), b, Before(a.files, i))
    ensures a.files[i].hasStream
  {
  }

  lemma BlockStarts(a: Archive, at: StreamMap, b: nat)
    requires Maps(a, at) && Matched(a) && b < |a.blocks|
    ensures at.firstSub[b] == Sum(Subs(a.blocks)[..b])
    ensures a.blocks[b].numSub > 0 ==>
      var f := at.firstFile[b]; f < |a.files| && a.files[f].hasStream && Before(a.files, f) == Sum(Subs(a.blocks)[..b])
  {
    hide Placed, Sum;
    var st :| Placed(Subs(a.blocks), a.files, |a.files|, st) && st.firstFile == at.firstFile && st.fileBlock == at.fileBlock;
    if a.blocks[b].numSub > 0 {
      AllBegun(Subs(a.blocks), a.files, st, b);
    }
  }

  // The entries of a block are the next of those that have a stream.
  lemma {:induction false} SpanIs(a: Archive, at: StreamMap, b: nat, m: nat)
    requires Maps(a, at) && Matched(a) && Tidy(a) && b < |a.blocks| && m < a.blocks[b].numSub
    ensures var f := at.firstFile[b] + m;
      f < |a.files| && a.files[f].hasStream && Before(a.files, f) == Sum(Subs(a.blocks)[..b]) + m
    decreases m
  {
    hide Maps, Tidy, Sum;
    MapsShape(a, at);
    BlockStarts(a, at, b);
    if m > 0 {
      SpanIs(a, at, b, m - 1);
      InBlock(a, at.firstFile[b] + m, b);
    }
  }

  lemma PlacedAt(a: Archive, at: StreamMap, i: nat)
    requires Maps(a, at) && i < |a.files|
    ensures EntryPlaced(Subs(a.blocks), a.files, i, at.fileBlock[i])
  {
    hide EntryPlaced, Sum;
    var st :| Placed(Subs(a.blocks), a.files, |a.files|, st) && st.firstFile == at.firstFile && st.fileBlock == at.fileBlock;
  }

  // An entry with a stream is with the block that holds it; one without is with none.
  lemma BlockOf(a: Archive, at: StreamMap, i: nat, b: nat)
    requires Maps(a, at) && Tidy(a) && i < |a.files|
    ensures at.fileBlock[i].None? <==> !a.files[i].hasStream
    ensures a.files[i].hasStream && Holds(Subs(a.blocks), b, Before(a.files, i)) ==> at.fileBlock[i] == Some(b)
  {
    hide Maps, Sum;
    MapsShape(a, at);
    PlacedAt(a, at, i);
    if at.fileBlock[i].Some? {
      var c := at.fileBlock[i].value;
      if a.files[i].hasStream && Holds(Subs(a.blocks), b, Before(a.files, i)) {
        OneHolder(Subs(a.blocks), b, c, Before(a.files, i));
      } else if !a.files[i].hasStream {
        InBlock(a, i, c);
      }
    }
  }

  predicate Shaped(a: Archive, at: StreamMap) {
    && |at.firstFile| == |at.firstSub| == |a.blocks| && |at.fileBlock| == |a.files|
    && forall b | 0 <= b < |a.blocks| :: at.firstFile[b] + a.blocks[b].numSub <= |a.files|
  }

  lemma MapsShape(a: Archive, at: StreamMap)
    requires Maps(a, at)
    ensures Shaped(a, at)
  {
  }

  // What a callback is handed of one block, of the first blocks, of the entries
  // from `i` on that come from no block, and in all. Stopping inside a block
  // ends that block, and stopping behind the blocks ends everything.
  function BlockVisits(a: Archive, at: StreamMap, cb: Callback, data: nat -> seq<byte>, b: nat): seq<Visit>
    requires Shaped(a, at) && b < |a.blocks|
  {
    VisitsIn(a.files, cb, data(b), at.firstFile[b], Reached(cb, at.firstFile[b], a.blocks[b].numSub))
  }

  function InBlocks(a: Archive, at: StreamMap, cb: Callback, data: nat -> seq<byte>, b: nat): seq<Visit>
    requires Shaped(a, at) && b <= |a.blocks|
  {
    if b == 0 then [] else InBlocks(a, at, cb, data, b - 1) + BlockVisits(a, at, cb, data, b - 1)
  }

  function FromNone(at: seq<Option<nat>>, cb: Callback, i: nat): seq<Visit>
    requires i <= |at|
    decreases |at| - i
  {
    if i == |at| then []
    else if at[i].Some? then FromNone(at, cb, i + 1)
    else [Visit(i, [])] + if cb.goOn(i) then FromNone(at, cb, i + 1) else []
  }

  function AllVisits(a: Archive, at: StreamMap, cb: Callback, data: nat -> seq<byte>): seq<Visit>
    requires Shaped(a, at)
  {
    InBlocks(a, at, cb, data, |a.blocks|) + FromNone(at.fileBlock, cb, 0)
  }

  function FilesOf(visits: seq<Visit>): (r: seq<nat>)
    ensures |r| == |visits|
  {
    seq(|visits|, i requires 0 <= i < |visits| => visits[i].file)
  }

  lemma FilesJoin(v: seq<Visit>, w: seq<Visit>)
    ensures FilesOf(v + w) == FilesOf(v) + FilesOf(w)
  {
  }

  // An entry is handed what comes next in the output of its block, or nothing.
  ghost predicate Handed(a: Archive, at: StreamMap, cb: Callback, data: nat -> seq<byte>, v: Visit)
    requires Shaped(a, at)
  {
    v.file < |a.files| &&
    match at.fileBlock[v.file]
    case None => v.bytes == []
    case Some(b) =>
      && b < |a.blocks| && at.firstFile[b] <= v.file < at.firstFile[b] + a.blocks[b].numSub
      && v == VisitAt(a.files, cb, data(b), at.firstFile[b], v.file - at.firstFile[b])
  }

  // A completion of block `b`, in the terms of the whole archive.
  ghost predicate Completed(a: Archive, at: StreamMap, c: Completion) {
    && c.file < |a.files| && a.files[c.file].hasStream && c.subStream == Before(a.files, c.file)
    && c.len == a.files[c.file].size && c.crc == a.files[c.file].crc
    && c.block < |a.blocks| == |at.firstFile| && at.firstFile[c.block] <= c.file
    && c.offset == Offset(a.files, at.firstFile[c.block], c.file - at.firstFile[c.block])
  }

  lemma BlockCompleted(a: Archive, at: StreamMap, b: nat, c: Completion)
    requires Maps(a, at) && Matched(a) && b < |a.blocks| && |at.firstFile| == |at.firstSub| == |a.blocks|
    requires Reported(a.files, at.firstSub[b], b, at.firstFile[b], a.blocks[b].numSub, c)
    ensures Completed(a, at, c)
  {
    hide Maps, Sum;
    MapsShape(a, at);
    BlockStarts(a, at, b);
  }

  // Where there is a map, that holds of all of them.
  ghost predicate AllCompleted(a: Archive, at: StreamMap, done: seq<Completion>) {
    Maps(a, at) && Matched(a) ==> forall c | c in done :: Completed(a, at, c)
  }

  lemma NothingCompleted(a: Archive, at: StreamMap)
    ensures AllCompleted(a, at, [])
  {
    hide Maps, Matched, Completed;
  }

  lemma MoreCompleted(a: Archive, at: StreamMap, b: nat, done: seq<Completion>, reports: seq<Completion>)
    requires Shaped(a, at) && b < |a.blocks| && AllCompleted(a, at, done)
    requires forall c | c in reports :: Reported(a.files, at.firstSub[b], b, at.firstFile[b], a.blocks[b].numSub, c)
    ensures AllCompleted(a, at, done + reports)
  {
    hide Maps, Matched, Completed, Reported;
    if Maps(a, at) && Matched(a) {
      forall c | c in reports ensures Completed(a, at, c) {
        BlockCompleted(a, at, b, c);
      }
    }
  }

  // --- Which entries are handed out ---

  lemma {:induction false} ReachedAll(files: seq<Entry>, cb: Callback, first: nat, n: nat)
    requires GoesOnAlways(files, cb) && first + n <= |files|
    ensures Reached(cb, first, n) == n
    decreases n
  {
    if n > 0 {
      ReachedAll(files, cb, first + 1, n - 1);
    }
  }

  // The entries of block `b` follow those of the blocks before it.
  lemma BlockFiles(a: Archive, at: StreamMap, cb: Callback, data: nat -> seq<byte>, b: nat)
    requires Maps(a, at) && Shaped(a, at) && Matched(a) && Tidy(a) && b < |a.blocks| && GoesOnAlways(a.files, cb)
    ensures var k := Sum(Subs(a.blocks)[..b]);
      && k + a.blocks[b].numSub <= Before(a.files, |a.files|)
      && FilesOf(BlockVisits(a, at, cb, data, b)) == StreamedOf(a.files, |a.files|)[k..k + a.blocks[b].numSub]
  {
    hide Maps, Tidy, Sum, From, VisitAt;
    var ns, k, n, first := Subs(a.blocks), Sum(Subs(a.blocks)[..b]), a.blocks[b].numSub, at.firstFile[b];
    SumPrefix(ns, b);
    SumMono(ns, b + 1, |ns|);
    SumAll(ns);
    ReachedAll(a.files, cb, first, n);
    var handed, all := BlockVisits(a, at, cb, data, b), StreamedOf(a.files, |a.files|);
    assert k + n <= |all|;
    forall j | 0 <= j < n ensures all[k..k + n][j] == FilesOf(handed)[j] {
      SpanIs(a, at, b, j);
      StreamedAt(a.files, first + j, |a.files|);
      VisitFile(a.files, cb, data(b), first, j);
    }
  }

  lemma {:induction false} BlocksFiles(a: Archive, at: StreamMap, cb: Callback, data: nat -> seq<byte>, b: nat)
    requires Maps(a, at) && Shaped(a, at) && Matched(a) && Tidy(a) && b <= |a.blocks| && GoesOnAlways(a.files, cb)
    ensures Sum(Subs(a.blocks)[..b]) <= Before(a.files, |a.files|)
    ensures FilesOf(InBlocks(a, at, cb, data, b)) == StreamedOf(a.files, |a.files|)[..Sum(Subs(a.blocks)[..b])]
  {
    hide Maps, Tidy, Sum, BlockVisits, StreamedOf, GoesOnAlways;
    var ns, all := Subs(a.blocks), StreamedOf(a.files, |a.files|);
    SumAll(ns);
    if b > 0 {
      BlocksFiles(a, at, cb, data, b - 1);
      BlockFiles(a, at, cb, data, b - 1);
      SumPrefix(ns, b - 1);
      var k, n := Sum(ns[..b - 1]), ns[b - 1];
      assert all[..k] + all[k..k + n] == all[..k + n];
      FilesJoin(InBlocks(a, at, cb, data, b - 1), BlockVisits(a, at, cb, data, b - 1));
    }
  }

  lemma {:induction false} BlocksCount(a: Archive, at: StreamMap, cb: Callback, data: nat -> seq<byte>, b: nat)
    requires Shaped(a, at) && b <= |a.blocks| && GoesOnAlways(a.files, cb)
    ensures |InBlocks(a, at, cb, data, b)| == Sum(Subs(a.blocks)[..b])
  {
    hide GoesOnAlways;
    SumAll(Subs(a.blocks));
    if b > 0 {
      BlocksCount(a, at, cb, data, b - 1);
      SumPrefix(Subs(a.blocks), b - 1);
      ReachedAll(a.files, cb, at.firstFile[b - 1], a.blocks[b - 1].numSub);
    }
  }

  // The entries that come from no block.
  function NonesOf(at: seq<Option<nat>>, i: nat): nat
    requires i <= |at|
  {
    if i == 0 then 0 else NonesOf(at, i - 1) + if at[i - 1].None? then 1 else 0
  }

  lemma {:induction false} NonesCount(files: seq<Entry>, at: seq<Option<nat>>, cb: Callback, i: nat)
    requires i <= |at| == |files| && GoesOnAlways(files, cb)
    ensures NonesOf(at, i) + |FromNone(at, cb, i)| == NonesOf(at, |at|)
    decreases |at| - i
  {
    if i < |at| {
      NonesCount(files, at, cb, i + 1);
    }
  }

  lemma {:induction false} NonesFiles(files: seq<Entry>, at: seq<Option<nat>>, cb: Callback, i: nat)
    requires i <= |at| == |files| && GoesOnAlways(files, cb)
    requires forall j | 0 <= j < |at| :: at[j].None? <==> !files[j].hasStream
    ensures StreamlessOf(files, i) + FilesOf(FromNone(at, cb, i)) == StreamlessOf(files, |files|)
    decreases |at| - i
  {
    hide FilesOf, StreamlessOf, StreamedOf;
    FilesNone();
    var front := StreamlessOf(files, i);
    assert front + [] == front;
    if i < |at| {
      NonesFiles(files, at, cb, i + 1);
      NextPlaced(files, i);
      if at[i].None? {
        var rest := FromNone(at, cb, i + 1);
        FilesJoin([Visit(i, [])], rest);
        FilesSingle(Visit(i, []));
        assert front + ([i] + FilesOf(rest)) == (front + [i]) + FilesOf(rest);
      }
    }
  }

  lemma FilesNone()
    ensures FilesOf([]) == []
  {
  }

  lemma FilesSingle(v: Visit)
    ensures FilesOf([v]) == [v.file]
  {
  }

  lemma {:induction false} NonesAre(a: Archive, at: StreamMap, i: nat)
    requires Maps(a, at) && i <= |a.files| == |at.fileBlock|
    ensures NonesOf(at.fileBlock, i) + Before(a.files, i) <= i
    ensures !Tidy(a) && (exists j, b | 0 <= j < i && 0 <= b < |a.blocks| ::
              !a.files[j].hasStream && Inside(Subs(a.blocks), b, Before(a.files, j))) ==>
            NonesOf(at.fileBlock, i) + Before(a.files, i) < i
  {
    hide Maps, Tidy, Inside, Sum, Holds;
    if i > 0 {
      NonesAre(a, at, i - 1);
      PlacedAt(a, at, i - 1);
    }
  }

  // An entry without a stream among those of a block: some entry is left out.
  lemma UntidyMisses(a: Archive, at: StreamMap)
    requires Maps(a, at) && Matched(a) && !Tidy(a)
    ensures |at.fileBlock| == |a.files| && Sum(Subs(a.blocks)) + NonesOf(at.fileBlock, |a.files|) < |a.files|
  {
    hide Maps, Inside, Sum;
    MapsShape(a, at);
    NonesAre(a, at, |a.files|);
  }

  lemma {:induction false} LengthUpTo(n: nat)
    ensures |UpTo(n)| == n == |multiset(UpTo(n))|
  {
    if n > 0 {
      LengthUpTo(n - 1);
    }
  }

  // Fewer visits than entries cannot be every entry once.
  lemma TooFew(visits: seq<Visit>, n: nat)
    requires |visits| < n
    ensures multiset(FilesOf(visits)) != multiset(UpTo(n))
  {
    LengthUpTo(n);
    assert |multiset(FilesOf(visits))| == |visits|;
  }

  // In a tidy archive a callback that never stops is handed the entries with a
  // stream, in order, and then those without.
  lemma VisitOrder(a: Archive, at: StreamMap, cb: Callback, data: nat -> seq<byte>)
    requires Maps(a, at) && Shaped(a, at) && Matched(a) && Tidy(a) && GoesOnAlways(a.files, cb)
    ensures FilesOf(AllVisits(a, at, cb, data)) == StreamedOf(a.files, |a.files|) + StreamlessOf(a.files, |a.files|)
  {
    hide Maps, Tidy, Sum, GoesOnAlways, InBlocks, FromNone;
    BlocksFiles(a, at, cb, data, |a.blocks|);
    SumAll(Subs(a.blocks));
    forall j | 0 <= j < |a.files| ensures at.fileBlock[j].None? <==> !a.files[j].hasStream {
      BlockOf(a, at, j, 0);
    }
    NonesFiles(a.files, at.fileBlock, cb, 0);
    FilesJoin(InBlocks(a, at, cb, data, |a.blocks|), FromNone(at.fileBlock, cb, 0));
  }

  // Whatever is read of each, a callback that never stops is handed every entry
  // once just when no entry without a stream lies among those of a block.
  lemma EveryEntryOnce(a: Archive, at: StreamMap, cb: Callback, data: nat -> seq<byte>)
    requires Maps(a, at) && Shaped(a, at) && Matched(a) && GoesOnAlways(a.files, cb)
    ensures multiset(FilesOf(AllVisits(a, at, cb, data))) == multiset(UpTo(|a.files|)) <==> Tidy(a)
  {
    hide Maps, Tidy, Sum, GoesOnAlways, InBlocks, FromNone, StreamedOf, StreamlessOf, UpTo, FilesOf;
    if Tidy(a) {
      VisitOrder(a, at, cb, data);
      EachOnce(a.files, |a.files|);
    } else {
      UntidyMisses(a, at);
      BlocksCount(a, at, cb, data, |a.blocks|);
      SumAll(Subs(a.blocks));
      NonesCount(a.files, at.fileBlock, cb, 0);
      TooFew(AllVisits(a, at, cb, data), |a.files|);
    }
  }

  // --- What they are handed ---

  lemma BlockHanded(a: Archive, at: StreamMap, cb: Callback, data: nat -> seq<byte>, b: nat)
    requires Maps(a, at) && Shaped(a, at) && Matched(a) && Tidy(a) && b < |a.blocks|
    ensures forall v | v in BlockVisits(a, at, cb, data, b) :: Handed(a, at, cb, data, v)
  {
    hide Maps, Tidy, Sum, From, VisitAt;
    var first := at.firstFile[b];
    var n := Reached(cb, first, a.blocks[b].numSub);
    forall j | 0 <= j < n ensures Handed(a, at, cb, data, VisitAt(a.files, cb, data(b), first, j)) {
      SpanIs(a, at, b, j);
      BlockOf(a, at, first + j, b);
      SpanHolds(a, b, first + j, j);
      VisitFile(a.files, cb, data(b), first, j);
    }
  }

  lemma VisitFile(files: seq<Entry>, cb: Callback, data: seq<byte>, first: nat, m: nat)
    requires first + m < |files|
    ensures VisitAt(files, cb, data, first, m).file == first + m
  {
  }

  lemma SpanHolds(a: Archive, b: nat, f: nat, m: nat)
    requires b < |a.blocks| && m < a.blocks[b].numSub && f < |a.files|
    requires Before(a.files, f) == Sum(Subs(a.blocks)[..b]) + m
    ensures Holds(Subs(a.blocks), b, Before(a.files, f))
  {
    hide Sum;
    SumPrefix(Subs(a.blocks), b);
  }

  lemma {:induction false} BlocksHanded(a: Archive, at: StreamMap, cb: Callback, data: nat -> seq<byte>, b: nat)
    requires Maps(a, at) && Shaped(a, at) && Matched(a) && Tidy(a) && b <= |a.blocks|
    ensures forall v | v in InBlocks(a, at, cb, data, b) :: Handed(a, at, cb, data, v)
  {
    hide Maps, Tidy, Matched, Handed, BlockVisits;
    if b > 0 {
      BlocksHanded(a, at, cb, data, b - 1);
      BlockHanded(a, at, cb, data, b - 1);
    }
  }

  lemma {:induction false} NonesHanded(a: Archive, at: StreamMap, cb: Callback, data: nat -> seq<byte>, i: nat)
    requires Shaped(a, at) && i <= |at.fileBlock|
    ensures forall v | v in FromNone(at.fileBlock, cb, i) :: Handed(a, at, cb, data, v)
    decreases |at.fileBlock| - i
  {
    hide VisitAt;
    if i < |at.fileBlock| {
      NonesHanded(a, at, cb, data, i + 1);
    }
  }

  // For any callback: an entry is handed what comes next in the output of its
  // own block, and an entry of no block is handed nothing. `OwnIff` says when
  // what comes next is its own interval.
  lemma EachHanded(a: Archive, at: StreamMap, cb: Callback, data: nat -> seq<byte>)
    requires Maps(a, at) && Shaped(a, at) && Matched(a) && Tidy(a)
    ensures forall v | v in AllVisits(a, at, cb, data) :: Handed(a, at, cb, data, v)
  {
    hide Maps, Tidy, Matched, Handed, InBlocks, FromNone;
    BlocksHanded(a, at, cb, data, |a.blocks|);
    NonesHanded(a, at, cb, data, 0);
  }

  // Read to its end, as all before it in its block are, an entry is handed its
  // own interval.
  lemma OwnInterval(a: Archive, at: StreamMap, cb: Callback, data: nat -> seq<byte>, v: Visit)
    requires Maps(a, at) && Shaped(a, at) && Matched(a) && Tidy(a) && v in AllVisits(a, at, cb, data)
    ensures v.file < |a.files| && match at.fileBlock[v.file]
      case None => v.bytes == []
      case Some(b) =>
        && b < |a.blocks| && at.firstFile[b] <= v.file
        && var first, m := at.firstFile[b], v.file - at.firstFile[b];
           (Offset(a.files, first, m + 1) <= |data(b)| && (forall i | first <= i <= v.file :: WantsAll(a.files, cb, i)) ==>
             v.bytes == Own(a.files, data(b), first, m))
  {
    hide Maps, Tidy, Matched, AllVisits, WantsAll, From, Offset;
    EachHanded(a, at, cb, data);
    assert Handed(a, at, cb, data, v);
    if at.fileBlock[v.file].Some? {
      var b := at.fileBlock[v.file].value;
      var first, m := at.firstFile[b], v.file - at.firstFile[b];
      if Offset(a.files, first, m + 1) <= |data(b)| {
        OffsetStep(a.files, first, m);
        FromIff(a.files, cb, |data(b)|, first, m);
        FromIff(a.files, cb, |data(b)|, first, m + 1);
      }
    }
  }

  // The entries of all blocks.
  method EachOfBlocks(a: Archive, at: StreamMap, data: nat -> seq<byte>, cb: Callback, verify: bool, crcOf: seq<byte> -> nat)
      returns (visits: seq<Visit>, done: seq<Completion>, ok: bool)
    requires Shaped(a, at)
    ensures ok ==> visits == InBlocks(a, at, cb, data, |a.blocks|) && NoneRaised(a.files, cb, verify, crcOf, visits)
    ensures !ok ==> visits <= InBlocks(a, at, cb, data, |a.blocks|) && EndsRaised(a.files, cb, verify, crcOf, visits)
    ensures DoneFiles(done) == Listed(a.files, verify, crcOf, visits)
    ensures AllCompleted(a, at, done)
  {
    hide Shaped, AllCompleted, Reported, Listed, DoneFiles, NoneRaised, EndsRaised, VisitsIn, From, Reached, VisitAt, Offset;
    visits, done, ok := [], [], true;
    NothingListed(a.files, verify, crcOf);
    NothingRaised(a.files, cb, verify, crcOf);
    NothingCompleted(a, at);
    for b := 0 to |a.blocks|
      invariant visits == InBlocks(a, at, cb, data, b) && NoneRaised(a.files, cb, verify, crcOf, visits)
      invariant DoneFiles(done) == Listed(a.files, verify, crcOf, visits)
      invariant AllCompleted(a, at, done)
    {
      ShapedAt(a, at, b);
      var more, reports, outcome := EachInBlock(a, at, b, data(b), cb, verify, crcOf);
      BothListed(a.files, verify, crcOf, visits, done, more, reports);
      MoreCompleted(a, at, b, done, reports);
      RaisedJoin(a.files, cb, verify, crcOf, visits, more);
      if outcome.BadChecksum? {
        PrefixJoin(visits, more, BlockVisits(a, at, cb, data, b));
        BlocksPrefix(a, at, cb, data, b + 1, |a.blocks|);
        return visits + more, done + reports, false;
      }
      visits, done := visits + more, done + reports;
    }
  }

  lemma ShapedAt(a: Archive, at: StreamMap, b: nat)
    requires Shaped(a, at) && b < |a.blocks|
    ensures |at.firstFile| == |at.firstSub| == |a.blocks| && at.firstFile[b] + a.blocks[b].numSub <= |a.files|
  {
  }

  // All entries: those of each block, and then those that come from none. For
  // any callback, what it is handed is what `AllVisits` says, up to the first
  // checksum that does not match and is not ignored. One that never stops is
  // handed every entry once just when the archive is tidy.
  method EachEntry(a: Archive, at: StreamMap, data: nat -> seq<byte>, cb: Callback, verify: bool, crcOf: seq<byte> -> nat)
      returns (visits: seq<Visit>, done: seq<Completion>, ok: bool)
    requires Shaped(a, at)
    ensures ok ==> visits == AllVisits(a, at, cb, data) && NoneRaised(a.files, cb, verify, crcOf, visits)
    ensures !ok ==> visits <= AllVisits(a, at, cb, data) && EndsRaised(a.files, cb, verify, crcOf, visits)
    ensures DoneFiles(done) == Listed(a.files, verify, crcOf, visits)
    ensures AllCompleted(a, at, done)
    ensures ok && Maps(a, at) && Matched(a) && GoesOnAlways(a.files, cb) ==>
      (multiset(FilesOf(visits)) == multiset(UpTo(|a.files|)) <==> Tidy(a))
  {
    hide AllCompleted, Listed, DoneFiles, NoneRaised, EndsRaised, InBlocks, FromNone;
    hide Maps, Matched, GoesOnAlways, Tidy, FilesOf, UpTo;
    if Maps(a, at) && Matched(a) && GoesOnAlways(a.files, cb) {
      EveryEntryOnce(a, at, cb, data);
    }
    visits, done, ok := EachOfBlocks(a, at, data, cb, verify, crcOf);
    if ok {
      var left := EachOfNone(a, at, cb);
      NonesQuiet(a.files, at.fileBlock, cb, verify, crcOf, 0);
      RaisedJoin(a.files, cb, verify, crcOf, visits, left);
      BothListed(a.files, verify, crcOf, visits, done, left, []);
      assert done + [] == done;
      visits := visits + left;
    }
  }

  // The entries that come from no block, until the callback stops.
  method EachOfNone(a: Archive, at: StreamMap, cb: Callback) returns (visits: seq<Visit>)
    requires |at.fileBlock| == |a.files|
    ensures visits == FromNone(at.fileBlock, cb, 0)
  {
    visits := [];
    var i := 0;
    while i < |a.files|
      invariant i <= |a.files| && visits + FromNone(at.fileBlock, cb, i) == FromNone(at.fileBlock, cb, 0)
    {
      if at.fileBlock[i].None? {
        Regroup(visits, Visit(i, []), if cb.goOn(i) then FromNone(at.fileBlock, cb, i + 1) else []);
        visits := visits + [Visit(i, [])];
        if !cb.goOn(i) {
          assert visits + [] == visits;
          return;
        }
      }
      i := i + 1;
    }
    assert visits + [] == visits;
  }

  // None of them is checked or reported.
  lemma {:induction false} NonesQuiet(files: seq<Entry>, at: seq<Option<nat>>, cb: Callback, verify: bool, crcOf: seq<byte> -> nat,
                                      i: nat)
    requires i <= |at|
    ensures NoneRaised(files, cb, verify, crcOf, FromNone(at, cb, i))
    ensures DoneFiles([]) == Listed(files, verify, crcOf, FromNone(at, cb, i))
    decreases |at| - i
  {
    hide Listed;
    NothingListed(files, verify, crcOf);
    if i < |at| {
      NonesQuiet(files, at, cb, verify, crcOf, i + 1);
      var v := Visit(i, []);
      EmptyVisit(files, cb, verify, crcOf, [], i);
      assert [] + [v] == [v];
      var rest := if cb.goOn(i) then FromNone(at, cb, i + 1) else [];
      ListedJoin(files, verify, crcOf, [v], rest);
      assert [v] + [] == [v];
    }
  }

  lemma Regroup(visits: seq<Visit>, v: Visit, rest: seq<Visit>)
    ensures visits + ([v] + rest) == (visits + [v]) + rest
  {
  }

  lemma RaisedJoin(files: seq<Entry>, cb: Callback, verify: bool, crcOf: seq<byte> -> nat, visits: seq<Visit>, more: seq<Visit>)
    requires NoneRaised(files, cb, verify, crcOf, visits)
    ensures NoneRaised(files, cb, verify, crcOf, more) ==> NoneRaised(files, cb, verify, crcOf, visits + more)
    ensures EndsRaised(files, cb, verify, crcOf, more) ==> EndsRaised(files, cb, verify, crcOf, visits + more)
  {
    hide Raised;
    if more != [] {
      assert (visits + more)[..|visits + more| - 1] == visits + more[..|more| - 1];
    }
  }

  lemma PrefixJoin(visits: seq<Visit>, more: seq<Visit>, all: seq<Visit>)
    requires more <= all
    ensures visits + more <= visits + all
  {
  }

  lemma {:induction false} BlocksPrefix(a: Archive, at: StreamMap, cb: Callback, data: nat -> seq<byte>, b: nat, c: nat)
    requires Shaped(a, at) && b <= c <= |a.blocks|
    ensures InBlocks(a, at, cb, data, b) <= InBlocks(a, at, cb, data, c)
    decreases c
  {
    hide BlockVisits;
    if b < c {
      BlocksPrefix(a, at, cb, data, b, c - 1);
    }
  }

  // --- The archive that has been read ---

  lemma {:induction false} BeforeKept(files: seq<Entry>, other: seq<Entry>, i: nat)
    requires SameStreams(files, other) && i <= |files|
    ensures Before(files, i) == Before(other, i)
  {
    if i > 0 {
      BeforeKept(files, other, i - 1);
    }
  }

  lemma EntryKeptPlace(ns: seq<nat>, files: seq<Entry>, other: seq<Entry>, j: nat, at: Option<nat>)
    requires SameStreams(files, other) && j < |files| && EntryPlaced(ns, files, j, at)
    ensures EntryPlaced(ns, other, j, at)
  {
    hide Inside, Holds;
    BeforeKept(files, other, j);
    assert other[j].hasStream == files[j].hasStream;
  }

  lemma BlockKeptPlace(ns: seq<nat>, files: seq<Entry>, other: seq<Entry>, b: nat, f: nat)
    requires SameStreams(files, other) && b < |ns| && BlockBegins(ns, files, |files|, b, f)
    ensures BlockBegins(ns, other, |other|, b, f)
  {
    hide Sum;
    BeforeKept(files, other, f);
    assert other[f].hasStream == files[f].hasStream;
  }

  // The map is one of the entries with their packed sizes too.
  lemma PlacedKept(ns: seq<nat>, files: seq<Entry>, st: Place)
    requires Placed(ns, files, |files|, st)
    ensures Placed(ns, st.files, |st.files|, st)
  {
    hide Sum, EntryPlaced, BlockBegins;
    BeforeKept(files, st.files, |files|);
    forall j | 0 <= j < |files| ensures EntryPlaced(ns, st.files, j, st.fileBlock[j]) {
      EntryKeptPlace(ns, files, st.files, j, st.fileBlock[j]);
    }
    forall b | 0 <= b < |ns| && ns[b] > 0 && (b < st.block || (b == st.block && st.sub > 0))
      ensures BlockBegins(ns, st.files, |st.files|, b, st.firstFile[b])
    {
      BlockKeptPlace(ns, files, st.files, b, st.firstFile[b]);
    }
  }

  // Whatever header is read, its map is the map of its archive.
  lemma MappedMaps(streams: Streams, files: seq<Entry>)
    requires Mapped(streams, files).Some?
    ensures var whole := Mapped(streams, files).value; Maps(whole.archive, whole.streamMap)
  {
    hide Placed, PlaceFiles, Sum, Laid;
    var a := Archive(streams.packs, streams.blocks, streams.subs, files);
    MapsLaid(a);
    PlacesMean(GivenOf(a), files, |files|);
    var st := PlaceFiles(GivenOf(a), files, |files|).value;
    PlacedKept(Subs(a.blocks), files, st);
    PlacedLength(Subs(a.blocks), files, st);
    assert Placed(Subs(a.blocks), st.files, |st.files|, st);
  }

  lemma PlacedLength(ns: seq<nat>, files: seq<Entry>, st: Place)
    requires Placed(ns, files, |files|, st)
    ensures |st.fileBlock| == |files| == |st.files|
  {
  }

  // Every entry with a stream has the size and checksum, if any, of the stream whose
  // number is that of the streamed entries before it.
  ghost predicate SizesTaken(files: seq<Entry>, subs: SubStreams) {
    forall i | 0 <= i < |files| && files[i].hasStream ::
      Before(files, i) < |subs.sizes| && Before(files, i) < |subs.crcs| &&
      files[i].size == subs.sizes[Before(files, i)] && files[i].crc == subs.crcs[Before(files, i)] &&
      files[i].hasCrc == Flag(subs.hasCrc, Before(files, i))
  }

  lemma {:induction false} SettledAt(files: seq<Entry>, i: nat, k: nat, e: nat, st: Props, subs: Option<SubStreams>, j: nat)
    requires i <= |files| && Settle(files, i, k, e, st, subs).Some? && j < |files| - i
    ensures var r := Settle(files, i, k, e, st, subs).value;
      r[j].hasStream ==>
        && subs.Some? && k + Before(r, j) < |subs.value.sizes| && k + Before(r, j) < |subs.value.crcs|
        && r[j].size == subs.value.sizes[k + Before(r, j)] && r[j].crc == subs.value.crcs[k + Before(r, j)]
        && r[j].hasCrc == Flag(subs.value.hasCrc, k + Before(r, j))
    decreases |files| - i
  {
    hide Told;
    var r := Settle(files, i, k, e, st, subs).value;
    var streamless := Told(st.emptyStream, i, false);
    if j > 0 {
      SettledAt(files, i + 1, if streamless then k else k + 1, if streamless then e + 1 else e, st, subs, j - 1);
      BeforeShift(r, j);
      assert r[1..] == Settle(files, i + 1, if streamless then k else k + 1, if streamless then e + 1 else e, st, subs).value;
    }
  }

  // That holds of whatever file records are read.
  lemma ReadSizesTaken(files: seq<Entry>, st: Props, subs: SubStreams)
    requires Settle(files, 0, 0, 0, st, Some(subs)).Some?
    ensures SizesTaken(Settle(files, 0, 0, 0, st, Some(subs)).value, subs)
  {
    hide Settle;
    var r := Settle(files, 0, 0, 0, st, Some(subs)).value;
    forall i | 0 <= i < |r| && r[i].hasStream
      ensures Before(r, i) < |subs.sizes| && Before(r, i) < |subs.crcs|
      ensures r[i].size == subs.sizes[Before(r, i)] && r[i].crc == subs.crcs[Before(r, i)]
      ensures r[i].hasCrc == Flag(subs.hasCrc, Before(r, i))
    {
      SettledAt(files, 0, 0, 0, st, Some(subs), i);
    }
  }

  lemma {:induction false} OffsetIsSum(a: Archive, at: StreamMap, subs: SubStreams, b: nat, m: nat)
    requires Maps(a, at) && Matched(a) && Tidy(a) && SizesTaken(a.files, subs) && |subs.sizes| == Sum(Subs(a.blocks))
    requires b < |a.blocks| && m <= a.blocks[b].numSub
    ensures var k := Sum(Subs(a.blocks)[..b]);
      && |at.firstFile| == |a.blocks| && at.firstFile[b] + m <= |a.files| && k + m <= |subs.sizes|
      && Offset(a.files, at.firstFile[b], m) == Sum(subs.sizes[k..k + m])
    decreases m
  {
    hide Maps, Tidy, Sum;
    MapsShape(a, at);
    var ns := Subs(a.blocks);
    var k := Sum(ns[..b]);
    SumPrefix(ns, b);
    SumMono(ns, b + 1, |ns|);
    SumAll(ns);
    if m == 0 {
      assert subs.sizes[k..k] == [] && Sum([]) == 0 by { SumAll([]); }
    } else {
      OffsetIsSum(a, at, subs, b, m - 1);
      SpanIs(a, at, b, m - 1);
      assert subs.sizes[k..k + m] == subs.sizes[k..k + m - 1] + [subs.sizes[k + m - 1]];
      SumSplit(subs.sizes[k..k + m - 1], [subs.sizes[k + m - 1]]);
      SumOne(subs.sizes[k + m - 1]);
    }
  }

  // Where the sizes lie where they are looked for, the entries of a block are
  // together as long as the block.
  lemma EntriesFillBlock(a: Archive, at: StreamMap, subs: SubStreams, b: nat)
    requires Maps(a, at) && Matched(a) && Tidy(a) && SizesTaken(a.files, subs)
    requires (forall i | 0 <= i < |a.blocks| :: Sized(a.blocks[i]))
    requires AlignedFlat(Subs(a.blocks), UnpackSizes(a.blocks), subs.sizes)
    requires b < |a.blocks| && a.blocks[b].numSub > 0
    ensures |at.firstFile| == |a.blocks| && at.firstFile[b] + a.blocks[b].numSub <= |a.files|
    ensures Offset(a.files, at.firstFile[b], a.blocks[b].numSub) == UnpackSize(a.blocks[b])
  {
    hide Maps, Tidy, Sum, UnpackSize, SizesTaken;
    OffsetIsSum(a, at, subs, b, a.blocks[b].numSub);
    assert Subs(a.blocks)[b] == a.blocks[b].numSub && UnpackSizes(a.blocks)[b] == UnpackSize(a.blocks[b]);
  }

  // --- Split points ---

  // Some entry of the block, or the block itself, has a checksum to compute.
  ghost predicate Wanted(a: Archive, first: nat, b: nat, m: nat)
    requires b < |a.blocks| && first + m <= |a.files|
  {
    a.blocks[b].hasCrc || exists j :: 0 <= j < m && FullAt(a.files, first, j) && a.files[first + j].hasCrc
  }

  predicate FullAt(files: seq<Entry>, first: nat, j: nat)
    requires first + j < |files|
  {
    Full(files[first + j])
  }

  // `at` is where a nonempty entry among the first `m` begins, not at the start.
  ghost predicate Begins(files: seq<Entry>, first: nat, m: nat, at: nat)
    requires first + m <= |files|
  {
    at > 0 && exists j :: 0 <= j < m && FullAt(files, first, j) && Offset(files, first, j) == at
  }

  // Where the entries of a block begin in its output, for a block of a single
  // coder with something to check; past the end when there is no such place.
  method FileBoundaries(a: Archive, at: StreamMap, b: nat) returns (offsets: seq<nat>)
    requires b < |a.blocks| == |at.firstFile| && at.firstFile[b] + a.blocks[b].numSub <= |a.files|
    ensures var first, n := at.firstFile[b], a.blocks[b].numSub;
      if |a.blocks[b].coders| != 1 || !Wanted(a, first, b, n) then offsets == []
      else if forall o: nat :: !Begins(a.files, first, n, o) then offsets == [TWO_64 - 1]
      else (forall o: nat :: o in offsets <==> Begins(a.files, first, n, o))
           && forall i, j | 0 <= i < j < |offsets| :: offsets[i] < offsets[j]
  {
    hide Offset, Begins, Wanted;
    if |a.blocks[b].coders| != 1 {
      return [];
    }
    var first, n, files := at.firstFile[b], a.blocks[b].numSub, a.files;
    offsets := [];
    var pos: nat, wanted := 0, a.blocks[b].hasCrc;
    NoneBegins(a, b, first);
    for m := 0 to n
      invariant pos == Offset(files, first, m) && (wanted <==> Wanted(a, first, b, m))
      invariant forall o: nat :: o in offsets <==> Begins(files, first, m, o)
      invariant forall i | 0 <= i < |offsets| :: offsets[i] < pos
      invariant forall i, j | 0 <= i < j < |offsets| :: offsets[i] < offsets[j]
    {
      OffsetStep(files, first, m);
      var f := files[first + m];
      ghost var was, start := offsets, pos;
      WantedStep(a, first, b, m);
      assert FullAt(files, first, m) == (f.hasStream && f.size > 0);
      if f.hasStream && f.size > 0 {
        wanted := wanted || f.hasCrc;
        if pos != 0 {
          offsets := offsets + [pos];
        }
        pos := pos + f.size;
      }
      forall o: nat ensures o in offsets <==> Begins(files, first, m + 1, o) {
        BeginsStep(files, first, m, o);
        assert o in offsets <==> o in was || (Full(f) && o == start > 0);
      }
    }
    if !wanted {
      return [];
    }
    if offsets == [] {
      return [TWO_64 - 1];
    }
    assert Begins(files, first, n, offsets[0]);
  }

  lemma NoneBegins(a: Archive, b: nat, first: nat)
    requires first <= |a.files| && b < |a.blocks|
    ensures Offset(a.files, first, 0) == 0 && forall o: nat :: !Begins(a.files, first, 0, o)
    ensures Wanted(a, first, b, 0) <==> a.blocks[b].hasCrc
  {
  }

  lemma BeginsStep(files: seq<Entry>, first: nat, m: nat, o: nat)
    requires first + m < |files|
    ensures Begins(files, first, m + 1, o) <==>
      Begins(files, first, m, o) || (o > 0 && FullAt(files, first, m) && Offset(files, first, m) == o)
  {
    hide Offset, FullAt;
    if Begins(files, first, m + 1, o) {
      var j :| 0 <= j < m + 1 && FullAt(files, first, j) && Offset(files, first, j) == o;
      assert j < m ==> Begins(files, first, m, o);
    } else {
      assert FullAt(files, first, m) && Offset(files, first, m) == o ==> o == 0;
    }
  }

  lemma WantedStep(a: Archive, first: nat, b: nat, m: nat)
    requires b < |a.blocks| && first + m < |a.files|
    ensures Wanted(a, first, b, m + 1) <==>
      Wanted(a, first, b, m) || (FullAt(a.files, first, m) && a.files[first + m].hasCrc)
  {
    hide Full;
    if FullAt(a.files, first, m) && a.files[first + m].hasCrc {
      assert Wanted(a, first, b, m + 1);
    }
  }
}
