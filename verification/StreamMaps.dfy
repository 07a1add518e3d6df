// Which block each entry comes from, and where the packed streams and the
// sub-streams of each block begin.
module StreamMaps {
  import opened Common
  import opened Blocks
  import opened SubStreams
  import opened FilesFormat
  import opened FilesBack
  import opened PackFormat

  datatype Archive = Archive(packs: Packs, blocks: seq<Block>, subs: Option<SubStreams>, files: seq<Entry>)

  datatype StreamMap = StreamMap(firstPack: seq<nat>, firstSub: seq<nat>, offsets: seq<nat>,
                                 firstFile: seq<nat>, fileBlock: seq<Option<nat>>)

  // --- Packed streams ---

  function PackedCounts(blocks: seq<Block>): (r: seq<nat>)
    ensures |r| == |blocks|
  {
    seq(|blocks|, i requires 0 <= i < |blocks| => |blocks[i].packed|)
  }

  // The sums of what comes before each of `ns`.
  function Starts(ns: seq<nat>): (r: seq<nat>)
    ensures |r| == |ns|
  {
    seq(|ns|, i requires 0 <= i < |ns| => Sum(ns[..i]))
  }

  lemma SumPrefix(ns: seq<nat>, i: nat)
    requires i < |ns|
    ensures Sum(ns[..i + 1]) == Sum(ns[..i]) + ns[i]
  {
    assert ns[..i + 1] == ns[..i] + [ns[i]];
    SumSplit(ns[..i], [ns[i]]);
    SumOne(ns[i]);
  }

  lemma {:induction false} SumMono(ns: seq<nat>, i: nat, j: nat)
    requires i <= j <= |ns|
    ensures Sum(ns[..i]) <= Sum(ns[..j])
    decreases j - i
  {
    if i < j {
      SumPrefix(ns, i);
      SumMono(ns, i + 1, j);
    }
  }

  lemma SumAll(ns: seq<nat>)
    ensures ns[..|ns|] == ns && Sum(ns[..0]) == 0
  {
  }

  // The running sum is checked against `limit` at every step.
  method RunningStarts(ns: seq<nat>, limit: nat) returns (r: Option<seq<nat>>)
    ensures r == if Sum(ns) <= limit then Some(Starts(ns)) else None
  {
    hide Sum;
    var starts, next := [], 0;
    SumAll(ns);
    for i := 0 to |ns|
      invariant next == Sum(ns[..i]) && |starts| == i && forall j | 0 <= j < i :: starts[j] == Sum(ns[..j])
      invariant i == 0 || next <= limit
    {
      SumPrefix(ns, i);
      SumMono(ns, i + 1, |ns|);
      starts := starts + [next];
      next := next + ns[i];
      if next > limit {
        return None;
      }
    }
    assert starts == Starts(ns);
    return Some(starts);
  }

  // --- Files ---

  // The entries placed so far: the block that is next, or open with `sub` of
  // its streams taken.
  datatype Place = Place(block: nat, sub: nat, firstFile: seq<nat>, fileBlock: seq<Option<nat>>, files: seq<Entry>)

  // The next block that has streams; the empty ones on the way begin here too.
  function Open(first: seq<nat>, ns: seq<nat>, block: nat, i: nat): (r: (seq<nat>, nat))
    requires |first| == |ns|
    ensures |r.0| == |ns| && block <= r.1 && (block <= |ns| ==> r.1 <= |ns|)
    ensures r.1 < |ns| ==> ns[r.1] > 0 && r.0[r.1] == i
    ensures forall b | 0 <= b < block && b < |ns| :: r.0[b] == first[b]
    ensures forall b | 0 <= b < |ns| :: r.0[b] == first[b] || r.0[b] == i
    ensures forall b | block <= b < r.1 && b < |ns| :: ns[b] == 0
    decreases |ns| - block
  {
    if block >= |ns| then (first, block)
    else if ns[block] > 0 then (first[block := i], block)
    else Open(first[block := i], ns, block + 1, i)
  }

  // What is given: streams of each block, its first packed stream, their sizes.
  datatype Given = Given(ns: seq<nat>, firstPack: seq<nat>, packSizes: seq<u64>) {
    predicate Valid() {
      |firstPack| == |ns|
    }
  }

  function PlaceFile(g: Given, st: Place, i: nat): (r: Option<Place>)
    requires g.Valid() && i < |st.files| && |st.firstFile| == |g.ns|
    ensures r.Some? ==> |r.value.firstFile| == |g.ns| && |r.value.files| == |st.files|
  {
    if !st.files[i].hasStream && st.sub == 0 then Some(st.(fileBlock := st.fileBlock + [None])) else
    var (first, block) := if st.sub == 0 then Open(st.firstFile, g.ns, st.block, i) else (st.firstFile, st.block);
    if block >= |g.ns| then None else
    var placed := st.(block := block, firstFile := first, fileBlock := st.fileBlock + [Some(block)]);
    if !st.files[i].hasStream then Some(placed)
    else if first[block] == i && g.firstPack[block] >= |g.packSizes| then None
    else
      var files := if first[block] == i
        then st.files[i := st.files[i].(compressedSize := g.packSizes[g.firstPack[block]])] else st.files;
      if st.sub + 1 >= g.ns[block] then Some(placed.(block := block + 1, sub := 0, files := files))
      else Some(placed.(sub := st.sub + 1, files := files))
  }

  function PlaceFiles(g: Given, files: seq<Entry>, i: nat): (r: Option<Place>)
    requires g.Valid() && i <= |files|
    ensures r.Some? ==> |r.value.firstFile| == |g.ns| && |r.value.files| == |files|
  {
    if i == 0 then Some(Place(0, 0, seq(|g.ns|, _ => 0), [], files))
    else match PlaceFiles(g, files, i - 1)
      case None => None
      case Some(st) => PlaceFile(g, st, i - 1)
  }

  predicate SpansFit(ns: seq<nat>, firstFile: seq<nat>, n: nat)
    requires |ns| == |firstFile|
  {
    forall b | 0 <= b < |ns| :: firstFile[b] + ns[b] <= n
  }

  function GivenOf(a: Archive): (g: Given)
    ensures g.Valid()
  {
    Given(Subs(a.blocks), Starts(PackedCounts(a.blocks)), a.packs.sizes)
  }

  // The map, and the entries with the packed size of their block on its first.
  function MapStreams(a: Archive): Option<(StreamMap, seq<Entry>)> {
    if Sum(PackedCounts(a.blocks)) > |a.packs.sizes| then None
    else if Sum(a.packs.sizes) >= TWO_64 then None
    else match PlaceFiles(GivenOf(a), a.files, |a.files|)
      case None => None
      case Some(st) =>
        if !SpansFit(Subs(a.blocks), st.firstFile, |a.files|) then None
        else Some((StreamMap(Starts(PackedCounts(a.blocks)), Starts(Subs(a.blocks)), Starts(a.packs.sizes),
                             st.firstFile, st.fileBlock), st.files))
  }

  method CalculateStreamMap(a: Archive) returns (r: Option<(StreamMap, seq<Entry>)>)
    ensures r == MapStreams(a)
  {
    hide Sum, Subs, PackedCounts, PlaceFile, Starts;
    var packs := RunningStarts(PackedCounts(a.blocks), |a.packs.sizes|);
    if packs.None? {
      return None;
    }
    var offsets := RunningStarts(a.packs.sizes, TWO_64 - 1);
    if offsets.None? {
      return None;
    }
    var g := Given(Subs(a.blocks), packs.value, a.packs.sizes);
    var st := Place(0, 0, seq(|a.blocks|, _ => 0), [], a.files);
    for i := 0 to |a.files|
      invariant |st.firstFile| == |a.blocks| && |st.files| == |a.files|
      invariant PlaceFiles(g, a.files, i) == Some(st)
    {
      var next := PlaceFile(g, st, i);
      if next.None? {
        NeverRecovers(g, a.files, i + 1, |a.files|);
        return None;
      }
      st := next.value;
    }
    for b := 0 to |a.blocks|
      invariant forall j | 0 <= j < b :: st.firstFile[j] + g.ns[j] <= |a.files|
    {
      if st.firstFile[b] + g.ns[b] > |a.files| {
        return None;
      }
    }
    return Some((StreamMap(packs.value, Starts(g.ns), offsets.value, st.firstFile, st.fileBlock), st.files));
  }

  lemma {:induction false} NeverRecovers(g: Given, files: seq<Entry>, i: nat, j: nat)
    requires g.Valid() && i <= j <= |files| && PlaceFiles(g, files, i).None?
    ensures PlaceFiles(g, files, j).None?
    decreases j
  {
    if i < j {
      NeverRecovers(g, files, i, j - 1);
    }
  }

  // --- What the places mean ---

  // Stream `k`, counted over all blocks, is one of block `b`.
  predicate Holds(ns: seq<nat>, b: nat, k: nat) {
    b < |ns| && Sum(ns[..b]) <= k < Sum(ns[..b]) + ns[b]
  }

  // Stream `k` is not the first of its block.
  predicate Inside(ns: seq<nat>, b: nat, k: nat) {
    b < |ns| && Sum(ns[..b]) < k < Sum(ns[..b]) + ns[b]
  }

  lemma OneHolder(ns: seq<nat>, b: nat, c: nat, k: nat)
    requires Holds(ns, b, k) && Holds(ns, c, k)
    ensures b == c
  {
    if b < c {
      SumPrefix(ns, b);
      SumMono(ns, b + 1, c);
    } else if c < b {
      SumPrefix(ns, c);
      SumMono(ns, c + 1, b);
    }
  }

  lemma {:induction false} EmptyBlocks(ns: seq<nat>, b: nat, c: nat)
    requires b <= c <= |ns| && forall j | b <= j < c :: ns[j] == 0
    ensures Sum(ns[..b]) == Sum(ns[..c])
    decreases c - b
  {
    if b < c {
      SumPrefix(ns, b);
      EmptyBlocks(ns, b + 1, c);
    }
  }

  // The number of streamed entries before each.
  function Before(files: seq<Entry>, i: nat): nat
    requires i <= |files|
  {
    if i == 0 then 0 else Before(files, i - 1) + if files[i - 1].hasStream then 1 else 0
  }

  ghost predicate SameStreams(files: seq<Entry>, other: seq<Entry>) {
    |files| == |other| && forall i | 0 <= i < |files| :: other[i] == files[i].(compressedSize := other[i].compressedSize)
  }

  // After `i` entries: as many streams are taken as entries had one, each entry
  // is with the block that holds its stream, and each block that has begun is
  // at the entry of its first.
  ghost predicate Placed(ns: seq<nat>, files: seq<Entry>, i: nat, st: Place)
    requires i <= |files|
  {
    && |st.firstFile| == |ns| && SameStreams(files, st.files) && |st.fileBlock| == i && st.block <= |ns|
    && Sum(ns[..st.block]) + st.sub == Before(files, i)
    && (st.sub > 0 ==> st.block < |ns| && st.sub < ns[st.block])
    && (forall b | 0 <= b < |ns| :: st.firstFile[b] <= i)
    && (forall j | 0 <= j < i :: EntryPlaced(ns, files, j, st.fileBlock[j]))
    && forall b | 0 <= b < |ns| && ns[b] > 0 && (b < st.block || (b == st.block && st.sub > 0)) ::
         BlockBegins(ns, files, i, b, st.firstFile[b])
  }

  ghost predicate EntryPlaced(ns: seq<nat>, files: seq<Entry>, j: nat, at: Option<nat>)
    requires j < |files|
  {
    match at
    case None => !files[j].hasStream && forall b | 0 <= b < |ns| :: !Inside(ns, b, Before(files, j))
    case Some(b) => if files[j].hasStream then Holds(ns, b, Before(files, j)) else Inside(ns, b, Before(files, j))
  }

  ghost predicate BlockBegins(ns: seq<nat>, files: seq<Entry>, i: nat, b: nat, f: nat)
    requires i <= |files| && b < |ns|
  {
    f < i && files[f].hasStream && Before(files, f) == Sum(ns[..b])
  }

  lemma NotInside(ns: seq<nat>, block: nat, k: nat)
    requires block <= |ns| && Sum(ns[..block]) == k
    ensures forall b | 0 <= b < |ns| :: !Inside(ns, b, k)
  {
    forall b | 0 <= b < |ns| ensures !Inside(ns, b, k) {
      if b < block {
        SumPrefix(ns, b);
        SumMono(ns, b + 1, block);
      } else {
        SumMono(ns, block, b);
      }
    }
  }

  lemma {:induction false} PlacesMean(g: Given, files: seq<Entry>, i: nat)
    requires g.Valid() && i <= |files| && PlaceFiles(g, files, i).Some?
    ensures Placed(g.ns, files, i, PlaceFiles(g, files, i).value)
  {
    hide Sum, PlaceFile, Placed;
    if i == 0 {
      PlacedNone(g.ns, files, seq(|g.ns|, _ => 0));
    } else {
      PlacesMean(g, files, i - 1);
      PlaceStep(g, files, i - 1, PlaceFiles(g, files, i - 1).value);
    }
  }

  lemma PlacedNone(ns: seq<nat>, files: seq<Entry>, first: seq<nat>)
    requires |first| == |ns| && forall b | 0 <= b < |ns| :: first[b] == 0
    ensures Placed(ns, files, 0, Place(0, 0, first, [], files))
  {
    SumAll(ns);
  }

  lemma PlaceStep(g: Given, files: seq<Entry>, i: nat, st: Place)
    requires g.Valid() && i < |files| && |st.firstFile| == |g.ns| && |st.files| == |files|
    requires Placed(g.ns, files, i, st) && PlaceFile(g, st, i).Some?
    ensures Placed(g.ns, files, i + 1, PlaceFile(g, st, i).value)
  {
    hide Sum, Placed, PlaceFile;
    if files[i].hasStream {
      PlaceStream(g, files, i, st);
    } else {
      PlaceEmpty(g, files, i, st);
    }
  }

  lemma PlaceEmpty(g: Given, files: seq<Entry>, i: nat, st: Place)
    requires g.Valid() && i < |files| && |st.firstFile| == |g.ns| && |st.files| == |files| && !files[i].hasStream
    requires Placed(g.ns, files, i, st) && PlaceFile(g, st, i).Some?
    ensures Placed(g.ns, files, i + 1, PlaceFile(g, st, i).value)
  {
    hide Sum;
    if st.sub == 0 {
      NotInside(g.ns, st.block, Before(files, i));
    }
  }

  // Where the search for a block with streams has ended, as many streams are
  // taken as before.
  lemma OpenedAt(g: Given, files: seq<Entry>, i: nat, st: Place)
    requires g.Valid() && i < |files| && |st.firstFile| == |g.ns| && Placed(g.ns, files, i, st) && st.sub == 0
    ensures var block := Open(st.firstFile, g.ns, st.block, i).1;
      st.block <= block <= |g.ns| && Sum(g.ns[..block]) == Before(files, i)
  {
    hide Sum, EntryPlaced, BlockBegins, SameStreams;
    EmptyBlocks(g.ns, st.block, Open(st.firstFile, g.ns, st.block, i).1);
  }

  lemma BlocksBegin(g: Given, files: seq<Entry>, i: nat, st: Place)
    requires g.Valid() && i < |files| && |st.firstFile| == |g.ns| && |st.files| == |files| && files[i].hasStream
    requires Placed(g.ns, files, i, st) && PlaceFile(g, st, i).Some?
    ensures var next := PlaceFile(g, st, i).value;
      forall b | 0 <= b < |g.ns| && g.ns[b] > 0 && (b < next.block || (b == next.block && next.sub > 0)) ::
        BlockBegins(g.ns, files, i + 1, b, next.firstFile[b])
  {
    hide Sum, EntryPlaced, BlockBegins, SameStreams;
    if st.sub == 0 {
      OpenedAt(g, files, i, st);
    }
    var next := PlaceFile(g, st, i).value;
    forall b | 0 <= b < |g.ns| && g.ns[b] > 0 && (b < next.block || (b == next.block && next.sub > 0))
      ensures BlockBegins(g.ns, files, i + 1, b, next.firstFile[b])
    {
      if b < st.block || st.sub > 0 {
        BeginsLater(g.ns, files, i, b, st.firstFile[b]);
      } else {
        BeginsNow(g.ns, files, i, b);
      }
    }
  }

  lemma EntriesHeld(g: Given, files: seq<Entry>, i: nat, st: Place)
    requires g.Valid() && i < |files| && |st.firstFile| == |g.ns| && |st.files| == |files| && files[i].hasStream
    requires Placed(g.ns, files, i, st) && PlaceFile(g, st, i).Some?
    ensures var next := PlaceFile(g, st, i).value;
      |next.fileBlock| == i + 1 && forall j | 0 <= j < i + 1 :: EntryPlaced(g.ns, files, j, next.fileBlock[j])
  {
    hide Sum, Inside, BlockBegins, SameStreams;
    var block := if st.sub == 0 then Open(st.firstFile, g.ns, st.block, i).1 else st.block;
    if st.sub == 0 {
      OpenedAt(g, files, i, st);
    }
    hide Placed;
    var next := PlaceFile(g, st, i).value;
    PlacedSame(g.ns, files, i, st);
    assert next.fileBlock == st.fileBlock + [Some(block)];
    assert EntryPlaced(g.ns, files, i, Some(block));
  }

  lemma PlacedSame(ns: seq<nat>, files: seq<Entry>, i: nat, st: Place)
    requires i < |files| && Placed(ns, files, i, st)
    ensures |st.files| == |files| && st.files[i].hasStream == files[i].hasStream && |st.fileBlock| == i
    ensures st.sub > 0 ==> Holds(ns, st.block, Before(files, i))
    ensures forall j | 0 <= j < i :: EntryPlaced(ns, files, j, st.fileBlock[j])
  {
    hide Sum, EntryPlaced;
  }

  lemma StreamsKept(g: Given, files: seq<Entry>, i: nat, st: Place)
    requires g.Valid() && |st.firstFile| == |g.ns| && i < |st.files| && SameStreams(files, st.files)
    requires PlaceFile(g, st, i).Some?
    ensures SameStreams(files, PlaceFile(g, st, i).value.files)
  {
  }

  lemma PlaceStream(g: Given, files: seq<Entry>, i: nat, st: Place)
    requires g.Valid() && i < |files| && |st.firstFile| == |g.ns| && |st.files| == |files| && files[i].hasStream
    requires Placed(g.ns, files, i, st) && PlaceFile(g, st, i).Some?
    ensures Placed(g.ns, files, i + 1, PlaceFile(g, st, i).value)
  {
    hide Sum, EntryPlaced, BlockBegins, SameStreams;
    var block := if st.sub == 0 then Open(st.firstFile, g.ns, st.block, i).1 else st.block;
    if st.sub == 0 {
      OpenedAt(g, files, i, st);
    }
    PlacedSame(g.ns, files, i, st);
    SumPrefix(g.ns, block);
    StreamsKept(g, files, i, st);
    EntriesHeld(g, files, i, st);
    BlocksBegin(g, files, i, st);
  }

  lemma BeginsLater(ns: seq<nat>, files: seq<Entry>, i: nat, b: nat, f: nat)
    requires i < |files| && b < |ns| && BlockBegins(ns, files, i, b, f)
    ensures BlockBegins(ns, files, i + 1, b, f)
  {
    hide Sum;
  }

  lemma BeginsNow(ns: seq<nat>, files: seq<Entry>, i: nat, b: nat)
    requires i < |files| && b < |ns| && files[i].hasStream && Before(files, i) == Sum(ns[..b])
    ensures BlockBegins(ns, files, i + 1, b, i)
  {
    hide Sum;
  }

  // --- The packed sizes of the entries ---

  // An entry whose stream is the first of its block has the size of the first
  // packed stream of that block; the others keep what they have.
  ghost predicate PackedSize(g: Given, f: Entry, h: Entry, j: nat, at: Option<nat>, firstFile: seq<nat>)
    requires g.Valid() && |firstFile| == |g.ns|
  {
    if f.hasStream && at.Some? && at.value < |g.ns| && firstFile[at.value] == j then
      g.firstPack[at.value] < |g.packSizes| && h.compressedSize == g.packSizes[g.firstPack[at.value]]
    else h.compressedSize == f.compressedSize
  }

  ghost predicate Packed(g: Given, files: seq<Entry>, i: nat, st: Place)
    requires g.Valid() && i <= |files|
  {
    && |st.firstFile| == |g.ns| && |st.files| == |files| && |st.fileBlock| == i
    && (forall j | 0 <= j < |files| :: st.files[j].hasStream == files[j].hasStream)
    && (forall j | i <= j < |files| :: st.files[j] == files[j])
    && (forall j | 0 <= j < i && st.fileBlock[j].Some? ::
          st.fileBlock[j].value < st.block || (st.fileBlock[j].value == st.block && st.sub > 0))
    && forall j | 0 <= j < i :: PackedSize(g, files[j], st.files[j], j, st.fileBlock[j], st.firstFile)
  }

  lemma PackedStep(g: Given, files: seq<Entry>, i: nat, st: Place)
    requires g.Valid() && i < |files| && |st.firstFile| == |g.ns| && |st.files| == |files|
    requires Packed(g, files, i, st) && PlaceFile(g, st, i).Some?
    ensures Packed(g, files, i + 1, PlaceFile(g, st, i).value)
  {
    hide PackedSize;
    var next := PlaceFile(g, st, i).value;
    forall j | 0 <= j < i + 1
      ensures PackedSize(g, files[j], next.files[j], j, next.fileBlock[j], next.firstFile)
    {
      if j < i {
        PackedStays(g, files[j], st.files[j], j, st.fileBlock[j], st.firstFile, next.firstFile);
      } else {
        PackedNow(g, files, i, st);
      }
    }
  }

  lemma PackedStays(g: Given, f: Entry, h: Entry, j: nat, at: Option<nat>, first: seq<nat>, later: seq<nat>)
    requires g.Valid() && |first| == |later| == |g.ns| && PackedSize(g, f, h, j, at, first)
    requires at.Some? && at.value < |g.ns| ==> later[at.value] == first[at.value]
    ensures PackedSize(g, f, h, j, at, later)
  {
  }

  lemma PackedNow(g: Given, files: seq<Entry>, i: nat, st: Place)
    requires g.Valid() && i < |files| && |st.firstFile| == |g.ns| && |st.files| == |files|
    requires |st.fileBlock| == i && st.files[i] == files[i] && PlaceFile(g, st, i).Some?
    ensures var next := PlaceFile(g, st, i).value;
      |next.fileBlock| == i + 1 && PackedSize(g, files[i], next.files[i], i, next.fileBlock[i], next.firstFile)
  {
  }

  lemma {:induction false} PacksPlaced(g: Given, files: seq<Entry>, i: nat)
    requires g.Valid() && i <= |files| && PlaceFiles(g, files, i).Some?
    ensures Packed(g, files, i, PlaceFiles(g, files, i).value)
  {
    hide PlaceFile, PackedSize;
    if i > 0 {
      PacksPlaced(g, files, i - 1);
      PackedStep(g, files, i - 1, PlaceFiles(g, files, i - 1).value);
    }
  }

  // --- Where the packed streams lie ---

  // Packed stream `k` lies at `offsets[k]`, behind all before it; the packed
  // streams of a block follow those of the blocks before it and are there; and
  // the entry with the first stream of a block has the size of its first
  // packed stream.
  ghost predicate Laid(a: Archive, at: StreamMap) {
    && |at.offsets| == |a.packs.sizes| && |at.firstPack| == |at.firstFile| == |a.blocks| && |at.fileBlock| == |a.files|
    && (forall k | 0 <= k < |a.packs.sizes| :: at.offsets[k] == Sum(a.packs.sizes[..k]))
    && (forall b | 0 <= b < |a.blocks| ::
          && at.firstPack[b] == Sum(PackedCounts(a.blocks)[..b])
          && at.firstPack[b] + |a.blocks[b].packed| <= |a.packs.sizes|)
    && forall i | 0 <= i < |a.files| && a.files[i].hasStream && at.fileBlock[i].Some? :: FirstSized(a, at, i, at.fileBlock[i].value)
  }

  ghost predicate FirstSized(a: Archive, at: StreamMap, i: nat, b: nat)
    requires i < |a.files| && |at.firstPack| == |at.firstFile| == |a.blocks|
  {
    b < |a.blocks| && (at.firstFile[b] == i ==>
      at.firstPack[b] < |a.packs.sizes| && a.files[i].compressedSize == a.packs.sizes[at.firstPack[b]])
  }

  // Each begins where the one before it ends, the first at zero.
  lemma LaidInOrder(a: Archive, at: StreamMap)
    requires Laid(a, at)
    ensures a.packs.sizes != [] ==> at.offsets[0] == 0
    ensures forall k | 0 < k < |a.packs.sizes| :: at.offsets[k] == at.offsets[k - 1] + a.packs.sizes[k - 1]
    ensures a.blocks != [] ==> at.firstPack[0] == 0
    ensures forall b | 0 < b < |a.blocks| :: at.firstPack[b] == at.firstPack[b - 1] + |a.blocks[b - 1].packed|
  {
    hide Sum, FirstSized;
    var counts := PackedCounts(a.blocks);
    SumAll(counts);
    SumAll(a.packs.sizes);
    forall k | 0 < k < |a.packs.sizes| ensures at.offsets[k] == at.offsets[k - 1] + a.packs.sizes[k - 1] {
      SumPrefix(a.packs.sizes, k - 1);
    }
    forall b | 0 < b < |a.blocks| ensures at.firstPack[b] == at.firstPack[b - 1] + |a.blocks[b - 1].packed| {
      SumPrefix(counts, b - 1);
    }
  }

  lemma SpansPacked(a: Archive, b: nat)
    requires b < |a.blocks| && Sum(PackedCounts(a.blocks)) <= |a.packs.sizes|
    ensures Sum(PackedCounts(a.blocks)[..b]) + |a.blocks[b].packed| <= |a.packs.sizes|
  {
    hide Sum;
    var counts := PackedCounts(a.blocks);
    SumPrefix(counts, b);
    SumMono(counts, b + 1, |counts|);
    SumAll(counts);
  }

  lemma BlockInside(ns: seq<nat>, files: seq<Entry>, i: nat, st: Place)
    requires i < |files| && Placed(ns, files, |files|, st) && st.fileBlock[i].Some?
    ensures st.fileBlock[i].value < |ns|
  {
    hide Sum;
    assert EntryPlaced(ns, files, i, st.fileBlock[i]);
  }

  // Every map that is made is laid out so.
  lemma MapsLaid(a: Archive)
    requires MapStreams(a).Some?
    ensures var m := MapStreams(a).value; |m.1| == |a.files| && Laid(a.(files := m.1), m.0)
    ensures var m := MapStreams(a).value; forall i | 0 <= i < |a.files| ::
      (a.files[i].hasStream && m.0.fileBlock[i].Some? && m.0.fileBlock[i].value < |a.blocks|
       && m.0.firstFile[m.0.fileBlock[i].value] == i) || m.1[i] == a.files[i]
  {
    hide Sum, PlaceFiles, Placed;
    var g, m := GivenOf(a), MapStreams(a).value;
    var st := PlaceFiles(g, a.files, |a.files|).value;
    PlacesMean(g, a.files, |a.files|);
    PacksPlaced(g, a.files, |a.files|);
    PlacedFiles(g.ns, a.files, st);
    var whole := a.(files := m.1);
    forall b | 0 <= b < |a.blocks| ensures m.0.firstPack[b] + |a.blocks[b].packed| <= |a.packs.sizes| {
      SpansPacked(a, b);
    }
    forall i | 0 <= i < |a.files| && m.1[i].hasStream && m.0.fileBlock[i].Some?
      ensures FirstSized(whole, m.0, i, m.0.fileBlock[i].value)
    {
      BlockInside(g.ns, a.files, i, st);
      assert PackedSize(g, a.files[i], m.1[i], i, m.0.fileBlock[i], m.0.firstFile);
    }
    forall i | 0 <= i < |a.files|
      ensures (a.files[i].hasStream && m.0.fileBlock[i].Some? && m.0.fileBlock[i].value < |a.blocks|
               && m.0.firstFile[m.0.fileBlock[i].value] == i) || m.1[i] == a.files[i]
    {
      assert PackedSize(g, a.files[i], m.1[i], i, m.0.fileBlock[i], m.0.firstFile);
      if st.fileBlock[i].Some? {
        BlockInside(g.ns, a.files, i, st);
      }
    }
  }

  lemma PlacedFiles(ns: seq<nat>, files: seq<Entry>, st: Place)
    requires Placed(ns, files, |files|, st)
    ensures |st.fileBlock| == |files| && SameStreams(files, st.files)
  {
  }

  // --- When there is a map ---

  lemma {:induction false} BeforeMono(files: seq<Entry>, i: nat, j: nat)
    requires i <= j <= |files|
    ensures Before(files, i) <= Before(files, j) <= Before(files, i) + (j - i)
    decreases j
  {
    if i < j {
      BeforeMono(files, i, j - 1);
    }
  }

  lemma {:induction false} BeforeAll(files: seq<Entry>, i: nat)
    requires i <= |files|
    ensures Before(files, |files|) == Before(files, i) + Streamed(files[i..])
    decreases |files| - i
  {
    if i < |files| {
      BeforeAll(files, i + 1);
      assert files[i..][1..] == files[i + 1..];
    }
  }

  lemma {:induction false} PlacesExist(g: Given, files: seq<Entry>, i: nat)
    requires g.Valid() && i <= |files| && Before(files, |files|) <= Sum(g.ns)
    requires forall b | 0 <= b < |g.ns| :: g.ns[b] > 0 ==> g.firstPack[b] < |g.packSizes|
    ensures PlaceFiles(g, files, i).Some?
  {
    hide Sum, Placed, PlaceFile;
    if i > 0 {
      PlacesExist(g, files, i - 1);
      PlacesMean(g, files, i - 1);
      BeforeMono(files, i, |files|);
      StepExists(g, files, i - 1, PlaceFiles(g, files, i - 1).value);
    }
  }

  lemma StepExists(g: Given, files: seq<Entry>, i: nat, st: Place)
    requires g.Valid() && i < |files| && |st.firstFile| == |g.ns| && |st.files| == |files|
    requires Placed(g.ns, files, i, st) && Before(files, i + 1) <= Sum(g.ns)
    requires forall b | 0 <= b < |g.ns| :: g.ns[b] > 0 ==> g.firstPack[b] < |g.packSizes|
    ensures PlaceFile(g, st, i).Some?
  {
    hide Sum;
    if files[i].hasStream && st.sub == 0 {
      var block := Open(st.firstFile, g.ns, st.block, i).1;
      if block == |g.ns| {
        EmptyBlocks(g.ns, st.block, block);
        SumAll(g.ns);
      }
    }
  }

  // All streams taken: every block that has any has begun.
  lemma AllBegun(ns: seq<nat>, files: seq<Entry>, st: Place, b: nat)
    requires Placed(ns, files, |files|, st) && Before(files, |files|) == Sum(ns) && b < |ns| && ns[b] > 0
    ensures BlockBegins(ns, files, |files|, b, st.firstFile[b])
  {
    hide Sum;
    SumAll(ns);
    if st.sub > 0 {
      SumPrefix(ns, st.block);
      SumMono(ns, st.block + 1, |ns|);
    }
    if b >= st.block {
      SumMono(ns, st.block, b);
      SumPrefix(ns, b);
      SumMono(ns, b + 1, |ns|);
    }
  }

  lemma FirstBounded(ns: seq<nat>, files: seq<Entry>, st: Place, b: nat)
    requires Placed(ns, files, |files|, st) && b < |ns|
    ensures |st.firstFile| == |ns| && st.firstFile[b] <= |files|
  {
  }

  lemma SpanFits(ns: seq<nat>, files: seq<Entry>, st: Place, b: nat)
    requires |st.firstFile| == |ns|
    requires Placed(ns, files, |files|, st) && Before(files, |files|) == Sum(ns) && b < |ns|
    ensures st.firstFile[b] + ns[b] <= |files|
  {
    hide Sum, Placed;
    FirstBounded(ns, files, st, b);
    if ns[b] > 0 {
      AllBegun(ns, files, st, b);
      SumPrefix(ns, b);
      SumMono(ns, b + 1, |ns|);
      SumAll(ns);
      BeforeMono(files, st.firstFile[b], |files|);
    }
  }

  // As many streamed entries as streams, and packed streams for the blocks
  // that have any: there is a map.
  lemma MapExists(a: Archive)
    requires Sum(PackedCounts(a.blocks)) <= |a.packs.sizes| && Sum(a.packs.sizes) < TWO_64
    requires Before(a.files, |a.files|) == Sum(Subs(a.blocks))
    requires forall b | 0 <= b < |a.blocks| :: a.blocks[b].numSub > 0 ==> a.blocks[b].packed != []
    ensures MapStreams(a).Some? && Placed(Subs(a.blocks), a.files, |a.files|, PlaceFiles(GivenOf(a), a.files, |a.files|).value)
  {
    hide Sum, Placed, PlaceFiles;
    var g := GivenOf(a);
    forall b | 0 <= b < |g.ns| ensures g.ns[b] > 0 ==> g.firstPack[b] < |g.packSizes| {
      var ps := PackedCounts(a.blocks);
      SumPrefix(ps, b);
      SumMono(ps, b + 1, |ps|);
      SumAll(ps);
    }
    PlacesExist(g, a.files, |a.files|);
    PlacesMean(g, a.files, |a.files|);
    forall b | 0 <= b < |g.ns| ensures PlaceFiles(g, a.files, |a.files|).value.firstFile[b] + g.ns[b] <= |a.files| {
      FirstBounded(g.ns, a.files, PlaceFiles(g, a.files, |a.files|).value, b);
      SpanFits(g.ns, a.files, PlaceFiles(g, a.files, |a.files|).value, b);
    }
  }
}
