// The entries that are printed are the entries that are read back.
module FilesBack {
  import opened Common
  import opened Numbers
  import opened Bits
  import opened Wire
  import opened HeaderFormat
  import opened PackFormat
  import opened SubStreams
  import opened FilesFormat
  import opened UnpackFormat

  lemma EmptyFront(s: seq<byte>)
    ensures [] + s == s
  {
  }

  // --- Vectors that end with their last member ---

  lemma {:induction false} TrimKeeps(v: seq<bool>, i: nat)
    ensures Flag(Trim(v), i) == Flag(v, i)
    decreases |v|
  {
    if v != [] && !v[|v| - 1] {
      TrimKeeps(v[..|v| - 1], i);
    }
  }

  lemma TrimPads(v: seq<bool>)
    ensures Padded(Trim(v), |v|) == v
  {
    forall i | 0 <= i < |v| ensures Padded(Trim(v), |v|)[i] == v[i] {
      TrimKeeps(v, i);
    }
  }

  // Written up to its last member, a vector is read back for all its entries
  // just when both take the same number of bytes.
  lemma TrimmedIff(v: seq<bool>)
    ensures (forall tail: seq<byte> :: ReadBits(BitBytes(Trim(v)) + tail, |v|) == Got(v, tail))
            <==> Octets(|Trim(v)|) == Octets(|v|)
  {
    hide ReadBits, BitBytes, Octets, Trim;
    BitsPaddedIff(Trim(v), |v|);
    TrimPads(v);
  }

  predicate Filling(v: seq<bool>) {
    Any(v) ==> Octets(|Trim(v)|) == Octets(|v|)
  }

  lemma {:induction false} CountStreamless(files: seq<Entry>)
    ensures CountSet(EmptyStreams(files)) == |Streamless(files)|
    decreases |files|
  {
    if files != [] {
      assert EmptyStreams(files)[1..] == EmptyStreams(files[1..]);
      CountStreamless(files[1..]);
    }
  }

  lemma OctetsFit(n: nat)
    requires n < TWO_64
    ensures Octets(n) < TWO_64
  {
  }

  // A record: its number, its size, its contents.
  lemma RecordStarts(nid: byte, size: u64, body: seq<byte>, st: Props, b: Bounds)
    requires nid != K_END
    ensures ReadProperties([nid] + (NumberBytes(size) + body), st, b) ==
      match ReadProperty(nid, body, size, st, b)
      case Bad(e) => Bad(e)
      case Got(next, rest) => ReadProperties(rest, next, b)
  {
    hide ReadNumber, NumberBytes, ReadProperty;
    TakeDrop([nid], NumberBytes(size) + body);
    NumberRoundTrip(size, body);
  }

  // A record of any other number is passed over, just as long as it says.
  lemma SkipsUnknown(nid: byte, data: seq<byte>, st: Props, b: Bounds, tail: seq<byte>)
    requires nid != 0 && !(0x0E <= nid <= 0x15) && nid != 0x18
    requires |data| < TWO_64 && |data| <= b.bytes
    ensures ReadProperties([nid] + (NumberBytes(|data|) + (data + tail)), st, b) == ReadProperties(tail, st, b)
  {
    hide NumberBytes, ReadProperties, ReadNamesRecord, ReadStamps;
    RecordStarts(nid, |data|, data + tail, st, b);
    TakeDrop(data, tail);
  }

  lemma VectorOpens(nid: byte, flags: seq<bool>, tail: seq<byte>)
    requires Octets(|flags|) < TWO_64
    ensures Vector(nid, flags) + tail == [nid] + (NumberBytes(Octets(|flags|)) + (BitBytes(flags) + tail))
  {
    Nest3([nid], NumberBytes(Octets(|flags|)), BitBytes(flags), tail);
    Nest2([nid], NumberBytes(Octets(|flags|)), BitBytes(flags));
  }

  lemma EmptyStreamsBack(files: seq<Entry>, st: Props, b: Bounds, tail: seq<byte>)
    requires |files| == |st.files| < TWO_64
    ensures var flags := EmptyStreams(files);
      ReadProperties(VectorPart(K_EMPTY_STREAM, flags) + tail, st, b)
      == ReadProperties(tail, if Any(flags) then st.(emptyStream := Some(flags)) else st, b)
  {
    hide ReadProperties, ReadBits, BitBytes, EmptyStreams, Octets, Any, Vector;
    var flags := EmptyStreams(files);
    OctetsFit(|flags|);
    if Any(flags) {
      VectorOpens(K_EMPTY_STREAM, flags, tail);
      RecordStarts(K_EMPTY_STREAM, Octets(|flags|), BitBytes(flags) + tail, st, b);
      BitsRoundTrip(flags, tail);
    } else {
      EmptyFront(tail);
    }
  }

  // The flags a bit vector of the streamless entries gives.
  lemma TrimmedBack(nid: byte, flags: seq<bool>, st: Props, b: Bounds, tail: seq<byte>)
    requires nid == K_EMPTY_FILE || nid == K_ANTI
    requires Any(flags) && Filling(flags) && |flags| < TWO_64
    requires st.emptyStream.Some? && CountSet(st.emptyStream.value) == |flags|
    ensures ReadProperties(TrimmedPart(nid, flags) + tail, st, b)
         == ReadProperties(tail, if nid == K_EMPTY_FILE then st.(emptyFile := Some(flags)) else st.(anti := Some(flags)), b)
  {
    hide ReadProperties, ReadBits, BitBytes, Any, Trim, Octets, Vector;
    var v := Trim(flags);
    OctetsFit(|v|);
    VectorOpens(nid, v, tail);
    RecordStarts(nid, Octets(|v|), BitBytes(v) + tail, st, b);
    BitsPadded(v, |flags|, tail);
    TrimPads(flags);
  }

  // --- Names ---

  // A character is a number below 0x11_0000 that is no surrogate. From 0x1_0000
  // on it takes two units.
  predicate Scalar(c: nat) {
    c < 0x11_0000 && !(0xD800 <= c < 0xE000)
  }

  function Units(c: nat): seq<u16>
    requires Scalar(c)
  {
    if c < 0x1_0000 then [c] else [0xD800 + (c - 0x1_0000) / 0x400, 0xDC00 + (c - 0x1_0000) % 0x400]
  }

  predicate Scalars(cs: seq<nat>) {
    forall i | 0 <= i < |cs| :: Scalar(cs[i])
  }

  function Utf16(cs: seq<nat>): seq<u16>
    requires Scalars(cs)
  {
    if cs == [] then [] else Units(cs[0]) + Utf16(cs[1..])
  }

  lemma {:induction false} TextIsValid(cs: seq<nat>)
    requires Scalars(cs)
    ensures ValidUtf16(Utf16(cs))
  {
    if cs != [] {
      TextIsValid(cs[1..]);
      var more := Utf16(cs[1..]);
      assert Scalar(cs[0]);
      if cs[0] < 0x1_0000 {
        assert ([cs[0]] + more)[1..] == more;
      } else {
        var u := Units(cs[0]);
        assert (u + more)[2..] == more;
      }
    }
  }

  lemma {:induction false} ValidIsText(s: seq<u16>) returns (cs: seq<nat>)
    requires ValidUtf16(s)
    ensures Scalars(cs) && Utf16(cs) == s
  {
    if s == [] {
      cs := [];
    } else if 0xD800 <= s[0] < 0xDC00 {
      var more := ValidIsText(s[2..]);
      var high: int, low: int := s[0], s[1];
      var c: nat := 0x1_0000 + (high - 0xD800) * 0x400 + (low - 0xDC00);
      cs := [c] + more;
      assert cs[1..] == more && Units(c) == [s[0], s[1]];
      assert [s[0], s[1]] + s[2..] == s;
    } else {
      var more := ValidIsText(s[1..]);
      cs := [s[0] as nat] + more;
      assert cs[1..] == more && Units(s[0]) == [s[0]];
    }
  }

  // A name is taken just when it is the UTF-16 of some text.
  lemma ValidIff(s: seq<u16>)
    ensures ValidUtf16(s) <==> exists cs :: Scalars(cs) && Utf16(cs) == s
  {
    if ValidUtf16(s) {
      var cs := ValidIsText(s);
    }
    forall cs | Scalars(cs) && Utf16(cs) == s ensures ValidUtf16(s) {
      TextIsValid(cs);
    }
  }

  // What a name must be to come back: UTF-16 without zeros, within the limit.
  predicate NameFits(name: seq<u16>, max: nat) {
    ValidUtf16(name) && (name != [] ==> 2 * (|name| - 1) < max) && forall i | 0 <= i < |name| :: name[i] != 0
  }

  lemma {:induction false} NameBack(name: seq<u16>, got: seq<u16>, left: nat, max: nat, tail: seq<byte>)
    requires left % 2 == 0 && left >= 2 * |name| + 2
    requires name != [] ==> 2 * (|got| + |name| - 1) < max
    requires forall i | 0 <= i < |name| :: name[i] != 0
    ensures ReadName(UnitsBytes(name) + ([0, 0] + tail), left, max, got)
         == Got((got + name, left - 2 * |name| - 2), tail)
    decreases |name|
  {
    var s := UnitsBytes(name) + ([0, 0] + tail);
    if name == [] {
      EmptyFront([0, 0] + tail);
      assert got + name == got;
      assert s[2..] == tail;
    } else {
      var pair := [name[0] % 256, name[0] / 256];
      var more := UnitsBytes(name[1..]) + ([0, 0] + tail);
      Nest2(pair, UnitsBytes(name[1..]), [0, 0] + tail);
      TakeDrop(pair, more);
      var low: int, high: int := s[0], s[1];
      assert low + 256 * high == name[0];
      NameBack(name[1..], got + [name[0]], left - 2, max, tail);
      assert got + [name[0]] + name[1..] == got + name;
    }
  }

  function Names(files: seq<Entry>): (r: seq<seq<u16>>)
    ensures |r| == |files|
  {
    seq(|files|, i requires 0 <= i < |files| => files[i].name)
  }

  lemma {:induction false} NamesBack(files: seq<Entry>, max: nat, tail: seq<byte>)
    requires forall i | 0 <= i < |files| :: NameFits(files[i].name, max)
    ensures |NamesBytes(files)| % 2 == 0
    ensures ReadNames(NamesBytes(files) + tail, |NamesBytes(files)|, |files|, max) == Got(Names(files), tail)
    decreases |files|
  {
    hide UnitsBytes, ReadName, ValidUtf16;
    if files == [] {
      EmptyFront(tail);
    } else {
      var name := files[0].name;
      var more := NamesBytes(files[1..]) + tail;
      assert NameFits(name, max);
      NamesBack(files[1..], max, tail);
      NamesCons(files, tail);
      assert Names(files) == [name] + Names(files[1..]);
      hide NamesBytes, Names, NameFits;
      NameBack(name, [], |NamesBytes(files)|, max, more);
      assert [] + name == name;
    }
  }

  lemma NamesCons(files: seq<Entry>, tail: seq<byte>)
    requires files != []
    ensures NamesBytes(files) + tail == UnitsBytes(files[0].name) + ([0, 0] + (NamesBytes(files[1..]) + tail))
    ensures |NamesBytes(files)| == 2 * |files[0].name| + 2 + |NamesBytes(files[1..])|
  {
    hide UnitsBytes;
    Nest2(UnitsBytes(files[0].name), [0, 0] + NamesBytes(files[1..]), tail);
    Nest2([0, 0], NamesBytes(files[1..]), tail);
  }

  lemma NamesPartBack(files: seq<Entry>, st: Props, b: Bounds, tail: seq<byte>)
    requires |NamesBytes(files)| + 1 < TWO_64 && b.Allows(|NamesBytes(files)| + 1, b.maxTotalNameBytes)
    requires |files| == |st.files| && forall i | 0 <= i < |files| :: NameFits(files[i].name, b.maxNameBytes)
    ensures ReadProperties(NamesPart(files) + tail, st, b)
         == ReadProperties(tail, st.(files := WithNames(st.files, Names(files))), b)
  {
    hide ReadProperties, NamesBytes, ReadNames, NumberBytes, NameFits;
    var size := |NamesBytes(files)| + 1;
    Nest3([K_NAME], NumberBytes(size), [0] + NamesBytes(files), tail);
    Nest2([K_NAME], NumberBytes(size), [0] + NamesBytes(files));
    Nest2([0], NamesBytes(files), tail);
    RecordStarts(K_NAME, size, [0] + (NamesBytes(files) + tail), st, b);
    TakeDrop([0], NamesBytes(files) + tail);
    NamesBack(files, b.maxNameBytes, tail);
  }

  // --- Dates and attributes ---

  function Norm(s: Stamp): Stamp {
    if s.has then s else Stamp(false, 0)
  }

  function Stamped(g: seq<Entry>, files: seq<Entry>, k: Kind): (r: seq<Entry>)
    requires |g| == |files|
    ensures |r| == |files|
  {
    seq(|files|, i requires 0 <= i < |files| => k.Put(g[i], Norm(k.Of(files[i]))))
  }

  ghost predicate Unstamped(g: seq<Entry>, k: Kind) {
    forall i | 0 <= i < |g| :: k.Of(g[i]) == Stamp(false, 0)
  }

  lemma FlagsHead(files: seq<Entry>, k: Kind, tail: seq<byte>)
    ensures var flags := Flags(files, k);
      ReadAllOrBits((if All(flags) then [1] else [0] + BitBytes(flags)) + tail, |files|) == Got(flags, tail)
  {
    hide BitBytes, ReadBits;
    var flags := Flags(files, k);
    if All(flags) {
      TakeDrop([1], tail);
      assert flags == seq(|files|, _ => true);
    } else {
      Nest2([0], BitBytes(flags), tail);
      TakeDrop([0], BitBytes(flags) + tail);
      BitsRoundTrip(flags, tail);
    }
  }

  lemma StampsBytesBack(files: seq<Entry>, k: Kind, st: Props, tail: seq<byte>)
    requires |files| == |st.files| && Unstamped(st.files, k)
    requires forall i | 0 <= i < |files| :: k.Of(files[i]).value < Pow256(k.Width())
    ensures ReadStamps(StampsBytes(files, k) + tail, st, k) == Got(st.(files := Stamped(st.files, files, k)), tail)
  {
    hide ReadAllOrBits, ReadWhere, WhereBytes, BitBytes, Pow256, All;
    var flags, values, w := Flags(files, k), Values(files, k), k.Width();
    var words := WhereBytes(values, w, flags);
    var head := if All(flags) then [1] else [0] + BitBytes(flags);
    Nest2(head, [0] + words, tail);
    Nest2([0], words, tail);
    FlagsHead(files, k, [0] + (words + tail));
    TakeDrop([0], words + tail);
    WhereRoundTrip(values, w, flags, tail);
    Powers();
    assert WithStamps(st.files, k, flags, Where(values, flags)) == Stamped(st.files, files, k);
  }

  lemma StampsPartBack(files: seq<Entry>, k: Kind, st: Props, b: Bounds, tail: seq<byte>)
    requires |files| == |st.files| && Unstamped(st.files, k) && |StampsBytes(files, k)| < TWO_64
    requires forall i | 0 <= i < |files| :: k.Of(files[i]).value < Pow256(k.Width())
    ensures ReadProperties(StampsPart(files, k) + tail, st, b)
         == ReadProperties(tail, st.(files := Stamped(st.files, files, k)), b)
  {
    hide ReadProperties, StampsBytes, NumberBytes, ReadStamps, Pow256;
    if Any(Flags(files, k)) {
      var body := StampsBytes(files, k);
      Nest3([k.Nid()], NumberBytes(|body|), body, tail);
      Nest2([k.Nid()], NumberBytes(|body|), body);
      RecordStarts(k.Nid(), |body|, body + tail, st, b);
      StampsBytesBack(files, k, st, tail);
    } else {
      EmptyFront(tail);
      assert forall i | 0 <= i < |files| :: Flags(files, k)[i] == k.Of(files[i]).has;
      assert Stamped(st.files, files, k) == st.files;
    }
  }

  // --- All of it ---

  function Described(f: Entry): Entry {
    Blank().(name := f.name, created := Norm(f.created), accessed := Norm(f.accessed),
             modified := Norm(f.modified), attributes := Norm(f.attributes))
  }

  function AllDescribed(files: seq<Entry>): (r: seq<Entry>)
    ensures |r| == |files|
  {
    seq(|files|, i requires 0 <= i < |files| => Described(files[i]))
  }

  function TheProps(files: seq<Entry>): Props {
    Props(AllDescribed(files),
          if Any(EmptyStreams(files)) then Some(EmptyStreams(files)) else None,
          if Any(EmptyFiles(files)) then Some(EmptyFiles(files)) else None,
          if Any(AntiItems(files)) then Some(AntiItems(files)) else None)
  }

  // What the entries must be to come back, and what the caller's limits have
  // to leave room for.
  predicate FilesLimits(files: seq<Entry>, b: Bounds) {
    && Printable(files) && |files| <= b.maxEntries && |NamesBytes(files)| + 1 <= b.maxTotalNameBytes
    && (forall i | 0 <= i < |files| :: NameFits(files[i].name, b.maxNameBytes) && files[i].attributes.value < TWO_32)
    && Filling(EmptyFiles(files)) && Filling(AntiItems(files))
  }

  predicate FilesFit(files: seq<Entry>, b: Bounds) {
    FilesLimits(files, b) && |files| <= b.bytes && |NamesBytes(files)| + 1 <= b.bytes
  }

  lemma {:induction false} NoStreamlessSet(files: seq<Entry>)
    ensures !Any(EmptyStreams(files)) ==> Streamless(files) == []
    decreases |files|
  {
    if files != [] && !Any(EmptyStreams(files)) {
      assert !EmptyStreams(files)[0];
      assert forall i | 0 <= i < |files[1..]| :: EmptyStreams(files[1..])[i] == EmptyStreams(files)[i + 1];
      NoStreamlessSet(files[1..]);
    }
  }

  // The three vectors, in the order in which one needs another.
  lemma VectorsBack(files: seq<Entry>, g: seq<Entry>, b: Bounds, tail: seq<byte>)
    requires |files| == |g| < TWO_64 && Filling(EmptyFiles(files)) && Filling(AntiItems(files))
    ensures ReadProperties(VectorPart(K_EMPTY_STREAM, EmptyStreams(files)) +
              (TrimmedPart(K_EMPTY_FILE, EmptyFiles(files)) + (TrimmedPart(K_ANTI, AntiItems(files)) + tail)),
              Props(g, None, None, None), b)
         == ReadProperties(tail, TheProps(files).(files := g), b)
  {
    hide ReadProperties, EmptyStreams, EmptyFiles, AntiItems, VectorPart, Filling, Any, Streamless;
    var t2 := TrimmedPart(K_ANTI, AntiItems(files)) + tail;
    var t1 := TrimmedPart(K_EMPTY_FILE, EmptyFiles(files)) + t2;
    var st1 := Props(g, if Any(EmptyStreams(files)) then Some(EmptyStreams(files)) else None, None, None);
    EmptyStreamsBack(files, Props(g, None, None, None), b, t1);
    CountStreamless(files);
    NoStreamlessSet(files);
    SomeIsNone(files);
    var st2 := st1.(emptyFile := if Any(EmptyFiles(files)) then Some(EmptyFiles(files)) else None);
    if Any(EmptyFiles(files)) {
      TrimmedBack(K_EMPTY_FILE, EmptyFiles(files), st1, b, t2);
    } else {
      EmptyFront(t2);
    }
    if Any(AntiItems(files)) {
      TrimmedBack(K_ANTI, AntiItems(files), st2, b, tail);
    } else {
      EmptyFront(tail);
    }
  }

  lemma SomeIsNone(files: seq<Entry>)
    ensures Any(EmptyFiles(files)) || Any(AntiItems(files)) ==> Streamless(files) != []
  {
  }

  function Blanks(n: nat): (g: seq<Entry>)
    ensures |g| == n
  {
    seq(n, _ => Blank())
  }

  function AllStamped(g: seq<Entry>, files: seq<Entry>): (r: seq<Entry>)
    requires |g| == |files|
    ensures |r| == |files|
  {
    Stamped(Stamped(Stamped(Stamped(g, files, Created), files, Accessed), files, Modified), files, Attributes)
  }

  lemma StampsBack(files: seq<Entry>, st: Props, b: Bounds, tail: seq<byte>)
    requires |files| == |st.files| && Printable(files)
    requires forall i | 0 <= i < |files| :: files[i].attributes.value < TWO_32
    requires forall k: Kind :: Unstamped(st.files, k)
    ensures ReadProperties(StampsPart(files, Created) + (StampsPart(files, Accessed) +
              (StampsPart(files, Modified) + (StampsPart(files, Attributes) + tail))), st, b)
         == ReadProperties(tail, st.(files := AllStamped(st.files, files)), b)
  {
    hide ReadProperties, StampsPart, StampsBytes, NamesBytes;
    Powers();
    var t3 := StampsPart(files, Attributes) + tail;
    var t2 := StampsPart(files, Modified) + t3;
    var t1 := StampsPart(files, Accessed) + t2;
    var g1 := Stamped(st.files, files, Created);
    var g2 := Stamped(g1, files, Accessed);
    var g3 := Stamped(g2, files, Modified);
    assert Unstamped(st.files, Created) && Unstamped(st.files, Accessed)
        && Unstamped(st.files, Modified) && Unstamped(st.files, Attributes);
    StampsPartBack(files, Created, st, b, t1);
    StampsPartBack(files, Accessed, st.(files := g1), b, t2);
    StampsPartBack(files, Modified, st.(files := g2), b, t3);
    StampsPartBack(files, Attributes, st.(files := g3), b, tail);
  }

  lemma DescribedIs(files: seq<Entry>)
    ensures AllStamped(WithNames(Blanks(|files|), Names(files)), files) == AllDescribed(files)
    ensures forall k: Kind :: Unstamped(WithNames(Blanks(|files|), Names(files)), k)
  {
    assert forall i | 0 <= i < |files| ::
      AllStamped(WithNames(Blanks(|files|), Names(files)), files)[i] == Described(files[i]);
  }

  lemma PropertiesBack(files: seq<Entry>, b: Bounds, tail: seq<byte>)
    requires FilesFit(files, b)
    ensures ReadProperties(VectorPart(K_EMPTY_STREAM, EmptyStreams(files)) +
        (TrimmedPart(K_EMPTY_FILE, EmptyFiles(files)) + (TrimmedPart(K_ANTI, AntiItems(files)) +
          (NamesPart(files) + (StampsPart(files, Created) + (StampsPart(files, Accessed) +
            (StampsPart(files, Modified) + (StampsPart(files, Attributes) + ([K_END] + tail)))))))),
        Props(Blanks(|files|), None, None, None), b) == Got(TheProps(files), tail)
  {
    hide ReadProperties, VectorPart, TrimmedPart, NamesPart, StampsPart, NamesBytes, StampsBytes, NameFits, Filling;
    hide EmptyStreams, EmptyFiles, AntiItems, Any, AllStamped, AllDescribed, Unstamped, WithNames, Names, Blanks;
    var t1 := StampsPart(files, Created) + (StampsPart(files, Accessed) +
      (StampsPart(files, Modified) + (StampsPart(files, Attributes) + ([K_END] + tail))));
    var g := Blanks(|files|);
    VectorsBack(files, g, b, NamesPart(files) + t1);
    var st := TheProps(files).(files := g);
    NamesPartBack(files, st, b, t1);
    DescribedIs(files);
    StampsBack(files, st.(files := WithNames(g, Names(files))), b, [K_END] + tail);
    PropertiesEnd(TheProps(files), b, tail);
  }

  lemma PropertiesEnd(st: Props, b: Bounds, tail: seq<byte>)
    ensures ReadProperties([K_END] + tail, st, b) == Got(st, tail)
  {
    TakeDrop([K_END], tail);
  }

  // The entries as they are read back: what was printed of them, and for those
  // with a stream the size and checksum of the next one.
  function BackEntries(files: seq<Entry>, k: nat, subs: SubStreams): (r: seq<Entry>)
    requires k + Streamed(files) <= |subs.sizes| == |subs.crcs|
    ensures |r| == |files|
    decreases |files|
  {
    if files == [] then [] else
    var f := Described(files[0]);
    if files[0].hasStream then
      [f.(hasStream := true, hasCrc := Flag(subs.hasCrc, k), crc := subs.crcs[k], size := subs.sizes[k])]
      + BackEntries(files[1..], k + 1, subs)
    else
      [f.(isDirectory := files[0].isDirectory, isAnti := files[0].isAnti)] + BackEntries(files[1..], k, subs)
  }

  // Entries that have a stream.
  function Streamed(files: seq<Entry>): nat {
    if files == [] then 0 else (if files[0].hasStream then 1 else 0) + Streamed(files[1..])
  }

  lemma ToldIs(flags: seq<bool>, i: nat)
    ensures Told(if Any(flags) then Some(flags) else None, i, false) == Flag(flags, i)
  {
  }

  // The streamless entries met so far are those before `i`.
  lemma {:induction false} StreamlessSplit(files: seq<Entry>, i: nat)
    requires i < |files|
    ensures var e := |Streamless(files[..i])|;
      && Streamless(files[..i + 1]) == Streamless(files[..i]) + (if files[i].hasStream then [] else [files[i]])
      && (!files[i].hasStream ==> e < |Streamless(files)| && Streamless(files)[e] == files[i])
    decreases |files|
  {
    hide Streamless;
    StreamlessCons(files);
    StreamlessCons(files[..i + 1]);
    if i == 0 {
      assert files[..1][1..] == [] && files[..0] == [];
      StreamlessNone();
    } else {
      var front, last := Streamless(files[1..][..i - 1]), if files[i].hasStream then [] else [files[i]];
      var first := if files[0].hasStream then [] else [files[0]];
      StreamlessSplit(files[1..], i - 1);
      StreamlessCons(files[..i]);
      assert files[..i][1..] == files[1..][..i - 1] && files[..i + 1][1..] == files[1..][..i];
      assert first + (front + last) == (first + front) + last;
    }
  }

  lemma StreamlessCons(files: seq<Entry>)
    requires files != []
    ensures Streamless(files) == (if files[0].hasStream then [] else [files[0]]) + Streamless(files[1..])
  {
  }

  lemma StreamlessNone()
    ensures Streamless([]) == []
  {
  }

  lemma {:induction false} Settles(files: seq<Entry>, i: nat, k: nat, subs: SubStreams)
    requires i <= |files| && k + Streamed(files[i..]) <= |subs.sizes| == |subs.crcs|
    ensures Settle(AllDescribed(files), i, k, |Streamless(files[..i])|, TheProps(files), Some(subs))
         == Some(BackEntries(files[i..], k, subs))
    decreases |files| - i
  {
    hide Any, Told, Streamless;
    if i < |files| {
      assert files[i..][1..] == files[i + 1..];
      StreamlessSplit(files, i);
      ToldIs(EmptyStreams(files), i);
      ToldIs(EmptyFiles(files), |Streamless(files[..i])|);
      ToldIs(AntiItems(files), |Streamless(files[..i])|);
      Settles(files, i + 1, if files[i].hasStream then k + 1 else k, subs);
    }
  }

  // The entries come back, each stream with its own size and checksum.
  lemma FilesRoundTrip(files: seq<Entry>, subs: SubStreams, b: Bounds, tail: seq<byte>)
    requires FilesFit(files, b) && Streamed(files) <= |subs.sizes| == |subs.crcs|
    ensures ReadFilesInfo(FilesBytes(files, tail)[1..], Some(subs), b) == Got(BackEntries(files, 0, subs), tail)
  {
    hide ReadNumber, NumberBytes, ReadProperties, VectorPart, TrimmedPart, NamesPart, StampsPart, Settle;
    hide NamesBytes, StampsBytes, NameFits, Filling, AllDescribed, EmptyStreams, EmptyFiles, AntiItems;
    var s := VectorPart(K_EMPTY_STREAM, EmptyStreams(files)) +
      (TrimmedPart(K_EMPTY_FILE, EmptyFiles(files)) + (TrimmedPart(K_ANTI, AntiItems(files)) +
        (NamesPart(files) + (StampsPart(files, Created) + (StampsPart(files, Accessed) +
          (StampsPart(files, Modified) + (StampsPart(files, Attributes) + ([K_END] + tail))))))));
    assert FilesBytes(files, tail)[1..] == NumberBytes(|files|) + s;
    NumberRoundTrip(|files|, s);
    PropertiesBack(files, b, tail);
    assert Blanks(|files|) == seq(|files|, _ => Blank());
    assert files[0..] == files && files[..0] == [];
    Settles(files, 0, 0, subs);
  }
}
