// The entries of an archive, how they are printed, and how they are read.
module FilesFormat {
  import opened Common
  import opened Numbers
  import opened Bits
  import opened Wire
  import opened HeaderFormat
  import opened PackFormat
  import opened SubStreams

  type u16 = x: int | 0 <= x < 0x1_0000

  // A date or an attribute word, and whether it is there.
  datatype Stamp = Stamp(has: bool, value: u64)

  // Names are kept as the UTF-16 they are printed in.
  datatype Entry = Entry(name: seq<u16>, hasStream: bool, isDirectory: bool, isAnti: bool,
                         created: Stamp, accessed: Stamp, modified: Stamp, attributes: Stamp,
                         hasCrc: bool, crc: nat, size: u64, compressedSize: u64)

  datatype Kind = Created | Accessed | Modified | Attributes {
    function Nid(): byte {
      match this
      case Created => K_C_TIME
      case Accessed => K_A_TIME
      case Modified => K_M_TIME
      case Attributes => K_WIN_ATTRIBUTES
    }

    function Width(): (w: nat)
      ensures w == 4 || w == 8
    {
      if Attributes? then 4 else 8
    }

    function Of(e: Entry): Stamp {
      match this
      case Created => e.created
      case Accessed => e.accessed
      case Modified => e.modified
      case Attributes => e.attributes
    }

    function Put(e: Entry, s: Stamp): Entry {
      match this
      case Created => e.(created := s)
      case Accessed => e.(accessed := s)
      case Modified => e.(modified := s)
      case Attributes => e.(attributes := s)
    }
  }

  function Blank(): Entry {
    var none := Stamp(false, 0);
    Entry([], false, false, false, none, none, none, none, false, 0, 0, 0)
  }

  // --- Printing ---

  predicate Any(flags: seq<bool>) {
    exists i :: 0 <= i < |flags| && flags[i]
  }

  predicate All(flags: seq<bool>) {
    forall i | 0 <= i < |flags| :: flags[i]
  }

  function EmptyStreams(files: seq<Entry>): (f: seq<bool>)
    ensures |f| == |files|
  {
    seq(|files|, i requires 0 <= i < |files| => !files[i].hasStream)
  }

  // The entries without a stream, in order.
  function Streamless(files: seq<Entry>): (r: seq<Entry>)
    ensures |r| <= |files|
  {
    if files == [] then [] else (if files[0].hasStream then [] else [files[0]]) + Streamless(files[1..])
  }

  function EmptyFiles(files: seq<Entry>): (f: seq<bool>)
    ensures |f| == |Streamless(files)|
  {
    var es := Streamless(files);
    seq(|es|, i requires 0 <= i < |es| => !es[i].isDirectory)
  }

  function AntiItems(files: seq<Entry>): (f: seq<bool>)
    ensures |f| == |Streamless(files)|
  {
    var es := Streamless(files);
    seq(|es|, i requires 0 <= i < |es| => es[i].isAnti)
  }

  // A set that was never told its size ends with its last member.
  function Trim(flags: seq<bool>): (f: seq<bool>)
    ensures |f| <= |flags|
  {
    if flags == [] || flags[|flags| - 1] then flags else Trim(flags[..|flags| - 1])
  }

  function Vector(nid: byte, flags: seq<bool>): seq<byte>
    requires Octets(|flags|) < TWO_64
  {
    [nid] + (NumberBytes(Octets(|flags|)) + BitBytes(flags))
  }

  function VectorPart(nid: byte, flags: seq<bool>): seq<byte>
    requires |flags| < TWO_64
  {
    if Any(flags) then Vector(nid, flags) else []
  }

  function TrimmedPart(nid: byte, flags: seq<bool>): seq<byte>
    requires |flags| < TWO_64
  {
    if Any(flags) then Vector(nid, Trim(flags)) else []
  }

  function UnitsBytes(name: seq<u16>): (b: seq<byte>)
    ensures |b| == 2 * |name|
  {
    if name == [] then [] else [name[0] % 256, name[0] / 256] + UnitsBytes(name[1..])
  }

  // Every name with the zero that ends it.
  function NamesBytes(files: seq<Entry>): seq<byte> {
    if files == [] then [] else UnitsBytes(files[0].name) + ([0, 0] + NamesBytes(files[1..]))
  }

  function NamesPart(files: seq<Entry>): seq<byte>
    requires |NamesBytes(files)| + 1 < TWO_64
  {
    [K_NAME] + (NumberBytes(|NamesBytes(files)| + 1) + ([0] + NamesBytes(files)))
  }

  function Flags(files: seq<Entry>, k: Kind): (f: seq<bool>)
    ensures |f| == |files|
  {
    seq(|files|, i requires 0 <= i < |files| => k.Of(files[i]).has)
  }

  function Values(files: seq<Entry>, k: Kind): (v: seq<nat>)
    ensures |v| == |files|
  {
    seq(|files|, i requires 0 <= i < |files| => k.Of(files[i]).value as nat)
  }

  function StampsBytes(files: seq<Entry>, k: Kind): seq<byte> {
    (if All(Flags(files, k)) then [1] else [0] + BitBytes(Flags(files, k)))
    + ([0] + WhereBytes(Values(files, k), k.Width(), Flags(files, k)))
  }

  function StampsPart(files: seq<Entry>, k: Kind): seq<byte>
    requires |StampsBytes(files, k)| < TWO_64
  {
    if Any(Flags(files, k)) then [k.Nid()] + (NumberBytes(|StampsBytes(files, k)|) + StampsBytes(files, k)) else []
  }

  // Every length that is printed fits a word.
  predicate Printable(files: seq<Entry>) {
    |files| < TWO_64 && |NamesBytes(files)| + 1 < TWO_64 && forall k: Kind :: |StampsBytes(files, k)| < TWO_64
  }

  function FilesBytes(files: seq<Entry>, tail: seq<byte>): seq<byte>
    requires Printable(files)
  {
    [K_FILES_INFO] + (NumberBytes(|files|) +
      (VectorPart(K_EMPTY_STREAM, EmptyStreams(files)) +
        (TrimmedPart(K_EMPTY_FILE, EmptyFiles(files)) + (TrimmedPart(K_ANTI, AntiItems(files)) +
          (NamesPart(files) + (StampsPart(files, Created) + (StampsPart(files, Accessed) +
            (StampsPart(files, Modified) + (StampsPart(files, Attributes) + ([K_END] + tail))))))))))
  }

  // --- Reading ---

  // Surrogates come in pairs, the high one first.
  predicate ValidUtf16(s: seq<u16>) {
    if s == [] then true
    else if 0xD800 <= s[0] < 0xDC00 then |s| > 1 && 0xDC00 <= s[1] < 0xE000 && ValidUtf16(s[2..])
    else !(0xDC00 <= s[0] < 0xE000) && ValidUtf16(s[1..])
  }

  // One name, of what `left` bytes still hold; `got` is its beginning.
  function ReadName(s: seq<byte>, left: nat, max: nat, got: seq<u16>): (p: Parse<(seq<u16>, nat)>)
    requires left % 2 == 0
    ensures p.Got? ==> |p.rest| <= |s| && p.value.1 <= left && (left > 0 ==> p.value.1 < left) && p.value.1 % 2 == 0
    decreases left
  {
    if left == 0 then Got((got, 0), s)
    else if |s| < 2 then Bad(Eof)
    else
      var low: int, high: int := s[0], s[1];
      var u := low + 256 * high;
      if u == 0 then Got((got, left - 2), s[2..])
      else if 2 * |got| >= max then Bad(Limit)
      else ReadName(s[2..], left - 2, max, got + [u])
  }

  // A name more than there are entries is found out after it has been read.
  function ReadNames(s: seq<byte>, left: nat, n: nat, max: nat): (p: Parse<seq<seq<u16>>>)
    requires left % 2 == 0
    ensures p.Got? ==> |p.rest| <= |s| && |p.value| == n
    decreases left
  {
    if left == 0 then (if n == 0 then Got([], s) else Bad(BadStructure))
    else if n == 0 then Bad(BadStructure)
    else
      var (item, s1) :- ReadName(s, left, max, []);
      if !ValidUtf16(item.0) then Bad(BadStructure) else
      var (more, s2) :- ReadNames(s1, item.1, n - 1, max);
      Got([item.0] + more, s2)
  }

  datatype Props = Props(files: seq<Entry>, emptyStream: Option<seq<bool>>, emptyFile: Option<seq<bool>>,
                         anti: Option<seq<bool>>)

  function WithNames(files: seq<Entry>, names: seq<seq<u16>>): (r: seq<Entry>)
    requires |files| == |names|
    ensures |r| == |files|
  {
    seq(|files|, i requires 0 <= i < |files| => files[i].(name := names[i]))
  }

  function WithStamps(files: seq<Entry>, k: Kind, flags: seq<bool>, values: seq<nat>): (r: seq<Entry>)
    requires |files| == |flags| == |values| && forall i | 0 <= i < |values| :: values[i] < TWO_64
    ensures |r| == |files|
  {
    seq(|files|, i requires 0 <= i < |files| =>
      k.Put(files[i], if flags[i] then Stamp(true, values[i]) else k.Of(files[i]).(has := false)))
  }

  function ReadNamesRecord(s: seq<byte>, size: u64, st: Props, b: Bounds): (p: Parse<Props>)
    ensures p.Got? ==> |p.rest| <= |s| && |p.value.files| == |st.files|
  {
    var (external, s1) :- ReadByte(s);
    if external != 0 then Bad(Unsupported)
    else if size == 0 || (size - 1) % 2 != 0 then Bad(BadStructure)
    else if !b.Allows(size, b.maxTotalNameBytes) then Bad(Limit)
    else
      var (names, s2) :- ReadNames(s1, size - 1, |st.files|, b.maxNameBytes);
      Got(st.(files := WithNames(st.files, names)), s2)
  }

  function ReadStamps(s: seq<byte>, st: Props, k: Kind): (p: Parse<Props>)
    ensures p.Got? ==> |p.rest| <= |s| && |p.value.files| == |st.files|
  {
    Powers();
    var (flags, s1) :- ReadAllOrBits(s, |st.files|);
    var (external, s2) :- ReadByte(s1);
    if external != 0 then Bad(Unsupported) else
    var (values, s3) :- ReadWhere(s2, k.Width(), flags);
    Got(st.(files := WithStamps(st.files, k, flags, values)), s3)
  }

  function KindOf(nid: byte): (k: Option<Kind>)
    ensures k.Some? ==> k.value.Nid() == nid
  {
    if nid == K_C_TIME then Some(Created) else if nid == K_A_TIME then Some(Accessed)
    else if nid == K_M_TIME then Some(Modified) else if nid == K_WIN_ATTRIBUTES then Some(Attributes) else None
  }

  // One record, whose size is believed only where it has to be skipped.
  function ReadProperty(nid: byte, s: seq<byte>, size: u64, st: Props, b: Bounds): (p: Parse<Props>)
    ensures p.Got? ==> |p.rest| <= |s| && |p.value.files| == |st.files|
  {
    if nid == K_EMPTY_STREAM then
      var (flags, s1) :- ReadBits(s, |st.files|);
      Got(st.(emptyStream := Some(flags)), s1)
    else if nid == K_EMPTY_FILE then
      if st.emptyStream.None? then Bad(BadStructure) else
      var (flags, s1) :- ReadBits(s, CountSet(st.emptyStream.value));
      Got(st.(emptyFile := Some(flags)), s1)
    else if nid == K_ANTI then
      if st.emptyStream.None? then Bad(BadStructure) else
      var (flags, s1) :- ReadBits(s, CountSet(st.emptyStream.value));
      Got(st.(anti := Some(flags)), s1)
    else if nid == K_NAME then ReadNamesRecord(s, size, st, b)
    else if KindOf(nid).Some? then ReadStamps(s, st, KindOf(nid).value)
    else if nid == K_START_POS then Bad(Unsupported)
    else if size > b.bytes then Bad(Limit)
    else Got(st, if size <= |s| then s[size..] else [])
  }

  function ReadProperties(s: seq<byte>, st: Props, b: Bounds): (p: Parse<Props>)
    ensures p.Got? ==> |p.rest| < |s| && |p.value.files| == |st.files|
    decreases |s|
  {
    var (nid, s1) :- ReadByte(s);
    if nid == K_END then Got(st, s1) else
    NumberShrinks(s1);
    var (size, s2) :- ReadNumber(s1);
    var (next, s3) :- ReadProperty(nid, s2, size, st, b);
    ReadProperties(s3, next, b)
  }

  predicate Told(flags: Option<seq<bool>>, i: nat, otherwise: bool) {
    match flags
    case Some(f) => Flag(f, i)
    case None => otherwise
  }

  // An entry with its stream, or known to have none; `k` and `e` count the
  // entries of either sort before it.
  function Settled(f: Entry, streamless: bool, k: nat, e: nat, st: Props, subs: Option<SubStreams>): Option<Entry> {
    if streamless then
      Some(f.(hasStream := false, isDirectory := !Told(st.emptyFile, e, false), isAnti := Told(st.anti, e, false),
              hasCrc := false, size := 0))
    else match subs
      case None => None
      case Some(u) =>
        if k < |u.crcs| && k < |u.sizes| then
          Some(f.(hasStream := true, isDirectory := false, isAnti := false,
                  hasCrc := Flag(u.hasCrc, k), crc := u.crcs[k], size := u.sizes[k]))
        else None
  }

  function Settle(files: seq<Entry>, i: nat, k: nat, e: nat, st: Props, subs: Option<SubStreams>): (r: Option<seq<Entry>>)
    requires i <= |files|
    ensures r.Some? ==> |r.value| == |files| - i
    decreases |files| - i
  {
    if i == |files| then Some([]) else
    var streamless := Told(st.emptyStream, i, false);
    match Settled(files[i], streamless, k, e, st, subs)
    case None => None
    case Some(f) =>
      match Settle(files, i + 1, if streamless then k else k + 1, if streamless then e + 1 else e, st, subs)
      case None => None
      case Some(more) => Some([f] + more)
  }

  function ReadFilesInfo(s: seq<byte>, subs: Option<SubStreams>, b: Bounds): (p: Parse<seq<Entry>>)
    ensures p.Got? ==> |p.rest| <= |s|
  {
    NumberShrinks(s);
    var (n, s1) :- ReadNumber(s);
    if !b.Allows(n, b.maxEntries) then Bad(Limit) else
    var (st, s2) :- ReadProperties(s1, Props(seq(n, _ => Blank()), None, None, None), b);
    match Settle(st.files, 0, 0, 0, st, subs)
    case None => Bad(BadStructure)
    case Some(files) => Got(files, s2)
  }
}
