// Printing and reading the entries of an archive, step by step.
module FilesIo {
  import opened Common
  import opened Numbers
  import opened Bits
  import opened Wire
  import opened BitSets
  import opened HeaderFormat
  import opened PackFormat
  import opened SubStreams
  import opened FilesFormat
  import opened FilesBack

  // --- Printing ---

  method WriteEmptyStreams(files: seq<Entry>, header: Buffer)
    requires |files| < TWO_64
    modifies header
    ensures header.bytes == old(header.bytes) + VectorPart(K_EMPTY_STREAM, EmptyStreams(files))
  {
    hide BitBytes, Octets, NumberBytes, BitSet.Flags, BitSet.Valid;
    ghost var flags := EmptyStreams(files);
    var n := 0;
    while n < |files| && files[n].hasStream
      invariant 0 <= n <= |files| && header.bytes == old(header.bytes)
      invariant forall i | 0 <= i < n :: !flags[i]
    {
      n := n + 1;
    }
    if n == |files| {
      assert !Any(flags) && header.bytes + [] == header.bytes;
      return;
    }
    assert flags[n] && Any(flags);
    header.U8(K_EMPTY_STREAM);
    var bits := EmptySet(files);
    var temp := new Buffer();
    WriteBitSet(temp, bits);
    EmptyFront(BitBytes(flags));
    OctetsFit(|flags|);
    header.Number(|temp.bytes|);
    header.All(temp.bytes);
    Nest3(old(header.bytes), [K_EMPTY_STREAM], NumberBytes(|temp.bytes|), temp.bytes);
  }

  method EmptySet(files: seq<Entry>) returns (bits: BitSet)
    ensures fresh(bits) && bits.Valid() && bits.Flags() == EmptyStreams(files)
  {
    ghost var flags := EmptyStreams(files);
    bits := new BitSet.WithCapacity(|files|);
    for i := 0 to |files|
      invariant bits.Valid() && fresh(bits) && bits.bitCount == |files|
      invariant forall j: nat :: bits.Contains(j) == (j < i && flags[j])
    {
      if !files[i].hasStream {
        var _ := bits.Insert(i);
      }
    }
    SameFlags(bits.Flags(), flags);
  }

  // The vector of the streamless entries that `nid` is about.
  function Chosen(nid: byte, files: seq<Entry>): (f: seq<bool>)
    ensures |f| == |Streamless(files)|
  {
    if nid == K_EMPTY_FILE then EmptyFiles(files) else AntiItems(files)
  }

  lemma ChosenStep(nid: byte, files: seq<Entry>, i: nat)
    requires i < |files|
    ensures Chosen(nid, files[..i + 1]) == Chosen(nid, files[..i]) +
      (if files[i].hasStream then [] else [if nid == K_EMPTY_FILE then !files[i].isDirectory else files[i].isAnti])
  {
    hide Streamless;
    StreamlessSplit(files, i);
  }

  lemma ChosenNone(nid: byte, files: seq<Entry>)
    ensures Chosen(nid, files[..0]) == []
  {
  }

  lemma TrimStep(v: seq<bool>, x: bool)
    ensures Trim(v + [x]) == if x then v + [x] else Trim(v)
    ensures Any(v + [x]) == (x || Any(v))
  {
    assert (v + [x])[..|v|] == v;
    if Any(v) {
      var i :| 0 <= i < |v| && v[i];
      assert (v + [x])[i];
    }
    assert x ==> (v + [x])[|v|];
  }

  // The set grows with the entries put into it, so it ends with the last one.
  lemma GrownSet(v: seq<bool>, was: seq<bool>, now: seq<bool>)
    requires was == Trim(v) && |now| == |v| + 1
    requires forall i: nat :: Flag(now, i) == (i == |v| || Flag(was, i))
    ensures now == v + [true]
  {
    forall i: nat ensures Flag(now, i) == Flag(v + [true], i) {
      TrimKeeps(v, i);
    }
    SameFlags(now, v + [true]);
  }

  method WriteStreamless(nid: byte, files: seq<Entry>, header: Buffer)
    requires |files| < TWO_64 && (nid == K_EMPTY_FILE || nid == K_ANTI)
    modifies header
    ensures |Streamless(files)| < TWO_64
    ensures header.bytes == old(header.bytes) + TrimmedPart(nid, Chosen(nid, files))
  {
    hide BitBytes, Octets, NumberBytes, Chosen, Trim, Any, BitSet.Flags, BitSet.Valid;
    var some, count := false, 0;
    var bits := new BitSet.WithCapacity(0);
    ChosenNone(nid, files);
    NothingTrimmed();
    ghost var v: seq<bool> := [];
    for i := 0 to |files|
      invariant bits.Valid() && fresh(bits) && header.bytes == old(header.bytes)
      invariant v == Chosen(nid, files[..i]) && count == |v| && bits.Flags() == Trim(v) && some == Any(v)
    {
      ChosenStep(nid, files, i);
      if !files[i].hasStream {
        var it := if nid == K_EMPTY_FILE then !files[i].isDirectory else files[i].isAnti;
        some := some || it;
        TrimStep(v, it);
        if it {
          ghost var was := bits.Flags();
          var _ := bits.Insert(count);
          GrownSet(v, was, bits.Flags());
        }
        v := v + [it];
        count := count + 1;
      } else {
        EmptyEnd(v);
      }
    }
    assert files[..|files|] == files;
    if some {
      header.U8(nid);
      var temp := new Buffer();
      WriteBitSet(temp, bits);
      EmptyFront(BitBytes(Trim(v)));
      OctetsFit(|Trim(v)|);
      header.Number(|temp.bytes|);
      header.All(temp.bytes);
      Nest3(old(header.bytes), [nid], NumberBytes(|temp.bytes|), temp.bytes);
    } else {
      EmptyEnd(header.bytes);
    }
  }

  lemma EmptyEnd<T>(s: seq<T>)
    ensures s + [] == s
  {
  }

  lemma NothingTrimmed()
    ensures Trim([]) == [] && !Any([]) && seq(0, _ => false) == []
  {
  }

  method WriteNames(files: seq<Entry>, header: Buffer)
    requires |NamesBytes(files)| + 1 < TWO_64
    modifies header
    ensures header.bytes == old(header.bytes) + NamesPart(files)
  {
    hide NumberBytes;
    header.U8(K_NAME);
    var temp := new Buffer();
    temp.U8(0);
    EmptyFront([0]);
    assert files[0..] == files;
    for i := 0 to |files|
      invariant header.bytes == old(header.bytes) + [K_NAME] && fresh(temp)
      invariant temp.bytes + NamesBytes(files[i..]) == [0] + NamesBytes(files)
    {
      assert files[i..][1..] == files[i + 1..];
      Nest3(temp.bytes, UnitsBytes(files[i].name), [0, 0], NamesBytes(files[i + 1..]));
      WriteUnits(files[i].name, temp);
      temp.All([0, 0]);
    }
    EmptyEnd(temp.bytes);
    assert files[|files|..] == [];
    header.Number(|temp.bytes|);
    header.All(temp.bytes);
    Nest3(old(header.bytes), [K_NAME], NumberBytes(|temp.bytes|), temp.bytes);
  }

  method WriteUnits(name: seq<u16>, out: Buffer)
    modifies out
    ensures out.bytes == old(out.bytes) + UnitsBytes(name)
  {
    assert name[0..] == name;
    for i := 0 to |name|
      invariant out.bytes + UnitsBytes(name[i..]) == old(out.bytes) + UnitsBytes(name)
    {
      assert name[i..][1..] == name[i + 1..];
      Nest2(out.bytes, [name[i] % 256, name[i] / 256], UnitsBytes(name[i + 1..]));
      out.All([name[i] % 256, name[i] / 256]);
    }
    EmptyEnd(out.bytes);
  }

  // A date, or the attributes, of those entries that have it.
  method WriteStamps(files: seq<Entry>, k: Kind, header: Buffer)
    requires |StampsBytes(files, k)| < TWO_64
    modifies header
    ensures header.bytes == old(header.bytes) + StampsPart(files, k)
  {
    hide BitBytes, NumberBytes, WhereBytes, StampsBytes;
    ghost var flags := Flags(files, k);
    var num := 0;
    for i := 0 to |files|
      invariant 0 <= num <= i && header.bytes == old(header.bytes)
      invariant num > 0 <==> exists j :: 0 <= j < i && flags[j]
      invariant num == i <==> forall j | 0 <= j < i :: flags[j]
    {
      assert flags[i] == k.Of(files[i]).has;
      if k.Of(files[i]).has {
        num := num + 1;
      }
    }
    if num > 0 {
      header.U8(k.Nid());
      var temp := new Buffer();
      WriteStampFlags(files, k, num != |files|, temp);
      temp.U8(0);
      temp.Where(Values(files, k), k.Width(), Flags(files, k));
      StampsParts(files, k);
      header.Number(|temp.bytes|);
      header.All(temp.bytes);
      Nest3(old(header.bytes), [k.Nid()], NumberBytes(|temp.bytes|), temp.bytes);
    } else {
      EmptyEnd(header.bytes);
    }
  }

  lemma StampsParts(files: seq<Entry>, k: Kind)
    ensures [] + (if All(Flags(files, k)) then [1] else [0] + BitBytes(Flags(files, k)))
              + [0] + WhereBytes(Values(files, k), k.Width(), Flags(files, k)) == StampsBytes(files, k)
  {
    hide BitBytes, WhereBytes;
    var head := if All(Flags(files, k)) then [1] else [0] + BitBytes(Flags(files, k));
    EmptyFront(head);
    Nest2(head, [0], WhereBytes(Values(files, k), k.Width(), Flags(files, k)));
  }

  method WriteStampFlags(files: seq<Entry>, k: Kind, some: bool, out: Buffer)
    requires some <==> !All(Flags(files, k))
    modifies out
    ensures out.bytes == old(out.bytes) + (if All(Flags(files, k)) then [1] else [0] + BitBytes(Flags(files, k)))
  {
    if !some {
      out.U8(1);
      return;
    }
    out.U8(0);
    var times := new BitSet.WithCapacity(|files|);
    for i := 0 to |files|
      invariant times.Valid() && fresh(times) && times.bitCount == |files| && out.bytes == old(out.bytes) + [0]
      invariant forall j: nat :: times.Contains(j) == (j < i && Flags(files, k)[j])
    {
      if k.Of(files[i]).has {
        var _ := times.Insert(i);
      }
    }
    SameFlags(times.Flags(), Flags(files, k));
    WriteBitSet(out, times);
    Nest2(old(out.bytes), [0], BitBytes(Flags(files, k)));
  }

  method WriteFilesInfo(files: seq<Entry>, header: Buffer)
    requires Printable(files)
    modifies header
    ensures header.bytes == old(header.bytes) + FilesBytes(files, [])
  {
    hide NumberBytes, VectorPart, TrimmedPart, NamesPart, StampsPart, NamesBytes, StampsBytes, EmptyStreams, Streamless;
    header.U8(K_FILES_INFO);
    header.Number(|files|);
    WriteEmptyStreams(files, header);
    WriteStreamless(K_EMPTY_FILE, files, header);
    WriteStreamless(K_ANTI, files, header);
    WriteNames(files, header);
    ghost var before := header.bytes;
    WriteStamps(files, Created, header);
    WriteStamps(files, Accessed, header);
    WriteStamps(files, Modified, header);
    WriteStamps(files, Attributes, header);
    header.U8(K_END);
    FilesParts(old(header.bytes), files);
  }

  lemma FilesParts(x: seq<byte>, files: seq<Entry>)
    requires Printable(files)
    ensures x + [K_FILES_INFO] + NumberBytes(|files|) + VectorPart(K_EMPTY_STREAM, EmptyStreams(files))
              + TrimmedPart(K_EMPTY_FILE, EmptyFiles(files)) + TrimmedPart(K_ANTI, AntiItems(files)) + NamesPart(files)
              + StampsPart(files, Created) + StampsPart(files, Accessed) + StampsPart(files, Modified)
              + StampsPart(files, Attributes) + [K_END]
         == x + FilesBytes(files, [])
  {
    hide NumberBytes, VectorPart, TrimmedPart, NamesPart, StampsPart, NamesBytes, StampsBytes, EmptyStreams, Streamless;
    var a, c, d := VectorPart(K_EMPTY_STREAM, EmptyStreams(files)), TrimmedPart(K_EMPTY_FILE, EmptyFiles(files)), TrimmedPart(K_ANTI, AntiItems(files));
    var y := x + [K_FILES_INFO] + NumberBytes(|files|) + a + c + d + NamesPart(files);
    Nest5(y, StampsPart(files, Created), StampsPart(files, Accessed), StampsPart(files, Modified), StampsPart(files, Attributes), [K_END]);
    EmptyEnd([K_END]);
    var t := StampsPart(files, Created) + (StampsPart(files, Accessed) +
      (StampsPart(files, Modified) + (StampsPart(files, Attributes) + [K_END])));
    Nest6(x + [K_FILES_INFO], NumberBytes(|files|), a, c, d, NamesPart(files), t);
    Nest2(x, [K_FILES_INFO], NumberBytes(|files|) + (a + (c + (d + (NamesPart(files) + t)))));
  }

  // --- Reading ---

  // Names one after the other, while there are bytes left for them.
  class NamesReader {
    const reader: Cursor
    const maxBytes: nat
    const maxNameBytes: nat
    var readBytes: nat
    var cache: seq<u16>

    constructor (reader: Cursor, maxBytes: nat, maxNameBytes: nat)
      ensures this.reader == reader && this.maxBytes == maxBytes && this.maxNameBytes == maxNameBytes && readBytes == 0
    {
      this.reader, this.maxBytes, this.maxNameBytes := reader, maxBytes, maxNameBytes;
      readBytes, cache := 0, [];
    }

    ghost predicate Valid()
      reads this
    {
      maxBytes % 2 == 0 && readBytes % 2 == 0 && readBytes <= maxBytes
    }

    method Next() returns (item: Option<Result<seq<u16>, HeaderError>>)
      requires Valid()
      modifies this, reader
      ensures Valid() && readBytes >= old(readBytes)
      ensures item.None? <==> old(readBytes) == maxBytes
      ensures item.None? ==> reader.rest == old(reader.rest) && readBytes == old(readBytes)
      ensures item.Some? ==> readBytes > old(readBytes)
      ensures item.Some? ==>
        match ReadName(old(reader.rest), maxBytes - old(readBytes), maxNameBytes, [])
        case Bad(e) => item.value == Err(e)
        case Got(v, rest) =>
          && reader.rest == rest && maxBytes - readBytes == v.1
          && item.value == (if ValidUtf16(v.0) then Ok(v.0) else Err(BadStructure))
    {
      if maxBytes <= readBytes {
        return None;
      }
      hide ReadName, ValidUtf16, Word;
      cache := [];
      NameEnds(maxNameBytes);
      ghost var whole := ReadName(reader.rest, maxBytes - readBytes, maxNameBytes, []);
      while readBytes < maxBytes
        invariant Valid() && readBytes >= old(readBytes)
        invariant ReadName(reader.rest, maxBytes - readBytes, maxNameBytes, cache) == whole
        decreases maxBytes - readBytes
      {
        NameUnfolds(reader.rest, maxBytes - readBytes, maxNameBytes, cache);
        var unit := reader.Fixed(2);
        readBytes := readBytes + 2;
        if unit.Err? {
          return Some(Err(unit.error));
        }
        Powers();
        if unit.value == 0 {
          break;
        }
        if |cache| * 2 >= maxNameBytes {
          return Some(Err(Limit));
        }
        cache := cache + [unit.value];
      }
      assert whole == Got((cache, maxBytes - readBytes), reader.rest);
      return Some(if ValidUtf16(cache) then Ok(cache) else Err(BadStructure));
    }
  }

  lemma NameUnfolds(s: seq<byte>, left: nat, max: nat, got: seq<u16>)
    requires left % 2 == 0 && left > 0
    ensures |s| < 2 ==> ReadName(s, left, max, got) == Bad(Eof)
    ensures |s| >= 2 ==> 0 <= Word(s, 2) < 0x1_0000
    ensures |s| >= 2 ==>
      ReadName(s, left, max, got) ==
        (if Word(s, 2) == 0 then Got((got, left - 2), s[2..])
         else if 2 * |got| >= max then Bad(Limit)
         else ReadName(s[2..], left - 2, max, got + [Word(s, 2)]))
  {
    if |s| >= 2 {
      Powers();
      assert Word(s[2..], 0) == 0 && s[1..][1..] == s[2..];
      assert Word(s[1..], 1) == s[1];
      var low: int, high: int := s[0], s[1];
      assert Word(s, 2) == low + 256 * high;
    }
  }

  lemma NameEnds(max: nat)
    ensures forall s: seq<byte>, got: seq<u16> :: ReadName(s, 0, max, got) == Got((got, 0), s)
  {
  }

  lemma PrependName(front: seq<seq<u16>>, s: seq<byte>, left: nat, n: nat, max: nat)
    requires left % 2 == 0 && left > 0 && n > 0
    ensures match ReadName(s, left, max, [])
      case Bad(e) => Prepend(front, ReadNames(s, left, n, max)) == Bad(e)
      case Got(v, rest) =>
        Prepend(front, ReadNames(s, left, n, max)) ==
          if !ValidUtf16(v.0) then Bad(BadStructure)
          else Prepend(front + [v.0], ReadNames(rest, v.1, n - 1, max))
  {
    hide ReadName, ValidUtf16;
    var p := ReadName(s, left, max, []);
    if p.Got? && ValidUtf16(p.value.0) {
      PrependMore(front, p.value.0, ReadNames(p.rest, p.value.1, n - 1, max));
    }
  }

  // `k` names are in: what is left of the bytes decides about the others.
  lemma NamesEnd(front: seq<seq<u16>>, s: seq<byte>, left: nat, n: nat, max: nat)
    requires left % 2 == 0
    ensures n == 0 && left > 0 ==> Prepend(front, ReadNames(s, left, n, max)) == Bad(BadStructure)
    ensures left == 0 ==> Prepend(front, ReadNames(s, left, n, max)) == if n == 0 then Got(front, s) else Bad(BadStructure)
  {
    EmptyEnd(front);
  }

  // The first entries have their names.
  ghost predicate Named(named: seq<Entry>, files: seq<Entry>, got: seq<seq<u16>>) {
    && |got| <= |files| == |named|
    && forall i | 0 <= i < |files| :: named[i] == if i < |got| then files[i].(name := got[i]) else files[i]
  }

  lemma NamedStarts(files: seq<Entry>)
    ensures Named(files, files, [])
  {
  }

  lemma NamedNext(named: seq<Entry>, files: seq<Entry>, got: seq<seq<u16>>, name: seq<u16>)
    requires Named(named, files, got) && |got| < |files|
    ensures |named| == |files|
    ensures Named(named[|got| := named[|got|].(name := name)], files, got + [name])
  {
  }

  lemma NamedAll(named: seq<Entry>, files: seq<Entry>, got: seq<seq<u16>>)
    requires Named(named, files, got) && |got| == |files|
    ensures named == WithNames(files, got)
  {
  }

  // What is read, with `n` entries still to be named and the names in `got`.
  ghost function Naming(names: NamesReader, got: seq<seq<u16>>, n: nat): Parse<seq<seq<u16>>>
    requires names.Valid()
    reads names, names.reader
  {
    Prepend(got, ReadNames(names.reader.rest, names.maxBytes - names.readBytes, n, names.maxNameBytes))
  }

  // The next name, or the end, with `n` entries still to be named.
  method ParseName(names: NamesReader, ghost got: seq<seq<u16>>, n: nat) returns (item: Option<Result<seq<u16>, HeaderError>>)
    requires names.Valid()
    modifies names, names.reader
    ensures names.Valid() && (item.Some? ==> names.readBytes > old(names.readBytes))
    ensures item.None? ==> old(Naming(names, got, n)) == if n == 0 then Got(got, names.reader.rest) else Bad(BadStructure)
    ensures item.Some? && n == 0 ==> old(Naming(names, got, n)) == Bad(BadStructure)
    ensures item.Some? && item.value.Err? && n > 0 ==> old(Naming(names, got, n)) == Bad(item.value.error)
    ensures item.Some? && item.value.Ok? && n > 0 ==>
      old(Naming(names, got, n)) == Naming(names, got + [item.value.value], n - 1)
  {
    hide ReadName, ReadNames, Prepend, ValidUtf16;
    NamesEnd(got, names.reader.rest, names.maxBytes - names.readBytes, n, names.maxNameBytes);
    if names.readBytes < names.maxBytes && n > 0 {
      PrependName(got, names.reader.rest, names.maxBytes - names.readBytes, n, names.maxNameBytes);
    }
    item := names.Next();
  }

  method ParseNames(header: Cursor, files: seq<Entry>, size: nat, max: nat) returns (r: Result<seq<Entry>, HeaderError>)
    requires size % 2 == 0
    modifies header
    ensures match ReadNames(old(header.rest), size, |files|, max)
      case Bad(e) => r == Err(e)
      case Got(names, rest) => r == Ok(WithNames(files, names)) && header.rest == rest
  {
    hide ReadNames, Prepend, Named, WithNames, Naming, NamesReader.Valid;
    NamedStarts(files);
    var named := files;
    var names := new NamesReader(header, size, max);
    ghost var whole := ReadNames(header.rest, size, |files|, max);
    ghost var got: seq<seq<u16>> := [];
    NamingStarts(names, |files|);
    var next := 0;
    while true
      invariant names.Valid() && fresh(names) && names.reader == header && names.maxBytes == size
      invariant |got| == next <= |files| && Named(named, files, got)
      invariant Naming(names, got, |files| - next) == whole
      decreases size - names.readBytes
    {
      ReadInside(names);
      var item := ParseName(names, got, |files| - next);
      if item.None? {
        break;
      }
      if next >= |files| {
        return Err(BadStructure);
      }
      var name :- item.value;
      NamedNext(named, files, got, name);
      named := named[next := named[next].(name := name)];
      got := got + [name];
      next := next + 1;
    }
    if next != |files| {
      return Err(BadStructure);
    }
    NamedAll(named, files, got);
    return Ok(named);
  }

  lemma NamingStarts(names: NamesReader, n: nat)
    requires names.maxBytes % 2 == 0 && names.readBytes == 0
    ensures names.Valid() && Naming(names, [], n) == ReadNames(names.reader.rest, names.maxBytes, n, names.maxNameBytes)
  {
    PrependNothing(ReadNames(names.reader.rest, names.maxBytes, n, names.maxNameBytes));
  }

  lemma ReadInside(names: NamesReader)
    requires names.Valid()
    ensures names.readBytes <= names.maxBytes
  {
  }

  // The entries up to `i` have their dates.
  ghost predicate Stamping(now: seq<Entry>, files: seq<Entry>, k: Kind, flags: seq<bool>, values: seq<nat>) {
    && |now| == |files| == |flags| && |values| <= |files| && (forall i | 0 <= i < |values| :: values[i] < TWO_64)
    && forall i | 0 <= i < |files| :: now[i] ==
         if i >= |values| then files[i]
         else k.Put(files[i], if flags[i] then Stamp(true, values[i]) else k.Of(files[i]).(has := false))
  }

  lemma StampNext(now: seq<Entry>, files: seq<Entry>, k: Kind, flags: seq<bool>, values: seq<nat>, v: nat)
    requires Stamping(now, files, k, flags, values) && |values| < |files| && v < TWO_64
    ensures var i := |values|;
      Stamping(now[i := k.Put(now[i], if flags[i] then Stamp(true, v) else k.Of(now[i]).(has := false))],
               files, k, flags, values + [v])
  {
  }

  lemma StampDone(now: seq<Entry>, files: seq<Entry>, k: Kind, flags: seq<bool>, values: seq<nat>)
    requires Stamping(now, files, k, flags, values) && |values| == |files|
    ensures now == WithStamps(files, k, flags, values)
  {
  }

  lemma PrependNoWords(front: seq<nat>, s: seq<byte>, w: nat)
    ensures Prepend(front, ReadWhere(s, w, [])) == Got(front, s)
  {
    EmptyEnd(front);
  }

  method ParseStampWords(header: Cursor, files: seq<Entry>, k: Kind, flags: seq<bool>)
      returns (r: Result<seq<Entry>, HeaderError>)
    requires |flags| == |files|
    modifies header
    ensures match ReadWhere(old(header.rest), k.Width(), flags)
      case Bad(e) => r == Err(e)
      case Got(values, rest) =>
        && |values| == |files| && (forall i | 0 <= i < |values| :: values[i] < TWO_64)
        && r == Ok(WithStamps(files, k, flags, values)) && header.rest == rest
  {
    hide ReadWhere, Prepend, Word, Stamping, WithStamps;
    var now := files;
    var w := k.Width();
    ghost var values: seq<nat>, whole := [], ReadWhere(header.rest, w, flags);
    Powers();
    PrependNothing(whole);
    StampFirst(files, k, flags);
    assert flags[0..] == flags;
    for i := 0 to |files|
      invariant |now| == |files| && |values| == i && Stamping(now, files, k, flags, values)
      invariant Prepend(values, ReadWhere(header.rest, w, flags[i..])) == whole
    {
      PrependWord(values, header.rest, w, flags[i..]);
      assert flags[i..][1..] == flags[i + 1..];
      var stamp := k.Of(now[i]).(has := flags[i]);
      ghost var v := 0;
      if flags[i] {
        var word :- header.Fixed(w);
        stamp := Stamp(true, word);
        v := word;
      }
      StampNext(now, files, k, flags, values, v);
      now := now[i := k.Put(now[i], stamp)];
      values := values + [v];
    }
    assert flags[|files|..] == [];
    PrependNoWords(values, header.rest, w);
    StampDone(now, files, k, flags, values);
    StampsSmall(now, files, k, flags, values);
    return Ok(now);
  }

  lemma StampFirst(files: seq<Entry>, k: Kind, flags: seq<bool>)
    requires |flags| == |files|
    ensures Stamping(files, files, k, flags, [])
  {
  }

  lemma StampsSmall(now: seq<Entry>, files: seq<Entry>, k: Kind, flags: seq<bool>, values: seq<nat>)
    requires Stamping(now, files, k, flags, values)
    ensures forall i | 0 <= i < |values| :: values[i] < TWO_64
  {
  }

  method ParseStamps(header: Cursor, st: Props, k: Kind) returns (r: Result<Props, HeaderError>)
    modifies header
    ensures Agrees(r, header.rest, ReadStamps(old(header.rest), st, k))
  {
    hide ReadAllOrBits, ReadWhere, WithStamps;
    var flags :- ReadAllOrBitSet(header, |st.files|);
    var external :- header.U8();
    if external != 0 {
      return Err(Unsupported);
    }
    var files :- ParseStampWords(header, st.files, k, flags);
    return Ok(st.(files := files));
  }

  method ParseNamesRecord(header: Cursor, size: u64, st: Props, b: Bounds) returns (r: Result<Props, HeaderError>)
    modifies header
    ensures Agrees(r, header.rest, ReadNamesRecord(old(header.rest), size, st, b))
  {
    hide ReadNames, WithNames;
    var external :- header.U8();
    if external != 0 {
      return Err(Unsupported);
    }
    if size == 0 || (size - 1) % 2 != 0 {
      return Err(BadStructure);
    }
    var n :- b.Count(size, b.maxTotalNameBytes);
    var files :- ParseNames(header, st.files, n - 1, b.maxNameBytes);
    return Ok(st.(files := files));
  }

  method ParseProperty(nid: byte, header: Cursor, size: u64, st: Props, b: Bounds) returns (r: Result<Props, HeaderError>)
    modifies header
    ensures Agrees(r, header.rest, ReadProperty(nid, old(header.rest), size, st, b))
  {
    hide ReadBits, ReadNamesRecord, ReadStamps;
    if nid == K_EMPTY_STREAM {
      var flags :- ReadBitSet(header, |st.files|);
      return Ok(st.(emptyStream := Some(flags)));
    } else if nid == K_EMPTY_FILE || nid == K_ANTI {
      if st.emptyStream.None? {
        return Err(BadStructure);
      }
      var flags :- ReadBitSet(header, CountSet(st.emptyStream.value));
      return Ok(if nid == K_EMPTY_FILE then st.(emptyFile := Some(flags)) else st.(anti := Some(flags)));
    } else if nid == K_NAME {
      r := ParseNamesRecord(header, size, st, b);
    } else if KindOf(nid).Some? {
      r := ParseStamps(header, st, KindOf(nid).value);
    } else if nid == K_START_POS {
      return Err(Unsupported);
    } else {
      if size > b.bytes {
        return Err(Limit);
      }
      header.Skip(size);
      return Ok(st);
    }
  }

  method ParseProperties(header: Cursor, st0: Props, b: Bounds) returns (r: Result<Props, HeaderError>)
    modifies header
    ensures Agrees(r, header.rest, ReadProperties(old(header.rest), st0, b))
  {
    hide ReadNumber, ReadProperty;
    var st := st0;
    while true
      invariant ReadProperties(header.rest, st, b) == ReadProperties(old(header.rest), st0, b)
      decreases |header.rest|
    {
      var nid :- header.U8();
      if nid == K_END {
        return Ok(st);
      }
      NumberShrinks(header.rest);
      var size :- header.Number();
      st :- ParseProperty(nid, header, size, st, b);
    }
  }

  ghost function PrependSome(front: seq<Entry>, r: Option<seq<Entry>>): Option<seq<Entry>> {
    if r.Some? then Some(front + r.value) else None
  }

  lemma SettleStep(done: seq<Entry>, files: seq<Entry>, i: nat, k: nat, e: nat, st: Props, subs: Option<SubStreams>)
    requires i < |files|
    ensures var streamless := Told(st.emptyStream, i, false);
      var f := Settled(files[i], streamless, k, e, st, subs);
      PrependSome(done, Settle(files, i, k, e, st, subs)) ==
        if f.None? then None
        else PrependSome(done + [f.value],
               Settle(files, i + 1, if streamless then k else k + 1, if streamless then e + 1 else e, st, subs))
  {
    hide Settled, Told;
    var streamless := Told(st.emptyStream, i, false);
    var f := Settled(files[i], streamless, k, e, st, subs);
    var more := Settle(files, i + 1, if streamless then k else k + 1, if streamless then e + 1 else e, st, subs);
    if f.Some? && more.Some? {
      assert (done + [f.value]) + more.value == done + ([f.value] + more.value);
    }
  }

  lemma SettleEnds(done: seq<Entry>, files: seq<Entry>, k: nat, e: nat, st: Props, subs: Option<SubStreams>)
    ensures PrependSome(done, Settle(files, |files|, k, e, st, subs)) == Some(done)
    ensures PrependSome([], Settle(files, 0, 0, 0, st, subs)) == Settle(files, 0, 0, 0, st, subs)
  {
    EmptyEnd(done);
    if Settle(files, 0, 0, 0, st, subs).Some? {
      EmptyFront2(Settle(files, 0, 0, 0, st, subs).value);
    }
  }

  lemma EmptyFront2<T>(s: seq<T>)
    ensures [] + s == s
  {
  }

  // Sizes and checksums go to the entries with a stream, in order.
  method SettleFiles(st: Props, subs: Option<SubStreams>) returns (r: Option<seq<Entry>>)
    ensures r == Settle(st.files, 0, 0, 0, st, subs)
  {
    hide Settle, Settled, Told, PrependSome;
    var files := st.files;
    var k, e := 0, 0;
    ghost var done: seq<Entry> := [];
    SettleEnds([], files, 0, 0, st, subs);
    for i := 0 to |files|
      invariant |files| == |st.files| && |done| == i && files[..i] == done && files[i..] == st.files[i..]
      invariant PrependSome(done, Settle(st.files, i, k, e, st, subs)) == Settle(st.files, 0, 0, 0, st, subs)
    {
      SettleStep(done, st.files, i, k, e, st, subs);
      assert files[i] == files[i..][0] == st.files[i];
      var streamless := Told(st.emptyStream, i, false);
      var f := Settled(files[i], streamless, k, e, st, subs);
      if f.None? {
        NoneStays(done);
        return None;
      }
      files := files[i := f.value];
      assert files[i + 1..] == st.files[i..][1..];
      done := done + [f.value];
      if streamless {
        e := e + 1;
      } else {
        k := k + 1;
      }
    }
    SettleEnds(done, st.files, k, e, st, subs);
    assert files[..|files|] == files;
    return Some(files);
  }

  lemma NoneStays(done: seq<Entry>)
    ensures PrependSome(done, None) == None
  {
  }

  method ParseFilesInfo(header: Cursor, subs: Option<SubStreams>, b: Bounds) returns (r: Result<seq<Entry>, HeaderError>)
    modifies header
    ensures Agrees(r, header.rest, ReadFilesInfo(old(header.rest), subs, b))
  {
    hide ReadNumber, ReadProperties, Settle;
    var number :- header.Number();
    var n :- b.Count(number, b.maxEntries);
    var st :- ParseProperties(header, Props(seq(n, _ => Blank()), None, None, None), b);
    var files := SettleFiles(st, subs);
    if files.None? {
      return Err(BadStructure);
    }
    return Ok(files.value);
  }
}
