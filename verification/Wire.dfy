// Fixed-width words, runs of numbers, and the byte streams that headers are
// written to and read from.
module Wire {
  import opened Common
  import opened Numbers

  // The number in the first `w` bytes, low byte first.
  function Word(s: seq<byte>, w: nat): (v: nat)
    requires w <= |s|
    ensures v < Pow256(w)
  {
    if w == 0 then 0 else s[0] + 256 * Word(s[1..], w - 1)
  }

  function ReadByte(s: seq<byte>): (p: Parse<byte>)
    ensures p.Got? ==> |p.rest| < |s|
  {
    if s == [] then Bad(Eof) else Got(s[0], s[1..])
  }

  function ReadBytes(s: seq<byte>, n: nat): (p: Parse<seq<byte>>)
    ensures p.Got? ==> |p.rest| <= |s| && |p.value| == n
  {
    if |s| < n then Bad(Eof) else Got(s[..n], s[n..])
  }

  function ReadNumbers(s: seq<byte>, n: nat): (p: Parse<seq<u64>>)
    ensures p.Got? ==> |p.value| == n && |p.rest| <= |s|
  {
    if n == 0 then Got([], s) else
    var (v, s1) :- ReadNumber(s);
    NumberShrinks(s);
    var (vs, s2) :- ReadNumbers(s1, n - 1);
    Got([v] + vs, s2)
  }

  function NumbersBytes(vs: seq<u64>): seq<byte> {
    if vs == [] then [] else NumberBytes(vs[0]) + NumbersBytes(vs[1..])
  }

  // A word of `w` bytes for every flag that is set, zero for the others.
  function ReadWhere(s: seq<byte>, w: nat, flags: seq<bool>): (p: Parse<seq<nat>>)
    ensures p.Got? ==> |p.value| == |flags| && |p.rest| <= |s| && forall i | 0 <= i < |p.value| :: p.value[i] < Pow256(w)
    decreases |flags|
  {
    if flags == [] then Got([], s)
    else if !flags[0] then
      var (vs, s1) :- ReadWhere(s, w, flags[1..]);
      Got([0] + vs, s1)
    else if |s| < w then Bad(Eof)
    else
      var (vs, s1) :- ReadWhere(s[w..], w, flags[1..]);
      Got([Word(s, w)] + vs, s1)
  }

  function WhereBytes(vs: seq<nat>, w: nat, flags: seq<bool>): seq<byte>
    requires |vs| == |flags|
  {
    if vs == [] then []
    else (if flags[0] then BytesOf(vs[0], w) else []) + WhereBytes(vs[1..], w, flags[1..])
  }

  function Where(vs: seq<nat>, flags: seq<bool>): (r: seq<nat>)
    requires |vs| == |flags|
    ensures |r| == |vs|
  {
    seq(|vs|, i requires 0 <= i < |vs| => if flags[i] then vs[i] else 0)
  }

  lemma {:induction false} MoreShrinks(first: byte, i: nat, s: seq<byte>)
    requires i <= 8
    ensures ReadMore(first, i, s).Got? ==> |ReadMore(first, i, s).rest| <= |s|
    decreases 8 - i
  {
    hide Pow2, Pow256;
    if i < 8 && s != [] {
      MoreShrinks(first, i + 1, s[1..]);
    }
  }

  lemma NumberShrinks(s: seq<byte>)
    ensures ReadNumber(s).Got? ==> |ReadNumber(s).rest| < |s|
  {
    hide ReadMore;
    if s != [] {
      MoreShrinks(s[0], 0, s[1..]);
    }
  }

  lemma {:induction false} WordRoundTrip(v: nat, w: nat, tail: seq<byte>)
    requires v < Pow256(w)
    ensures Word(BytesOf(v, w) + tail, w) == v
  {
    if w > 0 {
      var s := BytesOf(v, w) + tail;
      assert s[1..] == BytesOf(v / 256, w - 1) + tail;
      WordRoundTrip(v / 256, w - 1, tail);
    }
  }

  lemma {:induction false} NumbersRoundTrip(vs: seq<u64>, tail: seq<byte>)
    ensures ReadNumbers(NumbersBytes(vs) + tail, |vs|) == Got(vs, tail)
  {
    hide ReadNumber, NumberBytes;
    if vs == [] {
      assert [] + tail == tail;
    } else {
      var more := NumbersBytes(vs[1..]) + tail;
      assert NumbersBytes(vs) + tail == NumberBytes(vs[0]) + more;
      NumberRoundTrip(vs[0], more);
      NumbersRoundTrip(vs[1..], tail);
      assert [vs[0]] + vs[1..] == vs;
    }
  }

  lemma WordTaken(v: nat, w: nat, more: seq<byte>)
    requires v < Pow256(w)
    ensures var s := BytesOf(v, w) + more; Word(s, w) == v && s[w..] == more
  {
    hide Word, BytesOf;
    WordRoundTrip(v, w, more);
  }

  lemma {:induction false} WhereRoundTrip(vs: seq<nat>, w: nat, flags: seq<bool>, tail: seq<byte>)
    requires |vs| == |flags| && forall i | 0 <= i < |vs| :: vs[i] < Pow256(w)
    ensures ReadWhere(WhereBytes(vs, w, flags) + tail, w, flags) == Got(Where(vs, flags), tail)
    decreases |vs|
  {
    hide Pow256, Word, BytesOf;
    if vs == [] {
      assert [] + tail == tail;
    } else {
      var rest := WhereBytes(vs[1..], w, flags[1..]);
      WhereRoundTrip(vs[1..], w, flags[1..], tail);
      assert Where(vs, flags) == [if flags[0] then vs[0] else 0] + Where(vs[1..], flags[1..]);
      if flags[0] {
        WordTaken(vs[0], w, rest + tail);
        assert (BytesOf(vs[0], w) + rest) + tail == BytesOf(vs[0], w) + (rest + tail);
      } else {
        assert [] + rest == rest;
      }
    }
  }

  // --- The streams ---

  // A reader that agrees with what the parse says.
  ghost predicate Agrees<T>(r: Result<T, HeaderError>, rest: seq<byte>, p: Parse<T>) {
    match p
    case Got(v, s) => r == Ok(v) && rest == s
    case Bad(e) => r == Err(e)
  }

  // What remains to be read of a header.
  class Cursor {
    var rest: seq<byte>

    constructor (bytes: seq<byte>)
      ensures rest == bytes
    {
      rest := bytes;
    }

    method U8() returns (r: Result<byte, HeaderError>)
      modifies this
      ensures Agrees(r, rest, ReadByte(old(rest)))
    {
      if rest == [] {
        return Err(Eof);
      }
      r := Ok(rest[0]);
      rest := rest[1..];
    }

    method Exact(n: nat) returns (r: Result<seq<byte>, HeaderError>)
      modifies this
      ensures Agrees(r, rest, ReadBytes(old(rest), n))
    {
      if |rest| < n {
        return Err(Eof);
      }
      r := Ok(rest[..n]);
      rest := rest[n..];
    }

    // Seeking past the end is allowed; there is nothing to read there.
    method Skip(n: nat)
      modifies this
      ensures rest == if n <= |old(rest)| then old(rest)[n..] else []
    {
      rest := if n <= |rest| then rest[n..] else [];
    }

    // A word of `w` bytes.
    method Fixed(w: nat) returns (r: Result<nat, HeaderError>)
      modifies this
      ensures |old(rest)| < w ==> r == Err(Eof)
      ensures |old(rest)| >= w ==> r == Ok(Word(old(rest), w)) && rest == old(rest)[w..]
      ensures r.Ok? ==> r.value < Pow256(w)
    {
      if |rest| < w {
        return Err(Eof);
      }
      r := Ok(Word(rest, w));
      rest := rest[w..];
    }

    // Each leading one of the first byte takes in another byte, above the last.
    method Number() returns (r: Result<u64, HeaderError>)
      modifies this
      ensures Agrees(r, rest, ReadNumber(old(rest)))
    {
      var first :- U8();
      var value: int, unit: int, mask: int := 0, 1, 0x80;
      ghost var start := rest;
      ghost var whole := ReadMore(first, 0, start);
      PlusNothing(first, start);
      hide ReadMore, Half;
      for i := 0 to 8
        invariant Half(first, i, value, unit, mask, rest, whole)
      {
        HalfStep(first, i, value, unit, mask, rest, whole);
        if first / mask % 2 == 0 {
          return Ok(value + first % mask * unit);
        }
        var b :- U8();
        value := value + b * unit;
        unit := unit * 256;
        mask := mask / 2;
      }
      HalfEnds(first, value, unit, mask, rest, whole);
      return Ok(value);
    }

    // `n` numbers, one after the other.
    method Numbers(n: nat) returns (r: Result<seq<u64>, HeaderError>)
      modifies this
      ensures Agrees(r, rest, ReadNumbers(old(rest), n))
    {
      var values: seq<u64> := [];
      PrependNothing(ReadNumbers(rest, n));
      for i := 0 to n
        invariant |values| == i
        invariant Prepend(values, ReadNumbers(rest, n - i)) == ReadNumbers(old(rest), n)
      {
        hide ReadNumber, Prepend, ReadNumbers;
        PrependNumber(values, rest, n - i);
        var v :- Number();
        values := values + [v];
      }
      assert values + [] == values;
      return Ok(values);
    }

    // A word of `w` bytes for each set flag.
    method Where(w: nat, flags: seq<bool>) returns (r: Result<seq<nat>, HeaderError>)
      modifies this
      ensures Agrees(r, rest, ReadWhere(old(rest), w, flags))
    {
      var values: seq<nat> := [];
      PrependNothing(ReadWhere(rest, w, flags));
      for i := 0 to |flags|
        invariant |values| == i
        invariant Prepend(values, ReadWhere(rest, w, flags[i..])) == ReadWhere(old(rest), w, flags)
      {
        hide Prepend, Word, ReadWhere;
        PrependWord(values, rest, w, flags[i..]);
        assert flags[i..][1..] == flags[i + 1..];
        var v := 0;
        if flags[i] {
          v :- Fixed(w);
        }
        values := values + [v];
      }
      assert values + [] == values && flags[|flags|..] == [];
      return Ok(values);
    }
  }

  // The header being written.
  class Buffer {
    var bytes: seq<byte>

    constructor ()
      ensures bytes == []
    {
      bytes := [];
    }

    method U8(b: byte)
      modifies this
      ensures bytes == old(bytes) + [b]
    {
      bytes := bytes + [b];
    }

    method All(s: seq<byte>)
      modifies this
      ensures bytes == old(bytes) + s
    {
      bytes := bytes + s;
    }

    method Fixed(v: nat, w: nat)
      modifies this
      ensures bytes == old(bytes) + BytesOf(v, w)
    {
      bytes := bytes + BytesOf(v, w);
    }

    // The first byte collects a leading one for each byte that will follow.
    method Number(v: u64)
      modifies this
      ensures bytes == old(bytes) + NumberBytes(v)
    {
      hide Pow2, High;
      Powers();
      var first: int, mask: int, i: int := 0, 0x80, 0;
      while i < 8
        invariant 0 <= i <= 8 && Extra(v, i) == Extra(v, 0) && bytes == old(bytes)
        invariant first == 256 - Pow2(8 - i) && (i < 8 ==> mask == Pow2(7 - i) && Pow2(8 - i) == 2 * mask)
      {
        if v < Pow2(7 * (i + 1)) {
          first := first + High(v, i);
          break;
        }
        first := first + mask;
        mask := mask / 2;
        i := i + 1;
        Halves(i);
      }
      FirstFits(v, i);
      assert first == FirstByte(v);
      U8(first);
      var value: nat := v;
      Regroup(old(bytes), first, BytesOf(value, i));
      while i > 0
        invariant 0 <= i
        invariant bytes + BytesOf(value, i) == old(bytes) + NumberBytes(v)
      {
        label Before:
        U8(value % 256);
        assert bytes + BytesOf(value / 256, i - 1) == old@Before(bytes) + BytesOf(value, i);
        value := value / 256;
        i := i - 1;
      }
    }

    method Numbers(vs: seq<u64>)
      modifies this
      ensures bytes == old(bytes) + NumbersBytes(vs)
    {
      hide NumberBytes;
      for i := 0 to |vs|
        invariant bytes + NumbersBytes(vs[i..]) == old(bytes) + NumbersBytes(vs)
      {
        label Before:
        Number(vs[i]);
        assert vs[i..][1..] == vs[i + 1..];
        assert bytes + NumbersBytes(vs[i + 1..]) == old@Before(bytes) + NumbersBytes(vs[i..]);
      }
    }

    method Where(vs: seq<nat>, w: nat, flags: seq<bool>)
      requires |vs| == |flags|
      modifies this
      ensures bytes == old(bytes) + WhereBytes(vs, w, flags)
    {
      hide BytesOf;
      for i := 0 to |vs|
        invariant bytes + WhereBytes(vs[i..], w, flags[i..]) == old(bytes) + WhereBytes(vs, w, flags)
      {
        label Before:
        assert vs[i..][1..] == vs[i + 1..] && flags[i..][1..] == flags[i + 1..];
        if flags[i] {
          Fixed(vs[i], w);
        }
        assert bytes + WhereBytes(vs[i + 1..], w, flags[i + 1..])
            == old@Before(bytes) + WhereBytes(vs[i..], w, flags[i..]);
      }
    }
  }

  lemma Regroup(a: seq<byte>, b: byte, c: seq<byte>)
    ensures (a + [b]) + c == a + ([b] + c)
  {
  }

  lemma Halves(i: nat)
    requires i <= 8
    ensures i < 8 ==> Pow2(8 - i) == 2 * Pow2(7 - i)
    ensures 0 < i < 8 ==> Pow2(8 - i) / 2 == Pow2(7 - i)
  {
  }

  // What has been read already, in front of what is read next.
  ghost function Prepend<T>(front: seq<T>, p: Parse<seq<T>>): Parse<seq<T>> {
    match p
    case Got(vs, s) => Got(front + vs, s)
    case Bad(e) => Bad(e)
  }

  lemma PrependNothing<T>(p: Parse<seq<T>>)
    ensures Prepend([], p) == p
  {
    if p.Got? {
      assert [] + p.value == p.value;
    }
  }

  lemma PrependMore<T>(front: seq<T>, v: T, p: Parse<seq<T>>)
    ensures Prepend(front + [v], p)
         == Prepend(front, match p case Got(vs, s) => Got([v] + vs, s) case Bad(e) => Bad(e))
  {
    if p.Got? {
      assert (front + [v]) + p.value == front + ([v] + p.value);
    }
  }

  lemma PrependNumber(front: seq<u64>, s: seq<byte>, n: nat)
    requires n > 0
    ensures match ReadNumber(s)
      case Got(v, rest) => Prepend(front, ReadNumbers(s, n)) == Prepend(front + [v], ReadNumbers(rest, n - 1))
      case Bad(e) => Prepend(front, ReadNumbers(s, n)) == Bad(e)
  {
    hide ReadNumber;
    if ReadNumber(s).Got? {
      PrependMore(front, ReadNumber(s).value, ReadNumbers(ReadNumber(s).rest, n - 1));
    }
  }

  lemma PrependWord(front: seq<nat>, s: seq<byte>, w: nat, flags: seq<bool>)
    requires flags != []
    ensures flags[0] && |s| < w ==> Prepend(front, ReadWhere(s, w, flags)) == Bad(Eof)
    ensures !flags[0] ==> Prepend(front, ReadWhere(s, w, flags)) == Prepend(front + [0], ReadWhere(s, w, flags[1..]))
    ensures flags[0] && |s| >= w ==>
      Prepend(front, ReadWhere(s, w, flags)) == Prepend(front + [Word(s, w)], ReadWhere(s[w..], w, flags[1..]))
  {
    hide Word;
    if !flags[0] {
      PrependMore(front, 0, ReadWhere(s, w, flags[1..]));
    } else if |s| >= w {
      PrependMore(front, Word(s, w), ReadWhere(s[w..], w, flags[1..]));
    }
  }

  // `i` bytes of a number are in `value`; reading the others gives `whole`.
  ghost predicate Half(first: byte, i: int, value: int, unit: int, mask: int, rest: seq<byte>, whole: Parse<nat>) {
    && 0 <= i <= 8 && mask == (if i == 8 then 0 else Pow2(7 - i)) && unit == Pow256(i) && 0 <= value
    && Plus(value, unit, ReadMore(first, i, rest)) == whole
  }

  lemma HalfStep(first: byte, i: int, value: int, unit: int, mask: int, rest: seq<byte>, whole: Parse<nat>)
    requires 0 <= i < 8 && Half(first, i, value, unit, mask, rest, whole)
    ensures mask > 0
    ensures first / mask % 2 == 0 ==> 0 <= value + first % mask * unit && whole == Got(value + first % mask * unit, rest)
    ensures first / mask % 2 != 0 && rest == [] ==> whole == Bad(Eof)
    ensures first / mask % 2 != 0 && rest != [] ==>
      Half(first, i + 1, value + rest[0] * unit, unit * 256, mask / 2, rest[1..], whole)
  {
    hide Pow2, Pow256, ReadMore, Plus;
    MoreUnfolds(first, i, value, rest);
    PowersStep(i);
    Times(first % mask, unit);
    if rest != [] {
      Times(rest[0], unit);
    }
  }

  lemma HalfEnds(first: byte, value: int, unit: int, mask: int, rest: seq<byte>, whole: Parse<nat>)
    requires Half(first, 8, value, unit, mask, rest, whole)
    ensures 0 <= value && whole == Got(value, rest)
  {
  }

  // What is still to be read counts `unit` times and adds to `value`.
  ghost function Plus(value: nat, unit: nat, p: Parse<nat>): Parse<nat> {
    match p
    case Got(v, rest) => Times(unit, v); Got(value + unit * v, rest)
    case Bad(e) => Bad(e)
  }

  lemma Times(a: nat, b: nat)
    ensures a * b >= 0
  {
  }

  lemma Commute(a: int, b: int)
    ensures a * b == b * a
  {
  }

  lemma PlusStep(value: nat, unit: nat, b: byte, more: Parse<nat>)
    ensures unit * b >= 0
    ensures Plus(value + unit * b, unit * 256, more)
         == Plus(value, unit, match more case Got(v, rest) => Got(b + 256 * v, rest) case Bad(e) => Bad(e))
  {
    if more.Got? {
      var v := more.value;
      calc {
        unit * (b + 256 * v);
        unit * b + unit * (256 * v);
        unit * b + (unit * 256) * v;
      }
    }
  }

  lemma PlusNothing(first: byte, s: seq<byte>)
    ensures Half(first, 0, 0, 1, 0x80, s, ReadMore(first, 0, s))
  {
    hide ReadMore;
    Powers();
  }

  lemma MoreUnfolds(first: byte, i: nat, value: nat, s: seq<byte>)
    requires i < 8
    ensures var p := Plus(value, Pow256(i), ReadMore(first, i, s));
      if first / Pow2(7 - i) % 2 == 0 then p == Got(value + first % Pow2(7 - i) * Pow256(i), s)
      else if s == [] then p == Bad(Eof)
      else p == Plus(value + s[0] * Pow256(i), Pow256(i) * 256, ReadMore(first, i + 1, s[1..]))
  {
    hide Pow2, Pow256;
    if first / Pow2(7 - i) % 2 == 0 {
      Commute(first % Pow2(7 - i), Pow256(i));
    } else if s != [] {
      PlusStep(value, Pow256(i), s[0], ReadMore(first, i + 1, s[1..]));
      Commute(s[0], Pow256(i));
    }
  }

  lemma PowersStep(i: nat)
    requires i < 8
    ensures Pow256(i + 1) == 256 * Pow256(i)
    ensures Pow2(7 - i) / 2 == if i == 7 then 0 else Pow2(7 - (i + 1))
  {
  }

  // --- Concatenations, grouped to the right ---

  lemma Nest2(x: seq<byte>, a: seq<byte>, b: seq<byte>)
    ensures x + a + b == x + (a + b)
  {
  }

  lemma Nest3(x: seq<byte>, a: seq<byte>, b: seq<byte>, c: seq<byte>)
    ensures x + a + b + c == x + (a + (b + c))
  {
    Nest2(x + a, b, c);
    Nest2(x, a, b + c);
  }

  lemma Nest4(x: seq<byte>, a: seq<byte>, b: seq<byte>, c: seq<byte>, d: seq<byte>)
    ensures x + a + b + c + d == x + (a + (b + (c + d)))
  {
    Nest3(x + a, b, c, d);
    Nest2(x, a, b + (c + d));
  }

  lemma Nest5(x: seq<byte>, a: seq<byte>, b: seq<byte>, c: seq<byte>, d: seq<byte>, e: seq<byte>)
    ensures x + a + b + c + d + e == x + (a + (b + (c + (d + e))))
  {
    Nest4(x + a, b, c, d, e);
    Nest2(x, a, b + (c + (d + e)));
  }

  lemma Nest6(x: seq<byte>, a: seq<byte>, b: seq<byte>, c: seq<byte>, d: seq<byte>, e: seq<byte>, f: seq<byte>)
    ensures x + a + b + c + d + e + f == x + (a + (b + (c + (d + (e + f)))))
  {
    Nest5(x + a, b, c, d, e, f);
    Nest2(x, a, b + (c + (d + (e + f))));
  }

  lemma {:induction false} WhereConsumes(s: seq<byte>, w: nat, flags: seq<bool>)
    ensures ReadWhere(s, w, flags).Got? ==> |ReadWhere(s, w, flags).rest| == |s| - w * CountSet(flags)
    decreases |flags|
  {
    hide Word;
    if flags != [] {
      WhereConsumes(if flags[0] && |s| >= w then s[w..] else s, w, flags[1..]);
      assert w * (1 + CountSet(flags[1..])) == w + w * CountSet(flags[1..]);
    }
  }

  function CountSet(flags: seq<bool>): (n: nat)
    ensures n <= |flags|
  {
    if flags == [] then 0 else (if flags[0] then 1 else 0) + CountSet(flags[1..])
  }
}
