// Decrypting in the caller's own buffer, whatever its size and however the
// ciphertext comes in.
module AesDecoder {
  import opened Common
  import opened Cbc
  import opened Sources

  datatype DecoderError = IllegalBlockSize | Crypto(error: AesError)

  // Ciphertext short of a block, and the plaintext of the block a small read
  // had to decrypt.
  datatype Held = Held(done: bool, carry: seq<byte>, plain: seq<byte>, plainStart: nat, plainEnd: nat, pos: nat)

  // Ciphertext taken in, plaintext given out, and whether its end was an error.
  datatype Told = Told(taken: seq<byte>, out: seq<byte>, failed: bool)

  // The whole blocks among the ciphertext taken in.
  ghost function Front(st: Held, g: Told): seq<byte>
    requires |st.carry| <= |g.taken|
  {
    g.taken[..|g.taken| - |st.carry|]
  }

  lemma StillWhole(taken: seq<byte>, s: seq<byte>, before: seq<byte>, n: nat)
    requires n == |s| <= |before| && s == before[..n]
    ensures (taken + s) + before[n..] == taken + before
  {
    assert before == s + before[n..];
    assert taken + (s + before[n..]) == (taken + s) + before[n..];
  }

  // The whole blocks decrypt to what was given out and what is held back.
  ghost predicate Flow(c: Cipher, iv0: Block, iv: Block, st: Held, g: Told) {
    && |st.carry| <= 16 && |st.plain| == 16 && st.plainStart <= st.plainEnd <= 16
    && |st.carry| <= |g.taken| && Whole(Front(st, g)) && g.taken == Front(st, g) + st.carry
    && iv == Last(iv0, Front(st, g))
    && Decrypt(c, iv0, Front(st, g)) == g.out + st.plain[st.plainStart..st.plainEnd]
    && st.pos == |g.out|
  }

  lemma FlowStarts(c: Cipher, iv0: Block, plain: seq<byte>)
    requires |plain| == 16
    ensures Flow(c, iv0, iv0, Held(false, [], plain, 0, 0, 0), Told([], [], false))
  {
  }

  lemma FlowDrains(c: Cipher, iv0: Block, iv: Block, st: Held, g: Told, n: nat)
    requires Flow(c, iv0, iv, st, g) && n <= st.plainEnd - st.plainStart
    ensures var s := st.plain[st.plainStart..st.plainStart + n];
      Flow(c, iv0, iv, st.(plainStart := st.plainStart + n, pos := st.pos + n), g.(out := g.out + s))
  {
    hide Decrypt, Last;
    var s, t := st.plain[st.plainStart..st.plainStart + n], st.plain[st.plainStart + n..st.plainEnd];
    assert st.plain[st.plainStart..st.plainEnd] == s + t;
    assert g.out + (s + t) == (g.out + s) + t;
  }

  lemma FlowTakes(c: Cipher, iv0: Block, iv: Block, st: Held, g: Told, s: seq<byte>)
    requires Flow(c, iv0, iv, st, g) && |st.carry| + |s| <= 16
    ensures Flow(c, iv0, iv, st.(carry := st.carry + s), g.(taken := g.taken + s))
  {
    hide Decrypt, Last;
    var front := Front(st, g);
    assert (front + st.carry) + s == front + (st.carry + s);
    assert Front(st.(carry := st.carry + s), g.(taken := g.taken + s)) == front;
  }

  // The carry has become a whole block.
  lemma FlowBlock(c: Cipher, iv0: Block, iv: Block, st: Held, g: Told)
    requires Flow(c, iv0, iv, st, g) && |st.carry| == 16 && st.plainStart == st.plainEnd
    ensures Flow(c, iv0, Last(iv, st.carry),
                 st.(carry := [], plain := Decrypt(c, iv, st.carry), plainStart := 0, plainEnd := 16), g)
  {
    var front, next := Front(st, g), st.(carry := [], plain := Decrypt(c, iv, st.carry), plainStart := 0, plainEnd := 16);
    DecryptSplit(c, iv0, front, st.carry);
    hide Decrypt, Last;
    assert Front(next, g) == front + st.carry == g.taken && g.taken + [] == g.taken;
    assert g.out + st.plain[st.plainStart..st.plainEnd] == g.out;
    assert next.plain[0..16] == next.plain;
  }

  lemma Regrouped(front: seq<byte>, carry: seq<byte>, s: seq<byte>, run: seq<byte>, rest: seq<byte>)
    requires carry + s == run + rest
    ensures (front + carry) + s == (front + run) + rest
  {
    assert (front + carry) + s == front + (carry + s);
    assert front + (run + rest) == (front + run) + rest;
  }

  lemma FrontIs(st: Held, g: Told, x: seq<byte>)
    requires g.taken == x + st.carry
    ensures Front(st, g) == x
  {
  }

  // Whole blocks `run` go out at once, and `rest` is carried.
  lemma FlowRun(c: Cipher, iv0: Block, iv: Block, st: Held, g: Told, s: seq<byte>, run: seq<byte>, rest: seq<byte>)
    requires Flow(c, iv0, iv, st, g) && st.plainStart == st.plainEnd
    requires st.carry + s == run + rest && Whole(run) && |rest| < 16
    ensures var p := Decrypt(c, iv, run);
      Flow(c, iv0, Last(iv, run), st.(carry := rest, pos := st.pos + |run|), g.(taken := g.taken + s, out := g.out + p))
  {
    hide Decrypt, Last, Front;
    var front, p := Front(st, g), Decrypt(c, iv, run);
    var st', g' := st.(carry := rest, pos := st.pos + |run|), g.(taken := g.taken + s, out := g.out + p);
    DecryptSplit(c, iv0, front, run);
    Regrouped(front, st.carry, s, run, rest);
    FrontIs(st', g', front + run);
    EmptySlice(st.plain, st.plainStart, g.out);
    EmptySlice(st.plain, st.plainStart, g'.out);
  }

  lemma EmptySlice(plain: seq<byte>, k: nat, out: seq<byte>)
    requires k <= |plain|
    ensures out + plain[k..k] == out
  {
  }

  lemma FlowShape(c: Cipher, iv0: Block, iv: Block, st: Held, g: Told)
    requires Flow(c, iv0, iv, st, g)
    ensures |st.carry| <= 16 && |st.plain| == 16 && st.plainStart <= st.plainEnd <= 16
  {
  }

  // The ciphertext without a last part that is short of a block.
  function Blocks(s: seq<byte>): (r: seq<byte>)
    ensures Whole(r) && r <= s && |s| - |r| < 16
  {
    s[..|s| - |s| % 16]
  }

  // The plaintext of every whole block has been given out.
  ghost predicate Complete(c: Cipher, iv0: Block, whole: seq<byte>, out: seq<byte>) {
    out == Decrypt(c, iv0, Blocks(whole))
  }

  lemma BlocksAre(s: seq<byte>, front: seq<byte>, rest: seq<byte>)
    requires s == front + rest && Whole(front) && |rest| < 16
    ensures Blocks(s) == front
  {
  }

  lemma FlowComplete(c: Cipher, iv0: Block, iv: Block, st: Held, g: Told)
    requires Flow(c, iv0, iv, st, g) && st.plainStart == st.plainEnd && |st.carry| < 16
    ensures Complete(c, iv0, g.taken, g.out) && (Whole(g.taken) <==> st.carry == [])
  {
    hide Decrypt, Last;
    BlocksAre(g.taken, Front(st, g), st.carry);
    EmptySlice(st.plain, st.plainStart, g.out);
  }

  // What has come out so far is the beginning of what all the blocks decrypt to.
  lemma FlowPrefix(c: Cipher, iv0: Block, iv: Block, st: Held, g: Told, rest: seq<byte>)
    requires Flow(c, iv0, iv, st, g) && |st.carry| < 16
    ensures g.out <= Decrypt(c, iv0, Blocks(g.taken + rest))
  {
    hide Decrypt, Last, Blocks;
    var front, more := Front(st, g), st.carry + rest;
    var whole := Blocks(more);
    var part := more[|whole|..];
    assert more == whole + part;
    Regroup3(front, st.carry, rest);
    Regroup3(front, whole, part);
    BlocksAre(g.taken + rest, front + whole, part);
    DecryptSplit(c, iv0, front, whole);
    Prefixes(g.out, st.plain[st.plainStart..st.plainEnd], Decrypt(c, Last(iv0, front), whole));
  }

  lemma Regroup3(a: seq<byte>, b: seq<byte>, c: seq<byte>)
    ensures (a + b) + c == a + (b + c)
  {
  }

  lemma Prefixes(a: seq<byte>, b: seq<byte>, c: seq<byte>)
    ensures a <= (a + b) + c
  {
  }

  class Aes256Sha256Decoder {
    const cipher: WholeRunCbc
    const input: Source
    var st: Held
    ghost const iv0: Block
    ghost const whole: seq<byte>
    ghost var g: Told

    ghost predicate Valid()
      reads this, cipher, input
    {
      && Flow(cipher.cipher, iv0, cipher.iv, st, g) && |st.carry| < 16
      && g.taken + input.rest == whole
      && (st.done ==> input.rest == [] && (g.failed <==> st.carry != []))
      && (!st.done ==> !g.failed)
    }

    constructor (block: Cipher, iv: Block, input: Source)
      ensures Valid() && this.input == input && fresh(cipher) && cipher.cipher == block && iv0 == iv
      ensures whole == input.rest && g == Told([], [], false)
    {
      this.input := input;
      cipher := new WholeRunCbc(block, iv);
      st := Held(false, [], seq(16, _ => 0), 0, 0, 0);
      iv0, whole, g := iv, input.rest, Told([], [], false);
      new;
      FlowStarts(block, iv, seq(16, _ => 0));
      assert [] + input.rest == input.rest;
    }

    // The end: clean only when no part of a block is left over.
    method Finish() returns (r: Result<nat, DecoderError>)
      requires Valid() && !st.done && input.rest == []
      modifies `st, `g
      ensures Valid() && st == old(st).(done := true) && g == old(g).(failed := st.carry != [])
      ensures r == if st.carry == [] then Ok(0) else Err(IllegalBlockSize)
    {
      st, g := st.(done := true), g.(failed := st.carry != []);
      return if st.carry == [] then Ok(0) else Err(IllegalBlockSize);
    }

    // Ciphertext until the carry is a whole block, or there is no more.
    method FillCarry() returns (ended: bool)
      requires Valid() && !st.done && st.plainStart == st.plainEnd
      modifies `st, `g, input
      ensures Flow(cipher.cipher, iv0, cipher.iv, st, g) && g.taken + input.rest == whole
      ensures st == old(st).(carry := st.carry) && g == old(g).(taken := g.taken)
      ensures if ended then input.rest == [] && |st.carry| < 16 else |st.carry| == 16
    {
      hide Flow;
      FlowShape(cipher.cipher, iv0, cipher.iv, st, g);
      while |st.carry| < 16
        invariant Flow(cipher.cipher, iv0, cipher.iv, st, g) && g.taken + input.rest == whole && |st.carry| <= 16
        invariant st == old(st).(carry := st.carry) && g == old(g).(taken := g.taken)
        decreases |input.rest|
      {
        ghost var before := input.rest;
        var s := input.Take(16 - |st.carry|);
        if s == [] {
          return true;
        }
        FlowTakes(cipher.cipher, iv0, cipher.iv, st, g, s);
        StillWhole(g.taken, s, before, |s|);
        st, g := st.(carry := st.carry + s), g.(taken := g.taken + s);
      }
      return false;
    }

    // The carry, decrypted, is what is held of the plaintext.
    method DecryptCarry()
      requires Flow(cipher.cipher, iv0, cipher.iv, st, g) && |st.carry| == 16 && st.plainStart == st.plainEnd
      modifies `st, cipher
      ensures Flow(cipher.cipher, iv0, cipher.iv, st, g)
      ensures st == old(st).(carry := [], plain := st.plain, plainStart := 0, plainEnd := 16)
    {
      hide Flow, Decrypt, Last;
      FlowBlock(cipher.cipher, iv0, cipher.iv, st, g);
      var carry := st.carry;
      var data := new byte[16](i requires 0 <= i < 16 => carry[i]);
      assert data[..16] == carry;
      var e := cipher.DecryptRun(data, 16);
      st := st.(carry := [], plain := data[..16], plainStart := 0, plainEnd := 16);
    }

    // One block, for a caller that reads less than one.
    method FillOneBlock() returns (r: Result<nat, DecoderError>)
      requires Valid() && !st.done && st.plainStart == st.plainEnd
      modifies this, cipher, input
      ensures Valid() && g.out == old(g.out)
      ensures r.Ok? && r.value > 0 ==> !st.done && st.plainStart < st.plainEnd
      ensures r.Ok? && r.value == 0 ==> st.done && !g.failed && st.plainStart == st.plainEnd
      ensures r.Err? ==> r.error.IllegalBlockSize? && st.done && g.failed && st.plainStart == st.plainEnd
    {
      hide Flow;
      var ended := FillCarry();
      if ended {
        r := Finish();
        return;
      }
      DecryptCarry();
      return Ok(16);
    }

    // What is held of the plaintext, as far as `buf` takes it.
    method DrainPlain(buf: array<byte>) returns (n: nat)
      requires Valid() && buf.Length > 0 && st.plainStart < st.plainEnd
      modifies `st, `g, buf
      ensures Valid() && 0 < n <= buf.Length && g == old(g).(out := old(g.out) + buf[..n]) && st.done == old(st.done)
    {
      hide Flow;
      FlowShape(cipher.cipher, iv0, cipher.iv, st, g);
      n := if st.plainEnd - st.plainStart < buf.Length then st.plainEnd - st.plainStart else buf.Length;
      ghost var s := st.plain[st.plainStart..st.plainStart + n];
      forall i | 0 <= i < n {
        buf[i] := st.plain[st.plainStart + i];
      }
      assert buf[..n] == s;
      FlowDrains(cipher.cipher, iv0, cipher.iv, st, g, n);
      st, g := st.(plainStart := st.plainStart + n, pos := st.pos + n), g.(out := g.out + s);
    }

    // Reading into a buffer of any size: what comes out is what the ciphertext
    // decrypts to; nothing more comes only at a clean end, or behind an error.
    method Read(buf: array<byte>) returns (r: Result<nat, DecoderError>)
      requires Valid()
      modifies this, cipher, input, buf
      ensures Valid()
      ensures r.Ok? ==> r.value <= buf.Length && g.out == old(g.out) + buf[..r.value]
      ensures r == Ok(0) && buf.Length > 0 ==>
        Complete(cipher.cipher, iv0, whole, g.out) && (g.failed || Whole(whole))
      ensures r.Ok? && r.value > 0 ==> (g.failed <==> old(g.failed))
      ensures old(g.failed) ==> r.Ok? && g.failed
      ensures r.Ok? && !old(g.failed) ==> !g.failed
      ensures r.Err? ==> r.error.IllegalBlockSize? && g.failed && g.out == old(g.out)
      ensures r.Err? ==> !Whole(whole) && Complete(cipher.cipher, iv0, whole, g.out)
      ensures g.out <= Decrypt(cipher.cipher, iv0, Blocks(whole))
    {
      hide Flow, Complete, Whole, Blocks;
      FlowShape(cipher.cipher, iv0, cipher.iv, st, g);
      Prefix();
      assert buf[..0] == [] && g.out + [] == g.out;
      if buf.Length == 0 {
        return Ok(0);
      }
      if st.plainStart < st.plainEnd {
        var n := DrainPlain(buf);
        Prefix();
        return Ok(n);
      }
      if st.done {
        AtEnd();
        return Ok(0);
      }
      if buf.Length < 16 {
        r := FillOneBlock();
        Prefix();
        if r.Err? || r.value == 0 {
          AtEnd();
          return;
        }
        var n := DrainPlain(buf);
        Prefix();
        return Ok(n);
      }
      r := ReadBulk(buf);
      Prefix();
      if r.Err? || r.value == 0 {
        AtEnd();
      }
    }

    // At the end all blocks are out, and what is left over made it an error.
    lemma AtEnd()
      requires Valid() && st.done && st.plainStart == st.plainEnd
      ensures Complete(cipher.cipher, iv0, whole, g.out) && (g.failed <==> !Whole(whole))
    {
      hide Decrypt, Last;
      assert g.taken + [] == g.taken == whole;
      FlowComplete(cipher.cipher, iv0, cipher.iv, st, g);
    }

    lemma Prefix()
      requires Valid()
      ensures g.out <= Decrypt(cipher.cipher, iv0, Blocks(whole))
    {
      FlowPrefix(cipher.cipher, iv0, cipher.iv, st, g, input.rest);
    }

    // Ciphertext behind the carry in `buf`, until there is a block or no more.
    method Gather(buf: array<byte>, capacity: nat) returns (filled: nat, ended: bool, ghost s: seq<byte>)
      requires |st.carry| < 16 <= capacity <= buf.Length
      modifies input, buf
      ensures |st.carry| <= filled <= capacity && buf[..filled] == st.carry + s
      ensures s + input.rest == old(input.rest) && filled == |st.carry| + |s|
      ensures if ended then input.rest == [] && filled < 16 else filled >= 16
    {
      filled, ended, s := |st.carry|, false, [];
      Put(buf, 0, st.carry);
      assert st.carry + s == st.carry && s + input.rest == input.rest && [] + st.carry == st.carry && buf[..0] == [];
      while filled < 16
        invariant |st.carry| <= filled <= capacity && filled == |st.carry| + |s|
        invariant buf[..filled] == st.carry + s && s + input.rest == old(input.rest)
        decreases |input.rest|
      {
        ghost var before := input.rest;
        var t := input.Take(capacity - filled);
        if t == [] {
          ended := true;
          return;
        }
        Put(buf, filled, t);
        MoreGathered(st.carry, s, t, before);
        s := s + t;
        filled := filled + |t|;
      }
    }

    // `t` behind the first `at` bytes of `buf`.
    static method Put(buf: array<byte>, at: nat, t: seq<byte>)
      requires at + |t| <= buf.Length
      modifies buf
      ensures buf[..at + |t|] == old(buf[..at]) + t
    {
      ghost var had := buf[..at];
      forall i | 0 <= i < |t| {
        buf[at + i] := t[i];
      }
      assert buf[..at] == had;
      assert buf[at..at + |t|] == t;
      assert buf[..at + |t|] == buf[..at] + buf[at..at + |t|];
    }

    lemma MoreGathered(carry: seq<byte>, s: seq<byte>, t: seq<byte>, before: seq<byte>)
      requires |t| <= |before| && t == before[..|t|]
      ensures (carry + s) + t == carry + (s + t) && s + before == (s + t) + before[|t|..]
    {
      assert before == t + before[|t|..];
    }

    // Whole blocks are decrypted where they were read, in `buf`.
    method ReadBulk(buf: array<byte>) returns (r: Result<nat, DecoderError>)
      requires Valid() && buf.Length >= 16 && !st.done && st.plainStart == st.plainEnd
      modifies this, cipher, input, buf
      ensures Valid() && st.plainStart == st.plainEnd
      ensures r.Ok? ==> r.value <= buf.Length && g.out == old(g.out) + buf[..r.value] && !g.failed
      ensures r.Ok? && r.value == 0 ==> st.done
      ensures r.Err? ==> r.error.IllegalBlockSize? && st.done && g.failed && g.out == old(g.out)
    {
      hide Flow, Whole, Decrypt, Last;
      var capacity := buf.Length - buf.Length % 16;
      var filled, ended, s := Gather(buf, capacity);
      assert (g.taken + s) + input.rest == g.taken + (s + input.rest);
      if ended {
        FlowTakes(cipher.cipher, iv0, cipher.iv, st, g, s);
        st, g := st.(carry := buf[..filled]), g.(taken := g.taken + s);
        r := Finish();
        assert g.out + buf[..0] == g.out;
        return;
      }
      var n := filled - filled % 16;
      ghost var run := buf[..n];
      assert buf[..filled] == run + buf[n..filled] by { Halves(buf[..], n, filled); }
      WholeIs(run);
      FlowRun(cipher.cipher, iv0, cipher.iv, st, g, s, run, buf[n..filled]);
      st := st.(carry := buf[n..filled], pos := st.pos + n);
      g := g.(taken := g.taken + s, out := g.out + Decrypt(cipher.cipher, cipher.iv, run));
      var e := cipher.DecryptRun(buf, n);
      return Ok(n);
    }
  }

  lemma Halves(s: seq<byte>, n: nat, m: nat)
    requires n <= m <= |s|
    ensures s[..m] == s[..n] + s[n..m]
  {
  }

  lemma WholeIs(s: seq<byte>)
    ensures Whole(s) <==> |s| % 16 == 0
  {
  }

  // Reads of the sizes asked for, one after the other, until nothing comes or
  // it fails: what came out is what the ciphertext decrypts to, as far as it
  // got, and a last part short of a block is an error.
  method ReadRun(block: Cipher, iv: Block, ciphertext: seq<byte>, sizes: seq<nat>)
      returns (out: seq<byte>, end: Option<Result<(), DecoderError>>)
    ensures out <= Decrypt(block, iv, Blocks(ciphertext))
    ensures end.Some? ==> out == Decrypt(block, iv, Blocks(ciphertext))
    ensures end.Some? ==> (end.value.Ok? <==> Whole(ciphertext))
  {
    hide Flow, Whole, Blocks, Decrypt;
    var input := new Source(ciphertext);
    var d := new Aes256Sha256Decoder(block, iv, input);
    out := [];
    d.Prefix();
    for i := 0 to |sizes|
      invariant d.Valid() && d.iv0 == iv && d.cipher.cipher == block && d.whole == ciphertext && d.input == input
      invariant fresh(d) && fresh(d.cipher) && fresh(input)
      invariant out == d.g.out && out <= Decrypt(block, iv, Blocks(ciphertext)) && !d.g.failed
    {
      var buf := new byte[sizes[i]];
      var r := d.Read(buf);
      if r.Err? {
        return out, Some(Err(r.error));
      }
      out := out + buf[..r.value];
      if r.value == 0 && buf.Length > 0 {
        return out, Some(Ok(()));
      }
    }
    return out, None;
  }
}
