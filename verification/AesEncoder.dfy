// Encrypting what is written in pieces of any size, padded with zeros at the
// end, and the round trip with the decoder.
module AesEncoder {
  import opened Common
  import opened Sources
  import opened Numbers
  import opened Cbc
  import opened AesDecoder
  import opened AesKey

  // Zeros up to a whole number of blocks.
  function Pad(s: seq<byte>): (r: seq<byte>)
    ensures Whole(r) && |r| < |s| + 16 && s <= r
  {
    s + Zeros((16 - |s| % 16) % 16)
  }

  // Plaintext taken in: its whole blocks are encrypted, the rest is held.
  ghost predicate Chained(c: Cipher, iv0: Block, iv: Block, taken: seq<byte>, held: seq<byte>, out: seq<byte>) {
    && |held| <= |taken| && taken == taken[..|taken| - |held|] + held && Whole(taken[..|taken| - |held|])
    && out == Encrypt(c, iv0, taken[..|taken| - |held|]) && iv == Last(iv0, out)
  }

  lemma ChainStarts(c: Cipher, iv0: Block)
    ensures Chained(c, iv0, iv0, [], [], [])
  {
  }

  lemma ChainHolds(c: Cipher, iv0: Block, iv: Block, taken: seq<byte>, held: seq<byte>, out: seq<byte>, s: seq<byte>)
    requires Chained(c, iv0, iv, taken, held, out)
    ensures Chained(c, iv0, iv, taken + s, held + s, out)
  {
    hide Encrypt, Last;
    var front := taken[..|taken| - |held|];
    assert taken + s == front + (held + s);
    assert (taken + s)[..|taken + s| - |held + s|] == front;
  }

  // What is held has become one block.
  lemma ChainBlock(c: Cipher, iv0: Block, iv: Block, taken: seq<byte>, held: seq<byte>, out: seq<byte>)
    requires Chained(c, iv0, iv, taken, held, out) && |held| == 16
    ensures var e := c.enc(Xor(held, iv)); Chained(c, iv0, e, taken, [], out + e)
  {
    hide Xor;
    var front := taken[..|taken| - 16];
    EncryptSplit(c, iv0, front, held);
    var e := c.enc(Xor(held, iv));
    assert held[..16] == held && held[16..] == [];
    assert Encrypt(c, iv, held) == e + [] == e;
    assert taken[..|taken| - 0] == taken && taken + [] == taken;
    assert (out + e)[|out + e| - 16..] == e;
  }

  class Aes256Sha256Encoder {
    const cipher: Cipher
    var iv: Block
    var output: seq<byte>
    var buffer: seq<byte>
    var finished: bool
    ghost const iv0: Block
    ghost var taken: seq<byte>

    ghost predicate Valid()
      reads this
    {
      && |buffer| < 16 && (finished ==> buffer == [])
      && Chained(cipher, iv0, iv, taken, buffer, output)
    }

    constructor (cipher: Cipher, iv: Block)
      ensures Valid() && this.cipher == cipher && iv0 == iv && taken == [] && !finished && output == []
    {
      this.cipher, this.iv, iv0 := cipher, iv, iv;
      output, buffer, finished, taken := [], [], false, [];
      new;
      ChainStarts(cipher, iv);
    }

    // One block in place, and out.
    method WriteBlock(block: Block)
      requires Chained(cipher, iv0, iv, taken, block, output)
      modifies `iv, `output
      ensures Chained(cipher, iv0, iv, taken, [], output)
    {
      ChainBlock(cipher, iv0, iv, taken, block, output);
      var e := cipher.enc(Xor(block, iv));
      output := output + e;
      iv := e;
    }

    // An empty write ends the stream and pads it; nothing is taken after that.
    method Write(buf: seq<byte>) returns (n: nat)
      requires Valid()
      modifies this
      ensures Valid()
      ensures old(finished) ==> n == 0 && finished && output == old(output) && taken == old(taken)
      ensures !old(finished) && buf == [] ==> n == 0 && finished && taken == Pad(old(taken))
      ensures !old(finished) && buf != [] ==> n == |buf| && !finished && taken == old(taken) + buf
    {
      hide Chained;
      if finished && buf != [] {
        return 0;
      }
      if buf == [] {
        PadLength(taken, buffer, cipher, iv0, iv, output);
        finished := true;
        Flush();
        return 0;
      }
      n := |buf|;
      var rest := buf;
      if buffer != [] {
        if |buf| + |buffer| < 16 {
          ChainHolds(cipher, iv0, iv, taken, buffer, output, buf);
          buffer, taken := buffer + buf, taken + buf;
          return;
        }
        rest := FillBlock(buf);
      }
      assert old(taken) + buf == taken + rest;
      WriteChunks(rest);
    }

    // What completes the block begun before.
    method FillBlock(buf: seq<byte>) returns (rest: seq<byte>)
      requires Valid() && !finished && |buf| + |buffer| >= 16
      modifies `iv, `output, `buffer, `taken
      ensures Valid() && buffer == [] && taken + rest == old(taken) + buf
    {
      hide Chained;
      var end := 16 - |buffer|;
      ChainHolds(cipher, iv0, iv, taken, buffer, output, buf[..end]);
      var block: Block := buffer + buf[..end];
      assert old(taken) + buf == (old(taken) + buf[..end]) + buf[end..];
      taken := taken + buf[..end];
      WriteBlock(block);
      buffer := [];
      rest := buf[end..];
    }

    // Whole blocks go out; the last piece, when it is short of one, is held.
    method WriteChunks(buf: seq<byte>)
      requires Valid() && !finished && buffer == []
      modifies `iv, `output, `buffer, `taken
      ensures Valid() && taken == old(taken) + buf
    {
      hide Chained;
      var rest := buf;
      while |rest| >= 16
        invariant Chained(cipher, iv0, iv, taken, buffer, output) && buffer == [] && !finished
        invariant old(taken) + buf == taken + rest
      {
        var block: Block := rest[..16];
        ChainHolds(cipher, iv0, iv, taken, [], output, block);
        assert [] + block == block;
        assert taken + rest == (taken + block) + rest[16..];
        taken := taken + block;
        WriteBlock(block);
        rest := rest[16..];
      }
      ChainHolds(cipher, iv0, iv, taken, [], output, rest);
      assert [] + rest == rest;
      buffer, taken := rest, taken + rest;
    }

    // A last part of a block goes out with zeros behind it.
    method Flush()
      requires |buffer| < 16 && Chained(cipher, iv0, iv, taken, buffer, output)
      modifies `iv, `output, `buffer, `taken
      ensures Valid()
      ensures finished ==> taken == old(taken) + Zeros(if old(buffer) == [] then 0 else 16 - |old(buffer)|)
      ensures !finished || old(buffer) == [] ==> taken == old(taken) && buffer == old(buffer) && output == old(output)
    {
      if buffer != [] && finished {
        var zeros := Zeros(16 - |buffer|);
        ChainHolds(cipher, iv0, iv, taken, buffer, output, zeros);
        var block: Block := buffer + zeros;
        taken := taken + zeros;
        WriteBlock(block);
        buffer := [];
      } else {
        assert taken + Zeros(0) == taken;
      }
    }
  }

  // The held part is what the length leaves over.
  lemma PadLength(taken: seq<byte>, held: seq<byte>, c: Cipher, iv0: Block, iv: Block, out: seq<byte>)
    requires Chained(c, iv0, iv, taken, held, out) && |held| < 16
    ensures Pad(taken) == taken + Zeros(if held == [] then 0 else 16 - |held|)
  {
  }

  // All writes of a run, and the empty one that ends it.
  method EncryptAll(cipher: Cipher, iv: Block, writes: seq<seq<byte>>) returns (out: seq<byte>)
    requires forall i | 0 <= i < |writes| :: writes[i] != []
    ensures out == Encrypt(cipher, iv, Pad(Joined(writes)))
  {
    hide Chained, Pad, Encrypt;
    var enc := new Aes256Sha256Encoder(cipher, iv);
    for i := 0 to |writes|
      invariant enc.Valid() && fresh(enc) && enc.cipher == cipher && enc.iv0 == iv && !enc.finished
      invariant enc.taken == Joined(writes[..i])
    {
      assert writes[..i + 1][..i] == writes[..i];
      var n := enc.Write(writes[i]);
    }
    assert writes[..|writes|] == writes;
    var n := enc.Write([]);
    ChainEnds(cipher, iv, enc.iv, enc.taken, enc.output);
    return enc.output;
  }

  lemma ChainEnds(c: Cipher, iv0: Block, iv: Block, taken: seq<byte>, out: seq<byte>)
    requires Chained(c, iv0, iv, taken, [], out)
    ensures Whole(taken) && out == Encrypt(c, iv0, taken)
  {
    assert taken[..|taken| - 0] == taken;
  }

  // Written in any pieces and read in any sizes, under the key and start value
  // re-read from the properties: the plaintext comes back, padded with zeros.
  method RoundTrip(keyed: seq<byte> -> Cipher, sha: seq<byte> -> seq<byte>, password: seq<byte>,
                   power: byte, salt: Block, iv: Block, writes: seq<seq<byte>>, sizes: seq<nat>)
      returns (r: Result<(seq<byte>, Option<Result<(), DecoderError>>), KeyError>)
    requires (forall k: seq<byte> :: Inverse(keyed(k))) && forall i | 0 <= i < |writes| :: writes[i] != []
    ensures r.Ok? ==> r.value.0 <= Pad(Joined(writes))
    ensures r.Ok? && r.value.1.Some? ==> r.value.1.value.Ok? && r.value.0 == Pad(Joined(writes))
    ensures password != [] && power <= MAX_AES_CYCLES_POWER ==> r.Ok?
  {
    hide Encrypt, Decrypt, Pad, Inverse, Hashed, ReadParts, PropertyBytes, Pow2;
    var props := PropertyBytes(power, salt, iv);
    PartsRoundTrip(power, salt, iv);
    SmallPowers(power);
    var writer := new Password(sha, password);
    var forWriting := GetAesKey(props, writer, MAX_AES_CYCLES_POWER, TWO_64 - 1);
    if forWriting.Err? {
      return Err(forWriting.error);
    }
    var out := EncryptAll(keyed(forWriting.value.0), forWriting.value.1, writes);
    var reader := new Password(sha, password);
    var forReading := GetAesKey(props, reader, MAX_AES_CYCLES_POWER, TWO_64 - 1);
    if forReading.Err? {
      return Err(forReading.error);
    }
    var plain, end := ReadRun(keyed(forReading.value.0), forReading.value.1, out, sizes);
    var p := Pad(Joined(writes));
    CbcRoundTrip(keyed(forWriting.value.0), iv, p);
    AllBlocks(out);
    return Ok((plain, end));
  }

  lemma AllBlocks(s: seq<byte>)
    requires Whole(s)
    ensures Blocks(s) == s
  {
  }

  lemma SmallPowers(power: byte)
    ensures power <= MAX_AES_CYCLES_POWER ==> power % 64 == power && Pow2(power) < TWO_64
  {
    if power <= MAX_AES_CYCLES_POWER {
      hide Pow2;
      PowMono(power, 64);
      WordBelow();
      PowMono(power, 24);
      PowMono(24, 63);
      Doubles(63);
    }
  }

  lemma Doubles(n: nat)
    ensures Pow2(n) < Pow2(n + 1)
  {
  }

  lemma {:induction false} PowMono(a: nat, b: nat)
    requires a <= b
    ensures Pow2(a) <= Pow2(b)
    decreases b
  {
    if a < b {
      PowMono(a, b - 1);
    }
  }
}
