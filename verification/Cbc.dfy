// Cipher block chaining, section 6.2 of NIST SP 800-38A, over an abstract
// block cipher, and the ways the backends thread the chaining value.
module Cbc {
  import opened Common
  import opened Numbers

  type Block = s: seq<byte> | |s| == 16 witness [0, 0, 0, 0, 0, 0, 0, 0, 0, 0, 0, 0, 0, 0, 0, 0]

  // A block cipher under one key.
  datatype Cipher = Cipher(enc: Block -> Block, dec: Block -> Block)

  ghost predicate Inverse(c: Cipher) {
    forall b: Block :: c.dec(c.enc(b)) == b
  }

  function XorByte(a: byte, b: byte): byte {
    Powers();
    XorBits(a, b, 8)
  }

  function Xor(a: Block, b: Block): Block {
    seq(16, i requires 0 <= i < 16 => XorByte(a[i], b[i]))
  }

  lemma XorBack(a: Block, b: Block)
    ensures Xor(Xor(a, b), b) == a
  {
    Powers();
    forall i | 0 <= i < 16 ensures Xor(Xor(a, b), b)[i] == a[i] {
      XorTwice(a[i], b[i], 8);
    }
  }

  predicate Whole(s: seq<byte>) {
    |s| % 16 == 0
  }

  function Decrypt(c: Cipher, iv: Block, s: seq<byte>): (r: seq<byte>)
    requires Whole(s)
    ensures |r| == |s|
    decreases |s|
  {
    if s == [] then [] else Xor(c.dec(s[..16]), iv) + Decrypt(c, s[..16], s[16..])
  }

  function Encrypt(c: Cipher, iv: Block, s: seq<byte>): (r: seq<byte>)
    requires Whole(s)
    ensures |r| == |s|
    decreases |s|
  {
    if s == [] then [] else
    var b := c.enc(Xor(s[..16], iv));
    b + Encrypt(c, b, s[16..])
  }

  // Block `k` of a whole run.
  function BlockAt(s: seq<byte>, k: nat): Block
    requires 16 * k + 16 <= |s|
  {
    s[16 * k..16 * k + 16]
  }

  lemma BlockBehind(first: Block, rest: seq<byte>, k: nat)
    requires 16 * k + 16 <= 16 + |rest|
    ensures BlockAt(first + rest, k) == if k == 0 then first else BlockAt(rest, k - 1)
  {
    var s := first + rest;
    if k > 0 {
      var i := 16 * (k - 1);
      assert s[16 + i..16 + i + 16] == rest[i..i + 16];
    }
  }

  lemma FirstBlock(s: seq<byte>)
    requires 16 <= |s|
    ensures s == s[..16] + s[16..]
  {
  }

  // Each block of plaintext is combined with the block of ciphertext before
  // it, the first with the start value, and then enciphered.
  lemma {:induction false} EncryptedAt(c: Cipher, iv: Block, s: seq<byte>, k: nat)
    requires Whole(s) && 16 * k + 16 <= |s|
    ensures var e := Encrypt(c, iv, s);
      BlockAt(e, k) == c.enc(Xor(BlockAt(s, k), if k == 0 then iv else BlockAt(e, k - 1)))
    decreases k
  {
    hide Xor, BlockAt;
    var b := c.enc(Xor(s[..16], iv));
    var rest := Encrypt(c, b, s[16..]);
    FirstBlock(s);
    BlockBehind(s[..16], s[16..], k);
    BlockBehind(b, rest, k);
    if k > 0 {
      EncryptedAt(c, b, s[16..], k - 1);
      BlockBehind(b, rest, k - 1);
    }
  }

  // The other way round.
  lemma {:induction false} DecryptedAt(c: Cipher, iv: Block, s: seq<byte>, k: nat)
    requires Whole(s) && 16 * k + 16 <= |s|
    ensures BlockAt(Decrypt(c, iv, s), k) == Xor(c.dec(BlockAt(s, k)), if k == 0 then iv else BlockAt(s, k - 1))
    decreases k
  {
    hide Xor, BlockAt;
    var first := Xor(c.dec(s[..16]), iv);
    var rest := Decrypt(c, s[..16], s[16..]);
    FirstBlock(s);
    BlockBehind(s[..16], s[16..], k);
    BlockBehind(first, rest, k);
    if k > 0 {
      DecryptedAt(c, s[..16], s[16..], k - 1);
      BlockBehind(s[..16], s[16..], k - 1);
    }
  }

  // Bit by bit, where just one of the two bytes has it.
  lemma XorAt(a: Block, b: Block, i: nat, k: nat)
    requires i < 16 && k < 8
    ensures BitOf(Xor(a, b)[i], k) == 1 <==> BitOf(a[i], k) != BitOf(b[i], k)
  {
    Powers();
    hide XorBits, BitOf;
    XorBit(a[i], b[i], 8, k);
  }

  // The chaining value behind ciphertext `s`: its last block.
  function Last(iv: Block, s: seq<byte>): Block
    requires Whole(s)
  {
    if s == [] then iv else s[|s| - 16..]
  }

  lemma LastBehind(iv: Block, a: seq<byte>, b: seq<byte>)
    requires Whole(a) && Whole(b) && a != []
    ensures Whole(a + b) && Last(iv, a + b) == Last(a[|a| - 16..], b)
  {
    if b == [] {
      assert a + b == a;
    } else {
      assert (a + b)[|a + b| - 16..] == b[|b| - 16..];
    }
  }

  lemma {:induction false} DecryptSplit(c: Cipher, iv: Block, a: seq<byte>, b: seq<byte>)
    requires Whole(a) && Whole(b)
    ensures Whole(a + b) && Decrypt(c, iv, a + b) == Decrypt(c, iv, a) + Decrypt(c, Last(iv, a), b)
    ensures Last(iv, a + b) == Last(Last(iv, a), b)
    decreases |a|
  {
    hide Xor;
    if a == [] {
      assert a + b == b;
    } else {
      assert (a + b)[..16] == a[..16] && (a + b)[16..] == a[16..] + b;
      LastBehind(iv, a, b);
      DecryptSplit(c, a[..16], a[16..], b);
      assert a[..16] + a[16..] == a;
      LastBehind(iv, a[..16], a[16..]);
    }
  }

  lemma {:induction false} EncryptSplit(c: Cipher, iv: Block, a: seq<byte>, b: seq<byte>)
    requires Whole(a) && Whole(b)
    ensures Whole(a + b) && Encrypt(c, iv, a + b) == Encrypt(c, iv, a) + Encrypt(c, Last(iv, Encrypt(c, iv, a)), b)
    decreases |a|
  {
    hide Xor;
    if a == [] {
      assert a + b == b;
    } else {
      var e := c.enc(Xor(a[..16], iv));
      assert (a + b)[..16] == a[..16] && (a + b)[16..] == a[16..] + b;
      EncryptSplit(c, e, a[16..], b);
      var more := Encrypt(c, e, a[16..]);
      assert Encrypt(c, iv, a) == e + more;
      assert Last(iv, e + more) == Last(e, more);
      assert Encrypt(c, iv, a + b) == e + (more + Encrypt(c, Last(e, more), b));
    }
  }

  // What was encrypted is decrypted, with the inverse pair and the same start.
  lemma {:induction false} CbcRoundTrip(c: Cipher, iv: Block, s: seq<byte>)
    requires Inverse(c) && Whole(s)
    ensures Decrypt(c, iv, Encrypt(c, iv, s)) == s
    decreases |s|
  {
    hide Xor, Inverse;
    if s != [] {
      var b := c.enc(Xor(s[..16], iv));
      var r := Encrypt(c, iv, s);
      assert r[..16] == b && r[16..] == Encrypt(c, b, s[16..]);
      DecBack(c, Xor(s[..16], iv));
      XorBack(s[..16], iv);
      CbcRoundTrip(c, b, s[16..]);
    }
  }

  lemma DecBack(c: Cipher, b: Block)
    requires Inverse(c)
    ensures c.dec(c.enc(b)) == b
  {
  }

  datatype AesError = BlockAlignment

  // --- The backends ---

  // One call decrypts the whole run, over a library or the host; the last
  // ciphertext block is saved before it is overwritten.
  class WholeRunCbc {
    const cipher: Cipher
    var iv: Block

    constructor (cipher: Cipher, iv: Block)
      ensures this.cipher == cipher && this.iv == iv
    {
      this.cipher, this.iv := cipher, iv;
    }

    method DecryptRun(data: array<byte>, n: nat) returns (r: Result<(), AesError>)
      requires n <= data.Length
      modifies this, data
      ensures n % 16 != 0 ==> r == Err(BlockAlignment) && data[..] == old(data[..]) && iv == old(iv)
      ensures n % 16 == 0 ==> r == Ok(()) && iv == Last(old(iv), old(data[..n]))
      ensures n % 16 == 0 ==> data[..n] == Decrypt(cipher, old(iv), old(data[..n])) && data[n..] == old(data[n..])
    {
      if n % 16 != 0 {
        return Err(BlockAlignment);
      }
      if n == 0 {
        return Ok(());
      }
      var next := data[n - 16..n];
      var plain := Decrypt(cipher, iv, data[..n]);
      ghost var rest := data[n..];
      forall i | 0 <= i < n {
        data[i] := plain[i];
      }
      assert data[..n] == plain && data[n..] == rest;
      iv := next;
      return Ok(());
    }
  }

  // Block by block, the chaining value carried along.
  class BlockwiseCbc {
    const cipher: Cipher
    var iv: Block

    constructor (cipher: Cipher, iv: Block)
      ensures this.cipher == cipher && this.iv == iv
    {
      this.cipher, this.iv := cipher, iv;
    }

    method DecryptRun(data: array<byte>, n: nat) returns (r: Result<(), AesError>)
      requires n <= data.Length
      modifies this, data
      ensures n % 16 != 0 ==> r == Err(BlockAlignment) && data[..] == old(data[..]) && iv == old(iv)
      ensures n % 16 == 0 ==> r == Ok(()) && iv == Last(old(iv), old(data[..n]))
      ensures n % 16 == 0 ==> data[..n] == Decrypt(cipher, old(iv), old(data[..n])) && data[n..] == old(data[n..])
    {
      hide Decrypt, Last, Xor;
      if n % 16 != 0 {
        return Err(BlockAlignment);
      }
      var at := 0;
      ghost var was := data[..];
      assert data[..0] == [] && was[..n] == data[..n];
      NothingYet(cipher, iv);
      while at < n
        invariant 0 <= at <= n && at % 16 == 0
        invariant data[at..] == was[at..]
        invariant data[..at] == Decrypt(cipher, old(iv), was[..at]) && iv == Last(old(iv), was[..at])
      {
        var b: Block := data[at..at + 16];
        assert b == was[at..at + 16] by { assert data[at..at + 16] == data[at..][..16]; assert was[at..at + 16] == was[at..][..16]; }
        var p := Xor(cipher.dec(b), iv);
        ghost var done := data[..at];
        forall i | at <= i < at + 16 {
          data[i] := p[i - at];
        }
        assert data[..at] == done && data[at..at + 16] == p && data[at + 16..] == was[at + 16..];
        assert data[..at + 16] == done + p && was[..at + 16] == was[..at] + b;
        OneBlock(cipher, old(iv), was[..at], b);
        iv := b;
        at := at + 16;
      }
      return Ok(());
    }
  }

  lemma NothingYet(c: Cipher, iv: Block)
    ensures Decrypt(c, iv, []) == [] && Last(iv, []) == iv
  {
  }

  lemma OneBlock(c: Cipher, iv: Block, a: seq<byte>, b: Block)
    requires Whole(a)
    ensures Decrypt(c, iv, a + b) == Decrypt(c, iv, a) + Xor(c.dec(b), Last(iv, a)) && Last(iv, a + b) == b
  {
    hide Xor;
    DecryptSplit(c, iv, a, b);
    assert b[..16] == b && b[16..] == [];
    assert Decrypt(c, Last(iv, a), b) == Xor(c.dec(b), Last(iv, a)) + [];
  }
}
