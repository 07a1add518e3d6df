// The key of an encrypted stream: its properties, its derivation, and the
// cache that charges a budget for it.
module AesKey {
  import opened Common
  import opened Numbers
  import opened Cbc

  const MAX_AES_CYCLES_POWER: nat := 24

  datatype KeyError = TooShort | TooLong | PasswordRequired | CyclesPower | KdfRounds | Overflow

  // --- Derivation ---

  // What is hashed: salt, password and a counter of 64 bits, `n` times.
  function Hashed(salt: seq<byte>, password: seq<byte>, n: nat): seq<byte> {
    if n == 0 then [] else Hashed(salt, password, n - 1) + salt + password + BytesOf(n - 1, 8)
  }

  // SHA-256 is abstract: `sha` is what it makes of all the bytes it was fed.
  function Derived(sha: seq<byte> -> seq<byte>, power: nat, salt: seq<byte>, password: seq<byte>): seq<byte> {
    sha(Hashed(salt, password, Pow2(power)))
  }

  // One more, in bytes with the lowest first.
  function Increment(s: seq<byte>): (r: seq<byte>)
    ensures |r| == |s|
  {
    if s == [] then [] else if s[0] == 255 then [0] + Increment(s[1..]) else [s[0] + 1] + s[1..]
  }

  lemma {:induction false} IncrementIs(v: nat, n: nat)
    ensures Increment(BytesOf(v, n)) == BytesOf(v + 1, n)
  {
    if n > 0 {
      var s := BytesOf(v, n);
      assert s[0] == v % 256 && s[1..] == BytesOf(v / 256, n - 1);
      if v % 256 == 255 {
        IncrementIs(v / 256, n - 1);
        assert (v + 1) % 256 == 0 && (v + 1) / 256 == v / 256 + 1;
      } else {
        assert (v + 1) % 256 == v % 256 + 1 && (v + 1) / 256 == v / 256;
      }
    }
  }

  // The carry has come as far as byte `i`.
  ghost predicate Carrying(r: seq<byte>, extra: seq<byte>, i: nat) {
    i <= |r| == |extra| && r[i..] == extra[i..] && r[..i] + Increment(extra[i..]) == Increment(extra)
  }

  lemma CarryStep(r: seq<byte>, extra: seq<byte>, i: nat)
    requires Carrying(r, extra, i) && i < |r|
    ensures r[i] == extra[i]
    ensures r[i] == 255 ==> Carrying(r[i := 0], extra, i + 1)
    ensures r[i] != 255 ==> r[i := r[i] + 1] == Increment(extra)
  {
    assert extra[i..][1..] == extra[i + 1..] && extra[i..][0] == extra[i] && r[i..][0] == r[i];
    if r[i] == 255 {
      var t := r[i := 0];
      assert t[i + 1..] == r[i..][1..];
      assert t[..i + 1] + Increment(extra[i + 1..]) == r[..i] + ([0] + Increment(extra[i + 1..]));
    } else {
      assert r[i := r[i] + 1] == r[..i] + ([r[i] + 1] + r[i..][1..]);
    }
  }

  lemma CarryEnds(r: seq<byte>, extra: seq<byte>)
    requires Carrying(r, extra, |extra|)
    ensures r == Increment(extra)
  {
    assert r[..|r|] + [] == r;
  }

  // The carry goes on as long as a byte wraps to zero.
  method AddOne(extra: seq<byte>) returns (r: seq<byte>)
    ensures r == Increment(extra)
  {
    hide Increment, Carrying;
    r := extra;
    var i := 0;
    CarryStarts(extra);
    while i < |r|
      invariant 0 <= i <= |r| == |extra| && Carrying(r, extra, i)
    {
      CarryStep(r, extra, i);
      r := r[i := if r[i] == 255 then 0 else r[i] + 1];
      if r[i] != 0 {
        return;
      }
      i := i + 1;
    }
    CarryEnds(r, extra);
  }

  lemma CarryStarts(extra: seq<byte>)
    ensures Carrying(extra, extra, 0)
  {
    assert extra[0..] == extra && extra[..0] == [] && [] + Increment(extra) == Increment(extra);
  }

  method DeriveKey(sha: seq<byte> -> seq<byte>, power: nat, salt: seq<byte>, password: seq<byte>) returns (key: seq<byte>)
    ensures key == Derived(sha, power, salt, password)
  {
    var fed: seq<byte>, extra: seq<byte> := [], BytesOf(0, 8);
    for i := 0 to Pow2(power)
      invariant fed == Hashed(salt, password, i) && extra == BytesOf(i, 8)
    {
      fed := fed + salt + password + extra;
      IncrementIs(i, 8);
      extra := AddOne(extra);
    }
    return sha(fed);
  }

  // --- The cache and its budget ---

  datatype CachedKey = CachedKey(power: nat, salt: seq<byte>, key: seq<byte>)

  // The powers of the keys that had to be derived, one after the other.
  function Charged(log: seq<nat>): nat {
    if log == [] then 0 else Charged(log[..|log| - 1]) + Pow2(log[|log| - 1])
  }

  lemma ChargedMore(log: seq<nat>, power: nat)
    ensures Charged(log + [power]) == Charged(log) + Pow2(power)
  {
    assert (log + [power])[..|log|] == log;
  }

  // A password, with the last key derived from it and the rounds spent on it.
  class Password {
    const sha: seq<byte> -> seq<byte>
    const bytes: seq<byte>
    var key: Option<CachedKey>
    var rounds: u64
    ghost var log: seq<nat>

    ghost predicate Valid()
      reads this
    {
      && rounds == Charged(log)
      && (key.Some? ==> key.value.key == Derived(sha, key.value.power, key.value.salt, bytes))
    }

    constructor (sha: seq<byte> -> seq<byte>, bytes: seq<byte>)
      ensures Valid() && this.sha == sha && this.bytes == bytes && log == [] && rounds == 0 && key.None?
    {
      this.sha, this.bytes := sha, bytes;
      key, rounds, log := None, 0, [];
    }

    predicate Hit(power: nat, salt: seq<byte>)
      reads this
    {
      key.Some? && key.value.power == power && key.value.salt == salt
    }

    // A hit costs nothing; a miss is charged before it is hashed, and refused
    // when the total would exceed the budget.
    method DeriveWithBudget(power: nat, salt: seq<byte>, maxRounds: u64) returns (r: Result<seq<byte>, KeyError>)
      requires Valid() && power < 64
      modifies this
      ensures Valid()
      ensures r.Ok? ==> r.value == Derived(sha, power, salt, bytes)
      ensures r.Ok? <==> old(Hit(power, salt)) || old(rounds) + Pow2(power) <= maxRounds
      ensures old(Hit(power, salt)) || r.Err? ==> rounds == old(rounds) && log == old(log) && key == old(key)
      ensures r.Ok? && !old(Hit(power, salt)) ==>
        log == old(log) + [power] && rounds == old(rounds) + Pow2(power) <= maxRounds && Hit(power, salt)
    {
      if key.Some? && key.value.power == power && key.value.salt == salt {
        return Ok(key.value.key);
      }
      if rounds + Pow2(power) >= TWO_64 {
        return Err(Overflow);
      }
      var total: u64 := rounds + Pow2(power);
      if total > maxRounds {
        return Err(KdfRounds);
      }
      ChargedMore(log, power);
      rounds, log := total, log + [power];
      var derived := DeriveKey(sha, power, salt, bytes);
      key := Some(CachedKey(power, salt, derived));
      return Ok(derived);
    }
  }

  // One call: what it asks for and the budget in force.
  datatype Request = Request(power: nat, salt: seq<byte>, maxRounds: u64)

  predicate Shiftable(requests: seq<Request>) {
    forall i | 0 <= i < |requests| :: requests[i].power < 64
  }

  predicate Below(ms: seq<nat>, n: nat) {
    forall k | 0 <= k < |ms| :: ms[k] < n
  }

  // What the requests numbered in `ms` cost.
  function Spent(requests: seq<Request>, ms: seq<nat>): nat
    requires Below(ms, |requests|)
  {
    if ms == [] then 0 else Spent(requests, ms[..|ms| - 1]) + Pow2(requests[ms[|ms| - 1]].power)
  }

  // The last key that was derived is the one asked for again.
  predicate Repeats(requests: seq<Request>, ms: seq<nat>, i: nat)
    requires i < |requests| && Below(ms, |requests|)
  {
    ms != [] && requests[ms[|ms| - 1]].power == requests[i].power && requests[ms[|ms| - 1]].salt == requests[i].salt
  }

  predicate Affordable(requests: seq<Request>, ms: seq<nat>, i: nat)
    requires i < |requests| && Below(ms, |requests|)
  {
    Spent(requests, ms) + Pow2(requests[i].power) <= requests[i].maxRounds
  }

  // Which of the first `i` requests had a key derived, with a cache of one key.
  function Misses(requests: seq<Request>, i: nat): (ms: seq<nat>)
    requires i <= |requests|
    ensures Below(ms, i) && Below(ms, |requests|)
  {
    if i == 0 then [] else
    var ms := Misses(requests, i - 1);
    if Repeats(requests, ms, i - 1) || !Affordable(requests, ms, i - 1) then ms else ms + [i - 1]
  }

  // A request is among them just when it does not repeat the one before it
  // among them and its own budget still bears it; each charge keeps within the
  // budget in force then, and nothing else is charged.
  lemma {:induction false} MissesAre(requests: seq<Request>, i: nat, n: nat)
    requires i < n <= |requests|
    ensures var ms := Misses(requests, i);
      && (i in Misses(requests, n) <==> !Repeats(requests, ms, i) && Affordable(requests, ms, i))
      && (if i in Misses(requests, n)
          then Spent(requests, Misses(requests, i + 1)) == Spent(requests, ms) + Pow2(requests[i].power) <= requests[i].maxRounds
          else Misses(requests, i + 1) == ms)
    decreases n
  {
    hide Repeats, Affordable, Spent;
    if i + 1 < n {
      MissesAre(requests, i, n - 1);
    } else {
      MissesNext(requests, i);
    }
  }

  lemma MissesNext(requests: seq<Request>, i: nat)
    requires i < |requests|
    ensures var ms := Misses(requests, i);
      && i !in ms
      && if !Repeats(requests, ms, i) && Affordable(requests, ms, i)
         then Misses(requests, i + 1) == ms + [i]
              && Spent(requests, ms + [i]) == Spent(requests, ms) + Pow2(requests[i].power) <= requests[i].maxRounds
         else Misses(requests, i + 1) == ms
  {
    hide Repeats, Spent;
    SpentMore(requests, Misses(requests, i), i);
  }

  lemma SpentMore(requests: seq<Request>, ms: seq<nat>, i: nat)
    requires i < |requests| && Below(ms, |requests|)
    ensures Spent(requests, ms + [i]) == Spent(requests, ms) + Pow2(requests[i].power)
  {
    assert (ms + [i])[..|ms|] == ms;
  }

  lemma ShiftableAt(requests: seq<Request>, i: nat)
    requires Shiftable(requests) && i < |requests|
    ensures requests[i].power < 64
  {
  }

  // The rounds and the key a password holds after the misses `ms`.
  ghost predicate Holds(requests: seq<Request>, ms: seq<nat>, rounds: nat, key: Option<CachedKey>)
    requires Below(ms, |requests|)
  {
    && rounds == Spent(requests, ms) && (key.None? <==> ms == [])
    && (ms != [] ==> var last := requests[ms[|ms| - 1]]; key.value.power == last.power && key.value.salt == last.salt)
  }

  lemma HoldsNothing(requests: seq<Request>)
    ensures Holds(requests, Misses(requests, 0), 0, None)
  {
  }

  predicate Hits(key: Option<CachedKey>, power: nat, salt: seq<byte>) {
    key.Some? && key.value.power == power && key.value.salt == salt
  }

  // One request more, as `DeriveWithBudget` answers it.
  lemma HoldsNext(requests: seq<Request>, i: nat, rounds: nat, key: Option<CachedKey>, rounds': nat, key': Option<CachedKey>)
    requires i < |requests| && Holds(requests, Misses(requests, i), rounds, key)
    requires var q := requests[i];
      if Hits(key, q.power, q.salt) || rounds + Pow2(q.power) > q.maxRounds then rounds' == rounds && key' == key
      else rounds' == rounds + Pow2(q.power) && Hits(key', q.power, q.salt)
    ensures Holds(requests, Misses(requests, i + 1), rounds', key')
    ensures Hits(key, requests[i].power, requests[i].salt) <==> Repeats(requests, Misses(requests, i), i)
    ensures rounds == Spent(requests, Misses(requests, i))
  {
    hide Spent;
    SpentMore(requests, Misses(requests, i), i);
  }

  // Every run of calls on one password: which of them get a key, that it is the
  // one derived, and that the total is what the misses cost.
  method RunRequests(sha: seq<byte> -> seq<byte>, bytes: seq<byte>, requests: seq<Request>)
      returns (keys: seq<Option<seq<byte>>>, total: u64)
    requires Shiftable(requests)
    ensures |keys| == |requests| && total == Spent(requests, Misses(requests, |requests|))
    ensures forall i | 0 <= i < |keys| ::
      keys[i] == if Repeats(requests, Misses(requests, i), i) || Affordable(requests, Misses(requests, i), i)
                 then Some(Derived(sha, requests[i].power, requests[i].salt, bytes)) else None
  {
    hide Derived, Charged, Shiftable, Spent, Holds, Misses, Repeats, Below;
    var password := new Password(sha, bytes);
    keys := [];
    HoldsNothing(requests);
    for i := 0 to |requests|
      invariant password.Valid() && fresh(password) && password.sha == sha && password.bytes == bytes
      invariant Holds(requests, Misses(requests, i), password.rounds, password.key)
      invariant |keys| == i
      invariant forall j | 0 <= j < i ::
        keys[j] == if Repeats(requests, Misses(requests, j), j) || Affordable(requests, Misses(requests, j), j)
                   then Some(Derived(sha, requests[j].power, requests[j].salt, bytes)) else None
    {
      var q := requests[i];
      ShiftableAt(requests, i);
      ghost var rounds, key := password.rounds, password.key;
      var r := password.DeriveWithBudget(q.power, q.salt, q.maxRounds);
      HoldsNext(requests, i, rounds, key, password.rounds, password.key);
      keys := keys + [if r.Ok? then Some(r.value) else None];
    }
    total := password.rounds;
    HoldsSpent(requests, Misses(requests, |requests|), total, password.key);
  }

  lemma HoldsSpent(requests: seq<Request>, ms: seq<nat>, rounds: nat, key: Option<CachedKey>)
    requires Below(ms, |requests|) && Holds(requests, ms, rounds, key)
    ensures rounds == Spent(requests, ms)
  {
  }

  // --- Properties ---

  datatype KeyParts = KeyParts(power: nat, salt: seq<byte>, iv: Block)

  function Zeros(n: nat): (z: seq<byte>)
    ensures |z| == n
  {
    seq(n, _ => 0)
  }

  // The parameters a coder's properties stand for.
  function ReadParts(props: seq<byte>): (r: Result<KeyParts, KeyError>)
    ensures r.Ok? ==> r.value.power < 64 && |r.value.salt| <= 16
  {
    if props == [] then Err(TooShort) else
    var p := if |props| == 1 then [props[0], 0] else props;
    var ivSize := p[0] / 64 % 2 + p[1] % 16;
    var saltSize := p[0] / 128 + p[1] / 16;
    if 2 + saltSize + ivSize > |p| then Err(TooLong)
    else Ok(KeyParts(p[0] % 64, p[2..2 + saltSize], p[2 + saltSize..2 + saltSize + ivSize] + Zeros(16 - ivSize)))
  }

  // Salt and password as they are, cut to 32 bytes.
  function RawKey(salt: seq<byte>, password: seq<byte>): (k: seq<byte>)
    requires |salt| <= 16
    ensures |k| == 32
  {
    var n := if |password| < 32 - |salt| then |password| else 32 - |salt|;
    salt + password[..n] + Zeros(32 - |salt| - n)
  }

  // The power is allowed, and the key is at hand or its rounds can be paid for.
  predicate Payable(props: seq<byte>, password: Password, maxPower: nat, maxRounds: u64)
    reads password
    requires ReadParts(props).Ok?
  {
    var parts := ReadParts(props).value;
    && parts.power <= maxPower && parts.power <= MAX_AES_CYCLES_POWER
    && (password.Hit(parts.power, parts.salt) || password.rounds + Pow2(parts.power) <= maxRounds)
  }

  method GetAesKey(props: seq<byte>, password: Password, maxPower: nat, maxRounds: u64)
      returns (r: Result<(seq<byte>, Block), KeyError>)
    requires password.Valid()
    modifies password
    ensures password.Valid()
    ensures r.Ok? <==>
      (&& ReadParts(props).Ok? && password.bytes != []
       && (ReadParts(props).value.power == 63 || old(Payable(props, password, maxPower, maxRounds))))
    ensures r.Ok? ==>
      var parts := ReadParts(props).value;
      && r.value.1 == parts.iv
      && r.value.0 == (if parts.power == 63 then RawKey(parts.salt, password.bytes)
                       else Derived(password.sha, parts.power, parts.salt, password.bytes))
      && (parts.power != 63 ==> parts.power <= maxPower && parts.power <= MAX_AES_CYCLES_POWER)
  {
    var read := ReadParts(props);
    if read.Err? {
      return Err(read.error);
    }
    var parts := read.value;
    if password.bytes == [] {
      return Err(PasswordRequired);
    }
    if parts.power == 63 {
      return Ok((RawKey(parts.salt, password.bytes), parts.iv));
    }
    var cap := if maxPower < MAX_AES_CYCLES_POWER then maxPower else MAX_AES_CYCLES_POWER;
    if parts.power > cap {
      return Err(CyclesPower);
    }
    var key := password.DeriveWithBudget(parts.power, parts.salt, maxRounds);
    if key.Err? {
      return Err(key.error);
    }
    return Ok((key.value, parts.iv));
  }

  // What an encoder writes of its parameters.
  function PropertyBytes(power: byte, salt: Block, iv: Block): (p: seq<byte>)
    ensures |p| == 34
  {
    [power % 64 + 0xC0, 0xFF] + salt + iv
  }

  // Salt, start value and power are read back as they were written.
  lemma PartsRoundTrip(power: byte, salt: Block, iv: Block)
    ensures ReadParts(PropertyBytes(power, salt, iv)) == Ok(KeyParts(power % 64, salt, iv))
  {
    var p := PropertyBytes(power, salt, iv);
    assert p[2..18] == salt && p[18..34] == iv;
    assert iv + Zeros(0) == iv;
  }

  // Power, salt and start value of any lengths, laid out field by field: 0x80
  // and 0x40 tell that there are a salt and a start value, whose lengths less
  // one are the halves of the second byte.
  function LaidOut(power: nat, salt: seq<byte>, iv: seq<byte>): (p: seq<byte>)
    requires power < 64 && |salt| <= 16 && |iv| <= 16
    ensures |p| == 2 + |salt| + |iv|
  {
    var first := power + (if salt == [] then 0 else 0x80) + (if iv == [] then 0 else 0x40);
    var second := 16 * (if salt == [] then 0 else |salt| - 1) + (if iv == [] then 0 else |iv| - 1);
    [first, second] + salt + iv
  }

  // They are read back, whatever follows, the start value filled up with zeros.
  lemma PartsBack(power: nat, salt: seq<byte>, iv: seq<byte>, rest: seq<byte>)
    requires power < 64 && |salt| <= 16 && |iv| <= 16
    ensures ReadParts(LaidOut(power, salt, iv) + rest) == Ok(KeyParts(power, salt, iv + Zeros(16 - |iv|)))
  {
    var s, v := |salt|, |iv|;
    var p := LaidOut(power, salt, iv) + rest;
    var first: int, second: int := p[0], p[1];
    assert first / 128 == (if s == 0 then 0 else 1) && first / 64 % 2 == (if v == 0 then 0 else 1) && first % 64 == power;
    assert second / 16 == (if s == 0 then 0 else s - 1) && second % 16 == (if v == 0 then 0 else v - 1);
    assert p[2..2 + s] == salt && p[2 + s..2 + s + v] == iv;
  }

  // Fewer bytes than announced are refused, and a lone first byte stands for
  // itself and a zero.
  lemma PartsCut(power: nat, salt: seq<byte>, iv: seq<byte>, n: nat)
    requires power < 64 && |salt| <= 16 && |iv| <= 16 && n < 2 + |salt| + |iv|
    ensures var p := ReadParts(LaidOut(power, salt, iv)[..n]);
      if n == 0 then p == Err(TooShort)
      else if n > 1 then p == Err(TooLong)
      else p == ReadParts([LaidOut(power, salt, iv)[0], 0])
  {
    var s, v := |salt|, |iv|;
    var p := LaidOut(power, salt, iv);
    var first: int, second: int := p[0], p[1];
    assert first / 128 == (if s == 0 then 0 else 1) && first / 64 % 2 == (if v == 0 then 0 else 1);
    assert second / 16 == (if s == 0 then 0 else s - 1) && second % 16 == (if v == 0 then 0 else v - 1);
    if n > 1 {
      assert p[..n][0] == p[0] && p[..n][1] == p[1];
    } else if n == 1 {
      assert p[..1] == [p[0]];
    }
  }

  // The raw key byte by byte: the salt, the password as far as it fits, zeros.
  lemma RawKeyIs(salt: seq<byte>, password: seq<byte>, i: nat)
    requires |salt| <= 16 && i < 32
    ensures RawKey(salt, password)[i] ==
      if i < |salt| then salt[i] else if i - |salt| < |password| then password[i - |salt|] else 0
  {
  }

  // What is hashed, piece by piece: the salt, the password, and the number of
  // the round in eight bytes, the lowest first.
  lemma {:induction false} HashedAt(salt: seq<byte>, password: seq<byte>, n: nat, i: nat)
    requires i < n
    ensures var w := |salt| + |password| + 8;
      && |Hashed(salt, password, n)| == n * w && 0 <= i * w <= (i + 1) * w <= n * w
      && Hashed(salt, password, n)[i * w..(i + 1) * w] == salt + password + BytesOf(i, 8)
  {
    var w := |salt| + |password| + 8;
    HashedLength(salt, password, n);
    HashedLength(salt, password, n - 1);
    var front, last := Hashed(salt, password, n - 1), salt + password + BytesOf(n - 1, 8);
    assert Hashed(salt, password, n) == front + last;
    hide BytesOf, Hashed;
    Chunk(front, last, w, n - 1, i);
    if i < n - 1 {
      HashedAt(salt, password, n - 1, i);
    }
  }

  lemma OneMore(i: nat, w: nat)
    ensures (i + 1) * w == i * w + w && i * w >= 0
  {
  }

  lemma {:induction false} Sooner(i: nat, n: nat, w: nat)
    requires i < n
    ensures 0 <= i * w <= (i + 1) * w <= n * w
  {
    OneMore(i, w);
    if i + 1 < n {
      Sooner(i, n - 1, w);
      OneMore(n - 1, w);
    }
  }

  // Pieces of `w` bytes: the last of them, or one of the `n` before it.
  lemma Chunk(front: seq<byte>, last: seq<byte>, w: nat, n: nat, i: nat)
    requires |front| == n * w && |last| == w && i <= n
    ensures 0 <= i * w <= (i + 1) * w <= |front + last| == (n + 1) * w
    ensures i < n ==> (i + 1) * w <= n * w
    ensures (front + last)[i * w..(i + 1) * w] == if i < n then front[i * w..(i + 1) * w] else last
  {
    OneMore(n, w);
    OneMore(i, w);
    if i < n {
      Sooner(i, n, w);
    }
    Piece(front, last, i * w, w);
  }

  lemma Piece(front: seq<byte>, last: seq<byte>, lo: nat, w: nat)
    requires |last| == w && (lo + w <= |front| || lo == |front|)
    ensures (front + last)[lo..lo + w] == if lo + w <= |front| then front[lo..lo + w] else last
  {
  }

  lemma {:induction false} HashedLength(salt: seq<byte>, password: seq<byte>, n: nat)
    ensures |Hashed(salt, password, n)| == n * (|salt| + |password| + 8)
  {
    if n > 0 {
      HashedLength(salt, password, n - 1);
      var w := |salt| + |password| + 8;
      assert (n - 1) * w + w == n * w;
    }
  }
}
