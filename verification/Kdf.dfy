/** HMAC, PBKDF2, hex text and masking with a pepper: the rest of include/chat/pwd_hash.h. */
module Kdf {
  import opened Bytes
  import opened Hash
  import opened ByteOrder
  import opened Collections

  // ---------- exclusive or ----------

  /** The low `k` bits of `a ^ b`, bit by bit. */
  function XorLow(a: nat, b: nat, k: nat): (x: nat)
    ensures k <= 8 ==> x < Power2(k)
  {
    if k == 0 then 0 else (if a % 2 == b % 2 then 0 else 1) + 2 * XorLow(a / 2, b / 2, k - 1)
  }

  function Power2(k: nat): nat { if k == 0 then 1 else 2 * Power2(k - 1) }

  lemma EightBits()
    ensures Power2(8) == 256
  {
    assert Power2(4) == 16;
  }

  function Xor(a: byte, b: byte): byte {
    EightBits();
    XorLow(a, b, 8)
  }

  lemma {:induction false} XorLowTwice(a: nat, b: nat, k: nat)
    requires a < Power2(k)
    ensures XorLow(XorLow(a, b, k), b, k) == a
  {
    if k > 0 {
      XorLowTwice(a / 2, b / 2, k - 1);
      var x, y := XorLow(a, b, k), XorLow(a / 2, b / 2, k - 1);
      Halves(x, y);
    }
  }

  lemma Halves(x: nat, y: nat)
    requires x == 2 * y || x == 1 + 2 * y
    ensures x / 2 == y && x % 2 == x - 2 * y
  {
  }

  lemma XorTwice(a: byte, b: byte)
    ensures Xor(Xor(a, b), b) == a
  {
    hide XorLow;
    EightBits();
    XorLowTwice(a, b, 8);
  }

  lemma {:induction false} XorLowZero(a: nat, b: nat, k: nat)
    requires a < Power2(k) && b < Power2(k)
    ensures XorLow(a, b, k) == 0 <==> a == b
  {
    if k > 0 { XorLowZero(a / 2, b / 2, k - 1); }
  }

  lemma XorZero(a: byte, b: byte)
    ensures Xor(a, b) == 0 <==> a == b
  {
    hide XorLow;
    EightBits();
    XorLowZero(a, b, 8);
  }

  lemma {:induction false} XorLowBack(a: nat, b: nat, k: nat)
    requires a < Power2(k) && b < Power2(k)
    ensures XorLow(a, b, k) < Power2(k) && XorLow(XorLow(a, b, k), a, k) == b
  {
    if k > 0 {
      XorLowBack(a / 2, b / 2, k - 1);
      Halves(XorLow(a, b, k), XorLow(a / 2, b / 2, k - 1));
    }
  }

  /** Bit `i` of a number. */
  function Bit(a: nat, i: nat): nat { if i == 0 then a % 2 else Bit(a / 2, i - 1) }

  lemma {:induction false} XorLowBits(a: nat, b: nat, k: nat, i: nat)
    requires i < k
    ensures Bit(XorLow(a, b, k), i) == if Bit(a, i) == Bit(b, i) then 0 else 1
  {
    Halves(XorLow(a, b, k), XorLow(a / 2, b / 2, k - 1));
    if i > 0 { XorLowBits(a / 2, b / 2, k - 1, i - 1); }
  }

  /** Exclusive or sets exactly the bits in which two bytes differ. */
  lemma XorIsBitwise(a: byte, b: byte, i: nat)
    requires i < 8
    ensures Bit(Xor(a, b), i) == if Bit(a, i) == Bit(b, i) then 0 else 1
  {
    hide XorLow;
    XorLowBits(a, b, 8, i);
  }

  lemma XorBack(a: byte, b: byte)
    ensures Xor(Xor(a, b), a) == b
  {
    EightBits();
    XorLowBack(a, b, 8);
  }

  function XorBytes(a: bytes, b: bytes): (c: bytes)
    requires |a| == |b|
    ensures |c| == |a|
  {
    seq(|a|, i requires 0 <= i < |a| => Xor(a[i], b[i]))
  }

  lemma XorBytesTwice(a: bytes, b: bytes)
    requires |a| == |b|
    ensures XorBytes(XorBytes(a, b), b) == a
  {
    forall i | 0 <= i < |a| ensures XorBytes(XorBytes(a, b), b)[i] == a[i] {
      XorTwice(a[i], b[i]);
    }
  }

  // ---------- section 2 of RFC 2104 ----------

  function KeyBlock(f: Compress, key: bytes): (k: bytes)
    ensures |k| == 64
  {
    if |key| > 64 then Sha(f, key) + Zeros(32) else key + Zeros(64 - |key|)
  }

  function XorEach(k: bytes, pad: byte): (r: bytes)
    ensures |r| == |k|
  {
    seq(|k|, i requires 0 <= i < |k| => Xor(k[i], pad))
  }

  function Hmac(f: Compress, key: bytes, msg: bytes): (d: bytes)
    ensures |d| == 32
  {
    var k := KeyBlock(f, key);
    Sha(f, XorEach(k, 0x5c) + Sha(f, XorEach(k, 0x36) + msg))
  }

  /** HMAC byte by byte: for a key of at most 64 bytes with zeros behind it, or the digest of a longer one. */
  lemma HmacOnBytes(f: Compress, key: bytes, msg: bytes, k: bytes, inner: bytes, outer: bytes)
    requires |k| == 64 && |inner| == 64 && |outer| == 64
    requires var first := if |key| > 64 then Sha(f, key) else key;
      forall i :: 0 <= i < 64 ==> k[i] == if i < |first| then first[i] else 0
    requires forall i :: 0 <= i < 64 ==> inner[i] == Xor(k[i], 0x36) && outer[i] == Xor(k[i], 0x5c)
    ensures Hmac(f, key, msg) == Sha(f, outer + Sha(f, inner + msg))
  {
    hide Sha, Xor;
    assert KeyBlock(f, key) == k;
    assert XorEach(k, 0x36) == inner && XorEach(k, 0x5c) == outer;
  }

  method Digest(f: Compress, data: array<byte>, n: nat, out: array<byte>)
    requires n <= data.Length && out.Length >= 32
    modifies out
    ensures out[..32] == Sha(f, old(data[..n])) && out[32..] == old(out[32..])
  {
    hide Sha;
    var c := new Ctx(f);
    c.Update(data, n);
    assert [] + data[..n] == data[..n];
    c.Final(out);
  }

  method KeyBlockOf(f: Compress, key: array<byte>, keylen: nat) returns (k: array<byte>)
    requires keylen <= key.Length
    ensures fresh(k) && k[..] == KeyBlock(f, key[..keylen])
  {
    hide Sha;
    k := new byte[64](i => 0);
    if keylen > 64 {
      assert k[32..] == Zeros(32);
      Digest(f, key, keylen, k);
      assert k[..] == k[..32] + k[32..];
    } else {
      for i := 0 to keylen
        invariant k[..i] == key[..i] && k[i..] == Zeros(64 - i)
      {
        k[i] := key[i];
      }
      assert k[..] == k[..keylen] + k[keylen..];
    }
  }

  method PadOf(k: array<byte>, pad: byte) returns (p: array<byte>)
    requires k.Length == 64
    ensures fresh(p) && p[..] == XorEach(k[..], pad)
  {
    hide Xor;
    p := new byte[64](i => 0);
    for i := 0 to 64
      invariant forall j :: 0 <= j < i ==> p[j] == Xor(k[j], pad)
    {
      p[i] := Xor(k[i], pad);
    }
  }

  /** The message is read before the result is written, so the two may be the same array. */
  method HmacSha256(f: Compress, key: array<byte>, keylen: nat, msg: array<byte>, msglen: nat, out: array<byte>)
    requires keylen <= key.Length && msglen <= msg.Length && out.Length >= 32
    modifies out
    ensures out[..32] == Hmac(f, old(key[..keylen]), old(msg[..msglen])) && out[32..] == old(out[32..])
  {
    hide Sha, XorEach, KeyBlock;
    var k := KeyBlockOf(f, key, keylen);
    var ipad := PadOf(k, 0x36);
    var opad := PadOf(k, 0x5c);
    var inner := new byte[32];
    var c := new Ctx(f);
    HashTwo(c, ipad, msg, msglen, inner);
    assert inner[..32] == inner[..];
    HashTwo(c, opad, inner, 32, out);
  }

  method HashTwo(c: Ctx, a: array<byte>, b: array<byte>, n: nat, out: array<byte>)
    requires c.block.Length == 64 && a.Length == 64 && n <= b.Length && out.Length >= 32
    requires c.block != a && c.block != b && c.block != out
    modifies c, c.block, out
    ensures out[..32] == Sha(c.compress, old(a[..] + b[..n])) && out[32..] == old(out[32..])
    ensures c.block.Length == 64
  {
    hide Sha;
    c.Init();
    c.Update(a, 64);
    assert a[..64] == a[..] && [] + a[..] == a[..];
    c.Update(b, n);
    c.Final(out);
  }

  // ---------- section 5.2 of RFC 8018 ----------

  /** U_1, U_2, ...: the function applied again and again; `u` is the first input. */
  function Chain(f: Compress, pwd: bytes, u: bytes, c: nat): bytes
    requires c >= 1
  {
    Hmac(f, pwd, if c == 1 then u else Chain(f, pwd, u, c - 1))
  }

  /** T_i: the exclusive or of U_1 to U_c. */
  function Mixed(f: Compress, pwd: bytes, u: bytes, c: nat): (t: bytes)
    requires c >= 1
    ensures |t| == 32
  {
    if c == 1 then Chain(f, pwd, u, 1) else XorBytes(Mixed(f, pwd, u, c - 1), Chain(f, pwd, u, c))
  }

  /** Salt and block number. */
  function FirstInput(salt: bytes, index: nat): bytes { salt + Big4(index % TWO_32) }

  /** T_1 to T_n, one after the other. */
  function KeyBlocks(f: Compress, pwd: bytes, salt: bytes, c: nat, n: nat): (k: bytes)
    requires c >= 1
    ensures |k| == 32 * n
  {
    if n == 0 then [] else KeyBlocks(f, pwd, salt, c, n - 1) + Mixed(f, pwd, FirstInput(salt, n), c)
  }

  /** The derived key; fewer than one round counts as one. */
  function Derived(f: Compress, pwd: bytes, salt: bytes, iters: int, len: nat): (k: bytes)
    ensures |k| == len
  {
    KeyBlocks(f, pwd, salt, if iters < 1 then 1 else iters, (len + 31) / 32)[..len]
  }

  /** Every byte of the key is a byte of the block that it falls into; blocks are numbered from 1. */
  lemma {:induction false} DerivedByBlocks(f: Compress, pwd: bytes, salt: bytes, iters: int, len: nat, i: nat, j: nat)
    requires j < 32 && i * 32 + j < len
    ensures Derived(f, pwd, salt, iters, len)[i * 32 + j]
            == Mixed(f, pwd, salt + Big4((i + 1) % TWO_32), if iters < 1 then 1 else iters)[j]
  {
    hide Mixed, KeyBlocks, Big4;
    BlockAt(f, pwd, salt, if iters < 1 then 1 else iters, (len + 31) / 32, i, j);
  }

  lemma {:induction false} BlockAt(f: Compress, pwd: bytes, salt: bytes, c: nat, n: nat, i: nat, j: nat)
    requires c >= 1 && j < 32 && i < n
    ensures KeyBlocks(f, pwd, salt, c, n)[i * 32 + j] == Mixed(f, pwd, FirstInput(salt, i + 1), c)[j]
  {
    hide Mixed, FirstInput;
    var front, t := KeyBlocks(f, pwd, salt, c, n - 1), Mixed(f, pwd, FirstInput(salt, n), c);
    assert KeyBlocks(f, pwd, salt, c, n) == front + t;
    if i < n - 1 {
      BlockAt(f, pwd, salt, c, n - 1, i, j);
      assert (front + t)[i * 32 + j] == front[i * 32 + j];
    } else {
      assert (front + t)[|front| + j] == t[j];
    }
  }

  function Ones(us: seq<bytes>, j: nat, b: nat): nat
    requires forall i :: 0 <= i < |us| ==> |us[i]| == 32
    requires j < 32
  {
    if us == [] then 0 else Ones(us[..|us| - 1], j, b) + Bit(us[|us| - 1][j], b)
  }

  /** U_1 is HMAC of the input, each later U is HMAC of the one before. */
  ghost predicate IsChain(f: Compress, pwd: bytes, u: bytes, us: seq<bytes>) {
    us != [] && us[0] == Hmac(f, pwd, u) && forall i :: 1 <= i < |us| ==> us[i] == Hmac(f, pwd, us[i - 1])
  }

  lemma ChainGoesOn(f: Compress, pwd: bytes, u: bytes, us: seq<bytes>)
    requires IsChain(f, pwd, u, us)
    ensures IsChain(f, pwd, u, us + [Hmac(f, pwd, us[|us| - 1])])
  {
    hide Hmac;
  }

  /** T is the parity, bit by bit, of U_1 to U_c. */
  lemma {:induction false} MixedIsParity(f: Compress, pwd: bytes, u: bytes, c: nat) returns (us: seq<bytes>)
    requires c >= 1
    ensures |us| == c && (forall i :: 0 <= i < c ==> |us[i]| == 32) && IsChain(f, pwd, u, us)
    ensures us[c - 1] == Chain(f, pwd, u, c)
    ensures forall j, b :: 0 <= j < 32 && 0 <= b < 8 ==> Bit(Mixed(f, pwd, u, c)[j], b) == Ones(us, j, b) % 2
  {
    hide Hmac, Xor, Bit, IsChain, Mixed, Chain, Ones;
    if c == 1 {
      us := [Hmac(f, pwd, u)];
      FirstOfChain(f, pwd, u);
      forall j, b | 0 <= j < 32 && 0 <= b < 8 ensures Bit(Mixed(f, pwd, u, 1)[j], b) == Ones(us, j, b) % 2 {
        OneOnes(us, j, b);
        BitRange(us[0][j], b);
      }
    } else {
      var first := MixedIsParity(f, pwd, u, c - 1);
      var last := Chain(f, pwd, u, c);
      ChainNext(f, pwd, u, c);
      ChainGoesOn(f, pwd, u, first);
      us := first + [last];
      forall j, b | 0 <= j < 32 && 0 <= b < 8 ensures Bit(Mixed(f, pwd, u, c)[j], b) == Ones(us, j, b) % 2 {
        MoreOnes(first, last, j, b);
        MixedNext(f, pwd, u, c, j);
        XorIsBitwise(Mixed(f, pwd, u, c - 1)[j], last[j], b);
        BitRange(last[j], b);
      }
    }
  }

  lemma ChainNext(f: Compress, pwd: bytes, u: bytes, c: nat)
    requires c > 1
    ensures Chain(f, pwd, u, c) == Hmac(f, pwd, Chain(f, pwd, u, c - 1))
  {
  }

  lemma MixedNext(f: Compress, pwd: bytes, u: bytes, c: nat, j: nat)
    requires c > 1 && j < 32
    ensures |Chain(f, pwd, u, c)| == 32
    ensures Mixed(f, pwd, u, c)[j] == Xor(Mixed(f, pwd, u, c - 1)[j], Chain(f, pwd, u, c)[j])
  {
    hide Hmac, Xor;
  }

  lemma MoreOnes(us: seq<bytes>, last: bytes, j: nat, b: nat)
    requires (forall i :: 0 <= i < |us| ==> |us[i]| == 32) && |last| == 32 && j < 32
    ensures Ones(us + [last], j, b) == Ones(us, j, b) + Bit(last[j], b)
  {
    var all := us + [last];
    assert all[..|all| - 1] == us;
  }

  lemma FirstOfChain(f: Compress, pwd: bytes, u: bytes)
    ensures IsChain(f, pwd, u, [Hmac(f, pwd, u)])
    ensures Chain(f, pwd, u, 1) == Hmac(f, pwd, u) == Mixed(f, pwd, u, 1)
  {
  }

  lemma OneOnes(us: seq<bytes>, j: nat, b: nat)
    requires |us| == 1 && |us[0]| == 32 && j < 32
    ensures Ones(us, j, b) == Bit(us[0][j], b)
  {
    assert us[..0] == [];
  }

  lemma {:induction false} BitRange(a: nat, i: nat)
    ensures Bit(a, i) < 2
  {
    if i > 0 { BitRange(a / 2, i - 1); }
  }

  /** One block: the rounds feed `u` back into itself. */
  method Rounds(f: Compress, pwd: array<byte>, pwdlen: nat, first: array<byte>, iters: int) returns (t: array<byte>)
    requires pwdlen <= pwd.Length
    ensures fresh(t) && t.Length == 32
    ensures t[..] == Mixed(f, pwd[..pwdlen], first[..], if iters < 1 then 1 else iters)
  {
    hide Hmac, XorBytes;
    ghost var p, s := pwd[..pwdlen], first[..];
    var u := new byte[32];
    assert first[..first.Length] == first[..];
    HmacSha256(f, pwd, pwdlen, first, first.Length, u);
    assert u[..32] == u[..];
    t := new byte[32](j requires 0 <= j < 32 reads u => u[j]);
    assert t[..] == u[..];
    var i := 1;
    while i < iters
      invariant 1 <= i && (i <= iters || i == 1)
      invariant pwd[..pwdlen] == p
      invariant u[..] == Chain(f, p, s, i) && t[..] == Mixed(f, p, s, i)
    {
      assert u[..32] == u[..];
      HmacSha256(f, pwd, pwdlen, u, 32, u);
      assert u[..32] == u[..];
      XorInto(t, u);
      i := i + 1;
    }
  }

  method XorInto(t: array<byte>, u: array<byte>)
    requires t.Length == u.Length && t != u
    modifies t
    ensures t[..] == XorBytes(old(t[..]), u[..])
  {
    hide Xor;
    for j := 0 to t.Length
      invariant forall k :: 0 <= k < j ==> t[k] == Xor(old(t[k]), u[k])
      invariant forall k :: j <= k < t.Length ==> t[k] == old(t[k])
    {
      t[j] := Xor(t[j], u[j]);
    }
  }

  method SaltAndIndex(salt: array<byte>, index: word) returns (msg: array<byte>)
    ensures fresh(msg) && msg[..] == salt[..] + Big4(index)
  {
    hide Narrow, ByteAt;
    var w := Narrow(index);
    ShiftsAreBigEndian(index);
    SameBytes(index, ByteAt(w, 24), ByteAt(w, 16), ByteAt(w, 8), ByteAt(w, 0));
    var n := salt.Length;
    msg := new byte[n + 4];
    for i := 0 to n
      invariant msg[..i] == salt[..i]
    {
      msg[i] := salt[i];
    }
    assert msg[..n] == salt[..];
    msg[n] := ByteAt(w, 24);
    msg[n + 1] := ByteAt(w, 16);
    msg[n + 2] := ByteAt(w, 8);
    msg[n + 3] := ByteAt(w, 0);
    assert msg[..n] == salt[..];
    assert msg[..] == msg[..n] + [ByteAt(w, 24), ByteAt(w, 16), ByteAt(w, 8), ByteAt(w, 0)];
  }

  /** T_n+1, or as much of it as is asked for, behind the blocks before. */
  method NextBlock(f: Compress, pwd: array<byte>, pwdlen: nat, salt: array<byte>, iters: int, index: word,
                   out: array<byte>, done: nat, take: nat, outlen: nat, ghost n: nat)
    requires pwdlen <= pwd.Length && out != pwd && out != salt && index == (n + 1) % TWO_32
    requires done == 32 * n && take <= 32 && done + take <= outlen <= out.Length
    requires out[..done] == KeyBlocks(f, pwd[..pwdlen], salt[..], if iters < 1 then 1 else iters, n)
    modifies out
    ensures out[..done + take] ==
      KeyBlocks(f, pwd[..pwdlen], salt[..], if iters < 1 then 1 else iters, n + 1)[..done + take]
    ensures out[outlen..] == old(out[outlen..])
  {
    hide Mixed, KeyBlocks;
    ghost var p, s, c: nat := pwd[..pwdlen], salt[..], if iters < 1 then 1 else iters;
    var msg := SaltAndIndex(salt, index);
    var t := Rounds(f, pwd, pwdlen, msg, iters);
    CopyInto(out, done, t, take, outlen);
    OneMoreBlock(f, p, s, c, n);
    TakeMore(KeyBlocks(f, p, s, c, n), t[..], done, take);
    assert KeyBlocks(f, p, s, c, n)[..done] == KeyBlocks(f, p, s, c, n);
  }

  method Pbkdf2(f: Compress, pwd: array<byte>, pwdlen: nat, salt: array<byte>, iters: int, out: array<byte>,
                outlen: nat)
    requires pwdlen <= pwd.Length && outlen <= out.Length && out != pwd && out != salt
    modifies out
    ensures out[..outlen] == Derived(f, pwd[..pwdlen], salt[..], iters, outlen) && out[outlen..] == old(out[outlen..])
  {
    hide Mixed, KeyBlocks;
    ghost var p, s, c: nat := pwd[..pwdlen], salt[..], if iters < 1 then 1 else iters;
    var index: word := 1;
    var done: nat := 0;
    ghost var n: nat := 0;
    NoBlocks(f, p, s, c);
    assert out[..0] == [];
    while done < outlen
      invariant done == Min(32 * n, outlen) && index == (n + 1) % TWO_32
      invariant n == 0 || 32 * (n - 1) < outlen
      invariant pwd[..pwdlen] == p && salt[..] == s
      invariant out[..done] == KeyBlocks(f, p, s, c, n)[..done]
      invariant out[outlen..] == old(out[outlen..])
      decreases outlen - done
    {
      var take: nat := if outlen - done < 32 then outlen - done else 32;
      NextBlock(f, pwd, pwdlen, salt, iters, index, out, done, take, outlen, n);
      NextIndex(n + 1);
      done := done + take;
      index := (index + 1) % TWO_32;
      n := n + 1;
    }
    assert n == (outlen + 31) / 32;
  }


  lemma NextIndex(n: nat)
    ensures (n % TWO_32 + 1) % TWO_32 == (n + 1) % TWO_32
  {
  }

  lemma NoBlocks(f: Compress, pwd: bytes, salt: bytes, c: nat)
    requires c >= 1
    ensures KeyBlocks(f, pwd, salt, c, 0) == []
  {
  }

  lemma OneMoreBlock(f: Compress, pwd: bytes, salt: bytes, c: nat, n: nat)
    requires c >= 1
    ensures KeyBlocks(f, pwd, salt, c, n + 1) ==
      KeyBlocks(f, pwd, salt, c, n) + Mixed(f, pwd, FirstInput(salt, n + 1), c)
  {
  }

  lemma TakeMore(k: bytes, t: bytes, done: nat, take: nat)
    requires done == |k| && take <= |t|
    ensures k[..done] + t[..take] == (k + t)[..done + take]
  {
  }

  method CopyInto(out: array<byte>, at: nat, t: array<byte>, take: nat, end: nat)
    requires at + take <= end <= out.Length && take <= t.Length && t != out
    modifies out
    ensures out[..at + take] == old(out[..at]) + t[..take] && out[end..] == old(out[end..])
  {
    assert out[..at] + t[..0] == out[..at];
    for i := 0 to take
      invariant out[..at + i] == old(out[..at]) + t[..i] && out[end..] == old(out[end..])
    {
      out[at + i] := t[i];
      assert out[..at + i + 1] == out[..at + i] + [t[i]] && t[..i + 1] == t[..i] + [t[i]];
    }
  }
}
