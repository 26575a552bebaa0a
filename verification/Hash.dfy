/** The loops around the compression function in include/chat/pwd_hash.h, against their standards. The compression
    function itself is a parameter. */
module Hash {
  import opened Bytes
  import opened ByteOrder

  type word = x: int | 0 <= x < TWO_32

  const TWO_64 := 0x1_0000_0000_0000_0000
  const IV: seq<word> :=
    [0x6a09e667, 0xbb67ae85, 0x3c6ef372, 0xa54ff53a, 0x510e527f, 0x9b05688c, 0x1f83d9ab, 0x5be0cd19]

  type Words = w: seq<word> | |w| == 8 witness IV
  type Compress = (Words, bytes) -> Words

  // ---------- section 5.1.1 and 6.2 of FIPS 180-4 ----------

  /** The chaining value after whole blocks. */
  function Blocks(f: Compress, s: bytes): Words
    requires |s| % 64 == 0
  {
    if s == [] then IV else f(Blocks(f, s[..|s| - 64]), s[|s| - 64..])
  }

  function Zeros(n: nat): bytes { seq(n, _ => 0) }

  /** The fewest zero bytes that leave room for the length at the end of a block. */
  function PadZeros(n: nat): nat { (55 - n) % 64 }

  function Big8(n: nat): (b: bytes)
    ensures |b| == 8
  {
    seq(8, i requires 0 <= i < 8 => ByteOf(n, i))
  }

  /** Byte `i` of eight, the highest first: what `(total >> (56 - i * 8)) & 0xFF` is. */
  function ByteOf(n: nat, i: nat): byte
    requires i < 8
  {
    n / Pow256(7 - i) % 256
  }

  function Pow256(k: nat): (p: nat)
    ensures p > 0
  {
    if k == 0 then 1 else 256 * Pow256(k - 1)
  }

  function Padding(n: nat): bytes { [0x80] + Zeros(PadZeros(n)) + Big8(n * 8 % TWO_64) }

  /** Padding fills up the last block, with as few zeros as do. */
  lemma PaddingFills(n: nat)
    ensures (n + |Padding(n)|) % 64 == 0
  {
  }

  lemma FewestZeros(n: nat, z: nat)
    requires (n + 1 + z + 8) % 64 == 0
    ensures z >= PadZeros(n)
  {
  }

  /** Bytes read as one number, the highest first. */
  function ReadBig(b: bytes): nat { if b == [] then 0 else ReadBig(b[..|b| - 1]) * 256 + b[|b| - 1] }

  lemma DivideAgain(n: nat, p: nat)
    requires p > 0
    ensures n / p / 256 == n / (256 * p)
  {
    var q, r := n / p, n % p;
    var a, b := q / 256, q % 256;
    assert n == q * p + r && q == 256 * a + b;
    Spreads(a, b, p);
    Grown(b, p);
    Quotient(n, 256 * p, a, b * p + r);
  }

  lemma Spreads(a: nat, b: nat, p: nat)
    ensures (256 * a + b) * p == a * (256 * p) + b * p
  {
  }

  lemma Grown(b: nat, p: nat)
    requires b < 256
    ensures 0 <= b * p <= 255 * p
  {
  }

  lemma Quotient(n: nat, d: nat, q: nat, r: nat)
    requires d > 0 && n == q * d + r && r < d
    ensures n / d == q
  {
    var x := n / d;
    assert n == x * d + n % d;
    assert (x - q) * d == r - n % d;
    FarApart(x - q, d);
  }

  lemma FarApart(k: int, d: int)
    requires d > 0
    ensures (k > 0 ==> k * d >= d) && (k < 0 ==> k * d <= -d)
  {
    if k > 0 { Grows(k, d); }
    if k < 0 { Grows(-k, d); }
  }

  lemma {:induction false} Grows(k: int, d: int)
    requires d > 0 && k > 0
    ensures k * d >= d && (-k) * d == -(k * d)
  {
    if k > 1 { Grows(k - 1, d); }
  }

  lemma {:induction false} Big8Prefix(n: nat, k: nat)
    requires k <= 8 && n < Pow256(8)
    ensures ReadBig(Big8(n)[..k]) == n / Pow256(8 - k)
  {
    if k > 0 {
      Big8Prefix(n, k - 1);
      var b := Big8(n)[..k];
      assert b[..|b| - 1] == Big8(n)[..k - 1] && b[|b| - 1] == n / Pow256(8 - k) % 256;
      assert Pow256(8 - (k - 1)) == 256 * Pow256(8 - k);
      DivideAgain(n, Pow256(8 - k));
    } else {
      SmallQuotient(n, Pow256(8));
    }
  }

  lemma SmallQuotient(n: nat, d: nat)
    requires n < d
    ensures n / d == 0
  {
  }

  lemma EightBytes()
    ensures Pow256(8) == TWO_64 && Pow256(0) == 1
  {
    assert Pow256(4) == 0x1_0000_0000;
  }

  /** The padded message of section 5.1.1 of FIPS 180-4: the message, the bit 1, zeros, and the number of bits
      in 64 bits. */
  lemma PaddedForm(m: bytes)
    ensures var p := m + Padding(|m|);
      && |p| % 64 == 0 && |p| >= |m| + 9 && p[..|m|] == m && p[|m|] == 0x80
      && (forall i :: |m| < i < |p| - 8 ==> p[i] == 0)
      && ReadBig(p[|p| - 8..]) == |m| * 8 % TWO_64
  {
    PaddingFills(|m|);
    var p, b := m + Padding(|m|), Big8(|m| * 8 % TWO_64);
    EightBytes();
    Big8Prefix(|m| * 8 % TWO_64, 8);
    assert b[..8] == b && p[|p| - 8..] == b;
    WholeQuotient(|m| * 8 % TWO_64);
  }

  lemma WholeQuotient(n: nat)
    ensures n / 1 == n
  {
  }

  /** Different messages below 2^61 bytes are different after padding. */
  lemma PaddingIsInjective(m: bytes, m': bytes)
    requires |m| * 8 < TWO_64 && |m'| * 8 < TWO_64
    ensures m + Padding(|m|) == m' + Padding(|m'|) <==> m == m'
  {
    hide ReadBig, Padding;
    PaddedForm(m);
    PaddedForm(m');
    assert |m| * 8 % TWO_64 == |m| * 8 && |m'| * 8 % TWO_64 == |m'| * 8;
    SameEnds(m, Padding(|m|), m', Padding(|m'|));
  }

  lemma SameEnds(m: bytes, pad: bytes, m': bytes, pad': bytes)
    requires |m| * 8 < TWO_64 && |m'| * 8 < TWO_64 && |m + pad| >= 8 && |m' + pad'| >= 8
    requires ReadBig((m + pad)[|m + pad| - 8..]) == |m| * 8 && ReadBig((m' + pad')[|m' + pad'| - 8..]) == |m'| * 8
    requires m == m' ==> pad == pad'
    ensures m + pad == m' + pad' <==> m == m'
  {
    hide ReadBig;
    assert m == (m + pad)[..|m|] && m' == (m' + pad')[..|m'|];
  }

  /** Where in its block the next byte goes, after a message of `n` bytes, the marker and `z` zeros. */
  function Place(n: nat, z: nat): (p: nat)
    ensures p < 64
  {
    (n + 1 + z) % 64
  }

  /** Place 56 is reached with the padding's zeros, and not before. */
  lemma PlaceOfZeros(n: nat, z: nat)
    requires z <= PadZeros(n)
    ensures Place(n, z) == 56 <==> z == PadZeros(n)
    ensures Place(n, z + 1) == (Place(n, z) + 1) % 64
  {
    if Place(n, z) == 56 {
      EightMore(n + 1 + z);
      FewestZeros(n, z);
    }
    NextPlace(n + 1 + z);
  }

  lemma EightMore(k: nat)
    requires k % 64 == 56
    ensures (k + 8) % 64 == 0
  {
  }

  lemma OneMoreZero(n: nat)
    ensures Zeros(n + 1) == Zeros(n) + [0] && Zeros(0) == []
  {
  }

  lemma NextPlace(k: nat)
    ensures (k % 64 + 1) % 64 == (k + 1) % 64
  {
  }

  /** The count of bits may wrap around on the way; only its value modulo 2^64 goes into the padding. */
  lemma BitsAdd(whole: nat, more: nat)
    ensures (whole * 8 % TWO_64 + more * 8) % TWO_64 == (whole + more) * 8 % TWO_64
  {
  }

  function Big4(w: word): (b: bytes)
    ensures |b| == 4 && BigEndian(b[0], b[1], b[2], b[3]) == w
  {
    var c := w / 0x100;
    var b := c / 0x100;
    [b / 0x100, b % 0x100, c % 0x100, w % 0x100]
  }

  function Spread(h: seq<word>): (b: bytes)
    ensures |b| == 4 * |h|
  {
    if h == [] then [] else Spread(h[..|h| - 1]) + Big4(h[|h| - 1])
  }

  function Sha(f: Compress, m: bytes): (d: bytes)
    ensures |d| == 32
  {
    PaddingFills(|m|);
    Spread(Blocks(f, m + Padding(|m|)))
  }

  // ---------- streaming ----------

  lemma SpreadStep(h: seq<word>, i: nat)
    requires i < |h|
    ensures Spread(h[..i + 1]) == Spread(h[..i]) + Big4(h[i])
  {
    assert h[..i + 1][..i] == h[..i];
  }

  function Whole(s: bytes): bytes { s[..|s| - |s| % 64] }

  function Rest(s: bytes): bytes { s[|s| - |s| % 64..] }

  /** Everything fed so far is in the chaining value, except an incomplete block that waits. */
  ghost predicate Streams(f: Compress, h: Words, bitlen: nat, waiting: bytes, fed: bytes) {
    && h == Blocks(f, Whole(fed))
    && waiting == Rest(fed) && |waiting| < 64
    && bitlen == |Whole(fed)| * 8 % TWO_64
  }

  lemma Parted(s: bytes)
    ensures |Rest(s)| == |s| % 64 && |Whole(s)| + |Rest(s)| == |s| && |Whole(s)| % 64 == 0
    ensures Rest(s) == [] ==> Whole(s) == s
  {
  }

  lemma NothingStreams(f: Compress)
    ensures Streams(f, IV, 0, [], [])
  {
  }

  lemma ByteStreams(f: Compress, h: Words, bitlen: nat, waiting: bytes, fed: bytes, b: byte)
    requires Streams(f, h, bitlen, waiting, fed)
    ensures |waiting| + 1 < 64 ==> Streams(f, h, bitlen, waiting + [b], fed + [b])
    ensures |waiting| + 1 == 64 ==> Streams(f, f(h, waiting + [b]), (bitlen + 512) % TWO_64, [], fed + [b])
  {
    hide Blocks, Whole, Rest;
    NextByte(fed, b);
    Parted(fed);
    if |waiting| + 1 == 64 {
      BlockDone(f, Whole(fed), waiting + [b]);
      BitsAdd(|Whole(fed)|, 64);
    }
  }

  /** A byte joins the incomplete block, or completes it. */
  lemma NextByte(fed: bytes, b: byte)
    ensures |Rest(fed)| + 1 < 64 ==> Whole(fed + [b]) == Whole(fed) && Rest(fed + [b]) == Rest(fed) + [b]
    ensures |Rest(fed)| + 1 == 64 ==> Whole(fed + [b]) == Whole(fed) + (Rest(fed) + [b]) && Rest(fed + [b]) == []
  {
    NextPlace(|fed|);
    assert fed == Whole(fed) + Rest(fed);
    Assoc(Whole(fed), Rest(fed), [b]);
  }

  lemma AllStreamed(f: Compress, h: Words, bitlen: nat, waiting: bytes, fed: bytes)
    requires Streams(f, h, bitlen, waiting, fed)
    ensures |waiting| == |fed| % 64
    ensures (bitlen + |waiting| * 8) % TWO_64 == |fed| * 8 % TWO_64
    ensures waiting == [] ==> |fed| % 64 == 0 && h == Blocks(f, fed)
  {
    hide Blocks, Whole, Rest, TWO_64;
    Parted(fed);
    BitsOfParts(|Whole(fed)|, |Rest(fed)|, |fed|);
  }

  lemma BitsOfParts(whole: nat, more: nat, all: nat)
    requires all == whole + more
    ensures (whole * 8 % TWO_64 + more * 8) % TWO_64 == all * 8 % TWO_64
  {
    BitsAdd(whole, more);
  }

  class Ctx {
    const compress: Compress
    var h: Words
    var bitlen: nat
    const block: array<byte>
    var blocklen: nat
    ghost var fed: bytes

    ghost predicate Valid()
      reads this, block
    {
      && block.Length == 64 && blocklen < 64
      && Streams(compress, h, bitlen, block[..blocklen], fed)
    }

    constructor (f: Compress)
      ensures Valid() && fed == [] && compress == f && fresh(block)
    {
      hide Streams;
      compress := f;
      block := new byte[64];
      h, bitlen, blocklen, fed := IV, 0, 0, [];
      new;
      NothingStreams(f);
      assert block[..0] == [];
    }

    method Init()
      requires block.Length == 64
      modifies this
      ensures Valid() && fed == []
    {
      hide Streams;
      h, bitlen, blocklen, fed := IV, 0, 0, [];
      NothingStreams(compress);
      assert block[..0] == [];
    }

    /** One byte of `update`. */
    method Push(b: byte)
      requires Valid()
      modifies this, block
      ensures Valid() && fed == old(fed) + [b]
      ensures blocklen == (old(blocklen) + 1) % 64
    {
      hide Streams;
      ghost var waiting := block[..blocklen];
      ByteStreams(compress, h, bitlen, waiting, fed, b);
      block[blocklen] := b;
      assert block[..blocklen + 1] == waiting + [b];
      blocklen := blocklen + 1;
      fed := fed + [b];
      if blocklen == 64 {
        assert block[..] == waiting + [b];
        h := compress(h, block[..]);
        bitlen := (bitlen + 512) % TWO_64;
        blocklen := 0;
        assert block[..0] == [];
      }
    }

    method Update(data: array<byte>, n: nat)
      requires Valid() && n <= data.Length && data != block
      modifies this, block
      ensures Valid() && fed == old(fed) + data[..n]
    {
      hide Valid;
      assert data[..0] == [] && fed + [] == fed;
      for i := 0 to n
        invariant Valid() && fed == old(fed) + data[..i]
      {
        assert data[..i + 1] == data[..i] + [data[i]];
        Assoc(old(fed), data[..i], [data[i]]);
        Push(data[i]);
      }
    }

    /** `final`: the padding goes through `update` as well; the zeros run on until eight places are left. */
    method Final(out: array<byte>)
      requires Valid() && out.Length >= 32 && out != block
      modifies this, block, out
      ensures out[..32] == Sha(compress, old(fed)) && out[32..] == old(out[32..])
      ensures block.Length == 64
    {
      hide Streams, Blocks, Spread, Padding;
      ghost var m := fed;
      AllStreamed(compress, h, bitlen, block[..blocklen], fed);
      var total := (bitlen + blocklen * 8) % TWO_64;
      Push(0x80);
      NextPlace(|m|);
      PushZeros(m);
      PushLength(m, total);
      AllStreamed(compress, h, bitlen, block[..blocklen], fed);
      assert block[..0] == [];
      WriteWords(out);
    }

    method PushZeros(ghost m: bytes)
      requires Valid() && fed == m + [0x80] && blocklen == Place(|m|, 0)
      modifies this, block
      ensures Valid() && fed == m + [0x80] + Zeros(PadZeros(|m|)) && blocklen == 56
    {
      hide Streams, PadZeros, Zeros, Place;
      ghost var zeros: nat := 0;
      OneMoreZero(0);
      assert fed + [] == fed;
      while blocklen != 56
        invariant Valid() && fed == m + [0x80] + Zeros(zeros) && zeros <= PadZeros(|m|)
        invariant blocklen == Place(|m|, zeros)
        decreases if blocklen <= 56 then 56 - blocklen else 120 - blocklen
      {
        PlaceOfZeros(|m|, zeros);
        OneMoreZero(zeros);
        Assoc(m + [0x80], Zeros(zeros), [0]);
        Push(0);
        zeros := zeros + 1;
      }
      PlaceOfZeros(|m|, zeros);
    }

    method PushLength(ghost m: bytes, total: nat)
      requires Valid() && blocklen == 56 && total == |m| * 8 % TWO_64
      requires fed == m + [0x80] + Zeros(PadZeros(|m|))
      modifies this, block
      ensures Valid() && fed == m + Padding(|m|) && blocklen == 0
    {
      hide Streams, ByteOf;
      ghost var front := fed;
      var i := 0;
      assert front + Big8(total)[..0] == front;
      while i < 8
        invariant 0 <= i <= 8 && Valid() && blocklen == (56 + i) % 64
        invariant fed == front + Big8(total)[..i]
      {
        assert Big8(total)[..i + 1] == Big8(total)[..i] + [ByteOf(total, i)];
        Assoc(front, Big8(total)[..i], [ByteOf(total, i)]);
        Push(ByteOf(total, i));
        i := i + 1;
      }
      assert Big8(total)[..8] == Big8(total);
      Regrouped(m, [0x80], Zeros(PadZeros(|m|)), Big8(total));
    }

    method WriteWords(out: array<byte>)
      requires out.Length >= 32
      modifies out
      ensures out[..32] == Spread(h) && out[32..] == old(out[32..])
    {
      hide Spread;
      SpreadNothing();
      assert h[..0] == [];
      for i := 0 to 8
        invariant out[..4 * i] == Spread(h[..i]) && out[32..] == old(out[32..])
      {
        SpreadStep(h, i);
        WriteWord(out, 4 * i, h[i]);
      }
      assert h[..8] == h;
    }
  }

  method WriteWord(out: array<byte>, at: nat, x: word)
    requires at + 4 <= 32 <= out.Length
    modifies out
    ensures out[..at + 4] == old(out[..at]) + Big4(x) && out[32..] == old(out[32..])
  {
    hide Narrow, ByteAt;
    var w := Narrow(x);
    ShiftsAreBigEndian(x);
    SameBytes(x, ByteAt(w, 24), ByteAt(w, 16), ByteAt(w, 8), ByteAt(w, 0));
    ghost var front := out[..at];
    out[at] := ByteAt(w, 24);
    out[at + 1] := ByteAt(w, 16);
    out[at + 2] := ByteAt(w, 8);
    out[at + 3] := ByteAt(w, 0);
    assert out[..at] == front;
    assert out[..at + 4] == front + [ByteAt(w, 24), ByteAt(w, 16), ByteAt(w, 8), ByteAt(w, 0)];
  }

  lemma Regrouped(a: bytes, b: bytes, c: bytes, d: bytes)
    ensures a + b + c + d == a + (b + c + d)
  {
  }

  lemma SpreadNothing()
    ensures Spread([]) == []
  {
  }

  /** A number has one big-endian form. */
  lemma SameBytes(w: word, a: byte, b: byte, c: byte, d: byte)
    requires BigEndian(a, b, c, d) == w
    ensures Big4(w) == [a, b, c, d]
  {
    var m := a * 0x100 + b;
    var n := m * 0x100 + c;
    assert w / 0x100 == n && w % 0x100 == d;
    assert n / 0x100 == m && n % 0x100 == c;
  }

  lemma BlockDone(f: Compress, done: bytes, waiting: bytes)
    requires |done| % 64 == 0 && |waiting| == 64
    ensures Blocks(f, done + waiting) == f(Blocks(f, done), waiting)
  {
    var s := done + waiting;
    assert s[..|s| - 64] == done && s[|s| - 64..] == waiting;
  }
}
