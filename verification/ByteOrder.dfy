/** The shifts and masks that write and read a 4-byte length, as arithmetic. */
module ByteOrder {
  import opened Bytes

  const TWO_32 := 0x1_0000_0000

  function BigEndian(a: int, b: int, c: int, d: int): int { ((a * 0x100 + b) * 0x100 + c) * 0x100 + d }

  function Wide(b: byte): bv32 { b as bv32 }
  function Value(w: bv32): int { w as int }
  function Narrow(n: int): bv32 requires 0 <= n < TWO_32 { n as bv32 }

  /** `b0 << 24 | b1 << 16 | b2 << 8 | b3`. The source shifts in a wider type; nothing reaches its upper half. */
  function Joined(a: bv32, b: bv32, c: bv32, d: bv32): bv32 { (a << 24) | (b << 16) | (c << 8) | d }

  function Pushed(w: bv32, b: bv32): bv32 { (w << 8) | b }

  lemma NarrowOfValue(w: bv32)
    ensures 0 <= Value(w) < TWO_32 && Narrow(Value(w)) == w
  {
  }

  lemma Widened(b: bv8)
    ensures (b as bv32) as int == b as int && b as bv32 <= 0xFF
  {
  }

  lemma WideValue(n: byte)
    ensures Value(Wide(n)) == n && Wide(n) <= 0xFF
  {
    Widened(n as bv8);
    NarrowOfValue((n as bv8) as bv32);
  }

  lemma PushedMasked(w: bv32, b: bv32)
    ensures Value(Pushed(w & 0xFF_FFFF, b & 0xFF)) == Value(w & 0xFF_FFFF) * 256 + Value(b & 0xFF)
  {
  }

  lemma MaskKeeps(w: bv32, b: bv32)
    requires w <= 0xFF_FFFF && b <= 0xFF
    ensures w & 0xFF_FFFF == w && b & 0xFF == b
  {
  }

  lemma PushedValue(w: bv32, b: bv32)
    requires w <= 0xFF_FFFF && b <= 0xFF
    ensures Value(Pushed(w, b)) == Value(w) * 256 + Value(b)
  {
    hide Value, Pushed;
    PushedMasked(w, b);
    MaskKeeps(w, b);
  }

  lemma JoinedNests(a: bv32, b: bv32, c: bv32, d: bv32)
    requires a <= 0xFF && b <= 0xFF && c <= 0xFF && d <= 0xFF
    ensures Joined(a, b, c, d) == Pushed(Pushed(Pushed(a, b), c), d)
    ensures Pushed(a, b) <= 0xFF_FFFF && Pushed(Pushed(a, b), c) <= 0xFF_FFFF
  {
  }

  /** Shifting and or-ing four bytes is reading them as a big-endian number. */
  lemma JoinedIsBigEndian(a: byte, b: byte, c: byte, d: byte)
    ensures Value(Joined(Wide(a), Wide(b), Wide(c), Wide(d))) == BigEndian(a, b, c, d)
  {
    hide Value, Pushed, Joined, Wide;
    WideValue(a);
    WideValue(b);
    WideValue(c);
    WideValue(d);
    var w, x, y, z := Wide(a), Wide(b), Wide(c), Wide(d);
    JoinedNests(w, x, y, z);
    assert w <= 0xFF_FFFF;
    PushedValue(w, x);
    PushedValue(Pushed(w, x), y);
    PushedValue(Pushed(Pushed(w, x), y), z);
  }

  /** A number below 2^32 is its own 32-bit word. */
  lemma ValueOfNarrow(n: int)
    requires 0 <= n < TWO_32
    ensures Value(Narrow(n)) == n
  {
    hide Value, Joined, Wide, Narrow;
    var m := n / 0x100;
    var l := m / 0x100;
    var a, b, c, d := l / 0x100, l % 0x100, m % 0x100, n % 0x100;
    JoinedIsBigEndian(a, b, c, d);
    NarrowOfValue(Joined(Wide(a), Wide(b), Wide(c), Wide(d)));
  }

  /** The byte that `(n >> shift) & 0xFF` leaves. */
  function ByteAt(w: bv32, shift: nat): byte
    requires shift in {0, 8, 16, 24}
  {
    var b := (w >> shift) & 0xFF;
    assert b <= 255;
    b as int
  }

  lemma BytesRejoin(w: bv32)
    ensures Joined((w >> 24) & 0xFF, (w >> 16) & 0xFF, (w >> 8) & 0xFF, w & 0xFF) == w
  {
  }

  lemma WideByteAt(w: bv32)
    ensures Wide(ByteAt(w, 24)) == (w >> 24) & 0xFF
    ensures Wide(ByteAt(w, 16)) == (w >> 16) & 0xFF
    ensures Wide(ByteAt(w, 8)) == (w >> 8) & 0xFF
    ensures Wide(ByteAt(w, 0)) == w & 0xFF
  {
    NarrowOfValue((w >> 24) & 0xFF);
    NarrowOfValue((w >> 16) & 0xFF);
    NarrowOfValue((w >> 8) & 0xFF);
    NarrowOfValue((w >> 0) & 0xFF);
    assert w >> 0 == w;
  }

  /** The four bytes that the shifts cut out are the big-endian digits. */
  lemma ShiftsAreBigEndian(n: int)
    requires 0 <= n < TWO_32
    ensures var w := Narrow(n);
      BigEndian(ByteAt(w, 24), ByteAt(w, 16), ByteAt(w, 8), ByteAt(w, 0)) == n
  {
    hide Value, Joined, Wide, Narrow, ByteAt;
    var w := Narrow(n);
    ValueOfNarrow(n);
    WideByteAt(w);
    BytesRejoin(w);
    JoinedIsBigEndian(ByteAt(w, 24), ByteAt(w, 16), ByteAt(w, 8), ByteAt(w, 0));
  }
}
