/** Parsing keeps text well encoded: from valid UTF-8 only valid UTF-8 strings come out. */
module JsonUtf8 {
  import opened Bytes
  import opened Json

  // ---------- UTF-8, section 4 of RFC 3629 ----------

  predicate IsTail(b: byte) { 0x80 <= b <= 0xBF }

  /** The length of the character at the head of `s`, 0 if there is no well-formed one. */
  function CharLength(s: bytes): (n: nat)
    ensures n <= |s| && n <= 4
  {
    if s == [] then 0
    else if s[0] < 0x80 then 1
    else if |s| < 2 then 0
    else if 0xC2 <= s[0] <= 0xDF then if IsTail(s[1]) then 2 else 0
    else if |s| < 3 || !IsTail(s[2]) then 0
    else if s[0] == 0xE0 then if 0xA0 <= s[1] <= 0xBF then 3 else 0
    else if 0xE1 <= s[0] <= 0xEC || s[0] == 0xEE || s[0] == 0xEF then if IsTail(s[1]) then 3 else 0
    else if s[0] == 0xED then if 0x80 <= s[1] <= 0x9F then 3 else 0
    else if |s| < 4 || !IsTail(s[3]) then 0
    else if s[0] == 0xF0 then if 0x90 <= s[1] <= 0xBF then 4 else 0
    else if 0xF1 <= s[0] <= 0xF3 then if IsTail(s[1]) then 4 else 0
    else if s[0] == 0xF4 then if 0x80 <= s[1] <= 0x8F then 4 else 0
    else 0
  }

  predicate ValidUtf8(s: bytes) {
    s == [] || (CharLength(s) > 0 && ValidUtf8(s[CharLength(s)..]))
  }

  lemma CharLengthLocal(c: bytes, s: bytes)
    requires c != [] && CharLength(c) == |c|
    ensures CharLength(c + s) == |c|
  {
  }

  lemma {:induction false} ValidAppend(a: bytes, b: bytes)
    requires ValidUtf8(a) && ValidUtf8(b)
    ensures ValidUtf8(a + b)
  {
    if a == [] {
      assert a + b == b;
    } else {
      var n := CharLength(a);
      assert a == a[..n] + a[n..];
      assert CharLength(a[..n]) == n;
      CharLengthLocal(a[..n], a[n..] + b);
      assert a + b == a[..n] + (a[n..] + b);
      Dropped(a[..n], a[n..] + b);
      ValidAppend(a[n..], b);
    }
  }

  lemma ThreeBytes(cp: nat)
    requires 0x800 <= cp <= 0xFFFF && !(0xD800 <= cp <= 0xDFFF)
    ensures CharLength(Utf8(cp)) == 3
  {
    var c := Utf8(cp);
    var rest := cp / 64;
    assert c[0] == 0xE0 + rest / 64 && c[1] == 0x80 + rest % 64;
    assert c[0] == 0xE0 ==> rest < 64 && rest >= 32;
    assert c[0] == 0xED ==> rest < 0x360;
  }

  lemma FourBytes(cp: nat)
    requires 0x10000 <= cp <= 0x10FFFF
    ensures CharLength(Utf8(cp)) == 4
  {
    var c := Utf8(cp);
    var rest := cp / 4096;
    assert c[0] == 0xF0 + rest / 64 && c[1] == 0x80 + rest % 64;
    assert 16 <= rest < 0x110;
  }

  /** `append_utf8` encodes every code point that is not a surrogate. */
  lemma EncodedIsValid(cp: nat)
    requires cp <= 0x10FFFF && !(0xD800 <= cp <= 0xDFFF)
    ensures ValidUtf8(Utf8(cp))
  {
    if cp >= 0x10000 { FourBytes(cp); }
    else if cp >= 0x800 { ThreeBytes(cp); }
    else if cp >= 0x80 { assert 2 <= cp / 64 < 32; }
    assert CharLength(Utf8(cp)) == |Utf8(cp)|;
    assert Utf8(cp)[|Utf8(cp)|..] == [];
  }

  // ---------- the characters that bytes spell, section 3 of RFC 3629 ----------

  /** Six more bits behind those in `high`. */
  function Six(high: nat, b: byte): nat { high * 64 + b % 64 }

  /** The character at the head of `s` by its bit patterns `0xxxxxxx`, `110xxxxx`, `1110xxxx` and `11110xxx`, each
      further byte being `10xxxxxx`. */
  function CharOf(s: bytes): (cp: nat)
    requires CharLength(s) > 0
  {
    if s[0] / 128 == 0 then s[0] % 128
    else if s[0] / 32 == 6 then Six(s[0] % 32, s[1])
    else if s[0] / 16 == 14 then Six(Six(s[0] % 16, s[1]), s[2])
    else Six(Six(Six(s[0] % 8, s[1]), s[2]), s[3])
  }

  /** All characters of a well-formed text. */
  function Chars(s: bytes): seq<nat>
    requires ValidUtf8(s)
  {
    if s == [] then [] else [CharOf(s)] + Chars(s[CharLength(s)..])
  }

  predicate IsScalar(cp: nat) { cp <= 0x10FFFF && !(0xD800 <= cp <= 0xDFFF) }

  lemma Sixes(x: nat, b: byte)
    requires b == 0x80 + x % 64
    ensures Six(x / 64, b) == x
  {
  }

  lemma ThreeAreSpelt(cp: nat)
    requires 0x800 <= cp <= 0xFFFF && IsScalar(cp)
    ensures CharLength(Utf8(cp)) == 3 && CharOf(Utf8(cp)) == cp
  {
    ThreeBytes(cp);
    var c := Utf8(cp);
    assert c[0] / 16 == 14 && c[0] % 16 == cp / 64 / 64;
    Sixes(cp / 64, c[1]);
    Sixes(cp, c[2]);
  }

  lemma FourAreSpelt(cp: nat)
    requires 0x10000 <= cp <= 0x10FFFF
    ensures CharLength(Utf8(cp)) == 4 && CharOf(Utf8(cp)) == cp
  {
    FourBytes(cp);
    var c := Utf8(cp);
    assert cp / 4096 == cp / 64 / 64 && cp / 262144 == cp / 64 / 64 / 64;
    assert c[0] / 8 == 30 && c[0] % 8 == cp / 64 / 64 / 64;
    Sixes(cp / 64 / 64, c[1]);
    Sixes(cp / 64, c[2]);
    Sixes(cp, c[3]);
  }

  lemma ShortAreSpelt(cp: nat)
    requires cp < 0x800
    ensures CharLength(Utf8(cp)) == |Utf8(cp)| && CharOf(Utf8(cp)) == cp
  {
    if cp >= 0x80 { assert 2 <= cp / 64 < 32 && Utf8(cp)[0] / 32 == 6; }
  }

  /** `append_utf8` writes exactly the character that it is given: the bits of its bytes spell `cp` again. */
  lemma {:induction false} Utf8SpellsIt(cp: nat)
    requires IsScalar(cp)
    ensures ValidUtf8(Utf8(cp)) && Chars(Utf8(cp)) == [cp]
  {
    EncodedIsValid(cp);
    if cp >= 0x10000 { FourAreSpelt(cp); } else if cp >= 0x800 { ThreeAreSpelt(cp); } else { ShortAreSpelt(cp); }
    var c := Utf8(cp);
    assert CharLength(c) == |c| && c[|c|..] == [];
    assert Chars([]) == [];
  }

  lemma SixApart(high: nat, b: byte)
    requires IsTail(b)
    ensures Six(high, b) / 64 == high && 0x80 + Six(high, b) % 64 == b
  {
  }

  lemma TwoAreUnique(s: bytes)
    requires CharLength(s) == 2
    ensures IsScalar(CharOf(s)) && Utf8(CharOf(s)) == s[..2]
  {
    SixApart(s[0] % 32, s[1]);
    assert s[0] / 32 == 6;
  }

  lemma ThreeAreUnique(s: bytes)
    requires CharLength(s) == 3
    ensures IsScalar(CharOf(s)) && Utf8(CharOf(s)) == s[..3]
  {
    assert s[0] / 32 == 7 && s[0] / 16 == 14 && s[0] == 0xE0 + s[0] % 16;
    var high := s[0] % 16;
    var mid := Six(high, s[1]);
    SixApart(high, s[1]);
    SixApart(mid, s[2]);
    assert CharOf(s) == Six(mid, s[2]) && CharOf(s) / 4096 == CharOf(s) / 64 / 64;
    assert high == 0 ==> mid >= 32;
    assert high == 13 ==> mid < 0x360;
  }

  lemma FourAreUnique(s: bytes)
    requires CharLength(s) == 4
    ensures IsScalar(CharOf(s)) && Utf8(CharOf(s)) == s[..4]
  {
    assert s[0] / 32 == 7 && s[0] / 16 == 15 && s[0] == 0xF0 + s[0] % 8;
    var high := s[0] % 8;
    var two := Six(high, s[1]);
    var three := Six(two, s[2]);
    var cp := Six(three, s[3]);
    SixApart(high, s[1]);
    SixApart(two, s[2]);
    SixApart(three, s[3]);
    assert CharOf(s) == cp && cp / 4096 == cp / 64 / 64 && cp / 262144 == cp / 64 / 64 / 64;
    assert high == 0 ==> two >= 16;
    assert high == 4 ==> two < 0x110;
  }

  /** Every well-formed character is the one that `append_utf8` writes for the bits in it. */
  lemma Utf8IsUnique(s: bytes)
    requires CharLength(s) > 0
    ensures IsScalar(CharOf(s)) && Utf8(CharOf(s)) == s[..CharLength(s)]
  {
    hide Utf8, IsScalar, CharOf, Six;
    match CharLength(s)
    case 2 => TwoAreUnique(s);
    case 3 => ThreeAreUnique(s);
    case 4 => FourAreUnique(s);
    case _ => OneIsUnique(s);
  }

  lemma OneIsUnique(s: bytes)
    requires CharLength(s) == 1
    ensures IsScalar(CharOf(s)) && Utf8(CharOf(s)) == s[..1]
  {
    assert s[0] / 128 == 0;
  }

  // ---------- strings ----------

  lemma AsciiHead(s: bytes)
    requires ValidUtf8(s) && s != [] && s[0] < 0x80
    ensures ValidUtf8(s[1..])
  {
  }

  lemma {:induction false} AsciiRun(s: bytes, n: nat)
    requires ValidUtf8(s) && n <= |s| && forall i :: 0 <= i < n ==> s[i] < 0x80
    ensures ValidUtf8(s[n..])
  {
    if n > 0 {
      AsciiRun(s[1..], n - 1);
      assert s[1..][n - 1..] == s[n..];
    }
  }

  lemma HexIsAscii(s: bytes)
    requires Hex4(s) >= 0
    ensures s[0] < 0x80 && s[1] < 0x80 && s[2] < 0x80 && s[3] < 0x80
  {
  }

  /** A byte from 0x80 up is copied, whatever character it belongs to. */
  lemma {:induction false} HighRunCopied(s: bytes, n: nat, out: bytes)
    requires n <= |s| && forall i :: 0 <= i < n ==> s[i] >= 0x80
    ensures StringBody(s, out) == StringBody(s[n..], out + s[..n])
  {
    if n == 0 {
      assert out + s[..0] == out;
    } else {
      HighRunCopied(s[1..], n - 1, out + [s[0]]);
      assert s[1..][n - 1..] == s[n..];
      assert out + [s[0]] + s[1..][..n - 1] == out + s[..n];
    }
  }

  lemma CharIsHigh(s: bytes)
    requires CharLength(s) > 0 && s[0] >= 0x80
    ensures forall i :: 0 <= i < CharLength(s) ==> s[i] >= 0x80
  {
  }

  lemma OneCharIsValid(s: bytes)
    requires CharLength(s) > 0
    ensures ValidUtf8(s[..CharLength(s)])
  {
    var c := s[..CharLength(s)];
    assert CharLength(c) == |c|;
    assert c[|c|..] == [];
  }

  lemma EscapeKeepsRest(s: bytes)
    requires ValidUtf8(s) && UnicodeEscape(s).Ok?
    ensures ValidUtf8(UnicodeEscape(s).rest)
  {
    HexIsAscii(s);
    if 0xD800 <= Hex4(s) <= 0xDBFF {
      HexIsAscii(s[6..]);
      assert forall i :: 6 <= i < 10 ==> s[i] == s[6..][i - 6];
      AsciiRun(s, 10);
    } else {
      AsciiRun(s, 4);
    }
  }

  lemma {:induction false} StringBodyKeeps(s: bytes, out: bytes)
    requires ValidUtf8(s) && ValidUtf8(out)
    ensures StringBody(s, out).Ok? ==>
      ValidUtf8(StringBody(s, out).value) && ValidUtf8(StringBody(s, out).rest)
    decreases |s|
  {
    hide UnicodeEscape, Utf8, Unescaped, CharLength;
    if s == [] {
    } else if s[0] >= 0x80 {
      var n := CharLength(s);
      CharIsHigh(s);
      HighRunCopied(s, n, out);
      OneCharIsValid(s);
      ValidAppend(out, s[..n]);
      StringBodyKeeps(s[n..], out + s[..n]);
    } else {
      AsciiHead(s);
      if s[0] == BACKSLASH && |s| >= 2 {
        if s[1] == LOWER_U {
          AsciiHead(s[1..]);
          assert s[1..][1..] == s[2..];
          var u := UnicodeEscape(s[2..]);
          if u.Ok? {
            EscapeKeepsRest(s[2..]);
            EncodedIsValid(u.value);
            ValidAppend(out, Utf8(u.value));
            StringBodyKeeps(u.rest, out + Utf8(u.value));
          }
        } else if Unescaped(s[1]) >= 0 {
          UnescapedIsAscii(s[1]);
          AsciiHead(s[1..]);
          assert s[1..][1..] == s[2..];
          AsciiIsValid(Unescaped(s[1]));
          ValidAppend(out, [Unescaped(s[1])]);
          StringBodyKeeps(s[2..], out + [Unescaped(s[1])]);
        }
      } else if s[0] >= 0x20 && s[0] != QUOTE && s[0] != BACKSLASH {
        AsciiIsValid(s[0]);
        ValidAppend(out, [s[0]]);
        StringBodyKeeps(s[1..], out + [s[0]]);
      }
    }
  }

  lemma UnescapedIsAscii(e: byte)
    requires Unescaped(e) >= 0
    ensures e < 0x80 && Unescaped(e) < 0x80
  {
  }

  lemma AsciiIsValid(b: byte)
    requires b < 0x80
    ensures ValidUtf8([b])
  {
    assert [b][1..] == [];
  }

  lemma StringKeeps(s: bytes)
    requires ValidUtf8(s) && String(s).Ok?
    ensures ValidUtf8(String(s).value) && ValidUtf8(String(s).rest)
  {
    AsciiHead(s);
    StringBodyKeeps(s[1..], []);
  }

  // ---------- whole texts ----------

  predicate ValidStrings(v: Value)
    decreases v, 1
  {
    match v
    case Str(s) => ValidUtf8(s)
    case List(items) => ValidItems(items)
    case Obj(fields) => ValidFields(fields)
    case _ => true
  }

  predicate ValidItems(items: seq<Value>)
    decreases items, 0
  {
    items == [] || (ValidStrings(items[0]) && ValidItems(items[1..]))
  }

  predicate ValidFields(o: Object)
    decreases o, 0
  {
    o == [] || (ValidUtf8(o[0].key) && ValidStrings(o[0].val) && ValidFields(o[1..]))
  }

  lemma {:induction false} AppendItem(items: seq<Value>, v: Value)
    requires ValidItems(items) && ValidStrings(v)
    ensures ValidItems(items + [v])
  {
    if items == [] {
      assert (items + [v])[1..] == [];
    } else {
      AppendItem(items[1..], v);
      assert (items + [v])[1..] == items[1..] + [v];
    }
  }

  lemma {:induction false} SetKeepsText(o: Object, key: bytes, val: Value)
    requires ValidFields(o) && ValidUtf8(key) && ValidStrings(val)
    ensures ValidFields(Set(o, key, val))
  {
    var o' := Set(o, key, val);
    if o == [] {
      assert o'[1..] == [];
    } else if o[0].key == key {
      assert o'[1..] == o[1..];
    } else {
      SetKeepsText(o[1..], key, val);
      assert o'[1..] == Set(o[1..], key, val);
    }
  }

  lemma {:induction false} SkipWsKeeps(s: bytes)
    requires ValidUtf8(s)
    ensures ValidUtf8(SkipWs(s))
  {
    if s != [] && IsSpace(s[0]) {
      AsciiHead(s);
      SkipWsKeeps(s[1..]);
    }
  }

  lemma {:induction false} SkipDigitsKeeps(s: bytes)
    requires ValidUtf8(s)
    ensures ValidUtf8(SkipDigits(s))
  {
    if s != [] && IsDigit(s[0]) {
      AsciiHead(s);
      SkipDigitsKeeps(s[1..]);
    }
  }

  lemma {:induction false} MagnitudeKeeps(s: bytes, v: nat)
    requires ValidUtf8(s) && v <= LLONG_MAX
    ensures Magnitude(s, v).Ok? ==> ValidUtf8(Magnitude(s, v).rest)
  {
    if s != [] && IsDigit(s[0]) && v * 10 + (s[0] - ZERO) <= LLONG_MAX {
      AsciiHead(s);
      MagnitudeKeeps(s[1..], v * 10 + (s[0] - ZERO));
    }
  }

  lemma NumberKeeps(s: bytes)
    requires ValidUtf8(s) && Number(s).Ok?
    ensures ValidUtf8(Number(s).rest)
  {
    AsciiHead(s);
    var ds := if StartsWith(s, MINUS) then s[1..] else s;
    MagnitudeKeeps(ds, 0);
    var r := Magnitude(ds, 0).rest;
    if StartsWith(r, DOT) {
      AsciiHead(r);
      SkipDigitsKeeps(r[1..]);
    }
    var u := SkipFraction(r);
    if StartsWith(u, 101) || StartsWith(u, 69) {
      AsciiHead(u);
      if StartsWith(u[1..], 43) || StartsWith(u[1..], MINUS) {
        AsciiHead(u[1..]);
        assert u[1..][1..] == u[2..];
        SkipDigitsKeeps(u[2..]);
      } else {
        SkipDigitsKeeps(u[1..]);
      }
    }
  }

  lemma {:induction false} AnyKeeps(s: bytes)
    requires ValidUtf8(s) && ParseAny(s).Ok?
    ensures ValidStrings(ParseAny(s).value) && ValidUtf8(ParseAny(s).rest)
    decreases |s|, 1
  {
    hide String, Number, SkipWs, CharLength;
    SkipWsKeeps(s);
    var t := SkipWs(s);
    if t[0] == QUOTE {
      StringKeeps(t);
    } else if t[0] == MINUS || IsDigit(t[0]) {
      NumberKeeps(t);
    } else if t[0] == LBRACE {
      AsciiHead(t);
      SkipWsKeeps(t[1..]);
      if StartsWith(SkipWs(t[1..]), RBRACE) { AsciiHead(SkipWs(t[1..])); }
      else { FieldsKeep(SkipWs(t[1..]), []); }
    } else if t[0] == LBRACKET {
      AsciiHead(t);
      SkipWsKeeps(t[1..]);
      if StartsWith(SkipWs(t[1..]), RBRACKET) { AsciiHead(SkipWs(t[1..])); }
      else { ItemsKeep(SkipWs(t[1..]), []); }
    } else {
      assert forall i :: 0 <= i < 4 ==> t[i] == t[..4][i] < 0x80;
      AsciiRun(t, 4);
    }
  }

  lemma {:induction false} ItemsKeep(s: bytes, items: seq<Value>)
    requires ValidUtf8(s) && ValidItems(items) && ParseItems(s, items).Ok?
    ensures ValidItems(ParseItems(s, items).value) && ValidUtf8(ParseItems(s, items).rest)
    decreases |s|, 2
  {
    hide ParseAny, SkipWs, CharLength;
    SkipWsKeeps(s);
    AnyKeeps(SkipWs(s));
    var p := ParseAny(SkipWs(s));
    SkipWsKeeps(p.rest);
    var t := SkipWs(p.rest);
    AppendItem(items, p.value);
    AsciiHead(t);
    if StartsWith(t, COMMA) { ItemsKeep(t[1..], items + [p.value]); }
  }

  lemma {:induction false} FieldsKeep(s: bytes, o: Object)
    requires ValidUtf8(s) && ValidFields(o) && ParseFields(s, o).Ok?
    ensures ValidFields(ParseFields(s, o).value) && ValidUtf8(ParseFields(s, o).rest)
    decreases |s|, 3
  {
    hide SkipWs, String, ParseAny, CharLength;
    SkipWsKeeps(s);
    var k := String(SkipWs(s));
    StringKeeps(SkipWs(s));
    SkipWsKeeps(k.rest);
    var c := SkipWs(k.rest);
    AsciiHead(c);
    AnyKeeps(c[1..]);
    var p := ParseAny(c[1..]);
    SkipWsKeeps(p.rest);
    var u := SkipWs(p.rest);
    SetKeepsText(o, k.value, p.value);
    AsciiHead(u);
    if StartsWith(u, COMMA) { FieldsKeep(u[1..], Set(o, k.value, p.value)); }
  }

  /** Every key and string of an object parsed from valid UTF-8 is valid UTF-8, surrogate pairs
      included: what is no character cannot be written with escapes either. */
  lemma ParsedTextIsUtf8(text: bytes)
    requires ValidUtf8(text) && Parse(text).Ok?
    ensures ValidFields(Parse(text).value)
  {
    SkipWsKeeps(text);
    var t := SkipWs(text);
    AsciiHead(t);
    SkipWsKeeps(t[1..]);
    if !StartsWith(SkipWs(t[1..]), RBRACE) { FieldsKeep(SkipWs(t[1..]), []); }
  }
}
