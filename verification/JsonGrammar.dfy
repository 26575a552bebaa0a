/** The texts that the parser accepts and what they mean, written down without the parser: spaces, escapes, numerals,
    arrays and objects. `ParseExactly` says that the parser reads exactly these. */
module JsonGrammar {
  import opened Bytes
  import opened Collections
  import opened Json
  import opened JsonRoundTrip
  import opened JsonUtf8

  // ---------- strings ----------

  /** One piece of a string: a byte that stands for itself, a backslash and a letter, `\uXXXX`, or two of those. */
  datatype Piece = Plain(b: byte) | Short(letter: byte) | Code(h: bytes) | Pair(high: bytes, low: bytes)

  const LETTERS: bytes := [34, 92, 47, 98, 102, 110, 114, 116]
  const MEANT: bytes := [34, 92, 47, 8, 12, 10, 13, 9]
  const LOWER16: bytes := [48, 49, 50, 51, 52, 53, 54, 55, 56, 57, 97, 98, 99, 100, 101, 102]
  const UPPER16: bytes := [48, 49, 50, 51, 52, 53, 54, 55, 56, 57, 65, 66, 67, 68, 69, 70]

  predicate Digit16(c: byte, v: int) { 0 <= v < 16 && (LOWER16[v] == c || UPPER16[v] == c) }

  ghost predicate Spells16(h: bytes, n: int) {
    |h| == 4 && exists a, b, c, d :: Digit16(h[0], a) && Digit16(h[1], b) && Digit16(h[2], c) && Digit16(h[3], d)
                                     && n == a * 4096 + b * 256 + c * 16 + d
  }

  ghost predicate IsOneChar(out: bytes, cp: nat) { ValidUtf8(out) && Chars(out) == [cp] }

  /** What a piece puts into the string. A surrogate stands only in a pair, high before low. */
  ghost predicate Means(p: Piece, out: bytes) {
    match p
    case Plain(b) => 0x20 <= b && b != QUOTE && b != BACKSLASH && out == [b]
    case Short(letter) => exists i :: 0 <= i < 8 && LETTERS[i] == letter && out == [MEANT[i]]
    case Code(h) => exists n: nat :: Spells16(h, n) && IsScalar(n) && IsOneChar(out, n)
    case Pair(high, low) =>
      exists a, b :: Spells16(high, a) && Spells16(low, b) && 0xD800 <= a <= 0xDBFF && 0xDC00 <= b <= 0xDFFF
                     && IsOneChar(out, 0x10000 + (a - 0xD800) * 0x400 + (b - 0xDC00))
  }

  function PieceText(p: Piece): bytes {
    match p
    case Plain(b) => [b]
    case Short(letter) => [BACKSLASH, letter]
    case Code(h) => [BACKSLASH, LOWER_U] + h
    case Pair(high, low) => [BACKSLASH, LOWER_U] + high + [BACKSLASH, LOWER_U] + low
  }

  function PiecesText(ps: seq<Piece>): bytes { if ps == [] then [] else PieceText(ps[0]) + PiecesText(ps[1..]) }

  ghost predicate StringMeans(ps: seq<Piece>, out: bytes) {
    if ps == [] then out == []
    else exists n :: 0 <= n <= |out| && Means(ps[0], out[..n]) && StringMeans(ps[1..], out[n..])
  }

  lemma DigitIs(c: byte, v: int)
    ensures Digit16(c, v) <==> 0 <= v && HexValue(c) == v
  {
  }

  lemma HexReads(h: bytes, n: int, s: bytes)
    requires Spells16(h, n)
    ensures Hex4(h + s) == n && (h + s)[4..] == s
  {
    var a, b, c, d :| Digit16(h[0], a) && Digit16(h[1], b) && Digit16(h[2], c) && Digit16(h[3], d)
                      && n == a * 4096 + b * 256 + c * 16 + d;
    DigitIs(h[0], a);
    DigitIs(h[1], b);
    DigitIs(h[2], c);
    DigitIs(h[3], d);
  }

  lemma HexIsSpelt(s: bytes)
    requires Hex4(s) >= 0
    ensures Spells16(s[..4], Hex4(s)) && s == s[..4] + s[4..]
  {
    var a, b, c, d := HexValue(s[0]), HexValue(s[1]), HexValue(s[2]), HexValue(s[3]);
    DigitIs(s[0], a);
    DigitIs(s[1], b);
    DigitIs(s[2], c);
    DigitIs(s[3], d);
    assert Digit16(s[..4][0], a) && Digit16(s[..4][1], b) && Digit16(s[..4][2], c) && Digit16(s[..4][3], d);
    assert Hex4(s) == a * 4096 + b * 256 + c * 16 + d;
  }

  lemma OneCharIs(out: bytes, cp: nat)
    requires IsScalar(cp)
    ensures IsOneChar(out, cp) <==> out == Utf8(cp)
  {
    hide Utf8, CharLength, CharOf;
    Utf8SpellsIt(cp);
    if IsOneChar(out, cp) {
      assert Chars([]) == [];
      assert out != [];
      var n := CharLength(out);
      Utf8IsUnique(out);
      assert Chars(out) == [CharOf(out)] + Chars(out[n..]);
      assert |Chars(out)| == 1 + |Chars(out[n..])|;
      assert CharOf(out) == Chars(out)[0] == cp;
      assert out[..n] + out[n..] == out;
    }
  }

  lemma LetterIs(letter: byte, b: byte)
    ensures Unescaped(letter) == b <==> exists i :: 0 <= i < 8 && LETTERS[i] == letter && MEANT[i] == b
    ensures letter == LOWER_U ==> Unescaped(letter) < 0
  {
    if Unescaped(letter) == b {
      var i := if letter == 34 then 0 else if letter == 92 then 1 else if letter == 47 then 2
               else if letter == 98 then 3 else if letter == 102 then 4 else if letter == 110 then 5
               else if letter == 114 then 6 else 7;
      assert LETTERS[i] == letter && MEANT[i] == b;
    }
  }

  lemma PlainReads(b: byte, s: bytes, acc: bytes)
    requires 0x20 <= b && b != QUOTE && b != BACKSLASH
    ensures StringBody([b] + s, acc) == StringBody(s, acc + [b])
  {
    assert ([b] + s)[1..] == s;
  }

  lemma ShortReads(letter: byte, out: bytes, s: bytes, acc: bytes)
    requires Means(Short(letter), out)
    ensures StringBody([BACKSLASH, letter] + s, acc) == StringBody(s, acc + out)
  {
    hide Unescaped;
    var i :| 0 <= i < 8 && LETTERS[i] == letter && out == [MEANT[i]];
    LetterIs(letter, MEANT[i]);
    assert ([BACKSLASH, letter] + s)[2..] == s;
  }

  lemma EscapeStep(u: bytes, n: nat, s: bytes, acc: bytes)
    requires UnicodeEscape(u) == Ok(n, s)
    ensures StringBody([BACKSLASH, LOWER_U] + u, acc) == StringBody(s, acc + Utf8(n))
  {
    hide Utf8, UnicodeEscape;
    var t := [BACKSLASH, LOWER_U] + u;
    assert t[2..] == u && t[0] == BACKSLASH && t[1] == LOWER_U;
  }

  /** `\uXXXX` puts in the character of that number. */
  lemma CodeReads(h: bytes, n: nat, s: bytes, acc: bytes)
    requires Spells16(h, n) && IsScalar(n)
    ensures StringBody([BACKSLASH, LOWER_U] + h + s, acc) == StringBody(s, acc + Utf8(n))
  {
    hide Utf8, Hex4, Spells16, StringBody;
    HexReads(h, n, s);
    Assoc([BACKSLASH, LOWER_U], h, s);
    EscapeStep(h + s, n, s, acc);
  }

  lemma PairEscape(high: bytes, low: bytes, a: int, b: int, s: bytes)
    requires Spells16(high, a) && Spells16(low, b) && 0xD800 <= a <= 0xDBFF && 0xDC00 <= b <= 0xDFFF
    ensures UnicodeEscape(high + ([BACKSLASH, LOWER_U] + (low + s)))
            == Ok(0x10000 + (a - 0xD800) * 0x400 + (b - 0xDC00), s)
  {
    hide Hex4, Spells16;
    var u := high + ([BACKSLASH, LOWER_U] + (low + s));
    LengthFour(high, a);
    LengthFour(low, b);
    HexReads(high, a, [BACKSLASH, LOWER_U] + (low + s));
    HexReads(low, b, s);
    assert u[4] == BACKSLASH && u[5] == LOWER_U && u[6..] == low + s && u[10..] == s;
  }

  /** Two surrogates put in the one character that they stand for. */
  lemma PairReads(high: bytes, low: bytes, a: int, b: int, s: bytes, acc: bytes)
    requires Spells16(high, a) && Spells16(low, b) && 0xD800 <= a <= 0xDBFF && 0xDC00 <= b <= 0xDFFF
    ensures StringBody(PieceText(Pair(high, low)) + s, acc)
            == StringBody(s, acc + Utf8(0x10000 + (a - 0xD800) * 0x400 + (b - 0xDC00)))
  {
    hide Utf8, Hex4, Spells16, StringBody, UnicodeEscape;
    PairEscape(high, low, a, b, s);
    var mark := [BACKSLASH, LOWER_U];
    Assoc(mark + high + mark, low, s);
    Assoc(mark + high, mark, low + s);
    Assoc(mark, high, mark + (low + s));
    EscapeStep(high + (mark + (low + s)), 0x10000 + (a - 0xD800) * 0x400 + (b - 0xDC00), s, acc);
  }

  /** One piece is read as what it means. */
  lemma PieceReads(p: Piece, out: bytes, s: bytes, acc: bytes)
    requires Means(p, out)
    ensures StringBody(PieceText(p) + s, acc) == StringBody(s, acc + out)
  {
    hide Utf8, IsOneChar, Spells16, StringBody;
    match p
    case Plain(b) => PlainReads(b, s, acc);
    case Short(letter) => ShortReads(letter, out, s, acc);
    case Code(h) =>
      var n: nat :| Spells16(h, n) && IsScalar(n) && IsOneChar(out, n);
      OneCharIs(out, n);
      CodeReads(h, n, s, acc);
    case Pair(high, low) =>
      var a, b :| Spells16(high, a) && Spells16(low, b) && 0xD800 <= a <= 0xDBFF && 0xDC00 <= b <= 0xDFFF
                  && IsOneChar(out, 0x10000 + (a - 0xD800) * 0x400 + (b - 0xDC00));
      OneCharIs(out, 0x10000 + (a - 0xD800) * 0x400 + (b - 0xDC00));
      PairReads(high, low, a, b, s, acc);
  }

  lemma LengthFour(h: bytes, n: int)
    requires Spells16(h, n)
    ensures |h| == 4
  {
  }

  lemma {:induction false} StringReads(ps: seq<Piece>, out: bytes, s: bytes, acc: bytes)
    requires StringMeans(ps, out)
    ensures StringBody(PiecesText(ps) + [QUOTE] + s, acc) == Ok(acc + out, s)
    decreases ps
  {
    hide Means, PieceText;
    if ps == [] {
      assert [] + [QUOTE] + s == [QUOTE] + s && ([QUOTE] + s)[1..] == s && acc + [] == acc;
    } else {
      var n :| 0 <= n <= |out| && Means(ps[0], out[..n]) && StringMeans(ps[1..], out[n..]);
      var more := PiecesText(ps[1..]) + [QUOTE] + s;
      assert PiecesText(ps) + [QUOTE] + s == PieceText(ps[0]) + more by {
        Assoc(PieceText(ps[0]), PiecesText(ps[1..]), [QUOTE]);
        Assoc(PieceText(ps[0]), PiecesText(ps[1..]) + [QUOTE], s);
      }
      PieceReads(ps[0], out[..n], more, acc);
      StringReads(ps[1..], out[n..], s, acc + out[..n]);
      assert acc + out[..n] + out[n..] == acc + out;
    }
  }

  /** The piece at the head of a string that goes on. */
  lemma FirstPiece(s: bytes, acc: bytes) returns (p: Piece, out: bytes)
    requires s != [] && s[0] != QUOTE && StringBody(s, acc).Ok?
    ensures Means(p, out) && |PieceText(p)| <= |s| && s == PieceText(p) + s[|PieceText(p)|..] && PieceText(p) != []
    ensures StringBody(s, acc) == StringBody(s[|PieceText(p)|..], acc + out)
  {
    hide Hex4, Utf8, Spells16, IsOneChar;
    if s[0] != BACKSLASH {
      p, out := Plain(s[0]), [s[0]];
    } else if s[1] != LOWER_U {
      p, out := Short(s[1]), [Unescaped(s[1])];
      LetterIs(s[1], Unescaped(s[1]));
    } else {
      var u := UnicodeEscape(s[2..]);
      out := Utf8(u.value);
      OneCharIs(out, u.value);
      HexIsSpelt(s[2..]);
      if 0xD800 <= Hex4(s[2..]) <= 0xDBFF {
        HexIsSpelt(s[2..][6..]);
        p := Pair(s[2..][..4], s[2..][6..][..4]);
        assert s == PieceText(p) + s[12..];
        assert s[2..][10..] == s[12..];
      } else {
        p := Code(s[2..][..4]);
        assert s == PieceText(p) + s[6..];
        assert s[2..][4..] == s[6..];
      }
      PieceReads(p, out, s[|PieceText(p)|..], acc);
    }
  }

  lemma {:induction false} StringHasPieces(s: bytes, acc: bytes) returns (ps: seq<Piece>, out: bytes)
    requires StringBody(s, acc).Ok?
    ensures StringMeans(ps, out) && StringBody(s, acc).value == acc + out
    ensures s == PiecesText(ps) + [QUOTE] + StringBody(s, acc).rest
    decreases |s|
  {
    hide Means, PieceText;
    if s[0] == QUOTE {
      ps, out := [], [];
      assert s == [] + [QUOTE] + s[1..] && acc + [] == acc;
    } else {
      var p, first := FirstPiece(s, acc);
      var t := s[|PieceText(p)|..];
      var more, rest := StringHasPieces(t, acc + first);
      ps, out := [p] + more, first + rest;
      assert ps[1..] == more && out[..|first|] == first && out[|first|..] == rest;
      Assoc(acc, first, rest);
      var last := StringBody(s, acc).rest;
      Assoc(PieceText(p), PiecesText(more), [QUOTE]);
      Assoc(PieceText(p), PiecesText(more) + [QUOTE], last);
    }
  }

  // ---------- spaces ----------

  const SPACES: bytes := [32, 9, 10, 13]

  ghost predicate Spaces(ws: bytes) { forall i :: 0 <= i < |ws| ==> ws[i] in SPACES }

  /** No text that a value could go on with. */
  predicate Clear(s: bytes) {
    s == [] || s[0] in SPACES || s[0] == COMMA || s[0] == RBRACKET || s[0] == RBRACE
  }

  lemma {:induction false} SpacesSkipped(ws: bytes, s: bytes)
    requires Spaces(ws)
    ensures SkipWs(ws + s) == SkipWs(s)
    ensures s != [] && s[0] !in SPACES ==> SkipWs(ws + s) == s
  {
    if ws == [] {
      assert ws + s == s;
    } else {
      assert ws[0] in SPACES;
      assert (ws + s)[1..] == ws[1..] + s;
      SpacesSkipped(ws[1..], s);
    }
  }

  lemma {:induction false} LeadingSpaces(s: bytes) returns (ws: bytes)
    ensures Spaces(ws) && s == ws + SkipWs(s)
  {
    if s != [] && IsSpace(s[0]) {
      var more := LeadingSpaces(s[1..]);
      ws := [s[0]] + more;
      Assoc([s[0]], more, SkipWs(s));
    } else {
      ws := [];
      assert s == [] + s;
    }
  }

  // ---------- numerals ----------

  datatype Exponent = Exponent(upper: bool, sign: bytes, digits: bytes)

  /** Digits with an optional sign, point and exponent; what follows the integer part has no say. */
  datatype Numeral = Numeral(neg: bool, digits: bytes, fraction: Option<bytes>, exponent: Option<Exponent>)

  predicate AllDigits(ds: bytes) { forall i :: 0 <= i < |ds| ==> 48 <= ds[i] <= 57 }

  predicate NumeralOk(n: Numeral) {
    && n.digits != [] && AllDigits(n.digits) && ReadDigits(n.digits, 0) <= LLONG_MAX
    && (n.fraction.Some? ==> AllDigits(n.fraction.value))
    && (n.exponent.Some? ==> AllDigits(n.exponent.value.digits) && n.exponent.value.sign in {[], [43], [45]})
  }

  function NumeralValue(n: Numeral): int
    requires AllDigits(n.digits)
  {
    var m: int := ReadDigits(n.digits, 0);
    if n.neg then -m else m
  }

  function ExponentText(e: Option<Exponent>): bytes {
    match e
    case None => []
    case Some(x) => [if x.upper then 69 else 101] + (x.sign + x.digits)
  }

  function FractionText(f: Option<bytes>): bytes { if f.None? then [] else [46] + f.value }

  function Signed(neg: bool, s: bytes): bytes { if neg then [45] + s else s }

  function NumeralText(n: Numeral): bytes {
    Signed(n.neg, n.digits + (FractionText(n.fraction) + ExponentText(n.exponent)))
  }

  predicate NoDigit(s: bytes) { s == [] || !IsDigit(s[0]) }

  lemma {:induction false} DigitsSkipped(ds: bytes, s: bytes)
    requires AllDigits(ds) && NoDigit(s)
    ensures SkipDigits(ds + s) == s
  {
    if ds == [] {
      assert ds + s == s;
    } else {
      assert (ds + s)[1..] == ds[1..] + s;
      DigitsSkipped(ds[1..], s);
    }
  }

  lemma {:induction false} LeadingDigits(s: bytes) returns (ds: bytes)
    ensures AllDigits(ds) && s == ds + SkipDigits(s) && NoDigit(SkipDigits(s))
  {
    if s != [] && IsDigit(s[0]) {
      var more := LeadingDigits(s[1..]);
      ds := [s[0]] + more;
      Assoc([s[0]], more, SkipDigits(s));
    } else {
      ds := [];
      assert s == [] + s;
    }
  }

  lemma {:induction false} MagnitudeOf(ds: bytes, s: bytes, v: nat)
    requires AllDigits(ds) && NoDigit(s) && v <= LLONG_MAX
    ensures Magnitude(ds + s, v) == if ReadDigits(ds, v) <= LLONG_MAX then Ok(ReadDigits(ds, v), s) else Undefined
  {
    if ds == [] {
      assert ds + s == s;
    } else {
      var v' := v * 10 + (ds[0] - ZERO);
      assert (ds + s)[1..] == ds[1..] + s;
      ValueGrows(ds[1..], v');
      if v' <= LLONG_MAX { MagnitudeOf(ds[1..], s, v'); }
    }
  }

  lemma {:induction false} ValueGrows(ds: bytes, v: nat)
    requires AllDigits(ds)
    ensures ReadDigits(ds, v) >= v
  {
    if ds != [] { ValueGrows(ds[1..], v * 10 + (ds[0] - ZERO)); }
  }

  lemma MarkedReads(marker: byte, sign: bytes, ds: bytes, s: bytes)
    requires marker in {69, 101} && sign in {[], [43], [45]} && AllDigits(ds) && NoDigit(s)
    requires s == [] || s[0] !in {43, 45}
    ensures SkipExponent([marker] + (sign + (ds + s))) == s
  {
    hide SkipDigits;
    var t, u := [marker] + (sign + (ds + s)), sign + (ds + s);
    DigitsSkipped(ds, s);
    assert t[1..] == u;
    if sign == [] {
      assert u == ds + s;
      assert ds != [] ==> u[0] == ds[0];
      assert ds == [] ==> u == s;
    } else {
      assert u[0] == sign[0] && t[2..] == ds + s;
    }
  }

  lemma ExponentReads(e: Option<Exponent>, s: bytes)
    requires e.Some? ==> AllDigits(e.value.digits) && e.value.sign in {[], [43], [45]}
    requires Clear(s)
    ensures SkipExponent(ExponentText(e) + s) == s && NoDigit(ExponentText(e) + s)
    ensures !StartsWith(ExponentText(e) + s, DOT)
  {
    hide SkipDigits, SkipExponent;
    NotMarked(s);
    if e.Some? {
      var x, m := e.value, if e.value.upper then 69 else 101;
      MarkedReads(m, x.sign, x.digits, s);
      Assoc(x.sign, x.digits, s);
      Assoc([m], x.sign + x.digits, s);
    } else {
      assert ExponentText(e) + s == s;
    }
  }

  lemma NotMarked(s: bytes)
    requires Clear(s)
    ensures SkipExponent(s) == s
  {
  }

  lemma FractionReads(f: Option<bytes>, s: bytes)
    requires f.Some? ==> AllDigits(f.value)
    requires NoDigit(s) && !StartsWith(s, DOT)
    ensures SkipFraction(FractionText(f) + s) == s && NoDigit(FractionText(f) + s)
  {
    if f.Some? {
      assert (FractionText(f) + s)[1..] == f.value + s;
      DigitsSkipped(f.value, s);
    } else {
      assert FractionText(f) + s == s;
    }
  }

  lemma SignedReads(neg: bool, ds: bytes)
    requires ds != [] && IsDigit(ds[0])
    ensures var s := Signed(neg, ds);
      && s != [] && (s[0] == MINUS || IsDigit(s[0]))
      && StartsWith(s, MINUS) == neg && (if neg then s[1..] else s) == ds
  {
  }

  lemma NumeralReads(n: Numeral, s: bytes)
    requires NumeralOk(n) && Clear(s)
    ensures Number(NumeralText(n) + s) == Ok(NumeralValue(n), s)
    ensures (NumeralText(n) + s)[0] == MINUS || IsDigit((NumeralText(n) + s)[0])
  {
    hide SkipExponent, SkipFraction, Magnitude, ReadDigits, ExponentText, FractionText;
    var f, e := FractionText(n.fraction), ExponentText(n.exponent);
    ExponentReads(n.exponent, s);
    FractionReads(n.fraction, e + s);
    MagnitudeOf(n.digits, f + (e + s), 0);
    Assoc(f, e, s);
    Assoc(n.digits, f + e, s);
    var ds := n.digits + (f + (e + s));
    assert NumeralText(n) + s == Signed(n.neg, ds);
    assert ds[0] == n.digits[0];
    SignedReads(n.neg, ds);
  }

  lemma NumberHasNumeral(s: bytes) returns (n: Numeral)
    requires Number(s).Ok?
    ensures NumeralOk(n) && Number(s).value == NumeralValue(n) && s == NumeralText(n) + Number(s).rest
  {
    hide SkipDigits, ReadDigits, SkipFraction, SkipExponent, FractionText, ExponentText;
    var neg := StartsWith(s, MINUS);
    var t := if neg then s[1..] else s;
    assert s == Signed(neg, t);
    var ds := LeadingDigits(t);
    var u := SkipDigits(t);
    MagnitudeOf(ds, u, 0);
    assert ds == [] ==> t == u;
    var f, v := LeadingFraction(u);
    var e, w := LeadingExponent(v);
    n := Numeral(neg, ds, f, e);
    Assoc(FractionText(f), ExponentText(e), w);
    Assoc(ds, FractionText(f) + ExponentText(e), w);
    SignedThen(neg, ds + (FractionText(f) + ExponentText(e)), w);
  }

  lemma SignedThen(neg: bool, s: bytes, t: bytes)
    ensures Signed(neg, s) + t == Signed(neg, s + t)
  {
    Assoc([45], s, t);
  }

  lemma LeadingFraction(s: bytes) returns (f: Option<bytes>, t: bytes)
    ensures t == SkipFraction(s) && s == FractionText(f) + t && (f.Some? ==> AllDigits(f.value))
  {
    t := SkipFraction(s);
    if StartsWith(s, DOT) {
      var ds := LeadingDigits(s[1..]);
      f := Some(ds);
      Assoc([46], ds, t);
    } else {
      f := None;
      assert s == [] + s;
    }
  }

  lemma LeadingExponent(s: bytes) returns (e: Option<Exponent>, t: bytes)
    ensures t == SkipExponent(s) && s == ExponentText(e) + t
    ensures e.Some? ==> AllDigits(e.value.digits) && e.value.sign in {[], [43], [45]}
  {
    hide SkipDigits;
    t := SkipExponent(s);
    if StartsWith(s, 101) || StartsWith(s, 69) {
      var signed := StartsWith(s[1..], 43) || StartsWith(s[1..], MINUS);
      var sign: bytes := if signed then [s[1]] else [];
      var ds := LeadingDigits(if signed then s[2..] else s[1..]);
      e := Some(Exponent(s[0] == 69, sign, ds));
      assert s == [s[0]] + (sign + (ds + t));
      Assoc(sign, ds, t);
      Assoc([s[0]], sign + ds, t);
    } else {
      e := None;
      assert s == [] + s;
    }
  }

  // ---------- whole texts ----------

  /** A value with the spaces before it; `inner` stands behind an opening bracket. */
  datatype Doc =
    | StrDoc(ws: bytes, pieces: seq<Piece>)
    | NumDoc(ws: bytes, numeral: Numeral)
    | NullDoc(ws: bytes)
    | ListDoc(ws: bytes, inner: bytes, items: seq<Item>)
    | ObjDoc(ws: bytes, inner: bytes, entries: seq<Entry>)

  datatype Item = Item(doc: Doc, more: bytes)

  datatype Entry = Entry(before: bytes, key: seq<Piece>, colon: bytes, doc: Doc, more: bytes)

  ghost predicate DocOk(d: Doc)
    decreases d, 1
  {
    && Spaces(d.ws)
    && match d
       case StrDoc(_, _) => true
       case NumDoc(_, n) => NumeralOk(n)
       case NullDoc(_) => true
       case ListDoc(_, inner, items) => Spaces(inner) && ItemsOk(items)
       case ObjDoc(_, inner, es) => Spaces(inner) && EntriesOk(es)
  }

  ghost predicate ItemsOk(items: seq<Item>)
    decreases items, 0
  {
    items == [] || (DocOk(items[0].doc) && Spaces(items[0].more) && ItemsOk(items[1..]))
  }

  ghost predicate EntriesOk(es: seq<Entry>)
    decreases es, 0
  {
    es == [] || (Spaces(es[0].before) && Spaces(es[0].colon) && DocOk(es[0].doc) && Spaces(es[0].more)
        && EntriesOk(es[1..]))
  }

  /** The text of a value, followed by `s`. */
  function DocThen(d: Doc, s: bytes): bytes
    decreases d, 1
  {
    d.ws + match d
           case StrDoc(_, ps) => [QUOTE] + (PiecesText(ps) + [QUOTE] + s)
           case NumDoc(_, n) => NumeralText(n) + s
           case NullDoc(_) => NULL + s
           case ListDoc(_, inner, items) => [LBRACKET] + (inner + ItemsThen(items, s))
           case ObjDoc(_, inner, es) => [LBRACE] + (inner + EntriesThen(es, s))
  }

  function ItemsThen(items: seq<Item>, s: bytes): bytes
    decreases items, 0
  {
    if items == [] then [RBRACKET] + s
    else
      var more := if |items| == 1 then [RBRACKET] + s else [COMMA] + ItemsThen(items[1..], s);
      DocThen(items[0].doc, items[0].more + more)
  }

  function EntriesThen(es: seq<Entry>, s: bytes): bytes
    decreases es, 0
  {
    if es == [] then [RBRACE] + s
    else
      var more := if |es| == 1 then [RBRACE] + s else [COMMA] + EntriesThen(es[1..], s);
      es[0].before + ([QUOTE] + (PiecesText(es[0].key) + [QUOTE]
                                 + (es[0].colon + ([COLON] + DocThen(es[0].doc, es[0].more + more)))))
  }

  /** Under a key that is there the first value is replaced, a new key goes to the end. */
  ghost predicate Puts(o: Object, key: bytes, val: Value, o': Object) {
    if HasKey(o, key) then
      exists i :: 0 <= i < |o| && o[i].key == key && (forall k :: 0 <= k < i ==> o[k].key != key)
                  && o' == o[i := Field(key, val)]
    else o' == o + [Field(key, val)]
  }

  ghost predicate DocMeans(d: Doc, v: Value)
    decreases d, 1
  {
    match d
    case StrDoc(_, ps) => v.Str? && StringMeans(ps, v.str)
    case NumDoc(_, n) => NumeralOk(n) && v == Num(NumeralValue(n))
    case NullDoc(_) => v == Str([])
    case ListDoc(_, _, items) => v.List? && ItemsMean(items, v.items)
    case ObjDoc(_, _, es) => v.Obj? && EntriesMean(es, [], v.fields)
  }

  ghost predicate ItemsMean(items: seq<Item>, vs: seq<Value>)
    decreases items, 0
  {
    |items| == |vs| && (items != [] ==> DocMeans(items[0].doc, vs[0]) && ItemsMean(items[1..], vs[1..]))
  }

  ghost predicate EntriesMean(es: seq<Entry>, acc: Object, o: Object)
    decreases es, 0
  {
    if es == [] then o == acc
    else exists key, val, next ::
      StringMeans(es[0].key, key) && DocMeans(es[0].doc, val) && Puts(acc, key, val, next)
          && EntriesMean(es[1..], next, o)
  }

  lemma SetPuts(o: Object, key: bytes, val: Value, o': Object)
    ensures Puts(o, key, val, o') <==> o' == Set(o, key, val)
  {
    if HasKey(o, key) {
      var i := FirstKey(o, key);
      SetOverwrites(o, key, val, i);
      if Puts(o, key, val, o') {
        var j :| 0 <= j < |o| && o[j].key == key && (forall k :: 0 <= k < j ==> o[k].key != key)
                 && o' == o[j := Field(key, val)];
        assert j == i;
      }
    } else {
      SetAppends(o, key, val);
    }
  }

  lemma {:induction false} FirstKey(o: Object, key: bytes) returns (i: nat)
    requires HasKey(o, key)
    ensures i < |o| && o[i].key == key && forall k :: 0 <= k < i ==> o[k].key != key
  {
    if o[0].key == key {
      i := 0;
    } else {
      var k :| 0 <= k < |o| && o[k].key == key;
      assert o[1..][k - 1].key == key;
      var j := FirstKey(o[1..], key);
      i := j + 1;
      assert forall m :: 1 <= m < i ==> o[m] == o[1..][m - 1];
    }
  }

  // ---------- every such text is read ----------

  lemma QuotedReads(ps: seq<Piece>, out: bytes, s: bytes)
    requires StringMeans(ps, out)
    ensures String([QUOTE] + (PiecesText(ps) + [QUOTE] + s)) == Ok(out, s)
  {
    hide StringBody, StringMeans;
    Dropped([QUOTE], PiecesText(ps) + [QUOTE] + s);
    StringReads(ps, out, s, []);
    assert [] + out == out;
  }

  /** Where a value starts: at no space and at no closing bracket. */
  lemma DocStarts(d: Doc, s: bytes)
    requires DocOk(d)
    ensures var t := SkipWs(DocThen(d, s)); t != [] && t[0] !in SPACES && t[0] != RBRACKET && d.ws + t == DocThen(d, s)
    ensures d.StrDoc? ==> SkipWs(DocThen(d, s)) == [QUOTE] + (PiecesText(d.pieces) + [QUOTE] + s)
    ensures d.NumDoc? ==> SkipWs(DocThen(d, s)) == NumeralText(d.numeral) + s
    ensures d.NullDoc? ==> SkipWs(DocThen(d, s)) == NULL + s
    ensures d.ListDoc? ==> SkipWs(DocThen(d, s)) == [LBRACKET] + (d.inner + ItemsThen(d.items, s))
    ensures d.ObjDoc? ==> SkipWs(DocThen(d, s)) == [LBRACE] + (d.inner + EntriesThen(d.entries, s))
  {
    hide ItemsThen, EntriesThen, PiecesText, NumeralText, SkipWs, Spaces;
    match d
    case StrDoc(ws, ps) => SpacesSkipped(ws, [QUOTE] + (PiecesText(ps) + [QUOTE] + s));
    case NumDoc(ws, n) =>
      NumeralStarts(n, s);
      SpacesSkipped(ws, NumeralText(n) + s);
    case NullDoc(ws) => SpacesSkipped(ws, NULL + s);
    case ListDoc(ws, inner, items) => SpacesSkipped(ws, [LBRACKET] + (inner + ItemsThen(items, s)));
    case ObjDoc(ws, inner, es) => SpacesSkipped(ws, [LBRACE] + (inner + EntriesThen(es, s)));
  }

  lemma NumeralStarts(n: Numeral, s: bytes)
    requires NumeralOk(n)
    ensures NumeralText(n) + s != [] && (NumeralText(n)[0] == MINUS || IsDigit(NumeralText(n)[0]))
    ensures (NumeralText(n) + s)[0] == NumeralText(n)[0]
  {
    hide FractionText, ExponentText;
  }

  lemma SkipAgain(s: bytes)
    ensures SkipWs(SkipWs(s)) == SkipWs(s) && ParseAny(SkipWs(s)) == ParseAny(s)
  {
    Stopped(SkipWs(s));
  }

  lemma Stopped(s: bytes)
    requires s == [] || !IsSpace(s[0])
    ensures SkipWs(s) == s
  {
  }

  lemma Closes(ws: bytes, b: byte, s: bytes)
    requires Spaces(ws) && b in {COMMA, RBRACKET, RBRACE}
    ensures Clear(ws + ([b] + s)) && SkipWs(ws + ([b] + s)) == [b] + s && ([b] + s)[1..] == s
  {
    SpacesSkipped(ws, [b] + s);
    if ws != [] { assert (ws + ([b] + s))[0] == ws[0]; } else { assert ws + ([b] + s) == [b] + s; }
  }

  lemma {:induction false} DocReads(d: Doc, v: Value, s: bytes)
    requires DocOk(d) && DocMeans(d, v) && Clear(s)
    ensures ParseAny(DocThen(d, s)) == Ok(v, s)
    decreases d, 1
  {
    hide DocThen, ItemsThen, EntriesThen, SkipWs, Number, String, Clear, Spaces;
    DocStarts(d, s);
    match d
    case StrDoc(ws, ps) => QuotedReads(ps, v.str, s);
    case NumDoc(ws, n) => NumeralReads(n, s);
    case NullDoc(ws) => assert (NULL + s)[..4] == NULL && (NULL + s)[4..] == s;
    case ListDoc(ws, inner, items) =>
      Dropped([LBRACKET], inner + ItemsThen(items, s));
      ListReads(inner, items, v.items, s);
    case ObjDoc(ws, inner, es) =>
      Dropped([LBRACE], inner + EntriesThen(es, s));
      BodyReads(inner, es, v.fields, s);
  }

  lemma {:induction false} ListReads(inner: bytes, items: seq<Item>, vs: seq<Value>, s: bytes)
    requires Spaces(inner) && ItemsOk(items) && ItemsMean(items, vs)
    ensures ArrayBody(inner + ItemsThen(items, s)) == Ok(vs, s)
    decreases items, 1
  {
    hide SkipWs, ParseItems, DocThen, Spaces;
    var t := ItemsThen(items, s);
    SpacesSkipped(inner, t);
    if items == [] {
      Closes(inner, RBRACKET, s);
    } else {
      var more := if |items| == 1 then [RBRACKET] + s else [COMMA] + ItemsThen(items[1..], s);
      DocStarts(items[0].doc, items[0].more + more);
      ItemsRead(items, vs, s, []);
      ItemsSkip(t, []);
      assert [] + vs == vs;
    }
  }

  /** The array loop does not mind spaces before an item. */
  lemma ItemsSkip(s: bytes, acc: seq<Value>)
    ensures ParseItems(SkipWs(s), acc) == ParseItems(s, acc)
  {
    SkipAgain(s);
  }

  lemma {:induction false} ItemsRead(items: seq<Item>, vs: seq<Value>, s: bytes, acc: seq<Value>)
    requires items != [] && ItemsOk(items) && ItemsMean(items, vs)
    ensures ParseItems(ItemsThen(items, s), acc) == Ok(acc + vs, s)
    decreases items, 0
  {
    hide SkipWs, ParseAny, DocThen, Clear, Spaces;
    var more := if |items| == 1 then [RBRACKET] + s else [COMMA] + ItemsThen(items[1..], s);
    var t := items[0].more + more;
    Closes(items[0].more, RBRACKET, s);
    Closes(items[0].more, COMMA, ItemsThen(items[1..], s));
    DocReads(items[0].doc, vs[0], t);
    SkipAgain(ItemsThen(items, s));
    assert acc + [vs[0]] + vs[1..] == acc + vs;
    if |items| == 1 {
      assert vs == [vs[0]];
    } else {
      ItemsRead(items[1..], vs[1..], s, acc + [vs[0]]);
    }
  }

  lemma {:induction false} BodyReads(inner: bytes, es: seq<Entry>, o: Object, s: bytes)
    requires Spaces(inner) && EntriesOk(es) && EntriesMean(es, [], o)
    ensures ParseBody([LBRACE] + (inner + EntriesThen(es, s))) == Ok(o, s)
    decreases es, 1
  {
    hide SkipWs, ParseFields, DocThen, Spaces;
    var t := EntriesThen(es, s);
    Dropped([LBRACE], inner + t);
    SpacesSkipped(inner, t);
    if es == [] {
      Closes(inner, RBRACE, s);
    } else {
      var u := [QUOTE] + (PiecesText(es[0].key) + [QUOTE] + (es[0].colon + ([COLON] + DocThen(es[0].doc,
        es[0].more + if |es| == 1 then [RBRACE] + s else [COMMA] + EntriesThen(es[1..], s)))));
      SpacesSkipped(es[0].before, u);
      EntriesRead(es, o, s, []);
      FieldsSkip(t, []);
    }
  }

  lemma FieldsSkip(s: bytes, acc: Object)
    ensures ParseFields(SkipWs(s), acc) == ParseFields(s, acc)
  {
    SkipAgain(s);
  }

  lemma {:induction false} EntriesRead(es: seq<Entry>, o: Object, s: bytes, acc: Object)
    requires es != [] && EntriesOk(es) && EntriesMean(es, acc, o)
    ensures ParseFields(EntriesThen(es, s), acc) == Ok(o, s)
    decreases es, 0
  {
    hide SkipWs, ParseAny, DocThen, Clear, Spaces, String, StringMeans, PiecesText, Puts, DocMeans;
    var e := es[0];
    var key, val, next :| StringMeans(e.key, key) && DocMeans(e.doc, val) && Puts(acc, key, val, next)
                          && EntriesMean(es[1..], next, o);
    SetPuts(acc, key, val, next);
    var more := if |es| == 1 then [RBRACE] + s else [COMMA] + EntriesThen(es[1..], s);
    Closes(e.more, RBRACE, s);
    Closes(e.more, COMMA, EntriesThen(es[1..], s));
    DocReads(e.doc, val, e.more + more);
    EntryReads(e, key, val, e.more + more);
    if |es| > 1 { EntriesRead(es[1..], o, s, next); }
  }

  lemma EntryReads(e: Entry, key: bytes, val: Value, more: bytes)
    requires Spaces(e.before) && Spaces(e.colon) && StringMeans(e.key, key)
    requires ParseAny(DocThen(e.doc, more)) == Ok(val, more)
    ensures OneField(e.before + ([QUOTE] + (PiecesText(e.key) + [QUOTE]
                                            + (e.colon + ([COLON] + DocThen(e.doc, more))))))
            == Ok(Field(key, val), more)
  {
    hide SkipWs, ParseAny, DocThen, Spaces, String, StringMeans, PiecesText;
    var after := e.colon + ([COLON] + DocThen(e.doc, more));
    QuotedReads(e.key, key, after);
    SpacesSkipped(e.before, [QUOTE] + (PiecesText(e.key) + [QUOTE] + after));
    SpacesSkipped(e.colon, [COLON] + DocThen(e.doc, more));
    Dropped([COLON], DocThen(e.doc, more));
  }

  // ---------- nothing else is read ----------

  lemma StringHasText(s: bytes) returns (ps: seq<Piece>, out: bytes)
    requires String(s).Ok?
    ensures StringMeans(ps, out) && String(s).value == out
    ensures s == [QUOTE] + (PiecesText(ps) + [QUOTE] + String(s).rest)
  {
    hide StringMeans, PiecesText, StringBody;
    ps, out := StringHasPieces(s[1..], []);
    assert [] + out == out && s == [QUOTE] + s[1..];
  }

  lemma {:induction false} ValueHasDoc(s: bytes) returns (d: Doc)
    requires ParseAny(s).Ok?
    ensures DocOk(d) && DocMeans(d, ParseAny(s).value) && s == DocThen(d, ParseAny(s).rest)
    decreases |s|, 1
  {
    hide SkipWs, Spaces, Number, String, ItemsThen, EntriesThen, StringMeans, NumeralOk;
    var ws := LeadingSpaces(s);
    var t, p := SkipWs(s), ParseAny(s);
    if t[0] == QUOTE {
      var ps, out := StringHasText(t);
      d := StrDoc(ws, ps);
    } else if t[0] == MINUS || IsDigit(t[0]) {
      var n := NumberHasNumeral(t);
      d := NumDoc(ws, n);
    } else if t[0] == LBRACE {
      var inner, es := BodyHasEntries(t);
      d := ObjDoc(ws, inner, es);
    } else if t[0] == LBRACKET {
      var inner, items := ArrayHasItems(t[1..]);
      d := ListDoc(ws, inner, items);
      assert t == [LBRACKET] + t[1..];
    } else {
      d := NullDoc(ws);
      assert t == t[..4] + t[4..];
    }
  }

  lemma {:induction false} ArrayHasItems(s: bytes) returns (inner: bytes, items: seq<Item>)
    requires ArrayBody(s).Ok?
    ensures Spaces(inner) && ItemsOk(items) && ItemsMean(items, ArrayBody(s).value)
    ensures s == inner + ItemsThen(items, ArrayBody(s).rest)
    decreases |s|, 3
  {
    hide SkipWs, Spaces, ParseItems;
    inner := LeadingSpaces(s);
    var t := SkipWs(s);
    if StartsWith(t, RBRACKET) {
      items := [];
      assert t == [RBRACKET] + t[1..];
    } else {
      var vs;
      items, vs := ItemsHaveDocs(t, []);
      assert [] + vs == vs;
    }
  }

  lemma {:induction false} ItemsHaveDocs(s: bytes, acc: seq<Value>) returns (items: seq<Item>, vs: seq<Value>)
    requires ParseItems(s, acc).Ok?
    ensures items != [] && ItemsOk(items) && ItemsMean(items, vs) && ParseItems(s, acc).value == acc + vs
    ensures s == ItemsThen(items, ParseItems(s, acc).rest)
    decreases |s|, 2
  {
    hide SkipWs, Spaces, ParseAny, DocMeans, DocThen, DocOk;
    SkipAgain(s);
    var p := ParseAny(s);
    var d := ValueHasDoc(s);
    var more := LeadingSpaces(p.rest);
    var t := SkipWs(p.rest);
    if StartsWith(t, COMMA) {
      var items', vs' := ItemsHaveDocs(t[1..], acc + [p.value]);
      items, vs := [Item(d, more)] + items', [p.value] + vs';
      assert items[1..] == items' && vs[1..] == vs';
      Assoc(acc, [p.value], vs');
      assert t == [COMMA] + t[1..];
    } else {
      items, vs := [Item(d, more)], [p.value];
      assert items[1..] == [] && vs[1..] == [];
      assert t == [RBRACKET] + t[1..];
    }
  }

  lemma {:induction false} BodyHasEntries(s: bytes) returns (inner: bytes, es: seq<Entry>)
    requires s != [] && s[0] == LBRACE && ParseBody(s).Ok?
    ensures Spaces(inner) && EntriesOk(es) && EntriesMean(es, [], ParseBody(s).value)
    ensures s == [LBRACE] + (inner + EntriesThen(es, ParseBody(s).rest))
    decreases |s|, 0
  {
    hide SkipWs, Spaces, ParseFields;
    inner := LeadingSpaces(s[1..]);
    var t := SkipWs(s[1..]);
    assert s == [LBRACE] + s[1..];
    if StartsWith(t, RBRACE) {
      es := [];
      assert t == [RBRACE] + t[1..];
    } else {
      es := FieldsHaveEntries(t, []);
    }
  }

  /** Key, colon and value of a field, with the spaces around them. */
  lemma {:induction false} FieldHasEntry(s: bytes) returns (e: Entry, val: Value)
    requires OneField(s).Ok?
    ensures Spaces(e.before) && Spaces(e.colon) && DocOk(e.doc) && StringMeans(e.key, OneField(s).value.key)
    ensures DocMeans(e.doc, OneField(s).value.val) && e.more == []
    ensures s == e.before + ([QUOTE] + (PiecesText(e.key) + [QUOTE]
                                        + (e.colon + ([COLON] + DocThen(e.doc, OneField(s).rest)))))
    decreases |s|, 2
  {
    hide SkipWs, Spaces, String, ParseAny, DocMeans, DocThen, DocOk, StringMeans, PiecesText;
    var before := LeadingSpaces(s);
    var k := String(SkipWs(s));
    var ps, out := StringHasText(SkipWs(s));
    var colon := LeadingSpaces(k.rest);
    var t := SkipWs(k.rest);
    assert t == [COLON] + t[1..];
    var d := ValueHasDoc(t[1..]);
    e, val := Entry(before, ps, colon, d, []), ParseAny(t[1..]).value;
  }

  lemma {:induction false} FieldsHaveEntries(s: bytes, acc: Object) returns (es: seq<Entry>)
    requires ParseFields(s, acc).Ok?
    ensures es != [] && EntriesOk(es) && EntriesMean(es, acc, ParseFields(s, acc).value)
    ensures s == EntriesThen(es, ParseFields(s, acc).rest)
    decreases |s|, 3
  {
    hide SkipWs, Spaces, OneField, DocMeans, DocThen, DocOk, StringMeans, PiecesText, Puts;
    var p := OneField(s);
    var e0, val := FieldHasEntry(s);
    var next := Set(acc, p.value.key, p.value.val);
    SetPuts(acc, p.value.key, p.value.val, next);
    var more := LeadingSpaces(p.rest);
    var u := SkipWs(p.rest);
    var e := e0.(more := more);
    if StartsWith(u, COMMA) {
      var es' := FieldsHaveEntries(u[1..], next);
      es := [e] + es';
      assert es[1..] == es';
      assert u == [COMMA] + u[1..];
    } else {
      es := [e];
      assert es[1..] == [];
      assert u == [RBRACE] + u[1..];
    }
  }

  // ---------- main result ----------

  /** The parser accepts exactly the texts of the grammar above and gives exactly what they mean. */
  lemma ParseExactly(text: bytes, o: Object)
    ensures Parse(text) == Ok(o, []) <==>
      exists d: Doc, tail :: d.ObjDoc? && DocOk(d) && Spaces(tail) && text == DocThen(d, tail) && DocMeans(d, Obj(o))
  {
    hide DocThen, DocOk, DocMeans, Spaces, ParseBody, SkipWs;
    if Parse(text) == Ok(o, []) {
      var ws := LeadingSpaces(text);
      var t := SkipWs(text);
      var inner, es := BodyHasEntries(t);
      var tail := LeadingSpaces(ParseBody(t).rest);
      assert tail + [] == tail;
      var d := ObjDoc(ws, inner, es);
      TopDoc(d, o, tail);
      assert DocOk(d) && text == DocThen(d, tail) && DocMeans(d, Obj(o));
    }
    forall d: Doc, tail | d.ObjDoc? && DocOk(d) && Spaces(tail) && text == DocThen(d, tail) && DocMeans(d, Obj(o))
      ensures Parse(text) == Ok(o, [])
    {
      DocStarts(d, tail);
      TopReads(d, o, tail);
      SpacesSkipped(tail, []);
      assert tail + [] == tail;
      Stopped([]);
    }
  }

  lemma TopDoc(d: Doc, o: Object, tail: bytes)
    requires d.ObjDoc?
    ensures Spaces(d.ws) && Spaces(d.inner) && EntriesOk(d.entries) ==> DocOk(d)
    ensures EntriesMean(d.entries, [], o) <==> DocMeans(d, Obj(o))
    ensures DocThen(d, tail) == d.ws + ([LBRACE] + (d.inner + EntriesThen(d.entries, tail)))
  {
  }

  lemma TopReads(d: Doc, o: Object, tail: bytes)
    requires d.ObjDoc? && DocOk(d) && DocMeans(d, Obj(o))
    ensures ParseBody([LBRACE] + (d.inner + EntriesThen(d.entries, tail))) == Ok(o, tail)
  {
    BodyReads(d.inner, d.entries, o, tail);
  }
}
