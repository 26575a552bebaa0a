/** JSON values and their text: the printer and the parser of include/chat/minijson.h.

    The parser threads an index through the text; its specification, `Value` and the functions
    around it, consumes suffixes.  Signed overflow of a number is undefined in C++ and has an
    outcome of its own. */
module Json {
  import opened Bytes

  // ---------- values ----------

  /** NullObj is an object value without its pointer; `serialize` prints it as null. */
  datatype Value =
    | Str(str: bytes)
    | Num(num: int)
    | List(items: seq<Value>)
    | Obj(fields: Object)
    | NullObj

  datatype Field = Field(key: bytes, val: Value)

  type Object = seq<Field>

  const LLONG_MAX := 0x7FFF_FFFF_FFFF_FFFF

  /** `Object::set`: overwrite the first field with that key, or append one. */
  function Set(o: Object, key: bytes, val: Value): Object {
    if o == [] then [Field(key, val)]
    else if o[0].key == key then [Field(key, val)] + o[1..]
    else [o[0]] + Set(o[1..], key, val)
  }

  // ---------- text ----------

  const QUOTE: byte := 34
  const COMMA: byte := 44
  const DOT: byte := 46
  const LBRACKET: byte := 91
  const BACKSLASH: byte := 92
  const RBRACKET: byte := 93
  const LOWER_U: byte := 117
  const LBRACE: byte := 123
  const RBRACE: byte := 125
  const NULL: bytes := [110, 117, 108, 108]

  predicate StartsWith(s: bytes, b: byte) { |s| > 0 && s[0] == b }

  predicate IsSpace(b: byte) { b == 32 || b == 9 || b == 10 || b == 13 }

  function SkipWs(s: bytes): (r: bytes)
    ensures |r| <= |s|
    ensures r != [] ==> !IsSpace(r[0])
  {
    if s != [] && IsSpace(s[0]) then SkipWs(s[1..]) else s
  }

  // ---------- the printer ----------

  function HexDigit(n: nat): byte
    requires n < 16
  {
    if n < 10 then ZERO + n else 87 + n
  }

  function EscapeByte(b: byte): bytes {
    if b == QUOTE then [BACKSLASH, QUOTE]
    else if b == BACKSLASH then [BACKSLASH, BACKSLASH]
    else if b == 8 then [BACKSLASH, 98]
    else if b == 12 then [BACKSLASH, 102]
    else if b == 10 then [BACKSLASH, 110]
    else if b == 13 then [BACKSLASH, 114]
    else if b == 9 then [BACKSLASH, 116]
    else if b < 0x20 then [BACKSLASH, LOWER_U, ZERO, ZERO, HexDigit(b / 16), HexDigit(b % 16)]
    else [b]
  }

  function Escape(s: bytes): bytes {
    if s == [] then [] else EscapeByte(s[0]) + Escape(s[1..])
  }

  function Quoted(s: bytes): bytes { [QUOTE] + Escape(s) + [QUOTE] }

  function Print(v: Value): bytes
    decreases v, 1
  {
    match v
    case Str(s) => Quoted(s)
    case Num(n) => Decimal(n)
    case List(items) => [LBRACKET] + PrintItems(items, false) + [RBRACKET]
    case Obj(fields) => [LBRACE] + PrintFields(fields, false) + [RBRACE]
    case NullObj => NULL
  }

  /** The items of an array; `comma` says that others precede them. */
  function PrintItems(items: seq<Value>, comma: bool): bytes
    decreases items, 0
  {
    if items == [] then []
    else if comma then [COMMA] + (Print(items[0]) + PrintItems(items[1..], true))
    else Print(items[0]) + PrintItems(items[1..], true)
  }

  function PrintFields(o: Object, comma: bool): bytes
    decreases o, 0
  {
    if o == [] then []
    else if comma then [COMMA] + (Quoted(o[0].key) + ([COLON] + (Print(o[0].val) + PrintFields(o[1..], true))))
    else Quoted(o[0].key) + ([COLON] + (Print(o[0].val) + PrintFields(o[1..], true)))
  }

  function Serialize(o: Object): bytes { [LBRACE] + PrintFields(o, false) + [RBRACE] }

  // ---------- the parser, on suffixes ----------

  datatype Parsed<T> = Ok(value: T, rest: bytes) | Bad | Undefined

  /** UTF-8 of a code point; the bits that C++ joins with `|` never overlap. */
  function Utf8(cp: nat): bytes
    requires cp <= 0x10FFFF
  {
    if cp <= 0x7F then [cp]
    else if cp <= 0x7FF then [0xC0 + cp / 64, 0x80 + cp % 64]
    else if cp <= 0xFFFF then [0xE0 + cp / 4096, 0x80 + cp / 64 % 64, 0x80 + cp % 64]
    else [0xF0 + cp / 262144, 0x80 + cp / 4096 % 64, 0x80 + cp / 64 % 64, 0x80 + cp % 64]
  }

  /** The value of a hexadecimal digit, -1 if it is none. */
  function HexValue(h: byte): (v: int)
    ensures -1 <= v < 16
  {
    if IsDigit(h) then h - ZERO
    else if 97 <= h <= 102 then h - 87
    else if 65 <= h <= 70 then h - 55
    else -1
  }

  /** Four hexadecimal digits at the head of `s`, -1 if they are not there. */
  function Hex4(s: bytes): (v: int)
    ensures -1 <= v <= 0xFFFF
    ensures v >= 0 ==> |s| >= 4
  {
    if |s| < 4 || HexValue(s[0]) < 0 || HexValue(s[1]) < 0 || HexValue(s[2]) < 0 || HexValue(s[3]) < 0 then -1
    else ((HexValue(s[0]) * 16 + HexValue(s[1])) * 16 + HexValue(s[2])) * 16 + HexValue(s[3])
  }

  /** What the letter after a backslash stands for, -1 for none. */
  function Unescaped(e: byte): (b: int)
    ensures -1 <= b < 256
  {
    if e == QUOTE || e == BACKSLASH || e == 47 then e
    else if e == 98 then 8
    else if e == 102 then 12
    else if e == 110 then 10
    else if e == 114 then 13
    else if e == 116 then 9
    else -1
  }

  /** The code point of a `\u` escape and its surrogate partner; `s` starts behind the `u`. */
  function UnicodeEscape(s: bytes): (p: Parsed<nat>)
    ensures p.Ok? ==> |p.rest| < |s| && p.value <= 0x10FFFF && !(0xD800 <= p.value <= 0xDFFF)
    ensures !p.Undefined?
  {
    var cu := Hex4(s);
    if cu < 0 then Bad
    else if 0xD800 <= cu <= 0xDBFF then
      if |s| < 6 || s[4] != BACKSLASH || s[5] != LOWER_U then Bad
      else
        var lo := Hex4(s[6..]);
        if lo < 0xDC00 || lo > 0xDFFF then Bad
        else Ok(0x10000 + (cu - 0xD800) * 1024 + (lo - 0xDC00), s[10..])
    else if 0xDC00 <= cu <= 0xDFFF then Bad
    else Ok(cu, s[4..])
  }

  /** The rest of a string behind its opening quote; `out` is what has been read of it. */
  function StringBody(s: bytes, out: bytes): (p: Parsed<bytes>)
    ensures p.Ok? ==> |p.rest| < |s|
    ensures !p.Undefined?
  {
    if s == [] then Bad
    else if s[0] == QUOTE then Ok(out, s[1..])
    else if s[0] == BACKSLASH then
      if |s| < 2 then Bad
      else if s[1] == LOWER_U then
        var u := UnicodeEscape(s[2..]);
        if u.Ok? then StringBody(u.rest, out + Utf8(u.value)) else Bad
      else if Unescaped(s[1]) < 0 then Bad
      else StringBody(s[2..], out + [Unescaped(s[1])])
    else if s[0] < 0x20 then Bad
    else StringBody(s[1..], out + [s[0]])
  }

  function String(s: bytes): (p: Parsed<bytes>)
    ensures p.Ok? ==> |p.rest| < |s|
    ensures !p.Undefined?
  {
    if !StartsWith(s, QUOTE) then Bad else StringBody(s[1..], [])
  }

  function SkipDigits(s: bytes): (r: bytes)
    ensures |r| <= |s|
  {
    if s != [] && IsDigit(s[0]) then SkipDigits(s[1..]) else s
  }

  /** `v = v * 10 + digit` over the leading digits, undefined once it leaves `long long`. */
  function Magnitude(s: bytes, v: nat): (p: Parsed<nat>)
    requires v <= LLONG_MAX
    ensures p.Ok? ==> |p.rest| <= |s| && p.value <= LLONG_MAX
    ensures !p.Bad?
  {
    if s == [] || !IsDigit(s[0]) then Ok(v, s)
    else if v * 10 + (s[0] - ZERO) > LLONG_MAX then Undefined
    else Magnitude(s[1..], v * 10 + (s[0] - ZERO))
  }

  function SkipFraction(s: bytes): (r: bytes)
    ensures |r| <= |s|
  {
    if StartsWith(s, DOT) then SkipDigits(s[1..]) else s
  }

  function SkipExponent(s: bytes): (r: bytes)
    ensures |r| <= |s|
  {
    if StartsWith(s, 101) || StartsWith(s, 69) then
      SkipDigits(if StartsWith(s[1..], 43) || StartsWith(s[1..], MINUS) then s[2..] else s[1..])
    else s
  }

  /** Only the integer part counts. */
  function Number(s: bytes): (p: Parsed<int>)
    ensures p.Ok? ==> |p.rest| < |s| && -LLONG_MAX <= p.value <= LLONG_MAX
  {
    var neg := StartsWith(s, MINUS);
    var ds := if neg then s[1..] else s;
    if ds == [] || !IsDigit(ds[0]) then Bad
    else
      match Magnitude(ds, 0)
      case Ok(v, rest) =>
        DigitConsumed(ds);
        var n: int := v;
        Ok(if neg then -n else n, SkipExponent(SkipFraction(rest)))
      case Bad => Bad
      case Undefined => Undefined
  }

  lemma DigitConsumed(s: bytes)
    requires s != [] && IsDigit(s[0])
    ensures Magnitude(s, 0).Ok? ==> |Magnitude(s, 0).rest| < |s|
  {
  }

  /** `parse_value` */
  function ParseAny(s: bytes): (p: Parsed<Value>)
    ensures p.Ok? ==> |p.rest| < |s|
    decreases |s|, 1
  {
    var t := SkipWs(s);
    if t == [] then Bad
    else if t[0] == QUOTE then
      match String(t)
      case Ok(v, rest) => Ok(Str(v), rest)
      case _ => Bad
    else if t[0] == MINUS || IsDigit(t[0]) then
      match Number(t)
      case Ok(n, rest) => Ok(Num(n), rest)
      case Bad => Bad
      case Undefined => Undefined
    else if t[0] == LBRACE then
      match ParseBody(t)
      case Ok(o, rest) => Ok(Obj(o), rest)
      case Bad => Bad
      case Undefined => Undefined
    else if t[0] == LBRACKET then
      match ArrayBody(t[1..])
      case Ok(items, rest) => Ok(List(items), rest)
      case Bad => Bad
      case Undefined => Undefined
    else if |t| >= 4 && t[..4] == NULL then Ok(Str([]), t[4..])
    else Bad
  }

  /** An array behind its bracket. */
  function ArrayBody(s: bytes): (p: Parsed<seq<Value>>)
    ensures p.Ok? ==> |p.rest| < |s|
    decreases |s|, 3
  {
    var t := SkipWs(s);
    if StartsWith(t, RBRACKET) then Ok([], t[1..]) else ParseItems(t, [])
  }

  /** The loop of an array whose items so far are `items`. */
  function ParseItems(s: bytes, items: seq<Value>): (p: Parsed<seq<Value>>)
    ensures p.Ok? ==> |p.rest| < |s|
    decreases |s|, 2
  {
    match ParseAny(SkipWs(s))
    case Ok(item, rest) =>
      var t := SkipWs(rest);
      if StartsWith(t, COMMA) then ParseItems(t[1..], items + [item])
      else if StartsWith(t, RBRACKET) then Ok(items + [item], t[1..])
      else Bad
    case Bad => Bad
    case Undefined => Undefined
  }

  /** `parse_object_body`; `s` starts with the brace. */
  function ParseBody(s: bytes): (p: Parsed<Object>)
    requires s != []
    ensures p.Ok? ==> |p.rest| < |s|
    decreases |s|, 0
  {
    var t := SkipWs(s[1..]);
    if StartsWith(t, RBRACE) then Ok([], t[1..]) else ParseFields(t, [])
  }

  /** Key, colon and value. */
  function OneField(s: bytes): (p: Parsed<Field>)
    ensures p.Ok? ==> |p.rest| < |s|
    decreases |s|, 2
  {
    match String(SkipWs(s))
    case Ok(key, rest) =>
      var t := SkipWs(rest);
      if !StartsWith(t, COLON) then Bad
      else (
        match ParseAny(t[1..])
        case Ok(val, rest2) => Ok(Field(key, val), rest2)
        case Bad => Bad
        case Undefined => Undefined
      )
    case _ => Bad
  }

  /** The loop of an object whose fields so far are `o`. */
  function ParseFields(s: bytes, o: Object): (p: Parsed<Object>)
    ensures p.Ok? ==> |p.rest| < |s|
    decreases |s|, 3
  {
    match OneField(s)
    case Ok(f, rest) =>
      var u := SkipWs(rest);
      if StartsWith(u, COMMA) then ParseFields(u[1..], Set(o, f.key, f.val))
      else if StartsWith(u, RBRACE) then Ok(Set(o, f.key, f.val), u[1..])
      else Bad
    case Bad => Bad
    case Undefined => Undefined
  }

  /** `parse`: one object and nothing behind it. */
  function Parse(text: bytes): (p: Parsed<Object>)
    ensures p.Ok? ==> p.rest == []
  {
    var t := SkipWs(text);
    if !StartsWith(t, LBRACE) then Bad
    else
      match ParseBody(t)
      case Ok(o, rest) => if SkipWs(rest) == [] then Ok(o, []) else Bad
      case Bad => Bad
      case Undefined => Undefined
  }
}
