/** The loops of include/chat/minijson.h: an index moves through the text, output is appended.
    Each method is tied to the suffix parser or the printer of module Json. */
module JsonCode {
  import opened Bytes
  import opened Json
  import opened JsonRoundTrip

  /** A value and the index behind it, a false return, or a signed overflow on the way. */
  datatype Outcome<T> = Done(value: T, next: nat) | Rejected | Overflowed

  /** Reading `t` from some index on gave what the suffix parser gives. */
  ghost predicate Meets<T>(r: Outcome<T>, t: bytes, p: Parsed<T>) {
    match p
    case Ok(v, rest) => r.Done? && r.value == v && r.next <= |t| && t[r.next..] == rest
    case Bad => r.Rejected?
    case Undefined => r.Overflowed?
  }

  lemma Advance(t: bytes, i: nat, n: nat)
    requires i + n <= |t|
    ensures t[i..][n..] == t[i + n..]
  {
  }

  method SkipSpaces(t: bytes, i: nat) returns (j: nat)
    requires i <= |t|
    ensures i <= j <= |t| && t[j..] == SkipWs(t[i..])
  {
    j := i;
    while j < |t| && IsSpace(t[j])
      invariant i <= j <= |t| && SkipWs(t[j..]) == SkipWs(t[i..])
    {
      Advance(t, j, 1);
      j := j + 1;
    }
  }

  /** `Object::set` */
  method SetField(o: Object, key: bytes, val: Value) returns (o': Object)
    ensures o' == Set(o, key, val)
  {
    for i := 0 to |o|
      invariant forall k :: 0 <= k < i ==> o[k].key != key
    {
      if o[i].key == key {
        SetOverwrites(o, key, val, i);
        return o[i := Field(key, val)];
      }
    }
    SetAppends(o, key, val);
    o' := o + [Field(key, val)];
  }

  method AppendUtf8(out: bytes, cp: nat) returns (ok: bool, out': bytes)
    ensures ok <==> cp <= 0x10FFFF
    ensures ok ==> out' == out + Utf8(cp)
  {
    ok, out' := true, out;
    if cp <= 0x7F {
      out' := out' + [cp];
    } else if cp <= 0x7FF {
      out' := out' + [0xC0 + cp / 64];
      out' := out' + [0x80 + cp % 64];
    } else if cp <= 0xFFFF {
      out' := out' + [0xE0 + cp / 4096];
      out' := out' + [0x80 + cp / 64 % 64];
      out' := out' + [0x80 + cp % 64];
    } else if cp <= 0x10FFFF {
      out' := out' + [0xF0 + cp / 262144];
      out' := out' + [0x80 + cp / 4096 % 64];
      out' := out' + [0x80 + cp / 64 % 64];
      out' := out' + [0x80 + cp % 64];
    } else {
      ok := false;
    }
  }

  method ReadHex4(t: bytes, pos: nat) returns (out: int)
    requires pos <= |t|
    ensures out == Hex4(t[pos..])
  {
    if pos + 4 > |t| { return -1; }
    out := 0;
    for k := 0 to 4
      invariant k > 0 ==> HexValue(t[pos]) >= 0
      invariant k > 1 ==> HexValue(t[pos + 1]) >= 0
      invariant k > 2 ==> HexValue(t[pos + 2]) >= 0
      invariant k == 0 ==> out == 0
      invariant k == 1 ==> out == HexValue(t[pos])
      invariant k == 2 ==> out == HexValue(t[pos]) * 16 + HexValue(t[pos + 1])
      invariant k == 3 ==> out == (HexValue(t[pos]) * 16 + HexValue(t[pos + 1])) * 16 + HexValue(t[pos + 2])
      invariant k == 4 ==> out == Hex4(t[pos..])
    {
      var h := HexValue(t[pos + k]);
      if h < 0 { return -1; }
      out := out * 16 + h;
    }
  }

  /** The `\u` case; `i` is the index of the letter. */
  method ReadUnicodeEscape(t: bytes, i: nat) returns (r: Outcome<nat>)
    requires i < |t|
    ensures Meets(r, t, UnicodeEscape(t[i + 1..]))
  {
    var s := t[i + 1..];
    var cu := ReadHex4(t, i + 1);
    if cu < 0 { return Rejected; }
    var j := i + 5;
    if 0xD800 <= cu <= 0xDBFF {
      if j + 1 >= |t| || t[j] != BACKSLASH || t[j + 1] != LOWER_U { return Rejected; }
      assert s[4] == t[j] && s[5] == t[j + 1];
      Advance(t, i + 1, 6);
      var lo := ReadHex4(t, j + 2);
      if lo < 0 || lo < 0xDC00 || lo > 0xDFFF { return Rejected; }
      Advance(t, i + 1, 10);
      return Done(0x10000 + (cu - 0xD800) * 1024 + (lo - 0xDC00), j + 6);
    } else if 0xDC00 <= cu <= 0xDFFF {
      return Rejected;
    }
    Advance(t, i + 1, 4);
    return Done(cu, j);
  }

  method ParseString(t: bytes, i: nat) returns (r: Outcome<bytes>)
    requires i <= |t|
    ensures Meets(r, t, String(t[i..]))
  {
    hide UnicodeEscape, Unescaped, Utf8, StringBody;
    if i >= |t| || t[i] != QUOTE { return Rejected; }
    ghost var goal := StringBody(t[i + 1..], []);
    Advance(t, i, 1);
    var j, out: bytes := i + 1, [];
    while j < |t|
      invariant i < j <= |t| && StringBody(t[j..], out) == goal
    {
      var c := t[j];
      StringStepAt(t, j, out);
      if c == QUOTE { return Done(out, j + 1); }
      if c == BACKSLASH {
        if j + 1 >= |t| { return Rejected; }
        var e := t[j + 1];
        if e == LOWER_U {
          var u := ReadUnicodeEscape(t, j + 1);
          if !u.Done? { return Rejected; }
          var ok, out' := AppendUtf8(out, u.value);
          if !ok { return Rejected; }
          j, out := u.next, out';
        } else if Unescaped(e) < 0 {
          return Rejected;
        } else {
          j, out := j + 2, out + [Unescaped(e)];
        }
      } else if c < 0x20 {
        return Rejected;
      } else {
        j, out := j + 1, out + [c];
      }
    }
    StringStepAt(t, j, out);
    return Rejected;
  }

  /** One turn of the string parser, by index. */
  lemma StringStepAt(t: bytes, j: nat, out: bytes)
    requires j <= |t|
    ensures StringBody(t[j..], out) ==
      if j == |t| then Bad
      else if t[j] == QUOTE then Ok(out, t[j + 1..])
      else if t[j] == BACKSLASH then
        if j + 1 == |t| then Bad
        else if t[j + 1] == LOWER_U then
          var u := UnicodeEscape(t[j + 2..]);
          if u.Ok? then StringBody(u.rest, out + Utf8(u.value)) else Bad
        else if Unescaped(t[j + 1]) < 0 then Bad
        else StringBody(t[j + 2..], out + [Unescaped(t[j + 1])])
      else if t[j] < 0x20 then Bad
      else StringBody(t[j + 1..], out + [t[j]])
  {
    hide UnicodeEscape, Unescaped, Utf8;
    if j < |t| { Advance(t, j, 1); }
    if j + 1 < |t| { Advance(t, j, 2); }
  }

  method SkipDigitsFrom(t: bytes, i: nat) returns (j: nat)
    requires i <= |t|
    ensures i <= j <= |t| && t[j..] == SkipDigits(t[i..])
  {
    j := i;
    while j < |t| && IsDigit(t[j])
      invariant i <= j <= |t| && SkipDigits(t[j..]) == SkipDigits(t[i..])
    {
      Advance(t, j, 1);
      j := j + 1;
    }
  }

  method SkipTail(t: bytes, i: nat) returns (j: nat)
    requires i <= |t|
    ensures i <= j <= |t| && t[j..] == SkipExponent(SkipFraction(t[i..]))
  {
    hide SkipDigits, SkipExponent;
    j := i;
    if j < |t| && t[j] == DOT {
      Advance(t, j, 1);
      j := SkipDigitsFrom(t, j + 1);
    }
    assert t[j..] == SkipFraction(t[i..]);
    j := SkipExponentFrom(t, j);
  }

  method SkipExponentFrom(t: bytes, i: nat) returns (j: nat)
    requires i <= |t|
    ensures i <= j <= |t| && t[j..] == SkipExponent(t[i..])
  {
    hide SkipDigits;
    j := i;
    if j < |t| && (t[j] == 101 || t[j] == 69) {
      Advance(t, i, 1);
      j := j + 1;
      if j < |t| && (t[j] == 43 || t[j] == MINUS) {
        Advance(t, i, 2);
        j := j + 1;
      }
      j := SkipDigitsFrom(t, j);
    }
  }

  /** The number parser by index, `j` being behind the sign. */
  lemma NumberAt(t: bytes, i: nat, j: nat, neg: bool)
    requires i <= j <= |t| && (neg <==> i < |t| && t[i] == MINUS) && j == if neg then i + 1 else i
    ensures Number(t[i..]) ==
      if j == |t| || !IsDigit(t[j]) then Bad
      else match Magnitude(t[j..], 0)
           case Ok(v, rest) =>
             var n: int := v;
             Ok(if neg then -n else n, SkipExponent(SkipFraction(rest)))
           case Bad => Bad
           case Undefined => Undefined
  {
    hide SkipFraction, SkipExponent, Magnitude;
    if neg { Advance(t, i, 1); }
  }

  lemma MagnitudeAt(t: bytes, j: nat, v: nat)
    requires j <= |t| && v <= LLONG_MAX
    ensures Magnitude(t[j..], v) ==
      if j == |t| || !IsDigit(t[j]) then Ok(v, t[j..])
      else if v * 10 + (t[j] - ZERO) > LLONG_MAX then Undefined
      else Magnitude(t[j + 1..], v * 10 + (t[j] - ZERO))
  {
    if j < |t| { Advance(t, j, 1); }
  }

  method ParseNumber(t: bytes, i: nat) returns (r: Outcome<int>)
    requires i <= |t|
    ensures Meets(r, t, Number(t[i..]))
  {
    hide SkipFraction, SkipExponent, Magnitude, Number;
    var j, neg := i, false;
    if j < |t| && t[j] == MINUS { j, neg := j + 1, true; }
    NumberAt(t, i, j, neg);
    if j >= |t| || !IsDigit(t[j]) { return Rejected; }
    ghost var goal := Magnitude(t[j..], 0);
    var v: nat := 0;
    while j < |t| && IsDigit(t[j])
      invariant i <= j <= |t| && v <= LLONG_MAX && Magnitude(t[j..], v) == goal
    {
      MagnitudeAt(t, j, v);
      if v * 10 + (t[j] - ZERO) > LLONG_MAX { return Overflowed; }
      v, j := v * 10 + (t[j] - ZERO), j + 1;
    }
    MagnitudeAt(t, j, v);
    j := SkipTail(t, j);
    var n: int := v;
    return Done(if neg then -n else n, j);
  }

  method ParseValue(t: bytes, i0: nat) returns (r: Outcome<Value>)
    requires i0 <= |t|
    ensures Meets(r, t, ParseAny(t[i0..]))
    decreases |t| - i0, 1
  {
    hide SkipWs, String, Number, ParseBody, ArrayBody;
    var i := SkipSpaces(t, i0);
    if i >= |t| { return Rejected; }
    var c := t[i];
    assert t[i..][0] == c;
    if c == QUOTE {
      var s := ParseString(t, i);
      return if s.Done? then Done(Str(s.value), s.next) else Rejected;
    }
    if c == MINUS || IsDigit(c) {
      var n := ParseNumber(t, i);
      match n {
        case Done(v, next) => return Done(Num(v), next);
        case Rejected => return Rejected;
        case Overflowed => return Overflowed;
      }
    }
    if c == LBRACE {
      var o := ParseObjectBody(t, i);
      match o {
        case Done(v, next) => return Done(Obj(v), next);
        case Rejected => return Rejected;
        case Overflowed => return Overflowed;
      }
    }
    if c == LBRACKET {
      Advance(t, i, 1);
      var a := ParseArray(t, i + 1);
      match a {
        case Done(v, next) => return Done(List(v), next);
        case Rejected => return Rejected;
        case Overflowed => return Overflowed;
      }
    }
    if i + 4 <= |t| && t[i..i + 4] == NULL {
      assert t[i..][..4] == t[i..i + 4];
      Advance(t, i, 4);
      return Done(Str([]), i + 4);
    }
    assert |t[i..]| >= 4 ==> t[i..][..4] == t[i..i + 4];
    return Rejected;
  }

  /** The array case of `parse_value`; `i0` is behind the bracket. */
  method ParseArray(t: bytes, i0: nat) returns (r: Outcome<seq<Value>>)
    requires i0 <= |t|
    ensures Meets(r, t, ArrayBody(t[i0..]))
    decreases |t| - i0, 2
  {
    hide ParseAny, SkipWs;
    var i := SkipSpaces(t, i0);
    var arr: seq<Value> := [];
    if i < |t| && t[i] == RBRACKET {
      Advance(t, i, 1);
      return Done(arr, i + 1);
    }
    ghost var goal := ParseItems(t[i..], []);
    while true
      invariant i0 <= i <= |t| && ParseItems(t[i..], arr) == goal
      decreases |t| - i
    {
      i := SkipSpaces(t, i);
      var item := ParseValue(t, i);
      if item.Rejected? { return Rejected; }
      if item.Overflowed? { return Overflowed; }
      arr := arr + [item.value];
      i := SkipSpaces(t, item.next);
      if i < |t| { Advance(t, i, 1); }
      if i < |t| && t[i] == COMMA {
        i := i + 1;
      } else if i < |t| && t[i] == RBRACKET {
        return Done(arr, i + 1);
      } else {
        return Rejected;
      }
    }
  }

  method ParseObjectBody(t: bytes, i0: nat) returns (r: Outcome<Object>)
    requires i0 < |t|
    ensures Meets(r, t, ParseBody(t[i0..]))
    decreases |t| - i0, 0
  {
    hide OneField, SkipWs, Set;
    Advance(t, i0, 1);
    var i := SkipSpaces(t, i0 + 1);
    var out: Object := [];
    if i < |t| && t[i] == RBRACE {
      Advance(t, i, 1);
      return Done(out, i + 1);
    }
    ghost var goal := ParseFields(t[i..], []);
    while true
      invariant i0 < i <= |t| && ParseFields(t[i..], out) == goal
      decreases |t| - i
    {
      var f := ParseField(t, i);
      if f.Rejected? { return Rejected; }
      if f.Overflowed? { return Overflowed; }
      out := SetField(out, f.value.key, f.value.val);
      i := SkipSpaces(t, f.next);
      if i < |t| { Advance(t, i, 1); }
      if i < |t| && t[i] == COMMA {
        i := i + 1;
      } else if i < |t| && t[i] == RBRACE {
        return Done(out, i + 1);
      } else {
        return Rejected;
      }
    }
  }

  /** Key, colon and value: one turn of the loop of `parse_object_body`. */
  method ParseField(t: bytes, i0: nat) returns (r: Outcome<Field>)
    requires i0 <= |t|
    ensures Meets(r, t, OneField(t[i0..]))
    decreases |t| - i0, 2
  {
    hide ParseAny, String, SkipWs;
    var i := SkipSpaces(t, i0);
    var key := ParseString(t, i);
    if !key.Done? { return Rejected; }
    i := SkipSpaces(t, key.next);
    if i >= |t| || t[i] != COLON { return Rejected; }
    Advance(t, i, 1);
    var v := ParseValue(t, i + 1);
    match v {
      case Done(val, next) => return Done(Field(key.value, val), next);
      case Rejected => return Rejected;
      case Overflowed => return Overflowed;
    }
  }

  method ParseText(t: bytes) returns (r: Outcome<Object>)
    ensures Meets(r, t, Parse(t))
  {
    assert t[0..] == t;
    var i := SkipSpaces(t, 0);
    if i >= |t| || t[i] != LBRACE { return Rejected; }
    var o := ParseObjectBody(t, i);
    if !o.Done? { return o; }
    i := SkipSpaces(t, o.next);
    assert t[i..] == [] <==> i == |t|;
    if i == |t| { return Done(o.value, i); }
    return Rejected;
  }

  // ---------- the printer ----------

  method EscapeString(s: bytes) returns (o: bytes)
    ensures o == Escape(s)
  {
    o := [];
    for i := 0 to |s|
      invariant o + Escape(s[i..]) == Escape(s)
    {
      Advance(s, i, 1);
      Assoc(o, EscapeByte(s[i]), Escape(s[i + 1..]));
      o := o + EscapeByte(s[i]);
    }
    assert s[|s|..] == [];
  }

  lemma Bracketed(s: bytes, open: bytes, text: bytes, close: bytes)
    ensures s + open + text + close == s + (open + text + close)
  {
  }

  method SerializeValue(v: Value, s0: bytes) returns (s: bytes)
    ensures s == s0 + Print(v)
    decreases v
  {
    s := s0;
    match v {
      case Str(str) =>
        var e := EscapeString(str);
        s := s + ([QUOTE] + e + [QUOTE]);
      case Num(n) => s := s + Decimal(n);
      case NullObj => s := s + NULL;
      case Obj(fields) =>
        s := s + [LBRACE];
        ghost var goal := s + PrintFields(fields, false);
        for i := 0 to |fields|
          invariant s + PrintFields(fields[i..], i > 0) == goal
        {
          ghost var rest := PrintFields(fields[i + 1..], true);
          ghost var key, val := Quoted(fields[i].key), Print(fields[i].val);
          assert fields[i..][1..] == fields[i + 1..];
          if i > 0 {
            Assoc(s, [COMMA], key + ([COLON] + (val + rest)));
            s := s + [COMMA];
          }
          Assoc(s, key, [COLON] + (val + rest));
          Assoc(s + key, [COLON], val + rest);
          Assoc(s + key + [COLON], val, rest);
          var e := EscapeString(fields[i].key);
          s := s + ([QUOTE] + e + [QUOTE]);
          s := s + [COLON];
          s := SerializeValue(fields[i].val, s);
        }
        assert fields[|fields|..] == [] && s + [] == s;
        s := s + [RBRACE];
        Bracketed(s0, [LBRACE], PrintFields(fields, false), [RBRACE]);
      case List(items) =>
        s := s + [LBRACKET];
        ghost var goal := s + PrintItems(items, false);
        for j := 0 to |items|
          invariant s + PrintItems(items[j..], j > 0) == goal
        {
          ghost var rest := PrintItems(items[j + 1..], true);
          assert items[j..][1..] == items[j + 1..];
          if j > 0 {
            Assoc(s, [COMMA], Print(items[j]) + rest);
            s := s + [COMMA];
          }
          Assoc(s, Print(items[j]), rest);
          s := SerializeValue(items[j], s);
        }
        assert items[|items|..] == [] && s + [] == s;
        s := s + [RBRACKET];
        Bracketed(s0, [LBRACKET], PrintItems(items, false), [RBRACKET]);
    }
  }

  /** The text of a whole message, with the same loop over the fields. */
  method SerializeObject(o: Object) returns (s: bytes)
    ensures s == Serialize(o)
  {
    s := [LBRACE];
    ghost var goal := s + PrintFields(o, false);
    for i := 0 to |o|
      invariant s + PrintFields(o[i..], i > 0) == goal
    {
      ghost var rest := PrintFields(o[i + 1..], true);
      ghost var key, val := Quoted(o[i].key), Print(o[i].val);
      assert o[i..][1..] == o[i + 1..];
      if i > 0 {
        Assoc(s, [COMMA], key + ([COLON] + (val + rest)));
        s := s + [COMMA];
      }
      Assoc(s, key, [COLON] + (val + rest));
      Assoc(s + key, [COLON], val + rest);
      Assoc(s + key + [COLON], val, rest);
      var e := EscapeString(o[i].key);
      s := s + ([QUOTE] + e + [QUOTE]);
      s := s + [COLON];
      s := SerializeValue(o[i].val, s);
    }
    assert o[|o|..] == [] && s + [] == s;
    s := s + [RBRACE];
  }
}
