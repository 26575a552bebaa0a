/** Which objects survive being printed and parsed again: exactly the canonical ones. */
module JsonRoundTrip {
  import opened Bytes
  import opened Json

  // ---------- canonical values ----------

  predicate HasKey(o: Object, key: bytes) { exists i :: 0 <= i < |o| && o[i].key == key }

  predicate UniqueKeys(o: Object) { forall i, j :: 0 <= i < j < |o| ==> o[i].key != o[j].key }

  /** Unique keys at every level, no missing object, and numbers whose magnitude fits. */
  predicate Canonical(v: Value)
    decreases v, 1
  {
    match v
    case Str(_) => true
    case Num(n) => -LLONG_MAX <= n <= LLONG_MAX
    case List(items) => AllCanonical(items)
    case Obj(fields) => CanonicalObject(fields)
    case NullObj => false
  }

  predicate AllCanonical(items: seq<Value>)
    decreases items, 0
  {
    items == [] || (Canonical(items[0]) && AllCanonical(items[1..]))
  }

  predicate CanonicalObject(o: Object)
    decreases o, 2
  {
    UniqueKeys(o) && CanonicalFields(o)
  }

  predicate CanonicalFields(o: Object)
    decreases o, 0
  {
    o == [] || (Canonical(o[0].val) && CanonicalFields(o[1..]))
  }

  // ---------- parser output is canonical ----------

  lemma {:induction false} SetKeys(o: Object, key: bytes, val: Value)
    requires UniqueKeys(o)
    ensures UniqueKeys(Set(o, key, val))
    ensures forall k :: HasKey(Set(o, key, val), k) <==> HasKey(o, k) || k == key
  {
    hide UniqueKeys, HasKey;
    if o == [] {
      KeysOf(Field(key, val), []);
      NoKeys();
      assert [Field(key, val)] + [] == [Field(key, val)];
    } else {
      assert o == [o[0]] + o[1..];
      KeysOf(o[0], o[1..]);
      if o[0].key == key {
        KeysOf(Field(key, val), o[1..]);
      } else {
        SetKeys(o[1..], key, val);
        KeysOf(o[0], Set(o[1..], key, val));
      }
    }
  }

  /** The keys of an object, its first field apart. */
  lemma KeysOf(f: Field, rest: Object)
    ensures UniqueKeys([f] + rest) <==> UniqueKeys(rest) && !HasKey(rest, f.key)
    ensures forall k :: HasKey([f] + rest, k) <==> k == f.key || HasKey(rest, k)
  {
    var o := [f] + rest;
    assert forall i :: 0 <= i < |rest| ==> o[i + 1] == rest[i];
    assert forall i :: 1 <= i < |o| ==> o[i] == rest[i - 1];
    assert o[0] == f;
    forall k ensures HasKey(o, k) <==> k == f.key || HasKey(rest, k) {
      if HasKey(rest, k) { var i :| 0 <= i < |rest| && rest[i].key == k; assert o[i + 1].key == k; }
    }
  }

  lemma NoKeys()
    ensures UniqueKeys([]) && forall k :: !HasKey([], k)
  {
  }

  lemma {:induction false} SetCanonical(o: Object, key: bytes, val: Value)
    requires CanonicalFields(o) && Canonical(val)
    ensures CanonicalFields(Set(o, key, val))
  {
    var o' := Set(o, key, val);
    if o == [] {
      assert o'[1..] == [];
    } else if o[0].key == key {
      assert o'[1..] == o[1..];
    } else {
      SetCanonical(o[1..], key, val);
      assert o'[1..] == Set(o[1..], key, val);
    }
  }

  lemma {:induction false} AppendCanonical(items: seq<Value>, v: Value)
    requires AllCanonical(items) && Canonical(v)
    ensures AllCanonical(items + [v])
  {
    if items == [] {
      assert (items + [v])[1..] == [];
    } else {
      AppendCanonical(items[1..], v);
      assert (items + [v])[1..] == items[1..] + [v];
    }
  }

  lemma {:induction false} ParsedIsCanonical(s: bytes)
    ensures ParseAny(s).Ok? ==> Canonical(ParseAny(s).value)
    decreases |s|, 1
  {
    var t := SkipWs(s);
    if ParseAny(s).Ok? {
      if t[0] == LBRACE {
        BodyIsCanonical(t);
      } else if t[0] == LBRACKET {
        ItemsAreCanonical(SkipWs(t[1..]), []);
      }
    }
  }

  lemma {:induction false} ItemsAreCanonical(s: bytes, items: seq<Value>)
    requires AllCanonical(items)
    ensures ParseItems(s, items).Ok? ==> AllCanonical(ParseItems(s, items).value)
    decreases |s|, 2
  {
    ParsedIsCanonical(SkipWs(s));
    var p := ParseAny(SkipWs(s));
    if p.Ok? {
      var t := SkipWs(p.rest);
      AppendCanonical(items, p.value);
      if StartsWith(t, COMMA) { ItemsAreCanonical(t[1..], items + [p.value]); }
    }
  }

  lemma {:induction false} BodyIsCanonical(s: bytes)
    requires s != []
    ensures ParseBody(s).Ok? ==> CanonicalObject(ParseBody(s).value)
    decreases |s|, 0
  {
    FieldsAreCanonical(SkipWs(s[1..]), []);
  }

  lemma {:induction false} FieldsAreCanonical(s: bytes, o: Object)
    requires CanonicalObject(o)
    ensures ParseFields(s, o).Ok? ==> CanonicalObject(ParseFields(s, o).value)
    decreases |s|, 3
  {
    var p := OneField(s);
    if p.Ok? {
      var f := p.value;
      ParsedIsCanonical(SkipWs(String(SkipWs(s)).rest)[1..]);
      var u := SkipWs(p.rest);
      SetKeys(o, f.key, f.val);
      SetCanonical(o, f.key, f.val);
      if StartsWith(u, COMMA) { FieldsAreCanonical(u[1..], Set(o, f.key, f.val)); }
    }
  }

  // ---------- printed text parses back ----------

  lemma StringStep(b: byte, s: bytes, out: bytes)
    ensures StringBody(EscapeByte(b) + s, out) == StringBody(s, out + [b])
  {
    var e := EscapeByte(b);
    var t := e + s;
    if |e| == 1 {
      assert t[1..] == s;
    } else if |e| == 2 {
      assert t[0] == BACKSLASH && t[1] == e[1] && t[2..] == s;
    } else {
      assert t[0] == BACKSLASH && t[1] == LOWER_U;
      assert t[2..][0] == ZERO && t[2..][1] == ZERO && t[2..][2] == e[4] && t[2..][3] == e[5];
      assert t[2..][4..] == s;
      assert Hex4(t[2..]) == b;
      assert UnicodeEscape(t[2..]) == Ok(b, s);
    }
  }

  lemma StringEnds(s: bytes, out: bytes)
    ensures StringBody([] + [QUOTE] + s, out) == Ok(out + [], s)
  {
    assert [] + [QUOTE] + s == [QUOTE] + s && ([QUOTE] + s)[1..] == s && out + [] == out;
  }

  lemma {:induction false} StringRoundTrip(str: bytes, s: bytes, out: bytes)
    ensures StringBody(Escape(str) + [QUOTE] + s, out) == Ok(out + str, s)
  {
    hide StringBody, EscapeByte;
    if str == [] {
      StringEnds(s, out);
    } else {
      var first, last := EscapeByte(str[0]), Escape(str[1..]);
      var more := last + [QUOTE] + s;
      assert Escape(str) + [QUOTE] + s == first + more by {
        Assoc(first, last, [QUOTE]);
        Assoc(first, last + [QUOTE], s);
      }
      StringStep(str[0], more, out);
      StringRoundTrip(str[1..], s, out + [str[0]]);
      assert out + [str[0]] + str[1..] == out + str;
    }
  }

  lemma QuotedRoundTrip(str: bytes, s: bytes)
    ensures String(Quoted(str) + s) == Ok(str, s)
  {
    assert (Quoted(str) + s)[1..] == Escape(str) + [QUOTE] + s;
    StringRoundTrip(str, s, []);
    assert [] + str == str;
  }

  /** What may follow a printed value. */
  predicate Delimited(s: bytes) { StartsWith(s, COMMA) || StartsWith(s, RBRACKET) || StartsWith(s, RBRACE) }

  lemma ReadDigitsGrows(ds: bytes, v: nat)
    requires forall i :: 0 <= i < |ds| ==> IsDigit(ds[i])
    ensures ReadDigits(ds, v) >= v
  {
    if ds != [] {
      assert IsDigit(ds[0]);
      ReadDigitsGrows(ds[1..], v * 10 + (ds[0] - ZERO));
    }
  }

  lemma {:induction false} MagnitudeReads(ds: bytes, s: bytes, v: nat)
    requires forall i :: 0 <= i < |ds| ==> IsDigit(ds[i])
    requires Delimited(s) && ReadDigits(ds, v) <= LLONG_MAX && v <= LLONG_MAX
    ensures Magnitude(ds + s, v) == Ok(ReadDigits(ds, v), s)
  {
    if ds == [] {
      assert ds + s == s;
    } else {
      assert IsDigit(ds[0]);
      var v' := v * 10 + (ds[0] - ZERO);
      ReadDigitsGrows(ds[1..], v');
      assert (ds + s)[1..] == ds[1..] + s;
      MagnitudeReads(ds[1..], s, v');
    }
  }

  lemma UnsignedRoundTrip(n: nat, s: bytes)
    requires n <= LLONG_MAX && Delimited(s)
    ensures Magnitude(Digits(n) + s, 0) == Ok(n, s) && IsDigit((Digits(n) + s)[0])
  {
    DigitsRoundTrip(n);
    MagnitudeReads(Digits(n), s, 0);
    assert IsDigit(Digits(n)[0]);
  }

  lemma NumberRoundTrip(n: int, s: bytes)
    requires -LLONG_MAX <= n <= LLONG_MAX && Delimited(s)
    ensures Number(Decimal(n) + s) == Ok(n, s)
  {
    if n < 0 {
      UnsignedRoundTrip(-n, s);
      Assoc([MINUS], Digits(-n), s);
      Dropped([MINUS], Digits(-n) + s);
    } else {
      UnsignedRoundTrip(n, s);
    }
  }

  lemma PrintedStart(v: Value)
    requires Canonical(v)
    ensures Print(v) != [] && !IsSpace(Print(v)[0])
  {
    if v.Num? && v.num >= 0 { assert IsDigit(Digits(v.num)[0]); }
  }

  lemma SkipWsNothing(s: bytes)
    requires s == [] || !IsSpace(s[0])
    ensures SkipWs(s) == s
  {
  }

  lemma {:induction false} ValueRoundTrip(v: Value, s: bytes)
    requires Canonical(v) && Delimited(s)
    ensures ParseAny(Print(v) + s) == Ok(v, s)
    decreases v, 1
  {
    var t := Print(v) + s;
    PrintedStart(v);
    assert t[0] == Print(v)[0];
    SkipWsNothing(t);
    match v
    case Str(str) => QuotedRoundTrip(str, s);
    case Num(n) =>
      NumberRoundTrip(n, s);
      if n >= 0 { assert IsDigit(Digits(n)[0]); }
    case List(items) => ListRoundTrip(items, s);
    case Obj(fields) =>
      assert t == [LBRACE] + PrintFields(fields, false) + [RBRACE] + s;
      BodyRoundTrip(fields, s);
  }

  lemma ListRoundTrip(items: seq<Value>, s: bytes)
    requires AllCanonical(items)
    ensures ParseAny([LBRACKET] + PrintItems(items, false) + [RBRACKET] + s) == Ok(List(items), s)
    decreases items, 1
  {
    var t := [LBRACKET] + PrintItems(items, false) + [RBRACKET] + s;
    var u := PrintItems(items, false) + [RBRACKET] + s;
    Tail3([LBRACKET], PrintItems(items, false), [RBRACKET], s);
    Dropped([LBRACKET], u);
    SkipWsNothing(t);
    if items == [] {
      assert u == [RBRACKET] + s;
      Dropped([RBRACKET], s);
    } else {
      Tail3(Print(items[0]), PrintItems(items[1..], true), [RBRACKET], s);
      MoreItemsText(items[1..], s);
      PrintedStart(items[0]);
      NotAClosingBracket(items[0]);
      assert u[0] == Print(items[0])[0];
      SkipWsNothing(u);
      assert [] + items == items;
      ItemsRoundTrip(items, s, [], items);
    }
  }

  lemma NotAClosingBracket(v: Value)
    requires Canonical(v)
    ensures Print(v) != [] && Print(v)[0] != RBRACKET
  {
    if v.Num? && v.num >= 0 { assert IsDigit(Digits(v.num)[0]); }
  }

  /** One turn of the array loop. */
  lemma ItemStep(item: Value, more: bytes, acc: seq<Value>)
    requires Canonical(item) && Delimited(more)
    requires ParseAny(Print(item) + more) == Ok(item, more)
    ensures more[0] == COMMA ==> ParseItems(Print(item) + more, acc) == ParseItems(more[1..], acc + [item])
    ensures more[0] == RBRACKET ==> ParseItems(Print(item) + more, acc) == Ok(acc + [item], more[1..])
  {
    PrintedStart(item);
    assert (Print(item) + more)[0] == Print(item)[0];
    SkipWsNothing(Print(item) + more);
    SkipWsNothing(more);
  }

  lemma Tail3<T>(a: seq<T>, b: seq<T>, c: seq<T>, d: seq<T>)
    ensures (a + b) + c + d == a + (b + c + d)
  {
    Assoc(a, b, c);
    Assoc(a, b + c, d);
  }

  /** What stands behind an item of an array when `items` are still to come. */
  function MoreItems(items: seq<Value>, s: bytes): bytes {
    if items == [] then [RBRACKET] + s else [COMMA] + (Print(items[0]) + MoreItems(items[1..], s))
  }

  lemma {:induction false} MoreItemsText(items: seq<Value>, s: bytes)
    ensures PrintItems(items, true) + [RBRACKET] + s == MoreItems(items, s)
  {
    if items == [] {
      assert [] + [RBRACKET] + s == [RBRACKET] + s;
    } else {
      MoreItemsText(items[1..], s);
      Tail3([COMMA], Print(items[0]) + PrintItems(items[1..], true), [RBRACKET], s);
      Tail3(Print(items[0]), PrintItems(items[1..], true), [RBRACKET], s);
    }
  }

  lemma {:induction false} ItemsRoundTrip(items: seq<Value>, s: bytes, acc: seq<Value>, all: seq<Value>)
    requires items != [] && all == acc + items && AllCanonical(items)
    ensures ParseItems(Print(items[0]) + MoreItems(items[1..], s), acc) == Ok(all, s)
    decreases items, 0
  {
    var more := MoreItems(items[1..], s);
    ValueRoundTrip(items[0], more);
    ItemStep(items[0], more, acc);
    if |items| == 1 {
      Dropped([RBRACKET], s);
      assert all == acc + [items[0]];
    } else {
      Dropped([COMMA], Print(items[1]) + MoreItems(items[1..][1..], s));
      Shifted(acc, items);
      ItemsRoundTrip(items[1..], s, acc + [items[0]], all);
    }
  }

  lemma {:induction false} BodyRoundTrip(o: Object, s: bytes)
    requires CanonicalObject(o)
    ensures ParseBody([LBRACE] + PrintFields(o, false) + [RBRACE] + s) == Ok(o, s)
    decreases o, 1
  {
    var t := [LBRACE] + PrintFields(o, false) + [RBRACE] + s;
    var u := PrintFields(o, false) + [RBRACE] + s;
    assert t[1..] == u;
    if o == [] {
      assert u == [RBRACE] + s;
      assert u[1..] == s;
    } else {
      FirstFieldText(o, s);
      assert u[0] == QUOTE;
      assert [] + o == o;
      FieldsRoundTrip(o, s, [], o);
    }
  }

  lemma {:induction false} SetAppends(o: Object, key: bytes, val: Value)
    requires !HasKey(o, key)
    ensures Set(o, key, val) == o + [Field(key, val)]
  {
    if o != [] {
      assert o[0].key != key;
      SetAppends(o[1..], key, val);
    }
  }

  lemma {:induction false} SetOverwrites(o: Object, key: bytes, val: Value, i: nat)
    requires i < |o| && o[i].key == key && forall k :: 0 <= k < i ==> o[k].key != key
    ensures Set(o, key, val) == o[i := Field(key, val)]
  {
    if i == 0 {
      assert o[0 := Field(key, val)] == [Field(key, val)] + o[1..];
    } else {
      assert o[0].key != key;
      SetOverwrites(o[1..], key, val, i - 1);
      assert o[i := Field(key, val)] == [o[0]] + o[1..][i - 1 := Field(key, val)];
    }
  }

  /** One turn of the object loop, for a key that is new. */
  lemma {:induction false} FieldStep(f: Field, more: bytes, acc: Object)
    requires Delimited(more) && !HasKey(acc, f.key)
    requires ParseAny(Print(f.val) + more) == Ok(f.val, more)
    ensures var t := Quoted(f.key) + ([COLON] + (Print(f.val) + more));
      && (more[0] == COMMA ==> ParseFields(t, acc) == ParseFields(more[1..], acc + [f]))
      && (more[0] == RBRACE ==> ParseFields(t, acc) == Ok(acc + [f], more[1..]))
  {
    var afterKey := [COLON] + (Print(f.val) + more);
    SkipWsNothing(Quoted(f.key) + afterKey);
    QuotedRoundTrip(f.key, afterKey);
    SkipWsNothing(afterKey);
    Dropped([COLON], Print(f.val) + more);
    SetAppends(acc, f.key, f.val);
    SkipWsNothing(more);
  }

  function MoreFields(o: Object, s: bytes): bytes
    decreases o, 1
  {
    if o == [] then [RBRACE] + s else [COMMA] + FirstField(o, s)
  }

  function FirstField(o: Object, s: bytes): bytes
    requires o != []
    decreases o, 0
  {
    Quoted(o[0].key) + ([COLON] + (Print(o[0].val) + MoreFields(o[1..], s)))
  }

  lemma {:induction false} FirstFieldText(o: Object, s: bytes)
    requires o != []
    ensures PrintFields(o, false) + [RBRACE] + s == FirstField(o, s)
    decreases o, 1
  {
    var key, val, rest := Quoted(o[0].key), Print(o[0].val), PrintFields(o[1..], true);
    MoreFieldsText(o[1..], s);
    Tail3(key, [COLON] + (val + rest), [RBRACE], s);
    Tail3([COLON], val + rest, [RBRACE], s);
    Tail3(val, rest, [RBRACE], s);
  }

  lemma {:induction false} MoreFieldsText(o: Object, s: bytes)
    ensures PrintFields(o, true) + [RBRACE] + s == MoreFields(o, s)
    decreases o, 2
  {
    if o == [] {
      assert [] + [RBRACE] + s == [RBRACE] + s;
    } else {
      FirstFieldText(o, s);
      Tail3([COMMA], PrintFields(o, false), [RBRACE], s);
    }
  }

  lemma {:induction false} FieldsRoundTrip(o: Object, s: bytes, acc: Object, all: Object)
    requires o != [] && all == acc + o && UniqueKeys(all) && CanonicalFields(o)
    ensures ParseFields(FirstField(o, s), acc) == Ok(all, s)
    decreases o, 0
  {
    var more := MoreFields(o[1..], s);
    NewKey(acc, o, all);
    ValueRoundTrip(o[0].val, more);
    FieldStep(o[0], more, acc);
    if |o| == 1 {
      Dropped([RBRACE], s);
      assert all == acc + [o[0]];
    } else {
      Dropped([COMMA], FirstField(o[1..], s));
      Shifted(acc, o);
      FieldsRoundTrip(o[1..], s, acc + [o[0]], all);
    }
  }

  lemma NewKey(acc: Object, o: Object, all: Object)
    requires o != [] && all == acc + o && UniqueKeys(all)
    ensures !HasKey(acc, o[0].key)
  {
    assert all[|acc|] == o[0];
    assert forall i :: 0 <= i < |acc| ==> all[i] == acc[i];
  }

  // ---------- main results ----------

  /** `parse(serialize(o))` gives `o` back exactly when `o` has unique keys at every level, no
      missing object and no number at or below -2^63; any bytes and any nesting are fine. */
  lemma RoundTripExact(o: Object)
    ensures Parse(Serialize(o)) == Ok(o, []) <==> CanonicalObject(o)
  {
    var t := Serialize(o);
    SkipWsNothing(t);
    if CanonicalObject(o) {
      BodyRoundTrip(o, []);
      assert t == [LBRACE] + PrintFields(o, false) + [RBRACE] + [];
    }
    BodyIsCanonical(t);
  }

  /** One pass normalises: what was parsed once is printed and parsed to itself. */
  lemma ParseIsIdempotent(text: bytes)
    requires Parse(text).Ok?
    ensures Parse(Serialize(Parse(text).value)) == Ok(Parse(text).value, [])
  {
    BodyIsCanonical(SkipWs(text));
    RoundTripExact(Parse(text).value);
  }
}
