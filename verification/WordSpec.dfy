/** What the sensitive-word filter promises: leftmost longest matches of a set of words, and a masked
    text in which no word is left. */
module WordSpec {
  import opened Bytes
  import JsonUtf8

  function Lower(b: byte): byte { if 65 <= b <= 90 then b + 32 else b }

  /** Two bytes are the same to the filter exactly if they are equal or the two cases of one ASCII letter. */
  lemma SameLetter(a: byte, b: byte)
    ensures Lower(a) == Lower(b) <==>
      a == b || (65 <= a <= 90 && b == a + 32) || (65 <= b <= 90 && a == b + 32)
  {
  }

  function Lowered(s: bytes): (r: bytes)
    ensures |r| == |s| && forall i :: 0 <= i < |s| ==> r[i] == Lower(s[i])
  {
    seq(|s|, i requires 0 <= i < |s| => Lower(s[i]))
  }

  lemma LoweredAppend(a: bytes, b: bytes)
    ensures Lowered(a + b) == Lowered(a) + Lowered(b)
  {
  }

  lemma LoweredSlice(s: bytes, i: nat, j: nat)
    requires i <= j <= |s|
    ensures Lowered(s)[i..j] == Lowered(s[i..j])
  {
  }

  /** A word list: each lower-cased word with the spelling under which it was first added. */
  type Dict = map<bytes, bytes>

  datatype Match = Match(start: nat, end: nat, word: bytes)

  predicate WordAt(d: Dict, t: bytes, p: int, q: int) { 0 <= p < q <= |t| && t[p..q] in d }

  // ---------- the scan ----------

  /** The longest `m <= n` such that a word stands at `i` with length `m`, 0 if there is none. */
  function LongestUpTo(d: Dict, t: bytes, i: nat, n: nat): (m: nat)
    requires i + n <= |t|
    ensures m <= n && (m > 0 ==> WordAt(d, t, i, i + m))
    ensures forall q :: i + m < q <= i + n ==> !WordAt(d, t, i, q)
  {
    if n == 0 then 0
    else if t[i..i + n] in d then n
    else LongestUpTo(d, t, i, n - 1)
  }

  function Longest(d: Dict, t: bytes, i: nat): (n: nat)
    requires i <= |t|
    ensures i + n <= |t| && (n > 0 ==> WordAt(d, t, i, i + n))
    ensures forall q :: i + n < q ==> !WordAt(d, t, i, q)
  {
    LongestUpTo(d, t, i, |t| - i)
  }

  function Scan(d: Dict, t: bytes, i: nat): seq<Match>
    requires i <= |t|
    decreases |t| - i
  {
    if i == |t| then []
    else
      var n := Longest(d, t, i);
      if n > 0 then [Match(i, i + n, d[t[i..i + n]])] + Scan(d, t, i + n) else Scan(d, t, i + 1)
  }

  /** The reference: from `from` on, no word starts before the first match, the first match is the
      longest word at its place, and the same holds behind it. */
  ghost predicate LeftmostLongest(d: Dict, t: bytes, from: nat, ms: seq<Match>)
    decreases |ms|
  {
    if ms == [] then forall p, q :: from <= p ==> !WordAt(d, t, p, q)
    else
      var m := ms[0];
      && from <= m.start && WordAt(d, t, m.start, m.end) && m.word == d[t[m.start..m.end]]
      && (forall p, q :: from <= p < m.start ==> !WordAt(d, t, p, q))
      && (forall q :: m.end < q ==> !WordAt(d, t, m.start, q))
      && LeftmostLongest(d, t, m.end, ms[1..])
  }

  /** The scan is that reference, and the only one. */
  lemma {:induction false} ScanIsLeftmostLongest(d: Dict, t: bytes, from: nat)
    requires from <= |t|
    ensures LeftmostLongest(d, t, from, Scan(d, t, from))
    decreases |t| - from
  {
    if from < |t| {
      var n := Longest(d, t, from);
      if n > 0 {
        ScanIsLeftmostLongest(d, t, from + n);
      } else {
        ScanIsLeftmostLongest(d, t, from + 1);
      }
    }
  }

  lemma {:induction false} LeftmostLongestIsUnique(d: Dict, t: bytes, from: nat, a: seq<Match>, b: seq<Match>)
    requires LeftmostLongest(d, t, from, a) && LeftmostLongest(d, t, from, b)
    ensures a == b
    decreases |a|
  {
    if a != [] {
      assert WordAt(d, t, a[0].start, a[0].end);
      assert b != [] && WordAt(d, t, b[0].start, b[0].end);
      LeftmostLongestIsUnique(d, t, a[0].end, a[1..], b[1..]);
      assert a == [a[0]] + a[1..] && b == [b[0]] + b[1..];
    }
  }

  /** Every occurrence of a word, longest or not, overlaps a match. */
  lemma {:induction false} OccurrenceOverlapsMatch(d: Dict, t: bytes, from: nat, p: nat, q: nat)
    requires from <= p && WordAt(d, t, p, q)
    ensures exists m :: m in Scan(d, t, from) && m.start < q && p < m.end
    decreases |t| - from
  {
    hide Longest;
    var n := Longest(d, t, from);
    if n > 0 {
      if from + n <= p {
        OccurrenceOverlapsMatch(d, t, from + n, p, q);
        var m :| m in Scan(d, t, from + n) && m.start < q && p < m.end;
        assert m in Scan(d, t, from);
      } else {
        assert Scan(d, t, from)[0] == Match(from, from + n, d[t[from..from + n]]);
      }
    } else {
      OccurrenceOverlapsMatch(d, t, from + 1, p, q);
    }
  }

  lemma {:induction false} MatchIsOccurrence(d: Dict, t: bytes, from: nat, m: Match)
    requires from <= |t| && m in Scan(d, t, from)
    ensures from <= m.start && WordAt(d, t, m.start, m.end)
    decreases |t| - from
  {
    if from < |t| {
      var n := Longest(d, t, from);
      if n > 0 {
        if m in Scan(d, t, from + n) { MatchIsOccurrence(d, t, from + n, m); }
      } else {
        MatchIsOccurrence(d, t, from + 1, m);
      }
    }
  }

  ghost predicate SomeWordOccurs(d: Dict, t: bytes) { exists p, q :: WordAt(d, t, p, q) }

  /** `contains` answers exactly whether some word occurs somewhere. */
  lemma ScanFindsSomething(d: Dict, t: bytes)
    ensures Scan(d, t, 0) != [] <==> SomeWordOccurs(d, t)
  {
    if SomeWordOccurs(d, t) {
      var p, q :| WordAt(d, t, p, q);
      OccurrenceOverlapsMatch(d, t, 0, p, q);
    }
    if Scan(d, t, 0) != [] {
      MatchIsOccurrence(d, t, 0, Scan(d, t, 0)[0]);
    }
  }

  // ---------- masking ----------

  predicate Continuation(b: byte) { 0x80 <= b <= 0xBF }

  /** `utf8_chars`: the bytes that are not continuation bytes. */
  function Chars(s: bytes): nat {
    if s == [] then 0 else (if Continuation(s[0]) then 0 else 1) + Chars(s[1..])
  }

  lemma {:induction false} CharsAppend(a: bytes, b: bytes)
    ensures Chars(a + b) == Chars(a) + Chars(b)
  {
    if a == [] {
      assert a + b == b;
    } else {
      assert (a + b)[1..] == a[1..] + b;
      CharsAppend(a[1..], b);
    }
  }

  lemma {:induction false} TailsOnly(s: bytes)
    requires forall i :: 0 <= i < |s| ==> JsonUtf8.IsTail(s[i])
    ensures Chars(s) == 0
  {
    if s != [] { TailsOnly(s[1..]); }
  }

  lemma OneCharCounts(s: bytes)
    requires JsonUtf8.CharLength(s) > 0
    ensures Chars(s[..JsonUtf8.CharLength(s)]) == 1
  {
    var c := s[..JsonUtf8.CharLength(s)];
    assert c == [c[0]] + c[1..];
    assert forall i :: 1 <= i < |c| ==> JsonUtf8.IsTail(s[i]);
    assert forall i :: 0 <= i < |c| - 1 ==> c[1..][i] == s[i + 1];
    TailsOnly(c[1..]);
  }

  /** In well-formed text the count is the number of its characters. */
  lemma {:induction false} CharsAreCharacters(s: bytes)
    requires JsonUtf8.ValidUtf8(s)
    ensures Chars(s) == |JsonUtf8.Chars(s)|
  {
    hide JsonUtf8.CharLength, JsonUtf8.CharOf;
    if s != [] {
      var n := JsonUtf8.CharLength(s);
      OneCharCounts(s);
      CharsAppend(s[..n], s[n..]);
      assert s == s[..n] + s[n..];
      CharsAreCharacters(s[n..]);
    }
  }

  function Masks(s: bytes, mask: byte): bytes {
    var n := Chars(s);
    seq(if n > 0 then n else 1, _ => mask)
  }

  /** The masked text from `i` on, one character or one match at a time. */
  function Masked(d: Dict, text: bytes, i: nat, mask: byte): bytes
    requires i <= |text|
    decreases |text| - i
  {
    if i == |text| then []
    else
      var n := Longest(d, Lowered(text), i);
      if n > 0 then Masks(text[i..i + n], mask) + Masked(d, text, i + n, mask)
      else [text[i]] + Masked(d, text, i + 1, mask)
  }

  predicate NoMaskByte(d: Dict, mask: byte) { forall w :: w in d ==> w != [] && Lower(mask) !in w }

  predicate AllMask(ms: bytes, mask: byte) { forall k :: 0 <= k < |ms| ==> ms[k] == mask }

  lemma MaskedHead(d: Dict, text: bytes, i: nat, mask: byte)
    requires i < |text|
    ensures var n, out := Longest(d, Lowered(text), i), Masked(d, text, i, mask);
      if n > 0 then
        && out == Masks(text[i..i + n], mask) + Masked(d, text, i + n, mask)
        && AllMask(Masks(text[i..i + n], mask), mask)
        && out != [] && out[0] == mask
      else out == [text[i]] + Masked(d, text, i + 1, mask)
  {
  }

  lemma HeadOfLowered(s: bytes, w: bytes, n: nat)
    requires 0 < n == |w| <= |s| && Lowered(s[..n]) == w
    ensures w[0] == Lower(s[0]) && w[0] in w && Lowered(s[1..][..n - 1]) == w[1..]
  {
    assert w[0] == Lower(s[..n][0]);
    assert s[1..][..n - 1] == s[..n][1..];
  }

  lemma NothingLeft(d: Dict, text: bytes, mask: byte)
    ensures Masked(d, text, |text|, mask) == []
  {
  }

  lemma {:induction false} MaskedPrefix(d: Dict, text: bytes, i: nat, mask: byte, w: bytes)
    requires i <= |text| && Lower(mask) !in w
    requires |w| <= |Masked(d, text, i, mask)| && Lowered(Masked(d, text, i, mask)[..|w|]) == w
    ensures i + |w| <= |text| && Lowered(text)[i..i + |w|] == w
    decreases |w|
  {
    hide Longest, Masked, Masks;
    NothingLeft(d, text, mask);
    if w != [] {
      var out := Masked(d, text, i, mask);
      HeadOfLowered(out, w, |w|);
      MaskedHead(d, text, i, mask);
      Dropped([text[i]], Masked(d, text, i + 1, mask));
      MaskedPrefix(d, text, i + 1, mask, w[1..]);
      assert Lowered(text)[i..i + |w|] == [Lower(text[i])] + Lowered(text)[i + 1..i + |w|];
    }
  }

  lemma WordInTail(d: Dict, a: bytes, b: bytes, p: int, q: int)
    requires |a| <= p && WordAt(d, Lowered(a + b), p, q)
    ensures WordAt(d, Lowered(b), p - |a|, q - |a|)
    ensures Lowered(b)[p - |a|..q - |a|] == Lowered(a + b)[p..q]
  {
    LoweredAppend(a, b);
    assert Lowered(a + b)[p..q] == Lowered(b)[p - |a|..q - |a|];
  }

  /** Whatever the list: a word left in the masked text has the mask byte in it. */
  lemma {:induction false} LeftoverHasMask(d: Dict, text: bytes, i: nat, mask: byte, p: int, q: int)
    requires i <= |text| && WordAt(d, Lowered(Masked(d, text, i, mask)), p, q)
    ensures Lower(mask) in Lowered(Masked(d, text, i, mask))[p..q]
    decreases |text| - i
  {
    hide Longest, Lowered, Masks;
    var out := Masked(d, text, i, mask);
    var low := Lowered(out);
    var w := low[p..q];
    if i < |text| && Lower(mask) !in w {
      assert low[p] == w[0] && w[0] != Lower(mask);
      MaskedHead(d, text, i, mask);
      if Longest(d, Lowered(text), i) > 0 {
        var n := Longest(d, Lowered(text), i);
        var ms, rest := Masks(text[i..i + n], mask), Masked(d, text, i + n, mask);
        MasksThenRest(ms, rest, mask, p);
        WordInTail(d, ms, rest, p, q);
        LeftoverHasMask(d, text, i + n, mask, p - |ms|, q - |ms|);
      } else if p > 0 {
        WordInTail(d, [text[i]], Masked(d, text, i + 1, mask), p, q);
        LeftoverHasMask(d, text, i + 1, mask, p - 1, q - 1);
      } else {
        LoweredSlice(out, 0, q);
        assert out[0..q] == out[..q];
        if i + q <= |text| { assert !WordAt(d, Lowered(text), i, i + q); }
        MaskedPrefix(d, text, i, mask, w);
      }
    }
  }

  lemma MasksThenRest(ms: bytes, rest: bytes, mask: byte, p: nat)
    requires p < |ms + rest| && Lowered(ms + rest)[p] != Lower(mask) && AllMask(ms, mask)
    ensures p >= |ms|
  {
    assert forall k :: 0 <= k < |ms| ==> (ms + rest)[k] == ms[k];
  }

  /** A text without a match from `i` on is kept from there. */
  lemma {:induction false} TailKept(d: Dict, text: bytes, i: nat, mask: byte)
    requires i <= |text| && forall k, q :: i <= k ==> !WordAt(d, Lowered(text), k, q)
    ensures Masked(d, text, i, mask) == text[i..]
    decreases |text| - i
  {
    if i < |text| {
      var n := Longest(d, Lowered(text), i);
      assert n > 0 ==> WordAt(d, Lowered(text), i, i + n);
      TailKept(d, text, i + 1, mask);
    }
  }

  /** If the mask byte is in no word, filtering cleans every text, and once is enough. */
  lemma FilteredTextIsClean(d: Dict, text: bytes, mask: byte)
    requires NoMaskByte(d, mask)
    ensures var out := Masked(d, text, 0, mask);
      !SomeWordOccurs(d, Lowered(out)) && Masked(d, out, 0, mask) == out
  {
    var out := Masked(d, text, 0, mask);
    forall p, q ensures !WordAt(d, Lowered(out), p, q) {
      if WordAt(d, Lowered(out), p, q) { LeftoverHasMask(d, text, 0, mask, p, q); }
    }
    TailKept(d, out, 0, mask);
    assert out[0..] == out;
  }

  // ---------- which words are removed ----------

  predicate StandsAt(w: bytes, t: bytes, p: nat) { p + |w| <= |t| && t[p..p + |w|] == w }

  ghost predicate Occurs(w: bytes, t: bytes) { exists p :: StandsAt(w, t, p) }

  /** No list with this word and no text keep it. */
  ghost predicate AlwaysRemoved(w: bytes, mask: byte) {
    forall d: Dict, text: bytes :: w in d ==> !Occurs(w, Lowered(Masked(d, text, 0, mask)))
  }

  /** A word of one character that shares no byte with the end of `w`, longer than `w`, and never overlapping itself. */
  predicate Spacer(v: bytes, w: bytes) {
    && w != [] && |v| == |w| + 1 && v[0] >= 0xC0 && v[0] != w[|w| - 1]
    && forall i :: 0 < i < |v| ==> Continuation(v[i]) && v[i] != w[|w| - 1]
  }

  function SpacerFor(w: bytes): (v: bytes)
    requires w != []
    ensures Spacer(v, w)
  {
    var last := w[|w| - 1];
    [if last == 0xC3 then 0xC4 else 0xC3] + seq(|w|, _ => if last == 0x80 then 0x81 else 0x80)
  }

  /** `w` with the byte at `j` replaced by the spacer. */
  function Spaced(w: bytes, v: bytes, j: nat): bytes
    requires j < |w|
  {
    w[..j] + v + w[j + 1..]
  }

  lemma SpacedAt(w: bytes, v: bytes, j: nat, i: nat)
    requires j < |w| && Spacer(v, w) && i < 2 * |w|
    ensures |Spaced(w, v, j)| == 2 * |w|
    ensures Spaced(w, v, j)[i] == if i < j then w[i] else if i <= j + |w| then v[i - j] else w[i - |w|]
  {
  }

  /** Before the spacer, `w` would end inside it ... */
  lemma EndsInside(w: bytes, v: bytes, j: nat, i: nat)
    requires j < |w| && Spacer(v, w) && i < j
    ensures i + |w| <= |Spaced(w, v, j)| && Spaced(w, v, j)[i..i + |w|] != w
  {
    SpacedAt(w, v, j, i + |w| - 1);
    var t := Spaced(w, v, j);
    assert t[i..i + |w|][|w| - 1] == t[i + |w| - 1];
  }

  /** ... and the spacer would start inside itself. */
  lemma StartsInside(w: bytes, v: bytes, j: nat, i: nat)
    requires j < |w| && Spacer(v, w) && i < j && i + |v| <= |Spaced(w, v, j)|
    ensures Spaced(w, v, j)[i..i + |v|] != v
  {
    SpacedAt(w, v, j, j);
    var t := Spaced(w, v, j);
    assert t[i..i + |v|][j - i] == t[j];
  }

  lemma NothingBefore(w: bytes, v: bytes, j: nat, i: nat, q: int, d: Dict)
    requires j < |w| && Spacer(v, w) && i < j && d.Keys == {w, v}
    ensures !WordAt(d, Spaced(w, v, j), i, q)
  {
    hide Spaced;
    EndsInside(w, v, j, i);
    var t := Spaced(w, v, j);
    if i + |v| <= |t| { StartsInside(w, v, j, i); }
    assert forall x :: x in d <==> x == w || x == v;
    assert i < q <= |t| ==> |t[i..q]| == q - i;
  }

  /** Behind the spacer there is too little text for either word. */
  lemma NothingBehind(w: bytes, v: bytes, j: nat, i: nat, q: int, d: Dict)
    requires j < |w| && Spacer(v, w) && j + |v| <= i && d.Keys == {w, v}
    ensures !WordAt(d, Spaced(w, v, j), i, q)
  {
    SpacedAt(w, v, j, 0);
    assert forall x :: x in d ==> |x| >= |w|;
    assert i < q <= |Spaced(w, v, j)| ==> |Spaced(w, v, j)[i..q]| < |w|;
  }

  lemma SpacerMatches(w: bytes, v: bytes, j: nat, d: Dict)
    requires j < |w| && Spacer(v, w) && d.Keys == {w, v}
    ensures j + |v| <= |Spaced(w, v, j)| && Longest(d, Spaced(w, v, j), j) == |v|
  {
    var t := Spaced(w, v, j);
    SpacedAt(w, v, j, 0);
    assert t[j..j + |v|] == v;
    assert WordAt(d, t, j, j + |v|);
    var n := Longest(d, t, j);
    assert n > 0 ==> t[j..j + n] in d;
  }

  lemma SpacerIsOneChar(v: bytes, w: bytes, mask: byte)
    requires Spacer(v, w)
    ensures Masks(v, mask) == [mask]
  {
    assert v == [v[0]] + v[1..];
    assert forall i :: 0 <= i < |v| - 1 ==> v[1..][i] == v[i + 1];
    NoChars(v[1..]);
    assert Chars(v) == 1;
  }

  lemma SpacedIsLower(w: bytes, v: bytes, j: nat)
    requires j < |w| && Spacer(v, w) && Lowered(w) == w
    ensures Lowered(Spaced(w, v, j)) == Spaced(w, v, j)
  {
    var t := Spaced(w, v, j);
    forall i | 0 <= i < |t| ensures Lower(t[i]) == t[i] {
      SpacedAt(w, v, j, 0);
      SpacedAt(w, v, j, i);
      assert forall k :: 0 <= k < |w| ==> Lowered(w)[k] == Lower(w[k]);
    }
  }

  lemma {:induction false} HeadKept(d: Dict, text: bytes, i: nat, j: nat, mask: byte)
    requires i <= j <= |text| && forall k: nat, q :: k < j ==> !WordAt(d, Lowered(text), k, q)
    ensures Masked(d, text, i, mask) == text[i..j] + Masked(d, text, j, mask)
    decreases j - i
  {
    if i < j {
      var n := Longest(d, Lowered(text), i);
      assert n > 0 ==> WordAt(d, Lowered(text), i, i + n);
      HeadKept(d, text, i + 1, j, mask);
      assert text[i..j] == [text[i]] + text[i + 1..j];
      Assoc([text[i]], text[i + 1..j], Masked(d, text, j, mask));
    }
  }

  lemma SpacedMasked(w: bytes, v: bytes, j: nat, d: Dict, mask: byte)
    requires j < |w| && Spacer(v, w) && d.Keys == {w, v} && Lowered(w) == w
    ensures Masked(d, Spaced(w, v, j), 0, mask) == w[..j] + ([mask] + w[j + 1..])
  {
    hide Longest, Spaced, Lowered, Masks, Spacer, Masked, WordAt;
    var text := Spaced(w, v, j);
    SpacedIsLower(w, v, j);
    forall k: nat, q | k < j ensures !WordAt(d, text, k, q) { NothingBefore(w, v, j, k, q, d); }
    forall k, q | j + |v| <= k ensures !WordAt(d, text, k, q) { NothingBehind(w, v, j, k, q, d); }
    SpacedParts(w, v, j);
    SpacerMatches(w, v, j, d);
    HeadKept(d, text, 0, j, mask);
    TailKept(d, text, j + |v|, mask);
    MaskedHead(d, text, j, mask);
    SpacerIsOneChar(v, w, mask);
  }

  /** The spacer is masked by the mask byte, and the word stands there again. */
  lemma WordComesBack(w: bytes, mask: byte, j: nat)
    requires j < |w| && Lowered(w) == w && w[j] == Lower(mask)
    ensures !AlwaysRemoved(w, mask)
  {
    hide Spaced, Lowered, SpacerFor, Masked, Spacer;
    var v := SpacerFor(w);
    var d: Dict := map[w := w, v := v];
    SpacedMasked(w, v, j, d, mask);
    PutBack(w, mask, j);
    var low := Lowered(Masked(d, Spaced(w, v, j), 0, mask));
    assert low[0..0 + |w|] == w;
    assert StandsAt(w, low, 0);
  }

  lemma SpacedParts(w: bytes, v: bytes, j: nat)
    requires j < |w| && Spacer(v, w)
    ensures |Spaced(w, v, j)| == 2 * |w| && |v| == |w| + 1
    ensures Spaced(w, v, j)[0..j] == w[..j] && Spaced(w, v, j)[j..j + |v|] == v
        && Spaced(w, v, j)[j + |v|..] == w[j + 1..]
  {
  }

  lemma PutBack(w: bytes, mask: byte, j: nat)
    requires j < |w| && Lowered(w) == w && w[j] == Lower(mask)
    ensures Lowered(w[..j] + ([mask] + w[j + 1..])) == w
  {
    var out := w[..j] + ([mask] + w[j + 1..]);
    forall i | 0 <= i < |w| ensures Lower(out[i]) == w[i] {
      assert Lowered(w)[i] == Lower(w[i]);
    }
  }

  /** A word is removed from every text under every list exactly when the mask byte is not in it. */
  lemma WordRemovedExactly(w: bytes, mask: byte)
    requires w != [] && Lowered(w) == w
    ensures AlwaysRemoved(w, mask) <==> Lower(mask) !in w
  {
    if Lower(mask) in w {
      var j :| 0 <= j < |w| && w[j] == Lower(mask);
      WordComesBack(w, mask, j);
    } else {
      forall d: Dict, text: bytes | w in d ensures !Occurs(w, Lowered(Masked(d, text, 0, mask))) {
        WordStaysOut(d, text, w, mask);
      }
    }
  }

  lemma WordStaysOut(d: Dict, text: bytes, w: bytes, mask: byte)
    requires w in d && w != [] && Lower(mask) !in w
    ensures !Occurs(w, Lowered(Masked(d, text, 0, mask)))
  {
    hide Masked;
    var low := Lowered(Masked(d, text, 0, mask));
    if Occurs(w, low) {
      var p: nat :| StandsAt(w, low, p);
      LeftoverHasMask(d, text, 0, mask, p, p + |w|);
    }
  }

  /** The condition is needed: with the word "a*", masking "aa*" gives "a**", which has it again. */
  lemma MaskByteInWordLeaves()
    ensures var d: Dict := map[[97, 42] := [97, 42]]; SomeWordOccurs(d, Lowered(Masked(d, [97, 97, 42], 0, 42)))
  {
    var d: Dict := map[[97, 42] := [97, 42]];
    var text: bytes := [97, 97, 42];
    var low := Lowered(text);
    assert low == text;
    assert low[0..3] == text && low[0..2] == [97, 97] && low[0..1] == [97];
    assert Longest(d, low, 0) == 0;
    assert low[1..3] == [97, 42];
    assert Longest(d, low, 1) == 2;
    assert text[1..3] == [97, 42];
    assert Chars([97, 42]) == 2 by {
      assert [97, 42][1..] == [42] && [42][1..] == [];
    }
    assert Masked(d, text, 3, 42) == [];
    assert Masked(d, text, 1, 42) == [42, 42];
    assert Masked(d, text, 0, 42) == [97, 42, 42];
    assert Lowered([97, 42, 42])[0..2] == [97, 42];
    assert WordAt(d, Lowered(Masked(d, text, 0, 42)), 0, 2);
  }

  // ---------- length in characters ----------

  lemma {:induction false} CharsOfMasks(n: nat, mask: byte)
    ensures Chars(seq(n, _ => mask)) == if Continuation(mask) then 0 else n
  {
    if n > 0 {
      var ms := seq(n, _ => mask);
      assert ms[1..] == seq(n - 1, _ => mask);
      CharsOfMasks(n - 1, mask);
    }
  }

  lemma {:induction false} SomeChar(s: bytes, i: nat)
    requires i < |s| && !Continuation(s[i])
    ensures Chars(s) > 0
  {
    if i > 0 { SomeChar(s[1..], i - 1); }
  }

  predicate EveryWordHasAChar(d: Dict) {
    forall w :: w in d ==> exists i :: 0 <= i < |w| && !Continuation(w[i])
  }

  lemma MasksKeepChars(d: Dict, hit: bytes, mask: byte, w: bytes)
    requires EveryWordHasAChar(d) && w in d && w == Lowered(hit) && !Continuation(mask)
    ensures Chars(Masks(hit, mask)) == Chars(hit)
  {
    var k :| 0 <= k < |w| && !Continuation(w[k]);
    SomeChar(hit, k);
    CharsOfMasks(Chars(hit), mask);
  }

  lemma MaskedEnd(d: Dict, text: bytes, mask: byte)
    ensures Masked(d, text, |text|, mask) == []
  {
  }

  lemma SliceSplit(s: bytes, i: nat, j: nat)
    requires i <= j <= |s|
    ensures s[i..] == s[i..j] + s[j..]
  {
  }

  /** Masking keeps the number of characters when every word has one. */
  lemma {:induction false} MaskingKeepsChars(d: Dict, text: bytes, i: nat, mask: byte)
    requires i <= |text| && EveryWordHasAChar(d) && !Continuation(mask)
    ensures Chars(Masked(d, text, i, mask)) == Chars(text[i..])
    decreases |text| - i
  {
    hide Longest, Masks, Masked, Chars, Lowered;
    MaskedEnd(d, text, mask);
    if i < |text| {
      MaskedHead(d, text, i, mask);
      var n := Longest(d, Lowered(text), i);
      if n > 0 {
        var hit := text[i..i + n];
        LoweredSlice(text, i, i + n);
        MasksKeepChars(d, hit, mask, Lowered(hit));
        CharsAppend(Masks(hit, mask), Masked(d, text, i + n, mask));
        MaskingKeepsChars(d, text, i + n, mask);
        CharsAppend(hit, text[i + n..]);
        SliceSplit(text, i, i + n);
      } else {
        MaskingKeepsChars(d, text, i + 1, mask);
        CharsAppend([text[i]], Masked(d, text, i + 1, mask));
        CharsAppend([text[i]], text[i + 1..]);
        assert text[i..i + 1] == [text[i]];
        SliceSplit(text, i, i + 1);
      }
    } else {
      assert text[i..] == [];
    }
  }

  lemma {:induction false} NoChars(w: bytes)
    requires forall i :: 0 <= i < |w| ==> Continuation(w[i])
    ensures Chars(w) == 0 && Lowered(w) == w
  {
    if w != [] {
      assert Continuation(w[0]);
      assert forall i :: 0 <= i < |w| - 1 ==> w[1..][i] == w[i + 1];
      NoChars(w[1..]);
    }
  }

  lemma CharlessWordGrows(d: Dict, w: bytes, mask: byte)
    requires w in d && w != [] && !Continuation(mask) && forall i :: 0 <= i < |w| ==> Continuation(w[i])
    ensures Chars(Masked(d, w, 0, mask)) != Chars(w)
  {
    NoChars(w);
    assert w[0..|w|] == w && WordAt(d, w, 0, |w|);
    assert Longest(d, Lowered(w), 0) == |w|;
    MaskedEnd(d, w, mask);
    var n := Chars(w);
    assert Masked(d, w, 0, mask) == [mask];
    assert [mask][1..] == [];
  }

  /** Every text keeps its number of characters exactly when every word has one. */
  lemma CharsKeptExactly(d: Dict, mask: byte)
    requires [] !in d && !Continuation(mask)
    ensures (forall text :: Chars(Masked(d, text, 0, mask)) == Chars(text)) <==> EveryWordHasAChar(d)
  {
    if EveryWordHasAChar(d) {
      forall text ensures Chars(Masked(d, text, 0, mask)) == Chars(text) {
        MaskingKeepsChars(d, text, 0, mask);
        assert text[0..] == text;
      }
    } else {
      var w :| w in d && forall i :: 0 <= i < |w| ==> Continuation(w[i]);
      CharlessWordGrows(d, w, mask);
    }
  }
}
