/** The sensitive-word filter of src/word_filter.cpp: a trie that grows in place, and loops over it. */
module WordFilter {
  import opened Bytes
  import opened WordSpec

  datatype Node = Node(next: map<byte, nat>, terminal: bool, word: bytes)

  const NEW_NODE := Node(map[], false, [])

  // ---------- what a node list is ----------

  /** `paths[i]` is the text that leads from the root to node `i`, `parents[i]` the node before it.
      Distinct nodes have distinct paths, and every edge goes where the paths say. */
  ghost predicate Tree(nodes: seq<Node>, paths: seq<bytes>, parents: seq<nat>) {
    && |nodes| == |paths| == |parents| > 0 && paths[0] == []
    && Distinct(paths)
    && forall i {:trigger NodeOk(nodes, paths, parents, i)} :: 0 <= i < |nodes| ==> NodeOk(nodes, paths, parents, i)
  }

  ghost predicate Distinct(paths: seq<bytes>) {
    forall i, j :: 0 <= i < j < |paths| ==> paths[i] != paths[j]
  }

  ghost predicate NodeOk(nodes: seq<Node>, paths: seq<bytes>, parents: seq<nat>, i: nat)
    requires |nodes| == |paths| == |parents| && i < |nodes|
  {
    && (forall c :: c in nodes[i].next ==> nodes[i].next[c] < |nodes| && paths[nodes[i].next[c]] == paths[i] + [c])
    && (i > 0 ==> paths[i] != [] && IsChild(nodes, paths, i, parents[i]))
  }

  ghost predicate IsChild(nodes: seq<Node>, paths: seq<bytes>, i: nat, parent: nat)
    requires |nodes| == |paths| && i < |nodes| && paths[i] != []
  {
    var n := |paths[i]| - 1;
    && parent < |nodes| && paths[i] == paths[parent] + [paths[i][n]]
    && paths[i][n] in nodes[parent].next && nodes[parent].next[paths[i][n]] == i
  }

  /** The terminal nodes spell exactly the words. */
  ghost predicate Spells(nodes: seq<Node>, paths: seq<bytes>, d: Dict) {
    && |nodes| == |paths|
    && (forall i {:trigger SpellsAt(nodes, paths, d, i)} :: 0 <= i < |nodes| ==> SpellsAt(nodes, paths, d, i))
    && (forall w :: w in d ==> w != [] && w in paths)
  }

  ghost predicate SpellsAt(nodes: seq<Node>, paths: seq<bytes>, d: Dict, i: nat)
    requires |nodes| == |paths| && i < |nodes|
  {
    if nodes[i].terminal then paths[i] in d && nodes[i].word == d[paths[i]] else paths[i] !in d
  }

  /** Every prefix of a path is a path. */
  lemma {:induction false} PrefixIsPath(nodes: seq<Node>, paths: seq<bytes>, parents: seq<nat>, i: nat, n: nat)
    requires Tree(nodes, paths, parents) && i < |nodes| && n <= |paths[i]|
    ensures paths[i][..n] in paths
    decreases |paths[i]|
  {
    if n == |paths[i]| {
      assert paths[i][..n] == paths[i];
    } else {
      assert NodeOk(nodes, paths, parents, i);
      var p := parents[i];
      PrefixIsPath(nodes, paths, parents, p, n);
      assert paths[p][..n] == paths[i][..n];
    }
  }

  lemma EdgeLeads(nodes: seq<Node>, paths: seq<bytes>, parents: seq<nat>, cur: nat, c: byte)
    requires Tree(nodes, paths, parents) && cur < |nodes| && c in nodes[cur].next
    ensures nodes[cur].next[c] < |nodes| && paths[nodes[cur].next[c]] == paths[cur] + [c]
  {
    assert NodeOk(nodes, paths, parents, cur);
  }

  /** Without an edge for `c` from a node there is no path on in that direction. */
  lemma NoEdgeNoPath(nodes: seq<Node>, paths: seq<bytes>, parents: seq<nat>, cur: nat, c: byte)
    requires Tree(nodes, paths, parents) && cur < |nodes| && c !in nodes[cur].next
    ensures paths[cur] + [c] !in paths
  {
    forall i | 0 <= i < |paths| ensures paths[i] != paths[cur] + [c] {
      assert NodeOk(nodes, paths, parents, i);
      if i > 0 {
        var p, n := parents[i], |paths[i]| - 1;
        assert paths[i][..n] == paths[p];
        assert (paths[cur] + [c])[..|paths[cur]|] == paths[cur];
      }
    }
  }

  lemma NoEdgeNoWord(nodes: seq<Node>, paths: seq<bytes>, parents: seq<nat>, d: Dict, t: bytes, i: nat, j: nat,
                     cur: nat)
    requires Tree(nodes, paths, parents) && Spells(nodes, paths, d) && cur < |nodes|
    requires i <= j < |t| && paths[cur] == t[i..j] && t[j] !in nodes[cur].next
    ensures forall q :: j < q ==> !WordAt(d, t, i, q)
  {
    hide NodeOk, SpellsAt, Distinct;
    NoEdgeNoPath(nodes, paths, parents, cur, t[j]);
    assert t[i..j + 1] == t[i..j] + [t[j]];
    forall q | j < q ensures !WordAt(d, t, i, q) {
      if j < q <= |t| && t[i..q] in d {
        var k :| 0 <= k < |paths| && paths[k] == t[i..q];
        assert paths[k][..j + 1 - i] == t[i..j + 1];
        PrefixIsPath(nodes, paths, parents, k, j + 1 - i);
      }
    }
  }

  function WithEdge(nodes: seq<Node>, cur: nat, c: byte): seq<Node>
    requires cur < |nodes|
  {
    nodes[cur := nodes[cur].(next := nodes[cur].next[c := |nodes|])] + [NEW_NODE]
  }

  /** What `new_node` and the edge to it do. */
  lemma GrowTree(nodes: seq<Node>, paths: seq<bytes>, parents: seq<nat>, cur: nat, c: byte)
    requires Tree(nodes, paths, parents) && cur < |nodes| && c !in nodes[cur].next
    ensures Tree(WithEdge(nodes, cur, c), paths + [paths[cur] + [c]], parents + [cur])
  {
    var nodes', paths', parents' := WithEdge(nodes, cur, c), paths + [paths[cur] + [c]], parents + [cur];
    NoEdgeNoPath(nodes, paths, parents, cur, c);
    forall i | 0 <= i < |nodes'| ensures NodeOk(nodes', paths', parents', i) {
      if i < |nodes| { assert NodeOk(nodes, paths, parents, i); }
    }
  }

  lemma GrowSpelling(nodes: seq<Node>, paths: seq<bytes>, parents: seq<nat>, d: Dict, cur: nat, c: byte)
    requires Tree(nodes, paths, parents) && Spells(nodes, paths, d) && cur < |nodes| && c !in nodes[cur].next
    ensures Spells(WithEdge(nodes, cur, c), paths + [paths[cur] + [c]], d)
  {
    hide NodeOk, Distinct;
    var nodes', paths' := WithEdge(nodes, cur, c), paths + [paths[cur] + [c]];
    NoEdgeNoPath(nodes, paths, parents, cur, c);
    forall i | 0 <= i < |nodes'| ensures SpellsAt(nodes', paths', d, i) {
      if i < |nodes| { assert SpellsAt(nodes, paths, d, i); }
    }
    forall w | w in d ensures w in paths' {
      assert w in paths;
    }
  }

  /** Making a node terminal adds its path to the words. */
  lemma MarkSpelling(nodes: seq<Node>, paths: seq<bytes>, d: Dict, cur: nat, word: bytes)
    requires Distinct(paths) && Spells(nodes, paths, d) && cur < |nodes| && paths[cur] != []
    requires !nodes[cur].terminal
    ensures paths[cur] !in d
    ensures Spells(nodes[cur := nodes[cur].(terminal := true, word := word)], paths, d[paths[cur] := word])
  {
    var nodes', d' := nodes[cur := nodes[cur].(terminal := true, word := word)], d[paths[cur] := word];
    assert SpellsAt(nodes, paths, d, cur);
    forall i | 0 <= i < |nodes| ensures SpellsAt(nodes', paths, d', i) {
      assert SpellsAt(nodes, paths, d, i);
    }
  }

  lemma MarkTree(nodes: seq<Node>, paths: seq<bytes>, parents: seq<nat>, cur: nat, word: bytes)
    requires Tree(nodes, paths, parents) && cur < |nodes|
    ensures Tree(nodes[cur := nodes[cur].(terminal := true, word := word)], paths, parents)
  {
    var nodes' := nodes[cur := nodes[cur].(terminal := true, word := word)];
    forall i | 0 <= i < |nodes| ensures NodeOk(nodes', paths, parents, i) {
      assert NodeOk(nodes, paths, parents, i);
    }
  }

  // ---------- the code ----------

  method AsciiLower(s: bytes) returns (o: bytes)
    ensures o == Lowered(s)
  {
    o := s;
    for i := 0 to |o|
      invariant |o| == |s|
      invariant forall k :: 0 <= k < i ==> o[k] == Lower(s[k])
      invariant forall k :: i <= k < |s| ==> o[k] == s[k]
    {
      if 65 <= o[i] <= 90 { o := o[i := o[i] + 32]; }
    }
  }

  method CountChars(s: bytes) returns (n: nat)
    ensures n == Chars(s)
  {
    n := 0;
    for i := 0 to |s|
      invariant n + Chars(s[i..]) == Chars(s)
    {
      assert s[i..][1..] == s[i + 1..];
      if !Continuation(s[i]) { n := n + 1; }
    }
    assert s[|s|..] == [];
  }

  class WordFilter {
    var nodes: seq<Node>
    var words: nat
    ghost var paths: seq<bytes>
    ghost var parents: seq<nat>
    ghost var dict: Dict

    ghost predicate Valid()
      reads this
    {
      && Tree(nodes, paths, parents) && Spells(nodes, paths, dict)
      && words == |dict|
    }

    constructor ()
      ensures Valid() && dict == map[]
    {
      nodes, words := [NEW_NODE], 0;
      paths, parents, dict := [[]], [0], map[];
    }

    /** A new word is added under its first spelling and counted once. */
    method AddWord(word: bytes) returns (ok: bool)
      requires Valid()
      modifies this
      ensures Valid()
      ensures ok <==> word != []
      ensures dict == if word == [] || Lowered(word) in old(dict) then old(dict)
                      else old(dict)[Lowered(word) := word]
    {
      if word == [] { return false; }
      var w := AsciiLower(word);
      var cur: nat := 0;
      for i := 0 to |w|
        invariant Valid() && dict == old(dict)
        invariant cur < |nodes| && paths[cur] == w[..i]
      {
        hide NodeOk, SpellsAt, Distinct;
        var c := w[i];
        assert w[..i + 1] == w[..i] + [c];
        if c !in nodes[cur].next {
          GrowTree(nodes, paths, parents, cur, c);
          GrowSpelling(nodes, paths, parents, dict, cur, c);
          var id := |nodes|;
          paths, parents := paths + [paths[cur] + [c]], parents + [cur];
          nodes := nodes[cur := nodes[cur].(next := nodes[cur].next[c := id])] + [NEW_NODE];
          cur := id;
        } else {
          EdgeLeads(nodes, paths, parents, cur, c);
          cur := nodes[cur].next[c];
        }
      }
      assert w[..|w|] == w;
      if !nodes[cur].terminal {
        MarkTree(nodes, paths, parents, cur, word);
        MarkSpelling(nodes, paths, dict, cur, word);
        dict := dict[paths[cur] := word];
        nodes := nodes[cur := nodes[cur].(terminal := true, word := word)];
        words := words + 1;
      } else {
        assert SpellsAt(nodes, paths, dict, cur);
      }
      return true;
    }

    /** Leftmost longest matches: one pass over the text, one descent of the trie a place. */
    method ScanText(lowered: bytes) returns (out: seq<Match>)
      requires Valid()
      ensures out == Scan(dict, lowered, 0)
    {
      hide Tree, Spells, Longest;
      out := [];
      var i, n := 0, |lowered|;
      while i < n
        invariant i <= n && out + Scan(dict, lowered, i) == Scan(dict, lowered, 0)
      {
        var end, word := LongestMatch(lowered, i);
        if end > i {
          Assoc(out, [Match(i, end, word)], Scan(dict, lowered, end));
          out := out + [Match(i, end, word)];
          i := end;
        } else {
          i := i + 1;
        }
      }
      assert out + [] == out;
    }

    /** The inner loop of `scan`; `end == i` stands for no terminal node on the way. */
    method LongestMatch(lowered: bytes, i: nat) returns (end: nat, word: bytes)
      requires Valid() && i < |lowered|
      ensures end == i + Longest(dict, lowered, i)
      ensures end > i ==> word == dict[lowered[i..end]]
    {
      hide NodeOk, Distinct, LongestUpTo;
      var cur: nat, j: nat, n := 0, i, |lowered|;
      end, word := i, [];
      assert lowered[i..i] == [];
      while j < n
        invariant i <= end <= j <= n && cur < |nodes| && paths[cur] == lowered[i..j]
        invariant end > i ==> WordAt(dict, lowered, i, end) && word == dict[lowered[i..end]]
        invariant forall q :: end < q <= j ==> !WordAt(dict, lowered, i, q)
      {
        if lowered[j] !in nodes[cur].next {
          NoEdgeNoWord(nodes, paths, parents, dict, lowered, i, j, cur);
          break;
        }
        assert lowered[i..j + 1] == lowered[i..j] + [lowered[j]];
        EdgeLeads(nodes, paths, parents, cur, lowered[j]);
        cur := nodes[cur].next[lowered[j]];
        j := j + 1;
        assert SpellsAt(nodes, paths, dict, cur);
        if nodes[cur].terminal {
          end, word := j, nodes[cur].word;
        }
      }
      assert forall q :: end < q ==> !WordAt(dict, lowered, i, q);
      assert end > i ==> WordAt(dict, lowered, i, end);
      assert !WordAt(dict, lowered, i, i + Longest(dict, lowered, i)) || i + Longest(dict, lowered, i) <= end;
    }

    method Contains(text: bytes) returns (found: bool, hit: bytes)
      requires Valid()
      ensures found <==> SomeWordOccurs(dict, Lowered(text))
      ensures var ms := Scan(dict, Lowered(text), 0); found ==> ms != [] && hit == ms[0].word
    {
      hide Tree, Spells, Longest;
      var low := AsciiLower(text);
      var ms := ScanText(low);
      ScanFindsSomething(dict, low);
      if ms == [] { return false, []; }
      return true, ms[0].word;
    }

    method Filter(text: bytes, mask: byte) returns (out: bytes)
      requires Valid()
      ensures out == Masked(dict, text, 0, mask)
    {
      hide Tree, Spells, Longest;
      var low := AsciiLower(text);
      var ms := ScanText(low);
      assert text[0..] == text;
      FillGaps(dict, text, 0, mask);
      if ms == [] { return text; }
      out := [];
      var pos: nat := 0;
      for k := 0 to |ms|
        invariant pos <= |text| && Ordered(ms[k..], pos, |text|)
        invariant out + Filled(text, ms[k..], pos, mask) == Masked(dict, text, 0, mask)
      {
        var m := ms[k];
        assert ms[k..][0] == m && ms[k..][1..] == ms[k + 1..];
        Assoc(out, text[pos..m.start], Masks(text[m.start..m.end], mask) + Filled(text, ms[k + 1..], m.end, mask));
        out := out + text[pos..m.start];
        var chars := CountChars(text[m.start..m.end]);
        Assoc(out, Masks(text[m.start..m.end], mask), Filled(text, ms[k + 1..], m.end, mask));
        out := out + seq(if chars > 0 then chars else 1, _ => mask);
        pos := m.end;
      }
      assert ms[|ms|..] == [];
      out := out + text[pos..];
    }
  }

  // ---------- gaps and masks, as `filter` appends them ----------

  predicate Ordered(ms: seq<Match>, pos: nat, n: nat)
    decreases |ms|
  {
    if ms == [] then pos <= n
    else pos <= ms[0].start < ms[0].end <= n && Ordered(ms[1..], ms[0].end, n)
  }

  function Filled(text: bytes, ms: seq<Match>, pos: nat, mask: byte): bytes
    requires Ordered(ms, pos, |text|)
    decreases |ms|
  {
    if ms == [] then text[pos..]
    else
      text[pos..ms[0].start] + (Masks(text[ms[0].start..ms[0].end], mask) + Filled(text, ms[1..], ms[0].end, mask))
  }

  lemma {:induction false} OrderedEarlier(ms: seq<Match>, pos: nat, n: nat)
    requires Ordered(ms, pos + 1, n)
    ensures Ordered(ms, pos, n)
  {
  }

  /** Copying whole gaps gives the same text as going byte by byte. */
  lemma {:induction false} FillGaps(d: Dict, text: bytes, i: nat, mask: byte)
    requires i <= |text|
    ensures Ordered(Scan(d, Lowered(text), i), i, |text|)
    ensures Filled(text, Scan(d, Lowered(text), i), i, mask) == Masked(d, text, i, mask)
    decreases |text| - i
  {
    hide Longest, Masks, Filled, Lowered, Masked;
    var low := Lowered(text);
    MaskedStep(d, text, i, mask);
    if i == |text| {
      FilledNothing(text, i, mask);
    } else {
      var n := Longest(d, low, i);
      if n > 0 {
        FillGaps(d, text, i + n, mask);
        FilledMatch(text, [Match(i, i + n, d[low[i..i + n]])] + Scan(d, low, i + n), i, mask);
        assert text[i..i] == [];
      } else {
        FillGaps(d, text, i + 1, mask);
        var ms := Scan(d, low, i + 1);
        OrderedEarlier(ms, i, |text|);
        FilledEarlier(text, ms, i, mask);
      }
    }
  }

  lemma MaskedStep(d: Dict, text: bytes, i: nat, mask: byte)
    requires i <= |text|
    ensures Masked(d, text, i, mask) ==
      if i == |text| then []
      else
        var n := Longest(d, Lowered(text), i);
        if n > 0 then Masks(text[i..i + n], mask) + Masked(d, text, i + n, mask)
        else [text[i]] + Masked(d, text, i + 1, mask)
  {
  }

  lemma FilledNothing(text: bytes, pos: nat, mask: byte)
    requires pos == |text|
    ensures Filled(text, [], pos, mask) == []
  {
  }

  lemma FilledMatch(text: bytes, ms: seq<Match>, pos: nat, mask: byte)
    requires ms != [] && Ordered(ms, pos, |text|)
    ensures Filled(text, ms, pos, mask) ==
      text[pos..ms[0].start] + (Masks(text[ms[0].start..ms[0].end], mask) + Filled(text, ms[1..], ms[0].end, mask))
  {
  }

  /** A gap that starts one byte earlier. */
  lemma FilledEarlier(text: bytes, ms: seq<Match>, pos: nat, mask: byte)
    requires pos < |text| && Ordered(ms, pos + 1, |text|) && Ordered(ms, pos, |text|)
    ensures Filled(text, ms, pos, mask) == [text[pos]] + Filled(text, ms, pos + 1, mask)
  {
    hide Masks;
    if ms != [] {
      assert text[pos..ms[0].start] == [text[pos]] + text[pos + 1..ms[0].start];
      Assoc([text[pos]], text[pos + 1..ms[0].start],
            Masks(text[ms[0].start..ms[0].end], mask) + Filled(text, ms[1..], ms[0].end, mask));
    }
  }
}
