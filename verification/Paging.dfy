/** History pages by (ts, id) cursor: src/protocol.cpp, src/database.cpp and src/server.cpp. */
module Paging {
  import opened Bytes
  import opened Collections

  // ---------- cursors as text ----------

  const PLUS: byte := 43

  /** A position in the order of messages. */
  datatype Position = Position(ts: int, id: int)

  function FormatCursor(p: Position): bytes { Decimal(p.ts) + [COLON] + Decimal(p.id) }

  predicate Blank(b: byte) { b == 32 || 9 <= b <= 13 }

  function Digit(s: bytes): bool { s != [] && IsDigit(s[0]) }

  function LeadingDigits(s: bytes): (ds: bytes)
    ensures forall i :: 0 <= i < |ds| ==> IsDigit(ds[i])
  {
    if Digit(s) then [s[0]] + LeadingDigits(s[1..]) else []
  }

  function Negated(n: int): int { -n }

  /** `atoll`: blanks, a sign, and the digits up to the first other character. */
  function Atoll(s: bytes): int
    decreases |s|
  {
    if s != [] && Blank(s[0]) then Atoll(s[1..])
    else if s != [] && s[0] == MINUS then Negated(ReadDigits(LeadingDigits(s[1..]), 0))
    else if s != [] && s[0] == PLUS then ReadDigits(LeadingDigits(s[1..]), 0)
    else ReadDigits(LeadingDigits(s), 0)
  }

  /** Where the first colon is, or the length. */
  function FindColon(s: bytes): (p: nat)
    ensures p <= |s|
    ensures p < |s| ==> s[p] == COLON
    ensures forall i :: 0 <= i < p ==> s[i] != COLON
  {
    if s == [] || s[0] == COLON then 0 else 1 + FindColon(s[1..])
  }

  function ParseCursor(cur: bytes): Option<Position> {
    var p := FindColon(cur);
    if p == |cur| || p == 0 || p + 1 >= |cur| then None
    else
      var pos := Position(Atoll(cur[..p]), Atoll(cur[p + 1..]));
      if pos.ts > 0 && pos.id > 0 then Some(pos) else None
  }

  lemma {:induction false} LeadingDigitsAll(ds: bytes)
    requires forall i :: 0 <= i < |ds| ==> IsDigit(ds[i])
    ensures LeadingDigits(ds) == ds
  {
    if ds != [] {
      assert IsDigit(ds[0]);
      LeadingDigitsAll(ds[1..]);
    }
  }

  lemma AtollReadsDecimal(n: int)
    ensures Atoll(Decimal(n)) == n
  {
    if n < 0 {
      assert Decimal(n)[1..] == Digits(-n);
      LeadingDigitsAll(Digits(-n));
      DigitsRoundTrip(-n);
    } else {
      assert IsDigit(Digits(n)[0]);
      LeadingDigitsAll(Digits(n));
      DigitsRoundTrip(n);
    }
  }

  lemma {:induction false} ColonFound(a: bytes, b: bytes)
    requires forall i :: 0 <= i < |a| ==> a[i] != COLON
    ensures FindColon(a + [COLON] + b) == |a|
  {
    if a == [] {
      assert ([] + [COLON] + b)[0] == COLON;
    } else {
      assert a[0] != COLON;
      assert (a + [COLON] + b)[1..] == a[1..] + [COLON] + b;
      ColonFound(a[1..], b);
    }
  }

  lemma NoColon(n: int)
    ensures forall i :: 0 <= i < |Decimal(n)| ==> Decimal(n)[i] != COLON
  {
    var ds := Digits(if n < 0 then -n else n);
    assert forall i :: 0 <= i < |ds| ==> IsDigit(ds[i]);
  }

  /** What `atoll` makes of any text: blanks, a sign and digits, and nothing of what comes behind. */
  lemma {:induction false} AtollReads(blanks: bytes, sign: bytes, ds: bytes, tail: bytes)
    requires forall i :: 0 <= i < |blanks| ==> blanks[i] in {9, 10, 11, 12, 13, 32}
    requires sign in {[], [43], [45]} && forall i :: 0 <= i < |ds| ==> IsDigit(ds[i])
    requires tail == [] || !IsDigit(tail[0])
    requires sign == [] && ds == [] && tail != [] ==> tail[0] !in {9, 10, 11, 12, 13, 32, 43, 45}
    ensures var n: int := ReadDigits(ds, 0);
      Atoll(blanks + (sign + (ds + tail))) == if sign == [45] then -n else n
    decreases blanks
  {
    hide ReadDigits;
    var s := sign + (ds + tail);
    if blanks != [] {
      assert (blanks + s)[1..] == blanks[1..] + s;
      AtollReads(blanks[1..], sign, ds, tail);
    } else {
      assert [] + s == s;
      DigitsAhead(ds, tail);
      if sign == [] {
        assert s == ds + tail;
        assert ds != [] ==> s[0] == ds[0];
        assert ds == [] ==> s == tail;
      } else {
        assert s[0] == sign[0] && s[1..] == ds + tail;
      }
    }
  }

  lemma {:induction false} DigitsAhead(ds: bytes, tail: bytes)
    requires (forall i :: 0 <= i < |ds| ==> IsDigit(ds[i])) && (tail == [] || !IsDigit(tail[0]))
    ensures LeadingDigits(ds + tail) == ds
  {
    if ds != [] {
      assert IsDigit(ds[0]) && (ds + tail)[1..] == ds[1..] + tail;
      DigitsAhead(ds[1..], tail);
    } else {
      assert ds + tail == tail;
    }
  }

  /** A printed position is read back exactly when both numbers are positive, and refused otherwise. */
  lemma CursorRoundTrip(p: Position)
    ensures ParseCursor(FormatCursor(p)) == if p.ts > 0 && p.id > 0 then Some(p) else None
  {
    var a, b := Decimal(p.ts), Decimal(p.id);
    var s := FormatCursor(p);
    NoColon(p.ts);
    ColonFound(a, b);
    assert |b| > 0;
    assert s[..|a|] == a && s[|a| + 1..] == b;
    AtollReadsDecimal(p.ts);
    AtollReadsDecimal(p.id);
  }

  // ---------- the queries ----------

  datatype Row = Row(id: int, room: int, sender: bytes, receiver: bytes, content: bytes, ts: int, kind: bytes)

  /** `room_id = ?` or `receiver = ?`. */
  datatype Scope = Room(room: int) | Inbox(user: bytes)

  predicate Visible(r: Row, scope: Scope) {
    match scope
    case Room(room) => r.room == room
    case Inbox(user) => r.receiver == user
  }

  predicate Older(r: Row, p: Position) { r.ts < p.ts || (r.ts == p.ts && r.id < p.id) }

  predicate Matches(r: Row, scope: Scope, below: Option<Position>) {
    Visible(r, scope) && (below.Some? ==> Older(r, below.value))
  }

  function At(r: Row): Position { Position(r.ts, r.id) }

  /** ORDER BY ts DESC, id DESC. */
  function Placed(r: Row, rows: seq<Row>): seq<Row> {
    if rows == [] || Older(rows[0], At(r)) then [r] + rows else [rows[0]] + Placed(r, rows[1..])
  }

  function Ranked(t: seq<Row>, scope: Scope, below: Option<Position>): seq<Row> {
    if t == [] then []
    else
      var rest := Ranked(t[1..], scope, below);
      if Matches(t[0], scope, below) then Placed(t[0], rest) else rest
  }

  /** `history_latest`, `history_before`, `inbox_latest` and `inbox_before`. */
  function Query(t: seq<Row>, scope: Scope, below: Option<Position>, limit: nat): seq<Row> {
    var all := Ranked(t, scope, below);
    if |all| <= limit then all else all[..limit]
  }

  ghost predicate Descending(rows: seq<Row>) {
    forall i, j :: 0 <= i < j < |rows| ==> Older(rows[j], At(rows[i]))
  }

  /** What AUTOINCREMENT and the server's clock give: different ids, positive numbers. */
  ghost predicate WellFormed(t: seq<Row>) {
    && (forall i, j :: 0 <= i < j < |t| ==> t[i].id != t[j].id)
    && (forall i :: 0 <= i < |t| ==> t[i].ts > 0 && t[i].id > 0)
  }

  lemma {:induction false} PlacedOk(r: Row, rows: seq<Row>)
    requires Descending(rows) && forall x :: x in rows ==> x.id != r.id
    ensures Descending(Placed(r, rows)) && |Placed(r, rows)| == |rows| + 1
    ensures forall x :: x in Placed(r, rows) <==> x == r || x in rows
  {
    if rows != [] && !Older(rows[0], At(r)) {
      assert rows[0] in rows;
      assert forall x :: x in rows[1..] ==> x in rows;
      PlacedOk(r, rows[1..]);
      assert rows == [rows[0]] + rows[1..];
      var rest := Placed(r, rows[1..]);
      forall j | 0 <= j < |rest| ensures Older(rest[j], At(rows[0])) {
        assert rest[j] in rest;
        assert rest[j] == r || rest[j] in rows[1..];
      }
    }
  }

  /** The ranking is the matching rows, each once, newest first. */
  lemma {:induction false} RankedOk(t: seq<Row>, scope: Scope, below: Option<Position>)
    requires WellFormed(t)
    ensures Descending(Ranked(t, scope, below))
    ensures forall x :: x in Ranked(t, scope, below) <==> x in t && Matches(x, scope, below)
  {
    if t != [] {
      var rest := t[1..];
      assert forall i :: 0 <= i < |rest| ==> rest[i] == t[i + 1];
      RankedOk(rest, scope, below);
      assert forall x :: x in t <==> x == t[0] || x in rest;
      if Matches(t[0], scope, below) {
        forall x | x in Ranked(rest, scope, below) ensures x.id != t[0].id {
          assert x in rest;
        }
        PlacedOk(t[0], Ranked(rest, scope, below));
      }
    }
  }

  // ---------- pages ----------

  const PAGE: nat := 50

  datatype Reply = Page(items: seq<Row>, cursor: bytes, more: bool) | BadCursor

  function Reversed(rows: seq<Row>): (r: seq<Row>)
    ensures |r| == |rows| && forall i :: 0 <= i < |rows| ==> r[i] == rows[|rows| - 1 - i]
  {
    seq(|rows|, i requires 0 <= i < |rows| => rows[|rows| - 1 - i])
  }

  /** The answer to a request: one row more than a page shows whether others follow. */
  function Answer(t: seq<Row>, scope: Scope, cur: bytes): Reply {
    var below := ParseCursor(cur);
    if cur != [] && below.None? then BadCursor
    else
      var rows := Query(t, scope, if cur == [] then None else below, PAGE + 1);
      var shown := if |rows| > PAGE then rows[..PAGE] else rows;
      Page(Reversed(shown), if shown == [] then [] else FormatCursor(At(shown[|shown| - 1])), |rows| > PAGE)
  }

  method SendHistPage(rows: seq<Row>, more: bool) returns (page: Reply)
    ensures page == Page(Reversed(rows), if rows == [] then [] else FormatCursor(At(rows[|rows| - 1])), more)
  {
    var items: seq<Row> := [];
    var cursor: bytes := [];
    var i := |rows|;
    while i > 0
      invariant 0 <= i <= |rows| && |items| == |rows| - i
      invariant forall k :: 0 <= k < |items| ==> items[k] == rows[|rows| - 1 - k]
    {
      i := i - 1;
      items := items + [rows[i]];
    }
    if rows != [] { cursor := FormatCursor(At(rows[|rows| - 1])); }
    assert items == Reversed(rows);
    return Page(items, cursor, more);
  }

  /** `doHist` and `doInbox` after their checks of the session. */
  method DoHist(t: seq<Row>, scope: Scope, cur: bytes) returns (reply: Reply)
    ensures reply == Answer(t, scope, cur)
  {
    hide Query, ParseCursor, FormatCursor, Reversed;
    var rows: seq<Row>;
    if cur == [] {
      rows := Query(t, scope, None, PAGE + 1);
    } else {
      var p := ParseCursor(cur);
      if p.None? { return BadCursor; }
      rows := Query(t, scope, p, PAGE + 1);
    }
    var more := |rows| > PAGE;
    if more { rows := rows[..PAGE]; }
    reply := SendHistPage(rows, more);
  }

  // ---------- a walk through the history ----------

  /** The rows of all pages so far, newest first; whether a page said that nothing follows; whether a cursor
      was refused. */
  datatype Walked = Walked(rows: seq<Row>, finished: bool, failed: bool)

  /** Following the cursor text of each page; `tables[i]` is what the database holds at request `i`. */
  function Walk(scope: Scope, cur: bytes, tables: seq<seq<Row>>): Walked
    decreases |tables|
  {
    if tables == [] then Walked([], false, false)
    else
      match Answer(tables[0], scope, cur)
      case BadCursor => Walked([], false, true)
      case Page(items, cursor, more) =>
        if !more then Walked(Reversed(items), true, false)
        else
          var rest := Walk(scope, cursor, tables[1..]);
          rest.(rows := Reversed(items) + rest.rows)
  }

  /** Rows are only added between requests. */
  ghost predicate Growing(tables: seq<seq<Row>>) {
    && (forall i :: 0 <= i < |tables| ==> WellFormed(tables[i]))
    && (forall i {:trigger StaysIn(tables, i)} :: 0 <= i < |tables| - 1 ==> StaysIn(tables, i))
  }

  ghost predicate StaysIn(tables: seq<seq<Row>>, i: nat)
    requires i + 1 < |tables|
  {
    forall r :: r in tables[i] ==> r in tables[i + 1]
  }

  lemma ReversedTwice(rows: seq<Row>)
    ensures Reversed(Reversed(rows)) == rows
  {
  }

  /** A page in terms of the ranking that it starts. */
  lemma PageOf(t: seq<Row>, scope: Scope, cur: bytes, below: Option<Position>)
    requires WellFormed(t)
    requires if cur == [] then below.None? else ParseCursor(cur) == below && below.Some?
    ensures var a, all := Answer(t, scope, cur), Ranked(t, scope, below);
      && a.Page? && a.more == (|all| > PAGE)
      && Reversed(a.items) == (if |all| > PAGE then all[..PAGE] else all)
      && (a.more ==> a.cursor == FormatCursor(At(all[PAGE - 1])))
  {
    hide Ranked, ParseCursor, FormatCursor, Reversed, WellFormed, At;
    var all := Ranked(t, scope, below);
    if |all| > PAGE {
      assert all[..PAGE + 1][..PAGE] == all[..PAGE];
    }
    ReversedTwice(if |all| > PAGE then all[..PAGE] else all);
  }

  /** A row of the room, or a message received by the user. */
  predicate Concerns(r: Row, scope: Scope) {
    (scope.Room? ==> r.room == scope.room) && (scope.Inbox? ==> r.receiver == scope.user)
  }

  /** In time order, rows of the same second in the order of their numbers. */
  predicate Earlier(ts: int, id: int, ts': int, id': int) { ts < ts' || (ts == ts' && id < id') }

  /** A row of the scope, and before the cursor if there is one. */
  predicate Asked(t: seq<Row>, scope: Scope, cur: bytes, r: Row) {
    && r in t && Concerns(r, scope)
    && (cur != [] && ParseCursor(cur).Some? ==>
          Earlier(r.ts, r.id, ParseCursor(cur).value.ts, ParseCursor(cur).value.id))
  }

  lemma AskedMatches(t: seq<Row>, scope: Scope, cur: bytes, r: Row)
    requires cur == [] || ParseCursor(cur).Some?
    ensures Asked(t, scope, cur, r) <==> r in t && Matches(r, scope, if cur == [] then None else ParseCursor(cur))
  {
    hide ParseCursor;
  }

  ghost predicate OldestFirst(items: seq<Row>) {
    forall i, j :: 0 <= i < j < |items| ==> Earlier(items[i].ts, items[i].id, items[j].ts, items[j].id)
  }

  ghost predicate BeforeAll(r: Row, items: seq<Row>) { forall x :: x in items ==> Earlier(r.ts, r.id, x.ts, x.id) }

  /** What a page shows, said about the rows themselves: rows of the scope and before the cursor, oldest first, and the
      50 latest of these if there are more. */
  lemma PageIsLatest(t: seq<Row>, scope: Scope, cur: bytes)
    requires WellFormed(t) && (cur == [] || ParseCursor(cur).Some?)
    ensures var a := Answer(t, scope, cur);
      && a.Page? && OldestFirst(a.items)
      && (forall r :: r in a.items ==> Asked(t, scope, cur, r))
      && (forall r :: Asked(t, scope, cur, r) && r !in a.items ==> |a.items| == 50 && BeforeAll(r, a.items))
  {
    hide ParseCursor, FormatCursor, Ranked, Reversed, Answer, Asked, Matches, WellFormed, Descending, OldestFirst;
    hide BeforeAll;
    var below := if cur == [] then None else ParseCursor(cur);
    var a, all := Answer(t, scope, cur), Ranked(t, scope, below);
    PageOf(t, scope, cur, below);
    RankedOk(t, scope, below);
    ReversedTwice(a.items);
    ShownRows(all, a.items);
    forall r ensures Asked(t, scope, cur, r) <==> r in all {
      AskedMatches(t, scope, cur, r);
    }
    forall r | r in all && r !in a.items ensures |a.items| == 50 && BeforeAll(r, a.items) {
      NotShown(all, r);
    }
  }

  lemma ShownRows(all: seq<Row>, items: seq<Row>)
    requires Descending(all) && items == Reversed(if |all| > PAGE then all[..PAGE] else all)
    ensures OldestFirst(items) && forall r :: r in items ==> r in all
  {
    hide Reversed, OldestFirst;
    var shown := if |all| > PAGE then all[..PAGE] else all;
    assert forall i :: 0 <= i < |shown| ==> shown[i] == all[i];
    Reversal(shown);
  }

  lemma NotShown(all: seq<Row>, r: Row)
    requires Descending(all) && r in all
    requires r !in Reversed(if |all| > PAGE then all[..PAGE] else all)
    ensures |all| > PAGE && BeforeAll(r, Reversed(all[..PAGE]))
  {
    hide Reversed, OldestFirst;
    Reversal(if |all| > PAGE then all[..PAGE] else all);
    assert |all| > PAGE;
    var k :| 0 <= k < |all| && all[k] == r;
    BehindPage(all, k);
    forall x | x in Reversed(all[..PAGE]) ensures Earlier(r.ts, r.id, x.ts, x.id) {
      assert x in all[..PAGE];
    }
  }

  lemma BehindPage(all: seq<Row>, k: nat)
    requires Descending(all) && PAGE < |all| && k < |all| && all[k] !in all[..PAGE]
    ensures forall x :: x in all[..PAGE] ==> Older(all[k], At(x))
  {
    assert forall i :: 0 <= i < PAGE ==> all[..PAGE][i] == all[i] && all[i] in all[..PAGE];
    assert k >= PAGE;
  }

  lemma Reversal(rows: seq<Row>)
    ensures |Reversed(rows)| == |rows| && forall r :: r in Reversed(rows) <==> r in rows
    ensures Descending(rows) ==> OldestFirst(Reversed(rows))
  {
    var back := Reversed(rows);
    forall r | r in rows ensures r in back {
      var i :| 0 <= i < |rows| && rows[i] == r;
      assert back[|rows| - 1 - i] == r;
    }
  }

  // ---------- the end of the history ----------

  /** Nothing is left behind the rows of a page. */
  ghost predicate AtEnd(t: seq<Row>, scope: Scope, below: Option<Position>, items: seq<Row>) {
    forall r :: r in t && Matches(r, scope, below) ==> r in items
  }

  predicate Accepted(cur: bytes) { cur == [] || ParseCursor(cur).Some? }

  function Below(cur: bytes): Option<Position> { if cur == [] then None else ParseCursor(cur) }

  /** On every page `more` tells the end of the history, and the cursor is empty exactly on an empty page. So
      the cursor tells the end by itself just when no row matches or more match than fit on a page. */
  lemma EndOfHistoryExactly(t: seq<Row>, scope: Scope, cur: bytes)
    requires WellFormed(t) && Accepted(cur)
    ensures var a := Answer(t, scope, cur);
      && a.Page?
      && (AtEnd(t, scope, Below(cur), a.items) <==> !a.more)
      && (a.cursor == [] <==> a.items == [])
      && (a.cursor == [] ==> !a.more)
    ensures var a, n := Answer(t, scope, cur), |Ranked(t, scope, Below(cur))|;
      (a.cursor == [] <==> !a.more) <==> n == 0 || n > PAGE
  {
    hide Ranked, ParseCursor, FormatCursor, WellFormed, Answer, Matches, Descending;
    var a, below := Answer(t, scope, cur), Below(cur);
    var all := Ranked(t, scope, below);
    PageOf(t, scope, cur, below);
    RankedOk(t, scope, below);
    SameRows(a.items);
    CursorOf(t, scope, cur);
    if a.more {
      BeyondThePage(all);
      assert all[PAGE] in all && all[PAGE] !in Reversed(a.items);
    }
  }

  lemma CursorOf(t: seq<Row>, scope: Scope, cur: bytes)
    ensures var a := Answer(t, scope, cur); a.Page? ==> (a.cursor == [] <==> a.items == [])
  {
    hide Query, ParseCursor, FormatCursor;
    var a := Answer(t, scope, cur);
    if a.Page? && a.items != [] {
      var shown := Reversed(a.items);
      CursorNotEmpty(At(shown[|shown| - 1]));
    }
  }

  lemma SameRows(rows: seq<Row>)
    ensures forall r :: r in rows <==> r in Reversed(rows)
  {
    forall r ensures r in rows <==> r in Reversed(rows) {
      if r in rows {
        var i :| 0 <= i < |rows| && rows[i] == r;
        assert Reversed(rows)[|rows| - 1 - i] == r;
      }
    }
  }

  lemma BeyondThePage(all: seq<Row>)
    requires Descending(all) && |all| > PAGE
    ensures all[PAGE] !in all[..PAGE]
  {
    forall i | 0 <= i < PAGE ensures all[i] != all[PAGE] {
      assert Older(all[PAGE], At(all[i]));
    }
  }

  /** One row is enough to see it: its page is the last one, and has a cursor. */
  lemma LastPageHasCursor()
    ensures var a := Answer([Row(1, 7, [97], [], [104, 105], 5, [])], Room(7), []);
      a.Page? && !a.more && a.items != [] && a.cursor != []
  {
    var t := [Row(1, 7, [97], [], [104, 105], 5, [])];
    assert t[1..] == [];
    assert Ranked(t, Room(7), None) == t;
    CursorNotEmpty(At(t[0]));
  }

  // ---------- the whole walk ----------

  ghost predicate WalkOk(w: Walked, scope: Scope, below: Option<Position>, tables: seq<seq<Row>>)
    requires tables != []
  {
    && !w.failed && Descending(w.rows)
    && (forall r :: r in w.rows ==> r in tables[|tables| - 1] && Matches(r, scope, below))
    && (w.finished ==> forall r :: r in tables[0] && Matches(r, scope, below) ==> r in w.rows)
  }

  lemma {:induction false} StillThere(tables: seq<seq<Row>>, r: Row)
    requires Growing(tables) && tables != [] && r in tables[0]
    ensures r in tables[|tables| - 1]
    decreases |tables|
  {
    if |tables| > 1 {
      LaterTables(tables);
      StillThere(tables[1..], r);
    }
  }

  lemma LaterTables(tables: seq<seq<Row>>)
    requires Growing(tables) && |tables| > 1
    ensures Growing(tables[1..]) && forall r :: r in tables[0] ==> r in tables[1]
  {
    var later := tables[1..];
    forall i | 0 <= i < |later| - 1 ensures StaysIn(later, i) {
      assert StaysIn(tables, i + 1);
    }
    assert StaysIn(tables, 0);
  }

  /** The rest of a ranking is what lies below its fiftieth row. */
  lemma BelowThePage(all: seq<Row>, r: Row)
    requires Descending(all) && |all| > PAGE && r in all && r !in all[..PAGE]
    ensures Older(r, At(all[PAGE - 1]))
  {
    assert forall k :: 0 <= k < PAGE ==> all[k] in all[..PAGE];
    var i :| 0 <= i < |all| && all[i] == r;
  }

  lemma {:induction false} WalkFrom(scope: Scope, cur: bytes, below: Option<Position>, tables: seq<seq<Row>>)
    requires Growing(tables) && tables != []
    requires if cur == [] then below.None? else ParseCursor(cur) == below && below.Some?
    ensures WalkOk(Walk(scope, cur, tables), scope, below, tables)
    decreases |tables|
  {
    hide Ranked, ParseCursor, FormatCursor, Reversed, Answer, WellFormed, Growing, At, Older;
    FirstTable(tables);
    var t := tables[0];
    var all := Ranked(t, scope, below);
    PageOf(t, scope, cur, below);
    RankedOk(t, scope, below);
    forall r | r in t ensures r in tables[|tables| - 1] { StillThere(tables, r); }
    if |all| > PAGE {
      var last := all[PAGE - 1];
      var page := all[..PAGE];
      assert last in all;
      var next := FormatCursor(At(last));
      Positive(t, last);
      CursorRoundTrip(At(last));
      CursorNotEmpty(At(last));
      if |tables| > 1 {
        LaterTables(tables);
        WalkFrom(scope, next, Some(At(last)), tables[1..]);
        PageThenRest(all, page, Walk(scope, next, tables[1..]), scope, below, tables);
      } else {
        assert tables[1..] == [];
        assert page + [] == page;
      }
    }
  }

  lemma FirstTable(tables: seq<seq<Row>>)
    requires Growing(tables) && tables != []
    ensures WellFormed(tables[0])
  {
    hide WellFormed;
  }

  lemma Positive(t: seq<Row>, r: Row)
    requires WellFormed(t) && r in t
    ensures At(r).ts > 0 && At(r).id > 0
  {
  }

  lemma CursorNotEmpty(p: Position)
    ensures FormatCursor(p) != []
  {
  }

  lemma PageThenRest(all: seq<Row>, page: seq<Row>, rest: Walked, scope: Scope, below: Option<Position>,
                     tables: seq<seq<Row>>)
    requires |tables| > 1 && |all| > PAGE && page == all[..PAGE] && Descending(all)
    requires forall x :: x in all <==> x in tables[0] && Matches(x, scope, below)
    requires forall r :: r in tables[0] ==> r in tables[1] && r in tables[|tables| - 1]
    requires WalkOk(rest, scope, Some(At(all[PAGE - 1])), tables[1..])
    ensures WalkOk(rest.(rows := page + rest.rows), scope, below, tables)
  {
    var last := all[PAGE - 1];
    assert last in all;
    var rows := page + rest.rows;
    forall i, j | 0 <= i < j < |rows| ensures Older(rows[j], At(rows[i])) {
      if i < PAGE <= j {
        assert rows[j] in rest.rows && Older(rows[j], At(last));
        assert i < PAGE - 1 ==> Older(last, At(all[i]));
      }
    }
    forall r | r in rows ensures r in tables[|tables| - 1] && Matches(r, scope, below) {
      if r in page { assert r in all; }
    }
    if rest.finished {
      forall r | r in tables[0] && Matches(r, scope, below) ensures r in rows {
        if r !in page { BelowThePage(all, r); }
      }
    }
  }

  /** Following the cursors from the empty one shows no row twice, in strictly decreasing (ts, id), and no row that
      is not there; once a page says that nothing follows, every row present at the start was shown. Rows may be
      added between any two requests. */
  lemma WalkIsExact(scope: Scope, tables: seq<seq<Row>>)
    requires Growing(tables) && tables != []
    ensures var w := Walk(scope, [], tables);
      && !w.failed
      && Descending(w.rows)
      && (forall i, j :: 0 <= i < j < |w.rows| ==> w.rows[i] != w.rows[j])
      && (forall r :: r in w.rows ==> r in tables[|tables| - 1] && Visible(r, scope))
      && (w.finished ==> forall r :: r in tables[0] && Visible(r, scope) ==> r in w.rows)
  {
    hide Walk;
    WalkFrom(scope, [], None, tables);
    var w := Walk(scope, [], tables);
    forall i, j | 0 <= i < j < |w.rows| ensures w.rows[i] != w.rows[j] {
      assert Older(w.rows[j], At(w.rows[i]));
    }
  }

  lemma {:induction false} UnfinishedPagesAreFull(scope: Scope, cur: bytes, tables: seq<seq<Row>>)
    ensures var w := Walk(scope, cur, tables); !w.finished && !w.failed ==> |w.rows| == PAGE * |tables|
    decreases |tables|
  {
    hide Query, ParseCursor, FormatCursor;
    if tables != [] {
      var a := Answer(tables[0], scope, cur);
      if a.Page? && a.more { UnfinishedPagesAreFull(scope, a.cursor, tables[1..]); }
    }
  }

  lemma {:induction false} DistinctFit(rows: seq<Row>, s: set<Row>)
    requires forall i, j :: 0 <= i < j < |rows| ==> rows[i] != rows[j]
    requires forall r :: r in rows ==> r in s
    ensures |rows| <= |s|
  {
    if rows != [] {
      var rest := rows[1..];
      assert forall i :: 0 <= i < |rest| ==> rest[i] == rows[i + 1];
      assert forall r :: r in rest ==> r in rows && r != rows[0];
      assert rows[0] in s;
      DistinctFit(rest, s - {rows[0]});
    }
  }

  lemma {:induction false} SetSize(t: seq<Row>)
    ensures |set r | r in t| <= |t|
  {
    if t == [] {
      assert (set r | r in t) == {};
    } else {
      SetSize(t[1..]);
      assert (set r | r in t) == {t[0]} + (set r | r in t[1..]);
    }
  }

  /** A walk ends: once it has asked for more pages than the rows could fill, it has been told that nothing follows. */
  lemma WalkFinishes(scope: Scope, tables: seq<seq<Row>>)
    requires Growing(tables) && tables != [] && PAGE * |tables| > |tables[|tables| - 1]|
    ensures Walk(scope, [], tables).finished
  {
    hide Walk, Growing;
    var w, last := Walk(scope, [], tables), tables[|tables| - 1];
    WalkIsExact(scope, tables);
    UnfinishedPagesAreFull(scope, [], tables);
    DistinctFit(w.rows, set r | r in last);
    SetSize(last);
  }
}
