/** Store-and-forward chat: the client's pending queue (legacy/chat_client_v3.py) and the server's
    tables (legacy/chat_server_v4.cpp). */
module Delivery {
  import opened Bytes
  import opened Collections

  type Name = bytes

  const ALL: Name := [65, 76, 76]
  const SERVER: Name := [83, 69, 82, 86, 69, 82]

  predicate ValidName(u: Name) {
    0 < |u| <= 32 && u != SERVER && u != ALL && forall i :: 0 <= i < |u| ==> u[i] >= 32
  }

  /** What one call of `send` hands over, and the end-to-end name of a message. */
  datatype Msg = Msg(to: Name, content: bytes, ts: int)
  datatype Key = Key(from: Name, seqNo: int)

  predicate Private(m: Msg) { m.to != ALL }

  // ---------- the pending queue ----------

  datatype Item = Item(msg: Msg, attempts: nat, failed: bool)

  /** The JSON file: every operation rewrites it before it returns. */
  datatype Pending = Pending(nextSeq: int, items: map<int, Item>)

  const MAX_ATTEMPTS: nat := 8

  /** `alloc_seq`: never at or below the clock, never below the counter. */
  function Alloc(p: Pending, millis: int): (Pending, int) {
    var n := if p.nextSeq <= millis then millis + 1 else p.nextSeq;
    (p.(nextSeq := n + 1), n)
  }

  function AllocAll(p: Pending, clocks: seq<int>): seq<int>
    decreases |clocks|
  {
    if clocks == [] then [] else [Alloc(p, clocks[0]).1] + AllocAll(Alloc(p, clocks[0]).0, clocks[1..])
  }

  /** Whatever the clock does, even backwards, the numbers go up; each also lies above the clock it saw, so
      a lost file does not bring old numbers back while the clock is right. */
  lemma {:induction false} AllocStrictlyIncreases(p: Pending, clocks: seq<int>)
    ensures |AllocAll(p, clocks)| == |clocks|
    ensures Increasing(AllocAll(p, clocks))
    ensures forall i :: 0 <= i < |clocks| ==> AllocAll(p, clocks)[i] >= p.nextSeq && AllocAll(p, clocks)[i] > clocks[i]
    decreases |clocks|
  {
    if clocks != [] {
      AllocStrictlyIncreases(Alloc(p, clocks[0]).0, clocks[1..]);
      var rest := AllocAll(Alloc(p, clocks[0]).0, clocks[1..]);
      assert AllocAll(p, clocks) == [Alloc(p, clocks[0]).1] + rest;
      forall i | 0 < i < |clocks|
        ensures AllocAll(p, clocks)[i] > Alloc(p, clocks[0]).1 && AllocAll(p, clocks)[i] > clocks[i]
      {
        assert AllocAll(p, clocks)[i] == rest[i - 1] && clocks[i] == clocks[1..][i - 1];
      }
    }
  }

  class PendingStore {
    var nextSeq: int
    var items: map<int, Item>
    var file: Pending

    ghost predicate Valid()
      reads this
    {
      file == Pending(nextSeq, items)
    }

    /** Starting again from the file that the last process left. */
    constructor (file: Pending)
      ensures Valid() && this.file == file
    {
      nextSeq, items, this.file := file.nextSeq, file.items, file;
    }

    method Save()
      modifies this`file
      ensures Valid()
    {
      file := Pending(nextSeq, items);
    }

    method AllocSeq(millis: int) returns (seqNo: int)
      requires Valid()
      modifies this
      ensures Valid() && (file, seqNo) == Alloc(old(file), millis)
    {
      var floor := millis;
      if nextSeq <= floor { nextSeq := floor + 1; }
      seqNo := nextSeq;
      nextSeq := nextSeq + 1;
      Save();
    }

    /** `add` and `update`: both put the item back, even one that an ACK removed meanwhile. */
    method Put(seqNo: int, item: Item)
      requires Valid()
      modifies this
      ensures Valid() && file == old(file).(items := old(file).items[seqNo := item])
    {
      items := items[seqNo := item];
      Save();
    }

    method Remove(seqNo: int)
      requires Valid()
      modifies this
      ensures Valid() && file == old(file).(items := old(file).items - {seqNo})
    {
      if seqNo in items { items := items - {seqNo}; }
      Save();
    }

    /** The numbers of the queue, sorted. */
    method Snapshot() returns (order: seq<int>)
      ensures Increasing(order)
      ensures forall n :: n in order <==> n in items
    {
      order := [];
      var left := items.Keys;
      while left != {}
        invariant Increasing(order) && left <= items.Keys
        invariant forall n :: n in order <==> n in items && n !in left
        invariant forall i, m :: 0 <= i < |order| && m in left ==> order[i] < m
        decreases left
      {
        var least := Least(left);
        left := left - {least};
        order := order + [least];
      }
    }
  }

  lemma {:induction false} LeastExists(s: set<int>)
    requires s != {}
    ensures exists n :: n in s && forall m :: m in s ==> n <= m
  {
    assert (forall n: int :: n !in s) ==> s == {};
    var n: int :| n in s;
    var rest := s - {n};
    assert forall m :: m in s && m != n ==> m in rest;
    if rest == {} {
      assert forall m :: m in s ==> n <= m;
    } else {
      LeastExists(rest);
      var k :| k in rest && forall m :: m in rest ==> k <= m;
      var least := if k < n then k else n;
      assert least in s && forall m :: m in s ==> least <= m;
    }
  }

  method Least(s: set<int>) returns (n: int)
    requires s != {}
    ensures n in s && forall m :: m in s ==> n <= m
  {
    LeastExists(s);
    n :| n in s && forall m :: m in s ==> n <= m;
  }

  // ---------- the server's tables ----------

  datatype Row = Row(id: int, msg: Msg)

  /** `seen_message` and `offline_message`, both keyed by (user, seq). */
  datatype Tables = Tables(seen: map<Key, int>, offline: map<Key, Row>, nextId: int)

  const NO_TABLES := Tables(map[], map[], 1)

  /** What is committed, and what the one connection to SQLite sees inside a transaction that a failed COMMIT left
      open. Nothing ends that transaction before the server restarts, and then it is gone. */
  datatype Db = Db(disk: Tables, open: Option<Tables>) {
    function View(): Tables { if open.Some? then open.value else disk }
  }

  const EMPTY_DB := Db(NO_TABLES, None)

  /** Where SQLite fails, if it does. After a failed COMMIT the transaction is rolled back or stays open. */
  datatype Fault = Fine | AtBegin | AtSeen | AtOffline | AtCommit(rolledBack: bool)

  /** Both inserts of a first acceptance. */
  function Added(t: Tables, k: Key, m: Msg): Tables {
    if Private(m) && k !in t.offline then Tables(t.seen[k := m.ts], t.offline[k := Row(t.nextId, m)], t.nextId + 1)
    else t.(seen := t.seen[k := m.ts])
  }

  function Ended(before: Tables, after: Tables, fault: Fault): Db {
    if !fault.AtCommit? then Db(after, None) else if fault.rolledBack then Db(before, None) else Db(before, Some(after))
  }

  /** `acceptMessage`: 1 for a first acceptance, 0 for a duplicate, -1 for a failure. The result of COMMIT is
      not looked at; a transaction that is still open makes BEGIN fail. */
  function Accept(db: Db, k: Key, m: Msg, fault: Fault): (Db, int) {
    var t := db.disk;
    if db.open.Some? || fault in {AtBegin, AtSeen} then (db, -1)
    else if k in t.seen then (Ended(t, t, fault), 0)
    else if Private(m) && fault == AtOffline then (db, -1)
    else (Ended(t, Added(t, k, m), fault), 1)
  }

  /** A non-negative result stands for a stored message exactly when it is not a first acceptance whose COMMIT
      failed: nothing else lets an ACK go out for a message that the tables lack. */
  lemma AcceptIsHonestExactly(db: Db, k: Key, m: Msg, fault: Fault)
    ensures var (db', result) := Accept(db, k, m, fault);
      (result >= 0 ==> k in db'.disk.seen && (k !in db.disk.seen && Private(m) ==> k in db'.disk.offline))
      <==> !(db.open.None? && k !in db.disk.seen && fault.AtCommit?)
    ensures var (db', result) := Accept(db, k, m, fault); result != 1 ==> db'.disk == db.disk
    ensures db.open.Some? ==> Accept(db, k, m, fault) == (db, -1)
  {
    var (db', result) := Accept(db, k, m, fault);
    if db.open.None? && k !in db.disk.seen && fault.AtCommit? { assert result == 1 && db'.disk == db.disk; }
  }

  function Without(t: Tables, to: Name, k: Key): Tables {
    if k in t.offline && t.offline[k].msg.to == to then t.(offline := t.offline - {k}) else t
  }

  /** A DELETE inside an open transaction is as provisional as the rest of it. */
  function Delete(db: Db, to: Name, k: Key): Db {
    if db.open.Some? then db.(open := Some(Without(db.open.value, to, k))) else db.(disk := Without(db.disk, to, k))
  }

  predicate RowBefore(a: Row, b: Row) { a.msg.ts < b.msg.ts || (a.msg.ts == b.msg.ts && a.id < b.id) }

  /** What AUTOINCREMENT keeps. */
  ghost predicate UniqueIds(t: Tables) {
    && (forall a :: a in t.offline ==> t.offline[a].id < t.nextId)
    && (forall a, b :: a in t.offline && b in t.offline && a != b ==> t.offline[a].id != t.offline[b].id)
  }

  class Database {
    var disk: Tables
    var open: Option<Tables>

    function Value(): Db
      reads this
    {
      Db(disk, open)
    }

    ghost predicate Valid()
      reads this
    {
      UniqueIds(disk) && (open.Some? ==> UniqueIds(open.value))
    }

    /** Opening the file of an earlier process: whatever was not committed is gone. */
    constructor (file: Tables)
      requires UniqueIds(file)
      ensures Valid() && Value() == Db(file, None)
    {
      disk, open := file, None;
    }

    method AcceptMessage(k: Key, m: Msg, fault: Fault) returns (result: int)
      requires Valid()
      modifies this
      ensures Valid()
      ensures (Value(), result) == Accept(old(Value()), k, m, fault)
    {
      if open.Some? || fault == AtBegin { return -1; }
      var t := disk;
      result := -1;
      if fault != AtSeen {
        if k in t.seen {
          result := 0;
        } else {
          t := t.(seen := t.seen[k := m.ts]);
          result := 1;
          if m.to != ALL {
            if fault == AtOffline {
              result := -1;
            } else if k !in t.offline {
              t := t.(offline := t.offline[k := Row(t.nextId, m)], nextId := t.nextId + 1);
            }
          }
        }
      }
      if result >= 0 {
        if !fault.AtCommit? {
          disk := t;
        } else if !fault.rolledBack {
          open := Some(t);
        }
      }
    }

    method DeleteOfflineFor(to: Name, k: Key)
      requires Valid()
      modifies this
      ensures Valid()
      ensures Value() == Delete(old(Value()), to, k)
    {
      var t := Value().View();
      if k in t.offline && t.offline[k].msg.to == to { t := t.(offline := t.offline - {k}); }
      if open.Some? { open := Some(t); } else { disk := t; }
    }

    /** The rows for one user, oldest first; row numbers are unique, so the order is total. */
    method FetchOffline(to: Name) returns (rows: seq<Key>)
      requires Valid()
      ensures var offline := Value().View().offline;
        && (forall k :: k in rows <==> k in offline && offline[k].msg.to == to)
        && (forall i, j :: 0 <= i < j < |rows| ==> RowBefore(offline[rows[i]], offline[rows[j]]))
    {
      var offline := Value().View().offline;
      rows := [];
      var left := set k | k in offline && offline[k].msg.to == to;
      while left != {}
        invariant forall k :: k in left ==> k in offline && offline[k].msg.to == to
        invariant forall k :: k in rows || k in left <==> k in offline && offline[k].msg.to == to
        invariant forall k :: k in rows && k in left ==> false
        invariant forall i, j :: 0 <= i < j < |rows| ==> RowBefore(offline[rows[i]], offline[rows[j]])
        invariant forall a, b :: a in rows && b in left ==> RowBefore(offline[a], offline[b])
        decreases left
      {
        var first := Earliest(offline, left);
        left := left - {first};
        rows := rows + [first];
      }
    }
  }

  ghost predicate Distinct(offline: map<Key, Row>, s: set<Key>) {
    && s <= offline.Keys
    && forall a, b :: a in s && b in s && a != b ==> offline[a].id != offline[b].id
  }

  predicate First(offline: map<Key, Row>, s: set<Key>, k: Key)
    requires s <= offline.Keys
  {
    k in s && forall m :: m in s && m != k ==> RowBefore(offline[k], offline[m])
  }

  lemma {:induction false} EarliestExists(offline: map<Key, Row>, s: set<Key>)
    requires s != {} && Distinct(offline, s)
    ensures exists k :: First(offline, s, k)
  {
    var n :| n in s;
    var rest := s - {n};
    assert forall m :: m in s && m != n ==> m in rest;
    if rest == {} {
      assert First(offline, s, n);
    } else {
      EarliestExists(offline, rest);
      var k :| First(offline, rest, k);
      var first := if RowBefore(offline[k], offline[n]) then k else n;
      assert First(offline, s, first);
    }
  }

  method Earliest(offline: map<Key, Row>, s: set<Key>) returns (first: Key)
    requires s != {} && Distinct(offline, s)
    ensures First(offline, s, first)
  {
    EarliestExists(offline, s);
    first :| First(offline, s, first);
  }
}
