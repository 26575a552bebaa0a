/** The handlers behind the delivery machine, as the client and the server run them. */
module DeliveryCode {
  import opened Collections
  import opened Delivery
  import opened DeliveryMachine

  // ---------- the client: resending ----------

  predicate Sendable(item: Item) { !item.failed && item.attempts < MAX_ATTEMPTS }

  /** Resending changes attempts and states of items, never a message, and forgets none. */
  ghost predicate SameMessages(p: Pending, q: Pending) {
    && p.nextSeq == q.nextSeq && p.items.Keys == q.items.Keys
    && forall n :: n in p.items ==> p.items[n].msg == q.items[n].msg
  }

  /** Frames for pending items, in the order of their numbers. */
  ghost predicate InOrder(frames: seq<Up>, p: Pending) {
    && (forall i {:trigger frames[i]} :: 0 <= i < |frames| ==>
          frames[i].Message? && frames[i].seqNo in p.items && Sendable(p.items[frames[i].seqNo])
          && frames[i].msg == p.items[frames[i].seqNo].msg)
    && (forall i, j :: 0 <= i < j < |frames| ==>
          frames[i].Message? && frames[j].Message? && frames[i].seqNo < frames[j].seqNo)
  }

  class ChatSession {
    const store: PendingStore
    var connected: bool
    var up: seq<Up>

    constructor (store: PendingStore)
      requires store.Valid()
      ensures this.store == store && !connected && up == []
    {
      this.store, connected, up := store, false, [];
    }

    /** `_try_send_item`; `wrote` is whether the socket took the frame. */
    method TrySendItem(n: int, item: Item, wrote: bool)
      requires store.Valid()
      modifies this`up, store
      ensures store.Valid()
      ensures item.attempts >= MAX_ATTEMPTS ==>
        up == old(up) && store.file == old(store.file).(items := old(store.file).items[n := item.(failed := true)])
      ensures item.attempts < MAX_ATTEMPTS && !(connected && wrote) ==> up == old(up) && store.file == old(store.file)
      ensures item.attempts < MAX_ATTEMPTS && connected && wrote ==>
        up == old(up) + [Message(n, item.msg)]
        && store.file == old(store.file).(items := old(store.file).items[n := item.(attempts := item.attempts + 1)])
    {
      if item.attempts >= MAX_ATTEMPTS {
        store.Put(n, item.(failed := true));
        return;
      }
      if !connected || !wrote { return; }
      up := up + [Message(n, item.msg)];
      store.Put(n, item.(attempts := item.attempts + 1));
    }

    /** The turn of one item: nothing is tried for one that has failed. */
    method ResendOne(n: int, item: Item, wrote: bool) returns (ghost sent: seq<Up>)
      requires store.Valid() && n in store.items && store.items[n] == item
      modifies this`up, store
      ensures store.Valid() && up == old(up) + sent
      ensures sent == if Sendable(item) && connected && wrote then [Message(n, item.msg)] else []
      ensures exists put: Item ::
        put.msg == item.msg && store.file == old(store.file).(items := old(store.file).items[n := put])
    {
      sent := [];
      assert store.file == store.file.(items := store.file.items[n := item]);
      if !item.failed {
        TrySendItem(n, item, wrote);
        if Sendable(item) && connected && wrote { sent := [Message(n, item.msg)]; }
      }
    }

    /** `_flush_pending` after a reconnect: pending messages go out in the order of their numbers, each at most once,
        with the text they were given; all that may still be sent do, if the socket takes them. */
    method FlushPending(answers: seq<bool>) returns (ghost frames: seq<Up>)
      requires store.Valid()
      modifies this`up, store
      ensures store.Valid() && SameMessages(old(store.file), store.file)
      ensures up == old(up) + frames && InOrder(frames, old(store.file))
      ensures connected && Willing(answers, |old(store.items)|) ==>
        forall n :: n in old(store.items) && Sendable(old(store.items)[n]) ==>
          Message(n, old(store.items)[n].msg) in frames
    {
      hide InOrder, SentUpTo, OnlyFrom, SameMessages, Willing, Increasing, SameFrom, Alloc;
      var order := store.Snapshot();
      NoFrames(store.file, order);
      SameMessagesSelf(store.file);
      SameFromStart(store.items, order);
      var items := store.items;
      ghost var p := store.file;
      OrderSize(order, items.Keys);
      frames := [];
      for i := 0 to |order|
        invariant store.Valid() && SameMessages(p, store.file)
        invariant up == old(up) + frames && InOrder(frames, p)
        invariant OnlyFrom(frames, order, i)
        invariant SameFrom(store.items, items, order, i)
        invariant connected && Willing(answers, |items|) ==> SentUpTo(frames, items, order, i)
      {
        var n := order[i];
        assert n in order;
        var item := items[n];
        var wrote := i < |answers| && answers[i];
        Turn(frames, p, order, i, Sendable(item) && connected && wrote);
        WillingTakes(answers, |items|, i);
        SameMessagesStill(p, store.file, n);
        SameFromNext(store.items, items, order, i);
        ghost var sent := ResendOne(n, item, wrote);
        frames := frames + sent;
      }
      AllSent(frames, items, order);
    }
  }

  /** The socket takes everything that it is offered. */
  predicate Willing(answers: seq<bool>, n: nat) {
    |answers| >= n && forall i :: 0 <= i < |answers| ==> answers[i]
  }

  lemma WillingTakes(answers: seq<bool>, n: nat, i: nat)
    requires i < n
    ensures Willing(answers, n) ==> i < |answers| && answers[i]
  {
  }

  lemma SameMessagesSelf(p: Pending)
    ensures SameMessages(p, p)
  {
  }

  /** Putting back item `n` with the message it has keeps all messages. */
  lemma SameMessagesStill(p: Pending, q: Pending, n: int)
    requires SameMessages(p, q) && n in p.items
    ensures q.nextSeq == p.nextSeq && n in q.items && q.items[n].msg == p.items[n].msg
    ensures forall item: Item :: item.msg == p.items[n].msg ==> SameMessages(p, q.(items := q.items[n := item]))
  {
  }

  /** The items whose turn is still to come are as they were. */
  ghost predicate SameFrom(items: map<int, Item>, was: map<int, Item>, order: seq<int>, i: nat) {
    && (forall n :: n in order ==> n in items && n in was)
    && forall k :: i <= k < |order| ==> items[order[k]] == was[order[k]]
  }

  lemma SameFromStart(items: map<int, Item>, order: seq<int>)
    requires forall n :: n in order ==> n in items
    ensures SameFrom(items, items, order, 0)
  {
  }

  lemma SameFromNext(items: map<int, Item>, was: map<int, Item>, order: seq<int>, i: nat)
    requires SameFrom(items, was, order, i) && Increasing(order) && i < |order|
    ensures order[i] in was && order[i] in items && items[order[i]] == was[order[i]]
    ensures SameFrom(items, was, order, i + 1)
    ensures forall item {:trigger items[order[i] := item]} :: SameFrom(items[order[i] := item], was, order, i + 1)
  {
    assert order[i] in order;
  }

  ghost predicate OnlyFrom(frames: seq<Up>, order: seq<int>, i: nat)
    requires i <= |order|
  {
    forall f :: f in frames ==> f.Message? && exists k :: 0 <= k < i && order[k] == f.seqNo
  }

  ghost predicate SentUpTo(frames: seq<Up>, items: map<int, Item>, order: seq<int>, i: nat)
    requires i <= |order|
  {
    forall k :: 0 <= k < i && order[k] in items && Sendable(items[order[k]]) ==>
      Message(order[k], items[order[k]].msg) in frames
  }

  lemma AllSent(frames: seq<Up>, items: map<int, Item>, order: seq<int>)
    requires forall n :: n in items ==> n in order
    ensures SentUpTo(frames, items, order, |order|) ==>
      forall n :: n in items && Sendable(items[n]) ==> Message(n, items[n].msg) in frames
  {
  }

  /** One turn of the loop, with or without a frame. */
  lemma Turn(frames: seq<Up>, p: Pending, order: seq<int>, i: nat, sent: bool)
    requires InOrder(frames, p) && Increasing(order) && i < |order| && OnlyFrom(frames, order, i) && order[i] in p.items
    requires sent ==> Sendable(p.items[order[i]])
    ensures var after := frames + if sent then [Message(order[i], p.items[order[i]].msg)] else [];
      && InOrder(after, p) && OnlyFrom(after, order, i + 1)
      && (SentUpTo(frames, p.items, order, i) && (Sendable(p.items[order[i]]) ==> sent) ==>
            SentUpTo(after, p.items, order, i + 1))
  {
    assert frames + [] == frames;
    if sent { OneMoreFrame(frames, p, order[i], order, i); }
  }

  lemma {:induction false} OrderSize(order: seq<int>, s: set<int>)
    requires Increasing(order) && forall n :: n in order ==> n in s
    ensures |order| <= |s|
  {
    if order != [] {
      var rest := order[1..];
      assert forall i :: 0 <= i < |rest| ==> rest[i] == order[i + 1];
      assert order[0] in order && order[0] in s;
      assert forall n :: n in rest ==> n in order;
      OrderSize(rest, s - {order[0]});
    }
  }

  lemma NoFrames(p: Pending, order: seq<int>)
    ensures InOrder([], p) && OnlyFrom([], order, 0) && SentUpTo([], p.items, order, 0)
  {
  }

  lemma OneMoreFrame(frames: seq<Up>, p: Pending, n: int, order: seq<int>, i: nat)
    requires InOrder(frames, p) && n in p.items && Sendable(p.items[n])
    requires Increasing(order) && i < |order| && order[i] == n
    requires OnlyFrom(frames, order, i)
    ensures InOrder(frames + [Message(n, p.items[n].msg)], p)
  {
    forall k | 0 <= k < |frames| ensures frames[k].Message? && frames[k].seqNo < n {
      assert frames[k] in frames;
      var j :| 0 <= j < i && order[j] == frames[k].seqNo;
      assert order[j] < order[i];
    }
  }

  // ---------- the server: accepting ----------

  /** `doMessage` up to the forwarding: the frame that answers the sender, and whether to look up the recipient. */
  method DoMessage(db: Database, login: bool, user: Name, n: int, m0: Msg, now: int, fault: Fault)
    returns (reply: Down, forward: bool, m: Msg)
    requires db.Valid()
    modifies db
    ensures db.Valid()
    ensures m == if m0.ts <= 0 then m0.(ts := now) else m0
    ensures forall s: State, c: nat ::
      c in s.conns && s.conns[c].owner == user && s.conns[c].login == login && s.server.db == old(db.Value()) ==>
        var s' := MessageHandled(s, c, n, m0, now, fault);
        && s'.server.db == db.Value()
        && s'.server.jobs == s.server.jobs + (if forward then multiset{Write(c, reply), Forward(Key(user, n), m)}
                                               else multiset{Write(c, reply)})
        && s'.log.acceptances == s.log.acceptances + (if forward then [Key(user, n)] else [])
  {
    m := if m0.ts <= 0 then m0.(ts := now) else m0;
    if !login { return Nack(n), false, m; }
    if n <= 0 { return Nack(n), false, m; }
    if m.to != ALL && (m.to == [] || m.to == SERVER || !ValidName(m.to)) { return Nack(n), false, m; }
    var acc := db.AcceptMessage(Key(user, n), m, fault);
    if acc < 0 { return Nack(n), false, m; }
    if acc == 0 { return Ack(n), false, m; }
    return Ack(n), true, m;
  }
}
