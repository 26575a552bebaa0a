/** What can be cleared away: items in files, rows in the tables, and sessions that a newer one replaced. */
module DeliverySettle {
  import opened Collections
  import opened Delivery
  import opened DeliveryMachine
  import opened DeliveryInvariant
  import opened DeliveryRuns
  import opened DeliveryProgress

  // ---------- items leave the file ----------

  lemma AckArrives(s: State, u: Name, n: int, c: nat)
    requires u in s.clients && s.clients[u].inHand.None? && s.clients[u].sock == Some(c)
    requires c in s.conns && s.conns[c].down == [Ack(n)]
    ensures Enabled(s, Dispatch(u, 0, true)) && !InFile(After(s, Dispatch(u, 0, true)), Key(u, n))
    ensures After(s, Dispatch(u, 0, true)).clients.Keys == s.clients.Keys
  {
    hide Handled, Killed, JobDone, HungUp, Restarted, Drawn;
  }

  /** The ACK for a message that the server has handled can reach the sender. */
  lemma Settles(s: State, u: Name, n: int) returns (t: State)
    requires Inv(s) && u in s.clients && n in s.clients[u].held && ValidName(u)
    requires Key(u, n) in s.log.sent && Addressed(Key(u, n), s.log.sent[Key(u, n)])
    ensures CanBecome(s, t) && !InFile(t, Key(u, n))
  {
    hide Inv, CanBecome, After, Enabled, ValidName, Apart, InFile;
    var s1, c := HandIn(s, u, n);
    WriteNext(s1, u, c, Ack(n));
    Then(s, s1, Run(Write(c, Ack(n)), true));
    var s2 := After(s1, Run(Write(c, Ack(n)), true));
    assert [] + [Ack(n)] == [Ack(n)];
    AckArrives(s2, u, n, c);
    Then(s, s2, Dispatch(u, 0, true));
    t := After(s2, Dispatch(u, 0, true));
  }

  /** Whatever happened so far, a message can still leave its sender's file with an ACK, exactly if its sender's name
      and its address are ones that the server accepts; otherwise it stays there for good. */
  lemma {:induction false} CanSettleExactly(users: set<Name>, events: seq<Event>, k: Key)
    requires k in Reached(users, events).log.sent
    ensures (exists more :: AllSound(more) && !InFile(Reached(users, events + more), k))
            <==> Addressed(k, Reached(users, events).log.sent[k])
  {
    hide Reached, Inv, Leads, After, ValidName, CanBecome, InFile, Addressed;
    var s := Reached(users, events);
    RunsKeep(users, events);
    KeptFacts(s, k);
    if Addressed(k, s.log.sent[k]) {
      var t := Cleared(s, k);
      var more := Continuation(users, events, s, t);
    }
    forall more | !InFile(Reached(users, events + more), k) ensures Addressed(k, s.log.sent[k]) {
      SettledWasAddressed(users, events, more, k);
    }
  }

  lemma Continuation(users: set<Name>, events: seq<Event>, s: State, t: State) returns (more: seq<Event>)
    requires s == Reached(users, events) && CanBecome(s, t)
    ensures AllSound(more) && Reached(users, events + more) == t
  {
    hide Reached, Leads;
    more :| AllSound(more) && Leads(s, more, t);
    LeadsReached(users, events, more, t);
  }

  lemma Cleared(s: State, k: Key) returns (t: State)
    requires Inv(s) && k in s.log.sent && Addressed(k, s.log.sent[k]) && k.from in s.clients
    ensures CanBecome(s, t) && !InFile(t, k)
  {
    hide Inv, CanBecome, ValidName;
    if InFile(s, k) {
      PendingIsHeld(s, k.from, k.seqNo);
      t := Settles(s, k.from, k.seqNo);
    } else {
      CanStay(s);
      t := s;
    }
  }

  lemma {:induction false} SettledWasAddressed(users: set<Name>, events: seq<Event>, more: seq<Event>, k: Key)
    requires k in Reached(users, events).log.sent && !InFile(Reached(users, events + more), k)
    ensures Addressed(k, Reached(users, events).log.sent[k])
  {
    hide Reached, AllClients, AllNumbers, AllDisplays, AllConns, AllJobs, Owned, Displayed, DbOk, ValidName;
    var all := events + more;
    assert all[..|events|] == events;
    RunsKeep(users, all);
    NumbersAreNeverReused(users, all, |events|);
    var l := Reached(users, all).log;
    assert k in Reached(users, events).log.sent;
    assert k in l.accepted && Genuine(l, k, l.accepted[k]);
    assert SamePayload(l.sent[k], l.accepted[k]) && Addressed(k, l.accepted[k]);
  }

  /** A refused message stays in the file, marked so that it is not sent again by itself; no other item changes. */
  lemma NackMarks(s: State, u: Name, millis: int, wrote: bool)
    requires Enabled(s, Dispatch(u, millis, wrote)) && s.conns[s.clients[u].sock.value].down[0].Nack?
    ensures var t, n := After(s, Dispatch(u, millis, wrote)), s.conns[s.clients[u].sock.value].down[0].seqNo;
      var items, items' := s.clients[u].pending.items, t.clients[u].pending.items;
      && items'.Keys == items.Keys && t.server == s.server && t.log == s.log
      && (forall i :: i in items ==> items'[i] == items[i].(failed := items[i].failed || i == n))
  {
    hide Handled, Killed, JobDone, HungUp, Restarted, Drawn;
  }

  // ---------- rows leave the tables ----------

  lemma ConfirmNext(s: State, u: Name, c: nat, k: Key, m: Msg)
    requires u in s.clients && s.clients[u].inHand.None? && s.clients[u].sock == Some(c)
    requires c in s.conns && s.conns[c] == Conn(u, true, [], [Relay(k, m)], true) && Private(m) && k.seqNo > 0
    ensures Enabled(s, Dispatch(u, 0, true))
    ensures var t := After(s, Dispatch(u, 0, true));
      && t.server == s.server && c in t.conns && t.conns[c] == Conn(u, true, [E2eAck(k)], [], true)
  {
    hide Handled, Killed, JobDone, HungUp, Restarted, Drawn;
    assert [Relay(k, m)][1..] == [] && [] + [E2eAck(k)] == [E2eAck(k)];
  }

  lemma RowDeleted(s: State, u: Name, c: nat, k: Key)
    requires c in s.conns && s.conns[c] == Conn(u, true, [E2eAck(k)], [], true) && k.seqNo > 0 && k.from != []
    requires s.server.db.open.None? && (k in s.server.db.disk.offline ==> s.server.db.disk.offline[k].msg.to == u)
    ensures Enabled(s, Handle(c, 1, Fine))
    ensures var t := After(s, Handle(c, 1, Fine));
      && t.server.db.disk.offline == s.server.db.disk.offline - {k} && t.server.db.disk.seen == s.server.db.disk.seen
  {
    hide LoggedIn, MessageHandled, Dispatched, Killed, JobDone, HungUp, Restarted;
  }

  lemma WriteFirst(s: State, u: Name, c: nat, f: Down)
    requires c in s.conns && s.conns[c] == Conn(u, true, [], [], true) && Write(c, f) in s.server.jobs
    ensures Enabled(s, Run(Write(c, f), true))
    ensures var t := After(s, Run(Write(c, f), true));
      && t.clients == s.clients && t.server.db == s.server.db && c in t.conns
          && t.conns[c] == Conn(u, true, [], [f], true)
  {
    hide Handled, Dispatched, Killed, HungUp, Restarted, Frames;
    assert [] + [f] == [f];
  }

  lemma PushedFirst(s: State, c: nat)
    requires Backfill(c) in s.server.jobs
    ensures Enabled(s, Run(Backfill(c), true)) && After(s, Run(Backfill(c), true)).server.db == s.server.db
  {
    hide Frames;
  }

  /** A stored message can be pushed, read, confirmed and deleted. */
  lemma DeletesRow(s: State, u: Name, k: Key) returns (t: State)
    requires Inv(s) && u in s.clients && ValidName(u) && k in s.server.db.disk.offline
    requires s.server.db.disk.offline[k].msg.to == u && u != ALL && k.seqNo > 0 && k.from != []
    ensures CanBecome(s, t) && k !in t.server.db.disk.offline
  {
    hide Inv, CanBecome, After, Enabled, ValidName, Apart;
    var s0 := Reopen(s);
    var s1, c := Join(s0, u);
    CanFollow(s, s0, s1);
    var m := s1.server.db.View().offline[k].msg;
    BackfillFirst(s1, u, c, k);
    PushedFirst(s1, c);
    Then(s, s1, Run(Backfill(c), true));
    var s2 := After(s1, Run(Backfill(c), true));
    WriteFirst(s2, u, c, Relay(k, m));
    Then(s, s2, Run(Write(c, Relay(k, m)), true));
    var s3 := After(s2, Run(Write(c, Relay(k, m)), true));
    ConfirmNext(s3, u, c, k, m);
    Then(s, s3, Dispatch(u, 0, true));
    var s4 := After(s3, Dispatch(u, 0, true));
    RowDeleted(s4, u, c, k);
    Then(s, s4, Handle(c, 1, Fine));
    t := After(s4, Handle(c, 1, Fine));
  }

  /** What the invariant says about a row: a private message between valid names, under a number in use. */
  lemma RowFacts(s: State, k: Key)
    requires Inv(s) && k in s.server.db.disk.offline && Private(s.server.db.disk.offline[k].msg)
    ensures var to := s.server.db.disk.offline[k].msg.to; ValidName(to) && ValidName(k.from) && to != ALL
    ensures k.seqNo > 0
  {
    hide AllClients, AllDisplays, AllConns, AllJobs, Owned, LogOk, Displayed, ValidName;
    assert RowsOk(s.log, s.server.db.disk);
    assert Genuine(s.log, k, s.server.db.disk.offline[k].msg);
    assert k in s.log.sent && k.from in s.clients;
    assert NumbersOk(s.log.sent, k.from, s.clients[k.from]);
  }

  /** Only private messages are stored for later. */
  ghost predicate OnlyPrivate(db: Db) {
    && (forall k {:trigger db.disk.offline[k]} :: k in db.disk.offline ==> Private(db.disk.offline[k].msg))
    && (db.open.Some? ==> forall k {:trigger db.open.value.offline[k]} :: k in db.open.value.offline ==>
          Private(db.open.value.offline[k].msg))
  }

  lemma PrivateStep(s: State, e: Event)
    requires OnlyPrivate(s.server.db) && Enabled(s, e)
    ensures OnlyPrivate(After(s, e).server.db)
  {
    hide Accept, Delete, OnlyPrivate, Frames, ValidName;
    match e
    case Handle(c, now, fault) =>
      forall k, m ensures OnlyPrivate(Accept(s.server.db, k, m, fault).0) { AcceptPrivate(s.server.db, k, m, fault); }
      forall u, k ensures OnlyPrivate(Delete(s.server.db, u, k)) { DeletePrivate(s.server.db, u, k); }
    case Restart => ReopenPrivate(s.server.db);
    case _ =>
  }

  lemma AcceptPrivate(db: Db, k: Key, m: Msg, fault: Fault)
    requires OnlyPrivate(db)
    ensures OnlyPrivate(Accept(db, k, m, fault).0)
  {
  }

  lemma DeletePrivate(db: Db, u: Name, k: Key)
    requires OnlyPrivate(db)
    ensures OnlyPrivate(Delete(db, u, k))
  {
  }

  lemma ReopenPrivate(db: Db)
    requires OnlyPrivate(db)
    ensures OnlyPrivate(db.(open := None))
  {
  }

  predicate SameRow(db: Db, db': Db, k: Key) {
    k in db.disk.offline ==> k in db'.disk.offline && db'.disk.offline[k] == db.disk.offline[k]
  }

  lemma AcceptSameRow(db: Db, x: Key, m: Msg, fault: Fault, k: Key)
    ensures SameRow(db, Accept(db, x, m, fault).0, k)
  {
  }

  lemma DeleteSameRow(db: Db, u: Name, x: Key, k: Key)
    ensures k in db.disk.offline && db.disk.offline[k].msg.to != u ==> SameRow(db, Delete(db, u, x), k)
  {
  }

  lemma HandleRow(s: State, c: nat, now: int, fault: Fault, k: Key)
    requires Enabled(s, Handle(c, now, fault)) && k in s.server.db.disk.offline
    requires s.server.db.disk.offline[k].msg.to != s.conns[c].owner
    ensures SameRow(s.server.db, After(s, Handle(c, now, fault)).server.db, k)
  {
    hide Accept, Delete, SameRow, ValidName;
    RowItself(s.server.db, k);
    forall x, m ensures SameRow(s.server.db, Accept(s.server.db, x, m, fault).0, k) {
      AcceptSameRow(s.server.db, x, m, fault, k);
    }
    forall u, x | s.server.db.disk.offline[k].msg.to != u ensures SameRow(s.server.db, Delete(s.server.db, u, x), k) {
      DeleteSameRow(s.server.db, u, x, k);
    }
  }

  lemma RowItself(db: Db, k: Key)
    ensures SameRow(db, db, k) && SameRow(db, db.(open := None), k)
  {
  }

  /** A row goes only by a confirmation from its recipient. */
  lemma RowStep(s: State, e: Event, k: Key)
    requires Enabled(s, e) && k in s.server.db.disk.offline
    requires forall c :: c in s.conns ==> s.conns[c].owner in s.clients
    ensures s.server.db.disk.offline[k].msg.to !in s.clients ==> SameRow(s.server.db, After(s, e).server.db, k)
  {
    hide Handled, Frames, Dispatched, SameRow;
    RowItself(s.server.db, k);
    match e
    case Handle(c, now, fault) =>
      if s.server.db.disk.offline[k].msg.to !in s.clients { HandleRow(s, c, now, fault, k); }
    case Dispatch(u, millis, wrote) => DispatchServer(s, u, millis, wrote);
    case _ =>
  }

  lemma DispatchServer(s: State, u: Name, millis: int, wrote: bool)
    requires Enabled(s, Dispatch(u, millis, wrote))
    ensures Dispatched(s, u, millis, wrote).server == s.server
  {
    hide Drawn, PutItem, Written;
  }

  lemma OwnersAreClients(s: State)
    requires Inv(s)
    ensures forall c :: c in s.conns ==> s.conns[c].owner in s.clients
  {
    hide AllClients, AllNumbers, AllDisplays, AllConns, AllJobs, DbOk, LogOk, Kept, Displayed;
  }

  lemma {:induction false} RunsKeepPrivate(users: set<Name>, events: seq<Event>)
    ensures OnlyPrivate(Reached(users, events).server.db)
  {
    hide After, Enabled;
    if events != [] {
      var s, e := Reached(users, events[..|events| - 1]), events[|events| - 1];
      RunsKeepPrivate(users, events[..|events| - 1]);
      if Enabled(s, e) { PrivateStep(s, e); }
    }
  }

  lemma {:induction false} StrandedStays(users: set<Name>, events: seq<Event>, more: seq<Event>, k: Key)
    requires k in Reached(users, events).server.db.disk.offline
    requires Reached(users, events).server.db.disk.offline[k].msg.to !in users
    ensures k in Reached(users, events + more).server.db.disk.offline
    ensures Reached(users, events + more).server.db.disk.offline[k] == Reached(users, events).server.db.disk.offline[k]
    decreases |more|
  {
    hide Inv, After, Enabled;
    if more == [] {
      assert events + more == events;
    } else {
      var n := |more| - 1;
      StrandedStays(users, events, more[..n], k);
      assert (events + more)[..|events + more| - 1] == events + more[..n];
      var s := Reached(users, events + more[..n]);
      RunsKeep(users, events + more[..n]);
      UsersOnly(users, events + more[..n], [], k);
      OwnersAreClients(s);
      if Enabled(s, more[n]) { RowStep(s, more[n], k); }
    }
  }

  /** A row can still be delivered and deleted exactly if its recipient is a user; one for a name that nobody has
      stays. */
  lemma {:induction false} RowGoesExactly(users: set<Name>, events: seq<Event>, k: Key)
    requires k in Reached(users, events).server.db.disk.offline
    ensures (exists more :: AllSound(more) && k !in Reached(users, events + more).server.db.disk.offline)
            <==> Reached(users, events).server.db.disk.offline[k].msg.to in users
  {
    hide Reached, Inv, Leads, After, ValidName, CanBecome;
    var s := Reached(users, events);
    var to := s.server.db.disk.offline[k].msg.to;
    RunsKeep(users, events);
    RunsKeepPrivate(users, events);
    UsersOnly(users, events, to, k);
    if to in users {
      RowFacts(s, k);
      NamesNotEmpty(k.from);
      var t := DeletesRow(s, to, k);
      var more := Continuation(users, events, s, t);
    } else {
      forall more ensures k in Reached(users, events + more).server.db.disk.offline {
        StrandedStays(users, events, more, k);
      }
    }
  }

  lemma NamesNotEmpty(u: Name)
    requires ValidName(u)
    ensures u != []
  {
  }

  // ---------- only a session counts ----------

  /** On a connection that is not logged in a message is refused and a confirmation ignored: nothing is stored, deleted
      or forwarded, and the one reply is a NACK. */
  lemma LoggedOutChangesNothing(s: State, c: nat, now: int, fault: Fault)
    requires Enabled(s, Handle(c, now, fault)) && !s.conns[c].login && !s.conns[c].up[0].Login?
    ensures var t, f := After(s, Handle(c, now, fault)), s.conns[c].up[0];
      && t.server.db == s.server.db && t.log == s.log && t.server.online == s.server.online
      && t.server.jobs == s.server.jobs + (if f.Message? then multiset{Write(c, Nack(f.seqNo))} else multiset{})
  {
    hide Accept, Delete, ValidName;
  }

  // ---------- one session a user ----------

  /** The server takes a connection for logged in exactly while `online_` has it under its owner's name. */
  ghost predicate OneSession(conns: map<nat, Conn>, online: map<Name, nat>) {
    && (forall c {:trigger conns[c]} :: c in conns && conns[c].login ==>
          conns[c].owner in online && online[conns[c].owner] == c)
    && (forall u {:trigger online[u]} :: u in online ==>
          online[u] in conns && conns[online[u]].login && conns[online[u]].owner == u)
  }

  lemma LoginSession(s: State, c: nat)
    requires OneSession(s.conns, s.server.online) && c in s.conns
    ensures OneSession(LoggedIn(s, c).conns, LoggedIn(s, c).server.online)
  {
    hide ValidName;
  }

  lemma PopSession(s: State, c: nat, conn: Conn)
    requires OneSession(s.conns, s.server.online) && c in s.conns
    requires conn.owner == s.conns[c].owner && conn.login == s.conns[c].login
    ensures OneSession(s.conns[c := conn], s.server.online)
  {
  }

  lemma HandleSession(s: State, c: nat, now: int, fault: Fault)
    requires OneSession(s.conns, s.server.online) && Enabled(s, Handle(c, now, fault))
    ensures var t := After(s, Handle(c, now, fault)); OneSession(t.conns, t.server.online)
  {
    hide OneSession, LoggedIn, Accept, Delete, ValidName;
    var conn := s.conns[c].(up := s.conns[c].up[1..]);
    PopSession(s, c, conn);
    if s.conns[c].up[0].Login? { LoginSession(WithConn(s, c, conn), c); }
  }

  lemma ClientSession(s: State, e: Event)
    requires OneSession(s.conns, s.server.online) && Enabled(s, e) && !e.Handle? && !e.Run?
    requires e.Dispatch? ==> s.conns[s.clients[e.user].sock.value].owner == e.user
    ensures OneSession(After(s, e).conns, After(s, e).server.online)
  {
    hide Handled, JobDone, Drawn, PutItem, Dispatched;
    if e.Dispatch? {
      DispatchSession(s, e.user, e.millis, e.wrote);
    } else if e.Transmit? {
      WrittenSession(s.conns[s.clients[e.user].sock.value], Message(e.seqNo, s.clients[e.user].held[e.seqNo].msg));
    } else if e.LogIn? {
      WrittenSession(s.conns[s.clients[e.user].sock.value], Login);
    }
  }

  lemma WrittenSession(conn: Conn, f: Up)
    ensures Written(conn, f).owner == conn.owner && Written(conn, f).login == conn.login
  {
  }

  lemma DispatchSession(s: State, u: Name, millis: int, wrote: bool)
    requires OneSession(s.conns, s.server.online) && Enabled(s, Dispatch(u, millis, wrote))
    ensures var t := Dispatched(s, u, millis, wrote); OneSession(t.conns, t.server.online)
  {
    hide After, Drawn, PutItem;
  }

  lemma RunSession(s: State, j: Job, wrote: bool)
    requires OneSession(s.conns, s.server.online) && Enabled(s, Run(j, wrote))
    ensures var t := After(s, Run(j, wrote)); OneSession(t.conns, t.server.online)
  {
    hide Frames;
  }

  /** In every run each user has at most one connection that the server takes for logged in, a second login pushes the
      first one out, and `online_` names exactly these connections. */
  lemma {:induction false} OneSessionEach(users: set<Name>, events: seq<Event>)
    ensures OneSession(Reached(users, events).conns, Reached(users, events).server.online)
  {
    hide Inv, After, Enabled, OneSession;
    if events == [] {
      NoSession();
    } else {
      var s, e := Reached(users, events[..|events| - 1]), events[|events| - 1];
      OneSessionEach(users, events[..|events| - 1]);
      RunsKeep(users, events[..|events| - 1]);
      if Enabled(s, e) {
        if e.Dispatch? {
          SomeSocket(s, e);
          SocketOwned(s, e.user);
        }
        match e {
          case Handle(c, now, fault) => HandleSession(s, c, now, fault);
          case Run(j, wrote) => RunSession(s, j, wrote);
          case _ => ClientSession(s, e);
        }
      }
    }
  }

  lemma NoSession()
    ensures OneSession(map[], map[])
  {
  }

  lemma SomeSocket(s: State, e: Event)
    requires Enabled(s, e) && e.Dispatch?
    ensures e.user in s.clients && s.clients[e.user].sock.Some?
  {
  }
}
