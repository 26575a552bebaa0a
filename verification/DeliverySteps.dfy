/** The steps of clients, network and server, each shown to keep the invariant. */
module DeliverySteps {
  import opened Collections
  import opened Delivery
  import opened DeliveryMachine
  import opened DeliveryInvariant

  // ---------- clients ----------

  lemma NewClient(s: State, u: Name, cl: Client, conns: map<nat, Conn>)
    requires Inv(s) && u in s.clients
    requires ClientOk(s.log, u, cl) && NumbersOk(s.log.sent, u, cl) && DisplayOk(s.log, u, cl)
    requires Kept(s.log, s.clients[u := cl]) && Displayed(s.log, s.clients[u := cl])
    requires AllConns(s.log, conns) && SameOwners(s.conns, conns)
    requires Owned(s.clients[u := cl], conns, s.server.online)
    ensures Inv(s.(clients := s.clients[u := cl], conns := conns))
  {
    hide ClientOk, NumbersOk, DisplayOk, AllConns, Owned, Kept, Displayed, DbOk, LogOk, AllJobs, SameOwners;
    hide AllClients, AllNumbers, AllDisplays;
    ClientReplaced(s.log, s.clients, u, cl);
    NumbersReplaced(s.log.sent, s.clients, u, cl);
    DisplayReplaced(s.log, s.clients, u, cl);
    Unchanged(s.log);
    JobsGrow(s.log, s.log, s.conns, conns, s.server.jobs);
  }

  lemma Unchanged(l: Log)
    ensures Grows(l, l)
  {
  }

  /** What the invariant says about one client. */
  lemma ClientFacts(s: State, u: Name)
    requires Inv(s) && u in s.clients
    ensures ClientOk(s.log, u, s.clients[u]) && NumbersOk(s.log.sent, u, s.clients[u])
        && DisplayOk(s.log, u, s.clients[u])
    ensures s.clients[u].sock.Some? ==> Owns(s.conns, u, s.clients[u].sock.value)
  {
    hide ClientOk, NumbersOk, DisplayOk, Kept, Displayed, DbOk, LogOk, AllJobs, AllConns;
    assert AllClients(s.log, s.clients) && AllNumbers(s.log.sent, s.clients) && AllDisplays(s.log, s.clients);
  }

  lemma ConnFacts(s: State, c: nat)
    requires Inv(s) && c in s.conns
    ensures ConnOk(s.log, s.conns[c])
  {
    hide ConnOk, Owned, Kept, Displayed, DbOk, LogOk, AllJobs, AllClients, AllNumbers, AllDisplays;
  }

  /** Drawing a number, and a new connection state beside it. */
  lemma DrawnOk(s: State, u: Name, millis: int)
    requires Inv(s) && u in s.clients
    ensures var cl := Drawn(s.clients[u], millis);
      && ClientOk(s.log, u, cl) && NumbersOk(s.log.sent, u, cl) && DisplayOk(s.log, u, cl)
      && Kept(s.log, s.clients[u := cl]) && Displayed(s.log, s.clients[u := cl])
  {
    hide AllConns, DbOk, LogOk, AllJobs, Owned, Kept, Displayed, AllClients, AllNumbers, AllDisplays;
    ClientFacts(s, u);
    SameFile(s.log, s.clients, u, Drawn(s.clients[u], millis));
  }

  lemma DrawKeeps(s: State, u: Name, millis: int)
    requires Inv(s) && Enabled(s, Draw(u, millis))
    ensures Inv(After(s, Draw(u, millis)))
  {
    hide ClientOk, NumbersOk, DisplayOk, AllConns, DbOk, LogOk, AllJobs, Kept, Displayed, AllClients, AllNumbers;
    hide AllDisplays;
    DrawnOk(s, u, millis);
    NewClient(s, u, Drawn(s.clients[u], millis), s.conns);
  }

  /** Writing a frame that is right keeps a connection right; so does closing it. */
  lemma WrittenOk(l: Log, conn: Conn, f: Up)
    requires ConnOk(l, conn) && UpOk(l, conn.owner, f)
    ensures ConnOk(l, Written(conn, f)) && Written(conn, f).owner == conn.owner
  {
  }

  lemma ConnChanged(s: State, c: nat, conn: Conn)
    requires Inv(s) && c in s.conns && ConnOk(s.log, conn) && conn.owner == s.conns[c].owner
    ensures AllConns(s.log, s.conns[c := conn]) && SameOwners(s.conns, s.conns[c := conn])
    ensures Inv(WithConn(s, c, conn))
  {
    hide ConnOk, AllClients, AllNumbers, AllDisplays, Kept, Displayed, DbOk, LogOk, AllJobs, AllConns;
    ConnReplaced(s.log, s.conns, c, conn);
    Unchanged(s.log);
    JobsGrow(s.log, s.log, s.conns, s.conns[c := conn], s.server.jobs);
  }

  lemma TransmitKeeps(s: State, u: Name, n: int)
    requires Inv(s) && Enabled(s, Transmit(u, n))
    ensures Inv(After(s, Transmit(u, n)))
  {
    hide AllClients, AllNumbers, AllDisplays, Kept, Displayed, DbOk, LogOk, AllJobs, AllConns, ConnOk, Written;
    ClientFacts(s, u);
    var c := s.clients[u].sock.value;
    ConnFacts(s, c);
    assert ItemOk(s.log, u, n, s.clients[u].held[n]);
    WrittenOk(s.log, s.conns[c], Message(n, s.clients[u].held[n].msg));
    ConnChanged(s, c, Written(s.conns[c], Message(n, s.clients[u].held[n].msg)));
  }

  lemma UpdateKeeps(s: State, u: Name, n: int, attempts: nat, failed: bool)
    requires Inv(s) && Enabled(s, Update(u, n, attempts, failed))
    ensures Inv(After(s, Update(u, n, attempts, failed)))
  {
    hide AllClients, AllNumbers, AllDisplays, Kept, Displayed, DbOk, LogOk, AllJobs, AllConns;
    ClientFacts(s, u);
    var cl := PutItem(s.clients[u], n, Item(s.clients[u].held[n].msg, attempts, failed));
    assert ItemOk(s.log, u, n, s.clients[u].held[n]);
    SameFile(s.log, s.clients, u, cl);
    NewClient(s, u, cl, s.conns);
  }

  /** `send`: the number was never used, so nothing that was said about sent messages changes. */
  lemma SendKeeps(s: State, u: Name, n: int, m: Msg)
    requires Inv(s) && Enabled(s, Send(u, n, m))
    ensures Inv(After(s, Send(u, n, m)))
  {
    hide AllNumbers, AllDisplays, AllClients, Displayed, DbOk, AllJobs, AllConns, ClientOk, DisplayOk, NumbersOk;
    hide LogOk, Kept, Grows;
    ClientFacts(s, u);
    var k, cl0 := Key(u, n), s.clients[u];
    var l := s.log.(sent := s.log.sent[k := m]);
    var cl := PutItem(cl0, n, Item(m, 0, false)).(unused := cl0.unused - {n});
    SentClient(s.log, u, cl0, n, m);
    ClientsGrow(s.log, l, s.clients);
    DisplaysGrow(s.log, l, s.clients);
    ConnsGrow(s.log, l, s.conns);
    JobsGrow(s.log, l, s.conns, s.conns, s.server.jobs);
    NumbersGrow(s.log.sent, s.clients, u, n, m, cl);
    ClientReplaced(l, s.clients, u, cl);
    DisplayReplaced(l, s.clients, u, cl);
    SentLog(s.log, s.clients, u, n, m, cl);
    DbGrows(s.log, l, s.server.db);
    SentDisplayed(s.log, l, s.clients, u, cl);
  }

  lemma SentClient(l: Log, u: Name, cl: Client, n: int, m: Msg)
    requires ClientOk(l, u, cl) && DisplayOk(l, u, cl) && NumbersOk(l.sent, u, cl) && n in cl.unused
    ensures var l' := l.(sent := l.sent[Key(u, n) := m]);
      var cl' := PutItem(cl, n, Item(m, 0, false)).(unused := cl.unused - {n});
      && Key(u, n) !in l.sent && Grows(l, l')
      && ClientOk(l', u, cl') && DisplayOk(l', u, cl') && NumbersOk(l'.sent, u, cl')
  {
  }

  lemma NumbersGrow(sent: map<Key, Msg>, clients: map<Name, Client>, u: Name, n: int, m: Msg, cl: Client)
    requires AllNumbers(sent, clients) && NumbersOk(sent[Key(u, n) := m], u, cl)
    ensures AllNumbers(sent[Key(u, n) := m], clients[u := cl])
  {
    var after, sent' := clients[u := cl], sent[Key(u, n) := m];
    forall v | v in after ensures NumbersOk(sent', v, after[v]) {
      if v != u { assert NumbersOk(sent, v, clients[v]); }
    }
  }

  lemma SentLog(l: Log, clients: map<Name, Client>, u: Name, n: int, m: Msg, cl: Client)
    requires LogOk(l) && Kept(l, clients) && Key(u, n) !in l.sent && u in clients
    requires n in cl.pending.items && clients[u].pending.items.Keys <= cl.pending.items.Keys
    ensures LogOk(l.(sent := l.sent[Key(u, n) := m])) && Kept(l.(sent := l.sent[Key(u, n) := m]), clients[u := cl])
  {
    var l' := l.(sent := l.sent[Key(u, n) := m]);
    forall k | k in l'.accepted ensures Genuine(l', k, l'.accepted[k]) {
      assert Genuine(l, k, l.accepted[k]);
    }
  }

  lemma SentDisplayed(l: Log, l': Log, clients: map<Name, Client>, u: Name, cl: Client)
    requires Displayed(l, clients) && l' == l.(sent := l'.sent) && u in clients && cl.inHand == clients[u].inHand
    ensures Displayed(l', clients[u := cl])
  {
  }

  lemma ConnectKeeps(s: State, u: Name, c: nat)
    requires Inv(s) && Enabled(s, Connect(u, c))
    ensures Inv(After(s, Connect(u, c)))
  {
    hide AllNumbers, AllDisplays, AllClients, Kept, Displayed, DbOk, AllJobs, AllConns, LogOk, NumbersOk;
    ClientFacts(s, u);
    var cl := s.clients[u].(sock := Some(c));
    var conns := s.conns[c := Conn(u, false, [], [], true)];
    ConnReplaced(s.log, s.conns, c, Conn(u, false, [], [], true));
    SameFile(s.log, s.clients, u, cl);
    SameNumbers(s.log.sent, u, s.clients[u], cl);
    NewClient(s, u, cl, conns);
  }

  lemma SameNumbers(sent: map<Key, Msg>, u: Name, cl: Client, cl': Client)
    requires NumbersOk(sent, u, cl) && cl'.unused <= cl.unused && cl'.pending.nextSeq == cl.pending.nextSeq
    ensures NumbersOk(sent, u, cl')
  {
  }

  lemma LogInKeeps(s: State, u: Name, millis: int)
    requires Inv(s) && Enabled(s, LogIn(u, millis))
    ensures Inv(After(s, LogIn(u, millis)))
  {
    hide AllNumbers, AllDisplays, AllClients, Kept, Displayed, DbOk, AllJobs, AllConns, LogOk, NumbersOk, Owned;
    hide ClientOk, DisplayOk, ConnOk, Written;
    ClientFacts(s, u);
    var c := s.clients[u].sock.value;
    ConnFacts(s, c);
    WrittenOk(s.log, s.conns[c], Login);
    ConnChanged(s, c, Written(s.conns[c], Login));
    DrawnOk(s, u, millis);
    SameSocket(s.clients, s.conns, s.server.online, u, Drawn(s.clients[u], millis), c, Written(s.conns[c], Login));
    NewClient(s, u, Drawn(s.clients[u], millis), s.conns[c := Written(s.conns[c], Login)]);
  }

  lemma DropSocketKeeps(s: State, u: Name)
    requires Inv(s) && Enabled(s, DropSocket(u))
    ensures Inv(After(s, DropSocket(u)))
  {
    hide AllNumbers, AllDisplays, AllClients, Kept, Displayed, DbOk, AllJobs, AllConns, LogOk, NumbersOk, Owned;
    ClientFacts(s, u);
    var c, cl := s.clients[u].sock.value, s.clients[u].(sock := None);
    ConnFacts(s, c);
    ConnChanged(s, c, Closed(s.conns[c]));
    SameNumbers(s.log.sent, u, s.clients[u], cl);
    SameFile(s.log, s.clients, u, cl);
    SameSocket(s.clients, s.conns, s.server.online, u, cl, c, Closed(s.conns[c]));
    NewClient(s, u, cl, s.conns[c := Closed(s.conns[c])]);
  }

  // ---------- incoming frames ----------

  /** The connection behind the first frame. */
  lemma Popped(s: State, u: Name)
    requires Inv(s) && HasSocket(s, u) && s.conns[s.clients[u].sock.value].down != []
    ensures var c := s.clients[u].sock.value;
      && s.conns[c].owner == u && DownOk(s.log, u, s.conns[c].down[0])
      && ConnOk(s.log, s.conns[c].(down := s.conns[c].down[1..]))
  {
    hide AllNumbers, AllDisplays, AllClients, Kept, Displayed, DbOk, AllJobs, LogOk, NumbersOk, DisplayOk, ClientOk;
    ClientFacts(s, u);
    ConnFacts(s, s.clients[u].sock.value);
  }

  /** An ACK removes an item; the message is on the server by then. */
  lemma AckKeeps(s: State, u: Name, millis: int, wrote: bool)
    requires Inv(s) && Enabled(s, Dispatch(u, millis, wrote)) && s.conns[s.clients[u].sock.value].down[0].Ack?
    ensures Inv(After(s, Dispatch(u, millis, wrote)))
  {
    hide AllNumbers, AllDisplays, AllClients, Displayed, DbOk, AllJobs, AllConns, LogOk, NumbersOk, Owned, ConnOk;
    ClientFacts(s, u);
    Popped(s, u);
    var c, cl0 := s.clients[u].sock.value, s.clients[u];
    var n := s.conns[c].down[0].seqNo;
    var cl := cl0.(pending := cl0.pending.(items := cl0.pending.items - {n}));
    var conn := s.conns[c].(down := s.conns[c].down[1..]);
    ConnChanged(s, c, conn);
    SameNumbers(s.log.sent, u, cl0, cl);
    SameSocket(s.clients, s.conns, s.server.online, u, cl, c, conn);
    SameHand(s.log, s.clients, u, cl);
    NewClient(s, u, cl, s.conns[c := conn]);
  }

  lemma SameHand(l: Log, clients: map<Name, Client>, u: Name, cl: Client)
    requires Displayed(l, clients) && u in clients && cl.inHand == clients[u].inHand
    ensures Displayed(l, clients[u := cl])
  {
  }

  lemma NackKeeps(s: State, u: Name, millis: int, wrote: bool)
    requires Inv(s) && Enabled(s, Dispatch(u, millis, wrote)) && s.conns[s.clients[u].sock.value].down[0].Nack?
    ensures Inv(After(s, Dispatch(u, millis, wrote)))
  {
    hide AllNumbers, AllDisplays, AllClients, Displayed, DbOk, AllJobs, AllConns, LogOk, NumbersOk, Owned, ConnOk, Kept;
    ClientFacts(s, u);
    Popped(s, u);
    var c, cl0 := s.clients[u].sock.value, s.clients[u];
    var n := s.conns[c].down[0].seqNo;
    var cl := if n in cl0.pending.items then PutItem(cl0, n, cl0.pending.items[n].(failed := true)) else cl0;
    assert n in cl0.pending.items ==> ItemOk(s.log, u, n, cl0.pending.items[n]);
    var conn := s.conns[c].(down := s.conns[c].down[1..]);
    ConnChanged(s, c, conn);
    SameNumbers(s.log.sent, u, cl0, cl);
    SameSocket(s.clients, s.conns, s.server.online, u, cl, c, conn);
    SameFile(s.log, s.clients, u, cl);
    NewClient(s, u, cl, s.conns[c := conn]);
  }

  /** A frame that a client read: recorded first, with nothing else changed. */
  lemma ReceivedKeeps(s: State, u: Name, k: Key)
    requires Inv(s) && u in s.clients && k in s.log.accepted
    requires s.log.accepted[k].to == ALL || s.log.accepted[k].to == u
    ensures var l := s.log.(received := s.log.received + {(u, k)});
      && AllClients(l, s.clients) && AllDisplays(l, s.clients) && AllConns(l, s.conns)
      && AllJobs(l, s.conns, s.server.jobs) && DbOk(l, s.server.db) && LogOk(l) && Kept(l, s.clients)
      && Grows(s.log, l)
  {
    hide AllNumbers, AllDisplays, AllClients, Displayed, AllJobs, AllConns, Owned, DbOk, LogOk, Kept, Grows;
    var l := s.log.(received := s.log.received + {(u, k)});
    ReceivedLog(s.log, s.server.db, s.clients, u, k);
    SameOwnersSelf(s.conns);
    ClientsGrow(s.log, l, s.clients);
    DisplaysGrow(s.log, l, s.clients);
    ConnsGrow(s.log, l, s.conns);
    JobsGrow(s.log, l, s.conns, s.conns, s.server.jobs);
  }

  lemma ReceivedLog(l: Log, db: Db, clients: map<Name, Client>, u: Name, k: Key)
    requires DbOk(l, db) && LogOk(l) && Kept(l, clients)
    requires k in l.accepted && (l.accepted[k].to == ALL || l.accepted[k].to == u)
    ensures var l' := l.(received := l.received + {(u, k)});
      DbOk(l', db) && LogOk(l') && Kept(l', clients) && Grows(l, l')
  {
    hide DbOk, Kept;
    var l' := l.(received := l.received + {(u, k)});
    assert Grows(l, l');
    DbGrows(l, l', db);
    LogSameMessages(l, l');
    SameKept(l, l', clients);
  }

  lemma LogSameMessages(l: Log, l': Log)
    requires LogOk(l) && l'.sent == l.sent && l'.accepted == l.accepted && l'.acceptances == l.acceptances
        && l'.undone == l.undone
    requires forall r :: r in l'.received && r !in l.received ==>
      r.1 in l.accepted && (l.accepted[r.1].to == ALL || l.accepted[r.1].to == r.0)
    ensures LogOk(l')
  {
    forall k | k in l'.accepted ensures Genuine(l', k, l'.accepted[k]) {
      assert Genuine(l, k, l.accepted[k]);
    }
  }

  lemma SameKept(l: Log, l': Log, clients: map<Name, Client>)
    requires Kept(l, clients) && l'.sent == l.sent && l'.accepted == l.accepted
    ensures Kept(l', clients)
  {
  }

  /** What travels has the recipient of what was accepted. */
  lemma SameRecipient(s: State, k: Key, m: Msg)
    requires Inv(s) && k in s.log.accepted && Genuine(s.log, k, m)
    ensures s.log.accepted[k].to == m.to
  {
    hide AllNumbers, AllDisplays, AllClients, Displayed, AllJobs, AllConns, Owned, DbOk, Kept;
    assert Genuine(s.log, k, s.log.accepted[k]);
  }

  /** `_rx_seen` decides whether the message is displayed. */
  function Noticed(cl: Client, k: Key): Client {
    if k in cl.rxSeen then cl else cl.(rxSeen := cl.rxSeen + {k}, inHand := Some(k))
  }

  lemma NoticedOk(l: Log, u: Name, cl: Client, k: Key)
    requires DisplayOk(l, u, cl) && cl.inHand.None?
    ensures DisplayOk(l.(received := l.received + {(u, k)}), u, Noticed(cl, k))
  {
    var l' := l.(received := l.received + {(u, k)});
    assert (u, k) in l'.received;
    assert k !in cl.rxSeen ==> k !in cl.displayed;
  }

  lemma NoticedDisplayed(l: Log, clients: map<Name, Client>, u: Name, cl: Client, k: Key)
    requires Displayed(l, clients) && u in clients && clients[u].inHand.None? && DisplayOk(l, u, clients[u])
    requires cl.inHand == Noticed(clients[u], k).inHand
    ensures Displayed(l.(received := l.received + {(u, k)}), clients[u := cl])
  {
    var l', after := l.(received := l.received + {(u, k)}), clients[u := cl];
    forall r | r in l'.received
      ensures r in l'.shown || r in l'.vanished || (r.0 in after && after[r.0].inHand == Some(r.1))
    {
      assert r != (u, k) ==> r in l.received;
    }
  }

  /** A chat message: confirmed, checked against what this process has seen, and perhaps about to be shown. */
  lemma RelayKeeps(s: State, u: Name, millis: int, wrote: bool)
    requires Inv(s) && Enabled(s, Dispatch(u, millis, wrote)) && s.conns[s.clients[u].sock.value].down[0].Relay?
    ensures Inv(After(s, Dispatch(u, millis, wrote)))
  {
    hide AllNumbers, AllDisplays, AllClients, Displayed, DbOk, AllJobs, AllConns, LogOk, NumbersOk, Owned, ConnOk, Kept;
    hide ClientOk, DisplayOk, Drawn, Written, Grows;
    Popped(s, u);
    ClientFacts(s, u);
    var c, cl0 := s.clients[u].sock.value, s.clients[u];
    var Relay(k, m) := s.conns[c].down[0];
    var l := s.log.(received := s.log.received + {(u, k)});
    SameRecipient(s, k, m);
    ReceivedKeeps(s, u, k);
    var confirm := Private(m) && k.seqNo > 0;
    var cl1 := if confirm then Drawn(cl0, millis) else cl0;
    var conn1 := s.conns[c].(down := s.conns[c].down[1..]);
    var conn2 := if confirm && wrote then Written(conn1, E2eAck(k)) else conn1;
    DrawnOk(s, u, millis);
    DrawnSame(cl0, millis);
    PartGrows(s.log, l, u, cl1, conn1);
    assert (u, k) in l.received;
    WrittenOk(l, conn1, E2eAck(k));
    var cl2 := Noticed(cl1, k);
    NoticedOk(s.log, u, cl1, k);
    NoticedSame(l, s.log.sent, u, cl1, k);
    NoticedDisplayed(s.log, s.clients, u, cl2, k);
    ConnReplaced(l, s.conns, c, conn2);
    SameSocket(s.clients, s.conns, s.server.online, u, cl2, c, conn2);
    ClientReplaced(l, s.clients, u, cl2);
    NumbersReplaced(s.log.sent, s.clients, u, cl2);
    DisplayReplaced(l, s.clients, u, cl2);
    KeptSame(l, s.clients, u, cl2);
    Unchanged(l);
    JobsSameOwners(l, s.conns, c, conn2, s.server.jobs);
  }

  lemma DrawnSame(cl: Client, millis: int)
    ensures Drawn(cl, millis) == cl.(pending := Drawn(cl, millis).pending, unused := Drawn(cl, millis).unused)
    ensures Drawn(cl, millis).pending.items == cl.pending.items
  {
  }

  lemma PartGrows(l: Log, l': Log, u: Name, cl: Client, conn: Conn)
    requires Grows(l, l') && ClientOk(l, u, cl) && ConnOk(l, conn)
    ensures ClientOk(l', u, cl) && ConnOk(l', conn)
  {
  }

  lemma NoticedSame(l: Log, sent: map<Key, Msg>, u: Name, cl: Client, k: Key)
    requires ClientOk(l, u, cl) && NumbersOk(sent, u, cl)
    ensures ClientOk(l, u, Noticed(cl, k)) && NumbersOk(sent, u, Noticed(cl, k))
  {
  }

  lemma KeptSame(l: Log, clients: map<Name, Client>, u: Name, cl: Client)
    requires Kept(l, clients) && u in clients && cl.pending.items == clients[u].pending.items
    ensures Kept(l, clients[u := cl])
  {
  }

  lemma JobsSameOwners(l: Log, conns: map<nat, Conn>, c: nat, conn: Conn, jobs: multiset<Job>)
    requires AllJobs(l, conns, jobs) && c in conns && conn.owner == conns[c].owner
    ensures AllJobs(l, conns[c := conn], jobs)
  {
    forall j | j in jobs ensures JobOk(l, conns[c := conn], j) {
      assert JobOk(l, conns, j);
    }
  }

  lemma ShowKeeps(s: State, u: Name)
    requires Inv(s) && Enabled(s, Show(u))
    ensures Inv(After(s, Show(u)))
  {
    hide AllNumbers, AllDisplays, AllClients, Displayed, DbOk, AllJobs, AllConns, LogOk, NumbersOk, Owned, ConnOk, Kept;
    hide ClientOk, DisplayOk, Grows;
    ClientFacts(s, u);
    var cl0 := s.clients[u];
    var k := cl0.inHand.value;
    var l := s.log.(shown := s.log.shown + {(u, k)});
    var cl := cl0.(inHand := None, displayed := cl0.displayed + [k]);
    ShowGrows(s.log, u, k);
    ShowDisplay(s.log, u, cl0);
    SameNumbers(s.log.sent, u, cl0, cl);
    ClientsGrow(s.log, l, s.clients);
    DisplaysGrow(s.log, l, s.clients);
    ConnsGrow(s.log, l, s.conns);
    SameOwnersSelf(s.conns);
    JobsGrow(s.log, l, s.conns, s.conns, s.server.jobs);
    PartGrows(s.log, l, u, cl0, NO_CONN);
    ItemsOnly(l, u, cl0, cl);
    ClientReplaced(l, s.clients, u, cl);
    NumbersReplaced(s.log.sent, s.clients, u, cl);
    DisplayReplaced(l, s.clients, u, cl);
    ShownLog(s.log, l, s.server.db, s.clients);
    KeptSame(l, s.clients, u, cl);
    ShownDisplayed(s.log, s.clients, u, cl);
    SocketKept(s.clients, s.conns, s.server.online, u, cl);
  }

  const NO_CONN := Conn([], false, [], [], false)

  lemma SameOwnersSelf(conns: map<nat, Conn>)
    ensures SameOwners(conns, conns)
  {
  }

  lemma ShowGrows(l: Log, u: Name, k: Key)
    ensures Grows(l, l.(shown := l.shown + {(u, k)}))
    ensures ConnOk(l, NO_CONN)
  {
  }

  lemma ShowDisplay(l: Log, u: Name, cl: Client)
    requires DisplayOk(l, u, cl) && cl.inHand.Some?
    ensures var k := cl.inHand.value;
      DisplayOk(l.(shown := l.shown + {(u, k)}), u, cl.(inHand := None, displayed := cl.displayed + [k]))
  {
    var k := cl.inHand.value;
    var cl' := cl.(inHand := None, displayed := cl.displayed + [k]);
    assert k !in cl.displayed;
    forall i, j | 0 <= i < j < |cl'.displayed| ensures cl'.displayed[i] != cl'.displayed[j] {
      assert cl'.displayed[i] == cl.displayed[i] && cl.displayed[i] in cl.displayed;
    }
  }

  lemma ItemsOnly(l: Log, u: Name, cl: Client, cl': Client)
    requires ClientOk(l, u, cl) && cl'.pending == cl.pending && cl'.held == cl.held
    ensures ClientOk(l, u, cl')
  {
  }

  lemma ShownDisplayed(l: Log, clients: map<Name, Client>, u: Name, cl: Client)
    requires Displayed(l, clients) && u in clients && clients[u].inHand.Some?
    ensures Displayed(l.(shown := l.shown + {(u, clients[u].inHand.value)}), clients[u := cl])
  {
  }

  lemma SocketKept(clients: map<Name, Client>, conns: map<nat, Conn>, online: map<Name, nat>, u: Name, cl: Client)
    requires Owned(clients, conns, online) && u in clients && (cl.sock == clients[u].sock || cl.sock.None?)
    ensures Owned(clients[u := cl], conns, online)
  {
  }

  lemma ShownLog(l: Log, l': Log, db: Db, clients: map<Name, Client>)
    requires l' == l.(shown := l'.shown, vanished := l'.vanished) && DbOk(l, db) && LogOk(l) && Kept(l, clients)
    requires l.shown <= l'.shown
    ensures DbOk(l', db) && LogOk(l') && Kept(l', clients)
  {
    hide DbOk, LogOk, Kept;
    DbGrows(l, l', db);
    LogSameMessages(l, l');
    SameKept(l, l', clients);
  }

  /** kill -9: the file survives, and what was in hand is noted as vanished. */
  lemma KillKeeps(s: State, u: Name)
    requires Inv(s) && Enabled(s, Kill(u))
    ensures Inv(After(s, Kill(u)))
  {
    hide AllNumbers, AllDisplays, AllClients, Displayed, DbOk, AllJobs, AllConns, LogOk, NumbersOk, Owned, ConnOk, Kept;
    hide Grows;
    ClientFacts(s, u);
    var cl0 := s.clients[u];
    var cl := Client(cl0.pending, cl0.pending.items, {}, None, {}, None, []);
    var l := After(s, Kill(u)).log;
    var s1 := if HasSocket(s, u) then WithConn(s, cl0.sock.value, Closed(s.conns[cl0.sock.value])) else s;
    if HasSocket(s, u) {
      ConnFacts(s, cl0.sock.value);
      ClosedOk(s.log, s.conns[cl0.sock.value]);
      ConnChanged(s, cl0.sock.value, Closed(s.conns[cl0.sock.value]));
    }
    SameNumbers(s.log.sent, u, cl0, cl);
    VanishGrows(s.log, l);
    ClientsGrow(s.log, l, s1.clients);
    DisplaysGrow(s.log, l, s1.clients);
    ConnsGrow(s.log, l, s1.conns);
    SameOwnersSelf(s1.conns);
    JobsGrow(s.log, l, s1.conns, s1.conns, s1.server.jobs);
    ClientReplaced(l, s1.clients, u, cl);
    NumbersReplaced(s.log.sent, s1.clients, u, cl);
    DisplayReplaced(l, s1.clients, u, cl);
    ShownLog(s.log, l, s1.server.db, s1.clients);
    KeptSame(l, s1.clients, u, cl);
    VanishedDisplayed(s.log, s1.clients, u, cl);
    SocketKept(s1.clients, s1.conns, s1.server.online, u, cl);
  }

  lemma ClosedOk(l: Log, conn: Conn)
    requires ConnOk(l, conn)
    ensures ConnOk(l, Closed(conn)) && ConnOk(l, Closed(conn).(login := false))
  {
  }

  lemma VanishGrows(l: Log, l': Log)
    requires l' == l.(vanished := l'.vanished)
    ensures Grows(l, l')
  {
  }

  lemma VanishedDisplayed(l: Log, clients: map<Name, Client>, u: Name, cl: Client)
    requires Displayed(l, clients) && u in clients && cl.inHand.None?
    ensures var k := clients[u].inHand;
      Displayed(if k.Some? then l.(vanished := l.vanished + {(u, k.value)}) else l, clients[u := cl])
  {
  }
}
