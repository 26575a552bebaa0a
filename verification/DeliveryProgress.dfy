/** No reachable state is a dead end: what was sent between valid users can still arrive. */
module DeliveryProgress {
  import opened Collections
  import opened Delivery
  import opened DeliveryMachine
  import opened DeliveryInvariant
  import opened DeliverySteps
  import opened DeliveryRuns

  /** Some events, none with a failing COMMIT, lead from one state to the other. */
  ghost predicate CanBecome(s: State, t: State) { exists events :: AllSound(events) && Leads(s, events, t) }

  lemma CanStay(s: State)
    ensures CanBecome(s, s)
  {
    assert AllSound([]) && Leads(s, [], s);
  }

  lemma CanStep(s: State, e: Event)
    requires Enabled(s, e) && Sound(e)
    ensures CanBecome(s, After(s, e))
  {
    assert [e][1..] == [];
    assert AllSound([e]) && Leads(s, [e], After(s, e));
  }

  lemma CanFollow(s: State, t: State, r: State)
    requires CanBecome(s, t) && CanBecome(t, r)
    ensures CanBecome(s, r)
  {
    hide Leads;
    var first :| AllSound(first) && Leads(s, first, t);
    var more :| AllSound(more) && Leads(t, more, r);
    LeadsOn(s, first, t, more, r);
    assert AllSound(first + more);
  }

  /** One more step. */
  lemma Then(s: State, t: State, e: Event)
    requires CanBecome(s, t) && Inv(t) && Enabled(t, e) && Sound(e)
    ensures CanBecome(s, After(t, e)) && Inv(After(t, e))
  {
    hide Inv, CanBecome, After, Enabled;
    CanStep(t, e);
    CanFollow(s, t, After(t, e));
    StepKeeps(t, e);
  }

  /** What a client's own steps leave as it was. */
  ghost predicate Keeps(s: State, t: State, u: Name) {
    && t.log.sent == s.log.sent && t.log.accepted == s.log.accepted && t.log.received == s.log.received
    && t.log.undone == s.log.undone && t.clients.Keys == s.clients.Keys
    && t.server.db == s.server.db && s.server.jobs <= t.server.jobs
    && u in s.clients && t.clients[u].pending.items == s.clients[u].pending.items
    && t.clients[u].held == s.clients[u].held
  }

  /** Nothing changes for the other users: their clients, their connections, the frames about to be written to them. */
  ghost predicate Apart(s: State, t: State, u: Name) {
    && t.clients.Keys == s.clients.Keys && s.log.shown <= t.log.shown && SameOwners(s.conns, t.conns)
    && (forall v {:trigger t.clients[v]} :: v in s.clients && v != u ==> t.clients[v] == s.clients[v])
    && (forall c {:trigger t.conns[c]} :: c in s.conns && s.conns[c].owner != u ==> t.conns[c] == s.conns[c])
    && (forall c, f {:trigger Write(c, f)} :: c in s.conns && s.conns[c].owner != u && Write(c, f) in s.server.jobs ==>
          Write(c, f) in t.server.jobs)
    && (forall v {:trigger v in t.server.online} {:trigger v in s.server.online} :: v != u ==>
          (v in t.server.online <==> v in s.server.online)
          && (v in s.server.online ==> t.server.online[v] == s.server.online[v]))
  }

  lemma ApartOn(s: State, t: State, r: State, u: Name)
    requires Apart(s, t, u) && Apart(t, r, u)
    ensures Apart(s, r, u)
  {
    assert forall c :: c in s.conns ==> c in t.conns;
  }

  lemma ApartSelf(s: State, u: Name)
    ensures Apart(s, s, u)
  {
  }

  /** Steps of one user's client, of the server on one of its connections, and writes to them. */
  predicate Own(s: State, e: Event, u: Name) {
    match e
    case Show(v) => v == u
    case DropSocket(v) => v == u
    case Connect(v, _) => v == u
    case LogIn(v, _) => v == u
    case Update(v, _, _, _) => v == u
    case Transmit(v, _) => v == u
    case Dispatch(v, _, _) => v == u
    case Handle(c, _, _) => c in s.conns && s.conns[c].owner == u
    case Run(j, _) => j.Write? && j.conn in s.conns && s.conns[j.conn].owner == u
    case _ => false
  }

  lemma ClientApart(s: State, e: Event, u: Name)
    requires Enabled(s, e) && Own(s, e, u) && !e.Handle? && !e.Run? && !e.Dispatch?
    requires s.clients[u].sock.Some? ==> Owns(s.conns, u, s.clients[u].sock.value)
    ensures Apart(s, After(s, e), u)
  {
    hide Handled, Dispatched, Killed, JobDone, HungUp, Restarted, Drawn, PutItem, Written;
    if e.LogIn? { WrittenOwner(s.conns[s.clients[u].sock.value], Login); }
    if e.Transmit? { WrittenOwner(s.conns[s.clients[u].sock.value], Message(e.seqNo, s.clients[u].held[e.seqNo].msg)); }
  }

  lemma WrittenOwner(conn: Conn, f: Up)
    ensures Written(conn, f).owner == conn.owner
  {
  }

  lemma DispatchApart(s: State, e: Event, u: Name)
    requires Enabled(s, e) && Own(s, e, u) && e.Dispatch? && s.conns[s.clients[u].sock.value].owner == u
    ensures Apart(s, After(s, e), u)
  {
    hide Handled, Killed, JobDone, HungUp, Restarted, Drawn;
  }

  lemma WriteApart(s: State, e: Event, u: Name)
    requires Enabled(s, e) && Own(s, e, u) && e.Run?
    ensures Apart(s, After(s, e), u)
  {
    hide Handled, Dispatched, Killed, HungUp, Restarted;
  }

  lemma LoginApart(s: State, c: nat, u: Name)
    requires c in s.conns && s.conns[c].owner == u
    requires u in s.server.online ==> Owns(s.conns, u, s.server.online[u])
    ensures Apart(s, LoggedIn(s, c), u)
  {
    hide ValidName;
  }

  lemma MessageApart(s: State, c: nat, n: int, m: Msg, now: int, fault: Fault, u: Name)
    requires c in s.conns && s.conns[c].owner == u
    ensures Apart(s, MessageHandled(s, c, n, m, now, fault), u)
  {
    hide ValidName, Accept;
  }

  lemma HandleApart(s: State, e: Event, u: Name)
    requires Inv(s) && Enabled(s, e) && Own(s, e, u) && e.Handle?
    ensures Apart(s, After(s, e), u)
  {
    hide LoggedIn, MessageHandled, Delete, Apart, Inv;
    var c := e.conn;
    var conn := s.conns[c];
    var s1 := WithConn(s, c, conn.(up := conn.up[1..]));
    OnlineOwned(s);
    PopApart(s, c, u);
    ApartSelf(s1, u);
    match conn.up[0] {
      case Login => LoginApart(s1, c, u);
      case Message(n, m) => MessageApart(s1, c, n, m, e.now, e.fault, u);
      case E2eAck(k) => DeleteApart(s1, s1.(server := s1.server.(db := Delete(s1.server.db, u, k))), u);
    }
    ApartOn(s, s1, After(s, e), u);
  }

  lemma PopApart(s: State, c: nat, u: Name)
    requires c in s.conns && s.conns[c].owner == u && s.conns[c].up != []
    ensures Apart(s, WithConn(s, c, s.conns[c].(up := s.conns[c].up[1..])), u)
  {
  }

  lemma DeleteApart(s: State, t: State, u: Name)
    requires t == s.(server := s.server.(db := t.server.db))
    ensures Apart(s, t, u)
  {
  }

  lemma OnlineOwned(s: State)
    requires Inv(s)
    ensures forall u :: u in s.server.online ==> Owns(s.conns, u, s.server.online[u])
  {
    hide AllClients, AllNumbers, AllDisplays, AllConns, AllJobs, DbOk, LogOk, Kept, Displayed;
  }

  lemma SocketOwned(s: State, u: Name)
    requires Inv(s) && u in s.clients && s.clients[u].sock.Some?
    ensures Owns(s.conns, u, s.clients[u].sock.value)
  {
    hide Inv;
    ClientFacts(s, u);
  }

  /** One more step, of one user. */
  lemma ThenApart(s: State, t: State, e: Event, u: Name)
    requires CanBecome(s, t) && Inv(t) && Enabled(t, e) && Sound(e) && Apart(s, t, u) && Own(t, e, u)
    ensures CanBecome(s, After(t, e)) && Inv(After(t, e)) && Apart(s, After(t, e), u)
  {
    hide Inv, CanBecome, After, Apart;
    Then(s, t, e);
    OwnerIsClient(t, e, u);
    if u in t.clients && t.clients[u].sock.Some? { SocketOwned(t, u); }
    match e {
      case Handle(_, _, _) => HandleApart(t, e, u);
      case Run(_, _) => WriteApart(t, e, u);
      case Dispatch(_, _, _) => DispatchApart(t, e, u);
      case _ => ClientApart(t, e, u);
    }
    ApartOn(s, t, After(t, e), u);
  }

  lemma OwnerIsClient(s: State, e: Event, u: Name)
    requires Enabled(s, e) && Own(s, e, u)
    ensures e.Handle? || e.Run? || u in s.clients
  {
  }

  /** Not connected, and no message in hand. */
  predicate Quiet(s: State, u: Name) { u in s.clients && s.clients[u].inHand.None? && s.clients[u].sock.None? }

  lemma ShowQuietly(s: State, u: Name)
    requires Enabled(s, Show(u))
    ensures Keeps(s, After(s, Show(u)), u) && After(s, Show(u)).clients[u].inHand.None?
  {
    hide Handled, Dispatched, Killed, JobDone, HungUp, Restarted;
  }

  lemma DropQuietly(s: State, u: Name)
    requires Enabled(s, DropSocket(u))
    ensures Keeps(s, After(s, DropSocket(u)), u)
    ensures var cl := After(s, DropSocket(u)).clients[u]; cl.sock.None? && cl.inHand == s.clients[u].inHand
  {
    hide Handled, Dispatched, Killed, JobDone, HungUp, Restarted;
  }

  lemma Settle(s: State, u: Name) returns (t: State)
    requires Inv(s) && u in s.clients
    ensures CanBecome(s, t) && Inv(t) && Keeps(s, t, u) && Quiet(t, u) && Apart(s, t, u)
  {
    hide Inv, CanBecome, After, Apart;
    t := s;
    CanStay(s);
    ApartSelf(s, u);
    if s.clients[u].inHand.Some? {
      ShowQuietly(s, u);
      ThenApart(s, s, Show(u), u);
      t := After(s, Show(u));
    }
    if t.clients[u].sock.Some? {
      ClientFacts(t, u);
      DropQuietly(t, u);
      ThenApart(s, t, DropSocket(u), u);
      t := After(t, DropSocket(u));
    }
  }

  // ---------- a fresh session ----------

  lemma {:induction false} FreshNumber(s: set<nat>) returns (n: nat)
    ensures forall m :: m in s ==> m < n
  {
    if s == {} {
      n := 0;
    } else {
      var m :| m in s;
      n := FreshNumber(s - {m});
      assert forall k :: k in s && k != m ==> k in s - {m};
      if n <= m { n := m + 1; }
    }
  }

  /** A session of `u` on connection `c`, with nothing under way and the push of stored rows still to come. */
  predicate InSession(s: State, u: Name, c: nat) {
    && u in s.clients && s.clients[u].inHand.None? && s.clients[u].sock == Some(c)
    && c in s.conns && s.conns[c] == Conn(u, true, [], [], true)
    && u in s.server.online && s.server.online[u] == c && Backfill(c) in s.server.jobs
  }

  lemma ConnectFirst(s: State, u: Name, c: nat)
    requires Quiet(s, u) && c !in s.conns
    ensures Enabled(s, Connect(u, c))
    ensures var t := After(s, Connect(u, c));
      && Keeps(s, t, u) && u in t.clients && t.clients[u].inHand.None? && t.clients[u].sock == Some(c)
          && t.server == s.server
      && c in t.conns && t.conns[c] == Conn(u, false, [], [], true)
  {
    hide Handled, Dispatched, Killed, JobDone, HungUp, Restarted;
  }

  lemma LogInNext(s: State, u: Name, c: nat)
    requires u in s.clients && s.clients[u].inHand.None? && s.clients[u].sock == Some(c)
    requires c in s.conns && s.conns[c] == Conn(u, false, [], [], true)
    ensures Enabled(s, LogIn(u, 0))
    ensures var t := After(s, LogIn(u, 0));
      && Keeps(s, t, u) && u in t.clients && t.clients[u].inHand.None? && t.clients[u].sock == Some(c)
          && t.server == s.server
      && c in t.conns && t.conns[c] == Conn(u, false, [Login], [], true)
  {
    hide Handled, Dispatched, Killed, JobDone, HungUp, Restarted;
  }

  lemma LoginHandled(s: State, u: Name, c: nat)
    requires u in s.clients && s.clients[u].inHand.None? && s.clients[u].sock == Some(c) && ValidName(u)
    requires c in s.conns && s.conns[c] == Conn(u, false, [Login], [], true)
    requires u in s.server.online ==> s.server.online[u] != c
    ensures Enabled(s, Handle(c, 1, Fine))
    ensures var t := After(s, Handle(c, 1, Fine)); Keeps(s, t, u) && InSession(t, u, c)
  {
    hide MessageHandled, Dispatched, Killed, JobDone, HungUp, Restarted, Delete, ValidName;
    assert [Login][1..] == [];
  }

  lemma NotOnline(s: State, u: Name, c: nat)
    requires Inv(s) && c !in s.conns
    ensures u in s.server.online ==> s.server.online[u] != c
  {
    hide AllClients, AllNumbers, AllDisplays, AllConns, AllJobs, DbOk, LogOk, Kept, Displayed;
  }

  lemma KeepsOn(s: State, t: State, r: State, u: Name)
    requires Keeps(s, t, u) && Keeps(t, r, u)
    ensures Keeps(s, r, u)
  {
  }

  /** From any reachable state a user with a valid name can get a session. */
  lemma Join(s: State, u: Name) returns (t: State, c: nat)
    requires Inv(s) && u in s.clients && ValidName(u)
    ensures CanBecome(s, t) && Inv(t) && Keeps(s, t, u) && InSession(t, u, c) && Apart(s, t, u)
  {
    hide Inv, CanBecome, After, Enabled, ValidName, Keeps, Apart;
    var s0 := Settle(s, u);
    c := FreshNumber(s0.conns.Keys);
    assert c !in s0.conns.Keys;
    NotOnline(s0, u, c);
    ConnectFirst(s0, u, c);
    ThenApart(s, s0, Connect(u, c), u);
    var s1 := After(s0, Connect(u, c));
    LogInNext(s1, u, c);
    ThenApart(s, s1, LogIn(u, 0), u);
    var s2 := After(s1, LogIn(u, 0));
    LoginHandled(s2, u, c);
    ThenApart(s, s2, Handle(c, 1, Fine), u);
    t := After(s2, Handle(c, 1, Fine));
    KeepsOn(s, s0, s1, u);
    KeepsOn(s, s1, s2, u);
    KeepsOn(s, s2, t, u);
  }

  /** A restart ends a transaction that a failed COMMIT left open. */
  lemma Reopen(s: State) returns (t: State)
    requires Inv(s)
    ensures CanBecome(s, t) && Inv(t) && t.server.db == Db(s.server.db.disk, None)
    ensures t.log == s.log && t.clients == s.clients && (s.server.db.open.None? ==> t == s)
  {
    hide Inv, CanBecome, After;
    CanStay(s);
    if s.server.db.open.None? {
      t := s;
    } else {
      Then(s, s, Restart);
      t := After(s, Restart);
      RestartQuietly(s);
    }
  }

  lemma RestartQuietly(s: State)
    ensures var t := After(s, Restart);
      t.server.db == Db(s.server.db.disk, None) && t.log == s.log && t.clients == s.clients
  {
    hide Handled, Dispatched, Killed, JobDone, HungUp;
  }

  // ---------- sending ----------

  lemma UpdateFirst(s: State, u: Name, c: nat, n: int)
    requires InSession(s, u, c) && n in s.clients[u].held
    ensures Enabled(s, Update(u, n, 0, false))
    ensures var t := After(s, Update(u, n, 0, false));
      && t.log == s.log && t.clients.Keys == s.clients.Keys && t.server == s.server && InSession(t, u, c)
      && n in t.clients[u].held && t.clients[u].held[n] == Item(s.clients[u].held[n].msg, 0, false)
  {
    hide Handled, Dispatched, Killed, JobDone, HungUp, Restarted;
  }

  lemma TransmitNext(s: State, u: Name, c: nat, n: int)
    requires InSession(s, u, c) && n in s.clients[u].held && s.clients[u].held[n].attempts == 0
    ensures Enabled(s, Transmit(u, n))
    ensures var t := After(s, Transmit(u, n));
      && t.log == s.log && t.clients == s.clients && t.server == s.server
      && c in t.conns && t.conns[c] == Conn(u, true, [Message(n, s.clients[u].held[n].msg)], [], true)
  {
    hide Handled, Dispatched, Killed, JobDone, HungUp, Restarted;
    assert [] + [Message(n, s.clients[u].held[n].msg)] == [Message(n, s.clients[u].held[n].msg)];
  }

  lemma MessageAccepted(s: State, u: Name, c: nat, n: int, m: Msg)
    requires c in s.conns && s.conns[c] == Conn(u, true, [Message(n, m)], [], true) && n > 0
    requires (m.to == ALL || ValidName(m.to)) && s.server.db.open.None?
    ensures Enabled(s, Handle(c, 1, Fine))
    ensures var t := After(s, Handle(c, 1, Fine));
      && Key(u, n) in t.server.db.disk.seen && t.log.sent == s.log.sent && t.log.received == s.log.received
      && t.log.undone == s.log.undone && t.clients == s.clients
      && Write(c, Ack(n)) in t.server.jobs && c in t.conns && t.conns[c] == Conn(u, true, [], [], true)
      && (Key(u, n) !in s.server.db.disk.seen ==>
            Forward(Key(u, n), if m.ts <= 0 then m.(ts := 1) else m) in t.server.jobs)
  {
    hide LoggedIn, Dispatched, Killed, JobDone, HungUp, Restarted, Delete, ValidName;
    assert [Message(n, m)][1..] == [];
  }

  /** The server has handled the message: an ACK is about to be written to the sender's connection, and the recipients
      of a message that is new to it are about to be looked up. */
  ghost predicate Handed(s: State, t: State, u: Name, n: int, c: nat) {
    && Key(u, n) in t.server.db.disk.seen && t.log.sent == s.log.sent && t.log.received == s.log.received
    && t.log.undone == s.log.undone && t.clients.Keys == s.clients.Keys
    && u in t.clients && t.clients[u].inHand.None? && t.clients[u].sock == Some(c)
    && c in t.conns && t.conns[c] == Conn(u, true, [], [], true) && Write(c, Ack(n)) in t.server.jobs
    && (Key(u, n) !in s.server.db.disk.seen ==> exists m :: Forward(Key(u, n), m) in t.server.jobs)
    && u in t.server.online && t.server.online[u] == c
  }

  /** An item that a thread of the sender still has can be handed to the server. */
  lemma HandIn(s: State, u: Name, n: int) returns (t: State, c: nat)
    requires Inv(s) && u in s.clients && n in s.clients[u].held && ValidName(u)
    requires Key(u, n) in s.log.sent && Addressed(Key(u, n), s.log.sent[Key(u, n)])
    ensures CanBecome(s, t) && Inv(t) && Handed(s, t, u, n, c)
    ensures s.server.db.open.None? ==> Apart(s, t, u)
  {
    hide Inv, CanBecome, After, Enabled, ValidName, Apart;
    var s0 := Reopen(s);
    var s1, c1 := Join(s0, u);
    c := c1;
    HeldFacts(s1, u, n);
    UpdateFirst(s1, u, c, n);
    ThenApart(s0, s1, Update(u, n, 0, false), u);
    var s2 := After(s1, Update(u, n, 0, false));
    TransmitNext(s2, u, c, n);
    ThenApart(s0, s2, Transmit(u, n), u);
    var s3 := After(s2, Transmit(u, n));
    MessageAccepted(s3, u, c, n, s.log.sent[Key(u, n)]);
    ThenApart(s0, s3, Handle(c, 1, Fine), u);
    t := After(s3, Handle(c, 1, Fine));
    CanFollow(s, s0, t);
    OnlineAfter(s3, c);
  }

  lemma OnlineAfter(s: State, c: nat)
    requires Enabled(s, Handle(c, 1, Fine)) && s.conns[c].up[0].Message?
    ensures After(s, Handle(c, 1, Fine)).server.online == s.server.online
  {
    hide LoggedIn, Dispatched, Killed, JobDone, HungUp, Restarted, Delete, ValidName, Accept;
  }

  /** A pending message between valid names can be accepted. */
  lemma Deposit(s: State, u: Name, n: int, m: Msg) returns (t: State)
    requires Inv(s) && u in s.clients && n in s.clients[u].pending.items && ValidName(u)
    requires Key(u, n) in s.log.sent && s.log.sent[Key(u, n)] == m && (m.to == ALL || ValidName(m.to))
    ensures CanBecome(s, t) && Inv(t) && Key(u, n) in t.log.accepted
    ensures t.log.sent == s.log.sent && t.log.received == s.log.received && t.log.undone == s.log.undone
    ensures t.clients.Keys == s.clients.Keys
  {
    hide Inv, CanBecome, After, Enabled, ValidName;
    PendingIsHeld(s, u, n);
    var c;
    t, c := HandIn(s, u, n);
    SeenAccepted(t, Key(u, n));
  }

  lemma PendingIsHeld(s: State, u: Name, n: int)
    requires Inv(s) && u in s.clients && n in s.clients[u].pending.items
    ensures n in s.clients[u].held
  {
    hide Inv, DisplayOk;
    ClientFacts(s, u);
  }

  lemma HeldFacts(s: State, u: Name, n: int)
    requires Inv(s) && u in s.clients && n in s.clients[u].held
    ensures Key(u, n) in s.log.sent && s.clients[u].held[n].msg == s.log.sent[Key(u, n)]
        && n > 0
  {
    hide Inv, DisplayOk;
    ClientFacts(s, u);
    assert ItemOk(s.log, u, n, s.clients[u].held[n]);
  }

  lemma SeenAccepted(s: State, k: Key)
    requires Inv(s) && k in s.server.db.disk.seen
    ensures k in s.log.accepted
  {
    hide AllClients, AllNumbers, AllDisplays, AllConns, AllJobs, Owned, LogOk, Kept, Displayed;
    assert k in s.server.db.disk.seen.Keys;
  }

  // ---------- receiving ----------

  lemma BackfillFirst(s: State, u: Name, c: nat, k: Key)
    requires InSession(s, u, c) && k in s.server.db.View().offline && s.server.db.View().offline[k].msg.to == u
    ensures Enabled(s, Run(Backfill(c), true))
    ensures var t, f := After(s, Run(Backfill(c), true)), Write(c, Relay(k, s.server.db.View().offline[k].msg));
      t.clients == s.clients && t.conns == s.conns && f in t.server.jobs
  {
    hide Handled, Dispatched, Killed, HungUp, Restarted;
    var f := Write(c, Relay(k, s.server.db.View().offline[k].msg));
    assert f in Frames(s, Backfill(c));
    assert f in multiset(Frames(s, Backfill(c)));
  }

  lemma ForwardFirst(s: State, u: Name, c: nat, k: Key, m: Msg)
    requires InSession(s, u, c) && Forward(k, m) in s.server.jobs && Private(m) && m.to == u
    ensures Enabled(s, Run(Forward(k, m), true))
    ensures var t := After(s, Run(Forward(k, m), true));
      t.clients == s.clients && t.conns == s.conns && Write(c, Relay(k, m)) in t.server.jobs
  {
    hide Handled, Dispatched, Killed, HungUp, Restarted;
    assert Write(c, Relay(k, m)) in Frames(s, Forward(k, m));
    assert Write(c, Relay(k, m)) in multiset(Frames(s, Forward(k, m)));
  }

  lemma WriteNext(s: State, u: Name, c: nat, f: Down)
    requires c in s.conns && s.conns[c].open && Write(c, f) in s.server.jobs
    ensures Enabled(s, Run(Write(c, f), true))
    ensures var t := After(s, Run(Write(c, f), true));
      t.clients == s.clients && c in t.conns && t.conns[c].down == s.conns[c].down + [f]
  {
    hide Handled, Dispatched, Killed, HungUp, Restarted, Frames;
  }

  lemma DispatchNext(s: State, u: Name, c: nat)
    requires u in s.clients && s.clients[u].inHand.None? && s.clients[u].sock == Some(c)
    requires c in s.conns && s.conns[c].down != []
    ensures Enabled(s, Dispatch(u, 0, true))
    ensures var t := After(s, Dispatch(u, 0, true));
      && u in t.clients && t.clients[u].sock == Some(c) && c in t.conns && t.conns[c].down == s.conns[c].down[1..]
      && (s.conns[c].down[0].Relay? ==>
            (u, s.conns[c].down[0].key) in t.log.received && s.conns[c].down[0].key in t.clients[u].rxSeen)
  {
    hide Handled, Killed, JobDone, HungUp, Restarted, Drawn;
    DrawnSame(s.clients[u], 0);
  }

  /** A message that the recipient's client has read; this process has displayed it or is about to. */
  predicate Arrived(t: State, u: Name, k: Key) {
    (u, k) in t.log.received && u in t.clients && k in t.clients[u].rxSeen
  }

  lemma ShowAnyway(s: State, u: Name) returns (t: State)
    requires Inv(s) && u in s.clients
    ensures CanBecome(s, t) && Inv(t) && t.conns == s.conns && u in t.clients && t.clients[u].inHand.None?
    ensures t.clients[u].sock == s.clients[u].sock
    ensures s.clients[u].inHand.Some? ==> (u, s.clients[u].inHand.value) in t.log.shown
    ensures Apart(s, t, u)
  {
    hide Inv, CanBecome, After, Apart;
    t := s;
    CanStay(s);
    ApartSelf(s, u);
    if s.clients[u].inHand.Some? {
      ThenApart(s, s, Show(u), u);
      t := After(s, Show(u));
      ShowFacts(s, u);
    }
  }

  lemma ShowFacts(s: State, u: Name)
    requires Enabled(s, Show(u))
    ensures var t := After(s, Show(u));
      && t.conns == s.conns && u in t.clients && t.clients[u].inHand.None? && t.clients[u].sock == s.clients[u].sock
      && (u, s.clients[u].inHand.value) in t.log.shown
  {
    hide Handled, Dispatched, Killed, JobDone, HungUp, Restarted;
  }

  /** A message on the recipient's current connection: everything before it is dispatched first. */
  lemma {:induction false} ReadOn(s: State, u: Name, c: nat, i: nat, k: Key) returns (t: State)
    requires Inv(s) && u in s.clients && s.clients[u].sock == Some(c)
    requires c in s.conns && i < |s.conns[c].down| && s.conns[c].down[i].Relay? && s.conns[c].down[i].key == k
    ensures CanBecome(s, t) && Inv(t) && Arrived(t, u, k) && Apart(s, t, u)
    decreases i
  {
    hide Inv, CanBecome, After, Enabled, Apart;
    var s1 := ShowAnyway(s, u);
    DispatchNext(s1, u, c);
    ThenApart(s, s1, Dispatch(u, 0, true), u);
    t := After(s1, Dispatch(u, 0, true));
    if i > 0 {
      var s2 := t;
      t := ReadOn(s2, u, c, i - 1, k);
      CanFollow(s, s2, t);
      ApartOn(s, s2, t, u);
    }
  }

  /** A frame about to be written to the recipient's current connection. */
  lemma WriteAndRead(s: State, u: Name, c: nat, k: Key, m: Msg) returns (t: State)
    requires Inv(s) && u in s.clients && s.clients[u].sock == Some(c)
    requires c in s.conns && s.conns[c].open && Write(c, Relay(k, m)) in s.server.jobs
    ensures CanBecome(s, t) && Inv(t) && Arrived(t, u, k) && Apart(s, t, u)
  {
    hide Inv, CanBecome, After, Enabled, Apart;
    WriteNext(s, u, c, Relay(k, m));
    CanStay(s);
    ApartSelf(s, u);
    SocketOwned(s, u);
    ThenApart(s, s, Run(Write(c, Relay(k, m)), true), u);
    var s1 := After(s, Run(Write(c, Relay(k, m)), true));
    t := ReadOn(s1, u, c, |s.conns[c].down|, k);
    CanFollow(s, s1, t);
    ApartOn(s, s1, t, u);
  }

  /** A stored message, or one that an open transaction holds, can be read by its recipient. */
  lemma Collect(s: State, u: Name, k: Key) returns (t: State)
    requires Inv(s) && u in s.clients && ValidName(u)
    requires k in s.server.db.View().offline && s.server.db.View().offline[k].msg.to == u
    ensures CanBecome(s, t) && Inv(t) && Arrived(t, u, k)
  {
    hide Inv, CanBecome, After, Enabled, ValidName;
    var s1, c := Join(s, u);
    BackfillFirst(s1, u, c, k);
    Then(s, s1, Run(Backfill(c), true));
    var s2 := After(s1, Run(Backfill(c), true));
    t := WriteAndRead(s2, u, c, k, s1.server.db.View().offline[k].msg);
    CanFollow(s, s2, t);
  }

  /** A message whose recipient is still to be looked up. */
  lemma LookUp(s: State, u: Name, k: Key, m: Msg) returns (t: State)
    requires Inv(s) && u in s.clients && ValidName(u) && Forward(k, m) in s.server.jobs && Private(m) && m.to == u
    ensures CanBecome(s, t) && Inv(t) && Arrived(t, u, k)
  {
    hide Inv, CanBecome, After, Enabled, ValidName;
    var s1, c := Join(s, u);
    ForwardFirst(s1, u, c, k, m);
    Then(s, s1, Run(Forward(k, m), true));
    var s2 := After(s1, Run(Forward(k, m), true));
    t := WriteAndRead(s2, u, c, k, m);
    CanFollow(s, s2, t);
  }

  // ---------- main result ----------

  /** What the invariant says about an accepted private message. */
  lemma AcceptedFacts(s: State, k: Key)
    requires Inv(s) && k in s.log.accepted && Private(s.log.accepted[k])
    ensures k in s.log.sent && s.log.sent[k].to == s.log.accepted[k].to
    ensures k !in s.log.undone ==> (s.log.sent[k].to, k) in s.log.received || k in s.server.db.disk.offline
    ensures k in s.server.db.disk.offline ==> s.server.db.disk.offline[k].msg.to == s.log.sent[k].to
    ensures k in s.server.db.View().offline ==> s.server.db.View().offline[k].msg.to == s.log.sent[k].to
  {
    hide AllClients, AllNumbers, AllDisplays, AllConns, AllJobs, Owned, Kept, Displayed;
    assert SamePayload(s.log.sent[k], s.log.accepted[k]);
    assert RowsOk(s.log, s.server.db.View());
  }

  lemma KeptFacts(s: State, k: Key)
    requires Inv(s) && k in s.log.sent
    ensures k.from in s.clients && (k.seqNo in s.clients[k.from].pending.items || k in s.log.accepted)
  {
    hide AllClients, AllNumbers, AllDisplays, AllConns, AllJobs, Owned, DbOk, LogOk, Displayed;
  }

  /** From a committed row; a transaction left open goes first. */
  lemma CollectStored(s: State, u: Name, k: Key) returns (t: State)
    requires Inv(s) && u in s.clients && ValidName(u)
    requires k in s.server.db.disk.offline && s.server.db.disk.offline[k].msg.to == u
    ensures CanBecome(s, t) && Inv(t) && Arrived(t, u, k)
  {
    hide Inv, CanBecome, ValidName;
    var s1 := Reopen(s);
    t := Collect(s1, u, k);
    CanFollow(s, s1, t);
  }

  /** A message that was never accepted is in its sender's file. */
  lemma FromFile(s: State, k: Key) returns (t: State)
    requires Inv(s) && k in s.log.sent && Private(s.log.sent[k]) && k !in s.log.accepted
    requires ValidName(k.from) && ValidName(s.log.sent[k].to) && s.log.sent[k].to in s.clients
    ensures CanBecome(s, t) && Inv(t) && Arrived(t, s.log.sent[k].to, k)
  {
    hide Inv, CanBecome, ValidName;
    KeptFacts(s, k);
    NotRead(s, k);
    var s1 := Deposit(s, k.from, k.seqNo, s.log.sent[k]);
    PrivateStays(s1, k);
    AcceptedFacts(s1, k);
    t := CollectStored(s1, s.log.sent[k].to, k);
    CanFollow(s, s1, t);
  }

  lemma NotRead(s: State, k: Key)
    requires Inv(s) && k !in s.log.accepted
    ensures k !in s.log.undone && forall u :: (u, k) !in s.log.received
  {
    hide AllClients, AllNumbers, AllDisplays, AllConns, AllJobs, Owned, Kept, Displayed, DbOk;
    assert k !in s.log.accepted.Keys;
  }

  lemma CanArrive(s: State, k: Key) returns (t: State)
    requires Inv(s) && k in s.log.sent && Private(s.log.sent[k]) && k !in s.log.undone
    requires ValidName(k.from) && ValidName(s.log.sent[k].to) && s.log.sent[k].to in s.clients
    ensures CanBecome(s, t) && (s.log.sent[k].to, k) in t.log.received
  {
    hide Inv, CanBecome, ValidName;
    if k !in s.log.accepted {
      t := FromFile(s, k);
    } else {
      PrivateStays(s, k);
      AcceptedFacts(s, k);
      CanStay(s);
      if (s.log.sent[k].to, k) in s.log.received { t := s; } else { t := CollectStored(s, s.log.sent[k].to, k); }
    }
  }

  lemma PrivateStays(s: State, k: Key)
    requires Inv(s) && k in s.log.accepted && k in s.log.sent && Private(s.log.sent[k])
    ensures Private(s.log.accepted[k])
  {
    hide AllClients, AllNumbers, AllDisplays, AllConns, AllJobs, Owned, Kept, Displayed, DbOk;
    assert SamePayload(s.log.sent[k], s.log.accepted[k]);
  }

  lemma StepUsers(s: State, e: Event, u: Name, k: Key)
    requires Enabled(s, e)
    ensures After(s, e).clients.Keys == s.clients.Keys
    ensures (u, k) in After(s, e).log.received ==> (u, k) in s.log.received || u in s.clients
  {
    hide Accept, Delete, Frames, ValidName, Drawn, Written;
  }

  /** The users stay, and only they read. */
  lemma {:induction false} UsersOnly(users: set<Name>, events: seq<Event>, u: Name, k: Key)
    ensures Reached(users, events).clients.Keys == users
    ensures (u, k) in Reached(users, events).log.received ==> u in users
  {
    hide After, Enabled;
    if events != [] {
      var before, e := events[..|events| - 1], events[|events| - 1];
      UsersOnly(users, before, u, k);
      if Enabled(Reached(users, before), e) { StepUsers(Reached(users, before), e, u, k); }
    }
  }

  /** Whatever happened so far, a private message that was given to `send` can still be read by its recipient,
      exactly when both names are valid and the recipient is a user. Only one whose own COMMIT failed is excepted. */
  lemma {:induction false} EveryMessageCanArriveExactly(users: set<Name>, events: seq<Event>, k: Key)
    requires k in Reached(users, events).log.sent && Private(Reached(users, events).log.sent[k])
    requires k !in Reached(users, events).log.undone
    ensures var to := Reached(users, events).log.sent[k].to;
      (exists more :: AllSound(more) && (to, k) in Reached(users, events + more).log.received)
      <==> ValidName(k.from) && ValidName(to) && to in users
  {
    hide Reached, Inv, ValidName, After, Enabled;
    var s := Reached(users, events);
    var to := s.log.sent[k].to;
    RunsKeep(users, events);
    UsersOnly(users, events, to, k);
    if ValidName(k.from) && ValidName(to) && to in users {
      var t := CanArrive(s, k);
      var more :| AllSound(more) && Leads(s, more, t);
      LeadsReached(users, events, more, t);
    }
    forall more | AllSound(more) && (to, k) in Reached(users, events + more).log.received
      ensures ValidName(k.from) && ValidName(to) && to in users
    {
      ArrivedFacts(users, events, more, to, k);
    }
  }

  lemma {:induction false} ArrivedFacts(users: set<Name>, events: seq<Event>, more: seq<Event>, to: Name, k: Key)
    requires (to, k) in Reached(users, events + more).log.received
    requires k in Reached(users, events).log.sent && Reached(users, events).log.sent[k].to == to && to != ALL
    ensures ValidName(k.from) && ValidName(to) && to in users
  {
    hide Reached, AllClients, AllNumbers, AllDisplays, AllConns, AllJobs, Owned, Kept, DbOk, ValidName;
    var all := events + more;
    assert all[..|events|] == events;
    RunsKeep(users, all);
    NumbersAreNeverReused(users, all, |events|);
    var l := Reached(users, all).log;
    assert k in Reached(users, events).log.sent;
    assert k in l.accepted && SamePayload(l.sent[k], l.accepted[k]) && Addressed(k, l.accepted[k]);
    UsersOnly(users, all, to, k);
  }
}
