/** The steps of the network and of the server, each shown to keep the invariant. */
module DeliveryServer {
  import opened Delivery
  import opened DeliveryMachine
  import opened DeliveryInvariant
  import opened DeliverySteps

  // ---------- the network ----------

  lemma CutOk(l: Log, conn: Conn, ups: nat, downs: nat)
    requires ConnOk(l, conn) && ups <= |conn.up| && downs <= |conn.down|
    ensures ConnOk(l, Closed(conn).(up := conn.up[..ups], down := conn.down[..downs]))
  {
    assert forall i :: 0 <= i < ups ==> conn.up[..ups][i] == conn.up[i];
    assert forall i :: 0 <= i < downs ==> conn.down[..downs][i] == conn.down[i];
  }

  lemma CutKeeps(s: State, c: nat, ups: nat, downs: nat)
    requires Inv(s) && Enabled(s, Cut(c, ups, downs))
    ensures Inv(After(s, Cut(c, ups, downs)))
  {
    hide Inv, ConnOk;
    ConnFacts(s, c);
    CutOk(s.log, s.conns[c], ups, downs);
    ConnChanged(s, c, Closed(s.conns[c]).(up := s.conns[c].up[..ups], down := s.conns[c].down[..downs]));
  }

  // ---------- jobs and sessions ----------

  lemma MoreJobs(s: State, jobs: multiset<Job>)
    requires Inv(s) && AllJobs(s.log, s.conns, jobs)
    ensures Inv(AddJobs(s, jobs))
  {
    hide AllClients, AllNumbers, AllDisplays, Kept, Displayed, DbOk, LogOk, AllConns, Owned, AllJobs;
    JobsAdded(s.log, s.conns, s.server.jobs, jobs);
  }

  lemma NewOnline(s: State, online: map<Name, nat>)
    requires Inv(s) && Owned(s.clients, s.conns, online)
    ensures Inv(s.(server := s.server.(online := online)))
  {
    hide AllClients, AllNumbers, AllDisplays, Kept, Displayed, DbOk, LogOk, AllConns, Owned, AllJobs;
  }

  lemma HangUpKeeps(s: State, c: nat)
    requires Inv(s) && Enabled(s, HangUp(c))
    ensures Inv(After(s, HangUp(c)))
  {
    hide AllClients, AllNumbers, AllDisplays, Kept, Displayed, DbOk, LogOk, AllConns, AllJobs, ConnOk;
    ConnFacts(s, c);
    ClosedOk(s.log, s.conns[c]);
    var s1 := WithConn(s, c, Closed(s.conns[c]).(login := false));
    ConnChanged(s, c, Closed(s.conns[c]).(login := false));
    NewOnline(s1, HungUp(s, c).server.online);
  }

  lemma FlagOk(l: Log, conn: Conn, login: bool)
    requires ConnOk(l, conn) && (login ==> ValidName(conn.owner))
    ensures ConnOk(l, conn.(login := login))
  {
  }

  /** Pushing out an older connection of the same user only clears its flag. */
  lemma OldOneOut(s: State, u: Name)
    requires Inv(s) && u in s.server.online
    ensures s.server.online[u] in s.conns
    ensures Inv(WithConn(s, s.server.online[u], s.conns[s.server.online[u]].(login := false)))
  {
    hide AllClients, AllNumbers, AllDisplays, Kept, Displayed, DbOk, LogOk, AllConns, AllJobs, ConnOk;
    var first := s.server.online[u];
    ConnFacts(s, first);
    FlagOk(s.log, s.conns[first], false);
    ConnChanged(s, first, s.conns[first].(login := false));
  }

  lemma NackJob(s: State, c: nat, n: int)
    requires Inv(s) && c in s.conns
    ensures Inv(AddJobs(s, multiset{Write(c, Nack(n))}))
  {
    hide Inv;
    assert AllJobs(s.log, s.conns, multiset{Write(c, Nack(n))});
    MoreJobs(s, multiset{Write(c, Nack(n))});
  }

  lemma NowOnline(s: State, c: nat)
    requires Inv(s) && c in s.conns
    ensures Owned(s.clients, s.conns, s.server.online[s.conns[c].owner := c])
  {
    hide AllClients, AllNumbers, AllDisplays, Kept, Displayed, DbOk, LogOk, AllConns, AllJobs;
  }

  lemma LoggedInKeeps(s: State, c: nat)
    requires Inv(s) && c in s.conns
    ensures Inv(LoggedIn(s, c))
  {
    hide Inv, ConnOk;
    var conn, u := s.conns[c], s.conns[c].owner;
    if conn.login || !ValidName(u) || (u in s.server.online && s.server.online[u] == c) {
      NackJob(s, c, 0);
    } else {
      var s1 := s;
      if u in s.server.online {
        OldOneOut(s, u);
        s1 := WithConn(s, s.server.online[u], s.conns[s.server.online[u]].(login := false));
      }
      ConnFacts(s1, c);
      FlagOk(s1.log, conn, true);
      var s2 := WithConn(s1, c, conn.(login := true));
      ConnChanged(s1, c, conn.(login := true));
      NowOnline(s2, c);
      var s3 := s2.(server := s2.server.(online := s2.server.online[u := c]));
      NewOnline(s2, s2.server.online[u := c]);
      assert AllJobs(s3.log, s3.conns, multiset{Backfill(c)});
      MoreJobs(s3, multiset{Backfill(c)});
    }
  }

  // ---------- messages ----------

  /** Every stored row belongs to an accepted message, so the second INSERT OR IGNORE never ignores. */
  lemma RowIsNew(l: Log, db: Db, k: Key)
    requires DbOk(l, db) && k !in db.disk.seen
    ensures k !in db.disk.offline && (k in l.accepted ==> k in l.undone)
  {
    assert k in l.accepted.Keys - l.undone ==> k in db.disk.seen.Keys;
  }

  lemma EnteredLog(l: Log, k: Key, m: Msg, fault: Fault)
    requires LogOk(l) && Genuine(l, k, m) && (k in l.accepted ==> k in l.undone)
    ensures LogOk(Entered(l, k, m, fault)) && Grows(l, Entered(l, k, m, fault))
  {
    var l' := Entered(l, k, m, fault);
    forall i, j | 0 <= i < j < |l'.acceptances| && l'.acceptances[i] == l'.acceptances[j]
      ensures l'.acceptances[i] in l'.undone
    {
      if j == |l.acceptances| { assert l.acceptances[i] in l.acceptances; }
    }
    forall x | x in l'.accepted ensures Genuine(l', x, l'.accepted[x]) {
      if x != k { assert Genuine(l, x, l.accepted[x]); }
    }
    forall r | r in l'.received
      ensures r.1 in l'.accepted && (l'.accepted[r.1].to == ALL || l'.accepted[r.1].to == r.0)
    {
      assert Genuine(l, r.1, l.accepted[r.1]);
    }
  }

  lemma AddedRows(l: Log, t: Tables, k: Key, m: Msg, fault: Fault)
    requires RowsOk(l, t) && Genuine(l, k, m)
    ensures RowsOk(Entered(l, k, m, fault), Added(t, k, m)) && RowsOk(Entered(l, k, m, fault), t)
  {
    var l', t' := Entered(l, k, m, fault), Added(t, k, m);
    forall x | x in t'.offline ensures x in l'.accepted && Genuine(l', x, t'.offline[x].msg) {
      if x in t.offline { assert Genuine(l, x, t.offline[x].msg); }
    }
    forall x | x in t.offline ensures x in l'.accepted && Genuine(l', x, t.offline[x].msg) {
      assert Genuine(l, x, t.offline[x].msg);
    }
  }

  /** What `acceptMessage` leaves after a first acceptance, whatever becomes of the transaction. */
  lemma EnteredDb(l: Log, db: Db, k: Key, m: Msg, fault: Fault)
    requires DbOk(l, db) && LogOk(l) && Genuine(l, k, m) && Accept(db, k, m, fault).1 == 1
    ensures DbOk(Entered(l, k, m, fault), Accept(db, k, m, fault).0)
  {
    hide LogOk, RowsOk, Genuine, SamePayload;
    var l', db' := Entered(l, k, m, fault), Accept(db, k, m, fault).0;
    RowIsNew(l, db, k);
    AddedRows(l, db.disk, k, m, fault);
    assert db'.disk.offline.Keys <= db'.disk.seen.Keys;
    forall x | x in l'.accepted && x !in l'.undone && Private(l'.accepted[x])
      ensures x in db'.disk.offline || (l'.accepted[x].to, x) in l'.received
    {
      if x != k { assert l.accepted[x] == l'.accepted[x]; }
    }
  }

  lemma EnterKeeps(s: State, k: Key, m: Msg, fault: Fault)
    requires Inv(s) && Genuine(s.log, k, m) && Accept(s.server.db, k, m, fault).1 == 1
    ensures Inv(s.(server := s.server.(db := Accept(s.server.db, k, m, fault).0), log := Entered(s.log, k, m, fault)))
  {
    hide AllClients, AllNumbers, AllDisplays, Kept, Displayed, DbOk, LogOk, AllConns, AllJobs, Owned, Accept, Grows;
    hide Genuine;
    var l := Entered(s.log, k, m, fault);
    FirstOrUndone(s.log, s.server.db, k, m, fault);
    EnteredLog(s.log, k, m, fault);
    EnteredDb(s.log, s.server.db, k, m, fault);
    SentKept(s.log, l, s.clients);
    DisplaysGrow(s.log, l, s.clients);
    ConnsGrow(s.log, l, s.conns);
    SameOwnersSelf(s.conns);
    JobsGrow(s.log, l, s.conns, s.conns, s.server.jobs);
  }

  lemma FirstOrUndone(l: Log, db: Db, k: Key, m: Msg, fault: Fault)
    requires DbOk(l, db) && Accept(db, k, m, fault).1 == 1
    ensures k in l.accepted ==> k in l.undone
  {
    RowIsNew(l, db, k);
  }

  /** A duplicate or a refusal changes no table; a failed COMMIT may leave its transaction open. */
  lemma NotEnteredDb(l: Log, db: Db, k: Key, m: Msg, fault: Fault)
    requires DbOk(l, db) && Accept(db, k, m, fault).1 != 1
    ensures DbOk(l, Accept(db, k, m, fault).0)
    ensures Accept(db, k, m, fault).1 == 0 ==> k in l.accepted
  {
    hide RowsOk;
  }

  lemma SentKept(l: Log, l': Log, clients: map<Name, Client>)
    requires Grows(l, l') && l'.sent == l.sent && l'.received == l.received && l'.shown == l.shown
        && l'.vanished == l.vanished
    requires AllClients(l, clients) && Kept(l, clients) && Displayed(l, clients)
    ensures AllClients(l', clients) && Kept(l', clients) && Displayed(l', clients)
  {
    hide AllClients;
    ClientsGrow(l, l', clients);
  }

  lemma NewDb(s: State, db: Db)
    requires Inv(s) && DbOk(s.log, db)
    ensures Inv(s.(server := s.server.(db := db)))
  {
    hide AllClients, AllNumbers, AllDisplays, Kept, Displayed, DbOk, LogOk, AllConns, AllJobs, Owned;
  }

  lemma MessageKeeps(s: State, c: nat, n: int, m0: Msg, now: int, fault: Fault)
    requires Inv(s) && c in s.conns
    requires UpOk(s.log, s.conns[c].owner, Message(n, m0))
    ensures Inv(MessageHandled(s, c, n, m0, now, fault))
  {
    hide Inv, Accept, DbOk, LogOk;
    var m := if m0.ts <= 0 then m0.(ts := now) else m0;
    var k := Key(s.conns[c].owner, n);
    var (db, result) := Accept(s.server.db, k, m, fault);
    NackJob(s, c, n);
    if !s.conns[c].login || n <= 0 || (m.to != ALL && !ValidName(m.to)) { return; }
    ConnFacts(s, c);
    DbAndLog(s);
    AcceptResult(s.server.db, k, m, fault);
    if result == 1 {
      var s1 := s.(server := s.server.(db := db), log := Entered(s.log, k, m, fault));
      EnterKeeps(s, k, m, fault);
      assert AllJobs(s1.log, s1.conns, multiset{Write(c, Ack(n)), Forward(k, m)});
      MoreJobs(s1, multiset{Write(c, Ack(n)), Forward(k, m)});
    } else {
      NotEnteredDb(s.log, s.server.db, k, m, fault);
      NewDb(s, db);
      var s1 := s.(server := s.server.(db := db));
      if result == 0 {
        assert AllJobs(s1.log, s1.conns, multiset{Write(c, Ack(n))});
        MoreJobs(s1, multiset{Write(c, Ack(n))});
      }
    }
  }

  lemma AcceptResult(db: Db, k: Key, m: Msg, fault: Fault)
    ensures -1 <= Accept(db, k, m, fault).1 <= 1
  {
  }

  lemma DbAndLog(s: State)
    requires Inv(s)
    ensures DbOk(s.log, s.server.db) && LogOk(s.log)
  {
    hide AllClients, AllNumbers, AllDisplays, Kept, Displayed, DbOk, LogOk, AllConns, AllJobs, Owned;
  }

  /** Only a confirmation by the recipient deletes a row. */
  lemma ConfirmKeeps(s: State, u: Name, k: Key)
    requires Inv(s) && (u, k) in s.log.received
    ensures Inv(s.(server := s.server.(db := Delete(s.server.db, u, k))))
  {
    hide Inv;
    DbAndLog(s);
    ConfirmedDb(s.log, s.server.db, u, k);
    NewDb(s, Delete(s.server.db, u, k));
  }

  lemma ConfirmedDb(l: Log, db: Db, u: Name, k: Key)
    requires DbOk(l, db) && LogOk(l) && (u, k) in l.received
    ensures DbOk(l, Delete(db, u, k))
  {
    WithoutRows(l, db.View(), u, k);
    if k in db.disk.offline { assert Genuine(l, k, db.disk.offline[k].msg) && Genuine(l, k, l.accepted[k]); }
  }

  lemma WithoutRows(l: Log, t: Tables, u: Name, k: Key)
    requires RowsOk(l, t)
    ensures RowsOk(l, Without(t, u, k))
  {
    var t' := Without(t, u, k);
    forall x | x in t'.offline ensures x in l.accepted && Genuine(l, x, t'.offline[x].msg) {
      assert Genuine(l, x, t.offline[x].msg);
    }
  }

  lemma HandleKeeps(s: State, c: nat, now: int, fault: Fault)
    requires Inv(s) && Enabled(s, Handle(c, now, fault))
    ensures Inv(After(s, Handle(c, now, fault)))
  {
    hide Inv, LoggedIn, MessageHandled, Delete;
    ConnFacts(s, c);
    var conn := s.conns[c];
    assert UpOk(s.log, conn.owner, conn.up[0]);
    NextUpOk(s.log, conn);
    var s1 := WithConn(s, c, conn.(up := conn.up[1..]));
    ConnChanged(s, c, conn.(up := conn.up[1..]));
    match conn.up[0]
    case Login => LoggedInKeeps(s1, c);
    case Message(n, m) => MessageKeeps(s1, c, n, m, now, fault);
    case E2eAck(k) => ConfirmKeeps(s1, conn.owner, k);
  }

  lemma NextUpOk(l: Log, conn: Conn)
    requires ConnOk(l, conn) && conn.up != []
    ensures ConnOk(l, conn.(up := conn.up[1..]))
  {
    assert forall i :: 0 <= i < |conn.up| - 1 ==> conn.up[1..][i] == conn.up[i + 1];
  }

  // ---------- writing and forwarding ----------

  /** Every frame that a lookup leads to goes to its recipient and carries what was accepted. */
  lemma FramesOk(s: State, j: Job)
    requires Inv(s) && JobOk(s.log, s.conns, j)
    ensures AllJobs(s.log, s.conns, multiset(Frames(s, j)))
  {
    hide AllClients, AllNumbers, AllDisplays, Kept, Displayed, LogOk, AllConns;
    forall f | f in multiset(Frames(s, j)) ensures JobOk(s.log, s.conns, f) {
      assert f in Frames(s, j);
    }
  }

  lemma FewerJobs(s: State, j: Job)
    requires Inv(s)
    ensures Inv(s.(server := s.server.(jobs := s.server.jobs - multiset{j})))
  {
    hide AllClients, AllNumbers, AllDisplays, Kept, Displayed, LogOk, AllConns, DbOk, Owned, JobOk;
    forall i | i in s.server.jobs - multiset{j} ensures JobOk(s.log, s.conns, i) {
      assert i in s.server.jobs;
    }
  }

  lemma SentDownOk(l: Log, conn: Conn, f: Down)
    requires ConnOk(l, conn) && DownOk(l, conn.owner, f)
    ensures ConnOk(l, conn.(down := conn.down + [f]))
  {
  }

  lemma JobFacts(s: State, j: Job)
    requires Inv(s) && j in s.server.jobs
    ensures JobOk(s.log, s.conns, j)
  {
    hide AllClients, AllNumbers, AllDisplays, Kept, Displayed, LogOk, AllConns, DbOk, Owned, JobOk;
  }

  lemma RunKeeps(s: State, j: Job, wrote: bool)
    requires Inv(s) && Enabled(s, Run(j, wrote))
    ensures Inv(After(s, Run(j, wrote)))
  {
    hide Inv, Frames, ConnOk;
    JobFacts(s, j);
    FramesOk(s, j);
    FewerJobs(s, j);
    var s1 := s.(server := s.server.(jobs := s.server.jobs - multiset{j}));
    MoreJobs(s1, multiset(Frames(s, j)));
    var s2 := AddJobs(s1, multiset(Frames(s, j)));
    if j.Write? && wrote && j.conn in s.conns && s.conns[j.conn].open {
      ConnFacts(s, j.conn);
      SentDownOk(s.log, s.conns[j.conn], j.frame);
      ConnChanged(s2, j.conn, s.conns[j.conn].(down := s.conns[j.conn].down + [j.frame]));
    }
  }

  /** A restart loses every connection and every job, and no table. */
  lemma RestartKeeps(s: State)
    requires Inv(s)
    ensures Inv(After(s, Restart))
  {
    hide AllClients, AllNumbers, AllDisplays, Kept, Displayed, LogOk, RowsOk;
    var s' := Restarted(s);
    forall c | c in s'.conns ensures ConnOk(s'.log, s'.conns[c]) {
      assert ConnOk(s.log, s.conns[c]);
    }
    OwnedAfter(s.clients, s.conns, s.server.online, s'.conns);
  }

  lemma OwnedAfter(clients: map<Name, Client>, conns: map<nat, Conn>, online: map<Name, nat>, conns': map<nat, Conn>)
    requires Owned(clients, conns, online) && conns'.Keys == conns.Keys && SameOwners(conns, conns')
    ensures Owned(clients, conns', map[])
  {
    forall c | c in conns' ensures conns'[c].owner in clients {
      assert c in conns;
    }
  }
}
