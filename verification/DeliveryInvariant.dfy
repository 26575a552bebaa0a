/** What every step of the delivery machine keeps. */
module DeliveryInvariant {
  import opened Collections
  import opened Delivery
  import opened DeliveryMachine

  // ---------- facts about one thing at a time ----------

  /** A time that was missing is filled in; everything else is kept. */
  predicate SamePayload(sent: Msg, stored: Msg) {
    sent.to == stored.to && sent.content == stored.content && (sent.ts > 0 ==> sent.ts == stored.ts)
  }

  /** The server accepts messages between valid names only. */
  predicate Addressed(k: Key, m: Msg) { ValidName(k.from) && (m.to == ALL || ValidName(m.to)) }

  /** What travels is what was given to `send`, and could be accepted. */
  predicate Genuine(l: Log, k: Key, m: Msg) { k in l.sent && SamePayload(l.sent[k], m) && Addressed(k, m) }

  predicate UpOk(l: Log, owner: Name, f: Up) {
    match f
    case Login => true
    case Message(n, m) => Key(owner, n) in l.sent && l.sent[Key(owner, n)] == m
    case E2eAck(k) => (owner, k) in l.received
  }

  /** An ACK stands for an accepted message, and a message only travels to its recipient. */
  predicate DownOk(l: Log, owner: Name, f: Down) {
    match f
    case Ack(n) => Key(owner, n) in l.accepted
    case Nack(_) => true
    case Relay(k, m) => k in l.accepted && Genuine(l, k, m) && (m.to == ALL || m.to == owner)
  }

  ghost predicate ConnOk(l: Log, conn: Conn) {
    && (forall i {:trigger conn.up[i]} :: 0 <= i < |conn.up| ==> UpOk(l, conn.owner, conn.up[i]))
    && (forall i {:trigger conn.down[i]} :: 0 <= i < |conn.down| ==> DownOk(l, conn.owner, conn.down[i]))
    && (conn.login ==> ValidName(conn.owner))
  }

  predicate ItemOk(l: Log, u: Name, n: int, item: Item) { Key(u, n) in l.sent && l.sent[Key(u, n)] == item.msg }

  ghost predicate ClientOk(l: Log, u: Name, cl: Client) {
    && (forall n {:trigger cl.pending.items[n]} :: n in cl.pending.items ==> ItemOk(l, u, n, cl.pending.items[n]))
    && (forall n {:trigger cl.held[n]} :: n in cl.held ==> ItemOk(l, u, n, cl.held[n]))
    && cl.pending.items.Keys <= cl.held.Keys
  }

  /** The counter is ahead of every number used for a message or drawn for one. */
  ghost predicate NumbersOk(sent: map<Key, Msg>, u: Name, cl: Client) {
    && cl.pending.nextSeq > 0
    && (forall n {:trigger n in cl.unused} :: n in cl.unused ==> 0 < n < cl.pending.nextSeq && Key(u, n) !in sent)
    && (forall k {:trigger k in sent} :: k in sent && k.from == u ==> 0 < k.seqNo < cl.pending.nextSeq)
  }

  /** One process displays a message at most once, and accounts for all that it has seen. */
  ghost predicate DisplayOk(l: Log, u: Name, cl: Client) {
    && (forall i, j :: 0 <= i < j < |cl.displayed| ==> cl.displayed[i] != cl.displayed[j])
    && (forall k :: k in cl.displayed ==> k in cl.rxSeen && (u, k) in l.shown && cl.inHand != Some(k))
    && (forall k :: k in cl.rxSeen ==> (u, k) in l.received && (k in cl.displayed || cl.inHand == Some(k)))
    && (cl.inHand.Some? ==> cl.inHand.value in cl.rxSeen)
  }

  predicate JobOk(l: Log, conns: map<nat, Conn>, j: Job) {
    match j
    case Write(c, f) => c in conns && DownOk(l, conns[c].owner, f)
    case Forward(k, m) => k in l.accepted && Genuine(l, k, m)
    case Backfill(c) => c in conns
  }

  // ---------- the invariant ----------

  ghost predicate AllClients(l: Log, clients: map<Name, Client>) {
    forall u {:trigger ClientOk(l, u, clients[u])} :: u in clients ==> ClientOk(l, u, clients[u])
  }

  ghost predicate AllNumbers(sent: map<Key, Msg>, clients: map<Name, Client>) {
    forall u {:trigger NumbersOk(sent, u, clients[u])} :: u in clients ==> NumbersOk(sent, u, clients[u])
  }

  ghost predicate AllDisplays(l: Log, clients: map<Name, Client>) {
    forall u {:trigger DisplayOk(l, u, clients[u])} :: u in clients ==> DisplayOk(l, u, clients[u])
  }

  ghost predicate AllConns(l: Log, conns: map<nat, Conn>) {
    forall c {:trigger ConnOk(l, conns[c])} :: c in conns ==> ConnOk(l, conns[c])
  }

  ghost predicate AllJobs(l: Log, conns: map<nat, Conn>, jobs: multiset<Job>) {
    forall j {:trigger JobOk(l, conns, j)} :: j in jobs ==> JobOk(l, conns, j)
  }

  predicate Owns(conns: map<nat, Conn>, u: Name, c: nat) { c in conns && conns[c].owner == u }

  ghost predicate Owned(clients: map<Name, Client>, conns: map<nat, Conn>, online: map<Name, nat>) {
    && (forall u {:trigger clients[u]} :: u in clients && clients[u].sock.Some? ==>
        Owns(conns, u, clients[u].sock.value))
    && (forall u {:trigger online[u]} :: u in online ==> Owns(conns, u, online[u]))
    && (forall c {:trigger conns[c]} :: c in conns ==> conns[c].owner in clients)
  }

  /** Rows hold what was accepted. */
  ghost predicate RowsOk(l: Log, t: Tables) {
    forall k {:trigger t.offline[k]} :: k in t.offline ==> k in l.accepted && Genuine(l, k, t.offline[k].msg)
  }

  /** The tables agree with what was accepted, and no row is missing that was not confirmed; only a message whose
      own COMMIT failed may be missing. */
  ghost predicate DbOk(l: Log, db: Db) {
    && RowsOk(l, db.disk) && (db.open.Some? ==> RowsOk(l, db.open.value))
    && db.disk.offline.Keys <= db.disk.seen.Keys <= l.accepted.Keys
    && l.accepted.Keys - l.undone <= db.disk.seen.Keys
    && (forall k {:trigger l.accepted[k]} :: k in l.accepted && k !in l.undone && Private(l.accepted[k]) ==>
          k in db.disk.offline || (l.accepted[k].to, k) in l.received)
  }

  ghost predicate LogOk(l: Log) {
    && (forall k {:trigger l.accepted[k]} :: k in l.accepted ==> Genuine(l, k, l.accepted[k]))
    && (forall i, j :: 0 <= i < j < |l.acceptances| && l.acceptances[i] == l.acceptances[j] ==>
        l.acceptances[i] in l.undone)
    && (forall k :: k in l.acceptances <==> k in l.accepted)
    && l.undone <= l.accepted.Keys
    && (forall r {:trigger r in l.received} :: r in l.received ==>
          r.1 in l.accepted && (l.accepted[r.1].to == ALL || l.accepted[r.1].to == r.0))
  }

  /** Until it is accepted, a message is in its sender's file. */
  ghost predicate Kept(l: Log, clients: map<Name, Client>) {
    forall k {:trigger k in l.sent} :: k in l.sent ==>
      k.from in clients && (k.seqNo in clients[k.from].pending.items || k in l.accepted)
  }

  /** What a client read was displayed, is about to be, or was caught by a kill. */
  ghost predicate Displayed(l: Log, clients: map<Name, Client>) {
    forall r {:trigger r in l.received} :: r in l.received ==>
      r in l.shown || r in l.vanished || (r.0 in clients && clients[r.0].inHand == Some(r.1))
  }

  ghost predicate Inv(s: State) {
    && AllClients(s.log, s.clients)
    && AllNumbers(s.log.sent, s.clients)
    && AllDisplays(s.log, s.clients)
    && AllConns(s.log, s.conns)
    && AllJobs(s.log, s.conns, s.server.jobs)
    && Owned(s.clients, s.conns, s.server.online)
    && DbOk(s.log, s.server.db)
    && LogOk(s.log)
    && Kept(s.log, s.clients)
    && Displayed(s.log, s.clients)
  }

  lemma StartOk(users: set<Name>)
    ensures Inv(Start(users))
  {
    var s := Start(users);
    forall u | u in s.clients
      ensures ClientOk(s.log, u, s.clients[u]) && NumbersOk(s.log.sent, u, s.clients[u])
          && DisplayOk(s.log, u, s.clients[u])
    {
    }
  }

  // ---------- more history keeps old facts ----------

  ghost predicate Includes<K, V>(m: map<K, V>, m': map<K, V>) {
    forall k {:trigger k in m} :: k in m ==> k in m' && m'[k] == m[k]
  }

  ghost predicate Grows(l: Log, l': Log) {
    Includes(l.sent, l'.sent) && l.accepted.Keys <= l'.accepted.Keys && l.received <= l'.received && l.shown <= l'.shown
  }

  lemma ClientsGrow(l: Log, l': Log, clients: map<Name, Client>)
    requires AllClients(l, clients) && Includes(l.sent, l'.sent)
    ensures AllClients(l', clients)
  {
    forall u | u in clients ensures ClientOk(l', u, clients[u]) {
      assert ClientOk(l, u, clients[u]);
    }
  }

  lemma DisplaysGrow(l: Log, l': Log, clients: map<Name, Client>)
    requires AllDisplays(l, clients) && l.received <= l'.received && l.shown <= l'.shown
    ensures AllDisplays(l', clients)
  {
    forall u | u in clients ensures DisplayOk(l', u, clients[u]) {
      assert DisplayOk(l, u, clients[u]);
    }
  }

  lemma ConnsGrow(l: Log, l': Log, conns: map<nat, Conn>)
    requires AllConns(l, conns) && Grows(l, l')
    ensures AllConns(l', conns)
  {
    forall c | c in conns ensures ConnOk(l', conns[c]) {
      assert ConnOk(l, conns[c]);
    }
  }

  lemma RowsGrow(l: Log, l': Log, t: Tables)
    requires RowsOk(l, t) && Grows(l, l')
    ensures RowsOk(l', t)
  {
    forall k | k in t.offline ensures k in l'.accepted && Genuine(l', k, t.offline[k].msg) {
      assert Genuine(l, k, t.offline[k].msg);
    }
  }

  /** Rows stay right, and nothing that was accepted or undone changes. */
  lemma DbGrows(l: Log, l': Log, db: Db)
    requires DbOk(l, db) && Grows(l, l') && l'.accepted == l.accepted && l'.undone == l.undone
    ensures DbOk(l', db)
  {
    RowsGrow(l, l', db.disk);
    if db.open.Some? { RowsGrow(l, l', db.open.value); }
  }

  ghost predicate SameOwners(conns: map<nat, Conn>, conns': map<nat, Conn>) {
    forall c {:trigger c in conns} :: c in conns ==> c in conns' && conns'[c].owner == conns[c].owner
  }

  lemma JobsGrow(l: Log, l': Log, conns: map<nat, Conn>, conns': map<nat, Conn>, jobs: multiset<Job>)
    requires AllJobs(l, conns, jobs) && Grows(l, l') && SameOwners(conns, conns')
    ensures AllJobs(l', conns', jobs)
  {
    forall j | j in jobs ensures JobOk(l', conns', j) {
      assert JobOk(l, conns, j);
    }
  }

  // ---------- replacing one thing ----------

  lemma ClientReplaced(l: Log, clients: map<Name, Client>, u: Name, cl: Client)
    requires AllClients(l, clients) && ClientOk(l, u, cl)
    ensures AllClients(l, clients[u := cl])
  {
    hide ClientOk;
    var after := clients[u := cl];
    forall v | v in after ensures ClientOk(l, v, after[v]) {
      if v != u { assert ClientOk(l, v, clients[v]); }
    }
  }

  lemma DisplayReplaced(l: Log, clients: map<Name, Client>, u: Name, cl: Client)
    requires AllDisplays(l, clients) && DisplayOk(l, u, cl)
    ensures AllDisplays(l, clients[u := cl])
  {
    hide DisplayOk;
    var after := clients[u := cl];
    forall v | v in after ensures DisplayOk(l, v, after[v]) {
      if v != u { assert DisplayOk(l, v, clients[v]); }
    }
  }

  lemma NumbersReplaced(sent: map<Key, Msg>, clients: map<Name, Client>, u: Name, cl: Client)
    requires AllNumbers(sent, clients) && NumbersOk(sent, u, cl)
    ensures AllNumbers(sent, clients[u := cl])
  {
    hide NumbersOk;
    var after := clients[u := cl];
    forall v | v in after ensures NumbersOk(sent, v, after[v]) {
      if v != u { assert NumbersOk(sent, v, clients[v]); }
    }
  }

  lemma ConnReplaced(l: Log, conns: map<nat, Conn>, c: nat, conn: Conn)
    requires AllConns(l, conns) && ConnOk(l, conn)
    ensures AllConns(l, conns[c := conn])
  {
    hide ConnOk;
    var after := conns[c := conn];
    forall d | d in after ensures ConnOk(l, after[d]) {
      if d != c { assert ConnOk(l, conns[d]); }
    }
  }

  lemma JobsAdded(l: Log, conns: map<nat, Conn>, jobs: multiset<Job>, more: multiset<Job>)
    requires AllJobs(l, conns, jobs) && AllJobs(l, conns, more)
    ensures AllJobs(l, conns, jobs + more)
  {
    hide JobOk;
    forall j | j in jobs + more ensures JobOk(l, conns, j) {
      assert j in jobs || j in more;
    }
  }

  /** A client whose pending numbers and display are as they were. */
  lemma SameFile(l: Log, clients: map<Name, Client>, u: Name, cl: Client)
    requires u in clients && Kept(l, clients) && Displayed(l, clients)
    requires clients[u].pending.items.Keys <= cl.pending.items.Keys && cl.inHand == clients[u].inHand
    ensures Kept(l, clients[u := cl]) && Displayed(l, clients[u := cl])
  {
  }

  lemma SameSocket(clients: map<Name, Client>, conns: map<nat, Conn>, online: map<Name, nat>, u: Name, cl: Client,
                   c: nat, conn: Conn)
    requires Owned(clients, conns, online) && u in clients && c in conns && conn.owner == conns[c].owner
    requires cl.sock == clients[u].sock || cl.sock.None?
    ensures Owned(clients[u := cl], conns[c := conn], online)
  {
  }
}
