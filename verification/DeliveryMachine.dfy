/** All the clients, connections and server threads of the chat, one step at a time. */
module DeliveryMachine {
  import opened Collections
  import opened Delivery

  // ---------- states ----------

  datatype Up = Login | Message(seqNo: int, msg: Msg) | E2eAck(key: Key)
  datatype Down = Ack(seqNo: int) | Nack(seqNo: int) | Relay(key: Key, msg: Msg)

  /** A connection with the frames under way in both directions. `login` is the server's `logged_in`; a client
      only ever logs in under its own name. A connection that is not open takes no more frames. */
  datatype Conn = Conn(owner: Name, login: bool, up: seq<Up>, down: seq<Down>, open: bool)

  /** `pending` is the file and survives a kill, the rest does not: items that threads may still refer to,
      numbers drawn but not used yet, the socket, `_rx_seen`, the message between E2EACK and `on_chat`, and what
      this process has displayed. */
  datatype Client = Client(pending: Pending, held: map<int, Item>, unused: set<int>, sock: Option<nat>,
                           rxSeen: set<Key>, inHand: Option<Key>, displayed: seq<Key>)

  /** What server threads still have to do: write one frame, look up the recipient, or push stored rows. */
  datatype Job = Write(conn: nat, frame: Down) | Forward(key: Key, msg: Msg) | Backfill(conn: nat)

  /** The committed tables are on disk; the rest is lost in a restart. */
  datatype Server = Server(db: Db, online: map<Name, nat>, jobs: multiset<Job>)

  /** What happened: messages given to `send`, first acceptances with what was accepted, those of them whose COMMIT
      failed, frames that a recipient's client read, messages displayed, and messages that a kill caught before
      their display. */
  datatype Log = Log(sent: map<Key, Msg>, accepted: map<Key, Msg>, acceptances: seq<Key>, undone: set<Key>,
                     received: set<(Name, Key)>, shown: set<(Name, Key)>, vanished: set<(Name, Key)>)

  datatype State = State(clients: map<Name, Client>, conns: map<nat, Conn>, server: Server, log: Log)

  const NO_PENDING := Pending(1, map[])
  const NEW_CLIENT := Client(NO_PENDING, map[], {}, None, {}, None, [])

  function Start(users: set<Name>): State {
    State(map u | u in users :: NEW_CLIENT, map[], Server(EMPTY_DB, map[], multiset{}),
          Log(map[], map[], [], {}, {}, {}, {}))
  }

  // ---------- events ----------

  datatype Event =
    | Draw(user: Name, millis: int)
    | Send(user: Name, seqNo: int, msg: Msg)
    | Transmit(user: Name, seqNo: int)
    | Update(user: Name, seqNo: int, attempts: nat, failed: bool)
    | Connect(user: Name, conn: nat)
    | LogIn(user: Name, millis: int)
    | DropSocket(user: Name)
    | Dispatch(user: Name, millis: int, wrote: bool)
    | Show(user: Name)
    | Kill(user: Name)
    | Cut(conn: nat, ups: nat, downs: nat)
    | Handle(conn: nat, now: int, fault: Fault)
    | Run(job: Job, wrote: bool)
    | HangUp(conn: nat)
    | Restart

  predicate HasSocket(s: State, u: Name) {
    u in s.clients && s.clients[u].sock.Some? && s.clients[u].sock.value in s.conns
  }

  predicate Enabled(s: State, e: Event) {
    match e
    case Draw(u, _) => u in s.clients
    case Send(u, n, _) => u in s.clients && n in s.clients[u].unused
    case Transmit(u, n) => HasSocket(s, u) && n in s.clients[u].held && s.clients[u].held[n].attempts < MAX_ATTEMPTS
    case Update(u, n, _, _) => u in s.clients && n in s.clients[u].held
    case Connect(u, c) => u in s.clients && s.clients[u].sock.None? && c !in s.conns
    case LogIn(u, _) => HasSocket(s, u)
    case DropSocket(u) => HasSocket(s, u)
    case Dispatch(u, _, _) =>
      HasSocket(s, u) && s.clients[u].inHand.None? && s.conns[s.clients[u].sock.value].down != []
    case Show(u) => u in s.clients && s.clients[u].inHand.Some?
    case Kill(u) => u in s.clients
    case Cut(c, ups, downs) => c in s.conns && ups <= |s.conns[c].up| && downs <= |s.conns[c].down|
    case Handle(c, now, _) => c in s.conns && s.conns[c].up != [] && now > 0
    case Run(j, _) => j in s.server.jobs
    case HangUp(c) => c in s.conns
    case Restart => true
  }

  // ---------- client steps ----------

  function WithClient(s: State, u: Name, cl: Client): State { s.(clients := s.clients[u := cl]) }

  function WithConn(s: State, c: nat, conn: Conn): State { s.(conns := s.conns[c := conn]) }

  /** A frame written to the current socket; a closed connection swallows it. */
  function Written(conn: Conn, f: Up): Conn { if conn.open then conn.(up := conn.up + [f]) else conn }

  function Drawn(cl: Client, millis: int): Client {
    var (p, n) := Alloc(cl.pending, millis);
    cl.(pending := p, unused := cl.unused + {n})
  }

  function PutItem(cl: Client, n: int, item: Item): Client {
    cl.(pending := cl.pending.(items := cl.pending.items[n := item]), held := cl.held[n := item])
  }

  function Sent(s: State, u: Name, n: int, m: Msg): State
    requires u in s.clients
  {
    var cl := PutItem(s.clients[u], n, Item(m, 0, false));
    WithClient(s, u, cl.(unused := cl.unused - {n})).(log := s.log.(sent := s.log.sent[Key(u, n) := m]))
  }

  /** `_dispatch` on the next frame. A chat message is confirmed first, then checked against `_rx_seen`. */
  function Dispatched(s: State, u: Name, millis: int, wrote: bool): State
    requires Enabled(s, Dispatch(u, millis, wrote))
  {
    var cl := s.clients[u];
    var c := cl.sock.value;
    var conn := s.conns[c].(down := s.conns[c].down[1..]);
    match s.conns[c].down[0]
    case Ack(n) =>
      WithClient(WithConn(s, c, conn), u, cl.(pending := cl.pending.(items := cl.pending.items - {n})))
    case Nack(n) =>
      var cl' := if n in cl.pending.items then PutItem(cl, n, cl.pending.items[n].(failed := true)) else cl;
      WithClient(WithConn(s, c, conn), u, cl')
    case Relay(k, m) =>
      var confirm := Private(m) && k.seqNo > 0;
      var cl' := if confirm then Drawn(cl, millis) else cl;
      var conn' := if confirm && wrote then Written(conn, E2eAck(k)) else conn;
      var cl'' := if k in cl.rxSeen then cl' else cl'.(rxSeen := cl.rxSeen + {k}, inHand := Some(k));
      WithClient(WithConn(s, c, conn'), u, cl'').(log := s.log.(received := s.log.received + {(u, k)}))
  }

  function Shown(s: State, u: Name): State
    requires Enabled(s, Show(u))
  {
    var cl := s.clients[u];
    var k := cl.inHand.value;
    WithClient(s, u, cl.(inHand := None, displayed := cl.displayed + [k]))
    .(log := s.log.(shown := s.log.shown + {(u, k)}))
  }

  function Closed(conn: Conn): Conn { conn.(open := false) }

  function Killed(s: State, u: Name): State
    requires u in s.clients
  {
    var cl := s.clients[u];
    var s' := WithClient(s, u, Client(cl.pending, cl.pending.items, {}, None, {}, None, []));
    s'.(conns := if HasSocket(s, u) then s.conns[cl.sock.value := Closed(s.conns[cl.sock.value])] else s.conns,
        log := if cl.inHand.Some? then s.log.(vanished := s.log.vanished + {(u, cl.inHand.value)}) else s.log)
  }

  // ---------- server steps ----------

  function AddJobs(s: State, jobs: multiset<Job>): State { s.(server := s.server.(jobs := s.server.jobs + jobs)) }

  /** `doLogin`: a second connection of the same user pushes the first one out. */
  function LoggedIn(s: State, c: nat): State
    requires c in s.conns
  {
    var conn, u := s.conns[c], s.conns[c].owner;
    if conn.login || !ValidName(u) || (u in s.server.online && s.server.online[u] == c) then
      AddJobs(s, multiset{Write(c, Nack(0))})
    else
      var conns := if u in s.server.online && s.server.online[u] in s.conns
                   then s.conns[s.server.online[u] := s.conns[s.server.online[u]].(login := false)] else s.conns;
      AddJobs(s.(conns := conns[c := conn.(login := true)], server := s.server.(online := s.server.online[u := c])),
              multiset{Backfill(c)})
  }

  /** `doMessage`: checks, the transaction, then an ACK and the attempt to forward. */
  function MessageHandled(s: State, c: nat, n: int, m0: Msg, now: int, fault: Fault): State
    requires c in s.conns
  {
    var conn := s.conns[c];
    var m := if m0.ts <= 0 then m0.(ts := now) else m0;
    if !conn.login || n <= 0 || (m.to != ALL && !ValidName(m.to)) then AddJobs(s, multiset{Write(c, Nack(n))})
    else
      var k := Key(conn.owner, n);
      var (db, result) := Accept(s.server.db, k, m, fault);
      var s' := s.(server := s.server.(db := db));
      if result < 0 then AddJobs(s, multiset{Write(c, Nack(n))})
      else if result == 0 then AddJobs(s', multiset{Write(c, Ack(n))})
      else AddJobs(s'.(log := Entered(s.log, k, m, fault)), multiset{Write(c, Ack(n)), Forward(k, m)})
  }

  /** A first acceptance. */
  function Entered(l: Log, k: Key, m: Msg, fault: Fault): Log {
    l.(accepted := l.accepted[k := m], acceptances := l.acceptances + [k],
       undone := if fault.AtCommit? then l.undone + {k} else l.undone)
  }

  function Handled(s: State, c: nat, now: int, fault: Fault): State
    requires Enabled(s, Handle(c, now, fault))
  {
    var conn := s.conns[c];
    var s' := WithConn(s, c, conn.(up := conn.up[1..]));
    match conn.up[0]
    case Login => LoggedIn(s', c)
    case Message(n, m) => MessageHandled(s', c, n, m, now, fault)
    case E2eAck(k) =>
      if conn.login && k.seqNo > 0 && k.from != [] && fault.Fine? then
        s'.(server := s.server.(db := Delete(s.server.db, conn.owner, k)))
      else s'
  }

  /** The frames that a lookup in `online_` or in `offline_message` leads to. */
  function Frames(s: State, j: Job): set<Job> {
    match j
    case Write(_, _) => {}
    case Forward(k, m) =>
      if Private(m) then (if m.to in s.server.online then {Write(s.server.online[m.to], Relay(k, m))} else {})
      else set u | u in s.server.online :: Write(s.server.online[u], Relay(k, m))
    case Backfill(c) =>
      if c !in s.conns then {}
      else
        var t := s.server.db.View();
        set k | k in t.offline && t.offline[k].msg.to == s.conns[c].owner :: Write(c, Relay(k, t.offline[k].msg))
  }

  function JobDone(s: State, j: Job, wrote: bool): State {
    var s' := s.(server := s.server.(jobs := s.server.jobs - multiset{j} + multiset(Frames(s, j))));
    if j.Write? && wrote && j.conn in s.conns && s.conns[j.conn].open then
      WithConn(s', j.conn, s.conns[j.conn].(down := s.conns[j.conn].down + [j.frame]))
    else s'
  }

  function HungUp(s: State, c: nat): State
    requires c in s.conns
  {
    var u := s.conns[c].owner;
    var online := if s.conns[c].login && u in s.server.online && s.server.online[u] == c
                  then s.server.online - {u} else s.server.online;
    WithConn(s, c, Closed(s.conns[c]).(login := false)).(server := s.server.(online := online))
  }

  function Restarted(s: State): State {
    s.(conns := map c | c in s.conns :: Conn(s.conns[c].owner, false, [], s.conns[c].down, false),
       server := Server(s.server.db.(open := None), map[], multiset{}))
  }

  // ---------- runs ----------

  function After(s: State, e: Event): State
    requires Enabled(s, e)
  {
    match e
    case Draw(u, millis) => WithClient(s, u, Drawn(s.clients[u], millis))
    case Send(u, n, m) => Sent(s, u, n, m)
    case Transmit(u, n) =>
      var c := s.clients[u].sock.value;
      WithConn(s, c, Written(s.conns[c], Message(n, s.clients[u].held[n].msg)))
    case Update(u, n, attempts, failed) =>
      WithClient(s, u, PutItem(s.clients[u], n, Item(s.clients[u].held[n].msg, attempts, failed)))
    case Connect(u, c) =>
      WithClient(WithConn(s, c, Conn(u, false, [], [], true)), u, s.clients[u].(sock := Some(c)))
    case LogIn(u, millis) =>
      var c := s.clients[u].sock.value;
      WithClient(WithConn(s, c, Written(s.conns[c], Login)), u, Drawn(s.clients[u], millis))
    case DropSocket(u) =>
      var c := s.clients[u].sock.value;
      WithClient(WithConn(s, c, Closed(s.conns[c])), u, s.clients[u].(sock := None))
    case Dispatch(u, millis, wrote) => Dispatched(s, u, millis, wrote)
    case Show(u) => Shown(s, u)
    case Kill(u) => Killed(s, u)
    case Cut(c, ups, downs) =>
      WithConn(s, c, Closed(s.conns[c]).(up := s.conns[c].up[..ups], down := s.conns[c].down[..downs]))
    case Handle(c, now, fault) => Handled(s, c, now, fault)
    case Run(j, wrote) => JobDone(s, j, wrote)
    case HangUp(c) => HungUp(s, c)
    case Restart => Restarted(s)
  }

  /** States reached by taking the events in turn; one that is not enabled changes nothing. */
  function Reached(users: set<Name>, events: seq<Event>): State {
    if events == [] then Start(users)
    else
      var s, e := Reached(users, events[..|events| - 1]), events[|events| - 1];
      if Enabled(s, e) then After(s, e) else s
  }

  /** No COMMIT failed behind the server's back. */
  predicate Sound(e: Event) { e.Handle? ==> !e.fault.AtCommit? }

  predicate AllSound(events: seq<Event>) { forall i :: 0 <= i < |events| ==> Sound(events[i]) }

  /** Taking enabled events one after the other. */
  ghost predicate Leads(s: State, events: seq<Event>, t: State)
    decreases |events|
  {
    if events == [] then s == t else Enabled(s, events[0]) && Leads(After(s, events[0]), events[1..], t)
  }

  lemma {:induction false} LeadsReached(users: set<Name>, before: seq<Event>, events: seq<Event>, t: State)
    requires Leads(Reached(users, before), events, t)
    ensures Reached(users, before + events) == t
    decreases |events|
  {
    hide Enabled, After;
    if events == [] {
      assert before + events == before;
    } else {
      var next := before + [events[0]];
      assert next[..|before|] == before;
      assert before + events == next + events[1..];
      LeadsReached(users, next, events[1..], t);
    }
  }

  lemma {:induction false} LeadsOn(s: State, events: seq<Event>, t: State, more: seq<Event>, r: State)
    requires Leads(s, events, t) && Leads(t, more, r)
    ensures Leads(s, events + more, r)
    decreases |events|
  {
    hide Enabled, After;
    if events == [] {
      assert events + more == more;
    } else {
      assert (events + more)[1..] == events[1..] + more;
      LeadsOn(After(s, events[0]), events[1..], t, more, r);
    }
  }
}
