/** Whom a lookup reaches: everybody online for a public message, the recipient for a private one. */
module DeliveryForward {
  import opened Collections
  import opened Delivery
  import opened DeliveryMachine
  import opened DeliveryInvariant
  import opened DeliveryServer
  import opened DeliveryRuns
  import opened DeliveryProgress
  import opened DeliveryDisplay

  // ---------- the frames of a lookup ----------

  /** `j` is about to write message `k` to the session of a user it is meant for. */
  predicate RelayTo(online: map<Name, nat>, k: Key, m: Msg, j: Job) {
    exists u :: u in online && (m.to == ALL || m.to == u) && j == Write(online[u], Relay(k, m))
  }

  /** One job goes, one relay comes for each session of `m`'s recipients, and nothing else changes. */
  ghost predicate QueuesRelays(s: State, t: State, k: Key, m: Msg) {
    && t == s.(server := s.server.(jobs := t.server.jobs))
    && forall j {:trigger t.server.jobs[j]} ::
         t.server.jobs[j] + (if j == Forward(k, m) then 1 else 0)
         == s.server.jobs[j] + (if RelayTo(s.server.online, k, m, j) then 1 else 0)
  }

  lemma FramesAre(s: State, k: Key, m: Msg, j: Job)
    ensures j in Frames(s, Forward(k, m)) <==> RelayTo(s.server.online, k, m, j)
  {
  }

  /** Looking up the recipients in a reached state: every user online gets a public message, the sender included, a
      private one goes to its recipient if that user is online; each session is reached by its own connection, once,
      with what was given to `send`. */
  lemma {:induction false} ForwardReachesExactly(users: set<Name>, events: seq<Event>, k: Key, m: Msg, wrote: bool)
    requires Forward(k, m) in Reached(users, events).server.jobs
    ensures var s := Reached(users, events);
      && k in s.log.sent && SamePayload(s.log.sent[k], m)
      && QueuesRelays(s, After(s, Run(Forward(k, m), wrote)), k, m)
      && (forall u :: u in s.server.online ==> Owns(s.conns, u, s.server.online[u]))
      && (forall u, v :: u in s.server.online && v in s.server.online && u != v ==>
          s.server.online[u] != s.server.online[v])
  {
    hide Reached, Inv, QueuesRelays, SamePayload;
    RunsKeep(users, events);
    var s := Reached(users, events);
    QueuedNow(s, k, m);
    RunIsOne(s, Forward(k, m), wrote);
    OnlineOwned(s);
  }

  /** Whether a write succeeds matters to writes only. */
  lemma RunIsOne(s: State, j: Job, wrote: bool)
    requires j in s.server.jobs && !j.Write?
    ensures After(s, Run(j, wrote)) == After(s, Run(j, true))
  {
  }

  lemma QueuedNow(s: State, k: Key, m: Msg)
    requires Inv(s) && Forward(k, m) in s.server.jobs
    ensures k in s.log.sent && SamePayload(s.log.sent[k], m)
    ensures QueuesRelays(s, After(s, Run(Forward(k, m), true)), k, m)
  {
    hide Inv, Frames, RelayTo, SamePayload;
    JobFacts(s, Forward(k, m));
    forall j ensures j in Frames(s, Forward(k, m)) <==> RelayTo(s.server.online, k, m, j) {
      FramesAre(s, k, m, j);
    }
  }

  // ---------- everybody in session can display it ----------

  /** A user whose client is on the connection that the server knows, with a frame for `k` about to be written. */
  predicate InTouch(s: State, u: Name) {
    && u in s.server.online && u in s.clients && s.clients[u].sock == Some(s.server.online[u])
    && s.server.online[u] in s.conns && s.conns[s.server.online[u]].open
  }

  predicate Due(s: State, u: Name, k: Key, m: Msg) {
    && u in s.clients && s.clients[u].sock.Some? && s.clients[u].sock.value in s.conns
    && var c := s.clients[u].sock.value;
       s.conns[c].open && s.conns[c].owner == u && Write(c, Relay(k, m)) in s.server.jobs
  }

  lemma DueStays(s: State, t: State, u: Name, v: Name, k: Key, m: Msg)
    requires Apart(s, t, u) && v != u && Due(s, v, k, m)
    ensures Due(t, v, k, m)
  {
  }

  lemma {:induction false} ServeAll(s: State, us: set<Name>, k: Key, m: Msg) returns (t: State)
    requires Inv(s) && forall u :: u in us ==> Due(s, u, k, m)
    ensures CanBecome(s, t) && forall u :: u in us ==> (u, k) in t.log.shown
    ensures s.log.shown <= t.log.shown
    decreases us
  {
    hide Inv, CanBecome, Apart, Due, Arrived;
    if us == {} {
      CanStay(s);
      t := s;
    } else {
      var u :| u in us;
      var s1 := ServeOne(s, u, k, m);
      forall v | v in us - {u} ensures Due(s1, v, k, m) {
        DueStays(s, s1, u, v, k, m);
      }
      t := ServeAll(s1, us - {u}, k, m);
      CanFollow(s, s1, t);
      ShownStays(s, s1, u);
    }
  }

  lemma ShownStays(s: State, t: State, u: Name)
    requires Apart(s, t, u)
    ensures s.log.shown <= t.log.shown
  {
  }

  lemma ServeOne(s: State, u: Name, k: Key, m: Msg) returns (t: State)
    requires Inv(s) && Due(s, u, k, m)
    ensures CanBecome(s, t) && Inv(t) && (u, k) in t.log.shown && Apart(s, t, u)
  {
    hide Inv, CanBecome, Apart, Arrived;
    var s1 := WriteAndRead(s, u, s.clients[u].sock.value, k, m);
    t := ArrivedShows(s1, u, k);
    CanFollow(s, s1, t);
    ApartOn(s, s1, t, u);
  }

  /** One continuation that serves every recipient in session. */
  lemma ServeSession(s: State, k: Key, m: Msg) returns (t: State)
    requires Inv(s) && Forward(k, m) in s.server.jobs && QueuesRelays(s, After(s, Run(Forward(k, m), true)), k, m)
    ensures CanBecome(s, t)
    ensures forall u :: InTouch(s, u) && (m.to == ALL || m.to == u) ==> (u, k) in t.log.shown
  {
    hide Inv, After, Enabled, RelayTo, CanBecome, InTouch, Due, QueuesRelays;
    var e := Run(Forward(k, m), true);
    CanRun(s, Forward(k, m));
    CanStay(s);
    Then(s, s, e);
    OnlineOwned(s);
    var s1 := After(s, e);
    var us := set u | u in s.server.online && InTouch(s, u) && (m.to == ALL || m.to == u);
    forall u | u in us ensures Due(s1, u, k, m) {
      NowDue(s, s1, u, k, m);
    }
    t := ServeAll(s1, us, k, m);
    CanFollow(s, s1, t);
    forall u | InTouch(s, u) && (m.to == ALL || m.to == u) ensures u in us {
      TouchIsOnline(s, u);
    }
  }

  lemma TouchIsOnline(s: State, u: Name)
    requires InTouch(s, u)
    ensures u in s.server.online
  {
  }

  lemma CanRun(s: State, j: Job)
    requires j in s.server.jobs
    ensures Enabled(s, Run(j, true))
  {
  }

  lemma NowDue(s: State, t: State, u: Name, k: Key, m: Msg)
    requires InTouch(s, u) && (m.to == ALL || m.to == u) && QueuesRelays(s, t, k, m)
    requires Owns(s.conns, u, s.server.online[u])
    ensures Due(t, u, k, m)
  {
    var j := Write(s.server.online[u], Relay(k, m));
    assert RelayTo(s.server.online, k, m, j);
    assert t.server.jobs[j] + 0 == s.server.jobs[j] + 1;
  }

  /** From any reached state in which the recipients of a message are about to be looked up, one continuation displays
      it to all of them that are in session: to everybody, if the message is public. */
  lemma {:induction false} AllInSessionCanDisplay(users: set<Name>, events: seq<Event>, k: Key, m: Msg)
    requires Forward(k, m) in Reached(users, events).server.jobs
    ensures var s := Reached(users, events);
      exists more :: AllSound(more)
        && forall u :: InTouch(s, u) && (m.to == ALL || m.to == u) ==> (u, k) in Reached(users, events + more).log.shown
  {
    hide Reached, Inv, Leads, After, InTouch, QueuesRelays;
    var s := Reached(users, events);
    RunsKeep(users, events);
    ForwardReachesExactly(users, events, k, m, true);
    var t := ServeSession(s, k, m);
    var more :| AllSound(more) && Leads(s, more, t);
    LeadsReached(users, events, more, t);
  }

  lemma TouchStays(s: State, t: State, u: Name, v: Name)
    requires Apart(s, t, u) && v != u && InTouch(s, v) && Owns(s.conns, v, s.server.online[v])
    ensures InTouch(t, v)
  {
  }

  lemma NotSeen(s: State, k: Key)
    requires Inv(s) && k !in s.log.accepted
    ensures k !in s.server.db.disk.seen
  {
    hide AllClients, AllNumbers, AllDisplays, AllConns, AllJobs, Owned, LogOk, Kept, Displayed;
    assert k in s.server.db.disk.seen.Keys ==> k in s.log.accepted.Keys;
  }

  /** A public message in its sender's file, in any reached state without a transaction left open: one continuation
      hands it to the server and displays it to everybody in session, the sender included. */
  lemma {:induction false} PublicCanReachEverybody(users: set<Name>, events: seq<Event>, k: Key)
    requires k in Reached(users, events).log.sent && Reached(users, events).log.sent[k].to == ALL && ValidName(k.from)
    requires k !in Reached(users, events).log.accepted && Reached(users, events).server.db.open.None?
    ensures var s := Reached(users, events);
      exists more :: AllSound(more) && (k.from, k) in Reached(users, events + more).log.shown
        && forall u :: InTouch(s, u) ==> (u, k) in Reached(users, events + more).log.shown
  {
    hide Reached, Inv, Leads, After, InTouch, QueuesRelays, Apart, ValidName, CanBecome;
    var s := Reached(users, events);
    RunsKeep(users, events);
    KeptFacts(s, k);
    PendingIsHeld(s, k.from, k.seqNo);
    NotSeen(s, k);
    var s1, c := HandIn(s, k.from, k.seqNo);
    var m :| Forward(k, m) in s1.server.jobs;
    QueuedNow(s1, k, m);
    SenderInTouch(s1, k.from, c);
    OnlineOwned(s);
    forall u | InTouch(s, u) ensures InTouch(s1, u) {
      TouchIsOnline(s, u);
      if u != k.from { TouchStays(s, s1, k.from, u); }
    }
    var t := ServeSession(s1, k, m);
    CanFollow(s, s1, t);
    Witness(users, events, s, t);
    var more :| AllSound(more) && Reached(users, events + more) == t;
  }

  lemma SenderInTouch(s: State, u: Name, c: nat)
    requires u in s.clients && s.clients[u].sock == Some(c) && u in s.server.online && s.server.online[u] == c
    requires c in s.conns && s.conns[c].open
    ensures InTouch(s, u)
  {
  }

  lemma Witness(users: set<Name>, events: seq<Event>, s: State, t: State)
    requires s == Reached(users, events) && CanBecome(s, t)
    ensures exists more :: AllSound(more) && Reached(users, events + more) == t
  {
    hide Reached, Leads;
    var more :| AllSound(more) && Leads(s, more, t);
    LeadsReached(users, events, more, t);
  }
}
