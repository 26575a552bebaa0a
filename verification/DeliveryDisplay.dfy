/** When a message can still reach the screen: exactly while some copy of it is left on the way there. */
module DeliveryDisplay {
  import opened Collections
  import opened Delivery
  import opened DeliveryMachine
  import opened DeliveryInvariant
  import opened DeliverySteps
  import opened DeliveryServer
  import opened DeliveryRuns
  import opened DeliveryProgress

  // ---------- copies ----------

  predicate InTables(db: Db, k: Key) { k in db.disk.offline || (db.open.Some? && k in db.open.value.offline) }

  ghost predicate Forwarding(jobs: multiset<Job>, k: Key) { exists m :: Forward(k, m) in jobs }

  ghost predicate Writing(jobs: multiset<Job>, c: nat, k: Key) { exists m :: Write(c, Relay(k, m)) in jobs }

  ghost predicate Coming(conn: Conn, k: Key) { exists m :: Relay(k, m) in conn.down }

  /** On the recipient's current connection, or about to be written to it while it is open. */
  ghost predicate OnTheLine(s: State, to: Name, k: Key) {
    && to in s.clients && s.clients[to].sock.Some? && s.clients[to].sock.value in s.conns
    && var c := s.clients[to].sock.value;
       Coming(s.conns[c], k) || (s.conns[c].open && Writing(s.server.jobs, c, k))
  }

  predicate AtHand(s: State, to: Name, k: Key) { to in s.clients && s.clients[to].inHand == Some(k) }

  /** Already displayed, in hand, not accepted yet, stored, or under way to the recipient's current connection. An
      item that stays in the sender's file after its acceptance is no copy, nor is a frame for an older connection. */
  ghost predicate Copy(s: State, to: Name, k: Key) {
    || (to, k) in s.log.shown
    || AtHand(s, to, k)
    || k !in s.log.accepted
    || InTables(s.server.db, k)
    || Forwarding(s.server.jobs, k)
    || OnTheLine(s, to, k)
  }

  // ---------- without a copy, never ----------

  /** An accepted message is never accepted again, whatever is resent. */
  lemma NotEnteredAgain(s: State, k: Key)
    requires Inv(s) && k in s.log.accepted && k !in s.log.undone
    ensures k in s.server.db.disk.seen
  {
    hide AllClients, AllNumbers, AllDisplays, AllConns, AllJobs, Owned, LogOk, Kept, Displayed;
    assert k in s.log.accepted.Keys - s.log.undone;
  }

  /** What a dispatch leaves as it was; it takes a message in hand only from the first frame. */
  ghost predicate OnlyReads(s: State, t: State, u: Name, c: nat)
    requires u in s.clients && c in s.conns && s.conns[c].down != []
  {
    && t.server == s.server && t.log.shown == s.log.shown && t.log.accepted == s.log.accepted
    && u in t.clients && t.clients == s.clients[u := t.clients[u]] && t.clients[u].sock == s.clients[u].sock
    && (t.clients[u].inHand.Some? && t.clients[u].inHand != s.clients[u].inHand ==>
          s.conns[c].down[0].Relay? && t.clients[u].inHand.value == s.conns[c].down[0].key)
    && c in t.conns && t.conns == s.conns[c := t.conns[c]]
    && t.conns[c].open == s.conns[c].open && t.conns[c].down == s.conns[c].down[1..]
  }

  lemma DispatchFacts(s: State, u: Name, millis: int, wrote: bool)
    requires Enabled(s, Dispatch(u, millis, wrote))
    ensures OnlyReads(s, Dispatched(s, u, millis, wrote), u, s.clients[u].sock.value)
  {
    hide Handled, After, Drawn;
    DrawnSame(s.clients[u], millis);
  }

  lemma DispatchGone(s: State, u: Name, millis: int, wrote: bool, to: Name, k: Key)
    requires Inv(s) && Enabled(s, Dispatch(u, millis, wrote)) && !Copy(s, to, k)
    ensures !Copy(After(s, Dispatch(u, millis, wrote)), to, k)
  {
    hide Inv, Dispatched;
    ClientFacts(s, u);
    DispatchFacts(s, u, millis, wrote);
    var c := s.clients[u].sock.value;
    assert s.conns[c].down[0] in s.conns[c].down;
    assert forall f :: f in s.conns[c].down[1..] ==> f in s.conns[c].down;
  }

  /** A job that brings `k` to nobody. */
  predicate Harmless(j: Job, k: Key) {
    match j
    case Write(_, f) => !(f.Relay? && f.key == k)
    case Forward(k', _) => k' != k
    case Backfill(_) => true
  }

  /** What handling a frame leaves as it was; what it adds does not bring `k` to anybody. */
  ghost predicate OnlyAdds(s: State, t: State, k: Key) {
    && t.clients == s.clients && t.log.shown == s.log.shown && s.log.accepted.Keys <= t.log.accepted.Keys
    && t.conns.Keys == s.conns.Keys
    && (forall d {:trigger t.conns[d]} :: d in s.conns ==>
          t.conns[d].open == s.conns[d].open && t.conns[d].down == s.conns[d].down)
    && (forall j :: j in t.server.jobs && j !in s.server.jobs ==> Harmless(j, k))
    && !InTables(t.server.db, k)
  }

  lemma LogInAdds(s: State, c: nat, k: Key)
    requires c in s.conns && !InTables(s.server.db, k)
    ensures OnlyAdds(s, LoggedIn(s, c), k)
  {
    hide ValidName;
  }

  lemma MessageAdds(s: State, c: nat, n: int, m0: Msg, now: int, fault: Fault, k: Key)
    requires c in s.conns && !InTables(s.server.db, k) && k in s.server.db.disk.seen
    ensures OnlyAdds(s, MessageHandled(s, c, n, m0, now, fault), k)
  {
    hide ValidName, Accept, InTables, OnlyAdds, AddJobs;
    var m := if m0.ts <= 0 then m0.(ts := now) else m0;
    var x := Key(s.conns[c].owner, n);
    AcceptAdds(s.server.db, x, m, fault, k);
    var (db, result) := Accept(s.server.db, x, m, fault);
    JobsAdd(s, s.server.db, s.log, multiset{Write(c, Nack(n))}, k);
    JobsAdd(s, db, s.log, multiset{Write(c, Ack(n))}, k);
    if result == 1 { JobsAdd(s, db, Entered(s.log, x, m, fault), multiset{Write(c, Ack(n)), Forward(x, m)}, k); }
  }

  lemma JobsAdd(s: State, db: Db, l: Log, jobs: multiset<Job>, k: Key)
    requires !InTables(db, k) && l.shown == s.log.shown && s.log.accepted.Keys <= l.accepted.Keys
    requires forall j :: j in jobs ==> Harmless(j, k)
    ensures OnlyAdds(s, AddJobs(s.(server := s.server.(db := db), log := l), jobs), k)
  {
  }

  lemma AcceptAdds(db: Db, x: Key, m: Msg, fault: Fault, k: Key)
    requires !InTables(db, k) && k in db.disk.seen
    ensures !InTables(Accept(db, x, m, fault).0, k)
    ensures -1 <= Accept(db, x, m, fault).1 <= 1 && (Accept(db, x, m, fault).1 == 1 ==> x != k)
  {
  }

  lemma DeleteAdds(s: State, u: Name, x: Key, k: Key)
    requires !InTables(s.server.db, k)
    ensures OnlyAdds(s, s.(server := s.server.(db := Delete(s.server.db, u, x))), k)
  {
  }

  lemma HandleFacts(s: State, c: nat, now: int, fault: Fault, k: Key)
    requires Enabled(s, Handle(c, now, fault)) && k in s.server.db.disk.seen && !InTables(s.server.db, k)
    ensures OnlyAdds(s, Handled(s, c, now, fault), k)
  {
    hide After, LoggedIn, MessageHandled, Delete, InTables;
    var conn := s.conns[c];
    var s' := WithConn(s, c, conn.(up := conn.up[1..]));
    match conn.up[0]
    case Login => LogInAdds(s', c, k);
    case Message(n, m) => MessageAdds(s', c, n, m, now, fault, k);
    case E2eAck(x) => DeleteAdds(s', conn.owner, x, k);
  }

  lemma HandleGone(s: State, c: nat, now: int, fault: Fault, to: Name, k: Key)
    requires Inv(s) && Enabled(s, Handle(c, now, fault)) && !Copy(s, to, k) && k !in s.log.undone
    ensures !Copy(After(s, Handle(c, now, fault)), to, k)
  {
    hide Inv, Handled;
    NotEnteredAgain(s, k);
    HandleFacts(s, c, now, fault, k);
    assert forall m :: !Harmless(Forward(k, m), k) && forall c :: !Harmless(Write(c, Relay(k, m)), k);
  }

  /** A lookup for another message, or in tables without `k`, leads to no frame for `k`. */
  lemma FramesHarmless(s: State, j: Job, k: Key)
    requires Harmless(j, k) && !InTables(s.server.db, k)
    ensures forall f :: f in Frames(s, j) ==> Harmless(f, k)
  {
  }

  lemma RunGone(s: State, j: Job, wrote: bool, to: Name, k: Key)
    requires j in s.server.jobs && !Copy(s, to, k)
    ensures !Copy(JobDone(s, j, wrote), to, k)
  {
    hide After, Enabled, Frames, InTables;
    assert forall m :: j == Forward(k, m) ==> Forward(k, m) in s.server.jobs;
    assert j.Forward? ==> Harmless(j, k);
    if Harmless(j, k) { FramesHarmless(s, j, k); }
    assert forall m :: !Harmless(Forward(k, m), k) && forall c :: !Harmless(Write(c, Relay(k, m)), k);
    assert j.Write? ==> Frames(s, j) == {} by { WriteLeadsNowhere(s, j); }
  }

  lemma WriteLeadsNowhere(s: State, j: Job)
    ensures j.Write? ==> Frames(s, j) == {}
  {
  }

  lemma ConnectGone(s: State, u: Name, c: nat, to: Name, k: Key)
    requires Inv(s) && Enabled(s, Connect(u, c)) && !Copy(s, to, k)
    ensures !Copy(After(s, Connect(u, c)), to, k)
  {
    hide AllClients, AllNumbers, AllDisplays, AllConns, DbOk, LogOk, Kept, Displayed;
    assert forall m {:trigger Write(c, Relay(k, m))} :: !JobOk(s.log, s.conns, Write(c, Relay(k, m)));
  }

  lemma StepGone(s: State, e: Event, to: Name, k: Key)
    requires Inv(s) && Enabled(s, e) && !Copy(s, to, k) && k !in s.log.undone
    ensures !Copy(After(s, e), to, k)
  {
    hide Inv, Handled, Dispatched, JobDone;
    match e
    case Dispatch(u, millis, wrote) => DispatchGone(s, u, millis, wrote, to, k);
    case Handle(c, now, fault) => HandleGone(s, c, now, fault, to, k);
    case Run(j, wrote) => RunGone(s, j, wrote, to, k);
    case Connect(u, c) => ConnectGone(s, u, c, to, k);
    case _ =>
  }

  /** A message that was accepted for good stays so. */
  lemma AcceptedStays(s: State, e: Event, k: Key)
    requires Inv(s) && Enabled(s, e) && k in s.log.accepted && k !in s.log.undone
    ensures k in After(s, e).log.accepted && k !in After(s, e).log.undone
  {
    hide Inv, After, Enabled;
    SentGrows(s, e);
    assert k in s.log.accepted.Keys;
  }

  /** Once no copy is left, nothing that happens brings one back: no resending, no reconnect, no restart. */
  lemma {:induction false} GoneForGood(users: set<Name>, events: seq<Event>, more: seq<Event>, to: Name, k: Key)
    requires !Copy(Reached(users, events), to, k) && k !in Reached(users, events).log.undone
    ensures var t := Reached(users, events + more); !Copy(t, to, k) && k !in t.log.undone
    decreases |more|
  {
    hide Inv, After, Enabled;
    if more == [] {
      assert events + more == events;
    } else {
      var n := |more| - 1;
      GoneForGood(users, events, more[..n], to, k);
      assert (events + more)[..|events + more| - 1] == events + more[..n];
      var s := Reached(users, events + more[..n]);
      RunsKeep(users, events + more[..n]);
      if Enabled(s, more[n]) {
        StepGone(s, more[n], to, k);
        assert k in s.log.accepted;
        AcceptedStays(s, more[n], k);
      }
    }
  }

  // ---------- with a copy, still possible ----------

  /** What has arrived is displayed, or one step away from it. */
  lemma ArrivedShows(s: State, u: Name, k: Key) returns (t: State)
    requires Inv(s) && Arrived(s, u, k)
    ensures CanBecome(s, t) && Inv(t) && (u, k) in t.log.shown && Apart(s, t, u)
  {
    hide Inv, CanBecome, After, AllConns, Apart;
    ClientFacts(s, u);
    t := ShowAnyway(s, u);
    if s.clients[u].inHand != Some(k) {
      CanStay(s);
      ApartSelf(s, u);
      t := s;
    }
  }

  /** What travels towards `to` is the private message that was sent to it. */
  lemma ForwardFacts(s: State, k: Key, m: Msg)
    requires Inv(s) && Forward(k, m) in s.server.jobs
    ensures k in s.log.sent && m.to == s.log.sent[k].to
  {
    hide Inv;
    JobFacts(s, Forward(k, m));
  }

  lemma FromTheLine(s: State, to: Name, k: Key) returns (t: State)
    requires Inv(s) && OnTheLine(s, to, k)
    ensures CanBecome(s, t) && Inv(t) && Arrived(t, to, k)
  {
    hide Inv, CanBecome;
    var c := s.clients[to].sock.value;
    if Coming(s.conns[c], k) {
      var m :| Relay(k, m) in s.conns[c].down;
      var i :| 0 <= i < |s.conns[c].down| && s.conns[c].down[i] == Relay(k, m);
      t := ReadOn(s, to, c, i, k);
    } else {
      var m :| Write(c, Relay(k, m)) in s.server.jobs;
      t := WriteAndRead(s, to, c, k, m);
    }
  }

  lemma FromTables(s: State, k: Key) returns (t: State)
    requires Inv(s) && k in s.log.accepted && k in s.log.sent && Private(s.log.sent[k]) && InTables(s.server.db, k)
    requires ValidName(s.log.sent[k].to) && s.log.sent[k].to in s.clients
    ensures CanBecome(s, t) && Inv(t) && Arrived(t, s.log.sent[k].to, k)
  {
    hide Inv, CanBecome, ValidName;
    PrivateStays(s, k);
    AcceptedFacts(s, k);
    if k in s.server.db.disk.offline {
      t := CollectStored(s, s.log.sent[k].to, k);
    } else {
      t := Collect(s, s.log.sent[k].to, k);
    }
  }

  lemma CopyShows(s: State, k: Key) returns (t: State)
    requires Inv(s) && k in s.log.sent && Private(s.log.sent[k]) && Copy(s, s.log.sent[k].to, k)
    requires ValidName(k.from) && ValidName(s.log.sent[k].to) && s.log.sent[k].to in s.clients
    ensures CanBecome(s, t) && (s.log.sent[k].to, k) in t.log.shown
  {
    hide Inv, CanBecome, ValidName, OnTheLine, InTables, Arrived;
    var to := s.log.sent[k].to;
    if (to, k) in s.log.shown {
      CanStay(s);
      return s;
    } else if AtHand(s, to, k) {
      t := ShowAnyway(s, to);
      return;
    }
    var s1: State;
    if k !in s.log.accepted {
      s1 := FromFile(s, k);
    } else if InTables(s.server.db, k) {
      s1 := FromTables(s, k);
    } else if OnTheLine(s, to, k) {
      s1 := FromTheLine(s, to, k);
    } else {
      var m :| Forward(k, m) in s.server.jobs;
      ForwardFacts(s, k, m);
      s1 := LookUp(s, to, k, m);
    }
    t := ArrivedShows(s1, to, k);
    CanFollow(s, s1, t);
  }

  // ---------- main result ----------

  lemma ShownStep(s: State, e: Event)
    requires Inv(s) && Enabled(s, e) && s.log.shown <= s.log.received
    ensures After(s, e).log.shown <= After(s, e).log.received
  {
    hide Inv, Frames, Accept, Delete, Drawn, Written, ValidName, PutItem;
    if e.Show? { ClientFacts(s, e.user); }
  }

  /** Nothing is displayed that was not read before. */
  lemma {:induction false} ShownWasRead(users: set<Name>, events: seq<Event>)
    ensures Reached(users, events).log.shown <= Reached(users, events).log.received
  {
    hide Inv, After, Enabled;
    if events != [] {
      var before, e := events[..|events| - 1], events[|events| - 1];
      ShownWasRead(users, before);
      RunsKeep(users, before);
      if Enabled(Reached(users, before), e) { ShownStep(Reached(users, before), e); }
    }
  }

  /** Whether a private message can still be displayed to its recipient: exactly if a copy of it is left, both names
      are valid and the recipient is a user. */
  lemma {:induction false} CanBeDisplayedExactly(users: set<Name>, events: seq<Event>, k: Key)
    requires k in Reached(users, events).log.sent && Private(Reached(users, events).log.sent[k])
    requires k !in Reached(users, events).log.undone
    ensures var s := Reached(users, events); var to := s.log.sent[k].to;
      (exists more :: AllSound(more) && (to, k) in Reached(users, events + more).log.shown)
      <==> Copy(s, to, k) && ValidName(k.from) && ValidName(to) && to in users
    ensures var s := Reached(users, events); var to := s.log.sent[k].to;
      !Copy(s, to, k) ==> forall more :: (to, k) !in Reached(users, events + more).log.shown
  {
    hide Reached, Inv, ValidName, After, Enabled, Copy, Leads;
    var s := Reached(users, events);
    var to := s.log.sent[k].to;
    RunsKeep(users, events);
    UsersOnly(users, events, to, k);
    if Copy(s, to, k) && ValidName(k.from) && ValidName(to) && to in users {
      var t := CopyShows(s, k);
      var more :| AllSound(more) && Leads(s, more, t);
      LeadsReached(users, events, more, t);
    }
    forall more | (to, k) in Reached(users, events + more).log.shown
      ensures Copy(s, to, k) && ValidName(k.from) && ValidName(to) && to in users
    {
      ShownWasRead(users, events + more);
      ArrivedFacts(users, events, more, to, k);
      ShownHadCopy(users, events, more, to, k);
    }
  }

  lemma ShownHadCopy(users: set<Name>, events: seq<Event>, more: seq<Event>, to: Name, k: Key)
    requires (to, k) in Reached(users, events + more).log.shown && k !in Reached(users, events).log.undone
    ensures Copy(Reached(users, events), to, k)
  {
    hide Reached;
    if !Copy(Reached(users, events), to, k) { GoneForGood(users, events, more, to, k); }
  }

  /** The promise that E2EACK makes: a message that was read and can never be displayed any more is one that a kill
      found in hand, after the confirmation and before `on_chat`. */
  lemma {:induction false} OnlyKillsLose(users: set<Name>, events: seq<Event>, k: Key)
    requires k in Reached(users, events).log.sent && Private(Reached(users, events).log.sent[k])
    requires k !in Reached(users, events).log.undone
    requires !Copy(Reached(users, events), Reached(users, events).log.sent[k].to, k)
    ensures exists i :: KilledInHand(users, events, i, Reached(users, events).log.sent[k].to, k)
  {
    hide Reached, Inv, KilledInHand;
    var s := Reached(users, events);
    var to := s.log.sent[k].to;
    RunsKeep(users, events);
    NotEnteredAgain(s, k);
    PrivateStays(s, k);
    AcceptedFacts(s, k);
    ReadIsDisplayed(users, events, to, k);
    VanishedExactly(users, events, to, k);
  }
}
