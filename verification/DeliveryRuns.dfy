/** What holds in every run: interleavings, disconnects, failing transactions, server restarts and kills included. */
module DeliveryRuns {
  import opened Collections
  import opened Delivery
  import opened DeliveryMachine
  import opened DeliveryInvariant
  import opened DeliverySteps
  import opened DeliveryServer

  lemma StepKeeps(s: State, e: Event)
    requires Inv(s) && Enabled(s, e)
    ensures Inv(After(s, e))
  {
    hide Inv;
    match e
    case Draw(u, millis) => DrawKeeps(s, u, millis);
    case Send(u, n, m) => SendKeeps(s, u, n, m);
    case Transmit(u, n) => TransmitKeeps(s, u, n);
    case Update(u, n, attempts, failed) => UpdateKeeps(s, u, n, attempts, failed);
    case Connect(u, c) => ConnectKeeps(s, u, c);
    case LogIn(u, millis) => LogInKeeps(s, u, millis);
    case DropSocket(u) => DropSocketKeeps(s, u);
    case Dispatch(u, millis, wrote) =>
      match s.conns[s.clients[u].sock.value].down[0] {
        case Ack(_) => AckKeeps(s, u, millis, wrote);
        case Nack(_) => NackKeeps(s, u, millis, wrote);
        case Relay(_, _) => RelayKeeps(s, u, millis, wrote);
      }
    case Show(u) => ShowKeeps(s, u);
    case Kill(u) => KillKeeps(s, u);
    case Cut(c, ups, downs) => CutKeeps(s, c, ups, downs);
    case Handle(c, now, fault) => HandleKeeps(s, c, now, fault);
    case Run(j, wrote) => RunKeeps(s, j, wrote);
    case HangUp(c) => HangUpKeeps(s, c);
    case Restart => RestartKeeps(s);
  }

  lemma {:induction false} RunsKeep(users: set<Name>, events: seq<Event>)
    ensures Inv(Reached(users, events))
  {
    hide Inv, Enabled, After;
    if events == [] {
      StartOk(users);
    } else {
      var s, e := Reached(users, events[..|events| - 1]), events[|events| - 1];
      RunsKeep(users, events[..|events| - 1]);
      if Enabled(s, e) { StepKeeps(s, e); }
    }
  }

  // ---------- no private message is lost ----------

  predicate InFile(s: State, k: Key) { k.from in s.clients && k.seqNo in s.clients[k.from].pending.items }

  predicate Stored(s: State, k: Key) {
    k in s.server.db.disk.offline && k in s.log.sent && SamePayload(s.log.sent[k], s.server.db.disk.offline[k].msg)
  }

  /** Every private message given to `send` is in its sender's file, or committed in `offline_message` as it was sent,
      or has been read by its recipient's client, unless the COMMIT of its own first acceptance failed. */
  lemma {:induction false} NothingIsLost(users: set<Name>, events: seq<Event>, k: Key)
    requires k in Reached(users, events).log.sent && Private(Reached(users, events).log.sent[k])
    requires k !in Reached(users, events).log.undone
    ensures var s := Reached(users, events);
      InFile(s, k) || Stored(s, k) || (s.log.sent[k].to, k) in s.log.received
  {
    hide Reached, AllClients, AllNumbers, AllDisplays, AllConns, AllJobs, Owned, Displayed;
    RunsKeep(users, events);
    var s := Reached(users, events);
    assert k in s.log.accepted ==> Genuine(s.log, k, s.log.accepted[k]);
    assert k in s.server.db.disk.offline ==> Genuine(s.log, k, s.server.db.disk.offline[k].msg);
  }

  /** Without failing COMMITs no message is excepted. */
  lemma {:induction false} SoundUndoesNothing(users: set<Name>, events: seq<Event>)
    requires AllSound(events)
    ensures Reached(users, events).log.undone == {}
  {
    hide After, Enabled;
    if events != [] {
      var before, e := events[..|events| - 1], events[|events| - 1];
      assert AllSound(before) && Sound(events[|events| - 1]);
      SoundUndoesNothing(users, before);
      if Enabled(Reached(users, before), e) { UndoneStep(Reached(users, before), e); }
    }
  }

  lemma UndoneStep(s: State, e: Event)
    requires Enabled(s, e)
    ensures s.log.undone <= After(s, e).log.undone
    ensures Sound(e) ==> After(s, e).log.undone == s.log.undone
  {
    hide Frames, Accept, Delete;
  }

  /** An ACK on its way to a client: the message is in the tables as it was sent, or was read already, unless the
      COMMIT of its own first acceptance failed. */
  lemma {:induction false} AckMeansStored(users: set<Name>, events: seq<Event>, c: nat, i: nat)
    requires c in Reached(users, events).conns
    requires i < |Reached(users, events).conns[c].down| && Reached(users, events).conns[c].down[i].Ack?
    ensures var s := Reached(users, events);
      var k := Key(s.conns[c].owner, s.conns[c].down[i].seqNo);
      && k in s.log.sent
      && (k !in s.log.undone ==> k in s.server.db.disk.seen)
      && (k !in s.log.undone && Private(s.log.sent[k]) ==> Stored(s, k) || (s.log.sent[k].to, k) in s.log.received)
  {
    hide Reached, AllClients, AllNumbers, AllDisplays, AllJobs, Owned, Displayed, Kept;
    RunsKeep(users, events);
    var s := Reached(users, events);
    var k := Key(s.conns[c].owner, s.conns[c].down[i].seqNo);
    assert ConnOk(s.log, s.conns[c]) && DownOk(s.log, s.conns[c].owner, s.conns[c].down[i]);
    assert Genuine(s.log, k, s.log.accepted[k]);
    assert k in s.log.accepted.Keys - s.log.undone ==> k in s.server.db.disk.seen.Keys;
    assert k in s.server.db.disk.offline ==> Genuine(s.log, k, s.server.db.disk.offline[k].msg);
  }

  /** A COMMIT that leaves its transaction open stops every acceptance until the server restarts. */
  lemma {:induction false} OpenTransactionStopsAll(users: set<Name>, events: seq<Event>, more: seq<Event>)
    requires Reached(users, events).server.db.open.Some? && forall i :: 0 <= i < |more| ==> !more[i].Restart?
    ensures var s, t := Reached(users, events), Reached(users, events + more);
      t.server.db.open.Some? && t.server.db.disk == s.server.db.disk && t.log.acceptances == s.log.acceptances
    decreases |more|
  {
    hide After, Enabled;
    if more == [] {
      assert events + more == events;
    } else {
      var n := |more| - 1;
      OpenTransactionStopsAll(users, events, more[..n]);
      assert (events + more)[..|events + more| - 1] == events + more[..n];
      var s := Reached(users, events + more[..n]);
      if Enabled(s, more[n]) { OpenStep(s, more[n]); }
    }
  }

  lemma OpenStep(s: State, e: Event)
    requires Enabled(s, e) && s.server.db.open.Some? && !e.Restart?
    ensures var t := After(s, e);
      t.server.db.open.Some? && t.server.db.disk == s.server.db.disk && t.log.acceptances == s.log.acceptances
  {
    hide Frames;
  }

  // ---------- displayed, in hand or caught by a kill ----------

  /** What a recipient's client read was displayed, is just about to be, or was caught by a kill of that client
      between E2EACK and `on_chat`. */
  lemma {:induction false} ReadIsDisplayed(users: set<Name>, events: seq<Event>, u: Name, k: Key)
    requires (u, k) in Reached(users, events).log.received
    ensures var s := Reached(users, events);
      (u, k) in s.log.shown || (u in s.clients && s.clients[u].inHand == Some(k)) || (u, k) in s.log.vanished
  {
    hide Reached, AllClients, AllNumbers, AllDisplays, AllConns, AllJobs, Owned, Kept, DbOk, LogOk;
    RunsKeep(users, events);
  }

  /** Event `i` kills the client of `u` while it has `k` in hand. */
  predicate KilledInHand(users: set<Name>, events: seq<Event>, i: nat, u: Name, k: Key) {
    && i < |events| && events[i] == Kill(u)
    && var s := Reached(users, events[..i]); u in s.clients && s.clients[u].inHand == Some(k)
  }

  /** The messages that were caught are exactly those that a kill found in hand. */
  lemma {:induction false} VanishedExactly(users: set<Name>, events: seq<Event>, u: Name, k: Key)
    ensures (u, k) in Reached(users, events).log.vanished <==> exists i :: KilledInHand(users, events, i, u, k)
    decreases |events|
  {
    hide After, Enabled;
    if events == [] {
      assert Reached(users, events) == Start(users);
    } else {
      var n := |events| - 1;
      var before, e, s := events[..n], events[n], Reached(users, events[..n]);
      VanishedExactly(users, before, u, k);
      VanishStep(s, e, u, k);
      forall i | 0 <= i < n ensures KilledInHand(users, before, i, u, k) == KilledInHand(users, events, i, u, k) {
        assert before[..i] == events[..i];
      }
      assert KilledInHand(users, events, n, u, k) <==> e == Kill(u) && u in s.clients && s.clients[u].inHand == Some(k);
      if i: nat :| KilledInHand(users, before, i, u, k) { assert KilledInHand(users, events, i, u, k); }
    }
  }

  lemma VanishStep(s: State, e: Event, u: Name, k: Key)
    ensures Enabled(s, e) ==>
      ((u, k) in After(s, e).log.vanished
       <==> (u, k) in s.log.vanished || (e == Kill(u) && u in s.clients && s.clients[u].inHand == Some(k)))
    ensures e == Kill(u) && u in s.clients ==> Enabled(s, e)
  {
    hide Frames, Accept, Delete;
  }

  // ---------- exactly once ----------

  /** No (user, seq) is accepted twice, restarts included, unless the COMMIT of its own first acceptance failed; what
      was accepted is what its `send` was given. */
  lemma {:induction false} AcceptedExactlyOnce(users: set<Name>, events: seq<Event>)
    ensures var s := Reached(users, events);
      && (forall i, j :: 0 <= i < j < |s.log.acceptances| && s.log.acceptances[i] == s.log.acceptances[j] ==>
            s.log.acceptances[i] in s.log.undone)
      && (forall k :: k !in s.log.undone ==> (k in s.log.acceptances <==> k in s.server.db.disk.seen))
      && (forall k :: k in s.log.acceptances ==>
            k in s.log.sent && k in s.log.accepted && SamePayload(s.log.sent[k], s.log.accepted[k]))
  {
    hide Reached, AllClients, AllNumbers, AllDisplays, AllConns, AllJobs, Owned, Kept, Displayed;
    RunsKeep(users, events);
    var s := Reached(users, events);
    forall k | k !in s.log.undone ensures k in s.log.accepted <==> k in s.server.db.disk.seen {
      assert k in s.log.accepted.Keys - s.log.undone ==> k in s.server.db.disk.seen.Keys;
      assert k in s.server.db.disk.seen.Keys ==> k in s.log.accepted.Keys;
    }
    assert forall k :: k in s.log.accepted ==> Genuine(s.log, k, s.log.accepted[k]);
  }

  /** A number is given to one `send` only: no later step changes what a key stands for, whatever the clock, and once
      accepted for good its acceptance stays as it was. */
  lemma {:induction false} NumbersAreNeverReused(users: set<Name>, events: seq<Event>, i: nat)
    requires i <= |events|
    ensures Includes(Reached(users, events[..i]).log.sent, Reached(users, events).log.sent)
    ensures Settled(Reached(users, events[..i]).log, Reached(users, events).log)
    decreases |events|
  {
    hide Inv, After, Enabled, Settled;
    if i == |events| {
      assert events[..i] == events;
      SettledSelf(Reached(users, events).log);
    } else {
      var before, e := events[..|events| - 1], events[|events| - 1];
      assert before[..i] == events[..i];
      NumbersAreNeverReused(users, before, i);
      RunsKeep(users, before);
      if Enabled(Reached(users, before), e) {
        SentGrows(Reached(users, before), e);
        SettledOn(Reached(users, events[..i]).log, Reached(users, before).log, Reached(users, events).log);
      }
    }
  }

  /** What was accepted for good stays accepted for good, unchanged. */
  ghost predicate Settled(l: Log, l': Log) {
    && l.undone <= l'.undone && l.accepted.Keys <= l'.accepted.Keys
    && forall k :: k in l.accepted && k !in l.undone ==> k !in l'.undone && l'.accepted[k] == l.accepted[k]
  }

  lemma SettledSelf(l: Log)
    ensures Settled(l, l)
  {
  }

  lemma SettledOn(l: Log, l': Log, l'': Log)
    requires Settled(l, l') && Settled(l', l'')
    ensures Settled(l, l'')
  {
  }

  lemma SentGrows(s: State, e: Event)
    requires Inv(s) && Enabled(s, e)
    ensures Includes(s.log.sent, After(s, e).log.sent) && Settled(s.log, After(s, e).log)
  {
    hide Inv, Frames, Delete, Accept;
    match e
    case Send(u, n, m) => FreshKey(s, u, n);
    case Handle(c, now, fault) =>
      if s.conns[c].up[0].Message? { MessageSettles(s, c, now, fault); }
    case _ =>
  }

  lemma FreshKey(s: State, u: Name, n: int)
    requires Inv(s) && u in s.clients && n in s.clients[u].unused
    ensures Key(u, n) !in s.log.sent
  {
    hide AllClients, AllDisplays, AllConns, AllJobs, Owned, Kept, Displayed, LogOk, DbOk;
    assert NumbersOk(s.log.sent, u, s.clients[u]);
  }

  lemma MessageSettles(s: State, c: nat, now: int, fault: Fault)
    requires Inv(s) && Enabled(s, Handle(c, now, fault)) && s.conns[c].up[0].Message?
    ensures Settled(s.log, After(s, Handle(c, now, fault)).log)
  {
    hide Inv, DbOk, Accept;
    DbAndLog(s);
    var Message(n, m0) := s.conns[c].up[0];
    var m := if m0.ts <= 0 then m0.(ts := now) else m0;
    var k := Key(s.conns[c].owner, n);
    AcceptResult(s.server.db, k, m, fault);
    if Accept(s.server.db, k, m, fault).1 == 1 { FirstOrUndone(s.log, s.server.db, k, m, fault); }
  }

  // ---------- who sees what ----------

  /** A message is read only by clients it is meant for. */
  lemma OnlyRecipientsRead(users: set<Name>, events: seq<Event>, u: Name, k: Key)
    requires (u, k) in Reached(users, events).log.received
    ensures var l := Reached(users, events).log; k in l.sent && (l.sent[k].to == u || l.sent[k].to == ALL)
  {
    hide Reached, AllClients, AllNumbers, AllDisplays, AllConns, AllJobs, Owned, Kept, Displayed, DbOk;
    RunsKeep(users, events);
    var l := Reached(users, events).log;
    assert k in l.accepted && Genuine(l, k, l.accepted[k]);
  }

  /** However often a message is pushed again, one process displays it once. */
  lemma DisplayedOncePerProcess(users: set<Name>, events: seq<Event>, u: Name, i: nat, j: nat)
    requires u in Reached(users, events).clients
    requires i < j < |Reached(users, events).clients[u].displayed|
    ensures Reached(users, events).clients[u].displayed[i] != Reached(users, events).clients[u].displayed[j]
  {
    hide Reached, AllClients, AllNumbers, AllConns, AllJobs, Owned, Kept, Displayed, DbOk, LogOk;
    RunsKeep(users, events);
    var s := Reached(users, events);
    assert DisplayOk(s.log, u, s.clients[u]);
  }
}
