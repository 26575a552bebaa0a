/** Two runs that show where the delivery guarantee ends. */
module DeliveryWitness {
  import opened Collections
  import opened Delivery
  import opened DeliveryMachine
  import opened DeliveryRuns
  import opened DeliveryDisplay

  const A: Name := [97]

  /** A message that `a` sends to itself. */
  const HELLO: Msg := Msg(A, [104, 105], 5)
  const K: Key := Key(A, 1)
  const ITEM := Item(HELLO, 0, false)

  // ---------- the states that the runs pass ----------

  const A0 := NEW_CLIENT
  const A1 := A0.(pending := Pending(2, map[]), unused := {1})
  const A2 := A1.(pending := Pending(2, map[1 := ITEM]), held := map[1 := ITEM], unused := {})
  const A3 := A2.(sock := Some(0))
  const A4 := A3.(pending := Pending(3, map[1 := ITEM]), unused := {2})
  const A5 := A4.(pending := Pending(3, map[]))
  const A6 := A5.(pending := Pending(4, map[]), unused := {2, 3}, rxSeen := {K}, inHand := Some(K))
  const A7 := Client(Pending(4, map[]), map[], {}, None, {}, None, [])

  const LOG0 := Log(map[], map[], [], {}, {}, {}, {})
  const LOG1 := LOG0.(sent := map[K := HELLO])
  const LOG2 := LOG1.(accepted := map[K := HELLO], acceptances := [K])
  const LOG2_UNDONE := LOG2.(undone := {K})
  const LOG3 := LOG2.(received := {(A, K)})
  const LOG4 := LOG3.(vanished := {(A, K)})

  const STORED := Tables(map[K := 5], map[K := Row(1, HELLO)], 2)
  const GONE := Tables(map[K := 5], map[], 2)

  function At(cl: Client, conn: Conn, t: Tables, jobs: multiset<Job>, l: Log): State {
    State(map[A := cl], map[0 := conn], Server(Db(t, None), map[A := 0], jobs), l)
  }

  function Line(up: seq<Up>, down: seq<Down>): Conn { Conn(A, true, up, down, true) }

  const S0 := State(map[A := A0], map[], Server(EMPTY_DB, map[], multiset{}), LOG0)
  const S1 := S0.(clients := map[A := A1])
  const S2 := S1.(clients := map[A := A2], log := LOG1)
  const S3 := S2.(clients := map[A := A3], conns := map[0 := Conn(A, false, [], [], true)])
  const S4 := S3.(clients := map[A := A4], conns := map[0 := Conn(A, false, [Login], [], true)])
  const S5 := S4.(conns := map[0 := Conn(A, false, [Login, Message(1, HELLO)], [], true)])
  const S6 := At(A4, Line([Message(1, HELLO)], []), NO_TABLES, multiset{Backfill(0)}, LOG1)
  const F7 := At(A4, Line([], []), NO_TABLES, multiset{Backfill(0), Write(0, Ack(1)), Forward(K, HELLO)}, LOG2_UNDONE)
  const F8 := At(A4, Line([], [Ack(1)]), NO_TABLES, multiset{Backfill(0), Forward(K, HELLO)}, LOG2_UNDONE)
  const F9 := At(A5, Line([], []), NO_TABLES, multiset{Backfill(0), Forward(K, HELLO)}, LOG2_UNDONE)
  const G7 := At(A4, Line([], []), STORED, multiset{Backfill(0), Write(0, Ack(1)), Forward(K, HELLO)}, LOG2)
  const G8 := At(A4, Line([], [Ack(1)]), STORED, multiset{Backfill(0), Forward(K, HELLO)}, LOG2)
  const G9 := At(A5, Line([], []), STORED, multiset{Backfill(0), Forward(K, HELLO)}, LOG2)
  const G10 := At(A5, Line([], []), STORED, multiset{Backfill(0), Write(0, Relay(K, HELLO))}, LOG2)
  const G11 := At(A5, Line([], [Relay(K, HELLO)]), STORED, multiset{Backfill(0)}, LOG2)
  const G12 := At(A6, Line([E2eAck(K)], []), STORED, multiset{Backfill(0)}, LOG3)
  const G13 := At(A6, Line([], []), GONE, multiset{Backfill(0)}, LOG3)
  const G14 := At(A7, Closed(Line([], [])), GONE, multiset{Backfill(0)}, LOG4)

  lemma StartIsS0()
    ensures Start({A}) == S0
  {
    assert Start({A}).clients == S0.clients;
  }

  lemma ToS1()
    ensures Enabled(S0, Draw(A, 0)) && After(S0, Draw(A, 0)) == S1
  {
    hide Sent, PutItem, LoggedIn, MessageHandled, Handled, Dispatched, Shown, Killed, JobDone, HungUp, Restarted;
    hide Accept, Delete, Frames;
    assert Drawn(A0, 0) == A1;
    assert After(S0, Draw(A, 0)).clients == S1.clients;
  }

  lemma ToS2()
    ensures Enabled(S1, Send(A, 1, HELLO)) && After(S1, Send(A, 1, HELLO)) == S2
  {
    hide Drawn, LoggedIn, MessageHandled, Handled, Dispatched, Shown, Killed, JobDone, HungUp, Restarted, Accept;
    hide Delete, Frames;
    assert {1} - {1} == {};
    assert After(S1, Send(A, 1, HELLO)).clients == S2.clients;
  }

  lemma ToS3()
    ensures Enabled(S2, Connect(A, 0)) && After(S2, Connect(A, 0)) == S3
  {
    hide Sent, PutItem, Drawn, LoggedIn, MessageHandled, Handled, Dispatched, Shown, Killed, JobDone, HungUp;
    hide Restarted, Accept, Delete, Frames;
    assert After(S2, Connect(A, 0)).clients == S3.clients;
  }

  lemma ToS4()
    ensures Enabled(S3, LogIn(A, 0)) && After(S3, LogIn(A, 0)) == S4
  {
    hide Sent, PutItem, LoggedIn, MessageHandled, Handled, Dispatched, Shown, Killed, JobDone, HungUp, Restarted;
    hide Accept, Delete, Frames;
    assert Drawn(A3, 0) == A4;
    assert [] + [Login] == [Login];
    var t := After(S3, LogIn(A, 0));
    assert t.clients == S4.clients && t.conns == S4.conns;
  }

  lemma ToS5()
    ensures Enabled(S4, Transmit(A, 1)) && After(S4, Transmit(A, 1)) == S5
  {
    hide Sent, PutItem, Drawn, LoggedIn, MessageHandled, Handled, Dispatched, Shown, Killed, JobDone, HungUp;
    hide Restarted, Accept, Delete, Frames;
    assert [Login] + [Message(1, HELLO)] == [Login, Message(1, HELLO)];
    assert After(S4, Transmit(A, 1)).conns == S5.conns;
  }

  lemma ToS6()
    ensures Enabled(S5, Handle(0, 1, Fine)) && After(S5, Handle(0, 1, Fine)) == S6
  {
    hide Sent, PutItem, Drawn, MessageHandled, Dispatched, Shown, Killed, JobDone, HungUp, Restarted, Accept, Delete;
    hide Frames;
    assert [Login, Message(1, HELLO)][1..] == [Message(1, HELLO)];
    var t := After(S5, Handle(0, 1, Fine));
    assert t.conns == S6.conns && t.server.online == S6.server.online;
  }

  lemma Before(s: State, events: seq<Event>, i: nat, next: State, t: State)
    requires i < |events| && Enabled(s, events[i]) && After(s, events[i]) == next && Leads(next, events[i + 1..], t)
    ensures Leads(s, events[i..], t)
  {
    hide Enabled, After;
    assert events[i..][0] == events[i] && events[i..][1..] == events[i + 1..];
  }

  const OPENING := [Draw(A, 0), Send(A, 1, HELLO), Connect(A, 0), LogIn(A, 0), Transmit(A, 1), Handle(0, 1, Fine)]

  lemma Opening()
    ensures Leads(S0, OPENING, S6)
  {
    hide After, Enabled;
    ToS1();
    ToS2();
    ToS3();
    ToS4();
    ToS5();
    ToS6();
    var es := OPENING;
    assert Leads(S6, es[6..], S6);
    Before(S5, es, 5, S6, S6);
    Before(S4, es, 4, S5, S6);
    Before(S3, es, 3, S4, S6);
    Before(S2, es, 2, S3, S6);
    Before(S1, es, 1, S2, S6);
    Before(S0, es, 0, S1, S6);
    assert es[0..] == es;
  }

  // ---------- a COMMIT that fails unnoticed ----------

  lemma ToF7()
    ensures Enabled(S6, Handle(0, 1, AtCommit(true))) && After(S6, Handle(0, 1, AtCommit(true))) == F7
  {
    hide Sent, PutItem, Drawn, LoggedIn, Dispatched, Shown, Killed, JobDone, HungUp, Restarted, Delete, Frames;
    assert [Message(1, HELLO)][1..] == [];
    var t := After(S6, Handle(0, 1, AtCommit(true)));
    assert t.conns == F7.conns && t.log == F7.log;
  }

  lemma ToF8()
    ensures Enabled(F7, Run(Write(0, Ack(1)), true)) && After(F7, Run(Write(0, Ack(1)), true)) == F8
  {
    hide Sent, PutItem, Drawn, LoggedIn, MessageHandled, Handled, Dispatched, Shown, Killed, HungUp, Restarted;
    hide Accept, Delete;
    assert [] + [Ack(1)] == [Ack(1)];
    assert After(F7, Run(Write(0, Ack(1)), true)).conns == F8.conns;
  }

  lemma ToF9()
    ensures Enabled(F8, Dispatch(A, 0, false)) && After(F8, Dispatch(A, 0, false)) == F9
  {
    hide Sent, PutItem, Drawn, LoggedIn, MessageHandled, Handled, Shown, Killed, JobDone, HungUp, Restarted, Accept;
    hide Delete, Frames;
    assert map[1 := ITEM] - {1} == map[];
    assert [Ack(1)][1..] == [];
    var t := After(F8, Dispatch(A, 0, false));
    assert t.conns == F9.conns && t.clients == F9.clients;
  }

  const FAILED_COMMIT := [Handle(0, 1, AtCommit(true)), Run(Write(0, Ack(1)), true), Dispatch(A, 0, false)]

  lemma FailedCommit()
    ensures Leads(S6, FAILED_COMMIT, F9)
  {
    hide After, Enabled;
    ToF7();
    ToF8();
    ToF9();
    var es := FAILED_COMMIT;
    assert Leads(F9, es[3..], F9);
    Before(F8, es, 2, F9, F9);
    Before(F7, es, 1, F8, F9);
    Before(S6, es, 0, F7, F9);
    assert es[0..] == es;
  }

  /** `acceptMessage` does not look at the result of COMMIT. One that fails is answered by an ACK all the same;
      the sender drops the message, and the server never had it. */
  lemma UnnoticedCommitFailureLoses()
    ensures var s := Reached({A}, OPENING + FAILED_COMMIT);
      K in s.log.sent && Private(s.log.sent[K]) && !InFile(s, K) && !Stored(s, K) && (A, K) !in s.log.received
  {
    hide After, Enabled, Start, Leads;
    StartIsS0();
    Opening();
    FailedCommit();
    LeadsOn(S0, OPENING, S6, FAILED_COMMIT, F9);
    LeadsReached({A}, [], OPENING + FAILED_COMMIT, F9);
    assert [] + (OPENING + FAILED_COMMIT) == OPENING + FAILED_COMMIT;
  }

  // ---------- a kill between E2EACK and display ----------

  lemma ToG7()
    ensures Enabled(S6, Handle(0, 1, Fine)) && After(S6, Handle(0, 1, Fine)) == G7
  {
    hide Sent, PutItem, Drawn, LoggedIn, Dispatched, Shown, Killed, JobDone, HungUp, Restarted, Delete, Frames;
    assert [Message(1, HELLO)][1..] == [];
    var t := After(S6, Handle(0, 1, Fine));
    assert t.conns == G7.conns && t.log == G7.log && t.server.db.disk.seen == G7.server.db.disk.seen
        && t.server.db.disk.offline == G7.server.db.disk.offline;
  }

  lemma ToG8()
    ensures Enabled(G7, Run(Write(0, Ack(1)), true)) && After(G7, Run(Write(0, Ack(1)), true)) == G8
  {
    hide Sent, PutItem, Drawn, LoggedIn, MessageHandled, Handled, Dispatched, Shown, Killed, HungUp, Restarted;
    hide Accept, Delete;
    assert [] + [Ack(1)] == [Ack(1)];
    var t := After(G7, Run(Write(0, Ack(1)), true));
    assert t.conns == G8.conns && t.server.jobs == G8.server.jobs;
  }

  lemma ToG9()
    ensures Enabled(G8, Dispatch(A, 0, false)) && After(G8, Dispatch(A, 0, false)) == G9
  {
    hide Sent, PutItem, Drawn, LoggedIn, MessageHandled, Handled, Shown, Killed, JobDone, HungUp, Restarted, Accept;
    hide Delete, Frames;
    assert map[1 := ITEM] - {1} == map[];
    assert [Ack(1)][1..] == [];
    var t := After(G8, Dispatch(A, 0, false));
    assert t.conns == G9.conns && t.clients == G9.clients;
  }

  lemma ToG10()
    ensures Enabled(G9, Run(Forward(K, HELLO), true)) && After(G9, Run(Forward(K, HELLO), true)) == G10
  {
    hide Sent, PutItem, Drawn, LoggedIn, MessageHandled, Handled, Dispatched, Shown, Killed, HungUp, Restarted;
    hide Accept, Delete;
    assert Frames(G9, Forward(K, HELLO)) == {Write(0, Relay(K, HELLO))};
    assert After(G9, Run(Forward(K, HELLO), true)).server.jobs == G10.server.jobs;
  }

  lemma ToG11()
    ensures Enabled(G10, Run(Write(0, Relay(K, HELLO)), true))
        && After(G10, Run(Write(0, Relay(K, HELLO)), true)) == G11
  {
    hide Sent, PutItem, Drawn, LoggedIn, MessageHandled, Handled, Dispatched, Shown, Killed, HungUp, Restarted;
    hide Accept, Delete;
    assert [] + [Relay(K, HELLO)] == [Relay(K, HELLO)];
    var t := After(G10, Run(Write(0, Relay(K, HELLO)), true));
    assert t.conns == G11.conns && t.server.jobs == G11.server.jobs;
  }

  lemma ToG12()
    ensures Enabled(G11, Dispatch(A, 0, true)) && After(G11, Dispatch(A, 0, true)) == G12
  {
    hide Sent, PutItem, LoggedIn, MessageHandled, Handled, Shown, Killed, JobDone, HungUp, Restarted, Accept, Delete;
    hide Frames;
    assert [Relay(K, HELLO)][1..] == [] && [] + [E2eAck(K)] == [E2eAck(K)];
    assert {2} + {3} == {2, 3} && {} + {K} == {K};
    var t := After(G11, Dispatch(A, 0, true));
    assert t.conns == G12.conns && t.clients == G12.clients && t.log == G12.log;
  }

  lemma ToG13()
    ensures Enabled(G12, Handle(0, 1, Fine)) && After(G12, Handle(0, 1, Fine)) == G13
  {
    hide Sent, PutItem, Drawn, LoggedIn, MessageHandled, Dispatched, Shown, Killed, JobDone, HungUp, Restarted;
    hide Accept, Frames;
    assert [E2eAck(K)][1..] == [];
    assert map[K := Row(1, HELLO)] - {K} == map[];
    var t := After(G12, Handle(0, 1, Fine));
    assert t.conns == G13.conns && t.server.db == G13.server.db;
  }

  lemma ToG14()
    ensures Enabled(G13, Kill(A)) && After(G13, Kill(A)) == G14
  {
    hide Sent, PutItem, Drawn, LoggedIn, MessageHandled, Handled, Dispatched, Shown, JobDone, HungUp, Restarted;
    hide Accept, Delete, Frames;
    assert {} + {(A, K)} == {(A, K)};
    var t := After(G13, Kill(A));
    assert t.conns == G14.conns && t.clients == G14.clients && t.log == G14.log;
  }

  const KILLED_IN_HAND :=
    [Handle(0, 1, Fine), Run(Write(0, Ack(1)), true), Dispatch(A, 0, false), Run(Forward(K, HELLO), true),
     Run(Write(0, Relay(K, HELLO)), true), Dispatch(A, 0, true), Handle(0, 1, Fine), Kill(A)]

  lemma KilledInHand()
    ensures Leads(S6, KILLED_IN_HAND, G14)
  {
    hide After, Enabled;
    ToG7();
    ToG8();
    ToG9();
    ToG10();
    ToG11();
    ToG12();
    ToG13();
    ToG14();
    var es := KILLED_IN_HAND;
    assert Leads(G14, es[8..], G14);
    Before(G13, es, 7, G14, G14);
    Before(G12, es, 6, G13, G14);
    Before(G11, es, 5, G12, G14);
    Before(G10, es, 4, G11, G14);
    Before(G9, es, 3, G10, G14);
    Before(G8, es, 2, G9, G14);
    Before(G7, es, 1, G8, G14);
    Before(S6, es, 0, G7, G14);
    assert es[0..] == es;
  }

  /** Confirmed and deleted, and nothing is left that could bring it to the screen. */
  ghost predicate LostUnseen(s: State, k: Key) {
    && k in s.log.sent && Private(s.log.sent[k]) && k !in s.log.undone
    && (s.log.sent[k].to, k) in s.log.received && !Copy(s, s.log.sent[k].to, k)
  }

  lemma EndState()
    ensures LostUnseen(G14, K)
  {
  }

  lemma SoundOpening()
    ensures AllSound(OPENING)
  {
  }

  lemma SoundKill()
    ensures AllSound(KILLED_IN_HAND)
  {
  }

  lemma SoundTogether(before: seq<Event>, events: seq<Event>)
    requires AllSound(before) && AllSound(events)
    ensures AllSound(before + events)
  {
  }

  /** The client confirms a message before it displays it. A kill in between can leave the message nowhere: whatever
      happens afterwards it is never displayed, though no COMMIT ever failed. */
  lemma KillInHandLosesDisplay()
    ensures exists events :: AllSound(events) && LostUnseen(Reached({A}, events), K) && NeverDisplayed(events)
  {
    hide After, Enabled, Start, Leads, LostUnseen, AllSound, Reached, Copy;
    var events := OPENING + KILLED_IN_HAND;
    StartIsS0();
    Opening();
    KilledInHand();
    LeadsOn(S0, OPENING, S6, KILLED_IN_HAND, G14);
    NothingYet();
    LeadsReached({A}, [], events, G14);
    assert [] + events == events;
    EndState();
    NotDisplayed();
    forall more ensures (A, K) !in Reached({A}, events + more).log.shown {
      GoneForGood({A}, events, more, A, K);
      CopyIfShown(Reached({A}, events + more), A, K);
    }
    SoundOpening();
    SoundKill();
    SoundTogether(OPENING, KILLED_IN_HAND);
  }

  ghost predicate NeverDisplayed(events: seq<Event>) {
    forall more :: (A, K) !in Reached({A}, events + more).log.shown
  }

  lemma NothingYet()
    ensures Reached({A}, []) == Start({A})
  {
  }

  lemma NotDisplayed()
    ensures !Copy(G14, A, K) && K !in G14.log.undone
  {
  }

  lemma CopyIfShown(s: State, u: Name, k: Key)
    ensures (u, k) in s.log.shown ==> Copy(s, u, k)
  {
  }
}
