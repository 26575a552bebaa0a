/** Group commit over whole runs: it behaves like one commit per insert, it never gets stuck, and one
    run shows that the verdict slot can answer for the wrong batch. */
module GroupCommitRuns {
  import opened Collections
  import opened GroupCommit
  import opened GroupCommitProofs

  // ---------- one commit per insert ----------

  lemma {:induction false} AfterPrefix(m: Machine, es: seq<Event>, n: nat)
    requires n <= |es| && After(m, es).At?
    ensures After(m, es[..n]).At?
  {
    if n < |es| {
      AfterPrefix(m, es[..|es| - 1], n);
      assert es[..|es| - 1][..n] == es[..n];
    } else {
      assert es[..n] == es;
    }
  }

  /** Durable rows stay, in place: nothing removes or reorders them, and no rollback reaches a write
      to the other tables. */
  lemma {:induction false} DiskOnlyGrows(es: seq<Event>, n: nat)
    requires n <= |es| && After(INIT, es).At?
    ensures After(INIT, es[..n]).At?
    ensures After(INIT, es[..n]).m.db.disk <= After(INIT, es).m.db.disk
    ensures After(INIT, es[..n]).m.others <= After(INIT, es).m.others
  {
    if n < |es| {
      DiskOnlyGrows(es[..|es| - 1], n);
      assert es[..|es| - 1][..n] == es[..n];
    } else {
      assert es[..n] == es;
    }
  }

  /** In no run are two users or two rooms of the same name stored. */
  lemma {:induction false} NamesStayUnique(es: seq<Event>, i: nat, j: nat)
    requires After(INIT, es).At? && i < j < |After(INIT, es).m.others|
    requires var c := After(INIT, es).m.others[i]; c.NewUser? || c.NewRoom?
    ensures After(INIT, es).m.others[i] != After(INIT, es).m.others[j]
  {
    if es != [] {
      var before := After(INIT, es[..|es| - 1]).m.others;
      if j < |before| { NamesStayUnique(es[..|es| - 1], i, j); }
    }
  }

  /** The write takes effect exactly if its code is Done; each other code has its one reason. */
  lemma CodesAreExact(others: seq<Change>, change: Change, sqlOk: bool)
    ensures var (others', code) := Changed(others, change, sqlOk);
      && (code == Done <==> others' == others + [change]) && (code != Done <==> others' == others)
      && (code == SqlError <==> !sqlOk)
      && (code == DuplicateUser <==>
            sqlOk && exists i :: 0 <= i < |others| && others[i].NewUser? && others[i] == change)
      && (code == RoomExists <==> sqlOk && exists i :: 0 <= i < |others| && others[i].NewRoom? && others[i] == change)
  {
    var others' := others + [change];
    assert |others'| == |others| + 1;
  }

  predicate Named(c: Change) { c.NewUser? || c.NewRoom? }

  /** SQLite did not refuse event `i`, a write of `c`. */
  predicate WriteAt(es: seq<Event>, i: nat, c: Change) {
    i < |es| && es[i].Other? && es[i].sqlOk && es[i].change == c
  }

  ghost predicate Tried(es: seq<Event>, c: Change) { exists i :: WriteAt(es, i, c) }

  /** A write that took effect: of a name it is the first one. */
  ghost predicate Effective(es: seq<Event>, i: nat) {
    && i < |es| && es[i].Other? && es[i].sqlOk
    && (Named(es[i].change) ==> forall k: nat :: k < i ==> !WriteAt(es, k, es[i].change))
  }

  lemma TriedStep(es: seq<Event>, c: Change)
    requires es != []
    ensures Tried(es, c) <==> Tried(es[..|es| - 1], c) || WriteAt(es, |es| - 1, c)
  {
    var n := |es| - 1;
    forall i: nat | i < n ensures WriteAt(es[..n], i, c) == WriteAt(es, i, c) {
    }
    if Tried(es[..n], c) { var i :| WriteAt(es[..n], i, c); assert WriteAt(es, i, c); }
    if Tried(es, c) { var i :| WriteAt(es, i, c); assert i == n || WriteAt(es[..n], i, c); }
  }

  /** A name is in the tables exactly if SQLite did some write of it. */
  lemma {:induction false} NamesAreTried(es: seq<Event>, c: Change)
    requires After(INIT, es).At? && Named(c)
    ensures c in After(INIT, es).m.others <==> Tried(es, c)
  {
    hide Enabled, Next, Tried;
    if es == [] {
      NothingTried(c);
    } else {
      var n := |es| - 1;
      NamesAreTried(es[..n], c);
      TriedStep(es, c);
      LastWrite(After(INIT, es[..n]).m, es[n]);
    }
  }

  lemma NothingTried(c: Change)
    ensures !Tried([], c)
  {
  }

  lemma EffectiveStep(es: seq<Event>, n: nat)
    requires |es| == n + 1
    ensures forall i: nat :: i < n ==> (Effective(es, i) <==> Effective(es[..n], i))
    ensures Effective(es, n) <==> es[n].Other? && es[n].sqlOk && !(Named(es[n].change) && Tried(es[..n], es[n].change))
  {
    forall k: nat, c | k < n ensures WriteAt(es[..n], k, c) == WriteAt(es, k, c) {
    }
    if es[n].Other? && Tried(es[..n], es[n].change) {
      var k :| WriteAt(es[..n], k, es[n].change);
      assert WriteAt(es, k, es[n].change);
    }
  }

  /** The other tables hold exactly the effective writes, in order. */
  lemma {:induction false} OthersAreExact(es: seq<Event>) returns (at: seq<nat>)
    requires After(INIT, es).At?
    ensures |at| == |After(INIT, es).m.others|
    ensures forall k :: 0 <= k < |at| ==> Effective(es, at[k]) && After(INIT, es).m.others[k] == es[at[k]].change
    ensures forall k, l :: 0 <= k < l < |at| ==> at[k] < at[l]
    ensures forall i: nat :: Effective(es, i) ==> i in at
  {
    hide Enabled, Next, Tried;
    if es == [] {
      at := [];
    } else {
      var n := |es| - 1;
      at := OthersAreExact(es[..n]);
      EffectiveStep(es, n);
      assert forall i: nat :: Effective(es, i) ==> i <= n;
      LastWrite(After(INIT, es[..n]).m, es[n]);
      if es[n].Other? && Named(es[n].change) { NamesAreTried(es[..n], es[n].change); }
      if Effective(es, n) { at := at + [n]; }
    }
  }

  lemma LastWrite(m: Machine, e: Event)
    requires Enabled(m, e)
    ensures var others := Next(m, e).others;
      if e.Other? && e.sqlOk && !((e.change.NewUser? || e.change.NewRoom?) && e.change in m.others)
      then others == m.others + [e.change] else others == m.others
  {
  }

  /** The table is what one commit per insert would leave: the rows of the committed batches and of
      the lone writers in the order they took the mutex, ids growing, one row a call, and the open
      batch within its bounds. */
  lemma RefinesSerialCommits(es: seq<Event>)
    requires After(INIT, es).At?
    ensures var m := After(INIT, es).m;
      && m.db.disk == Durable(m.past.batches) + m.past.solos
      && IdsIncrease(m.db.disk + m.db.open)
      && (forall i, j :: 0 <= i < j < |m.db.disk| ==> m.db.disk[i].op != m.db.disk[j].op)
      && (if m.db.inTx then 1 <= m.db.pending <= BATCH_MAX && |m.db.open| <= m.db.pending
          else m.db.pending == 0 && m.db.open == [])
  {
    RunsKeep(es);
    var m := After(INIT, es).m;
    forall i, j | 0 <= i < j < |m.db.disk| ensures m.db.disk[i].op != m.db.disk[j].op {
      var all := m.db.disk + m.db.open;
      assert all[i].id < all[j].id;
      RowRecorded(m, m.db.disk[i]);
      RowRecorded(m, m.db.disk[j]);
    }
  }

  lemma RowRecorded(m: Machine, r: Row)
    requires Inv(m) && r in m.db.disk
    ensures r.op in m.past.wrote && m.past.wrote[r.op].id == r.id
  {
    var bs := m.past.batches;
    DurableMember(bs, r);
    if r in Durable(bs) {
      var g :| 0 <= g < |bs| && (r in bs[g].solos || (bs[g].ok && r in bs[g].rows));
      assert AllWritten(m.past, bs[g].rows, g) && AllWritten(m.past, bs[g].solos, -1);
    }
  }

  /** A rollback takes exactly its batch: none of its rows is ever durable, every other is kept. */
  lemma {:induction false} RollbackIsExact(es: seq<Event>, op: Op, ok: bool)
    requires After(INIT, es).At? && Enabled(After(INIT, es).m, Resolve(op, ok))
    ensures var m, m' := After(INIT, es).m, After(INIT, es + [Resolve(op, ok)]).m;
      && Row(m.calls.phases[op].id, op) in m.db.open
      && (forall q :: OnDisk(m', q) <==> OnDisk(m, q) || (ok && exists r :: r in m.db.open && r.op == q))
      && (forall r :: r in m.db.open ==> !OnDisk(m, r.op))
  {
    RunsKeep(es);
    var m := After(INIT, es).m;
    assert (es + [Resolve(op, ok)])[..|es|] == es;
    assert op in m.calls.owner;
    assert Placed(m.db, m.past, op);
    forall r | r in m.db.open ensures !OnDisk(m, r.op) {
      DiskByGeneration(m, r.op);
    }
  }

  // ---------- no deadlock, no lost wake-up ----------

  /** Events the scheduler must give a thread: new calls and spurious wake-ups are not among them. */
  predicate Progress(e: Event) { !e.Call? && !e.CallOther? && !e.Spurious? }

  ghost function Doors(c: Calls): set<Op> { set op | op in c.phases && c.phases[op].AtDoor? }

  ghost function Weight(m: Machine): nat { |m.calls.phases.Keys| + |Doors(m.calls)| }

  ghost function Awake(m: Machine): nat { |m.calls.phases.Keys - m.calls.asleep| }

  lemma Smaller<T>(a: set<T>, b: set<T>, x: T)
    requires a <= b && x in b && x !in a
    ensures |a| < |b|
  {
    assert |b - {x}| == |b| - 1;
    SubsetSize(a, b - {x});
  }

  lemma SleepCounts(m: Machine, op: Op)
    requires NoLostWakeup(m.db, m.calls) && Enabled(m, Sleep(op))
    ensures Weight(Next(m, Sleep(op))) == Weight(m) && Awake(Next(m, Sleep(op))) < Awake(m)
  {
    var c, c' := m.calls, Next(m, Sleep(op)).calls;
    assert Doors(c') == Doors(c);
    Smaller(c'.phases.Keys - c'.asleep, c.phases.Keys - c.asleep, op);
  }

  lemma LeavingCounts(m: Machine, m': Machine, op: Op)
    requires op in m.calls.phases && m'.calls.phases == m.calls.phases - {op}
    ensures Weight(m') < Weight(m)
  {
    Smaller(m'.calls.phases.Keys, m.calls.phases.Keys, op);
    SubsetSize(Doors(m'.calls), Doors(m.calls));
  }

  lemma EnteringCounts(m: Machine, m': Machine, op: Op, phase: Phase)
    requires op in m.calls.phases && m.calls.phases[op].AtDoor? && !phase.AtDoor?
    requires m'.calls.phases == m.calls.phases[op := phase]
    ensures Weight(m') < Weight(m)
  {
    assert m'.calls.phases.Keys == m.calls.phases.Keys;
    Smaller(Doors(m'.calls), Doors(m.calls), op);
  }

  /** Whatever SQLite answers, every such event brings the writers closer to their returns. */
  lemma EveryStepCounts(m: Machine, e: Event)
    requires Inv(m) && Enabled(m, e) && Progress(e)
    ensures Weight(Next(m, e)) < Weight(m) ||
            (Weight(Next(m, e)) == Weight(m) && Awake(Next(m, e)) < Awake(m))
  {
    var m' := Next(m, e);
    match e
    case Sleep(op) => SleepCounts(m, op);
    case Enter(op, _, _) =>
      if op in m'.calls.phases {
        EnteringCounts(m, m', op, m'.calls.phases[op]);
      } else {
        LeavingCounts(m, m', op);
      }
    case Resolve(op, _) => LeavingCounts(m, m', op);
    case Wake(op) => LeavingCounts(m, m', op);
    case Other(op, _, _) => LeavingCounts(m, m', op);
    case _ =>
  }

  ghost predicate CanGoOn(m: Machine, op: Op) {
    if m.db.inTx then forall ok :: Enabled(m, Resolve(op, ok))
    else
      || Enabled(m, Wake(op))
      || (forall change, ok :: Enabled(m, Other(op, change, ok)))
      || (forall ok, ins :: FreshId(m.db, ins) ==> Enabled(m, Enter(op, ok, ins)))
  }

  lemma IdleCanGoOn(m: Machine, op: Op)
    requires OneStarter(m.db, m.calls) && NoLostWakeup(m.db, m.calls) && !m.db.inTx
    requires op in m.calls.phases && (m.calls.phases[op].Joined? ==> m.calls.phases[op].gen != m.db.gen)
    ensures CanGoOn(m, op)
  {
    assert op !in m.calls.owner;
  }

  /** While a call is unfinished some thread can go on, and what SQLite answers cannot prevent it.
      In particular an open batch always has a live starter whose resolve is possible. */
  lemma NoDeadlock(es: seq<Event>)
    requires After(INIT, es).At? && After(INIT, es).m.calls.phases != map[]
    ensures exists op :: CanGoOn(After(INIT, es).m, op)
  {
    RunsKeep(es);
    var m := After(INIT, es).m;
    if m.db.inTx {
      var op :| op in m.calls.owner;
      assert CanGoOn(m, op);
    } else {
      var op :| op in m.calls.phases.Keys;
      if op in m.past.wrote { assert Placed(m.db, m.past, op); }
      IdleCanGoOn(m, op);
    }
  }

  // ---------- the verdict slot can answer for another batch ----------

  lemma Extend(es: seq<Event>, e: Event, m: Machine, m': Machine)
    requires After(INIT, es) == At(m) && Enabled(m, e) && Next(m, e) == m'
    ensures After(INIT, es + [e]) == At(m')
  {
    assert (es + [e])[..|es|] == es;
  }

  const BEGUN := [Call(1)] + [Enter(1, true, Stored(1, true))]
  const LOST := BEGUN + [Call(2)] + [Enter(2, true, Stored(2, true))] + [Resolve(1, false)]
  const BEGUN_AGAIN := LOST + [Call(3)] + [Enter(3, true, Stored(1, true))]
  const LATE := BEGUN_AGAIN + [Call(4)] + [Enter(4, true, Stored(2, true))] + [Resolve(3, true)] + [Wake(2)]

  // The states of that run: batch 0 is opened by call 1, joined by call 2 and rolled back ...
  const S1 := INIT.(calls := Calls(map[1 := AtDoor], {}, {}, map[]))
  const S2 := Machine(Db(true, 1, 0, true, [Row(1, 1)], []), Calls(map[1 := Starting(1)], {}, {1}, map[]),
                      Past(map[1 := Write(1, 0)], [], []), [])
  const S3 := S2.(calls := S2.calls.(phases := map[1 := Starting(1), 2 := AtDoor]))
  const S4 := Machine(Db(true, 2, 0, true, [Row(1, 1), Row(2, 2)], []),
                      Calls(map[1 := Starting(1), 2 := Joined(0, 2)], {}, {1}, map[]),
                      Past(map[1 := Write(1, 0), 2 := Write(2, 0)], [], []), [])
  const S5 := Machine(Db(false, 0, 1, false, [], []),
                      Calls(map[2 := Joined(0, 2)], {}, {}, map[1 := Finished(-1, Starter)]),
                      S4.past.(batches := [Batch([], [Row(1, 1), Row(2, 2)], false)]), [])
  // ... and batch 1, of calls 3 and 4, commits before call 2 has woken up.
  const S6 := S5.(calls := S5.calls.(phases := S5.calls.phases[3 := AtDoor]))
  const S7 := Machine(Db(true, 1, 1, false, [Row(1, 3)], []),
                      S5.calls.(phases := S5.calls.phases[3 := Starting(1)], owner := {3}),
                      S5.past.(wrote := S5.past.wrote[3 := Write(1, 1)]), [])
  const S8 := S7.(calls := S7.calls.(phases := S7.calls.phases[4 := AtDoor]))
  const S9 := Machine(Db(true, 2, 1, false, [Row(1, 3), Row(2, 4)], []),
                      S7.calls.(phases := S7.calls.phases[4 := Joined(1, 2)]),
                      S7.past.(wrote := S7.past.wrote[4 := Write(2, 1)]), [])

  lemma CallOneBegins()
    ensures After(INIT, BEGUN) == At(S2)
  {
    assert After(INIT, []) == At(INIT);
    Extend([], Call(1), INIT, S1);
    assert [] + [Call(1)] == [Call(1)];
    Extend([Call(1)], Enter(1, true, Stored(1, true)), S1, S2);
  }

  lemma CallTwoJoins()
    ensures Enabled(S3, Enter(2, true, Stored(2, true))) && Next(S3, Enter(2, true, Stored(2, true))) == S4
  {
    var m := Next(S3, Enter(2, true, Stored(2, true)));
    assert m.calls.phases == S4.calls.phases;
    assert m.past.wrote == S4.past.wrote;
  }

  lemma BatchZeroIsLost()
    ensures After(INIT, LOST) == At(S5)
  {
    CallOneBegins();
    CallTwoJoins();
    assert Next(S2, Call(2)).calls.phases == S3.calls.phases;
    Extend(BEGUN, Call(2), S2, S3);
    Extend(BEGUN + [Call(2)], Enter(2, true, Stored(2, true)), S3, S4);
    assert Next(S4, Resolve(1, false)).calls.phases == S5.calls.phases;
    Extend(BEGUN + [Call(2)] + [Enter(2, true, Stored(2, true))], Resolve(1, false), S4, S5);
  }

  lemma BatchOneOpens()
    ensures After(INIT, BEGUN_AGAIN) == At(S7)
  {
    BatchZeroIsLost();
    Extend(LOST, Call(3), S5, S6);
    assert Next(S6, Enter(3, true, Stored(1, true))).calls.phases == S7.calls.phases;
    Extend(LOST + [Call(3)], Enter(3, true, Stored(1, true)), S6, S7);
  }

  lemma CallFourJoins()
    ensures Enabled(S8, Enter(4, true, Stored(2, true))) && Next(S8, Enter(4, true, Stored(2, true))) == S9
  {
    var m := Next(S8, Enter(4, true, Stored(2, true)));
    assert m.calls.phases == S9.calls.phases;
  }

  /** The second batch is on disk, and call 2 still waits for the first. */
  ghost predicate SecondVerdict(m: Machine) {
    && m.db.disk == [Row(1, 3), Row(2, 4)] && m.db.gen == 2 && m.db.ok
    && 2 in m.calls.phases && m.calls.phases[2] == Joined(0, 2) && 2 !in m.calls.asleep
  }

  lemma BatchOneCommits()
    ensures Enabled(S9, Resolve(3, true)) && SecondVerdict(Next(S9, Resolve(3, true)))
  {
  }

  lemma CallTwoWakes(m: Machine)
    requires SecondVerdict(m)
    ensures Enabled(m, Wake(2))
    ensures var m' := Next(m, Wake(2));
      2 in m'.calls.done && m'.calls.done[2].answer == 2 && !OnDisk(m', 2) && Row(2, 4) in m'.db.disk
  {
    assert m.db.disk[1] == Row(2, 4);
  }

  /** Call 2 joins a batch that is rolled back, sleeps while the next batch commits, and returns
      id 2.  Its row is nowhere; row 2 is the message of call 4. */
  lemma LateJoinerIsMisled()
    ensures After(INIT, LATE).At?
    ensures var m := After(INIT, LATE).m;
      2 in m.calls.done && m.calls.done[2].answer == 2 && !OnDisk(m, 2) && Row(2, 4) in m.db.disk
  {
    hide Next, Enabled, After, OnDisk, SecondVerdict;
    BatchOneOpens();
    CallFourArrives();
    CallFourJoins();
    Extend(BEGUN_AGAIN, Call(4), S7, S8);
    var es := BEGUN_AGAIN + [Call(4)] + [Enter(4, true, Stored(2, true))];
    Extend(BEGUN_AGAIN + [Call(4)], Enter(4, true, Stored(2, true)), S8, S9);
    BatchOneCommits();
    var m := Next(S9, Resolve(3, true));
    Extend(es, Resolve(3, true), S9, m);
    CallTwoWakes(m);
    Extend(es + [Resolve(3, true)], Wake(2), m, Next(m, Wake(2)));
  }

  lemma CallFourArrives()
    ensures Enabled(S7, Call(4)) && Next(S7, Call(4)) == S8
  {
    assert Next(S7, Call(4)).calls.phases == S8.calls.phases;
  }
}
