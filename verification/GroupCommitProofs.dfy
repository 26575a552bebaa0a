/** What every interleaving of writers keeps, and what an answer of `insert_*` is worth. */
module GroupCommitProofs {
  import opened GroupCommit

  // ---------- durable rows as a function of the resolved batches ----------

  /** The rows that reached the disk, batch after batch, in the order the mutex was taken. */
  function Durable(bs: seq<Batch>): seq<Row> {
    if bs == [] then []
    else
      var b := bs[|bs| - 1];
      Durable(bs[..|bs| - 1]) + b.solos + if b.ok then b.rows else []
  }

  lemma DurableAppend(bs: seq<Batch>, b: Batch)
    ensures Durable(bs + [b]) == Durable(bs) + b.solos + if b.ok then b.rows else []
  {
    assert (bs + [b])[..|bs|] == bs;
  }

  lemma {:induction false} DurableMember(bs: seq<Batch>, r: Row)
    ensures r in Durable(bs) <==>
      exists g :: 0 <= g < |bs| && (r in bs[g].solos || (bs[g].ok && r in bs[g].rows))
  {
    if bs != [] {
      var front := bs[..|bs| - 1];
      DurableMember(front, r);
      assert forall g :: 0 <= g < |front| ==> front[g] == bs[g];
    }
  }

  // ---------- the invariant ----------

  predicate IdsIncrease(rows: seq<Row>) {
    (forall i :: 0 <= i < |rows| ==> rows[i].id > 0) &&
    forall i, j :: 0 <= i < j < |rows| ==> rows[i].id < rows[j].id
  }

  ghost predicate Shape(db: Db, past: Past) {
    && (db.inTx ==> 1 <= db.pending <= BATCH_MAX)
    && (!db.inTx ==> db.pending == 0 && db.open == [])
    && |db.open| <= db.pending
    && |past.batches| == db.gen
    && (db.gen > 0 ==> db.ok == past.batches[db.gen - 1].ok)
  }

  /** The disk holds the committed batches in order, and ids grow in that order. */
  ghost predicate Ledger(db: Db, past: Past) {
    && db.disk == Durable(past.batches) + past.solos
    && IdsIncrease(db.disk + db.open)
  }

  /** A transaction is open exactly when one live call, its starter, has yet to resolve it. */
  ghost predicate OneStarter(db: Db, c: Calls) {
    && (db.inTx <==> c.owner != {})
    && (forall a, b :: a in c.owner && b in c.owner ==> a == b)
    && (forall op :: op in c.owner <==> op in c.phases && c.phases[op].Starting?)
  }

  ghost predicate AllWritten(past: Past, rows: seq<Row>, gen: int) {
    forall r :: r in rows ==> r.op in past.wrote && past.wrote[r.op] == Write(r.id, gen)
  }

  /** Where the row of a call is, given the generation it went into. */
  ghost predicate Placed(db: Db, past: Past, op: Op)
    requires |past.batches| == db.gen && op in past.wrote
  {
    var w := past.wrote[op];
    && -1 <= w.gen <= db.gen && w.id > 0
    && (w.gen == -1 ==> Row(w.id, op) in db.disk)
    && (0 <= w.gen < db.gen ==> Row(w.id, op) in past.batches[w.gen].rows)
    && (w.gen == db.gen ==> db.inTx && Row(w.id, op) in db.open)
  }

  ghost predicate RowsKept(db: Db, past: Past)
    requires |past.batches| == db.gen
  {
    && AllWritten(past, db.open, db.gen)
    && AllWritten(past, past.solos, -1)
    && (forall g :: 0 <= g < db.gen ==> AllWritten(past, past.batches[g].rows, g))
    && (forall g :: 0 <= g < db.gen ==> AllWritten(past, past.batches[g].solos, -1))
    && (forall op :: op in past.wrote ==> Placed(db, past, op))
  }

  /** No lost wake-up: a call is asleep only while the predicate it waits for is false. */
  ghost predicate NoLostWakeup(db: Db, c: Calls) {
    && c.asleep <= c.phases.Keys
    && forall op :: op in c.asleep ==> !Ready(db, c.phases[op])
  }

  ghost predicate Callers(db: Db, c: Calls, wrote: map<Op, Write>) {
    && c.phases.Keys !! c.done.Keys
    && wrote.Keys <= c.phases.Keys + c.done.Keys
    && (forall op :: op in c.phases ==>
          match c.phases[op]
          case Starting(id) => id > 0 && op in wrote && wrote[op] == Write(id, db.gen)
          case Joined(gen, id) => id > 0 && gen <= db.gen && op in wrote && wrote[op] == Write(id, gen)
          case _ => op !in wrote)
  }

  /** What an answer says about the batch the call's row went into. */
  ghost predicate Answered(past: Past, op: Op, f: Finished) {
    var n, wrote := |past.batches|, op in past.wrote;
    match f.role
    case Starter =>
      if f.answer == -1 then
        wrote ==> 0 <= past.wrote[op].gen < n && !past.batches[past.wrote[op].gen].ok
      else
        && wrote && f.answer == past.wrote[op].id
        && 0 <= past.wrote[op].gen < n && past.batches[past.wrote[op].gen].ok
    case Solo(ins) =>
      && f.answer == ins.RowId() && (wrote <==> ins.Stored?)
      && (wrote ==> past.wrote[op] == Write(ins.id, -1))
    case Joiner(gen, seen) =>
      && 0 <= gen < seen <= n && wrote && past.wrote[op].gen == gen
      && f.answer == if past.batches[seen - 1].ok then past.wrote[op].id else -1
    case EarlyJoiner(gen, ins) =>
      && f.answer == ins.RowId() == -1 && (wrote <==> ins.Stored?) && gen <= n
      && (wrote ==> past.wrote[op] == Write(ins.id, gen))
    case Outsider => !wrote
  }

  ghost predicate Answers(past: Past, done: map<Op, Finished>) {
    forall op :: op in done ==> Answered(past, op, done[op])
  }

  ghost predicate Record(db: Db, past: Past) {
    Shape(db, past) && Ledger(db, past) && RowsKept(db, past)
  }

  ghost predicate Threads(m: Machine) {
    && OneStarter(m.db, m.calls) && NoLostWakeup(m.db, m.calls)
    && Callers(m.db, m.calls, m.past.wrote) && Answers(m.past, m.calls.done)
  }

  ghost predicate Inv(m: Machine) {
    Record(m.db, m.past) && Threads(m)
  }

  // ---------- every step keeps it ----------

  lemma IncreasingAppend(db: Db, r: Row)
    requires IdsIncrease(db.disk + db.open) && r.id > 0 && FreshId(db, Stored(r.id, true))
    ensures IdsIncrease(db.disk + db.open + [r])
  {
    var all := db.disk + db.open;
    assert forall i :: 0 <= i < |all| ==> all[i].id < r.id;
  }

  lemma IncreasingPrefix(rows: seq<Row>, more: seq<Row>)
    requires IdsIncrease(rows + more)
    ensures IdsIncrease(rows)
  {
    assert forall i :: 0 <= i < |rows| ==> rows[i] == (rows + more)[i];
  }

  /** What a step may do to the record: extend it, and resolve the open batch into it. */
  ghost predicate Extends(db: Db, past: Past, db': Db, past': Past) {
    && |past.batches| == db.gen && |past'.batches| == db'.gen
    && past.batches <= past'.batches && db.disk <= db'.disk
    && (forall q :: q in past.wrote ==> q in past'.wrote && past'.wrote[q] == past.wrote[q])
    && (db'.gen == db.gen && db.inTx ==> db'.inTx && db.open <= db'.open)
    && (db'.gen > db.gen && db.inTx ==> past'.batches[db.gen].rows == db.open)
  }

  lemma PlacedStays(db: Db, past: Past, db': Db, past': Past, op: Op)
    requires Extends(db, past, db', past') && op in past.wrote && Placed(db, past, op)
    ensures Placed(db', past', op)
  {
    var w := past.wrote[op];
    if 0 <= w.gen < db.gen {
      assert past'.batches[w.gen] == past.batches[w.gen];
    }
  }

  lemma RecordStays(db: Db, past: Past, db': Db, past': Past)
    requires Extends(db, past, db', past') && RowsKept(db, past)
    ensures forall q :: q in past.wrote ==> Placed(db', past', q)
    ensures AllWritten(past', db.open, db.gen) && AllWritten(past', past.solos, -1)
    ensures forall g :: 0 <= g < db.gen ==>
              AllWritten(past', past'.batches[g].rows, g) && AllWritten(past', past'.batches[g].solos, -1)
  {
    forall q | q in past.wrote ensures Placed(db', past', q) {
      PlacedStays(db, past, db', past', q);
    }
    forall g | 0 <= g < db.gen
      ensures AllWritten(past', past'.batches[g].rows, g) && AllWritten(past', past'.batches[g].solos, -1)
    {
      assert past'.batches[g] == past.batches[g];
    }
  }

  /** A step changes what is recorded about no call but its own. */
  lemma AnswersStay(past: Past, past': Past, done: map<Op, Finished>, op: Op)
    requires Answers(past, done) && op !in done && past.batches <= past'.batches
    requires forall q :: q != op ==> (q in past.wrote <==> q in past'.wrote)
    requires forall q :: q != op && q in past.wrote ==> past'.wrote[q] == past.wrote[q]
    ensures Answers(past', done)
  {
    forall q | q in done ensures Answered(past', q, done[q]) {
      assert Answered(past, q, done[q]);
      assert forall g :: 0 <= g < |past.batches| ==> past'.batches[g] == past.batches[g];
    }
  }

  lemma AloneLedger(m: Machine, op: Op, ins: Insert)
    requires Ledger(m.db, m.past) && !m.db.inTx && m.db.open == [] && FreshId(m.db, ins)
    ensures var m' := NextAlone(m, op, ins); Ledger(m'.db, m'.past)
  {
    var m' := NextAlone(m, op, ins);
    assert m'.db.disk + m'.db.open == m.db.disk + m.db.open + NewRows(op, ins);
    assert m'.db.disk == Durable(m'.past.batches) + m'.past.solos;
    if ins.Stored? { IncreasingAppend(m.db, Row(ins.id, op)); }
  }

  lemma JoinLedger(m: Machine, op: Op, ins: Insert)
    requires Ledger(m.db, m.past) && m.db.inTx && FreshId(m.db, ins)
    ensures var m' := NextJoin(m, op, ins); Ledger(m'.db, m'.past)
  {
    var m' := NextJoin(m, op, ins);
    assert m'.db.disk + m'.db.open == m.db.disk + m.db.open + NewRows(op, ins);
    if ins.Stored? { IncreasingAppend(m.db, Row(ins.id, op)); }
  }

  lemma BeginLedger(m: Machine, op: Op, ins: Insert)
    requires Ledger(m.db, m.past) && !m.db.inTx && m.db.open == [] && FreshId(m.db, ins)
    ensures var m' := NextBegin(m, op, ins); Ledger(m'.db, m'.past)
  {
    hide IdsIncrease, Durable, Finish, Notify;
    var m' := NextBegin(m, op, ins);
    if ins.RowId() >= 0 {
      IncreasingAppend(m.db, Row(ins.id, op));
      assert m'.db.disk + m'.db.open == m.db.disk + m.db.open + [Row(ins.id, op)];
    } else {
      DurableAppend(m.past.batches, Batch(m.past.solos, NewRows(op, ins), false));
      assert m'.db.disk + m'.db.open == m.db.disk + m.db.open;
    }
  }

  lemma AloneRows(m: Machine, op: Op, ins: Insert)
    requires Shape(m.db, m.past) && RowsKept(m.db, m.past) && op !in m.past.wrote
    requires !m.db.inTx && FreshId(m.db, ins)
    ensures var m' := NextAlone(m, op, ins); Shape(m'.db, m'.past) && RowsKept(m'.db, m'.past)
  {
    var m' := NextAlone(m, op, ins);
    RecordStays(m.db, m.past, m'.db, m'.past);
  }

  lemma JoinRows(m: Machine, op: Op, ins: Insert)
    requires Shape(m.db, m.past) && RowsKept(m.db, m.past) && op !in m.past.wrote
    requires m.db.inTx && FreshId(m.db, ins) && DoorOpen(m.db)
    ensures var m' := NextJoin(m, op, ins); Shape(m'.db, m'.past) && RowsKept(m'.db, m'.past)
  {
    var m' := NextJoin(m, op, ins);
    RecordStays(m.db, m.past, m'.db, m'.past);
  }

  lemma BeginRows(m: Machine, op: Op, ins: Insert)
    requires Shape(m.db, m.past) && RowsKept(m.db, m.past) && op !in m.past.wrote
    requires !m.db.inTx && FreshId(m.db, ins)
    ensures var m' := NextBegin(m, op, ins); Shape(m'.db, m'.past) && RowsKept(m'.db, m'.past)
  {
    if ins.RowId() >= 0 { BeginOpens(m, op, ins); } else { BeginCloses(m, op, ins); }
  }

  lemma BeginOpens(m: Machine, op: Op, ins: Insert)
    requires Shape(m.db, m.past) && RowsKept(m.db, m.past) && op !in m.past.wrote
    requires !m.db.inTx && FreshId(m.db, ins) && ins.RowId() >= 0
    ensures var m' := NextBegin(m, op, ins); Shape(m'.db, m'.past) && RowsKept(m'.db, m'.past)
  {
    hide Finish, Notify;
    var m' := NextBegin(m, op, ins);
    RecordStays(m.db, m.past, m'.db, m'.past);
  }

  lemma BeginCloses(m: Machine, op: Op, ins: Insert)
    requires Shape(m.db, m.past) && RowsKept(m.db, m.past) && op !in m.past.wrote
    requires !m.db.inTx && FreshId(m.db, ins) && ins.RowId() < 0
    ensures var m' := NextBegin(m, op, ins); Shape(m'.db, m'.past) && RowsKept(m'.db, m'.past)
  {
    hide Finish, Notify;
    var m' := NextBegin(m, op, ins);
    RecordStays(m.db, m.past, m'.db, m'.past);
  }

  lemma ResolveRecord(m: Machine, op: Op, ok: bool)
    requires Record(m.db, m.past) && m.db.inTx && Enabled(m, Resolve(op, ok))
    ensures var m' := NextResolve(m, op, ok); Record(m'.db, m'.past)
  {
    var m' := NextResolve(m, op, ok);
    DurableAppend(m.past.batches, Batch(m.past.solos, m.db.open, ok));
    IncreasingPrefix(m.db.disk, m.db.open);
    assert m'.db.disk + m'.db.open == m'.db.disk;
    RecordStays(m.db, m.past, m'.db, m'.past);
  }

  lemma AloneThreads(m: Machine, op: Op, ins: Insert)
    requires Shape(m.db, m.past) && Threads(m) && Enabled(m, Enter(op, false, ins)) && !m.db.inTx
    ensures Threads(NextAlone(m, op, ins))
  {
    AnswersStay(m.past, NextAlone(m, op, ins).past, m.calls.done, op);
  }

  lemma JoinThreads(m: Machine, op: Op, ins: Insert)
    requires Shape(m.db, m.past) && Threads(m) && Enabled(m, Enter(op, false, ins)) && m.db.inTx
    ensures Threads(NextJoin(m, op, ins))
  {
    var m' := NextJoin(m, op, ins);
    JoinCallers(m, op, ins);
    assert Answers(m'.past, m'.calls.done) by {
      AnswersStay(m.past, m'.past, m.calls.done, op);
    }
  }

  lemma JoinCallers(m: Machine, op: Op, ins: Insert)
    requires OneStarter(m.db, m.calls) && NoLostWakeup(m.db, m.calls) && m.db.inTx
    requires Callers(m.db, m.calls, m.past.wrote) && Enabled(m, Enter(op, false, ins))
    ensures var m' := NextJoin(m, op, ins);
      OneStarter(m'.db, m'.calls) && NoLostWakeup(m'.db, m'.calls) && Callers(m'.db, m'.calls, m'.past.wrote)
  {
  }

  lemma BeginThreads(m: Machine, op: Op, ins: Insert)
    requires Shape(m.db, m.past) && Threads(m) && Enabled(m, Enter(op, true, ins)) && !m.db.inTx
    ensures Threads(NextBegin(m, op, ins))
  {
    AnswersStay(m.past, NextBegin(m, op, ins).past, m.calls.done, op);
  }

  lemma ResolveThreads(m: Machine, op: Op, ok: bool)
    requires Shape(m.db, m.past) && Threads(m) && Enabled(m, Resolve(op, ok))
    ensures m.db.inTx && Threads(NextResolve(m, op, ok))
  {
    assert op in m.calls.owner;
    AnswersStay(m.past, NextResolve(m, op, ok).past, m.calls.done, op);
  }

  /** Steps that only move one call from one phase to another, or in and out of its wait. */
  lemma ArriveThreads(m: Machine, e: Event)
    requires Shape(m.db, m.past) && Threads(m) && Enabled(m, e) && (e.Call? || e.CallOther? || e.Sleep? || e.Spurious?)
    ensures Threads(Next(m, e))
  {
  }

  lemma LeaveThreads(m: Machine, e: Event)
    requires Shape(m.db, m.past) && Threads(m) && Enabled(m, e) && (e.Wake? || e.Other?)
    ensures Threads(Next(m, e))
  {
  }

  lemma StepKeeps(m: Machine, e: Event)
    requires Inv(m) && Enabled(m, e)
    ensures Inv(Next(m, e))
  {
    match e
    case Resolve(op, ok) => ResolveThreads(m, op, ok); ResolveRecord(m, op, ok);
    case Enter(op, beginOk, ins) =>
      if m.db.inTx {
        JoinLedger(m, op, ins);
        JoinRows(m, op, ins);
        JoinThreads(m, op, ins);
      } else if beginOk {
        BeginLedger(m, op, ins);
        BeginRows(m, op, ins);
        BeginThreads(m, op, ins);
      } else {
        AloneLedger(m, op, ins);
        AloneRows(m, op, ins);
        AloneThreads(m, op, ins);
      }
    case Wake(_) => LeaveThreads(m, e);
    case Other(_, _, _) => LeaveThreads(m, e);
    case _ => ArriveThreads(m, e);
  }

  lemma {:induction false} RunsKeep(es: seq<Event>)
    requires After(INIT, es).At?
    ensures Inv(After(INIT, es).m)
  {
    if es != [] {
      RunsKeep(es[..|es| - 1]);
      StepKeeps(After(INIT, es[..|es| - 1]).m, es[|es| - 1]);
    }
  }

  // ---------- what an answer is worth ----------

  ghost predicate OnDisk(m: Machine, op: Op) {
    exists r :: r in m.db.disk && r.op == op
  }

  /** The promise of `insert_*`: an id means persisted, -1 means not. */
  ghost predicate TellsTruth(m: Machine, op: Op)
    requires op in m.calls.done
  {
    m.calls.done[op].answer != -1 <==> OnDisk(m, op)
  }

  lemma DiskByGeneration(m: Machine, op: Op)
    requires Inv(m)
    ensures OnDisk(m, op) <==>
      && op in m.past.wrote
      && var g := m.past.wrote[op].gen; g == -1 || (g < m.db.gen && m.past.batches[g].ok)
    ensures OnDisk(m, op) ==> Row(m.past.wrote[op].id, op) in m.db.disk
  {
    var bs := m.past.batches;
    if OnDisk(m, op) {
      var r :| r in m.db.disk && r.op == op;
      DurableMember(bs, r);
      if r in Durable(bs) {
        var g :| 0 <= g < |bs| && (r in bs[g].solos || (bs[g].ok && r in bs[g].rows));
        assert AllWritten(m.past, bs[g].rows, g) && AllWritten(m.past, bs[g].solos, -1);
      }
    }
    if op in m.past.wrote {
      assert Placed(m.db, m.past, op);
      DurableMember(bs, Row(m.past.wrote[op].id, op));
    }
  }

  function Verdict(m: Machine, gen: nat): bool
    requires gen < |m.past.batches|
  {
    m.past.batches[gen].ok
  }

  /** When the answer of a call is right: always for a starter; for a joiner when the verdict slot
      held the verdict of its own batch, or an equal one; and otherwise unless the row was stored
      but its id could not be read back. */
  ghost predicate Faithful(m: Machine, f: Finished) {
    match f.role
    case Starter => true
    case Solo(ins) => !(ins.Stored? && !ins.known)
    case Joiner(gen, seen) => 0 <= gen < seen <= |m.past.batches| && Verdict(m, gen) == Verdict(m, seen - 1)
    case EarlyJoiner(gen, ins) => !(ins.Stored? && gen < |m.past.batches| && Verdict(m, gen))
    case Outsider => false
  }

  /** The exact extent of "an ACK means persisted", in every state of every run. */
  lemma AnswerExact(es: seq<Event>, op: Op)
    requires After(INIT, es).At?
    requires var c := After(INIT, es).m.calls; op in c.done && !c.done[op].role.Outsider?
    ensures var m := After(INIT, es).m; TellsTruth(m, op) <==> Faithful(m, m.calls.done[op])
  {
    RunsKeep(es);
    var m := After(INIT, es).m;
    DiskByGeneration(m, op);
    assert Answered(m.past, op, m.calls.done[op]);
    if op in m.past.wrote { assert Placed(m.db, m.past, op); }
  }

  /** A truthful id is the id of the caller's own row. */
  lemma {:induction false} TrueIdNamesOwnRow(es: seq<Event>, op: Op)
    requires After(INIT, es).At?
    requires var c := After(INIT, es).m.calls; op in c.done && !c.done[op].role.Outsider?
    requires var m := After(INIT, es).m; m.calls.done[op].answer != -1 && TellsTruth(m, op)
    ensures var m := After(INIT, es).m; Row(m.calls.done[op].answer, op) in m.db.disk
  {
    RunsKeep(es);
    var m := After(INIT, es).m;
    DiskByGeneration(m, op);
    assert Answered(m.past, op, m.calls.done[op]);
  }

  lemma JoinerSaw(es: seq<Event>, op: Op)
    requires After(INIT, es).At?
    requires var c := After(INIT, es).m.calls; op in c.done && c.done[op].role.Joiner?
    ensures var m := After(INIT, es).m; var r := m.calls.done[op].role; 0 <= r.gen < r.seen <= |m.past.batches|
  {
    RunsKeep(es);
    var m := After(INIT, es).m;
    assert Answered(m.past, op, m.calls.done[op]);
  }

  /** A joiner that wakes before a second batch is resolved is told the truth. */
  lemma PromptJoinerIsRight(es: seq<Event>, op: Op)
    requires After(INIT, es).At?
    requires var c := After(INIT, es).m.calls; op in c.done && c.done[op].role.Joiner?
    requires var r := After(INIT, es).m.calls.done[op].role; r.seen == r.gen + 1
    ensures TellsTruth(After(INIT, es).m, op)
  {
    JoinerSaw(es, op);
    AnswerExact(es, op);
  }

  lemma {:induction false} IdWithoutRollback(es: seq<Event>, op: Op)
    requires After(INIT, es).At?
    requires var m := After(INIT, es).m; forall b :: b in m.past.batches ==> b.ok
    requires var c := After(INIT, es).m.calls; op in c.done && !c.done[op].role.Outsider? && c.done[op].answer != -1
    ensures var m := After(INIT, es).m; Faithful(m, m.calls.done[op])
  {
    RunsKeep(es);
    var m := After(INIT, es).m;
    assert Answered(m.past, op, m.calls.done[op]);
  }

  /** Nothing fails: no INSERT, no id query, no COMMIT. */
  ghost predicate Healthy(es: seq<Event>) {
    forall i :: 0 <= i < |es| ==>
      (es[i].Enter? ==> es[i].ins.Stored? && es[i].ins.known) && (es[i].Resolve? ==> es[i].commitOk)
  }

  /** Every call that returned has an id, and every verdict so far is good. */
  ghost predicate AllWell(m: Machine) {
    && (forall g {:trigger m.past.batches[g]} :: 0 <= g < |m.past.batches| ==> m.past.batches[g].ok)
    && m.db.ok
    && (forall op {:trigger m.calls.done[op]} :: op in m.calls.done && !m.calls.done[op].role.Outsider? ==>
          m.calls.done[op].answer > 0)
  }

  lemma WellStep(m: Machine, e: Event)
    requires Inv(m) && AllWell(m) && Enabled(m, e)
    requires (e.Enter? ==> e.ins.Stored? && e.ins.known) && (e.Resolve? ==> e.commitOk)
    ensures AllWell(Next(m, e))
  {
    hide Ledger, RowsKept, Answers, NoLostWakeup, OneStarter;
    match e
    case Resolve(op, _) => assert m.calls.phases[op].id > 0;
    case Wake(op) => assert m.calls.phases[op].id > 0;
    case _ =>
  }

  /** When nothing fails, every call that returned was given the id of its own committed row, whoever started, joined or
      slept. */
  lemma {:induction false} HealthyCallsSucceed(es: seq<Event>, op: Op)
    requires After(INIT, es).At? && Healthy(es)
    ensures AllWell(After(INIT, es).m)
    ensures var m := After(INIT, es).m;
      op in m.calls.done && !m.calls.done[op].role.Outsider? ==> Row(m.calls.done[op].answer, op) in m.db.disk
  {
    HealthyRuns(es);
    var m := After(INIT, es).m;
    if op in m.calls.done && !m.calls.done[op].role.Outsider? {
      forall b | b in m.past.batches ensures b.ok {
        var g :| 0 <= g < |m.past.batches| && m.past.batches[g] == b;
      }
      NoRollbackNoLie(es, op);
    }
  }

  lemma {:induction false} HealthyRuns(es: seq<Event>)
    requires After(INIT, es).At? && Healthy(es)
    ensures AllWell(After(INIT, es).m)
  {
    hide Inv, Next, Enabled, AllWell;
    if es == [] {
      NothingYet();
    } else {
      var n := |es| - 1;
      assert es[n] == es[|es| - 1];
      RunsKeep(es[..n]);
      HealthyRuns(es[..n]);
      WellStep(After(INIT, es[..n]).m, es[n]);
    }
  }

  lemma NothingYet()
    ensures AllWell(INIT)
  {
  }

  /** Without rollbacks, every id that any call returned is the id of its committed row. */
  lemma {:induction false} NoRollbackNoLie(es: seq<Event>, op: Op)
    requires After(INIT, es).At?
    requires var m := After(INIT, es).m; forall b :: b in m.past.batches ==> b.ok
    requires var c := After(INIT, es).m.calls; op in c.done && !c.done[op].role.Outsider? && c.done[op].answer != -1
    ensures var m := After(INIT, es).m; Row(m.calls.done[op].answer, op) in m.db.disk
  {
    IdWithoutRollback(es, op);
    AnswerExact(es, op);
    TrueIdNamesOwnRow(es, op);
  }
}
