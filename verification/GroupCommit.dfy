/** The group-commit write path of the message table (src/database.cpp).

    Every `insert_*` call takes one mutex.  The first one to find no open transaction BEGINs one and
    becomes the batch's starter; later ones add their row to it and sleep until the starter has
    resolved the batch.  One counter (`gen`) and one verdict slot (`ok`) tell the sleepers what
    happened.  SQLite itself is the environment: whether BEGIN, INSERT, `last_insert_rowid` and
    COMMIT succeed is part of each event.  A step is the code between two condition waits. */
module GroupCommit {

  const BATCH_MAX: nat := 32

  /** One call of a writer; it stands for the message that the call carries. */
  type Op = nat

  datatype Row = Row(id: int, op: Op)

  /** What became of the INSERT statement and of the `last_insert_rowid` query behind it. */
  datatype Insert = Failed | Stored(id: nat, known: bool) {
    function RowId(): int { if Stored? && known then id else -1 }
  }

  /** The members of `Database`, with the message table split into durable rows and the rows of the
      open transaction. */
  datatype Db = Db(inTx: bool, pending: nat, gen: nat, ok: bool, open: seq<Row>, disk: seq<Row>)

  const EMPTY_DB := Db(false, 0, 0, true, [], [])

  /** How `enter_batch_locked` let a writer in. */
  datatype Mode = Beginning | Joining | Alone

  /** Where `insert_*` stands when it first releases the mutex: it has returned, it is the starter
      about to resolve, or it sleeps until the generation moves on from `gen`. */
  datatype Progress = Answered(answer: int) | Resolving(id: int) | Sleeping(gen: nat, id: int)

  predicate DoorOpen(db: Db) { !(db.inTx && db.pending >= BATCH_MAX) }

  function ModeOf(db: Db, beginOk: bool): Mode {
    if db.inTx then Joining else if beginOk then Beginning else Alone
  }

  function Admitted(db: Db, beginOk: bool): Db {
    match ModeOf(db, beginOk)
    case Joining => db.(pending := db.pending + 1)
    case Beginning => db.(inTx := true, pending := 1)
    case Alone => db
  }

  /** Without a transaction the INSERT commits by itself. */
  function Inserted(db: Db, op: Op, ins: Insert): Db {
    if ins.Failed? then db
    else if db.inTx then db.(open := db.open + [Row(ins.id, op)])
    else db.(disk := db.disk + [Row(ins.id, op)])
  }

  function Resolved(db: Db, committed: bool): Db {
    Db(false, 0, db.gen + 1, committed, [], if committed then db.disk + db.open else db.disk)
  }

  /** The first locked section of `insert_*`, from the door to the first wait or return. */
  function Entered(db: Db, op: Op, beginOk: bool, ins: Insert): (Db, Progress) {
    var db2 := Inserted(Admitted(db, beginOk), op, ins);
    var id := ins.RowId();
    match ModeOf(db, beginOk)
    case Alone => (db2, Answered(id))
    case Beginning => if id < 0 then (Resolved(db2, false), Answered(-1)) else (db2, Resolving(id))
    case Joining => if id < 0 then (db2, Answered(-1)) else (db2, Sleeping(db.gen, id))
  }

  // ---------- the other tables ----------

  /** A write outside the message table; a number stands for the user's or the room's name. */
  datatype Change = NewUser(name: nat) | NewRoom(name: nat) | Offline(id: nat) | Delivered(id: nat)

  datatype Code = Done | DuplicateUser | RoomExists | SqlError

  /** Names of users and of rooms are UNIQUE; the constraint is reported by its own code. */
  function Changed(others: seq<Change>, change: Change, sqlOk: bool): (seq<Change>, Code) {
    if !sqlOk then (others, SqlError)
    else if change.NewUser? && change in others then (others, DuplicateUser)
    else if change.NewRoom? && change in others then (others, RoomExists)
    else (others + [change], Done)
  }

  // ---------- the code ----------

  /** The C++ object.  Outcomes of SQLite calls are parameters; a `cv_.wait` ends a method, and its
      predicate is the precondition of the method that continues after it. */
  class Database {
    var inTx: bool
    var txPending: nat
    var txGen: nat
    var txOk: bool
    var openRows: seq<Row>
    var diskRows: seq<Row>
    var otherRows: seq<Change>  // the other tables, as the changes made to them

    function State(): Db
      reads this
    {
      Db(inTx, txPending, txGen, txOk, openRows, diskRows)
    }

    constructor ()
      ensures State() == EMPTY_DB && otherRows == []
    {
      inTx, txPending, txGen, txOk := false, 0, 0, true;
      openRows, diskRows, otherRows := [], [], [];
    }

    method EnterBatch(beginOk: bool) returns (starter: bool, myGen: int)
      requires DoorOpen(State())
      modifies this
      ensures otherRows == old(otherRows)
      ensures State() == Admitted(old(State()), beginOk)
      ensures starter <==> ModeOf(old(State()), beginOk) == Beginning
      ensures myGen == if ModeOf(old(State()), beginOk) == Alone then -1 else txGen
    {
      myGen := txGen;
      if inTx {
        txPending := txPending + 1;
        return false, myGen;
      }
      if !beginOk {
        return false, -1;
      }
      inTx := true;
      txPending := 1;
      starter := true;
    }

    method ResolveTx(ok: bool, commitOk: bool)
      modifies this
      ensures otherRows == old(otherRows)
      ensures old(inTx) ==> State() == Resolved(old(State()), ok && commitOk)
      ensures !old(inTx) ==> State() == old(State())
    {
      if !inTx { return; }
      var committed := false;
      if ok {
        committed := commitOk;
      }
      if committed {
        diskRows := diskRows + openRows;
      }
      openRows := [];
      inTx := false;
      txPending := 0;
      txOk := committed;
      txGen := txGen + 1;
    }

    /** `insert_room_msg` and `insert_private_msg`, up to the first wait. */
    method InsertMsg(op: Op, beginOk: bool, ins: Insert) returns (p: Progress)
      requires DoorOpen(State())
      modifies this
      ensures (State(), p) == Entered(old(State()), op, beginOk, ins)
      ensures otherRows == old(otherRows)
    {
      var starter, myGen := EnterBatch(beginOk);
      var id: int := -1;
      if ins.Stored? {
        if inTx {
          openRows := openRows + [Row(ins.id, op)];
        } else {
          diskRows := diskRows + [Row(ins.id, op)];
        }
        if ins.known { id := ins.id; }
      }
      if id < 0 && starter {
        ResolveTx(false, false);
        return Answered(-1);
      }
      if id < 0 { return Answered(-1); }
      if myGen < 0 { return Answered(id); }
      if !starter { return Sleeping(myGen, id); }
      return Resolving(id);
    }

    /** The starter's half of `finish_batch_locked`. */
    method FinishStarter(id: int, commitOk: bool) returns (answer: int)
      requires inTx
      modifies this
      ensures State() == Resolved(old(State()), commitOk)
      ensures answer == if commitOk then id else -1
      ensures otherRows == old(otherRows)
      ensures forall m: Machine, op: Op ::
        m.db == old(State()) && op in m.calls.phases && m.calls.phases[op] == Starting(id) ==>
          Next(m, Resolve(op, commitOk)).calls.done[op].answer == answer && Next(m, Resolve(op, commitOk)).db == State()
    {
      ResolveTx(true, commitOk);
      answer := if txOk then id else -1;
    }

    /** The joiner's half, once the generation has moved on: in every state of all writers that has this
        database, it is the answer that waking the joiner records. */
    method FinishJoiner(myGen: nat, id: int) returns (answer: int)
      requires txGen != myGen
      ensures answer == if txOk then id else -1
      ensures forall m: Machine, op: Op ::
        m.db == State() && op in m.calls.phases && m.calls.phases[op] == Joined(myGen, id) && op !in m.calls.asleep ==>
          Enabled(m, Wake(op)) && Next(m, Wake(op)).calls.done[op] == Finished(answer, Joiner(myGen, txGen))
    {
      answer := if txOk then id else -1;
    }

    /** `create_user`, `create_room`, `insert_offline`, `mark_delivered` after `wait_tx_idle`; the last two
        drop the code. */
    method WriteOther(change: Change, sqlOk: bool) returns (code: Code)
      requires !inTx
      modifies this
      ensures State() == old(State())
      ensures (otherRows, code) == Changed(old(otherRows), change, sqlOk)
    {
      if !sqlOk { return SqlError; }
      if change.NewUser? && change in otherRows { return DuplicateUser; }
      if change.NewRoom? && change in otherRows { return RoomExists; }
      otherRows := otherRows + [change];
      return Done;
    }
  }

  // ---------- all writers together ----------

  /** AtDoor: blocked in `enter_batch_locked`; AtIdle: blocked in `wait_tx_idle`. */
  datatype Phase = AtDoor | AtIdle | Starting(id: int) | Joined(gen: nat, id: int)

  /** How a finished call got its answer.  A joiner of batch `gen` read the verdict slot when the
      generation was `seen`; an early joiner's INSERT failed it before it could wait; a solo writer
      found no transaction and could not BEGIN one. */
  datatype Role =
    | Starter
    | Solo(ins: Insert)
    | Joiner(gen: nat, seen: nat)
    | EarlyJoiner(gen: nat, ins: Insert)
    | Outsider

  datatype Finished = Finished(answer: int, role: Role)

  /** A row that an INSERT stored: its id and the generation it went into, -1 outside a batch. */
  datatype Write = Write(id: int, gen: int)

  /** A resolved batch, with the rows that were committed alone before it was opened. */
  datatype Batch = Batch(solos: seq<Row>, rows: seq<Row>, ok: bool)

  /** The threads: `asleep` holds the calls inside `cv_.wait` that nothing has notified yet, `owner`
      the call that opened the transaction, `done` the answers given so far. */
  datatype Calls = Calls(phases: map<Op, Phase>, asleep: set<Op>, owner: set<Op>, done: map<Op, Finished>)

  /** The past: every stored row, every resolved batch, and the rows committed alone since. */
  datatype Past = Past(wrote: map<Op, Write>, batches: seq<Batch>, solos: seq<Row>)

  datatype Machine = Machine(db: Db, calls: Calls, past: Past, others: seq<Change>)

  const INIT := Machine(EMPTY_DB, Calls(map[], {}, {}, map[]), Past(map[], [], []), [])

  datatype Event =
    | Call(op: Op)
    | CallOther(op: Op)
    | Sleep(op: Op)
    | Spurious(op: Op)
    | Enter(op: Op, beginOk: bool, ins: Insert)
    | Resolve(op: Op, commitOk: bool)
    | Wake(op: Op)
    | Other(op: Op, change: Change, sqlOk: bool)

  /** The predicate that a call's `cv_.wait` is waiting for. */
  predicate Ready(db: Db, phase: Phase) {
    match phase
    case AtDoor => DoorOpen(db)
    case AtIdle => !db.inTx
    case Starting(_) => true
    case Joined(gen, _) => db.gen != gen
  }

  /** SQLite gives a new row an id above every id in the table. */
  predicate FreshId(db: Db, ins: Insert) {
    ins.Stored? ==>
      && ins.id > 0
      && (forall i :: 0 <= i < |db.disk| ==> db.disk[i].id < ins.id)
      && (forall i :: 0 <= i < |db.open| ==> db.open[i].id < ins.id)
  }

  predicate Enabled(m: Machine, e: Event) {
    var c := m.calls;
    match e
    case Call(op) => op !in c.phases && op !in c.done
    case CallOther(op) => op !in c.phases && op !in c.done
    case Sleep(op) => op in c.phases && op !in c.asleep && !Ready(m.db, c.phases[op])
    case Spurious(op) => op in c.asleep
    case Enter(op, beginOk, ins) =>
      op in c.phases && c.phases[op].AtDoor? && op !in c.asleep && DoorOpen(m.db) && FreshId(m.db, ins)
    case Resolve(op, _) => op in c.phases && c.phases[op].Starting?
    case Wake(op) =>
      op in c.phases && c.phases[op].Joined? && op !in c.asleep && Ready(m.db, c.phases[op])
    case Other(op, _, _) =>
      op in c.phases && c.phases[op].AtIdle? && op !in c.asleep && Ready(m.db, c.phases[op])
  }

  function Finish(c: Calls, op: Op, answer: int, role: Role): Calls {
    c.(phases := c.phases - {op}, asleep := c.asleep - {op}, done := c.done[op := Finished(answer, role)])
  }

  /** `notify_all` */
  function Notify(c: Calls): Calls { c.(asleep := {}) }

  function NewRows(op: Op, ins: Insert): seq<Row> {
    if ins.Stored? then [Row(ins.id, op)] else []
  }

  function Recorded(past: Past, op: Op, ins: Insert, gen: int): Past {
    if ins.Stored? then past.(wrote := past.wrote[op := Write(ins.id, gen)]) else past
  }

  function Closed(past: Past, rows: seq<Row>, ok: bool): Past {
    past.(batches := past.batches + [Batch(past.solos, rows, ok)], solos := [])
  }

  function NextAlone(m: Machine, op: Op, ins: Insert): Machine {
    var (db', p) := Entered(m.db, op, false, ins);
    var past := Recorded(m.past, op, ins, -1);
    Machine(db', Finish(m.calls, op, if p.Answered? then p.answer else -1, Solo(ins)),
            past.(solos := past.solos + NewRows(op, ins)), m.others)
  }

  /** A joiner notifies everybody, so that a starter sees that the batch is full. */
  function NextJoin(m: Machine, op: Op, ins: Insert): Machine {
    var (db', p) := Entered(m.db, op, false, ins);
    var c := Notify(m.calls);
    Machine(db',
            if p.Sleeping? then c.(phases := c.phases[op := Joined(p.gen, p.id)])
            else Finish(c, op, -1, EarlyJoiner(m.db.gen, ins)),
            Recorded(m.past, op, ins, m.db.gen), m.others)
  }

  function NextBegin(m: Machine, op: Op, ins: Insert): Machine {
    var (db', p) := Entered(m.db, op, true, ins);
    var past := Recorded(m.past, op, ins, m.db.gen);
    var c := m.calls;
    if p.Resolving? then
      Machine(db', c.(phases := c.phases[op := Starting(p.id)], owner := {op}), past, m.others)
    else
      Machine(db', Finish(Notify(c), op, -1, Starter), Closed(past, NewRows(op, ins), false), m.others)
  }

  function NextResolve(m: Machine, op: Op, ok: bool): Machine
    requires Enabled(m, Resolve(op, ok))
  {
    var c := Notify(m.calls).(owner := {});
    Machine(Resolved(m.db, ok), Finish(c, op, if ok then c.phases[op].id else -1, Starter),
            Closed(m.past, m.db.open, ok), m.others)
  }

  function Next(m: Machine, e: Event): Machine
    requires Enabled(m, e)
  {
    var c := m.calls;
    match e
    case Call(op) => m.(calls := c.(phases := c.phases[op := AtDoor]))
    case CallOther(op) => m.(calls := c.(phases := c.phases[op := AtIdle]))
    case Sleep(op) => m.(calls := c.(asleep := c.asleep + {op}))
    case Spurious(op) => m.(calls := c.(asleep := c.asleep - {op}))
    case Enter(op, beginOk, ins) =>
      if m.db.inTx then NextJoin(m, op, ins)
      else if beginOk then NextBegin(m, op, ins)
      else NextAlone(m, op, ins)
    case Resolve(op, ok) => NextResolve(m, op, ok)
    case Wake(op) =>
      m.(calls := Finish(c, op, if m.db.ok then c.phases[op].id else -1,
                         Joiner(c.phases[op].gen, m.db.gen)))
    case Other(op, change, sqlOk) =>
      m.(calls := Finish(c, op, 0, Outsider), others := Changed(m.others, change, sqlOk).0)
  }

  /** The state a run reaches, or Stuck when some event of it was not possible. */
  datatype Reached = At(m: Machine) | Stuck

  function After(m: Machine, es: seq<Event>): Reached {
    if es == [] then At(m)
    else
      var before := After(m, es[..|es| - 1]);
      if before.At? && Enabled(before.m, es[|es| - 1]) then At(Next(before.m, es[|es| - 1])) else Stuck
  }
}
