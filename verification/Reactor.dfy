/** The reactor of legacy/chat_server_v3.cpp: one I/O thread, workers sharded by descriptor, replies that carry
    the generation of the connection they belong to. */
module Reactor {
  import opened Bytes
  import opened Collections

  // ---------- states ----------

  /** Work for a request frame, and later the reply to it: descriptor, generation, and which frame of that
      connection it was. */
  datatype Item = Item(fd: nat, gen: nat, index: nat)

  datatype Worker = Worker(jobs: seq<Item>, running: Option<Item>)

  /** `conns` maps a descriptor to the generation of the connection that has it now. The rest of the record is
      history: which descriptor a generation had, how many frames were read from it, and the replies that
      joined its output queue. */
  datatype State = State(conns: map<nat, nat>, lastGen: nat, workers: seq<Worker>, outq: seq<Item>, local: seq<Item>,
                         fdOf: map<nat, nat>, read: map<nat, nat>, queued: map<nat, seq<Item>>)

  function Start(workers: nat): State {
    State(map[], 0, seq(workers, _ => Worker([], None)), [], [], map[], map[], map[])
  }

  // ---------- steps ----------

  /** What becomes of a connection that a reply is applied to. */
  datatype Fate = Survives | TooSlow | Broken

  datatype Event =
    | Accept(fd: nat)
    | Frame(fd: nat)
    | Take(worker: nat)
    | Reply(worker: nat)
    | NoReply(worker: nat)
    | Swap
    | Apply(fate: Fate)
    | Close(fd: nat)

  predicate Enabled(s: State, e: Event) {
    match e
    case Accept(fd) => fd !in s.conns
    case Frame(fd) => fd in s.conns && s.conns[fd] in s.read && |s.workers| > 0
    case Take(w) => w < |s.workers| && s.workers[w].running.None? && s.workers[w].jobs != []
    case Reply(w) => w < |s.workers| && s.workers[w].running.Some?
    case NoReply(w) => w < |s.workers| && s.workers[w].running.Some?
    case Swap => s.local == []
    case Apply(_) => s.local != []
    case Close(fd) => fd in s.conns
  }

  function SetWorker(s: State, w: nat, worker: Worker): State
    requires w < |s.workers|
  {
    s.(workers := s.workers[w := worker])
  }

  /** `applyOutput`: a reply for a closed or reused descriptor is dropped; the connection may also be closed on
      the way, as too slow or broken. */
  function Applied(s: State, fate: Fate): State
    requires s.local != []
  {
    var t := s.local[0];
    var s' := s.(local := s.local[1..]);
    if t.fd !in s.conns || s.conns[t.fd] != t.gen then s'
    else
      var s'' := if fate.TooSlow? then s' else s'.(queued := s.queued[t.gen := Queued(s, t.gen) + [t]]);
      if fate.Survives? then s'' else s''.(conns := s.conns - {t.fd})
  }

  function Queued(s: State, gen: nat): seq<Item> { if gen in s.queued then s.queued[gen] else [] }

  function After(s: State, e: Event): State
    requires Enabled(s, e)
  {
    match e
    case Accept(fd) =>
      var g := s.lastGen + 1;
      s.(conns := s.conns[fd := g], lastGen := g, fdOf := s.fdOf[g := fd], read := s.read[g := 0])
    case Frame(fd) =>
      var g := s.conns[fd];
      var w := fd % |s.workers|;
      var worker := s.workers[w];
      SetWorker(s, w, worker.(jobs := worker.jobs + [Item(fd, g, s.read[g])])).(read := s.read[g := s.read[g] + 1])
    case Take(w) =>
      var worker := s.workers[w];
      SetWorker(s, w, Worker(worker.jobs[1..], Some(worker.jobs[0])))
    case Reply(w) =>
      var worker := s.workers[w];
      SetWorker(s, w, worker.(running := None)).(outq := s.outq + [worker.running.value])
    case NoReply(w) => SetWorker(s, w, s.workers[w].(running := None))
    case Swap => s.(local := s.outq, outq := [])
    case Apply(fate) => Applied(s, fate)
    case Close(fd) => s.(conns := s.conns - {fd})
  }

  function Reached(workers: nat, events: seq<Event>): State {
    if events == [] then Start(workers)
    else
      var s, e := Reached(workers, events[..|events| - 1]), events[|events| - 1];
      if Enabled(s, e) then After(s, e) else s
  }

  // ---------- the pipeline of one connection ----------

  /** The frame numbers of one generation, in order. */
  function Select(items: seq<Item>, gen: nat): seq<nat> {
    if items == [] then []
    else (if items[0].gen == gen then [items[0].index] else []) + Select(items[1..], gen)
  }

  function Running(w: Worker): seq<Item> { if w.running.Some? then [w.running.value] else [] }

  /** Everything of one generation that is under way, from the replies already queued back to the newest job. */
  function Pipeline(s: State, gen: nat, w: nat): seq<nat>
    requires w < |s.workers|
  {
    Select(Queued(s, gen) + s.local + s.outq + Running(s.workers[w]) + s.workers[w].jobs, gen)
  }

  ghost predicate Below(ns: seq<nat>, n: nat) { forall i :: 0 <= i < |ns| ==> ns[i] < n }

  /** A job or reply names a generation that was accepted, with its descriptor. */
  predicate Known(s: State, t: Item) { t.gen in s.fdOf && s.fdOf[t.gen] == t.fd }

  ghost predicate AllKnown(s: State, items: seq<Item>) {
    forall i {:trigger items[i]} :: 0 <= i < |items| ==> Known(s, items[i])
  }

  ghost predicate WorkerOk(s: State, w: nat)
    requires w < |s.workers|
  {
    var items := Running(s.workers[w]) + s.workers[w].jobs;
    && AllKnown(s, items)
    && (forall i {:trigger items[i]} :: 0 <= i < |items| ==> items[i].fd % |s.workers| == w)
  }

  ghost predicate GenOk(s: State, g: nat)
    requires |s.workers| > 0 && g in s.fdOf && g in s.read
  {
    var p := Pipeline(s, g, s.fdOf[g] % |s.workers|);
    && g <= s.lastGen
    && Increasing(p) && Below(p, s.read[g])
    && (forall i {:trigger Queued(s, g)[i]} :: 0 <= i < |Queued(s, g)| ==> Queued(s, g)[i].gen == g)
  }

  ghost predicate Inv(s: State) {
    && |s.workers| > 0
    && s.read.Keys == s.fdOf.Keys
    && (forall g :: g in s.queued ==> g in s.fdOf)
    && (forall g :: g > s.lastGen ==> g !in s.fdOf)
    && (forall fd {:trigger s.conns[fd]} :: fd in s.conns ==> s.conns[fd] in s.fdOf && s.fdOf[s.conns[fd]] == fd)
    && (forall w {:trigger WorkerOk(s, w)} :: 0 <= w < |s.workers| ==> WorkerOk(s, w))
    && AllKnown(s, s.outq) && AllKnown(s, s.local)
    && (forall g {:trigger GenOk(s, g)} :: g in s.fdOf ==> GenOk(s, g))
  }

  // ---------- selections ----------

  lemma {:induction false} SelectAppend(a: seq<Item>, b: seq<Item>, g: nat)
    ensures Select(a + b, g) == Select(a, g) + Select(b, g)
  {
    if a == [] {
      assert a + b == b;
    } else {
      assert (a + b)[1..] == a[1..] + b;
      SelectAppend(a[1..], b, g);
      Assoc(if a[0].gen == g then [a[0].index] else [], Select(a[1..], g), Select(b, g));
    }
  }

  lemma {:induction false} SelectNone(items: seq<Item>, g: nat)
    requires forall i {:trigger items[i]} :: 0 <= i < |items| ==> items[i].gen != g
    ensures Select(items, g) == []
  {
    if items != [] {
      assert items[0].gen != g;
      assert forall i :: 0 <= i < |items| - 1 ==> items[1..][i] == items[i + 1];
      SelectNone(items[1..], g);
    }
  }

  function Parts(q: seq<Item>, l: seq<Item>, o: seq<Item>, r: seq<Item>, j: seq<Item>, g: nat): seq<nat> {
    Select(q, g) + Select(l, g) + Select(o, g) + Select(r, g) + Select(j, g)
  }

  lemma PipelineIs(s: State, g: nat, w: nat)
    requires w < |s.workers|
    ensures Pipeline(s, g, w) == Parts(Queued(s, g), s.local, s.outq, Running(s.workers[w]), s.workers[w].jobs, g)
  {
    hide Select;
    var q, l, o, r, j := Queued(s, g), s.local, s.outq, Running(s.workers[w]), s.workers[w].jobs;
    SelectAppend(q, l, g);
    SelectAppend(q + l, o, g);
    SelectAppend(q + l + o, r, g);
    SelectAppend(q + l + o + r, j, g);
  }

  /** Leaving one number out keeps the order. */
  lemma Without(a: seq<nat>, x: seq<nat>, b: seq<nat>, n: nat)
    requires Increasing(a + x + b) && Below(a + x + b, n)
    ensures Increasing(a + b) && Below(a + b, n)
  {
    var all, some := a + x + b, a + b;
    forall i | 0 <= i < |some| ensures some[i] == all[if i < |a| then i else i + |x|] {
    }
  }

  lemma OneMore(a: seq<nat>, n: nat)
    requires Increasing(a) && Below(a, n)
    ensures Increasing(a + [n]) && Below(a + [n], n + 1)
  {
  }
}
