/** The reactor with its sockets: the bytes that each connection's peer can read, in every interleaving. */
module ReactorWire {
  import opened Bytes
  import opened Frame
  import opened Reactor
  import ReactorOrder
  import opened ReactorOut

  /** The machine of descriptors, workers and queues, with the output of every connection that ever was, by
      generation. `trace` is the history of the machine's own steps. */
  datatype Wired = Wired(s: State, outs: map<nat, Out>, trace: seq<Reactor.Event>)

  /** What the workers answer to the frames of each generation: any function, as no frame is answered twice. */
  type Answers = (nat, nat) -> bytes

  /** A step of the machine, or one that depends on the answers of a socket. */
  datatype WireEvent =
    | Step(e: Reactor.Event)
    | ApplyReply(io: seq<SendQueue.Answer>)
    | CanWrite(fd: nat, io: seq<SendQueue.Answer>)

  function StartWired(workers: nat): Wired { Wired(Start(workers), map[], []) }

  predicate CanHappen(w: Wired, e: WireEvent) {
    match e
    case Step(r) => Enabled(w.s, r) && !r.Apply?
    case ApplyReply(_) => w.s.local != []
    case CanWrite(fd, _) => fd in w.s.conns
  }

  /** One step of the machine below. */
  function Moved(w: Wired, e: Reactor.Event): Wired
    requires Enabled(w.s, e)
  {
    Wired(After(w.s, e), w.outs, w.trace + [e])
  }

  function OutOf(outs: map<nat, Out>, g: nat): Out { if g in outs then outs[g] else EMPTY }

  /** What the size of the queue and the answers of the socket make of a connection. */
  function FateOf(o: Out, frame: bytes, io: seq<SendQueue.Answer>): Fate {
    if o.outBytes + |frame| > MAX_OUT then TooSlow else if ApplyFrame(o, frame, io).Live? then Survives else Broken
  }

  function Next(w: Wired, e: WireEvent, say: Answers): Wired
    requires CanHappen(w, e)
  {
    match e
    case Step(r) =>
      var w' := Moved(w, r);
      if r.Accept? then w'.(outs := w.outs[w.s.lastGen + 1 := EMPTY]) else w'
    case ApplyReply(io) =>
      var t := w.s.local[0];
      if t.fd !in w.s.conns || w.s.conns[t.fd] != t.gen then Moved(w, Reactor.Apply(Survives))
      else
        var o, frame := OutOf(w.outs, t.gen), Wire(say(t.gen, t.index));
        Moved(w, Reactor.Apply(FateOf(o, frame, io))).(outs := w.outs[t.gen := ApplyFrame(o, frame, io).out])
    case CanWrite(fd, io) =>
      var g := w.s.conns[fd];
      var r := Writable(OutOf(w.outs, g), io);
      var w' := w.(outs := w.outs[g := r.out]);
      if r.Live? then w' else Moved(w', Close(fd))
  }

  function RunWired(workers: nat, events: seq<WireEvent>, say: Answers): Wired {
    if events == [] then StartWired(workers)
    else
      var w, e := RunWired(workers, events[..|events| - 1], say), events[|events| - 1];
      if CanHappen(w, e) then Next(w, e, say) else w
  }

  // ---------- what every run keeps ----------

  function Said(items: seq<Item>, say: Answers): seq<bytes> {
    seq(|items|, i requires 0 <= i < |items| => say(items[i].gen, items[i].index))
  }

  /** The output of a generation is the replies that joined its queue, as frames, written or waiting. */
  ghost predicate OutOk(s: State, g: nat, o: Out, say: Answers) {
    Exact(o) && o.frames == Wires(Said(Queued(s, g), say))
  }

  ghost predicate Outputs(s: State, outs: map<nat, Out>, say: Answers) {
    forall g {:trigger OutOk(s, g, OutOf(outs, g), say)} :: OutOk(s, g, OutOf(outs, g), say)
  }

  /** A live connection has an exact count within its bound and waits for EPOLLOUT while bytes are left. */
  ghost predicate LiveOutputs(s: State, outs: map<nat, Out>) {
    forall fd {:trigger s.conns[fd]} :: fd in s.conns ==> Settled(OutOf(outs, s.conns[fd]))
  }

  ghost predicate Wiring(workers: nat, w: Wired, say: Answers) {
    w.s == Reached(workers, w.trace) && Inv(w.s) && Outputs(w.s, w.outs, say) && LiveOutputs(w.s, w.outs)
  }

  lemma MovedReached(workers: nat, w: Wired, e: Reactor.Event)
    requires w.s == Reached(workers, w.trace) && Inv(w.s) && Enabled(w.s, e)
    ensures Moved(w, e).s == Reached(workers, Moved(w, e).trace) && Inv(Moved(w, e).s)
  {
    hide Inv, Enabled, After;
    var all := w.trace + [e];
    assert all[..|all| - 1] == w.trace;
    ReactorOrder.StepKeeps(w.s, e);
  }

  /** Only applying a reply changes what was queued, and only a new connection can take over a descriptor. */
  lemma QueuesStay(s: State, e: Reactor.Event)
    requires Inv(s) && Enabled(s, e) && !e.Apply?
    ensures After(s, e).queued == s.queued
    ensures forall fd :: fd in After(s, e).conns ==>
      (fd in s.conns && s.conns[fd] == After(s, e).conns[fd]) || (e.Accept? && After(s, e).conns[fd] == s.lastGen + 1)
  {
    hide Inv;
  }

  lemma NothingQueuedYet(s: State)
    requires Inv(s)
    ensures Queued(s, s.lastGen + 1) == []
  {
    hide GenOk, WorkerOk, AllKnown;
  }

  lemma OutputReplaced(s: State, s': State, outs: map<nat, Out>, g: nat, o: Out, say: Answers)
    requires Outputs(s, outs, say) && OutOk(s', g, o, say)
    requires forall h :: h != g ==> Queued(s', h) == Queued(s, h)
    ensures Outputs(s', outs[g := o], say)
  {
    hide Exact;
    var outs' := outs[g := o];
    forall h ensures OutOk(s', h, OutOf(outs', h), say) {
      assert OutOk(s, h, OutOf(outs, h), say);
    }
  }

  lemma OutputsStay(s: State, s': State, outs: map<nat, Out>, say: Answers)
    requires Outputs(s, outs, say) && s'.queued == s.queued
    ensures Outputs(s', outs, say)
  {
    hide Exact;
    forall g ensures OutOk(s', g, OutOf(outs, g), say) {
      assert OutOk(s, g, OutOf(outs, g), say);
    }
  }

  lemma EmptyIsOk(s: State, g: nat, say: Answers)
    ensures Settled(EMPTY) && (Queued(s, g) == [] ==> OutOk(s, g, EMPTY, say))
  {
  }

  lemma StepWires(workers: nat, w: Wired, e: Reactor.Event, say: Answers)
    requires Wiring(workers, w, say) && CanHappen(w, Step(e))
    ensures Wiring(workers, Next(w, Step(e), say), say)
  {
    hide Inv, Enabled, After, Exact, Settled, Reached, Outputs, OutOk;
    MovedReached(workers, w, e);
    QueuesStay(w.s, e);
    NothingQueuedYet(w.s);
    EmptyIsOk(w.s, w.s.lastGen + 1, say);
    OutputsStay(w.s, After(w.s, e), w.outs, say);
    if e.Accept? {
      EmptyIsOk(After(w.s, e), w.s.lastGen + 1, say);
      OutputReplaced(w.s, After(w.s, e), w.outs, w.s.lastGen + 1, EMPTY, say);
      GensBelow(w.s);
    }
  }

  lemma GensBelow(s: State)
    requires Inv(s)
    ensures forall fd :: fd in s.conns ==> s.conns[fd] <= s.lastGen
  {
    hide GenOk, WorkerOk, AllKnown;
  }

  lemma CanWriteWires(workers: nat, w: Wired, fd: nat, io: seq<SendQueue.Answer>, say: Answers)
    requires Wiring(workers, w, say) && CanHappen(w, CanWrite(fd, io))
    ensures Wiring(workers, Next(w, CanWrite(fd, io), say), say)
  {
    hide Inv, After, Exact, Settled, Reached, Outputs, OutOk, Writable;
    var g := w.s.conns[fd];
    var o := OutOf(w.outs, g);
    var r := Writable(o, io);
    WritableSettles(o, io);
    OneConnection(w.s);
    WritableOk(w.s, w.outs, g, io, say);
    OutputReplaced(w.s, w.s, w.outs, g, r.out, say);
    if r.Dead? {
      MovedReached(workers, w, Close(fd));
      QueuesStay(w.s, Close(fd));
      OutputsStay(w.s, After(w.s, Close(fd)), w.outs[g := r.out], say);
      Closed(w.s, fd);
    }
  }

  lemma Closed(s: State, fd: nat)
    requires fd in s.conns
    ensures After(s, Close(fd)).conns == s.conns - {fd}
  {
  }

  /** Two descriptors never share a generation. */
  lemma OneConnection(s: State)
    requires Inv(s)
    ensures forall a, b :: a in s.conns && b in s.conns && s.conns[a] == s.conns[b] ==> a == b
  {
    hide GenOk, WorkerOk, AllKnown;
  }

  lemma WritableOk(s: State, outs: map<nat, Out>, g: nat, io: seq<SendQueue.Answer>, say: Answers)
    requires Outputs(s, outs, say)
    ensures OutOk(s, g, Writable(OutOf(outs, g), io).out, say)
  {
    hide Exact, Writable;
    assert OutOk(s, g, OutOf(outs, g), say);
    HandlersAreExact(OutOf(outs, g), [0], io);
  }

  lemma SaidOneMore(items: seq<Item>, t: Item, say: Answers)
    ensures Wires(Said(items + [t], say)) == Wires(Said(items, say)) + [Wire(say(t.gen, t.index))]
  {
    hide Wire;
    var all := Said(items + [t], say);
    assert all[..|all| - 1] == Said(items, say) && all[|all| - 1] == say(t.gen, t.index);
  }

  /** A reply that is applied joins the frames exactly when it joins the queue. */
  lemma AppliedOk(s: State, outs: map<nat, Out>, io: seq<SendQueue.Answer>, say: Answers)
    requires Outputs(s, outs, say) && s.local != []
    requires var t := s.local[0]; t.fd in s.conns && s.conns[t.fd] == t.gen
    ensures var t := s.local[0];
      var o, frame := OutOf(outs, t.gen), Wire(say(t.gen, t.index));
      Outputs(Applied(s, FateOf(o, frame, io)), outs[t.gen := ApplyFrame(o, frame, io).out], say)
  {
    hide Exact, Wire, Wires, Outputs, ApplyFrame, Said;
    var t := s.local[0];
    var o, frame := OutOf(outs, t.gen), Wire(say(t.gen, t.index));
    OutputAt(s, outs, t.gen, say);
    WireNotEmpty(say(t.gen, t.index));
    HandlersAreExact(o, frame, io);
    SaidOneMore(Queued(s, t.gen), t, say);
    OutputReplaced(s, Applied(s, FateOf(o, frame, io)), outs, t.gen, ApplyFrame(o, frame, io).out, say);
  }

  lemma OutputAt(s: State, outs: map<nat, Out>, g: nat, say: Answers)
    requires Outputs(s, outs, say)
    ensures OutOk(s, g, OutOf(outs, g), say)
  {
    hide OutOk;
    assert OutOk(s, g, OutOf(outs, g), say);
  }

  lemma WireNotEmpty(body: bytes)
    ensures Wire(body) != []
  {
  }

  lemma Dropped(s: State)
    requires s.local != []
    requires var t := s.local[0]; t.fd !in s.conns || s.conns[t.fd] != t.gen
    ensures Applied(s, Survives).conns == s.conns && Applied(s, Survives).queued == s.queued
  {
  }

  lemma AppliedLive(s: State, outs: map<nat, Out>, io: seq<SendQueue.Answer>, say: Answers)
    requires Inv(s) && LiveOutputs(s, outs) && s.local != []
    requires var t := s.local[0]; t.fd in s.conns && s.conns[t.fd] == t.gen
    ensures var t := s.local[0];
      var o, frame := OutOf(outs, t.gen), Wire(say(t.gen, t.index));
      LiveOutputs(Applied(s, FateOf(o, frame, io)), outs[t.gen := ApplyFrame(o, frame, io).out])
  {
    hide Inv, Settled, ApplyFrame, Wire;
    var t := s.local[0];
    var o, frame := OutOf(outs, t.gen), Wire(say(t.gen, t.index));
    WireNotEmpty(say(t.gen, t.index));
    ApplySettles(o, frame, io);
    OneConnection(s);
  }

  lemma ApplyWires(workers: nat, w: Wired, io: seq<SendQueue.Answer>, say: Answers)
    requires Wiring(workers, w, say) && CanHappen(w, ApplyReply(io))
    ensures Wiring(workers, Next(w, ApplyReply(io), say), say)
  {
    hide Inv, Exact, Settled, Reached, Outputs, OutOk, ApplyFrame, Wire, FateOf, Applied;
    var t := w.s.local[0];
    if t.fd !in w.s.conns || w.s.conns[t.fd] != t.gen {
      MovedReached(workers, w, Reactor.Apply(Survives));
      Dropped(w.s);
      OutputsStay(w.s, Applied(w.s, Survives), w.outs, say);
    } else {
      var o, frame := OutOf(w.outs, t.gen), Wire(say(t.gen, t.index));
      var fate := FateOf(o, frame, io);
      MovedReached(workers, w, Reactor.Apply(fate));
      AppliedOk(w.s, w.outs, io, say);
      AppliedLive(w.s, w.outs, io, say);
    }
  }

  lemma {:induction false} RunsKeep(workers: nat, events: seq<WireEvent>, say: Answers)
    requires workers > 0
    ensures Wiring(workers, RunWired(workers, events, say), say)
  {
    hide Wiring, CanHappen, Next;
    if events == [] {
      StartWires(workers, say);
    } else {
      var w, e := RunWired(workers, events[..|events| - 1], say), events[|events| - 1];
      RunsKeep(workers, events[..|events| - 1], say);
      if CanHappen(w, e) {
        match e
        case Step(r) => StepWires(workers, w, r, say);
        case ApplyReply(io) => ApplyWires(workers, w, io, say);
        case CanWrite(fd, io) => CanWriteWires(workers, w, fd, io, say);
      }
    }
  }

  lemma StartWires(workers: nat, say: Answers)
    requires workers > 0
    ensures Wiring(workers, StartWired(workers), say)
  {
    hide Inv, Exact, Settled;
    ReactorOrder.StartOk(workers);
    forall g ensures OutOk(Start(workers), g, OutOf(map[], g), say) {
      EmptyIsOk(Start(workers), g, say);
    }
  }

  // ---------- what a peer reads ----------

  /** In every interleaving of accepting, reading, working, applying and writing, with descriptors reused and sockets
      that are slow or fail: whoever reads the socket of generation `g` is given whole replies to frames of `g`, in
      the order of those frames, each at most once, and nothing else; all of them once all is written and read. */
  lemma {:induction false} PeerReadsRepliesInOrder(workers: nat, events: seq<WireEvent>, say: Answers, g: nat,
                                                   calls: seq<Call>, unread: bytes)
    requires workers > 0 && AllFit(Said(Queued(RunWired(workers, events, say).s, g), say), MAX_FRAME)
    requires Run(calls, MAX_FRAME).fed + unread == OutOf(RunWired(workers, events, say).outs, g).sent
    ensures var w, r := RunWired(workers, events, say), Run(calls, MAX_FRAME);
      var q := Queued(w.s, g);
      && !r.failed && |r.out| <= |q|
      && (forall i :: 0 <= i < |r.out| ==> r.out[i] == say(g, q[i].index) && q[i].gen == g)
      && (forall i, j :: 0 <= i < j < |r.out| ==> q[i].index < q[j].index)
      && (unread == [] && OutOf(w.outs, g).segs == [] && Drained(r, MAX_FRAME) ==> |r.out| == |q|)
  {
    hide AllFit, Run, RunWired, Wires, Flat, WireAll, Drained, Reached, Inv, Outputs;
    var w := RunWired(workers, events, say);
    RunsKeep(workers, events, say);
    OutputAt(w.s, w.outs, g, say);
    var q, o := Queued(w.s, g), OutOf(w.outs, g);
    WiresFlat(Said(q, say));
    Assoc(Run(calls, MAX_FRAME).fed, unread, Unsent(o.segs));
    ReaderSeesPrefix(calls, Said(q, say), unread + Unsent(o.segs), MAX_FRAME);
    ReactorOrder.QueueOrder(w.s, g);
  }

  /** When every request is answered, the reply number `i` that the peer of a live connection reads is the reply to
      its frame number `i`. */
  lemma {:induction false} EveryReplyInPlace(workers: nat, events: seq<WireEvent>, say: Answers, g: nat,
                                             calls: seq<Call>, unread: bytes)
    requires workers > 0 && AllFit(Said(Queued(RunWired(workers, events, say).s, g), say), MAX_FRAME)
    requires Run(calls, MAX_FRAME).fed + unread == OutOf(RunWired(workers, events, say).outs, g).sent
    requires ReactorOrder.AlwaysReplies(RunWired(workers, events, say).trace)
    requires ReactorOrder.Lives(RunWired(workers, events, say).s, g)
    ensures var w, r := RunWired(workers, events, say), Run(calls, MAX_FRAME);
      g in w.s.read && |r.out| <= w.s.read[g]
      && forall i :: 0 <= i < |r.out| ==> r.out[i] == say(g, i)
  {
    hide AllFit, Run, RunWired, Drained, Reached, Inv, Outputs;
    var w := RunWired(workers, events, say);
    RunsKeep(workers, events, say);
    PeerReadsRepliesInOrder(workers, events, say, g, calls, unread);
    ReactorOrder.NoReplyIsMissing(workers, w.trace, g);
    ReactorOrder.QueueNumbers(w.s, g);
  }
}
