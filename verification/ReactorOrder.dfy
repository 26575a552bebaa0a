/** Replies keep the order of their requests and never reach another connection, in every interleaving. */
module ReactorOrder {
  import opened Bytes
  import opened Collections
  import opened Reactor

  /** What the steps leave alone for most generations. */
  lemma GenFacts(s: State, g: nat)
    requires Inv(s) && g in s.fdOf
    ensures GenOk(s, g) && WorkerOk(s, s.fdOf[g] % |s.workers|)
  {
    hide GenOk, WorkerOk, AllKnown;
  }

  lemma SamePipeline(s: State, s': State, g: nat)
    requires |s.workers| == |s'.workers| > 0 && g in s.fdOf && g in s.read && GenOk(s, g)
    requires s'.fdOf == s.fdOf && s'.read == s.read && s'.lastGen == s.lastGen
    requires var w := s.fdOf[g] % |s.workers|; Pipeline(s', g, w) == Pipeline(s, g, w)
    requires Queued(s', g) == Queued(s, g) || (exists t: Item :: t.gen == g && Queued(s', g) == Queued(s, g) + [t])
    ensures GenOk(s', g)
  {
    hide Pipeline, Queued, Increasing, Below;
  }

  // ---------- the workers ----------

  lemma TakeKeeps(s: State, w: nat)
    requires Inv(s) && Enabled(s, Take(w))
    ensures Inv(After(s, Take(w)))
  {
    hide GenOk, WorkerOk, AllKnown;
    var s' := After(s, Take(w));
    var before, after := s.workers[w], s'.workers[w];
    assert Running(before) + before.jobs == Running(after) + after.jobs;
    forall v | 0 <= v < |s'.workers| ensures WorkerOk(s', v) {
      assert WorkerOk(s, v);
      SameWorker(s, s', v);
    }
    KnownStill(s, s');
    forall g | g in s'.fdOf ensures GenOk(s', g) {
      GenFacts(s, g);
      TakePipeline(s, s', w, g);
      SamePipeline(s, s', g);
    }
  }

  lemma SameWorker(s: State, s': State, v: nat)
    requires |s.workers| == |s'.workers| && v < |s.workers| && WorkerOk(s, v) && s'.fdOf == s.fdOf
    requires Running(s.workers[v]) + s.workers[v].jobs == Running(s'.workers[v]) + s'.workers[v].jobs
    ensures WorkerOk(s', v)
  {
    hide Running;
  }

  lemma KnownStill(s: State, s': State)
    requires s'.fdOf == s.fdOf && AllKnown(s, s.outq) && AllKnown(s, s.local)
    ensures AllKnown(s', s.outq) && AllKnown(s', s.local)
  {
  }

  lemma TakePipeline(s: State, s': State, w: nat, g: nat)
    requires Enabled(s, Take(w)) && s' == After(s, Take(w)) && g in s.fdOf
    ensures var v := s.fdOf[g] % |s.workers|; Pipeline(s', g, v) == Pipeline(s, g, v)
  {
    hide Select;
    var v := s.fdOf[g] % |s.workers|;
    var front := Queued(s, g) + s.local + s.outq;
    Regroup(front, Running(s.workers[v]), s.workers[v].jobs);
    Regroup(front, Running(s'.workers[v]), s'.workers[v].jobs);
    if v == w { assert Running(s.workers[v]) + s.workers[v].jobs == Running(s'.workers[v]) + s'.workers[v].jobs; }
  }

  lemma Regroup(a: seq<Item>, b: seq<Item>, c: seq<Item>)
    ensures a + b + c == a + (b + c)
  {
  }

  /** A running item of another generation, when it is not this worker's. */
  lemma OtherGen(s: State, w: nat, g: nat)
    requires Inv(s) && w < |s.workers| && s.workers[w].running.Some? && g in s.fdOf && s.fdOf[g] % |s.workers| != w
    ensures s.workers[w].running.value.gen != g
  {
    hide GenOk, AllKnown;
    assert WorkerOk(s, w);
    RunningKnown(s, w);
  }

  lemma RunningKnown(s: State, w: nat)
    requires w < |s.workers| && WorkerOk(s, w) && s.workers[w].running.Some?
    ensures Known(s, s.workers[w].running.value) && s.workers[w].running.value.fd % |s.workers| == w
  {
    var items := Running(s.workers[w]) + s.workers[w].jobs;
    assert items[0] == s.workers[w].running.value;
  }

  lemma Idle(s: State, w: nat)
    requires w < |s.workers| && WorkerOk(s, w)
    ensures WorkerOk(s.(workers := s.workers[w := s.workers[w].(running := None)]), w)
  {
    hide Known;
    var jobs := s.workers[w].jobs;
    var items := Running(s.workers[w]) + jobs;
    assert [] + jobs == jobs;
    assert forall i :: 0 <= i < |jobs| ==> jobs[i] == items[i + (|items| - |jobs|)];
    SamePlaces(s, s.(workers := s.workers[w := s.workers[w].(running := None)]), items, jobs);
    forall i | 0 <= i < |jobs| ensures jobs[i].fd % |s.workers| == w {
      assert items[i + (|items| - |jobs|)].fd % |s.workers| == w;
    }
  }

  lemma SamePlaces(s: State, s': State, items: seq<Item>, some: seq<Item>)
    requires AllKnown(s, items) && s'.fdOf == s.fdOf && |some| <= |items|
    requires forall i :: 0 <= i < |some| ==> some[i] == items[i + (|items| - |some|)]
    ensures AllKnown(s', some)
  {
    forall i | 0 <= i < |some| ensures Known(s', some[i]) {
      assert Known(s, items[i + (|items| - |some|)]);
    }
  }

  lemma WorkersKept(s: State, s': State, w: nat)
    requires |s.workers| == |s'.workers| > 0 && w < |s.workers| && s'.fdOf == s.fdOf
    requires forall v {:trigger WorkerOk(s, v)} :: 0 <= v < |s.workers| ==> WorkerOk(s, v)
    requires forall v :: 0 <= v < |s.workers| && v != w ==> s'.workers[v] == s.workers[v]
    requires WorkerOk(s', w)
    ensures forall v {:trigger WorkerOk(s', v)} :: 0 <= v < |s'.workers| ==> WorkerOk(s', v)
  {
    forall v | 0 <= v < |s'.workers| ensures WorkerOk(s', v) {
      assert WorkerOk(s, v);
    }
  }

  lemma WorkerElsewhere(s: State, s': State, w: nat)
    requires |s.workers| == |s'.workers| > 0 && w < |s.workers| && s'.fdOf == s.fdOf && WorkerOk(s, w)
    requires s'.workers[w] == s.workers[w]
    ensures WorkerOk(s', w)
  {
  }

  lemma ReplyKeeps(s: State, w: nat)
    requires Inv(s) && Enabled(s, Reply(w))
    ensures Inv(After(s, Reply(w)))
  {
    hide GenOk, WorkerOk, AllKnown;
    var s', t := After(s, Reply(w)), s.workers[w].running.value;
    assert WorkerOk(s, w);
    RunningKnown(s, w);
    Idle(s, w);
    WorkerElsewhere(s.(workers := s'.workers), s', w);
    WorkersKept(s, s', w);
    KnownStill(s, s');
    KnownOneMore(s', s.outq, t);
    forall g | g in s'.fdOf ensures GenOk(s', g) {
      GenFacts(s, g);
      ReplyPipeline(s, s', w, g);
      SamePipeline(s, s', g);
    }
  }

  lemma KnownOneMore(s: State, items: seq<Item>, t: Item)
    requires AllKnown(s, items) && Known(s, t)
    ensures AllKnown(s, items + [t])
  {
  }

  lemma ReplyPipeline(s: State, s': State, w: nat, g: nat)
    requires Inv(s) && Enabled(s, Reply(w)) && s' == After(s, Reply(w)) && g in s.fdOf
    ensures var v := s.fdOf[g] % |s.workers|; Pipeline(s', g, v) == Pipeline(s, g, v)
  {
    hide Select, Inv;
    var v, t := s.fdOf[g] % |s.workers|, s.workers[w].running.value;
    var front := Queued(s, g) + s.local;
    Assoc(front, s.outq, [t]);
    if v == w {
      assert front + s.outq + [t] + [] == front + s.outq + [t];
    } else {
      PipelineIs(s, g, v);
      PipelineIs(s', g, v);
      OtherGen(s, w, g);
      SelectNone([t], g);
      SelectAppend(s.outq, [t], g);
    }
  }

  lemma NoReplyKeeps(s: State, w: nat)
    requires Inv(s) && Enabled(s, NoReply(w))
    ensures Inv(After(s, NoReply(w)))
  {
    hide GenOk, WorkerOk, AllKnown;
    var s' := After(s, NoReply(w));
    assert WorkerOk(s, w);
    Idle(s, w);
    WorkersKept(s, s', w);
    KnownStill(s, s');
    forall g | g in s'.fdOf ensures GenOk(s', g) {
      GenFacts(s, g);
      DroppedRunning(s, s', w, g);
    }
  }

  lemma DroppedRunning(s: State, s': State, w: nat, g: nat)
    requires Enabled(s, NoReply(w)) && s' == After(s, NoReply(w)) && g in s.fdOf && g in s.read && GenOk(s, g)
    ensures GenOk(s', g)
  {
    hide Select;
    var v := s.fdOf[g] % |s.workers|;
    PipelineIs(s, g, v);
    PipelineIs(s', g, v);
    if v == w {
      var front := Select(Queued(s, g), g) + Select(s.local, g) + Select(s.outq, g);
      Without(front, Select(Running(s.workers[w]), g), Select(s.workers[w].jobs, g), s.read[g]);
      SelectNone([], g);
      assert front + [] == front;
    }
  }

  // ---------- the I/O thread ----------

  lemma AcceptKeeps(s: State, fd: nat)
    requires Inv(s) && Enabled(s, Accept(fd))
    ensures Inv(After(s, Accept(fd)))
  {
    hide GenOk, WorkerOk, AllKnown;
    var s', n := After(s, Accept(fd)), s.lastGen + 1;
    forall v | 0 <= v < |s'.workers| ensures WorkerOk(s', v) {
      assert WorkerOk(s, v);
      NewGenWorker(s, s', v);
    }
    NewGenKnown(s, s', s.outq);
    NewGenKnown(s, s', s.local);
    forall g | g in s'.fdOf ensures GenOk(s', g) {
      if g == n {
        NewGenEmpty(s, s', fd % |s.workers|);
      } else {
        GenFacts(s, g);
        OldGen(s, s', g);
      }
    }
  }

  lemma NewGenWorker(s: State, s': State, v: nat)
    requires v < |s.workers| && WorkerOk(s, v) && s'.workers == s.workers
    requires forall g :: g in s.fdOf ==> g in s'.fdOf && s'.fdOf[g] == s.fdOf[g]
    ensures WorkerOk(s', v)
  {
    var items := Running(s.workers[v]) + s.workers[v].jobs;
    forall i | 0 <= i < |items| ensures Known(s', items[i]) {
      assert Known(s, items[i]);
    }
  }

  lemma NewGenKnown(s: State, s': State, items: seq<Item>)
    requires AllKnown(s, items) && forall g :: g in s.fdOf ==> g in s'.fdOf && s'.fdOf[g] == s.fdOf[g]
    ensures AllKnown(s', items)
  {
    forall i | 0 <= i < |items| ensures Known(s', items[i]) {
      assert Known(s, items[i]);
    }
  }

  lemma OldGen(s: State, s': State, g: nat)
    requires |s.workers| > 0 && g in s.fdOf && g in s.read && GenOk(s, g)
    requires s'.workers == s.workers && s'.local == s.local && s'.outq == s.outq && s'.queued == s.queued
    requires s'.lastGen >= s.lastGen && g in s'.fdOf && s'.fdOf[g] == s.fdOf[g] && g in s'.read
        && s'.read[g] == s.read[g]
    ensures GenOk(s', g)
  {
    hide Select, Increasing, Below;
  }

  lemma NewGenEmpty(s: State, s': State, w: nat)
    requires |s.workers| > 0 && w < |s.workers| && s.lastGen + 1 !in s.fdOf && s.lastGen + 1 !in s.queued
    requires AllKnown(s, s.outq) && AllKnown(s, s.local) && WorkerOk(s, w)
    requires s'.workers == s.workers && s'.local == s.local && s'.outq == s.outq && s'.queued == s.queued
    requires s'.lastGen == s.lastGen + 1 && s'.lastGen in s'.fdOf && s'.lastGen in s'.read && s'.read[s'.lastGen] == 0
    requires s'.fdOf[s'.lastGen] % |s.workers| == w
    ensures GenOk(s', s'.lastGen)
  {
    hide Select;
    var g := s'.lastGen;
    var items := Running(s.workers[w]) + s.workers[w].jobs;
    Regroup(Queued(s', g) + s.local + s.outq, Running(s.workers[w]), s.workers[w].jobs);
    Foreign(s, s.local, g);
    Foreign(s, s.outq, g);
    Foreign(s, items, g);
    SelectNone([], g);
    SelectAppend(Queued(s', g), s.local, g);
    SelectAppend(Queued(s', g) + s.local, s.outq, g);
    SelectAppend(Queued(s', g) + s.local + s.outq, items, g);
  }

  lemma Foreign(s: State, items: seq<Item>, g: nat)
    requires AllKnown(s, items) && g !in s.fdOf
    ensures Select(items, g) == []
  {
    forall i | 0 <= i < |items| ensures items[i].gen != g {
      assert Known(s, items[i]);
    }
    SelectNone(items, g);
  }

  /** A request frame joins the queue of its descriptor's worker, behind everything of the same connection. */
  lemma FrameKeeps(s: State, fd: nat)
    requires Inv(s) && Enabled(s, Frame(fd))
    ensures Inv(After(s, Frame(fd)))
  {
    hide GenOk, WorkerOk, AllKnown;
    var s', n, w := After(s, Frame(fd)), s.conns[fd], fd % |s.workers|;
    var t := Item(fd, n, s.read[n]);
    assert WorkerOk(s, w);
    WorkerGrows(s, s', w, t);
    WorkersKept(s, s', w);
    KnownStill(s, s');
    forall g | g in s'.fdOf ensures GenOk(s', g) {
      GenFacts(s, g);
      FrameGen(s, s', fd, g);
    }
  }

  lemma WorkerGrows(s: State, s': State, w: nat, t: Item)
    requires |s.workers| > 0 && w < |s.workers| == |s'.workers| && WorkerOk(s, w) && s'.fdOf == s.fdOf
    requires Known(s, t) && t.fd % |s.workers| == w
    requires s'.workers[w] == s.workers[w].(jobs := s.workers[w].jobs + [t])
    ensures WorkerOk(s', w)
  {
    Assoc(Running(s.workers[w]), s.workers[w].jobs, [t]);
    KnownOneMore(s, Running(s.workers[w]) + s.workers[w].jobs, t);
  }

  lemma FramePipeline(s: State, s': State, fd: nat, g: nat)
    requires Enabled(s, Frame(fd)) && s' == After(s, Frame(fd)) && s.conns[fd] in s.fdOf && s.fdOf[s.conns[fd]] == fd
    requires g in s.fdOf && g in s.read
    ensures var v := s.fdOf[g] % |s.workers|;
      Pipeline(s', g, v) == if g == s.conns[fd] then Pipeline(s, g, v) + [s.read[g]] else Pipeline(s, g, v)
  {
    hide Select;
    var n, w := s.conns[fd], fd % |s.workers|;
    var v, t := s.fdOf[g] % |s.workers|, Item(fd, n, s.read[n]);
    if v == w {
      var items := Queued(s, g) + s.local + s.outq + Running(s.workers[v]);
      Assoc(items, s.workers[v].jobs, [t]);
      SelectAppend(items + s.workers[v].jobs, [t], g);
      SelectOne(t, g);
      assert Pipeline(s, g, v) + [] == Pipeline(s, g, v);
    }
  }

  lemma FrameGen(s: State, s': State, fd: nat, g: nat)
    requires Enabled(s, Frame(fd)) && s' == After(s, Frame(fd)) && s.conns[fd] in s.fdOf && s.fdOf[s.conns[fd]] == fd
    requires g in s.fdOf && g in s.read && GenOk(s, g)
    ensures GenOk(s', g)
  {
    hide Pipeline, Increasing, Below;
    var v := s.fdOf[g] % |s.workers|;
    FramePipeline(s, s', fd, g);
    OneMore(Pipeline(s, g, v), s.read[g]);
    assert |s'.workers| == |s.workers| && Queued(s', g) == Queued(s, g);
    assert Increasing(Pipeline(s', g, v)) && Below(Pipeline(s', g, v), s'.read[g]);
  }

  lemma SelectOne(t: Item, g: nat)
    ensures Select([t], g) == if t.gen == g then [t.index] else []
  {
    assert [t][1..] == [];
  }

  lemma SwapKeeps(s: State)
    requires Inv(s) && Enabled(s, Swap)
    ensures Inv(After(s, Swap))
  {
    hide GenOk, WorkerOk, AllKnown;
    var s' := After(s, Swap);
    forall v | 0 <= v < |s'.workers| ensures WorkerOk(s', v) {
      assert WorkerOk(s, v);
      WorkerElsewhere(s, s', v);
    }
    KnownStill(s, s');
    NothingKnown(s');
    forall g | g in s'.fdOf ensures GenOk(s', g) {
      GenFacts(s, g);
      var q := Queued(s, g);
      assert q + [] + s.outq == q + s.outq + [];
      SwapPipeline(s, s', g);
      SamePipeline(s, s', g);
    }
  }

  lemma NothingKnown(s: State)
    ensures AllKnown(s, [])
  {
  }

  lemma SwapPipeline(s: State, s': State, g: nat)
    requires Enabled(s, Swap) && s' == After(s, Swap) && g in s.fdOf && |s.workers| > 0
    ensures var v := s.fdOf[g] % |s.workers|; Pipeline(s', g, v) == Pipeline(s, g, v)
  {
    hide Select;
    var q := Queued(s, g);
    assert q + [] + s.outq == q + s.outq + [];
  }

  lemma CloseKeeps(s: State, fd: nat)
    requires Inv(s) && Enabled(s, Close(fd))
    ensures Inv(After(s, Close(fd)))
  {
    hide GenOk, WorkerOk, AllKnown;
    OnlyConns(s, s.conns - {fd});
  }

  lemma OnlyConns(s: State, conns: map<nat, nat>)
    requires Inv(s) && forall fd :: fd in conns ==> fd in s.conns && conns[fd] == s.conns[fd]
    ensures Inv(s.(conns := conns))
  {
    hide GenOk, WorkerOk, AllKnown;
    var s' := s.(conns := conns);
    forall v | 0 <= v < |s'.workers| ensures WorkerOk(s', v) {
      assert WorkerOk(s, v);
      WorkerElsewhere(s, s', v);
    }
    KnownStill(s, s');
    forall g | g in s'.fdOf ensures GenOk(s', g) {
      GenFacts(s, g);
      OldGen(s, s', g);
    }
  }

  /** The head of the local queue leaves the pipeline, or joins the connection's output queue. */
  lemma ApplyKeeps(s: State, fate: Fate)
    requires Inv(s) && Enabled(s, Apply(fate))
    ensures Inv(After(s, Apply(fate)))
  {
    hide GenOk, WorkerOk, AllKnown;
    var s1, t := After(s, Apply(fate)).(conns := s.conns), s.local[0];
    forall v | 0 <= v < |s1.workers| ensures WorkerOk(s1, v) {
      assert WorkerOk(s, v);
      WorkerElsewhere(s, s1, v);
    }
    KnownStill(s, s1);
    KnownTail(s1, s.local);
    HeadKnown(s, s.local);
    forall g | g in s1.fdOf ensures GenOk(s1, g) {
      GenFacts(s, g);
      if s1.queued == s.queued { HeadDropped(s, s1, g); } else { HeadQueued(s, s1, g); }
    }
    OnlyConns(s1, After(s, Apply(fate)).conns);
  }

  lemma KnownTail(s: State, items: seq<Item>)
    requires AllKnown(s, items) && items != []
    ensures AllKnown(s, items[1..])
  {
    forall i | 0 <= i < |items| - 1 ensures Known(s, items[1..][i]) {
      assert Known(s, items[i + 1]);
    }
  }

  lemma HeadKnown(s: State, items: seq<Item>)
    requires AllKnown(s, items) && items != []
    ensures Known(s, items[0])
  {
  }

  lemma HeadDropped(s: State, s': State, g: nat)
    requires |s.workers| > 0 && s.local != [] && s' == s.(local := s.local[1..])
    requires g in s.fdOf && g in s.read && GenOk(s, g)
    ensures GenOk(s', g)
  {
    hide Select;
    var v, t := s.fdOf[g] % |s.workers|, s.local[0];
    PipelineIs(s, g, v);
    PipelineIs(s', g, v);
    assert s.local == [t] + s.local[1..];
    SelectAppend([t], s.local[1..], g);
    var q, l, o, r, j := Select(Queued(s, g), g), Select(s.local[1..], g), Select(s.outq, g),
                         Select(Running(s.workers[v]), g), Select(s.workers[v].jobs, g);
    assert q + (Select([t], g) + l) + o + r + j == q + Select([t], g) + (l + o + r + j);
    assert q + l + o + r + j == q + (l + o + r + j);
    Without(q, Select([t], g), l + o + r + j, s.read[g]);
  }

  lemma HeadQueued(s: State, s': State, g: nat)
    requires |s.workers| > 0 && s.local != [] && g in s.fdOf && g in s.read && GenOk(s, g)
    requires var t := s.local[0]; s' == s.(local := s.local[1..], queued := s.queued[t.gen := Queued(s, t.gen) + [t]])
    ensures GenOk(s', g)
  {
    hide Select;
    var v, t := s.fdOf[g] % |s.workers|, s.local[0];
    assert s.local == [t] + s.local[1..];
    if t.gen == g {
      Assoc(Queued(s, g), [t], s.local[1..]);
      assert Pipeline(s', g, v) == Pipeline(s, g, v);
      SamePipeline(s, s', g);
    } else {
      PipelineIs(s, g, v);
      PipelineIs(s', g, v);
      SelectAppend([t], s.local[1..], g);
      SelectOne(t, g);
      SamePipeline(s, s', g);
    }
  }

  // ---------- runs ----------

  lemma StepKeeps(s: State, e: Event)
    requires Inv(s) && Enabled(s, e)
    ensures Inv(After(s, e))
  {
    hide Inv;
    match e
    case Accept(fd) => AcceptKeeps(s, fd);
    case Frame(fd) => FrameKeeps(s, fd);
    case Take(w) => TakeKeeps(s, w);
    case Reply(w) => ReplyKeeps(s, w);
    case NoReply(w) => NoReplyKeeps(s, w);
    case Swap => SwapKeeps(s);
    case Apply(fate) => ApplyKeeps(s, fate);
    case Close(fd) => CloseKeeps(s, fd);
  }

  lemma StartOk(workers: nat)
    requires workers > 0
    ensures Inv(Start(workers))
  {
  }

  lemma {:induction false} RunsKeep(workers: nat, events: seq<Event>)
    requires workers > 0
    ensures Inv(Reached(workers, events))
  {
    hide Inv, After, Enabled;
    if events == [] {
      StartOk(workers);
    } else {
      var s, e := Reached(workers, events[..|events| - 1]), events[|events| - 1];
      RunsKeep(workers, events[..|events| - 1]);
      if Enabled(s, e) { StepKeeps(s, e); }
    }
  }

  /** Whatever the I/O thread and the workers do in between, the replies in a connection's output queue are replies
      to frames of that very connection, in the order of the frames, each at most once. */
  lemma RepliesInOrder(workers: nat, events: seq<Event>, g: nat, i: nat, j: nat)
    requires workers > 0 && i < j < |Queued(Reached(workers, events), g)|
    ensures var q := Queued(Reached(workers, events), g);
      q[i].gen == q[j].gen == g && q[i].index < q[j].index
  {
    hide Reached, AllKnown, WorkerOk;
    RunsKeep(workers, events);
    var s := Reached(workers, events);
    assert g in s.fdOf && GenOk(s, g);
    QueueInOrder(s, g, i, j);
  }

  lemma {:induction false} SelectAll(items: seq<Item>, g: nat)
    requires forall i {:trigger items[i]} :: 0 <= i < |items| ==> items[i].gen == g
    ensures |Select(items, g)| == |items| && forall i :: 0 <= i < |items| ==> Select(items, g)[i] == items[i].index
  {
    if items != [] {
      assert forall i :: 0 <= i < |items| - 1 ==> items[1..][i] == items[i + 1];
      SelectAll(items[1..], g);
      assert items[0].gen == g;
    }
  }

  lemma QueueInOrder(s: State, g: nat, i: nat, j: nat)
    requires |s.workers| > 0 && g in s.fdOf && g in s.read && GenOk(s, g) && i < j < |Queued(s, g)|
    ensures Queued(s, g)[i].gen == Queued(s, g)[j].gen == g && Queued(s, g)[i].index < Queued(s, g)[j].index
  {
    hide Select;
    var v, q := s.fdOf[g] % |s.workers|, Queued(s, g);
    PipelineIs(s, g, v);
    SelectAll(q, g);
    var p := Pipeline(s, g, v);
    assert p[i] == Select(q, g)[i] && p[j] == Select(q, g)[j];
  }

  lemma QueueOrder(s: State, g: nat)
    requires Inv(s)
    ensures var q := Queued(s, g);
      (forall i :: 0 <= i < |q| ==> q[i].gen == g) && (forall i, j :: 0 <= i < j < |q| ==> q[i].index < q[j].index)
  {
    hide WorkerOk, AllKnown, Pipeline;
    if g in s.queued {
      GenFacts(s, g);
      var q := Queued(s, g);
      forall i, j | 0 <= i < j < |q| ensures q[i].index < q[j].index {
        QueueInOrder(s, g, i, j);
      }
    }
  }

  // ---------- nothing is left out ----------

  function Upto(n: nat): seq<nat> { seq(n, i requires 0 <= i < n => i) }

  predicate Lives(s: State, g: nat) { g in s.fdOf && s.fdOf[g] in s.conns && s.conns[s.fdOf[g]] == g }

  ghost predicate Complete(s: State, g: nat)
    requires |s.workers| > 0 && g in s.fdOf && g in s.read
  {
    Pipeline(s, g, s.fdOf[g] % |s.workers|) == Upto(s.read[g])
  }

  lemma UptoNext(n: nat)
    ensures Upto(n + 1) == Upto(n) + [n] && Upto(0) == []
  {
  }

  lemma HeadPipeline(s: State, s': State, g: nat)
    requires |s.workers| > 0 && s.local != [] && g in s.fdOf && s'.workers == s.workers && s'.outq == s.outq
    requires s'.local == s.local[1..]
    requires if s.local[0].gen == g then Queued(s', g) == Queued(s, g) + [s.local[0]] else Queued(s', g) == Queued(s, g)
    ensures var v := s.fdOf[g] % |s.workers|; Pipeline(s', g, v) == Pipeline(s, g, v)
  {
    hide Select, Queued;
    var v, t := s.fdOf[g] % |s.workers|, s.local[0];
    assert s.local == [t] + s.local[1..];
    if t.gen == g {
      Assoc(Queued(s, g), [t], s.local[1..]);
    } else {
      PipelineIs(s, g, v);
      PipelineIs(s', g, v);
      SelectAppend([t], s.local[1..], g);
      SelectOne(t, g);
    }
  }

  lemma FirstBelow(p: seq<nat>, n: nat)
    requires Below(p, n)
    ensures p == [] || 0 <= p[0] < n
  {
  }

  lemma NewGenPipeline(s: State, fd: nat)
    requires Inv(s) && Enabled(s, Accept(fd))
    ensures Complete(After(s, Accept(fd)), s.lastGen + 1)
  {
    hide WorkerOk, AllKnown, Pipeline, Select, Increasing;
    var s', n := After(s, Accept(fd)), s.lastGen + 1;
    AcceptKeeps(s, fd);
    assert GenOk(s', n);
    UptoNext(0);
    var p := Pipeline(s', n, fd % |s.workers|);
    assert Below(p, 0);
    FirstBelow(p, 0);
  }

  lemma StepCompletes(s: State, e: Event, g: nat)
    requires Inv(s) && Enabled(s, e) && !e.NoReply?
    requires g in s.fdOf ==> Lives(s, g) && Complete(s, g)
    requires Lives(After(s, e), g)
    ensures Inv(After(s, e)) && Complete(After(s, e), g)
  {
    hide WorkerOk, AllKnown, GenOk, Pipeline, Select;
    var s' := After(s, e);
    StepKeeps(s, e);
    match e
    case Accept(fd) => if g !in s.fdOf { NewGenPipeline(s, fd); } else { OldPipeline(s, s', g); }
    case Frame(fd) =>
      UptoNext(s.read[g]);
      FramePipeline(s, s', fd, g);
    case Take(w) => TakePipeline(s, s', w, g);
    case Reply(w) => ReplyPipeline(s, s', w, g);
    case Swap => SwapPipeline(s, s', g);
    case Apply(fate) =>
      LocalKnown(s);
      HeadPipeline(s, s', g);
    case Close(fd) => OldPipeline(s, s', g);
  }

  lemma LocalKnown(s: State)
    requires Inv(s) && s.local != []
    ensures Known(s, s.local[0])
  {
    hide WorkerOk, GenOk;
  }

  lemma OldPipeline(s: State, s': State, g: nat)
    requires |s.workers| > 0 && g in s.fdOf && g in s'.fdOf && s'.fdOf[g] == s.fdOf[g]
    requires s'.workers == s.workers && s'.local == s.local && s'.outq == s.outq && s'.queued == s.queued
    ensures var v := s.fdOf[g] % |s.workers|; Pipeline(s', g, v) == Pipeline(s, g, v)
  {
    hide Select;
  }

  /** A connection that lives now has lived since it was accepted. */
  lemma LivedBefore(s: State, e: Event, g: nat)
    requires Inv(s) && Enabled(s, e) && Lives(After(s, e), g) && g in s.fdOf
    ensures Lives(s, g)
  {
    hide WorkerOk, AllKnown, GenOk;
  }

  ghost predicate AlwaysReplies(events: seq<Event>) { forall i :: 0 <= i < |events| ==> !events[i].NoReply? }

  /** When every request is answered, a live connection misses no reply: the frames read from it are, in order,
      those whose replies are queued, waiting, being made or still to be made. */
  lemma {:induction false} NoReplyIsMissing(workers: nat, events: seq<Event>, g: nat)
    requires workers > 0 && AlwaysReplies(events) && Lives(Reached(workers, events), g)
    ensures Inv(Reached(workers, events)) && Complete(Reached(workers, events), g)
  {
    hide Inv, After, Enabled, Complete, Lives;
    RunsKeep(workers, events);
    if events == [] {
      NobodyLives(workers, g);
    } else {
      var before, e := events[..|events| - 1], events[|events| - 1];
      var s := Reached(workers, before);
      assert AlwaysReplies(before) && !events[|events| - 1].NoReply?;
      RunsKeep(workers, before);
      if Enabled(s, e) {
        if g in s.fdOf {
          LivedBefore(s, e, g);
          NoReplyIsMissing(workers, before, g);
        }
        StepCompletes(s, e, g);
      } else {
        NoReplyIsMissing(workers, before, g);
      }
    }
  }

  /** Then reply number `i` in the queue answers frame number `i`. */
  lemma QueueNumbers(s: State, g: nat)
    requires Inv(s) && Lives(s, g) && Complete(s, g)
    ensures g in s.read && |Queued(s, g)| <= s.read[g]
    ensures forall i :: 0 <= i < |Queued(s, g)| ==> Queued(s, g)[i].index == i
  {
    hide Select, WorkerOk, AllKnown;
    GenFacts(s, g);
    var v, q := s.fdOf[g] % |s.workers|, Queued(s, g);
    PipelineIs(s, g, v);
    SelectAll(q, g);
    var p := Pipeline(s, g, v);
    assert |p| >= |Select(q, g)|;
    forall i | 0 <= i < |q| ensures q[i].index == i {
      assert p[i] == Select(q, g)[i];
    }
  }

  lemma NobodyLives(workers: nat, g: nat)
    ensures !Lives(Start(workers), g)
  {
  }

  /** A descriptor that is reused belongs to a new generation: no reply queued for the old one is applied to it. */
  lemma NoCrossTalk(workers: nat, events: seq<Event>, fate: Fate)
    requires workers > 0 && Enabled(Reached(workers, events), Apply(fate))
    ensures var s := Reached(workers, events);
      var s', t := After(s, Apply(fate)), s.local[0];
      forall fd :: fd in s.conns && Queued(s', s.conns[fd]) != Queued(s, s.conns[fd]) ==>
        t.fd == fd && t.gen == s.conns[fd] && Queued(s', s.conns[fd]) == Queued(s, s.conns[fd]) + [t]
  {
    hide Reached, AllKnown, WorkerOk, GenOk;
    RunsKeep(workers, events);
    var s := Reached(workers, events);
    forall fd | fd in s.conns ensures s.conns[fd] in s.fdOf && s.fdOf[s.conns[fd]] == fd {
    }
  }
}
