/** The output side of one reactor connection: shared frames, partial writes and EPOLLOUT. */
module ReactorOut {
  import opened Bytes
  import opened Collections
  import opened Frame
  import SendQueue

  const MAX_OUT: nat := 0x80_0000

  /** A frame and how much of it is written. */
  datatype Seg = Seg(data: bytes, off: nat)

  function Rest(s: Seg): bytes { if s.off <= |s.data| then s.data[s.off..] else [] }

  /** `sent` is what the socket took and `frames` every frame that joined the queue. */
  datatype Out = Out(segs: seq<Seg>, outBytes: int, armed: bool, sent: bytes, frames: seq<bytes>)

  const EMPTY := Out([], 0, false, [], [])

  function Unsent(segs: seq<Seg>): bytes {
    if segs == [] then []
    else Rest(segs[0]) + Unsent(segs[1..])
  }

  function Flat(frames: seq<bytes>): bytes { if frames == [] then [] else frames[0] + Flat(frames[1..]) }

  // ---------- steps ----------

  function Wrote(o: Out, n: nat): Out
    requires o.segs != [] && o.segs[0].off + n <= |o.segs[0].data|
  {
    var s := o.segs[0];
    var off := s.off + n;
    Out(if off == |s.data| then o.segs[1..] else o.segs[0 := Seg(s.data, off)], o.outBytes - n, o.armed,
        o.sent + s.data[s.off..off], o.frames)
  }

  /** `flushConn` against the answers of the socket; when they run out it takes nothing more. */
  function Flush(o: Out, io: seq<SendQueue.Answer>): (Out, bool)
    decreases |io|
  {
    if o.segs == [] || io == [] then (o, true)
    else
      var n := Min(io[0].n, |o.segs[0].data| - o.segs[0].off);
      if n > 0 then Flush(Wrote(o, n), io[1..])
      else if io[0].n < 0 && io[0].errno == SendQueue.EAGAIN then (o, true)
      else if io[0].n < 0 && io[0].errno == SendQueue.EINTR then Flush(o, io[1..])
      else (o, false)
  }

  /** Everything queued was written or waits, the byte count is exact and bounded, and every segment has bytes left. */
  ghost predicate Exact(o: Out) {
    && o.sent + Unsent(o.segs) == Flat(o.frames)
    && o.outBytes == |Unsent(o.segs)|
    && (forall i :: 0 <= i < |o.segs| ==> o.segs[i].off < |o.segs[i].data|)
  }

  /** What holds of a live connection between two handlers. */
  ghost predicate Settled(o: Out) { Exact(o) && o.outBytes <= MAX_OUT && (o.segs != [] ==> o.armed) }

  /** What the connection has put out, and whether it goes on. */
  datatype Result = Live(out: Out) | Dead(out: Out)

  /** A frame at the end of the queue. */
  function Joined(o: Out, frame: bytes): Out {
    o.(segs := o.segs + [Seg(frame, 0)], outBytes := o.outBytes + |frame|, frames := o.frames + [frame])
  }

  /** `applyOutput` for one connection. */
  function ApplyFrame(o: Out, frame: bytes, io: seq<SendQueue.Answer>): Result {
    if o.outBytes + |frame| > MAX_OUT then Dead(o)
    else
      var (p, ok) := Flush(Joined(o, frame), io);
      if !ok then Dead(p) else Live(p.(armed := p.armed || p.segs != []))
  }

  /** The EPOLLOUT branch of the I/O loop. */
  function Writable(o: Out, io: seq<SendQueue.Answer>): Result {
    var (p, ok) := Flush(o, io);
    if !ok then Dead(p) else Live(p.(armed := p.armed && p.segs != []))
  }

  // ---------- what they keep ----------

  lemma {:induction false} FlatAppend(frames: seq<bytes>, f: bytes)
    ensures Flat(frames + [f]) == Flat(frames) + f
  {
    if frames == [] {
      assert [] + [f] == [f] && [f][1..] == [];
      assert Flat([f]) == f + Flat([]);
    } else {
      assert (frames + [f])[1..] == frames[1..] + [f];
      FlatAppend(frames[1..], f);
      Assoc(frames[0], Flat(frames[1..]), f);
    }
  }

  lemma {:induction false} UnsentAppend(segs: seq<Seg>, f: bytes)
    ensures Unsent(segs + [Seg(f, 0)]) == Unsent(segs) + f
  {
    var t := Seg(f, 0);
    if segs == [] {
      assert [] + [t] == [t] && [t][1..] == [];
      assert Unsent([t]) == f[0..] + Unsent([]);
    } else {
      assert (segs + [t])[1..] == segs[1..] + [t];
      UnsentAppend(segs[1..], f);
      Assoc(Rest(segs[0]), Unsent(segs[1..]), f);
    }
  }

  lemma WroteUnsent(o: Out, n: nat)
    requires o.segs != [] && o.segs[0].off + n <= |o.segs[0].data|
    ensures var s := o.segs[0]; s.data[s.off..s.off + n] + Unsent(Wrote(o, n).segs) == Unsent(o.segs)
  {
    hide Unsent;
    var s := o.segs[0];
    var off, rest := s.off + n, Unsent(o.segs[1..]);
    UnsentHead(o.segs);
    Cut(s.data, s.off, off);
    Assoc(s.data[s.off..off], s.data[off..], rest);
    if off == |s.data| {
      assert [] + rest == rest;
    } else {
      UnsentHead(o.segs[0 := Seg(s.data, off)]);
      assert o.segs[0 := Seg(s.data, off)][1..] == o.segs[1..];
    }
  }

  lemma UnsentHead(segs: seq<Seg>)
    requires segs != [] && segs[0].off <= |segs[0].data|
    ensures Unsent(segs) == segs[0].data[segs[0].off..] + Unsent(segs[1..])
  {
  }

  lemma Cut(data: bytes, i: nat, j: nat)
    requires i <= j <= |data|
    ensures data[i..] == data[i..j] + data[j..] && (j == |data| ==> data[j..] == [])
  {
  }

  lemma WroteExact(o: Out, n: nat)
    requires Exact(o) && o.segs != [] && 0 < n <= |o.segs[0].data| - o.segs[0].off
    ensures Exact(Wrote(o, n)) && o.sent <= Wrote(o, n).sent
  {
    hide Unsent, Flat;
    var s := o.segs[0];
    WroteUnsent(o, n);
    Assoc(o.sent, s.data[s.off..s.off + n], Unsent(Wrote(o, n).segs));
  }

  lemma {:induction false} FlushExact(o: Out, io: seq<SendQueue.Answer>)
    requires Exact(o)
    ensures var p := Flush(o, io).0;
      Exact(p) && p.frames == o.frames && p.armed == o.armed && p.outBytes <= o.outBytes && o.sent <= p.sent
      && (o.segs == [] ==> p.segs == [])
    decreases |io|
  {
    hide Unsent, Flat;
    if o.segs != [] && io != [] {
      var n := Min(io[0].n, |o.segs[0].data| - o.segs[0].off);
      if n > 0 {
        WroteExact(o, n);
        FlushExact(Wrote(o, n), io[1..]);
      } else {
        FlushExact(o, io[1..]);
      }
    }
  }

  lemma JoinedExact(o: Out, frame: bytes)
    requires Exact(o) && frame != []
    ensures Exact(Joined(o, frame))
  {
    hide Unsent, Flat;
    FlatAppend(o.frames, frame);
    UnsentAppend(o.segs, frame);
    Assoc(o.sent, Unsent(o.segs), frame);
  }

  /** A connection that a handler ends has an exact record too: the frame was refused, or joined the queue before
      the socket failed. */
  lemma HandlersAreExact(o: Out, frame: bytes, io: seq<SendQueue.Answer>)
    requires Exact(o) && frame != []
    ensures var r := ApplyFrame(o, frame, io);
      Exact(r.out) && r.out.frames == if o.outBytes + |frame| > MAX_OUT then o.frames else o.frames + [frame]
    ensures var r := Writable(o, io); Exact(r.out) && r.out.frames == o.frames
  {
    hide Unsent, Flat, Flush;
    JoinedExact(o, frame);
    FlushExact(Joined(o, frame), io);
    FlushExact(o, io);
  }

  /** After either handler a live connection has an exact count, is within its bound, and waits for EPOLLOUT
      whenever bytes are left. */
  lemma ApplySettles(o: Out, frame: bytes, io: seq<SendQueue.Answer>)
    requires Settled(o) && frame != []
    ensures var r := ApplyFrame(o, frame, io); r.Live? ==> Settled(r.out) && r.out.frames == o.frames + [frame]
  {
    hide Unsent, Flat, Flush;
    JoinedExact(o, frame);
    FlushExact(Joined(o, frame), io);
  }

  lemma WritableSettles(o: Out, io: seq<SendQueue.Answer>)
    requires Settled(o)
    ensures var r := Writable(o, io);
      r.Live? ==> Settled(r.out) && r.out.frames == o.frames && (r.out.armed ==> r.out.segs != [])
  {
    hide Unsent, Flat, Flush;
    FlushExact(o, io);
  }

  // ---------- when a connection ends ----------

  /** An answer that is neither progress nor a signal nor a full kernel buffer. */
  predicate Hard(a: SendQueue.Answer) {
    a.n == 0 || (a.n < 0 && a.errno != SendQueue.EAGAIN && a.errno != SendQueue.EINTR)
  }

  /** The socket goes on asking for the next write after this answer. */
  predicate Goes(a: SendQueue.Answer) { a.n > 0 || (a.n < 0 && a.errno == SendQueue.EINTR) }

  /** Answer `k` is the first that stops the writes, it is a hard error, and bytes are left by then. */
  ghost predicate HardAt(o: Out, io: seq<SendQueue.Answer>, k: nat) {
    && k < |io| && Hard(io[k]) && (forall i :: 0 <= i < k ==> Goes(io[i]))
    && Flush(o, io[..k]).0.segs != []
  }

  /** `flushConn` fails exactly on a hard error while bytes are left. */
  lemma {:induction false} FlushFailsExactly(o: Out, io: seq<SendQueue.Answer>)
    requires Exact(o)
    ensures !Flush(o, io).1 <==> exists k :: HardAt(o, io, k)
    decreases |io|
  {
    hide Unsent, Flat, HardAt;
    if o.segs == [] || io == [] {
      forall k: nat ensures !HardAt(o, io, k) {
        NothingHard(o, io, k);
      }
    } else {
      var n := Min(io[0].n, |o.segs[0].data| - o.segs[0].off);
      FirstHard(o, io);
      if Goes(io[0]) {
        var p := if n > 0 then Wrote(o, n) else o;
        if n > 0 { WroteExact(o, n); }
        FlushFailsExactly(p, io[1..]);
        forall k: nat ensures HardAt(o, io, k + 1) <==> HardAt(p, io[1..], k) {
          if k + 1 < |io| { HardLater(o, io, k + 1); }
          InRange(o, io, k + 1);
          InRange(p, io[1..], k);
        }
        if k: nat :| HardAt(o, io, k) { assert k > 0 && HardAt(p, io[1..], k - 1); }
        if k: nat :| HardAt(p, io[1..], k) { assert HardAt(o, io, k + 1); }
      } else {
        forall k: nat ensures HardAt(o, io, k) ==> k == 0 {
          OnlyFirst(o, io, k);
        }
      }
    }
  }

  lemma InRange(o: Out, io: seq<SendQueue.Answer>, k: nat)
    ensures HardAt(o, io, k) ==> k < |io|
  {
  }

  lemma NothingHard(o: Out, io: seq<SendQueue.Answer>, k: nat)
    requires o.segs == [] || io == []
    ensures !HardAt(o, io, k)
  {
  }

  lemma FirstHard(o: Out, io: seq<SendQueue.Answer>)
    requires o.segs != [] && io != []
    ensures HardAt(o, io, 0) <==> Hard(io[0])
  {
    assert io[..0] == [];
  }

  lemma OnlyFirst(o: Out, io: seq<SendQueue.Answer>, k: nat)
    requires io != [] && !Goes(io[0])
    ensures HardAt(o, io, k) ==> k == 0
  {
  }

  lemma HardLater(o: Out, io: seq<SendQueue.Answer>, k: nat)
    requires Exact(o) && o.segs != [] && 0 < k < |io| && Goes(io[0])
    ensures var n := Min(io[0].n, |o.segs[0].data| - o.segs[0].off);
      HardAt(o, io, k) <==> HardAt(if n > 0 then Wrote(o, n) else o, io[1..], k - 1)
  {
    assert io[..k][0] == io[0] && io[..k][1..] == io[1..][..k - 1];
    assert forall i :: 1 <= i < k ==> io[i] == io[1..][i - 1];
    assert forall i :: 0 <= i < k - 1 ==> io[1..][i] == io[i + 1];
  }

  /** Either handler ends the connection exactly when the frame takes the unsent bytes over 8 MiB, or the socket gives a
      hard error before the queue is empty. Short writes, signals and a full kernel buffer never do. */
  lemma EndsExactly(o: Out, frame: bytes, io: seq<SendQueue.Answer>)
    requires Settled(o) && frame != []
    ensures ApplyFrame(o, frame, io).Dead? <==>
      |Unsent(o.segs)| + |frame| > 8 * 1024 * 1024 || exists k :: HardAt(Joined(o, frame), io, k)
    ensures Writable(o, io).Dead? <==> exists k :: HardAt(o, io, k)
  {
    hide Unsent, Flat, Flush, HardAt;
    JoinedExact(o, frame);
    FlushFailsExactly(Joined(o, frame), io);
    FlushFailsExactly(o, io);
  }

  /** A socket that takes bytes whenever it is asked gets at least one more with every answer, until nothing is left. */
  lemma {:induction false} FlushGoesOn(o: Out, io: seq<SendQueue.Answer>)
    requires Exact(o) && forall i :: 0 <= i < |io| ==> io[i].n > 0
    ensures Flush(o, io).1 && (Flush(o, io).0.segs == [] || Flush(o, io).0.outBytes + |io| <= o.outBytes)
    decreases |io|
  {
    hide Unsent, Flat;
    if o.segs != [] && io != [] {
      var n := Min(io[0].n, |o.segs[0].data| - o.segs[0].off);
      assert n > 0;
      WroteExact(o, n);
      FlushGoesOn(Wrote(o, n), io[1..]);
    }
  }

  datatype Handler = Apply(body: bytes, io: seq<SendQueue.Answer>) | Ready(io: seq<SendQueue.Answer>)

  function Handled(o: Out, h: Handler): Result
  {
    match h
    case Apply(body, io) => ApplyFrame(o, Wire(body), io)
    case Ready(io) => Writable(o, io)
  }

  /** The output of a connection after these handlers, as long as it lives. */
  ghost function RunOut(handlers: seq<Handler>): (r: Result)
    ensures r.Live? ==> Settled(r.out)
  {
    if handlers == [] then Live(EMPTY)
    else
      var r := RunOut(handlers[..|handlers| - 1]);
      if r.Dead? then r
      else
        var h := handlers[|handlers| - 1];
        HandlerSettles(r.out, h);
        Handled(r.out, h)
  }

  lemma HandlerSettles(o: Out, h: Handler)
    requires Settled(o)
    ensures Handled(o, h).Live? ==> Settled(Handled(o, h).out)
  {
    hide ApplyFrame, Writable, Wire;
    match h
    case Apply(body, io) => ApplySettles(o, Wire(body), io);
    case Ready(io) => WritableSettles(o, io);
  }

  /** The bodies that were applied. */
  function Bodies(handlers: seq<Handler>): seq<bytes> {
    if handlers == [] then []
    else
      var h := handlers[|handlers| - 1];
      Bodies(handlers[..|handlers| - 1]) + if h.Apply? then [h.body] else []
  }

  function Wires(bodies: seq<bytes>): seq<bytes> {
    if bodies == [] then [] else Wires(bodies[..|bodies| - 1]) + [Wire(bodies[|bodies| - 1])]
  }

  lemma {:induction false} FramesApplied(handlers: seq<Handler>)
    requires RunOut(handlers).Live?
    ensures RunOut(handlers).out.frames == Wires(Bodies(handlers))
  {
    hide ApplyFrame, Writable, Wire, Settled;
    if handlers != [] {
      var before, h := handlers[..|handlers| - 1], handlers[|handlers| - 1];
      FramesApplied(before);
      var o := RunOut(before).out;
      HandlerFrames(o, h);
      if h.Apply? {
        var bs := Bodies(before) + [h.body];
        assert bs[..|bs| - 1] == Bodies(before);
      } else {
        assert Bodies(before) + [] == Bodies(before);
      }
    }
  }

  lemma HandlerFrames(o: Out, h: Handler)
    requires Settled(o)
    ensures Handled(o, h).Live? ==> Handled(o, h).out.frames == if h.Apply? then o.frames + [Wire(h.body)] else o.frames
  {
    hide ApplyFrame, Writable, Wire;
    match h
    case Apply(body, io) => ApplySettles(o, Wire(body), io);
    case Ready(io) => WritableSettles(o, io);
  }

  lemma {:induction false} WiresFlat(bodies: seq<bytes>)
    ensures Flat(Wires(bodies)) == WireAll(bodies)
  {
    hide Wire;
    if bodies != [] {
      var n := |bodies| - 1;
      WiresFlat(bodies[..n]);
      FlatAppend(Wires(bodies[..n]), Wire(bodies[n]));
      SendQueue.WireAllAppend(bodies[..n], bodies[n]);
      assert bodies[..n] + [bodies[n]] == bodies;
    }
  }

  /** End to end: a reader that was given any part of what the socket took returns, in order, a prefix of the bodies
      that were applied, as long as each fits into a frame; all of them once everything is written and read. */
  lemma ReplyStream(handlers: seq<Handler>, calls: seq<Call>, unread: bytes)
    requires RunOut(handlers).Live? && AllFit(Bodies(handlers), MAX_FRAME)
    requires Run(calls, MAX_FRAME).fed + unread == RunOut(handlers).out.sent
    ensures Run(calls, MAX_FRAME).out <= Bodies(handlers) && !Run(calls, MAX_FRAME).failed
    ensures unread == [] && RunOut(handlers).out.segs == [] && Drained(Run(calls, MAX_FRAME), MAX_FRAME) ==>
      Run(calls, MAX_FRAME).out == Bodies(handlers)
  {
    hide AllFit, RunOut, Run, Bodies, Wires, Flat, WireAll, Drained;
    var o := RunOut(handlers).out;
    assert Settled(o);
    FramesApplied(handlers);
    WiresFlat(Bodies(handlers));
    Assoc(Run(calls, MAX_FRAME).fed, unread, Unsent(o.segs));
    ReaderSeesPrefix(calls, Bodies(handlers), unread + Unsent(o.segs), MAX_FRAME);
  }

  // ---------- the code ----------

  /** One round of `flushConn`. */
  lemma FlushNext(o: Out, io: seq<SendQueue.Answer>, k: nat)
    requires o.segs != [] && k < |io|
    ensures var n, rest := Min(io[k].n, |o.segs[0].data| - o.segs[0].off), io[k + 1..];
      Flush(o, io[k..]) ==
        if n > 0 then Flush(Wrote(o, n), rest)
        else if io[k].n < 0 && io[k].errno == SendQueue.EAGAIN then (o, true)
        else if io[k].n < 0 && io[k].errno == SendQueue.EINTR then Flush(o, rest)
        else (o, false)
  {
    assert io[k..][0] == io[k] && io[k..][1..] == io[k + 1..];
  }

  lemma FlushEnds(o: Out, io: seq<SendQueue.Answer>)
    ensures o.segs == [] || io == [] ==> Flush(o, io) == (o, true)
  {
  }

  class Connection {
    var segs: seq<Seg>
    var outBytes: int
    var armed: bool
    ghost var sent: bytes
    ghost var frames: seq<bytes>

    ghost function Value(): Out
      reads this
    {
      Out(segs, outBytes, armed, sent, frames)
    }

    constructor ()
      ensures Value() == EMPTY
    {
      segs, outBytes, armed, sent, frames := [], 0, false, [], [];
    }

    /** The bytes that one write took. */
    method Advance(n: nat)
      requires segs != [] && segs[0].off + n <= |segs[0].data|
      modifies this
      ensures Value() == Wrote(old(Value()), n)
    {
      var s := segs[0];
      var off := s.off + n;
      sent := sent + s.data[s.off..off];
      outBytes := outBytes - n;
      segs := if off == |s.data| then segs[1..] else segs[0 := Seg(s.data, off)];
    }

    method FlushConn(io: seq<SendQueue.Answer>) returns (ok: bool)
      requires Exact(Value())
      modifies this
      ensures Exact(Value()) && (Value(), ok) == Flush(old(Value()), io)
    {
      hide Exact, Flush, Wrote;
      var k: nat := 0;
      assert io[0..] == io;
      while segs != [] && k < |io|
        invariant k <= |io| && Exact(Value()) && Flush(Value(), io[k..]) == Flush(old(Value()), io)
        decreases |io| - k
      {
        FlushNext(Value(), io, k);
        var s := segs[0];
        var n := Min(io[k].n, |s.data| - s.off);
        if n > 0 {
          WroteExact(Value(), n);
          Advance(n);
          k := k + 1;
          continue;
        }
        if io[k].n < 0 && io[k].errno == SendQueue.EAGAIN { return true; }
        if io[k].n < 0 && io[k].errno == SendQueue.EINTR {
          k := k + 1;
          continue;
        }
        return false;
      }
      FlushEnds(Value(), io[k..]);
      return true;
    }

    method ApplyOutput(frame: bytes, io: seq<SendQueue.Answer>) returns (live: bool)
      requires Settled(Value()) && frame != []
      modifies this
      ensures live == ApplyFrame(old(Value()), frame, io).Live?
      ensures live ==> Value() == ApplyFrame(old(Value()), frame, io).out && Settled(Value())
    {
      hide Unsent, Flat, Flush;
      ApplySettles(Value(), frame, io);
      FlatAppend(frames, frame);
      UnsentAppend(segs, frame);
      Assoc(sent, Unsent(segs), frame);
      outBytes := outBytes + |frame|;
      if outBytes > MAX_OUT { return false; }
      segs := segs + [Seg(frame, 0)];
      frames := frames + [frame];
      live := FlushConn(io);
      if live && segs != [] && !armed { armed := true; }
    }

    method OnWritable(io: seq<SendQueue.Answer>) returns (live: bool)
      requires Settled(Value())
      modifies this
      ensures live == Writable(old(Value()), io).Live?
      ensures live ==> Value() == Writable(old(Value()), io).out && Settled(Value())
    {
      hide Unsent, Flat, Flush;
      WritableSettles(Value(), io);
      live := FlushConn(io);
      if live && segs == [] && armed { armed := false; }
    }
  }
}
