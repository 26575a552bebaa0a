/** The bounded send queue of src/server.cpp: frames go out through short writes, or wait in `outbuf`. */
module SendQueue {
  import opened Bytes
  import opened Collections
  import opened Frame
  import opened Json
  import opened JsonRoundTrip
  import opened JsonCode

  const CAP: nat := 0x4_0000
  const SEQ: bytes := [115, 101, 113]

  // ---------- one connection ----------

  /** What a write call says: bytes taken, or a negative number and the error. */
  datatype Errno = EINTR | EAGAIN | OTHER
  datatype Answer = Answer(n: int, errno: Errno)

  /** `wire` is all that the socket took and `sent` every object that entered the queue; `broken` records a
      false return of `sendLocked` or `drainOutLocked`, after which the caller drops the connection. */
  datatype Channel = Channel(open: bool, tls: bool, outbuf: bytes, sendSeq: int, broken: bool,
                             wire: bytes, sent: seq<Object>)

  function Bodies(sent: seq<Object>): (bs: seq<bytes>)
    ensures |bs| == |sent| && forall i :: 0 <= i < |sent| ==> bs[i] == Serialize(sent[i])
  {
    seq(|sent|, i requires 0 <= i < |sent| => Serialize(sent[i]))
  }

  function Advanced(ch: Channel, n: nat): Channel
    requires n <= |ch.outbuf|
  {
    ch.(wire := ch.wire + ch.outbuf[..n], outbuf := ch.outbuf[n..])
  }

  /** `drainOutLocked` against the answers `io`; when they run out, the socket takes nothing more. */
  function Drain(ch: Channel, io: seq<Answer>): (Channel, bool)
    decreases |io|
  {
    if ch.outbuf == [] then (ch, true)
    else if !ch.open then (ch.(broken := true), false)
    else if io == [] then (ch, true)
    else
      var n := Min(io[0].n, |ch.outbuf|);
      if n > 0 then Drain(Advanced(ch, n), io[1..])
      else if ch.tls then if n < 0 then (ch.(broken := true), false) else (ch, true)
      else if n < 0 && io[0].errno == EINTR then Drain(ch, io[1..])
      else if n < 0 && io[0].errno == EAGAIN then (ch, true)
      else (ch.(broken := true), false)
  }

  /** `sendLocked` of the frame of `o`. */
  function Enqueue(ch: Channel, o: Object, io: seq<Answer>): (Channel, bool) {
    if !ch.open then (ch.(broken := true), false)
    else
      var ch' := ch.(outbuf := ch.outbuf + Wire(Serialize(o)), sent := ch.sent + [o]);
      if |ch'.outbuf| > CAP then (ch'.(broken := true), false)
      else if ch.tls && ch.outbuf != [] then (ch', true)
      else Drain(ch', io)
  }

  function Numbered(o: Object, seqNo: int): Object { Set(o, SEQ, Num(seqNo)) }

  function SendNumbered(ch: Channel, o: Object, io: seq<Answer>): (Channel, bool) {
    if |Serialize(o)| > MAX_FRAME then (ch, false) else Enqueue(ch, o, io)
  }

  /** `sendFrame`, `sendRelay`, a round of the monitor, and the receiving thread closing the descriptor. */
  datatype Event = SendFrame(o: Object, io: seq<Answer>) | SendRelay(o: Object, origin: int, io: seq<Answer>)
                 | Sweep(io: seq<Answer>) | Close

  function After(ch: Channel, e: Event): (Channel, bool) {
    match e
    case SendFrame(o, io) =>
      if !ch.open then (ch, false)
      else SendNumbered(ch.(sendSeq := ch.sendSeq + 1), Numbered(o, ch.sendSeq + 1), io)
    case SendRelay(o, origin, io) =>
      if !ch.open then (ch, false) else SendNumbered(ch, Numbered(o, origin), io)
    case Sweep(io) => Drain(ch, io)
    case Close => (ch.(open := false), true)
  }

  function Fresh(tls: bool): Channel { Channel(true, tls, [], 0, false, [], []) }

  function Channels(tls: bool, events: seq<Event>): Channel {
    if events == [] then Fresh(tls)
    else After(Channels(tls, events[..|events| - 1]), events[|events| - 1]).0
  }

  // ---------- nothing is lost, doubled or reordered ----------

  /** Written and waiting bytes are the frames accepted so far; what waits is bounded. */
  ghost predicate Intact(ch: Channel) {
    && ch.wire + ch.outbuf == WireAll(Bodies(ch.sent))
    && |ch.outbuf| <= CAP
    && AllFit(Bodies(ch.sent), MAX_FRAME)
  }

  lemma {:induction false} WireAllAppend(bs: seq<bytes>, b: bytes)
    ensures WireAll(bs + [b]) == WireAll(bs) + Wire(b)
  {
    hide Wire;
    if bs == [] {
      assert [b] == [] + [b] && [b][1..] == [];
      assert WireAll([b]) == Wire(b) + WireAll([]);
    } else {
      assert (bs + [b])[1..] == bs[1..] + [b];
      WireAllAppend(bs[1..], b);
      Assoc(Wire(bs[0]), WireAll(bs[1..]), Wire(b));
    }
  }

  /** Draining moves bytes from the queue to the wire and touches nothing else. */
  lemma {:induction false} DrainMoves(ch: Channel, io: seq<Answer>)
    ensures var ch' := Drain(ch, io).0;
      && ch'.wire + ch'.outbuf == ch.wire + ch.outbuf
      && ch.wire <= ch'.wire && |ch'.outbuf| <= |ch.outbuf|
      && ch'.sent == ch.sent && ch'.open == ch.open && ch'.tls == ch.tls && ch'.sendSeq == ch.sendSeq
      && ch'.broken == (ch.broken || !Drain(ch, io).1)
    decreases |io|
  {
    if ch.outbuf != [] && ch.open && io != [] {
      var n := Min(io[0].n, |ch.outbuf|);
      if n > 0 {
        Assoc(ch.wire, ch.outbuf[..n], ch.outbuf[n..]);
        DrainMoves(Advanced(ch, n), io[1..]);
      } else {
        DrainMoves(ch, io[1..]);
      }
    }
  }

  /** Answers that are not a hard error: progress, an interrupted call, a full kernel buffer. */
  predicate Soft(tls: bool, a: Answer) { a.n > 0 || (if tls then a.n == 0 else a.n < 0 && a.errno != OTHER) }

  /** A short write, a signal or a full buffer never costs the connection. */
  lemma {:induction false} SoftAnswersNeverBreak(ch: Channel, io: seq<Answer>)
    requires ch.open && forall i :: 0 <= i < |io| ==> Soft(ch.tls, io[i])
    ensures Drain(ch, io).1
    decreases |io|
  {
    if ch.outbuf != [] && io != [] {
      assert Soft(ch.tls, io[0]);
      var n := Min(io[0].n, |ch.outbuf|);
      if n > 0 { SoftAnswersNeverBreak(Advanced(ch, n), io[1..]); } else { SoftAnswersNeverBreak(ch, io[1..]); }
    }
  }

  function Total(io: seq<Answer>): nat {
    if io == [] then 0 else (if io[0].n > 0 then io[0].n else 0) + Total(io[1..])
  }

  /** Signals aside, a socket that takes bytes at every call is handed the whole queue as soon as the
      sizes of its writes add up to it, and exactly that many bytes before. */
  lemma {:induction false} DrainMakesProgress(ch: Channel, io: seq<Answer>)
    requires ch.open && forall i :: 0 <= i < |io| ==> io[i].n > 0 || (!ch.tls && io[i].n < 0 && io[i].errno == EINTR)
    ensures Drain(ch, io).0.outbuf == ch.outbuf[Min(Total(io), |ch.outbuf|)..]
    decreases |io|
  {
    if io != [] {
      var a := io[0];
      assert a.n > 0 || (!ch.tls && a.n < 0 && a.errno == EINTR);
      if ch.outbuf != [] {
        var n := Min(a.n, |ch.outbuf|);
        if n > 0 {
          DrainMakesProgress(Advanced(ch, n), io[1..]);
          Later(ch.outbuf, n, a.n, Total(io[1..]));
        } else {
          DrainMakesProgress(ch, io[1..]);
        }
      }
    }
  }

  lemma Later(s: bytes, n: nat, a: nat, more: nat)
    requires n == Min(a, |s|)
    ensures s[n..][Min(more, |s[n..]|)..] == s[Min(a + more, |s|)..]
  {
  }

  lemma EnqueueKeeps(ch: Channel, o: Object, io: seq<Answer>)
    requires Intact(ch) && |Serialize(o)| <= MAX_FRAME && Enqueue(ch, o, io).1
    ensures Intact(Enqueue(ch, o, io).0)
  {
    hide Wire, Drain;
    var ch' := ch.(outbuf := ch.outbuf + Wire(Serialize(o)), sent := ch.sent + [o]);
    Assoc(ch.wire, ch.outbuf, Wire(Serialize(o)));
    assert Bodies(ch'.sent) == Bodies(ch.sent) + [Serialize(o)];
    WireAllAppend(Bodies(ch.sent), Serialize(o));
    DrainMoves(ch', io);
  }

  lemma StepKeeps(ch: Channel, e: Event)
    requires Intact(ch) && !After(ch, e).0.broken
    ensures Intact(After(ch, e).0)
  {
    hide Drain, AllFit, WireAll, Serialize, Set, Enqueue;
    match e
    case SendFrame(o, io) =>
      var ch1, o1 := ch.(sendSeq := ch.sendSeq + 1), Numbered(o, ch.sendSeq + 1);
      if ch.open && |Serialize(o1)| <= MAX_FRAME {
        BrokenMeansFalse(ch1, o1, io);
        EnqueueKeeps(ch1, o1, io);
      }
    case SendRelay(o, origin, io) =>
      var o1 := Numbered(o, origin);
      if ch.open && |Serialize(o1)| <= MAX_FRAME {
        BrokenMeansFalse(ch, o1, io);
        EnqueueKeeps(ch, o1, io);
      }
    case Sweep(io) => DrainMoves(ch, io);
    case Close =>
  }

  lemma BrokenMeansFalse(ch: Channel, o: Object, io: seq<Answer>)
    ensures !Enqueue(ch, o, io).1 ==> Enqueue(ch, o, io).0.broken
    ensures ch.broken ==> Enqueue(ch, o, io).0.broken
  {
    hide Drain;
    DrainMoves(ch.(outbuf := ch.outbuf + Wire(Serialize(o)), sent := ch.sent + [o]), io);
  }

  lemma BrokenStays(ch: Channel, e: Event)
    ensures ch.broken ==> After(ch, e).0.broken
  {
    hide Drain, Enqueue;
    match e
    case SendFrame(o, io) => BrokenMeansFalse(ch.(sendSeq := ch.sendSeq + 1), Numbered(o, ch.sendSeq + 1), io);
    case SendRelay(o, origin, io) => BrokenMeansFalse(ch, Numbered(o, origin), io);
    case Sweep(io) => DrainMoves(ch, io);
    case Close =>
  }

  /** Until the first false return, under any pattern of short writes and refusals. */
  lemma {:induction false} StreamIntegrity(tls: bool, events: seq<Event>)
    requires !Channels(tls, events).broken
    ensures Intact(Channels(tls, events))
  {
    hide After, Intact;
    if events == [] {
      FreshIsIntact(tls);
    } else {
      var before := events[..|events| - 1];
      BrokenStays(Channels(tls, before), events[|events| - 1]);
      StreamIntegrity(tls, before);
      StepKeeps(Channels(tls, before), events[|events| - 1]);
    }
  }

  lemma FreshIsIntact(tls: bool)
    ensures Intact(Fresh(tls))
  {
    assert Bodies([]) == [];
  }

  // ---------- what was sent is what was given ----------

  /** The value under a key, as a receiver looks it up. */
  function Lookup(o: Object, key: bytes): Option<Value> {
    if o == [] then None else if o[0].key == key then Some(o[0].val) else Lookup(o[1..], key)
  }

  /** An object with the number `n` in `seq` and everything else as it was given. */
  ghost predicate Carries(sent: Object, given: Object, n: int) {
    && Lookup(sent, SEQ) == Some(Num(n))
    && (forall key :: key != SEQ ==> Lookup(sent, key) == Lookup(given, key))
    && (forall key :: HasKey(sent, key) <==> HasKey(given, key) || key == SEQ)
    && (UniqueKeys(given) ==> UniqueKeys(sent))
  }

  lemma {:induction false} SetLookup(o: Object, key: bytes, val: Value, k: bytes)
    ensures Lookup(Set(o, key, val), k) == if k == key then Some(val) else Lookup(o, k)
  {
    if o != [] && o[0].key != key { SetLookup(o[1..], key, val, k); }
  }

  lemma {:induction false} LookupFinds(o: Object, key: bytes)
    ensures Lookup(o, key).Some? <==> HasKey(o, key)
  {
    if o != [] {
      LookupFinds(o[1..], key);
      if HasKey(o[1..], key) { var i :| 0 <= i < |o[1..]| && o[1..][i].key == key; assert o[i + 1].key == key; }
      if HasKey(o, key) && o[0].key != key {
        var i :| 0 <= i < |o| && o[i].key == key;
        assert o[1..][i - 1].key == key;
      }
      if o[0].key == key { assert HasKey(o, key); }
    }
  }

  /** Numbering replaces or adds one field and keeps the rest. */
  lemma NumberedCarries(o: Object, n: int)
    ensures Carries(Numbered(o, n), o, n)
  {
    hide Set, HasKey, UniqueKeys, Lookup;
    forall key ensures Lookup(Numbered(o, n), key) == if key == SEQ then Some(Num(n)) else Lookup(o, key) {
      SetLookup(o, SEQ, Num(n), key);
    }
    forall key ensures HasKey(Numbered(o, n), key) <==> HasKey(o, key) || key == SEQ {
      LookupFinds(Numbered(o, n), key);
      LookupFinds(o, key);
    }
    if UniqueKeys(o) { SetKeys(o, SEQ, Num(n)); }
  }

  /** How often `sendFrame` was called on the open connection: its counter. */
  function Calls(tls: bool, events: seq<Event>): nat {
    if events == [] then 0
    else
      var before, e := events[..|events| - 1], events[|events| - 1];
      Calls(tls, before) + if e.SendFrame? && Channels(tls, before).open then 1 else 0
  }

  /** An accepted call: the object given, the number it is to carry, and whether that is the server's own. */
  datatype Order = Order(given: Object, number: int, own: bool)

  /** The calls of `sendFrame` and `sendRelay` so far that did not return false. */
  function Orders(tls: bool, events: seq<Event>): seq<Order> {
    if events == [] then []
    else
      var before, e := events[..|events| - 1], events[|events| - 1];
      Orders(tls, before)
      + if !After(Channels(tls, before), e).1 then []
        else match e
             case SendFrame(o, _) => [Order(o, Calls(tls, before) + 1, true)]
             case SendRelay(o, origin, _) => [Order(o, origin, false)]
             case _ => []
  }

  ghost predicate Faithful(sent: seq<Object>, orders: seq<Order>) {
    && |sent| == |orders|
    && forall i {:trigger sent[i]} :: 0 <= i < |sent| ==> Carries(sent[i], orders[i].given, orders[i].number)
  }

  /** The server's own numbers on a connection go up. */
  lemma {:induction false} OwnNumbersIncrease(tls: bool, events: seq<Event>, i: nat, j: nat)
    requires i < j < |Orders(tls, events)| && Orders(tls, events)[i].own && Orders(tls, events)[j].own
    ensures 0 < Orders(tls, events)[i].number < Orders(tls, events)[j].number <= Calls(tls, events)
  {
    hide After, Channels;
    var before := events[..|events| - 1];
    if j < |Orders(tls, before)| {
      OwnNumbersIncrease(tls, before, i, j);
    } else {
      OwnBounded(tls, before, i);
      OnlyOpenCounts(Channels(tls, before), events[|events| - 1]);
    }
  }

  lemma {:induction false} OwnBounded(tls: bool, events: seq<Event>, i: nat)
    requires i < |Orders(tls, events)| && Orders(tls, events)[i].own
    ensures 0 < Orders(tls, events)[i].number <= Calls(tls, events)
  {
    var before := events[..|events| - 1];
    if i < |Orders(tls, before)| {
      OwnBounded(tls, before, i);
    } else {
      OnlyOpenCounts(Channels(tls, before), events[|events| - 1]);
    }
  }

  lemma EnqueueSends(ch: Channel, o: Object, io: seq<Answer>)
    ensures var (ch', ok) := Enqueue(ch, o, io);
      (ok ==> ch'.sent == ch.sent + [o]) && (!ok ==> ch'.broken) && ch'.sendSeq == ch.sendSeq
  {
    hide Drain, Serialize, Wire;
    DrainMoves(ch.(outbuf := ch.outbuf + Wire(Serialize(o)), sent := ch.sent + [o]), io);
  }

  /** What one event adds to the objects that were sent, if it does not break the connection. */
  lemma EventSends(ch: Channel, e: Event)
    requires !After(ch, e).0.broken
    ensures var (ch', ok) := After(ch, e);
      match e
      case SendFrame(o, _) =>
        ch'.sendSeq == ch.sendSeq + (if ch.open then 1 else 0)
        && ch'.sent == ch.sent + if ok then [Numbered(o, ch.sendSeq + 1)] else []
      case SendRelay(o, origin, _) =>
        ch'.sendSeq == ch.sendSeq && ch'.sent == ch.sent + if ok then [Numbered(o, origin)] else []
      case _ => ch'.sendSeq == ch.sendSeq && ch'.sent == ch.sent
  {
    hide Enqueue, Drain, Serialize, Numbered;
    match e
    case SendFrame(o, io) =>
      EnqueueSends(ch.(sendSeq := ch.sendSeq + 1), Numbered(o, ch.sendSeq + 1), io);
    case SendRelay(o, origin, io) => EnqueueSends(ch, Numbered(o, origin), io);
    case Sweep(io) => DrainMoves(ch, io);
    case Close =>
  }

  /** As long as nothing broke, the objects sent are, one by one and in order, those of the calls that were accepted: no
      field is lost, changed or added but `seq`. A relay keeps the number of its origin, the server's own frames carry
      the counter of the connection. */
  lemma {:induction false} SentFaithfully(tls: bool, events: seq<Event>)
    requires !Channels(tls, events).broken
    ensures Faithful(Channels(tls, events).sent, Orders(tls, events))
    ensures Channels(tls, events).sendSeq == Calls(tls, events)
  {
    hide After, Numbered, Carries;
    if events != [] {
      var before, e := events[..|events| - 1], events[|events| - 1];
      var ch := Channels(tls, before);
      BrokenStays(ch, e);
      SentFaithfully(tls, before);
      EventSends(ch, e);
      match e
      case SendFrame(o, _) => NumberedCarries(o, ch.sendSeq + 1);
      case SendRelay(o, origin, _) => NumberedCarries(o, origin);
      case _ =>
    }
  }

  lemma OnlyOpenCounts(ch: Channel, e: Event)
    ensures !ch.open && (e.SendFrame? || e.SendRelay?) ==> !After(ch, e).1
  {
    hide Enqueue;
  }

  // ---------- when a connection breaks ----------

  /** An answer after which the next write is tried, and one that ends the connection. */
  predicate Goes(tls: bool, a: Answer) { a.n > 0 || (!tls && a.n < 0 && a.errno == EINTR) }

  predicate Hard(tls: bool, a: Answer) { if tls then a.n < 0 else a.n == 0 || (a.n < 0 && a.errno == OTHER) }

  /** Answer `k` is the first that stops the writes, it is a hard error, and bytes are left by then. */
  ghost predicate HardAt(ch: Channel, io: seq<Answer>, k: nat) {
    && k < |io| && Hard(ch.tls, io[k]) && (forall i :: 0 <= i < k ==> Goes(ch.tls, io[i]))
    && Drain(ch, io[..k]).0.outbuf != []
  }

  /** On an open descriptor draining fails exactly on a hard error while bytes are left. */
  lemma {:induction false} DrainFailsExactly(ch: Channel, io: seq<Answer>)
    requires ch.open
    ensures !Drain(ch, io).1 <==> exists k :: HardAt(ch, io, k)
    decreases |io|
  {
    if ch.outbuf == [] || io == [] {
      forall k | 0 <= k < |io| ensures ch.outbuf == [] ==> Drain(ch, io[..k]).0.outbuf == [] {
      }
    } else {
      var n := Min(io[0].n, |ch.outbuf|);
      assert io[..0] == [];
      if Goes(ch.tls, io[0]) {
        var p := if n > 0 then Advanced(ch, n) else ch;
        DrainFailsExactly(p, io[1..]);
        forall k | 0 < k < |io| ensures HardAt(ch, io, k) <==> HardAt(p, io[1..], k - 1) {
          assert io[..k][0] == io[0] && io[..k][1..] == io[1..][..k - 1];
          assert forall i :: 1 <= i < k ==> io[i] == io[1..][i - 1];
        }
        if k: nat :| HardAt(p, io[1..], k) { assert HardAt(ch, io, k + 1); }
      } else if Hard(ch.tls, io[0]) {
        assert HardAt(ch, io, 0);
      } else {
        assert forall k :: HardAt(ch, io, k) ==> k == 0;
      }
    }
  }

  /** A frame is refused exactly if the descriptor is closed, the queue would pass 256 KiB, or the write that follows at
      once meets a hard error before the queue is empty; a queue that TLS has not emptied is not written to. */
  lemma RefusedExactly(ch: Channel, o: Object, io: seq<Answer>)
    ensures !Enqueue(ch, o, io).1 <==>
      || !ch.open
      || |ch.outbuf| + 4 + |Serialize(o)| > 256 * 1024
      || (!(ch.tls && ch.outbuf != [])
          && exists k :: HardAt(ch.(outbuf := ch.outbuf + Wire(Serialize(o)), sent := ch.sent + [o]), io, k))
  {
    hide Serialize, Drain, HardAt;
    if ch.open { DrainFailsExactly(ch.(outbuf := ch.outbuf + Wire(Serialize(o)), sent := ch.sent + [o]), io); }
  }

  // ---------- end to end ----------

  /** A reader at the other end that was given any part of the written bytes, in any chunks, has returned
      a prefix of the bodies sent; each parses back to the object sent exactly when that object is canonical. */
  lemma {:induction false} EndToEnd(tls: bool, events: seq<Event>, calls: seq<Call>, unread: bytes)
    requires !Channels(tls, events).broken
    requires Run(calls, MAX_FRAME).fed + unread == Channels(tls, events).wire
    ensures var ch, r := Channels(tls, events), Run(calls, MAX_FRAME);
      && !r.failed && |r.out| <= |ch.sent|
      && (forall i :: 0 <= i < |r.out| ==>
            && r.out[i] == Serialize(ch.sent[i])
            && (Parse(r.out[i]) == Ok(ch.sent[i], []) <==> CanonicalObject(ch.sent[i])))
      && (unread == [] && ch.outbuf == [] && Drained(r, MAX_FRAME) ==> |r.out| == |ch.sent|)
  {
    hide AllFit, Drained, Parse, CanonicalObject, WireAll, Serialize;
    var ch, r := Channels(tls, events), Run(calls, MAX_FRAME);
    StreamIntegrity(tls, events);
    Assoc(r.fed, unread, ch.outbuf);
    ReaderSeesPrefix(calls, Bodies(ch.sent), unread + ch.outbuf, MAX_FRAME);
    forall i | 0 <= i < |r.out|
      ensures Parse(Serialize(ch.sent[i])) == Ok(ch.sent[i], []) <==> CanonicalObject(ch.sent[i])
    {
      JsonRoundTrip.RoundTripExact(ch.sent[i]);
    }
  }

  lemma CarriedIsCanonical(sent: Object, given: Object, n: int)
    requires sent == Numbered(given, n) && CanonicalObject(given) && -LLONG_MAX <= n <= LLONG_MAX
    ensures CanonicalObject(sent)
  {
    SetKeys(given, SEQ, Num(n));
    SetCanonical(given, SEQ, Num(n));
  }

  /** What was sent for an order, as an object. */
  lemma {:induction false} SentIsNumbered(tls: bool, events: seq<Event>, i: nat)
    requires !Channels(tls, events).broken && i < |Channels(tls, events).sent|
    ensures |Channels(tls, events).sent| == |Orders(tls, events)|
    ensures Channels(tls, events).sent[i] == Numbered(Orders(tls, events)[i].given, Orders(tls, events)[i].number)
  {
    hide After, Numbered, Carries;
    SentFaithfully(tls, events);
    if events != [] {
      var before, e := events[..|events| - 1], events[|events| - 1];
      BrokenStays(Channels(tls, before), e);
      SentFaithfully(tls, before);
      EventSends(Channels(tls, before), e);
      if i < |Channels(tls, before).sent| { SentIsNumbered(tls, before, i); }
    }
  }

  /** From call to call: what the peer reads parses, in order, to the objects given to the accepted calls, each with
      its number and otherwise unchanged. */
  lemma {:induction false} PeerReadsWhatWasGiven(tls: bool, events: seq<Event>, calls: seq<Call>, unread: bytes, i: nat)
    requires !Channels(tls, events).broken
    requires Run(calls, MAX_FRAME).fed + unread == Channels(tls, events).wire
    requires i < |Run(calls, MAX_FRAME).out|
    ensures i < |Orders(tls, events)|
    ensures var order, p := Orders(tls, events)[i], Parse(Run(calls, MAX_FRAME).out[i]);
      CanonicalObject(order.given) && -LLONG_MAX <= order.number <= LLONG_MAX ==>
        p.Ok? && Carries(p.value, order.given, order.number)
  {
    hide Run, Channels, Parse, Serialize, CanonicalObject, Carries, Numbered, Orders, Drained;
    EndToEnd(tls, events, calls, unread);
    SentIsNumbered(tls, events, i);
    var order := Orders(tls, events)[i];
    NumberedCarries(order.given, order.number);
    if CanonicalObject(order.given) && -LLONG_MAX <= order.number <= LLONG_MAX {
      CarriedIsCanonical(Channels(tls, events).sent[i], order.given, order.number);
    }
  }

  /** What is left of the queue at one moment bounds what it takes. */
  lemma SendableExactly(ch: Channel, o: Object)
    requires ch.open
    ensures (exists io :: Enqueue(ch, o, io).1) <==> |ch.outbuf| + 4 + |Serialize(o)| <= CAP
  {
    hide Serialize;
    if |ch.outbuf| + 4 + |Serialize(o)| <= CAP {
      assert Enqueue(ch, o, []).1;
    }
  }

  /** After any history of an open connection an object can still be relayed, perhaps later and to a socket that takes
      bytes again, exactly if its frame fits into an empty queue: 256 KiB and not `kMaxFrame` is the largest frame. */
  lemma {:induction false} LargestFrameExactly(tls: bool, events: seq<Event>, o: Object, origin: int)
    requires Channels(tls, events).open
    ensures (exists more, io :: After(Channels(tls, events + more), SendRelay(o, origin, io)).1)
            <==> 4 + |Serialize(Numbered(o, origin))| <= CAP
  {
    hide Serialize, Numbered, Channels, Enqueue;
    var body := Serialize(Numbered(o, origin));
    if 4 + |body| <= CAP {
      var ch := Channels(tls, events);
      var sweep := Sweep([Answer(|ch.outbuf|, OTHER)]);
      Swept(tls, events, sweep);
      SendableExactly(Channels(tls, events + [sweep]), Numbered(o, origin));
      var io :| Enqueue(Channels(tls, events + [sweep]), Numbered(o, origin), io).1;
      assert After(Channels(tls, events + [sweep]), SendRelay(o, origin, io)).1;
    }
    forall more, io | After(Channels(tls, events + more), SendRelay(o, origin, io)).1
      ensures 4 + |body| <= CAP
    {
      SendableExactly(Channels(tls, events + more), Numbered(o, origin));
    }
  }

  /** A socket that takes everything empties the queue. */
  lemma Swept(tls: bool, events: seq<Event>, sweep: Event)
    requires Channels(tls, events).open && sweep == Sweep([Answer(|Channels(tls, events).outbuf|, OTHER)])
    ensures var ch := Channels(tls, events + [sweep]); ch.open && ch.outbuf == []
  {
    hide Drain;
    var ch, io := Channels(tls, events), sweep.io;
    assert (events + [sweep])[..|events + [sweep]| - 1] == events;
    DrainMoves(ch, io);
    DrainAll(ch, io);
  }

  lemma DrainAll(ch: Channel, io: seq<Answer>)
    requires ch.open && io == [Answer(|ch.outbuf|, OTHER)]
    ensures Drain(ch, io).0.outbuf == []
  {
    if ch.outbuf != [] { assert Drain(ch, io) == Drain(Advanced(ch, |ch.outbuf|), io[1..]); }
  }

  // ---------- the code ----------

  class Connection {
    var open: bool
    const tls: bool
    var outbuf: bytes
    var sendSeq: int
    ghost var wire: bytes
    ghost var sent: seq<Object>
    ghost var broken: bool

    ghost function State(): Channel
      reads this
    {
      Channel(open, tls, outbuf, sendSeq, broken, wire, sent)
    }

    constructor (tls: bool)
      ensures State() == Channels(tls, [])
    {
      open, this.tls, outbuf, sendSeq := true, tls, [], 0;
      wire, sent, broken := [], [], false;
    }

    /** `drainOutLocked`: write until the queue is empty or the socket takes no more. */
    method DrainOutLocked(io: seq<Answer>) returns (ok: bool)
      modifies this
      ensures (State(), ok) == Drain(old(State()), io)
    {
      var k: nat := 0;
      assert io[0..] == io;
      while outbuf != []
        invariant k <= |io| && Drain(State(), io[k..]) == Drain(old(State()), io)
        decreases |io| - k
      {
        if !open { broken := true; return false; }
        if k == |io| { return true; }
        assert io[k..][0] == io[k] && io[k..][1..] == io[k + 1..];
        var n := Min(io[k].n, |outbuf|);
        var wrote: nat := 0;
        if tls {
          if n < 0 { broken := true; return false; }
          wrote := n;
        } else {
          if n > 0 {
            wrote := n;
          } else if n < 0 && io[k].errno == EINTR {
            k := k + 1;
            continue;
          } else if n < 0 && io[k].errno == EAGAIN {
            return true;
          } else {
            broken := true;
            return false;
          }
        }
        if wrote == 0 { assert Advanced(State(), wrote) == State(); }
        wire := wire + outbuf[..wrote];
        outbuf := outbuf[wrote..];
        if wrote == 0 { return true; }
        k := k + 1;
      }
      return true;
    }

    /** `sendLocked`: the frame joins the queue first; a queue over its bound ends the connection. */
    method SendLocked(pkt: bytes, ghost o: Object, io: seq<Answer>) returns (ok: bool)
      requires pkt == Wire(Serialize(o))
      modifies this
      ensures (State(), ok) == Enqueue(old(State()), o, io)
    {
      hide Drain;
      if !open { broken := true; return false; }
      var wasEmpty := outbuf == [];
      outbuf := outbuf + pkt;
      sent := sent + [o];
      if |outbuf| > CAP { broken := true; return false; }
      if tls && !wasEmpty { return true; }
      ok := DrainOutLocked(io);
    }

    method SendFrameObject(obj: Object, io: seq<Answer>) returns (ok: bool)
      modifies this
      ensures (State(), ok) == After(old(State()), SendFrame(obj, io))
    {
      hide Enqueue;
      if !open { return false; }
      sendSeq := sendSeq + 1;
      var o := SetField(obj, SEQ, Num(sendSeq));
      var body := SerializeObject(o);
      if |body| > MAX_FRAME { return false; }
      var pkt := MakeWireFrame(body);
      ok := SendLocked(pkt, o, io);
    }

    method SendRelayObject(obj: Object, origin: int, io: seq<Answer>) returns (ok: bool)
      modifies this
      ensures (State(), ok) == After(old(State()), SendRelay(obj, origin, io))
    {
      hide Enqueue;
      if !open { return false; }
      var o := SetField(obj, SEQ, Num(origin));
      var body := SerializeObject(o);
      if |body| > MAX_FRAME { return false; }
      var pkt := MakeWireFrame(body);
      ok := SendLocked(pkt, o, io);
    }
  }
}
