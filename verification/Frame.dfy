/** The frame layer of src/frame.cpp: 4 bytes of big-endian length, then the body. */
module Frame {
  import opened Bytes
  import opened ByteOrder

  const MAX_FRAME: nat := 0x10_0000

  // ---------- what frames mean ----------

  /** The first four bytes as a number. */
  function Length(s: bytes): (n: nat)
    requires |s| >= 4
    ensures n < TWO_32
  {
    BigEndian(s[0], s[1], s[2], s[3])
  }

  /** The length is cast to 32 bits. */
  function Header(n: nat): (h: bytes)
    ensures |h| == 4 && Length(h) == n % TWO_32
  {
    var d := n % TWO_32;
    var c := d / 0x100;
    var b := c / 0x100;
    [b / 0x100, b % 0x100, c % 0x100, d % 0x100]
  }

  function Wire(body: bytes): (w: bytes)
    ensures |w| == 4 + |body|
  {
    Header(|body|) + body
  }

  function WireAll(bodies: seq<bytes>): bytes {
    if bodies == [] then [] else Wire(bodies[0]) + WireAll(bodies[1..])
  }

  /** Four bytes are determined by the number they spell. */
  lemma SameLength(s: bytes, t: bytes)
    requires |s| >= 4 && |t| >= 4 && Length(s) == Length(t)
    ensures s[..4] == t[..4]
  {
    SameDigits(s[0], s[1], s[2], s[3], t[0], t[1], t[2], t[3]);
  }

  lemma SameDigits(a: byte, b: byte, c: byte, d: byte, a': byte, b': byte, c': byte, d': byte)
    requires BigEndian(a, b, c, d) == BigEndian(a', b', c', d')
    ensures a == a' && b == b' && c == c' && d == d'
  {
    assert (a * 0x100 + b) * 0x100 + c == (a' * 0x100 + b') * 0x100 + c';
    assert a * 0x100 + b == a' * 0x100 + b';
  }

  lemma LengthOfPrefix(s: bytes, t: bytes)
    requires |s| >= 4
    ensures Length(s + t) == Length(s)
  {
  }

  /** The four bytes of a frame's length by their weights, the highest first, and the body behind them. */
  lemma WireOnBytes(body: bytes)
    requires |body| < TWO_32
    ensures var w := Wire(body);
      && (w[0] as int) * 16777216 + (w[1] as int) * 65536 + (w[2] as int) * 256 + w[3] == |body|
      && w[4..] == body && |w| == |body| + 4
  {
  }

  /** One-shot decoding of a whole stream: the bodies, what is left over, and whether a length was too big. */
  datatype Decoded = Decoded(bodies: seq<bytes>, rest: bytes, failed: bool)

  predicate HasFrame(s: bytes, max: nat) { |s| >= 4 && Length(s) <= max && |s| >= 4 + Length(s) }

  predicate TooLong(s: bytes, max: nat) { |s| >= 4 && Length(s) > max }

  function Body(s: bytes, max: nat): bytes
    requires HasFrame(s, max)
  {
    s[4..4 + Length(s)]
  }

  function Behind(s: bytes, max: nat): (r: bytes)
    requires HasFrame(s, max)
    ensures |r| < |s|
  {
    s[4 + Length(s)..]
  }

  function Decode(s: bytes, max: nat): Decoded
    decreases |s|
  {
    if HasFrame(s, max) then
      var d := Decode(Behind(s, max), max);
      d.(bodies := [Body(s, max)] + d.bodies)
    else
      Decoded([], s, TooLong(s, max))
  }

  lemma FrameAhead(s: bytes, max: nat)
    requires HasFrame(s, max)
    ensures s == Wire(Body(s, max)) + Behind(s, max) && |Body(s, max)| == Length(s)
  {
    hide Length, Header;
    SameLength(s, Header(Length(s)));
    assert s == s[..4] + s[4..4 + Length(s)] + s[4 + Length(s)..];
  }

  /** What is decoded is exactly what was framed: frames of the bodies, then the leftover. */
  lemma {:induction false} DecodeLosesNothing(s: bytes, max: nat)
    ensures var d := Decode(s, max); WireAll(d.bodies) + d.rest == s
    ensures forall b :: b in Decode(s, max).bodies ==> |b| <= max && |b| < TWO_32
    decreases |s|
  {
    hide Length, Header;
    if HasFrame(s, max) {
      var d := Decode(Behind(s, max), max);
      DecodeLosesNothing(Behind(s, max), max);
      FrameAhead(s, max);
      Assoc(Wire(Body(s, max)), WireAll(d.bodies), d.rest);
    } else {
      assert WireAll([]) + s == s;
    }
  }

  lemma FrameThenMore(s: bytes, t: bytes, max: nat)
    requires HasFrame(s, max)
    ensures HasFrame(s + t, max) && Body(s + t, max) == Body(s, max) && Behind(s + t, max) == Behind(s, max) + t
  {
    hide Length;
    LengthOfPrefix(s, t);
    var n := 4 + Length(s);
    assert (s + t)[..n] == s[..n];
    assert (s + t)[..n][4..] == (s + t)[4..n] && s[..n][4..] == s[4..n];
  }

  /** Later bytes never change what earlier bytes decoded to. */
  lemma {:induction false} DecodeAppend(s: bytes, t: bytes, max: nat)
    ensures var d := Decode(s, max);
      Decode(s + t, max) ==
        if d.failed then d.(rest := d.rest + t)
        else var e := Decode(d.rest + t, max); e.(bodies := d.bodies + e.bodies)
    decreases |s|
  {
    hide Length, Body, Behind;
    if |s| >= 4 { LengthOfPrefix(s, t); }
    if HasFrame(s, max) {
      FrameThenMore(s, t, max);
      DecodeAppend(Behind(s, max), t, max);
      var d := Decode(Behind(s, max), max);
      Assoc([Body(s, max)], d.bodies, Decode(d.rest + t, max).bodies);
    } else if !TooLong(s, max) {
      assert [] + Decode(s + t, max).bodies == Decode(s + t, max).bodies;
    }
  }

  // ---------- framing, then decoding ----------

  predicate Fits(body: bytes, max: nat) { |body| <= max && |body| < TWO_32 }

  ghost predicate AllFit(bodies: seq<bytes>, max: nat) {
    forall i :: 0 <= i < |bodies| ==> Fits(bodies[i], max)
  }

  lemma AllFitSplit(bodies: seq<bytes>, max: nat)
    ensures AllFit(bodies, max) <==> bodies == [] || (Fits(bodies[0], max) && AllFit(bodies[1..], max))
  {
    if bodies != [] {
      assert forall i :: 0 < i < |bodies| ==> bodies[i] == bodies[1..][i - 1];
    }
  }

  lemma NoFrame(max: nat)
    ensures !HasFrame([], max) && !TooLong([], max)
  {
  }

  lemma FirstFrame(body: bytes, t: bytes, max: nat)
    ensures var s := Wire(body) + t;
      && Length(s) == |body| % TWO_32
      && (Fits(body, max) ==> HasFrame(s, max) && Body(s, max) == body && Behind(s, max) == t)
      && (!Fits(body, max) && HasFrame(s, max) ==> Body(s, max) != body)
  {
    hide Length, Header;
    var s, h := Wire(body) + t, Header(|body|);
    Assoc(h, body, t);
    LengthOfPrefix(h, body + t);
    if Fits(body, max) {
      var n := 4 + |body|;
      assert s[4..n] == body && s[n..] == t;
    }
  }

  /** Concatenated frames decode to the very bodies exactly when no body is too long, for the reader or for
      the 32-bit length. */
  lemma {:induction false} RoundTripExact(bodies: seq<bytes>, max: nat)
    ensures Decode(WireAll(bodies), max).bodies == bodies <==> AllFit(bodies, max)
    ensures AllFit(bodies, max) ==> Decode(WireAll(bodies), max) == Decoded(bodies, [], false)
  {
    hide Length, Wire, Header, AllFit, Fits, Body, Behind, HasFrame;
    if bodies == [] {
      AllFitSplit(bodies, max);
      NoFrame(max);
    } else {
      var s := WireAll(bodies);
      AllFitSplit(bodies, max);
      FirstFrame(bodies[0], WireAll(bodies[1..]), max);
      RoundTripExact(bodies[1..], max);
      assert bodies == [bodies[0]] + bodies[1..];
      if Fits(bodies[0], max) {
        assert Decode(s, max).bodies[1..] == Decode(WireAll(bodies[1..]), max).bodies;
      } else if HasFrame(s, max) {
        assert Decode(s, max).bodies[0] == Body(s, max);
      }
    }
  }

  /** Cutting a stream of frames anywhere yields the bodies that are complete, and never an error. */
  lemma PrefixOfFrames(bodies: seq<bytes>, s: bytes, t: bytes, max: nat)
    requires AllFit(bodies, max) && s + t == WireAll(bodies)
    ensures !Decode(s, max).failed && Decode(s, max).bodies <= bodies
    ensures t == [] ==> Decode(s, max) == Decoded(bodies, [], false)
  {
    RoundTripExact(bodies, max);
    DecodeAppend(s, t, max);
    if t == [] { assert s + t == s; }
  }

  // ---------- the reader, called in any order ----------

  datatype Call = Feed(data: bytes) | Next

  /** The reader's two fields, with all it was ever given and all it gave back. */
  datatype Reader = Reader(buf: bytes, failed: bool, fed: bytes, out: seq<bytes>)

  function Called(r: Reader, c: Call, max: nat): Reader {
    match c
    case Feed(data) => r.(buf := if r.failed then r.buf else r.buf + data, fed := r.fed + data)
    case Next =>
      if r.failed then r
      else if TooLong(r.buf, max) then r.(failed := true)
      else if HasFrame(r.buf, max) then r.(buf := Behind(r.buf, max), out := r.out + [Body(r.buf, max)])
      else r
  }

  function Run(calls: seq<Call>, max: nat): Reader {
    if calls == [] then Reader([], false, [], [])
    else Called(Run(calls[..|calls| - 1], max), calls[|calls| - 1], max)
  }

  predicate Drained(r: Reader, max: nat) { Called(r, Next, max) == r }

  /** What a reader will still give back, after what it gave. */
  ghost predicate OnTrack(r: Reader, max: nat) {
    var all, left := Decode(r.fed, max), Decode(r.buf, max);
    && all.bodies == r.out + left.bodies
    && all.failed == left.failed
    && (r.failed ==> TooLong(r.buf, max))
    && (!all.failed ==> all.rest == left.rest)
  }

  lemma {:induction false} StaysOnTrack(calls: seq<Call>, max: nat)
    ensures OnTrack(Run(calls, max), max)
  {
    if calls != [] {
      var r, c := Run(calls[..|calls| - 1], max), calls[|calls| - 1];
      StaysOnTrack(calls[..|calls| - 1], max);
      match c
      case Feed(data) =>
        FedStaysOnTrack(r, data, max);
      case Next =>
        NextStaysOnTrack(r, max);
    }
  }

  lemma NextStaysOnTrack(r: Reader, max: nat)
    requires OnTrack(r, max)
    ensures OnTrack(Called(r, Next, max), max)
  {
    if HasFrame(r.buf, max) {
      Assoc(r.out, [Body(r.buf, max)], Decode(Behind(r.buf, max), max).bodies);
    }
  }

  lemma FedStaysOnTrack(r: Reader, data: bytes, max: nat)
    requires OnTrack(r, max)
    ensures OnTrack(Called(r, Feed(data), max), max)
  {
    var all, left := Decode(r.fed, max), Decode(r.buf, max);
    DecodeAppend(r.fed, data, max);
    DecodeAppend(r.buf, data, max);
    if !all.failed {
      var more := Decode(left.rest + data, max);
      Assoc(r.out, left.bodies, more.bodies);
    }
  }

  /** However the stream is cut into chunks and however often `next` is called in between: the bodies so far
      begin the one-shot decoding, and once `next` has nothing more to give, they are all of it. */
  lemma {:induction false} ChunkingIsInvisible(calls: seq<Call>, max: nat)
    ensures var r, all := Run(calls, max), Decode(Run(calls, max).fed, max);
      && r.out <= all.bodies
      && (r.failed ==> all.failed)
      && (Drained(r, max) ==> r.out == all.bodies && r.failed == all.failed)
      && (Drained(r, max) && !r.failed ==> r.buf == all.rest)
  {
    StaysOnTrack(calls, max);
    var r := Run(calls, max);
    if Drained(r, max) {
      assert !r.failed && HasFrame(r.buf, max) ==> |Called(r, Next, max).out| == |r.out| + 1;
      assert r.out + [] == r.out;
    }
  }

  /** A reader that is fed any part of what was framed returns bodies in order, and never reports an error. */
  lemma ReaderSeesPrefix(calls: seq<Call>, bodies: seq<bytes>, unsent: bytes, max: nat)
    requires AllFit(bodies, max) && Run(calls, max).fed + unsent == WireAll(bodies)
    ensures Run(calls, max).out <= bodies && !Run(calls, max).failed
    ensures unsent == [] && Drained(Run(calls, max), max) ==> Run(calls, max).out == bodies
  {
    ChunkingIsInvisible(calls, max);
    PrefixOfFrames(bodies, Run(calls, max).fed, unsent, max);
  }

  // ---------- the code ----------

  method MakeWireFrame(body: bytes) returns (pkt: bytes)
    ensures pkt == Wire(body)
  {
    hide ByteAt, Narrow, Header;
    pkt := [];
    var n := Narrow(|body| % TWO_32);
    pkt := pkt + [ByteAt(n, 24)];
    pkt := pkt + [ByteAt(n, 16)];
    pkt := pkt + [ByteAt(n, 8)];
    pkt := pkt + [ByteAt(n, 0)];
    ShiftsAreBigEndian(|body| % TWO_32);
    SameLength(pkt, Header(|body|));
    assert pkt[..4] == pkt && Header(|body|)[..4] == Header(|body|);
    pkt := pkt + body;
  }

  class FrameReader {
    var buf: bytes
    var failed: bool
    const maxFrame: nat
    ghost var fed: bytes
    ghost var out: seq<bytes>

    ghost function State(): Reader
      reads this
    {
      Reader(buf, failed, fed, out)
    }

    constructor (maxFrame: nat := MAX_FRAME)
      ensures State() == Run([], maxFrame) && this.maxFrame == maxFrame
    {
      this.maxFrame := maxFrame;
      buf, failed, fed, out := [], false, [], [];
    }

    method FeedData(data: bytes)
      modifies this
      ensures State() == Called(old(State()), Feed(data), maxFrame)
      ensures fed == old(fed) + data && out == old(out)
    {
      if !failed { buf := buf + data; }
      fed := fed + data;
    }

    method LengthAhead() returns (len: nat)
      requires |buf| >= 4
      ensures len == Length(buf)
    {
      JoinedIsBigEndian(buf[0], buf[1], buf[2], buf[3]);
      len := Value(Joined(Wide(buf[0]), Wide(buf[1]), Wide(buf[2]), Wide(buf[3])));
    }

    method NextBody() returns (ok: bool, body: bytes)
      modifies this
      ensures State() == Called(old(State()), Next, maxFrame)
      ensures !ok ==> Drained(State(), maxFrame)
      ensures ok <==> !old(failed) && HasFrame(old(buf), maxFrame)
      ensures ok ==> old(buf) == Wire(body) + buf && out == old(out) + [body]
      ensures !ok ==> buf == old(buf) && out == old(out)
      ensures fed == old(fed)
    {
      hide Length, Wire, Header, Joined, Wide, Value;
      if failed { return false, []; }
      if |buf| < 4 { return false, []; }
      var len := LengthAhead();
      if len > maxFrame { failed := true; return false, []; }
      if |buf| < 4 + len { return false, []; }
      body := buf[4..4 + len];
      FrameAhead(buf, maxFrame);
      buf := buf[4 + len..];
      out := out + [body];
      return true, body;
    }

    /** The receiving loop: feed what arrived, then take every complete frame. */
    method FeedAndDrain(data: bytes) returns (bodies: seq<bytes>)
      modifies this
      ensures fed == old(fed) + data
      ensures out == old(out) + bodies && Drained(State(), maxFrame)
      ensures OnTrack(old(State()), maxFrame) ==> OnTrack(State(), maxFrame)
    {
      hide Length, Wire, Header, OnTrack, Drained, HasFrame, Called;
      ghost var start := State();
      FeedData(data);
      if OnTrack(start, maxFrame) { FedStaysOnTrack(start, data, maxFrame); }
      bodies := [];
      ghost var before := State();
      if OnTrack(before, maxFrame) { NextStaysOnTrack(before, maxFrame); }
      var ok, body := NextBody();
      while ok
        invariant out == old(out) + bodies + if ok then [body] else []
        invariant !ok ==> Drained(State(), maxFrame)
        invariant fed == old(fed) + data
        invariant OnTrack(start, maxFrame) ==> OnTrack(State(), maxFrame)
        decreases ok, |buf|
      {
        bodies := bodies + [body];
        before := State();
        if OnTrack(before, maxFrame) { NextStaysOnTrack(before, maxFrame); }
        ok, body := NextBody();
      }
    }
  }
}
