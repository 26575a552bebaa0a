/** The token bucket of src/rate_limiter.cpp, over exact numbers. */
module TokenBucket {

  const EPS: real := 0.000000001

  datatype Bucket = Bucket(tokens: real, last: real)

  /** The refill rate and the size of the bucket. */
  datatype Limit = Limit(rate: real, burst: real)

  predicate Sane(l: Limit) { l.rate >= 0.0 && l.burst >= 0.0 }

  function Full(l: Limit): Bucket { Bucket(l.burst, 0.0) }

  /** What flows in between two moments. */
  function Gain(l: Limit, from: real, to: real): real { (to - from) * l.rate }

  lemma GainAdds(l: Limit, a: real, b: real, c: real)
    ensures Gain(l, a, b) + Gain(l, b, c) == Gain(l, a, c)
  {
  }

  lemma GainGrows(l: Limit, a: real, b: real)
    requires Sane(l) && a <= b
    ensures Gain(l, a, b) >= 0.0
  {
  }

  function Refill(l: Limit, b: Bucket, now: real): Bucket {
    if now <= b.last then b
    else
      var t := b.tokens + Gain(l, b.last, now);
      Bucket(if t > l.burst then l.burst else t, now)
  }

  function Consume(l: Limit, b: Bucket, now: real, n: real): (Bucket, bool) {
    var r := Refill(l, b, now);
    if r.tokens + EPS < n then (r, false) else (r.(tokens := r.tokens - n), true)
  }

  // ---------- traces ----------

  datatype Call = Call(now: real, n: real)

  function After(l: Limit, b: Bucket, calls: seq<Call>): Bucket
    decreases |calls|
  {
    if calls == [] then b
    else Consume(l, After(l, b, calls[..|calls| - 1]), calls[|calls| - 1].now, calls[|calls| - 1].n).0
  }

  predicate Admits(l: Limit, b: Bucket, calls: seq<Call>, i: nat)
    requires i < |calls|
  {
    Consume(l, After(l, b, calls[..i]), calls[i].now, calls[i].n).1
  }

  /** The demand that was let through. */
  function Admitted(l: Limit, b: Bucket, calls: seq<Call>): real
    decreases |calls|
  {
    if calls == [] then 0.0
    else
      var i := |calls| - 1;
      Admitted(l, b, calls[..i])
      + if Consume(l, After(l, b, calls[..i]), calls[i].now, calls[i].n).1 then calls[i].n else 0.0
  }

  /** Whatever the clock does, rollback included, no stretch of calls gets more than was in the bucket plus what
      flowed in while the bucket's clock advanced, up to the tolerance. */
  lemma {:induction false} AdmittedIsBounded(l: Limit, b: Bucket, calls: seq<Call>)
    requires Sane(l) && b.tokens >= -EPS
    ensures After(l, b, calls).tokens >= -EPS
    ensures After(l, b, calls).last >= b.last
    ensures Admitted(l, b, calls) + After(l, b, calls).tokens <= b.tokens + Gain(l, b.last, After(l, b, calls).last)
    ensures Admitted(l, b, calls) <= b.tokens + Gain(l, b.last, After(l, b, calls).last) + 0.000000001
    decreases |calls|
  {
    hide Gain;
    if calls == [] {
      GainGrows(l, b.last, b.last);
    } else {
      var before, c := calls[..|calls| - 1], calls[|calls| - 1];
      AdmittedIsBounded(l, b, before);
      var m := After(l, b, before);
      if c.now > m.last {
        GainAdds(l, b.last, m.last, c.now);
        GainGrows(l, m.last, c.now);
      }
    }
  }

  lemma {:induction false} NeverOverFull(l: Limit, b: Bucket, calls: seq<Call>)
    requires b.tokens <= l.burst && forall i :: 0 <= i < |calls| ==> calls[i].n >= 0.0
    ensures After(l, b, calls).tokens <= l.burst
    decreases |calls|
  {
    hide Gain;
    if calls != [] { NeverOverFull(l, b, calls[..|calls| - 1]); }
  }

  /** In any run of a new bucket, every stretch of calls is let at most a burst plus the rate times the
      advance of the bucket's clock. */
  lemma {:induction false} EveryStretchIsBounded(l: Limit, before: seq<Call>, stretch: seq<Call>)
    requires Sane(l) && forall i :: 0 <= i < |before| ==> before[i].n >= 0.0
    ensures var m := After(l, Full(l), before);
      Admitted(l, m, stretch) <= l.burst + Gain(l, m.last, After(l, m, stretch).last) + 0.000000001
  {
    hide Gain;
    NeverOverFull(l, Full(l), before);
    AdmittedIsBounded(l, Full(l), before);
    AdmittedIsBounded(l, After(l, Full(l), before), stretch);
  }

  // ---------- which traces are never rejected ----------

  /** The demand of calls `i` to `j`, both included. */
  function Demand(calls: seq<Call>, i: nat, j: nat): real
    requires i <= j < |calls|
    decreases j
  {
    if i == j then calls[j].n else Demand(calls, i, j - 1) + calls[j].n
  }

  ghost predicate Monotone(calls: seq<Call>) {
    && (forall i :: 0 <= i < |calls| ==> calls[i].now > 0.0)
    && (forall i, j :: 0 <= i <= j < |calls| ==> calls[i].now <= calls[j].now)
  }

  predicate WindowFits(l: Limit, calls: seq<Call>, i: nat, j: nat)
    requires i <= j < |calls|
  {
    Demand(calls, i, j) <= l.burst + Gain(l, calls[i].now, calls[j].now) + 0.000000001
  }

  /** Every window asks for at most the burst plus the rate times its length, and the tolerance. */
  ghost predicate Conforms(l: Limit, calls: seq<Call>) {
    forall i, j {:trigger WindowFits(l, calls, i, j)} :: 0 <= i <= j < |calls| ==> WindowFits(l, calls, i, j)
  }

  ghost predicate NeverRejected(l: Limit, calls: seq<Call>) {
    forall j {:trigger Admits(l, Full(l), calls, j)} :: 0 <= j < |calls| ==> Admits(l, Full(l), calls, j)
  }

  /** What window `i` leaves at call `j`, before that call takes its part. */
  function Left(l: Limit, calls: seq<Call>, i: nat, j: nat): real
    requires i <= j < |calls|
  {
    l.burst + Gain(l, calls[i].now, calls[j].now) - Demand(calls, i, j) + calls[j].n
  }

  /** While nothing is rejected, the bucket holds the least that any window leaves. */
  ghost predicate Tight(l: Limit, calls: seq<Call>, j: nat)
    requires j < |calls|
  {
    var t := Refill(l, After(l, Full(l), calls[..j]), calls[j].now);
    && t.last == calls[j].now
    && (forall i {:trigger Left(l, calls, i, j)} :: 0 <= i <= j ==> t.tokens <= Left(l, calls, i, j))
    && (exists i {:trigger Left(l, calls, i, j)} :: 0 <= i <= j && t.tokens == Left(l, calls, i, j))
  }

  lemma LeftStep(l: Limit, calls: seq<Call>, i: nat, j: nat)
    requires i < j < |calls|
    ensures Left(l, calls, i, j) == Left(l, calls, i, j - 1) - calls[j - 1].n + Gain(l, calls[j - 1].now, calls[j].now)
  {
    hide Gain;
    GainAdds(l, calls[i].now, calls[j - 1].now, calls[j].now);
  }

  lemma LeftNow(l: Limit, calls: seq<Call>, j: nat)
    requires j < |calls|
    ensures Left(l, calls, j, j) == l.burst
  {
  }

  lemma {:induction false} StaysTight(l: Limit, calls: seq<Call>, j: nat)
    requires Sane(l) && Monotone(calls) && j < |calls|
    requires forall k :: 0 <= k < |calls| ==> calls[k].n >= 0.0
    requires forall k {:trigger Admits(l, Full(l), calls, k)} :: 0 <= k < j ==> Admits(l, Full(l), calls, k)
    ensures Tight(l, calls, j)
    decreases j
  {
    hide Left, Gain;
    LeftNow(l, calls, j);
    var b, now := After(l, Full(l), calls[..j]), calls[j].now;
    if j == 0 {
      GainGrows(l, 0.0, now);
    } else {
      StaysTight(l, calls, j - 1);
      TightStep(l, calls, j);
    }
  }

  lemma TightStep(l: Limit, calls: seq<Call>, j: nat)
    requires Sane(l) && Monotone(calls) && 0 < j < |calls| && calls[j - 1].n >= 0.0
    requires Tight(l, calls, j - 1) && Admits(l, Full(l), calls, j - 1)
    ensures Tight(l, calls, j)
  {
    hide Left, Gain;
    var b, prev, now := After(l, Full(l), calls[..j]), calls[j - 1].now, calls[j].now;
    assert calls[..j][..j - 1] == calls[..j - 1];
    var t0 := Refill(l, After(l, Full(l), calls[..j - 1]), prev);
    assert b == t0.(tokens := t0.tokens - calls[j - 1].n);
    var t := b.tokens + Gain(l, prev, now);
    var r := Refill(l, b, now);
    GainZero(l, prev);
    assert prev <= now;
    LeftNow(l, calls, j);
    LeftNow(l, calls, j - 1);
    assert t0.tokens <= Left(l, calls, j - 1, j - 1);
    assert r.last == now && r.tokens == if t > l.burst then l.burst else t;
    forall i | 0 <= i <= j ensures r.tokens <= Left(l, calls, i, j) {
      if i < j { LeftStep(l, calls, i, j); }
    }
    var i :| 0 <= i <= j - 1 && t0.tokens == Left(l, calls, i, j - 1);
    LeftStep(l, calls, i, j);
    assert r.tokens == Left(l, calls, i, j) || r.tokens == Left(l, calls, j, j);
  }

  lemma GainZero(l: Limit, a: real)
    ensures Gain(l, a, a) == 0.0
  {
  }

  /** On a forward clock the bucket is exact: nothing is ever rejected if and only if every window conforms. */
  lemma NeverRejectedExactly(l: Limit, calls: seq<Call>)
    requires Sane(l) && Monotone(calls) && forall k :: 0 <= k < |calls| ==> calls[k].n >= 0.0
    ensures NeverRejected(l, calls) <==> Conforms(l, calls)
  {
    hide Gain, Monotone, Tight, After;
    if NeverRejected(l, calls) {
      forall i, j | 0 <= i <= j < |calls| ensures WindowFits(l, calls, i, j) {
        StaysTight(l, calls, j);
        AdmittedFits(l, calls, i, j);
      }
    }
    if Conforms(l, calls) { ConformingRun(l, calls, |calls|); }
  }

  lemma AdmittedFits(l: Limit, calls: seq<Call>, i: nat, j: nat)
    requires i <= j < |calls| && Tight(l, calls, j) && Admits(l, Full(l), calls, j)
    ensures WindowFits(l, calls, i, j)
  {
    hide Gain, Demand, After;
    assert Refill(l, After(l, Full(l), calls[..j]), calls[j].now).tokens <= Left(l, calls, i, j);
  }

  lemma {:induction false} ConformingRun(l: Limit, calls: seq<Call>, n: nat)
    requires Sane(l) && Monotone(calls) && Conforms(l, calls) && n <= |calls|
    requires forall k :: 0 <= k < |calls| ==> calls[k].n >= 0.0
    ensures forall j {:trigger Admits(l, Full(l), calls, j)} :: 0 <= j < n ==> Admits(l, Full(l), calls, j)
  {
    hide Gain, Demand, After, Monotone;
    if n > 0 {
      ConformingRun(l, calls, n - 1);
      StaysTight(l, calls, n - 1);
      FittingIsAdmitted(l, calls, n - 1);
    }
  }

  lemma FittingIsAdmitted(l: Limit, calls: seq<Call>, j: nat)
    requires j < |calls| && Tight(l, calls, j) && Conforms(l, calls)
    ensures Admits(l, Full(l), calls, j)
  {
    hide Gain, Demand, After;
    var i: nat :| i <= j && Refill(l, After(l, Full(l), calls[..j]), calls[j].now).tokens == Left(l, calls, i, j);
    assert WindowFits(l, calls, i, j);
  }

  // ---------- the code ----------

  class TokenBucket {
    const limit: Limit
    var tokens: real
    var lastRefill: real

    ghost function Value(): Bucket
      reads this
    {
      Bucket(tokens, lastRefill)
    }

    constructor (limit: Limit)
      ensures Value() == Full(limit) && this.limit == limit
    {
      this.limit := limit;
      tokens, lastRefill := limit.burst, 0.0;
    }

    method RefillAt(now: real)
      modifies this
      ensures Value() == Refill(limit, old(Value()), now)
    {
      if now <= lastRefill { return; }
      var add := (now - lastRefill) * limit.rate;
      tokens := tokens + add;
      if tokens > limit.burst { tokens := limit.burst; }
      lastRefill := now;
    }

    method TryConsume(now: real, n: real := 1.0) returns (ok: bool)
      modifies this
      ensures (Value(), ok) == Consume(limit, old(Value()), now, n)
    {
      RefillAt(now);
      if tokens + 0.000000001 < n { return false; }
      tokens := tokens - n;
      return true;
    }
  }
}
