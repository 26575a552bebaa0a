/** One token bucket per key, in a table that is cleaned when it is full (src/rate_limiter.cpp). */
module KeyedLimiter {
  import opened Bytes
  import opened Collections
  import opened TokenBucket

  datatype Entry = Entry(bucket: Bucket, lastSeen: real)
  type Table = map<bytes, Entry>

  datatype Config = Config(limit: Limit, maxKeys: nat, idle: real)

  // ---------- what one call does ----------

  function Idle(c: Config, t: Table, now: real): set<bytes> { set k | k in t && now - t[k].lastSeen > c.idle }

  /** Half of the entries go when no idle ones could make room. Which half is the table's order, left open here. */
  predicate HalfOf(t: Table, victims: set<bytes>) { victims <= t.Keys && |victims| == |t| / 2 }

  predicate Crowded(c: Config, t: Table, now: real) { |t - Idle(c, t, now)| >= c.maxKeys }

  predicate CanDrop(c: Config, t: Table, now: real, victims: set<bytes>) {
    Crowded(c, t, now) ==> HalfOf(t - Idle(c, t, now), victims)
  }

  function Cleaned(c: Config, t: Table, now: real, victims: set<bytes>): Table {
    var kept := t - Idle(c, t, now);
    if Crowded(c, t, now) then kept - victims else kept
  }

  function Opened(c: Config, t: Table, key: bytes, now: real, victims: set<bytes>): (r: Table)
    ensures key in r
  {
    if key in t then t
    else (if |t| >= c.maxKeys then Cleaned(c, t, now, victims) else t)[key := Entry(Full(c.limit), now)]
  }

  function Allowed(c: Config, t: Table, key: bytes, now: real, victims: set<bytes>): (Table, bool) {
    var t1 := Opened(c, t, key, now, victims);
    var (b, ok) := Consume(c.limit, t1[key].bucket, now, 1.0);
    (t1[key := Entry(b, now)], ok)
  }

  // ---------- runs ----------

  datatype Ask = Ask(key: bytes, now: real, victims: set<bytes>)

  function After(c: Config, calls: seq<Ask>): Table
    decreases |calls|
  {
    if calls == [] then map[]
    else
      var n := |calls| - 1;
      Allowed(c, After(c, calls[..n]), calls[n].key, calls[n].now, calls[n].victims).0
  }

  /** Whether call `i` was let through. */
  predicate Admits(c: Config, calls: seq<Ask>, i: nat)
    requires i < |calls|
  {
    Allowed(c, After(c, calls[..i]), calls[i].key, calls[i].now, calls[i].victims).1
  }

  predicate Cleans(c: Config, t: Table, call: Ask) { call.key !in t && |t| >= c.maxKeys }

  ghost predicate Possible(c: Config, calls: seq<Ask>) {
    forall i {:trigger calls[i]} :: 0 <= i < |calls| && Cleans(c, After(c, calls[..i]), calls[i]) ==>
      CanDrop(c, After(c, calls[..i]), calls[i].now, calls[i].victims)
  }

  // ---------- the table stays small ----------

  lemma CleanedSize(c: Config, t: Table, now: real, victims: set<bytes>)
    requires |t| <= c.maxKeys && c.maxKeys >= 2 && CanDrop(c, t, now, victims)
    ensures |Cleaned(c, t, now, victims)| < c.maxKeys
  {
    var kept := t - Idle(c, t, now);
    SubsetSize(kept.Keys, t.Keys);
    assert |kept| == |kept.Keys| && |t| == |t.Keys|;
    if Crowded(c, t, now) {
      assert (kept - victims).Keys == kept.Keys - victims;
      assert |kept - victims| == |(kept - victims).Keys|;
    }
  }

  lemma {:induction false} StaysSmall(c: Config, calls: seq<Ask>)
    requires c.maxKeys >= 2 && Possible(c, calls)
    ensures |After(c, calls)| <= c.maxKeys
    decreases |calls|
  {
    hide Cleaned, CanDrop;
    if calls != [] {
      var n := |calls| - 1;
      var before, e := calls[..n], calls[n];
      PossiblePrefix(c, calls);
      StaysSmall(c, before);
      var t := After(c, before);
      if Cleans(c, t, e) { CleanedSize(c, t, e.now, e.victims); }
      OpenedSize(c, t, e.key, e.now, e.victims);
    }
  }

  lemma PossiblePrefix(c: Config, calls: seq<Ask>)
    requires Possible(c, calls) && calls != []
    ensures Possible(c, calls[..|calls| - 1])
  {
    hide CanDrop, After;
    var before := calls[..|calls| - 1];
    forall i | 0 <= i < |before| && Cleans(c, After(c, before[..i]), before[i])
      ensures CanDrop(c, After(c, before[..i]), before[i].now, before[i].victims)
    {
      assert before[..i] == calls[..i] && before[i] == calls[i];
    }
  }

  lemma OpenedSize(c: Config, t: Table, key: bytes, now: real, victims: set<bytes>)
    requires |t| <= c.maxKeys
    requires key !in t && |t| >= c.maxKeys ==> |Cleaned(c, t, now, victims)| < c.maxKeys
    ensures |Allowed(c, t, key, now, victims).0| <= c.maxKeys
  {
    hide Cleaned, Consume;
    var t1 := Opened(c, t, key, now, victims);
    var t2 := Allowed(c, t, key, now, victims).0;
    assert t2.Keys == t1.Keys && |t2| == |t2.Keys| && |t1| == |t1.Keys|;
    if key !in t {
      var base := if |t| >= c.maxKeys then Cleaned(c, t, now, victims) else t;
      assert t1.Keys == base.Keys + {key} && |base| == |base.Keys|;
      assert |base.Keys + {key}| <= |base.Keys| + 1;
    }
  }

  /** Halving a table of one or none drops nothing. */
  lemma NothingToHalve(c: Config, t: Table, key: bytes, now: real)
    requires |t| <= 1 && c.idle >= 0.0 && forall k :: k in t ==> t[k].lastSeen == now
    ensures CanDrop(c, t, now, {})
    ensures Allowed(c, t, key, now, {}).0.Keys == t.Keys + {key}
    ensures forall k :: k in Allowed(c, t, key, now, {}).0 ==> Allowed(c, t, key, now, {}).0[k].lastSeen == now
  {
    assert Idle(c, t, now) == {};
    assert t - {} == t;
  }

  /** So a bound of one key or none is not kept. */
  lemma TooSmallOverflows(c: Config)
    requires c.maxKeys <= 1 && c.idle >= 0.0
    ensures var calls := [Ask([1], 1.0, {}), Ask([2], 1.0, {})];
      Possible(c, calls) && |After(c, calls)| > c.maxKeys
  {
    hide Allowed, CanDrop;
    var a, b := Ask([1], 1.0, {}), Ask([2], 1.0, {});
    var calls := [a, b];
    assert calls[..0] == [] && calls[..1] == [a] && [a][..0] == [];
    NothingToHalve(c, map[], [1], 1.0);
    assert After(c, [a]) == Allowed(c, map[], [1], 1.0, {}).0;
    var t1, t2 := After(c, [a]), After(c, calls);
    assert t1.Keys == {[1]} && |t1| == |t1.Keys|;
    NothingToHalve(c, t1, [2], 1.0);
    assert t2.Keys == {[1], [2]} && |t2| == |t2.Keys|;
    forall i | 0 <= i < |calls| && Cleans(c, After(c, calls[..i]), calls[i])
      ensures CanDrop(c, After(c, calls[..i]), calls[i].now, calls[i].victims)
    {
      assert i == 0 || i == 1;
    }
  }

  /** The table keeps to its bound in every run exactly when the bound is at least two. */
  lemma BoundedExactly(c: Config)
    requires c.idle >= 0.0
    ensures (forall calls :: Possible(c, calls) ==> |After(c, calls)| <= c.maxKeys) <==> c.maxKeys >= 2
  {
    if c.maxKeys >= 2 {
      forall calls | Possible(c, calls) ensures |After(c, calls)| <= c.maxKeys {
        StaysSmall(c, calls);
      }
    } else {
      TooSmallOverflows(c);
    }
  }

  // ---------- which keys stay ----------

  /** When a key was asked for last, by the calls alone. */
  function LastUse(calls: seq<Ask>, key: bytes): Option<real> {
    if calls == [] then None
    else if calls[|calls| - 1].key == key then Some(calls[|calls| - 1].now)
    else LastUse(calls[..|calls| - 1], key)
  }

  lemma {:induction false} SeenIsLastUse(c: Config, calls: seq<Ask>, key: bytes)
    requires key in After(c, calls)
    ensures LastUse(calls, key) == Some(After(c, calls)[key].lastSeen)
    decreases |calls|
  {
    hide Consume;
    var n := |calls| - 1;
    if calls[n].key != key { SeenIsLastUse(c, calls[..n], key); }
  }

  /** The keys of the table that were used within the idle time. */
  ghost function Recent(c: Config, calls: seq<Ask>, now: real): set<bytes> {
    set k | k in After(c, calls) && LastUse(calls, k).Some? && now - LastUse(calls, k).value <= c.idle
  }

  function UsedSince(c: Config, t: Table, now: real): set<bytes> { set k | k in t && now - t[k].lastSeen <= c.idle }

  lemma CleanedKeys(c: Config, t: Table, now: real, victims: set<bytes>)
    ensures var recent := UsedSince(c, t, now);
      && (Crowded(c, t, now) <==> |recent| >= c.maxKeys)
      && Cleaned(c, t, now, victims).Keys == (if |recent| < c.maxKeys then recent else recent - victims)
      && (CanDrop(c, t, now, victims) && |recent| >= c.maxKeys ==> victims <= recent && |victims| == |recent| / 2)
  {
    var kept, recent := t - Idle(c, t, now), UsedSince(c, t, now);
    assert kept.Keys == recent;
    assert |kept| == |kept.Keys|;
    assert (kept - victims).Keys == recent - victims;
  }

  lemma AllowedKeys(c: Config, t: Table, e: Ask)
    ensures Allowed(c, t, e.key, e.now, e.victims).0.Keys
            == (if Cleans(c, t, e) then Cleaned(c, t, e.now, e.victims).Keys else t.Keys) + {e.key}
  {
    hide Consume, Cleaned;
  }

  lemma SizeAfter(recent: set<bytes>, victims: set<bytes>, key: bytes)
    requires victims <= recent && key !in recent
    ensures |recent - victims + {key}| == |recent| - |victims| + 1
  {
    assert recent == (recent - victims) + victims;
  }

  lemma LastCall(c: Config, calls: seq<Ask>, e: Ask)
    requires Possible(c, calls + [e])
    ensures After(c, calls + [e]) == Allowed(c, After(c, calls), e.key, e.now, e.victims).0
    ensures Cleans(c, After(c, calls), e) ==> CanDrop(c, After(c, calls), e.now, e.victims)
  {
    hide Allowed, CanDrop;
    var all := calls + [e];
    assert all[..|all| - 1] == calls && all[..|calls|] == calls && all[|calls|] == e;
  }

  lemma RecentIsUsed(c: Config, calls: seq<Ask>, now: real)
    ensures Recent(c, calls, now) == UsedSince(c, After(c, calls), now)
  {
    hide LastUse, After;
    forall k | k in After(c, calls) ensures LastUse(calls, k) == Some(After(c, calls)[k].lastSeen) {
      SeenIsLastUse(c, calls, k);
    }
  }

  /** What one more call leaves in the table: everything, as long as there is room; otherwise exactly the keys used
      within the idle time, and half of those if there are still too many. */
  lemma KeptExactly(c: Config, calls: seq<Ask>, e: Ask)
    requires Possible(c, calls + [e])
    ensures var t, t', recent := After(c, calls), After(c, calls + [e]), Recent(c, calls, e.now);
      if e.key in t || |t| < c.maxKeys then t'.Keys == t.Keys + {e.key}
      else if |recent| < c.maxKeys then t'.Keys == recent + {e.key}
      else t'.Keys <= recent + {e.key} && |t'| == |recent| - |recent| / 2 + 1
  {
    hide After, Allowed, Cleaned, CanDrop, Recent;
    var t := After(c, calls);
    LastCall(c, calls, e);
    AllowedKeys(c, t, e);
    RecentIsUsed(c, calls, e.now);
    var recent := Recent(c, calls, e.now);
    var t' := After(c, calls + [e]);
    assert |t'| == |t'.Keys|;
    if Cleans(c, t, e) {
      CleanedKeys(c, t, e.now, e.victims);
      if |recent| >= c.maxKeys { SizeAfter(recent, e.victims, e.key); }
    }
  }

  // ---------- cleaning idle keys is invisible ----------

  /** The same limiter with a table that only grows: a bucket per key, never evicted. */
  function Ideal(c: Config, calls: seq<Ask>): map<bytes, Bucket>
    decreases |calls|
  {
    if calls == [] then map[]
    else
      var n := |calls| - 1;
      IdealStep(c, Ideal(c, calls[..n]), calls[n]).0
  }

  function IdealStep(c: Config, m: map<bytes, Bucket>, e: Ask): (map<bytes, Bucket>, bool) {
    var (b, ok) := Consume(c.limit, if e.key in m then m[e.key] else Full(c.limit), e.now, 1.0);
    (m[e.key := b], ok)
  }

  predicate IdealAdmits(c: Config, calls: seq<Ask>, i: nat)
    requires i < |calls|
  {
    IdealStep(c, Ideal(c, calls[..i]), calls[i]).1
  }

  ghost predicate Forward(calls: seq<Ask>) {
    && (forall i :: 0 <= i < |calls| ==> calls[i].now > 0.0)
    && (forall i, j :: 0 <= i <= j < |calls| ==> calls[i].now <= calls[j].now)
  }

  /** No call finds the table full of keys that are still in use. */
  ghost predicate NeverCrowded(c: Config, calls: seq<Ask>) {
    forall i {:trigger calls[i]} :: 0 <= i < |calls| && Cleans(c, After(c, calls[..i]), calls[i]) ==>
      !Crowded(c, After(c, calls[..i]), calls[i].now)
  }

  /** An idle key's bucket is full again by the time that it may be dropped. */
  predicate SlowEnough(c: Config) { Sane(c.limit) && c.limit.rate * c.idle >= c.limit.burst + EPS }

  ghost predicate KeyOk(c: Config, t: Table, m: map<bytes, Bucket>, clock: real, k: bytes)
    requires k in m
  {
    && m[k].tokens >= -EPS && m[k].last <= clock && m[k].last > 0.0
    && (k in t ==> t[k] == Entry(m[k], m[k].last))
    && (k !in t ==> clock - m[k].last > c.idle)
  }

  ghost predicate Matches(c: Config, t: Table, m: map<bytes, Bucket>, clock: real) {
    && (forall k :: k in t ==> k in m)
    && (forall k {:trigger KeyOk(c, t, m, clock, k)} :: k in m ==> KeyOk(c, t, m, clock, k))
  }

  /** A bucket that was idle that long takes the next call as a new one would. */
  lemma IdleIsFull(c: Config, b: Bucket, now: real)
    requires SlowEnough(c) && b.tokens >= -EPS && b.last > 0.0 && now - b.last > c.idle && now > 0.0
    requires b.last < now
    ensures Refill(c.limit, b, now) == Refill(c.limit, Full(c.limit), now) == Bucket(c.limit.burst, now)
  {
    var l := c.limit;
    FasterGain(l, c.idle, now - b.last);
    FasterGain(l, 0.0, now);
    assert Gain(l, b.last, now) == (now - b.last) * l.rate && Gain(l, 0.0, now) == now * l.rate;
    assert b.tokens + Gain(l, b.last, now) >= l.burst && l.burst + Gain(l, 0.0, now) >= l.burst;
    FilledUp(l, b, now);
    FilledUp(l, Full(l), now);
  }

  lemma FilledUp(l: Limit, b: Bucket, now: real)
    requires b.last < now && b.tokens + Gain(l, b.last, now) >= l.burst
    ensures Refill(l, b, now) == Bucket(l.burst, now)
  {
    hide Gain;
  }

  lemma FasterGain(l: Limit, a: real, b: real)
    requires Sane(l) && a <= b
    ensures l.rate * a <= l.rate * b == b * l.rate
  {
  }

  lemma IdleIsPositive(c: Config)
    requires SlowEnough(c)
    ensures c.idle > 0.0
  {
    if c.idle <= 0.0 { FasterGain(c.limit, c.idle, 0.0); }
  }

  lemma RefilledOk(l: Limit, b: Bucket, now: real)
    requires Sane(l) && b.tokens >= -EPS && b.last <= now
    ensures Refill(l, b, now).last == now && Refill(l, b, now).tokens >= -EPS
  {
    hide Gain;
    GainGrows(l, b.last, now);
  }

  /** The key of a call comes out the same, with the same answer. */
  lemma SameAnswer(c: Config, t: Table, m: map<bytes, Bucket>, clock: real, e: Ask)
    requires SlowEnough(c) && Matches(c, t, m, clock) && clock <= e.now && e.now > 0.0
    requires Cleans(c, t, e) ==> !Crowded(c, t, e.now)
    ensures Allowed(c, t, e.key, e.now, e.victims).1 == IdealStep(c, m, e).1
    ensures Allowed(c, t, e.key, e.now, e.victims).0[e.key] == Entry(IdealStep(c, m, e).0[e.key], e.now)
    ensures IdealStep(c, m, e).0[e.key].last == e.now && IdealStep(c, m, e).0[e.key].tokens >= -EPS
  {
    hide Refill, Cleaned, Crowded, SlowEnough;
    IdleIsPositive(c);
    var b := if e.key in m then m[e.key] else Full(c.limit);
    var b' := if e.key in t then t[e.key].bucket else Full(c.limit);
    if e.key in m {
      assert KeyOk(c, t, m, clock, e.key);
      if e.key !in t { IdleIsFull(c, m[e.key], e.now); }
    }
    assert Refill(c.limit, b, e.now) == Refill(c.limit, b', e.now);
    SaneLimit(c);
    RefilledOk(c.limit, b, e.now);
  }

  lemma SaneLimit(c: Config)
    requires SlowEnough(c)
    ensures Sane(c.limit)
  {
  }

  lemma StillMatches(c: Config, t: Table, m: map<bytes, Bucket>, clock: real, e: Ask)
    requires SlowEnough(c) && Matches(c, t, m, clock) && clock <= e.now && e.now > 0.0
    requires Cleans(c, t, e) ==> !Crowded(c, t, e.now)
    ensures Matches(c, Allowed(c, t, e.key, e.now, e.victims).0, IdealStep(c, m, e).0, e.now)
  {
    SameAnswer(c, t, m, clock, e);
    var t', m' := Allowed(c, t, e.key, e.now, e.victims).0, IdealStep(c, m, e).0;
    OthersKept(c, t, e);
    forall k | k in m' ensures KeyOk(c, t', m', e.now, k) {
      hide Allowed, Consume;
      if k != e.key { assert KeyOk(c, t, m, clock, k); }
    }
  }

  /** Cleaning without crowding drops idle keys only. */
  lemma OthersKept(c: Config, t: Table, e: Ask)
    requires Cleans(c, t, e) ==> !Crowded(c, t, e.now)
    ensures var t' := Allowed(c, t, e.key, e.now, e.victims).0;
      && e.key in t'
      && (forall k :: k in t' && k != e.key ==> k in t && t'[k] == t[k])
      && (forall k :: k in t && k != e.key && k !in t' ==> e.now - t[k].lastSeen > c.idle)
  {
    hide Consume;
  }

  lemma {:induction false} MatchesThroughout(c: Config, calls: seq<Ask>)
    requires SlowEnough(c) && Forward(calls) && NeverCrowded(c, calls)
    ensures Matches(c, After(c, calls), Ideal(c, calls), if calls == [] then 0.0 else calls[|calls| - 1].now)
    decreases |calls|
  {
    hide Matches, Allowed, IdealStep;
    if calls == [] {
      NothingMatches(c);
    } else {
      var n := |calls| - 1;
      ForwardPrefix(c, calls);
      MatchesThroughout(c, calls[..n]);
      var clock := if n == 0 then 0.0 else calls[n - 1].now;
      assert n > 0 ==> calls[..n][n - 1] == calls[n - 1];
      StillMatches(c, After(c, calls[..n]), Ideal(c, calls[..n]), clock, calls[n]);
    }
  }

  lemma NothingMatches(c: Config)
    ensures Matches(c, map[], map[], 0.0)
  {
  }

  lemma ForwardPrefix(c: Config, calls: seq<Ask>)
    requires Forward(calls) && NeverCrowded(c, calls) && calls != []
    ensures Forward(calls[..|calls| - 1]) && NeverCrowded(c, calls[..|calls| - 1])
  {
    hide Crowded, After;
    var before := calls[..|calls| - 1];
    forall i | 0 <= i < |before| && Cleans(c, After(c, before[..i]), before[i])
      ensures !Crowded(c, After(c, before[..i]), before[i].now)
    {
      assert before[..i] == calls[..i] && before[i] == calls[i];
    }
  }

  /** Every call is answered as if no bucket had ever been evicted. */
  lemma EvictionIsInvisible(c: Config, calls: seq<Ask>, i: nat)
    requires SlowEnough(c) && Forward(calls) && NeverCrowded(c, calls) && i < |calls|
    ensures Admits(c, calls, i) == IdealAdmits(c, calls, i)
  {
    hide Matches, Allowed, IdealStep, NeverCrowded, Forward;
    PrefixForward(c, calls, i);
    MatchesThroughout(c, calls[..i]);
    var clock := if i == 0 then 0.0 else calls[i - 1].now;
    assert i > 0 ==> calls[..i][i - 1] == calls[i - 1];
    ClockOk(c, calls, i);
    SameAnswer(c, After(c, calls[..i]), Ideal(c, calls[..i]), clock, calls[i]);
  }

  lemma ClockOk(c: Config, calls: seq<Ask>, i: nat)
    requires Forward(calls) && NeverCrowded(c, calls) && i < |calls|
    ensures calls[i].now > 0.0 && (i > 0 ==> calls[i - 1].now <= calls[i].now)
    ensures Cleans(c, After(c, calls[..i]), calls[i]) ==> !Crowded(c, After(c, calls[..i]), calls[i].now)
  {
    hide Crowded, After;
  }

  lemma {:induction false} PrefixForward(c: Config, calls: seq<Ask>, i: nat)
    requires Forward(calls) && NeverCrowded(c, calls) && i <= |calls|
    ensures Forward(calls[..i]) && NeverCrowded(c, calls[..i])
    decreases |calls| - i
  {
    hide Crowded, After, Forward, NeverCrowded;
    if i == |calls| {
      assert calls[..i] == calls;
    } else {
      PrefixForward(c, calls, i + 1);
      ForwardPrefix(c, calls[..i + 1]);
      assert calls[..i + 1][..i] == calls[..i];
    }
  }

  // ---------- the code ----------

  lemma AllVictims(keys: set<bytes>, victims: set<bytes>)
    requires victims <= keys && forall k :: k in keys ==> k in victims
    ensures keys == victims
  {
  }

  class KeyedRateLimiter {
    const config: Config
    var table: Table
    var hits: nat
    var rejects: nat

    constructor (config: Config)
      ensures table == map[] && this.config == config && hits == rejects == 0
    {
      this.config := config;
      table, hits, rejects := map[], 0, 0;
    }

    method Allow(key: bytes, now: real) returns (ok: bool, ghost victims: set<bytes>)
      modifies this
      ensures Cleans(config, old(table), Ask(key, now, victims)) ==> CanDrop(config, old(table), now, victims)
      ensures (table, ok) == Allowed(config, old(table), key, now, victims)
      ensures hits == old(hits) + (if ok then 1 else 0) && rejects == old(rejects) + (if ok then 0 else 1)
    {
      hide Cleaned, CanDrop;
      victims := {};
      if key !in table {
        if |table| >= config.maxKeys { victims := GcLocked(now); }
        table := table[key := Entry(Full(config.limit), now)];
      }
      var bucket := table[key].bucket;
      var (b, admitted) := Consume(config.limit, bucket, now, 1.0);
      table := table[key := Entry(b, now)];
      ok := admitted;
      if ok { hits := hits + 1; } else { rejects := rejects + 1; }
    }

    method GcLocked(now: real) returns (ghost victims: set<bytes>)
      modifies this`table
      ensures CanDrop(config, old(table), now, victims)
      ensures table == Cleaned(config, old(table), now, victims)
    {
      ghost var before := table;
      var left := table.Keys;
      while left != {}
        invariant left <= table.Keys <= before.Keys
        invariant forall k :: k in table ==> table[k] == before[k]
        invariant forall k :: k in before && k !in left ==> (k in table <==> now - before[k].lastSeen <= config.idle)
        decreases left
      {
        var k :| k in left;
        left := left - {k};
        if now - table[k].lastSeen > config.idle { table := table - {k}; }
      }
      assert table == before - Idle(config, before, now);
      victims := {};
      if |table| >= config.maxKeys {
        ghost var kept := table;
        var drop := |table| / 2;
        while drop > 0 && table.Keys != {}
          invariant 0 <= drop && drop + |victims| == |kept| / 2
          invariant victims <= kept.Keys && table == kept - victims
          decreases drop
        {
          var k :| k in table.Keys;
          table := table - {k};
          victims := victims + {k};
          drop := drop - 1;
        }
        EmptyTable(kept, victims, drop);
      }
    }

    lemma EmptyTable(kept: Table, victims: set<bytes>, drop: int)
      requires table == kept - victims && victims <= kept.Keys && 0 <= drop && drop + |victims| == |kept| / 2
      requires drop == 0 || table.Keys == {}
      ensures drop == 0
    {
      assert forall k :: k in kept && k !in victims ==> k in table;
      assert |kept| == |kept.Keys|;
      if table.Keys == {} { AllVictims(kept.Keys, victims); }
    }
  }
}
