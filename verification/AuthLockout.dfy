/** A connection that is dropped while its login is being entered locks its account out of password logins. */
module AuthLockout {
  import opened Bytes
  import opened Collections
  import opened Hash
  import opened Auth
  import opened AuthRuns
  import opened Tokens

  // ---------- runs without tokens ----------

  predicate NoTokens(events: seq<Event>) { forall i :: 0 <= i < |events| ==> !events[i].Resume? }

  ghost predicate Leads(u: Setup, s: State, events: seq<Event>, t: State)
    decreases |events|
  {
    if events == [] then s == t else Enabled(s, events[0]) && Leads(u, After(u, s, events[0]), events[1..], t)
  }

  ghost predicate CanBecome(u: Setup, s: State, t: State) {
    exists events :: NoTokens(events) && Leads(u, s, events, t)
  }

  lemma {:induction false} LeadsReached(u: Setup, before: seq<Event>, events: seq<Event>, t: State)
    requires Leads(u, Reached(u, before), events, t)
    ensures Reached(u, before + events) == t
    decreases |events|
  {
    hide Enabled, After;
    if events == [] {
      assert before + events == before;
    } else {
      var next := before + [events[0]];
      assert next[..|before|] == before;
      assert before + events == next + events[1..];
      LeadsReached(u, next, events[1..], t);
    }
  }

  lemma {:induction false} LeadsThen(u: Setup, s: State, events: seq<Event>, t: State, e: Event)
    requires Leads(u, s, events, t) && Enabled(t, e)
    ensures Leads(u, s, events + [e], After(u, t, e))
    decreases |events|
  {
    hide Enabled, After;
    if events == [] {
      assert [] + [e] == [e] && [e][1..] == [];
      assert Leads(u, After(u, t, e), [], After(u, t, e));
    } else {
      assert (events + [e])[1..] == events[1..] + [e];
      LeadsThen(u, After(u, s, events[0]), events[1..], t, e);
    }
  }

  lemma CanStay(u: Setup, s: State)
    ensures CanBecome(u, s, s)
  {
    assert NoTokens([]) && Leads(u, s, [], s);
  }

  lemma Then(u: Setup, s: State, t: State, e: Event)
    requires CanBecome(u, s, t) && Inv(u, t) && SessionsKnown(t) && Enabled(t, e) && !e.Resume?
    ensures CanBecome(u, s, After(u, t, e)) && Inv(u, After(u, t, e)) && SessionsKnown(After(u, t, e))
  {
    hide Leads, Inv, After, Enabled, SessionsKnown;
    var events :| NoTokens(events) && Leads(u, s, events, t);
    LeadsThen(u, s, events, t, e);
    assert NoTokens(events + [e]);
    StepKeeps(u, t, e);
    KnownStep(u, t, e);
  }

  // ---------- sessions that can be dropped ----------

  /** An entry in `online_` is a connection, and one that was not dropped is logged in under that name. */
  ghost predicate SessionsKnown(s: State) {
    && (forall n {:trigger s.online[n]} :: n in s.online ==>
          s.online[n] in s.conns && (s.conns[s.online[n]].listed ==> s.conns[s.online[n]].user == Some(n)))
    && (forall c {:trigger s.conns[c]} :: c in s.conns && s.conns[c].proven.Some? ==> s.conns[c].user.None?)
  }

  lemma KnownLogin(u: Setup, s: State, c: nat, name: bytes, proof: bytes, now: int)
    requires SessionsKnown(s) && c in s.conns && s.conns[c].proven.None?
    ensures SessionsKnown(LoggedIn(u, s, c, name, proof, now))
  {
    hide Auth.Login, SlotAfter, Answers;
  }

  lemma KnownEntry(u: Setup, s: State, c: nat, name: bytes, token: bytes, now: int, gcNow: int)
    requires SessionsKnown(s) && c in s.conns && s.conns[c].user.None?
    ensures SessionsKnown(Entered(u, s, c, name, token, now, gcNow))
  {
    hide Issued;
  }

  lemma KnownResume(u: Setup, s: State, c: nat, token: bytes, now: int, newToken: bytes, gcNow: int)
    requires SessionsKnown(s) && c in s.conns
    ensures SessionsKnown(Resumed(u, s, c, token, now, newToken, gcNow))
  {
    hide Entered, Checked;
    var (tokens, user) := Checked(u.f, s.tokens, token, now);
    if s.conns[c].user.None? && user.Some? {
      KnownEntry(u, s.(tokens := tokens), c, user.value, newToken, now, gcNow);
    }
  }

  lemma KnownDrop(s: State, c: nat)
    requires SessionsKnown(s) && c in s.conns
    ensures SessionsKnown(AuthRuns.Dropped(s, c))
  {
  }

  lemma KnownOther(u: Setup, s: State, e: Event)
    requires SessionsKnown(s) && Enabled(s, e) && !e.Login? && !e.Enter? && !e.Resume? && !e.Drop?
    ensures SessionsKnown(After(u, s, e))
  {
    hide RegisterFrame, RegisterHello, LoginHello;
  }

  lemma KnownStep(u: Setup, s: State, e: Event)
    requires SessionsKnown(s) && Enabled(s, e)
    ensures SessionsKnown(After(u, s, e))
  {
    hide Registered, LoggedIn, Entered, Resumed, AuthRuns.Dropped;
    match e
    case Login(c, name, proof, now) => KnownLogin(u, s, c, name, proof, now);
    case Enter(c, token, now, gcNow) => KnownEntry(u, s, c, s.conns[c].proven.value, token, now, gcNow);
    case Resume(c, token, now, newToken, gcNow) => KnownResume(u, s, c, token, now, newToken, gcNow);
    case Drop(c) => KnownDrop(s, c);
    case _ => KnownOther(u, s, e);
  }

  lemma {:induction false} RunsKnown(u: Setup, events: seq<Event>)
    ensures SessionsKnown(Reached(u, events))
  {
    hide After, Enabled;
    if events != [] {
      var s, e := Reached(u, events[..|events| - 1]), events[|events| - 1];
      RunsKnown(u, events[..|events| - 1]);
      if Enabled(s, e) { KnownStep(u, s, e); }
    }
  }

  // ---------- locked out ----------

  /** The account counts as online on a connection that is gone, and no login on a living one is about to replace it. */
  ghost predicate LockedOut(s: State, name: bytes) {
    && name in s.online && s.online[name] in s.conns && !s.conns[s.online[name]].listed
    && forall c {:trigger s.conns[c]} :: c in s.conns && s.conns[c].proven == Some(name) ==> !s.conns[c].listed
  }

  /** And nobody but the connections in `known` is or will be logged in to it. */
  ghost predicate Closed(s: State, name: bytes, known: set<nat>) {
    && LockedOut(s, name) && known <= s.conns.Keys
    && forall c {:trigger s.conns[c]} :: c in s.conns && c !in known ==>
         s.conns[c].user != Some(name) && s.conns[c].proven != Some(name)
  }

  lemma LoginClosed(u: Setup, s: State, c: nat, other: bytes, proof: bytes, now: int, name: bytes, known: set<nat>)
    requires Closed(s, name, known) && c in s.conns && s.conns[c].proven.None?
    ensures Closed(LoggedIn(u, s, c, other, proof, now), name, known)
  {
    hide Auth.Login, Answers, SlotAfter;
    OnlineRefused(u, s, other, proof, s.conns[c].slot, s.conns[c].user.Some?, now);
  }

  lemma OnlineRefused(u: Setup, s: State, name: bytes, proof: bytes, slot: Slot, authed: bool, now: int)
    ensures LoginFrame(u.f, s.accounts, u.pepper, authed, slot, name, proof, now, true).1 != Accepted
  {
    hide ChallengeProof, ApplyPepper, IsKey;
  }

  lemma ClosedStep(u: Setup, s: State, e: Event, name: bytes, known: set<nat>)
    requires Closed(s, name, known) && Enabled(s, e) && !e.Resume?
    ensures Closed(After(u, s, e), name, known)
  {
    hide RegisterFrame, LoginFrame, RegisterHello, LoginHello, Issued, LoggedIn;
    if e.Login? { LoginClosed(u, s, e.conn, e.name, e.proof, e.now, name, known); }
  }

  lemma {:induction false} StaysClosed(u: Setup, events: seq<Event>, more: seq<Event>, name: bytes)
    requires LockedOut(Reached(u, events), name) && NoTokens(more)
    ensures Closed(Reached(u, events + more), name, Reached(u, events).conns.Keys)
    decreases |more|
  {
    hide After, Enabled;
    if more == [] {
      assert events + more == events;
    } else {
      var n := |more| - 1;
      StaysClosed(u, events, more[..n], name);
      assert (events + more)[..|events + more| - 1] == events + more[..n];
      var s := Reached(u, events + more[..n]);
      if Enabled(s, more[n]) { ClosedStep(u, s, more[n], name, Reached(u, events).conns.Keys); }
    }
  }

  // ---------- a fresh login ----------

  const NONCE: bytes := Hex(Zeros(32))

  lemma NonceIsKey()
    ensures IsKey(NONCE)
  {
    HexIsKey(Zeros(32));
  }

  lemma {:induction false} FreshConn(s: set<nat>) returns (n: nat)
    ensures forall m :: m in s ==> m < n
  {
    if s == {} {
      n := 0;
    } else {
      var m :| m in s;
      n := FreshConn(s - {m});
      assert forall k :: k in s && k != m ==> k in s - {m};
      if n <= m { n := m + 1; }
    }
  }

  lemma Opened(u: Setup, s: State, c: nat)
    requires c !in s.conns
    ensures Enabled(s, Open(c)) && After(u, s, Open(c)) == WithConn(s, c, NEW_CONN)
  {
  }

  lemma Greeted(u: Setup, s: State, c: nat, name: bytes)
    requires c in s.conns && s.conns[c] == NEW_CONN && name in s.accounts && Delivery.ValidName(name)
    ensures Enabled(s, SayLogin(c, name, false, NONCE, 1, 1))
    ensures var t := After(u, s, SayLogin(c, name, false, NONCE, 1, 1));
      && c in t.conns && t == WithConn(s, c, t.conns[c])
      && t.conns[c].user.None? && t.conns[c].proven.None? && t.conns[c].listed
      && Answers(t.conns[c].slot.chal, name, false, 1) && t.conns[c].slot.chal.nonce == NONCE
  {
    hide Delivery.ValidName, IsKey;
    NonceIsKey();
  }

  lemma Passes(u: Setup, s: State, c: nat, name: bytes, proof: bytes)
    requires Enabled(s, Login(c, name, proof, 1)) && After(u, s, Login(c, name, proof, 1)).conns[c].proven == Some(name)
    requires s.conns[c].listed
    ensures var t := After(u, s, Login(c, name, proof, 1));
      && t.online == s.online && t.conns == s.conns[c := t.conns[c]] && t.conns[c].listed
          && t.conns[c].user == s.conns[c].user
      && t.accounts == s.accounts
  {
    hide LoginFrame;
  }

  lemma Twice(s: State, c: nat, a: Conn, b: Conn)
    ensures WithConn(WithConn(s, c, a), c, b) == WithConn(s, c, b)
    ensures WithConn(s, c, a).conns == s.conns[c := a] && WithConn(s, c, a).accounts == s.accounts
  {
    assert s.conns[c := a][c := b] == s.conns[c := b];
  }

  lemma FreshOpen(u: Setup, s: State) returns (t: State, c: nat)
    requires Inv(u, s) && SessionsKnown(s)
    ensures CanBecome(u, s, t) && Inv(u, t) && SessionsKnown(t) && c !in s.conns && t == WithConn(s, c, NEW_CONN)
  {
    hide Inv, CanBecome, After, Enabled, SessionsKnown, WithConn;
    c := FreshConn(s.conns.Keys);
    assert c !in s.conns.Keys;
    Opened(u, s, c);
    CanStay(u, s);
    Then(u, s, s, Open(c));
    t := After(u, s, Open(c));
  }

  /** A new connection, greeted. */
  lemma FreshGreeting(u: Setup, s: State, name: bytes) returns (t: State, c: nat)
    requires Inv(u, s) && SessionsKnown(s) && name in s.accounts
    ensures CanBecome(u, s, t) && Inv(u, t) && SessionsKnown(t) && c !in s.conns && c in t.conns
    ensures t == WithConn(s, c, t.conns[c]) && t.conns[c].user.None? && t.conns[c].proven.None? && t.conns[c].listed
    ensures Answers(t.conns[c].slot.chal, name, false, 1) && t.conns[c].slot.chal.nonce == NONCE
  {
    hide Inv, CanBecome, After, Enabled, SessionsKnown, Answers, WithConn;
    AccountFacts(u, s, name);
    var s1, c1 := FreshOpen(u, s);
    c := c1;
    Twice(s, c, NEW_CONN, NEW_CONN);
    Greeted(u, s1, c, name);
    Then(u, s, s1, SayLogin(c, name, false, NONCE, 1, 1));
    t := After(u, s1, SayLogin(c, name, false, NONCE, 1, 1));
    Twice(s, c, NEW_CONN, t.conns[c]);
  }

  /** And the proof for the registered key. */
  lemma FreshLogin(u: Setup, s: State, name: bytes) returns (t: State, c: nat)
    requires Inv(u, s) && SessionsKnown(s) && name in s.accounts && name !in s.online
    ensures CanBecome(u, s, t) && Inv(u, t) && SessionsKnown(t) && c !in s.conns && c in t.conns
    ensures t.conns[c].proven == Some(name) && t.conns[c].user.None? && t.conns[c].listed
    ensures t.conns == s.conns[c := t.conns[c]]
    ensures t.online == s.online && t.accounts == s.accounts
  {
    hide Inv, CanBecome, After, Enabled, SessionsKnown, ChallengeProof, Answers;
    var s2, c2 := FreshGreeting(u, s, name);
    c := c2;
    AccountFacts(u, s2, name);
    var proof := ChallengeProof(u.f, s2.keys[name], LOGIN, name, NONCE);
    CanTry(s2, c, name, proof);
    LoginDecides(u, s2, c, name, proof, 1);
    Passes(u, s2, c, name, proof);
    Then(u, s, s2, Login(c, name, proof, 1));
    t := After(u, s2, Login(c, name, proof, 1));
  }

  lemma CanTry(s: State, c: nat, name: bytes, proof: bytes)
    requires c in s.conns && s.conns[c].proven.None?
    ensures Enabled(s, Login(c, name, proof, 1))
  {
  }

  lemma AccountFacts(u: Setup, s: State, name: bytes)
    requires Inv(u, s) && name in s.accounts
    ensures name in s.keys && Delivery.ValidName(name) && IsKey(s.keys[name]) && IsKey(u.pepper)
  {
    hide LoginsOk, SessionsOk, ConnsOk, IsKey, Delivery.ValidName, ApplyPepper;
    assert name in s.accounts.Keys;
    assert AccountOk(u, name, s.accounts[name], s.keys[name]);
  }

  lemma EnterNow(u: Setup, s: State, c: nat, name: bytes)
    requires c in s.conns && s.conns[c].proven == Some(name)
    ensures Enabled(s, Enter(c, [], 0, 0))
    ensures var t := After(u, s, Enter(c, [], 0, 0));
      && t.conns == s.conns[c := s.conns[c].(user := Some(name), proven := None)] && t.online == s.online[name := c]
      && t.accounts == s.accounts
  {
    hide Issued;
  }

  lemma DropNow(u: Setup, s: State, c: nat)
    requires c in s.conns && s.conns[c].listed
    ensures Enabled(s, Drop(c))
    ensures var t := After(u, s, Drop(c));
      && t.conns == s.conns[c := s.conns[c].(listed := false, user := None)] && t.accounts == s.accounts
      && (s.conns[c].user.Some? && s.conns[c].user.value in s.online && s.online[s.conns[c].user.value] == c ==>
            t.online == s.online - {s.conns[c].user.value})
      && (s.conns[c].user.None? ==> t.online == s.online)
  {
  }

  /** Unless it is locked out, an account can be taken offline. */
  lemma TakeOffline(u: Setup, s: State, name: bytes) returns (t: State)
    requires Inv(u, s) && SessionsKnown(s) && !LockedOut(s, name) && name in s.accounts
    ensures CanBecome(u, s, t) && Inv(u, t) && SessionsKnown(t) && name !in t.online && name in t.accounts
    ensures s.conns.Keys == t.conns.Keys
  {
    hide Inv, CanBecome, After, Enabled;
    CanStay(u, s);
    if name !in s.online {
      t := s;
    } else if s.conns[s.online[name]].listed {
      var c := s.online[name];
      DropNow(u, s, c);
      Then(u, s, s, Drop(c));
      t := After(u, s, Drop(c));
    } else {
      var c :| c in s.conns && s.conns[c].proven == Some(name) && s.conns[c].listed;
      EnterNow(u, s, c, name);
      Then(u, s, s, Enter(c, [], 0, 0));
      var s1 := After(u, s, Enter(c, [], 0, 0));
      DropNow(u, s1, c);
      Then(u, s, s1, Drop(c));
      t := After(u, s1, Drop(c));
    }
  }

  // ---------- main results ----------

  ghost predicate NewSession(s: State, t: State, name: bytes) {
    exists c :: c in t.conns && c !in s.conns && t.conns[c].user == Some(name)
  }

  lemma LogsIn(u: Setup, s: State, name: bytes) returns (t: State)
    requires Inv(u, s) && SessionsKnown(s) && !LockedOut(s, name) && name in s.accounts
    ensures CanBecome(u, s, t) && NewSession(s, t, name)
  {
    hide Inv, CanBecome, After, Enabled, LockedOut, SessionsKnown;
    var s1 := TakeOffline(u, s, name);
    var s2, c := FreshLogin(u, s1, name);
    CanFollow(u, s, s1, s2);
    EnterNow(u, s2, c, name);
    Then(u, s, s2, Enter(c, [], 0, 0));
    t := After(u, s2, Enter(c, [], 0, 0));
    assert c !in s.conns.Keys;
    assert c in t.conns && c !in s.conns && t.conns[c].user == Some(name);
  }

  lemma {:induction false} LeadsOn(u: Setup, s: State, events: seq<Event>, t: State, more: seq<Event>, r: State)
    requires Leads(u, s, events, t) && Leads(u, t, more, r)
    ensures Leads(u, s, events + more, r)
    decreases |events|
  {
    hide Enabled, After;
    if events == [] {
      assert events + more == more;
    } else {
      assert (events + more)[1..] == events[1..] + more;
      LeadsOn(u, After(u, s, events[0]), events[1..], t, more, r);
    }
  }

  lemma CanFollow(u: Setup, s: State, t: State, r: State)
    requires CanBecome(u, s, t) && CanBecome(u, t, r)
    ensures CanBecome(u, s, r)
  {
    hide Leads;
    var first :| NoTokens(first) && Leads(u, s, first, t);
    var more :| NoTokens(more) && Leads(u, t, more, r);
    LeadsOn(u, s, first, t, more, r);
    assert NoTokens(first + more);
  }

  /** In any reached state, an account can still be logged in to with its password on a new connection exactly unless it
      is locked out. */
  lemma {:induction false} CanLogInExactly(u: Setup, events: seq<Event>, name: bytes)
    requires name in Reached(u, events).accounts
    ensures (exists more :: NoTokens(more) && NewSession(Reached(u, events), Reached(u, events + more), name))
            <==> !LockedOut(Reached(u, events), name)
  {
    hide Reached, Inv, Leads, LockedOut, SessionsKnown, Closed;
    var s := Reached(u, events);
    RunsKeep(u, events);
    RunsKnown(u, events);
    if !LockedOut(s, name) {
      var t := LogsIn(u, s, name);
      var more :| NoTokens(more) && Leads(u, s, more, t);
      LeadsReached(u, events, more, t);
    } else {
      forall more | NoTokens(more) ensures !NewSession(s, Reached(u, events + more), name) {
        StaysClosed(u, events, more, name);
        NoNewSession(s, Reached(u, events + more), name);
      }
    }
  }

  lemma NoNewSession(s: State, t: State, name: bytes)
    requires Closed(t, name, s.conns.Keys)
    ensures !NewSession(s, t, name)
  {
    forall c | c in t.conns && c !in s.conns ensures t.conns[c].user != Some(name) {
      assert c !in s.conns.Keys;
    }
  }

  /** It happens: wherever an account is not online, its own login can end like that, when the connection is dropped
      after the check of the proof and before the entry. */
  lemma {:induction false} DroppedLoginLocksOut(u: Setup, events: seq<Event>, name: bytes)
    requires name in Reached(u, events).accounts && name !in Reached(u, events).online
    requires forall c :: c in Reached(u, events).conns ==> Reached(u, events).conns[c].proven != Some(name)
    ensures exists more :: NoTokens(more) && LockedOut(Reached(u, events + more), name)
  {
    hide Reached, Inv, Leads, SessionsKnown, After, Enabled, CanBecome;
    var s := Reached(u, events);
    RunsKeep(u, events);
    RunsKnown(u, events);
    var s1, c := FreshLogin(u, s, name);
    DropNow(u, s1, c);
    Then(u, s, s1, Drop(c));
    var s2 := After(u, s1, Drop(c));
    EnterNow(u, s2, c, name);
    Then(u, s, s2, Enter(c, [], 0, 0));
    var t := After(u, s2, Enter(c, [], 0, 0));
    assert LockedOut(t, name);
    Found(u, events, s, t);
    var more :| NoTokens(more) && Reached(u, events + more) == t;
  }

  lemma Found(u: Setup, events: seq<Event>, s: State, t: State)
    requires s == Reached(u, events) && CanBecome(u, s, t)
    ensures exists more :: NoTokens(more) && Reached(u, events + more) == t
  {
    hide Reached, Leads;
    var more :| NoTokens(more) && Leads(u, s, more, t);
    LeadsReached(u, events, more, t);
  }
}
