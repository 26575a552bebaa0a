/** Registrations, logins, resumed sessions and dropped connections of all clients together, one step at a time. */
module AuthRuns {
  import opened Bytes
  import opened Collections
  import opened Hash
  import opened Kdf
  import opened Auth
  import opened Tokens

  // ---------- states ----------

  /** `user` is the account that a connection is logged in to, and `proven` one whose login passed its checks while
      its thread has not yet entered it into `online_`. */
  datatype Conn = Conn(slot: Slot, user: Option<bytes>, proven: Option<bytes>, listed: bool)

  /** A login that passed: which challenge of which connection was answered, for whom and with what proof. */
  datatype Passed = Passed(conn: nat, which: nat, name: bytes, proof: bytes)

  /** `keys` is the history of registrations and `logins` that of password logins. */
  datatype State = State(accounts: Accounts, online: map<bytes, nat>, tokens: Book, conns: map<nat, Conn>,
                         keys: map<bytes, bytes>, logins: seq<Passed>)

  /** What stays the same: the compression function, the pepper and the life of a token. */
  datatype Setup = Setup(f: Compress, pepper: bytes, ttl: int)

  const START := State(map[], map[], map[], map[], map[], [])
  const NEW_CONN := Conn(Slot(NO_CHALLENGE, [], []), None, None, true)

  // ---------- events ----------

  datatype Event =
    | Open(conn: nat)
    | SayRegister(conn: nat, name: bytes, limited: bool, salt: bytes, nonce: bytes, now: int, later: int)
    | SayLogin(conn: nat, name: bytes, limited: bool, nonce: bytes, now: int, later: int)
    | Register(conn: nat, name: bytes, derived: bytes, proof: bytes, now: int, dbOk: bool)
    | Login(conn: nat, name: bytes, proof: bytes, now: int)
    | Enter(conn: nat, token: bytes, now: int, gcNow: int)
    | Resume(conn: nat, token: bytes, now: int, newToken: bytes, gcNow: int)
    | Drop(conn: nat)

  /** Each connection has one thread, so a handler starts only after the last one is done. Nonces have 32 bytes. */
  predicate Enabled(s: State, e: Event) {
    match e
    case Open(c) => c !in s.conns
    case SayRegister(c, _, _, _, nonce, _, _) => c in s.conns && s.conns[c].proven.None? && IsKey(nonce)
    case SayLogin(c, _, _, nonce, _, _) => c in s.conns && s.conns[c].proven.None? && IsKey(nonce)
    case Register(c, _, _, _, _, _) => c in s.conns && s.conns[c].proven.None?
    case Login(c, _, _, _) => c in s.conns && s.conns[c].proven.None?
    case Enter(c, _, _, _) => c in s.conns && s.conns[c].proven.Some?
    case Resume(c, _, _, _, _) => c in s.conns && s.conns[c].proven.None?
    case Drop(c) => c in s.conns
  }

  function WithConn(s: State, c: nat, conn: Conn): State { s.(conns := s.conns[c := conn]) }

  function Registered(u: Setup, s: State, c: nat, name: bytes, derived: bytes, proof: bytes, now: int,
                      dbOk: bool): State
    requires c in s.conns
  {
    var conn := s.conns[c];
    var (accounts, slot, v) := RegisterFrame(u.f, s.accounts, u.pepper, conn.user.Some?, conn.slot, name, derived,
        proof, now, dbOk);
    var keys := if v == Accepted then s.keys[name := derived] else s.keys;
    WithConn(s, c, conn.(slot := slot)).(accounts := accounts, keys := keys)
  }

  function LoggedIn(u: Setup, s: State, c: nat, name: bytes, proof: bytes, now: int): State
    requires c in s.conns
  {
    var conn := s.conns[c];
    var (slot, v) := LoginFrame(u.f, s.accounts, u.pepper, conn.user.Some?, conn.slot, name, proof, now,
        name in s.online);
    if v != Accepted then WithConn(s, c, conn.(slot := slot))
    else
      var which: int := |conn.slot.generated| - 1;
      var pass := if which >= 0 then [Passed(c, which, name, proof)] else [];
      WithConn(s, c, conn.(slot := slot, proven := Some(name))).(logins := s.logins + pass)
  }

  /** The table of sessions and a token; shared by both ways to log in. */
  function Entered(u: Setup, s: State, c: nat, name: bytes, token: bytes, now: int, gcNow: int): State
    requires c in s.conns
  {
    WithConn(s, c, s.conns[c].(user := Some(name), proven := None))
    .(online := s.online[name := c], tokens := Issued(u.f, u.ttl, s.tokens, name, token, now, gcNow))
  }

  /** `doAuth`: a token stands for the session that it was issued in, whatever connection has it now. */
  function Resumed(u: Setup, s: State, c: nat, token: bytes, now: int, newToken: bytes, gcNow: int): State
    requires c in s.conns
  {
    if s.conns[c].user.Some? then s
    else
      var (tokens, user) := Checked(u.f, s.tokens, token, now);
      var s' := s.(tokens := tokens);
      if user.None? then s' else Entered(u, s', c, user.value, newToken, now, gcNow)
  }

  /** `dropConn`, once per connection. */
  function Dropped(s: State, c: nat): State
    requires c in s.conns
  {
    var conn := s.conns[c];
    if !conn.listed then s
    else
      var mine := conn.user.Some? && conn.user.value in s.online && s.online[conn.user.value] == c;
      WithConn(s, c, conn.(listed := false, user := None))
      .(online := if mine then s.online - {conn.user.value} else s.online)
  }

  function After(u: Setup, s: State, e: Event): State
    requires Enabled(s, e)
  {
    match e
    case Open(c) => WithConn(s, c, NEW_CONN)
    case SayRegister(c, name, limited, salt, nonce, now, later) =>
      var conn := s.conns[c];
      var hello := RegisterHello(s.accounts, conn.user.Some?, limited, conn.slot, name, salt, nonce, now, later);
      WithConn(s, c, conn.(slot := hello.0))
    case SayLogin(c, name, limited, nonce, now, later) =>
      var conn := s.conns[c];
      var hello := LoginHello(s.accounts, conn.user.Some?, limited, conn.slot, name, nonce, now, later);
      WithConn(s, c, conn.(slot := hello.0))
    case Register(c, name, derived, proof, now, dbOk) => Registered(u, s, c, name, derived, proof, now, dbOk)
    case Login(c, name, proof, now) => LoggedIn(u, s, c, name, proof, now)
    case Enter(c, token, now, gcNow) => Entered(u, s, c, s.conns[c].proven.value, token, now, gcNow)
    case Resume(c, token, now, newToken, gcNow) => Resumed(u, s, c, token, now, newToken, gcNow)
    case Drop(c) => Dropped(s, c)
  }

  function Reached(u: Setup, events: seq<Event>): State {
    if events == [] then START
    else
      var s, e := Reached(u, events[..|events| - 1]), events[|events| - 1];
      if Enabled(s, e) then After(u, s, e) else s
  }

  // ---------- what every run keeps ----------

  /** An account holds the key it was registered with, blinded. */
  predicate AccountOk(u: Setup, name: bytes, a: Account, key: bytes) {
    && Delivery.ValidName(name) && IsKey(key) && IsKey(u.pepper)
    && a.stored == ApplyPepper(u.f, key, u.pepper, name, a.salt)
  }

  ghost predicate AccountsOk(u: Setup, s: State) {
    && s.accounts.Keys == s.keys.Keys
    && forall n {:trigger s.accounts[n]} :: n in s.accounts ==> AccountOk(u, n, s.accounts[n], s.keys[n])
  }

  /** Somebody proved to know the key of this account. */
  ghost predicate Proven(s: State, name: bytes) { exists i :: 0 <= i < |s.logins| && s.logins[i].name == name }

  /** The proof that was given is the one for the registered key and for a challenge of that connection and account. */
  predicate PassedOk(u: Setup, keys: map<bytes, bytes>, conns: map<nat, Conn>, p: Passed) {
    && p.name in keys && p.conn in conns && p.which < |conns[p.conn].slot.generated|
    && var ch := conns[p.conn].slot.generated[p.which];
       ch.user == p.name && !ch.isRegister && IsKey(ch.nonce)
           && p.proof == ChallengeProof(u.f, keys[p.name], LOGIN, p.name, ch.nonce)
  }

  ghost predicate LoginsOk(u: Setup, s: State) {
    && (forall i {:trigger s.logins[i]} :: 0 <= i < |s.logins| ==> PassedOk(u, s.keys, s.conns, s.logins[i]))
    && (forall i, j :: 0 <= i < j < |s.logins| && s.logins[i].conn == s.logins[j].conn ==>
          s.logins[i].which < s.logins[j].which)
    && (forall i {:trigger s.logins[i]} :: 0 <= i < |s.logins| ==> Spent(s.conns, s.logins[i]))
  }

  /** The challenge of a login that passed is not the one that waits for an answer. */
  predicate Spent(conns: map<nat, Conn>, p: Passed) {
    p.conn in conns && var slot := conns[p.conn].slot; slot.chal.active ==> p.which < |slot.generated| - 1
  }

  /** Every session goes back to a password login. */
  ghost predicate SessionsOk(s: State) {
    && (forall c {:trigger s.conns[c]} :: c in s.conns ==>
          (s.conns[c].user.Some? ==> Proven(s, s.conns[c].user.value))
          && (s.conns[c].proven.Some? ==> Proven(s, s.conns[c].proven.value)))
    && (forall n {:trigger s.online[n]} :: n in s.online ==> Proven(s, n))
    && (forall h {:trigger s.tokens[h]} :: h in s.tokens ==> Proven(s, s.tokens[h].user))
  }

  predicate ConnOk(conn: Conn) {
    conn.slot.chal.active ==>
      conn.slot.generated != [] && conn.slot.generated[|conn.slot.generated| - 1] == conn.slot.chal
          && IsKey(conn.slot.chal.nonce)
  }

  ghost predicate ConnsOk(s: State) { forall c {:trigger s.conns[c]} :: c in s.conns ==> ConnOk(s.conns[c]) }

  ghost predicate Inv(u: Setup, s: State) { AccountsOk(u, s) && LoginsOk(u, s) && SessionsOk(s) && ConnsOk(s) }

  // ---------- challenges ----------

  /** What a handler does to the slot of its connection: nothing, use the challenge up, or make a new one. */
  predicate SlotMoves(a: Slot, b: Slot) {
    || b == a
    || (!b.chal.active && b.generated == a.generated)
    || (b.generated == a.generated + [b.chal] && IsKey(b.chal.nonce))
  }

  lemma EventMovesSlot(slot: Slot, e: SlotEvent)
    requires e.Hello? ==> IsKey(e.freshNonce)
    ensures SlotMoves(slot, SlotAfter(slot, e))
  {
    hide IsKey;
  }

  lemma HellosMoveSlots(accounts: Accounts, authed: bool, limited: bool, slot: Slot, name: bytes, salt: bytes,
                        nonce: bytes, now: int, later: int)
    requires IsKey(nonce)
    ensures SlotMoves(slot, RegisterHello(accounts, authed, limited, slot, name, salt, nonce, now, later).0)
    ensures SlotMoves(slot, LoginHello(accounts, authed, limited, slot, name, nonce, now, later).0)
  {
    hide IsKey, SlotAfter, Delivery.ValidName;
    EventMovesSlot(slot, Hello(name, [], true, salt, nonce, now, later));
    if name in accounts { EventMovesSlot(slot, Hello(name, accounts[name].salt, false, [], nonce, now, later)); }
  }

  lemma AnswersMoveSlots(u: Setup, accounts: Accounts, authed: bool, slot: Slot, name: bytes, derived: bytes,
                         proof: bytes, now: int, dbOk: bool, online: bool)
    ensures SlotMoves(slot, RegisterFrame(u.f, accounts, u.pepper, authed, slot, name, derived, proof, now, dbOk).1)
    ensures SlotMoves(slot, LoginFrame(u.f, accounts, u.pepper, authed, slot, name, proof, now, online).0)
  {
    hide IsKey, SlotAfter, Auth.Register, Auth.Login;
    EventMovesSlot(slot, Answer(name, true, now));
    EventMovesSlot(slot, Answer(name, false, now));
  }

  lemma SlotStays(slot: Slot)
    ensures SlotMoves(slot, slot)
  {
  }

  lemma FramesMoveSlots(u: Setup, s: State, e: Event)
    requires Enabled(s, e) && !e.Open?
    ensures e.conn in After(u, s, e).conns && SlotMoves(s.conns[e.conn].slot, After(u, s, e).conns[e.conn].slot)
    ensures After(u, s, e).conns == s.conns[e.conn := After(u, s, e).conns[e.conn]]
  {
    hide IsKey, Issued, Checked, RegisterHello, LoginHello, RegisterFrame, LoginFrame, SlotMoves;
    var conn := s.conns[e.conn];
    SlotStays(conn.slot);
    match e
    case SayRegister(c, name, limited, salt, nonce, now, later) =>
      HellosMoveSlots(s.accounts, conn.user.Some?, limited, conn.slot, name, salt, nonce, now, later);
    case SayLogin(c, name, limited, nonce, now, later) =>
      HellosMoveSlots(s.accounts, conn.user.Some?, limited, conn.slot, name, [], nonce, now, later);
    case Register(c, name, derived, proof, now, dbOk) =>
      AnswersMoveSlots(u, s.accounts, conn.user.Some?, conn.slot, name, derived, proof, now, dbOk, false);
    case Login(c, name, proof, now) =>
      AnswersMoveSlots(u, s.accounts, conn.user.Some?, conn.slot, name, [], proof, now, false, name in s.online);
    case _ =>
  }

  lemma PassedStays(u: Setup, s: State, s': State, c: nat, p: Passed)
    requires PassedOk(u, s.keys, s.conns, p) && Spent(s.conns, p)
    requires c in s'.conns && s'.conns == s.conns[c := s'.conns[c]]
    requires c in s.conns ==> SlotMoves(s.conns[c].slot, s'.conns[c].slot)
    requires p.name in s'.keys && s'.keys[p.name] == s.keys[p.name] && (c in s.conns || p.conn != c)
    ensures PassedOk(u, s'.keys, s'.conns, p) && Spent(s'.conns, p)
  {
    hide ChallengeProof, IsKey;
  }

  /** Logins of the past stay as they were. */
  lemma LoginsStay(u: Setup, s: State, s': State, c: nat)
    requires LoginsOk(u, s) && s'.logins == s.logins
    requires c in s'.conns && s'.conns == s.conns[c := s'.conns[c]]
    requires c in s.conns ==> SlotMoves(s.conns[c].slot, s'.conns[c].slot)
    requires forall n {:trigger n in s.keys} :: n in s.keys ==> n in s'.keys && s'.keys[n] == s.keys[n]
    ensures LoginsOk(u, s')
  {
    hide SlotMoves;
    forall i | 0 <= i < |s'.logins|
      ensures PassedOk(u, s'.keys, s'.conns, s'.logins[i]) && Spent(s'.conns, s'.logins[i])
    {
      var p := s.logins[i];
      assert PassedOk(u, s.keys, s.conns, p) && Spent(s.conns, p);
      assert p.conn in s.conns && p.name in s.keys;
      PassedStays(u, s, s', c, p);
    }
  }

  lemma ConnStays(s: State, s': State, c: nat)
    requires ConnsOk(s) && c in s'.conns && s'.conns == s.conns[c := s'.conns[c]]
    requires c in s.conns && SlotMoves(s.conns[c].slot, s'.conns[c].slot)
    ensures ConnsOk(s')
  {
    hide IsKey;
    assert ConnOk(s.conns[c]);
    forall d | d in s'.conns ensures ConnOk(s'.conns[d]) {
      if d != c { assert ConnOk(s.conns[d]); }
    }
  }

  // ---------- accounts ----------

  /** Only a registration touches the accounts, and only by adding one. */
  lemma AccountsGrow(u: Setup, s: State, e: Event)
    requires AccountsOk(u, s) && Enabled(s, e)
    ensures AccountsOk(u, After(u, s, e))
    ensures Keeps(s, After(u, s, e))
  {
    hide IsKey, ApplyPepper, ChallengeProof, Issued, Checked, SlotAfter, RegisterHello, LoginHello, LoginFrame;
    hide AccountOk;
    hide Registered;
    if e.Register? { RegisterGrows(u, s, e); }
  }

  /** Accounts and keys are still there, unchanged. */
  ghost predicate Keeps(s: State, t: State) {
    forall n {:trigger n in s.accounts} {:trigger n in s.keys} :: n in s.accounts && n in s.keys ==>
      n in t.accounts && t.accounts[n] == s.accounts[n] && n in t.keys && t.keys[n] == s.keys[n]
  }

  lemma RegisterGrows(u: Setup, s: State, e: Event)
    requires AccountsOk(u, s) && Enabled(s, e) && e.Register?
    ensures AccountsOk(u, After(u, s, e))
    ensures Keeps(s, After(u, s, e))
  {
    hide IsKey, SlotAfter, Auth.Register, AccountOk;
    var s' := After(u, s, e);
    NewAccount(u, s.accounts, s.conns[e.conn].slot.chal, e.name, e.derived, e.proof, e.dbOk);
    forall n | n in s'.accounts ensures AccountOk(u, n, s'.accounts[n], s'.keys[n]) {
      if n in s.accounts { assert AccountOk(u, n, s.accounts[n], s.keys[n]); }
    }
  }

  lemma NewAccount(u: Setup, accounts: Accounts, ch: Challenge, name: bytes, derived: bytes, proof: bytes, dbOk: bool)
    ensures var (accounts', v) := Auth.Register(u.f, accounts, u.pepper, ch, name, derived, proof, dbOk);
      if v == Accepted then
        && name !in accounts && accounts' == accounts[name := accounts'[name]]
        && AccountOk(u, name, accounts'[name], derived)
      else accounts' == accounts
  {
    hide IsKey, ApplyPepper, ChallengeProof;
    PepperGiven(u.f, derived, u.pepper, name, ch.salt);
  }

  lemma PepperGiven(f: Compress, key: bytes, pepper: bytes, user: bytes, salt: bytes)
    ensures ApplyPepper(f, key, pepper, user, salt) != [] ==> IsKey(key) && IsKey(pepper)
  {
    hide ApplyPepper, IsKey;
    if ApplyPepper(f, key, pepper, user, salt) != [] { PepperNeeded(f, key, pepper, user, salt); }
  }

  // ---------- logins ----------

  /** What the check of a login establishes: the proof is the one for the registered key. */
  lemma LoginProves(u: Setup, name: bytes, a: Account, key: bytes, accounts: Accounts, ch: Challenge, proof: bytes,
                    online: bool)
    requires AccountOk(u, name, a, key) && name in accounts && accounts[name] == a && IsKey(ch.nonce)
    ensures Auth.Login(u.f, accounts, u.pepper, ch, name, proof, online) == Accepted
            <==> !online && proof == ChallengeProof(u.f, key, LOGIN, name, ch.nonce)
  {
    hide ChallengeProof, ApplyPepper, IsKey;
    PepperUndoesItself(u.f, key, u.pepper, name, a.salt);
    ProofIsKey(u.f, key, LOGIN, name, ch.nonce);
    EmptyIsNoKey();
  }

  /** A login that passes is recorded with the challenge that it used up. */
  lemma LoginRecorded(u: Setup, s: State, c: nat, name: bytes, proof: bytes, now: int)
    requires Inv(u, s) && c in s.conns && s.conns[c].proven.None?
        && LoggedIn(u, s, c, name, proof, now).conns[c].proven.Some?
    ensures var s', slot := LoggedIn(u, s, c, name, proof, now), s.conns[c].slot;
      && slot.generated != [] && s'.logins == s.logins + [Passed(c, |slot.generated| - 1, name, proof)]
      && s'.keys == s.keys && slot.chal.active && !s'.conns[c].slot.chal.active
          && s'.conns[c].slot.generated == slot.generated
      && PassedOk(u, s'.keys, s'.conns, Passed(c, |slot.generated| - 1, name, proof))
      && s'.conns[c].proven == Some(name) && s'.conns[c].user == s.conns[c].user
  {
    hide ChallengeProof, ApplyPepper, IsKey, AccountOk, LoginsOk, SessionsOk, Delivery.ValidName, Checked, Issued;
    assert ConnOk(s.conns[c]);
    assert name in s.accounts;
    assert AccountOk(u, name, s.accounts[name], s.keys[name]);
    LoginProves(u, name, s.accounts[name], s.keys[name], s.accounts, s.conns[c].slot.chal, proof, name in s.online);
  }

  lemma LoginMovesSlot(u: Setup, s: State, c: nat, name: bytes, proof: bytes, now: int)
    requires c in s.conns
    ensures var t := LoggedIn(u, s, c, name, proof, now);
      c in t.conns && t.conns == s.conns[c := t.conns[c]] && SlotMoves(s.conns[c].slot, t.conns[c].slot)
  {
    hide LoginFrame, SlotMoves;
    AnswersMoveSlots(u, s.accounts, s.conns[c].user.Some?, s.conns[c].slot, name, [], proof, now, false,
        name in s.online);
  }

  lemma LoginKeepsLogins(u: Setup, s: State, c: nat, name: bytes, proof: bytes, now: int)
    requires Inv(u, s) && c in s.conns && s.conns[c].proven.None?
    ensures LoginsOk(u, LoggedIn(u, s, c, name, proof, now))
  {
    hide Inv, LoggedIn, PassedOk, SlotMoves;
    var s' := LoggedIn(u, s, c, name, proof, now);
    LoginMovesSlot(u, s, c, name, proof, now);
    InvParts(u, s);
    if s'.conns[c].proven.Some? {
      LoginRecorded(u, s, c, name, proof, now);
      LoginsStay(u, s, s'.(logins := s.logins), c);
      var n := |s.logins|;
      forall i | 0 <= i < n && s.logins[i].conn == c ensures s.logins[i].which < s'.logins[n].which {
        assert Spent(s.conns, s.logins[i]);
      }
    } else {
      NotRecorded(u, s, c, name, proof, now);
      LoginsStay(u, s, s', c);
    }
  }

  lemma NotRecorded(u: Setup, s: State, c: nat, name: bytes, proof: bytes, now: int)
    requires c in s.conns && s.conns[c].proven.None?
    ensures var s' := LoggedIn(u, s, c, name, proof, now);
      c in s'.conns && s'.keys == s.keys && (s'.conns[c].proven.None? ==> s'.logins == s.logins)
  {
    hide LoginFrame;
  }

  lemma InvParts(u: Setup, s: State)
    requires Inv(u, s)
    ensures AccountsOk(u, s) && LoginsOk(u, s) && SessionsOk(s) && ConnsOk(s)
  {
  }

  // ---------- sessions ----------

  lemma ProvenStays(s: State, t: State, name: bytes)
    requires Proven(s, name) && s.logins <= t.logins
    ensures Proven(t, name)
  {
    var i :| 0 <= i < |s.logins| && s.logins[i].name == name;
    assert t.logins[i] == s.logins[i];
  }

  /** Where users come from: a session, an entry or a token that is new belongs to somebody proven. */
  lemma SessionsStay(s: State, t: State)
    requires SessionsOk(s) && s.logins <= t.logins
    requires forall c {:trigger t.conns[c]} :: c in t.conns ==>
      (t.conns[c].user.Some? ==>
          (c in s.conns && t.conns[c].user == s.conns[c].user) || Proven(t, t.conns[c].user.value))
      && (t.conns[c].proven.Some? ==>
          (c in s.conns && t.conns[c].proven == s.conns[c].proven) || Proven(t, t.conns[c].proven.value))
    requires forall n {:trigger t.online[n]} :: n in t.online ==> n in s.online || Proven(t, n)
    requires forall h {:trigger t.tokens[h]} :: h in t.tokens ==>
      (h in s.tokens && t.tokens[h] == s.tokens[h]) || Proven(t, t.tokens[h].user)
    ensures SessionsOk(t)
  {
    hide Proven;
    forall n | Proven(s, n) ensures Proven(t, n) {
      ProvenStays(s, t, n);
    }
  }

  lemma TokenTable(u: Setup, b: Book, user: bytes, token: bytes, now: int, gcNow: int)
    ensures forall h :: h in Issued(u.f, u.ttl, b, user, token, now, gcNow) ==>
      var t := Issued(u.f, u.ttl, b, user, token, now, gcNow)[h]; (h in b && t == b[h]) || t.user == user
    ensures forall h :: h in Checked(u.f, b, token, now).0 ==> h in b && Checked(u.f, b, token, now).0[h] == b[h]
    ensures Checked(u.f, b, token, now).1.Some? ==>
        exists h :: h in b && b[h].user == Checked(u.f, b, token, now).1.value
  {
    hide HashOf;
  }

  lemma EnteredSessions(u: Setup, s: State, c: nat, name: bytes, token: bytes, now: int, gcNow: int)
    requires SessionsOk(s) && c in s.conns && Proven(s, name)
    ensures SessionsOk(Entered(u, s, c, name, token, now, gcNow))
  {
    hide Issued, Proven;
    var t := Entered(u, s, c, name, token, now, gcNow);
    TokenTable(u, s.tokens, name, token, now, gcNow);
    ProvenStays(s, t, name);
    SessionsStay(s, t);
  }

  lemma ResumedSessions(u: Setup, s: State, c: nat, token: bytes, now: int, newToken: bytes, gcNow: int)
    requires SessionsOk(s) && c in s.conns
    ensures SessionsOk(Resumed(u, s, c, token, now, newToken, gcNow))
  {
    hide Checked, Entered, Proven;
    TokenTable(u, s.tokens, [], token, now, gcNow);
    var (tokens, user) := Checked(u.f, s.tokens, token, now);
    var s1 := s.(tokens := tokens);
    SessionsStay(s, s1);
    if user.Some? {
      var h :| h in s.tokens && s.tokens[h].user == user.value;
      assert Proven(s, s.tokens[h].user);
      ProvenStays(s, s1, user.value);
      EnteredSessions(u, s1, c, user.value, newToken, now, gcNow);
    }
  }

  /** What a login frame that is handled leaves alone. */
  lemma LoginLeaves(u: Setup, s: State, c: nat, name: bytes, proof: bytes, now: int)
    requires c in s.conns && s.conns[c].proven.None?
    ensures var t := LoggedIn(u, s, c, name, proof, now);
      && t.online == s.online && t.tokens == s.tokens && s.logins <= t.logins
      && c in s.conns && c in t.conns && t.conns == s.conns[c := t.conns[c]] && t.conns[c].user == s.conns[c].user
  {
    hide LoginFrame;
  }

  lemma LoginSessions(u: Setup, s: State, c: nat, name: bytes, proof: bytes, now: int)
    requires Inv(u, s) && c in s.conns && s.conns[c].proven.None?
    ensures SessionsOk(LoggedIn(u, s, c, name, proof, now))
  {
    hide Inv, LoggedIn, LoginsOk, Proven;
    InvParts(u, s);
    LoginLeaves(u, s, c, name, proof, now);
    var t := LoggedIn(u, s, c, name, proof, now);
    if t.conns[c].proven.Some? {
      LoginRecorded(u, s, c, name, proof, now);
      LastProven(t, name);
    }
    SessionsStay(s, t);
  }

  lemma LastProven(s: State, name: bytes)
    requires s.logins != [] && s.logins[|s.logins| - 1].name == name
    ensures Proven(s, name)
  {
  }

  /** The steps that make nobody a user of anything. */
  lemma NoNewUser(u: Setup, s: State, e: Event)
    requires Enabled(s, e) && !e.Login? && !e.Enter? && !e.Resume?
    ensures var t := After(u, s, e);
      && t.logins == s.logins && t.tokens == s.tokens && t.online.Keys <= s.online.Keys
      && e.conn in t.conns && t.conns == s.conns[e.conn := t.conns[e.conn]]
      && var conn := t.conns[e.conn];
         (conn.user.Some? ==> e.conn in s.conns && conn.user == s.conns[e.conn].user)
         && (conn.proven.Some? ==> e.conn in s.conns && conn.proven == s.conns[e.conn].proven)
  {
    hide RegisterFrame, RegisterHello, LoginHello, LoggedIn, Entered, Resumed;
  }

  lemma StepSessions(u: Setup, s: State, e: Event)
    requires Inv(u, s) && Enabled(s, e)
    ensures SessionsOk(After(u, s, e))
  {
    hide Inv, After, LoginsOk, Proven, Entered, Resumed;
    InvParts(u, s);
    match e
    case Login(c, name, proof, now) =>
      LoginSessions(u, s, c, name, proof, now);
      SessionEvents(u, s, e);
    case Enter(c, token, now, gcNow) =>
      EnteredSessions(u, s, c, s.conns[c].proven.value, token, now, gcNow);
      SessionEvents(u, s, e);
    case Resume(c, token, now, newToken, gcNow) =>
      ResumedSessions(u, s, c, token, now, newToken, gcNow);
      SessionEvents(u, s, e);
    case _ =>
      NoNewUser(u, s, e);
      SessionsStay(s, After(u, s, e));
  }

  lemma SessionEvents(u: Setup, s: State, e: Event)
    requires Enabled(s, e)
    ensures e.Login? ==> e.conn in s.conns && s.conns[e.conn].proven.None?
    ensures e.Login? ==> After(u, s, e) == LoggedIn(u, s, e.conn, e.name, e.proof, e.now)
    ensures e.Enter? ==> After(u, s, e) == Entered(u, s, e.conn, s.conns[e.conn].proven.value, e.token, e.now, e.gcNow)
    ensures e.Resume? ==> After(u, s, e) == Resumed(u, s, e.conn, e.token, e.now, e.newToken, e.gcNow)
  {
    hide Entered, Resumed, Registered, LoggedIn, Dropped;
  }

  // ---------- runs ----------

  lemma OpenKeeps(u: Setup, s: State, c: nat)
    requires LoginsOk(u, s) && ConnsOk(s) && Enabled(s, Open(c))
    ensures LoginsOk(u, After(u, s, Open(c))) && ConnsOk(After(u, s, Open(c)))
  {
    hide LoginsOk, Enabled;
    var s' := After(u, s, Open(c));
    assert c !in s.conns by { OpenIsNew(s, c); }
    LoginsStay(u, s, s', c);
    forall d | d in s'.conns ensures ConnOk(s'.conns[d]) {
      if d != c { assert ConnOk(s.conns[d]); }
    }
  }

  lemma OpenIsNew(s: State, c: nat)
    requires Enabled(s, Open(c))
    ensures c !in s.conns
  {
  }

  lemma SameLogins(u: Setup, s: State, e: Event)
    requires Enabled(s, e) && !e.Login?
    ensures After(u, s, e).logins == s.logins
  {
    hide RegisterFrame, RegisterHello, LoginHello, Checked, Issued;
  }

  lemma StepKeeps(u: Setup, s: State, e: Event)
    requires Inv(u, s) && Enabled(s, e)
    ensures Inv(u, After(u, s, e))
  {
    hide Inv, Enabled, After, AccountsOk, LoginsOk, ConnsOk, SessionsOk, SlotMoves;
    InvParts(u, s);
    var s' := After(u, s, e);
    AccountsGrow(u, s, e);
    StepSessions(u, s, e);
    KeysKept(u, s, s');
    if e.Open? {
      OpenKeeps(u, s, e.conn);
    } else {
      FramesMoveSlots(u, s, e);
      EnabledConn(s, e);
      ConnStays(s, s', e.conn);
      if e.Login? {
        SessionEvents(u, s, e);
        LoginKeepsLogins(u, s, e.conn, e.name, e.proof, e.now);
      } else {
        SameLogins(u, s, e);
        LoginsStay(u, s, s', e.conn);
      }
    }
    Together(u, s');
  }

  lemma EnabledConn(s: State, e: Event)
    requires Enabled(s, e) && !e.Open?
    ensures e.conn in s.conns
  {
  }

  lemma KeysKept(u: Setup, s: State, t: State)
    requires AccountsOk(u, s) && Keeps(s, t)
    ensures forall n {:trigger n in s.keys} :: n in s.keys ==> n in t.keys && t.keys[n] == s.keys[n]
  {
    hide AccountOk;
    forall n | n in s.keys ensures n in t.keys && t.keys[n] == s.keys[n] {
      assert n in s.accounts.Keys;
    }
  }

  lemma Together(u: Setup, s: State)
    requires AccountsOk(u, s) && LoginsOk(u, s) && SessionsOk(s) && ConnsOk(s)
    ensures Inv(u, s)
  {
  }

  lemma StartOk(u: Setup)
    ensures Inv(u, START)
  {
  }

  lemma {:induction false} RunsKeep(u: Setup, events: seq<Event>)
    ensures Inv(u, Reached(u, events))
  {
    hide Inv, After, Enabled;
    if events == [] {
      StartOk(u);
    } else {
      var s, e := Reached(u, events[..|events| - 1]), events[|events| - 1];
      RunsKeep(u, events[..|events| - 1]);
      if Enabled(s, e) { StepKeeps(u, s, e); }
    }
  }

  // ---------- main results ----------

  /** An account that was once made stays in the table with the salt, the stored value and the key it was made with. */
  lemma {:induction false} AccountsNeverChange(u: Setup, events: seq<Event>, i: nat)
    requires i <= |events|
    ensures Keeps(Reached(u, events[..i]), Reached(u, events))
    ensures Reached(u, events).accounts.Keys == Reached(u, events).keys.Keys
    decreases |events|
  {
    hide Inv, After, Enabled, AccountOk;
    RunsKeep(u, events);
    InvParts(u, Reached(u, events));
    if i == |events| {
      assert events[..i] == events;
    } else {
      var before, e := events[..|events| - 1], events[|events| - 1];
      assert before[..i] == events[..i];
      AccountsNeverChange(u, before, i);
      RunsKeep(u, before);
      InvParts(u, Reached(u, before));
      if Enabled(Reached(u, before), e) { AccountsGrow(u, Reached(u, before), e); }
    }
  }

  /** Whoever is logged in to an account, by password or by any chain of tokens, goes back to a login on which the
      proof for the registered key was given, for a challenge made for that account on that connection. */
  lemma {:induction false} OnlyTheKeyLogsIn(u: Setup, events: seq<Event>, c: nat)
    requires c in Reached(u, events).conns && Reached(u, events).conns[c].user.Some?
    ensures var s := Reached(u, events);
      var name := s.conns[c].user.value;
      && name in s.accounts && name in s.keys && AccountOk(u, name, s.accounts[name], s.keys[name])
      && exists i :: 0 <= i < |s.logins| && s.logins[i].name == name && PassedOk(u, s.keys, s.conns, s.logins[i])
  {
    hide Reached, AccountOk, PassedOk;
    RunsKeep(u, events);
    var s := Reached(u, events);
    var name := s.conns[c].user.value;
    assert Proven(s, name);
    var i :| 0 <= i < |s.logins| && s.logins[i].name == name;
    assert PassedOk(u, s.keys, s.conns, s.logins[i]);
    KeyOf(u, s, s.logins[i]);
    assert name in s.keys.Keys && name in s.accounts;
  }

  lemma KeyOf(u: Setup, s: State, p: Passed)
    requires PassedOk(u, s.keys, s.conns, p)
    ensures p.name in s.keys
  {
  }

  /** No two logins, not even failed attempts in between, are let through by the same challenge. */
  lemma {:induction false} ChallengesAreSpent(u: Setup, events: seq<Event>, i: nat, j: nat)
    requires i < j < |Reached(u, events).logins|
    ensures var l := Reached(u, events).logins; (l[i].conn, l[i].which) != (l[j].conn, l[j].which)
  {
    hide Reached;
    RunsKeep(u, events);
  }

  /** After a registration with `derived` and whatever happened since, on any connection: a login frame passes exactly
      if that connection is not logged in, holds a live challenge for the account, the account is not online, and
      the proof is the one for `derived`. */
  lemma {:induction false} LoginAfterAnyRunExactly(u: Setup, events: seq<Event>, i: nat, c: nat, name: bytes,
                                                   proof: bytes, now: int)
    requires i < |events| && events[i].Register? && events[i].name == name
    requires name !in Reached(u, events[..i]).accounts && name in Reached(u, events[..i + 1]).accounts
    requires Enabled(Reached(u, events), Login(c, name, proof, now))
    ensures var s := Reached(u, events);
      var conn, derived := s.conns[c], events[i].derived;
      After(u, s, Login(c, name, proof, now)).conns[c].proven == Some(name)
      <==> conn.user.None? && Answers(conn.slot.chal, name, false, now) && name !in s.online
           && proof == ChallengeProof(u.f, derived, LOGIN, name, conn.slot.chal.nonce)
  {
    hide Reached, Enabled, Inv, After;
    var s := Reached(u, events);
    RegisteredKey(u, events, i, name);
    AccountsNeverChange(u, events, i + 1);
    RunsKeep(u, events);
    LoginDecides(u, s, c, name, proof, now);
  }

  lemma RegisteredKey(u: Setup, events: seq<Event>, i: nat, name: bytes)
    requires i < |events| && events[i].Register? && events[i].name == name
    requires name !in Reached(u, events[..i]).accounts && name in Reached(u, events[..i + 1]).accounts
    ensures var s := Reached(u, events[..i + 1]); name in s.keys && s.keys[name] == events[i].derived
  {
    hide RegisterFrame, Enabled;
    var before := events[..i + 1];
    assert before[..|before| - 1] == events[..i] && before[|before| - 1] == events[i];
    var s, e := Reached(u, events[..i]), events[i];
    assert Enabled(s, e);
    RegisterOutcome(u, s, e);
  }

  lemma RegisterOutcome(u: Setup, s: State, e: Event)
    requires Enabled(s, e) && e.Register? && e.name !in s.accounts && e.name in After(u, s, e).accounts
    ensures e.name in After(u, s, e).keys && After(u, s, e).keys[e.name] == e.derived
  {
    hide SlotAfter, IsKey, ApplyPepper, ChallengeProof, Answers;
  }

  lemma LoginDecides(u: Setup, s: State, c: nat, name: bytes, proof: bytes, now: int)
    requires Inv(u, s) && Enabled(s, Login(c, name, proof, now)) && name in s.accounts && name in s.keys
    ensures c in After(u, s, Login(c, name, proof, now)).conns
    ensures After(u, s, Login(c, name, proof, now)).conns[c].proven == Some(name)
      <==> s.conns[c].user.None? && Answers(s.conns[c].slot.chal, name, false, now) && name !in s.online
           && proof == ChallengeProof(u.f, s.keys[name], LOGIN, name, s.conns[c].slot.chal.nonce)
  {
    hide ChallengeProof, ApplyPepper, IsKey, AccountOk, LoginsOk, SessionsOk, Auth.Login, SlotAfter;
    assert ConnOk(s.conns[c]);
    assert AccountOk(u, name, s.accounts[name], s.keys[name]);
    if IsKey(s.conns[c].slot.chal.nonce) {
      LoginProves(u, name, s.accounts[name], s.keys[name], s.accounts, s.conns[c].slot.chal, proof, name in s.online);
    }
  }

  /** Two logins to an account with the same proof, under challenges with different nonces: the proof is HMAC, under the
      registered key, of two different messages at once. */
  lemma {:induction false} ReusedProofIsCollision(u: Setup, events: seq<Event>, i: nat, j: nat)
    requires i < |Reached(u, events).logins| && j < |Reached(u, events).logins|
    requires Reached(u, events).logins[i].name == Reached(u, events).logins[j].name
    requires Reached(u, events).logins[i].proof == Reached(u, events).logins[j].proof
    ensures var s := Reached(u, events);
      var a, b, name := ChallengeOf(s, i), ChallengeOf(s, j), s.logins[i].name;
      && name in s.keys && IsKey(s.keys[name]) && IsKey(a.nonce) && IsKey(b.nonce)
      && (a.nonce != b.nonce ==>
            var m, m' := LOGIN + name + Raw(a.nonce), LOGIN + name + Raw(b.nonce);
            m != m' && Hmac(u.f, Raw(s.keys[name]), m) == Hmac(u.f, Raw(s.keys[name]), m'))
  {
    hide Reached, Hmac, Hex, FromHex;
    RunsKeep(u, events);
    var s := Reached(u, events);
    var name := s.logins[i].name;
    assert PassedOk(u, s.keys, s.conns, s.logins[i]) && PassedOk(u, s.keys, s.conns, s.logins[j]);
    assert name in s.keys.Keys && name in s.accounts;
    assert AccountOk(u, name, s.accounts[name], s.keys[name]);
    var a, b := ChallengeOf(s, i), ChallengeOf(s, j);
    if a.nonce != b.nonce { SameProof(u.f, s.keys[name], name, a.nonce, b.nonce); }
  }

  /** The challenge that let a login through. */
  function ChallengeOf(s: State, i: nat): Challenge
    requires i < |s.logins|
  {
    var p := s.logins[i];
    if p.conn in s.conns && p.which < |s.conns[p.conn].slot.generated| then s.conns[p.conn].slot.generated[p.which]
    else NO_CHALLENGE
  }

  lemma SameProof(f: Compress, key: bytes, name: bytes, n: bytes, n': bytes)
    requires IsKey(key) && IsKey(n) && IsKey(n') && n != n'
    requires ChallengeProof(f, key, LOGIN, name, n) == ChallengeProof(f, key, LOGIN, name, n')
    ensures var m, m' := LOGIN + name + Raw(n), LOGIN + name + Raw(n');
      m != m' && Hmac(f, Raw(key), m) == Hmac(f, Raw(key), m')
  {
    hide Hmac, Hex, FromHex;
    ProofOnBytes(f, Raw(key), LOGIN, name, Raw(n));
    ProofOnBytes(f, Raw(key), LOGIN, name, Raw(n'));
    MessagesAreUnambiguous(LOGIN, name, Raw(n), LOGIN, name, Raw(n'));
  }

  // ---------- honest clients ----------

  /** A login challenge carries the salt of its account. */
  predicate SaltOk(accounts: Accounts, ch: Challenge) {
    ch.active && !ch.isRegister ==> ch.user in accounts && ch.salt == accounts[ch.user].salt
  }

  ghost predicate SaltsOk(s: State) {
    forall c {:trigger s.conns[c]} :: c in s.conns ==> SaltOk(s.accounts, s.conns[c].slot.chal)
  }

  lemma HellosKeepSalt(accounts: Accounts, authed: bool, limited: bool, slot: Slot, name: bytes, salt: bytes,
                       nonce: bytes, now: int, later: int)
    requires SaltOk(accounts, slot.chal)
    ensures SaltOk(accounts, RegisterHello(accounts, authed, limited, slot, name, salt, nonce, now, later).0.chal)
    ensures SaltOk(accounts, LoginHello(accounts, authed, limited, slot, name, nonce, now, later).0.chal)
  {
    hide Delivery.ValidName;
  }

  lemma AnswersKeepSalt(u: Setup, accounts: Accounts, authed: bool, slot: Slot, name: bytes, derived: bytes,
                        proof: bytes, now: int, dbOk: bool, online: bool)
    requires SaltOk(accounts, slot.chal)
    ensures SaltOk(accounts, RegisterFrame(u.f, accounts, u.pepper, authed, slot, name, derived, proof, now,
        dbOk).1.chal)
    ensures SaltOk(accounts, LoginFrame(u.f, accounts, u.pepper, authed, slot, name, proof, now, online).0.chal)
  {
    hide Auth.Register, Auth.Login;
  }

  lemma FramesKeepSalts(u: Setup, s: State, e: Event)
    requires Enabled(s, e) && !e.Open? && SaltOk(s.accounts, s.conns[e.conn].slot.chal)
    ensures e.conn in After(u, s, e).conns && SaltOk(s.accounts, After(u, s, e).conns[e.conn].slot.chal)
  {
    hide IsKey, Issued, Checked, RegisterHello, LoginHello, RegisterFrame, LoginFrame, SaltOk;
    var conn := s.conns[e.conn];
    match e
    case SayRegister(c, name, limited, salt, nonce, now, later) =>
      HellosKeepSalt(s.accounts, conn.user.Some?, limited, conn.slot, name, salt, nonce, now, later);
    case SayLogin(c, name, limited, nonce, now, later) =>
      HellosKeepSalt(s.accounts, conn.user.Some?, limited, conn.slot, name, [], nonce, now, later);
    case Register(c, name, derived, proof, now, dbOk) =>
      AnswersKeepSalt(u, s.accounts, conn.user.Some?, conn.slot, name, derived, proof, now, dbOk, false);
    case Login(c, name, proof, now) =>
      AnswersKeepSalt(u, s.accounts, conn.user.Some?, conn.slot, name, [], proof, now, false, name in s.online);
    case _ =>
  }

  lemma SaltStep(u: Setup, s: State, e: Event)
    requires AccountsOk(u, s) && SaltsOk(s) && Enabled(s, e)
    ensures SaltsOk(After(u, s, e))
  {
    hide After, Enabled, AccountOk;
    var t := After(u, s, e);
    AccountsGrow(u, s, e);
    assert forall n :: n in s.accounts ==> n in s.keys by { assert s.accounts.Keys == s.keys.Keys; }
    if e.Open? {
      Opened(u, s, e.conn);
    } else {
      EnabledConn(s, e);
      FramesMoveSlots(u, s, e);
      FramesKeepSalts(u, s, e);
    }
    forall c | c in t.conns ensures SaltOk(t.accounts, t.conns[c].slot.chal) {
      assert c == e.conn || SaltOk(s.accounts, s.conns[c].slot.chal);
    }
  }

  lemma Opened(u: Setup, s: State, c: nat)
    requires Enabled(s, Open(c))
    ensures After(u, s, Open(c)).conns == s.conns[c := NEW_CONN]
  {
  }

  lemma {:induction false} RunsKeepSalts(u: Setup, events: seq<Event>)
    ensures SaltsOk(Reached(u, events))
  {
    hide Inv, After, Enabled, SaltsOk;
    if events == [] {
      StartSalts();
    } else {
      var s, e := Reached(u, events[..|events| - 1]), events[|events| - 1];
      RunsKeepSalts(u, events[..|events| - 1]);
      RunsKeep(u, events[..|events| - 1]);
      InvParts(u, s);
      if Enabled(s, e) { SaltStep(u, s, e); }
    }
  }

  lemma StartSalts()
    ensures SaltsOk(START)
  {
  }

  /** A client that knows the password that the account was registered with gets in, whatever happened in between: it
      needs nothing but the salt and the nonce of its challenge. */
  lemma {:induction false} HonestClientLogsIn(u: Setup, events: seq<Event>, i: nat, c: nat, name: bytes, pwd: bytes,
                                              now: int)
    requires i < |events| && events[i].Register? && events[i].name == name
    requires name !in Reached(u, events[..i]).accounts && name in Reached(u, events[..i + 1]).accounts
    requires events[i].derived == HashPassword(u.f, pwd, Reached(u, events[..i + 1]).accounts[name].salt)
    requires c in Reached(u, events).conns && Reached(u, events).conns[c].proven.None?
        && Reached(u, events).conns[c].user.None?
    requires Answers(Reached(u, events).conns[c].slot.chal, name, false, now) && name !in Reached(u, events).online
    ensures var s := Reached(u, events);
      var ch := s.conns[c].slot.chal;
      var e := Login(c, name, HonestProof(u.f, pwd, LOGIN, name, ch.salt, ch.nonce), now);
      Enabled(s, e) && After(u, s, e).conns[c].proven == Some(name)
  {
    hide Reached, Inv, After, HashPassword, ChallengeProof, AccountOk, IsKey;
    var s := Reached(u, events);
    var ch := s.conns[c].slot.chal;
    RunsKeepSalts(u, events);
    assert SaltOk(s.accounts, ch);
    RegisteredKey(u, events, i, name);
    AccountsNeverChange(u, events, i + 1);
    LoginAfterAnyRunExactly(u, events, i, c, name, HonestProof(u.f, pwd, LOGIN, name, ch.salt, ch.nonce), now);
  }
}
