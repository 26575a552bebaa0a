/** Registration and login by challenge and proof: the text forms in include/chat/pwd_hash.h and the decisions in
    src/server.cpp. */
module Auth {
  import opened Bytes
  import opened Collections
  import opened Hash
  import opened Kdf
  import Delivery
  import Json

  // ---------- hex ----------

  function Hex(data: bytes): (h: bytes)
    ensures |h| == 2 * |data|
  {
    if data == [] then [] else [Json.HexDigit(data[0] / 16), Json.HexDigit(data[0] % 16)] + Hex(data[1..])
  }

  /** Lower-case digits only; -1 for anything else. */
  function HexValue(c: byte): (v: int)
    ensures -1 <= v < 16
    ensures v >= 0 ==> c == Json.HexDigit(v)
  {
    if 48 <= c <= 57 then c - 48 else if 97 <= c <= 102 then c - 87 else -1
  }

  function FromHex(h: bytes): (r: Option<bytes>)
    ensures r.Some? ==> 2 * |r.value| == |h|
  {
    if h == [] then Some([])
    else if |h| == 1 || HexValue(h[0]) < 0 || HexValue(h[1]) < 0 then None
    else
      match FromHex(h[2..])
      case None => None
      case Some(rest) => Some([HexValue(h[0]) * 16 + HexValue(h[1])] + rest)
  }

  lemma HexDigitValue(n: nat)
    requires n < 16
    ensures HexValue(Json.HexDigit(n)) == n
  {
  }

  /** Reading hex undoes writing it, and only what was written that way is read: text and bytes determine each other. */
  lemma {:induction false} HexRoundTrip(data: bytes, h: bytes)
    ensures FromHex(h) == Some(data) <==> h == Hex(data)
    decreases |h|
  {
    if h == [] {
    } else if data == [] {
    } else {
      var d := data[0];
      HexDigitValue(d / 16);
      HexDigitValue(d % 16);
      if |h| >= 2 {
        HexRoundTrip(data[1..], h[2..]);
        assert data == [d] + data[1..];
        assert h == [h[0], h[1]] + h[2..];
        if h == Hex(data) { assert h[2..] == Hex(data[1..]); }
      }
    }
  }

  // ---------- keys, proofs and the pepper ----------

  const ITERS := 100000
  const KEY_BYTES := 32

  /** 64 lower-case hex digits. */
  predicate IsKey(h: bytes) { FromHex(h).Some? && |FromHex(h).value| == KEY_BYTES }

  function Raw(h: bytes): (k: bytes)
    requires IsKey(h)
    ensures |k| == KEY_BYTES && Hex(k) == h
  {
    HexRoundTrip(FromHex(h).value, h);
    FromHex(h).value
  }

  lemma HexIsKey(k: bytes)
    requires |k| == KEY_BYTES
    ensures IsKey(Hex(k)) && Raw(Hex(k)) == k
  {
    HexRoundTrip(k, Hex(k));
  }

  function HashPassword(f: Compress, pwd: bytes, saltHex: bytes): bytes {
    var salt := FromHex(saltHex);
    if salt.None? || salt.value == [] then [] else Hex(Derived(f, pwd, salt.value, ITERS, KEY_BYTES))
  }

  function ChallengeProof(f: Compress, keyHex: bytes, op: bytes, user: bytes, nonceHex: bytes): bytes {
    if !IsKey(keyHex) || !IsKey(nonceHex) then []
    else Hex(Hmac(f, Raw(keyHex), op + user + Raw(nonceHex)))
  }

  function Mask(f: Compress, pepper: bytes, user: bytes, saltHex: bytes): (m: bytes)
    requires IsKey(pepper)
    ensures |m| == KEY_BYTES
  {
    Hmac(f, Raw(pepper), user + saltHex)
  }

  function ApplyPepper(f: Compress, keyHex: bytes, pepper: bytes, user: bytes, saltHex: bytes): bytes {
    if !IsKey(keyHex) || !IsKey(pepper) then [] else Hex(XorBytes(Raw(keyHex), Mask(f, pepper, user, saltHex)))
  }

  /** The pepper comes off as it went on, exactly for well-formed keys under a well-formed pepper (and for the
      empty text, which stands for a failure and stays one). */
  lemma PepperUndoesItself(f: Compress, keyHex: bytes, pepper: bytes, user: bytes, saltHex: bytes)
    ensures ApplyPepper(f, ApplyPepper(f, keyHex, pepper, user, saltHex), pepper, user, saltHex) == keyHex
            <==> keyHex == [] || (IsKey(keyHex) && IsKey(pepper))
    ensures IsKey(keyHex) && IsKey(pepper) ==> IsKey(ApplyPepper(f, keyHex, pepper, user, saltHex))
  {
    hide Hex, FromHex, Hmac, Raw;
    EmptyIsNoKey();
    if IsKey(keyHex) && IsKey(pepper) {
      var k, m := Raw(keyHex), Mask(f, pepper, user, saltHex);
      HexIsKey(XorBytes(k, m));
      XorBytesTwice(k, m);
    }
  }

  lemma EmptyIsNoKey()
    ensures !IsKey([])
  {
  }

  // ---------- the same on bytes ----------

  const REGISTER: bytes := [82, 69, 71, 73, 83, 84, 69, 82]
  const LOGIN: bytes := [76, 79, 71, 73, 78]

  /** A proof is HMAC under the key of operation, user and nonce, in that order; there is none for ill-formed input. */
  lemma ProofOnBytes(f: Compress, k: bytes, op: bytes, user: bytes, n: bytes)
    requires |k| == 32 && |n| == 32
    ensures FromHex(ChallengeProof(f, Hex(k), op, user, Hex(n))) == Some(Hmac(f, k, op + user + n))
    ensures forall h: bytes :: !IsKey(h) ==>
      ChallengeProof(f, h, op, user, Hex(n)) == [] && ChallengeProof(f, Hex(k), op, user, h) == []
  {
    hide Hex, FromHex, Hmac;
    HexIsKey(k);
    HexIsKey(n);
    HexRoundTrip(Hmac(f, k, op + user + n), Hex(Hmac(f, k, op + user + n)));
  }

  /** What is stored differs from the key, byte by byte, by HMAC under the pepper of user and salt. */
  lemma PepperOnBytes(f: Compress, k: bytes, p: bytes, user: bytes, salt: bytes)
    requires |k| == 32 && |p| == 32
    ensures var b := FromHex(ApplyPepper(f, Hex(k), Hex(p), user, salt));
      b.Some? && |b.value| == 32 && forall i :: 0 <= i < 32 ==> Xor(b.value[i], k[i]) == Hmac(f, p, user + salt)[i]
  {
    hide Hex, FromHex, Hmac, Xor;
    HexIsKey(k);
    HexIsKey(p);
    var m := Hmac(f, p, user + salt);
    var c := XorBytes(k, m);
    HexRoundTrip(c, Hex(c));
    forall i | 0 <= i < 32 ensures Xor(c[i], k[i]) == m[i] {
      XorBack(k[i], m[i]);
    }
  }

  /** The key is PBKDF2 of the password and the salt's own bytes, 100000 rounds, 32 bytes. */
  lemma PasswordOnBytes(f: Compress, pwd: bytes, salt: bytes)
    requires salt != []
    ensures FromHex(HashPassword(f, pwd, Hex(salt))) == Some(Derived(f, pwd, salt, 100000, 32))
  {
    hide Hex, FromHex, Derived;
    HexRoundTrip(salt, Hex(salt));
    HexRoundTrip(Derived(f, pwd, salt, 100000, 32), Hex(Derived(f, pwd, salt, 100000, 32)));
  }

  /** Operation, user and nonce can be told from the message: nonces have 32 bytes, and neither operation begins like
      the other. */
  lemma MessagesAreUnambiguous(op: bytes, user: bytes, n: bytes, op': bytes, user': bytes, n': bytes)
    requires op in {REGISTER, LOGIN} && op' in {REGISTER, LOGIN} && |n| == |n'| == 32
    ensures op + user + n == op' + user' + n' <==> op == op' && user == user' && n == n'
  {
    if op + user + n == op' + user' + n' {
      var m := op + user + n;
      assert m[|m| - 32..] == n && m[|m| - 32..] == n';
      assert m[0] == op[0] && m[0] == op'[0];
      assert m[|op|..|m| - 32] == user && m[|op'|..|m| - 32] == user';
    }
  }

  // ---------- challenges ----------

  const TTL_MS := 60000

  /** The one slot of a connection. */
  datatype Challenge = Challenge(active: bool, isRegister: bool, user: bytes, salt: bytes, nonce: bytes, expires: int)

  const NO_CHALLENGE := Challenge(false, false, [], [], [], 0)

  predicate Reusable(c: Challenge, user: bytes, isRegister: bool, now: int) {
    c.active && c.isRegister == isRegister && c.user == user && c.expires > now
  }

  predicate Answers(c: Challenge, user: bytes, isRegister: bool, now: int) {
    c.active && c.isRegister == isRegister && c.user == user && c.expires >= now
  }

  /** HELLO frames and answers on one connection, with the clock readings and the random values drawn. */
  datatype SlotEvent =
    | Hello(user: bytes, salt: bytes, isRegister: bool, freshSalt: bytes, freshNonce: bytes, now: int, later: int)
    | Answer(user: bytes, isRegister: bool, now: int)

  /** A use of a challenge: which of the generated ones, and when. */
  datatype Pass = Pass(which: nat, user: bytes, isRegister: bool, now: int)

  /** The slot, every challenge ever generated for this connection, and those that were let through. */
  datatype Slot = Slot(chal: Challenge, generated: seq<Challenge>, passed: seq<Pass>)

  function SlotAfter(s: Slot, e: SlotEvent): Slot {
    match e
    case Hello(user, salt, isRegister, freshSalt, freshNonce, now, later) =>
      if Reusable(s.chal, user, isRegister, now) then s
      else
        var c := Challenge(true, isRegister, user, if isRegister then freshSalt else salt, freshNonce, later + TTL_MS);
        s.(chal := c, generated := s.generated + [c])
    case Answer(user, isRegister, now) =>
      var s' := s.(chal := s.chal.(active := false, nonce := []));
      if Answers(s.chal, user, isRegister, now) && s.generated != [] then
        s'.(passed := s.passed + [Pass(|s.generated| - 1, user, isRegister, now)])
      else s'
  }

  function SlotRun(events: seq<SlotEvent>): Slot {
    if events == [] then Slot(NO_CHALLENGE, [], [])
    else SlotAfter(SlotRun(events[..|events| - 1]), events[|events| - 1])
  }

  ghost predicate SlotOk(s: Slot) {
    && (s.chal.active ==> s.generated != [] && s.generated[|s.generated| - 1] == s.chal)
    && (forall i :: 0 <= i < |s.passed| ==> PassOk(s.generated, s.passed[i]))
    && (forall i, j :: 0 <= i < j < |s.passed| ==> s.passed[i].which < s.passed[j].which)
    && (s.chal.active ==> forall i :: 0 <= i < |s.passed| ==> s.passed[i].which < |s.generated| - 1)
  }

  /** The answer named the user and the purpose of the challenge, and came in time. */
  predicate PassOk(generated: seq<Challenge>, p: Pass) {
    p.which < |generated| && Answers(generated[p.which], p.user, p.isRegister, p.now)
  }

  lemma SlotStep(s: Slot, e: SlotEvent)
    requires SlotOk(s)
    ensures SlotOk(SlotAfter(s, e))
  {
  }

  lemma {:induction false} SlotsOk(events: seq<SlotEvent>)
    ensures SlotOk(SlotRun(events))
  {
    hide SlotOk, SlotAfter;
    if events == [] {
      EmptySlot();
    } else {
      SlotsOk(events[..|events| - 1]);
      SlotStep(SlotRun(events[..|events| - 1]), events[|events| - 1]);
    }
  }

  lemma EmptySlot()
    ensures SlotOk(Slot(NO_CHALLENGE, [], []))
  {
  }

  /** However often HELLO is repeated, a generated challenge lets at most one answer through, for its own user and
      purpose and before it expires. */
  lemma ChallengePassesOnce(events: seq<SlotEvent>, i: nat, j: nat)
    requires i < j < |SlotRun(events).passed|
    ensures var s := SlotRun(events);
      && s.passed[i].which != s.passed[j].which
      && PassOk(s.generated, s.passed[i]) && PassOk(s.generated, s.passed[j])
  {
    SlotsOk(events);
  }

  /** A challenge made by a HELLO carries what was drawn for it and lives for a minute. */
  predicate MadeBy(c: Challenge, e: SlotEvent) {
    && e.Hello? && c.user == e.user && c.isRegister == e.isRegister && c.nonce == e.freshNonce
    && c.salt == (if e.isRegister then e.freshSalt else e.salt) && c.expires == e.later + 60 * 1000
  }

  /** Each challenge of a connection was made by a HELLO of its own, in order. */
  lemma {:induction false} ChallengesAreFresh(events: seq<SlotEvent>) returns (makers: seq<nat>)
    ensures |makers| == |SlotRun(events).generated|
    ensures forall i :: 0 <= i < |makers| ==>
        makers[i] < |events| && MadeBy(SlotRun(events).generated[i], events[makers[i]])
    ensures forall i, j :: 0 <= i < j < |makers| ==> makers[i] < makers[j]
  {
    if events == [] {
      makers := [];
    } else {
      var n := |events| - 1;
      makers := ChallengesAreFresh(events[..n]);
      if |SlotRun(events).generated| > |SlotRun(events[..n]).generated| { makers := makers + [n]; }
    }
  }

  /** HELLOs of one user for one purpose, none later than a minute after `from`. */
  predicate SameHellos(events: seq<SlotEvent>, user: bytes, isRegister: bool, from: int) {
    forall i :: 0 <= i < |events| ==>
      events[i].Hello? && events[i].user == user && events[i].isRegister == isRegister
      && from <= events[i].later && events[i].now < from + 60 * 1000
  }

  /** Repeating HELLO draws nothing new: within a minute, however many there are, at most one challenge is made. */
  lemma {:induction false} HellosMakeOne(events: seq<SlotEvent>, hellos: seq<SlotEvent>, user: bytes, isRegister: bool,
                                         from: int)
    requires SameHellos(hellos, user, isRegister, from)
    ensures var s, t := SlotRun(events), SlotRun(events + hellos);
      && |t.generated| <= |s.generated| + 1
      && (|t.generated| > |s.generated| ==>
            t.chal.active && t.chal.user == user && t.chal.isRegister == isRegister
                && t.chal.expires >= from + 60 * 1000)
      && (|t.generated| <= |s.generated| ==> t == s)
    decreases |hellos|
  {
    if hellos == [] {
      assert events + hellos == events;
    } else {
      var n := |hellos| - 1;
      HellosMakeOne(events, hellos[..n], user, isRegister, from);
      var all := events + hellos;
      assert all[..|all| - 1] == events + hellos[..n] && all[|all| - 1] == hellos[n];
    }
  }

  // ---------- accounts ----------

  datatype Account = Account(salt: bytes, stored: bytes)
  datatype Verdict = Accepted | AlreadyAuth | TooOften | BadChallenge | BadFormat | NoSuchUser | DuplicateUser
                   | BadPassword | AlreadyOnline | DbError

  type Accounts = map<bytes, Account>

  /** `doRegister` once the challenge was taken; `dbOk` is whether SQLite stores the row. */
  function Register(f: Compress, accounts: Accounts, pepper: bytes, ch: Challenge, name: bytes, derived: bytes,
                    proof: bytes, dbOk: bool): (Accounts, Verdict)
  {
    if !Delivery.ValidName(name) || !IsKey(derived) || !IsKey(proof) then (accounts, BadFormat)
    else if ChallengeProof(f, derived, REGISTER, name, ch.nonce) != proof then (accounts, BadChallenge)
    else
      var stored := ApplyPepper(f, derived, pepper, name, ch.salt);
      if stored == [] then (accounts, DbError)
      else if name in accounts then (accounts, DuplicateUser)
      else if !dbOk then (accounts, DbError)
      else (accounts[name := Account(ch.salt, stored)], Accepted)
  }

  /** `doLogin` once the challenge was taken; `online` is whether the account has a session already. */
  function Login(f: Compress, accounts: Accounts, pepper: bytes, ch: Challenge, name: bytes, proof: bytes,
                 online: bool): Verdict {
    if !Delivery.ValidName(name) || !IsKey(proof) then BadFormat
    else if name !in accounts then NoSuchUser
    else
      var a := accounts[name];
      var key := ApplyPepper(f, a.stored, pepper, name, a.salt);
      if key == [] || ChallengeProof(f, key, LOGIN, name, ch.nonce) != proof then BadPassword
      else if online then AlreadyOnline
      else Accepted
  }

  /** REGISTER_HELLO and LOGIN_HELLO on a connection; `limited` is the answer of the rate limiter. */
  function RegisterHello(accounts: Accounts, authed: bool, limited: bool, s: Slot, name: bytes, freshSalt: bytes,
                         freshNonce: bytes, now: int, later: int): (Slot, Verdict)
  {
    if authed then (s, AlreadyAuth)
    else if limited then (s, TooOften)
    else if !Delivery.ValidName(name) then (s, BadFormat)
    else if name in accounts then (s, DuplicateUser)
    else (SlotAfter(s, Hello(name, [], true, freshSalt, freshNonce, now, later)), Accepted)
  }

  function LoginHello(accounts: Accounts, authed: bool, limited: bool, s: Slot, name: bytes, freshNonce: bytes,
                      now: int, later: int): (Slot, Verdict)
  {
    if authed then (s, AlreadyAuth)
    else if limited then (s, TooOften)
    else if !Delivery.ValidName(name) then (s, BadFormat)
    else if name !in accounts then (s, NoSuchUser)
    else (SlotAfter(s, Hello(name, accounts[name].salt, false, [], freshNonce, now, later)), Accepted)
  }

  /** The whole of `doRegister`. A connection that is logged in keeps its challenge. */
  function RegisterFrame(f: Compress, accounts: Accounts, pepper: bytes, authed: bool, s: Slot, name: bytes,
                         derived: bytes, proof: bytes, now: int, dbOk: bool): (Accounts, Slot, Verdict)
  {
    if authed then (accounts, s, AlreadyAuth)
    else
      var s' := SlotAfter(s, Answer(name, true, now));
      if !Answers(s.chal, name, true, now) then (accounts, s', BadChallenge)
      else
        var (accounts', v) := Register(f, accounts, pepper, s.chal, name, derived, proof, dbOk);
        (accounts', s', v)
  }

  /** `doLogin` up to the entry into the table of sessions. */
  function LoginFrame(f: Compress, accounts: Accounts, pepper: bytes, authed: bool, s: Slot, name: bytes, proof: bytes,
                      now: int, online: bool): (Slot, Verdict)
  {
    if authed then (s, AlreadyAuth)
    else
      var s' := SlotAfter(s, Answer(name, false, now));
      var v := if Answers(s.chal, name, false, now) then Login(f, accounts, pepper, s.chal, name, proof, online)
               else BadChallenge;
      (s', v)
  }

  lemma ProofIsKey(f: Compress, key: bytes, op: bytes, user: bytes, nonce: bytes)
    requires IsKey(key) && IsKey(nonce)
    ensures IsKey(ChallengeProof(f, key, op, user, nonce))
  {
    hide Hex, FromHex, Hmac, Raw;
    HexIsKey(Hmac(f, Raw(key), op + user + Raw(nonce)));
  }

  /** After a registration with `derived`, exactly one proof logs in: the one made with that key. */
  lemma LoginExactly(f: Compress, accounts: Accounts, pepper: bytes, reg: Challenge, ch: Challenge, name: bytes,
                     derived: bytes, proof0: bytes, proof: bytes, online: bool)
    requires Register(f, accounts, pepper, reg, name, derived, proof0, true).1 == Accepted
    requires IsKey(ch.nonce)
    ensures var accounts' := Register(f, accounts, pepper, reg, name, derived, proof0, true).0;
      Login(f, accounts', pepper, ch, name, proof, online) == (if online then AlreadyOnline else Accepted)
      <==> proof == ChallengeProof(f, derived, LOGIN, name, ch.nonce)
  {
    hide ChallengeProof, ApplyPepper, IsKey;
    PepperNeeded(f, derived, pepper, name, reg.salt);
    PepperUndoesItself(f, derived, pepper, name, reg.salt);
    ProofIsKey(f, derived, LOGIN, name, ch.nonce);
    EmptyIsNoKey();
  }

  lemma PepperNeeded(f: Compress, key: bytes, pepper: bytes, user: bytes, salt: bytes)
    requires ApplyPepper(f, key, pepper, user, salt) != []
    ensures IsKey(key) && IsKey(pepper)
  {
    hide Hex, Hmac, IsKey;
  }

  lemma PasswordGivesKey(f: Compress, pwd: bytes, salt: bytes)
    requires salt != []
    ensures IsKey(HashPassword(f, pwd, Hex(salt)))
  {
    hide Derived;
    HexRoundTrip(salt, Hex(salt));
    HexIsKey(Derived(f, pwd, salt, ITERS, KEY_BYTES));
  }

  /** What a client that knows the password computes from the salt and nonce of its challenge. */
  function HonestProof(f: Compress, pwd: bytes, op: bytes, user: bytes, salt: bytes, nonce: bytes): bytes {
    ChallengeProof(f, HashPassword(f, pwd, salt), op, user, nonce)
  }

  /** An honest client registers and later logs in, whatever the password, the random salt and nonces, the pepper and
      the accounts made in between. */
  lemma HonestLoginVerifies(f: Compress, accounts: Accounts, later: Accounts, pepper: bytes, name: bytes, pwd: bytes,
                            salt: bytes, nonce: bytes, reg: Challenge, ch: Challenge, nonce': bytes)
    requires Delivery.ValidName(name) && name !in accounts && IsKey(pepper)
    requires |salt| == 16 && |nonce| == 32 && |nonce'| == 32
    requires reg.salt == Hex(salt) && reg.nonce == Hex(nonce)
    requires name in later ==> ch.salt == later[name].salt && ch.nonce == Hex(nonce')
    ensures var key := HashPassword(f, pwd, reg.salt);
      var (accounts', verdict) := Register(f, accounts, pepper, reg, name, key,
                                           HonestProof(f, pwd, REGISTER, name, reg.salt, reg.nonce), true);
      && verdict == Accepted && name in accounts'
      && (name in later && later[name] == accounts'[name] ==>
            Login(f, later, pepper, ch, name, HonestProof(f, pwd, LOGIN, name, ch.salt, ch.nonce), false) == Accepted)
  {
    hide ChallengeProof, ApplyPepper, IsKey, HashPassword, Hex;
    var key := HashPassword(f, pwd, reg.salt);
    PasswordGivesKey(f, pwd, salt);
    HexIsKey(nonce);
    HexIsKey(nonce');
    ProofIsKey(f, key, REGISTER, name, reg.nonce);
    ProofIsKey(f, key, LOGIN, name, Hex(nonce'));
    PepperUndoesItself(f, key, pepper, name, reg.salt);
    EmptyIsNoKey();
  }

  /** Who gets an account: a valid new name, a key of 32 bytes, and its HMAC of operation, name and nonce; what is
      stored is the salt of the challenge and the key under the pepper. */
  lemma RegisterExactly(f: Compress, accounts: Accounts, pepper: bytes, ch: Challenge, name: bytes, derived: bytes,
                        proof: bytes, dbOk: bool)
    requires IsKey(ch.nonce) && IsKey(pepper)
    ensures var (accounts', v) := Register(f, accounts, pepper, ch, name, derived, proof, dbOk);
      && (v == Accepted <==>
            Delivery.ValidName(name) && name !in accounts && dbOk && IsKey(derived)
            && FromHex(proof) == Some(Hmac(f, Raw(derived), REGISTER + name + Raw(ch.nonce))))
      && accounts' == (if v == Accepted
                       then accounts[name := Account(ch.salt, ApplyPepper(f, derived, pepper, name, ch.salt))]
                       else accounts)
  {
    hide Hmac, Hex, FromHex, Delivery.ValidName;
    EmptyIsNoKey();
    PepperUndoesItself(f, derived, pepper, name, ch.salt);
    if IsKey(derived) {
      var d := Hmac(f, Raw(derived), REGISTER + name + Raw(ch.nonce));
      ProofOnBytes(f, Raw(derived), REGISTER, name, Raw(ch.nonce));
      HexRoundTrip(d, proof);
      HexRoundTrip(d, ChallengeProof(f, derived, REGISTER, name, ch.nonce));
      HexIsKey(d);
    }
  }

  /** A proof that passed under one challenge passes under another one exactly if HMAC under the registered key has the
      same value for two messages that differ: the two nonces make them different. */
  lemma ReplayIsCollision(f: Compress, accounts: Accounts, pepper: bytes, a: Challenge, b: Challenge, name: bytes,
                          k: bytes, proof: bytes)
    requires name in accounts && |k| == 32 && IsKey(pepper)
    requires accounts[name].stored == ApplyPepper(f, Hex(k), pepper, name, accounts[name].salt)
    requires IsKey(a.nonce) && IsKey(b.nonce) && a.nonce != b.nonce
    requires Login(f, accounts, pepper, a, name, proof, false) == Accepted
    ensures var m, m' := LOGIN + name + Raw(a.nonce), LOGIN + name + Raw(b.nonce);
      m != m' && (Login(f, accounts, pepper, b, name, proof, false) == Accepted <==> Hmac(f, k, m) == Hmac(f, k, m'))
  {
    hide Hmac, Hex, FromHex;
    var n, n' := Raw(a.nonce), Raw(b.nonce);
    HexIsKey(k);
    PepperUndoesItself(f, Hex(k), pepper, name, accounts[name].salt);
    ProofOnBytes(f, k, LOGIN, name, n);
    ProofOnBytes(f, k, LOGIN, name, n');
    MessagesAreUnambiguous(LOGIN, name, n, LOGIN, name, n');
    EmptyIsNoKey();
    HexRoundTrip(Hmac(f, k, LOGIN + name + n), proof);
    HexRoundTrip(Hmac(f, k, LOGIN + name + n'), proof);
  }
}
