/** The code behind the decisions in `Auth`: text forms and keys of include/chat/pwd_hash.h, and the handlers of
    src/server.cpp. */
module AuthCode {
  import opened Bytes
  import opened Collections
  import opened Hash
  import opened Kdf
  import opened Auth

  // ---------- text forms ----------

  method ToHex(data: bytes) returns (out: bytes)
    ensures out == Hex(data)
  {
    out := [];
    for i := 0 to |data|
      invariant out + Hex(data[i..]) == Hex(data)
    {
      assert data[i..][1..] == data[i + 1..];
      Assoc(out, [Json.HexDigit(data[i] / 16), Json.HexDigit(data[i] % 16)], Hex(data[i + 1..]));
      out := out + [Json.HexDigit(data[i] / 16)];
      out := out + [Json.HexDigit(data[i] % 16)];
    }
    assert data[|data|..] == [];
  }

  method ReadHex(h: bytes) returns (ok: bool, out: bytes)
    ensures FromHex(h) == if ok then Some(out) else None
  {
    out := [];
    if |h| % 2 == 1 {
      OddFails(h);
      return false, [];
    }
    var i := 0;
    assert h[0..] == h;
    assert forall d: bytes :: [] + d == d;
    while i < |h|
      invariant 0 <= i <= |h| && i % 2 == 0
      invariant FromHex(h) == match FromHex(h[i..]) { case None => None case Some(rest) => Some(out + rest) }
      decreases |h| - i
    {
      assert h[i..][0] == h[i] && h[i..][1] == h[i + 1] && h[i..][2..] == h[i + 2..];
      var hi: int, lo: int := -1, -1;
      for k := 0 to 16
        invariant hi == (if 0 <= HexValue(h[i]) < k then HexValue(h[i]) else -1)
        invariant lo == (if 0 <= HexValue(h[i + 1]) < k then HexValue(h[i + 1]) else -1)
      {
        HexDigitValue(k);
        if h[i] == Json.HexDigit(k) { hi := k; }
        if h[i + 1] == Json.HexDigit(k) { lo := k; }
      }
      if hi < 0 || lo < 0 { return false, []; }
      if FromHex(h[i + 2..]).Some? { Assoc(out, [hi * 16 + lo], FromHex(h[i + 2..]).value); }
      out := out + [hi * 16 + lo];
      i := i + 2;
    }
    assert h[|h|..] == [] && out + [] == out;
    return true, out;
  }

  lemma {:induction false} OddFails(h: bytes)
    requires |h| % 2 == 1
    ensures FromHex(h).None?
    decreases |h|
  {
    if |h| > 1 { OddFails(h[2..]); }
  }

  /** Comparison without an early exit still is equality. */
  method ConstantTimeEq(a: bytes, b: bytes) returns (same: bool)
    ensures same <==> a == b
  {
    hide Xor;
    if |a| != |b| { return false; }
    var diff: bool := false;
    for i := 0 to |a|
      invariant !diff <==> a[..i] == b[..i]
    {
      XorZero(a[i], b[i]);
      assert a[..i + 1] == a[..i] + [a[i]] && b[..i + 1] == b[..i] + [b[i]];
      diff := diff || Xor(a[i], b[i]) != 0;
    }
    assert a[..|a|] == a && b[..|b|] == b;
    return !diff;
  }

  // ---------- keys ----------

  method ToArray(s: bytes) returns (a: array<byte>)
    ensures fresh(a) && a[..] == s
  {
    a := new byte[|s|](i requires 0 <= i < |s| => s[i]);
  }

  /** `challenge_proof`: the empty text unless key and nonce are 64 hex digits. */
  method ProveKey(f: Compress, keyHex: bytes, op: bytes, user: bytes, nonceHex: bytes) returns (proof: bytes)
    ensures proof == ChallengeProof(f, keyHex, op, user, nonceHex)
  {
    hide Hmac, Hex, FromHex;
    var keyOk, key := ReadHex(keyHex);
    if !keyOk || |key| != KEY_BYTES { return []; }
    var nonceOk, nonce := ReadHex(nonceHex);
    if !nonceOk || |nonce| != KEY_BYTES { return []; }
    var k := ToArray(key);
    var msg := ToArray(op + user + nonce);
    var out := new byte[KEY_BYTES];
    assert k[..k.Length] == key && msg[..msg.Length] == op + user + nonce;
    HmacSha256(f, k, k.Length, msg, msg.Length, out);
    assert out[..32] == out[..];
    proof := ToHex(out[..]);
  }

  /** `apply_pepper`, in both directions. */
  method BlindKey(f: Compress, keyHex: bytes, pepperHex: bytes, user: bytes, saltHex: bytes) returns (stored: bytes)
    ensures stored == ApplyPepper(f, keyHex, pepperHex, user, saltHex)
  {
    hide Hmac, Hex, FromHex, XorBytes;
    var keyOk, key := ReadHex(keyHex);
    if !keyOk || |key| != KEY_BYTES { return []; }
    var pepperOk, pepper := ReadHex(pepperHex);
    if !pepperOk || |pepper| != KEY_BYTES { return []; }
    var p := ToArray(pepper);
    var msg := ToArray(user + saltHex);
    var mask := new byte[KEY_BYTES];
    assert p[..p.Length] == pepper && msg[..msg.Length] == user + saltHex;
    HmacSha256(f, p, p.Length, msg, msg.Length, mask);
    assert mask[..32] == mask[..];
    var out := ToArray(key);
    XorInto(out, mask);
    stored := ToHex(out[..]);
  }

  /** `hash_password`: the salt takes part as bytes, not as text. */
  method DeriveKey(f: Compress, pwd: bytes, saltHex: bytes) returns (key: bytes)
    ensures key == HashPassword(f, pwd, saltHex)
  {
    hide Derived, Hex, FromHex;
    var saltOk, salt := ReadHex(saltHex);
    if !saltOk || salt == [] { return []; }
    var p := ToArray(pwd);
    var s := ToArray(salt);
    var out := new byte[KEY_BYTES];
    assert p[..p.Length] == pwd;
    Pbkdf2(f, p, p.Length, s, ITERS, out, KEY_BYTES);
    assert out[..KEY_BYTES] == out[..];
    key := ToHex(out[..]);
  }

  method KeyFormat(h: bytes) returns (ok: bool)
    ensures ok == IsKey(h)
  {
    hide FromHex;
    if |h| != 64 { return false; }
    var read, raw := ReadHex(h);
    return read && |raw| == 32;
  }

  // ---------- a connection ----------

  class Session {
    var chal: Challenge
    var authed: bool
    var username: bytes
    ghost var generated: seq<Challenge>
    ghost var passed: seq<Pass>

    ghost function Value(): Slot
      reads this
    {
      Slot(chal, generated, passed)
    }

    constructor ()
      ensures Value() == SlotRun([]) && !authed
    {
      chal, authed, username, generated, passed := NO_CHALLENGE, false, [], [], [];
    }

    method SendChallenge(user: bytes, salt: bytes, isRegister: bool, freshSalt: bytes, freshNonce: bytes, now: int,
                         later: int)
      returns (nonceSent: bytes, saltSent: bytes)
      modifies this`chal, this`generated
      ensures Value() == SlotAfter(old(Value()), Hello(user, salt, isRegister, freshSalt, freshNonce, now, later))
      ensures nonceSent == chal.nonce && saltSent == chal.salt
    {
      var reuse := chal.active && chal.isRegister == isRegister && chal.user == user && chal.expires > now;
      if !reuse {
        chal := Challenge(true, isRegister, user, if isRegister then freshSalt else salt, freshNonce, later + TTL_MS);
        generated := generated + [chal];
      }
      return chal.nonce, chal.salt;
    }

    /** Success or not, the challenge is gone afterwards. */
    method TakeChallenge(user: bytes, isRegister: bool, now: int) returns (ok: bool, taken: Challenge)
      requires SlotOk(Value())
      modifies this`chal, this`passed
      ensures Value() == SlotAfter(old(Value()), Answer(user, isRegister, now))
      ensures taken == old(chal) && ok == Answers(old(chal), user, isRegister, now)
      ensures !chal.active
    {
      taken := chal;
      chal := chal.(active := false, nonce := []);
      if !taken.active || taken.isRegister != isRegister || taken.user != user || taken.expires < now {
        return false, taken;
      }
      passed := passed + [Pass(|generated| - 1, user, isRegister, now)];
      return true, taken;
    }
  }

  // ---------- the handlers ----------

  class AuthServer {
    const compress: Compress
    const pepper: bytes
    var accounts: Accounts
    var online: map<bytes, Session>

    constructor (f: Compress, pepper: bytes)
      ensures accounts == map[] && online == map[] && compress == f && this.pepper == pepper
    {
      compress, this.pepper, accounts, online := f, pepper, map[], map[];
    }

    method DoRegisterHello(s: Session, name: bytes, limited: bool, freshSalt: bytes, freshNonce: bytes, now: int,
                           later: int)
      returns (v: Verdict, nonce: bytes, salt: bytes)
      modifies s`chal, s`generated
      ensures (s.Value(), v) ==
        RegisterHello(accounts, s.authed, limited, old(s.Value()), name, freshSalt, freshNonce, now, later)
      ensures v == Accepted ==> nonce == s.chal.nonce && salt == s.chal.salt
    {
      nonce, salt := [], [];
      if s.authed { return AlreadyAuth, nonce, salt; }
      if limited { return TooOften, nonce, salt; }
      if !Delivery.ValidName(name) { return BadFormat, nonce, salt; }
      if name in accounts { return DuplicateUser, nonce, salt; }
      nonce, salt := s.SendChallenge(name, [], true, freshSalt, freshNonce, now, later);
      v := Accepted;
    }

    method DoLoginHello(s: Session, name: bytes, limited: bool, freshNonce: bytes, now: int, later: int)
      returns (v: Verdict, nonce: bytes, salt: bytes)
      modifies s`chal, s`generated
      ensures (s.Value(), v) == LoginHello(accounts, s.authed, limited, old(s.Value()), name, freshNonce, now, later)
      ensures v == Accepted ==> nonce == s.chal.nonce && salt == s.chal.salt
    {
      nonce, salt := [], [];
      if s.authed { return AlreadyAuth, nonce, salt; }
      if limited { return TooOften, nonce, salt; }
      if !Delivery.ValidName(name) { return BadFormat, nonce, salt; }
      if name !in accounts { return NoSuchUser, nonce, salt; }
      nonce, salt := s.SendChallenge(name, accounts[name].salt, false, [], freshNonce, now, later);
      v := Accepted;
    }

    method DoRegister(s: Session, name: bytes, derived: bytes, proof: bytes, now: int, dbOk: bool) returns (v: Verdict)
      requires SlotOk(s.Value())
      modifies this`accounts, s`chal, s`passed
      ensures (accounts, s.Value(), v) ==
        RegisterFrame(compress, old(accounts), pepper, s.authed, old(s.Value()), name, derived, proof, now, dbOk)
    {
      hide ChallengeProof, ApplyPepper, IsKey, SlotOk, SlotAfter;
      if s.authed { return AlreadyAuth; }
      var ok, ch := s.TakeChallenge(name, true, now);
      if !ok { return BadChallenge; }
      var format := KeyFormat(derived);
      var proofFormat := KeyFormat(proof);
      if !Delivery.ValidName(name) || !format || !proofFormat { return BadFormat; }
      var expected := ProveKey(compress, derived, REGISTER, name, ch.nonce);
      var same := ConstantTimeEq(expected, proof);
      if !same { return BadChallenge; }
      var stored := BlindKey(compress, derived, pepper, name, ch.salt);
      if stored == [] { return DbError; }
      if name in accounts { return DuplicateUser; }
      if !dbOk { return DbError; }
      accounts := accounts[name := Account(ch.salt, stored)];
      return Accepted;
    }

    /** A password login: the checks, and the entry into the table of sessions when they pass. */
    method DoLogin(s: Session, name: bytes, proof: bytes, now: int) returns (v: Verdict)
      requires SlotOk(s.Value())
      modifies this`online, s
      ensures (s.Value(), v) ==
        LoginFrame(compress, accounts, pepper, old(s.authed), old(s.Value()), name, proof, now, name in old(online))
      ensures v == Accepted ==> s.authed && s.username == name && online == old(online)[name := s]
      ensures v != Accepted ==> s.authed == old(s.authed) && s.username == old(s.username) && online == old(online)
    {
      hide ChallengeProof, ApplyPepper, IsKey, SlotOk, SlotAfter;
      if s.authed { return AlreadyAuth; }
      var ok, ch := s.TakeChallenge(name, false, now);
      if !ok { return BadChallenge; }
      var format := KeyFormat(proof);
      if !Delivery.ValidName(name) || !format { return BadFormat; }
      if name !in accounts { return NoSuchUser; }
      var key := BlindKey(compress, accounts[name].stored, pepper, name, accounts[name].salt);
      if key == [] { return BadPassword; }
      var expected := ProveKey(compress, key, LOGIN, name, ch.nonce);
      var same := ConstantTimeEq(expected, proof);
      if !same { return BadPassword; }
      if name in online { return AlreadyOnline; }
      s.username, s.authed := name, true;
      online := online[name := s];
      return Accepted;
    }
  }
}
