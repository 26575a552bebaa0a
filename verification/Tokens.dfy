/** The session tokens of include/chat/token_book.h: kept as hashes, dropped lazily once they have expired. */
module Tokens {
  import opened Bytes
  import opened Collections
  import Hash
  import Auth

  datatype Entry = Entry(user: bytes, exp: int)

  /** From the hash of a token to its user and its last second. */
  type Book = map<bytes, Entry>

  const MANY := 100000

  /** Calls on the book, with the readings of the clock that they take. */
  datatype Op = Issue(user: bytes, token: bytes, now: int, gcNow: int) | Check(token: bytes, now: int)

  function HashOf(f: Hash.Compress, token: bytes): bytes { Auth.Hex(Hash.Sha(f, token)) }

  function Purged(b: Book, now: int): Book { map h | h in b && b[h].exp >= now :: b[h] }

  function Issued(f: Hash.Compress, ttl: int, b: Book, user: bytes, token: bytes, now: int, gcNow: int): Book {
    var b' := b[HashOf(f, token) := Entry(user, now + ttl)];
    if |b'| > MANY then Purged(b', gcNow) else b'
  }

  /** The user of a token; one that turns out to have expired is removed. */
  function Checked(f: Hash.Compress, b: Book, token: bytes, now: int): (Book, Option<bytes>) {
    var h := HashOf(f, token);
    if token == [] || h !in b then (b, None)
    else if b[h].exp < now then (b - {h}, None)
    else (b, Some(b[h].user))
  }

  function BookAfter(f: Hash.Compress, ttl: int, b: Book, op: Op): Book {
    match op
    case Issue(user, token, now, gcNow) => Issued(f, ttl, b, user, token, now, gcNow)
    case Check(token, now) => Checked(f, b, token, now).0
  }

  function BookRun(f: Hash.Compress, ttl: int, ops: seq<Op>): Book {
    if ops == [] then map[] else BookAfter(f, ttl, BookRun(f, ttl, ops[..|ops| - 1]), ops[|ops| - 1])
  }

  // ---------- what a token is worth ----------

  /** A clock that does not go back, up to `now`. */
  predicate Forward(ops: seq<Op>, now: int) {
    ops == [] ||
    var op := ops[|ops| - 1];
    op.now <= now && (op.Issue? ==> op.now <= op.gcNow <= now) && Forward(ops[..|ops| - 1], op.now)
  }

  /** What the latest call of `issue` said about a token, whatever happened to the table since. */
  function LastIssue(f: Hash.Compress, ttl: int, ops: seq<Op>, h: bytes): Option<Entry> {
    if ops == [] then None
    else
      var op := ops[|ops| - 1];
      if op.Issue? && HashOf(f, op.token) == h then Some(Entry(op.user, op.now + ttl))
      else LastIssue(f, ttl, ops[..|ops| - 1], h)
  }

  lemma {:induction false} BookFollowsIssues(f: Hash.Compress, ttl: int, ops: seq<Op>, now: int, h: bytes)
    requires Forward(ops, now)
    ensures var b, last := BookRun(f, ttl, ops), LastIssue(f, ttl, ops, h);
      && (h in b ==> last == Some(b[h]))
      && (last.Some? && h !in b ==> last.value.exp < now)
    decreases |ops|
  {
    hide HashOf;
    if ops != [] { BookFollowsIssues(f, ttl, ops[..|ops| - 1], ops[|ops| - 1].now, h); }
  }

  /** A token opens a session exactly until the last second that its latest `issue` set, and for the user named there:
      neither the sweep of a crowded table nor the removal on a late check ends one early. */
  lemma {:induction false} TokenIsValidExactly(f: Hash.Compress, ttl: int, ops: seq<Op>, token: bytes, now: int,
                                               user: bytes)
    requires Forward(ops, now) && token != []
    ensures Checked(f, BookRun(f, ttl, ops), token, now).1 == Some(user)
            <==> exists exp :: LastIssue(f, ttl, ops, HashOf(f, token)) == Some(Entry(user, exp)) && exp >= now
  {
    hide HashOf, LastIssue, BookRun;
    var h := HashOf(f, token);
    BookFollowsIssues(f, ttl, ops, now, h);
    var last := LastIssue(f, ttl, ops, h);
    assert last.Some? ==> last == Some(Entry(last.value.user, last.value.exp));
  }

  // ---------- the code ----------

  class TokenBook {
    const compress: Hash.Compress
    const ttl: int
    var tokens: Book

    constructor (f: Hash.Compress, ttl: int)
      ensures tokens == BookRun(f, ttl, []) && compress == f && this.ttl == ttl
    {
      compress, this.ttl, tokens := f, ttl, map[];
    }

    method Issue(user: bytes, token: bytes, now: int, gcNow: int) returns (exp: int)
      modifies this
      ensures tokens == BookAfter(compress, ttl, old(tokens), Op.Issue(user, token, now, gcNow)) && exp == now + ttl
    {
      hide HashOf, Purged;
      exp := now + ttl;
      tokens := tokens[HashOf(compress, token) := Entry(user, exp)];
      if |tokens| > MANY { GcLocked(gcNow); }
    }

    method Validate(token: bytes, now: int) returns (user: Option<bytes>)
      modifies this
      ensures (tokens, user) == Checked(compress, old(tokens), token, now)
    {
      if token == [] { return None; }
      var h := HashOf(compress, token);
      if h !in tokens { return None; }
      if tokens[h].exp < now {
        tokens := tokens - {h};
        return None;
      }
      return Some(tokens[h].user);
    }

    /** Every entry is looked at once. */
    method GcLocked(now: int)
      modifies this
      ensures tokens == Purged(old(tokens), now)
    {
      ghost var all := tokens;
      var left := tokens.Keys;
      while left != {}
        invariant left <= tokens.Keys <= all.Keys && forall h :: h in tokens ==> tokens[h] == all[h]
        invariant forall h :: h in all && h !in left ==> (h in tokens <==> all[h].exp >= now)
        decreases left
      {
        var h :| h in left;
        left := left - {h};
        if tokens[h].exp < now { tokens := tokens - {h}; }
      }
    }
  }
}
