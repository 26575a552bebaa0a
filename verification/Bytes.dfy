/** Bytes, and the decimal text that `%lld` prints and the parsers read back. */
module Bytes {

  type byte = x: int | 0 <= x < 256
  type bytes = seq<byte>

  const MINUS: byte := 45
  const ZERO: byte := 48
  const COLON: byte := 58

  predicate IsDigit(b: byte) { 48 <= b <= 57 }

  /** The digits of `n`, as printed. */
  function Digits(n: nat): (ds: bytes)
    ensures |ds| > 0 && forall i :: 0 <= i < |ds| ==> IsDigit(ds[i])
  {
    if n < 10 then [ZERO + n] else Digits(n / 10) + [ZERO + n % 10]
  }

  function Decimal(n: int): bytes {
    if n < 0 then [MINUS] + Digits(-n) else Digits(n)
  }

  /** Reading digits from the left, as `v = v * 10 + d` does. */
  function ReadDigits(ds: bytes, v: nat): nat
    requires forall i :: 0 <= i < |ds| ==> IsDigit(ds[i])
  {
    if ds == [] then v else assert IsDigit(ds[0]); ReadDigits(ds[1..], v * 10 + (ds[0] - ZERO))
  }

  lemma {:induction false} ReadDigitsAppend(a: bytes, d: byte, v: nat)
    requires IsDigit(d) && forall i :: 0 <= i < |a| ==> IsDigit(a[i])
    ensures ReadDigits(a + [d], v) == ReadDigits(a, v) * 10 + (d - ZERO)
  {
    if a == [] {
      assert a + [d] == [d];
      assert ReadDigits([d][1..], v * 10 + (d - ZERO)) == v * 10 + (d - ZERO);
    } else {
      assert (a + [d])[1..] == a[1..] + [d];
      ReadDigitsAppend(a[1..], d, v * 10 + (a[0] - ZERO));
    }
  }

  /** Printing and reading are inverse. */
  lemma {:induction false} DigitsRoundTrip(n: nat)
    ensures ReadDigits(Digits(n), 0) == n
  {
    if n < 10 {
      assert Digits(n)[1..] == [];
    } else {
      DigitsRoundTrip(n / 10);
      ReadDigitsAppend(Digits(n / 10), ZERO + n % 10, 0);
    }
  }

  lemma Assoc<T>(a: seq<T>, b: seq<T>, c: seq<T>)
    ensures a + (b + c) == (a + b) + c
  {
  }

  lemma Dropped<T>(a: seq<T>, b: seq<T>)
    ensures (a + b)[|a|..] == b
  {
  }

  /** Moving the first element of the second part to the end of the first. */
  lemma Shifted<T>(a: seq<T>, b: seq<T>)
    requires b != []
    ensures a + b == (a + [b[0]]) + b[1..]
  {
  }
}
