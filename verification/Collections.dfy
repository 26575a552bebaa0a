/** Values that may be missing, numbers in order, and the size of a part of a set. */
module Collections {

  datatype Option<T> = None | Some(value: T)

  predicate Increasing(ns: seq<int>) { forall i, j :: 0 <= i < j < |ns| ==> ns[i] < ns[j] }

  function Min(a: int, b: int): int { if a < b then a else b }

  lemma {:induction false} SubsetSize<T>(a: set<T>, b: set<T>)
    requires a <= b
    ensures |a| <= |b|
  {
    if a != {} {
      var x :| x in a;
      SubsetSize(a - {x}, b - {x});
    }
  }
}
