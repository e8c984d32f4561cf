/** Sequences without repeats, and iteration over a set in some order. */
module Seqs {

  predicate Distinct<T(==)>(xs: seq<T>) {
    forall i, j :: 0 <= i < j < |xs| ==> xs[i] != xs[j]
  }

  lemma {:induction false} EnumerationExists<T>(s: set<T>)
    ensures exists xs :: Distinct(xs) && (forall x :: x in xs <==> x in s)
    decreases |s|
  {
    if s == {} {
      assert Distinct<T>([]);
    } else {
      var y :| y in s;
      EnumerationExists(s - {y});
      var xs :| Distinct(xs) && (forall x :: x in xs <==> x in s - {y});
      var ys := [y] + xs;
      forall i, j | 0 <= i < j < |ys| ensures ys[i] != ys[j] {
        if i > 0 {
          assert ys[i] == xs[i - 1] && ys[j] == xs[j - 1];
        } else {
          assert ys[j] == xs[j - 1];
        }
      }
      assert forall x :: x in ys <==> x in s;
      assert Distinct(ys);
    }
  }

  /**
   * Iterating a set visits each element once in an order the program does not control; the
   * model takes one such order.
   */
  ghost function Enumerate<T(!new)>(s: set<T>): (xs: seq<T>)
    ensures Distinct(xs)
    ensures forall x :: x in xs <==> x in s
  {
    EnumerationExists(s);
    var xs :| Distinct(xs) && (forall x :: x in xs <==> x in s);
    xs
  }
}
