/** Sequences without repeats. */
module Lists {

  predicate Distinct<T(==)>(xs: seq<T>) {
    forall i, j :: 0 <= i < j < |xs| ==> xs[i] != xs[j]
  }

  lemma {:induction false} CountedOnce<T>(xs: seq<T>)
    requires Distinct(xs)
    ensures forall x :: multiset(xs)[x] <= 1
  {
    if xs != [] {
      var n := |xs| - 1;
      CountedOnce(xs[..n]);
      assert xs == xs[..n] + [xs[n]];
      assert xs[n] !in xs[..n];
      assert multiset(xs[..n])[xs[n]] == 0;
    }
  }

  lemma CountedTwice<T>(xs: seq<T>, i: nat, j: nat)
    requires i < j < |xs| && xs[i] == xs[j]
    ensures multiset(xs)[xs[i]] >= 2
  {
    assert xs == xs[..i] + [xs[i]] + xs[i + 1..j] + [xs[j]] + xs[j + 1..];
  }

  /** A permutation has the same members, and no repeats if there were none. */
  lemma Permuted<T>(xs: seq<T>, ys: seq<T>)
    requires multiset(ys) == multiset(xs)
    ensures |ys| == |xs| && forall x :: x in ys <==> x in xs
    ensures Distinct(xs) ==> Distinct(ys)
  {
    assert |multiset(ys)| == |ys| && |multiset(xs)| == |xs|;
    forall x ensures x in ys <==> x in xs {
      assert x in ys <==> x in multiset(ys);
      assert x in xs <==> x in multiset(xs);
    }
    if Distinct(xs) {
      CountedOnce(xs);
      forall i, j | 0 <= i < j < |ys|
        ensures ys[i] != ys[j]
      {
        if ys[i] == ys[j] { CountedTwice(ys, i, j); }
      }
    }
  }
}
