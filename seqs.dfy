/** Sequence helpers shared by the list bookkeeping: repetition-free lists and removal of an element. */
module Seqs {
  /** No element occurs twice: each element is absent from the part before it. */
  predicate Distinct<T(==)>(ps: seq<T>)
  {
    ps == [] || (ps[|ps| - 1] !in ps[..|ps| - 1] && Distinct(ps[..|ps| - 1]))
  }

  predicate PairwiseDistinct<T(==)>(ps: seq<T>) { forall i, j | 0 <= i < j < |ps| :: ps[i] != ps[j] }

  lemma {:induction false} DistinctIsPairwise<T>(ps: seq<T>)
    ensures Distinct(ps) <==> PairwiseDistinct(ps)
  {
    if ps != [] {
      var n := |ps| - 1;
      DistinctIsPairwise(ps[..n]);
      if PairwiseDistinct(ps) {
        assert PairwiseDistinct(ps[..n]) by {
          forall i, j | 0 <= i < j < n ensures ps[..n][i] != ps[..n][j] {
            assert ps[..n][i] == ps[i] && ps[..n][j] == ps[j];
          }
        }
        forall i | 0 <= i < n ensures ps[..n][i] != ps[n] {
          assert ps[..n][i] == ps[i];
        }
      }
      if Distinct(ps) {
        forall i, j | 0 <= i < j < |ps| ensures ps[i] != ps[j] {
          assert ps[..n][i] == ps[i];
          if j < n {
            assert ps[..n][j] == ps[j];
          }
        }
      }
    }
  }

  /** In a list without repeats, the element at position i is none of those before it. */
  lemma {:induction false} DistinctBefore<T>(ps: seq<T>, i: nat)
    requires Distinct(ps) && i < |ps|
    ensures forall k | 0 <= k < i :: ps[k] != ps[i]
  {
    DistinctIsPairwise(ps);
  }

  /** The list without the first occurrence of x: Java's List.remove(Object). */
  function RemoveFirst<T(==)>(ps: seq<T>, x: T): (r: seq<T>)
    ensures x !in ps ==> r == ps
    ensures x in ps ==> |r| == |ps| - 1 && multiset(r) == multiset(ps) - multiset{x}
  {
    if ps == [] then []
    else if ps[0] == x then (assert ps == [ps[0]] + ps[1..]; ps[1..])
    else (assert ps == [ps[0]] + ps[1..]; [ps[0]] + RemoveFirst(ps[1..], x))
  }

  /** In a list without repeats the removed element is gone and nothing else is. */
  lemma {:induction false} RemoveFirstDistinct<T>(ps: seq<T>, x: T)
    requires PairwiseDistinct(ps)
    ensures x !in RemoveFirst(ps, x) && PairwiseDistinct(RemoveFirst(ps, x))
    ensures forall p | p in ps && p != x :: p in RemoveFirst(ps, x)
  {
    var r := RemoveFirst(ps, x);
    var mr := multiset(r);
    if x in ps {
      assert multiset(ps)[x] == 1 by { DistinctCountsOne(ps, x); }
      assert mr[x] == 0;
      forall p | p in ps && p != x ensures p in r {
        assert p in multiset(ps);
        assert p in mr;
      }
      assert PairwiseDistinct(r) by { CountsOneDistinct(r, ps); }
    }
  }

  lemma {:induction false} DistinctCountsOne<T>(ps: seq<T>, x: T)
    requires PairwiseDistinct(ps) && x in ps
    ensures multiset(ps)[x] == 1
  {
    assert ps == [ps[0]] + ps[1..];
    if ps[0] == x {
      assert x !in ps[1..];
    } else {
      DistinctCountsOne(ps[1..], x);
    }
  }

  lemma {:induction false} CountsOneDistinct<T>(r: seq<T>, ps: seq<T>)
    requires PairwiseDistinct(ps) && multiset(r) <= multiset(ps)
    ensures PairwiseDistinct(r)
  {
    forall i, j | 0 <= i < j < |r| ensures r[i] != r[j] {
      if r[i] == r[j] {
        assert r == r[..j] + [r[j]] + r[j + 1..];
        assert multiset(r)[r[i]] >= 2 by {
          assert r[i] in r[..j];
          assert multiset(r) == multiset(r[..j]) + multiset{r[j]} + multiset(r[j + 1..]);
        }
        DistinctCountsOne(ps, r[i]);
        assert false;
      }
    }
  }


  /** xs appended to ps one element at a time, each only when it is not yet present, as a list guarded by a set's `add` returning true. */
  function AppendAbsent<T(==)>(ps: seq<T>, xs: seq<T>): seq<T>
  {
    if xs == [] then ps
    else
      var r := AppendAbsent(ps, xs[..|xs| - 1]);
      if xs[|xs| - 1] in r then r else r + [xs[|xs| - 1]]
  }

  /** The original list stays in front, unchanged. */
  lemma {:induction false} AppendAbsentPrefix<T>(ps: seq<T>, xs: seq<T>)
    ensures |ps| <= |AppendAbsent(ps, xs)| && AppendAbsent(ps, xs)[..|ps|] == ps
  {
    if xs != [] {
      AppendAbsentPrefix(ps, xs[..|xs| - 1]);
    }
  }

  /** The result holds exactly the elements of both lists. */
  lemma {:induction false} AppendAbsentElements<T>(ps: seq<T>, xs: seq<T>)
    ensures forall x :: x in AppendAbsent(ps, xs) <==> x in ps || x in xs
  {
    if xs != [] {
      var n := |xs| - 1;
      AppendAbsentElements(ps, xs[..n]);
      assert xs == xs[..n] + [xs[n]];
    }
  }

  /** A list without repeats stays without repeats. */
  lemma {:induction false} AppendAbsentDistinct<T>(ps: seq<T>, xs: seq<T>)
    requires Distinct(ps)
    ensures Distinct(AppendAbsent(ps, xs))
  {
    if xs != [] {
      var n := |xs| - 1;
      var r := AppendAbsent(ps, xs[..n]);
      AppendAbsentDistinct(ps, xs[..n]);
      if xs[n] !in r {
        assert (r + [xs[n]])[..|r|] == r;
      }
    }
  }

  /** Appending only elements that are already present changes nothing. */
  lemma {:induction false} AppendAbsentPresent<T>(ps: seq<T>, xs: seq<T>)
    requires forall k | 0 <= k < |xs| :: xs[k] in ps
    ensures AppendAbsent(ps, xs) == ps
  {
    if xs != [] {
      AppendAbsentPresent(ps, xs[..|xs| - 1]);
    }
  }
}
