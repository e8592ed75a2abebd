/** Stable sorting by a key order, as a library sort with a key does it. */
module Sorting {

  ghost predicate TotalPreorder<T(!new)>(leq: (T, T) -> bool) {
    && (forall x, y :: leq(x, y) || leq(y, x))
    && (forall x, y, z :: leq(x, y) && leq(y, z) ==> leq(x, z))
  }

  predicate Sorted<T>(xs: seq<T>, leq: (T, T) -> bool) {
    forall i, j :: 0 <= i < j < |xs| ==> leq(xs[i], xs[j])
  }

  function Insert<T>(x: T, xs: seq<T>, leq: (T, T) -> bool): seq<T> {
    if xs == [] || leq(x, xs[0]) then [x] + xs else [xs[0]] + Insert(x, xs[1..], leq)
  }

  function StableSort<T>(xs: seq<T>, leq: (T, T) -> bool): seq<T> {
    if xs == [] then [] else Insert(xs[0], StableSort(xs[1..], leq), leq)
  }

  /** The elements whose key ties with that of `x`, in order. */
  function Ties<T>(xs: seq<T>, x: T, leq: (T, T) -> bool): seq<T> {
    if xs == [] then []
    else (if leq(xs[0], x) && leq(x, xs[0]) then [xs[0]] else []) + Ties(xs[1..], x, leq)
  }

  // ---------------------------------------------------------------- sorted, a permutation, and stable

  lemma {:induction false} InsertKeeps<T(!new)>(x: T, xs: seq<T>, leq: (T, T) -> bool)
    requires TotalPreorder(leq) && Sorted(xs, leq)
    ensures Sorted(Insert(x, xs, leq), leq)
    ensures multiset(Insert(x, xs, leq)) == multiset{x} + multiset(xs)
  {
    if xs == [] || leq(x, xs[0]) {
      var r := [x] + xs;
      forall i, j | 0 <= i < j < |r|
        ensures leq(r[i], r[j])
      {
        if i == 0 && j > 1 {
          assert leq(x, xs[0]) && leq(xs[0], xs[j - 1]);
        }
      }
    } else {
      InsertKeeps(x, xs[1..], leq);
      var tail := Insert(x, xs[1..], leq);
      assert xs == [xs[0]] + xs[1..];
      forall y | y in tail
        ensures leq(xs[0], y)
      {
        assert y in multiset(tail);
        if y != x {
          assert y in xs[1..];
        }
      }
    }
  }

  lemma {:induction false} StableSortSorts<T(!new)>(xs: seq<T>, leq: (T, T) -> bool)
    requires TotalPreorder(leq)
    ensures Sorted(StableSort(xs, leq), leq)
    ensures multiset(StableSort(xs, leq)) == multiset(xs)
    ensures |StableSort(xs, leq)| == |xs|
  {
    if xs != [] {
      StableSortSorts(xs[1..], leq);
      InsertKeeps(xs[0], StableSort(xs[1..], leq), leq);
      assert xs == [xs[0]] + xs[1..];
      SameSize(StableSort(xs, leq), xs);
    }
  }

  lemma SameSize<T>(xs: seq<T>, ys: seq<T>)
    requires multiset(xs) == multiset(ys)
    ensures |xs| == |ys|
  {
    assert |multiset(xs)| == |xs| && |multiset(ys)| == |ys|;
  }

  lemma {:induction false} TiesOfInsert<T(!new)>(x: T, xs: seq<T>, k: T, leq: (T, T) -> bool)
    requires TotalPreorder(leq) && Sorted(xs, leq)
    ensures Ties(Insert(x, xs, leq), k, leq) == Ties([x] + xs, k, leq)
  {
    if xs != [] && !leq(x, xs[0]) {
      TiesOfInsert(x, xs[1..], k, leq);
      assert ([x] + xs[1..])[1..] == xs[1..];
      assert ([x] + xs)[1..] == xs;
      assert ([xs[0]] + Insert(x, xs[1..], leq))[1..] == Insert(x, xs[1..], leq);
    }
  }

  /** Elements with tied keys keep their order. */
  lemma {:induction false} StableSortIsStable<T(!new)>(xs: seq<T>, k: T, leq: (T, T) -> bool)
    requires TotalPreorder(leq)
    ensures Ties(StableSort(xs, leq), k, leq) == Ties(xs, k, leq)
  {
    if xs != [] {
      StableSortIsStable(xs[1..], k, leq);
      StableSortSorts(xs[1..], leq);
      TiesOfInsert(xs[0], StableSort(xs[1..], leq), k, leq);
      assert ([xs[0]] + StableSort(xs[1..], leq))[1..] == StableSort(xs[1..], leq);
    }
  }

  // ---------------------------------------------------------------- there is only one stable sort

  lemma {:induction false} TieMember<T(!new)>(xs: seq<T>, k: T, leq: (T, T) -> bool)
    ensures Ties(xs, k, leq) != [] <==> exists i :: 0 <= i < |xs| && leq(xs[i], k) && leq(k, xs[i])
  {
    if xs != [] {
      TieMember(xs[1..], k, leq);
      if exists i :: 0 <= i < |xs[1..]| && leq(xs[1..][i], k) && leq(k, xs[1..][i]) {
        var i :| 0 <= i < |xs[1..]| && leq(xs[1..][i], k) && leq(k, xs[1..][i]);
        assert leq(xs[i + 1], k) && leq(k, xs[i + 1]);
      }
      if exists i :: 0 < i < |xs| && leq(xs[i], k) && leq(k, xs[i]) {
        var i :| 0 < i < |xs| && leq(xs[i], k) && leq(k, xs[i]);
        assert xs[1..][i - 1] == xs[i];
      }
    }
  }

  lemma Reflexive<T(!new)>(x: T, leq: (T, T) -> bool)
    requires TotalPreorder(leq)
    ensures leq(x, x)
  {
  }

  lemma HeadsTie<T(!new)>(xs: seq<T>, ys: seq<T>, leq: (T, T) -> bool)
    requires TotalPreorder(leq) && Sorted(xs, leq) && Sorted(ys, leq)
    requires forall k :: Ties(xs, k, leq) == Ties(ys, k, leq)
    requires xs != []
    ensures ys != [] && leq(ys[0], xs[0])
  {
    assert leq(xs[0], xs[0]);
    TieMember(xs, xs[0], leq);
    TieMember(ys, xs[0], leq);
    var i :| 0 <= i < |ys| && leq(ys[i], xs[0]) && leq(xs[0], ys[i]);
    Reflexive(ys[0], leq);
  }

  /** Two sorted arrangements that keep the order of ties are equal. */
  lemma {:induction false} StableSortUnique<T(!new)>(xs: seq<T>, ys: seq<T>, leq: (T, T) -> bool)
    requires TotalPreorder(leq) && Sorted(xs, leq) && Sorted(ys, leq)
    requires forall k :: Ties(xs, k, leq) == Ties(ys, k, leq)
    ensures xs == ys
  {
    if xs == [] {
      if ys != [] {
        HeadsTie(ys, xs, leq);
      }
    } else {
      HeadsTie(xs, ys, leq);
      HeadsTie(ys, xs, leq);
      assert Ties(xs, xs[0], leq)[0] == xs[0] && Ties(ys, xs[0], leq)[0] == ys[0] by {
        Reflexive(xs[0], leq);
      }
      forall k
        ensures Ties(xs[1..], k, leq) == Ties(ys[1..], k, leq)
      {
        assert Ties(xs, k, leq) == Ties(ys, k, leq);
        var head := if leq(xs[0], k) && leq(k, xs[0]) then [xs[0]] else [];
        assert Ties(xs, k, leq)[|head|..] == Ties(xs[1..], k, leq);
        assert Ties(ys, k, leq)[|head|..] == Ties(ys[1..], k, leq);
      }
      StableSortUnique(xs[1..], ys[1..], leq);
      assert xs == [xs[0]] + xs[1..] && ys == [ys[0]] + ys[1..];
    }
  }

  // ---------------------------------------------------------------- distinct keys

  predicate DistinctBy<T, K(==)>(xs: seq<T>, key: T -> K) {
    forall i, j :: 0 <= i < j < |xs| ==> key(xs[i]) != key(xs[j])
  }

  lemma TwiceCounted<T>(xs: seq<T>, i: nat, j: nat)
    requires i < j < |xs| && xs[i] == xs[j]
    ensures multiset(xs)[xs[i]] >= 2
  {
    assert xs == xs[..j] + xs[j..];
    assert xs[..j][i] in multiset(xs[..j]) && xs[j..][0] in multiset(xs[j..]);
  }

  lemma {:induction false} AtMostOnce<T(!new), K(!new)>(xs: seq<T>, key: T -> K, x: T)
    requires DistinctBy(xs, key)
    ensures multiset(xs)[x] <= 1
  {
    if xs != [] {
      AtMostOnce(xs[1..], key, x);
      assert xs == [xs[0]] + xs[1..];
      if xs[0] == x {
        assert x !in xs[1..];
      }
    }
  }

  lemma SameMembers<T>(xs: seq<T>, ys: seq<T>, x: T)
    requires multiset(xs) == multiset(ys)
    ensures x in xs <==> x in ys
  {
    assert x in multiset(xs) <==> x in multiset(ys);
  }

  /** Rearranging keeps keys distinct. */
  lemma PermutationKeepsDistinct<T(!new), K(!new)>(xs: seq<T>, ys: seq<T>, key: T -> K)
    requires DistinctBy(xs, key) && multiset(xs) == multiset(ys)
    ensures DistinctBy(ys, key)
  {
    forall i, j | 0 <= i < j < |ys|
      ensures key(ys[i]) != key(ys[j])
    {
      if ys[i] == ys[j] {
        AtMostOnce(xs, key, ys[i]);
        TwiceCounted(ys, i, j);
      } else {
        SameMembers(ys, xs, ys[i]);
        SameMembers(ys, xs, ys[j]);
      }
    }
  }
}
