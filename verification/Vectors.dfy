/** Vectors of walkers' values: sums, masks, and lists of lists. */
module Vectors {
  import opened Text

  function Sum(xs: seq<real>): real {
    if xs == [] then 0.0 else xs[0] + Sum(xs[1..])
  }

  function Plus(xs: seq<real>, ys: seq<real>): seq<real>
    requires |xs| == |ys|
  {
    seq(|xs|, i requires 0 <= i < |xs| => xs[i] + ys[i])
  }

  function Zeros(n: nat): seq<real> {
    seq(n, _ => 0.0)
  }

  function Ones(n: nat): seq<real> {
    seq(n, _ => 1.0)
  }

  /** `n` copies of `x`, added up. */
  function Times(n: nat, x: real): real {
    if n == 0 then 0.0 else x + Times(n - 1, x)
  }

  lemma {:induction false} SumPlus(xs: seq<real>, ys: seq<real>)
    requires |xs| == |ys|
    ensures Sum(Plus(xs, ys)) == Sum(xs) + Sum(ys)
  {
    if xs != [] {
      SumPlus(xs[1..], ys[1..]);
      assert Plus(xs, ys)[1..] == Plus(xs[1..], ys[1..]);
    }
  }

  lemma {:induction false} SumAppend(xs: seq<real>, ys: seq<real>)
    ensures Sum(xs + ys) == Sum(xs) + Sum(ys)
  {
    if xs == [] {
      assert xs + ys == ys;
    } else {
      SumAppend(xs[1..], ys);
      assert (xs + ys)[1..] == xs[1..] + ys;
    }
  }

  lemma {:induction false} SumOnes(n: nat)
    ensures Sum(Ones(n)) == n as real
  {
    if n > 0 {
      SumOnes(n - 1);
      assert Ones(n)[1..] == Ones(n - 1);
    }
  }

  lemma {:induction false} SumZeros(n: nat)
    ensures Sum(Zeros(n)) == 0.0
  {
    if n > 0 {
      SumZeros(n - 1);
      assert Zeros(n)[1..] == Zeros(n - 1);
    }
  }

  // ---------------------------------------------------------------- masks

  function Select<T>(mask: seq<bool>, xs: seq<T>): (r: seq<T>)
    requires |mask| == |xs|
    ensures |r| <= |xs|
  {
    if mask == [] then [] else (if mask[0] then [xs[0]] else []) + Select(mask[1..], xs[1..])
  }

  function Cleared<T>(mask: seq<bool>, xs: seq<T>, zero: T): seq<T>
    requires |mask| == |xs|
  {
    seq(|xs|, i requires 0 <= i < |xs| => if mask[i] then zero else xs[i])
  }

  predicate Any(mask: seq<bool>) {
    exists i :: 0 <= i < |mask| && mask[i]
  }

  /** What a mask takes out is exactly what clearing removes. */
  lemma {:induction false} SelectedAndCleared(mask: seq<bool>, xs: seq<real>)
    requires |mask| == |xs|
    ensures Sum(Select(mask, xs)) + Sum(Cleared(mask, xs, 0.0)) == Sum(xs)
  {
    if mask != [] {
      SelectedAndCleared(mask[1..], xs[1..]);
      assert Cleared(mask, xs, 0.0)[1..] == Cleared(mask[1..], xs[1..], 0.0);
      SumAppend(if mask[0] then [xs[0]] else [], Select(mask[1..], xs[1..]));
    }
  }

  // ---------------------------------------------------------------- lists of lists

  function Map<T, U>(f: T -> U, xs: seq<T>): (r: seq<U>)
    ensures |r| == |xs|
  {
    if xs == [] then [] else [f(xs[0])] + Map(f, xs[1..])
  }

  function MapAll<T, U>(f: T -> U, xss: seq<seq<T>>): (r: seq<seq<U>>)
    ensures |r| == |xss|
  {
    if xss == [] then [] else [Map(f, xss[0])] + MapAll(f, xss[1..])
  }

  lemma {:induction false} MapAppend<T, U>(f: T -> U, a: seq<T>, b: seq<T>)
    ensures Map(f, a + b) == Map(f, a) + Map(f, b)
  {
    if a == [] {
      assert a + b == b;
    } else {
      MapAppend(f, a[1..], b);
      assert (a + b)[1..] == a[1..] + b;
    }
  }

  lemma {:induction false} MapAllSnoc<T, U>(f: T -> U, xss: seq<seq<T>>, xs: seq<T>)
    ensures MapAll(f, xss + [xs]) == MapAll(f, xss) + [Map(f, xs)]
  {
    if xss == [] {
      assert xss + [xs] == [xs] && [xs][1..] == [];
    } else {
      MapAllSnoc(f, xss[1..], xs);
      assert (xss + [xs])[1..] == xss[1..] + [xs];
    }
  }

  lemma {:induction false} FlattenMapAll<T, U>(f: T -> U, xss: seq<seq<T>>)
    ensures Flatten(MapAll(f, xss)) == Map(f, Flatten(xss))
  {
    if xss != [] {
      FlattenMapAll(f, xss[1..]);
      MapAppend(f, xss[0], Flatten(xss[1..]));
    }
  }

  lemma FlattenSnoc<T>(xss: seq<seq<T>>, xs: seq<T>)
    ensures Flatten(xss + [xs]) == Flatten(xss) + xs
  {
    FlattenAppend(xss, [xs]);
    assert [xs][1..] == [];
    assert Flatten([xs]) == xs + Flatten([]);
  }
}
