/** Flattening a rollout buffer and slicing a shuffled batch into minibatches. */
module Minibatches {
  import opened Arithmetic
  import opened Text

  // ---------------------------------------------------------------- flattening

  predicate Rectangular<T>(rows: seq<seq<T>>, width: nat) {
    forall t :: 0 <= t < |rows| ==> |rows[t]| == width
  }

  /** Concatenated step buffers hold entry (step, env) at index `step * n_envs + env`. */
  lemma {:induction false} ConcatenatedAt<T>(rows: seq<seq<T>>, width: nat, step: nat, env: nat)
    requires Rectangular(rows, width) && step < |rows| && env < width
    ensures |Flatten(rows)| == |rows| * width
    ensures step * width + env < |Flatten(rows)| && Flatten(rows)[step * width + env] == rows[step][env]
  {
    ConcatenatedSize(rows, width);
    IndexInside(step, |rows|, width, env);
    if step > 0 {
      ConcatenatedAt(rows[1..], width, step - 1, env);
      assert step * width + env == width + ((step - 1) * width + env);
    }
  }

  lemma IndexInside(step: nat, rows: nat, width: nat, env: nat)
    requires step < rows && env < width
    ensures step * width + env < rows * width
  {
    assert (rows - step - 1) * width >= 0;
    assert rows * width == step * width + width + (rows - step - 1) * width;
  }

  lemma {:induction false} ConcatenatedSize<T>(rows: seq<seq<T>>, width: nat)
    requires Rectangular(rows, width)
    ensures |Flatten(rows)| == |rows| * width
  {
    if rows != [] {
      ConcatenatedSize(rows[1..], width);
      assert |rows| * width == width + (|rows| - 1) * width;
    }
  }

  /** Reading a two-dimensional tensor as one row: entry `i` is in row `i / width`, column `i % width`. */
  function Reshape(a: array2<real>): (flat: seq<real>)
    reads a
    ensures |flat| == a.Length0 * a.Length1
  {
    seq(a.Length0 * a.Length1, i requires 0 <= i < a.Length0 * a.Length1 reads a =>
      RowInside(i, a.Length0, a.Length1);
      a[i / a.Length1, i % a.Length1])
  }

  lemma TimesMonotone(a: nat, b: nat, width: nat)
    ensures a <= b ==> a * width <= b * width
  {
    if a <= b {
      assert b * width == a * width + (b - a) * width;
    }
  }

  lemma RowInside(i: nat, rows: nat, width: nat)
    requires i < rows * width
    ensures width > 0 && i / width < rows && i % width < width
  {
    assert width > 0;
    TimesMonotone(rows, i / width, width);
  }

  lemma MultiplesApart(k: int, width: nat)
    requires k != 0
    ensures k * width >= width || k * width <= 0 - width
  {
    if k > 0 {
      assert k * width == width + (k - 1) * width;
    } else {
      assert k * width == 0 - width - (-k - 1) * width;
    }
  }

  lemma SplitIndex(step: nat, width: nat, env: nat)
    requires env < width
    ensures (step * width + env) / width == step && (step * width + env) % width == env
  {
    var i := step * width + env;
    var q := i / width;
    if q != step {
      assert (q - step) * width == env - i % width;
      MultiplesApart(q - step, width);
    }
  }

  /** Concatenated rows and the reshaped tensor line up: both hold entry (step, env) at `step * n_envs + env`. */
  lemma FlattenedBuffersLineUp<T>(rows: seq<seq<T>>, a: array2<real>, step: nat, env: nat)
    requires Rectangular(rows, a.Length1) && |rows| == a.Length0
    requires step < |rows| && env < a.Length1
    ensures |Flatten(rows)| == |Reshape(a)| > step * a.Length1 + env
    ensures Flatten(rows)[step * a.Length1 + env] == rows[step][env]
    ensures Reshape(a)[step * a.Length1 + env] == a[step, env]
  {
    ConcatenatedAt(rows, a.Length1, step, env);
    SplitIndex(step, a.Length1, env);
  }

  // ---------------------------------------------------------------- minibatches

  /** `range(0, n, step)` has a start for every slice; a zero step is an error and a negative one gives no slice. */
  datatype Slices = ZeroStep | Slices(batches: seq<seq<int>>)

  /** The index slices of one epoch. */
  method SliceEpoch(permutation: seq<int>, minibatchSize: int) returns (r: Slices)
    ensures r.ZeroStep? <==> minibatchSize == 0
    ensures minibatchSize < 0 ==> r == Slices([])
    ensures minibatchSize > 0 ==>
              && r.Slices?
              && Flatten(r.batches) == permutation
              && (forall i :: 0 <= i < |r.batches| ==> 1 <= |r.batches[i]| <= minibatchSize)
              && (forall i :: 0 <= i < |r.batches| - 1 ==> |r.batches[i]| == minibatchSize)
  {
    if minibatchSize == 0 {
      return ZeroStep;
    }
    var batches: seq<seq<int>> := [];
    if minibatchSize > 0 {
      var start := 0;
      while start < |permutation|
        invariant 0 <= start
        invariant Flatten(batches) == permutation[..Min(start, |permutation|)]
        invariant forall i :: 0 <= i < |batches| ==> 1 <= |batches[i]| <= minibatchSize
        invariant forall i :: 0 <= i < |batches| ==>
                    |batches[i]| == minibatchSize || (i == |batches| - 1 && start >= |permutation|)
        decreases |permutation| - start
      {
        var idx := permutation[start..Min(start + minibatchSize, |permutation|)];
        FlattenAppend(batches, [idx]);
        assert Flatten([idx]) == idx;
        batches := batches + [idx];
        start := start + minibatchSize;
        assert permutation[..start - minibatchSize] + idx == permutation[..Min(start, |permutation|)];
      }
      assert permutation[..|permutation|] == permutation;
    }
    r := Slices(batches);
  }

  function Indices(n: nat): seq<int> {
    seq(n, i => i)
  }

  /** A permutation of the sample indices `0 .. n-1`. */
  predicate IsPermutation(p: seq<int>, n: nat) {
    multiset(p) == multiset(Indices(n))
  }

  lemma {:induction false} IdentityCounts(n: nat, i: int)
    ensures multiset(Indices(n))[i] == if 0 <= i < n then 1 else 0
  {
    if n > 0 {
      IdentityCounts(n - 1, i);
      assert Indices(n) == Indices(n - 1) + [n - 1];
    }
  }

  /** The number of times a sample is used in some slices. */
  function Uses(batches: seq<seq<int>>, sample: int): nat {
    multiset(Flatten(batches))[sample]
  }

  /** One epoch uses every sample exactly once, and no other index. */
  lemma EpochUsesEachOnce(batches: seq<seq<int>>, permutation: seq<int>, n: nat, sample: int)
    requires Flatten(batches) == permutation && IsPermutation(permutation, n)
    ensures Uses(batches, sample) == if 0 <= sample < n then 1 else 0
  {
    IdentityCounts(n, sample);
  }

  /** All epochs of one update: every sample is used once per epoch. */
  method SliceUpdate(permutations: seq<seq<int>>, n: nat, minibatchSize: int) returns (r: Slices)
    requires forall k :: 0 <= k < |permutations| ==> IsPermutation(permutations[k], n)
    ensures r.ZeroStep? <==> minibatchSize == 0 && permutations != []
    ensures minibatchSize > 0 ==>
              r.Slices? && forall sample: int ::
                Uses(r.batches, sample) == if 0 <= sample < n then |permutations| else 0
    ensures minibatchSize < 0 ==> r == Slices([])
  {
    var all: seq<seq<int>> := [];
    var epoch := 0;
    while epoch < |permutations|
      invariant 0 <= epoch <= |permutations|
      invariant minibatchSize == 0 ==> epoch == 0
      invariant minibatchSize > 0 ==> forall sample: int :: Uses(all, sample) == if 0 <= sample < n then epoch else 0
      invariant minibatchSize < 0 ==> all == []
    {
      var one := SliceEpoch(permutations[epoch], minibatchSize);
      if one.ZeroStep? {
        return ZeroStep;
      }
      if minibatchSize > 0 {
        FlattenAppend(all, one.batches);
        forall sample: int
          ensures Uses(all + one.batches, sample) == Uses(all, sample) + if 0 <= sample < n then 1 else 0
        {
          EpochUsesEachOnce(one.batches, permutations[epoch], n, sample);
        }
      }
      all := all + one.batches;
      epoch := epoch + 1;
    }
    r := Slices(all);
  }

  /** The whole batch is covered exactly when the minibatch size is positive, or the batch is empty. */
  lemma CoverageExact(batches: seq<seq<int>>, permutation: seq<int>, n: nat, minibatchSize: int)
    requires IsPermutation(permutation, n) && minibatchSize != 0
    requires if minibatchSize > 0 then Flatten(batches) == permutation else batches == []
    ensures (forall sample: int :: 0 <= sample < n ==> Uses(batches, sample) == 1) <==> minibatchSize > 0 || n == 0
  {
    if minibatchSize > 0 {
      forall sample: int | 0 <= sample < n
        ensures Uses(batches, sample) == 1
      {
        EpochUsesEachOnce(batches, permutation, n, sample);
      }
    } else if n > 0 {
      assert Uses(batches, 0) == 0;
    }
  }
}
