/** Exact arithmetic over the per-replication outcome sequences: sums, means,
    the batch checkpoints `steps, 2*steps, ...` and the cumulative (moving)
    means taken at those checkpoints. */
module Stats {

  /** A count out of a larger positive count is a ratio in [0, 1]. */
  lemma RatioBounds(num: int, den: int)
    requires 0 <= num <= den && 0 < den
    ensures 0.0 <= (num as real) / (den as real) <= 1.0
  {
    var p := (num as real) / (den as real);
    assert p * (den as real) == num as real;
  }

  /** Sum of a sequence, accumulated from the front. */
  function Sum(v: seq<real>): real
  {
    if |v| == 0 then 0.0 else Sum(v[..|v| - 1]) + v[|v| - 1]
  }

  /** Arithmetic mean (numpy's `mean`); undefined on an empty sequence. */
  function Mean(v: seq<real>): real
    requires |v| > 0
  {
    Sum(v) / (|v| as real)
  }

  /** Extending a prefix by one element adds that element to its sum. */
  lemma SumSnoc(v: seq<real>, i: nat)
    requires i < |v|
    ensures Sum(v[..i + 1]) == Sum(v[..i]) + v[i]
  {
    assert v[..i + 1][..i] == v[..i];
  }

  lemma {:induction false} SumAppend(a: seq<real>, b: seq<real>)
    ensures Sum(a + b) == Sum(a) + Sum(b)
    decreases |b|
  {
    if |b| == 0 {
      assert a + b == a;
    } else {
      assert (a + b)[..|a + b| - 1] == a + b[..|b| - 1];
      SumAppend(a, b[..|b| - 1]);
    }
  }

  /** Bounds on every element bound the sum. */
  lemma {:induction false} SumBounds(v: seq<real>, lo: real, hi: real)
    requires forall i :: 0 <= i < |v| ==> lo <= v[i] <= hi
    ensures (|v| as real) * lo <= Sum(v) <= (|v| as real) * hi
  {
    if |v| > 0 {
      SumBounds(v[..|v| - 1], lo, hi);
      assert (|v| as real) * lo == ((|v| - 1) as real) * lo + lo;
      assert (|v| as real) * hi == ((|v| - 1) as real) * hi + hi;
    }
  }

  /** The mean lies within any bounds that hold of every element; in
      particular a mean of ratios in [0, 1] is itself in [0, 1]. */
  lemma MeanBounds(v: seq<real>, lo: real, hi: real)
    requires |v| > 0
    requires forall i :: 0 <= i < |v| ==> lo <= v[i] <= hi
    ensures lo <= Mean(v) <= hi
  {
    SumBounds(v, lo, hi);
    var n := |v| as real;
    assert Mean(v) * n == Sum(v);
  }

  lemma {:induction false} SumNonNegative(v: seq<real>)
    requires forall i :: 0 <= i < |v| ==> 0.0 <= v[i]
    ensures 0.0 <= Sum(v)
  {
    if |v| > 0 {
      SumNonNegative(v[..|v| - 1]);
    }
  }

  /** A mean of non-negative values is non-negative. */
  lemma MeanNonNegative(v: seq<real>)
    requires |v| > 0
    requires forall i :: 0 <= i < |v| ==> 0.0 <= v[i]
    ensures 0.0 <= Mean(v)
  {
    SumNonNegative(v);
  }

  /** The sum of an element-wise sum is the sum of the sums. */
  lemma {:induction false} SumPointwise(a: seq<real>, b: seq<real>, c: seq<real>)
    requires |a| == |b| == |c|
    requires forall i :: 0 <= i < |c| ==> c[i] == a[i] + b[i]
    ensures Sum(c) == Sum(a) + Sum(b)
  {
    if |c| > 0 {
      SumPointwise(a[..|a| - 1], b[..|b| - 1], c[..|c| - 1]);
    }
  }

  /** The mean is linear: the mean of element-wise sums is the sum of the means. */
  lemma MeanPointwise(a: seq<real>, b: seq<real>, c: seq<real>)
    requires 0 < |a| == |b| == |c|
    requires forall i :: 0 <= i < |c| ==> c[i] == a[i] + b[i]
    ensures Mean(c) == Mean(a) + Mean(b)
  {
    SumPointwise(a, b, c);
  }

  /** The cumulative mean over the first `m + b` values combines the cumulative
      mean over the first `m` with the sum of the next `b`: a checkpoint's mean
      covers every value seen so far, not just the latest batch. */
  lemma CumulativeMeanSplit(v: seq<real>, m: nat, b: nat)
    requires 0 < m && m + b <= |v|
    ensures Mean(v[..m + b]) * ((m + b) as real) == Mean(v[..m]) * (m as real) + Sum(v[m..m + b])
  {
    assert v[..m + b] == v[..m] + v[m..m + b];
    SumAppend(v[..m], v[m..m + b]);
  }

  lemma {:induction false} MulMonotone(steps: nat, a: nat, b: nat)
    requires a <= b
    ensures steps * a <= steps * b
    decreases b - a
  {
    if a < b {
      MulMonotone(steps, a, b - 1);
      assert steps * b == steps * (b - 1) + steps;
    }
  }

  lemma DivMonotone(m: nat, count: nat, steps: nat)
    requires steps > 0 && m <= count
    ensures m / steps <= count / steps
  {
    if m / steps > count / steps {
      MulMonotone(steps, count / steps + 1, m / steps);
      assert false;
    }
  }

  /** The `i`-th checkpoint does not pass the number of values it summarises. */
  lemma CheckpointBound(count: nat, steps: nat, i: nat)
    requires steps > 0 && i < count / steps
    ensures 0 < steps * (i + 1) <= count
  {
    MulMonotone(steps, 1, i + 1);
    MulMonotone(steps, i + 1, count / steps);
  }

  /** The batch checkpoints: the list `[steps*i for i in range(1, count//steps + 1)]`. */
  function Checkpoints(count: nat, steps: nat): (ks: seq<nat>)
    requires steps > 0
    ensures |ks| == count / steps
    ensures forall i :: 0 <= i < |ks| ==> ks[i] == steps * (i + 1) && 0 < ks[i] <= count
  {
    var ks := seq(count / steps, i => steps * (i + 1));
    assert forall i :: 0 <= i < |ks| ==> 0 < ks[i] <= count by {
      forall i | 0 <= i < |ks| ensures 0 < ks[i] <= count {
        CheckpointBound(count, steps, i);
      }
    }
    ks
  }

  /** The checkpoints are listed in strictly increasing order. */
  lemma CheckpointsIncreasing(count: nat, steps: nat)
    requires steps > 0
    ensures forall i, j :: 0 <= i < j < |Checkpoints(count, steps)| ==>
      Checkpoints(count, steps)[i] < Checkpoints(count, steps)[j]
  {
    var ks := Checkpoints(count, steps);
    forall i, j | 0 <= i < j < |ks| ensures ks[i] < ks[j] {
      MulMonotone(steps, i + 2, j + 1);
      assert steps * (i + 2) == steps * (i + 1) + steps;
    }
  }

  /** Every positive multiple of `steps` not above `count` is a checkpoint. */
  lemma CheckpointsComplete(count: nat, steps: nat, m: nat)
    requires steps > 0 && 0 < m <= count && m % steps == 0
    ensures m in Checkpoints(count, steps)
  {
    var ks := Checkpoints(count, steps);
    DivMonotone(m, count, steps);
    assert m == steps * (m / steps);
    assert ks[m / steps - 1] == m;
  }

  /** When `count` is a whole number of batches, the last checkpoint is
      `count` itself, so the last moving average is the overall mean. */
  lemma LastCheckpointIsCount(count: nat, steps: nat)
    requires steps > 0 && count > 0 && count % steps == 0
    ensures |Checkpoints(count, steps)| > 0
    ensures Checkpoints(count, steps)[|Checkpoints(count, steps)| - 1] == count
  {
    assert count == steps * (count / steps);
  }

  /** Consecutive moving averages: the cumulative mean at checkpoint `i + 1`
      is the one at checkpoint `i`, weighted by its count, plus the next batch
      of `steps` values, so each entry summarises every value seen so far. */
  lemma CheckpointMeanStep(v: seq<real>, size: nat, steps: nat, i: nat)
    requires steps > 0 && size <= |v| && i + 1 < size / steps
    ensures var ks := Checkpoints(size, steps);
      Mean(v[..ks[i + 1]]) * (ks[i + 1] as real)
      == Mean(v[..ks[i]]) * (ks[i] as real) + Sum(v[ks[i]..ks[i + 1]])
  {
    var ks := Checkpoints(size, steps);
    assert ks[i + 1] == ks[i] + steps;
    CumulativeMeanSplit(v, ks[i], steps);
  }

  /** `media_movel`: for each checkpoint, the mean of the values up to it. */
  method MovingAverage(v: seq<real>, size: nat, steps: nat) returns (r: seq<real>)
    requires steps > 0 && size <= |v|
    ensures |r| == size / steps
    ensures forall i :: 0 <= i < |r| ==> r[i] == Mean(v[..Checkpoints(size, steps)[i]])
  {
    var ks := Checkpoints(size, steps);
    var temp := new real[|ks|](_ => 0.0);
    for idx := 0 to |ks|
      invariant forall j :: 0 <= j < idx ==> temp[j] == Mean(v[..ks[j]])
    {
      temp[idx] := Mean(v[..ks[idx]]);
    }
    r := temp[..];
  }

  /** The moving averages of the four outcome sequences and the checkpoint
      list that labels them. */
  method ConvergenceDiagnostics(xs: seq<real>, ys: seq<real>, ws: seq<real>, tms: seq<real>, steps: nat)
    returns (avgX: seq<real>, avgY: seq<real>, avgW: seq<real>, avgTM: seq<real>, ks: seq<nat>)
    requires steps > 0
    ensures ks == Checkpoints(|ws|, steps) && |avgW| == |ks|
    ensures forall i :: 0 <= i < |ks| ==> avgW[i] == Mean(ws[..ks[i]])
    ensures |avgX| == |xs| / steps && |avgY| == |ys| / steps && |avgTM| == |tms| / steps
    ensures |xs| == |ws| ==> forall i :: 0 <= i < |ks| ==> avgX[i] == Mean(xs[..ks[i]])
    ensures |ys| == |ws| ==> forall i :: 0 <= i < |ks| ==> avgY[i] == Mean(ys[..ks[i]])
    ensures |tms| == |ws| ==> forall i :: 0 <= i < |ks| ==> avgTM[i] == Mean(tms[..ks[i]])
  {
    avgX := MovingAverage(xs, |xs|, steps);
    avgY := MovingAverage(ys, |ys|, steps);
    avgW := MovingAverage(ws, |ws|, steps);
    avgTM := MovingAverage(tms, |tms|, steps);
    ks := Checkpoints(|ws|, steps);
  }
}
