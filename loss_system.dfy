/** The plain loss system (`simula_atendimento` in src/simples.py): `n`
    lines, each busy for a fixed holding time `th` once it takes a request.
    A request is accepted by the first earliest-free line when that line is
    free by the request's arrival time, and is rejected outright otherwise.
    The interarrival times are injected as the sequence `gaps`. The wrapper
    averages the outcomes of `N` independent replications. */
module LossSystem {
  import opened Stats
  import opened ServerPool
  import opened Horizon

  /** The state of the loop: when each line is next free, the arrival clock
      `tr`, and the accepted and rejected counts. */
  datatype Lines = Lines(free: seq<real>, clock: real, x: int, y: int)

  /** All lines free at time zero, nothing counted. */
  function Start(n: nat): Lines
  {
    Lines(seq(n, _ => 0.0), 0.0, 0, 0)
  }

  /** A request arriving `z` after the previous one. */
  function Offer(st: Lines, z: real, th: real): Lines
    requires |st.free| > 0
  {
    var tr := st.clock + z;
    var j := ArgMin(st.free);
    if st.free[j] <= tr then
      st.(clock := tr, free := st.free[j := tr + th], x := st.x + 1)
    else
      st.(clock := tr, y := st.y + 1)
  }

  /** The loop from request `i` on. */
  function LossRun(st: Lines, gaps: seq<real>, th: real, T: real, i: nat): (r: Lines)
    requires |st.free| > 0 && i <= |gaps|
    ensures |r.free| == |st.free|
    decreases |gaps| - i
  {
    if i < |gaps| && st.clock + gaps[i] <= T then
      LossRun(Offer(st, gaps[i], th), gaps, th, T, i + 1)
    else
      st
  }

  /** A whole replication with `n` lines. */
  function LossReplicate(n: int, gaps: seq<real>, th: real, T: real): (r: Lines)
    requires n > 0
    ensures |r.free| == n
  {
    LossRun(Start(n), gaps, th, T, 0)
  }

  /** The share of requests that were rejected, `y/(x+y)`. */
  function RejectionRatio(st: Lines): real
    requires st.x + st.y != 0
  {
    st.y as real / (st.x + st.y) as real
  }

  // ---------------------------------------------------------------------
  // Properties of one request

  /** Each request is counted exactly once. It is accepted exactly when some
      line is free by its arrival time `tr`, and then by the first
      earliest-free line `j`, which alone changes, to `tr + th`; otherwise
      every line is busy past `tr` and none changes. With `th >= 0` no free
      time ever decreases. */
  lemma OfferSpec(st: Lines, z: real, th: real)
    requires |st.free| > 0
    ensures var r := Offer(st, z, th); var tr := st.clock + z; var j := ArgMin(st.free);
      && r.clock == tr && |r.free| == |st.free|
      && r.x + r.y == st.x + st.y + 1 && st.x <= r.x && st.y <= r.y
      && (r.x == st.x + 1 <==> exists i :: 0 <= i < |st.free| && st.free[i] <= tr)
      && (r.x == st.x + 1 ==>
            && (forall i :: 0 <= i < |st.free| ==> st.free[j] <= st.free[i])
            && r.free[j] == tr + th
            && (forall i :: 0 <= i < |st.free| && i != j ==> r.free[i] == st.free[i]))
      && (r.x == st.x ==> r.free == st.free && forall i :: 0 <= i < |st.free| ==> tr < st.free[i])
      && (0.0 <= th ==> forall i :: 0 <= i < |st.free| ==> st.free[i] <= r.free[i])
  {
    var tr := st.clock + z;
    var j := ArgMin(st.free);
    if st.free[j] <= tr {
      assert 0 <= j < |st.free| && st.free[j] <= tr;
    }
  }

  // ---------------------------------------------------------------------
  // Properties of a whole replication

  /** Every request within the horizon is counted once, as accepted or as
      rejected, and once a request has arrived the clock is within `T`. */
  lemma {:induction false} LossRunCounts(st: Lines, gaps: seq<real>, th: real, T: real, i: nat)
    requires |st.free| > 0 && i <= |gaps|
    ensures var r := LossRun(st, gaps, th, T, i);
      && r.x + r.y == st.x + st.y + ArrivalCount(gaps, i, st.clock, T)
      && st.x <= r.x && st.y <= r.y
      && (ArrivalCount(gaps, i, st.clock, T) > 0 ==> r.clock <= T)
      && (ArrivalCount(gaps, i, st.clock, T) == 0 ==> r == st)
    decreases |gaps| - i
  {
    if i < |gaps| && st.clock + gaps[i] <= T {
      OfferSpec(st, gaps[i], th);
      LossRunCounts(Offer(st, gaps[i], th), gaps, th, T, i + 1);
    }
  }

  /** With a non-negative holding time no line's free time ever decreases. */
  lemma {:induction false} LossRunFreeMonotone(st: Lines, gaps: seq<real>, th: real, T: real, i: nat)
    requires |st.free| > 0 && i <= |gaps| && 0.0 <= th
    ensures var r := LossRun(st, gaps, th, T, i);
      forall j :: 0 <= j < |st.free| ==> st.free[j] <= r.free[j]
    decreases |gaps| - i
  {
    if i < |gaps| && st.clock + gaps[i] <= T {
      OfferSpec(st, gaps[i], th);
      LossRunFreeMonotone(Offer(st, gaps[i], th), gaps, th, T, i + 1);
    }
  }

  /** When the holding time is no longer than any interarrival time, the
      line that took the previous request is free again for the next one,
      so nothing is ever rejected, whatever the number of lines. */
  lemma {:induction false} NoRejectionWhenHoldingFitsGaps(st: Lines, gaps: seq<real>, th: real, T: real, i: nat)
    requires |st.free| > 0 && i <= |gaps|
    requires forall m :: i <= m < |gaps| ==> th <= gaps[m]
    requires st.free[ArgMin(st.free)] <= st.clock + th
    ensures LossRun(st, gaps, th, T, i).y == st.y
    decreases |gaps| - i
  {
    if i < |gaps| && st.clock + gaps[i] <= T {
      var next := Offer(st, gaps[i], th);
      var j := ArgMin(st.free);
      assert st.free[j] <= st.clock + gaps[i];
      assert next.free[j] == next.clock + th;
      NoRejectionWhenHoldingFitsGaps(next, gaps, th, T, i + 1);
    }
  }

  /** The outcome of a replication: `x + y` is the number of arrivals within
      the horizon; when there was one, the rejection ratio is in [0, 1];
      with `th` no longer than every gap there are no rejections. */
  lemma LossReplicateOutcome(n: int, gaps: seq<real>, th: real, T: real)
    requires n > 0
    ensures var r := LossReplicate(n, gaps, th, T); var c := ArrivalCount(gaps, 0, 0.0, T);
      && 0 <= r.x && 0 <= r.y && r.x + r.y == c
      && (c > 0 ==> 0.0 <= RejectionRatio(r) <= 1.0 && r.clock <= T)
      && (0.0 <= th && (forall m :: 0 <= m < |gaps| ==> th <= gaps[m]) ==> r.y == 0)
  {
    var r := LossReplicate(n, gaps, th, T);
    LossRunCounts(Start(n), gaps, th, T, 0);
    if r.x + r.y > 0 {
      RatioBounds(r.y, r.x + r.y);
    }
    if 0.0 <= th && forall m :: 0 <= m < |gaps| ==> th <= gaps[m] {
      var j := ArgMin(Start(n).free);
      assert Start(n).free[j] == 0.0;
      NoRejectionWhenHoldingFitsGaps(Start(n), gaps, th, T, 0);
    }
  }

  /** For the same interarrival times, a longer horizon never counts fewer
      requests: `x + y` does not decrease as `T` grows. */
  lemma LossHorizonMonotone(n: int, gaps: seq<real>, th: real, T1: real, T2: real)
    requires n > 0 && T1 <= T2
    ensures var r1, r2 := LossReplicate(n, gaps, th, T1), LossReplicate(n, gaps, th, T2);
      r1.x + r1.y <= r2.x + r2.y
  {
    LossReplicateOutcome(n, gaps, th, T1);
    LossReplicateOutcome(n, gaps, th, T2);
    ArrivalCountMonotone(gaps, 0, 0.0, T1, T2);
  }

  /** One pass of the loop of `simula_atendimento`: the request arriving `z`
      after `tr0` goes to the first earliest-free line if that line is free
      by then, updating its free time in place, and is rejected otherwise.
      The resulting state is `Offer`'s. */
  method OfferStep(t: array<real>, tr0: real, x0: int, y0: int, z: real, th: real)
    returns (tr: real, x: int, y: int)
    modifies t
    requires t.Length > 0
    ensures Lines(t[..], tr, x, y) == Offer(Lines(old(t[..]), tr0, x0, y0), z, th)
  {
    ghost var before := Lines(t[..], tr0, x0, y0);
    tr := tr0 + z;
    x, y := x0, y0;
    var lineFree := ArgMin(t[..]);
    var tDisp := t[lineFree];
    if tDisp <= tr {
      t[lineFree] := tr + th;
      x := x + 1;
      assert t[..] == before.free[lineFree := tr + th];
    } else {
      y := y + 1;
    }
  }

  /** `simula_atendimento`: the replication as the source runs it, on an
      array of line free times; it returns (x, y, y/(x+y)). The source
      divides by `x + y` unguarded, so at least one request must arrive
      within the horizon (`gaps[0] <= T`). */
  method SimulateLoss(n: int, gaps: seq<real>, th: real, T: real) returns (x: int, y: int, w: real)
    requires n > 0 && |gaps| > 0 && gaps[0] <= T && Sum(gaps) > T
    ensures var r := LossReplicate(n, gaps, th, T);
      x == r.x && y == r.y && x + y > 0 && w == RejectionRatio(r)
    ensures x + y == ArrivalCount(gaps, 0, 0.0, T) && 0 <= x && 0 <= y
    ensures 0.0 <= w <= 1.0
  {
    var tr := 0.0;
    var t := new real[n](_ => 0.0);
    x, y := 0, 0;
    var i := 0;
    var z := gaps[0];
    assert t[..] == Start(n).free;
    while tr + z <= T
      invariant 0 <= i < |gaps| && z == gaps[i]
      invariant tr == Sum(gaps[..i])
      invariant t.Length == n
      invariant LossRun(Lines(t[..], tr, x, y), gaps, th, T, i) == LossReplicate(n, gaps, th, T)
      decreases |gaps| - i
    {
      ghost var before := Lines(t[..], tr, x, y);
      tr, x, y := OfferStep(t, tr, x, y, z, th);
      assert Lines(t[..], tr, x, y) == Offer(before, gaps[i], th);
      SumSnoc(gaps, i);
      i := i + 1;
      z := gaps[i];
    }
    LossReplicateOutcome(n, gaps, th, T);
    assert ArrivalCount(gaps, 0, 0.0, T) > 0;
    w := y as real / (x + y) as real;
  }

  /** The replications of the wrapper, one per stream of interarrival times. */
  function Replications(n: int, streams: seq<seq<real>>, th: real, T: real): seq<Lines>
    requires n > 0
  {
    seq(|streams|, i requires 0 <= i < |streams| => LossReplicate(n, streams[i], th, T))
  }

  /** The array X of the wrapper: the accepted count of each replication. */
  function Accepted(rs: seq<Lines>): seq<real>
  {
    seq(|rs|, i requires 0 <= i < |rs| => rs[i].x as real)
  }

  /** The array Y: the rejected count of each replication. */
  function Rejected(rs: seq<Lines>): seq<real>
  {
    seq(|rs|, i requires 0 <= i < |rs| => rs[i].y as real)
  }

  /** The array W: the rejection ratio of each replication. */
  function Ratios(rs: seq<Lines>): seq<real>
    requires forall i :: 0 <= i < |rs| ==> rs[i].x + rs[i].y != 0
  {
    seq(|rs|, i requires 0 <= i < |rs| => RejectionRatio(rs[i]))
  }

  /** Every stream holds an arrival within the horizon and a draw past it. */
  ghost predicate Usable(streams: seq<seq<real>>, T: real)
  {
    forall i :: 0 <= i < |streams| ==>
      |streams[i]| > 0 && streams[i][0] <= T && Sum(streams[i]) > T
  }

  /** In every replication of the wrapper a request arrives within the
      horizon, so its rejection ratio is defined and lies in [0, 1]. */
  lemma EveryReplicationArrives(n: int, streams: seq<seq<real>>, th: real, T: real)
    requires n > 0 && Usable(streams, T)
    ensures var rs := Replications(n, streams, th, T);
      forall i :: 0 <= i < |rs| ==>
        && 0 <= rs[i].x && 0 <= rs[i].y
        && rs[i].x + rs[i].y == ArrivalCount(streams[i], 0, 0.0, T) > 0
        && 0.0 <= RejectionRatio(rs[i]) <= 1.0
  {
    var rs := Replications(n, streams, th, T);
    forall i | 0 <= i < |rs|
      ensures 0 <= rs[i].x && 0 <= rs[i].y
      ensures rs[i].x + rs[i].y == ArrivalCount(streams[i], 0, 0.0, T) > 0
      ensures 0.0 <= RejectionRatio(rs[i]) <= 1.0
    {
      LossReplicateOutcome(n, streams[i], th, T);
    }
  }

  /** The wrapper's means: the mean accepted and mean rejected counts add up
      to the mean number of arrivals per replication; both are
      non-negative; the mean rejection ratio is in [0, 1]. */
  lemma WrapperMeans(n: int, streams: seq<seq<real>>, th: real, T: real)
    requires n > 0 && |streams| > 0 && Usable(streams, T)
    ensures var rs := Replications(n, streams, th, T);
      && (forall i :: 0 <= i < |rs| ==> rs[i].x + rs[i].y > 0)
      && Mean(Accepted(rs)) + Mean(Rejected(rs))
         == Mean(seq(|streams|, i requires 0 <= i < |streams| => ArrivalCount(streams[i], 0, 0.0, T) as real))
      && 0.0 <= Mean(Accepted(rs)) && 0.0 <= Mean(Rejected(rs))
      && 0.0 <= Mean(Ratios(rs)) <= 1.0
  {
    var rs := Replications(n, streams, th, T);
    var counts := seq(|streams|, i requires 0 <= i < |streams| => ArrivalCount(streams[i], 0, 0.0, T) as real);
    EveryReplicationArrives(n, streams, th, T);
    assert forall i :: 0 <= i < |rs| ==> counts[i] == Accepted(rs)[i] + Rejected(rs)[i];
    MeanPointwise(Accepted(rs), Rejected(rs), counts);
    MeanNonNegative(Accepted(rs));
    MeanNonNegative(Rejected(rs));
    MeanBounds(Ratios(rs), 0.0, 1.0);
  }

  /** Writing the `i`-th entry of `b` into `a` extends their common prefix. */
  lemma PrefixStep(a: seq<real>, b: seq<real>, i: nat, v: real)
    requires i < |a| == |b| && a[..i] == b[..i] && v == b[i]
    ensures a[i := v][..i + 1] == b[..i + 1]
  {
    var c, d := a[i := v][..i + 1], b[..i + 1];
    assert forall j :: 0 <= j < |c| ==> c[j] == d[j];
  }

  /** Record one replication's outcome in slot `i` of X, Y and W. */
  method Store(X: array<real>, Y: array<real>, W: array<real>, i: nat, a: real, b: real, c: real)
    modifies X, Y, W
    requires X != Y && X != W && Y != W && i < X.Length == Y.Length == W.Length
    ensures X[..] == old(X[..])[i := a] && Y[..] == old(Y[..])[i := b] && W[..] == old(W[..])[i := c]
  {
    X[i] := a;
    Y[i] := b;
    W[i] := c;
  }

  /** `simula_atendimento_wrapper`: run one replication per stream into the
      preallocated arrays X, Y, W and return their means. */
  method SimulateLossMean(n: int, th: real, T: real, N: int, streams: seq<seq<real>>)
    returns (ux: real, uy: real, uw: real)
    requires n > 0 && N > 0 && |streams| == N && Usable(streams, T)
    ensures var rs := Replications(n, streams, th, T);
      && (forall i :: 0 <= i < |rs| ==> rs[i].x + rs[i].y > 0)
      && ux == Mean(Accepted(rs)) && uy == Mean(Rejected(rs)) && uw == Mean(Ratios(rs))
    ensures ux + uy == Mean(seq(N, i requires 0 <= i < N => ArrivalCount(streams[i], 0, 0.0, T) as real))
    ensures 0.0 <= ux && 0.0 <= uy && 0.0 <= uw <= 1.0
  {
    ghost var rs := Replications(n, streams, th, T);
    EveryReplicationArrives(n, streams, th, T);
    ghost var accepted, rejected, ratios := Accepted(rs), Rejected(rs), Ratios(rs);
    var X := new real[N](_ => 0.0);
    var Y := new real[N](_ => 0.0);
    var W := new real[N](_ => 0.0);
    for i := 0 to N
      invariant X.Length == Y.Length == W.Length == N
      invariant X[..i] == accepted[..i]
      invariant Y[..i] == rejected[..i]
      invariant W[..i] == ratios[..i]
    {
      var xi, yi, wi := SimulateLoss(n, streams[i], th, T);
      assert xi as real == accepted[i] && yi as real == rejected[i] && wi == ratios[i];
      ghost var x0, y0, w0 := X[..], Y[..], W[..];
      PrefixStep(x0, accepted, i, xi as real);
      PrefixStep(y0, rejected, i, yi as real);
      PrefixStep(w0, ratios, i, wi);
      Store(X, Y, W, i, xi as real, yi as real, wi);
    }
    assert X[..] == accepted && Y[..] == rejected && W[..] == ratios;
    ux := Mean(X[..]);
    uy := Mean(Y[..]);
    uw := Mean(W[..]);
    WrapperMeans(n, streams, th, T);
  }
}
