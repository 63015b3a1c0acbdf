/** The arrival process of one replication: interarrival gaps are drawn until
    the next arrival would fall after the horizon `T`. */
module Horizon {
  import opened Stats

  ghost predicate Positive(s: seq<real>)
  {
    forall i :: 0 <= i < |s| ==> s[i] > 0.0
  }

  /** Number of arrivals admitted from gap `i` onwards, starting at clock
      `clock`: the replication loop `while clock + z <= T: clock += z`. */
  function ArrivalCount(gaps: seq<real>, i: nat, clock: real, T: real): (c: nat)
    requires i <= |gaps|
    ensures i + c <= |gaps|
    decreases |gaps| - i
  {
    if i < |gaps| && clock + gaps[i] <= T then 1 + ArrivalCount(gaps, i + 1, clock + gaps[i], T) else 0
  }

  /** A longer horizon never admits fewer arrivals. */
  lemma {:induction false} ArrivalCountMonotone(gaps: seq<real>, i: nat, clock: real, T1: real, T2: real)
    requires i <= |gaps| && T1 <= T2
    ensures ArrivalCount(gaps, i, clock, T1) <= ArrivalCount(gaps, i, clock, T2)
    decreases |gaps| - i
  {
    if i < |gaps| && clock + gaps[i] <= T1 {
      ArrivalCountMonotone(gaps, i + 1, clock + gaps[i], T1, T2);
    }
  }

  /** With positive gaps the arrival times (the prefix sums) increase. */
  lemma {:induction false} PrefixSumMonotone(gaps: seq<real>, a: nat, b: nat)
    requires Positive(gaps) && a <= b <= |gaps|
    ensures Sum(gaps[..a]) <= Sum(gaps[..b])
    decreases b - a
  {
    if a < b {
      PrefixSumMonotone(gaps, a, b - 1);
      SumSnoc(gaps, b - 1);
    }
  }

  /** The loop's count agrees with an independent description: the arrival
      whose time is the `m`-th prefix sum of the gaps is admitted exactly
      when that time is at most `T`. */
  lemma {:induction false} ArrivalCountCharacterised(gaps: seq<real>, i: nat, T: real)
    requires Positive(gaps) && i <= |gaps|
    ensures forall m :: i < m <= |gaps| ==>
      (Sum(gaps[..m]) <= T <==> m <= i + ArrivalCount(gaps, i, Sum(gaps[..i]), T))
    decreases |gaps| - i
  {
    if i < |gaps| {
      SumSnoc(gaps, i);
      if Sum(gaps[..i]) + gaps[i] <= T {
        ArrivalCountCharacterised(gaps, i + 1, T);
        forall m | i + 1 < m <= |gaps| && Sum(gaps[..m]) <= T ensures Sum(gaps[..i + 1]) <= T {
          PrefixSumMonotone(gaps, i + 1, m);
        }
      } else {
        forall m | i < m <= |gaps| ensures Sum(gaps[..m]) > T {
          PrefixSumMonotone(gaps, i + 1, m);
        }
      }
    }
  }
}
