/** The per-server free times shared by both simulators: the time at which
    each server (line) next becomes free, and the choice of the server that
    becomes free first. */
module ServerPool {

  function Max(a: real, b: real): real
  {
    if a >= b then a else b
  }

  /** `np.argmin` over the free times: the first index holding the smallest
      free time, so ties go to the lowest-numbered server. */
  function ArgMin(t: seq<real>): (j: nat)
    requires |t| > 0
    ensures j < |t|
    ensures forall i :: 0 <= i < |t| ==> t[j] <= t[i]
    ensures forall i :: 0 <= i < j ==> t[j] < t[i]
  {
    if |t| == 1 then 0
    else
      var j := ArgMin(t[..|t| - 1]);
      if t[|t| - 1] < t[j] then |t| - 1 else j
  }
}
