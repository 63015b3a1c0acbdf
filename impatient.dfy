/** One replication of the multi-server system with impatient customers
    (`simula_atendimento` in src/impacientes.py). Each arrival joins a FIFO
    list; the backlog is drained onto the earliest-free servers; then the
    newest arrival balks with probability r/(r+n), where r is the backlog
    left besides it, and is then retracted from the list.

    The three random streams are injected: `gaps` are the interarrival times,
    `services[x]` the service time drawn for the x-th assignment, and
    `draws[i]` a uniform variate in [0, 1) for arrival i, which balks when
    it falls below the balk probability (a Bernoulli draw). */
module Impatient {
  import opened Stats
  import opened ServerPool
  import opened Horizon

  /** The state of the replication loop. `waits` is the log of every wait
      recorded so far; the source keeps only their maximum `tm`. */
  datatype Replication = Replication(
    free: seq<real>,      // gt_disp: when each server is next free
    arrivals: seq<real>,  // ct_cheg: arrival times of the customers in the system
    clock: real,          // tc: time of the latest arrival
    k: int,               // customers in the system
    x: int,               // customers assigned to a server
    y: int,               // customers who balked
    tm: real,             // largest recorded wait
    w: real,              // running balk ratio
    waits: seq<real>)

  function Initial(n: nat): Replication
  {
    Replication(seq(n, _ => 0.0), [], 0.0, 0, 0, 0, 0.0, 0.0, [])
  }

  /** The invariant of the replication loop: the arrival list holds exactly
      `k` increasing timestamps, no later than the clock; `x <= k`; `tm` is
      the largest recorded wait, every wait being positive. */
  ghost predicate Valid(st: Replication)
  {
    && |st.arrivals| == st.k
    && 0 <= st.x <= st.k
    && 0 <= st.y
    && 0.0 <= st.clock
    && (forall i :: 0 <= i < |st.free| ==> 0.0 <= st.free[i])
    && (forall i, j :: 0 <= i < j < |st.arrivals| ==> st.arrivals[i] < st.arrivals[j])
    && (forall i :: 0 <= i < |st.arrivals| ==> 0.0 < st.arrivals[i] <= st.clock)
    && 0.0 <= st.w <= 1.0
    && 0.0 <= st.tm
    && |st.waits| == st.x
    && (forall i :: 0 <= i < |st.waits| ==> 0.0 < st.waits[i] <= st.tm)
    && (st.waits == [] ==> st.tm == 0.0)
    && (st.waits != [] ==> st.tm in st.waits)
  }

  /** The injected random streams: positive gaps and service times, one
      service time and one uniform variate available per arrival. */
  ghost predicate Streams(gaps: seq<real>, services: seq<real>, draws: seq<real>)
  {
    && Positive(gaps)
    && Positive(services) && |services| >= |gaps|
    && |draws| >= |gaps| && (forall i :: 0 <= i < |draws| ==> 0.0 <= draws[i] < 1.0)
  }

  /** The shape every reachable state has, which the step functions need. */
  predicate WellFormed(st: Replication)
  {
    |st.arrivals| == st.k && 0 <= st.x && 0 <= st.y
  }

  /** A new customer arrives `z` after the previous one and is appended. */
  function Admit(st: Replication, z: real): Replication
  {
    st.(clock := st.clock + z, k := st.k + 1, arrivals := st.arrivals + [st.clock + z])
  }

  /** Serve the oldest unserved arrival on the first earliest-free server:
      service starts once both the server is free and the customer has
      arrived, and lasts the next drawn service time. */
  function AssignNext(st: Replication, services: seq<real>): Replication
    requires |st.free| > 0 && 0 <= st.x < |st.arrivals| && st.x < |services|
  {
    var j := ArgMin(st.free);
    var done := Max(st.free[j], st.arrivals[st.x]) + services[st.x];
    var wait := done - st.arrivals[st.x];
    st.(free := st.free[j := done], tm := Max(st.tm, wait), x := st.x + 1, waits := st.waits + [wait])
  }

  /** The drain loop: assign waiting customers, in arrival order, while the
      earliest-free server is free by the current clock. */
  function Drain(st: Replication, services: seq<real>): (r: Replication)
    requires |st.free| > 0 && 0 <= st.x && st.k <= |st.arrivals| && st.k <= |services|
    ensures |r.free| == |st.free| && r.k == st.k && r.y == st.y && r.arrivals == st.arrivals
    ensures r.clock == st.clock && r.w == st.w && st.x <= r.x
    decreases st.k - st.x
  {
    if st.free[ArgMin(st.free)] <= st.clock && st.x < st.k then
      Drain(AssignNext(st, services), services)
    else
      st
  }

  /** Customers waiting besides the newest arrival: max(0, (k-1) - x). */
  function Backlog(st: Replication): (r: int)
    ensures r >= 0
    ensures r > 0 <==> st.x < st.k - 1
  {
    if (st.k - 1) - st.x > 0 then (st.k - 1) - st.x else 0
  }

  /** The balk probability r/(r+n): in [0, 1), zero exactly without backlog. */
  function BalkProbability(r: int, n: int): (p: real)
    requires r >= 0 && n > 0
    ensures 0.0 <= p < 1.0
    ensures p == 0.0 <==> r == 0
  {
    r as real / (r + n) as real
  }

  /** Comparing two ratios by cross-multiplication. */
  lemma DivCrossLe(p: real, q: real, a: real, b: real)
    requires a > 0.0 && b > 0.0 && p * b <= q * a
    ensures p / a <= q / b
  {
    var u, v := p / a, q / b;
    assert u * a == p && v * b == q;
    assert u * (a * b) == p * b;
    assert v * (a * b) == q * a;
  }

  /** The more customers are backlogged relative to the `n` servers, the
      more likely the newest arrival balks: r/(r+n) never decreases in r. */
  lemma BalkProbabilityIncreasing(r1: int, r2: int, n: int)
    requires 0 <= r1 <= r2 && n > 0
    ensures BalkProbability(r1, n) <= BalkProbability(r2, n)
  {
    var a, b := (r1 + n) as real, (r2 + n) as real;
    var p, q := r1 as real, r2 as real;
    assert p * b == p * q + p * (n as real);
    assert q * a == p * q + q * (n as real);
    assert p * (n as real) <= q * (n as real);
    DivCrossLe(p, q, a, b);
  }

  /** The Bernoulli draw `binomial(1, p) == 1`, driven by a uniform variate. */
  function Balks(u: real, p: real): bool
  {
    u < p
  }

  /** The balking decision for the newest arrival: on a balk, retract it from
      the list and count it as balked. */
  function Decide(st: Replication, u: real, n: int): (r: Replication)
    requires WellFormed(st) && n > 0 && 0.0 <= u
    ensures WellFormed(r) && r.k + r.y == st.k + st.y
    ensures r.x == st.x && r.free == st.free && r.clock == st.clock
  {
    if Balks(u, BalkProbability(Backlog(st), n)) then
      st.(arrivals := st.arrivals[..|st.arrivals| - 1], k := st.k - 1, y := st.y + 1)
    else
      st
  }

  /** The running balk ratio y/(x + y + r), with r = k - x the backlog. */
  function Settle(st: Replication): Replication
    requires st.k + st.y != 0
  {
    var backlog := st.k - st.x;
    st.(w := st.y as real / (st.x + st.y + backlog) as real)
  }

  /** One iteration of the replication loop. */
  function Arrive(st: Replication, z: real, services: seq<real>, u: real, n: int): (r: Replication)
    requires WellFormed(st) && n > 0 && |st.free| == n && st.k < |services| && 0.0 <= u
    ensures WellFormed(r) && |r.free| == n && r.k + r.y == st.k + st.y + 1
    ensures r.clock == st.clock + z
  {
    Settle(Decide(Drain(Admit(st, z), services), u, n))
  }

  /** The replication loop from arrival `i` on, with `i` arrivals processed. */
  function Run(st: Replication, gaps: seq<real>, services: seq<real>, draws: seq<real>, n: int, T: real, i: nat)
    : (r: Replication)
    requires WellFormed(st) && n > 0 && |st.free| == n && Streams(gaps, services, draws)
    requires i <= |gaps| && st.k + st.y == i
    ensures WellFormed(r) && |r.free| == n
    decreases |gaps| - i
  {
    if i < |gaps| && st.clock + gaps[i] <= T then
      Run(Arrive(st, gaps[i], services, draws[i], n), gaps, services, draws, n, T, i + 1)
    else
      st
  }

  /** A whole replication, from idle servers and an empty system. */
  function Replicate(n: int, gaps: seq<real>, services: seq<real>, draws: seq<real>, T: real): (r: Replication)
    requires n > 0 && Streams(gaps, services, draws)
    ensures WellFormed(r) && |r.free| == n
  {
    Run(Initial(n), gaps, services, draws, n, T, 0)
  }

  // ---------------------------------------------------------------------
  // Properties of the steps

  /** Appending the arrival goes with `k + 1`: the list still has `k`
      entries, its timestamps still increase, and the clock moves forward. */
  lemma AdmitValid(st: Replication, z: real)
    requires Valid(st) && z > 0.0
    ensures var r := Admit(st, z);
      Valid(r) && r.k == st.k + 1 && r.arrivals[r.k - 1] == r.clock > st.clock
  {
  }

  /** One assignment takes the first earliest-free server `j`; only `j`'s
      free time changes, to max(old, arrival) + service, so it does not
      decrease; the recorded wait is positive and `tm` covers it. */
  lemma AssignNextValid(st: Replication, services: seq<real>)
    requires Valid(st) && |st.free| > 0 && st.x < st.k && st.x < |services| && Positive(services)
    ensures var r := AssignNext(st, services); var j := ArgMin(st.free);
      && Valid(r)
      && r.x == st.x + 1 && r.k == st.k && r.y == st.y && r.arrivals == st.arrivals
      && |r.free| == |st.free|
      && (forall i :: 0 <= i < |st.free| ==> st.free[j] <= st.free[i])
      && r.free[j] == Max(st.free[j], st.arrivals[st.x]) + services[st.x]
      && (forall i :: 0 <= i < |st.free| && i != j ==> r.free[i] == st.free[i])
      && (forall i :: 0 <= i < |st.free| ==> st.free[i] <= r.free[i])
      && r.waits == st.waits + [r.free[j] - st.arrivals[st.x]]
      && 0.0 < r.free[j] - st.arrivals[st.x] <= r.tm
      && st.tm <= r.tm
  {
    var r := AssignNext(st, services);
    var j := ArgMin(st.free);
    var wait := r.free[j] - st.arrivals[st.x];
    assert wait >= services[st.x] > 0.0;
    assert forall i :: 0 <= i < |st.waits| ==> r.waits[i] == st.waits[i];
  }

  /** Draining keeps the invariant and `x <= k`; afterwards either nobody
      waits or every server is busy past the clock; no free time decreases. */
  lemma {:induction false} DrainValid(st: Replication, services: seq<real>)
    requires Valid(st) && |st.free| > 0 && st.k <= |services| && Positive(services)
    ensures var r := Drain(st, services);
      && Valid(r)
      && st.x <= r.x <= r.k
      && (r.x == r.k || r.free[ArgMin(r.free)] > r.clock)
      && (forall i :: 0 <= i < |st.free| ==> st.free[i] <= r.free[i])
      && st.tm <= r.tm
    decreases st.k - st.x
  {
    if st.free[ArgMin(st.free)] <= st.clock && st.x < st.k {
      var next := AssignNext(st, services);
      AssignNextValid(st, services);
      DrainValid(next, services);
    }
  }

  /** Balking happens exactly when the draw falls below the balk
      probability, hence only when there is a backlog. The retracted
      arrival is the newest one, at index k-1 > x, so it was never assigned,
      and `x < k` still holds afterwards. */
  lemma DecideValid(st: Replication, u: real, n: int)
    requires Valid(st) && n > 0 && 0.0 <= u
    ensures var r := Decide(st, u, n);
      && Valid(r)
      && r.k + r.y == st.k + st.y && r.x == st.x && r.tm == st.tm && r.waits == st.waits
      && (r.y == st.y + 1 <==> Balks(u, BalkProbability(Backlog(st), n)))
      && (r.y == st.y + 1 ==>
            Backlog(st) > 0 && st.x < st.k - 1 && r.k == st.k - 1
            && r.arrivals == st.arrivals[..st.k - 1] && r.x < r.k)
      && (r.y != st.y + 1 ==> r == st)
  {
  }

  /** The ratio y/(x + y + (k - x)) is the share of all arrivals so far, the
      `k + y` of them, that balked; it lies in [0, 1]. */
  lemma SettleValid(st: Replication)
    requires Valid(st) && st.k + st.y > 0
    ensures var r := Settle(st);
      && Valid(r) && r == st.(w := r.w)
      && r.w == (st.y as real) / ((st.k + st.y) as real)
  {
    RatioBounds(st.y, st.k + st.y);
  }

  /** One arrival keeps the invariant, is counted once in `k + y`, leaves
      `w` the balked share of all arrivals and decreases nothing. */
  lemma ArriveValid(st: Replication, z: real, services: seq<real>, u: real, n: int)
    requires Valid(st) && n > 0 && |st.free| == n && z > 0.0
    requires st.k < |services| && Positive(services) && 0.0 <= u
    ensures var r := Arrive(st, z, services, u, n);
      && Valid(r)
      && r.w == (r.y as real) / ((r.k + r.y) as real)
      && st.x <= r.x && st.y <= r.y <= st.y + 1 && st.tm <= r.tm
      && (forall i :: 0 <= i < n ==> st.free[i] <= r.free[i])
  {
    var a := Admit(st, z);
    AdmitValid(st, z);
    var d := Drain(a, services);
    DrainValid(a, services);
    var b := Decide(d, u, n);
    DecideValid(d, u, n);
    SettleValid(b);
  }

  // ---------------------------------------------------------------------
  // Properties of a whole replication

  /** The loop keeps the invariant. */
  lemma {:induction false} RunValid(st: Replication, gaps: seq<real>, services: seq<real>, draws: seq<real>, n: int, T: real, i: nat)
    requires Valid(st) && n > 0 && |st.free| == n && Streams(gaps, services, draws)
    requires i <= |gaps| && st.k + st.y == i
    ensures Valid(Run(st, gaps, services, draws, n, T, i))
    decreases |gaps| - i
  {
    if i < |gaps| && st.clock + gaps[i] <= T {
      var next := Arrive(st, gaps[i], services, draws[i], n);
      ArriveValid(st, gaps[i], services, draws[i], n);
      RunValid(next, gaps, services, draws, n, T, i + 1);
    }
  }

  /** Every arrival within the horizon is counted exactly once, in `k` if it
      stayed or in `y` if it balked; with no arrival the state is unchanged. */
  lemma {:induction false} RunCounts(st: Replication, gaps: seq<real>, services: seq<real>, draws: seq<real>, n: int, T: real, i: nat)
    requires WellFormed(st) && n > 0 && |st.free| == n && Streams(gaps, services, draws)
    requires i <= |gaps| && st.k + st.y == i
    ensures var r := Run(st, gaps, services, draws, n, T, i);
      && r.k + r.y == st.k + st.y + ArrivalCount(gaps, i, st.clock, T)
      && (ArrivalCount(gaps, i, st.clock, T) == 0 ==> r == st)
    decreases |gaps| - i
  {
    if i < |gaps| && st.clock + gaps[i] <= T {
      var next := Arrive(st, gaps[i], services, draws[i], n);
      RunCounts(next, gaps, services, draws, n, T, i + 1);
    }
  }

  /** Once an arrival has happened, the clock is within the horizon and `w`
      is the balked share of all arrivals. */
  lemma {:induction false} RunRatio(st: Replication, gaps: seq<real>, services: seq<real>, draws: seq<real>, n: int, T: real, i: nat)
    requires Valid(st) && n > 0 && |st.free| == n && Streams(gaps, services, draws)
    requires i < |gaps| && st.k + st.y == i && st.clock + gaps[i] <= T
    ensures var r := Run(st, gaps, services, draws, n, T, i);
      r.clock <= T && r.k + r.y > 0 && r.w == (r.y as real) / ((r.k + r.y) as real)
    decreases |gaps| - i
  {
    var next := Arrive(st, gaps[i], services, draws[i], n);
    ArriveValid(st, gaps[i], services, draws[i], n);
    if i + 1 < |gaps| && next.clock + gaps[i + 1] <= T {
      RunRatio(next, gaps, services, draws, n, T, i + 1);
    }
  }

  /** Over a run the counters `x`, `y`, the maximum wait `tm` and every
      server's free time never decrease. */
  lemma {:induction false} RunMonotone(st: Replication, gaps: seq<real>, services: seq<real>, draws: seq<real>, n: int, T: real, i: nat)
    requires Valid(st) && n > 0 && |st.free| == n && Streams(gaps, services, draws)
    requires i <= |gaps| && st.k + st.y == i
    ensures var r := Run(st, gaps, services, draws, n, T, i);
      && st.x <= r.x && st.y <= r.y && st.tm <= r.tm
      && (forall j :: 0 <= j < n ==> st.free[j] <= r.free[j])
    decreases |gaps| - i
  {
    if i < |gaps| && st.clock + gaps[i] <= T {
      var next := Arrive(st, gaps[i], services, draws[i], n);
      ArriveValid(st, gaps[i], services, draws[i], n);
      RunMonotone(next, gaps, services, draws, n, T, i + 1);
    }
  }

  /** For the same random streams, a longer horizon never assigns, balks or
      records less: `x`, `y` and `tm` do not decrease as `T` grows. Up to
      the shorter horizon both runs take the same steps; the longer one may
      only continue. */
  lemma {:induction false} RunMonotoneInT(st: Replication, gaps: seq<real>, services: seq<real>, draws: seq<real>,
                                          n: int, T1: real, T2: real, i: nat)
    requires Valid(st) && n > 0 && |st.free| == n && Streams(gaps, services, draws)
    requires i <= |gaps| && st.k + st.y == i && T1 <= T2
    ensures var r1, r2 := Run(st, gaps, services, draws, n, T1, i), Run(st, gaps, services, draws, n, T2, i);
      r1.x <= r2.x && r1.y <= r2.y && r1.tm <= r2.tm
    decreases |gaps| - i
  {
    if i < |gaps| && st.clock + gaps[i] <= T1 {
      var next := Arrive(st, gaps[i], services, draws[i], n);
      ArriveValid(st, gaps[i], services, draws[i], n);
      RunMonotoneInT(next, gaps, services, draws, n, T1, T2, i + 1);
    } else {
      RunMonotone(st, gaps, services, draws, n, T2, i);
    }
  }

  /** A whole replication over a longer horizon, with the same streams,
      has at least as many assigned and balked customers, so `x + y` never
      decreases in `T`. */
  lemma HorizonMonotone(n: int, gaps: seq<real>, services: seq<real>, draws: seq<real>, T1: real, T2: real)
    requires n > 0 && Streams(gaps, services, draws) && T1 <= T2
    ensures var r1, r2 := Replicate(n, gaps, services, draws, T1), Replicate(n, gaps, services, draws, T2);
      r1.x <= r2.x && r1.y <= r2.y && r1.x + r1.y <= r2.x + r2.y && r1.tm <= r2.tm
  {
    RunMonotoneInT(Initial(n), gaps, services, draws, n, T1, T2, 0);
  }

  /** The outcome of a whole replication: every arrival within the horizon
      is either still in the system or balked, so `x + y` is at most the
      number of arrivals and `w` is the balked share of them, in [0, 1];
      `tm` is the largest recorded wait; with no arrival all stay zero. */
  lemma ReplicateOutcome(n: int, gaps: seq<real>, services: seq<real>, draws: seq<real>, T: real)
    requires n > 0 && Streams(gaps, services, draws)
    ensures var r := Replicate(n, gaps, services, draws, T); var c := ArrivalCount(gaps, 0, 0.0, T);
      && Valid(r) && |r.free| == n
      && r.k + r.y == c
      && 0 <= r.x && 0 <= r.y && r.x + r.y <= c
      && 0.0 <= r.w <= 1.0 && 0.0 <= r.tm
      && (forall j :: 0 <= j < |r.waits| ==> r.waits[j] <= r.tm)
      && (c == 0 ==> r == Initial(n))
      && (c > 0 ==> r.clock <= T && r.w == (r.y as real) / (c as real))
  {
    RunValid(Initial(n), gaps, services, draws, n, T, 0);
    RunCounts(Initial(n), gaps, services, draws, n, T, 0);
    if ArrivalCount(gaps, 0, 0.0, T) > 0 {
      RunRatio(Initial(n), gaps, services, draws, n, T, 0);
    }
  }

  /** The inner `while` of `simula_atendimento`: hand waiting customers, in
      arrival order, to the first earliest-free server while that server is
      free by the clock `tc`. It updates the free-time array in place and
      returns the new assignment count and maximum wait; the resulting
      state is the one `Drain` describes. */
  method DrainServers(freeAt: array<real>, arrivals: seq<real>, tc: real, k: int, x0: int, y: int,
                      tm0: real, w: real, ghost waits0: seq<real>, services: seq<real>)
    returns (x: int, tm: real, ghost waits: seq<real>)
    modifies freeAt
    requires freeAt.Length > 0 && |arrivals| == k && 0 <= x0 && 0 <= y && k <= |services|
    ensures Replication(freeAt[..], arrivals, tc, k, x, y, tm, w, waits)
      == Drain(Replication(old(freeAt[..]), arrivals, tc, k, x0, y, tm0, w, waits0), services)
  {
    ghost var start := Replication(freeAt[..], arrivals, tc, k, x0, y, tm0, w, waits0);
    x, tm, waits := x0, tm0, waits0;
    while freeAt[ArgMin(freeAt[..])] <= tc && x < k
      invariant 0 <= x
      invariant Drain(Replication(freeAt[..], arrivals, tc, k, x, y, tm, w, waits), services)
        == Drain(start, services)
      decreases k - x
    {
      ghost var cur := Replication(freeAt[..], arrivals, tc, k, x, y, tm, w, waits);
      var j := ArgMin(freeAt[..]);
      var a := services[x];
      freeAt[j] := Max(freeAt[j], arrivals[x]) + a;
      tm := Max(tm, freeAt[j] - arrivals[x]);
      waits := waits + [freeAt[j] - arrivals[x]];
      x := x + 1;
      assert freeAt[..] == cur.free[j := freeAt[j]];
      assert Replication(freeAt[..], arrivals, tc, k, x, y, tm, w, waits) == AssignNext(cur, services);
    }
  }

  /** One pass of the outer loop of `simula_atendimento`, for an arrival `z`
      after the previous one with balking variate `u`: record the arrival,
      drain the backlog onto the servers, let the newest arrival balk or
      stay, and update the balk ratio. The resulting state is `Arrive`'s. */
  method ArriveStep(freeAt: array<real>, arrivals0: seq<real>, tc0: real, k0: int, x0: int, y0: int,
                    tm0: real, w0: real, ghost waits0: seq<real>, z: real, services: seq<real>, u: real, n: int)
    returns (arrivals: seq<real>, tc: real, k: int, x: int, y: int, tm: real, w: real, ghost waits: seq<real>)
    modifies freeAt
    requires freeAt.Length == n && n > 0 && |arrivals0| == k0 && 0 <= x0 && 0 <= y0
    requires k0 < |services| && 0.0 <= u
    ensures Replication(freeAt[..], arrivals, tc, k, x, y, tm, w, waits)
      == Arrive(Replication(old(freeAt[..]), arrivals0, tc0, k0, x0, y0, tm0, w0, waits0), z, services, u, n)
  {
    ghost var before := Replication(freeAt[..], arrivals0, tc0, k0, x0, y0, tm0, w0, waits0);
    tc := tc0 + z;
    k := k0 + 1;
    arrivals := arrivals0 + [tc];
    ghost var admitted := Replication(freeAt[..], arrivals, tc, k, x0, y0, tm0, w0, waits0);
    assert admitted == Admit(before, z);
    x, tm, waits := DrainServers(freeAt, arrivals, tc, k, x0, y0, tm0, w0, waits0, services);
    y := y0;
    ghost var drained := Replication(freeAt[..], arrivals, tc, k, x, y, tm, w0, waits);
    assert drained == Drain(admitted, services);
    var r := if (k - 1) - x > 0 then (k - 1) - x else 0;
    var pr := BalkProbability(r, n);
    var s := Balks(u, pr);
    if s {
      arrivals := arrivals[..|arrivals| - 1];
      k := k - 1;
      y := y + 1;
    }
    ghost var decided := Replication(freeAt[..], arrivals, tc, k, x, y, tm, w0, waits);
    assert decided == Decide(drained, u, n);
    r := k - x;
    w := y as real / (x + y + r) as real;
    assert Replication(freeAt[..], arrivals, tc, k, x, y, tm, w, waits) == Settle(decided);
  }

  /** `simula_atendimento`: the replication as the source runs it, on an
      array of free times and a list of arrival times; it returns
      (x, y, w, tm) of the replication above. */
  method SimulateImpatient(n: int, gaps: seq<real>, services: seq<real>, draws: seq<real>, T: real)
    returns (x: int, y: int, w: real, tm: real)
    requires n > 0 && Streams(gaps, services, draws)
    requires |gaps| > 0 && Sum(gaps) > T
    ensures var r := Replicate(n, gaps, services, draws, T);
      x == r.x && y == r.y && w == r.w && tm == r.tm
    ensures 0 <= x && 0 <= y && x + y <= ArrivalCount(gaps, 0, 0.0, T)
    ensures 0.0 <= w <= 1.0 && 0.0 <= tm
  {
    var tc := 0.0;
    var freeAt := new real[n](_ => 0.0);
    var k := 0;
    var arrivals: seq<real> := [];
    x, y, w := 0, 0, 0.0;
    tm := 0.0;
    ghost var waits: seq<real> := [];
    var i := 0;
    var z := gaps[0];
    assert freeAt[..] == Initial(n).free;
    while tc + z <= T
      invariant 0 <= i < |gaps| && z == gaps[i]
      invariant tc == Sum(gaps[..i])
      invariant freeAt.Length == n
      invariant WellFormed(Replication(freeAt[..], arrivals, tc, k, x, y, tm, w, waits))
      invariant k + y == i
      invariant Run(Replication(freeAt[..], arrivals, tc, k, x, y, tm, w, waits), gaps, services, draws, n, T, i)
        == Replicate(n, gaps, services, draws, T)
      decreases |gaps| - i
    {
      ghost var before := Replication(freeAt[..], arrivals, tc, k, x, y, tm, w, waits);
      arrivals, tc, k, x, y, tm, w, waits := ArriveStep(freeAt, arrivals, tc, k, x, y, tm, w, waits, z, services, draws[i], n);
      assert Replication(freeAt[..], arrivals, tc, k, x, y, tm, w, waits)
        == Arrive(before, gaps[i], services, draws[i], n);
      SumSnoc(gaps, i);
      i := i + 1;
      z := gaps[i];
    }
    ReplicateOutcome(n, gaps, services, draws, T);
  }
}
