# Queueing replications with impatient customers — a Dafny model

This project models the Monte Carlo simulator of a multi-server queueing
system. It covers two single-run replications and the statistics taken over
many runs.

- **With impatient customers** (`src/impacientes.py`, `simula_atendimento`).
  - Customers arrive until the horizon `T`.
  - Each arrival joins a FIFO list.
  - The list is then drained onto the earliest-free of `n` servers.
  - The newest arrival then balks with probability `r/(r+n)`. Here `r` is
    the backlog of customers waiting besides it.
  - A customer who balks is retracted from the list.
  - The run returns:
    - the number assigned to a server, `x`;
    - the number who balked, `y`;
    - the balk ratio, `w`;
    - the largest recorded wait, `tm`.
- **The plain loss system** (`src/simples.py`, `simula_atendimento`).
  - A request is accepted by the first earliest-free line if that line is
    free by the request's arrival time.
  - Otherwise the request is rejected.
  - The run returns `(x, y, y/(x+y))`.
- **The fixed-budget loss-system wrapper** (`simula_atendimento_wrapper` in
  `src/simples.py`). It fills the arrays X, Y and W with one replication per
  slot and returns their means.
- **The convergence diagnostics** of `src/impacientes.py`:
  - `mean`;
  - `media_movel`, the cumulative means at the batch checkpoints;
  - the checkpoint list `k_set`.

Every random draw is an input.

- `gaps` holds the interarrival times (`expovariate(lambd)`). They are
  positive where a property needs it.
- `services[x]` is the service time drawn for the x-th assignment
  (`expovariate(mi)`).
- `draws[i]` is a uniform variate in [0, 1) for arrival `i`.
  - The Bernoulli draw `np.random.binomial(1, pr)` is 1 exactly when
    `draws[i] < pr`.
  - So `pr = 0` never balks.
- The holding time `th` of the loss system is a parameter.

Times are modelled as `real`. Counts are `int`.

Modules:

- `Stats` (stats.dfy):
  - `Sum` and `Mean`;
  - the checkpoints `steps, 2*steps, ...`;
  - `MovingAverage`, which is `media_movel`;
  - `ConvergenceDiagnostics`, which holds the four moving averages and
    `k_set`.
- `ServerPool` (server_pool.dfy): `ArgMin` (`np.argmin`, first minimum) and `Max`.
- `Horizon` (horizon.dfy): the number of arrivals within the horizon. It is
  related to the prefix sums of the gaps.
- `Impatient` (impatient.dfy): the impatient-customer replication.
  - It is first given as functions over a `Replication` state:
    - `Admit` (lines 56-58);
    - `Drain` and `AssignNext` (60-65);
    - `Decide` (67-74);
    - `Settle` (76-77);
    - `Arrive` (one iteration);
    - `Run` and `Replicate` (the loop and the whole run).
  - Lemmas then prove that the loop invariant `Valid` is preserved, along
    with the other properties.
  - `SimulateImpatient` is the imperative loop over a free-time array.
    `ArriveStep` is its outer loop body and `DrainServers` its inner
    `while` loop.
    It is proved to return `Replicate`'s outcome.
- `LossSystem` (loss_system.dfy): the loss system.
  - `Offer`, `LossRun` and `LossReplicate` are functions, with lemmas about
    them.
  - `SimulateLoss`, with its loop body `OfferStep`, works in place on the
    line array.
  - `SimulateLossMean` is the wrapper.

The state of `Impatient` also keeps `waits`, the log of every recorded wait.
The source keeps only their maximum, `tm`, and so does the method.
`waits` is ghost in the method.

A recorded wait is `gt_disp[j] - ct_cheg[x]`: the time the server becomes
free after the assignment, minus the arrival time. It therefore includes the
service time. The model keeps this definition.

## Model

| member | source | states |
|---|---|---|
| ServerPool.ArgMin | src/impacientes.py:60-61 | the chosen server has the smallest free time, and every earlier server is strictly later, so ties go to the lowest index |
| Horizon.ArrivalCountCharacterised | src/simples.py:51-52 | with positive gaps, the arrival at the m-th prefix sum of the gaps is admitted exactly when that sum is at most T (both directions) |
| Horizon.ArrivalCountMonotone | src/impacientes.py:55-56 | a longer horizon never admits fewer arrivals |
| Horizon.PrefixSumMonotone | src/impacientes.py:56 | with positive gaps the arrival times never decrease |
| Impatient.AdmitValid | src/impacientes.py:55-58 | appending the arrival goes with k+1: the list still has exactly k increasing entries, and the newest is the new clock |
| Impatient.AssignNextValid | src/impacientes.py:61-65 | one assignment uses a minimum-free-time server j; only j changes, to max(old, arrival)+service; no free time decreases; the wait recorded is positive and at most tm; x grows by one |
| Impatient.Drain | src/impacientes.py:60-65 | draining leaves k, y, the list and the clock alone and never decreases x |
| Impatient.DrainValid | src/impacientes.py:60-65 | draining keeps the invariant and x <= k; it stops with nobody waiting or every server busy past the clock; free times and tm never decrease |
| Impatient.Backlog | src/impacientes.py:67 | the backlog is non-negative, and positive exactly when x < k-1 |
| Impatient.BalkProbability | src/impacientes.py:67-68 | r/(r+n) lies in [0, 1) and is zero exactly when r = 0 |
| Impatient.BalkProbabilityIncreasing | src/impacientes.py:67-68 | the more backlog, the more likely a balk: r/(r+n) never decreases in r |
| Impatient.Decide | src/impacientes.py:67-74 | the balking step keeps k+y and the list length k, and leaves x, the servers and the clock alone |
| Impatient.DecideValid | src/impacientes.py:67-74 | a balk happens iff the draw is below r/(r+n), so only with a positive backlog; the retracted arrival (index k-1 > x) was never assigned; x < k still holds; without a balk nothing changes |
| Impatient.SettleValid | src/impacientes.py:76-77 | w = y/(x+y+(k-x)) equals y/(k+y), the balked share of all arrivals, and lies in [0, 1] |
| Impatient.Arrive | src/impacientes.py:55-77 | one iteration counts the new arrival once in k+y and moves the clock by the gap |
| Impatient.ArriveValid | src/impacientes.py:55-77 | one iteration keeps the invariant, sets w to the balked share, and decreases none of x, y, tm or any free time |
| Impatient.RunValid | src/impacientes.py:55-78 | the loop keeps the invariant (list of length k, x <= k, tm the largest recorded wait, w in [0, 1]) |
| Impatient.RunCounts | src/impacientes.py:55-74 | k+y grows by exactly the number of arrivals within the horizon; with none the state is unchanged |
| Impatient.RunRatio | src/impacientes.py:55-77 | after an arrival, the clock is within T and w is the balked share of all arrivals |
| Impatient.RunMonotone | src/impacientes.py:60-74 | over the run x, y, tm and every free time never decrease |
| Impatient.RunMonotoneInT | src/impacientes.py:55-78 | with the same streams, a longer horizon never gives a smaller x, y or tm |
| Impatient.HorizonMonotone | src/impacientes.py:46-80 | a whole replication over a longer horizon has x, y, x+y and tm at least as large |
| Impatient.ReplicateOutcome | src/impacientes.py:46-80 | the result has x, y >= 0, x+y at most the arrivals, w in [0, 1] equal to y over the arrivals, and tm >= 0 bounding every wait; with no arrival, everything stays zero |
| Impatient.DrainServers | src/impacientes.py:60-65 | the in-place inner loop yields exactly the state Drain describes |
| Impatient.ArriveStep | src/impacientes.py:56-77 | the in-place loop body yields exactly the state Arrive describes |
| Impatient.SimulateImpatient | src/impacientes.py:7-80 | the imperative replication returns Replicate's (x, y, w, tm), with x, y >= 0, x+y at most the arrivals, 0 <= w <= 1 and tm >= 0 |
| LossSystem.LossRun | src/simples.py:51-63 | the loop keeps the number of lines |
| LossSystem.OfferSpec | src/simples.py:51-61 | each request is counted once; it is accepted iff some line is free by its arrival time; then only the first earliest-free line changes, to tr+th; on rejection every line is busy and none changes; with th >= 0 no free time decreases |
| LossSystem.LossRunCounts | src/simples.py:51-61 | x+y grows by exactly the number of arrivals within the horizon; neither count decreases; after an arrival the clock is within T |
| LossSystem.LossRunFreeMonotone | src/simples.py:57-58 | with th >= 0 no line's free time decreases over the run |
| LossSystem.NoRejectionWhenHoldingFitsGaps | src/simples.py:51-61 | when th is at most every gap, no request is ever rejected |
| LossSystem.LossReplicateOutcome | src/simples.py:46-65 | x, y >= 0 and x+y is the number of arrivals; after an arrival y/(x+y) is in [0, 1]; with th at most every gap, y = 0 |
| LossSystem.LossHorizonMonotone | src/simples.py:51-65 | with the same gaps, a longer horizon never gives a smaller x+y |
| LossSystem.OfferStep | src/simples.py:52-61 | the in-place loop body yields exactly the state Offer describes |
| LossSystem.SimulateLoss | src/simples.py:7-65 | the imperative replication returns LossReplicate's x and y and w = y/(x+y); x+y is the number of arrivals, positive; 0 <= w <= 1 |
| LossSystem.EveryReplicationArrives | src/simples.py:79-83 | in each of the wrapper's replications x+y is the number of arrivals, positive, and the ratio is in [0, 1] |
| LossSystem.WrapperMeans | src/simples.py:85 | mean accepted plus mean rejected is the mean number of arrivals; both means are non-negative; the mean ratio is in [0, 1] |
| LossSystem.Store | src/simples.py:81-83 | one replication's outcome goes into slot i of X, Y and W, and no other slot changes |
| LossSystem.SimulateLossMean | src/simples.py:68-85 | the wrapper returns the means of the accepted counts, rejected counts and ratios of the N replications, with the bounds above |
| Stats.MeanBounds | src/impacientes.py:148-149 | the mean lies within any bounds that hold of every element |
| Stats.MeanNonNegative | src/simples.py:85 | a mean of non-negative values is non-negative |
| Stats.MeanPointwise | src/simples.py:85 | the mean of element-wise sums is the sum of the means |
| Stats.CheckpointMeanStep | src/impacientes.py:154-158 | consecutive moving averages: the mean at checkpoint i+1 times its count is the mean at checkpoint i times its count plus the sum of the next batch, so each entry covers every value so far |
| Stats.Checkpoints | src/impacientes.py:154 | there are size//steps checkpoints, the i-th is steps*(i+1), and each lies in (0, size] |
| Stats.CheckpointsIncreasing | src/impacientes.py:154 | the checkpoints strictly increase |
| Stats.CheckpointsComplete | src/impacientes.py:154 | every positive multiple of steps up to size is a checkpoint |
| Stats.LastCheckpointIsCount | src/impacientes.py:154 | when size is a whole number of batches, the last checkpoint is size itself |
| Stats.MovingAverage | src/impacientes.py:152-160 | size//steps entries; entry i is the mean of the first steps*(i+1) values |
| Stats.ConvergenceDiagnostics | src/impacientes.py:137-143 | the four moving averages and k_set, which is exactly the checkpoint list; each average's entry i is the mean up to k_set[i] |

## Left out

- Random generation is not modelled. `expovariate`, `np.random.binomial` and the rates `lambd` and `mi` only shape the injected sequences.
- The methods require a finite stream whose gaps add up past `T` (`Sum(gaps) > T`). The source draws forever until the horizon is passed; with a finite stream, the draw that ends the loop must exist.
- The impatient replication is given one service time and one uniform variate per admitted arrival. The source draws them on demand.
- `std_error`, `intervalo_confianca` and the band lists `LS_w`, `LI_w`, `LS_tm` and `LI_tm` are not modelled. They use NumPy's floating-point `std` (ddof = 0) and `sqrt`.
- The confidence-driven `while interv_confianca >= 0.005` loop of the impatient wrapper is not modelled. Its termination is statistical. `ConvergenceDiagnostics` models only what it returns from the outcome lists.
- `print`, the `__main__` entry points and the unused locals `simulations`, `idx` and `idx_steps` are not modelled.
- Floating-point rounding is not modelled; times and ratios are exact reals.
- Both replications require `n > 0`. With no server, `np.argmin` and `min` raise on an empty array.
- SimulateLoss requires at least one arrival within the horizon (`gaps[0] <= T`). The source divides `y/(x+y)` without a guard and would raise `ZeroDivisionError`.
- SimulateLossMean requires `N > 0`, because the mean of an empty array is NaN in NumPy.
- MovingAverage requires `size <= |v|`. The source always passes `len(X)`. NumPy would clip a longer slice.
- Stats.Checkpoints: the fact that each checkpoint is a multiple of `steps` (`k % steps == 0`) is stated as `ks[i] == steps*(i+1)`, without the modulus.
