# Firefly synchronisation experiment: a Dafny model

This project models the discrete core of `WhitePaperFireflyExperiment`: a population of moving
"fireflies" with two phase-oscillator models side by side. One is a first-order Kuramoto model
on a global graph; the other is a second-order "IRE" model on a bounded-visibility graph.

The model covers:

- the per-agent state arrays and the interaction graphs (`update_visibility`);
- one integration step (`update_models`), with its flash detection and logging, spontaneous
  resets, the one-shot perturbation, movement with boundary reflection, and the cadence of
  graph refreshes;
- the driver loop (`run_simulation`);
- the local-synchrony part of `calculate_multi_scale_sync` and the recovery tracking;
- the four post-run analyzers: flash synchrony, cycle regularity, spatial coherence and
  phase transitions.

Floats are modelled as `real`. The library functions `sin`, `cos`, `exp`, `sqrt` and `arctan2`
are fields of a `Math` record that every operation takes as a parameter. `Lawful(m)` states the
only facts the proofs use about them: `exp` is positive, `sqrt` is non-negative with
`sqrt(0) = 0` and `sqrt(1) = 1`, and `arctan2(0, x)` is pi for negative x and 0 for positive x.
Python's `x % (2*np.pi)` is modelled as a floor-mod on reals by `2 * Pi`, where `Pi` is the
shortest decimal form of the double `np.pi`. The floor-mod is exact on reals. Float rounding is
not modelled: for a tiny negative x, the float `%` can round up to 2*pi itself.
Random draws become parameters. The constructor takes an `InitialDraws` record, and every step
of the driver takes a `StepDraws` record.

Modules, one file each:

- `math.dfy` (`MathModel`): `Math`, `Mod2Pi`, `Sum`, `Mean`, `Std`, `Diff` and `Linspace`.
- `sequences.dfy` (`Sequences`): three facts about sequence prefixes.
- `visibility.dfy` (`Visibility`): distances, angles, the baseline and enhanced rows, and the
  loop that builds both graphs.
- `dynamics.dfy` (`Dynamics`): the value-level pieces of a step. These are the rates, the wrap
  detector, spontaneous resets, perturbation sizing, the refresh cadence, reflection, the flash
  logs as functions of the flashing rows, and the recovery window.
- `multiscale.dfy` (`MultiScale`): `np.where`, the adjacency rows and the local order parameters.
- `experiment.dfy` (`Experiment`): the class `FireflyExperiment`. Its per-agent state lives in
  arrays updated in place, and its graphs, flash records and series live in fields that the
  methods reassign. `Valid(c)` is the invariant after `c` steps. It ties every flash log to the
  flashing rows and every recovery list to the order-parameter series, and it keeps the
  perturbation flag.
- `synchrony.dfy` (`Synchrony`): `calculate_flash_synchrony`.
- `analysis.dfy` (`Analysis`): `calculate_cycle_regularity`, `calculate_spatial_coherence` and
  `calculate_phase_transitions`.

Every analyzer method is proved equal to a specification function. The lemmas beside each
function state what the source promises: bounds, sentinels, and soundness with completeness.

The model follows the code in these details:

- The synchrony analyzer returns the infinite sentinel when the total number of logged flashes
  is below `n // 2`. It does not count the agents that flashed.
- A new cycle opens when the gap between consecutive flashes is at least a third of the
  typical period, not only when it exceeds it.
- An agent is left out of a visibility row when it is at distance zero, not only when it is the
  agent itself. Two agents sharing a position do not see each other.

The model departs from the code here:

- The source computes the view-cone angle as `arctan2(y_i - y_j, x_i - x_j)`, which is the
  direction from j towards i. `Visibility.AnglesAsWritten` models that formula, and "## Findings"
  shows what it does. The class builds its enhanced graph from the corrected bearing, from i
  towards j (`Visibility.Bearings`). The gap is listed under "## Left out".

## Model

| member | source | states |
|---|---|---|
| MathModel.Mod2Pi | firefly/firefly.py:243-244 | Python's `% (2*np.pi)` always lies in [0, 2*pi) |
| MathModel.Mod2PiOf | firefly/firefly.py:243-244 | the reduction is the unique s in [0, 2*pi) with x = 2*pi*k + s, and k is the floor of x / (2*pi) |
| MathModel.Diff | firefly/firefly.py:493 | `np.diff` has one fewer element than a non-empty input, and element k is the step from k to k+1 |
| MathModel.Linspace | firefly/firefly.py:75 | the sample times: `num` samples from `start`, ending exactly at `stop` |
| MathModel.SumDiffTelescopes | firefly/firefly.py:493-494 | the intervals of a log sum to its last entry minus its first |
| Visibility.Distances | firefly/firefly.py:110-112 | the distance matrix is square and symmetric, with a zero diagonal and no negative entries |
| Visibility.AnglesAsWritten | firefly/firefly.py:110-115 | entry (i, j) is `arctan2(y_i - y_j, x_i - x_j)`, the direction from j towards i |
| Visibility.Bearings | firefly/firefly.py:110-115 | entry (i, j) is the bearing from agent i towards agent j |
| Visibility.Others | firefly/firefly.py:124 | an agent is a candidate exactly when its distance is positive |
| Visibility.RelativeDegrees | firefly/firefly.py:130-132 | the relative angle in degrees lies in [0, 360) |
| Visibility.EnhancedMask | firefly/firefly.py:130-135 | agent j is visible exactly when it is in the cone, within vision range and at a positive distance |
| Visibility.DecayWeights | firefly/firefly.py:140 | the weight of j is `exp(-d/10)` when j is visible and 0 otherwise |
| Visibility.BaselineRowStochastic | firefly/firefly.py:124-127 | every agent at positive distance gets 1/count and every other agent 0; the row is non-negative and sums to 1 exactly when some agent qualifies (otherwise all zero) |
| Visibility.BaselineRowWeights | firefly/firefly.py:124-127 | with at least one qualifying agent, entry j is 1/count when d[j] > 0 and 0 otherwise |
| Visibility.BaselineRowSum | firefly/firefly.py:125-127 | with at least one qualifying agent, the baseline row sums to 1 |
| Visibility.EnhancedRowStochastic | firefly/firefly.py:130-143 | an enhanced weight is positive exactly for the visible agents and zero for the rest; the row is non-negative and sums to 1 exactly when some agent is visible (otherwise all zero) |
| Visibility.DecayWeightsPositive | firefly/firefly.py:138-142 | a decay weight is positive exactly on the mask and zero off it |
| Visibility.BaselineGraph | firefly/firefly.py:118-127 | row i of the baseline graph is agent i's baseline row |
| Visibility.EnhancedGraph | firefly/firefly.py:118-143 | row i of the enhanced graph is agent i's enhanced row, from its own distances, bearings and orientation |
| Visibility.BuildGraphs | firefly/firefly.py:117-143 | the row-by-row loop produces exactly the baseline and enhanced graphs |
| Visibility.AheadHiddenAsWritten | firefly/firefly.py:110-135 | with the angle as written, an agent straight ahead at distance 1 is outside the 270-degree cone and gets weight 0 |
| Visibility.AheadVisible | firefly/firefly.py:130-143 | with the bearing from i to j, an agent straight ahead and within range is visible and gets positive weight, for any cone width |
| Visibility.AheadVisibleExample | firefly/firefly.py:130-143 | with the bearing, the configuration that exposes the defect gives the agent ahead all of agent 0's weight |
| Dynamics.KuramotoRates | firefly/firefly.py:178-179 | `phase_changes` has one rate per agent |
| Dynamics.IreAccelerations | firefly/firefly.py:183-187 | `phase_accelerations` has one entry per agent |
| Dynamics.Advance | firefly/firefly.py:180-191 | an explicit Euler step moves each entry by its rate times dt |
| Dynamics.OrderParameter | firefly/firefly.py:259-260 | the order parameter of a non-empty population is non-negative |
| Dynamics.Detect | firefly/firefly.py:243-245 | the flashing row holds, for each agent, the one-step wrap test on its phase and rate |
| Dynamics.FlashedIffWrapped | firefly/firefly.py:243-245 | for a step shorter than a full turn, the detector fires exactly when the phase crossed a multiple of 2*pi |
| Dynamics.NoFlashAtRest | firefly/firefly.py:251-253 | an agent whose angular velocity is zero, like a perturbed IRE agent, never flashes |
| Dynamics.ResetRegistersAsFlash | firefly/firefly.py:225-245 | a phase reset to 0 with a positive step below a full turn is reported as a flash |
| Dynamics.SpontaneousMask | firefly/firefly.py:225 | an agent resets spontaneously exactly when its draw is below 0.0001 |
| Dynamics.ResetWhere | firefly/firefly.py:226-228 | masked phases become 0 and the others are unchanged |
| Dynamics.DisturbCount | firefly/firefly.py:234 | `int(0.2 * n)` is `n // 5` |
| Dynamics.FifthFloor | firefly/firefly.py:234 | the floor of 0.2 * n equals n // 5 for every n |
| Dynamics.PerturbationStep | firefly/firefly.py:97 | the perturbation step `int(0.6 * steps)` lies inside the run when the run is non-empty |
| Dynamics.StepCount | firefly/firefly.py:27 | `int(duration / dt)` is the number of whole steps of length dt that fit in a non-negative duration, and 0 for a duration in (-dt, 0) |
| Dynamics.Scatter | firefly/firefly.py:236-239 | `s[idx] = vals` with distinct indices: each listed entry takes its value and every other entry is kept |
| Dynamics.ScatterUnique | firefly/firefly.py:236-239 | any sequence that holds `vals` at the listed indices and agrees with `s` elsewhere is `Scatter(s, idx, vals)` |
| Dynamics.DistinctIndicesCount | firefly/firefly.py:234 | indices drawn without replacement name exactly as many agents as there are indices |
| Dynamics.VisibilityInterval | firefly/firefly.py:217 | `max(10, min(50, n // 100))` lies between 10 and 50 |
| Dynamics.RefreshWithinInterval | firefly/firefly.py:217-219 | every window of `VisibilityInterval(n)` consecutive steps contains a refresh step |
| Dynamics.ReflectFlipsIffOutside | firefly/firefly.py:206-209 | a non-zero velocity component flips sign exactly when the position is outside the boundary, and is kept exactly when inside |
| Dynamics.FlashStamps | firefly/firefly.py:246-248 | an agent's log holds at most one timestamp per recorded step |
| Dynamics.FlashStampsIncreasing | firefly/firefly.py:246-256 | a flash log is strictly increasing and holds only timestamps of steps already taken |
| Dynamics.FlashStampsCount | firefly/firefly.py:246-248 | agent i's log has one entry per recorded step whose flashing row marks i |
| Dynamics.AppendFlashes | firefly/firefly.py:246-247 | each flashing agent's log gains the step's timestamp at its end; the other logs are unchanged |
| Dynamics.RecoveryWindow | firefly/firefly.py:381-386 | the recovery list after c steps has one entry per recorded step after the perturbation step |
| Dynamics.FlashStampsStep | firefly/firefly.py:246-256 | recording a step extends every log by at most that step's timestamp |
| Dynamics.FlashStampsLast | firefly/firefly.py:246-248 | the last recorded row contributes the last timestamp, if any |
| Dynamics.RecoveryWindowStep | firefly/firefly.py:381-386 | recording step c appends its order parameter to the recovery list exactly when c is past the perturbation step, and removes nothing |
| MultiScale.Where | firefly/firefly.py:362 | `np.where` returns in increasing order exactly the indices where the mask holds, one per true entry |
| MultiScale.WhereComplete | firefly/firefly.py:362 | every index where the mask holds is returned |
| MultiScale.Adjacency | firefly/firefly.py:354-355 | j is adjacent to i exactly when j differs from i and is closer than 10 |
| MultiScale.Gather | firefly/firefly.py:365 | indexing by a list of indices picks the listed entries in list order; it serves both the local groups and the transition times of lines 569-570 |
| MultiScale.Group | firefly/firefly.py:365 | the local group is the neighbours followed by the agent itself |
| MultiScale.LocalOrders | firefly/firefly.py:361-372 | at most one local order parameter per agent is collected, each non-negative |
| MultiScale.QualifyingMask | firefly/firefly.py:363 | the mask marks the agents with more than two neighbours |
| MultiScale.LocalOrdersCount | firefly/firefly.py:361-372 | exactly one local order parameter is collected per qualifying agent |
| MultiScale.LocalSyncDefault | firefly/firefly.py:374-375 | the local synchrony is the 0 default exactly when no agent has more than two neighbours, and it is never negative |
| MultiScale.LocalSync | firefly/firefly.py:358-375 | the loop computes the mean local order parameter of each model, or 0 when none |
| Synchrony.Enumerate | firefly/firefly.py:451 | each flash is paired with its position in its agent's log |
| Synchrony.AllFlashesCount | firefly/firefly.py:449-451 | `all_flashes` has one entry per logged flash |
| Synchrony.CollectFlashes | firefly/firefly.py:449-451 | the extending loop builds exactly `all_flashes` |
| Synchrony.InsertSorted | firefly/firefly.py:454 | inserting into a sorted list keeps it sorted and adds exactly one element |
| Synchrony.SortSorted | firefly/firefly.py:454 | the sort result is ordered by (time, index) and is a permutation of its input |
| Synchrony.SortUnique | firefly/firefly.py:454 | any sorted permutation of the flashes is the sort result |
| Synchrony.SortedSame | firefly/firefly.py:454 | two sorted lists with the same elements are equal |
| Synchrony.Scan | firefly/firefly.py:459-474 | the scan of a non-empty prefix yields at least one cluster, and its last cluster is non-empty |
| Synchrony.ScanStep | firefly/firefly.py:464-471 | a flash less than the gap after its predecessor joins the last cluster, and otherwise opens a new one |
| Synchrony.JoinCluster | firefly/firefly.py:466-467 | joining a close flash to the last cluster keeps the partition |
| Synchrony.OpenCluster | firefly/firefly.py:468-471 | opening a cluster for a distant flash keeps the partition |
| Synchrony.ScanClusters | firefly/firefly.py:459-474 | the clusters, joined in order, are the sorted flashes; members of a cluster follow each other by less than the gap; consecutive clusters are separated by at least the gap |
| Synchrony.Keep | firefly/firefly.py:469-474 | every kept cycle has at least n // 5 members and is one of the clusters |
| Synchrony.KeepComplete | firefly/firefly.py:469-474 | every cluster with at least n // 5 members is kept |
| Synchrony.Later | firefly/firefly.py:477-478 | with more than four cycles only the last `len - len // 2` are used; otherwise all are |
| Synchrony.Spreads | firefly/firefly.py:484 | one standard deviation per cycle, over that cycle's flash times |
| Synchrony.CyclesAttended | firefly/firefly.py:455-478 | every measured cycle is a non-empty cluster of the sorted flashes with at least n // 5 members |
| Synchrony.SynchronySentinel | firefly/firefly.py:455-485 | the result is infinite exactly when fewer than n // 2 flashes were logged or no cycle survives; otherwise it is a non-negative mean spread |
| Synchrony.ScannedStep | firefly/firefly.py:464-471 | one turn of the greedy loop keeps the open cycle and the kept cycles in step with the scan |
| Synchrony.GreedyCycles | firefly/firefly.py:459-474 | the greedy loop returns the clusters of the scan that reach the participation bound, in order |
| Synchrony.FlashSynchrony | firefly/firefly.py:446-485 | the method computes `SynchronyOf`: infinite below n // 2 flashes or without a surviving cycle, and otherwise the mean spread of the later cycles, each an attended cluster (see SynchronySentinel and CyclesAttended) |
| Analysis.Regularity | firefly/firefly.py:493-496 | a measured log's regularity `1 - cv` is at most 1 |
| Analysis.Regularities | firefly/firefly.py:491-496 | at most one regularity per log, each at most 1 |
| Analysis.RegularitiesEmpty | firefly/firefly.py:491-496 | nothing is collected exactly when no log has more than five flashes and a positive mean interval |
| Analysis.RegularityDefault | firefly/firefly.py:498-501 | the regularity is the 0.0 default exactly when no log qualifies, and it is never above 1 |
| Analysis.IncreasingMeasured | firefly/firefly.py:492-494 | a strictly increasing log with more than five flashes always has a positive mean interval |
| Analysis.CycleRegularity | firefly/firefly.py:487-501 | the loop returns the mean regularity of the qualifying logs, or 0.0 when none qualify |
| Analysis.Nearest | firefly/firefly.py:533 | `min(..., key=abs(t - x))` returns the first entry closest to x |
| Analysis.NeighbourDiffs | firefly/firefly.py:531-534 | one difference per own flash: its distance to the neighbour's closest flash |
| Analysis.Diffs | firefly/firefly.py:525-534 | the collected differences are never negative |
| Analysis.DiffsEmpty | firefly/firefly.py:525-534 | an agent with flashes collects nothing exactly when every listed neighbour has fewer than three flashes |
| Analysis.Nearby | firefly/firefly.py:516-519 | the nearby list holds agent indices only |
| Analysis.AgentDiffs | firefly/firefly.py:511-534 | an agent's differences are never negative |
| Analysis.Contributes | firefly/firefly.py:511-536 | an agent contributes exactly when it has at least three flashes and some other agent closer than 10 has at least three |
| Analysis.PerAgent | firefly/firefly.py:511-534 | one non-negative list of differences per agent, in agent order |
| Analysis.NonEmpty | firefly/firefly.py:536 | at most one contribution per agent |
| Analysis.NonEmptyNone | firefly/firefly.py:536-541 | no agent contributes exactly when every agent's list is empty |
| Analysis.NonEmptyMeasurable | firefly/firefly.py:536-538 | every contribution is non-empty and non-negative |
| Analysis.Coherence | firefly/firefly.py:538 | each coherence `1 / (1 + mean)` lies in (0, 1] |
| Analysis.Coherences | firefly/firefly.py:536-539 | one coherence per contribution, each in (0, 1] |
| Analysis.CoherencesAppend | firefly/firefly.py:539 | a new contribution appends its coherence at the end |
| Analysis.SpatialDefault | firefly/firefly.py:541-544 | the spatial coherence is 0.0 when no agent contributes and lies in (0, 1] when some agent does |
| Analysis.SpatialStep | firefly/firefly.py:536-539 | one agent's turn adds a coherence exactly when its list is non-empty |
| Analysis.AgentDiffsCases | firefly/firefly.py:511-534 | an agent with fewer than three flashes or without neighbours collects nothing, and otherwise collects over its neighbours |
| Analysis.CompareFlashes | firefly/firefly.py:531-534 | the innermost loop computes the neighbour differences |
| Analysis.CollectDiffs | firefly/firefly.py:525-534 | the loop over the neighbours computes the agent's differences |
| Analysis.AgentNeighbourDiffs | firefly/firefly.py:511-534 | one agent's turn computes its `neighbor_diffs`, including both early exits |
| Analysis.CollectCoherences | firefly/firefly.py:509-539 | the loop over agents collects one coherence per contributing agent, in agent order |
| Analysis.SpatialCoherence | firefly/firefly.py:503-544 | the method returns the mean coherence of the contributing agents, or 0.0 |
| Analysis.Rising | firefly/firefly.py:554-555 | a point is rising exactly when its one-step rise exceeds 0.01 |
| Analysis.Filter | firefly/firefly.py:558-566 | every kept point satisfies `0 < p`, `p + 1 < len` and a two-step rise above 0.05 |
| Analysis.FilterSound | firefly/firefly.py:558-566 | only listed points are kept |
| Analysis.FilterComplete | firefly/firefly.py:558-566 | every listed point that passes the test is kept |
| Analysis.FilterIncreasing | firefly/firefly.py:558-566 | filtering keeps increasing order |
| Analysis.TransitionsSound | firefly/firefly.py:549-566 | every returned point rises by more than 0.01 in one step and by more than 0.05 over two steps, with 0 < p and p + 1 < len |
| Analysis.TransitionsComplete | firefly/firefly.py:549-566 | every point meeting all four conditions is returned |
| Analysis.TransitionsExact | firefly/firefly.py:549-566 | the returned points are exactly the significant ones, in increasing order |
| Analysis.SignificantPoints | firefly/firefly.py:558-561 | the filtering loop returns exactly the significant transitions |
| Analysis.PhaseTransitions | firefly/firefly.py:546-571 | both models' transition times are the sample times of their significant points |
| Experiment.TempFactors | firefly/firefly.py:51-52 | one temperature factor per agent |
| Experiment.TempFactorsRange | firefly/firefly.py:51-52 | every temperature factor lies in [1, 1.1) |
| Experiment.StartPositions | firefly/firefly.py:41-43 | agent i starts at radius `15 * sqrt(u_i)` and angle `theta_i` |
| Experiment.StartVelocities | firefly/firefly.py:46 | each start velocity is 0.2 times its normal draws |
| Experiment.NaturalFrequencies | firefly/firefly.py:38 | each natural frequency is 2*pi times its draw |
| Experiment.NoFlashes | firefly/firefly.py:76-82 | before the first step no agent is flagged and every log is empty |
| Experiment.NoFlashesState | firefly/firefly.py:76-82 | the empty flash record is consistent after zero steps |
| Experiment.FlashStateStep | firefly/firefly.py:246-256 | storing a step's row and appending its timestamp to the flagged logs keeps every log equal to the timestamps of its flagged steps |
| Experiment.NoSeries | firefly/firefly.py:73-106 | the series start at zero and the recovery lists empty |
| Experiment.NoSeriesState | firefly/firefly.py:73-106 | the empty series record is consistent after zero steps |
| Experiment.SeriesStateStep | firefly/firefly.py:378-386 | recording a step keeps global synchrony equal to the order parameter, and keeps the recovery list equal to the post-perturbation order parameters |
| Experiment.Rebuild | firefly/firefly.py:108-143 | `update_visibility` yields the distances, the bearings and both graphs built from them; the distances have a zero diagonal and no negative entry |
| Experiment.FireflyExperiment.constructor | firefly/firefly.py:22-106 | the initial state from the draws: the step count is `int(duration / dt)`; both models share the start phases; IRE velocities are zero; positions, velocities and orientations come from the draws; the distances and bearings are those of the start positions, and the headings are the start orientations; the temperature factors lie in [1, 1.1); the logs and series are empty; no perturbation has been applied; the invariant holds after zero steps |
| Experiment.FireflyExperiment.UpdateVisibility | firefly/firefly.py:108-143 | the distances and bearings are recomputed from the current positions, and both graphs are rebuilt from them and the current orientations (with the corrected bearing) |
| Experiment.FireflyExperiment.GraphsStochastic | firefly/firefly.py:118-143 | every row of both graphs is non-negative and sums to 1 or is all zero; no agent couples to itself (zero diagonal); an enhanced weight is positive exactly for the agents in cone and range |
| Experiment.FireflyExperiment.IntegratePhases | firefly/firefly.py:176-191 | Kuramoto phases advance by their rates; IRE velocities advance by their accelerations, then IRE phases by the new velocities; the Kuramoto rates are returned |
| Experiment.FireflyExperiment.MovePositions | firefly/firefly.py:194 | each position moves by its velocity times dt |
| Experiment.FireflyExperiment.Move | firefly/firefly.py:193-213 | positions move by the old velocities, then velocities are steered against the new positions, then orientations follow the new velocities |
| Experiment.FireflyExperiment.SteerVelocities | firefly/firefly.py:196-209 | each velocity gets jitter, then the speed limit, then reflection against the new position |
| Experiment.FireflyExperiment.TurnAgents | firefly/firefly.py:211-213 | an agent faster than 0.1 turns to face its velocity, and the others keep their heading |
| Experiment.FireflyExperiment.SpontaneousFlashes | firefly/firefly.py:224-228 | agents whose draw is below 0.0001 restart both phases at 0, and the rest are unchanged |
| Experiment.ScatterInto | firefly/firefly.py:236-239 | the array becomes `Scatter` of its old contents |
| Experiment.FireflyExperiment.ApplyPerturbation | firefly/firefly.py:230-239 | only at the perturbation step: the flag is set, exactly n // 5 distinct agents get fresh Kuramoto phases, the same IRE phases and zero IRE velocity, and every other agent is unchanged (each array is `Scatter` of its old contents); at any other step nothing changes |
| Experiment.FireflyExperiment.RecordFlashes | firefly/firefly.py:242-256 | each model's row t is the detector's result, using `phase_changes` for Kuramoto and the IRE velocities for IRE, and each flagged agent's log gains exactly one timestamp t*dt |
| Experiment.FireflyExperiment.StoreFlashes | firefly/firefly.py:246-256 | the rows are stored at index t, each flagged log gains t*dt, and the other logs are unchanged |
| Experiment.FireflyExperiment.Relocate | firefly/firefly.py:193-219 | the movement of `Move`, then, exactly on the steps that are multiples of the interval, the distances and bearings of the new positions and the new orientations as headings; on other steps the distances, bearings, headings and graphs are unchanged |
| Experiment.FireflyExperiment.Disturb | firefly/firefly.py:224-239 | both phase arrays are reset where the spontaneous mask holds and, on the perturbation step only, the disturbed agents take the fresh phases; the IRE velocities change only on the perturbation step, where the disturbed agents are set to rest; the flag holds exactly when the perturbation step has passed |
| Experiment.FireflyExperiment.Evolve | firefly/firefly.py:176-219 | the phase integration of `IntegratePhases` on the pre-step graphs, then the movement and refresh of `Relocate` |
| Experiment.FireflyExperiment.AdvanceAgents | firefly/firefly.py:176-239 | the whole new agent state: each model's phases are integrated, then reset and perturbed; the IRE velocities advance and, on the perturbation step, the disturbed agents are set to rest; positions, velocities and orientations move; the graphs are refreshed exactly on the cadence; the returned rates come from the pre-step phases and graph |
| Experiment.FireflyExperiment.StoreSeries | firefly/firefly.py:378-386 | step t's order parameter and local synchrony are stored, global synchrony copies the order parameter, and the order parameter joins the recovery list exactly when t is past the perturbation step |
| Experiment.FireflyExperiment.RecordSeries | firefly/firefly.py:258-265 | step t's series entries are the order parameters and mean local orders of the step's phases |
| Experiment.FireflyExperiment.UpdateModels | firefly/firefly.py:145-265 | one step keeps the invariant one step further, and the perturbation count grows only at the perturbation step |
| Experiment.FireflyExperiment.RunSimulation | firefly/firefly.py:388-396 | the loop finishes exactly when steps is 0 or at least 10; the perturbation is applied at most once, and exactly once in a full non-empty run; every flash log stays strictly increasing |
| Experiment.FireflyExperiment.LogsIncrease | firefly/firefly.py:390-391 | because steps are taken in increasing order, every flash log is strictly increasing |

## Left out

- Plotting, animation, image export and console output, including the progress line of
  `run_simulation`. All are I/O. The progress computation is kept only for its
  ZeroDivisionError.
- The GPU branch of `update_models`. It duplicates the CPU path.
- The information metrics (`calculate_information_metrics`): mutual information, entropy and
  predictability. They call foreign library code (`mutual_info_score`, `entropy`) on float
  histograms.
- `position_history` and the `neighborhood_states_*` arrays. They feed only the animation and
  the information metrics.
- `white_paper_analysis`. It calls the four analyzers and formats a report; the analyzers are
  modelled on their own.
- The numeric values of `sin`, `cos`, `exp`, `sqrt` and `arctan2`, and floating-point rounding.
  Reals stand in for floats, and the `Math` record stands in for the library functions.
- The distribution of the random draws. The draws are parameters; the model relies only on their
  shapes and, for the disturbed agents, that the indices are distinct and `n // 5` in number.
- Experiment.FireflyExperiment.UpdateModels: states the invariant and the perturbation count,
  not each stage's effect. The stages are stated on the methods it calls. AdvanceAgents states
  the new phases, IRE velocities, positions, velocities, orientations and graphs. RecordFlashes
  states the flashing rows and logs, and RecordSeries states the series entries.
- Experiment.Rebuild, Experiment.FireflyExperiment.UpdateVisibility and the constructor build
  the enhanced graph from the corrected bearing (from i towards j), not from the source's
  `arctan2(y_i - y_j, x_i - x_j)`. The program therefore differs from the model whenever an
  agent's view cone decides a neighbour differently under the two angles. The agent straight
  ahead in "## Findings" is one such case.
- Experiment.FireflyExperiment.constructor: requires `n > 0`, `dt > 0` and `duration > -dt`.
  With `n = 0` the source raises ValueError from `np.min` of an empty array at
  firefly/firefly.py:51. With `dt = 0` it raises ZeroDivisionError at line 27. A duration of at
  most `-dt` gives a negative step count, which the array allocations reject. A negative `dt` is
  not guarded by the source and is not modelled.
- Dynamics.KuramotoRates, Dynamics.IreAccelerations and Dynamics.OrderParameter: state only
  lengths and non-negativity. Their values depend on `sin`, `cos` and `sqrt`.
- Synchrony.FlashSynchrony: the standard deviation is left abstract, as `Std` over the `Math`
  record. The result follows the code's ordering of `(time, position in log)` pairs.
- Analysis.CycleRegularity: `np.std` is likewise abstract; only the bound `1 - cv <= 1` is
  proved, from `Std >= 0`.

## Findings

| source | as written | input that shows it | evidently intended | confidence | as-written member | corrected member |
|---|---|---|---|---|---|---|
| firefly/firefly.py:110-135 | the view-cone angle is `arctan2(y_i - y_j, x_i - x_j)`, the direction from j towards i, so the 90-degree blind spot lies straight ahead of the agent | agent 0 at (0, 0) facing 0 radians, agent 1 at (1, 0): relative angle 180 degrees, outside the 270-degree cone, weight 0 | the bearing from i towards j, leaving the blind spot behind the agent as the comment "except behind" says | medium, not executed | Visibility.AheadHiddenAsWritten | Visibility.AheadVisible |
