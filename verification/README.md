# End-condition sampler of the lattice planner (Dafny model)

This project models `PlannerHNS::EndConditionSampler`, the terminal-state
sampler of a Frenet-frame lattice planner. The sampler answers four questions.
Each answer is a sequence of *conditions*. A condition is a state
`(x, x', x'')` paired with the time at which it should be reached.

- **Lateral sampling.** The current lane-change state selects a fixed grid.
  The grid crosses lateral offsets `d` (lane centre, seed margin, lane width)
  with fixed horizons.
- **Cruise sampling.** For every horizon `T, T-1, ..., 1` it emits the lower
  reachable velocity, the upper reachable velocity capped by the cruise speed,
  and then up to `num_velocity_sample - 2` evenly spaced velocities in between.
- **Stop sampling.** Five conditions that all hold the stop point at rest.
- **Obstacle sampling.** For every path-time obstacle:
  - a follow corridor of `N` positions behind each lower boundary point;
  - one overtake position a buffer ahead of each upper boundary point.

  The sample points are filtered against the reachable position envelope and
  turned into longitudinal conditions.

Layout:

- `types.dfy` (module `SamplerTypes`) holds states, conditions, path-time
  points, sample points, the lane-change state and the configuration record.
  The collaborators whose code is not part of this model are records of total
  functions: the feasible region's `SUpper`/`SLower`/`VUpper`/`VLower`; the
  path-time graph's obstacle list, surrounding points, lane width and
  left-occupation flag; the prediction querier's projected velocity.
- `lateral.dfy` (module `LateralSpec`): the lateral grids as pure functions, with
  lemmas.
- `longitudinal.dfy` (module `LongitudinalSpec`): cruise blocks, the mid-point
  count and the size conversion, with lemmas.
- `obstacle.dfy` (module `ObstacleSpec`): follow batches, overtake points, the
  per-obstacle concatenation and the feasibility filter, with lemmas.
- `sampler.dfy` (module `PlannerHNS`) holds the class `EndConditionSampler`.
  - Its fields are `const`, because every source method is `const`.
  - Each method builds its result with the source's own loops.
  - Each method's `ensures` ties the result to the matching specification
    function.
  - `SamplePointVector` is the caller-owned vector. The follow and overtake
    helpers append to it through `PushBack`.

Doubles are `real`. The global lane-change state is a parameter of
`SampleLatEndConditions`. The configuration flags and the car parameters are a
`Config` record held by the sampler.

## Model

| member | source | states |
|---|---|---|
| PlannerHNS.EndConditionSampler.constructor | op_planner/include/op_planner/EndConditionSampler.cpp:9-16 | the sampler keeps the initial states, the feasible region and the two collaborators it was built with |
| PlannerHNS.SamplePointVector.PushBack | op_planner/include/op_planner/EndConditionSampler.cpp:262 | appending adds the point at the end and keeps every earlier entry |
| PlannerHNS.EmitLatGrid | op_planner/include/op_planner/EndConditionSampler.cpp:40-49 | the nested horizon/target loops append exactly the horizon-major grid of (d, 0, 0) conditions |
| PlannerHNS.EndConditionSampler.SampleLatEndConditions | op_planner/include/op_planner/EndConditionSampler.cpp:18-127 | the result is the grid the lane-change state selects for the current lane width, occupation flag and seed `(w - car width) * 0.5 - boundary`; it has 12, 6 or 2 conditions, all with zero lateral rate and acceleration and a positive horizon |
| LateralSpec.SeedL | op_planner/include/op_planner/EndConditionSampler.cpp:23-24 | the lateral seed margin `(lane width - car width) * 0.5 - ego_to_lane_boundary`: half the spare lane width less the boundary clearance |
| LateralSpec.Row | op_planner/include/op_planner/EndConditionSampler.cpp:44-48 | one outer iteration: the conditions (d, 0, 0) at horizon t for every target d, in target order |
| LateralSpec.Grid | op_planner/include/op_planner/EndConditionSampler.cpp:42-49 | the nested loops: the rows of all horizons, in horizon order |
| LateralSpec.LatEndConditions | op_planner/include/op_planner/EndConditionSampler.cpp:29-125 | the lane-change dispatch: lane keep or left occupation when changing is disabled, one column of two conditions for the ready-to-change and change-back states, and the shifted lane-keep grid after a successful change or for any other state |
| LateralSpec.GridSnoc | op_planner/include/op_planner/EndConditionSampler.cpp:42-49 | one more outer horizon appends one row of all targets at that horizon |
| LateralSpec.GridLength | op_planner/include/op_planner/EndConditionSampler.cpp:42-49 | the grid has horizons x targets conditions |
| LateralSpec.GridAt | op_planner/include/op_planner/EndConditionSampler.cpp:42-49 | entry `i * |targets| + j` is target j at horizon i (outer loop horizons, inner loop targets) |
| LateralSpec.GridMember | op_planner/include/op_planner/EndConditionSampler.cpp:42-49 | a condition is in the grid exactly when it pairs some target with some horizon |
| LateralSpec.Grid4x3 | op_planner/include/op_planner/EndConditionSampler.cpp:114-124 | a 4-horizon, 3-target grid is the 12 listed conditions in horizon-major order |
| LateralSpec.Grid2 | op_planner/include/op_planner/EndConditionSampler.cpp:53-66 | a 2-horizon, 3-target grid is the 6 listed conditions in horizon-major order |
| LateralSpec.GridColumn | op_planner/include/op_planner/EndConditionSampler.cpp:71-75 | one target over two horizons gives the two conditions in horizon order |
| LateralSpec.LatLaneKeep | op_planner/include/op_planner/EndConditionSampler.cpp:23-50 | lane change disabled, no left occupation: 12 conditions over {5,12,27,45} x {0, seed, -seed} |
| LateralSpec.LatOccupyLeft | op_planner/include/op_planner/EndConditionSampler.cpp:51-67 | lane change disabled, left occupation on: 6 conditions over {8,14} x {0, w/2, w} |
| LateralSpec.LatReadyLeft | op_planner/include/op_planner/EndConditionSampler.cpp:69-76 | ready to change left: (w,0,0) at 8 then at 12 |
| LateralSpec.LatReadyRight | op_planner/include/op_planner/EndConditionSampler.cpp:77-84 | ready to change right: (-w,0,0) at 14 then at 24 |
| LateralSpec.LatChangeBack | op_planner/include/op_planner/EndConditionSampler.cpp:85-94 | each of the four change-back states: (0,0,0) at 14 then at 24 |
| LateralSpec.LatLeftSuccess | op_planner/include/op_planner/EndConditionSampler.cpp:97-102 | left change succeeded: 12 conditions over {5,12,27,45} x {w, w+seed, w-seed} |
| LateralSpec.LatRightSuccess | op_planner/include/op_planner/EndConditionSampler.cpp:103-108 | right change succeeded: 12 conditions over {5,12,27,45} x {-w, -w+seed, -w-seed} |
| LateralSpec.LatFallthrough | op_planner/include/op_planner/EndConditionSampler.cpp:26-28 | any other state: 12 conditions, all with d = 0, at the lane-keep horizons in order, because the targets keep their initial 0.0 |
| LateralSpec.GridShape | op_planner/include/op_planner/EndConditionSampler.cpp:42-49 | every grid condition has zero rate and acceleration and one of the given horizons |
| LateralSpec.LatShape | op_planner/include/op_planner/EndConditionSampler.cpp:18-127 | every lateral result has 12, 6 or 2 conditions, all (d, 0, 0), at horizons from {5,8,12,14,24,27,45} |
| LateralSpec.LatLaneKeepExample | op_planner/include/op_planner/EndConditionSampler.cpp:23-24 | a 3.5 lane with a 2.0 car and a 0.2 boundary margin gives seed 0.55: horizon 5 samples 0, 0.55, -0.55 in that order and the last condition is -0.55 at 45 |
| LongitudinalSpec.TimeSamples | op_planner/include/op_planner/EndConditionSampler.cpp:136-140 | T horizons, strictly decreasing, from T down to 1 |
| LongitudinalSpec.TruncateToSize | op_planner/include/op_planner/EndConditionSampler.cpp:159 | the size conversion truncates toward zero: 0 below 1, and otherwise the largest whole number not above the value |
| LongitudinalSpec.MidCount | op_planner/include/op_planner/EndConditionSampler.cpp:155-159 | the interior count n is at most `num_velocity_sample - 2`; when n > 0, n gaps fit into the velocity range; when the cap does not bind, n + 1 gaps do not fit |
| LongitudinalSpec.TruncateScale | op_planner/include/op_planner/EndConditionSampler.cpp:159 | the truncated quotient q satisfies (q > 0 implies q * gap <= range) and range < (q + 1) * gap |
| LongitudinalSpec.InteriorVelocityMono | op_planner/include/op_planner/EndConditionSampler.cpp:163-166 | when v_lower < v_upper, the interior velocities `v_lower + i * range / (n + 1)` increase strictly with i and stay in (v_lower, v_upper] |
| LongitudinalSpec.EvenSplit | op_planner/include/op_planner/EndConditionSampler.cpp:163 | multiples 1..n+1 of `range / (n + 1)` are positive, increasing and at most the range |
| LongitudinalSpec.CruiseVUpper | op_planner/include/op_planner/EndConditionSampler.cpp:145-146 | the upper velocity of a horizon: VUpper(t) capped by the cruise speed |
| LongitudinalSpec.InteriorVelocity | op_planner/include/op_planner/EndConditionSampler.cpp:163-166 | the i-th interior velocity `v_lower + (v_range / (n + 1)) * i` |
| LongitudinalSpec.InteriorConditions | op_planner/include/op_planner/EndConditionSampler.cpp:161-169 | the n interior conditions (0, v_i, 0) at time t for i = 1..n; none when n is 0 |
| LongitudinalSpec.CruiseAt | op_planner/include/op_planner/EndConditionSampler.cpp:145-169 | the block of one horizon: (0, v_lower, 0), (0, v_upper, 0), then the interior conditions |
| LongitudinalSpec.CruiseOver | op_planner/include/op_planner/EndConditionSampler.cpp:143-170 | the blocks of all horizons, in the order the horizons are visited |
| LongitudinalSpec.CruiseCount | op_planner/include/op_planner/EndConditionSampler.cpp:143-170 | the sum over the horizons of 2 plus the interior count |
| LongitudinalSpec.CruiseAtShape | op_planner/include/op_planner/EndConditionSampler.cpp:145-169 | a horizon's block is (0, v_lower, 0), then (0, min(VUpper, cruise speed), 0), then n interior conditions, all at position 0 and acceleration 0 at that horizon |
| LongitudinalSpec.CruiseAtInterior | op_planner/include/op_planner/EndConditionSampler.cpp:161-168 | interior velocities lie strictly between v_lower and v_upper and strictly increase |
| LongitudinalSpec.CruiseOverConcat | op_planner/include/op_planner/EndConditionSampler.cpp:143-170 | the cruise output over two runs of horizons is the concatenation of their outputs |
| LongitudinalSpec.CruiseOverLength | op_planner/include/op_planner/EndConditionSampler.cpp:143-170 | the number of cruise conditions is the sum of 2 + n over the horizons |
| LongitudinalSpec.CruiseAtBounds | op_planner/include/op_planner/EndConditionSampler.cpp:145-169 | every condition of a block is at its horizon with x = 0, acceleration 0 and a velocity equal to one bound or strictly between them |
| LongitudinalSpec.CruiseOverBounds | op_planner/include/op_planner/EndConditionSampler.cpp:143-170 | every cruise condition is at one of the horizons, with a velocity equal to that horizon's v_lower, equal to its v_upper, or strictly between them |
| LongitudinalSpec.CruiseOverTimes | op_planner/include/op_planner/EndConditionSampler.cpp:143-170 | every cruise condition's time is one of the horizons |
| LongitudinalSpec.TimesNonIncreasingConcat | op_planner/include/op_planner/EndConditionSampler.cpp:143-170 | appending a block at a time earlier than everything before keeps times non-increasing |
| LongitudinalSpec.CruiseOverOrdered | op_planner/include/op_planner/EndConditionSampler.cpp:143-170 | with strictly decreasing horizons, the cruise conditions' times never increase |
| LongitudinalSpec.CruiseLowerAboveUpper | op_planner/include/op_planner/EndConditionSampler.cpp:145-159 | with VLower = 2.5, VUpper = 100, cruise speed 2.0 and gap 1.0 the size conversion is defined, and the one horizon emits (0, 2.5, 0) and then (0, 2.0, 0): the lower-bound condition lies above the capped upper bound |
| LongitudinalSpec.CruiseOverHasBounds | op_planner/include/op_planner/EndConditionSampler.cpp:149-153 | for every horizon both boundary conditions appear in the output |
| PlannerHNS.EndConditionSampler.SampleLonEndConditionsForCruising | op_planner/include/op_planner/EndConditionSampler.cpp:129-172 | the result is the blocks of horizons T..1 in order; its length is the sum of 2 + n; times never increase and lie in [1, T]; every condition is (0, v, 0) with v a bound or strictly between the bounds |
| PlannerHNS.AppendInteriorVelocities | op_planner/include/op_planner/EndConditionSampler.cpp:161-169 | appends exactly the n interior conditions at the horizon, in increasing i; nothing when n is 0 |
| PlannerHNS.EndConditionSampler.AppendCruiseConditions | op_planner/include/op_planner/EndConditionSampler.cpp:145-169 | one horizon appends exactly its block: the two bounds, then the interior velocities |
| PlannerHNS.EndConditionSampler.SampleLonEndConditionsForStopping | op_planner/include/op_planner/EndConditionSampler.cpp:174-194 | exactly 5 conditions, all (stop point, 0, 0), at T, T-1, T-2, T-3 and then the minimal polynomial horizon |
| ObstacleSpec.FollowBatch | op_planner/include/op_planner/EndConditionSampler.cpp:250-263 | the follow corridor of one boundary point: N points at `s_lower + i * buffer / (N - 1)` for i = 0..N-1, each at the point's time with velocity v |
| ObstacleSpec.FollowOver | op_planner/include/op_planner/EndConditionSampler.cpp:245-264 | the follow corridors of all boundary points in order, each using the velocity projected at that point |
| ObstacleSpec.OvertakePoint | op_planner/include/op_planner/EndConditionSampler.cpp:276-283 | one overtake point: s + buffer at the same time, with the velocity projected at (s, t) |
| ObstacleSpec.OvertakeOver | op_planner/include/op_planner/EndConditionSampler.cpp:274-284 | the overtake points of all boundary points, in order |
| ObstacleSpec.ObstacleSamplePoints | op_planner/include/op_planner/EndConditionSampler.cpp:225-234 | per obstacle in order: its follow corridors (lower boundary, clearance -epsilon) and then its overtake points (upper boundary, clearance +epsilon) |
| ObstacleSpec.InFeasibleRegion | op_planner/include/op_planner/EndConditionSampler.cpp:204-214 | a sample point survives when its time is not below the minimal horizon and its s is neither above SUpper(t) nor below SLower(t) |
| ObstacleSpec.FeasibleConditions | op_planner/include/op_planner/EndConditionSampler.cpp:202-217 | the surviving sample points in order, each as ((s, ref_v, 0), t) |
| ObstacleSpec.FollowBatchShape | op_planner/include/op_planner/EndConditionSampler.cpp:250-262 | a follow batch has N points that keep t and the projected velocity; with N >= 2 the first is s_lower and the last is s_upper = s - car length; the points increase when the buffer is positive and stay in [s_lower, s_upper] when it is not negative |
| ObstacleSpec.FollowOverConcat | op_planner/include/op_planner/EndConditionSampler.cpp:245-264 | the follow output over two runs of boundary points is the concatenation of their outputs |
| ObstacleSpec.FollowOverLength | op_planner/include/op_planner/EndConditionSampler.cpp:245-264 | the follow output has N points per boundary point |
| ObstacleSpec.FollowOverMember | op_planner/include/op_planner/EndConditionSampler.cpp:245-264 | a point is in the follow output exactly when it is in the batch of some boundary point, using that point's projected velocity |
| ObstacleSpec.OvertakeOverAt | op_planner/include/op_planner/EndConditionSampler.cpp:274-284 | one overtake point per boundary point, in order, at s + buffer with the same t and the projected velocity at (s, t) |
| ObstacleSpec.ObstacleSamplePointsConcat | op_planner/include/op_planner/EndConditionSampler.cpp:225-234 | the sample points of two runs of obstacles are the concatenation of their sample points, and one obstacle yields its follow corridors followed by its overtake points |
| ObstacleSpec.FeasibleConditionsSound | op_planner/include/op_planner/EndConditionSampler.cpp:202-217 | every kept condition is no earlier than the minimal horizon, inside [SLower(t), SUpper(t)] and has zero acceleration |
| ObstacleSpec.FeasibleConditionsMember | op_planner/include/op_planner/EndConditionSampler.cpp:202-217 | a condition is kept exactly when it is ((s, ref_v, 0), t) of a sample point that passes both tests |
| ObstacleSpec.FeasibleConditionsConcat | op_planner/include/op_planner/EndConditionSampler.cpp:202-217 | the filter distributes over concatenation, so order is preserved; one point gives its condition or nothing |
| ObstacleSpec.FeasibleConditionsLength | op_planner/include/op_planner/EndConditionSampler.cpp:202-217 | the filter never yields more conditions than sample points |
| PlannerHNS.EndConditionSampler.SampleLonEndConditionsForPathTimePoints | op_planner/include/op_planner/EndConditionSampler.cpp:196-219 | the result is the order-preserving filter of the obstacle sample points, and every condition lies in the feasible envelope no earlier than the minimal horizon |
| PlannerHNS.EndConditionSampler.QueryPathTimeObstacleSamplePoints | op_planner/include/op_planner/EndConditionSampler.cpp:221-236 | the result holds, obstacle by obstacle in order, the follow batch and then the overtake points |
| PlannerHNS.EndConditionSampler.QueryFollowPathTimePoints | op_planner/include/op_planner/EndConditionSampler.cpp:238-265 | the vector gains the follow batches of the obstacle's lower boundary points, and its earlier entries are unchanged |
| PlannerHNS.EndConditionSampler.AppendFollowBatch | op_planner/include/op_planner/EndConditionSampler.cpp:250-263 | one boundary point appends exactly its follow batch: N evenly spaced positions from s_lower to s_upper at its time with velocity v |
| PlannerHNS.EndConditionSampler.QueryOvertakePathTimePoints | op_planner/include/op_planner/EndConditionSampler.cpp:267-285 | the vector gains one overtake point per upper boundary point, and its earlier entries are unchanged |

## Left out

- The internals of the feasible region, the path-time graph (obstacle list, surrounding points, reference line, lane width, current reference pose) and the prediction querier. Their code is not part of this model, so they are total functions whose results are taken as given. The construction of the feasible region from `init_s` is not modelled either; the region is passed to the constructor.
- `init_s` and `init_d` are stored but read by no sampler, as in the source (the `std::max` on line 189 is commented out).
- The `ADEBUG` logging (lines 72, 80, 110-112, 229-233) and the `fptp_num` counter, which feeds only the logging.
- Loading the gflags and the `car_params` global: their values are a `Config` record.
- `shared_ptr` ownership and the moves in the constructor.
- IEEE rounding, infinities and NaN: doubles are exact reals.
- The global `ReferenceLineInfo::lane_change_state` is a parameter. Enumeration values other than the nine named ones are one constructor, `OtherLaneChangeState`, which behaves like any unnamed value.
- Sample points carry only `s` and `t` of a path-time point. Other fields that the source copies over are not modelled.
- PlannerHNS.EndConditionSampler.SampleLonEndConditionsForCruising: requires `num_velocity_sample >= 2`, because `num_velocity_sample - 2` would otherwise wrap around as an unsigned size and lift the cap. It requires a positive minimal gap, because a zero gap makes the quotient at line 159 infinite or NaN, and converting that to a size is undefined. A negative gap, which is defined whenever `v_range / gap > -1`, is not modelled either. It also requires `v_range / gap > -1` at every horizon, because converting a double of -1 or less to an unsigned size is undefined. A quotient larger than the largest size is not bounded either.
- PlannerHNS.EndConditionSampler.AppendCruiseConditions: carries the same per-horizon requirement, for the same reason.
- PlannerHNS.EndConditionSampler.QueryFollowPathTimePoints: requires `num_sample_follow_per_timestamp != 1`. With one sample the spacing at line 253 divides the buffer by zero. Under IEEE arithmetic `s_gap` is then infinite, or NaN when the buffer is 0, and the one point's `s` is `s_lower + inf * 0`, a NaN (line 256). Both comparisons at line 211 are false for a NaN, so that point would pass the envelope filter and become a condition. Exact reals cannot express this. With 0 samples the loop appends nothing, and the model agrees.
- PlannerHNS.EndConditionSampler.AppendFollowBatch: carries the same follow-count requirement, for the same reason.
- PlannerHNS.EndConditionSampler.QueryPathTimeObstacleSamplePoints: inherits the same follow-count requirement.
- PlannerHNS.EndConditionSampler.SampleLonEndConditionsForPathTimePoints: inherits the same follow-count requirement.
- `FLAGS_trajectory_time_length` is a double flag (line 8). The model holds it as a whole number (`trajectoryTimeLength: nat`), so non-integer horizons are not modelled. For such a T, stop sampling is still well defined; T = 7.5 gives 7.5, 6.5, 5.5, 4.5 and then the minimal horizon. Cruise sampling is not: it sizes the vector to trunc(T) (line 136) and then writes while `i < T` (lines 137-139), one element past the end. For whole T the stop times `T - i` are the exact real differences, as with a double flag, and nothing wraps around.
- When the cruise speed lies below VLower(t) by less than one gap, the size conversion at line 159 is still defined. The source then emits a lower-bound condition whose velocity is above the upper bound (lines 145-153), and the model does the same (LongitudinalSpec.CruiseLowerAboveUpper). Such a condition does not lie in [v_lower(t), v_upper(t)]. The model only promises that each velocity equals v_lower, equals v_upper, or lies strictly between them.
- When `v_lower == v_upper`, the two boundary conditions of a horizon coincide. The code emits both, and the model does the same; it does not remove duplicates.
