/**
 * Values shared by every sampler of the Frenet-frame lattice planner:
 * terminal states, conditions, path-time sample points, the lane-change
 * state, the collaborators whose source is not part of this model and the
 * configuration values the sampler reads.
 */
module SamplerTypes {

  /** A terminal kinematic state: (s, s', s'') longitudinally, (d, d', d'') laterally. */
  datatype State = State(x: real, dx: real, ddx: real)

  /** A terminal state paired with the time at which it is to be reached. */
  datatype Condition = Condition(state: State, t: real)

  /** A longitudinal terminal state (s, v, 0) to be reached at time t. */
  function LonCondition(s: real, v: real, t: real): Condition
  {
    Condition(State(s, v, 0.0), t)
  }

  /** A point of the (arc length, time) plane. */
  datatype PathTimePoint = PathTimePoint(s: real, t: real)

  /** A path-time point with the obstacle velocity projected on the reference line there. */
  datatype SamplePoint = SamplePoint(pathTimePoint: PathTimePoint, refV: real)

  /**
   * The lane-change state read by lateral sampling. The nine named states are
   * the ones the sampler tests for; OtherLaneChangeState stands for every
   * further value the enumeration may hold.
   */
  datatype LaneChangeState =
    | ChangeDisable
    | ReadyToChangeLeft
    | ReadyToChangeRight
    | ReadyToChangeBackFromLeft
    | EnforceChangeBackFromLeft
    | ReadyToChangeBackFromRight
    | EnforceChangeBackFromRight
    | ChangeLeftSuccess
    | ChangeRightSuccess
    | OtherLaneChangeState

  /** Reachable position and velocity bounds as functions of elapsed time. */
  datatype FeasibleRegion = FeasibleRegion(
    sUpper: real -> real,
    sLower: real -> real,
    vUpper: real -> real,
    vLower: real -> real)

  /**
   * The path-time graph and the reference line it carries: the tracked
   * obstacles, their surrounding points for a signed clearance and a time
   * density, the lane width at a look-ahead distance and the flag that allows
   * occupying the left lane.
   */
  datatype PathTimeGraph = PathTimeGraph(
    pathTimeObstacleIds: seq<string>,
    obstacleSurroundingPoints: (string, real, real) -> seq<PathTimePoint>,
    laneWidth: real -> real,
    enableRoadOccupationLeft: bool)

  /** Projects an obstacle's velocity at a path-time point onto the reference line. */
  datatype PredictionQuerier = PredictionQuerier(
    projectVelocityAlongReferenceLine: (string, real, real) -> real)

  /** The configuration flags and vehicle parameters the sampler reads. */
  datatype Config = Config(
    trajectoryTimeLength: nat,
    polynomialMinimalParam: real,
    numVelocitySample: nat,
    minVelocitySampleGap: real,
    numSampleFollowPerTimestamp: nat,
    defaultLonBuffer: real,
    latticeEpsilon: real,
    timeMinDensity: real,
    lookAheadDistance: real,
    egoToLaneBoundary: real,
    carLength: real,
    carWidth: real)

  function Min(a: real, b: real): (m: real)
    ensures m <= a && m <= b
    ensures m == a || m == b
  {
    if a <= b then a else b
  }

  /** Multiplying by a positive factor keeps the order. */
  lemma MulMono(a: real, b: real, c: real)
    requires c > 0.0
    ensures a <= b ==> a * c <= b * c
    ensures a < b ==> a * c < b * c
  {
  }
}
