/**
 * The end-condition sampler of the lattice planner. Every sampling method
 * reads the sampler's fixed collaborators and builds a fresh sequence of
 * conditions step by step; the two obstacle helpers append to a vector the
 * caller owns.
 */
module PlannerHNS {
  import opened SamplerTypes
  import opened LateralSpec
  import opened LongitudinalSpec
  import opened ObstacleSpec

  /** A growable vector of sample points that a caller owns and lends out for appending. */
  class SamplePointVector {
    var elems: seq<SamplePoint>

    constructor ()
      ensures elems == []
    {
      elems := [];
    }

    method PushBack(sp: SamplePoint)
      modifies this
      ensures elems == old(elems) + [sp]
    {
      elems := elems + [sp];
    }
  }

  /** Appends the pairs of every horizon (outer loop) with every lateral target (inner loop). */
  method EmitLatGrid(conditions: seq<Condition>, horizons: seq<real>, targets: seq<real>) returns (r: seq<Condition>)
    ensures r == conditions + Grid(horizons, targets)
  {
    r := conditions;
    for i := 0 to |horizons|
      invariant r == conditions + Grid(horizons[..i], targets)
    {
      for j := 0 to |targets|
        invariant r == conditions + Grid(horizons[..i], targets) + Row(horizons[i], targets[..j])
      {
        var endDState := State(targets[j], 0.0, 0.0);
        r := r + [Condition(endDState, horizons[i])];
      }
      assert targets[..|targets|] == targets;
      assert horizons[..i + 1][..i] == horizons[..i];
    }
    assert horizons[..|horizons|] == horizons;
  }

  /**
   * Appends the n interior cruise velocities at one horizon, evenly spaced
   * between vLower and vUpper; nothing is appended when n is 0.
   */
  method AppendInteriorVelocities(conditions: seq<Condition>, vLower: real, vUpper: real, n: nat, time: real)
    returns (r: seq<Condition>)
    ensures r == conditions + InteriorConditions(vLower, vUpper, n, time)
  {
    r := conditions;
    ghost var interior := InteriorConditions(vLower, vUpper, n, time);
    if n > 0 {
      var vRange := vUpper - vLower;
      var velocitySeg := vRange / (n + 1) as real;
      for i := 1 to n + 1
        invariant r == conditions + interior[..i - 1]
      {
        var v := vLower + velocitySeg * i as real;
        assert v == InteriorVelocity(vLower, vUpper, n, i);
        r := r + [LonCondition(0.0, v, time)];
        assert interior[..i] == interior[..i - 1] + [interior[i - 1]];
      }
    }
    assert interior[..n] == interior;
  }

  class EndConditionSampler {
    const initS: State
    const initD: State
    /** The reachable region derived from initS; its construction is not part of this model. */
    const feasibleRegion: FeasibleRegion
    const pathTimeGraph: PathTimeGraph
    const predictionQuerier: PredictionQuerier
    const config: Config

    constructor (initS: State, initD: State, feasibleRegion: FeasibleRegion,
                 pathTimeGraph: PathTimeGraph, predictionQuerier: PredictionQuerier, config: Config)
      ensures this.initS == initS && this.initD == initD
      ensures this.feasibleRegion == feasibleRegion
      ensures this.pathTimeGraph == pathTimeGraph && this.predictionQuerier == predictionQuerier
      ensures this.config == config
    {
      this.initS := initS;
      this.initD := initD;
      this.feasibleRegion := feasibleRegion;
      this.pathTimeGraph := pathTimeGraph;
      this.predictionQuerier := predictionQuerier;
      this.config := config;
    }

    /** Lane width at the look-ahead distance. */
    function LaneWidth(): real
    {
      pathTimeGraph.laneWidth(config.lookAheadDistance)
    }

    /**
     * Lateral end conditions for the given lane-change state: the grid that
     * LatEndConditions describes for the current lane width, occupation flag
     * and seed margin; every state has zero lateral rate and rate of rate.
     */
    method SampleLatEndConditions(laneChangeState: LaneChangeState) returns (r: seq<Condition>)
      ensures r == LatEndConditions(laneChangeState, LaneWidth(), pathTimeGraph.enableRoadOccupationLeft,
                                    SeedL(LaneWidth(), config.carWidth, config.egoToLaneBoundary))
      ensures |r| == 12 || |r| == 6 || |r| == 2
      ensures forall c :: c in r ==> c.state.dx == 0.0 && c.state.ddx == 0.0 && c.t > 0.0
    {
      var laneWidth := pathTimeGraph.laneWidth(config.lookAheadDistance);
      var seedL := (laneWidth - config.carWidth) * 0.5 - config.egoToLaneBoundary;
      var laneCenterL, laneLeftL, laneRightL := 0.0, 0.0, 0.0;
      r := [];
      if laneChangeState.ChangeDisable? {
        laneCenterL, laneLeftL, laneRightL := 0.0, seedL, -seedL;
        if !pathTimeGraph.enableRoadOccupationLeft {
          r := EmitLatGrid(r, LaneKeepHorizons, [laneCenterL, laneLeftL, laneRightL]);
        } else {
          r := EmitLatGrid(r, OccupyLeftHorizons, [laneCenterL, laneWidth * 0.5, laneWidth]);
        }
      } else if laneChangeState.ReadyToChangeLeft? {
        var endDState := State(laneWidth, 0.0, 0.0);
        r := r + [Condition(endDState, ChangeLeftHorizons[0])];
        r := r + [Condition(endDState, ChangeLeftHorizons[1])];
        LatReadyLeft(laneWidth, pathTimeGraph.enableRoadOccupationLeft, seedL);
      } else if laneChangeState.ReadyToChangeRight? {
        var endDState := State(-laneWidth, 0.0, 0.0);
        r := r + [Condition(endDState, ChangeRightHorizons[0])];
        r := r + [Condition(endDState, ChangeRightHorizons[1])];
        LatReadyRight(laneWidth, pathTimeGraph.enableRoadOccupationLeft, seedL);
      } else if laneChangeState.ReadyToChangeBackFromLeft? || laneChangeState.EnforceChangeBackFromLeft? ||
                laneChangeState.ReadyToChangeBackFromRight? || laneChangeState.EnforceChangeBackFromRight? {
        var endDState := State(0.0, 0.0, 0.0);
        r := r + [Condition(endDState, ChangeBackHorizons[0])];
        r := r + [Condition(endDState, ChangeBackHorizons[1])];
        LatChangeBack(laneChangeState, laneWidth, pathTimeGraph.enableRoadOccupationLeft, seedL);
      } else {
        if laneChangeState.ChangeLeftSuccess? {
          laneCenterL := laneWidth;
          laneLeftL := laneWidth + seedL;
          laneRightL := laneWidth - seedL;
        } else if laneChangeState.ChangeRightSuccess? {
          laneCenterL := -laneWidth;
          laneLeftL := -laneWidth + seedL;
          laneRightL := -laneWidth - seedL;
        }
        r := EmitLatGrid(r, LaneKeepHorizons, [laneCenterL, laneLeftL, laneRightL]);
      }
      LatShape(laneChangeState, laneWidth, pathTimeGraph.enableRoadOccupationLeft, seedL);
    }

    /**
     * Cruise end conditions: for t = T, T-1, ..., 1 the lower and the capped
     * upper velocity and then the interior velocities, each at position 0
     * with acceleration 0. The caller must keep range / gap above -1 at every
     * horizon, where the size conversion is defined.
     */
    method SampleLonEndConditionsForCruising(refCruiseSpeed: real) returns (r: seq<Condition>)
      requires CruiseConfigOk(config)
      requires CastDefined(feasibleRegion, config, refCruiseSpeed, TimeSamples(config.trajectoryTimeLength))
      ensures r == CruiseOver(feasibleRegion, config, refCruiseSpeed, TimeSamples(config.trajectoryTimeLength))
      ensures |r| == CruiseCount(feasibleRegion, config, refCruiseSpeed, TimeSamples(config.trajectoryTimeLength))
      ensures TimesNonIncreasing(r)
      ensures forall c :: c in r ==>
        1.0 <= c.t <= config.trajectoryTimeLength as real && CruiseConditionAt(feasibleRegion, refCruiseSpeed, c)
    {
      var trajectoryTimeLength := config.trajectoryTimeLength;
      var timeSamples := new real[trajectoryTimeLength];
      for i := 0 to trajectoryTimeLength
        invariant timeSamples[..i] == TimeSamples(trajectoryTimeLength)[..i]
      {
        timeSamples[i] := (trajectoryTimeLength - i) as real;
      }
      ghost var times := TimeSamples(trajectoryTimeLength);
      assert timeSamples[..] == times;

      r := [];
      for k := 0 to trajectoryTimeLength
        invariant timeSamples[..] == times
        invariant r == CruiseOver(feasibleRegion, config, refCruiseSpeed, times[..k])
      {
        var time := timeSamples[k];
        assert time in times;
        assert times[..k + 1][..k] == times[..k];
        r := AppendCruiseConditions(r, refCruiseSpeed, time);
      }
      assert times[..trajectoryTimeLength] == times;
      CruiseOverLength(feasibleRegion, config, refCruiseSpeed, times);
      CruiseOverOrdered(feasibleRegion, config, refCruiseSpeed, times);
      CruiseOverBounds(feasibleRegion, config, refCruiseSpeed, times);
    }

    /**
     * Appends the conditions of one cruise horizon: (0, v_lower, 0), then
     * (0, v_upper, 0), then the evenly spaced interior velocities.
     */
    method AppendCruiseConditions(conditions: seq<Condition>, refCruiseSpeed: real, time: real) returns (r: seq<Condition>)
      requires CastDefinedAt(feasibleRegion, config, refCruiseSpeed, time)
      ensures r == conditions + CruiseAt(feasibleRegion, config, refCruiseSpeed, time)
    {
      var vUpper := Min(feasibleRegion.vUpper(time), refCruiseSpeed);
      var vLower := feasibleRegion.vLower(time);

      r := conditions;
      r := r + [LonCondition(0.0, vLower, time)];
      r := r + [LonCondition(0.0, vUpper, time)];

      var vRange := vUpper - vLower;
      var cap := config.numVelocitySample - 2;
      var quotient := TruncateToSize(vRange / config.minVelocitySampleGap);
      var numOfMidPoints := if cap <= quotient then cap else quotient;
      assert numOfMidPoints == CruiseMidCount(feasibleRegion, config, refCruiseSpeed, time);
      r := AppendInteriorVelocities(r, vLower, vUpper, numOfMidPoints, time);
    }

    /**
     * Stop end conditions: five conditions that all hold (refStopPoint, 0, 0),
     * at T, T-1, T-2, T-3 and finally at the minimal polynomial horizon.
     */
    method SampleLonEndConditionsForStopping(refStopPoint: real) returns (r: seq<Condition>)
      ensures |r| == 5
      ensures forall k :: 0 <= k < |r| ==> r[k].state == State(refStopPoint, 0.0, 0.0)
      ensures forall k :: 0 <= k < 4 ==> r[k].t == config.trajectoryTimeLength as real - k as real
      ensures r[4].t == config.polynomialMinimalParam
    {
      var numTimeSection := 5;
      var timeSections := new real[numTimeSection];
      var i := 0;
      while i + 1 < numTimeSection
        invariant 0 <= i <= numTimeSection - 1
        invariant forall k :: 0 <= k < i ==> timeSections[k] == config.trajectoryTimeLength as real - k as real
      {
        timeSections[i] := config.trajectoryTimeLength as real - i as real;
        i := i + 1;
      }
      timeSections[numTimeSection - 1] := config.polynomialMinimalParam;

      r := [];
      for k := 0 to numTimeSection
        invariant |r| == k
        invariant forall j :: 0 <= j < k ==> r[j] == Condition(State(refStopPoint, 0.0, 0.0), timeSections[j])
      {
        var endS := State(refStopPoint, 0.0, 0.0);
        r := r + [Condition(endS, timeSections[k])];
      }
    }

    /**
     * Path-time end conditions: the obstacle sample points, in order, that
     * are not earlier than the minimal horizon and lie within the reachable
     * position interval at their time, each as (s, ref_v, 0) at its time.
     */
    method SampleLonEndConditionsForPathTimePoints() returns (r: seq<Condition>)
      requires FollowConfigOk(config)
      ensures r == FeasibleConditions(feasibleRegion, config.polynomialMinimalParam,
                     ObstacleSamplePoints(pathTimeGraph, predictionQuerier, config, pathTimeGraph.pathTimeObstacleIds))
      ensures forall c :: c in r ==>
        && c.t >= config.polynomialMinimalParam
        && feasibleRegion.sLower(c.t) <= c.state.x <= feasibleRegion.sUpper(c.t)
        && c.state.ddx == 0.0
    {
      var samplePoints := QueryPathTimeObstacleSamplePoints();
      r := [];
      for i := 0 to |samplePoints|
        invariant r == FeasibleConditions(feasibleRegion, config.polynomialMinimalParam, samplePoints[..i])
      {
        assert samplePoints[..i + 1][..i] == samplePoints[..i];
        var samplePoint := samplePoints[i];
        if samplePoint.pathTimePoint.t < config.polynomialMinimalParam {
          continue;
        }
        var s := samplePoint.pathTimePoint.s;
        var v := samplePoint.refV;
        var t := samplePoint.pathTimePoint.t;
        if s > feasibleRegion.sUpper(t) || s < feasibleRegion.sLower(t) {
          continue;
        }
        var endState := State(s, v, 0.0);
        r := r + [Condition(endState, t)];
      }
      assert samplePoints[..|samplePoints|] == samplePoints;
      FeasibleConditionsSound(feasibleRegion, config.polynomialMinimalParam, samplePoints);
    }

    /**
     * Sample points of every path-time obstacle in order: for each obstacle,
     * its follow candidates and then its overtake candidates.
     */
    method QueryPathTimeObstacleSamplePoints() returns (samplePoints: seq<SamplePoint>)
      requires FollowConfigOk(config)
      ensures samplePoints == ObstacleSamplePoints(pathTimeGraph, predictionQuerier, config, pathTimeGraph.pathTimeObstacleIds)
    {
      var points := new SamplePointVector();
      var obstacles := pathTimeGraph.pathTimeObstacleIds;
      for i := 0 to |obstacles|
        invariant points.elems == ObstacleSamplePoints(pathTimeGraph, predictionQuerier, config, obstacles[..i])
      {
        var obstacleId := obstacles[i];
        assert obstacles[..i + 1][..i] == obstacles[..i];
        QueryFollowPathTimePoints(obstacleId, points);
        QueryOvertakePathTimePoints(obstacleId, points);
      }
      assert obstacles[..|obstacles|] == obstacles;
      samplePoints := points.elems;
    }

    /** Appends the follow corridor of every follow boundary point of the obstacle, leaving earlier entries alone. */
    method QueryFollowPathTimePoints(obstacleId: string, samplePoints: SamplePointVector)
      requires FollowConfigOk(config)
      modifies samplePoints
      ensures samplePoints.elems == old(samplePoints.elems) +
        FollowOver(predictionQuerier, config, obstacleId, FollowBoundary(pathTimeGraph, config, obstacleId))
    {
      var followPathTimePoints :=
        pathTimeGraph.obstacleSurroundingPoints(obstacleId, -config.latticeEpsilon, config.timeMinDensity);
      for k := 0 to |followPathTimePoints|
        invariant samplePoints.elems == old(samplePoints.elems) +
          FollowOver(predictionQuerier, config, obstacleId, followPathTimePoints[..k])
      {
        var pathTimePoint := followPathTimePoints[k];
        assert followPathTimePoints[..k + 1][..k] == followPathTimePoints[..k];
        var v := predictionQuerier.projectVelocityAlongReferenceLine(obstacleId, pathTimePoint.s, pathTimePoint.t);
        AppendFollowBatch(pathTimePoint, v, samplePoints);
      }
      assert followPathTimePoints[..|followPathTimePoints|] == followPathTimePoints;
    }

    /**
     * Appends the follow corridor of one boundary point: N positions from
     * s - car length - buffer up to s - car length, evenly spaced, each at the
     * point's time with velocity v.
     */
    method AppendFollowBatch(pathTimePoint: PathTimePoint, v: real, samplePoints: SamplePointVector)
      requires FollowConfigOk(config)
      modifies samplePoints
      ensures samplePoints.elems == old(samplePoints.elems) + FollowBatch(config, pathTimePoint, v)
    {
      var sUpper := pathTimePoint.s - config.carLength;
      var sLower := sUpper - config.defaultLonBuffer;
      var sGap := config.defaultLonBuffer / (config.numSampleFollowPerTimestamp as int - 1) as real;
      ghost var batch := FollowBatch(config, pathTimePoint, v);
      assert sLower == FollowSLower(config, pathTimePoint);
      assert sGap == FollowGap(config);
      for i := 0 to config.numSampleFollowPerTimestamp
        invariant samplePoints.elems == old(samplePoints.elems) + batch[..i]
      {
        var s := sLower + sGap * i as real;
        var samplePoint := SamplePoint(PathTimePoint(s, pathTimePoint.t), v);
        assert samplePoint == batch[i];
        samplePoints.PushBack(samplePoint);
        assert batch[..i + 1] == batch[..i] + [batch[i]];
      }
      assert batch[..config.numSampleFollowPerTimestamp] == batch;
    }

    /** Appends one point a buffer ahead of every overtake boundary point of the obstacle, leaving earlier entries alone. */
    method QueryOvertakePathTimePoints(obstacleId: string, samplePoints: SamplePointVector)
      modifies samplePoints
      ensures samplePoints.elems == old(samplePoints.elems) +
        OvertakeOver(predictionQuerier, config, obstacleId, OvertakeBoundary(pathTimeGraph, config, obstacleId))
    {
      var overtakePathTimePoints :=
        pathTimeGraph.obstacleSurroundingPoints(obstacleId, config.latticeEpsilon, config.timeMinDensity);
      for k := 0 to |overtakePathTimePoints|
        invariant samplePoints.elems == old(samplePoints.elems) +
          OvertakeOver(predictionQuerier, config, obstacleId, overtakePathTimePoints[..k])
      {
        var pathTimePoint := overtakePathTimePoints[k];
        assert overtakePathTimePoints[..k + 1][..k] == overtakePathTimePoints[..k];
        var v := predictionQuerier.projectVelocityAlongReferenceLine(obstacleId, pathTimePoint.s, pathTimePoint.t);
        var samplePoint := SamplePoint(PathTimePoint(pathTimePoint.s + config.defaultLonBuffer, pathTimePoint.t), v);
        samplePoints.PushBack(samplePoint);
        assert overtakePathTimePoints[..k + 1][k] == pathTimePoint;
        assert OvertakeOver(predictionQuerier, config, obstacleId, overtakePathTimePoints[..k + 1]) ==
          OvertakeOver(predictionQuerier, config, obstacleId, overtakePathTimePoints[..k]) +
          [OvertakePoint(predictionQuerier, config, obstacleId, pathTimePoint)];
      }
      assert overtakePathTimePoints[..|overtakePathTimePoints|] == overtakePathTimePoints;
    }
  }
}
