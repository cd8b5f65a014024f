/**
 * Obstacle-driven longitudinal end conditions: follow corridors behind and
 * overtake offsets ahead of every obstacle's path-time boundary, filtered by
 * the feasible region.
 */
module ObstacleSpec {
  import opened SamplerTypes

  /** The follow spacing divides by (count - 1), so a count of exactly 1 is excluded. */
  predicate FollowConfigOk(config: Config)
  {
    config.numSampleFollowPerTimestamp != 1
  }

  /** Distance between consecutive follow candidates. */
  function FollowGap(config: Config): real
    requires FollowConfigOk(config)
  {
    config.defaultLonBuffer / (config.numSampleFollowPerTimestamp as int - 1) as real
  }

  /** Rear-bumper clearance behind a follow boundary point: the corridor's far end. */
  function FollowSUpper(config: Config, p: PathTimePoint): real
  {
    p.s - config.carLength
  }

  /** The corridor's near end, one buffer behind its far end. */
  function FollowSLower(config: Config, p: PathTimePoint): real
  {
    FollowSUpper(config, p) - config.defaultLonBuffer
  }

  /** The evenly spaced follow candidates for one boundary point, all at its time and with velocity v. */
  function FollowBatch(config: Config, p: PathTimePoint, v: real): seq<SamplePoint>
    requires FollowConfigOk(config)
  {
    var n := config.numSampleFollowPerTimestamp;
    seq(n, i requires 0 <= i < n =>
      SamplePoint(PathTimePoint(FollowSLower(config, p) + FollowGap(config) * i as real, p.t), v))
  }

  /** The obstacle velocity projected on the reference line at a boundary point. */
  function ProjectedV(querier: PredictionQuerier, id: string, p: PathTimePoint): real
  {
    querier.projectVelocityAlongReferenceLine(id, p.s, p.t)
  }

  /** Follow batches of the given boundary points, in order. */
  function FollowOver(querier: PredictionQuerier, config: Config, id: string, points: seq<PathTimePoint>): seq<SamplePoint>
    requires FollowConfigOk(config)
  {
    if points == [] then []
    else
      var p := points[|points| - 1];
      FollowOver(querier, config, id, points[..|points| - 1]) + FollowBatch(config, p, ProjectedV(querier, id, p))
  }

  /** Boundary points on the following side of an obstacle (negative clearance). */
  function FollowBoundary(graph: PathTimeGraph, config: Config, id: string): seq<PathTimePoint>
  {
    graph.obstacleSurroundingPoints(id, -config.latticeEpsilon, config.timeMinDensity)
  }

  /** Boundary points on the overtaking side of an obstacle (positive clearance). */
  function OvertakeBoundary(graph: PathTimeGraph, config: Config, id: string): seq<PathTimePoint>
  {
    graph.obstacleSurroundingPoints(id, config.latticeEpsilon, config.timeMinDensity)
  }

  /** The single overtake candidate one buffer ahead of a boundary point. */
  function OvertakePoint(querier: PredictionQuerier, config: Config, id: string, p: PathTimePoint): SamplePoint
  {
    SamplePoint(PathTimePoint(p.s + config.defaultLonBuffer, p.t), ProjectedV(querier, id, p))
  }

  function OvertakeOver(querier: PredictionQuerier, config: Config, id: string, points: seq<PathTimePoint>): seq<SamplePoint>
  {
    if points == [] then []
    else
      OvertakeOver(querier, config, id, points[..|points| - 1]) +
      [OvertakePoint(querier, config, id, points[|points| - 1])]
  }

  /** Sample points of all obstacles: per obstacle, its follow batch and then its overtake batch. */
  function ObstacleSamplePoints(graph: PathTimeGraph, querier: PredictionQuerier, config: Config, ids: seq<string>): seq<SamplePoint>
    requires FollowConfigOk(config)
  {
    if ids == [] then []
    else
      var id := ids[|ids| - 1];
      ObstacleSamplePoints(graph, querier, config, ids[..|ids| - 1]) +
      FollowOver(querier, config, id, FollowBoundary(graph, config, id)) +
      OvertakeOver(querier, config, id, OvertakeBoundary(graph, config, id))
  }

  /** A sample point late enough and inside the reachable position interval at its time. */
  predicate InFeasibleRegion(region: FeasibleRegion, minimalParam: real, sp: SamplePoint)
  {
    var s := sp.pathTimePoint.s;
    var t := sp.pathTimePoint.t;
    !(t < minimalParam) && !(s > region.sUpper(t) || s < region.sLower(t))
  }

  /** The condition (s, ref_v, 0) at the sample point's time. */
  function ToCondition(sp: SamplePoint): Condition
  {
    LonCondition(sp.pathTimePoint.s, sp.refV, sp.pathTimePoint.t)
  }

  /** The conditions of the feasible sample points, in sample order. */
  function FeasibleConditions(region: FeasibleRegion, minimalParam: real, points: seq<SamplePoint>): seq<Condition>
  {
    if points == [] then []
    else
      var sp := points[|points| - 1];
      FeasibleConditions(region, minimalParam, points[..|points| - 1]) +
      (if InFeasibleRegion(region, minimalParam, sp) then [ToCondition(sp)] else [])
  }

  /**
   * One follow boundary point gives exactly count candidates, all at its time
   * with its projected velocity; the first is at s_lower and the last at
   * s_upper, they increase with a positive buffer and stay inside
   * [s_lower, s_upper] with a non-negative one.
   */
  lemma FollowBatchShape(config: Config, p: PathTimePoint, v: real)
    requires FollowConfigOk(config)
    ensures var b := FollowBatch(config, p, v);
      var n := config.numSampleFollowPerTimestamp;
      var lo := FollowSLower(config, p);
      var hi := FollowSUpper(config, p);
      && |b| == n
      && (forall i :: 0 <= i < n ==> b[i].pathTimePoint.t == p.t && b[i].refV == v)
      && (n >= 2 ==> b[0].pathTimePoint.s == lo && b[n - 1].pathTimePoint.s == hi)
      && (config.defaultLonBuffer > 0.0 ==>
            forall i, j :: 0 <= i < j < n ==> b[i].pathTimePoint.s < b[j].pathTimePoint.s)
      && (config.defaultLonBuffer >= 0.0 ==>
            forall i :: 0 <= i < n ==> lo <= b[i].pathTimePoint.s <= hi)
  {
    var b := FollowBatch(config, p, v);
    var n := config.numSampleFollowPerTimestamp;
    var lo := FollowSLower(config, p);
    var gap := FollowGap(config);
    if n >= 2 {
      var m := (n - 1) as real;
      assert gap * m == config.defaultLonBuffer;
      if config.defaultLonBuffer > 0.0 {
        assert gap > 0.0;
        forall i, j | 0 <= i < j < n
          ensures b[i].pathTimePoint.s < b[j].pathTimePoint.s
        {
          MulMono(i as real, j as real, gap);
          assert gap * i as real < gap * j as real;
        }
      }
      if config.defaultLonBuffer >= 0.0 {
        forall i | 0 <= i < n
          ensures lo <= b[i].pathTimePoint.s <= FollowSUpper(config, p)
        {
          if gap > 0.0 {
            MulMono(i as real, m, gap);
            assert gap * i as real <= gap * m;
          }
        }
      }
    }
  }

  /** Follow generation over consecutive point lists is the concatenation of their batches. */
  lemma {:induction false} FollowOverConcat(querier: PredictionQuerier, config: Config, id: string, a: seq<PathTimePoint>, b: seq<PathTimePoint>)
    requires FollowConfigOk(config)
    ensures FollowOver(querier, config, id, a + b) ==
      FollowOver(querier, config, id, a) + FollowOver(querier, config, id, b)
  {
    if b == [] {
      assert a + b == a;
    } else {
      var b' := b[..|b| - 1];
      assert (a + b)[..|a + b| - 1] == a + b';
      FollowOverConcat(querier, config, id, a, b');
    }
  }

  /** Each boundary point contributes exactly count follow candidates. */
  lemma {:induction false} FollowOverLength(querier: PredictionQuerier, config: Config, id: string, points: seq<PathTimePoint>)
    requires FollowConfigOk(config)
    ensures |FollowOver(querier, config, id, points)| == config.numSampleFollowPerTimestamp * |points|
  {
    if points != [] {
      var front := points[..|points| - 1];
      FollowOverLength(querier, config, id, front);
      var n := config.numSampleFollowPerTimestamp;
      assert n * |points| == n * |front| + n;
    }
  }

  /** A follow candidate belongs to the batch of one of the boundary points, with that point's projected velocity. */
  lemma {:induction false} FollowOverMember(querier: PredictionQuerier, config: Config, id: string, points: seq<PathTimePoint>, sp: SamplePoint)
    requires FollowConfigOk(config)
    ensures sp in FollowOver(querier, config, id, points) <==>
      exists p :: p in points && sp in FollowBatch(config, p, ProjectedV(querier, id, p))
  {
    if points != [] {
      var front := points[..|points| - 1];
      var last := points[|points| - 1];
      FollowOverMember(querier, config, id, front, sp);
      assert forall p :: p in points <==> p in front || p == last;
    }
  }

  /** Overtake generation maps each boundary point, in order, to one point a buffer ahead. */
  lemma {:induction false} OvertakeOverAt(querier: PredictionQuerier, config: Config, id: string, points: seq<PathTimePoint>)
    ensures var r := OvertakeOver(querier, config, id, points);
      |r| == |points| &&
      forall i :: 0 <= i < |points| ==>
        r[i] == SamplePoint(PathTimePoint(points[i].s + config.defaultLonBuffer, points[i].t),
                            querier.projectVelocityAlongReferenceLine(id, points[i].s, points[i].t))
  {
    if points != [] {
      var front := points[..|points| - 1];
      OvertakeOverAt(querier, config, id, front);
      var r := OvertakeOver(querier, config, id, points);
      forall i | 0 <= i < |points|
        ensures r[i] == SamplePoint(PathTimePoint(points[i].s + config.defaultLonBuffer, points[i].t),
                                    querier.projectVelocityAlongReferenceLine(id, points[i].s, points[i].t))
      {
        if i < |front| {
          assert points[i] == front[i];
        }
      }
    }
  }

  /**
   * Obstacles are independent: sampling a concatenation of obstacle lists is
   * the concatenation of their samplings, and one obstacle yields its follow
   * batch followed by its overtake batch.
   */
  lemma {:induction false} ObstacleSamplePointsConcat(graph: PathTimeGraph, querier: PredictionQuerier, config: Config, a: seq<string>, b: seq<string>)
    requires FollowConfigOk(config)
    ensures ObstacleSamplePoints(graph, querier, config, a + b) ==
      ObstacleSamplePoints(graph, querier, config, a) + ObstacleSamplePoints(graph, querier, config, b)
    ensures forall id ::
      ObstacleSamplePoints(graph, querier, config, [id]) ==
      FollowOver(querier, config, id, FollowBoundary(graph, config, id)) +
      OvertakeOver(querier, config, id, OvertakeBoundary(graph, config, id))
  {
    forall id
      ensures ObstacleSamplePoints(graph, querier, config, [id]) ==
        FollowOver(querier, config, id, FollowBoundary(graph, config, id)) +
        OvertakeOver(querier, config, id, OvertakeBoundary(graph, config, id))
    {
      assert [id][..0] == [];
    }
    if b == [] {
      assert a + b == a;
    } else {
      var b' := b[..|b| - 1];
      assert (a + b)[..|a + b| - 1] == a + b';
      ObstacleSamplePointsConcat(graph, querier, config, a, b');
    }
  }

  /** Every emitted condition is late enough, inside the position envelope and has zero acceleration. */
  lemma {:induction false} FeasibleConditionsSound(region: FeasibleRegion, minimalParam: real, points: seq<SamplePoint>)
    ensures forall c :: c in FeasibleConditions(region, minimalParam, points) ==>
      && c.t >= minimalParam
      && region.sLower(c.t) <= c.state.x <= region.sUpper(c.t)
      && c.state.ddx == 0.0
  {
    if points != [] {
      FeasibleConditionsSound(region, minimalParam, points[..|points| - 1]);
    }
  }

  /** A condition is emitted exactly when it comes from a feasible sample point. */
  lemma {:induction false} FeasibleConditionsMember(region: FeasibleRegion, minimalParam: real, points: seq<SamplePoint>, c: Condition)
    ensures c in FeasibleConditions(region, minimalParam, points) <==>
      exists sp :: sp in points && InFeasibleRegion(region, minimalParam, sp) && c == ToCondition(sp)
  {
    if points != [] {
      var front := points[..|points| - 1];
      var last := points[|points| - 1];
      FeasibleConditionsMember(region, minimalParam, front, c);
      assert forall sp :: sp in points <==> sp in front || sp == last;
    }
  }

  /**
   * The filter keeps order: filtering a concatenation is the concatenation of
   * the filtered parts, and a single point is kept exactly when it is feasible.
   */
  lemma {:induction false} FeasibleConditionsConcat(region: FeasibleRegion, minimalParam: real, a: seq<SamplePoint>, b: seq<SamplePoint>)
    ensures FeasibleConditions(region, minimalParam, a + b) ==
      FeasibleConditions(region, minimalParam, a) + FeasibleConditions(region, minimalParam, b)
    ensures forall sp ::
      FeasibleConditions(region, minimalParam, [sp]) ==
      (if InFeasibleRegion(region, minimalParam, sp) then [ToCondition(sp)] else [])
  {
    if b == [] {
      assert a + b == a;
    } else {
      var b' := b[..|b| - 1];
      assert (a + b)[..|a + b| - 1] == a + b';
      FeasibleConditionsConcat(region, minimalParam, a, b');
    }
    forall sp
      ensures FeasibleConditions(region, minimalParam, [sp]) ==
        (if InFeasibleRegion(region, minimalParam, sp) then [ToCondition(sp)] else [])
    {
      assert [sp][..0] == [];
    }
  }

  /** The filter never emits more conditions than there are sample points. */
  lemma {:induction false} FeasibleConditionsLength(region: FeasibleRegion, minimalParam: real, points: seq<SamplePoint>)
    ensures |FeasibleConditions(region, minimalParam, points)| <= |points|
  {
    if points != [] {
      FeasibleConditionsLength(region, minimalParam, points[..|points| - 1]);
    }
  }
}
