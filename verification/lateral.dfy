/**
 * Lateral end conditions: a fixed grid of (d, 0, 0) terminal states crossed
 * with fixed horizons, chosen by the lane-change state.
 */
module LateralSpec {
  import opened SamplerTypes

  /** Horizons for keeping (or re-centring in) a lane. */
  const LaneKeepHorizons: seq<real> := [5.0, 12.0, 27.0, 45.0]
  /** Horizons when the left lane may be occupied. */
  const OccupyLeftHorizons: seq<real> := [8.0, 14.0]
  /** Horizons when about to change one lane to the left. */
  const ChangeLeftHorizons: seq<real> := [8.0, 12.0]
  /** Horizons when about to change one lane to the right. */
  const ChangeRightHorizons: seq<real> := [14.0, 24.0]
  /** Horizons when returning to the lane centre. */
  const ChangeBackHorizons: seq<real> := [14.0, 24.0]

  /** A lateral terminal state at offset d with zero rate and zero rate of rate. */
  function LatCondition(d: real, t: real): Condition
  {
    Condition(State(d, 0.0, 0.0), t)
  }

  /** Seed margin from the lane centre to a lane edge the vehicle may reach. */
  function SeedL(laneWidth: real, carWidth: real, egoToLaneBoundary: real): real
  {
    (laneWidth - carWidth) * 0.5 - egoToLaneBoundary
  }

  /** One horizon paired with every target, in target order. */
  function Row(t: real, targets: seq<real>): seq<Condition>
  {
    seq(|targets|, j requires 0 <= j < |targets| => LatCondition(targets[j], t))
  }

  /** Horizons in the outer position, targets in the inner position. */
  function Grid(horizons: seq<real>, targets: seq<real>): seq<Condition>
  {
    if horizons == [] then []
    else Grid(horizons[..|horizons| - 1], targets) + Row(horizons[|horizons| - 1], targets)
  }

  /**
   * What lateral sampling yields for a lane-change state, a lane width, the
   * left-occupation flag and the seed margin. A state outside the named ones
   * takes the last branch with centre and edges still at their initial 0.0.
   */
  function LatEndConditions(lcs: LaneChangeState, laneWidth: real, occupyLeft: bool, seed: real): seq<Condition>
  {
    match lcs
    case ChangeDisable =>
      if !occupyLeft then Grid(LaneKeepHorizons, [0.0, seed, -seed])
      else Grid(OccupyLeftHorizons, [0.0, laneWidth * 0.5, laneWidth])
    case ReadyToChangeLeft => Grid(ChangeLeftHorizons, [laneWidth])
    case ReadyToChangeRight => Grid(ChangeRightHorizons, [-laneWidth])
    case ReadyToChangeBackFromLeft => Grid(ChangeBackHorizons, [0.0])
    case EnforceChangeBackFromLeft => Grid(ChangeBackHorizons, [0.0])
    case ReadyToChangeBackFromRight => Grid(ChangeBackHorizons, [0.0])
    case EnforceChangeBackFromRight => Grid(ChangeBackHorizons, [0.0])
    case ChangeLeftSuccess =>
      Grid(LaneKeepHorizons, [laneWidth, laneWidth + seed, laneWidth - seed])
    case ChangeRightSuccess =>
      Grid(LaneKeepHorizons, [-laneWidth, -laneWidth + seed, -laneWidth - seed])
    case OtherLaneChangeState => Grid(LaneKeepHorizons, [0.0, 0.0, 0.0])
  }

  lemma GridSnoc(horizons: seq<real>, t: real, targets: seq<real>)
    ensures Grid(horizons + [t], targets) == Grid(horizons, targets) + Row(t, targets)
  {
    assert (horizons + [t])[..|horizons|] == horizons;
  }

  /** The grid has one condition per (horizon, target) pair. */
  lemma {:induction false} GridLength(horizons: seq<real>, targets: seq<real>)
    ensures |Grid(horizons, targets)| == |horizons| * |targets|
  {
    if horizons != [] {
      var h' := horizons[..|horizons| - 1];
      GridLength(h', targets);
      assert |horizons| * |targets| == |h'| * |targets| + |targets|;
    }
  }

  /** The pair (horizon i, target j) sits at position i * |targets| + j. */
  lemma {:induction false} GridAt(horizons: seq<real>, targets: seq<real>, i: nat, j: nat)
    requires i < |horizons| && j < |targets|
    ensures |Grid(horizons, targets)| == |horizons| * |targets|
    ensures i * |targets| + j < |horizons| * |targets|
    ensures Grid(horizons, targets)[i * |targets| + j] == LatCondition(targets[j], horizons[i])
  {
    GridLength(horizons, targets);
    var n := |horizons| - 1;
    var h' := horizons[..n];
    GridLength(h', targets);
    assert |horizons| * |targets| == n * |targets| + |targets|;
    if i == n {
      assert Grid(horizons, targets)[i * |targets| + j] == Row(horizons[n], targets)[j];
    } else {
      GridAt(h', targets, i, j);
      assert i * |targets| + j < (i + 1) * |targets| <= n * |targets|;
      assert h'[i] == horizons[i];
    }
  }

  /** A condition is in the grid exactly when it pairs some target with some horizon. */
  lemma {:induction false} GridMember(horizons: seq<real>, targets: seq<real>, c: Condition)
    ensures c in Grid(horizons, targets) <==>
      exists i, j :: 0 <= i < |horizons| && 0 <= j < |targets| && c == LatCondition(targets[j], horizons[i])
  {
    if horizons != [] {
      var n := |horizons| - 1;
      var h' := horizons[..n];
      GridMember(h', targets, c);
      if c in Grid(horizons, targets) {
        if c in Row(horizons[n], targets) {
          var j :| 0 <= j < |targets| && Row(horizons[n], targets)[j] == c;
          assert c == LatCondition(targets[j], horizons[n]);
        } else {
          var i, j :| 0 <= i < |h'| && 0 <= j < |targets| && c == LatCondition(targets[j], h'[i]);
          assert h'[i] == horizons[i];
        }
      }
      if exists i, j :: 0 <= i < |horizons| && 0 <= j < |targets| && c == LatCondition(targets[j], horizons[i]) {
        var i, j :| 0 <= i < |horizons| && 0 <= j < |targets| && c == LatCondition(targets[j], horizons[i]);
        if i == n {
          assert Row(horizons[n], targets)[j] == c;
        } else {
          assert h'[i] == horizons[i];
          assert c in Grid(h', targets);
        }
      }
    }
  }

  lemma Grid4x3(h: seq<real>, d: seq<real>)
    requires |h| == 4 && |d| == 3
    ensures Grid(h, d) ==
      [LatCondition(d[0], h[0]), LatCondition(d[1], h[0]), LatCondition(d[2], h[0]),
       LatCondition(d[0], h[1]), LatCondition(d[1], h[1]), LatCondition(d[2], h[1]),
       LatCondition(d[0], h[2]), LatCondition(d[1], h[2]), LatCondition(d[2], h[2]),
       LatCondition(d[0], h[3]), LatCondition(d[1], h[3]), LatCondition(d[2], h[3])]
  {
    assert h == [] + [h[0]] + [h[1]] + [h[2]] + [h[3]];
    GridSnoc([], h[0], d);
    GridSnoc([h[0]], h[1], d);
    GridSnoc([h[0], h[1]], h[2], d);
    GridSnoc([h[0], h[1], h[2]], h[3], d);
  }

  lemma Grid2(h: seq<real>, d: seq<real>)
    requires |h| == 2 && |d| == 3
    ensures Grid(h, d) ==
      [LatCondition(d[0], h[0]), LatCondition(d[1], h[0]), LatCondition(d[2], h[0]),
       LatCondition(d[0], h[1]), LatCondition(d[1], h[1]), LatCondition(d[2], h[1])]
  {
    assert h == [] + [h[0]] + [h[1]];
    GridSnoc([], h[0], d);
    GridSnoc([h[0]], h[1], d);
  }

  lemma GridColumn(h: seq<real>, d: real)
    requires |h| == 2
    ensures Grid(h, [d]) == [LatCondition(d, h[0]), LatCondition(d, h[1])]
  {
    assert h == [] + [h[0]] + [h[1]];
    GridSnoc([], h[0], [d]);
    GridSnoc([h[0]], h[1], [d]);
  }

  /** No lane change, left lane not to be occupied: 4 horizons times {centre, left edge, right edge}. */
  lemma LatLaneKeep(laneWidth: real, seed: real)
    ensures LatEndConditions(ChangeDisable, laneWidth, false, seed) ==
      [LatCondition(0.0, 5.0), LatCondition(seed, 5.0), LatCondition(-seed, 5.0),
       LatCondition(0.0, 12.0), LatCondition(seed, 12.0), LatCondition(-seed, 12.0),
       LatCondition(0.0, 27.0), LatCondition(seed, 27.0), LatCondition(-seed, 27.0),
       LatCondition(0.0, 45.0), LatCondition(seed, 45.0), LatCondition(-seed, 45.0)]
  {
    Grid4x3(LaneKeepHorizons, [0.0, seed, -seed]);
  }

  /** No lane change, left lane may be occupied: 2 horizons times {0, w/2, w}. */
  lemma LatOccupyLeft(laneWidth: real, seed: real)
    ensures LatEndConditions(ChangeDisable, laneWidth, true, seed) ==
      [LatCondition(0.0, 8.0), LatCondition(laneWidth * 0.5, 8.0), LatCondition(laneWidth, 8.0),
       LatCondition(0.0, 14.0), LatCondition(laneWidth * 0.5, 14.0), LatCondition(laneWidth, 14.0)]
  {
    Grid2(OccupyLeftHorizons, [0.0, laneWidth * 0.5, laneWidth]);
  }

  /** Ready to change left: one lane width to the left at 8 then 12. */
  lemma LatReadyLeft(laneWidth: real, occupyLeft: bool, seed: real)
    ensures LatEndConditions(ReadyToChangeLeft, laneWidth, occupyLeft, seed) ==
      [LatCondition(laneWidth, 8.0), LatCondition(laneWidth, 12.0)]
  {
    GridColumn(ChangeLeftHorizons, laneWidth);
  }

  /** Ready to change right: one lane width to the right at 14 then 24. */
  lemma LatReadyRight(laneWidth: real, occupyLeft: bool, seed: real)
    ensures LatEndConditions(ReadyToChangeRight, laneWidth, occupyLeft, seed) ==
      [LatCondition(-laneWidth, 14.0), LatCondition(-laneWidth, 24.0)]
  {
    GridColumn(ChangeRightHorizons, -laneWidth);
  }

  /** The four back-from states all return to the lane centre at 14 then 24. */
  lemma LatChangeBack(lcs: LaneChangeState, laneWidth: real, occupyLeft: bool, seed: real)
    requires lcs == ReadyToChangeBackFromLeft || lcs == EnforceChangeBackFromLeft ||
             lcs == ReadyToChangeBackFromRight || lcs == EnforceChangeBackFromRight
    ensures LatEndConditions(lcs, laneWidth, occupyLeft, seed) ==
      [LatCondition(0.0, 14.0), LatCondition(0.0, 24.0)]
  {
    GridColumn(ChangeBackHorizons, 0.0);
  }

  /** After a successful left change the grid is re-centred one lane width to the left. */
  lemma LatLeftSuccess(laneWidth: real, occupyLeft: bool, seed: real)
    ensures var w := laneWidth;
      LatEndConditions(ChangeLeftSuccess, w, occupyLeft, seed) ==
      [LatCondition(w, 5.0), LatCondition(w + seed, 5.0), LatCondition(w - seed, 5.0),
       LatCondition(w, 12.0), LatCondition(w + seed, 12.0), LatCondition(w - seed, 12.0),
       LatCondition(w, 27.0), LatCondition(w + seed, 27.0), LatCondition(w - seed, 27.0),
       LatCondition(w, 45.0), LatCondition(w + seed, 45.0), LatCondition(w - seed, 45.0)]
  {
    Grid4x3(LaneKeepHorizons, [laneWidth, laneWidth + seed, laneWidth - seed]);
  }

  /** After a successful right change the grid is re-centred one lane width to the right. */
  lemma LatRightSuccess(laneWidth: real, occupyLeft: bool, seed: real)
    ensures var w := laneWidth;
      LatEndConditions(ChangeRightSuccess, w, occupyLeft, seed) ==
      [LatCondition(-w, 5.0), LatCondition(-w + seed, 5.0), LatCondition(-w - seed, 5.0),
       LatCondition(-w, 12.0), LatCondition(-w + seed, 12.0), LatCondition(-w - seed, 12.0),
       LatCondition(-w, 27.0), LatCondition(-w + seed, 27.0), LatCondition(-w - seed, 27.0),
       LatCondition(-w, 45.0), LatCondition(-w + seed, 45.0), LatCondition(-w - seed, 45.0)]
  {
    Grid4x3(LaneKeepHorizons, [-laneWidth, -laneWidth + seed, -laneWidth - seed]);
  }

  /** Any other state yields the 12-condition grid with every offset still 0.0. */
  lemma LatFallthrough(laneWidth: real, occupyLeft: bool, seed: real)
    ensures var r := LatEndConditions(OtherLaneChangeState, laneWidth, occupyLeft, seed);
      |r| == 12 &&
      (forall k :: 0 <= k < 12 ==> r[k] == LatCondition(0.0, LaneKeepHorizons[k / 3]))
  {
    Grid4x3(LaneKeepHorizons, [0.0, 0.0, 0.0]);
  }

  /** Every grid condition has zero rate and rate of rate, and a horizon of the grid. */
  lemma GridShape(horizons: seq<real>, targets: seq<real>)
    ensures |Grid(horizons, targets)| == |horizons| * |targets|
    ensures forall c :: c in Grid(horizons, targets) ==>
      c.state.dx == 0.0 && c.state.ddx == 0.0 && c.t in horizons
  {
    GridLength(horizons, targets);
    forall c | c in Grid(horizons, targets)
      ensures c.state.dx == 0.0 && c.state.ddx == 0.0 && c.t in horizons
    {
      GridMember(horizons, targets, c);
    }
  }

  /**
   * Whatever the state, every lateral condition has zero rate and zero rate
   * of rate, a horizon from the fixed ladders, and there are 12, 6 or 2 of them.
   */
  lemma LatShape(lcs: LaneChangeState, laneWidth: real, occupyLeft: bool, seed: real)
    ensures var r := LatEndConditions(lcs, laneWidth, occupyLeft, seed);
      (|r| == 12 || |r| == 6 || |r| == 2) &&
      forall c :: c in r ==>
        c.state.dx == 0.0 && c.state.ddx == 0.0 &&
        c.t in {5.0, 8.0, 12.0, 14.0, 24.0, 27.0, 45.0}
  {
    var r := LatEndConditions(lcs, laneWidth, occupyLeft, seed);
    match lcs
    case ChangeDisable =>
      if occupyLeft {
        GridShape(OccupyLeftHorizons, [0.0, laneWidth * 0.5, laneWidth]);
      } else {
        GridShape(LaneKeepHorizons, [0.0, seed, -seed]);
      }
    case ReadyToChangeLeft => GridShape(ChangeLeftHorizons, [laneWidth]);
    case ReadyToChangeRight => GridShape(ChangeRightHorizons, [-laneWidth]);
    case ReadyToChangeBackFromLeft => GridShape(ChangeBackHorizons, [0.0]);
    case EnforceChangeBackFromLeft => GridShape(ChangeBackHorizons, [0.0]);
    case ReadyToChangeBackFromRight => GridShape(ChangeBackHorizons, [0.0]);
    case EnforceChangeBackFromRight => GridShape(ChangeBackHorizons, [0.0]);
    case ChangeLeftSuccess =>
      GridShape(LaneKeepHorizons, [laneWidth, laneWidth + seed, laneWidth - seed]);
    case ChangeRightSuccess =>
      GridShape(LaneKeepHorizons, [-laneWidth, -laneWidth + seed, -laneWidth - seed]);
    case OtherLaneChangeState => GridShape(LaneKeepHorizons, [0.0, 0.0, 0.0]);
  }

  /**
   * Lane width 3.5, vehicle width 2.0, boundary clearance 0.2: the seed is
   * 0.55; the first horizon samples the centre, then 0.55 to the left and
   * 0.55 to the right, and the last condition is the right target at 45.
   */
  lemma LatLaneKeepExample()
    ensures SeedL(3.5, 2.0, 0.2) == 0.55
    ensures var r := LatEndConditions(ChangeDisable, 3.5, false, SeedL(3.5, 2.0, 0.2));
      && |r| == 12
      && r[..3] == [LatCondition(0.0, 5.0), LatCondition(0.55, 5.0), LatCondition(-0.55, 5.0)]
      && r[11] == LatCondition(-0.55, 45.0)
  {
    LatLaneKeep(3.5, 0.55);
  }
}
