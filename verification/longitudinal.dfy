/**
 * Longitudinal end conditions for cruising: for every horizon T, T-1, ..., 1
 * the two reachable boundary velocities and a bounded number of evenly spaced
 * velocities strictly between them.
 */
module LongitudinalSpec {
  import opened SamplerTypes

  /** The horizons T, T-1, ..., 1 visited by cruise sampling, in that order. */
  function TimeSamples(trajectoryTimeLength: nat): (r: seq<real>)
    ensures |r| == trajectoryTimeLength
    ensures forall i, j :: 0 <= i < j < |r| ==> r[j] < r[i]
    ensures forall i :: 0 <= i < |r| ==> 1.0 <= r[i] <= trajectoryTimeLength as real
    ensures trajectoryTimeLength > 0 ==>
      r[0] == trajectoryTimeLength as real && r[trajectoryTimeLength - 1] == 1.0
  {
    seq(trajectoryTimeLength, i requires 0 <= i < trajectoryTimeLength => (trajectoryTimeLength - i) as real)
  }

  /**
   * Conversion of a real to an unsigned size by truncation toward zero;
   * defined only above -1, where the truncated value is representable.
   */
  function TruncateToSize(x: real): (n: nat)
    requires x > -1.0
    ensures x < 1.0 ==> n == 0
    ensures x >= 0.0 ==> n as real <= x < n as real + 1.0
  {
    if x < 0.0 then 0 else x.Floor
  }

  /** Cruise configuration the velocity grid needs: at least two samples and a positive gap. */
  predicate CruiseConfigOk(config: Config)
  {
    config.numVelocitySample >= 2 && config.minVelocitySampleGap > 0.0
  }

  /** Upper velocity at time t: the reachable bound capped by the cruise speed. */
  function CruiseVUpper(region: FeasibleRegion, cruiseSpeed: real, t: real): real
  {
    Min(region.vUpper(t), cruiseSpeed)
  }

  function CruiseVLower(region: FeasibleRegion, t: real): real
  {
    region.vLower(t)
  }

  /** The velocity range at time t divided by the gap can be cast to a size. */
  predicate CastDefinedAt(region: FeasibleRegion, config: Config, cruiseSpeed: real, t: real)
  {
    CruiseConfigOk(config) &&
    (CruiseVUpper(region, cruiseSpeed, t) - CruiseVLower(region, t)) / config.minVelocitySampleGap > -1.0
  }

  predicate CastDefined(region: FeasibleRegion, config: Config, cruiseSpeed: real, times: seq<real>)
  {
    forall t :: t in times ==> CastDefinedAt(region, config, cruiseSpeed, t)
  }

  /**
   * Number of interior velocities: min(num_velocity_sample - 2,
   * trunc(range / gap)), i.e. the largest count not above
   * num_velocity_sample - 2 whose gaps fit in the range.
   */
  function MidCount(vRange: real, numVelocitySample: nat, gap: real): (n: nat)
    requires numVelocitySample >= 2 && gap > 0.0 && vRange / gap > -1.0
    ensures n <= numVelocitySample - 2
    ensures n > 0 ==> n as real * gap <= vRange
    ensures n < numVelocitySample - 2 ==> vRange < (n + 1) as real * gap
  {
    var q := TruncateToSize(vRange / gap);
    TruncateScale(vRange, gap);
    var cap := numVelocitySample - 2;
    if cap <= q then cap else q
  }

  /** The truncated quotient counts how many whole gaps fit in the range. */
  lemma TruncateScale(vRange: real, gap: real)
    requires gap > 0.0 && vRange / gap > -1.0
    ensures var q := TruncateToSize(vRange / gap);
      (q > 0 ==> q as real * gap <= vRange) && vRange < (q + 1) as real * gap
  {
    var x := vRange / gap;
    var q := TruncateToSize(x);
    assert x * gap == vRange;
    assert x < (q + 1) as real by {
      if x < 0.0 { assert q == 0; }
    }
    var b := (q + 1) as real;
    MulMono(x, b, gap);
    assert vRange < b * gap;
    if q > 0 {
      MulMono(q as real, x, gap);
    }
  }

  /** Interior velocity count at time t. */
  function CruiseMidCount(region: FeasibleRegion, config: Config, cruiseSpeed: real, t: real): nat
    requires CastDefinedAt(region, config, cruiseSpeed, t)
  {
    MidCount(CruiseVUpper(region, cruiseSpeed, t) - CruiseVLower(region, t),
             config.numVelocitySample, config.minVelocitySampleGap)
  }

  /** The i-th of n evenly spaced velocities between vLower and vUpper (i from 1 to n). */
  function InteriorVelocity(vLower: real, vUpper: real, n: nat, i: nat): real
  {
    vLower + (vUpper - vLower) / (n + 1) as real * i as real
  }

  /** Interior velocities increase with i and stay strictly inside a positive range. */
  lemma InteriorVelocityMono(vLower: real, vUpper: real, n: nat, i: nat, j: nat)
    requires vLower < vUpper && 1 <= i < j <= n + 1
    ensures vLower < InteriorVelocity(vLower, vUpper, n, i) < InteriorVelocity(vLower, vUpper, n, j)
    ensures InteriorVelocity(vLower, vUpper, n, j) <= vUpper
  {
    EvenSplit(vUpper - vLower, n, i, j);
  }

  /** The n interior conditions (0, v_i, 0) at time t, for i from 1 to n. */
  function InteriorConditions(vLower: real, vUpper: real, n: nat, t: real): seq<Condition>
  {
    seq(n, i requires 0 <= i < n => LonCondition(0.0, InteriorVelocity(vLower, vUpper, n, i + 1), t))
  }

  /** The conditions sampled at one horizon: lower bound, upper bound, then the interior ones. */
  function CruiseAt(region: FeasibleRegion, config: Config, cruiseSpeed: real, t: real): seq<Condition>
    requires CastDefinedAt(region, config, cruiseSpeed, t)
  {
    var vUpper := CruiseVUpper(region, cruiseSpeed, t);
    var vLower := CruiseVLower(region, t);
    var n := CruiseMidCount(region, config, cruiseSpeed, t);
    [LonCondition(0.0, vLower, t), LonCondition(0.0, vUpper, t)] + InteriorConditions(vLower, vUpper, n, t)
  }

  /** The blocks of all horizons, in horizon order. */
  function CruiseOver(region: FeasibleRegion, config: Config, cruiseSpeed: real, times: seq<real>): seq<Condition>
    requires CastDefined(region, config, cruiseSpeed, times)
  {
    if times == [] then []
    else
      CruiseOver(region, config, cruiseSpeed, times[..|times| - 1]) +
      CruiseAt(region, config, cruiseSpeed, times[|times| - 1])
  }

  /** Number of conditions cruise sampling emits: the sum of 2 + n over the horizons. */
  function CruiseCount(region: FeasibleRegion, config: Config, cruiseSpeed: real, times: seq<real>): nat
    requires CastDefined(region, config, cruiseSpeed, times)
  {
    if times == [] then 0
    else
      CruiseCount(region, config, cruiseSpeed, times[..|times| - 1]) +
      2 + CruiseMidCount(region, config, cruiseSpeed, times[|times| - 1])
  }

  /** Multiples 1..n+1 of a range split into n + 1 equal segments increase up to the range. */
  lemma EvenSplit(range: real, n: nat, k: nat, l: nat)
    requires range > 0.0 && 1 <= k < l <= n + 1
    ensures var seg := range / (n + 1) as real;
      0.0 < seg * k as real < seg * l as real <= range
  {
    var seg := range / (n + 1) as real;
    assert seg > 0.0;
    assert seg * (n + 1) as real == range;
    MulMono(k as real, l as real, seg);
    MulMono(l as real, (n + 1) as real, seg);
    assert seg * l as real == l as real * seg;
  }

  /**
   * One horizon: first (0, v_lower, 0), then (0, v_upper, 0), then n interior
   * velocities v_lower + i * range / (n + 1); every state has position and
   * acceleration 0 and the horizon as its time.
   */
  lemma CruiseAtShape(region: FeasibleRegion, config: Config, cruiseSpeed: real, t: real)
    requires CastDefinedAt(region, config, cruiseSpeed, t)
    ensures var r := CruiseAt(region, config, cruiseSpeed, t);
      var vl := CruiseVLower(region, t);
      var vu := CruiseVUpper(region, cruiseSpeed, t);
      var n := CruiseMidCount(region, config, cruiseSpeed, t);
      && |r| == 2 + n
      && r[0] == LonCondition(0.0, vl, t)
      && r[1] == LonCondition(0.0, vu, t)
      && (forall k :: 0 <= k < |r| ==> r[k].t == t && r[k].state.x == 0.0 && r[k].state.ddx == 0.0)
      && (forall k :: 2 <= k < |r| ==> r[k].state.dx == InteriorVelocity(vl, vu, n, k - 1))
  {
    var r := CruiseAt(region, config, cruiseSpeed, t);
    var vl := CruiseVLower(region, t);
    var vu := CruiseVUpper(region, cruiseSpeed, t);
    var n := CruiseMidCount(region, config, cruiseSpeed, t);
    forall k | 2 <= k < |r|
      ensures r[k] == LonCondition(0.0, InteriorVelocity(vl, vu, n, k - 1), t)
    {
      assert r[k] == LonCondition(0.0, InteriorVelocity(vl, vu, n, (k - 2) + 1), t);
    }
  }

  /**
   * The interior velocities of one horizon are strictly increasing and lie
   * strictly between the lower and the upper velocity.
   */
  lemma CruiseAtInterior(region: FeasibleRegion, config: Config, cruiseSpeed: real, t: real)
    requires CastDefinedAt(region, config, cruiseSpeed, t)
    ensures var r := CruiseAt(region, config, cruiseSpeed, t);
      var vl := CruiseVLower(region, t);
      var vu := CruiseVUpper(region, cruiseSpeed, t);
      && (forall k :: 2 <= k < |r| ==> vl < r[k].state.dx < vu)
      && (forall k, l :: 2 <= k < l < |r| ==> r[k].state.dx < r[l].state.dx)
  {
    CruiseAtShape(region, config, cruiseSpeed, t);
    var r := CruiseAt(region, config, cruiseSpeed, t);
    var vl := CruiseVLower(region, t);
    var vu := CruiseVUpper(region, cruiseSpeed, t);
    var n := CruiseMidCount(region, config, cruiseSpeed, t);
    if n > 0 {
      assert vu - vl > 0.0;
      forall k, l | 2 <= k < l < |r|
        ensures r[k].state.dx < r[l].state.dx
      {
        InteriorVelocityMono(vl, vu, n, k - 1, l - 1);
      }
      forall k | 2 <= k < |r|
        ensures vl < r[k].state.dx < vu
      {
        InteriorVelocityMono(vl, vu, n, k - 1, n + 1);
        assert InteriorVelocity(vl, vu, n, n + 1) == vu by {
          EvenSplit(vu - vl, n, n, n + 1);
        }
      }
    }
  }

  /** Cruise sampling of consecutive horizon lists is the concatenation of their samplings. */
  lemma {:induction false} CruiseOverConcat(region: FeasibleRegion, config: Config, cruiseSpeed: real, a: seq<real>, b: seq<real>)
    requires CastDefined(region, config, cruiseSpeed, a + b)
    ensures CastDefined(region, config, cruiseSpeed, a) && CastDefined(region, config, cruiseSpeed, b)
    ensures CruiseOver(region, config, cruiseSpeed, a + b) ==
      CruiseOver(region, config, cruiseSpeed, a) + CruiseOver(region, config, cruiseSpeed, b)
  {
    assert forall t :: t in a ==> t in a + b;
    assert forall t :: t in b ==> t in a + b;
    if b == [] {
      assert a + b == a;
    } else {
      var b' := b[..|b| - 1];
      assert (a + b)[..|a + b| - 1] == a + b';
      assert forall t :: t in a + b' ==> t in a + b;
      CruiseOverConcat(region, config, cruiseSpeed, a, b');
    }
  }

  /** The number of cruise conditions is the sum over horizons of 2 plus the interior count. */
  lemma {:induction false} CruiseOverLength(region: FeasibleRegion, config: Config, cruiseSpeed: real, times: seq<real>)
    requires CastDefined(region, config, cruiseSpeed, times)
    ensures |CruiseOver(region, config, cruiseSpeed, times)| == CruiseCount(region, config, cruiseSpeed, times)
  {
    if times != [] {
      var t := times[|times| - 1];
      CruiseOverLength(region, config, cruiseSpeed, times[..|times| - 1]);
      CruiseAtShape(region, config, cruiseSpeed, t);
    }
  }

  /** A condition that cruise sampling emits at horizon t. */
  predicate CruiseConditionAt(region: FeasibleRegion, cruiseSpeed: real, c: Condition)
  {
    var vl := CruiseVLower(region, c.t);
    var vu := CruiseVUpper(region, cruiseSpeed, c.t);
    c.state.x == 0.0 && c.state.ddx == 0.0 &&
    (c.state.dx == vl || c.state.dx == vu || vl < c.state.dx < vu)
  }

  /** Every condition of one horizon is a cruise condition at that horizon. */
  lemma CruiseAtBounds(region: FeasibleRegion, config: Config, cruiseSpeed: real, t: real)
    requires CastDefinedAt(region, config, cruiseSpeed, t)
    ensures forall c :: c in CruiseAt(region, config, cruiseSpeed, t) ==>
      c.t == t && CruiseConditionAt(region, cruiseSpeed, c)
  {
    CruiseAtShape(region, config, cruiseSpeed, t);
    CruiseAtInterior(region, config, cruiseSpeed, t);
    var q := CruiseAt(region, config, cruiseSpeed, t);
    forall c | c in q
      ensures c.t == t && CruiseConditionAt(region, cruiseSpeed, c)
    {
      var m :| 0 <= m < |q| && q[m] == c;
      if m >= 2 {
        assert CruiseVLower(region, t) < q[m].state.dx < CruiseVUpper(region, cruiseSpeed, t);
      }
    }
  }

  /**
   * Every cruise condition has one of the horizons as its time, position and
   * acceleration 0, and a velocity that is the lower bound, the upper bound
   * or strictly between them at that time.
   */
  lemma {:induction false} CruiseOverBounds(region: FeasibleRegion, config: Config, cruiseSpeed: real, times: seq<real>)
    requires CastDefined(region, config, cruiseSpeed, times)
    ensures forall c :: c in CruiseOver(region, config, cruiseSpeed, times) ==>
      c.t in times && CruiseConditionAt(region, cruiseSpeed, c)
  {
    if times != [] {
      var front := times[..|times| - 1];
      var t := times[|times| - 1];
      assert forall u :: u in front ==> u in times;
      CruiseOverBounds(region, config, cruiseSpeed, front);
      CruiseAtBounds(region, config, cruiseSpeed, t);
    }
  }

  /** Every emitted time is one of the horizons. */
  lemma {:induction false} CruiseOverTimes(region: FeasibleRegion, config: Config, cruiseSpeed: real, times: seq<real>)
    requires CastDefined(region, config, cruiseSpeed, times)
    ensures forall c :: c in CruiseOver(region, config, cruiseSpeed, times) ==> c.t in times
  {
    if times != [] {
      var front := times[..|times| - 1];
      var t := times[|times| - 1];
      assert forall u :: u in front ==> u in times;
      CruiseOverTimes(region, config, cruiseSpeed, front);
      CruiseAtShape(region, config, cruiseSpeed, t);
      var q := CruiseAt(region, config, cruiseSpeed, t);
      assert forall c :: c in q ==> c.t == t;
    }
  }

  /** For horizons visited in strictly decreasing order, the emitted times never increase. */
  lemma {:induction false} CruiseOverOrdered(region: FeasibleRegion, config: Config, cruiseSpeed: real, times: seq<real>)
    requires CastDefined(region, config, cruiseSpeed, times)
    requires forall i, j :: 0 <= i < j < |times| ==> times[j] < times[i]
    ensures TimesNonIncreasing(CruiseOver(region, config, cruiseSpeed, times))
  {
    if times != [] {
      var front := times[..|times| - 1];
      var t := times[|times| - 1];
      assert forall u :: u in front ==> u in times;
      assert forall i, j :: 0 <= i < j < |front| ==> front[j] < front[i] by {
        forall i, j | 0 <= i < j < |front| ensures front[j] < front[i] {
          assert front[i] == times[i] && front[j] == times[j];
        }
      }
      CruiseOverOrdered(region, config, cruiseSpeed, front);
      CruiseOverTimes(region, config, cruiseSpeed, front);
      CruiseAtShape(region, config, cruiseSpeed, t);
      var p := CruiseOver(region, config, cruiseSpeed, front);
      var q := CruiseAt(region, config, cruiseSpeed, t);
      forall c | c in p ensures t < c.t {
        var h :| 0 <= h < |front| && front[h] == c.t;
        assert times[h] == c.t;
      }
      assert forall c :: c in q ==> c.t == t;
      TimesNonIncreasingConcat(p, q, t);
    }
  }

  predicate TimesNonIncreasing(r: seq<Condition>)
  {
    forall i, j :: 0 <= i < j < |r| ==> r[j].t <= r[i].t
  }

  lemma TimesNonIncreasingConcat(p: seq<Condition>, q: seq<Condition>, t: real)
    requires TimesNonIncreasing(p)
    requires forall c :: c in p ==> t < c.t
    requires forall c :: c in q ==> c.t == t
    ensures TimesNonIncreasing(p + q)
  {
    var r := p + q;
    forall i, j | 0 <= i < j < |r|
      ensures r[j].t <= r[i].t
    {
      if j < |p| {
        assert r[i] == p[i] && r[j] == p[j];
      } else if i < |p| {
        assert r[i] == p[i] && r[j] == q[j - |p|];
        assert p[i] in p && q[j - |p|] in q;
      } else {
        assert r[i] == q[i - |p|] && r[j] == q[j - |p|];
        assert q[i - |p|] in q && q[j - |p|] in q;
      }
    }
  }

  /** Both boundary conditions of every horizon are emitted. */
  lemma {:induction false} CruiseOverHasBounds(region: FeasibleRegion, config: Config, cruiseSpeed: real, times: seq<real>)
    requires CastDefined(region, config, cruiseSpeed, times)
    ensures var r := CruiseOver(region, config, cruiseSpeed, times);
      forall t :: t in times ==>
        LonCondition(0.0, CruiseVLower(region, t), t) in r &&
        LonCondition(0.0, CruiseVUpper(region, cruiseSpeed, t), t) in r
  {
    if times != [] {
      var front := times[..|times| - 1];
      var t := times[|times| - 1];
      assert forall u :: u in front ==> u in times;
      CruiseOverHasBounds(region, config, cruiseSpeed, front);
      CruiseAtShape(region, config, cruiseSpeed, t);
      var r := CruiseOver(region, config, cruiseSpeed, times);
      var p := CruiseOver(region, config, cruiseSpeed, front);
      var q := CruiseAt(region, config, cruiseSpeed, t);
      forall u | u in times
        ensures LonCondition(0.0, CruiseVLower(region, u), u) in r
        ensures LonCondition(0.0, CruiseVUpper(region, cruiseSpeed, u), u) in r
      {
        if u == t {
          assert r[|p|] == q[0] && r[|p| + 1] == q[1];
        } else {
          assert u in front by {
            var i :| 0 <= i < |times| && times[i] == u;
            assert front[i] == u;
          }
          assert forall c :: c in p ==> c in r;
        }
      }
    }
  }

  /**
   * A cruise speed below VLower(t) by less than one gap still passes the size
   * conversion: with VLower = 2.5, VUpper = 100, cruise speed 2.0 and gap 1.0,
   * the single horizon emits the lower bound 2.5 and then the capped upper
   * bound 2.0, so the lower-bound condition lies above the upper bound.
   */
  lemma CruiseLowerAboveUpper()
    ensures var region := FeasibleRegion(t => 0.0, t => 0.0, t => 100.0, t => 2.5);
      var config := Config(1, 0.01, 6, 1.0, 5, 5.0, 0.000001, 0.1, 40.0, 0.2, 4.5, 2.0);
      && CastDefined(region, config, 2.0, TimeSamples(1))
      && CruiseOver(region, config, 2.0, TimeSamples(1)) ==
           [LonCondition(0.0, 2.5, 1.0), LonCondition(0.0, 2.0, 1.0)]
      && CruiseVUpper(region, 2.0, 1.0) < CruiseVLower(region, 1.0)
  {
    var region := FeasibleRegion(t => 0.0, t => 0.0, t => 100.0, t => 2.5);
    var config := Config(1, 0.01, 6, 1.0, 5, 5.0, 0.000001, 0.1, 40.0, 0.2, 4.5, 2.0);
    var times := TimeSamples(1);
    assert times == [1.0];
    assert CastDefinedAt(region, config, 2.0, 1.0);
    assert CruiseMidCount(region, config, 2.0, 1.0) == 0;
    assert times[..0] == [];
  }
}
