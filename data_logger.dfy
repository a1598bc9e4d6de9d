// The physics DataLogger: a sampling gate in FixedUpdate, a bounded buffer of
// data points that keeps the most recent samples, and the series and speed
// statistics read off that buffer. Unity's clock and the target object's
// readings are parameters; a point keeps its time, height, speed and energies.

module DataLogging {
  import opened Common

  /** `_gravity`. */
  const Gravity: real := 9.81

  /** A `PhysicsDataPoint`; the position is kept as its height, rotation and the velocity vector are not modelled. */
  datatype DataPoint = DataPoint(time: real, height: real, speed: real,
                                 kineticEnergy: real, potentialEnergy: real, totalEnergy: real)

  /** What the target object reports at a physics step: its speed, its mass and the height of the logger's transform. */
  datatype Reading = Reading(speed: real, mass: real, height: real)

  /** The point CollectData builds at time `now`. */
  function Sample(now: real, r: Reading): (p: DataPoint)
    ensures p.time == now && p.speed == r.speed && p.height == r.height
    ensures p.totalEnergy == p.kineticEnergy + p.potentialEnergy
  {
    var kinetic := 0.5 * r.mass * r.speed * r.speed;
    var potential := r.mass * Gravity * r.height;
    DataPoint(now, r.height, r.speed, kinetic, potential, kinetic + potential)
  }

  /** Kinetic energy is never negative for a non-negative mass, and potential energy vanishes at height 0. */
  lemma SampleEnergySigns(now: real, r: Reading)
    requires r.mass >= 0.0
    ensures Sample(now, r).kineticEnergy >= 0.0
    ensures r.height == 0.0 ==> Sample(now, r).totalEnergy == Sample(now, r).kineticEnergy
  {
    var m, v := r.mass, r.speed;
    assert v * v >= 0.0;
    assert 0.5 * m * v * v == (0.5 * m) * (v * v);
  }

  // ---------------------------------------------------------------------------
  // The buffer
  // ---------------------------------------------------------------------------

  /** The buffer after `Add(p)` and, when the count exceeds the limit, `RemoveAt(0)`. */
  function Windowed(points: seq<DataPoint>, p: DataPoint, maxDataPoints: int): (r: seq<DataPoint>)
    ensures |r| == |points| + 1 || |r| == |points|
    ensures |r| > 0 ==> r[|r| - 1] == p
    ensures |points| < maxDataPoints ==> r == points + [p]
    ensures |r| <= maxDataPoints || |r| <= |points|
  {
    var added := points + [p];
    if |added| > maxDataPoints then added[1..] else added
  }

  /**
   * The buffer is a sliding window: if it holds the last `Capacity` points
   * collected so far, then after one more point it holds the last `Capacity`
   * points of the longer history.
   */
  lemma WindowedSlides(history: seq<DataPoint>, p: DataPoint, maxDataPoints: int)
    ensures Windowed(LastN(history, Capacity(maxDataPoints)), p, maxDataPoints)
            == LastN(history + [p], Capacity(maxDataPoints))
  {
    var n := Capacity(maxDataPoints);
    var w := LastN(history, n);
    var h := history + [p];
    if |h| > n {
      assert |w| + 1 > maxDataPoints;
      assert (w + [p])[1..] == h[|h| - n..];
    }
  }

  /** The points' times are at least `interval` apart, one sample to the next. */
  predicate Spaced(points: seq<DataPoint>, interval: real)
  {
    forall i :: 0 < i < |points| ==> points[i].time - points[i - 1].time >= interval
  }

  /** Every point's total energy is its kinetic plus its potential energy. */
  predicate EnergiesAdd(points: seq<DataPoint>)
  {
    forall i :: 0 <= i < |points| ==> points[i].totalEnergy == points[i].kineticEnergy + points[i].potentialEnergy
  }

  /** One more point, taken at least `interval` after the last, keeps a history spaced and its energies adding up. */
  lemma CollectedStep(points: seq<DataPoint>, p: DataPoint, interval: real)
    requires Spaced(points, interval) && EnergiesAdd(points)
    requires |points| > 0 ==> p.time - points[|points| - 1].time >= interval
    requires p.totalEnergy == p.kineticEnergy + p.potentialEnergy
    ensures Spaced(points + [p], interval) && EnergiesAdd(points + [p])
  {
  }

  lemma SuffixKeepsSpacing(points: seq<DataPoint>, k: nat, interval: real)
    requires k <= |points| && Spaced(points, interval) && EnergiesAdd(points)
    ensures Spaced(points[k..], interval) && EnergiesAdd(points[k..])
  {
    var s := points[k..];
    forall i | 0 < i < |s|
      ensures s[i].time - s[i - 1].time >= interval
    {
      assert s[i] == points[k + i] && s[i - 1] == points[k + i - 1];
    }
  }

  // ---------------------------------------------------------------------------
  // Series and statistics over a buffer
  // ---------------------------------------------------------------------------

  function Speeds(points: seq<DataPoint>): (r: seq<real>)
    ensures |r| == |points| && forall i :: 0 <= i < |points| ==> r[i] == points[i].speed
  {
    seq(|points|, i requires 0 <= i < |points| => points[i].speed)
  }

  /** The points whose time relative to `first` lies in [start, end], in buffer order. */
  function PointsInRange(points: seq<DataPoint>, first: real, start: real, end: real): (r: seq<DataPoint>)
    ensures |r| <= |points|
  {
    if |points| == 0 then []
    else
      var last := points[|points| - 1];
      PointsInRange(points[..|points| - 1], first, start, end)
      + (if start <= last.time - first <= end then [last] else [])
  }

  /** GetDataInRange keeps exactly the points inside the window. */
  lemma {:induction false} PointsInRangeMembers(points: seq<DataPoint>, first: real, start: real, end: real)
    ensures forall p :: p in PointsInRange(points, first, start, end) <==>
                        p in points && start <= p.time - first <= end
  {
    if |points| > 0 {
      var init := points[..|points| - 1];
      PointsInRangeMembers(init, first, start, end);
      assert points == init + [points[|points| - 1]];
    }
  }

  /** Selection keeps buffer order: the selection from two halves is the two selections, one after the other. */
  lemma {:induction false} PointsInRangeAppend(a: seq<DataPoint>, b: seq<DataPoint>, first: real, start: real, end: real)
    ensures PointsInRange(a + b, first, start, end)
            == PointsInRange(a, first, start, end) + PointsInRange(b, first, start, end)
  {
    if |b| > 0 {
      var bInit := b[..|b| - 1];
      PointsInRangeAppend(a, bInit, first, start, end);
      assert (a + b)[..|a + b| - 1] == a + bInit;
    } else {
      assert a + b == a;
    }
  }

  class DataLogger {
    /** `_maxDataPoints` and `_sampleInterval`, set in the inspector. */
    const maxDataPoints: int
    const sampleInterval: real

    var lastSampleTime: real
    var dataPoints: seq<DataPoint>
    var currentSpeed: real
    var currentKineticEnergy: real
    var currentPotentialEnergy: real
    var currentTotalEnergy: real

    /** Every point collected since the buffer was last emptied. */
    ghost var collected: seq<DataPoint>

    /**
     * The buffer is the last `Capacity` collected points; collected points
     * are at least one sample interval apart, the last one taken at
     * `lastSampleTime`, and each one's energies add up.
     */
    ghost predicate Valid()
      reads this
    {
      ValidAt(lastSampleTime)
    }

    /** Valid, with the last sample taken at `last`. */
    ghost predicate ValidAt(last: real)
      reads this
    {
      dataPoints == LastN(collected, Capacity(maxDataPoints))
      && Spaced(collected, sampleInterval)
      && EnergiesAdd(collected)
      && (|collected| > 0 ==> collected[|collected| - 1].time == last)
    }

    /** The component as Start leaves it at time `now`. */
    constructor (maxDataPoints: int, sampleInterval: real, now: real)
      ensures Valid()
      ensures this.maxDataPoints == maxDataPoints && this.sampleInterval == sampleInterval
      ensures dataPoints == [] && lastSampleTime == now
      ensures currentSpeed == 0.0 && currentKineticEnergy == 0.0
      ensures currentPotentialEnergy == 0.0 && currentTotalEnergy == 0.0
    {
      this.maxDataPoints := maxDataPoints;
      this.sampleInterval := sampleInterval;
      lastSampleTime := now;
      dataPoints := [];
      collected := [];
      currentSpeed, currentKineticEnergy, currentPotentialEnergy, currentTotalEnergy := 0.0, 0.0, 0.0, 0.0;
    }

    /** IsRecording. */
    function IsRecording(): (r: bool)
      reads this
      ensures r <==> dataPoints != []
    {
      |dataPoints| > 0
    }

    /**
     * FixedUpdate at time `now`; `target` is None when there is no target
     * object. A sample is taken only once `sampleInterval` has passed.
     */
    method FixedUpdate(now: real, target: Option<Reading>)
      requires Valid()
      modifies this
      ensures Valid()
      ensures target.None? || now - old(lastSampleTime) < sampleInterval ==> unchanged(this)
      ensures target.Some? && now - old(lastSampleTime) >= sampleInterval ==>
                lastSampleTime == now
                && dataPoints == Windowed(old(dataPoints), Sample(now, target.value), maxDataPoints)
                && currentSpeed == target.value.speed
                && currentKineticEnergy == Sample(now, target.value).kineticEnergy
                && currentPotentialEnergy == Sample(now, target.value).potentialEnergy
                && currentTotalEnergy == Sample(now, target.value).totalEnergy
    {
      if target.None? {
        return;
      }
      if now - lastSampleTime < sampleInterval {
        return;
      }
      ghost var last := lastSampleTime;
      lastSampleTime := now;
      CollectData(now, target.value, last);
    }

    /** CollectData: the current values and the new point, then the buffer trimmed to its limit. */
    method CollectData(now: real, r: Reading, ghost previous: real)
      requires ValidAt(previous) && now - previous >= sampleInterval
      requires lastSampleTime == now
      modifies this
      ensures Valid()
      ensures lastSampleTime == now
      ensures dataPoints == Windowed(old(dataPoints), Sample(now, r), maxDataPoints)
      ensures collected == old(collected) + [Sample(now, r)]
      ensures currentSpeed == r.speed && currentKineticEnergy == Sample(now, r).kineticEnergy
      ensures currentPotentialEnergy == Sample(now, r).potentialEnergy
      ensures currentTotalEnergy == Sample(now, r).totalEnergy
    {
      var p := Sample(now, r);
      currentSpeed := p.speed;
      currentKineticEnergy := p.kineticEnergy;
      currentPotentialEnergy := p.potentialEnergy;
      currentTotalEnergy := p.totalEnergy;
      WindowedSlides(collected, p, maxDataPoints);
      CollectedStep(collected, p, sampleInterval);
      collected := collected + [p];
      dataPoints := dataPoints + [p];
      if |dataPoints| > maxDataPoints {
        dataPoints := dataPoints[1..];
      }
    }

    /** StartRecording at time `now`: the buffer is emptied and the gate restarts. */
    method StartRecording(now: real)
      requires Valid()
      modifies this
      ensures Valid()
      ensures dataPoints == [] && lastSampleTime == now
      ensures currentSpeed == old(currentSpeed) && currentTotalEnergy == old(currentTotalEnergy)
      ensures currentKineticEnergy == old(currentKineticEnergy) && currentPotentialEnergy == old(currentPotentialEnergy)
    {
      dataPoints := [];
      collected := [];
      lastSampleTime := now;
    }

    /** ClearData: the buffer is emptied and the four current values go to 0. */
    method ClearData()
      requires Valid()
      modifies this
      ensures Valid()
      ensures dataPoints == [] && lastSampleTime == old(lastSampleTime)
      ensures currentSpeed == 0.0 && currentKineticEnergy == 0.0
      ensures currentPotentialEnergy == 0.0 && currentTotalEnergy == 0.0
    {
      dataPoints := [];
      collected := [];
      currentSpeed := 0.0;
      currentKineticEnergy := 0.0;
      currentPotentialEnergy := 0.0;
      currentTotalEnergy := 0.0;
    }

    /** Points in the buffer are at least one sample interval apart, and their energies add up. */
    lemma BufferSpaced()
      requires Valid()
      ensures Spaced(dataPoints, sampleInterval) && EnergiesAdd(dataPoints)
      ensures |dataPoints| <= Capacity(maxDataPoints)
    {
      SuffixKeepsSpacing(collected, |collected| - |dataPoints|, sampleInterval);
    }

    method GetVelocityData() returns (values: seq<real>)
      ensures |values| == |dataPoints|
      ensures forall i :: 0 <= i < |dataPoints| ==> values[i] == dataPoints[i].speed
    {
      values := Column(dataPoints, (p: DataPoint) => p.speed);
    }

    /** GetTimeData: each point's time relative to the first one. */
    method GetTimeData() returns (values: seq<real>)
      ensures |values| == |dataPoints|
      ensures forall i :: 0 <= i < |dataPoints| ==> values[i] == dataPoints[i].time - dataPoints[0].time
      ensures |values| > 0 ==> values[0] == 0.0
    {
      var startTime := if |dataPoints| > 0 then dataPoints[0].time else 0.0;
      values := Column(dataPoints, (p: DataPoint) => p.time - startTime);
    }

    method GetKineticEnergyData() returns (values: seq<real>)
      ensures |values| == |dataPoints|
      ensures forall i :: 0 <= i < |dataPoints| ==> values[i] == dataPoints[i].kineticEnergy
    {
      values := Column(dataPoints, (p: DataPoint) => p.kineticEnergy);
    }

    method GetPotentialEnergyData() returns (values: seq<real>)
      ensures |values| == |dataPoints|
      ensures forall i :: 0 <= i < |dataPoints| ==> values[i] == dataPoints[i].potentialEnergy
    {
      values := Column(dataPoints, (p: DataPoint) => p.potentialEnergy);
    }

    method GetTotalEnergyData() returns (values: seq<real>)
      ensures |values| == |dataPoints|
      ensures forall i :: 0 <= i < |dataPoints| ==> values[i] == dataPoints[i].totalEnergy
    {
      values := Column(dataPoints, (p: DataPoint) => p.totalEnergy);
    }

    /**
     * CalculateTheoreticalVelocity: v0 + a·t at each point's time relative
     * to the first one, so the series starts at v0.
     */
    method CalculateTheoreticalVelocity(acceleration: real, initialVelocity: real, now: real) returns (values: seq<real>)
      ensures |values| == |dataPoints|
      ensures forall i :: 0 <= i < |dataPoints| ==>
                values[i] == initialVelocity + acceleration * (dataPoints[i].time - dataPoints[0].time)
      ensures |values| > 0 ==> values[0] == initialVelocity
    {
      var startTime := if |dataPoints| > 0 then dataPoints[0].time else now;
      values := Column(dataPoints, (p: DataPoint) => initialVelocity + acceleration * (p.time - startTime));
    }

    /** GetDataInRange: in buffer order, the points whose time after the first point lies in [startTime, endTime]. */
    method GetDataInRange(startTime: real, endTime: real) returns (rangeData: seq<DataPoint>)
      ensures |dataPoints| > 0 ==> rangeData == PointsInRange(dataPoints, dataPoints[0].time, startTime, endTime)
      ensures |dataPoints| == 0 ==> rangeData == []
    {
      rangeData := [];
      var firstTime := if |dataPoints| > 0 then dataPoints[0].time else 0.0;
      for k := 0 to |dataPoints|
        invariant rangeData == PointsInRange(dataPoints[..k], firstTime, startTime, endTime)
      {
        var point := dataPoints[k];
        assert dataPoints[..k + 1][..k] == dataPoints[..k];
        var relativeTime := point.time - firstTime;
        if relativeTime >= startTime && relativeTime <= endTime {
          rangeData := rangeData + [point];
        }
      }
      assert dataPoints[..|dataPoints|] == dataPoints;
    }

    /** GetAverageSpeed. */
    method GetAverageSpeed() returns (r: real)
      ensures r == Mean(Speeds(dataPoints))
    {
      if |dataPoints| == 0 {
        return 0.0;
      }
      var totalSpeed := 0.0;
      for k := 0 to |dataPoints|
        invariant totalSpeed == Sum(Speeds(dataPoints[..k]))
      {
        assert Speeds(dataPoints[..k + 1])[..k] == Speeds(dataPoints[..k]);
        totalSpeed := totalSpeed + dataPoints[k].speed;
      }
      assert dataPoints[..|dataPoints|] == dataPoints;
      r := totalSpeed / |dataPoints| as real;
    }

    /** GetMaxSpeed: the running maximum starts at 0, so the result is max(0, largest speed). */
    method GetMaxSpeed() returns (r: real)
      ensures |dataPoints| == 0 ==> r == 0.0
      ensures r >= 0.0 && forall i :: 0 <= i < |dataPoints| ==> dataPoints[i].speed <= r
      ensures r == 0.0 || exists i :: 0 <= i < |dataPoints| && dataPoints[i].speed == r
    {
      if |dataPoints| == 0 {
        return 0.0;
      }
      r := 0.0;
      for k := 0 to |dataPoints|
        invariant r >= 0.0 && forall i :: 0 <= i < k ==> dataPoints[i].speed <= r
        invariant r == 0.0 || exists i :: 0 <= i < k && dataPoints[i].speed == r
      {
        if dataPoints[k].speed > r {
          r := dataPoints[k].speed;
        }
      }
    }

    /** GetMinSpeed: the running minimum starts at `float.MaxValue`; any speed not above that is the true minimum. */
    method GetMinSpeed() returns (r: real)
      ensures |dataPoints| == 0 ==> r == 0.0
      ensures r <= FloatMax && forall i :: 0 <= i < |dataPoints| ==> r <= dataPoints[i].speed
      ensures (exists i :: 0 <= i < |dataPoints| && dataPoints[i].speed <= FloatMax) ==>
                exists i :: 0 <= i < |dataPoints| && dataPoints[i].speed == r
    {
      if |dataPoints| == 0 {
        return 0.0;
      }
      r := FloatMax;
      for k := 0 to |dataPoints|
        invariant r <= FloatMax && forall i :: 0 <= i < k ==> r <= dataPoints[i].speed
        invariant r == FloatMax || exists i :: 0 <= i < k && dataPoints[i].speed == r
        invariant (exists i :: 0 <= i < k && dataPoints[i].speed <= FloatMax) ==>
                    exists i :: 0 <= i < k && dataPoints[i].speed == r
      {
        if dataPoints[k].speed < r {
          r := dataPoints[k].speed;
        }
      }
    }
  }
}
