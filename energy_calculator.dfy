// The physics EnergyCalculator: kinetic, gravitational and elastic energy of
// a target object each frame, a history of at most 500 entries recorded every
// tenth of a second, and the averages and energy deviation of that history.
// Unity's clock, the target's speed and mass and the transform's height and
// distance from the origin are parameters.

module Energy {
  import opened Common

  /** `_energyHistory` never holds more than this many entries. */
  const MaxHistory: nat := 500

  /** An `EnergyData` entry. */
  datatype EnergyData = EnergyData(kineticEnergy: real, potentialEnergy: real, elasticPotentialEnergy: real,
                                   totalEnergy: real, time: real)

  /** What the target object reports: its speed and its mass. */
  datatype Body = Body(speed: real, mass: real)

  /** `0.5 * k * d * d` with `d = |length - restLength|`. */
  function ElasticEnergy(stiffness: real, restLength: real, length: real): (r: real)
    ensures stiffness >= 0.0 ==> r >= 0.0
    ensures length == restLength ==> r == 0.0
  {
    var displacement := if length - restLength < 0.0 then restLength - length else length - restLength;
    var square := displacement * displacement;
    assert square >= 0.0;
    assert 0.5 * stiffness * displacement * displacement == 0.5 * stiffness * square;
    0.5 * stiffness * square
  }

  /** Stretching and compressing a spring by the same amount store the same energy. */
  lemma ElasticEnergySymmetric(stiffness: real, restLength: real, x: real)
    ensures ElasticEnergy(stiffness, restLength, restLength + x) == ElasticEnergy(stiffness, restLength, restLength - x)
  {
  }

  /** Every entry's total is its kinetic, gravitational and elastic energy together. */
  predicate EnergiesAdd(history: seq<EnergyData>)
  {
    forall i :: 0 <= i < |history| ==>
      history[i].totalEnergy == history[i].kineticEnergy + history[i].potentialEnergy + history[i].elasticPotentialEnergy
  }

  function Totals(history: seq<EnergyData>): (r: seq<real>)
    ensures |r| == |history| && forall i :: 0 <= i < |history| ==> r[i] == history[i].totalEnergy
  {
    seq(|history|, i requires 0 <= i < |history| => history[i].totalEnergy)
  }

  function Kinetics(history: seq<EnergyData>): (r: seq<real>)
    ensures |r| == |history| && forall i :: 0 <= i < |history| ==> r[i] == history[i].kineticEnergy
  {
    seq(|history|, i requires 0 <= i < |history| => history[i].kineticEnergy)
  }

  function Potentials(history: seq<EnergyData>): (r: seq<real>)
    ensures |r| == |history| && forall i :: 0 <= i < |history| ==> r[i] == history[i].potentialEnergy
  {
    seq(|history|, i requires 0 <= i < |history| => history[i].potentialEnergy)
  }

  function Elastics(history: seq<EnergyData>): (r: seq<real>)
    ensures |r| == |history| && forall i :: 0 <= i < |history| ==> r[i] == history[i].elasticPotentialEnergy
  {
    seq(|history|, i requires 0 <= i < |history| => history[i].elasticPotentialEnergy)
  }

  /** Sums add up column by column: the summed totals are the summed parts. */
  lemma {:induction false} SumTotals(history: seq<EnergyData>)
    requires EnergiesAdd(history)
    ensures Sum(Totals(history)) == Sum(Kinetics(history)) + Sum(Potentials(history)) + Sum(Elastics(history))
  {
    if |history| > 0 {
      var init := history[..|history| - 1];
      assert Totals(history)[..|history| - 1] == Totals(init);
      assert Kinetics(history)[..|history| - 1] == Kinetics(init);
      assert Potentials(history)[..|history| - 1] == Potentials(init);
      assert Elastics(history)[..|history| - 1] == Elastics(init);
      SumTotals(init);
    }
  }

  lemma DivideSum(a: real, b: real, n: real)
    requires n > 0.0
    ensures (a + b) / n == a / n + b / n
  {
    var x, y := a / n, b / n;
    assert x * n == a && y * n == b;
    assert (x + y) * n == a + b;
  }

  /** The average total energy is the sum of the average kinetic, gravitational and elastic energies. */
  lemma MeanTotals(history: seq<EnergyData>)
    requires EnergiesAdd(history)
    ensures Mean(Totals(history)) == Mean(Kinetics(history)) + Mean(Potentials(history)) + Mean(Elastics(history))
  {
    SumTotals(history);
    if |history| > 0 {
      var n := |history| as real;
      var k, p, e := Sum(Kinetics(history)), Sum(Potentials(history)), Sum(Elastics(history));
      DivideSum(k + p, e, n);
      DivideSum(k, p, n);
    }
  }

  /** The largest |total - first| over the entries, starting from 0. */
  function MaxDeviation(totals: seq<real>, first: real): (r: real)
    ensures r >= 0.0
    ensures forall i :: 0 <= i < |totals| ==> -r <= totals[i] - first <= r
    ensures r == 0.0 || exists i :: 0 <= i < |totals| && (totals[i] - first == r || first - totals[i] == r)
  {
    if |totals| == 0 then 0.0
    else
      var init := totals[..|totals| - 1];
      var m := MaxDeviation(init, first);
      var last := totals[|totals| - 1];
      var d := if last - first < 0.0 then first - last else last - first;
      assert forall i :: 0 <= i < |init| ==> init[i] == totals[i];
      if d > m then d else m
  }

  /** CalculateEnergyDeviation: 0 for fewer than two entries, otherwise the largest drift of the total from the first entry's. */
  function EnergyDeviation(history: seq<EnergyData>): real
  {
    if |history| < 2 then 0.0 else MaxDeviation(Totals(history), history[0].totalEnergy)
  }

  /** The deviation is 0 exactly when mechanical energy is conserved: every total equals the first. */
  lemma DeviationZeroIffConserved(history: seq<EnergyData>)
    ensures EnergyDeviation(history) >= 0.0
    ensures EnergyDeviation(history) == 0.0 <==>
              forall i :: 0 <= i < |history| ==> history[i].totalEnergy == history[0].totalEnergy
  {
    if |history| >= 2 {
      var totals := Totals(history);
      var first := history[0].totalEnergy;
      var r := MaxDeviation(totals, first);
      if r == 0.0 {
        forall i | 0 <= i < |history|
          ensures history[i].totalEnergy == first
        {
          assert -r <= totals[i] - first <= r;
        }
      } else {
        var i :| 0 <= i < |totals| && (totals[i] - first == r || first - totals[i] == r);
        assert history[i].totalEnergy != first;
      }
    }
  }

  /** An `EnergyStatistics`; the default object has every field 0. */
  datatype EnergyStatistics = EnergyStatistics(averageTotalEnergy: real, averageKineticEnergy: real,
                                               averagePotentialEnergy: real, energyDeviation: real)

  /** What GetStatistics returns. */
  function StatisticsOf(history: seq<EnergyData>): (r: EnergyStatistics)
    ensures |history| == 0 ==> r == EnergyStatistics(0.0, 0.0, 0.0, 0.0)
    ensures r.energyDeviation >= 0.0
  {
    DeviationZeroIffConserved(history);
    if |history| == 0 then EnergyStatistics(0.0, 0.0, 0.0, 0.0)
    else EnergyStatistics(Mean(Totals(history)), Mean(Kinetics(history)), Mean(Potentials(history)),
                          EnergyDeviation(history))
  }

  /** When every recorded kinetic energy is non-negative, as it is for a non-negative mass, so is their average. */
  lemma StatisticsKineticNonNegative(history: seq<EnergyData>)
    requires |history| > 0 && forall i :: 0 <= i < |history| ==> history[i].kineticEnergy >= 0.0
    ensures StatisticsOf(history).averageKineticEnergy >= 0.0
  {
    var ks := Kinetics(history);
    SumAtLeast(ks, 0.0);
  }

  class EnergyCalculator {
    var gravity: real
    var referenceHeight: real
    var hasSpring: bool
    var springStiffness: real
    var springRestLength: real

    var kineticEnergy: real
    var potentialEnergy: real
    var elasticPotentialEnergy: real
    var totalEnergy: real

    var energyHistory: seq<EnergyData>
    var lastUpdateTime: real

    /** The current total is the sum of the current parts, and the history is bounded and consistent. */
    ghost predicate Valid()
      reads this
    {
      totalEnergy == kineticEnergy + potentialEnergy + elasticPotentialEnergy
      && |energyHistory| <= MaxHistory && EnergiesAdd(energyHistory)
    }

    /** The component as Start leaves it at time `now`, with the inspector's defaults. */
    constructor (now: real)
      ensures Valid()
      ensures gravity == 9.81 && referenceHeight == 0.0 && !hasSpring
      ensures springStiffness == 10.0 && springRestLength == 1.0
      ensures energyHistory == [] && lastUpdateTime == now
      ensures kineticEnergy == 0.0 && potentialEnergy == 0.0 && elasticPotentialEnergy == 0.0 && totalEnergy == 0.0
    {
      gravity := 9.81;
      referenceHeight := 0.0;
      hasSpring := false;
      springStiffness := 10.0;
      springRestLength := 1.0;
      kineticEnergy, potentialEnergy, elasticPotentialEnergy, totalEnergy := 0.0, 0.0, 0.0, 0.0;
      energyHistory := [];
      lastUpdateTime := now;
    }

    /**
     * Update at time `now`: `target` is None without a target object; `y` is
     * the transform's height and `distance` its distance from the origin.
     * The energies are recomputed every frame and recorded once more than
     * 0.1 s has passed since the last record.
     */
    method Update(now: real, target: Option<Body>, y: real, distance: real)
      requires Valid()
      modifies this
      ensures Valid()
      ensures target.None? ==> unchanged(this)
      ensures gravity == old(gravity) && referenceHeight == old(referenceHeight) && hasSpring == old(hasSpring)
      ensures springStiffness == old(springStiffness) && springRestLength == old(springRestLength)
      ensures target.Some? && now - old(lastUpdateTime) > 0.1 ==>
                lastUpdateTime == now && energyHistory == LastN(old(energyHistory) + [Record(now)], MaxHistory)
      ensures target.Some? && now - old(lastUpdateTime) <= 0.1 ==>
                lastUpdateTime == old(lastUpdateTime) && energyHistory == old(energyHistory)
      ensures target.Some? ==>
                kineticEnergy == 0.5 * target.value.mass * target.value.speed * target.value.speed
                && potentialEnergy == target.value.mass * gravity * (y - referenceHeight)
                && elasticPotentialEnergy == (if hasSpring then ElasticEnergy(springStiffness, springRestLength, distance) else 0.0)
                && totalEnergy == kineticEnergy + potentialEnergy + elasticPotentialEnergy
    {
      if target.None? {
        return;
      }
      CalculateEnergies(target, y, distance);
      if now - lastUpdateTime > 0.1 {
        RecordEnergyData(now);
        lastUpdateTime := now;
      }
    }

    /** The entry RecordEnergyData makes from the current energies. */
    function Record(now: real): (d: EnergyData)
      reads this
      ensures d.time == now && d.totalEnergy == totalEnergy
      ensures d.kineticEnergy == kineticEnergy && d.potentialEnergy == potentialEnergy
      ensures d.elasticPotentialEnergy == elasticPotentialEnergy
    {
      EnergyData(kineticEnergy, potentialEnergy, elasticPotentialEnergy, totalEnergy, now)
    }

    /** CalculateEnergies: E_k = m·v²/2, E_p = m·g·(y − reference), elastic only with a spring, and their sum. */
    method CalculateEnergies(target: Option<Body>, y: real, distance: real)
      modifies this`kineticEnergy, this`potentialEnergy, this`elasticPotentialEnergy, this`totalEnergy
      ensures totalEnergy == kineticEnergy + potentialEnergy + elasticPotentialEnergy
      ensures target.None? ==> kineticEnergy == 0.0 && potentialEnergy == 0.0 && elasticPotentialEnergy == 0.0
      ensures target.Some? ==>
                kineticEnergy == 0.5 * target.value.mass * target.value.speed * target.value.speed
                && potentialEnergy == target.value.mass * gravity * (y - referenceHeight)
                && elasticPotentialEnergy == (if hasSpring then ElasticEnergy(springStiffness, springRestLength, distance) else 0.0)
    {
      if target.None? {
        ResetEnergies();
        return;
      }
      var speed := target.value.speed;
      kineticEnergy := 0.5 * target.value.mass * speed * speed;
      var height := y - referenceHeight;
      potentialEnergy := target.value.mass * gravity * height;
      if hasSpring {
        elasticPotentialEnergy := ElasticEnergy(springStiffness, springRestLength, distance);
      } else {
        elasticPotentialEnergy := 0.0;
      }
      totalEnergy := kineticEnergy + potentialEnergy + elasticPotentialEnergy;
    }

    /** RecordEnergyData: the current energies are appended and the oldest entry dropped past 500. */
    method RecordEnergyData(now: real)
      requires Valid()
      modifies this`energyHistory
      ensures Valid()
      ensures energyHistory == LastN(old(energyHistory) + [Record(now)], MaxHistory)
    {
      var energyData := Record(now);
      energyHistory := energyHistory + [energyData];
      if |energyHistory| > MaxHistory {
        energyHistory := energyHistory[1..];
      }
    }

    /** ResetEnergies: all four energies 0. */
    method ResetEnergies()
      modifies this`kineticEnergy, this`potentialEnergy, this`elasticPotentialEnergy, this`totalEnergy
      ensures kineticEnergy == 0.0 && potentialEnergy == 0.0 && elasticPotentialEnergy == 0.0 && totalEnergy == 0.0
    {
      kineticEnergy := 0.0;
      potentialEnergy := 0.0;
      elasticPotentialEnergy := 0.0;
      totalEnergy := 0.0;
    }

    method GetKineticEnergyHistory() returns (values: seq<real>)
      ensures values == Kinetics(energyHistory)
    {
      values := Column(energyHistory, (d: EnergyData) => d.kineticEnergy);
    }

    method GetPotentialEnergyHistory() returns (values: seq<real>)
      ensures values == Potentials(energyHistory)
    {
      values := Column(energyHistory, (d: EnergyData) => d.potentialEnergy);
    }

    method GetTotalEnergyHistory() returns (values: seq<real>)
      ensures values == Totals(energyHistory)
    {
      values := Column(energyHistory, (d: EnergyData) => d.totalEnergy);
    }

    /** GetTimeHistory: one entry per record, its time after the first record. */
    method GetTimeHistory() returns (values: seq<real>)
      ensures |values| == |energyHistory|
      ensures forall i :: 0 <= i < |energyHistory| ==> values[i] == energyHistory[i].time - energyHistory[0].time
      ensures |values| > 0 ==> values[0] == 0.0
    {
      var startTime := if |energyHistory| > 0 then energyHistory[0].time else 0.0;
      values := Column(energyHistory, (d: EnergyData) => d.time - startTime);
    }

    /** ClearHistory. */
    method ClearHistory()
      requires Valid()
      modifies this`energyHistory
      ensures energyHistory == [] && Valid()
    {
      energyHistory := [];
    }

    method SetGravity(gravity: real)
      modifies this`gravity
      ensures this.gravity == gravity
    {
      this.gravity := gravity;
    }

    method SetReferenceHeight(height: real)
      modifies this`referenceHeight
      ensures referenceHeight == height
    {
      referenceHeight := height;
    }

    method SetSpringEnabled(enabled: bool)
      modifies this`hasSpring
      ensures hasSpring == enabled
    {
      hasSpring := enabled;
    }

    method SetSpringParameters(stiffness: real, restLength: real)
      modifies this`springStiffness, this`springRestLength
      ensures springStiffness == stiffness && springRestLength == restLength
    {
      springStiffness := stiffness;
      springRestLength := restLength;
    }

    /** GetStatistics: the three averages over the history and the energy deviation, or the default object for an empty history. */
    method GetStatistics() returns (r: EnergyStatistics)
      ensures r == StatisticsOf(energyHistory)
    {
      if |energyHistory| == 0 {
        return EnergyStatistics(0.0, 0.0, 0.0, 0.0);
      }
      var totalEnergySum, kineticSum, potentialSum := 0.0, 0.0, 0.0;
      for k := 0 to |energyHistory|
        invariant totalEnergySum == Sum(Totals(energyHistory[..k]))
        invariant kineticSum == Sum(Kinetics(energyHistory[..k]))
        invariant potentialSum == Sum(Potentials(energyHistory[..k]))
      {
        var data := energyHistory[k];
        SumsStep(energyHistory, k);
        totalEnergySum := totalEnergySum + data.totalEnergy;
        kineticSum := kineticSum + data.kineticEnergy;
        potentialSum := potentialSum + data.potentialEnergy;
      }
      assert energyHistory[..|energyHistory|] == energyHistory;
      var n := |energyHistory| as real;
      var deviation := CalculateEnergyDeviation();
      r := EnergyStatistics(totalEnergySum / n, kineticSum / n, potentialSum / n, deviation);
    }

    /** CalculateEnergyDeviation. */
    method CalculateEnergyDeviation() returns (maxDeviation: real)
      ensures maxDeviation == EnergyDeviation(energyHistory)
    {
      if |energyHistory| < 2 {
        return 0.0;
      }
      var firstEnergy := energyHistory[0].totalEnergy;
      maxDeviation := 0.0;
      for k := 0 to |energyHistory|
        invariant maxDeviation == MaxDeviation(Totals(energyHistory[..k]), firstEnergy)
      {
        var data := energyHistory[k];
        assert Totals(energyHistory[..k + 1])[..k] == Totals(energyHistory[..k]);
        var deviation := if data.totalEnergy - firstEnergy < 0.0 then firstEnergy - data.totalEnergy else data.totalEnergy - firstEnergy;
        if deviation > maxDeviation {
          maxDeviation := deviation;
        }
      }
      assert energyHistory[..|energyHistory|] == energyHistory;
    }
  }

  /** The running sums of GetStatistics, one entry further. */
  lemma SumsStep(history: seq<EnergyData>, k: nat)
    requires k < |history|
    ensures Sum(Totals(history[..k + 1])) == Sum(Totals(history[..k])) + history[k].totalEnergy
    ensures Sum(Kinetics(history[..k + 1])) == Sum(Kinetics(history[..k])) + history[k].kineticEnergy
    ensures Sum(Potentials(history[..k + 1])) == Sum(Potentials(history[..k])) + history[k].potentialEnergy
  {
    assert Totals(history[..k + 1])[..k] == Totals(history[..k]);
    assert Kinetics(history[..k + 1])[..k] == Kinetics(history[..k]);
    assert Potentials(history[..k + 1])[..k] == Potentials(history[..k]);
  }
}
