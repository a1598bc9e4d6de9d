// The belt transmission: a driver wheel turning a set of driven wheels held in
// two parallel arrays (rigid bodies and radii), with per-wheel velocity arrays
// reallocated whenever a wheel is added or removed. Rigid bodies are
// identified by number (null is None); the angular velocity the transmission
// gives each driven body, about the up axis, is kept in the map `spin`.

module Transmission {
  import opened Common

  const MinRatio: real := 0.1
  const MaxRatio: real := 10.0
  /** The radius given to each driven wheel when the configured radii do not match the wheels. */
  const DefaultRadius: real := 0.5

  datatype TransmissionStatistics = TransmissionStatistics(
    driverRadius: real,
    driverAngularVelocity: real,
    driverLinearVelocity: real,
    transmissionRatio: real,
    drivenWheelCount: nat,
    averageDrivenAngularVelocity: real)

  /** ω_driven = ω_driver · (r_driver / r_driven) · ratio. */
  function DrivenAngular(driverAngular: real, driverRadius: real, radius: real, ratio: real): real
    requires radius != 0.0
  {
    driverAngular * (driverRadius / radius) * ratio
  }

  /** A driven wheel's rim moves at ω_driver · r_driver · ratio, whatever its own radius. */
  lemma LinearVelocityIndependentOfRadius(driverAngular: real, driverRadius: real, radius: real, ratio: real)
    requires radius != 0.0
    ensures DrivenAngular(driverAngular, driverRadius, radius, ratio) * radius == driverAngular * driverRadius * ratio
  {
    var q := driverRadius / radius;
    assert q * radius == driverRadius;
    calc {
      DrivenAngular(driverAngular, driverRadius, radius, ratio) * radius;
      (driverAngular * q * ratio) * radius;
      (driverAngular * ratio) * (q * radius);
      driverAngular * driverRadius * ratio;
    }
  }

  /** The configured radii, or one default radius per wheel when the counts differ. */
  function InitialRadii(wheelCount: nat, configured: seq<real>): (r: seq<real>)
    ensures |r| == wheelCount
    ensures |configured| == wheelCount ==> r == configured
    ensures |configured| != wheelCount ==> forall i :: 0 <= i < wheelCount ==> r[i] == DefaultRadius
  {
    if |configured| == wheelCount then configured else seq(wheelCount, _ => DefaultRadius)
  }

  predicate RadiiUsable(wheels: seq<Option<nat>>, radii: seq<real>)
  {
    |wheels| == |radii| && forall i :: 0 <= i < |wheels| && wheels[i].Some? ==> radii[i] != 0.0
  }

  /** The spins after the transmission drives each non-null wheel in array order: a body listed twice keeps its last value. */
  function Spun(spin: map<nat, real>, wheels: seq<Option<nat>>, radii: seq<real>,
                driverAngular: real, driverRadius: real, ratio: real): map<nat, real>
    requires RadiiUsable(wheels, radii)
    decreases |wheels|
  {
    if |wheels| == 0 then spin
    else
      var n := |wheels| - 1;
      var before := Spun(spin, wheels[..n], radii[..n], driverAngular, driverRadius, ratio);
      if wheels[n].Some? then before[wheels[n].value := DrivenAngular(driverAngular, driverRadius, radii[n], ratio)]
      else before
  }

  /**
   * Each driven body ends with the angular velocity computed from the radius
   * at its last slot; bodies not in the array keep theirs.
   */
  lemma {:induction false} SpunMeaning(spin: map<nat, real>, wheels: seq<Option<nat>>, radii: seq<real>,
                                       driverAngular: real, driverRadius: real, ratio: real, i: nat)
    requires RadiiUsable(wheels, radii)
    requires i < |wheels| && wheels[i].Some?
    requires forall j :: i < j < |wheels| ==> wheels[j] != wheels[i]
    ensures wheels[i].value in Spun(spin, wheels, radii, driverAngular, driverRadius, ratio)
    ensures Spun(spin, wheels, radii, driverAngular, driverRadius, ratio)[wheels[i].value]
            == DrivenAngular(driverAngular, driverRadius, radii[i], ratio)
    decreases |wheels|
  {
    var n := |wheels| - 1;
    if i < n {
      assert RadiiUsable(wheels[..n], radii[..n]);
      SpunMeaning(spin, wheels[..n], radii[..n], driverAngular, driverRadius, ratio, i);
    }
  }

  lemma {:induction false} SpunElsewhere(spin: map<nat, real>, wheels: seq<Option<nat>>, radii: seq<real>,
                                         driverAngular: real, driverRadius: real, ratio: real, w: nat)
    requires RadiiUsable(wheels, radii) && Some(w) !in wheels
    ensures w in Spun(spin, wheels, radii, driverAngular, driverRadius, ratio) <==> w in spin
    ensures w in spin ==> Spun(spin, wheels, radii, driverAngular, driverRadius, ratio)[w] == spin[w]
    decreases |wheels|
  {
    if |wheels| > 0 {
      var n := |wheels| - 1;
      assert RadiiUsable(wheels[..n], radii[..n]);
      assert Some(w) !in wheels[..n] by {
        forall j | 0 <= j < n
          ensures wheels[..n][j] != Some(w)
        {
          assert wheels[..n][j] == wheels[j];
        }
      }
      SpunElsewhere(spin, wheels[..n], radii[..n], driverAngular, driverRadius, ratio, w);
    }
  }

  /** The spins after every non-null wheel in the array is stopped. */
  function Stopped(spin: map<nat, real>, wheels: seq<Option<nat>>): map<nat, real>
    decreases |wheels|
  {
    if |wheels| == 0 then spin
    else
      var n := |wheels| - 1;
      var before := Stopped(spin, wheels[..n]);
      if wheels[n].Some? then before[wheels[n].value := 0.0] else before
  }

  /** Stopping brings every listed body to rest and leaves all other bodies alone. */
  lemma {:induction false} StoppedMeaning(spin: map<nat, real>, wheels: seq<Option<nat>>)
    ensures forall i :: 0 <= i < |wheels| && wheels[i].Some? ==>
              wheels[i].value in Stopped(spin, wheels) && Stopped(spin, wheels)[wheels[i].value] == 0.0
    ensures forall w :: Some(w) !in wheels ==>
              (w in Stopped(spin, wheels) <==> w in spin) && (w in spin ==> Stopped(spin, wheels)[w] == spin[w])
    decreases |wheels|
  {
    if |wheels| > 0 {
      var n := |wheels| - 1;
      StoppedMeaning(spin, wheels[..n]);
      forall w | Some(w) !in wheels
        ensures Some(w) !in wheels[..n]
      {
        assert forall j :: 0 <= j < n ==> wheels[..n][j] == wheels[j];
      }
      forall i | 0 <= i < |wheels| && wheels[i].Some?
        ensures wheels[i].value in Stopped(spin, wheels) && Stopped(spin, wheels)[wheels[i].value] == 0.0
      {
        if i < n {
          assert wheels[..n][i] == wheels[i];
        }
      }
    }
  }

  /** The property setter and SetTransmissionRatio store the same ratio exactly when it lies in [0.1, 10]. */
  lemma RatioSettersAgree(ratio: real)
    ensures Clamp(ratio, MinRatio, MaxRatio) == ratio <==> MinRatio <= ratio <= MaxRatio
    ensures MinRatio <= Clamp(ratio, MinRatio, MaxRatio) <= MaxRatio
  {
  }

  /** A fresh array holding `s`: how the add and remove operations rebuild the wheel arrays. */
  method ArrayOf<T(0)>(s: seq<T>) returns (a: array<T>)
    ensures fresh(a) && a[..] == s
  {
    a := new T[|s|](i requires 0 <= i < |s| => s[i]);
  }

  class BeltTransmission {
    var isEnabled: bool
    var transmissionRatio: real
    const hasDriver: bool
    const driverRadius: real
    const useDriverAsMotor: bool
    /** Set when the driver is used as the motor. */
    var driverKinematic: bool
    var driverAngularVelocity: real
    var driverLinearVelocity: real
    var drivenRigidbodies: array<Option<nat>>
    var drivenRadii: array<real>
    var drivenAngularVelocities: array<real>
    var drivenLinearVelocities: array<real>
    /** The angular velocity, about the up axis, last given to each driven body here. */
    var spin: map<nat, real>

    /**
     * The parallel arrays have one entry per driven wheel, and the driven
     * angular velocities are never written after allocation, so they stay 0.
     */
    predicate Valid()
      reads this, drivenRigidbodies, drivenRadii, drivenAngularVelocities, drivenLinearVelocities
    {
      && drivenRadii.Length == drivenRigidbodies.Length
      && drivenAngularVelocities.Length == drivenRigidbodies.Length
      && drivenLinearVelocities.Length == drivenRigidbodies.Length
      && drivenAngularVelocities != drivenLinearVelocities
      && drivenRadii != drivenAngularVelocities && drivenRadii != drivenLinearVelocities
      && forall i :: 0 <= i < drivenAngularVelocities.Length ==> drivenAngularVelocities[i] == 0.0
    }

    /**
     * Awake and Start: with no configured wheels, the tagged bodies found in
     * the scene are used; radii are reset to 0.5 each unless there is exactly
     * one per wheel; the velocity arrays are allocated to the wheel count.
     */
    constructor (driver: bool, radius: real, motor: bool, ratio: real, angular: real,
                 configuredWheels: seq<Option<nat>>, sceneWheels: seq<nat>, configuredRadii: seq<real>)
      ensures Valid() && isEnabled && spin == map[]
      ensures hasDriver == driver && driverRadius == radius && useDriverAsMotor == motor
      ensures transmissionRatio == ratio && driverAngularVelocity == angular && driverLinearVelocity == 0.0
      ensures driverKinematic == (driver && motor)
      ensures |configuredWheels| > 0 ==> drivenRigidbodies[..] == configuredWheels
      ensures |configuredWheels| == 0 ==> drivenRigidbodies[..] == seq(|sceneWheels|, i requires 0 <= i < |sceneWheels| => Some(sceneWheels[i]))
      ensures drivenRadii[..] == InitialRadii(drivenRigidbodies.Length, configuredRadii)
      ensures forall i :: 0 <= i < drivenLinearVelocities.Length ==> drivenLinearVelocities[i] == 0.0
    {
      var wheels: array<Option<nat>>;
      if |configuredWheels| > 0 {
        wheels := new Option<nat>[|configuredWheels|](i requires 0 <= i < |configuredWheels| => configuredWheels[i]);
        assert wheels[..] == configuredWheels;
      } else {
        wheels := new Option<nat>[|sceneWheels|](i requires 0 <= i < |sceneWheels| => Some(sceneWheels[i]));
        assert wheels[..] == seq(|sceneWheels|, i requires 0 <= i < |sceneWheels| => Some(sceneWheels[i]));
      }
      var radii: array<real>;
      if |configuredRadii| != wheels.Length {
        radii := new real[wheels.Length];
        for i := 0 to radii.Length
          invariant forall j :: 0 <= j < i ==> radii[j] == DefaultRadius
          modifies radii
        {
          radii[i] := DefaultRadius;
        }
      } else {
        radii := new real[wheels.Length](i requires 0 <= i < |configuredRadii| => configuredRadii[i]);
      }
      isEnabled := true;
      transmissionRatio := ratio;
      hasDriver := driver;
      driverRadius := radius;
      useDriverAsMotor := motor;
      driverKinematic := driver && motor;
      driverAngularVelocity := angular;
      driverLinearVelocity := 0.0;
      drivenRigidbodies := wheels;
      drivenRadii := radii;
      drivenAngularVelocities := new real[wheels.Length](_ => 0.0);
      drivenLinearVelocities := new real[wheels.Length](_ => 0.0);
      spin := map[];
    }

    /** The TransmissionRatio property setter clamps to [0.1, 10]. */
    method SetTransmissionRatioProperty(value: real)
      modifies this`transmissionRatio
      ensures transmissionRatio == Clamp(value, MinRatio, MaxRatio)
      ensures MinRatio <= transmissionRatio <= MaxRatio
    {
      transmissionRatio := Clamp(value, MinRatio, MaxRatio);
    }

    /** SetTransmissionRatio stores the ratio as given, unclamped. */
    method SetTransmissionRatio(ratio: real)
      modifies this`transmissionRatio
      ensures transmissionRatio == ratio
    {
      transmissionRatio := ratio;
    }

    method SetDriverAngularVelocity(angularVelocity: real)
      modifies this`driverAngularVelocity
      ensures driverAngularVelocity == angularVelocity
    {
      driverAngularVelocity := angularVelocity;
    }

    /** The angular velocity the driver turns with: its own setting as a motor, else its measured spin. */
    function DriverAngular(measuredSpin: real): real
      reads this
    {
      if useDriverAsMotor then driverAngularVelocity else measuredSpin
    }

    /** FixedUpdate: an enabled transmission drives the wheels; `measuredSpin` is the driver body's spin magnitude. */
    method FixedUpdate(measuredSpin: real)
      requires Valid() && RadiiUsable(drivenRigidbodies[..], drivenRadii[..])
      modifies this`driverLinearVelocity, this`spin, drivenLinearVelocities
      ensures Valid()
      ensures !isEnabled || !hasDriver || drivenRigidbodies.Length == 0 ==>
                driverLinearVelocity == old(driverLinearVelocity) && spin == old(spin)
                && drivenLinearVelocities[..] == old(drivenLinearVelocities[..])
      ensures isEnabled && hasDriver && drivenRigidbodies.Length > 0 ==>
                Driven(measuredSpin, old(spin))
      ensures forall i :: 0 <= i < drivenRigidbodies.Length && drivenRigidbodies[i].None? ==>
                drivenLinearVelocities[i] == old(drivenLinearVelocities[i])
    {
      if isEnabled {
        UpdateTransmission(measuredSpin);
      }
    }

    /** What one transmission step leaves behind, from the spins `before` it. */
    ghost predicate Driven(measuredSpin: real, before: map<nat, real>)
      reads this, drivenRigidbodies, drivenRadii, drivenLinearVelocities
      requires RadiiUsable(drivenRigidbodies[..], drivenRadii[..])
    {
      var a := DriverAngular(measuredSpin);
      && driverLinearVelocity == a * driverRadius
      && spin == Spun(before, drivenRigidbodies[..], drivenRadii[..], a, driverRadius, transmissionRatio)
      && drivenLinearVelocities.Length == drivenRigidbodies.Length
      && forall i :: 0 <= i < drivenRigidbodies.Length && drivenRigidbodies[i].Some? ==>
           drivenLinearVelocities[i] == a * driverRadius * transmissionRatio
    }

    /**
     * UpdateTransmission: nothing happens without a driver or driven wheels;
     * otherwise each non-null wheel is given its angular velocity and every
     * such wheel's linear velocity comes out the same.
     */
    method UpdateTransmission(measuredSpin: real)
      requires Valid() && RadiiUsable(drivenRigidbodies[..], drivenRadii[..])
      modifies this`driverLinearVelocity, this`spin, drivenLinearVelocities
      ensures Valid()
      ensures !hasDriver || drivenRigidbodies.Length == 0 ==>
                driverLinearVelocity == old(driverLinearVelocity) && spin == old(spin)
                && drivenLinearVelocities[..] == old(drivenLinearVelocities[..])
      ensures hasDriver && drivenRigidbodies.Length > 0 ==> Driven(measuredSpin, old(spin))
      ensures forall i :: 0 <= i < drivenRigidbodies.Length && drivenRigidbodies[i].None? ==>
                drivenLinearVelocities[i] == old(drivenLinearVelocities[i])
    {
      if !hasDriver || drivenRigidbodies.Length == 0 {
        return;
      }
      var a := DriverAngular(measuredSpin);
      driverLinearVelocity := a * driverRadius;
      var n := drivenRigidbodies.Length;
      for i := 0 to n
        invariant Valid()
        invariant spin == Spun(old(spin), drivenRigidbodies[..i], drivenRadii[..i], a, driverRadius, transmissionRatio)
        invariant forall j :: 0 <= j < i && drivenRigidbodies[j].Some? ==>
                    drivenLinearVelocities[j] == a * driverRadius * transmissionRatio
        invariant forall j :: 0 <= j < n && (i <= j || drivenRigidbodies[j].None?) ==>
                    drivenLinearVelocities[j] == old(drivenLinearVelocities[j])
        modifies this`spin, drivenLinearVelocities
      {
        assert drivenRigidbodies[..i + 1][..i] == drivenRigidbodies[..i];
        assert drivenRadii[..i + 1][..i] == drivenRadii[..i];
        if drivenRigidbodies[i].Some? {
          var drivenAngular := DrivenAngular(a, driverRadius, drivenRadii[i], transmissionRatio);
          spin := spin[drivenRigidbodies[i].value := drivenAngular];
          LinearVelocityIndependentOfRadius(a, driverRadius, drivenRadii[i], transmissionRatio);
          drivenLinearVelocities[i] := drivenAngular * drivenRadii[i];
        }
      }
      assert drivenRigidbodies[..n] == drivenRigidbodies[..];
      assert drivenRadii[..n] == drivenRadii[..];
    }

    /** The IsEnabled property setter. */
    method SetIsEnabled(value: bool)
      modifies this`isEnabled
      ensures isEnabled == value
    {
      isEnabled := value;
    }

    /** SetEnabled(false) also brings every non-null driven wheel to rest. */
    method SetEnabled(enabled: bool)
      modifies this`isEnabled, this`spin
      ensures isEnabled == enabled
      ensures enabled ==> spin == old(spin)
      ensures !enabled ==> spin == Stopped(old(spin), drivenRigidbodies[..])
      ensures !enabled ==> forall i :: 0 <= i < drivenRigidbodies.Length && drivenRigidbodies[i].Some? ==>
                drivenRigidbodies[i].value in spin && spin[drivenRigidbodies[i].value] == 0.0
    {
      isEnabled := enabled;
      if !enabled {
        for i := 0 to drivenRigidbodies.Length
          invariant spin == Stopped(old(spin), drivenRigidbodies[..i])
          modifies this`spin
        {
          assert drivenRigidbodies[..i + 1][..i] == drivenRigidbodies[..i];
          if drivenRigidbodies[i].Some? {
            spin := spin[drivenRigidbodies[i].value := 0.0];
          }
        }
        assert drivenRigidbodies[..drivenRigidbodies.Length] == drivenRigidbodies[..];
        StoppedMeaning(old(spin), drivenRigidbodies[..]);
      }
    }

    /**
     * AddDrivenRigidbody: both arrays grow by one with the new pair last and
     * the velocity arrays are reallocated. `named` is false for a null body,
     * whose name the closing log line then fails to read, after the update.
     */
    method AddDrivenRigidbody(rigidbody: Option<nat>, radius: real) returns (named: bool)
      requires Valid()
      modifies this`drivenRigidbodies, this`drivenRadii, this`drivenAngularVelocities, this`drivenLinearVelocities
      ensures Valid()
      ensures fresh(drivenRigidbodies) && fresh(drivenRadii) && fresh(drivenAngularVelocities) && fresh(drivenLinearVelocities)
      ensures drivenRigidbodies[..] == old(drivenRigidbodies[..]) + [rigidbody]
      ensures drivenRadii[..] == old(drivenRadii[..]) + [radius]
      ensures forall i :: 0 <= i < drivenLinearVelocities.Length ==> drivenLinearVelocities[i] == 0.0
      ensures named == rigidbody.Some?
    {
      var n := drivenRigidbodies.Length;
      drivenRigidbodies := ArrayOf(drivenRigidbodies[..] + [rigidbody]);
      drivenRadii := ArrayOf(drivenRadii[..] + [radius]);
      drivenAngularVelocities := new real[n + 1](_ => 0.0);
      drivenLinearVelocities := new real[n + 1](_ => 0.0);
      named := rigidbody.Some?;
    }

    /**
     * RemoveDrivenRigidbody: the first slot holding the body goes from both
     * arrays and the velocity arrays are reallocated; an absent body changes
     * nothing. `named` is false only when a null slot was removed.
     */
    method RemoveDrivenRigidbody(rigidbody: Option<nat>) returns (named: bool)
      requires Valid()
      modifies this`drivenRigidbodies, this`drivenRadii, this`drivenAngularVelocities, this`drivenLinearVelocities
      ensures Valid()
      ensures rigidbody !in old(drivenRigidbodies[..]) ==>
                drivenRigidbodies == old(drivenRigidbodies) && drivenRadii == old(drivenRadii)
                && drivenAngularVelocities == old(drivenAngularVelocities)
                && drivenLinearVelocities == old(drivenLinearVelocities) && named
      ensures rigidbody in old(drivenRigidbodies[..]) ==>
                var k := FirstIndex(old(drivenRigidbodies[..]), rigidbody);
                && fresh(drivenRigidbodies) && fresh(drivenRadii)
                && fresh(drivenAngularVelocities) && fresh(drivenLinearVelocities)
                && drivenRigidbodies[..] == old(drivenRigidbodies[..])[..k] + old(drivenRigidbodies[..])[k + 1..]
                && drivenRadii[..] == old(drivenRadii[..])[..k] + old(drivenRadii[..])[k + 1..]
                && (forall i :: 0 <= i < drivenLinearVelocities.Length ==> drivenLinearVelocities[i] == 0.0)
                && named == rigidbody.Some?
    {
      named := true;
      if rigidbody !in drivenRigidbodies[..] {
        return;
      }
      var k := FirstIndex(drivenRigidbodies[..], rigidbody);
      var n := drivenRigidbodies.Length;
      drivenRigidbodies := ArrayOf(drivenRigidbodies[..][..k] + drivenRigidbodies[..][k + 1..]);
      drivenRadii := ArrayOf(drivenRadii[..][..k] + drivenRadii[..][k + 1..]);
      drivenAngularVelocities := new real[n - 1](_ => 0.0);
      drivenLinearVelocities := new real[n - 1](_ => 0.0);
      named := rigidbody.Some?;
    }

    /** CalculateAverageDrivenAngularVelocity: the mean of the array, which is never written and so is 0. */
    method AverageDrivenAngularVelocity() returns (r: real)
      requires Valid()
      ensures r == Mean(drivenAngularVelocities[..])
      ensures r == 0.0
    {
      if drivenAngularVelocities.Length == 0 {
        return 0.0;
      }
      var sum := 0.0;
      for i := 0 to drivenAngularVelocities.Length
        invariant sum == Sum(drivenAngularVelocities[..i])
      {
        assert drivenAngularVelocities[..i + 1][..i] == drivenAngularVelocities[..i];
        sum := sum + drivenAngularVelocities[i];
      }
      assert drivenAngularVelocities[..drivenAngularVelocities.Length] == drivenAngularVelocities[..];
      r := sum / drivenAngularVelocities.Length as real;
      SumBounds(drivenAngularVelocities[..], 0.0, 0.0);
    }

    method GetStatistics() returns (s: TransmissionStatistics)
      requires Valid()
      ensures s.driverRadius == driverRadius && s.driverAngularVelocity == driverAngularVelocity
      ensures s.driverLinearVelocity == driverLinearVelocity && s.transmissionRatio == transmissionRatio
      ensures s.drivenWheelCount == drivenRigidbodies.Length
      ensures s.averageDrivenAngularVelocity == 0.0
    {
      var average := AverageDrivenAngularVelocity();
      s := TransmissionStatistics(driverRadius, driverAngularVelocity, driverLinearVelocity, transmissionRatio,
                                  drivenRigidbodies.Length, average);
    }
  }

  /** Adding a wheel and removing it again restores both arrays when the body was not already listed. */
  method AddThenRemove(t: BeltTransmission, rigidbody: nat, radius: real)
    requires t.Valid() && Some(rigidbody) !in t.drivenRigidbodies[..]
    modifies t
    ensures t.Valid()
    ensures t.drivenRigidbodies[..] == old(t.drivenRigidbodies[..]) && t.drivenRadii[..] == old(t.drivenRadii[..])
  {
    var before, radiiBefore := t.drivenRigidbodies[..], t.drivenRadii[..];
    var _ := t.AddDrivenRigidbody(Some(rigidbody), radius);
    assert FirstIndex(t.drivenRigidbodies[..], Some(rigidbody)) == |before| by {
      AppendThenRemove(before, Some(rigidbody));
    }
    var _ := t.RemoveDrivenRigidbody(Some(rigidbody));
    assert (before + [Some(rigidbody)])[..|before|] == before;
    assert (radiiBefore + [radius])[..|before|] == radiiBefore;
  }
}
