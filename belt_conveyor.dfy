// The belt conveyor's settable state: speed, running flag, incline angle and
// the mass and gravity used for its textbook calculations. The belt's
// forward direction comes from its transform and is a parameter here.

module Conveyor {
  import opened Common

  datatype Vec3 = Vec3(x: real, y: real, z: real)

  const Zero: Vec3 := Vec3(0.0, 0.0, 0.0)

  function Scale(v: Vec3, k: real): (r: Vec3)
    ensures k == 0.0 ==> r == Zero
    ensures k == 1.0 ==> r == v
  {
    Vec3(v.x * k, v.y * k, v.z * k)
  }

  function Abs(x: real): (r: real)
    ensures r >= 0.0 && (r == x || r == -x)
  {
    if x < 0.0 then -x else x
  }

  const MinIncline: real := 0.0
  const MaxIncline: real := 90.0

  /** The BeltSpeed setter and SetBeltSpeed store the same speed exactly when it is not negative. */
  lemma SpeedSettersAgree(value: real)
    ensures Abs(value) == value <==> value >= 0.0
    ensures Abs(Abs(value)) == Abs(value)
  {
  }

  class BeltConveyor {
    var beltSpeed: real
    var isRunning: bool
    var inclineAngle: real
    /** The x Euler angle of the belt's transform, in degrees. */
    var tiltDegrees: real
    var objectMass: real
    var gravity: real
    const beltWidth: real
    const beltLength: real

    /** The incline stays within [0, 90] and the transform is tilted back by it. */
    predicate Valid()
      reads this
    {
      MinIncline <= inclineAngle <= MaxIncline && tiltDegrees == -inclineAngle
    }

    /** Awake and Start: the configured values (the inspector keeps the angle in [0, 90]), with the incline applied. */
    constructor (speed: real, running: bool, angle: real, mass: real, g: real, width: real, length: real)
      requires MinIncline <= angle <= MaxIncline
      ensures Valid()
      ensures beltSpeed == speed && isRunning == running && inclineAngle == angle
      ensures objectMass == mass && gravity == g && beltWidth == width && beltLength == length
    {
      beltSpeed := speed;
      isRunning := running;
      inclineAngle := angle;
      tiltDegrees := -angle;
      objectMass := mass;
      gravity := g;
      beltWidth := width;
      beltLength := length;
    }

    /** The BeltSpeed setter stores the magnitude of the value. */
    method SetBeltSpeedProperty(value: real)
      modifies this`beltSpeed
      ensures beltSpeed == Abs(value) && beltSpeed >= 0.0
      ensures value >= 0.0 ==> beltSpeed == value
    {
      beltSpeed := if value < 0.0 then -value else value;
    }

    /** SetBeltSpeed stores the value as given, a negative speed included. */
    method SetBeltSpeed(speed: real)
      modifies this`beltSpeed
      ensures beltSpeed == speed
    {
      beltSpeed := speed;
    }

    /** The IsRunning property setter. */
    method SetIsRunning(value: bool)
      modifies this`isRunning
      ensures isRunning == value
    {
      isRunning := value;
    }

    /** The InclineAngle setter clamps to [0, 90] and re-tilts the belt. */
    method SetInclineAngle(value: real)
      requires Valid()
      modifies this`inclineAngle, this`tiltDegrees
      ensures Valid()
      ensures inclineAngle == Clamp(value, MinIncline, MaxIncline)
      ensures MinIncline <= value <= MaxIncline ==> inclineAngle == value
    {
      inclineAngle := Clamp(value, MinIncline, MaxIncline);
      UpdateIncline();
    }

    method UpdateIncline()
      modifies this`tiltDegrees
      ensures tiltDegrees == -inclineAngle
    {
      tiltDegrees := -inclineAngle;
    }

    method StartBelt()
      modifies this`isRunning
      ensures isRunning
    {
      isRunning := true;
    }

    method StopBelt()
      modifies this`isRunning
      ensures !isRunning
    {
      isRunning := false;
    }

    method SetObjectMass(mass: real)
      modifies this`objectMass
      ensures objectMass == mass
    {
      objectMass := mass;
    }

    method SetGravity(g: real)
      modifies this`gravity
      ensures gravity == g
    {
      gravity := g;
    }

    /**
     * GetVelocityAtPoint: a stopped belt moves nothing; a running one carries
     * every point at the belt speed along `forward`, wherever the point is.
     */
    function GetVelocityAtPoint(forward: Vec3, point: Vec3): (v: Vec3)
      reads this
      ensures !isRunning ==> v == Zero
      ensures isRunning ==> v == Scale(forward, beltSpeed)
    {
      if !isRunning then Zero else Scale(forward, beltSpeed)
    }

    /** IsPointOnBelt, given the point in the belt's own coordinates: strictly inside the belt's box. */
    function IsPointOnBelt(local: Vec3): (r: bool)
      reads this
      ensures r ==> Abs(local.x) < beltWidth / 2.0 && Abs(local.z) < beltLength / 2.0 && Abs(local.y) < 0.5
      ensures r <==> -beltWidth / 2.0 < local.x < beltWidth / 2.0 && -beltLength / 2.0 < local.z < beltLength / 2.0
                     && -0.5 < local.y < 0.5
    {
      Abs(local.x) < beltWidth / 2.0 && Abs(local.z) < beltLength / 2.0 && Abs(local.y) < 0.5
    }
  }

  /** The velocity a belt imparts does not depend on the point asked about. */
  lemma VelocityIgnoresPoint(b: BeltConveyor, forward: Vec3, p: Vec3, q: Vec3)
    ensures b.GetVelocityAtPoint(forward, p) == b.GetVelocityAtPoint(forward, q)
  {
  }

  /** Starting and then stopping the belt leaves it stopped, so it carries nothing. */
  method StartStop(b: BeltConveyor, forward: Vec3, point: Vec3) returns (v: Vec3)
    modifies b
    ensures !b.isRunning && v == Zero
  {
    b.StartBelt();
    b.StopBelt();
    v := b.GetVelocityAtPoint(forward, point);
  }
}
