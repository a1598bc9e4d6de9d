// The physics-material controller: current friction and bounciness values,
// kept within their ranges by clamping setters and mirrored onto the target
// physic material, which always exists once the controller is awake (one is
// created when none is found).

module PhysicsMaterials {
  import opened Common

  /** `Mathf.Clamp01`. */
  function Clamp01(value: real): (r: real)
    ensures 0.0 <= r <= 1.0
    ensures 0.0 <= value <= 1.0 ==> r == value
  {
    Clamp(value, 0.0, 1.0)
  }

  /** The values a physic material carries. */
  datatype Material = Material(dynamicFriction: real, staticFriction: real, bounciness: real)

  class PhysicsMaterialController {
    const initialDynamicFriction: real
    const initialStaticFriction: real
    const initialBounciness: real
    var minFriction: real
    var maxFriction: real
    var currentDynamicFriction: real
    var currentStaticFriction: real
    var currentBounciness: real
    /** The target physic material. */
    var material: Material

    /** The material always shows the current values, and bounciness lies in [0, 1]. */
    predicate Valid()
      reads this
    {
      && material == Material(currentDynamicFriction, currentStaticFriction, currentBounciness)
      && 0.0 <= currentBounciness <= 1.0
    }

    /** Awake: the initial values are applied through the clamping setters to the found or new material. */
    constructor (dynamicFriction: real, staticFriction: real, bounciness: real, min: real, max: real)
      ensures Valid()
      ensures initialDynamicFriction == dynamicFriction && initialStaticFriction == staticFriction
      ensures initialBounciness == bounciness && minFriction == min && maxFriction == max
      ensures currentDynamicFriction == Clamp(dynamicFriction, min, max)
      ensures currentStaticFriction == Clamp(staticFriction, min, max)
      ensures currentBounciness == Clamp01(bounciness)
    {
      initialDynamicFriction := dynamicFriction;
      initialStaticFriction := staticFriction;
      initialBounciness := bounciness;
      minFriction := min;
      maxFriction := max;
      currentDynamicFriction := Clamp(dynamicFriction, min, max);
      currentStaticFriction := Clamp(staticFriction, min, max);
      currentBounciness := Clamp01(bounciness);
      material := Material(currentDynamicFriction, currentStaticFriction, currentBounciness);
    }

    /** The dynamic friction, clamped to [minFriction, maxFriction]. */
    method SetDynamicFriction(value: real)
      requires Valid()
      modifies this`currentDynamicFriction, this`material
      ensures Valid()
      ensures currentDynamicFriction == Clamp(value, minFriction, maxFriction)
      ensures minFriction <= maxFriction ==> minFriction <= currentDynamicFriction <= maxFriction
    {
      currentDynamicFriction := Clamp(value, minFriction, maxFriction);
      material := material.(dynamicFriction := currentDynamicFriction);
    }

    /** The static friction, clamped to [minFriction, maxFriction]. */
    method SetStaticFriction(value: real)
      requires Valid()
      modifies this`currentStaticFriction, this`material
      ensures Valid()
      ensures currentStaticFriction == Clamp(value, minFriction, maxFriction)
      ensures minFriction <= maxFriction ==> minFriction <= currentStaticFriction <= maxFriction
    {
      currentStaticFriction := Clamp(value, minFriction, maxFriction);
      material := material.(staticFriction := currentStaticFriction);
    }

    /** The bounciness, clamped to [0, 1]. */
    method SetBounciness(value: real)
      requires Valid()
      modifies this`currentBounciness, this`material
      ensures Valid()
      ensures currentBounciness == Clamp01(value)
    {
      currentBounciness := Clamp01(value);
      material := material.(bounciness := currentBounciness);
    }

    /** SetFriction: both frictions get the same clamped value. */
    method SetFriction(friction: real)
      requires Valid()
      modifies this`currentDynamicFriction, this`currentStaticFriction, this`material
      ensures Valid()
      ensures currentDynamicFriction == currentStaticFriction == Clamp(friction, minFriction, maxFriction)
      ensures currentBounciness == old(currentBounciness)
    {
      SetDynamicFriction(friction);
      SetStaticFriction(friction);
    }

    /**
     * SetFrictionRange: each bound is clamped to [0, 1] on its own, so the
     * bounds may end up reversed, and the current frictions are not re-clamped.
     */
    method SetFrictionRange(min: real, max: real)
      modifies this`minFriction, this`maxFriction
      ensures minFriction == Clamp01(min) && maxFriction == Clamp01(max)
      ensures min > max && 0.0 <= max && min <= 1.0 ==> minFriction > maxFriction
    {
      minFriction := Clamp01(min);
      maxFriction := Clamp01(max);
    }

    /** ResetToInitial: the three initial values go through the clamping setters again. */
    method ResetToInitial()
      requires Valid()
      modifies this`currentDynamicFriction, this`currentStaticFriction, this`currentBounciness, this`material
      ensures Valid()
      ensures currentDynamicFriction == Clamp(initialDynamicFriction, minFriction, maxFriction)
      ensures currentStaticFriction == Clamp(initialStaticFriction, minFriction, maxFriction)
      ensures currentBounciness == Clamp01(initialBounciness)
    {
      SetDynamicFriction(initialDynamicFriction);
      SetStaticFriction(initialStaticFriction);
      SetBounciness(initialBounciness);
    }

    /** SetFrictionless: 0 clamped into the range, which is the lower bound when that is positive. */
    method SetFrictionless()
      requires Valid()
      modifies this`currentDynamicFriction, this`currentStaticFriction, this`material
      ensures Valid()
      ensures currentDynamicFriction == currentStaticFriction == Clamp(0.0, minFriction, maxFriction)
      ensures minFriction > 0.0 ==> currentDynamicFriction == minFriction
      ensures minFriction <= 0.0 <= maxFriction ==> currentDynamicFriction == 0.0
    {
      SetFriction(0.0);
    }

    /** SetMaximumFriction: the upper bound, unless the bounds are reversed, when the lower one wins. */
    method SetMaximumFriction()
      requires Valid()
      modifies this`currentDynamicFriction, this`currentStaticFriction, this`material
      ensures Valid()
      ensures currentDynamicFriction == currentStaticFriction
      ensures minFriction <= maxFriction ==> currentDynamicFriction == maxFriction
      ensures minFriction > maxFriction ==> currentDynamicFriction == minFriction
    {
      SetFriction(maxFriction);
    }
  }

  /** Narrowing the range leaves a friction set earlier outside it until it is set again. */
  method NarrowedRangeKeepsFriction(c: PhysicsMaterialController)
    requires c.Valid()
    modifies c
    ensures c.Valid()
    ensures c.currentDynamicFriction == old(c.currentDynamicFriction) && c.minFriction == 0.0 && c.maxFriction == 0.5
  {
    c.SetFrictionRange(0.0, 0.5);
  }
}
