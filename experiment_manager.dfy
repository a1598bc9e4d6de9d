// The physics ExperimentManager: the experiment life cycle with the engine's
// global time scale, the events it publishes, and its list of physics
// objects. The clock (`Time.time`) is a parameter, physics objects are
// identified by number (null is None), and the global `Time.timeScale` and the
// published events are fields of the manager.

module ExperimentManaging {
  import opened Common
  import opened Experiments

  /** An event published through the event system: "ExperimentStateChanged" or "ExperimentCompleted". */
  datatype Published = StateChanged(state: ExperimentState) | ExperimentCompleted(duration: real)

  /** The bounds `SetTimeScale` clamps to. */
  const MinTimeScale: real := 0.1
  const MaxTimeScale: real := 10.0

  /**
   * The global time scale each state is left with by the command that entered
   * it: the manager's scale while running, 0 while paused, 1 once completed.
   */
  predicate TimeScaleAgrees(state: ExperimentState, timeScale: real, globalTimeScale: real)
  {
    && (state == Running ==> globalTimeScale == timeScale)
    && (state == Paused ==> globalTimeScale == 0.0)
    && (state == Completed ==> globalTimeScale == 1.0)
  }

  class ExperimentManager {
    var state: ExperimentState
    var timeScale: real
    /** The engine's `Time.timeScale`. */
    var globalTimeScale: real
    var startTime: real
    var duration: real
    var physicsObjects: seq<nat>
    /** The events published so far, oldest first. */
    var published: seq<Published>
    /** The objects `ResetPhysics` was called on, in call order. */
    var resets: seq<nat>
    /** BaseManager's `IsInitialized`. */
    var isInitialized: bool

    predicate Valid()
      reads this
    {
      Distinct(physicsObjects) && TimeScaleAgrees(state, timeScale, globalTimeScale)
    }

    /**
     * Awake: the base class initialises the manager once, which loads the
     * physics objects found in the scene and applies the configured scale.
     */
    constructor (configuredScale: real, sceneObjects: seq<nat>)
      requires Distinct(sceneObjects)
      ensures Valid() && isInitialized
      ensures state == NotStarted && timeScale == configuredScale && globalTimeScale == configuredScale
      ensures physicsObjects == sceneObjects && published == [] && resets == []
    {
      state := NotStarted;
      timeScale := configuredScale;
      globalTimeScale := configuredScale;
      startTime := 0.0;
      duration := 0.0;
      physicsObjects := sceneObjects;
      published := [];
      resets := [];
      isInitialized := true;
    }

    /** Update: a running experiment's duration follows the clock. */
    method Update(now: real)
      modifies this`duration
      ensures state == Running ==> duration == now - startTime
      ensures state != Running ==> duration == old(duration)
    {
      if state == Running {
        duration := now - startTime;
      }
    }

    method StartExperiment(now: real)
      requires Valid()
      modifies this
      ensures Valid()
      ensures state == Transition(old(state), Start)
      ensures old(state) == Running ==>
                startTime == old(startTime) && duration == old(duration) && globalTimeScale == old(globalTimeScale)
                && published == old(published)
      ensures old(state) != Running ==>
                startTime == now && duration == 0.0 && globalTimeScale == timeScale
                && published == old(published) + [StateChanged(Running)]
      ensures timeScale == old(timeScale) && physicsObjects == old(physicsObjects) && resets == old(resets)
      ensures isInitialized == old(isInitialized)
    {
      if state == Running {
        return;
      }
      state := Running;
      startTime := now;
      duration := 0.0;
      globalTimeScale := timeScale;
      published := published + [StateChanged(state)];
    }

    method PauseExperiment()
      requires Valid()
      modifies this
      ensures Valid()
      ensures state == Transition(old(state), Pause)
      ensures old(state) == Running ==> globalTimeScale == 0.0 && published == old(published) + [StateChanged(Paused)]
      ensures old(state) != Running ==> globalTimeScale == old(globalTimeScale) && published == old(published)
      ensures startTime == old(startTime) && duration == old(duration) && timeScale == old(timeScale)
      ensures physicsObjects == old(physicsObjects) && resets == old(resets) && isInitialized == old(isInitialized)
    {
      if state != Running {
        return;
      }
      state := Paused;
      globalTimeScale := 0.0;
      published := published + [StateChanged(state)];
    }

    method ResumeExperiment()
      requires Valid()
      modifies this
      ensures Valid()
      ensures state == Transition(old(state), Resume)
      ensures old(state) == Paused ==> globalTimeScale == timeScale && published == old(published) + [StateChanged(Running)]
      ensures old(state) != Paused ==> globalTimeScale == old(globalTimeScale) && published == old(published)
      ensures startTime == old(startTime) && duration == old(duration) && timeScale == old(timeScale)
      ensures physicsObjects == old(physicsObjects) && resets == old(resets) && isInitialized == old(isInitialized)
    {
      if state != Paused {
        return;
      }
      state := Running;
      globalTimeScale := timeScale;
      published := published + [StateChanged(state)];
    }

    /** StopExperiment publishes the state change, then the completion with the last measured duration. */
    method StopExperiment()
      requires Valid()
      modifies this
      ensures Valid()
      ensures state == Transition(old(state), Stop)
      ensures old(state) != NotStarted ==>
                globalTimeScale == 1.0
                && published == old(published) + [StateChanged(Completed), ExperimentCompleted(duration)]
      ensures old(state) == NotStarted ==> globalTimeScale == old(globalTimeScale) && published == old(published)
      ensures startTime == old(startTime) && duration == old(duration) && timeScale == old(timeScale)
      ensures physicsObjects == old(physicsObjects) && resets == old(resets) && isInitialized == old(isInitialized)
    {
      if state == NotStarted {
        return;
      }
      state := Completed;
      globalTimeScale := 1.0;
      published := published + [StateChanged(state)];
      published := published + [ExperimentCompleted(duration)];
    }

    /** ResetExperiment resets every registered object, in list order, and restores normal time. */
    method ResetExperiment()
      requires Valid()
      modifies this
      ensures Valid()
      ensures state == Transition(old(state), Reset) && duration == 0.0 && globalTimeScale == 1.0
      ensures resets == old(resets) + physicsObjects
      ensures published == old(published) + [StateChanged(NotStarted)]
      ensures startTime == old(startTime) && timeScale == old(timeScale)
      ensures physicsObjects == old(physicsObjects) && isInitialized == old(isInitialized)
    {
      state := NotStarted;
      duration := 0.0;
      globalTimeScale := 1.0;
      for i := 0 to |physicsObjects|
        invariant resets == old(resets) + physicsObjects[..i]
        modifies this`resets
      {
        resets := resets + [physicsObjects[i]];
      }
      published := published + [StateChanged(state)];
    }

    /** SetTimeScale keeps the scale within [0.1, 10]; the engine sees it at once only while running. */
    method SetTimeScale(scale: real)
      requires Valid()
      modifies this`timeScale, this`globalTimeScale
      ensures Valid()
      ensures timeScale == Clamp(scale, MinTimeScale, MaxTimeScale)
      ensures MinTimeScale <= timeScale <= MaxTimeScale
      ensures state == Running ==> globalTimeScale == timeScale
      ensures state != Running ==> globalTimeScale == old(globalTimeScale)
    {
      timeScale := Clamp(scale, MinTimeScale, MaxTimeScale);
      if state == Running {
        globalTimeScale := timeScale;
      }
    }

    /** AddPhysicsObject appends a non-null object that is not yet listed. */
    method AddPhysicsObject(obj: Option<nat>)
      requires Valid()
      modifies this`physicsObjects
      ensures Valid()
      ensures obj.Some? && obj.value !in old(physicsObjects) ==> physicsObjects == old(physicsObjects) + [obj.value]
      ensures obj.None? || obj.value in old(physicsObjects) ==> physicsObjects == old(physicsObjects)
      ensures obj.Some? ==> obj.value in physicsObjects
    {
      if obj.Some? && obj.value !in physicsObjects {
        DistinctAppend(physicsObjects, obj.value);
        physicsObjects := physicsObjects + [obj.value];
      }
    }

    /** RemovePhysicsObject takes a listed object out; anything else changes nothing. */
    method RemovePhysicsObject(obj: Option<nat>)
      requires Valid()
      modifies this`physicsObjects
      ensures Valid()
      ensures obj.Some? ==> physicsObjects == RemoveFirst(old(physicsObjects), obj.value) && obj.value !in physicsObjects
      ensures obj.None? ==> physicsObjects == old(physicsObjects)
      ensures forall o :: (obj.None? || o != obj.value) ==> (o in physicsObjects <==> o in old(physicsObjects))
    {
      if obj.Some? && obj.value in physicsObjects {
        DistinctRemove(physicsObjects, obj.value);
        physicsObjects := RemoveFirst(physicsObjects, obj.value);
      }
    }
  }

  /** Pausing and resuming a running experiment restores its time scale and announces both changes. */
  method PauseResume(m: ExperimentManager)
    requires m.Valid() && m.state == Running
    modifies m
    ensures m.Valid() && m.state == Running && m.globalTimeScale == m.timeScale == old(m.timeScale)
    ensures m.published == old(m.published) + [StateChanged(Paused), StateChanged(Running)]
    ensures m.startTime == old(m.startTime) && m.physicsObjects == old(m.physicsObjects)
  {
    m.PauseExperiment();
    m.ResumeExperiment();
  }

  /** Adding an object and removing it again leaves the list as it was. */
  method AddRemove(m: ExperimentManager, obj: nat)
    requires m.Valid() && obj !in m.physicsObjects
    modifies m
    ensures m.Valid() && m.physicsObjects == old(m.physicsObjects)
  {
    m.AddPhysicsObject(Some(obj));
    m.RemovePhysicsObject(Some(obj));
    AppendThenRemove(old(m.physicsObjects), obj);
  }
}
