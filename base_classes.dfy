// The client's base classes: models, services, managers, controllers and
// views share a once-only initialise/dispose protocol; controllers add an
// enable/disable pair and views a show/hide pair. The overridable hooks a
// subclass supplies (OnInitialize, OnDispose, ...) are empty here, so each
// object records only how many times each of them has run.

module BaseClasses {
  /** The initialise/dispose protocol: the flag and the runs of its two hooks. */
  datatype Protocol = Protocol(initialized: bool, initializeRuns: nat, disposeRuns: nat)

  /** A new object: not initialised, no hook run yet. */
  const Fresh: Protocol := Protocol(false, 0, 0)

  /**
   * The protocol's invariant: OnDispose never runs more often than
   * OnInitialize, and the object is initialised exactly when OnInitialize
   * has run once more than OnDispose.
   */
  predicate Balanced(p: Protocol)
  {
    p.initializeRuns == p.disposeRuns + (if p.initialized then 1 else 0)
  }

  /** Initialize: when not yet initialised, run OnInitialize, then set the flag; otherwise do nothing. */
  function Initialized(p: Protocol): (r: Protocol)
    ensures r.initialized && r.disposeRuns == p.disposeRuns
    ensures r.initializeRuns == p.initializeRuns + (if p.initialized then 0 else 1)
  {
    if p.initialized then p else Protocol(true, p.initializeRuns + 1, p.disposeRuns)
  }

  /** Dispose: when initialised, run OnDispose, then clear the flag; otherwise do nothing. */
  function Disposed(p: Protocol): (r: Protocol)
    ensures !r.initialized && r.initializeRuns == p.initializeRuns
    ensures r.disposeRuns == p.disposeRuns + (if p.initialized then 1 else 0)
  {
    if !p.initialized then p else Protocol(false, p.initializeRuns, p.disposeRuns + 1)
  }

  /** Both steps keep the invariant. */
  lemma StepsKeepBalance(p: Protocol)
    requires Balanced(p)
    ensures Balanced(Initialized(p)) && Balanced(Disposed(p))
  {
  }

  /** A second Initialize, or a second Dispose, changes nothing. */
  lemma StepsIdempotent(p: Protocol)
    ensures Initialized(Initialized(p)) == Initialized(p)
    ensures Disposed(Disposed(p)) == Disposed(p)
  {
  }

  /** Initialize, Dispose, Initialize from scratch runs OnInitialize twice and OnDispose once. */
  lemma InitializeDisposeInitialize()
    ensures Initialized(Disposed(Initialized(Fresh))) == Protocol(true, 2, 1)
  {
  }

  datatype Step = InitializeStep | DisposeStep

  /** The protocol after the calls in `steps`, in order. */
  function Replay(p: Protocol, steps: seq<Step>): Protocol
  {
    if |steps| == 0 then p
    else
      var q := Replay(p, steps[..|steps| - 1]);
      if steps[|steps| - 1] == InitializeStep then Initialized(q) else Disposed(q)
  }

  function InitializeSteps(steps: seq<Step>): (n: nat)
    ensures n <= |steps|
  {
    if |steps| == 0 then 0
    else InitializeSteps(steps[..|steps| - 1]) + (if steps[|steps| - 1] == InitializeStep then 1 else 0)
  }

  /**
   * Any sequence of calls keeps the invariant, and OnInitialize runs at most
   * once per Initialize call.
   */
  lemma {:induction false} ReplayBalanced(p: Protocol, steps: seq<Step>)
    requires Balanced(p)
    ensures Balanced(Replay(p, steps))
    ensures Replay(p, steps).initializeRuns <= p.initializeRuns + InitializeSteps(steps)
  {
    if |steps| > 0 {
      ReplayBalanced(p, steps[..|steps| - 1]);
    }
  }

  /** After at least one call, the flag tells which of the two was called last. */
  lemma ReplayLastCallWins(p: Protocol, steps: seq<Step>)
    requires |steps| > 0
    ensures Replay(p, steps).initialized <==> steps[|steps| - 1] == InitializeStep
  {
  }

  // ---------------------------------------------------------------------------
  // Plain C# base classes
  // ---------------------------------------------------------------------------

  class BaseModel {
    var protocol: Protocol

    predicate Valid()
      reads this
    {
      Balanced(protocol)
    }

    /** IsInitialized starts false. */
    constructor ()
      ensures Valid() && protocol == Fresh
    {
      protocol := Fresh;
    }

    method Initialize()
      requires Valid()
      modifies this
      ensures Valid() && protocol == Initialized(old(protocol))
    {
      if protocol.initialized {
        return;
      }
      protocol := Protocol(true, protocol.initializeRuns + 1, protocol.disposeRuns);
    }

    method Dispose()
      requires Valid()
      modifies this
      ensures Valid() && protocol == Disposed(old(protocol))
    {
      if !protocol.initialized {
        return;
      }
      protocol := Protocol(false, protocol.initializeRuns, protocol.disposeRuns + 1);
    }
  }

  class BaseService {
    var protocol: Protocol

    predicate Valid()
      reads this
    {
      Balanced(protocol)
    }

    /** IsInitialized starts false. */
    constructor ()
      ensures Valid() && protocol == Fresh
    {
      protocol := Fresh;
    }

    method Initialize()
      requires Valid()
      modifies this
      ensures Valid() && protocol == Initialized(old(protocol))
    {
      if protocol.initialized {
        return;
      }
      protocol := Protocol(true, protocol.initializeRuns + 1, protocol.disposeRuns);
    }

    method Dispose()
      requires Valid()
      modifies this
      ensures Valid() && protocol == Disposed(old(protocol))
    {
      if !protocol.initialized {
        return;
      }
      protocol := Protocol(false, protocol.initializeRuns, protocol.disposeRuns + 1);
    }
  }

  // ---------------------------------------------------------------------------
  // Unity components: Awake initialises, OnDestroy disposes
  // ---------------------------------------------------------------------------

  class BaseManager {
    var protocol: Protocol

    predicate Valid()
      reads this
    {
      Balanced(protocol)
    }

    /** The component is created and its Awake initialises it. */
    constructor ()
      ensures Valid() && protocol == Initialized(Fresh)
    {
      protocol := Fresh;
      new;
      Initialize();
    }

    method Initialize()
      requires Valid()
      modifies this
      ensures Valid() && protocol == Initialized(old(protocol))
    {
      if protocol.initialized {
        return;
      }
      protocol := Protocol(true, protocol.initializeRuns + 1, protocol.disposeRuns);
    }

    method Dispose()
      requires Valid()
      modifies this
      ensures Valid() && protocol == Disposed(old(protocol))
    {
      if !protocol.initialized {
        return;
      }
      protocol := Protocol(false, protocol.initializeRuns, protocol.disposeRuns + 1);
    }

    method OnDestroy()
      requires Valid()
      modifies this
      ensures Valid() && protocol == Disposed(old(protocol))
    {
      Dispose();
    }
  }

  class BaseController {
    var protocol: Protocol
    var isEnabled: bool
    var enableRuns: nat
    var disableRuns: nat

    predicate Valid()
      reads this
    {
      Balanced(protocol)
    }

    /** The component is created enabled, and its Awake initialises it. */
    constructor ()
      ensures Valid() && protocol == Initialized(Fresh)
      ensures isEnabled && enableRuns == 0 && disableRuns == 0
    {
      protocol := Fresh;
      isEnabled := true;
      enableRuns := 0;
      disableRuns := 0;
      new;
      Initialize();
    }

    method Initialize()
      requires Valid()
      modifies this`protocol
      ensures Valid() && protocol == Initialized(old(protocol))
    {
      if protocol.initialized {
        return;
      }
      protocol := Protocol(true, protocol.initializeRuns + 1, protocol.disposeRuns);
    }

    /** Enable: on a disabled controller, set the flag, then run OnEnable; otherwise do nothing. */
    method Enable()
      modifies this`isEnabled, this`enableRuns
      ensures isEnabled
      ensures enableRuns == old(enableRuns) + (if old(isEnabled) then 0 else 1)
    {
      if isEnabled {
        return;
      }
      isEnabled := true;
      enableRuns := enableRuns + 1;
    }

    /** Disable: on an enabled controller, run OnDisable, then clear the flag; otherwise do nothing. */
    method Disable()
      modifies this`isEnabled, this`disableRuns
      ensures !isEnabled
      ensures disableRuns == old(disableRuns) + (if old(isEnabled) then 1 else 0)
    {
      if !isEnabled {
        return;
      }
      disableRuns := disableRuns + 1;
      isEnabled := false;
    }

    method Dispose()
      requires Valid()
      modifies this`protocol
      ensures Valid() && protocol == Disposed(old(protocol))
    {
      if !protocol.initialized {
        return;
      }
      protocol := Protocol(false, protocol.initializeRuns, protocol.disposeRuns + 1);
    }

    method OnDestroy()
      requires Valid()
      modifies this`protocol
      ensures Valid() && protocol == Disposed(old(protocol))
    {
      Dispose();
    }
  }

  class BaseView {
    var protocol: Protocol
    var isVisible: bool
    /** The game object's active flag. */
    var active: bool
    /** Whether Unity has run Awake, which it does on the object's first activation. */
    var awake: bool
    var showRuns: nat
    var hideRuns: nat

    /** The counters balance, and an active game object has had its Awake. */
    predicate Valid()
      reads this
    {
      Balanced(protocol) && (active ==> awake)
    }

    /**
     * The component is created visible. Unity runs its Awake, which
     * initialises it, at once when the game object is active in the scene,
     * and otherwise on the object's first activation.
     */
    constructor (activeInScene: bool)
      ensures Valid() && awake == activeInScene
      ensures protocol == if activeInScene then Initialized(Fresh) else Fresh
      ensures isVisible && active == activeInScene && showRuns == 0 && hideRuns == 0
    {
      protocol := Fresh;
      isVisible := true;
      active := activeInScene;
      awake := false;
      showRuns := 0;
      hideRuns := 0;
      new;
      if activeInScene {
        Awake();
      }
    }

    /** Awake: Unity's first-activation message, which initialises the view. */
    method Awake()
      requires Balanced(protocol) && !awake
      modifies this`protocol, this`awake
      ensures Valid() && awake && protocol == Initialized(old(protocol))
    {
      awake := true;
      Initialize();
    }

    method Initialize()
      requires Valid()
      modifies this`protocol
      ensures Valid() && protocol == Initialized(old(protocol))
    {
      if protocol.initialized {
        return;
      }
      protocol := Protocol(true, protocol.initializeRuns + 1, protocol.disposeRuns);
    }

    /**
     * Show: on a hidden view, activate the game object, mark it visible, then
     * run OnShow; otherwise do nothing. Activating an object for the first
     * time runs its Awake there and then.
     */
    method Show()
      requires Valid()
      modifies this`isVisible, this`active, this`showRuns, this`protocol, this`awake
      ensures Valid() && isVisible
      ensures old(isVisible) ==>
                active == old(active) && showRuns == old(showRuns) && protocol == old(protocol) && awake == old(awake)
      ensures !old(isVisible) ==> active && awake && showRuns == old(showRuns) + 1
      ensures !old(isVisible) && !old(awake) ==> protocol == Initialized(old(protocol))
      ensures !old(isVisible) && old(awake) ==> protocol == old(protocol)
    {
      if isVisible {
        return;
      }
      active := true;
      if !awake {
        Awake();
      }
      isVisible := true;
      showRuns := showRuns + 1;
    }

    /** Hide: on a visible view, run OnHide, deactivate the game object, then mark it hidden; otherwise do nothing. */
    method Hide()
      requires Valid()
      modifies this`isVisible, this`active, this`hideRuns
      ensures Valid() && !isVisible
      ensures !old(isVisible) ==> active == old(active) && hideRuns == old(hideRuns)
      ensures old(isVisible) ==> !active && hideRuns == old(hideRuns) + 1
    {
      if !isVisible {
        return;
      }
      hideRuns := hideRuns + 1;
      active := false;
      isVisible := false;
    }

    method Dispose()
      requires Valid()
      modifies this`protocol
      ensures Valid() && protocol == Disposed(old(protocol))
    {
      if !protocol.initialized {
        return;
      }
      protocol := Protocol(false, protocol.initializeRuns, protocol.disposeRuns + 1);
    }

    method OnDestroy()
      requires Valid()
      modifies this`protocol
      ensures Valid() && protocol == Disposed(old(protocol))
    {
      Dispose();
    }
  }

  /** A freshly created view is visible, so Show does nothing until Hide has run. */
  method ShowAfterCreation() returns (v: BaseView)
    ensures fresh(v) && v.Valid() && v.isVisible && v.active && v.showRuns == 0
    ensures v.protocol == Initialized(Fresh)
  {
    v := new BaseView(true);
    v.Show();
  }

  /**
   * A view whose game object starts inactive is not initialised until it is
   * shown; as it is created visible, it must be hidden first, and the Show
   * that then activates it initialises it once.
   */
  method InactiveViewInitialisedOnShow() returns (v: BaseView)
    ensures fresh(v) && v.Valid() && v.isVisible && v.active
    ensures v.protocol == Initialized(Fresh) && v.protocol.initializeRuns == 1
  {
    v := new BaseView(false);
    assert v.protocol == Fresh;
    v.Show();
    assert v.protocol == Fresh;
    v.Hide();
    v.Show();
  }

  /** Hiding and then showing a view runs OnHide and OnShow once each and leaves it active. */
  method HideThenShow(v: BaseView)
    requires v.Valid() && v.isVisible
    modifies v
    ensures v.Valid() && v.isVisible && v.active && v.awake
    ensures v.hideRuns == old(v.hideRuns) + 1 && v.showRuns == old(v.showRuns) + 1
  {
    v.Hide();
    v.Show();
  }

  /** A freshly created controller is enabled, so Enable does nothing until Disable has run. */
  method EnableAfterCreation() returns (c: BaseController)
    ensures fresh(c) && c.Valid() && c.isEnabled && c.enableRuns == 0
  {
    c := new BaseController();
    c.Enable();
  }

  /** Disposing a model that was never initialised does nothing. */
  method DisposeBeforeInitialize() returns (m: BaseModel)
    ensures fresh(m) && m.Valid() && m.protocol == Fresh
  {
    m := new BaseModel();
    m.Dispose();
  }

  /** On a manager, Initialize, Dispose, Initialize runs OnInitialize twice and OnDispose once. */
  method ManagerCycle() returns (m: BaseManager)
    ensures fresh(m) && m.Valid() && m.protocol == Protocol(true, 2, 1)
  {
    m := new BaseManager();
    m.Initialize();
    m.Dispose();
    m.Initialize();
  }
}
