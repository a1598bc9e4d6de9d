// The lifecycle manager: one registry per kind of component (models,
// controllers, services, managers). Registering initialises a component,
// unregistering disposes it, and CleanupAll disposes everything. The
// registries hold the component objects themselves, so the manager's
// operations act on the components' own protocol state.

module Lifecycle {
  import opened Common
  import opened BaseClasses

  /** Disposes every model in `ms`, in order; nothing else changes. */
  method DisposeModels(ms: seq<BaseModel>)
    requires Distinct(ms) && forall m :: m in ms ==> m.Valid()
    modifies set m | m in ms
    ensures forall m :: m in ms ==> m.Valid() && m.protocol == Disposed(old(m.protocol))
  {
    for i := 0 to |ms|
      invariant forall j :: 0 <= j < |ms| ==> ms[j].Valid()
      invariant forall j :: 0 <= j < i ==> ms[j].protocol == Disposed(old(ms[j].protocol))
      invariant forall j :: i <= j < |ms| ==> ms[j].protocol == old(ms[j].protocol)
    {
      ms[i].Dispose();
    }
  }

  /** Disposes every controller in `cs`, in order; nothing else changes. */
  method DisposeControllers(cs: seq<BaseController>)
    requires Distinct(cs) && forall c :: c in cs ==> c.Valid()
    modifies set c | c in cs
    ensures forall c :: c in cs ==> c.Valid() && c.protocol == Disposed(old(c.protocol))
    ensures forall c :: c in cs ==> c.isEnabled == old(c.isEnabled)
  {
    for i := 0 to |cs|
      invariant forall j :: 0 <= j < |cs| ==> cs[j].Valid() && cs[j].isEnabled == old(cs[j].isEnabled)
      invariant forall j :: 0 <= j < i ==> cs[j].protocol == Disposed(old(cs[j].protocol))
      invariant forall j :: i <= j < |cs| ==> cs[j].protocol == old(cs[j].protocol)
    {
      cs[i].Dispose();
    }
  }

  /** Disposes every service in `ss`, in order; nothing else changes. */
  method DisposeServices(ss: seq<BaseService>)
    requires Distinct(ss) && forall s :: s in ss ==> s.Valid()
    modifies set s | s in ss
    ensures forall s :: s in ss ==> s.Valid() && s.protocol == Disposed(old(s.protocol))
  {
    for i := 0 to |ss|
      invariant forall j :: 0 <= j < |ss| ==> ss[j].Valid()
      invariant forall j :: 0 <= j < i ==> ss[j].protocol == Disposed(old(ss[j].protocol))
      invariant forall j :: i <= j < |ss| ==> ss[j].protocol == old(ss[j].protocol)
    {
      ss[i].Dispose();
    }
  }

  /** Disposes every manager in `ms`, in order; nothing else changes. */
  method DisposeManagers(ms: seq<BaseManager>)
    requires Distinct(ms) && forall m :: m in ms ==> m.Valid()
    modifies set m | m in ms
    ensures forall m :: m in ms ==> m.Valid() && m.protocol == Disposed(old(m.protocol))
  {
    for i := 0 to |ms|
      invariant forall j :: 0 <= j < |ms| ==> ms[j].Valid()
      invariant forall j :: 0 <= j < i ==> ms[j].protocol == Disposed(old(ms[j].protocol))
      invariant forall j :: i <= j < |ms| ==> ms[j].protocol == old(ms[j].protocol)
    {
      ms[i].Dispose();
    }
  }

  class LifecycleManager {
    var models: seq<BaseModel>
    var controllers: seq<BaseController>
    var services: seq<BaseService>
    var managers: seq<BaseManager>

    /** No registry holds a component twice. */
    predicate Valid()
      reads this
    {
      Distinct(models) && Distinct(controllers) && Distinct(services) && Distinct(managers)
    }

    /** Every registered component keeps its own protocol invariant. */
    predicate ComponentsValid()
      reads this, set m | m in models, set c | c in controllers, set s | s in services, set m | m in managers
    {
      ModelsValid() && ControllersValid() && ServicesValid() && ManagersValid()
    }

    predicate ModelsValid()
      reads this, set m | m in models
    {
      forall m :: m in models ==> m.Valid()
    }

    predicate ControllersValid()
      reads this, set c | c in controllers
    {
      forall c :: c in controllers ==> c.Valid()
    }

    predicate ServicesValid()
      reads this, set s | s in services
    {
      forall s :: s in services ==> s.Valid()
    }

    predicate ManagersValid()
      reads this, set m | m in managers
    {
      forall m :: m in managers ==> m.Valid()
    }

    constructor ()
      ensures Valid() && ComponentsValid()
      ensures models == [] && controllers == [] && services == [] && managers == []
    {
      models := [];
      controllers := [];
      services := [];
      managers := [];
    }

    /** RegisterModel: a model that is not null and not yet registered is appended, then initialised. */
    method RegisterModel(model: BaseModel?)
      requires Valid() && ComponentsValid()
      requires model != null ==> model.Valid()
      modifies this`models, model
      ensures Valid() && ComponentsValid()
      ensures model != null && model !in old(models) ==>
                models == old(models) + [model]
                && model.protocol == Initialized(old(model.protocol))
      ensures model == null || model in old(models) ==> models == old(models)
      ensures model != null && model in old(models) ==> model.protocol == old(model.protocol)
    {
      if model != null && model !in models {
        DistinctAppend(models, model);
        models := models + [model];
        model.Initialize();
      }
    }

    /** RegisterController: a controller that is not null and not yet registered is appended, then initialised. */
    method RegisterController(controller: BaseController?)
      requires Valid() && ComponentsValid()
      requires controller != null ==> controller.Valid()
      modifies this`controllers, controller
      ensures Valid() && ComponentsValid()
      ensures controller != null && controller !in old(controllers) ==>
                controllers == old(controllers) + [controller]
                && controller.protocol == Initialized(old(controller.protocol))
      ensures controller == null || controller in old(controllers) ==> controllers == old(controllers)
      ensures controller != null && controller in old(controllers) ==>
                controller.protocol == old(controller.protocol)
      ensures controller != null ==> controller.isEnabled == old(controller.isEnabled)
    {
      if controller != null && controller !in controllers {
        DistinctAppend(controllers, controller);
        controllers := controllers + [controller];
        controller.Initialize();
      }
    }

    /** RegisterService: a service that is not null and not yet registered is appended, then initialised. */
    method RegisterService(service: BaseService?)
      requires Valid() && ComponentsValid()
      requires service != null ==> service.Valid()
      modifies this`services, service
      ensures Valid() && ComponentsValid()
      ensures service != null && service !in old(services) ==>
                services == old(services) + [service]
                && service.protocol == Initialized(old(service.protocol))
      ensures service == null || service in old(services) ==> services == old(services)
      ensures service != null && service in old(services) ==> service.protocol == old(service.protocol)
    {
      if service != null && service !in services {
        DistinctAppend(services, service);
        services := services + [service];
        service.Initialize();
      }
    }

    /** RegisterManager: a manager that is not null and not yet registered is appended, then initialised. */
    method RegisterManager(manager: BaseManager?)
      requires Valid() && ComponentsValid()
      requires manager != null ==> manager.Valid()
      modifies this`managers, manager
      ensures Valid() && ComponentsValid()
      ensures manager != null && manager !in old(managers) ==>
                managers == old(managers) + [manager]
                && manager.protocol == Initialized(old(manager.protocol))
      ensures manager == null || manager in old(managers) ==> managers == old(managers)
      ensures manager != null && manager in old(managers) ==> manager.protocol == old(manager.protocol)
    {
      if manager != null && manager !in managers {
        DistinctAppend(managers, manager);
        managers := managers + [manager];
        manager.Initialize();
      }
    }

    /** UnregisterModel: a registered model is disposed, then removed; anything else changes nothing. */
    method UnregisterModel(model: BaseModel?)
      requires Valid() && ComponentsValid()
      modifies this`models, model
      ensures Valid() && ComponentsValid()
      ensures model != null && model in old(models) ==>
                models == RemoveFirst(old(models), model) && model !in models
                && (forall m :: m != model ==> (m in models <==> m in old(models)))
                && model.protocol == Disposed(old(model.protocol))
      ensures model == null || model !in old(models) ==> models == old(models)
      ensures model != null && model !in old(models) ==> model.protocol == old(model.protocol)
    {
      if model != null && model in models {
        model.Dispose();
        DistinctRemove(models, model);
        models := RemoveFirst(models, model);
      }
    }

    /** UnregisterController: a registered controller is disposed, then removed; anything else changes nothing. */
    method UnregisterController(controller: BaseController?)
      requires Valid() && ComponentsValid()
      modifies this`controllers, controller
      ensures Valid() && ComponentsValid()
      ensures controller != null && controller in old(controllers) ==>
                controllers == RemoveFirst(old(controllers), controller) && controller !in controllers
                && (forall c :: c != controller ==> (c in controllers <==> c in old(controllers)))
                && controller.protocol == Disposed(old(controller.protocol))
      ensures controller == null || controller !in old(controllers) ==> controllers == old(controllers)
      ensures controller != null && controller !in old(controllers) ==>
                controller.protocol == old(controller.protocol)
      ensures controller != null ==> controller.isEnabled == old(controller.isEnabled)
    {
      if controller != null && controller in controllers {
        controller.Dispose();
        DistinctRemove(controllers, controller);
        controllers := RemoveFirst(controllers, controller);
      }
    }

    /** UnregisterService: a registered service is disposed, then removed; anything else changes nothing. */
    method UnregisterService(service: BaseService?)
      requires Valid() && ComponentsValid()
      modifies this`services, service
      ensures Valid() && ComponentsValid()
      ensures service != null && service in old(services) ==>
                services == RemoveFirst(old(services), service) && service !in services
                && (forall s :: s != service ==> (s in services <==> s in old(services)))
                && service.protocol == Disposed(old(service.protocol))
      ensures service == null || service !in old(services) ==> services == old(services)
      ensures service != null && service !in old(services) ==> service.protocol == old(service.protocol)
    {
      if service != null && service in services {
        service.Dispose();
        DistinctRemove(services, service);
        services := RemoveFirst(services, service);
      }
    }

    /** UnregisterManager: a registered manager is disposed, then removed; anything else changes nothing. */
    method UnregisterManager(manager: BaseManager?)
      requires Valid() && ComponentsValid()
      modifies this`managers, manager
      ensures Valid() && ComponentsValid()
      ensures manager != null && manager in old(managers) ==>
                managers == RemoveFirst(old(managers), manager) && manager !in managers
                && (forall m :: m != manager ==> (m in managers <==> m in old(managers)))
                && manager.protocol == Disposed(old(manager.protocol))
      ensures manager == null || manager !in old(managers) ==> managers == old(managers)
      ensures manager != null && manager !in old(managers) ==> manager.protocol == old(manager.protocol)
    {
      if manager != null && manager in managers {
        manager.Dispose();
        DistinctRemove(managers, manager);
        managers := RemoveFirst(managers, manager);
      }
    }

    /** CleanupAll: every registered component is disposed, registry by registry, and every registry is emptied. */
    method CleanupAll()
      requires Valid() && ComponentsValid()
      modifies this, set m | m in models, set c | c in controllers, set s | s in services, set m | m in managers
      ensures Valid() && ComponentsValid()
      ensures models == [] && controllers == [] && services == [] && managers == []
      ensures forall m :: m in old(models) ==>
                (m.protocol == Disposed(old(m.protocol)))
      ensures forall c :: c in old(controllers) ==>
                (c.protocol == Disposed(old(c.protocol)) && c.isEnabled == old(c.isEnabled))
      ensures forall s :: s in old(services) ==>
                (s.protocol == Disposed(old(s.protocol)))
      ensures forall m :: m in old(managers) ==>
                (m.protocol == Disposed(old(m.protocol)))
    {
      var ms, cs, ss, gs := models, controllers, services, managers;
      DisposeModels(ms);
      models := [];
      DisposeControllers(cs);
      controllers := [];
      DisposeServices(ss);
      services := [];
      DisposeManagers(gs);
      managers := [];
    }
  }

  /**
   * Registering a fresh model and unregistering it again restores the
   * registry and leaves the model disposed, its OnInitialize and OnDispose
   * having run once each.
   */
  method RegisterThenUnregister(lm: LifecycleManager, model: BaseModel)
    requires lm.Valid() && lm.ComponentsValid()
    requires model.Valid() && !model.protocol.initialized && model !in lm.models
    modifies lm`models, model
    ensures lm.Valid() && lm.ComponentsValid() && lm.models == old(lm.models)
    ensures model.protocol == Protocol(false, old(model.protocol.initializeRuns) + 1, old(model.protocol.disposeRuns) + 1)
  {
    lm.RegisterModel(model);
    lm.UnregisterModel(model);
    AppendThenRemove(old(lm.models), model);
  }

  /** Registering the same controller twice initialises it once and lists it once. */
  method RegisterTwice(lm: LifecycleManager, controller: BaseController)
    requires lm.Valid() && lm.ComponentsValid()
    requires controller.Valid() && controller !in lm.controllers
    modifies lm`controllers, controller
    ensures lm.Valid() && lm.controllers == old(lm.controllers) + [controller]
    ensures controller.protocol == Initialized(old(controller.protocol))
  {
    lm.RegisterController(controller);
    lm.RegisterController(controller);
  }
}
