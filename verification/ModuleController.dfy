/** The Module reconciler (internal/controller/addons/module_controller.go). */
module ModuleController {
  import opened Prelude
  import opened Metadata
  import opened Conditions
  import opened Objects
  import opened Cluster
  import opened Api
  import opened Server
  import opened ModuleResources

  /** What the Module's Ready condition is to say. */
  datatype Report = Report(status: ConditionStatus, reason: string, message: string)

  function FluxPrefix(mt: ModuleTemplate): string {
    if mt.helmRelease.Some? then "HelmRelease" else "Kustomization"
  }

  function FluxKey(m: Module, mt: ModuleTemplate): Key {
    Key(if mt.helmRelease.Some? then HelmReleaseKind else KustomizationKind, TargetNamespace(m, mt), m.name)
  }

  /** observeHelmReleaseStatus and observeKustomizationStatus: the object's own Ready, translated. */
  function Observe(prefix: string, got: Result<Object, Error>): Report {
    match got
    case Err(NotFound) => Report(False, prefix + "NotFound", "waiting for " + prefix + " to be created")
    case Err(_) => Report(Unknown, prefix + "GetError", "get failed")
    case Ok(o) =>
      match FluxReadyOf(o.payload)
      case None => Report(Unknown, prefix + "Pending", prefix + " has no Ready condition yet")
      case Some(ready) => Report(ready.status, prefix + ready.reason, ready.message)
  }

  function ReadyFrom(m: Module, report: Report): Condition {
    Condition(READY, report.status, report.reason, report.message, m.generation, 0)
  }

  function NextModuleStatus(m: Module, mt: ModuleTemplate, report: Report, now: nat): ModuleStatus {
    var ref := Some(Ref(m.name, TargetNamespace(m, mt)));
    ModuleStatus(
      m.generation,
      mt.generation,
      if mt.helmRelease.Some? then ref else if mt.kustomization.Some? then None else m.status.helmReleaseRef,
      if mt.helmRelease.Some? then None else if mt.kustomization.Some? then ref else m.status.kustomizationRef,
      Publish(m.status.conditions, ReadyFrom(m, report), now))
  }

  predicate IsPermanent(e: Error) {
    e.TemplateNotFound? || e.TemplateInvalid?
  }

  function ModuleReason(e: Error): string {
    match e
    case TemplateNotFound(_) => "TemplateNotFound"
    case TemplateInvalid(_) => "TemplateInvalid"
    case _ => "ReconcileError"
  }

  function FailedModuleStatus(m: Module, e: Error, now: nat): ModuleStatus {
    m.status.(observedGeneration := m.generation,
              conditions := SetStatusCondition(m.status.conditions,
                              Condition(READY, False, ModuleReason(e), ModuleReason(e), m.generation, 0), now))
  }

  function HandleModuleError(world: World, m: Module, e: Error, now: nat): Ran {
    Ran(PatchModuleStatus(world, m.name, m.status, FailedModuleStatus(m, e, now)).world,
        if IsPermanent(e) then None else Some(e))
  }

  function PublishModuleStatus(world: World, m: Module, mt: ModuleTemplate, now: nat): Ran {
    var report := Observe(FluxPrefix(mt), GetObject(world, FluxKey(m, mt)));
    var next := NextModuleStatus(m, mt, report, now);
    if next == m.status then Ran(Tick(world), None) else PatchModuleStatus(Tick(world), m.name, m.status, next)
  }

  /** Template, Flux object, status, for a Module that carries the finalizer. */
  function SyncModule(world: World, m: Module, version: string, now: nat): Ran {
    match GetTemplate(world, m.spec.templateRef)
    case Err(NotFound) => HandleModuleError(Tick(world), m, TemplateNotFound(m.spec.templateRef), now)
    case Err(e) => HandleModuleError(Tick(world), m, e, now)
    case Ok(mt) =>
      match FluxOp(m, mt, version)
      case None => HandleModuleError(Tick(world), m, TemplateInvalid(mt.name), now)
      case Some(op) =>
        var written := Perform(Tick(world), op);
        if written.err.Some? then HandleModuleError(written.world, m, written.err.value, now)
        else PublishModuleStatus(written.world, m, mt, now)
  }

  /** The namespace to clean up in, and the world after the lookup. */
  datatype Resolved = Resolved(world: World, namespace: string)

  function ResolveCleanupNamespace(world: World, m: Module): Resolved {
    if m.status.helmReleaseRef.Some? && m.status.helmReleaseRef.value.namespace != "" then
      Resolved(world, m.status.helmReleaseRef.value.namespace)
    else if m.status.kustomizationRef.Some? && m.status.kustomizationRef.value.namespace != "" then
      Resolved(world, m.status.kustomizationRef.value.namespace)
    else if m.spec.namespace.Some? then Resolved(world, m.spec.namespace.value)
    else
      Resolved(Tick(world),
               match GetTemplate(world, m.spec.templateRef)
               case Err(_) => ""
               case Ok(mt) => mt.namespace)
  }

  function CleanupOps(m: Module, namespace: string): seq<Op> {
    if namespace == "" then []
    else
      (if m.status.helmReleaseRef.Some? then [Remove(Key(HelmReleaseKind, namespace, m.name))] else [])
      + (if m.status.kustomizationRef.Some? then [Remove(Key(KustomizationKind, namespace, m.name))] else [])
  }

  function DeleteModule(world: World, m: Module): Ran {
    if FINALIZER !in m.finalizers then Ran(world, None)
    else
      var resolved := ResolveCleanupNamespace(world, m);
      var cleaned := RunOps(resolved.world, CleanupOps(m, resolved.namespace));
      if cleaned.err.Some? then cleaned
      else PatchFinalizers(cleaned.world, m.name, m.finalizers - {FINALIZER})
  }

  /** One Reconcile of a Module as a function. */
  function ReconcileModule(world: World, name: string, version: string, now: nat): Ran {
    if Head(world.faults) != Healthy then Ran(Tick(world), Some(Transient))
    else if name !in world.modules then Ran(Tick(world), None)
    else
      var m := world.modules[name];
      if m.deleting then DeleteModule(Tick(world), m)
      else if FINALIZER in m.finalizers then SyncModule(Tick(world), m, version, now)
      else
        var guarded := PatchFinalizers(Tick(world), name, m.finalizers + {FINALIZER});
        if guarded.err.Some? then guarded
        else SyncModule(guarded.world, guarded.world.modules[name], version, now)
  }

  class ModuleReconciler {
    const server: ApiServer
    const version: string

    constructor (server: ApiServer, version: string)
      ensures this.server == server && this.version == version
    {
      this.server := server;
      this.version := version;
    }

    method Reconcile(name: string, now: nat) returns (err: Option<Error>)
      requires server.Valid() && forall n :: n in server.modules ==> server.modules[n].name == n
      modifies server`faults, server`objects, server`modules
      ensures server.Valid()
      ensures Ran(server.Snapshot(), err) == ReconcileModule(old(server.Snapshot()), name, version, now)
    {
      var got := server.GetModule(name);
      if got.Err? {
        return if got.error == NotFound then None else Some(got.error);
      }
      var m := got.value;
      if m.deleting {
        err := ReconcileDelete(m);
        return;
      }
      if FINALIZER !in m.finalizers {
        err := server.UpdateFinalizers(name, m.finalizers + {FINALIZER});
        if err.Some? { return; }
        m := server.modules[name];
      }
      err := SyncAndReport(m, now);
    }

    method SyncAndReport(m: Module, now: nat) returns (err: Option<Error>)
      requires server.Valid()
      modifies server`faults, server`objects, server`modules
      ensures server.Valid()
      ensures Ran(server.Snapshot(), err) == SyncModule(old(server.Snapshot()), m, version, now)
    {
      var fetched := server.FetchTemplate(m.spec.templateRef);
      if fetched.Err? {
        var e := if fetched.error == NotFound then TemplateNotFound(m.spec.templateRef) else fetched.error;
        err := HandleError(m, e, now);
        return;
      }
      var failure := ReconcileResources(m, fetched.value);
      if failure.Some? {
        err := HandleError(m, failure.value, now);
        return;
      }
      err := UpdateStatus(m, fetched.value, now);
    }

    method ReconcileResources(m: Module, mt: ModuleTemplate) returns (err: Option<Error>)
      requires server.Valid()
      modifies server`faults, server`objects
      ensures server.Valid()
      ensures Ran(server.Snapshot(), err) ==
        match FluxOp(m, mt, version)
        case None => Ran(old(server.Snapshot()), Some(TemplateInvalid(mt.name)))
        case Some(op) => Perform(old(server.Snapshot()), op)
    {
      if mt.helmRelease.Some? {
        err := ReconcileHelmRelease(server, m, mt, version);
      } else if mt.kustomization.Some? {
        err := ReconcileKustomization(server, m, mt, version);
      } else {
        err := Some(TemplateInvalid(mt.name));
      }
    }

    method ReconcileDelete(m: Module) returns (err: Option<Error>)
      requires server.Valid()
      modifies server`faults, server`objects, server`modules
      ensures server.Valid()
      ensures Ran(server.Snapshot(), err) == DeleteModule(old(server.Snapshot()), m)
    {
      if FINALIZER !in m.finalizers {
        return None;
      }
      var namespace := ResolveNamespace(m);
      CleanupInOrder(server.Snapshot(), m, namespace);
      if namespace != "" {
        if m.status.helmReleaseRef.Some? {
          err := DeleteHelmRelease(server, m, namespace);
          if err.Some? { return; }
        }
        if m.status.kustomizationRef.Some? {
          err := DeleteKustomization(server, m, namespace);
          if err.Some? { return; }
        }
      }
      err := server.UpdateFinalizers(m.name, m.finalizers - {FINALIZER});
    }

    method ResolveNamespace(m: Module) returns (namespace: string)
      modifies server`faults
      ensures Resolved(server.Snapshot(), namespace) == ResolveCleanupNamespace(old(server.Snapshot()), m)
    {
      if m.status.helmReleaseRef.Some? && m.status.helmReleaseRef.value.namespace != "" {
        return m.status.helmReleaseRef.value.namespace;
      }
      if m.status.kustomizationRef.Some? && m.status.kustomizationRef.value.namespace != "" {
        return m.status.kustomizationRef.value.namespace;
      }
      if m.spec.namespace.Some? {
        return m.spec.namespace.value;
      }
      var fetched := server.FetchTemplate(m.spec.templateRef);
      namespace := if fetched.Err? then "" else fetched.value.namespace;
    }

    method HandleError(m: Module, e: Error, now: nat) returns (err: Option<Error>)
      modifies server`faults, server`modules
      ensures Ran(server.Snapshot(), err) == HandleModuleError(old(server.Snapshot()), m, e, now)
    {
      match e {
        case TemplateNotFound(_) =>
          SetReadyConditionFalse(m, "TemplateNotFound", now);
          err := None;
        case TemplateInvalid(_) =>
          SetReadyConditionFalse(m, "TemplateInvalid", now);
          err := None;
        case _ =>
          SetReadyConditionFalse(m, "ReconcileError", now);
          err := Some(e);
      }
    }

    method SetReadyConditionFalse(m: Module, reason: string, now: nat)
      modifies server`faults, server`modules
      ensures server.Snapshot() == PatchModuleStatus(old(server.Snapshot()), m.name, m.status,
                m.status.(observedGeneration := m.generation,
                          conditions := SetStatusCondition(m.status.conditions,
                            Condition(READY, False, reason, reason, m.generation, 0), now))).world
    {
      var failed := Condition(READY, False, reason, reason, m.generation, 0);
      var status := m.status.(conditions := SetStatusCondition(m.status.conditions, failed, now));
      status := status.(observedGeneration := m.generation);
      var _ := server.UpdateModuleStatus(m.name, m.status, status);
    }

    method UpdateStatus(m: Module, mt: ModuleTemplate, now: nat) returns (err: Option<Error>)
      modifies server`faults, server`modules
      ensures Ran(server.Snapshot(), err) == PublishModuleStatus(old(server.Snapshot()), m, mt, now)
    {
      var status := m.status.(observedGeneration := m.generation, templateGeneration := mt.generation);
      var targetNS := TargetNamespace(m, mt);
      if mt.helmRelease.Some? {
        status := status.(helmReleaseRef := Some(Ref(m.name, targetNS)), kustomizationRef := None);
      } else if mt.kustomization.Some? {
        status := status.(kustomizationRef := Some(Ref(m.name, targetNS)), helmReleaseRef := None);
      }
      var got := server.Get(FluxKey(m, mt));
      var report := Observe(FluxPrefix(mt), got);
      var ready := Condition(READY, report.status, report.reason, report.message, m.generation, 0);
      status := status.(conditions := SortByType(SetStatusCondition(status.conditions, ready, now)));
      if status != m.status {
        err := server.UpdateModuleStatus(m.name, m.status, status);
      } else {
        err := None;
      }
    }

    /** Requests for the listed Modules that reference the template, in list order. */
    method MapTemplateToModules(templateName: string, listed: Result<seq<Module>, Error>)
      returns (requests: seq<string>)
      ensures requests == if listed.Err? then [] else Referencing(listed.value, templateName)
    {
      requests := [];
      if listed.Err? {
        return;
      }
      var items := listed.value;
      for i := 0 to |items|
        invariant requests == Referencing(items[..i], templateName)
      {
        assert items[..i + 1][..i] == items[..i];
        if items[i].spec.templateRef == templateName {
          requests := requests + [items[i].name];
        }
      }
      assert items[..|items|] == items;
    }
  }

  /** The names of the modules that use a template. */
  function Referencing(items: seq<Module>, templateName: string): seq<string> {
    if items == [] then []
    else
      var last := items[|items| - 1];
      Referencing(items[..|items| - 1], templateName)
      + (if last.spec.templateRef == templateName then [last.name] else [])
  }

  lemma CleanupInOrder(world: World, m: Module, namespace: string)
    ensures RunOps(world, CleanupOps(m, namespace)) ==
      if namespace == "" then Ran(world, None)
      else
        var first :=
          if m.status.helmReleaseRef.Some? then Perform(world, Remove(Key(HelmReleaseKind, namespace, m.name)))
                     else Ran(world, None);
        if first.err.Some? || m.status.kustomizationRef.None? then first
        else Perform(first.world, Remove(Key(KustomizationKind, namespace, m.name)))
  {
    var a, b := Remove(Key(HelmReleaseKind, namespace, m.name)), Remove(Key(KustomizationKind, namespace, m.name));
    assert [a][1..] == [] && [b][1..] == [];
    if m.status.helmReleaseRef.Some? && m.status.kustomizationRef.Some? {
      RunOpsAppend(world, [a], [b]);
    }
  }
}
