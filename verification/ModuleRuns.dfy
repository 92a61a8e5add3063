/** What whole Module reconciles guarantee: status refs, exact cleanup, retries, mirroring, mapping, independence. */
module ModuleRuns {
  import opened Prelude
  import opened Metadata
  import opened Conditions
  import opened Objects
  import opened Cluster
  import opened Api
  import opened Server
  import opened OpRuns
  import opened ModuleResources
  import opened ModuleController

  /** At most one status ref, and it names a namespace. */
  predicate RefsOk(s: ModuleStatus) {
    !(s.helmReleaseRef.Some? && s.kustomizationRef.Some?)
    && (s.helmReleaseRef.Some? ==> s.helmReleaseRef.value.namespace != "")
    && (s.kustomizationRef.Some? ==> s.kustomizationRef.value.namespace != "")
  }

  /** The schema gives every module override and every template a non-empty namespace. */
  predicate ModuleOk(name: string, m: Module) {
    m.name == name && RefsOk(m.status) && UniqueTypes(m.status.conditions)
    && (m.spec.namespace.Some? ==> m.spec.namespace.value != "")
  }

  predicate WellStored(world: World) {
    (forall n :: n in world.modules ==> ModuleOk(n, world.modules[n]))
    && (forall t :: t in world.templates ==> world.templates[t].namespace != "")
  }

  lemma PatchKeepsWellStored(world: World, m: Module, desired: ModuleStatus)
    requires WellStored(world) && (m.name in world.modules ==> world.modules[m.name] == m)
    requires RefsOk(desired) && UniqueTypes(desired.conditions)
    ensures WellStored(PatchModuleStatus(world, m.name, m.status, desired).world)
  {
  }

  lemma FinalizersKeepWellStored(world: World, name: string, finalizers: set<string>)
    requires WellStored(world)
    ensures var r := PatchFinalizers(world, name, finalizers);
      WellStored(r.world) && r.world.templates == world.templates && r.world.store == world.store
  {
  }

  lemma ErrorKeepsWellStored(world: World, m: Module, e: Error, now: nat)
    requires WellStored(world) && m.name in world.modules && world.modules[m.name] == m
    ensures WellStored(HandleModuleError(world, m, e, now).world)
  {
    SetStatusConditionMembers(m.status.conditions,
      Condition(READY, False, ModuleReason(e), ModuleReason(e), m.generation, 0), now);
    PatchKeepsWellStored(world, m, FailedModuleStatus(m, e, now));
  }

  lemma SyncKeepsWellStored(world: World, m: Module, version: string, now: nat)
    requires WellStored(world) && m.name in world.modules && world.modules[m.name] == m
    ensures WellStored(SyncModule(world, m, version, now).world)
  {
    match GetTemplate(world, m.spec.templateRef)
    case Err(NotFound) => ErrorKeepsWellStored(Tick(world), m, TemplateNotFound(m.spec.templateRef), now);
    case Err(e) => ErrorKeepsWellStored(Tick(world), m, e, now);
    case Ok(mt) =>
      match FluxOp(m, mt, version)
      case None => ErrorKeepsWellStored(Tick(world), m, TemplateInvalid(mt.name), now);
      case Some(op) =>
        var written := Perform(Tick(world), op);
        if written.err.Some? {
          ErrorKeepsWellStored(written.world, m, written.err.value, now);
        } else {
          var report := Observe(FluxPrefix(mt), GetObject(written.world, FluxKey(m, mt)));
          PublishIsCanonical(m.status.conditions, ReadyFrom(m, report), now);
          PatchKeepsWellStored(Tick(written.world), m, NextModuleStatus(m, mt, report, now));
        }
  }

  lemma {:induction false} RunOpsKeepsModules(world: World, ops: seq<Op>)
    ensures RunOps(world, ops).world.modules == world.modules && RunOps(world, ops).world.templates == world.templates
    decreases |ops|
  {
    if ops == [] {
    } else if Perform(world, ops[0]).err.None? {
      RunOpsKeepsModules(Perform(world, ops[0]).world, ops[1..]);
    }
  }

  /** Every reconcile, however it fails, keeps at most one status ref per Module, with a namespace in it. */
  lemma ReconcileKeepsRefs(world: World, name: string, version: string, now: nat)
    requires WellStored(world)
    ensures WellStored(ReconcileModule(world, name, version, now).world)
  {
    if Head(world.faults) == Healthy && name in world.modules {
      var m := world.modules[name];
      if m.deleting {
        var resolved := ResolveCleanupNamespace(Tick(world), m);
        RunOpsKeepsModules(resolved.world, CleanupOps(m, resolved.namespace));
        FinalizersKeepWellStored(RunOps(resolved.world, CleanupOps(m, resolved.namespace)).world, name,
                                 m.finalizers - {FINALIZER});
      } else if FINALIZER in m.finalizers {
        SyncKeepsWellStored(Tick(world), m, version, now);
      } else {
        FinalizersKeepWellStored(Tick(world), name, m.finalizers + {FINALIZER});
        var guarded := PatchFinalizers(Tick(world), name, m.finalizers + {FINALIZER});
        if guarded.err.None? { SyncKeepsWellStored(guarded.world, guarded.world.modules[name], version, now); }
      }
    }
  }

  /** The object that the status refs name. */
  function Target(m: Module): set<Key> {
    if m.status.helmReleaseRef.Some? then {Key(HelmReleaseKind, m.status.helmReleaseRef.value.namespace, m.name)}
    else if m.status.kustomizationRef.Some? then
      {Key(KustomizationKind, m.status.kustomizationRef.value.namespace, m.name)}
    else {}
  }

  predicate Guarded(modules: map<string, Module>, name: string) {
    name in modules && "addons.otterscale.io/module-cleanup" in modules[name].finalizers
  }

  function Purged(c: Store, m: Module): Store {
    c.(objects := c.objects - Target(m))
  }

  /** A deleting Module without the finalizer: gone if that was its last one. */
  function Released(world: World, m: Module): map<string, Module> {
    if m.finalizers <= {FINALIZER} then world.modules - {m.name}
    else world.modules[m.name := m.(finalizers := m.finalizers - {FINALIZER})]
  }

  /** Cleanup removes exactly the referenced object, and lets go of the Module only after that. */
  lemma CleanupIsExact(world: World, m: Module)
    requires m.name in world.modules && world.modules[m.name] == m
    requires m.deleting && FINALIZER in m.finalizers && RefsOk(m.status)
    ensures var r := DeleteModule(world, m);
      (forall key :: key !in Target(m) ==> ObjectAt(r.world.store, key) == ObjectAt(world.store, key))
      && (!Guarded(r.world.modules, m.name) ==>
          r.world.store == Purged(world.store, m) && r.world.modules == Released(world, m))
      && (Guarded(r.world.modules, m.name) ==>
            r.err.Some? && r.world.modules == world.modules && r.world.store in {world.store, Purged(world.store, m)})
      && r.world.templates == world.templates
      && (world.faults == [] ==> r.err.None? && r.world.faults == [])
  {
    var resolved := ResolveCleanupNamespace(world, m);
    var ops := CleanupOps(m, resolved.namespace);
    CleanupRun(resolved.world, m, resolved.namespace);
    var cleaned := RunOps(resolved.world, ops);
    if cleaned.err.None? {
      ReleaseOutcome(cleaned.world, m);
      assert Released(world, m) == Released(cleaned.world, m);
    }
    forall key | key !in Target(m)
      ensures ObjectAt(DeleteModule(world, m).world.store, key) == ObjectAt(world.store, key)
    {
    }
  }

  lemma ReleaseOutcome(world: World, m: Module)
    requires m.name in world.modules && world.modules[m.name] == m && m.deleting && FINALIZER in m.finalizers
    ensures var r := PatchFinalizers(world, m.name, m.finalizers - {FINALIZER});
      r.world == world.(modules := r.world.modules, faults := Rest(world.faults))
      && (if Guarded(r.world.modules, m.name) then r.err.Some? && r.world.modules == world.modules
          else r.world.modules == Released(world, m))
      && (world.faults == [] ==> r.err.None?)
  {
  }

  lemma CleanupRun(world: World, m: Module, namespace: string)
    requires RefsOk(m.status)
    requires m.status.helmReleaseRef.Some? ==> namespace == m.status.helmReleaseRef.value.namespace
    requires m.status.kustomizationRef.Some? ==> namespace == m.status.kustomizationRef.value.namespace
    ensures var r := RunOps(world, CleanupOps(m, namespace));
      r.world == world.(store := r.world.store, faults := r.world.faults)
      && r.world.store in {world.store, Purged(world.store, m)}
      && (r.err.None? ==> r.world.store == Purged(world.store, m))
      && (world.faults == [] ==> r.err.None? && r.world.faults == [])
  {
    CleanupInOrder(world, m, namespace);
    if Target(m) == {} {
      assert world.store.objects - {} == world.store.objects;
    }
  }

  /** Deletion attempts one after the other, each under its own faults. */
  function Retried(world: World, name: string, version: string, now: nat, scripts: seq<seq<Fault>>): World
    decreases |scripts|
  {
    if scripts == [] then world
    else Retried(ReconcileModule(world.(faults := scripts[0]), name, version, now).world, name, version, now,
                 scripts[1..])
  }

  predicate SameCluster(a: World, b: World) {
    a.store == b.store && a.modules == b.modules && a.templates == b.templates
  }

  /** A released or vanished Module is left alone by every later attempt. */
  lemma {:induction false} ReleasedStays(world: World, name: string, version: string, now: nat,
                                         scripts: seq<seq<Fault>>)
    requires !Guarded(world.modules, name) && (name in world.modules ==> world.modules[name].deleting)
    ensures SameCluster(Retried(world, name, version, now, scripts), world)
    ensures SameCluster(ReconcileModule(world.(faults := []), name, version, now).world, world)
    decreases |scripts|
  {
    if scripts == [] {
    } else {
      ReleasedStays(ReconcileModule(world.(faults := scripts[0]), name, version, now).world, name, version, now,
                    scripts[1..]);
    }
  }

  /** One failed attempt leaves a deletion whose clean completion is the same. */
  lemma AttemptKeepsGoal(world: World, m: Module, version: string, now: nat, script: seq<Fault>)
    requires m.name in world.modules && world.modules[m.name] == m && m.deleting
    requires Guarded(world.modules, m.name) && RefsOk(m.status)
    ensures var next := ReconcileModule(world.(faults := script), m.name, version, now).world;
      next.templates == world.templates && Purged(next.store, m) == Purged(world.store, m)
      && (if Guarded(next.modules, m.name) then next.modules == world.modules
          else next.modules == Released(world, m) && next.store == Purged(world.store, m))
  {
    var start := world.(faults := script);
    CleanupIsExact(Tick(start), m);
    assert Purged(Purged(world.store, m), m) == Purged(world.store, m);
    assert Released(Tick(start), m) == Released(world, m);
  }

  lemma CleanAttempt(world: World, m: Module, version: string, now: nat)
    requires m.name in world.modules && world.modules[m.name] == m && m.deleting
    requires Guarded(world.modules, m.name) && RefsOk(m.status)
    ensures var next := ReconcileModule(world.(faults := []), m.name, version, now).world;
      next.templates == world.templates && next.store == Purged(world.store, m) && next.modules == Released(world, m)
      && !Guarded(next.modules, m.name)
  {
    var start := world.(faults := []);
    assert Tick(start) == start;
    CleanupIsExact(start, m);
    assert Released(start, m) == Released(world, m);
  }

  /** However often a deletion fails on the way, the retry that completes gives what one clean deletion gives. */
  lemma {:induction false} DeletionIsRetryable(world: World, name: string, version: string, now: nat,
                                               scripts: seq<seq<Fault>>)
    requires name in world.modules && world.modules[name].name == name && world.modules[name].deleting
    requires Guarded(world.modules, name) && RefsOk(world.modules[name].status)
    ensures SameCluster(
              ReconcileModule(Retried(world, name, version, now, scripts).(faults := []), name, version, now).world,
                        ReconcileModule(world.(faults := []), name, version, now).world)
    ensures ReconcileModule(world.(faults := []), name, version, now).world.store
        == Purged(world.store, world.modules[name])
    ensures !Guarded(ReconcileModule(world.(faults := []), name, version, now).world.modules, name)
    decreases |scripts|
  {
    var m := world.modules[name];
    CleanAttempt(world, m, version, now);
    if scripts == [] {
    } else {
      AttemptKeepsGoal(world, m, version, now, scripts[0]);
      var next := ReconcileModule(world.(faults := scripts[0]), name, version, now).world;
      if Guarded(next.modules, name) {
        DeletionIsRetryable(next, name, version, now, scripts[1..]);
        CleanAttempt(next, m, version, now);
      } else {
        ReleasedStays(next, name, version, now, scripts[1..]);
      }
    }
  }

  /** Ready says what the object's own Ready says, its reason prefixed with the kind, for this generation. */
  predicate Mirrors(status: ModuleStatus, m: Module, mt: ModuleTemplate, o: Object) {
    var kind := if mt.helmRelease.Some? then "HelmRelease" else "Kustomization";
    match FluxReadyOf(o.payload)
    case Some(own) => ReadySays(status.conditions, own.status, kind + own.reason, own.message, m.generation)
    case None =>
      ReadySays(status.conditions, Unknown, kind + "Pending", kind + " has no Ready condition yet", m.generation)
  }

  /** Ready says that the object could not be read. */
  predicate SaysGetFailed(status: ModuleStatus, m: Module, mt: ModuleTemplate) {
    var kind := if mt.helmRelease.Some? then "HelmRelease" else "Kustomization";
    ReadySays(status.conditions, Unknown, kind + "GetError", "get failed", m.generation)
  }

  /** Ready says that the object is not there. */
  predicate SaysNotFound(status: ModuleStatus, m: Module, mt: ModuleTemplate) {
    var kind := if mt.helmRelease.Some? then "HelmRelease" else "Kustomization";
    ReadySays(status.conditions, False, kind + "NotFound", "waiting for " + kind + " to be created", m.generation)
  }

  /** The rest of a published status: both generations, the one ref, and a canonical condition list. */
  predicate Published(status: ModuleStatus, m: Module, mt: ModuleTemplate) {
    var ref := Some(Ref(m.name, if m.spec.namespace.Some? then m.spec.namespace.value else mt.namespace));
    status.observedGeneration == m.generation && status.templateGeneration == mt.generation
    && status.helmReleaseRef == (if mt.helmRelease.Some? then ref else None)
    && status.kustomizationRef == (if mt.helmRelease.Some? then None else ref)
    && Canonical(status.conditions)
  }

  const LOST := FluxReady(Unknown, "GetError", "get failed")

  lemma PublishedStatus(world: World, m: Module, mt: ModuleTemplate, now: nat)
    requires WellStored(world) && m.name in world.modules && world.modules[m.name] == m
    requires PublishModuleStatus(world, m, mt, now).err.None?
    ensures var report := Observe(FluxPrefix(mt), GetObject(world, FluxKey(m, mt)));
      var after := PublishModuleStatus(world, m, mt, now).world.modules;
      m.name in after && after[m.name] == m.(status := NextModuleStatus(m, mt, report, now))
  {
  }

  lemma NextStatusReports(m: Module, mt: ModuleTemplate, report: Report, now: nat)
    requires UniqueTypes(m.status.conditions)
    ensures var next := NextModuleStatus(m, mt, report, now);
      ReadySays(next.conditions, report.status, report.reason, report.message, m.generation)
      && (mt.helmRelease.Some? || mt.kustomization.Some? ==> Published(next, m, mt))
  {
    PublishIsCanonical(m.status.conditions, ReadyFrom(m, report), now);
  }

  /**
   * A published status mirrors the object exactly when the observing Get succeeded, or the object itself says what a
   * failed Get is reported as: when the Get fails the reconcile still succeeds, with Ready Unknown and no retry.
   */
  lemma ReadyMirrorsIffObserved(world: World, m: Module, mt: ModuleTemplate, now: nat)
    requires WellStored(world) && m.name in world.modules && world.modules[m.name] == m
    requires RequiredKey(m, mt) in world.store.objects
    requires PublishModuleStatus(world, m, mt, now).err.None?
    ensures var after := PublishModuleStatus(world, m, mt, now).world.modules;
      var o := world.store.objects[RequiredKey(m, mt)];
      m.name in after
      && (Mirrors(after[m.name].status, m, mt, o)
          <==> Head(world.faults) == Healthy || FluxReadyOf(o.payload) == Some(LOST))
  {
    PublishedStatus(world, m, mt, now);
    StatusMirrorsIff(world, m, mt, now);
  }

  lemma StatusMirrorsIff(world: World, m: Module, mt: ModuleTemplate, now: nat)
    requires UniqueTypes(m.status.conditions) && RequiredKey(m, mt) in world.store.objects
    ensures var o := world.store.objects[RequiredKey(m, mt)];
      var report := Observe(FluxPrefix(mt), GetObject(world, FluxKey(m, mt)));
      Mirrors(NextModuleStatus(m, mt, report, now), m, mt, o) <==>
        (Head(world.faults) == Healthy || FluxReadyOf(o.payload) == Some(LOST))
  {
    var report := Observe(FluxPrefix(mt), GetObject(world, FluxKey(m, mt)));
    NextStatusReports(m, mt, report, now);
    LostReport(FluxPrefix(mt), world.store.objects[FluxKey(m, mt)]);
  }

  lemma LostReport(prefix: string, o: Object)
    ensures Observe(prefix, Ok(o)) == Observe(prefix, Err(Transient)) <==> FluxReadyOf(o.payload) == Some(LOST)
    ensures prefix + "Pending" != prefix + "GetError"
  {
    assert |prefix + "Pending"| == |prefix| + 7 && |prefix + "GetError"| == |prefix| + 8;
    if FluxReadyOf(o.payload).Some? {
      var own := FluxReadyOf(o.payload).value;
      assert (prefix + own.reason)[|prefix|..] == own.reason;
      assert (prefix + "GetError")[|prefix|..] == "GetError";
    }
  }

  /**
   * What is published when the object is not seen: a failing Get is reported as such, whether or not the object exists;
   * a healthy Get of an absent object reports it as not found, and these two reports exclude each other.
   */
  lemma UnseenIsReported(world: World, m: Module, mt: ModuleTemplate, now: nat)
    requires WellStored(world) && m.name in world.modules && world.modules[m.name] == m
    requires PublishModuleStatus(world, m, mt, now).err.None?
    ensures var after := PublishModuleStatus(world, m, mt, now).world.modules;
      m.name in after
      && (Head(world.faults) != Healthy ==> SaysGetFailed(after[m.name].status, m, mt))
      && (RequiredKey(m, mt) !in world.store.objects ==>
            (SaysNotFound(after[m.name].status, m, mt) <==> Head(world.faults) == Healthy)
            && (SaysGetFailed(after[m.name].status, m, mt) <==> Head(world.faults) != Healthy))
  {
    PublishedStatus(world, m, mt, now);
    NextStatusReports(m, mt, Observe(FluxPrefix(mt), GetObject(world, FluxKey(m, mt))), now);
  }

  /**
   * A failure is recorded, under its own reason, exactly when its status patch reaches the server (or it was recorded
   * already); the error of that patch is dropped, and exactly a missing and an invalid template are not retried.
   */
  lemma FailureIsRecordedIff(world: World, m: Module, e: Error, now: nat)
    requires WellStored(world) && m.name in world.modules && world.modules[m.name] == m
    ensures var reason := if e.TemplateNotFound? then "TemplateNotFound"
                          else if e.TemplateInvalid? then "TemplateInvalid" else "ReconcileError";
      var r := HandleModuleError(world, m, e, now);
      m.name in r.world.modules && r.world == world.(modules := r.world.modules, faults := Rest(world.faults))
      && (ReadySays(r.world.modules[m.name].status.conditions, False, reason, reason, m.generation) <==>
            (Head(world.faults) != Rejected || ReadySays(m.status.conditions, False, reason, reason, m.generation)))
      && (Head(world.faults) != Rejected ==> r.world.modules[m.name].status.observedGeneration == m.generation)
      && r.err == if e.TemplateNotFound? || e.TemplateInvalid? then None else Some(e)
  {
    var failed := Condition(READY, False, ModuleReason(e), ModuleReason(e), m.generation, 0);
    TransitionMovesWithStatus(m.status.conditions, failed, now);
  }

  /** A write of a Flux object fails for passing reasons only. */
  lemma WritesFailPassing(world: World, m: Module, mt: ModuleTemplate, version: string)
    requires FluxOp(m, mt, version).Some? && Perform(world, FluxOp(m, mt, version).value).err.Some?
    ensures !IsPermanent(Perform(world, FluxOp(m, mt, version).value).err.value)
  {
  }

  /** And when it does not fail, the object is as the template and the Module require. */
  lemma WriteMakesFlux(world: World, m: Module, mt: ModuleTemplate, version: string)
    requires FluxOp(m, mt, version).Some? && Perform(world, FluxOp(m, mt, version).value).err.None?
    ensures FluxIs(Perform(world, FluxOp(m, mt, version).value).world.store, m, mt, version)
  {
    var op := FluxOp(m, mt, version).value;
    CallIsAllOrNothing(world.store, world.faults, op);
    ApplySettles(world.store, op);
    FluxSettled(ApplyOp(world.store, op).value, m, mt, version);
  }

  /** The template is there and defines a HelmRelease or a Kustomization. */
  predicate Usable(templates: map<string, ModuleTemplate>, name: string) {
    name in templates && (templates[name].helmRelease.Some? || templates[name].kustomization.Some?)
  }

  /** Object and status are as the template asks, and Ready mirrors the object or says that it was not read. */
  predicate InSync(c: Store, status: ModuleStatus, m: Module, mt: ModuleTemplate, version: string) {
    FluxIs(c, m, mt, version) && Published(status, m, mt)
    && (SaysGetFailed(status, m, mt) || Mirrors(status, m, mt, c.objects[RequiredKey(m, mt)]))
  }

  lemma PublishedInSync(world: World, m: Module, mt: ModuleTemplate, version: string, now: nat)
    requires WellStored(world) && m.name in world.modules && world.modules[m.name] == m
    requires FluxIs(world.store, m, mt, version) && PublishModuleStatus(world, m, mt, now).err.None?
    ensures var after := PublishModuleStatus(world, m, mt, now).world;
      m.name in after.modules && after.modules[m.name] == m.(status := after.modules[m.name].status)
      && after.store == world.store && InSync(after.store, after.modules[m.name].status, m, mt, version)
      && (Head(world.faults) == Healthy ==>
            Mirrors(after.modules[m.name].status, m, mt, after.store.objects[RequiredKey(m, mt)]))
  {
    PublishedStatus(world, m, mt, now);
    NextStatusReports(m, mt, Observe(FluxPrefix(mt), GetObject(world, FluxKey(m, mt))), now);
    UnseenIsReported(world, m, mt, now);
    ReadyMirrorsIffObserved(world, m, mt, now);
  }

  /** A sync without an error: parked on its template, or in sync with it. */
  lemma SyncSucceeds(world: World, m: Module, version: string, now: nat)
    requires WellStored(world) && m.name in world.modules && world.modules[m.name] == m
    requires SyncModule(world, m, version, now).err.None?
    ensures var after := SyncModule(world, m, version, now).world;
      m.name in after.modules && after.modules[m.name] == m.(status := after.modules[m.name].status)
      && after.templates == world.templates
      && (if !Usable(world.templates, m.spec.templateRef) then after.store == world.store
          else InSync(after.store, after.modules[m.name].status, m, world.templates[m.spec.templateRef], version))
  {
    if Head(world.faults) == Healthy && Usable(world.templates, m.spec.templateRef) {
      var mt := world.templates[m.spec.templateRef];
      var written := Perform(Tick(world), FluxOp(m, mt, version).value);
      if written.err.Some? {
        WritesFailPassing(Tick(world), m, mt, version);
      } else {
        WriteMakesFlux(Tick(world), m, mt, version);
        PublishedInSync(written.world, m, mt, version, now);
      }
    }
  }

  /**
   * What success means, under any faults. A reconcile that returns no error leaves its Module absent; or, if it is
   * deleting, released, its referenced object gone if it had the finalizer; or else with the finalizer and in sync,
   * unless its template is missing or defines neither kind, and then it has written no object.
   */
  lemma SuccessSyncs(world: World, name: string, version: string, now: nat)
    requires WellStored(world) && ReconcileModule(world, name, version, now).err.None?
    ensures var after := ReconcileModule(world, name, version, now).world;
      if name !in world.modules then name !in after.modules && after.store == world.store
      else
        var m := world.modules[name];
        if m.deleting then
          !Guarded(after.modules, name)
          && after.store == if Guarded(world.modules, name) then Purged(world.store, m) else world.store
        else
          Guarded(after.modules, name) && after.modules[name].spec == m.spec
          && if !Usable(world.templates, m.spec.templateRef) then after.store == world.store
             else InSync(after.store, after.modules[name].status, m, world.templates[m.spec.templateRef], version)
  {
    if name in world.modules {
      var m := world.modules[name];
      if m.deleting {
        if FINALIZER in m.finalizers {
          CleanupIsExact(Tick(world), m);
        }
      } else if FINALIZER in m.finalizers {
        SyncSucceeds(Tick(world), m, version, now);
      } else {
        FinalizersKeepWellStored(Tick(world), name, m.finalizers + {FINALIZER});
        var guarded := PatchFinalizers(Tick(world), name, m.finalizers + {FINALIZER}).world;
        SyncSucceeds(guarded, guarded.modules[name], version, now);
      }
    }
  }

  /** The API server refuses the Flux write: somebody else controls the object, or its namespace does not exist. */
  predicate Refused(c: Store, m: Module, mt: ModuleTemplate) {
    var key := RequiredKey(m, mt);
    if key in c.objects then ControlledByOther(c.objects[key].owners, ModuleOwner, m.name)
    else key.namespace != "" && Key(NamespaceKind, "", key.namespace) !in c.objects
  }

  lemma CleanSync(world: World, m: Module, version: string, now: nat)
    requires WellStored(world) && m.name in world.modules && world.modules[m.name] == m && world.faults == []
    ensures var r := SyncModule(world, m, version, now);
      (r.err.Some? <==>
         Usable(world.templates, m.spec.templateRef) && Refused(world.store, m, world.templates[m.spec.templateRef]))
      && (r.err.None? && Usable(world.templates, m.spec.templateRef) ==>
            m.name in r.world.modules && RequiredKey(m, world.templates[m.spec.templateRef]) in r.world.store.objects
            && Mirrors(r.world.modules[m.name].status, m, world.templates[m.spec.templateRef],
                       r.world.store.objects[RequiredKey(m, world.templates[m.spec.templateRef])]))
  {
    assert Tick(world) == world;
    if Usable(world.templates, m.spec.templateRef) {
      var mt := world.templates[m.spec.templateRef];
      var op := FluxOp(m, mt, version).value;
      EnsureSucceedsIff(world.store, op.key, op.mutation);
      CallIsAllOrNothing(world.store, [], op);
      var written := Perform(world, op);
      if written.err.Some? {
        WritesFailPassing(world, m, mt, version);
      } else {
        WriteMakesFlux(world, m, mt, version);
        PublishedInSync(written.world, m, mt, version, now);
      }
    }
  }

  /**
   * When no call fails, an error is returned exactly when the API server refuses the Flux write of a Module that is not
   * deleting and has a usable template; and success with such a template means that Ready mirrors the object.
   */
  lemma CleanRunFailsIff(world: World, name: string, version: string, now: nat)
    requires WellStored(world) && world.faults == []
    ensures var r := ReconcileModule(world, name, version, now);
      if name !in world.modules || world.modules[name].deleting
         || !Usable(world.templates, world.modules[name].spec.templateRef) then r.err.None?
      else
        var m := world.modules[name];
        var mt := world.templates[m.spec.templateRef];
        (r.err.Some? <==> Refused(world.store, m, mt))
        && (r.err.None? ==>
              name in r.world.modules && RequiredKey(m, mt) in r.world.store.objects
              && Mirrors(r.world.modules[name].status, m, mt, r.world.store.objects[RequiredKey(m, mt)]))
  {
    assert Tick(world) == world;
    if name in world.modules {
      var m := world.modules[name];
      if m.deleting {
        if FINALIZER in m.finalizers {
          CleanupIsExact(world, m);
        }
      } else if FINALIZER in m.finalizers {
        CleanSync(world, m, version, now);
      } else {
        FinalizersKeepWellStored(world, name, m.finalizers + {FINALIZER});
        var guarded := PatchFinalizers(world, name, m.finalizers + {FINALIZER}).world;
        CleanSync(guarded, guarded.modules[name], version, now);
      }
    }
  }

  lemma MirroringStatusIsKept(m: Module, mt: ModuleTemplate, o: Object, now: nat)
    requires mt.helmRelease.Some? || mt.kustomization.Some?
    requires Published(m.status, m, mt) && Mirrors(m.status, m, mt, o)
    ensures NextModuleStatus(m, mt, Observe(FluxPrefix(mt), Ok(o)), now) == m.status
  {
    FindInList(m.status.conditions, READY);
    PublishFixedPoint(m.status.conditions, ReadyFrom(m, Observe(FluxPrefix(mt), Ok(o))), now);
  }

  /** In sync, with Ready mirroring the object. */
  predicate Mirroring(c: Store, m: Module, mt: ModuleTemplate, version: string) {
    (mt.helmRelease.Some? || mt.kustomization.Some?) && FluxIs(c, m, mt, version) && Published(m.status, m, mt)
    && Mirrors(m.status, m, mt, c.objects[RequiredKey(m, mt)])
  }

  lemma SettledReportIsSilent(world: World, m: Module, mt: ModuleTemplate, version: string, now: nat)
    requires Mirroring(world.store, m, mt, version) && Head(world.faults) == Healthy
    ensures PublishModuleStatus(world, m, mt, now) == Ran(Tick(world), None)
  {
    MirroringStatusIsKept(m, mt, world.store.objects[RequiredKey(m, mt)], now);
  }

  lemma SettledWriteIsSilent(world: World, m: Module, mt: ModuleTemplate, version: string)
    requires Mirroring(world.store, m, mt, version) && Head(world.faults) == Healthy
    ensures FluxOp(m, mt, version).Some?
    ensures Perform(world, FluxOp(m, mt, version).value) == Ran(Tick(world), None)
  {
    FluxSettled(world.store, m, mt, version);
    SettledOpIsOneCall(world.store, world.faults, FluxOp(m, mt, version).value);
  }

  /** A sync whose template is there and whose write succeeds ends as its report does. */
  lemma SyncEndsWithReport(world: World, m: Module, mt: ModuleTemplate, version: string, now: nat, written: World)
    requires GetTemplate(world, m.spec.templateRef) == Ok(mt) && FluxOp(m, mt, version).Some?
    requires Perform(Tick(world), FluxOp(m, mt, version).value) == Ran(written, None)
    ensures SyncModule(world, m, version, now) == PublishModuleStatus(written, m, mt, now)
  {
  }

  lemma SettledSyncIsSilent(world: World, m: Module, mt: ModuleTemplate, version: string, now: nat)
    requires Mirroring(world.store, m, mt, version) && GetTemplate(world, m.spec.templateRef) == Ok(mt)
    requires Head(Rest(world.faults)) == Healthy && Head(Rest(Rest(world.faults))) == Healthy
    ensures SyncModule(world, m, version, now) == Ran(Tick(Tick(Tick(world))), None)
  {
    SettledWriteIsSilent(Tick(world), m, mt, version);
    SyncEndsWithReport(world, m, mt, version, now, Tick(Tick(world)));
    SettledReportIsSilent(Tick(Tick(world)), m, mt, version, now);
  }

  lemma FourCalls(faults: seq<Fault>)
    requires HealthyFor(faults, 4)
    ensures var rest := Rest(faults);
      Head(faults) == Healthy && Head(rest) == Healthy && Head(Rest(rest)) == Healthy
      && Head(Rest(Rest(rest))) == Healthy && AfterCalls(faults, 4) == Rest(Rest(Rest(rest)))
  {
    var rest := Rest(faults);
    assert HealthyFor(rest, 3) && HealthyFor(Rest(rest), 2) && HealthyFor(Rest(Rest(rest)), 1);
    assert AfterCalls(rest, 3) == AfterCalls(Rest(rest), 2) == AfterCalls(Rest(Rest(rest)), 1);
  }

  lemma ReconcileEndsWithSync(world: World, name: string, version: string, now: nat)
    requires Head(world.faults) == Healthy && Guarded(world.modules, name) && !world.modules[name].deleting
    ensures ReconcileModule(world, name, version, now) == SyncModule(Tick(world), world.modules[name], version, now)
  {
  }

  /**
   * Over a guarded Module in sync whose Ready mirrors its object, a run whose four calls go well changes nothing. They
   * get the Module, the template, and the object twice, to write it and to observe it: none is a status patch.
   */
  lemma SettledRunIsSilent(world: World, name: string, version: string, now: nat)
    requires Guarded(world.modules, name) && !world.modules[name].deleting
    requires HealthyFor(world.faults, 4) && Usable(world.templates, world.modules[name].spec.templateRef)
    requires Mirroring(world.store, world.modules[name], world.templates[world.modules[name].spec.templateRef], version)
    ensures ReconcileModule(world, name, version, now) == Ran(world.(faults := AfterCalls(world.faults, 4)), None)
  {
    var m := world.modules[name];
    FourCalls(world.faults);
    ReconcileEndsWithSync(world, name, version, now);
    SettledSyncIsSilent(Tick(world), m, world.templates[m.spec.templateRef], version, now);
  }

  /** Cleanup asks the status refs first, then the override, and calls the server only as the last resort. */
  lemma RefsDecideCleanup(world: World, m: Module)
    ensures var r := ResolveCleanupNamespace(world, m);
      var helm, kustomization := m.status.helmReleaseRef, m.status.kustomizationRef;
      if exists ref :: ref in {helm, kustomization} && ref.Some? && ref.value.namespace != "" then
        r.world == world && r.namespace != ""
        && (helm.Some? && helm.value.namespace != "" ==> Some(Ref(helm.value.name, r.namespace)) == helm)
        && (helm.None? || helm.value.namespace == "" ==>
              Some(Ref(kustomization.value.name, r.namespace)) == kustomization)
      else if m.spec.namespace.Some? then r == Resolved(world, m.spec.namespace.value)
      else
        r.world == world.(faults := Rest(world.faults))
        && (Head(world.faults) == Healthy && m.spec.templateRef in world.templates ==>
              r.namespace == world.templates[m.spec.templateRef].namespace)
        && (Head(world.faults) != Healthy || m.spec.templateRef !in world.templates ==> r.namespace == "")
  {
  }

  lemma {:induction false} ReferencingMembers(items: seq<Module>, templateName: string, n: string)
    ensures n in Referencing(items, templateName)
       <==> exists i :: 0 <= i < |items| && items[i].name == n && items[i].spec.templateRef == templateName
    decreases |items|
  {
    if items == [] {
    } else {
      var k := |items| - 1;
      ReferencingMembers(items[..k], templateName, n);
      assert forall i :: 0 <= i < k ==> items[..k][i] == items[i];
      if items[k].name == n && items[k].spec.templateRef == templateName {
        assert n in Referencing(items, templateName);
      }
    }
  }

  /** Every referencing Module is requested, at the place its predecessors in the list leave it. */
  lemma {:induction false} ReferencingKeepsListOrder(items: seq<Module>, templateName: string, i: nat)
    requires i < |items| && items[i].spec.templateRef == templateName
    ensures |Referencing(items[..i], templateName)| < |Referencing(items, templateName)|
    ensures Referencing(items, templateName)[|Referencing(items[..i], templateName)|] == items[i].name
    decreases |items|
  {
    var k := |items| - 1;
    if i < k {
      ReferencingKeepsListOrder(items[..k], templateName, i);
      assert items[..k][..i] == items[..i];
    }
  }

  lemma {:induction false} ReferencingHasNoDuplicates(items: seq<Module>, templateName: string)
    requires forall i, j :: 0 <= i < j < |items| ==> items[i].name != items[j].name
    ensures var r := Referencing(items, templateName); forall i, j :: 0 <= i < j < |r| ==> r[i] != r[j]
    decreases |items|
  {
    if items == [] {
    } else {
      var k := |items| - 1;
      ReferencingHasNoDuplicates(items[..k], templateName);
      ReferencingMembers(items[..k], templateName, items[k].name);
      var r := Referencing(items[..k], templateName);
      assert items[k].name !in r;
    }
  }

  /** Modules with distinct names do not interfere, even with one template and one target namespace. */
  lemma DistinctModulesCommute(c: Store, m: Module, mt: ModuleTemplate, n: Module, nt: ModuleTemplate, version: string)
    requires m.name != n.name && FluxOp(m, mt, version).Some? && FluxOp(n, nt, version).Some?
    ensures var a, b := [FluxOp(m, mt, version).value], [FluxOp(n, nt, version).value];
      Sync(Sync(c, a).store, b).store == Sync(Sync(c, b).store, a).store
      && Sync(Sync(c, a).store, b).err == Sync(c, b).err && Sync(Sync(c, b).store, a).err == Sync(c, a).err
  {
    IndependentRunsCommute(c, [FluxOp(m, mt, version).value], [FluxOp(n, nt, version).value]);
  }
}
