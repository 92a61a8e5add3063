/** Reconciles of different Workspaces, or of different Modules, do not interfere: whole reconciles commute. */
module NonInterference {
  import opened Prelude
  import opened Metadata
  import opened Conditions
  import opened Objects
  import opened Cluster
  import opened Api
  import opened Server
  import opened OpRuns
  import opened WorkspaceController
  import WorkspaceRuns
  import opened ModuleResources
  import opened ModuleController
  import ModuleRuns

  /** The part of the cluster that one reconcile is about. */
  datatype Scope = OfWorkspace(name: string, namespace: string) | OfModule(name: string)

  predicate Writes(scope: Scope, key: Key) {
    match scope
    case OfWorkspace(_, ns) => key == NamespaceKey(ns) || key.namespace == ns
    case OfModule(name) => IsFlux(key.kind) && key.name == name
  }

  /** A Module also looks whether its target namespace exists. */
  predicate Reads(scope: Scope, key: Key) {
    Writes(scope, key) || (scope.OfModule? && key.kind == NamespaceKind)
  }

  predicate SameAt<V(==)>(a: map<string, V>, b: map<string, V>, name: string) {
    (name in a <==> name in b) && (name in a ==> a[name] == b[name])
  }

  ghost predicate StoresAlike(scope: Scope, c: Store, d: Store) {
    c.istioServed == d.istioServed
    && forall key :: Reads(scope, key) ==> ObjectAt(c, key) == ObjectAt(d, key)
  }

  ghost predicate StoresUntouched(scope: Scope, c: Store, d: Store) {
    c.istioServed == d.istioServed
    && forall key :: !Writes(scope, key) ==> ObjectAt(c, key) == ObjectAt(d, key)
  }

  /** Two worlds that look the same from within the scope. */
  ghost predicate Alike(scope: Scope, a: World, b: World) {
    a.faults == b.faults && a.templates == b.templates && StoresAlike(scope, a.store, b.store)
    && (scope.OfWorkspace? ==> SameAt(a.workspaces, b.workspaces, scope.name))
    && (scope.OfModule? ==> SameAt(a.modules, b.modules, scope.name))
  }

  /** Nothing outside the scope differs. */
  ghost predicate Untouched(scope: Scope, a: World, b: World) {
    a.templates == b.templates && StoresUntouched(scope, a.store, b.store)
    && (if scope.OfWorkspace? then SameBut(a.workspaces, b.workspaces, scope.name) else a.workspaces == b.workspaces)
    && (if scope.OfModule? then SameBut(a.modules, b.modules, scope.name) else a.modules == b.modules)
  }

  ghost predicate SameBut<V>(a: map<string, V>, b: map<string, V>, name: string) {
    forall n :: n != name ==> SameAt(a, b, n)
  }

  /** An operation inside the scope. */
  predicate Within(scope: Scope, op: Op) {
    Writes(scope, op.key) && (op.key.namespace != "" ==> Reads(scope, NamespaceKey(op.key.namespace)))
  }

  lemma CallIsLocal(scope: Scope, c: Store, d: Store, faults: seq<Fault>, op: Op)
    requires StoresAlike(scope, c, d) && Within(scope, op)
    ensures var r, q := CallOp(c, faults, op), CallOp(d, faults, op);
      r.err == q.err && r.faults == q.faults && ObjectAt(r.store, op.key) == ObjectAt(q.store, op.key)
  {
    assert ObjectAt(c, op.key) == ObjectAt(d, op.key);
    if op.key.namespace != "" {
      assert ObjectAt(c, NamespaceKey(op.key.namespace)) == ObjectAt(d, NamespaceKey(op.key.namespace));
    }
  }

  lemma CallFrames(c: Store, faults: seq<Fault>, op: Op)
    ensures var r := CallOp(c, faults, op);
      r.store.istioServed == c.istioServed && forall key :: key != op.key ==> ObjectAt(r.store, key) == ObjectAt(c, key)
  {
    CallIsAllOrNothing(c, faults, op);
    if ApplyOp(c, op).Ok? {
      ApplySettles(c, op);
    }
  }

  lemma PerformIsLocal(scope: Scope, a: World, b: World, op: Op)
    requires Alike(scope, a, b) && Within(scope, op)
    ensures Perform(a, op).err == Perform(b, op).err
    ensures Alike(scope, Perform(a, op).world, Perform(b, op).world)
    ensures Untouched(scope, a, Perform(a, op).world)
  {
    CallIsLocal(scope, a.store, b.store, a.faults, op);
    CallFrames(a.store, a.faults, op);
    CallFrames(b.store, b.faults, op);
    var c, d := Perform(a, op).world.store, Perform(b, op).world.store;
    forall key | Reads(scope, key) ensures ObjectAt(c, key) == ObjectAt(d, key) {
      if key != op.key {
        assert ObjectAt(a.store, key) == ObjectAt(b.store, key);
      }
    }
  }

  lemma UntouchedChains(scope: Scope, a: World, b: World, c: World)
    requires Untouched(scope, a, b) && Untouched(scope, b, c)
    ensures Untouched(scope, a, c)
  {
    forall key | !Writes(scope, key) ensures ObjectAt(a.store, key) == ObjectAt(c.store, key) {
      assert ObjectAt(a.store, key) == ObjectAt(b.store, key);
    }
    if scope.OfWorkspace? {
      forall n | n != scope.name ensures SameAt(a.workspaces, c.workspaces, n) {
        assert SameAt(a.workspaces, b.workspaces, n) && SameAt(b.workspaces, c.workspaces, n);
      }
    } else {
      forall n | n != scope.name ensures SameAt(a.modules, c.modules, n) {
        assert SameAt(a.modules, b.modules, n) && SameAt(b.modules, c.modules, n);
      }
    }
  }

  lemma {:induction false} RunIsLocal(scope: Scope, a: World, b: World, ops: seq<Op>)
    requires Alike(scope, a, b) && forall i :: 0 <= i < |ops| ==> Within(scope, ops[i])
    ensures RunOps(a, ops).err == RunOps(b, ops).err
    ensures Alike(scope, RunOps(a, ops).world, RunOps(b, ops).world)
    ensures Untouched(scope, a, RunOps(a, ops).world)
    decreases |ops|
  {
    if ops == [] {
    } else {
      PerformIsLocal(scope, a, b, ops[0]);
      if Perform(a, ops[0]).err.None? {
        RunIsLocal(scope, Perform(a, ops[0]).world, Perform(b, ops[0]).world, ops[1..]);
        UntouchedChains(scope, a, Perform(a, ops[0]).world, RunOps(a, ops).world);
      }
    }
  }

  /** The same step taken in two worlds that look alike: same error, still alike, nothing else touched. */
  ghost predicate Local(scope: Scope, a: World, r: Ran, q: Ran) {
    r.err == q.err && Alike(scope, r.world, q.world) && Untouched(scope, a, r.world)
  }

  lemma LocalChains(scope: Scope, a: World, b: World, r: Ran, q: Ran)
    requires Untouched(scope, a, b) && Local(scope, b, r, q)
    ensures Local(scope, a, r, q)
  {
    UntouchedChains(scope, a, b, r.world);
  }

  lemma TickIsLocal(scope: Scope, a: World, b: World)
    requires Alike(scope, a, b)
    ensures Alike(scope, Tick(a), Tick(b)) && Untouched(scope, a, Tick(a))
  {
  }

  lemma CommitIsLocal(scope: Scope, a: World, b: World, wa: World, wb: World)
    requires Alike(scope, a, b) && Alike(scope, wa, wb) && Untouched(scope, a, wa) && wa.faults == a.faults
    ensures Local(scope, a, Commit(a, wa), Commit(b, wb))
  {
    TickIsLocal(scope, a, b);
    TickIsLocal(scope, wa, wb);
    UntouchedChains(scope, a, wa, Tick(wa));
  }

  lemma WorkspacePatchIsLocal(scope: Scope, a: World, b: World, base: WorkspaceStatus, desired: WorkspaceStatus)
    requires scope.OfWorkspace? && Alike(scope, a, b)
    ensures Local(scope, a, PatchWorkspaceStatus(a, scope.name, base, desired),
                  PatchWorkspaceStatus(b, scope.name, base, desired))
  {
    TickIsLocal(scope, a, b);
    assert SameAt(a.workspaces, b.workspaces, scope.name);
    if scope.name in a.workspaces {
      WorkspaceStatusIsLocal(scope, a, b, base, desired);
      CommitIsLocal(scope, a, b, WithWorkspaceStatus(a, scope.name, base, desired),
                    WithWorkspaceStatus(b, scope.name, base, desired));
    }
  }

  lemma WorkspaceStatusIsLocal(scope: Scope, a: World, b: World, base: WorkspaceStatus, desired: WorkspaceStatus)
    requires scope.OfWorkspace? && Alike(scope, a, b) && scope.name in a.workspaces && scope.name in b.workspaces
    ensures Alike(scope, WithWorkspaceStatus(a, scope.name, base, desired),
                  WithWorkspaceStatus(b, scope.name, base, desired))
    ensures Untouched(scope, a, WithWorkspaceStatus(a, scope.name, base, desired))
  {
  }

  lemma OpsAreWithin(w: Workspace, version: string, istio: bool)
    ensures forall i :: 0 <= i < |Ops(w, version, istio)| ==>
              Within(OfWorkspace(w.name, w.spec.namespace), Ops(w, version, istio)[i])
  {
    OpsOwnDistinctKeys(w, version, istio);
  }

  lemma ReportIsLocal(a: World, b: World, w: Workspace, ops: seq<Op>, istio: bool, now: nat)
    requires Alike(OfWorkspace(w.name, w.spec.namespace), a, b)
    requires forall i :: 0 <= i < |ops| ==> Within(OfWorkspace(w.name, w.spec.namespace), ops[i])
    ensures Local(OfWorkspace(w.name, w.spec.namespace), a,
                  SyncThenReport(a, w, ops, istio, now), SyncThenReport(b, w, ops, istio, now))
  {
    var scope := OfWorkspace(w.name, w.spec.namespace);
    RunIsLocal(scope, a, b, ops);
    var r, q := RunOps(a, ops), RunOps(b, ops);
    match r.err
    case Some(e) =>
      WorkspacePatchIsLocal(scope, r.world, q.world, w.status, FailedStatus(w, e, now));
      UntouchedChains(scope, a, r.world, SyncThenReport(a, w, ops, istio, now).world);
    case None =>
      WorkspacePatchIsLocal(scope, r.world, q.world, w.status, NextStatus(w, istio, now));
      UntouchedChains(scope, a, r.world, SyncThenReport(a, w, ops, istio, now).world);
  }

  /** The scope of a reconcile request; a Workspace that is gone has nothing to write. */
  function WorkspaceScope(world: World, name: string): Scope {
    OfWorkspace(name, if name in world.workspaces then world.workspaces[name].spec.namespace else "")
  }

  lemma WorkspaceReconcileIsLocal(a: World, b: World, name: string, version: string, istio: bool, atStatus: bool,
                                  now: nat)
    requires WorkspaceRuns.WellStored(a) && Alike(WorkspaceScope(a, name), a, b)
    ensures Local(WorkspaceScope(a, name), a, ReconcileWorkspace(a, name, version, istio, atStatus, now),
                  ReconcileWorkspace(b, name, version, istio, atStatus, now))
  {
    var scope := WorkspaceScope(a, name);
    assert SameAt(a.workspaces, b.workspaces, name);
    assert Alike(scope, Tick(a), Tick(b)) && Untouched(scope, a, Tick(a));
    if Head(a.faults) == Healthy && name in a.workspaces {
      var w := a.workspaces[name];
      OpsAreWithin(w, version, istio);
      ReportIsLocal(Tick(a), Tick(b), w, Ops(w, version, istio), atStatus, now);
      LocalChains(scope, a, Tick(a), SyncThenReport(Tick(a), w, Ops(w, version, istio), atStatus, now),
                  SyncThenReport(Tick(b), w, Ops(w, version, istio), atStatus, now));
    }
  }

  ghost predicate Separate(x: Scope, y: Scope) {
    (forall key :: Writes(x, key) ==> !Reads(y, key)) && (forall key :: Writes(y, key) ==> !Reads(x, key))
    && (x.OfWorkspace? <==> y.OfWorkspace?) && x.name != y.name
  }

  predicate SameCluster(a: World, b: World) {
    a.store == b.store && a.workspaces == b.workspaces && a.modules == b.modules && a.templates == b.templates
  }

  /** What x did leaves y's view of the world as it was. */
  lemma SeparateStaysAlike(x: Scope, y: Scope, a: World, b: World, faults: seq<Fault>)
    requires Separate(x, y) && Untouched(x, a, b)
    ensures Alike(y, b.(faults := faults), a.(faults := faults))
  {
    forall key | Reads(y, key) ensures ObjectAt(b.store, key) == ObjectAt(a.store, key) {
      assert !Writes(x, key);
    }
    if x.OfWorkspace? {
      assert SameAt(a.workspaces, b.workspaces, y.name);
    } else {
      assert SameAt(a.modules, b.modules, y.name);
    }
  }

  lemma StoresMeet(x: Scope, y: Scope, c: Store, cx: Store, cy: Store, cxy: Store, cyx: Store)
    requires Separate(x, y) && StoresUntouched(x, c, cx) && StoresUntouched(y, c, cy)
    requires StoresUntouched(y, cx, cxy) && StoresUntouched(x, cy, cyx)
    requires StoresAlike(y, cxy, cy) && StoresAlike(x, cyx, cx)
    ensures cxy == cyx
  {
    forall key ensures ObjectAt(cxy, key) == ObjectAt(cyx, key) {
      if Writes(x, key) {
        assert Reads(x, key) && !Reads(y, key) && !Writes(y, key);
      } else if Writes(y, key) {
        assert Reads(y, key);
      } else {
        assert ObjectAt(c, key) == ObjectAt(cx, key) == ObjectAt(cxy, key);
        assert ObjectAt(c, key) == ObjectAt(cy, key) == ObjectAt(cyx, key);
      }
    }
    SameObjects(cxy, cyx);
  }

  lemma SameObjects(c: Store, d: Store)
    requires c.istioServed == d.istioServed && forall key :: ObjectAt(c, key) == ObjectAt(d, key)
    ensures c == d
  {
    forall key ensures key in c.objects <==> key in d.objects {
      assert ObjectAt(c, key) == ObjectAt(d, key);
    }
    forall key | key in c.objects ensures c.objects[key] == d.objects[key] {
      assert ObjectAt(c, key) == ObjectAt(d, key);
    }
  }

  lemma MapsMeet<V>(a: map<string, V>, ax: map<string, V>, ay: map<string, V>, axy: map<string, V>, ayx: map<string, V>,
                    x: string, y: string)
    requires x != y && SameBut(a, ax, x) && SameBut(a, ay, y) && SameBut(ax, axy, y) && SameBut(ay, ayx, x)
    requires SameAt(axy, ay, y) && SameAt(ayx, ax, x)
    ensures axy == ayx
  {
    forall n ensures SameAt(axy, ayx, n) {
      assert n != y ==> SameAt(ax, axy, n);
      assert n != x ==> SameAt(ay, ayx, n);
      assert n != x ==> SameAt(a, ax, n);
      assert n != y ==> SameAt(a, ay, n);
    }
    assert axy.Keys == ayx.Keys by {
      forall n ensures n in axy <==> n in ayx { assert SameAt(axy, ayx, n); }
    }
    forall n | n in axy ensures axy[n] == ayx[n] { assert SameAt(axy, ayx, n); }
  }

  /** Two separate local steps, each seen from the start and after the other, end in the same cluster. */
  lemma SeparateStepsMeet(x: Scope, y: Scope, a: World, ax: World, ay: World, axy: World, ayx: World)
    requires Separate(x, y) && Untouched(x, a, ax) && Untouched(y, a, ay)
    requires Untouched(y, ax, axy) && Untouched(x, ay, ayx)
    requires Alike(y, axy, ay) && Alike(x, ayx, ax)
    ensures SameCluster(axy, ayx)
  {
    StoresMeet(x, y, a.store, ax.store, ay.store, axy.store, ayx.store);
    if x.OfWorkspace? {
      MapsMeet(a.workspaces, ax.workspaces, ay.workspaces, axy.workspaces, ayx.workspaces, x.name, y.name);
    } else {
      MapsMeet(a.modules, ax.modules, ay.modules, axy.modules, ayx.modules, x.name, y.name);
    }
  }

  /** One reconcile request and everything it meets: its faults, its two detector reads, its clock. */
  datatype Turn = Turn(name: string, version: string, istio: bool, atStatus: bool, now: nat, faults: seq<Fault>)

  function RunWorkspace(world: World, t: Turn): Ran {
    ReconcileWorkspace(world.(faults := t.faults), t.name, t.version, t.istio, t.atStatus, t.now)
  }

  /** Distinct names and, where the Workspaces exist, distinct named namespaces. */
  predicate DistinctWorkspaces(world: World, v: string, w: string) {
    v != w
    && (v in world.workspaces && w in world.workspaces ==>
          world.workspaces[v].spec.namespace != world.workspaces[w].spec.namespace)
    && (v in world.workspaces ==> world.workspaces[v].spec.namespace != "")
    && (w in world.workspaces ==> world.workspaces[w].spec.namespace != "")
  }

  lemma RunKeepsWellStored(world: World, t: Turn)
    requires WorkspaceRuns.WellStored(world)
    ensures WorkspaceRuns.WellStored(RunWorkspace(world, t).world)
    ensures RunWorkspace(world, t).world.workspaces.Keys == world.workspaces.Keys
  {
    if t.name in world.workspaces {
      var k :=
          WorkspaceRuns.ReconcileIsPrefix(world.(faults := t.faults), t.name, t.version, t.istio, t.atStatus, t.now);
    }
  }

  /** A request for a Workspace that does not exist does nothing and disturbs nobody. */
  lemma AbsentIsIdle(world: World, v: Turn, w: Turn)
    requires WorkspaceRuns.WellStored(world) && v.name !in world.workspaces
    ensures var afterV, afterW := RunWorkspace(world, v), RunWorkspace(world, w);
      SameCluster(RunWorkspace(afterV.world, w).world, RunWorkspace(afterW.world, v).world)
      && RunWorkspace(afterV.world, w).err == afterW.err && RunWorkspace(afterW.world, v).err == afterV.err
  {
    RunKeepsWellStored(world, w);
    assert RunWorkspace(world, v).world.(faults := w.faults) == world.(faults := w.faults);
  }

  /** What v's reconcile did leaves w's reconcile as it would have been. */
  lemma RunIsUndisturbed(world: World, v: Turn, w: Turn)
    requires WorkspaceRuns.WellStored(world) && v.name in world.workspaces && w.name in world.workspaces
    requires Separate(WorkspaceScope(world, v.name), WorkspaceScope(world, w.name))
    ensures Untouched(WorkspaceScope(world, v.name), world, RunWorkspace(world, v).world)
    ensures Local(WorkspaceScope(world, w.name), RunWorkspace(world, v).world,
                  RunWorkspace(RunWorkspace(world, v).world, w), RunWorkspace(world, w))
  {
    var x, y := WorkspaceScope(world, v.name), WorkspaceScope(world, w.name);
    var afterV := RunWorkspace(world, v).world;
    var start := world.(faults := v.faults);
    WorkspaceReconcileIsLocal(start, start, v.name, v.version, v.istio, v.atStatus, v.now);
    RunKeepsWellStored(world, v);
    SeparateStaysAlike(x, y, world, afterV, w.faults);
    assert SameAt(world.workspaces, afterV.workspaces, w.name);
    WorkspaceReconcileIsLocal(afterV.(faults := w.faults), world.(faults := w.faults),
                              w.name, w.version, w.istio, w.atStatus, w.now);
  }

  lemma ScopesAreSeparate(world: World, v: string, w: string)
    requires DistinctWorkspaces(world, v, w) && v in world.workspaces && w in world.workspaces
    ensures Separate(WorkspaceScope(world, v), WorkspaceScope(world, w))
  {
  }

  /**
   * Whole reconciles of distinct Workspaces commute, whatever faults each of them meets: the same children, statuses
   * and errors in either order.
   */
  lemma WorkspaceReconcilesCommute(world: World, v: Turn, w: Turn)
    requires WorkspaceRuns.WellStored(world) && DistinctWorkspaces(world, v.name, w.name)
    ensures var afterV, afterW := RunWorkspace(world, v), RunWorkspace(world, w);
      SameCluster(RunWorkspace(afterV.world, w).world, RunWorkspace(afterW.world, v).world)
      && RunWorkspace(afterV.world, w).err == afterW.err && RunWorkspace(afterW.world, v).err == afterV.err
  {
    if v.name !in world.workspaces {
      AbsentIsIdle(world, v, w);
    } else if w.name !in world.workspaces {
      AbsentIsIdle(world, w, v);
    } else {
      ScopesAreSeparate(world, v.name, w.name);
      var x, y := WorkspaceScope(world, v.name), WorkspaceScope(world, w.name);
      var afterV, afterW := RunWorkspace(world, v).world, RunWorkspace(world, w).world;
      RunIsUndisturbed(world, v, w);
      RunIsUndisturbed(world, w, v);
      SeparateStepsMeet(x, y, world, afterV, afterW, RunWorkspace(afterV, w).world, RunWorkspace(afterW, v).world);
    }
  }

  lemma ModulePatchIsLocal(name: string, a: World, b: World, base: ModuleStatus, desired: ModuleStatus)
    requires Alike(OfModule(name), a, b)
    ensures Local(OfModule(name), a, PatchModuleStatus(a, name, base, desired),
                  PatchModuleStatus(b, name, base, desired))
  {
    TickIsLocal(OfModule(name), a, b);
    assert SameAt(a.modules, b.modules, name);
    if name in a.modules {
      ModuleStatusIsLocal(name, a, b, base, desired);
      CommitIsLocal(OfModule(name), a, b, WithModuleStatus(a, name, base, desired),
                    WithModuleStatus(b, name, base, desired));
    }
  }

  lemma ModuleStatusIsLocal(name: string, a: World, b: World, base: ModuleStatus, desired: ModuleStatus)
    requires Alike(OfModule(name), a, b) && name in a.modules && name in b.modules
    ensures Alike(OfModule(name), WithModuleStatus(a, name, base, desired), WithModuleStatus(b, name, base, desired))
    ensures Untouched(OfModule(name), a, WithModuleStatus(a, name, base, desired))
  {
  }

  lemma FinalizersAreLocal(name: string, a: World, b: World, finalizers: set<string>)
    requires Alike(OfModule(name), a, b)
    ensures Local(OfModule(name), a, PatchFinalizers(a, name, finalizers), PatchFinalizers(b, name, finalizers))
  {
    TickIsLocal(OfModule(name), a, b);
    assert SameAt(a.modules, b.modules, name);
    if name in a.modules && !(a.modules[name].deleting && !(finalizers <= a.modules[name].finalizers)) {
      WithFinalizersIsLocal(name, a, b, finalizers);
      CommitIsLocal(OfModule(name), a, b, WithFinalizers(a, name, finalizers), WithFinalizers(b, name, finalizers));
    }
  }

  lemma WithFinalizersIsLocal(name: string, a: World, b: World, finalizers: set<string>)
    requires Alike(OfModule(name), a, b) && name in a.modules && name in b.modules
    ensures Alike(OfModule(name), WithFinalizers(a, name, finalizers), WithFinalizers(b, name, finalizers))
    ensures Untouched(OfModule(name), a, WithFinalizers(a, name, finalizers))
  {
  }

  lemma ModuleErrorIsLocal(m: Module, a: World, b: World, e: Error, now: nat)
    requires Alike(OfModule(m.name), a, b)
    ensures Local(OfModule(m.name), a, HandleModuleError(a, m, e, now), HandleModuleError(b, m, e, now))
  {
    ModulePatchIsLocal(m.name, a, b, m.status, FailedModuleStatus(m, e, now));
  }

  lemma ModuleReportIsLocal(m: Module, mt: ModuleTemplate, a: World, b: World, now: nat)
    requires Alike(OfModule(m.name), a, b)
    ensures Local(OfModule(m.name), a, PublishModuleStatus(a, m, mt, now), PublishModuleStatus(b, m, mt, now))
  {
    var scope := OfModule(m.name);
    var key := FluxKey(m, mt);
    assert Reads(scope, key) && ObjectAt(a.store, key) == ObjectAt(b.store, key);
    assert GetObject(a, key) == GetObject(b, key);
    TickIsLocal(scope, a, b);
    var next := NextModuleStatus(m, mt, Observe(FluxPrefix(mt), GetObject(a, key)), now);
    if next != m.status {
      ModulePatchIsLocal(m.name, Tick(a), Tick(b), m.status, next);
      LocalChains(scope, a, Tick(a), PatchModuleStatus(Tick(a), m.name, m.status, next),
                  PatchModuleStatus(Tick(b), m.name, m.status, next));
    }
  }

  /** What follows a healthy template fetch: the write, then the error or the status. */
  function WriteThenReport(world: World, m: Module, mt: ModuleTemplate, op: Op, now: nat): Ran {
    var written := Perform(world, op);
    if written.err.Some? then HandleModuleError(written.world, m, written.err.value, now)
    else PublishModuleStatus(written.world, m, mt, now)
  }

  lemma WriteIsLocal(m: Module, mt: ModuleTemplate, op: Op, a: World, b: World, now: nat)
    requires Alike(OfModule(m.name), a, b) && Within(OfModule(m.name), op)
    ensures Local(OfModule(m.name), a, WriteThenReport(a, m, mt, op, now), WriteThenReport(b, m, mt, op, now))
  {
    var scope := OfModule(m.name);
    PerformIsLocal(scope, a, b, op);
    var r, q := Perform(a, op), Perform(b, op);
    if r.err.Some? {
      ModuleErrorIsLocal(m, r.world, q.world, r.err.value, now);
    } else {
      ModuleReportIsLocal(m, mt, r.world, q.world, now);
    }
    LocalChains(scope, a, r.world, WriteThenReport(a, m, mt, op, now), WriteThenReport(b, m, mt, op, now));
  }

  lemma SyncIsLocal(m: Module, a: World, b: World, version: string, now: nat)
    requires Alike(OfModule(m.name), a, b)
    ensures Local(OfModule(m.name), a, SyncModule(a, m, version, now), SyncModule(b, m, version, now))
  {
    var scope := OfModule(m.name);
    TickIsLocal(scope, a, b);
    var got := GetTemplate(a, m.spec.templateRef);
    assert GetTemplate(b, m.spec.templateRef) == got;
    match got {
      case Err(e) =>
        ModuleErrorIsLocal(m, Tick(a), Tick(b), if e == NotFound then TemplateNotFound(m.spec.templateRef) else e, now);
      case Ok(mt) =>
        if FluxOp(m, mt, version).None? {
          ModuleErrorIsLocal(m, Tick(a), Tick(b), TemplateInvalid(mt.name), now);
        } else {
          WriteIsLocal(m, mt, FluxOp(m, mt, version).value, Tick(a), Tick(b), now);
        }
    }
    LocalChains(scope, a, Tick(a), SyncModule(a, m, version, now), SyncModule(b, m, version, now));
  }

  lemma ResolveIsLocal(m: Module, a: World, b: World)
    requires Alike(OfModule(m.name), a, b)
    ensures var r, q := ResolveCleanupNamespace(a, m), ResolveCleanupNamespace(b, m);
      r.namespace == q.namespace && Alike(OfModule(m.name), r.world, q.world) && Untouched(OfModule(m.name), a, r.world)
  {
    TickIsLocal(OfModule(m.name), a, b);
  }

  lemma DeletionIsLocal(m: Module, a: World, b: World)
    requires Alike(OfModule(m.name), a, b)
    ensures Local(OfModule(m.name), a, DeleteModule(a, m), DeleteModule(b, m))
  {
    if FINALIZER in m.finalizers {
      var scope := OfModule(m.name);
      ResolveIsLocal(m, a, b);
      var r, q := ResolveCleanupNamespace(a, m), ResolveCleanupNamespace(b, m);
      var ops := CleanupOps(m, r.namespace);
      RunIsLocal(scope, r.world, q.world, ops);
      UntouchedChains(scope, a, r.world, RunOps(r.world, ops).world);
      var c, d := RunOps(r.world, ops), RunOps(q.world, ops);
      if c.err.None? {
        FinalizersAreLocal(m.name, c.world, d.world, m.finalizers - {FINALIZER});
        LocalChains(scope, a, c.world, DeleteModule(a, m), DeleteModule(b, m));
      }
    }
  }

  lemma GuardedSyncIsLocal(m: Module, a: World, b: World, version: string, now: nat)
    requires Alike(OfModule(m.name), a, b) && m.name in a.modules && a.modules[m.name] == m
    ensures Local(OfModule(m.name), a, GuardThenSync(a, m, version, now), GuardThenSync(b, m, version, now))
  {
    var scope := OfModule(m.name);
    FinalizersAreLocal(m.name, a, b, m.finalizers + {FINALIZER});
    var r, q := PatchFinalizers(a, m.name, m.finalizers + {FINALIZER}),
        PatchFinalizers(b, m.name, m.finalizers + {FINALIZER});
    if r.err.None? {
      assert SameAt(r.world.modules, q.world.modules, m.name);
      var m' := r.world.modules[m.name];
      SyncIsLocal(m', r.world, q.world, version, now);
      LocalChains(scope, a, r.world, SyncModule(r.world, m', version, now), SyncModule(q.world, m', version, now));
    }
  }

  /** The first run of a Module: the finalizer, then the sync. */
  function GuardThenSync(world: World, m: Module, version: string, now: nat): Ran
    requires m.name in world.modules
  {
    var guarded := PatchFinalizers(world, m.name, m.finalizers + {FINALIZER});
    if guarded.err.Some? then guarded
    else SyncModule(guarded.world, guarded.world.modules[m.name], version, now)
  }

  lemma ModuleReconcileIsLocal(a: World, b: World, name: string, version: string, now: nat)
    requires Alike(OfModule(name), a, b) && (name in a.modules ==> a.modules[name].name == name)
    ensures Local(OfModule(name), a, ReconcileModule(a, name, version, now), ReconcileModule(b, name, version, now))
  {
    var scope := OfModule(name);
    assert SameAt(a.modules, b.modules, name);
    TickIsLocal(scope, a, b);
    if Head(a.faults) == Healthy && name in a.modules {
      var m := a.modules[name];
      if m.deleting {
        DeletionIsLocal(m, Tick(a), Tick(b));
      } else if FINALIZER in m.finalizers {
        SyncIsLocal(m, Tick(a), Tick(b), version, now);
      } else {
        GuardedSyncIsLocal(m, Tick(a), Tick(b), version, now);
      }
      LocalChains(scope, a, Tick(a), ReconcileModule(a, name, version, now), ReconcileModule(b, name, version, now));
    }
  }

  datatype ModuleTurn = ModuleTurn(name: string, version: string, now: nat, faults: seq<Fault>)

  function RunModule(world: World, t: ModuleTurn): Ran {
    ReconcileModule(world.(faults := t.faults), t.name, t.version, t.now)
  }

  predicate NamedModules(world: World) {
    forall n :: n in world.modules ==> world.modules[n].name == n
  }

  lemma ModuleRunIsUndisturbed(world: World, m: ModuleTurn, n: ModuleTurn)
    requires NamedModules(world) && m.name != n.name
    ensures Untouched(OfModule(m.name), world, RunModule(world, m).world)
    ensures Local(OfModule(n.name), RunModule(world, m).world, RunModule(RunModule(world, m).world, n),
                  RunModule(world, n))
  {
    var start, after := world.(faults := m.faults), RunModule(world, m).world;
    ModuleReconcileIsLocal(start, start, m.name, m.version, m.now);
    SeparateStaysAlike(OfModule(m.name), OfModule(n.name), world, after, n.faults);
    assert SameAt(world.modules, after.modules, n.name);
    ModuleReconcileIsLocal(after.(faults := n.faults), world.(faults := n.faults), n.name, n.version, n.now);
  }

  /**
   * Whole reconciles of distinct Modules commute, whatever faults each of them meets: live, deleting, parked on a
   * missing template or gone, and even with one template and one target namespace.
   */
  lemma ModuleReconcilesCommute(world: World, m: ModuleTurn, n: ModuleTurn)
    requires NamedModules(world) && m.name != n.name
    ensures var afterM, afterN := RunModule(world, m), RunModule(world, n);
      SameCluster(RunModule(afterM.world, n).world, RunModule(afterN.world, m).world)
      && RunModule(afterM.world, n).err == afterN.err && RunModule(afterN.world, m).err == afterM.err
  {
    ModuleRunIsUndisturbed(world, m, n);
    ModuleRunIsUndisturbed(world, n, m);
    var afterM, afterN := RunModule(world, m).world, RunModule(world, n).world;
    SeparateStepsMeet(OfModule(m.name), OfModule(n.name), world, afterM, afterN,
                      RunModule(afterM, n).world, RunModule(afterN, m).world);
  }
}
