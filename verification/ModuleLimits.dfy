/** Where the Module controller's guarantees end: a failing Module list, and objects that cleanup does not reach. */
module ModuleLimits {
  import opened Prelude
  import opened Metadata
  import opened Conditions
  import opened Objects
  import opened Cluster
  import opened Api
  import opened Server
  import WorkQueue
  import opened ModuleResources
  import opened ModuleController
  import opened ModuleRuns
  import opened ModuleProtocol
  import opened ModuleProtocolRuns

  /** The template handler runs, and its Module list fails: the event is gone and nobody is asked for. */
  function ListFails(s: State, name: string): State
    requires name in s.templateEvents
  {
    s.(templateEvents := s.templateEvents - {name})
  }

  /** Parked on a template that exists, with nothing scheduled that could notice. */
  predicate Forgotten(s: State, n: string) {
    n in s.modules && !s.modules[n].deleting && Calm(s, n) && n !in s.queue.processing
    && n in s.last && s.last[n] == MissingTemplate && s.modules[n].spec.templateRef in s.templates
  }

  /** The step asks for n, for its template, or touches an object labelled as n's. */
  predicate Rouses(version: string, s: State, step: Step, n: string)
    requires Enabled(s, step)
  {
    match step
    case CreateModule(m, _) => m == n
    case EditModule(m, _) => m == n
    case RequestDeletion(m) => m == n
    case Resync(m) => m == n
    case PutTemplate(mt) => n in s.modules && s.modules[n].spec.templateRef == mt.name
    case DropTemplate(name) => n in s.modules && s.modules[n].spec.templateRef == name
    case ChangeFlux(key, o) => n in Wakes(s.store, s.store.(objects := s.store.objects[key := o]), key)
    case Vanish(keys) => exists k :: k in keys && k in s.store.objects && n in Requests(ObjectAt(s.store, k))
    case Write(faults) =>
      var op := FluxOp(s.worker.m, s.worker.mt, version);
      op.Some? && n in Wakes(s.store, CallOp(s.store, faults, op.value).store, op.value.key)
    case Purge(faults) => n in Wakes(s.store, CallOp(s.store, faults, s.worker.ops[0]).store, s.worker.ops[0].key)
    case _ => false
  }

  predicate NeverRoused(version: string, s: State, steps: seq<Step>, n: string)
    requires IsRun(version, s, steps)
    decreases |steps|
  {
    steps == []
    || (!Rouses(version, s, steps[0], n) && NeverRoused(version, Next(version, s, steps[0]), steps[1..], n))
  }

  predicate Kept(s: State) {
    QueueValid(s) && forall k :: k in s.modules ==> s.modules[k].name == k
  }

  /** Everything about n is as it was, and n is still not scheduled. */
  predicate Spared(s: State, t: State, n: string) {
    Kept(t) && n in s.modules && n in t.modules && t.modules[n] == s.modules[n] && !Busy(t, n)
    && n !in t.queue.processing && n in s.last && n in t.last && t.last[n] == s.last[n]
    && var ref := s.modules[n].spec.templateRef;
    ref !in t.templateEvents && (ref in s.templates ==> ref in t.templates && t.templates[ref] == s.templates[ref])
  }

  lemma UserSpares(version: string, s: State, step: Step, n: string)
    requires Kept(s) && Forgotten(s, n) && Enabled(s, step) && !Rouses(version, s, step, n)
    requires step.CreateModule? || step.EditModule? || step.RequestDeletion? || step.Resync? || step.Deliver?
    ensures Spared(s, Next(version, s, step), n)
  {
  }

  lemma TemplateSpares(version: string, s: State, step: Step, n: string)
    requires Kept(s) && Forgotten(s, n) && Enabled(s, step) && !Rouses(version, s, step, n)
    requires step.PutTemplate? || step.DropTemplate? || step.HandleTemplateEvent?
    ensures Spared(s, Next(version, s, step), n)
  {
  }

  lemma ChangeSpares(version: string, s: State, step: Step, n: string)
    requires Kept(s) && Forgotten(s, n) && Enabled(s, step) && !Rouses(version, s, step, n)
    requires step.ChangeFlux? || step.AddNamespace? || step.Vanish?
    ensures Spared(s, Next(version, s, step), n)
  {
    if step.Vanish? {
      forall k | k in step.keys && k in s.store.objects ensures n !in MapFluxResource(s.store.objects[k].labels) {
        assert n !in Requests(ObjectAt(s.store, k));
      }
    }
  }

  /** The end of another Module's turn. */
  lemma FinishSpares(s: State, modules: map<string, Module>, name: string, retry: bool, outcome: Outcome, n: string)
    requires Kept(s) && Forgotten(s, n) && s.queue.processing == {name}
    requires n in modules && modules[n] == s.modules[n] && forall k :: k in modules ==> modules[k].name == k
    ensures Spared(s, Finish(s.(modules := modules), name, retry), n)
    ensures Spared(s, Settle(s.(modules := modules), name, outcome), n)
  {
  }

  lemma PatchesSpare(s: State, fault: Fault, name: string, base: ModuleStatus, desired: ModuleStatus, n: string)
    requires Kept(s) && n in s.modules && n != name
    ensures var after := PatchModuleStatus(Around(s, [fault]), name, base, desired).world.modules;
      n in after && after[n] == s.modules[n] && forall k :: k in after ==> after[k].name == k
  {
  }

  lemma FinalizersSpare(s: State, fault: Fault, name: string, finalizers: set<string>, n: string)
    requires Kept(s) && n in s.modules && n != name
    ensures var after := PatchFinalizers(Around(s, [fault]), name, finalizers).world.modules;
      n in after && after[n] == s.modules[n] && forall k :: k in after ==> after[k].name == k
  {
  }

  lemma TurnSpares(version: string, s: State, step: Step, n: string)
    requires Kept(s) && Forgotten(s, n) && Enabled(s, step)
    requires step.Take? || step.FetchTemplate? || step.ObserveFlux? || step.StartCleanup?
    ensures Spared(s, Next(version, s, step), n)
  {
  }

  lemma FetchSpares(version: string, s: State, fault: Fault, n: string)
    requires Kept(s) && Forgotten(s, n) && s.worker.Claimed?
    ensures Spared(s, Next(version, s, Fetch(fault)), n)
  {
    var name := s.worker.name;
    var t := Next(version, s, Fetch(fault));
    if fault == Healthy && name in s.modules {
      assert t == s.(worker := Fetched(s.modules[name]));
    } else {
      assert t == Finish(s, name, fault != Healthy);
    }
  }

  lemma GuardSpares(version: string, s: State, fault: Fault, n: string)
    requires Kept(s) && Forgotten(s, n) && s.worker.Fetched? && !s.worker.m.deleting
    ensures Spared(s, Next(version, s, Guard(fault)), n)
  {
    var m := s.worker.m;
    FinalizersSpare(s, fault, m.name, m.finalizers + {FINALIZER}, n);
    var r := PatchFinalizers(Around(s, [fault]), m.name, m.finalizers + {FINALIZER});
    var t := Next(version, s, Guard(fault));
    if FINALIZER in m.finalizers {
      assert t == s.(worker := Guarding(m));
    } else if r.err.Some? {
      assert t == Finish(s.(modules := r.world.modules), m.name, true);
      FinishSpares(s, r.world.modules, m.name, true, MissingTemplate, n);
    } else {
      assert t == s.(modules := r.world.modules, worker := Guarding(r.world.modules[m.name]));
    }
  }

  lemma ReleaseSpares(version: string, s: State, fault: Fault, n: string)
    requires Kept(s) && Forgotten(s, n) && s.worker.Purging? && s.worker.ops == []
    ensures Spared(s, Next(version, s, Release(fault)), n)
  {
    var m := s.worker.m;
    FinalizersSpare(s, fault, m.name, m.finalizers - {FINALIZER}, n);
    var r := PatchFinalizers(Around(s, [fault]), m.name, m.finalizers - {FINALIZER});
    assert Next(version, s, Release(fault)) == Finish(s.(modules := r.world.modules), m.name, r.err.Some?);
    FinishSpares(s, r.world.modules, m.name, r.err.Some?, MissingTemplate, n);
  }

  lemma PublishSpares(version: string, s: State, fault: Fault, n: string)
    requires Kept(s) && Forgotten(s, n) && s.worker.Publishing?
    ensures Spared(s, Next(version, s, PublishStatus(fault)), n)
  {
    var Publishing(m, mt, status, observed) := s.worker;
    PatchesSpare(s, fault, m.name, m.status, status, n);
    var r := PatchModuleStatus(Around(s, [fault]), m.name, m.status, status);
    var t := Next(version, s, PublishStatus(fault));
    if status == m.status {
      FinishSpares(s, s.modules, m.name, true, Succeeded(observed), n);
      assert s.(modules := s.modules) == s && t == Settle(s, m.name, Succeeded(observed));
    } else {
      FinishSpares(s, r.world.modules, m.name, true, Succeeded(observed), n);
      if r.err.Some? {
        assert t == Finish(s.(modules := r.world.modules), m.name, true);
      } else {
        assert t == Settle(s.(modules := r.world.modules), m.name, Succeeded(observed));
      }
    }
  }

  lemma FailureSpares(version: string, s: State, fault: Fault, now: nat, n: string)
    requires Kept(s) && Forgotten(s, n) && s.worker.Failing?
    ensures Spared(s, Next(version, s, RecordFailure(fault, now)), n)
  {
    var Failing(m, e) := s.worker;
    var desired := FailedModuleStatus(m, e, now);
    PatchesSpare(s, fault, m.name, m.status, desired, n);
    var modules := PatchModuleStatus(Around(s, [fault]), m.name, m.status, desired).world.modules;
    FinishSpares(s, modules, m.name, true, if e.TemplateNotFound? then MissingTemplate else InvalidTemplate, n);
    assert Next(version, s, RecordFailure(fault, now)) == AfterFailure(s, m, e, modules);
  }

  lemma WriteSpares(version: string, s: State, faults: seq<Fault>, n: string)
    requires Kept(s) && Forgotten(s, n) && s.worker.Templated? && !Rouses(version, s, Write(faults), n)
    ensures Spared(s, Next(version, s, Write(faults)), n)
  {
  }

  lemma PurgeSpares(version: string, s: State, faults: seq<Fault>, n: string)
    requires Kept(s) && Forgotten(s, n) && s.worker.Purging? && s.worker.ops != []
    requires !Rouses(version, s, Purge(faults), n)
    ensures Spared(s, Next(version, s, Purge(faults)), n)
  {
  }

  lemma StepSpares(version: string, s: State, step: Step, n: string)
    requires Kept(s) && Forgotten(s, n) && Enabled(s, step) && !Rouses(version, s, step, n)
    ensures Spared(s, Next(version, s, step), n)
  {
    match step
    case PutTemplate(_) => TemplateSpares(version, s, step, n);
    case DropTemplate(_) => TemplateSpares(version, s, step, n);
    case HandleTemplateEvent(_) => TemplateSpares(version, s, step, n);
    case ChangeFlux(_, _) => ChangeSpares(version, s, step, n);
    case AddNamespace(_, _) => ChangeSpares(version, s, step, n);
    case Vanish(_) => ChangeSpares(version, s, step, n);
    case Take(_) => TurnSpares(version, s, step, n);
    case Fetch(fault) => FetchSpares(version, s, fault, n);
    case Guard(fault) => GuardSpares(version, s, fault, n);
    case FetchTemplate(_) => TurnSpares(version, s, step, n);
    case Write(faults) => WriteSpares(version, s, faults, n);
    case ObserveFlux(_, _) => TurnSpares(version, s, step, n);
    case PublishStatus(fault) => PublishSpares(version, s, fault, n);
    case RecordFailure(fault, now) => FailureSpares(version, s, fault, now, n);
    case StartCleanup(_) => TurnSpares(version, s, step, n);
    case Purge(faults) => PurgeSpares(version, s, faults, n);
    case Release(fault) => ReleaseSpares(version, s, fault, n);
    case _ => UserSpares(version, s, step, n);
  }

  /**
   * A Module whose template event was lost to a failing list stays parked on a template that exists, itself unchanged,
   * through every run of any steps that neither ask for it or its template nor touch an object labelled as its own.
   */
  lemma {:induction false} ForgottenUntilRoused(version: string, s: State, steps: seq<Step>, n: string)
    requires Kept(s) && Forgotten(s, n) && IsRun(version, s, steps) && NeverRoused(version, s, steps, n)
    ensures var t := After(version, s, steps);
      Kept(t) && Forgotten(t, n) && t.modules[n] == s.modules[n] && !Resting(version, t, n)
    decreases |steps|
  {
    if steps == [] {
    } else {
      StepSpares(version, s, steps[0], n);
      ForgottenUntilRoused(version, Next(version, s, steps[0]), steps[1..], n);
    }
  }

  const NO_MODULE_STATUS := ModuleStatus(0, 0, None, None, [])

  /** An operator that starts with one Module, created before its template. */
  function ColdStart(name: string, spec: ModuleSpec): State {
    State(map[name := Module(name, 0, 1, false, {}, spec, NO_MODULE_STATUS)], map[], Store(map[], false), {},
          WorkQueue.EMPTY, {name}, Idle, map[], map[], 1)
  }

  /** The idle worker's delivery, claim and fetch of a Module that waits alone. */
  lemma Fetching(version: string, s: State, n: string)
    requires s.worker == Idle && s.queue == WorkQueue.EMPTY && s.pending == {n} && n in s.modules
    ensures var taken := s.(pending := {}, queue := WorkQueue.Queue({}, {}, {n}), worker := Claimed(n));
      IsRun(version, s, [Deliver(n), Take(n), Fetch(Healthy)])
      && After(version, s, [Deliver(n), Take(n), Fetch(Healthy)]) == taken.(worker := Fetched(s.modules[n]))
  {
    var delivered := s.(pending := {}, queue := WorkQueue.Queue({n}, {n}, {}));
    var taken := s.(pending := {}, queue := WorkQueue.Queue({}, {}, {n}), worker := Claimed(n));
    var fetched := taken.(worker := Fetched(s.modules[n]));
    assert Next(version, s, Deliver(n)) == delivered;
    assert Next(version, delivered, Take(n)) == taken;
    assert Next(version, taken, Fetch(Healthy)) == fetched;
    Prepend(version, taken, Fetch(Healthy), []);
    Prepend(version, delivered, Take(n), [Fetch(Healthy)] + []);
    Prepend(version, s, Deliver(n), [Take(n)] + ([Fetch(Healthy)] + []));
    assert [Deliver(n)] + ([Take(n)] + ([Fetch(Healthy)] + [])) == [Deliver(n), Take(n), Fetch(Healthy)];
  }

  lemma {:induction false} Appended(version: string, s: State, a: seq<Step>, b: seq<Step>)
    requires IsRun(version, s, a) && IsRun(version, After(version, s, a), b)
    ensures IsRun(version, s, a + b) && After(version, s, a + b) == After(version, After(version, s, a), b)
    decreases |a|
  {
    if a == [] {
      assert a + b == b;
    } else {
      assert (a + b)[0] == a[0] && (a + b)[1..] == a[1..] + b;
      Appended(version, Next(version, s, a[0]), a[1..], b);
    }
  }

  const PARKING: seq<Step> := [Guard(Healthy), FetchTemplate(Healthy), RecordFailure(Healthy, 0)]

  lemma FirstGuard(version: string, s: State, m: Module)
    requires m.name in s.modules && s.modules[m.name] == m && s.worker == Fetched(m) && !m.deleting
    requires FINALIZER !in m.finalizers
    ensures var m' := m.(finalizers := m.finalizers + {FINALIZER});
      Next(version, s, Guard(Healthy)) == s.(modules := s.modules[m.name := m'], worker := Guarding(m'))
  {
    assert Head([Healthy]) == Healthy;
  }

  lemma TemplateMissing(version: string, s: State, m: Module)
    requires s.worker == Guarding(m) && m.spec.templateRef !in s.templates
    ensures Next(version, s, FetchTemplate(Healthy))
         == s.(worker := Failing(m, TemplateNotFound(m.spec.templateRef)))
  {
    assert Head([Healthy]) == Healthy;
  }

  /** Parked: the outcome is on record, and the Module differs from before in its status alone. */
  lemma MissingRecorded(version: string, s: State, m: Module, name: string)
    requires s.worker == Failing(m, TemplateNotFound(name)) && m.name in s.modules
    ensures var t := Next(version, s, RecordFailure(Healthy, 0));
      t == s.(modules := t.modules, queue := WorkQueue.Done(s.queue, m.name), worker := Idle,
              last := s.last[m.name := MissingTemplate])
      && t.modules.Keys == s.modules.Keys
      && t.modules[m.name] == s.modules[m.name].(status := t.modules[m.name].status)
  {
    assert Head([Healthy]) == Healthy;
  }

  /** What parking a fetched Module leaves. */
  predicate ParkedOnce(s: State, t: State, n: string)
    requires n in s.modules
  {
    t == s.(modules := t.modules, queue := WorkQueue.Done(s.queue, n), worker := Idle,
            last := s.last[n := MissingTemplate])
    && t.modules.Keys == s.modules.Keys && t.modules[n].name == s.modules[n].name && !t.modules[n].deleting
    && t.modules[n].spec == s.modules[n].spec
  }

  lemma ParkingStates(version: string, s: State, m: Module) returns (guarded: State, failing: State, t: State)
    requires m.name in s.modules && s.modules[m.name] == m && s.worker == Fetched(m) && !m.deleting
    requires m.spec.templateRef !in s.templates && FINALIZER !in m.finalizers
    ensures guarded == Next(version, s, Guard(Healthy)) && guarded.worker.Guarding?
    ensures failing == Next(version, guarded, FetchTemplate(Healthy)) && failing.worker.Failing?
    ensures t == Next(version, failing, RecordFailure(Healthy, 0)) && ParkedOnce(s, t, m.name)
  {
    var m' := m.(finalizers := m.finalizers + {FINALIZER});
    FirstGuard(version, s, m);
    guarded := Next(version, s, Guard(Healthy));
    TemplateMissing(version, guarded, m');
    failing := Next(version, guarded, FetchTemplate(Healthy));
    MissingRecorded(version, failing, m', m.spec.templateRef);
    t := Next(version, failing, RecordFailure(Healthy, 0));
  }

  /** A fetched Module without a template is guarded and parked. */
  lemma Parking(version: string, s: State, m: Module) returns (t: State)
    requires m.name in s.modules && s.modules[m.name] == m && s.worker == Fetched(m) && !m.deleting
    requires m.spec.templateRef !in s.templates && FINALIZER !in m.finalizers
    ensures IsRun(version, s, PARKING) && t == After(version, s, PARKING) && ParkedOnce(s, t, m.name)
  {
    var guarded, failing;
    guarded, failing, t := ParkingStates(version, s, m);
    Prepend(version, failing, RecordFailure(Healthy, 0), []);
    var c := [RecordFailure(Healthy, 0)] + [];
    Prepend(version, guarded, FetchTemplate(Healthy), c);
    var b := [FetchTemplate(Healthy)] + c;
    Prepend(version, s, Guard(Healthy), b);
    assert [Guard(Healthy)] + b == PARKING;
  }

  lemma ColdParking(version: string, name: string, spec: ModuleSpec) returns (steps: seq<Step>)
    ensures IsRun(version, ColdStart(name, spec), steps)
    ensures var t := After(version, ColdStart(name, spec), steps);
      t.worker == Idle && t.queue == WorkQueue.EMPTY && t.pending == {}
      && t.templates == map[] && t.templateEvents == {}
      && t.modules.Keys == {name} && t.modules[name].name == name && !t.modules[name].deleting
      && t.modules[name].spec == spec && t.last == map[name := MissingTemplate]
  {
    var s := ColdStart(name, spec);
    Fetching(version, s, name);
    var fetching := [Deliver(name), Take(name), Fetch(Healthy)];
    var fetched := After(version, s, fetching);
    var parked := Parking(version, fetched, s.modules[name]);
    Appended(version, s, fetching, PARKING);
    steps := fetching + PARKING;
  }

  /** The template's creation leaves one event, and losing it forgets the parked Module. */
  lemma CreationForgotten(version: string, s: State, name: string, mt: ModuleTemplate)
    requires s.worker == Idle && s.queue == WorkQueue.EMPTY && s.pending == {} && s.templates == map[]
    requires s.modules.Keys == {name} && s.modules[name].name == name && !s.modules[name].deleting
    requires s.modules[name].spec.templateRef == mt.name && s.last == map[name := MissingTemplate]
    requires mt.namespace != ""
    ensures var t := Next(version, s, PutTemplate(mt));
      mt.name in t.templateEvents
      && Kept(ListFails(t, mt.name)) && Forgotten(ListFails(t, mt.name), name)
      && !Resting(version, ListFails(t, mt.name), name)
  {
  }

  /**
   * The loss happens, for every Module and template: from an initial state a run parks the Module and then creates its
   * template, and if the handler's list fails right there the Module is forgotten.
   */
  lemma TemplateLossHappens(version: string, name: string, spec: ModuleSpec, mt: ModuleTemplate)
    returns (steps: seq<Step>)
    requires spec.templateRef == mt.name && mt.namespace != "" && ValidModuleSpec(spec)
    ensures Initial(ColdStart(name, spec)) && IsRun(version, ColdStart(name, spec), steps)
    ensures var t := After(version, ColdStart(name, spec), steps);
      mt.name in t.templateEvents
      && Kept(ListFails(t, mt.name)) && Forgotten(ListFails(t, mt.name), name)
      && !Resting(version, ListFails(t, mt.name), name)
  {
    var s := ColdStart(name, spec);
    var parking := ColdParking(version, name, spec);
    var parked := After(version, s, parking);
    CreationForgotten(version, parked, name, mt);
    Prepend(version, parked, PutTemplate(mt), []);
    Appended(version, s, parking, [PutTemplate(mt)] + []);
    steps := parking + ([PutTemplate(mt)] + []);
  }

  /** A Module under the finalizer, its template stored, and room for its Flux object in an existing namespace. */
  predicate ReadyToWrite(version: string, s: State, m: Module, mt: ModuleTemplate) {
    m.name in s.modules && s.modules[m.name] == m && !m.deleting && m.finalizers == {FINALIZER}
    && m.spec.templateRef in s.templates && s.templates[m.spec.templateRef] == mt && FluxOp(m, mt, version).Some?
    && FluxKey(m, mt) !in s.store.objects && NamespaceKey(TargetNamespace(m, mt)) in s.store.objects
  }

  /** The object a first write creates. */
  lemma FirstWrite(version: string, s: State, m: Module, mt: ModuleTemplate)
    requires ReadyToWrite(version, s, m, mt)
    ensures var op := FluxOp(m, mt, version).value;
      op.key == FluxKey(m, mt)
      && var called := CallOp(s.store, [], op);
      called.err.None? && called.store.istioServed == s.store.istioServed
      && called.store.objects.Keys == s.store.objects.Keys + {op.key}
      && (forall k :: k in s.store.objects ==> called.store.objects[k] == s.store.objects[k])
      && called.store != s.store && Wakes(s.store, called.store, op.key) == {m.name}
  {
    var op := FluxOp(m, mt, version).value;
    var called := CallOp(s.store, [], op);
    CallIsAllOrNothing(s.store, [], op);
    SettledFluxMapsBackAfter(version, s, m, mt);
    assert Requests(None) == {};
    assert op.key in called.store.objects;
  }

  lemma SettledFluxMapsBackAfter(version: string, s: State, m: Module, mt: ModuleTemplate)
    requires ReadyToWrite(version, s, m, mt)
    ensures var op := FluxOp(m, mt, version).value;
      ApplyOp(s.store, op).Ok?
      && Requests(ObjectAt(ApplyOp(s.store, op).value, op.key)) == {m.name}
  {
    var op := FluxOp(m, mt, version).value;
    ApplySettles(s.store, op);
    SettledFluxMapsBack(ApplyOp(s.store, op).value, m, mt, version);
  }

  const WRITING: seq<Step> := [Write([]), ObserveFlux(Healthy, 0), PublishStatus(Healthy)]

  /** What a first sync leaves: one more written object, the status naming it, and the Module woken by its own write. */
  predicate SyncedOnce(s: State, t: State, m: Module, mt: ModuleTemplate) {
    var key := FluxKey(m, mt);
    t == s.(modules := t.modules, store := t.store, queue := WorkQueue.Done(s.queue, m.name), worker := Idle,
            pending := s.pending + {m.name}, last := t.last, written := s.written[key := OwnerOfModule(m)])
    && t.store.objects.Keys == s.store.objects.Keys + {key}
    && m.name in t.modules && t.modules == s.modules[m.name := t.modules[m.name]]
    && t.modules[m.name] == m.(status := t.modules[m.name].status)
    && RefsOk(t.modules[m.name].status) && Target(t.modules[m.name]) == {key}
  }

  lemma ToTemplated(version: string, s: State, m: Module, mt: ModuleTemplate)
    requires ReadyToWrite(version, s, m, mt) && s.worker == Fetched(m)
    ensures Next(version, s, Guard(Healthy)) == s.(worker := Guarding(m))
    ensures Next(version, s.(worker := Guarding(m)), FetchTemplate(Healthy)) == s.(worker := Templated(m, mt))
  {
    assert Head([Healthy]) == Healthy;
  }

  lemma ToWritten(version: string, s: State, m: Module, mt: ModuleTemplate)
    requires ReadyToWrite(version, s, m, mt) && s.worker == Templated(m, mt)
    ensures var u := Next(version, s, Write([]));
      u == s.(store := u.store, pending := s.pending + {m.name}, worker := Written(m, mt),
              written := s.written[FluxKey(m, mt) := OwnerOfModule(m)])
      && u.store.objects.Keys == s.store.objects.Keys + {FluxKey(m, mt)}
  {
    FirstWrite(version, s, m, mt);
  }

  lemma ToPublishing(version: string, s: State, m: Module, mt: ModuleTemplate)
    requires s.worker == Written(m, mt) && mt.namespace != "" && FluxOp(m, mt, version).Some?
    requires m.spec.namespace.Some? ==> m.spec.namespace.value != ""
    ensures var u := Next(version, s, ObserveFlux(Healthy, 0));
      u.worker.Publishing? && u == s.(worker := u.worker) && u.worker.m == m
      && RefsOk(u.worker.status) && Target(m.(status := u.worker.status)) == {FluxKey(m, mt)}
  {
  }

  lemma ToIdle(version: string, s: State, m: Module)
    requires s.worker.Publishing? && s.worker.m == m && m.name in s.modules && s.modules[m.name] == m
    ensures var t := Next(version, s, PublishStatus(Healthy));
      t == s.(modules := s.modules[m.name := m.(status := s.worker.status)], queue := WorkQueue.Done(s.queue, m.name),
              worker := Idle, last := t.last)
  {
    var Publishing(_, mt, status, observed) := s.worker;
    assert Head([Healthy]) == Healthy;
    if status == m.status {
      assert m.(status := status) == m && s.modules[m.name := m] == s.modules;
    } else {
      assert MergeModuleStatus(m.status, m.status, status) == status;
    }
  }

  /** The last three steps of a first sync, given the states they pass through. */
  lemma LateSyncing(version: string, s2: State, s3: State, s4: State, t: State)
    requires Enabled(s2, Write([])) && s3 == Next(version, s2, Write([]))
    requires Enabled(s3, ObserveFlux(Healthy, 0)) && s4 == Next(version, s3, ObserveFlux(Healthy, 0))
    requires Enabled(s4, PublishStatus(Healthy)) && t == Next(version, s4, PublishStatus(Healthy))
    ensures IsRun(version, s2, WRITING) && After(version, s2, WRITING) == t
  {
    Prepend(version, s4, PublishStatus(Healthy), []);
    var e := [PublishStatus(Healthy)] + [];
    Prepend(version, s3, ObserveFlux(Healthy, 0), e);
    var d := [ObserveFlux(Healthy, 0)] + e;
    Prepend(version, s2, Write([]), d);
    assert [Write([])] + d == WRITING;
  }

  lemma EarlySyncing(version: string, s0: State, s1: State, s2: State, rest: seq<Step>)
    requires Enabled(s0, Guard(Healthy)) && s1 == Next(version, s0, Guard(Healthy))
    requires Enabled(s1, FetchTemplate(Healthy)) && s2 == Next(version, s1, FetchTemplate(Healthy))
    requires IsRun(version, s2, rest)
    ensures var steps := [Guard(Healthy)] + ([FetchTemplate(Healthy)] + rest);
      IsRun(version, s0, steps) && After(version, s0, steps) == After(version, s2, rest)
  {
    Prepend(version, s1, FetchTemplate(Healthy), rest);
    Prepend(version, s0, Guard(Healthy), [FetchTemplate(Healthy)] + rest);
  }

  lemma SyncsOnce(s: State, u: State, t: State, m: Module, mt: ModuleTemplate, status: ModuleStatus)
    requires m.name in s.modules && s.modules[m.name] == m
    requires u == s.(store := u.store, pending := s.pending + {m.name}, worker := Written(m, mt),
                     written := s.written[FluxKey(m, mt) := OwnerOfModule(m)])
    requires u.store.objects.Keys == s.store.objects.Keys + {FluxKey(m, mt)}
    requires t == u.(modules := u.modules[m.name := m.(status := status)], queue := WorkQueue.Done(u.queue, m.name),
                     worker := Idle, last := t.last)
    requires RefsOk(status) && Target(m.(status := status)) == {FluxKey(m, mt)}
    ensures SyncedOnce(s, t, m, mt)
  {
  }

  /** The states of a first sync, from the fetched Module to the published status. */
  lemma SyncStates(version: string, s: State, m: Module, mt: ModuleTemplate)
    returns (written: State, publishing: State, t: State)
    requires ReadyToWrite(version, s, m, mt) && s.worker == Fetched(m) && mt.namespace != ""
    requires m.spec.namespace.Some? ==> m.spec.namespace.value != ""
    ensures written == Next(version, s.(worker := Templated(m, mt)), Write([])) && written.worker.Written?
    ensures publishing == Next(version, written, ObserveFlux(Healthy, 0)) && publishing.worker.Publishing?
    ensures t == Next(version, publishing, PublishStatus(Healthy))
    ensures SyncedOnce(s, t, m, mt)
  {
    var templated := s.(worker := Templated(m, mt));
    ToWritten(version, templated, m, mt);
    written := Next(version, templated, Write([]));
    ToPublishing(version, written, m, mt);
    publishing := Next(version, written, ObserveFlux(Healthy, 0));
    ToIdle(version, publishing, m);
    t := Next(version, publishing, PublishStatus(Healthy));
    SyncsOnce(s, written, t, m, mt, publishing.worker.status);
  }

  /** The writing half of a first sync. */
  lemma WritingHalf(version: string, s: State, m: Module, mt: ModuleTemplate)
    requires ReadyToWrite(version, s, m, mt) && s.worker == Fetched(m) && mt.namespace != ""
    requires m.spec.namespace.Some? ==> m.spec.namespace.value != ""
    ensures var templated := s.(worker := Templated(m, mt));
      IsRun(version, templated, WRITING) && SyncedOnce(s, After(version, templated, WRITING), m, mt)
  {
    var written, publishing, t := SyncStates(version, s, m, mt);
    LateSyncing(version, s.(worker := Templated(m, mt)), written, publishing, t);
  }

  /** A fetched Module's first sync into a namespace. */
  lemma FirstSync(version: string, s: State, m: Module, mt: ModuleTemplate) returns (steps: seq<Step>)
    requires ReadyToWrite(version, s, m, mt) && s.worker == Fetched(m) && mt.namespace != ""
    requires m.spec.namespace.Some? ==> m.spec.namespace.value != ""
    ensures IsRun(version, s, steps) && SyncedOnce(s, After(version, s, steps), m, mt)
  {
    ToTemplated(version, s, m, mt);
    WritingHalf(version, s, m, mt);
    EarlySyncing(version, s, s.(worker := Guarding(m)), s.(worker := Templated(m, mt)), WRITING);
    steps := [Guard(Healthy)] + ([FetchTemplate(Healthy)] + WRITING);
  }

  /** A waiting Module's whole first turn: delivery, claim, fetch, sync. */
  lemma FirstTurn(version: string, s: State, m: Module, mt: ModuleTemplate) returns (steps: seq<Step>)
    requires ReadyToWrite(version, s, m, mt) && mt.namespace != ""
    requires m.spec.namespace.Some? ==> m.spec.namespace.value != ""
    requires s.worker == Idle && s.queue == WorkQueue.EMPTY && s.pending == {m.name}
    ensures IsRun(version, s, steps)
    ensures var t := After(version, s, steps);
      SyncedOnce(s, t, m, mt) && t.queue == WorkQueue.EMPTY && t.pending == {m.name}
  {
    Fetching(version, s, m.name);
    var fetching := [Deliver(m.name), Take(m.name), Fetch(Healthy)];
    var fetched := After(version, s, fetching);
    var syncing := FirstSync(version, fetched, m, mt);
    Appended(version, s, fetching, syncing);
    steps := fetching + syncing;
  }

  /** A start with one guarded Module, its template, and two namespaces. */
  function TwoHomes(name: string, mt: ModuleTemplate, a: string, b: string): State {
    var space := Object(map[], [], NamespaceObject);
    State(map[name := Homed(name, mt, a)], map[mt.name := mt],
          Store(map[NamespaceKey(a) := space, NamespaceKey(b) := space], false), {},
          WorkQueue.EMPTY, {name}, Idle, map[], map[], 1)
  }

  function Homed(name: string, mt: ModuleTemplate, a: string): Module {
    Module(name, 0, 1, false, {FINALIZER}, ModuleSpec(mt.name, Some(a), None), NO_MODULE_STATUS)
  }

  /** The override of a Module that has synced once is edited: it is ready for a first write in the other namespace. */
  lemma MoveIsReady(version: string, s: State, t: State, name: string, mt: ModuleTemplate, a: string, b: string)
    requires s == TwoHomes(name, mt, a, b) && SyncedOnce(s, t, Homed(name, mt, a), mt)
    requires t.pending == {name} && t.queue == WorkQueue.EMPTY
    requires a != "" && b != "" && a != b && (mt.helmRelease.Some? || mt.kustomization.Some?)
    ensures var edit := EditModule(name, ModuleSpec(mt.name, Some(b), None));
      Enabled(t, edit)
      && var u := Next(version, t, edit);
      u == t.(modules := u.modules) && name in u.modules && ReadyToWrite(version, u, u.modules[name], mt)
      && u.modules[name].spec == ModuleSpec(mt.name, Some(b), None) && u.modules[name].uid == 0
  {
    var u := Next(version, t, EditModule(name, ModuleSpec(mt.name, Some(b), None)));
    assert u.pending == t.pending;
    var key := FluxKey(u.modules[name], mt);
    assert key.namespace == b && key.kind != NamespaceKind;
  }

  /** Deletion requested of a Module that has synced: it waits, marked, under its finalizer. */
  lemma MarkedForDeletion(version: string, t: State, name: string)
    requires name in t.modules && !t.modules[name].deleting && t.modules[name].finalizers == {FINALIZER}
    requires t.pending == {name}
    ensures Enabled(t, RequestDeletion(name))
    ensures var u := Next(version, t, RequestDeletion(name));
      u == t.(modules := u.modules) && name in u.modules && u.modules[name].deleting
      && u.modules[name].status == t.modules[name].status && u.modules[name].name == t.modules[name].name
      && u.modules[name].finalizers == {FINALIZER}
  {
    assert t.pending + {name} == t.pending;
  }

  /** From the second sync to the end of the deletion. */
  lemma DeletionAfterSync(version: string, t: State, name: string, status: ModuleStatus) returns (steps: seq<Step>)
    requires Inv(version, t) && t.worker == Idle && t.queue == WorkQueue.EMPTY && t.pending == {name}
    requires name in t.modules && !t.modules[name].deleting && t.modules[name].finalizers == {FINALIZER}
    requires t.modules[name].name == name && t.modules[name].status == status && RefsOk(status)
    ensures IsRun(version, t, steps) && After(version, t, steps).worker == Idle
    ensures After(version, t, steps).written == t.written - Target(t.modules[name])
    ensures name !in After(version, t, steps).modules
  {
    MarkedForDeletion(version, t, name);
    var marked := Next(version, t, RequestDeletion(name));
    Fetching(version, marked, name);
    var fetching := [Deliver(name), Take(name), Fetch(Healthy)];
    var fetched := After(version, marked, fetching);
    assert fetched.written == t.written && fetched.store == t.store;
    StepKeepsInv(version, t, RequestDeletion(name));
    RunKeepsInv(version, marked, fetching);
    var cleanup := CleanupLeavesTheRest(version, fetched);
    Appended(version, marked, fetching, cleanup);
    Prepend(version, t, RequestDeletion(name), fetching + cleanup);
    steps := [RequestDeletion(name)] + (fetching + cleanup);
  }

  /** Both syncs, with the edit between them. */
  lemma TwoSyncs(version: string, name: string, mt: ModuleTemplate, a: string, b: string) returns (steps: seq<Step>)
    requires a != "" && b != "" && a != b && mt.namespace != "" && (mt.helmRelease.Some? || mt.kustomization.Some?)
    ensures var s := TwoHomes(name, mt, a, b);
      IsRun(version, s, steps)
      && var t := After(version, s, steps);
      var left, right := FluxKey(Homed(name, mt, a), mt), FluxKey(Homed(name, mt, b), mt);
      t.worker == Idle && t.queue == WorkQueue.EMPTY && t.pending == {name} && name in t.modules
      && t.modules[name].name == name && !t.modules[name].deleting && t.modules[name].finalizers == {FINALIZER}
      && RefsOk(t.modules[name].status) && Target(t.modules[name]) == {right}
      && t.written == map[left := OwnerOfModule(Homed(name, mt, a)), right := OwnerOfModule(Homed(name, mt, a))]
  {
    var s := TwoHomes(name, mt, a, b);
    var m := s.modules[name];
    var first := FirstTurn(version, s, m, mt);
    var synced := After(version, s, first);
    MoveIsReady(version, s, synced, name, mt, a, b);
    var edit := EditModule(name, ModuleSpec(mt.name, Some(b), None));
    var edited := Next(version, synced, edit);
    var second := FirstTurn(version, edited, edited.modules[name], mt);
    Prepend(version, synced, edit, second);
    Appended(version, s, first, [edit] + second);
    steps := first + ([edit] + second);
  }

  lemma SyncsThenDeletion(version: string, name: string, mt: ModuleTemplate, a: string, b: string)
    returns (steps: seq<Step>)
    requires a != "" && b != "" && a != b && mt.namespace != "" && (mt.helmRelease.Some? || mt.kustomization.Some?)
    ensures IsRun(version, TwoHomes(name, mt, a, b), steps)
    ensures var t := After(version, TwoHomes(name, mt, a, b), steps);
      var left, right := FluxKey(Homed(name, mt, a), mt), FluxKey(Homed(name, mt, b), mt);
      name !in t.modules && right !in t.written && left in t.written
      && t.written[left] == OwnerOfModule(Homed(name, mt, a))
  {
    var s := TwoHomes(name, mt, a, b);
    var syncs := TwoSyncs(version, name, mt, a, b);
    var synced := After(version, s, syncs);
    InitialIsSound(version, s);
    RunKeepsInv(version, s, syncs);
    var deletion := DeletionAfterSync(version, synced, name, synced.modules[name].status);
    Appended(version, s, syncs, deletion);
    steps := syncs + deletion;
  }

  /**
   * Abandonment happens, for every Module and template: it syncs into one namespace, its override is edited, it syncs
   * into the other, and it is deleted. Cleanup takes the second object; when the Module is gone the first still
   * exists, under its reference.
   */
  lemma AbandonmentHappens(version: string, name: string, mt: ModuleTemplate, a: string, b: string)
    returns (steps: seq<Step>)
    requires a != "" && b != "" && a != b && mt.namespace != "" && (mt.helmRelease.Some? || mt.kustomization.Some?)
    ensures var s := TwoHomes(name, mt, a, b);
      Initial(s) && IsRun(version, s, steps)
      && var t := After(version, s, steps);
      var left, right := FluxKey(Homed(name, mt, a), mt), FluxKey(Homed(name, mt, b), mt);
      name !in t.modules && right !in t.written && left in t.written && left in t.store.objects
      && ControllerOf(t.store.objects[left].owners) == Some(OwnerOfModule(Homed(name, mt, a)))
  {
    steps := SyncsThenDeletion(version, name, mt, a, b);
    WrittenObjectsAreOwned(version, TwoHomes(name, mt, a, b), steps, FluxKey(Homed(name, mt, a), mt), {});
  }
}
