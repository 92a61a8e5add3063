/** What every run of the Module protocol guarantees. */
module ModuleProtocolRuns {
  import opened Prelude
  import opened Metadata
  import opened Conditions
  import opened Objects
  import opened Cluster
  import opened Api
  import opened Server
  import WorkQueue
  import opened ModuleResources
  import opened ModuleController
  import opened ModuleRuns
  import opened ModuleProtocol

  predicate IsRun(version: string, s: State, steps: seq<Step>)
    decreases |steps|
  {
    steps == [] || (Enabled(s, steps[0]) && IsRun(version, Next(version, s, steps[0]), steps[1..]))
  }

  function After(version: string, s: State, steps: seq<Step>): State
    requires IsRun(version, s, steps)
    decreases |steps|
  {
    if steps == [] then s else After(version, Next(version, s, steps[0]), steps[1..])
  }

  lemma {:induction false} RunKeepsInv(version: string, s: State, steps: seq<Step>)
    requires Inv(version, s) && IsRun(version, s, steps)
    ensures Inv(version, After(version, s, steps))
    decreases |steps|
  {
    if steps == [] {
    } else {
      StepKeepsInv(version, s, steps[0]);
      RunKeepsInv(version, Next(version, s, steps[0]), steps[1..]);
    }
  }

  /** What a successful last run promises, on the objects themselves. */
  predicate UpToDate(version: string, s: State, m: Module, observed: bool) {
    m.spec.templateRef in s.templates &&
    var mt := s.templates[m.spec.templateRef];
    FluxIs(s.store, m, mt, version) && Published(m.status, m, mt)
    && if observed then Mirrors(m.status, m, mt, s.store.objects[RequiredKey(m, mt)])
       else SaysGetFailed(m.status, m, mt)
  }

  /**
   * No lost wake-up, over every run: a Module that is not queued, processed, dirty or woken, and whose template has no
   * event outstanding, is released if it is deleting; otherwise its last run ended with success and it is up to date,
   * or with a permanent error that still applies.
   */
  lemma NoLostWakeup(version: string, s: State, steps: seq<Step>, n: string)
    requires Initial(s) && IsRun(version, s, steps)
    requires var t := After(version, s, steps); Calm(t, n) && n !in t.queue.processing
    ensures var t := After(version, s, steps);
      var m := t.modules[n];
      if m.deleting then FINALIZER !in m.finalizers
      else
        n in t.last &&
        match t.last[n]
        case Succeeded(observed) => UpToDate(version, t, m, observed)
        case MissingTemplate => m.spec.templateRef !in t.templates
        case InvalidTemplate =>
          m.spec.templateRef in t.templates
          && t.templates[m.spec.templateRef].helmRelease.None? && t.templates[m.spec.templateRef].kustomization.None?
  {
    InitialIsSound(version, s);
    RunKeepsInv(version, s, steps);
    var t := After(version, s, steps);
    assert Resting(version, t, n);
    var m := t.modules[n];
    if !m.deleting && t.last[n].Succeeded? {
      FluxSettled(t.store, m, t.templates[m.spec.templateRef], version);
    }
  }

  /** A change that withdraws no event, no request and no Module with its template. */
  predicate KeepsScheduled(s: State, t: State, n: string) {
    (n in s.pending || n in s.queue.dirty ==> n in t.pending || n in t.queue.dirty)
    && (n in t.modules ==>
          n in t.pending || (n in s.modules && t.modules[n].spec.templateRef == s.modules[n].spec.templateRef))
    && (n in t.modules && t.modules[n].spec.templateRef in s.templateEvents ==>
          t.modules[n].spec.templateRef in t.templateEvents || n in t.pending)
  }

  predicate ByWorker(step: Step) {
    step.Take? || step.Fetch? || step.Guard? || step.FetchTemplate? || step.Write? || step.ObserveFlux?
    || step.PublishStatus? || step.RecordFailure? || step.StartCleanup? || step.Purge? || step.Release?
  }

  lemma OutsideKeepsScheduled(version: string, s: State, step: Step, n: string)
    requires Enabled(s, step) && !ByWorker(step)
    ensures KeepsScheduled(s, Next(version, s, step), n)
  {
  }

  lemma WritesKeepScheduled(version: string, s: State, step: Step, n: string)
    requires Enabled(s, step) && (step.Write? || step.Purge? || step.Fetch? || step.FetchTemplate? || step.ObserveFlux?)
    ensures KeepsScheduled(s, Next(version, s, step), n)
  {
  }

  /** The same Modules or fewer, each with its spec. */
  predicate SpecsKept(before: map<string, Module>, after: map<string, Module>) {
    forall n :: n in after ==> n in before && after[n].spec == before[n].spec
  }

  lemma StatusPatchKeepsSpecs(world: World, name: string, base: ModuleStatus, desired: ModuleStatus)
    ensures SpecsKept(world.modules, PatchModuleStatus(world, name, base, desired).world.modules)
  {
  }

  lemma FinalizerPatchKeepsSpecs(world: World, name: string, finalizers: set<string>)
    ensures SpecsKept(world.modules, PatchFinalizers(world, name, finalizers).world.modules)
  {
  }

  lemma KeptSpecsKeepScheduled(s: State, t: State, n: string)
    requires SpecsKept(s.modules, t.modules) && s.pending <= t.pending && s.queue.dirty <= t.queue.dirty
    requires s.templateEvents <= t.templateEvents
    ensures KeepsScheduled(s, t, n)
  {
  }

  /** The end of a run, with or without an outcome on record, is such a change. */
  lemma FinishKeepsScheduled(s: State, modules: map<string, Module>, name: string, retry: bool, outcome: Outcome,
                             n: string)
    requires SpecsKept(s.modules, modules)
    ensures KeepsScheduled(s, Finish(s.(modules := modules), name, retry), n)
    ensures KeepsScheduled(s, Settle(s.(modules := modules), name, outcome), n)
  {
    KeptSpecsKeepScheduled(s, Finish(s.(modules := modules), name, retry), n);
    KeptSpecsKeepScheduled(s, Settle(s.(modules := modules), name, outcome), n);
  }

  lemma GuardKeepsScheduled(version: string, s: State, fault: Fault, n: string)
    requires Enabled(s, Guard(fault))
    ensures KeepsScheduled(s, Next(version, s, Guard(fault)), n)
  {
    var m := s.worker.m;
    var r := PatchFinalizers(Around(s, [fault]), m.name, m.finalizers + {FINALIZER});
    FinalizerPatchKeepsSpecs(Around(s, [fault]), m.name, m.finalizers + {FINALIZER});
    var t := Next(version, s, Guard(fault));
    if FINALIZER !in m.finalizers && r.err.Some? {
      assert t == Finish(s.(modules := r.world.modules), m.name, true);
      FinishKeepsScheduled(s, r.world.modules, m.name, true, MissingTemplate, n);
    } else {
      KeptSpecsKeepScheduled(s, t, n);
    }
  }

  lemma ReleaseKeepsScheduled(version: string, s: State, fault: Fault, n: string)
    requires Enabled(s, Release(fault))
    ensures KeepsScheduled(s, Next(version, s, Release(fault)), n)
  {
    var m := s.worker.m;
    var r := PatchFinalizers(Around(s, [fault]), m.name, m.finalizers - {FINALIZER});
    FinalizerPatchKeepsSpecs(Around(s, [fault]), m.name, m.finalizers - {FINALIZER});
    assert Next(version, s, Release(fault)) == Finish(s.(modules := r.world.modules), m.name, r.err.Some?);
    FinishKeepsScheduled(s, r.world.modules, m.name, r.err.Some?, MissingTemplate, n);
  }

  lemma PublishKeepsScheduled(version: string, s: State, fault: Fault, n: string)
    requires Enabled(s, PublishStatus(fault))
    ensures KeepsScheduled(s, Next(version, s, PublishStatus(fault)), n)
  {
    var Publishing(m, mt, status, observed) := s.worker;
    var r := PatchModuleStatus(Around(s, [fault]), m.name, m.status, status);
    StatusPatchKeepsSpecs(Around(s, [fault]), m.name, m.status, status);
    FinishKeepsScheduled(s, s.modules, m.name, true, Succeeded(observed), n);
    FinishKeepsScheduled(s, r.world.modules, m.name, true, Succeeded(observed), n);
    assert s.(modules := s.modules) == s;
  }

  lemma FailureKeepsScheduled(version: string, s: State, fault: Fault, now: nat, n: string)
    requires Enabled(s, RecordFailure(fault, now))
    ensures KeepsScheduled(s, Next(version, s, RecordFailure(fault, now)), n)
  {
    var Failing(m, e) := s.worker;
    var desired := FailedModuleStatus(m, e, now);
    var modules := PatchModuleStatus(Around(s, [fault]), m.name, m.status, desired).world.modules;
    StatusPatchKeepsSpecs(Around(s, [fault]), m.name, m.status, desired);
    FinishKeepsScheduled(s, modules, m.name, true, if e.TemplateNotFound? then MissingTemplate else InvalidTemplate, n);
    assert Next(version, s, RecordFailure(fault, now)) == AfterFailure(s, m, e, modules);
  }

  lemma StepKeepsAwake(version: string, s: State, step: Step, n: string)
    requires !Calm(s, n) && Enabled(s, step) && step != Take(n)
    ensures !Calm(Next(version, s, step), n)
  {
    if !ByWorker(step) {
      OutsideKeepsScheduled(version, s, step, n);
    } else {
      match step {
        case Take(_) => assert KeepsScheduled(s, Next(version, s, step), n);
        case Guard(fault) => GuardKeepsScheduled(version, s, fault, n);
        case Release(fault) => ReleaseKeepsScheduled(version, s, fault, n);
        case StartCleanup(_) => KeptSpecsKeepScheduled(s, Next(version, s, step), n);
        case PublishStatus(fault) => PublishKeepsScheduled(version, s, fault, n);
        case RecordFailure(fault, now) => FailureKeepsScheduled(version, s, fault, now, n);
        case _ => WritesKeepScheduled(version, s, step, n);
      }
    }
    ScheduledStaysAwake(s, Next(version, s, step), n);
  }

  lemma ScheduledStaysAwake(s: State, t: State, n: string)
    requires !Calm(s, n) && KeepsScheduled(s, t, n)
    ensures !Calm(t, n)
  {
  }

  /** A Module that is scheduled stays so until the worker takes it. */
  lemma {:induction false} AwakeUntilTaken(version: string, s: State, steps: seq<Step>, n: string)
    requires !Calm(s, n) && IsRun(version, s, steps) && Take(n) !in steps
    ensures !Calm(After(version, s, steps), n)
    decreases |steps|
  {
    if steps == [] {
    } else {
      StepKeepsAwake(version, s, steps[0], n);
      AwakeUntilTaken(version, Next(version, s, steps[0]), steps[1..], n);
    }
  }

  /** Creating the missing template schedules every Module parked on it, until the worker has taken that Module. */
  lemma ParkedModulesWake(version: string, s: State, mt: ModuleTemplate, steps: seq<Step>, n: string)
    requires n in s.modules && s.modules[n].spec.templateRef == mt.name && Enabled(s, PutTemplate(mt))
    requires IsRun(version, Next(version, s, PutTemplate(mt)), steps) && Take(n) !in steps
    ensures !Calm(After(version, Next(version, s, PutTemplate(mt)), steps), n)
  {
    AwakeUntilTaken(version, Next(version, s, PutTemplate(mt)), steps, n);
  }

  /** The Module objects that are alive, by uid. */
  function LiveUids(s: State): set<nat> {
    set n | n in s.modules :: s.modules[n].uid
  }

  /** An owner that still exists; `others` are the uids alive among owners that are not Modules. */
  predicate OwnerLives(s: State, others: set<nat>, ref: OwnerRef) {
    if ref.kind == ModuleOwner then ref.uid in LiveUids(s) else ref.uid in others
  }

  /** An object is collected when it has owners and none of them lives. */
  predicate Orphaned(s: State, others: set<nat>, o: Object) {
    o.owners != [] && forall i :: 0 <= i < |o.owners| ==> !OwnerLives(s, others, o.owners[i])
  }

  /** One garbage-collection pass over Flux objects. */
  function Collected(s: State, others: set<nat>): map<Key, Object> {
    map k | k in s.store.objects && !Orphaned(s, others, s.store.objects[k]) :: s.store.objects[k]
  }

  predicate WriterLives(s: State, k: Key)
    requires k in s.written
  {
    exists n :: n in s.modules && s.modules[n].uid == s.written[k].uid
  }

  /** Someone besides the writer owns the object and lives. */
  predicate OtherOwnerLives(s: State, others: set<nat>, k: Key)
    requires k in s.written && k in s.store.objects
  {
    var owners := s.store.objects[k].owners;
    exists i :: 0 <= i < |owners| && owners[i] != s.written[k] && OwnerLives(s, others, owners[i])
  }

  /**
   * Over every run, each Flux object the controller wrote, abandoned ones included, carries the reference of its
   * writer; a writer still alive and not deleting carries the finalizer; and a collection pass spares an object exactly
   * when its writer or some other owner of it lives.
   */
  lemma WrittenObjectsAreOwned(version: string, s: State, steps: seq<Step>, k: Key, others: set<nat>)
    requires Initial(s) && IsRun(version, s, steps) && k in After(version, s, steps).written
    ensures var t := After(version, s, steps);
      k in t.store.objects && ControllerOf(t.store.objects[k].owners) == Some(t.written[k])
      && (forall n :: n in t.modules && t.modules[n].uid == t.written[k].uid && !t.modules[n].deleting ==>
            FINALIZER in t.modules[n].finalizers)
      && (k in Collected(t, others) <==> WriterLives(t, k) || OtherOwnerLives(t, others, k))
      && (t.written[k].name !in t.modules ==> (k in Collected(t, others) <==> OtherOwnerLives(t, others, k)))
  {
    InitialIsSound(version, s);
    RunKeepsInv(version, s, steps);
    SparedIffOwned(After(version, s, steps), k, others);
  }

  lemma SparedIffOwned(s: State, k: Key, others: set<nat>)
    requires k in s.written && k in s.store.objects && s.written[k].kind == ModuleOwner
    requires ControllerOf(s.store.objects[k].owners) == Some(s.written[k])
    ensures k in Collected(s, others) <==> WriterLives(s, k) || OtherOwnerLives(s, others, k)
  {
    var owners := s.store.objects[k].owners;
    assert s.written[k] in owners;
    assert WriterLives(s, k) <==> OwnerLives(s, others, s.written[k]);
    var w :| 0 <= w < |owners| && owners[w] == s.written[k];
    if WriterLives(s, k) {
      assert OwnerLives(s, others, owners[w]);
    }
  }

  /** The worker is done with `name`, with the cluster that a sequential run leaves, and retries if that run failed. */
  predicate Reached(t: State, name: string, r: Ran) {
    t.worker == Idle && t.store == r.world.store && t.modules == r.world.modules && (r.err.Some? ==> name in t.pending)
  }

  lemma Prepend(version: string, s: State, step: Step, rest: seq<Step>)
    requires Enabled(s, step) && IsRun(version, Next(version, s, step), rest)
    ensures IsRun(version, s, [step] + rest)
    ensures After(version, s, [step] + rest) == After(version, Next(version, s, step), rest)
  {
    assert ([step] + rest)[1..] == rest;
  }

  /** A patch looks at the next fault only and leaves the store alone. */
  lemma PatchesUseNextFault(s: State, world: World, name: string, base: ModuleStatus, desired: ModuleStatus,
                            finalizers: set<string>)
    requires s.modules == world.modules
    ensures var here, there := PatchModuleStatus(Around(s, [Head(world.faults)]), name, base, desired),
                               PatchModuleStatus(world, name, base, desired);
      here.world.modules == there.world.modules && here.err == there.err && there.world.store == world.store
    ensures var here, there := PatchFinalizers(Around(s, [Head(world.faults)]), name, finalizers),
                               PatchFinalizers(world, name, finalizers);
      here.world.modules == there.world.modules && here.err == there.err && there.world.store == world.store
  {
    assert Head([Head(world.faults)]) == Head(world.faults);
  }

  lemma FailingTurn(version: string, s: State, faults: seq<Fault>, now: nat) returns (steps: seq<Step>)
    requires s.worker.Failing?
    ensures IsRun(version, s, steps)
    ensures Reached(After(version, s, steps), s.worker.m.name,
                    HandleModuleError(Around(s, faults), s.worker.m, s.worker.error, now))
  {
    var Failing(m, e) := s.worker;
    var step := RecordFailure(Head(faults), now);
    PatchesUseNextFault(s, Around(s, faults), m.name, m.status, FailedModuleStatus(m, e, now), {});
    var modules :=
        PatchModuleStatus(Around(s, [Head(faults)]), m.name, m.status, FailedModuleStatus(m, e, now)).world.modules;
    assert Next(version, s, step) == AfterFailure(s, m, e, modules);
    FailureReached(s, m, e, HandleModuleError(Around(s, faults), m, e, now));
    Prepend(version, s, step, []);
    steps := [step] + [];
  }

  lemma FailureReached(s: State, m: Module, e: Error, r: Ran)
    requires r.world.store == s.store && r.err == (if IsPermanent(e) then None else Some(e))
    ensures Reached(AfterFailure(s, m, e, r.world.modules), m.name, r)
  {
  }

  lemma PublishTurn(version: string, s: State, faults: seq<Fault>) returns (steps: seq<Step>)
    requires s.worker.Publishing?
    ensures IsRun(version, s, steps)
    ensures var Publishing(m, _, status, _) := s.worker;
      Reached(After(version, s, steps), m.name,
              if status == m.status then Ran(Around(s, faults), None)
              else PatchModuleStatus(Around(s, faults), m.name, m.status, status))
  {
    var step := PublishStatus(Head(faults));
    Prepend(version, s, step, []);
    assert [step] + [] == [step] && Head([Head(faults)]) == Head(faults);
    steps := [step];
  }

  lemma ReportTurn(version: string, s: State, faults: seq<Fault>, now: nat) returns (steps: seq<Step>)
    requires s.worker.Written?
    ensures IsRun(version, s, steps)
    ensures Reached(After(version, s, steps), s.worker.m.name,
                    PublishModuleStatus(Around(s, faults), s.worker.m, s.worker.mt, now))
  {
    var step := ObserveFlux(Head(faults), now);
    var t := Next(version, s, step);
    assert Head([Head(faults)]) == Head(faults);
    var rest := PublishTurn(version, t, Rest(faults));
    Prepend(version, s, step, rest);
    steps := [step] + rest;
  }

  lemma WriteTurn(version: string, s: State, faults: seq<Fault>, now: nat) returns (steps: seq<Step>)
    requires s.worker.Templated? && FluxOp(s.worker.m, s.worker.mt, version).Some?
    ensures IsRun(version, s, steps)
    ensures var written := Perform(Around(s, faults), FluxOp(s.worker.m, s.worker.mt, version).value);
      Reached(After(version, s, steps), s.worker.m.name,
              if written.err.Some? then HandleModuleError(written.world, s.worker.m, written.err.value, now)
              else PublishModuleStatus(written.world, s.worker.m, s.worker.mt, now))
  {
    var t := Next(version, s, Write(faults));
    var called := CallOp(s.store, faults, FluxOp(s.worker.m, s.worker.mt, version).value);
    var rest: seq<Step>;
    if called.err.Some? {
      rest := FailingTurn(version, t, called.faults, now);
    } else {
      rest := ReportTurn(version, t, called.faults, now);
    }
    Prepend(version, s, Write(faults), rest);
    steps := [Write(faults)] + rest;
  }

  /** The template fetch moves the worker on as the sequential sync does. */
  lemma FetchAdvances(version: string, s: State, faults: seq<Fault>, now: nat)
    requires s.worker.Guarding? && StoredWell(s)
    ensures var t := Next(version, s, FetchTemplate(Head(faults)));
      var m := s.worker.m;
      t == s.(worker := t.worker)
      && (t.worker.Failing? || (t.worker.Templated? && FluxOp(m, t.worker.mt, version).Some?)) && t.worker.m == m
      && SyncModule(Around(s, faults), m, version, now) ==
           if t.worker.Failing? then HandleModuleError(Around(t, Rest(faults)), m, t.worker.error, now)
           else
             var written := Perform(Around(t, Rest(faults)), FluxOp(m, t.worker.mt, version).value);
             if written.err.Some? then HandleModuleError(written.world, m, written.err.value, now)
             else PublishModuleStatus(written.world, m, t.worker.mt, now)
  {
    assert Head([Head(faults)]) == Head(faults);
    FetchTemplateOutcome(version, s, Head(faults));
  }

  lemma SyncTurn(version: string, s: State, faults: seq<Fault>, now: nat) returns (steps: seq<Step>)
    requires s.worker.Guarding? && StoredWell(s)
    ensures IsRun(version, s, steps)
    ensures Reached(After(version, s, steps), s.worker.m.name, SyncModule(Around(s, faults), s.worker.m, version, now))
  {
    var step := FetchTemplate(Head(faults));
    var t := Next(version, s, step);
    FetchAdvances(version, s, faults, now);
    var rest: seq<Step>;
    if t.worker.Failing? {
      rest := FailingTurn(version, t, Rest(faults), now);
    } else {
      rest := WriteTurn(version, t, Rest(faults), now);
    }
    Prepend(version, s, step, rest);
    steps := [step] + rest;
  }

  lemma ReleaseTurn(version: string, s: State, faults: seq<Fault>) returns (steps: seq<Step>)
    requires s.worker.Purging? && s.worker.ops == []
    ensures IsRun(version, s, steps)
    ensures var m := s.worker.m;
      Reached(After(version, s, steps), m.name, PatchFinalizers(Around(s, faults), m.name, m.finalizers - {FINALIZER}))
  {
    var m := s.worker.m;
    var step := Release(Head(faults));
    PatchesUseNextFault(s, Around(s, faults), m.name, m.status, m.status, m.finalizers - {FINALIZER});
    var r := PatchFinalizers(Around(s, [Head(faults)]), m.name, m.finalizers - {FINALIZER});
    assert Next(version, s, step) == Finish(s.(modules := r.world.modules), m.name, r.err.Some?);
    Prepend(version, s, step, []);
    steps := [step] + [];
  }

  /** One cleanup call moves the worker on as the sequential run of the operations does. */
  lemma PurgeAdvances(version: string, s: State, faults: seq<Fault>)
    requires s.worker.Purging? && s.worker.ops != []
    ensures var Purging(m, ops) := s.worker;
      var t := Next(version, s, Purge(faults));
      var first := Perform(Around(s, faults), ops[0]);
      if first.err.Some? then Reached(t, m.name, first)
      else t.worker == Purging(m, ops[1..]) && Around(t, first.world.faults) == first.world
  {
  }

  lemma {:induction false} CleanupTurn(version: string, s: State, faults: seq<Fault>) returns (steps: seq<Step>)
    requires s.worker.Purging?
    ensures IsRun(version, s, steps)
    ensures var Purging(m, ops) := s.worker;
      var cleaned := RunOps(Around(s, faults), ops);
      Reached(After(version, s, steps), m.name,
              if cleaned.err.Some? then cleaned else PatchFinalizers(cleaned.world, m.name, m.finalizers - {FINALIZER}))
    decreases |s.worker.ops|
  {
    if s.worker.ops == [] {
      steps := ReleaseTurn(version, s, faults);
      return;
    }
    PurgeAdvances(version, s, faults);
    var first := Perform(Around(s, faults), s.worker.ops[0]);
    var rest: seq<Step> := [];
    if first.err.None? {
      rest := CleanupTurn(version, Next(version, s, Purge(faults)), first.world.faults);
    }
    Prepend(version, s, Purge(faults), rest);
    steps := [Purge(faults)] + rest;
  }

  lemma ResolvedAlike(s: State, faults: seq<Fault>, m: Module)
    ensures var here, there := ResolveCleanupNamespace(Around(s, [Head(faults)]), m),
        ResolveCleanupNamespace(Around(s, faults), m);
      here.namespace == there.namespace && there.world == Around(s, there.world.faults)
  {
    assert Head([Head(faults)]) == Head(faults);
  }

  lemma DeletionTurn(version: string, s: State, faults: seq<Fault>) returns (steps: seq<Step>)
    requires s.worker.Fetched? && s.worker.m.deleting
    ensures IsRun(version, s, steps)
    ensures Reached(After(version, s, steps), s.worker.m.name, DeleteModule(Around(s, faults), s.worker.m))
  {
    var m := s.worker.m;
    var step := StartCleanup(Head(faults));
    var rest: seq<Step> := [];
    if FINALIZER in m.finalizers {
      ResolvedAlike(s, faults, m);
      var resolved := ResolveCleanupNamespace(Around(s, faults), m);
      var t := s.(worker := Purging(m, CleanupOps(m, resolved.namespace)));
      assert Next(version, s, step) == t && Around(t, resolved.world.faults) == resolved.world;
      rest := CleanupTurn(version, t, resolved.world.faults);
    }
    Prepend(version, s, step, rest);
    steps := [step] + rest;
  }

  /** The guard step under the first fault does what the finalizer patch of the sequential run does. */
  lemma GuardAdvances(version: string, s: State, faults: seq<Fault>)
    requires s.worker.Fetched? && !s.worker.m.deleting && FINALIZER !in s.worker.m.finalizers
    ensures var m := s.worker.m;
      var t := Next(version, s, Guard(Head(faults)));
      var r := PatchFinalizers(Around(s, faults), m.name, m.finalizers + {FINALIZER});
      if r.err.Some? then t == Finish(s.(modules := r.world.modules), m.name, true) && r.world.store == s.store
      else m.name in r.world.modules && t == s.(modules := r.world.modules, worker := Guarding(r.world.modules[m.name]))
           && Around(t, Rest(faults)) == r.world
  {
    var m := s.worker.m;
    PatchesUseNextFault(s, Around(s, faults), m.name, m.status, m.status, m.finalizers + {FINALIZER});
  }

  lemma GuardTurn(version: string, s: State, faults: seq<Fault>, now: nat) returns (steps: seq<Step>)
    requires s.worker.Fetched? && !s.worker.m.deleting && StoredWell(s) && s.worker.m.name in s.modules
    requires s.modules[s.worker.m.name] == s.worker.m
    ensures IsRun(version, s, steps)
    ensures var m := s.worker.m;
      var guarded := if FINALIZER in m.finalizers then Ran(Around(s, faults), None)
                     else PatchFinalizers(Around(s, faults), m.name, m.finalizers + {FINALIZER});
      Reached(After(version, s, steps), m.name,
              if guarded.err.Some? then guarded
              else SyncModule(guarded.world, guarded.world.modules[m.name], version, now))
  {
    var m := s.worker.m;
    var step := Guard(Head(faults));
    var rest: seq<Step> := [];
    if FINALIZER in m.finalizers {
      var t := s.(worker := Guarding(m));
      assert Next(version, s, step) == t && Around(t, faults) == Around(s, faults);
      rest := SyncTurn(version, t, faults, now);
    } else {
      GuardAdvances(version, s, faults);
      var guarded := PatchFinalizers(Around(s, faults), m.name, m.finalizers + {FINALIZER});
      if guarded.err.None? {
        GuardedIsWell(s, m, Around(s, faults));
        rest := SyncTurn(version, Next(version, s, step), Rest(faults), now);
      }
    }
    Prepend(version, s, step, rest);
    steps := [step] + rest;
  }

  lemma GuardedIsWell(s: State, m: Module, world: World)
    requires StoredWell(s) && world.modules == s.modules && m.name in s.modules
    ensures var after := PatchFinalizers(world, m.name, m.finalizers + {FINALIZER}).world.modules;
      StoredWell(s.(modules := after)) && (m.name in after ==> after[m.name].name == m.name)
  {
  }

  /** The turn after a Get that found the Module. */
  lemma FetchedTurn(version: string, s: State, faults: seq<Fault>, now: nat) returns (steps: seq<Step>)
    requires s.worker.Fetched? && StoredWell(s)
    requires s.worker.m.name in s.modules && s.modules[s.worker.m.name] == s.worker.m
    ensures IsRun(version, s, steps)
    ensures var m := s.worker.m;
      Reached(After(version, s, steps), m.name,
              ReconcileModule(Around(s, [Healthy] + faults), m.name, version, now))
  {
    var m := s.worker.m;
    assert Head([Healthy] + faults) == Healthy && Rest([Healthy] + faults) == faults;
    assert Tick(Around(s, [Healthy] + faults)) == Around(s, faults);
    if m.deleting {
      steps := DeletionTurn(version, s, faults);
    } else {
      steps := GuardTurn(version, s, faults, now);
    }
  }

  lemma HealthyReconcile(world: World, name: string, version: string, now: nat)
    requires Head(world.faults) == Healthy
    ensures ReconcileModule(world, name, version, now)
         == ReconcileModule(world.(faults := [Healthy] + Rest(world.faults)), name, version, now)
  {
    var same := world.(faults := [Healthy] + Rest(world.faults));
    assert Rest(same.faults) == Rest(world.faults) && Tick(same) == Tick(world);
  }

  /** Left alone, one turn of the worker is exactly one sequential Reconcile under the same faults. */
  lemma WorkerTurnIsReconcile(version: string, s: State, faults: seq<Fault>, now: nat) returns (steps: seq<Step>)
    requires s.worker.Claimed? && StoredWell(s)
    ensures IsRun(version, s, steps)
    ensures Reached(After(version, s, steps), s.worker.name,
                    ReconcileModule(Around(s, faults), s.worker.name, version, now))
  {
    var name := s.worker.name;
    var step := Fetch(Head(faults));
    var rest: seq<Step> := [];
    if Head(faults) == Healthy && name in s.modules {
      var t := s.(worker := Fetched(s.modules[name]));
      assert Next(version, s, step) == t && Around(t, faults) == Around(s, faults);
      rest := FetchedTurn(version, t, Rest(faults), now);
      HealthyReconcile(Around(s, faults), name, version, now);
    } else {
      assert Next(version, s, step) == Finish(s, name, Head(faults) != Healthy);
    }
    Prepend(version, s, step, rest);
    steps := [step] + rest;
  }

  function OpKeys(ops: seq<Op>): set<Key> {
    if ops == [] then {} else {ops[0].key} + OpKeys(ops[1..])
  }

  /** The worker's Module is stored as it saw it, deleting, with no other finalizer to wait for. */
  predicate LastFinalizer(s: State, m: Module) {
    m.name in s.modules && s.modules[m.name] == m && m.deleting && m.finalizers == {FINALIZER}
  }

  lemma ReleaseRemoves(version: string, s: State)
    requires s.worker.Purging? && s.worker.ops == [] && LastFinalizer(s, s.worker.m)
    ensures s.worker.m.name !in Next(version, s, Release(Healthy)).modules
  {
    var m := s.worker.m;
    assert Head([Healthy]) == Healthy && m.finalizers - {FINALIZER} == {};
    var r := PatchFinalizers(Around(s, [Healthy]), m.name, m.finalizers - {FINALIZER});
    assert r.world.modules == s.modules - {m.name};
    assert Next(version, s, Release(Healthy)) == Finish(s.(modules := r.world.modules), m.name, r.err.Some?);
  }

  lemma PurgeOnce(version: string, s: State)
    requires History(s) && s.worker.Purging? && s.worker.ops != [] && s.worker.ops[0].Remove?
    ensures var t := Next(version, s, Purge([]));
      t.written == s.written - {s.worker.ops[0].key} && t.worker == Purging(s.worker.m, s.worker.ops[1..])
      && t.modules == s.modules
    ensures History(Next(version, s, Purge([])))
  {
    var key := s.worker.ops[0].key;
    if key !in s.store.objects {
      assert s.store.objects - {key} == s.store.objects;
      assert key !in s.written && s.written - {key} == s.written;
    }
  }

  /** From a purging state: the run ends with the worker idle, these keys forgotten, and a lone Module gone. */
  predicate Forgets(version: string, s: State, steps: seq<Step>)
    requires s.worker.Purging? && IsRun(version, s, steps)
  {
    var t := After(version, s, steps);
    t.worker == Idle && t.written == s.written - OpKeys(s.worker.ops)
    && (LastFinalizer(s, s.worker.m) ==> s.worker.m.name !in t.modules)
  }

  lemma ReleaseForgets(version: string, s: State)
    requires s.worker.Purging? && s.worker.ops == []
    ensures IsRun(version, s, [Release(Healthy)]) && Forgets(version, s, [Release(Healthy)])
  {
    Prepend(version, s, Release(Healthy), []);
    assert [Release(Healthy)] + [] == [Release(Healthy)] && s.written - {} == s.written;
    if LastFinalizer(s, s.worker.m) {
      ReleaseRemoves(version, s);
    }
  }

  lemma OneCallForgets(version: string, s: State, t: State, rest: seq<Step>)
    requires s.worker.Purging? && s.worker.ops != [] && t == Next(version, s, Purge([]))
    requires t.worker == Purging(s.worker.m, s.worker.ops[1..]) && t.modules == s.modules
    requires t.written == s.written - {s.worker.ops[0].key}
    requires IsRun(version, t, rest) && Forgets(version, t, rest)
    ensures IsRun(version, s, [Purge([])] + rest) && Forgets(version, s, [Purge([])] + rest)
  {
    var ops := s.worker.ops;
    Prepend(version, s, Purge([]), rest);
    assert s.written - {ops[0].key} - OpKeys(ops[1..]) == s.written - OpKeys(ops);
  }

  /** The cleanup calls take their keys, and no other, out of the history; then the Module is released. */
  lemma {:induction false} PurgeForgets(version: string, s: State) returns (steps: seq<Step>)
    requires History(s) && s.worker.Purging? && forall i :: 0 <= i < |s.worker.ops| ==> s.worker.ops[i].Remove?
    ensures IsRun(version, s, steps) && Forgets(version, s, steps)
    decreases |s.worker.ops|
  {
    if s.worker.ops == [] {
      ReleaseForgets(version, s);
      steps := [Release(Healthy)];
    } else {
      PurgeOnce(version, s);
      var t := Next(version, s, Purge([]));
      var rest := PurgeForgets(version, t);
      OneCallForgets(version, s, t, rest);
      steps := [Purge([])] + rest;
    }
  }

  lemma CleanupKeys(m: Module, namespace: string)
    requires RefsOk(m.status)
    requires m.status.helmReleaseRef.Some? ==> namespace == m.status.helmReleaseRef.value.namespace
    requires m.status.kustomizationRef.Some? ==> namespace == m.status.kustomizationRef.value.namespace
    ensures OpKeys(CleanupOps(m, namespace)) == Target(m)
    ensures forall i :: 0 <= i < |CleanupOps(m, namespace)| ==> CleanupOps(m, namespace)[i].Remove?
  {
    var ops := CleanupOps(m, namespace);
    if ops == [] {
    } else {
      assert ops[1..] == [];
    }
  }

  /**
   * What a released Module leaves behind: undisturbed, its cleanup forgets exactly the object its status names, so the
   * written objects of its uid outside that target are left to garbage collection.
   */
  lemma CleanupLeavesTheRest(version: string, s: State) returns (steps: seq<Step>)
    requires History(s) && s.worker.Fetched? && s.worker.m.deleting && FINALIZER in s.worker.m.finalizers
    requires RefsOk(s.worker.m.status)
    ensures IsRun(version, s, steps) && After(version, s, steps).worker == Idle
    ensures After(version, s, steps).written == s.written - Target(s.worker.m)
    ensures LastFinalizer(s, s.worker.m) ==> s.worker.m.name !in After(version, s, steps).modules
  {
    var m := s.worker.m;
    var namespace := ResolveCleanupNamespace(Around(s, [Healthy]), m).namespace;
    CleanupKeys(m, namespace);
    var t := s.(worker := Purging(m, CleanupOps(m, namespace)));
    assert Next(version, s, StartCleanup(Healthy)) == t;
    var rest := PurgeForgets(version, t);
    Prepend(version, s, StartCleanup(Healthy), rest);
    steps := [StartCleanup(Healthy)] + rest;
  }
}
