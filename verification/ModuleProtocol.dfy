/**
 * The Module controller as a concurrent protocol: one worker, the template handler, users and Flux.
 * `written` is the history of Flux objects the controller wrote and that still exist, with the owner it gave them.
 */
module ModuleProtocol {
  import opened Prelude
  import opened Metadata
  import opened Conditions
  import opened Objects
  import opened Cluster
  import opened Api
  import opened Server
  import WorkQueue
  import opened ModuleResources
  import opened ModuleController
  import opened ModuleRuns

  datatype Worker =
    | Idle
    | Claimed(name: string)
    | Fetched(m: Module)
    | Guarding(m: Module)
    | Templated(m: Module, mt: ModuleTemplate)
    | Written(m: Module, mt: ModuleTemplate)
    | Publishing(m: Module, mt: ModuleTemplate, status: ModuleStatus, observed: bool)
    | Failing(m: Module, error: Error)
    | Purging(m: Module, ops: seq<Op>)

  /** How the last run of a Module ended, when it was not to be retried. */
  datatype Outcome = Succeeded(observed: bool) | MissingTemplate | InvalidTemplate

  datatype State = State(
    modules: map<string, Module>,
    templates: map<string, ModuleTemplate>,
    store: Store,
    templateEvents: set<string>,
    queue: WorkQueue.Queue,
    pending: set<string>,
    worker: Worker,
    last: map<string, Outcome>,
    written: map<Key, ControllerRef>,
    nextUid: nat)

  datatype Step =
    | CreateModule(name: string, spec: ModuleSpec)
    | EditModule(name: string, spec: ModuleSpec)
    | RequestDeletion(name: string)
    | PutTemplate(mt: ModuleTemplate)
    | DropTemplate(name: string)
    | HandleTemplateEvent(name: string)
    | ChangeFlux(key: Key, o: Object)
    | AddNamespace(name: string, o: Object)
    | Vanish(keys: set<Key>)
    | Resync(name: string)
    | Deliver(name: string)
    | Take(name: string)
    | Fetch(fault: Fault)
    | Guard(fault: Fault)
    | FetchTemplate(fault: Fault)
    | Write(faults: seq<Fault>)
    | ObserveFlux(fault: Fault, now: nat)
    | PublishStatus(fault: Fault)
    | RecordFailure(fault: Fault, now: nat)
    | StartCleanup(fault: Fault)
    | Purge(faults: seq<Fault>)
    | Release(fault: Fault)

  predicate ValidModuleSpec(spec: ModuleSpec) {
    spec.namespace.Some? ==> spec.namespace.value != ""
  }

  /** Users and Flux may change or remove any object; they leave the controller reference of a Flux object alone. */
  predicate Enabled(s: State, step: Step) {
    match step
    case CreateModule(name, spec) => name !in s.modules && ValidModuleSpec(spec)
    case EditModule(name, spec) =>
      name in s.modules && ValidModuleSpec(spec) && spec.templateRef == s.modules[name].spec.templateRef
    case RequestDeletion(name) => name in s.modules && !s.modules[name].deleting
    case PutTemplate(mt) => mt.namespace != ""
    case DropTemplate(_) => true
    case HandleTemplateEvent(name) => name in s.templateEvents
    case ChangeFlux(key, o) => IsFlux(key.kind) && (key in s.store.objects ==> o.owners == s.store.objects[key].owners)
    case AddNamespace(_, _) => true
    case Vanish(_) => true
    case Resync(_) => true
    case Deliver(name) => name in s.pending
    case Take(name) => s.worker.Idle? && name in s.queue.queued
    case Fetch(_) => s.worker.Claimed?
    case Guard(_) => s.worker.Fetched? && !s.worker.m.deleting
    case FetchTemplate(_) => s.worker.Guarding?
    case Write(_) => s.worker.Templated?
    case ObserveFlux(_, _) => s.worker.Written?
    case PublishStatus(_) => s.worker.Publishing?
    case RecordFailure(_, _) => s.worker.Failing?
    case StartCleanup(_) => s.worker.Fetched? && s.worker.m.deleting
    case Purge(_) => s.worker.Purging? && s.worker.ops != []
    case Release(_) => s.worker.Purging? && s.worker.ops == []
  }

  function Around(s: State, faults: seq<Fault>): World {
    World(s.store, faults, map[], s.modules, s.templates)
  }

  function Requests(o: Option<Object>): set<string> {
    set n | o.Some? && n in MapFluxResource(o.value.labels)
  }

  /** The Modules that a watch event on one key wakes, through the labels before and after. */
  function Wakes(before: Store, after: Store, key: Key): set<string> {
    if ObjectAt(before, key) == ObjectAt(after, key) then {}
    else Requests(ObjectAt(before, key)) + Requests(ObjectAt(after, key))
  }

  /** A change wakes a Module exactly if it really changes an object that is marked for the Module before or after. */
  lemma WakesIff(before: Store, after: Store, key: Key, n: string)
    ensures n in Wakes(before, after, key) <==>
      ObjectAt(before, key) != ObjectAt(after, key)
      && ((key in before.objects && MarkedFor(before.objects[key].labels, n))
          || (key in after.objects && MarkedFor(after.objects[key].labels, n)))
  {
    forall o | o in {ObjectAt(before, key), ObjectAt(after, key)} && o.Some?
      ensures n in Requests(o) <==> MarkedFor(o.value.labels, n)
    {
      FluxMapsIff(o.value.labels, n);
      assert |MapFluxResource(o.value.labels)| <= 1;
    }
  }

  function Finish(s: State, name: string, retry: bool): State {
    s.(queue := WorkQueue.Done(s.queue, name), worker := Idle,
       pending := if retry then s.pending + {name} else s.pending)
  }

  function Settle(s: State, name: string, outcome: Outcome): State {
    Finish(s, name, false).(last := s.last[name := outcome])
  }

  /** What the failing run leaves: the swallowed status patch, then the outcome or a retry. */
  function AfterFailure(s: State, m: Module, e: Error, modules: map<string, Module>): State {
    var t := s.(modules := modules);
    if e.TemplateNotFound? then Settle(t, m.name, MissingTemplate)
    else if e.TemplateInvalid? then Settle(t, m.name, InvalidTemplate)
    else Finish(t, m.name, true)
  }

  /** Creating, or changing the spec of, a template; an unchanged one keeps its generation. */
  function StoredTemplate(s: State, mt: ModuleTemplate): ModuleTemplate {
    if mt.name !in s.templates then mt.(generation := 1)
    else
      var was := s.templates[mt.name];
      mt.(generation := if mt.(generation := was.generation) == was then was.generation else was.generation + 1)
  }

  function Next(version: string, s: State, step: Step): State
    requires Enabled(s, step)
  {
    match step
    case CreateModule(name, spec) =>
      s.(modules := s.modules[name := Module(name, s.nextUid, 1, false, {}, spec, ModuleStatus(0, 0, None, None, []))],
         nextUid := s.nextUid + 1, pending := s.pending + {name})
    case EditModule(name, spec) =>
      var m := s.modules[name];
      s.(modules := s.modules[name := m.(spec := spec, generation := m.generation + 1)], pending := s.pending + {name})
    case RequestDeletion(name) =>
      var m := s.modules[name];
      s.(modules := if m.finalizers == {} then s.modules - {name}
                    else s.modules[name := m.(deleting := true, generation := m.generation + 1)],
         pending := s.pending + {name})
    case PutTemplate(mt) =>
      s.(templates := s.templates[mt.name := StoredTemplate(s, mt)], templateEvents := s.templateEvents + {mt.name})
    case DropTemplate(name) => s.(templates := s.templates - {name}, templateEvents := s.templateEvents + {name})
    case HandleTemplateEvent(name) =>
      s.(templateEvents := s.templateEvents - {name},
         pending := s.pending + set n | n in s.modules && s.modules[n].spec.templateRef == name)
    case ChangeFlux(key, o) =>
      var after := s.store.(objects := s.store.objects[key := o]);
      s.(store := after, pending := s.pending + Wakes(s.store, after, key))
    case AddNamespace(name, o) => s.(store := s.store.(objects := s.store.objects[NamespaceKey(name) := o]))
    case Vanish(keys) =>
      s.(store := s.store.(objects := s.store.objects - keys), written := s.written - keys,
         pending := s.pending + set k, n | k in keys && k in s.store.objects
             && n in MapFluxResource(s.store.objects[k].labels) :: n)
    case Resync(name) => s.(pending := s.pending + {name})
    case Deliver(name) => s.(pending := s.pending - {name}, queue := WorkQueue.Add(s.queue, name))
    case Take(name) => s.(queue := WorkQueue.Take(s.queue, name), worker := Claimed(name))
    case Fetch(fault) =>
      var name := s.worker.name;
      if fault != Healthy then Finish(s, name, true)
      else if name !in s.modules then Finish(s, name, false)
      else s.(worker := Fetched(s.modules[name]))
    case Guard(fault) =>
      var m := s.worker.m;
      if FINALIZER in m.finalizers then s.(worker := Guarding(m))
      else
        var r := PatchFinalizers(Around(s, [fault]), m.name, m.finalizers + {FINALIZER});
        var t := s.(modules := r.world.modules);
        if r.err.Some? then Finish(t, m.name, true) else t.(worker := Guarding(r.world.modules[m.name]))
    case FetchTemplate(fault) =>
      var m := s.worker.m;
      (match GetTemplate(Around(s, [fault]), m.spec.templateRef)
       case Err(NotFound) => s.(worker := Failing(m, TemplateNotFound(m.spec.templateRef)))
       case Err(e) => s.(worker := Failing(m, e))
       case Ok(mt) =>
         if FluxOp(m, mt, version).None? then s.(worker := Failing(m, TemplateInvalid(mt.name)))
         else s.(worker := Templated(m, mt)))
    case Write(faults) =>
      var Templated(m, mt) := s.worker;
      if FluxOp(m, mt, version).None? then s
      else
        var op := FluxOp(m, mt, version).value;
        var called := CallOp(s.store, faults, op);
        s.(store := called.store, pending := s.pending + Wakes(s.store, called.store, op.key),
           written := if called.store == s.store then s.written else s.written[op.key := OwnerOfModule(m)],
           worker := if called.err.Some? then Failing(m, called.err.value) else Written(m, mt))
    case ObserveFlux(fault, now) =>
      var Written(m, mt) := s.worker;
      var report := Observe(FluxPrefix(mt), GetObject(Around(s, [fault]), FluxKey(m, mt)));
      s.(worker := Publishing(m, mt, NextModuleStatus(m, mt, report, now), fault == Healthy))
    case PublishStatus(fault) =>
      var Publishing(m, mt, status, observed) := s.worker;
      if status == m.status then Settle(s, m.name, Succeeded(observed))
      else
        var r := PatchModuleStatus(Around(s, [fault]), m.name, m.status, status);
        var t := s.(modules := r.world.modules);
        if r.err.Some? then Finish(t, m.name, true) else Settle(t, m.name, Succeeded(observed))
    case RecordFailure(fault, now) =>
      var Failing(m, e) := s.worker;
      AfterFailure(s, m, e,
                   PatchModuleStatus(Around(s, [fault]), m.name, m.status, FailedModuleStatus(m, e, now)).world.modules)
    case StartCleanup(fault) =>
      var m := s.worker.m;
      if FINALIZER !in m.finalizers then Finish(s, m.name, false)
      else s.(worker := Purging(m, CleanupOps(m, ResolveCleanupNamespace(Around(s, [fault]), m).namespace)))
    case Purge(faults) =>
      var Purging(m, ops) := s.worker;
      var called := CallOp(s.store, faults, ops[0]);
      var t := s.(store := called.store, pending := s.pending + Wakes(s.store, called.store, ops[0].key),
                  written := if called.store == s.store then s.written else s.written - {ops[0].key});
      if called.err.Some? then Finish(t, m.name, true) else t.(worker := Purging(m, ops[1..]))
    case Release(fault) =>
      var m := s.worker.m;
      var r := PatchFinalizers(Around(s, [fault]), m.name, m.finalizers - {FINALIZER});
      Finish(s.(modules := r.world.modules), m.name, r.err.Some?)
  }

  /** The template handler asks for exactly the Modules that a list of them shows to reference the template. */
  lemma HandlerTurn(version: string, s: State, name: string, items: seq<Module>)
    requires name in s.templateEvents
    requires forall i :: 0 <= i < |items| ==> items[i].name in s.modules && s.modules[items[i].name] == items[i]
    requires forall n :: n in s.modules ==> s.modules[n].name == n && s.modules[n] in items
    ensures var requests := Referencing(items, name);
      Next(version, s, HandleTemplateEvent(name))
      == s.(templateEvents := s.templateEvents - {name},
            pending := s.pending + set i | 0 <= i < |requests| :: requests[i])
  {
    var requests := Referencing(items, name);
    forall n ensures n in requests <==> n in s.modules && s.modules[n].spec.templateRef == name {
      ReferencingMembers(items, name, n);
    }
    assert (set i | 0 <= i < |requests| :: requests[i])
        == set n | n in s.modules && s.modules[n].spec.templateRef == name;
  }

  predicate Initial(s: State) {
    s.pending == s.modules.Keys && s.queue == WorkQueue.EMPTY && s.worker == Idle && s.templateEvents == {}
    && s.written == map[] && StoredWell(s)
  }

  predicate StoredWell(s: State) {
    (forall n :: n in s.modules ==> ModuleOk(n, s.modules[n]) && s.modules[n].uid < s.nextUid)
    && (forall n, p :: n in s.modules && p in s.modules && s.modules[n].uid == s.modules[p].uid ==> n == p)
    && (forall t :: t in s.templates ==> s.templates[t].name == t && s.templates[t].namespace != "")
  }

  predicate Busy(s: State, n: string) {
    n in s.queue.dirty || n in s.pending
  }

  /** Not queued, dirty or woken, and no event of its template is still to be handled. */
  predicate Calm(s: State, n: string) {
    n in s.modules && !Busy(s, n) && s.modules[n].spec.templateRef !in s.templateEvents
  }

  /** The status that a successful run publishes: generations, the one ref, and Ready as observed. */
  predicate StatusFor(status: ModuleStatus, m: Module, mt: ModuleTemplate, o: Object, observed: bool) {
    var report := Observe(FluxPrefix(mt), if observed then Ok(o) else Err(Transient));
    status == NextModuleStatus(m, mt, report, 0).(conditions := status.conditions)
    && Canonical(status.conditions) && Find(status.conditions, READY).Some?
    && SameReport(Find(status.conditions, READY).value, ReadyFrom(m, report))
  }

  /** The template is the stored one and the Flux object is as both require. */
  predicate Synced(version: string, s: State, m: Module, mt: ModuleTemplate) {
    m.spec.templateRef in s.templates && s.templates[m.spec.templateRef] == mt
    && FluxOp(m, mt, version).Some? && Settled(s.store, FluxOp(m, mt, version).value)
  }

  predicate OutcomeHolds(version: string, s: State, n: string, outcome: Outcome)
    requires n in s.modules
  {
    var m := s.modules[n];
    match outcome
    case Succeeded(observed) =>
      m.spec.templateRef in s.templates &&
      var mt := s.templates[m.spec.templateRef];
      Synced(version, s, m, mt) && StatusFor(m.status, m, mt, s.store.objects[FluxKey(m, mt)], observed)
    case MissingTemplate => m.spec.templateRef !in s.templates
    case InvalidTemplate =>
      m.spec.templateRef in s.templates && FluxOp(m, s.templates[m.spec.templateRef], version).None?
  }

  /** Whoever is not scheduled is as its last outcome says; a deleting Module has been released. */
  predicate Resting(version: string, s: State, n: string)
    requires n in s.modules
  {
    if s.modules[n].deleting then FINALIZER !in s.modules[n].finalizers
    else n in s.last && OutcomeHolds(version, s, n, s.last[n])
  }

  predicate Sound(version: string, s: State) {
    forall n :: n in s.modules && Calm(s, n) && n !in s.queue.processing ==> Resting(version, s, n)
  }

  predicate QueueValid(s: State) {
    WorkQueue.Valid(s.queue) &&
    s.queue.processing ==
      match s.worker
      case Idle => {}
      case Claimed(name) => {name}
      case w => {w.m.name}
  }

  /** The worker's Module is held: same object, finalizer in place, status known. */
  predicate Held(s: State, m: Module) {
    m.name in s.modules && s.modules[m.name].uid == m.uid && FINALIZER in s.modules[m.name].finalizers
    && FINALIZER in m.finalizers && s.modules[m.name].status == m.status
    && s.modules[m.name].spec.templateRef == m.spec.templateRef
    && (m.deleting ==> s.modules[m.name].deleting && s.modules[m.name].finalizers == m.finalizers)
    && ModuleOk(m.name, m)
  }

  predicate Current(s: State, m: Module) {
    Calm(s, m.name) ==> s.modules[m.name] == m
  }

  predicate WorkerValid(version: string, s: State) {
    match s.worker
    case Idle => true
    case Claimed(_) => true
    case Fetched(m) =>
      Current(s, m) && ModuleOk(m.name, m) && (FINALIZER in m.finalizers ==> Held(s, m))
      && (FINALIZER !in m.finalizers && m.name in s.modules ==> FINALIZER !in s.modules[m.name].finalizers)
    case Guarding(m) => Current(s, m) && Held(s, m) && !m.deleting
    case Templated(m, mt) =>
      Current(s, m) && Held(s, m) && !m.deleting && mt.namespace != "" && FluxOp(m, mt, version).Some?
      && (Calm(s, m.name) ==> m.spec.templateRef in s.templates && s.templates[m.spec.templateRef] == mt)
    case Written(m, mt) =>
      Current(s, m) && Held(s, m) && !m.deleting && mt.namespace != ""
      && (Calm(s, m.name) ==> Synced(version, s, m, mt))
    case Publishing(m, mt, status, observed) =>
      Current(s, m) && Held(s, m) && !m.deleting && RefsOk(status) && UniqueTypes(status.conditions)
      && (Calm(s, m.name) ==>
            Synced(version, s, m, mt) && StatusFor(status, m, mt, s.store.objects[FluxKey(m, mt)], observed))
    case Failing(m, e) =>
      Current(s, m) && Held(s, m) && !m.deleting
      && (Calm(s, m.name) && e.TemplateNotFound? ==> OutcomeHolds(version, s, m.name, MissingTemplate))
      && (Calm(s, m.name) && e.TemplateInvalid? ==> OutcomeHolds(version, s, m.name, InvalidTemplate))
    case Purging(m, ops) => Held(s, m) && m.deleting && forall i :: 0 <= i < |ops| ==> ops[i].Remove?
  }

  /** Written objects exist under the reference they were given, whose uid is nobody else's. */
  predicate History(s: State) {
    forall k :: k in s.written ==>
      IsFlux(k.kind) && k in s.store.objects && ControllerOf(s.store.objects[k].owners) == Some(s.written[k])
      && s.written[k].kind == ModuleOwner && s.written[k].uid < s.nextUid
      && (forall n :: n in s.modules && s.modules[n].uid == s.written[k].uid ==>
            n == s.written[k].name && (!s.modules[n].deleting ==> FINALIZER in s.modules[n].finalizers))
  }

  predicate Inv(version: string, s: State) {
    StoredWell(s) && QueueValid(s) && WorkerValid(version, s) && Sound(version, s) && History(s)
  }

  lemma InitialIsSound(version: string, s: State)
    requires Initial(s)
    ensures Inv(version, s)
  {
  }

  lemma SyncedFrame(version: string, s: State, t: State, m: Module, mt: ModuleTemplate)
    requires Synced(version, s, m, mt)
    requires m.spec.templateRef in t.templates && t.templates[m.spec.templateRef] == mt
    requires t.store.istioServed == s.store.istioServed
        && ObjectAt(t.store, FluxKey(m, mt)) == ObjectAt(s.store, FluxKey(m, mt))
    ensures Synced(version, t, m, mt) && t.store.objects[FluxKey(m, mt)] == s.store.objects[FluxKey(m, mt)]
  {
    SettledFrame(s.store, t.store, FluxOp(m, mt, version).value);
  }

  /** A change to the Flux object of a synced Module wakes that Module. */
  lemma ChangeWakes(version: string, s: State, m: Module, mt: ModuleTemplate)
    requires Synced(version, s, m, mt)
    ensures FluxKey(m, mt) in s.store.objects && m.name in Requests(ObjectAt(s.store, FluxKey(m, mt)))
    ensures forall after: Store :: ObjectAt(after, FluxKey(m, mt)) != ObjectAt(s.store, FluxKey(m, mt)) ==>
              m.name in Wakes(s.store, after, FluxKey(m, mt))
  {
    SettledFluxMapsBack(s.store, m, mt, version);
  }

  /** Changing keys that nobody calm relies on keeps everything. */
  predicate StoreMoved(s: State, t: State) {
    t == s.(store := t.store, pending := t.pending, written := t.written, worker := t.worker, queue := t.queue)
    && s.pending <= t.pending && t.store.istioServed == s.store.istioServed
    && s.queue.dirty == t.queue.dirty && s.queue.processing - t.queue.processing <= t.pending
    && forall key :: key in s.store.objects && IsFlux(key.kind) && ObjectAt(t.store, key) != ObjectAt(s.store, key) ==>
         Requests(ObjectAt(s.store, key)) <= t.pending
  }

  lemma SyncedSurvives(version: string, s: State, t: State, m: Module, mt: ModuleTemplate)
    requires StoreMoved(s, t) && Synced(version, s, m, mt) && m.name !in t.pending
    ensures Synced(version, t, m, mt) && t.store.objects[FluxKey(m, mt)] == s.store.objects[FluxKey(m, mt)]
  {
    ChangeWakes(version, s, m, mt);
    SyncedFrame(version, s, t, m, mt);
  }

  lemma StoreMovedKeepsSound(version: string, s: State, t: State)
    requires Sound(version, s) && StoredWell(s) && StoreMoved(s, t)
    ensures Sound(version, t)
  {
    forall n | n in t.modules && Calm(t, n) && n !in t.queue.processing ensures Resting(version, t, n) {
      assert Calm(s, n) && n !in s.queue.processing;
      assert Resting(version, s, n);
      var m := s.modules[n];
      if !m.deleting && s.last[n].Succeeded? {
        SyncedSurvives(version, s, t, m, s.templates[m.spec.templateRef]);
      }
    }
  }

  lemma EnvironmentKeepsWorker(version: string, s: State, t: State)
    requires WorkerValid(version, s) && StoreMoved(s, t) && t.worker == s.worker
    ensures WorkerValid(version, t)
  {
    match s.worker {
      case Written(m, mt) => if Calm(t, m.name) { SyncedSurvives(version, s, t, m, mt); }
      case Publishing(m, mt, _, _) => if Calm(t, m.name) { SyncedSurvives(version, s, t, m, mt); }
      case _ =>
    }
  }

  lemma ChangeFluxMoves(version: string, s: State, key: Key, o: Object)
    requires History(s) && Enabled(s, ChangeFlux(key, o))
    ensures StoreMoved(s, Next(version, s, ChangeFlux(key, o))) && History(Next(version, s, ChangeFlux(key, o)))
  {
  }

  lemma AddNamespaceMoves(version: string, s: State, name: string, o: Object)
    requires History(s)
    ensures StoreMoved(s, Next(version, s, AddNamespace(name, o))) && History(Next(version, s, AddNamespace(name, o)))
  {
  }

  lemma VanishMoves(version: string, s: State, keys: set<Key>)
    requires History(s)
    ensures StoreMoved(s, Next(version, s, Vanish(keys))) && History(Next(version, s, Vanish(keys)))
  {
    var t := Next(version, s, Vanish(keys));
    forall key | key in s.store.objects && ObjectAt(t.store, key) != ObjectAt(s.store, key)
      ensures Requests(ObjectAt(s.store, key)) <= t.pending
    {
      assert key in keys;
    }
  }

  lemma EnvironmentKeepsInv(version: string, s: State, step: Step)
    requires Inv(version, s) && Enabled(s, step) && (step.ChangeFlux? || step.Vanish? || step.AddNamespace?)
    ensures Inv(version, Next(version, s, step))
  {
    match step {
      case ChangeFlux(key, o) => ChangeFluxMoves(version, s, key, o);
      case AddNamespace(name, o) => AddNamespaceMoves(version, s, name, o);
      case Vanish(keys) => VanishMoves(version, s, keys);
    }
    StoreMovedKeepsSound(version, s, Next(version, s, step));
    EnvironmentKeepsWorker(version, s, Next(version, s, step));
  }

  /** A user step: it makes fewer Modules calm, keeps the calm ones, and every guarded Module stays guarded. */
  predicate Quieter(s: State, t: State) {
    t == s.(modules := t.modules, templates := t.templates, templateEvents := t.templateEvents, queue := t.queue,
            pending := t.pending, nextUid := t.nextUid)
    && t.queue.processing == s.queue.processing && WorkQueue.Valid(t.queue) && s.nextUid <= t.nextUid
    && (forall n :: n in t.modules && Calm(t, n) ==> Calm(s, n) && t.modules[n] == s.modules[n])
    && (forall n :: n in s.modules && FINALIZER in s.modules[n].finalizers ==>
        n in t.modules && KeptBy(s.modules[n], t.modules[n]))
    && (forall n :: n in t.modules ==>
          t.modules[n].uid >= s.nextUid || (n in s.modules && KeptBy(s.modules[n], t.modules[n])))
    && (forall n :: n in t.modules ==>
          t.modules[n].finalizers == {} || (n in s.modules && KeptBy(s.modules[n], t.modules[n])))
    && (forall x :: x in s.templates && x !in t.templateEvents ==> x in t.templates)
    && (forall x :: x in t.templates && x !in t.templateEvents ==> x in s.templates && t.templates[x] == s.templates[x])
  }

  /** The parts of a Module that no user edits. */
  predicate KeptBy(m: Module, m': Module) {
    m'.uid == m.uid && m'.finalizers == m.finalizers && m'.status == m.status && (m.deleting ==> m'.deleting)
    && m'.spec.templateRef == m.spec.templateRef
  }

  lemma QuieterKeepsWorker(version: string, s: State, t: State)
    requires WorkerValid(version, s) && Quieter(s, t)
    ensures WorkerValid(version, t)
  {
    match s.worker {
      case Written(m, mt) => if Calm(t, m.name) { SyncedFrame(version, s, t, m, mt); }
      case Publishing(m, mt, _, _) => if Calm(t, m.name) { SyncedFrame(version, s, t, m, mt); }
      case _ =>
    }
  }

  lemma QuieterKeepsSound(version: string, s: State, t: State)
    requires Sound(version, s) && Quieter(s, t)
    ensures Sound(version, t)
  {
    forall n | n in t.modules && Calm(t, n) && n !in t.queue.processing ensures Resting(version, t, n) {
      assert Resting(version, s, n);
      var m := s.modules[n];
      if !m.deleting && s.last[n].Succeeded? {
        SyncedFrame(version, s, t, m, s.templates[m.spec.templateRef]);
      }
    }
  }

  lemma QuieterKeepsHistory(s: State, t: State)
    requires History(s) && Quieter(s, t)
    ensures History(t)
  {
  }

  lemma QuieterKeepsInv(version: string, s: State, t: State)
    requires Inv(version, s) && Quieter(s, t) && StoredWell(t)
    ensures Inv(version, t)
  {
    QuieterKeepsWorker(version, s, t);
    QuieterKeepsSound(version, s, t);
    QuieterKeepsHistory(s, t);
  }

  lemma CreateIsQuieter(version: string, s: State, name: string, spec: ModuleSpec)
    requires StoredWell(s) && WorkQueue.Valid(s.queue) && Enabled(s, CreateModule(name, spec))
    ensures Quieter(s, Next(version, s, CreateModule(name, spec)))
        && StoredWell(Next(version, s, CreateModule(name, spec)))
  {
    AdditionIsQuieter(s, Next(version, s, CreateModule(name, spec)), name);
  }

  lemma AdditionIsQuieter(s: State, t: State, name: string)
    requires StoredWell(s) && WorkQueue.Valid(s.queue) && name !in s.modules
        && t.modules.Keys == s.modules.Keys + {name}
    requires t == s.(modules := t.modules, pending := s.pending + {name}, nextUid := s.nextUid + 1)
    requires forall n :: n in s.modules ==> t.modules[n] == s.modules[n]
    requires ModuleOk(name, t.modules[name]) && t.modules[name].uid == s.nextUid && t.modules[name].finalizers == {}
    ensures Quieter(s, t) && StoredWell(t)
  {
    forall n | n in t.modules && Calm(t, n) ensures Calm(s, n) && t.modules[n] == s.modules[n] {
      assert n !in t.pending;
    }
  }

  lemma RemovalIsQuieter(s: State, t: State, name: string)
    requires StoredWell(s) && WorkQueue.Valid(s.queue) && name in s.modules && s.modules[name].finalizers == {}
    requires t == s.(modules := s.modules - {name}, pending := s.pending + {name})
    ensures Quieter(s, t) && StoredWell(t)
  {
  }

  lemma MarkingIsQuieter(s: State, t: State, name: string)
    requires StoredWell(s) && WorkQueue.Valid(s.queue) && name in s.modules
    requires t.modules.Keys == s.modules.Keys && t == s.(modules := t.modules, pending := s.pending + {name})
    requires forall n :: n in s.modules && n != name ==> t.modules[n] == s.modules[n]
    requires KeptBy(s.modules[name], t.modules[name]) && ModuleOk(name, t.modules[name])
    ensures Quieter(s, t) && StoredWell(t)
  {
    forall n | n in t.modules && Calm(t, n) ensures Calm(s, n) && t.modules[n] == s.modules[n] {
      assert n !in t.pending;
    }
  }

  lemma EditIsQuieter(version: string, s: State, name: string, spec: ModuleSpec)
    requires StoredWell(s) && WorkQueue.Valid(s.queue) && Enabled(s, EditModule(name, spec))
    ensures Quieter(s, Next(version, s, EditModule(name, spec))) && StoredWell(Next(version, s, EditModule(name, spec)))
  {
    MarkingIsQuieter(s, Next(version, s, EditModule(name, spec)), name);
  }

  lemma DeletionIsQuieter(version: string, s: State, name: string)
    requires StoredWell(s) && WorkQueue.Valid(s.queue) && Enabled(s, RequestDeletion(name))
    ensures Quieter(s, Next(version, s, RequestDeletion(name))) && StoredWell(Next(version, s, RequestDeletion(name)))
  {
    if s.modules[name].finalizers == {} {
      RemovalIsQuieter(s, Next(version, s, RequestDeletion(name)), name);
    } else {
      MarkingIsQuieter(s, Next(version, s, RequestDeletion(name)), name);
    }
  }

  /** No Module changed and nothing became calm. */
  lemma UnchangedIsQuieter(s: State, t: State)
    requires StoredWell(s) && WorkQueue.Valid(t.queue) && t.queue.processing == s.queue.processing
    requires t ==
             s.(templates := t.templates, templateEvents := t.templateEvents, queue := t.queue, pending := t.pending)
    requires forall n :: n in s.modules && Calm(t, n) ==> Calm(s, n)
    requires forall x :: x in t.templates ==> t.templates[x].name == x && t.templates[x].namespace != ""
    requires forall x :: x in s.templates && x !in t.templateEvents ==> x in t.templates
    requires forall x :: x in t.templates && x !in t.templateEvents ==>
        x in s.templates && t.templates[x] == s.templates[x]
    ensures Quieter(s, t) && StoredWell(t)
  {
  }

  lemma TemplateEditIsQuieter(version: string, s: State, step: Step)
    requires StoredWell(s) && WorkQueue.Valid(s.queue) && Enabled(s, step)
    requires step.PutTemplate? || step.DropTemplate? || step.HandleTemplateEvent?
    ensures Quieter(s, Next(version, s, step)) && StoredWell(Next(version, s, step))
  {
    UnchangedIsQuieter(s, Next(version, s, step));
  }

  lemma WakeIsQuieter(version: string, s: State, step: Step)
    requires StoredWell(s) && WorkQueue.Valid(s.queue) && Enabled(s, step) && (step.Resync? || step.Deliver?)
    ensures Quieter(s, Next(version, s, step)) && StoredWell(Next(version, s, step))
  {
    UnchangedIsQuieter(s, Next(version, s, step));
  }

  lemma UserStepKeepsInv(version: string, s: State, step: Step)
    requires Inv(version, s) && Enabled(s, step)
    requires step.CreateModule? || step.EditModule? || step.RequestDeletion? || step.PutTemplate? || step.DropTemplate?
          || step.HandleTemplateEvent? || step.Resync? || step.Deliver?
    ensures Inv(version, Next(version, s, step))
  {
    match step {
      case CreateModule(name, spec) => CreateIsQuieter(version, s, name, spec);
      case EditModule(name, spec) => EditIsQuieter(version, s, name, spec);
      case RequestDeletion(name) => DeletionIsQuieter(version, s, name);
      case Resync(_) => WakeIsQuieter(version, s, step);
      case Deliver(_) => WakeIsQuieter(version, s, step);
      case _ => TemplateEditIsQuieter(version, s, step);
    }
    QuieterKeepsInv(version, s, Next(version, s, step));
  }

  /** Only the worker moved on with the same Module, or claimed one. */
  predicate WorkerMoved(s: State, t: State) {
    t == s.(worker := t.worker, queue := t.queue)
    && s.queue.processing <= t.queue.processing && s.queue.dirty - t.queue.processing <= t.queue.dirty
  }

  lemma MoveKeepsSound(version: string, s: State, t: State)
    requires Sound(version, s) && WorkerMoved(s, t)
    ensures Sound(version, t)
  {
    forall n | n in t.modules && Calm(t, n) && n !in t.queue.processing ensures Resting(version, t, n) {
      assert Calm(s, n) && Resting(version, s, n);
    }
  }

  lemma MoveKeepsInv(version: string, s: State, t: State)
    requires Inv(version, s) && WorkerMoved(s, t) && WorkerValid(version, t) && QueueValid(t)
    ensures Inv(version, t)
  {
    MoveKeepsSound(version, s, t);
  }

  lemma TakeKeepsInv(version: string, s: State, name: string)
    requires Inv(version, s) && Enabled(s, Take(name))
    ensures Inv(version, Next(version, s, Take(name)))
  {
    MoveKeepsInv(version, s, Next(version, s, Take(name)));
  }

  /** What finishing the run of `name` may change: that one Module, within bounds, and its outcome. */
  predicate Finished(s: State, t: State, name: string) {
    t == s.(modules := t.modules, queue := WorkQueue.Done(s.queue, name), pending := t.pending, worker := Idle,
            last := t.last)
    && s.pending <= t.pending && s.queue.processing == {name} && WorkQueue.Valid(s.queue)
    && (forall n :: n in s.modules && n != name ==> n in t.modules)
    && (forall n :: n in t.modules && n != name ==> n in s.modules && t.modules[n] == s.modules[n])
    && (forall n :: n in s.last && n != name ==> n in t.last && t.last[n] == s.last[n])
    && (name in t.modules ==> name in s.modules && OwnChange(s.modules[name], t.modules[name]))
  }

  /** The controller edits status and finalizers only, and takes its finalizer off deleting Modules only. */
  predicate OwnChange(m: Module, m': Module) {
    m' == m.(status := m'.status, finalizers := m'.finalizers) && RefsOk(m'.status) && UniqueTypes(m'.status.conditions)
    && (!m.deleting && FINALIZER in m.finalizers ==> FINALIZER in m'.finalizers)
  }

  lemma FinishKeepsSound(version: string, s: State, t: State, name: string)
    requires Sound(version, s) && Finished(s, t, name)
    requires Calm(t, name) ==> Resting(version, t, name)
    ensures Sound(version, t)
  {
    forall n | n in t.modules && Calm(t, n) && n !in t.queue.processing ensures Resting(version, t, n) {
      if n != name {
        assert Calm(s, n) && Resting(version, s, n);
      }
    }
  }

  lemma FinishKeepsHistory(s: State, t: State, name: string)
    requires StoredWell(s) && History(s) && Finished(s, t, name)
    ensures StoredWell(t) && History(t)
  {
  }

  lemma FinishKeepsInv(version: string, s: State, t: State, name: string)
    requires Inv(version, s) && Finished(s, t, name)
    requires Calm(t, name) ==> Resting(version, t, name)
    ensures Inv(version, t)
  {
    FinishKeepsSound(version, s, t, name);
    FinishKeepsHistory(s, t, name);
  }

  lemma FetchKeepsInv(version: string, s: State, fault: Fault)
    requires Inv(version, s) && Enabled(s, Fetch(fault))
    ensures Inv(version, Next(version, s, Fetch(fault)))
  {
    var t := Next(version, s, Fetch(fault));
    if t.worker.Fetched? {
      MoveKeepsSound(version, s, t);
    } else {
      FinishKeepsInv(version, s, t, s.worker.name);
    }
  }

  /** A finalizer patch on whatever is stored under the name by then. */
  lemma GuardOutcome(s: State, m: Module, fault: Fault)
    requires StoredWell(s) && FINALIZER !in m.finalizers && !m.deleting
    requires m.name in s.modules ==> FINALIZER !in s.modules[m.name].finalizers
    ensures var r := PatchFinalizers(Around(s, [fault]), m.name, m.finalizers + {FINALIZER});
      var after := r.world.modules;
      after.Keys == s.modules.Keys
      && (forall n :: n in after && n != m.name ==> after[n] == s.modules[n])
      && (m.name in after ==> after[m.name] == s.modules[m.name].(finalizers := after[m.name].finalizers)
                              && (FINALIZER in after[m.name].finalizers ==> !after[m.name].deleting))
      && (r.err.None? ==> m.name in after && FINALIZER in after[m.name].finalizers)
  {
  }

  /** Adding finalizers leaves everyone as sound, and the history as guarded, as before. */
  predicate FinalizersAdded(s: State, t: State, name: string) {
    t == s.(modules := t.modules, worker := t.worker) && t.modules.Keys == s.modules.Keys
    && (forall n :: n in t.modules && n != name ==> t.modules[n] == s.modules[n])
    && (name in t.modules ==> t.modules[name] == s.modules[name].(finalizers := t.modules[name].finalizers)
                              && FINALIZER in t.modules[name].finalizers)
  }

  lemma AddedKeepsSound(version: string, s: State, t: State, name: string)
    requires Sound(version, s) && FinalizersAdded(s, t, name) && name in s.queue.processing
    ensures Sound(version, t)
  {
    forall n | n in t.modules && Calm(t, n) && n !in t.queue.processing ensures Resting(version, t, n) {
      assert Calm(s, n) && Resting(version, s, n);
    }
  }

  lemma GuardFails(version: string, s: State, m: Module, modules: map<string, Module>)
    requires Inv(version, s) && s.worker == Fetched(m) && modules.Keys == s.modules.Keys
    requires forall n :: n in modules && n != m.name ==> modules[n] == s.modules[n]
    requires m.name in modules ==> modules[m.name] == s.modules[m.name].(finalizers := modules[m.name].finalizers)
    requires m.name in modules && FINALIZER in s.modules[m.name].finalizers ==> FINALIZER in modules[m.name].finalizers
    ensures Inv(version, Finish(s.(modules := modules), m.name, true))
  {
    FinishKeepsInv(version, s, Finish(s.(modules := modules), m.name, true), m.name);
  }

  lemma GuardSucceeds(version: string, s: State, t: State, m: Module)
    requires Inv(version, s) && s.worker == Fetched(m) && FinalizersAdded(s, t, m.name)
    requires m.name in t.modules && t.worker == Guarding(t.modules[m.name]) && !t.modules[m.name].deleting
    ensures Inv(version, t)
  {
    AddedKeepsSound(version, s, t, m.name);
    GuardedWorker(version, s, t, m.name);
  }

  lemma GuardKeepsInv(version: string, s: State, fault: Fault)
    requires Inv(version, s) && Enabled(s, Guard(fault))
    ensures Inv(version, Next(version, s, Guard(fault)))
  {
    var t := Next(version, s, Guard(fault));
    var m := s.worker.m;
    if FINALIZER in m.finalizers {
      MoveKeepsInv(version, s, t);
    } else {
      GuardOutcome(s, m, fault);
      var r := PatchFinalizers(Around(s, [fault]), m.name, m.finalizers + {FINALIZER});
      if r.err.Some? {
        GuardFails(version, s, m, r.world.modules);
        assert t == Finish(s.(modules := r.world.modules), m.name, true);
      } else {
        assert t == s.(modules := r.world.modules, worker := Guarding(r.world.modules[m.name]));
        GuardSucceeds(version, s, t, m);
      }
    }
  }

  lemma GuardedWorker(version: string, s: State, t: State, name: string)
    requires StoredWell(s) && History(s) && FinalizersAdded(s, t, name)
    requires name in t.modules && t.worker == Guarding(t.modules[name]) && !t.modules[name].deleting
    ensures StoredWell(t) && History(t) && WorkerValid(version, t)
  {
  }

  lemma FetchTemplateOutcome(version: string, s: State, fault: Fault)
    requires StoredWell(s) && s.worker.Guarding?
    ensures var t := Next(version, s, FetchTemplate(fault));
      var m := s.worker.m;
      var name := m.spec.templateRef;
      t == s.(worker := t.worker) && (t.worker.Failing? || t.worker.Templated?) && t.worker.m == m
      && (t.worker.Templated? ==> name in s.templates && t.worker.mt == s.templates[name]
                                  && t.worker.mt.namespace != "" && FluxOp(m, t.worker.mt, version).Some?)
      && (t.worker.Failing? && t.worker.error.TemplateNotFound? ==> name !in s.templates)
      && (t.worker.Failing? && t.worker.error.TemplateInvalid? ==>
            name in s.templates && FluxOp(m, s.templates[name], version).None?)
  {
    var t := Next(version, s, FetchTemplate(fault));
    var got := GetTemplate(Around(s, [fault]), s.worker.m.spec.templateRef);
    if got.Ok? {
      assert got.value == s.templates[s.worker.m.spec.templateRef];
    }
  }

  /** A held Module that the worker still sees as stored is seen so after a move of the worker alone. */
  lemma FetchTemplateWorker(version: string, s: State, t: State, m: Module)
    requires s.worker == Guarding(m) && t == s.(worker := t.worker)
    requires Current(s, m) && Held(s, m)
    ensures Current(t, m) && Held(t, m)
    ensures Calm(t, m.name) ==> Calm(s, m.name) && s.modules[m.name] == m
  {
  }

  lemma FetchTemplateKeepsInv(version: string, s: State, fault: Fault)
    requires Inv(version, s) && Enabled(s, FetchTemplate(fault))
    ensures Inv(version, Next(version, s, FetchTemplate(fault)))
  {
    var t := Next(version, s, FetchTemplate(fault));
    FetchTemplateOutcome(version, s, fault);
    AfterFetchTemplate(version, s, t, s.worker.m);
  }

  lemma AfterFetchTemplate(version: string, s: State, t: State, m: Module)
    requires Inv(version, s) && s.worker == Guarding(m) && t == s.(worker := t.worker)
    requires (t.worker.Failing? || t.worker.Templated?) && t.worker.m == m
    requires t.worker.Templated? ==> m.spec.templateRef in s.templates && t.worker.mt == s.templates[m.spec.templateRef]
                                     && t.worker.mt.namespace != "" && FluxOp(m, t.worker.mt, version).Some?
    requires t.worker.Failing? && t.worker.error.TemplateNotFound? ==> m.spec.templateRef !in s.templates
    requires t.worker.Failing? && t.worker.error.TemplateInvalid? ==>
               m.spec.templateRef in s.templates && FluxOp(m, s.templates[m.spec.templateRef], version).None?
    ensures Inv(version, t)
  {
    FetchTemplateWorker(version, s, t, m);
    MoveKeepsInv(version, s, t);
  }

  /** A write of the Module's Flux object: what it wrote carries its reference, and errors are not permanent ones. */
  lemma WriteOutcome(s: State, faults: seq<Fault>, op: Op)
    requires op.Ensure?
    ensures var called := CallOp(s.store, faults, op);
      called.store.istioServed == s.store.istioServed
      && (forall key :: key != op.key ==> ObjectAt(called.store, key) == ObjectAt(s.store, key))
      && (called.store == s.store
          || (op.key in called.store.objects
              && ControllerOf(called.store.objects[op.key].owners) == Some(op.mutation.owner)))
      && (called.err.None? ==> Settled(called.store, op))
      && (called.err.Some? ==> !IsPermanent(called.err.value))
  {
    CallIsAllOrNothing(s.store, faults, op);
    if ApplyOp(s.store, op).Ok? {
      ApplySettles(s.store, op);
      SettledController(ApplyOp(s.store, op).value, op);
    }
  }

  /** The history after the Module wrote one key. */
  lemma WriteKeepsHistory(s: State, t: State, m: Module, key: Key)
    requires StoredWell(s) && History(s) && Held(s, m) && !m.deleting && IsFlux(key.kind)
    requires t.modules == s.modules && t.nextUid == s.nextUid
    requires forall k :: k in s.store.objects && k != key ==> ObjectAt(t.store, k) == ObjectAt(s.store, k)
    requires (t.store == s.store && t.written == s.written)
          || (key in t.store.objects && ControllerOf(t.store.objects[key].owners) == Some(OwnerOfModule(m))
              && t.written == s.written[key := OwnerOfModule(m)])
    ensures History(t)
  {
    forall k | k in t.written
      ensures IsFlux(k.kind) && k in t.store.objects && ControllerOf(t.store.objects[k].owners) == Some(t.written[k])
    {
      if k != key {
        assert k in s.written && ObjectAt(t.store, k) == ObjectAt(s.store, k);
      }
    }
  }

  lemma WriteMoves(version: string, s: State, faults: seq<Fault>)
    requires StoredWell(s) && History(s) && s.worker.Templated? && Held(s, s.worker.m) && !s.worker.m.deleting
    requires FluxOp(s.worker.m, s.worker.mt, version).Some?
    ensures StoreMoved(s, Next(version, s, Write(faults))) && History(Next(version, s, Write(faults)))
  {
    var t := Next(version, s, Write(faults));
    var Templated(m, mt) := s.worker;
    var op := FluxOp(m, mt, version).value;
    WriteOutcome(s, faults, op);
    WriteKeepsHistory(s, t, m, op.key);
  }

  lemma WriteKeepsInv(version: string, s: State, faults: seq<Fault>)
    requires Inv(version, s) && Enabled(s, Write(faults))
    ensures Inv(version, Next(version, s, Write(faults)))
  {
    var Templated(m, mt) := s.worker;
    WriteOutcome(s, faults, FluxOp(m, mt, version).value);
    WriteMoves(version, s, faults);
    StoreMovedKeepsSound(version, s, Next(version, s, Write(faults)));
  }

  lemma ObservedStatus(s: State, m: Module, mt: ModuleTemplate, fault: Fault, now: nat)
    requires ModuleOk(m.name, m) && mt.namespace != ""
    ensures var report := Observe(FluxPrefix(mt), GetObject(Around(s, [fault]), FluxKey(m, mt)));
      var status := NextModuleStatus(m, mt, report, now);
      RefsOk(status) && UniqueTypes(status.conditions)
      && (FluxKey(m, mt) in s.store.objects ==>
          StatusFor(status, m, mt, s.store.objects[FluxKey(m, mt)], fault == Healthy))
  {
    var report := Observe(FluxPrefix(mt), GetObject(Around(s, [fault]), FluxKey(m, mt)));
    PublishIsCanonical(m.status.conditions, ReadyFrom(m, report), now);
  }

  lemma ObserveWorker(version: string, s: State, fault: Fault, now: nat)
    requires WorkerValid(version, s) && Enabled(s, ObserveFlux(fault, now))
    ensures WorkerValid(version, Next(version, s, ObserveFlux(fault, now)))
  {
    var t := Next(version, s, ObserveFlux(fault, now));
    var Written(m, mt) := s.worker;
    ObservedStatus(s, m, mt, fault, now);
    if Calm(t, m.name) {
      assert Calm(s, m.name) && Synced(version, s, m, mt);
      ChangeWakes(version, s, m, mt);
      SyncedFrame(version, s, t, m, mt);
    }
  }

  lemma ObserveKeepsInv(version: string, s: State, fault: Fault, now: nat)
    requires Inv(version, s) && Enabled(s, ObserveFlux(fault, now))
    ensures Inv(version, Next(version, s, ObserveFlux(fault, now)))
  {
    ObserveWorker(version, s, fault, now);
    MoveKeepsInv(version, s, Next(version, s, ObserveFlux(fault, now)));
  }

  lemma StatusOutcome(s: State, m: Module, fault: Fault, desired: ModuleStatus)
    requires StoredWell(s) && Held(s, m) && RefsOk(desired) && UniqueTypes(desired.conditions)
    ensures var r := PatchModuleStatus(Around(s, [fault]), m.name, m.status, desired);
      var after := r.world.modules;
      after.Keys == s.modules.Keys
      && (forall n :: n in after && n != m.name ==> after[n] == s.modules[n])
      && OwnChange(s.modules[m.name], after[m.name]) && after[m.name].finalizers == s.modules[m.name].finalizers
      && (r.err.None? ==> after[m.name].status == desired)
  {
    var now := s.modules[m.name].status;
    assert MergeModuleStatus(now, now, desired) == desired;
  }

  /** A published status says as much about the Module that now carries it. */
  lemma PublishedRests(version: string, s: State, t: State, m: Module, mt: ModuleTemplate, status: ModuleStatus,
                       observed: bool)
    requires Synced(version, s, m, mt) && StatusFor(status, m, mt, s.store.objects[FluxKey(m, mt)], observed)
    requires t.store == s.store && t.templates == s.templates && m.name in t.modules
    requires t.modules[m.name] == m.(status := status)
    ensures OutcomeHolds(version, t, m.name, Succeeded(observed))
  {
    assert FluxOp(m.(status := status), mt, version) == FluxOp(m, mt, version);
  }

  lemma PublishFinishes(version: string, s: State, fault: Fault)
    requires StoredWell(s) && QueueValid(s) && WorkerValid(version, s) && Enabled(s, PublishStatus(fault))
    ensures var t := Next(version, s, PublishStatus(fault));
      var Publishing(m, mt, status, observed) := s.worker;
      Finished(s, t, m.name)
      && (Calm(t, m.name) ==> Calm(s, m.name) && t.modules[m.name] == m.(status := status)
                              && m.name in t.last && t.last[m.name] == Succeeded(observed))
  {
    var t := Next(version, s, PublishStatus(fault));
    var Publishing(m, mt, status, observed) := s.worker;
    if status == m.status {
      assert t == Settle(s, m.name, Succeeded(observed));
    } else {
      StatusOutcome(s, m, fault, status);
      var r := PatchModuleStatus(Around(s, [fault]), m.name, m.status, status);
      if r.err.Some? {
        assert t == Finish(s.(modules := r.world.modules), m.name, true);
      } else {
        assert t == Settle(s.(modules := r.world.modules), m.name, Succeeded(observed));
      }
    }
  }

  lemma PublishKeepsInv(version: string, s: State, fault: Fault)
    requires Inv(version, s) && Enabled(s, PublishStatus(fault))
    ensures Inv(version, Next(version, s, PublishStatus(fault)))
  {
    var t := Next(version, s, PublishStatus(fault));
    var Publishing(m, mt, status, observed) := s.worker;
    PublishFinishes(version, s, fault);
    if Calm(t, m.name) {
      PublishedRests(version, s, t, m, mt, status, observed);
    }
    FinishKeepsInv(version, s, t, m.name);
  }

  lemma FailurePatch(s: State, m: Module, e: Error, fault: Fault, now: nat)
    requires StoredWell(s) && Held(s, m) && ModuleOk(m.name, m)
    ensures var after :=
        PatchModuleStatus(Around(s, [fault]), m.name, m.status, FailedModuleStatus(m, e, now)).world.modules;
      after.Keys == s.modules.Keys
      && (forall n :: n in after && n != m.name ==> after[n] == s.modules[n])
      && OwnChange(s.modules[m.name], after[m.name]) && after[m.name].finalizers == s.modules[m.name].finalizers
  {
    SetStatusConditionMembers(m.status.conditions,
      Condition(READY, False, ModuleReason(e), ModuleReason(e), m.generation, 0), now);
    StatusOutcome(s, m, fault, FailedModuleStatus(m, e, now));
  }

  lemma FailureFinishes(s: State, t: State, m: Module, e: Error, modules: map<string, Module>)
    requires QueueValid(s) && s.worker == Failing(m, e) && Held(s, m) && Current(s, m)
    requires modules.Keys == s.modules.Keys && forall n :: n in modules && n != m.name ==> modules[n] == s.modules[n]
    requires OwnChange(s.modules[m.name], modules[m.name]) && modules[m.name].finalizers == s.modules[m.name].finalizers
    requires t == AfterFailure(s, m, e, modules)
    ensures Finished(s, t, m.name)
    ensures Calm(t, m.name) ==>
              Calm(s, m.name) && IsPermanent(e) && m.name in t.last && s.modules[m.name] == m
              && t.modules[m.name] == m.(status := t.modules[m.name].status)
              && t.last[m.name] == (if e.TemplateNotFound? then MissingTemplate else InvalidTemplate)
  {
  }

  lemma FailureKeepsInv(version: string, s: State, fault: Fault, now: nat)
    requires Inv(version, s) && Enabled(s, RecordFailure(fault, now))
    ensures Inv(version, Next(version, s, RecordFailure(fault, now)))
  {
    var t := Next(version, s, RecordFailure(fault, now));
    var Failing(m, e) := s.worker;
    FailurePatch(s, m, e, fault, now);
    var r := PatchModuleStatus(Around(s, [fault]), m.name, m.status, FailedModuleStatus(m, e, now));
    FailureFinishes(s, t, m, e, r.world.modules);
    if Calm(t, m.name) {
      PermanentRests(version, s, t, m, e);
    }
    FinishKeepsInv(version, s, t, m.name);
  }

  lemma PermanentRests(version: string, s: State, t: State, m: Module, e: Error)
    requires m.name in s.modules && s.modules[m.name] == m && t.templates == s.templates
    requires m.name in t.modules && t.modules[m.name] == m.(status := t.modules[m.name].status)
    requires e.TemplateNotFound? ==> OutcomeHolds(version, s, m.name, MissingTemplate)
    requires e.TemplateInvalid? ==> OutcomeHolds(version, s, m.name, InvalidTemplate)
    ensures e.TemplateNotFound? ==> OutcomeHolds(version, t, m.name, MissingTemplate)
    ensures e.TemplateInvalid? ==> OutcomeHolds(version, t, m.name, InvalidTemplate)
  {
  }

  /** With the finalizer in place the worker goes on to purge, and nothing else happens. */
  lemma CleanupStarts(version: string, s: State, fault: Fault)
    requires QueueValid(s) && WorkerValid(version, s) && Enabled(s, StartCleanup(fault))
    requires FINALIZER in s.worker.m.finalizers
    ensures var t := Next(version, s, StartCleanup(fault));
      WorkerMoved(s, t) && WorkerValid(version, t) && QueueValid(t)
  {
    var m := s.worker.m;
    var ops := CleanupOps(m, ResolveCleanupNamespace(Around(s, [fault]), m).namespace);
    assert Next(version, s, StartCleanup(fault)) == s.(worker := Purging(m, ops));
    assert forall i :: 0 <= i < |ops| ==> ops[i].Remove?;
  }

  /** Without it the run ends, and the Module is released already. */
  lemma CleanupSkips(version: string, s: State, fault: Fault)
    requires StoredWell(s) && QueueValid(s) && WorkerValid(version, s) && Enabled(s, StartCleanup(fault))
    requires FINALIZER !in s.worker.m.finalizers
    ensures var t := Next(version, s, StartCleanup(fault));
      Finished(s, t, s.worker.m.name) && (Calm(t, s.worker.m.name) ==> Resting(version, t, s.worker.m.name))
  {
    assert Next(version, s, StartCleanup(fault)) == Finish(s, s.worker.m.name, false);
  }

  lemma StartCleanupKeepsInv(version: string, s: State, fault: Fault)
    requires Inv(version, s) && Enabled(s, StartCleanup(fault))
    ensures Inv(version, Next(version, s, StartCleanup(fault)))
  {
    var t := Next(version, s, StartCleanup(fault));
    if FINALIZER in s.worker.m.finalizers {
      CleanupStarts(version, s, fault);
      MoveKeepsInv(version, s, t);
    } else {
      CleanupSkips(version, s, fault);
      FinishKeepsInv(version, s, t, s.worker.m.name);
    }
  }

  lemma PurgeOutcome(s: Store, faults: seq<Fault>, op: Op)
    requires op.Remove?
    ensures var after := CallOp(s, faults, op).store;
      after == s || after == s.(objects := s.objects - {op.key})
  {
    CallIsAllOrNothing(s, faults, op);
  }

  lemma PurgeMoves(s: State, t: State, key: Key)
    requires History(s) && QueueValid(s)
    requires t == s.(store := t.store, pending := t.pending, written := t.written, worker := t.worker, queue := t.queue)
    requires s.pending + Wakes(s.store, t.store, key) <= t.pending && t.queue.dirty == s.queue.dirty
    requires s.queue.processing - t.queue.processing <= t.pending
    requires (t.store == s.store && t.written == s.written)
          || (t.store == s.store.(objects := s.store.objects - {key}) && t.written == s.written - {key})
    ensures StoreMoved(s, t) && History(t)
  {
  }

  /** The worker after one cleanup call: on to the next, or done with a retry. */
  lemma PurgeWorker(version: string, s: State, faults: seq<Fault>)
    requires StoredWell(s) && QueueValid(s) && WorkerValid(version, s) && Enabled(s, Purge(faults))
    ensures var t := Next(version, s, Purge(faults));
      StoredWell(t) && QueueValid(t) && WorkerValid(version, t)
      && t == s.(store := t.store, pending := t.pending, written := t.written, worker := t.worker, queue := t.queue)
      && t.queue.dirty == s.queue.dirty && s.queue.processing - t.queue.processing <= t.pending
  {
    var called := CallOp(s.store, faults, s.worker.ops[0]);
    var t := Next(version, s, Purge(faults));
    assert t.worker == if called.err.Some? then Idle else Purging(s.worker.m, s.worker.ops[1..]);
  }

  lemma PurgeKeepsInv(version: string, s: State, faults: seq<Fault>)
    requires Inv(version, s) && Enabled(s, Purge(faults))
    ensures Inv(version, Next(version, s, Purge(faults)))
  {
    var t := Next(version, s, Purge(faults));
    PurgeWorker(version, s, faults);
    PurgeOutcome(s.store, faults, s.worker.ops[0]);
    PurgeMoves(s, t, s.worker.ops[0].key);
    StoreMovedKeepsSound(version, s, t);
  }

  lemma ReleaseFinishes(version: string, s: State, fault: Fault)
    requires StoredWell(s) && QueueValid(s) && WorkerValid(version, s) && Enabled(s, Release(fault))
    ensures var t := Next(version, s, Release(fault));
      Finished(s, t, s.worker.m.name) && (Calm(t, s.worker.m.name) ==> Resting(version, t, s.worker.m.name))
  {
    ReleasedModules(s, s.worker.m, fault);
  }

  lemma ReleasedModules(s: State, m: Module, fault: Fault)
    requires StoredWell(s) && Held(s, m) && m.deleting
    ensures var r := PatchFinalizers(Around(s, [fault]), m.name, m.finalizers - {FINALIZER});
      var after := r.world.modules;
      (forall n :: n in s.modules && n != m.name ==> n in after)
      && (forall n :: n in after && n != m.name ==> n in s.modules && after[n] == s.modules[n])
      && (m.name in after ==> OwnChange(s.modules[m.name], after[m.name]) && after[m.name].deleting
                              && (r.err.None? ==> FINALIZER !in after[m.name].finalizers))
  {
  }

  lemma ReleaseKeepsInv(version: string, s: State, fault: Fault)
    requires Inv(version, s) && Enabled(s, Release(fault))
    ensures Inv(version, Next(version, s, Release(fault)))
  {
    ReleaseFinishes(version, s, fault);
    FinishKeepsInv(version, s, Next(version, s, Release(fault)), s.worker.m.name);
  }

  lemma StepKeepsInv(version: string, s: State, step: Step)
    requires Inv(version, s) && Enabled(s, step)
    ensures Inv(version, Next(version, s, step))
  {
    match step
    case ChangeFlux(_, _) => EnvironmentKeepsInv(version, s, step);
    case AddNamespace(_, _) => EnvironmentKeepsInv(version, s, step);
    case Vanish(_) => EnvironmentKeepsInv(version, s, step);
    case Take(name) => TakeKeepsInv(version, s, name);
    case Fetch(fault) => FetchKeepsInv(version, s, fault);
    case Guard(fault) => GuardKeepsInv(version, s, fault);
    case FetchTemplate(fault) => FetchTemplateKeepsInv(version, s, fault);
    case Write(faults) => WriteKeepsInv(version, s, faults);
    case ObserveFlux(fault, now) => ObserveKeepsInv(version, s, fault, now);
    case PublishStatus(fault) => PublishKeepsInv(version, s, fault);
    case RecordFailure(fault, now) => FailureKeepsInv(version, s, fault, now);
    case StartCleanup(fault) => StartCleanupKeepsInv(version, s, fault);
    case Purge(faults) => PurgeKeepsInv(version, s, faults);
    case Release(fault) => ReleaseKeepsInv(version, s, fault);
    case _ => UserStepKeepsInv(version, s, step);
  }
}
