/**
 * The Workspace controller as a concurrent protocol: one worker, the CRD handler, users, garbage collection.
 * Watch events and retries travel through `pending` before they reach the queue.
 */
module WorkspaceProtocol {
  import opened Prelude
  import opened Metadata
  import opened Conditions
  import opened Objects
  import opened Cluster
  import opened Api
  import opened Server
  import opened OpRuns
  import WorkQueue
  import opened WorkspaceNamespace
  import opened WorkspaceController

  /** `istioWatched`: Istio was installed when the manager started, so its objects are watched. */
  datatype Config = Config(version: string, istioWatched: bool)

  /** Where the worker is; `w` is its copy of the Workspace, `flag` its first detector read. */
  datatype Worker =
    | Idle
    | Claimed(name: string)
    | Fetched(w: Workspace)
    | Running(w: Workspace, flag: bool, pc: nat)
    | Publishing(w: Workspace, status: WorkspaceStatus)
    | Failing(w: Workspace, error: Error)

  /** `crdEvent`: a CRD event not handled yet; `refreshed`: the handler has refreshed and not listed yet. */
  datatype State = State(
    workspaces: map<string, Workspace>,
    store: Store,
    detector: bool,
    crdEvent: bool,
    refreshed: bool,
    queue: WorkQueue.Queue,
    pending: set<string>,
    worker: Worker,
    parked: set<string>,
    nextUid: nat)

  datatype Step =
    | CreateWorkspace(name: string, spec: WorkspaceSpec)
    | EditWorkspace(name: string, spec: WorkspaceSpec)
    | DeleteWorkspace(name: string)
    | Tamper(key: Key, o: Option<Object>)
    | Collect(key: Key)
    | ChangeCrds(served: bool)
    | Refresh(supported: bool, definitive: bool)
    | ListAndEnqueue
    | ListFails
    | Resync(name: string)
    | Deliver(name: string)
    | Take(name: string)
    | Fetch(fault: Fault)
    | ReadDetector
    | Operate(faults: seq<Fault>)
    | ComputeStatus(now: nat)
    | PublishStatus(fault: Fault)
    | RecordFailure(fault: Fault, now: nat)

  predicate Watched(cfg: Config, kind: Kind) {
    !IsFlux(kind) && (IsIstio(kind) ==> cfg.istioWatched)
  }

  function WorkspaceOwnerOf(o: Option<Object>): set<string> {
    if o.None? then {}
    else
      match ControllerOf(o.value.owners)
      case Some(ref) => if ref.kind == WorkspaceOwner then {ref.name} else {}
      case None => {}
  }

  /** The Workspaces that a watch event on one key wakes: the controlling owners before and after. */
  function Wakes(cfg: Config, before: Store, after: Store, key: Key): set<string> {
    if ObjectAt(before, key) == ObjectAt(after, key) || !Watched(cfg, key.kind) then {}
    else WorkspaceOwnerOf(ObjectAt(before, key)) + WorkspaceOwnerOf(ObjectAt(after, key))
  }

  /** The controlling owner of the object is the Workspace `n`. */
  predicate ControlledByWorkspace(o: Option<Object>, n: string) {
    o.Some? && ControlledBy(o.value.owners, WorkspaceOwner, n)
  }

  lemma OwnerIffControlled(o: Option<Object>, n: string)
    ensures n in WorkspaceOwnerOf(o) <==> ControlledByWorkspace(o, n)
  {
    if o.Some? {
      var owners := o.value.owners;
      if ControllerOf(owners).Some? {
        var i := ControllerIsFirst(owners);
      }
      forall i | 0 <= i < |owners| && FirstController(owners, i) ensures ControllerOf(owners) == Some(owners[i]) {
        FirstControls(owners, i);
      }
    }
  }

  /**
   * A change wakes a Workspace exactly if it really changes an object of a watched kind that the Workspace controls
   * before or after: every kind but those of Flux, and those of Istio only if they were there at start-up.
   */
  lemma WakesIff(cfg: Config, before: Store, after: Store, key: Key, n: string)
    ensures n in Wakes(cfg, before, after, key) <==>
      ObjectAt(before, key) != ObjectAt(after, key)
      && key.kind !in {HelmReleaseKind, KustomizationKind}
      && (key.kind in {PeerAuthenticationKind, AuthorizationPolicyKind} ==> cfg.istioWatched)
      && (ControlledByWorkspace(ObjectAt(before, key), n) || ControlledByWorkspace(ObjectAt(after, key), n))
  {
    OwnerIffControlled(ObjectAt(before, key), n);
    OwnerIffControlled(ObjectAt(after, key), n);
  }

  /** Deleting a namespace deletes what is in it. */
  function Deleted(c: Store, key: Key): Store {
    if key.kind == NamespaceKind then
      c.(objects := map k | k in c.objects && k != key && k.namespace != key.name :: c.objects[k])
    else c.(objects := c.objects - {key})
  }

  function Tampered(c: Store, key: Key, o: Option<Object>): Store {
    match o
    case Some(v) => c.(objects := c.objects[key := v])
    case None => Deleted(c, key)
  }

  /** Namespaces are cluster-scoped and named. */
  predicate ProperKey(key: Key) {
    key.kind == NamespaceKind ==> key.namespace == "" && key.name != ""
  }

  predicate Orphaned(s: State, key: Key) {
    key in s.store.objects &&
    match ControllerOf(s.store.objects[key].owners)
    case Some(ref) => ref.kind == WorkspaceOwner && forall n :: n in s.workspaces ==> s.workspaces[n].uid != ref.uid
    case None => false
  }

  /**
   * What may happen next. Users may change or delete any watched object and create namespaces; they do not create
   * other objects under the operator's names, and a failing Workspace list is treated separately.
   */
  predicate Enabled(cfg: Config, s: State, step: Step) {
    match step
    case CreateWorkspace(name, spec) => name !in s.workspaces && spec.namespace != ""
    case EditWorkspace(name, spec) => name in s.workspaces && spec.namespace == s.workspaces[name].spec.namespace
    case DeleteWorkspace(name) => name in s.workspaces
    case Tamper(key, o) =>
      Watched(cfg, key.kind) && Serves(s.store, key.kind)
      && (key in s.store.objects || key.kind == NamespaceKind) && ProperKey(key)
    case Collect(key) => Orphaned(s, key) && ProperKey(key)
    case ChangeCrds(_) => true
    case Refresh(_, _) => s.crdEvent && !s.refreshed
    case ListAndEnqueue => s.refreshed
    case ListFails => false
    case Resync(_) => true
    case Deliver(name) => name in s.pending
    case Take(name) => s.worker.Idle? && name in s.queue.queued
    case Fetch(_) => s.worker.Claimed?
    case ReadDetector => s.worker.Fetched?
    case Operate(_) => s.worker.Running? && s.worker.pc < 9
    case ComputeStatus(_) => s.worker.Running? && s.worker.pc == 9
    case PublishStatus(_) => s.worker.Publishing?
    case RecordFailure(_, _) => s.worker.Failing?
  }

  function Finish(s: State, name: string, retry: bool, conflict: bool): State {
    s.(queue := WorkQueue.Done(s.queue, name),
       pending := if retry then s.pending + {name} else s.pending,
       parked := if conflict then s.parked + {name} else s.parked - {name},
       worker := Idle)
  }

  /** One API call on a status, through the same functions as the sequential reconciler. */
  function Patch(s: State, fault: Fault, w: Workspace, desired: WorkspaceStatus): Ran {
    PatchWorkspaceStatus(World(s.store, [fault], s.workspaces, map[], map[]), w.name, w.status, desired)
  }

  function Next(cfg: Config, s: State, step: Step): State
    requires Enabled(cfg, s, step) || step.ListFails?
  {
    match step
    case CreateWorkspace(name, spec) =>
      s.(workspaces := s.workspaces[name := Workspace(name, s.nextUid, 1, map[], spec, NO_STATUS)],
         nextUid := s.nextUid + 1, pending := s.pending + {name})
    case EditWorkspace(name, spec) =>
      var w := s.workspaces[name];
      s.(workspaces := s.workspaces[name := w.(spec := spec, generation := w.generation + 1)],
         pending := s.pending + {name})
    case DeleteWorkspace(name) => s.(workspaces := s.workspaces - {name}, pending := s.pending + {name})
    case Tamper(key, o) =>
      var after := Tampered(s.store, key, o);
      s.(store := after, pending := s.pending + Wakes(cfg, s.store, after, key))
    case Collect(key) =>
      var after := Deleted(s.store, key);
      s.(store := after, pending := s.pending + Wakes(cfg, s.store, after, key))
    case ChangeCrds(served) =>
      s.(store := Store(map k | k in s.store.objects && (IsIstio(k.kind) ==> served) :: s.store.objects[k], served),
         crdEvent := true)
    case Refresh(supported, definitive) =>
      s.(crdEvent := false, refreshed := true, detector := if definitive then supported else s.detector)
    case ListAndEnqueue => s.(refreshed := false, pending := s.pending + s.workspaces.Keys)
    case ListFails => s.(refreshed := false)
    case Resync(name) => s.(pending := s.pending + {name})
    case Deliver(name) => s.(pending := s.pending - {name}, queue := WorkQueue.Add(s.queue, name))
    case Take(name) => s.(queue := WorkQueue.Take(s.queue, name), worker := Claimed(name))
    case Fetch(fault) =>
      var name := s.worker.name;
      if fault != Healthy then Finish(s, name, true, false)
      else if name !in s.workspaces then Finish(s, name, false, false)
      else s.(worker := Fetched(s.workspaces[name]))
    case ReadDetector => s.(worker := Running(s.worker.w, s.detector, 0))
    case Operate(faults) =>
      var Running(w, flag, pc) := s.worker;
      var op := OpAt(cfg, w, flag, pc);
      var called := CallOp(s.store, faults, op);
      s.(store := called.store, pending := s.pending + Wakes(cfg, s.store, called.store, op.key),
         worker := if called.err.Some? then Failing(w, called.err.value) else Running(w, flag, pc + 1))
    case ComputeStatus(now) => s.(worker := Publishing(s.worker.w, NextStatus(s.worker.w, s.detector, now)))
    case PublishStatus(fault) =>
      var Publishing(w, status) := s.worker;
      if status == w.status then Finish(s, w.name, false, false)
      else
        var r := Patch(s, fault, w, status);
        Finish(s.(workspaces := r.world.workspaces), w.name, r.err.Some?, false)
    case RecordFailure(fault, now) =>
      var Failing(w, e) := s.worker;
      var r := Patch(s, fault, w, FailedStatus(w, e, now));
      Finish(s.(workspaces := r.world.workspaces), w.name, !e.NamespaceConflict?, e.NamespaceConflict?)
  }

  /** The two handler steps together: a definitive answer is taken over, and every listed Workspace is asked for. */
  lemma HandlerTurn(cfg: Config, s: State, supported: bool, definitive: bool, items: seq<Workspace>)
    requires s.crdEvent && !s.refreshed
    requires forall n :: n in s.workspaces <==> exists i :: 0 <= i < |items| && items[i].name == n
    ensures Enabled(cfg, s, Refresh(supported, definitive))
    ensures Enabled(cfg, Next(cfg, s, Refresh(supported, definitive)), ListAndEnqueue)
    ensures Next(cfg, Next(cfg, s, Refresh(supported, definitive)), ListAndEnqueue)
         == s.(crdEvent := false, detector := if definitive then supported else s.detector,
               pending := s.pending + set i | 0 <= i < |items| :: items[i].name)
  {
    assert s.workspaces.Keys == set i | 0 <= i < |items| :: items[i].name;
  }

  function OpAt(cfg: Config, w: Workspace, flag: bool, i: nat): Op
    requires i < 9
  {
    OpsInOrder(w, cfg.version, flag);
    Ops(w, cfg.version, flag)[i]
  }

  predicate Initial(s: State) {
    s.pending == s.workspaces.Keys && s.queue == WorkQueue.EMPTY && s.worker == Idle && s.parked == {}
    && !s.crdEvent && !s.refreshed && StoredWell(s)
  }

  predicate StoredWell(s: State) {
    forall n :: n in s.workspaces ==>
      s.workspaces[n].name == n && s.workspaces[n].spec.namespace != ""
          && UniqueTypes(s.workspaces[n].status.conditions)
  }

  /** A handler is mid-way: a CRD event is unhandled, or handled but not yet listed. */
  predicate HandlerActive(s: State) {
    s.crdEvent || s.refreshed
  }

  predicate Busy(s: State, n: string) {
    n in s.queue.dirty || n in s.pending
  }

  /** Not queued, dirty or woken, and no handler mid-way. */
  predicate Calm(s: State, n: string) {
    n in s.workspaces && !Busy(s, n) && !HandlerActive(s)
  }

  predicate SettledUpTo(cfg: Config, c: Store, w: Workspace, flag: bool, pc: nat)
    requires pc <= 9
  {
    forall i :: 0 <= i < pc ==> Settled(c, OpAt(cfg, w, flag, i))
  }

  predicate Agrees(cfg: Config, s: State, n: string)
    requires n in s.workspaces
  {
    SettledUpTo(cfg, s.store, s.workspaces[n], s.detector, 9)
    && StatusAgrees(s.workspaces[n].status, s.workspaces[n], s.detector)
  }

  /** Level-triggered soundness: whoever is not scheduled, and did not end in a conflict, agrees. */
  predicate Sound(cfg: Config, s: State) {
    forall n :: n in s.workspaces && Calm(s, n) && n !in s.queue.processing && n !in s.parked ==> Agrees(cfg, s, n)
  }

  predicate QueueValid(s: State) {
    WorkQueue.Valid(s.queue) &&
    s.queue.processing ==
      match s.worker
      case Idle => {}
      case Claimed(name) => {name}
      case Fetched(w) => {w.name}
      case Running(w, _, _) => {w.name}
      case Publishing(w, _) => {w.name}
      case Failing(w, _) => {w.name}
  }

  /** While w writes into its namespace, nobody else who claims that namespace counts as settled. */
  predicate Exclusive(s: State, w: Workspace) {
    forall n :: n in s.workspaces && n != w.name && s.workspaces[n].spec.namespace == w.spec.namespace ==>
      HandlerActive(s) || Busy(s, n) || n in s.parked
  }

  /** What the worker's copy is worth: while its Workspace stays calm, copy and work so far are current. */
  predicate WorkerValid(cfg: Config, s: State) {
    match s.worker
    case Idle => true
    case Claimed(_) => true
    case Fetched(w) => CopyValid(s, w)
    case Running(w, flag, pc) =>
      CopyValid(s, w) && pc <= 9 && (pc > 0 ==> Exclusive(s, w))
      && (Calm(s, w.name) ==> flag == s.detector && SettledUpTo(cfg, s.store, w, flag, pc))
    case Publishing(w, status) =>
      CopyValid(s, w) && UniqueTypes(status.conditions)
      && (Calm(s, w.name) ==> SettledUpTo(cfg, s.store, w, s.detector, 9) && StatusAgrees(status, w, s.detector))
    case Failing(w, _) => UniqueTypes(w.status.conditions) && w.spec.namespace != ""
  }

  predicate CopyValid(s: State, w: Workspace) {
    UniqueTypes(w.status.conditions) && w.spec.namespace != "" && (Calm(s, w.name) ==> s.workspaces[w.name] == w)
  }

  predicate Inv(cfg: Config, s: State) {
    StoredWell(s) && QueueValid(s) && WorkerValid(cfg, s) && Sound(cfg, s)
  }

  lemma InitialIsSound(cfg: Config, s: State)
    requires Initial(s)
    ensures Inv(cfg, s)
  {
  }

  /** A change to one key reaches no other key, unless the key is a namespace that goes away with its contents. */
  lemma ChangeIsLocal(c: Store, key: Key, o: Option<Object>, other: Key)
    requires other != key && (o.None? && key.kind == NamespaceKind ==> other.namespace != key.name)
    ensures ObjectAt(Tampered(c, key, o), other) == ObjectAt(c, other)
  {
  }

  /** The namespace operation of w, and one of its operations, both settled. */
  predicate SettledPair(c: Store, w: Workspace, root: Op, op: Op) {
    root.Ensure? && root.key == NamespaceKey(w.spec.namespace) && w.spec.namespace != ""
    && (op == root || (op.key.namespace == w.spec.namespace && op.key.kind != NamespaceKind))
    && (forall x :: x in {root, op} && x.Ensure? ==> x.mutation.owner == OwnerOfWorkspace(w))
    && Settled(c, root) && Settled(c, op)
  }

  /** Changing a key that a settled operation relies on wakes its Workspace. */
  lemma TamperWakes(cfg: Config, c: Store, key: Key, o: Option<Object>, w: Workspace, root: Op, op: Op)
    requires SettledPair(c, w, root, op) && Watched(cfg, key.kind)
    requires key in c.objects || key.kind == NamespaceKind
    requires ProperKey(key)
    requires w.name !in Wakes(cfg, c, Tampered(c, key, o), key)
    ensures ObjectAt(Tampered(c, key, o), op.key) == ObjectAt(c, op.key)
  {
    SettledController(c, root);
    if op.Ensure? { SettledController(c, op); }
    if key != op.key && (o.Some? || key.kind != NamespaceKind || op.key.namespace != key.name) {
      ChangeIsLocal(c, key, o, op.key);
    }
  }

  /** Garbage collection of orphans never touches what a live Workspace relies on. */
  lemma CollectSpares(s: State, key: Key, w: Workspace, root: Op, op: Op)
    requires SettledPair(s.store, w, root, op) && Orphaned(s, key)
    requires ProperKey(key)
    requires w.name in s.workspaces && s.workspaces[w.name].uid == w.uid
    ensures ObjectAt(Deleted(s.store, key), op.key) == ObjectAt(s.store, op.key)
  {
    SettledController(s.store, root);
    if op.Ensure? { SettledController(s.store, op); }
    assert key != op.key && key != root.key;
    ChangeIsLocal(s.store, key, None, op.key);
  }

  lemma SettledUpToFrame(cfg: Config, c: Store, d: Store, w: Workspace, flag: bool, pc: nat)
    requires pc <= 9 && SettledUpTo(cfg, c, w, flag, pc) && c.istioServed == d.istioServed
    requires forall i :: 0 <= i < pc ==>
        ObjectAt(d, OpAt(cfg, w, flag, i).key) == ObjectAt(c, OpAt(cfg, w, flag, i).key)
    ensures SettledUpTo(cfg, d, w, flag, pc)
  {
    forall i | 0 <= i < pc ensures Settled(d, OpAt(cfg, w, flag, i)) {
      SettledFrame(c, d, OpAt(cfg, w, flag, i));
    }
  }

  lemma ChangeKeepsPrefix(cfg: Config, s: State, step: Step, w: Workspace, flag: bool, pc: nat)
    requires Enabled(cfg, s, step) && (step.Tamper? || step.Collect?)
    requires pc <= 9 && w.spec.namespace != "" && SettledUpTo(cfg, s.store, w, flag, pc)
    requires w.name !in Next(cfg, s, step).pending
    requires w.name in s.workspaces && s.workspaces[w.name].uid == w.uid
    ensures SettledUpTo(cfg, Next(cfg, s, step).store, w, flag, pc)
  {
    forall i | 0 <= i < pc
      ensures ObjectAt(Next(cfg, s, step).store, OpAt(cfg, w, flag, i).key)
          == ObjectAt(s.store, OpAt(cfg, w, flag, i).key)
    {
      var root, op := OpAt(cfg, w, flag, 0), OpAt(cfg, w, flag, i);
      OpsOwnDistinctKeys(w, cfg.version, flag);
      assert SettledPair(s.store, w, root, op);
      if step.Tamper? {
        TamperWakes(cfg, s.store, step.key, step.o, w, root, op);
      } else {
        CollectSpares(s, step.key, w, root, op);
      }
    }
    SettledUpToFrame(cfg, s.store, Next(cfg, s, step).store, w, flag, pc);
  }

  lemma ChangeKeepsInv(cfg: Config, s: State, step: Step)
    requires Inv(cfg, s) && Enabled(cfg, s, step) && (step.Tamper? || step.Collect?)
    ensures Inv(cfg, Next(cfg, s, step))
  {
    var t := Next(cfg, s, step);
    forall n | Calm(t, n) && n !in t.queue.processing && n !in t.parked ensures Agrees(cfg, t, n) {
      assert Calm(s, n);
      ChangeKeepsPrefix(cfg, s, step, s.workspaces[n], s.detector, 9);
    }
    match s.worker {
      case Running(w, flag, pc) =>
        if Calm(t, w.name) { assert Calm(s, w.name); ChangeKeepsPrefix(cfg, s, step, w, flag, pc); }
      case Publishing(w, status) =>
        if Calm(t, w.name) { assert Calm(s, w.name); ChangeKeepsPrefix(cfg, s, step, w, s.detector, 9); }
      case _ =>
    }
  }

  /** Two Workspaces cannot both have settled the same namespace. */
  lemma SettledNamespaceIsMine(cfg: Config, c: Store, v: Workspace, w: Workspace, flagV: bool, flagW: bool)
    requires v.name != w.name && v.spec.namespace == w.spec.namespace
    requires Settled(c, OpAt(cfg, v, flagV, 0))
    ensures ApplyOp(c, OpAt(cfg, w, flagW, 0)).Err?
  {
    OpsInOrder(v, cfg.version, flagV);
    OpsInOrder(w, cfg.version, flagW);
    SettledController(c, OpAt(cfg, v, flagV, 0));
  }

  lemma OperateMissesOthers(cfg: Config, s: State, faults: seq<Fault>, n: string)
    requires Inv(cfg, s) && Enabled(cfg, s, Operate(faults))
    requires n in s.workspaces && n != s.worker.w.name && Calm(s, n) && n !in s.parked
    ensures SettledUpTo(cfg, Next(cfg, s, Operate(faults)).store, s.workspaces[n], s.detector, 9)
  {
    var Running(w, flag, pc) := s.worker;
    var v := s.workspaces[n];
    var op := OpAt(cfg, w, flag, pc);
    assert Agrees(cfg, s, n);
    CallIsAllOrNothing(s.store, faults, op);
    OpsOwnDistinctKeys(w, cfg.version, flag);
    OpsOwnDistinctKeys(v, cfg.version, s.detector);
    var after := Next(cfg, s, Operate(faults)).store;
    if after != s.store {
      ApplySettles(s.store, op);
      if v.spec.namespace == w.spec.namespace {
        assert pc == 0;
        assert Settled(s.store, OpAt(cfg, v, s.detector, 0));
        SettledNamespaceIsMine(cfg, s.store, v, w, s.detector, flag);
      }
      forall i | 0 <= i < 9 ensures OpAt(cfg, v, s.detector, i).key != op.key {
        if i == 0 && pc == 0 {
          assert OpAt(cfg, v, s.detector, i).key == NamespaceKey(v.spec.namespace);
          assert op.key == NamespaceKey(w.spec.namespace);
        }
      }
      SettledUpToFrame(cfg, s.store, after, v, s.detector, 9);
    }
  }

  lemma OperateExtendsPrefix(cfg: Config, s: State, faults: seq<Fault>)
    requires Inv(cfg, s) && Enabled(cfg, s, Operate(faults)) && Calm(s, s.worker.w.name)
    requires CallOp(s.store, faults, OpAt(cfg, s.worker.w, s.worker.flag, s.worker.pc)).err.None?
    ensures SettledUpTo(cfg, Next(cfg, s, Operate(faults)).store, s.worker.w, s.worker.flag, s.worker.pc + 1)
  {
    var Running(w, flag, pc) := s.worker;
    var op := OpAt(cfg, w, flag, pc);
    CallIsAllOrNothing(s.store, faults, op);
    ApplySettles(s.store, op);
    OpsOwnDistinctKeys(w, cfg.version, flag);
    SettledUpToFrame(cfg, s.store, Next(cfg, s, Operate(faults)).store, w, flag, pc);
  }

  lemma OperateKeepsSound(cfg: Config, s: State, faults: seq<Fault>)
    requires Inv(cfg, s) && Enabled(cfg, s, Operate(faults))
    ensures Sound(cfg, Next(cfg, s, Operate(faults)))
  {
    var t := Next(cfg, s, Operate(faults));
    forall n | n in t.workspaces && Calm(t, n) && n !in t.queue.processing && n !in t.parked ensures Agrees(cfg, t, n) {
      assert Calm(s, n) && Agrees(cfg, s, n);
      OperateMissesOthers(cfg, s, faults, n);
    }
  }

  /** Once the namespace is this Workspace's, no other one that claims it counts as settled. */
  lemma OperateIsExclusive(cfg: Config, s: State, faults: seq<Fault>)
    requires Inv(cfg, s) && Enabled(cfg, s, Operate(faults)) && Next(cfg, s, Operate(faults)).worker.Running?
    ensures Exclusive(Next(cfg, s, Operate(faults)), s.worker.w)
  {
    var t := Next(cfg, s, Operate(faults));
    var Running(w, flag, pc) := s.worker;
    if pc == 0 {
      CallIsAllOrNothing(s.store, faults, OpAt(cfg, w, flag, 0));
      forall n | n in s.workspaces && n != w.name && s.workspaces[n].spec.namespace == w.spec.namespace
        ensures HandlerActive(t) || Busy(t, n) || n in t.parked
      {
        if Calm(s, n) && n !in s.parked {
          assert Agrees(cfg, s, n);
          SettledNamespaceIsMine(cfg, s.store, s.workspaces[n], w, s.detector, flag);
        }
      }
    }
  }

  lemma OperateKeepsWorker(cfg: Config, s: State, faults: seq<Fault>)
    requires Inv(cfg, s) && Enabled(cfg, s, Operate(faults))
    ensures WorkerValid(cfg, Next(cfg, s, Operate(faults)))
  {
    var t := Next(cfg, s, Operate(faults));
    if t.worker.Running? {
      OperateIsExclusive(cfg, s, faults);
      if Calm(t, s.worker.w.name) {
        assert Calm(s, s.worker.w.name);
        OperateExtendsPrefix(cfg, s, faults);
      }
    }
  }

  lemma OperateKeepsInv(cfg: Config, s: State, faults: seq<Fault>)
    requires Inv(cfg, s) && Enabled(cfg, s, Operate(faults))
    ensures Inv(cfg, Next(cfg, s, Operate(faults)))
  {
    OperateKeepsSound(cfg, s, faults);
    OperateKeepsWorker(cfg, s, faults);
  }

  /** What a status patch, applied to whatever is stored under the name by then, may have done. */
  predicate StatusPatched(before: State, after: map<string, Workspace>, w: Workspace) {
    after.Keys == before.workspaces.Keys
    && (forall n :: n in after && n != w.name ==> after[n] == before.workspaces[n])
    && (w.name in after ==> after[w.name] == before.workspaces[w.name].(status := after[w.name].status)
                            && UniqueTypes(after[w.name].status.conditions))
  }

  lemma PatchShape(s: State, fault: Fault, w: Workspace, desired: WorkspaceStatus)
    requires StoredWell(s) && UniqueTypes(desired.conditions)
    ensures StatusPatched(s, Patch(s, fault, w, desired).world.workspaces, w)
    ensures Patch(s, fault, w, desired).err.None? && w.name in s.workspaces && s.workspaces[w.name] == w ==>
      Patch(s, fault, w, desired).world.workspaces[w.name].status == desired
  {
  }

  lemma FailureOutcome(cfg: Config, s: State, fault: Fault, now: nat)
    requires StoredWell(s) && s.worker.Failing? && UniqueTypes(s.worker.w.status.conditions)
    ensures var Failing(w, e) := s.worker;
      var t := Next(cfg, s, RecordFailure(fault, now));
      StatusPatched(s, t.workspaces, w)
      && t == Finish(s.(workspaces := t.workspaces), w.name, !e.NamespaceConflict?, e.NamespaceConflict?)
  {
    var Failing(w, e) := s.worker;
    SetStatusConditionMembers(w.status.conditions, Condition(READY, False, ReasonFor(e), ReasonFor(e), w.generation, 0),
                              now);
    PatchShape(s, fault, w, FailedStatus(w, e, now));
  }

  lemma FailureKeepsInv(cfg: Config, s: State, fault: Fault, now: nat)
    requires Inv(cfg, s) && Enabled(cfg, s, RecordFailure(fault, now))
    ensures Inv(cfg, Next(cfg, s, RecordFailure(fault, now)))
  {
    FailureOutcome(cfg, s, fault, now);
    FinishKeepsSound(cfg, s, Next(cfg, s, RecordFailure(fault, now)), s.worker.w);
  }

  /** Finishing w leaves every other Workspace as sound as it was. */
  lemma FinishKeepsSound(cfg: Config, s: State, t: State, w: Workspace)
    requires Inv(cfg, s) && StatusPatched(s, t.workspaces, w) && t.store == s.store && t.detector == s.detector
    requires t.crdEvent == s.crdEvent && t.refreshed == s.refreshed && t.worker == Idle
    requires s.queue.processing == {w.name} && t.queue == WorkQueue.Done(s.queue, w.name)
    requires s.pending <= t.pending && s.parked - {w.name} <= t.parked
    requires Calm(t, w.name) && w.name !in t.parked ==> Agrees(cfg, t, w.name)
    ensures Inv(cfg, t)
  {
    forall n | n in t.workspaces && Calm(t, n) && n !in t.queue.processing && n !in t.parked ensures Agrees(cfg, t, n) {
      if n != w.name {
        assert Calm(s, n) && t.workspaces[n] == s.workspaces[n];
        assert Agrees(cfg, s, n);
      }
    }
  }

  lemma PublishedAgrees(cfg: Config, s: State, t: State, w: Workspace, status: WorkspaceStatus)
    requires t.store == s.store && t.detector == s.detector && w.name in t.workspaces
    requires t.workspaces[w.name] == w.(status := status)
    requires SettledUpTo(cfg, s.store, w, s.detector, 9) && StatusAgrees(status, w, s.detector)
    ensures Agrees(cfg, t, w.name)
  {
    OpsIgnoreStatusHere(cfg, w, status, s.detector);
    AgreementIgnoresStatus(w, status, s.detector);
  }

  lemma PublishOutcome(cfg: Config, s: State, fault: Fault)
    requires s.worker.Publishing? && StoredWell(s) && CopyValid(s, s.worker.w)
        && UniqueTypes(s.worker.status.conditions)
    ensures var t := Next(cfg, s, PublishStatus(fault));
      StatusPatched(s, t.workspaces, s.worker.w)
      && (Calm(t, s.worker.w.name) ==>
            Calm(s, s.worker.w.name) && t.workspaces[s.worker.w.name] == s.worker.w.(status := s.worker.status))
  {
    var Publishing(w, status) := s.worker;
    var t := Next(cfg, s, PublishStatus(fault));
    if status == w.status {
      assert t == Finish(s, w.name, false, false);
    } else {
      PatchShape(s, fault, w, status);
      var r := Patch(s, fault, w, status);
      assert t == Finish(s.(workspaces := r.world.workspaces), w.name, r.err.Some?, false);
      if Calm(t, w.name) {
        assert Calm(s, w.name) && r.err.None?;
      }
    }
  }

  lemma PublishKeepsInv(cfg: Config, s: State, fault: Fault)
    requires Inv(cfg, s) && Enabled(cfg, s, PublishStatus(fault))
    ensures Inv(cfg, Next(cfg, s, PublishStatus(fault)))
  {
    var t := Next(cfg, s, PublishStatus(fault));
    var Publishing(w, status) := s.worker;
    PublishOutcome(cfg, s, fault);
    if Calm(t, w.name) && w.name !in t.parked {
      PublishedAgrees(cfg, s, t, w, status);
    }
    FinishKeepsSound(cfg, s, t, w);
  }

  lemma OpsIgnoreStatusHere(cfg: Config, w: Workspace, status: WorkspaceStatus, flag: bool)
    ensures forall i :: 0 <= i < 9 ==> OpAt(cfg, w.(status := status), flag, i) == OpAt(cfg, w, flag, i)
  {
    OpsInOrder(w, cfg.version, flag);
    OpsInOrder(w.(status := status), cfg.version, flag);
    assert Ops(w.(status := status), cfg.version, flag) == Ops(w, cfg.version, flag);
  }

  /** A state that only makes fewer Workspaces calm, and keeps the calm ones and the cluster, is as sound as before. */
  predicate Quieter(s: State, t: State) {
    t.store == s.store && t.detector == s.detector && t.worker == s.worker && t.parked == s.parked
    && t.queue.processing == s.queue.processing
    && (forall n :: n in t.workspaces && Calm(t, n) ==> Calm(s, n) && t.workspaces[n] == s.workspaces[n])
    && (forall n :: n in t.workspaces && (Busy(s, n) || HandlerActive(s)) ==> Busy(t, n) || HandlerActive(t))
    && (forall n :: n in t.workspaces ==> Busy(t, n) || (n in s.workspaces && t.workspaces[n] == s.workspaces[n]))
  }

  lemma QuieterKeepsInv(cfg: Config, s: State, t: State)
    requires Inv(cfg, s) && Quieter(s, t) && StoredWell(t) && WorkQueue.Valid(t.queue)
    ensures Inv(cfg, t)
  {
    forall n | n in t.workspaces && Calm(t, n) && n !in t.queue.processing && n !in t.parked ensures Agrees(cfg, t, n) {
      assert Agrees(cfg, s, n);
    }
  }

  lemma UserStepKeepsInv(cfg: Config, s: State, step: Step)
    requires Inv(cfg, s) && Enabled(cfg, s, step)
    requires step.CreateWorkspace? || step.EditWorkspace? || step.DeleteWorkspace? || step.Resync? || step.Deliver?
          || step.ListAndEnqueue?
    ensures Inv(cfg, Next(cfg, s, step))
  {
    QuieterKeepsInv(cfg, s, Next(cfg, s, step));
  }

  /** While a handler is mid-way, nobody is calm. */
  lemma HandlerStepKeepsInv(cfg: Config, s: State, step: Step)
    requires Inv(cfg, s) && Enabled(cfg, s, step) && (step.ChangeCrds? || step.Refresh?)
    ensures Inv(cfg, Next(cfg, s, step))
  {
  }

  /** A step that only moves the worker keeps everyone else as sound as before. */
  predicate OnlyWorkerMoved(s: State, t: State) {
    t.store == s.store && t.detector == s.detector && t.workspaces == s.workspaces
    && t.crdEvent == s.crdEvent && t.refreshed == s.refreshed && t.parked == s.parked && t.pending == s.pending
    && s.queue.processing <= t.queue.processing && s.queue.dirty - t.queue.processing <= t.queue.dirty
  }

  lemma MoveKeepsSound(cfg: Config, s: State, t: State)
    requires Sound(cfg, s) && OnlyWorkerMoved(s, t)
    ensures Sound(cfg, t)
  {
    forall n | n in t.workspaces && Calm(t, n) && n !in t.queue.processing && n !in t.parked ensures Agrees(cfg, t, n) {
      assert Calm(s, n);
      assert Agrees(cfg, s, n);
    }
  }

  lemma FetchKeepsInv(cfg: Config, s: State, fault: Fault)
    requires Inv(cfg, s) && Enabled(cfg, s, Fetch(fault))
    ensures Inv(cfg, Next(cfg, s, Fetch(fault)))
  {
    var t := Next(cfg, s, Fetch(fault));
    if t.worker.Fetched? {
      MoveKeepsSound(cfg, s, t);
    } else {
      forall n | n in t.workspaces && Calm(t, n) && n !in t.queue.processing && n !in t.parked
          ensures Agrees(cfg, t, n) {
        assert Agrees(cfg, s, n);
      }
    }
  }

  lemma ClaimKeepsInv(cfg: Config, s: State, step: Step)
    requires Inv(cfg, s) && Enabled(cfg, s, step) && (step.Take? || step.ReadDetector?)
    ensures Inv(cfg, Next(cfg, s, step))
  {
    MoveKeepsSound(cfg, s, Next(cfg, s, step));
  }

  lemma ComputeKeepsInv(cfg: Config, s: State, now: nat)
    requires Inv(cfg, s) && Enabled(cfg, s, ComputeStatus(now))
    ensures Inv(cfg, Next(cfg, s, ComputeStatus(now)))
  {
    var t := Next(cfg, s, ComputeStatus(now));
    NextStatusAgrees(s.worker.w, s.detector, now);
    MoveKeepsSound(cfg, s, t);
  }

  lemma StepKeepsInv(cfg: Config, s: State, step: Step)
    requires Inv(cfg, s) && Enabled(cfg, s, step)
    ensures Inv(cfg, Next(cfg, s, step))
  {
    match step
    case Tamper(_, _) => ChangeKeepsInv(cfg, s, step);
    case Collect(_) => ChangeKeepsInv(cfg, s, step);
    case ChangeCrds(_) => HandlerStepKeepsInv(cfg, s, step);
    case Refresh(_, _) => HandlerStepKeepsInv(cfg, s, step);
    case Take(_) => ClaimKeepsInv(cfg, s, step);
    case Fetch(fault) => FetchKeepsInv(cfg, s, fault);
    case ReadDetector => ClaimKeepsInv(cfg, s, step);
    case Operate(faults) => OperateKeepsInv(cfg, s, faults);
    case ComputeStatus(now) => ComputeKeepsInv(cfg, s, now);
    case PublishStatus(fault) => PublishKeepsInv(cfg, s, fault);
    case RecordFailure(fault, now) => FailureKeepsInv(cfg, s, fault, now);
    case _ => UserStepKeepsInv(cfg, s, step);
  }

  /** The controller's own steps. */
  predicate Internal(step: Step) {
    step.Deliver? || step.Take? || step.Fetch? || step.ReadDetector? || step.Operate? || step.ComputeStatus?
    || step.PublishStatus? || step.RecordFailure?
  }

  predicate AllInternal(steps: seq<Step>) {
    forall i :: 0 <= i < |steps| ==> Internal(steps[i])
  }

  predicate IsRun(cfg: Config, s: State, steps: seq<Step>)
    decreases |steps|
  {
    steps == [] || (Enabled(cfg, s, steps[0]) && IsRun(cfg, Next(cfg, s, steps[0]), steps[1..]))
  }

  function After(cfg: Config, s: State, steps: seq<Step>): State
    requires IsRun(cfg, s, steps)
    decreases |steps|
  {
    if steps == [] then s else After(cfg, Next(cfg, s, steps[0]), steps[1..])
  }

  lemma {:induction false} RunKeepsInv(cfg: Config, s: State, steps: seq<Step>)
    requires Inv(cfg, s) && IsRun(cfg, s, steps)
    ensures Inv(cfg, After(cfg, s, steps))
    decreases |steps|
  {
    if steps == [] {
    } else {
      StepKeepsInv(cfg, s, steps[0]);
      RunKeepsInv(cfg, Next(cfg, s, steps[0]), steps[1..]);
    }
  }

  /**
   * Level-triggered soundness over every run: a Workspace that is not queued, processed, dirty or woken, with no
   * handler mid-way and no conflict at its last run, has exactly the children and status that its current spec and
   * the current detector value ask for, although the detector is read twice per run.
   */
  lemma LevelTriggeredSoundness(cfg: Config, s: State, steps: seq<Step>, n: string)
    requires Initial(s) && IsRun(cfg, s, steps)
    requires var t := After(cfg, s, steps); Calm(t, n) && n !in t.queue.processing && n !in t.parked
    ensures var t := After(cfg, s, steps);
      Provisioned(t.store, t.workspaces[n], cfg.version, t.detector)
      && StatusAgrees(t.workspaces[n].status, t.workspaces[n], t.detector)
  {
    InitialIsSound(cfg, s);
    RunKeepsInv(cfg, s, steps);
    var t := After(cfg, s, steps);
    assert Agrees(cfg, t, n);
    var w := t.workspaces[n];
    OpsInOrder(w, cfg.version, t.detector);
    forall i | 0 <= i < 9 ensures Settled(t.store, Ops(w, cfg.version, t.detector)[i]) {
      assert Settled(t.store, OpAt(cfg, w, t.detector, i));
    }
    SettledIffProvisioned(t.store, w, cfg.version, t.detector);
  }

  lemma {:induction false} RunAppend(cfg: Config, s: State, a: seq<Step>, b: seq<Step>)
    requires IsRun(cfg, s, a) && IsRun(cfg, After(cfg, s, a), b)
    ensures IsRun(cfg, s, a + b) && After(cfg, s, a + b) == After(cfg, After(cfg, s, a), b)
    decreases |a|
  {
    if a == [] {
      assert a + b == b;
    } else {
      assert (a + b)[0] == a[0] && (a + b)[1..] == a[1..] + b;
      RunAppend(cfg, Next(cfg, s, a[0]), a[1..], b);
    }
  }

  function Around(s: State, faults: seq<Fault>): World {
    World(s.store, faults, s.workspaces, map[], map[])
  }

  /** Left alone, the worker's operation steps are the sequential run of the remaining operations. */
  lemma {:induction false} UndisturbedOperations(cfg: Config, s: State, faults: seq<Fault>) returns (steps: seq<Step>)
    requires s.worker.Running? && s.worker.pc <= 9
    ensures IsRun(cfg, s, steps) && AllInternal(steps)
    ensures |Ops(s.worker.w, cfg.version, s.worker.flag)| == 9
    ensures var r := RunOps(Around(s, faults), Ops(s.worker.w, cfg.version, s.worker.flag)[s.worker.pc..]);
      var t := After(cfg, s, steps);
      t == s.(store := r.world.store, pending := t.pending,
              worker := if r.err.Some? then Failing(s.worker.w, r.err.value) else Running(s.worker.w, s.worker.flag, 9))
    decreases 9 - s.worker.pc
  {
    var Running(w, flag, pc) := s.worker;
    OpsInOrder(w, cfg.version, flag);
    var ops := Ops(w, cfg.version, flag);
    if pc == 9 {
      return [];
    }
    var t := Next(cfg, s, Operate(faults));
    var called := CallOp(s.store, faults, ops[pc]);
    assert ops[pc..][0] == ops[pc] && ops[pc..][1..] == ops[pc + 1..];
    assert Perform(Around(s, faults), ops[pc]).world == Around(t, called.faults);
    if called.err.Some? {
      steps := [Operate(faults)];
    } else {
      var rest := UndisturbedOperations(cfg, t, called.faults);
      steps := [Operate(faults)] + rest;
    }
  }

  lemma TurnReports(cfg: Config, s: State, w: Workspace, flag: bool, synced: Ran, now: nat) returns (last: seq<Step>)
    requires s.store == synced.world.store && s.workspaces == synced.world.workspaces
    requires s.worker == if synced.err.Some? then Failing(w, synced.err.value) else Running(w, flag, 9)
    ensures IsRun(cfg, s, last) && AllInternal(last)
    ensures var r := if synced.err.Some? then HandleReconcileError(synced.world, w, synced.err.value, now)
                     else UpdateStatus(synced.world, w, s.detector, now);
      var t := After(cfg, s, last);
      t.worker == Idle && t.store == r.world.store && t.workspaces == r.world.workspaces
      && (r.err.Some? ==> w.name in t.pending)
  {
    var fault := Head(synced.world.faults);
    if synced.err.Some? {
      FailingTurnEnds(cfg, s, synced, now);
      OneStep(cfg, s, RecordFailure(fault, now));
      return [RecordFailure(fault, now)];
    }
    var computed := Next(cfg, s, ComputeStatus(now));
    PublishingTurnEnds(cfg, computed, synced);
    OneStep(cfg, computed, PublishStatus(fault));
    last := [ComputeStatus(now)] + [PublishStatus(fault)];
    assert last[1..] == [PublishStatus(fault)];
  }

  /** From the first operation to the end of the turn. */
  lemma TurnAfterReads(cfg: Config, s: State, faults: seq<Fault>, now: nat) returns (steps: seq<Step>)
    requires s.worker.Running? && s.worker.pc == 0
    ensures IsRun(cfg, s, steps) && AllInternal(steps)
    ensures var r :=
        SyncThenReport(Around(s, faults), s.worker.w, Ops(s.worker.w, cfg.version, s.worker.flag), s.detector, now);
      var t := After(cfg, s, steps);
      t.worker == Idle && t.store == r.world.store && t.workspaces == r.world.workspaces
      && (r.err.Some? ==> s.worker.w.name in t.pending)
  {
    var w := s.worker.w;
    var operations := UndisturbedOperations(cfg, s, faults);
    var ops := Ops(w, cfg.version, s.worker.flag);
    assert ops[0..] == ops;
    var synced := RunOps(Around(s, faults), ops);
    var done := After(cfg, s, operations);
    FaultsOfRun(Around(s, faults), ops);
    var last := TurnReports(cfg, done, w, s.worker.flag, synced, now);
    RunAppend(cfg, s, operations, last);
    steps := operations + last;
  }

  /** Left alone, one turn of the worker is exactly one sequential Reconcile under the same faults. */
  lemma WorkerTurnIsReconcile(cfg: Config, s: State, faults: seq<Fault>, now: nat) returns (steps: seq<Step>)
    requires s.worker.Claimed? && StoredWell(s)
    ensures IsRun(cfg, s, steps) && AllInternal(steps) && After(cfg, s, steps).worker == Idle
    ensures var r := ReconcileWorkspace(Around(s, faults), s.worker.name, cfg.version, s.detector, s.detector, now);
      After(cfg, s, steps).store == r.world.store && After(cfg, s, steps).workspaces == r.world.workspaces
      && (r.err.Some? ==> s.worker.name in After(cfg, s, steps).pending)
  {
    var fetch := Fetch(Head(faults));
    if Head(faults) != Healthy || s.worker.name !in s.workspaces {
      OneStep(cfg, s, fetch);
      return [fetch];
    }
    var fetched := Next(cfg, s, fetch);
    var running := Next(cfg, fetched, ReadDetector);
    var rest := TurnAfterReads(cfg, running, Rest(faults), now);
    steps := [fetch] + ([ReadDetector] + rest);
    assert steps[1..] == [ReadDetector] + rest && ([ReadDetector] + rest)[1..] == rest;
  }

  lemma OneStep(cfg: Config, s: State, step: Step)
    requires Enabled(cfg, s, step)
    ensures IsRun(cfg, s, [step]) && After(cfg, s, [step]) == Next(cfg, s, step)
  {
    assert [step][1..] == [];
  }

  lemma {:induction false} FaultsOfRun(world: World, ops: seq<Op>)
    ensures RunOps(world, ops).world.workspaces == world.workspaces
    decreases |ops|
  {
    if ops == [] {
    } else if Perform(world, ops[0]).err.None? {
      FaultsOfRun(Perform(world, ops[0]).world, ops[1..]);
    }
  }

  lemma PatchUsesNextFault(s: State, world: World, w: Workspace, desired: WorkspaceStatus)
    requires s.workspaces == world.workspaces
    ensures var here, there := Patch(s, Head(world.faults), w, desired),
        PatchWorkspaceStatus(world, w.name, w.status, desired);
      here.world.workspaces == there.world.workspaces && here.err == there.err && there.world.store == world.store
  {
    assert Head([Head(world.faults)]) == Head(world.faults);
  }

  /** The last steps of a turn report as the sequential reconciler does. */
  lemma FailingTurnEnds(cfg: Config, s: State, synced: Ran, now: nat)
    requires s.worker.Failing? && synced.err == Some(s.worker.error)
    requires s.store == synced.world.store && s.workspaces == synced.world.workspaces
    ensures var r := HandleReconcileError(synced.world, s.worker.w, s.worker.error, now);
      var t := Next(cfg, s, RecordFailure(Head(synced.world.faults), now));
      t.worker == Idle && t.store == r.world.store && t.workspaces == r.world.workspaces
      && (r.err.Some? ==> s.worker.w.name in t.pending)
  {
    var Failing(w, e) := s.worker;
    PatchUsesNextFault(s, synced.world, w, FailedStatus(w, e, now));
  }

  lemma PublishingTurnEnds(cfg: Config, s: State, synced: Ran)
    requires s.worker.Publishing?
    requires s.store == synced.world.store && s.workspaces == synced.world.workspaces
    ensures var Publishing(w, next) := s.worker;
      var r := if next == w.status then Ran(synced.world, None)
          else PatchWorkspaceStatus(synced.world, w.name, w.status, next);
      var t := Next(cfg, s, PublishStatus(Head(synced.world.faults)));
      t.worker == Idle && t.store == r.world.store && t.workspaces == r.world.workspaces
      && (r.err.Some? ==> w.name in t.pending)
  {
    PatchUsesNextFault(s, synced.world, s.worker.w, s.worker.status);
  }

  /** The namespace label alone tells the two detector values apart. */
  lemma ProvisionedForOneValue(c: Store, w: Workspace, version: string, f: bool, g: bool)
    requires Provisioned(c, w, version, f)
    ensures Provisioned(c, w, version, g) <==> f == g
  {
  }

  /**
   * A failing Workspace list loses the wake-up of a CRD change: an idle Workspace stays unscheduled, and it is
   * provisioned exactly when the refresh had not changed the detector.
   */
  lemma FailedListLosesWakeup(cfg: Config, s: State, n: string, was: bool)
    requires s.refreshed && !s.crdEvent && n in s.workspaces && !Busy(s, n)
    requires Provisioned(s.store, s.workspaces[n], cfg.version, was)
    ensures var t := Next(cfg, s, ListFails);
      Calm(t, n) && t.queue == s.queue && t.parked == s.parked
      && (Provisioned(t.store, t.workspaces[n], cfg.version, t.detector) <==> was == s.detector)
  {
    ProvisionedForOneValue(s.store, s.workspaces[n], cfg.version, was, s.detector);
  }

  /** Deleting an object that a Workspace keeps settled wakes it exactly when that kind is watched. */
  lemma DriftIsSeenIffWatched(cfg: Config, s: State, n: string, i: nat)
    requires n in s.workspaces && i < 9 && s.workspaces[n].name == n
    requires OpAt(cfg, s.workspaces[n], s.detector, i).Ensure?
    requires Settled(s.store, OpAt(cfg, s.workspaces[n], s.detector, i))
    ensures var key := OpAt(cfg, s.workspaces[n], s.detector, i).key;
      !Settled(Deleted(s.store, key), OpAt(cfg, s.workspaces[n], s.detector, i))
      && (n in Wakes(cfg, s.store, Deleted(s.store, key), key) <==> (IsIstio(key.kind) ==> cfg.istioWatched))
  {
    OpShape(s.workspaces[n], cfg.version, s.detector, i);
    DeletionIsSeen(cfg, s.store, OpAt(cfg, s.workspaces[n], s.detector, i), n);
  }

  lemma DeletionIsSeen(cfg: Config, c: Store, op: Op, n: string)
    requires op.Ensure? && Settled(c, op) && !IsFlux(op.key.kind)
    requires op.mutation.owner.kind == WorkspaceOwner && op.mutation.owner.name == n
    ensures !Settled(Deleted(c, op.key), op)
    ensures n in Wakes(cfg, c, Deleted(c, op.key), op.key) <==> (IsIstio(op.key.kind) ==> cfg.istioWatched)
  {
    SettledController(c, op);
  }

  /** Removing the namespace that caused a conflict reschedules the Workspace exactly when that namespace names it. */
  lemma ConflictHealsIffNamed(cfg: Config, s: State, n: string)
    requires n in s.workspaces && Calm(s, n) && n in s.parked && s.workspaces[n].name == n
        && s.workspaces[n].spec.namespace != ""
    requires NamespaceKey(s.workspaces[n].spec.namespace) in s.store.objects
    ensures var key := NamespaceKey(s.workspaces[n].spec.namespace);
      Enabled(cfg, s, Tamper(key, None)) &&
      (Calm(Next(cfg, s, Tamper(key, None)), n) <==> n !in WorkspaceOwnerOf(ObjectAt(s.store, key)))
  {
  }
}
