/** Where the Workspace controller's guarantees end: lost wake-ups, parked conflicts, unwatched creations. */
module WorkspaceLimits {
  import opened Prelude
  import opened Metadata
  import opened Conditions
  import opened Objects
  import opened Cluster
  import opened Api
  import opened Server
  import opened OpRuns
  import WorkQueue
  import opened WorkspaceNamespace
  import opened WorkspaceController
  import opened WorkspaceProtocol
  import opened WorkspaceConvergence
  import opened WorkspaceClosedLoop
  import WorkspaceRuns

  /** Runs in which the Workspace list of the handler may fail. */
  predicate Possible(cfg: Config, s: State, step: Step) {
    Enabled(cfg, s, step) || (step.ListFails? && s.refreshed)
  }

  predicate IsLossyRun(cfg: Config, s: State, steps: seq<Step>)
    decreases |steps|
  {
    steps == [] || (Possible(cfg, s, steps[0]) && IsLossyRun(cfg, Next(cfg, s, steps[0]), steps[1..]))
  }

  function AfterLossy(cfg: Config, s: State, steps: seq<Step>): State
    requires IsLossyRun(cfg, s, steps)
    decreases |steps|
  {
    if steps == [] then s else AfterLossy(cfg, Next(cfg, s, steps[0]), steps[1..])
  }

  lemma {:induction false} RunThenLossy(cfg: Config, s: State, steps: seq<Step>, more: seq<Step>)
    requires IsRun(cfg, s, steps) && IsLossyRun(cfg, After(cfg, s, steps), more)
    ensures IsLossyRun(cfg, s, steps + more)
    ensures AfterLossy(cfg, s, steps + more) == AfterLossy(cfg, After(cfg, s, steps), more)
    decreases |steps|
  {
    if steps == [] {
      assert steps + more == more;
    } else {
      assert (steps + more)[0] == steps[0] && (steps + more)[1..] == steps[1..] + more;
      RunThenLossy(cfg, Next(cfg, s, steps[0]), steps[1..], more);
    }
  }

  predicate InHome(key: Key, w: Workspace) {
    key == NamespaceKey(w.spec.namespace) || key.namespace == w.spec.namespace
  }

  /** Objects that name a Workspace as their controller lie in its namespace. */
  predicate Homes(s: State) {
    forall k, n :: k in s.store.objects && n in s.workspaces && n in WorkspaceOwnerOf(ObjectAt(s.store, k)) ==>
      InHome(k, s.workspaces[n])
  }

  /** The worker's copy is of a stored Workspace, perhaps of an older version of it. */
  predicate CopyPlaced(s: State) {
    match s.worker
    case Idle => true
    case Claimed(_) => true
    case Fetched(w) => Kin(s, w)
    case Running(w, _, _) => Kin(s, w)
    case Publishing(w, _) => Kin(s, w)
    case Failing(w, _) => Kin(s, w)
  }

  predicate Named(s: State) {
    forall n :: n in s.workspaces ==> s.workspaces[n].name == n && s.workspaces[n].spec.namespace != ""
  }

  /** Every Workspace keeps to its own namespace, and the worker to a stored one. */
  predicate Placed(s: State) {
    Named(s) && DistinctNamespaces(s) && Homes(s) && CopyPlaced(s) && QueueValid(s)
  }

  /** Still provisioned for the other detector value, and nothing scheduled that could notice. */
  predicate Lost(cfg: Config, s: State, n: string, was: bool) {
    n in s.workspaces && Calm(s, n) && n !in s.queue.processing && was != s.detector
    && Provisioned(s.store, s.workspaces[n], cfg.version, was)
  }

  lemma HomesApart(v: Workspace, w: Workspace, key: Key)
    requires v.spec.namespace != w.spec.namespace && v.spec.namespace != "" && w.spec.namespace != ""
    requires InHome(key, w)
    ensures !InHome(key, v)
  {
  }

  lemma OpInHome(cfg: Config, w: Workspace, flag: bool, i: nat)
    requires i < 9
    ensures InHome(OpAt(cfg, w, flag, i).key, w)
    ensures OpAt(cfg, w, flag, i).Ensure? ==> OpAt(cfg, w, flag, i).mutation.owner == OwnerOfWorkspace(w)
  {
    OpsOwnDistinctKeys(w, cfg.version, flag);
  }

  /** A Workspace stays provisioned while nothing in its home changes. */
  lemma ProvisionedFrame(cfg: Config, c: Store, d: Store, w: Workspace, flag: bool)
    requires Provisioned(c, w, cfg.version, flag) && c.istioServed == d.istioServed
    requires forall key :: InHome(key, w) ==> ObjectAt(d, key) == ObjectAt(c, key)
    ensures Provisioned(d, w, cfg.version, flag)
  {
    SettledIffProvisioned(c, w, cfg.version, flag);
    OpsInOrder(w, cfg.version, flag);
    var ops := Ops(w, cfg.version, flag);
    forall i | 0 <= i < |ops| ensures Settled(d, ops[i]) {
      OpInHome(cfg, w, flag, i);
      assert ops[i] == OpAt(cfg, w, flag, i);
      SettledFrame(c, d, ops[i]);
    }
    SettledIffProvisioned(d, w, cfg.version, flag);
  }

  /** What one call of w's run does: it changes w's home alone and leaves w in control of what it wrote. */
  lemma CallStaysHome(cfg: Config, c: Store, faults: seq<Fault>, w: Workspace, flag: bool, pc: nat)
    requires pc < 9
    ensures var op := OpAt(cfg, w, flag, pc);
      var d := CallOp(c, faults, op).store;
      FramedBut(c, d, op.key) && InHome(op.key, w)
      && (ObjectAt(d, op.key) == ObjectAt(c, op.key) || WorkspaceOwnerOf(ObjectAt(d, op.key)) <= {w.name})
  {
    var op := OpAt(cfg, w, flag, pc);
    var d := CallOp(c, faults, op).store;
    OpInHome(cfg, w, flag, pc);
    CallWritesOrNot(c, faults, op);
    if d != c && op.Ensure? {
      SettledController(d, op);
    }
  }

  lemma OperateKeepsHomes(cfg: Config, s: State, faults: seq<Fault>)
    requires Placed(s) && Enabled(cfg, s, Operate(faults))
    ensures Placed(Next(cfg, s, Operate(faults)))
  {
    var t := Next(cfg, s, Operate(faults));
    var Running(w, flag, pc) := s.worker;
    CallStaysHome(cfg, s.store, faults, w, flag, pc);
    forall k, n | k in t.store.objects && n in t.workspaces && n in WorkspaceOwnerOf(ObjectAt(t.store, k))
      ensures InHome(k, t.workspaces[n])
    {
      if ObjectAt(t.store, k) == ObjectAt(s.store, k) {
        assert k in s.store.objects;
      }
    }
  }

  lemma FinishKeepsPlaced(s: State, workspaces: map<string, Workspace>, name: string, retry: bool, conflict: bool)
    requires Placed(s) && s.queue.processing == {name} && workspaces.Keys == s.workspaces.Keys
    requires forall n :: n in workspaces ==> workspaces[n] == s.workspaces[n].(status := workspaces[n].status)
    ensures Placed(Finish(s.(workspaces := workspaces), name, retry, conflict))
  {
  }

  lemma PublishKeepsPlaced(cfg: Config, s: State, fault: Fault)
    requires Placed(s) && s.worker.Publishing?
    ensures Placed(Next(cfg, s, PublishStatus(fault)))
  {
    var retry := StrayPublishEnds(cfg, s, fault);
    FinishKeepsPlaced(s, Reported(s, fault), s.worker.w.name, retry, false);
  }

  lemma RecordKeepsPlaced(cfg: Config, s: State, fault: Fault, now: nat)
    requires Placed(s) && s.worker.Failing?
    ensures Placed(Next(cfg, s, RecordFailure(fault, now)))
  {
    var Failing(w, e) := s.worker;
    AnyPatchKeepsSpecs(s, fault, w, FailedStatus(w, e, now));
    FinishKeepsPlaced(s, Patch(s, fault, w, FailedStatus(w, e, now)).world.workspaces, w.name,
                      !e.NamespaceConflict?, e.NamespaceConflict?);
  }

  lemma MovedIsPlaced(s: State, t: State)
    requires Placed(s) && Moved(s, t) && CopyPlaced(t) && QueueValid(t)
    ensures Placed(t)
  {
  }

  lemma ClaimKeepsPlaced(cfg: Config, s: State, step: Step)
    requires Placed(s) && Enabled(cfg, s, step) && (step.Deliver? || step.Take?)
    ensures Placed(Next(cfg, s, step))
  {
    MovedIsPlaced(s, Next(cfg, s, step));
  }

  lemma FetchKeepsPlaced(cfg: Config, s: State, fault: Fault)
    requires Placed(s) && s.worker.Claimed?
    ensures Placed(Next(cfg, s, Fetch(fault)))
  {
    var name := s.worker.name;
    var t := Next(cfg, s, Fetch(fault));
    if fault == Healthy && name in s.workspaces {
      assert t == s.(worker := Fetched(s.workspaces[name]));
    } else {
      assert t == Finish(s, name, fault != Healthy, false);
    }
    MovedIsPlaced(s, t);
  }

  lemma ReadKeepsPlaced(cfg: Config, s: State, step: Step)
    requires Placed(s) && Enabled(cfg, s, step) && (step.ReadDetector? || step.ComputeStatus?)
    ensures Placed(Next(cfg, s, step))
  {
    var t := Next(cfg, s, step);
    assert t == s.(worker := t.worker);
    MovedIsPlaced(s, t);
  }

  lemma OwnStepKeepsPlaced(cfg: Config, s: State, step: Step)
    requires Placed(s) && Enabled(cfg, s, step) && Internal(step)
    ensures Placed(Next(cfg, s, step))
  {
    if step.Operate? {
      OperateKeepsHomes(cfg, s, step.faults);
    } else if step.PublishStatus? {
      PublishKeepsPlaced(cfg, s, step.fault);
    } else if step.RecordFailure? {
      RecordKeepsPlaced(cfg, s, step.fault, step.now);
    } else if step.Deliver? || step.Take? {
      ClaimKeepsPlaced(cfg, s, step);
    } else if step.Fetch? {
      FetchKeepsPlaced(cfg, s, step.fault);
    } else {
      ReadKeepsPlaced(cfg, s, step);
    }
  }

  lemma OperateKeepsLost(cfg: Config, s: State, faults: seq<Fault>, n: string, was: bool)
    requires Placed(s) && Lost(cfg, s, n, was) && Enabled(cfg, s, Operate(faults))
    ensures Lost(cfg, Next(cfg, s, Operate(faults)), n, was)
  {
    var t := Next(cfg, s, Operate(faults));
    var Running(w, flag, pc) := s.worker;
    var v := s.workspaces[n];
    var key := OpAt(cfg, w, flag, pc).key;
    CallStaysHome(cfg, s.store, faults, w, flag, pc);
    HomesApart(v, w, key);
    assert n !in WorkspaceOwnerOf(ObjectAt(s.store, key));
    assert n !in Wakes(cfg, s.store, t.store, key);
    forall k | InHome(k, v) ensures ObjectAt(t.store, k) == ObjectAt(s.store, k) {
      assert k != key;
    }
    ProvisionedFrame(cfg, s.store, t.store, v, was);
  }

  /** A step that neither writes nor schedules leaves a lost Workspace lost. */
  lemma QuietKeepsLost(cfg: Config, s: State, t: State, n: string, was: bool)
    requires Lost(cfg, s, n, was) && t.store == s.store && t.detector == s.detector && n in t.workspaces
    requires t.workspaces[n] == s.workspaces[n] && Calm(t, n) && n !in t.queue.processing
    ensures Lost(cfg, t, n, was)
  {
  }

  lemma PatchSparesOthers(s: State, fault: Fault, w: Workspace, desired: WorkspaceStatus, n: string)
    requires n in s.workspaces && n != w.name
    ensures var after := Patch(s, fault, w, desired).world.workspaces; n in after && after[n] == s.workspaces[n]
  {
  }

  lemma ReportKeepsLost(cfg: Config, s: State, step: Step, n: string, was: bool)
    requires Placed(s) && Lost(cfg, s, n, was) && Enabled(cfg, s, step) && (step.PublishStatus? || step.RecordFailure?)
    ensures Lost(cfg, Next(cfg, s, step), n, was)
  {
    var w := s.worker.w;
    if step.PublishStatus? {
      PatchSparesOthers(s, step.fault, w, s.worker.status, n);
    } else {
      PatchSparesOthers(s, step.fault, w, FailedStatus(w, s.worker.error, step.now), n);
    }
    QuietKeepsLost(cfg, s, Next(cfg, s, step), n, was);
  }

  lemma OwnStepKeepsLost(cfg: Config, s: State, step: Step, n: string, was: bool)
    requires Placed(s) && Lost(cfg, s, n, was) && Enabled(cfg, s, step) && Internal(step)
    ensures Lost(cfg, Next(cfg, s, step), n, was)
  {
    if step.Operate? {
      OperateKeepsLost(cfg, s, step.faults, n, was);
    } else if step.PublishStatus? || step.RecordFailure? {
      ReportKeepsLost(cfg, s, step, n, was);
    } else {
      QuietKeepsLost(cfg, s, Next(cfg, s, step), n, was);
    }
  }

  /**
   * A lost wake-up is lost for good as far as the controller goes: no run of deliveries, queue and worker steps, with
   * whatever faults, schedules the Workspace again or provisions it for the detector's value.
   */
  lemma {:induction false} LostStaysLost(cfg: Config, s: State, steps: seq<Step>, n: string, was: bool)
    requires Placed(s) && Lost(cfg, s, n, was) && IsRun(cfg, s, steps) && AllInternal(steps)
    ensures var t := After(cfg, s, steps);
      Placed(t) && Lost(cfg, t, n, was) && !Provisioned(t.store, t.workspaces[n], cfg.version, t.detector)
    decreases |steps|
  {
    if steps == [] {
      ProvisionedForOneValue(s.store, s.workspaces[n], cfg.version, was, s.detector);
    } else {
      OwnStepKeepsPlaced(cfg, s, steps[0]);
      OwnStepKeepsLost(cfg, s, steps[0], n, was);
      LostStaysLost(cfg, Next(cfg, s, steps[0]), steps[1..], n, was);
    }
  }

  lemma {:induction false} OwnRunKeepsPlaced(cfg: Config, s: State, steps: seq<Step>)
    requires Placed(s) && IsRun(cfg, s, steps) && AllInternal(steps)
    ensures Placed(After(cfg, s, steps))
    decreases |steps|
  {
    if steps == [] {
    } else {
      OwnStepKeepsPlaced(cfg, s, steps[0]);
      OwnRunKeepsPlaced(cfg, Next(cfg, s, steps[0]), steps[1..]);
    }
  }

  lemma RestHasProvisioned(cfg: Config, s: State, names: seq<string>) returns (steps: seq<Step>)
    requires Inv(cfg, s) && Unblocked(cfg, s) && Lists(s, names) && Placed(s) && !HandlerActive(s)
    ensures IsRun(cfg, s, steps) && AllInternal(steps)
    ensures var t := After(cfg, s, steps);
      Placed(t) && SameDemand(s, t) && AtRest(cfg, t) && t.pending == {} && t.queue == WorkQueue.EMPTY
          && t.worker == Idle
      && forall n :: n in t.workspaces ==> Provisioned(t.store, t.workspaces[n], cfg.version, t.detector)
  {
    steps := ComesToRest(cfg, s, names);
    ClosedLoopConverges(cfg, s, steps, names);
    OwnRunKeepsPlaced(cfg, s, steps);
  }

  const ISTIO_ARRIVES: seq<Step> := [ChangeCrds(true), Refresh(true, true), ListFails]

  function WithIstio(s: State): State {
    s.(store := s.store.(istioServed := true), detector := true)
  }

  lemma ArrivalEnds(cfg: Config, s: State)
    requires !HandlerActive(s)
    ensures IsLossyRun(cfg, s, ISTIO_ARRIVES) && AfterLossy(cfg, s, ISTIO_ARRIVES) == WithIstio(s)
  {
    var a := Next(cfg, s, ChangeCrds(true));
    assert a == s.(store := s.store.(istioServed := true), crdEvent := true) by {
      assert a.store.objects == s.store.objects;
    }
    var b := Next(cfg, a, Refresh(true, true));
    assert b == WithIstio(s).(refreshed := true);
    assert Next(cfg, b, ListFails) == WithIstio(s);
    assert ISTIO_ARRIVES[1..] == [Refresh(true, true), ListFails] && ISTIO_ARRIVES[1..][1..] == [ListFails];
    assert [ListFails][1..] == [];
  }

  /** Istio is installed, the handler refreshes the detector, and its list fails. */
  lemma ArrivalIsLost(cfg: Config, s: State)
    requires Placed(s) && !HandlerActive(s) && !s.detector && s.worker == Idle
    requires s.pending == {} && s.queue == WorkQueue.EMPTY
    requires forall n :: n in s.workspaces ==> Provisioned(s.store, s.workspaces[n], cfg.version, false)
    ensures Placed(WithIstio(s)) && forall n :: n in s.workspaces ==> Stranded(cfg, WithIstio(s), n, false)
  {
    forall n | n in s.workspaces ensures Stranded(cfg, WithIstio(s), n, false) {
      ServedMattersNot(s.store, WithIstio(s).store, s.workspaces[n], cfg.version);
    }
  }

  /** Without the detector nothing that a Workspace asks for depends on Istio being served. */
  lemma ServedMattersNot(c: Store, d: Store, w: Workspace, version: string)
    requires Provisioned(c, w, version, false) && d.objects == c.objects
    ensures Provisioned(d, w, version, false)
  {
    forall role: Role ensures BindingIff(d, w, version, role) {
      assert BindingIff(c, w, version, role);
    }
  }

  /**
   * From any unblocked state without Istio, mid-turn or not, there is a run, failing list included, that loses every
   * Workspace's wake-up.
   */
  lemma WakeupsCanBeLost(cfg: Config, s: State, names: seq<string>) returns (steps: seq<Step>)
    requires Inv(cfg, s) && Unblocked(cfg, s) && Lists(s, names) && Placed(s) && !HandlerActive(s) && !s.detector
    ensures IsLossyRun(cfg, s, steps)
    ensures var t := AfterLossy(cfg, s, steps);
      Placed(t) && t.workspaces.Keys == s.workspaces.Keys
      && forall n :: n in t.workspaces ==> Stranded(cfg, t, n, false)
  {
    var quiet := RestHasProvisioned(cfg, s, names);
    var t := After(cfg, s, quiet);
    ArrivalEnds(cfg, t);
    ArrivalIsLost(cfg, t);
    RunThenLossy(cfg, s, quiet, ISTIO_ARRIVES);
    steps := quiet + ISTIO_ARRIVES;
  }

  lemma OnlyIstioNeedsServing(w: Workspace, version: string, flag: bool, i: nat)
    requires i < 9
    ensures |Ops(w, version, flag)| == 9
    ensures var op := Ops(w, version, flag)[i];
      op.Ensure? && IsIstio(op.key.kind) ==> w.spec.networkIsolation.enabled && flag
  {
    OpsInOrder(w, version, flag);
    OpShape(w, version, flag, i);
  }

  /** An empty home obstructs nothing, as long as Istio is served where it is asked for. */
  lemma EmptyHomeIsFree(cfg: Config, c: Store, w: Workspace, flag: bool)
    requires forall key :: InHome(key, w) ==> key !in c.objects
    requires w.spec.networkIsolation.enabled && flag ==> c.istioServed
    ensures WorkspaceRuns.Unobstructed(c, Ops(w, cfg.version, flag))
  {
    var ops := Ops(w, cfg.version, flag);
    OpsInOrder(w, cfg.version, flag);
    forall i | 0 <= i < |ops| && ops[i].Ensure?
      ensures Serves(c, ops[i].key.kind) && Mutate(ops[i].mutation, ops[i].key, ObjectAt(c, ops[i].key)).Ok?
    {
      OnlyIstioNeedsServing(w, cfg.version, flag, i);
      OpInHome(cfg, w, flag, i);
      assert ops[i] == OpAt(cfg, w, flag, i);
      FreshIsWritable(ops[i].mutation, ops[i].key);
    }
  }

  /** An operator that starts on an empty cluster without Istio, with one Workspace created before. */
  function ColdStart(name: string, spec: WorkspaceSpec): State {
    State(map[name := Workspace(name, 0, 1, map[], spec, NO_STATUS)], Store(map[], false), false, false, false,
          WorkQueue.EMPTY, {name}, Idle, {}, 1)
  }

  lemma ColdStartIsSteady(cfg: Config, name: string, spec: WorkspaceSpec)
    requires spec.namespace != ""
    ensures var s := ColdStart(name, spec);
      Initial(s) && Inv(cfg, s) && Steady(cfg, s) && Lists(s, [name]) && Placed(s) && !HandlerActive(s)
  {
    var s := ColdStart(name, spec);
    InitialIsSound(cfg, s);
    EmptyHomeIsFree(cfg, s.store, s.workspaces[name], false);
    assert (set i | 0 <= i < |[name]| :: [name][i]) == {name} by {
      assert [name][0] == name;
    }
  }

  /** The loss happens: for every Workspace spec, from an initial state, by a run that ends with its wake-up lost. */
  lemma LossHappens(cfg: Config, name: string, spec: WorkspaceSpec) returns (steps: seq<Step>)
    requires spec.namespace != ""
    ensures Initial(ColdStart(name, spec)) && IsLossyRun(cfg, ColdStart(name, spec), steps)
    ensures var t := AfterLossy(cfg, ColdStart(name, spec), steps);
      Placed(t) && Stranded(cfg, t, name, false) && !Provisioned(t.store, t.workspaces[name], cfg.version, t.detector)
  {
    ColdStartIsSteady(cfg, name, spec);
    SteadyIsUnblocked(cfg, ColdStart(name, spec));
    steps := WakeupsCanBeLost(cfg, ColdStart(name, spec), [name]);
    var t := AfterLossy(cfg, ColdStart(name, spec), steps);
    assert name in t.workspaces;
    ProvisionedForOneValue(t.store, t.workspaces[name], cfg.version, false, t.detector);
  }

  /** Some object naming n as its controller is written or removed, or n itself or all Workspaces are asked for. */
  predicate Rouses(cfg: Config, s: State, step: Step, n: string)
    requires Enabled(cfg, s, step)
  {
    match step
    case CreateWorkspace(m, _) => m == n
    case EditWorkspace(m, _) => m == n
    case DeleteWorkspace(m) => m == n
    case Resync(m) => m == n
    case ListAndEnqueue => true
    case Tamper(key, o) => n in Wakes(cfg, s.store, Tampered(s.store, key, o), key)
    case Collect(key) => n in Wakes(cfg, s.store, Deleted(s.store, key), key)
    case Operate(faults) =>
      var op := OpAt(cfg, s.worker.w, s.worker.flag, s.worker.pc);
      n in Wakes(cfg, s.store, CallOp(s.store, faults, op).store, op.key)
    case _ => false
  }

  predicate NeverRoused(cfg: Config, s: State, steps: seq<Step>, n: string)
    requires IsRun(cfg, s, steps)
    decreases |steps|
  {
    steps == [] || (!Rouses(cfg, s, steps[0], n) && NeverRoused(cfg, Next(cfg, s, steps[0]), steps[1..], n))
  }

  function HomeKey(s: State, n: string): Key
    requires n in s.workspaces
  {
    NamespaceKey(s.workspaces[n].spec.namespace)
  }

  /** After a conflict: not scheduled, and not the controller of the namespace it asks for. */
  predicate Parked(s: State, n: string) {
    n in s.workspaces && n in s.parked && !Busy(s, n) && n !in s.queue.processing
    && n !in WorkspaceOwnerOf(ObjectAt(s.store, HomeKey(s, n)))
  }

  /** A namespace key changes only by a step at that key. */
  lemma NamespaceStays(c: Store, key: Key, o: Option<Object>, home: Key)
    requires ProperKey(key) && home.kind == NamespaceKind && home.namespace == "" && key != home
    ensures ObjectAt(Tampered(c, key, o), home) == ObjectAt(c, home)
    ensures ObjectAt(Deleted(c, key), home) == ObjectAt(c, home)
  {
  }

  /** Whoever newly controls a namespace is woken by that change. */
  lemma NewControllerWakes(cfg: Config, c: Store, d: Store, home: Key, n: string)
    requires home.kind == NamespaceKind && n !in Wakes(cfg, c, d, home) && n !in WorkspaceOwnerOf(ObjectAt(c, home))
    ensures n !in WorkspaceOwnerOf(ObjectAt(d, home))
  {
  }

  lemma StoreStepKeepsParked(cfg: Config, s: State, step: Step, n: string)
    requires Inv(cfg, s) && Parked(s, n) && Enabled(cfg, s, step) && !Rouses(cfg, s, step, n)
    requires step.Tamper? || step.Collect? || step.Operate?
    ensures Parked(Next(cfg, s, step), n)
  {
    var t := Next(cfg, s, step);
    var home := HomeKey(s, n);
    var key := if step.Operate? then OpAt(cfg, s.worker.w, s.worker.flag, s.worker.pc).key else step.key;
    if key == home {
      NewControllerWakes(cfg, s.store, t.store, home, n);
    } else if step.Operate? {
      CallWritesOrNot(s.store, step.faults, OpAt(cfg, s.worker.w, s.worker.flag, s.worker.pc));
    } else if step.Tamper? {
      NamespaceStays(s.store, key, step.o, home);
    } else {
      NamespaceStays(s.store, key, None, home);
    }
  }

  lemma ReportKeepsParked(cfg: Config, s: State, step: Step, n: string)
    requires QueueValid(s) && Parked(s, n) && Enabled(cfg, s, step) && (step.PublishStatus? || step.RecordFailure?)
    ensures Parked(Next(cfg, s, step), n)
  {
    if step.PublishStatus? {
      PatchSparesOthers(s, step.fault, s.worker.w, s.worker.status, n);
    } else {
      PatchSparesOthers(s, step.fault, s.worker.w, FailedStatus(s.worker.w, s.worker.error, step.now), n);
    }
  }

  lemma OtherStepKeepsParked(cfg: Config, s: State, step: Step, n: string)
    requires QueueValid(s) && Parked(s, n) && Enabled(cfg, s, step) && !Rouses(cfg, s, step, n)
    requires !step.Tamper? && !step.Collect? && !step.Operate? && !step.PublishStatus? && !step.RecordFailure?
    ensures Parked(Next(cfg, s, step), n)
  {
  }

  lemma {:induction false} ParkedStays(cfg: Config, s: State, steps: seq<Step>, n: string)
    requires Inv(cfg, s) && Parked(s, n) && IsRun(cfg, s, steps) && NeverRoused(cfg, s, steps, n)
    ensures Parked(After(cfg, s, steps), n)
    decreases |steps|
  {
    if steps == [] {
    } else {
      var step := steps[0];
      StepKeepsInv(cfg, s, step);
      if step.Tamper? || step.Collect? || step.Operate? {
        StoreStepKeepsParked(cfg, s, step, n);
      } else if step.PublishStatus? || step.RecordFailure? {
        ReportKeepsParked(cfg, s, step, n);
      } else {
        OtherStepKeepsParked(cfg, s, step, n);
      }
      ParkedStays(cfg, Next(cfg, s, step), steps[1..], n);
    }
  }

  lemma ProvisionedControls(c: Store, w: Workspace, version: string, flag: bool)
    requires Provisioned(c, w, version, flag)
    ensures WorkspaceOwnerOf(ObjectAt(c, NamespaceKey(w.spec.namespace))) == {w.name}
  {
    SettledIsFixedPoint(c.objects[NamespaceKey(w.spec.namespace)].owners, OwnerOfWorkspace(w));
  }

  /**
   * A conflict with a namespace that does not name the Workspace outlives that namespace: after its removal the
   * Workspace stays parked and unprovisioned through every run, of any steps, in which no step rouses it.
   */
  lemma UnnamedConflictPersists(cfg: Config, s: State, steps: seq<Step>, n: string, flag: bool)
    requires Inv(cfg, s) && n in s.workspaces && Calm(s, n) && n in s.parked && n !in s.queue.processing
    requires HomeKey(s, n) in s.store.objects && n !in WorkspaceOwnerOf(ObjectAt(s.store, HomeKey(s, n)))
    requires var t := Next(cfg, s, Tamper(HomeKey(s, n), None)); IsRun(cfg, t, steps) && NeverRoused(cfg, t, steps, n)
    ensures var u := After(cfg, Next(cfg, s, Tamper(HomeKey(s, n), None)), steps);
      n in u.workspaces && n in u.parked && !Busy(u, n) && !Provisioned(u.store, u.workspaces[n], cfg.version, flag)
  {
    var step := Tamper(HomeKey(s, n), None);
    assert Enabled(cfg, s, step);
    var t := Next(cfg, s, step);
    StepKeepsInv(cfg, s, step);
    ParkedStays(cfg, t, steps, n);
    ParkedIsUnprovisioned(cfg, t, steps, n, flag);
  }

  lemma ParkedIsUnprovisioned(cfg: Config, s: State, steps: seq<Step>, n: string, flag: bool)
    requires Inv(cfg, s) && IsRun(cfg, s, steps) && Parked(After(cfg, s, steps), n)
    ensures var u := After(cfg, s, steps); !Provisioned(u.store, u.workspaces[n], cfg.version, flag)
  {
    RunKeepsInv(cfg, s, steps);
    var u := After(cfg, s, steps);
    if Provisioned(u.store, u.workspaces[n], cfg.version, flag) {
      ProvisionedControls(u.store, u.workspaces[n], cfg.version, flag);
    }
  }

  /** One healthy reconcile of an unobstructed Workspace provisions it. */
  lemma HealthyTurnProvisions(world: World, n: string, version: string, flag: bool, now: nat)
    requires WorkspaceRuns.WellStored(world) && n in world.workspaces && world.faults == []
    requires WorkspaceRuns.Unobstructed(world.store, Ops(world.workspaces[n], version, flag))
    ensures var after := ReconcileWorkspace(world, n, version, flag, flag, now).world;
      n in after.workspaces && Provisioned(after.store, after.workspaces[n], version, flag)
      && StatusAgrees(after.workspaces[n].status, after.workspaces[n], flag)
  {
    var w := world.workspaces[n];
    WorkspaceRuns.UnobstructedSyncs(world.store, w, version, flag);
    WorkspaceRuns.HealthyReconcile(world, n, version, flag, flag, now);
    var next := NextStatus(w, flag, now);
    NextStatusAgrees(w, flag, now);
    AgreementIgnoresStatus(w, next, flag);
    var d := Sync(world.store, Ops(w, version, flag)).store;
    SettledIffProvisioned(d, w, version, flag);
    WorkspaceRuns.OpsIgnoreStatus(w, next, version, flag);
    SettledIffProvisioned(d, w.(status := next), version, flag);
  }

  /** Removing a namespace that names an idle controller's Workspace gets that Workspace delivered and taken. */
  lemma RemovalIsTaken(cfg: Config, s: State, n: string)
    requires QueueValid(s) && n in s.workspaces && Calm(s, n) && s.worker.Idle? && s.workspaces[n].spec.namespace != ""
    requires HomeKey(s, n) in s.store.objects && n in WorkspaceOwnerOf(ObjectAt(s.store, HomeKey(s, n)))
    ensures var step := Tamper(HomeKey(s, n), None);
      Enabled(cfg, s, step)
      && var t := Next(cfg, s, step);
      Enabled(cfg, t, Deliver(n))
      && var delivered := Next(cfg, t, Deliver(n));
      Enabled(cfg, delivered, Take(n))
      && var taken := Next(cfg, delivered, Take(n));
      taken ==
        s.(store := Deleted(s.store, HomeKey(s, n)), worker := Claimed(n), queue := taken.queue,
           pending := taken.pending)
  {
  }

  /** The turn of a worker that has claimed a Workspace nothing obstructs. */
  lemma ClaimedTurnProvisions(cfg: Config, s: State, n: string, now: nat) returns (steps: seq<Step>)
    requires StoredWell(s) && s.worker == Claimed(n) && n in s.workspaces
    requires WorkspaceRuns.Unobstructed(s.store, OpsOf(cfg, s, n))
    ensures IsRun(cfg, s, steps) && AllInternal(steps)
    ensures var u := After(cfg, s, steps);
      n in u.workspaces && Provisioned(u.store, u.workspaces[n], cfg.version, s.detector)
      && StatusAgrees(u.workspaces[n].status, u.workspaces[n], s.detector)
  {
    HealthyTurnProvisions(WorkspaceProtocol.Around(s, []), n, cfg.version, s.detector, now);
    steps := WorkerTurnIsReconcile(cfg, s, [], now);
  }

  /**
   * A conflict with a namespace that names the Workspace heals: removing it schedules the Workspace, and one
   * undisturbed turn provisions it.
   */
  lemma NamedConflictHeals(cfg: Config, s: State, n: string, now: nat) returns (steps: seq<Step>)
    requires StoredWell(s) && QueueValid(s) && n in s.workspaces && Calm(s, n) && n in s.parked && s.worker.Idle?
    requires HomeKey(s, n) in s.store.objects && n in WorkspaceOwnerOf(ObjectAt(s.store, HomeKey(s, n)))
    requires s.workspaces[n].spec.networkIsolation.enabled && s.detector ==> s.store.istioServed
    ensures Enabled(cfg, s, Tamper(HomeKey(s, n), None))
    ensures var t := Next(cfg, s, Tamper(HomeKey(s, n), None));
      IsRun(cfg, t, steps) && AllInternal(steps)
      && var u := After(cfg, t, steps);
      n in u.workspaces && Provisioned(u.store, u.workspaces[n], cfg.version, s.detector)
      && StatusAgrees(u.workspaces[n].status, u.workspaces[n], s.detector)
  {
    RemovalIsTaken(cfg, s, n);
    var t := Next(cfg, s, Tamper(HomeKey(s, n), None));
    var delivered := Next(cfg, t, Deliver(n));
    var taken := Next(cfg, delivered, Take(n));
    EmptyHomeIsFree(cfg, taken.store, s.workspaces[n], s.detector);
    var turn := ClaimedTurnProvisions(cfg, taken, n, now);
    ThenTurn(cfg, t, n, turn);
    steps := [Deliver(n)] + ([Take(n)] + turn);
  }

  lemma ThenTurn(cfg: Config, t: State, n: string, turn: seq<Step>)
    requires Enabled(cfg, t, Deliver(n)) && Enabled(cfg, Next(cfg, t, Deliver(n)), Take(n)) && AllInternal(turn)
    requires IsRun(cfg, Next(cfg, Next(cfg, t, Deliver(n)), Take(n)), turn)
    ensures var steps := [Deliver(n)] + ([Take(n)] + turn);
      IsRun(cfg, t, steps) && AllInternal(steps)
      && After(cfg, t, steps) == After(cfg, Next(cfg, Next(cfg, t, Deliver(n)), Take(n)), turn)
  {
    OneMore(cfg, Next(cfg, t, Deliver(n)), Take(n), turn);
    OneMore(cfg, t, Deliver(n), [Take(n)] + turn);
  }

  lemma OneMore(cfg: Config, s: State, step: Step, rest: seq<Step>)
    requires Enabled(cfg, s, step) && IsRun(cfg, Next(cfg, s, step), rest)
    ensures IsRun(cfg, s, [step] + rest) && After(cfg, s, [step] + rest) == After(cfg, Next(cfg, s, step), rest)
  {
    assert ([step] + rest)[1..] == rest;
  }

  /** Creating an object where the Workspace wants none is noticed exactly when the object names it and is watched. */
  lemma StrayIsSeenIffNamed(cfg: Config, s: State, n: string, i: nat, o: Object)
    requires n in s.workspaces && i < 9 && OpAt(cfg, s.workspaces[n], s.detector, i).Remove?
    requires Settled(s.store, OpAt(cfg, s.workspaces[n], s.detector, i))
    ensures var op := OpAt(cfg, s.workspaces[n], s.detector, i);
      var after := Tampered(s.store, op.key, Some(o));
      !Settled(after, op)
      && (n in Wakes(cfg, s.store, after, op.key) <==> Watched(cfg, op.key.kind) && n in WorkspaceOwnerOf(Some(o)))
  {
  }

  /** The worker's copy is placed where it can: past its first call it owns its namespace, so that is not n's. */
  predicate WorkerOutside(s: State, n: string)
    requires n in s.workspaces
  {
    WorkerNamed(s)
    && (s.worker.Running? && s.worker.pc > 0 ==> s.worker.w.spec.namespace != s.workspaces[n].spec.namespace)
  }

  /** A lost Workspace in any surroundings. */
  predicate Stranded(cfg: Config, s: State, n: string, was: bool) {
    Named(s) && QueueValid(s) && Lost(cfg, s, n, was) && WorkerOutside(s, n)
  }

  predicate Untroubled(cfg: Config, s: State, steps: seq<Step>, n: string)
    requires IsRun(cfg, s, steps)
  {
    NeverRoused(cfg, s, steps, n) && forall i :: 0 <= i < |steps| ==> !steps[i].ChangeCrds?
  }

  /** A provisioned Workspace has settled every one of its operations. */
  lemma ProvisionedIsSettled(cfg: Config, c: Store, w: Workspace, flag: bool)
    ensures Provisioned(c, w, cfg.version, flag) <==> SettledUpTo(cfg, c, w, flag, 9)
  {
    SettledIffProvisioned(c, w, cfg.version, flag);
    OpsInOrder(w, cfg.version, flag);
    forall i | 0 <= i < 9 ensures OpAt(cfg, w, flag, i) == Ops(w, cfg.version, flag)[i] {
    }
  }

  lemma ChangeKeepsStranded(cfg: Config, s: State, step: Step, n: string, was: bool)
    requires Stranded(cfg, s, n, was) && Enabled(cfg, s, step) && !Rouses(cfg, s, step, n)
    requires step.Tamper? || step.Collect?
    ensures Stranded(cfg, Next(cfg, s, step), n, was)
  {
    var t := Next(cfg, s, step);
    ProvisionedIsSettled(cfg, s.store, s.workspaces[n], was);
    ChangeKeepsPrefix(cfg, s, step, s.workspaces[n], was, 9);
    ProvisionedIsSettled(cfg, t.store, s.workspaces[n], was);
  }

  /** A rival for n's namespace fails at its first call, for n still owns that namespace. */
  lemma RivalWritesNothing(cfg: Config, s: State, faults: seq<Fault>, n: string, was: bool)
    requires Stranded(cfg, s, n, was) && Enabled(cfg, s, Operate(faults))
    requires s.worker.w.spec.namespace == s.workspaces[n].spec.namespace
    ensures var t := Next(cfg, s, Operate(faults)); t.store == s.store && t.worker.Failing?
  {
    var Running(w, flag, pc) := s.worker;
    var v := s.workspaces[n];
    ProvisionedIsSettled(cfg, s.store, v, was);
    assert Settled(s.store, OpAt(cfg, v, was, 0));
    SettledNamespaceIsMine(cfg, s.store, v, w, was, flag);
    CallIsAllOrNothing(s.store, faults, OpAt(cfg, w, flag, 0));
  }

  lemma CallKeepsStranded(cfg: Config, s: State, faults: seq<Fault>, n: string, was: bool)
    requires Stranded(cfg, s, n, was) && Enabled(cfg, s, Operate(faults)) && !Rouses(cfg, s, Operate(faults), n)
    ensures Stranded(cfg, Next(cfg, s, Operate(faults)), n, was)
  {
    var t := Next(cfg, s, Operate(faults));
    var Running(w, flag, pc) := s.worker;
    var v := s.workspaces[n];
    if w.spec.namespace == v.spec.namespace {
      RivalWritesNothing(cfg, s, faults, n, was);
    } else {
      CallStaysHome(cfg, s.store, faults, w, flag, pc);
      HomesApart(v, w, OpAt(cfg, w, flag, pc).key);
      ProvisionedFrame(cfg, s.store, t.store, v, was);
    }
  }

  /** A step that writes nothing, does not schedule n and leaves everyone named. */
  lemma QuietKeepsStranded(cfg: Config, s: State, t: State, n: string, was: bool)
    requires Stranded(cfg, s, n, was) && t.store == s.store && t.detector == s.detector
    requires n in t.workspaces && t.workspaces[n] == s.workspaces[n] && Calm(t, n) && n !in t.queue.processing
    requires Named(t) && QueueValid(t) && WorkerOutside(t, n)
    ensures Stranded(cfg, t, n, was)
  {
  }

  lemma FinishKeepsStranded(cfg: Config, s: State, workspaces: map<string, Workspace>, name: string, retry: bool,
                            conflict: bool, n: string, was: bool)
    requires Stranded(cfg, s, n, was) && s.queue.processing == {name} && workspaces.Keys == s.workspaces.Keys
    requires forall m :: m in workspaces ==> workspaces[m] == s.workspaces[m].(status := workspaces[m].status)
    requires workspaces[n] == s.workspaces[n]
    ensures Stranded(cfg, Finish(s.(workspaces := workspaces), name, retry, conflict), n, was)
  {
    QuietKeepsStranded(cfg, s, Finish(s.(workspaces := workspaces), name, retry, conflict), n, was);
  }

  lemma PublishKeepsStranded(cfg: Config, s: State, fault: Fault, n: string, was: bool)
    requires Stranded(cfg, s, n, was) && s.worker.Publishing?
    ensures Stranded(cfg, Next(cfg, s, PublishStatus(fault)), n, was)
  {
    var retry := StrayPublishEnds(cfg, s, fault);
    PatchSparesOthers(s, fault, s.worker.w, s.worker.status, n);
    FinishKeepsStranded(cfg, s, Reported(s, fault), s.worker.w.name, retry, false, n, was);
  }

  lemma RecordKeepsStranded(cfg: Config, s: State, fault: Fault, now: nat, n: string, was: bool)
    requires Stranded(cfg, s, n, was) && s.worker.Failing?
    ensures Stranded(cfg, Next(cfg, s, RecordFailure(fault, now)), n, was)
  {
    var Failing(w, e) := s.worker;
    AnyPatchKeepsSpecs(s, fault, w, FailedStatus(w, e, now));
    PatchSparesOthers(s, fault, w, FailedStatus(w, e, now), n);
    FinishKeepsStranded(cfg, s, Patch(s, fault, w, FailedStatus(w, e, now)).world.workspaces, w.name,
                        !e.NamespaceConflict?, e.NamespaceConflict?, n, was);
  }

  lemma TakeKeepsStranded(cfg: Config, s: State, name: string, n: string, was: bool)
    requires Stranded(cfg, s, n, was) && Enabled(cfg, s, Take(name))
    ensures Stranded(cfg, Next(cfg, s, Take(name)), n, was)
  {
    QuietKeepsStranded(cfg, s, Next(cfg, s, Take(name)), n, was);
  }

  lemma FetchKeepsStranded(cfg: Config, s: State, fault: Fault, n: string, was: bool)
    requires Stranded(cfg, s, n, was) && s.worker.Claimed?
    ensures Stranded(cfg, Next(cfg, s, Fetch(fault)), n, was)
  {
    var name := s.worker.name;
    var t := Next(cfg, s, Fetch(fault));
    if fault == Healthy && name in s.workspaces {
      assert t == s.(worker := Fetched(s.workspaces[name]));
    } else {
      assert t == Finish(s, name, fault != Healthy, false);
    }
    QuietKeepsStranded(cfg, s, t, n, was);
  }

  lemma ReadKeepsStranded(cfg: Config, s: State, step: Step, n: string, was: bool)
    requires Stranded(cfg, s, n, was) && Enabled(cfg, s, step) && (step.ReadDetector? || step.ComputeStatus?)
    ensures Stranded(cfg, Next(cfg, s, step), n, was)
  {
    var t := Next(cfg, s, step);
    assert t == s.(worker := t.worker);
    QuietKeepsStranded(cfg, s, t, n, was);
  }

  lemma UserKeepsStranded(cfg: Config, s: State, step: Step, n: string, was: bool)
    requires Stranded(cfg, s, n, was) && Enabled(cfg, s, step) && !Rouses(cfg, s, step, n)
    requires step.CreateWorkspace? || step.EditWorkspace? || step.DeleteWorkspace? || step.Resync? || step.Deliver?
    ensures Stranded(cfg, Next(cfg, s, step), n, was)
  {
    QuietKeepsStranded(cfg, s, Next(cfg, s, step), n, was);
  }

  lemma StepKeepsStranded(cfg: Config, s: State, step: Step, n: string, was: bool)
    requires Stranded(cfg, s, n, was) && Enabled(cfg, s, step) && !Rouses(cfg, s, step, n) && !step.ChangeCrds?
    ensures Stranded(cfg, Next(cfg, s, step), n, was)
  {
    if step.Tamper? || step.Collect? {
      ChangeKeepsStranded(cfg, s, step, n, was);
    } else if step.Operate? {
      CallKeepsStranded(cfg, s, step.faults, n, was);
    } else if step.PublishStatus? {
      PublishKeepsStranded(cfg, s, step.fault, n, was);
    } else if step.RecordFailure? {
      RecordKeepsStranded(cfg, s, step.fault, step.now, n, was);
    } else if step.Take? {
      TakeKeepsStranded(cfg, s, step.name, n, was);
    } else if step.Fetch? {
      FetchKeepsStranded(cfg, s, step.fault, n, was);
    } else if step.ReadDetector? || step.ComputeStatus? {
      ReadKeepsStranded(cfg, s, step, n, was);
    } else {
      UserKeepsStranded(cfg, s, step, n, was);
    }
  }

  /**
   * Nor does anything else bring a lost wake-up back: through every run of any steps, users and other Workspaces
   * included, in which no step asks for n or touches an object naming it and the Istio kinds do not change again, n
   * stays unscheduled and out of step with the detector.
   */
  lemma {:induction false} LostUntilRoused(cfg: Config, s: State, steps: seq<Step>, n: string, was: bool)
    requires Stranded(cfg, s, n, was) && IsRun(cfg, s, steps) && Untroubled(cfg, s, steps, n)
    ensures var t := After(cfg, s, steps);
      Stranded(cfg, t, n, was) && !Provisioned(t.store, t.workspaces[n], cfg.version, t.detector)
    decreases |steps|
  {
    if steps == [] {
      ProvisionedForOneValue(s.store, s.workspaces[n], cfg.version, was, s.detector);
    } else {
      StepKeepsStranded(cfg, s, steps[0], n, was);
      LostUntilRoused(cfg, Next(cfg, s, steps[0]), steps[1..], n, was);
    }
  }
}
