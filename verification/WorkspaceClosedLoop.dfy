/**
 * The closed loop of the Workspace controller on its own queue: deliveries, the queue and the worker alone come to
 * rest, after a bounded number of steps, with every Workspace provisioned, even when the turn under way was begun
 * before the last change of spec, detector or namespace.
 */
module WorkspaceClosedLoop {
  import opened Prelude
  import opened Metadata
  import opened Conditions
  import opened Objects
  import opened Cluster
  import opened Api
  import opened Server
  import opened OpRuns
  import WorkQueue
  import opened WorkspaceNamespace
  import opened WorkspaceController
  import opened WorkspaceProtocol
  import opened WorkspaceConvergence
  import WorkspaceRuns

  /** The copy is of a Workspace that is still stored, whatever has become of its spec and status since. */
  predicate Kin(s: State, w: Workspace) {
    w.name in s.workspaces && s.workspaces[w.name].uid == w.uid
    && s.workspaces[w.name].spec.namespace == w.spec.namespace
  }

  predicate Unclaimed(s: State, w: Workspace) {
    forall n :: n in s.workspaces ==> s.workspaces[n].spec.namespace != w.spec.namespace
  }

  /**
   * A copy whose writes cannot take a namespace from a stored Workspace: its own Workspace is still stored, or nobody
   * claims its namespace, and whoever has its name by now is scheduled.
   */
  predicate Harmless(s: State, w: Workspace) {
    Kin(s, w) || (Unclaimed(s, w) && (w.name in s.workspaces ==> Busy(s, w.name)))
  }

  predicate WorkerHarmless(s: State) {
    match s.worker
    case Idle => true
    case Claimed(_) => true
    case Fetched(w) => Harmless(s, w)
    case Running(w, _, _) => Harmless(s, w)
    case Publishing(w, _) => Harmless(s, w)
    case Failing(w, e) => Harmless(s, w) && (e.NamespaceConflict? && w.name in s.workspaces ==> Busy(s, w.name))
  }

  /** Nothing stands in the way for good, however outdated the turn under way is. */
  predicate Unblocked(cfg: Config, s: State) {
    DistinctNamespaces(s) && WorkerHarmless(s) && ParkedIsScheduled(s) && ObstacleFree(cfg, s)
  }

  lemma SteadyIsUnblocked(cfg: Config, s: State)
    requires StoredWell(s) && Steady(cfg, s)
    ensures Unblocked(cfg, s)
  {
  }

  lemma CurrentIsSteady(cfg: Config, s: State)
    requires Unblocked(cfg, s) && WorkerCurrent(s)
    ensures Steady(cfg, s)
  {
  }

  /** What an outdated turn may still spoil: a key and two wake-ups per call. */
  function DragOf(worker: Worker): nat {
    match worker
    case Idle => 0
    case Claimed(_) => 0
    case Fetched(_) => 1200
    case Running(_, _, pc) => if pc <= 9 then 100 + 100 * (9 - pc) else 0
    case Publishing(_, _) => 60
    case Failing(_, _) => 60
  }

  function Drag(s: State): nat {
    if WorkerCurrent(s) then 0 else DragOf(s.worker)
  }

  function Budget(cfg: Config, s: State, names: seq<string>): nat {
    Potential(cfg, s, names) + Drag(s)
  }

  /** The worker's copy has a namespace, and its position is one. */
  predicate WorkerNamed(s: State) {
    match s.worker
    case Idle => true
    case Claimed(_) => true
    case Fetched(w) => w.spec.namespace != ""
    case Running(w, _, pc) => w.spec.namespace != "" && pc <= 9
    case Publishing(w, _) => w.spec.namespace != ""
    case Failing(w, _) => w.spec.namespace != ""
  }

  lemma InvIsNamed(cfg: Config, s: State)
    requires Inv(cfg, s)
    ensures WorkerNamed(s) && StoredWell(s) && QueueValid(s)
  {
  }

  /** Two specs with one namespace write the same nine keys. */
  lemma SameKeys(cfg: Config, v: Workspace, w: Workspace, f: bool, g: bool, i: nat)
    requires i < 9 && v.spec.namespace == w.spec.namespace
    ensures OpAt(cfg, v, f, i).key == OpAt(cfg, w, g, i).key
  {
    OpsInOrder(v, cfg.version, f);
    OpsInOrder(w, cfg.version, g);
  }

  lemma OpsHaveOwner(cfg: Config, w: Workspace, flag: bool, i: nat)
    requires i < 9
    ensures OpAt(cfg, w, flag, i).Ensure? ==> OpAt(cfg, w, flag, i).mutation.owner == OwnerOfWorkspace(w)
  {
    OpShape(w, cfg.version, flag, i);
  }

  predicate Writable(c: Store, op: Op) {
    op.Ensure? ==> Serves(c, op.key.kind) && Mutate(op.mutation, op.key, ObjectAt(c, op.key)).Ok?
  }

  lemma OwnedIsWritable(m: Mutation, key: Key, o: Object)
    requires ControllerOf(o.owners) == Some(m.owner) && IsOwned(o.owners, m.owner.uid)
    ensures Mutate(m, key, Some(o)).Ok?
  {
  }

  lemma FreshIsWritable(m: Mutation, key: Key)
    ensures Mutate(m, key, None).Ok?
  {
  }

  /** An outdated write of the same owner leaves the key as writable as it was. */
  lemma OwnWriteKeepsWritable(c: Store, d: Store, op: Op, now: Op)
    requires op.key == now.key && (op.Ensure? && now.Ensure? ==> op.mutation.owner == now.mutation.owner)
    requires Writable(c, now) && FramedBut(c, d, op.key) && (d == c || Settled(d, op))
    ensures Writable(d, now)
  {
    if now.Ensure? && d != c {
      if op.Ensure? {
        SettledController(d, op);
        OwnedIsWritable(now.mutation, now.key, d.objects[now.key]);
      } else {
        FreshIsWritable(now.mutation, now.key);
      }
    }
  }

  lemma {:induction false} UnsettledRises(c: Store, d: Store, ops: seq<Op>, k: nat)
    requires k < |ops| && forall i :: 0 <= i < |ops| && i != k && Settled(c, ops[i]) ==> Settled(d, ops[i])
    ensures Unsettled(d, ops) <= Unsettled(c, ops) + 1
  {
    assert forall i :: 0 <= i < |ops[1..]| ==> ops[1..][i] == ops[i + 1];
    if k == 0 {
      UnsettledMonotone(c, d, ops[1..]);
    } else {
      UnsettledRises(c, d, ops[1..], k - 1);
    }
  }

  lemma {:induction false} TotalRises(cfg: Config, s: State, t: State, names: seq<string>, n: string)
    requires forall i, j :: 0 <= i < j < |names| ==> names[i] != names[j]
    requires forall i :: 0 <= i < |names| ==>
      Unsettled(t.store, OpsOf(cfg, t, names[i]))
        <= Unsettled(s.store, OpsOf(cfg, s, names[i])) + (if names[i] == n then 1 else 0)
    ensures Total(cfg, t, names) <= Total(cfg, s, names) + (if n in names then 1 else 0)
  {
    if names == [] {
    } else {
      var rest := names[1..];
      assert forall i :: 0 <= i < |rest| ==> rest[i] == names[i + 1];
      TotalRises(cfg, s, t, rest, n);
      assert n == names[0] ==> n !in rest;
    }
  }

  /** An outdated call of a Workspace that is still stored: on that Workspace's own operations. */
  lemma StrayCallOnKin(cfg: Config, s: State, t: State)
    requires StoredWell(s) && ObstacleFree(cfg, s) && s.worker.Running? && s.worker.pc < 9 && Kin(s, s.worker.w)
    requires t.workspaces == s.workspaces && t.detector == s.detector
    requires var op := OpAt(cfg, s.worker.w, s.worker.flag, s.worker.pc);
      FramedBut(s.store, t.store, op.key) && (t.store == s.store || Settled(t.store, op))
    ensures var n := s.worker.w.name;
      Unsettled(t.store, OpsOf(cfg, t, n)) <= Unsettled(s.store, OpsOf(cfg, s, n)) + 1
      && WorkspaceRuns.Unobstructed(t.store, OpsOf(cfg, t, n))
  {
    var Running(w, flag, pc) := s.worker;
    var v := s.workspaces[w.name];
    var ops := OpsOf(cfg, s, w.name);
    var op := OpAt(cfg, w, flag, pc);
    OpsOwnDistinctKeys(v, cfg.version, s.detector);
    SameKeys(cfg, v, w, s.detector, flag, pc);
    OpsHaveOwner(cfg, v, s.detector, pc);
    OpsHaveOwner(cfg, w, flag, pc);
    assert ops[pc] == OpAt(cfg, v, s.detector, pc);
    forall i | 0 <= i < |ops| && i != pc
      ensures ops[i].key != op.key && ObjectAt(t.store, ops[i].key) == ObjectAt(s.store, ops[i].key)
    {
      assert i < pc || pc < i;
    }
    forall i | 0 <= i < |ops| && i != pc && Settled(s.store, ops[i]) ensures Settled(t.store, ops[i]) {
      SettledFrame(s.store, t.store, ops[i]);
    }
    UnsettledRises(s.store, t.store, ops, pc);
    assert Writable(s.store, ops[pc]);
    OwnWriteKeepsWritable(s.store, t.store, op, ops[pc]);
  }

  lemma StrayCallOnOther(cfg: Config, s: State, t: State, n: string)
    requires StoredWell(s) && ObstacleFree(cfg, s) && WorkerNamed(s) && s.worker.Running? && s.worker.pc < 9
    requires n in s.workspaces && s.workspaces[n].spec.namespace != s.worker.w.spec.namespace
    requires t.workspaces == s.workspaces && t.detector == s.detector
    requires FramedBut(s.store, t.store, OpAt(cfg, s.worker.w, s.worker.flag, s.worker.pc).key)
    ensures Unsettled(t.store, OpsOf(cfg, t, n)) <= Unsettled(s.store, OpsOf(cfg, s, n))
    ensures WorkspaceRuns.Unobstructed(t.store, OpsOf(cfg, t, n))
  {
    var Running(w, flag, pc) := s.worker;
    var v := s.workspaces[n];
    var ops := OpsOf(cfg, s, n);
    var key := OpAt(cfg, w, flag, pc).key;
    OpsOwnDistinctKeys(v, cfg.version, s.detector);
    forall i | 0 <= i < |ops| ensures ops[i].key != key {
      OtherKeys(cfg, v, w, s.detector, flag, i, pc);
    }
    SettledElsewhere(s.store, t.store, key, ops);
  }

  lemma ListedIsStored(s: State, names: seq<string>, i: nat)
    requires Lists(s, names) && i < |names|
    ensures names[i] in s.workspaces
  {
    var listed := set j | 0 <= j < |names| :: names[j];
    assert names[i] in listed;
  }

  /** An outdated call spoils one key at most, and obstructs nobody. */
  lemma StrayCallIsBounded(cfg: Config, s: State, t: State, names: seq<string>)
    requires StoredWell(s) && Unblocked(cfg, s) && WorkerNamed(s) && Lists(s, names)
    requires s.worker.Running? && s.worker.pc < 9 && t.workspaces == s.workspaces && t.detector == s.detector
    requires var op := OpAt(cfg, s.worker.w, s.worker.flag, s.worker.pc);
      FramedBut(s.store, t.store, op.key) && (t.store == s.store || Settled(t.store, op))
    ensures Total(cfg, t, names) <= Total(cfg, s, names) + 1 && ObstacleFree(cfg, t)
  {
    var w := s.worker.w;
    forall n | n in s.workspaces
      ensures Unsettled(t.store, OpsOf(cfg, t, n))
           <= Unsettled(s.store, OpsOf(cfg, s, n)) + (if n == w.name then 1 else 0)
      ensures WorkspaceRuns.Unobstructed(t.store, OpsOf(cfg, t, n))
    {
      if Kin(s, w) && n == w.name {
        StrayCallOnKin(cfg, s, t);
      } else {
        StrayCallOnOther(cfg, s, t, n);
      }
    }
    forall i | 0 <= i < |names| ensures names[i] in s.workspaces {
      ListedIsStored(s, names, i);
    }
    TotalRises(cfg, s, t, names, w.name);
  }

  lemma ConflictIsForeign(c: Store, faults: seq<Fault>, op: Op)
    requires CallOp(c, faults, op).err.Some? && CallOp(c, faults, op).err.value.NamespaceConflict?
    ensures op.Ensure? && op.mutation.NamespaceMutation? && op.key in c.objects
    ensures !IsOwned(c.objects[op.key].owners, op.mutation.owner.uid)
  {
  }

  lemma OnlyFirstIsNamespace(cfg: Config, w: Workspace, flag: bool, i: nat)
    requires i < 9 && OpAt(cfg, w, flag, i).Ensure? && OpAt(cfg, w, flag, i).mutation.NamespaceMutation?
    ensures i == 0
  {
    OpsInOrder(w, cfg.version, flag);
  }

  /** A stored Workspace that nothing obstructs never meets a conflict, not even through an outdated copy. */
  lemma KinNeverConflicts(cfg: Config, s: State, faults: seq<Fault>)
    requires StoredWell(s) && ObstacleFree(cfg, s) && s.worker.Running? && s.worker.pc < 9 && Kin(s, s.worker.w)
    ensures var r := CallOp(s.store, faults, OpAt(cfg, s.worker.w, s.worker.flag, s.worker.pc));
      r.err.Some? ==> !r.err.value.NamespaceConflict?
  {
    var Running(w, flag, pc) := s.worker;
    var op := OpAt(cfg, w, flag, pc);
    var r := CallOp(s.store, faults, op);
    KinOwnsNamespace(cfg, s, w);
    if r.err.Some? && r.err.value.NamespaceConflict? {
      ConflictIsForeign(s.store, faults, op);
      OnlyFirstIsNamespace(cfg, w, flag, pc);
      OpsOwnDistinctKeys(w, cfg.version, flag);
    }
  }

  lemma KinOwnsNamespace(cfg: Config, s: State, w: Workspace)
    requires StoredWell(s) && ObstacleFree(cfg, s) && Kin(s, w)
    ensures var key := NamespaceKey(w.spec.namespace);
      key in s.store.objects ==> IsOwned(s.store.objects[key].owners, w.uid)
  {
    OpsOwnDistinctKeys(s.workspaces[w.name], cfg.version, s.detector);
    assert Writable(s.store, OpsOf(cfg, s, w.name)[0]);
  }

  /** What every outdated step may cost, against what it gives back. */
  predicate Repays(s: State, t: State, cost: nat) {
    t.queue.dirty == s.queue.dirty && |t.pending| <= |s.pending| + 2
    && cost + 15 * |t.pending| + Work(t.worker) + DragOf(t.worker) + 1
         <= 15 * |s.pending| + Work(s.worker) + DragOf(s.worker)
  }

  lemma RepaysBudget(cfg: Config, s: State, t: State, names: seq<string>, cost: nat)
    requires !WorkerCurrent(s) && Repays(s, t, cost)
    requires 30 * Total(cfg, t, names) <= 30 * Total(cfg, s, names) + cost
    ensures Budget(cfg, t, names) + 1 <= Budget(cfg, s, names)
  {
  }

  /** Where the worker stands after an outdated call. */
  lemma StrayCallMoves(cfg: Config, s: State, faults: seq<Fault>)
    requires StoredWell(s) && Unblocked(cfg, s) && WorkerNamed(s) && Enabled(cfg, s, Operate(faults))
    ensures var t := Next(cfg, s, Operate(faults));
      t == s.(store := t.store, pending := t.pending, worker := t.worker) && s.pending <= t.pending
      && WorkerHarmless(t) && Repays(s, t, 30)
  {
    var t := Next(cfg, s, Operate(faults));
    var Running(w, flag, pc) := s.worker;
    var key := OpAt(cfg, w, flag, pc).key;
    if Kin(s, w) {
      KinNeverConflicts(cfg, s, faults);
    }
    TwoAtMost(cfg, s.store, t.store, key);
    var wakes := Wakes(cfg, s.store, t.store, key);
    assert t.pending == s.pending + wakes && |t.pending| <= |s.pending| + |wakes|;
  }

  lemma StrayCallPays(cfg: Config, s: State, faults: seq<Fault>, names: seq<string>)
    requires StoredWell(s) && Unblocked(cfg, s) && WorkerNamed(s) && Lists(s, names) && !WorkerCurrent(s)
    requires Enabled(cfg, s, Operate(faults))
    ensures var t := Next(cfg, s, Operate(faults));
      Unblocked(cfg, t) && Budget(cfg, t, names) + 1 <= Budget(cfg, s, names) && SameDemand(s, t)
  {
    var t := Next(cfg, s, Operate(faults));
    CallWritesOrNot(s.store, faults, OpAt(cfg, s.worker.w, s.worker.flag, s.worker.pc));
    StrayCallMoves(cfg, s, faults);
    StrayCallIsBounded(cfg, s, t, names);
    RepaysBudget(cfg, s, t, names, 30);
  }

  /** Reading the detector or computing the status from an outdated copy. */
  lemma StrayReadMoves(cfg: Config, s: State, step: Step)
    requires WorkerHarmless(s) && WorkerNamed(s) && Enabled(cfg, s, step) && (step.ReadDetector? || step.ComputeStatus?)
    ensures var t := Next(cfg, s, step);
      t == s.(worker := t.worker) && WorkerHarmless(t) && Repays(s, t, 0)
  {
  }

  lemma WorkerMovePays(cfg: Config, s: State, t: State, names: seq<string>)
    requires Unblocked(cfg, s) && !WorkerCurrent(s) && t == s.(worker := t.worker)
    requires WorkerHarmless(t) && Repays(s, t, 0)
    ensures Unblocked(cfg, t) && Budget(cfg, t, names) + 1 <= Budget(cfg, s, names) && SameDemand(s, t)
  {
    MovedIsFree(cfg, s, t, names);
    RepaysBudget(cfg, s, t, names, 0);
  }

  lemma StrayReadPays(cfg: Config, s: State, step: Step, names: seq<string>)
    requires Unblocked(cfg, s) && WorkerNamed(s) && !WorkerCurrent(s) && Enabled(cfg, s, step)
    requires step.ReadDetector? || step.ComputeStatus?
    ensures var t := Next(cfg, s, step);
      Unblocked(cfg, t) && Budget(cfg, t, names) + 1 <= Budget(cfg, s, names) && SameDemand(s, t)
  {
    StrayReadMoves(cfg, s, step);
    WorkerMovePays(cfg, s, Next(cfg, s, step), names);
  }

  lemma DeliveryKeepsDrag(s: State, t: State)
    requires t == s.(pending := t.pending, queue := t.queue)
    ensures Drag(t) == Drag(s)
  {
  }

  /** A delivery changes nothing about the turn under way. */
  lemma StrayDeliveryPays(cfg: Config, s: State, name: string, names: seq<string>)
    requires Unblocked(cfg, s) && name in s.pending
    ensures var t := Next(cfg, s, Deliver(name));
      Unblocked(cfg, t) && Budget(cfg, t, names) + 1 <= Budget(cfg, s, names) && SameDemand(s, t)
  {
    var t := s.(pending := s.pending - {name}, queue := WorkQueue.Add(s.queue, name));
    assert t == Next(cfg, s, Deliver(name));
    assert |t.pending| == |s.pending| - 1 && |t.queue.dirty| <= |s.queue.dirty| + 1;
    MovedIsFree(cfg, s, t, names);
    DeliveryKeepsBusy(cfg, s, name);
    DeliveryKeepsDrag(s, t);
  }

  lemma DeliveryKeepsBusy(cfg: Config, s: State, name: string)
    requires name in s.pending
    ensures var t := Next(cfg, s, Deliver(name));
      (forall n :: Busy(s, n) ==> Busy(t, n))
      && (ParkedIsScheduled(s) ==> ParkedIsScheduled(t)) && (WorkerHarmless(s) ==> WorkerHarmless(t))
  {
  }

  /** A status patch by any copy changes no spec. */
  lemma AnyPatchKeepsSpecs(s: State, fault: Fault, w: Workspace, desired: WorkspaceStatus)
    ensures var after := Patch(s, fault, w, desired).world.workspaces;
      after.Keys == s.workspaces.Keys
      && forall n :: n in s.workspaces ==> after[n] == s.workspaces[n].(status := after[n].status)
  {
  }

  /** The end of an outdated turn. */
  lemma StrayFinish(cfg: Config, s: State, workspaces: map<string, Workspace>, name: string, retry: bool,
                    conflict: bool, names: seq<string>)
    requires Unblocked(cfg, s) && !WorkerCurrent(s) && s.queue.processing == {name} && DragOf(s.worker) == 60
    requires workspaces.Keys == s.workspaces.Keys
    requires forall n :: n in workspaces ==> workspaces[n] == s.workspaces[n].(status := workspaces[n].status)
    requires conflict && name in s.workspaces ==> Busy(s, name)
    ensures var t := Finish(s.(workspaces := workspaces), name, retry, conflict);
      Unblocked(cfg, t) && Budget(cfg, t, names) + 1 <= Budget(cfg, s, names) && SameDemand(s, t)
  {
    var t := Finish(s.(workspaces := workspaces), name, retry, conflict);
    FreeIgnoresStatus(cfg, s, t, names);
    assert |t.pending| <= |s.pending| + 1;
    RepaysBudget(cfg, s, t, names, 0);
  }

  lemma FreeIgnoresStatus(cfg: Config, s: State, t: State, names: seq<string>)
    requires ObstacleFree(cfg, s) && t.store == s.store && t.detector == s.detector
    requires t.workspaces.Keys == s.workspaces.Keys
    requires forall n :: n in s.workspaces ==> t.workspaces[n] == s.workspaces[n].(status := t.workspaces[n].status)
    ensures ObstacleFree(cfg, t) && Total(cfg, t, names) == Total(cfg, s, names)
  {
    forall n ensures OpsOf(cfg, t, n) == OpsOf(cfg, s, n) {
      if n in s.workspaces {
        WorkspaceRuns.OpsIgnoreStatus(s.workspaces[n], t.workspaces[n].status, cfg.version, s.detector);
      }
    }
    TotalFrame(cfg, s, t, names);
  }

  lemma StrayPublishPays(cfg: Config, s: State, fault: Fault, names: seq<string>)
    requires QueueValid(s) && Unblocked(cfg, s) && !WorkerCurrent(s) && s.worker.Publishing?
    ensures var t := Next(cfg, s, PublishStatus(fault));
      Unblocked(cfg, t) && Budget(cfg, t, names) + 1 <= Budget(cfg, s, names) && SameDemand(s, t)
  {
    var retry := StrayPublishEnds(cfg, s, fault);
    StrayFinish(cfg, s, Reported(s, fault), s.worker.w.name, retry, false, names);
  }

  lemma StrayPublishEnds(cfg: Config, s: State, fault: Fault) returns (retry: bool)
    requires s.worker.Publishing?
    ensures Next(cfg, s, PublishStatus(fault))
        == Finish(s.(workspaces := Reported(s, fault)), s.worker.w.name, retry, false)
    ensures Reported(s, fault).Keys == s.workspaces.Keys
    ensures forall n :: n in s.workspaces ==>
              Reported(s, fault)[n] == s.workspaces[n].(status := Reported(s, fault)[n].status)
  {
    var Publishing(w, status) := s.worker;
    AnyPatchKeepsSpecs(s, fault, w, status);
    retry := status != w.status && Patch(s, fault, w, status).err.Some?;
    assert s.(workspaces := s.workspaces) == s;
  }

  lemma StrayRecordPays(cfg: Config, s: State, fault: Fault, now: nat, names: seq<string>)
    requires QueueValid(s) && Unblocked(cfg, s) && !WorkerCurrent(s) && s.worker.Failing?
    ensures var t := Next(cfg, s, RecordFailure(fault, now));
      Unblocked(cfg, t) && Budget(cfg, t, names) + 1 <= Budget(cfg, s, names) && SameDemand(s, t)
  {
    var Failing(w, e) := s.worker;
    AnyPatchKeepsSpecs(s, fault, w, FailedStatus(w, e, now));
    var workspaces := Patch(s, fault, w, FailedStatus(w, e, now)).world.workspaces;
    assert Next(cfg, s, RecordFailure(fault, now))
        == Finish(s.(workspaces := workspaces), w.name, !e.NamespaceConflict?, e.NamespaceConflict?);
    StrayFinish(cfg, s, workspaces, w.name, !e.NamespaceConflict?, e.NamespaceConflict?, names);
  }

  /** Every step of an outdated turn pays out of what the turn was charged when it became outdated. */
  lemma OutdatedStepPays(cfg: Config, s: State, step: Step, names: seq<string>)
    requires StoredWell(s) && QueueValid(s) && WorkerNamed(s) && Unblocked(cfg, s) && Lists(s, names)
    requires !WorkerCurrent(s) && Enabled(cfg, s, step) && Internal(step)
    ensures var t := Next(cfg, s, step);
      Unblocked(cfg, t) && Budget(cfg, t, names) + 1 <= Budget(cfg, s, names) && SameDemand(s, t)
  {
    if step.Deliver? {
      StrayDeliveryPays(cfg, s, step.name, names);
    } else if step.Operate? {
      StrayCallPays(cfg, s, step.faults, names);
    } else if step.PublishStatus? {
      StrayPublishPays(cfg, s, step.fault, names);
    } else if step.RecordFailure? {
      StrayRecordPays(cfg, s, step.fault, step.now, names);
    } else {
      StrayReadPays(cfg, s, step, names);
    }
  }

  /**
   * Every own step lowers the budget by one, on credit of sixteen when it meets a fault, whether the turn under way is
   * current or not; and what is asked for stays the same.
   */
  lemma StepPays(cfg: Config, s: State, step: Step, names: seq<string>)
    requires Inv(cfg, s) && Unblocked(cfg, s) && Lists(s, names) && Enabled(cfg, s, step) && Internal(step)
    ensures var t := Next(cfg, s, step);
      Unblocked(cfg, t) && SameDemand(s, t)
      && Budget(cfg, t, names) + 1 <= Budget(cfg, s, names) + (if FaultFree(step) then 0 else 16)
  {
    InvIsNamed(cfg, s);
    if WorkerCurrent(s) {
      CurrentIsSteady(cfg, s);
      CurrentStepPays(cfg, s, step, names);
      StepKeepsDemand(cfg, s, step);
      StepKeepsInv(cfg, s, step);
      SteadyIsUnblocked(cfg, Next(cfg, s, step));
    } else {
      OutdatedStepPays(cfg, s, step, names);
    }
  }

  /** A run of the controller's own steps: what it costs is bounded, and what it works for stays the same. */
  lemma {:induction false} OwnRunIsBounded(cfg: Config, s: State, steps: seq<Step>, names: seq<string>)
    requires Inv(cfg, s) && Unblocked(cfg, s) && Lists(s, names) && IsRun(cfg, s, steps) && AllInternal(steps)
    ensures var t := After(cfg, s, steps);
      |steps| + Budget(cfg, t, names) <= Budget(cfg, s, names) + 16 * FaultySteps(steps)
      && Inv(cfg, t) && Unblocked(cfg, t) && Lists(t, names) && SameDemand(s, t)
    decreases |steps|
  {
    if steps == [] {
    } else {
      var next := Next(cfg, s, steps[0]);
      StepKeepsInv(cfg, s, steps[0]);
      StepPays(cfg, s, steps[0], names);
      OwnRunIsBounded(cfg, next, steps[1..], names);
      DemandChains(s, next, After(cfg, s, steps));
    }
  }

  lemma DemandChains(s: State, t: State, u: State)
    requires SameDemand(s, t) && SameDemand(t, u)
    ensures SameDemand(s, u)
  {
  }

  /** The controller has nothing left to do on its own. */
  ghost predicate AtRest(cfg: Config, s: State) {
    forall step :: Internal(step) ==> !Enabled(cfg, s, step)
  }

  /** At rest means empty: no request anywhere, and an idle worker. */
  lemma RestIsEmpty(cfg: Config, s: State)
    requires QueueValid(s) && WorkerNamed(s)
    ensures AtRest(cfg, s) <==> s.pending == {} && s.queue == WorkQueue.EMPTY && s.worker == Idle
  {
    if AtRest(cfg, s) {
      var step :=
        match s.worker
        case Idle => Fetch(Healthy)
        case Claimed(_) => Fetch(Healthy)
        case Fetched(_) => ReadDetector
        case Running(_, _, pc) => if pc < 9 then Operate([]) else ComputeStatus(0)
        case Publishing(_, _) => PublishStatus(Healthy)
        case Failing(_, _) => RecordFailure(Healthy, 0);
      assert Internal(step) && !Enabled(cfg, s, step);
      forall n ensures n !in s.pending && n !in s.queue.queued {
        assert Internal(Deliver(n)) && !Enabled(cfg, s, Deliver(n));
        assert Internal(Take(n)) && !Enabled(cfg, s, Take(n));
      }
      assert s.queue.queued == {} && s.queue.processing == {};
    }
  }

  /** Where the queue is empty every Workspace is provisioned and its status agrees. */
  lemma RestIsProvisioned(cfg: Config, s: State, n: string)
    requires Inv(cfg, s) && ParkedIsScheduled(s) && !HandlerActive(s) && AtRest(cfg, s) && n in s.workspaces
    ensures Provisioned(s.store, s.workspaces[n], cfg.version, s.detector)
    ensures StatusAgrees(s.workspaces[n].status, s.workspaces[n], s.detector)
  {
    InvIsNamed(cfg, s);
    RestIsEmpty(cfg, s);
    assert Calm(s, n) && n !in s.parked;
    assert Agrees(cfg, s, n);
    var w := s.workspaces[n];
    OpsInOrder(w, cfg.version, s.detector);
    forall i | 0 <= i < 9 ensures Settled(s.store, Ops(w, cfg.version, s.detector)[i]) {
      assert Settled(s.store, OpAt(cfg, w, s.detector, i));
    }
    SettledIffProvisioned(s.store, w, cfg.version, s.detector);
  }

  /**
   * Convergence: take any state that keeps the protocol invariant, with no handler mid-way and nothing in the way for
   * good, in the middle of any turn, even one begun before the last change of spec, detector or namespace. A run of
   * deliveries, queue and worker steps is no longer than the budget it starts with plus sixteen steps per fault,
   * however the deliveries are timed; and it can only stop with empty queue and pending set and every Workspace
   * provisioned, its status agreeing.
   */
  lemma ClosedLoopConverges(cfg: Config, s: State, steps: seq<Step>, names: seq<string>)
    requires Inv(cfg, s) && Unblocked(cfg, s) && Lists(s, names) && !HandlerActive(s)
    requires IsRun(cfg, s, steps) && AllInternal(steps)
    ensures |steps| <= Budget(cfg, s, names) + 16 * FaultySteps(steps)
    ensures SameDemand(s, After(cfg, s, steps))
    ensures var t := After(cfg, s, steps);
      AtRest(cfg, t) ==>
        t.pending == {} && t.queue == WorkQueue.EMPTY && t.worker == Idle
        && forall n :: n in t.workspaces ==>
             Provisioned(t.store, t.workspaces[n], cfg.version, t.detector)
             && StatusAgrees(t.workspaces[n].status, t.workspaces[n], t.detector)
  {
    OwnRunIsBounded(cfg, s, steps, names);
    var t := After(cfg, s, steps);
    if AtRest(cfg, t) {
      InvIsNamed(cfg, t);
      RestIsEmpty(cfg, t);
      forall n | n in t.workspaces
        ensures Provisioned(t.store, t.workspaces[n], cfg.version, t.detector)
        ensures StatusAgrees(t.workspaces[n].status, t.workspaces[n], t.detector)
      {
        RestIsProvisioned(cfg, t, n);
      }
    }
  }

  /** Some own step that meets no fault, wherever the controller is not at rest. */
  lemma OwnStep(cfg: Config, s: State) returns (step: Step)
    requires QueueValid(s) && WorkerNamed(s) && !AtRest(cfg, s)
    ensures Internal(step) && Enabled(cfg, s, step) && FaultFree(step)
  {
    RestIsEmpty(cfg, s);
    match s.worker
    case Claimed(_) => step := Fetch(Healthy);
    case Fetched(_) => step := ReadDetector;
    case Running(_, _, pc) => step := if pc < 9 then Operate([]) else ComputeStatus(0);
    case Publishing(_, _) => step := PublishStatus(Healthy);
    case Failing(_, _) => step := RecordFailure(Healthy, 0);
    case Idle =>
      if s.pending != {} {
        var n :| n in s.pending;
        step := Deliver(n);
      } else {
        assert s.queue == WorkQueue.EMPTY || s.queue.queued != {};
        var n :| n in s.queue.queued;
        step := Take(n);
      }
  }

  /** The rest is reached: every such state has a fault-free run that ends there. */
  lemma {:induction false} ComesToRest(cfg: Config, s: State, names: seq<string>) returns (steps: seq<Step>)
    requires Inv(cfg, s) && Unblocked(cfg, s) && Lists(s, names)
    ensures IsRun(cfg, s, steps) && AllInternal(steps) && AtRest(cfg, After(cfg, s, steps))
    decreases Budget(cfg, s, names)
  {
    if AtRest(cfg, s) {
      steps := [];
    } else {
      InvIsNamed(cfg, s);
      var step := OwnStep(cfg, s);
      StepKeepsInv(cfg, s, step);
      StepPays(cfg, s, step, names);
      var rest := ComesToRest(cfg, Next(cfg, s, step), names);
      steps := [step] + rest;
      assert steps[1..] == rest;
    }
  }

  /** With no handler mid-way the invariant leaves one question about a running turn: whose namespace it writes. */
  lemma HarmlessIffNotClaimed(cfg: Config, s: State)
    requires Inv(cfg, s) && !HandlerActive(s)
    requires s.worker.Fetched? || s.worker.Running? || s.worker.Publishing?
    ensures WorkerHarmless(s) <==> Kin(s, s.worker.w) || Unclaimed(s, s.worker.w)
  {
    var w := s.worker.w;
    if w.name in s.workspaces && !Kin(s, w) {
      assert s.workspaces[w.name] != w && !Calm(s, w.name);
    }
  }

  /**
   * Edits, detector flips, deleted or changed objects and vanishing Istio kinds, at any point of a turn, leave it
   * harmless: only deleting and creating Workspaces can make an outdated copy claim what another one owns.
   */
  lemma ChangesKeepHarmless(cfg: Config, s: State, step: Step)
    requires WorkerHarmless(s) && Enabled(cfg, s, step)
    requires step.EditWorkspace? || step.Tamper? || step.Collect? || step.ChangeCrds? || step.Refresh?
          || step.ListAndEnqueue? || step.Resync? || step.Deliver?
    ensures WorkerHarmless(Next(cfg, s, step))
  {
    if step.Deliver? {
      DeliveryKeepsBusy(cfg, s, step.name);
    } else {
      BusyIsKept(cfg, s, step);
    }
  }

  lemma BusyIsKept(cfg: Config, s: State, step: Step)
    requires Enabled(cfg, s, step)
    requires step.EditWorkspace? || step.Tamper? || step.Collect? || step.ChangeCrds? || step.Refresh?
          || step.ListAndEnqueue? || step.Resync?
    ensures var t := Next(cfg, s, step);
      t.worker == s.worker && t.workspaces.Keys == s.workspaces.Keys && (forall n :: Busy(s, n) ==> Busy(t, n))
      && forall n :: n in s.workspaces ==>
           t.workspaces[n].uid == s.workspaces[n].uid
           && t.workspaces[n].spec.namespace == s.workspaces[n].spec.namespace
  {
  }

  /** What a harmful copy does: it takes the absent namespace, which is then foreign to the Workspace that claims it. */
  lemma ClaimedCopyObstructs(cfg: Config, s: State, n: string)
    requires s.worker.Running? && s.worker.pc == 0 && s.worker.w.spec.namespace != ""
    requires NamespaceKey(s.worker.w.spec.namespace) !in s.store.objects
    requires n in s.workspaces && s.workspaces[n].spec.namespace == s.worker.w.spec.namespace
    requires s.workspaces[n].uid != s.worker.w.uid
    ensures var t := Next(cfg, s, Operate([]));
      WorkspaceRuns.ForeignNamespace(t.store, t.workspaces[n]) && !ObstacleFree(cfg, t)
  {
    var w := s.worker.w;
    var t := Next(cfg, s, Operate([]));
    OpsInOrder(w, cfg.version, s.worker.flag);
    FreshOwners(OwnerOfWorkspace(w));
    OpsInOrder(s.workspaces[n], cfg.version, s.detector);
    assert !Writable(t.store, OpsOf(cfg, t, n)[0]);
  }

  lemma FreshOwners(owner: ControllerRef)
    ensures SetControllerReference([], owner) == Some([owner])
  {
  }
}
