/**
 * What the Workspace controller's own steps cost while the worker runs for the current spec: each one lowers a
 * potential made of keys out of sync, requests outstanding and the worker's position.
 */
module WorkspaceConvergence {
  import opened Prelude
  import opened Metadata
  import opened Conditions
  import opened Objects
  import opened Cluster
  import opened Api
  import opened Server
  import opened OpRuns
  import WorkQueue
  import opened WorkspaceNamespace
  import opened WorkspaceController
  import opened WorkspaceProtocol
  import WorkspaceRuns

  predicate AllHealthy(faults: seq<Fault>) {
    forall i :: 0 <= i < |faults| ==> faults[i] == Healthy
  }

  predicate FaultFree(step: Step) {
    match step
    case Fetch(fault) => fault == Healthy
    case Operate(faults) => AllHealthy(faults)
    case PublishStatus(fault) => fault == Healthy
    case RecordFailure(fault, _) => fault == Healthy
    case _ => true
  }

  /** How many steps meet a fault. */
  function FaultySteps(steps: seq<Step>): nat {
    if steps == [] then 0 else (if FaultFree(steps[0]) then 0 else 1) + FaultySteps(steps[1..])
  }

  function OpsOf(cfg: Config, s: State, n: string): seq<Op> {
    if n in s.workspaces then Ops(s.workspaces[n], cfg.version, s.detector) else []
  }

  /** How many keys are out of sync, over all named Workspaces. */
  function Total(cfg: Config, s: State, names: seq<string>): nat {
    if names == [] then 0 else Unsettled(s.store, OpsOf(cfg, s, names[0])) + Total(cfg, s, names[1..])
  }

  /** `names` lists every Workspace once. */
  predicate Lists(s: State, names: seq<string>) {
    (forall i, j :: 0 <= i < j < |names| ==> names[i] != names[j])
        && (set i | 0 <= i < |names| :: names[i]) == s.workspaces.Keys
  }

  predicate DistinctNamespaces(s: State) {
    forall m, n :: m in s.workspaces && n in s.workspaces && m != n ==>
      s.workspaces[m].spec.namespace != s.workspaces[n].spec.namespace
  }

  /** The worker's copy is the stored Workspace, up to its status. */
  predicate Current(s: State, w: Workspace) {
    w.name in s.workspaces && s.workspaces[w.name] == w.(status := s.workspaces[w.name].status)
  }

  /**
   * The worker runs for the current spec and detector, inside a namespace that exists once it is past the first step.
   */
  predicate WorkerCurrent(s: State) {
    match s.worker
    case Idle => true
    case Claimed(_) => true
    case Fetched(w) => Current(s, w)
    case Running(w, flag, pc) =>
      Current(s, w) && flag == s.detector && pc <= 9 && (pc > 0 ==> NamespaceKey(w.spec.namespace) in s.store.objects)
    case Publishing(w, _) => Current(s, w)
    case Failing(w, e) => Current(s, w) && !e.NamespaceConflict?
  }

  predicate ParkedIsScheduled(s: State) {
    forall n :: n in s.workspaces && n in s.parked ==> Busy(s, n) || n in s.queue.processing
  }

  /** The bookkeeping part of steadiness. */
  predicate Scheduled(s: State) {
    DistinctNamespaces(s) && WorkerCurrent(s) && ParkedIsScheduled(s)
  }

  /** Nothing stands in the way for good: own namespaces, no foreign controller, Istio served where it is assumed. */
  predicate Steady(cfg: Config, s: State) {
    Scheduled(s) && ObstacleFree(cfg, s)
  }

  predicate ObstacleFree(cfg: Config, s: State) {
    forall n :: n in s.workspaces ==> WorkspaceRuns.Unobstructed(s.store, OpsOf(cfg, s, n))
  }

  /** Worker steps left in a turn; a failing turn will also ask for another one. */
  function Work(worker: Worker): nat {
    match worker
    case Idle => 0
    case Claimed(_) => 13
    case Fetched(_) => 12
    case Running(_, _, pc) => if pc <= 9 then 11 - pc else 2
    case Publishing(_, _) => 1
    case Failing(_, _) => 16
  }

  /** Every key still to write may wake two Workspaces; every wake-up costs a delivery and a turn. */
  function Potential(cfg: Config, s: State, names: seq<string>): nat {
    30 * Total(cfg, s, names) + 15 * |s.pending| + 14 * |s.queue.dirty| + Work(s.worker)
  }

  lemma {:induction false} TotalFrame(cfg: Config, s: State, t: State, names: seq<string>)
    requires s.store == t.store
    requires forall i :: 0 <= i < |names| ==> OpsOf(cfg, s, names[i]) == OpsOf(cfg, t, names[i])
    ensures Total(cfg, s, names) == Total(cfg, t, names)
  {
    if names == [] {
    } else {
      assert forall i :: 0 <= i < |names[1..]| ==> names[1..][i] == names[i + 1];
      TotalFrame(cfg, s, t, names[1..]);
    }
  }

  /** No Workspace loses a settled key, and one gains. */
  lemma {:induction false} TotalDrops(cfg: Config, s: State, t: State, names: seq<string>, k: nat)
    requires k < |names|
    requires forall i :: 0 <= i < |names| ==>
      Unsettled(t.store, OpsOf(cfg, t, names[i])) <= Unsettled(s.store, OpsOf(cfg, s, names[i]))
    requires Unsettled(t.store, OpsOf(cfg, t, names[k])) < Unsettled(s.store, OpsOf(cfg, s, names[k]))
    ensures Total(cfg, t, names) < Total(cfg, s, names)
  {
    assert forall i :: 0 <= i < |names[1..]| ==> names[1..][i] == names[i + 1];
    if k == 0 {
      TotalGrowsNot(cfg, s, t, names[1..]);
    } else {
      TotalDrops(cfg, s, t, names[1..], k - 1);
    }
  }

  lemma {:induction false} TotalGrowsNot(cfg: Config, s: State, t: State, names: seq<string>)
    requires forall i :: 0 <= i < |names| ==>
      Unsettled(t.store, OpsOf(cfg, t, names[i])) <= Unsettled(s.store, OpsOf(cfg, s, names[i]))
    ensures Total(cfg, t, names) <= Total(cfg, s, names)
  {
    if names == [] {
    } else {
      assert forall i :: 0 <= i < |names[1..]| ==> names[1..][i] == names[i + 1];
      TotalGrowsNot(cfg, s, t, names[1..]);
    }
  }

  lemma {:induction false} UnsettledDrops(c: Store, d: Store, ops: seq<Op>, k: nat)
    requires k < |ops| && !Settled(c, ops[k]) && Settled(d, ops[k])
    requires forall i :: 0 <= i < |ops| && Settled(c, ops[i]) ==> Settled(d, ops[i])
    ensures Unsettled(d, ops) < Unsettled(c, ops)
  {
    assert forall i :: 0 <= i < |ops[1..]| ==> ops[1..][i] == ops[i + 1];
    if k == 0 {
      UnsettledMonotone(c, d, ops[1..]);
    } else {
      UnsettledDrops(c, d, ops[1..], k - 1);
    }
  }

  ghost predicate FramedBut(c: Store, d: Store, key: Key) {
    d.istioServed == c.istioServed && forall k :: k != key ==> ObjectAt(d, k) == ObjectAt(c, k)
  }

  /** A call either leaves the store or settles an operation that was not settled. */
  lemma CallWritesOrNot(c: Store, faults: seq<Fault>, op: Op)
    ensures var d := CallOp(c, faults, op).store;
      FramedBut(c, d, op.key) && (d != c ==> !Settled(c, op) && Settled(d, op))
      && (CallOp(c, faults, op).err.None? ==> Settled(d, op))
  {
    CallIsAllOrNothing(c, faults, op);
    if ApplyOp(c, op).Ok? {
      ApplySettles(c, op);
      SettledIffNoWrite(c, op);
    }
  }

  /** Operations of two Workspaces with distinct namespaces never share a key. */
  lemma OtherKeys(cfg: Config, v: Workspace, w: Workspace, flagV: bool, flagW: bool, i: nat, j: nat)
    requires v.spec.namespace != w.spec.namespace && v.spec.namespace != "" && w.spec.namespace != "" && i < 9 && j < 9
    ensures OpAt(cfg, v, flagV, i).key != OpAt(cfg, w, flagW, j).key
  {
    OpsOwnDistinctKeys(v, cfg.version, flagV);
    OpsOwnDistinctKeys(w, cfg.version, flagW);
  }

  lemma SettledElsewhere(c: Store, d: Store, key: Key, ops: seq<Op>)
    requires FramedBut(c, d, key) && forall i :: 0 <= i < |ops| ==> ops[i].key != key
    ensures Unsettled(d, ops) <= Unsettled(c, ops)
    ensures WorkspaceRuns.Unobstructed(c, ops) ==> WorkspaceRuns.Unobstructed(d, ops)
  {
    forall i | 0 <= i < |ops| ensures Settled(c, ops[i]) <==> Settled(d, ops[i]) {
      SettledFrame(c, d, ops[i]);
    }
    UnsettledMonotone(c, d, ops);
    forall i | 0 <= i < |ops| ensures ObjectAt(d, ops[i].key) == ObjectAt(c, ops[i].key) {
      assert ops[i].key != key;
    }
  }

  lemma SettledHere(c: Store, d: Store, ops: seq<Op>, k: nat)
    requires DistinctKeys(ops) && k < |ops| && FramedBut(c, d, ops[k].key) && !Settled(c, ops[k]) && Settled(d, ops[k])
    ensures Unsettled(d, ops) < Unsettled(c, ops)
    ensures WorkspaceRuns.Unobstructed(c, ops) ==> WorkspaceRuns.Unobstructed(d, ops)
  {
    forall i | 0 <= i < |ops| && i != k ensures ops[i].key != ops[k].key {
      assert i < k || k < i;
    }
    forall i | 0 <= i < |ops| && i != k ensures Settled(c, ops[i]) <==> Settled(d, ops[i]) {
      SettledFrame(c, d, ops[i]);
    }
    UnsettledDrops(c, d, ops, k);
    forall i | 0 <= i < |ops| && i != k ensures ObjectAt(d, ops[i].key) == ObjectAt(c, ops[i].key) {
      assert ops[i].key != ops[k].key;
    }
  }

  lemma CurrentOp(cfg: Config, s: State, w: Workspace, pc: nat)
    requires Current(s, w) && pc < 9
    ensures |OpsOf(cfg, s, w.name)| == 9 && OpsOf(cfg, s, w.name)[pc] == OpAt(cfg, w, s.detector, pc)
  {
    WorkspaceRuns.OpsIgnoreStatus(w, s.workspaces[w.name].status, cfg.version, s.detector);
    OpsInOrder(w, cfg.version, s.detector);
  }

  /** With no obstacle and no fault the call succeeds; with no obstacle it never reports a conflict. */
  lemma UnobstructedCall(c: Store, faults: seq<Fault>, op: Op)
    requires op.Ensure? ==> Serves(c, op.key.kind) && Mutate(op.mutation, op.key, ObjectAt(c, op.key)).Ok?
    ensures CallOp(c, faults, op).err.Some? ==> !CallOp(c, faults, op).err.value.NamespaceConflict?
    ensures AllHealthy(faults) && !MissingNamespace(c, op.key) ==> CallOp(c, faults, op).err.None?
  {
    assert AllHealthy(faults) ==> Head(faults) == Healthy && Head(Rest(faults)) == Healthy;
  }

  /** What one write does to every Workspace's operations. */
  lemma OperateLowersTotal(cfg: Config, s: State, t: State, names: seq<string>)
    requires StoredWell(s) && Steady(cfg, s) && Lists(s, names) && s.worker.Running? && s.worker.pc < 9
    requires t.workspaces == s.workspaces && t.detector == s.detector
    requires FramedBut(s.store, t.store, OpAt(cfg, s.worker.w, s.detector, s.worker.pc).key)
    requires !Settled(s.store, OpAt(cfg, s.worker.w, s.detector, s.worker.pc))
    requires Settled(t.store, OpAt(cfg, s.worker.w, s.detector, s.worker.pc))
    ensures Total(cfg, t, names) < Total(cfg, s, names)
    ensures ObstacleFree(cfg, t)
  {
    var Running(w, flag, pc) := s.worker;
    forall n | n in s.workspaces
      ensures Unsettled(t.store, OpsOf(cfg, t, n)) <= Unsettled(s.store, OpsOf(cfg, s, n))
      ensures n == w.name ==> Unsettled(t.store, OpsOf(cfg, t, n)) < Unsettled(s.store, OpsOf(cfg, s, n))
      ensures WorkspaceRuns.Unobstructed(t.store, OpsOf(cfg, t, n))
    {
      OperateOn(cfg, s, t, n);
    }
    assert w.name in set i | 0 <= i < |names| :: names[i];
    var k :| 0 <= k < |names| && names[k] == w.name;
    forall i | 0 <= i < |names| ensures names[i] in s.workspaces {
      assert names[i] in set i | 0 <= i < |names| :: names[i];
    }
    TotalDrops(cfg, s, t, names, k);
  }

  lemma OperateOn(cfg: Config, s: State, t: State, n: string)
    requires StoredWell(s) && Steady(cfg, s) && s.worker.Running? && s.worker.pc < 9 && n in s.workspaces
    requires t.workspaces == s.workspaces && t.detector == s.detector
    requires FramedBut(s.store, t.store, OpAt(cfg, s.worker.w, s.detector, s.worker.pc).key)
    requires !Settled(s.store, OpAt(cfg, s.worker.w, s.detector, s.worker.pc))
    requires Settled(t.store, OpAt(cfg, s.worker.w, s.detector, s.worker.pc))
    ensures Unsettled(t.store, OpsOf(cfg, t, n)) <= Unsettled(s.store, OpsOf(cfg, s, n))
    ensures n == s.worker.w.name ==> Unsettled(t.store, OpsOf(cfg, t, n)) < Unsettled(s.store, OpsOf(cfg, s, n))
    ensures WorkspaceRuns.Unobstructed(t.store, OpsOf(cfg, t, n))
  {
    var Running(w, flag, pc) := s.worker;
    var op := OpAt(cfg, w, s.detector, pc);
    var v := s.workspaces[n];
    var ops := OpsOf(cfg, s, n);
    OpsOwnDistinctKeys(v, cfg.version, s.detector);
    if n == w.name {
      CurrentOp(cfg, s, w, pc);
      SettledHere(s.store, t.store, ops, pc);
    } else {
      forall i | 0 <= i < |ops| ensures ops[i].key != op.key {
        OtherKeys(cfg, v, w, s.detector, s.detector, i, pc);
      }
      SettledElsewhere(s.store, t.store, op.key, ops);
    }
  }

  lemma TwoAtMost(cfg: Config, before: Store, after: Store, key: Key)
    ensures |Wakes(cfg, before, after, key)| <= 2
    ensures before == after ==> Wakes(cfg, before, after, key) == {}
  {
    var a, b := WorkspaceOwnerOf(ObjectAt(before, key)), WorkspaceOwnerOf(ObjectAt(after, key));
    assert |a| <= 1 && |b| <= 1;
    assert |a + b| <= |a| + |b|;
  }

  /** What a step pays: one unit of potential, on credit of sixteen when it meets a fault. */
  predicate Pays(cfg: Config, s: State, t: State, step: Step, names: seq<string>) {
    Potential(cfg, t, names) + 1 <= Potential(cfg, s, names) + (if FaultFree(step) then 0 else 16)
  }

  lemma OperateWorker(cfg: Config, s: State, faults: seq<Fault>)
    requires StoredWell(s) && Steady(cfg, s) && Enabled(cfg, s, Operate(faults))
    ensures var t := Next(cfg, s, Operate(faults));
      WorkerCurrent(t) && (AllHealthy(faults) ==> t.worker.Running?)
      && Work(t.worker) + 1 <= Work(s.worker) + (if AllHealthy(faults) then 0 else 16)
  {
    var Running(w, flag, pc) := s.worker;
    CurrentOp(cfg, s, w, pc);
    var op := OpAt(cfg, w, flag, pc);
    assert OpsOf(cfg, s, w.name)[pc] == op;
    OpsOwnDistinctKeys(w, cfg.version, flag);
    UnobstructedCall(s.store, faults, op);
    CallWritesOrNot(s.store, faults, op);
    if pc == 0 {
      assert op.Ensure? && op.key == NamespaceKey(w.spec.namespace);
    } else {
      assert op.key != NamespaceKey(w.spec.namespace);
      assert ObjectAt(CallOp(s.store, faults, op).store, NamespaceKey(w.spec.namespace))
          == ObjectAt(s.store, NamespaceKey(w.spec.namespace));
    }
  }

  /** A step that leaves store, specs and detector alone. */
  predicate Moved(s: State, t: State) {
    t == s.(queue := t.queue, pending := t.pending, worker := t.worker, parked := t.parked)
  }

  lemma MovedIsFree(cfg: Config, s: State, t: State, names: seq<string>)
    requires Moved(s, t) && ObstacleFree(cfg, s)
    ensures ObstacleFree(cfg, t) && Total(cfg, t, names) == Total(cfg, s, names)
  {
    forall n ensures OpsOf(cfg, t, n) == OpsOf(cfg, s, n) {
    }
    TotalFrame(cfg, s, t, names);
  }

  /** A moving step that pays on bookkeeping alone. */
  predicate Cheaper(s: State, t: State, credit: nat) {
    15 * |t.pending| + 14 * |t.queue.dirty| + Work(t.worker) + 1
      <= 15 * |s.pending| + 14 * |s.queue.dirty| + Work(s.worker) + credit
  }

  lemma OperateCheaper(cfg: Config, s: State, faults: seq<Fault>)
    requires StoredWell(s) && Steady(cfg, s) && Enabled(cfg, s, Operate(faults))
    ensures var t := Next(cfg, s, Operate(faults));
      Scheduled(t) && t == s.(store := t.store, pending := t.pending, worker := t.worker)
      && Cheaper(s, t, (if AllHealthy(faults) then 0 else 16) + (if t.store == s.store then 0 else 30))
  {
    var t := Next(cfg, s, Operate(faults));
    OperateWorker(cfg, s, faults);
    var key := OpAt(cfg, s.worker.w, s.worker.flag, s.worker.pc).key;
    TwoAtMost(cfg, s.store, t.store, key);
    var wakes := Wakes(cfg, s.store, t.store, key);
    assert t.pending == s.pending + wakes && |t.pending| <= |s.pending| + |wakes|;
  }

  lemma OperateTotal(cfg: Config, s: State, faults: seq<Fault>, names: seq<string>)
    requires StoredWell(s) && Steady(cfg, s) && Lists(s, names) && Enabled(cfg, s, Operate(faults))
    ensures var t := Next(cfg, s, Operate(faults));
      ObstacleFree(cfg, t) && Total(cfg, t, names) + (if t.store == s.store then 0 else 1) <= Total(cfg, s, names)
  {
    var t := Next(cfg, s, Operate(faults));
    CallWritesOrNot(s.store, faults, OpAt(cfg, s.worker.w, s.worker.flag, s.worker.pc));
    if t.store == s.store {
      MovedIsFree(cfg, s, t, names);
    } else {
      OperateLowersTotal(cfg, s, t, names);
    }
  }

  lemma OperatePays(cfg: Config, s: State, faults: seq<Fault>, names: seq<string>)
    requires StoredWell(s) && Steady(cfg, s) && Lists(s, names) && Enabled(cfg, s, Operate(faults))
    ensures var t := Next(cfg, s, Operate(faults)); Steady(cfg, t) && Pays(cfg, s, t, Operate(faults), names)
  {
    OperateCheaper(cfg, s, faults);
    OperateTotal(cfg, s, faults, names);
  }

  lemma MovePays(cfg: Config, s: State, t: State, step: Step, names: seq<string>)
    requires Steady(cfg, s) && Moved(s, t) && Scheduled(t) && Cheaper(s, t, if FaultFree(step) then 0 else 16)
    ensures Steady(cfg, t) && Pays(cfg, s, t, step, names)
  {
    MovedIsFree(cfg, s, t, names);
  }

  lemma DeliverMoves(cfg: Config, s: State, name: string)
    requires Scheduled(s) && name in s.pending
    ensures var t := Next(cfg, s, Deliver(name)); Moved(s, t) && Scheduled(t) && Cheaper(s, t, 0)
  {
    var t := Next(cfg, s, Deliver(name));
    assert |t.pending| == |s.pending| - 1 && |t.queue.dirty| <= |s.queue.dirty| + 1;
  }

  lemma TakeMoves(cfg: Config, s: State, name: string)
    requires Scheduled(s) && QueueValid(s) && s.worker.Idle? && name in s.queue.queued
    ensures var t := Next(cfg, s, Take(name)); Moved(s, t) && Scheduled(t) && Cheaper(s, t, 0)
  {
    var t := Next(cfg, s, Take(name));
    assert |t.queue.dirty| == |s.queue.dirty| - 1;
  }

  lemma FetchMoves(cfg: Config, s: State, fault: Fault)
    requires StoredWell(s) && QueueValid(s) && Scheduled(s) && s.worker.Claimed?
    ensures var t := Next(cfg, s, Fetch(fault));
        Moved(s, t) && Scheduled(t) && Cheaper(s, t, if fault == Healthy then 0 else 16)
  {
    var t := Next(cfg, s, Fetch(fault));
    assert |t.pending| <= |s.pending| + 1;
  }

  lemma ReadMoves(cfg: Config, s: State, step: Step)
    requires Scheduled(s) && Enabled(cfg, s, step) && (step.ReadDetector? || step.ComputeStatus?)
    ensures var t := Next(cfg, s, step); Moved(s, t) && Scheduled(t) && Cheaper(s, t, 0)
  {
  }

  /** The end of a turn, statuses aside. */
  lemma FinishIsSteady(cfg: Config, s: State, workspaces: map<string, Workspace>, name: string, retry: bool,
                       names: seq<string>)
    requires QueueValid(s) && Steady(cfg, s) && s.queue.processing == {name}
    requires workspaces.Keys == s.workspaces.Keys
    requires forall n :: n in workspaces ==> workspaces[n] == s.workspaces[n].(status := workspaces[n].status)
    ensures var t := Finish(s.(workspaces := workspaces), name, retry, false);
      Steady(cfg, t) && Total(cfg, t, names) == Total(cfg, s, names)
      && |t.pending| <= |s.pending| + (if retry then 1 else 0)
  {
    var t := Finish(s.(workspaces := workspaces), name, retry, false);
    forall n ensures OpsOf(cfg, t, n) == OpsOf(cfg, s, n) {
      if n in workspaces {
        WorkspaceRuns.OpsIgnoreStatus(s.workspaces[n], workspaces[n].status, cfg.version, s.detector);
      }
    }
    TotalFrame(cfg, s, t, names);
  }

  /** A patched status changes no spec; it fails only by a fault. */
  lemma PatchKeepsSpecs(s: State, fault: Fault, w: Workspace, desired: WorkspaceStatus)
    requires Current(s, w)
    ensures var r := Patch(s, fault, w, desired);
      r.world.workspaces.Keys == s.workspaces.Keys && (r.err.Some? <==> fault != Healthy)
      && forall n :: n in s.workspaces ==>
           r.world.workspaces[n] == s.workspaces[n].(status := r.world.workspaces[n].status)
  {
  }

  /** Statuses after the last step of a turn, and whether that step asks for another turn. */
  function Reported(s: State, fault: Fault): map<string, Workspace>
    requires s.worker.Publishing?
  {
    var Publishing(w, status) := s.worker;
    if status == w.status then s.workspaces else Patch(s, fault, w, status).world.workspaces
  }

  lemma PublishEnds(cfg: Config, s: State, fault: Fault) returns (retry: bool)
    requires s.worker.Publishing? && Current(s, s.worker.w)
    ensures Next(cfg, s, PublishStatus(fault))
        == Finish(s.(workspaces := Reported(s, fault)), s.worker.w.name, retry, false)
    ensures retry ==> fault != Healthy
    ensures Reported(s, fault).Keys == s.workspaces.Keys
    ensures forall n :: n in s.workspaces ==>
        Reported(s, fault)[n] == s.workspaces[n].(status := Reported(s, fault)[n].status)
  {
    var Publishing(w, status) := s.worker;
    PatchKeepsSpecs(s, fault, w, status);
    retry := status != w.status && Patch(s, fault, w, status).err.Some?;
    assert s.(workspaces := s.workspaces) == s;
  }

  lemma PublishPays(cfg: Config, s: State, fault: Fault, names: seq<string>)
    requires QueueValid(s) && Steady(cfg, s) && s.worker.Publishing?
    ensures var t := Next(cfg, s, PublishStatus(fault)); Steady(cfg, t) && Pays(cfg, s, t, PublishStatus(fault), names)
  {
    var retry := PublishEnds(cfg, s, fault);
    var name := s.worker.w.name;
    FinishIsSteady(cfg, s, Reported(s, fault), name, retry, names);
    FinishPays(cfg, s, Finish(s.(workspaces := Reported(s, fault)), name, retry, false), PublishStatus(fault), retry,
               names);
  }

  lemma FinishPays(cfg: Config, s: State, t: State, step: Step, retry: bool, names: seq<string>)
    requires t.worker == Idle && t.queue.dirty == s.queue.dirty && Total(cfg, t, names) == Total(cfg, s, names)
    requires |t.pending| <= |s.pending| + (if retry then 1 else 0) && Work(s.worker) >= 1
    requires retry ==> !FaultFree(step) || Work(s.worker) == 16
    ensures Pays(cfg, s, t, step, names)
  {
  }

  lemma RecordPays(cfg: Config, s: State, fault: Fault, now: nat, names: seq<string>)
    requires QueueValid(s) && Steady(cfg, s) && Enabled(cfg, s, RecordFailure(fault, now))
    ensures var t := Next(cfg, s, RecordFailure(fault, now));
      Steady(cfg, t) && Pays(cfg, s, t, RecordFailure(fault, now), names)
  {
    var Failing(w, e) := s.worker;
    PatchKeepsSpecs(s, fault, w, FailedStatus(w, e, now));
    var workspaces := Patch(s, fault, w, FailedStatus(w, e, now)).world.workspaces;
    FinishIsSteady(cfg, s, workspaces, w.name, true, names);
    FinishPays(cfg, s, Finish(s.(workspaces := workspaces), w.name, true, false), RecordFailure(fault, now), true,
               names);
  }

  /** Specs, names, detector and handler stay as they are. */
  predicate SameDemand(s: State, t: State) {
    t.workspaces.Keys == s.workspaces.Keys && t.detector == s.detector
    && t.crdEvent == s.crdEvent && t.refreshed == s.refreshed
    && forall n :: n in s.workspaces ==> t.workspaces[n] == s.workspaces[n].(status := t.workspaces[n].status)
  }

  lemma PublishKeepsDemand(cfg: Config, s: State, fault: Fault)
    requires WorkerCurrent(s) && s.worker.Publishing?
    ensures SameDemand(s, Next(cfg, s, PublishStatus(fault)))
  {
    var retry := PublishEnds(cfg, s, fault);
  }

  lemma RecordKeepsDemand(cfg: Config, s: State, fault: Fault, now: nat)
    requires WorkerCurrent(s) && s.worker.Failing?
    ensures SameDemand(s, Next(cfg, s, RecordFailure(fault, now)))
  {
    var Failing(w, e) := s.worker;
    PatchKeepsSpecs(s, fault, w, FailedStatus(w, e, now));
    var workspaces := Patch(s, fault, w, FailedStatus(w, e, now)).world.workspaces;
    assert Next(cfg, s, RecordFailure(fault, now)) == Finish(s.(workspaces := workspaces), w.name, true, false);
  }

  lemma StepKeepsDemand(cfg: Config, s: State, step: Step)
    requires WorkerCurrent(s) && Enabled(cfg, s, step) && Internal(step)
    ensures SameDemand(s, Next(cfg, s, step))
  {
    if step.PublishStatus? {
      PublishKeepsDemand(cfg, s, step.fault);
    } else if step.RecordFailure? {
      RecordKeepsDemand(cfg, s, step.fault, step.now);
    } else {
      assert Next(cfg, s, step).workspaces == s.workspaces;
    }
  }

  lemma CurrentStepPays(cfg: Config, s: State, step: Step, names: seq<string>)
    requires StoredWell(s) && QueueValid(s) && Steady(cfg, s) && Lists(s, names) && Enabled(cfg, s, step)
        && Internal(step)
    ensures var t := Next(cfg, s, step); Steady(cfg, t) && Pays(cfg, s, t, step, names)
  {
    if step.Operate? {
      OperatePays(cfg, s, step.faults, names);
    } else if step.PublishStatus? {
      PublishPays(cfg, s, step.fault, names);
    } else if step.RecordFailure? {
      RecordPays(cfg, s, step.fault, step.now, names);
    } else {
      StepMoves(cfg, s, step);
      MovePays(cfg, s, Next(cfg, s, step), step, names);
    }
  }

  lemma StepMoves(cfg: Config, s: State, step: Step)
    requires StoredWell(s) && QueueValid(s) && Scheduled(s) && Enabled(cfg, s, step)
    requires step.Deliver? || step.Take? || step.Fetch? || step.ReadDetector? || step.ComputeStatus?
    ensures var t := Next(cfg, s, step); Moved(s, t) && Scheduled(t) && Cheaper(s, t, if FaultFree(step) then 0 else 16)
  {
    if step.Deliver? {
      DeliverMoves(cfg, s, step.name);
    } else if step.Take? {
      TakeMoves(cfg, s, step.name);
    } else if step.Fetch? {
      FetchMoves(cfg, s, step.fault);
    } else {
      ReadMoves(cfg, s, step);
    }
  }
}
