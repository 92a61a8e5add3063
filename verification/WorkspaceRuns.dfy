/** What whole Workspace reconciles guarantee: crash consistency, convergence, ownership, coverage, independence. */
module WorkspaceRuns {
  import opened Prelude
  import opened Metadata
  import opened Conditions
  import opened Objects
  import opened Cluster
  import opened Api
  import opened Server
  import opened OpRuns
  import opened WorkspaceNamespace
  import opened Rbac
  import opened ResourceConstraints
  import opened NetworkIsolation
  import opened WorkspaceController

  /** Stored workspaces sit under their own name and list each condition type once. */
  predicate WellStored(world: World) {
    forall n :: n in world.workspaces ==>
      world.workspaces[n].name == n && UniqueTypes(world.workspaces[n].status.conditions)
  }

  /** What a reconcile may change about the Workspace objects: the status of the one it was asked for. */
  predicate OnlyStatusOf(before: World, after: World, name: string) {
    after.workspaces.Keys == before.workspaces.Keys
    && (forall n :: n in before.workspaces && n != name ==> after.workspaces[n] == before.workspaces[n])
    && (name in before.workspaces ==>
          after.workspaces[name] == before.workspaces[name].(status := after.workspaces[name].status))
    && after.modules == before.modules && after.templates == before.templates
  }

  lemma OpsIgnoreStatus(w: Workspace, status: WorkspaceStatus, version: string, istio: bool)
    ensures Ops(w.(status := status), version, istio) == Ops(w, version, istio)
  {
  }

  lemma MergeOntoBase(base: WorkspaceStatus, desired: WorkspaceStatus)
    ensures MergeStatus(base, base, desired) == desired
  {
  }

  lemma StatusPatchShape(world: World, w: Workspace, desired: WorkspaceStatus)
    requires WellStored(world) && w.name in world.workspaces && world.workspaces[w.name] == w
    requires UniqueTypes(desired.conditions)
    ensures var r := PatchWorkspaceStatus(world, w.name, w.status, desired);
      r.world.store == world.store && OnlyStatusOf(world, r.world, w.name) && WellStored(r.world)
      && |r.world.faults| <= |world.faults|
      && (r.err.None? ==> r.world.workspaces[w.name].status == desired)
  {
    MergeOntoBase(w.status, desired);
  }

  /** After the fetch: a prefix of the operations, then at most one status patch; success means all of both. */
  lemma SyncThenReportShape(world: World, w: Workspace, ops: seq<Op>, atStatus: bool, now: nat) returns (k: nat)
    requires WellStored(world) && w.name in world.workspaces && world.workspaces[w.name] == w
    ensures var r := SyncThenReport(world, w, ops, atStatus, now);
      OnlyStatusOf(world, r.world, w.name) && WellStored(r.world)
      && k <= |ops| && Sync(world.store, ops[..k]) == Synced(r.world.store, None)
      && (RunOps(world, ops).err.None? ==> k == |ops|)
      && (r.err.None? && RunOps(world, ops).err.None? ==> StatusAgrees(r.world.workspaces[w.name].status, w, atStatus))
      && (r.err.None? ==> RunOps(world, ops).err.None? || RunOps(world, ops).err.value.NamespaceConflict?)
      && |r.world.faults| <= |world.faults|
  {
    k := FaultyRunIsPrefix(world, ops);
    var synced := RunOps(world, ops);
    match synced.err {
      case Some(e) =>
        SetStatusConditionMembers(w.status.conditions,
                                  Condition(READY, False, ReasonFor(e), ReasonFor(e), w.generation, 0), now);
        StatusPatchShape(synced.world, w, FailedStatus(w, e, now));
      case None =>
        NextStatusAgrees(w, atStatus, now);
        StatusPatchShape(synced.world, w, NextStatus(w, atStatus, now));
    }
  }

  /** Every reconcile, faulty or not, is a prefix of the nine operations followed by at most one status patch. */
  lemma ReconcileIsPrefix(world: World, name: string, version: string, istio: bool, atStatus: bool, now: nat)
    returns (k: nat)
    requires WellStored(world) && name in world.workspaces
    ensures var ops := Ops(world.workspaces[name], version, istio);
      var r := ReconcileWorkspace(world, name, version, istio, atStatus, now);
      OnlyStatusOf(world, r.world, name) && WellStored(r.world)
      && k <= |ops| == 9 && Sync(world.store, ops[..k]) == Synced(r.world.store, None)
      && (r.err.None? && RunOps(Tick(world), ops).err.None? ==>
            k == 9 && StatusAgrees(r.world.workspaces[name].status, world.workspaces[name], atStatus))
      && (r.err.None? ==> RunOps(Tick(world), ops).err.None? || RunOps(Tick(world), ops).err.value.NamespaceConflict?)
      && |r.world.faults| <= |world.faults| && (world.faults != [] ==> |r.world.faults| < |world.faults|)
  {
    var w := world.workspaces[name];
    OpsInOrder(w, version, istio);
    k := 0;
    if Head(world.faults) == Healthy {
      k := SyncThenReportShape(Tick(world), w, Ops(w, version, istio), atStatus, now);
    }
  }

  /**
   * A failure is recorded exactly when its status patch reaches the server (or it was recorded already); the error of
   * that patch is dropped, and only a conflict is not retried.
   */
  lemma FailureIsRecordedIff(world: World, w: Workspace, e: Error, now: nat)
    requires WellStored(world) && w.name in world.workspaces && world.workspaces[w.name] == w
    ensures var reason := if e.NamespaceConflict? then "NamespaceConflict" else "ReconcileError";
      var r := HandleReconcileError(world, w, e, now);
      w.name in r.world.workspaces
      && r.world == world.(workspaces := r.world.workspaces, faults := Rest(world.faults))
      && (Head(world.faults) != Rejected ==> r.world.workspaces[w.name].status.observedGeneration == w.generation)
      && (ReadySays(r.world.workspaces[w.name].status.conditions, False, reason, reason, w.generation) <==>
            (Head(world.faults) != Rejected || ReadySays(w.status.conditions, False, reason, reason, w.generation)))
      && (r.err.None? <==> e.NamespaceConflict?)
  {
    FailedStatusReports(w, e, now);
    assert MergeStatus(w.status, w.status, FailedStatus(w, e, now)) == FailedStatus(w, e, now);
  }

  lemma FailedStatusReports(w: Workspace, e: Error, now: nat)
    requires UniqueTypes(w.status.conditions)
    ensures ReadySays(FailedStatus(w, e, now).conditions, False, ReasonFor(e), ReasonFor(e), w.generation)
  {
    var failed := Condition(READY, False, ReasonFor(e), ReasonFor(e), w.generation, 0);
    var cs := SetStatusCondition(w.status.conditions, failed, now);
    SetStatusConditionMembers(w.status.conditions, failed, now);
    var x :| x in cs && SameReport(x, failed);
    FindIsMember(cs, x);
  }

  /** Only the namespace operation can end in a conflict. */
  lemma {:induction false} ChildrenNeverConflict(world: World, ops: seq<Op>)
    requires forall i :: 0 <= i < |ops| && ops[i].Ensure? ==> ops[i].mutation.ChildMutation?
    ensures RunOps(world, ops).err.Some? ==> !RunOps(world, ops).err.value.NamespaceConflict?
    decreases |ops|
  {
    if ops == [] {
    } else if Perform(world, ops[0]).err.None? {
      ChildrenNeverConflict(Perform(world, ops[0]).world, ops[1..]);
    }
  }

  /** A conflict is reported only for a foreign namespace, and before anything is written. */
  lemma ConflictMeansForeign(world: World, w: Workspace, version: string, istio: bool)
    requires RunOps(world, Ops(w, version, istio)).err.Some?
    requires RunOps(world, Ops(w, version, istio)).err.value.NamespaceConflict?
    ensures ForeignNamespace(world.store, w) && RunOps(world, Ops(w, version, istio)).world.store == world.store
  {
    OpsFollow(world, w, version, istio);
    var first := Perform(world, NamespaceOp(w, version, istio));
    if first.err.Some? {
      NamespaceConflictMeansForeign(world, w, version, istio);
    } else {
      RestNeverConflicts(first.world, w, version, istio);
    }
  }

  lemma NamespaceConflictMeansForeign(world: World, w: Workspace, version: string, istio: bool)
    requires Perform(world, NamespaceOp(w, version, istio)).err.Some?
    requires Perform(world, NamespaceOp(w, version, istio)).err.value.NamespaceConflict?
    ensures ForeignNamespace(world.store, w)
        && Perform(world, NamespaceOp(w, version, istio)).world.store == world.store
  {
  }

  lemma RestNeverConflicts(world: World, w: Workspace, version: string, istio: bool)
    ensures var r := RunOps(world, Ops(w, version, istio)[1..]); r.err.Some? ==> !r.err.value.NamespaceConflict?
  {
    var ops := Ops(w, version, istio);
    OpsInOrder(w, version, istio);
    forall i | 0 <= i < |ops[1..]| && ops[1..][i].Ensure? ensures ops[1..][i].mutation.ChildMutation? {
      assert ops[1..][i] == ops[i + 1];
    }
    ChildrenNeverConflict(world, ops[1..]);
  }

  lemma SyncedProvisions(c: Store, d: Store, w: Workspace, version: string, istio: bool)
    requires Sync(c, Ops(w, version, istio)) == Synced(d, None)
    ensures Provisioned(d, w, version, istio)
  {
    OpsOwnDistinctKeys(w, version, istio);
    SyncSettles(c, Ops(w, version, istio));
    SettledIffProvisioned(d, w, version, istio);
  }

  /** Without a foreign namespace, success means that all nine operations were carried out. */
  lemma SuccessIsComplete(world: World, name: string, version: string, istio: bool, atStatus: bool, now: nat)
    requires WellStored(world) && name in world.workspaces && !ForeignNamespace(world.store, world.workspaces[name])
    requires ReconcileWorkspace(world, name, version, istio, atStatus, now).err.None?
    ensures var w := world.workspaces[name];
      var after := ReconcileWorkspace(world, name, version, istio, atStatus, now).world;
      name in after.workspaces && StatusAgrees(after.workspaces[name].status, w, atStatus)
      && Sync(world.store, Ops(w, version, istio)) == Synced(after.store, None)
  {
    var ops := Ops(world.workspaces[name], version, istio);
    var k := ReconcileIsPrefix(world, name, version, istio, atStatus, now);
    if RunOps(Tick(world), ops).err.Some? {
      ConflictMeansForeign(Tick(world), world.workspaces[name], version, istio);
    }
    assert ops[..k] == ops;
  }

  /**
   * What success means, under any faults: a reconcile that returns no error has provisioned everything and published
   * an agreeing status, unless the namespace is foreign, in which case it has written no object.
   */
  lemma SuccessProvisions(world: World, name: string, version: string, istio: bool, atStatus: bool, now: nat)
    requires WellStored(world) && name in world.workspaces
    requires ReconcileWorkspace(world, name, version, istio, atStatus, now).err.None?
    ensures ForeignNamespace(world.store, world.workspaces[name]) ==>
              ReconcileWorkspace(world, name, version, istio, atStatus, now).world.store == world.store
    ensures !ForeignNamespace(world.store, world.workspaces[name]) ==>
              var w := world.workspaces[name];
              var after := ReconcileWorkspace(world, name, version, istio, atStatus, now).world;
              name in after.workspaces && StatusAgrees(after.workspaces[name].status, w, atStatus)
              && Provisioned(after.store, w, version, istio)
  {
    if ForeignNamespace(world.store, world.workspaces[name]) {
      NamespaceOwnership(world, name, version, istio, atStatus, now);
    } else {
      SuccessIsComplete(world, name, version, istio, atStatus, now);
      SyncedProvisions(world.store, ReconcileWorkspace(world, name, version, istio, atStatus, now).world.store,
                       world.workspaces[name], version, istio);
    }
  }

  /** A reconcile with no failing call whose sync succeeds: children as synced, status as computed. */
  lemma HealthyReconcile(world: World, name: string, version: string, istio: bool, atStatus: bool, now: nat)
    requires WellStored(world) && name in world.workspaces && world.faults == []
    ensures var w := world.workspaces[name];
      var synced := Sync(world.store, Ops(w, version, istio));
      var r := ReconcileWorkspace(world, name, version, istio, atStatus, now);
      r.world.store == synced.store &&
      (synced.err.None? ==> r == Ran(world.(store := synced.store,
         workspaces := world.workspaces[name := w.(status := NextStatus(w, atStatus, now))]), None))
  {
    var w := world.workspaces[name];
    HealthyRun(world, Ops(w, version, istio));
    MergeOntoBase(w.status, NextStatus(w, atStatus, now));
    assert world.workspaces[name := w] == world.workspaces;
  }

  /** One attempt: the faults it meets, its second detector read and its clock. */
  datatype Attempt = Attempt(faults: seq<Fault>, atStatus: bool, now: nat)

  /** Any number of attempts one after the other, each cut wherever its faults cut it. */
  function Attempts(world: World, name: string, version: string, istio: bool, attempts: seq<Attempt>): World
    decreases |attempts|
  {
    if attempts == [] then world
    else
      var a := attempts[0];
      Attempts(ReconcileWorkspace(world.(faults := a.faults), name, version, istio, a.atStatus, a.now).world,
               name, version, istio, attempts[1..])
  }

  /** Equal statuses, transition times aside. */
  predicate SameUpToTimes(a: WorkspaceStatus, b: WorkspaceStatus) {
    a.(conditions := b.conditions) == b && SameReports(a.conditions, b.conditions)
  }

  lemma PatchKeepsOthers(world: World, w: Workspace, desired: WorkspaceStatus)
    requires w.name in world.workspaces && world.workspaces[w.name] == w
    requires SameOthers(w.status.conditions, desired.conditions, READY)
    ensures var after := PatchWorkspaceStatus(world, w.name, w.status, desired).world.workspaces;
      w.name in after && SameOthers(w.status.conditions, after[w.name].status.conditions, READY)
  {
    MergeOntoBase(w.status, desired);
  }

  /** A reconcile touches no condition but Ready. */
  lemma ReportKeepsOthers(world: World, w: Workspace, ops: seq<Op>, atStatus: bool, now: nat)
    requires w.name in world.workspaces && world.workspaces[w.name] == w && UniqueTypes(w.status.conditions)
    requires RunOps(world, ops).world.workspaces == world.workspaces
    ensures var after := SyncThenReport(world, w, ops, atStatus, now).world.workspaces;
      w.name in after && SameOthers(w.status.conditions, after[w.name].status.conditions, READY)
  {
    var synced := RunOps(world, ops);
    match synced.err {
      case Some(e) =>
        SetStatusConditionMembers(w.status.conditions,
                                  Condition(READY, False, ReasonFor(e), ReasonFor(e), w.generation, 0), now);
        PatchKeepsOthers(synced.world, w, FailedStatus(w, e, now));
      case None =>
        PublishIsCanonical(w.status.conditions, ReadyCondition(w), now);
        PatchKeepsOthers(synced.world, w, NextStatus(w, atStatus, now));
    }
  }

  lemma ReconcileKeepsOthers(world: World, name: string, version: string, istio: bool, atStatus: bool, now: nat)
    requires WellStored(world) && name in world.workspaces
    ensures var after := ReconcileWorkspace(world, name, version, istio, atStatus, now).world.workspaces;
      name in after
      && SameOthers(world.workspaces[name].status.conditions, after[name].status.conditions, READY)
  {
    if Head(world.faults) == Healthy {
      var w := world.workspaces[name];
      var k := FaultyRunIsPrefix(Tick(world), Ops(w, version, istio));
      ReportKeepsOthers(Tick(world), w, Ops(w, version, istio), atStatus, now);
    }
  }

  /**
   * After any cut-off attempts the rest of the work leads where it led before, from a status with the same
   * conditions.
   */
  lemma {:induction false} AttemptsResume(world: World, name: string, version: string, istio: bool,
                                          attempts: seq<Attempt>)
    requires WellStored(world) && name in world.workspaces
    ensures var cut := Attempts(world, name, version, istio, attempts);
      WellStored(cut) && OnlyStatusOf(world, cut, name)
      && SameOthers(world.workspaces[name].status.conditions, cut.workspaces[name].status.conditions, READY)
      && Sync(cut.store, Ops(world.workspaces[name], version, istio))
           == Sync(world.store, Ops(world.workspaces[name], version, istio))
    decreases |attempts|
  {
    if attempts == [] {
    } else {
      var a := attempts[0];
      var w := world.workspaces[name];
      var start := world.(faults := a.faults);
      var k := ReconcileIsPrefix(start, name, version, istio, a.atStatus, a.now);
      var next := ReconcileWorkspace(start, name, version, istio, a.atStatus, a.now).world;
      ReconcileKeepsOthers(start, name, version, istio, a.atStatus, a.now);
      AttemptsResume(next, name, version, istio, attempts[1..]);
      OpsIgnoreStatus(w, next.workspaces[name].status, version, istio);
      OpsOwnDistinctKeys(w, version, istio);
      RetryCompletes(world.store, Ops(w, version, istio), k);
    }
  }

  /** Statuses computed from the same spec differ at most in times. */
  lemma NextStatusesMeet(w: Workspace, status: WorkspaceStatus, atStatus: bool, now: nat)
    requires UniqueTypes(w.status.conditions) && UniqueTypes(status.conditions)
    requires SameOthers(w.status.conditions, status.conditions, READY)
    ensures SameUpToTimes(NextStatus(w.(status := status), atStatus, now), NextStatus(w, atStatus, now))
  {
    RefsInOrder(w);
    RefsInOrder(w.(status := status));
    PublishIsCanonical(w.status.conditions, ReadyCondition(w), now);
    PublishIsCanonical(status.conditions, ReadyCondition(w), now);
    CanonicalTwins(Publish(status.conditions, ReadyCondition(w), now),
                   Publish(w.status.conditions, ReadyCondition(w), now), READY);
  }

  /**
   * However often and wherever a reconcile is cut off, a later complete one reaches the uninterrupted result: the same
   * store, and, where the sync succeeds, the same status up to transition times, agreeing with the spec.
   */
  lemma CrashConsistency(
    world: World, name: string, version: string, istio: bool, attempts: seq<Attempt>, atStatus: bool, now: nat)
    requires WellStored(world) && name in world.workspaces
    ensures var cut := Attempts(world, name, version, istio, attempts);
      var resumed := ReconcileWorkspace(cut.(faults := []), name, version, istio, atStatus, now).world;
      var direct := ReconcileWorkspace(world.(faults := []), name, version, istio, atStatus, now).world;
      WellStored(cut) && OnlyStatusOf(world, cut, name) && resumed.store == direct.store
      && (Sync(world.store, Ops(world.workspaces[name], version, istio)).err.None? ==>
            name in resumed.workspaces && name in direct.workspaces
            && SameUpToTimes(resumed.workspaces[name].status, direct.workspaces[name].status)
            && StatusAgrees(resumed.workspaces[name].status, world.workspaces[name], atStatus))
  {
    var w := world.workspaces[name];
    var cut := Attempts(world, name, version, istio, attempts);
    AttemptsResume(world, name, version, istio, attempts);
    var status := cut.workspaces[name].status;
    assert cut.workspaces[name] == w.(status := status);
    OpsIgnoreStatus(w, status, version, istio);
    HealthyReconcile(world.(faults := []), name, version, istio, atStatus, now);
    HealthyReconcile(cut.(faults := []), name, version, istio, atStatus, now);
    NextStatusesMeet(w, status, atStatus, now);
    NextStatusAgrees(w.(status := status), atStatus, now);
  }

  /** Nothing in the cluster makes an operation fail for good: no foreign controller, and Istio served if assumed. */
  predicate Unobstructed(c: Store, ops: seq<Op>) {
    forall i :: 0 <= i < |ops| && ops[i].Ensure? ==>
      Serves(c, ops[i].key.kind) && Mutate(ops[i].mutation, ops[i].key, ObjectAt(c, ops[i].key)).Ok?
  }

  lemma {:induction false} UnobstructedSync(c: Store, ops: seq<Op>)
    requires Unobstructed(c, ops) && DistinctKeys(ops)
    requires forall i :: 0 <= i < |ops| ==> ops[i].key.namespace != "" ==>
      NamespaceKey(ops[i].key.namespace) in c.objects && forall j :: 0 <= j < |ops| ==> ops[j].key.kind != NamespaceKind
    ensures Sync(c, ops).err.None?
    decreases |ops|
  {
    if ops == [] {
    } else {
      ApplySettles(c, ops[0]);
      var d := ApplyOp(c, ops[0]).value;
      assert forall i :: 0 <= i < |ops[1..]| ==>
          ops[1..][i] == ops[i + 1] && ObjectAt(d, ops[i + 1].key) == ObjectAt(c, ops[i + 1].key);
      forall i | 0 <= i < |ops[1..]| && ops[1..][i].key.namespace != ""
        ensures NamespaceKey(ops[1..][i].key.namespace) in d.objects
      {
        var key := NamespaceKey(ops[i + 1].key.namespace);
        assert key in c.objects && ops[0].key.kind != NamespaceKind;
        assert ObjectAt(d, key) == ObjectAt(c, key);
      }
      UnobstructedSync(d, ops[1..]);
    }
  }

  /** An unobstructed Workspace syncs completely when no call fails. */
  lemma UnobstructedSyncs(c: Store, w: Workspace, version: string, istio: bool)
    requires Unobstructed(c, Ops(w, version, istio))
    ensures Sync(c, Ops(w, version, istio)).err.None?
    ensures AllSettled(Sync(c, Ops(w, version, istio)).store, Ops(w, version, istio))
  {
    var ops := Ops(w, version, istio);
    OpsOwnDistinctKeys(w, version, istio);
    assert ops[0].Ensure?;
    var d := ApplyOp(c, ops[0]).value;
    ApplySettles(c, ops[0]);
    var rest := ops[1..];
    assert forall i :: 0 <= i < |rest| ==>
        rest[i] == ops[i + 1] && ObjectAt(d, rest[i].key) == ObjectAt(c, rest[i].key);
    UnobstructedSync(d, rest);
    SyncSettles(c, ops);
  }

  lemma UnobstructedIsKept(c: Store, ops: seq<Op>, k: nat)
    requires DistinctKeys(ops) && k <= |ops| && Sync(c, ops[..k]).err.None? && Unobstructed(c, ops)
    ensures Unobstructed(Sync(c, ops[..k]).store, ops)
  {
    var d := Sync(c, ops[..k]).store;
    forall i | 0 <= i < |ops| && ops[i].Ensure?
      ensures Serves(d, ops[i].key.kind) && Mutate(ops[i].mutation, ops[i].key, ObjectAt(d, ops[i].key)).Ok?
    {
      if i < k {
        SyncSettles(c, ops[..k]);
        assert ops[..k][i] == ops[i];
      } else {
        SyncFrame(c, ops[..k], ops[i].key);
      }
    }
  }

  /** Enough for the sequential loop of one Workspace whose spec and detector stay put to end. */
  predicate Drainable(world: World, name: string, version: string, istio: bool) {
    WellStored(world) && name in world.workspaces
        && Unobstructed(world.store, Ops(world.workspaces[name], version, istio))
  }

  /** Another round follows an error (retry) or a write to the children (their watch events). */
  predicate Again(world: World, r: Ran) {
    r.err.Some? || r.world.store != world.store
  }

  lemma RoundIsDrainable(world: World, name: string, version: string, istio: bool, now: nat)
    requires Drainable(world, name, version, istio)
    ensures var r := ReconcileWorkspace(world, name, version, istio, istio, now);
      Drainable(r.world, name, version, istio)
      && Ops(r.world.workspaces[name], version, istio) == Ops(world.workspaces[name], version, istio)
      && Unsettled(r.world.store, Ops(world.workspaces[name], version, istio))
           <= Unsettled(world.store, Ops(world.workspaces[name], version, istio))
      && (world.faults != [] ==> |r.world.faults| < |world.faults|)
      && (world.faults == [] ==>
            (r.world.faults == [] && r.err.None?
             && Unsettled(r.world.store, Ops(world.workspaces[name], version, istio)) == 0
             && (Again(world, r) ==> 0 < Unsettled(world.store, Ops(world.workspaces[name], version, istio)))))
  {
    var w := world.workspaces[name];
    var ops := Ops(w, version, istio);
    var r := ReconcileWorkspace(world, name, version, istio, istio, now);
    var k := ReconcileIsPrefix(world, name, version, istio, istio, now);
    OpsIgnoreStatus(w, r.world.workspaces[name].status, version, istio);
    OpsOwnDistinctKeys(w, version, istio);
    UnobstructedIsKept(world.store, ops, k);
    forall i | 0 <= i < |ops| && Settled(world.store, ops[i]) ensures Settled(r.world.store, ops[i]) {
      if i < k {
        SyncSettles(world.store, ops[..k]);
        assert ops[..k][i] == ops[i];
      } else {
        SyncKeepsSettled(world.store, ops[..k], ops[i]);
      }
    }
    UnsettledMonotone(world.store, r.world.store, ops);
    if world.faults == [] {
      UnobstructedSyncs(world.store, w, version, istio);
      HealthyReconcile(world, name, version, istio, istio, now);
      UnsettledZero(r.world.store, ops);
      UnsettledZero(world.store, ops);
      if AllSettled(world.store, ops) { SyncOfSettled(world.store, ops); }
    }
  }

  datatype Drained = Drained(rounds: nat, before: World, last: Ran)

  /** The sequential loop, one reconcile after the other, until a round neither fails nor writes. */
  function Drain(world: World, name: string, version: string, istio: bool, now: nat): Drained
    requires Drainable(world, name, version, istio)
    decreases |world.faults|, Unsettled(world.store, Ops(world.workspaces[name], version, istio))
  {
    var r := ReconcileWorkspace(world, name, version, istio, istio, now);
    RoundIsDrainable(world, name, version, istio, now);
    if Again(world, r) then
      var rest := Drain(r.world, name, version, istio, now + 1);
      rest.(rounds := rest.rounds + 1)
    else Drained(1, world, r)
  }

  /** Undisturbed and without late deliveries, there are at most two rounds more than there are faults. */
  lemma {:induction false} DrainIsShort(world: World, name: string, version: string, istio: bool, now: nat)
    requires Drainable(world, name, version, istio)
    ensures Drain(world, name, version, istio, now).rounds <= |world.faults| + 2
    ensures world.faults == [] && Unsettled(world.store, Ops(world.workspaces[name], version, istio)) == 0
            ==> Drain(world, name, version, istio, now).rounds == 1
    decreases |world.faults|, Unsettled(world.store, Ops(world.workspaces[name], version, istio))
  {
    RoundIsDrainable(world, name, version, istio, now);
    var r := ReconcileWorkspace(world, name, version, istio, istio, now);
    if Again(world, r) { DrainIsShort(r.world, name, version, istio, now + 1); }
  }

  /**
   * Where the sequential loop ends, children and status agree with the spec, and one more run changes nothing at all.
   */
  lemma {:induction false} DrainConverges(world: World, name: string, version: string, istio: bool, now: nat,
                                          later: nat)
    requires Drainable(world, name, version, istio)
    ensures var end := Drain(world, name, version, istio, now).last.world;
      OnlyStatusOf(world, end, name)
      && Provisioned(end.store, end.workspaces[name], version, istio)
      && StatusAgrees(end.workspaces[name].status, end.workspaces[name], istio)
      && ReconcileWorkspace(end.(faults := []), name, version, istio, istio, later) == Ran(end.(faults := []), None)
    decreases |world.faults|, Unsettled(world.store, Ops(world.workspaces[name], version, istio))
  {
    RoundIsDrainable(world, name, version, istio, now);
    var r := ReconcileWorkspace(world, name, version, istio, istio, now);
    var k := ReconcileIsPrefix(world, name, version, istio, istio, now);
    if Again(world, r) {
      DrainConverges(r.world, name, version, istio, now + 1, later);
    } else {
      QuietRoundIsSynced(world, name, version, istio, now);
      OpsIgnoreStatus(world.workspaces[name], r.world.workspaces[name].status, version, istio);
      AgreementIgnoresStatus(world.workspaces[name], r.world.workspaces[name].status, istio);
      SettledIffProvisioned(r.world.store, r.world.workspaces[name], version, istio);
      NoFaults(10);
      SettledRunIsSilent(r.world.(faults := []), name, version, istio, later);
    }
  }

  lemma UnobstructedMeansNoConflict(world: World, ops: seq<Op>)
    requires Unobstructed(world.store, ops) && DistinctKeys(ops)
    ensures RunOps(world, ops).err.Some? ==> !RunOps(world, ops).err.value.NamespaceConflict?
    decreases |ops|
  {
    if ops == [] {
    } else {
      var first := Perform(world, ops[0]);
      CallIsAllOrNothing(world.store, world.faults, ops[0]);
      if first.err.None? {
        ApplySettles(world.store, ops[0]);
        assert forall i :: 0 <= i < |ops[1..]| ==> ops[1..][i] == ops[i + 1];
        assert forall i :: 0 <= i < |ops[1..]| ==>
          ObjectAt(first.world.store, ops[1..][i].key) == ObjectAt(world.store, ops[1..][i].key);
        UnobstructedMeansNoConflict(first.world, ops[1..]);
      }
    }
  }

  /** A round that ends the loop has settled every key and published a status that agrees. */
  lemma QuietRoundIsSynced(world: World, name: string, version: string, istio: bool, now: nat)
    requires Drainable(world, name, version, istio)
    requires ReconcileWorkspace(world, name, version, istio, istio, now).err.None?
    ensures var end := ReconcileWorkspace(world, name, version, istio, istio, now).world;
      name in end.workspaces && AllSettled(end.store, Ops(world.workspaces[name], version, istio))
      && StatusAgrees(end.workspaces[name].status, world.workspaces[name], istio)
  {
    var ops := Ops(world.workspaces[name], version, istio);
    var k := ReconcileIsPrefix(world, name, version, istio, istio, now);
    OpsOwnDistinctKeys(world.workspaces[name], version, istio);
    UnobstructedMeansNoConflict(Tick(world), ops);
    assert ops[..9] == ops;
    SyncSettles(world.store, ops);
  }

  /**
   * A settled Workspace whose status agrees is left exactly as it is by a run whose ten calls go well, one for the
   * Workspace and one for each of the nine keys: there is no eleventh, so no status patch.
   */
  lemma SettledRunIsSilent(world: World, name: string, version: string, istio: bool, now: nat)
    requires WellStored(world) && name in world.workspaces && HealthyFor(world.faults, 10)
    requires AllSettled(world.store, Ops(world.workspaces[name], version, istio))
    requires StatusAgrees(world.workspaces[name].status, world.workspaces[name], istio)
    ensures ReconcileWorkspace(world, name, version, istio, istio, now)
         == Ran(world.(faults := AfterCalls(world.faults, 10)), None)
  {
    var ops := Ops(world.workspaces[name], version, istio);
    OpsInOrder(world.workspaces[name], version, istio);
    assert |ops| == 9;
    SettledRunOnlyLooks(Tick(world), ops);
    AgreeingStatusIsKept(world.workspaces[name], istio, now);
  }

  /** The namespace of w exists and w controls it. */
  predicate Controls(c: Store, w: Workspace) {
    NamespaceKey(w.spec.namespace) in c.objects
    && ControllerOf(c.objects[NamespaceKey(w.spec.namespace)].owners) == Some(OwnerOfWorkspace(w))
  }

  predicate ForeignNamespace(c: Store, w: Workspace) {
    NamespaceKey(w.spec.namespace) in c.objects && !IsOwned(c.objects[NamespaceKey(w.spec.namespace)].owners, w.uid)
  }

  lemma PrefixControls(c: Store, w: Workspace, version: string, istio: bool, k: nat)
    requires 1 <= k <= 9 && Sync(c, Ops(w, version, istio)[..k]).err.None?
    ensures Controls(Sync(c, Ops(w, version, istio)[..k]).store, w)
  {
    var ops := Ops(w, version, istio)[..k];
    OpsOwnDistinctKeys(w, version, istio);
    SyncSettles(c, ops);
    assert Settled(Sync(c, ops).store, ops[0]);
    SettledController(Sync(c, ops).store, ops[0]);
  }

  /**
   * Ownership, for any world and any fault script: a foreign namespace stops the run before its first write;
   * otherwise only keys of the own namespace change, and only once w controls it.
   */
  lemma NamespaceOwnership(world: World, name: string, version: string, istio: bool, atStatus: bool, now: nat)
    requires WellStored(world) && name in world.workspaces
    ensures var w := world.workspaces[name];
      var after := ReconcileWorkspace(world, name, version, istio, atStatus, now).world.store;
      (ForeignNamespace(world.store, w) ==> after == world.store)
      && (forall key :: ObjectAt(after, key) != ObjectAt(world.store, key) ==>
            Controls(after, w) && (key == NamespaceKey(w.spec.namespace) || key.namespace == w.spec.namespace))
  {
    var w := world.workspaces[name];
    var ops := Ops(w, version, istio);
    var after := ReconcileWorkspace(world, name, version, istio, atStatus, now).world.store;
    var k := ReconcileIsPrefix(world, name, version, istio, atStatus, now);
    OpsOwnDistinctKeys(w, version, istio);
    if k > 0 {
      PrefixControls(world.store, w, version, istio, k);
      assert ops[..k][0] == ops[0];
      assert ApplyOp(world.store, ops[0]).Ok?;
    }
    forall key | ObjectAt(after, key) != ObjectAt(world.store, key)
      ensures Controls(after, w) && (key == NamespaceKey(w.spec.namespace) || key.namespace == w.spec.namespace)
    {
      if forall i :: 0 <= i < k ==> ops[..k][i].key != key {
        SyncFrame(world.store, ops[..k], key);
      } else {
        var i :| 0 <= i < k && ops[..k][i].key == key;
        assert ops[..k][i] == ops[i];
      }
    }
  }

  predicate StoreWellOwned(c: Store) {
    forall k :: k in c.objects ==> WellOwned(c.objects[k].owners)
  }

  lemma {:induction false} SyncKeepsWellOwned(c: Store, ops: seq<Op>)
    requires StoreWellOwned(c)
    ensures StoreWellOwned(Sync(c, ops).store)
    decreases |ops|
  {
    if ops == [] {
    } else if ApplyOp(c, ops[0]).Ok? {
      if ops[0].Ensure? {
        var owners := if ops[0].key in c.objects then c.objects[ops[0].key].owners else [];
        UpsertKeepsWellOwned(owners, ops[0].mutation.owner);
      }
      SyncKeepsWellOwned(ApplyOp(c, ops[0]).value, ops[1..]);
    }
  }

  /** Steps of a run in which several Workspaces and users share the cluster. */
  datatype Event =
    | Reconciled(name: string, version: string, istio: bool, attempt: Attempt)
    | UserWrote(key: Key, o: Object)
    | UserDeleted(key: Key)

  function Played(world: World, event: Event): World {
    match event
    case Reconciled(name, version, istio, a) =>
      if name in world.workspaces
      then ReconcileWorkspace(world.(faults := a.faults), name, version, istio, a.atStatus, a.now).world else world
    case UserWrote(key, o) =>
      if WellOwned(o.owners) then world.(store := world.store.(objects := world.store.objects[key := o])) else world
    case UserDeleted(key) => world.(store := world.store.(objects := world.store.objects - {key}))
  }

  function Play(world: World, events: seq<Event>): World
    decreases |events|
  {
    if events == [] then world else Play(Played(world, events[0]), events[1..])
  }

  /** Over every run, no object (so no namespace) ever has two controllers. */
  lemma {:induction false} NeverTwoControllers(world: World, events: seq<Event>)
    requires WellStored(world) && StoreWellOwned(world.store)
    ensures WellStored(Play(world, events)) && StoreWellOwned(Play(world, events).store)
    decreases |events|
  {
    if events == [] {
    } else {
      match events[0] {
        case Reconciled(name, version, istio, a) =>
          if name in world.workspaces {
            var k := ReconcileIsPrefix(world.(faults := a.faults), name, version, istio, a.atStatus, a.now);
            SyncKeepsWellOwned(world.store, Ops(world.workspaces[name], version, istio)[..k]);
          }
        case _ =>
      }
      NeverTwoControllers(Played(world, events[0]), events[1..]);
    }
  }

  /** Some policy guards the namespace of w. */
  predicate Covered(c: Store, w: Workspace) {
    Key(NetworkPolicyKind, w.spec.namespace, NETWORK_POLICY) in c.objects
    || Key(AuthorizationPolicyKind, w.spec.namespace, AUTHORIZATION_POLICY) in c.objects
  }

  lemma PolicyKeysBefore(c: Store, w: Workspace, version: string, istio: bool, k: nat)
    requires k <= 9 && Sync(c, Ops(w, version, istio)[..k]).err.None?
    ensures var d := Sync(c, Ops(w, version, istio)[..k]).store;
      var ops := Ops(w, version, istio);
      (k <= 6 ==> ObjectAt(d, ops[6].key) == ObjectAt(c, ops[6].key))
      && (k <= 8 ==> ObjectAt(d, ops[8].key) == ObjectAt(c, ops[8].key))
      && (forall i :: 0 <= i < k ==> Settled(d, ops[i]))
  {
    var ops := Ops(w, version, istio);
    OpsOwnDistinctKeys(w, version, istio);
    SyncSettles(c, ops[..k]);
    forall i | 0 <= i < k ensures Settled(Sync(c, ops[..k]).store, ops[i]) {
      assert ops[..k][i] == ops[i];
    }
    if k <= 6 { SyncFrame(c, ops[..k], ops[6].key); }
    if k <= 8 { SyncFrame(c, ops[..k], ops[8].key); }
  }

  /** The NetworkPolicy and neither Istio policy. */
  predicate OnlyNetworkPolicy(c: Store, w: Workspace) {
    Key(NetworkPolicyKind, w.spec.namespace, NETWORK_POLICY) in c.objects
    && Key(PeerAuthenticationKind, w.spec.namespace, PEER_AUTHENTICATION) !in c.objects
    && Key(AuthorizationPolicyKind, w.spec.namespace, AUTHORIZATION_POLICY) !in c.objects
  }

  function Attempted(world: World, name: string, version: string, istio: bool, a: Attempt): Ran {
    ReconcileWorkspace(world.(faults := a.faults), name, version, istio, a.atStatus, a.now)
  }

  /**
   * When the detector turns off, coverage survives every call of every attempt, and the first attempt that succeeds
   * ends with the NetworkPolicy and nothing of Istio.
   */
  lemma SwitchFromIstio(world: World, name: string, version: string, attempts: seq<Attempt>, last: Attempt)
    requires WellStored(world) && name in world.workspaces
    requires world.workspaces[name].spec.networkIsolation.enabled && Covered(world.store, world.workspaces[name])
    ensures var cut := Attempts(world, name, version, false, attempts);
      var r := Attempted(cut, name, version, false, last);
      Covered(cut.store, world.workspaces[name]) && Covered(r.world.store, world.workspaces[name])
      && (r.err.None? && !ForeignNamespace(cut.store, world.workspaces[name]) ==>
            OnlyNetworkPolicy(r.world.store, world.workspaces[name]))
  {
    var w := world.workspaces[name];
    var cut := Attempts(world, name, version, false, attempts);
    SwitchFromIstioKeepsCover(world, name, version, attempts);
    AttemptsResume(world, name, version, false, attempts);
    SwitchFromIstioKeepsCover(cut, name, version, [last]);
    assert [last][1..] == [];
    assert Attempts(cut, name, version, false, [last]) == Attempted(cut, name, version, false, last).world;
    if Attempted(cut, name, version, false, last).err.None? && !ForeignNamespace(cut.store, w) {
      SuccessProvisions(cut.(faults := last.faults), name, version, false, last.atStatus, last.now);
    }
  }

  /** When the detector turns off, coverage survives every call of every attempt. */
  lemma {:induction false} SwitchFromIstioKeepsCover(world: World, name: string, version: string,
                                                     attempts: seq<Attempt>)
    requires WellStored(world) && name in world.workspaces
    requires world.workspaces[name].spec.networkIsolation.enabled && Covered(world.store, world.workspaces[name])
    ensures Covered(Attempts(world, name, version, false, attempts).store, world.workspaces[name])
    ensures forall k :: 0 <= k <= 9 && Sync(world.store, Ops(world.workspaces[name], version, false)[..k]).err.None? ==>
      Covered(Sync(world.store, Ops(world.workspaces[name], version, false)[..k]).store, world.workspaces[name])
    decreases |attempts|
  {
    var w := world.workspaces[name];
    OpsInOrder(w, version, false);
    forall k | 0 <= k <= 9 && Sync(world.store, Ops(w, version, false)[..k]).err.None?
      ensures Covered(Sync(world.store, Ops(w, version, false)[..k]).store, w)
    {
      PolicyKeysBefore(world.store, w, version, false, k);
      AuthorizationKeyOff(w, version);
    }
    if attempts == [] {
    } else {
      var a := attempts[0];
      var k := ReconcileIsPrefix(world.(faults := a.faults), name, version, false, a.atStatus, a.now);
      SwitchFromIstioKeepsCover(
        ReconcileWorkspace(world.(faults := a.faults), name, version, false, a.atStatus, a.now).world,
        name, version, attempts[1..]);
    }
  }

  lemma AuthorizationKeyOff(w: Workspace, version: string)
    requires w.spec.networkIsolation.enabled
    ensures NetworkPolicyOp(w, version, false).Ensure? && AuthorizationPolicyOp(w, version, false).Remove?
    ensures NetworkPolicyOp(w, version, false).key == Key(NetworkPolicyKind, w.spec.namespace, NETWORK_POLICY)
    ensures AuthorizationPolicyOp(w, version, false).key
        == Key(AuthorizationPolicyKind, w.spec.namespace, AUTHORIZATION_POLICY)
  {
  }

  /**
   * The other way the NetworkPolicy goes first: coverage is continuous exactly when the Istio policy was already
   * there.
   */
  lemma SwitchToIstioGap(c: Store, w: Workspace, version: string)
    requires w.spec.networkIsolation.enabled && Covered(c, w) && Sync(c, Ops(w, version, true)).err.None?
    ensures (forall k :: 0 <= k <= 9 ==> Covered(Sync(c, Ops(w, version, true)[..k]).store, w))
       <==> Key(AuthorizationPolicyKind, w.spec.namespace, AUTHORIZATION_POLICY) in c.objects
  {
    var ops := Ops(w, version, true);
    OpsInOrder(w, version, true);
    forall k | 0 <= k <= 9 ensures Sync(c, ops[..k]).err.None? {
      assert ops == ops[..k] + ops[k..];
      SyncAppend(c, ops[..k], ops[k..]);
    }
    PolicyKeysBefore(c, w, version, true, 7);
    assert Settled(Sync(c, ops[..7]).store, ops[6]);
    forall k | 0 <= k <= 9 && Key(AuthorizationPolicyKind, w.spec.namespace, AUTHORIZATION_POLICY) in c.objects
      ensures Covered(Sync(c, ops[..k]).store, w)
    {
      PolicyKeysBefore(c, w, version, true, k);
    }
  }

  /** Workspaces with distinct namespaces do not interfere: their syncs commute, errors included. */
  lemma DistinctNamespacesCommute(c: Store, v: Workspace, w: Workspace, version: string, istioV: bool, istioW: bool)
    requires v.spec.namespace != w.spec.namespace && v.spec.namespace != "" && w.spec.namespace != ""
    ensures var a, b := Ops(v, version, istioV), Ops(w, version, istioW);
      Sync(Sync(c, a).store, b).store == Sync(Sync(c, b).store, a).store
      && Sync(Sync(c, a).store, b).err == Sync(c, b).err && Sync(Sync(c, b).store, a).err == Sync(c, a).err
  {
    var a, b := Ops(v, version, istioV), Ops(w, version, istioW);
    OpsOwnDistinctKeys(v, version, istioV);
    OpsOwnDistinctKeys(w, version, istioW);
    forall i, j | 0 <= i < |a| && 0 <= j < |b| ensures Apart(a[i], b[j]) {
      assert i == 0 ==> a[i].key == NamespaceKey(v.spec.namespace);
      assert j == 0 ==> b[j].key == NamespaceKey(w.spec.namespace);
    }
    IndependentRunsCommute(c, a, b);
  }
}
