/** The Workspace reconciler (internal/controller/tenant/workspace_controller.go) and the Istio detector. */
module WorkspaceController {
  import opened Prelude
  import opened Metadata
  import opened Conditions
  import opened Objects
  import opened Cluster
  import opened Api
  import opened Server
  import opened OpRuns
  import opened WorkspaceNamespace
  import opened Rbac
  import opened ResourceConstraints
  import opened NetworkIsolation

  /** Everything one reconcile does to the children, in order. */
  function Ops(w: Workspace, version: string, istio: bool): seq<Op> {
    [NamespaceOp(w, version, istio)] + BindingOps(w, version) + [QuotaOp(w, version), LimitOp(w, version)]
    + NetworkOps(w, version, istio)
  }

  predicate RoleInUse(spec: WorkspaceSpec, role: Role) {
    exists i :: 0 <= i < |spec.members| && spec.members[i].role == role
  }

  function RefOf(w: Workspace, role: Role): seq<Ref> {
    if RoleInUse(w.spec, role) then [Ref(BindingKey(w.spec.namespace, role).name, w.spec.namespace)] else []
  }

  function RefsInUse(w: Workspace, roles: seq<Role>): seq<Ref> {
    if roles == [] then [] else RefOf(w, roles[0]) + RefsInUse(w, roles[1..])
  }

  lemma {:induction false} RefsAppend(w: Workspace, roles: seq<Role>, role: Role)
    ensures RefsInUse(w, roles + [role]) == RefsInUse(w, roles) + RefOf(w, role)
  {
    if roles == [] {
      assert [role][1..] == [];
    } else {
      assert (roles + [role])[0] == roles[0] && (roles + [role])[1..] == roles[1..] + [role];
      RefsAppend(w, roles[1..], role);
    }
  }

  function ReadyCondition(w: Workspace): Condition {
    Condition(READY, True, "Reconciled", "Workspace resources are successfully reconciled", w.generation, 0)
  }

  /** The status published after a successful sync, given the detector as read at that moment. */
  function NextStatus(w: Workspace, istio: bool, now: nat): WorkspaceStatus {
    var ns := w.spec.namespace;
    var enabled := w.spec.networkIsolation.enabled;
    WorkspaceStatus(
      w.generation,
      Some(Ref(ns, "")),
      RefsInUse(w, ROLES),
      if w.spec.resourceQuota.Some? then Some(Ref(RESOURCE_QUOTA, ns)) else None,
      if w.spec.limitRange.Some? then Some(Ref(LIMIT_RANGE, ns)) else None,
      if enabled && !istio then Some(Ref(NETWORK_POLICY, ns)) else None,
      if enabled && istio then Some(Ref(PEER_AUTHENTICATION, ns)) else None,
      if enabled && istio then Some(Ref(AUTHORIZATION_POLICY, ns)) else None,
      Publish(w.status.conditions, ReadyCondition(w), now))
  }

  function ReasonFor(e: Error): string {
    if e.NamespaceConflict? then "NamespaceConflict" else "ReconcileError"
  }

  function FailedStatus(w: Workspace, e: Error, now: nat): WorkspaceStatus {
    var failed := Condition(READY, False, ReasonFor(e), ReasonFor(e), w.generation, 0);
    w.status.(observedGeneration := w.generation,
              conditions := SetStatusCondition(w.status.conditions, failed, now))
  }

  /** One Reconcile as a function; `istio` and `istioAtStatus` are its two reads of the detector. */
  function ReconcileWorkspace(world: World, name: string, version: string, istio: bool, istioAtStatus: bool, now: nat)
    : Ran
  {
    var fetched := Tick(world);
    if Head(world.faults) != Healthy then Ran(fetched, Some(Transient))
    else if name !in world.workspaces then Ran(fetched, None)
    else
      var w := world.workspaces[name];
      SyncThenReport(fetched, w, Ops(w, version, istio), istioAtStatus, now)
  }

  function SyncThenReport(world: World, w: Workspace, ops: seq<Op>, istioAtStatus: bool, now: nat): Ran {
    var synced := RunOps(world, ops);
    match synced.err
    case Some(e) => HandleReconcileError(synced.world, w, e, now)
    case None => UpdateStatus(synced.world, w, istioAtStatus, now)
  }

  /** A conflict is swallowed, anything else is returned for a retry; a failing status patch is dropped. */
  function HandleReconcileError(world: World, w: Workspace, e: Error, now: nat): Ran {
    Ran(PatchWorkspaceStatus(world, w.name, w.status, FailedStatus(w, e, now)).world,
        if e.NamespaceConflict? then None else Some(e))
  }

  function UpdateStatus(world: World, w: Workspace, istio: bool, now: nat): Ran {
    var next := NextStatus(w, istio, now);
    if next == w.status then Ran(world, None) else PatchWorkspaceStatus(world, w.name, w.status, next)
  }

  /** The rest of a run, from wherever it has come to, begins with the next sub-step. */
  lemma OpsFollow(world: World, w: Workspace, version: string, istio: bool)
    ensures var ops := Ops(w, version, istio);
      |ops| == 9
      && RunOps(world, ops) == Then(Perform(world, NamespaceOp(w, version, istio)), ops[1..])
      && RunOps(world, ops[1..]) == Then(RunOps(world, BindingOps(w, version)), ops[4..])
      && RunOps(world, ops[4..]) == Then(Perform(world, QuotaOp(w, version)), ops[5..])
      && RunOps(world, ops[5..]) == Then(Perform(world, LimitOp(w, version)), ops[6..])
      && ops[6..] == NetworkOps(w, version, istio)
  {
    var ops := Ops(w, version, istio);
    assert ops[1..] == BindingOps(w, version) + ops[4..];
    RunOpsAppend(world, BindingOps(w, version), ops[4..]);
    assert ops[4..][0] == QuotaOp(w, version) && ops[4..][1..] == ops[5..];
    assert ops[5..][0] == LimitOp(w, version) && ops[5..][1..] == ops[6..];
  }

  function Then(first: Ran, ops: seq<Op>): Ran {
    if first.err.Some? then first else RunOps(first.world, ops)
  }

  class IstioDetector {
    const connected: bool
    var enabled: bool

    constructor (connected: bool, supported: bool, definitive: bool)
      ensures this.connected == connected && enabled == (connected && definitive && supported)
    {
      this.connected := connected;
      enabled := false;
      new;
      Refresh(supported, definitive);
    }

    method IsEnabled() returns (r: bool)
      ensures r == enabled
    {
      r := enabled;
    }

    /** `supported` and `definitive` are what discovery answers. */
    method Refresh(supported: bool, definitive: bool)
      modifies this
      ensures enabled == if connected && definitive then supported else old(enabled)
    {
      if !connected {
        return;
      }
      if definitive {
        enabled := supported;
      }
    }
  }

  /** What discovery answers to one refresh. */
  datatype Answer = Answer(supported: bool, definitive: bool)

  class WorkspaceReconciler {
    const server: ApiServer
    const version: string
    const detector: IstioDetector

    constructor (server: ApiServer, version: string, detector: IstioDetector)
      ensures this.server == server && this.version == version && this.detector == detector
    {
      this.server := server;
      this.version := version;
      this.detector := detector;
    }

    /** The flag once the handler has refreshed the detector, if it has. */
    ghost function FlagAfter(between: Option<Answer>): bool
      reads detector
    {
      if between.Some? && detector.connected && between.value.definitive then between.value.supported
      else detector.enabled
    }

    /** `between` stands for the CRD handler: the refresh, if any, that falls between the two reads of the detector. */
    method Reconcile(name: string, now: nat, between: Option<Answer>) returns (err: Option<Error>)
      requires server.Valid() && forall n :: n in server.workspaces ==> server.workspaces[n].name == n
      modifies server`faults, server`objects, server`workspaces, detector
      ensures server.Valid()
      ensures detector.enabled in {old(detector.enabled), old(FlagAfter(between))}
      ensures Ran(server.Snapshot(), err) ==
              ReconcileWorkspace(old(server.Snapshot()), name, version, old(detector.enabled), old(FlagAfter(between)),
                                 now)
    {
      var got := server.GetWorkspace(name);
      if got.Err? {
        return if got.error == NotFound then None else Some(got.error);
      }
      var failure := ReconcileResources(got.value);
      if failure.Some? {
        err := HandleError(got.value, failure.value, now);
        return;
      }
      if between.Some? {
        detector.Refresh(between.value.supported, between.value.definitive);
      }
      err := PublishStatus(got.value, now);
    }

    method ReconcileResources(w: Workspace) returns (err: Option<Error>)
      requires server.Valid()
      modifies server`faults, server`objects
      ensures server.Valid()
      ensures Ran(server.Snapshot(), err) == RunOps(old(server.Snapshot()), Ops(w, version, detector.enabled))
    {
      var istioEnabled := detector.IsEnabled();
      OpsFollow(server.Snapshot(), w, version, istioEnabled);
      err := ReconcileNamespace(server, w, version, istioEnabled);
      if err.Some? { return; }
      OpsFollow(server.Snapshot(), w, version, istioEnabled);
      err := ReconcileRoleBindings(server, w, version);
      if err.Some? { return; }
      OpsFollow(server.Snapshot(), w, version, istioEnabled);
      err := ReconcileResourceQuota(server, w, version);
      if err.Some? { return; }
      OpsFollow(server.Snapshot(), w, version, istioEnabled);
      err := ReconcileLimitRange(server, w, version);
      if err.Some? { return; }
      err := NetworkIsolation.ReconcileNetworkIsolation(server, w, version, istioEnabled);
    }

    method HandleError(w: Workspace, e: Error, now: nat) returns (err: Option<Error>)
      modifies server`faults, server`workspaces
      ensures Ran(server.Snapshot(), err) == HandleReconcileError(old(server.Snapshot()), w, e, now)
    {
      if e.NamespaceConflict? {
        SetReadyConditionFalse(w, "NamespaceConflict", now);
        return None;
      }
      SetReadyConditionFalse(w, "ReconcileError", now);
      err := Some(e);
    }

    method SetReadyConditionFalse(w: Workspace, reason: string, now: nat)
      modifies server`faults, server`workspaces
      ensures server.Snapshot() == PatchWorkspaceStatus(old(server.Snapshot()), w.name, w.status,
                w.status.(observedGeneration := w.generation,
                          conditions := SetStatusCondition(w.status.conditions,
                            Condition(READY, False, reason, reason, w.generation, 0), now))).world
    {
      var status := w.status;
      status := status.(conditions := SetStatusCondition(status.conditions,
                          Condition(READY, False, reason, reason, w.generation, 0), now));
      status := status.(observedGeneration := w.generation);
      var _ := server.UpdateWorkspaceStatus(w.name, w.status, status);
    }

    method RolesInUse(w: Workspace) returns (rolesInUse: map<Role, bool>)
      ensures forall role :: role in rolesInUse <==> RoleInUse(w.spec, role)
    {
      rolesInUse := map[];
      for i := 0 to |w.spec.members|
        invariant forall role :: role in rolesInUse <==> exists j :: 0 <= j < i && w.spec.members[j].role == role
      {
        rolesInUse := rolesInUse[w.spec.members[i].role := true];
      }
    }

    method BindingRefs(w: Workspace) returns (refs: seq<Ref>)
      ensures refs == RefsInUse(w, ROLES)
    {
      var rolesInUse := RolesInUse(w);
      var orderedRoles := ROLES;
      refs := [];
      for i := 0 to |orderedRoles|
        invariant refs == RefsInUse(w, orderedRoles[..i])
      {
        var role := orderedRoles[i];
        assert orderedRoles[..i + 1] == orderedRoles[..i] + [role];
        RefsAppend(w, orderedRoles[..i], role);
        if role in rolesInUse {
          refs := refs + [Ref(BindingKey(w.spec.namespace, role).name, w.spec.namespace)];
        }
      }
      assert orderedRoles[..|orderedRoles|] == ROLES;
    }

    method PublishStatus(w: Workspace, now: nat) returns (err: Option<Error>)
      modifies server`faults, server`workspaces
      ensures Ran(server.Snapshot(), err) == UpdateStatus(old(server.Snapshot()), w, detector.enabled, now)
    {
      var status := w.status.(observedGeneration := w.generation, namespaceRef := Some(Ref(w.spec.namespace, "")));
      var refs := BindingRefs(w);
      status := status.(roleBindingRefs := refs);
      status := status.(resourceQuotaRef :=
        if w.spec.resourceQuota.Some? then Some(Ref(RESOURCE_QUOTA, w.spec.namespace)) else None);
      status := status.(limitRangeRef :=
        if w.spec.limitRange.Some? then Some(Ref(LIMIT_RANGE, w.spec.namespace)) else None);
      status := status.(networkPolicyRef := None, peerAuthenticationRef := None, authorizationPolicyRef := None);
      if w.spec.networkIsolation.enabled {
        var istioEnabled := detector.IsEnabled();
        if istioEnabled {
          status := status.(peerAuthenticationRef := Some(Ref(PEER_AUTHENTICATION, w.spec.namespace)),
                            authorizationPolicyRef := Some(Ref(AUTHORIZATION_POLICY, w.spec.namespace)));
        } else {
          status := status.(networkPolicyRef := Some(Ref(NETWORK_POLICY, w.spec.namespace)));
        }
      }
      var ready :=
          Condition(READY, True, "Reconciled", "Workspace resources are successfully reconciled", w.generation, 0);
      status := status.(conditions := SortByType(SetStatusCondition(status.conditions, ready, now)));
      if status != w.status {
        err := server.UpdateWorkspaceStatus(w.name, w.status, status);
      } else {
        err := None;
      }
    }

    /** Refreshes the detector and asks for every listed Workspace, or for none when the list fails. */
    method MapCrdToWorkspaces(supported: bool, definitive: bool, listed: Result<seq<Workspace>, Error>)
      returns (requests: seq<string>)
      modifies detector
      ensures detector.enabled == if detector.connected && definitive then supported else old(detector.enabled)
      ensures listed.Err? ==> requests == []
      ensures listed.Ok? ==> |requests| == |listed.value|
                             && forall i :: 0 <= i < |requests| ==> requests[i] == listed.value[i].name
    {
      detector.Refresh(supported, definitive);
      requests := [];
      if listed.Err? {
        return;
      }
      for i := 0 to |listed.value|
        invariant |requests| == i && forall j :: 0 <= j < i ==> requests[j] == listed.value[j].name
      {
        requests := requests + [listed.value[i].name];
      }
    }
  }

  /** A child that is exactly what w wants: labels, payload and controller. */
  predicate ChildIs(c: Store, key: Key, w: Workspace, version: string, payload: Payload) {
    key in c.objects && c.objects[key].labels == LabelsForWorkspace(w.name, version)
    && c.objects[key].payload == payload && OwnersSettled(c.objects[key].owners, OwnerOfWorkspace(w))
  }

  predicate NamespaceReady(c: Store, w: Workspace, version: string, istio: bool) {
    var key := NamespaceKey(w.spec.namespace);
    var std := LabelsForWorkspace(w.name, version);
    key in c.objects && c.objects[key].payload == NamespaceObject
    && OwnersSettled(c.objects[key].owners, OwnerOfWorkspace(w))
    && (forall l :: l in std ==> l in c.objects[key].labels && c.objects[key].labels[l] == std[l])
    && (if istio then ISTIO_INJECTION in c.objects[key].labels && c.objects[key].labels[ISTIO_INJECTION] == "enabled"
        else ISTIO_INJECTION !in c.objects[key].labels)
  }

  predicate ChildIff(wanted: bool, c: Store, key: Key, w: Workspace, version: string, payload: Payload) {
    if wanted then ChildIs(c, key, w, version, payload) && Serves(c, key.kind) else key !in c.objects
  }

  function BindingFor(w: Workspace, role: Role): Payload {
    RoleBinding("ClusterRole", RBAC_GROUP, RoleName(role), SubjectsOf(MembersOf(w.spec.members, role)))
  }

  predicate BindingIff(c: Store, w: Workspace, version: string, role: Role) {
    ChildIff(RoleInUse(w.spec, role), c, BindingKey(w.spec.namespace, role), w, version, BindingFor(w, role))
  }

  predicate QuotaIff(c: Store, w: Workspace, version: string) {
    var quota := w.spec.resourceQuota;
    ChildIff(quota.Some?, c, Key(ResourceQuotaKind, w.spec.namespace, RESOURCE_QUOTA), w, version,
             ResourceQuota(if quota.Some? then quota.value else ""))
  }

  predicate LimitIff(c: Store, w: Workspace, version: string) {
    var limits := w.spec.limitRange;
    ChildIff(limits.Some?, c, Key(LimitRangeKind, w.spec.namespace, LIMIT_RANGE), w, version,
             LimitRange(if limits.Some? then limits.value else ""))
  }

  predicate NetworkPolicyIff(c: Store, w: Workspace, version: string, istio: bool) {
    ChildIff(w.spec.networkIsolation.enabled && !istio, c, Key(NetworkPolicyKind, w.spec.namespace, NETWORK_POLICY),
             w, version, NetworkPolicyFor(w.spec))
  }

  predicate PeerAuthenticationIff(c: Store, w: Workspace, version: string, istio: bool) {
    ChildIff(w.spec.networkIsolation.enabled && istio, c,
             Key(PeerAuthenticationKind, w.spec.namespace, PEER_AUTHENTICATION), w, version,
                 PeerAuthentication(map[], STRICT))
  }

  predicate AuthorizationPolicyIff(c: Store, w: Workspace, version: string, istio: bool) {
    ChildIff(w.spec.networkIsolation.enabled && istio, c,
             Key(AuthorizationPolicyKind, w.spec.namespace, AUTHORIZATION_POLICY), w, version,
                 AuthorizationPolicyFor(w.spec))
  }

  /** What a provisioned Workspace looks like, key by key, without reference to how it is written. */
  predicate Provisioned(c: Store, w: Workspace, version: string, istio: bool) {
    NamespaceReady(c, w, version, istio)
    && (forall role: Role :: BindingIff(c, w, version, role))
    && QuotaIff(c, w, version) && LimitIff(c, w, version)
    && NetworkPolicyIff(c, w, version, istio)
    && PeerAuthenticationIff(c, w, version, istio)
    && AuthorizationPolicyIff(c, w, version, istio)
  }

  lemma ChildSettled(c: Store, key: Key, w: Workspace, version: string, payload: Payload)
    ensures Settled(c, Ensure(key, ChildMutation(OwnerOfWorkspace(w), LabelsForWorkspace(w.name, version), payload)))
       <==> ChildIs(c, key, w, version, payload) && Serves(c, key.kind)
  {
    if key in c.objects {
      SettledIsFixedPoint(c.objects[key].owners, OwnerOfWorkspace(w));
    }
  }

  lemma NamespaceSettled(c: Store, w: Workspace, version: string, istio: bool)
    ensures Settled(c, NamespaceOp(w, version, istio)) <==> NamespaceReady(c, w, version, istio)
  {
    var key := NamespaceKey(w.spec.namespace);
    var std := LabelsForWorkspace(w.name, version);
    InjectionLabelIsFree(w.name, version);
    if key in c.objects {
      var o := c.objects[key];
      SettledIsFixedPoint(o.owners, OwnerOfWorkspace(w));
      var l := NamespaceLabels(o.labels, std, istio);
      if l == o.labels {
        assert forall k :: k in std ==> k in l && l[k] == std[k];
      }
      if NamespaceReady(c, w, version, istio) {
        assert l == o.labels;
      }
    }
  }

  lemma InjectionLabelIsFree(name: string, version: string)
    ensures ISTIO_INJECTION !in LabelsForWorkspace(name, version)
  {
    assert |ISTIO_INJECTION| == 15 && |INSTANCE| == 26 && |COMPONENT| == 27 && |PART_OF| == 25;
    assert |MANAGED_BY| == 28 && |VERSION| == 25;
  }

  lemma RoleInUseIffMembers(spec: WorkspaceSpec, role: Role)
    ensures RoleInUse(spec, role) <==> MembersOf(spec.members, role) != []
  {
    if RoleInUse(spec, role) {
      var i :| 0 <= i < |spec.members| && spec.members[i].role == role;
      GroupHoldsItsRole(spec.members, role, spec.members[i]);
    }
    if MembersOf(spec.members, role) != [] {
      GroupHoldsItsRole(spec.members, role, MembersOf(spec.members, role)[0]);
    }
  }

  lemma BindingSettled(c: Store, w: Workspace, version: string, role: Role)
    ensures Settled(c, BindingOp(w, version, role)) <==> BindingIff(c, w, version, role)
  {
    RoleInUseIffMembers(w.spec, role);
    ChildSettled(c, BindingKey(w.spec.namespace, role), w, version, BindingFor(w, role));
  }

  lemma ConstraintsSettled(c: Store, w: Workspace, version: string)
    ensures Settled(c, QuotaOp(w, version)) <==> QuotaIff(c, w, version)
    ensures Settled(c, LimitOp(w, version)) <==> LimitIff(c, w, version)
  {
    if w.spec.resourceQuota.Some? {
      ChildSettled(c, QuotaOp(w, version).key, w, version, ResourceQuota(w.spec.resourceQuota.value));
    }
    if w.spec.limitRange.Some? {
      ChildSettled(c, LimitOp(w, version).key, w, version, LimitRange(w.spec.limitRange.value));
    }
  }

  lemma NetworkSettled(c: Store, w: Workspace, version: string, istio: bool)
    ensures Settled(c, NetworkPolicyOp(w, version, istio)) <==> NetworkPolicyIff(c, w, version, istio)
    ensures Settled(c, PeerAuthenticationOp(w, version, istio)) <==> PeerAuthenticationIff(c, w, version, istio)
    ensures Settled(c, AuthorizationPolicyOp(w, version, istio)) <==> AuthorizationPolicyIff(c, w, version, istio)
  {
    ChildSettled(c, NetworkPolicyOp(w, version, istio).key, w, version, NetworkPolicyFor(w.spec));
    ChildSettled(c, PeerAuthenticationOp(w, version, istio).key, w, version, PeerAuthentication(map[], STRICT));
    ChildSettled(c, AuthorizationPolicyOp(w, version, istio).key, w, version, AuthorizationPolicyFor(w.spec));
  }

  lemma AllSettledUnfolds(c: Store, ops: seq<Op>)
    requires |ops| == 9
    ensures AllSettled(c, ops) <==>
      Settled(c, ops[0]) && Settled(c, ops[1]) && Settled(c, ops[2]) && Settled(c, ops[3]) && Settled(c, ops[4])
      && Settled(c, ops[5]) && Settled(c, ops[6]) && Settled(c, ops[7]) && Settled(c, ops[8])
  {
  }

  /** All nine operations are settled exactly when the Workspace is provisioned. */
  lemma SettledIffProvisioned(c: Store, w: Workspace, version: string, istio: bool)
    ensures AllSettled(c, Ops(w, version, istio)) <==> Provisioned(c, w, version, istio)
  {
    OpsInOrder(w, version, istio);
    AllSettledUnfolds(c, Ops(w, version, istio));
    NamespaceSettled(c, w, version, istio);
    BindingSettled(c, w, version, Admin);
    BindingSettled(c, w, version, Edit);
    BindingSettled(c, w, version, View);
    ConstraintsSettled(c, w, version);
    NetworkSettled(c, w, version, istio);
    assert (forall role: Role :: BindingIff(c, w, version, role)) <==>
      BindingIff(c, w, version, Admin) && BindingIff(c, w, version, Edit) && BindingIff(c, w, version, View) by {
      forall role: Role
        ensures BindingIff(c, w, version, Admin) && BindingIff(c, w, version, Edit) && BindingIff(c, w, version, View)
          ==> BindingIff(c, w, version, role)
      {
        assert role == Admin || role == Edit || role == View;
      }
    }
  }

  lemma OpsInOrder(w: Workspace, version: string, istio: bool)
    ensures var ops := Ops(w, version, istio);
      |ops| == 9 && ops[0] == NamespaceOp(w, version, istio)
      && ops[1] == BindingOp(w, version, Admin) && ops[2] == BindingOp(w, version, Edit)
            && ops[3] == BindingOp(w, version, View)
      && ops[4] == QuotaOp(w, version) && ops[5] == LimitOp(w, version)
      && ops[6] == NetworkPolicyOp(w, version, istio) && ops[7] == PeerAuthenticationOp(w, version, istio)
      && ops[8] == AuthorizationPolicyOp(w, version, istio)
  {
  }

  /** The kinds of the nine keys, in the order they are written. */
  const KINDS := [NamespaceKind, RoleBindingKind, RoleBindingKind, RoleBindingKind, ResourceQuotaKind, LimitRangeKind,
                  NetworkPolicyKind, PeerAuthenticationKind, AuthorizationPolicyKind]

  lemma OpShape(w: Workspace, version: string, istio: bool, i: nat)
    requires i < 9
    ensures |Ops(w, version, istio)| == 9
    ensures var op := Ops(w, version, istio)[i];
      op.key.kind == KINDS[i] && op.key.namespace == (if i == 0 then "" else w.spec.namespace)
      && (op.Ensure? ==> op.mutation.owner == OwnerOfWorkspace(w))
  {
    OpsInOrder(w, version, istio);
  }

  lemma KindsMeetAtRoles(i: nat, j: nat)
    requires i < j < 9 && KINDS[i] == KINDS[j]
    ensures 1 <= i < j <= 3
  {
  }

  lemma KeysDiffer(w: Workspace, version: string, istio: bool, i: nat, j: nat)
    requires i < j < 9
    ensures |Ops(w, version, istio)| == 9
    ensures Ops(w, version, istio)[i].key != Ops(w, version, istio)[j].key
  {
    OpShape(w, version, istio, i);
    OpShape(w, version, istio, j);
    if KINDS[i] == KINDS[j] {
      KindsMeetAtRoles(i, j);
      OpsInOrder(w, version, istio);
      RoleKeysDistinct(w.spec.namespace);
    }
  }

  /** The names of the nine keys: the namespace as the spec names it, then fixed names inside it. */
  lemma ChildNames(w: Workspace, version: string, istio: bool, i: nat)
    requires i < 9
    ensures |Ops(w, version, istio)| == 9
    ensures Ops(w, version, istio)[i].key.name ==
      [w.spec.namespace, "workspace-role-binding-admin", "workspace-role-binding-edit", "workspace-role-binding-view",
       "workspace-resource-quota", "workspace-limit-range", "workspace-network-policy", "workspace-peer-authentication",
       "workspace-authorization-policy"][i]
  {
    OpsInOrder(w, version, istio);
    assert ROLE_BINDING + "-" + "admin" == "workspace-role-binding-admin";
    assert ROLE_BINDING + "-" + "edit" == "workspace-role-binding-edit";
    assert ROLE_BINDING + "-" + "view" == "workspace-role-binding-view";
  }

  /** Nine distinct keys: the namespace itself and eight names inside it, all owned by w when written. */
  lemma OpsOwnDistinctKeys(w: Workspace, version: string, istio: bool)
    ensures DistinctKeys(Ops(w, version, istio)) && |Ops(w, version, istio)| == 9
    ensures Ops(w, version, istio)[0] == NamespaceOp(w, version, istio)
    ensures forall i :: 0 < i < 9 ==>
      Ops(w, version, istio)[i].key.kind != NamespaceKind && Ops(w, version, istio)[i].key.namespace == w.spec.namespace
    ensures forall i :: 0 <= i < 9 && Ops(w, version, istio)[i].Ensure? ==>
      Ops(w, version, istio)[i].mutation.owner == OwnerOfWorkspace(w)
  {
    var ops := Ops(w, version, istio);
    OpsInOrder(w, version, istio);
    forall i, j | 0 <= i < j < |ops| ensures ops[i].key != ops[j].key {
      KeysDiffer(w, version, istio, i, j);
    }
    forall i | 0 <= i < 9
      ensures ops[i].key.kind == KINDS[i] && ops[i].key.namespace == (if i == 0 then "" else w.spec.namespace)
      ensures ops[i].Ensure? ==> ops[i].mutation.owner == OwnerOfWorkspace(w)
    {
      OpShape(w, version, istio, i);
    }
  }

  /** A canonical list whose one Ready reports this generation as reconciled. */
  predicate SameReady(a: seq<Condition>, w: Workspace) {
    Canonical(a) && Find(a, READY).Some? &&
    SameReport(Find(a, READY).value,
               Condition("Ready", True, "Reconciled", "Workspace resources are successfully reconciled",
                         w.generation, 0))
  }

  /** A ref names the object of `key` when that object is wanted, and is absent otherwise. */
  predicate RefIff(ref: Option<Ref>, wanted: bool, key: Key) {
    ref == if wanted then Some(Ref(key.name, key.namespace)) else None
  }

  /** The status refs and conditions say exactly what the spec and the detector ask for. */
  predicate StatusAgrees(status: WorkspaceStatus, w: Workspace, istio: bool) {
    var ns := w.spec.namespace;
    var isolated := w.spec.networkIsolation.enabled;
    status.observedGeneration == w.generation
    && RefIff(status.namespaceRef, true, NamespaceKey(ns))
    && status.roleBindingRefs == RefOf(w, Admin) + RefOf(w, Edit) + RefOf(w, View)
    && RefIff(status.resourceQuotaRef, w.spec.resourceQuota.Some?, Key(ResourceQuotaKind, ns, RESOURCE_QUOTA))
    && RefIff(status.limitRangeRef, w.spec.limitRange.Some?, Key(LimitRangeKind, ns, LIMIT_RANGE))
    && RefIff(status.networkPolicyRef, isolated && !istio, Key(NetworkPolicyKind, ns, NETWORK_POLICY))
    && RefIff(status.peerAuthenticationRef, isolated && istio, Key(PeerAuthenticationKind, ns, PEER_AUTHENTICATION))
    && RefIff(status.authorizationPolicyRef, isolated && istio, Key(AuthorizationPolicyKind, ns, AUTHORIZATION_POLICY))
    && SameReady(status.conditions, w)
  }

  /** The published status agrees, and publishing again would send nothing. */
  lemma NextStatusAgrees(w: Workspace, istio: bool, now: nat)
    requires UniqueTypes(w.status.conditions)
    ensures StatusAgrees(NextStatus(w, istio, now), w, istio)
    ensures UniqueTypes(NextStatus(w, istio, now).conditions)
  {
    RefsInOrder(w);
    PublishIsCanonical(w.status.conditions, ReadyCondition(w), now);
  }

  lemma AgreeingStatusIsKept(w: Workspace, istio: bool, now: nat)
    requires StatusAgrees(w.status, w, istio)
    ensures NextStatus(w, istio, now) == w.status
  {
    RefsInOrder(w);
    PublishFixedPoint(w.status.conditions, ReadyCondition(w), now);
  }

  lemma AgreementIgnoresStatus(w: Workspace, status: WorkspaceStatus, istio: bool)
    requires StatusAgrees(status, w, istio)
    ensures StatusAgrees(status, w.(status := status), istio)
  {
  }

  /** Binding refs: one per role in use, in admin, edit, view order. */
  lemma RefsInOrder(w: Workspace)
    ensures RefsInUse(w, ROLES) == RefOf(w, Admin) + RefOf(w, Edit) + RefOf(w, View)
  {
    assert ROLES[1..] == [Edit, View] && [Edit, View][1..] == [View] && [View][1..] == [];
    assert RefsInUse(w, [View]) == RefOf(w, View);
    assert RefsInUse(w, [Edit, View]) == RefOf(w, Edit) + RefOf(w, View);
  }

  /** In a provisioned Workspace an agreeing status references a binding exactly when it exists. */
  lemma RefsListLiveBindings(c: Store, w: Workspace, version: string, istio: bool, status: WorkspaceStatus, role: Role)
    requires Provisioned(c, w, version, istio) && StatusAgrees(status, w, istio)
    ensures Ref(BindingKey(w.spec.namespace, role).name, w.spec.namespace) in status.roleBindingRefs
       <==> BindingKey(w.spec.namespace, role) in c.objects
  {
    RoleKeysDistinct(w.spec.namespace);
    assert BindingIff(c, w, version, role);
    assert role == Admin || role == Edit || role == View;
  }

  predicate HasRole(members: seq<Member>, subject: string, role: Role) {
    exists i :: 0 <= i < |members| && members[i].subject == subject && members[i].role == role
  }

  /** The operator's binding for a cluster role names this user. */
  predicate Bound(c: Store, namespace: string, clusterRole: string, user: string) {
    var key := Key(RoleBindingKind, namespace, "workspace-role-binding-" + clusterRole);
    key in c.objects && c.objects[key].payload.RoleBinding? &&
    var binding := c.objects[key].payload;
    binding.roleKind == "ClusterRole" && binding.roleGroup == "rbac.authorization.k8s.io"
        && binding.roleName == clusterRole
    && Subject("User", "rbac.authorization.k8s.io", user) in binding.subjects
  }

  lemma BoundIffRole(c: Store, w: Workspace, version: string, role: Role, user: string)
    requires BindingIff(c, w, version, role)
    ensures Bound(c, w.spec.namespace, RoleName(role), user) <==> HasRole(w.spec.members, user, role)
  {
    var members := MembersOf(w.spec.members, role);
    assert "workspace-role-binding-" == ROLE_BINDING + "-";
    assert BindingKey(w.spec.namespace, role).name == "workspace-role-binding-" + RoleName(role);
    if HasRole(w.spec.members, user, role) {
      var i :| 0 <= i < |w.spec.members| && w.spec.members[i].subject == user && w.spec.members[i].role == role;
      GroupHoldsItsRole(w.spec.members, role, w.spec.members[i]);
      var j :| 0 <= j < |members| && members[j] == w.spec.members[i];
      assert SubjectsOf(members)[j] == Subject("User", RBAC_GROUP, user);
    }
    if Subject("User", RBAC_GROUP, user) in SubjectsOf(members) {
      var j :| 0 <= j < |members| && SubjectsOf(members)[j] == Subject("User", RBAC_GROUP, user);
      GroupHoldsItsRole(w.spec.members, role, members[j]);
    }
  }

  /** In a provisioned Workspace a user is bound to a cluster role exactly when the spec gives that user that role. */
  lemma MembersAreBound(c: Store, w: Workspace, version: string, istio: bool, user: string)
    requires Provisioned(c, w, version, istio)
    ensures Bound(c, w.spec.namespace, "admin", user) <==> HasRole(w.spec.members, user, Admin)
    ensures Bound(c, w.spec.namespace, "edit", user) <==> HasRole(w.spec.members, user, Edit)
    ensures Bound(c, w.spec.namespace, "view", user) <==> HasRole(w.spec.members, user, View)
  {
    BoundIffRole(c, w, version, Admin, user);
    BoundIffRole(c, w, version, Edit, user);
    BoundIffRole(c, w, version, View, user);
  }

  predicate RefIsLive(c: Store, ref: Option<Ref>, key: Key) {
    RefIff(ref, key in c.objects, key)
  }

  /** And every other ref names a live object, or is absent together with it. */
  lemma RefsNameLiveObjects(c: Store, w: Workspace, version: string, istio: bool, status: WorkspaceStatus)
    requires Provisioned(c, w, version, istio) && StatusAgrees(status, w, istio)
    ensures var ns := w.spec.namespace;
      RefIsLive(c, status.namespaceRef, NamespaceKey(ns))
      && RefIsLive(c, status.resourceQuotaRef, Key(ResourceQuotaKind, ns, RESOURCE_QUOTA))
      && RefIsLive(c, status.limitRangeRef, Key(LimitRangeKind, ns, LIMIT_RANGE))
      && RefIsLive(c, status.networkPolicyRef, Key(NetworkPolicyKind, ns, NETWORK_POLICY))
      && RefIsLive(c, status.peerAuthenticationRef, Key(PeerAuthenticationKind, ns, PEER_AUTHENTICATION))
      && RefIsLive(c, status.authorizationPolicyRef, Key(AuthorizationPolicyKind, ns, AUTHORIZATION_POLICY))
  {
  }

  /** What the operator's policies in a namespace, whichever are there, let through to a pod. */
  predicate PoliciesAdmit(c: Store, namespace: string, o: Origin, pod: Labels) {
    var network := Key(NetworkPolicyKind, namespace, "workspace-network-policy");
    var access := Key(AuthorizationPolicyKind, namespace, "workspace-authorization-policy");
    (network in c.objects && c.objects[network].payload.NetworkPolicy? ==>
       NetworkPolicyAdmits(namespace, c.objects[network].payload, o, pod))
    && (access in c.objects && c.objects[access].payload.AuthorizationPolicy? ==>
          AuthorizationPolicyAdmits(c.objects[access].payload, o, pod))
  }

  /** Some policy of the operator insists on mutual TLS. */
  predicate DemandsMutualTls(c: Store, namespace: string, pod: Labels) {
    var peer := Key(PeerAuthenticationKind, namespace, "workspace-peer-authentication");
    peer in c.objects && c.objects[peer].payload.PeerAuthentication? && !AcceptsPlaintext(c.objects[peer].payload, pod)
  }

  predicate StopsEgress(c: Store, namespace: string, pod: Labels) {
    exists k :: k in c.objects && k.namespace == namespace && k.kind == NetworkPolicyKind
      && k.name == "workspace-network-policy" && c.objects[k].payload.NetworkPolicy?
      && NetworkPolicyStopsEgress(c.objects[k].payload, pod)
  }

  /**
   * The traffic of a provisioned Workspace, for every source and every pod: isolated, what comes in comes from the
   * intended namespaces, whether or not Istio does the work; otherwise anything comes in. Mutual TLS is demanded just
   * where Istio isolates, and nothing is ever stopped on its way out.
   */
  lemma TrafficIsAsSpecified(c: Store, w: Workspace, version: string, istio: bool, o: Origin, pod: Labels)
    requires Provisioned(c, w, version, istio) && ValidNames(w.spec) && WellLabelled(o)
    ensures PoliciesAdmit(c, w.spec.namespace, o, pod) <==>
              (w.spec.networkIsolation.enabled ==>
                 o.namespace == w.spec.namespace || o.namespace in w.spec.networkIsolation.allowedNamespaces)
    ensures DemandsMutualTls(c, w.spec.namespace, pod) <==> w.spec.networkIsolation.enabled && istio
    ensures !StopsEgress(c, w.spec.namespace, pod)
  {
    BackEndsAgree(w.spec, o, pod);
    NetworkPolicyAdmitsIntended(w.spec, o, pod);
  }
}
