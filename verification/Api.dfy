/** The operator's own resources: Workspace, Module and ModuleTemplate. */
module Api {
  import opened Prelude
  import opened Metadata
  import opened Objects
  import opened Conditions

  datatype Ref = Ref(name: string, namespace: string)

  datatype Role = Admin | Edit | View

  datatype Member = Member(role: Role, subject: string, name: Option<string>)

  datatype Isolation = Isolation(enabled: bool, allowedNamespaces: seq<string>)

  datatype WorkspaceSpec = WorkspaceSpec(
    namespace: string,
    members: seq<Member>,
    resourceQuota: Option<string>,
    limitRange: Option<string>,
    networkIsolation: Isolation)

  datatype WorkspaceStatus = WorkspaceStatus(
    observedGeneration: nat,
    namespaceRef: Option<Ref>,
    roleBindingRefs: seq<Ref>,
    resourceQuotaRef: Option<Ref>,
    limitRangeRef: Option<Ref>,
    networkPolicyRef: Option<Ref>,
    peerAuthenticationRef: Option<Ref>,
    authorizationPolicyRef: Option<Ref>,
    conditions: seq<Condition>)

  datatype Workspace = Workspace(
    name: string,
    uid: nat,
    generation: nat,
    labels: Labels,
    spec: WorkspaceSpec,
    status: WorkspaceStatus)

  datatype ModuleSpec = ModuleSpec(templateRef: string, namespace: Option<string>, values: Option<string>)

  datatype ModuleStatus = ModuleStatus(
    observedGeneration: nat,
    templateGeneration: nat,
    helmReleaseRef: Option<Ref>,
    kustomizationRef: Option<Ref>,
    conditions: seq<Condition>)

  datatype Module = Module(
    name: string,
    uid: nat,
    generation: nat,
    deleting: bool,
    finalizers: set<string>,
    spec: ModuleSpec,
    status: ModuleStatus)

  datatype ModuleTemplate = ModuleTemplate(
    name: string,
    generation: nat,
    namespace: string,
    helmRelease: Option<HelmSpec>,
    kustomization: Option<string>)

  const NO_STATUS := WorkspaceStatus(0, None, [], None, None, None, None, None, [])

  function OwnerOfWorkspace(w: Workspace): ControllerRef {
    OwnerRef(WorkspaceOwner, w.name, w.uid, true)
  }

  function OwnerOfModule(m: Module): ControllerRef {
    OwnerRef(ModuleOwner, m.name, m.uid, true)
  }

  /** A merge patch carries the fields that differ from its base; arrays are replaced whole. */
  function Patched<T(==)>(current: T, base: T, desired: T): T {
    if base == desired then current else desired
  }

  function MergeStatus(current: WorkspaceStatus, base: WorkspaceStatus, desired: WorkspaceStatus): WorkspaceStatus {
    WorkspaceStatus(
      Patched(current.observedGeneration, base.observedGeneration, desired.observedGeneration),
      Patched(current.namespaceRef, base.namespaceRef, desired.namespaceRef),
      Patched(current.roleBindingRefs, base.roleBindingRefs, desired.roleBindingRefs),
      Patched(current.resourceQuotaRef, base.resourceQuotaRef, desired.resourceQuotaRef),
      Patched(current.limitRangeRef, base.limitRangeRef, desired.limitRangeRef),
      Patched(current.networkPolicyRef, base.networkPolicyRef, desired.networkPolicyRef),
      Patched(current.peerAuthenticationRef, base.peerAuthenticationRef, desired.peerAuthenticationRef),
      Patched(current.authorizationPolicyRef, base.authorizationPolicyRef, desired.authorizationPolicyRef),
      Patched(current.conditions, base.conditions, desired.conditions))
  }

  function MergeModuleStatus(current: ModuleStatus, base: ModuleStatus, desired: ModuleStatus): ModuleStatus {
    ModuleStatus(
      Patched(current.observedGeneration, base.observedGeneration, desired.observedGeneration),
      Patched(current.templateGeneration, base.templateGeneration, desired.templateGeneration),
      Patched(current.helmReleaseRef, base.helmReleaseRef, desired.helmReleaseRef),
      Patched(current.kustomizationRef, base.kustomizationRef, desired.kustomizationRef),
      Patched(current.conditions, base.conditions, desired.conditions))
  }

  /** A patch onto its own base gives the desired status, and an empty patch loses nothing that changed meanwhile. */
  lemma PatchCarriesTheDifference(current: WorkspaceStatus, base: WorkspaceStatus, desired: WorkspaceStatus)
    ensures MergeStatus(base, base, desired) == desired
    ensures MergeStatus(current, base, base) == current
    ensures MergeStatus(MergeStatus(current, base, desired), base, desired) == MergeStatus(current, base, desired)
  {
  }

  lemma ModulePatchCarriesTheDifference(current: ModuleStatus, base: ModuleStatus, desired: ModuleStatus)
    ensures MergeModuleStatus(base, base, desired) == desired
    ensures MergeModuleStatus(current, base, base) == current
    ensures MergeModuleStatus(MergeModuleStatus(current, base, desired), base, desired)
         == MergeModuleStatus(current, base, desired)
  {
  }
}
