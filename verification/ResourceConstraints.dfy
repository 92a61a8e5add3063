/** ResourceQuota and LimitRange (internal/core/workspace/resource_constraints.go). */
module ResourceConstraints {
  import opened Prelude
  import opened Metadata
  import opened Objects
  import opened Cluster
  import opened Api
  import opened Server

  const RESOURCE_QUOTA := "workspace-resource-quota"
  const LIMIT_RANGE := "workspace-limit-range"

  function QuotaOp(w: Workspace, version: string): Op {
    var key := Key(ResourceQuotaKind, w.spec.namespace, RESOURCE_QUOTA);
    match w.spec.resourceQuota
    case None => Remove(key)
    case Some(spec) =>
      Ensure(key, ChildMutation(OwnerOfWorkspace(w), LabelsForWorkspace(w.name, version), ResourceQuota(spec)))
  }

  function LimitOp(w: Workspace, version: string): Op {
    var key := Key(LimitRangeKind, w.spec.namespace, LIMIT_RANGE);
    match w.spec.limitRange
    case None => Remove(key)
    case Some(spec) =>
      Ensure(key, ChildMutation(OwnerOfWorkspace(w), LabelsForWorkspace(w.name, version), LimitRange(spec)))
  }

  method ReconcileResourceQuota(server: ApiServer, w: Workspace, version: string) returns (err: Option<Error>)
    requires server.Valid()
    modifies server`faults, server`objects
    ensures server.Valid()
    ensures Ran(server.Snapshot(), err) == Perform(old(server.Snapshot()), QuotaOp(w, version))
  {
    var key := Key(ResourceQuotaKind, w.spec.namespace, RESOURCE_QUOTA);
    if w.spec.resourceQuota.None? {
      err := server.DeleteIfPresent(key);
    } else {
      var payload := ResourceQuota(w.spec.resourceQuota.value);
      err := server.CreateOrUpdate(key,
                                   ChildMutation(OwnerOfWorkspace(w), LabelsForWorkspace(w.name, version), payload));
    }
  }

  method ReconcileLimitRange(server: ApiServer, w: Workspace, version: string) returns (err: Option<Error>)
    requires server.Valid()
    modifies server`faults, server`objects
    ensures server.Valid()
    ensures Ran(server.Snapshot(), err) == Perform(old(server.Snapshot()), LimitOp(w, version))
  {
    var key := Key(LimitRangeKind, w.spec.namespace, LIMIT_RANGE);
    if w.spec.limitRange.None? {
      err := server.DeleteIfPresent(key);
    } else {
      var payload := LimitRange(w.spec.limitRange.value);
      err := server.CreateOrUpdate(key,
                                   ChildMutation(OwnerOfWorkspace(w), LabelsForWorkspace(w.name, version), payload));
    }
  }
}
