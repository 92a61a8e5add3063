/** The Namespace of a Workspace (internal/core/workspace/namespace.go). */
module WorkspaceNamespace {
  import opened Prelude
  import opened Metadata
  import opened Objects
  import opened Cluster
  import opened Api
  import opened Server

  function NamespaceOp(w: Workspace, version: string, istio: bool): Op {
    Ensure(NamespaceKey(w.spec.namespace),
           NamespaceMutation(OwnerOfWorkspace(w), LabelsForWorkspace(w.name, version), istio))
  }

  method ReconcileNamespace(server: ApiServer, w: Workspace, version: string, istio: bool) returns (err: Option<Error>)
    requires server.Valid()
    modifies server`faults, server`objects
    ensures server.Valid()
    ensures Ran(server.Snapshot(), err) == Perform(old(server.Snapshot()), NamespaceOp(w, version, istio))
  {
    var labels := LabelsForWorkspace(w.name, version);
    err := server.CreateOrUpdate(NamespaceKey(w.spec.namespace), NamespaceMutation(OwnerOfWorkspace(w), labels, istio));
  }

  /** A namespace read from the server that this Workspace does not own is reported and left as it is. */
  lemma ForeignNamespaceIsNeverTaken(world: World, w: Workspace, version: string, istio: bool)
    requires NamespaceKey(w.spec.namespace) in world.store.objects
    requires !IsOwned(world.store.objects[NamespaceKey(w.spec.namespace)].owners, w.uid)
    ensures Perform(world, NamespaceOp(w, version, istio)).world.store == world.store
    ensures Perform(world, NamespaceOp(w, version, istio)).err ==
            Some(if Head(world.faults) == Healthy then NamespaceConflict(w.spec.namespace) else Transient)
  {
  }

  /** After success the namespace is controlled by w, keeps every other label, and is injected iff Istio is on. */
  lemma NamespaceOutcome(world: World, w: Workspace, version: string, istio: bool)
    requires Perform(world, NamespaceOp(w, version, istio)).err.None?
    ensures var key := NamespaceKey(w.spec.namespace);
      var after := Perform(world, NamespaceOp(w, version, istio)).world.store.objects;
      var std := LabelsForWorkspace(w.name, version);
      key in after && ControllerOf(after[key].owners) == Some(OwnerOfWorkspace(w)) &&
      (istio <==> "istio-injection" in after[key].labels) &&
      (istio ==> after[key].labels["istio-injection"] == "enabled") &&
      (forall l :: l in std && l != "istio-injection" ==> l in after[key].labels && after[key].labels[l] == std[l]) &&
      (key in world.store.objects ==>
         forall l :: l in world.store.objects[key].labels && l !in std && l != "istio-injection" ==>
           l in after[key].labels && after[key].labels[l] == world.store.objects[key].labels[l])
  {
    var op := NamespaceOp(w, version, istio);
    CallIsAllOrNothing(world.store, world.faults, op);
    ApplySettles(world.store, op);
    SettledController(ApplyOp(world.store, op).value, op);
  }
}
