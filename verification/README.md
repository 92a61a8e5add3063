# Verified model of the OtterScale operator

The operator runs two level-triggered controllers over one Kubernetes cluster. The Workspace controller turns a
Workspace (namespace, members, quota, limits, network isolation) into a namespace and up to eight objects inside it,
and follows Istio being installed or removed. The Module controller turns a Module and its ModuleTemplate into one
Flux object (HelmRelease or Kustomization) and cleans it up under a finalizer. Admission keeps a label index of
members and decides who may change a Workspace. This project states what that code does and proves what it is for.

## How it is built

| files | content |
|---|---|
| `Prelude`, `Metadata`, `Conditions`, `Objects`, `Api` | options, labels, owner references, condition lists, cluster objects, the operator's own resources |
| `Cluster`, `ApiServer`, `OpRuns` | the store; CreateOrUpdate and Delete as operations on one key; faults; the class the reconcilers call; cutting, retrying, counting and commuting runs of operations |
| `WorkspaceNamespace`, `Rbac`, `ResourceConstraints`, `NetworkIsolation` | the sub-steps of a Workspace reconcile, imperative, each proved equal to its operations, and what their results mean |
| `WorkspaceController`, `WorkspaceRuns` | the reconciler class and the detector; what whole reconciles guarantee |
| `WorkQueue`, `WorkspaceProtocol` | the deduplicating queue; the Workspace controller as a state machine of worker, handler, user and garbage-collection steps |
| `WorkspaceConvergence`, `WorkspaceClosedLoop` | the closed loop on that queue: what own steps cost, and that from the middle of any turn they come to rest, provisioned, within a bound |
| `WorkspaceLimits` | where the guarantees end: lost wake-ups, parked conflicts, unnoticed creations |
| `Admission` | defaulting, schema rules, authorization, and runs of admission requests |
| `ModuleResources`, `ModuleController`, `ModuleRuns` | the Flux object, the Module reconciler class, what whole reconciles guarantee |
| `NonInterference` | whole reconciles of distinct Workspaces, and of distinct Modules, commute |
| `ModuleLimits` | a failing Module list in the template handler, and objects that cleanup leaves behind |
| `ModuleProtocol`, `ModuleProtocolRuns` | the Module controller as a state machine of worker, template handler, user and Flux steps; its invariant; what every run guarantees |

A reconciler is a class whose methods call the API server object one call at a time, in the order of the source, and
stop at the first error. Its contract equates the resulting cluster with a function of the initial one
(`ReconcileWorkspace`, `ReconcileModule`), and the theorems are about that function. The state machines interleave the
same steps with everything else; left alone, one turn of their worker is exactly that function (`WorkerTurnIsReconcile`).

Every API call meets a fault: healthy, rejected, or applied with its reply lost. CreateOrUpdate is a Get, then the
mutate function, then a write only if something changed. SetControllerReference fails when an object of another kind or
name controls; it compares kind and name, not uid. A status patch carries only the fields that differ from the copy the
reconciler read. The queue holds each item once and never processes one item twice at a time; there is one worker per
controller. Watch events and retries pass through a set of pending requests and are delivered in any order.

## What the proofs found

- Being quiet means being right, for both controllers, over every interleaving (`LevelTriggeredSoundness`,
  `NoLostWakeup`), although the detector is read twice per run.
- The closed loop converges on the real queue (`ClosedLoopConverges`): late deliveries can cost extra rounds, but each
  wake-up is paid for by a write that brings a key into sync or by a fault. It does so even if the last edit, detector
  flip or namespace deletion falls inside a running turn: what that turn still spoils is bounded (`OutdatedStepPays`).
- A failing Workspace list in the CRD handler loses the wake-up (`FailedListLosesWakeup`): no own step of the controller
  ever brings it back (`LostStaysLost`), nor does anything else that leaves the Workspace alone (`LostUntilRoused`), and
  it happens for every spec in a run from a cold start (`LossHappens`). A failing Module list in the template handler does
  the same to parked Modules (`TemplateLossHappens`, `ForgottenUntilRoused`).
- Deleting an Istio object is noticed exactly when Istio was there at start-up (`DriftIsSeenIffWatched`).
- A namespace conflict heals with the namespace's removal exactly when that namespace names this Workspace as its
  controller: then one turn provisions it (`NamedConflictHeals`); otherwise it stays parked through any run that neither
  asks for it nor touches an object naming it (`UnnamedConflictPersists`).
- Isolation is continuous when Istio goes away (`SwitchFromIstioKeepsCover`); when Istio arrives it is continuous exactly
  if the AuthorizationPolicy already existed, because the NetworkPolicy is deleted first (`SwitchToIstioGap`).
- Ready=False is recorded exactly when its status patch reaches the server; the patch error is dropped, so after a
  conflict an unrecorded failure stays unrecorded (`FailureIsRecordedIff`).
- The two isolation back ends agree because of the name pattern in the schema; without it `*` would separate them
  (`WildcardSeparatesBackEnds`).
- A Module's Ready mirrors its Flux object exactly when the observing Get succeeds; when that Get fails the reconcile
  still succeeds, reports Unknown and is not retried (`ReadyMirrorsIffObserved`, `UnseenIsReported`).
- A reconcile that returns no error means it, under any faults: a Workspace is provisioned (`SuccessProvisions`), a
  Module is in sync, released, or parked on its template (`SuccessSyncs`).
- Cleanup removes the object the status names and no other. An object left behind by a namespace or template-kind change
  is left to garbage collection (`CleanupLeavesTheRest`, `AbandonmentHappens`), which removes it exactly when its writer is gone and no other
  owner of it lives (`WrittenObjectsAreOwned`): existing owners are kept, so a living one keeps the object too.
- The comment at internal/controller/addons/module_controller.go:159-161 says that cleanup tries the template first;
  the code asks the status refs first, then the override, then the template. The model follows the code.
- The field comment at api/tenant/v1alpha1/workspace_types.go:83 calls the namespace unique across Workspaces. Nothing
  enforces that; ownership of the namespace decides instead (`NamespaceOwnership`, `NeverTwoControllers`).

## Model

| member | source | states |
|---|---|---|
| WorkspaceProtocol.LevelTriggeredSoundness | internal/controller/tenant/workspace_controller.go:85-125 | In every reachable state, a Workspace that is not queued, processed, dirty or woken, with no handler mid-way and no conflict at its last run, has exactly the children and status its spec and the detector ask for |
| WorkspaceProtocol.StepKeepsInv | internal/controller/tenant/workspace_controller.go:85-143 | Every step of worker, handler, users, garbage collection and retries keeps soundness, the queue discipline and the worth of the worker's copy |
| WorkspaceProtocol.RunKeepsInv | internal/controller/tenant/workspace_controller.go:85-143 | The same over runs of any length |
| WorkspaceProtocol.OperateKeepsInv | internal/controller/tenant/workspace_controller.go:109-125 | One child operation under any faults keeps the invariant, other Workspaces claiming the same namespace included |
| WorkspaceProtocol.ComputeKeepsInv | internal/controller/tenant/workspace_controller.go:307-331 | Computing the status from a second read of the detector keeps the invariant: if the two reads differ, the Workspace is already due for another run |
| WorkspaceProtocol.TamperWakes | internal/controller/tenant/workspace_controller.go:177-217 | A change to any watched object that a settled operation relies on wakes its Workspace |
| WorkspaceProtocol.WakesIff | internal/controller/tenant/workspace_controller.go:177-217 | A change to an object wakes a Workspace exactly if its kind is watched and the Workspace is its controlling owner before or after |
| WorkspaceProtocol.HandlerTurn | internal/controller/tenant/workspace_controller.go:222-242 | The two handler steps together take over a definitive answer, keep the flag otherwise, and ask for every Workspace |
| WorkspaceProtocol.WorkerTurnIsReconcile | internal/controller/tenant/workspace_controller.go:85-106 | Left alone, one turn of the worker is exactly one sequential Reconcile under the same faults |
| WorkspaceProtocol.FailedListLosesWakeup | internal/controller/tenant/workspace_controller.go:229-233 | In the state right after the handler's list fails, an idle Workspace stays unscheduled, and it is provisioned exactly when the refresh had not changed the detector |
| WorkspaceProtocol.DriftIsSeenIffWatched | internal/controller/tenant/workspace_controller.go:200-215 | Deleting an object a Workspace keeps always unsettles it, and wakes the Workspace exactly when that kind is watched |
| WorkspaceProtocol.ConflictHealsIffNamed | internal/controller/tenant/workspace_controller.go:130-137 | In the very next state, removing the namespace behind a conflict has rescheduled the Workspace exactly when that namespace names it as controller |
| WorkspaceClosedLoop.ClosedLoopConverges | internal/controller/tenant/workspace_controller.go:85-143 | From any state that keeps the protocol invariant, in the middle of any turn, with no handler mid-way, distinct namespaces, no foreign controller on a key to be written, Istio served if the detector assumes it, nobody parked without being scheduled, and the running copy's namespace not claimed by a Workspace other than its own: every run of deliveries, queue and worker steps, however deliveries are timed, is bounded by the keys out of sync, the requests outstanding, the turn under way and the faults met; where no such step is left, queue and pending set are empty and every Workspace is provisioned with an agreeing status |
| WorkspaceClosedLoop.ComesToRest | internal/controller/tenant/workspace_controller.go:85-143 | That rest is reached by a fault-free run from every such state |
| WorkspaceClosedLoop.StepPays | internal/controller/tenant/workspace_controller.go:177-217 | Every own step, of a current or an outdated turn, lowers the budget: a wake-up is paid for by a write that brings a key into sync, by a fault, or out of what the outdated turn was charged |
| WorkspaceClosedLoop.OutdatedStepPays | internal/controller/tenant/workspace_controller.go:109-125 | Every own step of an outdated turn pays out of what the turn was charged, faults or not, and leaves nothing in the way |
| WorkspaceClosedLoop.StrayCallIsBounded | internal/core/workspace/namespace.go:52-56 | A call made for an outdated spec or detector value unsettles at most one key over all Workspaces and leaves every key writable by its owner |
| WorkspaceClosedLoop.KinNeverConflicts | internal/core/workspace/namespace.go:53-56 | Even through an outdated copy an unobstructed Workspace never meets a namespace conflict |
| WorkspaceClosedLoop.ChangesKeepHarmless | internal/controller/tenant/workspace_controller.go:177-242 | Edits, detector flips, tampering and collection at any point of a turn leave the turn harmless; only deleting and creating Workspaces can do otherwise |
| WorkspaceClosedLoop.HarmlessIffNotClaimed | internal/controller/tenant/workspace_controller.go:85-106 | With no handler mid-way, a turn that is not failing is harmless exactly when its Workspace is still stored or nobody claims its namespace |
| WorkspaceClosedLoop.ClaimedCopyObstructs | internal/core/workspace/namespace.go:52-56 | Otherwise its first call can take an absent namespace, which is then foreign to the Workspace that claims it |
| WorkspaceConvergence.CurrentStepPays | internal/controller/tenant/workspace_controller.go:177-217 | The case of a turn that runs for the current spec and detector |
| WorkspaceConvergence.OperateLowersTotal | internal/core/workspace/resource_constraints.go:33-84 | A write brings its key into sync and unsettles no key of any Workspace |
| WorkspaceLimits.LostStaysLost | internal/controller/tenant/workspace_controller.go:229-233 | Once a failed list has lost a wake-up, no run of deliveries, queue and worker steps, under any faults, schedules or provisions the Workspace |
| WorkspaceLimits.LostUntilRoused | internal/controller/tenant/workspace_controller.go:229-233 | Through every run of any steps, users and other Workspaces included, that neither ask for the Workspace nor touch an object naming it, with the Istio kinds unchanged, it stays unscheduled and out of step with the detector |
| WorkspaceLimits.WakeupsCanBeLost | internal/controller/tenant/workspace_controller.go:222-242 | From every unblocked state without Istio, mid-turn or not, whose objects name Workspaces only in their own namespaces, some run with a failing list ends with every Workspace's wake-up lost |
| WorkspaceLimits.LossHappens | internal/controller/tenant/workspace_controller.go:222-242 | For every spec such a run exists from an initial state, an empty cluster |
| WorkspaceLimits.NamedConflictHeals | internal/controller/tenant/workspace_controller.go:130-137 | If the removed namespace named the Workspace, delivery and one undisturbed turn end with it provisioned and its status agreeing |
| WorkspaceLimits.UnnamedConflictPersists | internal/controller/tenant/workspace_controller.go:130-137 | If it did not, the Workspace stays parked, unscheduled and unprovisioned through every run of any steps that neither ask for it nor change an object naming it |
| WorkspaceLimits.StrayIsSeenIffNamed | internal/controller/tenant/workspace_controller.go:185-189 | Creating an object where the Workspace wants none unsettles it, and is noticed exactly when the object names the Workspace and its kind is watched |
| WorkspaceRuns.SuccessProvisions | internal/controller/tenant/workspace_controller.go:85-143 | Under any faults, a reconcile that returns no error has provisioned everything and published an agreeing status, unless the namespace is foreign, and then it has written no object |
| WorkspaceRuns.ReconcileIsPrefix | internal/controller/tenant/workspace_controller.go:85-125 | Every reconcile, however it fails, is a prefix of the nine operations followed by at most one status patch of its own Workspace |
| WorkspaceRuns.CrashConsistency | internal/controller/tenant/workspace_controller.go:109-125 | However often and wherever a reconcile is cut off, a later complete one reaches the store of an uninterrupted one and, if the sync succeeds, its status up to transition times |
| WorkspaceRuns.RoundIsDrainable | internal/controller/tenant/workspace_controller.go:85-143 | A round never raises the number of out-of-sync keys; without faults it makes it zero |
| WorkspaceRuns.DrainIsShort | internal/controller/tenant/workspace_controller.go:85-143 | Run one after the other, with no late deliveries between them, reconciles of one Workspace settle after at most two rounds more than there are faults |
| WorkspaceRuns.DrainConverges | internal/controller/tenant/workspace_controller.go:256-360 | Where that sequential loop ends, children and status are as the spec asks, and the next run writes nothing, not even a status patch |
| WorkspaceRuns.SettledRunIsSilent | internal/controller/tenant/workspace_controller.go:347-359 | A run over a provisioned Workspace whose status agrees makes exactly ten calls, whatever the server would do to an eleventh, and leaves the whole world unchanged |
| WorkspaceRuns.NamespaceOwnership | internal/core/workspace/namespace.go:52-78 | For every world and fault script, a foreign namespace stops the run before its first write; otherwise only keys of the own namespace change, and only while the Workspace controls it |
| WorkspaceRuns.NeverTwoControllers | internal/core/workspace/namespace.go:52-75 | Over every run of reconciles and user writes, no object ever has two controlling owners |
| WorkspaceRuns.ConflictMeansForeign | internal/core/workspace/namespace.go:53-56 | A NamespaceConflict is reported only for a namespace the Workspace does not own, before anything is written |
| WorkspaceRuns.FailureIsRecordedIff | internal/controller/tenant/workspace_controller.go:127-163 | Ready=False, with its reason, is recorded exactly when the status patch reaches the server or it was recorded before; only a conflict is not retried; nothing else changes |
| WorkspaceRuns.SwitchFromIstioKeepsCover | internal/core/workspace/network_isolation.go:37-60 | When the detector turns off, some policy guards the namespace at every call boundary of every attempt |
| WorkspaceRuns.SwitchFromIstio | internal/core/workspace/network_isolation.go:37-60 | And the first attempt that succeeds ends with the NetworkPolicy and neither Istio policy |
| WorkspaceRuns.SwitchToIstioGap | internal/core/workspace/network_isolation.go:56-58 | When the detector turns on, coverage is continuous exactly if the AuthorizationPolicy was already there |
| WorkspaceRuns.DistinctNamespacesCommute | internal/core/workspace/network_isolation.go:49-54 | The child operations alone, of Workspaces with distinct namespaces, commute without faults |
| NonInterference.WorkspaceReconcilesCommute | internal/controller/tenant/workspace_controller.go:85-143 | Whole reconciles of distinct Workspaces with distinct namespaces commute, whatever faults each meets: the same children, statuses and errors in either order, failing and absent ones included |
| NonInterference.WorkspaceReconcileIsLocal | internal/core/workspace/network_isolation.go:49-54 | A reconcile depends on and changes nothing but its own Workspace's status, namespace and the objects in it |
| WorkspaceController.WorkspaceReconciler.Reconcile | internal/controller/tenant/workspace_controller.go:85-106 | The imperative reconciler equals the specification function on every world and fault script, also when the CRD handler refreshes the detector between its two reads |
| WorkspaceController.WorkspaceReconciler.ReconcileResources | internal/controller/tenant/workspace_controller.go:109-125 | The sub-steps run as the nine operations in order, stopping at the first error |
| WorkspaceController.WorkspaceReconciler.HandleError | internal/controller/tenant/workspace_controller.go:130-143 | A conflict is swallowed, any other error returned, Ready=False patched and a failing patch dropped |
| WorkspaceController.WorkspaceReconciler.SetReadyConditionFalse | internal/controller/tenant/workspace_controller.go:147-163 | Ready turns False with the observed generation, other conditions kept, and the patch error is not returned |
| WorkspaceController.WorkspaceReconciler.RolesInUse | internal/controller/tenant/workspace_controller.go:265-269 | The loop collects exactly the roles that some member has |
| WorkspaceController.WorkspaceReconciler.BindingRefs | internal/controller/tenant/workspace_controller.go:265-285 | The refs are those of the roles in use, in admin, edit, view order |
| WorkspaceController.WorkspaceReconciler.PublishStatus | internal/controller/tenant/workspace_controller.go:256-360 | The stepwise status update equals the specified status, and patches only when it differs |
| WorkspaceController.WorkspaceReconciler.MapCrdToWorkspaces | internal/controller/tenant/workspace_controller.go:222-242 | The detector is refreshed, then every listed Workspace requested, or none when the list fails |
| WorkspaceController.IstioDetector.Refresh | internal/controller/tenant/istio_detector.go:60-69 | A definitive answer is stored; without a client or a definitive answer the flag stays |
| WorkspaceController.IstioDetector.constructor | internal/controller/tenant/istio_detector.go:40-50 | The detector starts enabled exactly when a first definitive answer says Istio is supported |
| WorkspaceController.SettledIffProvisioned | internal/controller/tenant/workspace_controller.go:109-125 | The nine operations have nothing left to write exactly when the Workspace is provisioned, stated object by object |
| WorkspaceController.OpsOwnDistinctKeys | internal/core/workspace/helpers.go:28-34 | The nine keys are distinct, eight of them inside the Workspace's namespace, each written under its owner reference |
| WorkspaceController.ChildNames | internal/core/workspace/helpers.go:29-34 | The name of each of the nine keys |
| WorkspaceController.NextStatusAgrees | internal/controller/tenant/workspace_controller.go:256-345 | The published status names exactly the resources the spec and detector ask for, with one Ready=True and canonical conditions |
| WorkspaceController.AgreeingStatusIsKept | internal/controller/tenant/workspace_controller.go:347-348 | A status that agrees is recomputed unchanged, so no patch is sent |
| WorkspaceController.MembersAreBound | internal/core/workspace/rbac.go:56-93 | In a provisioned Workspace a user is bound to cluster role admin, edit or view exactly when the spec gives that user that role |
| WorkspaceController.RefsNameLiveObjects | internal/controller/tenant/workspace_controller.go:260-331 | With an agreeing status, every other ref names an object that exists, or is absent together with it |
| WorkspaceController.RefsListLiveBindings | internal/controller/tenant/workspace_controller.go:277-285 | In a provisioned Workspace an agreeing status references a binding exactly when it exists |
| WorkspaceNamespace.ReconcileNamespace | internal/core/workspace/namespace.go:45-83 | The namespace step is one CreateOrUpdate with the ownership check |
| WorkspaceNamespace.ForeignNamespaceIsNeverTaken | internal/core/workspace/namespace.go:53-56 | An existing namespace without this Workspace's uid is left as it is and reported as a conflict |
| WorkspaceNamespace.NamespaceOutcome | internal/core/workspace/namespace.go:58-74 | After success the namespace is controlled by the Workspace, carries its labels, keeps all others, and has the injection label exactly when Istio is on |
| Rbac.GroupByRole | internal/core/workspace/rbac.go:34-37 | The grouping loop yields, for every role, the members of that role in spec order |
| Rbac.ReconcileRoleBinding | internal/core/workspace/rbac.go:56-93 | One binding with one user subject per member of the role, or its deletion when there is none |
| Rbac.ReconcileRoleBindings | internal/core/workspace/rbac.go:33-52 | The three bindings are written in admin, edit, view order, stopping at the first error |
| Rbac.RolesPartitionMembers | internal/core/workspace/rbac.go:33-52 | The three groups together are a permutation of the members |
| Rbac.GroupKeepsSpecOrder | internal/core/workspace/rbac.go:35-37 | Each member stands in its group after exactly the earlier members of its role |
| Rbac.GroupHoldsItsRole | internal/core/workspace/rbac.go:35-37 | A group holds exactly the members with its role |
| Rbac.NobodyInTwoBindings | internal/core/workspace/rbac.go:64-78 | With unique subjects nobody is named by two bindings |
| ResourceConstraints.ReconcileResourceQuota | internal/core/workspace/resource_constraints.go:33-57 | The quota is written as specified, or deleted when the spec has none |
| ResourceConstraints.ReconcileLimitRange | internal/core/workspace/resource_constraints.go:60-84 | The same for the limit range |
| NetworkIsolation.ReconcileNetworkPolicy | internal/core/workspace/network_isolation.go:48-105 | The rule loop builds the specified policy; it is deleted when isolation is off or Istio is on |
| NetworkIsolation.ReconcilePeerAuthentication | internal/core/workspace/network_isolation.go:108-137 | Strict mTLS exactly when isolation and Istio are on |
| NetworkIsolation.ReconcileAuthorizationPolicy | internal/core/workspace/network_isolation.go:140-184 | The ALLOW policy exactly when isolation and Istio are on |
| NetworkIsolation.ReconcileNetworkIsolation | internal/core/workspace/network_isolation.go:37-45 | The three sub-steps run in order, stopping at the first error |
| NetworkIsolation.NetworkPolicyAdmitsIntended | internal/core/workspace/network_isolation.go:63-95 | Under networking.k8s.io/v1, for every source and every pod of the namespace, the generated policy lets in exactly the own and the allowed namespaces, and stops nothing on its way out |
| NetworkIsolation.AuthorizationPolicyAdmitsIntended | internal/core/workspace/network_isolation.go:155-174 | Under Istio's selector and string matching, for every source and every workload, the generated policy admits exactly the same namespaces, for every spec the schema accepts |
| NetworkIsolation.BackEndsAgree | internal/core/workspace/network_isolation.go:35-45 | For every validated spec the two back ends admit the same sources to every pod |
| NetworkIsolation.WildcardSeparatesBackEnds | api/tenant/v1alpha1/workspace_types.go:72-76 | Without the name pattern, an allowed namespace `*` would open every workload to everyone on the Istio back end only |
| NetworkIsolation.DnsLabelIsPattern | api/tenant/v1alpha1/workspace_types.go:72-88 | The names the policies rely on are exactly those of the schema's pattern |
| WorkspaceController.TrafficIsAsSpecified | internal/core/workspace/network_isolation.go:37-184 | In a provisioned Workspace, for every source and pod, the policies that are there admit exactly the intended namespaces if it is isolated and everyone otherwise, with or without Istio; mutual TLS is demanded exactly where Istio isolates; egress stays open |
| Admission.DefaultMemberLabels | internal/webhook/tenant/v1alpha1/workspace_webhook.go:66-93 | The two loops over the label map compute the specified labels, in whatever order the map is visited |
| Admission.LabelIndexIsExact | internal/webhook/tenant/v1alpha1/workspace_webhook.go:72-90 | A user label with value "true" for exactly the members, every other label as before |
| Admission.DefaultingForgets | internal/webhook/tenant/v1alpha1/workspace_webhook.go:78-90 | Defaulting forgets earlier member lists, so it is idempotent |
| Admission.DefaultingIgnoresOrder | internal/webhook/tenant/v1alpha1/workspace_webhook.go:72-76 | Only who is a member matters, not order or role |
| Admission.StoredInvariant | api/tenant/v1alpha1/workspace_types.go:82-98 | Every run of requests keeps names, valid specs and an exact label index in every stored Workspace |
| Admission.ValidSpecIffSchema | api/tenant/v1alpha1/workspace_types.go:38-98 | A spec is accepted exactly if it follows the published schema, rule by rule: patterns, lengths, reserved names, unique subjects, an admin, distinct allowed namespaces only with isolation on |
| Admission.CreationOutcome | internal/webhook/tenant/v1alpha1/workspace_webhook.go:108-112 | A request by anybody creates the Workspace, as requested and with its member labels, exactly if the name is free and the spec follows the schema; otherwise nothing changes |
| Admission.UpdateOutcome | internal/webhook/tenant/v1alpha1/workspace_webhook.go:114-131 | An update takes effect exactly if its author is in system:masters or kubeadm:cluster-admins, is the operator, or is an admin member of the stored Workspace, the spec follows the schema and the namespace stays; otherwise nothing changes |
| Admission.DeletionOutcome | internal/webhook/tenant/v1alpha1/workspace_webhook.go:133-148 | A deletion takes effect exactly if its author may change the stored Workspace; otherwise nothing changes |
| Admission.RequestIsLocal | internal/webhook/tenant/v1alpha1/workspace_webhook.go:114-148 | No request touches a Workspace it does not name |
| Admission.LabelQueryIsExact | internal/webhook/tenant/v1alpha1/workspace_webhook.go:46-62 | In every reachable state a label query returns exactly the Workspaces with that member |
| Admission.AlwaysManageable | internal/core/workspace/authorization.go:80-87 | In every reachable state each Workspace has a member who, without any group, can delete it and install any spec that follows the schema and keeps the namespace |
| Admission.NamespaceIsForever | api/tenant/v1alpha1/workspace_types.go:84-90 | Over any run of requests through which a Workspace lives, refused deletions included, its uid and namespace stay and the namespace is none of the five reserved ones |
| Admission.AdminProvenance | internal/core/workspace/authorization.go:53-67 | Over any run of requests through which a Workspace lives, whoever is admin and was not at the start is reached by a chain of served updates, in time order, from an initial admin or a root identity |
| Admission.NoSelfPromotion | internal/webhook/tenant/v1alpha1/workspace_webhook.go:118-148 | While everyone who asks to change or delete a Workspace is neither root nor an admin of it, it stays exactly as it is, whatever they ask for and in whatever number |
| Admission.DeletionNeedsAdmin | internal/webhook/tenant/v1alpha1/workspace_webhook.go:133-148 | A Workspace that is gone after a run of requests was deleted by somebody who was root or one of its admins at that moment |
| Conditions.PublishIsCanonical | internal/controller/tenant/workspace_controller.go:333-345 | The published list is sorted with unique types, has one Ready saying what was set, and keeps all other conditions |
| Conditions.PublishFixedPoint | internal/controller/tenant/workspace_controller.go:347-348 | A canonical list that already says so is published unchanged, whatever the clock says |
| Conditions.PublishIsIdempotent | internal/controller/addons/module_controller.go:285-299 | A second publication of the same report changes nothing, so no patch is sent |
| Conditions.CanonicalIsUnique | internal/controller/tenant/workspace_controller.go:342-345 | Two sorted lists with the same conditions are equal: the published order is deterministic |
| Conditions.BeforeAtFirstDifference | internal/controller/tenant/workspace_controller.go:343-345 | The sort order is the ascending one: smaller at the first difference, a prefix before what extends it |
| Conditions.TransitionMovesWithStatus | internal/controller/tenant/workspace_controller.go:333-339 | The transition time moves exactly when the status of that condition changes |
| Conditions.SetStatusConditionMembers | internal/controller/tenant/workspace_controller.go:151-157 | Setting a condition changes exactly its own type and keeps types unique |
| Metadata.SettledIsFixedPoint | internal/core/workspace/namespace.go:73-74 | A reference list needs no rewriting exactly when it names the owner as its one controller |
| Metadata.UpsertKeepsWellOwned | internal/core/workspace/namespace.go:73-74 | Taking control never leaves two controllers |
| Metadata.ControlRefusedIff | internal/core/workspace/namespace.go:73-74 | Taking control fails exactly if the first controlling reference has another kind or name, uids aside |
| Metadata.StandardLabels | internal/core/labels/labels.go:46-58 | The recommended labels, key and value, with a name label exactly for a non-empty name |
| Metadata.WorkspaceLabels | internal/core/workspace/helpers.go:44-46 | The five labels of every object of a Workspace |
| Cluster.SettledIffNoWrite | internal/core/workspace/resource_constraints.go:45-49 | An operation is settled exactly when carrying it out changes nothing |
| Cluster.MutateIsIdempotent | internal/core/workspace/namespace.go:52-75 | Every mutate function is idempotent and leaves its owner as the controller |
| Cluster.ApplySettles | internal/core/workspace/resource_constraints.go:33-84 | One operation settles its own key and touches no other |
| Cluster.CallIsAllOrNothing | internal/core/workspace/resource_constraints.go:45-52 | Whatever call fails, the store is untouched or as the operation leaves it, and success means the latter |
| Cluster.EnsureSucceedsIff | internal/core/workspace/namespace.go:52-75 | A write goes through exactly if its kind is served, nobody else controls the object, a namespace to be adopted carries the uid, and a new object has its namespace |
| Cluster.SettledOpIsOneCall | internal/core/workspace/resource_constraints.go:45-52 | A settled operation makes one call, no write, under any faults |
| OpRuns.FaultyRunIsPrefix | internal/controller/tenant/workspace_controller.go:109-125 | A run under any faults leaves the store as some prefix of its operations does |
| OpRuns.RetryCompletes | internal/controller/tenant/workspace_controller.go:109-125 | Cut after any operation and started over, a run on distinct keys reaches what the uninterrupted run reaches |
| OpRuns.RunNeverUnsettles | internal/core/workspace/rbac.go:46-50 | No run, however it fails, unsettles a key |
| OpRuns.SettledRunOnlyLooks | internal/controller/tenant/workspace_controller.go:109-125 | A run over settled keys makes one call for each and changes nothing |
| OpRuns.IndependentRunsCommute | internal/core/workspace/network_isolation.go:37-45 | Runs on keys that do not meet commute, errors included |
| Server.ApiServer.CreateOrUpdate | internal/core/workspace/namespace.go:52-75 | Get, mutate and conditional write equal the operation's specification under any faults |
| Server.ApiServer.DeleteIfPresent | internal/core/workspace/helpers.go:60-65 | Delete with missing objects and missing kinds ignored |
| Server.ApiServer.UpdateWorkspaceStatus | internal/controller/tenant/workspace_controller.go:349-353 | A status patch merges the changed fields into the stored status |
| Api.PatchCarriesTheDifference | internal/controller/tenant/workspace_controller.go:349-353 | A status patch gives the desired status on its own base, loses nothing when empty, and repeats without effect |
| Api.ModulePatchCarriesTheDifference | internal/controller/addons/module_controller.go:301-307 | The same for the status patch of a Module |
| Server.ApiServer.UpdateFinalizers | internal/controller/addons/module_controller.go:180-184 | A finalizer patch replaces the list; a deleting Module goes with its last finalizer |
| ModuleProtocolRuns.NoLostWakeup | internal/controller/addons/module_controller.go:78-132 | In every reachable state a quiet Module is released if deleting; otherwise it has the Flux object, refs and generations its current template asks for, and Ready mirrors the object if the last run observed it and says GetError if not; or its permanent error still holds |
| ModuleProtocolRuns.ParkedModulesWake | internal/controller/addons/module_controller.go:398-423 | Creating the missing template schedules every Module parked on it, and keeps it scheduled until the worker takes it |
| ModuleProtocolRuns.AwakeUntilTaken | internal/controller/addons/module_controller.go:374-396 | No step loses a wake-up: a scheduled Module stays so until the worker takes it |
| ModuleProtocolRuns.WrittenObjectsAreOwned | internal/core/module/helmrelease.go:62-82 | Every Flux object ever written, abandoned ones included, carries its writer's reference; a live non-deleting writer carries the finalizer; a collection pass removes the object exactly when its writer is gone and no other owner lives |
| ModuleProtocolRuns.CleanupLeavesTheRest | internal/controller/addons/module_controller.go:153-188 | Undisturbed, cleanup takes exactly the object the status names out of the history, and a Module without other finalizers is gone; the rest of what it wrote is left behind |
| ModuleLimits.AbandonmentHappens | internal/controller/addons/module_controller.go:190-212 | For every template and two namespaces: a Module syncs, has its override edited, syncs again and is deleted; it is gone, and the first object still exists under its reference |
| ModuleLimits.TemplateLossHappens | internal/controller/addons/module_controller.go:403-407 | For every Module and template, a run from an initial state parks the Module and creates its template, and a failing list at that point leaves the Module parked, unscheduled, on a template that exists |
| ModuleLimits.ForgottenUntilRoused | internal/controller/addons/module_controller.go:403-407 | Such a Module stays so, itself unchanged, through every run of any steps that neither ask for it or its template nor touch an object labelled as its own |
| ModuleProtocolRuns.WorkerTurnIsReconcile | internal/controller/addons/module_controller.go:78-119 | Left alone, one turn of the worker is exactly one sequential Reconcile under the same faults |
| ModuleProtocolRuns.RunKeepsInv | internal/controller/addons/module_controller.go:78-119 | Runs of any length keep the protocol invariant |
| ModuleProtocol.StepKeepsInv | internal/controller/addons/module_controller.go:78-119 | Every step of worker, users, Flux, template handler and retries keeps soundness, history and the worth of the worker's copy |
| ModuleProtocol.ChangeWakes | internal/controller/addons/module_controller.go:425-446 | Whatever replaces the Flux object of a synced Module, even nothing, that Module is among those the change wakes |
| ModuleProtocol.WakesIff | internal/controller/addons/module_controller.go:380-394 | A change to a Flux object wakes a Module exactly if the object is marked for it before or after |
| ModuleProtocol.HandlerTurn | internal/controller/addons/module_controller.go:399-423 | The handler step asks for exactly the Modules that `Referencing` finds in the list |
| ModuleProtocol.WriteOutcome | internal/core/module/helmrelease.go:62-85 | A write leaves other keys alone, leaves its reference on what it wrote, and never fails permanently |
| ModuleProtocol.GuardOutcome | internal/controller/addons/module_controller.go:93-100 | A finalizer patch changes the finalizers of the stored Module only, and success means it carries the finalizer |
| ModuleController.ModuleReconciler.Reconcile | internal/controller/addons/module_controller.go:78-119 | The imperative reconciler equals the specification function on every world and fault script |
| ModuleController.ModuleReconciler.SyncAndReport | internal/controller/addons/module_controller.go:102-118 | Template, Flux object and status in order, errors through the error handler |
| ModuleController.ModuleReconciler.ReconcileResources | internal/controller/addons/module_controller.go:136-148 | HelmRelease first, then Kustomization, otherwise an invalid template |
| ModuleController.ModuleReconciler.ReconcileDelete | internal/controller/addons/module_controller.go:153-188 | Objects named by the refs are deleted in order, and the finalizer goes only after that |
| ModuleController.ModuleReconciler.ResolveNamespace | internal/controller/addons/module_controller.go:192-212 | Status refs, then the override, then the template decide the namespace |
| ModuleController.ModuleReconciler.HandleError | internal/controller/addons/module_controller.go:217-237 | The error handler equals its specification; `ModuleRuns.FailureIsRecordedIff` says what that comes to |
| ModuleController.ModuleReconciler.SetReadyConditionFalse | internal/controller/addons/module_controller.go:240-256 | Ready turns False and the patch error is dropped |
| ModuleController.ModuleReconciler.UpdateStatus | internal/controller/addons/module_controller.go:259-311 | The stepwise status update equals the specified status, and patches only when it differs; `ReadyMirrorsIffObserved` and `UnseenIsReported` say what it reports |
| ModuleController.ModuleReconciler.MapTemplateToModules | internal/controller/addons/module_controller.go:399-423 | The loop requests the referencing Modules of the list, or none when the list fails |
| ModuleController.CleanupInOrder | internal/controller/addons/module_controller.go:164-176 | Cleanup is HelmRelease then Kustomization, stopping at the first error, and nothing without a namespace |
| ModuleResources.ReconcileHelmRelease | internal/core/module/helmrelease.go:38-91 | One write of the HelmRelease as specified, or the template reported invalid; `FluxSettled` says what is written and where |
| ModuleResources.ReconcileKustomization | internal/core/module/kustomization.go:38-86 | The same for the Kustomization |
| ModuleResources.DeleteHelmRelease | internal/core/module/helmrelease.go:95-107 | Delete by name and namespace, already gone counting as success |
| ModuleResources.DeleteKustomization | internal/core/module/kustomization.go:90-102 | The same for the Kustomization |
| ModuleResources.LabelRoundTrip | internal/core/module/helpers.go:62-66 | Whatever labels an object had, after the Module labels are copied onto it it maps back to that Module alone |
| ModuleResources.SettledFluxMapsBack | internal/controller/addons/module_controller.go:427-446 | A settled Flux object maps back to its Module |
| ModuleResources.FluxMapsIff | internal/controller/addons/module_controller.go:427-446 | An event asks for a Module exactly if the object carries the operator's mark, the module component and that instance, and never for two |
| ModuleResources.FluxSettled | internal/core/module/helmrelease.go:62-82 | The write has nothing left to do exactly when the object, in the override namespace or else the template's, has the required kind, spec, values, labels and controller |
| ModuleRuns.ReconcileKeepsRefs | internal/controller/addons/module_controller.go:264-280 | Every reconcile, however it fails, keeps at most one status ref per Module, with a namespace in it |
| ModuleRuns.SuccessSyncs | internal/controller/addons/module_controller.go:78-119 | Under any faults, a reconcile that returns no error leaves its Module absent, or released with its referenced object gone, or guarded with Flux object and status as the template asks; if the template is missing or defines neither kind, no object is written |
| ModuleRuns.CleanRunFailsIff | internal/controller/addons/module_controller.go:102-118 | When no call fails, an error is returned exactly if somebody else controls the Flux object or its namespace is missing, for a live Module with a usable template; on success Ready mirrors the object |
| ModuleRuns.FailureIsRecordedIff | internal/controller/addons/module_controller.go:217-256 | Exactly TemplateNotFound and TemplateInvalid are not retried; Ready=False under the error's own reason is recorded exactly when the patch reaches the server or it was recorded before |
| ModuleRuns.SettledRunIsSilent | internal/controller/addons/module_controller.go:301-311 | Over a Module in sync a run makes exactly four calls, none a patch, and changes nothing |
| ModuleRuns.CleanupIsExact | internal/controller/addons/module_controller.go:153-188 | Deletion touches only the referenced object, and the finalizer is gone only if that object is gone |
| ModuleRuns.DeletionIsRetryable | internal/controller/addons/module_controller.go:153-188 | However often a deletion fails, the retry that completes gives what one clean deletion gives |
| ModuleRuns.RefsDecideCleanup | internal/controller/addons/module_controller.go:190-212 | The cleanup namespace comes from the refs, then the override, and only then from a call for the template, empty if that fails |
| ModuleRuns.ReadyMirrorsIffObserved | internal/controller/addons/module_controller.go:332-346 | A published status mirrors the Flux object exactly when the observing Get succeeded, or the object itself reports what a failed Get is reported as |
| ModuleRuns.UnseenIsReported | internal/controller/addons/module_controller.go:330-362 | For every published status: a failed Get is reported as Unknown with the kind's GetError, an absent object as False with the kind's NotFound exactly when the Get was healthy |
| ModuleRuns.ReferencingMembers | internal/controller/addons/module_controller.go:409-416 | Template mapping yields exactly the referencing Modules |
| ModuleRuns.ReferencingKeepsListOrder | internal/controller/addons/module_controller.go:410-416 | Each at the place its predecessors in the list leave it |
| ModuleRuns.ReferencingHasNoDuplicates | internal/controller/addons/module_controller.go:409-416 | Without duplicates, when names are unique |
| ModuleRuns.DistinctModulesCommute | internal/core/module/kustomization.go:55-60 | The Flux writes alone, of Modules with distinct names, commute |
| NonInterference.ModuleReconcilesCommute | internal/controller/addons/module_controller.go:78-119 | Whole reconciles of Modules with distinct names commute, whatever faults each meets: live, deleting, parked or gone, even with one template and one target namespace |
| NonInterference.ModuleReconcileIsLocal | internal/core/module/helmrelease.go:55-60 | A reconcile changes nothing but its own Module and Flux objects of its name, and reads besides only templates and whether namespaces exist |

## Left out

- Events, logging, error texts and the human-readable message of a condition set from an error (the reason stands in for it); the text of `GetError` is a constant.
- Manager start-up, flags, TLS, metrics, leader election and everything under config/: wiring only.
- Discovery calls: a refresh takes any answer (supported, definitive) as a parameter.
- Contents of quota, limit, Kustomization and chart specs and of JSON values: opaque strings with equality; only the values override is structured.
- API-server defaulting, informer staleness and resource versions: reads are fresh, and a write refused for a stale version is one of the rejected calls.
- The API server refusing to change a RoleBinding's roleRef; the operator never changes it for one name, users might.
- Foreground deletion, terminating namespaces and Flux's own finalizers: deletion takes effect at once.
- Istio's requirement that the peer identity comes from mTLS: sources are taken as authenticated.
- Several workers per controller and two replicas of the operator: neither set-up function asks for them.
- WorkspaceProtocol.LevelTriggeredSoundness: assumes that users do not create objects under the operator's names inside a Workspace's namespace while no such object exists (`StrayIsSeenIffNamed` says when that would be noticed), that Istio objects change from outside only if they are watched, and that the Workspace list succeeds.
- WorkspaceRuns.DrainIsShort: the sequential loop of one Workspace; with late deliveries the queue can take more rounds, and the bound that covers them is `ClosedLoopConverges`.
- WorkspaceRuns.DrainConverges: the same sequential loop, where a round follows an error or a write.
- WorkspaceClosedLoop.ClosedLoopConverges: leaves out states with a handler mid-way, a Workspace obstructed for good or parked without being scheduled, and a running turn for a deleted Workspace whose namespace another one has claimed since: that turn can take the namespace first and obstruct the other (`ClaimedCopyObstructs`).
- WorkspaceProtocol.FailedListLosesWakeup: one step only; `LostStaysLost` and `LossHappens` carry the claim over runs.
- WorkspaceProtocol.ConflictHealsIffNamed: one step only; `NamedConflictHeals` and `UnnamedConflictPersists` carry the claim over runs.
- WorkspaceRuns.DistinctNamespacesCommute: children only; `WorkspaceReconcilesCommute` is about whole reconciles.
- ModuleRuns.DistinctModulesCommute: single writes only; `ModuleReconcilesCommute` is about whole reconciles.
- WorkspaceRuns.NeverTwoControllers: user writes that the API server would refuse for naming two controllers are skipped.
- ModuleProtocolRuns.NoLostWakeup: assumes that the Module list in the template handler succeeds (`TemplateLossHappens` says what is lost otherwise), that nobody else edits the finalizers or status of a Module, and that whoever changes a Flux object leaves its owner references alone.
- ModuleProtocolRuns.WrittenObjectsAreOwned: one collection pass over the store as it is, told which owners other than Modules live; the collector's own schedule is not modelled.
