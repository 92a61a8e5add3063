/** The Flux object of a Module (internal/core/module). */
module ModuleResources {
  import opened Prelude
  import opened Metadata
  import opened Objects
  import opened Cluster
  import opened Api
  import opened Server

  const FINALIZER := "addons.otterscale.io/module-cleanup"

  function TargetNamespace(m: Module, mt: ModuleTemplate): string {
    if m.spec.namespace.Some? then m.spec.namespace.value else mt.namespace
  }

  function HelmOp(m: Module, mt: ModuleTemplate, template: HelmSpec, version: string): Op {
    Ensure(Key(HelmReleaseKind, TargetNamespace(m, mt), m.name),
           HelmMutation(OwnerOfModule(m), LabelsForModule(m.name, mt.name, version),
                        HelmSpec(template.chart, if m.spec.values.Some? then m.spec.values else template.values)))
  }

  function KustomizationOp(m: Module, mt: ModuleTemplate, template: string, version: string): Op {
    Ensure(Key(KustomizationKind, TargetNamespace(m, mt), m.name),
           KustomizationMutation(OwnerOfModule(m), LabelsForModule(m.name, mt.name, version), template))
  }

  /** The one write a template asks for; None for a template that defines neither kind. */
  function FluxOp(m: Module, mt: ModuleTemplate, version: string): Option<Op> {
    if mt.helmRelease.Some? then Some(HelmOp(m, mt, mt.helmRelease.value, version))
    else if mt.kustomization.Some? then Some(KustomizationOp(m, mt, mt.kustomization.value, version))
    else None
  }

  method ReconcileHelmRelease(server: ApiServer, m: Module, mt: ModuleTemplate, version: string)
    returns (err: Option<Error>)
    requires server.Valid()
    modifies server`faults, server`objects
    ensures server.Valid()
    ensures mt.helmRelease.None? ==>
        server.Snapshot() == old(server.Snapshot()) && err == Some(TemplateInvalid(mt.name))
    ensures mt.helmRelease.Some? ==>
      Ran(server.Snapshot(), err) == Perform(old(server.Snapshot()), HelmOp(m, mt, mt.helmRelease.value, version))
  {
    if mt.helmRelease.None? {
      return Some(TemplateInvalid(mt.name));
    }
    var targetNS := TargetNamespace(m, mt);
    var spec := mt.helmRelease.value;
    if m.spec.values.Some? {
      spec := spec.(values := m.spec.values);
    }
    err := server.CreateOrUpdate(Key(HelmReleaseKind, targetNS, m.name),
                                 HelmMutation(OwnerOfModule(m), LabelsForModule(m.name, mt.name, version), spec));
  }

  method ReconcileKustomization(server: ApiServer, m: Module, mt: ModuleTemplate, version: string)
    returns (err: Option<Error>)
    requires server.Valid()
    modifies server`faults, server`objects
    ensures server.Valid()
    ensures mt.kustomization.None? ==>
        server.Snapshot() == old(server.Snapshot()) && err == Some(TemplateInvalid(mt.name))
    ensures mt.kustomization.Some? ==>
      Ran(server.Snapshot(), err)
          == Perform(old(server.Snapshot()), KustomizationOp(m, mt, mt.kustomization.value, version))
  {
    if mt.kustomization.None? {
      return Some(TemplateInvalid(mt.name));
    }
    var targetNS := TargetNamespace(m, mt);
    var path := mt.kustomization.value;
    err := server.CreateOrUpdate(Key(KustomizationKind, targetNS, m.name),
                                 KustomizationMutation(OwnerOfModule(m), LabelsForModule(m.name, mt.name, version),
                                                       path));
  }

  method DeleteHelmRelease(server: ApiServer, m: Module, namespace: string) returns (err: Option<Error>)
    requires server.Valid()
    modifies server`faults, server`objects
    ensures server.Valid()
    ensures Ran(server.Snapshot(), err)
        == Perform(old(server.Snapshot()), Remove(Key(HelmReleaseKind, namespace, m.name)))
  {
    err := server.DeleteIfPresent(Key(HelmReleaseKind, namespace, m.name));
  }

  method DeleteKustomization(server: ApiServer, m: Module, namespace: string) returns (err: Option<Error>)
    requires server.Valid()
    modifies server`faults, server`objects
    ensures server.Valid()
    ensures Ran(server.Snapshot(), err)
        == Perform(old(server.Snapshot()), Remove(Key(KustomizationKind, namespace, m.name)))
  {
    err := server.DeleteIfPresent(Key(KustomizationKind, namespace, m.name));
  }

  /** mapFluxResourceToModule: the Module to wake for an object with these labels. */
  function MapFluxResource(labels: Labels): seq<string> {
    if !(MANAGED_BY in labels && labels[MANAGED_BY] == OPERATOR)
        || !(COMPONENT in labels && labels[COMPONENT] == "module") then []
    else if INSTANCE in labels then [labels[INSTANCE]] else []
  }

  /** Whatever labels an object had, after the Module labels are copied onto it it maps back to that Module alone. */
  lemma LabelRoundTrip(existing: Labels, moduleName: string, templateName: string, version: string)
    ensures MapFluxResource(existing + LabelsForModule(moduleName, templateName, version)) == [moduleName]
  {
    LabelKeysDistinct();
    var l := LabelsForModule(moduleName, templateName, version);
    assert INSTANCE in l && l[INSTANCE] == moduleName;
    assert COMPONENT in l && l[COMPONENT] == "module";
    assert MANAGED_BY in l && l[MANAGED_BY] == OPERATOR;
  }

  /** The operator's mark, the module component and the name of the Module. */
  predicate MarkedFor(labels: Labels, n: string) {
    "app.kubernetes.io/managed-by" in labels && labels["app.kubernetes.io/managed-by"] == "otterscale-operator"
    && "app.kubernetes.io/component" in labels && labels["app.kubernetes.io/component"] == "module"
    && "app.kubernetes.io/instance" in labels && labels["app.kubernetes.io/instance"] == n
  }

  /** An event asks for a Module exactly when the object is marked for it, and never for two. */
  lemma FluxMapsIff(labels: Labels, n: string)
    ensures MapFluxResource(labels) == [n] <==> MarkedFor(labels, n)
    ensures |MapFluxResource(labels)| <= 1
  {
    assert MANAGED_BY == "app.kubernetes.io/managed-by" && COMPONENT == "app.kubernetes.io/component";
    assert INSTANCE == "app.kubernetes.io/instance";
  }

  /** A settled Flux object maps back to its Module. */
  lemma SettledFluxMapsBack(c: Store, m: Module, mt: ModuleTemplate, version: string)
    requires FluxOp(m, mt, version).Some? && Settled(c, FluxOp(m, mt, version).value)
    ensures MapFluxResource(c.objects[FluxOp(m, mt, version).value.key].labels) == [m.name]
  {
    var op := FluxOp(m, mt, version).value;
    LabelRoundTrip(c.objects[op.key].labels, m.name, mt.name, version);
  }

  /** The labels that mark an object as a Module's, written out. */
  predicate LabelledAs(labels: Labels, moduleName: string, templateName: string, version: string) {
    var required: Labels :=
      map["app.kubernetes.io/instance" := moduleName, "app.kubernetes.io/component" := "module",
          "app.kubernetes.io/part-of" := "otterscale", "app.kubernetes.io/managed-by" := "otterscale-operator",
          "app.kubernetes.io/version" := version, "addons.otterscale.io/module-template" := templateName];
    forall l :: l in required ==> l in labels && labels[l] == required[l]
  }

  /** Where the Flux object belongs: in the Module's namespace override, or else the template's namespace. */
  function RequiredKey(m: Module, mt: ModuleTemplate): Key {
    var namespace := if m.spec.namespace.Some? then m.spec.namespace.value else mt.namespace;
    if mt.helmRelease.Some? then Key(HelmReleaseKind, namespace, m.name) else Key(KustomizationKind, namespace, m.name)
  }

  /** The Flux object that a Module and its template require, stated on the object itself. */
  predicate FluxIs(c: Store, m: Module, mt: ModuleTemplate, version: string) {
    var key := RequiredKey(m, mt);
    key in c.objects &&
    var o := c.objects[key];
    LabelledAs(o.labels, m.name, mt.name, version)
    && OwnersSettled(o.owners, OwnerOfModule(m))
    && (if mt.helmRelease.Some? then
          o.payload.HelmRelease? && o.payload.helm.chart == mt.helmRelease.value.chart
          && o.payload.helm.values == (if m.spec.values.Some? then m.spec.values else mt.helmRelease.value.values)
        else
          o.payload.Kustomization? && mt.kustomization == Some(o.payload.path))
  }

  lemma ModuleLabels(labels: Labels, moduleName: string, templateName: string, version: string)
    ensures var std := LabelsForModule(moduleName, templateName, version);
      LabelledAs(labels, moduleName, templateName, version)
      <==> forall l :: l in std ==> l in labels && labels[l] == std[l]
  {
    var std := LabelsForModule(moduleName, templateName, version);
    LabelKeysDistinct();
    StandardLabels("", moduleName, "module", version);
    assert MODULE_TEMPLATE == "addons.otterscale.io/module-template";
    assert std ==
      map["app.kubernetes.io/instance" := moduleName, "app.kubernetes.io/component" := "module",
          "app.kubernetes.io/part-of" := "otterscale", "app.kubernetes.io/managed-by" := "otterscale-operator",
          "app.kubernetes.io/version" := version, "addons.otterscale.io/module-template" := templateName];
  }

  lemma LabelsSettled(labels: Labels, moduleName: string, templateName: string, version: string)
    ensures labels + LabelsForModule(moduleName, templateName, version) == labels
       <==> LabelledAs(labels, moduleName, templateName, version)
  {
    var std := LabelsForModule(moduleName, templateName, version);
    ModuleLabels(labels, moduleName, templateName, version);
    if labels + std == labels {
      assert forall l :: l in std ==> l in labels + std && (labels + std)[l] == std[l];
    }
  }

  lemma FluxSettled(c: Store, m: Module, mt: ModuleTemplate, version: string)
    requires FluxOp(m, mt, version).Some?
    ensures Settled(c, FluxOp(m, mt, version).value) <==> FluxIs(c, m, mt, version)
  {
    var op := FluxOp(m, mt, version).value;
    if op.key in c.objects {
      var o := c.objects[op.key];
      SettledIsFixedPoint(o.owners, OwnerOfModule(m));
      LabelsSettled(o.labels, m.name, mt.name, version);
    }
  }
}
