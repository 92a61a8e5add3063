/** Object metadata shared by both controllers: the recommended labels and owner references. */
module Metadata {
  import opened Prelude

  type Labels = map<string, string>

  const NAME := "app.kubernetes.io/name"
  const MANAGED_BY := "app.kubernetes.io/managed-by"
  const PART_OF := "app.kubernetes.io/part-of"
  const COMPONENT := "app.kubernetes.io/component"
  const INSTANCE := "app.kubernetes.io/instance"
  const VERSION := "app.kubernetes.io/version"
  const MODULE_TEMPLATE := "addons.otterscale.io/module-template"
  const OPERATOR := "otterscale-operator"

  function Standard(name: string, instance: string, component: string, version: string): Labels {
    var base := map[INSTANCE := instance, COMPONENT := component, PART_OF := "otterscale",
                    MANAGED_BY := OPERATOR, VERSION := version];
    if name != "" then base[NAME := name] else base
  }

  function LabelsForWorkspace(workspace: string, version: string): Labels {
    Standard("", workspace, "workspace", version)
  }

  function LabelsForModule(moduleName: string, templateName: string, version: string): Labels {
    Standard("", moduleName, "module", version)[MODULE_TEMPLATE := templateName]
  }

  /** The recommended labels, written out. */
  lemma StandardLabels(name: string, instance: string, component: string, version: string)
    ensures var l := Standard(name, instance, component, version);
      l - {"app.kubernetes.io/name"} ==
        map["app.kubernetes.io/instance" := instance, "app.kubernetes.io/component" := component,
            "app.kubernetes.io/part-of" := "otterscale", "app.kubernetes.io/managed-by" := "otterscale-operator",
            "app.kubernetes.io/version" := version]
      && ("app.kubernetes.io/name" in l <==> name != "")
      && (name != "" ==> l["app.kubernetes.io/name"] == name)
  {
    LabelKeysDistinct();
    assert NAME == "app.kubernetes.io/name" && INSTANCE == "app.kubernetes.io/instance";
    assert COMPONENT == "app.kubernetes.io/component" && PART_OF == "app.kubernetes.io/part-of";
    assert MANAGED_BY == "app.kubernetes.io/managed-by" && VERSION == "app.kubernetes.io/version";
  }

  /** What marks the objects of a Workspace. */
  lemma WorkspaceLabels(workspace: string, version: string)
    ensures LabelsForWorkspace(workspace, version) ==
      map["app.kubernetes.io/instance" := workspace, "app.kubernetes.io/component" := "workspace",
          "app.kubernetes.io/part-of" := "otterscale", "app.kubernetes.io/managed-by" := "otterscale-operator",
          "app.kubernetes.io/version" := version]
  {
    StandardLabels("", workspace, "workspace", version);
    var l := LabelsForWorkspace(workspace, version);
    assert l - {"app.kubernetes.io/name"} == l;
  }

  lemma LabelKeysDistinct()
    ensures INSTANCE !in {COMPONENT, PART_OF, MANAGED_BY, VERSION, NAME, MODULE_TEMPLATE}
    ensures COMPONENT !in {PART_OF, MANAGED_BY, VERSION, NAME, MODULE_TEMPLATE}
    ensures MANAGED_BY !in {PART_OF, VERSION, NAME, MODULE_TEMPLATE}
  {
    assert |INSTANCE| == 26 && |COMPONENT| == 27 && |PART_OF| == 25 && |MANAGED_BY| == 28;
    assert |VERSION| == 25 && |NAME| == 22 && |MODULE_TEMPLATE| == 36;
  }

  datatype OwnerKind = WorkspaceOwner | ModuleOwner | ForeignOwner(group: string)

  datatype OwnerRef = OwnerRef(kind: OwnerKind, name: string, uid: nat, controller: bool)

  /** A reference made by `SetControllerReference` always claims control. */
  type ControllerRef = r: OwnerRef | r.controller witness OwnerRef(WorkspaceOwner, "", 0, true)

  /** Two references name the same object when kind and name agree; the uid is not compared. */
  predicate RefersSame(a: OwnerRef, b: OwnerRef) {
    a.kind == b.kind && a.name == b.name
  }

  predicate IsOwned(owners: seq<OwnerRef>, uid: nat) {
    exists i :: 0 <= i < |owners| && owners[i].uid == uid
  }

  function ControllerOf(owners: seq<OwnerRef>): (r: Option<OwnerRef>)
    ensures r.Some? ==> r.value.controller && r.value in owners
    ensures r.None? ==> forall i :: 0 <= i < |owners| ==> !owners[i].controller
  {
    if owners == [] then None
    else if owners[0].controller then Some(owners[0])
    else ControllerOf(owners[1..])
  }

  /** Replaces the first reference to the same object, or appends. */
  function UpsertOwner(owners: seq<OwnerRef>, ref: OwnerRef): seq<OwnerRef> {
    if owners == [] then [ref]
    else if RefersSame(owners[0], ref) then [ref] + owners[1..]
    else [owners[0]] + UpsertOwner(owners[1..], ref)
  }

  /** Fails, with None, exactly when a different object already controls. */
  function SetControllerReference(owners: seq<OwnerRef>, ref: ControllerRef): Option<seq<OwnerRef>> {
    match ControllerOf(owners)
    case Some(other) => if RefersSame(other, ref) then Some(UpsertOwner(owners, ref)) else None
    case None => Some(UpsertOwner(owners, ref))
  }

  predicate FirstController(owners: seq<OwnerRef>, i: nat) {
    i < |owners| && owners[i].controller && forall j :: 0 <= j < i ==> !owners[j].controller
  }

  predicate ControlledBy(owners: seq<OwnerRef>, kind: OwnerKind, name: string) {
    exists i :: 0 <= i < |owners| && FirstController(owners, i) && owners[i].kind == kind && owners[i].name == name
  }

  /** Somebody else is in control: the first controlling reference has another kind or another name. */
  predicate ControlledByOther(owners: seq<OwnerRef>, kind: OwnerKind, name: string) {
    exists i :: 0 <= i < |owners| && FirstController(owners, i) && (owners[i].kind != kind || owners[i].name != name)
  }

  lemma {:induction false} FirstControls(owners: seq<OwnerRef>, i: nat)
    requires FirstController(owners, i)
    ensures ControllerOf(owners) == Some(owners[i])
  {
    if i > 0 {
      assert forall j :: 0 <= j < i - 1 ==> owners[1..][j] == owners[j + 1];
      FirstControls(owners[1..], i - 1);
    }
  }

  lemma {:induction false} ControllerIsFirst(owners: seq<OwnerRef>) returns (i: nat)
    requires ControllerOf(owners).Some?
    ensures FirstController(owners, i) && owners[i] == ControllerOf(owners).value
  {
    i := 0;
    if !owners[0].controller {
      var k := ControllerIsFirst(owners[1..]);
      assert forall j :: 0 < j <= k ==> owners[j] == owners[1..][j - 1];
      i := k + 1;
    }
  }

  /**
   * Control is refused exactly to whoever finds somebody else in control; a former self of the same name is no one
   * else.
   */
  lemma ControlRefusedIff(owners: seq<OwnerRef>, ref: ControllerRef)
    ensures SetControllerReference(owners, ref).None? <==> ControlledByOther(owners, ref.kind, ref.name)
  {
    if ControllerOf(owners).Some? {
      var i := ControllerIsFirst(owners);
      forall j | 0 <= j < |owners| && FirstController(owners, j) ensures owners[j] == owners[i] {
        FirstControls(owners, j);
      }
    }
  }

  /** References name distinct objects and at most one is the controller, as the API server validates. */
  predicate WellOwned(owners: seq<OwnerRef>) {
    owners != [] ==>
      (forall o :: o in owners[1..] ==> !RefersSame(o, owners[0]) && !(o.controller && owners[0].controller))
      && WellOwned(owners[1..])
  }

  /** A reference list that already records `ref` as its controller and needs no rewriting. */
  predicate OwnersSettled(owners: seq<OwnerRef>, ref: OwnerRef) {
    owners != [] &&
    (owners[0] == ref ||
     (!owners[0].controller && !RefersSame(owners[0], ref) && OwnersSettled(owners[1..], ref)))
  }

  lemma {:induction false} SetControllerSettles(owners: seq<OwnerRef>, ref: ControllerRef)
    requires SetControllerReference(owners, ref).Some?
    ensures OwnersSettled(SetControllerReference(owners, ref).value, ref)
  {
    if owners == [] {
    } else if !RefersSame(owners[0], ref) {
      SetControllerSettles(owners[1..], ref);
      assert ([owners[0]] + UpsertOwner(owners[1..], ref))[1..] == UpsertOwner(owners[1..], ref);
    }
  }

  /** Settled is exactly the fixed point of setting the reference, and names the one controller. */
  lemma {:induction false} SettledIsFixedPoint(owners: seq<OwnerRef>, ref: ControllerRef)
    ensures OwnersSettled(owners, ref) <==> SetControllerReference(owners, ref) == Some(owners)
    ensures OwnersSettled(owners, ref) ==> ControllerOf(owners) == Some(ref) && IsOwned(owners, ref.uid)
  {
    if SetControllerReference(owners, ref) == Some(owners) {
      SetControllerSettles(owners, ref);
    }
    if OwnersSettled(owners, ref) {
      assert [owners[0]] + owners[1..] == owners;
      if owners[0] != ref {
        SettledIsFixedPoint(owners[1..], ref);
        var i :| 0 <= i < |owners[1..]| && owners[1..][i].uid == ref.uid;
        assert owners[i + 1].uid == ref.uid;
      }
    }
  }

  /** Upserting replaces references to the same object and keeps every other one. */
  lemma {:induction false} UpsertMembers(owners: seq<OwnerRef>, ref: OwnerRef, o: OwnerRef)
    requires WellOwned(owners)
    ensures o in UpsertOwner(owners, ref) <==> o == ref || (o in owners && !RefersSame(o, ref))
  {
    if owners == [] {
    } else {
      assert owners == [owners[0]] + owners[1..];
      if RefersSame(owners[0], ref) {
        assert o in owners[1..] ==> !RefersSame(o, owners[0]);
      } else {
        UpsertMembers(owners[1..], ref, o);
      }
    }
  }

  /** Taking control never leaves two controllers. */
  lemma {:induction false} UpsertKeepsWellOwned(owners: seq<OwnerRef>, ref: ControllerRef)
    requires WellOwned(owners) && SetControllerReference(owners, ref).Some?
    ensures WellOwned(UpsertOwner(owners, ref))
  {
    if owners == [] {
    } else {
      var head, tail := owners[0], owners[1..];
      assert owners == [head] + tail;
      if RefersSame(head, ref) {
        assert ([ref] + tail)[1..] == tail;
        forall o | o in tail ensures !RefersSame(o, ref) && !o.controller {
          assert !RefersSame(o, head) && !(o.controller && head.controller);
        }
      } else {
        UpsertKeepsWellOwned(tail, ref);
        var r := UpsertOwner(tail, ref);
        assert ([head] + r)[1..] == r;
        forall o | o in r ensures !RefersSame(o, head) && !(o.controller && head.controller) {
          UpsertMembers(tail, ref, o);
          assert head.controller ==> ControllerOf(owners) == Some(head);
        }
      }
    }
  }
}
