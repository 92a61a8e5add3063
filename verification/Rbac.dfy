/** RoleBindings: one per role in use (internal/core/workspace/rbac.go). */
module Rbac {
  import opened Prelude
  import opened Metadata
  import opened Objects
  import opened Cluster
  import opened Api
  import opened Server

  const ROLE_BINDING := "workspace-role-binding"
  const RBAC_GROUP := "rbac.authorization.k8s.io"
  const ROLES := [Admin, Edit, View]

  function RoleName(role: Role): string {
    match role
    case Admin => "admin"
    case Edit => "edit"
    case View => "view"
  }

  function BindingKey(namespace: string, role: Role): Key {
    Key(RoleBindingKind, namespace, ROLE_BINDING + "-" + RoleName(role))
  }

  function MembersOf(members: seq<Member>, role: Role): seq<Member> {
    if members == [] then []
    else if members[0].role == role then [members[0]] + MembersOf(members[1..], role)
    else MembersOf(members[1..], role)
  }

  function UserSubject(m: Member): Subject {
    Subject("User", RBAC_GROUP, m.subject)
  }

  function SubjectsOf(members: seq<Member>): seq<Subject> {
    seq(|members|, i requires 0 <= i < |members| => UserSubject(members[i]))
  }

  function BindingOp(w: Workspace, version: string, role: Role): Op {
    var members := MembersOf(w.spec.members, role);
    if members == [] then Remove(BindingKey(w.spec.namespace, role))
    else Ensure(BindingKey(w.spec.namespace, role),
                ChildMutation(OwnerOfWorkspace(w), LabelsForWorkspace(w.name, version),
                              RoleBinding("ClusterRole", RBAC_GROUP, RoleName(role), SubjectsOf(members))))
  }

  function BindingOps(w: Workspace, version: string): seq<Op> {
    [BindingOp(w, version, Admin), BindingOp(w, version, Edit), BindingOp(w, version, View)]
  }

  lemma {:induction false} MembersOfAppend(a: seq<Member>, b: seq<Member>, role: Role)
    ensures MembersOf(a + b, role) == MembersOf(a, role) + MembersOf(b, role)
  {
    if a == [] {
      assert a + b == b;
    } else {
      assert (a + b)[0] == a[0] && (a + b)[1..] == a[1..] + b;
      MembersOfAppend(a[1..], b, role);
    }
  }

  /** A missing key reads as an empty group. */
  function GroupOf(groups: map<Role, seq<Member>>, role: Role): seq<Member> {
    if role in groups then groups[role] else []
  }

  method GroupByRole(members: seq<Member>) returns (membersByRole: map<Role, seq<Member>>)
    ensures forall role :: GroupOf(membersByRole, role) == MembersOf(members, role)
  {
    membersByRole := map[];
    for i := 0 to |members|
      invariant forall role :: GroupOf(membersByRole, role) == MembersOf(members[..i], role)
    {
      var m := members[i];
      ghost var before := membersByRole;
      membersByRole := membersByRole[m.role := GroupOf(membersByRole, m.role) + [m]];
      forall role ensures GroupOf(membersByRole, role) == MembersOf(members[..i + 1], role) {
        assert members[..i + 1] == members[..i] + [m];
        MembersOfAppend(members[..i], [m], role);
        assert [m][1..] == [];
        assert GroupOf(before, role) == MembersOf(members[..i], role);
      }
    }
    assert members[..|members|] == members;
  }

  method ReconcileRoleBinding(server: ApiServer, w: Workspace, version: string, role: Role, members: seq<Member>)
    returns (err: Option<Error>)
    requires server.Valid() && members == MembersOf(w.spec.members, role)
    modifies server`faults, server`objects
    ensures server.Valid()
    ensures Ran(server.Snapshot(), err) == Perform(old(server.Snapshot()), BindingOp(w, version, role))
  {
    var key := BindingKey(w.spec.namespace, role);
    if |members| == 0 {
      err := server.DeleteIfPresent(key);
      return;
    }
    var subjects: seq<Subject> := [];
    for i := 0 to |members|
      invariant subjects == SubjectsOf(members[..i])
    {
      subjects := subjects + [Subject("User", RBAC_GROUP, members[i].subject)];
    }
    assert members[..|members|] == members;
    var binding := RoleBinding("ClusterRole", RBAC_GROUP, RoleName(role), subjects);
    err := server.CreateOrUpdate(key, ChildMutation(OwnerOfWorkspace(w), LabelsForWorkspace(w.name, version), binding));
  }

  method ReconcileRoleBindings(server: ApiServer, w: Workspace, version: string) returns (err: Option<Error>)
    requires server.Valid()
    modifies server`faults, server`objects
    ensures server.Valid()
    ensures Ran(server.Snapshot(), err) == RunOps(old(server.Snapshot()), BindingOps(w, version))
  {
    var membersByRole := GroupByRole(w.spec.members);
    ghost var ops := BindingOps(w, version);
    assert ops[0..] == ops;
    for i := 0 to |ROLES|
      invariant server.Valid()
      invariant RunOps(old(server.Snapshot()), ops) == RunOps(server.Snapshot(), ops[i..])
    {
      var role := ROLES[i];
      assert ops[i..][0] == BindingOp(w, version, role) && ops[i..][1..] == ops[i + 1..];
      err := ReconcileRoleBinding(server, w, version, role, GroupOf(membersByRole, role));
      if err.Some? {
        return;
      }
    }
    err := None;
  }

  lemma RoleKeysDistinct(namespace: string)
    ensures BindingKey(namespace, Admin) != BindingKey(namespace, Edit)
    ensures BindingKey(namespace, Admin) != BindingKey(namespace, View)
    ensures BindingKey(namespace, Edit) != BindingKey(namespace, View)
  {
    var prefix := ROLE_BINDING + "-";
    assert |prefix + "admin"| == |prefix| + 5 && |prefix + "edit"| == |prefix| + 4 == |prefix + "view"|;
    assert (prefix + "edit")[|prefix|] == 'e' && (prefix + "view")[|prefix|] == 'v';
  }

  /** The three groups are a permutation of the members. */
  lemma {:induction false} RolesPartitionMembers(members: seq<Member>)
    ensures multiset(MembersOf(members, Admin)) + multiset(MembersOf(members, Edit))
          + multiset(MembersOf(members, View))
         == multiset(members)
  {
    if members == [] {
    } else {
      assert members == [members[0]] + members[1..];
      RolesPartitionMembers(members[1..]);
    }
  }

  /** Each group lists its members in spec order: member i sits after exactly the earlier ones of its role. */
  lemma GroupKeepsSpecOrder(members: seq<Member>, i: nat)
    requires i < |members|
    ensures var role := members[i].role;
      |MembersOf(members[..i], role)| < |MembersOf(members, role)| &&
      MembersOf(members, role)[|MembersOf(members[..i], role)|] == members[i]
  {
    var role := members[i].role;
    assert members == members[..i] + ([members[i]] + members[i + 1..]);
    MembersOfAppend(members[..i], [members[i]] + members[i + 1..], role);
    MembersOfAppend([members[i]], members[i + 1..], role);
  }

  lemma {:induction false} GroupHoldsItsRole(members: seq<Member>, role: Role, m: Member)
    ensures m in MembersOf(members, role) <==> m in members && m.role == role
  {
    if members == [] {
    } else {
      assert members == [members[0]] + members[1..];
      GroupHoldsItsRole(members[1..], role, m);
    }
  }

  predicate UniqueSubjects(members: seq<Member>) {
    forall i, j :: 0 <= i < j < |members| ==> members[i].subject != members[j].subject
  }

  /** With unique subjects nobody is named by two bindings. */
  lemma NobodyInTwoBindings(members: seq<Member>, a: Role, b: Role, s: Subject)
    requires UniqueSubjects(members) && a != b
    requires s in SubjectsOf(MembersOf(members, a))
    ensures s !in SubjectsOf(MembersOf(members, b))
  {
    var i :| 0 <= i < |MembersOf(members, a)| && UserSubject(MembersOf(members, a)[i]) == s;
    GroupHoldsItsRole(members, a, MembersOf(members, a)[i]);
    if s in SubjectsOf(MembersOf(members, b)) {
      var j :| 0 <= j < |MembersOf(members, b)| && UserSubject(MembersOf(members, b)[j]) == s;
      GroupHoldsItsRole(members, b, MembersOf(members, b)[j]);
    }
  }
}
