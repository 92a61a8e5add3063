/** Admission of Workspaces: member labels, schema rules and authorization, and what they keep over every run. */
module Admission {
  import opened Prelude
  import opened Metadata
  import opened Api
  import opened Rbac
  import opened NetworkIsolation

  const USER_PREFIX := "user.otterscale.io/"

  predicate IsUserLabel(key: string) {
    |USER_PREFIX| <= |key| && key[..|USER_PREFIX|] == USER_PREFIX
  }

  function UserLabel(subject: string): string {
    USER_PREFIX + subject
  }

  function UserLabels(members: seq<Member>): set<string> {
    set i | 0 <= i < |members| :: UserLabel(members[i].subject)
  }

  /** The labels of a Workspace with these members: its user labels replaced, the others kept. */
  function DefaultLabels(labels: Labels, members: seq<Member>): Labels {
    map k | k in labels.Keys + UserLabels(members) && (IsUserLabel(k) ==> k in UserLabels(members))
      :: if k in UserLabels(members) then "true" else labels[k]
  }

  method DesiredLabels(members: seq<Member>) returns (desired: set<string>)
    ensures desired == UserLabels(members)
  {
    desired := {};
    for i := 0 to |members|
      invariant desired == set j | 0 <= j < i :: UserLabel(members[j].subject)
    {
      desired := desired + {USER_PREFIX + members[i].subject};
    }
  }

  method DropStale(given: Labels, desired: set<string>) returns (labels: Labels)
    ensures labels == map k | k in given && (IsUserLabel(k) ==> k in desired) :: given[k]
  {
    labels := given;
    var visit := labels.Keys;
    while visit != {}
      invariant visit <= given.Keys
      invariant labels == map k | k in given && (IsUserLabel(k) && k !in visit ==> k in desired) :: given[k]
      decreases |visit|
    {
      var k :| k in visit;
      visit := visit - {k};
      if |USER_PREFIX| <= |k| && k[..|USER_PREFIX|] == USER_PREFIX && k !in desired {
        labels := labels - {k};
      }
    }
  }

  method SetWanted(given: Labels, desired: set<string>) returns (labels: Labels)
    ensures labels == given + map k | k in desired :: "true"
  {
    labels := given;
    var todo := desired;
    while todo != {}
      invariant todo <= desired
      invariant labels == given + map k | k in desired - todo :: "true"
      decreases |todo|
    {
      var k :| k in todo;
      todo := todo - {k};
      labels := labels[k := "true"];
    }
  }

  /** defaultMemberLabels: drop stale user labels, then set the wanted ones. */
  method DefaultMemberLabels(w: Workspace) returns (r: Workspace)
    ensures r == w.(labels := DefaultLabels(w.labels, w.spec.members))
  {
    var desired := DesiredLabels(w.spec.members);
    var labels := DropStale(w.labels, desired);
    labels := SetWanted(labels, desired);
    r := w.(labels := labels);
    DefaultLabelsInSteps(w.labels, w.spec.members);
  }

  lemma DefaultLabelsInSteps(labels: Labels, members: seq<Member>)
    ensures var desired := UserLabels(members);
      (map k | k in labels && (IsUserLabel(k) ==> k in desired) :: labels[k]) + (map k | k in desired :: "true")
      == DefaultLabels(labels, members)
  {
  }

  predicate HasMember(members: seq<Member>, subject: string) {
    exists i :: 0 <= i < |members| && members[i].subject == subject
  }

  lemma UserLabelIffMember(members: seq<Member>, subject: string)
    ensures UserLabel(subject) in UserLabels(members) <==> HasMember(members, subject)
  {
    if UserLabel(subject) in UserLabels(members) {
      var i :| 0 <= i < |members| && UserLabel(members[i].subject) == UserLabel(subject);
      assert UserLabel(subject)[|USER_PREFIX|..] == subject;
      assert UserLabel(members[i].subject)[|USER_PREFIX|..] == members[i].subject;
    }
  }

  lemma UserLabelsAreUserLabels(members: seq<Member>)
    ensures forall k :: k in UserLabels(members) ==> IsUserLabel(k)
  {
  }

  /** The label index: a user label, with value "true", for exactly the members; every other label as before. */
  lemma LabelIndexIsExact(labels: Labels, members: seq<Member>)
    ensures forall s :: UserLabel(s) in DefaultLabels(labels, members) <==> HasMember(members, s)
    ensures forall k :: k in DefaultLabels(labels, members) && IsUserLabel(k) ==>
      DefaultLabels(labels, members)[k] == "true" && exists s :: k == UserLabel(s) && HasMember(members, s)
    ensures forall k :: !IsUserLabel(k) ==>
      (k in DefaultLabels(labels, members) <==> k in labels)
      && (k in labels ==> DefaultLabels(labels, members)[k] == labels[k])
  {
    UserLabelsAreUserLabels(members);
    forall s ensures UserLabel(s) in DefaultLabels(labels, members) <==> HasMember(members, s) {
      UserLabelIffMember(members, s);
      assert IsUserLabel(UserLabel(s));
    }
    forall k | k in DefaultLabels(labels, members) && IsUserLabel(k)
      ensures exists s :: k == UserLabel(s) && HasMember(members, s)
    {
      var i :| 0 <= i < |members| && k == UserLabel(members[i].subject);
      UserLabelIffMember(members, members[i].subject);
    }
  }

  /** Defaulting forgets earlier member lists, so in particular it is idempotent. */
  lemma DefaultingForgets(labels: Labels, earlier: seq<Member>, members: seq<Member>)
    ensures DefaultLabels(DefaultLabels(labels, earlier), members) == DefaultLabels(labels, members)
  {
    UserLabelsAreUserLabels(earlier);
    UserLabelsAreUserLabels(members);
  }

  /** Only who is a member matters, not the order or the roles. */
  lemma DefaultingIgnoresOrder(labels: Labels, a: seq<Member>, b: seq<Member>)
    requires forall s :: HasMember(a, s) <==> HasMember(b, s)
    ensures DefaultLabels(labels, a) == DefaultLabels(labels, b)
  {
    forall k | k in UserLabels(a) ensures k in UserLabels(b) {
      var i :| 0 <= i < |a| && k == UserLabel(a[i].subject);
      UserLabelIffMember(b, a[i].subject);
      assert HasMember(a, a[i].subject);
    }
    forall k | k in UserLabels(b) ensures k in UserLabels(a) {
      var i :| 0 <= i < |b| && k == UserLabel(b[i].subject);
      UserLabelIffMember(a, b[i].subject);
      assert HasMember(b, b[i].subject);
    }
    assert UserLabels(a) == UserLabels(b);
  }

  datatype UserInfo = UserInfo(username: string, groups: seq<string>)

  const PRIVILEGED_GROUPS := ["system:masters", "kubeadm:cluster-admins"]

  predicate IsPrivileged(user: UserInfo) {
    exists i :: 0 <= i < |user.groups| && user.groups[i] in PRIVILEGED_GROUPS
  }

  predicate IsWorkspaceAdmin(username: string, members: seq<Member>) {
    exists i :: 0 <= i < |members| && members[i].subject == username && members[i].role == Admin
  }

  /** AuthorizeModification, judged on the stored object. */
  predicate Authorized(user: UserInfo, stored: Workspace, operatorSA: string) {
    IsPrivileged(user) || user.username == operatorSA || IsWorkspaceAdmin(user.username, stored.spec.members)
  }

  const RESERVED := {"default", "kube-system", "kube-public", "kube-node-lease", "otterscale-system"}

  predicate SubjectChar(c: char) {
    'a' <= c <= 'z' || 'A' <= c <= 'Z' || '0' <= c <= '9'
  }

  predicate ValidSubject(s: string) {
    0 < |s| <= 63 && SubjectChar(s[0]) && SubjectChar(s[|s| - 1])
    && forall i :: 0 <= i < |s| ==> SubjectChar(s[i]) || s[i] in "-_."
  }

  predicate ValidAllowed(isolation: Isolation) {
    var allowed := isolation.allowedNamespaces;
    |allowed| <= 64 && (allowed != [] ==> isolation.enabled)
    && (forall i :: 0 <= i < |allowed| ==> |allowed[i]| <= 63)
    && forall i, j :: 0 <= i < j < |allowed| ==> allowed[i] != allowed[j]
  }

  /** The schema rules of a Workspace that one object decides. */
  predicate ValidSpec(spec: WorkspaceSpec) {
    |spec.namespace| <= 63 && spec.namespace !in RESERVED && ValidNames(spec)
    && UniqueSubjects(spec.members) && (exists i :: 0 <= i < |spec.members| && spec.members[i].role == Admin)
    && (forall i :: 0 <= i < |spec.members| ==> ValidSubject(spec.members[i].subject))
    && ValidAllowed(spec.networkIsolation)
  }

  /** The namespace is immutable. */
  predicate ValidTransition(stored: WorkspaceSpec, spec: WorkspaceSpec) {
    ValidSpec(spec) && spec.namespace == stored.namespace
  }

  datatype Request =
    | Create(user: UserInfo, name: string, uid: nat, labels: Labels, spec: WorkspaceSpec)
    | Update(user: UserInfo, name: string, labels: Labels, spec: WorkspaceSpec)
    | Delete(user: UserInfo, name: string)

  type Stored = map<string, Workspace>

  predicate Admits(stored: Stored, operatorSA: string, r: Request) {
    match r
    case Create(_, name, _, _, spec) => name !in stored && ValidSpec(spec)
    case Update(user, name, _, spec) =>
      name in stored && ValidTransition(stored[name].spec, spec) && Authorized(user, stored[name], operatorSA)
    case Delete(user, name) => name in stored && Authorized(user, stored[name], operatorSA)
  }

  function Updated(w: Workspace, labels: Labels, spec: WorkspaceSpec): Workspace {
    w.(labels := DefaultLabels(labels, spec.members), spec := spec,
       generation := if spec == w.spec then w.generation else w.generation + 1)
  }

  /** What the API server stores after a request; a rejected one changes nothing. */
  function Served(stored: Stored, operatorSA: string, r: Request): Stored {
    if !Admits(stored, operatorSA, r) then stored
    else
      match r
      case Create(_, name, uid, labels, spec) =>
        stored[name := Workspace(name, uid, 1, DefaultLabels(labels, spec.members), spec, NO_STATUS)]
      case Update(_, name, labels, spec) => stored[name := Updated(stored[name], labels, spec)]
      case Delete(_, name) => stored - {name}
  }

  /** What is stored after a sequence of requests, by anybody on anything. */
  function ServedAll(stored: Stored, operatorSA: string, rs: seq<Request>): Stored {
    if rs == [] then stored
    else Served(ServedAll(stored, operatorSA, rs[..|rs| - 1]), operatorSA, rs[|rs| - 1])
  }

  /** Cluster-level identities, by name. */
  predicate IsRoot(user: UserInfo, operatorSA: string) {
    "system:masters" in user.groups || "kubeadm:cluster-admins" in user.groups || user.username == operatorSA
  }

  predicate IsAdmin(members: seq<Member>, username: string) {
    exists m :: m in members && m.subject == username && m.role == Admin
  }

  /** Who may change a Workspace with these members. */
  predicate MayChange(user: UserInfo, operatorSA: string, members: seq<Member>) {
    IsRoot(user, operatorSA) || IsAdmin(members, user.username)
  }

  lemma AuthorizedIffMayChange(user: UserInfo, stored: Workspace, operatorSA: string)
    ensures Authorized(user, stored, operatorSA) <==> MayChange(user, operatorSA, stored.spec.members)
  {
    if "system:masters" in user.groups {
      var i :| 0 <= i < |user.groups| && user.groups[i] == "system:masters";
      assert PRIVILEGED_GROUPS[0] == user.groups[i];
    }
    if "kubeadm:cluster-admins" in user.groups {
      var i :| 0 <= i < |user.groups| && user.groups[i] == "kubeadm:cluster-admins";
      assert PRIVILEGED_GROUPS[1] == user.groups[i];
    }
  }

  predicate MembersFollowSchema(members: seq<Member>) {
    (exists m :: m in members && m.role == Admin)
    && (forall m :: m in members ==> MatchesSubjectPattern(m.subject) && |m.subject| <= 63)
    && (forall i, j :: 0 <= i < |members| && 0 <= j < |members| && i != j ==> members[i].subject != members[j].subject)
  }

  predicate IsolationFollowsSchema(isolation: Isolation) {
    var allowed := isolation.allowedNamespaces;
    |allowed| <= 64 && (|allowed| == 0 || isolation.enabled)
    && (forall a :: a in allowed ==> MatchesPattern(a) && |a| <= 63)
    && (forall i, j :: 0 <= i < |allowed| && 0 <= j < |allowed| && i != j ==> allowed[i] != allowed[j])
  }

  /** The published schema, rule by rule. */
  predicate FollowsSchema(spec: WorkspaceSpec) {
    MatchesPattern(spec.namespace) && |spec.namespace| <= 63
    && spec.namespace !in ["default", "kube-system", "kube-public", "kube-node-lease", "otterscale-system"]
    && MembersFollowSchema(spec.members) && IsolationFollowsSchema(spec.networkIsolation)
  }

  /** One letter or digit, possibly after another one and any number of these and `-`, `_` and `.`. */
  predicate MatchesSubjectPattern(s: string) {
    s != [] && SubjectChar(s[|s| - 1]) &&
    (|s| > 1 ==>
       SubjectChar(s[0]) && forall c :: c in s[1..|s| - 1] ==> SubjectChar(c) || c == '-' || c == '_' || c == '.')
  }

  lemma ValidSubjectIffPattern(s: string)
    ensures ValidSubject(s) <==> MatchesSubjectPattern(s) && |s| <= 63
  {
    if |s| > 1 {
      var middle := s[1..|s| - 1];
      assert forall i :: 0 < i < |s| - 1 ==> middle[i - 1] == s[i] && s[i] in middle;
    }
  }

  lemma ValidMembersIff(members: seq<Member>)
    ensures UniqueSubjects(members) && (exists i :: 0 <= i < |members| && members[i].role == Admin)
            && (forall i :: 0 <= i < |members| ==> ValidSubject(members[i].subject))
       <==> MembersFollowSchema(members)
  {
    forall m | m in members
      ensures ValidSubject(m.subject) <==> MatchesSubjectPattern(m.subject) && |m.subject| <= 63
    {
      ValidSubjectIffPattern(m.subject);
    }
  }

  lemma ValidIsolationIff(isolation: Isolation)
    ensures ValidAllowed(isolation)
            && (forall i :: 0 <= i < |isolation.allowedNamespaces| ==> DnsLabel(isolation.allowedNamespaces[i]))
       <==> IsolationFollowsSchema(isolation)
  {
    forall a | a in isolation.allowedNamespaces ensures DnsLabel(a) <==> MatchesPattern(a) {
      DnsLabelIsPattern(a);
    }
  }

  /** Admission accepts exactly the specs that follow the schema. */
  lemma ValidSpecIffSchema(spec: WorkspaceSpec)
    ensures ValidSpec(spec) <==> FollowsSchema(spec)
  {
    DnsLabelIsPattern(spec.namespace);
    ValidMembersIff(spec.members);
    ValidIsolationIff(spec.networkIsolation);
  }

  /** A request reaches no Workspace but the one it names. */
  lemma RequestIsLocal(stored: Stored, operatorSA: string, r: Request, n: string)
    requires n != r.name
    ensures n in Served(stored, operatorSA, r) <==> n in stored
    ensures n in stored ==> Served(stored, operatorSA, r)[n] == stored[n]
  {
  }

  /** Anybody may create a Workspace; it comes to be exactly if its name is free and its spec follows the schema. */
  lemma CreationOutcome(stored: Stored, operatorSA: string, r: Request)
    requires r.Create?
    ensures var after := Served(stored, operatorSA, r);
      if r.name in stored || !FollowsSchema(r.spec) then after == stored
      else
        r.name in after
        && after[r.name] == Workspace(r.name, r.uid, 1, DefaultLabels(r.labels, r.spec.members), r.spec, NO_STATUS)
  {
    ValidSpecIffSchema(r.spec);
  }

  lemma UpdateAdmittedIff(stored: Stored, operatorSA: string, r: Request)
    requires r.Update? && r.name in stored
    ensures Admits(stored, operatorSA, r) <==>
      MayChange(r.user, operatorSA, stored[r.name].spec.members) && FollowsSchema(r.spec)
      && r.spec.namespace == stored[r.name].spec.namespace
  {
    ValidSpecIffSchema(r.spec);
    AuthorizedIffMayChange(r.user, stored[r.name], operatorSA);
  }

  lemma UpdateServed(stored: Stored, operatorSA: string, r: Request)
    requires r.Update? && Admits(stored, operatorSA, r)
    ensures Served(stored, operatorSA, r) == stored[r.name := Updated(stored[r.name], r.labels, r.spec)]
  {
  }

  /**
   * An update takes effect exactly if it comes from root or from an admin member of the stored Workspace, follows the
   * schema and keeps the namespace; then labels and spec are as requested, uid and status as before.
   */
  lemma UpdateOutcome(stored: Stored, operatorSA: string, r: Request)
    requires r.Update? && r.name in stored
    ensures var was, after := stored[r.name], Served(stored, operatorSA, r);
      if MayChange(r.user, operatorSA, was.spec.members) && FollowsSchema(r.spec)
         && r.spec.namespace == was.spec.namespace
      then r.name in after && after[r.name].spec == r.spec
           && after[r.name].labels == DefaultLabels(r.labels, r.spec.members)
           && after[r.name].generation == was.generation + (if r.spec == was.spec then 0 else 1)
           && after[r.name].name == was.name && after[r.name].uid == was.uid && after[r.name].status == was.status
      else after == stored
  {
    UpdateAdmittedIff(stored, operatorSA, r);
    if Admits(stored, operatorSA, r) {
      UpdateServed(stored, operatorSA, r);
    }
  }

  /** A deletion takes effect exactly if it comes from root or from an admin member of the stored Workspace. */
  lemma DeletionOutcome(stored: Stored, operatorSA: string, r: Request)
    requires r.Delete? && r.name in stored
    ensures Served(stored, operatorSA, r)
         == if MayChange(r.user, operatorSA, stored[r.name].spec.members) then stored - {r.name} else stored
  {
    AuthorizedIffMayChange(r.user, stored[r.name], operatorSA);
  }

  /** The label index agrees with the members. */
  predicate Indexed(w: Workspace) {
    forall k :: k in w.labels.Keys + UserLabels(w.spec.members) && IsUserLabel(k) ==>
      (k in w.labels <==> k in UserLabels(w.spec.members)) && (k in w.labels ==> w.labels[k] == "true")
  }

  predicate StoredOk(stored: Stored) {
    forall n :: n in stored ==> stored[n].name == n && ValidSpec(stored[n].spec) && Indexed(stored[n])
  }

  lemma RequestKeepsOk(stored: Stored, operatorSA: string, r: Request)
    requires StoredOk(stored)
    ensures StoredOk(Served(stored, operatorSA, r))
  {
    forall n | n in Served(stored, operatorSA, r)
      ensures var w := Served(stored, operatorSA, r)[n]; w.name == n && ValidSpec(w.spec) && Indexed(w)
    {
      if n == r.name && !r.Delete? {
        UserLabelsAreUserLabels(r.spec.members);
      }
    }
  }

  lemma {:induction false} StoredInvariant(stored: Stored, operatorSA: string, rs: seq<Request>)
    requires StoredOk(stored)
    ensures StoredOk(ServedAll(stored, operatorSA, rs))
  {
    if rs == [] {
    } else {
      StoredInvariant(stored, operatorSA, rs[..|rs| - 1]);
      RequestKeepsOk(ServedAll(stored, operatorSA, rs[..|rs| - 1]), operatorSA, rs[|rs| - 1]);
    }
  }

  /** Whatever requests were made, every stored spec follows the schema. */
  lemma StoredFollowsSchema(operatorSA: string, rs: seq<Request>, n: string)
    requires n in ServedAll(map[], operatorSA, rs)
    ensures FollowsSchema(ServedAll(map[], operatorSA, rs)[n].spec)
  {
    StoredInvariant(map[], operatorSA, rs);
    ValidSpecIffSchema(ServedAll(map[], operatorSA, rs)[n].spec);
  }

  /** In every reachable state a label query for a user returns exactly the Workspaces with that member. */
  lemma LabelQueryIsExact(operatorSA: string, rs: seq<Request>, subject: string)
    ensures var stored := ServedAll(map[], operatorSA, rs);
      var mark := "user.otterscale.io/" + subject;
      (set n | n in stored && mark in stored[n].labels && stored[n].labels[mark] == "true")
      == (set n | n in stored && HasMember(stored[n].spec.members, subject))
  {
    StoredInvariant(map[], operatorSA, rs);
    var stored := ServedAll(map[], operatorSA, rs);
    assert IsUserLabel(UserLabel(subject));
    forall n | n in stored
      ensures (UserLabel(subject) in stored[n].labels && stored[n].labels[UserLabel(subject)] == "true")
         <==> HasMember(stored[n].spec.members, subject)
    {
      UserLabelIffMember(stored[n].spec.members, subject);
      assert Indexed(stored[n]);
    }
  }

  /**
   * No Workspace ever locks everyone out: some member, with no groups at all,
       can delete it and can install any spec that
   * follows the schema and keeps the namespace.
   */
  lemma AlwaysManageable(operatorSA: string, rs: seq<Request>, n: string) returns (m: Member)
    requires n in ServedAll(map[], operatorSA, rs)
    ensures var stored := ServedAll(map[], operatorSA, rs);
      var user := UserInfo(m.subject, []);
      m in stored[n].spec.members
      && n !in Served(stored, operatorSA, Delete(user, n))
      && forall labels, spec :: FollowsSchema(spec) && spec.namespace == stored[n].spec.namespace ==>
           n in Served(stored, operatorSA, Update(user, n, labels, spec))
           && Served(stored, operatorSA, Update(user, n, labels, spec))[n].spec == spec
  {
    StoredFollowsSchema(operatorSA, rs, n);
    var stored := ServedAll(map[], operatorSA, rs);
    m :| m in stored[n].spec.members && m.role == Admin;
    var user := UserInfo(m.subject, []);
    DeletionOutcome(stored, operatorSA, Delete(user, n));
    forall labels, spec | FollowsSchema(spec) && spec.namespace == stored[n].spec.namespace
      ensures n in Served(stored, operatorSA, Update(user, n, labels, spec))
      ensures Served(stored, operatorSA, Update(user, n, labels, spec))[n].spec == spec
    {
      UpdateOutcome(stored, operatorSA, Update(user, n, labels, spec));
    }
  }

  /** What was stored when request number `t` arrived. */
  function StoredAt(stored: Stored, operatorSA: string, rs: seq<Request>, t: nat): Stored
    requires t <= |rs|
  {
    ServedAll(stored, operatorSA, rs[..t])
  }

  lemma RequestsInTurn(stored: Stored, operatorSA: string, rs: seq<Request>, t: nat)
    requires t < |rs|
    ensures StoredAt(stored, operatorSA, rs, t + 1) == Served(StoredAt(stored, operatorSA, rs, t), operatorSA, rs[t])
    ensures StoredAt(stored, operatorSA, rs, 0) == stored
    ensures StoredAt(stored, operatorSA, rs, |rs|) == ServedAll(stored, operatorSA, rs)
  {
    assert rs[..t + 1][..t] == rs[..t] && rs[..|rs|] == rs;
  }

  /** The Workspace is there before every request and after the last. */
  predicate Lives(stored: Stored, operatorSA: string, rs: seq<Request>, n: string) {
    forall t :: 0 <= t <= |rs| ==> n in StoredAt(stored, operatorSA, rs, t)
  }

  /** While a Workspace lives, its namespace never changes and is never a reserved one. */
  lemma NamespaceIsForever(stored: Stored, operatorSA: string, rs: seq<Request>, n: string)
    requires StoredOk(stored) && Lives(stored, operatorSA, rs, n)
    ensures var after := ServedAll(stored, operatorSA, rs);
      n in stored && n in after && after[n].uid == stored[n].uid
      && after[n].spec.namespace == stored[n].spec.namespace
      && after[n].spec.namespace !in {"default", "kube-system", "kube-public", "kube-node-lease", "otterscale-system"}
  {
    assert rs[..|rs|] == rs && rs[..0] == [];
    assert n in StoredAt(stored, operatorSA, rs, 0);
    StoredInvariant(stored, operatorSA, rs);
    IdentityAt(stored, operatorSA, rs, n, |rs|);
  }

  lemma {:induction false} IdentityAt(stored: Stored, operatorSA: string, rs: seq<Request>, n: string, t: nat)
    requires t <= |rs| && Lives(stored, operatorSA, rs, n) && n in stored
    ensures var after := StoredAt(stored, operatorSA, rs, t);
      n in after && after[n].uid == stored[n].uid && after[n].spec.namespace == stored[n].spec.namespace
  {
    if t == 0 {
      assert rs[..0] == [];
    } else {
      IdentityAt(stored, operatorSA, rs, n, t - 1);
      RequestsInTurn(stored, operatorSA, rs, t - 1);
    }
  }

  /**
   * Nobody can promote themselves,
       and no outsiders can do so together: while everyone who asks to change a Workspace is
   * neither root nor an admin of it, it stays, and stays as it is.
   */
  lemma {:induction false} NoSelfPromotion(stored: Stored, operatorSA: string, rs: seq<Request>, n: string)
    requires n in stored
    requires forall i :: 0 <= i < |rs| && rs[i].name == n ==>
      !MayChange(rs[i].user, operatorSA, stored[n].spec.members)
    ensures var after := ServedAll(stored, operatorSA, rs); n in after && after[n] == stored[n]
  {
    if rs == [] {
    } else {
      var r := rs[|rs| - 1];
      NoSelfPromotion(stored, operatorSA, rs[..|rs| - 1], n);
      var before := ServedAll(stored, operatorSA, rs[..|rs| - 1]);
      if r.name == n {
        if r.Update? { UpdateOutcome(before, operatorSA, r); }
        if r.Delete? { DeletionOutcome(before, operatorSA, r); }
      }
    }
  }

  /** Whoever made a Workspace go was root or one of its admins at that moment. */
  lemma {:induction false} DeletionNeedsAdmin(stored: Stored, operatorSA: string, rs: seq<Request>, n: string)
    returns (t: nat)
    requires n in stored && n !in ServedAll(stored, operatorSA, rs)
    ensures t < |rs| && rs[t].Delete? && rs[t].name == n && n in StoredAt(stored, operatorSA, rs, t)
    ensures MayChange(rs[t].user, operatorSA, StoredAt(stored, operatorSA, rs, t)[n].spec.members)
  {
    var k := |rs| - 1;
    var before := ServedAll(stored, operatorSA, rs[..k]);
    if n in before {
      t := k;
      if rs[k].Delete? && rs[k].name == n { DeletionOutcome(before, operatorSA, rs[k]); }
    } else {
      t := DeletionNeedsAdmin(stored, operatorSA, rs[..k], n);
      assert rs[..k][..t] == rs[..t];
    }
  }

  predicate AdminAt(stored: Stored, operatorSA: string, rs: seq<Request>, n: string, t: nat, user: string)
    requires t <= |rs|
  {
    n in StoredAt(stored, operatorSA, rs, t)
    && IsAdmin(StoredAt(stored, operatorSA, rs, t)[n].spec.members, user)
  }

  /** Request number `time` made `to` an admin. */
  datatype Grant = Grant(time: nat, to: string)

  /** Its author was root or an admin when the request arrived. */
  predicate IsGrant(stored: Stored, operatorSA: string, rs: seq<Request>, n: string, g: Grant) {
    g.time < |rs| && rs[g.time].Update? && rs[g.time].name == n
    && (IsRoot(rs[g.time].user, operatorSA) || AdminAt(stored, operatorSA, rs, n, g.time, rs[g.time].user.username))
    && !AdminAt(stored, operatorSA, rs, n, g.time, g.to) && AdminAt(stored, operatorSA, rs, n, g.time + 1, g.to)
  }

  /**
   * Grants at increasing times, the first by a root identity or an initial admin, each next one by the last grantee.
   */
  predicate IsChain(stored: Stored, operatorSA: string, rs: seq<Request>, n: string, chain: seq<Grant>) {
    chain != [] && (forall i :: 0 <= i < |chain| ==> IsGrant(stored, operatorSA, rs, n, chain[i]))
    && (IsRoot(rs[chain[0].time].user, operatorSA)
        || AdminAt(stored, operatorSA, rs, n, 0, rs[chain[0].time].user.username))
    && (forall i :: 0 < i < |chain| ==>
          chain[i - 1].time < chain[i].time && rs[chain[i].time].user.username == chain[i - 1].to)
  }

  /** The last grantee's own grant continues the chain. */
  lemma ChainGrows(stored: Stored, operatorSA: string, rs: seq<Request>, n: string, earlier: seq<Grant>, grant: Grant)
    requires IsChain(stored, operatorSA, rs, n, earlier) && IsGrant(stored, operatorSA, rs, n, grant)
    requires earlier[|earlier| - 1].time < grant.time && rs[grant.time].user.username == earlier[|earlier| - 1].to
    ensures IsChain(stored, operatorSA, rs, n, earlier + [grant])
  {
    var k := |earlier|;
    var chain := earlier + [grant];
    assert chain[0] == earlier[0] && chain[k] == grant && chain[k - 1] == earlier[k - 1];
    forall i | 0 <= i < |chain| ensures IsGrant(stored, operatorSA, rs, n, chain[i]) {
      if i < k { assert chain[i] == earlier[i]; }
    }
    forall i | 0 < i < |chain|
      ensures chain[i - 1].time < chain[i].time && rs[chain[i].time].user.username == chain[i - 1].to
    {
      if i < k { assert chain[i] == earlier[i] && chain[i - 1] == earlier[i - 1]; }
    }
  }

  /** Only an update of the Workspace by root or an admin of it makes new admins. */
  lemma AdminsAreGranted(stored: Stored, operatorSA: string, rs: seq<Request>, n: string, t: nat, user: string)
    requires t < |rs| && Lives(stored, operatorSA, rs, n)
    requires !AdminAt(stored, operatorSA, rs, n, t, user) && AdminAt(stored, operatorSA, rs, n, t + 1, user)
    ensures IsGrant(stored, operatorSA, rs, n, Grant(t, user))
  {
    RequestsInTurn(stored, operatorSA, rs, t);
    var before := StoredAt(stored, operatorSA, rs, t);
    assert n in before;
    if rs[t].name == n && rs[t].Update? {
      UpdateOutcome(before, operatorSA, rs[t]);
    }
  }

  /** Provenance: whoever is an admin now was one at the start or is reached by a chain of grants. */
  lemma {:induction false} AdminProvenance(stored: Stored, operatorSA: string, rs: seq<Request>, n: string, t: nat,
                                           user: string)
    returns (chain: seq<Grant>)
    requires t <= |rs| && Lives(stored, operatorSA, rs, n)
    requires AdminAt(stored, operatorSA, rs, n, t, user) && !AdminAt(stored, operatorSA, rs, n, 0, user)
    ensures IsChain(stored, operatorSA, rs, n, chain)
    ensures chain[|chain| - 1].to == user && chain[|chain| - 1].time < t
    decreases t
  {
    if AdminAt(stored, operatorSA, rs, n, t - 1, user) {
      chain := AdminProvenance(stored, operatorSA, rs, n, t - 1, user);
      return;
    }
    var grant := Grant(t - 1, user);
    var author := rs[t - 1].user;
    AdminsAreGranted(stored, operatorSA, rs, n, t - 1, user);
    if IsRoot(author, operatorSA) || AdminAt(stored, operatorSA, rs, n, 0, author.username) {
      chain := [grant];
    } else {
      var earlier := AdminProvenance(stored, operatorSA, rs, n, t - 1, author.username);
      ChainGrows(stored, operatorSA, rs, n, earlier, grant);
      chain := earlier + [grant];
    }
  }
}
