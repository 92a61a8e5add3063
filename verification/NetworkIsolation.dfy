/** The two network-isolation back ends (internal/core/workspace/network_isolation.go) and what they admit. */
module NetworkIsolation {
  import opened Prelude
  import opened Metadata
  import opened Objects
  import opened Cluster
  import opened Api
  import opened Server

  const NETWORK_POLICY := "workspace-network-policy"
  const PEER_AUTHENTICATION := "workspace-peer-authentication"
  const AUTHORIZATION_POLICY := "workspace-authorization-policy"
  const METADATA_NAME := "kubernetes.io/metadata.name"

  const SAME_NAMESPACE := IngressRule([Peer(Some(map[]), None)])

  function NamespaceRule(namespace: string): IngressRule {
    IngressRule([Peer(None, Some(map[METADATA_NAME := namespace]))])
  }

  function IngressRules(allowed: seq<string>): seq<IngressRule> {
    [SAME_NAMESPACE] + seq(|allowed|, i requires 0 <= i < |allowed| => NamespaceRule(allowed[i]))
  }

  function NetworkPolicyFor(spec: WorkspaceSpec): Payload {
    NetworkPolicy(map[], [Ingress], IngressRules(spec.networkIsolation.allowedNamespaces))
  }

  function AuthorizationPolicyFor(spec: WorkspaceSpec): Payload {
    var namespaces := [spec.namespace] + spec.networkIsolation.allowedNamespaces;
    AuthorizationPolicy(map[], [AccessRule([Source(namespaces)])], ALLOW)
  }

  function NetworkPolicyOp(w: Workspace, version: string, istio: bool): Op {
    var key := Key(NetworkPolicyKind, w.spec.namespace, NETWORK_POLICY);
    if !w.spec.networkIsolation.enabled || istio then Remove(key)
    else Ensure(key, ChildMutation(OwnerOfWorkspace(w), LabelsForWorkspace(w.name, version), NetworkPolicyFor(w.spec)))
  }

  function PeerAuthenticationOp(w: Workspace, version: string, istio: bool): Op {
    var key := Key(PeerAuthenticationKind, w.spec.namespace, PEER_AUTHENTICATION);
    if !w.spec.networkIsolation.enabled || !istio then Remove(key)
    else
      Ensure(key,
             ChildMutation(OwnerOfWorkspace(w), LabelsForWorkspace(w.name, version), PeerAuthentication(map[], STRICT)))
  }

  function AuthorizationPolicyOp(w: Workspace, version: string, istio: bool): Op {
    var key := Key(AuthorizationPolicyKind, w.spec.namespace, AUTHORIZATION_POLICY);
    if !w.spec.networkIsolation.enabled || !istio then Remove(key)
    else
      Ensure(key,
             ChildMutation(OwnerOfWorkspace(w), LabelsForWorkspace(w.name, version), AuthorizationPolicyFor(w.spec)))
  }

  function NetworkOps(w: Workspace, version: string, istio: bool): seq<Op> {
    [NetworkPolicyOp(w, version, istio), PeerAuthenticationOp(w, version, istio),
     AuthorizationPolicyOp(w, version, istio)]
  }

  method ReconcileNetworkPolicy(server: ApiServer, w: Workspace, version: string, istio: bool)
    returns (err: Option<Error>)
    requires server.Valid()
    modifies server`faults, server`objects
    ensures server.Valid()
    ensures Ran(server.Snapshot(), err) == Perform(old(server.Snapshot()), NetworkPolicyOp(w, version, istio))
  {
    var key := Key(NetworkPolicyKind, w.spec.namespace, NETWORK_POLICY);
    if !w.spec.networkIsolation.enabled || istio {
      err := server.DeleteIfPresent(key);
      return;
    }
    var allowed := w.spec.networkIsolation.allowedNamespaces;
    var rules := [IngressRule([Peer(Some(map[]), None)])];
    for i := 0 to |allowed|
      invariant rules == IngressRules(allowed[..i])
    {
      rules := rules + [IngressRule([Peer(None, Some(map[METADATA_NAME := allowed[i]]))])];
    }
    assert allowed[..|allowed|] == allowed;
    var policy := NetworkPolicy(map[], [Ingress], rules);
    err := server.CreateOrUpdate(key, ChildMutation(OwnerOfWorkspace(w), LabelsForWorkspace(w.name, version), policy));
  }

  method ReconcilePeerAuthentication(server: ApiServer, w: Workspace, version: string, istio: bool)
    returns (err: Option<Error>)
    requires server.Valid()
    modifies server`faults, server`objects
    ensures server.Valid()
    ensures Ran(server.Snapshot(), err) == Perform(old(server.Snapshot()), PeerAuthenticationOp(w, version, istio))
  {
    var key := Key(PeerAuthenticationKind, w.spec.namespace, PEER_AUTHENTICATION);
    if !w.spec.networkIsolation.enabled || !istio {
      err := server.DeleteIfPresent(key);
      return;
    }
    var peer := PeerAuthentication(map[], STRICT);
    err := server.CreateOrUpdate(key, ChildMutation(OwnerOfWorkspace(w), LabelsForWorkspace(w.name, version), peer));
  }

  method ReconcileAuthorizationPolicy(server: ApiServer, w: Workspace, version: string, istio: bool)
    returns (err: Option<Error>)
    requires server.Valid()
    modifies server`faults, server`objects
    ensures server.Valid()
    ensures Ran(server.Snapshot(), err) == Perform(old(server.Snapshot()), AuthorizationPolicyOp(w, version, istio))
  {
    var key := Key(AuthorizationPolicyKind, w.spec.namespace, AUTHORIZATION_POLICY);
    if !w.spec.networkIsolation.enabled || !istio {
      err := server.DeleteIfPresent(key);
      return;
    }
    var allowedNamespaces := [w.spec.namespace];
    allowedNamespaces := allowedNamespaces + w.spec.networkIsolation.allowedNamespaces;
    var policy := AuthorizationPolicy(map[], [AccessRule([Source(allowedNamespaces)])], ALLOW);
    err := server.CreateOrUpdate(key, ChildMutation(OwnerOfWorkspace(w), LabelsForWorkspace(w.name, version), policy));
  }

  method ReconcileNetworkIsolation(server: ApiServer, w: Workspace, version: string, istio: bool)
    returns (err: Option<Error>)
    requires server.Valid()
    modifies server`faults, server`objects
    ensures server.Valid()
    ensures Ran(server.Snapshot(), err) == RunOps(old(server.Snapshot()), NetworkOps(w, version, istio))
  {
    ghost var ops := NetworkOps(w, version, istio);
    err := ReconcileNetworkPolicy(server, w, version, istio);
    if err.Some? { return; }
    assert RunOps(old(server.Snapshot()), ops) == RunOps(server.Snapshot(), ops[1..]);
    err := ReconcilePeerAuthentication(server, w, version, istio);
    if err.Some? { return; }
    assert ops[1..][1..] == ops[2..] && ops[2..][1..] == [];
    assert RunOps(old(server.Snapshot()), ops) == RunOps(server.Snapshot(), ops[2..]);
    err := ReconcileAuthorizationPolicy(server, w, version, istio);
  }

  /** A workload that opens a connection. The API server labels each namespace with its own name. */
  datatype Origin = Origin(namespace: string, namespaceLabels: Labels, podLabels: Labels)

  predicate WellLabelled(o: Origin) {
    METADATA_NAME in o.namespaceLabels && o.namespaceLabels[METADATA_NAME] == o.namespace
  }

  predicate Selects(selector: Labels, labels: Labels) {
    forall k :: k in selector ==> k in labels && labels[k] == selector[k]
  }

  /** networking.k8s.io/v1: a bare podSelector means the policy's own namespace. */
  predicate PeerAdmits(home: string, p: Peer, o: Origin) {
    (p.podSelector.Some? || p.namespaceSelector.Some?) &&
    (p.podSelector.Some? ==> Selects(p.podSelector.value, o.podLabels)) &&
    (if p.namespaceSelector.Some? then Selects(p.namespaceSelector.value, o.namespaceLabels) else o.namespace == home)
  }

  predicate RuleAdmits(home: string, r: IngressRule, o: Origin) {
    r.from == [] || exists i :: 0 <= i < |r.from| && PeerAdmits(home, r.from[i], o)
  }

  /** Ingress to a pod in namespace `home` with these labels, as far as one policy there has a say. */
  predicate NetworkPolicyAdmits(home: string, p: Payload, o: Origin, pod: Labels)
    requires p.NetworkPolicy?
  {
    Selects(p.pods, pod) && Ingress in p.types ==>
      exists i :: 0 <= i < |p.ingress| && RuleAdmits(home, p.ingress[i], o)
  }

  /** Without egress rules, a policy of that type lets nothing out of the pods it selects. */
  predicate NetworkPolicyStopsEgress(p: Payload, pod: Labels)
    requires p.NetworkPolicy?
  {
    Selects(p.pods, pod) && Egress in p.types
  }

  /** Istio string match: presence `*`, suffix `*x`, prefix `x*`, or exact. */
  predicate StringMatch(pattern: string, value: string) {
    if pattern == "*" then value != ""
    else if pattern != "" && pattern[0] == '*' then
      |pattern| - 1 <= |value| && value[|value| - (|pattern| - 1)..] == pattern[1..]
    else if pattern != "" && pattern[|pattern| - 1] == '*' then
      |pattern| - 1 <= |value| && value[..|pattern| - 1] == pattern[..|pattern| - 1]
    else pattern == value
  }

  predicate SourceAdmits(s: Source, o: Origin) {
    s.namespaces == [] || exists i :: 0 <= i < |s.namespaces| && StringMatch(s.namespaces[i], o.namespace)
  }

  predicate AccessRuleAdmits(r: AccessRule, o: Origin) {
    r.from == [] || exists i :: 0 <= i < |r.from| && SourceAdmits(r.from[i], o)
  }

  /** To a workload it selects, an ALLOW policy admits what one of its rules matches and a DENY policy all the rest. */
  predicate AuthorizationPolicyAdmits(p: Payload, o: Origin, workload: Labels)
    requires p.AuthorizationPolicy?
  {
    Selects(p.workloads, workload) ==>
      ((exists i :: 0 <= i < |p.rules| && AccessRuleAdmits(p.rules[i], o)) <==> p.action == ALLOW)
  }

  /** Whether a workload with these labels still accepts connections outside mutual TLS. */
  predicate AcceptsPlaintext(p: Payload, workload: Labels)
    requires p.PeerAuthentication?
  {
    Selects(p.peers, workload) ==> p.mode != STRICT
  }

  predicate DnsChar(c: char) {
    'a' <= c <= 'z' || '0' <= c <= '9' || c == '-'
  }

  /** The shape that both name patterns of the Workspace schema enforce. */
  predicate DnsLabel(s: string) {
    s != "" && s[0] != '-' && s[|s| - 1] != '-' && forall i :: 0 <= i < |s| ==> DnsChar(s[i])
  }

  /** Every namespace name in the spec has passed the schema. */
  predicate ValidNames(spec: WorkspaceSpec) {
    DnsLabel(spec.namespace)
    && forall i :: 0 <= i < |spec.networkIsolation.allowedNamespaces| ==>
          DnsLabel(spec.networkIsolation.allowedNamespaces[i])
  }

  /** The workspace's own namespace plus the allowed ones. */
  predicate Intended(spec: WorkspaceSpec, namespace: string) {
    namespace == spec.namespace || namespace in spec.networkIsolation.allowedNamespaces
  }

  /** The NetworkPolicy, for every source and every pod: in come the intended namespaces, and anything may go out. */
  lemma NetworkPolicyAdmitsIntended(spec: WorkspaceSpec, o: Origin, pod: Labels)
    requires WellLabelled(o)
    ensures NetworkPolicyAdmits(spec.namespace, NetworkPolicyFor(spec), o, pod) <==> Intended(spec, o.namespace)
    ensures !NetworkPolicyStopsEgress(NetworkPolicyFor(spec), pod)
  {
    var allowed := spec.networkIsolation.allowedNamespaces;
    var rules := IngressRules(allowed);
    assert RuleAdmits(spec.namespace, rules[0], o) <==> o.namespace == spec.namespace by {
      assert rules[0].from[0] == Peer(Some(map[]), None);
    }
    forall i | 0 <= i < |allowed|
      ensures RuleAdmits(spec.namespace, rules[i + 1], o) <==> o.namespace == allowed[i]
    {
      var peer := rules[i + 1].from[0];
      assert METADATA_NAME in peer.namespaceSelector.value;
    }
    if Intended(spec, o.namespace) && o.namespace != spec.namespace {
      var i :| 0 <= i < |allowed| && allowed[i] == o.namespace;
      assert RuleAdmits(spec.namespace, rules[i + 1], o);
    }
    if NetworkPolicyAdmits(spec.namespace, NetworkPolicyFor(spec), o, pod) {
      assert Ingress in NetworkPolicyFor(spec).types by { assert NetworkPolicyFor(spec).types[0] == Ingress; }
      var i :| 0 <= i < |rules| && RuleAdmits(spec.namespace, rules[i], o);
      assert i > 0 ==> o.namespace == allowed[i - 1];
    }
  }

  lemma SourceAdmitsIntended(spec: WorkspaceSpec, o: Origin)
    requires ValidNames(spec)
    ensures SourceAdmits(Source([spec.namespace] + spec.networkIsolation.allowedNamespaces), o)
       <==> Intended(spec, o.namespace)
  {
    var allowed := spec.networkIsolation.allowedNamespaces;
    var namespaces := [spec.namespace] + allowed;
    forall i | 0 <= i < |namespaces| ensures StringMatch(namespaces[i], o.namespace) <==> namespaces[i] == o.namespace {
      var name := namespaces[i];
      assert DnsLabel(name) by { if i > 0 { assert name == allowed[i - 1]; } }
      assert DnsChar(name[0]) && DnsChar(name[|name| - 1]);
    }
    if Intended(spec, o.namespace) {
      if o.namespace == spec.namespace {
        assert StringMatch(namespaces[0], o.namespace);
      } else {
        var i :| 0 <= i < |allowed| && allowed[i] == o.namespace;
        assert StringMatch(namespaces[i + 1], o.namespace);
      }
    }
  }

  /** The AuthorizationPolicy, for every source and every workload. */
  lemma AuthorizationPolicyAdmitsIntended(spec: WorkspaceSpec, o: Origin, workload: Labels)
    requires ValidNames(spec)
    ensures AuthorizationPolicyAdmits(AuthorizationPolicyFor(spec), o, workload) <==> Intended(spec, o.namespace)
  {
    SourceAdmitsIntended(spec, o);
    var p := AuthorizationPolicyFor(spec);
    assert p.rules[0].from[0] == Source([spec.namespace] + spec.networkIsolation.allowedNamespaces);
    assert AccessRuleAdmits(p.rules[0], o) <==> SourceAdmits(p.rules[0].from[0], o);
  }

  /** For every validated spec the two back ends admit the same sources to every pod, namely the intended ones. */
  lemma BackEndsAgree(spec: WorkspaceSpec, o: Origin, pod: Labels)
    requires ValidNames(spec) && WellLabelled(o)
    ensures NetworkPolicyAdmits(spec.namespace, NetworkPolicyFor(spec), o, pod)
       <==> AuthorizationPolicyAdmits(AuthorizationPolicyFor(spec), o, pod)
    ensures NetworkPolicyAdmits(spec.namespace, NetworkPolicyFor(spec), o, pod) <==> Intended(spec, o.namespace)
  {
    NetworkPolicyAdmitsIntended(spec, o, pod);
    AuthorizationPolicyAdmitsIntended(spec, o, pod);
  }

  /** The name pattern matters: unvalidated, `*` opens the Istio back end to everyone and the other to nobody. */
  lemma WildcardSeparatesBackEnds(spec: WorkspaceSpec, o: Origin, pod: Labels)
    requires spec.networkIsolation.allowedNamespaces == ["*"] && WellLabelled(o)
    requires o.namespace != "" && o.namespace != "*" && o.namespace != spec.namespace
    ensures AuthorizationPolicyAdmits(AuthorizationPolicyFor(spec), o, pod)
    ensures !NetworkPolicyAdmits(spec.namespace, NetworkPolicyFor(spec), o, pod)
  {
    NetworkPolicyAdmitsIntended(spec, o, pod);
    var p := AuthorizationPolicyFor(spec);
    assert StringMatch(p.rules[0].from[0].namespaces[1], o.namespace);
    assert SourceAdmits(p.rules[0].from[0], o) && AccessRuleAdmits(p.rules[0], o);
  }

  predicate Alphanumeric(c: char) {
    'a' <= c <= 'z' || '0' <= c <= '9'
  }

  /** The schema's pattern: one alphanumeric, or one at each end and between them any of these and `-`. */
  predicate MatchesPattern(s: string) {
    if |s| <= 1 then exists c :: c in s && Alphanumeric(c)
    else Alphanumeric(s[0]) && Alphanumeric(s[|s| - 1])
         && forall i :: 0 < i < |s| - 1 ==> Alphanumeric(s[i]) || s[i] == '-'
  }

  lemma DnsLabelIsPattern(s: string)
    ensures DnsLabel(s) <==> MatchesPattern(s)
  {
    if DnsLabel(s) {
      assert DnsChar(s[0]) && DnsChar(s[|s| - 1]);
      if |s| == 1 {
        assert s[0] in s && Alphanumeric(s[0]);
      }
    }
    if MatchesPattern(s) {
      forall i | 0 <= i < |s| ensures DnsChar(s[i]) {
        assert i == 0 || i == |s| - 1 || Alphanumeric(s[i]) || s[i] == '-';
      }
    }
  }
}
