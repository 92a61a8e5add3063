/** The cluster objects that the operator writes. Specs it only copies are opaque strings. */
module Objects {
  import opened Prelude
  import opened Metadata
  import opened Conditions

  datatype Kind =
    | NamespaceKind
    | RoleBindingKind
    | ResourceQuotaKind
    | LimitRangeKind
    | NetworkPolicyKind
    | PeerAuthenticationKind
    | AuthorizationPolicyKind
    | HelmReleaseKind
    | KustomizationKind

  /** Cluster-scoped objects have the empty namespace. */
  datatype Key = Key(kind: Kind, namespace: string, name: string)

  predicate IsIstio(kind: Kind) {
    kind == PeerAuthenticationKind || kind == AuthorizationPolicyKind
  }

  predicate IsFlux(kind: Kind) {
    kind == HelmReleaseKind || kind == KustomizationKind
  }

  function NamespaceKey(namespace: string): Key {
    Key(NamespaceKind, "", namespace)
  }

  datatype Subject = Subject(kind: string, apiGroup: string, name: string)

  /** Selectors are `matchLabels` maps; None is a nil selector. */
  datatype Peer = Peer(podSelector: Option<Labels>, namespaceSelector: Option<Labels>)

  datatype IngressRule = IngressRule(from: seq<Peer>)

  datatype PolicyType = Ingress | Egress

  datatype Source = Source(namespaces: seq<string>)

  datatype AccessRule = AccessRule(from: seq<Source>)

  datatype AccessAction = ALLOW | DENY

  datatype MtlsMode = STRICT | PERMISSIVE

  datatype HelmSpec = HelmSpec(chart: string, values: Option<string>)

  /** The Ready condition that a Flux controller reports on its object. */
  datatype FluxReady = FluxReady(status: ConditionStatus, reason: string, message: string)

  datatype Payload =
    | NamespaceObject
    | RoleBinding(roleKind: string, roleGroup: string, roleName: string, subjects: seq<Subject>)
    | ResourceQuota(quota: string)
    | LimitRange(limits: string)
    | NetworkPolicy(pods: Labels, types: seq<PolicyType>, ingress: seq<IngressRule>)
    | PeerAuthentication(peers: Labels, mode: MtlsMode)
    | AuthorizationPolicy(workloads: Labels, rules: seq<AccessRule>, action: AccessAction)
    | HelmRelease(helm: HelmSpec, helmReady: Option<FluxReady>)
    | Kustomization(path: string, kustomizationReady: Option<FluxReady>)

  datatype Object = Object(labels: Labels, owners: seq<OwnerRef>, payload: Payload)
}
