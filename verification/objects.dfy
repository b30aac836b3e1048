/** The objects of the operator: the custom resources of a cluster, the DNSEndpoints and Istio
    Gateways written for them, and the strings they are named by. */
module Objects {

  datatype Option<+T> = None | Some(value: T)

  /** A namespaced name. */
  datatype Key = Key(ns: string, name: string)

  function Lookup<K, V>(m: map<K, V>, k: K): Option<V> {
    if k in m then Some(m[k]) else None
  }

  /** A map after an object is written or, given None, removed. */
  function Edited<V>(m: map<Key, V>, k: Key, v: Option<V>): map<Key, V> {
    match v
    case None => m - {k}
    case Some(x) => m[k := x]
  }

  // ---- cluster-wide configuration ----

  datatype Identity = Identity(
    region: string, cluster: string, domain: string, environmentLetter: string, adoptsRegions: seq<string>)

  datatype ExternalDns = ExternalDns(name: string, region: string)

  /** The list of ExternalDNS controllers of a DNSConfiguration. */
  type Config = seq<ExternalDns>

  predicate DistinctNames(cfg: Config) {
    forall i, j | 0 <= i < j < |cfg| :: cfg[i].name != cfg[j].name
  }

  // ---- routing resources ----

  const MODE_ACTIVE := "Active"
  const MODE_REGION_BOUND := "RegionBound"

  datatype Phase = NoPhase | PhaseActive | PhasePending | PhaseFailed

  datatype Reason =
    | NoReason
    | ReconciliationSucceeded
    | ValidationFailed
    | PolicyInactive
    | ClusterIdentityNotAvailable
    | DNSConfigurationNotAvailable
    | DNSPolicyNotFound
    | DNSPolicyInactive
    | GatewayNotFound
    | NoServiceRoutes
    | DNSEndpointGenerationFailed

  datatype PolicySpec = PolicySpec(mode: string, sourceRegion: string, sourceCluster: string)

  /** What a policy decides: whether it applies to this cluster, and the controllers it selects. */
  datatype Selection = Selection(active: bool, controllers: seq<string>)

  datatype PolicyStatus = PolicyStatus(phase: Phase, selection: Selection, reason: Reason)

  datatype Policy = Policy(spec: PolicySpec, status: PolicyStatus)

  const FRESH_POLICY_STATUS := PolicyStatus(NoPhase, Selection(false, []), NoReason)

  datatype RouteSpec = RouteSpec(
    serviceName: string, gatewayName: string, gatewayNamespace: string, environment: string, application: string)

  datatype RouteStatus = RouteStatus(phase: Phase, reason: Reason, dnsEndpoint: string)

  datatype Route = Route(spec: RouteSpec, status: RouteStatus)

  datatype GatewaySpec = GatewaySpec(controller: string, credentialName: string, targetPostfix: string)

  datatype GatewayStatus = GatewayStatus(phase: Phase, reason: Reason, loadBalancerIP: string, dnsReady: bool)

  datatype Gateway = Gateway(spec: GatewaySpec, status: GatewayStatus, deleting: bool)

  /** A Service: its `istio` label if it has one, its type, and the IPs of its load balancer. */
  datatype Service = Service(istio: Option<string>, isLoadBalancer: bool, ingress: seq<string>)

  // ---- DNSEndpoints ----

  const OPERATOR := "service-router-operator"
  const GATEWAY_SERVICE := "gateway-service"

  /** The label keys the operator uses; every other key is an OtherLabel. */
  datatype LabelKey =
    | ManagedBy
    | Controller
    | Region
    | ServiceRoute
    | SourceNamespace
    | IstioController
    | TargetPostfix
    | ResourceType
    | OtherLabel(key: string)

  type Labels = map<LabelKey, string>

  /** Reading an absent label gives the empty string. */
  function Label(labels: Labels, key: LabelKey): string {
    if key in labels then labels[key] else ""
  }

  predicate Carries(labels: Labels, key: LabelKey, value: string) {
    key in labels && labels[key] == value
  }

  /** A label selector matches when every one of its entries is carried. */
  predicate MatchesLabels(selector: Labels, labels: Labels) {
    forall key | key in selector :: Carries(labels, key, selector[key])
  }

  datatype RecordType = CNAME | A | OtherType

  datatype Record = Record(dnsName: string, recordType: RecordType, targets: seq<string>, ttl: nat)

  datatype Owner = NoOwner | RouteOwner(route: string) | ServiceOwner(service: string)

  /** `annotation` is the value of external-dns.alpha.kubernetes.io/controller. */
  datatype Endpoint = Endpoint(labels: Labels, annotation: Option<string>, spec: seq<Record>, owner: Owner)

  datatype Named = Named(key: Key, body: Endpoint)

  type Endpoints = map<Key, Endpoint>

  // ---- Istio Gateways ----

  datatype Tls = Tls(simple: bool, credentialName: string)

  datatype Server = Server(port: nat, hosts: seq<string>, tls: Option<Tls>)

  datatype IstioGateway = IstioGateway(
    labels: map<string, string>, selector: map<string, string>, servers: seq<Server>)

  // ---- names ----

  function SourceHost(spec: RouteSpec, id: Identity): string {
    spec.serviceName + "-ns-" + id.environmentLetter + "-" + spec.environment + "-" + spec.application
    + "." + id.domain
  }

  function TargetHost(id: Identity, postfix: string): string {
    id.cluster + "-" + id.region + "-" + postfix + "." + id.domain
  }

  /** The Gateway a route names, in the default namespace when the route gives none. */
  function GatewayKey(spec: RouteSpec, defaultNamespace: string): Key {
    Key(if spec.gatewayNamespace == "" then defaultNamespace else spec.gatewayNamespace, spec.gatewayName)
  }
}
