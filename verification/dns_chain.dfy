/** The two-level DNS chain: the CNAMEs the ServiceRoute controller writes meet the A records the
    IngressDNS controller writes, in every regional view. */
module DnsChain {
  import opened Objects
  import opened EndpointDiff
  import opened ServiceRouteController
  import opened RoutingRuns
  import Gateways = GatewayController
  import opened IngressDnsController
  import opened IngressPass

  // ---- labels under a fixed configuration ----

  /** A route endpoint carries the labels its controller has in the configuration. */
  ghost predicate FaithfulRoute(cfg: Config, k: Key, e: Endpoint) {
    && WellFormed(k, e)
    && e.labels[Controller] in ControllerMap(cfg)
    && e.labels == RouteLabels(Key(e.labels[SourceNamespace], e.labels[ServiceRoute]),
                               ControllerMap(cfg)[e.labels[Controller]])
  }

  ghost predicate FaithfulRoutes(cfg: Config, m: Endpoints) {
    forall k | k in m && RouteEndpoint(m[k]) :: FaithfulRoute(cfg, k, m[k])
  }

  /** A Gateway endpoint is named after its labels and a configured controller, whose region it carries,
      and holds one A record. */
  ghost predicate FaithfulRecord(cfg: Config, k: Key, e: Endpoint) {
    && |e.spec| == 1 && e.spec[0].recordType == A && e.spec[0].ttl == 300 && |e.spec[0].targets| == 1
    && exists ext :: ext in cfg && k.name == IngressName(LabelledConfig(e), ext.name)
                     && e.labels == IngressLabels(LabelledConfig(e), ext.region)
  }

  ghost predicate FaithfulRecords(cfg: Config, m: Endpoints) {
    forall k | k in m && GatewayEndpoint(m[k]) :: FaithfulRecord(cfg, k, m[k])
  }

  /** The names of the records are used by Gateway endpoints of the same configuration only. */
  ghost predicate NamesApart(m: Endpoints, list: seq<Named>) {
    && (forall n | n in list && n.key in m ::
          GatewayEndpoint(m[n.key]) && LabelledConfig(m[n.key]) == LabelledConfig(n.body))
    && (forall a, b | a in list && b in list && a.key == b.key :: LabelledConfig(a.body) == LabelledConfig(b.body))
  }

  /** Desired route endpoints and records do not share names. */
  ghost predicate Disjoint(desired: Endpoints, list: seq<Named>) {
    forall n | n in list :: n.key !in desired
  }

  lemma RouteEndpointsAreNoGateways(cfg: Config, m: Endpoints, k: Key)
    requires FaithfulRoutes(cfg, m) && k in m && RouteEndpoint(m[k])
    ensures !GatewayEndpoint(m[k])
  {}

  /** The desired endpoints of a route are faithful. */
  lemma DesiredIsFaithful(route: Key, cfg: Config, names: set<string>, hosts: Hosts)
    ensures var desired := Desired(route, ControllerMap(cfg), names, hosts);
      && (forall k | k in desired :: FaithfulRoute(cfg, k, desired[k]) && BelongsTo(route, desired[k].labels))
      && Labelled(OwnScope(route), desired)
  {
    ControllerMapMeaning(cfg);
    BuiltIsWellFormed(route, ControllerMap(cfg), names, hosts);
    var desired := Desired(route, ControllerMap(cfg), names, hosts);
    forall k | k in desired
      ensures k.ns == route.ns && FaithfulRoute(cfg, k, desired[k])
    {
      assert WellFormed(k, desired[k]);
      var n :| n in names && n in ControllerMap(cfg) && k == EndpointKey(route, n);
      KeyNamesController(route, n);
    }
  }

  // ---- each controller keeps what the other one did ----

  /** Both endpoint kinds are faithful, and the names are apart. */
  ghost predicate Faithful(cfg: Config, m: Endpoints, list: seq<Named>) {
    FaithfulRoutes(cfg, m) && FaithfulRecords(cfg, m) && NamesApart(m, list)
  }

  /** A goal holds what the store held, or endpoints written for the route over its own. */
  lemma GoalParts(route: Key, desired: Endpoints, m: Endpoints, k: Key)
    requires k in Goal(OwnScope(route), desired, m) && !Clash(OwnScope(route), desired, m)
    ensures var e := Goal(OwnScope(route), desired, m)[k];
      || (k in m && e == m[k])
      || (k in desired && e == Written(m, k, desired[k]) && (k in m ==> BelongsTo(route, m[k].labels)))
  {}

  lemma WrittenIsFaithful(route: Key, cfg: Config, desired: Endpoints, m: Endpoints, k: Key)
    requires k in desired && FaithfulRoute(cfg, k, desired[k]) && BelongsTo(route, desired[k].labels)
    requires FaithfulRoutes(cfg, m) && (k in m ==> BelongsTo(route, m[k].labels))
    ensures FaithfulRoute(cfg, k, Written(m, k, desired[k])) && !GatewayEndpoint(Written(m, k, desired[k]))
  {}

  lemma RouteRunKeepsFaithful(route: Key, cfg: Config, names: set<string>, hosts: Hosts, m: Endpoints, list: seq<Named>)
    requires Faithful(cfg, m, list)
    requires var desired := Desired(route, ControllerMap(cfg), names, hosts);
      Disjoint(desired, list) && !Clash(OwnScope(route), desired, m)
    ensures Faithful(cfg, Goal(OwnScope(route), Desired(route, ControllerMap(cfg), names, hosts), m), list)
  {
    var desired := Desired(route, ControllerMap(cfg), names, hosts);
    DesiredIsFaithful(route, cfg, names, hosts);
    GoalKeepsFaithful(route, cfg, desired, m, list);
  }

  lemma GoalKeepsFaithful(route: Key, cfg: Config, desired: Endpoints, m: Endpoints, list: seq<Named>)
    requires Faithful(cfg, m, list) && Disjoint(desired, list) && !Clash(OwnScope(route), desired, m)
    requires forall k | k in desired :: FaithfulRoute(cfg, k, desired[k]) && BelongsTo(route, desired[k].labels)
    ensures Faithful(cfg, Goal(OwnScope(route), desired, m), list)
  {
    var g := Goal(OwnScope(route), desired, m);
    forall k | k in g
      ensures (k in m && g[k] == m[k]) || (k in desired && FaithfulRoute(cfg, k, g[k]) && !GatewayEndpoint(g[k]))
    {
      GoalParts(route, desired, m, k);
      if k in desired && (k in m ==> BelongsTo(route, m[k].labels)) {
        WrittenIsFaithful(route, cfg, desired, m, k);
      }
    }
    assert FaithfulRoutes(cfg, g);
    assert FaithfulRecords(cfg, g);
    assert NamesApart(g, list);
  }

  lemma RouteRunKeepsQuiet(route: Key, cfg: Config, desired: Endpoints, m: Endpoints, list: seq<Named>)
    requires Faithful(cfg, m, list) && Records(list) && Quiet(m, list) && Disjoint(desired, list)
    ensures Quiet(Goal(OwnScope(route), desired, m), list)
  {}

  lemma RecordIsFaithful(c: GatewayConfig, service: Key, ext: ExternalDns, host: string, ip: string, cfg: Config)
    requires ext in cfg
    ensures var n := IngressEndpoint(c, service, ext, host, ip);
      FaithfulRecord(cfg, n.key, n.body) && LabelledConfig(n.body) == c && GatewayEndpoint(n.body)
  {}

  lemma PlanRecordsAreFaithful(plan: Plan, active: set<GatewayConfig>, services: map<Key, Service>, id: Identity,
                               cfg: Config)
    requires IsPlan(plan, active, services)
    ensures forall n | n in PlanRecords(plan, services, id, cfg) ::
              GatewayEndpoint(n.body) && FaithfulRecord(cfg, n.key, n.body)
  {
    forall n | n in PlanRecords(plan, services, id, cfg)
      ensures GatewayEndpoint(n.body) && FaithfulRecord(cfg, n.key, n.body)
    {
      assert forall c | c in plan.order :: c in Gateways.Members(plan.order);
      AllRecordsMember(plan.order, plan.choice, services, id, cfg, n);
      var c :| c in plan.order && n in RecordsFor(c, services, plan.choice[c], id, cfg);
      var i :| 0 <= i < |cfg| && n == RecordsFor(c, services, plan.choice[c], id, cfg)[i];
      RecordIsFaithful(c, plan.choice[c].value, cfg[i], TargetHost(id, c.postfix),
                       Gateways.Address(services, plan.choice[c]), cfg);
    }
  }

  /** After a pass an endpoint is as before, or has spec and labels of a record under its name. */
  lemma PassParts(m: Endpoints, plan: Plan, active: set<GatewayConfig>, services: map<Key, Service>,
                  id: Identity, cfg: Config, k: Key)
    requires IsPlan(plan, active, services) && k in After(m, plan, active, services, id, cfg)
    ensures var list, e := PlanRecords(plan, services, id, cfg), After(m, plan, active, services, id, cfg)[k];
      || (k in m && e == m[k])
      || exists n :: n in list && n.key == k && e.spec == n.body.spec && e.labels == n.body.labels
  {
    PlanRecordsAreRecords(plan, active, services, id, cfg);
    var list, swept := PlanRecords(plan, services, id, cfg), Swept(m, ScannedNamespaces(services), active);
    if exists n :: n in list && n.key == k {
      WantedHeld(swept, list, k);
    } else {
      UnwantedKept(swept, list, k);
      assert Lookup(UpsertAll(swept, list), k) == Lookup(swept, k);
    }
  }

  lemma SameContentIsFaithful(cfg: Config, k: Key, e: Endpoint, n: Named)
    requires GatewayEndpoint(n.body) && FaithfulRecord(cfg, k, n.body)
    requires e.spec == n.body.spec && e.labels == n.body.labels
    ensures GatewayEndpoint(e) && FaithfulRecord(cfg, k, e) && !RouteEndpoint(e)
    ensures LabelledConfig(e) == LabelledConfig(n.body)
  {}

  /** A pass keeps every route endpoint, adds none, and keeps the store faithful. */
  lemma PassKeepsFaithful(m: Endpoints, plan: Plan, active: set<GatewayConfig>, services: map<Key, Service>,
                          id: Identity, cfg: Config)
    requires IsPlan(plan, active, services) && Faithful(cfg, m, PlanRecords(plan, services, id, cfg))
    ensures Faithful(cfg, After(m, plan, active, services, id, cfg), PlanRecords(plan, services, id, cfg))
    ensures SameRoutes(m, After(m, plan, active, services, id, cfg))
  {
    PlanRecordsAreFaithful(plan, active, services, id, cfg);
    var list, u := PlanRecords(plan, services, id, cfg), After(m, plan, active, services, id, cfg);
    forall k | k in u
      ensures (k in m && u[k] == m[k])
              || (GatewayEndpoint(u[k]) && FaithfulRecord(cfg, k, u[k]) && !RouteEndpoint(u[k])
                  && exists n :: n in list && n.key == k && LabelledConfig(u[k]) == LabelledConfig(n.body))
    {
      PassParts(m, plan, active, services, id, cfg, k);
      if n :| n in list && n.key == k && u[k].spec == n.body.spec && u[k].labels == n.body.labels {
        SameContentIsFaithful(cfg, k, u[k], n);
      }
    }
    forall k | k in m && RouteEndpoint(m[k]) ensures k in u && u[k] == m[k] {
      PassKeepsRoute(m, plan, active, services, id, cfg, k);
    }
  }

  /** The two stores have the same route endpoints. */
  ghost predicate SameRoutes(m: Endpoints, m': Endpoints) {
    && (forall k | k in m && RouteEndpoint(m[k]) :: k in m' && m'[k] == m[k])
    && (forall k | k in m' && RouteEndpoint(m'[k]) :: k in m && m'[k] == m[k])
  }

  lemma PassKeepsRoute(m: Endpoints, plan: Plan, active: set<GatewayConfig>, services: map<Key, Service>,
                       id: Identity, cfg: Config, k: Key)
    requires IsPlan(plan, active, services) && Faithful(cfg, m, PlanRecords(plan, services, id, cfg))
    requires k in m && RouteEndpoint(m[k])
    ensures var u := After(m, plan, active, services, id, cfg); k in u && u[k] == m[k]
  {
    PlanRecordsAreRecords(plan, active, services, id, cfg);
    var list, swept := PlanRecords(plan, services, id, cfg), Swept(m, ScannedNamespaces(services), active);
    RouteEndpointsAreNoGateways(cfg, m, k);
    assert forall n | n in list :: n.key != k;
    UnwantedKept(swept, list, k);
    assert Lookup(UpsertAll(swept, list), k) == Some(m[k]);
  }

  // ---- the chain ----

  /** In the view of a region, `name` is a CNAME for a name that has an A record with the address. */
  ghost predicate Reaches(m: Endpoints, region: string, name: string, ip: string) {
    exists j, k, target ::
      && k in m && Label(m[k].labels, Region) == region && m[k].spec == [Record(name, CNAME, [target], 0)]
      && j in m && Label(m[j].labels, Region) == region && m[j].spec == [Record(target, A, [ip], 300)]
  }

  /** The surroundings of a route: its Gateway, and what both controllers read. */
  datatype Setting = Setting(
    route: Key, spec: RouteSpec, gateway: GatewaySpec, active: seq<string>, id: Identity, cfg: Config,
    configs: set<GatewayConfig>, services: map<Key, Service>, plan: Plan)

  function Wants(s: Setting): Endpoints {
    Desired(s.route, ControllerMap(s.cfg), Names(s.active), HostsOf(s.spec, s.gateway, s.id))
  }

  function ItsRecords(s: Setting): seq<Named> {
    PlanRecords(s.plan, s.services, s.id, s.cfg)
  }

  /** What the ServiceRoute controller sees of it. */
  function SeenBy(s: Setting): View {
    View(Some(s.spec), Some(Selection(true, s.active)), Some(s.cfg), Some(s.gateway), Some(s.id))
  }

  /** The store after one reconciliation of the route. */
  ghost function AfterRoute(s: Setting, m: Endpoints): Endpoints {
    Effect(s.route, Decide(s.route, SeenBy(s)), m)
  }

  ghost predicate RouteBlocked(s: Setting, m: Endpoints) {
    Blocked(s.route, Decide(s.route, SeenBy(s)), m)
  }

  /** The store after one pass. */
  ghost function AfterPass(s: Setting, m: Endpoints): Endpoints
    requires IsPlan(s.plan, s.configs, s.services)
  {
    After(m, s.plan, s.configs, s.services, s.id, s.cfg)
  }

  /** Some active controller is configured. */
  predicate Configured(s: Setting) {
    SomeConfigured(ControllerMap(s.cfg), s.active)
  }

  /** The route holds no endpoint. */
  ghost predicate NothingHeld(route: Key, m: Endpoints) {
    forall k | k in m :: !Selects(OwnScope(route), k, m[k])
  }

  /** The route is valid, its Gateway live with an address, and no names clash. */
  ghost predicate Live(s: Setting) {
    && ValidRoute(s.spec)
    && IsPlan(s.plan, s.configs, s.services) && UniqueBalancers(s.services)
    && ConfigOf(s.gateway) in s.configs
    && Gateways.Address(s.services, s.plan.choice[ConfigOf(s.gateway)]) != ""
    && Records(ItsRecords(s)) && ClashFree(ItsRecords(s))
    && Disjoint(Wants(s), ItsRecords(s))
  }

  ghost predicate Sane(s: Setting) {
    Live(s) && DistinctNames(s.cfg)
  }

  /** Both controllers have nothing left to do. */
  ghost predicate Done(s: Setting, m: Endpoints)
    requires Records(ItsRecords(s))
  {
    Faithful(s.cfg, m, ItsRecords(s)) && Work(OwnScope(s.route), Wants(s), m) == 0 && Quiet(m, ItsRecords(s))
  }

  /** A Gateway endpoint that is not due for a record holds that very record, with its region. */
  lemma NotDueHolds(cfg: Config, m: Endpoints, c: GatewayConfig, service: Key, ext: ExternalDns, host: string,
                    ip: string)
    requires DistinctNames(cfg) && ext in cfg && FaithfulRecords(cfg, m)
    requires var n := IngressEndpoint(c, service, ext, host, ip);
      !Due(m, n) && GatewayEndpoint(m[n.key]) && LabelledConfig(m[n.key]) == c
    ensures var k := Key(service.ns, IngressName(c, ext.name));
      k in m && Label(m[k].labels, Region) == ext.region && m[k].spec == [Record(host, A, [ip], 300)]
  {
    var n := IngressEndpoint(c, service, ext, host, ip);
    var e := m[n.key];
    assert FaithfulRecord(cfg, n.key, e);
    var ext' :| ext' in cfg && n.key.name == IngressName(c, ext'.name) && e.labels == IngressLabels(c, ext'.region);
    SuffixInjective("gateway-controller-" + c.controller + "-" + c.postfix + "-", ext.name, ext'.name);
    assert ext' == ext;
    assert e.spec == [e.spec[0]] && e.spec[0].targets == [ip];
  }

  lemma PlanHasRecord(plan: Plan, active: set<GatewayConfig>, services: map<Key, Service>, id: Identity, cfg: Config,
                      c: GatewayConfig, ext: ExternalDns)
    requires IsPlan(plan, active, services) && c in active && ext in cfg
    requires Gateways.Address(services, plan.choice[c]) != ""
    ensures plan.choice[c].Some?
    ensures IngressEndpoint(c, plan.choice[c].value, ext, TargetHost(id, c.postfix),
                            Gateways.Address(services, plan.choice[c]))
            in PlanRecords(plan, services, id, cfg)
  {
    var service := plan.choice[c];
    var i :| 0 <= i < |cfg| && cfg[i] == ext;
    var n := IngressEndpoint(c, service.value, ext, TargetHost(id, c.postfix), Gateways.Address(services, service));
    assert RecordsFor(c, services, service, id, cfg)[i] == n;
    PlanRecordsAreRecords(plan, active, services, id, cfg);
  }

  lemma QuietRecord(m: Endpoints, list: seq<Named>, n: Named)
    requires Records(list) && Quiet(m, list) && NamesApart(m, list) && n in list
    ensures |n.body.spec| == 1 && |n.body.spec[0].targets| == 1 && !Due(m, n)
    ensures GatewayEndpoint(m[n.key]) && LabelledConfig(m[n.key]) == LabelledConfig(n.body)
  {}

  /** The endpoint `k` is an A record for the address, in the view of the controller's region. */
  ghost predicate HoldsRecord(m: Endpoints, k: Key, ext: ExternalDns, host: string, ip: string) {
    k in m && Label(m[k].labels, Region) == ext.region && m[k].spec == [Record(host, A, [ip], 300)]
  }

  /** When all is done the Gateway has its record for every configured controller. */
  lemma RecordOf(s: Setting, m: Endpoints, ext: ExternalDns)
    requires Sane(s) && Done(s, m) && ext in s.cfg
    ensures var c := ConfigOf(s.gateway);
      var service := s.plan.choice[c];
      service.Some?
      && HoldsRecord(m, Key(service.value.ns, IngressName(c, ext.name)), ext,
                     TargetHost(s.id, s.gateway.targetPostfix), Gateways.Address(s.services, service))
  {
    var c := ConfigOf(s.gateway);
    var service := s.plan.choice[c];
    var host, ip := TargetHost(s.id, c.postfix), Gateways.Address(s.services, service);
    PlanHasRecord(s.plan, s.configs, s.services, s.id, s.cfg, c, ext);
    var n := IngressEndpoint(c, service.value, ext, host, ip);
    RecordIsFaithful(c, service.value, ext, host, ip, s.cfg);
    QuietRecord(m, ItsRecords(s), n);
    NotDueHolds(s.cfg, m, c, service.value, ext, host, ip);
  }

  lemma SuffixInjective(prefix: string, a: string, b: string)
    requires prefix + a == prefix + b
    ensures a == b
  {
    assert (prefix + a)[|prefix|..] == a && (prefix + b)[|prefix|..] == b;
  }

  /** With no work left a CNAME endpoint of the route is the desired one of a configured controller. */
  lemma SettledEndpoint(route: Key, cfg: Config, names: set<string>, hosts: Hosts, m: Endpoints, k: Key)
    requires DistinctNames(cfg) && FaithfulRoutes(cfg, m) && k in m && BelongsTo(route, m[k].labels)
    requires Work(OwnScope(route), Desired(route, ControllerMap(cfg), names, hosts), m) == 0
    ensures m[k].spec == [Record(hosts.source, CNAME, [hosts.target], 0)]
    ensures exists ext :: ext in cfg && ext.name in names && ext.region == Label(m[k].labels, Region)
  {
    var desired, scope := Desired(route, ControllerMap(cfg), names, hosts), OwnScope(route);
    assert Missing(scope, desired, m) == {} && Stale(scope, desired, m) == {};
    assert FaithfulRoute(cfg, k, m[k]) && Selects(scope, k, m[k]);
    assert k !in Stale(scope, desired, m) && k !in Missing(scope, desired, m);
    assert Held(scope, desired, m, k);
    ControllerMapMeaning(cfg);
    var n :| n in names && n in ControllerMap(cfg) && k == EndpointKey(route, n);
    KeyNamesController(route, n);
    KeyNamesController(route, m[k].labels[Controller]);
    assert ControllerMap(cfg)[n] in cfg;
  }

  /** When both controllers are done, every CNAME of the route reaches the address of its Gateway's load
      balancer, the one the Gateway's status shows, in every regional view that holds the CNAME. */
  lemma ChainHolds(s: Setting, m: Endpoints, balancer: Option<Key>, k: Key)
    requires Sane(s) && Done(s, m) && k in m && BelongsTo(s.route, m[k].labels)
    requires Gateways.Balancer(s.services, s.gateway.controller, balancer)
    ensures Reaches(m, Label(m[k].labels, Region), SourceHost(s.spec, s.id), Gateways.Address(s.services, balancer))
  {
    SettledEndpoint(s.route, s.cfg, Names(s.active), HostsOf(s.spec, s.gateway, s.id), m, k);
    var ext :| ext in s.cfg && ext.region == Label(m[k].labels, Region);
    RecordOf(s, m, ext);
    BalancersAgree(s, balancer);
    var j := Key(s.plan.choice[ConfigOf(s.gateway)].value.ns, IngressName(ConfigOf(s.gateway), ext.name));
    RecordReached(m, SourceHost(s.spec, s.id), TargetHost(s.id, s.gateway.targetPostfix),
                  Gateways.Address(s.services, balancer), ext, j, k);
  }

  /** With no work left there is a CNAME endpoint for every active configured controller, in the view of
      the region the controller map gives it. */
  lemma ControllerHasEndpoint(route: Key, cfg: Config, names: set<string>, hosts: Hosts, m: Endpoints, name: string)
    requires FaithfulRoutes(cfg, m) && name in ControllerMap(cfg) && name in names
    requires Work(OwnScope(route), Desired(route, ControllerMap(cfg), names, hosts), m) == 0
    ensures var k := EndpointKey(route, name);
      k in m && BelongsTo(route, m[k].labels) && Label(m[k].labels, Region) == ControllerMap(cfg)[name].region
  {
    var desired, scope := Desired(route, ControllerMap(cfg), names, hosts), OwnScope(route);
    var k := EndpointKey(route, name);
    assert k in desired && Missing(scope, desired, m) == {};
    assert k !in Missing(scope, desired, m) && Held(scope, desired, m, k);
    FaithfulRegion(route, cfg, m, name);
  }

  lemma FaithfulRegion(route: Key, cfg: Config, m: Endpoints, name: string)
    requires var k := EndpointKey(route, name);
      k in m && BelongsTo(route, m[k].labels) && FaithfulRoute(cfg, k, m[k])
    ensures name in ControllerMap(cfg)
    ensures Label(m[EndpointKey(route, name)].labels, Region) == ControllerMap(cfg)[name].region
  {
    KeyNamesController(route, name);
    KeyNamesController(route, m[EndpointKey(route, name)].labels[Controller]);
  }

  /** So the route reaches the address in the view of every active controller's region. */
  lemma EveryControllerReaches(s: Setting, m: Endpoints, balancer: Option<Key>, ext: ExternalDns)
    requires Sane(s) && Done(s, m) && ext in s.cfg && ext.name in s.active
    requires Gateways.Balancer(s.services, s.gateway.controller, balancer)
    ensures Reaches(m, ext.region, SourceHost(s.spec, s.id), Gateways.Address(s.services, balancer))
  {
    ControllerMapMeaning(s.cfg);
    ControllerHasEndpoint(s.route, s.cfg, Names(s.active), HostsOf(s.spec, s.gateway, s.id), m, ext.name);
    ChainHolds(s, m, balancer, EndpointKey(s.route, ext.name));
  }

  lemma BalancersAgree(s: Setting, balancer: Option<Key>)
    requires Live(s) && Gateways.Balancer(s.services, s.gateway.controller, balancer)
    ensures balancer == s.plan.choice[ConfigOf(s.gateway)]
  {}

  lemma RecordReached(m: Endpoints, name: string, target: string, ip: string, ext: ExternalDns, j: Key, k: Key)
    requires HoldsRecord(m, j, ext, target, ip)
    requires k in m && ext.region == Label(m[k].labels, Region) && m[k].spec == [Record(name, CNAME, [target], 0)]
    ensures Reaches(m, ext.region, name, ip)
  {}

  // ---- getting there ----

  /** The decision for a valid route under an active policy: an error without controllers, else a list. */
  lemma DecisionIs(s: Setting)
    requires ValidRoute(s.spec)
    ensures Decide(s.route, SeenBy(s)) ==
            if s.active == [] then Rejected(DNSEndpointGenerationFailed)
            else Wanted(BuildAll(s.route, ControllerMap(s.cfg), s.active, HostsOf(s.spec, s.gateway, s.id)))
  {}

  /** What carrying out a list means. */
  lemma ListMeans(route: Key, controllers: map<string, ExternalDns>, active: seq<string>, hosts: Hosts, m: Endpoints)
    requires forall n | n in controllers :: controllers[n].name == n
    ensures var desired := Desired(route, controllers, Names(active), hosts);
      var d := Wanted(BuildAll(route, controllers, active, hosts));
      && (Blocked(route, d, m) <==> Clash(OwnScope(route), desired, m))
      && Effect(route, d, m) == (if SomeConfigured(controllers, active) then Goal(OwnScope(route), desired, m) else m)
      && (!SomeConfigured(controllers, active) ==> desired == map[])
  {
    BuildAllNamespaces(route, controllers, active, hosts);
    if !SomeConfigured(controllers, active) {
      NothingWanted(route, controllers, active, hosts);
      EmptyScope(route, m);
    }
  }

  lemma NothingWanted(route: Key, controllers: map<string, ExternalDns>, active: seq<string>, hosts: Hosts)
    requires !SomeConfigured(controllers, active)
    ensures Desired(route, controllers, Names(active), hosts) == map[]
  {}

  lemma EmptyScope(route: Key, m: Endpoints)
    ensures Goal(Scope(route, {}), map[], m) == m && !Clash(Scope(route, {}), map[], m)
  {}

  /** What one reconciliation of a valid route under an active policy does: it reaches the goal in the
      route's namespace, unless no active controller is configured, and then it does nothing. */
  lemma RouteStepMeans(s: Setting, m: Endpoints)
    requires ValidRoute(s.spec)
    ensures RouteBlocked(s, m) <==> Clash(OwnScope(s.route), Wants(s), m)
    ensures AfterRoute(s, m) == if Configured(s) then Goal(OwnScope(s.route), Wants(s), m) else m
    ensures !Configured(s) ==> Wants(s) == map[]
  {
    DecisionIs(s);
    ControllerMapMeaning(s.cfg);
    ListMeans(s.route, ControllerMap(s.cfg), s.active, HostsOf(s.spec, s.gateway, s.id), m);
  }

  /** One reconciliation leaves the route no work exactly when some active controller is configured, or
      there was nothing to remove. */
  lemma RouteStepSettlesExactly(s: Setting, m: Endpoints)
    requires ValidRoute(s.spec) && !RouteBlocked(s, m)
    ensures Work(OwnScope(s.route), Wants(s), AfterRoute(s, m)) == 0 <==> Configured(s) || NothingHeld(s.route, m)
  {
    RouteStepMeans(s, m);
    if Configured(s) {
      GoalIsSettled(s.route, s.cfg, Names(s.active), HostsOf(s.spec, s.gateway, s.id), m);
    } else {
      assert Missing(OwnScope(s.route), map[], m) == {};
      assert NothingHeld(s.route, m) <==> Stale(OwnScope(s.route), map[], m) == {} by {
        forall k | k in m && Selects(OwnScope(s.route), k, m[k]) ensures k in Stale(OwnScope(s.route), map[], m) {}
      }
    }
  }

  /** A reconciliation keeps the store faithful, and no record becomes due. */
  lemma RouteStepKeeps(s: Setting, m: Endpoints)
    requires Live(s) && Faithful(s.cfg, m, ItsRecords(s)) && !RouteBlocked(s, m)
    ensures Faithful(s.cfg, AfterRoute(s, m), ItsRecords(s))
    ensures Quiet(m, ItsRecords(s)) ==> Quiet(AfterRoute(s, m), ItsRecords(s))
  {
    RouteStepMeans(s, m);
    if Configured(s) {
      RouteRunKeepsFaithful(s.route, s.cfg, Names(s.active), HostsOf(s.spec, s.gateway, s.id), m, ItsRecords(s));
      if Quiet(m, ItsRecords(s)) {
        RouteRunKeepsQuiet(s.route, s.cfg, Wants(s), m, ItsRecords(s));
      }
    }
  }

  /** A pass keeps the store faithful and the route's endpoints as they are; it takes no desired name, and
      leaves no record due. */
  lemma PassStepKeeps(s: Setting, m: Endpoints)
    requires Live(s) && Faithful(s.cfg, m, ItsRecords(s)) && !RouteBlocked(s, m)
    ensures Faithful(s.cfg, AfterPass(s, m), ItsRecords(s)) && Quiet(AfterPass(s, m), ItsRecords(s))
    ensures SameRoutes(m, AfterPass(s, m)) && !RouteBlocked(s, AfterPass(s, m))
  {
    RouteStepMeans(s, m);
    RouteStepMeans(s, AfterPass(s, m));
    PassKeepsFaithful(m, s.plan, s.configs, s.services, s.id, s.cfg);
    PassTakesNoName(s, m);
    UpsertsQuieten(Swept(m, ScannedNamespaces(s.services), s.configs), ItsRecords(s));
  }

  lemma PassTakesNoName(s: Setting, m: Endpoints)
    requires Live(s) && !Clash(OwnScope(s.route), Wants(s), m)
    ensures !Clash(OwnScope(s.route), Wants(s), AfterPass(s, m))
  {
    var desired, list := Wants(s), ItsRecords(s);
    var u, swept := AfterPass(s, m), Swept(m, ScannedNamespaces(s.services), s.configs);
    forall k | k in desired && k in u ensures k in m && u[k] == m[k] {
      UnwantedKept(swept, list, k);
      assert Lookup(u, k) == Lookup(swept, k);
    }
  }

  lemma NotBlockedAfterRoute(s: Setting, m: Endpoints)
    requires ValidRoute(s.spec) && !RouteBlocked(s, m)
    ensures !RouteBlocked(s, AfterRoute(s, m))
  {
    RouteStepMeans(s, m);
    RouteStepMeans(s, AfterRoute(s, m));
    if Configured(s) {
      GoalIsSettled(s.route, s.cfg, Names(s.active), HostsOf(s.spec, s.gateway, s.id), m);
      Settled(OwnScope(s.route), Wants(s), AfterRoute(s, m));
    }
  }

  /** From any faithful store in which no desired name is taken, one reconciliation of the route and one
      pass, in either order, leave neither controller anything to do exactly when some active controller
      is configured, or the route held nothing. */
  lemma DoneInEitherOrder(s: Setting, m: Endpoints)
    requires Live(s) && Faithful(s.cfg, m, ItsRecords(s)) && !RouteBlocked(s, m)
    ensures Done(s, AfterPass(s, AfterRoute(s, m))) <==> Configured(s) || NothingHeld(s.route, m)
    ensures !RouteBlocked(s, AfterPass(s, m))
    ensures Done(s, AfterRoute(s, AfterPass(s, m))) <==> Configured(s) || NothingHeld(s.route, m)
  {
    RouteFirst(s, m);
    PassFirst(s, m);
  }

  lemma RouteFirst(s: Setting, m: Endpoints)
    requires Live(s) && Faithful(s.cfg, m, ItsRecords(s)) && !RouteBlocked(s, m)
    ensures Done(s, AfterPass(s, AfterRoute(s, m))) <==> Configured(s) || NothingHeld(s.route, m)
  {
    RouteStepKeeps(s, m);
    RouteStepSettlesExactly(s, m);
    NotBlockedAfterRoute(s, m);
    PassStepKeeps(s, AfterRoute(s, m));
    SettledByRoutes(s.route, Wants(s), AfterRoute(s, m), AfterPass(s, AfterRoute(s, m)));
  }

  lemma PassFirst(s: Setting, m: Endpoints)
    requires Live(s) && Faithful(s.cfg, m, ItsRecords(s)) && !RouteBlocked(s, m)
    ensures !RouteBlocked(s, AfterPass(s, m))
    ensures Done(s, AfterRoute(s, AfterPass(s, m))) <==> Configured(s) || NothingHeld(s.route, m)
  {
    PassStepKeeps(s, m);
    RouteStepKeeps(s, AfterPass(s, m));
    RouteStepSettlesExactly(s, AfterPass(s, m));
    HeldByRoutes(s.route, m, AfterPass(s, m));
  }

  lemma HeldByRoutes(route: Key, m: Endpoints, m': Endpoints)
    requires SameRoutes(m, m')
    ensures NothingHeld(route, m') <==> NothingHeld(route, m)
  {}

  /** From any faithful store in which no desired name is taken: after one reconciliation of the route and
      one pass, in either order, the route reaches the address of its load balancer in the view of every
      active controller's region. */
  lemma ReachesInEitherOrder(s: Setting, m: Endpoints, balancer: Option<Key>, ext: ExternalDns)
    requires Sane(s) && Faithful(s.cfg, m, ItsRecords(s)) && !RouteBlocked(s, m)
    requires ext in s.cfg && ext.name in s.active
    requires Gateways.Balancer(s.services, s.gateway.controller, balancer)
    ensures var name, ip := SourceHost(s.spec, s.id), Gateways.Address(s.services, balancer);
      && Reaches(AfterPass(s, AfterRoute(s, m)), ext.region, name, ip)
      && Reaches(AfterRoute(s, AfterPass(s, m)), ext.region, name, ip)
  {
    ControllerMapMeaning(s.cfg);
    assert Configured(s);
    DoneInEitherOrder(s, m);
    EveryControllerReaches(s, AfterPass(s, AfterRoute(s, m)), balancer, ext);
    EveryControllerReaches(s, AfterRoute(s, AfterPass(s, m)), balancer, ext);
  }

  lemma GoalIsSettled(route: Key, cfg: Config, names: set<string>, hosts: Hosts, m: Endpoints)
    requires !Clash(OwnScope(route), Desired(route, ControllerMap(cfg), names, hosts), m)
    ensures var desired := Desired(route, ControllerMap(cfg), names, hosts);
      Work(OwnScope(route), desired, Goal(OwnScope(route), desired, m)) == 0
  {
    DesiredIsLabelled(route, ControllerMap(cfg), names, hosts);
    GoalSettles(OwnScope(route), Desired(route, ControllerMap(cfg), names, hosts), m);
  }

  /** Whether a route has work depends on route endpoints only. */
  lemma SettledByRoutes(route: Key, desired: Endpoints, m: Endpoints, m': Endpoints)
    requires SameRoutes(m, m')
    ensures Work(OwnScope(route), desired, m') == 0 <==> Work(OwnScope(route), desired, m) == 0
  {
    if Work(OwnScope(route), desired, m) == 0 {
      StillSettled(route, desired, m, m');
    }
    if Work(OwnScope(route), desired, m') == 0 {
      StillSettled(route, desired, m', m);
    }
  }

  lemma StillSettled(route: Key, desired: Endpoints, m: Endpoints, m': Endpoints)
    requires Work(OwnScope(route), desired, m) == 0 && SameRoutes(m, m')
    ensures Work(OwnScope(route), desired, m') == 0
  {
    var scope := OwnScope(route);
    assert Missing(scope, desired, m) == {} && Stale(scope, desired, m) == {};
    forall k | k in desired ensures Held(scope, desired, m', k) {
      assert Held(scope, desired, m, k) by {
        assert k !in Missing(scope, desired, m);
      }
    }
    forall k | k in m' && Selects(scope, k, m'[k]) ensures k in desired {
      assert k !in Stale(scope, desired, m);
    }
    assert Missing(scope, desired, m') == {};
    assert Stale(scope, desired, m') == {};
  }
}
