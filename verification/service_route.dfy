/** The ServiceRoute controller: generating one DNSEndpoint per active ExternalDNS controller, bringing
    the store to them, and cleaning up. */
module ServiceRouteController {
  import opened Objects
  import opened ApiServer
  import opened EndpointDiff

  // ---- generation ----

  /** Controllers by name; of several with one name the last one counts. */
  function ControllerMap(cfg: Config): map<string, ExternalDns> {
    if cfg == [] then map[] else
      var last := cfg[|cfg|-1];
      ControllerMap(cfg[..|cfg|-1])[last.name := last]
  }

  method MapControllers(cfg: Config) returns (controllers: map<string, ExternalDns>)
    ensures controllers == ControllerMap(cfg)
  {
    controllers := map[];
    for i := 0 to |cfg|
      invariant controllers == ControllerMap(cfg[..i])
    {
      assert cfg[..i+1][..i] == cfg[..i];
      controllers := controllers[cfg[i].name := cfg[i]];
    }
    assert cfg[..|cfg|] == cfg;
  }

  /** The map holds every configured name, and for distinct names every entry. */
  lemma ControllerMapMeaning(cfg: Config)
    ensures forall n :: n in ControllerMap(cfg) <==> exists c :: c in cfg && c.name == n
    ensures forall n | n in ControllerMap(cfg) :: ControllerMap(cfg)[n].name == n && ControllerMap(cfg)[n] in cfg
    ensures DistinctNames(cfg) ==> forall c | c in cfg :: ControllerMap(cfg)[c.name] == c
  {
    forall c | c in cfg ensures c.name in ControllerMap(cfg) {
      NameIsMapped(cfg, c);
    }
    forall n | n in ControllerMap(cfg) ensures ControllerMap(cfg)[n].name == n && ControllerMap(cfg)[n] in cfg {
      MappedIsEntry(cfg, n);
    }
    if DistinctNames(cfg) {
      forall c, d | c in cfg && d in cfg && c.name == d.name ensures c == d {}
    }
  }

  lemma {:induction false} NameIsMapped(cfg: Config, c: ExternalDns)
    requires c in cfg
    ensures c.name in ControllerMap(cfg)
  {
    var init, last := cfg[..|cfg|-1], cfg[|cfg|-1];
    assert cfg == init + [last];
    if c != last {
      NameIsMapped(init, c);
    }
  }

  lemma {:induction false} MappedIsEntry(cfg: Config, n: string)
    requires n in ControllerMap(cfg)
    ensures ControllerMap(cfg)[n].name == n && ControllerMap(cfg)[n] in cfg
  {
    var init, last := cfg[..|cfg|-1], cfg[|cfg|-1];
    if n != last.name {
      MappedIsEntry(init, n);
      assert ControllerMap(cfg)[n] in init;
    }
  }

  function EndpointKey(route: Key, controller: string): Key {
    Key(route.ns, route.name + "-" + controller)
  }

  function RouteLabels(route: Key, c: ExternalDns): Labels {
    map[ManagedBy := OPERATOR, Controller := c.name, Region := c.region,
        ServiceRoute := route.name, SourceNamespace := route.ns]
  }

  /** The hosts of a route: the name it is reached by and the Gateway name it points to. */
  datatype Hosts = Hosts(source: string, target: string)

  function HostsOf(spec: RouteSpec, gateway: GatewaySpec, id: Identity): Hosts {
    Hosts(SourceHost(spec, id), TargetHost(id, gateway.targetPostfix))
  }

  function BuildEndpoint(route: Key, c: ExternalDns, hosts: Hosts): Named {
    Named(EndpointKey(route, c.name),
          Endpoint(RouteLabels(route, c), Some("external-dns-" + c.region),
                   [Record(hosts.source, CNAME, [hosts.target], 0)], RouteOwner(route.name)))
  }

  /** One endpoint per listed controller that is configured; the others are skipped. */
  function BuildAll(route: Key, controllers: map<string, ExternalDns>, active: seq<string>, hosts: Hosts): seq<Named> {
    if active == [] then [] else
      var last := active[|active|-1];
      BuildAll(route, controllers, active[..|active|-1], hosts)
      + if last in controllers then [BuildEndpoint(route, controllers[last], hosts)] else []
  }

  /** None when there is no active controller at all, which is an error. */
  function Generated(route: Key, spec: RouteSpec, active: seq<string>, gateway: GatewaySpec, id: Identity, cfg: Config)
    : Option<seq<Named>>
  {
    if active == [] then None
    else Some(BuildAll(route, ControllerMap(cfg), active, HostsOf(spec, gateway, id)))
  }

  method GenerateEndpoints(route: Key, spec: RouteSpec, active: seq<string>, gateway: GatewaySpec, id: Identity,
                           cfg: Config)
    returns (r: Option<seq<Named>>)
    ensures r == Generated(route, spec, active, gateway, id, cfg)
  {
    if |active| == 0 { return None; }
    var hosts := HostsOf(spec, gateway, id);
    var controllers := MapControllers(cfg);
    var endpoints: seq<Named> := [];
    for i := 0 to |active|
      invariant endpoints == BuildAll(route, controllers, active[..i], hosts)
    {
      assert active[..i+1][..i] == active[..i];
      if active[i] in controllers {
        endpoints := endpoints + [BuildEndpoint(route, controllers[active[i]], hosts)];
      }
    }
    assert active[..|active|] == active;
    r := Some(endpoints);
  }

  /** Endpoints by key; of several with one key the last one counts. */
  function ByKey(list: seq<Named>): Endpoints {
    if list == [] then map[] else
      var last := list[|list|-1];
      ByKey(list[..|list|-1])[last.key := last.body]
  }

  method IndexByKey(list: seq<Named>) returns (m: Endpoints)
    ensures m == ByKey(list)
  {
    m := map[];
    for i := 0 to |list|
      invariant m == ByKey(list[..i])
    {
      assert list[..i+1][..i] == list[..i];
      m := m[list[i].key := list[i].body];
    }
    assert list[..|list|] == list;
  }

  lemma ByKeyGrows(list: seq<Named>, n: Named)
    ensures ByKey(list + [n]) == ByKey(list)[n.key := n.body]
  {}

  lemma {:induction false} ByKeyMeaning(list: seq<Named>)
    ensures forall n | n in list :: n.key in ByKey(list)
    ensures forall k | k in ByKey(list) :: Named(k, ByKey(list)[k]) in list
  {
    if list == [] {
    } else {
      var init, last := list[..|list|-1], list[|list|-1];
      assert list == init + [last];
      ByKeyMeaning(init);
    }
  }

  /** The desired endpoints as a function of the set of active names. */
  function Desired(route: Key, controllers: map<string, ExternalDns>, names: set<string>, hosts: Hosts): Endpoints {
    var keys := set n | n in names && n in controllers :: EndpointKey(route, n);
    map k | k in keys :: BuildEndpoint(route, controllers[NameIn(route, k)], hosts).body
  }

  /** The controller name in an endpoint key. */
  function NameIn(route: Key, k: Key): string {
    if |route.name| + 1 <= |k.name| then k.name[|route.name| + 1..] else ""
  }

  lemma KeyNamesController(route: Key, name: string)
    ensures NameIn(route, EndpointKey(route, name)) == name
  {}

  function Names(active: seq<string>): set<string> {
    set n | n in active
  }

  lemma DesiredGrows(route: Key, controllers: map<string, ExternalDns>, names: set<string>, name: string, hosts: Hosts)
    requires forall n | n in controllers :: controllers[n].name == n
    ensures Desired(route, controllers, names + {name}, hosts) ==
            if name in controllers
            then Desired(route, controllers, names, hosts)
                 [EndpointKey(route, name) := BuildEndpoint(route, controllers[name], hosts).body]
            else Desired(route, controllers, names, hosts)
  {}

  lemma BuildAllGrows(route: Key, controllers: map<string, ExternalDns>, active: seq<string>, hosts: Hosts)
    requires active != []
    ensures var init, last := active[..|active|-1], active[|active|-1];
      ByKey(BuildAll(route, controllers, active, hosts)) ==
      if last in controllers
      then ByKey(BuildAll(route, controllers, init, hosts))
           [BuildEndpoint(route, controllers[last], hosts).key := BuildEndpoint(route, controllers[last], hosts).body]
      else ByKey(BuildAll(route, controllers, init, hosts))
  {
    var list, last := BuildAll(route, controllers, active[..|active|-1], hosts), active[|active|-1];
    if last in controllers {
      ByKeyGrows(list, BuildEndpoint(route, controllers[last], hosts));
    } else {
      assert list + [] == list;
    }
  }

  lemma {:induction false} BuildAllIsDesired(route: Key, controllers: map<string, ExternalDns>, active: seq<string>,
                                             hosts: Hosts)
    requires forall n | n in controllers :: controllers[n].name == n
    ensures ByKey(BuildAll(route, controllers, active, hosts)) == Desired(route, controllers, Names(active), hosts)
  {
    if active == [] {
    } else {
      var init, last := active[..|active|-1], active[|active|-1];
      assert active == init + [last];
      assert Names(active) == Names(init) + {last};
      BuildAllIsDesired(route, controllers, init, hosts);
      BuildAllGrows(route, controllers, active, hosts);
      DesiredGrows(route, controllers, Names(init), last, hosts);
    }
  }

  lemma NoNames(active: seq<string>)
    ensures active == [] <==> Names(active) == {}
  {
    assert active != [] ==> active[0] in Names(active);
  }

  /** Two lists of active controllers with the same names ask for the same endpoints, however often
      and in whatever order they repeat them. */
  lemma RepetitionIsHarmless(route: Key, spec: RouteSpec, a: seq<string>, b: seq<string>, gateway: GatewaySpec,
                             id: Identity, cfg: Config)
    requires Names(a) == Names(b)
    ensures var x, y := Generated(route, spec, a, gateway, id, cfg), Generated(route, spec, b, gateway, id, cfg);
      && (x.None? <==> y.None?)
      && (x.Some? ==> ByKey(x.value) == ByKey(y.value) && NamespacesOf(x.value) == NamespacesOf(y.value))
  {
    ControllerMapMeaning(cfg);
    if a == [] || b == [] {
      NoNames(a);
      NoNames(b);
    } else {
      var hosts := HostsOf(spec, gateway, id);
      BuildAllIsDesired(route, ControllerMap(cfg), a, hosts);
      BuildAllIsDesired(route, ControllerMap(cfg), b, hosts);
      NamespacesOfKeys(BuildAll(route, ControllerMap(cfg), a, hosts));
      NamespacesOfKeys(BuildAll(route, ControllerMap(cfg), b, hosts));
    }
  }

  // ---- reconciliation ----

  function NamespacesOf(list: seq<Named>): set<string> {
    set n | n in list :: n.key.ns
  }

  lemma NamespacesOfKeys(list: seq<Named>)
    ensures NamespacesOf(list) == set k | k in ByKey(list) :: k.ns
  {
    ByKeyMeaning(list);
  }

  /** `existing` is what the store holds in scope. */
  ghost predicate Listed(scope: Scope, m: Endpoints, existing: Endpoints) {
    forall k :: (k in existing <==> k in m && Selects(scope, k, m[k])) && (k in existing ==> existing[k] == m[k])
  }

  method ListExisting(api: Cluster, route: Key, namespaces: set<string>) returns (r: Outcome, existing: Endpoints)
    modifies api`faults
    ensures r == Ok || r == Fault
    ensures api.faults == old(api.faults) + (if r == Fault then 1 else 0)
    ensures r == Ok ==> Listed(Scope(route, namespaces), api.endpoints, existing)
  {
    var list: seq<Named> := [];
    existing := map[];
    var todo := namespaces;
    while todo != {}
      invariant todo <= namespaces
      invariant api.faults == old(api.faults)
      invariant forall n | n in list ::
          n.key.ns in namespaces && n.key in api.endpoints && n.body == api.endpoints[n.key]
          && BelongsTo(route, n.body.labels)
      invariant forall k | k in api.endpoints && k.ns in namespaces - todo
                           && BelongsTo(route, api.endpoints[k].labels) ::
          Named(k, api.endpoints[k]) in list
    {
      var ns :| ns in todo;
      var items;
      r, items := api.ListEndpoints(ns, RouteSelector(route));
      if r != Ok { return; }
      forall labels ensures MatchesLabels(RouteSelector(route), labels) <==> BelongsTo(route, labels) {
        SelectorMatches(route, labels);
      }
      list := list + items;
      todo := todo - {ns};
    }
    existing := IndexByKey(list);
    ByKeyMeaning(list);
    r := Ok;
  }

  /** Creates or updates one desired endpoint. */
  method UpsertOne(api: Cluster, scope: Scope, desired: Endpoints, existing: Endpoints, k: Key,
                   ghost start: seq<Endpoints>)
    returns (r: Outcome, ghost trace: seq<Endpoints>)
    requires IsRun(scope, desired, start) && start[|start|-1] == api.endpoints
    requires k in desired && Selects(scope, k, desired[k])
    requires k in existing <==> k in api.endpoints && Selects(scope, k, api.endpoints[k])
    requires k in existing ==> existing[k] == api.endpoints[k]
    modifies api`endpoints, api`writes, api`faults
    ensures IsRun(scope, desired, trace) && trace[0] == start[0] && trace[|trace|-1] == api.endpoints
    ensures api.writes == old(api.writes) + |trace| - |start|
    ensures api.faults == old(api.faults) + (if r == Fault then 1 else 0)
    ensures r == Ok || r == Fault || (r == AlreadyExists && k in old(api.endpoints) && k !in existing)
    ensures r == Ok ==> Held(scope, desired, api.endpoints, k) && (k in old(api.endpoints) ==> k in existing)
    ensures forall j | j != k :: Lookup(api.endpoints, j) == Lookup(old(api.endpoints), j)
  {
    trace, r := start, Ok;
    if k in existing {
      if existing[k].spec != desired[k].spec {
        r := api.PatchEndpoint(k, Patched(existing[k], desired[k]));
        if r != Ok { return; }
        RunUpserts(scope, desired, start, k, api.endpoints);
        trace := start + [api.endpoints];
      }
    } else {
      r := api.CreateEndpoint(k, desired[k]);
      if r != Ok { return; }
      RunUpserts(scope, desired, start, k, api.endpoints);
      trace := start + [api.endpoints];
    }
  }

  /** Creates or updates the desired endpoints, in any order, up to the first failure. */
  method UpsertDesired(api: Cluster, scope: Scope, desired: Endpoints, existing: Endpoints)
    returns (r: Outcome, ghost trace: seq<Endpoints>)
    requires Labelled(scope, desired) && Listed(scope, api.endpoints, existing)
    modifies api`endpoints, api`writes, api`faults
    ensures IsRun(scope, desired, trace) && trace[0] == old(api.endpoints) && trace[|trace|-1] == api.endpoints
    ensures api.writes == old(api.writes) + |trace| - 1
    ensures api.faults == old(api.faults) + (if r == Fault then 1 else 0)
    ensures r == Ok || r == Fault || (r == AlreadyExists && Clash(scope, desired, old(api.endpoints)))
    ensures r == Ok ==> Missing(scope, desired, api.endpoints) == {} && !Clash(scope, desired, old(api.endpoints))
    ensures r == Ok ==> forall k | k !in desired :: Lookup(api.endpoints, k) == Lookup(old(api.endpoints), k)
  {
    trace := [api.endpoints];
    var todo := desired.Keys;
    while todo != {}
      invariant todo <= desired.Keys
      invariant IsRun(scope, desired, trace) && trace[0] == old(api.endpoints) && trace[|trace|-1] == api.endpoints
      invariant api.writes == old(api.writes) + |trace| - 1 && api.faults == old(api.faults)
      invariant forall k | k in desired.Keys - todo :: Held(scope, desired, api.endpoints, k)
      invariant forall k | k in desired.Keys - todo && k in old(api.endpoints) :: k in existing
      invariant forall k | k in todo || k !in desired :: Lookup(api.endpoints, k) == Lookup(old(api.endpoints), k)
    {
      var k :| k in todo;
      assert Lookup(api.endpoints, k) == Lookup(old(api.endpoints), k);
      ghost var before := api.endpoints;
      r, trace := UpsertOne(api, scope, desired, existing, k, trace);
      if r != Ok { return; }
      forall j | j in desired.Keys - todo ensures Held(scope, desired, api.endpoints, j) {
        assert Lookup(api.endpoints, j) == Lookup(before, j);
      }
      todo := todo - {k};
    }
    r := Ok;
    NothingMissing(scope, desired, old(api.endpoints), api.endpoints, existing);
  }

  lemma NothingMissing(scope: Scope, desired: Endpoints, m: Endpoints, m': Endpoints, existing: Endpoints)
    requires Listed(scope, m, existing)
    requires forall k | k in desired :: Held(scope, desired, m', k)
    requires forall k | k in desired && k in m :: k in existing
    ensures Missing(scope, desired, m') == {} && !Clash(scope, desired, m)
  {}

  /** Deletes what is not desired any more, in any order, up to the first failure. */
  method DeleteStale(api: Cluster, scope: Scope, desired: Endpoints, existing: Endpoints, ghost start: seq<Endpoints>)
    returns (r: Outcome, ghost trace: seq<Endpoints>)
    requires IsRun(scope, desired, start) && start[|start|-1] == api.endpoints
    requires Missing(scope, desired, api.endpoints) == {}
    requires forall k | k in existing.Keys - desired.Keys ::
               k in api.endpoints && api.endpoints[k] == existing[k] && Selects(scope, k, existing[k])
    requires Stale(scope, desired, api.endpoints) <= existing.Keys
    modifies api`endpoints, api`writes, api`faults
    ensures IsRun(scope, desired, trace) && trace[0] == start[0] && trace[|trace|-1] == api.endpoints
    ensures api.writes == old(api.writes) + |trace| - |start|
    ensures api.faults == old(api.faults) + (if r == Fault then 1 else 0)
    ensures r == Ok || r == Fault
    ensures r == Ok ==> Work(scope, desired, api.endpoints) == 0
  {
    trace := start;
    var todo := existing.Keys;
    while todo != {}
      invariant todo <= existing.Keys
      invariant IsRun(scope, desired, trace) && trace[0] == start[0] && trace[|trace|-1] == api.endpoints
      invariant api.writes == old(api.writes) + |trace| - |start| && api.faults == old(api.faults)
      invariant Missing(scope, desired, api.endpoints) == {}
      invariant Stale(scope, desired, api.endpoints) <= todo
      invariant forall k | k in todo && k !in desired ::
          k in api.endpoints && api.endpoints[k] == existing[k] && Selects(scope, k, existing[k])
    {
      var k :| k in todo;
      if k !in desired {
        ghost var before := api.endpoints;
        r := api.DeleteEndpoint(k);
        if r != Ok { return; }
        assert k in Stale(scope, desired, before);
        RunDeletes(scope, desired, trace, k, api.endpoints);
        trace := trace + [api.endpoints];
      }
      todo := todo - {k};
    }
    r := Ok;
  }

  /** The upserts leave what is listed but not desired as it was. */
  lemma OthersStillListed(scope: Scope, desired: Endpoints, m: Endpoints, m': Endpoints, existing: Endpoints)
    requires Listed(scope, m, existing)
    requires forall k | k !in desired :: Lookup(m', k) == Lookup(m, k)
    ensures forall k | k in existing.Keys - desired.Keys ::
              k in m' && m'[k] == existing[k] && Selects(scope, k, existing[k])
    ensures Stale(scope, desired, m') <= existing.Keys
  {}

  method DesiredNamespaces(list: seq<Named>) returns (namespaces: set<string>)
    ensures namespaces == NamespacesOf(list)
  {
    namespaces := {};
    for i := 0 to |list|
      invariant namespaces == NamespacesOf(list[..i])
    {
      assert list[..i+1] == list[..i] + [list[i]];
      namespaces := namespaces + {list[i].key.ns};
    }
    assert list[..|list|] == list;
  }

  /** Reconciles the endpoints of a route. Every call, finished or not, is a run of single writes; and
      unless a call is refused it reaches the goal exactly when no desired name is taken. */
  method ReconcileEndpoints(api: Cluster, route: Key, list: seq<Named>)
    returns (r: Outcome, ghost trace: seq<Endpoints>)
    requires Labelled(Scope(route, NamespacesOf(list)), ByKey(list))
    modifies api`endpoints, api`writes, api`faults
    ensures IsRun(Scope(route, NamespacesOf(list)), ByKey(list), trace)
    ensures trace[0] == old(api.endpoints) && trace[|trace|-1] == api.endpoints
    ensures api.writes == old(api.writes) + |trace| - 1
    ensures api.faults == old(api.faults) + (if r == Fault then 1 else 0)
    ensures r in {Ok, AlreadyExists, Fault}
    ensures var scope, desired := Scope(route, NamespacesOf(list)), ByKey(list);
      && (r == Ok ==> api.endpoints == Goal(scope, desired, old(api.endpoints)))
      && (r == Ok ==> api.writes == old(api.writes) + Work(scope, desired, old(api.endpoints)))
      && (api.faults == old(api.faults) ==> (r == Ok <==> !Clash(scope, desired, old(api.endpoints))))
  {
    var namespaces := DesiredNamespaces(list);
    var existing;
    trace := [api.endpoints];
    r, existing := ListExisting(api, route, namespaces);
    if r != Ok { return; }
    var desired := IndexByKey(list);
    ghost var scope := Scope(route, namespaces);
    r, trace := UpsertDesired(api, Scope(route, namespaces), desired, existing);
    if r != Ok { return; }
    OthersStillListed(scope, desired, old(api.endpoints), api.endpoints, existing);
    r, trace := DeleteStale(api, Scope(route, namespaces), desired, existing, trace);
    if r == Ok {
      CompletedRun(scope, desired, trace);
    }
  }

  // ---- cleanup ----

  /** Removes the endpoints of a route from its own namespace, up to the first refusal. */
  method DeleteEndpoints(api: Cluster, route: Key) returns (r: Outcome, ghost trace: seq<Endpoints>)
    modifies api`endpoints, api`writes, api`faults
    ensures r == Ok || r == Fault
    ensures IsRun(OwnScope(route), map[], trace)
    ensures trace[0] == old(api.endpoints) && trace[|trace|-1] == api.endpoints
    ensures api.writes == old(api.writes) + |trace| - 1
    ensures api.faults == old(api.faults) + (if r == Fault then 1 else 0)
    ensures r == Ok ==> api.endpoints == Purged(route, old(api.endpoints))
  {
    trace := [api.endpoints];
    var existing;
    r, existing := ListExisting(api, route, {route.ns});
    if r != Ok { return; }
    var todo := existing.Keys;
    while todo != {}
      invariant IsRun(OwnScope(route), map[], trace)
      invariant trace[0] == old(api.endpoints) && trace[|trace|-1] == api.endpoints
      invariant api.writes == old(api.writes) + |trace| - 1 && api.faults == old(api.faults)
      invariant todo == Stale(OwnScope(route), map[], api.endpoints)
    {
      var k :| k in todo;
      r := api.DeleteEndpoint(k);
      if r == Fault { return; }
      RunDeletes(OwnScope(route), map[], trace, k, api.endpoints);
      trace := trace + [api.endpoints];
      todo := todo - {k};
    }
    r := Ok;
    CompletedRun(OwnScope(route), map[], trace);
    PurgedIsGoal(route, old(api.endpoints));
  }

  function OwnScope(route: Key): Scope {
    Scope(route, {route.ns})
  }

  /** The store without the endpoints of a route. */
  function Purged(route: Key, m: Endpoints): Endpoints {
    map k | k in m && !Selects(OwnScope(route), k, m[k]) :: m[k]
  }

  lemma PurgedIsGoal(route: Key, m: Endpoints)
    ensures Goal(OwnScope(route), map[], m) == Purged(route, m)
  {}

  // ---- the whole reconciliation ----

  /** What a reconciliation makes of a route. */
  datatype Decision =
    | Gone                     // the route is deleted: its endpoints go
    | Rejected(reason: Reason) // Failed, endpoints untouched
    | Waiting(reason: Reason)  // Pending, endpoints untouched
    | Withdrawn                // the policy is inactive: its endpoints go, Pending
    | Wanted(list: seq<Named>) // the endpoints are brought to the list, Active

  predicate ValidRoute(spec: RouteSpec) {
    spec.serviceName != "" && spec.gatewayName != "" && spec.environment != "" && spec.application != ""
  }

  /** The objects a reconciliation reads. `policy` is the policy listed first in the namespace. */
  datatype View = View(
    route: Option<RouteSpec>, policy: Option<Selection>, cfg: Option<Config>, gateway: Option<GatewaySpec>,
    id: Option<Identity>)

  function Decide(route: Key, v: View): Decision {
    if v.route.None? then Gone
    else if !ValidRoute(v.route.value) then Rejected(ValidationFailed)
    else if v.policy.None? then Waiting(DNSPolicyNotFound)
    else if !v.policy.value.active then Withdrawn
    else if v.cfg.None? then Waiting(DNSConfigurationNotAvailable)
    else if v.gateway.None? then Waiting(GatewayNotFound)
    else if v.id.None? then Waiting(ClusterIdentityNotAvailable)
    else
      match Generated(route, v.route.value, v.policy.value.controllers, v.gateway.value, v.id.value, v.cfg.value)
      case None => Rejected(DNSEndpointGenerationFailed)
      case Some(list) => Wanted(list)
  }

  /** The store after the decision is carried out without a refusal. */
  ghost function Effect(route: Key, d: Decision, m: Endpoints): Endpoints {
    match d
    case Gone => Purged(route, m)
    case Withdrawn => Purged(route, m)
    case Wanted(list) => Goal(Scope(route, NamespacesOf(list)), ByKey(list), m)
    case _ => m
  }

  /** A desired name is taken, so that the decision cannot be carried out. */
  ghost predicate Blocked(route: Key, d: Decision, m: Endpoints) {
    d.Wanted? && Clash(Scope(route, NamespacesOf(d.list)), ByKey(d.list), m)
  }

  function RouteStatusFor(d: Decision, status: RouteStatus): RouteStatus {
    match d
    case Gone => status
    case Rejected(reason) => status.(phase := PhaseFailed, reason := reason)
    case Waiting(reason) => status.(phase := PhasePending, reason := reason)
    case Withdrawn => status.(phase := PhasePending, reason := DNSPolicyInactive)
    case Wanted(list) =>
      RouteStatus(PhaseActive, ReconciliationSucceeded,
                  if list != [] then list[0].key.name else status.dnsEndpoint)
  }

  predicate SomeConfigured(controllers: map<string, ExternalDns>, active: seq<string>) {
    exists n :: n in active && n in controllers
  }

  /** What is built is the desired map, and it lies in the route's namespace, unless nothing is built. */
  lemma BuildAllNamespaces(route: Key, controllers: map<string, ExternalDns>, active: seq<string>, hosts: Hosts)
    requires forall n | n in controllers :: controllers[n].name == n
    ensures var list := BuildAll(route, controllers, active, hosts);
      && ByKey(list) == Desired(route, controllers, Names(active), hosts)
      && NamespacesOf(list) == if SomeConfigured(controllers, active) then {route.ns} else {}
  {
    var list := BuildAll(route, controllers, active, hosts);
    BuildAllIsDesired(route, controllers, active, hosts);
    NamespacesOfKeys(list);
    forall n | n in active && n in controllers ensures EndpointKey(route, n) in ByKey(list) {
      assert n in Names(active);
    }
  }

  lemma DesiredIsLabelled(route: Key, controllers: map<string, ExternalDns>, names: set<string>, hosts: Hosts)
    ensures Labelled(OwnScope(route), Desired(route, controllers, names, hosts))
  {}

  /** The decision only ever asks for endpoints that carry the labels of the route. */
  lemma WantedIsLabelled(route: Key, v: View)
    requires Decide(route, v).Wanted?
    ensures var list := Decide(route, v).list;
      Labelled(Scope(route, NamespacesOf(list)), ByKey(list)) && NamespacesOf(list) <= {route.ns}
  {
    var controllers, active := ControllerMap(v.cfg.value), v.policy.value.controllers;
    var hosts := HostsOf(v.route.value, v.gateway.value, v.id.value);
    ControllerMapMeaning(v.cfg.value);
    BuildAllNamespaces(route, controllers, active, hosts);
    DesiredIsLabelled(route, controllers, Names(active), hosts);
    NamespacesOfKeys(BuildAll(route, controllers, active, hosts));
  }

  predicate FirstPolicy(policies: map<Key, Policy>, ns: string, first: Option<Selection>) {
    match first
    case None => forall k | k in policies :: k.ns != ns
    case Some(s) => exists k :: k in policies && k.ns == ns && policies[k].status.selection == s
  }

  method GetPolicyForNamespace(api: Cluster, ns: string) returns (first: Option<Selection>)
    ensures FirstPolicy(api.policies, ns, first)
  {
    var here := set k | k in api.policies && k.ns == ns;
    if here == {} {
      assert forall k | k in api.policies :: k !in here;
      return None;
    }
    var k :| k in here;
    first := Some(api.policies[k].status.selection);
  }

  ghost function ViewOf(api: Cluster, route: Key, first: Option<Selection>, id: Option<Identity>, cfg: Option<Config>,
                        defaultNamespace: string): View
    reads api
  {
    var spec := if route in api.routes then Some(api.routes[route].spec) else None;
    View(spec, first, cfg,
         if spec.Some? && GatewayKey(spec.value, defaultNamespace) in api.gateways
         then Some(api.gateways[GatewayKey(spec.value, defaultNamespace)].spec) else None,
         id)
  }

  /** What a reconciliation that decided `d` did to the endpoints `m`. When no call was refused (`clean`)
      the decision was carried out, unless a desired name is taken. In any case what was written is a
      run of the decision. */
  ghost predicate CarriedOut(route: Key, d: Decision, m: Endpoints, clean: bool, r: Outcome, trace: seq<Endpoints>) {
    && RunOf(route, d, trace) && trace[0] == m
    && (clean ==> if Blocked(route, d, m) then r == AlreadyExists
                  else r == Ok && trace[|trace|-1] == Effect(route, d, m))
  }

  /** The writes of one reconciliation, finished or not. */
  ghost predicate RunOf(route: Key, d: Decision, trace: seq<Endpoints>) {
    match d
    case Gone => IsRun(OwnScope(route), map[], trace)
    case Withdrawn => IsRun(OwnScope(route), map[], trace)
    case Wanted(list) => IsRun(Scope(route, NamespacesOf(list)), ByKey(list), trace)
    case _ => |trace| == 1
  }

  /** The status part: only the status of the one route changes, to what the decision says. */
  ghost predicate RouteReported(route: Key, d: Decision, before: map<Key, Route>, after: map<Key, Route>) {
    after == if route in before
             then before[route := before[route].(status := RouteStatusFor(d, before[route].status))] else before
  }

  /** What a reconciliation promises of what it saw, wrote and reported. */
  ghost predicate Promised(route: Key, v: View, m: Endpoints, clean: bool, r: Outcome, trace: seq<Endpoints>,
                           before: map<Key, Route>, after: map<Key, Route>)
  {
    var d := Decide(route, v);
    && CarriedOut(route, d, m, clean, r, trace)
    && if r == Ok then RouteReported(route, d, before, after) else after == before
  }

  method Report(api: Cluster, route: Key, d: Decision) returns (r: Outcome)
    requires route in api.routes
    modifies api`routes, api`faults
    ensures r == Ok || r == Fault
    ensures api.faults == old(api.faults) + (if r == Fault then 1 else 0)
    ensures if r == Ok then RouteReported(route, d, old(api.routes), api.routes) else api.routes == old(api.routes)
  {
    r := api.UpdateRouteStatus(route, RouteStatusFor(d, api.routes[route].status));
  }

  /** Carries out a decision that writes endpoints: Withdrawn or Wanted. */
  method CarryOut(api: Cluster, route: Key, d: Decision) returns (r: Outcome, ghost trace: seq<Endpoints>)
    requires d.Withdrawn? || d.Wanted?
    requires d.Wanted? ==> Labelled(Scope(route, NamespacesOf(d.list)), ByKey(d.list))
    requires route in api.routes
    modifies api`routes, api`endpoints, api`writes, api`faults
    ensures CarriedOut(route, d, old(api.endpoints), api.faults == old(api.faults), r, trace)
    ensures api.endpoints == trace[|trace|-1] && api.writes == old(api.writes) + |trace| - 1
    ensures if r == Ok then RouteReported(route, d, old(api.routes), api.routes) else api.routes == old(api.routes)
  {
    if d.Withdrawn? {
      r, trace := DeleteEndpoints(api, route);
    } else {
      r, trace := ReconcileEndpoints(api, route, d.list);
    }
    if r == Ok {
      r := Report(api, route, d);
    }
  }

  /** Reconciles a route. `id` and `cfg` are what the two Fetch helpers returned. */
  method Reconcile(api: Cluster, route: Key, id: Option<Identity>, cfg: Option<Config>, defaultNamespace: string)
    returns (r: Outcome, ghost first: Option<Selection>, ghost trace: seq<Endpoints>)
    modifies api`routes, api`endpoints, api`writes, api`faults
    ensures FirstPolicy(api.policies, route.ns, first)
    ensures |trace| > 0 && api.endpoints == trace[|trace|-1] && api.writes == old(api.writes) + |trace| - 1
    ensures Promised(route, old(ViewOf(api, route, first, id, cfg, defaultNamespace)), old(api.endpoints),
                     api.faults == old(api.faults), r, trace, old(api.routes), api.routes)
  {
    var policy := GetPolicyForNamespace(api, route.ns);
    first := policy;
    trace := [api.endpoints];
    ghost var v := ViewOf(api, route, first, id, cfg, defaultNamespace);
    if route !in api.routes {
      r, trace := DeleteEndpoints(api, route);
      return;
    }
    var spec := api.routes[route].spec;
    if !ValidRoute(spec) {
      r := Report(api, route, Rejected(ValidationFailed));
      return;
    }
    if policy.None? {
      r := Report(api, route, Waiting(DNSPolicyNotFound));
      return;
    }
    if !policy.value.active {
      r, trace := CarryOut(api, route, Withdrawn);
      return;
    }
    if cfg.None? {
      r := Report(api, route, Waiting(DNSConfigurationNotAvailable));
      return;
    }
    var gatewayKey := GatewayKey(spec, defaultNamespace);
    if gatewayKey !in api.gateways {
      r := Report(api, route, Waiting(GatewayNotFound));
      return;
    }
    if id.None? {
      r := Report(api, route, Waiting(ClusterIdentityNotAvailable));
      return;
    }
    var list := GenerateEndpoints(route, spec, policy.value.controllers, api.gateways[gatewayKey].spec, id.value,
                                  cfg.value);
    if list.None? {
      r := Report(api, route, Rejected(DNSEndpointGenerationFailed));
      return;
    }
    WantedIsLabelled(route, v);
    r, trace := CarryOut(api, route, Wanted(list.value));
  }
}
