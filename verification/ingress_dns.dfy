/** The IngressDNS controller: one global pass that collects garbage among the A records of Gateways and
    then creates or corrects one record per live Gateway configuration and ExternalDNS controller. */
module IngressDnsController {
  import opened Objects
  import opened ApiServer
  import opened GatewayController

  /** What identifies a Gateway configuration: its Istio controller and its target postfix. */
  datatype GatewayConfig = GatewayConfig(controller: string, postfix: string)

  function ConfigOf(spec: GatewaySpec): GatewayConfig {
    GatewayConfig(spec.controller, spec.targetPostfix)
  }

  function ActiveConfigs(gateways: map<Key, Gateway>): set<GatewayConfig> {
    set k | k in gateways && !gateways[k].deleting :: ConfigOf(gateways[k].spec)
  }

  method CollectConfigs(api: Cluster) returns (configs: set<GatewayConfig>)
    ensures configs == ActiveConfigs(api.gateways)
  {
    configs := {};
    var todo := api.gateways.Keys;
    while todo != {}
      invariant todo <= api.gateways.Keys
      invariant configs == set k | k in api.gateways.Keys - todo && !api.gateways[k].deleting ::
                             ConfigOf(api.gateways[k].spec)
    {
      var k :| k in todo;
      if !api.gateways[k].deleting {
        configs := configs + {ConfigOf(api.gateways[k].spec)};
      }
      todo := todo - {k};
    }
    assert api.gateways.Keys - {} == api.gateways.Keys;
  }

  // ---- garbage ----

  function ScannedNamespaces(services: map<Key, Service>): set<string> {
    set k | k in services && services[k].istio.Some? :: k.ns
  }

  method CollectNamespaces(api: Cluster) returns (namespaces: set<string>)
    ensures namespaces == ScannedNamespaces(api.services)
  {
    namespaces := {};
    var todo := api.services.Keys;
    while todo != {}
      invariant todo <= api.services.Keys
      invariant namespaces == set k | k in api.services.Keys - todo && api.services[k].istio.Some? :: k.ns
    {
      var k :| k in todo;
      if api.services[k].istio.Some? {
        namespaces := namespaces + {k.ns};
      }
      todo := todo - {k};
    }
    assert api.services.Keys - {} == api.services.Keys;
  }

  predicate GatewayEndpoint(e: Endpoint) {
    Carries(e.labels, ResourceType, GATEWAY_SERVICE)
  }

  function LabelledConfig(e: Endpoint): GatewayConfig {
    GatewayConfig(Label(e.labels, IstioController), Label(e.labels, TargetPostfix))
  }

  predicate Orphan(k: Key, e: Endpoint, scanned: set<string>, active: set<GatewayConfig>) {
    k.ns in scanned && GatewayEndpoint(e) && LabelledConfig(e) !in active
  }

  /** The store without orphans. */
  function Swept(m: Endpoints, scanned: set<string>, active: set<GatewayConfig>): Endpoints {
    map k | k in m && !Orphan(k, m[k], scanned, active) :: m[k]
  }

  /** `m'` is `m` without some of its orphans. */
  ghost predicate SweptSome(m: Endpoints, m': Endpoints, scanned: set<string>, active: set<GatewayConfig>) {
    && m'.Keys <= m.Keys
    && (forall k | k in m' :: m'[k] == m[k])
    && (forall k | k in m && k !in m' :: Orphan(k, m[k], scanned, active))
  }

  lemma SweptAll(m: Endpoints, m': Endpoints, scanned: set<string>, active: set<GatewayConfig>)
    requires SweptSome(m, m', scanned, active)
    requires forall k | k in m' :: !Orphan(k, m'[k], scanned, active)
    ensures m' == Swept(m, scanned, active)
  {}

  /** Deletes the orphans among the listed endpoints of one namespace, up to the first error. */
  method SweepItems(api: Cluster, items: seq<Named>, scanned: set<string>, active: set<GatewayConfig>)
    returns (stop: bool)
    requires forall n | n in items :: n.key.ns in scanned && GatewayEndpoint(n.body)
    requires forall n | n in items :: n.key in api.endpoints && api.endpoints[n.key] == n.body
    requires DistinctKeys(items)
    modifies api`endpoints, api`writes, api`faults
    ensures SweptSome(old(api.endpoints), api.endpoints, scanned, active)
    ensures api.writes == old(api.writes) + |old(api.endpoints)| - |api.endpoints|
    ensures api.faults == old(api.faults) + (if stop then 1 else 0)
    ensures !stop ==> forall n | n in items && n.key in api.endpoints :: LabelledConfig(n.body) in active
  {
    stop := false;
    for i := 0 to |items|
      invariant SweptSome(old(api.endpoints), api.endpoints, scanned, active)
      invariant api.writes == old(api.writes) + |old(api.endpoints)| - |api.endpoints| && api.faults == old(api.faults)
      invariant forall j | 0 <= j < i && items[j].key in api.endpoints :: LabelledConfig(items[j].body) in active
      invariant forall j | i <= j < |items| :: items[j].key in api.endpoints
    {
      if LabelledConfig(items[i].body) !in active {
        assert items[i] in items;
        ghost var before := api.endpoints;
        var r := api.DeleteEndpoint(items[i].key);
        if r != Ok { return true; }
        assert api.endpoints.Keys == before.Keys - {items[i].key};
      }
    }
  }

  /** Sweeps one namespace. A refused listing skips it. */
  method SweepNamespace(api: Cluster, ns: string, scanned: set<string>, active: set<GatewayConfig>) returns (stop: bool)
    requires ns in scanned
    modifies api`endpoints, api`writes, api`faults
    ensures SweptSome(old(api.endpoints), api.endpoints, scanned, active)
    ensures api.writes == old(api.writes) + |old(api.endpoints)| - |api.endpoints|
    ensures api.faults >= old(api.faults) && (stop ==> api.faults > old(api.faults))
    ensures api.faults == old(api.faults) ==>
              forall k | k in api.endpoints && k.ns == ns :: !Orphan(k, api.endpoints[k], scanned, active)
  {
    stop := false;
    var selector: Labels := map[ResourceType := GATEWAY_SERVICE];
    var r, items := api.ListEndpoints(ns, selector);
    if r != Ok { return; }
    forall labels ensures MatchesLabels(selector, labels) <==> Carries(labels, ResourceType, GATEWAY_SERVICE) {
      assert ResourceType in selector;
    }
    ghost var before := api.endpoints;
    stop := SweepItems(api, items, scanned, active);
    forall k | !stop && k in api.endpoints && k.ns == ns ensures !Orphan(k, api.endpoints[k], scanned, active) {
      if GatewayEndpoint(before[k]) {
        assert Named(k, before[k]) in items;
      }
    }
  }

  /** One namespace after the other; a refused deletion ends the cleanup. */
  method CleanupOrphans(api: Cluster, active: set<GatewayConfig>)
    modifies api`endpoints, api`writes, api`faults
    ensures SweptSome(old(api.endpoints), api.endpoints, ScannedNamespaces(api.services), active)
    ensures api.writes == old(api.writes) + |old(api.endpoints)| - |api.endpoints|
    ensures api.faults >= old(api.faults)
    ensures api.faults == old(api.faults) ==>
              api.endpoints == Swept(old(api.endpoints), ScannedNamespaces(api.services), active)
  {
    var scanned := CollectNamespaces(api);
    var todo := scanned;
    while todo != {}
      invariant todo <= scanned && api.faults >= old(api.faults)
      invariant SweptSome(old(api.endpoints), api.endpoints, scanned, active)
      invariant api.writes == old(api.writes) + |old(api.endpoints)| - |api.endpoints|
      invariant api.faults == old(api.faults) ==>
        forall k | k in api.endpoints && k.ns in scanned - todo :: !Orphan(k, api.endpoints[k], scanned, active)
    {
      var ns :| ns in todo;
      var stop := SweepNamespace(api, ns, scanned, active);
      if stop { return; }
      todo := todo - {ns};
    }
    if api.faults == old(api.faults) {
      SweptAll(old(api.endpoints), api.endpoints, scanned, active);
    }
  }

  // ---- records ----

  function IngressName(c: GatewayConfig, controller: string): string {
    "gateway-controller-" + c.controller + "-" + c.postfix + "-" + controller
  }

  function IngressLabels(c: GatewayConfig, region: string): Labels {
    map[IstioController := c.controller, TargetPostfix := c.postfix, Region := region,
        ResourceType := GATEWAY_SERVICE, ManagedBy := OPERATOR]
  }

  function IngressEndpoint(c: GatewayConfig, service: Key, ext: ExternalDns, host: string, ip: string): Named {
    Named(Key(service.ns, IngressName(c, ext.name)),
          Endpoint(IngressLabels(c, ext.region), None, [Record(host, A, [ip], 300)], ServiceOwner(service.name)))
  }

  /** The records of one configuration: none while its service has no address. */
  function RecordsFor(c: GatewayConfig, services: map<Key, Service>, service: Option<Key>, id: Identity, cfg: Config)
    : seq<Named>
  {
    var ip := Address(services, service);
    if service.None? || ip == "" then [] else
      seq(|cfg|, i requires 0 <= i < |cfg| => IngressEndpoint(c, service.value, cfg[i], TargetHost(id, c.postfix), ip))
  }

  /** Only the first record's name and first target are compared. */
  predicate NeedsUpdate(existing: Endpoint, wanted: Endpoint)
    requires |wanted.spec| == 1 && |wanted.spec[0].targets| == 1
  {
    || |existing.spec| == 0
    || |existing.spec[0].targets| == 0
    || existing.spec[0].targets[0] != wanted.spec[0].targets[0]
    || existing.spec[0].dnsName != wanted.spec[0].dnsName
  }

  /** A list of records as this controller builds them. */
  ghost predicate Records(list: seq<Named>) {
    forall n | n in list ::
      |n.body.spec| == 1 && |n.body.spec[0].targets| == 1 && n.body.spec[0].recordType == A && n.body.spec[0].ttl == 300
      && GatewayEndpoint(n.body)
  }

  lemma RecordsForAreRecords(c: GatewayConfig, services: map<Key, Service>, service: Option<Key>, id: Identity,
                             cfg: Config)
    ensures Records(RecordsFor(c, services, service, id, cfg))
    ensures forall n | n in RecordsFor(c, services, service, id, cfg) :: LabelledConfig(n.body) == c
  {}

  ghost predicate Due(m: Endpoints, n: Named)
    requires |n.body.spec| == 1 && |n.body.spec[0].targets| == 1
  {
    n.key !in m || NeedsUpdate(m[n.key], n.body)
  }

  /** A correction replaces spec and labels, and keeps annotation and owner. */
  ghost function Upserted(m: Endpoints, n: Named): Endpoints
    requires |n.body.spec| == 1 && |n.body.spec[0].targets| == 1
  {
    if !Due(m, n) then m
    else m[n.key := if n.key in m then m[n.key].(spec := n.body.spec, labels := n.body.labels) else n.body]
  }

  ghost function UpsertAll(m: Endpoints, list: seq<Named>): Endpoints
    requires Records(list)
  {
    if list == [] then m else
      Upserted(UpsertAll(m, list[..|list|-1]), list[|list|-1])
  }

  /** How many writes that takes. */
  ghost function WritesFor(m: Endpoints, list: seq<Named>): nat
    requires Records(list)
  {
    if list == [] then 0 else
      var init := list[..|list|-1];
      WritesFor(m, init) + if Due(UpsertAll(m, init), list[|list|-1]) then 1 else 0
  }

  lemma {:induction false} UpsertAllAppends(m: Endpoints, a: seq<Named>, b: seq<Named>)
    requires Records(a) && Records(b)
    ensures Records(a + b) && UpsertAll(m, a + b) == UpsertAll(UpsertAll(m, a), b)
    ensures WritesFor(m, a + b) == WritesFor(m, a) + WritesFor(UpsertAll(m, a), b)
  {
    if b == [] {
      assert a + b == a;
    } else {
      var init := b[..|b|-1];
      UpsertAllAppends(m, a, init);
      assert (a + b)[..|a + b|-1] == a + init;
    }
  }

  /** Creates or corrects one record. */
  method UpsertRecord(api: Cluster, wanted: Named) returns (r: Outcome)
    requires |wanted.body.spec| == 1 && |wanted.body.spec[0].targets| == 1
    modifies api`endpoints, api`writes, api`faults
    ensures r == Ok || r == Fault
    ensures api.faults == old(api.faults) + (if r == Fault then 1 else 0)
    ensures api.endpoints == if r == Ok then Upserted(old(api.endpoints), wanted) else old(api.endpoints)
    ensures api.writes == old(api.writes) + (if r == Ok && Due(old(api.endpoints), wanted) then 1 else 0)
  {
    if wanted.key !in api.endpoints {
      r := api.CreateEndpoint(wanted.key, wanted.body);
      return;
    }
    var existing := api.endpoints[wanted.key];
    if NeedsUpdate(existing, wanted.body) {
      r := api.PatchEndpoint(wanted.key, existing.(spec := wanted.body.spec, labels := wanted.body.labels));
      return;
    }
    r := Ok;
  }

  lemma UpsertsGrow(m: Endpoints, list: seq<Named>, i: nat)
    requires Records(list) && i < |list|
    ensures |list[i].body.spec| == 1 && |list[i].body.spec[0].targets| == 1
    ensures Records(list[..i]) && Records(list[..i+1])
    ensures UpsertAll(m, list[..i+1]) == Upserted(UpsertAll(m, list[..i]), list[i])
    ensures WritesFor(m, list[..i+1])
            == WritesFor(m, list[..i]) + if Due(UpsertAll(m, list[..i]), list[i]) then 1 else 0
  {
    assert list[..i+1][..i] == list[..i] && list[i] in list;
  }

  /** Upserts one record per entry, up to the first refusal. `list` are the records. */
  method UpsertEach(api: Cluster, c: GatewayConfig, service: Key, host: string, ip: string, cfg: Config,
                    ghost list: seq<Named>)
    returns (r: Outcome, ghost done: nat)
    requires Records(list) && |list| == |cfg|
    requires forall i | 0 <= i < |cfg| :: list[i] == IngressEndpoint(c, service, cfg[i], host, ip)
    modifies api`endpoints, api`writes, api`faults
    ensures r == Ok || r == Fault
    ensures api.faults == old(api.faults) + (if r == Fault then 1 else 0)
    ensures done <= |list| && Records(list[..done]) && (r == Ok <==> done == |list|)
    ensures api.endpoints == UpsertAll(old(api.endpoints), list[..done])
    ensures api.writes == old(api.writes) + WritesFor(old(api.endpoints), list[..done])
  {
    r, done := Ok, 0;
    for i := 0 to |cfg|
      invariant done == i && Records(list[..i]) && api.faults == old(api.faults) && r == Ok
      invariant api.endpoints == UpsertAll(old(api.endpoints), list[..i])
      invariant api.writes == old(api.writes) + WritesFor(old(api.endpoints), list[..i])
    {
      UpsertsGrow(old(api.endpoints), list, i);
      r := UpsertRecord(api, IngressEndpoint(c, service, cfg[i], host, ip));
      if r != Ok { return; }
      done := i + 1;
    }
  }

  method ReconcileForConfig(api: Cluster, c: GatewayConfig, id: Identity, cfg: Config)
    returns (r: Outcome, ghost service: Option<Key>, ghost done: nat)
    modifies api`endpoints, api`writes, api`faults
    ensures Balancer(api.services, c.controller, service)
    ensures r == Ok || r == Fault
    ensures api.faults == old(api.faults) + (if r == Fault then 1 else 0)
    ensures var list := RecordsFor(c, api.services, service, id, cfg);
      && done <= |list| && Records(list) && Records(list[..done]) && (r == Ok <==> done == |list|)
      && api.endpoints == UpsertAll(old(api.endpoints), list[..done])
      && api.writes == old(api.writes) + WritesFor(old(api.endpoints), list[..done])
  {
    var found := GetLoadBalancerService(api, c.controller);
    service := found;
    RecordsForAreRecords(c, api.services, service, id, cfg);
    ghost var list := RecordsFor(c, api.services, service, id, cfg);
    var ip := Address(api.services, found);
    if found.None? || ip == "" { return Ok, service, 0; }
    r, done := UpsertEach(api, c, found.value, TargetHost(id, c.postfix), ip, cfg, list);
  }

  // ---- the whole pass ----

  /** What a pass works on: the services, the active configurations, and which service each of them
      found. */
  datatype Plan = Plan(order: seq<GatewayConfig>, choice: map<GatewayConfig, Option<Key>>)

  ghost predicate IsPlan(plan: Plan, active: set<GatewayConfig>, services: map<Key, Service>) {
    && NoDuplicates(plan.order) && Members(plan.order) == active == plan.choice.Keys
    && forall c | c in plan.choice :: Balancer(services, c.controller, plan.choice[c])
  }

  /** The records of the listed configurations, in the order they are handled. */
  function AllRecords(order: seq<GatewayConfig>, choice: map<GatewayConfig, Option<Key>>, services: map<Key, Service>,
                      id: Identity, cfg: Config): seq<Named>
  {
    if order == [] then [] else
      var c := order[|order|-1];
      AllRecords(order[..|order|-1], choice, services, id, cfg)
      + RecordsFor(c, services, if c in choice then choice[c] else None, id, cfg)
  }

  lemma {:induction false} AllRecordsAreRecords(order: seq<GatewayConfig>, choice: map<GatewayConfig, Option<Key>>,
                                                services: map<Key, Service>, id: Identity, cfg: Config)
    ensures Records(AllRecords(order, choice, services, id, cfg))
    ensures forall n | n in AllRecords(order, choice, services, id, cfg) :: LabelledConfig(n.body) in order
  {
    if order == [] {
    } else {
      var init, c := order[..|order|-1], order[|order|-1];
      assert order == init + [c];
      AllRecordsAreRecords(init, choice, services, id, cfg);
      RecordsForAreRecords(c, services, if c in choice then choice[c] else None, id, cfg);
    }
  }

  // ---- passes that are refused calls ----

  function Upto(list: seq<Named>, n: nat): seq<Named> {
    if n <= |list| then list[..n] else list
  }

  function ListFor(c: GatewayConfig, choice: map<GatewayConfig, Option<Key>>, services: map<Key, Service>,
                   id: Identity, cfg: Config): seq<Named>
  {
    RecordsFor(c, services, if c in choice then choice[c] else None, id, cfg)
  }

  /** The records that were handled: of each configuration those up to the first refusal. */
  function Attempted(order: seq<GatewayConfig>, choice: map<GatewayConfig, Option<Key>>, done: map<GatewayConfig, nat>,
                     services: map<Key, Service>, id: Identity, cfg: Config): seq<Named>
  {
    if order == [] then [] else
      var c := order[|order|-1];
      Attempted(order[..|order|-1], choice, done, services, id, cfg)
      + Upto(ListFor(c, choice, services, id, cfg), if c in done then done[c] else 0)
  }

  lemma {:induction false} AttemptedAreRecords(order: seq<GatewayConfig>, choice: map<GatewayConfig, Option<Key>>,
      done: map<GatewayConfig, nat>, services: map<Key, Service>, id: Identity, cfg: Config)
    ensures Records(Attempted(order, choice, done, services, id, cfg))
  {
    if order == [] {
    } else {
      var init, c := order[..|order|-1], order[|order|-1];
      AttemptedAreRecords(init, choice, done, services, id, cfg);
      RecordsForAreRecords(c, services, if c in choice then choice[c] else None, id, cfg);
    }
  }

  lemma {:induction false} AttemptedIgnoresOthers(order: seq<GatewayConfig>, choice: map<GatewayConfig, Option<Key>>,
      choice': map<GatewayConfig, Option<Key>>, done: map<GatewayConfig, nat>, done': map<GatewayConfig, nat>,
      services: map<Key, Service>, id: Identity, cfg: Config)
    requires forall c | c in order :: c in choice && c in choice' && choice[c] == choice'[c]
    requires forall c | c in order :: c in done && c in done' && done[c] == done'[c]
    ensures Attempted(order, choice, done, services, id, cfg) == Attempted(order, choice', done', services, id, cfg)
  {
    if order == [] {
    } else {
      AttemptedIgnoresOthers(order[..|order|-1], choice, choice', done, done', services, id, cfg);
    }
  }

  /** Without a refusal all records were handled. */
  lemma {:induction false} AttemptedAll(order: seq<GatewayConfig>, choice: map<GatewayConfig, Option<Key>>,
      done: map<GatewayConfig, nat>, services: map<Key, Service>, id: Identity, cfg: Config)
    requires forall c | c in order :: c in done && done[c] == |ListFor(c, choice, services, id, cfg)|
    ensures Attempted(order, choice, done, services, id, cfg) == AllRecords(order, choice, services, id, cfg)
  {
    if order == [] {
    } else {
      AttemptedAll(order[..|order|-1], choice, done, services, id, cfg);
    }
  }

  /** One more configuration handled: its records come last. */
  lemma AttemptedGrows(plan: Plan, done: map<GatewayConfig, nat>, c: GatewayConfig, service: Option<Key>, n: nat,
                       services: map<Key, Service>, id: Identity, cfg: Config)
    requires Members(plan.order) == plan.choice.Keys == done.Keys && c !in plan.choice
    ensures Attempted(plan.order + [c], plan.choice[c := service], done[c := n], services, id, cfg)
            == Attempted(plan.order, plan.choice, done, services, id, cfg)
               + Upto(RecordsFor(c, services, service, id, cfg), n)
  {
    assert forall d | d in plan.order :: d in Members(plan.order);
    AttemptedIgnoresOthers(plan.order, plan.choice, plan.choice[c := service], done, done[c := n], services, id, cfg);
    assert (plan.order + [c])[..|plan.order|] == plan.order;
  }

  /** The handled records were upserted into `m`, giving `m'` by so many writes. */
  ghost predicate Handled(plan: Plan, done: map<GatewayConfig, nat>, services: map<Key, Service>, id: Identity,
                          cfg: Config, m: Endpoints, m': Endpoints, writes: int)
  {
    var list := Attempted(plan.order, plan.choice, done, services, id, cfg);
    Records(list) && m' == UpsertAll(m, list) && writes == WritesFor(m, list)
  }

  /** The configurations that met a refusal. */
  function CutShort(plan: Plan, done: map<GatewayConfig, nat>, services: map<Key, Service>, id: Identity, cfg: Config)
    : set<GatewayConfig>
  {
    set c | c in plan.choice && c in done && done[c] < |ListFor(c, plan.choice, services, id, cfg)|
  }

  lemma HandleOne(plan: Plan, done: map<GatewayConfig, nat>, c: GatewayConfig, service: Option<Key>, n: nat,
                  services: map<Key, Service>, id: Identity, cfg: Config, m: Endpoints, m': Endpoints, writes: int)
    requires Members(plan.order) == plan.choice.Keys == done.Keys && c !in plan.choice
    requires Handled(plan, done, services, id, cfg, m, m', writes)
    ensures var more := Upto(RecordsFor(c, services, service, id, cfg), n);
      && Records(more)
      && Handled(Plan(plan.order + [c], plan.choice[c := service]), done[c := n], services, id, cfg, m,
                 UpsertAll(m', more), writes + WritesFor(m', more))
  {
    RecordsForAreRecords(c, services, service, id, cfg);
    AttemptedGrows(plan, done, c, service, n, services, id, cfg);
    UpsertAllAppends(m, Attempted(plan.order, plan.choice, done, services, id, cfg),
                     Upto(RecordsFor(c, services, service, id, cfg), n));
  }

  lemma CutOne(plan: Plan, done: map<GatewayConfig, nat>, c: GatewayConfig, service: Option<Key>, n: nat,
               services: map<Key, Service>, id: Identity, cfg: Config)
    requires plan.choice.Keys == done.Keys && c !in plan.choice
    ensures |CutShort(Plan(plan.order + [c], plan.choice[c := service]), done[c := n], services, id, cfg)|
            == |CutShort(plan, done, services, id, cfg)|
               + if n < |RecordsFor(c, services, service, id, cfg)| then 1 else 0
  {
    var after := CutShort(Plan(plan.order + [c], plan.choice[c := service]), done[c := n], services, id, cfg);
    var before := CutShort(plan, done, services, id, cfg);
    assert after == before + if n < |RecordsFor(c, services, service, id, cfg)| then {c} else {};
  }

  lemma NothingCut(plan: Plan, done: map<GatewayConfig, nat>, active: set<GatewayConfig>, services: map<Key, Service>,
                   id: Identity, cfg: Config)
    requires IsPlan(plan, active, services) && done.Keys == active
    requires forall c | c in active :: done[c] <= |ListFor(c, plan.choice, services, id, cfg)|
    requires CutShort(plan, done, services, id, cfg) == {}
    ensures Attempted(plan.order, plan.choice, done, services, id, cfg)
            == AllRecords(plan.order, plan.choice, services, id, cfg)
  {
    forall c | c in plan.order ensures c in done && done[c] == |ListFor(c, plan.choice, services, id, cfg)| {
      assert c in Members(plan.order);
      assert c !in CutShort(plan, done, services, id, cfg);
    }
    AttemptedAll(plan.order, plan.choice, done, services, id, cfg);
  }

  /** How far each configuration got. */
  ghost predicate IsProgress(plan: Plan, done: map<GatewayConfig, nat>, active: set<GatewayConfig>,
                             services: map<Key, Service>, id: Identity, cfg: Config)
  {
    && IsPlan(plan, active, services) && done.Keys == active
    && forall c | c in active :: done[c] <= |ListFor(c, plan.choice, services, id, cfg)|
  }

  /** So far these configurations were handled, turning `m` into `m'` by so many writes and refusals. */
  ghost predicate Progressed(plan: Plan, done: map<GatewayConfig, nat>, handled: set<GatewayConfig>,
                             services: map<Key, Service>, id: Identity, cfg: Config,
                             m: Endpoints, m': Endpoints, writes: int, faults: int)
  {
    && IsProgress(plan, done, handled, services, id, cfg)
    && Handled(plan, done, services, id, cfg, m, m', writes)
    && faults == |CutShort(plan, done, services, id, cfg)|
  }

  lemma NothingYet(services: map<Key, Service>, id: Identity, cfg: Config, m: Endpoints)
    ensures Progressed(Plan([], map[]), map[], {}, services, id, cfg, m, m, 0, 0)
  {}

  lemma ProgressOne(plan: Plan, done: map<GatewayConfig, nat>, handled: set<GatewayConfig>, c: GatewayConfig,
                    service: Option<Key>, n: nat, services: map<Key, Service>, id: Identity, cfg: Config,
                    m: Endpoints, m': Endpoints, writes: int, faults: int)
    requires Progressed(plan, done, handled, services, id, cfg, m, m', writes, faults)
    requires c !in handled && Balancer(services, c.controller, service)
    requires n <= |RecordsFor(c, services, service, id, cfg)|
    ensures var list := RecordsFor(c, services, service, id, cfg);
      && Records(list[..n])
      && Progressed(Plan(plan.order + [c], plan.choice[c := service]), done[c := n], handled + {c}, services, id, cfg,
                    m, UpsertAll(m', list[..n]), writes + WritesFor(m', list[..n]),
                    faults + if n < |list| then 1 else 0)
  {
    var plan', done' := Plan(plan.order + [c], plan.choice[c := service]), done[c := n];
    var list := RecordsFor(c, services, service, id, cfg);
    assert IsProgress(plan', done', handled + {c}, services, id, cfg) by {
      ProgressExtends(plan, done, handled, c, service, n, services, id, cfg);
    }
    assert |CutShort(plan', done', services, id, cfg)| == faults + if n < |list| then 1 else 0 by {
      CutOne(plan, done, c, service, n, services, id, cfg);
    }
    HandleOne(plan, done, c, service, n, services, id, cfg, m, m', writes);
  }

  lemma ProgressExtends(plan: Plan, done: map<GatewayConfig, nat>, handled: set<GatewayConfig>, c: GatewayConfig,
                        service: Option<Key>, n: nat, services: map<Key, Service>, id: Identity, cfg: Config)
    requires IsProgress(plan, done, handled, services, id, cfg) && c !in handled
    requires Balancer(services, c.controller, service) && n <= |RecordsFor(c, services, service, id, cfg)|
    ensures IsProgress(Plan(plan.order + [c], plan.choice[c := service]), done[c := n], handled + {c},
                       services, id, cfg)
  {}

  /** Handles one more configuration. Its error is dropped. */
  method HandleConfig(api: Cluster, c: GatewayConfig, id: Identity, cfg: Config, ghost plan: Plan,
                      ghost done: map<GatewayConfig, nat>, ghost handled: set<GatewayConfig>, ghost m: Endpoints,
                      ghost writes: int, ghost faults: int)
    returns (ghost plan': Plan, ghost done': map<GatewayConfig, nat>)
    requires c !in handled
    requires Progressed(plan, done, handled, api.services, id, cfg, m, api.endpoints,
                        api.writes - writes, api.faults - faults)
    modifies api`endpoints, api`writes, api`faults
    ensures Progressed(plan', done', handled + {c}, api.services, id, cfg, m, api.endpoints,
                       api.writes - writes, api.faults - faults)
  {
    ghost var service: Option<Key>, n: nat;
    var r;
    r, service, n := ReconcileForConfig(api, c, id, cfg);
    ProgressOne(plan, done, handled, c, service, n, api.services, id, cfg, m, old(api.endpoints),
                old(api.writes) - writes, old(api.faults) - faults);
    plan', done' := Plan(plan.order + [c], plan.choice[c := service]), done[c := n];
  }

  /** Handles the configurations in any order. An error of one is logged and the others go on: each
      refused call cuts short the one configuration it concerns. */
  method UpsertRecords(api: Cluster, configs: set<GatewayConfig>, id: Identity, cfg: Config)
    returns (ghost plan: Plan, ghost done: map<GatewayConfig, nat>)
    modifies api`endpoints, api`writes, api`faults
    ensures Progressed(plan, done, configs, api.services, id, cfg, old(api.endpoints), api.endpoints,
                       api.writes - old(api.writes), api.faults - old(api.faults))
  {
    hide Progressed;
    plan, done := Plan([], map[]), map[];
    NothingYet(api.services, id, cfg, api.endpoints);
    var todo := configs;
    assert configs - todo == {};
    while todo != {}
      invariant todo <= configs
      invariant Progressed(plan, done, configs - todo, api.services, id, cfg, old(api.endpoints), api.endpoints,
                           api.writes - old(api.writes), api.faults - old(api.faults))
    {
      var c :| c in todo;
      plan, done := HandleConfig(api, c, id, cfg, plan, done, configs - todo, old(api.endpoints), old(api.writes),
                                 old(api.faults));
      assert configs - (todo - {c}) == configs - todo + {c};
      todo := todo - {c};
    }
    assert configs - {} == configs;
  }

  /** What a pass promises: nothing but orphans was removed, giving `swept`, and of each configuration the
      records up to the first refusal were upserted; without a refusal all of both. */
  ghost predicate PassPromised(m: Endpoints, m': Endpoints, gateways: map<Key, Gateway>, services: map<Key, Service>,
                               id: Option<Identity>, cfg: Option<Config>, swept: Endpoints, plan: Plan,
                               done: map<GatewayConfig, nat>, writes: int, faults: int)
  {
    var scanned, active, upserts := ScannedNamespaces(services), ActiveConfigs(gateways), writes - (|m| - |swept|);
    && SweptSome(m, swept, scanned, active)
    && (faults == 0 ==> swept == Swept(m, scanned, active))
    && if id.None? || cfg.None? then m' == swept && upserts == 0 && faults >= 0
       else
         && IsProgress(plan, done, active, services, id.value, cfg.value)
         && Handled(plan, done, services, id.value, cfg.value, swept, m', upserts)
         && faults >= |CutShort(plan, done, services, id.value, cfg.value)|
  }

  /** One pass. Errors are logged and it goes on. */
  method Reconcile(api: Cluster, id: Option<Identity>, cfg: Option<Config>)
    returns (ghost swept: Endpoints, ghost plan: Plan, ghost done: map<GatewayConfig, nat>)
    modifies api`endpoints, api`writes, api`faults
    ensures PassPromised(old(api.endpoints), api.endpoints, api.gateways, api.services, id, cfg, swept, plan, done,
                         api.writes - old(api.writes), api.faults - old(api.faults))
  {
    plan, done := Plan([], map[]), map[];
    var configs := CollectConfigs(api);
    CleanupOrphans(api, configs);
    swept := api.endpoints;
    if id.None? || cfg.None? { return; }
    plan, done := UpsertRecords(api, configs, id.value, cfg.value);
  }
}
