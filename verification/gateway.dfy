/** The Gateway controller: collecting the hosts of the routes that use a Gateway into an Istio Gateway,
    and the order-independent test whether that needs an update. */
module GatewayController {
  import opened Objects
  import opened ApiServer

  // ---- hosts ----

  ghost predicate NoDuplicates<T(!new)>(s: seq<T>) {
    forall i, j | 0 <= i < j < |s| :: s[i] != s[j]
  }

  function Members<T>(s: seq<T>): set<T> {
    set x | x in s
  }

  function SpecsOf(routes: map<Key, Route>): map<Key, RouteSpec> {
    map k | k in routes :: routes[k].spec
  }

  /** The source hosts of all routes that name the Gateway. */
  function HostSet(routes: map<Key, RouteSpec>, gateway: Key, id: Identity, defaultNamespace: string): set<string> {
    set k | k in routes && GatewayKey(routes[k], defaultNamespace) == gateway :: SourceHost(routes[k], id)
  }

  /** Collects the hosts, each once, in some order. */
  method CollectHosts(api: Cluster, gateway: Key, id: Identity, defaultNamespace: string) returns (hosts: seq<string>)
    ensures NoDuplicates(hosts) && Members(hosts) == HostSet(SpecsOf(api.routes), gateway, id, defaultNamespace)
  {
    var hostSet: set<string> := {};
    var todo := api.routes.Keys;
    while todo != {}
      invariant todo <= api.routes.Keys
      invariant hostSet == set k | k in api.routes.Keys - todo
                                   && GatewayKey(api.routes[k].spec, defaultNamespace) == gateway ::
                             SourceHost(api.routes[k].spec, id)
    {
      var k :| k in todo;
      var spec := api.routes[k].spec;
      if spec.gatewayName == gateway.name {
        var ns := if spec.gatewayNamespace == "" then defaultNamespace else spec.gatewayNamespace;
        if ns == gateway.ns {
          hostSet := hostSet + {SourceHost(spec, id)};
        }
      }
      todo := todo - {k};
    }
    assert api.routes.Keys - {} == api.routes.Keys == SpecsOf(api.routes).Keys;
    hosts := ListOf(hostSet);
  }

  /** The elements of a set, in some order. */
  method ListOf(elements: set<string>) returns (list: seq<string>)
    ensures NoDuplicates(list) && Members(list) == elements
  {
    list := [];
    var left := elements;
    while left != {}
      invariant left <= elements && NoDuplicates(list) && Members(list) == elements - left
    {
      var x :| x in left;
      assert x !in Members(list);
      assert Members(list + [x]) == Members(list) + {x};
      list := list + [x];
      left := left - {x};
    }
  }

  // ---- the Istio Gateway ----

  const MANAGED_BY := "app.kubernetes.io/managed-by"
  const ROUTER_GATEWAY := "router.io/gateway"

  function Generate(key: Key, spec: GatewaySpec, hosts: seq<string>): IstioGateway {
    IstioGateway(map[MANAGED_BY := OPERATOR, ROUTER_GATEWAY := key.name],
                 map["istio" := spec.controller],
                 [Server(443, hosts, Some(Tls(true, spec.credentialName)))])
  }

  /** Reading an absent entry gives the empty string. */
  function Entry(m: map<string, string>, k: string): string {
    if k in m then m[k] else ""
  }

  predicate EntriesDiffer(existing: map<string, string>, desired: map<string, string>) {
    exists k :: k in desired && Entry(existing, k) != desired[k]
  }

  /** The test the controller makes: sizes, then inclusion of what is desired in what exists. */
  predicate Differs(existing: IstioGateway, desired: IstioGateway) {
    || |existing.selector| != |desired.selector|
    || EntriesDiffer(existing.selector, desired.selector)
    || |existing.servers| != |desired.servers|
    || (|desired.servers| > 0 && ServerDiffers(existing.servers[0], desired.servers[0]))
    || EntriesDiffer(existing.labels, desired.labels)
  }

  predicate ServerDiffers(existing: Server, desired: Server) {
    || |existing.hosts| != |desired.hosts|
    || (exists h :: h in desired.hosts && h !in existing.hosts)
    || (existing.tls.Some? && desired.tls.Some? && existing.tls != desired.tls)
  }

  method EntriesDifferLoop(existing: map<string, string>, desired: map<string, string>) returns (r: bool)
    ensures r <==> EntriesDiffer(existing, desired)
  {
    var todo := desired.Keys;
    while todo != {}
      invariant todo <= desired.Keys
      invariant forall k | k in desired.Keys - todo :: Entry(existing, k) == desired[k]
    {
      var k :| k in todo;
      if Entry(existing, k) != desired[k] { return true; }
      todo := todo - {k};
    }
    r := false;
  }

  method IstioNeedsUpdate(existing: IstioGateway, desired: IstioGateway) returns (r: bool)
    ensures r <==> Differs(existing, desired)
  {
    if |existing.selector| != |desired.selector| { return true; }
    r := EntriesDifferLoop(existing.selector, desired.selector);
    if r { return; }
    if |existing.servers| != |desired.servers| { return true; }
    if |desired.servers| > 0 && |existing.servers| > 0 {
      var existingServer, desiredServer := existing.servers[0], desired.servers[0];
      if |existingServer.hosts| != |desiredServer.hosts| { return true; }
      var known: set<string> := {};
      for i := 0 to |existingServer.hosts|
        invariant known == Members(existingServer.hosts[..i])
      {
        known := known + {existingServer.hosts[i]};
      }
      assert existingServer.hosts[..|existingServer.hosts|] == existingServer.hosts;
      for i := 0 to |desiredServer.hosts|
        invariant forall j | 0 <= j < i :: desiredServer.hosts[j] in known
      {
        if desiredServer.hosts[i] !in known { return true; }
      }
      if existingServer.tls.Some? && desiredServer.tls.Some? {
        if existingServer.tls.value.credentialName != desiredServer.tls.value.credentialName
           || existingServer.tls.value.simple != desiredServer.tls.value.simple {
          return true;
        }
      }
    }
    r := EntriesDifferLoop(existing.labels, desired.labels);
  }

  // ---- why sizes and one inclusion are enough ----

  lemma {:induction false} DistinctSize<T(!new)>(s: seq<T>)
    ensures |Members(s)| <= |s|
    ensures NoDuplicates(s) <==> |Members(s)| == |s|
  {
    if s == [] {
    } else {
      var init, last := s[..|s|-1], s[|s|-1];
      assert s == init + [last];
      DistinctSize(init);
      assert Members(s) == Members(init) + {last};
      if NoDuplicates(s) {
        assert last !in Members(init);
      }
      if |Members(s)| == |s| {
        assert last !in Members(init);
        assert forall i | 0 <= i < |init| :: init[i] in Members(init);
      }
    }
  }

  lemma SameSizeSubset<T>(a: set<T>, b: set<T>)
    requires a <= b && |b| <= |a|
    ensures a == b
  {
    assert |b - a| == |b| - |a|;
  }

  lemma {:induction false} DistinctMultiset<T(!new)>(s: seq<T>)
    requires NoDuplicates(s)
    ensures multiset(s) == multiset(Members(s))
  {
    if s == [] {
    } else {
      var init, last := s[..|s|-1], s[|s|-1];
      assert s == init + [last];
      DistinctMultiset(init);
      assert Members(s) == Members(init) + {last} && last !in Members(init);
    }
  }

  /** A list as long as a duplicate-free one and holding all its elements is a permutation of it. */
  lemma Pigeonhole<T(!new)>(existing: seq<T>, desired: seq<T>)
    requires NoDuplicates(desired) && |existing| == |desired|
    requires forall x | x in desired :: x in existing
    ensures NoDuplicates(existing) && multiset(existing) == multiset(desired)
  {
    DistinctSize(existing);
    DistinctSize(desired);
    SameSizeSubset(Members(desired), Members(existing));
    DistinctMultiset(existing);
    DistinctMultiset(desired);
  }

  /** Whatever wrote the existing one: when the test finds no difference, the selectors are equal and the
      hosts are a permutation of the desired ones. */
  lemma NoDifferenceMeans(key: Key, spec: GatewaySpec, hosts: seq<string>, existing: IstioGateway)
    requires NoDuplicates(hosts) && spec.controller != "" && !Differs(existing, Generate(key, spec, hosts))
    ensures existing.selector == Generate(key, spec, hosts).selector
    ensures |existing.servers| == 1 && multiset(existing.servers[0].hosts) == multiset(hosts)
    ensures Entry(existing.labels, "app.kubernetes.io/managed-by") == "service-router-operator"
    ensures Entry(existing.labels, "router.io/gateway") == key.name
  {
    var desired := Generate(key, spec, hosts);
    assert MANAGED_BY in desired.labels && ROUTER_GATEWAY in desired.labels;
    assert "istio" in desired.selector;
    assert "istio" in existing.selector && existing.selector["istio"] == spec.controller;
    SameSizeSubset({"istio"}, existing.selector.Keys) by {
      assert |existing.selector.Keys| == |existing.selector| == |desired.selector| == |desired.selector.Keys|;
      assert desired.selector.Keys == {"istio"};
    }
    Pigeonhole(existing.servers[0].hosts, hosts);
  }

  /** Among Gateways the operator wrote the test is exact: there is no difference exactly when controller
      and credential are equal and the hosts are the same up to order. */
  lemma TestIsExact(key: Key, spec: GatewaySpec, hosts: seq<string>, spec': GatewaySpec, hosts': seq<string>)
    requires NoDuplicates(hosts) && NoDuplicates(hosts') && spec'.controller != ""
    ensures !Differs(Generate(key, spec, hosts), Generate(key, spec', hosts')) <==>
            spec.controller == spec'.controller && spec.credentialName == spec'.credentialName
            && multiset(hosts) == multiset(hosts')
  {
    var existing, desired := Generate(key, spec, hosts), Generate(key, spec', hosts');
    if !Differs(existing, desired) {
      NoDifferenceMeans(key, spec', hosts', existing);
      assert "istio" in desired.selector && existing.selector["istio"] == desired.selector["istio"];
    } else if multiset(hosts) == multiset(hosts') {
      assert |hosts| == |multiset(hosts)| == |hosts'|;
      assert forall h | h in hosts' :: h in multiset(hosts);
    }
  }

  // ---- load balancer and status ----

  predicate Serves(service: Service, controller: string) {
    service.istio == Some(controller) && service.isLoadBalancer
  }

  /** `k` is a load balancer service of the controller, if there is one. */
  ghost predicate Balancer(services: map<Key, Service>, controller: string, k: Option<Key>) {
    match k
    case None => forall j | j in services :: !Serves(services[j], controller)
    case Some(j) => j in services && Serves(services[j], controller)
  }

  /** The first load balancer service in a listing of unknown order. */
  method GetLoadBalancerService(api: Cluster, controller: string) returns (k: Option<Key>)
    ensures Balancer(api.services, controller, k)
    ensures k.Some? ==> k.value in api.services && api.services[k.value].istio == Some(controller)
                        && api.services[k.value].isLoadBalancer
    ensures k.None? ==> forall j | j in api.services && api.services[j].isLoadBalancer ::
                          api.services[j].istio != Some(controller)
  {
    var todo := api.services.Keys;
    while todo != {}
      invariant todo <= api.services.Keys
      invariant forall j | j in api.services.Keys - todo :: !Serves(api.services[j], controller)
    {
      var j :| j in todo;
      if api.services[j].istio == Some(controller) && api.services[j].isLoadBalancer {
        return Some(j);
      }
      todo := todo - {j};
    }
    k := None;
  }

  /** The address of the service: its first IP, or the empty string while there is none. */
  function Address(services: map<Key, Service>, k: Option<Key>): string {
    if k.Some? && k.value in services && services[k.value].ingress != [] then services[k.value].ingress[0] else ""
  }

  predicate LowerAlphanumeric(c: char) {
    'a' <= c <= 'z' || '0' <= c <= '9'
  }

  /** Groups of lower-case letters and digits, joined by single hyphens. */
  predicate ValidPostfix(s: string) {
    && s != "" && s[0] != '-' && s[|s|-1] != '-'
    && (forall i | 0 <= i < |s| :: LowerAlphanumeric(s[i]) || s[i] == '-')
    && (forall i | 0 < i < |s| :: !(s[i-1] == '-' && s[i] == '-'))
  }

  predicate ValidGateway(spec: GatewaySpec) {
    spec.controller != "" && spec.credentialName != "" && ValidPostfix(spec.targetPostfix)
  }

  // ---- reconciliation ----

  /** What one reconciliation makes of the Istio Gateway, given the collected hosts. */
  function IstioAfter(key: Key, spec: GatewaySpec, hosts: seq<string>, existing: Option<IstioGateway>)
    : Option<IstioGateway>
  {
    if hosts == [] then None
    else
      var desired := Generate(key, spec, hosts);
      if existing.Some? && !Differs(existing.value, desired) then existing else Some(desired)
  }

  function Placed(m: map<Key, IstioGateway>, k: Key, g: Option<IstioGateway>): map<Key, IstioGateway> {
    if g.Some? then m[k := g.value] else m - {k}
  }

  method ReconcileIstioGateway(api: Cluster, key: Key, desired: IstioGateway) returns (r: Outcome)
    modifies api`istio, api`faults
    ensures r == Ok || r == Fault
    ensures api.faults == old(api.faults) + (if r == Fault then 1 else 0)
    ensures r == Fault ==> api.istio == old(api.istio)
    ensures r == Ok ==>
      if key in old(api.istio) && !Differs(old(api.istio)[key], desired) then api.istio == old(api.istio)
      else api.istio == old(api.istio)[key := desired]
  {
    if key !in api.istio {
      r := api.CreateIstio(key, desired);
      return;
    }
    var existing := api.istio[key];
    var update := IstioNeedsUpdate(existing, desired);
    if update {
      r := api.PatchIstio(key, existing.(selector := desired.selector, servers := desired.servers,
                                         labels := desired.labels));
      return;
    }
    r := Ok;
  }

  method DeleteIstioGateway(api: Cluster, key: Key) returns (r: Outcome)
    modifies api`istio, api`faults
    ensures r == Ok || r == Fault
    ensures api.faults == old(api.faults) + (if r == Fault then 1 else 0)
    ensures api.istio == if r == Ok then old(api.istio) - {key} else old(api.istio)
  {
    if key !in api.istio { return Ok; }
    r := api.DeleteIstio(key);
  }

  function GatewayStatusWith(phase: Phase, reason: Reason, ip: string): GatewayStatus {
    GatewayStatus(phase, reason, ip, ip != "")
  }

  /** The status a reconciliation writes. The address of the load balancer is shown, hosts or not. */
  function GatewayStatusAfter(g: Gateway, id: Option<Identity>, hosts: seq<string>, ip: string): GatewayStatus {
    if !ValidGateway(g.spec) then g.status.(phase := PhaseFailed, reason := ValidationFailed)
    else if id.None? then GatewayStatusWith(PhasePending, ClusterIdentityNotAvailable, "")
    else if hosts == [] then GatewayStatusWith(PhasePending, NoServiceRoutes, ip)
    else GatewayStatusWith(PhaseActive, ReconciliationSucceeded, ip)
  }

  /** The Istio Gateways afterwards: those of an invalid Gateway, or without an identity, are left alone. */
  function IstioMapAfter(key: Key, g: Gateway, id: Option<Identity>, hosts: seq<string>, m: map<Key, IstioGateway>)
    : map<Key, IstioGateway>
  {
    if !ValidGateway(g.spec) || id.None? then m
    else Placed(m, key, IstioAfter(key, g.spec, hosts, Lookup(m, key)))
  }

  /** Reconciles a Gateway. `id` is what Fetch returned. When a call is refused the status is not written,
      and the Istio Gateway may be as before or as it should be. */
  method Reconcile(api: Cluster, key: Key, id: Option<Identity>, defaultNamespace: string)
    returns (r: Outcome, ghost hosts: seq<string>, ghost balancer: Option<Key>)
    modifies api`istio, api`gateways, api`faults
    ensures r == Ok || r == Fault
    ensures api.faults == old(api.faults) + (if r == Fault then 1 else 0)
    ensures key in old(api.gateways) && ValidGateway(old(api.gateways)[key].spec) && id.Some? ==>
      && NoDuplicates(hosts) && Members(hosts) == HostSet(SpecsOf(api.routes), key, id.value, defaultNamespace)
      && Balancer(api.services, old(api.gateways)[key].spec.controller, balancer)
    ensures if key !in old(api.gateways) then api.istio == old(api.istio) && api.gateways == old(api.gateways)
      else
        var g := old(api.gateways)[key];
        var istio := IstioMapAfter(key, g, id, hosts, old(api.istio));
        if r == Ok then
          && api.istio == istio
          && var status := GatewayStatusAfter(g, id, hosts, Address(api.services, balancer));
             api.gateways == old(api.gateways)[key := g.(status := status)]
        else (api.istio == old(api.istio) || api.istio == istio) && api.gateways == old(api.gateways)
  {
    hosts, balancer := [], None;
    if key !in api.gateways { return Ok, hosts, balancer; }
    var gateway := api.gateways[key];
    if !ValidGateway(gateway.spec) {
      r := api.UpdateGatewayStatus(key, gateway.status.(phase := PhaseFailed, reason := ValidationFailed));
      return;
    }
    if id.None? {
      r := api.UpdateGatewayStatus(key, GatewayStatusWith(PhasePending, ClusterIdentityNotAvailable, ""));
      return;
    }
    var collected := CollectHosts(api, key, id.value, defaultNamespace);
    hosts := collected;
    var service := GetLoadBalancerService(api, gateway.spec.controller);
    balancer := service;
    var ip := Address(api.services, service);
    if |collected| == 0 {
      r := DeleteIstioGateway(api, key);
      if r != Ok { return; }
      r := api.UpdateGatewayStatus(key, GatewayStatusWith(PhasePending, NoServiceRoutes, ip));
      return;
    }
    r := ReconcileIstioGateway(api, key, Generate(key, gateway.spec, collected));
    if r != Ok { return; }
    r := api.UpdateGatewayStatus(key, GatewayStatusWith(PhaseActive, ReconciliationSucceeded, ip));
  }
}
