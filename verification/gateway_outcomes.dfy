/** What a reconciliation of a Gateway comes to: its Istio Gateway, the address it shows, and its status. */
module GatewayOutcomes {
  import opened Objects
  import opened GatewayController
  import opened HostNames
  import opened IngressDnsController
  import opened IngressPass
  import opened DnsChain

  /** Written in the pattern of the postfix: lower-case letters and digits in groups joined by hyphens. */
  ghost predicate Complete(spec: GatewaySpec) {
    spec.controller != "" && spec.credentialName != "" && MatchesPattern(spec.targetPostfix)
  }

  /** An incomplete Gateway is failed: its Istio Gateway, and the address it shows, stay as they are. */
  lemma IncompleteGatewayIsLeftAlone(key: Key, g: Gateway, id: Option<Identity>, hosts: seq<string>, ip: string,
                                     m: map<Key, IstioGateway>)
    requires !Complete(g.spec)
    ensures IstioMapAfter(key, g, id, hosts, m) == m
    ensures GatewayStatusAfter(g, id, hosts, ip)
            == GatewayStatus(PhaseFailed, ValidationFailed, g.status.loadBalancerIP, g.status.dnsReady)
  {
    PostfixPattern(g.spec.targetPostfix);
  }

  /** Without an identity it waits: its Istio Gateway stays, and no address is shown. */
  lemma GatewayWithoutIdentityWaits(key: Key, g: Gateway, hosts: seq<string>, ip: string, m: map<Key, IstioGateway>)
    requires Complete(g.spec)
    ensures IstioMapAfter(key, g, None, hosts, m) == m
    ensures GatewayStatusAfter(g, None, hosts, ip)
            == GatewayStatus(PhasePending, ClusterIdentityNotAvailable, "", false)
  {
    PostfixPattern(g.spec.targetPostfix);
  }

  /** When no route names it, its Istio Gateway goes, no other does, and it waits, with its address shown. */
  lemma UnusedGatewayIsRemoved(key: Key, g: Gateway, id: Identity, ip: string, m: map<Key, IstioGateway>)
    requires Complete(g.spec)
    ensures forall k :: Lookup(IstioMapAfter(key, g, Some(id), [], m), k) == if k == key then None else Lookup(m, k)
    ensures GatewayStatusAfter(g, Some(id), [], ip) == GatewayStatus(PhasePending, NoServiceRoutes, ip, ip != "")
  {
    PostfixPattern(g.spec.targetPostfix);
  }

  /** Otherwise it has an Istio Gateway that selects the controller and serves the hosts, whatever was there
      before; what was there is kept if it did so already, with this credential if it says which. */
  lemma UsedGatewayServes(key: Key, g: Gateway, id: Identity, hosts: seq<string>, ip: string,
                          m: map<Key, IstioGateway>)
    requires Complete(g.spec) && hosts != [] && NoDuplicates(hosts)
    ensures var m' := IstioMapAfter(key, g, Some(id), hosts, m);
      && (forall k | k != key :: Lookup(m', k) == Lookup(m, k))
      && key in m' && |m'[key].servers| == 1
      && m'[key].selector == map["istio" := g.spec.controller]
      && multiset(m'[key].servers[0].hosts) == multiset(hosts)
      && Entry(m'[key].labels, "app.kubernetes.io/managed-by") == "service-router-operator"
      && Entry(m'[key].labels, "router.io/gateway") == key.name
      && (m'[key].servers[0].tls.Some? ==> m'[key].servers[0].tls == Some(Tls(true, g.spec.credentialName)))
      && ((key in m && m[key] == m'[key])
          || m'[key].servers[0] == Server(443, hosts, Some(Tls(true, g.spec.credentialName))))
    ensures GatewayStatusAfter(g, Some(id), hosts, ip)
            == GatewayStatus(PhaseActive, ReconciliationSucceeded, ip, ip != "")
  {
    PostfixPattern(g.spec.targetPostfix);
    var m' := IstioMapAfter(key, g, Some(id), hosts, m);
    if m'[key] != Generate(key, g.spec, hosts) {
      NoDifferenceMeans(key, g.spec, hosts, m[key]);
    }
  }

  // ---- the address ----

  /** A load balancer of the controller with this first address. */
  ghost predicate BalancesAt(services: map<Key, Service>, controller: string, ip: string) {
    exists k :: k in services && services[k].istio == Some(controller) && services[k].isLoadBalancer
                && services[k].ingress != [] && services[k].ingress[0] == ip
  }

  /** The address is the first one of a load balancer service that carries the controller's label. There is
      none if no such service exists, or the one that was found has none yet. */
  lemma AddressIsBalancers(services: map<Key, Service>, controller: string, found: Option<Key>)
    requires Balancer(services, controller, found)
    ensures found.None? <==>
            forall k | k in services :: !(services[k].istio == Some(controller) && services[k].isLoadBalancer)
    ensures Address(services, found) != "" ==> BalancesAt(services, controller, Address(services, found))
    ensures Address(services, found) == "" <==>
            found.None? || services[found.value].ingress == [] || services[found.value].ingress[0] == ""
  {
    if Address(services, found) != "" {
      assert found.value in services;
    }
  }

  /** When both controllers are done with a route and its Gateway is reconciled, the route's CNAME leads, in
      every view that has it, to the address the Gateway's status shows, and the status says so. */
  lemma ChainEndsAtStatus(s: Setting, m: Endpoints, key: Key, g: Gateway, hosts: seq<string>, balancer: Option<Key>,
                          k: Key)
    requires Sane(s) && Done(s, m) && k in m && ServiceRoute in m[k].labels && m[k].labels[ServiceRoute] == s.route.name
    requires ManagedBy in m[k].labels && m[k].labels[ManagedBy] == "service-router-operator"
    requires SourceNamespace in m[k].labels && m[k].labels[SourceNamespace] == s.route.ns
    requires g.spec == s.gateway && Complete(g.spec) && Balancer(s.services, g.spec.controller, balancer)
    ensures var status := GatewayStatusAfter(g, Some(s.id), hosts, Address(s.services, balancer));
      && status.dnsReady
      && Reaches(m, Label(m[k].labels, Region), SourceHost(s.spec, s.id), status.loadBalancerIP)
      && BalancesAt(s.services, g.spec.controller, status.loadBalancerIP)
  {
    PostfixPattern(g.spec.targetPostfix);
    BalancersAgree(s, balancer);
    ChainHolds(s, m, balancer, k);
    AddressIsBalancers(s.services, g.spec.controller, balancer);
  }
}
