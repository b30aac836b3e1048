/** The API server of one cluster, as the operator sees it: maps of objects that are read, listed by
    label, created, patched and deleted. Any call that writes may be refused by a fault. */
module ApiServer {
  import opened Objects

  datatype Outcome = Ok | AlreadyExists | NotFound | Fault

  predicate DistinctKeys(items: seq<Named>) {
    forall i, j | 0 <= i < j < |items| :: items[i].key != items[j].key
  }

  class Cluster {
    var routes: map<Key, Route>
    var policies: map<Key, Policy>
    var gateways: map<Key, Gateway>
    var services: map<Key, Service>
    var endpoints: Endpoints
    var istio: map<Key, IstioGateway>
    var writes: nat  // endpoint writes accepted so far
    var faults: nat  // calls refused by a fault so far

    constructor ()
      ensures routes == map[] && policies == map[] && gateways == map[] && services == map[]
      ensures endpoints == map[] && istio == map[] && writes == 0 && faults == 0
    {
      routes, policies, gateways, services := map[], map[], map[], map[];
      endpoints, istio, writes, faults := map[], map[], 0, 0;
    }

    /** Decides whether a call is refused. */
    method Refused() returns (refused: bool)
      modifies this`faults
      ensures faults == old(faults) + (if refused then 1 else 0)
    {
      refused := *;
      if refused { faults := faults + 1; }
    }

    /** Lists, in some order, the endpoints of a namespace that match a selector. */
    method ListEndpoints(ns: string, selector: Labels) returns (r: Outcome, items: seq<Named>)
      modifies this`faults
      ensures r == Ok || r == Fault
      ensures faults == old(faults) + (if r == Fault then 1 else 0)
      ensures r == Ok ==>
        && DistinctKeys(items)
        && (forall n | n in items ::
              n.key.ns == ns && n.key in endpoints && n.body == endpoints[n.key]
              && MatchesLabels(selector, n.body.labels))
        && (forall k | k in endpoints && k.ns == ns && MatchesLabels(selector, endpoints[k].labels) ::
              Named(k, endpoints[k]) in items)
    {
      items := [];
      var refused := Refused();
      if refused { return Fault, []; }
      var todo := endpoints.Keys;
      while todo != {}
        invariant todo <= endpoints.Keys && DistinctKeys(items)
        invariant forall n | n in items ::
            n.key.ns == ns && n.key in endpoints.Keys - todo && n.body == endpoints[n.key]
            && MatchesLabels(selector, n.body.labels)
        invariant forall k | k in endpoints.Keys - todo && k.ns == ns
                             && MatchesLabels(selector, endpoints[k].labels) ::
            Named(k, endpoints[k]) in items
      {
        var k :| k in todo;
        if k.ns == ns && MatchesLabels(selector, endpoints[k].labels) {
          items := items + [Named(k, endpoints[k])];
        }
        todo := todo - {k};
      }
      r := Ok;
    }

    method CreateEndpoint(k: Key, e: Endpoint) returns (r: Outcome)
      modifies this`endpoints, this`writes, this`faults
      ensures r in {Ok, AlreadyExists, Fault}
      ensures r == AlreadyExists ==> k in old(endpoints)
      ensures r == Ok ==> k !in old(endpoints)
      ensures endpoints == if r == Ok then old(endpoints)[k := e] else old(endpoints)
      ensures writes == old(writes) + (if r == Ok then 1 else 0)
      ensures faults == old(faults) + (if r == Fault then 1 else 0)
    {
      var refused := Refused();
      if refused { return Fault; }
      if k in endpoints { return AlreadyExists; }
      endpoints, writes := endpoints[k := e], writes + 1;
      r := Ok;
    }

    method PatchEndpoint(k: Key, e: Endpoint) returns (r: Outcome)
      modifies this`endpoints, this`writes, this`faults
      ensures r in {Ok, NotFound, Fault}
      ensures r == NotFound ==> k !in old(endpoints)
      ensures r == Ok ==> k in old(endpoints)
      ensures endpoints == if r == Ok then old(endpoints)[k := e] else old(endpoints)
      ensures writes == old(writes) + (if r == Ok then 1 else 0)
      ensures faults == old(faults) + (if r == Fault then 1 else 0)
    {
      var refused := Refused();
      if refused { return Fault; }
      if k !in endpoints { return NotFound; }
      endpoints, writes := endpoints[k := e], writes + 1;
      r := Ok;
    }

    method DeleteEndpoint(k: Key) returns (r: Outcome)
      modifies this`endpoints, this`writes, this`faults
      ensures r in {Ok, NotFound, Fault}
      ensures r == NotFound ==> k !in old(endpoints)
      ensures r == Ok ==> k in old(endpoints)
      ensures endpoints == if r == Ok then old(endpoints) - {k} else old(endpoints)
      ensures writes == old(writes) + (if r == Ok then 1 else 0)
      ensures faults == old(faults) + (if r == Fault then 1 else 0)
    {
      var refused := Refused();
      if refused { return Fault; }
      if k !in endpoints { return NotFound; }
      endpoints, writes := endpoints - {k}, writes + 1;
      r := Ok;
    }

    method UpdateRouteStatus(k: Key, status: RouteStatus) returns (r: Outcome)
      requires k in routes
      modifies this`routes, this`faults
      ensures r == Ok || r == Fault
      ensures routes == if r == Ok then old(routes)[k := old(routes)[k].(status := status)] else old(routes)
      ensures faults == old(faults) + (if r == Fault then 1 else 0)
    {
      var refused := Refused();
      if refused { return Fault; }
      routes := routes[k := routes[k].(status := status)];
      r := Ok;
    }

    method UpdatePolicyStatus(k: Key, status: PolicyStatus) returns (r: Outcome)
      requires k in policies
      modifies this`policies, this`faults
      ensures r == Ok || r == Fault
      ensures policies == if r == Ok then old(policies)[k := old(policies)[k].(status := status)] else old(policies)
      ensures faults == old(faults) + (if r == Fault then 1 else 0)
    {
      var refused := Refused();
      if refused { return Fault; }
      policies := policies[k := policies[k].(status := status)];
      r := Ok;
    }

    method UpdateGatewayStatus(k: Key, status: GatewayStatus) returns (r: Outcome)
      requires k in gateways
      modifies this`gateways, this`faults
      ensures r == Ok || r == Fault
      ensures gateways == if r == Ok then old(gateways)[k := old(gateways)[k].(status := status)] else old(gateways)
      ensures faults == old(faults) + (if r == Fault then 1 else 0)
    {
      var refused := Refused();
      if refused { return Fault; }
      gateways := gateways[k := gateways[k].(status := status)];
      r := Ok;
    }

    method CreateIstio(k: Key, g: IstioGateway) returns (r: Outcome)
      modifies this`istio, this`faults
      ensures r in {Ok, AlreadyExists, Fault}
      ensures r == AlreadyExists ==> k in old(istio)
      ensures r == Ok ==> k !in old(istio)
      ensures istio == if r == Ok then old(istio)[k := g] else old(istio)
      ensures faults == old(faults) + (if r == Fault then 1 else 0)
    {
      var refused := Refused();
      if refused { return Fault; }
      if k in istio { return AlreadyExists; }
      istio := istio[k := g];
      r := Ok;
    }

    method PatchIstio(k: Key, g: IstioGateway) returns (r: Outcome)
      modifies this`istio, this`faults
      ensures r in {Ok, NotFound, Fault}
      ensures r == NotFound ==> k !in old(istio)
      ensures istio == if r == Ok then old(istio)[k := g] else old(istio)
      ensures faults == old(faults) + (if r == Fault then 1 else 0)
    {
      var refused := Refused();
      if refused { return Fault; }
      if k !in istio { return NotFound; }
      istio := istio[k := g];
      r := Ok;
    }

    method DeleteIstio(k: Key) returns (r: Outcome)
      modifies this`istio, this`faults
      ensures r in {Ok, NotFound, Fault}
      ensures r == NotFound ==> k !in old(istio)
      ensures istio == if r == Ok then old(istio) - {k} else old(istio)
      ensures faults == old(faults) + (if r == Fault then 1 else 0)
    {
      var refused := Refused();
      if refused { return Fault; }
      if k !in istio { return NotFound; }
      istio := istio - {k};
      r := Ok;
    }
  }
}
