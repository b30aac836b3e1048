/** The DNSEndpoints a complete reconciliation leaves a route, written out field by field. */
module GeneratedEndpoints {
  import opened Objects
  import opened ApiServer
  import opened EndpointDiff
  import opened ServiceRouteController
  import opened RouteOutcomes

  /** What is needed to write endpoints: a complete route, an active policy that selects some controller, and
      configuration, Gateway and identity. */
  ghost predicate Ready(v: View) {
    && v.route.Some? && v.cfg.Some? && v.gateway.Some? && v.id.Some?
    && (var s := v.route.value;
        s.serviceName != "" && s.gatewayName != "" && s.environment != "" && s.application != "")
    && v.policy.Some? && v.policy.value.active && v.policy.value.controllers != []
  }

  /** The last entry of its name in the configuration, and that name is selected. */
  ghost predicate Counts(v: View, c: ExternalDns)
    requires Ready(v)
  {
    && c.name in v.policy.value.controllers
    && exists i: nat :: LastOfItsName(v.cfg.value, i) && v.cfg.value[i] == c
  }

  ghost predicate LastOfItsName(cfg: Config, i: nat) {
    i < |cfg| && forall j | i < j < |cfg| :: cfg[j].name != cfg[i].name
  }

  /** The CNAME of a route: from the host of the service to the host of its Gateway in this cluster. */
  ghost function CnameOf(v: View): seq<Record>
    requires Ready(v)
  {
    var s, g, id := v.route.value, v.gateway.value, v.id.value;
    [Record(s.serviceName + "-ns-" + id.environmentLetter + "-" + s.environment + "-" + s.application + "." + id.domain,
            CNAME, [id.cluster + "-" + id.region + "-" + g.targetPostfix + "." + id.domain], 0)]
  }

  /** The endpoint of a route for one controller. */
  ghost function EndpointFor(route: Key, v: View, c: ExternalDns, owner: Owner): Endpoint
    requires Ready(v)
  {
    Endpoint(map[ManagedBy := "service-router-operator", Controller := c.name, Region := c.region,
                 ServiceRoute := route.name, SourceNamespace := route.ns],
             Some("external-dns-" + c.region), CnameOf(v), owner)
  }

  // ---- the last entry of a name ----

  lemma {:induction false} LastEntryCounts(cfg: Config, i: nat)
    requires LastOfItsName(cfg, i)
    ensures cfg[i].name in ControllerMap(cfg) && ControllerMap(cfg)[cfg[i].name] == cfg[i]
  {
    if i < |cfg| - 1 {
      LastEntryCounts(cfg[..|cfg|-1], i);
    }
  }

  lemma {:induction false} LastEntry(cfg: Config, name: string) returns (i: nat)
    requires name in ControllerMap(cfg)
    ensures LastOfItsName(cfg, i) && cfg[i].name == name && cfg[i] == ControllerMap(cfg)[name]
  {
    i := |cfg| - 1;
    if cfg[i].name != name {
      i := LastEntry(cfg[..i], name);
    }
  }

  // ---- the desired endpoints ----

  /** What a ready route asks for. */
  lemma WantsExactly(route: Key, v: View, c: ExternalDns)
    requires Ready(v) && Counts(v, c)
    ensures Decide(route, v).Wanted?
    ensures var list, k := Decide(route, v).list, Key(route.ns, route.name + "-" + c.name);
      && NamespacesOf(list) == {route.ns}
      && k in ByKey(list) && ByKey(list)[k] == EndpointFor(route, v, c, RouteOwner(route.name))
  {
    var controllers, active := ControllerMap(v.cfg.value), v.policy.value.controllers;
    var hosts := HostsOf(v.route.value, v.gateway.value, v.id.value);
    var i: nat :| LastOfItsName(v.cfg.value, i) && v.cfg.value[i] == c;
    LastEntryCounts(v.cfg.value, i);
    ControllerMapMeaning(v.cfg.value);
    BuildAllNamespaces(route, controllers, active, hosts);
    KeyNamesController(route, c.name);
    assert c.name in Names(active);
  }

  /** It asks for nothing else. */
  lemma WantsNothingElse(route: Key, v: View, k: Key) returns (c: ExternalDns)
    requires Ready(v) && Decide(route, v).Wanted? && k in ByKey(Decide(route, v).list)
    ensures Counts(v, c) && k == Key(route.ns, route.name + "-" + c.name)
  {
    var controllers, active := ControllerMap(v.cfg.value), v.policy.value.controllers;
    ControllerMapMeaning(v.cfg.value);
    BuildAllNamespaces(route, controllers, active, HostsOf(v.route.value, v.gateway.value, v.id.value));
    var n :| n in Names(active) && n in controllers && k == EndpointKey(route, n);
    var i := LastEntry(v.cfg.value, n);
    c := v.cfg.value[i];
  }

  // ---- after a completed reconciliation ----

  /** Each selected controller that is configured has its endpoint: a new one, the one that was there if its
      record was right already, or that one with everything but its owner replaced. */
  lemma ReadyRouteHasEndpoints(route: Key, v: View, m: Endpoints, trace: seq<Endpoints>,
                               before: map<Key, Route>, after: map<Key, Route>, c: ExternalDns)
    requires Promised(route, v, m, true, Ok, trace, before, after) && Ready(v) && Counts(v, c)
    ensures var m', k := trace[|trace|-1], Key(route.ns, route.name + "-" + c.name);
      && k in m' && IsOwn(route, k, m'[k]) && m'[k].spec == CnameOf(v)
      && m'[k] == if k !in m then EndpointFor(route, v, c, RouteOwner(route.name))
                  else if m[k].spec == CnameOf(v) then m[k]
                  else EndpointFor(route, v, c, m[k].owner)
  {
    WantsExactly(route, v, c);
  }

  /** No other endpoint of the route is left, if some selected controller is configured; and what is none of
      the route's is as before. */
  lemma ReadyRouteHasNoOthers(route: Key, v: View, m: Endpoints, trace: seq<Endpoints>,
                              before: map<Key, Route>, after: map<Key, Route>, c: ExternalDns, k: Key)
    returns (d: ExternalDns)
    requires Promised(route, v, m, true, Ok, trace, before, after) && Ready(v) && Counts(v, c)
    requires k in trace[|trace|-1]
    ensures var m' := trace[|trace|-1];
      if IsOwn(route, k, m'[k]) then Counts(v, d) && k == Key(route.ns, route.name + "-" + d.name)
      else k in m && m'[k] == m[k]
  {
    d := c;
    WantsExactly(route, v, c);
    WantedIsLabelled(route, v);
    var list := Decide(route, v).list;
    if k in ByKey(list) {
      d := WantsNothingElse(route, v, k);
    }
  }

  // ---- the first endpoint, or none ----

  /** The first selected name that is configured. */
  ghost predicate FirstConfigured(cfg: Config, active: seq<string>, i: nat) {
    && i < |active| && (exists c :: c in cfg && c.name == active[i])
    && forall j | 0 <= j < i :: forall c | c in cfg :: c.name != active[j]
  }

  lemma {:induction false} FirstBuilt(route: Key, cfg: Config, active: seq<string>, hosts: Hosts, i: nat)
    requires FirstConfigured(cfg, active, i)
    ensures var list := BuildAll(route, ControllerMap(cfg), active, hosts);
      list != [] && list[0].key.name == route.name + "-" + active[i]
  {
    ControllerMapMeaning(cfg);
    var init := active[..|active|-1];
    if i < |init| {
      FirstBuilt(route, cfg, init, hosts, i);
    } else {
      NoneBuilt(route, cfg, init, hosts);
    }
  }

  lemma {:induction false} NoneBuilt(route: Key, cfg: Config, active: seq<string>, hosts: Hosts)
    requires forall c | c in cfg :: c.name !in active
    ensures BuildAll(route, ControllerMap(cfg), active, hosts) == []
  {
    if active != [] {
      ControllerMapMeaning(cfg);
      NoneBuilt(route, cfg, active[..|active|-1], hosts);
    }
  }

  /** When no selected controller is configured, nothing at all changes, although the route is active. */
  lemma NothingConfiguredChangesNothing(route: Key, v: View, m: Endpoints, trace: seq<Endpoints>,
                                        before: map<Key, Route>, after: map<Key, Route>)
    requires Promised(route, v, m, true, Ok, trace, before, after) && Ready(v)
    requires forall c | c in v.cfg.value :: c.name !in v.policy.value.controllers
    ensures trace[|trace|-1] == m
  {
    NoneBuilt(route, v.cfg.value, v.policy.value.controllers,
              HostsOf(v.route.value, v.gateway.value, v.id.value));
    assert Decide(route, v) == Wanted([]);
    NothingWanted(route, m);
  }

  lemma NothingWanted(route: Key, m: Endpoints)
    ensures Effect(route, Wanted([]), m) == m
  {}

  /** The status names the endpoint of the first selected controller that is configured. */
  lemma StatusNamesFirstEndpoint(route: Key, v: View, m: Endpoints, trace: seq<Endpoints>,
                                 before: map<Key, Route>, after: map<Key, Route>, i: nat)
    requires Promised(route, v, m, true, Ok, trace, before, after) && Ready(v) && route in before
    requires FirstConfigured(v.cfg.value, v.policy.value.controllers, i)
    ensures after == before[route := Route(before[route].spec,
                                           RouteStatus(PhaseActive, ReconciliationSucceeded,
                                                       route.name + "-" + v.policy.value.controllers[i]))]
  {
    FirstBuilt(route, v.cfg.value, v.policy.value.controllers,
               HostsOf(v.route.value, v.gateway.value, v.id.value), i);
  }
}
