/** The two controllers that read routes side by side, with one identity and one configuration: the hosts of
    an Istio Gateway are those of the CNAMEs that announce its routes. */
module ServedHosts {
  import opened Objects
  import opened EndpointDiff
  import opened ServiceRouteController
  import opened RoutingRuns
  import opened RouteQueue
  import opened GeneratedEndpoints
  import Gateways = GatewayController
  import GatewayRuns

  /** What both controllers work on, with the queue of each. */
  datatype Joint = Joint(routing: State, routeQueue: set<Key>, istio: map<Key, IstioGateway>, gatewayQueue: set<Key>)

  datatype Change = OfRouting(e: Event) | OfGateways(g: GatewayRuns.Event)

  function GatewaySide(s: Joint): GatewayRuns.State {
    GatewayRuns.State(s.routing.gateways, s.routing.routes, s.istio, s.gatewayQueue)
  }

  /** An edit, as the Gateway controller learns of it. */
  function Seen(e: Event): Option<GatewayRuns.Event> {
    match e
    case EditRoute(k, spec) => Some(GatewayRuns.EditRoute(k, spec))
    case EditGateway(k, spec) => Some(GatewayRuns.EditGateway(k, spec))
    case _ => None
  }

  function Around(at: Fixed): GatewayRuns.Surroundings
    requires at.id.Some?
  {
    GatewayRuns.Surroundings(at.id.value, at.defaultNamespace)
  }

  ghost predicate JointStep(s: Joint, c: Change, s': Joint, at: Fixed)
    requires at.id.Some?
  {
    match c
    case OfRouting(e) =>
      && QueueStep(s.routing, s.routeQueue, e, s'.routing, s'.routeQueue, at.defaultNamespace) && FetchesFixed(e, at)
      && if Seen(e).Some? then GatewaySide(s') == GatewayRuns.Next(GatewaySide(s), Seen(e).value, Around(at))
         else s'.istio == s.istio && s'.gatewayQueue == s.gatewayQueue
    case OfGateways(g) =>
      && (g.CollectGarbage? || g.Resync? || g.Reconcile?)
      && GatewayRuns.Enabled(GatewaySide(s), g, Around(at))
      && GatewaySide(s') == GatewayRuns.Next(GatewaySide(s), g, Around(at))
      && s'.routing == s.routing && s'.routeQueue == s.routeQueue
  }

  ghost predicate IsJointHistory(states: seq<Joint>, changes: seq<Change>, at: Fixed) {
    && at.id.Some? && |states| == |changes| + 1
    && IsQueueStart(states[0].routing, states[0].routeQueue) && GatewayRuns.IsIndexStart(GatewaySide(states[0]))
    && (forall i | 0 <= i < |changes| :: JointStep(states[i], changes[i], states[i+1], at))
    && (forall i | 0 <= i <= |changes| :: OnePolicyEach(states[i].routing.policies))
  }

  // ---- both invariants ----

  ghost predicate JointInvariant(s: Joint, at: Fixed)
    requires at.id.Some?
  {
    QueueInvariant(s.routing, s.routeQueue, at) && GatewayRuns.IndexInvariant(GatewaySide(s), Around(at))
  }

  lemma RoutingSideStep(s: Joint, c: Change, s': Joint, at: Fixed)
    requires at.id.Some? && JointStep(s, c, s', at) && QueueInvariant(s.routing, s.routeQueue, at)
    requires OnePolicyEach(s.routing.policies)
    ensures QueueInvariant(s'.routing, s'.routeQueue, at)
  {
    if c.OfRouting? {
      NextKeepsInvariant(s.routing, c.e, s'.routing, at.defaultNamespace);
      forall k | k !in s'.routeQueue ensures Idle(s'.routing, k, at) {
        StepKeepsIdle(s.routing, s.routeQueue, c.e, s'.routing, s'.routeQueue, k, at);
      }
    }
  }

  lemma GatewaySideStep(s: Joint, c: Change, s': Joint, at: Fixed)
    requires at.id.Some? && JointStep(s, c, s', at) && GatewayRuns.IndexInvariant(GatewaySide(s), Around(at))
    ensures GatewayRuns.IndexInvariant(GatewaySide(s'), Around(at))
  {
    if c.OfGateways? {
      GatewayRuns.NextKeepsInv(GatewaySide(s), c.g, Around(at));
    } else if Seen(c.e).Some? {
      GatewayRuns.NextKeepsInv(GatewaySide(s), Seen(c.e).value, Around(at));
    } else {
      assert GatewaySide(s') == GatewaySide(s);
    }
  }

  lemma {:induction false} InvariantAlong(states: seq<Joint>, changes: seq<Change>, at: Fixed, i: nat)
    requires IsJointHistory(states, changes, at) && i <= |changes|
    ensures JointInvariant(states[i], at)
  {
    if i == 0 {
      StartIsIdle(states[0].routing, states[0].routeQueue, at);
    } else {
      InvariantAlong(states, changes, at, i - 1);
      RoutingSideStep(states[i-1], changes[i-1], states[i], at);
      GatewaySideStep(states[i-1], changes[i-1], states[i], at);
    }
  }

  // ---- what an Istio Gateway serves ----

  /** The route names the Gateway, by default in the default namespace. */
  predicate NamesGateway(spec: RouteSpec, g: Key, defaultNamespace: string) {
    && spec.gatewayName == g.name
    && (if spec.gatewayNamespace == "" then defaultNamespace else spec.gatewayNamespace) == g.ns
  }

  /** The Gateway is valid, and the controller has nothing queued for it. */
  predicate GatewayDone(s: Joint, g: Key) {
    g in s.routing.gateways && Gateways.ValidGateway(s.routing.gateways[g]) && g !in s.gatewayQueue
  }

  /** The Istio Gateway of a Gateway, field by field. */
  ghost predicate Serving(istio: IstioGateway, g: Key, spec: GatewaySpec) {
    && istio.labels == map["app.kubernetes.io/managed-by" := "service-router-operator", "router.io/gateway" := g.name]
    && istio.selector == map["istio" := spec.controller]
    && |istio.servers| == 1 && istio.servers[0].port == 443
    && istio.servers[0].tls == Some(Tls(true, spec.credentialName))
    && Gateways.NoDuplicates(istio.servers[0].hosts)
  }

  /** At every moment a Gateway without pending work has an Istio Gateway exactly when some route names it. It
      selects the controller, terminates TLS with the credential, and serves exactly the hosts of those
      routes, each once. */
  lemma IstioServesRoutes(states: seq<Joint>, changes: seq<Change>, at: Fixed, i: nat, g: Key)
    requires IsJointHistory(states, changes, at) && i <= |changes| && GatewayDone(states[i], g)
    ensures var s := states[i];
      && (g in s.istio <==>
            exists k :: k in s.routing.routes && NamesGateway(s.routing.routes[k], g, at.defaultNamespace))
      && (g in s.istio ==>
            && Serving(s.istio[g], g, s.routing.gateways[g])
            && forall h :: h in s.istio[g].servers[0].hosts <==>
                 exists k :: k in s.routing.routes && NamesGateway(s.routing.routes[k], g, at.defaultNamespace)
                             && SourceHost(s.routing.routes[k], at.id.value) == h)
  {
    InvariantAlong(states, changes, at, i);
    assert GatewayRuns.Indexed(GatewaySide(states[i]), g, Around(at));
    IndexedServes(states[i], g, at);
  }

  lemma IndexedServes(s: Joint, g: Key, at: Fixed)
    requires at.id.Some? && g in s.routing.gateways && GatewayRuns.Indexed(GatewaySide(s), g, Around(at))
    ensures g in s.istio <==>
            exists k :: k in s.routing.routes && NamesGateway(s.routing.routes[k], g, at.defaultNamespace)
    ensures g in s.istio ==>
              && Serving(s.istio[g], g, s.routing.gateways[g])
              && forall h :: h in s.istio[g].servers[0].hosts <==>
                   exists k :: k in s.routing.routes && NamesGateway(s.routing.routes[k], g, at.defaultNamespace)
                               && SourceHost(s.routing.routes[k], at.id.value) == h
  {
    var routes, hosts := s.routing.routes, GatewayRuns.RecomputedHosts(GatewaySide(s), g, Around(at));
    forall k | k in routes && NamesGateway(routes[k], g, at.defaultNamespace)
      ensures SourceHost(routes[k], at.id.value) in hosts
    {}
    forall h | h in hosts
      ensures exists k :: k in routes && NamesGateway(routes[k], g, at.defaultNamespace)
                          && SourceHost(routes[k], at.id.value) == h
    {}
    if g in s.istio {
      var list: seq<string> :| Gateways.NoDuplicates(list) && Gateways.Members(list) == hosts
                               && s.istio[g] == Gateways.Generate(g, s.routing.gateways[g], list);
      assert forall h :: h in list <==> h in Gateways.Members(list);
    }
  }

  // ---- what the CNAMEs announce ----

  /** Reconciling the route writes or withdraws its endpoints: it is complete, there is a policy, and if that is
      active it selects a configured controller. */
  ghost predicate Settles(spec: RouteSpec, first: Option<Selection>, cfg: Option<Config>) {
    && spec.serviceName != "" && spec.gatewayName != "" && spec.environment != "" && spec.application != ""
    && first.Some?
    && (first.value.active ==> cfg.Some? && exists c :: c in cfg.value && c.name in first.value.controllers)
  }

  /** Each endpoint of the route is one CNAME, whose name the Istio Gateway serves. */
  ghost predicate Served(s: Joint, k: Key, g: Key) {
    forall j | j in s.routing.endpoints && BelongsTo(k, s.routing.endpoints[j].labels) ::
      var records := s.routing.endpoints[j].spec;
      && |records| == 1 && records[0].recordType == CNAME
      && g in s.istio && |s.istio[g].servers| == 1 && records[0].dnsName in s.istio[g].servers[0].hosts
  }

  /** Neither the route nor the Gateway it names is queued. */
  ghost predicate BothDone(s: Joint, k: Key, spec: RouteSpec, g: Key, first: Option<Selection>, at: Fixed) {
    && GatewayDone(s, g) && k !in s.routeQueue
    && Lookup(s.routing.routes, k) == Some(spec) && NamesGateway(spec, g, at.defaultNamespace)
    && FirstPolicy(s.routing.policies, k.ns, first)
  }

  lemma WithdrawnIsEmpty(k: Key, m: Endpoints)
    requires Finished(k, Withdrawn, m) && AllWellFormed(m)
    ensures NoEndpoints(k, m)
  {
    assert Stale(OwnScope(k), map[], m) == {};
    forall j | j in m ensures !BelongsTo(k, m[j].labels) {
      assert RouteEndpoint(m[j]) ==> WellFormed(j, m[j]);
      assert j in Stale(OwnScope(k), map[], m) <==> j.ns == k.ns && BelongsTo(k, m[j].labels);
    }
  }

  /** The endpoints of an unqueued route that settles have its host and the target of its Gateway. */
  lemma UnqueuedCnames(s: State, k: Key, spec: RouteSpec, gateway: GatewaySpec, first: Option<Selection>, at: Fixed,
                       j: Key)
    requires at.id.Some? && Idle(s, k, at) && FirstPolicy(s.policies, k.ns, first) && AllWellFormed(s.endpoints)
    requires Lookup(s.routes, k) == Some(spec) && Settles(spec, first, at.cfg)
    requires Lookup(s.gateways, GatewayKey(spec, at.defaultNamespace)) == Some(gateway)
    requires j in s.endpoints && BelongsTo(k, s.endpoints[j].labels)
    ensures s.endpoints[j].spec
            == [Record(SourceHost(spec, at.id.value), CNAME, [TargetHost(at.id.value, gateway.targetPostfix)], 0)]
  {
    var d := DecisionFor(s, k, first, at);
    assert Finished(k, d, s.endpoints);
    assert WellFormed(j, s.endpoints[j]);
    if !first.value.active {
      WithdrawnIsEmpty(k, s.endpoints);
    } else {
      var controllers, active := ControllerMap(at.cfg.value), first.value.controllers;
      var hosts := HostsOf(spec, gateway, at.id.value);
      ControllerMapMeaning(at.cfg.value);
      BuildAllNamespaces(k, controllers, active, hosts);
      var list := BuildAll(k, controllers, active, hosts);
      assert d == Wanted(list);
      assert SomeConfigured(controllers, active);
      assert j !in Stale(Scope(k, NamespacesOf(list)), ByKey(list), s.endpoints);
      assert j !in Missing(Scope(k, NamespacesOf(list)), ByKey(list), s.endpoints);
    }
  }

  /** Once neither is queued, every CNAME of a route that settles has its name among the hosts of the Istio
      Gateway of the Gateway the route names. */
  lemma CnamesAreServed(states: seq<Joint>, changes: seq<Change>, at: Fixed, i: nat, k: Key, spec: RouteSpec, g: Key,
                        first: Option<Selection>)
    requires IsJointHistory(states, changes, at) && i <= |changes|
    requires BothDone(states[i], k, spec, g, first, at) && Settles(spec, first, at.cfg)
    ensures Served(states[i], k, g)
  {
    var s := states[i];
    InvariantAlong(states, changes, at, i);
    IstioServesRoutes(states, changes, at, i, g);
    forall j | j in s.routing.endpoints && BelongsTo(k, s.routing.endpoints[j].labels)
      ensures s.routing.endpoints[j].spec
              == [Record(SourceHost(spec, at.id.value), CNAME,
                         [TargetHost(at.id.value, s.routing.gateways[g].targetPostfix)], 0)]
    {
      assert Idle(s.routing, k, at);
      UnqueuedCnames(s.routing, k, spec, s.routing.gateways[g], first, at, j);
    }
  }

  /** And each selected controller that is configured has a CNAME of the route, for a host that the Istio
      Gateway serves. */
  lemma HostIsAnnounced(states: seq<Joint>, changes: seq<Change>, at: Fixed, i: nat, k: Key, spec: RouteSpec, g: Key,
                        first: Option<Selection>, c: ExternalDns)
    requires IsJointHistory(states, changes, at) && i <= |changes|
    requires BothDone(states[i], k, spec, g, first, at) && Settles(spec, first, at.cfg)
    requires first.value.active && c in at.cfg.value && c.name in first.value.controllers
    ensures var m, j := states[i].routing.endpoints, Key(k.ns, k.name + "-" + c.name);
      && j in m && m[j].spec == [Record(SourceHost(spec, at.id.value), CNAME,
                                        [TargetHost(at.id.value, states[i].routing.gateways[g].targetPostfix)], 0)]
      && g in states[i].istio && |states[i].istio[g].servers| == 1
      && SourceHost(spec, at.id.value) in states[i].istio[g].servers[0].hosts
  {
    var s := states[i];
    InvariantAlong(states, changes, at, i);
    CnamesAreServed(states, changes, at, i, k, spec, g, first);
    assert Idle(s.routing, k, at);
    AnnouncesEach(s.routing, k, spec, s.routing.gateways[g], first, at, c);
    UnqueuedCnames(s.routing, k, spec, s.routing.gateways[g], first, at, EndpointKey(k, c.name));
  }

  lemma AnnouncesEach(s: State, k: Key, spec: RouteSpec, gateway: GatewaySpec, first: Option<Selection>, at: Fixed,
                      c: ExternalDns)
    requires at.id.Some? && Idle(s, k, at) && FirstPolicy(s.policies, k.ns, first)
    requires Lookup(s.routes, k) == Some(spec) && Settles(spec, first, at.cfg) && first.value.active
    requires Lookup(s.gateways, GatewayKey(spec, at.defaultNamespace)) == Some(gateway)
    requires c in at.cfg.value && c.name in first.value.controllers
    ensures var j := EndpointKey(k, c.name); j in s.endpoints && BelongsTo(k, s.endpoints[j].labels)
  {
    var controllers, active := ControllerMap(at.cfg.value), first.value.controllers;
    ControllerMapMeaning(at.cfg.value);
    BuildAllNamespaces(k, controllers, active, HostsOf(spec, gateway, at.id.value));
    var list := BuildAll(k, controllers, active, HostsOf(spec, gateway, at.id.value));
    assert DecisionFor(s, k, first, at) == Wanted(list);
    assert c.name in Names(active) && EndpointKey(k, c.name) in ByKey(list);
    assert EndpointKey(k, c.name) !in Missing(Scope(k, NamespacesOf(list)), ByKey(list), s.endpoints);
  }

  // ---- a route that does not settle ----

  /** Whatever the run, once neither is queued the CNAMEs of the route are served. */
  ghost predicate AlwaysServed(k: Key, spec: RouteSpec, gateway: GatewaySpec, first: Option<Selection>, at: Fixed) {
    var g := GatewayKey(spec, at.defaultNamespace);
    forall states: seq<Joint>, changes: seq<Change>, i: nat |
      IsJointHistory(states, changes, at) && i <= |changes| && BothDone(states[i], k, spec, g, first, at)
      && states[i].routing.gateways[g] == gateway :: Served(states[i], k, g)
  }

  /** The CNAMEs of a route are sure to be served exactly when it settles: while it waits or is failed, and
      when no selected controller is configured, it keeps what it had. */
  lemma ServedExactly(k: Key, spec: RouteSpec, gateway: GatewaySpec, first: Option<Selection>, at: Fixed)
    requires at.id.Some? && Gateways.ValidGateway(gateway)
    requires first.Some? && !first.value.active ==> first.value.controllers == []
    ensures AlwaysServed(k, spec, gateway, first, at) <==> Settles(spec, first, at.cfg)
  {
    var g := GatewayKey(spec, at.defaultNamespace);
    if Settles(spec, first, at.cfg) {
      forall states: seq<Joint>, changes: seq<Change>, i: nat |
        IsJointHistory(states, changes, at) && i <= |changes| && BothDone(states[i], k, spec, g, first, at)
        && states[i].routing.gateways[g] == gateway
        ensures Served(states[i], k, g)
      {
        CnamesAreServed(states, changes, at, i, k, spec, g, first);
      }
    } else {
      var states, changes := KeptHistory(k, spec, gateway, first, at);
      OldStateStarts(k, spec, gateway, first, at);
      NotServed(states[2], k, spec, gateway, first, at);
      assert states[2].routing.gateways[g] == gateway;
    }
  }

  function PoliciesWith(ns: string, first: Option<Selection>): map<Key, Policy> {
    match first
    case None => map[]
    case Some(s) => map[Key(ns, "p") := Policy(PolicySpec("Active", "", ""), PolicyStatus(NoPhase, s, NoReason))]
  }

  /** A well-formed endpoint of the route with another host. */
  function OldEndpoint(k: Key, host: string): Endpoint {
    Endpoint(RouteLabels(k, ExternalDns("x", "r")), Some("external-dns-" + "r"), [Record(host, CNAME, [""], 0)],
             RouteOwner(k.name))
  }

  function OldState(k: Key, spec: RouteSpec, gateway: GatewaySpec, first: Option<Selection>, at: Fixed): State
    requires at.id.Some?
  {
    State(PoliciesWith(k.ns, first), map[k := spec], map[GatewayKey(spec, at.defaultNamespace) := gateway],
          map[EndpointKey(k, "x") := OldEndpoint(k, SourceHost(spec, at.id.value) + "x")])
  }

  lemma OldStateStarts(k: Key, spec: RouteSpec, gateway: GatewaySpec, first: Option<Selection>, at: Fixed)
    requires at.id.Some? && (first.Some? && !first.value.active ==> first.value.controllers == [])
    ensures var s := OldState(k, spec, gateway, first, at);
      IsQueueStart(s, {k}) && OnePolicyEach(s.policies) && FirstPolicy(s.policies, k.ns, first)
  {
    var s := OldState(k, spec, gateway, first, at);
    assert WellFormed(EndpointKey(k, "x"), s.endpoints[EndpointKey(k, "x")]);
    if first.Some? {
      assert Key(k.ns, "p") in s.policies;
    }
  }

  /** The decision for a route that does not settle is carried out without a write. */
  lemma UnsettledDecision(k: Key, v: View, m: Endpoints)
    requires v.route.Some? && v.gateway.Some? && v.id.Some? && !Settles(v.route.value, v.policy, v.cfg)
    ensures var d := Decide(k, v); RunOf(k, d, [m]) && Effect(k, d, m) == m && !Blocked(k, d, m)
  {
    var d := Decide(k, v);
    if d.Wanted? {
      NoneBuilt(k, v.cfg.value, v.policy.value.controllers, HostsOf(v.route.value, v.gateway.value, v.id.value));
      NothingWanted(k, m);
    }
  }

  /** So reconciling it completes at once. */
  lemma UnsettledStep(k: Key, spec: RouteSpec, gateway: GatewaySpec, first: Option<Selection>, at: Fixed)
    returns (e: Event)
    requires at.id.Some? && !Settles(spec, first, at.cfg)
    requires first.Some? && !first.value.active ==> first.value.controllers == []
    ensures var s := OldState(k, spec, gateway, first, at);
      QueueStep(s, {k}, e, s, {}, at.defaultNamespace) && FetchesFixed(e, at) && e.ReconcileRoute?
  {
    hide Settles, QueueStep, Effect, RunOf, Blocked;
    var s := OldState(k, spec, gateway, first, at);
    OldStateStarts(k, spec, gateway, first, at);
    var v := ViewIn(s, k, first, at.id, at.cfg, at.defaultNamespace);
    assert v == View(Some(spec), first, at.cfg, Some(gateway), at.id);
    UnsettledDecision(k, v, s.endpoints);
    e := WritelessStep(s, k, first, at);
  }

  lemma WritelessStep(s: State, k: Key, first: Option<Selection>, at: Fixed) returns (e: Event)
    requires FirstPolicy(s.policies, k.ns, first)
    requires var d := Decide(k, ViewIn(s, k, first, at.id, at.cfg, at.defaultNamespace));
      RunOf(k, d, [s.endpoints]) && Effect(k, d, s.endpoints) == s.endpoints && !Blocked(k, d, s.endpoints)
    ensures QueueStep(s, {k}, e, s, {}, at.defaultNamespace) && FetchesFixed(e, at) && e.ReconcileRoute?
  {
    e := ReconcileRoute(k, at.id, at.cfg, first, [s.endpoints], true);
  }

  lemma KeptHistory(k: Key, spec: RouteSpec, gateway: GatewaySpec, first: Option<Selection>, at: Fixed)
    returns (states: seq<Joint>, changes: seq<Change>)
    requires at.id.Some? && Gateways.ValidGateway(gateway) && !Settles(spec, first, at.cfg)
    requires first.Some? && !first.value.active ==> first.value.controllers == []
    ensures IsJointHistory(states, changes, at) && |changes| == 2
    ensures var g := GatewayKey(spec, at.defaultNamespace);
      states[2] == Joint(OldState(k, spec, gateway, first, at), {},
                         map[g := Gateways.Generate(g, gateway, [SourceHost(spec, at.id.value)])], {})
  {
    hide IsJointHistory;
    var g, host := GatewayKey(spec, at.defaultNamespace), SourceHost(spec, at.id.value);
    var s := OldState(k, spec, gateway, first, at);
    var istio := map[g := Gateways.Generate(g, gateway, [host])];
    var e := UnsettledStep(k, spec, gateway, first, at);
    states := [Joint(s, {k}, map[], {g}), Joint(s, {k}, istio, {}), Joint(s, {}, istio, {})];
    changes := [OfGateways(GatewayRuns.Reconcile(g, [host], true, true)), OfRouting(e)];
    OldStateStarts(k, spec, gateway, first, at);
    WritesOneHost(states[0], states[1], k, spec, gateway, at);
    TwoSteps(states, changes, at);
  }

  lemma TwoSteps(states: seq<Joint>, changes: seq<Change>, at: Fixed)
    requires at.id.Some? && |states| == 3 && |changes| == 2
    requires IsQueueStart(states[0].routing, states[0].routeQueue) && GatewayRuns.IsIndexStart(GatewaySide(states[0]))
    requires JointStep(states[0], changes[0], states[1], at) && JointStep(states[1], changes[1], states[2], at)
    requires OnePolicyEach(states[0].routing.policies)
    requires states[2].routing.policies == states[1].routing.policies == states[0].routing.policies
    ensures IsJointHistory(states, changes, at)
  {}

  lemma NotServed(s: Joint, k: Key, spec: RouteSpec, gateway: GatewaySpec, first: Option<Selection>, at: Fixed)
    requires at.id.Some? && Gateways.ValidGateway(gateway) && s.routing == OldState(k, spec, gateway, first, at)
    requires FirstPolicy(s.routing.policies, k.ns, first) && s.routeQueue == {} && s.gatewayQueue == {}
    requires var g := GatewayKey(spec, at.defaultNamespace);
      s.istio == map[g := Gateways.Generate(g, gateway, [SourceHost(spec, at.id.value)])]
    ensures var g := GatewayKey(spec, at.defaultNamespace);
      BothDone(s, k, spec, g, first, at) && !Served(s, k, g)
  {
    var host, m := SourceHost(spec, at.id.value), s.routing.endpoints;
    assert |host + "x"| == |host| + 1;
    assert EndpointKey(k, "x") in m && BelongsTo(k, m[EndpointKey(k, "x")].labels);
  }

  lemma WritesOneHost(s: Joint, s': Joint, k: Key, spec: RouteSpec, gateway: GatewaySpec, at: Fixed)
    requires at.id.Some? && Gateways.ValidGateway(gateway)
    requires s.routing.routes == map[k := spec] && s.istio == map[]
    requires s.routing.gateways == map[GatewayKey(spec, at.defaultNamespace) := gateway]
    requires s.gatewayQueue == {GatewayKey(spec, at.defaultNamespace)}
    requires var g := GatewayKey(spec, at.defaultNamespace);
      s' == s.(istio := map[g := Gateways.Generate(g, gateway, [SourceHost(spec, at.id.value)])], gatewayQueue := {})
    ensures var g := GatewayKey(spec, at.defaultNamespace);
      JointStep(s, OfGateways(GatewayRuns.Reconcile(g, [SourceHost(spec, at.id.value)], true, true)), s', at)
  {
    var g, host := GatewayKey(spec, at.defaultNamespace), SourceHost(spec, at.id.value);
    assert k in s.routing.routes;
    assert Gateways.Members([host]) == {host} == GatewayRuns.RecomputedHosts(GatewaySide(s), g, Around(at));
  }
}
