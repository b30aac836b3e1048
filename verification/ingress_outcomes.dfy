/** What passes of the IngressDNS controller come to, in terms of the Gateways and Services that were there:
    why an endpoint is removed or written, and what is left of a Gateway that is being deleted. */
module IngressOutcomes {
  import opened Objects
  import opened EndpointDiff
  import opened ServiceRouteController
  import Gateways = GatewayController
  import opened IngressDnsController
  import opened IngressPass
  import Routing = RoutingRuns

  // ---- Gateways, Services and labels ----

  /** A Gateway with this controller and postfix that is not being deleted. */
  ghost predicate LiveGatewayOf(gateways: map<Key, Gateway>, controller: string, postfix: string) {
    exists g :: g in gateways && !gateways[g].deleting
                && gateways[g].spec.controller == controller && gateways[g].spec.targetPostfix == postfix
  }

  /** Some Service of the namespace has the istio label. */
  ghost predicate IsScanned(services: map<Key, Service>, ns: string) {
    exists k :: k in services && k.ns == ns && services[k].istio != None
  }

  /** The endpoint carries the labels of a Gateway record. */
  ghost predicate RecordOf(e: Endpoint, controller: string, postfix: string) {
    && ResourceType in e.labels && e.labels[ResourceType] == "gateway-service"
    && Label(e.labels, IstioController) == controller && Label(e.labels, TargetPostfix) == postfix
  }

  /** A Gateway record in a scanned namespace whose labels are those of no live Gateway. */
  ghost predicate LeftOver(k: Key, e: Endpoint, gateways: map<Key, Gateway>, services: map<Key, Service>) {
    && IsScanned(services, k.ns)
    && ResourceType in e.labels && e.labels[ResourceType] == "gateway-service"
    && !LiveGatewayOf(gateways, Label(e.labels, IstioController), Label(e.labels, TargetPostfix))
  }

  /** A load balancer Service of the controller with an address. */
  ghost predicate Balances(services: map<Key, Service>, k: Key, controller: string) {
    && k in services && services[k].istio == Some(controller) && services[k].isLoadBalancer
    && services[k].ingress != [] && services[k].ingress[0] != ""
  }

  /** Name, labels and record are those a live Gateway with this controller and postfix asks for. */
  ghost predicate IsRecord(n: Named, controller: string, postfix: string, service: Key, ext: ExternalDns,
                           services: map<Key, Service>, id: Identity)
    requires Balances(services, service, controller)
  {
    && n.key == Key(service.ns, "gateway-controller-" + controller + "-" + postfix + "-" + ext.name)
    && n.body.labels == map[IstioController := controller, TargetPostfix := postfix, Region := ext.region,
                            ResourceType := "gateway-service", ManagedBy := "service-router-operator"]
    && n.body.spec == [Record(id.cluster + "-" + id.region + "-" + postfix + "." + id.domain, A,
                              [services[service].ingress[0]], 300)]
    && n.body.annotation == None && n.body.owner == ServiceOwner(service.name)
  }

  /** Some live Gateway, a load balancer of its controller and a configured ExternalDNS controller ask for it. */
  ghost predicate AskedFor(n: Named, gateways: map<Key, Gateway>, services: map<Key, Service>, id: Identity,
                           cfg: Config)
  {
    exists controller, postfix, service: Key, ext: ExternalDns ::
      && LiveGatewayOf(gateways, controller, postfix) && Balances(services, service, controller) && ext in cfg
      && IsRecord(n, controller, postfix, service, ext, services, id)
  }

  // ---- the definitions of the pass, in these terms ----

  lemma ActiveMeaning(gateways: map<Key, Gateway>, c: GatewayConfig)
    ensures c in ActiveConfigs(gateways) <==> LiveGatewayOf(gateways, c.controller, c.postfix)
  {}

  lemma OrphanMeaning(k: Key, e: Endpoint, gateways: map<Key, Gateway>, services: map<Key, Service>)
    ensures Orphan(k, e, ScannedNamespaces(services), ActiveConfigs(gateways)) <==> LeftOver(k, e, gateways, services)
  {
    ActiveMeaning(gateways, LabelledConfig(e));
  }

  lemma RecordsForMeaning(c: GatewayConfig, gateways: map<Key, Gateway>, services: map<Key, Service>,
                          found: Option<Key>, id: Identity, cfg: Config, n: Named)
    requires c in ActiveConfigs(gateways) && Gateways.Balancer(services, c.controller, found)
    requires n in RecordsFor(c, services, found, id, cfg)
    ensures AskedFor(n, gateways, services, id, cfg)
  {
    ActiveMeaning(gateways, c);
    var i :| 0 <= i < |cfg| && n == RecordsFor(c, services, found, id, cfg)[i];
    assert Balances(services, found.value, c.controller);
    assert IsRecord(n, c.controller, c.postfix, found.value, cfg[i], services, id);
  }

  lemma {:induction false} AttemptedMember(order: seq<GatewayConfig>, choice: map<GatewayConfig, Option<Key>>,
      done: map<GatewayConfig, nat>, services: map<Key, Service>, id: Identity, cfg: Config, n: Named)
    returns (c: GatewayConfig)
    requires n in Attempted(order, choice, done, services, id, cfg)
    ensures c in order && n in ListFor(c, choice, services, id, cfg)
  {
    var init, last := order[..|order|-1], order[|order|-1];
    if n in Attempted(init, choice, done, services, id, cfg) {
      c := AttemptedMember(init, choice, done, services, id, cfg, n);
    } else {
      c := last;
    }
  }

  lemma HandledIsAskedFor(plan: Plan, done: map<GatewayConfig, nat>, gateways: map<Key, Gateway>,
                          services: map<Key, Service>, id: Identity, cfg: Config, n: Named)
    requires IsPlan(plan, ActiveConfigs(gateways), services)
    requires n in Attempted(plan.order, plan.choice, done, services, id, cfg)
    ensures AskedFor(n, gateways, services, id, cfg)
  {
    var c := AttemptedMember(plan.order, plan.choice, done, services, id, cfg, n);
    assert c in Gateways.Members(plan.order);
    RecordsForMeaning(c, gateways, services, plan.choice[c], id, cfg, n);
  }

  // ---- every change of a pass is justified ----

  /** The content of one record, with owner and annotation of the endpoint that was there or of some record
      of that name. */
  ghost predicate WrittenFrom(k: Key, e: Endpoint, m: Endpoints, list: seq<Named>) {
    && (exists n :: n in list && n.key == k && e.spec == n.body.spec && e.labels == n.body.labels)
    && ((k in m && e.owner == m[k].owner && e.annotation == m[k].annotation)
        || exists n :: n in list && n.key == k && e.owner == n.body.owner && e.annotation == n.body.annotation)
  }

  lemma {:induction false} UpsertsWrite(m: Endpoints, list: seq<Named>, k: Key)
    requires Records(list)
    ensures var u := UpsertAll(m, list);
      Lookup(u, k) == Lookup(m, k) || (k in u && WrittenFrom(k, u[k], m, list))
  {
    if list == [] {
    } else {
      RecordsInit(list);
      var init, last := list[..|list|-1], list[|list|-1];
      UpsertsWrite(m, init, k);
      if last.key != k || !Due(UpsertAll(m, init), last) {
        assert Lookup(UpsertAll(m, list), k) == Lookup(UpsertAll(m, init), k);
      } else {
        assert Lookup(UpsertAll(m, init), k) == Lookup(m, k) || WrittenFrom(k, UpsertAll(m, init)[k], m, init);
      }
    }
  }

  /** A pass, with or without refusals, removes nothing but records that are left over, in scanned namespaces. */
  lemma RemovalsAreLeftOver(m: Endpoints, m': Endpoints, gateways: map<Key, Gateway>, services: map<Key, Service>,
                            id: Option<Identity>, cfg: Option<Config>, swept: Endpoints, plan: Plan,
                            done: map<GatewayConfig, nat>, writes: int, faults: int, k: Key)
    requires PassPromised(m, m', gateways, services, id, cfg, swept, plan, done, writes, faults)
    requires k in m && k !in m'
    ensures LeftOver(k, m[k], gateways, services)
  {
    OrphanMeaning(k, m[k], gateways, services);
    if id.Some? && cfg.Some? {
      UpsertsWrite(swept, Attempted(plan.order, plan.choice, done, services, id.value, cfg.value), k);
    }
  }

  /** And it writes nothing but the content of records a live Gateway asks for; a correction keeps owner and
      annotation, and a new endpoint is wholly a record. */
  lemma WritesAreAskedFor(m: Endpoints, m': Endpoints, gateways: map<Key, Gateway>, services: map<Key, Service>,
                          id: Option<Identity>, cfg: Option<Config>, swept: Endpoints, plan: Plan,
                          done: map<GatewayConfig, nat>, writes: int, faults: int, k: Key)
    returns (n: Named, o: Named)
    requires PassPromised(m, m', gateways, services, id, cfg, swept, plan, done, writes, faults)
    requires k in m' && Lookup(m, k) != Some(m'[k])
    ensures id.Some? && cfg.Some? && n.key == k && o.key == k
    ensures AskedFor(n, gateways, services, id.value, cfg.value) && AskedFor(o, gateways, services, id.value, cfg.value)
    ensures m'[k].spec == n.body.spec && m'[k].labels == n.body.labels
    ensures (k in m && m'[k].owner == m[k].owner && m'[k].annotation == m[k].annotation)
            || (m'[k].owner == o.body.owner && m'[k].annotation == o.body.annotation)
  {
    var list := Attempted(plan.order, plan.choice, done, services, id.value, cfg.value);
    UpsertsWrite(swept, list, k);
    assert WrittenFrom(k, m'[k], swept, list);
    n :| n in list && n.key == k && m'[k].spec == n.body.spec && m'[k].labels == n.body.labels;
    o := n;
    if !(k in swept && m'[k].owner == swept[k].owner && m'[k].annotation == swept[k].annotation) {
      o :| o in list && o.key == k && m'[k].owner == o.body.owner && m'[k].annotation == o.body.annotation;
    }
    HandledIsAskedFor(plan, done, gateways, services, id.value, cfg.value, n);
    HandledIsAskedFor(plan, done, gateways, services, id.value, cfg.value, o);
  }

  /** After a pass without a refusal a Gateway record whose name no live Gateway asks for is left exactly if it
      was there and is not left over: in a scanned namespace, exactly if some Gateway that is not being deleted
      has its controller and its postfix. */
  lemma UnrefusedPassExactly(m: Endpoints, m': Endpoints, gateways: map<Key, Gateway>, services: map<Key, Service>,
                             id: Option<Identity>, cfg: Option<Config>, swept: Endpoints, plan: Plan,
                             done: map<GatewayConfig, nat>, writes: int, k: Key)
    requires PassPromised(m, m', gateways, services, id, cfg, swept, plan, done, writes, 0)
    requires id.Some? && cfg.Some? ==>
               forall n: Named | n.key == k :: !AskedFor(n, gateways, services, id.value, cfg.value)
    ensures Lookup(m', k) == if k in m && LeftOver(k, m[k], gateways, services) then None else Lookup(m, k)
  {
    if k in m {
      OrphanMeaning(k, m[k], gateways, services);
    }
    if id.Some? && cfg.Some? {
      var list := Attempted(plan.order, plan.choice, done, services, id.value, cfg.value);
      forall n | n in list ensures n.key != k {
        HandledIsAskedFor(plan, done, gateways, services, id.value, cfg.value, n);
      }
      UnwantedKept(swept, list, k);
    }
  }

  // ---- what a live Gateway is given ----

  lemma {:induction false} KeyIsServed(m: Endpoints, list: seq<Named>, k: Key, spec: seq<Record>)
    requires Records(list) && forall n | n in list && n.key == k :: n.body.spec == spec
    ensures forall n | n in list && n.key == k :: !Due(UpsertAll(m, list), n)
  {
    if list == [] {
    } else {
      RecordsInit(list);
      KeyIsServed(m, list[..|list|-1], k, spec);
    }
  }

  lemma UnrefusedHandlesAll(plan: Plan, done: map<GatewayConfig, nat>, gateways: map<Key, Gateway>,
                            services: map<Key, Service>, id: Identity, cfg: Config)
    requires IsProgress(plan, done, ActiveConfigs(gateways), services, id, cfg)
    requires |CutShort(plan, done, services, id, cfg)| == 0
    ensures Attempted(plan.order, plan.choice, done, services, id, cfg) == PlanRecords(plan, services, id, cfg)
  {
    NothingCut(plan, done, ActiveConfigs(gateways), services, id, cfg);
  }

  /** The record of one Gateway configuration and ExternalDNS controller is in the plan. */
  lemma RecordIsPlanned(plan: Plan, gateways: map<Key, Gateway>, services: map<Key, Service>, id: Identity, cfg: Config,
                        controller: string, postfix: string, service: Key, ext: ExternalDns) returns (n: Named)
    requires IsPlan(plan, ActiveConfigs(gateways), services)
    requires LiveGatewayOf(gateways, controller, postfix) && Balances(services, service, controller) && ext in cfg
    requires forall j | j in services && services[j].istio == Some(controller) && services[j].isLoadBalancer ::
               j == service
    ensures IsRecord(n, controller, postfix, service, ext, services, id)
    ensures n in PlanRecords(plan, services, id, cfg)
  {
    var c := GatewayConfig(controller, postfix);
    ActiveMeaning(gateways, c);
    var i :| 0 <= i < |cfg| && cfg[i] == ext;
    assert Gateways.Serves(services[service], controller);
    assert plan.choice[c] == Some(service);
    n := RecordsFor(c, services, Some(service), id, cfg)[i];
    PlanRecordsAreRecords(plan, ActiveConfigs(gateways), services, id, cfg);
  }

  /** After a pass without a refusal every live Gateway whose controller has one load balancer with an address
      has an endpoint for each ExternalDNS controller; and unless records of that name disagree, it has the
      Gateway's host and that address. */
  lemma LiveGatewayHasRecords(m: Endpoints, m': Endpoints, gateways: map<Key, Gateway>, services: map<Key, Service>,
                              id: Identity, cfg: Config, swept: Endpoints, plan: Plan, done: map<GatewayConfig, nat>,
                              writes: int, controller: string, postfix: string, service: Key, ext: ExternalDns)
    requires PassPromised(m, m', gateways, services, Some(id), Some(cfg), swept, plan, done, writes, 0)
    requires LiveGatewayOf(gateways, controller, postfix) && Balances(services, service, controller) && ext in cfg
    requires forall j | j in services && services[j].istio == Some(controller) && services[j].isLoadBalancer ::
               j == service
    ensures var k := Key(service.ns, "gateway-controller-" + controller + "-" + postfix + "-" + ext.name);
      var host := id.cluster + "-" + id.region + "-" + postfix + "." + id.domain;
      var spec := [Record(host, A, [services[service].ingress[0]], 300)];
      && k in m'
      && ((forall n: Named | n.key == k && AskedFor(n, gateways, services, id, cfg) :: n.body.spec == spec) ==>
            m'[k].spec != [] && m'[k].spec[0].dnsName == host
            && m'[k].spec[0].targets != [] && m'[k].spec[0].targets[0] == services[service].ingress[0])
  {
    var n := RecordIsPlanned(plan, gateways, services, id, cfg, controller, postfix, service, ext);
    UnrefusedHandlesAll(plan, done, gateways, services, id, cfg);
    var list := Attempted(plan.order, plan.choice, done, services, id, cfg);
    WantedHeld(swept, list, n.key);
    if forall o: Named | o.key == n.key && AskedFor(o, gateways, services, id, cfg) :: o.body.spec == n.body.spec {
      forall o | o in list && o.key == n.key ensures o.body.spec == n.body.spec {
        HandledIsAskedFor(plan, done, gateways, services, id, cfg, o);
      }
      KeyIsServed(swept, list, n.key, n.body.spec);
    }
  }

  // ---- runs ----

  datatype State = State(gateways: map<Key, Gateway>, services: map<Key, Service>, endpoints: Endpoints)

  datatype Event =
    | Edit    // Gateways and Services change in any way
    | Others  // anyone else removes endpoints, or writes ones that are no Gateway record
    | Pass(id: Option<Identity>, cfg: Option<Config>, swept: Endpoints, plan: Plan, done: map<GatewayConfig, nat>,
           writes: int, faults: int)

  /** Endpoints are only removed, or written without the labels of a Gateway record. */
  ghost predicate WritesNoRecord(m: Endpoints, m': Endpoints) {
    forall k | k in m' :: Lookup(m, k) == Some(m'[k]) || !GatewayEndpoint(m'[k])
  }

  ghost predicate Next(s: State, e: Event, s': State) {
    match e
    case Edit => s'.endpoints == s.endpoints
    case Others => s' == s.(endpoints := s'.endpoints) && WritesNoRecord(s.endpoints, s'.endpoints)
    case Pass(id, cfg, swept, plan, done, writes, faults) =>
      && s' == s.(endpoints := s'.endpoints)
      && PassPromised(s.endpoints, s'.endpoints, s.gateways, s.services, id, cfg, swept, plan, done, writes, faults)
  }

  ghost predicate IsIngressHistory(states: seq<State>, events: seq<Event>) {
    && |states| == |events| + 1
    && forall i | 0 <= i < |events| :: Next(states[i], events[i], states[i+1])
  }

  lemma {:induction false} RunWritesDesired(scope: Scope, desired: Endpoints, trace: seq<Endpoints>, k: Key)
    requires IsRun(scope, desired, trace) && k in trace[|trace|-1]
    requires Lookup(trace[0], k) != Some(trace[|trace|-1][k])
    ensures k in desired && trace[|trace|-1][k].labels == desired[k].labels
  {
    var n := |trace| - 1;
    assert Write(scope, desired, trace[n-1], trace[n]);
    if k in trace[n-1] && trace[n-1][k] == trace[n][k] {
      RunWritesDesired(scope, desired, trace[..n], k);
    }
  }

  /** Whatever a reconciliation of a route wrote, complete or not, is no Gateway record. */
  lemma RouteWritesNoRecord(route: Key, v: View, trace: seq<Endpoints>)
    requires RunOf(route, Decide(route, v), trace)
    ensures WritesNoRecord(trace[0], trace[|trace|-1])
  {
    var d, m, m' := Decide(route, v), trace[0], trace[|trace|-1];
    forall k | k in m' && Lookup(m, k) != Some(m'[k]) ensures !GatewayEndpoint(m'[k]) {
      match d {
        case Gone => RunWritesDesired(OwnScope(route), map[], trace, k);
        case Withdrawn => RunWritesDesired(OwnScope(route), map[], trace, k);
        case Wanted(list) =>
          RunWritesDesired(Scope(route, NamespacesOf(list)), ByKey(list), trace, k);
          WantedIsNoRecord(route, v, k);
        case Rejected(_) =>
        case Waiting(_) =>
      }
    }
  }

  lemma WantedIsNoRecord(route: Key, v: View, k: Key)
    requires Decide(route, v).Wanted? && k in ByKey(Decide(route, v).list)
    ensures !GatewayEndpoint(ByKey(Decide(route, v).list)[k])
  {
    ControllerMapMeaning(v.cfg.value);
    BuildAllIsDesired(route, ControllerMap(v.cfg.value), v.policy.value.controllers,
                      HostsOf(v.route.value, v.gateway.value, v.id.value));
  }

  /** So a step of the routing runs is one of these runs, beside any Gateways and Services. */
  lemma RoutingStepIsStep(s: Routing.State, e: Routing.Event, s': Routing.State, defaultNamespace: string,
                          gateways: map<Key, Gateway>, services: map<Key, Service>)
    requires Routing.Next(s, e, s', defaultNamespace) && !e.EditForeign?
    ensures Next(State(gateways, services, s.endpoints), Others, State(gateways, services, s'.endpoints))
  {
    if e.ReconcileRoute? {
      RouteWritesNoRecord(e.k, Routing.ViewIn(s, e.k, e.first, e.id, e.cfg, defaultNamespace), e.trace);
    }
  }

  /** No step writes a record that no live Gateway asks for. */
  lemma StepKeepsAway(s: State, e: Event, s': State, k: Key, controller: string, postfix: string)
    requires Next(s, e, s') && !LiveGatewayOf(s.gateways, controller, postfix)
    requires k in s'.endpoints && RecordOf(s'.endpoints[k], controller, postfix)
    ensures k in s.endpoints && s.endpoints[k] == s'.endpoints[k]
  {
    if e.Pass? && Lookup(s.endpoints, k) != Some(s'.endpoints[k]) {
      var n, o := WritesAreAskedFor(s.endpoints, s'.endpoints, s.gateways, s.services, e.id, e.cfg, e.swept, e.plan,
                                    e.done, e.writes, e.faults, k);
      AskedForIsLive(n, s.gateways, s.services, e.id.value, e.cfg.value);
    }
  }

  lemma AskedForIsLive(n: Named, gateways: map<Key, Gateway>, services: map<Key, Service>, id: Identity, cfg: Config)
    requires AskedFor(n, gateways, services, id, cfg)
    ensures ResourceType in n.body.labels && n.body.labels[ResourceType] == "gateway-service"
    ensures LiveGatewayOf(gateways, Label(n.body.labels, IstioController), Label(n.body.labels, TargetPostfix))
  {}

  /** Once no Gateway with a controller and postfix is live any more, the next pass that is not refused a call
      removes their records from the scanned namespaces, and whatever happens, none comes back while that is
      so: not by a later pass, finished or not, nor by anyone else. */
  lemma {:induction false} DeletedGatewayLeavesNothing(states: seq<State>, events: seq<Event>, i: nat, j: nat,
                                                       controller: string, postfix: string, k: Key)
    requires IsIngressHistory(states, events) && i < j <= |events| && events[i].Pass? && events[i].faults == 0
    requires forall t | i <= t < j :: !LiveGatewayOf(states[t].gateways, controller, postfix)
    requires k in states[j].endpoints && RecordOf(states[j].endpoints[k], controller, postfix)
    ensures !IsScanned(states[i].services, k.ns)
    ensures k in states[i].endpoints && states[i].endpoints[k] == states[j].endpoints[k]
  {
    hide Next;
    assert Next(states[j-1], events[j-1], states[j]);
    StepKeepsAway(states[j-1], events[j-1], states[j], k, controller, postfix);
    if i < j - 1 {
      DeletedGatewayLeavesNothing(states, events, i, j - 1, controller, postfix, k);
    } else {
      PassRemovesLeftOver(states[i], events[i], states[j], k, controller, postfix);
    }
  }

  lemma PassRemovesLeftOver(s: State, e: Event, s': State, k: Key, controller: string, postfix: string)
    requires Next(s, e, s') && e.Pass? && e.faults == 0 && !LiveGatewayOf(s.gateways, controller, postfix)
    requires k in s'.endpoints && RecordOf(s'.endpoints[k], controller, postfix)
    ensures !IsScanned(s.services, k.ns)
  {
    StepKeepsAway(s, e, s', k, controller, postfix);
    var scanned, active := ScannedNamespaces(s.services), ActiveConfigs(s.gateways);
    if IsScanned(s.services, k.ns) {
      OrphanMeaning(k, s.endpoints[k], s.gateways, s.services);
      assert k !in Swept(s.endpoints, scanned, active);
      if e.id.Some? && e.cfg.Some? {
        var list := Attempted(e.plan.order, e.plan.choice, e.done, s.services, e.id.value, e.cfg.value);
        UpsertsWrite(e.swept, list, k);
        var n: Named :| n in list && n.key == k && s'.endpoints[k].labels == n.body.labels;
        HandledIsAskedFor(e.plan, e.done, s.gateways, s.services, e.id.value, e.cfg.value, n);
        AskedForIsLive(n, s.gateways, s.services, e.id.value, e.cfg.value);
        assert false;
      }
    }
  }
}
