/** The limits of route agreement: beside a second ClusterIdentity, or under a changing configuration, a route
    that is not queued may hold what an old spec demanded. */
module RouteAgreementLimit {
  import opened Objects
  import opened EndpointDiff
  import opened ServiceRouteController
  import opened ClusterIdentityController
  import opened DnsPolicyController
  import opened RoutingRuns
  import opened RouteQueue
  import Singletons = SingletonRuns
  import opened Admission
  import opened AgreementRuns
  import opened RouteAgreement
  import opened StalePaths
  import opened DrainLimit

  // ---- two identities ----

  /** At every moment, with the identity controller drained and its one object valid, every route that is not
      queued is as that object demands. */
  ghost predicate RoutesAgree(l: Linked, at: Unchanging) {
    l.ids.queue == {} && l.ids.worker.Idle? ==>
      forall n, k, first |
        && Singletons.Sole(l.ids, n) && ValidIdentity(l.ids.objects[n].spec)
        && k !in l.queue && FirstPolicy(l.routing.policies, k.ns, first) ::
        Finished(k, DecisionFor(l.routing, k, first, With(l.ids.objects[n].spec, at)), l.routing.endpoints)
  }

  /** Whatever the run with at most so many identities at a time. */
  ghost predicate RoutesAlwaysAgree(limit: nat) {
    forall states: seq<Linked>, events: seq<LinkedEvent>, at: Unchanging
      | IsLinkedRun(states, events, at) && (forall j | 0 <= j <= |events| :: |states[j].ids.objects| <= limit) ::
      RoutesAgree(states[|events|], at)
  }

  ghost predicate IsLinkedPath(states: seq<Linked>, events: seq<LinkedEvent>, at: Unchanging, limit: nat) {
    && |states| == |events| + 1
    && (forall i | 0 <= i < |events| :: LinkedStep(states[i], events[i], states[i+1], at))
    && (forall i | 0 <= i <= |events| ::
          OnePolicyEach(states[i].routing.policies) && |states[i].ids.objects| <= limit)
  }

  ghost predicate LinkedLeads(l0: Linked, l: Linked, at: Unchanging, limit: nat) {
    exists states, events :: IsLinkedPath(states, events, at, limit) && states[0] == l0 && states[|events|] == l
  }

  lemma GoLinked(l0: Linked, l: Linked, e: LinkedEvent, l': Linked, at: Unchanging, limit: nat)
    requires LinkedLeads(l0, l, at, limit) && LinkedStep(l, e, l', at)
    requires OnePolicyEach(l'.routing.policies) && |l'.ids.objects| <= limit
    ensures LinkedLeads(l0, l', at, limit)
  {
    var states, events :| IsLinkedPath(states, events, at, limit) && states[0] == l0 && states[|events|] == l;
    var states', events' := states + [l'], events + [e];
    forall i | 0 <= i < |events'| ensures LinkedStep(states'[i], events'[i], states'[i+1], at) {
      if i < |events| {
        assert states'[i] == states[i] && states'[i+1] == states[i+1] && events'[i] == events[i];
      }
    }
    forall i | 0 <= i <= |events'|
      ensures OnePolicyEach(states'[i].routing.policies) && |states'[i].ids.objects| <= limit
    {
      if i <= |events| {
        assert states'[i] == states[i];
      }
    }
    assert IsLinkedPath(states', events', at, limit) && states'[0] == l0 && states'[|events'|] == l';
  }

  /** A path of the identity controller, with all routes queued or no object changed on the way. */
  lemma {:induction false} GoIdentityPath(l0: Linked, l: Linked, ws: seq<Singletons.World<Identity>>,
      es: seq<Singletons.Event<Identity>>, i: nat, r: Rules<Identity>, at: Unchanging)
    requires LinkedLeads(l0, l, at, r.limit) && OnePolicyEach(l.routing.policies) && r.valid == ValidIdentity
    requires IsWorldPath(ws, es, r) && ws[0] == l.ids && i <= |es|
    requires l.routing.routes.Keys <= l.queue || IsSilent(ws)
    ensures LinkedLeads(l0, l.(ids := ws[i]), at, r.limit)
  {
    if i == 0 {
      assert l.(ids := ws[0]) == l;
    } else {
      GoIdentityPath(l0, l, ws, es, i - 1, r, at);
      assert Within(ws[i], r.limit, r.oneValid, r.valid);
      assert IsSilent(ws) ==> ws[i].objects == ws[i-1].objects;
      GoLinked(l0, l.(ids := ws[i-1]), OfWorker(es[i-1]), l.(ids := ws[i]), at, r.limit);
    }
  }

  /** Every route is queued while the worker goes from one world to another. */
  lemma GoIdentity(l0: Linked, l: Linked, w: Singletons.World<Identity>, r: Rules<Identity>, at: Unchanging)
    requires LinkedLeads(l0, l, at, r.limit) && OnePolicyEach(l.routing.policies) && r.valid == ValidIdentity
    requires WorldLeads(l.ids, w, r) && l.routing.routes.Keys <= l.queue
    ensures LinkedLeads(l0, l.(ids := w), at, r.limit)
  {
    var ws, es :| IsWorldPath(ws, es, r) && ws[0] == l.ids && ws[|es|] == w;
    GoIdentityPath(l0, l, ws, es, |es|, r, at);
  }

  const MOVED_AWAY := Identity("neu", "aks", "example.com", "p", [])
  const AT_CONFIG := Unchanging(Some(CONFIG), "")

  function IdentityRules(limit: nat): Rules<Identity> {
    Rules(limit, false, ValidIdentity, AdmittedIdentity)
  }

  /** One policy, one Gateway and one route, and everything queued. */
  const LINKED_START := Linked(StartedAt(CLUSTER), READY, {ROUTE})

  lemma StartIsFine(limit: nat)
    requires limit >= 1
    ensures Singletons.Started(LINKED_START.ids) && IsQueueStart(READY, {ROUTE}) && OnePolicyEach(READY.policies)
    ensures LinkedLeads(LINKED_START, LINKED_START, AT_CONFIG, limit)
  {
    assert |One(SettledObject(CLUSTER))| == 1;
    assert IsLinkedPath([LINKED_START], [], AT_CONFIG, limit);
  }

  /** What the route holds after it was reconciled for an identity. */
  ghost function HeldFor(id: Identity): Endpoints {
    Effect(ROUTE, DecisionFor(READY, ROUTE, Some(SELECTED), With(id, AT_CONFIG)), map[])
  }

  lemma WantedFor(id: Identity)
    ensures var d := DecisionFor(READY, ROUTE, Some(SELECTED), With(id, AT_CONFIG));
      d == Wanted([BuildEndpoint(ROUTE, CONFIG[0], HostsOf(VALID, LIVE_GATEWAY, id))])
  {
    var hosts := HostsOf(VALID, LIVE_GATEWAY, id);
    assert DecisionFor(READY, ROUTE, Some(SELECTED), With(id, AT_CONFIG))
           == Wanted(BuildAll(ROUTE, ControllerMap(CONFIG), ["dns"], hosts));
    OneBuilt(hosts);
  }

  lemma OneBuilt(hosts: Hosts)
    ensures BuildAll(ROUTE, ControllerMap(CONFIG), ["dns"], hosts) == [BuildEndpoint(ROUTE, CONFIG[0], hosts)]
  {
    SelectedHere();
    var active := ["dns"];
    assert active[..|active|-1] == [] && BuildAll(ROUTE, ControllerMap(CONFIG), [], hosts) == [];
  }

  lemma HeldForIs(id: Identity)
    ensures var n := BuildEndpoint(ROUTE, CONFIG[0], HostsOf(VALID, LIVE_GATEWAY, id));
      HeldFor(id) == map[n.key := n.body]
  {
    WantedFor(id);
    var n := BuildEndpoint(ROUTE, CONFIG[0], HostsOf(VALID, LIVE_GATEWAY, id));
    assert [n][..0] == [];
    assert ByKey([n]) == map[n.key := n.body];
  }

  /** What it holds for one identity leaves work for one of another region. */
  lemma HeldForDiffers(s: State)
    requires s == READY.(endpoints := HeldFor(CLUSTER))
    ensures !Finished(ROUTE, DecisionFor(s, ROUTE, Some(SELECTED), With(MOVED_AWAY, AT_CONFIG)), s.endpoints)
  {
    HeldForIs(CLUSTER);
    WantedFor(MOVED_AWAY);
    TargetsDiffer();
    var n := BuildEndpoint(ROUTE, CONFIG[0], HostsOf(VALID, LIVE_GATEWAY, MOVED_AWAY));
    assert [n][..0] == [];
    assert ByKey([n]) == map[n.key := n.body];
    assert n.key in Missing(Scope(ROUTE, NamespacesOf([n])), ByKey([n]), s.endpoints);
  }

  lemma TargetsDiffer()
    ensures TargetHost(CLUSTER, "internal") != TargetHost(MOVED_AWAY, "internal")
  {
    assert TargetHost(CLUSTER, "internal")[4] == 'w' && TargetHost(MOVED_AWAY, "internal")[4] == 'n';
  }

  const EDITED := StaleAt(CLUSTER, MOVED_AWAY)

  /** The first identity is edited beside a second one, which is deleted; all routes are queued meanwhile. */
  lemma LeadsToEdited(limit: nat)
    requires limit >= 2
    ensures LinkedLeads(LINKED_START, Linked(EDITED, READY, {ROUTE}), AT_CONFIG, limit)
  {
    StartIsFine(limit);
    IdentitiesAreCast(limit);
    Strand(CLUSTER, MOVED_AWAY, CLUSTER, IdentityRules(limit));
    GoIdentity(LINKED_START, LINKED_START, EDITED, IdentityRules(limit), AT_CONFIG);
    assert LINKED_START.(ids := EDITED) == Linked(EDITED, READY, {ROUTE});
  }

  lemma IdentitiesAreCast(limit: nat)
    requires limit >= 2
    ensures Cast(CLUSTER, MOVED_AWAY, CLUSTER, IdentityRules(limit))
  {
    ExampleDomain();
    assert CLUSTER.region[0] != MOVED_AWAY.region[0];
  }

  /** The route is reconciled against the stale cache, ... */
  lemma LeadsToReconciled(limit: nat)
    requires limit >= 2
    ensures LinkedLeads(LINKED_START, Linked(EDITED, READY.(endpoints := HeldFor(CLUSTER)), {}), AT_CONFIG, limit)
  {
    LeadsToEdited(limit);
    SelectedHere();
    WantedFor(CLUSTER);
    var e := WantedStep(READY, {ROUTE}, ROUTE, Some(CLUSTER), Some(CONFIG), Some(SELECTED), "");
    assert {ROUTE} - {ROUTE} == {};
    ThenReconciled(e, limit);
  }

  lemma ThenReconciled(e: Event, limit: nat)
    requires limit >= 1 && LinkedLeads(LINKED_START, Linked(EDITED, READY, {ROUTE}), AT_CONFIG, limit)
    requires QueueStep(READY, {ROUTE}, e, READY.(endpoints := HeldFor(CLUSTER)), {}, "")
    requires e.ReconcileRoute? && e.id == Some(CLUSTER) && e.cfg == Some(CONFIG)
    ensures LinkedLeads(LINKED_START, Linked(EDITED, READY.(endpoints := HeldFor(CLUSTER)), {}), AT_CONFIG, limit)
  {
    assert |One(RefusedObject(MOVED_AWAY))| == 1;
    GoLinked(LINKED_START, Linked(EDITED, READY, {ROUTE}), OfRouting(e),
             Linked(EDITED, READY.(endpoints := HeldFor(CLUSTER)), {}), AT_CONFIG, limit);
  }

  /** ... and only then the cache is cleared, which queues nothing. */
  lemma LeadsToCleared(s: State, limit: nat)
    requires limit >= 1 && LinkedLeads(LINKED_START, Linked(EDITED, s, {}), AT_CONFIG, limit)
    requires OnePolicyEach(s.policies)
    ensures LinkedLeads(LINKED_START, Linked(ClearedAt(MOVED_AWAY), s, {}), AT_CONFIG, limit)
  {
    ClearStale(CLUSTER, MOVED_AWAY, IdentityRules(limit));
    var ws, es :| IsWorldPath(ws, es, IdentityRules(limit)) && ws[0] == EDITED && ws[|es|] == ClearedAt(MOVED_AWAY)
                  && IsSilent(ws);
    GoIdentityPath(LINKED_START, Linked(EDITED, s, {}), ws, es, |es|, IdentityRules(limit), AT_CONFIG);
  }

  lemma ClearedDisagrees(s: State)
    requires s == READY.(endpoints := HeldFor(CLUSTER))
    ensures !RoutesAgree(Linked(ClearedAt(MOVED_AWAY), s, {}), AT_CONFIG)
  {
    var l := Linked(ClearedAt(MOVED_AWAY), s, {});
    HeldForDiffers(s);
    assert Singletons.Sole(l.ids, FIRST) && ROUTE !in l.queue && FirstPolicy(s.policies, ROUTE.ns, Some(SELECTED));
  }

  lemma TwoIdentitiesStrandRoutes(limit: nat)
    requires limit >= 2
    ensures !RoutesAlwaysAgree(limit)
  {
    var s := READY.(endpoints := HeldFor(CLUSTER));
    LeadsToReconciled(limit);
    StartIsFine(limit);
    LeadsToCleared(s, limit);
    ClearedDisagrees(s);
    Stranded(Linked(ClearedAt(MOVED_AWAY), s, {}), limit);
  }

  lemma Stranded(l: Linked, limit: nat)
    requires limit >= 1 && LinkedLeads(LINKED_START, l, AT_CONFIG, limit) && !RoutesAgree(l, AT_CONFIG)
    ensures !RoutesAlwaysAgree(limit)
  {
    StartIsFine(limit);
    var states, events :|
      IsLinkedPath(states, events, AT_CONFIG, limit) && states[0] == LINKED_START && states[|events|] == l;
    assert IsLinkedRun(states, events, AT_CONFIG);
  }

  /** Under a fixed configuration routes always agree exactly when at most one ClusterIdentity may exist at a
      time. */
  lemma RouteAgreementExactly(limit: nat)
    ensures RoutesAlwaysAgree(limit) <==> limit <= 1
  {
    if limit <= 1 {
      forall states: seq<Linked>, events: seq<LinkedEvent>, at: Unchanging
        | IsLinkedRun(states, events, at) && (forall j | 0 <= j <= |events| :: |states[j].ids.objects| <= limit)
        ensures RoutesAgree(states[|events|], at)
      {
        OneIdentityAgrees(states, events, at);
      }
    } else {
      TwoIdentitiesStrandRoutes(limit);
    }
  }

  lemma OneIdentityAgrees(states: seq<Linked>, events: seq<LinkedEvent>, at: Unchanging)
    requires IsLinkedRun(states, events, at) && forall j | 0 <= j <= |events| :: |states[j].ids.objects| <= 1
    ensures RoutesAgree(states[|events|], at)
  {
    var l := states[|events|];
    if l.ids.queue == {} && l.ids.worker.Idle? {
      forall n, k, first
        | Singletons.Sole(l.ids, n) && ValidIdentity(l.ids.objects[n].spec)
          && k !in l.queue && FirstPolicy(l.routing.policies, k.ns, first)
        ensures Finished(k, DecisionFor(l.routing, k, first, With(l.ids.objects[n].spec, at)), l.routing.endpoints)
      {
        RoutesAgreeWhenDrained(states, events, at, |events|, n, k, first);
      }
    }
  }

  // ---- a configuration that changes ----

  /** A controller is missing from the configuration for a while. */
  const WHOLE: Config := [ExternalDns("dns", "weu"), ExternalDns("spare", "weu")]
  const LACKING: Config := [ExternalDns("spare", "weu")]
  const BOTH_SELECTED := Selection(true, ["dns", "spare"])
  const BOTH_POLICY := Policy(ANYWHERE, PolicyStatus(PhaseActive, BOTH_SELECTED, ReconciliationSucceeded))
  const BOTH_READY := State(map[TEAM_POLICY := BOTH_POLICY], map[ROUTE := VALID], map[GATEWAY := LIVE_GATEWAY], map[])

  lemma BothSelected()
    ensures Reconciled(BOTH_POLICY, Some(CLUSTER), Some(WHOLE)) == BOTH_POLICY
    ensures "dns" in ControllerMap(WHOLE) && "spare" in ControllerMap(WHOLE)
    ensures "dns" !in ControllerMap(LACKING) && "spare" in ControllerMap(LACKING)
  {
    assert WHOLE[..1] == [WHOLE[0]] && WHOLE[..1][..0] == [] && LACKING[..0] == [];
    assert "dns"[0] != "spare"[0];
    assert NamesFor(WHOLE[..1], "weu") == ["dns"] && NamesFor(WHOLE, "weu") == ["dns", "spare"];
    assert ActiveNames(CLUSTER, WHOLE) == ["dns", "spare"];
  }

  /** Brought to what one set of controllers asks for, a route lacks what another one asks for besides. */
  lemma LacksOne(route: Key, few: map<string, ExternalDns>, more: map<string, ExternalDns>, names: set<string>,
                 hosts: Hosts, name: string)
    requires name in names && name in more && name !in few
    ensures Work(OwnScope(route), Desired(route, more, names, hosts),
                 Goal(OwnScope(route), Desired(route, few, names, hosts), map[])) > 0
  {
    var k := EndpointKey(route, name);
    KeyNamesController(route, name);
    assert k in Desired(route, more, names, hosts);
    assert k !in Desired(route, few, names, hosts) by {
      if n :| n in names && n in few && EndpointKey(route, n) == k {
        KeyNamesController(route, n);
      }
    }
    var g := Goal(OwnScope(route), Desired(route, few, names, hosts), map[]);
    assert k in Missing(OwnScope(route), Desired(route, more, names, hosts), g);
  }

  function BuiltUnder(cfg: Config): seq<Named> {
    BuildAll(ROUTE, ControllerMap(cfg), BOTH_SELECTED.controllers, HostsOf(VALID, LIVE_GATEWAY, CLUSTER))
  }

  /** The decision for the route under a configuration. */
  lemma DecisionUnder(s: State, cfg: Config)
    requires s == BOTH_READY.(endpoints := s.endpoints)
    ensures DecisionFor(s, ROUTE, Some(BOTH_SELECTED), Fixed(Some(CLUSTER), Some(cfg), "")) == Wanted(BuiltUnder(cfg))
  {}

  lemma BuiltUnderIs(cfg: Config)
    requires SomeConfigured(ControllerMap(cfg), BOTH_SELECTED.controllers)
    ensures ByKey(BuiltUnder(cfg)) == Desired(ROUTE, ControllerMap(cfg), Names(BOTH_SELECTED.controllers),
                                              HostsOf(VALID, LIVE_GATEWAY, CLUSTER))
    ensures NamespacesOf(BuiltUnder(cfg)) == {ROUTE.ns}
  {
    ControllerMapMeaning(cfg);
    BuildAllNamespaces(ROUTE, ControllerMap(cfg), BOTH_SELECTED.controllers, HostsOf(VALID, LIVE_GATEWAY, CLUSTER));
  }

  /** The route after a reconciliation under the lacking configuration. */
  ghost function LackingState(): State {
    var at := Fixed(Some(CLUSTER), Some(LACKING), "");
    BOTH_READY.(endpoints := Effect(ROUTE, DecisionFor(BOTH_READY, ROUTE, Some(BOTH_SELECTED), at), map[]))
  }

  lemma LackingIsUnfinished()
    ensures var at := Fixed(Some(CLUSTER), Some(WHOLE), "");
      !Finished(ROUTE, DecisionFor(LackingState(), ROUTE, Some(BOTH_SELECTED), at), LackingState().endpoints)
  {
    BothSelected();
    var controllers := BOTH_SELECTED.controllers;
    assert "dns" in controllers && "spare" in controllers && "dns" in Names(controllers);
    DecisionUnder(BOTH_READY, LACKING);
    DecisionUnder(LackingState(), WHOLE);
    BuiltUnderIs(LACKING);
    BuiltUnderIs(WHOLE);
    LacksOne(ROUTE, ControllerMap(LACKING), ControllerMap(WHOLE), Names(controllers),
             HostsOf(VALID, LIVE_GATEWAY, CLUSTER), "dns");
  }

  /** A route is reconciled and then its policy, after which nothing is queued; what was fetched last is `at`,
      and it left the policy as it was. Still the route is not finished. */
  ghost predicate Missed(s0: State, e1: Event, s1: State, e2: Event, s2: State, at: Fixed) {
    && IsQueueStart(s0, {ROUTE}) && OnePolicyEach(s0.policies)
    && QueueStep(s0, {ROUTE}, e1, s1, {}, "") && e1.ReconcileRoute? && e1.complete && e1.id == at.id
    && QueueStep(s1, {}, e2, s2, {}, "") && e2.ReconcilePolicy? && FetchesFixed(e2, at) && s2.policies == s0.policies
    && !Idle(s2, ROUTE, at)
  }

  /** While the configuration changes a route may be missed. It was reconciled while an entry was missing, and
      no watch queues it for the entry's return: it lacks an endpoint that its policy and the configuration
      demand, with nothing left in the queue. */
  lemma ConfigurationChangeIsMissed()
    ensures exists s0, e1, s1, e2, s2, at :: Missed(s0, e1, s1, e2, s2, at)
  {
    LackingIsStep();
    var e1: Event :| QueueStep(BOTH_READY, {ROUTE}, e1, LackingState(), {}, "")
                     && e1.ReconcileRoute? && e1.complete && e1.id == Some(CLUSTER);
    var e2 := Event.ReconcilePolicy(TEAM_POLICY, Some(CLUSTER), Some(WHOLE));
    PolicyUnchanged(LackingState(), e2);
    LackingIsNotIdle();
    BothReadyIsStart();
    assert Missed(BOTH_READY, e1, LackingState(), e2, LackingState(), Fixed(Some(CLUSTER), Some(WHOLE), ""));
  }

  lemma BothReadyIsStart()
    ensures IsQueueStart(BOTH_READY, {ROUTE}) && OnePolicyEach(BOTH_READY.policies)
  {}

  lemma LackingIsNotIdle()
    ensures !Idle(LackingState(), ROUTE, Fixed(Some(CLUSTER), Some(WHOLE), ""))
  {
    LackingIsUnfinished();
    assert FirstPolicy(LackingState().policies, ROUTE.ns, Some(BOTH_SELECTED));
  }

  lemma LackingIsStep()
    ensures exists e1: Event :: QueueStep(BOTH_READY, {ROUTE}, e1, LackingState(), {}, "")
                                && e1.ReconcileRoute? && e1.complete && e1.id == Some(CLUSTER)
  {
    BothSelected();
    assert "spare" in BOTH_SELECTED.controllers;
    DecisionUnder(BOTH_READY, LACKING);
    BuiltUnderIs(LACKING);
    var e1 := WantedStep(BOTH_READY, {ROUTE}, ROUTE, Some(CLUSTER), Some(LACKING), Some(BOTH_SELECTED), "");
    assert {ROUTE} - {ROUTE} == {};
  }

  lemma PolicyUnchanged(s: State, e: Event)
    requires s == BOTH_READY.(endpoints := s.endpoints)
    requires e == Event.ReconcilePolicy(TEAM_POLICY, Some(CLUSTER), Some(WHOLE))
    ensures QueueStep(s, {}, e, s, {}, "")
  {
    BothSelected();
    assert s.policies[TEAM_POLICY := BOTH_POLICY] == s.policies;
  }
}
