/** Several clusters sharing one DNSConfiguration: who writes which record. */
module MultiCluster {
  import opened Objects
  import opened EndpointDiff
  import opened ServiceRouteController
  import opened DnsPolicyController
  import opened RoutingRuns

  // ---- source constraints ----

  /** A policy with this spec is active in the cluster once it was reconciled there, whatever its status was. */
  ghost predicate BecomesActive(spec: PolicySpec, id: Identity, cfg: Config) {
    exists status: PolicyStatus :: Reconciled(Policy(spec, status), Some(id), Some(cfg)).status.selection.active
  }

  ghost predicate AtMostOneActive(spec: PolicySpec, clusters: seq<Identity>, cfg: Config) {
    forall i, j | 0 <= i < j < |clusters| ::
      !(BecomesActive(spec, clusters[i], cfg) && BecomesActive(spec, clusters[j], cfg))
  }

  predicate KnownMode(spec: PolicySpec) {
    spec.mode == "Active" || spec.mode == "RegionBound"
  }

  /** That is so exactly when the cluster meets each constraint there is. */
  lemma BecomesActiveExactly(spec: PolicySpec, id: Identity, cfg: Config)
    requires KnownMode(spec) && cfg != []
    ensures BecomesActive(spec, id, cfg) <==>
            && (spec.sourceRegion == "" || spec.sourceRegion == id.region)
            && (spec.sourceCluster == "" || spec.sourceCluster == id.cluster)
  {
    forall status: PolicyStatus {
      ActiveExactly(Policy(spec, status), id, cfg);
    }
    assert Reconciled(Policy(spec, FRESH_POLICY_STATUS), Some(id), Some(cfg)).status.selection.active ==>
        BecomesActive(spec, id, cfg);
  }

  /** Every policy that names a source region becomes active in at most one cluster exactly when no two
      clusters share a region. */
  lemma SourceRegionExcludes(clusters: seq<Identity>, cfg: Config)
    requires cfg != []
    ensures (forall spec: PolicySpec | KnownMode(spec) && spec.sourceRegion != "" ::
               AtMostOneActive(spec, clusters, cfg))
            <==> forall i, j | 0 <= i < j < |clusters| && clusters[i].region == clusters[j].region ::
                   clusters[i].region == ""
  {
    hide BecomesActive;
    forall i, j | 0 <= i < j < |clusters| && clusters[i].region == clusters[j].region
      ensures clusters[i].region == ""
              || !AtMostOneActive(PolicySpec("RegionBound", clusters[i].region, ""), clusters, cfg)
    {
      BecomesActiveExactly(PolicySpec("RegionBound", clusters[i].region, ""), clusters[i], cfg);
      BecomesActiveExactly(PolicySpec("RegionBound", clusters[i].region, ""), clusters[j], cfg);
    }
    forall spec: PolicySpec, i, j |
      KnownMode(spec) && spec.sourceRegion != "" && 0 <= i < j < |clusters|
      && BecomesActive(spec, clusters[i], cfg) && BecomesActive(spec, clusters[j], cfg)
      ensures clusters[i].region == clusters[j].region && clusters[i].region != ""
    {
      BecomesActiveExactly(spec, clusters[i], cfg);
      BecomesActiveExactly(spec, clusters[j], cfg);
    }
  }

  /** Likewise for the name of a source cluster, whatever region is named besides. */
  lemma SourceClusterExcludes(clusters: seq<Identity>, cfg: Config)
    requires cfg != []
    ensures (forall spec: PolicySpec | KnownMode(spec) && spec.sourceCluster != "" ::
               AtMostOneActive(spec, clusters, cfg))
            <==> forall i, j | 0 <= i < j < |clusters| && clusters[i].cluster == clusters[j].cluster ::
                   clusters[i].cluster == ""
  {
    hide BecomesActive;
    forall i, j | 0 <= i < j < |clusters| && clusters[i].cluster == clusters[j].cluster
      ensures clusters[i].cluster == ""
              || !AtMostOneActive(PolicySpec("RegionBound", "", clusters[i].cluster), clusters, cfg)
    {
      BecomesActiveExactly(PolicySpec("RegionBound", "", clusters[i].cluster), clusters[i], cfg);
      BecomesActiveExactly(PolicySpec("RegionBound", "", clusters[i].cluster), clusters[j], cfg);
    }
    forall spec: PolicySpec, i, j |
      KnownMode(spec) && spec.sourceCluster != "" && 0 <= i < j < |clusters|
      && BecomesActive(spec, clusters[i], cfg) && BecomesActive(spec, clusters[j], cfg)
      ensures clusters[i].cluster == clusters[j].cluster && clusters[i].cluster != ""
    {
      BecomesActiveExactly(spec, clusters[i], cfg);
      BecomesActiveExactly(spec, clusters[j], cfg);
    }
  }

  predicate SamePlace(a: Identity, b: Identity) {
    a.region == b.region && a.cluster == b.cluster
  }

  /** A policy that names both excludes exactly when no two clusters share both. */
  lemma SourceConstraintsExclude(clusters: seq<Identity>, cfg: Config)
    requires cfg != []
    ensures (forall spec: PolicySpec | KnownMode(spec) && spec.sourceRegion != "" && spec.sourceCluster != "" ::
               AtMostOneActive(spec, clusters, cfg))
            <==> forall i, j | 0 <= i < j < |clusters| && SamePlace(clusters[i], clusters[j]) ::
                   clusters[i].region == "" || clusters[i].cluster == ""
  {
    hide BecomesActive;
    forall i, j | 0 <= i < j < |clusters| && SamePlace(clusters[i], clusters[j])
      ensures clusters[i].region == "" || clusters[i].cluster == ""
              || !AtMostOneActive(PolicySpec("RegionBound", clusters[i].region, clusters[i].cluster), clusters, cfg)
    {
      BecomesActiveExactly(PolicySpec("RegionBound", clusters[i].region, clusters[i].cluster), clusters[i], cfg);
      BecomesActiveExactly(PolicySpec("RegionBound", clusters[i].region, clusters[i].cluster), clusters[j], cfg);
    }
    forall spec: PolicySpec, i, j |
      KnownMode(spec) && spec.sourceRegion != "" && spec.sourceCluster != "" && 0 <= i < j < |clusters|
      && BecomesActive(spec, clusters[i], cfg) && BecomesActive(spec, clusters[j], cfg)
      ensures SamePlace(clusters[i], clusters[j]) && clusters[i].region != "" && clusters[i].cluster != ""
    {
      BecomesActiveExactly(spec, clusters[i], cfg);
      BecomesActiveExactly(spec, clusters[j], cfg);
    }
  }

  /** With neither constraint a policy becomes active everywhere. */
  lemma UnconstrainedIsActiveEverywhere(spec: PolicySpec, id: Identity, cfg: Config)
    requires KnownMode(spec) && cfg != [] && spec.sourceRegion == "" && spec.sourceCluster == ""
    ensures BecomesActive(spec, id, cfg)
  {
    BecomesActiveExactly(spec, id, cfg);
  }

  /** The active cluster selects every configured controller, in order, and the others select none. */
  lemma ActiveClusterSelectsAll(spec: PolicySpec, id: Identity, cfg: Config)
    requires spec.mode == MODE_REGION_BOUND
    ensures var s := Select(spec, id, cfg);
      && |s.controllers| == (if Applies(spec, id) then |cfg| else 0)
      && forall i | 0 <= i < |s.controllers| :: s.controllers[i] == cfg[i].name
  {}

  // ---- Active mode ----

  /** Active mode without source constraints. */
  const UNCONSTRAINED := PolicySpec(MODE_ACTIVE, "", "")

  /** No controller is selected by two clusters. */
  ghost predicate NoRace(clusters: seq<Identity>, cfg: Config) {
    forall i, j, name | 0 <= i < j < |clusters| ::
      !(name in Select(UNCONSTRAINED, clusters[i], cfg).controllers
        && name in Select(UNCONSTRAINED, clusters[j], cfg).controllers)
  }

  /** No configured region is managed by two clusters. */
  ghost predicate NoOverlap(clusters: seq<Identity>, cfg: Config) {
    forall i, j, c | 0 <= i < j < |clusters| && c in cfg ::
      !(c.region in Managed(clusters[i]) && c.region in Managed(clusters[j]))
  }

  /** With distinct names, two clusters never select the same controller exactly when no configured
      region is managed twice. */
  lemma RaceFreeExactly(clusters: seq<Identity>, cfg: Config)
    requires DistinctNames(cfg)
    ensures NoRace(clusters, cfg) <==> NoOverlap(clusters, cfg)
  {
    forall i, name | 0 <= i < |clusters| {
      ActiveModeSelects(clusters[i], cfg, name);
    }
    if NoRace(clusters, cfg) {
      forall i, j, c | 0 <= i < j < |clusters| && c in cfg
        ensures !(c.region in Managed(clusters[i]) && c.region in Managed(clusters[j]))
      {
        assert !(c.name in Select(UNCONSTRAINED, clusters[i], cfg).controllers
                 && c.name in Select(UNCONSTRAINED, clusters[j], cfg).controllers);
      }
    }
    if NoOverlap(clusters, cfg) {
      forall i, j, name | 0 <= i < j < |clusters|
        ensures !(name in Select(UNCONSTRAINED, clusters[i], cfg).controllers
                  && name in Select(UNCONSTRAINED, clusters[j], cfg).controllers)
      {
        forall c, c' | c in cfg && c' in cfg && c.name == c'.name ensures c == c' {}
      }
    }
  }

  /** Everything the clusters select, one after the other. */
  function AllSelected(clusters: seq<Identity>, cfg: Config): seq<string> {
    if clusters == [] then [] else
      AllSelected(clusters[..|clusters|-1], cfg) + Select(UNCONSTRAINED, clusters[|clusters|-1], cfg).controllers
  }

  /** How often a region is claimed: as a cluster's own, and each time it is adopted. */
  function Claims(region: string, clusters: seq<Identity>): nat {
    if clusters == [] then 0 else
      var last := clusters[|clusters|-1];
      Claims(region, clusters[..|clusters|-1])
      + (if last.region == region then 1 else 0) + Times(region, last.adoptsRegions)
  }

  lemma {:induction false} DemandOfOne(c: ExternalDns, id: Identity, cfg: Config)
    requires DistinctNames(cfg)
    ensures Demand(c.name, id, cfg) ==
            if c in cfg then (if c.region == id.region then 1 else 0) + Times(c.region, id.adoptsRegions)
            else Demand(c.name, id, cfg)
    ensures (forall e | e in cfg :: e.name != c.name) ==> Demand(c.name, id, cfg) == 0
  {
    if cfg == [] {
    } else {
      var init, last := cfg[..|cfg|-1], cfg[|cfg|-1];
      assert cfg == init + [last];
      assert forall e | e in init :: e.name != last.name;
      DemandOfOne(c, id, init);
    }
  }

  /** With distinct names, the clusters together select a controller as often as its region is claimed. */
  lemma {:induction false} SelectedAsOftenAsClaimed(clusters: seq<Identity>, cfg: Config, c: ExternalDns)
    requires DistinctNames(cfg) && c in cfg
    ensures multiset(AllSelected(clusters, cfg))[c.name] == Claims(c.region, clusters)
  {
    if clusters == [] {
    } else {
      var last := clusters[|clusters|-1];
      SelectedAsOftenAsClaimed(clusters[..|clusters|-1], cfg, c);
      ActiveModeCounts(c.name, last, cfg);
      DemandOfOne(c, last, cfg);
    }
  }

  lemma {:induction false} SelectedIsConfigured(clusters: seq<Identity>, cfg: Config, name: string)
    requires name in AllSelected(clusters, cfg)
    ensures exists c :: c in cfg && c.name == name
  {
    var last := clusters[|clusters|-1];
    if name in Select(UNCONSTRAINED, last, cfg).controllers {
      ActiveModeSelects(last, cfg, name);
    } else {
      SelectedIsConfigured(clusters[..|clusters|-1], cfg, name);
    }
  }

  lemma NamesAreConfigured(cfg: Config, name: string)
    ensures name in AllNames(cfg) <==> exists c :: c in cfg && c.name == name
  {
    forall i | 0 <= i < |cfg| ensures AllNames(cfg)[i] == cfg[i].name && cfg[i] in cfg {}
    if c :| c in cfg && c.name == name {
      var i :| 0 <= i < |cfg| && cfg[i] == c;
      assert AllNames(cfg)[i] == name;
    }
  }

  /** The clusters partition the configured controllers, each selected once and by one cluster, exactly
      when every configured region is claimed once. */
  lemma PartitionExactly(clusters: seq<Identity>, cfg: Config)
    requires DistinctNames(cfg)
    ensures multiset(AllSelected(clusters, cfg)) == multiset(AllNames(cfg))
            <==> forall c | c in cfg :: Claims(c.region, clusters) == 1
  {
    var selected, all := multiset(AllSelected(clusters, cfg)), multiset(AllNames(cfg));
    forall c | c in cfg
      ensures selected[c.name] == Claims(c.region, clusters) && all[c.name] == 1
    {
      SelectedAsOftenAsClaimed(clusters, cfg, c);
      NamedOnce(cfg, c);
    }
    if forall c | c in cfg :: Claims(c.region, clusters) == 1 {
      forall name ensures selected[name] == all[name] {
        if name in AllSelected(clusters, cfg) {
          SelectedIsConfigured(clusters, cfg, name);
        }
        NamesAreConfigured(cfg, name);
      }
    }
  }

  lemma {:induction false} NamedOnce(cfg: Config, c: ExternalDns)
    requires DistinctNames(cfg) && c in cfg
    ensures multiset(AllNames(cfg))[c.name] == 1
  {
    var init, last := cfg[..|cfg|-1], cfg[|cfg|-1];
    assert cfg == init + [last];
    assert AllNames(cfg) == AllNames(init) + [last.name];
    if c == last {
      assert c.name !in AllNames(init);
    } else {
      NamedOnce(init, c);
    }
  }

  // ---- takeover of a route under RegionBound mode ----

  /** One cluster's part in a shared route: its identity, its copy of the policy, the Gateway if it has
      one, and its DNSEndpoints. */
  datatype Site = Site(id: Identity, policy: Policy, gateway: Option<GatewaySpec>, endpoints: Endpoints)

  /** What the route controller decides at a site once the policy controller ran there. */
  function SiteDecision(site: Site, route: Key, spec: RouteSpec, cfg: Config): Decision {
    var status := Reconciled(site.policy, Some(site.id), Some(cfg)).status;
    Decide(route, View(Some(spec), Some(status.selection), Some(cfg), site.gateway, Some(site.id)))
  }

  /** The endpoints of the site after both ran. */
  ghost function SiteAfter(site: Site, route: Key, spec: RouteSpec, cfg: Config): Endpoints {
    Effect(route, SiteDecision(site, route, spec, cfg), site.endpoints)
  }

  /** An endpoint of the route for a controller. */
  predicate EndpointServes(route: Key, name: string, k: Key, m: Endpoints) {
    k in m && BelongsTo(route, m[k].labels) && Label(m[k].labels, Controller) == name
  }

  /** Wherever the stores stood, once every cluster reconciled its policy and then the route, each
      configured controller has exactly one endpoint for the route across all clusters, it is in the
      source cluster, and no other endpoint of the route is left anywhere. */
  lemma Takeover(sites: seq<Site>, source: nat, route: Key, spec: RouteSpec, policy: PolicySpec, cfg: Config)
    requires source < |sites| && ValidRoute(spec) && ValidPolicy(policy, cfg) && policy.mode == MODE_REGION_BOUND
    requires forall i | 0 <= i < |sites| :: sites[i].policy.spec == policy && AllWellFormed(sites[i].endpoints)
    requires forall i | 0 <= i < |sites| :: Applies(policy, sites[i].id) <==> i == source
    requires sites[source].gateway.Some?
    requires !Blocked(route, SiteDecision(sites[source], route, spec, cfg), sites[source].endpoints)
    ensures forall name | name in AllNames(cfg) ::
              EndpointServes(route, name, EndpointKey(route, name), SiteAfter(sites[source], route, spec, cfg))
    ensures forall i, k | 0 <= i < |sites| ::
              var m := SiteAfter(sites[i], route, spec, cfg);
              k in m && BelongsTo(route, m[k].labels) ==>
                i == source && Label(m[k].labels, Controller) in AllNames(cfg)
                && k == EndpointKey(route, Label(m[k].labels, Controller))
  {
    SourceServesAll(sites[source], route, spec, policy, cfg);
    forall i, k | 0 <= i < |sites|
      ensures var m := SiteAfter(sites[i], route, spec, cfg);
        k in m && BelongsTo(route, m[k].labels) ==>
          i == source && Label(m[k].labels, Controller) in AllNames(cfg)
          && k == EndpointKey(route, Label(m[k].labels, Controller))
    {
      if i != source {
        OthersServeNone(sites[i], route, spec, policy, cfg);
      }
    }
  }

  lemma OthersServeNone(site: Site, route: Key, spec: RouteSpec, policy: PolicySpec, cfg: Config)
    requires ValidRoute(spec) && ValidPolicy(policy, cfg) && site.policy.spec == policy
    requires !Applies(policy, site.id) && AllWellFormed(site.endpoints)
    ensures NoEndpoints(route, SiteAfter(site, route, spec, cfg))
  {}

  lemma SourceServesAll(site: Site, route: Key, spec: RouteSpec, policy: PolicySpec, cfg: Config)
    requires ValidRoute(spec) && ValidPolicy(policy, cfg) && policy.mode == MODE_REGION_BOUND
    requires site.policy.spec == policy && Applies(policy, site.id) && site.gateway.Some?
    requires AllWellFormed(site.endpoints)
    requires !Blocked(route, SiteDecision(site, route, spec, cfg), site.endpoints)
    ensures ServesExactly(route, AllNames(cfg), SiteAfter(site, route, spec, cfg))
  {
    var controllers := ControllerMap(cfg);
    var hosts := HostsOf(spec, site.gateway.value, site.id);
    SourceWantsAll(site, route, spec, policy, cfg);
    ControllerMapMeaning(cfg);
    forall name | name in Names(AllNames(cfg)) ensures name in controllers {
      NamesAreConfigured(cfg, name);
    }
    assert AllNames(cfg)[0] == cfg[0].name;
    ListServesExactly(route, controllers, AllNames(cfg), hosts, site.endpoints);
  }

  lemma SourceWantsAll(site: Site, route: Key, spec: RouteSpec, policy: PolicySpec, cfg: Config)
    requires ValidRoute(spec) && ValidPolicy(policy, cfg) && policy.mode == MODE_REGION_BOUND
    requires site.policy.spec == policy && Applies(policy, site.id) && site.gateway.Some?
    ensures SiteDecision(site, route, spec, cfg)
            == Wanted(BuildAll(route, ControllerMap(cfg), AllNames(cfg), HostsOf(spec, site.gateway.value, site.id)))
  {}

  /** The named controllers have an endpoint of the route each, under its key, and no other one has any. */
  ghost predicate ServesExactly(route: Key, names: seq<string>, m: Endpoints) {
    && (forall name | name in names :: EndpointServes(route, name, EndpointKey(route, name), m))
    && (forall k | k in m && BelongsTo(route, m[k].labels) ::
          Label(m[k].labels, Controller) in names && k == EndpointKey(route, Label(m[k].labels, Controller)))
  }

  lemma GoalServes(route: Key, controllers: map<string, ExternalDns>, names: seq<string>, hosts: Hosts, m: Endpoints)
    requires forall n | n in controllers :: controllers[n].name == n
    requires Names(names) <= controllers.Keys && AllWellFormed(m)
    requires !Clash(OwnScope(route), Desired(route, controllers, Names(names), hosts), m)
    ensures ServesExactly(route, names, Goal(OwnScope(route), Desired(route, controllers, Names(names), hosts), m))
  {
    var scope, desired := OwnScope(route), Desired(route, controllers, Names(names), hosts);
    BuiltIsWellFormed(route, controllers, Names(names), hosts);
    GoalIsWellFormed(scope, desired, m);
    GoalMeaning(scope, desired, m);
    var g := Goal(scope, desired, m);
    forall name | name in names ensures EndpointServes(route, name, EndpointKey(route, name), g) {
      var k := EndpointKey(route, name);
      assert k in desired && Selects(scope, k, g[k]);
      assert WellFormed(k, g[k]);
      KeyNamesController(route, name);
      KeyNamesController(route, g[k].labels[Controller]);
    }
    forall k | k in g && BelongsTo(route, g[k].labels)
      ensures Label(g[k].labels, Controller) in names && k == EndpointKey(route, Label(g[k].labels, Controller))
    {
      assert WellFormed(k, g[k]);
      assert Selects(scope, k, g[k]);
      var n :| n in Names(names) && n in controllers && k == EndpointKey(route, n);
      KeyNamesController(route, n);
      KeyNamesController(route, g[k].labels[Controller]);
    }
  }

  /** Reconciling towards a list of configured controllers leaves the route one endpoint for each and no
      other exactly when the list names one, or the route had no endpoint: an empty list deletes nothing. */
  lemma ListServesExactly(route: Key, controllers: map<string, ExternalDns>, names: seq<string>, hosts: Hosts,
                          m: Endpoints)
    requires forall n | n in controllers :: controllers[n].name == n
    requires Names(names) <= controllers.Keys && AllWellFormed(m)
    requires var list := BuildAll(route, controllers, names, hosts);
      !Clash(Scope(route, NamespacesOf(list)), ByKey(list), m)
    ensures var list := BuildAll(route, controllers, names, hosts);
      ServesExactly(route, names, Goal(Scope(route, NamespacesOf(list)), ByKey(list), m))
      <==> names != [] || NoEndpoints(route, m)
  {
    BuildAllNamespaces(route, controllers, names, hosts);
    if names == [] {
      assert Goal(Scope(route, {}), map[], m) == m;
    } else {
      assert names[0] in Names(names);
      GoalServes(route, controllers, names, hosts, m);
    }
  }

  lemma GoalIsWellFormed(scope: Scope, desired: Endpoints, m: Endpoints)
    requires AllWellFormed(m) && WellFormedFor(scope.route, desired) && !Clash(scope, desired, m)
    ensures AllWellFormed(Goal(scope, desired, m))
  {
    var g := Goal(scope, desired, m);
    forall k | k in g && RouteEndpoint(g[k]) ensures WellFormed(k, g[k]) {
      if k in Missing(scope, desired, m) && k in m {
        assert Selects(scope, k, m[k]);
        assert WellFormed(k, m[k]);
      }
    }
  }
}
