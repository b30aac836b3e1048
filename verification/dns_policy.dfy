/** The DNSPolicy controller: whether a policy applies to this cluster, and which ExternalDNS controllers
    it activates. */
module DnsPolicyController {
  import opened Objects
  import opened ApiServer

  predicate ValidPolicy(spec: PolicySpec, cfg: Config) {
    (spec.mode == MODE_ACTIVE || spec.mode == MODE_REGION_BOUND) && cfg != []
  }

  predicate Applies(spec: PolicySpec, id: Identity) {
    && (spec.sourceRegion != "" ==> spec.sourceRegion == id.region)
    && (spec.sourceCluster != "" ==> spec.sourceCluster == id.cluster)
  }

  /** The names configured for a region, in order. */
  function NamesFor(cfg: Config, region: string): seq<string> {
    if cfg == [] then [] else
      var last := cfg[|cfg|-1];
      NamesFor(cfg[..|cfg|-1], region) + if last.region == region then [last.name] else []
  }

  function NamesForAll(cfg: Config, regions: seq<string>): seq<string> {
    if regions == [] then [] else
      NamesForAll(cfg, regions[..|regions|-1]) + NamesFor(cfg, regions[|regions|-1])
  }

  function AllNames(cfg: Config): seq<string> {
    seq(|cfg|, i requires 0 <= i < |cfg| => cfg[i].name)
  }

  /** Active mode, without the filter on existing regions: the cluster's own region, then each adopted one. */
  function ActiveNames(id: Identity, cfg: Config): seq<string> {
    NamesFor(cfg, id.region) + NamesForAll(cfg, id.adoptsRegions)
  }

  function ControllersFor(spec: PolicySpec, id: Identity, cfg: Config): seq<string> {
    if spec.mode == MODE_ACTIVE then ActiveNames(id, cfg) else AllNames(cfg)
  }

  /** What a valid policy selects in this cluster. */
  function Select(spec: PolicySpec, id: Identity, cfg: Config): Selection {
    if Applies(spec, id) then Selection(true, ControllersFor(spec, id, cfg)) else Selection(false, [])
  }

  // ---- the selection loops ----

  method CollectNames(cfg: Config, region: string, start: seq<string>) returns (names: seq<string>)
    ensures names == start + NamesFor(cfg, region)
  {
    names := start;
    for i := 0 to |cfg|
      invariant names == start + NamesFor(cfg[..i], region)
    {
      assert cfg[..i+1][..i] == cfg[..i];
      if cfg[i].region == region {
        names := names + [cfg[i].name];
      }
    }
    assert cfg[..|cfg|] == cfg;
  }

  /** The regions with a controller. */
  function RegionsOf(cfg: Config): set<string> {
    set c | c in cfg :: c.region
  }

  method ExistingRegions(cfg: Config) returns (regions: set<string>)
    ensures regions == RegionsOf(cfg)
  {
    regions := {};
    for i := 0 to |cfg|
      invariant regions == RegionsOf(cfg[..i])
    {
      assert cfg[..i+1] == cfg[..i] + [cfg[i]];
      regions := regions + {cfg[i].region};
    }
    assert cfg[..|cfg|] == cfg;
  }

  /** A region contributes a name exactly when it is configured. */
  lemma {:induction false} ContributesWhenConfigured(cfg: Config, region: string)
    ensures NamesFor(cfg, region) != [] <==> region in RegionsOf(cfg)
  {
    if cfg == [] {
    } else {
      var init, last := cfg[..|cfg|-1], cfg[|cfg|-1];
      assert cfg == init + [last];
      ContributesWhenConfigured(init, region);
      assert RegionsOf(cfg) == RegionsOf(init) + {last.region};
    }
  }

  method ActiveModeControllers(id: Identity, cfg: Config) returns (names: seq<string>)
    ensures names == ActiveNames(id, cfg)
  {
    names := CollectNames(cfg, id.region, []);
    ghost var own := names;
    if |id.adoptsRegions| > 0 {
      var existing := ExistingRegions(cfg);
      for i := 0 to |id.adoptsRegions|
        invariant names == own + NamesForAll(cfg, id.adoptsRegions[..i])
      {
        assert id.adoptsRegions[..i+1][..i] == id.adoptsRegions[..i];
        ContributesWhenConfigured(cfg, id.adoptsRegions[i]);
        if id.adoptsRegions[i] in existing {
          names := CollectNames(cfg, id.adoptsRegions[i], names);
        }
      }
      assert id.adoptsRegions[..|id.adoptsRegions|] == id.adoptsRegions;
    }
  }

  method RegionBoundModeControllers(cfg: Config) returns (names: seq<string>)
    ensures names == AllNames(cfg)
  {
    names := [];
    for i := 0 to |cfg|
      invariant names == AllNames(cfg[..i])
    {
      assert AllNames(cfg[..i+1]) == AllNames(cfg[..i]) + [cfg[i].name];
      names := names + [cfg[i].name];
    }
    assert cfg[..|cfg|] == cfg;
  }

  method DetermineActiveControllers(spec: PolicySpec, id: Identity, cfg: Config) returns (names: seq<string>)
    ensures names == ControllersFor(spec, id, cfg)
  {
    if spec.mode == MODE_ACTIVE {
      names := ActiveModeControllers(id, cfg);
    } else {
      names := RegionBoundModeControllers(cfg);
    }
  }

  // ---- Active mode as a multiset ----

  function Times(region: string, regions: seq<string>): nat {
    multiset(regions)[region]
  }

  /** How often a name should be selected: for each entry with that name, once if its region is the
      cluster's, plus once for each time its region is adopted. */
  function Demand(name: string, id: Identity, cfg: Config): nat {
    if cfg == [] then 0 else
      var last := cfg[|cfg|-1];
      Demand(name, id, cfg[..|cfg|-1])
      + if last.name == name
        then (if last.region == id.region then 1 else 0) + Times(last.region, id.adoptsRegions)
        else 0
  }

  /** Active mode selects each name exactly as often as it is demanded. */
  lemma {:induction false} ActiveModeCounts(name: string, id: Identity, cfg: Config)
    ensures multiset(ActiveNames(id, cfg))[name] == Demand(name, id, cfg)
  {
    if cfg == [] {
      AdoptedFromNothing(id.adoptsRegions);
    } else {
      var init, last := cfg[..|cfg|-1], cfg[|cfg|-1];
      ActiveModeCounts(name, id, init);
      AdoptedCounts(name, cfg, id.adoptsRegions);
    }
  }

  lemma {:induction false} AdoptedFromNothing(regions: seq<string>)
    ensures NamesForAll([], regions) == []
  {
    if regions != [] { AdoptedFromNothing(regions[..|regions|-1]); }
  }

  lemma {:induction false} AdoptedCounts(name: string, cfg: Config, regions: seq<string>)
    requires cfg != []
    ensures var last := cfg[|cfg|-1];
      multiset(NamesForAll(cfg, regions))[name]
      == multiset(NamesForAll(cfg[..|cfg|-1], regions))[name]
         + if last.name == name then Times(last.region, regions) else 0
  {
    if regions == [] {
    } else {
      var init := regions[..|regions|-1];
      assert regions == init + [regions[|regions|-1]];
      AdoptedCounts(name, cfg, init);
    }
  }

  lemma {:induction false} NamesForIn(cfg: Config, region: string, name: string)
    ensures name in NamesFor(cfg, region) <==> exists c :: c in cfg && c.name == name && c.region == region
  {
    if cfg == [] {
    } else {
      var init, last := cfg[..|cfg|-1], cfg[|cfg|-1];
      assert cfg == init + [last];
      NamesForIn(init, region, name);
      if c :| c in init && c.name == name && c.region == region { assert c in cfg; }
      if last.region == region && last.name == name { assert last in cfg; }
    }
  }

  lemma {:induction false} NamesForAllIn(cfg: Config, regions: seq<string>, name: string)
    ensures name in NamesForAll(cfg, regions) <==> exists c :: c in cfg && c.name == name && c.region in regions
  {
    if regions == [] {
    } else {
      var init, last := regions[..|regions|-1], regions[|regions|-1];
      assert regions == init + [last];
      NamesForAllIn(cfg, init, name);
      NamesForIn(cfg, last, name);
      if c :| c in cfg && c.name == name && c.region in regions {
        assert c.region in init || c.region == last;
      }
    }
  }

  /** The regions a cluster manages in Active mode. */
  function Managed(id: Identity): set<string> {
    {id.region} + set r | r in id.adoptsRegions
  }

  /** Active mode selects the controllers of the managed regions. */
  lemma ActiveModeSelects(id: Identity, cfg: Config, name: string)
    ensures name in ActiveNames(id, cfg) <==> exists c :: c in cfg && c.name == name && c.region in Managed(id)
  {
    NamesForIn(cfg, id.region, name);
    NamesForAllIn(cfg, id.adoptsRegions, name);
    if c :| c in cfg && c.name == name && c.region in Managed(id) {
      assert c.region == id.region || c.region in id.adoptsRegions;
    }
  }

  // ---- the whole reconciliation ----

  /** The status a reconciliation writes. Only an applicable or an inapplicable policy gets a new
      selection; while waiting, or when invalid, the policy keeps the old one. */
  function PolicyStatusAfter(p: Policy, id: Option<Identity>, cfg: Option<Config>): PolicyStatus {
    if id.None? then p.status.(reason := ClusterIdentityNotAvailable)
    else if cfg.None? then p.status.(reason := DNSConfigurationNotAvailable)
    else if !ValidPolicy(p.spec, cfg.value) then p.status.(reason := ValidationFailed)
    else if !Applies(p.spec, id.value) then p.status.(selection := Selection(false, []), reason := PolicyInactive)
    else
      PolicyStatus(PhaseActive, Selection(true, ControllersFor(p.spec, id.value, cfg.value)), ReconciliationSucceeded)
  }

  function Reconciled(p: Policy, id: Option<Identity>, cfg: Option<Config>): Policy {
    p.(status := PolicyStatusAfter(p, id, cfg))
  }

  /** With identity and configuration there, a policy of a known mode becomes active exactly when each
      constraint it has is met by the cluster. */
  lemma ActiveExactly(p: Policy, id: Identity, cfg: Config)
    requires (p.spec.mode == "Active" || p.spec.mode == "RegionBound") && cfg != []
    ensures Reconciled(p, Some(id), Some(cfg)).status.selection.active <==>
            && (p.spec.sourceRegion == "" || p.spec.sourceRegion == id.region)
            && (p.spec.sourceCluster == "" || p.spec.sourceCluster == id.cluster)
  {}

  /** While something is missing, and when it is invalid, a policy keeps its phase and its selection, and the
      reason is the first of these. */
  lemma UnreadyPolicyKeepsSelection(p: Policy, id: Option<Identity>, cfg: Option<Config>)
    requires id.None? || cfg.None? || cfg.value == [] || (p.spec.mode != "Active" && p.spec.mode != "RegionBound")
    ensures Reconciled(p, id, cfg) ==
            Policy(p.spec, PolicyStatus(p.status.phase, p.status.selection,
                                        if id.None? then ClusterIdentityNotAvailable
                                        else if cfg.None? then DNSConfigurationNotAvailable else ValidationFailed))
  {}

  /** A policy that does not become active selects nothing and keeps its phase. */
  lemma InactivePolicySelectsNothing(p: Policy, id: Identity, cfg: Config)
    requires (p.spec.mode == "Active" || p.spec.mode == "RegionBound") && cfg != []
    requires (p.spec.sourceRegion != "" && p.spec.sourceRegion != id.region)
             || (p.spec.sourceCluster != "" && p.spec.sourceCluster != id.cluster)
    ensures Reconciled(p, Some(id), Some(cfg))
            == Policy(p.spec, PolicyStatus(p.status.phase, Selection(false, []), PolicyInactive))
  {}

  // ---- the order of the selection ----

  /** Positions in a list, in their order. */
  ghost predicate Increasing(positions: seq<nat>, n: nat) {
    && (forall i | 0 <= i < |positions| :: positions[i] < n)
    && (forall i, j | 0 <= i < j < |positions| :: positions[i] < positions[j])
  }

  /** The names of the entries at some positions. */
  ghost predicate NamesAt(names: seq<string>, cfg: Config, positions: seq<nat>) {
    && |names| == |positions| && Increasing(positions, |cfg|)
    && forall i | 0 <= i < |names| :: names[i] == cfg[positions[i]].name
  }

  /** The names of the entries of a region, in the order they are configured. */
  ghost predicate PartOf(names: seq<string>, cfg: Config, region: string) {
    exists positions: seq<nat> ::
      && NamesAt(names, cfg, positions)
      && forall i: nat | i < |cfg| :: i in positions <==> cfg[i].region == region
  }

  /** What a region contributes are the names of its entries, in the order they are configured. */
  lemma {:induction false} NamesForInOrder(cfg: Config, region: string) returns (positions: seq<nat>)
    ensures NamesAt(NamesFor(cfg, region), cfg, positions)
    ensures forall i: nat | i < |cfg| :: i in positions <==> cfg[i].region == region
  {
    if cfg == [] {
      positions := [];
    } else {
      var n := |cfg| - 1;
      positions := NamesForInOrder(cfg[..n], region);
      if cfg[n].region == region {
        positions := positions + [n];
      }
    }
  }

  lemma RegionIsPart(cfg: Config, region: string)
    ensures PartOf(NamesFor(cfg, region), cfg, region)
  {
    var positions := NamesForInOrder(cfg, region);
  }

  function Joined(parts: seq<seq<string>>): seq<string> {
    if parts == [] then [] else Joined(parts[..|parts|-1]) + parts[|parts|-1]
  }

  function Parts(cfg: Config, regions: seq<string>): seq<seq<string>> {
    seq(|regions|, i requires 0 <= i < |regions| => NamesFor(cfg, regions[i]))
  }

  lemma {:induction false} PartsJoin(cfg: Config, regions: seq<string>)
    ensures Joined(Parts(cfg, regions)) == NamesForAll(cfg, regions)
  {
    if regions != [] {
      var init := regions[..|regions|-1];
      PartsJoin(cfg, init);
      assert Parts(cfg, regions)[..|regions|-1] == Parts(cfg, init);
    }
  }

  /** An active policy in Active mode lists the controllers of the cluster's own region first and then those of
      each adopted region, region by region, each in the order of the configuration. */
  lemma {:induction false} ActiveModeInOrder(p: Policy, id: Identity, cfg: Config)
    returns (own: seq<string>, parts: seq<seq<string>>)
    requires p.spec.mode == "Active" && cfg != []
    requires Reconciled(p, Some(id), Some(cfg)).status.selection.active
    ensures Reconciled(p, Some(id), Some(cfg))
            == Policy(p.spec, PolicyStatus(PhaseActive, Selection(true, own + Joined(parts)), ReconciliationSucceeded))
    ensures PartOf(own, cfg, id.region) && |parts| == |id.adoptsRegions|
    ensures forall i | 0 <= i < |parts| :: PartOf(parts[i], cfg, id.adoptsRegions[i])
  {
    own, parts := NamesFor(cfg, id.region), Parts(cfg, id.adoptsRegions);
    PartsJoin(cfg, id.adoptsRegions);
    forall region ensures PartOf(NamesFor(cfg, region), cfg, region) {
      RegionIsPart(cfg, region);
    }
  }

  /** In RegionBound mode it lists them all, in the order of the configuration. */
  lemma RegionBoundModeInOrder(p: Policy, id: Identity, cfg: Config) returns (names: seq<string>)
    requires p.spec.mode == "RegionBound" && cfg != []
    requires Reconciled(p, Some(id), Some(cfg)).status.selection.active
    ensures Reconciled(p, Some(id), Some(cfg))
            == Policy(p.spec, PolicyStatus(PhaseActive, Selection(true, names), ReconciliationSucceeded))
    ensures |names| == |cfg| && forall i | 0 <= i < |cfg| :: names[i] == cfg[i].name
  {
    names := AllNames(cfg);
  }

  /** Reconciles a policy. `id` and `cfg` are what the two Fetch helpers returned. */
  method Reconcile(api: Cluster, k: Key, id: Option<Identity>, cfg: Option<Config>) returns (r: Outcome)
    modifies api`policies, api`faults
    ensures r == Ok || r == Fault
    ensures api.faults == old(api.faults) + (if r == Fault then 1 else 0)
    ensures api.policies == if r == Ok && k in old(api.policies)
                            then old(api.policies)[k := Reconciled(old(api.policies)[k], id, cfg)]
                            else old(api.policies)
  {
    if k !in api.policies { return Ok; }
    var status := api.policies[k].status;
    var spec := api.policies[k].spec;
    if id.None? {
      status := status.(reason := ClusterIdentityNotAvailable);
    } else if cfg.None? {
      status := status.(reason := DNSConfigurationNotAvailable);
    } else if !ValidPolicy(spec, cfg.value) {
      status := status.(reason := ValidationFailed);
    } else if !Applies(spec, id.value) {
      status := status.(selection := Selection(false, []));
      status := status.(reason := PolicyInactive);
    } else {
      var controllers := DetermineActiveControllers(spec, id.value, cfg.value);
      status := status.(phase := PhaseActive);
      status := status.(selection := Selection(true, controllers));
      status := status.(reason := ReconciliationSucceeded);
    }
    r := api.UpdatePolicyStatus(k, status);
  }
}
