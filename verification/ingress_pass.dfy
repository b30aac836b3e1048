/** What one pass of the IngressDNS controller achieves, and when a second pass has nothing left to do. */
module IngressPass {
  import opened Objects
  import opened GatewayController
  import opened IngressDnsController

  /** Two records under one name ask for the same content. */
  ghost predicate ClashFree(list: seq<Named>) {
    forall a, b | a in list && b in list && a.key == b.key :: a.body.spec == b.body.spec
  }

  /** No record is due. */
  ghost predicate Quiet(m: Endpoints, list: seq<Named>)
    requires Records(list)
  {
    forall n | n in list :: !Due(m, n)
  }

  /** At most one load balancer service per Istio controller. */
  ghost predicate UniqueBalancers(services: map<Key, Service>) {
    forall j, k, controller | j in services && k in services ::
      Serves(services[j], controller) && Serves(services[k], controller) ==> j == k
  }

  lemma RecordsInit(list: seq<Named>)
    requires Records(list) && list != []
    ensures Records(list[..|list|-1]) && list[|list|-1] in list
    ensures forall n | n in list[..|list|-1] :: n in list
    ensures forall n | n in list :: n in list[..|list|-1] || n == list[|list|-1]
  {}

  lemma {:induction false} NoWritesIsQuiet(m: Endpoints, list: seq<Named>)
    requires Records(list)
    ensures WritesFor(m, list) == 0 <==> Quiet(m, list)
    ensures Quiet(m, list) ==> UpsertAll(m, list) == m
  {
    if list == [] {
    } else {
      RecordsInit(list);
      NoWritesIsQuiet(m, list[..|list|-1]);
    }
  }

  lemma {:induction false} UnwantedKept(m: Endpoints, list: seq<Named>, k: Key)
    requires Records(list) && forall n | n in list :: n.key != k
    ensures Lookup(UpsertAll(m, list), k) == Lookup(m, k)
  {
    if list == [] {
    } else {
      RecordsInit(list);
      UnwantedKept(m, list[..|list|-1], k);
    }
  }

  /** A wanted key holds the endpoint it held before, or one with spec and labels of a record for it. */
  lemma {:induction false} WantedHeld(m: Endpoints, list: seq<Named>, k: Key)
    requires Records(list) && exists n :: n in list && n.key == k
    ensures var u := UpsertAll(m, list);
      k in u && ((k in m && u[k] == m[k])
                 || exists n :: n in list && n.key == k && u[k].spec == n.body.spec && u[k].labels == n.body.labels)
  {
    RecordsInit(list);
    var init, last := list[..|list|-1], list[|list|-1];
    if exists n :: n in init && n.key == k {
      WantedHeld(m, init, k);
    } else {
      UnwantedKept(m, init, k);
    }
  }

  /** After the upserts no record is due, unless two of one name disagree. */
  lemma {:induction false} UpsertsQuieten(m: Endpoints, list: seq<Named>)
    requires Records(list) && ClashFree(list)
    ensures Quiet(UpsertAll(m, list), list)
  {
    if list == [] {
    } else {
      RecordsInit(list);
      var init, last := list[..|list|-1], list[|list|-1];
      UpsertsQuieten(m, init);
      var u := UpsertAll(m, init);
      forall n | n in list ensures !Due(Upserted(u, last), n) {
        if n.key == last.key {
          assert n.body.spec == last.body.spec;
        } else {
          assert n in init && !Due(u, n);
        }
      }
    }
  }

  /** An endpoint with one A record and one target, as this controller writes them. */
  predicate OneAddress(e: Endpoint) {
    |e.spec| == 1 && |e.spec[0].targets| == 1 && e.spec[0].recordType == A && e.spec[0].ttl == 300
  }

  /** Among such endpoints the test on first name and first target is exact. */
  lemma AddressTestIsExact(existing: Endpoint, wanted: Endpoint)
    requires OneAddress(existing) && OneAddress(wanted)
    ensures !NeedsUpdate(existing, wanted) <==> existing.spec == wanted.spec
  {
    assert existing.spec == [existing.spec[0]] && wanted.spec == [wanted.spec[0]];
    assert existing.spec[0].targets == [existing.spec[0].targets[0]];
    assert wanted.spec[0].targets == [wanted.spec[0].targets[0]];
  }

  /** Conversely two records of one name that disagree are never both satisfied. */
  lemma QuietIsClashFree(m: Endpoints, list: seq<Named>)
    requires Records(list) && Quiet(m, list)
    ensures ClashFree(list)
  {
    forall a, b | a in list && b in list && a.key == b.key ensures a.body.spec == b.body.spec {
      assert !Due(m, a) && !Due(m, b);
      AddressTestIsExact(a.body, b.body);
    }
  }

  lemma {:induction false} AllRecordsMember(order: seq<GatewayConfig>, choice: map<GatewayConfig, Option<Key>>,
                                            services: map<Key, Service>, id: Identity, cfg: Config, n: Named)
    requires forall c | c in order :: c in choice
    ensures n in AllRecords(order, choice, services, id, cfg) <==>
            exists c :: c in order && n in RecordsFor(c, services, choice[c], id, cfg)
  {
    if order == [] {
    } else {
      var init, last := order[..|order|-1], order[|order|-1];
      assert order == init + [last];
      AllRecordsMember(init, choice, services, id, cfg, n);
    }
  }

  /** The records of a plan. */
  function PlanRecords(plan: Plan, services: map<Key, Service>, id: Identity, cfg: Config): seq<Named> {
    AllRecords(plan.order, plan.choice, services, id, cfg)
  }

  lemma PlanRecordsAreRecords(plan: Plan, active: set<GatewayConfig>, services: map<Key, Service>, id: Identity,
                              cfg: Config)
    requires IsPlan(plan, active, services)
    ensures var list := PlanRecords(plan, services, id, cfg);
      Records(list) && forall n | n in list :: LabelledConfig(n.body) in active
    ensures forall c, n | c in active && n in RecordsFor(c, services, plan.choice[c], id, cfg) ::
              n in PlanRecords(plan, services, id, cfg)
  {
    AllRecordsAreRecords(plan.order, plan.choice, services, id, cfg);
    assert forall c | c in plan.order :: c in Members(plan.order);
    forall c, n | c in active && n in RecordsFor(c, services, plan.choice[c], id, cfg)
      ensures n in PlanRecords(plan, services, id, cfg)
    {
      assert c in Members(plan.order);
      AllRecordsMember(plan.order, plan.choice, services, id, cfg, n);
    }
  }

  /** With one load balancer per controller, every pass finds the same services. */
  lemma SameServicesFound(p: Plan, q: Plan, active: set<GatewayConfig>, services: map<Key, Service>)
    requires IsPlan(p, active, services) && IsPlan(q, active, services) && UniqueBalancers(services)
    ensures p.choice == q.choice
  {}

  /** Plans that found the same services differ only in their order. */
  lemma PlansAgree(p: Plan, q: Plan, active: set<GatewayConfig>, services: map<Key, Service>, id: Identity, cfg: Config)
    requires IsPlan(p, active, services) && IsPlan(q, active, services) && p.choice == q.choice
    ensures forall n :: n in PlanRecords(p, services, id, cfg) <==> n in PlanRecords(q, services, id, cfg)
  {
    forall n ensures n in PlanRecords(p, services, id, cfg) <==> n in PlanRecords(q, services, id, cfg) {
      assert forall c :: c in p.order <==> c in Members(p.order);
      assert forall c :: c in q.order <==> c in Members(q.order);
      AllRecordsMember(p.order, p.choice, services, id, cfg, n);
      AllRecordsMember(q.order, q.choice, services, id, cfg, n);
    }
  }

  /** The store after a pass. */
  ghost function After(m: Endpoints, plan: Plan, active: set<GatewayConfig>, services: map<Key, Service>,
                       id: Identity, cfg: Config): Endpoints
    requires IsPlan(plan, active, services)
  {
    PlanRecordsAreRecords(plan, active, services, id, cfg);
    UpsertAll(Swept(m, ScannedNamespaces(services), active), PlanRecords(plan, services, id, cfg))
  }

  /** A pass is exact. What is no record of an active configuration goes exactly if it is an orphan, and
      is otherwise unchanged; and every record is there with its name and address, if no names clash. */
  lemma PassIsExact(m: Endpoints, plan: Plan, active: set<GatewayConfig>, services: map<Key, Service>, id: Identity,
                    cfg: Config)
    requires IsPlan(plan, active, services)
    ensures var list, u := PlanRecords(plan, services, id, cfg), After(m, plan, active, services, id, cfg);
      && (forall k | (forall n | n in list :: n.key != k) ::
            Lookup(u, k) ==
            if k in m && Orphan(k, m[k], ScannedNamespaces(services), active) then None else Lookup(m, k))
      && Records(list)
      && (ClashFree(list) ==> forall n | n in list :: !Due(u, n))
  {
    PlanRecordsAreRecords(plan, active, services, id, cfg);
    var list, u := PlanRecords(plan, services, id, cfg), After(m, plan, active, services, id, cfg);
    var swept := Swept(m, ScannedNamespaces(services), active);
    forall k | (forall n | n in list :: n.key != k)
      ensures Lookup(u, k) ==
              if k in m && Orphan(k, m[k], ScannedNamespaces(services), active) then None else Lookup(m, k)
    {
      UnwantedKept(swept, list, k);
    }
    if ClashFree(list) {
      UpsertsQuieten(swept, list);
    }
  }

  /** On endpoints this controller wrote, a pass leaves every record exactly as wanted, if no names clash. */
  lemma PassLeavesRecords(m: Endpoints, plan: Plan, active: set<GatewayConfig>, services: map<Key, Service>,
                          id: Identity, cfg: Config, n: Named)
    requires IsPlan(plan, active, services) && n in PlanRecords(plan, services, id, cfg)
    requires ClashFree(PlanRecords(plan, services, id, cfg)) && (n.key in m ==> OneAddress(m[n.key]))
    ensures var u := After(m, plan, active, services, id, cfg); n.key in u && u[n.key].spec == n.body.spec
  {
    PlanRecordsAreRecords(plan, active, services, id, cfg);
    var list, swept := PlanRecords(plan, services, id, cfg), Swept(m, ScannedNamespaces(services), active);
    WantedHeld(swept, list, n.key);
    UpsertsQuieten(swept, list);
    var u := UpsertAll(swept, list);
    if n.key in swept && u[n.key] == swept[n.key] {
      assert !Due(u, n);
      AddressTestIsExact(u[n.key], n.body);
    }
  }

  /** After a pass no orphan is left in the scanned namespaces. */
  lemma PassLeavesNoOrphans(m: Endpoints, plan: Plan, active: set<GatewayConfig>, services: map<Key, Service>,
                            id: Identity, cfg: Config)
    requires IsPlan(plan, active, services)
    ensures var u := After(m, plan, active, services, id, cfg); Swept(u, ScannedNamespaces(services), active) == u
  {
    PlanRecordsAreRecords(plan, active, services, id, cfg);
    var list, u := PlanRecords(plan, services, id, cfg), After(m, plan, active, services, id, cfg);
    var scanned := ScannedNamespaces(services);
    forall k | k in u ensures !Orphan(k, u[k], scanned, active) {
      if exists n :: n in list && n.key == k {
        WantedHeld(Swept(m, scanned, active), list, k);
      } else {
        UnwantedKept(Swept(m, scanned, active), list, k);
        assert Lookup(u, k) == Lookup(Swept(m, scanned, active), k);
      }
    }
  }

  /** A pass that was refused some calls still touches nothing but orphans and records: under any other
      name the store is as before, or an orphan was removed. */
  lemma CutPassKeepsOthers(m: Endpoints, swept: Endpoints, scanned: set<string>, active: set<GatewayConfig>,
                           list: seq<Named>, k: Key)
    requires SweptSome(m, swept, scanned, active) && Records(list) && forall n | n in list :: n.key != k
    ensures Lookup(UpsertAll(swept, list), k) == Lookup(m, k)
            || (k in m && Orphan(k, m[k], scanned, active) && k !in UpsertAll(swept, list))
  {}

  /** Whatever the two passes found: after a first one whose records agree, a second one writes nothing
      exactly when its records agree with those of the first, and it has no other record that was due
      before already. */
  lemma SecondPassExactly(m: Endpoints, first: Plan, second: Plan, active: set<GatewayConfig>,
                          services: map<Key, Service>, id: Identity, cfg: Config)
    requires IsPlan(first, active, services) && IsPlan(second, active, services)
    requires ClashFree(PlanRecords(first, services, id, cfg))
    ensures var u := After(m, first, active, services, id, cfg);
      var swept := Swept(m, ScannedNamespaces(services), active);
      var list, list' := PlanRecords(first, services, id, cfg), PlanRecords(second, services, id, cfg);
      && Records(list')
      && (WritesFor(u, list') == 0 <==>
            && ClashFree(list + list')
            && forall n | n in list' && (forall o | o in list :: o.key != n.key) :: !Due(swept, n))
  {
    PlanRecordsAreRecords(first, active, services, id, cfg);
    PlanRecordsAreRecords(second, active, services, id, cfg);
    UpsertsThenUpserts(Swept(m, ScannedNamespaces(services), active), PlanRecords(first, services, id, cfg),
                       PlanRecords(second, services, id, cfg));
  }

  lemma UpsertsThenUpserts(m: Endpoints, list: seq<Named>, list': seq<Named>)
    requires Records(list) && Records(list') && ClashFree(list)
    ensures WritesFor(UpsertAll(m, list), list') == 0 <==>
            ClashFree(list + list')
            && forall n | n in list' && (forall o | o in list :: o.key != n.key) :: !Due(m, n)
  {
    var u := UpsertAll(m, list);
    NoWritesIsQuiet(u, list');
    UpsertsQuieten(m, list);
    if Quiet(u, list') {
      assert Records(list + list') && Quiet(u, list + list');
      QuietIsClashFree(u, list + list');
    }
    forall n | n in list' && (forall o | o in list :: o.key != n.key) ensures Due(u, n) <==> Due(m, n) {
      UnwantedKept(m, list, n.key);
      assert Lookup(u, n.key) == Lookup(m, n.key);
    }
    if ClashFree(list + list') {
      forall n, o | n in list' && o in list && o.key == n.key ensures !Due(u, n) {
        assert n in list + list' && o in list + list' && !Due(u, o);
      }
    }
  }

  /** A second pass that finds the same services, in whatever order, sweeps nothing, and it writes nothing
      exactly when no two records of one name disagree. */
  lemma SecondPassIsQuiet(m: Endpoints, first: Plan, second: Plan, active: set<GatewayConfig>,
                          services: map<Key, Service>,
                          id: Identity, cfg: Config)
    requires IsPlan(first, active, services) && IsPlan(second, active, services) && first.choice == second.choice
    ensures var u, list := After(m, first, active, services, id, cfg), PlanRecords(second, services, id, cfg);
      && Swept(u, ScannedNamespaces(services), active) == u && Records(list)
      && (WritesFor(u, list) == 0 <==> ClashFree(PlanRecords(first, services, id, cfg)))
      && (ClashFree(PlanRecords(first, services, id, cfg)) ==> After(u, second, active, services, id, cfg) == u)
  {
    PassLeavesNoOrphans(m, first, active, services, id, cfg);
    PlanRecordsAreRecords(first, active, services, id, cfg);
    PlanRecordsAreRecords(second, active, services, id, cfg);
    PlansAgree(first, second, active, services, id, cfg);
    var u := After(m, first, active, services, id, cfg);
    var list, list' := PlanRecords(first, services, id, cfg), PlanRecords(second, services, id, cfg);
    NoWritesIsQuiet(u, list');
    if ClashFree(list) {
      UpsertsQuieten(Swept(m, ScannedNamespaces(services), active), list);
    }
    if Quiet(u, list') {
      QuietIsClashFree(u, list');
    }
  }
}
