/** Repeated controller names: a CNAME takes its region from the last entry of a name, the A record it
    points to from the first one. */
module DnsRegions {
  import opened Objects
  import opened EndpointDiff
  import opened ServiceRouteController
  import opened RoutingRuns
  import Gateways = GatewayController
  import opened IngressDnsController
  import opened IngressPass
  import opened DnsChain

  // ---- which record of a name is written ----

  /** The first record in a list under a key. */
  function FirstFor(list: seq<Named>, k: Key): Option<Named> {
    if list == [] then None else
      var first, last := FirstFor(list[..|list|-1], k), list[|list|-1];
      if first.Some? then first else if last.key == k then Some(last) else None
  }

  lemma {:induction false} FirstForIsListed(list: seq<Named>, k: Key)
    ensures FirstFor(list, k).Some? <==> exists n :: n in list && n.key == k
    ensures FirstFor(list, k).Some? ==> FirstFor(list, k).value in list && FirstFor(list, k).value.key == k
  {
    if list == [] {
    } else {
      var init, last := list[..|list|-1], list[|list|-1];
      assert list == init + [last];
      FirstForIsListed(init, k);
      if n :| n in list && n.key == k {
        assert n in init || n == last;
      }
    }
  }

  lemma {:induction false} FirstForAppends(a: seq<Named>, b: seq<Named>, k: Key)
    ensures FirstFor(a + b, k) == if FirstFor(a, k).Some? then FirstFor(a, k) else FirstFor(b, k)
  {
    if b == [] {
      assert a + b == a;
    } else {
      FirstForAppends(a, b[..|b|-1], k);
      assert (a + b)[..|a + b|-1] == a + b[..|b|-1];
    }
  }

  /** Whatever the store: of several records of one name that agree on the spec, the first one is written if
      it is due, and no other one ever is. */
  lemma {:induction false} FirstRecordWins(m: Endpoints, list: seq<Named>, k: Key)
    requires Records(list) && ClashFree(list)
    ensures var first := FirstFor(list, k);
      (first.Some? ==> |first.value.body.spec| == 1 && |first.value.body.spec[0].targets| == 1 && first.value.key == k)
      && Lookup(UpsertAll(m, list), k) == if first.None? then Lookup(m, k) else Lookup(Upserted(m, first.value), k)
  {
    FirstForIsListed(list, k);
    if list == [] {
    } else {
      RecordsInit(list);
      var init, last := list[..|list|-1], list[|list|-1];
      FirstForIsListed(init, k);
      FirstRecordWins(m, init, k);
      if FirstFor(init, k).Some? && last.key == k {
        SameSpecNotDue(m, FirstFor(init, k).value, last, UpsertAll(m, init));
      }
    }
  }

  lemma SameSpecNotDue(m: Endpoints, first: Named, other: Named, u: Endpoints)
    requires |first.body.spec| == 1 && |first.body.spec[0].targets| == 1
    requires other.key == first.key && other.body.spec == first.body.spec
    requires Lookup(u, first.key) == Lookup(Upserted(m, first), first.key)
    ensures !Due(u, other)
  {}

  /** The first entry of a name in the configuration. */
  function FirstNamed(cfg: Config, name: string): Option<ExternalDns> {
    if cfg == [] then None else
      var first, last := FirstNamed(cfg[..|cfg|-1], name), cfg[|cfg|-1];
      if first.Some? then first else if last.name == name then Some(last) else None
  }

  lemma {:induction false} FirstNamedIsConfigured(cfg: Config, name: string)
    ensures FirstNamed(cfg, name).Some? <==> exists c :: c in cfg && c.name == name
    ensures FirstNamed(cfg, name).Some? ==>
              FirstNamed(cfg, name).value in cfg && FirstNamed(cfg, name).value.name == name
  {
    if cfg == [] {
    } else {
      var init, last := cfg[..|cfg|-1], cfg[|cfg|-1];
      assert cfg == init + [last];
      FirstNamedIsConfigured(init, name);
      if c :| c in cfg && c.name == name {
        assert c in init || c == last;
      }
    }
  }

  lemma RecordsOfPrefix(c: GatewayConfig, services: map<Key, Service>, service: Key, id: Identity, cfg: Config)
    requires Gateways.Address(services, Some(service)) != "" && cfg != []
    ensures var last := cfg[|cfg|-1];
      RecordsFor(c, services, Some(service), id, cfg) ==
      RecordsFor(c, services, Some(service), id, cfg[..|cfg|-1])
      + [IngressEndpoint(c, service, last, TargetHost(id, c.postfix), Gateways.Address(services, Some(service)))]
  {}

  lemma NamesTellRecordsApart(c: GatewayConfig, a: string, b: string)
    requires IngressName(c, a) == IngressName(c, b)
    ensures a == b
  {
    SuffixInjective("gateway-controller-" + c.controller + "-" + c.postfix + "-", a, b);
  }

  /** Among the records of one configuration the first of a name is that of the first entry. */
  lemma {:induction false} FirstForConfig(c: GatewayConfig, services: map<Key, Service>, service: Key, id: Identity,
                                          cfg: Config, name: string)
    requires Gateways.Address(services, Some(service)) != ""
    ensures FirstFor(RecordsFor(c, services, Some(service), id, cfg), Key(service.ns, IngressName(c, name))) ==
            match FirstNamed(cfg, name)
            case None => None
            case Some(ext) =>
              Some(IngressEndpoint(c, service, ext, TargetHost(id, c.postfix),
                                   Gateways.Address(services, Some(service))))
  {
    var list := RecordsFor(c, services, Some(service), id, cfg);
    if cfg == [] {
      assert list == [];
    } else {
      var init, last := cfg[..|cfg|-1], cfg[|cfg|-1];
      FirstForConfig(c, services, service, id, init, name);
      RecordsOfPrefix(c, services, service, id, cfg);
      assert list[..|list|-1] == RecordsFor(c, services, Some(service), id, init);
      if IngressName(c, last.name) == IngressName(c, name) {
        NamesTellRecordsApart(c, last.name, name);
      }
    }
  }

  /** Among the records of a whole plan it is the same, if only this configuration uses the name. */
  lemma {:induction false} FirstForPlan(order: seq<GatewayConfig>, choice: map<GatewayConfig, Option<Key>>,
      services: map<Key, Service>, id: Identity, cfg: Config, c: GatewayConfig, k: Key)
    requires Gateways.NoDuplicates(order) && c in order && c in choice
    requires FirstFor(RecordsFor(c, services, choice[c], id, cfg), k).Some?
    requires forall n | n in AllRecords(order, choice, services, id, cfg) && n.key == k :: LabelledConfig(n.body) == c
    ensures FirstFor(AllRecords(order, choice, services, id, cfg), k)
            == FirstFor(RecordsFor(c, services, choice[c], id, cfg), k)
    decreases |order|
  {
    var init, last := order[..|order|-1], order[|order|-1];
    assert order == init + [last];
    var before := AllRecords(init, choice, services, id, cfg);
    var more := RecordsFor(last, services, if last in choice then choice[last] else None, id, cfg);
    assert AllRecords(order, choice, services, id, cfg) == before + more;
    FirstForAppends(before, more, k);
    if last == c {
      AllRecordsAreRecords(init, choice, services, id, cfg);
      FirstForIsListed(before, k);
      assert c !in init;
      assert forall n | n in before :: n in before + more;
    } else {
      FirstForPlan(init, choice, services, id, cfg, c, k);
    }
  }

  // ---- the regions of CNAME and A record ----

  /** The record of the Gateway for an entry. */
  function RecordFor(s: Setting, ext: ExternalDns): Named
    requires Settable(s)
  {
    var service := s.plan.choice[ConfigOf(s.gateway)];
    IngressEndpoint(ConfigOf(s.gateway), service.value, ext, TargetHost(s.id, s.gateway.targetPostfix),
                    Gateways.Address(s.services, service))
  }

  /** The Gateway's service was found. */
  predicate Settable(s: Setting) {
    ConfigOf(s.gateway) in s.plan.choice && s.plan.choice[ConfigOf(s.gateway)].Some?
  }

  lemma LiveIsSettable(s: Setting)
    requires Live(s)
    ensures Settable(s)
  {}

  function RecordKey(s: Setting, name: string): Key
    requires Settable(s)
  {
    Key(s.plan.choice[ConfigOf(s.gateway)].value.ns, IngressName(ConfigOf(s.gateway), name))
  }

  /** The names of the Gateway's records are free, or what they hold is to be corrected. */
  ghost predicate AllDue(s: Setting, m: Endpoints)
    requires Settable(s)
  {
    forall ext | ext in s.cfg :: Due(m, RecordFor(s, ext))
  }

  lemma FirstInPlan(s: Setting, m: Endpoints, name: string)
    requires Live(s) && NamesApart(m, ItsRecords(s)) && FirstNamed(s.cfg, name).Some?
    ensures Settable(s)
    ensures FirstFor(ItsRecords(s), RecordKey(s, name)) == Some(RecordFor(s, FirstNamed(s.cfg, name).value))
  {
    LiveIsSettable(s);
    var c, k := ConfigOf(s.gateway), RecordKey(s, name);
    var service := s.plan.choice[c];
    FirstForConfig(c, s.services, service.value, s.id, s.cfg, name);
    var record := RecordFor(s, FirstNamed(s.cfg, name).value);
    FirstForIsListed(RecordsFor(c, s.services, service, s.id, s.cfg), k);
    PlanRecordsAreRecords(s.plan, s.configs, s.services, s.id, s.cfg);
    RecordIsFaithful(c, service.value, FirstNamed(s.cfg, name).value, TargetHost(s.id, c.postfix),
                     Gateways.Address(s.services, service), [FirstNamed(s.cfg, name).value]);
    assert record in ItsRecords(s);
    assert c in Gateways.Members(s.plan.order);
    FirstForPlan(s.plan.order, s.plan.choice, s.services, s.id, s.cfg, c, k);
  }

  /** After a pass the record of a name has the region of the first entry of the name. */
  lemma RecordRegion(s: Setting, m: Endpoints, name: string)
    requires Live(s) && NamesApart(m, ItsRecords(s)) && FirstNamed(s.cfg, name).Some?
    requires Settable(s) && AllDue(s, Swept(m, ScannedNamespaces(s.services), s.configs))
    ensures var u := AfterPass(s, m);
      RecordKey(s, name) in u && Label(u[RecordKey(s, name)].labels, Region) == FirstNamed(s.cfg, name).value.region
  {
    var swept, ext := Swept(m, ScannedNamespaces(s.services), s.configs), FirstNamed(s.cfg, name).value;
    FirstNamedIsConfigured(s.cfg, name);
    FirstInPlan(s, m, name);
    FirstRecordWins(swept, ItsRecords(s), RecordKey(s, name));
    DueIsWritten(swept, RecordFor(s, ext), AfterPass(s, m));
    RecordForRegion(s, ext);
  }

  lemma DueIsWritten(m: Endpoints, n: Named, u: Endpoints)
    requires |n.body.spec| == 1 && |n.body.spec[0].targets| == 1 && Due(m, n)
    requires Lookup(u, n.key) == Lookup(Upserted(m, n), n.key)
    ensures n.key in u && u[n.key].labels == n.body.labels
  {}

  lemma RecordForRegion(s: Setting, ext: ExternalDns)
    requires Settable(s)
    ensures RecordFor(s, ext).key == RecordKey(s, ext.name)
    ensures Label(RecordFor(s, ext).body.labels, Region) == ext.region
  {}

  /** The CNAME endpoint and the A record of a controller are in the same region. */
  ghost predicate SameRegion(s: Setting, m: Endpoints, name: string)
    requires Settable(s)
  {
    && EndpointKey(s.route, name) in m && RecordKey(s, name) in m
    && Label(m[EndpointKey(s.route, name)].labels, Region) == Label(m[RecordKey(s, name)].labels, Region)
  }

  /** The CNAME of a settled route has the region the controller map gives, that of the last entry. */
  lemma CnameRegion(s: Setting, m: Endpoints, name: string)
    requires Live(s) && Faithful(s.cfg, m, ItsRecords(s)) && Work(OwnScope(s.route), Wants(s), m) == 0
    requires name in s.active && name in ControllerMap(s.cfg)
    ensures var u, k := AfterPass(s, m), EndpointKey(s.route, name);
      k in u && Label(u[k].labels, Region) == ControllerMap(s.cfg)[name].region
  {
    PassKeepsFaithful(m, s.plan, s.configs, s.services, s.id, s.cfg);
    SettledByRoutes(s.route, Wants(s), m, AfterPass(s, m));
    ControllerHasEndpoint(s.route, s.cfg, Names(s.active), HostsOf(s.spec, s.gateway, s.id), AfterPass(s, m), name);
  }

  /** Of a settled route, in any faithful store in which the Gateway's record names are free or due: after a
      pass the CNAME of an active controller and the A record it points to are in the same region exactly
      when the first and the last entry of the controller's name are. */
  lemma RegionsAgreeExactly(s: Setting, m: Endpoints, name: string)
    requires Live(s) && Faithful(s.cfg, m, ItsRecords(s)) && Work(OwnScope(s.route), Wants(s), m) == 0
    requires Settable(s) && AllDue(s, Swept(m, ScannedNamespaces(s.services), s.configs))
    requires name in s.active && name in ControllerMap(s.cfg)
    ensures FirstNamed(s.cfg, name).Some?
    ensures SameRegion(s, AfterPass(s, m), name)
            <==> FirstNamed(s.cfg, name).value.region == ControllerMap(s.cfg)[name].region
  {
    ControllerMapMeaning(s.cfg);
    FirstNamedIsConfigured(s.cfg, name);
    RecordRegion(s, m, name);
    CnameRegion(s, m, name);
  }

  // ---- an instance ----

  const INGRESS := GatewayConfig("ingress", "internal")
  const SERVICE := Key("istio-system", "ingress")
  const SERVICES := map[SERVICE := Service(Some("ingress"), true, ["10.0.0.1"])]
  const TWICE: Config := [ExternalDns("n", "weu"), ExternalDns("n", "neu")]
  const IDENTITY := Identity("weu", "aks", "example.com", "p", [])

  /** One route, one Gateway with one service, and a configuration that repeats a name. */
  const REPEATED := Setting(
    Key("team", "api"), RouteSpec("api", "gw", "", "prod", "app"), GatewaySpec("ingress", "cert", "internal"),
    ["n"], IDENTITY, TWICE, {INGRESS}, SERVICES, Plan([INGRESS], map[INGRESS := Some(SERVICE)]))

  lemma RepeatedRecords()
    ensures ItsRecords(REPEATED) ==
            [IngressEndpoint(INGRESS, SERVICE, TWICE[0], TargetHost(IDENTITY, "internal"), "10.0.0.1"),
             IngressEndpoint(INGRESS, SERVICE, TWICE[1], TargetHost(IDENTITY, "internal"), "10.0.0.1")]
  {
    var choice := map[INGRESS := Some(SERVICE)];
    assert [INGRESS][..0] == [];
    assert AllRecords([INGRESS], choice, SERVICES, IDENTITY, TWICE)
           == [] + RecordsFor(INGRESS, SERVICES, Some(SERVICE), IDENTITY, TWICE);
  }

  lemma RepeatedIsLive()
    ensures Live(REPEATED) && !DistinctNames(TWICE) && Settable(REPEATED)
    ensures "n" in ControllerMap(TWICE) && ControllerMap(TWICE)["n"] == TWICE[1]
    ensures FirstNamed(TWICE, "n") == Some(TWICE[0])
  {
    RepeatedRecords();
    assert TWICE[..1][..0] == [] && TWICE[..1] == [TWICE[0]];
    assert IsPlan(REPEATED.plan, REPEATED.configs, SERVICES);
    forall n, k | n in ItsRecords(REPEATED) && k in Wants(REPEATED) ensures n.key != k {
      assert n.key.ns == "istio-system" && k.ns == "team";
      assert n.key.ns[0] != k.ns[0];
    }
  }

  /** Reconciled from the empty store, a route has its CNAMEs in its own namespace and nothing else. */
  lemma FromEmpty(s: Setting)
    requires Live(s) && Configured(s)
    requires forall a, b | a in ItsRecords(s) && b in ItsRecords(s) && a.key == b.key ::
               LabelledConfig(a.body) == LabelledConfig(b.body)
    ensures var g := AfterRoute(s, map[]);
      && Faithful(s.cfg, g, ItsRecords(s)) && Work(OwnScope(s.route), Wants(s), g) == 0
      && forall k | k in g :: k.ns == s.route.ns && |g[k].spec| == 1 && g[k].spec[0].recordType == CNAME
  {
    var m: Endpoints := map[];
    RouteStepMeans(s, m);
    assert Faithful(s.cfg, m, ItsRecords(s));
    RouteStepKeeps(s, m);
    RouteStepSettlesExactly(s, m);
    GoalOfNothing(OwnScope(s.route), Wants(s));
    DesiredAreCnames(s.route, s.cfg, Names(s.active), HostsOf(s.spec, s.gateway, s.id));
  }

  lemma GoalOfNothing(scope: Scope, desired: Endpoints)
    ensures Goal(scope, desired, map[]) == desired
  {}

  lemma DesiredAreCnames(route: Key, cfg: Config, names: set<string>, hosts: Hosts)
    ensures var desired := Desired(route, ControllerMap(cfg), names, hosts);
      forall k | k in desired :: k.ns == route.ns && |desired[k].spec| == 1 && desired[k].spec[0].recordType == CNAME
  {}

  /** In a region in which no A record is, nothing is reached. */
  lemma NothingReached(s: Setting, m: Endpoints, k: Key, region: string, name: string, ip: string)
    requires IsPlan(s.plan, s.configs, s.services)
    requires forall j | j in m :: |m[j].spec| == 1 && m[j].spec[0].recordType == CNAME
    requires forall n | n in ItsRecords(s) :: n.key == k
    requires k in AfterPass(s, m) && Label(AfterPass(s, m)[k].labels, Region) != region
    ensures !Reaches(AfterPass(s, m), region, name, ip)
  {
    var u := AfterPass(s, m);
    forall j | j in u && Label(u[j].labels, Region) == region
      ensures |u[j].spec| == 1 && u[j].spec[0].recordType == CNAME
    {
      PassParts(m, s.plan, s.configs, s.services, s.id, s.cfg, j);
    }
  }

  lemma RepeatedNamesApart()
    ensures forall n | n in ItsRecords(REPEATED) :: n.key == Key("istio-system", IngressName(INGRESS, "n"))
    ensures forall n | n in ItsRecords(REPEATED) :: LabelledConfig(n.body) == INGRESS
  {
    RepeatedRecords();
  }

  lemma RepeatedIsDue(g: Endpoints)
    requires Settable(REPEATED) && forall k | k in g :: k.ns == "team"
    ensures AllDue(REPEATED, Swept(g, ScannedNamespaces(SERVICES), REPEATED.configs))
  {}

  /** From the empty store, one reconciliation of the route and one pass leave a CNAME in one region whose
      A record is in another: in the CNAME's own view the route does not reach its address. */
  lemma RepeatedNameBreaksTheChain()
    ensures Live(REPEATED)
    ensures var u := AfterPass(REPEATED, AfterRoute(REPEATED, map[]));
      var name, ip := SourceHost(REPEATED.spec, IDENTITY), "10.0.0.1";
      var cname, record := EndpointKey(REPEATED.route, "n"), Key("istio-system", IngressName(INGRESS, "n"));
      && cname in u && Label(u[cname].labels, Region) == "neu"
      && record in u && Label(u[record].labels, Region) == "weu"
      && !Reaches(u, "neu", name, ip)
  {
    RepeatedIsLive();
    RepeatedNamesApart();
    var g := AfterRoute(REPEATED, map[]);
    assert "n" in REPEATED.active;
    FromEmpty(REPEATED);
    RepeatedIsDue(g);
    CnameRegion(REPEATED, g, "n");
    RecordRegion(REPEATED, g, "n");
    assert "weu"[0] != "neu"[0];
    NothingReached(REPEATED, g, RecordKey(REPEATED, "n"), "neu", SourceHost(REPEATED.spec, IDENTITY), "10.0.0.1");
  }
}
