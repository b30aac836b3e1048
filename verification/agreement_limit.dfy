/** The limit of agreement: once two ClusterIdentity or two DNSConfiguration objects may exist side by side,
    a run can drain with a policy computed from a cache that was cleared afterwards. Clearing a cache queues
    no policy. It is enough that the second object is invalid. */
module AgreementLimit {
  import opened Objects
  import opened SingletonRuns
  import opened DnsPolicyController
  import opened ClusterIdentityController
  import opened DnsConfigurationController
  import opened Admission
  import opened AgreementRuns
  import opened StalePaths

  // ---- paths of the whole system ----

  ghost predicate IsPath(states: seq<System>, changes: seq<Change>, b: Bounds) {
    && |states| == |changes| + 1
    && (forall i | 0 <= i < |changes| :: Allowed(states[i], changes[i]) && states[i+1] == Moved(states[i], changes[i]))
    && (forall i | 0 <= i <= |changes| :: WithinBounds(states[i], b))
  }

  ghost predicate Leads(s: System, s': System, b: Bounds) {
    exists states, changes :: IsPath(states, changes, b) && states[0] == s && states[|changes|] == s'
  }

  lemma Stay(s: System, b: Bounds)
    requires WithinBounds(s, b)
    ensures Leads(s, s, b)
  {
    assert IsPath([s], [], b);
  }

  lemma Go(s0: System, s: System, c: Change, s': System, b: Bounds)
    requires Leads(s0, s, b) && Allowed(s, c) && s' == Moved(s, c) && WithinBounds(s', b)
    ensures Leads(s0, s', b)
  {
    var states, changes :| IsPath(states, changes, b) && states[0] == s0 && states[|changes|] == s;
    var states', changes' := states + [s'], changes + [c];
    forall i | 0 <= i < |changes'|
      ensures Allowed(states'[i], changes'[i]) && states'[i+1] == Moved(states'[i], changes'[i])
    {
      if i < |changes| {
        assert states'[i] == states[i] && states'[i+1] == states[i+1] && changes'[i] == changes[i];
      }
    }
    forall i | 0 <= i <= |changes'| ensures WithinBounds(states'[i], b) {
      if i <= |changes| {
        assert states'[i] == states[i];
      }
    }
    assert IsPath(states', changes', b) && states'[0] == s0 && states'[|changes'|] == s';
  }

  // ---- a path of one of the two kinds, taken by the system ----

  function IdRules(b: Bounds): Rules<Identity> {
    Rules(b.ids, b.oneValid, ValidIdentity, AdmittedIdentity)
  }

  function ConfigRules(b: Bounds): Rules<Config> {
    Rules(b.cfgs, b.oneValid, ValidConfig, AdmittedConfig)
  }

  /** The policies are queued already, or no object changes. */
  ghost predicate QueuesNothing<S>(s: System, ws: seq<World<S>>) {
    s.policies.Keys <= s.queue || IsSilent(ws)
  }

  lemma {:induction false} TakeIdentityPath(s0: System, s: System, ws: seq<World<Identity>>, es: seq<Event<Identity>>,
                                            i: nat, b: Bounds)
    requires Leads(s0, s, b) && WithinBounds(s, b) && IsWorldPath(ws, es, IdRules(b)) && ws[0] == s.ids
    requires QueuesNothing(s, ws) && i <= |es|
    ensures Leads(s0, s.(ids := ws[i]), b)
  {
    if i == 0 {
      assert s.(ids := ws[0]) == s;
    } else {
      TakeIdentityPath(s0, s, ws, es, i - 1, b);
      var before := s.(ids := ws[i-1]);
      assert s.policies.Keys <= s.queue ==> s.queue + s.policies.Keys == s.queue;
      Go(s0, before, OfIdentity(es[i-1]), s.(ids := ws[i]), b);
    }
  }

  lemma {:induction false} TakeConfigPath(s0: System, s: System, ws: seq<World<Config>>, es: seq<Event<Config>>,
                                          i: nat, b: Bounds)
    requires Leads(s0, s, b) && WithinBounds(s, b) && IsWorldPath(ws, es, ConfigRules(b)) && ws[0] == s.cfgs
    requires QueuesNothing(s, ws) && (s.ids.objects.Keys <= s.ids.queue || IsSilent(ws)) && i <= |es|
    ensures Leads(s0, s.(cfgs := ws[i]), b)
  {
    if i == 0 {
      assert s.(cfgs := ws[0]) == s;
    } else {
      TakeConfigPath(s0, s, ws, es, i - 1, b);
      assert IsSilent(ws) ==> ws[i].objects == ws[i-1].objects;
      assert Within(ws[i], b.cfgs, b.oneValid, ValidConfig);
      ConfigStep(s, ws[i-1], es[i-1], ws[i]);
      Go(s0, s.(cfgs := ws[i-1]), OfConfig(es[i-1]), s.(cfgs := ws[i]), b);
    }
  }

  lemma ConfigStep(s: System, w: World<Config>, e: Event<Config>, w': World<Config>)
    requires Enabled(w, e) && w' == Step(w, e, ValidConfig)
    requires (s.policies.Keys <= s.queue && s.ids.objects.Keys <= s.ids.queue) || w'.objects == w.objects
    ensures Moved(s.(cfgs := w), OfConfig(e)) == s.(cfgs := w')
  {}

  lemma TakeIdentity(s0: System, s: System, w: World<Identity>, b: Bounds)
    requires Leads(s0, s, b) && WithinBounds(s, b)
    requires if s.policies.Keys <= s.queue then WorldLeads(s.ids, w, IdRules(b))
             else LeadsSilently(s.ids, w, IdRules(b))
    ensures Leads(s0, s.(ids := w), b)
  {
    var ws, es :| IsWorldPath(ws, es, IdRules(b)) && ws[0] == s.ids && ws[|es|] == w && QueuesNothing(s, ws);
    TakeIdentityPath(s0, s, ws, es, |es|, b);
  }

  lemma TakeConfig(s0: System, s: System, w: World<Config>, b: Bounds)
    requires Leads(s0, s, b) && WithinBounds(s, b)
    requires if s.policies.Keys <= s.queue && s.ids.objects.Keys <= s.ids.queue
             then WorldLeads(s.cfgs, w, ConfigRules(b)) else LeadsSilently(s.cfgs, w, ConfigRules(b))
    ensures Leads(s0, s.(cfgs := w), b)
  {
    var ws, es :| IsWorldPath(ws, es, ConfigRules(b)) && ws[0] == s.cfgs && ws[|es|] == w && QueuesNothing(s, ws)
                  && (s.ids.objects.Keys <= s.ids.queue || IsSilent(ws));
    TakeConfigPath(s0, s, ws, es, |es|, b);
  }

  // ---- the specs ----

  const WEU_IDENTITY := Identity("weu", "aks", "example.com", "p", [])
  const NEU_IDENTITY := Identity("neu", "aks", "example.com", "p", [])
  const BOTH: Config := [ExternalDns("dns-weu", "weu"), ExternalDns("dns-neu", "neu")]
  const OTHER: Config := [ExternalDns("dns-neu", "neu")]
  const NAMELESS: Config := [ExternalDns("", "weu")]
  const SPEC := PolicySpec(MODE_ACTIVE, "", "")
  const POLICY := Key("team", "policy")
  const BEFORE := Policy(SPEC, FRESH_POLICY_STATUS)
  const AFTER := Reconciled(BEFORE, Some(WEU_IDENTITY), Some(BOTH))

  lemma SpecsPass()
    ensures AdmittedIdentity(WEU_IDENTITY) && AdmittedIdentity(NEU_IDENTITY) && WEU_IDENTITY != NEU_IDENTITY
    ensures AdmittedConfig(BOTH) && AdmittedConfig(OTHER) && AdmittedConfig(NAMELESS) && BOTH != OTHER
    ensures ValidIdentity(WEU_IDENTITY) && ValidIdentity(NEU_IDENTITY)
    ensures AdmittedIdentity(SPECLESS) && !ValidIdentity(SPECLESS)
    ensures ValidConfig(BOTH) && ValidConfig(OTHER) && !ValidConfig(NAMELESS)
  {
    ExampleDomain();
    assert WEU_IDENTITY.region[0] != NEU_IDENTITY.region[0];
    assert NAMELESS[0] in NAMELESS;
  }

  lemma SelectionsDiffer()
    ensures Select(SPEC, WEU_IDENTITY, BOTH) != Select(SPEC, NEU_IDENTITY, BOTH)
    ensures Select(SPEC, WEU_IDENTITY, BOTH) != Select(SPEC, WEU_IDENTITY, OTHER)
  {
    assert WEU_IDENTITY.region[0] != NEU_IDENTITY.region[0];
    ActiveModeSelects(WEU_IDENTITY, BOTH, "dns-weu");
    ActiveModeSelects(NEU_IDENTITY, BOTH, "dns-weu");
    ActiveModeSelects(WEU_IDENTITY, OTHER, "dns-weu");
    assert BOTH[0] in BOTH && BOTH[0].name[4] != BOTH[1].name[4] && OTHER[0].name[4] != BOTH[0].name[4];
  }

  function At(ids: World<Identity>, cfgs: World<Config>, p: Policy, queue: set<Key>): System {
    System(ids, cfgs, map[POLICY := p], queue)
  }

  /** One object of each kind, and everything queued. */
  const BEGINNING := At(StartedAt(WEU_IDENTITY), StartedAt(BOTH), BEFORE, {POLICY})

  lemma BeginningIsBegun(b: Bounds)
    requires b.ids >= 1 && b.cfgs >= 1
    ensures Begun(BEGINNING) && WithinBounds(BEGINNING, b) && Leads(BEGINNING, BEGINNING, b)
  {
    SpecsPass();
    OneIsWithin(SettledObject(WEU_IDENTITY), StartedAt(WEU_IDENTITY), IdRules(b));
    OneIsWithin(SettledObject(BOTH), StartedAt(BOTH), ConfigRules(b));
    Stay(BEGINNING, b);
  }

  lemma ReconcileStale(s0: System, ids: World<Identity>, cfgs: World<Config>, b: Bounds)
    requires Leads(s0, At(ids, cfgs, BEFORE, {POLICY}), b) && WithinBounds(At(ids, cfgs, BEFORE, {POLICY}), b)
    requires Fetches(ids, Some(WEU_IDENTITY)) && Fetches(cfgs, Some(BOTH))
    ensures Leads(s0, At(ids, cfgs, AFTER, {}), b)
  {
    assert map[POLICY := BEFORE][POLICY := AFTER] == map[POLICY := AFTER];
    assert {POLICY} - {POLICY} == {};
    Go(s0, At(ids, cfgs, BEFORE, {POLICY}), ReconcilePolicy(POLICY, Some(WEU_IDENTITY), Some(BOTH), true),
       At(ids, cfgs, AFTER, {}), b);
  }

  lemma Disproved(s: System, b: Bounds)
    requires Begun(BEGINNING) && Leads(BEGINNING, s, b) && Drained(s) && !Agrees(s)
    ensures !AlwaysAgrees(b)
  {
    var states: seq<System>, changes: seq<Change> :|
      IsPath(states, changes, b) && states[0] == BEGINNING && states[|changes|] == s;
    assert IsAgreementRun(states, changes, b);
  }

  // ---- two identities ----

  /** The identity was edited beside a second one; the policy has the selection of the old one. */
  const IDENTITY_DRAINED := At(ClearedAt(NEU_IDENTITY), SettledAt(BOTH), AFTER, {})

  lemma IdentityDrainedDisagrees()
    ensures Drained(IDENTITY_DRAINED) && !Agrees(IDENTITY_DRAINED)
  {
    SpecsPass();
    SelectionsDiffer();
    var s := IDENTITY_DRAINED;
    assert Sole(s.ids, FIRST) && Sole(s.cfgs, FIRST) && POLICY in s.policies;
    assert s.policies[POLICY].status.selection == Select(SPEC, WEU_IDENTITY, BOTH);
  }

  /** Two identities are enough, both valid or the second one without a spec. */
  lemma TwoIdentitiesDisagree(b: Bounds)
    requires b.ids >= 2 && b.cfgs >= 1
    ensures !AlwaysAgrees(b)
  {
    SpecsPass();
    BeginningIsBegun(b);
    Strand(WEU_IDENTITY, NEU_IDENTITY, if b.oneValid then SPECLESS else WEU_IDENTITY, IdRules(b));
    TakeIdentity(BEGINNING, BEGINNING, StaleAt(WEU_IDENTITY, NEU_IDENTITY), b);
    var s1 := At(StaleAt(WEU_IDENTITY, NEU_IDENTITY), StartedAt(BOTH), BEFORE, {POLICY});
    OneIsWithin(RefusedObject(NEU_IDENTITY), s1.ids, IdRules(b));
    assert FIRST in One(SettledObject(BOTH));
    ReconcileStale(BEGINNING, s1.ids, s1.cfgs, b);
    var s2 := At(s1.ids, s1.cfgs, AFTER, {});
    ClearStale(WEU_IDENTITY, NEU_IDENTITY, IdRules(b));
    TakeIdentity(BEGINNING, s2, ClearedAt(NEU_IDENTITY), b);
    var s3 := At(ClearedAt(NEU_IDENTITY), s1.cfgs, AFTER, {});
    OneIsWithin(RefusedObject(NEU_IDENTITY), s3.ids, IdRules(b));
    Settle(BOTH, ConfigRules(b));
    TakeConfig(BEGINNING, s3, SettledAt(BOTH), b);
    IdentityDrainedDisagrees();
    Disproved(IDENTITY_DRAINED, b);
  }

  // ---- two configurations ----

  /** The configuration was edited beside a second one; the policy has the selection of the old one. */
  const CONFIG_DRAINED := At(SettledAt(WEU_IDENTITY), ClearedAt(OTHER), AFTER, {})

  lemma ConfigDrainedDisagrees()
    ensures Drained(CONFIG_DRAINED) && !Agrees(CONFIG_DRAINED)
  {
    SpecsPass();
    SelectionsDiffer();
    var s := CONFIG_DRAINED;
    assert Sole(s.ids, FIRST) && Sole(s.cfgs, FIRST) && POLICY in s.policies;
    assert s.policies[POLICY].status.selection == Select(SPEC, WEU_IDENTITY, BOTH);
  }

  /** Two configurations are enough, even if the second one is invalid. */
  lemma TwoConfigurationsDisagree(b: Bounds)
    requires b.ids >= 1 && b.cfgs >= 2
    ensures !AlwaysAgrees(b)
  {
    SpecsPass();
    BeginningIsBegun(b);
    Strand(BOTH, OTHER, NAMELESS, ConfigRules(b));
    TakeConfig(BEGINNING, BEGINNING, StaleAt(BOTH, OTHER), b);
    var s1 := At(StartedAt(WEU_IDENTITY), StaleAt(BOTH, OTHER), BEFORE, {POLICY});
    OneIsWithin(RefusedObject(OTHER), s1.cfgs, ConfigRules(b));
    assert FIRST in One(SettledObject(WEU_IDENTITY));
    ReconcileStale(BEGINNING, s1.ids, s1.cfgs, b);
    var s2 := At(s1.ids, s1.cfgs, AFTER, {});
    ClearStale(BOTH, OTHER, ConfigRules(b));
    TakeConfig(BEGINNING, s2, ClearedAt(OTHER), b);
    var s3 := At(s1.ids, ClearedAt(OTHER), AFTER, {});
    OneIsWithin(RefusedObject(OTHER), s3.cfgs, ConfigRules(b));
    Settle(WEU_IDENTITY, IdRules(b));
    TakeIdentity(BEGINNING, s3, SettledAt(WEU_IDENTITY), b);
    ConfigDrainedDisagrees();
    Disproved(CONFIG_DRAINED, b);
  }

  // ---- exactly when ----

  /** Without an object of one of the kinds there is nothing to agree with. */
  lemma NoneAgrees(s: System, b: Bounds)
    requires WithinBounds(s, b) && (b.ids == 0 || b.cfgs == 0)
    ensures Agrees(s)
  {}

  /** Drained runs always agree exactly when at most one object of each kind may exist at a time, or when one
      of the kinds may have none at all. Nothing changes if no two of a kind may be valid at a time. */
  lemma AgreementExactly(b: Bounds)
    ensures AlwaysAgrees(b) <==> b.ids == 0 || b.cfgs == 0 || (b.ids <= 1 && b.cfgs <= 1)
  {
    if b.ids == 0 || b.cfgs == 0 {
      forall states, changes | IsAgreementRun(states, changes, b) ensures Agrees(states[|changes|]) {
        NoneAgrees(states[|changes|], b);
      }
    } else if b.cfgs >= 2 {
      TwoConfigurationsDisagree(b);
    } else if b.ids >= 2 {
      TwoIdentitiesDisagree(b);
    } else {
      forall states, changes | IsAgreementRun(states, changes, b) && Drained(states[|changes|])
        ensures Agrees(states[|changes|])
      {
        assert forall j | 0 <= j <= |changes| :: WithinBounds(states[j], b) && Single(states[j]);
        AgreesWithOneObject(states, changes, b);
      }
    }
  }
}
