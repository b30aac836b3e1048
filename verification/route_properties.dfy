/** Properties of ServiceRoute reconciliations that relate several routes or several inputs: repeated
    controllers, names of different routes that coincide, and routes reconciled one after the other. */
module RouteProperties {
  import opened Objects
  import opened EndpointDiff
  import opened HostNames
  import opened ServiceRouteController

  // ---- repeated controllers ----

  /** Two lists of active controllers with the same set of names lead to the same endpoints in any store,
      and to the same refusals. */
  lemma RepetitionChangesNothing(route: Key, v: View, a: seq<string>, b: seq<string>, m: Endpoints)
    requires Names(a) == Names(b)
    ensures var d := Decide(route, v.(policy := Some(Selection(true, a))));
      var e := Decide(route, v.(policy := Some(Selection(true, b))));
      && (d.Wanted? <==> e.Wanted?) && (!d.Wanted? ==> d == e)
      && Effect(route, d, m) == Effect(route, e, m)
      && (Blocked(route, d, m) <==> Blocked(route, e, m))
  {
    var d := Decide(route, v.(policy := Some(Selection(true, a))));
    var e := Decide(route, v.(policy := Some(Selection(true, b))));
    if v.route.Some? && v.gateway.Some? && v.id.Some? && v.cfg.Some? {
      RepetitionIsHarmless(route, v.route.value, a, b, v.gateway.value, v.id.value, v.cfg.value);
    }
  }

  // ---- names that coincide ----

  /** The name of `longer` goes on after a hyphen where that of `shorter` ends, and the controllers make up
      for it. */
  ghost predicate Shifted(shorter: Key, c: string, longer: Key, d: string) {
    shorter.ns == longer.ns && Continued(shorter.name, c, longer.name, d)
  }

  /** Endpoints of two routes have one name exactly when one route's name goes on after a hyphen with the
      beginning of the other's controller name. */
  lemma NamesMeetExactly(r: Key, c: string, s: Key, d: string)
    requires r != s
    ensures EndpointKey(r, c) == EndpointKey(s, d) <==> Shifted(r, c, s, d) || Shifted(s, d, r, c)
  {
    JoinedExactly(r.name, c, s.name, d);
  }

  /** Two desired sets of different routes share a name exactly when two of their controllers are shifted. */
  lemma DesiredMeetExactly(r: Key, s: Key, controllers: map<string, ExternalDns>, names: set<string>,
                           names': set<string>,
                           hosts: Hosts, hosts': Hosts)
    requires r != s
    ensures Desired(r, controllers, names, hosts).Keys !! Desired(s, controllers, names', hosts').Keys <==>
            forall c, d | c in names && c in controllers && d in names' && d in controllers ::
              !Shifted(r, c, s, d) && !Shifted(s, d, r, c)
  {
    var a, b := Desired(r, controllers, names, hosts), Desired(s, controllers, names', hosts');
    if a.Keys !! b.Keys {
      forall c, d | c in names && c in controllers && d in names' && d in controllers
        ensures !Shifted(r, c, s, d) && !Shifted(s, d, r, c)
      {
        assert EndpointKey(r, c) in a.Keys && EndpointKey(s, d) in b.Keys;
        NamesMeetExactly(r, c, s, d);
      }
    } else {
      var k :| k in a.Keys && k in b.Keys;
      var c :| c in names && c in controllers && k == EndpointKey(r, c);
      var d :| d in names' && d in controllers && k == EndpointKey(s, d);
      NamesMeetExactly(r, c, s, d);
    }
  }

  /** Controllers without hyphens in their names never make routes meet. */
  lemma HyphenFreeNeverMeet(r: Key, c: string, s: Key, d: string)
    requires r != s && '-' !in c && '-' !in d
    ensures EndpointKey(r, c) != EndpointKey(s, d)
  {
    NamesMeetExactly(r, c, s, d);
    forall x: string ensures c != x + "-" + d && d != x + "-" + c {
      assert (x + "-" + d)[|x|] == '-' && (x + "-" + c)[|x|] == '-';
    }
  }

  // ---- two routes in one store ----

  /** Some store leaves two different routes without work exactly when what they desire shares no name. */
  lemma BothSettleExactly(r: Scope, a: Endpoints, s: Scope, b: Endpoints)
    requires r.route != s.route && Labelled(r, a) && Labelled(s, b)
    ensures (exists m: Endpoints :: Work(r, a, m) == 0 && Work(s, b, m) == 0) <==> a.Keys !! b.Keys
  {
    if m: Endpoints :| Work(r, a, m) == 0 && Work(s, b, m) == 0 {
      assert Missing(r, a, m) == {} && Missing(s, b, m) == {};
      forall k | k in a.Keys && k in b.Keys ensures false {
        assert k !in Missing(r, a, m) && k !in Missing(s, b, m);
        OneOwner(r.route, s.route, m[k].labels);
      }
    }
    if a.Keys !! b.Keys {
      var m: Endpoints := map[];
      GoalSettles(r, a, m);
      OtherGoal(r, a, s, b, m);
      GoalSettles(s, b, Goal(r, a, m));
      OtherGoal(s, b, r, a, Goal(r, a, m));
    }
  }

  lemma OneOwner(r: Key, s: Key, labels: Labels)
    requires BelongsTo(r, labels) && BelongsTo(s, labels)
    ensures r == s
  {}

  /** Where two stores agree on the endpoints of a route and on the names it desires, it has the same
      work and is blocked alike. */
  ghost predicate Alike(scope: Scope, desired: Endpoints, m: Endpoints, m': Endpoints) {
    && (forall k | k in m && Selects(scope, k, m[k]) :: k in m' && m'[k] == m[k])
    && (forall k | k in m' && Selects(scope, k, m'[k]) :: k in m && m'[k] == m[k])
    && (forall k | k in desired :: Lookup(m, k) == Lookup(m', k))
  }

  lemma AlikeHasSameWork(scope: Scope, desired: Endpoints, m: Endpoints, m': Endpoints)
    requires Alike(scope, desired, m, m')
    ensures Missing(scope, desired, m') == Missing(scope, desired, m)
    ensures Stale(scope, desired, m') == Stale(scope, desired, m)
    ensures Clash(scope, desired, m') <==> Clash(scope, desired, m)
  {}

  /** Bringing one route to its goal does not touch another that desires different names. */
  lemma OtherGoal(r: Scope, a: Endpoints, s: Scope, b: Endpoints, m: Endpoints)
    requires r.route != s.route && Labelled(r, a) && Labelled(s, b) && a.Keys !! b.Keys
    requires !Clash(r, a, m) && !Clash(s, b, m)
    ensures Alike(s, b, m, Goal(r, a, m))
    ensures Work(s, b, Goal(r, a, m)) == Work(s, b, m) && !Clash(s, b, Goal(r, a, m))
  {
    GoalMeaning(r, a, m);
    var g := Goal(r, a, m);
    forall k | k in m && Selects(s, k, m[k]) ensures k in g && g[k] == m[k] {
      assert !Selects(r, k, m[k]);
    }
    forall k | k in g && Selects(s, k, g[k]) ensures k in m && g[k] == m[k] {
      assert !Selects(r, k, g[k]);
    }
    forall k | k in b ensures Lookup(m, k) == Lookup(g, k) {
      assert k !in a && (k in m ==> Selects(s, k, m[k]) && !Selects(r, k, m[k]));
    }
    AlikeHasSameWork(s, b, m, g);
  }

  /** Reconciling two routes in either order gives the same store, and leaves work for neither. */
  lemma RoutesCommute(r: Scope, a: Endpoints, s: Scope, b: Endpoints, m: Endpoints)
    requires r.route != s.route && Labelled(r, a) && Labelled(s, b) && a.Keys !! b.Keys
    requires !Clash(r, a, m) && !Clash(s, b, m)
    ensures var u := Goal(s, b, Goal(r, a, m));
      u == Goal(r, a, Goal(s, b, m)) && Work(r, a, u) == 0 && Work(s, b, u) == 0
  {
    var g, h := Goal(r, a, m), Goal(s, b, m);
    OtherGoal(r, a, s, b, m);
    GoalSettles(r, a, m);
    GoalSettles(s, b, g);
    GoalMeaning(r, a, m);
    OtherGoal(s, b, r, a, g) by {
      assert Missing(r, a, g) == {};
      Settled(r, a, g);
    }
    forall k ensures Lookup(Goal(s, b, g), k) == Lookup(Goal(r, a, h), k) {
      CommuteAt(r, a, s, b, m, k);
    }
    SameLookups(Goal(s, b, g), Goal(r, a, h));
  }

  lemma CommuteAt(r: Scope, a: Endpoints, s: Scope, b: Endpoints, m: Endpoints, k: Key)
    requires r.route != s.route && Labelled(r, a) && Labelled(s, b) && a.Keys !! b.Keys
    requires !Clash(r, a, m) && !Clash(s, b, m)
    ensures Lookup(Goal(s, b, Goal(r, a, m)), k) == Lookup(Goal(r, a, Goal(s, b, m)), k)
  {
    SecondGoalAt(r, a, s, b, m, k);
    SecondGoalAt(s, b, r, a, m, k);
    if k in m && Selects(r, k, m[k]) && Selects(s, k, m[k]) {
      OneOwner(r.route, s.route, m[k].labels);
    }
  }

  /** What two reconciliations one after the other hold under a key, in terms of the first store. */
  lemma SecondGoalAt(r: Scope, a: Endpoints, s: Scope, b: Endpoints, m: Endpoints, k: Key)
    requires r.route != s.route && Labelled(r, a) && Labelled(s, b) && a.Keys !! b.Keys
    requires !Clash(r, a, m) && !Clash(s, b, m)
    ensures Lookup(Goal(s, b, Goal(r, a, m)), k) ==
            if k in Stale(s, b, m) || k in Stale(r, a, m) then None
            else if k in Missing(s, b, m) then Some(Written(m, k, b[k]))
            else if k in Missing(r, a, m) then Some(Written(m, k, a[k]))
            else Lookup(m, k)
  {}

  lemma SameLookups<K, V>(m: map<K, V>, n: map<K, V>)
    requires forall k :: Lookup(m, k) == Lookup(n, k)
    ensures m == n
  {
    assert forall k :: Lookup(m, k) == Lookup(n, k) && (k in m <==> k in n);
  }

  /** When two routes do share a name, whichever gets there first blocks the other. */
  lemma FirstBlocksSecond(r: Scope, a: Endpoints, s: Scope, b: Endpoints, m: Endpoints, k: Key)
    requires r.route != s.route && Labelled(r, a) && Labelled(s, b) && k in a && k in b
    requires !Clash(r, a, m)
    ensures Clash(s, b, Goal(r, a, m))
  {}

  /** That happens: routes "a" and "a-b" of a namespace whose policy selects controllers "c" and "b-c" are
      never both settled. */
  lemma RoutesThatNeverSettle(ns: string, regions: (string, string), hosts: Hosts, hosts': Hosts)
    ensures var controllers := ControllerMap([ExternalDns("c", regions.0), ExternalDns("b-c", regions.1)]);
      var r, s := Key(ns, "a"), Key(ns, "a-b");
      var a, b := Desired(r, controllers, {"c", "b-c"}, hosts), Desired(s, controllers, {"c", "b-c"}, hosts');
      forall m: Endpoints :: Work(OwnScope(r), a, m) > 0 || Work(OwnScope(s), b, m) > 0
  {
    var x, y := ExternalDns("c", regions.0), ExternalDns("b-c", regions.1);
    var controllers := ControllerMap([x, y]);
    ControllerMapMeaning([x, y]);
    assert x in [x, y] && y in [x, y] && "c" in controllers && "b-c" in controllers;
    var r, s := Key(ns, "a"), Key(ns, "a-b");
    var a, b := Desired(r, controllers, {"c", "b-c"}, hosts), Desired(s, controllers, {"c", "b-c"}, hosts');
    DesiredIsLabelled(r, controllers, {"c", "b-c"}, hosts);
    DesiredIsLabelled(s, controllers, {"c", "b-c"}, hosts');
    assert "a-b" == "a" + "-" + "b" && "b-c" == "b" + "-" + "c";
    assert Shifted(r, "b-c", s, "c");
    DesiredMeetExactly(r, s, controllers, {"c", "b-c"}, {"c", "b-c"}, hosts, hosts');
    BothSettleExactly(OwnScope(r), a, OwnScope(s), b);
  }
}
