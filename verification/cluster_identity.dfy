/** ClusterIdentity: the global cache, which hands out copies, the cache-first Fetch, and the controller
    that fills and clears the cache. */
module ClusterIdentityController {
  import opened Objects
  import opened SingletonRuns
  import opened SingletonApi
  import opened DnsPolicyController

  // ---- the cache ----

  /** An identity on the heap; the adopted regions are a slice that may be nil. */
  class IdentityRecord {
    var region: string
    var cluster: string
    var domain: string
    var environmentLetter: string
    var adoptsRegions: array?<string>

    constructor (region: string, cluster: string, domain: string, environmentLetter: string)
      ensures Value() == Identity(region, cluster, domain, environmentLetter, []) && adoptsRegions == null
    {
      this.region, this.cluster, this.domain, this.environmentLetter := region, cluster, domain, environmentLetter;
      adoptsRegions := null;
    }

    function Value(): Identity
      reads this, adoptsRegions
    {
      Identity(region, cluster, domain, environmentLetter, if adoptsRegions == null then [] else adoptsRegions[..])
    }
  }

  /** The objects a record consists of. */
  ghost function Footprint(r: IdentityRecord?): set<object>
    reads r
  {
    if r == null then {} else {r} + if r.adoptsRegions == null then {} else {r.adoptsRegions}
  }

  method NewRecord(id: Identity) returns (r: IdentityRecord)
    ensures fresh(Footprint(r)) && r.Value() == id
  {
    r := new IdentityRecord(id.region, id.cluster, id.domain, id.environmentLetter);
    var regions := new string[|id.adoptsRegions|](i requires 0 <= i < |id.adoptsRegions| => id.adoptsRegions[i]);
    assert regions[..] == id.adoptsRegions;
    r.adoptsRegions := regions;
  }

  class Cache {
    var cache: IdentityRecord?

    constructor ()
      ensures cache == null
    {
      cache := null;
    }

    ghost function Repr(): set<object>
      reads this, cache
    {
      {this} + Footprint(cache)
    }

    function Contents(): Option<Identity>
      reads Repr()
    {
      if cache == null then None else Some(cache.Value())
    }

    /** Keeps the given record itself, not a copy. */
    method Set(identity: IdentityRecord?)
      modifies this
      ensures cache == identity
    {
      cache := identity;
    }

    /** A copy of the cached record that shares no object with it. */
    method Get() returns (copy: IdentityRecord?)
      ensures copy == null <==> cache == null
      ensures copy != null ==> fresh(Footprint(copy)) && Some(copy.Value()) == Contents()
    {
      if cache == null { return null; }
      copy := new IdentityRecord(cache.region, cache.cluster, cache.domain, cache.environmentLetter);
      if cache.adoptsRegions != null && cache.adoptsRegions.Length > 0 {
        var regions := new string[cache.adoptsRegions.Length];
        for i := 0 to cache.adoptsRegions.Length
          invariant regions[..i] == cache.adoptsRegions[..i]
          invariant copy.adoptsRegions == null
          invariant copy.Value() == Identity(cache.region, cache.cluster, cache.domain, cache.environmentLetter, [])
        {
          regions[i] := cache.adoptsRegions[i];
        }
        assert regions[..] == cache.adoptsRegions[..];
        copy.adoptsRegions := regions;
      } else {
        assert cache.adoptsRegions != null ==> cache.adoptsRegions[..] == [];
      }
    }

    method Clear()
      modifies this
      ensures cache == null
    {
      cache := null;
    }
  }

  /** The record is written arbitrarily: any field, any element of its slice. */
  method Scribble(r: IdentityRecord)
    modifies Footprint(r)
    ensures Footprint(r) == old(Footprint(r))
  {
    r.region, r.cluster, r.domain, r.environmentLetter := *, *, *, *;
    if r.adoptsRegions != null {
      for i := 0 to r.adoptsRegions.Length
        invariant Footprint(r) == old(Footprint(r))
      {
        r.adoptsRegions[i] := *;
      }
    }
  }

  /** However many copies were handed out and whatever was written to any of them, in any order, the next
      Get still returns what was cached. */
  method CopiesAreIsolated(c: Cache, rounds: nat) returns (last: IdentityRecord?)
    ensures c.Contents() == old(c.Contents())
    ensures last == null <==> c.cache == null
    ensures last != null ==> Some(last.Value()) == old(c.Contents())
  {
    var copies: seq<IdentityRecord> := [];
    for n := 0 to rounds
      invariant forall r | r in copies :: fresh(Footprint(r))
      invariant c.cache == old(c.cache) && c.Contents() == old(c.Contents())
    {
      var copy := c.Get();
      if copy != null { copies := copies + [copy]; }
      var writes: int := *;
      for w := 0 to if writes < 0 then 0 else writes
        invariant forall r | r in copies :: fresh(Footprint(r))
        invariant c.cache == old(c.cache) && c.Contents() == old(c.Contents())
      {
        if copies != [] {
          var i: int := *;
          if 0 <= i < |copies| { Scribble(copies[i]); }
        }
      }
    }
    last := c.Get();
  }

  // ---- Fetch ----

  /** The cached identity, else that of the first listed object. */
  method Fetch(api: ObjectApi<Identity>, cache: Cache) returns (identity: IdentityRecord?)
    ensures identity != null ==> fresh(Footprint(identity))
    ensures Fetches(World(api.objects, {}, cache.Contents(), Idle),
                    if identity == null then None else Some(identity.Value()))
  {
    identity := cache.Get();
    if identity != null { return; }
    if |api.objects| == 0 { return null; }
    assert api.objects.Keys != {};
    var name :| name in api.objects.Keys;
    identity := NewRecord(api.objects[name].spec);
  }

  // ---- the controller ----

  predicate ValidIdentity(id: Identity) {
    id.region != "" && id.cluster != "" && id.domain != "" && id.environmentLetter != ""
  }

  /** Reconciles one name without interruption: the cache and the objects become what one pass of the
      worker makes of them. `config` is what dnsconfiguration.Fetch returned. */
  method Reconcile(api: ObjectApi<Identity>, cache: Cache, name: string, config: Option<Config>)
    returns (retry: bool, invalid: seq<string>)
    modifies api, cache
    ensures PassMade(name, old(api.objects), old(cache.Contents()), api.faults == old(api.faults), ValidIdentity,
                     api.objects, cache.Contents(), retry)
    ensures name in old(api.objects) && |old(api.objects)| <= 1 && ValidIdentity(old(api.objects)[name].spec) ==>
              && invalid == Silent(old(api.objects)[name].spec.adoptsRegions, config)
              && ReportedFrom(invalid, old(api.objects)[name].spec.adoptsRegions, config)
              && fresh(Footprint(cache.cache))
  {
    hide PassMade, ReportedFrom;
    ghost var objects, cached := api.objects, cache.Contents();
    retry, invalid := false, [];
    if name !in api.objects {
      cache.Clear();
      AbsentPass(name, objects, cached, ValidIdentity);
      return;
    }
    var current := api.objects[name];
    if |api.objects| > 1 {
      retry := api.Report(name, FailedAt(current.generation, SingletonViolation));
      ReportedPass(name, objects, cached, ValidIdentity, api.objects, retry);
      return;
    }
    if !ValidIdentity(current.spec) {
      retry := api.Report(name, FailedAt(current.generation, InvalidSpec));
      ReportedPass(name, objects, cached, ValidIdentity, api.objects, retry);
      return;
    }
    invalid := ValidateAdoptedRegions(current.spec.adoptsRegions, config);
    var record := NewRecord(current.spec);
    cache.Set(record);
    retry := api.Report(name, ReadyAt(current.generation));
    ReportedPass(name, objects, cached, ValidIdentity, api.objects, retry);
  }

  // ---- adopted regions ----

  /** The adopted regions that contribute no controller in Active mode, in order. */
  function Silent(regions: seq<string>, config: Option<Config>): seq<string> {
    if regions == [] then [] else
      var last := regions[|regions|-1];
      Silent(regions[..|regions|-1], config)
      + if config.None? || NamesFor(config.value, last) == [] then [last] else []
  }

  /** Some entry of the configuration, if there is one, has the region. */
  ghost predicate HasEntry(config: Option<Config>, region: string) {
    config.Some? && exists c :: c in config.value && c.region == region
  }

  /** The regions at some positions: those without an entry, in their order. */
  ghost predicate ReportedFrom(invalid: seq<string>, regions: seq<string>, config: Option<Config>) {
    exists positions: seq<nat> ::
      && Increasing(positions, |regions|) && |positions| == |invalid|
      && (forall i | 0 <= i < |invalid| :: invalid[i] == regions[positions[i]])
      && forall i: nat | i < |regions| :: i in positions <==> !HasEntry(config, regions[i])
  }

  lemma HasEntryWhenNamed(config: Option<Config>, region: string)
    ensures HasEntry(config, region) <==> config.Some? && NamesFor(config.value, region) != []
  {
    if config.Some? { ContributesWhenConfigured(config.value, region); }
  }

  /** Each region is reported as often as it is adopted if no entry has it, and otherwise not at all. */
  lemma {:induction false} SilentCounts(regions: seq<string>, config: Option<Config>, region: string)
    ensures multiset(Silent(regions, config))[region]
            == if config.Some? && exists c :: c in config.value && c.region == region then 0
               else multiset(regions)[region]
  {
    if regions == [] {
    } else {
      var init, last := regions[..|regions|-1], regions[|regions|-1];
      assert regions == init + [last];
      SilentCounts(init, config, region);
      HasEntryWhenNamed(config, last);
    }
  }

  /** Those reported are in the order in which they are adopted. */
  lemma {:induction false} SilentInOrder(regions: seq<string>, config: Option<Config>)
    ensures ReportedFrom(Silent(regions, config), regions, config)
  {
    var positions := SilentPositions(regions, config);
  }

  lemma {:induction false} SilentPositions(regions: seq<string>, config: Option<Config>) returns (positions: seq<nat>)
    ensures var invalid := Silent(regions, config);
      && Increasing(positions, |regions|) && |positions| == |invalid|
      && (forall i | 0 <= i < |invalid| :: invalid[i] == regions[positions[i]])
      && forall i: nat | i < |regions| :: i in positions <==> !HasEntry(config, regions[i])
  {
    if regions == [] {
      positions := [];
    } else {
      var n := |regions| - 1;
      positions := SilentPositions(regions[..n], config);
      HasEntryWhenNamed(config, regions[n]);
      if !HasEntry(config, regions[n]) {
        positions := positions + [n];
      }
    }
  }

  /** Without a configuration all adopted regions are reported. */
  lemma {:induction false} AllSilentWithoutConfig(regions: seq<string>)
    ensures Silent(regions, None) == regions
  {
    if regions != [] {
      AllSilentWithoutConfig(regions[..|regions|-1]);
    }
  }

  /** The adopted regions the identity controller reports are exactly those the policy controller would
      select nothing for. */
  method ValidateAdoptedRegions(regions: seq<string>, config: Option<Config>) returns (invalid: seq<string>)
    ensures invalid == Silent(regions, config) && ReportedFrom(invalid, regions, config)
  {
    hide ReportedFrom;
    SilentInOrder(regions, config);
    invalid := [];
    if |regions| == 0 { return; }
    var existing: set<string> := {};
    if config.Some? {
      existing := ExistingRegions(config.value);
    }
    for i := 0 to |regions|
      invariant invalid == Silent(regions[..i], config)
    {
      assert regions[..i+1][..i] == regions[..i];
      if config.Some? { ContributesWhenConfigured(config.value, regions[i]); }
      if regions[i] !in existing {
        invalid := invalid + [regions[i]];
      }
    }
    assert regions[..|regions|] == regions;
  }

  /** The condition AdoptedRegionsValid is True exactly when every adopted region makes Active mode select
      some controller of that region. */
  lemma {:induction false} AdoptionAgrees(id: Identity, cfg: Config)
    ensures Silent(id.adoptsRegions, Some(cfg)) == [] <==>
            forall region | region in id.adoptsRegions ::
              exists c :: c in cfg && c.region == region && c.name in ActiveNames(id, cfg)
  {
    SilentMeaning(id.adoptsRegions, cfg);
    forall region | region in id.adoptsRegions
      ensures NamesFor(cfg, region) != [] <==>
              exists c :: c in cfg && c.region == region && c.name in ActiveNames(id, cfg)
    {
      ContributesWhenConfigured(cfg, region);
      if c :| c in cfg && c.region == region {
        ActiveModeSelects(id, cfg, c.name);
        assert c.region in Managed(id);
      }
    }
  }

  lemma {:induction false} SilentMeaning(regions: seq<string>, cfg: Config)
    ensures Silent(regions, Some(cfg)) == [] <==> forall region | region in regions :: NamesFor(cfg, region) != []
  {
    if regions == [] {
    } else {
      var init, last := regions[..|regions|-1], regions[|regions|-1];
      assert regions == init + [last];
      SilentMeaning(init, cfg);
      assert last in regions;
      forall region | region in init ensures region in regions {}
    }
  }
}
