/** DNSConfiguration: the global cache, which hands out copies, the cache-first Fetch with its conversion,
    and the controller that fills and clears the cache. */
module DnsConfigurationController {
  import opened Objects
  import opened SingletonRuns
  import opened SingletonApi

  /** A configuration on the heap; the controllers are a slice that may be nil. */
  class ConfigRecord {
    var controllers: array?<ExternalDns>

    constructor ()
      ensures controllers == null
    {
      controllers := null;
    }

    function Value(): Config
      reads this, controllers
    {
      if controllers == null then [] else controllers[..]
    }
  }

  /** The objects a record consists of. */
  ghost function Footprint(r: ConfigRecord?): set<object>
    reads r
  {
    if r == null then {} else {r} + if r.controllers == null then {} else {r.controllers}
  }

  /** Converts the listed entries one by one. */
  method Convert(cfg: Config) returns (r: ConfigRecord)
    ensures fresh(Footprint(r)) && r.Value() == cfg
  {
    r := new ConfigRecord();
    var controllers := new ExternalDns[|cfg|](_ => ExternalDns("", ""));
    for i := 0 to |cfg|
      invariant controllers[..i] == cfg[..i]
      invariant fresh(r) && r.controllers == null
    {
      controllers[i] := ExternalDns(cfg[i].name, cfg[i].region);
    }
    assert controllers[..] == cfg;
    r.controllers := controllers;
  }

  class Cache {
    var cache: ConfigRecord?

    constructor ()
      ensures cache == null
    {
      cache := null;
    }

    ghost function Repr(): set<object>
      reads this, cache
    {
      {this} + Footprint(cache)
    }

    function Contents(): Option<Config>
      reads Repr()
    {
      if cache == null then None else Some(cache.Value())
    }

    /** Keeps the given record itself, not a copy. */
    method Set(config: ConfigRecord?)
      modifies this
      ensures cache == config
    {
      cache := config;
    }

    /** A copy of the cached record that shares no object with it. */
    method Get() returns (copy: ConfigRecord?)
      ensures copy == null <==> cache == null
      ensures copy != null ==> fresh(Footprint(copy)) && Some(copy.Value()) == Contents()
    {
      if cache == null { return null; }
      copy := new ConfigRecord();
      if cache.controllers != null && cache.controllers.Length > 0 {
        var controllers := new ExternalDns[cache.controllers.Length](_ => ExternalDns("", ""));
        for i := 0 to cache.controllers.Length
          invariant controllers[..i] == cache.controllers[..i]
          invariant copy.controllers == null
        {
          controllers[i] := cache.controllers[i];
        }
        assert controllers[..] == cache.controllers[..];
        copy.controllers := controllers;
      } else {
        assert cache.controllers != null ==> cache.controllers[..] == [];
      }
    }

    method Clear()
      modifies this
      ensures cache == null
    {
      cache := null;
    }
  }

  /** The record is written arbitrarily: any element of its slice. */
  method Scribble(r: ConfigRecord)
    modifies Footprint(r)
    ensures Footprint(r) == old(Footprint(r))
  {
    if r.controllers != null {
      for i := 0 to r.controllers.Length
        invariant Footprint(r) == old(Footprint(r))
      {
        r.controllers[i] := *;
      }
    }
  }

  /** However many copies were handed out and whatever was written to any of them, in any order, the next
      Get still returns what was cached. */
  method CopiesAreIsolated(c: Cache, rounds: nat) returns (last: ConfigRecord?)
    ensures c.Contents() == old(c.Contents())
    ensures last == null <==> c.cache == null
    ensures last != null ==> Some(last.Value()) == old(c.Contents())
  {
    var copies: seq<ConfigRecord> := [];
    for n := 0 to rounds
      invariant forall r | r in copies :: fresh(Footprint(r))
      invariant c.cache == old(c.cache) && c.Contents() == old(c.Contents())
    {
      var copy := c.Get();
      if copy != null { copies := copies + [copy]; }
      var i: int := *;
      if 0 <= i < |copies| { Scribble(copies[i]); }
    }
    last := c.Get();
  }

  /** The cached configuration, else the converted one of the first listed object. */
  method Fetch(api: ObjectApi<Config>, cache: Cache) returns (config: ConfigRecord?)
    ensures config != null ==> fresh(Footprint(config))
    ensures Fetches(World(api.objects, {}, cache.Contents(), Idle),
                    if config == null then None else Some(config.Value()))
  {
    config := cache.Get();
    if config != null { return; }
    if |api.objects| == 0 { return null; }
    assert api.objects.Keys != {};
    var name :| name in api.objects.Keys;
    config := Convert(api.objects[name].spec);
  }

  predicate ValidConfig(cfg: Config) {
    cfg != [] && forall c | c in cfg :: c.name != "" && c.region != ""
  }

  /** Scans the entries up to the first incomplete one. */
  method ValidateSpec(cfg: Config) returns (ok: bool)
    ensures ok <==> ValidConfig(cfg)
  {
    if |cfg| == 0 { return false; }
    for i := 0 to |cfg|
      invariant forall c | c in cfg[..i] :: c.name != "" && c.region != ""
    {
      if cfg[i].name == "" || cfg[i].region == "" {
        assert cfg[i] in cfg;
        return false;
      }
    }
    assert cfg[..|cfg|] == cfg;
    ok := true;
  }

  /** Reconciles one name without interruption: the cache and the objects become what one pass of the
      worker makes of them. */
  method Reconcile(api: ObjectApi<Config>, cache: Cache, name: string) returns (retry: bool)
    modifies api, cache
    ensures PassMade(name, old(api.objects), old(cache.Contents()), api.faults == old(api.faults), ValidConfig,
                     api.objects, cache.Contents(), retry)
  {
    hide PassMade;
    ghost var objects, cached := api.objects, cache.Contents();
    retry := false;
    if name !in api.objects {
      cache.Clear();
      AbsentPass(name, objects, cached, ValidConfig);
      return;
    }
    var current := api.objects[name];
    if |api.objects| > 1 {
      retry := api.Report(name, FailedAt(current.generation, SingletonViolation));
      ReportedPass(name, objects, cached, ValidConfig, api.objects, retry);
      return;
    }
    var ok := ValidateSpec(current.spec);
    if !ok {
      retry := api.Report(name, FailedAt(current.generation, InvalidSpec));
      ReportedPass(name, objects, cached, ValidConfig, api.objects, retry);
      return;
    }
    var record := Convert(current.spec);
    cache.Set(record);
    retry := api.Report(name, ReadyAt(current.generation));
    ReportedPass(name, objects, cached, ValidConfig, api.objects, retry);
  }
}
