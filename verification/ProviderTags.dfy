/** Where the tags of a device come from: ProviderMap.Init of pkg/kt/snmp.go and the copying of global tags in
    parseConfig of pkg/inputs/snmp/snmp.go, with a global section in the configuration. */
module ProviderTags {
  import opened Options
  import opened DeviceTags

  datatype Device = Device(provider: string, tags: Tags)

  // Qualified keys ------------------------------------------------------------------------------

  /** `y` is a key of provider `p`, read with the provider in hand. */
  predicate Under(y: string, p: string) { Prefix + p + [Token] <= y }

  function Rest(y: string, p: string): (k: string)
    requires Under(y, p)
    ensures y == Qualified(p, k) && HasPrefix(y)
  {
    y[|Prefix + p| + 1..]
  }

  lemma {:induction false} UnderQualified(p: string, k: string)
    ensures Under(Qualified(p, k), p) && Rest(Qualified(p, k), p) == k
  {
  }

  lemma {:induction false} OneProvider(y: string, p: string, q: string)
    requires Token !in p && Token !in q && Under(y, p) && Under(y, q)
    ensures p == q
  {
    QualifiedParts(p, Rest(y, p));
    QualifiedParts(q, Rest(y, q));
  }

  /** `y` is an unprefixed key of `m`, qualified by `p`. */
  predicate Comes(y: string, m: Tags, p: string) { Under(y, p) && Rest(y, p) in m && !HasPrefix(Rest(y, p)) }

  /** `m` with every unprefixed key qualified by `p`. */
  ghost predicate IsQualified(r: Tags, m: Tags, p: string) {
    && (forall y :: y in r <==> (y in m && HasPrefix(y)) || Comes(y, m, p))
    && (forall y :: y in r ==> r[y] == if Comes(y, m, p) then m[Rest(y, p)] else m[y])
  }

  /** `g` with the unprefixed keys of `t` added, qualified by `p`. */
  ghost predicate IsExtended(r: Tags, g: Tags, p: string, t: Tags) {
    && (forall y :: y in r <==> y in g || Comes(y, t, p))
    && (forall y :: y in r ==> r[y] == if Comes(y, t, p) then t[Rest(y, p)] else g[y])
  }

  /** A key of `m` that has not been qualified yet, or a qualified one that has. */
  ghost predicate Qualifying(r: Tags, m: Tags, p: string, todo: set<string>) {
    && (forall y :: y in r <==> (y in m && (y in todo || HasPrefix(y))) || (Comes(y, m, p) && Rest(y, p) !in todo))
    && (forall y :: y in r ==> r[y] == if Comes(y, m, p) && Rest(y, p) !in todo then m[Rest(y, p)] else m[y])
  }

  lemma {:induction false} QualifyOne(r: Tags, m: Tags, p: string, todo: set<string>, k: string)
    requires Qualifying(r, m, p, todo) && k in todo && k in m
    ensures HasPrefix(k) ==> Qualifying(r, m, p, todo - {k})
    ensures !HasPrefix(k) ==> k in r && Qualifying((r - {k})[Qualified(p, k) := r[k]], m, p, todo - {k})
  {
    UnderQualified(p, k);
    hide Under, Qualified, HasPrefix, Rest;
    if !HasPrefix(k) {
      var r' := (r - {k})[Qualified(p, k) := r[k]];
      assert r[k] == m[k];
      forall y ensures y in r' <==> (y in m && (y in todo - {k} || HasPrefix(y))) || (Comes(y, m, p) && Rest(y, p) !in todo - {k}) {
      }
      forall y | y in r'
        ensures r'[y] == if Comes(y, m, p) && Rest(y, p) !in todo - {k} then m[Rest(y, p)] else m[y] {
      }
    } else {
      forall y ensures Comes(y, m, p) ==> Rest(y, p) != k {
      }
    }
  }

  lemma {:induction false} QualifyEnds(r: Tags, m: Tags, p: string)
    ensures Qualifying(m, m, p, m.Keys)
    ensures Qualifying(r, m, p, {}) ==> IsQualified(r, m, p)
  {
  }

  /** The loops of Init over the tags that it rewrites. The keys inserted are prefixed, and a visit to one of
      them does nothing. */
  method QualifyAll(m: Tags, p: string) returns (r: Tags)
    ensures IsQualified(r, m, p)
  {
    r := m;
    var todo := m.Keys;
    QualifyEnds(r, m, p);
    while todo != {}
      invariant todo <= m.Keys && Qualifying(r, m, p, todo)
    {
      hide Qualifying, Qualified, HasPrefix;
      var k :| k in todo;
      QualifyOne(r, m, p, todo, k);
      if !HasPrefix(k) {
        var v := r[k];
        r := r - {k};
        r := r[Qualified(p, k) := v];
      }
      todo := todo - {k};
    }
    QualifyEnds(r, m, p);
  }

  /** The loop of Init over the tags of a provider. */
  method AddProvider(g: Tags, p: string, t: Tags) returns (r: Tags)
    ensures IsExtended(r, g, p, t)
  {
    r := g;
    var todo := t.Keys;
    while todo != {}
      invariant todo <= t.Keys
      invariant forall y :: y in r <==> y in g || (Comes(y, t, p) && Rest(y, p) !in todo)
      invariant forall y :: y in r ==> r[y] == if Comes(y, t, p) && Rest(y, p) !in todo then t[Rest(y, p)] else g[y]
    {
      var k :| k in todo;
      UnderQualified(p, k);
      hide Under, Qualified, HasPrefix, Rest;
      if !HasPrefix(k) {
        r := r[Qualified(p, k) := t[k]];
      }
      todo := todo - {k};
    }
  }

  /** A bare key is qualified, over a qualified one of the same name; prefixed ones stay, and no bare one is left. */
  lemma {:induction false} QualifiedSays(r: Tags, m: Tags, p: string, k: string)
    requires IsQualified(r, m, p) && k in m
    ensures !("provider:" <= k) ==>
              "provider:" + p + ":" + k in r && r["provider:" + p + ":" + k] == m[k] && k !in r
    ensures "provider:" <= k ==> k in r
    ensures "provider:" <= k && !(exists j :: j in m && !("provider:" <= j) && k == "provider:" + p + ":" + j) ==> r[k] == m[k]
  {
    KeysAreWritten(p, k);
    UnderQualified(p, k);
    if HasPrefix(k) && Comes(k, m, p) {
      KeysAreWritten(p, Rest(k, p));
    }
    hide Qualified, Under, Rest;
  }

  /** The bare tags of a provider are among the global ones under its name, over those that were there; others stay. */
  lemma {:induction false} ExtendedSays(r: Tags, g: Tags, p: string, t: Tags, k: string)
    requires IsExtended(r, g, p, t)
    ensures k in t && !("provider:" <= k) ==>
              "provider:" + p + ":" + k in r && r["provider:" + p + ":" + k] == t[k]
    ensures k in g ==> k in r
    ensures k in g && !(exists j :: j in t && !("provider:" <= j) && k == "provider:" + p + ":" + j) ==> r[k] == g[k]
  {
    KeysAreWritten(p, k);
    UnderQualified(p, k);
    if Comes(k, t, p) {
      KeysAreWritten(p, Rest(k, p));
    }
    hide Qualified, Under, Rest;
  }

  // All providers -------------------------------------------------------------------------------

  type Providers = map<string, Tags>

  /** A provider in `done` has a tag that is qualified to `y`. */
  ghost predicate Provided(y: string, ps: Providers, done: set<string>) {
    exists p :: p in done && p in ps && Comes(y, ps[p], p)
  }

  ghost predicate FromProvider(y: string, v: string, ps: Providers, done: set<string>) {
    exists p :: p in done && p in ps && Comes(y, ps[p], p) && v == ps[p][Rest(y, p)]
  }

  /** `g0` with the tags of the providers in `done`. Two providers can only have the same one if a name has a colon. */
  ghost predicate IsGlobal(g: Tags, g0: Tags, ps: Providers, done: set<string>) {
    && (forall y :: y in g <==> y in g0 || Provided(y, ps, done))
    && (forall y :: y in g ==> if Provided(y, ps, done) then FromProvider(y, g[y], ps, done) else g[y] == g0[y])
  }

  predicate Plain(ps: Providers) { forall p :: p in ps ==> Token !in p }

  lemma {:induction false} OneMore(g: Tags, g': Tags, g0: Tags, ps: Providers, done: set<string>, p: string)
    requires p in ps && IsGlobal(g, g0, ps, done) && IsExtended(g', g, p, ps[p])
    ensures IsGlobal(g', g0, ps, done + {p})
  {
    hide Comes, Rest;
    forall y ensures Provided(y, ps, done + {p}) <==> Provided(y, ps, done) || Comes(y, ps[p], p) {
    }
    forall y, v | FromProvider(y, v, ps, done) ensures FromProvider(y, v, ps, done + {p}) {
    }
  }

  /** What a device has before its own passes: the global tags, overridden by its own. If there are providers,
      unprefixed tags have been qualified by where they come from. */
  ghost predicate IsMerged(m: Tags, g: Tags, ps: Providers, d: Tags) {
    if ps == map[] then m == g + d
    else exists g0, g1, d1 ::
      && IsQualified(g0, g, GlobalProvider) && IsQualified(d1, d, DeviceProvider)
      && IsGlobal(g1, g0, ps, ps.Keys) && m == g1 + d1
  }

  class SnmpConfig {
    var doneInit: bool
    var global: Tags
    var devices: map<string, Device>

    constructor (g: Tags, ds: map<string, Device>)
      ensures !doneInit && global == g && devices == ds
    {
      doneInit, global, devices := false, g, ds;
    }

    /** Init */
    method Init(provider: string, tags: Tags) returns (ghost g0: Tags)
      modifies this
      ensures doneInit
      ensures if old(doneInit) then g0 == old(global) && devices == old(devices)
              else IsQualified(g0, old(global), GlobalProvider) && DevicesQualified(devices, old(devices))
      ensures IsExtended(global, g0, provider, tags)
    {
      if !doneInit {
        doneInit := true;
        global := QualifyAll(global, GlobalProvider);
        QualifyDevices();
      }
      g0 := global;
      global := AddProvider(global, provider, tags);
    }

    method QualifyDevices()
      modifies this`devices
      ensures DevicesQualified(devices, old(devices))
    {
      hide IsQualified;
      var todo := devices.Keys;
      while todo != {}
        invariant todo <= devices.Keys == old(devices).Keys
        invariant forall n :: n in devices ==> devices[n].provider == old(devices)[n].provider
        invariant forall n :: n in todo ==> devices[n] == old(devices)[n]
        invariant forall n :: n in devices.Keys - todo ==> IsQualified(devices[n].tags, old(devices)[n].tags, DeviceProvider)
      {
        var n :| n in todo;
        var tags := QualifyAll(devices[n].tags, DeviceProvider);
        devices := devices[n := devices[n].(tags := tags)];
        todo := todo - {n};
      }
    }

    /** The part of parseConfig about tags. `profiles` has the provider of a device's profile. */
    method ParseTags(providers: Providers, profiles: map<string, string>)
      requires !doneInit
      modifies this
      ensures devices.Keys == old(devices).Keys
      ensures forall n :: n in devices ==>
                devices[n].provider
                == if n in profiles && profiles[n] != "" then profiles[n] else old(devices)[n].provider
      ensures forall n :: n in devices ==>
                exists m :: IsMerged(m, old(global), providers, old(devices)[n].tags)
                            && IsOutcome(devices[n].tags, m, devices[n].provider)
    {
      hide IsMerged, IsOutcome, IsQualified, IsGlobal, IsExtended;
      ghost var g, ds := global, devices;
      ghost var g0 := InitAll(providers);
      ghost var between := devices;
      CopyDown();
      forall n | n in devices ensures IsMerged(devices[n].tags, g, providers, ds[n].tags) {
        MergedSo(devices[n].tags, g, g0, global, providers, ds[n].tags, between[n].tags);
      }
      ghost var merged := devices;
      var todo := devices.Keys;
      while todo != {}
        invariant todo <= devices.Keys == ds.Keys
        invariant forall n :: n in todo ==> devices[n] == merged[n]
        invariant forall n :: n in devices.Keys - todo ==>
                    Tweaked(devices[n], merged[n].tags, ProviderOf(ds[n], profiles, n))
      {
        hide Tweaked;
        var n :| n in todo;
        var provider := ProviderOf(devices[n], profiles, n);
        var tags := SetDeviceTags(devices[n].tags, provider);
        assert Tweaked(Device(provider, tags), merged[n].tags, provider) by {
          IsTweaked(tags, merged[n].tags, provider);
        }
        devices := devices[n := Device(provider, tags)];
        todo := todo - {n};
      }
    }

    /** Init for every provider, in any order. */
    method InitAll(providers: Providers) returns (ghost g0: Tags)
      requires !doneInit
      modifies this
      ensures if providers == map[] then devices == old(devices) && global == old(global)
              else && IsQualified(g0, old(global), GlobalProvider) && DevicesQualified(devices, old(devices))
                   && IsGlobal(global, g0, providers, providers.Keys)
    {
      hide IsQualified, IsExtended, IsGlobal, DevicesQualified;
      g0 := global;
      var todo := providers.Keys;
      while todo != {}
        invariant todo <= providers.Keys && (doneInit <==> todo != providers.Keys)
        invariant !doneInit ==> devices == old(devices) && global == old(global)
        invariant doneInit ==>
                    && IsQualified(g0, old(global), GlobalProvider) && DevicesQualified(devices, old(devices))
                    && IsGlobal(global, g0, providers, providers.Keys - todo)
      {
        var p :| p in todo;
        ghost var before, first := global, !doneInit;
        ghost var g1 := Init(p, providers[p]);
        if first {
          g0 := g1;
          NoProviders(g0, providers);
          assert providers.Keys - todo == {};
          before := g0;
        }
        OneMore(before, global, g0, providers, providers.Keys - todo, p);
        assert providers.Keys - todo + {p} == providers.Keys - (todo - {p});
        todo := todo - {p};
      }
      assert providers.Keys - todo == providers.Keys;
    }

    /** The global tags that a device does not have are copied to it. */
    method CopyDown()
      modifies this`devices
      ensures devices.Keys == old(devices).Keys
      ensures forall n :: n in devices ==> devices[n] == Overlaid(old(devices)[n], global, global.Keys)
    {
      var todo := global.Keys;
      while todo != {}
        invariant todo <= global.Keys && devices.Keys == old(devices).Keys
        invariant forall n :: n in devices ==> devices[n] == Overlaid(old(devices)[n], global, global.Keys - todo)
      {
        var k :| k in todo;
        ghost var before := devices;
        CopyOne(k, global[k]);
        forall n | n in devices ensures devices[n] == Overlaid(old(devices)[n], global, global.Keys - (todo - {k})) {
          assert global.Keys - (todo - {k}) == global.Keys - todo + {k};
          OverlaidMore(old(devices)[n], global, global.Keys - todo, k);
        }
        todo := todo - {k};
      }
      assert global.Keys - todo == global.Keys;
    }

    method CopyOne(k: string, v: string)
      modifies this`devices
      ensures devices.Keys == old(devices).Keys
      ensures forall n :: n in devices ==> devices[n] == WithDefault(old(devices)[n], k, v)
    {
      var todo := devices.Keys;
      while todo != {}
        invariant todo <= devices.Keys == old(devices).Keys
        invariant forall n :: n in todo ==> devices[n] == old(devices)[n]
        invariant forall n :: n in devices.Keys - todo ==> devices[n] == WithDefault(old(devices)[n], k, v)
      {
        var n :| n in todo;
        if k !in devices[n].tags {
          devices := devices[n := devices[n].(tags := devices[n].tags[k := v])];
        }
        todo := todo - {n};
      }
    }
  }

  ghost predicate Tweaked(d: Device, m: Tags, provider: string) {
    d.provider == provider && IsOutcome(d.tags, m, provider)
  }

  lemma {:induction false} IsTweaked(tags: Tags, m: Tags, provider: string)
    requires IsOutcome(tags, m, provider)
    ensures Tweaked(Device(provider, tags), m, provider)
  {
  }

  function WithDefault(d: Device, k: string,
                       v: string): Device { if k in d.tags then d else d.(tags := d.tags[k := v]) }

  /** A device with the global tags of `keys` under its own. */
  function Overlaid(d: Device, g: Tags, keys: set<string>): Device {
    d.(tags := (map k | k in g && k in keys :: g[k]) + d.tags)
  }

  lemma {:induction false} OverlaidMore(d: Device, g: Tags, keys: set<string>, k: string)
    requires k in g
    ensures Overlaid(d, g, keys + {k}) == WithDefault(Overlaid(d, g, keys), k, g[k])
  {
    assert Overlaid(d, g, keys + {k}).tags == WithDefault(Overlaid(d, g, keys), k, g[k]).tags;
  }

  lemma {:induction false} NoProviders(g0: Tags, ps: Providers)
    ensures IsGlobal(g0, g0, ps, {})
  {
  }

  lemma {:induction false} MergedSo(m: Tags, g: Tags, g0: Tags, g1: Tags, ps: Providers, d: Tags, d1: Tags)
    requires m == Overlaid(Device("", d1), g1, g1.Keys).tags
    requires if ps == map[] then d1 == d && g1 == g
             else IsQualified(g0, g, GlobalProvider) && IsQualified(d1, d, DeviceProvider) && IsGlobal(g1, g0, ps, ps.Keys)
    ensures IsMerged(m, g, ps, d)
  {
    hide IsQualified, IsGlobal;
    assert m == g1 + d1;
  }

  function ProviderOf(d: Device, profiles: map<string, string>, n: string): string {
    if n in profiles && profiles[n] != "" then profiles[n] else d.provider
  }

  ghost predicate DevicesQualified(ds: map<string, Device>, was: map<string, Device>) {
    && ds.Keys == was.Keys
    && forall n :: n in ds ==> ds[n].provider == was[n].provider && IsQualified(ds[n].tags, was[n].tags, DeviceProvider)
  }

  // Precedence ----------------------------------------------------------------------------------

  /** No provider has a colon in its name or is called device or global, and the keys are not prefixed. */
  ghost predicate Clean(g: Tags, ps: Providers, d: Tags) {
    && Plain(ps) && DeviceProvider !in ps && GlobalProvider !in ps
    && (forall k :: k in g || k in d ==> !HasPrefix(k))
  }

  /** A device's own tag, else that of its provider, else the global one. */
  function Layered(g: Tags, ps: Providers, d: Tags, provider: string, k: string): Option<string> {
    if k in d then Some(d[k])
    else if provider in ps && k in ps[provider] then Some(ps[provider][k])
    else if k in g then Some(g[k])
    else None
  }

  lemma {:induction false} InDevice(d1: Tags, d: Tags, p: string, k: string)
    requires IsQualified(d1, d, DeviceProvider) && (forall j :: j in d ==> !HasPrefix(j)) && Token !in p
    ensures Qualified(p, k) in d1 <==> p == DeviceProvider && !HasPrefix(k) && k in d
    ensures Qualified(p, k) in d1 ==> d1[Qualified(p, k)] == d[k]
    ensures !HasPrefix(k) ==> k !in d1
  {
    UnderQualified(p, k);
    if Under(Qualified(p, k), DeviceProvider) {
      OneProvider(Qualified(p, k), p, DeviceProvider);
    }
    hide Qualified, HasPrefix;
  }

  lemma {:induction false} InGlobal(g1: Tags, g0: Tags, g: Tags, ps: Providers, p: string, k: string)
    requires IsQualified(g0, g, GlobalProvider) && IsGlobal(g1, g0, ps, ps.Keys) && Clean(g, ps, map[])
    requires !HasPrefix(k) && Token !in p
    ensures Qualified(p, k) in g1 <==> if p == GlobalProvider then k in g else p in ps && k in ps[p]
    ensures Qualified(p, k) in g1 ==> g1[Qualified(p, k)] == if p == GlobalProvider then g[k] else ps[p][k]
    ensures k !in g1
  {
    var y := Qualified(p, k);
    UnderQualified(p, k);
    forall q | Token !in q && Under(y, q) ensures q == p {
      OneProvider(y, p, q);
    }
    assert HasPrefix(y);
    hide Under, Rest, Qualified, HasPrefix;
    assert Comes(y, g, GlobalProvider) <==> p == GlobalProvider && k in g;
    assert y in g0 <==> p == GlobalProvider && k in g;
    if p in ps {
      assert Comes(y, ps[p], p) <==> k in ps[p];
    }
    assert forall q :: q in ps && Comes(y, ps[q], q) ==> q == p;
    assert Provided(y, ps, ps.Keys) <==> p in ps && k in ps[p];
    Unprefixed(g1, g0, g, ps, k);
  }

  lemma {:induction false} Unprefixed(g1: Tags, g0: Tags, g: Tags, ps: Providers, k: string)
    requires IsQualified(g0, g, GlobalProvider) && IsGlobal(g1, g0, ps, ps.Keys) && !HasPrefix(k)
    ensures k !in g1
  {
    assert forall m, q :: Comes(k, m, q) ==> HasPrefix(Qualified(q, Rest(k, q)));
  }

  lemma {:induction false} MergedFrom(m: Tags, g: Tags, ps: Providers, d: Tags, p: string, k: string)
    requires Clean(g, ps, d) && IsMerged(m, g, ps, d) && ps != map[] && !HasPrefix(k) && Token !in p
    ensures k !in m
    ensures var y := Qualified(p, k);
            if p == DeviceProvider then (y in m <==> k in d) && (y in m ==> m[y] == d[k])
            else if p == GlobalProvider then (y in m <==> k in g) && (y in m ==> m[y] == g[k])
            else (y in m <==> p in ps && k in ps[p]) && (y in m ==> m[y] == ps[p][k])
  {
    var g0, g1, d1 :|
      && IsQualified(g0, g, GlobalProvider) && IsQualified(d1, d, DeviceProvider)
      && IsGlobal(g1, g0, ps, ps.Keys) && m == g1 + d1;
    hide IsQualified, IsGlobal, Qualified, HasPrefix;
    InDevice(d1, d, p, k);
    InGlobal(g1, g0, g, ps, p, k);
  }

  // No key prefixed twice -----------------------------------------------------------------------

  predicate Simple(m: Tags) { forall k :: k in m && PartsOf(k).Some? ==> !HasPrefix(PartsOf(k).value.key) }

  lemma {:induction false} SimplePasses(m: Tags, p: string)
    requires Simple(m)
    ensures NoDouble(m, p) && Simple(Passed(m, p))
  {
    var r := Passed(m, p);
    forall k | k in r && PartsOf(k).Some? ensures !HasPrefix(PartsOf(k).value.key) {
      PassedAt(m, p, k);
      MovesIff(p, Qualified(p, k), k);
    }
  }

  lemma {:induction false} SimpleIsDetermined(m: Tags, provider: string)
    requires Simple(m)
    ensures Determined(m, provider)
  {
    SimplePasses(m, DeviceProvider);
    SimplePasses(Passed(m, DeviceProvider), provider);
    SimplePasses(Passed(Passed(m, DeviceProvider), provider), GlobalProvider);
  }

  lemma {:induction false} NotNested(m: Tags, p: string, k: string)
    requires Simple(m) && Token !in p && HasPrefix(k)
    ensures Qualified(p, k) !in m
  {
    QualifiedParts(p, k);
  }

  /** Where no key is prefixed twice, four keys can win. */
  lemma {:induction false} SimpleSources(m: Tags, provider: string, k: string)
    requires Simple(m) && !HasPrefix(k)
    ensures FirstIn(m, Sources(provider, k))
            == Or(Look(m, k),
                  Or(Look(m, Qualified(DeviceProvider, k)),
                     Or(if Token in provider then None else Look(m, Qualified(provider, k)),
                        Look(m, Qualified(GlobalProvider, k)))))
  {
    var global, own := Qualified(GlobalProvider, k), Qualified(provider, k);
    FirstConcat(m, OwnOrDevice(k) + OfProvider(provider, k), OwnOrDevice(global) + OfProvider(provider, global));
    FirstConcat(m, OwnOrDevice(k), OfProvider(provider, k));
    FirstConcat(m, OwnOrDevice(global), OfProvider(provider, global));
    FirstOfTwo(m, k);
    FirstOfTwo(m, own);
    FirstOfTwo(m, global);
    FirstOfTwo(m, Qualified(provider, global));
    assert HasPrefix(global) && HasPrefix(own) && HasPrefix(Qualified(provider, global));
    NotNested(m, DeviceProvider, global);
    NotNested(m, DeviceProvider, own);
    NotNested(m, DeviceProvider, Qualified(provider, global));
    if Token !in provider {
      NotNested(m, provider, global);
    }
    hide OwnOrDevice, HasPrefix, Qualified, Simple;
  }

  lemma {:induction false} ComesOnce(y: string, m: Tags, p: string)
    requires Comes(y, m, p) && Token !in p
    ensures PartsOf(y).Some? && !HasPrefix(PartsOf(y).value.key)
  {
    QualifiedParts(p, Rest(y, p));
  }

  lemma {:induction false} MergedIsSimple(m: Tags, g: Tags, ps: Providers, d: Tags)
    requires Clean(g, ps, d) && IsMerged(m, g, ps, d)
    ensures Simple(m)
  {
    hide HasPrefix, PartsOf, Comes;
    forall y | y in m && PartsOf(y).Some? ensures !HasPrefix(PartsOf(y).value.key) {
      PartsHavePrefix(y);
      if ps != map[] {
        var p, t := ComesFrom(m, g, ps, d, y);
        ComesOnce(y, t, p);
      }
    }
  }

  lemma {:induction false} PartsHavePrefix(y: string)
    ensures PartsOf(y).Some? ==> HasPrefix(y)
  {
  }

  lemma {:induction false} ComesFrom(m: Tags, g: Tags, ps: Providers, d: Tags, y: string)
    returns (p: string, t: Tags)
    requires Clean(g, ps, d) && IsMerged(m, g, ps, d) && ps != map[] && y in m
    ensures Comes(y, t, p) && Token !in p
  {
    hide HasPrefix, Comes, IsQualified, IsGlobal, Clean;
    var g0, g1, d1 :|
      && IsQualified(g0, g, GlobalProvider) && IsQualified(d1, d, DeviceProvider)
      && IsGlobal(g1, g0, ps, ps.Keys) && m == g1 + d1;
    if y in d1 {
      QualifiedFrom(d1, d, DeviceProvider, g, ps, d, y);
      p, t := DeviceProvider, d;
    } else {
      p, t := GlobalFrom(g1, g0, g, ps, d, y);
    }
  }

  lemma {:induction false} QualifiedFrom(r: Tags, m: Tags, p: string, g: Tags, ps: Providers, d: Tags, y: string)
    requires Clean(g, ps, d) && IsQualified(r, m, p) && (m == g || m == d) && y in r
    ensures Comes(y, m, p)
  {
    hide HasPrefix, Comes;
  }

  lemma {:induction false} GlobalFrom(g1: Tags, g0: Tags, g: Tags, ps: Providers, d: Tags, y: string)
    returns (p: string, t: Tags)
    requires Clean(g, ps, d) && IsQualified(g0, g, GlobalProvider) && IsGlobal(g1, g0, ps, ps.Keys) && y in g1
    ensures Comes(y, t, p) && Token !in p
  {
    hide HasPrefix, Comes, Rest;
    if Provided(y, ps, ps.Keys) {
      p :| p in ps && Comes(y, ps[p], p);
      t := ps[p];
    } else {
      QualifiedFrom(g0, g, GlobalProvider, g, ps, d, y);
      p, t := GlobalProvider, g;
    }
  }

  /** Device over provider over global: the whole way from the configuration to the tags of a device. */
  lemma {:induction false} Precedence(r: Tags, m: Tags, g: Tags, ps: Providers, d: Tags, provider: string, k: string)
    requires Clean(g, ps, d) && IsMerged(m, g, ps, d) && IsOutcome(r, m, provider)
    ensures k in r <==> !HasPrefix(k) && Layered(g, ps, d, provider, k).Some?
    ensures k in r ==> r[k] == Layered(g, ps, d, provider, k).value
  {
    MergedIsSimple(m, g, ps, d);
    SimpleIsDetermined(m, provider);
    OutcomeIsResolved(r, m, provider);
    ResolvedAt(m, provider, k);
    hide IsMerged, IsOutcome, Qualified, HasPrefix, Simple, Determined, Resolved, FirstIn, Sources;
    if !HasPrefix(k) {
      SimpleSources(m, provider, k);
      if ps == map[] {
        UnqualifiedOnly(m, g, d, provider, k);
      } else {
        MergedFrom(m, g, ps, d, DeviceProvider, k);
        MergedFrom(m, g, ps, d, GlobalProvider, k);
        if Token !in provider {
          MergedFrom(m, g, ps, d, provider, k);
        }
      }
    }
  }

  lemma {:induction false} UnqualifiedOnly(m: Tags, g: Tags, d: Tags, p: string, k: string)
    requires Clean(g, map[], d) && IsMerged(m, g, map[], d)
    ensures m == g + d && Qualified(p, k) !in m
    ensures Qualified(DeviceProvider, k) !in m && Qualified(GlobalProvider, k) !in m
  {
    assert forall q :: HasPrefix(Qualified(q, k));
  }
}
