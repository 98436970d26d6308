/**
 The device set after a discovery: insertion, removal of duplicates and purging in addDevices of
 pkg/inputs/snmp/disco.go. Every range over a map takes its keys in an order of its own, which the
 specifications take as an argument.
 */
module DeviceSet {

  /** The fields that matter here; `purge` is 0 where a device leaves the number to the global settings. */
  datatype Device = Device(name: string, ip: string, engineID: string, purge: int, checked: int)

  type Devices = map<string, Device>

  /** The current time, the poll duration, and the configured parts. */
  datatype Settings = Settings(now: int, pollDuration: int, purgeDevices: int, replaceDevices: bool, noDedup: bool)

  datatype Stats = Stats(added: int, replaced: int)

  /** An order of the keys of a map. */
  ghost predicate Orders(order: seq<string>, keys: set<string>) {
    && (forall i, j :: 0 <= i < j < |order| ==> order[i] != order[j])
    && (forall k :: k in order <==> k in keys)
  }

  lemma {:induction false} OrdersSnoc(order: seq<string>, keys: set<string>, k: string)
    requires Orders(order, keys) && k !in keys
    ensures Orders(order + [k], keys + {k})
  {
  }

  // Insertion -----------------------------------------------------------------------------------

  function UpdateFrom(d: Device, was: Device): Device { if was.purge != 0 then d.(purge := was.purge) else d }

  function AltKey(d: Device, dip: string): string { d.name + "__" + dip }

  datatype Outcome = Outcome(devices: Devices, stats: Stats)

  /** One found device. It is added under its name and address, or it replaces or refreshes the entry that is
      there under its name or under both. */
  function Insert(o: Outcome, s: Settings, knownIPs: set<string>, dip: string, d: Device): Outcome {
    var ds, alt := o.devices, AltKey(d, dip);
    var key := if dip !in knownIPs && d.name in ds then alt else d.name;
    if key !in ds && alt !in ds then Outcome(ds[alt := d], o.stats.(added := o.stats.added + 1))
    else
      var at := if key in ds then key else alt;
      if s.replaceDevices then Outcome(ds[at := UpdateFrom(d, ds[at])], o.stats.(replaced := o.stats.replaced + 1))
      else Outcome(ds[at := ds[at].(checked := s.now)], o.stats)
  }

  /**
   What a found device does to the set. Its entry is the one under its name, if there is one and the address was known
   before, and else that under its name and address. An entry that is not there is added. One that is there is
   replaced by the found device, but keeps a purge number of its own, or only has its time of checking set. No other
   entry changes.
   */
  lemma {:induction false} InsertIs(o: Outcome, s: Settings, knownIPs: set<string>, dip: string, d: Device)
    ensures var at := if d.name in o.devices && dip in knownIPs then d.name else d.name + "__" + dip;
            var r, was := Insert(o, s, knownIPs, dip, d), o.devices;
            && (at !in was ==> r == Outcome(was[at := d], Stats(o.stats.added + 1, o.stats.replaced)))
            && (at in was && s.replaceDevices ==>
                  && r.devices == was[at := r.devices[at]] && r.stats == Stats(o.stats.added, o.stats.replaced + 1)
                  && r.devices[at].(purge := d.purge) == d
                  && r.devices[at].purge == if was[at].purge != 0 then was[at].purge else d.purge)
            && (at in was && !s.replaceDevices ==>
                  r == Outcome(was[at := was[at].(checked := s.now)], o.stats))
  {
  }

  function InsertAll(o: Outcome, s: Settings, knownIPs: set<string>, found: Devices, order: seq<string>): Outcome
    requires forall k :: k in order ==> k in found
  {
    if order == [] then o
    else
      var last := order[|order| - 1];
      Insert(InsertAll(o, s, knownIPs, found, order[..|order| - 1]), s, knownIPs, last, found[last])
  }

  /** Insertion keeps every key, and each found device has an entry under its name or its alternative key. */
  lemma {:induction false} InsertAllKeeps(o: Outcome, s: Settings, knownIPs: set<string>, found: Devices,
                                          order: seq<string>)
    requires forall k :: k in order ==> k in found
    ensures var r := InsertAll(o, s, knownIPs, found, order);
            && |r.devices| - r.stats.added == |o.devices| - o.stats.added
            && o.devices.Keys <= r.devices.Keys
            && forall k :: k in order ==> found[k].name in r.devices || AltKey(found[k], k) in r.devices
  {
    if order != [] {
      var init, last := order[..|order| - 1], order[|order| - 1];
      assert order == init + [last];
      InsertAllKeeps(o, s, knownIPs, found, init);
      InsertKeeps(InsertAll(o, s, knownIPs, found, init), s, knownIPs, last, found[last]);
    }
  }

  lemma {:induction false} InsertKeeps(o: Outcome, s: Settings, knownIPs: set<string>, dip: string, d: Device)
    ensures var r := Insert(o, s, knownIPs, dip, d);
            && |r.devices| - r.stats.added == |o.devices| - o.stats.added
            && o.devices.Keys <= r.devices.Keys
            && (d.name in r.devices || AltKey(d, dip) in r.devices)
  {
    var r := Insert(o, s, knownIPs, dip, d);
    assert r.devices.Keys == o.devices.Keys || r.devices.Keys == o.devices.Keys + {AltKey(d, dip)};
  }

  // Duplicates ----------------------------------------------------------------------------------

  /** The engine IDs of the devices in `order`. */
  function IDs(ds: Devices, order: seq<string>): set<string>
    requires forall k :: k in order ==> k in ds
  {
    if order == [] then {} else IDs(ds, order[..|order| - 1]) + ({ds[order[|order| - 1]].engineID} - {""})
  }

  /** The keys kept of those in `order`: the first of every engine ID, and all without one. */
  function Kept(ds: Devices, order: seq<string>): (kept: set<string>)
    requires forall k :: k in order ==> k in ds
    ensures forall k :: k in kept ==> k in order
  {
    if order == [] then {}
    else
      var init, last := order[..|order| - 1], order[|order| - 1];
      Kept(ds, init) + if ds[last].engineID in IDs(ds, init) then {} else {last}
  }

  function DedupAll(o: Outcome, s: Settings, order: seq<string>): Outcome
    requires forall k :: k in order ==> k in o.devices
  {
    if s.noDedup then o
    else
      var kept := Kept(o.devices, order);
      Outcome(map k | k in o.devices && k in kept :: o.devices[k], o.stats.(added := o.stats.added - (|o.devices| - |kept|)))
  }

  lemma {:induction false} IDsAre(ds: Devices, order: seq<string>)
    requires forall k :: k in order ==> k in ds
    ensures "" !in IDs(ds, order)
    ensures forall k :: k in order ==> ds[k].engineID == "" || ds[k].engineID in IDs(ds, order)
  {
    if order != [] {
      assert order == order[..|order| - 1] + [order[|order| - 1]];
      IDsAre(ds, order[..|order| - 1]);
    }
  }

  lemma {:induction false} KeptWithout(ds: Devices, order: seq<string>, k: string)
    requires (forall k :: k in order ==> k in ds) && k in order && ds[k].engineID == ""
    ensures k in Kept(ds, order)
  {
    var init, last := order[..|order| - 1], order[|order| - 1];
    assert order == init + [last];
    IDsAre(ds, init);
    if k != last {
      KeptWithout(ds, init, k);
    }
  }

  lemma {:induction false} KeptWith(ds: Devices, order: seq<string>, id: string) returns (k: string)
    requires (forall k :: k in order ==> k in ds) && id in IDs(ds, order)
    ensures k in Kept(ds, order) && ds[k].engineID == id
    ensures forall k' :: k' in Kept(ds, order) && ds[k'].engineID == id ==> k' == k
  {
    var init, last := order[..|order| - 1], order[|order| - 1];
    assert order == init + [last];
    IDsAre(ds, init);
    if id in IDs(ds, init) {
      k := KeptWith(ds, init, id);
    } else {
      k := last;
    }
  }

  /** Whatever the order, one device is left for each engine ID present. */
  lemma {:induction false} DedupLeavesOne(o: Outcome, s: Settings, order: seq<string>, id: string) returns (k: string)
    requires Orders(order, o.devices.Keys) && !s.noDedup
    requires id != "" && exists k :: k in o.devices && o.devices[k].engineID == id
    ensures var r := DedupAll(o, s, order).devices;
            && k in r && r[k].engineID == id && forall k' :: k' in r && r[k'].engineID == id ==> k' == k
  {
    IDsAre(o.devices, order);
    k := KeptWith(o.devices, order, id);
  }

  /** Nothing else changes: a device that goes has an engine ID, and so is outlived by another that has it. */
  lemma {:induction false} DedupKeepsOthers(o: Outcome, s: Settings, order: seq<string>, k: string)
    requires Orders(order, o.devices.Keys) && k in o.devices
    ensures var r := DedupAll(o, s, order).devices;
            && (k in r ==> r[k] == o.devices[k])
            && (k !in r ==> !s.noDedup && o.devices[k].engineID != "")
  {
    if o.devices[k].engineID == "" {
      KeptWithout(o.devices, order, k);
    }
  }

  lemma {:induction false} DedupCounts(o: Outcome, s: Settings, order: seq<string>)
    requires Orders(order, o.devices.Keys)
    ensures var r := DedupAll(o, s, order); |r.devices| - r.stats.added == |o.devices| - o.stats.added
  {
    if !s.noDedup {
      var r, kept := DedupAll(o, s, order), Kept(o.devices, order);
      assert forall k :: k in kept ==> k in o.devices;
      assert r.devices.Keys == kept;
    }
  }

  // Purging -------------------------------------------------------------------------------------

  /** Fifteen minutes, in seconds. */
  const RemoveTimeBuffer: int := 15 * 60

  /** Not seen for `n` polls. */
  predicate Stale(d: Device, s: Settings, n: int) {
    n > 0 && s.pollDuration > 0 && d.checked < s.now - n * s.pollDuration - RemoveTimeBuffer
  }

  /** With a purge number and polling, a device is stale when it was last seen more than so many polls and a quarter of
      an hour ago. */
  lemma {:induction false} StaleIff(d: Device, s: Settings, n: int)
    ensures Stale(d, s, n) <==> n >= 1 && s.pollDuration >= 1 && s.now - d.checked > n * s.pollDuration + 900
  {
  }

  /** Invalid is the error return in the middle of the loop, with what had been done until then. */
  datatype Purged =
    | Purged(devices: Devices, added: int, removeNum: int)
    | Invalid(devices: Devices, added: int, removeNum: int)

  /** One device. The number that it sets stays for the devices that come after it. */
  function Purge(p: Purged, s: Settings, k: string): Purged
    requires p.Purged? && k in p.devices
  {
    var d := p.devices[k];
    var n := if d.purge != 0 then d.purge else p.removeNum;
    if n < -1 then Invalid(p.devices, p.added, n)
    else if Stale(d, s, n) then Purged(p.devices - {k}, p.added - 1, n)
    else p.(removeNum := n)
  }

  lemma {:induction false} PurgeTakesOne(p: Purged, s: Settings, k: string)
    requires p.Purged? && k in p.devices
    ensures var r := Purge(p, s, k);
            && |r.devices| - r.added == |p.devices| - p.added && r.devices.Keys <= p.devices.Keys
            && (forall j :: j in p.devices && j != k ==> j in r.devices)
            && (forall j :: j in r.devices ==> r.devices[j] == p.devices[j])
  {
  }

  /** Some keys of `ds`, each once. */
  ghost predicate Visits(ds: Devices, order: seq<string>) {
    (forall k :: k in order ==> k in ds) && forall i, j :: 0 <= i < j < |order| ==> order[i] != order[j]
  }

  lemma {:induction false} VisitsFirst(ds: Devices, order: seq<string>, n: nat)
    requires Visits(ds, order) && n <= |order|
    ensures Visits(ds, order[..n])
    ensures n < |order| ==> order[n] in ds && order[n] !in order[..n] && order[..n + 1] == order[..n] + [order[n]]
  {
    if n < |order| {
      assert order[n] in order;
    }
  }

  /** Only devices of `order` are gone, and as many as were counted. */
  ghost predicate Shrunk(p: Purged, ds: Devices, added: int, order: seq<string>) {
    && p.devices.Keys <= ds.Keys && |p.devices| - p.added == |ds| - added
    && (forall k :: k in ds && k !in order ==> k in p.devices)
    && (forall k :: k in p.devices ==> p.devices[k] == ds[k])
  }

  /** The devices of `order`, one after the other. */
  function PurgeAll(ds: Devices, added: int, s: Settings, order: seq<string>): (p: Purged)
    requires Visits(ds, order)
    ensures Shrunk(p, ds, added, order)
  {
    if order == [] then Purged(ds, added, s.purgeDevices)
    else
      var init, last := order[..|order| - 1], order[|order| - 1];
      VisitsFirst(ds, order, |order| - 1);
      var p := PurgeAll(ds, added, s, init);
      if p.Invalid? then p
      else
        PurgeTakesOne(p, s, last);
        Purge(p, s, last)
  }

  lemma {:induction false} PurgeLast(ds: Devices, added: int, s: Settings, order: seq<string>)
    requires order != [] && Visits(ds, order)
    ensures Visits(ds, order[..|order| - 1])
    ensures var init, last := order[..|order| - 1], order[|order| - 1];
            var p := PurgeAll(ds, added, s, init);
            && order == init + [last] && last !in init
            && PurgeAll(ds, added, s, order) == (if p.Invalid? then p else Purge(p, s, last))
            && last in p.devices && p.devices[last] == ds[last]
  {
    VisitsFirst(ds, order, |order| - 1);
    assert order[..|order|] == order;
  }

  /** A device with a number of its own goes only if that makes it stale, and a pinned one never does, even where
      the purge ends in an error; if it does not, every stale device with a number goes. This holds in every
      order. */
  lemma {:induction false} OwnNumberDecides(ds: Devices, added: int, s: Settings, order: seq<string>, k: string)
    requires Visits(ds, order)
    requires k in order && ds[k].purge != 0
    ensures var p := PurgeAll(ds, added, s, order);
            && (!Stale(ds[k], s, ds[k].purge) ==> k in p.devices)
            && (p.Purged? ==> (k in p.devices <==> !Stale(ds[k], s, ds[k].purge)))
            && (ds[k].purge == -1 ==> k in p.devices)
  {
    PurgeLast(ds, added, s, order);
    hide PurgeAll, Purge, Stale, Shrunk, Visits;
    var init, last := order[..|order| - 1], order[|order| - 1];
    if k != last {
      OwnNumberDecides(ds, added, s, init, k);
    }
    var p := PurgeAll(ds, added, s, init);
    if p.Purged? {
      NumberStays(p, s, last, k, ds[k]);
    }
    PinnedIsNotStale(ds[k], s);
  }

  /** The number of every device that has one says the same about device k as the global number. */
  ghost predicate NumbersAgree(ds: Devices, s: Settings, k: string)
    requires k in ds
  {
    forall j :: j in ds && ds[j].purge != 0 ==> Stale(ds[k], s, ds[j].purge) == Stale(ds[k], s, s.purgeDevices)
  }

  /** Then the global number decides about k, in every order. */
  lemma {:induction false} GlobalNumberDecides(ds: Devices, added: int, s: Settings, order: seq<string>, k: string)
    requires Visits(ds, order)
    requires k in ds && ds[k].purge == 0 && NumbersAgree(ds, s, k)
    ensures var p, stale := PurgeAll(ds, added, s, order), Stale(ds[k], s, s.purgeDevices);
            && Stale(ds[k], s, p.removeNum) == stale && (stale ==> p.Purged?)
            && (k in p.devices <==> !stale || k !in order)
  {
    if order != [] {
      PurgeLast(ds, added, s, order);
      hide PurgeAll, Purge, Stale, Shrunk, Visits;
      var init, last := order[..|order| - 1], order[|order| - 1];
      GlobalNumberDecides(ds, added, s, init, k);
      var p := PurgeAll(ds, added, s, init);
      if p.Purged? {
        NumberStays(p, s, last, k, ds[k]);
        hide NumbersAgree;
        assert last == k || k in order <==> k in init || last == k;
      }
    }
  }

  lemma {:induction false} PinnedIsNotStale(d: Device, s: Settings)
    ensures !Stale(d, s, -1)
  {
  }

  /** The number after a device is its own or the one before, and only that device can go. */
  lemma {:induction false} NumberStays(p: Purged, s: Settings, last: string, k: string, d: Device)
    requires p.Purged? && last in p.devices
    ensures var r, own := Purge(p, s, last), p.devices[last].purge;
            && r.removeNum == (if own != 0 then own else p.removeNum)
            && (k != last ==> (k in r.devices <==> k in p.devices))
            && (last in r.devices <==> !Stale(p.devices[last], s, r.removeNum))
            && (Stale(d, s, r.removeNum) ==> r.Purged?)
  {
  }

  /** The step from the first n keys to the first n + 1. */
  lemma {:induction false} PurgeNext(ds: Devices, added: int, s: Settings, order: seq<string>, n: nat)
    requires Visits(ds, order) && n < |order|
    ensures Visits(ds, order[..n]) && Visits(ds, order[..n + 1])
    ensures var p, last := PurgeAll(ds, added, s, order[..n]), order[n];
            && last in p.devices && p.devices[last] == ds[last]
            && PurgeAll(ds, added, s, order[..n + 1]) == if p.Invalid? then p else Purge(p, s, last)
  {
    VisitsFirst(ds, order, n + 1);
    assert order[..n + 1][..n] == order[..n];
    PurgeLast(ds, added, s, order[..n + 1]);
  }

  lemma {:induction false} RestKeeps(ds: Devices, added: int, s: Settings, order: seq<string>, n: nat, m: nat, k: string)
    requires Visits(ds, order) && n <= m <= |order| && forall i :: n <= i < m ==> order[i] != k
    ensures Visits(ds, order[..m]) && Visits(ds, order[..n])
    ensures k in PurgeAll(ds, added, s, order[..m]).devices <==> k in PurgeAll(ds, added, s, order[..n]).devices
    decreases m
  {
    hide Visits, PurgeAll, Purge, Shrunk;
    if n < m {
      RestKeeps(ds, added, s, order, n, m - 1, k);
      PurgeNext(ds, added, s, order, m - 1);
      var p := PurgeAll(ds, added, s, order[..m - 1]);
      if p.Purged? {
        NumberStays(p, s, order[m - 1], k, p.devices[order[m - 1]]);
      }
    } else {
      VisitsFirst(ds, order, n);
    }
  }

  lemma {:induction false} PurgeTwo(ds: Devices, added: int, s: Settings, j: string, k: string)
    requires j in ds && k in ds && j != k && ds[j].purge != 0 && ds[k].purge == 0
    ensures k in PurgeAll(ds, added, s, [j, k]).devices <==> !Stale(ds[k], s, ds[j].purge)
  {
    hide Purge, Stale;
    assert [j, k][..1] == [j] && [j][..0] == [];
    PurgeLast(ds, added, s, [j]);
    PurgeLast(ds, added, s, [j, k]);
    assert PurgeAll(ds, added, s, []) == Purged(ds, added, s.purgeDevices);
    hide PurgeAll;
    AfterTwo(Purged(ds, added, s.purgeDevices), s, j, k);
  }

  /** With j visited just before k, the number of j decides about k. */
  lemma {:induction false} DecidedBy(ds: Devices, added: int, s: Settings, order: seq<string>, j: string, k: string)
    requires Orders(order, ds.Keys) && |order| >= 2 && order[0] == j && order[1] == k
    requires ds[j].purge != 0 && ds[k].purge == 0
    ensures k in PurgeAll(ds, added, s, order).devices <==> !Stale(ds[k], s, ds[j].purge)
  {
    hide PurgeAll, Stale;
    assert order[..2] == [j, k] && order[..|order|] == order;
    PurgeTwo(ds, added, s, j, k);
    RestKeeps(ds, added, s, order, 2, |order|, k);
  }

  lemma {:induction false} AfterTwo(p: Purged, s: Settings, j: string, k: string)
    requires p.Purged? && j in p.devices && k in p.devices && j != k
    requires p.devices[j].purge != 0 && p.devices[k].purge == 0
    ensures var q := Purge(p, s, j);
            && k in q.devices && q.devices[k] == p.devices[k]
            && (k in (if q.Invalid? then q else Purge(q, s, k)).devices
                <==> !Stale(p.devices[k], s, p.devices[j].purge))
  {
    NumberStays(p, s, j, k, p.devices[k]);
  }

  lemma {:induction false} OrderFrom(keys: set<string>, j: string, k: string) returns (order: seq<string>)
    requires j in keys && k in keys && j != k
    ensures Orders(order, keys) && |order| >= 2 && order[0] == j && order[1] == k
  {
    var rest := SomeOrder(keys - {j, k});
    order := [j, k] + rest;
    assert forall x :: x in order <==> x == j || x == k || x in rest;
  }

  /** A device without a number of its own is purged as the global number says, whatever the order, exactly if the
      numbers of the other devices say the same about it. */
  lemma {:induction false} GlobalNumberDecidesIff(ds: Devices, added: int, s: Settings, k: string)
    requires k in ds && ds[k].purge == 0
    ensures (forall order :: Orders(order, ds.Keys) ==>
               (k in PurgeAll(ds, added, s, order).devices <==> !Stale(ds[k], s, s.purgeDevices)))
            <==> NumbersAgree(ds, s, k)
  {
    if NumbersAgree(ds, s, k) {
      forall order | Orders(order, ds.Keys)
        ensures k in PurgeAll(ds, added, s, order).devices <==> !Stale(ds[k], s, s.purgeDevices)
      {
        GlobalNumberDecides(ds, added, s, order, k);
      }
    } else {
      var j :| j in ds && ds[j].purge != 0 && Stale(ds[k], s, ds[j].purge) != Stale(ds[k], s, s.purgeDevices);
      var order := OrderFrom(ds.Keys, j, k);
      DecidedBy(ds, added, s, order, j, k);
    }
  }

  /** Where the global number is valid, a purge fails exactly if some device has an invalid number. */
  lemma {:induction false} InvalidIff(ds: Devices, added: int, s: Settings, order: seq<string>)
    requires Visits(ds, order)
    requires s.purgeDevices >= -1
    ensures PurgeAll(ds, added, s, order).Invalid? <==> exists k :: k in order && ds[k].purge < -1
    ensures PurgeAll(ds, added, s, order).Purged? ==> PurgeAll(ds, added, s, order).removeNum >= -1
  {
    if order != [] {
      PurgeLast(ds, added, s, order);
      hide PurgeAll, Stale, Shrunk, Visits;
      var init, last := order[..|order| - 1], order[|order| - 1];
      InvalidIff(ds, added, s, init);
    }
  }

  const Stray := Device("a", "10.0.0.1", "", 0, 0)
  const Pinned := Device("b", "10.0.0.2", "", -1, 0)

  /** With both kinds the order matters: after a pinned device, one without a number is kept forever. */
  lemma {:induction false} NumbersLeak()
    ensures var ds: Devices := map["a" := Stray, "b" := Pinned];
            var s := Settings(100_000, 60, 3, false, false);
            && PurgeAll(ds, 0, s, ["a", "b"]) == Purged(map["b" := Pinned], -1, -1)
            && PurgeAll(ds, 0, s, ["b", "a"]) == Purged(ds, 0, -1)
  {
    hide Shrunk;
    var ds: Devices := map["a" := Stray, "b" := Pinned];
    var s := Settings(100_000, 60, 3, false, false);
    assert ["a", "b"][..1] == ["a"] && ["b", "a"][..1] == ["b"] && ["a"][..0] == [] && ["b"][..0] == [];
    assert PurgeAll(ds, 0, s, ["a"]) == Purge(PurgeAll(ds, 0, s, []), s, "a");
    assert PurgeAll(ds, 0, s, ["b"]) == Purge(PurgeAll(ds, 0, s, []), s, "b");
    assert ds - {"a"} == map["b" := Pinned];
  }

  // addDevices ----------------------------------------------------------------------------------

  class SnmpConf {
    var devices: Devices

    /** The part of addDevices on the device set. An error leaves behind what had been done until then. */
    method AddDevices(found: Devices, s: Settings)
      returns (ok: bool, stats: Stats, delta: int, ghost o1: seq<string>, ghost o2: seq<string>, ghost o3: seq<string>)
      modifies this
      ensures Orders(o1, found.Keys)
      ensures var o := InsertAll(Outcome(old(devices), Stats(0, 0)), s, IPsOf(old(devices)), found, o1);
              && Orders(o2, o.devices.Keys)
              && (var o' := DedupAll(o, s, o2);
                  && Orders(o3, o'.devices.Keys)
                  && (ok <==> PurgeAll(o'.devices, o'.stats.added, s, o3).Purged?)
                  && devices == PurgeAll(o'.devices, o'.stats.added, s, o3).devices && stats.replaced == o'.stats.replaced)
      ensures ok ==> |devices| == |old(devices)| + stats.added && delta == -stats.added
    {
      hide InsertAll, DedupAll, PurgeAll;
      var n := |devices|;
      var byIP := IPsOf(devices);
      stats, o1 := InsertFound(found, s, byIP);
      InsertAllKeeps(Outcome(old(devices), Stats(0, 0)), s, byIP, found, o1);
      ghost var inserted := Outcome(devices, stats);
      stats, o2 := Dedup(s, stats);
      DedupCounts(inserted, s, o2);
      var added: int;
      ok, added, o3 := PurgeStale(s, stats.added);
      stats := stats.(added := added);
      delta := n - |devices|;
    }

    method InsertFound(found: Devices, s: Settings, byIP: set<string>) returns (stats: Stats, ghost order: seq<string>)
      modifies this
      ensures Orders(order, found.Keys)
      ensures Outcome(devices, stats) == InsertAll(Outcome(old(devices), Stats(0, 0)), s, byIP, found, order)
    {
      stats, order := Stats(0, 0), [];
      var todo := found.Keys;
      while todo != {}
        invariant todo <= found.Keys && Orders(order, found.Keys - todo)
        invariant Outcome(devices, stats) == InsertAll(Outcome(old(devices), Stats(0, 0)), s, byIP, found, order)
      {
        var dip :| dip in todo;
        OrdersSnoc(order, found.Keys - todo, dip);
        assert found.Keys - todo + {dip} == found.Keys - (todo - {dip}) && (order + [dip])[..|order|] == order;
        hide Orders, Insert;
        stats := InsertOne(s, byIP, dip, found[dip], stats);
        order := order + [dip];
        todo := todo - {dip};
      }
    }

    method InsertOne(s: Settings, byIP: set<string>, dip: string, d: Device, before: Stats) returns (stats: Stats)
      modifies this
      ensures Outcome(devices, stats) == Insert(Outcome(old(devices), before), s, byIP, dip, d)
    {
      stats := before;
      var key, keyAlt := d.name, AltKey(d, dip);
      if dip !in byIP && d.name in devices {
        key := keyAlt;
      }
      if key !in devices && keyAlt !in devices {
        devices := devices[keyAlt := d];
        stats := stats.(added := stats.added + 1);
      } else if key in devices {
        if s.replaceDevices {
          devices := devices[key := UpdateFrom(d, devices[key])];
          stats := stats.(replaced := stats.replaced + 1);
        } else {
          devices := devices[key := devices[key].(checked := s.now)];
        }
      } else {
        if s.replaceDevices {
          devices := devices[keyAlt := UpdateFrom(d, devices[keyAlt])];
          stats := stats.(replaced := stats.replaced + 1);
        } else {
          devices := devices[keyAlt := devices[keyAlt].(checked := s.now)];
        }
      }
    }

    method Dedup(s: Settings, before: Stats) returns (stats: Stats, ghost order: seq<string>)
      modifies this
      ensures Orders(order, old(devices).Keys)
      ensures Outcome(devices, stats) == DedupAll(Outcome(old(devices), before), s, order)
    {
      hide Orders, Deduping, DedupAll;
      ghost var ds := devices;
      stats, order := before, [];
      var byEngineID: set<string> := {};
      var todo := devices.Keys;
      DedupStarts(ds, s.noDedup);
      while todo != {}
        invariant Deduping(ds, s.noDedup, order, todo, devices, byEngineID, stats.added - before.added)
        invariant stats.replaced == before.replaced
      {
        var k :| k in todo;
        DedupStep(ds, s.noDedup, order, todo, devices, byEngineID, stats.added - before.added, k);
        var d := devices[k];
        if !s.noDedup && d.engineID != "" {
          if d.engineID in byEngineID {
            devices := devices - {k};
            stats := stats.(added := stats.added - 1);
          } else {
            byEngineID := byEngineID + {d.engineID};
          }
        }
        order := order + [k];
        todo := todo - {k};
      }
      DedupEnds(ds, s, order, devices, byEngineID, stats.added - before.added, before);
    }

    method PurgeStale(s: Settings, before: int) returns (ok: bool, added: int, ghost order: seq<string>)
      modifies this
      ensures Orders(order, old(devices).Keys)
      ensures var p := PurgeAll(old(devices), before, s, order);
              (ok <==> p.Purged?) && devices == p.devices && added == p.added
    {
      hide Purging;
      ghost var ds := devices;
      added, order, ok := before, [], true;
      var removeNum := s.purgeDevices;
      var todo := devices.Keys;
      PurgeStarts(ds, before, s);
      while todo != {}
        invariant todo <= devices.Keys
        invariant ok && Purging(ds, before, s, order, todo, Purged(devices, added, removeNum))
      {
        hide Purge, Orders, PurgeAll;
        var k :| k in todo;
        PurgeStep(ds, before, s, order, todo, Purged(devices, added, removeNum), k);
        ok, added, removeNum := PurgeOne(s, k, added, removeNum);
        order := order + [k];
        todo := todo - {k};
        if !ok {
          order := PurgeFails(ds, before, s, order, todo, Invalid(devices, added, removeNum));
          return;
        }
      }
      PurgeEnds(ds, before, s, order, Purged(devices, added, removeNum));
    }

    method PurgeOne(s: Settings, k: string, before: int, last: int) returns (ok: bool, added: int, removeNum: int)
      requires k in devices
      modifies this
      ensures var p := Purge(Purged(old(devices), before, last), s, k);
              p == if ok then Purged(devices, added, removeNum) else Invalid(devices, added, removeNum)
      ensures forall j :: j in old(devices) && j != k ==> j in devices
    {
      ok, added, removeNum := true, before, last;
      var d := devices[k];
      if d.purge != 0 {
        removeNum := d.purge;
      }
      if removeNum == -1 {
        return;
      } else if removeNum < -1 {
        ok := false;
        return;
      }
      if removeNum > 0 && s.pollDuration > 0 {
        var removeTime := s.now - removeNum * s.pollDuration - RemoveTimeBuffer;
        if d.checked < removeTime {
          devices := devices - {k};
          added := added - 1;
        }
      }
    }
  }

  /** Halfway through a purge. */
  ghost predicate Purging(ds: Devices, added: int, s: Settings, order: seq<string>, todo: set<string>, p: Purged) {
    todo <= ds.Keys && Orders(order, ds.Keys - todo) && PurgeAll(ds, added, s, order) == p
  }

  lemma {:induction false} PurgeStarts(ds: Devices, added: int, s: Settings)
    ensures Purging(ds, added, s, [], ds.Keys, Purged(ds, added, s.purgeDevices))
  {
    assert ds.Keys - ds.Keys == {};
  }

  lemma {:induction false} PurgeStep(ds: Devices, added: int, s: Settings, order: seq<string>, todo: set<string>,
                                     p: Purged, k: string)
    requires Purging(ds, added, s, order, todo, p) && p.Purged? && k in todo
    ensures k in p.devices && Purging(ds, added, s, order + [k], todo - {k}, Purge(p, s, k))
  {
    PurgeSnoc(ds, added, s, order, ds.Keys - todo, k);
    assert ds.Keys - todo + {k} == ds.Keys - (todo - {k});
  }

  lemma {:induction false} PurgeEnds(ds: Devices, added: int, s: Settings, order: seq<string>, p: Purged)
    requires Purging(ds, added, s, order, {}, p)
    ensures Orders(order, ds.Keys) && PurgeAll(ds, added, s, order) == p
  {
    assert ds.Keys - {} == ds.Keys;
  }

  /** The keys that an error leaves unvisited may come in any order. */
  lemma {:induction false} PurgeFails(ds: Devices, added: int, s: Settings, order: seq<string>, todo: set<string>,
                                      p: Purged) returns (all: seq<string>)
    requires Purging(ds, added, s, order, todo, p) && p.Invalid?
    ensures Orders(all, ds.Keys) && PurgeAll(ds, added, s, all) == p
  {
    hide PurgeAll, Shrunk, IDs, Kept;
    var rest := SomeOrder(todo);
    OrdersConcat(order, rest, ds.Keys - todo, todo);
    assert ds.Keys - todo + todo == ds.Keys && (order + rest)[..|order|] == order;
    all := order + rest;
    InvalidStays(ds, added, s, all, |order|);
  }

  lemma {:induction false} PurgeSnoc(ds: Devices, added: int, s: Settings, order: seq<string>, keys: set<string>,
                                     k: string)
    requires Orders(order, keys) && keys <= ds.Keys && k in ds && k !in keys
    ensures Orders(order + [k], keys + {k})
    ensures var p := PurgeAll(ds, added, s, order);
            PurgeAll(ds, added, s, order + [k]) == if p.Invalid? then p else Purge(p, s, k)
  {
    OrdersSnoc(order, keys, k);
    assert (order + [k])[..|order|] == order;
  }

  ghost predicate Visiting(ds: Devices, order: seq<string>, todo: set<string>) {
    todo <= ds.Keys && Orders(order, ds.Keys - todo) && |order| + |todo| == |ds|
  }

  ghost predicate Marked(ds: Devices, order: seq<string>, todo: set<string>, now: Devices, byEngineID: set<string>,
                         change: int)
    requires forall k :: k in order ==> k in ds
  {
    && byEngineID == IDs(ds, order) && Kept(ds, order) !! todo
    && now == (map k | k in ds && (k in todo || k in Kept(ds, order)) :: ds[k])
    && change == |Kept(ds, order)| - |order|
  }

  /** Halfway through the removal of duplicates. */
  ghost predicate Deduping(ds: Devices, noDedup: bool, order: seq<string>, todo: set<string>, now: Devices,
                           byEngineID: set<string>, change: int)
  {
    && Visiting(ds, order, todo) && todo <= now.Keys
    && if noDedup then now == ds && change == 0 else Marked(ds, order, todo, now, byEngineID, change)
  }

  lemma {:induction false} DedupStarts(ds: Devices, noDedup: bool)
    ensures Deduping(ds, noDedup, [], ds.Keys, ds, {}, 0)
  {
    assert ds.Keys - ds.Keys == {};
  }

  lemma {:induction false} KeptSnoc(ds: Devices, order: seq<string>, k: string)
    requires (forall j :: j in order ==> j in ds) && k in ds
    ensures IDs(ds, order + [k]) == IDs(ds, order) + ({ds[k].engineID} - {""})
    ensures Kept(ds, order + [k]) == Kept(ds, order) + if ds[k].engineID in IDs(ds, order) then {} else {k}
    ensures k !in order ==> k !in Kept(ds, order)
  {
    assert (order + [k])[..|order|] == order;
  }

  lemma {:induction false} DedupStep(ds: Devices, noDedup: bool, order: seq<string>, todo: set<string>, now: Devices,
                  byEngineID: set<string>, change: int, k: string)
    requires Deduping(ds, noDedup, order, todo, now, byEngineID, change) && k in todo
    ensures k in ds && k in now && now[k] == ds[k]
    ensures var id, order', todo' := ds[k].engineID, order + [k], todo - {k};
            if noDedup || id == "" then Deduping(ds, noDedup, order', todo', now, byEngineID, change)
            else if id in byEngineID then Deduping(ds, noDedup, order', todo', now - {k}, byEngineID, change - 1)
            else Deduping(ds, noDedup, order', todo', now, byEngineID + {id}, change)
  {
    hide Visiting, Marked, IDs, Kept;
    VisitStep(ds, order, todo, k);
    if !noDedup {
      MarkStep(ds, order, todo, now, byEngineID, change, k);
    }
  }

  lemma {:induction false} VisitStep(ds: Devices, order: seq<string>, todo: set<string>, k: string)
    requires Visiting(ds, order, todo) && k in todo
    ensures Visiting(ds, order + [k], todo - {k})
    ensures (forall j :: j in order ==> j in ds) && todo <= ds.Keys && k !in order
  {
    OrdersSnoc(order, ds.Keys - todo, k);
    assert ds.Keys - todo + {k} == ds.Keys - (todo - {k});
  }

  lemma {:induction false} MarkStep(ds: Devices, order: seq<string>, todo: set<string>, now: Devices,
                                    byEngineID: set<string>, change: int, k: string)
    requires (forall j :: j in order ==> j in ds) && todo <= ds.Keys && k in todo && k !in order
    requires Marked(ds, order, todo, now, byEngineID, change)
    ensures k in now && now[k] == ds[k]
    ensures var id, order', todo' := ds[k].engineID, order + [k], todo - {k};
            if id != "" && id in byEngineID then
              todo' <= (now - {k}).Keys && Marked(ds, order', todo', now - {k}, byEngineID, change - 1)
            else
              todo' <= now.Keys && Marked(ds, order', todo', now, if id == "" then byEngineID else byEngineID + {id}, change)
  {
    hide IDs, Kept;
    IDsAre(ds, order);
    KeptSnoc(ds, order, k);
    KeepOrDrop(ds, order, todo, now, k);
    var id, kept, kept' := ds[k].engineID, Kept(ds, order), Kept(ds, order + [k]);
    assert kept' !! todo - {k} && forall j :: j in todo ==> j in now;
    assert IDs(ds, order + [k]) == if id == "" then byEngineID else byEngineID + {id};
    assert id != "" && id in byEngineID ==> byEngineID + {id} == byEngineID;
    assert |kept'| == |kept| + if id in byEngineID then 0 else 1;
  }

  lemma {:induction false} KeepOrDrop(ds: Devices, order: seq<string>, todo: set<string>, now: Devices, k: string)
    requires (forall j :: j in order + [k] ==> j in ds) && k in todo && Kept(ds, order) !! todo
    requires now == map j | j in ds && (j in todo || j in Kept(ds, order)) :: ds[j]
    requires Kept(ds, order + [k]) == Kept(ds, order) + if ds[k].engineID in IDs(ds, order) then {} else {k}
    ensures (map j | j in ds && (j in todo - {k} || j in Kept(ds, order + [k])) :: ds[j])
         == if ds[k].engineID in IDs(ds, order) then now - {k} else now
  {
    hide IDs, Kept;
  }

  lemma {:induction false} DedupEnds(ds: Devices, s: Settings, order: seq<string>, now: Devices,
                                     byEngineID: set<string>, change: int, before: Stats)
    requires Deduping(ds, s.noDedup, order, {}, now, byEngineID, change)
    ensures Orders(order, ds.Keys)
    ensures DedupAll(Outcome(ds, before), s, order) == Outcome(now, before.(added := before.added + change))
  {
    assert ds.Keys - {} == ds.Keys;
  }

  lemma {:induction false} SomeOrder(keys: set<string>) returns (order: seq<string>)
    ensures Orders(order, keys)
  {
    if keys == {} {
      order := [];
    } else {
      var k :| k in keys;
      order := SomeOrder(keys - {k});
      OrdersSnoc(order, keys - {k}, k);
      order := order + [k];
    }
  }

  lemma {:induction false} OrdersConcat(order: seq<string>, rest: seq<string>, keys: set<string>, more: set<string>)
    requires Orders(order, keys) && Orders(rest, more) && keys !! more
    ensures Orders(order + rest, keys + more)
  {
    assert forall i :: 0 <= i < |order| ==> order[i] in keys;
    assert forall i :: 0 <= i < |rest| ==> rest[i] in more;
  }

  lemma {:induction false} InvalidStays(ds: Devices, added: int, s: Settings, order: seq<string>, n: nat)
    requires Visits(ds, order) && n <= |order| && Visits(ds, order[..n])
    requires PurgeAll(ds, added, s, order[..n]).Invalid?
    ensures PurgeAll(ds, added, s, order) == PurgeAll(ds, added, s, order[..n])
  {
    InvalidUpTo(ds, added, s, order, n, |order|);
    assert order[..|order|] == order;
  }

  lemma {:induction false} InvalidUpTo(ds: Devices, added: int, s: Settings, order: seq<string>, n: nat, m: nat)
    requires Visits(ds, order) && n <= m <= |order| && Visits(ds, order[..n])
    requires PurgeAll(ds, added, s, order[..n]).Invalid?
    ensures Visits(ds, order[..m])
    ensures PurgeAll(ds, added, s, order[..m]) == PurgeAll(ds, added, s, order[..n])
    decreases m
  {
    hide Visits, PurgeAll, Purge, Shrunk;
    if n < m {
      InvalidUpTo(ds, added, s, order, n, m - 1);
      PurgeNext(ds, added, s, order, m - 1);
    }
  }

  /** The addresses known before a discovery are those of all devices. */
  lemma {:induction false} KnownIPs(ds: Devices, ip: string)
    ensures ip in IPsOf(ds) <==> exists k :: k in ds && ds[k].ip == ip
  {
  }

  function IPsOf(ds: Devices): set<string> { set k | k in ds :: ds[k].ip }
}
