/** One pass of setDeviceTagsAndMatch, pkg/inputs/snmp/snmp.go, when the keys that are still prefixed are removed. */
module PrunedPass {
  import opened DeviceTags

  /** What is left of a key without all prefixes of provider `p`, and how many there are. */
  function Core(k: string, p: string): string
    decreases |k|
  {
    if Moves(k, p) then Core(Inner(k), p) else k
  }

  function Layers(k: string, p: string): nat
    decreases |k|
  {
    if Moves(k, p) then Layers(Inner(k), p) + 1 else 0
  }

  function Inner(k: string): (x: string)
    requires PartsOf(k).Some?
    ensures |x| < |k|
  {
    PartsOf(k).value.key
  }

  lemma {:induction false} FewLayers(k: string, p: string)
    ensures Layers(k, p) == 0 <==> Core(k, p) == k
    ensures Layers(k, p) == 1 ==> k == Qualified(p, Core(k, p))
    ensures !Moves(Core(k, p), p)
    decreases |k|
  {
    if Moves(k, p) {
      FewLayers(Inner(k), p);
      CoreIsShort(Inner(k), p);
    }
  }

  lemma {:induction false} CoreIsShort(k: string, p: string)
    ensures |Core(k, p)| <= |k|
    decreases |k|
  {
    if Moves(k, p) {
      CoreIsShort(Inner(k), p);
    }
  }

  /** A visit replaces a key by one with the same core, or leaves one with the same core. */
  lemma {:induction false} VisitKeepsCores(r: Tags, p: string, k: string, c: string)
    ensures (exists j :: j in r && Core(j, p) == c) <==> (exists j :: j in Visit(r, p, k) && Core(j, p) == c)
  {
    if k in r && Moves(k, p) {
      VisitIs(r, p, k);
      var r' := Visit(r, p, k);
      assert Core(k, p) == Core(Inner(k), p) && Inner(k) in r';
      hide PartsOf, Moves, Core, Visit;
      assert forall j :: j in r ==> j in r' || j == k;
      assert forall j :: j in r' ==> j in r || j == Inner(k);
    } else if k in r {
      VisitIs(r, p, k);
    }
  }

  lemma {:induction false} RunKeepsCores(m: Tags, p: string, visits: seq<string>, c: string)
    ensures (exists j :: j in m && Core(j, p) == c) <==> (exists j :: j in RunPass(m, p, visits) && Core(j, p) == c)
    decreases |visits|
  {
    if visits != [] {
      var init, last := visits[..|visits| - 1], visits[|visits| - 1];
      RunKeepsCores(m, p, init, c);
      VisitKeepsCores(RunPass(m, p, init), p, last, c);
    }
  }

  /** Only a visit of the key one layer above brings in a key that is not there. */
  lemma {:induction false} VisitBrings(r: Tags, p: string, k: string, x: string)
    requires !Moves(x, p)
    ensures x in r ==> x in Visit(r, p, k) && Visit(r, p, k)[x] == r[x]
    ensures x !in r && x in Visit(r, p, k) ==> k == Qualified(p, x) && k in r && Visit(r, p, k)[x] == r[k]
    ensures x !in r && k == Qualified(p, x) && k in r && Token !in p ==> x in Visit(r, p, k)
  {
    if k in r {
      VisitIs(r, p, k);
      MovesIff(p, k, x);
    }
  }

  lemma {:induction false} OthersKeep(r: Tags, p: string, k: string, y: string)
    requires y in r && k != y
    ensures y in Visit(r, p, k) && Visit(r, p, k)[y] == r[y]
  {
    if k in r {
      VisitIs(r, p, k);
    }
  }

  /** Where a key or the one a layer above is there, the value of the key after the pass is determined. */
  lemma {:induction false} RunSettles(m: Tags, p: string, visits: seq<string>, x: string)
    requires !Moves(x, p) && Token !in p && (x in m || Qualified(p, x) in m)
    ensures var r, y := RunPass(m, p, visits), Qualified(p, x);
            if x in m then x in r && r[x] == m[x]
            else if y in visits then x in r && r[x] == m[y]
            else x !in r && y in r && r[y] == m[y]
    decreases |visits|
  {
    if visits != [] {
      var init, k, y := visits[..|visits| - 1], visits[|visits| - 1], Qualified(p, x);
      assert visits == init + [k];
      RunSettles(m, p, init, x);
      var r := RunPass(m, p, init);
      RunSnoc(m, p, init, k);
      VisitBrings(r, p, k, x);
      hide Visit, RunPass, Qualified, Moves;
      if x !in m && y !in init && k != y {
        OthersKeep(r, p, k, y);
      }
    }
  }

  /** A bare key that can only come from two or more layers of the provider has itself, or the key with one layer, in
      the map. */
  ghost predicate Settled(m: Tags, p: string) {
    forall k :: k in m && Layers(k, p) >= 2 && !HasPrefix(Core(k, p)) ==>
      Core(k, p) in m || Qualified(p, Core(k, p)) in m
  }

  /** The bare keys after a pass over such a map. */
  lemma {:induction false} SettledRun(m: Tags, p: string, visits: seq<string>, x: string)
    requires Settled(m, p) && Covers(visits, m) && !HasPrefix(x)
    ensures Look(RunPass(m, p, visits), x) == Through(m, p, x)
  {
    var y := Qualified(p, x);
    assert !Moves(x, p);
    if Token in p {
      RunStill(m, p, visits);
    } else if x in m || y in m {
      RunSettles(m, p, visits, x);
    } else {
      forall k | k in m ensures Core(k, p) != x {
        FewLayers(k, p);
      }
      RunKeepsCores(m, p, visits, x);
      assert Core(x, p) == x;
    }
  }

  lemma {:induction false} RunStill(m: Tags, p: string, visits: seq<string>)
    requires Token in p
    ensures RunPass(m, p, visits) == m
    decreases |visits|
  {
    if visits != [] {
      var k := visits[|visits| - 1];
      RunStill(m, p, visits[..|visits| - 1]);
      if k in m {
        VisitIs(m, p, k);
      }
    }
  }

  lemma {:induction false} RunConcat(m: Tags, p: string, a: seq<string>, b: seq<string>)
    ensures RunPass(m, p, a + b) == RunPass(RunPass(m, p, a), p, b)
    decreases |b|
  {
    if b == [] {
      assert a + b == a;
    } else {
      var init, last := b[..|b| - 1], b[|b| - 1];
      assert a + b == (a + init) + [last] && b == init + [last];
      RunConcat(m, p, a, init);
      RunSnoc(m, p, a + init, last);
      RunSnoc(RunPass(m, p, a), p, init, last);
    }
  }

  /** A key that is visited, and then what becomes of it, again and again, ends up bare. */
  lemma {:induction false} Sinks(r: Tags, p: string, z: string) returns (visits: seq<string>)
    requires z in r
    ensures Core(z, p) in RunPass(r, p, visits)
    decreases |z|
  {
    if Moves(z, p) {
      Dropped(r, p, z);
      var rest := Sinks(Visit(r, p, z), p, Inner(z));
      visits := [z] + rest;
      RunConcat(r, p, [z], rest);
      RunSnoc(r, p, [], z);
      assert [] + [z] == [z];
    } else {
      visits := [];
    }
  }

  lemma {:induction false} StaysOut(m: Tags, p: string, visits: seq<string>, x: string)
    requires !Moves(x, p) && x !in m && Qualified(p, x) !in visits
    ensures x !in RunPass(m, p, visits)
    decreases |visits|
  {
    if visits != [] {
      var init, last := visits[..|visits| - 1], visits[|visits| - 1];
      assert visits == init + [last];
      StaysOut(m, p, init, x);
      VisitBrings(RunPass(m, p, init), p, last, x);
    }
  }

  /** Otherwise the bare key comes or not: not if no key is visited that has come in on the way, and it does if all that
      becomes of one key is visited. */
  lemma {:induction false} UnsettledDepends(m: Tags, p: string, k: string) returns (a: seq<string>, b: seq<string>)
    requires k in m && Layers(k, p) >= 2 && !HasPrefix(Core(k, p))
    requires Core(k, p) !in m && Qualified(p, Core(k, p)) !in m
    ensures Covers(a, m) && Covers(b, m)
    ensures Core(k, p) in RunPass(m, p, a) && Core(k, p) !in RunPass(m, p, b)
  {
    var x := Core(k, p);
    b := SomeVisits(m.Keys);
    StaysOut(m, p, b, x);
    RunKeepsCores(m, p, b, x);
    var z :| z in RunPass(m, p, b) && Core(z, p) == x;
    var more := Sinks(RunPass(m, p, b), p, z);
    a := b + more;
    RunConcat(m, p, b, more);
  }

  /** A pass and the removal of prefixed keys have one outcome exactly if the map is settled. */
  lemma {:induction false} PrunedPassIsDeterminedIff(m: Tags, p: string)
    ensures (forall r, r' :: IsPass(r, m, p) && IsPass(r', m, p) ==> Pruned(r) == Pruned(r')) <==> Settled(m, p)
  {
    if Settled(m, p) {
      forall r, r' | IsPass(r, m, p) && IsPass(r', m, p) ensures Pruned(r) == Pruned(r') {
        var v :| Covers(v, m) && r == RunPass(m, p, v);
        var v' :| Covers(v', m) && r' == RunPass(m, p, v');
        forall x | !HasPrefix(x) ensures Look(r, x) == Look(r', x) {
          SettledRun(m, p, v, x);
          SettledRun(m, p, v', x);
        }
        hide Settled, RunPass, HasPrefix;
        assert forall x :: !HasPrefix(x) ==> (x in r <==> x in r') && (x in r ==> r[x] == r'[x]);
      }
    } else {
      var k :| k in m && Layers(k, p) >= 2 && !HasPrefix(Core(k, p))
               && Core(k, p) !in m && Qualified(p, Core(k, p)) !in m;
      var a, b := UnsettledDepends(m, p, k);
      var r, r' := RunPass(m, p, a), RunPass(m, p, b);
      assert IsPass(r, m, p) && IsPass(r', m, p);
      assert Core(k, p) in Pruned(r) && Core(k, p) !in Pruned(r');
    }
  }

  // The last pass -------------------------------------------------------------------------------

  /**
   Where the passes for devices and for the provider have one outcome each, the whole of setDeviceTagsAndMatch has one
   exactly if the map before the global pass is settled.
   */
  lemma {:induction false} OutcomeIsDeterminedIff(m: Tags, provider: string)
    requires NoDouble(m, DeviceProvider) && NoDouble(Passed(m, DeviceProvider), provider)
    ensures (forall r, r' :: IsOutcome(r, m, provider) && IsOutcome(r', m, provider) ==> r == r')
            <==> Settled(Passed(Passed(m, DeviceProvider), provider), GlobalProvider)
  {
    var m2 := Passed(Passed(m, DeviceProvider), provider);
    forall r ensures IsOutcome(r, m, provider) <==> exists m3 :: IsPass(m3, m2, GlobalProvider) && r == Pruned(m3) {
      LastPassDecides(r, m, provider);
    }
    hide Settled, Passed, IsOutcome, Pruned, NoDouble;
    PrunedPassIsDeterminedIff(m2, GlobalProvider);
    if forall r, r' :: IsOutcome(r, m, provider) && IsOutcome(r', m, provider) ==> r == r' {
      forall r, r' | IsPass(r, m2, GlobalProvider) && IsPass(r', m2, GlobalProvider) ensures Pruned(r) == Pruned(r') {
        assert IsOutcome(Pruned(r), m, provider) && IsOutcome(Pruned(r'), m, provider);
      }
    }
  }

  lemma {:induction false} LastPassDecides(r: Tags, m: Tags, provider: string)
    requires NoDouble(m, DeviceProvider) && NoDouble(Passed(m, DeviceProvider), provider)
    ensures var m2 := Passed(Passed(m, DeviceProvider), provider);
            IsOutcome(r, m, provider) <==> exists m3 :: IsPass(m3, m2, GlobalProvider) && r == Pruned(m3)
  {
    hide NoDouble, Passed, Pruned, IsPass;
    var m1 := Passed(m, DeviceProvider);
    var m2 := Passed(m1, provider);
    SomePass(m, DeviceProvider);
    SomePass(m1, provider);
    if IsOutcome(r, m, provider) {
      var n1, n2, n3 :| IsPass(n1, m, DeviceProvider) && IsPass(n2, n1, provider) && IsPass(n3, n2, GlobalProvider)
                        && r == Pruned(n3);
      PassIsPassed(n1, m, DeviceProvider);
      PassIsPassed(n2, m1, provider);
    }
  }

  lemma {:induction false} SomePass(m: Tags, p: string)
    requires NoDouble(m, p)
    ensures IsPass(Passed(m, p), m, p)
  {
    var visits := SomeVisits(m.Keys);
    RunIsPassed(m, p, visits);
  }
}
