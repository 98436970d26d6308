/**
 Tags of SNMP devices: ProviderMap.Init of pkg/kt/snmp.go and parseConfig, setDeviceTagsAndMatch and matchesPrefix of
 pkg/inputs/snmp/snmp.go. User tags and match attributes go through the same code; these are either.

 The loops range over maps that they change: keys come in any order, and one inserted on the way may be visited
 or not.
 */
module DeviceTags {
  import opened Options

  type Tags = map<string, string>

  /** ProviderPrefix, ProviderToken, and the providers of device and global tags. */
  const Prefix := "provider:"
  const Token: char := ':'
  const DeviceProvider := "device"
  const GlobalProvider := "global"

  predicate HasPrefix(tag: string) { Prefix <= tag }

  function Qualified(p: string, k: string): string { Prefix + p + [Token] + k }

  function IndexOf(s: string, c: char): (i: nat)
    ensures i <= |s| && c !in s[..i]
    ensures i < |s| ==> s[i] == c
  {
    if s == "" || s[0] == c then 0 else
      var i := IndexOf(s[1..], c) + 1;
      assert s[..i] == [s[0]] + s[1..][..i - 1];
      i
  }

  datatype Parts = Parts(provider: string, key: string)

  lemma {:induction false} Requalify(tag: string, rest: string, p: string, k: string)
    requires rest == p + [Token] + k && tag == Prefix + rest
    ensures tag == Qualified(p, k)
  {
  }

  /** The provider and the key of a prefixed tag; strings.SplitN with a limit of three. */
  function PartsOf(tag: string): (r: Option<Parts>)
    ensures r.Some? ==> tag == Qualified(r.value.provider, r.value.key) && Token !in r.value.provider
  {
    if !HasPrefix(tag) then None
    else
      var rest := tag[|Prefix|..];
      var i := IndexOf(rest, Token);
      if i == |rest| then None
      else
        assert rest == rest[..i] + [Token] + rest[i + 1..] && tag == Prefix + rest;
        Requalify(tag, rest, rest[..i], rest[i + 1..]);
        Some(Parts(rest[..i], rest[i + 1..]))
  }

  lemma {:induction false} IndexAt(s: string, c: char, i: nat)
    requires i < |s| && s[i] == c && c !in s[..i]
    ensures IndexOf(s, c) == i
  {
    if i > 0 {
      assert s[..i] == [s[0]] + s[1..][..i - 1];
      IndexAt(s[1..], c, i - 1);
    }
  }

  lemma {:induction false} QualifiedParts(p: string, k: string)
    requires Token !in p
    ensures PartsOf(Qualified(p, k)) == Some(Parts(p, k)) && HasPrefix(Qualified(p, k))
  {
    var rest := Qualified(p, k)[|Prefix|..];
    assert rest == p + [Token] + k && rest[..|p|] == p;
    IndexAt(rest, Token, |p|);
    assert rest[|p| + 1..] == k;
  }

  /** matchesPrefix */
  function MatchesPrefix(tag: string, provider: string): (string, bool) {
    match PartsOf(tag)
    case None => (tag, true)
    case Some(parts) => if parts.provider == provider then (parts.key, true) else ("", false)
  }

  predicate Moves(tag: string, p: string) { PartsOf(tag).Some? && PartsOf(tag).value.provider == p }

  // One provider --------------------------------------------------------------------------------

  /** What one visit of a key does. */
  function Visit(m: Tags, p: string, k: string): Tags {
    if k !in m then m
    else
      var (nk, ok) := MatchesPrefix(k, p);
      if !ok then m else if nk in m - {k} then m - {k} else (m - {k})[nk := m[k]]
  }

  /** The visits of a pass, one after the other. */
  function RunPass(m: Tags, p: string, visits: seq<string>): Tags {
    if visits == [] then m else Visit(RunPass(m, p, visits[..|visits| - 1]), p, visits[|visits| - 1])
  }

  /** Every key of the map is visited; those inserted on the way may be visited, too. */
  ghost predicate Covers(visits: seq<string>, m: Tags) { forall k :: k in m ==> k in visits }

  ghost predicate IsPass(r: Tags, m: Tags, p: string) {
    exists visits :: Covers(visits, m) && r == RunPass(m, p, visits)
  }

  lemma {:induction false} RunSnoc(m: Tags, p: string, visits: seq<string>, k: string)
    ensures RunPass(m, p, visits + [k]) == Visit(RunPass(m, p, visits), p, k)
  {
    assert (visits + [k])[..|visits|] == visits;
  }

  lemma {:induction false} VisitIs(r: Tags, p: string, k: string)
    requires k in r
    ensures !Moves(k, p) ==> Visit(r, p, k) == r
    ensures Moves(k, p) ==>
              var x := PartsOf(k).value.key;
              Visit(r, p, k) == if x in r - {k} then r - {k} else (r - {k})[x := r[k]]
  {
    if !Moves(k, p) && PartsOf(k).None? {
      assert (r - {k})[k := r[k]] == r;
    }
  }

  /** One pass of `set`. */
  method SetPass(m: Tags, p: string) returns (r: Tags)
    ensures IsPass(r, m, p)
  {
    hide RunPass, Visit;
    r := m;
    var todo := m.Keys;
    var extra: nat := *;
    ghost var visits: seq<string> := [];
    assert RunPass(m, p, []) == m by {
      RunNothing(m, p);
    }
    while todo != {}
      invariant forall k :: k in m ==> k in visits || k in todo
      invariant r == RunPass(m, p, visits)
      decreases extra, |todo|
    {
      var k :| k in todo;
      todo := todo - {k};
      RunSnoc(m, p, visits, k);
      visits := visits + [k];
      if k in r {
        ghost var before := r;
        var v := r[k];
        var (nk, ok) := MatchesPrefix(k, p);
        if ok {
          r := r - {k};
          if nk !in r {
            r := r[nk := v];
          }
          var visit: bool := *;
          if visit && extra > 0 {
            todo, extra := todo + {nk}, extra - 1;
          }
        }
        assert r == Visit(before, p, k) by {
          VisitUnfolds(before, p, k);
        }
      } else {
        GoneStays(r, p, k);
      }
    }
    assert Covers(visits, m);
  }

  lemma {:induction false} RunNothing(m: Tags, p: string)
    ensures RunPass(m, p, []) == m
  {
  }

  lemma {:induction false} VisitUnfolds(m: Tags, p: string, k: string)
    requires k in m
    ensures var (nk, ok) := MatchesPrefix(k, p);
            Visit(m, p, k) == if !ok then m else if nk in m - {k} then m - {k} else (m - {k})[nk := m[k]]
  {
  }

  lemma {:induction false} GoneStays(m: Tags, p: string, k: string)
    requires k !in m
    ensures Visit(m, p, k) == m
  {
  }

  // When the order does not matter --------------------------------------------------------------

  /** No key of provider `p` is again one behind its prefix. */
  ghost predicate NoDouble(m: Tags, p: string) {
    forall k :: k in m && Moves(k, p) ==> !Moves(PartsOf(k).value.key, p)
  }

  /** The value of a key after the pass. */
  function Through(m: Tags, p: string, k: string): Option<string> {
    if k in m && !Moves(k, p) then Some(m[k])
    else if Token !in p && Qualified(p, k) in m then Some(m[Qualified(p, k)])
    else None
  }

  /** All keys of provider `p` moved to what follows the provider, unless that key is there. */
  function Passed(m: Tags, p: string): (r: Tags) {
    var inner := set k | k in m && Moves(k, p) :: PartsOf(k).value.key;
    map k | k in m.Keys + inner && Through(m, p, k).Some? :: Through(m, p, k).value
  }

  lemma {:induction false} MovesIff(p: string, y: string, x: string)
    ensures Moves(y, p) && PartsOf(y).value.key == x <==> Token !in p && y == Qualified(p, x)
  {
    if Token !in p {
      QualifiedParts(p, x);
    }
  }

  lemma {:induction false} PassedAt(m: Tags, p: string, k: string)
    ensures k in Passed(m, p) <==> Through(m, p, k).Some?
    ensures k in Passed(m, p) ==> Passed(m, p)[k] == Through(m, p, k).value
  {
    MovesIff(p, Qualified(p, k), k);
    hide Qualified, PartsOf;
  }

  /** Halfway: the keys `moved` of provider `p` are replaced. */
  ghost predicate IsMoved(r: Tags, m: Tags, p: string, moved: set<string>) {
    && (forall k :: k in r <==> (k in m && k !in moved) || Qualified(p, k) in moved)
    && (forall k :: k in r ==> if k in m then r[k] == m[k] else Qualified(p, k) in m && r[k] == m[Qualified(p, k)])
  }

  lemma {:induction false} NotTwice(m: Tags, p: string, k: string)
    requires NoDouble(m, p) && Moves(k, p)
    ensures Qualified(p, k) !in m && PartsOf(k).value.key != k && (k in m ==> !Moves(PartsOf(k).value.key, p))
  {
    QualifiedParts(p, k);
  }

  lemma {:induction false} MoveOne(r: Tags, m: Tags, p: string, moved: set<string>, k: string, x: string)
    requires IsMoved(r, m, p, moved) && k in m && k !in moved && k in r && x != k && x !in moved && Qualified(p, k) !in moved
    requires forall y :: Qualified(p, y) == k <==> y == x
    ensures IsMoved(if x in r - {k} then r - {k} else (r - {k})[x := r[k]], m, p, moved + {k})
  {
    hide Qualified;
    assert r[k] == m[k];
  }

  lemma {:induction false} VisitMoves(r: Tags, m: Tags, p: string, moved: set<string>, k: string)
    requires NoDouble(m, p) && moved <= (set k' | k' in m && Moves(k', p)) && IsMoved(r, m, p, moved)
    requires k in r && Moves(k, p)
    ensures k in m && IsMoved(Visit(r, p, k), m, p, moved + {k})
  {
    var x := PartsOf(k).value.key;
    forall y ensures Qualified(p, y) == k <==> y == x {
      MovesIff(p, k, y);
    }
    NotTwice(m, p, k);
    VisitIs(r, p, k);
    hide PartsOf, Qualified, Moves, NoDouble, Visit;
    MoveOne(r, m, p, moved, k, x);
  }

  /** Which keys have moved after some visits. */
  function MovedBy(m: Tags, p: string, visits: seq<string>): set<string> {
    set k | k in m && k in visits && Moves(k, p)
  }

  lemma {:induction false} VisitsMove(m: Tags, p: string, visits: seq<string>)
    requires NoDouble(m, p)
    ensures IsMoved(RunPass(m, p, visits), m, p, MovedBy(m, p, visits))
    decreases |visits|
  {
    if visits != [] {
      var init, k := visits[..|visits| - 1], visits[|visits| - 1];
      assert visits == init + [k];
      VisitsMove(m, p, init);
      RunSnoc(m, p, init, k);
      hide RunPass, NoDouble, Moves;
      AlsoVisited(RunPass(m, p, init), m, p, init, k);
    }
  }

  lemma {:induction false} AlsoVisited(r: Tags, m: Tags, p: string, visits: seq<string>, k: string)
    requires NoDouble(m, p) && IsMoved(r, m, p, MovedBy(m, p, visits))
    ensures IsMoved(Visit(r, p, k), m, p, MovedBy(m, p, visits + [k]))
  {
    var moved := MovedBy(m, p, visits);
    if k in m && Moves(k, p) && k !in r {
      GoneIsMoved(r, m, p, moved, k);
    }
    assert MovedBy(m, p, visits + [k]) == if k in m && Moves(k, p) then moved + {k} else moved;
    if k in r && Moves(k, p) {
      VisitMoves(r, m, p, moved, k);
    } else {
      if k in r {
        VisitIs(r, p, k);
      }
      hide IsMoved;
      assert moved + {k} == moved || !(k in m && Moves(k, p));
    }
  }

  lemma {:induction false} GoneIsMoved(r: Tags, m: Tags, p: string, moved: set<string>, k: string)
    requires IsMoved(r, m, p, moved) && k !in r
    ensures k in m ==> k in moved
  {
  }

  lemma {:induction false} AllMoved(r: Tags, m: Tags, p: string)
    requires NoDouble(m, p) && IsMoved(r, m, p, set k | k in m && Moves(k, p))
    ensures r == Passed(m, p)
  {
    forall k ensures k in r <==> k in Passed(m, p)
             ensures k in r && k in Passed(m, p) ==> r[k] == Passed(m, p)[k]
    {
      PassedAt(m, p, k);
      MovesIff(p, Qualified(p, k), k);
      if Moves(k, p) {
        NotTwice(m, p, k);
      }
      hide Passed, PartsOf, Qualified;
    }
  }

  /** Then every order gives the same. */
  lemma {:induction false} RunIsPassed(m: Tags, p: string, visits: seq<string>)
    requires NoDouble(m, p) && Covers(visits, m)
    ensures RunPass(m, p, visits) == Passed(m, p)
  {
    VisitsMove(m, p, visits);
    assert MovedBy(m, p, visits) == set k | k in m && Moves(k, p);
    hide *;
    AllMoved(RunPass(m, p, visits), m, p);
  }

  lemma {:induction false} Dropped(r: Tags, p: string, k: string)
    requires Moves(k, p)
    ensures k !in Visit(r, p, k)
    ensures k in r ==> PartsOf(k).value.key in Visit(r, p, k)
  {
    if k in r {
      VisitIs(r, p, k);
    }
  }

  lemma {:induction false} OthersLeave(r: Tags, p: string, k: string, y: string)
    requires k in r && y != k
    ensures k in Visit(r, p, y)
  {
    if y in r {
      VisitIs(r, p, y);
    }
  }

  lemma {:induction false} StaysUnvisited(m: Tags, p: string, visits: seq<string>, k: string)
    requires k in m && k !in visits
    ensures k in RunPass(m, p, visits)
    decreases |visits|
  {
    if visits != [] {
      var init, last := visits[..|visits| - 1], visits[|visits| - 1];
      assert visits == init + [last];
      StaysUnvisited(m, p, init, k);
      OthersLeave(RunPass(m, p, init), p, k, last);
    }
  }

  lemma {:induction false} SomeVisits(keys: set<string>) returns (visits: seq<string>)
    ensures forall k :: k in visits <==> k in keys
  {
    if keys == {} {
      visits := [];
    } else {
      var k :| k in keys;
      visits := SomeVisits(keys - {k});
      visits := visits + [k];
    }
  }

  /** A key prefixed twice, visited last: whether the key it turns into is visited as well decides whether that is
      left. */
  lemma {:induction false} NestedDependsOnVisits(m: Tags, p: string, k: string) returns (a: seq<string>, b: seq<string>)
    requires k in m && Moves(k, p) && Moves(PartsOf(k).value.key, p)
    ensures Covers(a, m) && Covers(b, m) && b == a + [PartsOf(k).value.key]
    ensures PartsOf(k).value.key in RunPass(m, p, a) && PartsOf(k).value.key !in RunPass(m, p, b)
  {
    var x := PartsOf(k).value.key;
    var others := SomeVisits(m.Keys - {k});
    a, b := others + [k], others + [k] + [x];
    assert forall y :: y in m ==> y in a;
    StaysUnvisited(m, p, others, k);
    RunSnoc(m, p, others, k);
    RunSnoc(m, p, a, x);
    Dropped(RunPass(m, p, others), p, k);
    Dropped(RunPass(m, p, a), p, x);
  }

  /** The outcome of a pass is determined exactly if no key of the provider is prefixed by it twice. */
  lemma {:induction false} PassIsDeterminedIff(m: Tags, p: string)
    ensures (forall r, r' :: IsPass(r, m, p) && IsPass(r', m, p) ==> r == r') <==> NoDouble(m, p)
  {
    if NoDouble(m, p) {
      forall r, r' | IsPass(r, m, p) && IsPass(r', m, p) ensures r == r' {
        PassIsPassed(r, m, p);
        PassIsPassed(r', m, p);
      }
    } else {
      var k :| k in m && Moves(k, p) && Moves(PartsOf(k).value.key, p);
      var a, b := NestedDependsOnVisits(m, p, k);
      assert IsPass(RunPass(m, p, a), m, p) && IsPass(RunPass(m, p, b), m, p);
    }
  }

  lemma {:induction false} PassIsPassed(r: Tags, m: Tags, p: string)
    requires IsPass(r, m, p) && NoDouble(m, p)
    ensures r == Passed(m, p)
  {
    var visits :| Covers(visits, m) && r == RunPass(m, p, visits);
    RunIsPassed(m, p, visits);
  }

  // All of them ---------------------------------------------------------------------------------

  /** What setDeviceTagsAndMatch can make of the tags of a device. */
  ghost predicate IsOutcome(r: Tags, m: Tags, provider: string) {
    exists m1, m2, m3 :: IsPass(m1, m, DeviceProvider) && IsPass(m2, m1, provider) && IsPass(m3, m2, GlobalProvider)
                         && r == Pruned(m3)
  }

  function Pruned(m: Tags): Tags { map k | k in m && !HasPrefix(k) :: m[k] }

  /** setDeviceTagsAndMatch, for one of the two maps. */
  method SetDeviceTags(m: Tags, provider: string) returns (r: Tags)
    ensures IsOutcome(r, m, provider)
  {
    var m1 := SetPass(m, DeviceProvider);
    var m2 := SetPass(m1, provider);
    var m3 := SetPass(m2, GlobalProvider);
    r := Prune(m3);
  }

  method Prune(m: Tags) returns (r: Tags)
    ensures r == map k | k in m && !HasPrefix(k) :: m[k]
  {
    r := m;
    var todo := m.Keys;
    while todo != {}
      invariant todo <= m.Keys
      invariant r == map k | k in m && (k in todo || !HasPrefix(k)) :: m[k]
    {
      var k :| k in todo;
      todo := todo - {k};
      if HasPrefix(k) {
        r := r - {k};
      }
    }
  }

  /** No pass meets a key prefixed twice by its provider. */
  ghost predicate Determined(m: Tags, provider: string) {
    var m1 := Passed(m, DeviceProvider);
    NoDouble(m, DeviceProvider) && NoDouble(m1, provider) && NoDouble(Passed(m1, provider), GlobalProvider)
  }

  function Resolved(m: Tags, provider: string): Tags {
    Pruned(Passed(Passed(Passed(m, DeviceProvider), provider), GlobalProvider))
  }

  /** Then the outcome is one map, whatever the order of the visits. */
  lemma {:induction false} OutcomeIsResolved(r: Tags, m: Tags, provider: string)
    requires IsOutcome(r, m, provider) && Determined(m, provider)
    ensures r == Resolved(m, provider)
  {
    hide Passed, IsPass, NoDouble, Pruned;
    var m1, m2, m3 :| IsPass(m1, m, DeviceProvider) && IsPass(m2, m1, provider) && IsPass(m3, m2, GlobalProvider)
                      && r == Pruned(m3);
    PassIsPassed(m1, m, DeviceProvider);
    PassIsPassed(m2, m1, provider);
    PassIsPassed(m3, m2, GlobalProvider);
  }

  // Which tag wins ------------------------------------------------------------------------------

  function Look(m: Tags, k: string): Option<string> { if k in m then Some(m[k]) else None }

  function Or(a: Option<string>, b: Option<string>): Option<string> { if a.Some? then a else b }

  function FirstIn(m: Tags, keys: seq<string>): Option<string> {
    if keys == [] then None else Or(Look(m, keys[0]), FirstIn(m, keys[1..]))
  }

  /** A key and the one for devices. */
  function OwnOrDevice(k: string): seq<string> { [k, Qualified(DeviceProvider, k)] }

  function OfProvider(provider: string, k: string): seq<string> {
    if Token in provider then [] else OwnOrDevice(Qualified(provider, k))
  }

  /** The keys that can end up as k, the one that wins first: the key itself, the one for devices, that of the
      provider and the global one, and between them those under more than one of these. */
  function Sources(provider: string, k: string): seq<string> {
    var global := Qualified(GlobalProvider, k);
    OwnOrDevice(k) + OfProvider(provider, k) + (OwnOrDevice(global) + OfProvider(provider, global))
  }

  lemma {:induction false} FirstConcat(m: Tags, a: seq<string>, b: seq<string>)
    ensures FirstIn(m, a + b) == Or(FirstIn(m, a), FirstIn(m, b))
  {
    if a == [] {
      assert a + b == b;
    } else {
      assert (a + b)[1..] == a[1..] + b;
      FirstConcat(m, a[1..], b);
    }
  }

  lemma {:induction false} FirstOfTwo(m: Tags, k: string)
    ensures FirstIn(m, OwnOrDevice(k)) == Or(Look(m, k), Look(m, Qualified(DeviceProvider, k)))
  {
    hide Look, Qualified;
    var keys := OwnOrDevice(k);
    assert keys[1..] == [Qualified(DeviceProvider, k)] && keys[1..][1..] == [];
    assert FirstIn(m, keys[1..]) == Or(Look(m, keys[1]), FirstIn(m, []));
  }

  /** A pass, looked at from one key. */
  lemma {:induction false} PassLook(m: Tags, p: string, k: string)
    requires NoDouble(m, p)
    ensures Moves(k, p) ==> Look(Passed(m, p), k) == None == Look(m, Qualified(p, k))
    ensures !Moves(k, p) ==>
              Look(Passed(m, p), k) == Or(Look(m, k), if Token in p then None else Look(m, Qualified(p, k)))
  {
    PassedAt(m, p, k);
    if Moves(k, p) {
      NotTwice(m, p, k);
    }
  }

  lemma {:induction false} AfterDevice(m: Tags, k: string)
    requires NoDouble(m, DeviceProvider)
    ensures !Moves(k, DeviceProvider) ==> Look(Passed(m, DeviceProvider), k) == FirstIn(m, OwnOrDevice(k))
    ensures Moves(k, DeviceProvider) ==>
              Look(Passed(m, DeviceProvider), k) == None && FirstIn(m, OwnOrDevice(k)) == Look(m, k)
  {
    PassLook(m, DeviceProvider, k);
    FirstOfTwo(m, k);
  }

  lemma {:induction false} MovesOnly(p: string, q: string, k: string)
    requires Token !in q
    ensures Moves(Qualified(q, k), p) <==> p == q
    ensures !HasPrefix(k) ==> !Moves(k, p)
  {
    QualifiedParts(q, k);
  }

  /** After the passes for devices and the provider. */
  lemma {:induction false} AfterProvider(m: Tags, provider: string, k: string)
    requires NoDouble(m, DeviceProvider) && NoDouble(Passed(m, DeviceProvider), provider)
    requires !Moves(k, DeviceProvider)
    ensures var r, all := Look(Passed(Passed(m, DeviceProvider), provider), k), OwnOrDevice(k) + OfProvider(provider, k);
            if Moves(k, provider) then r == None && FirstIn(m, all) == FirstIn(m, OwnOrDevice(k))
            else r == FirstIn(m, all)
  {
    var m1 := Passed(m, DeviceProvider);
    PassLook(m1, provider, k);
    AfterDevice(m, k);
    FirstConcat(m, OwnOrDevice(k), OfProvider(provider, k));
    if Token !in provider {
      MovesOnly(DeviceProvider, provider, k);
      AfterDevice(m, Qualified(provider, k));
      FirstOfTwo(m, k);
    }
    hide Look, Passed, NoDouble, Qualified, PartsOf, OwnOrDevice, Moves;
  }

  /** The value of every key in the outcome. */
  lemma {:induction false} ResolvedAt(m: Tags, provider: string, k: string)
    requires Determined(m, provider)
    ensures Look(Resolved(m, provider), k) == if HasPrefix(k) then None else FirstIn(m, Sources(provider, k))
  {
    if !HasPrefix(k) {
      var m1 := Passed(m, DeviceProvider);
      var m2, global := Passed(m1, provider), Qualified(GlobalProvider, k);
      MovesOnly(DeviceProvider, GlobalProvider, k);
      MovesOnly(provider, GlobalProvider, k);
      MovesOnly(GlobalProvider, GlobalProvider, k);
      PassLook(m2, GlobalProvider, k);
      AfterProvider(m, provider, k);
      AfterProvider(m, provider, global);
      FirstConcat(m, OwnOrDevice(k) + OfProvider(provider, k), OwnOrDevice(global) + OfProvider(provider, global));
      FirstConcat(m, OwnOrDevice(k), OfProvider(provider, k));
      hide FirstIn, Passed, NoDouble, Qualified, PartsOf, OwnOrDevice, Moves, HasPrefix;
    }
  }

  /** How the keys are written: `provider:device:site`, and a key is prefixed exactly if it starts like that. */
  lemma {:induction false} KeysAreWritten(p: string, k: string)
    ensures Qualified(p, k) == "provider:" + p + ":" + k
    ensures DeviceProvider == "device" && GlobalProvider == "global"
    ensures HasPrefix(k) <==> "provider:" <= k
  {
  }

  /** A tag without the prefix, or with nothing but a provider behind it, matches every provider as it is. A prefixed one
      matches its own provider as what follows it, and no other. */
  lemma {:induction false} MatchesPrefixIs(tag: string, p: string, q: string, k: string)
    ensures !("provider:" <= tag) || ':' !in tag[9..] ==> MatchesPrefix(tag, p) == (tag, true)
    ensures ':' !in q ==> MatchesPrefix("provider:" + q + ":" + k, p) == if p == q then (k, true) else ("", false)
  {
    if PartsOf(tag).Some? {
      var parts := PartsOf(tag).value;
      assert tag[9..] == parts.provider + ":" + parts.key && tag[9..][|parts.provider|] == ':';
    }
    if ':' !in q {
      QualifiedParts(q, k);
      assert Qualified(q, k) == "provider:" + q + ":" + k;
    }
  }
}
