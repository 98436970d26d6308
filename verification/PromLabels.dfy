/**
 Label vectors of the Prometheus format, pkg/formats/prom/prom.go: the labels of a metric are collected from the
 first data points, then its vector is registered and the labels stay as they are.
 */
module PromLabels {
  import opened Decimal

  /** A data point; the value of a tag is its text. */
  datatype PromData = PromData(name: string, value: real, tags: map<string, string>)

  type Positions = map<string, nat>

  /** A registered gauge vector. */
  datatype Vec = Vec(labels: seq<string>, samples: map<seq<string>, real>)

  predicate InvalidTag(k: string) { k != "" && forall i :: 0 <= i < |k| ==> '0' <= k[i] <= '9' }

  function SafeChar(c: char): char { if c == '.' || c == ' ' then '_' else c }

  function Safe(s: string): (r: string)
    ensures |r| == |s| && forall i :: 0 <= i < |s| ==> r[i] == SafeChar(s[i])
  {
    seq(|s|, i requires 0 <= i < |s| => SafeChar(s[i]))
  }

  /** A label has neither dots nor blanks, and is the tag where that has none. */
  lemma {:induction false} SafeMeans(s: string)
    ensures '.' !in Safe(s) && ' ' !in Safe(s)
    ensures forall i :: 0 <= i < |s| ==> Safe(s)[i] == if s[i] in {'.', ' '} then '_' else s[i]
  {
  }

  /** The tags that are no labels are those of decimal digits only, such as the text of any number. */
  lemma {:induction false} InvalidMeans(k: string, n: nat)
    ensures InvalidTag(NatText(n)) && !InvalidTag("")
    ensures (exists i :: 0 <= i < |k| && (k[i] < '0' || k[i] > '9')) ==> !InvalidTag(k)
  {
  }

  // Positions -----------------------------------------------------------------------------------

  /** `order` lists the labels by position. */
  ghost predicate IsOrder(order: seq<string>, m: Positions) {
    && |order| == |m|
    && (forall i :: 0 <= i < |order| ==> order[i] in m && m[order[i]] == i)
    && (forall k :: k in m ==> m[k] < |order| && order[m[k]] == k)
  }

  /** The positions are a bijection onto 0..n-1. */
  ghost predicate Dense(m: Positions) { exists order :: IsOrder(order, m) }

  lemma {:induction false} DenseMeans(m: Positions)
    requires Dense(m)
    ensures forall k :: k in m ==> m[k] < |m|
    ensures forall k, k' :: k in m && k' in m && m[k] == m[k'] ==> k == k'
  {
    var order :| IsOrder(order, m);
  }

  lemma {:induction false} LabelAt(m: Positions, i: nat) returns (k: string)
    requires Dense(m) && i < |m|
    ensures k in m && m[k] == i
  {
    var order :| IsOrder(order, m);
    k := order[i];
  }

  lemma {:induction false} OneMore(m: Positions, k: string, n: nat)
    requires k !in m
    ensures |m[k := n]| == |m| + 1 && m[k := n].Keys == m.Keys + {k}
  {
    var m' := m[k := n];
    assert m'.Keys == m.Keys + {k};
    assert |m'| == |m'.Keys| && |m| == |m.Keys|;
  }

  lemma {:induction false} OrderSnoc(order: seq<string>, m: Positions, k: string)
    requires IsOrder(order, m) && k !in m
    ensures IsOrder(order + [k], m[k := |order|])
  {
    OneMore(m, k, |order|);
    var m', order' := m[k := |order|], order + [k];
    forall i | 0 <= i < |order'| ensures order'[i] in m' && m'[order'[i]] == i {
      assert i < |order| ==> order'[i] == order[i];
    }
  }

  lemma {:induction false} DenseSnoc(m: Positions, k: string, n: nat)
    requires Dense(m) && k !in m && n == |m|
    ensures Dense(m[k := n]) && |m[k := n]| == n + 1 && m[k := n].Keys == m.Keys + {k}
  {
    var order :| IsOrder(order, m);
    OneMore(m, k, n);
    OrderSnoc(order, m, k);
    assert |order| == n;
    hide IsOrder;
  }

  lemma {:induction false} DenseEmpty()
    ensures Dense(map[])
  {
    assert IsOrder([], map[]);
  }

  /** `m` with new labels behind those it had. */
  ghost predicate Extends(m: Positions, was: Positions) {
    was.Keys <= m.Keys && forall k :: k in was ==> m[k] == was[k]
  }

  /** `m` with labels for the tags of `done`. */
  ghost predicate Labeled(m: Positions, was: Positions, tags: map<string, string>, done: set<string>) {
    Dense(m) && Extends(m, was) && m.Keys == was.Keys + TagsIn(tags, done)
  }

  lemma {:induction false} LabelMore(m: Positions, was: Positions, tags: map<string, string>, todo: set<string>,
                                     k: string)
    requires Labeled(m, was, tags, tags.Keys - todo) && k in tags && k in todo
    ensures if InvalidTag(k) || k in m then Labeled(m, was, tags, tags.Keys - (todo - {k}))
            else Labeled(m[k := |m|], was, tags, tags.Keys - (todo - {k})) && |m[k := |m|]| == |m| + 1
  {
    assert tags.Keys - (todo - {k}) == tags.Keys - todo + {k};
    TagsMore(tags, tags.Keys - todo, k);
    hide Dense, InvalidTag, TagsIn, Extends, Labeled;
    if InvalidTag(k) || k in m {
      LabelOld(m, was, tags, tags.Keys - todo, k);
    } else {
      LabelNew(m, was, tags, tags.Keys - todo, k, |m|);
    }
  }

  lemma {:induction false} LabelOld(m: Positions, was: Positions, tags: map<string, string>, done: set<string>,
                                    k: string)
    requires Labeled(m, was, tags, done) && (InvalidTag(k) || k in m)
    requires TagsIn(tags, done + {k}) == TagsIn(tags, done) + if InvalidTag(k) then {} else {k}
    ensures Labeled(m, was, tags, done + {k})
  {
    hide Dense, InvalidTag, TagsIn, Extends;
  }

  lemma {:induction false} LabelNew(m: Positions, was: Positions, tags: map<string, string>, done: set<string>,
                                    k: string, n: nat)
    requires Labeled(m, was, tags, done) && !InvalidTag(k) && k !in m && n == |m|
    requires TagsIn(tags, done + {k}) == TagsIn(tags, done) + {k}
    ensures Labeled(m[k := n], was, tags, done + {k}) && |m[k := n]| == n + 1
  {
    hide Dense, InvalidTag, TagsIn, Extends;
    DenseSnoc(m, k, n);
    ExtendsSnoc(m, was, k, n);
    assert m.Keys + {k} == was.Keys + (TagsIn(tags, done) + {k});
  }

  lemma {:induction false} ExtendsSnoc(m: Positions, was: Positions, k: string, i: nat)
    requires Extends(m, was) && k !in m
    ensures Extends(m[k := i], was)
  {
  }

  lemma {:induction false} LabeledMeans(m: Positions, was: Positions, tags: map<string, string>, done: set<string>)
    requires Labeled(m, was, tags, done)
    ensures Dense(m) && Extends(m, was)
  {
  }

  lemma {:induction false} LabeledEnds(was: Positions, tags: map<string, string>)
    requires Dense(was)
    ensures Labeled(was, was, tags, tags.Keys - tags.Keys) && tags.Keys - {} == tags.Keys
  {
    hide Dense;
    assert TagsIn(tags, tags.Keys - tags.Keys) == {};
  }

  /** AddTagLabels, for the positions of one metric. */
  method AddTagLabels(was: Positions, tags: map<string, string>) returns (m: Positions)
    requires Dense(was)
    ensures Labeled(m, was, tags, tags.Keys)
  {
    hide Labeled, InvalidTag;
    LabeledEnds(was, tags);
    m := was;
    var next := |m|;
    var todo := tags.Keys;
    while todo != {}
      invariant todo <= tags.Keys && next == |m| && Labeled(m, was, tags, tags.Keys - todo)
    {
      var k :| k in todo;
      LabelMore(m, was, tags, todo, k);
      if !InvalidTag(k) && k !in m {
        m := m[k := next];
        next := next + 1;
      }
      todo := todo - {k};
    }
  }

  /** The tags of `keys` that can be labels. */
  function TagsIn(tags: map<string, string>, keys: set<string>): set<string> {
    set k | k in tags && k in keys && !InvalidTag(k)
  }

  lemma {:induction false} TagsMore(tags: map<string, string>, keys: set<string>, k: string)
    requires k in tags
    ensures TagsIn(tags, keys + {k}) == TagsIn(tags, keys) + if InvalidTag(k) then {} else {k}
  {
  }

  /** `values` has every tag that has a position in that position, and nothing elsewhere. */
  ghost predicate Slots(values: seq<string>, m: Positions, tags: map<string, string>) {
    && |values| == |m|
    && (forall k :: k in m && m[k] < |m| && k in tags ==> values[m[k]] == tags[k])
    && (forall k :: k in m && m[k] < |m| && k !in tags ==> values[m[k]] == "")
  }

  /** GetTagValues */
  method GetTagValues(m: Positions, tags: map<string, string>) returns (values: seq<string>)
    requires Dense(m)
    ensures Slots(values, m, tags)
  {
    DenseMeans(m);
    hide Dense;
    var out := new string[|m|](_ => "");
    var todo := tags.Keys;
    while todo != {}
      invariant todo <= tags.Keys
      invariant forall k :: k in m && k in tags && k !in todo ==> out[m[k]] == tags[k]
      invariant forall k :: k in m && (k !in tags || k in todo) ==> out[m[k]] == ""
    {
      var k :| k in todo;
      if k in m {
        out[m[k]] := tags[k];
      }
      todo := todo - {k};
    }
    values := out[..];
  }

  ghost predicate IsLabels(labels: seq<string>, m: Positions) {
    |labels| == |m| && forall k :: k in m && m[k] < |m| ==> labels[m[k]] == Safe(k)
  }

  /** toLabels */
  method ToLabels(m: Positions) returns (labels: seq<string>)
    requires Dense(m)
    ensures IsLabels(labels, m)
  {
    DenseMeans(m);
    hide Dense;
    var out := new string[|m|](_ => "");
    var todo := m.Keys;
    while todo != {}
      invariant todo <= m.Keys
      invariant forall k :: k in m && k !in todo ==> out[m[k]] == Safe(k)
    {
      var k :| k in todo;
      out[m[k]] := Safe(k);
      todo := todo - {k};
    }
    labels := out[..];
  }

  // The format ----------------------------------------------------------------------------------

  /** What a registration accepts: a good name, and different labels, all of them well formed. */
  predicate Registrable(name: string, labels: seq<string>, names: Names) {
    && names.metricOK(name)
    && (forall i :: 0 <= i < |labels| ==> names.labelOK(labels[i]))
    && (forall i, j :: 0 <= i < j < |labels| ==> labels[i] != labels[j])
  }

  /** What the client library takes for the name of a metric, for that of a label and for the value of a label. */
  datatype Names = Names(metricOK: string -> bool, labelOK: string -> bool, valueOK: string -> bool)

  /** A tag that has a label, or a label that has no tag, comes with a value that is refused. */
  predicate Refused(m: Positions, tags: map<string, string>, names: Names) {
    exists k :: k in m && !names.valueOK(if k in tags then tags[k] else "")
  }

  ghost predicate Unregistrable(name: string, m: Positions, names: Names) {
    exists labels :: IsLabels(labels, m) && !Registrable(name, labels, names)
  }

  /** The tags differ at most in dots, spaces and underscores. */
  predicate Alike(a: string, b: string) {
    |a| == |b| && forall i :: 0 <= i < |a| ==> SafeChar(a[i]) == SafeChar(b[i])
  }

  lemma {:induction false} SameLabelIff(a: string, b: string)
    ensures Safe(a) == Safe(b) <==> Alike(a, b)
  {
    if Safe(a) == Safe(b) {
      forall i | 0 <= i < |a| ensures SafeChar(a[i]) == SafeChar(b[i]) {
        assert Safe(a)[i] == Safe(b)[i];
      }
    }
  }

  function PositionsOf(vecTags: map<string, Positions>, name: string): Positions {
    if name in vecTags then vecTags[name] else map[]
  }

  /** The state of the format: the positions of the labels, the points seen of each metric, and the vectors. */
  datatype State = State(vecTags: map<string, Positions>, seen: map<string, int>, vecs: map<string, Vec>)

  function SeenIn(seen: map<string, int>, name: string): int { if name in seen then seen[name] else 0 }

  /** One data point: labels are collected until enough points were seen, and then it is set. */
  ghost predicate Observed(needed: int, names: Names, c: State, m: PromData, c': State, panicked: bool) {
    var positions, n := PositionsOf(c.vecTags, m.name), SeenIn(c.seen, m.name);
    && (panicked <==>
          n >= needed
          && (Refused(positions, m.tags, names)
              || (m.name !in c.vecs && Unregistrable(m.name, positions, names))))
    && (!panicked && n < needed ==>
          && c'.vecs == c.vecs && c'.seen == c.seen[m.name := n + 1]
          && c'.vecTags == c.vecTags[m.name := PositionsOf(c'.vecTags, m.name)]
          && Labeled(PositionsOf(c'.vecTags, m.name), positions, m.tags, m.tags.Keys))
    && (!panicked && n >= needed ==>
          c'.vecTags == c.vecTags && c'.seen == c.seen && IsSet(c'.vecs, c.vecs, positions, m))
  }

  /** A run over data points, each of them as above; only the last can have panicked. */
  ghost predicate Ran(needed: int, names: Names, c: State, ms: seq<PromData>, c': State, panicked: bool)
    decreases |ms|
  {
    if ms == [] then c' == c && !panicked
    else
      var init, last := ms[..|ms| - 1], ms[|ms| - 1];
      exists c1 :: Ran(needed, names, c, init, c1, false) && Observed(needed, names, c1, last, c', panicked)
  }

  lemma {:induction false} RanSnoc(needed: int, names: Names, c: State, ms: seq<PromData>, c1: State, m: PromData,
                                   c': State, panicked: bool)
    requires Ran(needed, names, c, ms, c1, false) && Observed(needed, names, c1, m, c', panicked)
    ensures Ran(needed, names, c, ms + [m], c', panicked)
  {
    hide Observed;
    var all := ms + [m];
    var init, last := all[..|all| - 1], all[|all| - 1];
    assert init == ms && last == m;
    assert Ran(needed, names, c, init, c1, false) && Observed(needed, names, c1, last, c', panicked);
  }

  class PromFormat {
    const flowsNeeded: int
    const names: Names
    var vecTags: map<string, Positions>
    var seen: map<string, int>
    var vecs: map<string, Vec>

    /** Positions are dense, and the labels of a registered vector are in theirs; its metric has been seen often
        enough, so that no more labels are collected. */
    ghost predicate Valid()
      reads this
    {
      && (forall n :: n in vecTags ==> Dense(vecTags[n]))
      && (forall n :: n in vecs ==> Seen(n) >= flowsNeeded && IsLabels(vecs[n].labels, PositionsOf(vecTags, n)))
      && (forall n :: n in vecs ==> forall values :: values in vecs[n].samples ==> |values| == |vecs[n].labels|)
    }

    function Seen(n: string): int
      reads this
    {
      SeenIn(seen, n)
    }

    ghost function Contents(): State
      reads this
    {
      State(vecTags, seen, vecs)
    }

    constructor (needed: int, ok: Names)
      ensures Valid() && flowsNeeded == needed && names == ok && Contents() == State(map[], map[], map[])
    {
      flowsNeeded, names := needed, ok;
      vecTags, seen, vecs := map[], map[], map[];
    }

    /** One data point of To: labels are collected, or the point is set in the vector of the metric, which is
        registered first if need be. */
    method Observe(m: PromData) returns (panicked: bool)
      requires Valid()
      modifies this
      ensures Frozen(old(vecTags), old(vecs), vecTags, vecs)
      ensures Observed(flowsNeeded, names, old(Contents()), m, Contents(), panicked)
      ensures !panicked ==> Valid()
    {
      hide Dense, IsLabels, Registrable, Unregistrable, Refused, Labeled, IsSet, Valid, Frozen;
      panicked := false;
      var positions := PositionsOf(vecTags, m.name);
      DensePositions(m.name);
      FrozenItself(vecTags, vecs);
      if Seen(m.name) < flowsNeeded {
        Collect(m, positions);
      } else {
        if m.name !in vecs {
          panicked := Register(m.name, positions);
        }
        if !panicked {
          FrozenVec(old(vecTags), old(vecs), vecs, m.name);
          ghost var before := vecs;
          panicked := Set(m, positions);
          if !panicked {
            SetInNew(vecs, before, old(vecs), positions, m);
          }
          FrozenVec(old(vecTags), before, vecs, m.name);
          FrozenAgain(old(vecTags), old(vecs), vecTags, before, vecTags, vecs);
        }
      }
    }

    lemma {:induction false} DensePositions(name: string)
      requires Valid()
      ensures Dense(PositionsOf(vecTags, name))
    {
      DenseEmpty();
    }

    method Collect(m: PromData, positions: Positions)
      requires Valid() && Seen(m.name) < flowsNeeded && positions == PositionsOf(vecTags, m.name) && Dense(positions)
      modifies this`vecTags, this`seen
      ensures Valid() && Frozen(old(vecTags), vecs, vecTags, vecs)
      ensures seen == old(seen)[m.name := old(Seen(m.name)) + 1]
      ensures Labeled(PositionsOf(vecTags, m.name), positions, m.tags, m.tags.Keys)
      ensures vecTags == old(vecTags)[m.name := PositionsOf(vecTags, m.name)]
    {
      hide Dense, IsLabels, Labeled, Extends, Frozen;
      var labeled := AddTagLabels(positions, m.tags);
      LabeledMeans(labeled, positions, m.tags, m.tags.Keys);
      FrozenTags(vecTags, vecs, m.name, labeled);
      vecTags := vecTags[m.name := labeled];
      seen := seen[m.name := Seen(m.name) + 1];
    }

    method Register(name: string, positions: Positions) returns (panicked: bool)
      requires Valid() && name !in vecs && Seen(name) >= flowsNeeded && positions == PositionsOf(vecTags, name) && Dense(positions)
      modifies this`vecs
      ensures panicked <==> Unregistrable(name, positions, names)
      ensures if panicked then vecs == old(vecs)
              else Valid() && name in vecs && vecs == old(vecs)[name := vecs[name]]
                   && vecs[name].samples == map[] && IsLabels(vecs[name].labels, positions)
    {
      hide Dense, IsLabels, Registrable;
      var labels := ToLabels(positions);
      OneLabeling(positions, labels);
      panicked := !Registrable(name, labels, names);
      if !panicked {
        vecs := vecs[name := Vec(labels, map[])];
      }
    }

    /** WithLabelValues and Set: as many values as the vector has labels, and a panic if one is refused. */
    method Set(m: PromData, positions: Positions) returns (panicked: bool)
      requires Valid() && m.name in vecs && positions == PositionsOf(vecTags, m.name) && Dense(positions)
      modifies this`vecs
      ensures panicked <==> Refused(positions, m.tags, names)
      ensures Valid() && (if panicked then vecs == old(vecs) else IsSet(vecs, old(vecs), positions, m))
      ensures vecs == old(vecs)[m.name := vecs[m.name]] && vecs[m.name].labels == old(vecs)[m.name].labels
    {
      hide Dense, IsLabels, Slots, PositionsOf, Safe, Refused;
      var values := GetTagValues(positions, m.tags);
      RefusedIff(values, positions, m.tags, names);
      panicked := exists i :: 0 <= i < |values| && !names.valueOK(values[i]);
      if !panicked {
        var vec := vecs[m.name];
        SameLength(values, vec.labels, positions, m.tags);
        ghost var was := vecs;
        vecs := vecs[m.name := vec.(samples := vec.samples[values := m.value])];
        assert Samples(vecs, was, m, values);
      }
    }

    /** To, after the data points have been made. */
    method To(ms: seq<PromData>) returns (panicked: bool)
      requires Valid()
      modifies this
      ensures !panicked ==> Valid()
      ensures Frozen(old(vecTags), old(vecs), vecTags, vecs)
      ensures exists n :: 0 <= n <= |ms| && Ran(flowsNeeded, names, old(Contents()), ms[..n], Contents(), panicked)
                          && (!panicked ==> n == |ms|)
    {
      hide Valid, Extends, Observed, Ran;
      ExtendsItself();
      panicked := false;
      RanNothing(flowsNeeded, names, Contents());
      for i := 0 to |ms|
        invariant Valid() && !panicked
        invariant Frozen(old(vecTags), old(vecs), vecTags, vecs)
        invariant Ran(flowsNeeded, names, old(Contents()), ms[..i], Contents(), false)
      {
        ghost var before := Contents();
        panicked := Observe(ms[i]);
        FrozenAgain(old(vecTags), old(vecs), before.vecTags, before.vecs, vecTags, vecs);
        RanSnoc(flowsNeeded, names, old(Contents()), ms[..i], before, ms[i], Contents(), panicked);
        assert ms[..i + 1] == ms[..i] + [ms[i]];
        if panicked {
          return;
        }
      }
      assert ms[..|ms|] == ms;
    }
  }

  lemma {:induction false} RanNothing(needed: int, names: Names, c: State)
    ensures Ran(needed, names, c, [], c, false)
  {
  }

  lemma {:induction false} ExtendsItself()
    ensures forall m: Positions :: Extends(m, m)
  {
  }

  lemma {:induction false} FrozenTags(tags: map<string, Positions>, vecs: map<string, Vec>, name: string, m: Positions)
    requires Extends(m, PositionsOf(tags, name)) && name !in vecs
    ensures Frozen(tags, vecs, tags[name := m], vecs)
  {
    ExtendsItself();
    hide Extends;
  }

  lemma {:induction false} FrozenItself(tags: map<string, Positions>, vecs: map<string, Vec>)
    ensures Frozen(tags, vecs, tags, vecs)
  {
  }

  lemma {:induction false} FrozenVec(tags: map<string, Positions>, was: map<string, Vec>, vecs: map<string, Vec>,
                                     name: string)
    requires name in vecs && vecs == was[name := vecs[name]] && (name in was ==> vecs[name].labels == was[name].labels)
    ensures Frozen(tags, was, tags, vecs)
  {
  }

  lemma {:induction false} RefusedIff(values: seq<string>, m: Positions, tags: map<string, string>, names: Names)
    requires Dense(m) && Slots(values, m, tags)
    ensures Refused(m, tags, names) <==> exists i :: 0 <= i < |values| && !names.valueOK(values[i])
  {
    DenseMeans(m);
    hide Dense;
    if i :| 0 <= i < |values| && !names.valueOK(values[i]) {
      var k := LabelAt(m, i);
    }
    if k :| k in m && !names.valueOK(if k in tags then tags[k] else "") {
      assert !names.valueOK(values[m[k]]);
    }
  }

  /** A vector registered just before is a new one. */
  lemma {:induction false} SetInNew(vecs: map<string, Vec>, before: map<string, Vec>, was: map<string, Vec>,
                                    positions: Positions, m: PromData)
    requires IsSet(vecs, before, positions, m) && m.name in before && before == was[m.name := before[m.name]]
    requires m.name !in was ==> before[m.name].samples == map[] && IsLabels(before[m.name].labels, positions)
    requires m.name in was ==> before == was
    ensures IsSet(vecs, was, positions, m)
  {
    hide IsLabels, Slots;
    var values :| Slots(values, positions, m.tags) && Samples(vecs, before, m, values);
    assert Samples(vecs, was, m, values);
  }

  lemma {:induction false} SameLength(values: seq<string>, labels: seq<string>, m: Positions, tags: map<string, string>)
    requires Slots(values, m, tags) && IsLabels(labels, m)
    ensures |values| == |labels|
  {
  }

  lemma {:induction false} OneLabeling(m: Positions, labels: seq<string>)
    requires Dense(m) && IsLabels(labels, m)
    ensures forall l :: IsLabels(l, m) ==> l == labels
  {
    forall l | IsLabels(l, m) ensures l == labels {
      forall i | 0 <= i < |m| ensures l[i] == labels[i] {
        var k := LabelAt(m, i);
      }
    }
  }

  /** The data point is in its vector, under the values of its tags, each in the slot of its label; nothing else has
      changed but that the vector may be new. */
  ghost predicate IsSet(vecs: map<string, Vec>, was: map<string, Vec>, positions: Positions, m: PromData) {
    && m.name in vecs
    && (m.name !in was ==> IsLabels(vecs[m.name].labels, positions))
    && (m.name in was ==> vecs[m.name].labels == was[m.name].labels)
    && exists values :: Slots(values, positions, m.tags) && Samples(vecs, was, m, values)
  }

  predicate Samples(vecs: map<string, Vec>, was: map<string, Vec>, m: PromData, values: seq<string>)
    requires m.name in vecs
  {
    && vecs == was[m.name := vecs[m.name]]
    && vecs[m.name].samples == (if m.name in was then was[m.name].samples else map[])[values := m.value]
  }

  lemma {:induction false} FrozenAgain(tags: map<string, Positions>, vecs: map<string, Vec>, tags1: map<string,
                                       Positions>,
                                       vecs1: map<string, Vec>, tags2: map<string, Positions>, vecs2: map<string, Vec>)
    requires Frozen(tags, vecs, tags1, vecs1) && Frozen(tags1, vecs1, tags2, vecs2)
    ensures Frozen(tags, vecs, tags2, vecs2)
  {
  }

  /** The vector of a metric can be registered exactly if its name and the label of every tag are well formed, and no
      two tags are alike. */
  lemma {:induction false} RegistrableIff(m: Positions, name: string, labels: seq<string>, names: Names)
    requires Dense(m) && IsLabels(labels, m)
    ensures Registrable(name, labels, names) <==>
            && names.metricOK(name) && (forall k :: k in m ==> names.labelOK(Safe(k)))
            && (forall a, b :: a in m && b in m && a != b ==> !Alike(a, b))
  {
    forall a, b ensures Safe(a) == Safe(b) <==> Alike(a, b) {
      SameLabelIff(a, b);
    }
    hide Dense, Alike, Safe;
    LabelsOKIff(m, labels, names);
    if forall i, j :: 0 <= i < j < |labels| ==> labels[i] != labels[j] {
      DenseMeans(m);
      TagsDiffer(m, labels);
    } else {
      var a, b := SameLabels(m, labels);
    }
  }

  lemma {:induction false} LabelsOKIff(m: Positions, labels: seq<string>, names: Names)
    requires Dense(m) && IsLabels(labels, m)
    ensures (forall i :: 0 <= i < |labels| ==> names.labelOK(labels[i])) <==> (forall k :: k in m ==> names.labelOK(Safe(k)))
  {
    DenseMeans(m);
    hide Dense, Safe;
    if forall k :: k in m ==> names.labelOK(Safe(k)) {
      forall i | 0 <= i < |labels| ensures names.labelOK(labels[i]) {
        var k := LabelAt(m, i);
      }
    } else {
      var k :| k in m && !names.labelOK(Safe(k));
      assert labels[m[k]] == Safe(k);
    }
  }

  lemma {:induction false} SameLabels(m: Positions, labels: seq<string>) returns (a: string, b: string)
    requires Dense(m) && IsLabels(labels, m) && exists i, j :: 0 <= i < j < |labels| && labels[i] == labels[j]
    ensures a in m && b in m && a != b && Safe(a) == Safe(b)
  {
    hide Dense, Safe;
    var i, j :| 0 <= i < j < |labels| && labels[i] == labels[j];
    a := LabelAt(m, i);
    b := LabelAt(m, j);
  }

  lemma {:induction false} TagsDiffer(m: Positions, labels: seq<string>)
    requires IsLabels(labels, m) && forall i, j :: 0 <= i < j < |labels| ==> labels[i] != labels[j]
    requires forall k :: k in m ==> m[k] < |m|
    requires forall a, b :: a in m && b in m && m[a] == m[b] ==> a == b
    ensures forall a, b :: a in m && b in m && a != b ==> Safe(a) != Safe(b)
  {
    hide Safe;
    forall a, b | a in m && b in m && a != b ensures Safe(a) != Safe(b) {
      var i, j := m[a], m[b];
      assert labels[i] == Safe(a) && labels[j] == Safe(b);
      assert i < j || j < i;
    }
  }

  /** Positions never change, and a registered vector keeps its labels. */
  ghost predicate Frozen(was: map<string, Positions>, wasVecs: map<string, Vec>, now: map<string, Positions>,
                         vecs: map<string, Vec>) {
    && (forall n :: n in was ==> n in now && Extends(now[n], was[n]))
    && (forall n :: n in wasVecs ==> n in vecs && vecs[n].labels == wasVecs[n].labels)
    && (forall n :: n in wasVecs ==> PositionsOf(now, n) == PositionsOf(was, n))
  }
}
