/** Exports: the rollups of a window, the largest first, and no more than the configured number. The metric
    stays an integer. pkg/rollup/stats.go and pkg/rollup/cache.go. */
module TopRollups {
  import opened Integers
  import opened RollupRows
  import opened Sorting
  import opened SumRollup

  datatype Rollup = Rollup(name: string, dimension: string, metric: nat, keyJoin: string, dims: seq<string>,
                           count: u64, min: u64, max: u64, provider: string)

  /** byValue */
  function MetricOf(r: Rollup): int { r.metric }

  function Shown(k: int, n: nat): (m: nat)
    ensures m <= n && (k > 0 ==> m <= k)
  {
    if k > 0 && n > k then k else n
  }

  /** A window: the rollup of each key, whose dimension is the key. */
  ghost predicate Named(m: map<string, Rollup>) { forall k :: k in m ==> m[k].dimension == k }

  /** `all` holds the rollup of every key of `m`, and is no longer than that takes. */
  ghost predicate Lists(all: seq<Rollup>, m: map<string, Rollup>) {
    && |all| == |m|
    && (forall k :: k in m ==> m[k] in all)
    && (forall r :: r in all ==> r.dimension in m && m[r.dimension] == r)
  }

  /** The first rollups of some listing of `m` in descending order. */
  ghost predicate IsTop(out: seq<Rollup>, m: map<string, Rollup>, k: int) {
    exists all :: Lists(all, m) && Descending(all, MetricOf) && out == all[..Shown(k, |all|)]
  }

  lemma {:induction false} TopIsListed(out: seq<Rollup>, all: seq<Rollup>, m: map<string, Rollup>, k: int)
    requires Named(m) && Lists(all, m) && Descending(all, MetricOf) && out == all[..Shown(k, |all|)]
    ensures |out| == if k > 0 && |m| > k then k else |m|
    ensures Descending(out, MetricOf)
    ensures forall i :: 0 <= i < |out| ==> out[i].dimension in m && m[out[i].dimension] == out[i]
    ensures forall i, j :: 0 <= i < j < |out| ==> out[i].dimension != out[j].dimension
  {
    Different(all, m);
  }

  /** What an export shows: min(K, n) of the n rollups, each of a key of its own, in descending order, and no
      key left out has a larger metric than any that is shown. */
  lemma {:induction false} ShownAreLargest(out: seq<Rollup>, m: map<string, Rollup>, k: int)
    requires Named(m) && IsTop(out, m, k)
    ensures |out| == if k > 0 && |m| > k then k else |m|
    ensures Descending(out, MetricOf)
    ensures forall i :: 0 <= i < |out| ==> out[i].dimension in m && m[out[i].dimension] == out[i]
    ensures forall i, j :: 0 <= i < j < |out| ==> out[i].dimension != out[j].dimension
    ensures forall q, i :: q in m && m[q] !in out && 0 <= i < |out| ==> m[q].metric <= out[i].metric
  {
    var all :| Lists(all, m) && Descending(all, MetricOf) && out == all[..Shown(k, |all|)];
    TopIsListed(out, all, m, k);
    hide Descending;
    forall q, i | q in m && m[q] !in out && 0 <= i < |out| ensures m[q].metric <= out[i].metric {
      WithheldIsSmaller(all, |out|, m[q], i);
    }
  }

  lemma {:induction false} WithheldIsSmaller(all: seq<Rollup>, n: nat, r: Rollup, i: nat)
    requires Descending(all, MetricOf) && i < n <= |all| && r in all && r !in all[..n]
    ensures r.metric <= all[i].metric
  {
    var j :| 0 <= j < |all| && all[j] == r;
    assert forall j' :: 0 <= j' < n ==> all[j'] in all[..n];
    assert MetricOf(all[i]) >= MetricOf(all[j]);
  }

  function Dimensions(all: seq<Rollup>): (s: set<string>)
    ensures |s| <= |all|
    ensures forall r :: r in all ==> r.dimension in s
  {
    if all == [] then {} else Dimensions(all[..|all| - 1]) + {all[|all| - 1].dimension}
  }

  lemma {:induction false} FullIsDifferent(all: seq<Rollup>)
    requires |Dimensions(all)| == |all|
    ensures forall i, j :: 0 <= i < j < |all| ==> all[i].dimension != all[j].dimension
  {
    if all != [] {
      FullIsDifferent(all[..|all| - 1]);
    }
  }

  lemma {:induction false} Different(all: seq<Rollup>, m: map<string, Rollup>)
    requires Named(m) && Lists(all, m)
    ensures forall i, j :: 0 <= i < j < |all| ==> all[i].dimension != all[j].dimension
  {
    assert m.Keys <= Dimensions(all);
    assert Dimensions(all) == m.Keys + (Dimensions(all) - m.Keys);
    FullIsDifferent(all);
  }

  /** Lists, sorts and cuts. */
  method TopOf(m: map<string, Rollup>, k: int) returns (out: seq<Rollup>)
    requires Named(m)
    ensures IsTop(out, m, k)
  {
    var all := ListAll(m);
    var sorted := Sort(all, MetricOf);
    Permuted(all, sorted, m);
    if k > 0 && |sorted| > k {
      out := sorted[..k];
    } else {
      out := sorted;
    }
    assert out == sorted[..Shown(k, |sorted|)];
  }

  method ListAll(m: map<string, Rollup>) returns (all: seq<Rollup>)
    requires Named(m)
    ensures Lists(all, m)
  {
    all := [];
    var todo := m.Keys;
    while todo != {}
      invariant todo <= m.Keys && |all| + |todo| == |m|
      invariant forall k :: k in m.Keys - todo ==> m[k] in all
      invariant forall r :: r in all ==> r.dimension in m && m[r.dimension] == r
    {
      var k :| k in todo;
      all := all + [m[k]];
      todo := todo - {k};
    }
  }

  lemma {:induction false} Permuted(all: seq<Rollup>, sorted: seq<Rollup>, m: map<string, Rollup>)
    requires Lists(all, m) && multiset(sorted) == multiset(all)
    ensures Lists(sorted, m)
  {
    assert |multiset(sorted)| == |multiset(all)|;
    assert forall r :: r in all <==> r in multiset(all);
    assert forall r :: r in sorted <==> r in multiset(sorted);
  }

  // The sum rollup ------------------------------------------------------------------------------

  /** combo: an entry of a map is named by its key, a joined dimension by its whole definition. */
  function DimName(dim: Dim): string {
    match dim
    case Plain(Attr(name)) => name
    case Plain(Entry(_, key)) => key
    case Joined(l, join, r) => PathName(l) + "$$" + join + "$$" + PathName(r)
  }

  function PathName(p: Path): string {
    match p case Attr(name) => name case Entry(name, key) => name + "." + key
  }

  function DimNames(dims: seq<Dim>): (names: seq<string>)
    ensures |names| == |dims| && forall i :: 0 <= i < |dims| ==> names[i] == DimName(dims[i])
  {
    if dims == [] then [] else [DimName(dims[0])] + DimNames(dims[1..])
  }

  ghost predicate Complete(d: Def, s: SumSet) { forall k :: k in s.sum ==> |s.sum[k]| == |d.nameSet| }

  /** The rollups of one name of a window of sums. */
  function SumRollups(d: Def, s: SumSet, prov: string, i: nat): (m: map<string, Rollup>)
    requires i < |d.nameSet| && Complete(d, s)
    ensures Named(m)
  {
    map k | k in s.sum :: Rollup(d.nameSet[i], k, s.sum[k][i], d.keyJoin, DimNames(d.dims), s.count, s.min, s.max, prov)
  }

  function FlatRollups(parts: seq<seq<Rollup>>): seq<Rollup> {
    if parts == [] then [] else FlatRollups(parts[..|parts| - 1]) + parts[|parts| - 1]
  }

  lemma {:induction false} NoRollups()
    ensures FlatRollups([]) == []
  {
  }

  lemma {:induction false} FlatRollupsSnoc(parts: seq<seq<Rollup>>, part: seq<Rollup>)
    ensures FlatRollups(parts + [part]) == FlatRollups(parts) + part
  {
    assert (parts + [part])[..|parts|] == parts;
  }

  /** The top of every name, one after the other; nothing for an empty window. */
  ghost predicate IsExport(out: seq<Rollup>, parts: seq<seq<Rollup>>, d: Def, s: SumSet, prov: string, topK: int) {
    && Complete(d, s) && out == FlatRollups(parts)
    && if s.sum == map[] then parts == []
       else |parts| == |d.nameSet| && forall i :: 0 <= i < |parts| ==> IsTop(parts[i], SumRollups(d, s, prov, i), topK)
  }

  /** exportSum */
  method ExportSum(d: Def, s: SumSet, prov: string, topK: int) returns (out: seq<Rollup>)
    requires Complete(d, s)
    ensures exists parts :: IsExport(out, parts, d, s, prov, topK)
  {
    ghost var parts: seq<seq<Rollup>> := [];
    out := [];
    NoRollups();
    if |s.sum| == 0 {
      assert IsExport(out, parts, d, s, prov, topK);
      return;
    }
    out, parts := ExportNames(d, s, prov, topK);
    hide IsTop, FlatRollups, Named, Complete, SumRollups;
    assert IsExport(out, parts, d, s, prov, topK);
  }

  method ExportNames(d: Def, s: SumSet, prov: string, topK: int) returns (out: seq<Rollup>,
                     ghost parts: seq<seq<Rollup>>)
    requires Complete(d, s)
    ensures out == FlatRollups(parts) && |parts| == |d.nameSet|
    ensures forall i :: 0 <= i < |parts| ==> IsTop(parts[i], SumRollups(d, s, prov, i), topK)
  {
    hide IsTop, FlatRollups, Named, Complete, SumRollups;
    NoRollups();
    out, parts := [], [];
    var i := 0;
    while i < |d.nameSet|
      invariant i <= |d.nameSet| && |parts| == i && out == FlatRollups(parts)
      invariant forall j :: 0 <= j < i ==> IsTop(parts[j], SumRollups(d, s, prov, j), topK)
    {
      var top := TopOf(SumRollups(d, s, prov, i), topK);
      FlatRollupsSnoc(parts, top);
      out, parts := out + top, parts + [top];
      i := i + 1;
    }
  }
}
