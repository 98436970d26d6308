/** What a sum or a cached rollup exports, in terms of the rows that were added. pkg/rollup/stats.go and cache.go */
module ExportMeaning {
  import opened Integers
  import opened SplitJoin
  import opened Decimal
  import opened RollupRows
  import opened RowFolds
  import opened SumRollup
  import opened TopRollups
  import CacheStore
  import CacheRollup

  // Names ---------------------------------------------------------------------------------------

  /** The name of a dimension: that of the attribute, or the key in a map; a joined one is written out. */
  lemma {:induction false} DimensionNames(name: string, k: string, l: Path, join: string, r: Path)
    ensures DimName(Plain(Attr(name))) == name && DimName(Plain(Entry(name, k))) == k
    ensures DimName(Joined(Attr(name), join, Entry(name, k))) == name + "$$" + join + "$$" + name + "." + k
    ensures DimName(Joined(l, join, r)) == PathName(l) + "$$" + join + "$$" + PathName(r)
  {
    assert name + "$$" + join + "$$" + (name + "." + k) == name + "$$" + join + "$$" + name + "." + k;
  }

  // Sums ----------------------------------------------------------------------------------------

  /** A rollup of name i says of its key what the rows add up to. */
  ghost predicate Tells(r: Rollup, d: Def, rows: seq<Row>, start: u64, prov: string, i: nat) {
    && i < |d.nameSet| && r.name == d.nameSet[i] && r.dimension in KeysOf(d, rows)
    && r.metric == RowTotal(d, rows, r.dimension, i) % 0x1_0000_0000_0000_0000
    && r.count == |rows| % 0x1_0000_0000_0000_0000
    && r.min == MinValue(d, start, rows) && r.max == MaxValue(d, rows)
    && r.provider == prov && r.keyJoin == d.keyJoin && r.dims == DimNames(d.dims)
  }

  /**
   Every rollup in an export tells the metric of its key and name, and the count and the extremes of its window. Every
   name has those of the K keys with the largest metrics, or of all keys.
   */
  lemma {:induction false} ExportTells(out: seq<Rollup>, parts: seq<seq<Rollup>>, d: Def, s: SumSet, prov: string,
                                       topK: int, rows: seq<Row>, start: u64)
    requires IsExport(out, parts, d, s, prov, topK) && IsSummary(d, s, rows, start)
    ensures forall r :: r in out <==> exists i :: 0 <= i < |parts| && r in parts[i]
    ensures |parts| == if rows == [] then 0 else |d.nameSet|
    ensures forall i, r :: 0 <= i < |parts| && r in parts[i] ==> Tells(r, d, rows, start, prov, i)
    ensures forall i :: 0 <= i < |parts| ==>
              |parts[i]| == if topK > 0 && |KeysOf(d, rows)| > topK then topK else |KeysOf(d, rows)|
  {
    InSomePart(parts);
    NoKeys(d, rows);
    if s.sum != map[] {
      assert s.sum.Keys != {};
      forall i | 0 <= i < |parts|
        ensures |parts[i]| == if topK > 0 && |KeysOf(d, rows)| > topK then topK else |KeysOf(d, rows)|
        ensures forall r :: r in parts[i] ==> Tells(r, d, rows, start, prov, i)
      {
        PartTells(parts[i], d, s, prov, topK, rows, start, i);
      }
    }
  }

  lemma {:induction false} NoKeys(d: Def, rows: seq<Row>)
    ensures KeysOf(d, rows) == {} <==> rows == []
  {
  }

  lemma {:induction false} InSomePart(parts: seq<seq<Rollup>>)
    ensures forall r :: r in FlatRollups(parts) <==> exists i :: 0 <= i < |parts| && r in parts[i]
  {
    if parts != [] {
      var init, last := parts[..|parts| - 1], parts[|parts| - 1];
      InSomePart(init);
      assert forall i :: 0 <= i < |init| ==> init[i] == parts[i];
    }
  }

  lemma {:induction false} PartTells(part: seq<Rollup>, d: Def, s: SumSet, prov: string, topK: int, rows: seq<Row>,
                                     start: u64, i: nat)
    requires Complete(d, s) && i < |d.nameSet| && IsTop(part, SumRollups(d, s, prov, i), topK)
    requires IsSummary(d, s, rows, start)
    ensures |part| == if topK > 0 && |KeysOf(d, rows)| > topK then topK else |KeysOf(d, rows)|
    ensures forall r :: r in part ==> Tells(r, d, rows, start, prov, i)
  {
    hide IsTop, Named, KeysOf, RowTotal, MinValue, MaxValue, DimNames, Tells, SumRollups, IsSummary;
    var m := SumRollups(d, s, prov, i);
    SumKeys(d, s, prov, rows, start, i);
    ShownAreLargest(part, m, topK);
    forall r | r in part ensures Tells(r, d, rows, start, prov, i) {
      var j :| 0 <= j < |part| && part[j] == r;
      OneTells(r, d, s, prov, rows, start, i);
    }
  }

  lemma {:induction false} SumKeys(d: Def, s: SumSet, prov: string, rows: seq<Row>, start: u64, i: nat)
    requires Complete(d, s) && i < |d.nameSet| && IsSummary(d, s, rows, start)
    ensures var m := SumRollups(d, s, prov, i); m.Keys == s.sum.Keys == KeysOf(d, rows) && |m| == |KeysOf(d, rows)|
  {
    hide KeysOf, RowTotal, MinValue, MaxValue, DimNames;
    var m := SumRollups(d, s, prov, i);
    assert m.Keys == s.sum.Keys && |m| == |m.Keys|;
  }

  lemma {:induction false} OneTells(r: Rollup, d: Def, s: SumSet, prov: string, rows: seq<Row>, start: u64, i: nat)
    requires Complete(d, s) && i < |d.nameSet| && IsSummary(d, s, rows, start)
    requires r.dimension in s.sum && r == SumRollups(d, s, prov, i)[r.dimension]
    ensures Tells(r, d, rows, start, prov, i)
  {
    hide KeysOf, RowTotal, MinValue, MaxValue, DimNames;
  }

  // The cache -----------------------------------------------------------------------------------

  /** A rollup of the cached kind tells, for a key, what its own rows add up to: their sum and extremes, or how many
      different values they have. */
  ghost predicate CacheTells(r: Rollup, d: Def, unique: bool, b: CacheStore.Book) {
    && r.dimension in b.entries
    && var e := b.entries[r.dimension];
       && r.name == Join(d.nameSet, ";") && r.provider == e.provider
       && r.keyJoin == d.keyJoin && r.dims == DimNames(d.dims)
       && r.count == |e.rows| % 0x1_0000_0000_0000_0000
       && (if unique then r.metric == |CacheStore.AllValues(d, e.rows)| && r.min == MaxU64 && r.max == 0
           else r.metric == RowTotal(d, e.rows, r.dimension, 0) % 0x1_0000_0000_0000_0000
                && r.min == MinValue(d, MaxU64, e.rows) && r.max == MaxValue(d, e.rows))
  }

  lemma {:induction false} CacheExportTells(out: seq<Rollup>, d: Def, unique: bool, b: CacheStore.Book, topK: int)
    requires CacheStore.Accounts(d, unique, b) && IsTop(out, CacheRollup.CacheRollups(d, unique, b.entries), topK)
    ensures |out| == if topK > 0 && |b.entries| > topK then topK else |b.entries|
    ensures forall r :: r in out ==> CacheTells(r, d, unique, b)
  {
    hide IsTop, Named, CacheStore.Accounts, CacheTells, CacheRollup.CacheRollups;
    var m := CacheRollup.CacheRollups(d, unique, b.entries);
    CacheKeys(d, unique, b.entries);
    ShownAreLargest(out, m, topK);
    forall r | r in out ensures CacheTells(r, d, unique, b) {
      var j :| 0 <= j < |out| && out[j] == r;
      OneCacheTells(r, d, unique, b);
    }
  }

  lemma {:induction false} CacheKeys(d: Def, unique: bool, es: CacheStore.Entries)
    ensures var m := CacheRollup.CacheRollups(d, unique, es); m.Keys == es.Keys && |m| == |es|
  {
    var m := CacheRollup.CacheRollups(d, unique, es);
    assert m.Keys == es.Keys && |m| == |m.Keys| && |es| == |es.Keys|;
  }

  lemma {:induction false} OneCacheTells(r: Rollup, d: Def, unique: bool, b: CacheStore.Book)
    requires CacheStore.Accounts(d, unique, b) && r.dimension in b.entries
    requires r == CacheRollup.CacheRollups(d, unique, b.entries)[r.dimension]
    ensures CacheTells(r, d, unique, b)
  {
    CacheStore.StandsMeans(d, unique, b.entries[r.dimension], r.dimension);
    hide CacheStore.AllValues, RowTotal, MinValue, MaxValue, DimNames, Join, CacheStore.RowsFor, CacheStore.Weight;
  }

  // One row and the cache -----------------------------------------------------------------------

  /**
   A row leaves every entry but that of its key as it was, unless a cleanup takes it away. Its own entry, if it is
   there, has the row as its last and the current time, and keeps its provider; a new one has that of the row.
   */
  lemma {:induction false} RowTouches(d: Def, unique: bool, c: CacheStore.Config, b: CacheStore.Book, row: Row, now: int,
                                      b': CacheStore.Book, k: string)
    requires CacheStore.Step(d, unique, c, b, row, now, b') && k in b'.entries
    ensures k != Key(d, row) ==> k in b.entries && b'.entries[k] == b.entries[k]
    ensures k == Key(d, row) && k != "" ==>
              && b'.entries[k].lastUpdated == now
              && b'.entries[k].rows == (if k in b.entries then b.entries[k].rows else []) + [row]
              && b'.entries[k].provider == if k in b.entries then b.entries[k].provider else row.provider
  {
    hide Key, CacheStore.Fresh, CacheStore.Touched, CacheStore.IsCutoff, CacheStore.Full;
    FreshIs(row.provider, now);
    forall e: CacheStore.Entry {
      TouchedIs(d, unique, e, row, now);
    }
  }

  lemma {:induction false} FreshIs(provider: string, now: int)
    ensures CacheStore.Fresh(provider, now).provider == provider && CacheStore.Fresh(provider, now).rows == []
  {
  }

  lemma {:induction false} TouchedIs(d: Def, unique: bool, e: CacheStore.Entry, row: Row, now: int)
    ensures var e' := CacheStore.Touched(d, unique, e, row, now);
            e'.lastUpdated == now && e'.rows == e.rows + [row] && e'.provider == e.provider
  {
  }

  /** A cleanup is due over the limit in mebibytes, or over the number of keys, if either is set. */
  lemma {:induction false} FullIff(c: CacheStore.Config, size: nat, usage: int)
    requires c.maxMemoryMB < 0x800_0000_0000
    ensures CacheStore.Full(c, size, usage) <==>
            c.emergencyCleanup && ((c.maxMemoryMB > 0 && usage > c.maxMemoryMB * 1_048_576) || (c.maxKeys > 0 && size > c.maxKeys))
  {
  }

  /** An entry counts 150 bytes and its key, and 20 bytes and its text for each distinct value. */
  lemma {:induction false} EntrySizeIs(k: string, e: CacheStore.Entry, v: string)
    ensures e.uniqueVals == {} ==> CacheStore.EntrySize(k, e) == 150 + |k|
    ensures v !in e.uniqueVals ==>
              CacheStore.EntrySize(k, e.(uniqueVals := e.uniqueVals + {v})) == CacheStore.EntrySize(k, e) + 20 + |v|
  {
    if v !in e.uniqueVals {
      CacheStore.WeightWith(e.uniqueVals, 20, v);
    }
  }

  // Distinct values -----------------------------------------------------------------------------

  /** The text of a metric, or of one in a map, where a number that is missing from its map counts as zero. */
  predicate IsText(row: Row, m: string, v: string) {
    m in row.attrs && ((row.attrs[m].Str? && v == row.attrs[m].s) || (row.attrs[m].Int? && v == IntText(row.attrs[m].n)))
  }

  predicate IsMultiText(row: Row, m: (string, string), v: string) {
    && m.0 in row.attrs
    && ((row.attrs[m.0].StrMap? && v == if m.1 in row.attrs[m.0].strs then row.attrs[m.0].strs[m.1] else "")
        || (row.attrs[m.0].IntMap? && v == if m.1 in row.attrs[m.0].ints then IntText(row.attrs[m.0].ints[m.1]) else "0"))
  }

  /** The distinct values of a row are the texts of its metrics. */
  lemma {:induction false} ValuesAreTexts(d: Def, row: Row, v: string)
    ensures v in CacheStore.ValuesOf(d, row) <==>
            (exists i :: 0 <= i < |d.metrics| && IsText(row, d.metrics[i], v))
            || (exists i :: 0 <= i < |d.multiMetrics| && IsMultiText(row, d.multiMetrics[i], v))
  {
    TextsAre(row, d.metrics, v);
    MultiTextsAre(row, d.multiMetrics, v);
  }

  lemma {:induction false} TextsAre(row: Row, ms: seq<string>, v: string)
    ensures v in CacheStore.Texts(row, ms) <==> exists i :: 0 <= i < |ms| && IsText(row, ms[i], v)
  {
    if ms != [] {
      var init := ms[..|ms| - 1];
      TextsAre(row, init, v);
      assert forall i :: 0 <= i < |init| ==> init[i] == ms[i];
    }
  }

  lemma {:induction false} MultiTextsAre(row: Row, ms: seq<(string, string)>, v: string)
    ensures v in CacheStore.MultiTexts(row, ms) <==> exists i :: 0 <= i < |ms| && IsMultiText(row, ms[i], v)
  {
    assert IntText(0) == "0";
    if ms != [] {
      var init := ms[..|ms| - 1];
      MultiTextsAre(row, init, v);
      hide IntText;
      assert forall i :: 0 <= i < |init| ==> init[i] == ms[i];
    }
  }
}
