/** What every rollup shares: rows, their keys and their amounts. pkg/rollup/rollup.go and the row loops
    of stats.go and cache.go. */
module RollupRows {
  import opened Decimal
  import opened Integers
  import opened SplitJoin

  datatype Value = Str(s: string) | Int(n: i64) | StrMap(strs: map<string, string>) | IntMap(ints: map<string, i64>) | Other

  /** A flow as a map; kt.JCHF.ToMap always sets the sample rate and the provider. */
  datatype Row = Row(attrs: map<string, Value>, sampleRate: i64, provider: string)

  /** A dimension: an attribute, or an entry of a map-valued attribute. */
  datatype Path = Attr(name: string) | Entry(name: string, key: string)

  datatype Dim = Plain(path: Path) | Joined(lhs: Path, join: string, rhs: Path)

  /** The configured part of rollupBase, after init. */
  datatype Def = Def(metrics: seq<string>, multiMetrics: seq<(string, string)>, splitMetrics: bool, dims: seq<Dim>,
                     keyJoin: string, nameSet: seq<string>, sample: bool, keepUndefined: bool)
  {
    /** Split metrics need a name each, or addSum indexes past the end of its counters. */
    predicate Valid() { nameSet != [] && (splitMetrics ==> |metrics| <= |nameSet|) }
  }

  // Keys ----------------------------------------------------------------------------------------

  const UndefinedKey := "undefined"

  predicate HasPrefix(s: string, p: string) { p <= s }

  /** A directed attribute falls back on its counterpart. */
  function Lookup(m: map<string, string>, key: string): string {
    var at := (k: string) => if k in m then m[k] else "";
    if at(key) != "" then at(key)
    else if HasPrefix(key, "source_") then at("dest_" + key[7..])
    else if HasPrefix(key, "dest_") then at("source_" + key[5..])
    else ""
  }

  function PathText(d: Def, row: Row, p: Path): string {
    var key :=
      if p.name !in row.attrs then ""
      else
        match (p, row.attrs[p.name])
        case (Attr(_), Str(s)) => s
        case (Attr(_), Int(n)) => IntText(n)
        case (Entry(_, k), StrMap(m)) => Lookup(m, k)
        case (Entry(_, k), IntMap(m)) => IntText(if k in m then m[k] else 0)
        case _ => "";
    if d.keepUndefined && key == "" then UndefinedKey else key
  }

  function DimText(d: Def, row: Row, dim: Dim): string {
    match dim
    case Plain(p) => PathText(d, row, p)
    case Joined(l, join, r) => PathText(d, row, l) + join + PathText(d, row, r)
  }

  function KeyParts(d: Def, row: Row, dims: seq<Dim>): (parts: seq<string>)
    ensures |parts| == |dims|
    ensures forall i :: 0 <= i < |dims| ==> parts[i] == DimText(d, row, dims[i])
  {
    if dims == [] then [] else [DimText(d, row, dims[0])] + KeyParts(d, row, dims[1..])
  }

  function Key(d: Def, row: Row): string { Join(KeyParts(d, row, d.dims), d.keyJoin) }

  method GetKey(d: Def, row: Row) returns (key: string)
    ensures key == Key(d, row)
  {
    var parts: seq<string> := [];
    var i := 0;
    while i < |d.dims|
      invariant i <= |d.dims| && |parts| == i
      invariant forall j :: 0 <= j < i ==> parts[j] == DimText(d, row, d.dims[j])
    {
      parts := parts + [DimText(d, row, d.dims[i])];
      i := i + 1;
    }
    assert parts == KeyParts(d, row, d.dims);
    key := Join(parts, d.keyJoin);
  }

  // Amounts -------------------------------------------------------------------------------------

  function Metric(row: Row, name: string): int {
    if name in row.attrs && row.attrs[name].Int? then row.attrs[name].n else 0
  }

  function MultiMetric(row: Row, m: (string, string)): int {
    if m.0 in row.attrs && row.attrs[m.0].IntMap? && m.1 in row.attrs[m.0].ints then row.attrs[m.0].ints[m.1] else 0
  }

  function SumMetrics(row: Row, ms: seq<string>): int {
    if ms == [] then 0 else SumMetrics(row, ms[..|ms| - 1]) + Metric(row, ms[|ms| - 1])
  }

  function SumMulti(row: Row, ms: seq<(string, string)>): int {
    if ms == [] then 0 else SumMulti(row, ms[..|ms| - 1]) + MultiMetric(row, ms[|ms| - 1])
  }

  /** Multiplies by the sample rate where the rollup asks for it and the rate is positive as a uint64. */
  function Adjust(d: Def, row: Row, n: int): u64 {
    if d.sample && Wrap(row.sampleRate) > 0 then Wrap(n * Wrap(row.sampleRate)) else Wrap(n)
  }

  /** All metrics of a row in one number. */
  function WholeAmount(d: Def, row: Row): u64 {
    Adjust(d, row, Wrap(SumMetrics(row, d.metrics) + SumMulti(row, d.multiMetrics)))
  }

  /** What a row adds to counter `i` of its key. */
  function Amount(d: Def, row: Row, i: nat): u64 {
    if !d.splitMetrics then if i == 0 then WholeAmount(d, row) else 0
    else if i < |d.metrics| then Adjust(d, row, Wrap(Metric(row, d.metrics[i])))
    else 0
  }

  function SumAmounts(d: Def, row: Row, n: nat): int {
    if n == 0 then 0 else SumAmounts(d, row, n - 1) + Amount(d, row, n - 1)
  }

  /** The value of a row for the minimum and the maximum. */
  function RowValue(d: Def, row: Row): u64 {
    if d.splitMetrics then Wrap(SumAmounts(d, row, |d.metrics|)) else WholeAmount(d, row)
  }

  method ComputeWholeAmount(d: Def, row: Row) returns (value: u64)
    ensures value == WholeAmount(d, row)
  {
    hide Wrap, Metric, MultiMetric;
    WrapZero();
    value := 0;
    var i := 0;
    while i < |d.metrics|
      invariant i <= |d.metrics| && value == Wrap(SumMetrics(row, d.metrics[..i]))
    {
      var m := d.metrics[i];
      assert d.metrics[..i + 1][..i] == d.metrics[..i];
      WrapAdd(SumMetrics(row, d.metrics[..i]), Metric(row, m));
      value := AddMetric(value, row, m);
      i := i + 1;
    }
    assert d.metrics[..i] == d.metrics;
    ghost var first := SumMetrics(row, d.metrics);
    i := 0;
    while i < |d.multiMetrics|
      invariant i <= |d.multiMetrics| && value == Wrap(first + SumMulti(row, d.multiMetrics[..i]))
    {
      var m := d.multiMetrics[i];
      assert d.multiMetrics[..i + 1][..i] == d.multiMetrics[..i];
      WrapAdd(first + SumMulti(row, d.multiMetrics[..i]), MultiMetric(row, m));
      value := AddMultiMetric(value, row, m);
      i := i + 1;
    }
    assert d.multiMetrics[..i] == d.multiMetrics;
    AdjustWrapped(d, row, first + SumMulti(row, d.multiMetrics));
    var sr := Wrap(row.sampleRate);
    if d.sample && sr > 0 {
      value := Wrap(value * sr);
    }
  }

  lemma {:induction false} AdjustWrapped(d: Def, row: Row, n: int)
    ensures Adjust(d, row, Wrap(n)) == if d.sample && Wrap(row.sampleRate) > 0 then Wrap(Wrap(n) * Wrap(row.sampleRate)) else Wrap(n)
  {
    assert Wrap(Wrap(n)) == Wrap(n);
  }

  method AddMetric(value: u64, row: Row, m: string) returns (r: u64)
    ensures r == Wrap(value + Metric(row, m))
  {
    r := value;
    if m in row.attrs && row.attrs[m].Int? {
      WrapAdd(value, row.attrs[m].n);
      r := Wrap(value + Wrap(row.attrs[m].n));
    }
  }

  method AddMultiMetric(value: u64, row: Row, m: (string, string)) returns (r: u64)
    ensures r == Wrap(value + MultiMetric(row, m))
  {
    r := value;
    if m.0 in row.attrs && row.attrs[m.0].IntMap? {
      var ints := row.attrs[m.0].ints;
      var n := if m.1 in ints then ints[m.1] else 0;
      WrapAdd(value, n);
      r := Wrap(value + Wrap(n));
    }
  }

  // Filters -------------------------------------------------------------------------------------

  predicate Keeps(filters: seq<Row -> bool>, row: Row) {
    forall i :: 0 <= i < |filters| ==> filters[i](row)
  }

  /** The rows that every filter accepts, in order. */
  function Kept(filters: seq<Row -> bool>, rows: seq<Row>): seq<Row> {
    if rows == [] then []
    else Kept(filters, rows[..|rows| - 1])
         + (if Keeps(filters, rows[|rows| - 1]) then [rows[|rows| - 1]] else [])
  }

  method Filter(filters: seq<Row -> bool>, rows: seq<Row>) returns (res: seq<Row>)
    ensures res == Kept(filters, rows)
  {
    res := [];
    var i := 0;
    while i < |rows|
      invariant i <= |rows| && res == Kept(filters, rows[..i])
    {
      assert rows[..i + 1][..i] == rows[..i];
      var keep := true;
      var j := 0;
      while j < |filters| && keep
        invariant j <= |filters|
        invariant keep ==> forall k :: 0 <= k < j ==> filters[k](rows[i])
        invariant !keep ==> !Keeps(filters, rows[i])
      {
        if !filters[j](rows[i]) {
          keep := false;
        }
        j := j + 1;
      }
      if keep {
        res := res + [rows[i]];
      }
      i := i + 1;
    }
    assert rows[..i] == rows;
  }
}
