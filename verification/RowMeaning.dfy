/** What the keys and amounts of RollupRows come to for given rows. pkg/rollup/rollup.go */
module RowMeaning {
  import opened Decimal
  import opened Integers
  import opened RollupRows

  // Dimensions ----------------------------------------------------------------------------------

  /** Where a dimension has no text, it is empty or "undefined". */
  function Missing(d: Def): string { if d.keepUndefined then "undefined" else "" }

  /** The text of an attribute: a text as it is, a number in decimal, and nothing for anything else. */
  lemma {:induction false} AttributeText(d: Def, row: Row, name: string)
    ensures var text := DimText(d, row, Plain(Attr(name)));
            if name in row.attrs && row.attrs[name].Str? && row.attrs[name].s != "" then text == row.attrs[name].s
            else if name in row.attrs && row.attrs[name].Int? then text == IntText(row.attrs[name].n)
            else text == Missing(d)
  {
    if name in row.attrs && row.attrs[name].Int? {
      SomeText(row.attrs[name].n);
    }
  }

  lemma {:induction false} SomeText(n: int)
    ensures IntText(n) != ""
  {
  }

  /** The text of an entry of a map. A number that is not there is zero. */
  lemma {:induction false} EntryText(d: Def, row: Row, name: string, k: string)
    ensures var text := DimText(d, row, Plain(Entry(name, k)));
            if name in row.attrs && row.attrs[name].StrMap? && Lookup(row.attrs[name].strs, k) != "" then
              text == Lookup(row.attrs[name].strs, k)
            else if name in row.attrs && row.attrs[name].IntMap? then
              text == if k in row.attrs[name].ints then IntText(row.attrs[name].ints[k]) else "0"
            else text == Missing(d)
  {
    if name in row.attrs && row.attrs[name].IntMap? {
      SomeText(if k in row.attrs[name].ints then row.attrs[name].ints[k] else 0);
      assert IntText(0) == "0";
    }
  }

  /** Two texts of a joined dimension, the left one first. */
  lemma {:induction false} JoinedText(d: Def, row: Row, l: Path, join: string, r: Path)
    ensures DimText(d, row, Joined(l, join, r)) == DimText(d, row, Plain(l)) + join + DimText(d, row, Plain(r))
  {
  }

  predicate Has(m: map<string, string>, k: string) { k in m && m[k] != "" }

  /** A text that is there is found. */
  lemma {:induction false} LookupFinds(m: map<string, string>, k: string)
    ensures Has(m, k) ==> Lookup(m, k) == m[k]
    ensures Lookup(m, k) != "" ==> exists k' :: Has(m, k') && m[k'] == Lookup(m, k)
  {
  }

  /** For a directed one that is not, the other direction is taken, and nothing is for any other. */
  lemma {:induction false} LookupTurns(m: map<string, string>, a: string)
    ensures var source, dest := "source_" + a, "dest_" + a;
            && (!Has(m, source) ==> Lookup(m, source) == if Has(m, dest) then m[dest] else "")
            && (!Has(m, dest) ==> Lookup(m, dest) == if Has(m, source) then m[source] else "")
  {
    assert ("source_" + a)[7..] == a && ("dest_" + a)[5..] == a;
    assert ("dest_" + a)[0] == 'd';
  }

  lemma {:induction false} LookupElsewhere(m: map<string, string>, k: string)
    requires !Has(m, k) && !("source_" <= k) && !("dest_" <= k)
    ensures Lookup(m, k) == ""
  {
  }

  // Amounts -------------------------------------------------------------------------------------

  lemma {:induction false} ModMultiple(x: int, k: int)
    ensures Wrap(x + k * U64) == Wrap(x)
  {
    var n := x + k * U64;
    assert n == (x / U64 + k) * U64 + x % U64 by {
      assert (x / U64 + k) * U64 == x / U64 * U64 + k * U64;
    }
    DivUnique(n, U64, x / U64 + k, x % U64);
  }

  lemma {:induction false} WrapTimes(a: int, b: int)
    ensures Wrap(Wrap(a) * b) == Wrap(a * b)
  {
    var q := a / U64;
    assert a == q * U64 + Wrap(a);
    assert a * b == Wrap(a) * b + (q * b) * U64 by {
      assert (q * U64 + Wrap(a)) * b == q * U64 * b + Wrap(a) * b;
      assert q * U64 * b == (q * b) * U64;
    }
    ModMultiple(Wrap(a) * b, q * b);
  }

  /** What an amount is multiplied by: the sample rate, where the rollup asks for it and there is one. */
  function Rate(d: Def, row: Row): int { if d.sample && row.sampleRate != 0 then row.sampleRate else 1 }

  lemma {:induction false} AdjustIs(d: Def, row: Row, n: int)
    ensures Adjust(d, row, n) == (n * Rate(d, row)) % 0x1_0000_0000_0000_0000
    ensures Adjust(d, row, Wrap(n)) == (n * Rate(d, row)) % 0x1_0000_0000_0000_0000
  {
    var r := row.sampleRate;
    RateIsThere(r);
    if d.sample && r != 0 {
      WrapTimes(r, n);
      WrapTimes(n, r);
      WrapTimes(r, Wrap(n));
      assert n * Wrap(r) == Wrap(r) * n && r * n == n * r;
      assert Wrap(n) * Wrap(r) == Wrap(r) * Wrap(n) && r * Wrap(n) == Wrap(n) * r;
    } else {
      WrapTimes(n, 1);
    }
  }

  lemma {:induction false} RateIsThere(r: i64)
    ensures Wrap(r) > 0 <==> r != 0
  {
  }

  /** The metrics of a row: the numbers of those attributes that are numbers, each as often as it is listed. */
  lemma {:induction false} MetricsAddUp(row: Row, a: seq<string>, b: seq<string>, m: string)
    ensures SumMetrics(row, a + b) == SumMetrics(row, a) + SumMetrics(row, b)
    ensures SumMetrics(row, [m]) == if m in row.attrs && row.attrs[m].Int? then row.attrs[m].n else 0
    decreases |b|
  {
    assert [m][..0] == [];
    if b == [] {
      assert a + b == a;
    } else {
      assert (a + b)[..|a + b| - 1] == a + b[..|b| - 1];
      MetricsAddUp(row, a, b[..|b| - 1], m);
    }
  }

  lemma {:induction false} MultiMetricsAddUp(row: Row, a: seq<(string, string)>, b: seq<(string, string)>,
                                             m: (string, string))
    ensures SumMulti(row, a + b) == SumMulti(row, a) + SumMulti(row, b)
    ensures SumMulti(row, [m]) ==
            if m.0 in row.attrs && row.attrs[m.0].IntMap? && m.1 in row.attrs[m.0].ints then row.attrs[m.0].ints[m.1] else 0
    decreases |b|
  {
    assert [m][..0] == [];
    if b == [] {
      assert a + b == a;
    } else {
      assert (a + b)[..|a + b| - 1] == a + b[..|b| - 1];
      MultiMetricsAddUp(row, a, b[..|b| - 1], m);
    }
  }

  /**
   What a row adds to the counters of its key, modulo 2^64: without split metrics all of them together to the first
   counter, with split metrics each to its own, in either case times the sample rate.
   */
  lemma {:induction false} AmountIs(d: Def, row: Row, i: nat)
    ensures Amount(d, row, i) ==
            (Total(d, row, i) * Rate(d, row)) % 0x1_0000_0000_0000_0000
  {
    AdjustIs(d, row, Total(d, row, i));
    AmountAdjusts(d, row, i);
    hide *;
  }

  /** The metrics of one counter. */
  function Total(d: Def, row: Row, i: nat): int {
    if d.splitMetrics then if i < |d.metrics| then SumMetrics(row, [d.metrics[i]]) else 0
    else if i == 0 then SumMetrics(row, d.metrics) + SumMulti(row, d.multiMetrics) else 0
  }

  lemma {:induction false} AmountAdjusts(d: Def, row: Row, i: nat)
    ensures Amount(d, row, i) == Adjust(d, row, Wrap(Total(d, row, i)))
  {
    if d.splitMetrics && i < |d.metrics| {
      MetricsAddUp(row, [], [], d.metrics[i]);
    }
    AdjustsZero(d, row);
    hide SumMetrics, SumMulti, Adjust;
  }

  lemma {:induction false} AdjustsZero(d: Def, row: Row)
    ensures Adjust(d, row, Wrap(0)) == 0
  {
  }

  /** The value of a row for the extremes: all that it adds to its counters. */
  lemma {:induction false} RowValueIs(d: Def, row: Row)
    ensures RowValue(d, row) ==
            ((SumMetrics(row, d.metrics) + if d.splitMetrics then 0 else SumMulti(row, d.multiMetrics)) * Rate(d, row))
            % 0x1_0000_0000_0000_0000
  {
    if d.splitMetrics {
      SumAmountsIs(d, row, |d.metrics|);
      assert d.metrics[..|d.metrics|] == d.metrics;
    } else {
      AmountIs(d, row, 0);
    }
    hide SumMetrics, SumMulti, Rate;
  }

  lemma {:induction false} SumAmountsIs(d: Def, row: Row, n: nat)
    requires d.splitMetrics && n <= |d.metrics|
    ensures Wrap(SumAmounts(d, row, n)) == Wrap(SumMetrics(row, d.metrics[..n]) * Rate(d, row))
  {
    hide Wrap, SumMetrics, Amount, Rate, Metric;
    if n == 0 {
      NoMetrics(row);
    } else {
      var before, last := d.metrics[..n - 1], d.metrics[n - 1];
      SumAmountsIs(d, row, n - 1);
      AmountWraps(d, row, n - 1);
      assert d.metrics[..n] == before + [last];
      MetricsAddUp(row, before, [last], last);
      OneMoreAmount(SumAmounts(d, row, n - 1), Amount(d, row, n - 1), SumMetrics(row, before), SumMetrics(row, [last]),
                    Rate(d, row));
    }
  }

  lemma {:induction false} NoMetrics(row: Row)
    ensures SumMetrics(row, []) == 0
  {
  }

  lemma {:induction false} AmountWraps(d: Def, row: Row, i: nat)
    requires d.splitMetrics && i < |d.metrics|
    ensures Amount(d, row, i) == Wrap(SumMetrics(row, [d.metrics[i]]) * Rate(d, row))
  {
    AmountIs(d, row, i);
    hide SumMetrics, Rate;
  }

  lemma {:induction false} OneMoreAmount(s: int, a: int, x: int, y: int, r: int)
    requires Wrap(s) == Wrap(x * r) && a == Wrap(y * r)
    ensures Wrap(s + a) == Wrap((x + y) * r)
  {
    hide Wrap;
    WrapsAdd(s, a, x * r, y * r);
    Distributes(x, y, r);
  }

  lemma {:induction false} Distributes(x: int, y: int, r: int)
    ensures (x + y) * r == x * r + y * r
  {
  }

  lemma {:induction false} WrapsAdd(s: int, a: int, p: int, q: int)
    requires Wrap(s) == Wrap(p) && a == Wrap(q)
    ensures Wrap(s + a) == Wrap(p + q)
  {
    WrapAdd(s, a);
    WrapAdd(p, q);
    WrapAdd(Wrap(p), q);
  }

  // Filters -------------------------------------------------------------------------------------

  /** The rows kept are those that every filter accepts, each as often as it came, and in order. */
  lemma {:induction false} KeptAre(filters: seq<Row -> bool>, rows: seq<Row>, r: Row)
    ensures multiset(Kept(filters, rows))[r]
         == if forall i :: 0 <= i < |filters| ==> filters[i](r) then multiset(rows)[r] else 0
    ensures (forall j, i :: 0 <= j < |rows| && 0 <= i < |filters| ==> filters[i](rows[j])) ==> Kept(filters, rows) == rows
  {
    if rows != [] {
      var init, last := rows[..|rows| - 1], rows[|rows| - 1];
      assert rows == init + [last];
      KeptAre(filters, init, r);
      if forall j, i :: 0 <= j < |rows| && 0 <= i < |filters| ==> filters[i](rows[j]) {
        assert forall j, i :: 0 <= j < |init| && 0 <= i < |filters| ==> filters[i](init[j]) by {
          assert forall j :: 0 <= j < |init| ==> init[j] == rows[j];
        }
        assert rows[|rows| - 1] == last;
        assert Keeps(filters, last);
      }
    }
  }
}
