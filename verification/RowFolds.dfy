/** What rows add up to: totals, keys and extremes as plain folds. */
module RowFolds {
  import opened Integers
  import opened RollupRows

  const MaxU64: u64 := 0xffff_ffff_ffff_ffff

  /** The plain fold: what the rows with key `k` add to counter `i`, without wrap-around. */
  function RowTotal(d: Def, rows: seq<Row>, k: string, i: nat): nat {
    if rows == [] then 0
    else RowTotal(d, rows[..|rows| - 1], k, i)
         + (if Key(d, rows[|rows| - 1]) == k then Amount(d, rows[|rows| - 1], i) else 0)
  }

  function KeysOf(d: Def, rows: seq<Row>): set<string> {
    if rows == [] then {} else KeysOf(d, rows[..|rows| - 1]) + {Key(d, rows[|rows| - 1])}
  }

  function Max(a: u64, b: u64): u64 { if a < b then b else a }

  function Min(a: u64, b: u64): u64 { if a > b then b else a }

  function MaxValue(d: Def, rows: seq<Row>): u64 {
    if rows == [] then 0 else Max(MaxValue(d, rows[..|rows| - 1]), RowValue(d, rows[|rows| - 1]))
  }

  /** The least of `start` and all row values. */
  function MinValue(d: Def, start: u64, rows: seq<Row>): u64 {
    if rows == [] then start else Min(MinValue(d, start, rows[..|rows| - 1]), RowValue(d, rows[|rows| - 1]))
  }

  /** `sum` has a counter for every name and key, and each holds what the rows add up to. */
  ghost predicate CountersOf(d: Def, sum: map<string, seq<u64>>, rows: seq<Row>) {
    && sum.Keys == KeysOf(d, rows)
    && (forall k :: k in sum ==> |sum[k]| == |d.nameSet|)
    && (forall k, i :: k in sum && 0 <= i < |sum[k]| ==> sum[k][i] == Wrap(RowTotal(d, rows, k, i)))
  }

  lemma {:induction false} FoldsSnoc(d: Def, rows: seq<Row>, row: Row)
    ensures KeysOf(d, rows + [row]) == KeysOf(d, rows) + {Key(d, row)}
    ensures forall k, i :: RowTotal(d, rows + [row], k, i)
                           == RowTotal(d, rows, k, i) + if Key(d, row) == k then Amount(d, row, i) else 0
  {
    assert (rows + [row])[..|rows|] == rows;
  }

  lemma {:induction false} TotalConcat(d: Def, x: seq<Row>, y: seq<Row>, k: string, i: nat)
    ensures RowTotal(d, x + y, k, i) == RowTotal(d, x, k, i) + RowTotal(d, y, k, i)
  {
    if y == [] {
      assert x + y == x;
    } else {
      assert (x + y)[..|x + y| - 1] == x + y[..|y| - 1] && (x + y)[|x + y| - 1] == y[|y| - 1];
      TotalConcat(d, x, y[..|y| - 1], k, i);
    }
  }

  lemma {:induction false} FoldsConcat(d: Def, start: u64, x: seq<Row>, y: seq<Row>)
    ensures KeysOf(d, x + y) == KeysOf(d, x) + KeysOf(d, y)
    ensures MaxValue(d, x + y) == Max(MaxValue(d, x), MaxValue(d, y))
    ensures MinValue(d, start, x + y) == Min(MinValue(d, start, x), MinValue(d, MaxU64, y))
  {
    if y == [] {
      assert x + y == x;
    } else {
      assert (x + y)[..|x + y| - 1] == x + y[..|y| - 1] && (x + y)[|x + y| - 1] == y[|y| - 1];
      FoldsConcat(d, start, x, y[..|y| - 1]);
    }
  }

  lemma {:induction false} NoTotalOutside(d: Def, rows: seq<Row>, k: string, i: nat)
    requires k !in KeysOf(d, rows)
    ensures RowTotal(d, rows, k, i) == 0
  {
    if rows != [] {
      NoTotalOutside(d, rows[..|rows| - 1], k, i);
    }
  }

  // Extremes ------------------------------------------------------------------------------------

  lemma {:induction false} StartsAtZero(d: Def, rows: seq<Row>)
    ensures MinValue(d, 0, rows) == 0
  {
    if rows != [] {
      StartsAtZero(d, rows[..|rows| - 1]);
    }
  }

  lemma {:induction false} ExtremesBound(d: Def, rows: seq<Row>)
    ensures forall r :: r in rows ==> MinValue(d, MaxU64, rows) <= RowValue(d, r) <= MaxValue(d, rows)
  {
    hide RowValue;
    if rows != [] {
      assert rows == rows[..|rows| - 1] + [rows[|rows| - 1]];
      ExtremesBound(d, rows[..|rows| - 1]);
    }
  }

  lemma {:induction false} MinimumAttained(d: Def, rows: seq<Row>)
    requires rows != []
    ensures exists r :: r in rows && RowValue(d, r) == MinValue(d, MaxU64, rows)
  {
    hide RowValue;
    var init, last := rows[..|rows| - 1], rows[|rows| - 1];
    assert last in rows;
    if init != [] && MinValue(d, MaxU64, init) <= RowValue(d, last) {
      MinimumAttained(d, init);
      var r :| r in init && RowValue(d, r) == MinValue(d, MaxU64, init);
      assert r in rows;
    } else {
      assert MinValue(d, MaxU64, rows) == RowValue(d, last);
    }
  }

  lemma {:induction false} MaximumAttained(d: Def, rows: seq<Row>)
    requires rows != []
    ensures exists r :: r in rows && RowValue(d, r) == MaxValue(d, rows)
  {
    hide RowValue;
    var init, last := rows[..|rows| - 1], rows[|rows| - 1];
    assert last in rows;
    if init != [] && MaxValue(d, init) >= RowValue(d, last) {
      MaximumAttained(d, init);
      var r :| r in init && RowValue(d, r) == MaxValue(d, init);
      assert r in rows;
    } else {
      assert MaxValue(d, rows) == RowValue(d, last);
    }
  }
}
