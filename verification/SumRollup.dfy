/**
 The sum rollup of pkg/rollup/stats.go: addSum summarizes a batch of rows and queues the summary,
 sumKvs merges queued summaries into the live one, and an export takes the live one away.

 The steps run on different goroutines; each is atomic here, and a run is any sequence of them.
 */
module SumRollup {
  import opened Integers
  import opened RollupRows
  import opened RowFolds

  /** The capacity of the queue of summaries (CHAN_SLACK). */
  const SLACK: nat := 10000

  /** sumset, without the provider. */
  datatype SumSet = SumSet(sum: map<string, seq<u64>>, count: u64, min: u64, max: u64)

  // What a summary says about rows --------------------------------------------------------------

  /** `s` summarizes `rows` exactly; only the minimum depends on what it was started from. */
  ghost predicate IsSummary(d: Def, s: SumSet, rows: seq<Row>, start: u64) {
    && CountersOf(d, s.sum, rows)
    && s.count == Wrap(|rows|)
    && s.max == MaxValue(d, rows)
    && s.min == MinValue(d, start, rows)
  }

  // addSum --------------------------------------------------------------------------------------

  /** make([]uint64, n) where a key has no counters yet. */
  function Counters(sum: map<string, seq<u64>>, k: string, n: nat): (c: seq<u64>)
  {
    if k in sum then sum[k] else seq(n, i => 0)
  }

  ghost predicate Added(d: Def, row: Row, before: seq<u64>, c: seq<u64>) {
    |c| == |before| && forall i :: 0 <= i < |c| ==> c[i] == Plus(before[i], Amount(d, row, i))
  }

  /** One turn of the loop over the rows: the counters of the row's key, and the value of the row. */
  method AddRow(d: Def, row: Row, counters: seq<u64>) returns (c: seq<u64>, value: u64)
    requires d.Valid() && |counters| == |d.nameSet|
    ensures Added(d, row, counters, c)
    ensures value == RowValue(d, row)
  {
    if d.splitMetrics {
      c, value := AddSplitRow(d, row, counters);
    } else {
      value := ComputeWholeAmount(d, row);
      c := counters[0 := Plus(counters[0], value)];
    }
  }

  method AddSplitRow(d: Def, row: Row, counters: seq<u64>) returns (c: seq<u64>, value: u64)
    requires d.Valid() && d.splitMetrics && |counters| == |d.nameSet|
    ensures Added(d, row, counters, c)
    ensures value == RowValue(d, row)
  {
    hide Wrap, Amount, Adjust, Metric;
    WrapZero();
    c := counters;
    value := 0;
    var i := 0;
    while i < |d.metrics|
      invariant i <= |d.metrics| && |c| == |counters|
      invariant value == Wrap(SumAmounts(d, row, i))
      invariant forall j :: 0 <= j < i ==> c[j] == Plus(counters[j], Amount(d, row, j))
      invariant forall j :: i <= j < |c| ==> c[j] == counters[j]
    {
      var vv := SplitAmount(d, row, i);
      WrapAdd(SumAmounts(d, row, i), vv);
      c := c[i := Plus(c[i], vv)];
      value := Plus(value, vv);
      i := i + 1;
    }
    forall j | |d.metrics| <= j < |c| ensures c[j] == Plus(counters[j], Amount(d, row, j)) {
      NoAmountBeyond(d, row, j);
      WrapSmall(counters[j]);
    }
  }

  lemma {:induction false} NoAmountBeyond(d: Def, row: Row, i: nat)
    requires d.splitMetrics && i >= |d.metrics|
    ensures Amount(d, row, i) == 0
  {
  }

  /** The amount of one split metric. */
  method SplitAmount(d: Def, row: Row, i: nat) returns (vv: u64)
    requires d.splitMetrics && i < |d.metrics|
    ensures vv == Amount(d, row, i)
  {
    vv := AddMetric(0, row, d.metrics[i]);
    AdjustWrapped(d, row, Metric(row, d.metrics[i]));
    var sr := Wrap(row.sampleRate);
    if d.sample && sr > 0 {
      vv := Wrap(vv * sr);
    }
  }

  lemma {:induction false} CountersGrow(d: Def, sum: map<string, seq<u64>>, rows: seq<Row>, row: Row, c: seq<u64>)
    requires CountersOf(d, sum, rows) && Added(d, row, Counters(sum, Key(d, row), |d.nameSet|), c)
    ensures CountersOf(d, sum[Key(d, row) := c], rows + [row])
  {
    hide Key, Amount, RowTotal, KeysOf, Wrap;
    var all, k0 := rows + [row], Key(d, row);
    var sum' := sum[k0 := c];
    FoldsSnoc(d, rows, row);
    forall k, i | k in sum' && 0 <= i < |sum'[k]| ensures sum'[k][i] == Wrap(RowTotal(d, all, k, i)) {
      if k == k0 {
        if k !in sum {
          NoTotalOutside(d, rows, k, i);
        }
        WrapAdd(RowTotal(d, rows, k, i), Amount(d, row, i));
      }
    }
  }

  /** The summary after one more row. */
  lemma {:induction false} SummaryGrows(d: Def, s: SumSet, rows: seq<Row>, row: Row, c: seq<u64>, start: u64)
    requires IsSummary(d, s, rows, start) && Added(d, row, Counters(s.sum, Key(d, row), |d.nameSet|), c)
    ensures var v := RowValue(d, row);
            IsSummary(d, SumSet(s.sum[Key(d, row) := c], Plus(s.count, 1), Min(s.min, v), Max(s.max, v)), rows + [row], start)
  {
    hide Key, Amount, RowValue, CountersOf, Added;
    CountersGrow(d, s.sum, rows, row, c);
    WrapAdd(|rows|, 1);
    assert (rows + [row])[..|rows|] == rows;
  }

  function LastProvider(rows: seq<Row>): string { if rows == [] then "" else rows[|rows| - 1].provider }

  /** addSum, up to the send. */
  method Summarize(d: Def, rows: seq<Row>) returns (s: SumSet, prov: string)
    requires d.Valid()
    ensures IsSummary(d, s, rows, MaxU64)
    ensures prov == LastProvider(rows)
  {
    var sum: map<string, seq<u64>>, count: u64, min: u64, max: u64 := map[], 0, MaxU64, 0;
    prov := "";
    var i := 0;
    assert IsSummary(d, SumSet(sum, count, min, max), [], MaxU64);
    while i < |rows|
      invariant i <= |rows|
      invariant IsSummary(d, SumSet(sum, count, min, max), rows[..i], MaxU64)
      invariant prov == if i == 0 then "" else rows[i - 1].provider
    {
      hide Key, Amount, RowValue, IsSummary, Added, Wrap, CountersOf;
      var row := rows[i];
      assert rows[..i + 1] == rows[..i] + [row];
      var key := GetKey(d, row);
      CountersShape(d, SumSet(sum, count, min, max), rows[..i], key);
      var counters, value := AddRow(d, row, Counters(sum, key, |d.nameSet|));
      SummaryGrows(d, SumSet(sum, count, min, max), rows[..i], row, counters, MaxU64);
      sum := sum[key := counters];
      count := Plus(count, 1);
      if min > value {
        min := value;
      }
      if max < value {
        max := value;
      }
      prov := row.provider;
      i := i + 1;
    }
    assert rows[..i] == rows;
    s := SumSet(sum, count, min, max);
  }

  lemma {:induction false} CountersShape(d: Def, s: SumSet, rows: seq<Row>, k: string)
    requires IsSummary(d, s, rows, MaxU64)
    ensures |Counters(s.sum, k, |d.nameSet|)| == |d.nameSet|
  {
  }

  // Merging -------------------------------------------------------------------------------------

  method AddCounters(c: seq<u64>, v: seq<u64>) returns (out: seq<u64>)
    requires |c| == |v|
    ensures |out| == |c| && forall i :: 0 <= i < |c| ==> out[i] == Plus(c[i], v[i])
  {
    hide Wrap;
    out := c;
    var i := 0;
    while i < |v|
      invariant i <= |v| == |c| == |out|
      invariant forall j :: 0 <= j < i ==> out[j] == Plus(c[j], v[j])
      invariant forall j :: i <= j < |c| ==> out[j] == c[j]
    {
      out := out[i := Plus(out[i], v[i])];
      i := i + 1;
    }
  }

  /** `out` is `sum` with the keys of `add` outside `todo` merged in. */
  ghost predicate Merging(d: Def, out: map<string, seq<u64>>, todo: set<string>, sum: map<string, seq<u64>>,
                          add: map<string, seq<u64>>, x: seq<Row>, y: seq<Row>)
  {
    && todo <= add.Keys && out.Keys == sum.Keys + (add.Keys - todo)
    && (forall k :: k in out ==> |out[k]| == |d.nameSet|)
    && (forall k, i :: k in out && 0 <= i < |out[k]| ==>
          out[k][i] == Wrap(RowTotal(d, x, k, i) + if k in add && k !in todo then RowTotal(d, y, k, i) else 0))
  }

  lemma {:induction false} MergeStep(d: Def, out: map<string, seq<u64>>, todo: set<string>, sum: map<string, seq<u64>>,
                  add: map<string, seq<u64>>, x: seq<Row>, y: seq<Row>, k: string, c: seq<u64>)
    requires CountersOf(d, sum, x) && CountersOf(d, add, y)
    requires Merging(d, out, todo, sum, add, x, y) && k in todo
    requires |c| == |d.nameSet|
    requires forall i :: 0 <= i < |c| ==> c[i] == Plus(Counters(out, k, |d.nameSet|)[i], add[k][i])
    ensures Merging(d, out[k := c], todo - {k}, sum, add, x, y)
  {
    hide RowTotal, KeysOf, Wrap;
    forall i | 0 <= i < |c| ensures c[i] == Wrap(RowTotal(d, x, k, i) + RowTotal(d, y, k, i)) {
      if k !in out {
        NoTotalOutside(d, x, k, i);
      }
      WrapAdd(RowTotal(d, x, k, i), add[k][i]);
      WrapAdd(RowTotal(d, x, k, i), RowTotal(d, y, k, i));
    }
  }

  lemma {:induction false} MergeDone(d: Def, out: map<string, seq<u64>>, sum: map<string, seq<u64>>, add: map<string,
                                     seq<u64>>,
                  x: seq<Row>, y: seq<Row>)
    requires CountersOf(d, sum, x) && CountersOf(d, add, y) && Merging(d, out, {}, sum, add, x, y)
    ensures CountersOf(d, out, x + y)
  {
    hide RowTotal, KeysOf, Wrap;
    FoldsConcat(d, 0, x, y);
    forall k, i | k in out && 0 <= i < |out[k]| ensures out[k][i] == Wrap(RowTotal(d, x + y, k, i)) {
      TotalConcat(d, x, y, k, i);
      if k !in add {
        NoTotalOutside(d, y, k, i);
      }
    }
  }

  /** The loop of the receiving arm of sumKvs; the keys of the summary come in any order. */
  method MergeCounters(d: Def, sum: map<string, seq<u64>>, add: map<string, seq<u64>>, ghost x: seq<Row>,
                       ghost y: seq<Row>)
    returns (out: map<string, seq<u64>>)
    requires CountersOf(d, sum, x) && CountersOf(d, add, y)
    ensures CountersOf(d, out, x + y)
  {
    out := sum;
    var todo := add.Keys;
    while todo != {}
      invariant Merging(d, out, todo, sum, add, x, y)
    {
      var k :| k in todo;
      var v := add[k];
      hide RowTotal, KeysOf, Wrap;
      var c := AddCounters(Counters(out, k, |v|), v);
      MergeStep(d, out, todo, sum, add, x, y, k, c);
      todo := todo - {k};
      out := out[k := c];
    }
    MergeDone(d, out, sum, add, x, y);
  }

  /** Merging a summary into another: the rows of both, except that a minimum already at zero stays there. */
  lemma {:induction false} MergedSummary(d: Def, a: SumSet, b: SumSet, sum: map<string, seq<u64>>, x: seq<Row>,
                                         y: seq<Row>, start: u64)
    requires IsSummary(d, a, x, start) && IsSummary(d, b, y, MaxU64) && CountersOf(d, sum, x + y)
    ensures IsSummary(d, SumSet(sum, Plus(a.count, b.count), Min(a.min, b.min), Max(a.max, b.max)), x + y, start)
  {
    hide CountersOf, Wrap, MinValue, MaxValue, KeysOf;
    FoldsConcat(d, start, x, y);
    WrapAdd(|x|, b.count);
    WrapAdd(|x|, |y|);
  }

  // Runs ----------------------------------------------------------------------------------------

  /** A batch of rows that an Add call summarized, and whether the queue had room for it. */
  datatype Batch = Batch(rows: seq<Row>, accepted: bool)

  datatype Item = Item(sums: SumSet, prov: string)

  /** The summaries in play, and the rows they should stand for. */
  datatype Ledger = Ledger(
    queue: seq<SumSet>, current: SumSet, exported: seq<SumSet>, lost: seq<SumSet>,
    log: seq<Batch>, windows: seq<seq<Row>>, live: seq<Row>, queued: seq<seq<Row>>)

  function Flat(xs: seq<seq<Row>>): seq<Row> {
    if xs == [] then [] else Flat(xs[..|xs| - 1]) + xs[|xs| - 1]
  }

  function AcceptedRows(log: seq<Batch>): seq<Row> {
    if log == [] then []
    else AcceptedRows(log[..|log| - 1]) + (if log[|log| - 1].accepted then log[|log| - 1].rows else [])
  }

  function LostBatches(log: seq<Batch>): seq<seq<Row>> {
    if log == [] then []
    else LostBatches(log[..|log| - 1]) + (if log[|log| - 1].accepted then [] else [log[|log| - 1].rows])
  }

  function AllRows(log: seq<Batch>): seq<Row> {
    if log == [] then [] else AllRows(log[..|log| - 1]) + log[|log| - 1].rows
  }

  /** sumKvs starts its minimum at MaxUint64 once, and at zero after every export. */
  function StartOf(window: nat): u64 { if window == 0 then MaxU64 else 0 }

  ghost predicate Summaries(d: Def, sets: seq<SumSet>, rows: seq<seq<Row>>) {
    |sets| == |rows| && forall i :: 0 <= i < |sets| ==> IsSummary(d, sets[i], rows[i], MaxU64)
  }

  ghost predicate Windows(d: Def, sets: seq<SumSet>, rows: seq<seq<Row>>) {
    |sets| == |rows| && forall i :: 0 <= i < |sets| ==> IsSummary(d, sets[i], rows[i], StartOf(i))
  }

  /** Every summary stands for its rows, and the accepted rows are, in order, those of the exported
      windows, of the live summary and of the queue: each in exactly one of them. */
  ghost predicate Accounts(d: Def, l: Ledger) {
    && |l.queue| <= SLACK
    && Summaries(d, l.queue, l.queued)
    && IsSummary(d, l.current, l.live, StartOf(|l.windows|))
    && Windows(d, l.exported, l.windows)
    && Summaries(d, l.lost, LostBatches(l.log))
    && AcceptedRows(l.log) == Flat(l.windows) + l.live + Flat(l.queued)
  }

  class StatsRollup {
    const def: Def
    const filters: seq<Row -> bool>
    var kvs: seq<Item>
    var sum: map<string, seq<u64>>
    var count: u64
    var min: u64
    var max: u64
    var prov: string
    ghost var book: Ledger

    ghost predicate Valid()
      reads this
    {
      && def.Valid() && Accounts(def, book)
      && book.queue == Sets(kvs) && book.current == SumSet(sum, count, min, max)
    }

    constructor (d: Def, fs: seq<Row -> bool>)
      requires d.Valid()
      ensures Valid() && def == d && filters == fs && kvs == [] && prov == ""
      ensures book == Ledger([], SumSet(map[], 0, MaxU64, 0), [], [], [], [], [], [])
    {
      def, filters := d, fs;
      kvs, sum, count, min, max, prov := [], map[], 0, MaxU64, 0, "";
      book := Ledger([], SumSet(map[], 0, MaxU64, 0), [], [], [], [], [], []);
    }

    /** Add: rows that pass the filters are summarized; a full queue loses the summary. */
    method Add(rows: seq<Row>)
      requires Valid()
      modifies this`kvs, this`book
      ensures Valid()
      ensures exists s :: IsSummary(def, s, Kept(filters, rows), MaxU64)
                          && book == Sent(old(book), s, Kept(filters, rows), |old(kvs)| < 10000)
                          && kvs == if |old(kvs)| < 10000 then old(kvs) + [Item(s, LastProvider(Kept(filters, rows)))]
                                    else old(kvs)
    {
      hide Accounts, IsSummary;
      var kept := Filter(filters, rows);
      var s, p := Summarize(def, kept);
      SentAccounts(def, book, s, kept, |kvs| < SLACK);
      book := Sent(book, s, kept, |kvs| < SLACK);
      if |kvs| < SLACK {
        SetsSnoc(kvs, Item(s, p));
        kvs := kvs + [Item(s, p)];
      }
    }

    /** The receiving arm of sumKvs. */
    method Merge()
      requires Valid() && kvs != []
      modifies this
      ensures Valid()
      ensures book == Merged(old(book), sum)
      ensures prov == old(kvs)[0].prov && kvs == old(kvs)[1..]
    {
      ghost var was := book;
      hide Accounts, CountersOf, Wrap, Plus, Min, Max, Sets;
      HeadCounters(def, was);
      SetsHead(kvs);
      var itm := kvs[0];
      sum := MergeCounters(def, sum, itm.sums.sum, was.live, was.queued[0]);
      MergedAccounts(def, was, sum);
      book := Merged(was, sum);
      kvs := kvs[1..];
      count := Plus(count, itm.sums.count);
      min, max := Min(min, itm.sums.min), Max(max, itm.sums.max);
      prov := itm.prov;
    }

    /** The exporting arm of sumKvs: what it hands to exportSum. */
    method Export() returns (s: SumSet, p: string)
      requires Valid()
      modifies this
      ensures Valid()
      ensures book == Exported(old(book)) && s == old(book.current) && p == old(prov)
      ensures kvs == old(kvs) && prov == ""
      ensures IsSummary(def, s, old(book.live), StartOf(|old(book.windows)|))
    {
      LiveSummary(def, book);
      hide Accounts, IsSummary;
      s, p := SumSet(sum, count, min, max), prov;
      ExportedAccounts(def, book);
      book := Exported(book);
      sum, count, min, max, prov := map[], 0, 0, 0, "";
    }
  }

  /** A summary of `rows` sent to the queue; without room it is lost. */
  function Sent(l: Ledger, s: SumSet, rows: seq<Row>, room: bool): Ledger {
    var l' := l.(log := l.log + [Batch(rows, room)]);
    if room then l'.(queue := l.queue + [s], queued := l.queued + [rows]) else l'.(lost := l.lost + [s])
  }

  /** The head of the queue merged into the live summary, whose counters become `sum`. */
  function Merged(l: Ledger, sum: map<string, seq<u64>>): Ledger
    requires l.queue != [] && l.queued != []
  {
    var a, b := l.current, l.queue[0];
    l.(queue := l.queue[1..], queued := l.queued[1..], live := l.live + l.queued[0],
       current := SumSet(sum, Plus(a.count, b.count), Min(a.min, b.min), Max(a.max, b.max)))
  }

  /** The live summary handed out as one more window; the next one starts from zero. */
  function Exported(l: Ledger): Ledger {
    l.(exported := l.exported + [l.current], windows := l.windows + [l.live],
       live := [], current := SumSet(map[], 0, 0, 0))
  }

  function Sets(items: seq<Item>): (sets: seq<SumSet>)
    ensures |sets| == |items|
    ensures forall i :: 0 <= i < |items| ==> sets[i] == items[i].sums
  {
    if items == [] then [] else [items[0].sums] + Sets(items[1..])
  }

  lemma {:induction false} SetsSnoc(items: seq<Item>, item: Item)
    ensures Sets(items + [item]) == Sets(items) + [item.sums]
  {
  }

  lemma {:induction false} SetsHead(items: seq<Item>)
    requires items != []
    ensures Sets(items)[0] == items[0].sums && Sets(items[1..]) == Sets(items)[1..]
  {
  }

  // What the steps keep -------------------------------------------------------------------------

  lemma {:induction false} SentAccounts(d: Def, l: Ledger, s: SumSet, rows: seq<Row>, room: bool)
    requires Accounts(d, l) && IsSummary(d, s, rows, MaxU64) && (room ==> |l.queue| < SLACK)
    ensures Accounts(d, Sent(l, s, rows, room))
  {
    hide IsSummary, Windows, AcceptedRows, LostBatches, Flat;
    LogSnoc(l.log, Batch(rows, room));
    FlatSnoc(l.queued, rows);
    if room {
      assert Flat(l.windows) + l.live + (Flat(l.queued) + rows) == Flat(l.windows) + l.live + Flat(l.queued) + rows;
    }
  }

  lemma {:induction false} LogSnoc(log: seq<Batch>, b: Batch)
    ensures AcceptedRows(log + [b]) == AcceptedRows(log) + (if b.accepted then b.rows else [])
    ensures LostBatches(log + [b]) == LostBatches(log) + (if b.accepted then [] else [b.rows])
    ensures AllRows(log + [b]) == AllRows(log) + b.rows
  {
    assert (log + [b])[..|log|] == log;
  }

  lemma {:induction false} FlatSnoc(xs: seq<seq<Row>>, x: seq<Row>)
    ensures Flat(xs + [x]) == Flat(xs) + x
  {
    assert (xs + [x])[..|xs|] == xs;
  }

  lemma {:induction false} FlatCons(x: seq<Row>, xs: seq<seq<Row>>)
    ensures Flat([x] + xs) == x + Flat(xs)
  {
    if xs == [] {
      assert ([x] + xs)[..0] == [];
    } else {
      assert ([x] + xs)[..|xs|] == [x] + xs[..|xs| - 1];
      FlatCons(x, xs[..|xs| - 1]);
    }
  }

  lemma {:induction false} HeadCounters(d: Def, l: Ledger)
    requires Accounts(d, l)
    ensures CountersOf(d, l.current.sum, l.live) && |l.queue| == |l.queued|
    ensures l.queue != [] ==> CountersOf(d, l.queue[0].sum, l.queued[0])
  {
  }

  lemma {:induction false} LiveSummary(d: Def, l: Ledger)
    requires Accounts(d, l)
    ensures IsSummary(d, l.current, l.live, StartOf(|l.windows|))
  {
  }

  lemma {:induction false} MergedAccounts(d: Def, l: Ledger, sum: map<string, seq<u64>>)
    requires Accounts(d, l) && l.queue != [] && l.queued != [] && CountersOf(d, sum, l.live + l.queued[0])
    ensures Accounts(d, Merged(l, sum))
  {
    hide IsSummary, Windows, CountersOf, AcceptedRows, LostBatches;
    MergedSummary(d, l.current, l.queue[0], sum, l.live, l.queued[0], StartOf(|l.windows|));
    FlatCons(l.queued[0], l.queued[1..]);
    assert l.queued == [l.queued[0]] + l.queued[1..];
    assert Flat(l.windows) + l.live + (l.queued[0] + Flat(l.queued[1..]))
        == Flat(l.windows) + (l.live + l.queued[0]) + Flat(l.queued[1..]);
  }

  lemma {:induction false} ExportedAccounts(d: Def, l: Ledger)
    requires Accounts(d, l)
    ensures Accounts(d, Exported(l))
  {
    assert IsSummary(d, SumSet(map[], 0, 0, 0), [], 0);
    hide IsSummary, AcceptedRows, LostBatches, Flat;
    FlatSnoc(l.windows, l.live);
    assert Flat(l.windows) + l.live + Flat(l.queued) == (Flat(l.windows) + l.live) + [] + Flat(l.queued);
  }

  // Conservation --------------------------------------------------------------------------------

  /** A counter of a summary, zero where the key is absent. */
  function Counter(s: SumSet, k: string, i: nat): u64 {
    if k in s.sum && i < |s.sum[k]| then s.sum[k][i] else 0
  }

  function CounterTotal(sets: seq<SumSet>, k: string, i: nat): nat {
    if sets == [] then 0 else CounterTotal(sets[..|sets| - 1], k, i) + Counter(sets[|sets| - 1], k, i)
  }

  lemma {:induction false} CounterIsTotal(d: Def, s: SumSet, rows: seq<Row>, start: u64, k: string, i: nat)
    requires IsSummary(d, s, rows, start) && i < |d.nameSet|
    ensures Counter(s, k, i) == Wrap(RowTotal(d, rows, k, i))
  {
    if k !in s.sum {
      NoTotalOutside(d, rows, k, i);
    }
  }

  lemma {:induction false} CountersAreTotals(d: Def, sets: seq<SumSet>, rows: seq<seq<Row>>, k: string, i: nat)
    requires |sets| == |rows|
    requires forall j :: 0 <= j < |sets| ==> Counter(sets[j], k, i) == Wrap(RowTotal(d, rows[j], k, i))
    ensures Wrap(CounterTotal(sets, k, i)) == Wrap(RowTotal(d, Flat(rows), k, i))
  {
    hide Wrap, Counter, RowTotal, Flat, CounterTotal;
    if |sets| == 0 {
      NoTotal(d, sets, rows, k, i);
    } else {
      var n := |sets| - 1;
      CountersAreTotals(d, sets[..n], rows[..n], k, i);
      FlatTotal(d, sets, rows, k, i);
      AddTwo(CounterTotal(sets[..n], k, i), RowTotal(d, Flat(rows[..n]), k, i), Counter(sets[n], k, i), RowTotal(d, rows[n], k, i));
    }
  }

  lemma {:induction false} NoTotal(d: Def, sets: seq<SumSet>, rows: seq<seq<Row>>, k: string, i: nat)
    requires |rows| == |sets| == 0
    ensures RowTotal(d, Flat(rows), k, i) == CounterTotal(sets, k, i) == 0
  {
    assert rows == [];
  }

  lemma {:induction false} FlatTotal(d: Def, sets: seq<SumSet>, rows: seq<seq<Row>>, k: string, i: nat)
    requires |rows| == |sets| > 0
    ensures var n := |rows| - 1;
            CounterTotal(sets, k, i) == CounterTotal(sets[..n], k, i) + Counter(sets[n], k, i)
    ensures var n := |rows| - 1;
            RowTotal(d, Flat(rows), k, i) == RowTotal(d, Flat(rows[..n]), k, i) + RowTotal(d, rows[n], k, i)
  {
    hide RowTotal;
    TotalConcat(d, Flat(rows[..|rows| - 1]), rows[|rows| - 1], k, i);
  }

  lemma {:induction false} AddTwo(a: int, a': int, b: u64, b': int)
    requires Wrap(a) == Wrap(a') && b == Wrap(b')
    ensures Wrap(a + b) == Wrap(a' + b')
  {
    hide Wrap;
    WrapAdd(a, b);
    WrapAdd(a', b);
    WrapAdd(a', b');
  }

  lemma {:induction false} LogTotal(d: Def, log: seq<Batch>, k: string, i: nat)
    ensures RowTotal(d, AllRows(log), k, i)
         == RowTotal(d, AcceptedRows(log), k, i) + RowTotal(d, Flat(LostBatches(log)), k, i)
  {
    if log != [] {
      var init, last := log[..|log| - 1], log[|log| - 1];
      hide RowTotal;
      LogTotal(d, init, k, i);
      TotalConcat(d, AllRows(init), last.rows, k, i);
      if last.accepted {
        assert LostBatches(log) == LostBatches(init);
        TotalConcat(d, AcceptedRows(init), last.rows, k, i);
      } else {
        TotalConcat(d, Flat(LostBatches(init)), last.rows, k, i);
        assert AcceptedRows(log) == AcceptedRows(init);
        assert LostBatches(log)[..|LostBatches(init)|] == LostBatches(init);
      }
    }
  }

  lemma {:induction false} PartsAreTotals(d: Def, l: Ledger, k: string, i: nat)
    requires Accounts(d, l) && i < |d.nameSet|
    ensures Wrap(CounterTotal(l.exported, k, i)) == Wrap(RowTotal(d, Flat(l.windows), k, i))
    ensures Wrap(CounterTotal(l.queue, k, i)) == Wrap(RowTotal(d, Flat(l.queued), k, i))
    ensures Wrap(CounterTotal(l.lost, k, i)) == Wrap(RowTotal(d, Flat(LostBatches(l.log)), k, i))
    ensures Counter(l.current, k, i) == Wrap(RowTotal(d, l.live, k, i))
    ensures AcceptedRows(l.log) == Flat(l.windows) + l.live + Flat(l.queued)
  {
    hide IsSummary, Wrap, Counter, RowTotal, CounterTotal, LostBatches, AcceptedRows, AllRows, Flat;
    forall j | 0 <= j < |l.exported| ensures Counter(l.exported[j], k, i) == Wrap(RowTotal(d, l.windows[j], k, i)) {
      CounterIsTotal(d, l.exported[j], l.windows[j], StartOf(j), k, i);
    }
    SummariesAreTotals(d, l.queue, l.queued, k, i);
    SummariesAreTotals(d, l.lost, LostBatches(l.log), k, i);
    CounterIsTotal(d, l.current, l.live, StartOf(|l.windows|), k, i);
    CountersAreTotals(d, l.exported, l.windows, k, i);
  }

  lemma {:induction false} SummariesAreTotals(d: Def, sets: seq<SumSet>, rows: seq<seq<Row>>, k: string, i: nat)
    requires Summaries(d, sets, rows) && i < |d.nameSet|
    ensures Wrap(CounterTotal(sets, k, i)) == Wrap(RowTotal(d, Flat(rows), k, i))
  {
    hide IsSummary, Wrap, Counter, RowTotal, CounterTotal, Flat;
    forall j | 0 <= j < |sets| ensures Counter(sets[j], k, i) == Wrap(RowTotal(d, rows[j], k, i)) {
      CounterIsTotal(d, sets[j], rows[j], MaxU64, k, i);
    }
    CountersAreTotals(d, sets, rows, k, i);
  }

  /**
   Conservation, in every state that `Accounts` describes, so in every state of every run: for each key
   and counter, all exported windows, the live summary, the queued and the lost summaries add up to the
   sample-adjusted amounts of all added rows, modulo 2^64.
   */
  lemma {:induction false} Conservation(d: Def, l: Ledger, k: string, i: nat)
    requires Accounts(d, l) && i < |d.nameSet|
    ensures Wrap(CounterTotal(l.exported, k, i) + Counter(l.current, k, i) + CounterTotal(l.queue, k, i)
                 + CounterTotal(l.lost, k, i))
         == Wrap(RowTotal(d, AllRows(l.log), k, i))
  {
    hide Accounts, Wrap, Counter, RowTotal, CounterTotal, LostBatches, AcceptedRows, AllRows, Flat;
    PartsAreTotals(d, l, k, i);
    LogTotal(d, l.log, k, i);
    TotalConcat(d, Flat(l.windows) + l.live, Flat(l.queued), k, i);
    TotalConcat(d, Flat(l.windows), l.live, k, i);
    var gone := LostBatches(l.log);
    AddFour(CounterTotal(l.exported, k, i), Counter(l.current, k, i), CounterTotal(l.queue, k, i), CounterTotal(l.lost, k, i),
            RowTotal(d, Flat(l.windows), k, i), RowTotal(d, l.live, k, i), RowTotal(d, Flat(l.queued), k, i),
            RowTotal(d, Flat(gone), k, i));
  }

  lemma {:induction false} AddFour(a: int, b: int, c: int, e: int, a': int, b': int, c': int, e': int)
    requires Wrap(a) == Wrap(a') && b == Wrap(b') && Wrap(c) == Wrap(c') && Wrap(e) == Wrap(e')
    ensures Wrap(a + b + c + e) == Wrap(a' + b' + c' + e')
  {
    hide Wrap;
    WrapAdd(a, b);
    WrapAdd(a', b);
    WrapAdd(a', b');
    WrapAdd(c, a + b);
    WrapAdd(c', a + b);
    WrapAdd(c', a' + b');
    WrapAdd(e, a + b + c);
    WrapAdd(e', a + b + c);
    WrapAdd(e', a' + b' + c');
  }

  // The minimum ---------------------------------------------------------------------------------

  /** After the first export the reported minimum is always zero; it is the least row value exactly when
      some row of the window has the value zero. */
  lemma {:induction false} LaterMinimum(d: Def, rows: seq<Row>)
    requires rows != []
    ensures MinValue(d, StartOf(1), rows) == 0
    ensures MinValue(d, StartOf(1), rows) == MinValue(d, MaxU64, rows) <==> exists r :: r in rows && RowValue(d, r) == 0
  {
    FirstMinimum(d, rows);
    StartsAtZero(d, rows);
  }

  /** In the first window it is the least row value: attained, and below every other. */
  lemma {:induction false} FirstMinimum(d: Def, rows: seq<Row>)
    requires rows != []
    ensures forall r :: r in rows ==> MinValue(d, StartOf(0), rows) <= RowValue(d, r) <= MaxValue(d, rows)
    ensures exists r :: r in rows && RowValue(d, r) == MinValue(d, StartOf(0), rows)
    ensures exists r :: r in rows && RowValue(d, r) == MaxValue(d, rows)
  {
    ExtremesBound(d, rows);
    MinimumAttained(d, rows);
    MaximumAttained(d, rows);
  }
}
