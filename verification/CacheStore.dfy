/**
 What the cached rollup of pkg/rollup/cache.go holds, as values: entries, their sizes, the cutoff of an
 emergency cleanup, and the accounts that every step keeps.
 */
module CacheStore {
  import opened Integers
  import opened RollupRows
  import opened RowFolds
  import opened Decimal

  /** CACHE_ENTRY_OVERHEAD, and the estimate for a distinct value. */
  const EntryOverhead: nat := 150
  const ValueOverhead: nat := 20

  datatype Config = Config(emergencyCleanup: bool, maxMemoryMB: i64, maxKeys: int)

  /** A cache entry, and the rows that it stands for. */
  datatype Entry = Entry(sum: u64, count: u64, min: u64, max: u64, provider: string, uniqueVals: set<string>,
                         lastUpdated: int, rows: seq<Row>)

  type Entries = map<string, Entry>

  // Distinct values -----------------------------------------------------------------------------

  function Texts(row: Row, ms: seq<string>): set<string> {
    if ms == [] then {}
    else
      Texts(row, ms[..|ms| - 1])
      + (var m := ms[|ms| - 1];
         if m !in row.attrs then {}
         else match row.attrs[m] case Str(s) => {s} case Int(n) => {IntText(n)} case _ => {})
  }

  function MultiTexts(row: Row, ms: seq<(string, string)>): set<string> {
    if ms == [] then {}
    else
      MultiTexts(row, ms[..|ms| - 1])
      + (var (m, k) := ms[|ms| - 1];
         if m !in row.attrs then {}
         else
           match row.attrs[m]
           case StrMap(strs) => {if k in strs then strs[k] else ""}
           case IntMap(ints) => {IntText(if k in ints then ints[k] else 0)}
           case _ => {})
  }

  /** The values of a row that a unique rollup counts. */
  function ValuesOf(d: Def, row: Row): set<string> { Texts(row, d.metrics) + MultiTexts(row, d.multiMetrics) }

  function AllValues(d: Def, rows: seq<Row>): set<string> {
    if rows == [] then {} else AllValues(d, rows[..|rows| - 1]) + ValuesOf(d, rows[|rows| - 1])
  }

  // Rows of a key -------------------------------------------------------------------------------

  function RowsFor(d: Def, rows: seq<Row>, k: string): seq<Row> {
    if rows == [] then []
    else RowsFor(d, rows[..|rows| - 1], k) + (if Key(d, rows[|rows| - 1]) == k then [rows[|rows| - 1]] else [])
  }

  lemma {:induction false} RowsForConcat(d: Def, x: seq<Row>, y: seq<Row>, k: string)
    ensures RowsFor(d, x + y, k) == RowsFor(d, x, k) + RowsFor(d, y, k)
  {
    if y == [] {
      assert x + y == x;
    } else {
      hide Key;
      assert (x + y)[..|x + y| - 1] == x + y[..|y| - 1] && (x + y)[|x + y| - 1] == y[|y| - 1];
      RowsForConcat(d, x, y[..|y| - 1], k);
    }
  }

  predicate AllFor(d: Def, rows: seq<Row>, k: string) { forall r :: r in rows ==> Key(d, r) == k }

  lemma {:induction false} RowsForAll(d: Def, rows: seq<Row>, k: string, other: string)
    requires AllFor(d, rows, k)
    ensures RowsFor(d, rows, other) == if other == k then rows else []
  {
    if rows != [] {
      hide Key;
      var init, last := rows[..|rows| - 1], rows[|rows| - 1];
      assert rows == init + [last] && last in rows && Key(d, last) == k;
      assert AllFor(d, init, k);
      hide AllFor;
      RowsForAll(d, init, k, other);
    }
  }

  lemma {:induction false} TotalForKey(d: Def, rows: seq<Row>, k: string, i: nat)
    ensures RowTotal(d, RowsFor(d, rows, k), k, i) == RowTotal(d, rows, k, i)
    ensures RowsFor(d, rows, k) == [] <==> k !in KeysOf(d, rows)
  {
    if rows != [] {
      hide Key, Amount;
      var init, last := rows[..|rows| - 1], rows[|rows| - 1];
      TotalForKey(d, init, k, i);
      if Key(d, last) == k {
        assert RowsFor(d, rows, k)[..|RowsFor(d, init, k)|] == RowsFor(d, init, k);
      } else {
        assert RowsFor(d, rows, k) == RowsFor(d, init, k);
      }
    }
  }

  // An entry and its rows -----------------------------------------------------------------------

  function Fresh(provider: string, now: int): Entry { Entry.Entry(0, 0, MaxU64, 0, provider, {}, now, []) }

  /** The entry after one more row. */
  function Touched(d: Def, unique: bool, e: Entry, row: Row, now: int): Entry {
    var e' := e.(lastUpdated := now, count := Plus(e.count, 1), rows := e.rows + [row]);
    if unique then e'.(uniqueVals := e.uniqueVals + ValuesOf(d, row))
    else
      var v := WholeAmount(d, row);
      e'.(sum := Plus(e.sum, v), min := Min(e.min, v), max := Max(e.max, v))
  }

  /** The entry of key `k` stands exactly for its rows. */
  ghost predicate StandsFor(d: Def, unique: bool, e: Entry, k: string) {
    && AllFor(d, e.rows, k)
    && e.count == Wrap(|e.rows|)
    && (unique ==> e.uniqueVals == AllValues(d, e.rows))
    && (!unique ==> e.uniqueVals == {})
    && (!unique ==> e.sum == Wrap(RowTotal(d, e.rows, k, 0)))
    && (!unique ==> e.min == MinValue(d, MaxU64, e.rows))
    && (!unique ==> e.max == MaxValue(d, e.rows))
    && (unique ==> e.sum == 0 && e.min == MaxU64 && e.max == 0)
  }

  lemma {:induction false} FreshHasNoRows(provider: string, now: int)
    ensures Fresh(provider, now).rows == []
  {
  }

  lemma {:induction false} FreshStands(d: Def, unique: bool, provider: string, now: int, k: string)
    ensures StandsFor(d, unique, Fresh(provider, now), k)
  {
  }

  lemma {:induction false} TouchedStands(d: Def, unique: bool, e: Entry, row: Row, now: int)
    requires !d.splitMetrics && StandsFor(d, unique, e, Key(d, row))
    ensures StandsFor(d, unique, Touched(d, unique, e, row, now), Key(d, row))
  {
    hide Key, WholeAmount, Wrap;
    var rows := e.rows + [row];
    assert rows[..|rows| - 1] == e.rows;
    WrapAdd(|e.rows|, 1);
    WrapAdd(RowTotal(d, e.rows, Key(d, row), 0), WholeAmount(d, row));
  }

  // Sizes ---------------------------------------------------------------------------------------

  /** The sum of the lengths of `s`, with `w` more for each. */
  ghost function Weight(s: set<string>, w: nat): (n: nat)
  {
    if s == {} then 0 else var x :| x in s; w + |x| + Weight(s - {x}, w)
  }

  lemma {:induction false} WeightWithout(s: set<string>, w: nat, x: string)
    requires x in s
    ensures Weight(s, w) == w + |x| + Weight(s - {x}, w)
    decreases s
  {
    var y :| y in s && Weight(s, w) == w + |y| + Weight(s - {y}, w);
    if x != y {
      WeightWithout(s - {y}, w, x);
      WeightWithout(s - {x}, w, y);
      assert s - {y} - {x} == s - {x} - {y};
    }
  }

  lemma {:induction false} WeightWith(s: set<string>, w: nat, x: string)
    requires x !in s
    ensures Weight(s + {x}, w) == w + |x| + Weight(s, w)
  {
    WeightWithout(s + {x}, w, x);
    assert s + {x} - {x} == s;
  }

  /** estimateEntrySize */
  ghost function EntrySize(k: string, e: Entry): nat { EntryOverhead + |k| + Weight(e.uniqueVals, ValueOverhead) }

  // The cutoff of a cleanup ---------------------------------------------------------------------

  /** The entries last updated by time `c`. */
  function Until(es: Entries, c: int): set<string> { set k | k in es && es[k].lastUpdated <= c }

  /** Half of the entries, but at least one. */
  function ThresholdIndex(n: nat): nat { if n / 2 < 1 then 1 else n / 2 }

  /** `c` is where the entry at the threshold index, counted from the oldest, was last updated. */
  ghost predicate IsCutoff(es: Entries, c: int) {
    |Until(es, c - 1)| <= ThresholdIndex(|es|) < |Until(es, c)|
  }

  function After(es: Entries, c: int): Entries { map k | k in es && es[k].lastUpdated > c :: es[k] }

  lemma {:induction false} UntilGrows(es: Entries, c: int, c': int)
    requires c <= c'
    ensures Until(es, c) <= Until(es, c') && |Until(es, c)| <= |Until(es, c')|
  {
    Subset(Until(es, c), Until(es, c'));
  }

  lemma {:induction false} Subset<T>(a: set<T>, b: set<T>)
    requires a <= b
    ensures |a| <= |b|
  {
    assert b == a + (b - a);
  }

  /** There is one cutoff, so a cleanup removes the same entries in whatever order the map is visited. */
  lemma {:induction false} CutoffIsUnique(es: Entries, c: int, c': int)
    requires IsCutoff(es, c) && IsCutoff(es, c')
    ensures c == c'
  {
    if c < c' {
      UntilGrows(es, c, c' - 1);
    } else if c' < c {
      UntilGrows(es, c', c - 1);
    }
  }

  /** A cleanup of n entries, two or more, removes at least n/2 + 1. */
  lemma {:induction false} CleanupRemoves(es: Entries, c: int)
    requires IsCutoff(es, c)
    ensures |After(es, c)| + |es| / 2 + 1 <= |es|
  {
    assert es.Keys == After(es, c).Keys + Until(es, c);
  }

  /** Where all entries are of different ages it removes exactly n/2 + 1, and two of two or three. */
  lemma {:induction false} CleanupRemovesExactly(es: Entries, c: int)
    requires IsCutoff(es, c)
    requires forall j, k :: j in es && k in es && es[j].lastUpdated == es[k].lastUpdated ==> j == k
    ensures |es| - |After(es, c)| == if |es| < 4 then 2 else |es| / 2 + 1
  {
    AfterAndUntil(es, c);
    OneOfEachAge(es, c);
    UntilGrows(es, c - 1, c);
    hide Until, After;
  }

  lemma {:induction false} AfterAndUntil(es: Entries, c: int)
    ensures |After(es, c)| + |Until(es, c)| == |es|
  {
    assert es.Keys == After(es, c).Keys + Until(es, c);
  }

  lemma {:induction false} OneOfEachAge(es: Entries, c: int)
    requires forall j, k :: j in es && k in es && es[j].lastUpdated == es[k].lastUpdated ==> j == k
    ensures |Until(es, c)| <= |Until(es, c - 1)| + 1
  {
    var older, all := Until(es, c - 1), Until(es, c);
    if k :| k in all && k !in older {
      forall j | j in all ensures j in older || j == k {
        if j !in older {
          assert es[j].lastUpdated == es[k].lastUpdated == c;
        }
      }
      Subset(all, older + {k});
    } else {
      Subset(all, older);
    }
  }

  /** Every removed entry was last updated no later than any survivor, in fact earlier. */
  lemma {:induction false} RemovedAreOlder(es: Entries, c: int, k: string, k': string)
    requires IsCutoff(es, c) && k in es && k !in After(es, c) && k' in After(es, c)
    ensures es[k].lastUpdated < es[k'].lastUpdated
  {
  }

  /** An entry that none is newer than, such as the one just inserted, survives exactly if more than a
      threshold of entries is strictly older. */
  lemma {:induction false} NewestSurvivesIff(es: Entries, c: int, k: string)
    requires IsCutoff(es, c) && k in es && forall k' :: k' in es ==> es[k'].lastUpdated <= es[k].lastUpdated
    ensures k in After(es, c) <==> |Until(es, es[k].lastUpdated - 1)| > if |es| < 4 then 1 else |es| / 2
  {
    var now := es[k].lastUpdated;
    if c < now {
      UntilGrows(es, c, now - 1);
    } else {
      UntilGrows(es, now - 1, c - 1);
    }
  }

  /** Entries of the same age, as those of one batch, all go. */
  lemma {:induction false} SameAgeEmpties(es: Entries, c: int, now: int)
    requires IsCutoff(es, c) && forall k :: k in es ==> es[k].lastUpdated == now
    ensures After(es, c) == map[]
  {
    assert Until(es, c) == if c < now then {} else es.Keys;
  }

  // The accounts --------------------------------------------------------------------------------

  /** The cache, the rows added since the last export and those among them that it has lost, the bytes
      taken off in excess, and whether a cleanup has fired. */
  datatype Book = Book(entries: Entries, usage: int, log: seq<Row>, gone: seq<Row>, overdrawn: nat, cleaned: bool)

  const Opened := Book(map[], 0, [], [], 0, false)

  function LiveRows(es: Entries, k: string): seq<Row> { if k in es then es[k].rows else [] }

  /** Every entry stands for its rows; of the added rows of a key, first come the lost ones and then those
      of its entry; the memory usage is what the live keys weigh, less the excess. */
  ghost predicate Accounts(d: Def, unique: bool, b: Book) {
    && !d.splitMetrics
    && (forall k :: k in b.entries ==> k != "" && StandsFor(d, unique, b.entries[k], k))
    && (forall k :: k != "" ==> RowsFor(d, b.log, k) == RowsFor(d, b.gone, k) + LiveRows(b.entries, k))
    && b.usage + b.overdrawn == Weight(b.entries.Keys, EntryOverhead)
    && (!unique || !b.cleaned ==> b.overdrawn == 0)
    && (!b.cleaned ==> b.gone == [])
  }

  function Inserted(b: Book, k: string, provider: string, now: int): Book {
    b.(entries := b.entries[k := Fresh(provider, now)], usage := b.usage + EntryOverhead + |k|)
  }

  function Recorded(d: Def, unique: bool, b: Book, row: Row, now: int): Book
    requires Key(d, row) in b.entries
  {
    var k := Key(d, row);
    b.(entries := b.entries[k := Touched(d, unique, b.entries[k], row, now)], log := b.log + [row])
  }

  /** A row that went to an entry no longer in the cache. */
  function Orphaned(b: Book, row: Row): Book { b.(log := b.log + [row], gone := b.gone + [row]) }

  function Skipped(b: Book, row: Row): Book { b.(log := b.log + [row]) }

  ghost function Evicted(b: Book, k: string): Book
    requires k in b.entries
  {
    var e := b.entries[k];
    b.(entries := b.entries - {k}, usage := b.usage - EntrySize(k, e), gone := b.gone + e.rows,
       overdrawn := b.overdrawn + Weight(e.uniqueVals, ValueOverhead), cleaned := true)
  }

  lemma {:induction false} OpenedAccounts(d: Def, unique: bool)
    requires !d.splitMetrics
    ensures Accounts(d, unique, Opened)
  {
  }

  lemma {:induction false} InsertedAccounts(d: Def, unique: bool, b: Book, k: string, provider: string, now: int)
    requires Accounts(d, unique, b) && k != "" && k !in b.entries
    ensures Accounts(d, unique, Inserted(b, k, provider, now))
  {
    hide StandsFor, RowsFor, Weight, Fresh;
    FreshStands(d, unique, provider, now, k);
    assert Fresh(provider, now).rows == [] by { FreshHasNoRows(provider, now); }
    WeightWith(b.entries.Keys, EntryOverhead, k);
    var b' := Inserted(b, k, provider, now);
    assert b'.entries.Keys == b.entries.Keys + {k};
    assert forall k' :: LiveRows(b'.entries, k') == LiveRows(b.entries, k');
  }

  lemma {:induction false} RowsForSnoc(d: Def, rows: seq<Row>, row: Row, k: string)
    ensures RowsFor(d, rows + [row], k) == RowsFor(d, rows, k) + if Key(d, row) == k then [row] else []
  {
    assert (rows + [row])[..|rows|] == rows;
  }

  lemma {:induction false} RecordedAccounts(d: Def, unique: bool, b: Book, row: Row, now: int)
    requires Accounts(d, unique, b) && Key(d, row) in b.entries
    ensures Accounts(d, unique, Recorded(d, unique, b, row, now))
  {
    hide StandsFor, RowsFor, Weight, Key, WholeAmount, Wrap;
    var k0, b' := Key(d, row), Recorded(d, unique, b, row, now);
    TouchedStands(d, unique, b.entries[k0], row, now);
    assert b'.entries.Keys == b.entries.Keys;
    forall k | k != "" ensures RowsFor(d, b'.log, k) == RowsFor(d, b'.gone, k) + LiveRows(b'.entries, k) {
      RowsForSnoc(d, b.log, row, k);
    }
  }

  lemma {:induction false} OrphanedAccounts(d: Def, unique: bool, b: Book, row: Row)
    requires Accounts(d, unique, b) && Key(d, row) !in b.entries && b.cleaned
    ensures Accounts(d, unique, Orphaned(b, row))
  {
    hide StandsFor, RowsFor, Weight, Key;
    var b' := Orphaned(b, row);
    forall k | k != "" ensures RowsFor(d, b'.log, k) == RowsFor(d, b'.gone, k) + LiveRows(b'.entries, k) {
      RowsForSnoc(d, b.log, row, k);
      RowsForSnoc(d, b.gone, row, k);
    }
  }

  lemma {:induction false} SkippedAccounts(d: Def, unique: bool, b: Book, row: Row)
    requires Accounts(d, unique, b) && Key(d, row) == ""
    ensures Accounts(d, unique, Skipped(b, row))
  {
    hide StandsFor, RowsFor, Weight, Key;
    var b' := Skipped(b, row);
    forall k | k != "" ensures RowsFor(d, b'.log, k) == RowsFor(d, b'.gone, k) + LiveRows(b'.entries, k) {
      RowsForSnoc(d, b.log, row, k);
    }
  }

  lemma {:induction false} StandsMeans(d: Def, unique: bool, e: Entry, k: string)
    requires StandsFor(d, unique, e, k)
    ensures AllFor(d, e.rows, k) && (!unique ==> Weight(e.uniqueVals, ValueOverhead) == 0)
  {
  }

  lemma {:induction false} EvictedAccounts(d: Def, unique: bool, b: Book, k0: string)
    requires Accounts(d, unique, b) && k0 in b.entries
    ensures Accounts(d, unique, Evicted(b, k0))
  {
    hide StandsFor, RowsFor, Weight, Key, AllFor;
    var e, b' := b.entries[k0], Evicted(b, k0);
    StandsMeans(d, unique, e, k0);
    WeightWithout(b.entries.Keys, EntryOverhead, k0);
    assert b'.entries.Keys == b.entries.Keys - {k0};
    forall k | k != "" ensures RowsFor(d, b'.log, k) == RowsFor(d, b'.gone, k) + LiveRows(b'.entries, k) {
      RowsForConcat(d, b.gone, e.rows, k);
      RowsForAll(d, e.rows, k0, k);
    }
  }

  // One row -------------------------------------------------------------------------------------

  /** The configured limit in bytes, in int64. */
  function MaxBytes(c: Config): i64 { SignedWrap(c.maxMemoryMB * 0x10_0000) }

  predicate OverMemory(c: Config, usage: int) { c.maxMemoryMB > 0 && usage > MaxBytes(c) }

  /** shouldDoEmergencyCleanup */
  predicate Full(c: Config, size: nat, usage: int) {
    c.emergencyCleanup && (OverMemory(c, usage) || (c.maxKeys > 0 && size > c.maxKeys))
  }

  predicate Bounded(c: Config, es: Entries) { c.emergencyCleanup && c.maxKeys > 0 ==> |es| <= c.maxKeys }

  /** What one row does. After a cleanup the row's own entry may be gone. */
  ghost predicate Step(d: Def, unique: bool, c: Config, b: Book, row: Row, now: int, b': Book) {
    var k := Key(d, row);
    var started := Inserted(b, k, row.provider, now);
    if k == "" then b' == Skipped(b, row)
    else if k in b.entries then b' == Recorded(d, unique, b, row, now)
    else if !Full(c, |started.entries|, started.usage) then b' == Recorded(d, unique, started, row, now)
    else
      && b'.log == b.log + [row]
      && exists t :: IsCutoff(started.entries, t)
                     && b'.entries == WithRow(d, unique, After(started.entries, t), row, now)
  }

  function WithRow(d: Def, unique: bool, es: Entries, row: Row, now: int): Entries {
    var k := Key(d, row);
    if k in es then es[k := Touched(d, unique, es[k], row, now)] else es
  }

  /** A row that starts an entry in an empty cache and is over the memory limit at once: the cleanup then
      looks for the second of a single age. */
  predicate Panics(d: Def, c: Config, b: Book, row: Row) {
    var k := Key(d, row);
    k != "" && b.entries == map[] && c.emergencyCleanup && OverMemory(c, b.usage + EntryOverhead + |k|)
  }

  ghost predicate Advances(d: Def, unique: bool, c: Config, b: Book, row: Row, now: int, b': Book) {
    !Panics(d, c, b, row) && Step(d, unique, c, b, row, now, b')
  }

  /** What the rows of a batch do, one after the other, none of which panics. */
  ghost predicate Steps(d: Def, unique: bool, c: Config, b: Book, rows: seq<Row>, now: int, b': Book)
    decreases |rows|
  {
    if rows == [] then b' == b
    else
      var init, last := rows[..|rows| - 1], rows[|rows| - 1];
      exists b1 :: Steps(d, unique, c, b, init, now, b1) && Advances(d, unique, c, b1, last, now, b')
  }

  lemma {:induction false} StepsSnoc(d: Def, unique: bool, c: Config, b: Book, rows: seq<Row>, row: Row, now: int,
                                     b1: Book, b': Book)
    requires Steps(d, unique, c, b, rows, now, b1) && Advances(d, unique, c, b1, row, now, b')
    ensures Steps(d, unique, c, b, rows + [row], now, b')
  {
    hide Advances;
    var all := rows + [row];
    var init, last := all[..|all| - 1], all[|all| - 1];
    assert init == rows && last == row;
    assert Steps(d, unique, c, b, init, now, b1) && Advances(d, unique, c, b1, last, now, b');
  }

  lemma {:induction false} NoSteps(d: Def, unique: bool, c: Config, b: Book, now: int)
    ensures Steps(d, unique, c, b, [], now, b)
  {
  }

  /** The bound on the keys is kept by every row, with or without a cleanup. */
  lemma {:induction false} StepKeepsBound(d: Def, unique: bool, c: Config, b: Book, row: Row, now: int, b': Book)
    requires Bounded(c, b.entries) && Step(d, unique, c, b, row, now, b')
    ensures Bounded(c, b'.entries)
  {
    hide Key, Touched, Fresh, OverMemory, IsCutoff, Wrap;
    var k := Key(d, row);
    if k != "" && k !in b.entries {
      var started := Inserted(b, k, row.provider, now);
      SameSize(started.entries, b.entries.Keys + {k});
      if Full(c, |started.entries|, started.usage) {
        var t :| IsCutoff(started.entries, t) && b'.entries == WithRow(d, unique, After(started.entries, t), row, now);
        CleanupRemoves(started.entries, t);
        SameSize(b'.entries, After(started.entries, t).Keys);
      } else {
        SameSize(b'.entries, started.entries.Keys);
      }
    } else if k != "" {
      SameSize(b'.entries, b.entries.Keys);
    }
  }

  lemma {:induction false} SameSize(es: Entries, keys: set<string>)
    requires es.Keys == keys
    ensures |es| == |keys|
  {
  }

  /** No entry without rows is left behind. */
  lemma {:induction false} StepKeepsRows(d: Def, unique: bool, c: Config, b: Book, row: Row, now: int, b': Book)
    requires NoneEmpty(b.entries) && Step(d, unique, c, b, row, now, b')
    ensures NoneEmpty(b'.entries)
  {
    hide Key, WholeAmount, Wrap;
  }

  // What the accounts mean ----------------------------------------------------------------------

  ghost predicate NoneEmpty(es: Entries) { forall k :: k in es ==> es[k].rows != [] }

  /** While no cleanup has fired, the cache holds every key but the empty one, and each entry carries the
      count and the exact extremes of the rows of its key, and the sum that a sum rollup has for them. */
  lemma {:induction false} UncleanedIsExact(d: Def, b: Book, k: string, sum: map<string, seq<u64>>)
    requires Accounts(d, false, b) && NoneEmpty(b.entries) && !b.cleaned && k != ""
    requires d.nameSet != [] && CountersOf(d, sum, b.log)
    ensures k in b.entries <==> k in sum
    ensures k in b.entries ==>
              (var e, rows := b.entries[k], RowsFor(d, b.log, k);
               && e.sum == sum[k][0] && e.count == Wrap(|rows|)
               && e.min == MinValue(d, MaxU64, rows) && e.max == MaxValue(d, rows))
  {
    TotalForKey(d, b.log, k, 0);
    assert RowsFor(d, b.log, k) == RowsFor(d, [], k) + LiveRows(b.entries, k) == LiveRows(b.entries, k);
  }

  /** Cleanups included: what an entry has lost is what its key has among the lost rows. */
  lemma {:induction false} LostIsTheRest(d: Def, b: Book, k: string)
    requires Accounts(d, false, b) && k in b.entries
    ensures Plus(b.entries[k].sum, RowTotal(d, b.gone, k, 0)) == Wrap(RowTotal(d, b.log, k, 0))
  {
    hide Wrap, RowTotal, RowsFor, Weight, Key, AllValues, MinValue, MaxValue, AllFor;
    var e := b.entries[k];
    assert RowsFor(d, b.log, k) == RowsFor(d, b.gone, k) + e.rows;
    TotalForKey(d, b.log, k, 0);
    TotalForKey(d, b.gone, k, 0);
    TotalConcat(d, RowsFor(d, b.gone, k), e.rows, k, 0);
    WrapAdd(RowTotal(d, e.rows, k, 0), RowTotal(d, b.gone, k, 0));
  }

  /** The part of the sizes that is due to the distinct values. */
  ghost function ValueSize(es: Entries): nat
    decreases |es|
  {
    if es == map[] then 0
    else
      var k :| k in es;
      assert (es - {k}).Keys == es.Keys - {k};
      Weight(es[k].uniqueVals, ValueOverhead) + ValueSize(es - {k})
  }

  lemma {:induction false} ValueSizeWithout(es: Entries, k: string)
    requires k in es
    ensures ValueSize(es) == Weight(es[k].uniqueVals, ValueOverhead) + ValueSize(es - {k})
    decreases |es|
  {
    var y :| y in es && ValueSize(es) == Weight(es[y].uniqueVals, ValueOverhead) + ValueSize(es - {y});
    if k != y {
      assert (es - {y}).Keys == es.Keys - {y} && (es - {k}).Keys == es.Keys - {k};
      ValueSizeWithout(es - {y}, k);
      ValueSizeWithout(es - {k}, y);
      assert es - {y} - {k} == es - {k} - {y};
    }
  }

  /** The sum of the entry sizes as they are now. */
  ghost function CurrentSize(es: Entries): nat
    decreases |es|
  {
    if es == map[] then 0
    else
      var k :| k in es;
      assert (es - {k}).Keys == es.Keys - {k};
      EntrySize(k, es[k]) + CurrentSize(es - {k})
  }

  lemma {:induction false} CurrentSizeSplit(es: Entries)
    ensures CurrentSize(es) == Weight(es.Keys, EntryOverhead) + ValueSize(es)
    decreases |es|
  {
    if es == map[] {
      assert es.Keys == {};
    } else {
      var k :| k in es && CurrentSize(es) == EntrySize(k, es[k]) + CurrentSize(es - {k});
      hide Weight, ValueSize, CurrentSize;
      assert (es - {k}).Keys == es.Keys - {k};
      CurrentSizeSplit(es - {k});
      WeightWithout(es.Keys, EntryOverhead, k);
      ValueSizeWithout(es, k);
      assert ValueSize(es) == Weight(es[k].uniqueVals, ValueOverhead) + ValueSize(es - {k});
      assert Weight(es.Keys, EntryOverhead) == EntryOverhead + |k| + Weight((es - {k}).Keys, EntryOverhead);
      assert EntrySize(k, es[k]) == EntryOverhead + |k| + Weight(es[k].uniqueVals, ValueOverhead);
      assert CurrentSize(es) == EntrySize(k, es[k]) + CurrentSize(es - {k});
    }
  }

  /** The memory usage falls short of the entry sizes by what the live values weigh and what was taken off
      in excess for evicted ones. */
  lemma {:induction false} UsageShort(d: Def, unique: bool, b: Book)
    requires Accounts(d, unique, b)
    ensures b.usage == CurrentSize(b.entries) - ValueSize(b.entries) - b.overdrawn
  {
    CurrentSizeSplit(b.entries);
  }

  /** So it is exact for every rollup that is not unique, cleanups or not. */
  lemma {:induction false} UsageIsExact(d: Def, b: Book)
    requires Accounts(d, false, b)
    ensures b.usage == CurrentSize(b.entries)
  {
    UsageShort(d, false, b);
    NoValues(b.entries);
  }

  lemma {:induction false} NoValues(es: Entries)
    requires forall k :: k in es ==> es[k].uniqueVals == {}
    ensures ValueSize(es) == 0
    decreases |es|
  {
    if es != map[] {
      var k :| k in es;
      assert (es - {k}).Keys == es.Keys - {k};
      ValueSizeWithout(es, k);
      NoValues(es - {k});
    }
  }
}
