/** The cached rollup of pkg/rollup/cache.go, step by step on its map of entries. */
module CacheRollup {
  import opened Integers
  import opened SplitJoin
  import opened RollupRows
  import opened RowFolds
  import opened Decimal
  import opened Sorting
  import opened CacheStore
  import opened TopRollups

  class CacheEntry {
    const key: string
    const provider: string
    var sum: u64
    var count: u64
    var min: u64
    var max: u64
    var uniqueVals: set<string>
    var lastUpdated: int
    ghost var rows: seq<Row>

    ghost function Value(): Entry
      reads this
    {
      Entry.Entry(sum, count, min, max, provider, uniqueVals, lastUpdated, rows)
    }

    constructor (k: string, p: string, now: int)
      ensures key == k && Value() == Fresh(p, now)
    {
      key, provider, lastUpdated := k, p, now;
      sum, count, min, max, uniqueVals, rows := 0, 0, MaxU64, 0, {}, [];
    }
  }

  /** What one map of entries holds. */
  ghost function Held(cache: map<string, CacheEntry>): Entries
    reads cache.Values
  {
    map k | k in cache :: cache[k].Value()
  }

  lemma {:induction false} HeldKeys(cache: map<string, CacheEntry>)
    ensures Held(cache).Keys == cache.Keys
  {
  }

  lemma {:induction false} HeldAt(cache: map<string, CacheEntry>, k: string)
    requires k in cache
    ensures k in Held(cache) && Held(cache)[k] == cache[k].Value()
  {
  }

  lemma {:induction false} HeldWith(cache: map<string, CacheEntry>, k: string, e: CacheEntry)
    ensures Held(cache[k := e]) == Held(cache)[k := e.Value()]
  {
  }

  lemma {:induction false} HeldWithout(cache: map<string, CacheEntry>, k: string)
    ensures Held(cache - {k}) == Held(cache) - {k}
  {
  }

  ghost predicate Within(small: map<string, CacheEntry>, big: map<string, CacheEntry>) {
    && small.Values <= big.Values
    && forall k :: k in small ==> k in big && small[k] == big[k]
  }

  lemma {:induction false} WithinItself(cache: map<string, CacheEntry>)
    ensures Within(cache, cache)
  {
  }

  lemma {:induction false} WithinWithout(small: map<string, CacheEntry>, big: map<string, CacheEntry>, k: string)
    requires Within(small, big)
    ensures Within(small - {k}, big)
  {
  }

  class Cache {
    const def: Def
    const config: Config
    const filters: seq<Row -> bool>
    const isUnique: bool
    var cache: map<string, CacheEntry>
    var memoryUsage: int
    ghost var book: Book

    ghost predicate Valid()
      reads this, cache.Values
    {
      && Accounts(def, isUnique, book)
      && (forall k :: k in cache ==> cache[k].key == k)
      && book.entries == Held(cache) && book.usage == memoryUsage
    }

    constructor (d: Def, c: Config, fs: seq<Row -> bool>, unique: bool)
      ensures Valid() && book == Opened && config == c && isUnique == unique && filters == fs
      ensures def == d.(splitMetrics := false)
    {
      def, config, filters, isUnique := d.(splitMetrics := false), c, fs, unique;
      cache, memoryUsage, book := map[], 0, Opened;
      OpenedAccounts(d.(splitMetrics := false), unique);
    }

    /** Add, under one clock reading. A cleanup may panic; the process is gone then. */
    method Add(rows: seq<Row>, now: int) returns (panicked: bool)
      requires Valid() && NoneEmpty(book.entries) && Bounded(config, book.entries)
      modifies this, cache.Values
      ensures !panicked ==> Valid() && NoneEmpty(book.entries) && Bounded(config, book.entries)
      ensures !panicked ==> book.log == old(book.log) + Kept(filters, rows)
      ensures !panicked ==> Steps(def, isUnique, config, old(book), Kept(filters, rows), now, book)
      ensures panicked ==> exists n, b :: 0 <= n < |Kept(filters, rows)|
                                          && Steps(def, isUnique, config, old(book), Kept(filters, rows)[..n], now, b)
                                          && Panics(def, config, b, Kept(filters, rows)[n])
      ensures panicked ==> exists row :: row in rows && OverMemory(config, EntryOverhead + |Key(def, row)|)
      ensures forall e :: e in cache.Values ==> e in old(cache.Values) || fresh(e)
    {
      hide Accounts, Held, Step, Key, OverMemory, Kept, Steps, Panics;
      NoSteps(def, isUnique, config, book, now);
      var todo := Filter(filters, rows);
      var i := 0;
      assert todo[..0] == [];
      panicked := false;
      while i < |todo|
        invariant i <= |todo|
        invariant Valid() && NoneEmpty(book.entries) && Bounded(config, book.entries)
        invariant book.log == old(book.log) + todo[..i]
        invariant Steps(def, isUnique, config, old(book), todo[..i], now, book)
        invariant forall e :: e in cache.Values ==> e in old(cache.Values) || fresh(e)
      {
        ghost var before := book;
        assert todo[..i + 1] == todo[..i] + [todo[i]];
        panicked := AddRow(todo[i], now);
        if panicked {
          OverLimit(before, todo[i]);
          KeptAreRows(filters, rows, todo[i]);
          return;
        }
        StepsSnoc(def, isUnique, config, old(book), todo[..i], todo[i], now, before, book);
        StepLogs(def, isUnique, config, before, todo[i], now, book);
        StepKeepsBound(def, isUnique, config, before, todo[i], now, book);
        StepKeepsRows(def, isUnique, config, before, todo[i], now, book);
        i := i + 1;
      }
      assert todo[..i] == todo;
    }

    lemma {:induction false} OverLimit(b: Book, row: Row)
      requires Accounts(def, isUnique, b) && Panics(def, config, b, row)
      ensures OverMemory(config, EntryOverhead + |Key(def, row)|)
    {
      assert b.entries.Keys == {};
    }

    /** One turn of the loop of Add. */
    method AddRow(row: Row, now: int) returns (panicked: bool)
      requires Valid()
      modifies this, cache.Values
      ensures panicked <==> Panics(def, config, old(book), row)
      ensures !panicked ==> Valid() && Step(def, isUnique, config, old(book), row, now, book)
      ensures forall e :: e in cache.Values ==> e in old(cache.Values) || fresh(e)
    {
      hide Accounts, Key, Held, Step, CleanedIfFull, Panics, Full, Recorded, Orphaned, Inserted, Fresh;
      panicked := false;
      var key := GetKey(def, row);
      HeldKeys(cache);
      ghost var before := book;
      if key == "" {
        SkippedAccounts(def, isUnique, book, row);
        book := Skipped(book, row);
        StepSkips(def, isUnique, config, before, row, now);
      } else if key in cache {
        StepRecords(def, isUnique, config, before, row, now);
        var entry := cache[key];
        Record(entry, row, now);
      } else {
        PanicsIff(def, config, before, row, now);
        var entry: CacheEntry;
        entry, panicked := Insert(key, row.provider, now);
        if !panicked {
          HeldKeys(cache);
          StepInserts(def, isUnique, config, before, row, now, book);
          Record(entry, row, now);
        }
      }
    }

    /** A new entry in the cache, and a cleanup if that fills it. The entry may not survive the cleanup. */
    method Insert(key: string, provider: string, now: int) returns (entry: CacheEntry, panicked: bool)
      requires Valid() && key != "" && key !in cache
      modifies this
      ensures fresh(entry) && entry.key == key && entry.Value() == Fresh(provider, now)
      ensures Within(cache, old(cache)[key := entry])
      ensures var started := Inserted(old(book), key, provider, now);
              && (panicked <==> Full(config, |started.entries|, started.usage) && |started.entries| == 1)
              && (!panicked ==> Valid() && CleanedIfFull(config, started, book))
    {
      hide Accounts, Fresh, Cleaned, Full, Held, Inserted;
      entry := Open(key, provider, now);
      HeldKeys(cache);
      SameSize(book.entries, cache.Keys);
      panicked := false;
      var full := ShouldDoEmergencyCleanup();
      if full {
        panicked := DoEmergencyCleanup();
      }
    }

    method Open(key: string, provider: string, now: int) returns (entry: CacheEntry)
      requires Valid() && key != "" && key !in cache
      modifies this
      ensures fresh(entry) && entry.key == key && entry.Value() == Fresh(provider, now)
      ensures Valid() && cache == old(cache)[key := entry] && book == Inserted(old(book), key, provider, now)
    {
      hide Accounts, Fresh, Held, EntrySize;
      HeldKeys(cache);
      InsertedAccounts(def, isUnique, book, key, provider, now);
      FreshSize(key, provider, now);
      entry := new CacheEntry(key, provider, now);
      HeldWith(cache, key, entry);
      book := Inserted(book, key, provider, now);
      cache := cache[key := entry];
      var size := EstimateEntrySize(entry);
      memoryUsage := memoryUsage + size;
    }

    /** The tail of the loop: the entry takes in the row, whether or not the cache still holds it. */
    method Record(entry: CacheEntry, row: Row, now: int)
      requires Valid() && entry.key == Key(def, row) != ""
      requires if entry.key in cache then cache[entry.key] == entry else book.cleaned
      modifies this`book, entry
      ensures Valid()
      ensures book == if entry.key in cache then Recorded(def, isUnique, old(book), row, now) else Orphaned(old(book), row)
    {
      hide Accounts, Key, Touched;
      if entry.key in cache {
        RecordedAccounts(def, isUnique, book, row, now);
        book := Recorded(def, isUnique, book, row, now);
      } else {
        OrphanedAccounts(def, isUnique, book, row);
        book := Orphaned(book, row);
      }
      Touch(entry, row, now);
      assert book.entries == Held(cache);
    }

    method Touch(entry: CacheEntry, row: Row, now: int)
      modifies entry
      ensures entry.Value() == Touched(def, isUnique, old(entry.Value()), row, now)
    {
      entry.lastUpdated := now;
      entry.count := Plus(entry.count, 1);
      entry.rows := entry.rows + [row];
      if isUnique {
        var vals := UniqueValues(row);
        entry.uniqueVals := entry.uniqueVals + vals;
      } else {
        var value := ComputeWholeAmount(def, row);
        entry.sum := Plus(entry.sum, value);
        if entry.min > value {
          entry.min := value;
        }
        if entry.max < value {
          entry.max := value;
        }
      }
    }

    /** addUniqueValues */
    method UniqueValues(row: Row) returns (vals: set<string>)
      ensures vals == ValuesOf(def, row)
    {
      vals := {};
      for i := 0 to |def.metrics|
        invariant vals == Texts(row, def.metrics[..i])
      {
        assert def.metrics[..i + 1][..i] == def.metrics[..i];
        var m := def.metrics[i];
        if m in row.attrs {
          match row.attrs[m] {
            case Str(s) => vals := vals + {s};
            case Int(n) => vals := vals + {IntText(n)};
            case _ =>
          }
        }
      }
      assert def.metrics[..|def.metrics|] == def.metrics;
      ghost var first := vals;
      for i := 0 to |def.multiMetrics|
        invariant vals == first + MultiTexts(row, def.multiMetrics[..i])
      {
        assert def.multiMetrics[..i + 1][..i] == def.multiMetrics[..i];
        var (m, k) := def.multiMetrics[i];
        if m in row.attrs {
          match row.attrs[m] {
            case StrMap(strs) => vals := vals + {if k in strs then strs[k] else ""};
            case IntMap(ints) => vals := vals + {IntText(if k in ints then ints[k] else 0)};
            case _ =>
          }
        }
      }
      assert def.multiMetrics[..|def.multiMetrics|] == def.multiMetrics;
    }

    method ShouldDoEmergencyCleanup() returns (full: bool)
      ensures full == Full(config, |cache|, memoryUsage)
    {
      if !config.emergencyCleanup {
        return false;
      }
      if config.maxMemoryMB > 0 {
        var maxBytes := SignedWrap(config.maxMemoryMB * 1024 * 1024);
        if memoryUsage > maxBytes {
          return true;
        }
      }
      return config.maxKeys > 0 && |cache| > config.maxKeys;
    }

    method EstimateEntrySize(entry: CacheEntry) returns (size: nat)
      ensures size == if isUnique then EntrySize(entry.key, entry.Value()) else EntryOverhead + |entry.key|
    {
      size := EntryOverhead + |entry.key|;
      if isUnique {
        size := size + |entry.uniqueVals| * ValueOverhead;
        ghost var base := size;
        WeightSplit(entry.uniqueVals, ValueOverhead);
        var todo := entry.uniqueVals;
        while todo != {}
          invariant size + Weight(todo, 0) == base + Weight(entry.uniqueVals, 0)
        {
          var k :| k in todo;
          WeightWithout(todo, 0, k);
          size := size + |k|;
          todo := todo - {k};
        }
      }
    }

    /** Drops the entries at least as old as the one in the middle. One entry alone has no middle. */
    method DoEmergencyCleanup() returns (panicked: bool)
      requires Valid()
      modifies this
      ensures panicked <==> |old(cache)| == 1
      ensures Within(cache, old(cache))
      ensures !panicked ==> Valid() && Cleaned(old(book), book)
    {
      HeldKeys(cache);
      SameSize(book.entries, cache.Keys);
      WithinItself(cache);
      if |cache| <= 1 {
        return |cache| == 1;
      }
      hide Accounts, Held, IsCutoff, Within, After;
      var clock: int := *;
      var threshold := AgeThreshold(clock);
      RemoveOlder(clock, threshold);
      panicked := false;
    }

    method AgeThreshold(clock: int) returns (threshold: int)
      requires Valid() && |book.entries| >= 2
      ensures IsCutoff(book.entries, clock - threshold)
    {
      hide Accounts, Held, AgesOf, Sorts, IsCutoff, ThresholdIndex;
      var ages := Ages(clock);
      var sorted := Sort(ages, Self);
      AgesLength(book.entries, clock, ages);
      var i := ThresholdIndex(|ages|);
      CutoffFrom(book.entries, clock, ages, sorted, i);
      threshold := sorted[i];
    }

    /** The ages of all entries, in the order of the visit. */
    method Ages(clock: int) returns (ages: seq<int>)
      requires Valid()
      ensures AgesOf(book.entries, book.entries.Keys, clock, ages)
    {
      hide Accounts, AgesOf, Held;
      ghost var es := book.entries;
      HeldKeys(cache);
      NoAges(es, clock);
      ages := [];
      var todo := cache.Keys;
      assert es.Keys - todo == {};
      while todo != {}
        invariant todo <= es.Keys && AgesOf(es, es.Keys - todo, clock, ages)
      {
        var k :| k in todo;
        HeldAt(cache, k);
        AgesSnoc(es, es.Keys - todo, clock, ages, k);
        assert es.Keys - (todo - {k}) == es.Keys - todo + {k};
        ages := ages + [clock - cache[k].lastUpdated];
        todo := todo - {k};
      }
      assert es.Keys - todo == es.Keys;
    }

    /** doExport: the cache starts again from nothing, and what it held is exported. */
    method Export(topK: int) returns (out: seq<Rollup>)
      requires Valid()
      modifies this
      ensures Valid() && book == Opened && cache == map[]
      ensures IsTop(out, CacheRollups(def, isUnique, old(book.entries)), topK)
    {
      hide Accounts, IsTop;
      var m := map k | k in cache :: RollupOf(def, isUnique, k, cache[k].sum, cache[k].count, cache[k].min, cache[k].max,
                                              cache[k].provider, cache[k].uniqueVals);
      assert m == CacheRollups(def, isUnique, book.entries);
      OpenedFrom(def, isUnique, book);
      cache, memoryUsage, book := map[], 0, Opened;
      out := TopOf(m, topK);
    }

    method RemoveOlder(clock: int, threshold: int)
      requires Valid()
      modifies this
      ensures Valid() && book.cleaned && book.log == old(book.log)
      ensures book.entries == After(old(book.entries), clock - threshold)
      ensures Within(cache, old(cache))
    {
      hide Accounts, EntrySize, Weight, Held, Remaining, After, Within;
      assert Within(cache, cache) by { WithinItself(cache); }
      ghost var es, c := book.entries, clock - threshold;
      HeldKeys(cache);
      RemainingEnds(es, c);
      var todo := cache.Keys;
      CleaningAccounts(def, isUnique, book);
      book := book.(cleaned := true);
      while todo != {}
        invariant Valid() && book.cleaned && book.log == old(book.log)
        invariant todo <= cache.Keys && book.entries == Remaining(es, todo, c)
        invariant Within(cache, old(cache))
      {
        var k :| k in todo;
        HeldKeys(cache);
        HeldAt(cache, k);
        RemainingStep(es, todo, c, k);
        if clock - cache[k].lastUpdated >= threshold {
          WithinWithout(cache, old(cache), k);
          Evict(k);
        }
        todo := todo - {k};
      }
      assert todo == {};
    }

    method Evict(k: string)
      requires Valid() && k in cache
      modifies this
      ensures Valid() && book == Evicted(old(book), k) && cache == old(cache) - {k}
    {
      hide Accounts, EntrySize, Held;
      HeldAt(cache, k);
      HeldWithout(cache, k);
      EvictedAccounts(def, isUnique, book, k);
      if !isUnique {
        PlainSize(def, isUnique, book, k);
      }
      var size := EstimateEntrySize(cache[k]);
      memoryUsage := memoryUsage - size;
      cache := cache - {k};
      book := Evicted(book, k);
    }
  }

  ghost predicate Cleaned(b: Book, b': Book) {
    && b'.log == b.log
    && if b.entries == map[] then b' == b
       else b'.cleaned && exists t :: IsCutoff(b.entries, t) && b'.entries == After(b.entries, t)
  }

  ghost predicate CleanedIfFull(c: Config, b: Book, b': Book) {
    if Full(c, |b.entries|, b.usage) then Cleaned(b, b') else b' == b
  }

  function RollupOf(d: Def, unique: bool, k: string, sum: u64, count: u64, min: u64, max: u64, provider: string,
                    uniqueVals: set<string>): (r: Rollup)
    ensures r.dimension == k
  {
    Rollup(Join(d.nameSet, ";"), k, if unique then |uniqueVals| else sum, d.keyJoin, DimNames(d.dims), count, min, max, provider)
  }

  function CacheRollups(d: Def, unique: bool, es: Entries): (m: map<string, Rollup>)
    ensures Named(m)
  {
    map k | k in es ::
      var e := es[k];
      RollupOf(d, unique, k, e.sum, e.count, e.min, e.max, e.provider, e.uniqueVals)
  }

  lemma {:induction false} OpenedFrom(d: Def, unique: bool, b: Book)
    requires Accounts(d, unique, b)
    ensures Accounts(d, unique, Opened)
  {
    OpenedAccounts(d, unique);
  }

  function Self(age: int): int { age }

  // The steps as values -------------------------------------------------------------------------

  lemma {:induction false} KeptAreRows(filters: seq<Row -> bool>, rows: seq<Row>, row: Row)
    requires row in Kept(filters, rows)
    ensures row in rows
  {
    if rows != [] && row != rows[|rows| - 1] {
      KeptAreRows(filters, rows[..|rows| - 1], row);
    }
  }

  lemma {:induction false} StepLogs(d: Def, unique: bool, c: Config, b: Book, row: Row, now: int, b': Book)
    requires Step(d, unique, c, b, row, now, b')
    ensures b'.log == b.log + [row]
  {
  }

  lemma {:induction false} StepSkips(d: Def, unique: bool, c: Config, b: Book, row: Row, now: int)
    requires Key(d, row) == ""
    ensures Step(d, unique, c, b, row, now, Skipped(b, row)) && !Panics(d, c, b, row)
  {
  }

  lemma {:induction false} StepRecords(d: Def, unique: bool, c: Config, b: Book, row: Row, now: int)
    requires Key(d, row) != "" && Key(d, row) in b.entries
    ensures Step(d, unique, c, b, row, now, Recorded(d, unique, b, row, now)) && !Panics(d, c, b, row)
  {
  }

  lemma {:induction false} StepInserts(d: Def, unique: bool, c: Config, b: Book, row: Row, now: int, b': Book)
    requires Key(d, row) != "" && Key(d, row) !in b.entries
    requires CleanedIfFull(c, Inserted(b, Key(d, row), row.provider, now), b')
    ensures var k := Key(d, row);
            && (k in b'.entries || b'.cleaned)
            && Step(d, unique, c, b, row, now, if k in b'.entries then Recorded(d, unique, b', row, now) else Orphaned(b', row))
  {
    hide Key, Touched, Full, Fresh;
  }

  lemma {:induction false} PanicsIff(d: Def, c: Config, b: Book, row: Row, now: int)
    requires Key(d, row) != "" && Key(d, row) !in b.entries
    ensures var started := Inserted(b, Key(d, row), row.provider, now);
            Panics(d, c, b, row) <==> Full(c, |started.entries|, started.usage) && |started.entries| == 1
  {
    hide Key;
    var k := Key(d, row);
    var started := Inserted(b, k, row.provider, now);
    SameSize(started.entries, b.entries.Keys + {k});
    assert |b.entries.Keys| == 0 <==> b.entries == map[];
  }

  lemma {:induction false} FreshSize(k: string, provider: string, now: int)
    ensures EntrySize(k, Fresh(provider, now)) == EntryOverhead + |k|
  {
  }

  lemma {:induction false} PlainSize(d: Def, unique: bool, b: Book, k: string)
    requires Accounts(d, unique, b) && k in b.entries && !unique
    ensures EntrySize(k, b.entries[k]) == EntryOverhead + |k|
  {
    StandsMeans(d, unique, b.entries[k], k);
  }

  lemma {:induction false} WeightSplit(s: set<string>, w: nat)
    ensures Weight(s, w) == |s| * w + Weight(s, 0)
  {
    if s != {} {
      var x :| x in s;
      WeightWithout(s, w, x);
      WeightWithout(s, 0, x);
      WeightSplit(s - {x}, w);
    }
  }

  lemma {:induction false} CleaningAccounts(d: Def, unique: bool, b: Book)
    requires Accounts(d, unique, b)
    ensures Accounts(d, unique, b.(cleaned := true))
  {
  }

  // Ages ----------------------------------------------------------------------------------------

  function UntilIn(es: Entries, keys: set<string>, c: int): set<string> {
    set k | k in keys && k in es && es[k].lastUpdated <= c
  }

  ghost predicate AgesOf(es: Entries, done: set<string>, clock: int, ages: seq<int>) {
    && |ages| == |done|
    && forall t :: CountGE(ages, Self, t) == |UntilIn(es, done, clock - t)|
  }

  lemma {:induction false} NoAges(es: Entries, clock: int)
    ensures AgesOf(es, {}, clock, [])
  {
    assert forall c :: UntilIn(es, {}, c) == {};
  }

  lemma {:induction false} AgesLength(es: Entries, clock: int, ages: seq<int>)
    requires AgesOf(es, es.Keys, clock, ages)
    ensures |ages| == |es|
  {
  }

  lemma {:induction false} AgesSnoc(es: Entries, done: set<string>, clock: int, ages: seq<int>, k: string)
    requires AgesOf(es, done, clock, ages) && k in es && k !in done
    ensures AgesOf(es, done + {k}, clock, ages + [clock - es[k].lastUpdated])
  {
    var ages' := ages + [clock - es[k].lastUpdated];
    assert ages'[..|ages|] == ages;
    forall t ensures CountGE(ages', Self, t) == |UntilIn(es, done + {k}, clock - t)| {
      assert CountGE(ages, Self, t) == |UntilIn(es, done, clock - t)|;
      assert UntilIn(es, done + {k}, clock - t)
          == UntilIn(es, done, clock - t) + if es[k].lastUpdated <= clock - t then {k} else {};
    }
  }

  /** The age at the threshold index of the sorted ages marks the cutoff. */
  lemma {:induction false} CutoffFrom(es: Entries, clock: int, ages: seq<int>, sorted: seq<int>, i: nat)
    requires AgesOf(es, es.Keys, clock, ages) && Sorts(sorted, ages, Self) && |es| >= 2 && i == ThresholdIndex(|es|)
    ensures i < |sorted| && IsCutoff(es, clock - sorted[i])
  {
    assert |multiset(sorted)| == |sorted| == |ages| == |es|;
    var t := sorted[i];
    CountAt(sorted, Self, i);
    CountPermuted(sorted, ages, Self, t);
    CountPermuted(sorted, ages, Self, t + 1);
    assert CountGE(ages, Self, t) == |UntilIn(es, es.Keys, clock - t)|;
    assert CountGE(ages, Self, t + 1) == |UntilIn(es, es.Keys, clock - (t + 1))|;
    assert UntilIn(es, es.Keys, clock - t) == Until(es, clock - t);
    assert UntilIn(es, es.Keys, clock - (t + 1)) == Until(es, clock - t - 1);
  }

  function Remaining(es: Entries, todo: set<string>, c: int): Entries {
    map k | k in es && (k in todo || es[k].lastUpdated > c) :: es[k]
  }

  lemma {:induction false} RemainingEnds(es: Entries, c: int)
    ensures Remaining(es, es.Keys, c) == es && Remaining(es, {}, c) == After(es, c)
  {
  }

  lemma {:induction false} RemainingStep(es: Entries, todo: set<string>, c: int, k: string)
    requires k in todo && k in es
    ensures k in Remaining(es, todo, c) && Remaining(es, todo, c)[k] == es[k]
    ensures Remaining(es, todo - {k}, c) == if es[k].lastUpdated <= c then Remaining(es, todo, c) - {k} else Remaining(es, todo, c)
  {
  }
}
