/** What sendBytesOn of pkg/cat/kentik.go does to a batch, as values: sampling and splitting by company. */
module FlowBatch {
  import opened Integers
  import opened Options

  datatype Flow = Flow(company: nat, sampleRate: u32, payload: string)

  /** The converted flow in a pooled object, with the sample rate that the object carries and what enrichment adds. */
  datatype Item = Item(flow: Flow, sampleRate: u32, extra: string)

  const Blank := NewItem(Flow(0, 0, ""))

  function NewItem(f: Flow): Item { Item(f, f.sampleRate, "") }

  /** `enrich` is None without geo, AS or other lookups. */
  datatype Config = Config(sampleRate: i64, sampleMin: i64, doRollups: bool, rollupAndAlpha: bool,
                           enrich: Option<Flow -> string>)

  /** doEnrichments, one item after the other. */
  function Enriched(c: Config, item: Item): Item {
    if c.enrich.None? then item else item.(extra := c.enrich.value(item.flow))
  }

  function AllEnriched(c: Config, items: seq<Item>): (r: seq<Item>)
    ensures |r| == |items|
    ensures forall i :: 0 <= i < |items| ==> r[i] == Enriched(c, items[i])
  {
    seq(|items|, i requires 0 <= i < |items| => Enriched(c, items[i]))
  }

  // Sampling ------------------------------------------------------------------------------------

  predicate Samples(c: Config, n: nat) { c.sampleRate > 1 && n > c.sampleMin }

  /** The flows kept of n: one in every sampleRate, at least one. */
  function KeptOf(c: Config, n: nat): (k: nat)
    requires n > 0 && c.sampleRate > 1
    ensures 1 <= k <= n
  {
    DivSmaller(n, c.sampleRate);
    if n / c.sampleRate < 1 then 1 else n / c.sampleRate
  }

  function Scaled(item: Item, rate: i64): Item { item.(sampleRate := Wrap32(item.sampleRate * Wrap32(rate))) }

  function AllScaled(items: seq<Item>, rate: i64): (r: seq<Item>)
    ensures |r| == |items|
    ensures forall i :: 0 <= i < |items| ==> r[i] == Scaled(items[i], rate)
  {
    seq(|items|, i requires 0 <= i < |items| => Scaled(items[i], rate))
  }

  // Splitting -----------------------------------------------------------------------------------

  function ForCompany(items: seq<Item>, c: nat): seq<Item> {
    if items == [] then []
    else
      ForCompany(items[..|items| - 1], c)
      + if items[|items| - 1].flow.company == c then [items[|items| - 1]] else []
  }

  datatype Output = Output(company: nat, items: seq<Item>)

  /** `outs` has one output for every company of `kept` that serializes, with all its items in their order. */
  ghost predicate Splits(kept: seq<Item>, seri: seq<Item> -> bool, outs: seq<Output>) {
    && (forall i, j :: 0 <= i < j < |outs| ==> outs[i].company != outs[j].company)
    && (forall o :: o in outs ==> o.items == ForCompany(kept, o.company) != [] && seri(o.items))
    && (forall c :: ForCompany(kept, c) != [] && seri(ForCompany(kept, c)) ==> Output(c, ForCompany(kept, c)) in outs)
  }

  lemma {:induction false} InCompany(items: seq<Item>, c: nat, x: Item)
    ensures multiset(ForCompany(items, c))[x] == if x.flow.company == c then multiset(items)[x] else 0
    ensures |ForCompany(items, c)| <= |items|
  {
    if items != [] {
      var init, last := items[..|items| - 1], items[|items| - 1];
      assert items == init + [last];
      InCompany(init, c, x);
    }
  }

  function Flat(outs: seq<Output>): seq<Item> {
    if outs == [] then [] else Flat(outs[..|outs| - 1]) + outs[|outs| - 1].items
  }

  lemma {:induction false} FlatCounts(outs: seq<Output>, kept: seq<Item>, x: Item)
    requires forall i, j :: 0 <= i < j < |outs| ==> outs[i].company != outs[j].company
    requires forall o :: o in outs ==> o.items == ForCompany(kept, o.company)
    ensures multiset(Flat(outs))[x] == if exists o :: o in outs && o.company == x.flow.company then multiset(kept)[x] else 0
  {
    if outs != [] {
      var init, last := outs[..|outs| - 1], outs[|outs| - 1];
      assert outs == init + [last];
      FlatCounts(init, kept, x);
      InCompany(kept, last.company, x);
    }
  }

  /** Where serializing succeeds, the outputs hold the kept items, each exactly once; with `Splits`, a stable
      partition by company. */
  lemma {:induction false} SplitsArePartition(kept: seq<Item>, seri: seq<Item> -> bool, outs: seq<Output>)
    requires Splits(kept, seri, outs) && forall c :: ForCompany(kept, c) != [] ==> seri(ForCompany(kept, c))
    ensures multiset(Flat(outs)) == multiset(kept)
  {
    forall x: Item ensures multiset(Flat(outs))[x] == multiset(kept)[x] {
      FlatCounts(outs, kept, x);
      InCompany(kept, x.flow.company, x);
      if x in multiset(kept) {
        assert multiset(ForCompany(kept, x.flow.company))[x] > 0;
        assert ForCompany(kept, x.flow.company) != [];
      }
    }
  }

  /** No output is longer than what was kept. */
  lemma {:induction false} SplitsFit(kept: seq<Item>, seri: seq<Item> -> bool, outs: seq<Output>, o: Output)
    requires Splits(kept, seri, outs) && o in outs
    ensures 0 < |o.items| <= |kept| && forall x :: x in o.items ==> x.flow.company == o.company
  {
    forall x: Item ensures x in o.items ==> x.flow.company == o.company {
      InCompany(kept, o.company, x);
      assert x in o.items <==> multiset(o.items)[x] > 0;
    }
    InCompany(kept, o.company, Blank);
  }

  // Flushing ------------------------------------------------------------------------------------

  /** What a flush of `batch` sends: nothing where rollups replace the flows, else the splits of the batch, or
      of the first few of it in a random order and with a larger sample rate. */
  ghost predicate Flushes(c: Config, seri: seq<Item> -> bool, batch: seq<Item>, outs: seq<Output>) {
    if batch == [] || (c.doRollups && !c.rollupAndAlpha) then outs == []
    else if !Samples(c, |batch|) then Splits(batch, seri, outs)
    else exists order :: Sampled(c, seri, batch, order, outs)
  }

  ghost predicate Sampled(c: Config, seri: seq<Item> -> bool, batch: seq<Item>, order: seq<Item>, outs: seq<Output>) {
    && |order| == |batch| > 0 && c.sampleRate > 1
    && multiset(order) == multiset(batch)
    && Splits(AllScaled(order, c.sampleRate)[..KeptOf(c, |order|)], seri, outs)
  }

  /** No output of a flush is longer than the batch. */
  lemma {:induction false} FlushFits(c: Config, seri: seq<Item> -> bool, batch: seq<Item>, outs: seq<Output>, o: Output)
    requires Flushes(c, seri, batch, outs) && o in outs
    ensures 0 < |o.items| <= |batch|
  {
    if Samples(c, |batch|) {
      var order :| Sampled(c, seri, batch, order, outs);
      SplitsFit(AllScaled(order, c.sampleRate)[..KeptOf(c, |order|)], seri, outs, o);
    } else {
      SplitsFit(batch, seri, outs, o);
    }
  }

  /** The loop that fills `splits`. */
  method SplitByCompany(items: seq<Item>) returns (splits: map<nat, seq<Item>>)
    ensures forall c :: c in splits <==> ForCompany(items, c) != []
    ensures forall c :: c in splits ==> splits[c] == ForCompany(items, c)
  {
    splits := map[];
    var i := 0;
    while i < |items|
      invariant i <= |items|
      invariant forall c :: c in splits <==> ForCompany(items[..i], c) != []
      invariant forall c :: c in splits ==> splits[c] == ForCompany(items[..i], c)
    {
      var c := items[i].flow.company;
      ForCompanySnoc(items[..i], items[i]);
      assert items[..i + 1] == items[..i] + [items[i]];
      if c !in splits {
        splits := splits[c := []];
      }
      splits := splits[c := splits[c] + [items[i]]];
      i := i + 1;
    }
    assert items[..i] == items;
  }

  lemma {:induction false} ForCompanySnoc(items: seq<Item>, item: Item)
    ensures forall c :: ForCompany(items + [item], c) == ForCompany(items, c) + if item.flow.company == c then [item] else []
  {
    assert (items + [item])[..|items|] == items;
  }

  /** The loop over `splits`, in any order. */
  method Serialize(splits: map<nat, seq<Item>>, seri: seq<Item> -> bool,
                   ghost kept: seq<Item>) returns (outs: seq<Output>)
    requires forall c :: c in splits <==> ForCompany(kept, c) != []
    requires forall c :: c in splits ==> splits[c] == ForCompany(kept, c)
    ensures Splits(kept, seri, outs)
  {
    outs := [];
    var todo := splits.Keys;
    while todo != {}
      invariant todo <= splits.Keys
      invariant forall i, j :: 0 <= i < j < |outs| ==> outs[i].company != outs[j].company
      invariant forall o :: o in outs ==> o.company in splits.Keys - todo && o.items == splits[o.company] && seri(o.items)
      invariant forall c :: c in splits.Keys - todo && seri(splits[c]) ==> Output(c, splits[c]) in outs
    {
      var c :| c in todo;
      if seri(splits[c]) {
        outs := outs + [Output(c, splits[c])];
      }
      todo := todo - {c};
    }
  }
}
