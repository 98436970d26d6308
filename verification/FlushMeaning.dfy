/** What goes out in a flush, item by item: pkg/cat/kentik.go. */
module FlushMeaning {
  import opened Integers
  import opened FlowBatch

  // How many, and with which rate ---------------------------------------------------------------

  /** One flow in every sampleRate is kept, rounded down, but never none. */
  lemma {:induction false} KeptIs(c: Config, n: nat)
    requires n > 0 && c.sampleRate > 1
    ensures var k := KeptOf(c, n); if n < c.sampleRate then k == 1 else k * c.sampleRate <= n < (k + 1) * c.sampleRate
  {
    var q, r: int := n / c.sampleRate, c.sampleRate;
    assert n == r * q + n % r;
    assert r * q == q * r && (q + 1) * r == q * r + r;
    if n < r {
      DivUnique(n, r, 0, n);
    } else {
      Multiple(q, r);
    }
  }

  lemma {:induction false} TimesRate(a: u32, r: i64)
    ensures Wrap32(a * Wrap32(r)) == ((a as int) * r) % 0x1_0000_0000
  {
    var q := (r as int) / U32;
    assert r == q * U32 + Wrap32(r);
    var x, y: int := (a as int) * Wrap32(r), (a as int) * q;
    assert (a as int) * r == x + y * U32 by {
      assert (a as int) * (q * U32 + Wrap32(r)) == (a as int) * (q * U32) + (a as int) * Wrap32(r);
      assert (a as int) * (q * U32) == y * U32;
    }
    var n := x + y * U32;
    assert n == (x / U32 + y) * U32 + x % U32 by {
      assert (x / U32 + y) * U32 == x / U32 * U32 + y * U32;
    }
    DivUnique(n, U32, x / U32 + y, x % U32);
  }

  /** The item of a flow that went into a sampled flush, as it goes out. */
  predicate IsSampleOf(x: Item, y: Item, rate: i64) {
    x.flow == y.flow && x.extra == y.extra && x.sampleRate == ((y.sampleRate as int) * rate) % 0x1_0000_0000
  }

  lemma {:induction false} ScaledIs(y: Item, rate: i64)
    ensures IsSampleOf(Scaled(y, rate), y, rate)
  {
    TimesRate(y.sampleRate, rate);
  }

  lemma {:induction false} MembersOf(items: seq<Item>, c: nat, x: Item)
    ensures x in ForCompany(items, c) <==> x in items && x.flow.company == c
  {
    InCompany(items, c, x);
    assert x in items <==> multiset(items)[x] > 0;
    assert x in ForCompany(items, c) <==> multiset(ForCompany(items, c))[x] > 0;
  }

  /** With nothing but rollups configured, and for an empty batch, nothing is sent. */
  lemma {:induction false} NothingSent(c: Config, seri: seq<Item> -> bool, batch: seq<Item>, outs: seq<Output>)
    requires Flushes(c, seri, batch, outs) && (batch == [] || (c.doRollups && !c.rollupAndAlpha))
    ensures outs == []
  {
  }

  /** A batch above the minimum, with a rate above one, is sampled: each item sent is that of a flow in the batch, with
      its rate times the configured one. */
  lemma {:induction false} SampledRates(c: Config, seri: seq<Item> -> bool, batch: seq<Item>, outs: seq<Output>, o: Output,
                                        x: Item)
    requires Flushes(c, seri, batch, outs) && o in outs && x in o.items
    requires c.sampleRate > 1 && |batch| > c.sampleMin
    ensures x.flow.company == o.company && exists y :: y in batch && IsSampleOf(x, y, c.sampleRate)
  {
    assert batch != [] && outs != [];
    var order :| Sampled(c, seri, batch, order, outs);
    hide Flushes, Scaled, IsSampleOf;
    var scaled := AllScaled(order, c.sampleRate);
    var kept := scaled[..KeptOf(c, |order|)];
    MembersOf(kept, o.company, x);
    var i :| 0 <= i < |kept| && kept[i] == x;
    ScaledIs(order[i], c.sampleRate);
    assert scaled[i] == Scaled(order[i], c.sampleRate);
    assert order[i] in multiset(order);
    assert order[i] in batch;
  }

  /** And as many are sent as are to be kept, where every company serializes. */
  lemma {:induction false} SampledCount(c: Config, seri: seq<Item> -> bool, batch: seq<Item>, outs: seq<Output>)
    requires Flushes(c, seri, batch, outs) && batch != [] && (!c.doRollups || c.rollupAndAlpha)
    requires c.sampleRate > 1 && |batch| > c.sampleMin && forall items :: seri(items)
    ensures |Flat(outs)| == KeptOf(c, |batch|)
  {
    var order :| Sampled(c, seri, batch, order, outs);
    var kept := AllScaled(order, c.sampleRate)[..KeptOf(c, |order|)];
    SplitsArePartition(kept, seri, outs);
    assert |multiset(Flat(outs))| == |multiset(kept)|;
  }

  /** Any other batch is sent as it is, every item of every company that serializes. */
  lemma {:induction false} UnsampledSent(c: Config, seri: seq<Item> -> bool, batch: seq<Item>, outs: seq<Output>, x: Item)
    requires Flushes(c, seri, batch, outs) && (!c.doRollups || c.rollupAndAlpha)
    requires c.sampleRate <= 1 || |batch| <= c.sampleMin
    ensures (exists o :: o in outs && x in o.items) <==> x in batch && seri(ForCompany(batch, x.flow.company))
  {
    hide ForCompany;
    if o :| o in outs && x in o.items {
      MembersOf(batch, o.company, x);
    }
    if x in batch && seri(ForCompany(batch, x.flow.company)) {
      MembersOf(batch, x.flow.company, x);
      assert Output(x.flow.company, ForCompany(batch, x.flow.company)) in outs;
    }
  }

  // Order and contents --------------------------------------------------------------------------

  /** The flows of a batch of one company are sent in their order. */
  lemma {:induction false} OneCompany(items: seq<Item>, c: nat)
    requires forall x :: x in items ==> x.flow.company == c
    ensures ForCompany(items, c) == items
  {
    if items != [] {
      var init := items[..|items| - 1];
      assert items == init + [items[|items| - 1]];
      OneCompany(init, c);
    }
  }

  /** A flow starts with its own sample rate and nothing added, and enrichment adds what is found for it. */
  lemma {:induction false} ItemsStart(c: Config, f: Flow)
    ensures NewItem(f) == Item(f, f.sampleRate, "")
    ensures Enriched(c, NewItem(f)) == Item(f, f.sampleRate, if c.enrich.Some? then c.enrich.value(f) else "")
  {
  }
}
