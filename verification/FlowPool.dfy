/**
 One worker of pkg/cat/kentik.go, monitorAlphaChan, with its pool of objects: objects come from a channel of
 8000 that is filled once, are batched and given back. The worker has its pool to itself.
 */
module FlowPool {
  import opened FlowBatch
  import opened ExportSpans

  /** CHAN_SLACK */
  const SLACK: nat := 8000

  class Message {
    var item: Item

    constructor ()
      ensures item == Blank
    {
      item := Blank;
    }
  }

  function Items(msgs: seq<Message>): (items: seq<Item>)
    reads set m | m in msgs
    ensures |items| == |msgs|
    ensures forall i :: 0 <= i < |msgs| ==> items[i] == msgs[i].item
  {
    seq(|msgs|, i requires 0 <= i < |msgs| reads set m | m in msgs => msgs[i].item)
  }

  function FlowsOf(items: seq<Item>): (flows: seq<Flow>)
    ensures |flows| == |items|
    ensures forall i :: 0 <= i < |items| ==> flows[i] == items[i].flow
  {
    seq(|items|, i requires 0 <= i < |items| => items[i].flow)
  }

  /** What has become of the flows taken from the channel. */
  datatype Book = Book(taken: seq<Flow>, flushed: seq<Flow>, filtered: seq<Flow>, errored: seq<Flow>,
                       requeued: seq<Flow>, lost: seq<Flow>)

  /** What a flush hands to the rollups: the whole batch, before any sampling. */
  function HandedOn(c: Config, batch: seq<Item>): seq<seq<Item>> { if batch != [] && c.doRollups then [batch] else [] }

  function RolledFlows(rolled: seq<seq<Item>>): seq<Flow> {
    if rolled == [] then [] else RolledFlows(rolled[..|rolled| - 1]) + FlowsOf(rolled[|rolled| - 1])
  }

  /** The rollups have had every flow that was flushed once, in order, whether it was sampled out or not. */
  predicate Rolled(c: Config, rolled: seq<seq<Item>>, flushed: seq<Flow>) {
    if c.doRollups then RolledFlows(rolled) == flushed else rolled == []
  }

  lemma {:induction false} RolledMore(c: Config, rolled: seq<seq<Item>>, flushed: seq<Flow>, batch: seq<Item>)
    requires Rolled(c, rolled, flushed)
    ensures Rolled(c, rolled + HandedOn(c, batch), flushed + FlowsOf(batch))
  {
    assert (rolled + [batch])[..|rolled|] == rolled;
    assert rolled + [] == rolled && (batch == [] ==> flushed + FlowsOf(batch) == flushed);
  }

  /** Every flow taken is in the batch or has had exactly one of five ends. */
  ghost predicate Accounted(b: Book, batched: seq<Flow>) {
    multiset(b.taken)
    == multiset(batched) + multiset(b.flushed) + multiset(b.filtered) + multiset(b.errored)
       + multiset(b.requeued) + multiset(b.lost)
  }

  lemma {:induction false} TakenErrored(b: Book, batched: seq<Flow>, f: Flow)
    requires Accounted(b, batched)
    ensures Accounted(b.(taken := b.taken + [f], errored := b.errored + [f]), batched)
    ensures Accounted(b.(taken := b.taken + [f], filtered := b.filtered + [f]), batched)
    ensures Accounted(b.(taken := b.taken + [f]), batched + [f])
  {
  }

  lemma {:induction false} BatchFlushed(b: Book, batched: seq<Flow>)
    requires Accounted(b, batched)
    ensures Accounted(b.(flushed := b.flushed + batched), [])
  {
  }

  /** The books after a flow is put back, or lost. */
  function Again(b: Book, f: Flow, room: bool): Book {
    if room then b.(taken := b.taken + [f], requeued := b.requeued + [f])
    else b.(taken := b.taken + [f], lost := b.lost + [f])
  }

  lemma {:induction false} TakenAgain(b: Book, f: Flow)
    requires Accounted(b, [])
    ensures forall room :: Accounted(Again(b, f, room), [])
  {
    var again := Again(b, f, true);
    assert Accounted(again, []);
    assert Accounted(Again(b, f, false), []);
  }

  lemma {:induction false} RequeuedIs(b: Book, batched: seq<Flow>, f: Flow)
    ensures forall room :: Requeued(b, batched, f, room) == Again(b.(flushed := b.flushed + batched), f, room)
  {
  }

  function Larger(a: int, b: int): int { if a < b then b else a }

  /** rand.Shuffle: any permutation may come out. */
  method Shuffle(msgs: seq<Message>) returns (out: seq<Message>)
    ensures |out| == |msgs| && multiset(out) == multiset(msgs)
    ensures multiset(Items(out)) == multiset(Items(msgs))
  {
    out := msgs;
    var i := |msgs|;
    while i > 1
      invariant |out| == |msgs| && i <= |msgs|
      invariant multiset(out) == multiset(msgs) && multiset(Items(out)) == multiset(Items(msgs))
    {
      i := i - 1;
      var j: nat :| j <= i;
      Swapped(out, i, j);
      out := out[i := out[j]][j := out[i]];
    }
  }

  lemma {:induction false} Swapped(s: seq<Message>, i: nat, j: nat)
    requires i < |s| && j < |s|
    ensures var t := s[i := s[j]][j := s[i]];
            multiset(t) == multiset(s) && multiset(Items(t)) == multiset(Items(s))
  {
    var t := s[i := s[j]][j := s[i]];
    assert Items(t) == Items(s)[i := Items(s)[j]][j := Items(s)[i]];
  }

  lemma {:induction false} DistinctMembers(msgs: seq<Message>, objects: set<Message>)
    requires multiset(msgs) <= multiset(objects)
    ensures forall m :: m in msgs ==> m in objects
    ensures forall i, j :: 0 <= i < j < |msgs| ==> msgs[i] != msgs[j]
  {
    forall m | m in msgs ensures m in objects {
      assert multiset(msgs)[m] > 0;
    }
    forall i, j | 0 <= i < j < |msgs| ensures msgs[i] != msgs[j] {
      TwiceCounts(msgs, i, j);
      assert multiset(objects)[msgs[i]] <= 1;
    }
  }

  lemma {:induction false} TwiceCounts(msgs: seq<Message>, i: nat, j: nat)
    requires i < j < |msgs|
    ensures msgs[i] == msgs[j] ==> multiset(msgs)[msgs[i]] >= 2
  {
    assert msgs == msgs[..j] + [msgs[j]] + msgs[j + 1..];
    assert msgs[i] in msgs[..j] by {
      assert msgs[..j][i] == msgs[i];
    }
    assert multiset(msgs[..j])[msgs[i]] >= 1;
  }

  class Worker {
    const config: Config
    const converts: Flow -> bool
    const filters: seq<Flow -> bool>
    const seri: seq<Item> -> bool
    ghost const objects: set<Message>
    ghost const limit: int
    var maxFlowsPerMessage: int
    var pool: seq<Message>
    var alpha: seq<Flow>
    var msgs: seq<Message>
    var sent: seq<Output>
    var rolled: seq<seq<Item>>
    var dropped: nat
    ghost var book: Book

    /** Free and batched objects together are always the 8000 objects, each once. */
    ghost predicate Conserved()
      reads this`pool, this`msgs
    {
      && multiset(pool) + multiset(msgs) == multiset(objects) && |objects| == SLACK
      && (forall m :: m in msgs ==> m in objects)
    }

    ghost predicate Booked()
      reads this, objects
      reads set m | m in msgs
    {
      && |alpha| <= SLACK && maxFlowsPerMessage <= Larger(limit, 1) && |msgs| <= Larger(limit, 1)
      && dropped == |book.lost|
      && Accounted(book, FlowsOf(Items(msgs))) && Rolled(config, rolled, book.flushed)
    }

    ghost predicate Sound()
      reads this, objects
    {
      Conserved() && Booked()
    }

    ghost predicate Valid()
      reads this, objects
    {
      Sound() && |msgs| < Larger(limit, 1)
    }

    constructor (c: Config, conv: Flow -> bool, fs: seq<Flow -> bool>, ser: seq<Item> -> bool, max: int)
      ensures Valid() && fresh(objects) && limit == max == maxFlowsPerMessage
      ensures config == c && converts == conv && filters == fs && seri == ser
      ensures |pool| == 8000 && msgs == [] && alpha == [] && sent == [] && rolled == [] && dropped == 0
      ensures book == Book([], [], [], [], [], [])
    {
      var free: seq<Message> := [];
      ghost var all: set<Message> := {};
      for j := 0 to SLACK
        invariant |free| == |all| == j && multiset(free) == multiset(all) && fresh(all)
      {
        var m := new Message();
        free, all := free + [m], all + {m};
      }
      config, converts, filters, seri := c, conv, fs, ser;
      objects, limit, maxFlowsPerMessage := all, max, max;
      pool, alpha, msgs, sent, rolled, dropped := free, [], [], [], [], 0;
      book := Book([], [], [], [], [], []);
    }

    /** Hands an object back. The send never blocks: the pool has room. */
    method Give(m: Message)
      requires |pool| < SLACK
      modifies this`pool, m
      ensures pool == old(pool) + [m] && m.item == Blank
    {
      m.item := Blank;
      pool := pool + [m];
    }

    lemma {:induction false} Counts()
      requires Conserved()
      ensures |pool| + |msgs| == 8000
      ensures forall m :: m in msgs || m in pool ==> m in objects
      ensures forall i, j :: 0 <= i < j < |msgs| ==> msgs[i] != msgs[j]
      ensures forall m :: m in pool ==> m !in msgs
    {
      assert |multiset(pool) + multiset(msgs)| == |multiset(objects)|;
      assert multiset(msgs) <= multiset(objects) && multiset(pool) <= multiset(objects);
      DistinctMembers(msgs, objects);
      DistinctMembers(pool, objects);
      forall m | m in pool ensures m !in msgs {
        assert multiset(objects)[m] <= 1 && multiset(pool)[m] >= 1;
        assert m in msgs ==> multiset(msgs)[m] >= 1;
      }
    }

    /** Shuffles the batch and scales the sample rates. */
    method Sample() returns (ghost order: seq<Item>)
      requires Conserved()
      modifies this`msgs, objects
      ensures Conserved() && |msgs| == |old(msgs)| == |order|
      ensures multiset(order) == multiset(old(Items(msgs)))
      ensures Items(msgs) == AllScaled(order, config.sampleRate)
    {
      msgs := Shuffle(msgs);
      order := Items(msgs);
      assert forall m :: m in msgs <==> m in multiset(msgs);
      Scale();
    }

    method Scale()
      requires Conserved()
      modifies objects
      ensures Items(msgs) == AllScaled(old(Items(msgs)), config.sampleRate)
    {
      Counts();
      hide Conserved, Scaled;
      var i := 0;
      while i < |msgs|
        invariant i <= |msgs|
        invariant forall j :: 0 <= j < i ==> msgs[j].item == Scaled(old(msgs[j].item), config.sampleRate)
        invariant forall j :: i <= j < |msgs| ==> msgs[j].item == old(msgs[j].item)
        modifies objects
      {
        msgs[i].item := Scaled(msgs[i].item, config.sampleRate);
        i := i + 1;
      }
    }

    /** Gives back every object of the batch. */
    method GiveBack()
      requires Conserved()
      modifies this`pool, this`msgs, objects
      ensures Conserved() && msgs == [] && |pool| == SLACK
    {
      Counts();
      ghost var free := pool;
      var i := 0;
      while i < |msgs|
        invariant i <= |msgs| && pool == free + msgs[..i]
        modifies this`pool, objects
      {
        assert msgs[..i + 1] == msgs[..i] + [msgs[i]];
        Give(msgs[i]);
        i := i + 1;
      }
      assert msgs[..i] == msgs;
      msgs := [];
      Counts();
    }

    /** sendBytesOn */
    method SendBytesOn() returns (ghost outs: seq<Output>)
      requires Sound()
      modifies this`pool, this`msgs, this`sent, this`rolled, this`book, objects
      ensures Valid() && msgs == [] && |pool| == SLACK
      ensures rolled == old(rolled) + HandedOn(config, AllEnriched(config, old(Items(msgs))))
      ensures book == old(book).(flushed := old(book.flushed) + old(FlowsOf(Items(msgs))))
      ensures sent == old(sent) + outs && Flushes(config, seri, AllEnriched(config, old(Items(msgs))), outs)
    {
      hide Flushes, Samples, Accounted, Rolled, HandedOn, Enriched, AllEnriched, FlowsOf, Conserved;
      Enter();
      outs := Send();
      GiveBack();
      NoItems(msgs);
    }

    /** What comes first: enrichment and the rollups. The flows are booked as flushed. */
    method Enter()
      requires Sound()
      modifies this`rolled, this`book, objects
      ensures Conserved() && Items(msgs) == AllEnriched(config, old(Items(msgs)))
      ensures rolled == old(rolled) + HandedOn(config, AllEnriched(config, old(Items(msgs))))
      ensures book == old(book).(flushed := old(book.flushed) + old(FlowsOf(Items(msgs))))
      ensures Accounted(book, []) && Rolled(config, rolled, book.flushed)
    {
      hide Accounted, Rolled, HandedOn, Enriched;
      ghost var batch := Items(msgs);
      SameFlows(config, batch);
      BatchFlushed(book, FlowsOf(batch));
      RolledMore(config, rolled, book.flushed, AllEnriched(config, batch));
      book := book.(flushed := book.flushed + FlowsOf(batch));
      Enrich();
      HandOn();
    }

    /** doEnrichments, which changes the objects in place. */
    method Enrich()
      requires Conserved()
      modifies objects
      ensures Conserved() && Items(msgs) == AllEnriched(config, old(Items(msgs)))
    {
      Counts();
      hide Conserved, Enriched;
      if config.enrich.Some? {
        var i := 0;
        while i < |msgs|
          invariant i <= |msgs|
          invariant forall j :: 0 <= j < i ==> msgs[j].item == Enriched(config, old(msgs[j].item))
          invariant forall j :: i <= j < |msgs| ==> msgs[j].item == old(msgs[j].item)
          modifies objects
        {
          msgs[i].item := Enriched(config, msgs[i].item);
          i := i + 1;
        }
      } else {
        NotEnriched(config, Items(msgs));
      }
    }

    /** The batch goes to the rollups. */
    method HandOn()
      modifies this`rolled
      ensures rolled == old(rolled) + HandedOn(config, Items(msgs))
    {
      if |msgs| > 0 && config.doRollups {
        rolled := rolled + [Items(msgs)];
      }
    }

    /** What sendBytesOn sends. */
    method Send() returns (outs: seq<Output>)
      requires Conserved()
      modifies this`msgs, this`sent, objects
      ensures Conserved() && sent == old(sent) + outs
      ensures Flushes(config, seri, old(Items(msgs)), outs)
    {
      outs := [];
      if |msgs| > 0 && (!config.doRollups || config.rollupAndAlpha) {
        var keep := |msgs|;
        ghost var batch := Items(msgs);
        if config.sampleRate > 1 && keep > config.sampleMin {
          ghost var order := Sample();
          keep := KeptOf(config, |msgs|);
          outs := Serialized(keep);
          assert Sampled(config, seri, batch, order, outs);
        } else {
          outs := Serialized(keep);
          assert Items(msgs)[..keep] == batch;
        }
      }
      sent := sent + outs;
    }

    method Serialized(keep: nat) returns (outs: seq<Output>)
      requires keep <= |msgs|
      ensures Splits(Items(msgs)[..keep], seri, outs)
    {
      var items := Items(msgs)[..keep];
      var splits := SplitByCompany(items);
      outs := Serialize(splits, seri, items);
    }

    /** A flow from the channel. Where the pool is empty, a flush refills it and the flow goes back to the end
        of the channel, behind what came in meanwhile, if there is room; if not it is counted as dropped. */
    method OnFlow(arrivals: seq<Flow>) returns (ghost outs: seq<Output>)
      requires Valid() && alpha != [] && |alpha| - 1 + |arrivals| <= SLACK
      modifies this, objects
      ensures Valid() && sent == old(sent) + outs
      ensures |old(pool)| == 0 ==>
                && |pool| == 8000 && Flushes(config, seri, AllEnriched(config, old(Items(msgs))), outs)
                && rolled == old(rolled) + HandedOn(config, AllEnriched(config, old(Items(msgs))))
                && book == Requeued(old(book), old(FlowsOf(Items(msgs))), old(alpha[0]), |old(alpha[1..]) + arrivals| < 8000)
                && alpha == old(alpha[1..]) + arrivals
                            + if |old(alpha[1..]) + arrivals| < 8000 then [old(alpha[0])] else []
      ensures |old(pool)| > 0 ==>
                && alpha == old(alpha[1..])
                && Takes(Settings(config, converts, filters, seri, old(maxFlowsPerMessage)),
                         old(alpha[0]), old(Items(msgs)), old(book), Items(msgs), book, outs, old(rolled), rolled)
    {
      hide Flushes, Accounted, Takes, Conserved, Items, FlowsOf, Requeued, Rolled, HandedOn;
      var f := alpha[0];
      alpha := alpha[1..];
      if |pool| == 0 {
        outs := Refill(f, arrivals);
      } else {
        outs := Take(f);
      }
    }

    /** The default arm: out of objects. */
    method Refill(f: Flow, arrivals: seq<Flow>) returns (ghost outs: seq<Output>)
      requires Valid() && |alpha| + |arrivals| <= SLACK
      modifies this, objects
      ensures Valid() && sent == old(sent) + outs
      ensures |pool| == SLACK && Flushes(config, seri, AllEnriched(config, old(Items(msgs))), outs)
      ensures rolled == old(rolled) + HandedOn(config, AllEnriched(config, old(Items(msgs))))
      ensures book == Requeued(old(book), old(FlowsOf(Items(msgs))), f, |old(alpha) + arrivals| < SLACK)
      ensures alpha == QueueAfter(old(alpha) + arrivals, f)
    {
      hide Flushes, Accounted, Conserved, Items, FlowsOf, QueueAfter, Requeued, Rolled, HandedOn;
      RequeuedIs(book, FlowsOf(Items(msgs)), f);
      outs := SendBytesOn();
      NoItems(msgs);
      TakenAgain(book, f);
      alpha := alpha + arrivals;
      Requeue(f);
    }

    /** The non-blocking send back to the channel. */
    method Requeue(f: Flow)
      requires |alpha| <= SLACK
      modifies this`alpha, this`dropped, this`book
      ensures alpha == QueueAfter(old(alpha), f) && |alpha| <= SLACK
      ensures book == Again(old(book), f, |old(alpha)| < SLACK)
      ensures dropped - old(dropped) == |book.lost| - |old(book.lost)|
    {
      if |alpha| < SLACK {
        alpha := alpha + [f];
      } else {
        dropped := dropped + 1;
      }
      book := Again(book, f, |old(alpha)| < SLACK);
    }

    method Take(f: Flow) returns (ghost outs: seq<Output>)
      requires Valid() && |pool| > 0
      modifies this, objects
      ensures Valid() && sent == old(sent) + outs && alpha == old(alpha)
      ensures Takes(Settings(config, converts, filters, seri, old(maxFlowsPerMessage)),
                    f, old(Items(msgs)), old(book), Items(msgs), book, outs, old(rolled), rolled)
    {
      hide Flushes, Accounted, Conserved, Items, FlowsOf, Rolled, HandedOn, Booked;
      IsBooked();
      TakenErrored(book, FlowsOf(Items(msgs)), f);
      var jflow := Acquire(NewItem(f));
      var keep, after := Admit(f);
      if keep {
        outs := Keep(jflow, f);
      } else {
        outs := [];
        Toss(jflow, after);
      }
    }

    /** The conversion and the filters; `after` are the books if one of them refuses the flow. */
    method Admit(f: Flow) returns (keep: bool, ghost after: Book)
      ensures keep == (converts(f) && Keeps(filters, f))
      ensures after == if converts(f) then book.(taken := book.taken + [f], filtered := book.filtered + [f])
                       else book.(taken := book.taken + [f], errored := book.errored + [f])
    {
      if converts(f) {
        keep := Filter(f);
        after := book.(taken := book.taken + [f], filtered := book.filtered + [f]);
      } else {
        keep, after := false, book.(taken := book.taken + [f], errored := book.errored + [f]);
      }
    }

    lemma {:induction false} IsBooked()
      requires Booked()
      ensures Accounted(book, FlowsOf(Items(msgs)))
    {
    }

    /** An error, or a flow that a filter refuses: the object goes back. */
    method Toss(m: Message, ghost after: Book)
      requires Loose(m) && Booked() && |msgs| < Larger(limit, 1)
      requires Accounted(after, FlowsOf(Items(msgs))) && after.flushed == book.flushed && after.lost == book.lost
      modifies this`pool, this`book, m
      ensures Valid() && Items(msgs) == old(Items(msgs)) && book == after
    {
      hide Accounted, Rolled, Conserved;
      Return(m);
      book := after;
    }

    /** The object joins the batch, which goes out when it is full. */
    method Keep(m: Message, f: Flow) returns (ghost outs: seq<Output>)
      requires Loose(m) && Booked() && |msgs| < Larger(limit, 1) && m.item == NewItem(f)
      modifies this, objects
      ensures Valid() && sent == old(sent) + outs && alpha == old(alpha)
      ensures var batch, b := old(Items(msgs)) + [old(m.item)], old(book).(taken := old(book).taken + [f]);
              if |batch| >= old(maxFlowsPerMessage) then
                && Flushes(config, seri, AllEnriched(config, batch), outs) && Items(msgs) == []
                && book == b.(flushed := b.flushed + FlowsOf(batch)) && rolled == old(rolled) + HandedOn(config, AllEnriched(config, batch))
              else outs == [] && Items(msgs) == batch && book == b && rolled == old(rolled)
    {
      hide Flushes, Accounted, Conserved, Items, FlowsOf, Rolled, HandedOn;
      TakenErrored(book, FlowsOf(Items(msgs)), f);
      FlowsSnoc(Items(msgs), m.item);
      outs := [];
      Batch(m);
      book := book.(taken := book.taken + [f]);
      if |msgs| >= maxFlowsPerMessage {
        outs := SendBytesOn();
        NoItems(msgs);
      }
    }

    /** One object is neither free nor batched. */
    ghost predicate Loose(m: Message)
      reads this`pool, this`msgs
    {
      && multiset(pool) + multiset(msgs) + multiset{m} == multiset(objects) && |objects| == SLACK
      && m in objects && m !in msgs && (forall m' :: m' in msgs ==> m' in objects)
      && |pool| < SLACK
    }

    method Acquire(item: Item) returns (m: Message)
      requires Conserved() && |pool| > 0
      modifies this`pool, objects
      ensures Loose(m) && m.item == item && Items(msgs) == old(Items(msgs))
      ensures old(Booked()) ==> Booked()
    {
      Counts();
      m := pool[0];
      assert pool == [m] + pool[1..];
      pool := pool[1..];
      m.item := item;
    }

    method Return(m: Message)
      requires Loose(m)
      modifies this`pool, m
      ensures Conserved() && Items(msgs) == old(Items(msgs))
    {
      Give(m);
    }

    method Batch(m: Message)
      requires Loose(m)
      modifies this`msgs
      ensures Conserved() && Items(msgs) == old(Items(msgs)) + [m.item] && |msgs| == |old(msgs)| + 1
    {
      msgs := msgs + [m];
    }

    /** Another goroutine sends a flow, without blocking. */
    method Arrive(f: Flow)
      requires Valid()
      modifies this`alpha
      ensures Valid() && alpha == old(alpha) + if |old(alpha)| < 8000 then [f] else []
    {
      if |alpha| < SLACK {
        alpha := alpha + [f];
      }
    }

    /** A sink found a message too big; the limit shrinks under the worker's feet. */
    method TooBig()
      requires Valid()
      modifies this`maxFlowsPerMessage
      ensures Valid() && maxFlowsPerMessage == Shrunk(old(maxFlowsPerMessage))
    {
      maxFlowsPerMessage := Shrunk(maxFlowsPerMessage);
    }

    /** With a limit of at most 8000 a flow always finds an object, so none is ever put back or lost. */
    lemma {:induction false} NeverOutOfObjects()
      requires Valid() && limit <= 8000
      ensures |pool| > 0
    {
      Counts();
    }

    method Filter(f: Flow) returns (keep: bool)
      ensures keep == Keeps(filters, f)
    {
      keep := true;
      var i := 0;
      while i < |filters| && keep
        invariant i <= |filters|
        invariant keep ==> forall j :: 0 <= j < i ==> filters[j](f)
        invariant !keep ==> !Keeps(filters, f)
      {
        if !filters[i](f) {
          keep := false;
        }
        i := i + 1;
      }
    }
  }

  datatype Settings = Settings(config: Config, converts: Flow -> bool, filters: seq<Flow -> bool>, seri: seq<Item> -> bool,
                               maxFlowsPerMessage: int)

  /** What becomes of a flow that finds an object: it is an error, filtered, batched, or completes a batch. */
  ghost predicate Takes(s: Settings, f: Flow, before: seq<Item>, b: Book, after: seq<Item>, b': Book,
                        outs: seq<Output>, rolled: seq<seq<Item>>, rolled': seq<seq<Item>>) {
    var batch := before + [Item(f, f.sampleRate, "")];
    if !s.converts(f) then
      outs == [] && after == before && rolled' == rolled && b' == b.(taken := b.taken + [f], errored := b.errored + [f])
    else if !(forall i :: 0 <= i < |s.filters| ==> s.filters[i](f)) then
      outs == [] && after == before && rolled' == rolled && b' == b.(taken := b.taken + [f], filtered := b.filtered + [f])
    else if |batch| >= s.maxFlowsPerMessage then
      && Flushes(s.config, s.seri, AllEnriched(s.config, batch), outs) && after == []
      && rolled' == rolled + HandedOn(s.config, AllEnriched(s.config, batch))
      && b' == b.(taken := b.taken + [f], flushed := b.flushed + FlowsOf(batch))
    else
      outs == [] && after == batch && rolled' == rolled && b' == b.(taken := b.taken + [f])
  }

  /** No message grows past the limit that the worker started with, whatever the limit has shrunk to. */
  lemma {:induction false} MessagesFit(s: Settings, f: Flow, before: seq<Item>, b: Book, after: seq<Item>, b': Book,
                                       outs: seq<Output>, rolled: seq<seq<Item>>, rolled': seq<seq<Item>>, limit: int)
    requires Takes(s, f, before, b, after, b', outs, rolled, rolled') && |before| < Larger(limit, 1)
    ensures forall o :: o in outs ==> 0 < |o.items| <= Larger(limit, 1)
  {
    hide Flushes, Keeps;
    forall o | o in outs ensures 0 < |o.items| <= Larger(limit, 1) {
      FlushFits(s.config, s.seri, AllEnriched(s.config, before + [NewItem(f)]), outs, o);
    }
  }

  /** Enrichment leaves the flows alone. */
  lemma {:induction false} SameFlows(c: Config, items: seq<Item>)
    ensures FlowsOf(AllEnriched(c, items)) == FlowsOf(items)
  {
  }

  lemma {:induction false} NotEnriched(c: Config, items: seq<Item>)
    requires c.enrich.None?
    ensures AllEnriched(c, items) == items
  {
  }

  lemma {:induction false} FlowsSnoc(items: seq<Item>, item: Item)
    ensures FlowsOf(items + [item]) == FlowsOf(items) + [item.flow]
  {
  }

  lemma {:induction false} NoItems(msgs: seq<Message>)
    requires msgs == []
    ensures Items(msgs) == [] && FlowsOf(Items(msgs)) == []
  {
  }

  predicate Keeps(filters: seq<Flow -> bool>, f: Flow) { forall i :: 0 <= i < |filters| ==> filters[i](f) }

  /** The channel, where a flow is sent only if there is room. */
  function QueueAfter(queue: seq<Flow>, f: Flow): seq<Flow> { if |queue| < 8000 then queue + [f] else queue }

  /** The books after a flow that found no object. */
  function Requeued(b: Book, batched: seq<Flow>, f: Flow, room: bool): Book {
    var b' := b.(taken := b.taken + [f], flushed := b.flushed + batched);
    if room then b'.(requeued := b.requeued + [f]) else b'.(lost := b.lost + [f])
  }
}
