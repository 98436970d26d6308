/** Splitting an export into messages: jchfExportSliceBounds, exportJchfBatches and the shrinking of the
    limit in pkg/cat/kkc.go. */
module ExportSpans {
  import opened Integers

  /** effectiveMaxFlowsPerMessage */
  function Effective(n: int): (b: int)
    ensures b >= 1
  {
    if n <= 0 then 1 else n
  }

  datatype Span = Span(first: nat, end: nat)

  /** `spans` cuts [from, keep) into consecutive pieces of `b`, the last one shorter if need be, none empty. */
  predicate Cuts(spans: seq<Span>, from: nat, keep: nat, b: nat)
    requires b > 0
    decreases |spans|
  {
    if from >= keep then spans == []
    else
      && spans != []
      && spans[0] == Span(from, if from + b < keep then from + b else keep)
      && Cuts(spans[1..], spans[0].end, keep, b)
  }

  /** In int64 the bound of the loop exceeds the largest value. */
  predicate Overflows(batchSize: i64, keep: nat) { keep + Effective(batchSize) > MaxI64 }

  /** The loop, with its bound computed in int64: a bound that overflows is negative, and then there is no
      span at all. */
  method SliceBounds(batchSize: i64, keep: i64) returns (spans: seq<Span>)
    requires keep >= 0
    ensures SpansFor(spans, batchSize, keep)
  {
    var b: i64 := Effective(batchSize);
    spans := [];
    SignedWrapIff(keep + b);
    var last, next: i64 := 0, b;
    var done := false;
    forall more: seq<Span> ensures spans + more == more {
    }
    while !done && next < SignedWrap(keep + b)
      invariant 0 <= last && (!done ==> next == last + b)
      invariant !done && spans != [] ==> last < keep
      invariant if Overflows(batchSize, keep) then spans == [] && !done && last == 0
                else forall more :: Cuts(more, if done then keep else last, keep, b) ==> Cuts(spans + more, 0, keep, b)
      decreases !done, keep - last
    {
      SignedWrapIff(keep + b);
      var batch := next;
      if batch > keep {
        batch := keep;
      }
      ghost var before := spans;
      forall more | Cuts(more, if batch == keep then keep else next, keep, b)
        ensures Cuts(spans + [Span(last, batch)] + more, 0, keep, b)
      {
        assert spans + [Span(last, batch)] + more == spans + ([Span(last, batch)] + more);
        assert ([Span(last, batch)] + more)[1..] == more;
      }
      spans := spans + [Span(last, batch)];
      if batch == keep {
        done := true;
      } else {
        last := next;
        next := next + b;
      }
    }
    if !Overflows(batchSize, keep) {
      assert Cuts([], keep, keep, b);
      assert spans + [] == spans;
    }
  }

  // What the pieces add up to -------------------------------------------------------------------

  /** The elements of all spans, one span after the other. */
  function Pieces<T>(msgs: seq<T>, spans: seq<Span>): seq<T>
    requires forall s :: s in spans ==> s.first <= s.end <= |msgs|
  {
    if spans == [] then [] else msgs[spans[0].first..spans[0].end] + Pieces(msgs, spans[1..])
  }

  lemma {:induction false} CutsBounds(spans: seq<Span>, from: nat, keep: nat, b: nat)
    requires b > 0 && Cuts(spans, from, keep, b)
    ensures forall s :: s in spans ==> from <= s.first < s.end <= keep && s.end - s.first <= b
    decreases |spans|
  {
    if spans != [] {
      CutsBounds(spans[1..], spans[0].end, keep, b);
      assert spans == [spans[0]] + spans[1..];
    }
  }

  /** The spans are an exact ordered partition: nothing is lost, repeated or moved. */
  lemma {:induction false} CutsCover<T>(msgs: seq<T>, spans: seq<Span>, from: nat, keep: nat, b: nat)
    requires b > 0 && Cuts(spans, from, keep, b) && from <= keep <= |msgs|
    ensures forall s :: s in spans ==> s.first <= s.end <= |msgs|
    ensures Pieces(msgs, spans) == msgs[from..keep]
    decreases |spans|
  {
    CutsBounds(spans, from, keep, b);
    if spans != [] {
      CutsCover(msgs, spans[1..], spans[0].end, keep, b);
    }
  }

  /** Rounding up. */
  function CeilDiv(n: nat, b: nat): nat
    requires b > 0
  {
    (n + b - 1) / b
  }

  lemma {:induction false} CeilStep(n: nat, b: nat)
    requires b > 0 && n > 0
    ensures CeilDiv(n, b) == 1 + if n <= b then 0 else CeilDiv(n - b, b)
  {
    var q, r := (n - 1) / b, (n - 1) % b;
    DivUnique(n + b - 1, b, q + 1, r);
    if n <= b {
      DivUnique(n - 1, b, 0, n - 1);
    }
  }

  lemma {:induction false} CutsCount(spans: seq<Span>, from: nat, keep: nat, b: nat)
    requires b > 0 && from <= keep && Cuts(spans, from, keep, b)
    ensures |spans| == CeilDiv(keep - from, b)
    decreases |spans|
  {
    if from < keep {
      CeilStep(keep - from, b);
      CutsCount(spans[1..], spans[0].end, keep, b);
      if spans[0].end == keep {
        DivUnique(b - 1, b, 0, b - 1);
      }
    } else {
      DivUnique(b - 1, b, 0, b - 1);
    }
  }

  lemma {:induction false} CeilDivIs(n: nat, b: nat)
    requires b > 0
    ensures var q := CeilDiv(n, b); (q - 1) * b < n <= q * b || (n == 0 && q == 0)
  {
    if n == 0 {
      DivUnique(b - 1, b, 0, b - 1);
    } else {
      var q, r := (n - 1) / b, (n - 1) % b;
      DivUnique(n + b - 1, b, q + 1, r);
      assert (q + 1) * b == q * b + b;
    }
  }

  /** The limit as it counts: a batch of one where none, or a negative one, is set. */
  function Limit(batchSize: i64): int { if batchSize <= 0 then 1 else batchSize }

  /** The whole of [0, keep) is exported, in ceil(keep / b) messages, exactly if there is nothing to export or
      the bound of the loop fits; otherwise nothing is exported. */
  lemma {:induction false} ExportedIff(batchSize: i64, keep: i64, spans: seq<Span>)
    requires keep >= 0 && SpansFor(spans, batchSize, keep)
    ensures Cuts(spans, 0, keep, Limit(batchSize)) <==> keep == 0 || keep + Limit(batchSize) < 0x8000_0000_0000_0000
    ensures !Cuts(spans, 0, keep, Limit(batchSize)) ==> spans == []
    ensures keep == 0 ==> spans == []
    ensures keep > 0 && keep + Limit(batchSize) < 0x8000_0000_0000_0000 ==>
              (|spans| - 1) * Limit(batchSize) < keep <= |spans| * Limit(batchSize)
  {
    if !Overflows(batchSize, keep) || keep == 0 {
      CutsCount(spans, 0, keep, Effective(batchSize));
      CeilDivIs(keep, Effective(batchSize));
    }
  }

  // Serializing ---------------------------------------------------------------------------------

  datatype Serialized<T> = Output(content: T) | Nothing | Failed

  function Sent<T>(ser: Serialized<T>): seq<T> {
    match ser case Output(out) => [out] case _ => []
  }

  function Outputs<M, T>(msgs: seq<M>, spans: seq<Span>, seri: seq<M> -> Serialized<T>): seq<T>
    requires forall s :: s in spans ==> s.first <= s.end <= |msgs|
  {
    if spans == [] then []
    else
      var s := spans[|spans| - 1];
      Outputs(msgs, spans[..|spans| - 1], seri) + Sent(seri(msgs[s.first..s.end]))
  }

  lemma {:induction false} OutputsSnoc<M, T>(msgs: seq<M>, spans: seq<Span>, s: Span, seri: seq<M> -> Serialized<T>)
    requires forall s' :: s' in spans + [s] ==> s'.first <= s'.end <= |msgs|
    ensures forall s' :: s' in spans ==> s' in spans + [s]
    ensures Outputs(msgs, spans + [s], seri) == Outputs(msgs, spans, seri) + Sent(seri(msgs[s.first..s.end]))
  {
    assert (spans + [s])[..|spans|] == spans;
  }

  /** What the loop of SliceBounds makes of a limit and a number of flows. */
  /** Where every piece gives an output, there is one for each, in order; those that fail or are empty are left out. */
  lemma {:induction false} OutputsAre<M, T>(msgs: seq<M>, spans: seq<Span>, seri: seq<M> -> Serialized<T>)
    requires forall s :: s in spans ==> s.first <= s.end <= |msgs|
    ensures (forall s :: s in spans ==> seri(msgs[s.first..s.end]).Output?) ==>
              && |Outputs(msgs, spans, seri)| == |spans|
              && forall i :: 0 <= i < |spans| ==>
                   Outputs(msgs, spans, seri)[i] == seri(msgs[spans[i].first..spans[i].end]).content
    ensures (forall s :: s in spans ==> !seri(msgs[s.first..s.end]).Output?) ==> Outputs(msgs, spans, seri) == []
  {
    if spans != [] {
      var init, last := spans[..|spans| - 1], spans[|spans| - 1];
      assert spans == init + [last];
      OutputsAre(msgs, init, seri);
    }
  }

  ghost predicate SpansFor(spans: seq<Span>, batchSize: i64, keep: nat) {
    if Overflows(batchSize, keep) then spans == [] else Cuts(spans, 0, keep, Effective(batchSize))
  }

  /** `sent` holds the outputs of the pieces, in order, without those that failed. */
  ghost predicate Exports<M, T>(sent: seq<T>, spans: seq<Span>, batchSize: i64, msgs: seq<M>, keep: nat,
                                seri: seq<M> -> Serialized<T>)
  {
    && SpansFor(spans, batchSize, keep)
    && (forall s :: s in spans ==> s.first <= s.end <= |msgs|)
    && sent == Outputs(msgs, spans, seri)
  }

  /** exportJchfBatches */
  method ExportBatches<M, T>(maxFlowsPerMessage: i64, msgs: seq<M>, keep: i64, seri: seq<M> -> Serialized<T>)
    returns (sent: seq<T>)
    requires 0 <= keep <= |msgs|
    ensures exists spans :: Exports(sent, spans, maxFlowsPerMessage, msgs, keep, seri)
  {
    var bounds := SliceBounds(maxFlowsPerMessage, keep);
    if !Overflows(maxFlowsPerMessage, keep) {
      CutsBounds(bounds, 0, keep, Effective(maxFlowsPerMessage));
    }
    sent := [];
    for i := 0 to |bounds|
      invariant forall s :: s in bounds[..i] ==> s.first <= s.end <= |msgs|
      invariant sent == Outputs(msgs, bounds[..i], seri)
    {
      var s := bounds[i];
      assert bounds[..i + 1] == bounds[..i] + [s];
      OutputsSnoc(msgs, bounds[..i], s, seri);
      var ser := seri(msgs[s.first..s.end]);
      if ser.Output? {
        sent := sent + [ser.content];
      }
    }
    assert bounds[..|bounds|] == bounds;
    assert Exports(sent, bounds, maxFlowsPerMessage, msgs, keep, seri);
  }

  // The limit -----------------------------------------------------------------------------------

  /** The step for a message that was too big: three quarters, but at least one. */
  function Shrunk(n: int): int { if 3 * n / 4 < 1 then 1 else 3 * n / 4 }

  /** Each shrink takes away a quarter, rounded up. */
  lemma {:induction false} ShrunkIs(n: int)
    requires n >= 2
    ensures var quarter := n - Shrunk(n); n <= 4 * quarter < n + 4
  {
  }

  function ShrunkTimes(n: int, k: nat): int { if k == 0 then n else Shrunk(ShrunkTimes(n, k - 1)) }

  /** From one or more, any number of shrinks stays at one or more and never grows; it shrinks strictly until
      it has reached one, which n - 1 shrinks suffice for. */
  lemma {:induction false} ShrinksToOne(n: int, k: nat)
    requires n >= 1
    ensures 1 <= ShrunkTimes(n, k + 1) <= ShrunkTimes(n, k) <= n
    ensures ShrunkTimes(n, k) > 1 ==> ShrunkTimes(n, k + 1) < ShrunkTimes(n, k)
    ensures k >= n - 1 ==> ShrunkTimes(n, k) == 1
  {
    ShrinkBound(n, k);
  }

  lemma {:induction false} ShrinkBound(n: int, k: nat)
    requires n >= 1
    ensures 1 <= ShrunkTimes(n, k) <= if n - k < 1 then 1 else n - k
  {
    if k > 0 {
      ShrinkBound(n, k - 1);
    }
  }
}
