/** An export in NetFlow format from the batch to what a collector has read: the limit of config.go, the
    splitting of pkg/cat/kkc.go and the messages of pkg/formats/netflow. */
module NetflowExport {
  import opened FlowRecord
  import opened NetflowWire
  import opened NetflowReader
  import opened NetflowRoundTrip
  import opened ExportSpans

  const MaxNetflowsPerMessage: nat := 510

  /** What LoadConfig makes of the configured limit. */
  function LoadedLimit(n: int): int {
    if n <= 0 || n > MaxNetflowsPerMessage then MaxNetflowsPerMessage else n
  }

  /** A limit from 1 to 510 is taken as it is, and 510 for any other. However often it shrinks, it stays between 1
      and 510. */
  lemma {:induction false} LimitStays(n: int, k: nat)
    ensures LoadedLimit(n) == if 1 <= n <= 510 then n else 510
    ensures 1 <= ShrunkTimes(LoadedLimit(n), k) <= 510
  {
    ShrinkBound(LoadedLimit(n), k);
  }

  /** A collector that reads the messages of all spans in turn. */
  function ReadAll(flows: seq<Flow>, spans: seq<Span>, t: Tables, session: Session): Outcome<seq<Flow>>
    requires t.Ours() && forall s :: s in spans ==> s.first <= s.end <= |flows|
  {
    if spans == [] then Done([])
    else
      var (read, session') := From(IpfixMessage(flows[spans[0].first..spans[0].end], t), t.protocols, session);
      match read
      case Done(some) =>
        (match ReadAll(flows, spans[1..], t, session')
         case Done(rest) => Done(some + rest)
         case other => other)
      case other => other
  }

  lemma {:induction false} ReadsWhatIsReceived(flows: seq<Flow>, spans: seq<Span>, from: nat, keep: nat, b: nat,
                                               t: Tables, session: Session)
    requires t.Ours() && 0 < b <= MaxNetflowsPerMessage && from <= keep <= |flows| && Cuts(spans, from, keep, b)
    ensures forall s :: s in spans ==> s.first <= s.end <= |flows|
    ensures ReadAll(flows, spans, t, session) == Done(ReceivedAll(flows[from..keep], t.protocols))
    decreases |spans|
  {
    hide From, IpfixMessage, ReceivedAll, OurTemplate;
    CutsBounds(spans, from, keep, b);
    if spans == [] {
      assert flows[from..keep] == [];
      ReceivedConcat([], [], t.protocols);
    } else {
      var part, after := flows[spans[0].first..spans[0].end], spans[0].end;
      IpfixRoundTrip(part, t, session);
      ShortIsKept(part);
      ReadsWhatIsReceived(flows, spans[1..], after, keep, b, t, session[(0, TEMPLATE_ID) := OurTemplate(Ipfix, t)]);
      ReceivedConcat(part, flows[after..keep], t.protocols);
      assert flows[from..keep] == part + flows[after..keep];
    }
  }

  lemma {:induction false} ReceivedConcat(x: seq<Flow>, y: seq<Flow>, p: Protocols)
    ensures ReceivedAll(x + y, p) == ReceivedAll(x, p) + ReceivedAll(y, p)
    ensures ReceivedAll([], p) == []
  {
  }

  lemma {:induction false} ShortIsKept(part: seq<Flow>)
    requires |part| <= 511
    ensures part[..IpfixKept(|part|)] == part
  {
  }

  /**
   The export as a whole: under any limit that a configuration can load and any number of shrinks, reading the
   messages of the batch gives back the kept flows, in order and none missing, exactly if all are in range.
   */
  lemma {:induction false} ExportIsReadBackIff(flows: seq<Flow>, keep: nat, limit: int, shrinks: nat,
                                               spans: seq<Span>, t: Tables, session: Session)
    requires t.protocols.Valid() && t.Ours() && keep <= |flows|
    requires Cuts(spans, 0, keep, Effective(ShrunkTimes(LoadedLimit(limit), shrinks)))
    ensures forall s :: s in spans ==> s.first <= s.end <= |flows|
    ensures ReadAll(flows, spans, t, session) == Done(CarriedAll(flows[..keep])) <==> AllInRange(flows[..keep], t.protocols)
  {
    LimitStays(limit, shrinks);
    ReadsWhatIsReceived(flows, spans, 0, keep, ShrunkTimes(LoadedLimit(limit), shrinks), t, session);
    assert flows[0..keep] == flows[..keep] == flows[..keep][..keep];
    ReceivedAllIsCarriedIff(flows[..keep], keep, t.protocols);
  }
}
