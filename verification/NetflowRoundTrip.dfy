/**
 Writing flows and reading them back. The main results are `IpfixRoundTrip` and `V9RoundTrip`, which
 say for every list of flows and every reader session exactly what comes out.
 */
module NetflowRoundTrip {
  import opened Integers
  import opened Options
  import opened BigEndian
  import opened FlowRecord
  import opened NetflowWire
  import opened NetflowReader

  // Templates -----------------------------------------------------------------------------------

  function SpecsOf(fields: seq<Field>): (s: seq<Specifier>)
    ensures |s| == |fields|
    ensures forall i :: 0 <= i < |fields| ==> s[i] == Specifier(fields[i].id, fields[i].length, 0)
  {
    if fields == [] then [] else [Specifier(fields[0].id, fields[0].length, 0)] + SpecsOf(fields[1..])
  }

  lemma {:induction false} FourBytes(a: Bytes, b: Bytes, rest: Bytes, tail: Bytes)
    requires |a| == |b| == 2
    ensures var buf := a + b + rest + tail;
            |buf| == 4 + |rest + tail| && buf[..2] == a && buf[2..4] == b && buf[4..] == rest + tail
  {
  }

  lemma {:induction false} SpecifiersReadBack(v: Version, fields: seq<Field>, tail: Bytes)
    requires forall i :: 0 <= i < |fields| ==> fields[i].id < 0x8000
    ensures ReadSpecifiers(v, Specifiers(fields) + tail, |fields|) == Parsed(SpecsOf(fields), tail)
  {
    if fields == [] {
      assert Specifiers(fields) + tail == tail;
    } else {
      Get16Put(fields[0].id);
      Get16Put(fields[0].length);
      FourBytes(Put(fields[0].id, 2), Put(fields[0].length, 2), Specifiers(fields[1..]), tail);
      hide Put, Get16;
      SpecifiersReadBack(v, fields[1..], tail);
    }
  }

  function OurTemplate(v: Version, t: Tables): Template { Template(v, TEMPLATE_ID, SpecsOf(t.fields)) }

  lemma {:induction false} TemplateOf(v: Version, id: u16, fields: seq<Field>)
    requires 0 < |fields| < 0x1_0000
    requires forall i :: 0 <= i < |fields| ==> fields[i].id < 0x8000
    ensures ReadTemplates(v, Put(id, 2) + Put(|fields|, 2) + Specifiers(fields))
         == Done([Template(v, id, SpecsOf(fields))])
  {
    var body := Put(id, 2) + Put(|fields|, 2) + Specifiers(fields);
    Get16Put(id);
    Get16Put(|fields|);
    assert body[..2] == Put(id, 2);
    assert body[2..4] == Put(|fields|, 2);
    assert body[4..] == Specifiers(fields) + [];
    SpecifiersReadBack(v, fields, []);
    assert ReadTemplates(v, []) == Done([]);
    var t := Template(v, id, SpecsOf(fields));
    assert [t] + [] == [t];
  }

  lemma {:induction false} TemplateReadBack(v: Version, t: Tables)
    requires t.Ours()
    ensures ReadTemplates(v, TemplateBody(t.fields)) == Done([OurTemplate(v, t)])
  {
    TemplateOf(v, TEMPLATE_ID, t.fields);
  }

  // Records -------------------------------------------------------------------------------------

  function ColumnList(f: Flow, p: Protocols, fields: seq<Field>): (s: seq<Bytes>)
    ensures |s| == |fields|
  {
    if fields == [] then [] else [Column(f, p, fields[0].id)] + ColumnList(f, p, fields[1..])
  }

  ghost predicate FixedWidths(f: Flow, p: Protocols, fields: seq<Field>) {
    forall i :: 0 <= i < |fields| ==> 0 < fields[i].length < 0xffff && |Column(f, p, fields[i].id)| == fields[i].length
  }

  lemma {:induction false} FieldsReadBack(v: Version, f: Flow, p: Protocols, fields: seq<Field>, tail: Bytes)
    requires FixedWidths(f, p, fields)
    ensures ReadFields(v, Columns(f, p, fields) + tail, SpecsOf(fields)) == Parsed(ColumnList(f, p, fields), tail)
  {
    if fields == [] {
      assert Columns(f, p, fields) + tail == tail;
    } else {
      var buf, col := Columns(f, p, fields) + tail, Column(f, p, fields[0].id);
      assert buf[..fields[0].length] + Zeros(0) == col;
      assert buf[fields[0].length..] == Columns(f, p, fields[1..]) + tail;
      assert SpecsOf(fields)[1..] == SpecsOf(fields[1..]);
      assert ReadField(v, buf, SpecsOf(fields)[0]) == Parsed(col, Columns(f, p, fields[1..]) + tail);
      FieldsReadBack(v, f, p, fields[1..], tail);
    }
  }

  lemma {:induction false} OurWidths(f: Flow, t: Tables)
    requires t.Ours()
    ensures FixedWidths(f, t.protocols, t.fields)
  {
    forall i | 0 <= i < |t.fields|
      ensures 0 < t.fields[i].length < 0xffff && |Column(f, t.protocols, t.fields[i].id)| == t.fields[i].length
    {
      ColumnWidth(f, t.protocols, i);
    }
  }

  lemma {:induction false} SizeOfSpecs(fields: seq<Field>)
    ensures NetflowReader.RecordBytes(SpecsOf(fields)) == TotalLength(fields)
  {
    if fields != [] {
      assert SpecsOf(fields)[1..] == SpecsOf(fields[1..]);
      SizeOfSpecs(fields[1..]);
    }
  }

  lemma {:induction false} RecordOf(v: Version, f: Flow, p: Protocols, fields: seq<Field>)
    requires FixedWidths(f, p, fields) && TotalLength(fields) >= 4
    ensures ReadRecords(v, Columns(f, p, fields), SpecsOf(fields))
         == Done([ToRecord(SpecsOf(fields), ColumnList(f, p, fields))])
  {
    var buf, specs := Columns(f, p, fields), SpecsOf(fields);
    ColumnsSize(f, p, fields);
    FieldsReadBack(v, f, p, fields, []);
    assert buf + [] == buf;
    var record := ToRecord(specs, ColumnList(f, p, fields));
    assert [record] + [] == [record];
    if v.Ipfix? {
      assert ReadIpfixRecords([], specs) == Done([]);
      assert ReadIpfixRecords(buf, specs) == Done([record] + []);
    } else {
      SizeOfSpecs(fields);
      assert buf[..|buf|] == buf && buf[|buf|..] == [];
      assert ReadV9Records([], specs) == Done([]);
      assert ReadV9Records(buf, specs) == Done([record] + []);
    }
  }

  function RecordFor(f: Flow, t: Tables): Record {
    ToRecord(SpecsOf(t.fields), ColumnList(f, t.protocols, t.fields))
  }

  /** The body of one flow's set reads back as one record. */
  lemma {:induction false} RecordReadBack(v: Version, f: Flow, t: Tables)
    requires t.Ours()
    ensures ReadRecords(v, Columns(f, t.protocols, t.fields), SpecsOf(t.fields)) == Done([RecordFor(f, t)])
  {
    OurWidths(f, t);
    RecordSize(f, t);
    RecordOf(v, f, t.protocols, t.fields);
  }

  // Decoding a record ---------------------------------------------------------------------------

  /** What the record says about the flow after its first `n` columns. */
  function SoFar(f: Flow, p: Protocols, n: nat): Flow {
    var r := Received(f, p);
    var src := if n >= 10 || (n >= 6 && f.srcAddr.V4?) then r.srcAddr else NoAddr("");
    var dst := if n >= 11 || (n >= 7 && f.dstAddr.V4?) then r.dstAddr else NoAddr("");
    Flow(if n >= 1 then r.protocol else "", if n >= 2 then r.tos else 0, if n >= 3 then r.tcpFlags else 0,
         if n >= 4 then r.srcMac else NoMac(""), if n >= 5 then r.dstMac else NoMac(""), src, dst,
         if n >= 8 then r.srcPort else 0, if n >= 9 then r.dstPort else 0,
         if n >= 12 then r.srcAs else 0, if n >= 13 then r.dstAs else 0,
         if n >= 14 then r.inputPort else 0, if n >= 15 then r.outputPort else 0,
         if n >= 16 then r.inBytes else 0, if n >= 17 then r.outBytes else 0,
         if n >= 18 then r.inPkts else 0, if n >= 19 then r.outPkts else 0, 0, 0,
         if n >= 21 then r.timestamp else 0)
  }

  lemma {:induction false} Unsigned8ReadBack(n: nat)
    ensures Translate(Put(n, 1), Unsigned8) == U8(n % 0x100)
  {
    assert Put(n, 1) == Put(n / 256, 0) + [n % 256];
  }

  lemma {:induction false} Unsigned16ReadBack(n: nat)
    ensures Translate(Put(n, 2), Unsigned16) == U16(n % 0x1_0000)
  {
    GetPut(n, 2);
    PowTable();
  }

  lemma {:induction false} Unsigned32ReadBack(n: nat)
    ensures Translate(Put(n, 4), Unsigned32) == U32(n % 0x1_0000_0000)
    ensures Translate(Put(n, 4), DateTimeSeconds) == Seconds(n % 0x1_0000_0000)
  {
    GetPut(n, 4);
    PowTable();
    assert Put(n, 4)[..4] == Put(n, 4);
  }

  lemma {:induction false} Unsigned64ReadBack(n: nat)
    ensures Translate(Put(n, 8), Unsigned64) == U64(n % 0x1_0000_0000_0000_0000)
  {
    GetPut(n, 8);
    PowTable();
  }

  lemma {:induction false} PrintColumns(a: Addr)
    ensures PrintIP(V4Column(a)) == if a.V4? then a else V4(Zeros(4))
    ensures PrintIP(V6Column(a)) == if a.V6? then a else V6(Zeros(16))
  {
  }

  /** The value a reader makes of the column with this id. */
  function ValueOf(f: Flow, p: Protocols, id: u16): Value {
    if id == PROTOCOL then U8(p.NumberOf(f.protocol))
    else if id == TOS then U8(f.tos % 0x100)
    else if id == TCP_FLAGS then U16(f.tcpFlags % 0x1_0000)
    else if id == SRC_MAC then MAC(MacColumn(f.srcMac))
    else if id == DST_MAC then MAC(MacColumn(f.dstMac))
    else if id == IPV4_SRC_ADDR then IP(V4Column(f.srcAddr))
    else if id == IPV4_DST_ADDR then IP(V4Column(f.dstAddr))
    else if id == IPV6_SRC_ADDR then IP(V6Column(f.srcAddr))
    else if id == IPV6_DST_ADDR then IP(V6Column(f.dstAddr))
    else if id == L4_SRC_PORT then U16(f.srcPort % 0x1_0000)
    else if id == L4_DST_PORT then U16(f.dstPort % 0x1_0000)
    else if id == SRC_AS then U32(f.srcAs)
    else if id == DST_AS then U32(f.dstAs)
    else if id == INPUT_SNMP then U32(f.inputPort % 0x1_0000_0000)
    else if id == OUTPUT_SNMP then U32(f.outputPort % 0x1_0000_0000)
    else if id == IN_BYTES then U64(f.inBytes)
    else if id == OUT_BYTES then U64(f.outBytes)
    else if id == IN_PKTS then U64(f.inPkts)
    else if id == OUT_PKTS then U64(f.outPkts)
    else if id == FLOW_START_SECONDS then Seconds(f.timestamp % 0x1_0000_0000)
    else Absent
  }

  lemma {:induction false} NarrowReadsAs(f: Flow, p: Protocols, s: Specifier)
    requires s.enterprise == 0
    requires s.id in {PROTOCOL, TOS, TCP_FLAGS, L4_SRC_PORT, L4_DST_PORT}
    ensures ToItem(s, Column(f, p, s.id)).value == ValueOf(f, p, s.id)
  {
    hide Put, Translate;
    if s.id == PROTOCOL {
      Unsigned8ReadBack(p.NumberOf(f.protocol));
    } else if s.id == TOS {
      Unsigned8ReadBack(f.tos);
    } else if s.id == TCP_FLAGS {
      Unsigned16ReadBack(f.tcpFlags);
    } else if s.id == L4_SRC_PORT {
      Unsigned16ReadBack(f.srcPort);
    } else {
      Unsigned16ReadBack(f.dstPort);
    }
  }

  lemma {:induction false} WordReadsAs(f: Flow, p: Protocols, s: Specifier)
    requires s.enterprise == 0
    requires s.id in {SRC_AS, DST_AS, INPUT_SNMP, OUTPUT_SNMP, FLOW_START_SECONDS}
    ensures ToItem(s, Column(f, p, s.id)).value == ValueOf(f, p, s.id)
  {
    hide Put, Translate;
    if s.id == SRC_AS {
      Unsigned32ReadBack(f.srcAs);
    } else if s.id == DST_AS {
      Unsigned32ReadBack(f.dstAs);
    } else if s.id == INPUT_SNMP {
      Unsigned32ReadBack(f.inputPort);
    } else if s.id == OUTPUT_SNMP {
      Unsigned32ReadBack(f.outputPort);
    } else {
      Unsigned32ReadBack(f.timestamp % 0x1_0000_0000);
    }
  }

  lemma {:induction false} LongReadsAs(f: Flow, p: Protocols, s: Specifier)
    requires s.enterprise == 0
    requires s.id in {IN_BYTES, OUT_BYTES, IN_PKTS, OUT_PKTS}
    ensures ToItem(s, Column(f, p, s.id)).value == ValueOf(f, p, s.id)
  {
    hide Put, Translate;
    if s.id == IN_BYTES {
      Unsigned64ReadBack(f.inBytes);
    } else if s.id == OUT_BYTES {
      Unsigned64ReadBack(f.outBytes);
    } else if s.id == IN_PKTS {
      Unsigned64ReadBack(f.inPkts);
    } else {
      Unsigned64ReadBack(f.outPkts);
    }
  }

  lemma {:induction false} OctetsReadAs(f: Flow, p: Protocols, s: Specifier)
    requires s.enterprise == 0
    requires s.id in {SRC_MAC, DST_MAC, IPV4_SRC_ADDR, IPV4_DST_ADDR, IPV6_SRC_ADDR, IPV6_DST_ADDR}
    ensures ToItem(s, Column(f, p, s.id)).value == ValueOf(f, p, s.id)
  {
  }

  predicate ColumnSets(f: Flow, p: Protocols, n: nat, s: Specifier) {
    SetField(SoFar(f, p, n), p, s.id, ToItem(s, Column(f, p, s.id)).value) == Some(SoFar(f, p, n + 1))
  }

  lemma {:induction false} FirstColumnsSet(f: Flow, p: Protocols, n: nat, s: Specifier)
    requires n < 9 && n != 5 && n != 6 && s == Specifier(FIELDS[n].id, FIELDS[n].length, 0)
    ensures ColumnSets(f, p, n, s)
  {
    if n == 3 || n == 4 {
      OctetsReadAs(f, p, s);
    } else {
      NarrowReadsAs(f, p, s);
    }
  }

  lemma {:induction false} AddressColumnsSet(f: Flow, p: Protocols, n: nat, s: Specifier)
    requires n in {5, 6, 9, 10} && s == Specifier(FIELDS[n].id, FIELDS[n].length, 0)
    ensures ColumnSets(f, p, n, s)
  {
    OctetsReadAs(f, p, s);
    PrintColumns(f.srcAddr);
    PrintColumns(f.dstAddr);
  }

  lemma {:induction false} LastColumnsSet(f: Flow, p: Protocols, n: nat, s: Specifier)
    requires 11 <= n < |FIELDS| && s == Specifier(FIELDS[n].id, FIELDS[n].length, 0)
    ensures ColumnSets(f, p, n, s)
  {
    if n < 15 || n == 20 {
      WordReadsAs(f, p, s);
    } else if n < 19 {
      LongReadsAs(f, p, s);
    }
  }

  /** Each column sets exactly its own part of the flow. */
  lemma {:induction false} EachColumnSets(f: Flow, p: Protocols, n: nat, s: Specifier)
    requires n < |FIELDS| && s == Specifier(FIELDS[n].id, FIELDS[n].length, 0)
    ensures ColumnSets(f, p, n, s)
  {
    if n in {5, 6, 9, 10} {
      AddressColumnsSet(f, p, n, s);
    } else if n < 9 {
      FirstColumnsSet(f, p, n, s);
    } else {
      LastColumnsSet(f, p, n, s);
    }
  }

  lemma {:induction false} SetFieldsStep(f: Flow, f': Flow, p: Protocols, item: Item, rest: Record)
    requires SetField(f, p, item.id, item.value) == Some(f')
    ensures SetFields(f, p, [item] + rest) == SetFields(f', p, rest)
  {
    hide SetField;
    var record := [item] + rest;
    assert record[0] == item && record[1..] == rest;
  }

  function RecordFrom(f: Flow, t: Tables, n: nat): Record
    requires n <= |t.fields|
  {
    ToRecord(SpecsOf(t.fields[n..]), ColumnList(f, t.protocols, t.fields[n..]))
  }

  lemma {:induction false} RecordFromStep(f: Flow, t: Tables, n: nat)
    requires n < |t.fields|
    ensures var s := Specifier(t.fields[n].id, t.fields[n].length, 0);
            RecordFrom(f, t, n) == [ToItem(s, Column(f, t.protocols, s.id))] + RecordFrom(f, t, n + 1)
  {
    hide ToItem, Column;
    assert t.fields[n..][0] == t.fields[n] && t.fields[n..][1..] == t.fields[n + 1..];
    UnfoldRecord(f, t.protocols, t.fields[n..]);
  }

  lemma {:induction false} ColumnsSetFlow(f: Flow, t: Tables, n: nat)
    requires t.Ours() && n <= |FIELDS|
    ensures SetFields(SoFar(f, t.protocols, n), t.protocols, RecordFrom(f, t, n)) == Some(Received(f, t.protocols))
    decreases |FIELDS| - n
  {
    hide SetField, SoFar, Received, ToItem, Column, SetFields, RecordFrom;
    if n == |FIELDS| {
      AllColumnsSet(f, t);
    } else {
      var s, p := Specifier(FIELDS[n].id, FIELDS[n].length, 0), t.protocols;
      RecordFromStep(f, t, n);
      EachColumnSets(f, p, n, s);
      var item := ToItem(s, Column(f, p, s.id));
      ItemId(s, Column(f, p, s.id));
      SetFieldsStep(SoFar(f, p, n), SoFar(f, p, n + 1), p, item, RecordFrom(f, t, n + 1));
      ColumnsSetFlow(f, t, n + 1);
    }
  }

  lemma {:induction false} AllColumnsSet(f: Flow, t: Tables)
    requires t.Ours()
    ensures SetFields(SoFar(f, t.protocols, |FIELDS|), t.protocols, RecordFrom(f, t, |FIELDS|))
         == Some(Received(f, t.protocols))
  {
    assert SoFar(f, t.protocols, |FIELDS|) == Received(f, t.protocols);
    assert t.fields[|FIELDS|..] == [];
    assert RecordFrom(f, t, |FIELDS|) == [];
  }

  lemma {:induction false} ItemId(s: Specifier, bs: Bytes)
    ensures ToItem(s, bs).id == s.id
  {
  }

  lemma {:induction false} UnfoldRecord(f: Flow, p: Protocols, fields: seq<Field>)
    requires fields != []
    ensures ToRecord(SpecsOf(fields), ColumnList(f, p, fields))
         == [ToItem(Specifier(fields[0].id, fields[0].length, 0), Column(f, p, fields[0].id))]
            + ToRecord(SpecsOf(fields[1..]), ColumnList(f, p, fields[1..]))
  {
    assert SpecsOf(fields)[1..] == SpecsOf(fields[1..]);
    assert ColumnList(f, p, fields)[1..] == ColumnList(f, p, fields[1..]);
  }

  /** The record written for a flow decodes to the flow as received, whatever the flow is. */
  lemma {:induction false} RecordDecodes(f: Flow, t: Tables)
    requires t.Ours()
    ensures SetFields(Fresh, t.protocols, RecordFor(f, t)) == Some(Received(f, t.protocols))
  {
    ColumnsSetFlow(f, t, 0);
    assert t.fields[0..] == t.fields;
  }

  // Messages ------------------------------------------------------------------------------------

  function ReceivedAll(flows: seq<Flow>, p: Protocols): (r: seq<Flow>)
    ensures |r| == |flows|
    ensures forall i :: 0 <= i < |flows| ==> r[i] == Received(flows[i], p)
  {
    if flows == [] then [] else [Received(flows[0], p)] + ReceivedAll(flows[1..], p)
  }

  function CarriedAll(flows: seq<Flow>): (r: seq<Flow>)
    ensures |r| == |flows|
    ensures forall i :: 0 <= i < |flows| ==> r[i] == Carried(flows[i])
  {
    if flows == [] then [] else [Carried(flows[0])] + CarriedAll(flows[1..])
  }

  function DataSetsFor(flows: seq<Flow>, t: Tables): seq<seq<Record>> {
    if flows == [] then [] else [[RecordFor(flows[0], t)]] + DataSetsFor(flows[1..], t)
  }

  lemma {:induction false} DataSetsDecode(flows: seq<Flow>, t: Tables)
    requires t.Ours()
    ensures FlowsOfSets(t.protocols, DataSetsFor(flows, t)) == ReceivedAll(flows, t.protocols)
  {
    if flows != [] {
      var f := flows[0];
      RecordDecodes(f, t);
      assert FlowsOf(t.protocols, [RecordFor(f, t)]) == [Received(f, t.protocols)] by {
        assert [RecordFor(f, t)][1..] == [];
        assert FlowsOf(t.protocols, []) == [];
      }
      assert DataSetsFor(flows, t)[1..] == DataSetsFor(flows[1..], t);
      DataSetsDecode(flows[1..], t);
    }
  }

  lemma {:induction false} SetReads(id: u16, body: Bytes, rest: Bytes)
    requires |body| + 4 < 0x1_0000
    ensures var buf := Set(id, body) + rest;
            |buf| >= 4 && Get16(buf[..2]) == id && Get16(buf[2..4]) == |body| + 4 <= |buf|
            && buf[4..|body| + 4] == body && buf[|body| + 4..] == rest
  {
    var buf := Set(id, body) + rest;
    Get16Put(id);
    Get16Put(|body| + 4);
    assert buf[..2] == Put(id, 2);
    assert buf[2..4] == Put(|body| + 4, 2);
  }

  /** How many of `n` flow sets a reader with `count` sets left takes. */
  function Taken(v: Version, count: nat, n: nat): (k: nat)
    ensures k <= n
  {
    if v.Ipfix? || n <= count then n else count
  }

  lemma {:induction false} FirstDataSet(flows: seq<Flow>, t: Tables, k: nat, before: seq<seq<Record>>)
    requires 0 < k <= |flows| && t.Ours()
    ensures before + [[RecordFor(flows[0], t)]] + DataSetsFor(flows[1..][..k - 1], t)
         == before + DataSetsFor(flows[..k], t)
  {
    assert flows[..k][1..] == flows[1..][..k - 1] && flows[..k][0] == flows[0];
  }

  lemma {:induction false} SetsReadBack(v: Version, count: nat, flows: seq<Flow>, t: Tables, session: Session,
                                        msg: Message)
    requires t.Ours()
    requires (0, TEMPLATE_ID) in session && session[(0, TEMPLATE_ID)] == OurTemplate(v, t)
    ensures ReadSets(v, count, 0, RecordSets(flows, t), session, msg)
         == (Done(msg.(dataSets := msg.dataSets + DataSetsFor(flows[..Taken(v, count, |flows|)], t))), session)
    decreases |flows|
  {
    hide Columns, SpecsOf, ColumnList, ReadRecords;
    var k := Taken(v, count, |flows|);
    if k == 0 {
      assert msg.dataSets + [] == msg.dataSets;
    } else {
      var body, rest := Columns(flows[0], t.protocols, t.fields), RecordSets(flows[1..], t);
      RecordSize(flows[0], t);
      SetReads(TEMPLATE_ID, body, rest);
      RecordReadBack(v, flows[0], t);
      var record := [RecordFor(flows[0], t)];
      var left := if v.Ipfix? then count else count - 1;
      var msg' := msg.(dataSets := msg.dataSets + [record]);
      assert ReadSets(v, count, 0, RecordSets(flows, t), session, msg)
          == ReadSets(v, left, 0, rest, session, msg');
      hide ReadSets;
      SetsReadBack(v, left, flows[1..], t, session, msg');
      FirstDataSet(flows, t, k, msg.dataSets);
    }
  }

  /** The template set registers our template, whatever the session held, and the flow sets follow. */
  lemma {:induction false} MessageReadsBack(v: Version, count: nat, flows: seq<Flow>, t: Tables, session: Session)
    requires t.Ours()
    requires v.Ipfix? || count >= 1
    ensures ReadSets(v, count, 0, Sets(v, flows, t), session, NoSets)
         == (Done(Message([OurTemplate(v, t)], DataSetsFor(flows[..Taken(v, if v.Ipfix? then 0 else count - 1, |flows|)], t))),
             session[(0, TEMPLATE_ID) := OurTemplate(v, t)])
  {
    var body, rest := TemplateBody(t.fields), RecordSets(flows, t);
    SetsSize(v, flows, t);
    SetReads(TemplateSetId(v), body, rest);
    TemplateReadBack(v, t);
    var session' := Register(session, 0, [OurTemplate(v, t)]);
    assert session' == session[(0, TEMPLATE_ID) := OurTemplate(v, t)] by {
      assert [OurTemplate(v, t)][1..] == [];
      assert Register(session[(0, TEMPLATE_ID) := OurTemplate(v, t)], 0, []) == session[(0, TEMPLATE_ID) := OurTemplate(v, t)];
    }
    var left := if v.Ipfix? then count else count - 1;
    var msg := Message([] + [OurTemplate(v, t)], []);
    assert ReadSets(v, count, 0, Sets(v, flows, t), session, NoSets)
        == ReadSets(v, left, 0, rest, session', msg);
    SetsReadBack(v, left, flows, t, session', msg);
    assert [] + [OurTemplate(v, t)] == [OurTemplate(v, t)];
    var ds := DataSetsFor(flows[..Taken(v, left, |flows|)], t);
    assert [] + ds == ds;
  }

  lemma {:induction false} RecordSetsConcat(a: seq<Flow>, b: seq<Flow>, t: Tables)
    ensures RecordSets(a + b, t) == RecordSets(a, t) + RecordSets(b, t)
  {
    if a == [] {
      assert a + b == b;
    } else {
      assert (a + b)[1..] == a[1..] + b;
      RecordSetsConcat(a[1..], b, t);
    }
  }

  /** Cutting the sets after k flow sets leaves the sets of the first k flows. */
  lemma {:induction false} SetsPrefix(v: Version, flows: seq<Flow>, k: nat, t: Tables)
    requires t.Ours()
    requires k <= |flows|
    ensures |Sets(v, flows, t)| >= 96 + 128 * k
    ensures Sets(v, flows, t)[..96 + 128 * k] == Sets(v, flows[..k], t)
  {
    SetsSize(v, flows, t);
    SetsSize(v, flows[..k], t);
    assert flows == flows[..k] + flows[k..];
    RecordSetsConcat(flows[..k], flows[k..], t);
  }

  /** The flows that an IPFIX reader gets out of a message of n. */
  function IpfixKept(n: nat): (k: nat)
    ensures k <= n && (k == n <==> n <= 511)
    ensures (112 + 128 * n) % 0x1_0000 == 112 + 128 * k
  {
    n % 512
  }

  /** The length field is right up to a multiple of 2^16, which is 512 flow sets: the reader's share of
      the bytes ends at a set boundary. */
  lemma {:induction false} AfterHeader(header: Bytes, sets: Bytes, n: nat)
    requires |header| == 16 && n <= |sets|
    ensures (header + sets)[12..16] == header[12..16] && (header + sets)[16..16 + n] == sets[..n]
  {
  }

  lemma {:induction false} IpfixHeaderReads(flows: seq<Flow>, t: Tables)
    requires t.Ours()
    ensures var k, data := IpfixKept(|flows|), IpfixMessage(flows, t);
            |data| >= 112 + 128 * k && Get16(data[..2]) == 10 && Get16(data[2..4]) == 112 + 128 * k
            && data[12..16] == Zeros(4) && data[16..112 + 128 * k] == Sets(Ipfix, flows[..k], t)
  {
    var n, k := |flows|, IpfixKept(|flows|);
    var sets, data := Sets(Ipfix, flows, t), IpfixMessage(flows, t);
    SetsSize(Ipfix, flows, t);
    SetsPrefix(Ipfix, flows, k, t);
    hide Columns, Specifiers, TemplateBody, RecordSets, Sets, ReadSets, FlowsOfSets, DataSetsFor, ReceivedAll, Put, Get;
    HeaderReads(10, |sets| + 16, 12, sets);
    var header := Put(10, 2) + Put(|sets| + 16, 2) + Zeros(12);
    assert data == header + sets;
    AfterHeader(header, sets, 96 + 128 * k);
    assert header[12..16] == Zeros(4) by {
      assert header[12..16] == Zeros(12)[8..];
    }
  }

  lemma {:induction false} IpfixReads(flows: seq<Flow>, t: Tables, session: Session)
    requires t.Ours()
    ensures ReadIpfix(IpfixMessage(flows, t), session)
         == (Done(Message([OurTemplate(Ipfix, t)], DataSetsFor(flows[..IpfixKept(|flows|)], t))),
             session[(0, TEMPLATE_ID) := OurTemplate(Ipfix, t)])
  {
    hide Columns, Specifiers, TemplateBody, RecordSets, Sets, ReadSets, DataSetsFor, Put, Get, Get16, Zeros,
         IpfixMessage, OurTemplate, IpfixKept, SpecsOf, Pow256;
    var kept := flows[..IpfixKept(|flows|)];
    IpfixHeaderReads(flows, t);
    ZerosAreZero(4);
    MessageReadsBack(Ipfix, 0, kept, t, session);
    assert kept[..|kept|] == kept;
  }

  /**
   For every list of flows and every session of the reader, what comes back from an IPFIX message is
   the first n mod 512 flows (`IpfixKept`), each as received: beyond 511 flows the length field wraps
   and the reader silently stops at a set boundary.
   */
  lemma {:induction false} IpfixRoundTrip(flows: seq<Flow>, t: Tables, session: Session)
    requires t.Ours()
    ensures From(IpfixMessage(flows, t), t.protocols, session)
         == (Done(ReceivedAll(flows[..IpfixKept(|flows|)], t.protocols)),
             session[(0, TEMPLATE_ID) := OurTemplate(Ipfix, t)])
  {
    hide ReadIpfix, IpfixMessage, OurTemplate, IpfixKept, FlowsOfSets, DataSetsFor, ReceivedAll, Get16, Put, Get, Sets;
    IpfixReads(flows, t, session);
    IpfixHeaderReads(flows, t);
    DataSetsDecode(flows[..IpfixKept(|flows|)], t);
  }

  lemma {:induction false} HeaderReads(version: u16, count: nat, zeros: nat, rest: Bytes)
    ensures var data := Put(version, 2) + Put(count, 2) + Zeros(zeros) + rest;
            Get16(data[..2]) == version && Get16(data[2..4]) == count % 0x1_0000
  {
    var data := Put(version, 2) + Put(count, 2) + Zeros(zeros) + rest;
    Get16Put(version);
    assert data[..2] == Put(version, 2);
    assert data[2..4] == Put(count, 2);
    Get16Wraps(count);
  }

  lemma {:induction false} Get16Wraps(n: nat)
    ensures Get16(Put(n, 2)) == n % 0x1_0000
  {
    assert Put(n, 2) == Put(n / 256, 1) + [n % 256];
    assert Put(n / 256, 1) == Put(n / 256 / 256, 0) + [n / 256 % 256];
  }

  lemma {:induction false} ZerosAreZero(n: nat)
    ensures Get(Zeros(n)) == 0
  {
    if n > 0 {
      assert Zeros(n)[..n - 1] == Zeros(n - 1);
      ZerosAreZero(n - 1);
    }
  }

  /** The NetFlow v9 header counts the template and the flows in 16 bits, and the reader stops at that count. */
  function V9Count(n: nat): nat { (n + 1) % 0x1_0000 }

  function V9Kept(n: nat): (k: nat)
    ensures k <= n && (k == n <==> n <= 65534)
  {
    if V9Count(n) == 0 then 0 else V9Count(n) - 1
  }

  lemma {:induction false} V9HeaderReads(flows: seq<Flow>, t: Tables)
    requires t.Ours()
    ensures var data := V9Message(flows, t);
            |data| > 20 && Get16(data[..2]) == 9 && Get16(data[2..4]) == V9Count(|flows|)
            && data[16..20] == Zeros(4) && data[20..] == Sets(Netflow9, flows, t)
  {
    var n, sets, data := |flows|, Sets(Netflow9, flows, t), V9Message(flows, t);
    SetsSize(Netflow9, flows, t);
    hide Columns, Specifiers, TemplateBody, RecordSets, Sets, ReadSets, FlowsOfSets, DataSetsFor, ReceivedAll, Put, Get;
    HeaderReads(9, n + 1, 16, sets);
    assert data == Put(9, 2) + Put(n + 1, 2) + Zeros(16) + sets;
    assert data[16..20] == Zeros(4) by {
      assert data[16..20] == Zeros(16)[12..];
    }
  }

  /** For every list of flows and every session: the flows that the 16-bit count covers, each as received. */
  lemma {:induction false} V9RoundTrip(flows: seq<Flow>, t: Tables, session: Session)
    requires t.Ours()
    ensures From(V9Message(flows, t), t.protocols, session).0 == Done(ReceivedAll(flows[..V9Kept(|flows|)], t.protocols))
  {
    assert DataSetsFor([], t) == [];
    hide Columns, Specifiers, TemplateBody, RecordSets, Sets, ReadSets, FlowsOfSets, DataSetsFor, ReceivedAll, Put, Get;
    var k := V9Kept(|flows|);
    V9HeaderReads(flows, t);
    ZerosAreZero(4);
    DataSetsDecode(flows[..k], t);
    if V9Count(|flows|) > 0 {
      MessageReadsBack(Netflow9, k + 1, flows, t, session);
      hide Zeros, V9Message, OurTemplate;
      assert ReadV9(V9Message(flows, t), session).0 == Done(Message([OurTemplate(Netflow9, t)], DataSetsFor(flows[..k], t)));
    } else {
      assert flows[..k] == [];
    }
  }

  // Losslessness --------------------------------------------------------------------------------

  ghost predicate AllInRange(flows: seq<Flow>, p: Protocols) {
    forall i :: 0 <= i < |flows| ==> InRange(flows[i], p)
  }

  lemma {:induction false} ReceivedAllIsCarriedIff(flows: seq<Flow>, k: nat, p: Protocols)
    requires p.Valid() && k <= |flows|
    ensures ReceivedAll(flows[..k], p) == CarriedAll(flows) <==> k == |flows| && AllInRange(flows, p)
  {
    var r, c := ReceivedAll(flows[..k], p), CarriedAll(flows);
    forall i | 0 <= i < k
      ensures r[i] == c[i] <==> InRange(flows[i], p)
    {
      ReceivedIsSentIff(flows[i], p);
    }
    if r == c {
      assert |r| == |c|;
      forall i | 0 <= i < |flows| ensures InRange(flows[i], p) {
        assert r[i] == c[i];
      }
    }
  }

  /** An IPFIX message loses nothing exactly when it has at most 511 flows and every field is in range. */
  lemma {:induction false} IpfixIsLosslessIff(flows: seq<Flow>, t: Tables, session: Session)
    requires t.protocols.Valid() && t.Ours()
    ensures From(IpfixMessage(flows, t), t.protocols, session).0 == Done(CarriedAll(flows))
       <==> |flows| <= 511 && AllInRange(flows, t.protocols)
  {
    hide *;
    IpfixRoundTrip(flows, t, session);
    ReceivedAllIsCarriedIff(flows, IpfixKept(|flows|), t.protocols);
  }

  /** A NetFlow v9 message loses nothing exactly when its count fits 16 bits and every field is in range. */
  lemma {:induction false} V9IsLosslessIff(flows: seq<Flow>, t: Tables, session: Session)
    requires t.protocols.Valid() && t.Ours()
    ensures From(V9Message(flows, t), t.protocols, session).0 == Done(CarriedAll(flows))
       <==> |flows| <= 65534 && AllInRange(flows, t.protocols)
  {
    hide *;
    V9RoundTrip(flows, t, session);
    ReceivedAllIsCarriedIff(flows, V9Kept(|flows|), t.protocols);
  }
}
