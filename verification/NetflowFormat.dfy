/** The formatter itself: pkg/formats/netflow, its buffers and loops, and the flow object it fills. */
module NetflowFormat {
  import opened Integers
  import opened Options
  import opened BigEndian
  import opened FlowRecord
  import opened NetflowWire
  import opened NetflowReader

  /** kt.JCHF, as far as the formatter assigns its fields. */
  class Jchf {
    var protocol: string
    var tos: u32
    var tcpFlags: u32
    var srcMac: Mac
    var dstMac: Mac
    var srcAddr: Addr
    var dstAddr: Addr
    var srcPort: u32
    var dstPort: u32
    var srcAs: u32
    var dstAs: u32
    var inputPort: u64
    var outputPort: u64
    var inBytes: u64
    var outBytes: u64
    var inPkts: u64
    var outPkts: u64
    var timestamp: i64

    ghost function Value(): Flow
      reads this
    {
      Flow(protocol, tos, tcpFlags, srcMac, dstMac, srcAddr, dstAddr, srcPort, dstPort, srcAs, dstAs,
           inputPort, outputPort, inBytes, outBytes, inPkts, outPkts, 0, 0, timestamp)
    }

    constructor ()
      ensures Value() == Fresh
    {
      protocol, tos, tcpFlags, srcMac, dstMac := "", 0, 0, NoMac(""), NoMac("");
      srcAddr, dstAddr, srcPort, dstPort, srcAs, dstAs := NoAddr(""), NoAddr(""), 0, 0, 0, 0;
      inputPort, outputPort, inBytes, outBytes, inPkts, outPkts, timestamp := 0, 0, 0, 0, 0, 0, 0;
    }

    /** The flow after assigning `v`, or the old flow and a refusal when `v` has the wrong type. */
    ghost predicate Assigned(before: Flow, p: Protocols, id: u16, v: Value, ok: bool)
      reads this
    {
      if ok then SetField(before, p, id, v) == Some(Value())
      else SetField(before, p, id, v) == None && Value() == before
    }

    /** setCHFField: the switch over the field ids, in parts. */
    method SetChfField(p: Protocols, id: u16, v: Value) returns (ok: bool)
      modifies this
      ensures Assigned(old(Value()), p, id, v, ok)
    {
      hide Assigned;
      if id in {IPV4_SRC_ADDR, IPV4_DST_ADDR, IPV6_SRC_ADDR, IPV6_DST_ADDR} {
        ok := SetAddress(p, id, v);
      } else if id in {INPUT_SNMP, OUTPUT_SNMP, SRC_AS, DST_AS} {
        ok := SetNumber(p, id, v);
      } else if id in {IN_PKTS, IN_BYTES, OUT_PKTS, OUT_BYTES} {
        ok := SetCounter(p, id, v);
      } else if id in {PROTOCOL, TOS, TCP_FLAGS, L4_SRC_PORT, L4_DST_PORT} {
        ok := SetHeader(p, id, v);
      } else {
        ok := SetOther(p, id, v);
      }
    }

    method SetAddress(p: Protocols, id: u16, v: Value) returns (ok: bool)
      requires id in {IPV4_SRC_ADDR, IPV4_DST_ADDR, IPV6_SRC_ADDR, IPV6_DST_ADDR}
      modifies this
      ensures Assigned(old(Value()), p, id, v, ok)
    {
      hide PrintIP, Zeros;
      ok := true;
      if id == IPV4_SRC_ADDR {
        if !v.IP? { ok := false; } else if PrintIP(v.ip) != V4(Zeros(4)) { srcAddr := PrintIP(v.ip); }
      } else if id == IPV4_DST_ADDR {
        if !v.IP? { ok := false; } else if PrintIP(v.ip) != V4(Zeros(4)) { dstAddr := PrintIP(v.ip); }
      } else if id == IPV6_SRC_ADDR {
        if !v.IP? { ok := false; } else if PrintIP(v.ip) != V6(Zeros(16)) { srcAddr := PrintIP(v.ip); }
      } else if id == IPV6_DST_ADDR {
        if !v.IP? { ok := false; } else if PrintIP(v.ip) != V6(Zeros(16)) { dstAddr := PrintIP(v.ip); }
      }
    }

    method SetNumber(p: Protocols, id: u16, v: Value) returns (ok: bool)
      requires id in {INPUT_SNMP, OUTPUT_SNMP, SRC_AS, DST_AS}
      modifies this
      ensures Assigned(old(Value()), p, id, v, ok)
    {
      hide PrintIP, Zeros;
      ok := true;
      if id == INPUT_SNMP {
        if v.U32? { inputPort := v.n32; } else { ok := false; }
      } else if id == OUTPUT_SNMP {
        if v.U32? { outputPort := v.n32; } else { ok := false; }
      } else if id == SRC_AS {
        if v.U32? { srcAs := v.n32; } else { ok := false; }
      } else if id == DST_AS {
        if v.U32? { dstAs := v.n32; } else { ok := false; }
      }
    }

    method SetCounter(p: Protocols, id: u16, v: Value) returns (ok: bool)
      requires id in {IN_PKTS, IN_BYTES, OUT_PKTS, OUT_BYTES}
      modifies this
      ensures Assigned(old(Value()), p, id, v, ok)
    {
      hide PrintIP, Zeros;
      ok := true;
      if id == IN_PKTS {
        if v.U64? { inPkts := v.n64; } else { ok := false; }
      } else if id == IN_BYTES {
        if v.U64? { inBytes := v.n64; } else { ok := false; }
      } else if id == OUT_PKTS {
        if v.U64? { outPkts := v.n64; } else { ok := false; }
      } else if id == OUT_BYTES {
        if v.U64? { outBytes := v.n64; } else { ok := false; }
      }
    }

    method SetHeader(p: Protocols, id: u16, v: Value) returns (ok: bool)
      requires id in {PROTOCOL, TOS, TCP_FLAGS, L4_SRC_PORT, L4_DST_PORT}
      modifies this
      ensures Assigned(old(Value()), p, id, v, ok)
    {
      hide PrintIP, Zeros;
      ok := true;
      if id == PROTOCOL {
        if v.U8? { protocol := p.NameOf(v.n8); } else { ok := false; }
      } else if id == TOS {
        if v.U8? { tos := v.n8; } else { ok := false; }
      } else if id == TCP_FLAGS {
        if v.U16? { tcpFlags := v.n16; } else { ok := false; }
      } else if id == L4_SRC_PORT {
        if v.U16? { srcPort := v.n16; } else { ok := false; }
      } else if id == L4_DST_PORT {
        if v.U16? { dstPort := v.n16; } else { ok := false; }
      }
    }

    method SetOther(p: Protocols, id: u16, v: Value) returns (ok: bool)
      requires id !in {IPV4_SRC_ADDR, IPV4_DST_ADDR, IPV6_SRC_ADDR, IPV6_DST_ADDR, INPUT_SNMP, OUTPUT_SNMP, SRC_AS, DST_AS}
      requires id !in {IN_PKTS, IN_BYTES, OUT_PKTS, OUT_BYTES, PROTOCOL, TOS, TCP_FLAGS, L4_SRC_PORT, L4_DST_PORT}
      modifies this
      ensures Assigned(old(Value()), p, id, v, ok)
    {
      hide PrintIP, Zeros;
      ok := true;
      if id == SRC_MAC {
        if v.MAC? { srcMac := Hw(v.mac); } else { ok := false; }
      } else if id == DST_MAC {
        if v.MAC? { dstMac := Hw(v.mac); } else { ok := false; }
      } else if id == FLOW_START_SECONDS {
        if v.Seconds? { timestamp := v.secs; } else { ok := false; }
      }
    }
  }

  // Writing -------------------------------------------------------------------------------------

  method EncodeTemplate(fields: seq<Field>) returns (buf: Bytes)
    ensures buf == TemplateBody(fields)
  {
    buf := Put(TEMPLATE_ID, 2) + Put(|fields|, 2);
    var i := 0;
    while i < |fields|
      invariant i <= |fields|
      invariant buf + Specifiers(fields[i..]) == TemplateBody(fields)
    {
      assert fields[i..][1..] == fields[i + 1..];
      buf := buf + Put(fields[i].id, 2) + Put(fields[i].length, 2);
      i := i + 1;
    }
    assert fields[i..] == [];
  }

  method EncodeFlow(f: Flow, p: Protocols, fields: seq<Field>) returns (buf: Bytes)
    ensures buf == Columns(f, p, fields)
  {
    buf := [];
    var i := 0;
    while i < |fields|
      invariant i <= |fields|
      invariant buf + Columns(f, p, fields[i..]) == Columns(f, p, fields)
    {
      assert fields[i..][1..] == fields[i + 1..];
      buf := buf + Column(f, p, fields[i].id);
      i := i + 1;
    }
    assert fields[i..] == [];
  }

  method WriteWithHeader(buf: Bytes, id: u16, body: Bytes) returns (out: Bytes)
    ensures out == buf + Set(id, body)
  {
    out := buf + Put(id, 2) + Put(|body| + 4, 2) + body;
  }

  /** The padding as the source computes it: as many zeros as there are bytes beyond a multiple of four. */
  method Pad(flow: Bytes) returns (out: Bytes)
    ensures out == flow + Zeros(|flow| % 4)
  {
    out := flow;
    var n := |flow| % 4;
    if n > 0 {
      out := out + Zeros(n);
    }
  }

  /** The loop both packers share: encode, pad, write with a header. */
  method WriteFlows(buf: Bytes, msgs: seq<Flow>, t: Tables) returns (out: Bytes)
    requires t.Ours()
    ensures out == buf + RecordSets(msgs, t)
  {
    out := buf;
    var i := 0;
    while i < |msgs|
      invariant i <= |msgs|
      invariant out + RecordSets(msgs[i..], t) == buf + RecordSets(msgs, t)
    {
      hide Columns, Set;
      ghost var chunk := Set(TEMPLATE_ID, Columns(msgs[i], t.protocols, t.fields));
      assert msgs[i..][0] == msgs[i] && msgs[i..][1..] == msgs[i + 1..];
      Regroup(out, chunk, RecordSets(msgs[i + 1..], t));
      out := WriteFlow(out, msgs[i], t);
      i := i + 1;
    }
    assert msgs[i..] == [];
  }

  lemma {:induction false} Regroup<T>(a: seq<T>, b: seq<T>, c: seq<T>)
    ensures a + (b + c) == (a + b) + c
  {
  }

  /** One turn of that loop. */
  method WriteFlow(buf: Bytes, msg: Flow, t: Tables) returns (out: Bytes)
    requires t.Ours()
    ensures out == buf + Set(TEMPLATE_ID, Columns(msg, t.protocols, t.fields))
  {
    hide Columns, Set;
    var record := EncodeFlow(msg, t.protocols, t.fields);
    RecordSize(msg, t);  // 124 bytes: Pad adds nothing
    var flow := Pad(record);
    assert flow == record + Zeros(0) == record;
    out := WriteWithHeader(buf, TEMPLATE_ID, flow);
  }

  method PackIpfix(msgs: seq<Flow>, t: Tables) returns (out: Option<Bytes>)
    requires t.Ours()
    ensures out == if msgs == [] then None else Some(IpfixMessage(msgs, t))
  {
    if msgs == [] {
      return None;
    }
    var tmp := EncodeTemplate(t.fields);
    var dataBuf := WriteWithHeader([], TemplateSetId(Ipfix), tmp);
    dataBuf := WriteFlows(dataBuf, msgs, t);
    assert dataBuf == Sets(Ipfix, msgs, t);
    var buf := Put(10, 2) + Put(|dataBuf| + 16, 2) + Zeros(4) + Zeros(4) + Zeros(4);
    assert buf == IpfixHeader(|dataBuf|);
    out := Some(buf + dataBuf);
  }

  method Pack9(flows: seq<Flow>, t: Tables) returns (out: Bytes)
    requires t.Ours()
    ensures out == V9Message(flows, t)
  {
    var buf := Put(9, 2) + Put(|flows| + 1, 2) + Zeros(4) + Zeros(4) + Zeros(4) + Zeros(4);
    assert buf == V9Header(|flows| + 1);
    var tmp := EncodeTemplate(t.fields);
    out := WriteWithHeader(buf, TemplateSetId(Netflow9), tmp);
    out := WriteFlows(out, flows, t);
    assert out == V9Header(|flows| + 1) + Sets(Netflow9, flows, t);
  }

  // Reading -------------------------------------------------------------------------------------

  /** decodeIpfixRecord and decodeV9Record. */
  method DecodeRecord(p: Protocols, record: Record) returns (res: Jchf?)
    ensures res != null ==> fresh(res)
    ensures SetFields(Fresh, p, record) == if res == null then None else Some(res.Value())
  {
    var flow := new Jchf();
    var i := 0;
    while i < |record|
      invariant i <= |record|
      invariant fresh(flow)
      invariant SetFields(flow.Value(), p, record[i..]) == SetFields(Fresh, p, record)
    {
      assert record[i..][0] == record[i] && record[i..][1..] == record[i + 1..];
      var ok := flow.SetChfField(p, record[i].id, record[i].value);
      if !ok {
        return null;
      }
      i := i + 1;
    }
    res := flow;
  }

  ghost function Values(chfs: seq<Jchf>): (fs: seq<Flow>)
    reads chfs
    ensures |fs| == |chfs|
  {
    seq(|chfs|, i requires 0 <= i < |chfs| reads chfs => chfs[i].Value())
  }

  /** The records of one data set; a record that does not decode is skipped. */
  method DecodeSet(p: Protocols, records: seq<Record>) returns (chfs: seq<Jchf>)
    ensures fresh(chfs)
    ensures Values(chfs) == FlowsOf(p, records)
  {
    chfs := [];
    var j := 0;
    while j < |records|
      invariant j <= |records|
      invariant fresh(chfs)
      invariant Values(chfs) + FlowsOf(p, records[j..]) == FlowsOf(p, records)
    {
      hide SetFields;
      assert records[j..][0] == records[j] && records[j..][1..] == records[j + 1..];
      var chf := DecodeRecord(p, records[j]);
      if chf != null {
        ghost var before := Values(chfs);
        assert Values(chfs + [chf]) == before + [chf.Value()];
        Regroup(before, [chf.Value()], FlowsOf(p, records[j + 1..]));
        chfs := chfs + [chf];
      }
      j := j + 1;
    }
    assert records[j..] == [];
  }

  /** decodeIpfix and decodeV9: the flows of all records that decode, in order. */
  method Decode(p: Protocols, msg: Message) returns (chfs: seq<Jchf>)
    ensures fresh(chfs)
    ensures Values(chfs) == FlowsOfSets(p, msg.dataSets)
  {
    chfs := [];
    var i := 0;
    while i < |msg.dataSets|
      invariant i <= |msg.dataSets|
      invariant fresh(chfs)
      invariant Values(chfs) + FlowsOfSets(p, msg.dataSets[i..]) == FlowsOfSets(p, msg.dataSets)
    {
      hide FlowsOf;
      assert msg.dataSets[i..][0] == msg.dataSets[i] && msg.dataSets[i..][1..] == msg.dataSets[i + 1..];
      ghost var before := Values(chfs);
      var more := DecodeSet(p, msg.dataSets[i]);
      assert Values(chfs + more) == before + Values(more);
      Regroup(before, Values(more), FlowsOfSets(p, msg.dataSets[i + 1..]));
      chfs := chfs + more;
      i := i + 1;
    }
    assert msg.dataSets[i..] == [];
  }
}
