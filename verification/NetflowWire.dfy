/**
 The bytes that the NetFlow formatter writes: pkg/formats/netflow.
 The functions describe the messages; the methods build them the way the formatter does.
 */
module NetflowWire {
  import opened Integers
  import opened BigEndian
  import opened FlowRecord

  datatype Version = Ipfix | Netflow9

  const IN_BYTES: u16 := 1
  const IN_PKTS: u16 := 2
  const PROTOCOL: u16 := 4
  const TOS: u16 := 5
  const TCP_FLAGS: u16 := 6
  const L4_SRC_PORT: u16 := 7
  const IPV4_SRC_ADDR: u16 := 8
  const INPUT_SNMP: u16 := 10
  const L4_DST_PORT: u16 := 11
  const IPV4_DST_ADDR: u16 := 12
  const OUTPUT_SNMP: u16 := 14
  const SRC_AS: u16 := 16
  const DST_AS: u16 := 17
  const OUT_BYTES: u16 := 23
  const OUT_PKTS: u16 := 24
  const IPV6_SRC_ADDR: u16 := 27
  const IPV6_DST_ADDR: u16 := 28
  const SRC_MAC: u16 := 56
  const DST_MAC: u16 := 80
  const OBSERVATION_POINT_ID: u16 := 138
  const FLOW_START_SECONDS: u16 := 150
  const FLOW_END_SECONDS: u16 := 151

  datatype Field = Field(id: u16, length: u16)

  /** The columns of a record, in order. */
  const FIELDS: seq<Field> := [
    Field(PROTOCOL, 1), Field(TOS, 1), Field(TCP_FLAGS, 2), Field(SRC_MAC, 6),
    Field(DST_MAC, 6), Field(IPV4_SRC_ADDR, 4), Field(IPV4_DST_ADDR, 4), Field(L4_SRC_PORT, 2),
    Field(L4_DST_PORT, 2), Field(IPV6_SRC_ADDR, 16), Field(IPV6_DST_ADDR, 16), Field(SRC_AS, 4),
    Field(DST_AS, 4), Field(INPUT_SNMP, 4), Field(OUTPUT_SNMP, 4), Field(IN_BYTES, 8),
    Field(OUT_BYTES, 8), Field(IN_PKTS, 8), Field(OUT_PKTS, 8), Field(OBSERVATION_POINT_ID, 8),
    Field(FLOW_START_SECONDS, 4), Field(FLOW_END_SECONDS, 4)]

  /** What the formatter consults: the protocol names and the column table. */
  datatype Tables = Tables(protocols: Protocols, fields: seq<Field>) {

    /** The column table is the one above. */
    predicate Ours() {
      |fields| == |FIELDS| && forall i :: 0 <= i < |FIELDS| ==> fields[i] == FIELDS[i]
    }
  }

  const TEMPLATE_ID: u16 := 256

  /** The set that holds a template: RFC 7011 section 3.3.2, RFC 3954 section 5.2. */
  function TemplateSetId(v: Version): u16 { if v.Ipfix? then 2 else 0 }

  /** ip2int: an address goes to its IPv4 column or to its IPv6 column, and the other column is zero. */
  function V4Column(a: Addr): (s: Bytes)
    ensures |s| == 4
  {
    if a.V4? then a.octets else Zeros(4)
  }

  function V6Column(a: Addr): (s: Bytes)
    ensures |s| == 16
  {
    if a.V6? then a.octets else Zeros(16)
  }

  function MacColumn(m: Mac): (s: Bytes)
    ensures |s| == 6
  {
    match ParseMac(m)
    case Some(o) => o[..6]
    case None => Zeros(6)
  }

  /** The value of one column of a record. */
  function Column(f: Flow, p: Protocols, id: u16): Bytes {
    if id == PROTOCOL then Put(p.NumberOf(f.protocol), 1)
    else if id == TOS then Put(f.tos, 1)
    else if id == TCP_FLAGS then Put(f.tcpFlags, 2)
    else if id == SRC_MAC then MacColumn(f.srcMac)
    else if id == DST_MAC then MacColumn(f.dstMac)
    else if id == IPV4_SRC_ADDR then V4Column(f.srcAddr)
    else if id == IPV4_DST_ADDR then V4Column(f.dstAddr)
    else if id == L4_SRC_PORT then Put(f.srcPort, 2)
    else if id == L4_DST_PORT then Put(f.dstPort, 2)
    else if id == IPV6_SRC_ADDR then V6Column(f.srcAddr)
    else if id == IPV6_DST_ADDR then V6Column(f.dstAddr)
    else if id == SRC_AS then Put(f.srcAs, 4)
    else if id == DST_AS then Put(f.dstAs, 4)
    else if id == INPUT_SNMP then Put(f.inputPort, 4)
    else if id == OUTPUT_SNMP then Put(f.outputPort, 4)
    else if id == IN_BYTES then Put(f.inBytes, 8)
    else if id == OUT_BYTES then Put(f.outBytes, 8)
    else if id == IN_PKTS then Put(f.inPkts, 8)
    else if id == OUT_PKTS then Put(f.outPkts, 8)
    else if id == OBSERVATION_POINT_ID then Put((f.companyId % 0x1_0000) * 0x1_0000_0000 + f.deviceId, 8)
    else if id == FLOW_START_SECONDS then Put(f.timestamp % 0x1_0000_0000, 4)
    else if id == FLOW_END_SECONDS then Put((f.timestamp + 60) % 0x1_0000_0000, 4)
    else []
  }

  function Columns(f: Flow, p: Protocols, fields: seq<Field>): Bytes {
    if fields == [] then [] else Column(f, p, fields[0].id) + Columns(f, p, fields[1..])
  }

  function Specifiers(fields: seq<Field>): (s: Bytes)
    ensures |s| == 4 * |fields|
  {
    if fields == [] then [] else Put(fields[0].id, 2) + Put(fields[0].length, 2) + Specifiers(fields[1..])
  }

  /** A set: its id, its length including this header (cut to 16 bits), its body. */
  function Set(id: u16, body: Bytes): Bytes {
    Put(id, 2) + Put(|body| + 4, 2) + body
  }

  function TemplateBody(fields: seq<Field>): Bytes {
    Put(TEMPLATE_ID, 2) + Put(|fields|, 2) + Specifiers(fields)
  }

  function RecordSets(flows: seq<Flow>, t: Tables): Bytes {
    if flows == [] then []
    else Set(TEMPLATE_ID, Columns(flows[0], t.protocols, t.fields)) + RecordSets(flows[1..], t)
  }

  function Sets(v: Version, flows: seq<Flow>, t: Tables): Bytes {
    Set(TemplateSetId(v), TemplateBody(t.fields)) + RecordSets(flows, t)
  }

  /** RFC 7011 section 3.1; export time, sequence number and observation domain are zero. */
  function IpfixHeader(payload: nat): (s: Bytes)
    ensures |s| == 16
  {
    Put(10, 2) + Put(payload + 16, 2) + Zeros(12)
  }

  /** RFC 3954 section 5.1; up-time, seconds, sequence number and source id are zero. */
  function V9Header(records: nat): (s: Bytes)
    ensures |s| == 20
  {
    Put(9, 2) + Put(records, 2) + Zeros(16)
  }

  function IpfixMessage(flows: seq<Flow>, t: Tables): Bytes {
    IpfixHeader(|Sets(Ipfix, flows, t)|) + Sets(Ipfix, flows, t)
  }

  function V9Message(flows: seq<Flow>, t: Tables): Bytes {
    V9Header(|flows| + 1) + Sets(Netflow9, flows, t)
  }

  // Sizes ---------------------------------------------------------------------------------------

  lemma {:induction false} ColumnWidth(f: Flow, p: Protocols, i: nat)
    requires i < |FIELDS|
    ensures |Column(f, p, FIELDS[i].id)| == FIELDS[i].length > 0
  {
  }

  function TotalLength(fields: seq<Field>): nat {
    if fields == [] then 0 else fields[0].length + TotalLength(fields[1..])
  }

  lemma {:induction false} ColumnsSize(f: Flow, p: Protocols, fields: seq<Field>)
    requires forall i :: 0 <= i < |fields| ==> |Column(f, p, fields[i].id)| == fields[i].length
    ensures |Columns(f, p, fields)| == TotalLength(fields)
  {
    if fields != [] {
      ColumnsSize(f, p, fields[1..]);
    }
  }

  /** The number of record bytes from column i on. */
  const REST: seq<nat> := [
    124, 123, 122, 120, 114, 108, 104, 100, 98, 96, 80, 64, 60, 56, 52, 48, 40, 32, 24, 16, 8, 4, 0]

  lemma {:induction false} RestStep(i: nat)
    requires i < |FIELDS|
    ensures REST[i] == FIELDS[i].length + REST[i + 1]
  {
  }

  lemma {:induction false} TotalFrom(t: Tables, i: nat)
    requires t.Ours() && i <= |FIELDS|
    ensures TotalLength(t.fields[i..]) == REST[i]
    decreases |FIELDS| - i
  {
    if i < |FIELDS| {
      TotalFrom(t, i + 1);
      assert t.fields[i..][1..] == t.fields[i + 1..];
      RestStep(i);
    }
  }

  /** A record takes 124 bytes, so encodeFlow's alignment padding is never written. */
  lemma {:induction false} RecordSize(f: Flow, t: Tables)
    requires t.Ours()
    ensures |Columns(f, t.protocols, t.fields)| == TotalLength(t.fields) == 124
  {
    forall i | 0 <= i < |t.fields| ensures |Column(f, t.protocols, t.fields[i].id)| == t.fields[i].length {
      ColumnWidth(f, t.protocols, i);
    }
    ColumnsSize(f, t.protocols, t.fields);
    TotalFrom(t, 0);
    assert t.fields[0..] == t.fields;
  }

  lemma {:induction false} RecordSetsSize(flows: seq<Flow>, t: Tables)
    requires t.Ours()
    ensures |RecordSets(flows, t)| == 128 * |flows|
  {
    if flows != [] {
      RecordSize(flows[0], t);
      RecordSetsSize(flows[1..], t);
    }
  }

  /** The template set takes 96 bytes and each flow's set 128. */
  lemma {:induction false} SetsSize(v: Version, flows: seq<Flow>, t: Tables)
    requires t.Ours()
    ensures |Sets(v, flows, t)| == 96 + 128 * |flows|
    ensures |TemplateBody(t.fields)| == 92
  {
    RecordSetsSize(flows, t);
  }

  /** The IPFIX message is 16 + 96 + 128n bytes, and its 16-bit length field says so iff n <= 511. */
  lemma {:induction false} IpfixLengthIsTrueIff(flows: seq<Flow>, t: Tables)
    requires t.Ours()
    ensures |IpfixMessage(flows, t)| == 16 + 96 + 128 * |flows|
    ensures Get(IpfixMessage(flows, t)[2..4]) == |IpfixMessage(flows, t)| <==> |flows| <= 511
  {
    SetsSize(Ipfix, flows, t);
    var m := IpfixMessage(flows, t);
    assert m[2..4] == Put(|m|, 2);
    GetPut(|m|, 2);
    PowTable();
  }
}
