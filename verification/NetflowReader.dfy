/**
 The reader that the formatter's `From` uses: pkg/util/netflow (decoder, ipfix, netflow9, translate)
 up to the fields of a decoded flow, written as functions over the bytes still to be read.
 */
module NetflowReader {
  import opened Integers
  import opened Options
  import opened BigEndian
  import opened FlowRecord
  import opened NetflowWire

  datatype Specifier = Specifier(id: u16, length: u16, enterprise: u32)

  datatype Template = Template(version: Version, id: u16, fields: seq<Specifier>)

  /** Templates by observation domain (or source id) and template id. */
  type Session = map<(u32, u16), Template>

  datatype Value =
    | Absent
    | U8(n8: u8) | U16(n16: u16) | U32(n32: u32) | U64(n64: u64)
    | IP(ip: Bytes) | MAC(mac: Bytes) | Seconds(secs: u32) | Raw(raw: Bytes)

  datatype Item = Item(id: u16, value: Value)

  type Record = seq<Item>

  datatype Message = Message(templates: seq<Template>, dataSets: seq<seq<Record>>)

  /** Stuck is a read loop that makes no progress and never returns; OptionsTemplates is a set of options
      templates, which is not part of this model. */
  datatype Outcome<T> = Done(value: T) | Failed | Stuck | OptionsTemplates

  /** Eof is io.EOF, the one error a data set treats as its end. */
  datatype Parsed<T> = Parsed(value: T, rest: Bytes) | Eof | Bad

  // Numbers -------------------------------------------------------------------------------------

  function Get16(s: Bytes): (n: u16)
    requires |s| == 2
  {
    var hi: int, lo: int := s[0], s[1];
    hi * 0x100 + lo
  }

  lemma {:induction false} Get16Put(n: u16)
    ensures Get16(Put(n, 2)) == n
  {
    assert Put(n, 2) == Put(n / 256, 1) + [n % 256];
    assert Put(n / 256, 1) == Put(n / 256 / 256, 0) + [n / 256 % 256];
  }

  /** The number in a field of at most eight bytes. */
  function GetUpTo(s: Bytes, bound: nat): (n: nat)
    requires Pow256(|s|) <= bound
    ensures n < bound
  {
    GetBound(s);
    Get(s)
  }

  // Templates -----------------------------------------------------------------------------------

  /** The reader calls a specifier enterprise-specific when its top bit is set (IPFIX only). */
  function ReadSpecifier(v: Version, buf: Bytes): (r: Parsed<Specifier>)
    ensures r.Parsed? ==> |r.rest| < |buf|
  {
    if |buf| < 4 then Bad
    else
      var id, length := Get16(buf[..2]), Get16(buf[2..4]);
      if v.Ipfix? && id >= 0x8000 then
        if |buf| < 8 then Bad
        else
          PowTable();
          Parsed(Specifier(id - 0x8000, length, GetUpTo(buf[4..8], 0x1_0000_0000)), buf[8..])
      else Parsed(Specifier(id, length, 0), buf[4..])
  }

  function ReadSpecifiers(v: Version, buf: Bytes, n: nat): (r: Parsed<seq<Specifier>>)
    ensures r.Parsed? ==> |r.rest| <= |buf|
  {
    if n == 0 then Parsed([], buf)
    else
      match ReadSpecifier(v, buf)
      case Parsed(s, rest) =>
        (match ReadSpecifiers(v, rest, n - 1)
         case Parsed(ss, rest') => Parsed([s] + ss, rest')
         case Eof => Eof
         case Bad => Bad)
      case Eof => Eof
      case Bad => Bad
  }

  /** Four bytes or fewer at the end of a template set are padding. */
  function ReadTemplates(v: Version, buf: Bytes): Outcome<seq<Template>>
    decreases |buf|
  {
    if |buf| <= 4 then Done([])
    else
      var id, count := Get16(buf[..2]), Get16(buf[2..4]);
      match ReadSpecifiers(v, buf[4..], count)
      case Parsed(fields, rest) =>
        (match ReadTemplates(v, rest)
         case Done(ts) => Done([Template(v, id, fields)] + ts)
         case _ => Failed)
      case _ => Failed
  }

  function Register(session: Session, domain: u32, templates: seq<Template>): Session
    decreases |templates|
  {
    if templates == [] then session
    else Register(session[(domain, templates[0].id) := templates[0]], domain, templates[1..])
  }

  // Data records --------------------------------------------------------------------------------

  /** bytes.Buffer.Read: a short read is zero-filled, and only an empty buffer is io.EOF. */
  function ReadPlain(buf: Bytes, length: nat): (r: Parsed<Bytes>)
    ensures r.Parsed? ==> |r.rest| <= |buf|
  {
    if length > 0 && buf == [] then Eof
    else
      var n := if length <= |buf| then length else |buf|;
      Parsed(buf[..n] + Zeros(length - n), buf[n..])
  }

  /** RFC 7011 section 7: one length byte, or 255 and two of them. */
  function ReadVariable(buf: Bytes): (r: Parsed<Bytes>)
    ensures r.Parsed? ==> |r.rest| <= |buf|
  {
    if buf == [] then Eof
    else if buf[0] < 0xff then ReadPlain(buf[1..], buf[0])
    else if |buf| == 1 then Eof
    else if |buf| == 2 then Bad
    else ReadPlain(buf[3..], Get16(buf[1..3]))
  }

  function ReadField(v: Version, buf: Bytes, s: Specifier): (r: Parsed<Bytes>)
    ensures r.Parsed? ==> |r.rest| <= |buf|
  {
    if v.Ipfix? && s.length == 0xffff then ReadVariable(buf) else ReadPlain(buf, s.length)
  }

  /** A NetFlow v9 record ends early when its bytes run out; an IPFIX record is then dropped. */
  function ReadFields(v: Version, buf: Bytes, specs: seq<Specifier>): (r: Parsed<seq<Bytes>>)
    ensures r.Parsed? ==> |r.rest| <= |buf| && |r.value| <= |specs|
  {
    if specs == [] || (v.Netflow9? && buf == []) then Parsed([], buf)
    else
      match ReadField(v, buf, specs[0])
      case Parsed(b, rest) =>
        (match ReadFields(v, rest, specs[1..])
         case Parsed(bs, rest') => Parsed([b] + bs, rest')
         case Eof => Eof
         case Bad => Bad)
      case Eof => Eof
      case Bad => Bad
  }

  datatype ElementType = Unsigned8 | Unsigned16 | Unsigned32 | Unsigned64 | MacAddress | Address(width: nat) | DateTimeSeconds

  /** The dictionary of information elements, for the elements that the formatter writes. */
  function Element(s: Specifier): Option<ElementType> {
    if s.enterprise != 0 then None
    else if s.id in {PROTOCOL, TOS} then Some(Unsigned8)
    else if s.id in {TCP_FLAGS, L4_SRC_PORT, L4_DST_PORT} then Some(Unsigned16)
    else if s.id in {INPUT_SNMP, OUTPUT_SNMP, SRC_AS, DST_AS} then Some(Unsigned32)
    else if s.id in {IN_BYTES, IN_PKTS, OUT_BYTES, OUT_PKTS, OBSERVATION_POINT_ID} then Some(Unsigned64)
    else if s.id in {SRC_MAC, DST_MAC} then Some(MacAddress)
    else if s.id in {IPV4_SRC_ADDR, IPV4_DST_ADDR} then Some(Address(4))
    else if s.id in {IPV6_SRC_ADDR, IPV6_DST_ADDR} then Some(Address(16))
    else if s.id in {FLOW_START_SECONDS, FLOW_END_SECONDS} then Some(DateTimeSeconds)
    else None
  }

  /** translate.Bytes: a value of the element's type, or the raw bytes when the width does not fit. */
  function Translate(bs: Bytes, t: ElementType): Value {
    PowTable();
    assert Pow256(3) == 0x100_0000;
    var n := |bs|;
    match t
    case Unsigned8 => if n >= 1 then U8(bs[0]) else Raw(bs)
    case Unsigned16 =>
      if n == 1 || n == 2 then U16(GetUpTo(bs, 0x1_0000)) else Raw(bs)
    case Unsigned32 =>
      if n == 1 || n == 2 || n == 3 || n == 4 then U32(GetUpTo(bs, 0x1_0000_0000)) else Raw(bs)
    case Unsigned64 =>
      if n == 1 || n == 2 || n == 3 || n == 4 || n == 8 then U64(GetUpTo(bs, 0x1_0000_0000_0000_0000)) else Raw(bs)
    case MacAddress => if n >= 6 then MAC(bs) else Raw(bs)
    case Address(w) => if n >= w then IP(bs) else Raw(bs)
    case DateTimeSeconds => if n >= 4 then Seconds(GetUpTo(bs[..4], 0x1_0000_0000)) else Raw(bs)
  }

  function ToItem(s: Specifier, bs: Bytes): Item {
    match Element(s)
    case Some(t) => Item(s.id, Translate(bs, t))
    case None => Item(s.id, Absent)
  }

  function ToRecord(specs: seq<Specifier>, fields: seq<Bytes>): Record
    requires |fields| <= |specs|
  {
    if fields == [] then [] else [ToItem(specs[0], fields[0])] + ToRecord(specs[1..], fields[1..])
  }

  function ReadIpfixRecords(buf: Bytes, specs: seq<Specifier>): Outcome<seq<Record>>
    decreases |buf|
  {
    if buf == [] then Done([])
    else
      match ReadFields(Ipfix, buf, specs)
      case Eof => Done([])
      case Bad => Failed
      case Parsed(fields, rest) =>
        if |rest| == |buf| then Stuck
        else
          match ReadIpfixRecords(rest, specs)
          case Done(rs) => Done([ToRecord(specs, fields)] + rs)
          case other => other
  }

  function RecordBytes(specs: seq<Specifier>): nat {
    if specs == [] then 0 else specs[0].length + RecordBytes(specs[1..])
  }

  function ReadV9Records(buf: Bytes, specs: seq<Specifier>): Outcome<seq<Record>>
    decreases |buf|
  {
    if |buf| < 4 then Done([])
    else if RecordBytes(specs) == 0 then Stuck
    else
      var n := if RecordBytes(specs) <= |buf| then RecordBytes(specs) else |buf|;
      match ReadFields(Netflow9, buf[..n], specs)
      case Parsed(fields, _) =>
        (match ReadV9Records(buf[n..], specs)
         case Done(rs) => Done([ToRecord(specs, fields)] + rs)
         case other => other)
      case _ => Failed
  }

  function ReadRecords(v: Version, buf: Bytes, specs: seq<Specifier>): Outcome<seq<Record>> {
    if v.Ipfix? then ReadIpfixRecords(buf, specs) else ReadV9Records(buf, specs)
  }

  // Messages ------------------------------------------------------------------------------------

  /** Walks the sets by their length fields. NetFlow v9 reads at most `count` of them, IPFIX all. */
  function ReadSets(v: Version, count: nat, domain: u32, buf: Bytes, session: Session, msg: Message)
    : (r: (Outcome<Message>, Session))
    decreases |buf|
  {
    if buf == [] || (v.Netflow9? && count == 0) then (Done(msg), session)
    else if |buf| < 4 then (Failed, session)
    else
      var id, length := Get16(buf[..2]), Get16(buf[2..4]);
      if length <= 4 || |buf| < length then (Failed, session)
      else
        var body, rest := buf[4..length], buf[length..];
        var left := if v.Ipfix? then count else count - 1;
        if v.Ipfix? && id < 2 then (Failed, session)
        else if id == TemplateSetId(v) then
          match ReadTemplates(v, body)
          case Done(ts) =>
            ReadSets(v, left, domain, rest, Register(session, domain, ts), msg.(templates := msg.templates + ts))
          case _ => (Failed, session)
        else if id == TemplateSetId(v) + 1 then (OptionsTemplates, session)
        else if (v.Ipfix? && id < 256) || (domain, id) !in session then
          ReadSets(v, left, domain, rest, session, msg)
        else if session[(domain, id)].version != v then (Failed, session)
        else
          match ReadRecords(v, body, session[(domain, id)].fields)
          case Done(rs) =>
            ReadSets(v, left, domain, rest, session, msg.(dataSets := msg.dataSets + [rs]))
          case Stuck => (Stuck, session)
          case _ => (Failed, session)
  }

  const NoSets := Message([], [])

  function ReadIpfix(data: Bytes, session: Session): (Outcome<Message>, Session) {
    if |data| < 16 then (Failed, session)
    else
      var length := Get16(data[2..4]);
      if length <= 16 || |data| < length then (Failed, session)
      else
        PowTable();
        ReadSets(Ipfix, 0, GetUpTo(data[12..16], 0x1_0000_0000), data[16..length], session, NoSets)
  }

  function ReadV9(data: Bytes, session: Session): (Outcome<Message>, Session) {
    if |data| < 20 then (Failed, session)
    else
      var count := Get16(data[2..4]);
      if count == 0 then (Done(NoSets), session)
      else if |data| == 20 then (Failed, session)
      else
        PowTable();
        ReadSets(Netflow9, count, GetUpTo(data[16..20], 0x1_0000_0000), data[20..], session, NoSets)
  }

  // Flows ---------------------------------------------------------------------------------------

  /** setCHFField: None when the value does not have the type the field needs. */
  function SetField(f: Flow, p: Protocols, id: u16, v: Value): Option<Flow> {
    if id == PROTOCOL then if v.U8? then Some(f.(protocol := p.NameOf(v.n8))) else None
    else if id == TOS then if v.U8? then Some(f.(tos := v.n8)) else None
    else if id == TCP_FLAGS then if v.U16? then Some(f.(tcpFlags := v.n16)) else None
    else if id == L4_SRC_PORT then if v.U16? then Some(f.(srcPort := v.n16)) else None
    else if id == L4_DST_PORT then if v.U16? then Some(f.(dstPort := v.n16)) else None
    else if id == IPV4_SRC_ADDR then
      if v.IP? then Some(if PrintIP(v.ip) == V4(Zeros(4)) then f else f.(srcAddr := PrintIP(v.ip))) else None
    else if id == IPV4_DST_ADDR then
      if v.IP? then Some(if PrintIP(v.ip) == V4(Zeros(4)) then f else f.(dstAddr := PrintIP(v.ip))) else None
    else if id == IPV6_SRC_ADDR then
      if v.IP? then Some(if PrintIP(v.ip) == V6(Zeros(16)) then f else f.(srcAddr := PrintIP(v.ip))) else None
    else if id == IPV6_DST_ADDR then
      if v.IP? then Some(if PrintIP(v.ip) == V6(Zeros(16)) then f else f.(dstAddr := PrintIP(v.ip))) else None
    else if id == INPUT_SNMP then if v.U32? then Some(f.(inputPort := v.n32)) else None
    else if id == OUTPUT_SNMP then if v.U32? then Some(f.(outputPort := v.n32)) else None
    else if id == SRC_AS then if v.U32? then Some(f.(srcAs := v.n32)) else None
    else if id == DST_AS then if v.U32? then Some(f.(dstAs := v.n32)) else None
    else if id == IN_PKTS then if v.U64? then Some(f.(inPkts := v.n64)) else None
    else if id == IN_BYTES then if v.U64? then Some(f.(inBytes := v.n64)) else None
    else if id == OUT_PKTS then if v.U64? then Some(f.(outPkts := v.n64)) else None
    else if id == OUT_BYTES then if v.U64? then Some(f.(outBytes := v.n64)) else None
    else if id == SRC_MAC then if v.MAC? then Some(f.(srcMac := Hw(v.mac))) else None
    else if id == DST_MAC then if v.MAC? then Some(f.(dstMac := Hw(v.mac))) else None
    else if id == FLOW_START_SECONDS then if v.Seconds? then Some(f.(timestamp := v.secs)) else None
    else Some(f)
  }

  /** A record whose fields do not all fit is thrown away. */
  function SetFields(f: Flow, p: Protocols, record: Record): Option<Flow>
    decreases |record|
  {
    if record == [] then Some(f)
    else
      match SetField(f, p, record[0].id, record[0].value)
      case None => None
      case Some(f') => SetFields(f', p, record[1..])
  }

  function FlowsOf(p: Protocols, records: seq<Record>): seq<Flow> {
    if records == [] then []
    else
      match SetFields(Fresh, p, records[0])
      case None => FlowsOf(p, records[1..])
      case Some(f) => [f] + FlowsOf(p, records[1..])
  }

  function FlowsOfSets(p: Protocols, sets: seq<seq<Record>>): seq<Flow> {
    if sets == [] then [] else FlowsOf(p, sets[0]) + FlowsOfSets(p, sets[1..])
  }

  /** NetflowFormat.From; any version but 9 and 10 ends in an error. */
  function From(data: Bytes, p: Protocols, session: Session): (Outcome<seq<Flow>>, Session) {
    if |data| < 2 then (Failed, session)
    else
      var version := Get16(data[..2]);
      if version != 9 && version != 10 then (Failed, session)
      else
        var (m, session') := if version == 10 then ReadIpfix(data, session) else ReadV9(data, session);
        match m
        case Done(msg) => (Done(FlowsOfSets(p, msg.dataSets)), session')
        case Failed => (Failed, session')
        case Stuck => (Stuck, session')
        case OptionsTemplates => (OptionsTemplates, session')
  }
}
