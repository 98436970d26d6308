/**
 Reading what other exporters send: fields of variable length, enterprise elements, several records in a set, unknown
 and broken sets. pkg/util/netflow.
 */
module NetflowForeign {
  import opened Integers
  import opened Options
  import opened BigEndian
  import opened FlowRecord
  import opened NetflowWire
  import opened NetflowReader
  import opened NetflowRoundTrip

  lemma {:induction false} Slices(a: Bytes, b: Bytes, c: Bytes)
    ensures (a + b + c)[..|a|] == a && (a + b + c)[|a|..|a| + |b|] == b && (a + b + c)[|a| + |b|..] == c
    ensures (a + b + c)[|a|..] == b + c && (b + c)[..|b|] == b && (b + c)[|b|..] == c
  {
  }

  // Specifiers ----------------------------------------------------------------------------------

  /** A specifier of an enterprise element has bit 15 of its number set and the enterprise behind its length. */
  lemma {:induction false} EnterpriseReads(id: u16, length: u16, enterprise: u32, rest: Bytes)
    requires id < 0x8000
    ensures ReadSpecifier(Ipfix, Put(id + 0x8000, 2) + Put(length, 2) + Put(enterprise, 4) + rest)
         == Parsed(Specifier(id, length, enterprise), rest)
  {
    var buf := Put(id + 0x8000, 2) + Put(length, 2) + Put(enterprise, 4) + rest;
    Get16Put(id + 0x8000);
    Get16Put(length);
    GetPut(enterprise, 4);
    PowTable();
    hide Put, Get, Get16;
    assert buf[..2] == Put(id + 0x8000, 2) && buf[2..4] == Put(length, 2);
    assert buf[4..8] == Put(enterprise, 4) && buf[8..] == rest;
  }

  /** NetFlow v9 has no enterprise elements. */
  lemma {:induction false} PlainReads(v: Version, id: u16, length: u16, rest: Bytes)
    requires v.Netflow9? || id < 0x8000
    ensures ReadSpecifier(v, Put(id, 2) + Put(length, 2) + rest) == Parsed(Specifier(id, length, 0), rest)
  {
    var buf := Put(id, 2) + Put(length, 2) + rest;
    Get16Put(id);
    Get16Put(length);
    hide Put, Get16;
    Slices(Put(id, 2), Put(length, 2), rest);
  }

  // Templates -----------------------------------------------------------------------------------

  datatype Layout = Layout(id: u16, fields: seq<Field>)

  ghost predicate Writable(ls: seq<Layout>) {
    forall i :: 0 <= i < |ls| ==>
      |ls[i].fields| < 0x1_0000 && forall j :: 0 <= j < |ls[i].fields| ==> ls[i].fields[j].id < 0x8000
  }

  function Written(ls: seq<Layout>): Bytes {
    if ls == [] then []
    else Put(ls[0].id, 2) + Put(|ls[0].fields|, 2) + Specifiers(ls[0].fields) + Written(ls[1..])
  }

  function TemplatesOf(v: Version, ls: seq<Layout>): seq<Template> {
    if ls == [] then [] else [Template(v, ls[0].id, SpecsOf(ls[0].fields))] + TemplatesOf(v, ls[1..])
  }

  /** All templates of a set are read, and up to four bytes behind them are padding. A template without columns needs
      something behind it. */
  lemma {:induction false} AllTemplatesRead(v: Version, ls: seq<Layout>, padding: Bytes)
    requires Writable(ls) && |padding| <= 4 && (ls != [] && ls[|ls| - 1].fields == [] ==> padding != [])
    ensures ReadTemplates(v, Written(ls) + padding) == Done(TemplatesOf(v, ls))
    decreases |ls|
  {
    if ls == [] {
      assert Written(ls) + padding == padding;
    } else {
      var fields, rest := ls[0].fields, Written(ls[1..]) + padding;
      FirstWritable(ls);
      AllTemplatesRead(v, ls[1..], padding);
      WrittenFirst(ls, padding);
      hide Writable, ReadTemplates;
      FirstTemplateRead(v, ls[0].id, fields, rest, TemplatesOf(v, ls[1..]));
    }
  }

  lemma {:induction false} FirstWritable(ls: seq<Layout>)
    requires Writable(ls) && ls != []
    ensures |ls[0].fields| < 0x1_0000 && forall j :: 0 <= j < |ls[0].fields| ==> ls[0].fields[j].id < 0x8000
    ensures Writable(ls[1..])
  {
    assert forall i :: 0 <= i < |ls[1..]| ==> ls[1..][i] == ls[i + 1];
  }

  lemma {:induction false} WrittenFirst(ls: seq<Layout>, padding: Bytes)
    requires ls != []
    ensures Written(ls) + padding
         == Put(ls[0].id, 2) + Put(|ls[0].fields|, 2) + Specifiers(ls[0].fields) + (Written(ls[1..]) + padding)
    ensures |ls| > 1 ==> Written(ls[1..]) != []
  {
    hide Put, Specifiers;
  }

  lemma {:induction false} FirstTemplateRead(v: Version, id: u16, fields: seq<Field>, rest: Bytes, ts: seq<Template>)
    requires |fields| < 0x1_0000 && (forall j :: 0 <= j < |fields| ==> fields[j].id < 0x8000)
    requires ReadTemplates(v, rest) == Done(ts) && (fields != [] || rest != [])
    ensures ReadTemplates(v, Put(id, 2) + Put(|fields|, 2) + Specifiers(fields) + rest)
         == Done([Template(v, id, SpecsOf(fields))] + ts)
  {
    var buf := Put(id, 2) + Put(|fields|, 2) + Specifiers(fields) + rest;
    Get16Put(id);
    Get16Put(|fields|);
    SpecifiersReadBack(v, fields, rest);
    hide Put, Get16, ReadSpecifiers;
    assert buf == Put(id, 2) + Put(|fields|, 2) + (Specifiers(fields) + rest);
    Slices(Put(id, 2), Put(|fields|, 2), Specifiers(fields) + rest);
  }

  // Fields --------------------------------------------------------------------------------------

  /** RFC 7011 section 7: a length below 255 is one byte, others are a byte of 255 and two bytes. */
  function VariableLength(b: Bytes): Bytes
    requires |b| < 0x1_0000
  {
    if |b| < 255 then [|b|] + b else [255] + Put(|b|, 2) + b
  }

  lemma {:induction false} VariableReads(b: Bytes, rest: Bytes, s: Specifier)
    requires |b| < 0x1_0000 && s.length == 0xffff && (b != [] || rest != [])
    ensures ReadField(Ipfix, VariableLength(b) + rest, s) == Parsed(b, rest)
  {
    if |b| < 255 {
      ShortLengthReads(b, rest);
    } else {
      LongLengthReads(b, rest);
    }
  }

  lemma {:induction false} PlainBytesRead(b: Bytes, rest: Bytes)
    requires b != [] || rest != []
    ensures ReadPlain(b + rest, |b|) == Parsed(b, rest)
  {
    Slices([], b, rest);
    assert [] + b + rest == b + rest && b + Zeros(0) == b;
  }

  lemma {:induction false} ShortLengthReads(b: Bytes, rest: Bytes)
    requires |b| < 255 && (b != [] || rest != [])
    ensures ReadVariable([|b|] + b + rest) == Parsed(b, rest)
  {
    var buf := [|b|] + b + rest;
    assert buf[0] == |b| && buf[1..] == b + rest;
    PlainBytesRead(b, rest);
    hide ReadPlain;
  }

  lemma {:induction false} LongLengthReads(b: Bytes, rest: Bytes)
    requires 255 <= |b| < 0x1_0000
    ensures ReadVariable([255] + Put(|b|, 2) + b + rest) == Parsed(b, rest)
  {
    var buf := [255] + Put(|b|, 2) + b + rest;
    Get16Put(|b|);
    PlainBytesRead(b, rest);
    hide Put, Get16, ReadPlain;
    assert buf == [255] + Put(|b|, 2) + (b + rest);
    Slices([255], Put(|b|, 2), b + rest);
    assert buf[0] == 255 && buf[1..3] == Put(|b|, 2) && buf[3..] == b + rest;
  }

  /** A field that is cut short is filled up with zeros; where nothing is left, the set ends. */
  lemma {:induction false} ShortFieldReads(v: Version, buf: Bytes, s: Specifier)
    requires v.Ipfix? ==> s.length != 0xffff
    ensures |buf| >= s.length ==> ReadField(v, buf, s) == Parsed(buf[..s.length], buf[s.length..])
    ensures 0 < |buf| < s.length ==> ReadField(v, buf, s) == Parsed(buf + Zeros(s.length - |buf|), [])
    ensures buf == [] && s.length > 0 ==> ReadField(v, buf, s) == Eof
  {
    if |buf| >= s.length {
      assert buf[..s.length] + Zeros(0) == buf[..s.length];
    } else {
      assert buf[..|buf|] == buf && buf[|buf|..] == [];
    }
  }

  /** Numbers may come in fewer bytes than their type has, except for 64 bits in five to seven. */
  lemma {:induction false} NumbersReadShort(bs: Bytes)
    ensures 1 <= |bs| <= 2 ==> Translate(bs, Unsigned16).U16? && Translate(bs, Unsigned16).n16 == Get(bs)
    ensures 1 <= |bs| <= 4 ==> Translate(bs, Unsigned32).U32? && Translate(bs, Unsigned32).n32 == Get(bs)
    ensures |bs| in {1, 2, 3, 4, 8} ==> Translate(bs, Unsigned64).U64? && Translate(bs, Unsigned64).n64 == Get(bs)
    ensures |bs| in {0, 5, 6, 7} ==> Translate(bs, Unsigned64).Raw?
  {
    PowTable();
    assert Pow256(3) == 0x100_0000;
  }

  /** Elements that the dictionary of this model does not have are read past without a value: it has none of an
      enterprise, and only those that the encoder writes. */
  lemma {:induction false} UnknownIsAbsent(s: Specifier, bs: Bytes)
    requires s.enterprise != 0 || s.id in {3, 9, 13, 15, 18, 61, 89, 255}
    ensures ToItem(s, bs) == NetflowReader.Item(s.id, Absent)
  {
  }

  // Records -------------------------------------------------------------------------------------

  /** Fields one after the other, as the specifiers say. */
  ghost predicate Fits(specs: seq<Specifier>, fields: seq<Bytes>) {
    |fields| == |specs| && forall i :: 0 <= i < |specs| ==> 0 < specs[i].length < 0xffff && |fields[i]| == specs[i].length
  }

  function Together(fields: seq<Bytes>): Bytes {
    if fields == [] then [] else fields[0] + Together(fields[1..])
  }

  lemma {:induction false} FieldsRead(v: Version, specs: seq<Specifier>, fields: seq<Bytes>, rest: Bytes)
    requires Fits(specs, fields)
    ensures ReadFields(v, Together(fields) + rest, specs) == Parsed(fields, rest)
    ensures RecordBytes(specs) == |Together(fields)|
    decreases |specs|
  {
    if specs == [] {
      assert Together(fields) + rest == rest;
    } else {
      var more := Together(fields[1..]) + rest;
      assert Together(fields) + rest == fields[0] + more;
      ShortFieldReads(v, fields[0] + more, specs[0]);
      assert (fields[0] + more)[..|fields[0]|] == fields[0] && (fields[0] + more)[|fields[0]|..] == more;
      FieldsRead(v, specs[1..], fields[1..], rest);
      assert fields == [fields[0]] + fields[1..];
    }
  }

  function Records(specs: seq<Specifier>, rows: seq<seq<Bytes>>): (rs: seq<Record>)
    requires forall i :: 0 <= i < |rows| ==> Fits(specs, rows[i])
  {
    if rows == [] then []
    else
      assert Fits(specs, rows[0]);
      [ToRecord(specs, rows[0])] + Records(specs, rows[1..])
  }

  function Body(rows: seq<seq<Bytes>>): Bytes {
    if rows == [] then [] else Together(rows[0]) + Body(rows[1..])
  }

  /** All records of a set are read, in their order; up to three bytes of padding behind v9 records are not. */
  lemma {:induction false} AllRecordsRead(v: Version, specs: seq<Specifier>, rows: seq<seq<Bytes>>, padding: Bytes)
    requires specs != [] && forall i :: 0 <= i < |rows| ==> Fits(specs, rows[i])
    requires RecordBytes(specs) >= 4 && (if v.Ipfix? then padding == [] else |padding| < 4)
    ensures ReadRecords(v, Body(rows) + padding, specs) == Done(Records(specs, rows))
    decreases |rows|
  {
    if rows == [] {
      assert Body(rows) + padding == padding;
    } else {
      var first, more := Together(rows[0]), Body(rows[1..]) + padding;
      assert Body(rows) + padding == first + more;
      AllRecordsRead(v, specs, rows[1..], padding);
      FirstRecordRead(v, specs, rows[0], more, Records(specs, rows[1..]));
    }
  }

  lemma {:induction false} FirstRecordRead(v: Version, specs: seq<Specifier>, row: seq<Bytes>, more: Bytes,
                                           rs: seq<Record>)
    requires specs != [] && Fits(specs, row) && RecordBytes(specs) >= 4
    requires ReadRecords(v, more, specs) == Done(rs)
    ensures ReadRecords(v, Together(row) + more, specs) == Done([ToRecord(specs, row)] + rs)
  {
    var first := Together(row);
    Slices([], first, more);
    assert [] + first + more == first + more && first + [] == first;
    FieldsRead(v, specs, row, if v.Ipfix? then more else []);
    hide ReadFields, ToRecord, Together, RecordBytes, Fits;
    var buf := first + more;
    assert |buf| == |first| + |more| && buf != [];
  }

  // Sets ----------------------------------------------------------------------------------------

  /** A data set without a template is passed over. */
  lemma {:induction false} UnknownSetSkipped(v: Version, count: nat, domain: u32, id: u16, body: Bytes, rest: Bytes,
                                             session: Session, msg: Message)
    requires 0 < |body| && |body| + 4 < 0x1_0000 && id >= 256 && (domain, id) !in session
    requires v.Netflow9? ==> count > 0
    ensures ReadSets(v, count, domain, Set(id, body) + rest, session, msg)
         == ReadSets(v, if v.Ipfix? then count else count - 1, domain, rest, session, msg)
  {
    SetReads(id, body, rest);
    hide Set, ReadTemplates, ReadRecords, Register;
  }

  /** The set numbers below 256 that mean nothing are passed over in IPFIX, template or not; 0 and 1 fail it. */
  lemma {:induction false} ReservedSets(count: nat, domain: u32, id: u16, body: Bytes, rest: Bytes, session: Session,
                                        msg: Message)
    requires 0 < |body| && |body| + 4 < 0x1_0000
    ensures 4 <= id < 256 ==>
              ReadSets(Ipfix, count, domain, Set(id, body) + rest, session, msg)
              == ReadSets(Ipfix, count, domain, rest, session, msg)
    ensures id < 2 ==> ReadSets(Ipfix, count, domain, Set(id, body) + rest, session, msg) == (Failed, session)
  {
    SetReads(id, body, rest);
    hide Set, ReadTemplates, ReadRecords, Register;
  }

  /** A set of options templates, 3 in IPFIX and 1 in v9, ends the reading. */
  lemma {:induction false} OptionsEnd(v: Version, count: nat, domain: u32, body: Bytes, rest: Bytes, session: Session,
                                      msg: Message)
    requires 0 < |body| && |body| + 4 < 0x1_0000 && (v.Netflow9? ==> count > 0)
    ensures ReadSets(v, count, domain, Set(if v.Ipfix? then 3 else 1, body) + rest, session, msg)
         == (OptionsTemplates, session)
  {
    SetReads(if v.Ipfix? then 3 else 1, body, rest);
    hide Set, ReadTemplates, ReadRecords, Register;
  }

  /** Records of no length keep the reader of a data set in its loop. */
  lemma {:induction false} EmptyRecordsStick(v: Version, count: nat, domain: u32, id: u16, body: Bytes, rest: Bytes,
                                             session: Session, msg: Message)
    requires 4 <= |body| && |body| + 4 < 0x1_0000 && id >= 256 && (v.Netflow9? ==> count > 0)
    requires (domain, id) in session && session[(domain, id)] == Template(v, id, [])
    ensures ReadSets(v, count, domain, Set(id, body) + rest, session, msg) == (Stuck, session)
  {
    SetReads(id, body, rest);
    assert ReadFields(v, body, []) == Parsed([], body);
    assert ReadRecords(v, body, []) == Stuck;
    hide Set, ReadTemplates, ReadRecords, Register;
  }

  /** A set that says it is longer than what is left, or no longer than its header, fails the message. */
  lemma {:induction false} BrokenLengthFails(v: Version, count: nat, domain: u32, buf: Bytes, session: Session,
                                             msg: Message)
    requires |buf| >= 4 && (v.Netflow9? ==> count > 0)
    requires Get16(buf[2..4]) <= 4 || Get16(buf[2..4]) > |buf|
    ensures ReadSets(v, count, domain, buf, session, msg) == (Failed, session)
  {
  }

  /** A template is known from then on, in its own observation domain only, and replaces one of its number. */
  lemma {:induction false} TemplateKnown(session: Session, domain: u32, t: Template, other: (u32, u16))
    ensures Register(session, domain, [t]) == session[(domain, t.id) := t]
    ensures other != (domain, t.id) ==>
              (other in Register(session, domain, [t]) <==> other in session)
              && (other in session ==> Register(session, domain, [t])[other] == session[other])
  {
    assert [t][1..] == [];
  }

  /** A template of one version is not used for the other. */
  lemma {:induction false} OtherVersionFails(v: Version, count: nat, domain: u32, id: u16, body: Bytes, rest: Bytes,
                                             session: Session, msg: Message)
    requires 0 < |body| && |body| + 4 < 0x1_0000 && id >= 256 && (v.Netflow9? ==> count > 0)
    requires (domain, id) in session && session[(domain, id)].version != v
    ensures ReadSets(v, count, domain, Set(id, body) + rest, session, msg) == (Failed, session)
  {
    SetReads(id, body, rest);
    hide Set, ReadTemplates, ReadRecords, Register;
  }

  /** Only versions 9 and 10 are read. */
  lemma {:induction false} OtherMessagesFail(data: Bytes, p: Protocols, session: Session)
    requires |data| < 2 || (Get(data[..2]) != 9 && Get(data[..2]) != 10)
    ensures From(data, p, session) == (Failed, session)
  {
    if |data| >= 2 {
      Get16IsGet(data[..2]);
    }
  }

  lemma {:induction false} Get16IsGet(s: Bytes)
    requires |s| == 2
    ensures Get16(s) == Get(s) == (s[0] as int) * 0x100 + s[1]
  {
    assert s[..1] == [s[0]] && [s[0]][..0] == [];
    assert Get([s[0]]) == Get([]) * 256 + s[0];
  }

  /** A message shorter than its header fails, and an IPFIX message whose length is not in order. A v9 message without
      sets is empty. */
  lemma {:induction false} BrokenHeadersFail(data: Bytes, p: Protocols, session: Session)
    requires |data| >= 2
    ensures Get16(data[..2]) == 10 && |data| < 16 ==> From(data, p, session) == (Failed, session)
    ensures Get16(data[..2]) == 10 && |data| >= 16 && (Get16(data[2..4]) <= 16 || Get16(data[2..4]) > |data|) ==>
              From(data, p, session) == (Failed, session)
    ensures Get16(data[..2]) == 9 && |data| < 20 ==> From(data, p, session) == (Failed, session)
    ensures Get16(data[..2]) == 9 && |data| >= 20 && Get16(data[2..4]) == 0 ==>
              From(data, p, session) == (Done([]), session)
    ensures Get16(data[..2]) == 9 && |data| == 20 && Get16(data[2..4]) > 0 ==>
              From(data, p, session) == (Failed, session)
  {
    hide ReadSets, Get16;
  }

  /** A protocol number without a name is read as no name. */
  lemma {:induction false} UnnamedProtocol(f: Flow, p: Protocols, n: u8)
    requires n !in p.names
    ensures SetField(f, p, PROTOCOL, U8(n)) == Some(f.(protocol := ""))
  {
  }
}
