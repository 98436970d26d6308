/**
 The bytes on the wire, position by position: what a collector that knows nothing of this encoder finds in the
 template and in a record. Records: pkg/formats/netflow/netflow.go; element numbers: the IANA IPFIX registry.
 */
module NetflowLayout {
  import opened Integers
  import opened BigEndian
  import opened FlowRecord
  import opened NetflowWire

  // Numbers -------------------------------------------------------------------------------------

  /** The high byte comes first. */
  lemma {:induction false} TwoBytes(n: u16)
    ensures Put(n, 2) == [n / 0x100, n % 0x100]
  {
    assert Put(n / 256, 1) == Put(n / 256 / 256, 0) + [n / 256 % 256];
  }

  lemma {:induction false} NumberRead(n: nat)
    ensures Get(Put(n, 1)) == n % 0x100 && Get(Put(n, 2)) == n % 0x1_0000
    ensures Get(Put(n, 4)) == n % 0x1_0000_0000 && Get(Put(n, 8)) == n % 0x1_0000_0000_0000_0000
  {
    hide Get, Put;
    PowTable();
    GetPut(n, 1);
    GetPut(n, 2);
    GetPut(n, 4);
    GetPut(n, 8);
  }

  // The template --------------------------------------------------------------------------------

  /** The IANA numbers of the columns, and their widths. */
  const Elements: seq<nat> := [4, 5, 6, 56, 80, 8, 12, 7, 11, 27, 28, 16, 17, 10, 14, 1, 23, 2, 24, 138, 150, 151]
  const Widths: seq<nat> := [1, 1, 2, 6, 6, 4, 4, 2, 2, 16, 16, 4, 4, 4, 4, 8, 8, 8, 8, 8, 4, 4]

  lemma {:induction false} FieldAt(i: nat)
    requires i < 22
    ensures |FIELDS| == 22 && FIELDS[i] == Field(Elements[i], Widths[i])
  {
  }

  lemma {:induction false} SpecifierAt(fields: seq<Field>, i: nat)
    requires i < |fields|
    ensures Specifiers(fields)[4 * i..4 * i + 4] == Put(fields[i].id, 2) + Put(fields[i].length, 2)
  {
    var first, rest := Put(fields[0].id, 2) + Put(fields[0].length, 2), Specifiers(fields[1..]);
    if i > 0 {
      SpecifierAt(fields[1..], i - 1);
      hide Put, Specifiers;
      assert (first + rest)[4 * i..4 * i + 4] == rest[4 * (i - 1)..4 * (i - 1) + 4];
    }
  }

  /**
   The first 96 bytes after the header: a set with id 2 in IPFIX and 0 in v9, that holds template 256 with 22
   columns, each with its element number and its width.
   */
  lemma {:induction false} TemplateLayout(v: Version, flows: seq<Flow>, t: Tables)
    requires t.Ours()
    ensures var s := Sets(v, flows, t);
            && |s| >= 96 && s[..8] == [0, if v.Ipfix? then 2 else 0, 0, 96, 1, 0, 0, 22]
            && forall i :: 0 <= i < 22 ==> s[8 + 4 * i..12 + 4 * i] == [0, Elements[i], 0, Widths[i]]
  {
    var s, specs, head := Sets(v, flows, t), Specifiers(t.fields), [0, if v.Ipfix? then 2 else 0, 0, 96, 1, 0, 0, 22];
    TemplateStarts(v, flows, t);
    hide Sets, Specifiers;
    forall i | 0 <= i < 22 ensures s[8 + 4 * i..12 + 4 * i] == [0, Elements[i], 0, Widths[i]] {
      SpecifierBytes(t, i);
      Behind(head, specs, RecordSets(flows, t), 4 * i);
    }
  }

  lemma {:induction false} TemplateStarts(v: Version, flows: seq<Flow>, t: Tables)
    requires t.Ours()
    ensures var head := [0, if v.Ipfix? then 2 else 0, 0, 96, 1, 0, 0, 22];
            && |Specifiers(t.fields)| == 88 && Sets(v, flows, t) == head + Specifiers(t.fields) + RecordSets(flows, t)
            && Sets(v, flows, t)[..8] == head
  {
    SetsSize(v, flows, t);
    TwoBytes(TemplateSetId(v));
    TwoBytes(96);
    TwoBytes(256);
    TwoBytes(22);
    hide Put, Specifiers, RecordSets;
  }

  lemma {:induction false} SpecifierBytes(t: Tables, i: nat)
    requires t.Ours() && i < 22
    ensures |Specifiers(t.fields)| == 88 && Specifiers(t.fields)[4 * i..4 * i + 4] == [0, Elements[i], 0, Widths[i]]
  {
    hide Put, Specifiers;
    FieldAt(i);
    SpecifierAt(t.fields, i);
    SmallElements(i);
    hide FIELDS, Elements, Widths;
    TwoSmall(t.fields[i].id, t.fields[i].length);
  }

  lemma {:induction false} TwoSmall(a: nat, b: nat)
    requires a < 0x100 && b < 0x100
    ensures Put(a, 2) + Put(b, 2) == [0, a, 0, b]
  {
    TwoBytes(a);
    TwoBytes(b);
  }

  lemma {:induction false} SmallElements(i: nat)
    requires i < 22
    ensures Elements[i] < 0x100 && Widths[i] < 0x100
  {
  }

  lemma {:induction false} Behind(head: Bytes, specs: Bytes, rest: Bytes, i: nat)
    requires |head| == 8 && i + 4 <= |specs|
    ensures (head + specs + rest)[8 + i..12 + i] == specs[i..i + 4]
  {
  }

  // The record ----------------------------------------------------------------------------------

  /** Where the columns start. */
  const Offsets: seq<nat> := [
    0, 1, 2, 4, 10, 16, 20, 24, 26, 28, 44, 60, 64, 68, 72, 76, 84, 92, 100, 108, 116, 120, 124]

  lemma {:induction false} OffsetStep(i: nat)
    requires i < 22
    ensures Offsets[i + 1] == Offsets[i] + Widths[i]
  {
  }

  lemma {:induction false} ColumnsFrom(f: Flow, t: Tables, i: nat)
    requires t.Ours() && i <= 22
    ensures var all := Columns(f, t.protocols, t.fields);
            |all| == 124 && Offsets[i] <= 124 && all[Offsets[i]..] == Columns(f, t.protocols, t.fields[i..])
  {
    var all := Columns(f, t.protocols, t.fields);
    RecordSize(f, t);
    if i == 0 {
      assert t.fields[0..] == t.fields;
    } else {
      ColumnsFrom(f, t, i - 1);
      FieldAt(i - 1);
      OffsetStep(i - 1);
      ColumnWidth(f, t.protocols, i - 1);
      assert t.fields[i - 1..][0] == t.fields[i - 1] && t.fields[i - 1..][1..] == t.fields[i..];
      var col := Column(f, t.protocols, t.fields[i - 1].id);
      hide Column, Columns;
      assert all[Offsets[i]..] == all[Offsets[i - 1]..][|col|..];
    }
  }

  lemma {:induction false} ColumnAt(f: Flow, t: Tables, i: nat)
    requires t.Ours() && i < 22
    ensures |Columns(f, t.protocols, t.fields)| == 124 && Offsets[i] + Widths[i] == Offsets[i + 1] <= 124
    ensures Columns(f, t.protocols, t.fields)[Offsets[i]..Offsets[i] + Widths[i]] == Column(f, t.protocols, Elements[i])
  {
    ColumnsFrom(f, t, i);
    ColumnsFrom(f, t, i + 1);
    FieldAt(i);
    OffsetStep(i);
    ColumnWidth(f, t.protocols, i);
    assert t.fields[i..][0] == t.fields[i];
    var all, col := Columns(f, t.protocols, t.fields), Column(f, t.protocols, Elements[i]);
    assert col <= all[Offsets[i]..];
    hide Column, Columns;
    assert all[Offsets[i]..Offsets[i] + Widths[i]] == all[Offsets[i]..][..|col|];
  }

  /** The bytes of a record from one place to another. */
  function Cell(f: Flow, t: Tables, from: nat, to: nat): Bytes
    requires t.Ours() && from <= to <= 124
  {
    RecordSize(f, t);
    Columns(f, t.protocols, t.fields)[from..to]
  }

  lemma {:induction false} CellIs(f: Flow, t: Tables, i: nat)
    requires t.Ours() && i < 22
    ensures Offsets[i] + Widths[i] <= 124
    ensures Cell(f, t, Offsets[i], Offsets[i] + Widths[i]) == Column(f, t.protocols, Elements[i])
  {
    ColumnAt(f, t, i);
  }

  /** What a record says about ports. */
  lemma {:induction false} PortCells(f: Flow, t: Tables)
    requires t.Ours()
    ensures Get(Cell(f, t, 24, 26)) == f.srcPort % 0x1_0000 && Get(Cell(f, t, 26, 28)) == f.dstPort % 0x1_0000
  {
    hide Get, Put, Cell;
    CellIs(f, t, 7);
    CellIs(f, t, 8);
    NumberRead(f.srcPort);
    NumberRead(f.dstPort);
  }

  /** About autonomous systems and interfaces. */
  lemma {:induction false} EndpointCells(f: Flow, t: Tables)
    requires t.Ours()
    ensures Get(Cell(f, t, 60, 64)) == f.srcAs && Get(Cell(f, t, 64, 68)) == f.dstAs
    ensures Get(Cell(f, t, 68, 72)) == f.inputPort % 0x1_0000_0000
    ensures Get(Cell(f, t, 72, 76)) == f.outputPort % 0x1_0000_0000
  {
    hide Get, Put, Cell;
    CellIs(f, t, 11);
    CellIs(f, t, 12);
    CellIs(f, t, 13);
    CellIs(f, t, 14);
    NumberRead(f.srcAs);
    NumberRead(f.dstAs);
    NumberRead(f.inputPort);
    NumberRead(f.outputPort);
  }

  /** About the protocol and the flags. */
  lemma {:induction false} FlagCells(f: Flow, t: Tables)
    requires t.Ours()
    ensures Get(Cell(f, t, 0, 1)) == if f.protocol in t.protocols.nums then t.protocols.nums[f.protocol] else 0
    ensures Get(Cell(f, t, 1, 2)) == f.tos % 0x100 && Get(Cell(f, t, 2, 4)) == f.tcpFlags % 0x1_0000
  {
    hide Get, Put, Cell;
    CellIs(f, t, 0);
    CellIs(f, t, 1);
    CellIs(f, t, 2);
    NumberRead(t.protocols.NumberOf(f.protocol));
    NumberRead(f.tos);
    NumberRead(f.tcpFlags);
  }

  /** About the amounts. */
  lemma {:induction false} AmountCells(f: Flow, t: Tables)
    requires t.Ours()
    ensures Get(Cell(f, t, 76, 84)) == f.inBytes && Get(Cell(f, t, 84, 92)) == f.outBytes
    ensures Get(Cell(f, t, 92, 100)) == f.inPkts && Get(Cell(f, t, 100, 108)) == f.outPkts
  {
    hide Get, Put, Cell;
    CellIs(f, t, 15);
    CellIs(f, t, 16);
    CellIs(f, t, 17);
    CellIs(f, t, 18);
    NumberRead(f.inBytes);
    NumberRead(f.outBytes);
    NumberRead(f.inPkts);
    NumberRead(f.outPkts);
  }

  /** The observation point: the low 16 bits of the company above the device. */
  lemma {:induction false} ObservationCell(f: Flow, t: Tables)
    requires t.Ours() && f.deviceId < 0x1_0000_0000
    ensures Get(Cell(f, t, 108, 116)) / 0x1_0000_0000 == f.companyId % 0x1_0000
    ensures Get(Cell(f, t, 108, 116)) % 0x1_0000_0000 == f.deviceId
  {
    hide Get, Put, Cell;
    CellIs(f, t, 19);
    NumberRead((f.companyId % 0x1_0000) * 0x1_0000_0000 + f.deviceId);
  }

  /** The times: a flow ends 60 seconds after it starts, as far as 32 bits go. */
  lemma {:induction false} TimeCells(f: Flow, t: Tables)
    requires t.Ours()
    ensures Get(Cell(f, t, 116, 120)) == f.timestamp % 0x1_0000_0000
    ensures (Get(Cell(f, t, 120, 124)) - Get(Cell(f, t, 116, 120))) % 0x1_0000_0000 == 60
  {
    hide Get, Put, Cell;
    CellIs(f, t, 20);
    CellIs(f, t, 21);
    NumberRead(f.timestamp % 0x1_0000_0000);
    NumberRead((f.timestamp + 60) % 0x1_0000_0000);
    MinuteLater(f.timestamp);
  }

  lemma {:induction false} MinuteLater(n: int)
    ensures ((n + 60) % 0x1_0000_0000 - n % 0x1_0000_0000) % 0x1_0000_0000 == 60
    ensures n % 0x1_0000_0000 % 0x1_0000_0000 == n % 0x1_0000_0000
    ensures (n + 60) % 0x1_0000_0000 % 0x1_0000_0000 == (n + 60) % 0x1_0000_0000
  {
  }

  /** The addresses: an IPv4 address is in its own column, an IPv6 address in the other, and the rest is zero. */
  lemma {:induction false} AddressCells(f: Flow, t: Tables)
    requires t.Ours()
    ensures Cell(f, t, 16, 20) == if f.srcAddr.V4? then f.srcAddr.octets else [0, 0, 0, 0]
    ensures Cell(f, t, 20, 24) == if f.dstAddr.V4? then f.dstAddr.octets else [0, 0, 0, 0]
    ensures Cell(f, t, 28, 44) == if f.srcAddr.V6? then f.srcAddr.octets else Zeros(16)
    ensures Cell(f, t, 44, 60) == if f.dstAddr.V6? then f.dstAddr.octets else Zeros(16)
  {
    hide Cell;
    CellIs(f, t, 5);
    CellIs(f, t, 6);
    CellIs(f, t, 9);
    CellIs(f, t, 10);
    assert Zeros(4) == [0, 0, 0, 0];
  }

  predicate SixOctets(cell: Bytes, m: Mac) {
    |cell| == 6
    && if m.Hw? && (|m.octets| == 6 || |m.octets| == 8 || |m.octets| == 20) then cell == m.octets[..6]
       else cell == [0, 0, 0, 0, 0, 0]
  }

  /** The hardware addresses: the first six octets of those that net.ParseMAC takes, and zeros for others. */
  lemma {:induction false} MacCells(f: Flow, t: Tables)
    requires t.Ours()
    ensures SixOctets(Cell(f, t, 4, 10), f.srcMac) && SixOctets(Cell(f, t, 10, 16), f.dstMac)
  {
    hide Cell;
    CellIs(f, t, 3);
    CellIs(f, t, 4);
    assert Zeros(6) == [0, 0, 0, 0, 0, 0];
  }

  // Addresses -----------------------------------------------------------------------------------

  /** What net.IP prints as an IPv4 address: four octets, or those behind ten zeros and two octets of ones. */
  lemma {:induction false} PrintsAsV4Iff(o: Bytes)
    ensures PrintIP(o).V4? <==> |o| == 4 || (|o| == 16 && o[..12] == [0, 0, 0, 0, 0, 0, 0, 0, 0, 0, 0xff, 0xff])
    ensures PrintIP(o).V4? ==> PrintIP(o).octets == o[|o| - 4..]
    ensures PrintIP(o).V6? <==> |o| == 16 && !PrintIP(o).V4?
    ensures PrintIP(o).V6? ==> PrintIP(o).octets == o
  {
    if |o| == 16 {
      assert o[..12] == o[..10] + [o[10], o[11]];
      assert Zeros(10) == [0, 0, 0, 0, 0, 0, 0, 0, 0, 0];
      assert [0, 0, 0, 0, 0, 0, 0, 0, 0, 0, 0xff, 0xff][..10] == Zeros(10);
    } else if |o| == 4 {
      assert o[0..] == o;
    }
  }
}
