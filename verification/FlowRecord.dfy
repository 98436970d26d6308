/**
 The part of a flow record (kt.JCHF) that the NetFlow formatter reads and writes.

 Addresses and hardware addresses are strings in the source. A value here is such a
 string seen through net.ParseIP / net.ParseMAC, for strings in the canonical form that
 net.IP.String and net.HardwareAddr.String print.
 */
module FlowRecord {
  import opened Integers
  import opened Options
  import opened BigEndian

  /** NoAddr is text that net.ParseIP rejects (the empty string of an unset field, say); Odd is how
      net.IP prints a byte string that is neither 4 nor 16 long, which ParseIP rejects as well. */
  datatype AddrText = NoAddr(text: string) | V4(octets: Bytes) | V6(octets: Bytes) | Odd(octets: Bytes)

  predicate CanonicalAddr(a: AddrText) {
    match a
    case NoAddr(_) => true
    case V4(o) => |o| == 4
    case V6(o) => |o| == 16 && !IsMapped(o)
    case Odd(o) => |o| != 4 && |o| != 16
  }

  type Addr = a: AddrText | CanonicalAddr(a) witness NoAddr("")

  /** The 16-byte form of an IPv4 address (::ffff:a.b.c.d), which net.IP.To4 accepts. */
  predicate IsMapped(o: Bytes) {
    |o| == 16 && o[..10] == Zeros(10) && o[10] == 0xff && o[11] == 0xff
  }

  /** net.IP.String */
  function PrintIP(o: Bytes): (a: Addr) {
    if |o| == 4 then V4(o)
    else if |o| != 16 then Odd(o)
    else if IsMapped(o) then V4(o[12..])
    else V6(o)
  }

  /** Hw is the colon-separated text of `octets`; net.ParseMAC accepts lengths 6, 8 and 20 only. */
  datatype Mac = NoMac(text: string) | Hw(octets: Bytes)

  function ParseMac(m: Mac): (o: Option<Bytes>)
    ensures o.Some? ==> |o.value| >= 6
  {
    if m.Hw? && (|m.octets| == 6 || |m.octets| == 8 || |m.octets| == 20) then Some(m.octets) else None
  }

  datatype Flow = Flow(
    protocol: string, tos: u32, tcpFlags: u32, srcMac: Mac, dstMac: Mac, srcAddr: Addr, dstAddr: Addr,
    srcPort: u32, dstPort: u32, srcAs: u32, dstAs: u32, inputPort: u64, outputPort: u64,
    inBytes: u64, outBytes: u64, inPkts: u64, outPkts: u64, companyId: u64, deviceId: u64, timestamp: i64)

  /** What kt.NewJCHF returns. */
  const Fresh: Flow := Flow("", 0, 0, NoMac(""), NoMac(""), NoAddr(""), NoAddr(""),
                            0, 0, 0, 0, 0, 0, 0, 0, 0, 0, 0, 0, 0)

  /** ic.PROTO_NAMES and the table ic.PROTO_NUMS built from it. */
  datatype Protocols = Protocols(names: map<nat, string>, nums: map<string, u8>) {

    /** Every name has a number, and that number has that name. Several numbers may share a name. */
    ghost predicate Valid() {
      && 0 in names
      && (forall k :: k in names ==> k < 0x100 && names[k] in nums)
      && (forall s :: s in nums ==> nums[s] in names && names[nums[s]] == s)
    }

    function NumberOf(name: string): (n: u8) { if name in nums then nums[name] else 0 }

    function NameOf(n: u16): (s: string) { if n in names then names[n] else "" }
  }

  /** The closure that fills PROTO_NUMS: it ranges over the names in no particular order. */
  method BuildNumbers(names: map<nat, string>) returns (nums: map<string, u8>)
    requires 0 in names && forall k :: k in names ==> k < 0x100
    ensures Protocols(names, nums).Valid()
  {
    nums := map[];
    var todo := names.Keys;
    while todo != {}
      invariant todo <= names.Keys
      invariant forall k :: k in names && k !in todo ==> names[k] in nums
      invariant forall s :: s in nums ==> nums[s] in names && names[nums[s]] == s
    {
      var k :| k in todo;
      todo := todo - {k};
      nums := nums[names[k] := k];
    }
  }

  /** The fields of `f` that have a column a receiver reads: all but the observation point. */
  function Carried(f: Flow): Flow {
    f.(companyId := 0, deviceId := 0)
  }

  /** The address a receiver sees: the all-zero address stands for "no address". */
  function ReceivedAddr(a: Addr): Addr {
    match a
    case V4(o) => if o == Zeros(4) then NoAddr("") else a
    case V6(o) => if o == Zeros(16) then NoAddr("") else a
    case _ => NoAddr("")
  }

  function ReceivedMac(m: Mac): Mac {
    match ParseMac(m)
    case Some(o) => Hw(o[..6])
    case None => Hw(Zeros(6))
  }

  /** The flow a receiver obtains for `f`, field by field: each number is cut to the width of its column. */
  function Received(f: Flow, p: Protocols): Flow {
    Flow(p.NameOf(p.NumberOf(f.protocol)), f.tos % 0x100, f.tcpFlags % 0x1_0000,
         ReceivedMac(f.srcMac), ReceivedMac(f.dstMac), ReceivedAddr(f.srcAddr), ReceivedAddr(f.dstAddr),
         f.srcPort % 0x1_0000, f.dstPort % 0x1_0000, f.srcAs, f.dstAs,
         f.inputPort % 0x1_0000_0000, f.outputPort % 0x1_0000_0000,
         f.inBytes, f.outBytes, f.inPkts, f.outPkts, 0, 0, f.timestamp % 0x1_0000_0000)
  }

  predicate AddrInRange(a: Addr) {
    match a
    case NoAddr(s) => s == ""
    case V4(o) => o != Zeros(4)
    case V6(o) => o != Zeros(16)
    case Odd(_) => false
  }

  /** The flows the columns can hold. */
  predicate InRange(f: Flow, p: Protocols) {
    && f.protocol in p.nums
    && f.tos < 0x100
    && f.tcpFlags < 0x1_0000
    && f.srcMac.Hw? && |f.srcMac.octets| == 6
    && f.dstMac.Hw? && |f.dstMac.octets| == 6
    && AddrInRange(f.srcAddr)
    && AddrInRange(f.dstAddr)
    && f.srcPort < 0x1_0000
    && f.dstPort < 0x1_0000
    && f.inputPort < 0x1_0000_0000
    && f.outputPort < 0x1_0000_0000
    && 0 <= f.timestamp < 0x1_0000_0000
  }

  /** A received flow is the one that was sent exactly when every field was in range. */
  lemma {:induction false} ReceivedIsSentIff(f: Flow, p: Protocols)
    requires p.Valid()
    ensures Received(f, p) == Carried(f) <==> InRange(f, p)
  {
    var n := p.NumberOf(f.protocol);
    assert p.NameOf(n) == f.protocol <==> f.protocol in p.nums;
    MacRange(f.srcMac);
    MacRange(f.dstMac);
  }

  lemma {:induction false} MacRange(m: Mac)
    ensures ReceivedMac(m) == m <==> m.Hw? && |m.octets| == 6
  {
    if m.Hw? && |m.octets| == 6 {
      assert m.octets[..6] == m.octets;
    }
  }
}
