/** Reading kflow messages, and what comes back: From of pkg/formats/kflow/kflow.go. */
module KflowRoundTrip {
  import opened Options
  import opened Integers
  import opened Decimal
  import opened SplitJoin
  import opened KflowCustoms

  type Fields = map<string, Value>

  type NameTable = map<u32, string>

  // Reading -------------------------------------------------------------------------------------

  /** The names that a mapping message adds; its values are always strings. */
  function AddNames(names: NameTable, custom: seq<Custom>): NameTable {
    if custom == [] then names
    else
      var c := custom[|custom| - 1];
      AddNames(names, custom[..|custom| - 1])[c.id := if c.value.Str? then c.value.s else ""]
  }

  /** The fields of a flow with its attributes set under the names known; those unknown are skipped. */
  function Resolve(names: NameTable, custom: seq<Custom>, fixed: Fields): Fields {
    if custom == [] then fixed
    else
      var c := custom[|custom| - 1];
      var rest := Resolve(names, custom[..|custom| - 1], fixed);
      if c.id in names then rest[names[c.id] := c.value] else rest
  }

  datatype Reading = Reading(names: NameTable, flows: seq<Fields>)

  function Read(messages: seq<Message>): Reading {
    if messages == [] then Reading(map[], [])
    else
      var r := Read(messages[..|messages| - 1]);
      match messages[|messages| - 1]
      case Mapping(custom) => r.(names := AddNames(r.names, custom))
      case Data(fixed, custom) => r.(flows := r.flows + [Resolve(r.names, custom, fixed)])
  }

  /** From, after the decompression: the sender and the flows. */
  method From(out: Output) returns (r: Option<(string, seq<Fields>)>)
    ensures r.None? <==> '^' !in out.prefix
    ensures r.Some? ==> r.value == (Split(out.prefix, '^')[0], Read(out.messages).flows)
  {
    var keyP := Split(out.prefix, '^');
    SplitLength(out.prefix, '^');
    OccursIff(out.prefix, '^');
    if |keyP| < 2 {
      return None;
    }
    var flows: seq<Fields>, names: NameTable := [], map[];
    for i := 0 to |out.messages|
      invariant Reading(names, flows) == Read(out.messages[..i])
    {
      assert out.messages[..i + 1][..i] == out.messages[..i];
      match out.messages[i] {
        case Data(fixed, custom) =>
          var flow := ResolveAll(names, custom, fixed);
          flows := flows + [flow];
        case Mapping(custom) =>
          names := AddAllNames(names, custom);
      }
    }
    assert out.messages[..|out.messages|] == out.messages;
    r := Some((keyP[0], flows));
  }

  method ResolveAll(names: NameTable, custom: seq<Custom>, fixed: Fields) returns (flow: Fields)
    ensures flow == Resolve(names, custom, fixed)
  {
    flow := fixed;
    for i := 0 to |custom|
      invariant flow == Resolve(names, custom[..i], fixed)
    {
      assert custom[..i + 1][..i] == custom[..i];
      var cust := custom[i];
      if cust.id in names {
        flow := flow[names[cust.id] := cust.value];
      }
    }
    assert custom[..|custom|] == custom;
  }

  method AddAllNames(before: NameTable, custom: seq<Custom>) returns (names: NameTable)
    ensures names == AddNames(before, custom)
  {
    names := before;
    for i := 0 to |custom|
      invariant names == AddNames(before, custom[..i])
    {
      assert custom[..i + 1][..i] == custom[..i];
      var cust := custom[i];
      names := names[cust.id := if cust.value.Str? then cust.value.s else ""];
    }
    assert custom[..|custom|] == custom;
  }

  // Attributes ----------------------------------------------------------------------------------

  ghost predicate Injective(crc: string -> u32, keys: set<string>) {
    forall k, k' :: k in keys && k' in keys && crc(k) == crc(k') ==> k == k'
  }

  /** The table that the mapping message should make. */
  ghost predicate Resolves(names: NameTable, crc: string -> u32, keys: set<string>) {
    forall k :: k in keys ==> crc(k) in names && names[crc(k)] == k
  }

  lemma {:induction false} NamesAre(names: NameTable, custom: seq<Custom>)
    requires forall c :: c in custom ==> c.value.Str?
    ensures var r := AddNames(names, custom);
            && (forall id :: id in r <==> id in names || exists c :: c in custom && c.id == id)
            && (forall id :: id in r && (exists c :: c in custom && c.id == id) ==>
                  exists c :: c in custom && c.id == id && r[id] == c.value.s)
  {
    if custom != [] {
      var init, last := custom[..|custom| - 1], custom[|custom| - 1];
      assert custom == init + [last];
      NamesAre(names, init);
    }
  }

  /** Every id is resolved by the mapping message exactly if no two names have the same checksum. */
  lemma {:induction false} MappingResolvesIff(custom: seq<Custom>, keys: set<string>, crc: string -> u32)
    requires IsPart(custom, Names(keys), crc)
    ensures Resolves(AddNames(map[], custom), crc, keys) <==> Injective(crc, keys)
  {
    hide AddNames, IsPart, Names;
    var r := AddNames(map[], custom);
    if Injective(crc, keys) {
      forall k | k in keys ensures crc(k) in r && r[crc(k)] == k {
        NameResolves(custom, keys, crc, k);
      }
    } else {
      var k, k' :| k in keys && k' in keys && crc(k) == crc(k') && k != k';
      assert crc(k) in r ==> !(r[crc(k)] == k && r[crc(k')] == k');
    }
  }

  lemma {:induction false} NameResolves(custom: seq<Custom>, keys: set<string>, crc: string -> u32, k: string)
    requires IsPart(custom, Names(keys), crc) && Injective(crc, keys) && k in keys
    ensures var r := AddNames(map[], custom); crc(k) in r && r[crc(k)] == k
  {
    NamesOfPart(custom, keys, crc);
    NamesAre(map[], custom);
    hide AddNames, IsPart, Names;
    var r := AddNames(map[], custom);
    assert Custom(crc(k), Str(k)) in custom && Custom(crc(k), Str(k)).id == crc(k);
    assert crc(k) in r;
    var c :| c in custom && c.id == crc(k) && r[crc(k)] == c.value.s;
    var k' :| k' in keys && c == Custom(crc(k'), Str(k'));
    assert crc(k) == crc(k');
  }

  lemma {:induction false} NamesOfPart(custom: seq<Custom>, keys: set<string>, crc: string -> u32)
    requires IsPart(custom, Names(keys), crc)
    ensures forall c :: c in custom ==> exists k :: k in keys && c == Custom(crc(k), Str(k))
    ensures forall k :: k in keys ==> Custom(crc(k), Str(k)) in custom
  {
    var vals := Names(keys);
    assert forall k :: k in keys ==> k in vals && vals[k] == Str(k);
    hide Names;
    forall c | c in custom ensures exists k :: k in keys && c == Custom(crc(k), Str(k)) {
      var k :| k in vals && c == Custom(crc(k), vals[k]);
    }
  }

  lemma {:induction false} ResolveConcat(names: NameTable, x: seq<Custom>, y: seq<Custom>, fixed: Fields)
    ensures Resolve(names, x + y, fixed) == Resolve(names, y, Resolve(names, x, fixed))
  {
    if y == [] {
      assert x + y == x;
    } else {
      assert (x + y)[..|x + y| - 1] == x + y[..|y| - 1];
      ResolveConcat(names, x, y[..|y| - 1], fixed);
    }
  }

  /** The names under which the entries of a list are set. */
  function Known(names: NameTable, custom: seq<Custom>): set<string> {
    if custom == [] then {}
    else
      var c := custom[|custom| - 1];
      Known(names, custom[..|custom| - 1]) + if c.id in names then {names[c.id]} else {}
  }

  lemma {:induction false} KnownIff(names: NameTable, custom: seq<Custom>, k: string)
    ensures k in Known(names, custom) <==> exists c :: c in custom && c.id in names && names[c.id] == k
  {
    if custom != [] {
      var init, last := custom[..|custom| - 1], custom[|custom| - 1];
      assert custom == init + [last];
      KnownIff(names, init, k);
    }
  }

  lemma {:induction false} ResolvesTo(names: NameTable, custom: seq<Custom>, fixed: Fields, vals: Fields)
    requires forall c :: c in custom ==> c.id in names && names[c.id] in vals && c.value == vals[names[c.id]]
    ensures var r, known := Resolve(names, custom, fixed), Known(names, custom);
            && r.Keys == fixed.Keys + known && known <= vals.Keys
            && forall k :: k in r ==> r[k] == if k in known then vals[k] else fixed[k]
  {
    if custom != [] {
      var init, last := custom[..|custom| - 1], custom[|custom| - 1];
      assert custom == init + [last];
      ResolvesTo(names, init, fixed, vals);
    }
  }

  lemma {:induction false} PartResolves(names: NameTable, part: seq<Custom>, vals: Fields, crc: string -> u32,
                                        fixed: Fields)
    requires IsPart(part, vals, crc) && Resolves(names, crc, vals.Keys)
    ensures Resolve(names, part, fixed) == fixed + vals
  {
    hide Resolve, Known;
    forall c | c in part ensures c.id in names && names[c.id] in vals && c.value == vals[names[c.id]] {
      var k :| k in vals && c == Custom(crc(k), vals[k]);
    }
    forall k | k in vals ensures k in Known(names, part) {
      KnownIff(names, part, k);
      assert Custom(crc(k), vals[k]) in part;
    }
    AllKnown(names, part, fixed, vals);
  }

  lemma {:induction false} AllKnown(names: NameTable, part: seq<Custom>, fixed: Fields, vals: Fields)
    requires forall c :: c in part ==> c.id in names && names[c.id] in vals && c.value == vals[names[c.id]]
    requires forall k :: k in vals ==> k in Known(names, part)
    ensures Resolve(names, part, fixed) == fixed + vals
  {
    ResolvesTo(names, part, fixed, vals);
    hide Resolve, Known;
    assert Known(names, part) == vals.Keys;
  }

  /** What reading makes of a flow: integers as unsigned ones, and the later kinds over the earlier. */
  function Restored(f: Flow): Fields { f.fixed + StrValues(f) + IntValues(f) + BigIntValues(f) }

  /** What a reader finds under a name: the attribute of the last kind that has it, the text of a string, and a
      negative integer as the unsigned one of its width; else the fixed field of that name. */
  ghost predicate Recovers(f: Flow, k: string, r: Fields) {
    if k in f.customBigInt then
      var n: int := f.customBigInt[k];
      k in r && r[k] == U64(if n < 0 then n + 0x1_0000_0000_0000_0000 else n)
    else if k in f.customInt then
      var n: int := f.customInt[k];
      k in r && r[k] == U32(if n < 0 then n + 0x1_0000_0000 else n)
    else if k in f.customStr then k in r && r[k] == Str(f.customStr[k])
    else if k in f.fixed then k in r && r[k] == f.fixed[k]
    else k !in r
  }

  lemma {:induction false} RestoredMeans(f: Flow, k: string)
    ensures Recovers(f, k, Restored(f))
  {
  }

  lemma {:induction false} PackedResolves(names: NameTable, custom: seq<Custom>, f: Flow, crc: string -> u32)
    requires IsPacked(custom, f, crc) && Resolves(names, crc, KeysOf(f))
    ensures Resolve(names, custom, f.fixed) == Restored(f)
  {
    hide IsPart, StrValues, IntValues, BigIntValues, Resolve, KeysOf;
    var a, b, c :|
      && IsPart(a, StrValues(f), crc) && IsPart(b, IntValues(f), crc) && IsPart(c, BigIntValues(f), crc)
      && custom == a + b + c;
    SizesOf(f);
    ResolvesFewer(names, crc, KeysOf(f), StrValues(f).Keys);
    ResolvesFewer(names, crc, KeysOf(f), IntValues(f).Keys);
    ResolvesFewer(names, crc, KeysOf(f), BigIntValues(f).Keys);
    hide Resolves;
    ResolveConcat(names, a + b, c, f.fixed);
    ResolveConcat(names, a, b, f.fixed);
    PartResolves(names, a, StrValues(f), crc, f.fixed);
    PartResolves(names, b, IntValues(f), crc, f.fixed + StrValues(f));
    PartResolves(names, c, BigIntValues(f), crc, f.fixed + StrValues(f) + IntValues(f));
  }

  // Flows ---------------------------------------------------------------------------------------

  lemma {:induction false} OutputParts(out: Output, flows: seq<Flow>, crc: string -> u32)
    requires IsOutput(out, flows, crc)
    ensures |out.messages| == |flows| + 1 && out.messages[0].Mapping?
    ensures IsPart(out.messages[0].custom, Names(AllKeys(flows)), crc)
  {
  }

  lemma {:induction false} OutputData(out: Output, flows: seq<Flow>, crc: string -> u32, i: nat)
    requires IsOutput(out, flows, crc) && i < |flows|
    ensures i + 1 < |out.messages| && out.messages[i + 1].Data? && out.messages[i + 1].fixed == flows[i].fixed
    ensures IsPacked(out.messages[i + 1].custom, flows[i], crc)
  {
    hide IsPacked, IsPart;
    assert IsData(out.messages[i + 1], flows[i], crc);
  }

  lemma {:induction false} ReadSnoc(messages: seq<Message>, m: Message)
    ensures var r := Read(messages);
            Read(messages + [m]) ==
            match m
            case Mapping(custom) => r.(names := AddNames(r.names, custom))
            case Data(fixed, custom) => r.(flows := r.flows + [Resolve(r.names, custom, fixed)])
  {
    assert (messages + [m])[..|messages|] == messages;
  }

  function ResolveEach(names: NameTable, data: seq<Message>): (r: seq<Fields>)
    requires forall d :: d in data ==> d.Data?
    ensures |r| == |data| && forall i :: 0 <= i < |data| ==> r[i] == Resolve(names, data[i].custom, data[i].fixed)
  {
    if data == [] then []
    else
      var d := data[|data| - 1];
      assert data == data[..|data| - 1] + [d];
      ResolveEach(names, data[..|data| - 1]) + [Resolve(names, d.custom, d.fixed)]
  }

  lemma {:induction false} ReadData(mapping: seq<Custom>, data: seq<Message>)
    requires forall d :: d in data ==> d.Data?
    ensures var names := AddNames(map[], mapping);
            Read([Mapping(mapping)] + data) == Reading(names, ResolveEach(names, data))
  {
    var first := [Mapping(mapping)];
    if data == [] {
      assert first + data == [] + first;
      ReadSnoc([], Mapping(mapping));
    } else {
      var init, last := data[..|data| - 1], data[|data| - 1];
      assert data == init + [last] && first + data == first + init + [last];
      hide AddNames, Resolve, Read;
      var names := AddNames(map[], mapping);
      ReadData(mapping, init);
      ReadSnoc(first + init, last);
      assert ResolveEach(names, data) == ResolveEach(names, init) + [Resolve(names, last.custom, last.fixed)];
    }
  }

  /** All that reading makes of an output, by the names of its mapping message. */
  lemma {:induction false} ReadAll(out: Output, flows: seq<Flow>, crc: string -> u32)
    requires IsOutput(out, flows, crc)
    ensures |out.messages| == |flows| + 1 && out.messages[0].Mapping?
    ensures var read, names := Read(out.messages).flows, AddNames(map[], out.messages[0].custom);
            && |read| == |flows|
            && forall i :: 0 <= i < |flows| ==> out.messages[i + 1].Data?
                                                && read[i] == Resolve(names, out.messages[i + 1].custom, flows[i].fixed)
  {
    hide *;
    OutputParts(out, flows, crc);
    forall i | 0 <= i < |flows| ensures out.messages[i + 1].Data? && out.messages[i + 1].fixed == flows[i].fixed {
      OutputData(out, flows, crc, i);
    }
    var data := out.messages[1..];
    assert out.messages == [Mapping(out.messages[0].custom)] + data;
    assert forall i :: 0 <= i < |flows| ==> data[i] == out.messages[i + 1];
    forall d | d in data ensures d.Data? {
      var i :| 0 <= i < |data| && data[i] == d;
      OutputData(out, flows, crc, i);
    }
    ReadData(out.messages[0].custom, data);
  }

  lemma {:induction false} HasKeys(flows: seq<Flow>, i: nat)
    requires i < |flows|
    ensures KeysOf(flows[i]) <= AllKeys(flows)
  {
  }

  /** If no two attribute names in the batch have the same checksum, every flow comes back with all its
      attributes, whatever order the maps were written in. */
  lemma {:induction false} CustomsRoundTrip(out: Output, flows: seq<Flow>, crc: string -> u32)
    requires IsOutput(out, flows, crc) && Injective(crc, AllKeys(flows))
    ensures var read := Read(out.messages).flows;
            |read| == |flows| && forall i :: 0 <= i < |flows| ==> read[i] == Restored(flows[i])
  {
    hide *;
    ReadAll(out, flows, crc);
    OutputParts(out, flows, crc);
    var names, keys := AddNames(map[], out.messages[0].custom), AllKeys(flows);
    MappingResolvesIff(out.messages[0].custom, keys, crc);
    forall i | 0 <= i < |flows| ensures Read(out.messages).flows[i] == Restored(flows[i]) {
      OutputData(out, flows, crc, i);
      HasKeys(flows, i);
      ResolvesFewer(names, crc, keys, KeysOf(flows[i]));
      PackedResolves(names, out.messages[i + 1].custom, flows[i], crc);
    }
  }

  /** So the fields read of each flow are those of the flow that was written. */
  lemma {:induction false} AttributesComeBack(out: Output, flows: seq<Flow>, crc: string -> u32, i: nat, k: string)
    requires IsOutput(out, flows, crc) && Injective(crc, AllKeys(flows)) && i < |flows|
    ensures |Read(out.messages).flows| == |flows| && Recovers(flows[i], k, Read(out.messages).flows[i])
  {
    CustomsRoundTrip(out, flows, crc);
    RestoredMeans(flows[i], k);
    hide *;
  }

  lemma {:induction false} ResolvesFewer(names: NameTable, crc: string -> u32, keys: set<string>, fewer: set<string>)
    requires Resolves(names, crc, keys) && fewer <= keys
    ensures Resolves(names, crc, fewer)
  {
  }

  /** Of two attribute names with the same checksum, one never comes back. */
  lemma {:induction false} CollisionLoses(out: Output, flows: seq<Flow>, crc: string -> u32, k: string, k': string)
    returns (lost: string)
    requires IsOutput(out, flows, crc) && k != k' && crc(k) == crc(k')
    ensures lost == k || lost == k'
    ensures var read := Read(out.messages).flows;
            && |read| == |flows|
            && forall i :: 0 <= i < |flows| && lost !in flows[i].fixed ==> lost !in read[i]
  {
    hide *;
    ReadAll(out, flows, crc);
    OutputParts(out, flows, crc);
    var names := AddNames(map[], out.messages[0].custom);
    OneNameEach(out.messages[0].custom, AllKeys(flows), crc);
    lost := if crc(k) in names && names[crc(k)] == k then k' else k;
    assert forall id :: id in names ==> names[id] != lost;
    forall i | 0 <= i < |flows| && lost !in flows[i].fixed ensures lost !in Read(out.messages).flows[i] {
      OnlyKnownNames(names, out.messages[i + 1].custom, flows[i].fixed, lost);
    }
  }

  lemma {:induction false} HeldBy(flows: seq<Flow>, k: string) returns (i: nat)
    requires k in AllKeys(flows)
    ensures i < |flows| && k in KeysOf(flows[i])
  {
    var n := |flows| - 1;
    if k in KeysOf(flows[n]) {
      i := n;
    } else {
      i := HeldBy(flows[..n], k);
    }
  }

  lemma {:induction false} UnionKeys(a: Fields, b: Fields)
    ensures (a + b).Keys == a.Keys + b.Keys
  {
  }

  lemma {:induction false} FourKeys(a: Fields, b: Fields, c: Fields, d: Fields)
    ensures (a + b + c + d).Keys == a.Keys + (b.Keys + c.Keys + d.Keys)
  {
    UnionKeys(a, b);
    UnionKeys(a + b, c);
    UnionKeys(a + b + c, d);
  }

  lemma {:induction false} RestoredKeys(f: Flow)
    ensures Restored(f).Keys == f.fixed.Keys + KeysOf(f)
  {
    hide StrValues, IntValues, BigIntValues, KeysOf;
    SizesOf(f);
    FourKeys(f.fixed, StrValues(f), IntValues(f), BigIntValues(f));
  }

  /** A batch whose attributes are named like no fixed field comes back exactly if no two attribute names in it have the
      same checksum. */
  lemma {:induction false} CustomsRoundTripIff(out: Output, flows: seq<Flow>, crc: string -> u32)
    requires IsOutput(out, flows, crc)
    requires forall i :: 0 <= i < |flows| ==> KeysOf(flows[i]) !! flows[i].fixed.Keys
    ensures var read := Read(out.messages).flows;
            (|read| == |flows| && forall i :: 0 <= i < |flows| ==> read[i] == Restored(flows[i]))
            <==> Injective(crc, AllKeys(flows))
  {
    hide IsOutput, Read, Restored, AllKeys, KeysOf;
    if Injective(crc, AllKeys(flows)) {
      CustomsRoundTrip(out, flows, crc);
    } else {
      var k, k' :| k in AllKeys(flows) && k' in AllKeys(flows) && crc(k) == crc(k') && k != k';
      var lost := CollisionLoses(out, flows, crc, k, k');
      var i := HeldBy(flows, lost);
      RestoredKeys(flows[i]);
      assert lost !in Read(out.messages).flows[i];
    }
  }

  lemma {:induction false} OneNameEach(custom: seq<Custom>, keys: set<string>, crc: string -> u32)
    requires IsPart(custom, Names(keys), crc)
    ensures forall id :: id in AddNames(map[], custom) ==> id == crc(AddNames(map[], custom)[id])
  {
    var r := AddNames(map[], custom);
    NamesAre(map[], custom);
    forall id | id in r ensures id == crc(r[id]) {
      var c :| c in custom && c.id == id && r[id] == c.value.s;
      var k :| k in keys && c == Custom(crc(k), Names(keys)[k]);
    }
  }

  lemma {:induction false} OnlyKnownNames(names: NameTable, custom: seq<Custom>, fixed: Fields, k: string)
    requires k !in fixed && forall id :: id in names ==> names[id] != k
    ensures k !in Resolve(names, custom, fixed)
  {
    if custom != [] {
      OnlyKnownNames(names, custom[..|custom| - 1], fixed, k);
    }
  }

  // The sender ----------------------------------------------------------------------------------

  /** Reading fails exactly if the sender key has 80 bytes or more. Otherwise it starts with the part of the key
      before the first caret, which is all of it unless the device name has one. */
  lemma {:induction false} SenderReadIff(f: Flow)
    ensures '^' in PrefixFor(f) <==> |SenderKey(f)| < MSG_KEY_PREFIX
    ensures var sender := IntText(f.companyId) + ":" + f.deviceName + ":" + IntText(f.deviceId);
            |SenderKey(f)| < MSG_KEY_PREFIX ==> (Split(PrefixFor(f), '^')[0] == sender <==> '^' !in f.deviceName)
  {
    var key := SenderKey(f);
    var sender := IntText(f.companyId) + ":" + f.deviceName + ":" + IntText(f.deviceId);
    if |key| < MSG_KEY_PREFIX {
      assert PrefixFor(f)[|key| - 1] == '^';
      assert '^' !in IntText(f.companyId) && '^' !in IntText(f.deviceId);
      assert '^' in sender <==> '^' in f.deviceName;
      if '^' !in sender {
        SplitFront(sender, '^');
        assert PrefixFor(f) == sender + ['^'] + Zeros(MSG_KEY_PREFIX - |key|);
      }
    }
  }
}
