/**
 Custom attributes in the kflow format of pkg/formats/kflow/kflow.go: the messages carry checksums of the
 attribute names, and a first message maps the checksums back to names. The checksum is a parameter.
 */
module KflowCustoms {
  import opened Options
  import opened Integers
  import opened Decimal

  type i32 = x: int | -0x8000_0000 <= x < 0x8000_0000

  datatype Value = U32(n: u32) | U64(w: u64) | Str(s: string)

  /** `fixed` stands for the fields that From copies whatever the custom attributes. */
  datatype Flow = Flow(companyId: int, deviceName: string, deviceId: int, fixed: map<string, Value>,
                       customStr: map<string, string>, customInt: map<string, i32>, customBigInt: map<string, i64>)

  datatype Custom = Custom(id: u32, value: Value)

  datatype Message = Mapping(custom: seq<Custom>) | Data(fixed: map<string, Value>, custom: seq<Custom>)

  datatype Output = Output(prefix: string, messages: seq<Message>)

  // Values --------------------------------------------------------------------------------------

  function StrValues(f: Flow): map<string, Value> { map k | k in f.customStr :: Str(f.customStr[k]) }

  function IntValues(f: Flow): map<string, Value> { map k | k in f.customInt :: U32(Wrap32(f.customInt[k])) }

  function BigIntValues(f: Flow): map<string, Value> { map k | k in f.customBigInt :: U64(Wrap(f.customBigInt[k])) }

  function KeysOf(f: Flow): set<string> { f.customStr.Keys + f.customInt.Keys + f.customBigInt.Keys }

  function AllKeys(flows: seq<Flow>): (keys: set<string>)
    ensures forall i :: 0 <= i < |flows| ==> KeysOf(flows[i]) <= keys
  {
    if flows == [] then {}
    else AllKeys(flows[..|flows| - 1]) + KeysOf(flows[|flows| - 1])
  }

  /** `list` has an entry for each attribute of `vals`, in some order. */
  ghost predicate IsPart(list: seq<Custom>, vals: map<string, Value>, crc: string -> u32) {
    && |list| == |vals|
    && (forall c :: c in list ==> exists k :: k in vals && c == Custom(crc(k), vals[k]))
    && (forall k :: k in vals ==> Custom(crc(k), vals[k]) in list)
  }

  function Names(keys: set<string>): map<string, Value> { map k | k in keys :: Str(k) }

  ghost predicate IsPacked(list: seq<Custom>, f: Flow, crc: string -> u32) {
    exists a, b, c ::
      && IsPart(a, StrValues(f), crc) && IsPart(b, IntValues(f), crc) && IsPart(c, BigIntValues(f), crc)
      && list == a + b + c
  }

  /** The length that To allocates for a flow is the number of entries that pack fills in. */
  lemma {:induction false} PackedLength(list: seq<Custom>, f: Flow, crc: string -> u32)
    requires IsPacked(list, f, crc)
    ensures |list| == |f.customStr| + |f.customInt| + |f.customBigInt|
  {
    hide StrValues, IntValues, BigIntValues;
    SizesOf(f);
  }

  // Writing -------------------------------------------------------------------------------------

  const Unset := Custom(0, U32(0))

  ghost predicate Filling(part: seq<Custom>, vals: map<string, Value>, todo: set<string>, crc: string -> u32) {
    && todo <= vals.Keys && |part| + |todo| == |vals|
    && (forall c :: c in part ==> exists k :: k in vals && c == Custom(crc(k), vals[k]))
    && (forall k :: k in vals.Keys - todo ==> Custom(crc(k), vals[k]) in part)
  }

  lemma {:induction false} FillStep(part: seq<Custom>, vals: map<string, Value>, todo: set<string>,
                                    crc: string -> u32, k: string)
    requires Filling(part, vals, todo, crc) && k in todo
    ensures Filling(part + [Custom(crc(k), vals[k])], vals, todo - {k}, crc)
  {
  }

  lemma {:induction false} FillEnds(part: seq<Custom>, vals: map<string, Value>, crc: string -> u32)
    ensures Filling([], vals, vals.Keys, crc)
    ensures Filling(part, vals, {}, crc) ==> IsPart(part, vals, crc)
  {
  }

  /** One loop of pack or getIds over a map: fills `list` from `next`. */
  method Fill(list: array<Custom>, next: nat, vals: map<string, Value>, ids: map<string, u32>, ghost crc: string -> u32)
    returns (end: nat)
    requires next + |vals| <= list.Length
    requires forall k :: k in vals ==> k in ids && ids[k] == crc(k)
    modifies list
    ensures end == next + |vals|
    ensures list[..next] == old(list[..next]) && IsPart(list[next..end], vals, crc)
  {
    hide Filling, IsPart;
    end := next;
    var todo := vals.Keys;
    ghost var part: seq<Custom> := [];
    FillEnds(part, vals, crc);
    while todo != {}
      invariant todo <= vals.Keys && end == next + |part| && end + |todo| == next + |vals|
      invariant forall i :: 0 <= i < next ==> list[i] == old(list[i])
      invariant forall i :: 0 <= i < |part| ==> list[next + i] == part[i]
      invariant Filling(part, vals, todo, crc)
    {
      var key :| key in todo;
      FillStep(part, vals, todo, crc, key);
      list[end] := Custom(ids[key], vals[key]);
      part := part + [Custom(crc(key), vals[key])];
      end := end + 1;
      todo := todo - {key};
    }
    FillEnds(part, vals, crc);
    assert list[next..end] == part;
  }

  /** getIds: the checksum of every attribute, and the custom list of the mapping message. */
  method GetIds(flows: seq<Flow>, crc: string -> u32) returns (ids: map<string, u32>, custom: seq<Custom>)
    ensures ids.Keys == AllKeys(flows) && forall k :: k in ids ==> ids[k] == crc(k)
    ensures IsPart(custom, Names(AllKeys(flows)), crc)
  {
    hide IsPart;
    ids := map[];
    for i := 0 to |flows|
      invariant ids.Keys == AllKeys(flows[..i]) && forall k :: k in ids ==> ids[k] == crc(k)
    {
      AllKeysSnoc(flows, i);
      ids := AddIds(ids, flows[i].customStr.Keys, crc);
      ids := AddIds(ids, flows[i].customInt.Keys, crc);
      ids := AddIds(ids, flows[i].customBigInt.Keys, crc);
    }
    assert flows[..|flows|] == flows;
    custom := Listed(Names(ids.Keys), ids, crc);
  }

  lemma {:induction false} AllKeysSnoc(flows: seq<Flow>, i: nat)
    requires i < |flows|
    ensures AllKeys(flows[..i + 1]) == AllKeys(flows[..i]) + KeysOf(flows[i])
  {
    assert flows[..i + 1][..i] == flows[..i];
  }

  method AddIds(before: map<string, u32>, keys: set<string>, crc: string -> u32) returns (ids: map<string, u32>)
    requires forall k :: k in before ==> before[k] == crc(k)
    ensures ids.Keys == before.Keys + keys && forall k :: k in ids ==> ids[k] == crc(k)
  {
    ids := before;
    var todo := keys;
    while todo != {}
      invariant todo <= keys && ids.Keys == before.Keys + (keys - todo)
      invariant forall k :: k in ids ==> ids[k] == crc(k)
    {
      var key :| key in todo;
      if key !in ids {
        ids := ids[key := crc(key)];
      }
      todo := todo - {key};
    }
  }

  method Listed(vals: map<string, Value>, ids: map<string, u32>, ghost crc: string -> u32) returns (custom: seq<Custom>)
    requires forall k :: k in vals ==> k in ids && ids[k] == crc(k)
    ensures IsPart(custom, vals, crc)
  {
    hide IsPart;
    var list := new Custom[|vals|](_ => Unset);
    var end := Fill(list, 0, vals, ids, crc);
    custom := list[..];
    assert list[0..end] == custom;
  }

  lemma {:induction false} SameSize<V, W>(m: map<string, V>, n: map<string, W>)
    requires m.Keys == n.Keys
    ensures |m| == |n|
  {
    assert |m| == |m.Keys| && |n| == |n.Keys|;
  }

  lemma {:induction false} KeysOfValues(f: Flow)
    ensures StrValues(f).Keys == f.customStr.Keys
    ensures IntValues(f).Keys == f.customInt.Keys
    ensures BigIntValues(f).Keys == f.customBigInt.Keys
  {
  }

  lemma {:induction false} SizesOf(f: Flow)
    ensures |StrValues(f)| == |f.customStr| && |IntValues(f)| == |f.customInt| && |BigIntValues(f)| == |f.customBigInt|
    ensures StrValues(f).Keys + IntValues(f).Keys + BigIntValues(f).Keys == KeysOf(f)
  {
    hide StrValues, IntValues, BigIntValues;
    KeysOfValues(f);
    SameSize(StrValues(f), f.customStr);
    SameSize(IntValues(f), f.customInt);
    SameSize(BigIntValues(f), f.customBigInt);
  }

  /** The customs part of pack: three loops over a list allocated for all attributes, which they fill. */
  method Pack(f: Flow, ids: map<string, u32>, ghost crc: string -> u32) returns (custom: seq<Custom>)
    requires KeysOf(f) <= ids.Keys && forall k :: k in ids ==> ids[k] == crc(k)
    ensures IsPacked(custom, f, crc)
  {
    hide StrValues, IntValues, BigIntValues, IsPart, IsPacked, KeysOf;
    SizesOf(f);
    var n := |f.customStr| + |f.customInt| + |f.customBigInt|;
    var list := new Custom[n](_ => Unset);
    var first := Fill(list, 0, StrValues(f), ids, crc);
    ghost var one := list[..];
    var second := Fill(list, first, IntValues(f), ids, crc);
    ghost var two := list[..];
    var third := Fill(list, second, BigIntValues(f), ids, crc);
    custom := list[..];
    assert third == |custom|;
    ghost var a, b, c := one[0..first], two[first..second], custom[second..third];
    ThreeSlices(one, two, custom, first, second);
    assert custom == a + b + c;
    ThreeParts(custom, a, b, c, f, crc);
  }

  lemma {:induction false} ThreeSlices(one: seq<Custom>, two: seq<Custom>, three: seq<Custom>, i: nat, j: nat)
    requires i <= j <= |one| == |two| == |three| && two[..i] == one[..i] && three[..j] == two[..j]
    ensures three == one[0..i] + two[i..j] + three[j..|three|]
  {
    assert three == three[..j] + three[j..];
    assert two[..j] == two[..i] + two[i..j];
  }

  lemma {:induction false} ThreeParts(list: seq<Custom>, a: seq<Custom>, b: seq<Custom>, c: seq<Custom>, f: Flow,
                                      crc: string -> u32)
    requires IsPart(a, StrValues(f), crc) && IsPart(b, IntValues(f), crc) && IsPart(c, BigIntValues(f), crc)
    requires list == a + b + c
    ensures IsPacked(list, f, crc)
  {
  }

  // The sender key ------------------------------------------------------------------------------

  const MSG_KEY_PREFIX: nat := 80

  function SenderKey(f: Flow): (key: string)
    ensures |key| >= 1 && key[|key| - 1] == '^'
  {
    IntText(f.companyId) + ":" + f.deviceName + ":" + IntText(f.deviceId) + "^"
  }

  function Zeros(n: nat): (s: string)
    ensures |s| == n && forall c :: c in s ==> c == '\0'
  {
    seq(n, i => '\0')
  }

  /** The first 80 bytes of every message: the key, if it is short enough. */
  function PrefixFor(f: Flow): (p: string)
    ensures |p| == 80
  {
    var key := SenderKey(f);
    if |key| < MSG_KEY_PREFIX then key + Zeros(MSG_KEY_PREFIX - |key|) else Zeros(MSG_KEY_PREFIX)
  }

  ghost predicate IsOutput(out: Output, flows: seq<Flow>, crc: string -> u32) {
    && flows != [] && out.prefix == PrefixFor(flows[0])
    && |out.messages| == |flows| + 1
    && out.messages[0].Mapping? && IsPart(out.messages[0].custom, Names(AllKeys(flows)), crc)
    && forall i :: 0 <= i < |flows| ==> IsData(out.messages[i + 1], flows[i], crc)
  }

  ghost predicate IsData(m: Message, f: Flow, crc: string -> u32) {
    m.Data? && m.fixed == f.fixed && IsPacked(m.custom, f, crc)
  }

  /** To, without the compression. */
  method To(flows: seq<Flow>, crc: string -> u32) returns (out: Option<Output>)
    ensures out.None? <==> flows == []
    ensures out.Some? ==> IsOutput(out.value, flows, crc)
  {
    if flows == [] {
      return None;
    }
    var ids, mapping := GetIds(flows, crc);
    var data := PackAll(flows, ids, crc);
    hide *;
    out := Some(Output(PrefixFor(flows[0]), [Mapping(mapping)] + data));
    OutputFrom(out.value, flows, crc, mapping, data);
  }

  lemma {:induction false} PackedIsData(custom: seq<Custom>, f: Flow, crc: string -> u32)
    requires IsPacked(custom, f, crc)
    ensures IsData(Data(f.fixed, custom), f, crc)
  {
  }

  method PackAll(flows: seq<Flow>, ids: map<string, u32>, ghost crc: string -> u32) returns (data: seq<Message>)
    requires ids.Keys == AllKeys(flows) && forall k :: k in ids ==> ids[k] == crc(k)
    ensures |data| == |flows| && forall i :: 0 <= i < |flows| ==> IsData(data[i], flows[i], crc)
  {
    assert forall i :: 0 <= i < |flows| ==> KeysOf(flows[i]) <= ids.Keys;
    hide *;
    data := [];
    for i := 0 to |flows|
      invariant |data| == i && forall j :: 0 <= j < i ==> IsData(data[j], flows[j], crc)
    {
      var d := PackFlow(flows[i], ids, crc);
      data := data + [d];
    }
  }

  method PackFlow(f: Flow, ids: map<string, u32>, ghost crc: string -> u32) returns (d: Message)
    requires KeysOf(f) <= ids.Keys && forall k :: k in ids ==> ids[k] == crc(k)
    ensures IsData(d, f, crc)
  {
    hide *;
    var custom := Pack(f, ids, crc);
    PackedIsData(custom, f, crc);
    d := Data(f.fixed, custom);
  }

  lemma {:induction false} OutputFrom(out: Output, flows: seq<Flow>, crc: string -> u32, mapping: seq<Custom>,
                                      data: seq<Message>)
    requires flows != [] && out == Output(PrefixFor(flows[0]), [Mapping(mapping)] + data)
    requires IsPart(mapping, Names(AllKeys(flows)), crc)
    requires |data| == |flows| && forall i :: 0 <= i < |flows| ==> IsData(data[i], flows[i], crc)
    ensures IsOutput(out, flows, crc)
  {
  }
}
