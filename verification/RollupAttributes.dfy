/** From the joined key of a rollup back to one attribute per dimension: toNRMetricRollup of pkg/formats/nrm/nrm.go,
    for join tokens of one character. */
module RollupAttributes {
  import opened RollupRows
  import opened TopRollups
  import opened SplitJoin
  import opened Decimal

  // Attributes ----------------------------------------------------------------------------------

  datatype AttrValue = Text(s: string) | Number(n: nat)

  /** rollupMap */
  function Rename(name: string): string {
    match name
    case "source_account" => "vpc_account"
    case "source_region" => "vpc_region"
    case "source_vpc" => "vpc_name"
    case "src_addr" => "ip_address"
    case "src_as" => "asn_name"
    case "src_as_name" => "asn_name"
    case "src_geo" => "country"
    case "l4_src_port" => "port"
    case "dest_account" => "vpc_account"
    case "dest_region" => "vpc_region"
    case "dest_vpc" => "vpc_name"
    case "dst_addr" => "ip_address"
    case "dst_as" => "asn_name"
    case "dst_as_name" => "asn_name"
    case "dst_geo" => "country"
    case "l4_dst_port" => "port"
    case _ => name
  }

  predicate Blank(pt: string) { pt in ["0", "", "-", "--"] }

  const FirstEphemeral: nat := 32768

  /** strconv.Atoi with errors as zero. */
  function Atoi(s: string): int {
    if s != "" && s[0] == '-' then 0 - Digits(s[1..]) as int
    else if s != "" && s[0] == '+' then Digits(s[1..])
    else Digits(s)
  }

  /** A port behind the first ephemeral one as its decimal text says, and a blank part is none. */
  lemma {:induction false} AtoiInverts(n: int)
    ensures Atoi(IntText(n)) == n
  {
    DigitsInvert(if n < 0 then -n else n);
    DigitsOnly(if n < 0 then -n else n);
    if n < 0 {
      assert IntText(n)[1..] == NatText(-n);
    }
  }

  /** The two directions of a flow share their attribute names. */
  lemma {:induction false} DirectionsShareNames()
    ensures Rename("source_account") == Rename("dest_account") == "vpc_account"
    ensures Rename("source_region") == Rename("dest_region") == "vpc_region"
    ensures Rename("source_vpc") == Rename("dest_vpc") == "vpc_name"
    ensures Rename("src_addr") == Rename("dst_addr") == "ip_address"
    ensures Rename("src_as") == Rename("dst_as") == Rename("src_as_name") == Rename("dst_as_name") == "asn_name"
    ensures Rename("src_geo") == Rename("dst_geo") == "country"
    ensures Rename("l4_src_port") == Rename("l4_dst_port") == "port"
  {
  }

  /** No other name is changed. */
  lemma {:induction false} OtherNamesStay(name: string)
    requires !(exists d, a :: d in {"source_", "dest_"} && a in {"account", "region", "vpc"} && name == d + a)
    requires !(exists d, a :: d in {"src_", "dst_"} && a in {"addr", "as", "as_name", "geo"} && name == d + a)
    requires name != "l4_src_port" && name != "l4_dst_port"
    ensures Rename(name) == name
  {
    assert "source_account" == "source_" + "account" && "dest_account" == "dest_" + "account";
    assert "source_region" == "source_" + "region" && "dest_region" == "dest_" + "region";
    assert "source_vpc" == "source_" + "vpc" && "dest_vpc" == "dest_" + "vpc";
    assert "src_addr" == "src_" + "addr" && "dst_addr" == "dst_" + "addr";
    assert "src_as" == "src_" + "as" && "dst_as" == "dst_" + "as";
    assert "src_as_name" == "src_" + "as_name" && "dst_as_name" == "dst_" + "as_name";
    assert "src_geo" == "src_" + "geo" && "dst_geo" == "dst_" + "geo";
  }

  /** What an attribute says for a part: nothing for a blank one, and one number for all ephemeral ports. */
  function Says(attr: map<string, AttrValue>, name: string, pt: string): bool {
    if name == "port" && Atoi(pt) > FirstEphemeral then name in attr && attr[name] == Number(FirstEphemeral)
    else if Blank(pt) then name !in attr
    else name in attr && attr[name] == Text(pt)
  }

  /** So a number above 32768 at a port is 32768, no other number is changed, and zeros and dashes are left out. */
  lemma {:induction false} SaysNumber(attr: map<string, AttrValue>, name: string, n: int)
    requires Says(attr, name, IntText(n)) && n != 0
    ensures name in attr && attr[name] == if name == "port" && n >= 32769 then Number(32768) else Text(IntText(n))
  {
    AtoiInverts(n);
    NumberIsNotBlank(n);
    hide Atoi, IntText, Blank;
  }

  lemma {:induction false} NumberIsNotBlank(n: int)
    requires n != 0
    ensures !Blank(IntText(n))
  {
    AtoiInverts(n);
    assert Digits("") == 0 && Digits("0") == Digits("") * 10 + 0;
    assert Atoi("0") == 0 && Atoi("") == 0;
    assert "-"[1..] == "" && Atoi("-") == 0;
    assert "--"[1..] == "-" && !AllDigits("-") by {
      assert "-"[0] == '-';
    }
    assert Atoi("--") == 0;
    hide Atoi, IntText, Digits;
  }

  lemma {:induction false} SaysText(attr: map<string, AttrValue>, name: string, pt: string)
    requires Says(attr, name, pt) && name != "port" && pt !in {"0", "", "-", "--"}
    ensures name in attr && attr[name] == Text(pt)
  {
  }

  lemma {:induction false} SaysNothing(attr: map<string, AttrValue>, name: string, pt: string)
    requires Says(attr, name, pt) && pt in {"0", "", "-", "--"}
    ensures name !in attr
  {
    assert Digits("0") == 0 && Digits("") == 0 && Digits("-") == 0;
  }

  /** The loop over the parts. It indexes the names, and so panics when there are more parts than names. */
  method SetDims(names: seq<string>, parts: seq<string>, before: map<string, AttrValue>)
    returns (attr: map<string, AttrValue>, panicked: bool)
    ensures panicked <==> |parts| > |names|
    ensures !panicked ==>
              forall i :: 0 <= i < |parts| && (forall j :: i < j < |parts| ==> Rename(names[j]) != Rename(names[i]))
                          ==> Says(attr, Rename(names[i]), parts[i])
    ensures !panicked ==>
              forall a :: (forall i :: 0 <= i < |parts| ==> Rename(names[i]) != a)
                          ==> (a in attr <==> a in before) && (a in before ==> attr[a] == before[a])
  {
    hide Says, Rename;
    attr, panicked := before, false;
    var i := 0;
    while i < |parts|
      invariant i <= |parts| && i <= |names|
      invariant forall k :: 0 <= k < i && (forall j :: k < j < i ==> Rename(names[j]) != Rename(names[k]))
                            ==> Says(attr, Rename(names[k]), parts[k])
      invariant forall a :: (forall k :: 0 <= k < i ==> Rename(names[k]) != a)
                            ==> (a in attr <==> a in before) && (a in before ==> attr[a] == before[a])
    {
      if i >= |names| {
        return before, true;
      }
      var next := SetDim(attr, Rename(names[i]), parts[i]);
      SaysElsewhere(attr, next, Rename(names[i]));
      attr := next;
      i := i + 1;
    }
  }

  lemma {:induction false} SaysElsewhere(before: map<string, AttrValue>, attr: map<string, AttrValue>, name: string)
    requires forall a :: a != name ==> (a in attr <==> a in before) && (a in before ==> attr[a] == before[a])
    ensures forall a, pt :: a != name ==> Says(attr, a, pt) == Says(before, a, pt)
  {
  }

  method SetDim(before: map<string, AttrValue>, name: string, pt: string) returns (attr: map<string, AttrValue>)
    ensures Says(attr, name, pt)
    ensures forall a :: a != name ==> (a in attr <==> a in before) && (a in before ==> attr[a] == before[a])
  {
    attr := before[name := Text(pt)];
    if Blank(pt) {
      attr := attr - {name};
    }
    if name == "port" {
      var port := Atoi(pt);
      if port > FirstEphemeral {
        attr := attr[name := Number(FirstEphemeral)];
      }
    }
  }

  // Round trip ----------------------------------------------------------------------------------

  /** A rollup read back: its parts are those of the row's key, one for each name, exactly if there is a
      dimension and no part holds the token. With an occurrence, or without dimensions, there are more
      parts than names, and reading panics. */
  lemma {:induction false} KeyIsReadBackIff(d: Def, row: Row, c: char)
    requires d.keyJoin == [c]
    ensures var parts, names, read := KeyParts(d, row, d.dims), DimNames(d.dims), Split(Key(d, row), c);
            && (read == parts <==> d.dims != [] && forall p :: p in parts ==> c !in p)
            && (|read| > |names| <==> read != parts)
  {
    var parts := KeyParts(d, row, d.dims);
    SplitJoinIff(parts, c);
    PiecesOfKey(parts, c);
    NoneOccurIff(parts, c);
  }
}
