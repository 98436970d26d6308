/** strings.Join, and strings.Split at a single character. */
module SplitJoin {

  /** strings.Join */
  function Join(parts: seq<string>, sep: string): string {
    if parts == [] then "" else if |parts| == 1 then parts[0] else parts[0] + sep + Join(parts[1..], sep)
  }

  /** strings.Split */
  function Split(s: string, c: char): (parts: seq<string>)
    ensures parts != []
    ensures forall p :: p in parts ==> c !in p
  {
    if s == "" then [""]
    else
      var rest := Split(s[1..], c);
      if s[0] == c then [""] + rest else [[s[0]] + rest[0]] + rest[1..]
  }

  function Occurrences(s: string, c: char): nat {
    if s == "" then 0 else (if s[0] == c then 1 else 0) + Occurrences(s[1..], c)
  }

  function TotalOccurrences(parts: seq<string>, c: char): nat {
    if parts == [] then 0 else Occurrences(parts[0], c) + TotalOccurrences(parts[1..], c)
  }

  lemma {:induction false} SplitLength(s: string, c: char)
    ensures |Split(s, c)| == Occurrences(s, c) + 1
  {
    if s != "" {
      SplitLength(s[1..], c);
    }
  }

  lemma {:induction false} OccurrencesConcat(s: string, t: string, c: char)
    ensures Occurrences(s + t, c) == Occurrences(s, c) + Occurrences(t, c)
  {
    if s == "" {
      assert s + t == t;
    } else {
      assert (s + t)[1..] == s[1..] + t;
      OccurrencesConcat(s[1..], t, c);
    }
  }

  lemma {:induction false} OccursIff(s: string, c: char)
    ensures Occurrences(s, c) == 0 <==> c !in s
  {
    if s != "" {
      OccursIff(s[1..], c);
      assert s == [s[0]] + s[1..];
    }
  }

  lemma {:induction false} NoneOccurIff(parts: seq<string>, c: char)
    ensures TotalOccurrences(parts, c) == 0 <==> forall p :: p in parts ==> c !in p
  {
    if parts != [] {
      OccursIff(parts[0], c);
      NoneOccurIff(parts[1..], c);
      assert parts == [parts[0]] + parts[1..];
    }
  }

  lemma {:induction false} JoinOccurrences(parts: seq<string>, c: char)
    requires parts != []
    ensures Occurrences(Join(parts, [c]), c) == |parts| - 1 + TotalOccurrences(parts, c)
  {
    if |parts| == 1 {
      assert TotalOccurrences(parts[1..], c) == 0;
    } else {
      JoinOccurrences(parts[1..], c);
      var rest := Join(parts[1..], [c]);
      OccurrencesConcat(parts[0] + [c], rest, c);
      OccurrencesConcat(parts[0], [c], c);
      assert Occurrences([c], c) == 1;
    }
  }

  lemma {:induction false} SplitFront(p: string, c: char)
    requires c !in p
    ensures Split(p, c) == [p]
    ensures forall s :: Split(p + [c] + s, c) == [p] + Split(s, c)
  {
    if p == "" {
      forall s ensures Split(p + [c] + s, c) == [p] + Split(s, c) {
        assert p + [c] + s == [c] + s;
      }
    } else {
      SplitFront(p[1..], c);
      assert [p[0]] + p[1..] == p;
      forall s ensures Split(p + [c] + s, c) == [p] + Split(s, c) {
        assert (p + [c] + s)[1..] == p[1..] + [c] + s;
        assert [p[0]] + p[1..] == p;
      }
    }
  }

  lemma {:induction false} SplitInverts(parts: seq<string>, c: char)
    requires parts != [] && forall p :: p in parts ==> c !in p
    ensures Split(Join(parts, [c]), c) == parts
  {
    SplitFront(parts[0], c);
    if |parts| > 1 {
      SplitInverts(parts[1..], c);
      assert Split(parts[0] + [c] + Join(parts[1..], [c]), c) == [parts[0]] + Split(Join(parts[1..], [c]), c);
    }
  }

  /** Splitting a joined key gives back its parts exactly if there are any and none contains the token. */
  lemma {:induction false} SplitJoinIff(parts: seq<string>, c: char)
    ensures Split(Join(parts, [c]), c) == parts <==> parts != [] && forall p :: p in parts ==> c !in p
  {
    if parts != [] && forall p :: p in parts ==> c !in p {
      SplitInverts(parts, c);
    }
  }

  /** How many pieces a joined key falls into. */
  lemma {:induction false} PiecesOfKey(parts: seq<string>, c: char)
    ensures |Split(Join(parts, [c]), c)| == if parts == [] then 1 else |parts| + TotalOccurrences(parts, c)
  {
    SplitLength(Join(parts, [c]), c);
    if parts != [] {
      JoinOccurrences(parts, c);
    }
  }
}
