/** formatKeyOid of pkg/formats/snmp/snmp.go: a number in decimal, with a dot before every group of three digits. */
module OidText {
  import opened Integers
  import opened Decimal

  /** Digits in groups of three from the right, separated by dots. */
  function Grouped(s: string): string {
    if |s| <= 3 then s else Grouped(s[..|s| - 3]) + "." + s[|s| - 3..]
  }

  function WithoutDots(s: string): string {
    if s == "" then "" else WithoutDots(s[..|s| - 1]) + if s[|s| - 1] == '.' then "" else [s[|s| - 1]]
  }

  lemma {:induction false} WithoutDotsConcat(s: string, t: string)
    ensures WithoutDots(s + t) == WithoutDots(s) + WithoutDots(t)
  {
    if t == "" {
      assert s + t == s;
    } else {
      assert (s + t)[..|s + t| - 1] == s + t[..|t| - 1];
      WithoutDotsConcat(s, t[..|t| - 1]);
    }
  }

  lemma {:induction false} NoDots(s: string)
    requires '.' !in s
    ensures WithoutDots(s) == s
  {
    if s != "" {
      NoDots(s[..|s| - 1]);
    }
  }

  /** Deleting the dots gives back the digits. */
  lemma {:induction false} GroupedInverts(s: string)
    requires '.' !in s
    ensures WithoutDots(Grouped(s)) == s
  {
    if |s| <= 3 {
      NoDots(s);
    } else {
      var init, last := s[..|s| - 3], s[|s| - 3..];
      GroupedInverts(init);
      WithoutDotsConcat(Grouped(init) + ".", last);
      WithoutDotsConcat(Grouped(init), ".");
      NoDots(last);
      assert WithoutDots(".") == "" by { assert "."[..0] == ""; }
    }
  }

  /** A dot stands at every fourth place from the right and nowhere else, and not in front: every group but the
      first has three digits, and the first has one to three. */
  lemma {:induction false} DotsAt(s: string, i: nat)
    requires '.' !in s && s != "" && i < |Grouped(s)|
    ensures |Grouped(s)| == |s| + (|s| - 1) / 3
    ensures Grouped(s)[|Grouped(s)| - 1 - i] == '.' <==> i % 4 == 3
    ensures Grouped(s)[0] != '.'
  {
    if |s| > 3 {
      var init := s[..|s| - 3];
      var g := Grouped(init);
      assert Grouped(s) == g + "." + s[|s| - 3..];
      DotsAt(init, if i < 4 then 0 else i - 4);
      if i >= 4 {
        assert Grouped(s)[|Grouped(s)| - 1 - i] == g[|g| - 1 - (i - 4)];
      }
    }
  }

  /** What is still to be written of digits `s` when the current group has `k` digits already. */
  function Remaining(s: string, k: nat): (r: string)
    requires s != "" && k < 3
    ensures r != ""
  {
    var init, last := s[..|s| - 1], s[|s| - 1..];
    if init == "" then last
    else if k == 2 then Remaining(init, 0) + "." + last
    else Remaining(init, k + 1) + last
  }

  lemma {:induction false} RemainingSnoc(s: string, x: char, k: nat)
    requires s != "" && k < 3
    ensures Remaining(s + [x], k) == (if k == 2 then Remaining(s, 0) + "." else Remaining(s, k + 1)) + [x]
  {
    assert (s + [x])[..|s|] == s && (s + [x])[|s|..] == [x];
  }

  lemma {:induction false} RemainingGroup(s: string, x: char, y: char, z: char)
    requires s != ""
    ensures Remaining(s + [x] + [y] + [z], 0) == Remaining(s, 0) + "." + [x, y, z]
  {
    hide Remaining;
    RemainingSnoc(s, x, 2);
    RemainingSnoc(s + [x], y, 1);
    RemainingSnoc(s + [x] + [y], z, 0);
  }

  lemma {:induction false} RemainingShort(s: string)
    requires 0 < |s| <= 3
    ensures Remaining(s, 0) == s
  {
    assert Remaining([s[0]], 0) == Remaining([s[0]], 1) == Remaining([s[0]], 2) == [s[0]];
    hide Remaining;
    if |s| == 2 {
      RemainingSnoc(s[..1], s[1], 0);
      assert s == s[..1] + [s[1]];
    } else if |s| == 3 {
      RemainingSnoc(s[..1], s[1], 1);
      RemainingSnoc(s[..1] + [s[1]], s[2], 0);
      assert s == s[..1] + [s[1]] + [s[2]];
    }
  }

  lemma {:induction false} RemainingIsGrouped(s: string)
    requires s != ""
    ensures Remaining(s, 0) == Grouped(s)
  {
    if |s| <= 3 {
      RemainingShort(s);
    } else {
      var n := |s| - 3;
      RemainingIsGrouped(s[..n]);
      hide Remaining;
      RemainingGroup(s[..n], s[n], s[n + 1], s[n + 2]);
      assert s == s[..n] + [s[n]] + [s[n + 1]] + [s[n + 2]];
      assert s[n..] == [s[n], s[n + 1], s[n + 2]];
    }
  }

  lemma {:induction false} GroupedLength(s: string)
    requires s != ""
    ensures |Grouped(s)| == |s| + (|s| - 1) / 3
  {
    if |s| > 3 {
      GroupedLength(s[..|s| - 3]);
    }
  }

  /** The buffer has room for exactly the digits and the dots. */
  method FormatKeyOid(n: u32) returns (res: string)
    ensures res == Grouped(NatText(n))
  {
    var digits := NatText(n);
    hide NatText, Grouped;
    GroupedLength(digits);
    var numOfDots := (|digits| - 1) / 3;
    var out := new char[|digits| + numOfDots];
    FillBackwards(out, digits);
    res := out[..];
  }

  /** The loop: `out` is filled from the right up to the last byte, and no index leaves it. */
  method FillBackwards(out: array<char>, digits: string)
    requires digits != "" && out.Length == |Grouped(digits)|
    modifies out
    ensures out[..] == Grouped(digits)
  {
    hide Left, Grouped, Remaining;
    ghost var all := Grouped(digits);
    RemainingIsGrouped(digits);
    LeftStarts(digits, all);
    var i, j, k := |digits| - 1, out.Length - 1, 0;
    var done := false;
    while !done
      invariant !done ==> 0 <= i < |digits| && 0 <= k < 3 && 0 <= j < out.Length && Left(digits, i, k, all, j)
      invariant out.Length == |all| && (done ==> j == 0)
      invariant forall q :: (if done then 0 else j + 1) <= q < out.Length ==> out[q] == all[q]
      decreases !done, i
    {
      LeftStep(digits, i, k, all, j);
      out[j] := digits[i];
      if i == 0 {
        done := true;
      } else {
        k := k + 1;
        if k == 3 {
          j, k := j - 1, 0;
          out[j] := '.';
        }
        i, j := i - 1, j - 1;
      }
    }
  }

  /** The digits up to `i` are what is left to be written of `all` up to `j`. */
  ghost predicate Left(digits: string, i: nat, k: nat, all: string, j: nat) {
    i < |digits| && k < 3 && j < |all| && Remaining(digits[..i + 1], k) == all[..j + 1]
  }

  lemma {:induction false} LeftStarts(digits: string, all: string)
    requires digits != "" && all == Remaining(digits, 0)
    ensures Left(digits, |digits| - 1, 0, all, |all| - 1)
  {
    assert digits[..|digits|] == digits && all[..|all|] == all;
  }

  /** What the loop writes next: the digit, then a dot if that fills the group. */
  lemma {:induction false} LeftStep(digits: string, i: nat, k: nat, all: string, j: nat)
    requires Left(digits, i, k, all, j)
    ensures all[j] == digits[i] && (i == 0 ==> j == 0)
    ensures i > 0 && k < 2 ==> j > 0 && Left(digits, i - 1, k + 1, all, j - 1)
    ensures i > 0 && k == 2 ==> j > 1 && all[j - 1] == '.' && Left(digits, i - 1, 0, all, j - 2)
  {
    var first := all[..j + 1];
    assert first[j] == all[j];
    if i == 0 {
      assert digits[..1] == [digits[0]];
      assert |first| == 1;
    } else {
      var init := digits[..i];
      assert digits[..i + 1] == init + [digits[i]];
      RemainingSnoc(init, digits[i], k);
      hide Remaining;
      if k < 2 {
        assert all[..j] == first[..j];
      } else {
        assert first[j - 1] == '.' && all[..j - 1] == first[..j - 1];
      }
    }
  }

  /** Different numbers have different texts. */
  lemma {:induction false} FormatInjective(m: u32, n: u32)
    requires Grouped(NatText(m)) == Grouped(NatText(n))
    ensures m == n
  {
    GroupedInverts(NatText(m));
    GroupedInverts(NatText(n));
    NatTextInjective(m, n);
  }
}
