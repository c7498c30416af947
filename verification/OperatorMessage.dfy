/**
 The rewriting loop that both the clearance client and the approval broker run
 over operator messages: ".." becomes "." until none is left.
 */
module OperatorMessage {

  /** `".." in s` */
  predicate HasDoublePeriod(s: string)
  {
    exists i :: 0 <= i < |s| - 1 && s[i] == '.' && s[i + 1] == '.'
  }

  /** `s.replace("..", ".")`: left to right, without overlaps. */
  function ReplaceDoubled(s: string): (r: string)
    ensures |r| <= |s|
    ensures HasDoublePeriod(s) ==> |r| < |s|
    ensures s != "" ==> r != "" && r[0] == s[0]
  {
    if |s| >= 2 && s[0] == '.' && s[1] == '.' then
      "." + ReplaceDoubled(s[2..])
    else if s == "" then ""
    else
      assert HasDoublePeriod(s) ==> HasDoublePeriod(s[1..]) by {
        if i :| 0 <= i < |s| - 1 && s[i] == '.' && s[i + 1] == '.' {
          assert s[1..][i - 1] == '.' && s[1..][i] == '.';
        }
      }
      [s[0]] + ReplaceDoubled(s[1..])
  }

  /** Every maximal run of dots collapsed to one dot. */
  function Collapse(s: string): (r: string)
    ensures s != "" ==> r != "" && r[0] == s[0]
  {
    if |s| <= 1 then s
    else if s[0] == '.' && s[1] == '.' then Collapse(s[1..])
    else [s[0]] + Collapse(s[1..])
  }

  lemma {:induction false} ReplaceKeepsCollapse(s: string)
    ensures Collapse(ReplaceDoubled(s)) == Collapse(s)
    decreases |s|
  {
    var r := ReplaceDoubled(s);
    if |s| >= 2 && s[0] == '.' && s[1] == '.' {
      ReplaceKeepsCollapse(s[2..]);
      assert r[1..] == ReplaceDoubled(s[2..]);
      assert s[1..][1..] == s[2..];
    } else if s != "" {
      ReplaceKeepsCollapse(s[1..]);
      assert r[1..] == ReplaceDoubled(s[1..]);
    }
  }

  lemma DoubleInTail(s: string)
    requires s != "" && HasDoublePeriod(s[1..])
    ensures HasDoublePeriod(s)
  {
    var i :| 0 <= i < |s[1..]| - 1 && s[1..][i] == '.' && s[1..][i + 1] == '.';
    assert s[i + 1] == '.' && s[i + 2] == '.';
  }

  lemma {:induction false} CollapsedIsFixed(s: string)
    requires !HasDoublePeriod(s)
    ensures Collapse(s) == s
  {
    if |s| > 1 {
      if HasDoublePeriod(s[1..]) { DoubleInTail(s); }
      CollapsedIsFixed(s[1..]);
    }
  }

  lemma {:induction false} CollapseHasNone(s: string)
    ensures !HasDoublePeriod(Collapse(s))
  {
    if |s| > 1 {
      CollapseHasNone(s[1..]);
      var rest := Collapse(s[1..]);
      assert Collapse(s) == rest || Collapse(s) == [s[0]] + rest;
      assert forall i :: 0 < i < |rest| ==> ([s[0]] + rest)[i] == rest[i - 1];
    }
  }

  /** The loop of `build_operator_message` and `_operator_message`. */
  method Settle(text: string) returns (message: string)
    ensures message == Collapse(text) && !HasDoublePeriod(message)
  {
    message := text;
    while HasDoublePeriod(message)
      invariant Collapse(message) == Collapse(text)
      decreases |message|
    {
      ReplaceKeepsCollapse(message);
      message := ReplaceDoubled(message);
    }
    CollapsedIsFixed(message);
  }

  // ------------------------------------- what collapsing means, run by run

  function Dots(n: nat): (s: string)
    ensures |s| == n
  {
    seq(n, i => '.')
  }

  lemma {:induction false} CollapseDots(n: nat, b: string)
    requires n > 0 && (b != "" ==> b[0] != '.')
    ensures Collapse(Dots(n) + b) == "." + Collapse(b)
  {
    var s := Dots(n) + b;
    if n == 1 {
      assert s[1..] == b;
      assert Dots(1) == ".";
    } else {
      assert s[1..] == Dots(n - 1) + b;
      CollapseDots(n - 1, b);
    }
  }

  lemma {:induction false} CollapseLead(a: string, b: string)
    requires (a != "" ==> a[|a| - 1] != '.') || (b != "" ==> b[0] != '.')
    ensures Collapse(a + b) == Collapse(a) + Collapse(b)
  {
    if a == "" {
      assert a + b == b;
    } else {
      assert (a + b)[1..] == a[1..] + b;
      CollapseLead(a[1..], b);
      if |a| == 1 {
        assert a[1..] == "" && Collapse("") == "";
        assert Collapse(a) == a;
        if b == "" { assert a + b == a; }
      }
    }
  }

  /** A maximal run of n dots between a and b becomes exactly one. */
  lemma CollapseRun(a: string, n: nat, b: string)
    requires n > 0 && (a != "" ==> a[|a| - 1] != '.') && (b != "" ==> b[0] != '.')
    ensures Collapse(a + Dots(n) + b) == Collapse(a) + "." + Collapse(b)
  {
    hide Collapse;
    assert a + Dots(n) + b == a + (Dots(n) + b);
    CollapseLead(a, Dots(n) + b);
    CollapseDots(n, b);
  }
}
