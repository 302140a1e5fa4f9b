/**
 * Mirage Maintenance, the day 9 puzzle: the definitions its solvers are
 * proved against.  A history is a list of values.  Its difference table
 * has the history as first row, and every further row holds the
 * differences of the row above, down to the first row of zeros.  The value
 * extrapolated before the first one of a row is its first value minus the
 * value extrapolated for the row below; for a row of zeros it is 0.
 */
module Oasis {
  import opened Text

  /** The differences of neighbouring values, one fewer than the values. */
  function Diffs(s: seq<int>): (r: seq<int>)
    ensures |r| == if |s| == 0 then 0 else |s| - 1
    ensures forall i :: 0 <= i < |r| ==> r[i] == s[i + 1] - s[i]
  {
    if |s| <= 1 then [] else seq(|s| - 1, i requires 0 <= i < |s| - 1 => s[i + 1] - s[i])
  }

  predicate AllZero(s: seq<int>) {
    forall i :: 0 <= i < |s| ==> s[i] == 0
  }

  /** The value extrapolated before the first value of the history. */
  function Before(s: seq<int>): int
    decreases |s|
  {
    if AllZero(s) then 0 else s[0] - Before(Diffs(s))
  }

  /** The difference table of the history, down to its first row of zeros. */
  function Table(s: seq<int>): (t: seq<seq<int>>)
    ensures |t| >= 1 && t[0] == s && AllZero(t[|t| - 1])
    decreases |s|
  {
    if AllZero(s) then [s] else [s] + Table(Diffs(s))
  }

  /** Every row of the table but the last holds a value other than 0, and the row after it is its differences. */
  lemma {:induction false} TableRows(s: seq<int>, j: nat)
    requires j + 1 < |Table(s)|
    ensures !AllZero(Table(s)[j]) && Table(s)[j + 1] == Diffs(Table(s)[j])
    decreases |s|
  {
    var t := Table(s);
    assert !AllZero(s);
    assert t == [s] + Table(Diffs(s));
    if j > 0 {
      TableRows(Diffs(s), j - 1);
    }
  }

  /** The table has at most one row more than the history has values. */
  lemma {:induction false} TableHeight(s: seq<int>)
    ensures |Table(s)| <= |s| + 1
    decreases |s|
  {
    if !AllZero(s) {
      TableHeight(Diffs(s));
    }
  }

  /** A row whose differences are all zero holds one value throughout. */
  lemma {:induction false} FlatRow(s: seq<int>, i: nat)
    requires AllZero(Diffs(s)) && i < |s|
    ensures s[i] == s[0]
  {
    if i > 0 {
      FlatRow(s, i - 1);
      assert Diffs(s)[i - 1] == s[i] - s[i - 1];
    }
  }

  /** Before a row of one value c comes c. */
  lemma ConstantBefore(s: seq<int>, c: int)
    requires |s| >= 1 && forall i :: 0 <= i < |s| ==> s[i] == c
    ensures Before(s) == c
  {
    var d := Diffs(s);
    assert forall i :: 0 <= i < |d| ==> d[i] == s[i + 1] - s[i] == 0;
    assert Before(d) == 0;
    assert s[0] == c;
  }

  /** Before the values a, a + b, a + 2b, ... (at least two of them) comes a - b. */
  lemma LinearBefore(s: seq<int>, a: int, b: int)
    requires |s| >= 2 && forall i :: 0 <= i < |s| ==> s[i] == a + b * i
    ensures Before(s) == a - b
  {
    var d := Diffs(s);
    forall i | 0 <= i < |d|
      ensures d[i] == b
    {
      assert s[i + 1] - s[i] == b * (i + 1) - b * i && b * (i + 1) == b * i + b;
    }
    ConstantBefore(d, b);
    assert s[0] == a;
    if AllZero(s) {
      assert s[1] == a + b;
    }
  }

  /**
   * The extrapolated value continues the table: put before the history, its
   * difference with the first value is the value extrapolated for the row
   * below.
   */
  lemma ExtendedDiffs(s: seq<int>)
    requires !AllZero(s)
    ensures Diffs([Before(s)] + s) == [Before(Diffs(s))] + Diffs(s)
  {
    var e := [Before(s)] + s;
    var l, r := Diffs(e), [Before(Diffs(s))] + Diffs(s);
    assert |l| == |r|;
    forall i | 0 <= i < |l|
      ensures l[i] == r[i]
    {
      if i > 0 {
        assert e[i + 1] == s[i] && e[i] == s[i - 1];
      }
    }
  }

  /** The sum of the values extrapolated before every history of the report. */
  function BeforeSum(report: seq<seq<int>>): int {
    if report == [] then 0 else BeforeSum(report[..|report| - 1]) + Before(report[|report| - 1])
  }

  /** The texts of the values of a history. */
  function ValueTexts(vs: seq<int>): (r: seq<string>)
    ensures |r| == |vs| && forall k :: 0 <= k < |vs| ==> r[k] == SignedDecimal(vs[k])
  {
    seq(|vs|, k requires 0 <= k < |vs| => SignedDecimal(vs[k]))
  }

  /** The text of a history: its values between single spaces. */
  function HistoryText(vs: seq<int>): string {
    Join(ValueTexts(vs), " ")
  }
}
