/**
 * Day 3 (gear ratios): the engine schematic both Rust solvers scan.  The
 * lines are framed by a row of dots above and below and a dot at both ends
 * of every row; a part number is a maximal run of digits, found where the
 * run ends, at the first non-digit after it.  Also the decimal length of
 * a number, which places a run from its value and its end.
 */
module Schematic {
  import opened Wrappers
  import opened Text

  function Dots(n: nat): (r: string)
    ensures |r| == n && forall i :: 0 <= i < n ==> r[i] == '.'
  {
    seq(n, _ => '.')
  }

  /**
   * The grid the Rust solvers build: a row of as many dots as the first line
   * has chars before and after the lines, and every row framed by two dots.
   */
  function Framed(lines: seq<string>): (rows: seq<string>)
    requires |lines| >= 1
    ensures |rows| == |lines| + 2
    ensures rows[0] == "." + Dots(|lines[0]|) + "." && rows[|rows| - 1] == rows[0]
    ensures forall k :: 0 <= k < |lines| ==> rows[k + 1] == "." + lines[k] + "."
  {
    var fake := Dots(|lines[0]|);
    var all := [fake] + lines + [fake];
    seq(|all|, k requires 0 <= k < |all| => "." + all[k] + ".")
  }

  /** All lines as long as the first. */
  predicate Rectangular(lines: seq<string>)
    requires |lines| >= 1
  {
    forall k :: 0 <= k < |lines| ==> |lines[k]| == |lines[0]|
  }

  function Pow10(n: nat): (p: nat)
    ensures p >= 1
  {
    if n == 0 then 1 else 10 * Pow10(n - 1)
  }

  lemma {:induction false} Pow10Grows(a: nat, b: nat)
    requires a < b
    ensures Pow10(a) < Pow10(b)
    decreases b
  {
    if a < b - 1 {
      Pow10Grows(a, b - 1);
    }
  }

  /** The count of decimal digits of v written without leading zeros. */
  function NbDigits(v: nat): nat {
    |Decimal(v)|
  }

  /** v has NbDigits(v) digits: 10^(n-1) <= v < 10^n, and 0 has one digit. */
  lemma {:induction false} NbDigitsBounds(v: nat)
    ensures NbDigits(v) >= 1 && v < Pow10(NbDigits(v))
    ensures v >= 1 ==> Pow10(NbDigits(v) - 1) <= v
    ensures v < 10 ==> NbDigits(v) == 1
    decreases v
  {
    if v >= 10 {
      var q := v / 10;
      NbDigitsBounds(q);
      assert NbDigits(v) == NbDigits(q) + 1;
      assert v == 10 * q + v % 10;
      assert q <= Pow10(NbDigits(q)) - 1;
    }
  }

  /** A string of n digits has a value below 10^n, and at least 10^(n-1) when it does not start with '0'. */
  lemma {:induction false} DigitsBounds(s: string)
    requires AllDigits(s)
    ensures DigitsValue(s) < Pow10(|s|)
    ensures |s| > 0 && s[0] != '0' ==> Pow10(|s| - 1) <= DigitsValue(s)
    decreases |s|
  {
    if s != [] {
      var t := s[..|s| - 1];
      DigitsBounds(t);
      if |t| > 0 {
        assert t[0] == s[0];
      }
    }
  }

  /**
   * The decimal length of a run's value is at most the run's length, and
   * equal to it when the run has no leading zero.
   */
  lemma {:induction false} DigitsLength(s: string)
    requires |s| > 0 && AllDigits(s)
    ensures NbDigits(DigitsValue(s)) <= |s|
    ensures s[0] != '0' || |s| == 1 ==> NbDigits(DigitsValue(s)) == |s|
    decreases |s|
  {
    var t := s[..|s| - 1];
    var q := DigitsValue(t);
    NbDigitsStep(q, DigitValue(s[|s| - 1]));
    if |t| > 0 {
      DigitsLength(t);
      if s[0] != '0' {
        assert t[0] == s[0];
        DigitsPositive(t);
      }
    }
  }

  /** A run of digits that does not start with '0' has a positive value. */
  lemma {:induction false} DigitsPositive(s: string)
    requires |s| > 0 && AllDigits(s) && s[0] != '0'
    ensures DigitsValue(s) >= 1
    decreases |s|
  {
    if |s| > 1 {
      var t := s[..|s| - 1];
      assert t[0] == s[0];
      DigitsPositive(t);
    }
  }

  /** Appending a digit to a positive number adds one decimal digit. */
  lemma NbDigitsStep(q: nat, d: nat)
    requires d < 10
    ensures NbDigits(10 * q + d) == if q == 0 then 1 else NbDigits(q) + 1
  {
    var v := 10 * q + d;
    assert v / 10 == q && v % 10 == d;
  }

  /** The start of the run of digits that ends just before j. */
  function RunStart(row: string, j: nat): (s: nat)
    requires j <= |row|
    ensures s <= j && AllDigits(row[s..j])
    ensures s > 0 ==> !IsDigit(row[s - 1])
    decreases j
  {
    if j == 0 || !IsDigit(row[j - 1]) then j
    else
      var s := RunStart(row, j - 1);
      assert row[s..j] == row[s..j - 1] + [row[j - 1]];
      s
  }

  /** The value of the run of digits that ends just before j, 0 when there is none. */
  function RunValue(row: string, j: nat): nat
    requires j <= |row|
  {
    DigitsValue(row[RunStart(row, j)..j])
  }

  /** A digit extends the run's value by one decimal place; any other char ends it. */
  lemma RunValueStep(row: string, j: nat)
    requires j < |row|
    ensures IsDigit(row[j]) ==> RunValue(row, j + 1) == 10 * RunValue(row, j) + DigitValue(row[j])
    ensures !IsDigit(row[j]) ==> RunValue(row, j + 1) == 0
  {
    var s := RunStart(row, j + 1);
    if IsDigit(row[j]) {
      assert row[s..j + 1][..j - s] == row[s..j];
    }
  }

  /** Position e ends a run: row[e] is the first non-digit after a digit. */
  predicate EndsRun(row: string, e: nat) {
    0 < e < |row| && IsDigit(row[e - 1]) && !IsDigit(row[e])
  }

  /** The ends of the runs in row[..n], from left to right. */
  function RunEnds(row: string, n: nat): (r: seq<nat>)
    requires n <= |row|
    ensures forall e: nat :: e in r <==> e < n && EndsRun(row, e)
    ensures forall k :: 0 <= k < |r| ==> r[k] < n && EndsRun(row, r[k])
    ensures forall a, b :: 0 <= a < b < |r| ==> r[a] < r[b]
  {
    if n == 0 then []
    else
      var front := RunEnds(row, n - 1);
      assert forall k :: 0 <= k < |front| ==> front[k] in front;
      front + (if EndsRun(row, n - 1) then [n - 1] else [])
  }

  /** Every framed row starts and ends with a dot, and the outer rows are all dots. */
  lemma FramedEdges(lines: seq<string>)
    requires |lines| >= 1
    ensures var rows := Framed(lines);
      (forall y :: 0 <= y < |rows| ==> |rows[y]| >= 2 && rows[y][0] == '.' && rows[y][|rows[y]| - 1] == '.') &&
      (forall i :: 0 <= i < |rows[0]| ==> rows[0][i] == '.') && rows[|rows| - 1] == rows[0]
  {
    var rows := Framed(lines);
    forall y | 0 <= y < |rows|
      ensures |rows[y]| >= 2 && rows[y][0] == '.' && rows[y][|rows[y]| - 1] == '.'
    {
      if 0 < y < |rows| - 1 {
        assert rows[y] == "." + lines[y - 1] + ".";
      }
    }
  }

  /** The rows of a framed grid of equal lines have the same length and start and end with a dot; the outer rows are all dots. */
  lemma FramedShape(lines: seq<string>)
    requires |lines| >= 1 && Rectangular(lines)
    ensures var rows := Framed(lines); var w := |lines[0]| + 2;
      (forall y :: 0 <= y < |rows| ==> |rows[y]| == w && rows[y][0] == '.' && rows[y][w - 1] == '.') &&
      (forall i :: 0 <= i < w ==> rows[0][i] == '.' && rows[|rows| - 1][i] == '.')
  {
    var rows := Framed(lines);
    forall y | 0 <= y < |rows| ensures |rows[y]| == |lines[0]| + 2 {
      if 0 < y < |rows| - 1 {
        assert rows[y] == "." + lines[y - 1] + ".";
      }
    }
  }

  /** The end, exclusive, of the run of digits from s on. */
  function RunStop(line: string, s: nat): (e: nat)
    requires s <= |line|
    ensures s <= e <= |line| && AllDigits(line[s..e]) && (e == |line| || !IsDigit(line[e]))
    decreases |line| - s
  {
    if s < |line| && IsDigit(line[s]) then
      var e := RunStop(line, s + 1);
      assert line[s..e] == [line[s]] + line[s + 1..e];
      e
    else s
  }

  /** The run of digits from i on stops at the first non-digit e. */
  lemma {:induction false} StopAt(line: string, i: nat, e: nat)
    requires i <= e <= |line| && AllDigits(line[i..e]) && (e == |line| || !IsDigit(line[e]))
    ensures RunStop(line, i) == e
    decreases e - i
  {
    if i < e {
      assert line[i] == line[i..e][0];
      assert line[i + 1..e] == line[i..e][1..];
      StopAt(line, i + 1, e);
    }
  }
}
