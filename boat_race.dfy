/**
 * Wait For It, the day 6 puzzle: the definitions its solvers are proved
 * against.  Holding the button of a boat for `hold` milliseconds of a race
 * of `time` milliseconds moves it `(time - hold) * hold` millimetres; a
 * hold wins when it goes further than the record.  The sheet lists the
 * races' times on a "Time:" line and their records on a "Distance:" line.
 */
module BoatRace {
  import opened Wrappers
  import opened Text
  import Scratchcards

  /** The distance a boat held for `hold` covers in a race of `time`. */
  function Distance(time: int, hold: int): int {
    (time - hold) * hold
  }

  /** The holds 0, 1, ..., n - 1 that beat the record. */
  function Count(time: int, record: int, n: nat): (c: nat)
    ensures c <= n
  {
    if n == 0 then 0 else Count(time, record, n - 1) + (if Distance(time, n - 1) > record then 1 else 0)
  }

  /** The number of ways to win: the holds shorter than the race that beat the record. */
  function Wins(time: nat, record: int): nat {
    Count(time, record, time)
  }

  /** The holds 0, 1, ..., n - 1 that reach the record: go at least as far. */
  function Reaching(time: int, record: int, n: nat): (c: nat)
    ensures c <= n
  {
    if n == 0 then 0 else Reaching(time, record, n - 1) + (if Reaches(time, record, n - 1) then 1 else 0)
  }

  /** The test of the Python solvers: the hold goes at least as far as the record. */
  predicate Reaches(time: int, record: int, hold: int) {
    hold * (time - hold) - record >= 0
  }

  /** The distance is the same for a hold and for the race's time minus it. */
  lemma DistanceSymmetric(time: int, hold: int)
    ensures Distance(time, hold) == Distance(time, time - hold)
  {
    assert time - (time - hold) == hold;
  }

  /**
   * The distance grows up to half the race and shrinks after it, so a hold
   * between two winning holds wins too: the winning holds are a run.
   */
  lemma WinnersInterval(time: int, record: int, low: int, mid: int, high: int)
    requires low <= mid <= high && Distance(time, low) > record && Distance(time, high) > record
    ensures Distance(time, mid) > record
  {
    assert Distance(time, mid) - Distance(time, low) == (mid - low) * (time - low - mid);
    assert Distance(time, mid) - Distance(time, high) == (high - mid) * (mid + high - time);
    if time - low - mid >= 0 {
      assert (mid - low) * (time - low - mid) >= 0;
    } else {
      assert (high - mid) * (mid + high - time) >= 0;
    }
  }

  /** Without holding the boat does not move, so with a record of 0 or more some hold of a race loses. */
  lemma {:induction false} RestLoses(time: int, record: int, n: nat)
    requires record >= 0 && n >= 1
    ensures Count(time, record, n) <= n - 1
  {
    if n > 1 {
      RestLoses(time, record, n - 1);
    } else {
      assert Distance(time, 0) == 0;
    }
  }

  /** With a record of 0 or more the ways to win are fewer than the race's milliseconds. */
  lemma WinsBound(time: nat, record: int)
    requires record >= 0 && time >= 1
    ensures Wins(time, record) <= time - 1
  {
    RestLoses(time, record, time);
  }

  /** Between integers, reaching the record is beating the record minus one. */
  lemma {:induction false} ReachingAsCount(time: int, record: int, n: nat)
    ensures Reaching(time, record, n) == Count(time, record - 1, n)
  {
    if n > 0 {
      ReachingAsCount(time, record, n - 1);
      assert Reaches(time, record, n - 1) <==> Distance(time, n - 1) > record - 1;
    }
  }

  /** With a record of 0 every hold of 0 to the race's time reaches it. */
  lemma {:induction false} ReachingZero(time: int, n: nat)
    requires n <= time + 1
    ensures Reaching(time, 0, n) == n
  {
    if n > 0 {
      ReachingZero(time, n - 1);
      NearerReaches(time, n - 1);
    }
  }

  /** Every hold from 0 to the race's time reaches a record of 0. */
  lemma NearerReaches(time: int, hold: nat)
    requires hold <= time
    ensures Reaches(time, 0, hold)
  {
    var rest: nat := time - hold;
    assert hold * rest >= 0;
  }

  /** No hold goes further than a quarter of the square of the race's time. */
  lemma DistanceQuarterSquare(time: int, hold: int)
    ensures 4 * Distance(time, hold) <= time * time
  {
    var u, d := time - hold, time - 2 * hold;
    assert time * time == u * u + 2 * (u * hold) + hold * hold by {
      assert time == u + hold;
    }
    assert d * d == u * u - 2 * (u * hold) + hold * hold by {
      assert d == u - hold;
    }
    assert d * d >= 0;
  }

  lemma MultiplyMonotone(a: nat, b: nat, c: nat)
    requires a <= b
    ensures a * c <= b * c
  {
  }

  /**
   * Counting the holds from 0 to the race's time that reach a record of 1
   * or more counts the ways to win against the record minus one.
   */
  lemma ReachingAsWins(time: nat, record: int)
    requires record >= 1
    ensures Reaching(time, record, time + 1) == Wins(time, record - 1)
  {
    ReachingAsCount(time, record, time + 1);
    assert Distance(time, time) == 0;
  }

  /** The product of the values. */
  function Product(xs: seq<int>): int {
    if xs == [] then 1 else Product(xs[..|xs| - 1]) * xs[|xs| - 1]
  }

  /** The product of the values other than 0. */
  function ProductOfNonZero(xs: seq<nat>): nat {
    if xs == [] then 1
    else var p := ProductOfNonZero(xs[..|xs| - 1]);
      if xs[|xs| - 1] > 0 then p * xs[|xs| - 1] else p
  }

  /** The product of the values other than 0 is at least 1, and every such value divides it. */
  lemma {:induction false} ProductOfNonZeroDivides(xs: seq<nat>)
    ensures ProductOfNonZero(xs) >= 1
    ensures forall k :: 0 <= k < |xs| && xs[k] > 0 ==> ProductOfNonZero(xs) % xs[k] == 0
  {
    if xs != [] {
      var front := xs[..|xs| - 1];
      var x := xs[|xs| - 1];
      var p := ProductOfNonZero(front);
      ProductOfNonZeroDivides(front);
      forall k | 0 <= k < |xs| && xs[k] > 0
        ensures ProductOfNonZero(xs) % xs[k] == 0
      {
        if k < |xs| - 1 {
          assert front[k] == xs[k];
          if x > 0 {
            MultipleTimes(p, xs[k], x);
          }
        } else {
          assert p * x == x * p;
          MultipleTimes(x, x, p);
        }
      }
    }
  }

  /** Every factor is at least 1 or skipped, so the product of a prefix is at most the whole product. */
  lemma {:induction false} ProductOfNonZeroPrefix(xs: seq<nat>, n: nat)
    requires n <= |xs|
    ensures ProductOfNonZero(xs[..n]) <= ProductOfNonZero(xs)
    decreases |xs| - n
  {
    if n < |xs| {
      var front := xs[..|xs| - 1];
      assert front[..n] == xs[..n];
      ProductOfNonZeroPrefix(front, n);
      var p, x := ProductOfNonZero(front), xs[|xs| - 1];
      if x > 0 {
        assert p * x >= p * 1;
      }
    } else {
      assert xs[..n] == xs;
    }
  }

  /** A multiple of d times a value is a multiple of d. */
  lemma MultipleTimes(p: nat, d: nat, x: nat)
    requires d > 0 && p % d == 0
    ensures (p * x) % d == 0
  {
    var q := p / d;
    assert p == d * q + p % d;
    assert p * x == d * (q * x);
    MultipleMod(d, q * x);
  }

  /** d times any value leaves no remainder. */
  lemma MultipleMod(d: nat, m: nat)
    requires d > 0
    ensures (d * m) % d == 0
  {
    var r := (d * m) % d;
    var q := (d * m) / d;
    assert d * m == d * q + r && 0 <= r < d;
    assert d * (m - q) == r;
    if m - q >= 1 {
      assert false;
    } else if m - q <= -1 {
      assert false;
    }
  }

  /** A product is 0 exactly when one of its values is. */
  lemma {:induction false} ProductZero(xs: seq<int>)
    ensures Product(xs) == 0 <==> exists k :: 0 <= k < |xs| && xs[k] == 0
  {
    if xs != [] {
      var front := xs[..|xs| - 1];
      ProductZero(front);
      if Product(xs) == 0 {
        if Product(front) == 0 {
          var k :| 0 <= k < |front| && front[k] == 0;
          assert xs[k] == 0;
        } else {
          assert xs[|xs| - 1] == 0;
        }
      }
      if exists k :: 0 <= k < |xs| && xs[k] == 0 {
        var k :| 0 <= k < |xs| && xs[k] == 0;
        if k < |xs| - 1 {
          assert front[k] == 0;
        }
      }
    }
  }

  /**
   * A line of the race sheet: its name, then the values, each after a run
   * of spaces (at least one between two values).
   */
  function SheetLine(name: string, vs: seq<nat>, gaps: seq<string>): string
    requires |gaps| == |vs| + 1
  {
    name + Scratchcards.Numbers(vs, gaps)
  }

  /** The race sheet: the times line, then the records line, each ended by a newline. */
  function Sheet(times: seq<nat>, timeGaps: seq<string>, records: seq<nat>, recordGaps: seq<string>): string
    requires |timeGaps| == |times| + 1 && |recordGaps| == |records| + 1
  {
    SheetLine("Time:", times, timeGaps) + "\n" + SheetLine("Distance:", records, recordGaps) + "\n"
  }

  /** A sheet splits at its newlines into its two lines and the empty piece after the last newline. */
  lemma SheetSplit(times: seq<nat>, timeGaps: seq<string>, records: seq<nat>, recordGaps: seq<string>)
    requires Scratchcards.Layout(timeGaps, |times|) && Scratchcards.Layout(recordGaps, |records|)
    ensures Split(Sheet(times, timeGaps, records, recordGaps), '\n')
         == [SheetLine("Time:", times, timeGaps), SheetLine("Distance:", records, recordGaps), ""]
  {
    var t, d := SheetLine("Time:", times, timeGaps), SheetLine("Distance:", records, recordGaps);
    Scratchcards.NumbersLack(times, timeGaps, '\n');
    Scratchcards.NumbersLack(records, recordGaps, '\n');
    var parts := [t, d, ""];
    assert forall k :: 0 <= k < |parts| ==> '\n' !in parts[k];
    JoinSplit(parts, '\n');
    assert parts[1..] == [d, ""] && parts[1..][1..] == [""];
    assert Join(parts[1..], "\n") == d + "\n" + "";
    assert Join(parts, "\n") == t + "\n" + (d + "\n" + "");
    assert t + "\n" + (d + "\n" + "") == t + "\n" + d + "\n";
  }

  /** The times line holds its label, and without it it is the spaced values. */
  lemma TimeLine(vs: seq<nat>, gaps: seq<string>)
    requires Scratchcards.Layout(gaps, |vs|)
    ensures Contains(SheetLine("Time:", vs, gaps), "Time:")
    ensures Replace(SheetLine("Time:", vs, gaps), "Time:", "") == Scratchcards.Numbers(vs, gaps)
  {
    var n := Scratchcards.Numbers(vs, gaps);
    ContainsAt(SheetLine("Time:", vs, gaps), "Time:", 0);
    ReplaceFront("Time:", n, "");
    Scratchcards.NumbersLack(vs, gaps, ':');
    LacksChar(n, "Time:", ':');
  }

  /** The records line holds its label and not the times label, and without its label it is the spaced values. */
  lemma DistanceLine(vs: seq<nat>, gaps: seq<string>)
    requires Scratchcards.Layout(gaps, |vs|)
    ensures !Contains(SheetLine("Distance:", vs, gaps), "Time:")
    ensures Contains(SheetLine("Distance:", vs, gaps), "Distance:")
    ensures Replace(SheetLine("Distance:", vs, gaps), "Distance:", "") == Scratchcards.Numbers(vs, gaps)
  {
    var n := Scratchcards.Numbers(vs, gaps);
    var line := SheetLine("Distance:", vs, gaps);
    Scratchcards.NumbersLack(vs, gaps, 'T');
    assert 'T' !in line;
    LacksChar(line, "Time:", 'T');
    ContainsAt(line, "Distance:", 0);
    ReplaceFront("Distance:", n, "");
    Scratchcards.NumbersLack(vs, gaps, ':');
    LacksChar(n, "Distance:", ':');
  }

  /** With nothing after its last value, a sheet line is what `strip` leaves of it and its newline. */
  lemma SheetLineTrimmed(name: string, vs: seq<nat>, gaps: seq<string>)
    requires Scratchcards.Layout(gaps, |vs|) && gaps[|vs|] == ""
    requires |name| > 0 && !IsWhitespace(name[0]) && !IsWhitespace(name[|name| - 1])
    ensures Trim(SheetLine(name, vs, gaps) + "\n") == SheetLine(name, vs, gaps)
  {
    var n := Scratchcards.Numbers(vs, gaps);
    var line := SheetLine(name, vs, gaps);
    if vs == [] {
      assert n == gaps[0] == "";
      assert line == name;
    } else {
      var ds := Scratchcards.Decimals(vs);
      var last := ds[|ds| - 1];
      SpreadEnd(ds, gaps);
      assert IsDigit(last[|last| - 1]);
      assert line[|line| - 1] == n[|n| - 1];
    }
    TrimNewline(line);
  }

  /** The spaced values hold no whitespace but spaces. */
  lemma NumbersSpacedOnly(vs: seq<nat>, gaps: seq<string>)
    requires Scratchcards.Layout(gaps, |vs|)
    ensures SpacedOnly(Scratchcards.Numbers(vs, gaps))
  {
    Scratchcards.NumbersLack(vs, gaps, '\t');
    Scratchcards.NumbersLack(vs, gaps, '\n');
    Scratchcards.NumbersLack(vs, gaps, '\r');
    Scratchcards.NumbersLack(vs, gaps, 11 as char);
    Scratchcards.NumbersLack(vs, gaps, 12 as char);
  }

  /** The digits of the values written one after the other: the line read with its spaces ignored. */
  function Digits(vs: seq<nat>): (s: string)
    ensures AllDigits(s) && (vs != [] ==> |s| > 0)
  {
    if vs == [] then ""
    else
      var d, rest := Decimal(vs[0]), Digits(vs[1..]);
      assert forall i :: 0 <= i < |d + rest| ==> IsDigit((d + rest)[i]) by {
        forall i | 0 <= i < |d + rest| ensures IsDigit((d + rest)[i]) {
          if i >= |d| {
            assert (d + rest)[i] == rest[i - |d|];
          }
        }
      }
      d + rest
  }

  /** The one number a line of values stands for when the spaces between them are ignored. */
  function Kerned(vs: seq<nat>): nat {
    DigitsValue(Digits(vs))
  }

  /** A single value stands for itself. */
  lemma KernedOne(v: nat)
    ensures Kerned([v]) == v
  {
    var d := Decimal(v);
    assert [v][1..] == [];
    assert Digits([v]) == d + Digits([]);
    assert d + "" == d;
  }

  /** Removing the spaces from the spaced values leaves their digits one after the other. */
  lemma {:induction false} NumbersKerned(vs: seq<nat>, gaps: seq<string>)
    requires Scratchcards.Layout(gaps, |vs|)
    ensures Replace(Scratchcards.Numbers(vs, gaps), " ", "") == Digits(vs)
    decreases |vs|
  {
    assert Scratchcards.Spaces(gaps[0]);
    ReplaceAllSpaces(gaps[0]);
    if vs == [] {
      assert Scratchcards.Numbers(vs, gaps) == gaps[0];
    } else {
      var d := Decimal(vs[0]);
      var ds := Scratchcards.Decimals(vs);
      assert ds[1..] == Scratchcards.Decimals(vs[1..]);
      var rest := Scratchcards.Numbers(vs[1..], gaps[1..]);
      assert Scratchcards.Numbers(vs, gaps) == gaps[0] + d + rest;
      NumbersKerned(vs[1..], gaps[1..]);
      Scratchcards.DecimalLacks(vs[0], ' ');
      LacksChar(d, " ", ' ');
      ReplaceCharAppend(gaps[0] + d, rest, ' ');
      ReplaceCharAppend(gaps[0], d, ' ');
      assert Replace(d, " ", "") == d;
      assert Replace(gaps[0] + d, " ", "") == d;
      assert Digits(vs) == d + Digits(vs[1..]);
    }
  }

  /** Read as one unsigned number, the digits of a non-empty line give the kerned value, when it fits. */
  lemma ParseKerned(vs: seq<nat>, max: nat)
    requires vs != [] && Kerned(vs) <= max
    ensures ParseUnsigned(Digits(vs), max) == Some(Kerned(vs))
  {
    var s := Digits(vs);
    assert IsDigit(s[0]);
    ParseUnsignedSpec(s, max);
  }
}
