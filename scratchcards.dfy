/**
 * Scratchcards, the day 4 puzzle: the definitions the solvers are proved
 * against.  A card has a list of winning numbers and a list of numbers
 * drawn.  Its matches are the numbers on both lists.  It is worth one point
 * for its first match, doubled for every further one.  A card with m
 * matches wins one copy of each of the next m cards of the table (none past
 * its end), and every copy of a card wins the same again.
 */
module Scratchcards {
  import opened Text

  /** The values present on both lists. */
  function Common<T>(a: seq<T>, b: seq<T>): set<T> {
    set x | x in a && x in b
  }

  /** The number of distinct values on both lists. */
  function Matches<T(==)>(win: seq<T>, got: seq<T>): nat {
    |Common(win, got)|
  }

  /** The drawn numbers that are winning ones, every occurrence counted. */
  function Hits<T(==)>(win: seq<T>, got: seq<T>): nat {
    if got == [] then 0
    else Hits(win, got[..|got| - 1]) + (if got[|got| - 1] in win then 1 else 0)
  }

  predicate Distinct<T(==)>(s: seq<T>) {
    forall i, j :: 0 <= i < j < |s| ==> s[i] != s[j]
  }

  function Pow2(n: nat): (r: nat)
    ensures r >= 1
  {
    if n == 0 then 1 else 2 * Pow2(n - 1)
  }

  /** The worth of a card with m matches. */
  function Points(m: nat): nat {
    if m == 0 then 0 else Pow2(m - 1)
  }

  /** The first match is worth one point and every further one doubles the worth. */
  lemma PointsStep(m: nat)
    ensures Points(m + 1) == if m == 0 then 1 else 2 * Points(m)
  {
  }

  lemma {:induction false} Pow2Monotone(a: nat, b: nat)
    requires a <= b
    ensures Pow2(a) <= Pow2(b)
    decreases b
  {
    if a < b {
      Pow2Monotone(a, b - 1);
    }
  }

  /** No more distinct matches than distinct winning numbers, so no more than winning numbers. */
  lemma {:induction false} MatchesBound<T>(win: seq<T>, got: seq<T>)
    ensures Matches(win, got) <= |win|
  {
    CommonWithin(win, got);
    DistinctBound(win);
    SubsetCard(Common(win, got), set x | x in win);
  }

  lemma CommonWithin<T>(win: seq<T>, got: seq<T>)
    ensures Common(win, got) <= set x | x in win
  {
  }

  lemma SubsetCard<T>(a: set<T>, b: set<T>)
    requires a <= b
    ensures |a| <= |b|
  {
    assert b == a + (b - a);
  }

  /** A list has no more distinct values than elements. */
  lemma {:induction false} DistinctBound<T>(s: seq<T>)
    ensures |set x | x in s| <= |s|
  {
    if s != [] {
      var t := s[..|s| - 1];
      DistinctBound(t);
      assert (set x | x in s) == (set x | x in t) + {s[|s| - 1]} by {
        assert s == t + [s[|s| - 1]];
      }
    }
  }

  /** A list without repeats has as many distinct values as elements. */
  lemma {:induction false} DistinctCard<T>(s: seq<T>)
    requires Distinct(s)
    ensures |set x | x in s| == |s|
  {
    if s != [] {
      var t := s[..|s| - 1];
      var x := s[|s| - 1];
      assert Distinct(t);
      DistinctCard(t);
      assert x !in t;
      assert (set y | y in s) == (set y | y in t) + {x} by {
        assert s == t + [x];
      }
    }
  }

  /** A list without repeats of exactly the common values is as long as there are matches. */
  lemma DistinctMatches<T>(r: seq<T>, win: seq<T>, got: seq<T>)
    requires Distinct(r) && forall x :: x in r <==> x in win && x in got
    ensures |r| == Matches(win, got)
  {
    DistinctCard(r);
    assert (set x | x in r) == Common(win, got);
  }

  /**
   * Without a repeated drawn number, counting every occurrence and counting
   * the distinct values agree.
   */
  lemma {:induction false} HitsDistinct<T>(win: seq<T>, got: seq<T>)
    requires Distinct(got)
    ensures Hits(win, got) == Matches(win, got)
  {
    if got == [] {
      assert Common(win, got) == {};
    } else {
      var t := got[..|got| - 1];
      var x := got[|got| - 1];
      assert Distinct(t);
      HitsDistinct(win, t);
      assert got == t + [x];
      assert x !in t;
      if x in win {
        assert Common(win, got) == Common(win, t) + {x};
      } else {
        assert Common(win, got) == Common(win, t);
      }
    }
  }

  /**
   * The instances of card k: its own c0[k] (one for the original), and the
   * copies won by the earlier cards whose run of won cards reaches it.
   * ms[j] is the number of matches of card j.
   */
  function Instances(c0: seq<nat>, ms: seq<nat>, k: nat): nat
    requires |c0| == |ms| && k < |ms|
    decreases k, 1
  {
    c0[k] + Inflow(c0, ms, k, k)
  }

  /** The copies of card k won by cards 0 .. j - 1. */
  function Inflow(c0: seq<nat>, ms: seq<nat>, k: nat, j: nat): nat
    requires |c0| == |ms| && j <= k < |ms|
    decreases j, 0
  {
    if j == 0 then 0
    else Inflow(c0, ms, k, j - 1) + (if k <= j - 1 + ms[j - 1] then Instances(c0, ms, j - 1) else 0)
  }

  /** Card p adds its instances to the inflow of a later card k exactly when k is in its run. */
  lemma InflowNext(c0: seq<nat>, ms: seq<nat>, k: nat, p: nat)
    requires |c0| == |ms| && p < k < |ms|
    ensures Inflow(c0, ms, k, p + 1) == Inflow(c0, ms, k, p) + (if k < p + 1 + ms[p] then Instances(c0, ms, p) else 0)
  {
  }

  /** Python's `min` and Rust's `min` on two counts. */
  function Min(a: nat, b: nat): nat {
    if a < b then a else b
  }

  /** Every card is held at least as many times as it was dealt. */
  lemma InstancesAtLeast(c0: seq<nat>, ms: seq<nat>, k: nat)
    requires |c0| == |ms| && k < |ms|
    ensures Instances(c0, ms, k) >= c0[k]
  {
  }

  /** The first card wins nothing from the others. */
  lemma FirstInstances(c0: seq<nat>, ms: seq<nat>)
    requires |c0| == |ms| > 0
    ensures Instances(c0, ms, 0) == c0[0]
  {
  }

  /** The cards of the table once every card is dealt once. */
  function Ones(n: nat): (r: seq<nat>)
    ensures |r| == n && forall k :: 0 <= k < n ==> r[k] == 1
  {
    seq(n, k => 1)
  }

  /** The sum of the instances of cards 0 .. n - 1. */
  function TotalInstances(c0: seq<nat>, ms: seq<nat>, n: nat): nat
    requires |c0| == |ms| && n <= |ms|
  {
    if n == 0 then 0 else TotalInstances(c0, ms, n - 1) + Instances(c0, ms, n - 1)
  }

  /** The sum of s[0 .. n - 1]. */
  function Sum(s: seq<nat>, n: nat): nat
    requires n <= |s|
  {
    if n == 0 then 0 else Sum(s, n - 1) + s[n - 1]
  }

  /** With every card dealt once, the table holds at least one instance of each card. */
  lemma {:induction false} TotalAtLeast(ms: seq<nat>, n: nat)
    requires n <= |ms|
    ensures TotalInstances(Ones(|ms|), ms, n) >= n
  {
    if n > 0 {
      TotalAtLeast(ms, n - 1);
      InstancesAtLeast(Ones(|ms|), ms, n - 1);
    }
  }
  /** A table whose card k holds Instances(c0, ms, k) sums to the total of the instances. */
  lemma {:induction false} SumOfInstances(s: seq<nat>, c0: seq<nat>, ms: seq<nat>, n: nat)
    requires |c0| == |ms| && n <= |ms| && n <= |s|
    requires forall k :: 0 <= k < n ==> s[k] == Instances(c0, ms, k)
    ensures Sum(s, n) == TotalInstances(c0, ms, n)
  {
    if n > 0 {
      SumOfInstances(s, c0, ms, n - 1);
    }
  }

  /** The sum of the points of cards with ms[k] matches. */
  function PointsSum(ms: seq<nat>): nat {
    if ms == [] then 0 else PointsSum(ms[..|ms| - 1]) + Points(ms[|ms| - 1])
  }

  /** The decimal texts of the values. */
  function Decimals(vs: seq<nat>): (r: seq<string>)
    ensures |r| == |vs| && forall k :: 0 <= k < |vs| ==> r[k] == Decimal(vs[k])
  {
    seq(|vs|, k requires 0 <= k < |vs| => Decimal(vs[k]))
  }

  predicate Spaces(s: string) {
    forall i :: 0 <= i < |s| ==> s[i] == ' '
  }

  /** Runs of spaces around n numbers, at least one space between two of them. */
  predicate Layout(gaps: seq<string>, n: nat) {
    && |gaps| == n + 1
    && (forall k :: 0 <= k < |gaps| ==> Spaces(gaps[k]))
    && (forall k :: 0 < k < n ==> |gaps[k]| > 0)
  }

  /** A card line as the puzzle writes it: the padding after "Card", the id, and both lists with their spacing. */
  datatype CardText = CardText(pad: string, id: nat, win: seq<nat>, winGaps: seq<string>, got: seq<nat>, gotGaps: seq<string>)

  predicate WellLaid(t: CardText) {
    |t.pad| > 0 && Spaces(t.pad) && Layout(t.winGaps, |t.win|) && Layout(t.gotGaps, |t.got|)
  }

  /** The numbers with their spacing. */
  function Numbers(vs: seq<nat>, gaps: seq<string>): string
    requires |gaps| == |vs| + 1
  {
    Spread(Decimals(vs), gaps)
  }

  /** The text before ':'. */
  function CardHead(t: CardText): string {
    "Card" + t.pad + Decimal(t.id)
  }

  /** The text after ':'. */
  function CardBody(t: CardText): string
    requires WellLaid(t)
  {
    Numbers(t.win, t.winGaps) + "|" + Numbers(t.got, t.gotGaps)
  }

  function CardLine(t: CardText): string
    requires WellLaid(t)
  {
    CardHead(t) + ":" + CardBody(t)
  }

  predicate AllWellLaid(ts: seq<CardText>) {
    forall k :: 0 <= k < |ts| ==> WellLaid(ts[k])
  }

  function CardLines(ts: seq<CardText>): (r: seq<string>)
    requires AllWellLaid(ts)
    ensures |r| == |ts| && forall k :: 0 <= k < |ts| ==> r[k] == CardLine(ts[k])
  {
    seq(|ts|, k requires 0 <= k < |ts| => CardLine(ts[k]))
  }

  /** The table of cards, one per line, without a newline after the last one. */
  function TableText(ts: seq<CardText>): string
    requires AllWellLaid(ts)
  {
    Join(CardLines(ts), "\n")
  }

  /** The matches of the cards of the table, in order. */
  function TableMatches(ts: seq<CardText>): (r: seq<nat>)
    ensures |r| == |ts| && forall k :: 0 <= k < |ts| ==> r[k] == Matches(ts[k].win, ts[k].got)
  {
    seq(|ts|, k requires 0 <= k < |ts| => Matches(ts[k].win, ts[k].got))
  }

  /** The cards carry the ids 1, 2, ... in table order, as in the puzzle. */
  predicate Numbered(ts: seq<CardText>) {
    forall k :: 0 <= k < |ts| ==> ts[k].id == k + 1
  }

  /** A char that is no digit and no space is in no spaced-out list of numbers. */
  lemma NumbersLack(vs: seq<nat>, gaps: seq<string>, c: char)
    requires |gaps| == |vs| + 1 && !IsDigit(c) && c != ' '
    requires forall k :: 0 <= k < |gaps| ==> Spaces(gaps[k])
    ensures c !in Numbers(vs, gaps)
  {
    var words := Decimals(vs);
    forall k | 0 <= k < |words| ensures c !in words[k] {
      DecimalLacks(vs[k], c);
    }
    SpreadLacks(words, gaps, c);
  }

  lemma DecimalLacks(n: nat, c: char)
    requires !IsDigit(c)
    ensures c !in Decimal(n)
  {
  }

  /** The body of a card line holds no ':', no newline and no 'C'; its '|' is the bar. */
  lemma BodyLacks(t: CardText, c: char)
    requires WellLaid(t) && !IsDigit(c) && c != ' ' && c != '|'
    ensures c !in CardBody(t)
  {
    NumbersLack(t.win, t.winGaps, c);
    NumbersLack(t.got, t.gotGaps, c);
  }

  /** The head of a card line holds no ':' and no newline. */
  lemma HeadLacks(t: CardText, c: char)
    requires WellLaid(t) && !IsDigit(c) && c != ' ' && c !in "Card"
    ensures c !in CardHead(t)
  {
    DecimalLacks(t.id, c);
    assert c !in t.pad;
  }

  /** The lists of numbers split back on whitespace into the numbers' texts. */
  lemma NumbersWords(vs: seq<nat>, gaps: seq<string>)
    requires Layout(gaps, |vs|)
    ensures SplitWhitespace(Numbers(vs, gaps)) == Decimals(vs)
  {
    var words := Decimals(vs);
    forall k | 0 <= k < |words| ensures IsWord(words[k]) {
      DecimalWord(vs[k]);
    }
    forall k | 0 <= k < |gaps| ensures Blank(gaps[k]) {
      assert Spaces(gaps[k]);
    }
    SplitWhitespaceSpread(words, gaps);
  }

  lemma DecimalWord(n: nat)
    ensures IsWord(Decimal(n))
  {
    var d := Decimal(n);
    assert forall i :: 0 <= i < |d| ==> IsDigit(d[i]) && !IsWhitespace(d[i]);
  }

  lemma DecimalTrim(n: nat)
    ensures Trim(Decimal(n)) == Decimal(n)
  {
    DecimalWord(n);
  }

  /** A card line's segments around ':' are its head and its body. */
  lemma LineSegments(t: CardText)
    requires WellLaid(t)
    ensures Split(CardLine(t), ':') == [CardHead(t), CardBody(t)]
  {
    var h, b := CardHead(t), CardBody(t);
    HeadLacks(t, ':');
    BodyLacks(t, ':');
    assert [h, b][1..] == [b];
    assert Join([h, b], ":") == CardLine(t);
    JoinSplit([h, b], ':');
  }

  /** The body has no "Card" in it, and its pieces around '|' are the two lists. */
  lemma BodyPieces(t: CardText)
    requires WellLaid(t)
    ensures !Contains(CardBody(t), "Card")
    ensures Split(CardBody(t), '|') == [Numbers(t.win, t.winGaps), Numbers(t.got, t.gotGaps)]
  {
    var b := CardBody(t);
    BodyLacks(t, 'C');
    LacksChar(b, "Card", 'C');
    var w, g := Numbers(t.win, t.winGaps), Numbers(t.got, t.gotGaps);
    NumbersLack(t.win, t.winGaps, '|');
    NumbersLack(t.got, t.gotGaps, '|');
    assert [w, g][1..] == [g];
    assert Join([w, g], "|") == b;
    JoinSplit([w, g], '|');
  }
}
