/**
 * The almanac of day 5.  A map is a list of rules "dst src len": the rule
 * sends src + k to dst + k for 0 <= k < len, and a number no rule covers
 * stays where it is.  A seed's location is what the seven maps, applied in
 * turn, make of it, and the answer of part 1 is the lowest location.
 */
module Almanac {

  /** One line of a map: destination start, source start, length. */
  datatype Rule = Rule(dst: int, src: int, len: int)

  /** The rule covers x: x lies in its half-open source interval. */
  predicate Covers(r: Rule, x: int) { r.src <= x < r.src + r.len }

  /** Where a rule sends a number: the same offset from the destination start. */
  function Image(r: Rule, x: int): int { r.dst + (x - r.src) }

  /** What a map makes of x: the image under its first rule covering x, x itself if none does. */
  function Convert(rules: seq<Rule>, x: int): int
    decreases |rules|
  {
    if rules == [] then x
    else if Covers(rules[0], x) then Image(rules[0], x)
    else Convert(rules[1..], x)
  }

  /** A number no rule covers is left where it is. */
  lemma {:induction false} ConvertUncovered(rules: seq<Rule>, x: int)
    requires forall k :: 0 <= k < |rules| ==> !Covers(rules[k], x)
    ensures Convert(rules, x) == x
    decreases |rules|
  {
    if rules != [] {
      ConvertUncovered(rules[1..], x);
    }
  }

  /** A number goes where the first rule covering it sends it. */
  lemma {:induction false} ConvertFirst(rules: seq<Rule>, x: int, k: nat)
    requires k < |rules| && Covers(rules[k], x)
    requires forall j :: 0 <= j < k ==> !Covers(rules[j], x)
    ensures Convert(rules, x) == Image(rules[k], x)
    decreases k
  {
    if k > 0 {
      assert !Covers(rules[0], x);
      ConvertFirst(rules[1..], x, k - 1);
    }
  }

  /**
   * The rules that cover a number all send it to the same place.  This
   * speaks of the rules as members, so it holds of any reordering.
   */
  ghost predicate Consistent(rules: seq<Rule>) {
    forall a, b, x :: a in rules && b in rules && Covers(a, x) && Covers(b, x) ==> Image(a, x) == Image(b, x)
  }

  /** The source intervals of two different rules do not overlap, as the puzzle's maps promise. */
  ghost predicate Disjoint(rules: seq<Rule>) {
    forall i, j, x :: 0 <= i < |rules| && 0 <= j < |rules| && i != j && Covers(rules[i], x) ==> !Covers(rules[j], x)
  }

  /** Rules that do not overlap never disagree. */
  lemma DisjointConsistent(rules: seq<Rule>)
    requires Disjoint(rules)
    ensures Consistent(rules)
  {
    forall a, b, x | a in rules && b in rules && Covers(a, x) && Covers(b, x)
      ensures Image(a, x) == Image(b, x)
    {
      var i :| 0 <= i < |rules| && rules[i] == a;
      var j :| 0 <= j < |rules| && rules[j] == b;
      assert i == j;
    }
  }

  /** Under consistent rules, every rule covering x tells where x goes, whatever the order of the rules. */
  lemma {:induction false} ConvertMember(rules: seq<Rule>, x: int, r: Rule)
    requires Consistent(rules) && r in rules && Covers(r, x)
    ensures Convert(rules, x) == Image(r, x)
    decreases |rules|
  {
    if !Covers(rules[0], x) {
      assert r in rules[1..] by {
        assert rules == [rules[0]] + rules[1..];
      }
      ConvertMember(rules[1..], x, r);
    }
  }

  /** Two orderings of the same consistent rules make the same map. */
  lemma SameRules(a: seq<Rule>, b: seq<Rule>, x: int)
    requires Consistent(a) && multiset(a) == multiset(b)
    ensures Convert(a, x) == Convert(b, x)
  {
    if r :| r in a && Covers(r, x) {
      assert r in multiset(b);
      ConvertMember(a, x, r);
      assert Consistent(b) by {
        forall u, v, y | u in b && v in b && Covers(u, y) && Covers(v, y)
          ensures Image(u, y) == Image(v, y)
        {
          assert u in multiset(a) && v in multiset(a);
        }
      }
      ConvertMember(b, x, r);
    } else {
      forall k | 0 <= k < |b|
        ensures !Covers(b[k], x)
      {
        assert b[k] in multiset(a);
      }
      ConvertUncovered(b, x);
      assert forall k :: 0 <= k < |a| ==> !Covers(a[k], x);
      ConvertUncovered(a, x);
    }
  }

  /** What the maps, applied in turn, make of x. */
  function Through(maps: seq<seq<Rule>>, x: int): int
    decreases |maps|
  {
    if maps == [] then x else Through(maps[1..], Convert(maps[0], x))
  }

  /** One map more at the end is applied last. */
  lemma {:induction false} ThroughLast(maps: seq<seq<Rule>>, m: seq<Rule>, x: int)
    ensures Through(maps + [m], x) == Convert(m, Through(maps, x))
    decreases |maps|
  {
    if maps == [] {
      assert [] + [m] == [m];
    } else {
      assert (maps + [m])[1..] == maps[1..] + [m];
      ThroughLast(maps[1..], m, Convert(maps[0], x));
    }
  }

  /** The least of a non-empty list of numbers. */
  function Least(xs: seq<int>): (m: int)
    requires |xs| > 0
    ensures m in xs && forall k :: 0 <= k < |xs| ==> m <= xs[k]
    decreases |xs|
  {
    if |xs| == 1 then xs[0]
    else
      var rest := Least(xs[1..]);
      assert forall k :: 1 <= k < |xs| ==> xs[k] == xs[1..][k - 1];
      if xs[0] <= rest then xs[0] else rest
  }

  /** The locations of the seeds: what the maps make of each. */
  function Locations(maps: seq<seq<Rule>>, seeds: seq<int>): (r: seq<int>)
    ensures |r| == |seeds|
  {
    seq(|seeds|, k requires 0 <= k < |seeds| => Through(maps, seeds[k]))
  }
}
