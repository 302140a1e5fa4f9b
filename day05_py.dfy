/**
 * What 05/prog_1.py and py/05/prog_2.py have in common, line for line:
 * `raw_data_input_to_data_input`'s scan of the seven map blocks and the
 * sorted insertion of `RicoMappingVector.process_a_mapping_rule`.  A map
 * block is scanned from `offset` on: a blank line ends it (the next block
 * starts after it), a line holding the map's header creates the map's key
 * with no rules, any other line must be three integers and is appended
 * to the map's rules.  A rule line before the header raises a KeyError,
 * a line that is not three integers a ValueError; both are None here.
 */
module Day05Py {
  import opened Wrappers
  import opened Text
  import opened Almanac
  import Day04Py
  import Day06Py1

  /** Python's `range(start, stop)`. */
  datatype PyRange = PyRange(start: int, stop: int)

  /** `len(range)`. */
  function Len(r: PyRange): nat {
    if r.stop <= r.start then 0 else r.stop - r.start
  }

  /** A vector dict: the `src` range and the `dst` range of one rule. */
  datatype Vector = Vector(src: PyRange, dst: PyRange)

  /** The vector dict of a rule: `range(SS, SS + R)` to `range(SD, SD + R)`. */
  function VectorOf(r: Rule): (v: Vector)
    ensures Len(v.src) == Len(v.dst)
  {
    Vector(PyRange(r.src, r.src + r.len), PyRange(r.dst, r.dst + r.len))
  }

  /** The rule a vector stands for. */
  function RuleOfVector(v: Vector): Rule {
    Rule(v.dst.start, v.src.start, v.src.stop - v.src.start)
  }

  /** The rules the vectors stand for, in their order. */
  function RulesOf(vs: seq<Vector>): (r: seq<Rule>)
    ensures |r| == |vs| && forall k :: 0 <= k < |vs| ==> r[k] == RuleOfVector(vs[k])
  {
    seq(|vs|, k requires 0 <= k < |vs| => RuleOfVector(vs[k]))
  }

  /** `_mapp_names`: the key of each map and its header. */
  const Names: seq<(string, string)> := [
    ("seed_soil", "seed-to-soil map:"), ("soil_fertilizer", "soil-to-fertilizer map:"),
    ("fertilizer_water", "fertilizer-to-water map:"), ("water_light", "water-to-light map:"),
    ("light_temperature", "light-to-temperature map:"), ("temperature_humidity", "temperature-to-humidity map:"),
    ("humidity_location", "humidity-to-location map:")]

  /** The unpacking of a rule line: its integers "dst src range", None unless there are exactly three. */
  function RuleOf(line: string): Option<Rule> {
    match Day06Py1.Ints(Day04Py.Words(line))
    case None => None
    case Some(vs) => if |vs| == 3 then Some(Rule(vs[0], vs[1], vs[2])) else None
  }

  /** What the block scan of one map makes of a line: the end of the block, the map's header, or a rule (None where it is not three integers). */
  datatype LineKind = Blank | Header | RuleText(rule: Option<Rule>)

  /** The branches of the inner loop, in their order: `line == ""`, then `mapp_name[1] in line`, then the unpacking. */
  function KindOf(line: string, header: string): LineKind
    requires |header| > 0
  {
    if line == "" then Blank else if Contains(line, header) then Header else RuleText(RuleOf(line))
  }

  /** The kind of every line for the map with the given header. */
  function Kinds(lines: seq<string>, header: string): (r: seq<LineKind>)
    requires |header| > 0
    ensures |r| == |lines| && forall k :: 0 <= k < |lines| ==> r[k] == KindOf(lines[k], header)
  {
    seq(|lines|, k requires 0 <= k < |lines| => KindOf(lines[k], header))
  }

  /**
   * The inner loop of the block scan, from line i on, with the map's
   * entry so far (None while its key is absent): the entry at the end and
   * where the next block's scan starts, `offset` unchanged when no blank
   * line comes.  None where the loop raises: a rule that is not three
   * integers (ValueError) or a rule before the header (KeyError).
   */
  function Block(ks: seq<LineKind>, i: nat, entry: Option<seq<Rule>>, offset: nat): (r: Option<(Option<seq<Rule>>, nat)>)
    decreases |ks| - i
  {
    if i >= |ks| then Some((entry, offset))
    else match ks[i]
      case Blank => Some((entry, i + 1))
      case Header => Block(ks, i + 1, Some([]), offset)
      case RuleText(rule) =>
        if rule.None? || entry.None? then None else Block(ks, i + 1, Some(entry.value + [rule.value]), offset)
  }

  /** The outer loop over the first k maps: each map's entry (None when its key was never created) and the offset after them. */
  function MapsTo(lines: seq<string>, k: nat): (r: Option<(seq<Option<seq<Rule>>>, nat)>)
    requires k <= |Names|
    ensures r.Some? ==> |r.value.0| == k
  {
    if k == 0 then Some(([], 2))
    else match MapsTo(lines, k - 1)
      case None => None
      case Some(p) =>
        match Block(Kinds(lines, Names[k - 1].1), p.1, None, p.1)
        case None => None
        case Some(q) => Some((p.0 + [q.0], q.1))
  }

  /** The maps of `raw_data_input_to_data_input`, one entry per name; None where it raises. */
  function Maps(lines: seq<string>): (r: Option<seq<Option<seq<Rule>>>>)
    ensures r.Some? ==> |r.value| == |Names|
  {
    match MapsTo(lines, |Names|)
    case None => None
    case Some(p) => Some(p.0)
  }

  /** The rules of the maps whose key exists, in the order of the dict's keys, which is the order of the names. */
  function Present(ms: seq<Option<seq<Rule>>>): (r: seq<seq<Rule>>)
    ensures |r| <= |ms|
    ensures forall m :: m in r ==> Some(m) in ms
    decreases |ms|
  {
    if ms == [] then []
    else Present(ms[..|ms| - 1]) + (if ms[|ms| - 1].Some? then [ms[|ms| - 1].value] else [])
  }

  /** `range[k]`: negative k counts from the end; None on an IndexError. */
  function At(r: PyRange, k: int): (v: Option<int>)
    ensures v.Some? <==> -(Len(r) as int) <= k < Len(r)
  {
    if 0 <= k < Len(r) then Some(r.start + k)
    else if -(Len(r) as int) <= k < 0 then Some(r.start + Len(r) + k)
    else None
  }

  /** The branches of the inner loop's body on one line: the blank test, the header test, the unpacking. */
  method ReadBlockLine(line: string, header: string) returns (k: LineKind)
    requires |header| > 0
    ensures k == KindOf(line, header)
  {
    if line == "" {
      return Blank;
    } else if Contains(line, header) {
      return Header;
    }
    var rule := RuleOf(line);
    return RuleText(rule);
  }

  /**
   * One pass of the inner loop on line i, of the given kind: whether the
   * loop returns (with the scan's result) or goes on (with the entry after
   * the line).
   */
  method BlockLine(ghost ks: seq<LineKind>, i: nat, kind: LineKind, entry: Option<seq<Rule>>, offset: nat)
    returns (done: bool, r: Option<(Option<seq<Rule>>, nat)>, next: Option<seq<Rule>>)
    requires offset <= i < |ks| && ks[i] == kind
    ensures done ==> r == Block(ks, i, entry, offset)
    ensures !done ==> Block(ks, i + 1, next, offset) == Block(ks, i, entry, offset)
  {
    done, r, next := false, None, entry;
    match kind {
      case Blank =>
        done, r := true, Some((entry, offset + (i - offset) + 1));
      case Header =>
        next := Some([]);
      case RuleText(rule) =>
        if rule.None? || entry.None? {
          done := true;
        } else {
          next := Some(entry.value + [rule.value]);
        }
    }
  }

  /** The inner loop of the block scan: `for index_line, line in enumerate(raw_data_input[offset:])`. */
  method ScanBlock(lines: seq<string>, offset: nat, header: string) returns (r: Option<(Option<seq<Rule>>, nat)>)
    requires |header| > 0
    ensures r == Block(Kinds(lines, header), offset, None, offset)
  {
    ghost var ks := Kinds(lines, header);
    var entry: Option<seq<Rule>> := None;
    var i := offset;
    while i < |lines|
      invariant offset <= i
      invariant Block(ks, offset, None, offset) == Block(ks, i, entry, offset)
      decreases |lines| - i
    {
      var kind := ReadBlockLine(lines[i], header);
      var done;
      done, r, entry := BlockLine(ks, i, kind, entry, offset);
      if done {
        return;
      }
      i := i + 1;
    }
    return Some((entry, offset));
  }

  /** Rule lines, once the key exists, append their rules in order. */
  lemma {:induction false} BlockRules(ks: seq<LineKind>, i: nat, e0: seq<Rule>, rs: seq<Rule>, offset: nat)
    requires i + |rs| <= |ks|
    requires forall k :: 0 <= k < |rs| ==> ks[i + k] == RuleText(Some(rs[k]))
    ensures Block(ks, i, Some(e0), offset) == Block(ks, i + |rs|, Some(e0 + rs), offset)
    decreases |rs|
  {
    if rs != [] {
      assert ks[i + 0] == RuleText(Some(rs[0]));
      forall k | 0 <= k < |rs| - 1
        ensures ks[i + 1 + k] == RuleText(Some(rs[1..][k]))
      {
        assert ks[i + (k + 1)] == RuleText(Some(rs[k + 1]));
      }
      BlockRules(ks, i + 1, e0 + [rs[0]], rs[1..], offset);
      assert e0 + [rs[0]] + rs[1..] == e0 + rs;
    } else {
      assert e0 + rs == e0;
    }
  }

  /**
   * A block laid out as the puzzle lays it out (its header, its rule
   * lines, a blank line) gives its rules, and the next block's scan starts
   * after the blank line.
   */
  lemma BlockLaidOut(ks: seq<LineKind>, i: nat, rs: seq<Rule>, offset: nat)
    requires i + |rs| + 1 < |ks| && ks[i] == Header && ks[i + 1 + |rs|] == Blank
    requires forall k :: 0 <= k < |rs| ==> ks[i + 1 + k] == RuleText(Some(rs[k]))
    ensures Block(ks, i, None, offset) == Some((Some(rs), i + |rs| + 2))
  {
    BlockRules(ks, i + 1, [], rs, offset);
    assert [] + rs == rs;
  }

  /** A rule line before the map's header raises (KeyError), whatever follows. */
  lemma RuleBeforeHeader(ks: seq<LineKind>, i: nat, offset: nat)
    requires i < |ks| && ks[i].RuleText?
    ensures Block(ks, i, None, offset).None?
  {
  }

  /** Once a map raises, the scan of all maps raises. */
  lemma {:induction false} MapsNone(lines: seq<string>, k: nat, j: nat)
    requires k <= j <= |Names| && MapsTo(lines, k).None?
    ensures MapsTo(lines, j).None?
    decreases j - k
  {
    if k < j {
      MapsNone(lines, k, j - 1);
    }
  }

  /** The outer loop over `_mapp_names`, from offset 2. */
  method ReadMaps(lines: seq<string>) returns (r: Option<seq<Option<seq<Rule>>>>)
    ensures r == Maps(lines)
  {
    var maps: seq<Option<seq<Rule>>> := [];
    var offset := 2;
    for k := 0 to |Names|
      invariant MapsTo(lines, k) == Some((maps, offset))
    {
      var block := ScanBlock(lines, offset, Names[k].1);
      if block.None? {
        MapsNone(lines, k + 1, |Names|);
        return None;
      }
      maps := maps + [block.value.0];
      offset := block.value.1;
    }
    return Some(maps);
  }

  // ---------------------------------------------------------------- sorted insertion

  /** The vectors are in ascending order of their source starts. */
  predicate Ascending(vs: seq<Vector>) {
    forall i, j :: 0 <= i < j < |vs| ==> vs[i].src.start <= vs[j].src.start
  }

  /** Where a vector starting at s goes: before the first vector whose start is not below s, at the end if none. */
  function Place(vs: seq<Vector>, s: int): (p: nat)
    ensures p <= |vs|
    ensures forall k :: 0 <= k < p ==> vs[k].src.start < s
    ensures p < |vs| ==> vs[p].src.start >= s
    decreases |vs|
  {
    if vs == [] || vs[0].src.start >= s then 0 else 1 + Place(vs[1..], s)
  }

  /** The vectors after `process_a_mapping_rule` placed v. */
  function Inserted(vs: seq<Vector>, v: Vector): (r: seq<Vector>)
    ensures |r| == |vs| + 1
  {
    var p := Place(vs, v.src.start);
    vs[..p] + [v] + vs[p..]
  }

  /** Placing a vector keeps the order. */
  lemma InsertedAscending(vs: seq<Vector>, v: Vector)
    requires Ascending(vs)
    ensures Ascending(Inserted(vs, v))
  {
    var p := Place(vs, v.src.start);
    var r := Inserted(vs, v);
    forall i, j | 0 <= i < j < |r| ensures r[i].src.start <= r[j].src.start {
      if j < p {
        assert r[i] == vs[i] && r[j] == vs[j];
      } else if j == p {
        assert r[j] == v && r[i] == vs[i];
      } else if i < p {
        assert r[i] == vs[i] && r[j] == vs[j - 1];
      } else if i == p {
        assert r[i] == v && r[j] == vs[j - 1];
      } else {
        assert r[i] == vs[i - 1] && r[j] == vs[j - 1];
      }
    }
  }

  /** Placing a vector adds it and loses none. */
  lemma InsertedMultiset(vs: seq<Vector>, v: Vector)
    ensures multiset(Inserted(vs, v)) == multiset(vs) + multiset{v}
  {
    var p := Place(vs, v.src.start);
    assert vs == vs[..p] + vs[p..];
  }

  /** The loop of `process_a_mapping_rule`; `index` is the method's return value, -1 for the first vector. */
  method InsertRule(vs: seq<Vector>, rule: Rule) returns (r: seq<Vector>, index: int)
    ensures r == Inserted(vs, VectorOf(rule))
    ensures vs == [] ==> index == -1
    ensures vs != [] ==> index == if Place(vs, rule.src) < |vs| then Place(vs, rule.src) else |vs| - 1
  {
    var v := VectorOf(rule);
    if |vs| == 0 {
      return [v], -1;
    }
    for i := 0 to |vs|
      invariant i <= |vs| - 1
      invariant forall k :: 0 <= k < i ==> vs[k].src.start < rule.src
    {
      if rule.src > vs[i].src.start {
        if i == |vs| - 1 {
          assert Place(vs, rule.src) == |vs| by { PlaceAfter(vs, rule.src, |vs|); }
          assert vs[..|vs|] == vs && vs[|vs|..] == [];
          return vs + [v], i;
        }
      } else {
        assert Place(vs, rule.src) == i by { PlaceAfter(vs, rule.src, i); }
        return vs[..i] + [v] + vs[i..], i;
      }
    }
    // Every pass that does not return leaves a later vector to look at, so
    // the insertion at the front after the loop is never reached.
    assert false;
  }

  /** The place is the first position whose vector does not start below s. */
  lemma PlaceAfter(vs: seq<Vector>, s: int, p: nat)
    requires p <= |vs| && (forall k :: 0 <= k < p ==> vs[k].src.start < s) && (p < |vs| ==> vs[p].src.start >= s)
    ensures Place(vs, s) == p
  {
  }

  /** The vectors after every rule was placed in turn, from none. */
  function Built(rules: seq<Rule>): (r: seq<Vector>)
    ensures |r| == |rules|
    decreases |rules|
  {
    if rules == [] then [] else Inserted(Built(rules[..|rules| - 1]), VectorOf(rules[|rules| - 1]))
  }

  /** The built vectors are ascending. */
  lemma {:induction false} BuiltAscending(rules: seq<Rule>)
    ensures Ascending(Built(rules))
    decreases |rules|
  {
    if rules != [] {
      BuiltAscending(rules[..|rules| - 1]);
      InsertedAscending(Built(rules[..|rules| - 1]), VectorOf(rules[|rules| - 1]));
    }
  }

  /** The built vectors stand for the rules, reordered. */
  lemma {:induction false} BuiltRules(rules: seq<Rule>)
    ensures multiset(RulesOf(Built(rules))) == multiset(rules)
    decreases |rules|
  {
    if rules != [] {
      var init := rules[..|rules| - 1];
      var last := rules[|rules| - 1];
      BuiltRules(init);
      InsertedRules(Built(init), last);
      assert rules == init + [last];
    }
  }

  /** Placing the vector of a rule adds the rule to the rules the vectors stand for. */
  lemma InsertedRules(vs: seq<Vector>, rule: Rule)
    ensures multiset(RulesOf(Inserted(vs, VectorOf(rule)))) == multiset(RulesOf(vs)) + multiset{rule}
  {
    var p := Place(vs, rule.src);
    var a, b := vs[..p], vs[p..];
    RulesConcat(a + [VectorOf(rule)], b);
    RulesConcat(a, [VectorOf(rule)]);
    RulesConcat(a, b);
    assert a + b == vs;
    assert RulesOf([VectorOf(rule)]) == [rule];
  }

  /** The rules of two lists of vectors one after the other. */
  lemma RulesConcat(a: seq<Vector>, b: seq<Vector>)
    ensures RulesOf(a + b) == RulesOf(a) + RulesOf(b)
  {
  }

  /** The vectors dict of a map gives every number the image of the map: for consistent rules, the order they are sorted in does not matter. */
  lemma BuiltConvert(rules: seq<Rule>, x: int)
    requires Consistent(rules)
    ensures Convert(RulesOf(Built(rules)), x) == Convert(rules, x)
  {
    BuiltRules(rules);
    SameRules(rules, RulesOf(Built(rules)), x);
  }

  // ---------------------------------------------------------------- the answer

  /** What a script prints, or that it raised before printing. */
  datatype Outcome = Printed(result: Option<int>) | Raised

  /** The lowest of a list of numbers, None for an empty list. */
  function Lowest(xs: seq<int>): (r: Option<int>)
    ensures r.None? <==> xs == []
    ensures r.Some? ==> r.value in xs && forall k :: 0 <= k < |xs| ==> r.value <= xs[k]
  {
    if xs == [] then None else Some(Least(xs))
  }

  /** The lowest of a list is the only member no member is below. */
  lemma LowestUnique(xs: seq<int>, r: Option<int>)
    requires r.None? <==> xs == []
    requires r.Some? ==> r.value in xs && forall k :: 0 <= k < |xs| ==> r.value <= xs[k]
    ensures r == Lowest(xs)
  {
    if r.Some? {
      var m := Lowest(xs).value;
      var i :| 0 <= i < |xs| && xs[i] == m;
      var j :| 0 <= j < |xs| && xs[j] == r.value;
    }
  }

  /** One number more: the lowest so far, unless the new number is below it. */
  lemma LowestSnoc(xs: seq<int>, x: int)
    ensures Lowest(xs + [x]) == if Lowest(xs).None? || Lowest(xs).value > x then Some(x) else Lowest(xs)
  {
    var ys := xs + [x];
    var r := if Lowest(xs).None? || Lowest(xs).value > x then Some(x) else Lowest(xs);
    assert ys[|xs|] == x;
    forall k | 0 <= k < |ys| ensures r.value <= ys[k] {
      if k < |xs| {
        assert ys[k] == xs[k];
      }
    }
    LowestUnique(ys, r);
  }
}
