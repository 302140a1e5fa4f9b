/**
 * rust/d05_1: the almanac read line by line into entries of u64 ranges,
 * then every seed walked along the chain seed, soil, ..., location, and
 * the lowest location kept together with the seed that reached it.
 */
module Day05Rust1 {
  import opened Wrappers
  import opened Text
  import Scratchcards
  import Almanac

  /** The largest `u64`. */
  const U64Max: nat := 0xFFFF_FFFF_FFFF_FFFF

  /** `AlmanacDescr`: what the numbers of a map's side describe. */
  datatype Descr = Unknown | Seed | Soil | Fertilizer | Water | Light | Temperature | Humidity | Location | LastTable

  /** An `AlmanacRange`: `get_dst` tests both bounds inclusively. */
  datatype Range = Range(start: nat, end: nat)

  /** An `AlmanacEntry`: one map, its source ranges and their destination ranges side by side. */
  datatype Entry = Entry(descSrc: Descr, descDst: Descr, rangesSrc: seq<Range>, rangesDst: seq<Range>)

  /** Every source range has its destination range. */
  predicate Paired(e: Entry) { |e.rangesSrc| == |e.rangesDst| }

  predicate AllPaired(es: seq<Entry>) { forall k :: 0 <= k < |es| ==> Paired(es[k]) }

  // ---------------------------------------------------------------- get_dst

  /** `start <= src && src <= end`. */
  predicate Hits(r: Range, x: nat) { r.start <= x <= r.end }

  /** From range i on: the first source range holding x shifts it onto its destination range; x itself if none does. */
  function DstFrom(e: Entry, i: nat, x: nat): nat
    requires Paired(e) && i <= |e.rangesSrc|
    decreases |e.rangesSrc| - i
  {
    if i == |e.rangesSrc| then x
    else if Hits(e.rangesSrc[i], x) then e.rangesDst[i].start + x - e.rangesSrc[i].start
    else DstFrom(e, i + 1, x)
  }

  /** What `get_dst` returns for x. */
  function Dst(e: Entry, x: nat): nat
    requires Paired(e)
  {
    DstFrom(e, 0, x)
  }

  /** `AlmanacEntry::get_dst`: a counted scan of the source ranges. */
  method GetDst(e: Entry, x: nat) returns (y: nat)
    requires Paired(e)
    ensures y == Dst(e, x)
  {
    var i := 0;
    while i < |e.rangesSrc|
      invariant i <= |e.rangesSrc|
      invariant DstFrom(e, i, x) == Dst(e, x)
    {
      var r := e.rangesSrc[i];
      if r.start <= x && x <= r.end {
        return e.rangesDst[i].start + x - r.start;
      }
      i := i + 1;
    }
    return x;
  }

  /** The rules an entry was read from: the parser sets end = start + length. */
  function RulesOf(e: Entry): (rs: seq<Almanac.Rule>)
    requires Paired(e)
    ensures |rs| == |e.rangesSrc|
  {
    seq(|e.rangesSrc|, k requires 0 <= k < |e.rangesSrc| =>
      Almanac.Rule(e.rangesDst[k].start, e.rangesSrc[k].start, e.rangesSrc[k].end - e.rangesSrc[k].start))
  }

  /** The rules with one more number each: the source interval runs up to end itself. */
  function Widened(e: Entry): (rs: seq<Almanac.Rule>)
    requires Paired(e)
    ensures |rs| == |e.rangesSrc|
  {
    seq(|e.rangesSrc|, k requires 0 <= k < |e.rangesSrc| =>
      Almanac.Rule(e.rangesDst[k].start, e.rangesSrc[k].start, e.rangesSrc[k].end - e.rangesSrc[k].start + 1))
  }

  /** `get_dst` is the almanac's map for rules one longer than read: the inclusive test counts the end as covered. */
  lemma {:induction false} DstWidened(e: Entry, x: nat, i: nat)
    requires Paired(e) && i <= |e.rangesSrc|
    ensures DstFrom(e, i, x) == Almanac.Convert(Widened(e)[i..], x)
    decreases |e.rangesSrc| - i
  {
    var ws := Widened(e)[i..];
    if i < |e.rangesSrc| {
      assert ws[0] == Widened(e)[i] && ws[1..] == Widened(e)[i + 1..];
      assert Almanac.Covers(ws[0], x) <==> Hits(e.rangesSrc[i], x);
      DstWidened(e, x, i + 1);
    }
  }

  /** The same test with the end left out, as the almanac means it. */
  function DstIntendedFrom(e: Entry, i: nat, x: nat): nat
    requires Paired(e) && i <= |e.rangesSrc|
    decreases |e.rangesSrc| - i
  {
    if i == |e.rangesSrc| then x
    else if e.rangesSrc[i].start <= x < e.rangesSrc[i].end then e.rangesDst[i].start + x - e.rangesSrc[i].start
    else DstIntendedFrom(e, i + 1, x)
  }

  /** With the end excluded, an entry converts numbers exactly as the rules it was read from. */
  lemma {:induction false} DstIntendedRules(e: Entry, x: nat, i: nat)
    requires Paired(e) && i <= |e.rangesSrc|
    ensures DstIntendedFrom(e, i, x) == Almanac.Convert(RulesOf(e)[i..], x)
    decreases |e.rangesSrc| - i
  {
    var rs := RulesOf(e)[i..];
    if i < |e.rangesSrc| {
      assert rs[0] == RulesOf(e)[i] && rs[1..] == RulesOf(e)[i + 1..];
      DstIntendedRules(e, x, i + 1);
    }
  }

  /** The entry of the rule "50 98 2": seed 100, which no rule covers, is sent to 52. */
  lemma EndIncluded()
    ensures var e := Entry(Seed, Soil, [Range(98, 98 + 2)], [Range(50, 50 + 2)]);
      && RulesOf(e) == [Almanac.Rule(50, 98, 2)]
      && Dst(e, 100) == 52
      && Almanac.Convert(RulesOf(e), 100) == 100
  {
    var e := Entry(Seed, Soil, [Range(98, 98 + 2)], [Range(50, 50 + 2)]);
    assert RulesOf(e)[0] == Almanac.Rule(50, 98, 2);
    assert DstFrom(e, 0, 100) == 52;
  }

  // ---------------------------------------------------------------- the chain

  /** The steps of the chain left from d before LastTable. */
  function Rank(d: Descr): (n: nat)
    ensures n <= 8 && (n == 0 <==> d == LastTable || d == Unknown)
  {
    match d
    case Unknown => 0
    case Seed => 8
    case Soil => 7
    case Fertilizer => 6
    case Water => 5
    case Light => 4
    case Temperature => 3
    case Humidity => 2
    case Location => 1
    case LastTable => 0
  }

  /** `get_next_alma_desc`: one step down the chain; LastTable and Unknown stay where they are. */
  function Next(d: Descr): (n: Descr)
    ensures d == LastTable || d == Unknown ==> n == d
    ensures d != LastTable && d != Unknown ==> n != Unknown && Rank(n) + 1 == Rank(d)
  {
    match d
    case Seed => Soil
    case Soil => Fertilizer
    case Fertilizer => Water
    case Water => Light
    case Light => Temperature
    case Temperature => Humidity
    case Humidity => Location
    case Location => LastTable
    case LastTable => LastTable
    case Unknown => Unknown
  }

  /** The sources looked up in turn from Seed: after Location the chain reaches LastTable. */
  const Chain: seq<Descr> := [Seed, Soil, Fertilizer, Water, Light, Temperature, Humidity, Location]

  /** The chain steps from each source to the next, and from the last to LastTable. */
  lemma ChainSteps(k: nat)
    requires k < 8
    ensures Next(Chain[k]) == if k < 7 then Chain[k + 1] else LastTable
    ensures Chain[k] != Unknown && Chain[k] != LastTable && Rank(Chain[k]) == 8 - k
  {
  }

  // ---------------------------------------------------------------- get_alma_entry_index_from_desc

  /** The first entry whose source is d, None if there is none. */
  function FirstWith(es: seq<Entry>, d: Descr): (r: Option<nat>)
    ensures r.Some? ==> r.value < |es| && es[r.value].descSrc == d
    ensures r.Some? ==> forall j :: 0 <= j < r.value ==> es[j].descSrc != d
    ensures r.None? ==> forall j :: 0 <= j < |es| ==> es[j].descSrc != d
    decreases |es|
  {
    if es == [] then None
    else if es[0].descSrc == d then Some(0)
    else match FirstWith(es[1..], d)
      case None => None
      case Some(k) => Some(k + 1)
  }

  /** `get_alma_entry_index_from_desc`: a counted scan for the source. */
  method GetEntryIndex(es: seq<Entry>, d: Descr) returns (r: Option<nat>)
    ensures r == FirstWith(es, d)
  {
    var i := 0;
    while i < |es|
      invariant i <= |es| && forall j :: 0 <= j < i ==> es[j].descSrc != d
    {
      if es[i].descSrc == d {
        return Some(i);
      }
      i := i + 1;
    }
    return None;
  }

  // ---------------------------------------------------------------- the while loop of main

  /** The id left when the walk from source d ends: at LastTable, or at the first source without an entry. */
  function Walk(es: seq<Entry>, d: Descr, x: nat): nat
    requires AllPaired(es) && d != Unknown
    decreases Rank(d)
  {
    if d == LastTable then x
    else match FirstWith(es, d)
      case None => x
      case Some(i) => Walk(es, Next(d), Dst(es[i], x))
  }

  /** The rounds the walk from d takes. */
  function Rounds(es: seq<Entry>, d: Descr, x: nat): (n: nat)
    requires AllPaired(es) && d != Unknown
    ensures n <= Rank(d)
    decreases Rank(d)
  {
    if d == LastTable then 0
    else match FirstWith(es, d)
      case None => 0
      case Some(i) => 1 + Rounds(es, Next(d), Dst(es[i], x))
  }

  /** From Seed the loop runs at most eight rounds. */
  lemma WalkBounded(es: seq<Entry>, x: nat)
    requires AllPaired(es)
    ensures Rounds(es, Seed, x) <= 8
  {
  }

  /** The maps the walk from Chain[k] on applies, each with its inclusive ends: those found before the first missing source. */
  function WalkedMaps(es: seq<Entry>, k: nat): seq<seq<Almanac.Rule>>
    requires AllPaired(es) && k <= 8
    decreases 8 - k
  {
    if k == 8 then []
    else match FirstWith(es, Chain[k])
      case None => []
      case Some(i) => [Widened(es[i])] + WalkedMaps(es, k + 1)
  }

  /** The walk applies the entries found along the chain, in chain order, up to the first source without one. */
  lemma {:induction false} WalkThrough(es: seq<Entry>, k: nat, x: nat)
    requires AllPaired(es) && k <= 8
    ensures Walk(es, if k < 8 then Chain[k] else LastTable, x) == Almanac.Through(WalkedMaps(es, k), x)
    decreases 8 - k
  {
    if k < 8 {
      ChainSteps(k);
      match FirstWith(es, Chain[k])
      case None =>
      case Some(i) =>
        DstWidened(es[i], x, 0);
        assert Widened(es[i])[0..] == Widened(es[i]);
        WalkThrough(es, k + 1, Dst(es[i], x));
        var ms := WalkedMaps(es, k);
        assert ms[0] == Widened(es[i]) && ms[1..] == WalkedMaps(es, k + 1);
    }
  }

  /** The while loop in `main`: look up the entry of the current source, convert, step down the chain. */
  method Locate(es: seq<Entry>, seed: nat) returns (id: nat)
    requires AllPaired(es)
    ensures id == Walk(es, Seed, seed)
  {
    id := seed;
    var d := Seed;
    while d != LastTable
      invariant d != Unknown && Walk(es, d, id) == Walk(es, Seed, seed)
      decreases Rank(d)
    {
      var index := GetEntryIndex(es, d);
      if index.None? {
        break;
      }
      id := GetDst(es[index.value], id);
      d := Next(d);
    }
  }

  // ---------------------------------------------------------------- the seed loop of main

  /** The seed loop after the given seeds: the seed kept and the lowest location, from 0 and u64::MAX, replaced on a strictly lower one. */
  function Best(es: seq<Entry>, seeds: seq<nat>): (nat, nat)
    requires AllPaired(es)
    decreases |seeds|
  {
    if seeds == [] then (0, U64Max)
    else
      var last := seeds[|seeds| - 1];
      var kept := Best(es, seeds[..|seeds| - 1]);
      var loc := Walk(es, Seed, last);
      if loc < kept.1 then (last, loc) else kept
  }

  /**
   * The location kept is the least of u64::MAX and every seed's location.
   * Below u64::MAX it is the location of the first seed that reaches it,
   * and that seed is the one kept; otherwise the seed kept is still 0.
   */
  lemma {:induction false} BestIsLowest(es: seq<Entry>, seeds: seq<nat>)
    requires AllPaired(es)
    ensures Best(es, seeds).1 <= U64Max
    ensures forall k :: 0 <= k < |seeds| ==> Best(es, seeds).1 <= Walk(es, Seed, seeds[k])
    ensures Best(es, seeds).1 == U64Max ==> Best(es, seeds).0 == 0
    ensures Best(es, seeds).1 < U64Max ==> exists k :: 0 <= k < |seeds| && FirstLowest(es, seeds, k, Best(es, seeds))
    decreases |seeds|
  {
    if seeds != [] {
      var n := |seeds| - 1;
      var front := seeds[..n];
      BestIsLowest(es, front);
      var kept := Best(es, front);
      var loc := Walk(es, Seed, seeds[n]);
      assert forall k :: 0 <= k < n ==> front[k] == seeds[k];
      if loc < kept.1 {
        assert FirstLowest(es, seeds, n, Best(es, seeds));
      } else if kept.1 < U64Max {
        var k :| 0 <= k < n && FirstLowest(es, front, k, kept);
        assert FirstLowest(es, seeds, k, Best(es, seeds));
      }
    }
  }

  /** Seed k reaches the location kept, is the seed kept, and every seed before it lies strictly higher. */
  predicate FirstLowest(es: seq<Entry>, seeds: seq<nat>, k: nat, kept: (nat, nat))
    requires AllPaired(es) && k < |seeds|
  {
    && kept.0 == seeds[k] && Walk(es, Seed, seeds[k]) == kept.1
    && forall j :: 0 <= j < k ==> Walk(es, Seed, seeds[j]) > kept.1
  }

  /** The seed loop of `main`. */
  method Run(es: seq<Entry>, seeds: seq<nat>) returns (seedResult: nat, locationResult: nat)
    requires AllPaired(es)
    ensures (seedResult, locationResult) == Best(es, seeds)
  {
    locationResult := U64Max;
    seedResult := 0;
    for i := 0 to |seeds|
      invariant (seedResult, locationResult) == Best(es, seeds[..i])
    {
      var id := Locate(es, seeds[i]);
      assert seeds[..i + 1][..i] == seeds[..i];
      if id < locationResult {
        seedResult := seeds[i];
        locationResult := id;
      }
    }
    assert seeds[..|seeds|] == seeds;
  }

  // ---------------------------------------------------------------- get_input

  /** The state the line loop of `get_input` carries from line to line. */
  datatype Scan = Scan(descSrc: Descr, descDst: Descr, rangesSrc: seq<Range>, rangesDst: seq<Range>, seeds: seq<nat>, entries: seq<Entry>)

  const Start := Scan(Unknown, Unknown, [], [], [], [])

  /** The state the loop keeps: the two range lists grow together, and so did those of every entry pushed. */
  predicate Kept(s: Scan) { |s.rangesSrc| == |s.rangesDst| && AllPaired(s.entries) }

  /** The entry the current state would push. */
  function EntryOf(s: Scan): Entry {
    Entry(s.descSrc, s.descDst, s.rangesSrc, s.rangesDst)
  }

  /** The pattern `seeds:` matches somewhere in the line. */
  predicate SeedsLine(line: string) { Contains(line, "seeds:") }

  /**
   * The pattern `.+?-to-.+? map:` matches somewhere in the line: at least
   * one char, "-to-", at least one char, " map:".  A line of the split
   * holds no newline, so `.` matches every char of it.
   */
  predicate HeaderLine(line: string) {
    exists q | 0 <= q <= |line| - 5 :: WordAt(line, " map:", q) && exists p | 1 <= p <= q - 5 :: WordAt(line, "-to-", p)
  }

  /** The word w sits at position i of the line. */
  predicate WordAt(line: string, w: string, i: int) {
    0 <= i && i + |w| <= |line| && line[i..i + |w|] == w
  }

  /** `word.trim().parse::<u64>()`, None where it fails. */
  function Unsigned(w: string): Option<nat> {
    ParseUnsigned(Trim(w), U64Max)
  }

  /** Every word parsed; None when one of them fails. */
  function Values(words: seq<string>): Option<seq<nat>> {
    Gathered(seq(|words|, k requires 0 <= k < |words| => Unsigned(words[k])))
  }

  /** The seeds of a seeds line: "seeds: " removed, then every whitespace-separated word parsed. */
  function SeedValues(line: string): Option<seq<nat>> {
    Values(SplitWhitespace(Replace(line, "seeds: ", "")))
  }

  /** A value put in field m (0 destination start, 1 source start, 2 length). */
  function Set(f: (nat, nat, nat), m: nat, v: nat): (nat, nat, nat) {
    if m == 0 then (v, f.1, f.2) else if m == 1 then (f.0, v, f.2) else if m == 2 then (f.0, f.1, v) else f
  }

  /**
   * The numbers of the words of a rule line, from (0, 0, 0): word p sets
   * field p % 3, so a later word overwrites an earlier one.  None when a
   * word fails to parse.
   */
  function Fields(words: seq<string>): Option<(nat, nat, nat)>
    decreases |words|
  {
    if words == [] then Some((0, 0, 0))
    else match Fields(words[..|words| - 1])
      case None => None
      case Some(f) =>
        match Unsigned(words[|words| - 1])
        case None => None
        case Some(v) => Some(Set(f, (|words| - 1) % 3, v))
  }

  /** The numbers of a rule line (destination start, source start, length), None when a word fails to parse. */
  function RuleValues(line: string): Option<(nat, nat, nat)> {
    Fields(SplitWhitespace(line))
  }

  /** The table `almanac_descriptions`. */
  const Descriptions: seq<(Descr, string)> := [(Seed, "seed"), (Soil, "soil"), (Fertilizer, "fertilizer"),
    (Water, "water"), (Light, "light"), (Temperature, "temperature"), (Humidity, "humidity"), (Location, "location")]

  /** The description of the last table entry called name, None if none is. */
  function Named(table: seq<(Descr, string)>, name: string): Option<Descr>
    decreases |table|
  {
    if table == [] then None
    else if table[|table| - 1].1 == name then Some(table[|table| - 1].0)
    else Named(table[..|table| - 1], name)
  }

  /** A found description at piece i of a header: the source for an even i, the destination for an odd one. */
  function Put(p: (Descr, Descr), d: Option<Descr>, i: nat): (Descr, Descr) {
    match d
    case None => p
    case Some(v) => if i % 2 == 0 then (v, p.1) else (p.0, v)
  }

  /** The pieces of a header: " map:" removed, then split on "-to-". */
  function Pieces(line: string): seq<string> {
    SplitOn(Replace(line, " map:", ""), "-to-")
  }

  /** Source and destination after the given pieces of a header, from what they were. */
  function Described(p: (Descr, Descr), pieces: seq<string>): (Descr, Descr)
    decreases |pieces|
  {
    if pieces == [] then p
    else Put(Described(p, pieces[..|pieces| - 1]), Named(Descriptions, pieces[|pieces| - 1]), |pieces| - 1)
  }

  /** What a line is, by the first pattern that matches it, with what its words give. */
  datatype Kind = SeedsKind(seeds: Option<seq<nat>>) | HeaderKind(pieces: seq<string>) | RuleKind(rule: Option<(nat, nat, nat)>)

  function KindOf(line: string): Kind {
    if SeedsLine(line) then SeedsKind(SeedValues(line))
    else if HeaderLine(line) then HeaderKind(Pieces(line))
    else RuleKind(RuleValues(line))
  }

  /**
   * One pass of the line loop on a line of the given kind.  A seeds line
   * appends its seeds; a header empties the ranges and names the map; a
   * rule line is ignored before the first header, and otherwise appends
   * its ranges, end = start + length; a blank line (read as the rule
   * "0 0 0") then also pushes the entry.  None where the code returns Err.
   */
  function Apply(s: Scan, blank: bool, k: Kind): (r: Option<Scan>)
    ensures Kept(s) && r.Some? ==> Kept(r.value)
  {
    match k
    case SeedsKind(vs) => if vs.None? then None else Some(s.(seeds := s.seeds + vs.value))
    case HeaderKind(pieces) =>
      var p := Described((s.descSrc, s.descDst), pieces);
      Some(s.(descSrc := p.0, descDst := p.1, rangesSrc := [], rangesDst := []))
    case RuleKind(v) =>
      if v.None? then None
      else if s.descSrc == Unknown then Some(s)
      else
        var t := s.(rangesSrc := s.rangesSrc + [Range(v.value.1, v.value.1 + v.value.2)],
                    rangesDst := s.rangesDst + [Range(v.value.0, v.value.0 + v.value.2)]);
        Some(if blank then t.(entries := t.entries + [EntryOf(t)]) else t)
  }

  /** One pass of the line loop. */
  function LineStep(s: Scan, line: string): (r: Option<Scan>)
    ensures Kept(s) && r.Some? ==> Kept(r.value)
  {
    Apply(s, line == "", KindOf(line))
  }

  /** The loop over the lines from state s: None once a line fails. */
  function Scanned(lines: seq<string>, s: Scan): (r: Option<Scan>)
    ensures Kept(s) && r.Some? ==> Kept(r.value)
    decreases |lines|
  {
    if lines == [] then Some(s)
    else match LineStep(s, lines[0])
      case None => None
      case Some(t) => Scanned(lines[1..], t)
  }

  /** `get_input` on the file's text: the entries, with the last one pushed once more after the loop, and the seeds. */
  function Input(content: string): (r: Option<(seq<Entry>, seq<nat>)>)
    ensures r.Some? ==> AllPaired(r.value.0)
  {
    match Scanned(Split(content, '\n'), Start)
    case None => None
    case Some(s) => Some((s.entries + [EntryOf(s)], s.seeds))
  }

  /** The kind of a seeds line. */
  lemma SeedsKindOf(line: string)
    requires SeedsLine(line)
    ensures KindOf(line) == SeedsKind(SeedValues(line))
  {
  }

  /** The kind of a header. */
  lemma HeaderKindOf(line: string)
    requires !SeedsLine(line) && HeaderLine(line)
    ensures KindOf(line) == HeaderKind(Pieces(line))
  {
  }

  /** The kind of any other line. */
  lemma RuleKindOf(line: string)
    requires !SeedsLine(line) && !HeaderLine(line)
    ensures KindOf(line) == RuleKind(RuleValues(line))
  {
  }

  /** One line of the loop taken. */
  lemma ScanStep(lines: seq<string>, i: nat, s: Scan)
    requires i < |lines|
    ensures Scanned(lines[i..], s) == match LineStep(s, lines[i]) case None => None case Some(t) => Scanned(lines[i + 1..], t)
  {
    assert lines[i..][1..] == lines[i + 1..];
  }

  /** The words' fields after one word more. */
  lemma FieldsStep(words: seq<string>, i: nat)
    requires i < |words|
    ensures Fields(words[..i + 1]) == match Fields(words[..i])
      case None => None
      case Some(f) => match Unsigned(words[i]) case None => None case Some(v) => Some(Set(f, i % 3, v))
  {
    assert words[..i + 1][..i] == words[..i];
  }

  /** The loop over the words of a seeds line, returning at the first word that fails to parse. */
  method ReadSeeds(line: string) returns (r: Option<seq<nat>>)
    ensures r == SeedValues(line)
  {
    var words := SplitWhitespace(Replace(line, "seeds: ", ""));
    ghost var xs := seq(|words|, k requires 0 <= k < |words| => Unsigned(words[k]));
    var vs: seq<nat> := [];
    for i := 0 to |words|
      invariant |vs| == i && forall k :: 0 <= k < i ==> xs[k] == Some(vs[k])
    {
      var v := Unsigned(words[i]);
      if v.None? {
        GatheredNone(xs, i);
        return None;
      }
      vs := vs + [v.value];
    }
    GatheredAll(xs, vs);
    return Some(vs);
  }

  /** The loop over the words of a rule line: word i sets field i % 3; the first word that fails to parse ends it. */
  method ReadRule(line: string) returns (r: Option<(nat, nat, nat)>)
    ensures r == RuleValues(line)
  {
    var words := SplitWhitespace(line);
    var dst, src, len := 0, 0, 0;
    for i := 0 to |words|
      invariant Fields(words[..i]) == Some((dst, src, len))
    {
      FieldsStep(words, i);
      var v := Unsigned(words[i]);
      if v.None? {
        FieldsNone(words, i + 1);
        return None;
      }
      if i % 3 == 0 {
        dst := v.value;
      }
      if i % 3 == 1 {
        src := v.value;
      }
      if i % 3 == 2 {
        len := v.value;
      }
    }
    assert words[..|words|] == words;
    return Some((dst, src, len));
  }

  /** Once a prefix of the words fails, all of them do. */
  lemma {:induction false} FieldsNone(words: seq<string>, i: nat)
    requires i <= |words| && Fields(words[..i]).None?
    ensures Fields(words).None?
    decreases |words| - i
  {
    if i < |words| {
      FieldsStep(words, i);
      FieldsNone(words, i + 1);
    } else {
      assert words[..i] == words;
    }
  }

  /** The loops over the pieces of a header and over the table, from the descriptions held so far. */
  method ReadHeader(line: string, src0: Descr, dst0: Descr) returns (src: Descr, dst: Descr)
    ensures (src, dst) == Described((src0, dst0), Pieces(line))
  {
    var pieces := Pieces(line);
    src, dst := src0, dst0;
    for i := 0 to |pieces|
      invariant (src, dst) == Described((src0, dst0), pieces[..i])
    {
      ghost var before := (src, dst);
      for j := 0 to |Descriptions|
        invariant (src, dst) == Put(before, Named(Descriptions[..j], pieces[i]), i)
      {
        assert Descriptions[..j + 1][..j] == Descriptions[..j];
        if pieces[i] == Descriptions[j].1 {
          if i % 2 == 0 {
            src := Descriptions[j].0;
          } else {
            dst := Descriptions[j].0;
          }
        }
      }
      assert Descriptions[..|Descriptions|] == Descriptions;
      assert pieces[..i + 1][..i] == pieces[..i];
    }
    assert pieces[..|pieces|] == pieces;
  }

  /**
   * One pass of the line loop of `get_input`; the record holds the loop's
   * six variables.  A seeds line extends the seeds, a header resets the
   * ranges and reads the two descriptions, any other line is a rule, which
   * is dropped before the first header and, on a blank line, pushes the
   * entry after its ranges.
   */
  method ReadLine(s: Scan, line: string) returns (r: Option<Scan>)
    ensures r == LineStep(s, line)
  {
    if SeedsLine(line) {
      SeedsKindOf(line);
      var vs := ReadSeeds(line);
      if vs.None? {
        return None;
      }
      return Some(s.(seeds := s.seeds + vs.value));
    }
    if HeaderLine(line) {
      HeaderKindOf(line);
      var src, dst := ReadHeader(line, s.descSrc, s.descDst);
      return Some(s.(descSrc := src, descDst := dst, rangesSrc := [], rangesDst := []));
    }
    RuleKindOf(line);
    r := ReadRuleLine(s, line);
  }

  /** The rule branch of the line loop: the line's numbers, ignored before the first header. */
  method ReadRuleLine(s: Scan, line: string) returns (r: Option<Scan>)
    ensures r == Apply(s, line == "", RuleKind(RuleValues(line)))
  {
    var add := false;
    if line == "" && s.descSrc != Unknown {
      add := true;
    }
    var v := ReadRule(line);
    if v.None? {
      return None;
    }
    if s.descSrc == Unknown {
      return Some(s);
    }
    var t := s.(rangesSrc := s.rangesSrc + [Range(v.value.1, v.value.1 + v.value.2)],
                rangesDst := s.rangesDst + [Range(v.value.0, v.value.0 + v.value.2)]);
    if add {
      t := t.(entries := t.entries + [EntryOf(t)]);
    }
    return Some(t);
  }

  /** The line loop of `get_input` and the push after it; the file has been read into `content`. */
  method GetInput(content: string) returns (r: Option<(seq<Entry>, seq<nat>)>)
    ensures r == Input(content)
  {
    var lines := Split(content, '\n');
    var s := Start;
    for i := 0 to |lines|
      invariant Scanned(lines, Start) == Scanned(lines[i..], s)
    {
      ScanStep(lines, i, s);
      var t := ReadLine(s, lines[i]);
      if t.None? {
        return None;
      }
      s := t.value;
    }
    r := Some((s.entries + [EntryOf(s)], s.seeds));
  }

  // ---------------------------------------------------------------- what the parser makes of lines

  /**
   * A blank line is read as the rule "0 0 0": once a header was seen it
   * appends [0, 0] to both range lists and pushes the entry with it;
   * before the first header it changes nothing.
   */
  lemma BlankLine(s: Scan)
    ensures s.descSrc == Unknown ==> LineStep(s, "") == Some(s)
    ensures s.descSrc != Unknown ==>
      var t := s.(rangesSrc := s.rangesSrc + [Range(0, 0)], rangesDst := s.rangesDst + [Range(0, 0)]);
      LineStep(s, "") == Some(t.(entries := t.entries + [EntryOf(t)]))
  {
    assert SplitWhitespace("") == [];
    assert Values([]) == Some([]);
    assert RuleValues("") == Some((0, 0, 0));
  }

  /** The rule [0, 0] a blank line adds after the others changes nothing: it maps only 0, to 0. */
  lemma {:induction false} ZeroRuleHarmless(e: Entry, x: nat, i: nat)
    requires Paired(e) && i <= |e.rangesSrc|
    ensures var z := e.(rangesSrc := e.rangesSrc + [Range(0, 0)], rangesDst := e.rangesDst + [Range(0, 0)]);
      DstFrom(z, i, x) == DstFrom(e, i, x)
    decreases |e.rangesSrc| - i
  {
    var z := e.(rangesSrc := e.rangesSrc + [Range(0, 0)], rangesDst := e.rangesDst + [Range(0, 0)]);
    if i < |e.rangesSrc| {
      assert z.rangesSrc[i] == e.rangesSrc[i] && z.rangesDst[i] == e.rangesDst[i];
      ZeroRuleHarmless(e, x, i + 1);
    } else {
      assert z.rangesSrc[i] == Range(0, 0) && z.rangesDst[i] == Range(0, 0);
      assert DstFrom(z, i + 1, x) == x;
    }
  }

  /** The decimal digits of a u64 parse back as it. */
  lemma UnsignedDecimal(n: nat)
    requires n <= U64Max
    ensures Unsigned(Decimal(n)) == Some(n)
  {
    Scratchcards.DecimalTrim(n);
    ParseDecimal(n, U64Max);
  }

  /** Decimal numbers are words, and they parse back as themselves. */
  lemma DecimalValues(vs: seq<nat>)
    requires forall k :: 0 <= k < |vs| ==> vs[k] <= U64Max
    ensures var ds := Scratchcards.Decimals(vs);
      (forall k :: 0 <= k < |ds| ==> IsWord(ds[k])) && Values(ds) == Some(vs)
  {
    var ds := Scratchcards.Decimals(vs);
    var xs := seq(|ds|, k requires 0 <= k < |ds| => Unsigned(ds[k]));
    forall k | 0 <= k < |ds|
      ensures IsWord(ds[k]) && xs[k] == Some(vs[k])
    {
      Scratchcards.DecimalWord(vs[k]);
      UnsignedDecimal(vs[k]);
    }
    GatheredAll(xs, vs);
  }

  /** Decimal numbers joined with spaces hold no char that is neither a digit nor a space. */
  lemma DecimalsLack(vs: seq<nat>, c: char)
    requires !IsDigit(c) && c != ' '
    ensures c !in Join(Scratchcards.Decimals(vs), " ")
  {
    var ds := Scratchcards.Decimals(vs);
    forall k | 0 <= k < |ds| ensures c !in ds[k] {
      Scratchcards.DecimalLacks(vs[k], c);
    }
    NotInJoin(ds, " ", c);
  }

  /** The text of a rule line "d s l". */
  function RuleText(d: nat, sr: nat, l: nat): string {
    Decimal(d) + " " + Decimal(sr) + " " + Decimal(l)
  }

  /** Three words joined with spaces. */
  lemma JoinThree(a: string, b: string, c: string)
    ensures a + " " + b + " " + c == Join([a, b, c], " ")
  {
    var w := [a, b, c];
    assert w[1..] == [b, c] && w[1..][1..] == [c];
    assert Join([b, c], " ") == b + " " + c;
    assert a + " " + b + " " + c == a + " " + (b + " " + c);
  }

  /** The words of a rule line are its three numbers. */
  lemma RuleTextWords(d: nat, sr: nat, l: nat)
    ensures SplitWhitespace(RuleText(d, sr, l)) == [Decimal(d), Decimal(sr), Decimal(l)]
  {
    Scratchcards.DecimalWord(d);
    Scratchcards.DecimalWord(sr);
    Scratchcards.DecimalWord(l);
    JoinThree(Decimal(d), Decimal(sr), Decimal(l));
    SplitWhitespaceJoin([Decimal(d), Decimal(sr), Decimal(l)]);
  }

  /** Three words that parse give their three numbers. */
  lemma FieldsThree(x: string, y: string, z: string, a: nat, b: nat, c: nat)
    requires Unsigned(x) == Some(a) && Unsigned(y) == Some(b) && Unsigned(z) == Some(c)
    ensures Fields([x, y, z]) == Some((a, b, c))
  {
    Snocs(x, y, z);
    FieldsSnoc([], x, (0, 0, 0), a);
    FieldsSnoc([x], y, (a, 0, 0), b);
    FieldsSnoc([x, y], z, (a, b, 0), c);
  }

  /** Three words built one at a time. */
  lemma Snocs(x: string, y: string, z: string)
    ensures [] + [x] == [x] && [x] + [y] == [x, y] && [x, y] + [z] == [x, y, z]
  {
  }

  /** One word more that parses sets its field. */
  lemma FieldsSnoc(words: seq<string>, x: string, f: (nat, nat, nat), v: nat)
    requires Fields(words) == Some(f) && Unsigned(x) == Some(v)
    ensures Fields(words + [x]) == Some(Set(f, |words| % 3, v))
  {
    assert (words + [x])[..|words|] == words;
  }

  /** A rule line is read back as its three numbers. */
  lemma RuleTextValues(d: nat, sr: nat, l: nat)
    requires d <= U64Max && sr <= U64Max && l <= U64Max
    ensures RuleValues(RuleText(d, sr, l)) == Some((d, sr, l))
  {
    RuleTextWords(d, sr, l);
    UnsignedDecimal(d);
    UnsignedDecimal(sr);
    UnsignedDecimal(l);
    FieldsThree(Decimal(d), Decimal(sr), Decimal(l), d, sr, l);
  }

  /** A line without '-' or 's' is neither a seeds line nor a header. */
  lemma DigitsOnly(line: string)
    requires '-' !in line && 's' !in line
    ensures !SeedsLine(line) && !HeaderLine(line)
  {
    LacksChar(line, "seeds:", 's');
    forall p | 0 <= p && p + 4 <= |line|
      ensures !WordAt(line, "-to-", p)
    {
      assert line[p] in line;
      assert line[p..p + 4][0] == line[p];
    }
  }

  /** What is known of a rule line: neither a seeds line nor a header, not blank, and its three numbers. */
  lemma RuleTextRead(d: nat, sr: nat, l: nat)
    requires d <= U64Max && sr <= U64Max && l <= U64Max
    ensures var line := RuleText(d, sr, l);
      !SeedsLine(line) && !HeaderLine(line) && line != "" && RuleValues(line) == Some((d, sr, l))
  {
    Scratchcards.DecimalLacks(d, '-');
    Scratchcards.DecimalLacks(sr, '-');
    Scratchcards.DecimalLacks(l, '-');
    Scratchcards.DecimalLacks(d, 's');
    Scratchcards.DecimalLacks(sr, 's');
    Scratchcards.DecimalLacks(l, 's');
    RuleTextValues(d, sr, l);
    DigitsOnly(RuleText(d, sr, l));
  }

  /** A non-blank rule line after a header: its ranges appended. */
  lemma RuleStep(s: Scan, line: string, r: (nat, nat, nat))
    requires KindOf(line) == RuleKind(Some(r)) && line != "" && s.descSrc != Unknown
    ensures LineStep(s, line) == Some(RuledOne(s, r))
  {
    RuleApplied(s, r);
  }

  /** What the loop does with the numbers of a non-blank rule line after a header. */
  lemma RuleApplied(s: Scan, r: (nat, nat, nat))
    requires s.descSrc != Unknown
    ensures Apply(s, false, RuleKind(Some(r))) == Some(RuledOne(s, r))
  {
  }

  /** The loop's state once one rule's ranges are appended. */
  function RuledOne(s: Scan, r: (nat, nat, nat)): Scan {
    s.(rangesSrc := s.rangesSrc + [Range(r.1, r.1 + r.2)], rangesDst := s.rangesDst + [Range(r.0, r.0 + r.2)])
  }

  /** A rule line "d s l" after a header adds [s, s + l] and [d, d + l]: the end is start + length. */
  lemma RuleLine(s: Scan, d: nat, sr: nat, l: nat)
    requires d <= U64Max && sr <= U64Max && l <= U64Max && s.descSrc != Unknown
    ensures LineStep(s, RuleText(d, sr, l)) == Some(RuledOne(s, (d, sr, l)))
  {
    var line := RuleText(d, sr, l);
    RuleTextRead(d, sr, l);
    RuleKindOf(line);
    RuleStep(s, line, (d, sr, l));
  }

  /** "seeds: " before a text without 's' makes a seeds line, and taking "seeds: " out leaves the text. */
  lemma SeedsFront(rest: string)
    requires 's' !in rest
    ensures SeedsLine("seeds: " + rest) && Replace("seeds: " + rest, "seeds: ", "") == rest
  {
    LacksChar(rest, "seeds: ", 's');
    ReplaceFront("seeds: ", rest, "");
    ContainsAt("seeds: " + rest, "seeds:", 0);
  }

  /** The words of numbers joined with spaces read back as the numbers. */
  lemma JoinedValues(vs: seq<nat>)
    requires forall k :: 0 <= k < |vs| ==> vs[k] <= U64Max
    ensures Values(SplitWhitespace(Join(Scratchcards.Decimals(vs), " "))) == Some(vs)
  {
    DecimalValues(vs);
    SplitWhitespaceJoin(Scratchcards.Decimals(vs));
  }

  /** What is known of a seeds line: it holds "seeds:", and its words after "seeds: " are the numbers. */
  lemma SeedsTextRead(vs: seq<nat>)
    requires forall k :: 0 <= k < |vs| ==> vs[k] <= U64Max
    ensures var line := "seeds: " + Join(Scratchcards.Decimals(vs), " ");
      SeedsLine(line) && SeedValues(line) == Some(vs)
  {
    var rest := Join(Scratchcards.Decimals(vs), " ");
    DecimalsLack(vs, 's');
    SeedsFront(rest);
    JoinedValues(vs);
  }

  /** A seeds line that reads extends the seeds and nothing else. */
  lemma SeedsStep(s: Scan, line: string, vs: seq<nat>)
    requires SeedsLine(line) && SeedValues(line) == Some(vs)
    ensures LineStep(s, line) == Some(s.(seeds := s.seeds + vs))
  {
    SeedsKindOf(line);
  }

  /** The words of a seeds line follow "seeds: " and are read in order. */
  lemma SeedsLineRead(s: Scan, vs: seq<nat>)
    requires forall k :: 0 <= k < |vs| ==> vs[k] <= U64Max
    ensures LineStep(s, "seeds: " + Join(Scratchcards.Decimals(vs), " ")) == Some(s.(seeds := s.seeds + vs))
  {
    SeedsTextRead(vs);
    SeedsStep(s, "seeds: " + Join(Scratchcards.Decimals(vs), " "), vs);
  }

  // ---------------------------------------------------------------- what the parser makes of a file

  /** A description `almanac_descriptions` names. */
  predicate Listed(d: Descr) { d != Unknown && d != LastTable }

  /** The name `almanac_descriptions` gives a description. */
  function NameOf(d: Descr): string {
    match d
    case Seed => "seed"
    case Soil => "soil"
    case Fertilizer => "fertilizer"
    case Water => "water"
    case Light => "light"
    case Temperature => "temperature"
    case Humidity => "humidity"
    case Location => "location"
    case _ => ""
  }

  /** A listed description's name is made of at least four lower-case letters. */
  lemma NameLetters(d: Descr)
    requires Listed(d)
    ensures |NameOf(d)| >= 4 && forall i :: 0 <= i < |NameOf(d)| ==> 'a' <= NameOf(d)[i] <= 'z'
  {
  }

  /** An entry no later entry shares the name of is the one found. */
  lemma {:induction false} NamedAt(table: seq<(Descr, string)>, i: nat, name: string)
    requires i < |table| && table[i].1 == name && forall j :: i < j < |table| ==> table[j].1 != name
    ensures Named(table, name) == Some(table[i].0)
    decreases |table|
  {
    if i < |table| - 1 {
      var front := table[..|table| - 1];
      assert forall j :: i < j < |front| ==> front[j] == table[j];
      NamedAt(front, i, name);
    }
  }

  /** Looking a listed description's name up in the table gives the description back. */
  lemma NamedBack(d: Descr)
    requires Listed(d)
    ensures Named(Descriptions, NameOf(d)) == Some(d)
  {
    var i := 8 - Rank(d);
    assert Descriptions[i] == (d, NameOf(d));
    forall j | i < j < |Descriptions|
      ensures Descriptions[j].1 != NameOf(d)
    {
      assert |Descriptions[j].1| != |NameOf(d)| || Descriptions[j].1[1] != NameOf(d)[1];
    }
    NamedAt(Descriptions, i, NameOf(d));
  }

  /** The "x-to-y" part of a header. */
  function HeaderBody(x: Descr, y: Descr): string {
    NameOf(x) + "-to-" + NameOf(y)
  }

  /** The header line of the map from x to y: "x-to-y map:". */
  function HeaderText(x: Descr, y: Descr): string {
    HeaderBody(x, y) + " map:"
  }

  /** A text without ':' followed by " map:" does not contain "seeds:": its only ':' follows a 'p'. */
  lemma {:induction false} NotSeedsBefore(t: string)
    requires ':' !in t
    ensures !Contains(t + " map:", "seeds:")
    decreases |t|
  {
    var s := t + " map:";
    if t == [] {
      ShortLacks(s, "seeds:");
    } else {
      if |t| > 5 {
        assert s[5] == t[5];
      } else if |t| == 1 {
        assert s[4] == 'p';
      } else {
        assert s[5] == " map:"[5 - |t|];
      }
      assert !StartsWith(s, "seeds:") by {
        assert |s| < 6 || s[..6][5] != ':' || s[..6][4] != 's';
      }
      assert s[1..] == t[1..] + " map:";
      NotSeedsBefore(t[1..]);
    }
  }

  /** The two names of a header, split on "-to-". */
  lemma BodyPieces(x: Descr, y: Descr)
    requires Listed(x) && Listed(y)
    ensures Replace(HeaderText(x, y), " map:", "") == HeaderBody(x, y)
    ensures Pieces(HeaderText(x, y)) == [NameOf(x), NameOf(y)]
  {
    BodyKept(x, y);
    NameLetters(y);
    SplitOnFrontWord(NameOf(x), "-to-", NameOf(y));
    LacksChar(NameOf(y), "-to-", '-');
  }

  /** " map:" taken out of the header leaves "x-to-y". */
  lemma BodyKept(x: Descr, y: Descr)
    requires Listed(x) && Listed(y)
    ensures Replace(HeaderText(x, y), " map:", "") == HeaderBody(x, y)
  {
    var b := HeaderBody(x, y);
    NameLetters(x);
    NameLetters(y);
    assert ' ' !in b;
    ReplaceBack(b, " map:", "");
    assert b + "" == b;
  }

  /**
   * The header "x-to-y map:" of two listed descriptions: it is no seeds
   * line, it matches the header pattern, it holds no newline, and its
   * pieces name x as the source and y as the destination, whatever the
   * descriptions were before.
   */
  lemma HeaderRead(x: Descr, y: Descr, p: (Descr, Descr))
    requires Listed(x) && Listed(y)
    ensures var h := HeaderText(x, y);
      !SeedsLine(h) && HeaderLine(h) && '\n' !in h && Described(p, Pieces(h)) == (x, y)
  {
    HeaderPlain(x, y);
    HeaderMatches(x, y);
    HeaderDescribed(x, y, p);
  }

  /** The header is no seeds line and holds no newline: its names are lower-case letters. */
  lemma HeaderPlain(x: Descr, y: Descr)
    requires Listed(x) && Listed(y)
    ensures !SeedsLine(HeaderText(x, y)) && '\n' !in HeaderText(x, y)
  {
    NameLetters(x);
    NameLetters(y);
    NotSeedsBefore(HeaderBody(x, y));
  }

  /** The header matches the pattern: a name, "-to-", a name, " map:". */
  lemma HeaderMatches(x: Descr, y: Descr)
    requires Listed(x) && Listed(y)
    ensures HeaderLine(HeaderText(x, y))
  {
    var h := HeaderText(x, y);
    NameLetters(x);
    NameLetters(y);
    var q, w := |HeaderBody(x, y)|, |NameOf(x)|;
    assert WordAt(h, " map:", q) by {
      assert h[q..q + 5] == " map:";
    }
    assert WordAt(h, "-to-", w) by {
      assert h[w..w + 4] == "-to-";
    }
    assert 1 <= w <= q - 5;
  }

  /** The header's pieces set the source to x and the destination to y. */
  lemma HeaderDescribed(x: Descr, y: Descr, p: (Descr, Descr))
    requires Listed(x) && Listed(y)
    ensures Described(p, Pieces(HeaderText(x, y))) == (x, y)
  {
    BodyPieces(x, y);
    var ps := [NameOf(x), NameOf(y)];
    assert ps[..1] == [NameOf(x)] && ps[..1][..0] == [];
    NamedBack(x);
    NamedBack(y);
    assert Described(p, ps[..1]) == (x, p.1);
  }

  /** One header line: the map's two descriptions set and its ranges emptied. */
  lemma HeaderStep(s: Scan, x: Descr, y: Descr)
    requires Listed(x) && Listed(y)
    ensures LineStep(s, HeaderText(x, y)) == Some(s.(descSrc := x, descDst := y, rangesSrc := [], rangesDst := []))
  {
    HeaderRead(x, y, (s.descSrc, s.descDst));
    HeaderKindOf(HeaderText(x, y));
  }

  /** A map of an almanac file: its source and destination and its rules (destination start, source start, length). */
  datatype MapText = MapText(src: Descr, dst: Descr, rules: seq<(nat, nat, nat)>)

  /** Every number of the rules fits a `u64`. */
  predicate RulesFit(rs: seq<(nat, nat, nat)>) {
    forall k :: 0 <= k < |rs| ==> rs[k].0 <= U64Max && rs[k].1 <= U64Max && rs[k].2 <= U64Max
  }

  /** A map with listed descriptions whose numbers fit a `u64`. */
  predicate MapFits(m: MapText) { Listed(m.src) && Listed(m.dst) && RulesFit(m.rules) }

  /** The rule lines of the rules, one per rule. */
  function RuleLines(rs: seq<(nat, nat, nat)>): (r: seq<string>)
    ensures |r| == |rs|
    decreases |rs|
  {
    if rs == [] then [] else [RuleText(rs[0].0, rs[0].1, rs[0].2)] + RuleLines(rs[1..])
  }

  /** The source ranges [s, s + l] of the rules. */
  function SrcRanges(rs: seq<(nat, nat, nat)>): (r: seq<Range>)
    ensures |r| == |rs|
    decreases |rs|
  {
    if rs == [] then [] else [Range(rs[0].1, rs[0].1 + rs[0].2)] + SrcRanges(rs[1..])
  }

  /** The destination ranges [d, d + l] of the rules. */
  function DstRanges(rs: seq<(nat, nat, nat)>): (r: seq<Range>)
    ensures |r| == |rs|
    decreases |rs|
  {
    if rs == [] then [] else [Range(rs[0].0, rs[0].0 + rs[0].2)] + DstRanges(rs[1..])
  }

  /** A map's lines: its header, its rule lines and the blank line after them. */
  function BlockLines(m: MapText): seq<string> {
    [HeaderText(m.src, m.dst)] + RuleLines(m.rules) + [""]
  }

  /** The lines of the maps, one after the other. */
  function BlocksLines(ms: seq<MapText>): seq<string>
    decreases |ms|
  {
    if ms == [] then [] else BlockLines(ms[0]) + BlocksLines(ms[1..])
  }

  /** The seeds line "seeds: v1 v2 ...". */
  function SeedsText(vs: seq<nat>): string {
    "seeds: " + Join(Scratchcards.Decimals(vs), " ")
  }

  /** The lines of an almanac file: the seeds line, a blank line, then every map's lines. */
  function AlmanacLines(vs: seq<nat>, ms: seq<MapText>): seq<string> {
    [SeedsText(vs), ""] + BlocksLines(ms)
  }

  /** The text of an almanac file: its lines joined with newlines, so it ends with the newline after the last map's rules. */
  function AlmanacText(vs: seq<nat>, ms: seq<MapText>): string {
    Join(AlmanacLines(vs, ms), "\n")
  }

  /** The entry a map's block pushes: its descriptions and ranges, with the [0, 0] the blank line after them adds. */
  function MapEntry(m: MapText): Entry {
    Entry(m.src, m.dst, SrcRanges(m.rules) + [Range(0, 0)], DstRanges(m.rules) + [Range(0, 0)])
  }

  /** The loop's state after a map's block: the block's entry pushed, its descriptions and ranges kept. */
  function AfterBlock(s: Scan, m: MapText): Scan {
    Scan(m.src, m.dst, SrcRanges(m.rules) + [Range(0, 0)], DstRanges(m.rules) + [Range(0, 0)], s.seeds, s.entries + [MapEntry(m)])
  }

  /** The loop's state after the blocks of the maps, one after the other. */
  function Blocked(s: Scan, ms: seq<MapText>): Scan
    decreases |ms|
  {
    if ms == [] then s else Blocked(AfterBlock(s, ms[0]), ms[1..])
  }

  /** The entries the maps' blocks push, in order. */
  function MapEntries(ms: seq<MapText>): (r: seq<Entry>)
    ensures |r| == |ms|
    decreases |ms|
  {
    if ms == [] then [] else [MapEntry(ms[0])] + MapEntries(ms[1..])
  }

  /** Entry k pushed is map k's. */
  lemma {:induction false} MapEntriesAt(ms: seq<MapText>, k: nat)
    requires k < |ms|
    ensures MapEntries(ms)[k] == MapEntry(ms[k])
    decreases k
  {
    if k > 0 {
      MapEntriesAt(ms[1..], k - 1);
    }
  }

  /** The loop over two runs of lines is the loop over the first, then over the second. */
  lemma {:induction false} ScannedAppend(a: seq<string>, b: seq<string>, s: Scan)
    ensures Scanned(a + b, s) == match Scanned(a, s) case None => None case Some(t) => Scanned(b, t)
    decreases |a|
  {
    if a == [] {
      assert a + b == b;
    } else {
      assert (a + b)[0] == a[0] && (a + b)[1..] == a[1..] + b;
      match LineStep(s, a[0])
      case None =>
      case Some(t) => ScannedAppend(a[1..], b, t);
    }
  }

  /** The loop's state once rules' ranges are appended. */
  function Ruled(s: Scan, rs: seq<(nat, nat, nat)>): Scan {
    s.(rangesSrc := s.rangesSrc + SrcRanges(rs), rangesDst := s.rangesDst + DstRanges(rs))
  }

  /** A line that takes the loop from s to t, then more lines, read from s: the more lines read from t. */
  lemma ScannedCons(line: string, rest: seq<string>, s: Scan, t: Scan)
    requires LineStep(s, line) == Some(t)
    ensures Scanned([line] + rest, s) == Scanned(rest, t)
  {
    assert ([line] + rest)[1..] == rest;
  }

  /** A rule line after a header, then more lines: the rule's ranges appended before the rest is read. */
  lemma RuleScanStep(s: Scan, r: (nat, nat, nat), rest: seq<string>)
    requires r.0 <= U64Max && r.1 <= U64Max && r.2 <= U64Max && s.descSrc != Unknown
    ensures Scanned([RuleText(r.0, r.1, r.2)] + rest, s) == Scanned(rest, RuledOne(s, r))
  {
    RuleLine(s, r.0, r.1, r.2);
    ScannedCons(RuleText(r.0, r.1, r.2), rest, s, RuledOne(s, r));
  }

  /** Appending one rule's ranges and then the others' is appending all of them. */
  lemma RuledStep(s: Scan, rs: seq<(nat, nat, nat)>)
    requires rs != []
    ensures Ruled(RuledOne(s, rs[0]), rs[1..]) == Ruled(s, rs)
  {
    var a := [Range(rs[0].1, rs[0].1 + rs[0].2)];
    var b := [Range(rs[0].0, rs[0].0 + rs[0].2)];
    assert SrcRanges(rs) == a + SrcRanges(rs[1..]);
    assert DstRanges(rs) == b + DstRanges(rs[1..]);
    assert (s.rangesSrc + a) + SrcRanges(rs[1..]) == s.rangesSrc + (a + SrcRanges(rs[1..]));
    assert (s.rangesDst + b) + DstRanges(rs[1..]) == s.rangesDst + (b + DstRanges(rs[1..]));
  }

  /** The rules after the first fit when all do. */
  lemma RulesFitTail(rs: seq<(nat, nat, nat)>)
    requires rs != [] && RulesFit(rs)
    ensures RulesFit(rs[1..])
  {
    assert forall k :: 0 <= k < |rs[1..]| ==> rs[1..][k] == rs[k + 1];
  }

  /** After a header, the rule lines append their ranges one by one. */
  lemma {:induction false} RulesScan(rs: seq<(nat, nat, nat)>, s: Scan)
    requires RulesFit(rs) && s.descSrc != Unknown
    ensures Scanned(RuleLines(rs), s) == Some(Ruled(s, rs))
    decreases |rs|
  {
    if rs == [] {
      assert s.rangesSrc + [] == s.rangesSrc && s.rangesDst + [] == s.rangesDst;
    } else {
      assert RuleLines(rs) == [RuleText(rs[0].0, rs[0].1, rs[0].2)] + RuleLines(rs[1..]);
      RuleScanStep(s, rs[0], RuleLines(rs[1..]));
      RulesFitTail(rs);
      RulesScan(rs[1..], RuledOne(s, rs[0]));
      RuledStep(s, rs);
    }
  }

  /** A map's block: the header, the rule lines, then the blank line that pushes the entry. */
  lemma BlockScan(m: MapText, s: Scan)
    requires MapFits(m)
    ensures Scanned(BlockLines(m), s) == Some(AfterBlock(s, m))
  {
    var u := s.(descSrc := m.src, descDst := m.dst, rangesSrc := [], rangesDst := []);
    HeaderStep(s, m.src, m.dst);
    ScannedAppend([HeaderText(m.src, m.dst)], RuleLines(m.rules) + [""], s);
    assert Scanned([HeaderText(m.src, m.dst)], s) == Some(u);
    RulesScan(m.rules, u);
    ScannedAppend(RuleLines(m.rules), [""], u);
    var v := Ruled(u, m.rules);
    assert [] + SrcRanges(m.rules) == SrcRanges(m.rules) && [] + DstRanges(m.rules) == DstRanges(m.rules);
    BlankLine(v);
    assert Scanned([""], v) == LineStep(v, "");
    assert BlockLines(m) == [HeaderText(m.src, m.dst)] + (RuleLines(m.rules) + [""]);
  }

  /** The blocks of the maps, one after the other. */
  lemma {:induction false} BlocksScan(ms: seq<MapText>, s: Scan)
    requires forall k :: 0 <= k < |ms| ==> MapFits(ms[k])
    ensures Scanned(BlocksLines(ms), s) == Some(Blocked(s, ms))
    decreases |ms|
  {
    if ms != [] {
      BlockScan(ms[0], s);
      ScannedAppend(BlockLines(ms[0]), BlocksLines(ms[1..]), s);
      assert forall k :: 0 <= k < |ms[1..]| ==> ms[1..][k] == ms[k + 1];
      BlocksScan(ms[1..], AfterBlock(s, ms[0]));
    }
  }

  /** After the blocks, the seeds are kept and the maps' entries are pushed in order. */
  lemma {:induction false} BlockedEntries(s: Scan, ms: seq<MapText>)
    ensures var r := Blocked(s, ms);
      r.seeds == s.seeds && r.entries == s.entries + MapEntries(ms)
    decreases |ms|
  {
    if ms == [] {
      assert s.entries + MapEntries(ms) == s.entries;
    } else {
      var t := AfterBlock(s, ms[0]);
      assert Blocked(s, ms) == Blocked(t, ms[1..]);
      BlockedEntries(t, ms[1..]);
      var e := MapEntries(ms[1..]);
      assert t.entries == s.entries + [MapEntry(ms[0])];
      assert (s.entries + [MapEntry(ms[0])]) + e == s.entries + ([MapEntry(ms[0])] + e);
    }
  }

  /** After no block the state is unchanged; after some, it holds the last map's entry. */
  lemma {:induction false} BlockedLast(s: Scan, ms: seq<MapText>)
    ensures var r := Blocked(s, ms);
      (ms == [] ==> r == s) && (ms != [] ==> EntryOf(r) == MapEntry(ms[|ms| - 1]))
    decreases |ms|
  {
    if ms != [] {
      var t := AfterBlock(s, ms[0]);
      BlockedLast(t, ms[1..]);
      if ms[1..] == [] {
        assert Blocked(s, ms) == t && |ms| == 1;
      } else {
        assert ms[1..][|ms[1..]| - 1] == ms[|ms| - 1];
      }
    }
  }

  /** After the blocks, the seeds are kept, the maps' entries pushed in order, and the state holds the last map's entry. */
  lemma BlockedShape(s: Scan, ms: seq<MapText>)
    ensures var r := Blocked(s, ms);
      && r.seeds == s.seeds && r.entries == s.entries + MapEntries(ms)
      && (ms == [] ==> r == s) && (ms != [] ==> EntryOf(r) == MapEntry(ms[|ms| - 1]))
  {
    BlockedEntries(s, ms);
    BlockedLast(s, ms);
  }

  /** No line holds a newline. */
  predicate NoBreaks(ls: seq<string>) { forall k :: 0 <= k < |ls| ==> '\n' !in ls[k] }

  /** Two runs of lines without newlines make one. */
  lemma NoBreaksAppend(a: seq<string>, b: seq<string>)
    requires NoBreaks(a) && NoBreaks(b)
    ensures NoBreaks(a + b)
  {
    assert forall k :: |a| <= k < |a + b| ==> (a + b)[k] == b[k - |a|];
  }

  /** No line of an almanac file holds a newline. */
  lemma AlmanacNoBreaks(vs: seq<nat>, ms: seq<MapText>)
    requires forall k :: 0 <= k < |ms| ==> MapFits(ms[k])
    ensures NoBreaks(AlmanacLines(vs, ms))
  {
    DecimalsLack(vs, '\n');
    BlocksNoBreaks(ms);
    NoBreaksAppend([SeedsText(vs), ""], BlocksLines(ms));
  }

  /** No line of the maps' blocks holds a newline. */
  lemma {:induction false} BlocksNoBreaks(ms: seq<MapText>)
    requires forall k :: 0 <= k < |ms| ==> MapFits(ms[k])
    ensures NoBreaks(BlocksLines(ms))
    decreases |ms|
  {
    if ms != [] {
      BlockNoBreaks(ms[0]);
      assert forall k :: 0 <= k < |ms[1..]| ==> ms[1..][k] == ms[k + 1];
      BlocksNoBreaks(ms[1..]);
      NoBreaksAppend(BlockLines(ms[0]), BlocksLines(ms[1..]));
    }
  }

  /** No line of a map's block holds a newline. */
  lemma BlockNoBreaks(m: MapText)
    requires MapFits(m)
    ensures NoBreaks(BlockLines(m))
  {
    NameLetters(m.src);
    NameLetters(m.dst);
    assert '\n' !in HeaderText(m.src, m.dst);
    RulesNoBreaks(m.rules);
    NoBreaksAppend([HeaderText(m.src, m.dst)], RuleLines(m.rules));
    NoBreaksAppend([HeaderText(m.src, m.dst)] + RuleLines(m.rules), [""]);
  }

  /** No rule line holds a newline. */
  lemma {:induction false} RulesNoBreaks(rs: seq<(nat, nat, nat)>)
    ensures NoBreaks(RuleLines(rs))
    decreases |rs|
  {
    if rs != [] {
      Scratchcards.DecimalLacks(rs[0].0, '\n');
      Scratchcards.DecimalLacks(rs[0].1, '\n');
      Scratchcards.DecimalLacks(rs[0].2, '\n');
      RulesNoBreaks(rs[1..]);
      NoBreaksAppend([RuleText(rs[0].0, rs[0].1, rs[0].2)], RuleLines(rs[1..]));
    }
  }

  /** The seeds line and the blank line after it: the seeds read, nothing else changed. */
  lemma SeedsHead(vs: seq<nat>)
    requires forall k :: 0 <= k < |vs| ==> vs[k] <= U64Max
    ensures Scanned([SeedsText(vs), ""], Start) == Some(Start.(seeds := vs))
  {
    var s0 := Start.(seeds := vs);
    SeedsLineRead(Start, vs);
    assert Start.(seeds := Start.seeds + vs) == s0;
    BlankLine(s0);
    assert [SeedsText(vs), ""][1..] == [""] && [""][1..] == [];
  }

  /**
   * The round trip of `get_input` on a whole file: the seeds line, a blank
   * line, then for each map its header "x-to-y map:", its rule lines and a
   * blank line are read back as exactly those seeds and one entry per map
   * in the file's order, each with the trailing [0, 0] range of its blank
   * line; the push after the loop adds the last map's entry once more (an
   * entry of two Unknown descriptions and no ranges for a file of no map).
   */
  lemma AlmanacRoundTrip(vs: seq<nat>, ms: seq<MapText>)
    requires forall k :: 0 <= k < |vs| ==> vs[k] <= U64Max
    requires forall k :: 0 <= k < |ms| ==> MapFits(ms[k])
    ensures Input(AlmanacText(vs, ms)) ==
      Some((MapEntries(ms) + [if ms == [] then Entry(Unknown, Unknown, [], []) else MapEntry(ms[|ms| - 1])], vs))
  {
    var r := Blocked(Start.(seeds := vs), ms);
    AlmanacSplit(vs, ms);
    AlmanacScanned(vs, ms);
    assert Input(AlmanacText(vs, ms)) == Some((r.entries + [EntryOf(r)], r.seeds));
    BlockedShape(Start.(seeds := vs), ms);
    assert [] + MapEntries(ms) == MapEntries(ms);
  }

  /** The lines of an almanac file are its text split at newlines. */
  lemma AlmanacSplit(vs: seq<nat>, ms: seq<MapText>)
    requires forall k :: 0 <= k < |vs| ==> vs[k] <= U64Max
    requires forall k :: 0 <= k < |ms| ==> MapFits(ms[k])
    ensures Split(AlmanacText(vs, ms), '\n') == AlmanacLines(vs, ms)
  {
    AlmanacNoBreaks(vs, ms);
    JoinSplit(AlmanacLines(vs, ms), '\n');
  }

  /** The loop over an almanac file's lines ends in the state the maps' blocks leave after the seeds. */
  lemma AlmanacScanned(vs: seq<nat>, ms: seq<MapText>)
    requires forall k :: 0 <= k < |vs| ==> vs[k] <= U64Max
    requires forall k :: 0 <= k < |ms| ==> MapFits(ms[k])
    ensures Scanned(AlmanacLines(vs, ms), Start) == Some(Blocked(Start.(seeds := vs), ms))
  {
    SeedsHead(vs);
    ScannedAppend([SeedsText(vs), ""], BlocksLines(ms), Start);
    BlocksScan(ms, Start.(seeds := vs));
  }

  /**
   * `main` on the file's text: the input read, then the seed loop.  When
   * the input fails to read, the entries and seeds are empty and the
   * answer is the loop's start, seed 0 at location u64::MAX.
   */
  method Solve(content: string) returns (seedResult: nat, locationResult: nat)
    ensures Input(content).None? ==> seedResult == 0 && locationResult == U64Max
    ensures Input(content).Some? ==> (seedResult, locationResult) == Best(Input(content).value.0, Input(content).value.1)
  {
    var r := GetInput(content);
    var es: seq<Entry>, seeds: seq<nat> := [], [];
    if r.Some? {
      es, seeds := r.value.0, r.value.1;
    }
    seedResult, locationResult := Run(es, seeds);
  }
}
