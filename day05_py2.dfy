/**
 * py/05/prog_2.py: the integers after the ':' of the first line are read
 * in pairs "start length", each a range of seeds; each map's rules become a
 * `RicoMappingVector` whose vectors are sorted by source start as in
 * part 1 and then completed with identity vectors so that they reach from
 * 0 to `max_range_stop`; `get_mapped_range` cuts a range into the pieces
 * the vectors send it to; every seed range is sent through the maps, and
 * the script prints the lowest start of the location ranges.  Python
 * integers do not overflow; every IndexError the code can raise is
 * `Raised` here.
 */
module Day05Py2 {
  import opened Wrappers
  import opened Almanac
  import opened Day05Py
  import Day03Py
  import Day06Py1

  /** A seed's list `[seed_range, location_ranges]`, the ranges None until `process_all_seed_ranges` stores them. */
  datatype SeedEntry = SeedEntry(seeds: PyRange, locations: Option<seq<PyRange>>)

  /** The dict `raw_data_input_to_data_input` returns: the seed ranges, and the rules of each map (None when its key is absent). */
  datatype Data = Data(seeds: seq<SeedEntry>, maps: seq<Option<seq<Rule>>>)

  // ---------------------------------------------------------------- the seed ranges

  /** The seed ranges the integers stand for: a start, then a length; a last start without a length makes none. */
  function Pairs(xs: seq<int>): (r: seq<PyRange>)
    ensures |r| == |xs| / 2
    ensures forall k :: 0 <= k < |r| ==> r[k] == PyRange(xs[2 * k], xs[2 * k] + xs[2 * k + 1])
    decreases |xs|
  {
    if |xs| < 2 then []
    else
      var rest := Pairs(xs[2..]);
      assert forall k :: 0 <= k < |rest| ==> xs[2..][2 * k] == xs[2 * (k + 1)] && xs[2..][2 * k + 1] == xs[2 * (k + 1) + 1];
      [PyRange(xs[0], xs[0] + xs[1])] + rest
  }

  /** `[range, None]` for every range. */
  function Fresh(rs: seq<PyRange>): (r: seq<SeedEntry>)
    ensures |r| == |rs| && forall k :: 0 <= k < |rs| ==> r[k] == SeedEntry(rs[k], None)
  {
    seq(|rs|, k requires 0 <= k < |rs| => SeedEntry(rs[k], None))
  }

  /** The loop over the seeds line's integers: an even position holds a start, an odd one the length of the range from it. */
  method SeedRanges(xs: seq<int>) returns (seeds: seq<SeedEntry>)
    ensures seeds == Fresh(Pairs(xs))
  {
    seeds := [];
    var start := 0;
    for i := 0 to |xs|
      invariant |seeds| == i / 2
      invariant forall k :: 0 <= k < i / 2 ==> seeds[k] == SeedEntry(PyRange(xs[2 * k], xs[2 * k] + xs[2 * k + 1]), None)
      invariant i % 2 == 1 ==> start == xs[i - 1]
    {
      var tmp := xs[i];
      if i % 2 == 0 {
        start := tmp;
      } else {
        seeds := seeds + [SeedEntry(PyRange(start, start + tmp), None)];
      }
    }
  }

  /** `raw_data_input_to_data_input`, None where it raises. */
  function Parsed(lines: seq<string>): Option<Data> {
    match Day06Py1.Values(lines, 0)
    case None => None
    case Some(xs) =>
      match Maps(lines)
      case None => None
      case Some(ms) => Some(Data(Fresh(Pairs(xs)), ms))
  }

  /** `raw_data_input_to_data_input`: the seeds line, then the loop over the maps. */
  method RawToData(lines: seq<string>) returns (r: Option<Data>)
    ensures r == Parsed(lines)
  {
    var xs := Day06Py1.Values(lines, 0);
    if xs.None? {
      return None;
    }
    var seeds := SeedRanges(xs.value);
    var maps := ReadMaps(lines);
    if maps.None? {
      return None;
    }
    return Some(Data(seeds, maps.value));
  }

  // ---------------------------------------------------------------- the completed vectors

  /** `self.max_range_stop`: where the identity vector that ends every completed map stops. */
  const MaxRangeStop := 99999999999

  /** A vector dict sending every number of [a, b) to itself. */
  function Identity(a: int, b: int): Vector {
    Vector(PyRange(a, b), PyRange(a, b))
  }

  /** `list.insert(i, x)` at a position inside the list. */
  function Insert(l: seq<Vector>, i: nat, x: Vector): (r: seq<Vector>)
    requires i <= |l|
    ensures |r| == |l| + 1 && r[i] == x
    ensures 0 < i ==> r[0] == l[0]
    ensures i < |l| ==> r[|r| - 1] == l[|l| - 1]
  {
    l[..i] + [x] + l[i..]
  }

  /**
   * The first half of `complete_vectors_dicts`: an identity vector from 0
   * put in front when the first vector does not start at 0, and one from
   * the last vector's stop to `max` appended.
   */
  function Framed(vs: seq<Vector>, max: int): (r: seq<Vector>)
    requires vs != []
    ensures |r| >= 2 && r[0].src.start == 0 && r[|r| - 1].src.stop == max
  {
    var front := if vs[0].src.start != 0 then [Identity(0, vs[0].src.start)] + vs else vs;
    front + [Identity(front[|front| - 1].src.stop, max)]
  }

  /**
   * The gap loop of `complete_vectors_dicts` over the snapshot, up to
   * position k: where a snapshot vector does not start at the previous
   * one's stop, the identity vector of the gap is inserted at the
   * snapshot vector's own position in the snapshot.
   */
  function Filled(snap: seq<Vector>, k: nat): (r: seq<Vector>)
    requires 1 <= k <= |snap|
    ensures |r| >= |snap| && r[0] == snap[0] && r[|r| - 1] == snap[|snap| - 1]
    decreases k
  {
    if k == 1 then snap
    else
      var l := Filled(snap, k - 1);
      if snap[k - 2].src.stop != snap[k - 1].src.start then Insert(l, k - 1, Identity(snap[k - 2].src.stop, snap[k - 1].src.start))
      else l
  }

  /** `complete_vectors_dicts` on a list that is not empty. */
  function Completed(vs: seq<Vector>, max: int): (r: seq<Vector>)
    requires vs != []
  {
    var snap := Framed(vs, max);
    Filled(snap, |snap|)
  }

  /** The completed vectors start at 0 and end at `max`, with every vector kept and at least the end added. */
  lemma CompletedEnds(vs: seq<Vector>, max: int)
    requires vs != []
    ensures var r := Completed(vs, max); |r| > |vs| && r[0].src.start == 0 && r[|r| - 1].src.stop == max
  {
  }

  /** `RicoMappingVector`: the vector dicts of one map. */
  class RicoMappingVector {
    var maxRangeStop: int
    var vectors: seq<Vector>

    /** `__init__` up to the completion: every rule processed in turn. */
    constructor (rules: seq<Rule>)
      ensures maxRangeStop == MaxRangeStop && vectors == Built(rules)
    {
      maxRangeStop := MaxRangeStop;
      vectors := [];
      new;
      for i := 0 to |rules|
        invariant maxRangeStop == MaxRangeStop && vectors == Built(rules[..i])
      {
        var index := ProcessRule(rules[i]);
        assert rules[..i + 1][..i] == rules[..i];
      }
      assert rules[..|rules|] == rules;
    }

    /** `process_a_mapping_rule`, as in part 1. */
    method ProcessRule(rule: Rule) returns (index: int)
      modifies this
      ensures maxRangeStop == old(maxRangeStop) && vectors == Inserted(old(vectors), VectorOf(rule))
    {
      var r;
      r, index := InsertRule(vectors, rule);
      vectors := r;
    }

    /** `complete_vectors_dicts`; false where `self.vectors_dicts[0]` raises an IndexError, on a map without rules. */
    method CompleteVectorsDicts() returns (ok: bool)
      modifies this
      ensures maxRangeStop == old(maxRangeStop)
      ensures ok <==> old(vectors) != []
      ensures ok ==> vectors == Completed(old(vectors), maxRangeStop)
      ensures !ok ==> vectors == old(vectors)
    {
      if vectors == [] {
        return false;
      }
      if vectors[0].src.start != 0 {
        vectors := Insert(vectors, 0, Identity(0, vectors[0].src.start));
      }
      vectors := vectors + [Identity(vectors[|vectors| - 1].src.stop, maxRangeStop)];
      assert vectors == Framed(old(vectors), maxRangeStop);
      FillGaps();
      return true;
    }

    /** The gap loop of `complete_vectors_dicts`, over `src_vects_list`: the start, stop and index of every vector, taken before any gap is filled. */
    method FillGaps()
      requires vectors != []
      modifies this
      ensures maxRangeStop == old(maxRangeStop) && vectors == Filled(old(vectors), |old(vectors)|)
    {
      var snap := vectors;
      var previous := snap[0];
      for index := 0 to |snap|
        invariant maxRangeStop == old(maxRangeStop)
        invariant index == 0 ==> vectors == snap
        invariant index >= 1 ==> previous == snap[index - 1] && vectors == Filled(snap, index)
      {
        if index == 0 {
          previous := snap[index];
          continue;
        }
        if previous.src.stop != snap[index].src.start {
          vectors := Insert(vectors, index, Identity(previous.src.stop, snap[index].src.start));
        }
        previous := snap[index];
      }
    }
  }

  /** The completed vectors of every map, None when one of them has no rules. */
  function CompletedMaps(maps: seq<seq<Rule>>): Option<seq<seq<Vector>>> {
    if forall k :: 0 <= k < |maps| ==> maps[k] != [] then
      Some(seq(|maps|, k requires 0 <= k < |maps| => Completed(Built(maps[k]), MaxRangeStop)))
    else None
  }

  /** `create_all_mappingvectors` over the keys that exist, in their order; None where a map's completion raises. */
  method CreateAllMappingVectors(ms: seq<Option<seq<Rule>>>) returns (r: Option<seq<seq<Vector>>>)
    ensures r == CompletedMaps(Present(ms))
  {
    var maps := Present(ms);
    var vectors: seq<seq<Vector>> := [];
    for k := 0 to |maps|
      invariant |vectors| == k
      invariant forall j :: 0 <= j < k ==> maps[j] != [] && vectors[j] == Completed(Built(maps[j]), MaxRangeStop)
    {
      var mappingVector := new RicoMappingVector(maps[k]);
      var ok := mappingVector.CompleteVectorsDicts();
      if !ok {
        return None;
      }
      vectors := vectors + [mappingVector.vectors];
    }
    assert vectors == seq(|maps|, k requires 0 <= k < |maps| => Completed(Built(maps[k]), MaxRangeStop));
    return Some(vectors);
  }

  // ---------------------------------------------------------------- get_mapped_range

  /** The first vector from position `from` on whose source stop is above b. */
  function FirstAbove(vs: seq<Vector>, from: nat, b: int): (r: Option<nat>)
    ensures r.Some? ==> from <= r.value < |vs| && b < vs[r.value].src.stop
    ensures forall j :: from <= j < |vs| && (r.None? || j < r.value) ==> vs[j].src.stop <= b
    decreases |vs| - from
  {
    if from >= |vs| then None
    else if b < vs[from].src.stop then Some(from)
    else FirstAbove(vs, from + 1, b)
  }

  /**
   * `vector_dicts_index_list` after the search loop: the first vector whose
   * stop is above the range's start, twice when its stop is also above the
   * range's stop, else followed by the first later vector whose stop is
   * above the range's stop, if any.
   */
  function Bounds(vs: seq<Vector>, r: PyRange): (l: seq<nat>)
    ensures l == [] <==> forall j :: 0 <= j < |vs| ==> vs[j].src.stop <= r.start
    ensures forall k :: 0 <= k < |l| ==> l[0] <= l[k] <= l[|l| - 1] < |vs|
  {
    match FirstAbove(vs, 0, r.start)
    case None => []
    case Some(i) =>
      if r.stop < vs[i].src.stop then [i, i]
      else
        match FirstAbove(vs, i + 1, r.stop)
        case None => [i]
        case Some(j) => [i, j]
  }

  /** The search loop of `get_mapped_range`: the range's start is compared until a vector is found, then its stop. */
  method SearchBounds(r: PyRange, vs: seq<Vector>) returns (list: seq<nat>)
    ensures list == Bounds(vs, r)
  {
    list := [];
    var found := false;
    var bound := r.start;
    ghost var first: nat := 0;
    for index := 0 to |vs|
      invariant !found ==> list == [] && bound == r.start && FirstAbove(vs, 0, r.start) == FirstAbove(vs, index, r.start)
      invariant found ==> && bound == r.stop && first < index && list == [first]
                          && FirstAbove(vs, 0, r.start) == Some(first) && vs[first].src.stop <= r.stop
                          && FirstAbove(vs, first + 1, r.stop) == FirstAbove(vs, index, r.stop)
    {
      if bound < vs[index].src.stop {
        list := list + [index];
        if !found {
          found := true;
          bound := r.stop;
          first := index;
          if bound < vs[index].src.stop {
            list := list + [index];
            break;
          }
        } else {
          break;
        }
      }
    }
  }

  /** `range(dst[bot], dst[top])` of a vector, None where an index raises. */
  function Piece(v: Vector, bot: int, top: int): Option<PyRange> {
    match (At(v.dst, bot), At(v.dst, top))
    case (Some(a), Some(b)) => Some(PyRange(a, b))
    case _ => None
  }

  /**
   * The p-th piece for the run of vectors lo..hi: the first is cut at the
   * range's start, the last at its stop less one, each an index into the
   * vector's destination range.
   */
  function PieceAt(vs: seq<Vector>, r: PyRange, lo: nat, hi: nat, p: nat): Option<PyRange>
    requires lo + p <= hi < |vs|
  {
    Piece(vs[lo + p], Bot(vs, r, lo, p), Top(vs, r, lo, hi, p))
  }

  /** `bot` for the p-th vector of the run: the range's offset into the first vector, 0 in the others. */
  function Bot(vs: seq<Vector>, r: PyRange, lo: nat, p: nat): int
    requires lo + p < |vs|
  {
    if p == 0 then r.start - vs[lo].src.start else 0
  }

  /** `top` for the p-th vector of the run: the offset of the range's stop less one in the last vector, the last offset in the others. */
  function Top(vs: seq<Vector>, r: PyRange, lo: nat, hi: nat, p: nat): int
    requires lo + p <= hi < |vs|
  {
    var v := vs[lo + p];
    if p == hi - lo then r.stop - v.src.start - 1 else v.src.stop - v.src.start - 1
  }

  /** The pieces of the range from the p-th vector of the run on, after those already in `acc`; None where one raises. */
  function PiecesFrom(vs: seq<Vector>, r: PyRange, lo: nat, hi: nat, p: nat, acc: seq<PyRange>): (res: Option<seq<PyRange>>)
    requires lo <= hi < |vs|
    decreases hi - lo + 1 - p
  {
    if p > hi - lo then Some(acc)
    else match PieceAt(vs, r, lo, hi, p)
      case None => None
      case Some(piece) => PiecesFrom(vs, r, lo, hi, p + 1, acc + [piece])
  }

  /** What `get_mapped_range` returns, None where it raises: no vector found, or an index outside a destination range. */
  function MappedRange(vs: seq<Vector>, r: PyRange): Option<seq<PyRange>> {
    var l := Bounds(vs, r);
    if l == [] then None else PiecesFrom(vs, r, l[0], l[|l| - 1], 0, [])
  }

  /** The pieces from the p-th on are appended to `acc`, piece q of the run at its place after them. */
  lemma {:induction false} PiecesFromAt(vs: seq<Vector>, r: PyRange, lo: nat, hi: nat, p: nat, acc: seq<PyRange>)
    requires lo <= hi < |vs| && p <= hi - lo + 1
    requires PiecesFrom(vs, r, lo, hi, p, acc).Some?
    ensures var res := PiecesFrom(vs, r, lo, hi, p, acc).value;
      && |res| == |acc| + (hi - lo + 1 - p) && res[..|acc|] == acc
      && forall q :: p <= q <= hi - lo ==> PieceAt(vs, r, lo, hi, q) == Some(res[|acc| + q - p])
    decreases hi - lo + 1 - p
  {
    if p <= hi - lo {
      var piece := PieceAt(vs, r, lo, hi, p).value;
      PiecesFromAt(vs, r, lo, hi, p + 1, acc + [piece]);
      var res := PiecesFrom(vs, r, lo, hi, p, acc).value;
      assert res[..|acc| + 1] == acc + [piece];
      assert res[..|acc|] == (acc + [piece])[..|acc|];
    }
  }

  /** A piece whose two indices lie inside the destination starts at `dst.start + bot` and stops at `dst.start + top`. */
  lemma PieceInRange(v: Vector, bot: int, top: int)
    requires 0 <= bot < Len(v.dst) && 0 <= top < Len(v.dst)
    ensures Piece(v, bot, top) == Some(PyRange(v.dst.start + bot, v.dst.start + top))
  {
  }

  /** Pieces of the run lo..hi of vectors: one per vector, the p-th the given piece when its indices lie inside. */
  predicate RunPieces(vs: seq<Vector>, r: PyRange, lo: nat, hi: nat, ps: seq<PyRange>)
    requires lo <= hi < |vs|
  {
    && |ps| == hi - lo + 1
    && (0 <= r.start - vs[lo].src.start < Len(vs[lo].dst) ==> ps[0].start == vs[lo].dst.start + (r.start - vs[lo].src.start))
    && forall p :: 0 <= p < |ps| ==>
         var v, bot, top := vs[lo + p], Bot(vs, r, lo, p), Top(vs, r, lo, hi, p);
         0 <= bot < Len(v.dst) && 0 <= top < Len(v.dst) ==>
           ps[p] == PyRange(v.dst.start + bot, v.dst.start + top) && ps[p].stop - ps[p].start == top - bot
  }

  /** The pieces PiecesFrom gives for a run are its RunPieces. */
  lemma PiecesOfRun(vs: seq<Vector>, r: PyRange, lo: nat, hi: nat, ps: seq<PyRange>)
    requires lo <= hi < |vs| && PiecesFrom(vs, r, lo, hi, 0, []) == Some(ps)
    ensures RunPieces(vs, r, lo, hi, ps)
  {
    PiecesFromAt(vs, r, lo, hi, 0, []);
    if 0 <= r.start - vs[lo].src.start < Len(vs[lo].dst) {
      assert PieceAt(vs, r, lo, hi, 0) == Some(ps[0]);
    }
    forall p | 0 <= p < |ps| && 0 <= Bot(vs, r, lo, p) < Len(vs[lo + p].dst) && 0 <= Top(vs, r, lo, hi, p) < Len(vs[lo + p].dst)
      ensures ps[p] == PyRange(vs[lo + p].dst.start + Bot(vs, r, lo, p), vs[lo + p].dst.start + Top(vs, r, lo, hi, p))
    {
      assert PieceAt(vs, r, lo, hi, p) == Some(ps[p]);
      PieceInRange(vs[lo + p], Bot(vs, r, lo, p), Top(vs, r, lo, hi, p));
    }
  }

  /**
   * What a `get_mapped_range` that does not raise returns, for the run
   * lo..hi of vectors the search found: one piece per vector of the run, in
   * order; the first starts at `dst.start + (range.start - src.start)`; and
   * the p-th, with `bot` and `top` inside its vector's destination, is
   * `range(dst.start + bot, dst.start + top)`, so it holds top - bot
   * numbers, one fewer than the source interval src.start + bot ..
   * src.start + top it stands for.
   */
  lemma MappedRangeShape(vs: seq<Vector>, r: PyRange)
    requires MappedRange(vs, r).Some?
    ensures var l := Bounds(vs, r);
      l != [] && l[0] <= l[|l| - 1] < |vs| && RunPieces(vs, r, l[0], l[|l| - 1], MappedRange(vs, r).value)
  {
    var l := Bounds(vs, r);
    PiecesOfRun(vs, r, l[0], l[|l| - 1], MappedRange(vs, r).value);
  }

  /** `get_mapped_range`. */
  method GetMappedRange(r: PyRange, vs: seq<Vector>) returns (result: Option<seq<PyRange>>)
    ensures result == MappedRange(vs, r)
  {
    var list := SearchBounds(r, vs);
    // `list(set(...))` and `sort()` keep the distinct indices in ascending
    // order; the list is already ascending (Bounds), so its first and last
    // members are those of the sorted list.  An empty list raises here.
    if |list| == 0 {
      return None;
    }
    var lo, hi := list[0], list[|list| - 1];
    var pieces := [];
    for p := 0 to hi - lo + 1
      invariant MappedRange(vs, r) == PiecesFrom(vs, r, lo, hi, p, pieces)
    {
      var v := vs[lo + p];
      var bot := 0;
      var top := v.src.stop - v.src.start - 1;
      if p == 0 {
        bot := r.start - v.src.start;
      }
      if p == hi - lo {
        top := r.stop - v.src.start - 1;
      }
      var a := At(v.dst, bot);
      var b := At(v.dst, top);
      if a.None? || b.None? {
        return None;
      }
      pieces := pieces + [PyRange(a.value, b.value)];
    }
    return Some(pieces);
  }

  // ---------------------------------------------------------------- process_all_seed_ranges

  /** The pieces of the ranges one map makes, after those already in `acc`: `tmp_obj_ranges += get_mapped_range(...)`. */
  function MapAll(vs: seq<Vector>, rs: seq<PyRange>, acc: seq<PyRange>): Option<seq<PyRange>>
    decreases |rs|
  {
    if rs == [] then Some(acc)
    else match MappedRange(vs, rs[0])
      case None => None
      case Some(pieces) => MapAll(vs, rs[1..], acc + pieces)
  }

  /** The ranges the maps, in turn, make of the given ranges; None where one raises. */
  function Spread(maps: seq<seq<Vector>>, rs: seq<PyRange>): Option<seq<PyRange>>
    decreases |maps|
  {
    if maps == [] then Some(rs)
    else match MapAll(maps[0], rs, [])
      case None => None
      case Some(next) => Spread(maps[1..], next)
  }

  /** The inner loop over the ranges of one map. */
  method MapRanges(objectRanges: seq<PyRange>, vs: seq<Vector>) returns (r: Option<seq<PyRange>>)
    ensures r == MapAll(vs, objectRanges, [])
  {
    var tmp := [];
    for k := 0 to |objectRanges|
      invariant MapAll(vs, objectRanges, []) == MapAll(vs, objectRanges[k..], tmp)
    {
      assert objectRanges[k..][1..] == objectRanges[k + 1..];
      var pieces := GetMappedRange(objectRanges[k], vs);
      if pieces.None? {
        return None;
      }
      tmp := tmp + pieces.value;
    }
    return Some(tmp);
  }

  /** The loop over the keys for one seed range. */
  method LocateRange(seedRange: PyRange, maps: seq<seq<Vector>>) returns (r: Option<seq<PyRange>>)
    ensures r == Spread(maps, [seedRange])
  {
    var objectRanges := [seedRange];
    for m := 0 to |maps|
      invariant Spread(maps, [seedRange]) == Spread(maps[m..], objectRanges)
    {
      assert maps[m..][1..] == maps[m + 1..];
      var next := MapRanges(objectRanges, maps[m]);
      if next.None? {
        return None;
      }
      objectRanges := next.value;
    }
    assert maps[|maps|..] == [];
    return Some(objectRanges);
  }

  /** The seeds' lists once every seed range was sent through the maps. */
  function Processed(es: seq<SeedEntry>, maps: seq<seq<Vector>>): (r: seq<SeedEntry>)
    ensures |r| == |es| && forall k :: 0 <= k < |es| ==> r[k].seeds == es[k].seeds
  {
    seq(|es|, k requires 0 <= k < |es| => SeedEntry(es[k].seeds, Spread(maps, [es[k].seeds])))
  }

  /** `process_all_seed_ranges`: every seed's location ranges stored in its list; false where a seed's ranges raise. */
  method ProcessAllSeedRanges(seeds: array<SeedEntry>, maps: seq<seq<Vector>>) returns (ok: bool)
    modifies seeds
    ensures ok <==> forall k :: 0 <= k < seeds.Length ==> Spread(maps, [old(seeds[k]).seeds]).Some?
    ensures ok ==> seeds[..] == Processed(old(seeds[..]), maps)
  {
    for k := 0 to seeds.Length
      invariant forall j :: 0 <= j < k ==> seeds[j] == SeedEntry(old(seeds[j]).seeds, Spread(maps, [old(seeds[j]).seeds]))
      invariant forall j :: 0 <= j < k ==> Spread(maps, [old(seeds[j]).seeds]).Some?
      invariant forall j :: k <= j < seeds.Length ==> seeds[j] == old(seeds[j])
    {
      var ranges := LocateRange(seeds[k].seeds, maps);
      if ranges.None? {
        return false;
      }
      seeds[k] := SeedEntry(seeds[k].seeds, ranges);
    }
    return true;
  }

  // ---------------------------------------------------------------- the result

  /** The starts of a list of ranges. */
  function StartsOf(rs: seq<PyRange>): (r: seq<int>)
    ensures |r| == |rs| && forall k :: 0 <= k < |rs| ==> r[k] == rs[k].start
  {
    seq(|rs|, k requires 0 <= k < |rs| => rs[k].start)
  }

  /** The starts of every location range of the seeds, seed after seed. */
  function Starts(es: seq<SeedEntry>): seq<int>
    requires forall k :: 0 <= k < |es| ==> es[k].locations.Some?
    decreases |es|
  {
    if es == [] then [] else Starts(es[..|es| - 1]) + StartsOf(es[|es| - 1].locations.value)
  }

  /** One range more: its start compared with the lowest so far. */
  lemma LowestStep(before: seq<int>, rs: seq<PyRange>, j: nat)
    requires j < |rs|
    ensures var low := Lowest(before + StartsOf(rs[..j]));
      Lowest(before + StartsOf(rs[..j + 1])) == if low.None? || low.value > rs[j].start then Some(rs[j].start) else low
  {
    LowestSnoc(before + StartsOf(rs[..j]), rs[j].start);
    assert before + StartsOf(rs[..j + 1]) == before + StartsOf(rs[..j]) + [rs[j].start];
  }

  /** The inner one of the final loops, over one seed's location ranges, after the starts `before` gave `result`. */
  method LowestAmong(result: Option<int>, rs: seq<PyRange>, ghost before: seq<int>) returns (r: Option<int>)
    requires result == Lowest(before)
    ensures r == Lowest(before + StartsOf(rs))
  {
    r := result;
    assert before + StartsOf(rs[..0]) == before;
    for j := 0 to |rs|
      invariant r == Lowest(before + StartsOf(rs[..j]))
    {
      LowestStep(before, rs, j);
      if r.None? {
        r := Some(rs[j].start);
      } else if r.value > rs[j].start {
        r := Some(rs[j].start);
      }
    }
    assert rs[..|rs|] == rs;
  }

  /** The final loops: the first start, then every strictly lower one. */
  method LowestStart(seeds: array<SeedEntry>) returns (result: Option<int>)
    requires forall k :: 0 <= k < seeds.Length ==> seeds[k].locations.Some?
    ensures result == Lowest(Starts(seeds[..]))
  {
    result := None;
    for k := 0 to seeds.Length
      invariant result == Lowest(Starts(seeds[..k]))
    {
      result := LowestAmong(result, seeds[k].locations.value, Starts(seeds[..k]));
      assert seeds[..k + 1][..k] == seeds[..k];
    }
    assert seeds[..seeds.Length] == seeds[..];
  }

  /** What the script prints once the vectors are built: the lowest start of all location ranges, or that a seed's ranges raised. */
  function Printout(es: seq<SeedEntry>, maps: seq<seq<Vector>>): Outcome {
    var p := Processed(es, maps);
    if forall k :: 0 <= k < |p| ==> p[k].locations.Some? then Printed(Lowest(Starts(p))) else Raised
  }

  /** What the script prints for a file's lines. */
  function Answer(fileLines: seq<string>): Outcome {
    match Parsed(Day03Py.Loaded(fileLines))
    case None => Raised
    case Some(d) =>
      match CompletedMaps(Present(d.maps))
      case None => Raised
      case Some(maps) => Printout(d.seeds, maps)
  }

  /** The seeds' lists, their ranges located by `process_all_seed_ranges`, and the final loops over them. */
  method LowestOfSeeds(entries: seq<SeedEntry>, maps: seq<seq<Vector>>) returns (r: Outcome)
    ensures r == Printout(entries, maps)
  {
    var seeds := new SeedEntry[|entries|](k requires 0 <= k < |entries| => entries[k]);
    assert seeds[..] == entries;
    var ok := ProcessAllSeedRanges(seeds, maps);
    if !ok {
      return Raised;
    }
    var result := LowestStart(seeds);
    return Printed(result);
  }

  /** The script: the file loaded and parsed, the vectors built and completed, the seed ranges located, the lowest start found. */
  method Run(fileLines: seq<string>) returns (r: Outcome)
    ensures r == Answer(fileLines)
  {
    var lines := Day03Py.LoadInput(fileLines);
    assert lines == Day03Py.Loaded(fileLines);
    var data := RawToData(lines);
    if data.None? {
      return Raised;
    }
    var maps := CreateAllMappingVectors(data.value.maps);
    if maps.None? {
      return Raised;
    }
    r := LowestOfSeeds(data.value.seeds, maps.value);
  }
}
