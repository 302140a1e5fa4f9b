/**
 * 05/prog_1.py: the seeds are the integers after the ':' of the first
 * line; each map's rules become a `RicoMappingVector`, whose vectors the
 * rules are inserted into in ascending order of their source starts;
 * `get_mapped_object_id` sends a number through the first vector whose
 * source range holds it; `process_all_seeds` sends every seed through the
 * maps in the order of the dict's keys and stores its location; the
 * script prints the lowest location, None when there are no seeds.
 * Python integers do not overflow.
 */
module Day05Py1 {
  import opened Wrappers
  import opened Text
  import opened Almanac
  import opened Day05Py
  import Day03Py
  import Day06Py1

  /** A seed's list `[seed_id, location_id]`, the location None until `process_all_seeds` stores it. */
  datatype SeedEntry = SeedEntry(id: int, location: Option<int>)

  /** The dict `raw_data_input_to_data_input` returns: the seeds, and the rules of each map (None when its key is absent). */
  datatype Data = Data(seeds: seq<SeedEntry>, maps: seq<Option<seq<Rule>>>)

  /** `[[int(x), None] for x in ...]`. */
  function Fresh(ids: seq<int>): (r: seq<SeedEntry>)
    ensures |r| == |ids| && forall k :: 0 <= k < |ids| ==> r[k] == SeedEntry(ids[k], None)
  {
    seq(|ids|, k requires 0 <= k < |ids| => SeedEntry(ids[k], None))
  }

  /** `raw_data_input_to_data_input`, None where it raises. */
  function Parsed(lines: seq<string>): Option<Data> {
    match Day06Py1.Values(lines, 0)
    case None => None
    case Some(ids) =>
      match Maps(lines)
      case None => None
      case Some(ms) => Some(Data(Fresh(ids), ms))
  }

  /** `raw_data_input_to_data_input`: the seeds line, then the loop over the maps. */
  method RawToData(lines: seq<string>) returns (r: Option<Data>)
    ensures r == Parsed(lines)
  {
    var ids := Day06Py1.Values(lines, 0);
    if ids.None? {
      return None;
    }
    var maps := ReadMaps(lines);
    if maps.None? {
      return None;
    }
    return Some(Data(Fresh(ids.value), maps.value));
  }

  /** `RicoMappingVector`: the vector dicts of one map, ascending by source start. */
  class RicoMappingVector {
    var vectors: seq<Vector>

    /** `__init__`: every rule processed in turn. */
    constructor (rules: seq<Rule>)
      ensures vectors == Built(rules)
    {
      vectors := [];
      new;
      for i := 0 to |rules|
        invariant vectors == Built(rules[..i])
      {
        var index := ProcessRule(rules[i]);
        assert rules[..i + 1][..i] == rules[..i];
      }
      assert rules[..|rules|] == rules;
    }

    /** `process_a_mapping_rule`: the rule's vector placed before the first vector not starting below it. */
    method ProcessRule(rule: Rule) returns (index: int)
      modifies this
      ensures vectors == Inserted(old(vectors), VectorOf(rule))
    {
      var r;
      r, index := InsertRule(vectors, rule);
      vectors := r;
    }
  }

  /** The vectors of a map of the given rules. */
  function Vectors(maps: seq<seq<Rule>>): (r: seq<seq<Vector>>)
    ensures |r| == |maps| && forall k :: 0 <= k < |maps| ==> r[k] == Built(maps[k])
  {
    seq(|maps|, k requires 0 <= k < |maps| => Built(maps[k]))
  }

  /** One map more gives one list of vectors more. */
  lemma VectorsSnoc(maps: seq<seq<Rule>>, m: seq<Rule>)
    ensures Vectors(maps + [m]) == Vectors(maps) + [Built(m)]
  {
  }

  /** `create_all_mappingvectors`: one `RicoMappingVector` per key that exists, its vectors stored under the key. */
  method CreateAllMappingVectors(ms: seq<Option<seq<Rule>>>) returns (vectors: seq<seq<Vector>>)
    ensures vectors == Vectors(Present(ms))
  {
    vectors := [];
    for k := 0 to |ms|
      invariant vectors == Vectors(Present(ms[..k]))
    {
      assert ms[..k + 1][..k] == ms[..k];
      if ms[k].Some? {
        var mappingVector := new RicoMappingVector(ms[k].value);
        vectors := vectors + [mappingVector.vectors];
        VectorsSnoc(Present(ms[..k]), ms[k].value);
      }
    }
    assert ms[..|ms|] == ms;
  }

  /** A vector holds x: `vect_dict["src"].start <= object_id < vect_dict["src"].stop`. */
  predicate Holds(v: Vector, x: int) { v.src.start <= x < v.src.stop }

  /** The source and destination ranges of every vector have the same length, as the class builds them. */
  predicate SameLengths(vs: seq<Vector>) {
    forall k :: 0 <= k < |vs| ==> Len(vs[k].src) == Len(vs[k].dst)
  }

  /** What `get_mapped_object_id` returns: `dst[x - src.start]` of the first vector holding x, x itself if none. */
  function MappedId(vs: seq<Vector>, x: int): int
    decreases |vs|
  {
    if vs == [] then x
    else if Holds(vs[0], x) then vs[0].dst.start + (x - vs[0].src.start)
    else MappedId(vs[1..], x)
  }

  /** A vector list maps numbers as the map of the rules it stands for. */
  lemma {:induction false} MappedConvert(vs: seq<Vector>, x: int)
    ensures MappedId(vs, x) == Convert(RulesOf(vs), x)
    decreases |vs|
  {
    if vs != [] {
      assert RulesOf(vs)[1..] == RulesOf(vs[1..]);
      assert Covers(RulesOf(vs)[0], x) == Holds(vs[0], x);
      MappedConvert(vs[1..], x);
    }
  }

  /** The vectors of a map of consistent rules send every number where the map sends it. */
  lemma BuiltMapped(rules: seq<Rule>, x: int)
    requires Consistent(rules)
    ensures MappedId(Built(rules), x) == Convert(rules, x)
  {
    MappedConvert(Built(rules), x);
    BuiltConvert(rules, x);
  }

  /** `get_mapped_object_id`: the loop over the vectors, returning at the first that holds the number. */
  method GetMappedObjectId(objectId: int, vs: seq<Vector>) returns (r: int)
    requires SameLengths(vs)
    ensures r == MappedId(vs, objectId)
  {
    for k := 0 to |vs|
      invariant MappedId(vs, objectId) == MappedId(vs[k..], objectId)
    {
      assert vs[k..][1..] == vs[k + 1..];
      if vs[k].src.start <= objectId < vs[k].src.stop {
        var mappIndex := objectId - vs[k].src.start;
        var y := At(vs[k].dst, mappIndex);
        return y.value;
      }
    }
    return objectId;
  }

  /** Where the maps, in turn, send x. */
  function Located(maps: seq<seq<Vector>>, x: int): int
    decreases |maps|
  {
    if maps == [] then x else MappedId(maps[|maps| - 1], Located(maps[..|maps| - 1], x))
  }

  /** The maps of vectors built from consistent rules send every seed where the maps of the rules do. */
  lemma {:induction false} LocatedThrough(maps: seq<seq<Rule>>, x: int)
    requires forall k :: 0 <= k < |maps| ==> Consistent(maps[k])
    ensures Located(Vectors(maps), x) == Through(maps, x)
    decreases |maps|
  {
    if maps != [] {
      var init := maps[..|maps| - 1];
      var last := maps[|maps| - 1];
      assert Vectors(maps)[..|maps| - 1] == Vectors(init);
      LocatedThrough(init, x);
      BuiltMapped(last, Through(init, x));
      ThroughLast(init, last, x);
      assert maps == init + [last];
    }
  }

  /** Every map's vectors have matching lengths. */
  predicate AllSameLengths(maps: seq<seq<Vector>>) {
    forall m :: 0 <= m < |maps| ==> SameLengths(maps[m])
  }

  /** The class builds its vectors with matching lengths. */
  lemma {:induction false} BuiltSameLengths(rules: seq<Rule>)
    ensures SameLengths(Built(rules))
    decreases |rules|
  {
    if rules != [] {
      var vs := Built(rules[..|rules| - 1]);
      BuiltSameLengths(rules[..|rules| - 1]);
      var v := VectorOf(rules[|rules| - 1]);
      var p := Place(vs, v.src.start);
      var r := vs[..p] + [v] + vs[p..];
      forall k | 0 <= k < |r| ensures Len(r[k].src) == Len(r[k].dst) {
        if k < p {
          assert r[k] == vs[k];
        } else if k > p {
          assert r[k] == vs[k - 1];
        }
      }
    }
  }

  /** The location of one seed: the inner loop over the keys of the dict. */
  method Locate(seedId: int, maps: seq<seq<Vector>>) returns (objectId: int)
    requires AllSameLengths(maps)
    ensures objectId == Located(maps, seedId)
  {
    objectId := seedId;
    for m := 0 to |maps|
      invariant objectId == Located(maps[..m], seedId)
    {
      assert maps[..m + 1][..m] == maps[..m];
      objectId := GetMappedObjectId(objectId, maps[m]);
    }
    assert maps[..|maps|] == maps;
  }

  /** `process_all_seeds`: every seed's location stored in its list; the seeds themselves stay. */
  method ProcessAllSeeds(seeds: array<SeedEntry>, maps: seq<seq<Vector>>)
    requires AllSameLengths(maps)
    modifies seeds
    ensures forall k :: 0 <= k < seeds.Length ==> seeds[k] == SeedEntry(old(seeds[k]).id, Some(Located(maps, old(seeds[k]).id)))
  {
    for k := 0 to seeds.Length
      invariant forall j :: 0 <= j < k ==> seeds[j] == SeedEntry(old(seeds[j]).id, Some(Located(maps, old(seeds[j]).id)))
      invariant forall j :: k <= j < seeds.Length ==> seeds[j] == old(seeds[j])
    {
      var objectId := Locate(seeds[k].id, maps);
      seeds[k] := SeedEntry(seeds[k].id, Some(objectId));
    }
  }

  /** The locations stored in the seeds' lists. */
  function Locations(seeds: seq<SeedEntry>): (r: seq<int>)
    requires forall k :: 0 <= k < |seeds| ==> seeds[k].location.Some?
    ensures |r| == |seeds|
  {
    seq(|seeds|, k requires 0 <= k < |seeds| => seeds[k].location.value)
  }

  /** The final loop: the first location, then every strictly lower one. */
  method LowestLocation(seeds: array<SeedEntry>) returns (result: Option<int>)
    requires forall k :: 0 <= k < seeds.Length ==> seeds[k].location.Some?
    ensures result == Lowest(Locations(seeds[..]))
  {
    ghost var xs := Locations(seeds[..]);
    result := None;
    for k := 0 to seeds.Length
      invariant result.None? <==> k == 0
      invariant result.Some? ==> result.value in xs[..k] && forall j :: 0 <= j < k ==> result.value <= xs[j]
    {
      var location := seeds[k].location.value;
      assert location == xs[k];
      if result.None? {
        result := Some(location);
      } else if result.value > location {
        result := Some(location);
      }
    }
    assert xs[..seeds.Length] == xs;
    LowestUnique(xs, result);
  }

  /** The location of every seed, by the given maps. */
  function SeedsLocated(seeds: seq<SeedEntry>, maps: seq<seq<Vector>>): (r: seq<int>)
    ensures |r| == |seeds|
  {
    seq(|seeds|, k requires 0 <= k < |seeds| => Located(maps, seeds[k].id))
  }

  /** The location of every seed, by the maps whose keys exist. */
  function SeedLocations(d: Data): (r: seq<int>)
    ensures |r| == |d.seeds|
  {
    SeedsLocated(d.seeds, Vectors(Present(d.maps)))
  }

  /** What the script prints for a file's lines. */
  function Answer(fileLines: seq<string>): Outcome {
    match Parsed(Day03Py.Loaded(fileLines))
    case None => Raised
    case Some(d) => Printed(Lowest(SeedLocations(d)))
  }

  /** The vectors of every map that exists have matching lengths. */
  lemma VectorsSameLengths(ms: seq<Option<seq<Rule>>>)
    ensures AllSameLengths(Vectors(Present(ms)))
  {
    forall m | 0 <= m < |Present(ms)| ensures SameLengths(Vectors(Present(ms))[m]) {
      BuiltSameLengths(Present(ms)[m]);
    }
  }

  /** The seeds' lists, located by `process_all_seeds`, and the final loop over them. */
  method LowestOfSeeds(entries: seq<SeedEntry>, maps: seq<seq<Vector>>) returns (result: Option<int>)
    requires AllSameLengths(maps)
    ensures result == Lowest(SeedsLocated(entries, maps))
  {
    var seeds := new SeedEntry[|entries|](k requires 0 <= k < |entries| => entries[k]);
    ProcessAllSeeds(seeds, maps);
    result := LowestLocation(seeds);
    assert Locations(seeds[..]) == SeedsLocated(entries, maps);
  }

  /** The script: the file loaded and parsed, the vectors built, the seeds located, the lowest location found. */
  method Run(fileLines: seq<string>) returns (r: Outcome)
    ensures r == Answer(fileLines)
  {
    var lines := Day03Py.LoadInput(fileLines);
    assert lines == Day03Py.Loaded(fileLines);
    var data := RawToData(lines);
    if data.None? {
      return Raised;
    }
    var maps := CreateAllMappingVectors(data.value.maps);
    VectorsSameLengths(data.value.maps);
    var result := LowestOfSeeds(data.value.seeds, maps);
    return Printed(result);
  }

  /**
   * The script answers the puzzle: with the rules of every map consistent,
   * it prints the lowest of the seeds' locations under the maps that
   * exist, applied in the order of the names, and None without seeds.
   */
  lemma AnswerLowest(fileLines: seq<string>)
    requires Parsed(Day03Py.Loaded(fileLines)).Some?
    requires var d := Parsed(Day03Py.Loaded(fileLines)).value;
      forall m :: 0 <= m < |Present(d.maps)| ==> Consistent(Present(d.maps)[m])
    ensures var d := Parsed(Day03Py.Loaded(fileLines)).value;
      var maps := Present(d.maps);
      match Answer(fileLines)
      case Raised => false
      case Printed(result) =>
        && (result.None? <==> d.seeds == [])
        && (result.Some? ==>
              (exists k :: 0 <= k < |d.seeds| && result.value == Through(maps, d.seeds[k].id))
              && forall k :: 0 <= k < |d.seeds| ==> result.value <= Through(maps, d.seeds[k].id))
  {
    var d := Parsed(Day03Py.Loaded(fileLines)).value;
    var locs := SeedLocations(d);
    forall k | 0 <= k < |d.seeds| ensures locs[k] == Through(Present(d.maps), d.seeds[k].id) {
      LocatedThrough(Present(d.maps), d.seeds[k].id);
    }
  }
}
