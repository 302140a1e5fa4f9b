/**
 * rust/d06_1: `get_input` gathers the `u16` values of every "Time:" line
 * and of every "Distance:" line and zips them into races;
 * `process_boat_races` counts the holds that beat a race's record; main
 * prints the product of the counts other than 0.  The arithmetic is that
 * of a debug build: an overflow panics.
 */
module Day06Rust1 {
  import opened Wrappers
  import opened Text
  import opened BoatRace
  import Scratchcards

  const U16Max: nat := 0xFFFF

  /** `BoatRace`: the race's id, its time and its record distance. */
  datatype Race = Race(id: nat, time: nat, recordDistance: nat)

  /** How main ends: the result printed, the error of `get_input`, or a panic on an overflow. */
  datatype Outcome = Printed(result: nat) | InputError | Panic

  /** The values on a line after its name, None at the first token that is no `u16`. */
  function LineValues(line: string, name: string): Option<seq<nat>>
    requires |name| > 0
  {
    var tokens := SplitWhitespace(Trim(Replace(line, name, "")));
    Gathered(seq(|tokens|, k requires 0 <= k < |tokens| => ParseUnsigned(tokens[k], U16Max)))
  }

  /**
   * One line of the parse: a line holding "Time:" adds its values to the
   * times, else one holding "Distance:" adds them to the records; any
   * other line is skipped.
   */
  function Scan(acc: (seq<nat>, seq<nat>), line: string): Option<(seq<nat>, seq<nat>)> {
    if Contains(line, "Time:") then
      match LineValues(line, "Time:")
      case None => None
      case Some(vs) => Some((acc.0 + vs, acc.1))
    else if Contains(line, "Distance:") then
      match LineValues(line, "Distance:")
      case None => None
      case Some(vs) => Some((acc.0, acc.1 + vs))
    else Some(acc)
  }

  /** The times and the records of the lines, in order. */
  function Scanned(lines: seq<string>): Option<(seq<nat>, seq<nat>)> {
    if lines == [] then Some(([], []))
    else match Scanned(lines[..|lines| - 1])
      case None => None
      case Some(acc) => Scan(acc, lines[|lines| - 1])
  }

  /** The races: the k-th time with the k-th record and the id k, as many as the shorter list has values. */
  function Races(times: seq<nat>, records: seq<nat>): (r: seq<Race>)
    ensures |r| == if |times| <= |records| then |times| else |records|
    ensures forall k :: 0 <= k < |r| ==> r[k] == Race(k, times[k], records[k])
  {
    var n := if |times| <= |records| then |times| else |records|;
    seq(n, k requires 0 <= k < n => Race(k, times[k], records[k]))
  }

  /** `get_input` once the file is read. */
  function Input(content: string): Option<seq<Race>> {
    match Scanned(Split(content, '\n'))
    case None => None
    case Some(acc) => Some(Races(acc.0, acc.1))
  }

  /** A line that does not parse ends the parse: no later line changes that. */
  lemma {:induction false} ScannedFails(lines: seq<string>, n: nat)
    requires n <= |lines| && Scanned(lines[..n]).None?
    ensures Scanned(lines).None?
    decreases |lines| - n
  {
    if n == |lines| {
      assert lines[..n] == lines;
    } else {
      var front := lines[..|lines| - 1];
      assert front[..n] == lines[..n];
      ScannedFails(front, n);
    }
  }

  /** The loop over the tokens of a line: every one parsed as a `u16`, or the first error. */
  method ReadValues(line: string, name: string) returns (r: Option<seq<nat>>)
    requires |name| > 0
    ensures r == LineValues(line, name)
  {
    var tokens := SplitWhitespace(Trim(Replace(line, name, "")));
    ghost var xs := seq(|tokens|, k requires 0 <= k < |tokens| => ParseUnsigned(tokens[k], U16Max));
    var values: seq<nat> := [];
    for t := 0 to |tokens|
      invariant |values| == t
      invariant forall k :: 0 <= k < t ==> xs[k] == Some(values[k])
    {
      var val := ParseUnsigned(tokens[t], U16Max);
      assert xs[t] == val;
      if val.None? {
        GatheredNone(xs, t);
        return None;
      }
      GatheredStep(xs, values, val.value);
      values := values + [val.value];
    }
    GatheredAll(xs, values);
    return Some(values);
  }

  /** The zip of the times with the records, with ids 0, 1, ... */
  method Zip(times: seq<nat>, records: seq<nat>) returns (races: seq<Race>)
    ensures races == Races(times, records)
  {
    races := [];
    var id := 0;
    while id < |times| && id < |records|
      invariant id <= |times| && id <= |records| && |races| == id
      invariant forall k :: 0 <= k < id ==> races[k] == Race(k, times[k], records[k])
    {
      races := races + [Race(id, times[id], records[id])];
      id := id + 1;
    }
  }

  /** The body of the loop over the lines of `get_input`. */
  method ReadLine(acc: (seq<nat>, seq<nat>), line: string) returns (r: Option<(seq<nat>, seq<nat>)>)
    ensures r == Scan(acc, line)
  {
    if Contains(line, "Time:") {
      var vs := ReadValues(line, "Time:");
      if vs.None? {
        return None;
      }
      return Some((acc.0 + vs.value, acc.1));
    } else if Contains(line, "Distance:") {
      var vs := ReadValues(line, "Distance:");
      if vs.None? {
        return None;
      }
      return Some((acc.0, acc.1 + vs.value));
    }
    return Some(acc);
  }

  /** One more line of the parse. */
  lemma ScannedStep(lines: seq<string>, l: nat, acc: (seq<nat>, seq<nat>))
    requires l < |lines| && Scanned(lines[..l]) == Some(acc)
    ensures Scanned(lines[..l + 1]) == Scan(acc, lines[l])
  {
    assert lines[..l + 1][..l] == lines[..l] && lines[..l + 1][l] == lines[l];
  }

  /** `get_input`: the values of the lines, zipped into races. */
  method GetInput(content: string) returns (r: Option<seq<Race>>)
    ensures r == Input(content)
  {
    var lines := Split(content, '\n');
    var values: (seq<nat>, seq<nat>) := ([], []);
    for l := 0 to |lines|
      invariant Scanned(lines[..l]) == Some(values)
    {
      var next := ReadLine(values, lines[l]);
      ScannedStep(lines, l, values);
      if next.None? {
        ScannedFails(lines, l + 1);
        return None;
      }
      values := next.value;
    }
    assert lines[..|lines|] == lines;
    var races := Zip(values.0, values.1);
    return Some(races);
  }

  /** Some hold of the race goes further than a `u16` holds: the multiplication overflows there. */
  predicate Overflows(time: nat) {
    exists c :: 0 <= c < time && Distance(time, c) > U16Max
  }

  /** `process_boat_races`: the ways to win the race, or None where the distance overflows. */
  method ProcessBoatRaces(race: Race) returns (r: Option<nat>)
    ensures r == if Overflows(race.time) then None else Some(Wins(race.time, race.recordDistance))
  {
    var nbWins := 0;
    for chargingTime := 0 to race.time
      invariant nbWins == Count(race.time, race.recordDistance, chargingTime)
      invariant forall c :: 0 <= c < chargingTime ==> Distance(race.time, c) <= U16Max
    {
      var traveledDistance := (race.time - chargingTime) * chargingTime;
      if traveledDistance > U16Max {
        assert Distance(race.time, chargingTime) > U16Max;
        return None;
      }
      if traveledDistance > race.recordDistance {
        nbWins := nbWins + 1;
      }
    }
    return Some(nbWins);
  }

  /** What the count gives for one race. */
  function RaceWins(race: Race): Option<nat> {
    if Overflows(race.time) then None else Some(Wins(race.time, race.recordDistance))
  }

  function WinsOf(races: seq<Race>): (r: seq<Option<nat>>)
    ensures |r| == |races| && forall k :: 0 <= k < |races| ==> r[k] == RaceWins(races[k])
  {
    seq(|races|, k requires 0 <= k < |races| => RaceWins(races[k]))
  }

  /** The loop of main over the races: the product of the counts other than 0, or a panic on an overflow. */
  function Result(races: seq<Race>): Outcome {
    match Gathered(WinsOf(races))
    case None => Panic
    case Some(wins) => if ProductOfNonZero(wins) > UsizeMax then Panic else Printed(ProductOfNonZero(wins))
  }

  /** main on the file's content. */
  function Answer(content: string): Outcome {
    match Input(content)
    case None => InputError
    case Some(races) => Result(races)
  }

  /** A product past `usize` at some race stays past it: main panics whatever the later races give. */
  lemma ProductOverflows(xs: seq<Option<nat>>, wins: seq<nat>, n: nat)
    requires |wins| < |xs| && forall k :: 0 <= k < |wins| ==> xs[k] == Some(wins[k])
    requires xs[|wins|] == Some(n) && ProductOfNonZero(wins + [n]) > UsizeMax
    ensures Gathered(xs).None? || ProductOfNonZero(Gathered(xs).value) > UsizeMax
  {
    var g := Gathered(xs);
    if g.Some? {
      var all, m := g.value, |wins|;
      forall k | 0 <= k <= m
        ensures all[k] == (wins + [n])[k]
      {
        assert xs[k] == Some(all[k]);
      }
      assert all[..m + 1] == wins + [n];
      ProductOfNonZeroPrefix(all, m + 1);
    }
  }

  /** The loop of main over the races, each counted by `process_boat_races`. */
  method Multiply(races: seq<Race>) returns (o: Outcome)
    ensures o == Result(races)
  {
    ghost var xs := WinsOf(races);
    ghost var wins: seq<nat> := [];
    var result: nat := 1;
    for i := 0 to |races|
      invariant |wins| == i && forall k :: 0 <= k < i ==> xs[k] == Some(wins[k])
      invariant result == ProductOfNonZero(wins) && result <= UsizeMax
    {
      var nbWins := ProcessBoatRaces(races[i]);
      assert xs[i] == nbWins;
      if nbWins.None? {
        GatheredNone(xs, i);
        return Panic;
      }
      var n := nbWins.value;
      assert (wins + [n])[..i] == wins;
      if n > 0 {
        if result * n > UsizeMax {
          ProductOverflows(xs, wins, n);
          return Panic;
        }
        result := result * n;
      }
      GatheredStep(xs, wins, n);
      wins := wins + [n];
    }
    GatheredAll(xs, wins);
    return Printed(result);
  }

  /** main once the file is read. */
  method Run(content: string) returns (o: Outcome)
    ensures o == Answer(content)
  {
    var races := GetInput(content);
    if races.None? {
      return InputError;
    }
    o := Multiply(races.value);
  }

  /** The distances of a race of at most 511 milliseconds fit in a `u16`. */
  lemma ShortRaceFits(time: nat, c: nat)
    requires c < time <= 511
    ensures Distance(time, c) <= 65280
  {
    DistanceQuarterSquare(time, c);
    MultiplyMonotone(time, 511, time);
    MultiplyMonotone(time, 511, 511);
    assert time * 511 == 511 * time;
  }

  /** The `u16` multiplication overflows exactly for the races of 512 milliseconds or more. */
  lemma OverflowBound(time: nat)
    ensures Overflows(time) <==> time >= 512
  {
    if time >= 512 {
      assert Distance(time, 256) == (time - 256) * 256 >= 256 * 256;
    } else {
      forall c | 0 <= c < time
        ensures Distance(time, c) <= U16Max
      {
        ShortRaceFits(time, c);
      }
    }
  }

  /** The values of a line laid out as on the sheet, when they are `u16` values. */
  lemma NumbersValues(vs: seq<nat>, gaps: seq<string>)
    requires Scratchcards.Layout(gaps, |vs|) && forall k :: 0 <= k < |vs| ==> vs[k] <= U16Max
    ensures var tokens := SplitWhitespace(Trim(Scratchcards.Numbers(vs, gaps)));
      Gathered(seq(|tokens|, k requires 0 <= k < |tokens| => ParseUnsigned(tokens[k], U16Max))) == Some(vs)
  {
    var n := Scratchcards.Numbers(vs, gaps);
    SplitWhitespaceTrim(n);
    Scratchcards.NumbersWords(vs, gaps);
    var tokens := SplitWhitespace(Trim(n));
    var xs := seq(|tokens|, k requires 0 <= k < |tokens| => ParseUnsigned(tokens[k], U16Max));
    forall k | 0 <= k < |vs|
      ensures xs[k] == Some(vs[k])
    {
      ParseDecimal(vs[k], U16Max);
    }
    GatheredAll(xs, vs);
  }

  /** The values of the sheet's times line. */
  lemma TimeValues(times: seq<nat>, timeGaps: seq<string>)
    requires Scratchcards.Layout(timeGaps, |times|) && forall k :: 0 <= k < |times| ==> times[k] <= U16Max
    ensures Contains(SheetLine("Time:", times, timeGaps), "Time:")
    ensures LineValues(SheetLine("Time:", times, timeGaps), "Time:") == Some(times)
  {
    TimeLine(times, timeGaps);
    NumbersValues(times, timeGaps);
  }

  /** The values of the sheet's records line. */
  lemma DistanceValues(records: seq<nat>, recordGaps: seq<string>)
    requires Scratchcards.Layout(recordGaps, |records|) && forall k :: 0 <= k < |records| ==> records[k] <= U16Max
    ensures !Contains(SheetLine("Distance:", records, recordGaps), "Time:")
    ensures Contains(SheetLine("Distance:", records, recordGaps), "Distance:")
    ensures LineValues(SheetLine("Distance:", records, recordGaps), "Distance:") == Some(records)
  {
    DistanceLine(records, recordGaps);
    NumbersValues(records, recordGaps);
  }

  /** The sheet's times line adds its values to the times. */
  lemma TimesScanned(times: seq<nat>, timeGaps: seq<string>)
    requires Scratchcards.Layout(timeGaps, |times|) && forall k :: 0 <= k < |times| ==> times[k] <= U16Max
    ensures Scanned([SheetLine("Time:", times, timeGaps)]) == Some((times, []))
  {
    var t := SheetLine("Time:", times, timeGaps);
    TimeValues(times, timeGaps);
    assert Scan(([], []), t) == Some(([] + times, []));
    assert [] + times == times;
    assert [t][..0] == [] && Scanned([]) == Some(([], []));
  }

  /** The sheet's records line adds its values to the records. */
  lemma RecordsScanned(times: seq<nat>, records: seq<nat>, recordGaps: seq<string>)
    requires Scratchcards.Layout(recordGaps, |records|) && forall k :: 0 <= k < |records| ==> records[k] <= U16Max
    ensures Scan((times, []), SheetLine("Distance:", records, recordGaps)) == Some((times, records))
  {
    var d := SheetLine("Distance:", records, recordGaps);
    DistanceValues(records, recordGaps);
    assert [] + records == records;
  }

  /** A sheet of `u16` values reads back as its races. */
  lemma SheetInput(times: seq<nat>, timeGaps: seq<string>, records: seq<nat>, recordGaps: seq<string>)
    requires Scratchcards.Layout(timeGaps, |times|) && Scratchcards.Layout(recordGaps, |records|)
    requires forall k :: 0 <= k < |times| ==> times[k] <= U16Max
    requires forall k :: 0 <= k < |records| ==> records[k] <= U16Max
    ensures Input(Sheet(times, timeGaps, records, recordGaps)) == Some(Races(times, records))
  {
    var t, d := SheetLine("Time:", times, timeGaps), SheetLine("Distance:", records, recordGaps);
    SheetSplit(times, timeGaps, records, recordGaps);
    var lines := [t, d, ""];
    TimesScanned(times, timeGaps);
    RecordsScanned(times, records, recordGaps);
    assert lines[..2][..1] == [t] && lines[..2][1] == d;
    assert Scanned(lines[..2]) == Some((times, records));
    assert !Contains("", "Time:") && !Contains("", "Distance:");
    assert Scanned(lines) == Some((times, records)) by {
      assert lines[..|lines| - 1] == lines[..2] && lines[|lines| - 1] == "";
    }
  }

  /**
   * For a sheet of races shorter than 512 milliseconds main prints the
   * product of the ways to win the races other than 0, unless it is past
   * `usize`.
   */
  lemma SheetAnswer(times: seq<nat>, timeGaps: seq<string>, records: seq<nat>, recordGaps: seq<string>)
    requires Scratchcards.Layout(timeGaps, |times|) && Scratchcards.Layout(recordGaps, |records|)
    requires forall k :: 0 <= k < |times| ==> times[k] <= 511
    requires forall k :: 0 <= k < |records| ==> records[k] <= U16Max
    ensures var races := Races(times, records);
      var p := ProductOfNonZero(seq(|races|, k requires 0 <= k < |races| => Wins(times[k], records[k])));
      Answer(Sheet(times, timeGaps, records, recordGaps)) == if p > UsizeMax then Panic else Printed(p)
  {
    SheetInput(times, timeGaps, records, recordGaps);
    var races := Races(times, records);
    var ws := seq(|races|, k requires 0 <= k < |races| => Wins(times[k], records[k]));
    var xs := WinsOf(races);
    forall k | 0 <= k < |races|
      ensures xs[k] == Some(ws[k])
    {
      OverflowBound(times[k]);
    }
    GatheredAll(xs, ws);
  }

  /** A printed result is at least 1, and the ways to win of every race that has some divide it. */
  lemma AnswerDivides(content: string, races: seq<Race>, p: nat)
    requires Input(content) == Some(races) && Answer(content) == Printed(p)
    ensures p >= 1
    ensures forall k :: 0 <= k < |races| && Wins(races[k].time, races[k].recordDistance) > 0 ==>
              p % Wins(races[k].time, races[k].recordDistance) == 0
  {
    var wins := Gathered(WinsOf(races)).value;
    ProductOfNonZeroDivides(wins);
    forall k | 0 <= k < |races|
      ensures wins[k] == Wins(races[k].time, races[k].recordDistance)
    {
      assert WinsOf(races)[k] == Some(wins[k]);
    }
  }
}
