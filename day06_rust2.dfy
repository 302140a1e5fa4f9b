/**
 * rust/d06_2: `get_input` reads the "Time:" line and the "Distance:" line
 * each as one `usize`, its spaces removed; `process_boat_race` counts the
 * holds that beat the record and main prints that count.  The arithmetic
 * is that of a debug build: an overflow panics.
 */
module Day06Rust2 {
  import opened Wrappers
  import opened Text
  import opened BoatRace
  import Scratchcards

  /** `BoatRace`: the race's id, its time and its record distance. */
  datatype Race = Race(id: nat, time: nat, recordDistance: nat)

  /** How main ends: the result printed, the error of `get_input`, or a panic on an overflow. */
  datatype Outcome = Printed(result: nat) | InputError | Panic

  /** The value of a line after its name: the text trimmed, its spaces removed, read as a `usize`. */
  function LineValue(line: string, name: string): Option<nat>
    requires |name| > 0
  {
    ParseUnsigned(Replace(Trim(Replace(line, name, "")), " ", ""), UsizeMax)
  }

  /**
   * One line of the parse: a line holding "Time:" sets the time, else one
   * holding "Distance:" sets the record; any other line is skipped.
   */
  function Scan(acc: (nat, nat), line: string): Option<(nat, nat)> {
    if Contains(line, "Time:") then
      match LineValue(line, "Time:")
      case None => None
      case Some(v) => Some((v, acc.1))
    else if Contains(line, "Distance:") then
      match LineValue(line, "Distance:")
      case None => None
      case Some(v) => Some((acc.0, v))
    else Some(acc)
  }

  /** The time and the record the lines leave, both 0 before the first line. */
  function Scanned(lines: seq<string>): Option<(nat, nat)> {
    if lines == [] then Some((0, 0))
    else match Scanned(lines[..|lines| - 1])
      case None => None
      case Some(acc) => Scan(acc, lines[|lines| - 1])
  }

  /** `get_input` once the file is read: the race with id 0. */
  function Input(content: string): Option<Race> {
    match Scanned(Split(content, '\n'))
    case None => None
    case Some(acc) => Some(Race(0, acc.0, acc.1))
  }

  /** A line that does not parse ends the parse: no later line changes that. */
  lemma {:induction false} ScannedFails(lines: seq<string>, n: nat)
    requires n <= |lines| && Scanned(lines[..n]).None?
    ensures Scanned(lines).None?
    decreases |lines| - n
  {
    if n == |lines| {
      assert lines[..n] == lines;
    } else {
      var front := lines[..|lines| - 1];
      assert front[..n] == lines[..n];
      ScannedFails(front, n);
    }
  }

  /** One more line of the parse. */
  lemma ScannedStep(lines: seq<string>, l: nat, acc: (nat, nat))
    requires l < |lines| && Scanned(lines[..l]) == Some(acc)
    ensures Scanned(lines[..l + 1]) == Scan(acc, lines[l])
  {
    assert lines[..l + 1][..l] == lines[..l] && lines[..l + 1][l] == lines[l];
  }

  /** The body of the loop over the lines of `get_input`. */
  method ReadLine(acc: (nat, nat), line: string) returns (r: Option<(nat, nat)>)
    ensures r == Scan(acc, line)
  {
    if Contains(line, "Time:") {
      var timeStr := Replace(Trim(Replace(line, "Time:", "")), " ", "");
      var val := ParseUnsigned(timeStr, UsizeMax);
      if val.None? {
        return None;
      }
      return Some((val.value, acc.1));
    } else if Contains(line, "Distance:") {
      var distanceStr := Replace(Trim(Replace(line, "Distance:", "")), " ", "");
      var val := ParseUnsigned(distanceStr, UsizeMax);
      if val.None? {
        return None;
      }
      return Some((acc.0, val.value));
    }
    return Some(acc);
  }

  /** `get_input`: the time and the record the lines leave. */
  method GetInput(content: string) returns (r: Option<Race>)
    ensures r == Input(content)
  {
    var lines := Split(content, '\n');
    var values: (nat, nat) := (0, 0);
    for l := 0 to |lines|
      invariant Scanned(lines[..l]) == Some(values)
    {
      var next := ReadLine(values, lines[l]);
      ScannedStep(lines, l, values);
      if next.None? {
        ScannedFails(lines, l + 1);
        return None;
      }
      values := next.value;
    }
    assert lines[..|lines|] == lines;
    return Some(Race(0, values.0, values.1));
  }

  /** Some hold of the race goes further than a `usize` holds: the multiplication overflows there. */
  predicate Overflows(time: nat) {
    exists c :: 0 <= c < time && Distance(time, c) > UsizeMax
  }

  /** `process_boat_race`: the ways to win the race, or None where the distance overflows. */
  method ProcessBoatRace(race: Race) returns (r: Option<nat>)
    ensures r == if Overflows(race.time) then None else Some(Wins(race.time, race.recordDistance))
  {
    var nbWins := 0;
    for chargingTime := 0 to race.time
      invariant nbWins == Count(race.time, race.recordDistance, chargingTime)
      invariant forall c :: 0 <= c < chargingTime ==> Distance(race.time, c) <= UsizeMax
    {
      var traveledDistance := (race.time - chargingTime) * chargingTime;
      if traveledDistance > UsizeMax {
        assert Distance(race.time, chargingTime) > UsizeMax;
        return None;
      }
      if traveledDistance > race.recordDistance {
        nbWins := nbWins + 1;
      }
    }
    return Some(nbWins);
  }

  /** main on the file's content. */
  function Answer(content: string): Outcome {
    match Input(content)
    case None => InputError
    case Some(race) => if Overflows(race.time) then Panic else Printed(Wins(race.time, race.recordDistance))
  }

  /** main once the file is read. */
  method Run(content: string) returns (o: Outcome)
    ensures o == Answer(content)
  {
    var race := GetInput(content);
    if race.None? {
      return InputError;
    }
    var result := ProcessBoatRace(race.value);
    if result.None? {
      return Panic;
    }
    return Printed(result.value);
  }

  /** The `usize` multiplication overflows exactly for the races of 2^33 milliseconds or more. */
  lemma OverflowBound(time: nat)
    ensures Overflows(time) <==> time >= 0x2_0000_0000
  {
    var half := 0x1_0000_0000;
    if time >= 2 * half {
      assert Distance(time, half) == (time - half) * half;
      MultiplyMonotone(half, time - half, half);
    } else {
      forall c | 0 <= c < time
        ensures Distance(time, c) <= UsizeMax
      {
        DistanceQuarterSquare(time, c);
        MultiplyMonotone(time, 2 * half - 1, time);
        MultiplyMonotone(time, 2 * half - 1, 2 * half - 1);
        assert time * (2 * half - 1) == (2 * half - 1) * time;
      }
    }
  }

  /** A file without a times line or a records line leaves the race at 0: main prints 0. */
  lemma UnlabelledLines(content: string)
    requires forall k :: 0 <= k < |Split(content, '\n')| ==>
               !Contains(Split(content, '\n')[k], "Time:") && !Contains(Split(content, '\n')[k], "Distance:")
    ensures Input(content) == Some(Race(0, 0, 0))
    ensures Answer(content) == Printed(0)
  {
    var lines := Split(content, '\n');
    for l := 0 to |lines|
      invariant Scanned(lines[..l]) == Some((0, 0))
    {
      ScannedStep(lines, l, (0, 0));
    }
    assert lines[..|lines|] == lines;
    assert !Overflows(0);
  }

  /** The value of a sheet line: its values' digits one after the other. */
  lemma KernedValue(name: string, vs: seq<nat>, gaps: seq<string>)
    requires |name| > 0 && Scratchcards.Layout(gaps, |vs|) && vs != [] && Kerned(vs) <= UsizeMax
    requires Replace(SheetLine(name, vs, gaps), name, "") == Scratchcards.Numbers(vs, gaps)
    ensures LineValue(SheetLine(name, vs, gaps), name) == Some(Kerned(vs))
  {
    var n := Scratchcards.Numbers(vs, gaps);
    NumbersSpacedOnly(vs, gaps);
    ReplaceTrimSpaces(n);
    NumbersKerned(vs, gaps);
    ParseKerned(vs, UsizeMax);
  }

  /** The sheet's times line sets the time. */
  lemma TimeScanned(times: seq<nat>, timeGaps: seq<string>)
    requires Scratchcards.Layout(timeGaps, |times|) && times != [] && Kerned(times) <= UsizeMax
    ensures Scanned([SheetLine("Time:", times, timeGaps)]) == Some((Kerned(times), 0))
  {
    var t := SheetLine("Time:", times, timeGaps);
    TimeLine(times, timeGaps);
    KernedValue("Time:", times, timeGaps);
    assert [t][..0] == [];
  }

  /** The sheet's records line sets the record. */
  lemma RecordScanned(time: nat, records: seq<nat>, recordGaps: seq<string>)
    requires Scratchcards.Layout(recordGaps, |records|) && records != [] && Kerned(records) <= UsizeMax
    ensures Scan((time, 0), SheetLine("Distance:", records, recordGaps)) == Some((time, Kerned(records)))
  {
    DistanceLine(records, recordGaps);
    KernedValue("Distance:", records, recordGaps);
  }

  /** A sheet reads back as the race of its kerned time and record, when both fit in a `usize`. */
  lemma SheetInput(times: seq<nat>, timeGaps: seq<string>, records: seq<nat>, recordGaps: seq<string>)
    requires Scratchcards.Layout(timeGaps, |times|) && Scratchcards.Layout(recordGaps, |records|)
    requires times != [] && records != [] && Kerned(times) <= UsizeMax && Kerned(records) <= UsizeMax
    ensures Input(Sheet(times, timeGaps, records, recordGaps)) == Some(Race(0, Kerned(times), Kerned(records)))
  {
    var t, d := SheetLine("Time:", times, timeGaps), SheetLine("Distance:", records, recordGaps);
    SheetSplit(times, timeGaps, records, recordGaps);
    var lines := [t, d, ""];
    TimeScanned(times, timeGaps);
    RecordScanned(Kerned(times), records, recordGaps);
    assert lines[..2][..1] == [t] && lines[..2][1] == d;
    assert Scanned(lines[..2]) == Some((Kerned(times), Kerned(records)));
    assert !Contains("", "Time:") && !Contains("", "Distance:");
    assert Scanned(lines) == Some((Kerned(times), Kerned(records))) by {
      assert lines[..|lines| - 1] == lines[..2] && lines[|lines| - 1] == "";
    }
  }

  /** For such a sheet with a time under 2^33, main prints the ways to win the kerned race. */
  lemma SheetAnswer(times: seq<nat>, timeGaps: seq<string>, records: seq<nat>, recordGaps: seq<string>)
    requires Scratchcards.Layout(timeGaps, |times|) && Scratchcards.Layout(recordGaps, |records|)
    requires times != [] && records != [] && Kerned(times) < 0x2_0000_0000 && Kerned(records) <= UsizeMax
    ensures Answer(Sheet(times, timeGaps, records, recordGaps)) == Printed(Wins(Kerned(times), Kerned(records)))
  {
    SheetInput(times, timeGaps, records, recordGaps);
    OverflowBound(Kerned(times));
  }
}
