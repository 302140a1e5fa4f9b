/**
 * py/06/prog_1.py: `parse_input` zips the integers after the ':' of the
 * first line with those of the second into dicts;
 * `compute_solution_numeric` counts, for every race, the holds from 0 to
 * its time that go at least as far as its record (ties count); the script
 * prints the product of those counts.  Python integers do not overflow.
 */
module Day06Py1 {
  import opened Wrappers
  import opened Text
  import opened BoatRace
  import Scratchcards
  import Day03Py
  import Day04Py

  /** A race's dict: `time_limit`, `distance_record`, and `nb_solution` once it is computed (None before). */
  datatype Dico = Dico(timeLimit: int, distanceRecord: int, nbSolution: Option<int>)

  /** `[int(t) for t in words]`: None at the first word `int` refuses. */
  function Ints(words: seq<string>): Option<seq<int>> {
    Gathered(seq(|words|, k requires 0 <= k < |words| => PyInt(words[k])))
  }

  /** `raw[i].split(":")[1]` split on single spaces, without the empty pieces; None on an IndexError. */
  function Tokens(raw: seq<string>, i: nat): Option<seq<string>> {
    match PyIndex(raw, i)
    case None => None
    case Some(line) =>
      match PyIndex(Split(line, ':'), 1)
      case None => None
      case Some(text) => Some(Day04Py.Words(text))
  }

  /** The integers of line i, None where Python raises. */
  function Values(raw: seq<string>, i: nat): Option<seq<int>> {
    match Tokens(raw, i)
    case None => None
    case Some(words) => Ints(words)
  }

  /** The dicts of the zip: the k-th time with the k-th record, as many as the shorter list has values. */
  function Zipped(times: seq<int>, records: seq<int>): (r: seq<Dico>)
    ensures |r| == if |times| <= |records| then |times| else |records|
    ensures forall k :: 0 <= k < |r| ==> r[k] == Dico(times[k], records[k], None)
  {
    var n := if |times| <= |records| then |times| else |records|;
    seq(n, k requires 0 <= k < n => Dico(times[k], records[k], None))
  }

  /** `parse_input`: None where it raises. */
  function Parsed(raw: seq<string>): Option<seq<Dico>> {
    match Values(raw, 0)
    case None => None
    case Some(times) =>
      match Values(raw, 1)
      case None => None
      case Some(records) => Some(Zipped(times, records))
  }

  /** `parse_input`: both lists, then the loop over their zip appending one dict per race. */
  method ParseInput(raw: seq<string>) returns (r: Option<seq<Dico>>)
    ensures r == Parsed(raw)
  {
    var times := Values(raw, 0);
    if times.None? {
      return None;
    }
    var records := Values(raw, 1);
    if records.None? {
      return None;
    }
    var zipped := Zip(times.value, records.value);
    return Some(zipped);
  }

  /** The loop over `zip(times, records)` appending one dict per race. */
  method Zip(times: seq<int>, records: seq<int>) returns (result: seq<Dico>)
    ensures result == Zipped(times, records)
  {
    result := [];
    var k := 0;
    while k < |times| && k < |records|
      invariant k <= |times| && k <= |records| && |result| == k
      invariant forall j :: 0 <= j < k ==> result[j] == Dico(times[j], records[j], None)
    {
      result := result + [Dico(times[k], records[k], None)];
      k := k + 1;
    }
  }

  /** The holds `range(0, T + 1)` counts: every one that reaches the record; none for a negative time. */
  function NbSolution(time: int, record: int): nat {
    if time < 0 then 0 else Reaching(time, record, time + 1)
  }

  /** The loop of `compute_solution_numeric` over the holds of one race. */
  method CountSolutions(time: int, record: int) returns (n: nat)
    ensures n == NbSolution(time, record)
  {
    n := 0;
    var h := 0;
    while h < time + 1
      invariant 0 <= h && (time >= 0 ==> h <= time + 1) && (time < 0 ==> h == 0)
      invariant n == Reaching(time, record, h)
    {
      var equationResult := h * (time - h) - record;
      if equationResult >= 0 {
        n := n + 1;
      }
      h := h + 1;
    }
  }

  /** `compute_solution_numeric`: every dict gets its `nb_solution`, and nothing else changes. */
  method ComputeSolutionNumeric(data: seq<Dico>) returns (r: seq<Dico>)
    ensures |r| == |data|
    ensures forall k :: 0 <= k < |data| ==>
              r[k] == data[k].(nbSolution := Some(NbSolution(data[k].timeLimit, data[k].distanceRecord)))
  {
    r := data;
    for k := 0 to |data|
      invariant |r| == |data|
      invariant forall j :: 0 <= j < k ==>
                  r[j] == data[j].(nbSolution := Some(NbSolution(data[j].timeLimit, data[j].distanceRecord)))
      invariant forall j :: k <= j < |data| ==> r[j] == data[j]
    {
      var n := CountSolutions(r[k].timeLimit, r[k].distanceRecord);
      r := r[k := r[k].(nbSolution := Some(n))];
    }
  }

  /** The counts of the races, in order. */
  function Solutions(data: seq<Dico>): (r: seq<int>)
    ensures |r| == |data| && forall k :: 0 <= k < |data| ==> r[k] == NbSolution(data[k].timeLimit, data[k].distanceRecord)
  {
    seq(|data|, k requires 0 <= k < |data| => NbSolution(data[k].timeLimit, data[k].distanceRecord))
  }

  /** The script on the lines `readlines` returns: the printed product, None where it raises. */
  function Answer(fileLines: seq<string>): Option<int> {
    match Parsed(Day03Py.Loaded(fileLines))
    case None => None
    case Some(data) => Some(Product(Solutions(data)))
  }

  /** The script once the file is read. */
  method Run(fileLines: seq<string>) returns (r: Option<int>)
    ensures r == Answer(fileLines)
  {
    var data := ParseInput(Day03Py.Loaded(fileLines));
    if data.None? {
      return None;
    }
    var solved := ComputeSolutionNumeric(data.value);
    ghost var counts := Solutions(data.value);
    var result := 1;
    for i := 0 to |solved|
      invariant result == Product(counts[..i])
    {
      assert solved[i].nbSolution == Some(counts[i]);
      TakeOneMore(counts, i);
      assert counts[..i + 1][..i] == counts[..i];
      result := result * solved[i].nbSolution.value;
    }
    assert counts[..|solved|] == counts;
    return Some(result);
  }

  /** With no record to beat, every hold from 0 to the time counts. */
  lemma ZeroRecord(time: nat)
    ensures NbSolution(time, 0) == time + 1
  {
    ReachingZero(time, time + 1);
  }

  /** A tie counts: the solutions of a record are the wins over one less than it. */
  lemma TiesCount(time: nat, record: int)
    requires record >= 1
    ensures NbSolution(time, record) == Wins(time, record - 1)
  {
    ReachingAsWins(time, record);
  }

  /** A race of time 4 and record 4 has one solution, the hold of 2 that ties, and no win. */
  lemma TieCounted()
    ensures NbSolution(4, 4) == 1 && Wins(4, 4) == 0
  {
    ReachingAsWins(4, 4);
    assert Wins(4, 3) == 1 by {
      assert Distance(4, 0) == 0 && Distance(4, 1) == 3 && Distance(4, 2) == 4 && Distance(4, 3) == 3;
    }
    assert Wins(4, 4) == 0 by {
      assert Distance(4, 0) == 0 && Distance(4, 1) == 3 && Distance(4, 2) == 4 && Distance(4, 3) == 3;
    }
  }

  /** The printed product is 0 exactly when some race has no solution. */
  lemma AnswerZero(fileLines: seq<string>, p: int)
    requires Answer(fileLines) == Some(p)
    ensures p == 0 <==> exists d :: d in Parsed(Day03Py.Loaded(fileLines)).value && NbSolution(d.timeLimit, d.distanceRecord) == 0
  {
    var data := Parsed(Day03Py.Loaded(fileLines)).value;
    var counts := Solutions(data);
    ProductZero(counts);
    if p == 0 {
      var k :| 0 <= k < |counts| && counts[k] == 0;
      assert data[k] in data;
    } else {
      forall d | d in data
        ensures NbSolution(d.timeLimit, d.distanceRecord) != 0
      {
        var k :| 0 <= k < |data| && data[k] == d;
        assert counts[k] != 0;
      }
    }
  }

  /** An empty file, a file of one line, or a first line without ':' raise an IndexError. */
  lemma IndexErrors(fileLines: seq<string>)
    requires |fileLines| <= 1 || ':' !in Trim(fileLines[0])
    ensures Answer(fileLines) == None
  {
    var raw := Day03Py.Loaded(fileLines);
    if |fileLines| >= 1 && ':' !in raw[0] {
      assert Split(raw[0], ':') == [raw[0]];
    }
  }

  /** Python's `int` reads every decimal back. */
  lemma DecimalInts(vs: seq<nat>)
    ensures Ints(Scratchcards.Decimals(vs)) == Some(vs)
  {
    var ds := Scratchcards.Decimals(vs);
    var xs := seq(|ds|, k requires 0 <= k < |ds| => PyInt(ds[k]));
    forall k | 0 <= k < |ds|
      ensures xs[k] == Some(vs[k])
    {
      Scratchcards.DecimalWord(vs[k]);
      PyIntDigits(ds[k]);
    }
    GatheredAll<int>(xs, vs);
  }

  /** A sheet line split on ':' is its name and its values, and the values split on spaces are their decimals. */
  lemma SheetTokens(head: string, vs: seq<nat>, gaps: seq<string>)
    requires Scratchcards.Layout(gaps, |vs|) && ':' !in head
    ensures Split(SheetLine(head + ":", vs, gaps), ':') == [head, Scratchcards.Numbers(vs, gaps)]
    ensures Day04Py.Words(Scratchcards.Numbers(vs, gaps)) == Scratchcards.Decimals(vs)
  {
    var n := Scratchcards.Numbers(vs, gaps);
    Scratchcards.NumbersLack(vs, gaps, ':');
    assert Join([head, n], ":") == head + ":" + n;
    assert SheetLine(head + ":", vs, gaps) == head + ":" + n;
    JoinSplit([head, n], ':');
    var ds := Scratchcards.Decimals(vs);
    forall k | 0 <= k < |ds|
      ensures ds[k] != "" && ' ' !in ds[k]
    {
      Scratchcards.DecimalWord(vs[k]);
      Scratchcards.DecimalLacks(vs[k], ' ');
    }
    assert Day04Py.Spaced(ds, gaps);
    Day04Py.WordsSpread(ds, gaps);
  }

  /** The values of a sheet line, read back from the loaded file. */
  lemma SheetValues(raw: seq<string>, i: nat, head: string, vs: seq<nat>, gaps: seq<string>)
    requires Scratchcards.Layout(gaps, |vs|) && ':' !in head
    requires i < |raw| && raw[i] == SheetLine(head + ":", vs, gaps)
    ensures Values(raw, i) == Some(vs)
  {
    SheetTokens(head, vs, gaps);
    DecimalInts(vs);
  }

  /** Both sheet lines are what `load_input` keeps of them. */
  lemma SheetLoaded(times: seq<nat>, timeGaps: seq<string>, records: seq<nat>, recordGaps: seq<string>)
    requires Scratchcards.Layout(timeGaps, |times|) && timeGaps[|times|] == ""
    requires Scratchcards.Layout(recordGaps, |records|) && recordGaps[|records|] == ""
    ensures Day03Py.Loaded([SheetLine("Time:", times, timeGaps) + "\n", SheetLine("Distance:", records, recordGaps) + "\n"])
            == [SheetLine("Time:", times, timeGaps), SheetLine("Distance:", records, recordGaps)]
  {
    SheetLineTrimmed("Time:", times, timeGaps);
    SheetLineTrimmed("Distance:", records, recordGaps);
  }

  /** `parse_input` pairs the values of the two sheet lines. */
  lemma SheetParsed(times: seq<nat>, timeGaps: seq<string>, records: seq<nat>, recordGaps: seq<string>)
    requires Scratchcards.Layout(timeGaps, |times|) && Scratchcards.Layout(recordGaps, |records|)
    ensures Parsed([SheetLine("Time:", times, timeGaps), SheetLine("Distance:", records, recordGaps)])
            == Some(Zipped(times, records))
  {
    var raw := [SheetLine("Time:", times, timeGaps), SheetLine("Distance:", records, recordGaps)];
    assert "Time" + ":" == "Time:" && "Distance" + ":" == "Distance:";
    SheetValues(raw, 0, "Time", times, timeGaps);
    SheetValues(raw, 1, "Distance", records, recordGaps);
  }

  /**
   * On a file of a line of times and a line of records, each ending where
   * its last value does, the script prints the product of the solutions of
   * the races the two lines pair up.
   */
  lemma SheetAnswer(times: seq<nat>, timeGaps: seq<string>, records: seq<nat>, recordGaps: seq<string>)
    requires Scratchcards.Layout(timeGaps, |times|) && timeGaps[|times|] == ""
    requires Scratchcards.Layout(recordGaps, |records|) && recordGaps[|records|] == ""
    ensures Answer([SheetLine("Time:", times, timeGaps) + "\n", SheetLine("Distance:", records, recordGaps) + "\n"])
            == Some(Product(Solutions(Zipped(times, records))))
  {
    SheetLoaded(times, timeGaps, records, recordGaps);
    SheetParsed(times, timeGaps, records, recordGaps);
  }
}
