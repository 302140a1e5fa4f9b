/**
 * 06/prog_2.py: the second part of the day 6 puzzle in Python.
 * `parse_input` glues the words after the ':' of the two lines, pairwise
 * through a zip, into one time and one record; `compute_solution_numeric`
 * counts the holds of that race reaching the record (ties count).  The
 * final loop goes over the dict itself, so it sees the dict's keys, and
 * indexing a key string with a string raises a TypeError: the script
 * prints nothing.  AnswerIntended is the evident aim, the count printed.
 */
module Day06Py2 {
  import opened Wrappers
  import opened Text
  import opened BoatRace
  import Scratchcards
  import Day03Py
  import Day04Py
  import Day06Py1

  /** The words joined end to end. */
  function Glued(ws: seq<string>): string
    decreases |ws|
  {
    if ws == [] then "" else ws[0] + Glued(ws[1..])
  }

  /** The shorter of two lengths: the races a zip pairs up. */
  function Paired(a: nat, b: nat): (m: nat)
    ensures m <= a && m <= b && (m == a || m == b)
  {
    if a <= b then a else b
  }

  /** The two glued texts of `parse_input`, as long as the shorter line has words; None on an IndexError. */
  function Texts(raw: seq<string>): Option<(string, string)> {
    match Day06Py1.Tokens(raw, 0)
    case None => None
    case Some(ts) =>
      match Day06Py1.Tokens(raw, 1)
      case None => None
      case Some(rs) =>
        var m := Paired(|ts|, |rs|);
        Some((Glued(ts[..m]), Glued(rs[..m])))
  }

  /** `parse_input`: the race's dict, None where `int` refuses a glued text (the empty one included). */
  function Parsed(raw: seq<string>): Option<Day06Py1.Dico> {
    match Texts(raw)
    case None => None
    case Some((t, r)) =>
      match (PyInt(t), PyInt(r))
      case (Some(time), Some(record)) => Some(Day06Py1.Dico(time, record, None))
      case _ => None
  }

  /** The loop over `zip` of `parse_input`, gluing one word of each line per turn. */
  method Glue(ts: seq<string>, rs: seq<string>) returns (t: string, r: string)
    ensures var m := Paired(|ts|, |rs|);
            t == Glued(ts[..m]) && r == Glued(rs[..m])
  {
    t, r := "", "";
    var k := 0;
    while k < |ts| && k < |rs|
      invariant k <= |ts| && k <= |rs|
      invariant t == Glued(ts[..k]) && r == Glued(rs[..k])
    {
      GluedAppend(ts[..k], ts[k]);
      GluedAppend(rs[..k], rs[k]);
      assert ts[..k + 1] == ts[..k] + [ts[k]] && rs[..k + 1] == rs[..k] + [rs[k]];
      t, r := t + ts[k], r + rs[k];
      k := k + 1;
    }
  }

  /** `parse_input`. */
  method ParseInput(raw: seq<string>) returns (d: Option<Day06Py1.Dico>)
    ensures d == Parsed(raw)
  {
    var ts := Day06Py1.Tokens(raw, 0);
    if ts.None? {
      return None;
    }
    var rs := Day06Py1.Tokens(raw, 1);
    if rs.None? {
      return None;
    }
    var t, r := Glue(ts.value, rs.value);
    var time, record := PyInt(t), PyInt(r);
    if time.None? || record.None? {
      return None;
    }
    return Some(Day06Py1.Dico(time.value, record.value, None));
  }

  /** `compute_solution_numeric`: the dict gets its `nb_solution`, nothing else changes. */
  method ComputeSolutionNumeric(d: Day06Py1.Dico) returns (r: Day06Py1.Dico)
    ensures r == d.(nbSolution := Some(Day06Py1.NbSolution(d.timeLimit, d.distanceRecord)))
  {
    var n := Day06Py1.CountSolutions(d.timeLimit, d.distanceRecord);
    r := d.(nbSolution := Some(n));
  }

  /** The keys `for dico in data_input` goes through once the count is in. */
  const Keys: seq<string> := ["time_limit", "distance_record", "nb_solution"]

  /** The script as written: None where it raises, which the final loop does on the dict's first key. */
  function Answer(fileLines: seq<string>): Option<int> {
    match Parsed(Day03Py.Loaded(fileLines))
    case None => None
    // the dict's first key is a str: `dico["nb_solution"]` raises the TypeError
    case Some(_) => None
  }

  /** The script as written, once the file is read. */
  method Run(fileLines: seq<string>) returns (r: Option<int>)
    ensures r == Answer(fileLines)
  {
    var data := ParseInput(Day03Py.Loaded(fileLines));
    if data.None? {
      return None;
    }
    var solved := ComputeSolutionNumeric(data.value);
    // `for dico in data_input` starts with the key "time_limit", a str, and
    // indexing it with "nb_solution" raises a TypeError on that first pass.
    var dico := Keys[0];
    return None;
  }

  /** The script as meant: the count of the one race, printed. */
  function AnswerIntended(fileLines: seq<string>): Option<int> {
    match Parsed(Day03Py.Loaded(fileLines))
    case None => None
    case Some(d) => Some(Day06Py1.NbSolution(d.timeLimit, d.distanceRecord))
  }

  /** The script as meant, once the file is read: `result = 1 * nb_solution`. */
  method RunIntended(fileLines: seq<string>) returns (r: Option<int>)
    ensures r == AnswerIntended(fileLines)
  {
    var data := ParseInput(Day03Py.Loaded(fileLines));
    if data.None? {
      return None;
    }
    var solved := ComputeSolutionNumeric(data.value);
    return Some(1 * solved.nbSolution.value);
  }

  /** Gluing one more word puts it at the end. */
  lemma {:induction false} GluedAppend(ws: seq<string>, w: string)
    ensures Glued(ws + [w]) == Glued(ws) + w
    decreases |ws|
  {
    if ws == [] {
      assert Glued([w]) == w + Glued([]);
    } else {
      assert (ws + [w])[1..] == ws[1..] + [w];
      GluedAppend(ws[1..], w);
    }
  }

  /** The decimals of some values glued together are their digits. */
  lemma {:induction false} GluedDecimals(vs: seq<nat>)
    ensures Glued(Scratchcards.Decimals(vs)) == Digits(vs)
    decreases |vs|
  {
    if vs != [] {
      assert Scratchcards.Decimals(vs)[1..] == Scratchcards.Decimals(vs[1..]);
      GluedDecimals(vs[1..]);
    }
  }

  /** The words after the ':' of a sheet line are the decimals of its values. */
  lemma SheetTokens(raw: seq<string>, i: nat, head: string, vs: seq<nat>, gaps: seq<string>)
    requires Scratchcards.Layout(gaps, |vs|) && ':' !in head
    requires i < |raw| && raw[i] == SheetLine(head + ":", vs, gaps)
    ensures Day06Py1.Tokens(raw, i) == Some(Scratchcards.Decimals(vs))
  {
    Day06Py1.SheetTokens(head, vs, gaps);
  }

  /** The glued decimals of the first m values are read back as their kerned value. */
  lemma GluedValue(vs: seq<nat>, m: nat)
    requires 0 < m <= |vs|
    ensures Scratchcards.Decimals(vs)[..m] == Scratchcards.Decimals(vs[..m])
    ensures PyInt(Glued(Scratchcards.Decimals(vs[..m]))) == Some(Kerned(vs[..m]))
  {
    GluedDecimals(vs[..m]);
    PyIntDigits(Digits(vs[..m]));
  }

  /** The glued texts of the two sheet lines, values paired up to the shorter line. */
  lemma SheetTexts(times: seq<nat>, timeGaps: seq<string>, records: seq<nat>, recordGaps: seq<string>)
    requires Scratchcards.Layout(timeGaps, |times|) && Scratchcards.Layout(recordGaps, |records|)
    ensures var m := Paired(|times|, |records|);
            Texts([SheetLine("Time:", times, timeGaps), SheetLine("Distance:", records, recordGaps)])
            == Some((Glued(Scratchcards.Decimals(times)[..m]), Glued(Scratchcards.Decimals(records)[..m])))
  {
    var raw := [SheetLine("Time:", times, timeGaps), SheetLine("Distance:", records, recordGaps)];
    assert "Time" + ":" == "Time:" && "Distance" + ":" == "Distance:";
    SheetTokens(raw, 0, "Time", times, timeGaps);
    SheetTokens(raw, 1, "Distance", records, recordGaps);
  }

  /** The race `parse_input` reads from the two sheet lines; None when one of them has no value. */
  lemma SheetParsed(times: seq<nat>, timeGaps: seq<string>, records: seq<nat>, recordGaps: seq<string>)
    requires Scratchcards.Layout(timeGaps, |times|) && Scratchcards.Layout(recordGaps, |records|)
    ensures var m := Paired(|times|, |records|);
            Parsed([SheetLine("Time:", times, timeGaps), SheetLine("Distance:", records, recordGaps)])
            == if m == 0 then None else Some(Day06Py1.Dico(Kerned(times[..m]), Kerned(records[..m]), None))
  {
    var m := Paired(|times|, |records|);
    SheetTexts(times, timeGaps, records, recordGaps);
    if m == 0 {
      assert Glued(Scratchcards.Decimals(times)[..m]) == "";
    } else {
      GluedValue(times, m);
      GluedValue(records, m);
    }
  }

  /**
   * On a file of a line of times and a line of records, each ending where
   * its last value does, the script as meant prints the count of the race
   * whose time and record are the values of the two lines glued, as many
   * as the shorter line has; with no value on a line `int('')` raises.
   */
  lemma SheetAnswer(times: seq<nat>, timeGaps: seq<string>, records: seq<nat>, recordGaps: seq<string>)
    requires Scratchcards.Layout(timeGaps, |times|) && timeGaps[|times|] == ""
    requires Scratchcards.Layout(recordGaps, |records|) && recordGaps[|records|] == ""
    ensures var m := Paired(|times|, |records|);
            AnswerIntended([SheetLine("Time:", times, timeGaps) + "\n", SheetLine("Distance:", records, recordGaps) + "\n"])
            == if m == 0 then None else Some(Day06Py1.NbSolution(Kerned(times[..m]), Kerned(records[..m])))
  {
    Day06Py1.SheetLoaded(times, timeGaps, records, recordGaps);
    SheetParsed(times, timeGaps, records, recordGaps);
  }

  /** A race of time 7 and record 9 has four solutions: the holds 2 to 5. */
  lemma SevenNine()
    ensures Day06Py1.NbSolution(7, 9) == 4
  {
    ReachingAsWins(7, 9);
    assert Distance(7, 0) == 0 && Distance(7, 1) == 6 && Distance(7, 2) == 10 && Distance(7, 3) == 12;
    assert Distance(7, 4) == 12 && Distance(7, 5) == 10 && Distance(7, 6) == 6;
  }

  /** The two lines of that race, as sheet lines. */
  lemma SevenNineLines()
    ensures Scratchcards.Layout(["      ", ""], 1) && Scratchcards.Layout(["  ", ""], 1)
    ensures SheetLine("Time:", [7], ["      ", ""]) + "\n" == "Time:      7\n"
    ensures SheetLine("Distance:", [9], ["  ", ""]) + "\n" == "Distance:  9\n"
  {
    assert Scratchcards.Decimals([7]) == ["7"] && Scratchcards.Decimals([9]) == ["9"];
  }

  /** A sheet of one time and one record, as meant, prints the count of that race. */
  lemma SheetAnswerOne(time: nat, timeGaps: seq<string>, record: nat, recordGaps: seq<string>)
    requires Scratchcards.Layout(timeGaps, 1) && timeGaps[1] == ""
    requires Scratchcards.Layout(recordGaps, 1) && recordGaps[1] == ""
    ensures AnswerIntended([SheetLine("Time:", [time], timeGaps) + "\n", SheetLine("Distance:", [record], recordGaps) + "\n"])
            == Some(Day06Py1.NbSolution(time, record))
  {
    SheetAnswer([time], timeGaps, [record], recordGaps);
    KernedOne(time);
    KernedOne(record);
    assert [time][..1] == [time] && [record][..1] == [record];
  }

  /** On the file of that race, the script as meant prints 4; as written, it prints nothing. */
  lemma NothingPrinted()
    ensures var fileLines := ["Time:      7\n", "Distance:  9\n"];
            AnswerIntended(fileLines) == Some(4) && Answer(fileLines) == None
  {
    SevenNineLines();
    SheetAnswerOne(7, ["      ", ""], 9, ["  ", ""]);
    SevenNine();
  }

  /** As written, the script raises on every file. */
  lemma NeverPrinted(fileLines: seq<string>)
    ensures Answer(fileLines) == None
  {
  }
}
