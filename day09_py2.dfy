/**
 * 09/prog_2.py: every stripped line of the file is split on single spaces
 * and read with `int`.  For every history the program builds the rows of
 * its difference table in a list, down to a row of zeros, puts a 0 before
 * that row, the last value of the row above before that one, and then,
 * from the bottom up, every row's first value minus the new first value
 * of the row below before every other row.  It prints the sum of the new
 * first values of the histories.
 */
module Day09Py2 {
  import opened Wrappers
  import opened Text
  import opened Oasis
  import Day03Py

  /** The values of a line, None when `int` raises on one of its pieces. */
  function LineValues(line: string): Option<seq<int>> {
    var pieces := Split(line, ' ');
    Gathered(seq(|pieces|, k requires 0 <= k < |pieces| => PyInt(pieces[k])))
  }

  /** `parse_input` on the loaded lines, None when it raises. */
  function Parsed(data: seq<string>): Option<seq<seq<int>>> {
    Gathered(seq(|data|, k requires 0 <= k < |data| => LineValues(data[k])))
  }

  /** The comprehension of one line. */
  method ParseLine(line: string) returns (r: Option<seq<int>>)
    ensures r == LineValues(line)
  {
    var pieces := Split(line, ' ');
    ghost var xs := seq(|pieces|, k requires 0 <= k < |pieces| => PyInt(pieces[k]));
    var values: seq<int> := [];
    for k := 0 to |pieces|
      invariant |values| == k
      invariant forall i :: 0 <= i < k ==> xs[i] == Some(values[i])
    {
      var x := PyInt(pieces[k]);
      assert xs[k] == x;
      if x.None? {
        GatheredNone(xs, k);
        return None;
      }
      GatheredStep(xs, values, x.value);
      values := values + [x.value];
    }
    GatheredAll(xs, values);
    return Some(values);
  }

  /** `parse_input`: one list of values per line. */
  method ParseInput(rawDataInput: seq<string>) returns (r: Option<seq<seq<int>>>)
    ensures r == Parsed(rawDataInput)
  {
    ghost var xs := seq(|rawDataInput|, k requires 0 <= k < |rawDataInput| => LineValues(rawDataInput[k]));
    var result: seq<seq<int>> := [];
    for k := 0 to |rawDataInput|
      invariant |result| == k
      invariant forall i :: 0 <= i < k ==> xs[i] == Some(result[i])
    {
      var line := ParseLine(rawDataInput[k]);
      assert xs[k] == line;
      if line.None? {
        GatheredNone(xs, k);
        return None;
      }
      GatheredStep(xs, result, line.value);
      result := result + [line.value];
    }
    GatheredAll(xs, result);
    return Some(result);
  }

  /** `check_sequence`: whether every value is 0. */
  method CheckSequence(s: seq<int>) returns (b: bool)
    ensures b <==> AllZero(s)
  {
    for i := 0 to |s|
      invariant AllZero(s[..i])
    {
      if s[i] != 0 {
        assert !AllZero(s);
        return false;
      }
      assert s[..i + 1] == s[..i] + [s[i]];
    }
    assert s[..|s|] == s;
    return true;
  }

  /**
   * The body of the loop over the histories: the new first value of the
   * history, None when the history is all zeros and `sequences[-2]`
   * raises IndexError.
   */
  method Extrapolate(toProcess: seq<int>) returns (r: Option<int>)
    ensures r == if AllZero(toProcess) then None else Some(Before(toProcess))
  {
    var sequences := Rows(toProcess);
    var n := |sequences|;
    if n < 2 {
      return None;
    }
    sequences := InsertBottom(sequences, toProcess);
    sequences := InsertFirsts(sequences, toProcess);
    TableRows(toProcess, 0);
    return Some(sequences[0][0]);
  }

  /**
   * The two inserts below the loop: a 0 before the row of zeros, and the
   * last value of the row above it, which holds one value, before that row.
   */
  method InsertBottom(rows: seq<seq<int>>, ghost s: seq<int>) returns (sequences: seq<seq<int>>)
    requires rows == Table(s) && |rows| >= 2
    ensures |sequences| == |rows| && sequences[|rows| - 1] == [0] + rows[|rows| - 1]
    ensures Lifting(s, sequences, |rows| - 2)
  {
    var n := |rows|;
    TableRows(s, n - 2);
    var second := rows[n - 2];
    BottomRow(second, rows[n - 1]);
    sequences := rows[n - 1 := [0] + rows[n - 1]][n - 2 := [second[|second| - 1]] + second];
    LiftedBottom(s, rows, sequences);
  }

  /** The rows with the value before the row above the zeros put in front of it are lifting from there. */
  lemma LiftedBottom(s: seq<int>, rows: seq<seq<int>>, sequences: seq<seq<int>>)
    requires rows == Table(s) && |rows| >= 2 && |sequences| == |rows|
    requires forall j :: 0 <= j < |rows| - 2 ==> sequences[j] == rows[j]
    requires sequences[|rows| - 2] == [Before(rows[|rows| - 2])] + rows[|rows| - 2]
    ensures Lifting(s, sequences, |rows| - 2)
  {
  }

  /**
   * The rows of the table from `index` down to the one above the zeros
   * have their new first value, the value before them; those above are as
   * they were.
   */
  predicate Lifting(s: seq<int>, rows: seq<seq<int>>, index: nat) {
    var t := Table(s);
    |rows| == |t| && index < |t| &&
    (forall j :: 0 <= j < index ==> rows[j] == t[j]) &&
    (forall j :: index <= j < |t| - 1 ==> rows[j] == [Before(t[j])] + t[j])
  }

  /** The loop from the third row from the bottom up: every row above the zeros gets the value before it. */
  method InsertFirsts(rows: seq<seq<int>>, ghost s: seq<int>) returns (sequences: seq<seq<int>>)
    requires |rows| >= 2 && Lifting(s, rows, |rows| - 2)
    ensures |sequences| == |rows| && sequences[|rows| - 1] == rows[|rows| - 1]
    ensures Lifting(s, sequences, 0)
  {
    var n := |rows|;
    sequences := rows;
    for index := n - 2 downto 0
      invariant Lifting(s, sequences, index) && sequences[n - 1] == rows[n - 1]
    {
      LiftStep(s, sequences, index);
      sequences := sequences[index := [sequences[index][0] - sequences[index + 1][0]] + sequences[index]];
    }
  }

  /** One row more: its first value minus the new first value of the row below is the value before it. */
  lemma LiftStep(s: seq<int>, rows: seq<seq<int>>, index: nat)
    requires Lifting(s, rows, index + 1) && index + 2 < |rows|
    ensures rows[index] != [] && rows[index + 1] != []
    ensures Lifting(s, rows[index := [rows[index][0] - rows[index + 1][0]] + rows[index]], index)
  {
    var t := Table(s);
    LiftedFirst(s, rows, index);
    var u := rows[index := [rows[index][0] - rows[index + 1][0]] + rows[index]];
    forall j | index < j < |t| - 1
      ensures u[j] == [Before(t[j])] + t[j]
    {
      assert u[j] == rows[j];
    }
  }

  /** The row at `index` is still the table's, and its new first value is the value before it. */
  lemma LiftedFirst(s: seq<int>, rows: seq<seq<int>>, index: nat)
    requires Lifting(s, rows, index + 1) && index + 2 < |rows|
    ensures rows[index] == Table(s)[index] != [] && rows[index + 1] != []
    ensures rows[index][0] - rows[index + 1][0] == Before(Table(s)[index])
  {
    var t := Table(s);
    TableRows(s, index);
    UpRow(t[index], t[index + 1]);
    assert rows[index] == t[index] && rows[index + 1] == [Before(t[index + 1])] + t[index + 1];
  }

  /** The while loop: the rows of the table, each the differences of the row above. */
  method Rows(toProcess: seq<int>) returns (sequences: seq<seq<int>>)
    ensures sequences == Table(toProcess)
  {
    sequences := [toProcess];
    var done := CheckSequence(toProcess);
    while !done
      invariant Prefix(toProcess, sequences)
      invariant done <==> AllZero(sequences[|sequences| - 1])
      decreases |Table(toProcess)| - |sequences|
    {
      var toAppend := Diffs(sequences[|sequences| - 1]);
      PrefixGrows(toProcess, sequences);
      sequences := sequences + [toAppend];
      done := CheckSequence(toAppend);
    }
    PrefixDone(toProcess, sequences);
  }

  /** The rows built so far: the first rows of the table. */
  predicate Prefix(s: seq<int>, rows: seq<seq<int>>) {
    1 <= |rows| <= |Table(s)| && rows == Table(s)[..|rows|]
  }

  /** The differences of a last row that is not all zeros are the next row of the table. */
  lemma PrefixGrows(s: seq<int>, rows: seq<seq<int>>)
    requires Prefix(s, rows) && !AllZero(rows[|rows| - 1])
    ensures Prefix(s, rows + [Diffs(rows[|rows| - 1])]) && |rows| < |Table(s)|
  {
    var t := Table(s);
    var n := |rows|;
    assert rows[n - 1] == t[n - 1];
    TableRows(s, n - 1);
    TakeOneMore(t, n);
  }

  /** Once the last row built is all zeros, the rows are the table. */
  lemma PrefixDone(s: seq<int>, rows: seq<seq<int>>)
    requires Prefix(s, rows) && AllZero(rows[|rows| - 1])
    ensures rows == Table(s)
  {
    var t := Table(s);
    if |rows| < |t| {
      assert rows[|rows| - 1] == t[|rows| - 1];
      TableRows(s, |rows| - 1);
    }
    assert t[..|t|] == t;
  }

  /** The row above the zeros holds one value, so its last value is the value before it. */
  lemma BottomRow(s: seq<int>, zeros: seq<int>)
    requires !AllZero(s) && zeros == Diffs(s) && AllZero(zeros)
    ensures |s| > 0 && s[|s| - 1] == Before(s)
  {
    FlatRow(s, |s| - 1);
  }

  /** A row above another: its value before is its first value minus the one of the row below. */
  lemma UpRow(s: seq<int>, below: seq<int>)
    requires !AllZero(s) && below == Diffs(s)
    ensures |s| > 0 && Before(s) == s[0] - Before(below)
  {
  }

  /** What the program prints for the lines of the file, None when it raises. */
  function Answer(fileLines: seq<string>): Option<int> {
    match Parsed(Day03Py.Loaded(fileLines))
    case None => None
    case Some(report) =>
      if report != [] && NoZeroHistory(report) then Some(BeforeSum(report)) else None
  }

  /**
   * The program: `load_input`, `parse_input`, the loop over the histories,
   * then `print(sequences)`, a NameError when the file has no line.
   */
  method Run(fileLines: seq<string>) returns (result: Option<int>)
    ensures result == Answer(fileLines)
  {
    var inputLines := Day03Py.LoadInput(fileLines);
    assert inputLines == Day03Py.Loaded(fileLines);
    var dataInput := ParseInput(inputLines);
    if dataInput.None? {
      return None;
    }
    var total := SumHistories(dataInput.value);
    if total.None? || |dataInput.value| == 0 {
      return None;
    }
    return total;
  }

  /** The loop adding up the new first values, None at the first history of zeros. */
  method SumHistories(histories: seq<seq<int>>) returns (r: Option<int>)
    ensures r == if NoZeroHistory(histories) then Some(BeforeSum(histories)) else None
  {
    var result := 0;
    for i := 0 to |histories|
      invariant result == BeforeSum(histories[..i])
      invariant NoZeroHistory(histories[..i])
    {
      var x := Extrapolate(histories[i]);
      if x.None? {
        return None;
      }
      SumStep(histories, i);
      result := result + x.value;
    }
    assert histories[..|histories|] == histories;
    return Some(result);
  }

  /** No history of the report is all zeros. */
  predicate NoZeroHistory(report: seq<seq<int>>) {
    forall k :: 0 <= k < |report| ==> !AllZero(report[k])
  }

  /** The sum over one more history. */
  lemma SumStep(report: seq<seq<int>>, i: nat)
    requires i < |report|
    ensures BeforeSum(report[..i + 1]) == BeforeSum(report[..i]) + Before(report[i])
    ensures NoZeroHistory(report[..i]) && !AllZero(report[i]) ==> NoZeroHistory(report[..i + 1])
  {
    assert report[..i + 1][..i] == report[..i];
    if NoZeroHistory(report[..i]) && !AllZero(report[i]) {
      var grown := report[..i + 1];
      forall k | 0 <= k < |grown|
        ensures !AllZero(grown[k])
      {
        if k < i {
          assert report[..i][k] == report[k];
        }
      }
    }
  }

  /** A file without lines ends in a NameError. */
  lemma EmptyFileRaises()
    ensures Answer([]) == None
  {
    assert Day03Py.Loaded([]) == [];
    assert Parsed([]) == Some([]);
  }

  /** A history of zeros (an empty line cannot be one: `int('')` raises first) ends the program. */
  lemma ZerosRaise(fileLines: seq<string>, k: nat)
    requires Parsed(Day03Py.Loaded(fileLines)).Some?
    requires k < |Parsed(Day03Py.Loaded(fileLines)).value| && AllZero(Parsed(Day03Py.Loaded(fileLines)).value[k])
    ensures Answer(fileLines) == None
  {
  }

  /** The file of a report: every history's text on a line of its own, with its newline. */
  function FileLines(report: seq<seq<int>>): (r: seq<string>)
    ensures |r| == |report|
  {
    seq(|report|, k requires 0 <= k < |report| => HistoryText(report[k]) + "\n")
  }

  /** The line of a non-empty history reads back as the history. */
  lemma LineRoundTrip(vs: seq<int>)
    requires vs != []
    ensures LineValues(Trim(HistoryText(vs) + "\n")) == Some(vs)
  {
    HistoryTrimmed(vs);
    HistoryPieces(vs);
    var words := ValueTexts(vs);
    var xs := seq(|words|, k requires 0 <= k < |words| => PyInt(words[k]));
    forall k | 0 <= k < |vs|
      ensures xs[k] == Some(vs[k])
    {
      PyIntSignedDecimal(vs[k]);
    }
    GatheredAll(xs, vs);
  }

  /** `strip` leaves the text of a non-empty history as it is. */
  lemma HistoryTrimmed(vs: seq<int>)
    requires vs != []
    ensures Trim(HistoryText(vs) + "\n") == HistoryText(vs)
  {
    var words := ValueTexts(vs);
    var d := HistoryText(vs);
    JoinEnds(words, " ");
    SignedWord(vs[0]);
    SignedWord(vs[|vs| - 1]);
    TrimNewline(d);
  }

  /** Split on single spaces, the text of a non-empty history gives the texts of its values. */
  lemma HistoryPieces(vs: seq<int>)
    requires vs != []
    ensures Split(HistoryText(vs), ' ') == ValueTexts(vs)
  {
    var words := ValueTexts(vs);
    assert forall k :: 0 <= k < |words| ==> ' ' !in words[k];
    JoinSplit(words, ' ');
  }

  /** The file of a report whose histories are not all zeros reads back as the report, and its answer is the sum of the values before them. */
  lemma ReportAnswer(report: seq<seq<int>>)
    requires report != [] && NoZeroHistory(report)
    ensures Parsed(Day03Py.Loaded(FileLines(report))) == Some(report)
    ensures Answer(FileLines(report)) == Some(BeforeSum(report))
  {
    var data := Day03Py.Loaded(FileLines(report));
    var xs := seq(|data|, k requires 0 <= k < |data| => LineValues(data[k]));
    forall k | 0 <= k < |report|
      ensures xs[k] == Some(report[k])
    {
      LineRoundTrip(report[k]);
    }
    GatheredAll(xs, report);
  }
}
