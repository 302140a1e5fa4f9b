/**
 * rust/d09_2: every line of the report is a history of `i64` values; for
 * each one `process_sequence` builds the rows of its difference table
 * above the first row of zeros and folds them from the deepest up into the
 * value before the first one.  main prints the sum of those values.
 */
module Day09Rust2 {
  import opened Wrappers
  import opened Text
  import opened Oasis

  const I64Min: int := -0x8000_0000_0000_0000
  const I64Max: int := 0x7FFF_FFFF_FFFF_FFFF

  /** How main ends: the result printed, the error of `get_input`, or the panic of `unwrap`. */
  datatype Outcome = Printed(result: int) | InputError | Panic

  /** The values of one line, None at the first token that is no `i64`. */
  function LineValues(line: string): Option<seq<int>> {
    var tokens := SplitWhitespace(line);
    Gathered(seq(|tokens|, k requires 0 <= k < |tokens| => ParseSigned(tokens[k], I64Min, I64Max)))
  }

  /** `get_input` on the file's content. */
  function Input(content: string): Option<seq<seq<int>>> {
    var lines := Lines(content);
    Gathered(seq(|lines|, k requires 0 <= k < |lines| => LineValues(lines[k])))
  }

  /** The loop over the tokens of one line. */
  method ReadLine(line: string) returns (r: Option<seq<int>>)
    ensures r == LineValues(line)
  {
    var tokens := SplitWhitespace(line);
    ghost var xs := seq(|tokens|, k requires 0 <= k < |tokens| => ParseSigned(tokens[k], I64Min, I64Max));
    var sequence: seq<int> := [];
    for t := 0 to |tokens|
      invariant |sequence| == t
      invariant forall k :: 0 <= k < t ==> xs[k] == Some(sequence[k])
    {
      var val := ParseSigned(tokens[t], I64Min, I64Max);
      assert xs[t] == val;
      if val.None? {
        GatheredNone(xs, t);
        return None;
      }
      GatheredStep(xs, sequence, val.value);
      sequence := sequence + [val.value];
    }
    GatheredAll(xs, sequence);
    return Some(sequence);
  }

  /** `get_input` once the file is read: one sequence per line. */
  method GetInput(content: string) returns (r: Option<seq<seq<int>>>)
    ensures r == Input(content)
  {
    var lines := Lines(content);
    ghost var xs := seq(|lines|, k requires 0 <= k < |lines| => LineValues(lines[k]));
    var sequences: seq<seq<int>> := [];
    for l := 0 to |lines|
      invariant |sequences| == l
      invariant forall k :: 0 <= k < l ==> xs[k] == Some(sequences[k])
    {
      var sequence := ReadLine(lines[l]);
      assert xs[l] == sequence;
      if sequence.None? {
        GatheredNone(xs, l);
        return None;
      }
      GatheredStep(xs, sequences, sequence.value);
      sequences := sequences + [sequence.value];
    }
    GatheredAll(xs, sequences);
    return Some(sequences);
  }

  /**
   * `processed_sequences`: the history and its rows of differences, down to
   * the row whose differences are all zero.  The history itself is never
   * tested, so a history of zeros is kept as one row.
   */
  function Processed(s: seq<int>): (r: seq<seq<int>>)
    ensures |r| >= 1 && r[0] == s
    decreases |s|
  {
    if AllZero(Diffs(s)) then [s] else [s] + Processed(Diffs(s))
  }

  /**
   * The fold over the reversed rows: each row's first value minus what the
   * row below gave, from 0 below the deepest; None when a row is empty,
   * where `get(0).unwrap()` panics.
   */
  function Firsts(rows: seq<seq<int>>): Option<int> {
    if rows == [] then Some(0)
    else if rows[0] == [] then None
    else match Firsts(rows[1..])
      case None => None
      case Some(x) => Some(rows[0][0] - x)
  }

  /** The rows are those of the difference table: the fold gives the value before the history. */
  lemma {:induction false} ProcessedFirsts(s: seq<int>)
    ensures Firsts(Processed(s)) == if s == [] then None else Some(Before(s))
    decreases |s|
  {
    var d := Diffs(s);
    if AllZero(d) {
      assert Processed(s) == [s];
      assert Before(d) == 0;
      if s != [] {
        assert [s][1..] == [];
      }
    } else {
      var rest := Processed(d);
      assert Processed(s) == [s] + rest && ([s] + rest)[1..] == rest;
      ProcessedFirsts(d);
      assert !AllZero(s);
    }
  }

  /** An empty row makes the fold panic, wherever it is. */
  lemma {:induction false} FirstsEmpty(rows: seq<seq<int>>, j: nat)
    requires j < |rows| && rows[j] == []
    ensures Firsts(rows) == None
  {
    if j > 0 {
      FirstsEmpty(rows[1..], j - 1);
    }
  }

  /** `process_sequence`: the value extrapolated before the history, or a panic for an empty line. */
  method ProcessSequence(sequence: seq<int>) returns (r: Option<int>)
    ensures r == if sequence == [] then None else Some(Before(sequence))
  {
    var finished := false;
    var currentSequence := sequence;
    var processedSequences: seq<seq<int>> := [];
    NoRowsAbove(Processed(sequence));
    while !finished
      invariant finished ==> Processed(sequence) == processedSequences
      invariant !finished ==> Processed(sequence) == processedSequences + Processed(currentSequence)
      decreases |currentSequence| + (if finished then 0 else 1)
    {
      var nextSequence := Differences(currentSequence);
      finished := ZeroCheck(nextSequence);
      ProcessedStep(currentSequence, processedSequences, Processed(sequence));
      processedSequences := processedSequences + [currentSequence];
      currentSequence := nextSequence;
    }
    r := FoldFirsts(processedSequences);
    ProcessedFirsts(sequence);
  }

  /** No rows above: the rows are the ones that come. */
  lemma NoRowsAbove(rows: seq<seq<int>>)
    ensures [] + rows == rows
  {
  }

  /** One more row: the rows above it and what comes of it give the same rows. */
  lemma ProcessedStep(current: seq<int>, above: seq<seq<int>>, all: seq<seq<int>>)
    requires all == above + Processed(current)
    ensures AllZero(Diffs(current)) ==> all == above + [current]
    ensures !AllZero(Diffs(current)) ==> all == (above + [current]) + Processed(Diffs(current))
  {
  }

  /** The loop setting `check` while it finds only zeros. */
  method ZeroCheck(next: seq<int>) returns (check: bool)
    ensures check <==> AllZero(next)
  {
    check := true;
    for i := 0 to |next|
      invariant check <==> AllZero(next[..i])
    {
      if next[i] != 0 {
        check := false;
      }
    }
    assert next[..|next|] == next;
  }

  /** The loop building `next_sequence` with its `current_nb` and `last_nb`. */
  method Differences(current: seq<int>) returns (next: seq<int>)
    ensures next == Diffs(current)
  {
    next := [];
    var currentNb := 0;
    for index := 0 to |current|
      invariant |next| == if index == 0 then 0 else index - 1
      invariant forall i :: 0 <= i < |next| ==> next[i] == current[i + 1] - current[i]
      invariant index > 0 ==> currentNb == current[index - 1]
    {
      if index == 0 {
        currentNb := current[index];
        continue;
      }
      var lastNb := currentNb;
      currentNb := current[index];
      next := next + [currentNb - lastNb];
    }
  }

  /** `reverse`, then the fold from the deepest row up. */
  method FoldFirsts(processed: seq<seq<int>>) returns (r: Option<int>)
    ensures r == Firsts(processed)
  {
    var n := |processed|;
    var reversed := Reverse(processed);
    var lastSeqFirstNb := 0;
    var currentSeqFirstNb := 0;
    for i := 0 to n
      invariant Firsts(processed[n - i..]) == Some(lastSeqFirstNb)
      invariant currentSeqFirstNb == lastSeqFirstNb
    {
      var processedSeq := reversed[i];
      assert processedSeq == processed[n - 1 - i];
      if |processedSeq| == 0 {
        FirstsEmpty(processed, n - 1 - i);
        return None;
      }
      assert processed[n - 1 - i..][1..] == processed[n - i..];
      currentSeqFirstNb := processedSeq[0] - lastSeqFirstNb;
      lastSeqFirstNb := currentSeqFirstNb;
    }
    assert processed[n - n..] == processed;
    return Some(currentSeqFirstNb);
  }

  /** What main ends with for the file's content. */
  function Answer(content: string): Outcome {
    match Input(content)
    case None => InputError
    case Some(report) =>
      if forall k :: 0 <= k < |report| ==> report[k] != [] then Printed(BeforeSum(report)) else Panic
  }

  /** main once the file is read. */
  method Run(content: string) returns (o: Outcome)
    ensures o == Answer(content)
  {
    var input := GetInput(content);
    if input.None? {
      return InputError;
    }
    var res := SumSequences(input.value);
    if res.None? {
      return Panic;
    }
    return Printed(res.value);
  }

  /** The loop of main adding up what `process_sequence` gives, None at its first panic. */
  method SumSequences(sequences: seq<seq<int>>) returns (r: Option<int>)
    ensures r == if forall k :: 0 <= k < |sequences| ==> sequences[k] != [] then Some(BeforeSum(sequences)) else None
  {
    var res := 0;
    for i := 0 to |sequences|
      invariant res == BeforeSum(sequences[..i])
      invariant forall k :: 0 <= k < i ==> sequences[k] != []
    {
      var x := ProcessSequence(sequences[i]);
      if x.None? {
        return None;
      }
      SumStep(sequences, i);
      res := res + x.value;
    }
    assert sequences[..|sequences|] == sequences;
    return Some(res);
  }

  /** The sum over one more history. */
  lemma SumStep(report: seq<seq<int>>, i: nat)
    requires i < |report|
    ensures BeforeSum(report[..i + 1]) == BeforeSum(report[..i]) + Before(report[i])
  {
    assert report[..i + 1][..i] == report[..i];
  }

  /** The text of a report: its histories on lines of their own. */
  function ReportText(report: seq<seq<int>>): string {
    Join(seq(|report|, k requires 0 <= k < |report| => HistoryText(report[k])), "\n")
  }

  predicate InRange(report: seq<seq<int>>) {
    forall k, i :: 0 <= k < |report| && 0 <= i < |report[k]| ==> I64Min <= report[k][i] <= I64Max
  }

  /** The tokens of a history's text are its values' texts. */
  lemma HistoryTokens(vs: seq<int>)
    ensures SplitWhitespace(HistoryText(vs)) == ValueTexts(vs)
  {
    var words := ValueTexts(vs);
    forall k | 0 <= k < |words|
      ensures IsWord(words[k])
    {
      SignedWord(vs[k]);
    }
    SplitWhitespaceJoin(words);
  }

  /** A history's text reads back as the history, when its values are `i64` values. */
  lemma HistoryRoundTrip(vs: seq<int>)
    requires forall i :: 0 <= i < |vs| ==> I64Min <= vs[i] <= I64Max
    ensures LineValues(HistoryText(vs)) == Some(vs)
  {
    HistoryTokens(vs);
    var tokens := SplitWhitespace(HistoryText(vs));
    var xs := seq(|tokens|, k requires 0 <= k < |tokens| => ParseSigned(tokens[k], I64Min, I64Max));
    forall k | 0 <= k < |vs|
      ensures xs[k] == Some(vs[k])
    {
      ParseSignedDecimal(vs[k], I64Min, I64Max);
    }
    GatheredAll(xs, vs);
  }

  /** A history's text has no newline, and is empty only for an empty history. */
  lemma {:induction false} HistoryLine(vs: seq<int>)
    ensures '\n' !in HistoryText(vs)
    ensures vs != [] ==> HistoryText(vs) != ""
  {
    var words := ValueTexts(vs);
    NotInJoin(words, " ", '\n');
    if vs != [] {
      HistoryTokens(vs);
    }
  }

  /**
   * The text of a report of non-empty histories of `i64` values, with or
   * without a final newline, reads back as the report.
   */
  lemma ReportRoundTrip(report: seq<seq<int>>, content: string)
    requires |report| >= 1 && InRange(report) && forall k :: 0 <= k < |report| ==> report[k] != []
    requires content == ReportText(report) || content == ReportText(report) + "\n"
    ensures Input(content) == Some(report)
  {
    var ls := seq(|report|, k requires 0 <= k < |report| => HistoryText(report[k]));
    forall k | 0 <= k < |report|
      ensures '\n' !in ls[k] && ls[k] != ""
    {
      HistoryLine(report[k]);
    }
    if content == ReportText(report) {
      LinesJoin(ls);
    } else {
      LinesJoinEnd(ls);
    }
    var xs := seq(|ls|, k requires 0 <= k < |ls| => LineValues(ls[k]));
    forall k | 0 <= k < |report|
      ensures xs[k] == Some(report[k])
    {
      HistoryRoundTrip(report[k]);
    }
    GatheredAll(xs, report);
  }

  /** For such a report main prints the sum of the values extrapolated before every history. */
  lemma ReportAnswer(report: seq<seq<int>>, content: string)
    requires |report| >= 1 && InRange(report) && forall k :: 0 <= k < |report| ==> report[k] != []
    requires content == ReportText(report) || content == ReportText(report) + "\n"
    ensures Answer(content) == Printed(BeforeSum(report))
  {
    ReportRoundTrip(report, content);
  }

  /** A blank line is an empty history, on which `process_sequence` panics. */
  lemma BlankPanics(content: string, k: nat)
    requires Input(content).Some? && k < |Input(content).value| && Input(content).value[k] == []
    ensures Answer(content) == Panic
  {
  }
}
