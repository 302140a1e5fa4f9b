/**
 * py/01/prog_1.py: the digits-only puzzle.  `process_line` tries `int` on
 * each char in turn and keeps the first that converts; with no such char
 * `x` is unbound and `return x` raises, which the model answers with
 * None.  The right digit is the first digit of the reversed line.
 */
module Day01Py1 {
  import opened Wrappers
  import opened Text
  import opened Calibration

  /** `process_line`: the value of the first char `int` accepts, None where Python raises. */
  method ProcessLine(line: string) returns (x: Option<nat>)
    ensures x == FirstDigit(line)
    ensures x.None? <==> NoDigit(line)
  {
    FirstDigitNone(line);
    for i := 0 to |line|
      invariant FirstDigit(line) == FirstDigit(line[i..])
    {
      assert line[i..][1..] == line[i + 1..];
      var tryInt := PyInt([line[i]]);
      PyIntChar(line[i]);
      if tryInt.Some? {
        return Some(tryInt.value as nat);
      }
    }
    assert line[|line|..] == [];
    return None;
  }

  /**
   * The main loop: one value per line into `output_list`, then its sum.
   * The run completes exactly when every line holds a digit, and then
   * prints the digits-only answer.
   */
  method Solve(lines: seq<string>) returns (result: Option<nat>)
    ensures result.Some? <==> AllHaveDigits(lines)
    ensures result.Some? ==> result.value == DigitTotal(lines)
  {
    var total := 0;
    for i := 0 to |lines|
      invariant AllHaveDigits(lines[..i]) && total == DigitTotal(lines[..i])
    {
      var line := lines[i];
      var x := ProcessLine(line);
      var y := ProcessLine(Reverse(line));
      FirstOfReverse(line);
      LastDigitNone(line);
      if x.None? || y.None? {
        return None;
      }
      total := total + (x.value * 10 + y.value);
      assert lines[..i + 1][..i] == lines[..i];
    }
    assert lines[..|lines|] == lines;
    return Some(total);
  }
}
