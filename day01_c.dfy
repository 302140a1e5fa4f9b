/**
 * c/d01/src/prog_2.c: the digits-only puzzle in C.  `DIGIT_LIST` is
 * filled with 0 .. 9 by `init`; a char is a digit when its code minus that
 * of '0' equals one of the list's entries.  `get_from_left` and
 * `get_from_right` answer -1 when the first `size` chars hold no digit,
 * and main stops with a failure on such a line.
 */
module Day01C {
  import opened Wrappers
  import opened Text
  import opened Calibration

  /** The list holds 0 .. 9 at their own indexes, as `init` leaves it. */
  predicate Initialized(digitList: array<int>)
    reads digitList
  {
    digitList.Length == 10 && forall i :: 0 <= i < 10 ==> digitList[i] == i
  }

  /** `init`: each entry set to its index. */
  method Init(digitList: array<int>)
    requires digitList.Length == 10
    modifies digitList
    ensures Initialized(digitList)
  {
    for i := 0 to 10
      invariant forall j :: 0 <= j < i ==> digitList[j] == j
    {
      digitList[i] := i;
    }
  }

  /** `line[i] - ASCII_OFFSET`. */
  function Check(c: char): int {
    c as int - '0' as int
  }

  /** Some entry of an initialized list equals the check value exactly for digits. */
  lemma CheckDigit(digitList: array<int>, c: char)
    requires Initialized(digitList)
    ensures (exists j :: 0 <= j < 10 && Check(c) == digitList[j]) <==> IsDigit(c)
    ensures IsDigit(c) ==> Check(c) == DigitValue(c) as int
  {
    if IsDigit(c) {
      assert Check(c) == digitList[Check(c)];
    }
  }

  /** The C answer for a digit found or not: its value, or -1. */
  function AsInt(d: Option<nat>): (r: int)
    ensures d.None? ==> r == -1
    ensures d.Some? ==> r == d.value as int
  {
    if d.Some? then d.value as int else -1
  }

  /** The inner loop: whether some entry equals the check value of c. */
  method InList(digitList: array<int>, c: char) returns (found: bool)
    requires Initialized(digitList)
    ensures found <==> IsDigit(c)
  {
    CheckDigit(digitList, c);
    for j := 0 to 10
      invariant forall k :: 0 <= k < j ==> Check(c) != digitList[k]
    {
      var check := Check(c);
      if check == digitList[j] {
        return true;
      }
    }
    return false;
  }

  /** `get_from_left`: the first digit of the first `size` chars of the line, or -1. */
  method GetFromLeft(line: string, size: nat, digitList: array<int>) returns (res: int)
    requires size <= |line| && Initialized(digitList)
    ensures res == AsInt(FirstDigit(line[..size]))
  {
    for i := 0 to size
      invariant FirstDigit(line[..size]) == FirstDigit(line[i..size])
    {
      assert line[i..size][1..] == line[i + 1..size];
      var found := InList(digitList, line[i]);
      if found {
        CheckDigit(digitList, line[i]);
        return Check(line[i]);
      }
    }
    return -1;
  }

  /** `get_from_right`: the last digit of the first `size` chars of the line, or -1. */
  method GetFromRight(line: string, size: nat, digitList: array<int>) returns (res: int)
    requires size <= |line| && Initialized(digitList)
    ensures res == AsInt(LastDigit(line[..size]))
  {
    var i := size;
    while i > 0
      invariant 0 <= i <= size
      invariant LastDigit(line[..size]) == LastDigit(line[..i])
    {
      assert line[..i][..i - 1] == line[..i - 1];
      var found := InList(digitList, line[i - 1]);
      if found {
        CheckDigit(digitList, line[i - 1]);
        return Check(line[i - 1]);
      }
      i := i - 1;
    }
    return -1;
  }

  /**
   * main: `init`, then the lines in order; a line with no digit on either
   * side ends the run with a failure (None), otherwise 10 * left + right is
   * added to the total.  A run succeeds exactly when every line holds a
   * digit, and then its total is the digits-only answer.
   */
  method Solve(lines: seq<string>, digitList: array<int>) returns (result: Option<int>)
    requires digitList.Length == 10
    modifies digitList
    ensures result.Some? <==> AllHaveDigits(lines)
    ensures result.Some? ==> result.value == DigitTotal(lines) as int
  {
    Init(digitList);
    var total := 0;
    for i := 0 to |lines|
      invariant Initialized(digitList)
      invariant AllHaveDigits(lines[..i]) && total == DigitTotal(lines[..i]) as int
    {
      var line := lines[i];
      assert line[..|line|] == line;
      var left := GetFromLeft(line, |line|, digitList);
      var right := GetFromRight(line, |line|, digitList);
      FirstDigitNone(line);
      LastDigitNone(line);
      var lineTotal := left * 10 + right;
      if right == -1 || left == -1 {
        return None;
      }
      total := total + lineTotal;
      assert lines[..i + 1][..i] == lines[..i];
    }
    assert lines[..|lines|] == lines;
    return Some(total);
  }
}
