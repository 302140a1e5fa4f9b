/**
 * rust/d01_1: the first digit of a line found by comparing each char in
 * turn with the char of every number of a list, the last digit found as
 * the first digit of the reversed line, and the sum of the calibration
 * values 10 * left + right over the lines.
 */
module Day01Rust1 {
  import opened Wrappers
  import opened Text
  import opened Calibration

  /** A `Number` of rust/d01_1 holds only its `u8` numeric value. */
  datatype Number = Number(numeric: nat)

  /** The list main builds: the numbers 0 to 9 in order. */
  const Numbers: seq<Number> := [Number(0), Number(1), Number(2), Number(3), Number(4), Number(5), Number(6), Number(7), Number(8), Number(9)]

  /**
   * `Number::get_numeric_as_char`: the char whose code is numeric + 0x30.
   * The `u8` addition overflows (a panic) from numeric 208 on.
   */
  function NumericAsChar(numeric: nat): (c: char)
    requires numeric + 0x30 < 256
    ensures c as int == numeric + 0x30
  {
    (numeric + 0x30) as char
  }

  /** The chars of the numerics below 10 are the decimal digits with those values. */
  lemma NumericAsDigit(n: nat)
    requires n < 10
    ensures IsDigit(NumericAsChar(n)) && DigitValue(NumericAsChar(n)) == n
  {
  }

  predicate ValidNumbers(numbers: seq<Number>) {
    forall k :: 0 <= k < |numbers| ==> numbers[k].numeric < 208
  }

  /** The smallest index of a number whose char is c, if any. */
  function CharIndex(c: char, numbers: seq<Number>): (r: Option<nat>)
    requires ValidNumbers(numbers)
    ensures r.Some? ==> r.value < |numbers| && c == NumericAsChar(numbers[r.value].numeric)
    ensures r.Some? ==> forall j :: 0 <= j < r.value ==> c != NumericAsChar(numbers[j].numeric)
    ensures r.None? ==> forall j :: 0 <= j < |numbers| ==> c != NumericAsChar(numbers[j].numeric)
  {
    if numbers == [] then None
    else if c == NumericAsChar(numbers[0].numeric) then Some(0)
    else match CharIndex(c, numbers[1..])
      case None => None
      case Some(k) => Some(k + 1)
  }

  /** A number whose char is c and is preceded by none is the one CharIndex finds. */
  lemma CharIndexAt(c: char, numbers: seq<Number>, k: nat)
    requires ValidNumbers(numbers) && k < |numbers| && c == NumericAsChar(numbers[k].numeric)
    requires forall j :: 0 <= j < k ==> c != NumericAsChar(numbers[j].numeric)
    ensures CharIndex(c, numbers) == Some(k)
  {
  }

  /** The index found for the leftmost char of the line that is the char of some number. */
  function FirstNumeral(line: string, numbers: seq<Number>): Option<nat>
    requires ValidNumbers(numbers)
  {
    if line == [] then None
    else match CharIndex(line[0], numbers)
      case Some(k) => Some(k)
      case None => FirstNumeral(line[1..], numbers)
  }

  /** With the numbers 0 to 9, the first numeral found is the first digit of the line. */
  lemma {:induction false} StandardNumeral(line: string)
    ensures ValidNumbers(Numbers) && FirstNumeral(line, Numbers) == FirstDigit(line)
  {
    assert ValidNumbers(Numbers);
    if line != [] {
      var c := line[0];
      if IsDigit(c) {
        var d := DigitValue(c);
        assert c == NumericAsChar(Numbers[d].numeric);
        forall j | 0 <= j < d ensures c != NumericAsChar(Numbers[j].numeric) {
          NumericAsDigit(j);
        }
        CharIndexAt(c, Numbers, d);
      } else {
        forall j | 0 <= j < 10 ensures c != NumericAsChar(Numbers[j].numeric) {
          NumericAsDigit(j);
        }
        assert CharIndex(c, Numbers).None?;
      }
      StandardNumeral(line[1..]);
    }
  }

  /**
   * `get_first_digit_in_line`: each char in turn against the first `size`
   * numbers in order, returning the index of the first number that equals it.
   */
  method GetFirstDigitInLine(line: string, numbers: seq<Number>, size: nat) returns (r: Option<nat>)
    requires size <= |numbers| && ValidNumbers(numbers)
    ensures r == FirstNumeral(line, numbers[..size])
  {
    var list := numbers[..size];
    for p := 0 to |line|
      invariant FirstNumeral(line, list) == FirstNumeral(line[p..], list)
    {
      assert line[p..][1..] == line[p + 1..];
      for i := 0 to size
        invariant forall j :: 0 <= j < i ==> line[p] != NumericAsChar(list[j].numeric)
      {
        if line[p] == NumericAsChar(numbers[i].numeric) {
          assert CharIndex(line[p], list) == Some(i);
          return Some(i);
        }
      }
    }
    return None;
  }

  /** `get_reversed_string`: the chars pushed from the last to the first. */
  method GetReversedString(input: string) returns (result: string)
    ensures result == Reverse(input)
  {
    result := "";
    for i := 0 to |input|
      invariant |result| == i
      invariant forall j :: 0 <= j < i ==> result[j] == input[|input| - 1 - j]
    {
      result := result + [input[|input| - 1 - i]];
    }
  }

  /**
   * A found index converted to the `u8` digit (`try_into`), or 0 when no
   * number was found or the index does not fit.
   */
  function DigitOf(found: Option<nat>): (d: nat)
    ensures found.Some? && found.value < 256 ==> d == found.value
    ensures found.None? || found.value >= 256 ==> d == 0
  {
    match found
    case Some(index) => if index < 256 then index else 0
    case None => 0
  }

  /** main's loop: the sum over the lines of 10 * left + right; this is the digits-only answer. */
  method Solve(lines: seq<string>) returns (result: nat)
    ensures result == DigitTotal(lines)
  {
    result := 0;
    for i := 0 to |lines|
      invariant result == DigitTotal(lines[..i])
    {
      var line := lines[i];
      StandardNumeral(line);
      var first := GetFirstDigitInLine(line, Numbers, 10);
      assert Numbers[..10] == Numbers;
      var leftDigit := DigitOf(first);
      var reversed := GetReversedString(line);
      var last := GetFirstDigitInLine(reversed, Numbers, 10);
      StandardNumeral(reversed);
      FirstOfReverse(line);
      var rightDigit := DigitOf(last);
      result := result + (10 * leftDigit + rightDigit);
      assert lines[..i + 1][..i] == lines[..i];
    }
    assert lines[..|lines|] == lines;
  }
}
