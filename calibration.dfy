/**
 * Day 1 (trebuchet calibration): the reference definitions the five day 1
 * programs are measured against.  A line's calibration value is ten times
 * its first digit plus its last digit; the spelled-out variant also counts
 * the words "zero" .. "nine".  Also the greedy subsequence count behind the
 * letter buffers of rust/d01_2 and its agreement with subsequence-ness.
 */
module Calibration {
  import opened Wrappers
  import opened Text

  /** The spelled-out digits, indexed by their value. */
  const Words: seq<string> := ["zero", "one", "two", "three", "four", "five", "six", "seven", "eight", "nine"]

  predicate Lowercase(c: char) { 'a' <= c <= 'z' }

  predicate LowerWord(w: string) { forall i :: 0 <= i < |w| ==> Lowercase(w[i]) }

  predicate NoLetters(s: string) { forall i :: 0 <= i < |s| ==> !Lowercase(s[i]) }

  /** Every word is lower-case and at least three letters long. */
  lemma WordsShape()
    ensures |Words| == 10 && forall k :: 0 <= k < 10 ==> 3 <= |Words[k]| && LowerWord(Words[k])
  {
    assert LowerWord("zero") && LowerWord("one") && LowerWord("two") && LowerWord("three") && LowerWord("four");
    assert LowerWord("five") && LowerWord("six") && LowerWord("seven") && LowerWord("eight") && LowerWord("nine");
  }

  predicate AllHaveDigits(lines: seq<string>) { forall k :: 0 <= k < |lines| ==> !NoDigit(lines[k]) }

  predicate NoDigit(s: string) { forall i :: 0 <= i < |s| ==> !IsDigit(s[i]) }

  /** The value of the leftmost digit of s. */
  function FirstDigit(s: string): (r: Option<nat>)
    ensures r.Some? ==> r.value < 10
  {
    if s == [] then None
    else if IsDigit(s[0]) then Some(DigitValue(s[0]))
    else FirstDigit(s[1..])
  }

  /** The value of the rightmost digit of s. */
  function LastDigit(s: string): (r: Option<nat>)
    ensures r.Some? ==> r.value < 10
  {
    if s == [] then None
    else if IsDigit(s[|s| - 1]) then Some(DigitValue(s[|s| - 1]))
    else LastDigit(s[..|s| - 1])
  }

  /** FirstDigit finds nothing exactly on digit-free strings. */
  lemma {:induction false} FirstDigitNone(s: string)
    ensures FirstDigit(s).None? <==> NoDigit(s)
  {
    if s != [] {
      FirstDigitNone(s[1..]);
      if !IsDigit(s[0]) {
        assert forall i :: 1 <= i < |s| ==> s[i] == s[1..][i - 1];
      }
    }
  }

  /** FirstDigit reads the digit at the one position preceded only by non-digits. */
  lemma {:induction false} FirstDigitIndex(s: string) returns (i: nat)
    requires FirstDigit(s).Some?
    ensures i < |s| && IsDigit(s[i]) && NoDigit(s[..i])
    ensures FirstDigit(s).value == DigitValue(s[i])
  {
    if IsDigit(s[0]) {
      i := 0;
    } else {
      var j := FirstDigitIndex(s[1..]);
      i := j + 1;
      assert forall k :: 1 <= k < i ==> s[..i][k] == s[1..][..j][k - 1];
    }
  }

  /** LastDigit reads the digit at the one position followed only by non-digits. */
  lemma {:induction false} LastDigitIndex(s: string) returns (i: nat)
    requires LastDigit(s).Some?
    ensures i < |s| && IsDigit(s[i]) && NoDigit(s[i + 1..])
    ensures LastDigit(s).value == DigitValue(s[i])
  {
    if IsDigit(s[|s| - 1]) {
      i := |s| - 1;
    } else {
      var t := s[..|s| - 1];
      i := LastDigitIndex(t);
      assert s[i + 1..] == t[i + 1..] + [s[|s| - 1]];
    }
  }

  /** LastDigit finds nothing exactly on digit-free strings. */
  lemma {:induction false} LastDigitNone(s: string)
    ensures LastDigit(s).None? <==> NoDigit(s)
  {
    if s != [] {
      LastDigitNone(s[..|s| - 1]);
    }
  }

  /** The first digit of the reversed string is the last digit of the string. */
  lemma {:induction false} FirstOfReverse(s: string)
    ensures FirstDigit(Reverse(s)) == LastDigit(s)
  {
    if s != [] {
      var t := s[..|s| - 1];
      assert Reverse(s)[1..] == Reverse(t);
      FirstOfReverse(t);
    }
  }

  /** Reversing twice gives the string back. */
  lemma ReverseTwice<T>(s: seq<T>)
    ensures Reverse(Reverse(s)) == s
  {
    assert forall i :: 0 <= i < |s| ==> Reverse(Reverse(s))[i] == s[i];
  }

  /** A missing digit counts as 0. */
  function OrZero(d: Option<nat>): nat {
    if d.Some? then d.value else 0
  }

  /** Ten times the left digit plus the right digit. */
  function CalibrationValue(left: Option<nat>, right: Option<nat>): nat {
    10 * OrZero(left) + OrZero(right)
  }

  /** The answer of the digits-only puzzle: the sum over the lines of first and last digit. */
  function DigitTotal(lines: seq<string>): nat {
    if lines == [] then 0
    else DigitTotal(lines[..|lines| - 1]) + CalibrationValue(FirstDigit(lines[|lines| - 1]), LastDigit(lines[|lines| - 1]))
  }

  /** Whether a is a subsequence of s: its chars occur in s in order, not necessarily adjacent. */
  predicate Subseq(a: string, s: string)
    decreases |s|
  {
    a == [] ||
    (s != [] &&
     ((a[|a| - 1] == s[|s| - 1] && Subseq(a[..|a| - 1], s[..|s| - 1])) || Subseq(a, s[..|s| - 1])))
  }

  /**
   * How many leading letters of w the greedy scan of s has matched: each
   * char of s that equals the next expected letter advances the count.
   */
  function Matched(w: string, s: string): (m: nat)
    ensures m <= |w|
  {
    if s == [] then 0
    else
      var m := Matched(w, s[..|s| - 1]);
      if m < |w| && s[|s| - 1] == w[m] then m + 1 else m
  }

  /** The greedy count is the longest prefix of w that is a subsequence of s. */
  lemma {:induction false} MatchedLongest(w: string, s: string, j: nat)
    requires j <= |w|
    ensures Subseq(w[..j], s) <==> j <= Matched(w, s)
    decreases |s|
  {
    if s != [] && j > 0 {
      var t := s[..|s| - 1];
      assert w[..j][..j - 1] == w[..j - 1];
      MatchedLongest(w, t, j);
      MatchedLongest(w, t, j - 1);
    }
  }

  /** A word is matched in full exactly when it is a subsequence of the scanned text. */
  lemma MatchedAll(w: string, s: string)
    ensures Matched(w, s) == |w| <==> Subseq(w, s)
  {
    MatchedLongest(w, s, |w|);
    assert w[..|w|] == w;
  }

  /** A char that no letter of w equals leaves the count unchanged. */
  lemma MatchedSkip(w: string, s: string, c: char)
    requires c !in w
    ensures Matched(w, s + [c]) == Matched(w, s)
  {
    assert (s + [c])[..|s|] == s;
  }
}
