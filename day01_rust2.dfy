/**
 * rust/d01_2: digits and spelled-out digits.  Every number keeps a buffer
 * of the letters of its word matched so far; a char equal to the next
 * expected letter is pushed, and the word counts once its buffer is full.
 * The buffer is never emptied, so a word is found as soon as its letters
 * have appeared in order, not necessarily next to each other.  The last
 * digit is found by running the same scan over the reversed line against
 * the reversed words.  `get_reversed_string` and `get_numeric_as_char` are
 * declared here as in rust/d01_1 and modelled there.
 */
module Day01Rust2 {
  import opened Wrappers
  import opened Text
  import opened Calibration
  import Day01Rust1

  /** A `Number` of rust/d01_2: its `u8` numeric value and its spelled-out letters. */
  datatype Number = Number(numeric: nat, letters: string)

  /** The list main builds: 0 to 9 with their English names. */
  const Numbers: seq<Number> := [Number(0, "zero"), Number(1, "one"), Number(2, "two"), Number(3, "three"), Number(4, "four"),
                                 Number(5, "five"), Number(6, "six"), Number(7, "seven"), Number(8, "eight"), Number(9, "nine")]

  predicate ValidNumbers(numbers: seq<Number>) {
    forall k :: 0 <= k < |numbers| ==> numbers[k].numeric < 208
  }

  /** `Number::get_letters`: the word, reversed in reversed mode. */
  function Letters(n: Number, reversed: bool): (r: string)
    ensures |r| == |n.letters|
  {
    if reversed then Reverse(n.letters) else n.letters
  }

  /** `Number::get_letter_char_from_index`: the letter at a position of the word, if the word is that long. */
  function LetterAt(n: Number, index: nat, reversed: bool): (r: Option<char>)
    ensures r.Some? <==> index < |Letters(n, reversed)|
    ensures r.Some? ==> r.value == Letters(n, reversed)[index]
  {
    if index < |Letters(n, reversed)| then Some(Letters(n, reversed)[index]) else None
  }

  /** A word is completed by line[p]: its greedy count was short of it before p and reaches it with p. */
  predicate CompletesAt(w: string, line: string, p: nat)
    requires p < |line|
  {
    Matched(w, line[..p]) < |w| && Matched(w, line[..p + 1]) == |w|
  }

  /** Number k is hit at p: line[p] is its char, or line[p] completes its word. */
  predicate Hit(line: string, numbers: seq<Number>, reversed: bool, p: nat, k: nat)
    requires p < |line| && k < |numbers| && ValidNumbers(numbers)
  {
    line[p] == Day01Rust1.NumericAsChar(numbers[k].numeric) || CompletesAt(Letters(numbers[k], reversed), line, p)
  }

  /** The smallest index from k on of a number hit at p, if any. */
  function HitAt(line: string, numbers: seq<Number>, reversed: bool, p: nat, k: nat): (r: Option<nat>)
    requires p < |line| && k <= |numbers| && ValidNumbers(numbers)
    ensures r.Some? ==> k <= r.value < |numbers| && Hit(line, numbers, reversed, p, r.value)
    ensures r.Some? ==> forall j :: k <= j < r.value ==> !Hit(line, numbers, reversed, p, j)
    ensures r.None? ==> forall j :: k <= j < |numbers| ==> !Hit(line, numbers, reversed, p, j)
    decreases |numbers| - k
  {
    if k == |numbers| then None
    else if Hit(line, numbers, reversed, p, k) then Some(k)
    else HitAt(line, numbers, reversed, p, k + 1)
  }

  /** The number hit at the first position from p on where any is hit. */
  function FirstHit(line: string, numbers: seq<Number>, reversed: bool, p: nat): Option<nat>
    requires p <= |line| && ValidNumbers(numbers)
    decreases |line| - p
  {
    if p == |line| then None
    else match HitAt(line, numbers, reversed, p, 0)
      case Some(k) => Some(k)
      case None => FirstHit(line, numbers, reversed, p + 1)
  }

  /** One more char advances the greedy count by one exactly when it is the next expected letter. */
  lemma MatchedStep(w: string, line: string, p: nat)
    requires p < |line|
    ensures Matched(w, line[..p + 1]) ==
      (if Matched(w, line[..p]) < |w| && line[p] == w[Matched(w, line[..p])] then Matched(w, line[..p]) + 1 else Matched(w, line[..p]))
  {
    assert line[..p + 1][..p] == line[..p];
  }

  /** A word is completed at p exactly when it is a subsequence of line[..p + 1] but not of line[..p]. */
  lemma CompletesAtSubseq(w: string, line: string, p: nat)
    requires p < |line|
    ensures CompletesAt(w, line, p) <==> Subseq(w, line[..p + 1]) && !Subseq(w, line[..p])
  {
    MatchedAll(w, line[..p]);
    MatchedAll(w, line[..p + 1]);
  }

  /** A letter buffer holds the letters of w the greedy scan of s has matched. */
  predicate Tracks(buffer: string, w: string, s: string) {
    buffer == w[..Matched(w, s)]
  }

  /** Number k is hit at p and none before it: the scan at p stops at k. */
  lemma HitFirst(line: string, numbers: seq<Number>, reversed: bool, p: nat, k: nat)
    requires p < |line| && k < |numbers| && ValidNumbers(numbers)
    requires Hit(line, numbers, reversed, p, k) && forall j :: 0 <= j < k ==> !Hit(line, numbers, reversed, p, j)
    ensures HitAt(line, numbers, reversed, p, 0) == Some(k)
  {
  }

  /** No number is hit at p: the scan at p finds nothing. */
  lemma NoHit(line: string, numbers: seq<Number>, reversed: bool, p: nat)
    requires p < |line| && ValidNumbers(numbers)
    requires forall j :: 0 <= j < |numbers| ==> !Hit(line, numbers, reversed, p, j)
    ensures HitAt(line, numbers, reversed, p, 0).None?
  {
  }

  /**
   * A buffer short of its word takes line[p] when it is the next letter;
   * it is then full exactly when line[p] completes the word.
   */
  lemma Advance(w: string, line: string, p: nat, before: string, after: string)
    requires p < |line| && Tracks(before, w, line[..p]) && |before| < |w|
    requires after == if line[p] == w[|before|] then before + [w[|before|]] else before
    ensures Tracks(after, w, line[..p + 1])
    ensures |after| == |w| <==> CompletesAt(w, line, p)
  {
    MatchedStep(w, line, p);
    if line[p] == w[|before|] {
      assert w[..|before| + 1] == w[..|before|] + [w[|before|]];
    }
  }

  /** A full buffer stays full, and its word is not completed again. */
  lemma Full(w: string, line: string, p: nat, buffer: string)
    requires p < |line| && Tracks(buffer, w, line[..p]) && |buffer| >= |w|
    ensures Tracks(buffer, w, line[..p + 1]) && !CompletesAt(w, line, p)
  {
    MatchedStep(w, line, p);
  }

  /**
   * `get_first_digit_in_line`: for each char, the numbers in order; a
   * number whose char it is wins at once, otherwise its buffer takes the
   * char if it is the word's next letter, and a full buffer wins.
   */
  method GetFirstDigitInLine(line: string, numbers: seq<Number>, reversed: bool) returns (r: Option<nat>)
    requires ValidNumbers(numbers)
    ensures r == FirstHit(line, numbers, reversed, 0)
  {
    var buffers := new string[|numbers|](_ => "");
    for p := 0 to |line|
      invariant FirstHit(line, numbers, reversed, 0) == FirstHit(line, numbers, reversed, p)
      invariant forall j :: 0 <= j < |numbers| ==> Tracks(buffers[j], Letters(numbers[j], reversed), line[..p])
    {
      var hit := TryNumbers(line, numbers, reversed, p, buffers);
      if hit.Some? {
        return hit;
      }
    }
    return None;
  }

  /** The inner loop of `get_first_digit_in_line`: the numbers in order against line[p]. */
  method TryNumbers(line: string, numbers: seq<Number>, reversed: bool, p: nat, buffers: array<string>) returns (hit: Option<nat>)
    requires p < |line| && ValidNumbers(numbers) && buffers.Length == |numbers|
    requires forall j :: 0 <= j < |numbers| ==> Tracks(buffers[j], Letters(numbers[j], reversed), line[..p])
    modifies buffers
    ensures hit == HitAt(line, numbers, reversed, p, 0)
    ensures hit.None? ==> forall j :: 0 <= j < |numbers| ==> Tracks(buffers[j], Letters(numbers[j], reversed), line[..p + 1])
  {
    for k := 0 to |numbers|
      invariant forall j :: 0 <= j < k ==> !Hit(line, numbers, reversed, p, j)
      invariant forall j :: 0 <= j < k ==> Tracks(buffers[j], Letters(numbers[j], reversed), line[..p + 1])
      invariant forall j :: k <= j < |numbers| ==> Tracks(buffers[j], Letters(numbers[j], reversed), line[..p])
    {
      var after, won := TryNumber(line, numbers, reversed, p, k, buffers[k]);
      if won {
        HitFirst(line, numbers, reversed, p, k);
        return Some(k);
      }
      buffers[k] := after;
    }
    NoHit(line, numbers, reversed, p);
    return None;
  }

  /**
   * One number against line[p]: it wins at once when line[p] is its char;
   * otherwise its buffer takes line[p] when it is the next letter, and wins
   * when that fills it.
   */
  method TryNumber(line: string, numbers: seq<Number>, reversed: bool, p: nat, k: nat, buffer: string) returns (after: string, won: bool)
    requires p < |line| && k < |numbers| && ValidNumbers(numbers)
    requires Tracks(buffer, Letters(numbers[k], reversed), line[..p])
    ensures won <==> Hit(line, numbers, reversed, p, k)
    ensures !won ==> Tracks(after, Letters(numbers[k], reversed), line[..p + 1])
  {
    var w := Letters(numbers[k], reversed);
    after := buffer;
    if line[p] == Day01Rust1.NumericAsChar(numbers[k].numeric) {
      return after, true;
    }
    match LetterAt(numbers[k], |after|, reversed)
    case Some(letter) =>
      if line[p] == letter {
        after := after + [letter];
      }
      Advance(w, line, p, buffer, after);
      won := |after| == |Letters(numbers[k], reversed)|;
    case None =>
      Full(w, line, p, buffer);
      won := false;
  }

  /** main's loop: the sum over the lines of 10 * left + right from the forward and the reversed scans. */
  function SpelledTotal(lines: seq<string>): nat {
    if lines == [] then 0
    else
      var line := lines[|lines| - 1];
      SpelledTotal(lines[..|lines| - 1])
      + CalibrationValue(FirstHit(line, Numbers, false, 0), FirstHit(Reverse(line), Numbers, true, 0))
  }

  /** main: the calibration sum, with an index that found nothing counting as 0. */
  method Solve(lines: seq<string>) returns (result: nat)
    ensures result == SpelledTotal(lines)
  {
    ValidList();
    result := 0;
    for i := 0 to |lines|
      invariant result == SpelledTotal(lines[..i])
    {
      var line := lines[i];
      var first := GetFirstDigitInLine(line, Numbers, false);
      var leftDigit := Day01Rust1.DigitOf(first);
      var reversed := Day01Rust1.GetReversedString(line);
      var last := GetFirstDigitInLine(reversed, Numbers, true);
      var rightDigit := Day01Rust1.DigitOf(last);
      HitBelowTen(line, false);
      HitBelowTen(reversed, true);
      result := result + (10 * leftDigit + rightDigit);
      assert lines[..i + 1][..i] == lines[..i];
    }
    assert lines[..|lines| - 0] == lines;
  }

  /** The index found among the ten numbers is below 10, so it always fits a `u8`. */
  lemma HitBelowTen(line: string, reversed: bool)
    ensures ValidNumbers(Numbers)
    ensures FirstHit(line, Numbers, reversed, 0).Some? ==> FirstHit(line, Numbers, reversed, 0).value < 10
  {
    ValidList();
    FirstHitBound(line, Numbers, reversed, 0);
  }

  lemma {:induction false} FirstHitBound(line: string, numbers: seq<Number>, reversed: bool, p: nat)
    requires p <= |line| && ValidNumbers(numbers)
    ensures FirstHit(line, numbers, reversed, p).Some? ==> FirstHit(line, numbers, reversed, p).value < |numbers|
    decreases |line| - p
  {
    if p < |line| && HitAt(line, numbers, reversed, p, 0).None? {
      FirstHitBound(line, numbers, reversed, p + 1);
    }
  }

  /** A list shaped like main's: ten numbers, the k-th with numeric k and a lower-case word of three letters or more. */
  predicate Standard(numbers: seq<Number>) {
    |numbers| == 10 &&
    forall k :: 0 <= k < 10 ==> numbers[k].numeric == k && 3 <= |numbers[k].letters| && LowerWord(numbers[k].letters)
  }

  lemma ValidList()
    ensures ValidNumbers(Numbers)
  {
  }

  lemma StandardNumbers()
    ensures Standard(Numbers) && ValidNumbers(Numbers)
  {
    assert LowerWord("zero") && LowerWord("one") && LowerWord("two") && LowerWord("three") && LowerWord("four");
    assert LowerWord("five") && LowerWord("six") && LowerWord("seven") && LowerWord("eight") && LowerWord("nine");
  }

  /** Reversing a lower-case word keeps it lower-case. */
  lemma LettersLower(n: Number, reversed: bool, c: char)
    requires LowerWord(n.letters) && c in Letters(n, reversed)
    ensures Lowercase(c)
  {
  }

  /** A text without lower-case letters leaves the greedy count of a lower-case word at 0. */
  lemma {:induction false} MatchedNone(w: string, s: string)
    requires LowerWord(w) && NoLetters(s)
    ensures Matched(w, s) == 0
  {
    if s != [] {
      MatchedNone(w, s[..|s| - 1]);
    }
  }

  /** A digit is hit at once: no word holds it, so no word completes at it. */
  lemma {:induction false} DigitHit(line: string, numbers: seq<Number>, reversed: bool, p: nat, k: nat)
    requires Standard(numbers) && p < |line| && IsDigit(line[p]) && k <= DigitValue(line[p])
    ensures ValidNumbers(numbers) && HitAt(line, numbers, reversed, p, k) == Some(DigitValue(line[p]))
    decreases 10 - k
  {
    var d := DigitValue(line[p]);
    Day01Rust1.NumericAsDigit(k);
    if k < d {
      var w := Letters(numbers[k], reversed);
      if line[p] in w {
        LettersLower(numbers[k], reversed, line[p]);
      }
      MatchedSkip(w, line[..p], line[p]);
      assert line[..p + 1] == line[..p] + [line[p]];
      DigitHit(line, numbers, reversed, p, k + 1);
    }
  }

  /** Up to a char that is no digit, a text without lower-case letters hits no number. */
  lemma {:induction false} NothingHit(line: string, numbers: seq<Number>, reversed: bool, p: nat, k: nat)
    requires Standard(numbers) && p < |line| && !IsDigit(line[p]) && NoLetters(line[..p + 1]) && k <= 10
    ensures ValidNumbers(numbers) && HitAt(line, numbers, reversed, p, k).None?
    decreases 10 - k
  {
    if k < 10 {
      var w := Letters(numbers[k], reversed);
      Day01Rust1.NumericAsDigit(k);
      forall i | 0 <= i < |w| ensures Lowercase(w[i]) {
        LettersLower(numbers[k], reversed, w[i]);
      }
      MatchedNone(w, line[..p + 1]);
      NothingHit(line, numbers, reversed, p, k + 1);
    }
  }

  /** On a line without lower-case letters the scan finds exactly the first digit. */
  lemma {:induction false} NoLettersFirstDigit(line: string, numbers: seq<Number>, reversed: bool, p: nat)
    requires Standard(numbers) && p <= |line| && NoLetters(line)
    ensures ValidNumbers(numbers) && FirstHit(line, numbers, reversed, p) == FirstDigit(line[p..])
    decreases |line| - p
  {
    if p < |line| {
      assert line[p..][1..] == line[p + 1..];
      if IsDigit(line[p]) {
        DigitHit(line, numbers, reversed, p, 0);
      } else {
        NothingHit(line, numbers, reversed, p, 0);
        NoLettersFirstDigit(line, numbers, reversed, p + 1);
      }
    }
  }

  /** On lines without lower-case letters the spelled-digit answer is the digits-only answer. */
  lemma {:induction false} NoLettersTotal(lines: seq<string>)
    requires forall k :: 0 <= k < |lines| ==> NoLetters(lines[k])
    ensures SpelledTotal(lines) == DigitTotal(lines)
  {
    if lines != [] {
      var line := lines[|lines| - 1];
      StandardNumbers();
      NoLettersFirstDigit(line, Numbers, false, 0);
      NoLettersFirstDigit(Reverse(line), Numbers, true, 0);
      FirstOfReverse(line);
      assert line[0..] == line && Reverse(line)[0..] == Reverse(line);
      NoLettersTotal(lines[..|lines| - 1]);
    }
  }

  /** The greedy count never exceeds the length of the scanned text. */
  lemma {:induction false} MatchedAtMost(w: string, s: string)
    ensures Matched(w, s) <= |s|
  {
    if s != [] {
      MatchedAtMost(w, s[..|s| - 1]);
    }
  }

  /** No word of main's list holds the letter 'a'. */
  lemma NoLetterA(k: nat)
    requires k < 10
    ensures 'a' !in Numbers[k].letters
  {
  }

  /** Number k is not hit at a position where line[p] is no digit and no letter of its word. */
  lemma NotHitAbsent(line: string, numbers: seq<Number>, reversed: bool, p: nat, k: nat)
    requires Standard(numbers) && p < |line| && k < 10 && !IsDigit(line[p]) && line[p] !in numbers[k].letters
    ensures ValidNumbers(numbers) && !Hit(line, numbers, reversed, p, k)
  {
    Day01Rust1.NumericAsDigit(k);
    var w := Letters(numbers[k], reversed);
    assert line[p] !in w;
    MatchedSkip(w, line[..p], line[p]);
    assert line[..p + 1] == line[..p] + [line[p]];
  }

  /** Number k is not hit in the first two chars when they are no digits: no word is that short. */
  lemma NotHitEarly(line: string, numbers: seq<Number>, reversed: bool, p: nat, k: nat)
    requires Standard(numbers) && p < |line| && p < 2 && k < 10 && !IsDigit(line[p])
    ensures ValidNumbers(numbers) && !Hit(line, numbers, reversed, p, k)
  {
    Day01Rust1.NumericAsDigit(k);
    MatchedAtMost(Letters(numbers[k], reversed), line[..p + 1]);
  }

  /** At the last char of "twao" the word "two" is completed, and "zero" and "one" are not. */
  lemma ScatteredTail()
    ensures !CompletesAt("zero", "twao", 3) && !CompletesAt("one", "twao", 3) && CompletesAt("two", "twao", 3)
  {
    var line := "twao";
    assert line[..3] == "twa" && line[..4] == line;
    assert "twao"[..3] == "twa" && "twa"[..2] == "tw" && "tw"[..1] == "t" && "t"[..0] == "";
    assert Matched("zero", "t") == 0 && Matched("zero", "tw") == 0 && Matched("zero", "twa") == 0;
    assert Matched("one", "t") == 0 && Matched("one", "tw") == 0 && Matched("one", "twa") == 0;
    assert Matched("two", "t") == 1 && Matched("two", "tw") == 2 && Matched("two", "twa") == 2;
  }

  /**
   * The letters of a word need not be adjacent: in "twao" the scan finds
   * "two" although the line spells no number at all.
   */
  lemma ScatteredWord() returns (line: string)
    ensures line == "twao" && ValidNumbers(Numbers) && FirstHit(line, Numbers, false, 0) == Some(2)
  {
    StandardNumbers();
    NumbersHead();
    line := "twao";
    ScatteredIn(Numbers);
  }

  /** main's list starts with zero, one and two, and none of its words holds an 'a'. */
  lemma NumbersHead()
    ensures Numbers[0] == Number(0, "zero") && Numbers[1] == Number(1, "one") && Numbers[2] == Number(2, "two")
    ensures forall k :: 0 <= k < 10 ==> 'a' !in Numbers[k].letters
  {
    forall k | 0 <= k < 10 ensures 'a' !in Numbers[k].letters {
      NoLetterA(k);
    }
  }

  /** Any list shaped like main's that starts with zero, one, two and has no 'a' finds "two" in "twao". */
  lemma ScatteredIn(numbers: seq<Number>)
    requires Standard(numbers) && forall k :: 0 <= k < 10 ==> 'a' !in numbers[k].letters
    requires numbers[0] == Number(0, "zero") && numbers[1] == Number(1, "one") && numbers[2] == Number(2, "two")
    ensures ValidNumbers(numbers) && FirstHit("twao", numbers, false, 0) == Some(2)
  {
    ScatteredHead(numbers);
    ScatteredLast(numbers);
  }

  /** Nothing is hit in "twa". */
  lemma ScatteredHead(numbers: seq<Number>)
    requires Standard(numbers) && forall k :: 0 <= k < 10 ==> 'a' !in numbers[k].letters
    ensures ValidNumbers(numbers)
    ensures forall p :: 0 <= p < 3 ==> HitAt("twao", numbers, false, p, 0).None?
  {
    var line := "twao";
    forall p, k | 0 <= p < 2 && 0 <= k < 10 ensures !Hit(line, numbers, false, p, k) {
      NotHitEarly(line, numbers, false, p, k);
    }
    forall k | 0 <= k < 10 ensures !Hit(line, numbers, false, 2, k) {
      NotHitAbsent(line, numbers, false, 2, k);
    }
    NoHit(line, numbers, false, 0);
    NoHit(line, numbers, false, 1);
    NoHit(line, numbers, false, 2);
  }

  /** The last char of "twao" completes "two", and neither "zero" nor "one". */
  lemma ScatteredLast(numbers: seq<Number>)
    requires Standard(numbers)
    requires numbers[0] == Number(0, "zero") && numbers[1] == Number(1, "one") && numbers[2] == Number(2, "two")
    ensures ValidNumbers(numbers) && HitAt("twao", numbers, false, 3, 0) == Some(2)
  {
    var line := "twao";
    ScatteredTail();
    Day01Rust1.NumericAsDigit(0);
    Day01Rust1.NumericAsDigit(1);
    Day01Rust1.NumericAsDigit(2);
    assert !Hit(line, numbers, false, 3, 0) && !Hit(line, numbers, false, 3, 1) && Hit(line, numbers, false, 3, 2);
    HitFirst(line, numbers, false, 3, 2);
  }

  /** The scan as evidently intended: number k is hit at p when line[p] is its char or its word ends at p. */
  predicate SpelledAt(line: string, numbers: seq<Number>, reversed: bool, p: nat, k: nat)
    requires p < |line| && k < |numbers| && ValidNumbers(numbers)
  {
    line[p] == Day01Rust1.NumericAsChar(numbers[k].numeric) || EndsWith(line[..p + 1], Letters(numbers[k], reversed))
  }

  function SpelledHitAt(line: string, numbers: seq<Number>, reversed: bool, p: nat, k: nat): (r: Option<nat>)
    requires p < |line| && k <= |numbers| && ValidNumbers(numbers)
    ensures r.Some? ==> k <= r.value < |numbers| && SpelledAt(line, numbers, reversed, p, r.value)
    ensures r.None? ==> forall j :: k <= j < |numbers| ==> !SpelledAt(line, numbers, reversed, p, j)
    decreases |numbers| - k
  {
    if k == |numbers| then None
    else if SpelledAt(line, numbers, reversed, p, k) then Some(k)
    else SpelledHitAt(line, numbers, reversed, p, k + 1)
  }

  /** The corrected scan: the number whose char or adjacent word first ends in the line. */
  function SpelledFirst(line: string, numbers: seq<Number>, reversed: bool, p: nat): Option<nat>
    requires p <= |line| && ValidNumbers(numbers)
    decreases |line| - p
  {
    if p == |line| then None
    else match SpelledHitAt(line, numbers, reversed, p, 0)
      case Some(k) => Some(k)
      case None => SpelledFirst(line, numbers, reversed, p + 1)
  }

  /** What the corrected scan finds is spelled in the line: the number's char, or its word with adjacent letters. */
  lemma {:induction false} SpelledFound(line: string, numbers: seq<Number>, reversed: bool, p: nat)
    requires p <= |line| && ValidNumbers(numbers) && SpelledFirst(line, numbers, reversed, p).Some?
    ensures SpelledFirst(line, numbers, reversed, p).value < |numbers|
    ensures Day01Rust1.NumericAsChar(numbers[SpelledFirst(line, numbers, reversed, p).value].numeric) in line
      || Contains(line, Letters(numbers[SpelledFirst(line, numbers, reversed, p).value], reversed))
    decreases |line| - p
  {
    match SpelledHitAt(line, numbers, reversed, p, 0)
    case Some(k) =>
      var w := Letters(numbers[k], reversed);
      if EndsWith(line[..p + 1], w) {
        ContainsAt(line, w, p + 1 - |w|);
      }
    case None =>
      SpelledFound(line, numbers, reversed, p + 1);
  }

  /** A word long enough to reach position i from the end of s, and without s[i], is no suffix of s. */
  lemma NoSuffixWith(s: string, w: string, i: nat)
    requires |s| - |w| <= i < |s| && s[i] !in w
    ensures !EndsWith(s, w)
  {
    if |w| <= |s| {
      assert s[|s| - |w|..][i - (|s| - |w|)] == s[i];
    }
  }

  /** On "twao" the corrected scan finds nothing. */
  lemma ScatteredWordCorrected()
    ensures ValidNumbers(Numbers) && SpelledFirst("twao", Numbers, false, 0).None?
  {
    StandardNumbers();
    var line := "twao";
    forall p, k | 0 <= p < 4 && 0 <= k < 10 ensures !SpelledAt(line, Numbers, false, p, k) {
      Day01Rust1.NumericAsDigit(k);
      var w := Letters(Numbers[k], false);
      if p >= 2 {
        NoLetterA(k);
        NoSuffixWith(line[..p + 1], w, 2);
      }
    }
    assert SpelledHitAt(line, Numbers, false, 0, 0).None?;
    assert SpelledHitAt(line, Numbers, false, 1, 0).None?;
    assert SpelledHitAt(line, Numbers, false, 2, 0).None?;
    assert SpelledHitAt(line, Numbers, false, 3, 0).None?;
  }
}
