/**
 * 01/prog.py: digits and spelled-out digits.  At each position a char
 * that `int` accepts is the answer; otherwise the words of `digit_mapper`
 * are tried in order, each compared with the slice of the line starting
 * there (the reversed word when the line was reversed), after a length
 * test.  That test demands one char more than the word needs, so a word
 * at the very end of the line is never read (see Scan and IntendedScan):
 * the newline `readlines` keeps hides this in the forward scan, but in
 * the reversed line the newline comes first and a word the line starts
 * with is missed.
 * When nothing matches, `x` is unbound and `return x` raises; the model
 * answers None.
 */
module Day01Py {
  import opened Wrappers
  import opened Text
  import opened Calibration

  /** `digit_mapper`: the words and their values, in insertion order. */
  const DigitMapper: seq<(string, nat)> :=
    [("zero", 0), ("one", 1), ("two", 2), ("three", 3), ("four", 4), ("five", 5), ("six", 6), ("seven", 7), ("eight", 8), ("nine", 9)]

  /**
   * A mapper like `digit_mapper`: ten entries of lower-case words, each at
   * least three letters long.  The functions below take the mapper as a
   * parameter; the program passes `digit_mapper`.
   */
  predicate Shaped(mapper: seq<(string, nat)>) {
    |mapper| == 10 && forall k :: 0 <= k < 10 ==> 3 <= |mapper[k].0| && LowerWord(mapper[k].0)
  }

  /** `digit_mapper` pairs each word with its value, and has that shape. */
  lemma MapperShape()
    ensures |DigitMapper| == 10 && forall k :: 0 <= k < 10 ==> DigitMapper[k] == (Words[k], k)
    ensures Shaped(DigitMapper)
  {
    WordsShape();
  }

  /** The key compared in a given mode: the word, reversed when the line was reversed. */
  function Key(word: string, isReversed: bool): (key: string)
    ensures |key| == |word|
  {
    if isReversed then Reverse(word) else word
  }

  /** The length test `len <= line_size - (i + slack)`; the program has slack 1. */
  predicate Fits(len: nat, lineSize: nat, i: nat, slack: nat) {
    len <= lineSize - (i + slack)
  }

  /** The value of the first mapper entry from k on whose key passes the test and starts line[i..]. */
  function WordAt(mapper: seq<(string, nat)>, line: string, isReversed: bool, i: nat, k: nat, slack: nat): Option<nat>
    requires i < |line| && k <= |mapper|
    decreases |mapper| - k
  {
    if k == |mapper| then None
    else
      var word := mapper[k].0;
      if Fits(|word|, |line|, i, slack) && Key(word, isReversed) == line[i..i + |word|] then Some(mapper[k].1)
      else WordAt(mapper, line, isReversed, i, k + 1, slack)
  }

  /** An entry whose key passes the test and starts line[i..] is the one found from it on. */
  lemma WordAtHit(mapper: seq<(string, nat)>, line: string, isReversed: bool, i: nat, k: nat, slack: nat)
    requires i < |line| && k < |mapper| && Fits(|mapper[k].0|, |line|, i, slack)
    requires Key(mapper[k].0, isReversed) == line[i..i + |mapper[k].0|]
    ensures WordAt(mapper, line, isReversed, i, k, slack) == Some(mapper[k].1)
  {
  }

  /** The scan from position i with a given slack in the length test. */
  function ScanWith(mapper: seq<(string, nat)>, line: string, isReversed: bool, slack: nat, i: nat): Option<nat>
    requires i <= |line|
    decreases |line| - i
  {
    if i == |line| then None
    else if IsDigit(line[i]) then Some(DigitValue(line[i]))
    else match WordAt(mapper, line, isReversed, i, 0, slack)
      case Some(v) => Some(v)
      case None => ScanWith(mapper, line, isReversed, slack, i + 1)
  }

  /** `process_line` as written: the length test with slack 1. */
  function Scan(mapper: seq<(string, nat)>, line: string, isReversed: bool): Option<nat> {
    ScanWith(mapper, line, isReversed, 1, 0)
  }

  /** `process_line` as evidently intended: every word that fits in the rest of the line is compared. */
  function IntendedScan(mapper: seq<(string, nat)>, line: string, isReversed: bool): Option<nat> {
    ScanWith(mapper, line, isReversed, 0, 0)
  }

  /** `process_line`: the position loop, returning at the first digit or word. */
  method ProcessLine(mapper: seq<(string, nat)>, line: string, isReversed: bool) returns (x: Option<nat>)
    ensures x == Scan(mapper, line, isReversed)
  {
    for i := 0 to |line|
      invariant Scan(mapper, line, isReversed) == ScanWith(mapper, line, isReversed, 1, i)
    {
      var tryInt := PyInt([line[i]]);
      PyIntChar(line[i]);
      if tryInt.Some? {
        return Some(tryInt.value as nat);
      }
      var foundAsStr, value := TryWords(mapper, line, isReversed, i);
      if foundAsStr {
        return Some(value);
      }
    }
    return None;
  }

  /**
   * The word loop of `process_line` at position i: entries that fail the
   * length test are skipped (`continue`), the first whose key starts
   * line[i..] sets `found_as_str` and stops the loop.
   */
  method TryWords(mapper: seq<(string, nat)>, line: string, isReversed: bool, i: nat) returns (foundAsStr: bool, value: nat)
    requires i < |line|
    ensures foundAsStr <==> WordAt(mapper, line, isReversed, i, 0, 1).Some?
    ensures foundAsStr ==> WordAt(mapper, line, isReversed, i, 0, 1) == Some(value)
  {
    var lineSize := |line|;
    foundAsStr, value := false, 0;
    for k := 0 to |mapper|
      invariant WordAt(mapper, line, isReversed, i, 0, 1) == WordAt(mapper, line, isReversed, i, k, 1)
    {
      var word := mapper[k].0;
      var digitMapperLen := |word|;
      var key := Key(word, isReversed);
      if !(digitMapperLen <= lineSize - (i + 1)) {
        continue;
      }
      if key == line[i..i + digitMapperLen] {
        value := mapper[k].1;
        WordAtHit(mapper, line, isReversed, i, k, 1);
        foundAsStr := true;
        return;
      }
    }
  }

  /** Python's `sum`. */
  function SumOf(values: seq<nat>): nat {
    if values == [] then 0 else SumOf(values[..|values| - 1]) + values[|values| - 1]
  }

  /** The printed result: the sum over the lines of 10 * x + y, or None when some line raised. */
  function Total(mapper: seq<(string, nat)>, lines: seq<string>): Option<nat> {
    if lines == [] then Some(0)
    else
      var line := lines[|lines| - 1];
      match (Total(mapper, lines[..|lines| - 1]), Scan(mapper, line, false), Scan(mapper, Reverse(line), true))
      case (Some(t), Some(x), Some(y)) => Some(t + (x * 10 + y))
      case _ => None
  }

  /** The main loop: one value per line into `output_list`, then its sum. */
  method Solve(mapper: seq<(string, nat)>, lines: seq<string>) returns (result: Option<nat>)
    ensures result == Total(mapper, lines)
  {
    var outputList: seq<nat> := [];
    for i := 0 to |lines|
      invariant Total(mapper, lines[..i]) == Some(SumOf(outputList))
    {
      assert lines[..i + 1][..i] == lines[..i];
      var line := lines[i];
      var x := ProcessLine(mapper, line, false);
      var y := ProcessLine(mapper, Reverse(line), true);
      if x.None? || y.None? {
        NoneStays(mapper, lines, i + 1);
        assert lines[..|lines|] == lines;
        return None;
      }
      var z := x.value * 10 + y.value;
      ghost var before := outputList;
      outputList := outputList + [z];
      assert outputList[..|outputList| - 1] == before;
    }
    assert lines[..|lines|] == lines;
    result := Some(SumOf(outputList));
  }

  /** Once a line raises, the whole run raises. */
  lemma {:induction false} NoneStays(mapper: seq<(string, nat)>, lines: seq<string>, n: nat)
    requires n <= |lines| && Total(mapper, lines[..n]).None?
    ensures Total(mapper, lines).None?
    decreases |lines| - n
  {
    if n < |lines| {
      assert lines[..n + 1][..n] == lines[..n];
      NoneStays(mapper, lines, n + 1);
    } else {
      assert lines[..n] == lines;
    }
  }

  /** Any key in either mode starts with a lower-case letter. */
  lemma KeyStartsLower(word: string, isReversed: bool)
    requires 3 <= |word| && LowerWord(word)
    ensures |Key(word, isReversed)| >= 3 && Lowercase(Key(word, isReversed)[0])
  {
  }

  /** A position whose char is no lower-case letter starts no key. */
  lemma {:induction false} WordAtNoLetter(mapper: seq<(string, nat)>, line: string, isReversed: bool, i: nat, k: nat, slack: nat)
    requires Shaped(mapper) && i < |line| && k <= 10 && !Lowercase(line[i])
    ensures WordAt(mapper, line, isReversed, i, k, slack).None?
    decreases 10 - k
  {
    if k < 10 {
      KeyStartsLower(mapper[k].0, isReversed);
      WordAtNoLetter(mapper, line, isReversed, i, k + 1, slack);
    }
  }

  /** On a line without lower-case letters the scan finds the first digit, whatever the slack. */
  lemma {:induction false} NoLettersScan(mapper: seq<(string, nat)>, line: string, isReversed: bool, slack: nat, i: nat)
    requires Shaped(mapper) && i <= |line| && NoLetters(line)
    ensures ScanWith(mapper, line, isReversed, slack, i) == FirstDigit(line[i..])
    decreases |line| - i
  {
    if i < |line| {
      assert line[i..][1..] == line[i + 1..];
      WordAtNoLetter(mapper, line, isReversed, i, 0, slack);
      NoLettersScan(mapper, line, isReversed, slack, i + 1);
    }
  }

  /**
   * On lines without lower-case letters the program computes the
   * digits-only answer, and raises exactly when some line has no digit.
   */
  lemma {:induction false} NoLettersTotal(mapper: seq<(string, nat)>, lines: seq<string>)
    requires Shaped(mapper) && forall k :: 0 <= k < |lines| ==> NoLetters(lines[k])
    ensures Total(mapper, lines).Some? <==> AllHaveDigits(lines)
    ensures Total(mapper, lines).Some? ==> Total(mapper, lines).value == DigitTotal(lines)
  {
    if lines != [] {
      var line := lines[|lines| - 1];
      var prefix := lines[..|lines| - 1];
      LineNoLetters(mapper, line);
      NoLettersTotal(mapper, prefix);
      assert forall k :: 0 <= k < |prefix| ==> prefix[k] == lines[k];
    }
  }

  /** One line without lower-case letters: the forward scan reads its first digit and the reversed scan its last. */
  lemma LineNoLetters(mapper: seq<(string, nat)>, line: string)
    requires Shaped(mapper) && NoLetters(line)
    ensures Scan(mapper, line, false) == FirstDigit(line) && Scan(mapper, Reverse(line), true) == LastDigit(line)
    ensures Scan(mapper, line, false).None? <==> NoDigit(line)
    ensures Scan(mapper, Reverse(line), true).None? <==> NoDigit(line)
  {
    NoLettersScan(mapper, line, false, 1, 0);
    NoLettersScan(mapper, Reverse(line), true, 1, 0);
    assert line[0..] == line && Reverse(line)[0..] == Reverse(line);
    FirstOfReverse(line);
    FirstDigitNone(line);
    LastDigitNone(line);
  }

  /**
   * In reversed mode a reversed key at position i of the reversed line is
   * the word itself ending i chars before the end of the line.
   */
  lemma ReversedMatch(line: string, word: string, i: nat)
    requires i + |word| <= |line|
    ensures Key(word, true) == Reverse(line)[i..i + |word|] <==> word == line[|line| - i - |word|..|line| - i]
  {
    var c := line[|line| - i - |word|..|line| - i];
    SliceOfReverse(line, i, |word|);
    ReverseInjective(word, c);
  }

  /** A slice of the reversed line is the reversal of the mirrored slice. */
  lemma SliceOfReverse(line: string, i: nat, n: nat)
    requires i + n <= |line|
    ensures Reverse(line)[i..i + n] == Reverse(line[|line| - i - n..|line| - i])
  {
    var rl := Reverse(line);
    var m := |line| - i - n;
    var c := line[m..m + n];
    var rc := Reverse(c);
    var r := rl[i..i + n];
    forall j | 0 <= j < n ensures r[j] == rc[j] {
      var a := i + j;
      var b := n - 1 - j;
      assert r[j] == rl[a];
      assert rl[a] == line[|line| - 1 - a];
      assert rc[j] == c[b];
      assert c[b] == line[m + b];
      assert m + b == |line| - 1 - a;
    }
  }

  lemma ReverseInjective(a: string, b: string)
    ensures Reverse(a) == Reverse(b) <==> a == b
  {
    ReverseTwice(a);
    ReverseTwice(b);
  }

  /** A word this close to the end of the line fails the program's length test. */
  lemma {:induction false} TooCloseToEnd(mapper: seq<(string, nat)>, line: string, isReversed: bool, i: nat, k: nat)
    requires Shaped(mapper) && i < |line| && k <= 10 && |line| < i + 4
    ensures WordAt(mapper, line, isReversed, i, k, 1).None?
    decreases 10 - k
  {
    if k < 10 {
      TooCloseToEnd(mapper, line, isReversed, i, k + 1);
    }
  }

  /**
   * The line "two\n", as `readlines` gives it, raises: reversed it is
   * "\nowt", where the reversed word ends at the end of the line.
   */
  lemma TwoAsWritten()
    ensures Reverse("two\n") == "\nowt"
    ensures Scan(DigitMapper, "\nowt", true).None?
    ensures Total(DigitMapper, ["two\n"]).None?
  {
    MapperShape();
    var line := "\nowt";
    assert Reverse("two\n") == line by {
      var r := Reverse("two\n");
      assert r[0] == '\n' && r[1] == 'o' && r[2] == 'w' && r[3] == 't';
    }
    assert !Lowercase(line[0]) && !IsDigit(line[0]);
    WordAtNoLetter(DigitMapper, line, true, 0, 0, 1);
    TooCloseToEnd(DigitMapper, line, true, 1, 0);
    TooCloseToEnd(DigitMapper, line, true, 2, 0);
    TooCloseToEnd(DigitMapper, line, true, 3, 0);
    assert ["two\n"][..0] == [];
  }

  /** With the intended length test the reversed line "\nowt" is read as 2. */
  lemma TwoIntended()
    ensures IntendedScan(DigitMapper, "\nowt", true) == Some(2)
  {
    var line := "\nowt";
    assert !Lowercase(line[0]) && !IsDigit(line[0]);
    MapperShape();
    WordAtNoLetter(DigitMapper, line, true, 0, 0, 0);
    assert Reverse("two") == "owt" by {
      var r := Reverse("two");
      assert r[0] == 'o' && r[1] == 'w' && r[2] == 't';
    }
    assert line[1..4] == "owt";
    NoKeyBefore(line);
    WordAtHit(DigitMapper, line, true, 1, 2, 0);
  }

  /** Neither "zero" nor "one" reversed starts "\nowt"[1..]. */
  lemma NoKeyBefore(line: string)
    requires line == "\nowt"
    ensures WordAt(DigitMapper, line, true, 1, 0, 0) == WordAt(DigitMapper, line, true, 1, 2, 0)
  {
    var r1 := Reverse("one");
    assert r1[0] == 'e';
    assert line[1..4][0] == 'o';
  }

}
