/**
 * rust/d03_01: the sum of the part numbers.  The scan of the framed grid
 * stops at the first non-digit after each run of digits, works out the
 * number's length by dividing it by ten until it is at most ten, and keeps
 * the chars to its left and right and the slices above and below it; the
 * number counts when one of them is not a dot.
 *
 * The length loop stops at ten rather than below it, so a power of ten
 * from 10 on gets one digit too few and its left neighbour is its own
 * first digit.  `Count` selects that loop (as written) or the digit count
 * of rust/d03_2 (corrected); the scan and the sum take either.
 */
module Day03Rust1 {
  import opened Wrappers
  import opened Text
  import opened Schematic

  /** The smallest m >= n with v <= 10^m: the `while _n > 10` loop from m = n. */
  function Cover(v: nat, n: nat): nat
    decreases v - Pow10(n)
  {
    if v <= Pow10(n) then n
    else
      Pow10Grows(n, n + 1);
      Cover(v, n + 1)
  }

  /** The length the f32 loop gives `number`, division being exact. */
  function F32Len(v: nat): nat {
    Cover(v, 1)
  }

  lemma {:induction false} CoverSpec(v: nat, n: nat)
    requires n >= 1 && (n == 1 || Pow10(n - 1) < v)
    ensures var m := Cover(v, n); m >= n && v <= Pow10(m) && (m == 1 || Pow10(m - 1) < v)
    decreases v - Pow10(n)
  {
    if v > Pow10(n) {
      Pow10Grows(n, n + 1);
      CoverSpec(v, n + 1);
    }
  }

  /** The loop's length is the least m >= 1 with v <= 10^m. */
  lemma F32LenSpec(v: nat)
    ensures var m := F32Len(v); m >= 1 && v <= Pow10(m) && (m == 1 || Pow10(m - 1) < v)
  {
    CoverSpec(v, 1);
  }

  lemma Pow10Mono(a: nat, b: nat)
    requires a <= b
    ensures Pow10(a) <= Pow10(b)
  {
    if a < b {
      Pow10Grows(a, b);
    }
  }

  /** The loop counts the digits of every number that is not a power of ten from 10 on. */
  lemma F32LenDigits(v: nat)
    requires forall k :: 1 <= k ==> v != Pow10(k)
    ensures F32Len(v) == NbDigits(v)
  {
    var m, n := F32Len(v), NbDigits(v);
    F32LenSpec(v);
    NbDigitsBounds(v);
    if m < n {
      Pow10Mono(m, n - 1);
    } else if m > n {
      Pow10Mono(n, m - 1);
    }
  }

  /** The loop gets 10^k, k >= 1, one digit short. */
  lemma F32LenPow(k: nat)
    requires k >= 1
    ensures F32Len(Pow10(k)) == k && NbDigits(Pow10(k)) == k + 1
  {
    var v := Pow10(k);
    var m := F32Len(v);
    F32LenSpec(v);
    if m < k {
      Pow10Grows(m, k);
    } else if m > k {
      Pow10Mono(k, m - 1);
    }
    PowDigits(k);
  }

  /** 10^k is a one followed by k zeros. */
  lemma {:induction false} PowDigits(k: nat)
    ensures NbDigits(Pow10(k)) == k + 1
  {
    if k > 0 {
      PowDigits(k - 1);
      NbDigitsStep(Pow10(k - 1), 0);
    }
  }

  /** The f32 length loop, its quotient kept as the power of ten it divides by. */
  method NumberLen(number: nat) returns (numberLen: nat)
    ensures numberLen == F32Len(number)
  {
    var divisor := 1;
    numberLen := 1;
    while number > 10 * divisor
      invariant numberLen >= 1 && divisor == Pow10(numberLen - 1)
      invariant Cover(number, numberLen) == F32Len(number)
      decreases number - divisor
    {
      divisor := 10 * divisor;
      numberLen := numberLen + 1;
    }
  }

  /** `get_nb_digit` of rust/d03_2: divides by ten until one digit is left. */
  method DigitLen(value: nat) returns (numberLen: nat)
    ensures numberLen == NbDigits(value)
  {
    var v := value;
    numberLen := 1;
    while v >= 10
      invariant numberLen + NbDigits(v) == NbDigits(value) + 1
      decreases v
    {
      NbDigitsStep(v / 10, v % 10);
      v := v / 10;
      numberLen := numberLen + 1;
    }
    NbDigitsBounds(v);
  }

  /** The length of a number: the f32 loop as written, or the digit count. */
  datatype Count = F32Division | DigitCount

  function Len(count: Count, v: nat): nat {
    match count
    case F32Division => F32Len(v)
    case DigitCount => NbDigits(v)
  }

  /** A number with the chars around it and whether one of them is a symbol. */
  datatype PartNumber = PartNumber(value: nat, top: string, bot: string, left: string, right: string, isValid: bool)

  /** A string differs from the dots of its length exactly when it holds a char other than a dot. */
  lemma NotDots(s: string)
    ensures s != Dots(|s|) <==> exists i :: 0 <= i < |s| && s[i] != '.'
  {
    if exists i :: 0 <= i < |s| && s[i] != '.' {
      var i :| 0 <= i < |s| && s[i] != '.';
      assert s[i] != Dots(|s|)[i];
    }
  }

  /** `PartNumber::new`: valid when left or right is not a dot, or top or bottom is not all dots. */
  function NewPart(value: nat, top: string, bot: string, left: string, right: string): PartNumber {
    PartNumber(value, top, bot, left, right, left != "." || right != "." || top != Dots(|top|) || bot != Dots(|bot|))
  }

  /** A new part number keeps its chars, and is valid exactly when one of them is not a dot. */
  lemma NewPartValid(value: nat, top: string, bot: string, left: string, right: string)
    ensures var p := NewPart(value, top, bot, left, right);
      p.value == value && p.top == top && p.bot == bot && p.left == left && p.right == right &&
      (p.isValid <==> (left != "." || right != "." || (exists i :: 0 <= i < |top| && top[i] != '.')
        || (exists i :: 0 <= i < |bot| && bot[i] != '.')))
  {
    NotDots(top);
    NotDots(bot);
  }

  /**
   * Emitting the run that ends at e in row y: `index_huchar - (number_len + 1)`
   * is a `usize`, and the rows above and below are sliced up to column e.
   */
  predicate EmitOk(rows: seq<string>, y: nat, e: nat, count: Count)
    requires y < |rows| && e <= |rows[y]|
  {
    var len := Len(count, RunValue(rows[y], e));
    len + 1 <= e && 0 < y < |rows| - 1 && e + 1 <= |rows[y - 1]| && e + 1 <= |rows[y + 1]|
  }

  /** Every run ending before n in row y is emitted without a panic. */
  predicate RowSafe(rows: seq<string>, y: nat, n: nat, count: Count)
    requires y < |rows| && n <= |rows[y]|
  {
    forall e: nat :: e < n && EndsRun(rows[y], e) ==> EmitOk(rows, y, e, count)
  }

  /** The part number of the run that ends at e, with the chars the scan keeps around it. */
  function PartAt(rows: seq<string>, y: nat, e: nat, count: Count): PartNumber
    requires y < |rows| && e < |rows[y]| && EmitOk(rows, y, e, count)
  {
    var value := RunValue(rows[y], e);
    var from := e - (Len(count, value) + 1);
    NewPart(value, rows[y - 1][from..e + 1], rows[y + 1][from..e + 1], [rows[y][from]], [rows[y][e]])
  }

  /** The part numbers of the runs that end before n in row y, left to right. */
  function PartsOf(rows: seq<string>, y: nat, n: nat, count: Count): seq<PartNumber>
    requires y < |rows| && n <= |rows[y]| && RowSafe(rows, y, n, count)
  {
    if n == 0 then []
    else PartsOf(rows, y, n - 1, count) + (if EndsRun(rows[y], n - 1) then [PartAt(rows, y, n - 1, count)] else [])
  }

  /** Row y's part numbers are its runs, left to right. */
  lemma {:induction false} PartsOfRuns(rows: seq<string>, y: nat, n: nat, count: Count)
    requires y < |rows| && n <= |rows[y]| && RowSafe(rows, y, n, count)
    ensures var parts, ends := PartsOf(rows, y, n, count), RunEnds(rows[y], n);
      |parts| == |ends| && forall k :: 0 <= k < |ends| ==> parts[k] == PartAt(rows, y, ends[k], count)
  {
    if n > 0 {
      PartsOfRuns(rows, y, n - 1, count);
      if EndsRun(rows[y], n - 1) {
        PartsOfRunsStep(rows, y, n, count);
      }
    }
  }

  lemma PartsOfRunsStep(rows: seq<string>, y: nat, n: nat, count: Count)
    requires y < |rows| && 0 < n <= |rows[y]| && RowSafe(rows, y, n, count) && EndsRun(rows[y], n - 1)
    requires var parts, ends := PartsOf(rows, y, n - 1, count), RunEnds(rows[y], n - 1);
      |parts| == |ends| && forall k :: 0 <= k < |ends| ==> parts[k] == PartAt(rows, y, ends[k], count)
    ensures var parts, ends := PartsOf(rows, y, n, count), RunEnds(rows[y], n);
      |parts| == |ends| && forall k :: 0 <= k < |ends| ==> parts[k] == PartAt(rows, y, ends[k], count)
  {
    var parts, ends := PartsOf(rows, y, n - 1, count), RunEnds(rows[y], n - 1);
    var parts', ends' := PartsOf(rows, y, n, count), RunEnds(rows[y], n);
    assert parts' == parts + [PartAt(rows, y, n - 1, count)];
    assert ends' == ends + [n - 1];
    forall k | 0 <= k < |ends'|
      ensures parts'[k] == PartAt(rows, y, ends'[k], count)
    {
      if k < |ends| {
        assert parts'[k] == parts[k] && ends'[k] == ends[k];
      }
    }
  }

  /** One more column of a row: safe when the run ending there is, and its part number comes last. */
  lemma ScanStep(rows: seq<string>, y: nat, j: nat, count: Count)
    requires y < |rows| && j < |rows[y]| && RowSafe(rows, y, j, count)
    requires EndsRun(rows[y], j) ==> EmitOk(rows, y, j, count)
    ensures RowSafe(rows, y, j + 1, count)
    ensures PartsOf(rows, y, j + 1, count)
      == PartsOf(rows, y, j, count) + (if EndsRun(rows[y], j) then [PartAt(rows, y, j, count)] else [])
  {
  }

  /** The emission of the run that ends at e: its length, then the chars around it. */
  method Emit(rows: seq<string>, y: nat, e: nat, number: nat, count: Count) returns (r: Option<PartNumber>)
    requires y < |rows| && EndsRun(rows[y], e) && number == RunValue(rows[y], e)
    ensures EmitOk(rows, y, e, count) ==> r == Some(PartAt(rows, y, e, count))
    ensures !EmitOk(rows, y, e, count) ==> r.None?
  {
    var line := rows[y];
    var numberLen;
    if count == F32Division {
      numberLen := NumberLen(number);
    } else {
      numberLen := DigitLen(number);
    }
    // the `usize` index of `left` and the slices `top` and `bot` of the rows around panic when out of range
    if e < numberLen + 1 || y == 0 || y + 1 >= |rows| || e + 1 > |rows[y - 1]| || e + 1 > |rows[y + 1]| {
      return None;
    }
    var from := e - (numberLen + 1);
    var left := [line[from]];
    var right := [line[e]];
    var top := rows[y - 1][from..e + 1];
    var bot := rows[y + 1][from..e + 1];
    r := Some(NewPart(number, top, bot, left, right));
  }

  /** The scan of one row: the run value grows digit by digit and is emitted at the first non-digit after it. */
  method ScanLine(rows: seq<string>, y: nat, count: Count) returns (r: Option<seq<PartNumber>>)
    requires y < |rows|
    ensures RowSafe(rows, y, |rows[y]|, count) ==> r == Some(PartsOf(rows, y, |rows[y]|, count))
    ensures !RowSafe(rows, y, |rows[y]|, count) ==> r.None?
  {
    var line := rows[y];
    var lastWasNumber := false;
    var number := 0;
    var parts: seq<PartNumber> := [];
    for indexHuchar := 0 to |line|
      invariant lastWasNumber <==> indexHuchar > 0 && IsDigit(line[indexHuchar - 1])
      invariant number == RunValue(line, indexHuchar)
      invariant RowSafe(rows, y, indexHuchar, count)
      invariant parts == PartsOf(rows, y, indexHuchar, count)
    {
      var huchar := line[indexHuchar];
      RunValueStep(line, indexHuchar);
      if IsDigit(huchar) {
        lastWasNumber := true;
        number := 10 * number + DigitValue(huchar);
      } else if lastWasNumber {
        var pn := Emit(rows, y, indexHuchar, number, count);
        if pn.None? {
          return None;
        }
        parts := parts + [pn.value];
        number := 0;
        lastWasNumber := false;
      }
      ScanStep(rows, y, indexHuchar, count);
    }
    return Some(parts);
  }

  /** Every row of rows[..n] is emitted without a panic. */
  predicate RowsSafe(rows: seq<string>, n: nat, count: Count)
    requires n <= |rows|
  {
    forall y :: 0 <= y < n ==> RowSafe(rows, y, |rows[y]|, count)
  }

  /** The part numbers of rows[..n], row by row. */
  function AllParts(rows: seq<string>, n: nat, count: Count): seq<PartNumber>
    requires n <= |rows| && RowsSafe(rows, n, count)
  {
    if n == 0 then [] else AllParts(rows, n - 1, count) + PartsOf(rows, n - 1, |rows[n - 1]|, count)
  }

  /** What `get_input` returns for a file's content: None where it panics. */
  function Input(content: string, count: Count): Option<seq<PartNumber>> {
    var rows := Framed(Split(content, '\n'));
    if RowsSafe(rows, |rows|, count) then Some(AllParts(rows, |rows|, count)) else None
  }

  /** The framing of `get_input`: a row of dots as wide as the first line before and after, and a dot at both ends. */
  method FrameLines(rawLines: seq<string>) returns (vecLines: seq<string>)
    requires |rawLines| >= 1
    ensures vecLines == Framed(rawLines)
  {
    var lenLine := |rawLines[0]|;
    var fakeLine := Dots(lenLine);
    var all := [fakeLine] + rawLines + [fakeLine];
    vecLines := [];
    for k := 0 to |all|
      invariant vecLines == Framed(rawLines)[..k]
    {
      vecLines := vecLines + ["." + all[k] + "."];
    }
  }

  /** `get_input`: the framed grid, then the scan row by row. */
  method GetInput(content: string, count: Count) returns (r: Option<seq<PartNumber>>)
    ensures r == Input(content, count)
  {
    var vecLines := FrameLines(Split(content, '\n'));
    var result: seq<PartNumber> := [];
    for indexLine := 0 to |vecLines|
      invariant RowsSafe(vecLines, indexLine, count)
      invariant result == AllParts(vecLines, indexLine, count)
    {
      var row := ScanLine(vecLines, indexLine, count);
      if row.None? {
        assert !RowsSafe(vecLines, |vecLines|, count);
        return None;
      }
      assert RowsSafe(vecLines, indexLine + 1, count);
      result := result + row.value;
    }
    return Some(result);
  }

  /** The sum of the values of the valid part numbers among parts[..n]. */
  function ValidTotal(parts: seq<PartNumber>, n: nat): nat
    requires n <= |parts|
  {
    if n == 0 then 0 else ValidTotal(parts, n - 1) + (if parts[n - 1].isValid then parts[n - 1].value else 0)
  }

  /** main's loop: the sum of the valid part numbers. */
  method SumValid(pnVec: seq<PartNumber>) returns (result: nat)
    ensures result == ValidTotal(pnVec, |pnVec|)
  {
    result := 0;
    for k := 0 to |pnVec|
      invariant result == ValidTotal(pnVec, k)
    {
      if pnVec[k].isValid {
        result := result + pnVec[k].value;
      }
    }
  }

  /** What main prints, or None where `get_input` panics on a slice and nothing is printed. */
  function Answer(content: string, count: Count): Option<nat> {
    match Input(content, count)
    case None => None
    case Some(parts) => Some(ValidTotal(parts, |parts|))
  }

  /** main. */
  method Run(content: string) returns (result: Option<nat>)
    ensures result == Answer(content, F32Division)
  {
    var pnVec := GetInput(content, F32Division);
    if pnVec.None? {
      return None;
    }
    var total := SumValid(pnVec.value);
    return Some(total);
  }

  /** The loop never counts more digits than the number has. */
  lemma F32LenAtMost(v: nat)
    ensures F32Len(v) <= NbDigits(v)
  {
    var m, n := F32Len(v), NbDigits(v);
    F32LenSpec(v);
    NbDigitsBounds(v);
    if m > n {
      Pow10Mono(n, m - 1);
    }
  }

  /** A file whose lines all have the same length is read without a panic, whichever the count. */
  lemma RectangularReads(content: string, count: Count)
    requires Rectangular(Split(content, '\n'))
    ensures Input(content, count).Some?
  {
    var lines := Split(content, '\n');
    var rows := Framed(lines);
    forall y | 0 <= y < |rows|
      ensures RowSafe(rows, y, |rows[y]|, count)
    {
      forall e: nat | e < |rows[y]| && EndsRun(rows[y], e)
        ensures EmitOk(rows, y, e, count)
      {
        EmitSafe(lines, y, e, count);
      }
    }
  }

  lemma EmitSafe(lines: seq<string>, y: nat, e: nat, count: Count)
    requires |lines| >= 1 && Rectangular(lines)
    requires y < |Framed(lines)| && EndsRun(Framed(lines)[y], e)
    ensures EmitOk(Framed(lines), y, e, count)
  {
    var rows := Framed(lines);
    FramedShape(lines);
    FramedEdges(lines);
    var row := rows[y];
    var s := RunStart(row, e);
    DigitsLength(row[s..e]);
    F32LenAtMost(RunValue(row, e));
  }

  /** Cell (r, c) is next to the run row y holds from column s to column e - 1. */
  predicate Around(y: nat, s: nat, e: nat, r: nat, c: nat) {
    ((r + 1 == y || r == y + 1) && s <= c + 1 <= e + 1) || (r == y && (c + 1 == s || c == e))
  }

  /** The run ending at e starts with a digit other than '0' or is a single digit. */
  predicate NoLeadingZero(row: string, e: nat)
    requires e <= |row|
  {
    var s := RunStart(row, e);
    s < e ==> row[s] != '0' || s == e - 1
  }

  /**
   * With the digit count, a part number is valid exactly when a cell next
   * to its digits holds something other than a dot.
   */
  lemma NeighbourValid(rows: seq<string>, y: nat, e: nat)
    requires y < |rows| && EndsRun(rows[y], e) && EmitOk(rows, y, e, DigitCount) && NoLeadingZero(rows[y], e)
    ensures var s := RunStart(rows[y], e);
      PartAt(rows, y, e, DigitCount).isValid
      <==> exists r: nat, c: nat :: Around(y, s, e, r, c) && r < |rows| && c < |rows[r]| && rows[r][c] != '.'
  {
    var row := rows[y];
    var s := RunStart(row, e);
    DigitsLength(row[s..e]);
    var p := PartAt(rows, y, e, DigitCount);
    if p.isValid {
      ValidWitness(rows, y, e);
    }
    if exists r: nat, c: nat :: Around(y, s, e, r, c) && r < |rows| && c < |rows[r]| && rows[r][c] != '.' {
      var r: nat, c: nat :| Around(y, s, e, r, c) && r < |rows| && c < |rows[r]| && rows[r][c] != '.';
      WitnessValid(rows, y, e, r, c);
    }
  }

  /** The chars a part number keeps, when the digit count spans its run: they start one column before it. */
  lemma KeptChars(rows: seq<string>, y: nat, e: nat)
    requires y < |rows| && EndsRun(rows[y], e) && EmitOk(rows, y, e, DigitCount)
    requires NbDigits(RunValue(rows[y], e)) == e - RunStart(rows[y], e)
    ensures var s, p := RunStart(rows[y], e), PartAt(rows, y, e, DigitCount);
      s >= 1 && p.left == [rows[y][s - 1]] && p.right == [rows[y][e]] &&
      p.top == rows[y - 1][s - 1..e + 1] && p.bot == rows[y + 1][s - 1..e + 1]
  {
  }

  lemma ValidWitness(rows: seq<string>, y: nat, e: nat)
    requires y < |rows| && EndsRun(rows[y], e) && EmitOk(rows, y, e, DigitCount)
    requires NbDigits(RunValue(rows[y], e)) == e - RunStart(rows[y], e)
    requires PartAt(rows, y, e, DigitCount).isValid
    ensures exists r: nat, c: nat :: Around(y, RunStart(rows[y], e), e, r, c) && r < |rows| && c < |rows[r]| && rows[r][c] != '.'
  {
    var row := rows[y];
    var s := RunStart(row, e);
    var p := PartAt(rows, y, e, DigitCount);
    KeptChars(rows, y, e);
    NewPartValid(p.value, p.top, p.bot, p.left, p.right);
    if p.left != "." {
      assert Around(y, s, e, y, s - 1) && row[s - 1] != '.';
    } else if p.right != "." {
      assert Around(y, s, e, y, e) && row[e] != '.';
    } else if exists i :: 0 <= i < |p.top| && p.top[i] != '.' {
      var i :| 0 <= i < |p.top| && p.top[i] != '.';
      assert Around(y, s, e, y - 1, s - 1 + i) && rows[y - 1][s - 1 + i] != '.';
    } else {
      var i :| 0 <= i < |p.bot| && p.bot[i] != '.';
      assert Around(y, s, e, y + 1, s - 1 + i) && rows[y + 1][s - 1 + i] != '.';
    }
  }

  lemma WitnessValid(rows: seq<string>, y: nat, e: nat, r: nat, c: nat)
    requires y < |rows| && EndsRun(rows[y], e) && EmitOk(rows, y, e, DigitCount)
    requires NbDigits(RunValue(rows[y], e)) == e - RunStart(rows[y], e)
    requires Around(y, RunStart(rows[y], e), e, r, c) && r < |rows| && c < |rows[r]| && rows[r][c] != '.'
    ensures PartAt(rows, y, e, DigitCount).isValid
  {
    var s := RunStart(rows[y], e);
    var p := PartAt(rows, y, e, DigitCount);
    KeptChars(rows, y, e);
    NewPartValid(p.value, p.top, p.bot, p.left, p.right);
    if r + 1 == y {
      assert p.top[c - (s - 1)] == rows[y - 1][c];
    } else if r == y + 1 {
      assert p.bot[c - (s - 1)] == rows[y + 1][c];
    } else if c + 1 == s {
      assert p.left != ".";
    } else {
      assert p.right != ".";
    }
  }

  /**
   * As written, a power of ten from 10 on is always valid: the loop gets
   * it one digit short, so `left` is its own first digit.
   */
  lemma PowerOfTenValid(rows: seq<string>, y: nat, e: nat, k: nat)
    requires y < |rows| && EndsRun(rows[y], e) && EmitOk(rows, y, e, F32Division) && NoLeadingZero(rows[y], e)
    requires k >= 1 && RunValue(rows[y], e) == Pow10(k)
    ensures PartAt(rows, y, e, F32Division).isValid
  {
    var row := rows[y];
    var s := RunStart(row, e);
    DigitsLength(row[s..e]);
    F32LenPow(k);
    assert PartAt(rows, y, e, F32Division).left == [row[s]];
    assert IsDigit(row[s..e][0]);
  }

  /** The grid of the one-line file "10". */
  lemma FramedTen()
    ensures Framed(["10"]) == ["....", ".10.", "...."]
  {
    var rows := Framed(["10"]);
    assert Dots(2) == "..";
    assert rows[0] == "...." && rows[1] == ".10." && rows[2] == "....";
    assert |rows| == 3;
  }

  /** The run of ".10." that ends at column 3 is 10, from column 1. */
  lemma RunTen()
    ensures RunStart(".10.", 3) == 1 && RunValue(".10.", 3) == 10
  {
    var row := ".10.";
    assert RunStart(row, 1) == 1;
    assert RunStart(row, 3) == RunStart(row, 2) == RunStart(row, 1);
    assert row[1..3] == "10" && "10"[..1] == "1";
    assert DigitsValue("1") == 1;
  }

  lemma TenParts(rows: seq<string>)
    requires rows == ["....", ".10.", "...."]
    ensures EndsRun(rows[1], 3) && EmitOk(rows, 1, 3, F32Division) && PartAt(rows, 1, 3, F32Division).isValid
    ensures EmitOk(rows, 1, 3, DigitCount) && !PartAt(rows, 1, 3, DigitCount).isValid
  {
    RunTen();
    F32LenPow(1);
    assert NbDigits(10) == 2 && F32Len(10) == 1;
    assert PartAt(rows, 1, 3, F32Division).left == [rows[1][1]];
    var p := PartAt(rows, 1, 3, DigitCount);
    assert p.left == [rows[1][0]] && p.right == [rows[1][3]];
    assert p.top == rows[0][0..4] && p.bot == rows[2][0..4];
  }

  /** The row ".10." between rows of dots: 10 is counted as written and not with the digit count. */
  lemma TenCounted()
    ensures var rows := Framed(["10"]);
      EndsRun(rows[1], 3) && EmitOk(rows, 1, 3, F32Division) && PartAt(rows, 1, 3, F32Division).isValid &&
      EmitOk(rows, 1, 3, DigitCount) && !PartAt(rows, 1, 3, DigitCount).isValid
  {
    FramedTen();
    TenParts(["....", ".10.", "...."]);
  }
}
