/**
 * 03/prog.py: for every run of digits of the schematic, a dict with its
 * value, its line, its first column, a running id and the chars around
 * it: `left` and `right` one char each, `top` and `bot` the slices of the
 * lines above and below, with dots standing in past the edges of the grid.
 * A number is emitted at the first non-digit after it, in the `except` of
 * the failed `int(char)`, or at the last char of its line, inside the
 * `try`; an IndexError inside the `try` falls through to the `except`, one
 * inside the `except` ends the program (None here).  Then the dicts with a
 * '*' around them, and those grouped by line.
 */
module Day03Py {
  import opened Wrappers
  import opened Text
  import opened Schematic

  /** `load_input`: every line read, stripped at both ends. */
  method LoadInput(fileLines: seq<string>) returns (data: seq<string>)
    ensures |data| == |fileLines|
    ensures forall k :: 0 <= k < |data| ==> data[k] == Trim(fileLines[k])
  {
    data := [];
    for k := 0 to |fileLines|
      invariant |data| == k && forall i :: 0 <= i < k ==> data[i] == Trim(fileLines[i])
    {
      data := data + [Trim(fileLines[k])];
    }
  }

  /** The lines `load_input` returns: every line of the file, stripped. */
  function Loaded(fileLines: seq<string>): (r: seq<string>)
    ensures |r| == |fileLines| && forall k :: 0 <= k < |r| ==> r[k] == Trim(fileLines[k])
  {
    seq(|fileLines|, k requires 0 <= k < |fileLines| => Trim(fileLines[k]))
  }

  /** The dict of a number; the four strings are empty until it is emitted. */
  datatype Dico = Dico(value: nat, lineNb: nat, charIndex: nat, id: nat, left: string, right: string, top: string, bot: string)

  const Empty := Dico(0, 0, 0, 0, "", "", "", "")

  /** Char j emits a number: it is the first non-digit after digits, or a digit that ends the line. */
  predicate Emits(line: string, j: nat) {
    j < |line| && ((IsDigit(line[j]) && j + 1 == |line|) || (!IsDigit(line[j]) && j > 0 && IsDigit(line[j - 1])))
  }

  /** The end, exclusive, of the run emitted at char j. */
  function RunEndAt(line: string, j: nat): nat
    requires j < |line|
  {
    if IsDigit(line[j]) then j + 1 else j
  }

  /** The dict of the run that ends before e when its first digit is read, with the given id. */
  function Opened(line: string, y: nat, e: nat, id: nat): Dico
    requires e <= |line|
  {
    Dico(RunValue(line, e), y, RunStart(line, e), id, "", "", "", "")
  }

  /** The `except` branch on the dict of the number before char j; None when it raises IndexError. */
  function MidSurround(lines: seq<string>, y: nat, j: nat, d: Dico): Option<Dico>
    requires y < |lines| && j < |lines[y]|
  {
    var line := lines[y];
    var len := NbDigits(d.value);
    var atStart := j - len <= 0;
    var left := if atStart then "." else [line[j - (len + 1)]];
    var right := [line[j]];
    if y == 0 then
      if |lines| < 2 then None
      else Some(d.(left := left, right := right, top := Dots(len + 2), bot := PySlice(lines[1], j - (len + 1), j + 1)))
    else if y == |lines| - 1 then
      Some(d.(left := left, right := right, bot := Dots(len + 2), top := PySlice(lines[y - 1], j - (len + 1), j + 1)))
    else if atStart then
      Some(d.(left := left, right := right,
              bot := "." + PySlice(lines[y + 1], j - len, j + 1), top := "." + PySlice(lines[y - 1], j - len, j + 1)))
    else
      Some(d.(left := left, right := right,
              bot := PySlice(lines[y + 1], j - (len + 1), j + 1), top := PySlice(lines[y - 1], j - (len + 1), j + 1)))
  }

  /** The end-of-line block of the `try`, char j being the line's last; None when it raises IndexError. */
  function TryEnd(lines: seq<string>, y: nat, j: nat, d: Dico): Option<Dico>
    requires y < |lines| && j < |lines[y]|
  {
    var line := lines[y];
    var len := NbDigits(d.value);
    match PyIndex(line, j - len)
    case None => None
    case Some(c) =>
      if y == 0 then
        if |lines| < 2 then None
        else Some(d.(right := ".", left := [c], top := Dots(len + 2), bot := PySlice(lines[1], j - (len + 1), j) + "."))
      else if y == |lines| - 1 then
        Some(d.(right := ".", left := [c], bot := Dots(len + 2), top := PySlice(lines[y - 1], j - (len + 1), j) + "."))
      else
        Some(d.(right := ".", left := [c],
                bot := PySlice(lines[y + 1], j - (len + 1), j) + ".", top := PySlice(lines[y - 1], j - (len + 1), j) + "."))
  }

  /** The `try` at the end of a line, and the `except` when it raises. */
  function EndSurround(lines: seq<string>, y: nat, j: nat, d: Dico): Option<Dico>
    requires y < |lines| && j < |lines[y]|
  {
    match TryEnd(lines, y, j, d)
    case Some(e) => Some(e)
    case None => MidSurround(lines, y, j, d)
  }

  /** The dict emitted at char j of line y, with the given id. */
  function Surround(lines: seq<string>, y: nat, j: nat, id: nat): Option<Dico>
    requires y < |lines| && Emits(lines[y], j)
  {
    var line := lines[y];
    var d := Opened(line, y, RunEndAt(line, j), id);
    if IsDigit(line[j]) then EndSurround(lines, y, j, d) else MidSurround(lines, y, j, d)
  }

  /** Char j of line y on the result so far: the dict it emits, if any, is appended with the next id. */
  function Step(lines: seq<string>, y: nat, j: nat, r: seq<Dico>): Option<seq<Dico>>
    requires y < |lines| && j < |lines[y]|
  {
    if !Emits(lines[y], j) then Some(r)
    else
      match Surround(lines, y, j, |r|)
      case None => None
      case Some(d) => Some(r + [d])
  }

  /** The result after chars [..n] of line y, from what the lines before gave. */
  function ScanFrom(lines: seq<string>, y: nat, n: nat, acc: seq<Dico>): Option<seq<Dico>>
    requires y < |lines| && n <= |lines[y]|
  {
    if n == 0 then Some(acc)
    else
      match ScanFrom(lines, y, n - 1, acc)
      case None => None
      case Some(r) => Step(lines, y, n - 1, r)
  }

  /** Once a char raises, the rest of the line changes nothing. */
  lemma {:induction false} ScanFromRaised(lines: seq<string>, y: nat, n: nat, m: nat, acc: seq<Dico>)
    requires y < |lines| && n <= m <= |lines[y]| && ScanFrom(lines, y, n, acc).None?
    ensures ScanFrom(lines, y, m, acc).None?
    decreases m
  {
    if m > n {
      ScanFromRaised(lines, y, n, m - 1, acc);
    }
  }

  /** Once a line raises, the later lines change nothing. */
  lemma {:induction false} ScanLinesRaised(lines: seq<string>, n: nat, m: nat)
    requires n <= m <= |lines| && ScanLines(lines, n).None?
    ensures ScanLines(lines, m).None?
    decreases m
  {
    if m > n {
      ScanLinesRaised(lines, n, m - 1);
    }
  }

  /** The result after lines[..n]. */
  function ScanLines(lines: seq<string>, n: nat): Option<seq<Dico>>
    requires n <= |lines|
  {
    if n == 0 then Some([])
    else
      match ScanLines(lines, n - 1)
      case None => None
      case Some(r) => ScanFrom(lines, n - 1, |lines[n - 1]|, r)
  }

  /** What `parse_surroundings_lines` returns, None when it raises. */
  function Parse(lines: seq<string>): Option<seq<Dico>> {
    ScanLines(lines, |lines|)
  }

  /** A run of digits is open after chars [..n] of the line, its number not yet emitted. */
  predicate Pending(line: string, n: nat)
    requires n <= |line|
  {
    0 < n < |line| && IsDigit(line[n - 1])
  }

  /** `parse_surroundings_lines`. */
  method ParseSurroundingsLines(lines: seq<string>) returns (r: Option<seq<Dico>>)
    ensures r == Parse(lines)
  {
    var result: seq<Dico> := [];
    var id := 0;
    for indexLine := 0 to |lines|
      invariant ScanLines(lines, indexLine) == Some(result) && id == |result|
    {
      var line := lines[indexLine];
      ghost var before := result;
      var lastCharWasInt := false;
      var dico := Empty;
      for indexChar := 0 to |line|
        invariant indexChar < |line| ==> (lastCharWasInt <==> indexChar > 0 && IsDigit(line[indexChar - 1]))
        invariant ScanFrom(lines, indexLine, indexChar, before) == Some(result)
        invariant Pending(line, indexChar) ==> dico == Opened(line, indexLine, indexChar, |result|)
        invariant !lastCharWasInt ==> dico == Empty
        invariant id == |result| + (if Pending(line, indexChar) then 1 else 0)
      {
        var r := LineChar(lines, indexLine, indexChar, lastCharWasInt, dico, id, result);
        if r.None? {
          ScanFromRaised(lines, indexLine, indexChar + 1, |line|, before);
          ScanLinesRaised(lines, indexLine + 1, |lines|);
          return None;
        }
        lastCharWasInt, dico, id, result := r.value.0, r.value.1, r.value.2, r.value.3;
      }
    }
    return Some(result);
  }

  /** Reading a digit: a new run opens its dict, a run already open grows by the digit. */
  lemma OpenStep(line: string, y: nat, j: nat, id: nat, d: Dico)
    requires j < |line| && IsDigit(line[j])
    requires Pending(line, j) ==> d == Opened(line, y, j, id)
    ensures j > 0 && IsDigit(line[j - 1]) ==> d.(value := 10 * d.value + DigitValue(line[j])) == Opened(line, y, j + 1, id)
    ensures !(j > 0 && IsDigit(line[j - 1])) ==>
      d.(value := DigitValue(line[j]), lineNb := y, charIndex := j, id := id, left := "", right := "", top := "", bot := "")
      == Opened(line, y, j + 1, id)
  {
    RunValueStep(line, j);
    if j > 0 && !IsDigit(line[j - 1]) {
      RunValueStep(line, j - 1);
    }
  }

  /** The body of the inner loop: char j of line y through the `try` and the `except`. */
  method LineChar(lines: seq<string>, y: nat, j: nat, lastCharWasInt: bool, dico: Dico, id: nat, result: seq<Dico>)
    returns (r: Option<(bool, Dico, nat, seq<Dico>)>)
    requires y < |lines| && j < |lines[y]|
    requires lastCharWasInt <==> j > 0 && IsDigit(lines[y][j - 1])
    requires Pending(lines[y], j) ==> dico == Opened(lines[y], y, j, |result|)
    requires !lastCharWasInt ==> dico == Empty
    requires id == |result| + (if Pending(lines[y], j) then 1 else 0)
    ensures r.None? <==> Step(lines, y, j, result).None?
    ensures r.Some? ==> r.value.3 == Step(lines, y, j, result).value
    ensures r.Some? && j + 1 < |lines[y]| ==> (r.value.0 <==> IsDigit(lines[y][j]))
    ensures r.Some? && Pending(lines[y], j + 1) ==> r.value.1 == Opened(lines[y], y, j + 1, |r.value.3|)
    ensures r.Some? && !r.value.0 ==> r.value.1 == Empty
    ensures r.Some? ==> r.value.2 == |r.value.3| + (if Pending(lines[y], j + 1) then 1 else 0)
  {
    var huchar := lines[y][j];
    var charAsInt := PyInt([huchar]);
    PyIntChar(huchar);
    if charAsInt.Some? {
      r := DigitChar(lines, y, j, lastCharWasInt, dico, id, result);
    } else if lastCharWasInt {
      var emitted := MidSurround(lines, y, j, dico);
      if emitted.None? {
        return None;
      }
      return Some((false, Empty, id, result + [emitted.value]));
    } else {
      return Some((false, dico, id, result));
    }
  }

  /** A digit: the `try` grows or opens the number, and emits it at the end of the line. */
  method DigitChar(lines: seq<string>, y: nat, j: nat, lastCharWasInt: bool, dico: Dico, id: nat, result: seq<Dico>)
    returns (r: Option<(bool, Dico, nat, seq<Dico>)>)
    requires y < |lines| && j < |lines[y]| && IsDigit(lines[y][j])
    requires lastCharWasInt <==> j > 0 && IsDigit(lines[y][j - 1])
    requires Pending(lines[y], j) ==> dico == Opened(lines[y], y, j, |result|)
    requires !lastCharWasInt ==> dico == Empty
    requires id == |result| + (if Pending(lines[y], j) then 1 else 0)
    ensures r.None? <==> Step(lines, y, j, result).None?
    ensures r.Some? ==> r.value.3 == Step(lines, y, j, result).value
    ensures r.Some? && j + 1 < |lines[y]| ==> r.value.0
    ensures r.Some? && Pending(lines[y], j + 1) ==> r.value.1 == Opened(lines[y], y, j + 1, |r.value.3|)
    ensures r.Some? && !r.value.0 ==> r.value.1 == Empty
    ensures r.Some? ==> r.value.2 == |r.value.3| + (if Pending(lines[y], j + 1) then 1 else 0)
  {
    var line := lines[y];
    OpenStep(line, y, j, |result|, dico);
    var d := dico;
    var n := id;
    if lastCharWasInt {
      d := d.(value := 10 * d.value + DigitValue(line[j]));
    } else {
      d := d.(value := DigitValue(line[j]), lineNb := y, charIndex := j, id := n);
      n := n + 1;
    }
    if j + 1 < |line| {
      return Some((true, d, n, result));
    }
    r := LineEnd(lines, y, j, d, n, result);
  }

  /** A digit that ends the line emits its number, through the `except` when the `try` raises. */
  method LineEnd(lines: seq<string>, y: nat, j: nat, d: Dico, n: nat, result: seq<Dico>)
    returns (r: Option<(bool, Dico, nat, seq<Dico>)>)
    requires y < |lines| && j + 1 == |lines[y]| && IsDigit(lines[y][j])
    requires d == Opened(lines[y], y, j + 1, |result|) && n == |result| + 1
    ensures r.None? <==> Step(lines, y, j, result).None?
    ensures r.Some? ==> r.value.3 == Step(lines, y, j, result).value
    ensures r.Some? && !r.value.0 ==> r.value.1 == Empty
    ensures r.Some? ==> r.value.2 == |r.value.3|
  {
    var tried := TryEnd(lines, y, j, d);
    if tried.Some? {
      return Some((true, d, n, result + [tried.value]));
    }
    // the IndexError of the `try` lands in the `except`, the run still open
    var emitted := MidSurround(lines, y, j, d);
    if emitted.None? {
      return None;
    }
    return Some((false, Empty, n, result + [emitted.value]));
  }

  // The runs of digits of a line, by their first digit

  /** s is the first digit of a run: a digit at the start of the line or after a non-digit. */
  predicate IsHead(line: string, s: nat) {
    s < |line| && IsDigit(line[s]) && (s == 0 || !IsDigit(line[s - 1]))
  }

  /** The heads of the runs in line[..n], from left to right. */
  function Heads(line: string, n: nat): (r: seq<nat>)
    requires n <= |line|
    ensures forall s: nat :: s in r <==> s < n && IsHead(line, s)
    ensures forall k :: 0 <= k < |r| ==> r[k] < n && IsHead(line, r[k])
    ensures forall a, b :: 0 <= a < b < |r| ==> r[a] < r[b]
  {
    if n == 0 then []
    else
      var front := Heads(line, n - 1);
      assert forall k :: 0 <= k < |front| ==> front[k] in front;
      front + (if IsHead(line, n - 1) then [n - 1] else [])
  }

  /** The value of the run that starts at s. */
  function HeadValue(line: string, s: nat): nat
    requires s <= |line|
  {
    DigitsValue(line[s..RunStop(line, s)])
  }

  /** The run that ends before the non-digit e starts at the last head before e. */
  lemma {:induction false} HeadLast(line: string, n: nat)
    requires 0 < n <= |line| && IsDigit(line[n - 1])
    ensures var h := Heads(line, n); |h| > 0 && h[|h| - 1] == RunStart(line, n)
    decreases n
  {
    if IsHead(line, n - 1) {
      assert Heads(line, n) == Heads(line, n - 1) + [n - 1];
      assert RunStart(line, n - 1) == n - 1;
    } else {
      assert Heads(line, n) == Heads(line, n - 1);
      assert RunStart(line, n) == RunStart(line, n - 1);
      HeadLast(line, n - 1);
    }
  }

  /** The dict of a run over [s, e) holds the run's own value. */
  lemma OpenedValue(line: string, e: nat)
    requires 0 < e <= |line| && IsDigit(line[e - 1]) && (e == |line| || !IsDigit(line[e]))
    ensures IsHead(line, RunStart(line, e)) && RunValue(line, e) == HeadValue(line, RunStart(line, e))
  {
    StopAt(line, RunStart(line, e), e);
  }

  /** The emitted dict keeps the value, line, column and id of the opened one; only the four strings are filled in. */
  lemma SurroundKeeps(lines: seq<string>, y: nat, j: nat, id: nat)
    requires y < |lines| && Emits(lines[y], j) && Surround(lines, y, j, id).Some?
    ensures var d := Surround(lines, y, j, id).value; var e := RunEndAt(lines[y], j);
      d.value == RunValue(lines[y], e) && d.lineNb == y && d.charIndex == RunStart(lines[y], e) && d.id == id
  {
  }

  /** d is the dict of the run whose head is s, with the run's value. */
  predicate OfHead(line: string, d: Dico, s: nat) {
    s <= |line| && d.charIndex == s && d.value == HeadValue(line, s)
  }

  /** r is acc followed by the dicts of the first runs of h, at their positions. */
  predicate RunDicts(line: string, y: nat, h: seq<nat>, acc: seq<Dico>, r: seq<Dico>) {
    |acc| <= |r| && r[..|acc|] == acc && |r| - |acc| <= |h| &&
    forall k :: |acc| <= k < |r| ==> r[k].id == k && r[k].lineNb == y && OfHead(line, r[k], h[k - |acc|])
  }

  lemma RunDictsAppend(line: string, y: nat, h: seq<nat>, acc: seq<Dico>, r: seq<Dico>, d: Dico)
    requires RunDicts(line, y, h, acc, r) && |r| - |acc| < |h|
    requires d.id == |r| && d.lineNb == y && OfHead(line, d, h[|r| - |acc|])
    ensures RunDicts(line, y, h, acc, r + [d])
  {
    assert (r + [d])[..|acc|] == r[..|acc|];
  }

  lemma RunDictsGrow(line: string, y: nat, h: seq<nat>, acc: seq<Dico>, r: seq<Dico>, x: seq<nat>)
    requires RunDicts(line, y, h, acc, r)
    ensures RunDicts(line, y, h + x, acc, r)
  {
    assert forall k :: 0 <= k < |h| ==> (h + x)[k] == h[k];
  }

  /** At an emission the run closed is the last one whose head has been read, and it is still open unless its head is char j. */
  lemma EmitHead(line: string, j: nat)
    requires j < |line| && Emits(line, j)
    ensures var h := Heads(line, j + 1); var e := RunEndAt(line, j);
      h == Heads(line, j) + (if IsHead(line, j) then [j] else []) &&
      |h| > 0 && h[|h| - 1] == RunStart(line, e) && RunValue(line, e) == HeadValue(line, RunStart(line, e)) &&
      (Pending(line, j) <==> !IsHead(line, j))
  {
    var e := RunEndAt(line, j);
    OpenedValue(line, e);
    HeadLast(line, e);
  }

  /** The dict emitted at char j is that of the last head so far, and closes the run. */
  lemma EmitRuns(line: string, y: nat, j: nat, acc: seq<Dico>, r: seq<Dico>, d: Dico)
    requires j < |line| && Emits(line, j) && RunDicts(line, y, Heads(line, j), acc, r)
    requires |r| - |acc| + (if Pending(line, j) then 1 else 0) == |Heads(line, j)|
    requires d.id == |r| && d.lineNb == y
    requires d.charIndex == RunStart(line, RunEndAt(line, j)) && d.value == RunValue(line, RunEndAt(line, j))
    ensures RunDicts(line, y, Heads(line, j + 1), acc, r + [d]) && |r| + 1 - |acc| == |Heads(line, j + 1)|
  {
    EmitHead(line, j);
    var x := if IsHead(line, j) then [j] else [];
    RunDictsGrow(line, y, Heads(line, j), acc, r, x);
    RunDictsAppend(line, y, Heads(line, j + 1), acc, r, d);
  }

  /**
   * After chars [..n] of line y the dicts added to acc are those of the
   * line's runs whose heads lie before n, left to right, but for a run still
   * open at n; each has its run's value, its line, its head and its position
   * as id.
   */
  lemma {:induction false} ScanFromRuns(lines: seq<string>, y: nat, n: nat, acc: seq<Dico>)
    requires y < |lines| && n <= |lines[y]| && ScanFrom(lines, y, n, acc).Some?
    ensures var r := ScanFrom(lines, y, n, acc).value; var h := Heads(lines[y], n);
      RunDicts(lines[y], y, h, acc, r) && |r| - |acc| + (if Pending(lines[y], n) then 1 else 0) == |h|
    decreases n
  {
    if n > 0 {
      var line := lines[y];
      var j := n - 1;
      var r' := ScanFrom(lines, y, j, acc).value;
      ScanFromRuns(lines, y, j, acc);
      if Emits(line, j) {
        var d := Surround(lines, y, j, |r'|).value;
        assert ScanFrom(lines, y, n, acc).value == r' + [d];
        SurroundKeeps(lines, y, j, |r'|);
        EmitRuns(line, y, j, acc, r', d);
      } else {
        var x := if IsHead(line, j) then [j] else [];
        assert Heads(line, n) == Heads(line, j) + x;
        RunDictsGrow(line, y, Heads(line, j), acc, r', x);
        if IsHead(line, j) {
          assert !Pending(line, j) && Pending(line, n);
        } else {
          assert Pending(line, j) <==> Pending(line, n);
        }
      }
    }
  }

  /** The heads of the runs of line y, as (line, column) pairs. */
  function LineHeads(lines: seq<string>, y: nat): (r: seq<(nat, nat)>)
    requires y < |lines|
    ensures forall k :: 0 <= k < |r| ==> r[k].0 == y && IsHead(lines[y], r[k].1)
  {
    var h := Heads(lines[y], |lines[y]|);
    seq(|h|, i requires 0 <= i < |h| => (y, h[i]))
  }

  /** The heads of all runs of lines[..n], in reading order. */
  function AllHeads(lines: seq<string>, n: nat): (r: seq<(nat, nat)>)
    requires n <= |lines|
    ensures forall k :: 0 <= k < |r| ==> r[k].0 < n && IsHead(lines[r[k].0], r[k].1)
  {
    if n == 0 then [] else AllHeads(lines, n - 1) + LineHeads(lines, n - 1)
  }

  /** r holds one dict per key, in order: the run's line, head and value, its position as id. */
  predicate Describes(lines: seq<string>, r: seq<Dico>, keys: seq<(nat, nat)>) {
    |r| == |keys| &&
    forall k :: 0 <= k < |r| ==>
      r[k].id == k && r[k].lineNb == keys[k].0 && keys[k].0 < |lines| && OfHead(lines[keys[k].0], r[k], keys[k].1)
  }

  lemma DescribesLine(lines: seq<string>, y: nat, r': seq<Dico>, r: seq<Dico>, keys: seq<(nat, nat)>)
    requires y < |lines| && Describes(lines, r', keys)
    requires RunDicts(lines[y], y, Heads(lines[y], |lines[y]|), r', r) && |r| - |r'| == |Heads(lines[y], |lines[y]|)|
    ensures Describes(lines, r, keys + LineHeads(lines, y))
  {
    var all := keys + LineHeads(lines, y);
    forall k | 0 <= k < |r|
      ensures r[k].id == k && r[k].lineNb == all[k].0 && all[k].0 < |lines| && OfHead(lines[all[k].0], r[k], all[k].1)
    {
      if k < |r'| {
        assert r[k] == r[..|r'|][k];
      }
    }
  }

  /** ScanLines yields the dicts of all runs of lines[..n], in reading order. */
  lemma {:induction false} ScanLinesRuns(lines: seq<string>, n: nat)
    requires n <= |lines| && ScanLines(lines, n).Some?
    ensures Describes(lines, ScanLines(lines, n).value, AllHeads(lines, n))
    decreases n
  {
    if n > 0 {
      var r' := ScanLines(lines, n - 1).value;
      ScanLinesRuns(lines, n - 1);
      ScanFromRuns(lines, n - 1, |lines[n - 1]|, r');
      DescribesLine(lines, n - 1, r', ScanLines(lines, n).value, AllHeads(lines, n - 1));
    }
  }

  /** The keys of a line are its heads, left to right. */
  lemma LineHeadsSpec(lines: seq<string>, y: nat)
    requires y < |lines|
    ensures var r := LineHeads(lines, y);
      (forall p: (nat, nat) :: p in r <==> p.0 == y && IsHead(lines[y], p.1)) &&
      (forall a, b :: 0 <= a < b < |r| ==> r[a].1 < r[b].1)
  {
    var r := LineHeads(lines, y);
    var h := Heads(lines[y], |lines[y]|);
    forall p: (nat, nat) | p.0 == y && IsHead(lines[y], p.1) ensures p in r {
      var i :| 0 <= i < |h| && h[i] == p.1;
      assert r[i] == p;
    }
  }

  /** Every head of every line is a key, in reading order: by line, then by column. */
  lemma {:induction false} AllHeadsSpec(lines: seq<string>, n: nat)
    requires n <= |lines|
    ensures var r := AllHeads(lines, n);
      (forall p: (nat, nat) :: p in r <==> p.0 < n && IsHead(lines[p.0], p.1)) &&
      (forall a, b :: 0 <= a < b < |r| ==> r[a].0 < r[b].0 || (r[a].0 == r[b].0 && r[a].1 < r[b].1))
    decreases n
  {
    if n > 0 {
      AllHeadsSpec(lines, n - 1);
      LineHeadsSpec(lines, n - 1);
      var front := AllHeads(lines, n - 1);
      var last := LineHeads(lines, n - 1);
      var r := front + last;
      forall a, b | 0 <= a < b < |r| ensures r[a].0 < r[b].0 || (r[a].0 == r[b].0 && r[a].1 < r[b].1) {
        if b < |front| {
          assert r[a] == front[a] && r[b] == front[b];
        } else if a >= |front| {
          assert r[a] == last[a - |front|] && r[b] == last[b - |front|];
        } else {
          assert r[a] == front[a] && r[b] == last[b - |front|];
        }
      }
    }
  }

  // When the program raises

  /** Emitting raises exactly when there is a single line: the `except` then reads the missing line below. */
  lemma SurroundRaises(lines: seq<string>, y: nat, j: nat, id: nat)
    requires y < |lines| && Emits(lines[y], j)
    ensures Surround(lines, y, j, id).None? <==> |lines| == 1
  {
  }

  lemma {:induction false} ScanFromNone(lines: seq<string>, y: nat, n: nat, acc: seq<Dico>)
    requires y < |lines| && n <= |lines[y]|
    ensures ScanFrom(lines, y, n, acc).None? <==> |lines| == 1 && exists j :: 0 <= j < n && Emits(lines[y], j)
    decreases n
  {
    if n > 0 {
      ScanFromNone(lines, y, n - 1, acc);
      if ScanFrom(lines, y, n - 1, acc).Some? && Emits(lines[y], n - 1) {
        SurroundRaises(lines, y, n - 1, |ScanFrom(lines, y, n - 1, acc).value|);
      }
    }
  }

  /** A digit at i is followed, at i or later, by the char that emits its run. */
  lemma {:induction false} EmitAfter(line: string, i: nat)
    requires i < |line| && IsDigit(line[i])
    ensures exists j :: i <= j < |line| && Emits(line, j)
    decreases |line| - i
  {
    if i + 1 < |line| {
      if IsDigit(line[i + 1]) {
        EmitAfter(line, i + 1);
      } else {
        assert Emits(line, i + 1);
      }
    } else {
      assert Emits(line, i);
    }
  }

  /** A line emits some number exactly when it holds a digit. */
  lemma EmitsIffDigit(line: string)
    ensures (exists j :: 0 <= j < |line| && Emits(line, j)) <==> (exists i :: 0 <= i < |line| && IsDigit(line[i]))
  {
    if i :| 0 <= i < |line| && IsDigit(line[i]) {
      EmitAfter(line, i);
    }
    if j :| 0 <= j < |line| && Emits(line, j) {
      if !IsDigit(line[j]) {
        assert IsDigit(line[j - 1]);
      }
    }
  }

  lemma {:induction false} ScanLinesNone(lines: seq<string>, n: nat)
    requires n <= |lines|
    ensures ScanLines(lines, n).None? <==> n == |lines| == 1 && exists j :: 0 <= j < |lines[0]| && Emits(lines[0], j)
    decreases n
  {
    if n > 0 {
      ScanLinesNone(lines, n - 1);
      if ScanLines(lines, n - 1).Some? {
        ScanFromNone(lines, n - 1, |lines[n - 1]|, ScanLines(lines, n - 1).value);
      }
    }
  }

  /**
   * The program raises IndexError exactly when the schematic is a single
   * line holding a digit: its first number reads the absent line below.
   */
  lemma ParseRaises(lines: seq<string>)
    ensures Parse(lines).None? <==> |lines| == 1 && exists i :: 0 <= i < |lines[0]| && IsDigit(lines[0][i])
  {
    ScanLinesNone(lines, |lines|);
    if |lines| == 1 {
      EmitsIffDigit(lines[0]);
    }
  }

  /**
   * What `parse_surroundings_lines` returns when it does not raise: one dict
   * per run of digits, in reading order, with the run's line, first column
   * and value and its position in the list as id.
   */
  lemma ParseDicts(lines: seq<string>)
    requires Parse(lines).Some?
    ensures Describes(lines, Parse(lines).value, AllHeads(lines, |lines|))
  {
    ScanLinesRuns(lines, |lines|);
  }

  /**
   * Dots past the edges of the grid: a number that ends its line gets a '.'
   * on its right; on the first line `top` is all dots and on the last line
   * `bot`, as long as the number plus two.
   */
  lemma EdgeDots(lines: seq<string>, y: nat, j: nat, id: nat)
    requires y < |lines| && Emits(lines[y], j) && Surround(lines, y, j, id).Some?
    ensures var d := Surround(lines, y, j, id).value; var len := NbDigits(d.value);
      (IsDigit(lines[y][j]) ==> d.right == ".") &&
      (y == 0 ==> d.top == Dots(len + 2)) && (0 < y == |lines| - 1 ==> d.bot == Dots(len + 2))
  {
    var line := lines[y];
    if IsDigit(line[j]) {
      var s := RunStart(line, j + 1);
      DigitsLength(line[s..j + 1]);
      assert PyIndex(line, j - NbDigits(RunValue(line, j + 1))).Some?;
    }
  }

  /**
   * A number closed by a non-digit and starting at column 0 gets a '.' on
   * its left, and on an inner line a '.' at the start of `top` and `bot`
   * (the number has no leading zero, so its decimal length is its run's).
   */
  lemma StartLeft(lines: seq<string>, y: nat, j: nat, id: nat)
    requires y < |lines| && Emits(lines[y], j) && !IsDigit(lines[y][j]) && RunStart(lines[y], j) == 0
    requires lines[y][0] != '0' || j == 1
    requires Surround(lines, y, j, id).Some?
    ensures var d := Surround(lines, y, j, id).value;
      d.left == "." && (0 < y < |lines| - 1 ==> d.top[0] == '.' && d.bot[0] == '.')
  {
    DigitsLength(lines[y][0..j]);
  }

  // The chars around a run, as the program means to collect them

  /** The char at column c of line y', a dot beyond the edges of the grid. */
  function Cell(lines: seq<string>, y': int, c: int): char {
    if 0 <= y' < |lines| && 0 <= c < |lines[y']| then lines[y'][c] else '.'
  }

  /** The chars of line y' at the columns s-1 .. e, from the cell before a run [s, e) to the cell after it. */
  function Window(lines: seq<string>, y': int, s: nat, e: nat): (w: string)
    requires s <= e
    ensures |w| == e - s + 2 && forall i :: 0 <= i < |w| ==> w[i] == Cell(lines, y', s - 1 + i)
  {
    seq(e - s + 2, i => Cell(lines, y', s - 1 + i))
  }

  /** The dict of the run [s, e) of line y with its eight-neighbourhood filled in. */
  function Intended(lines: seq<string>, y: nat, s: nat, e: nat, d: Dico): (r: Dico)
    requires s <= e
    ensures r.value == d.value && r.lineNb == d.lineNb && r.charIndex == d.charIndex && r.id == d.id
  {
    d.(left := [Cell(lines, y, s - 1)], right := [Cell(lines, y, e)],
       top := Window(lines, y - 1, s, e), bot := Window(lines, y + 1, s, e))
  }

  /** Some cell of the grid around or on the run [s, e) of line y holds a '*'. */
  predicate StarNear(lines: seq<string>, y: nat, s: nat, e: nat) {
    exists y', c :: y - 1 <= y' <= y + 1 && s - 1 <= c <= e && Cell(lines, y', c) == '*'
  }

  /** The selection test of Question 2. */
  predicate HasStar(d: Dico) {
    '*' in d.top || '*' in d.bot || '*' in d.left || '*' in d.right
  }

  /** The corrected dict of the number emitted at char j of line y: its run's neighbourhood, and no IndexError. */
  function SurroundFixed(lines: seq<string>, y: nat, j: nat, id: nat): Dico
    requires y < |lines| && Emits(lines[y], j)
  {
    var line := lines[y];
    var e := RunEndAt(line, j);
    Intended(lines, y, RunStart(line, e), e, Opened(line, y, e, id))
  }

  /** A corrected dict is selected exactly when a '*' is adjacent to its number, diagonals included. */
  lemma SurroundFixedStars(lines: seq<string>, y: nat, j: nat, id: nat)
    requires y < |lines| && Emits(lines[y], j)
    ensures var e := RunEndAt(lines[y], j);
      HasStar(SurroundFixed(lines, y, j, id)) <==> StarNear(lines, y, RunStart(lines[y], e), e)
  {
    var e := RunEndAt(lines[y], j);
    var s := RunStart(lines[y], e);
    var d := Opened(lines[y], y, e, id);
    if StarNear(lines, y, s, e) {
      StarsFound(lines, y, s, e, d);
    }
    if HasStar(Intended(lines, y, s, e, d)) {
      StarsShown(lines, y, s, e, d);
    }
  }

  lemma StarsFound(lines: seq<string>, y: nat, s: nat, e: nat, d: Dico)
    requires y < |lines| && s <= e <= |lines[y]| && AllDigits(lines[y][s..e]) && StarNear(lines, y, s, e)
    ensures HasStar(Intended(lines, y, s, e, d))
  {
    var r := Intended(lines, y, s, e, d);
    var y', c :| y - 1 <= y' <= y + 1 && s - 1 <= c <= e && Cell(lines, y', c) == '*';
    if y' == y - 1 {
      assert r.top[c - (s - 1)] == '*';
    } else if y' == y + 1 {
      assert r.bot[c - (s - 1)] == '*';
    } else if c == s - 1 {
      assert r.left[0] == '*';
    } else if c == e {
      assert r.right[0] == '*';
    } else {
      assert false;
    }
  }

  lemma StarsShown(lines: seq<string>, y: nat, s: nat, e: nat, d: Dico)
    requires s <= e && HasStar(Intended(lines, y, s, e, d))
    ensures StarNear(lines, y, s, e)
  {
    var r := Intended(lines, y, s, e, d);
    if '*' in r.top {
      var i :| 0 <= i < |r.top| && r.top[i] == '*';
      assert Cell(lines, y - 1, s - 1 + i) == '*';
    } else if '*' in r.bot {
      var i :| 0 <= i < |r.bot| && r.bot[i] == '*';
      assert Cell(lines, y + 1, s - 1 + i) == '*';
    } else if '*' in r.left {
      assert Cell(lines, y, s - 1) == '*';
    } else {
      assert Cell(lines, y, e) == '*';
    }
  }

  /** Inside the grid a window is a slice of the line, a dot standing for the column before the first. */
  lemma WindowSlice(lines: seq<string>, y': nat, s: nat, e: nat)
    requires y' < |lines| && s <= e < |lines[y']|
    ensures Window(lines, y', s, e) == if s == 0 then "." + lines[y'][..e + 1] else lines[y'][s - 1..e + 1]
  {
  }

  /** Outside the grid a window is all dots. */
  lemma WindowDots(lines: seq<string>, y': int, s: nat, e: nat)
    requires s <= e && (y' < 0 || y' >= |lines|)
    ensures Window(lines, y', s, e) == Dots(e - s + 2)
  {
  }

  /**
   * Where the code is right: a number closed by a non-digit on its line
   * gets its true neighbourhood, unless it starts at column 0 of the first
   * or the last line (the rows are as long as each other and there is more
   * than one; the number has no leading zero, so its decimal length is that
   * of its run).
   */
  lemma MidAsIntended(lines: seq<string>, y: nat, j: nat, id: nat)
    requires |lines| >= 2 && Rectangular(lines) && y < |lines| && Emits(lines[y], j) && !IsDigit(lines[y][j])
    requires lines[y][RunStart(lines[y], j)] != '0' || j - RunStart(lines[y], j) == 1
    requires RunStart(lines[y], j) > 0 || 0 < y < |lines| - 1
    ensures Surround(lines, y, j, id) == Some(SurroundFixed(lines, y, j, id))
  {
    var line := lines[y];
    var s := RunStart(line, j);
    DigitsLength(line[s..j]);
    MidFields(lines, y, j, s, Opened(line, y, j, id));
  }

  /** The `except` branch on a number of decimal length j - s that does not start at column 0 of an outer line. */
  lemma MidFields(lines: seq<string>, y: nat, j: nat, s: nat, d: Dico)
    requires |lines| >= 2 && Rectangular(lines) && y < |lines| && s < j < |lines[y]|
    requires NbDigits(d.value) == j - s && (s > 0 || 0 < y < |lines| - 1)
    ensures MidSurround(lines, y, j, d) == Some(Intended(lines, y, s, j, d))
  {
    var r := MidSurround(lines, y, j, d).value;
    var f := Intended(lines, y, s, j, d);
    assert r.left == f.left && r.right == f.right;
    if y > 0 {
      WindowSlice(lines, y - 1, s, j);
    } else {
      WindowDots(lines, y - 1, s, j);
    }
    assert r.top == f.top;
    if y + 1 < |lines| {
      WindowSlice(lines, y + 1, s, j);
    } else {
      WindowDots(lines, y + 1, s, j);
    }
    assert r.bot == f.bot;
  }

  /**
   * As written, a number that ends its line looks one column too far left
   * above and below: the '*' right under the 1 of ["....", "...1", "...*"]
   * is not in its dict, which the corrected dict shows.
   */
  lemma EndShiftMissesStar()
    ensures var lines := ["....", "...1", "...*"];
      Emits(lines[1], 3) && Cell(lines, 2, 3) == '*' &&
      Surround(lines, 1, 3, 0).Some? && !HasStar(Surround(lines, 1, 3, 0).value) &&
      HasStar(SurroundFixed(lines, 1, 3, 0))
  {
    var lines := ["....", "...1", "...*"];
    var d := Opened(lines[1], 1, 4, 0);
    assert RunStart(lines[1], 4) == 3 && RunStart(lines[1], 3) == 3;
    assert RunValue(lines[1], 4) == 1 by {
      assert lines[1][3..4] == "1";
    }
    NbDigitsBounds(1);
    var r := Surround(lines, 1, 3, 0).value;
    assert r.bot == PySlice(lines[2], 1, 3) + "." == "...";
    assert r.top == PySlice(lines[0], 1, 3) + "." == "...";
    assert SurroundFixed(lines, 1, 3, 0).bot[1] == '*';
  }

  /**
   * As written, a number at column 0 of the first line takes its `bot` from
   * a slice with a negative start, which reads from the end of the line
   * below: the '*' under the 1 of ["1.", "*."] is not in its dict.
   */
  lemma EdgeColumnMissesStar()
    ensures var lines := ["1.", "*."];
      Emits(lines[0], 1) && Cell(lines, 1, 0) == '*' &&
      Surround(lines, 0, 1, 0).Some? && !HasStar(Surround(lines, 0, 1, 0).value) &&
      HasStar(SurroundFixed(lines, 0, 1, 0))
  {
    var lines := ["1.", "*."];
    assert RunStart(lines[0], 1) == 0;
    assert RunValue(lines[0], 1) == 1 by {
      assert lines[0][0..1] == "1";
    }
    NbDigitsBounds(1);
    var r := Surround(lines, 0, 1, 0).value;
    assert r.bot == PySlice(lines[1], -1, 2) == ".";
    assert r.top == Dots(3) == "...";
    assert SurroundFixed(lines, 0, 1, 0).bot[1] == '*';
  }

  // Question 2: the dicts with a '*' around them, then grouped by line

  /** The dicts of ds that pass the selection test, in order. */
  function WithStar(ds: seq<Dico>): (r: seq<Dico>)
    ensures |r| <= |ds|
  {
    if ds == [] then []
    else WithStar(ds[..|ds| - 1]) + (if HasStar(ds[|ds| - 1]) then [ds[|ds| - 1]] else [])
  }

  /** The selection keeps exactly the dicts that pass the test. */
  lemma {:induction false} WithStarSpec(ds: seq<Dico>)
    ensures forall d :: d in WithStar(ds) <==> d in ds && HasStar(d)
    decreases |ds|
  {
    if ds != [] {
      WithStarSpec(ds[..|ds| - 1]);
      assert ds == ds[..|ds| - 1] + [ds[|ds| - 1]];
    }
  }

  /** Ids in increasing order, as `parse_surroundings_lines` hands them out. */
  predicate IdsIncrease(ds: seq<Dico>) {
    forall a, b :: 0 <= a < b < |ds| ==> ds[a].id < ds[b].id
  }

  /** An element of the selection is, with its position, no later than in the list it comes from. */
  lemma {:induction false} WithStarOrigin(ds: seq<Dico>, a: nat)
    requires a < |WithStar(ds)|
    ensures exists i :: a <= i < |ds| && ds[i] == WithStar(ds)[a]
    decreases |ds|
  {
    var front := ds[..|ds| - 1];
    if a < |WithStar(front)| {
      WithStarOrigin(front, a);
      var i :| a <= i < |front| && front[i] == WithStar(front)[a];
      assert ds[i] == front[i];
    } else {
      assert WithStar(ds)[a] == ds[|ds| - 1];
    }
  }

  /** The selection keeps the order of the list. */
  lemma {:induction false} WithStarOrder(ds: seq<Dico>)
    requires IdsIncrease(ds)
    ensures IdsIncrease(WithStar(ds))
    decreases |ds|
  {
    if ds != [] {
      var front := ds[..|ds| - 1];
      assert IdsIncrease(front) by {
        forall a, b | 0 <= a < b < |front| ensures front[a].id < front[b].id {
          assert front[a] == ds[a] && front[b] == ds[b];
        }
      }
      WithStarOrder(front);
      var r := WithStar(ds);
      var rf := WithStar(front);
      forall a, b | 0 <= a < b < |r| ensures r[a].id < r[b].id {
        if b < |rf| {
          assert r[a] == rf[a] && r[b] == rf[b];
        } else {
          WithStarOrigin(front, a);
          var i :| a <= i < |front| && front[i] == rf[a];
          assert r[a] == ds[i] && r[b] == ds[|ds| - 1];
        }
      }
    }
  }

  /** The loop that builds `dico_with_asterix_list`. */
  method SelectStars(ds: seq<Dico>) returns (r: seq<Dico>)
    ensures r == WithStar(ds)
  {
    r := [];
    for k := 0 to |ds|
      invariant r == WithStar(ds[..k])
    {
      assert ds[..k + 1][..k] == ds[..k];
      if '*' in ds[k].top || '*' in ds[k].bot || '*' in ds[k].left || '*' in ds[k].right {
        r := r + [ds[k]];
      }
    }
    assert ds[..|ds|] == ds;
  }

  /** The dicts of ds on line y, in order. */
  function OnLine(ds: seq<Dico>, y: nat): (r: seq<Dico>)
    ensures forall d :: d in r <==> d in ds && d.lineNb == y
  {
    if ds == [] then []
    else
      var front := ds[..|ds| - 1];
      assert ds == front + [ds[|ds| - 1]];
      OnLine(front, y) + (if ds[|ds| - 1].lineNb == y then [ds[|ds| - 1]] else [])
  }

  /** The lines that hold a dict of ds. */
  function LinesOf(ds: seq<Dico>): set<nat> {
    set d | d in ds :: d.lineNb
  }

  lemma OnLineAppend(ds: seq<Dico>, d: Dico, y: nat)
    ensures OnLine(ds + [d], y) == OnLine(ds, y) + (if d.lineNb == y then [d] else [])
    ensures y !in LinesOf(ds) ==> OnLine(ds, y) == []
  {
    assert (ds + [d])[..|ds|] == ds;
    var r := OnLine(ds, y);
    if r != [] {
      assert r[0] in r;
      assert y in LinesOf(ds);
    }
  }

  lemma LinesOfAppend(ds: seq<Dico>, d: Dico)
    ensures LinesOf(ds + [d]) == LinesOf(ds) + {d.lineNb}
  {
  }

  /** m maps every line of ds, and only those, to its dicts in order. */
  predicate Grouped(m: map<nat, seq<Dico>>, ds: seq<Dico>) {
    m.Keys == LinesOf(ds) && forall y :: y in m ==> m[y] == OnLine(ds, y) && m[y] != []
  }

  /** Appending a dict to the list of its line keeps the grouping. */
  lemma GroupedStep(m: map<nat, seq<Dico>>, ds: seq<Dico>, d: Dico)
    requires Grouped(m, ds)
    ensures Grouped(m[d.lineNb := (if d.lineNb in m then m[d.lineNb] else []) + [d]], ds + [d])
  {
    var m' := m[d.lineNb := (if d.lineNb in m then m[d.lineNb] else []) + [d]];
    LinesOfAppend(ds, d);
    forall y | y in m' ensures m'[y] == OnLine(ds + [d], y) && m'[y] != [] {
      OnLineAppend(ds, d, y);
    }
  }

  /**
   * The loop that builds `line_nb_indexed_dico_list`: a key per line that
   * holds a selected dict, mapped to that line's dicts in order.
   */
  method GroupByLine(ds: seq<Dico>) returns (m: map<nat, seq<Dico>>)
    ensures m.Keys == LinesOf(ds)
    ensures forall y :: y in m ==> m[y] == OnLine(ds, y) && m[y] != []
  {
    m := map[];
    for k := 0 to |ds|
      invariant Grouped(m, ds[..k])
    {
      var d := ds[k];
      assert ds[..k + 1] == ds[..k] + [d];
      GroupedStep(m, ds[..k], d);
      if !(d.lineNb in m) {
        m := m[d.lineNb := []];
        m := m[d.lineNb := m[d.lineNb] + [d]];
      } else {
        m := m[d.lineNb := m[d.lineNb] + [d]];
      }
    }
    assert ds[..|ds|] == ds;
  }
}
