/**
 * rust/d03_2: part numbers and gears as surfaces.  The scan of the
 * framed grid records every run of digits as a `PartNumber` (its value,
 * its decimal length, the column of its first digit and its row) and
 * every '*' as a `Gear`; a gear's surface is the 3x3 block around it, a
 * part number's the cells of its digits, and main adds the product of the
 * two part numbers of every gear whose surface meets exactly two.
 */
module Day03Rust2 {
  import opened Wrappers
  import opened Text
  import opened Schematic

  /** `InclusiveRange`: the integers from start to end, both included. */
  datatype InclusiveRange = InclusiveRange(start: nat, end: nat)

  /** `range_insersect`. */
  function RangeIntersect(a: InclusiveRange, b: InclusiveRange): bool {
    a.start <= b.end && a.end >= b.start
  }

  predicate Holds(a: InclusiveRange, v: nat) { a.start <= v <= a.end }

  /** Two non-empty ranges intersect exactly when they share a value; the test is symmetric. */
  lemma RangeIntersectSpec(a: InclusiveRange, b: InclusiveRange)
    requires a.start <= a.end && b.start <= b.end
    ensures RangeIntersect(a, b) <==> exists v :: Holds(a, v) && Holds(b, v)
    ensures RangeIntersect(a, b) == RangeIntersect(b, a)
  {
    if RangeIntersect(a, b) {
      var v := if a.start < b.start then b.start else a.start;
      assert Holds(a, v) && Holds(b, v);
    }
  }

  /** `Surface`: the columns x to x + widht and the rows y to y + height. */
  datatype Surface = Surface(x: nat, y: nat, widht: nat, height: nat)

  function XRange(s: Surface): InclusiveRange { InclusiveRange(s.x, s.x + s.widht) }

  function YRange(s: Surface): InclusiveRange { InclusiveRange(s.y, s.y + s.height) }

  /** `surface_intersect`: both axis ranges intersect. */
  function SurfaceIntersect(s: Surface, t: Surface): bool {
    RangeIntersect(XRange(s), XRange(t)) && RangeIntersect(YRange(s), YRange(t))
  }

  predicate Covers(s: Surface, col: nat, row: nat) {
    Holds(XRange(s), col) && Holds(YRange(s), row)
  }

  /** Two surfaces intersect exactly when they cover a common cell; the test is symmetric. */
  lemma SurfaceIntersectSpec(s: Surface, t: Surface)
    ensures SurfaceIntersect(s, t) <==> exists col, row :: Covers(s, col, row) && Covers(t, col, row)
    ensures SurfaceIntersect(s, t) == SurfaceIntersect(t, s)
  {
    RangeIntersectSpec(XRange(s), XRange(t));
    RangeIntersectSpec(YRange(s), YRange(t));
    if SurfaceIntersect(s, t) {
      var col :| Holds(XRange(s), col) && Holds(XRange(t), col);
      var row :| Holds(YRange(s), row) && Holds(YRange(t), row);
      assert Covers(s, col, row) && Covers(t, col, row);
    }
  }

  /** A number of the schematic: its `u32` value, its length, its first digit's column and its row. */
  datatype PartNumber = PartNumber(value: nat, nbLen: nat, charX: nat, charY: nat)

  /** A '*' of the schematic: its column and its row. */
  datatype Gear = Gear(charX: nat, charY: nat)

  /** `PartNumber::get_surface`: one row, the columns of its digits. `nb_len - 1` is a `usize`, so nbLen >= 1. */
  function PartSurface(p: PartNumber): Surface
    requires p.nbLen >= 1
  {
    Surface(p.charX, p.charY, p.nbLen - 1, 0)
  }

  /** `Gear::get_surface`: the 3x3 block around the gear; `char_x - 1` and `char_y - 1` are `usize`. */
  function GearSurface(g: Gear): Surface
    requires g.charX >= 1 && g.charY >= 1
  {
    Surface(g.charX - 1, g.charY - 1, 2, 2)
  }

  /** Column col is one of the part number's digits and lies next to the gear or under it. */
  predicate Touches(g: Gear, p: PartNumber, col: nat) {
    p.charX <= col < p.charX + p.nbLen && g.charX <= col + 1 <= g.charX + 2 && g.charY <= p.charY + 1 <= g.charY + 2
  }

  /** A gear's surface meets a part number's exactly when one of its digits is among the gear's eight neighbours. */
  lemma GearTouches(g: Gear, p: PartNumber)
    requires g.charX >= 1 && g.charY >= 1 && p.nbLen >= 1
    ensures SurfaceIntersect(GearSurface(g), PartSurface(p)) <==> exists col :: Touches(g, p, col)
  {
    SurfaceIntersectSpec(GearSurface(g), PartSurface(p));
    if SurfaceIntersect(GearSurface(g), PartSurface(p)) {
      var col, row :| Covers(GearSurface(g), col, row) && Covers(PartSurface(p), col, row);
      assert Touches(g, p, col);
    }
    if exists col :: Touches(g, p, col) {
      var col :| Touches(g, p, col);
      assert Covers(GearSurface(g), col, p.charY) && Covers(PartSurface(p), col, p.charY);
    }
  }

  /** `get_nb_digit`: divides by ten until one digit is left. */
  method GetNbDigit(value: nat) returns (numberLen: nat)
    ensures numberLen == NbDigits(value)
  {
    var v := value;
    numberLen := 1;
    while v >= 10
      invariant numberLen + NbDigits(v) == NbDigits(value) + 1
      decreases v
    {
      NbDigitsStep(v / 10, v % 10);
      v := v / 10;
      numberLen := numberLen + 1;
    }
    NbDigitsBounds(v);
  }

  /**
   * Emitting the run that ends at e in row y: the `usize` arithmetic and
   * the slices of the rows above and below must stay in bounds.
   */
  predicate EmitOk(rows: seq<string>, y: nat, e: nat)
    requires y < |rows| && e <= |rows[y]|
  {
    var len := NbDigits(RunValue(rows[y], e));
    len + 1 <= e && 0 < y < |rows| - 1 && e + 1 <= |rows[y - 1]| && e + 1 <= |rows[y + 1]|
  }

  /** Every run ending before n in row y is emitted without a panic. */
  predicate RowSafe(rows: seq<string>, y: nat, n: nat)
    requires y < |rows| && n <= |rows[y]|
  {
    forall e: nat :: e < n && EndsRun(rows[y], e) ==> EmitOk(rows, y, e)
  }

  /** The part number of the run that ends at e: the first digit's column is e less the value's length. */
  function PartAt(rows: seq<string>, y: nat, e: nat): PartNumber
    requires y < |rows| && e <= |rows[y]| && EmitOk(rows, y, e)
  {
    var value := RunValue(rows[y], e);
    PartNumber(value, NbDigits(value), e - NbDigits(value), y)
  }

  /** The part numbers of the runs that end before n in row y, left to right. */
  function PartsOf(rows: seq<string>, y: nat, n: nat): (r: seq<PartNumber>)
    requires y < |rows| && n <= |rows[y]| && RowSafe(rows, y, n)
    ensures forall k :: 0 <= k < |r| ==> r[k].nbLen >= 1 && r[k].charY == y
  {
    if n == 0 then []
    else PartsOf(rows, y, n - 1) + (if EndsRun(rows[y], n - 1) then [PartAt(rows, y, n - 1)] else [])
  }

  /** The gears of the stars before column n of row y, left to right. */
  function GearsOf(row: string, y: nat, n: nat): seq<Gear>
    requires n <= |row|
  {
    if n == 0 then [] else GearsOf(row, y, n - 1) + (if row[n - 1] == '*' then [Gear(n - 1, y)] else [])
  }

  /** Row y's part numbers are its runs, left to right, each with its value, length and first column. */
  lemma {:induction false} PartsOfRuns(rows: seq<string>, y: nat, n: nat)
    requires y < |rows| && n <= |rows[y]| && RowSafe(rows, y, n)
    ensures var parts, ends := PartsOf(rows, y, n), RunEnds(rows[y], n);
      |parts| == |ends| && forall k :: 0 <= k < |ends| ==> EmitOk(rows, y, ends[k]) && parts[k] == PartAt(rows, y, ends[k])
  {
    if n > 0 {
      PartsOfRuns(rows, y, n - 1);
      if EndsRun(rows[y], n - 1) {
        PartsOfRunsStep(rows, y, n);
      }
    }
  }

  lemma PartsOfRunsStep(rows: seq<string>, y: nat, n: nat)
    requires y < |rows| && 0 < n <= |rows[y]| && RowSafe(rows, y, n) && EndsRun(rows[y], n - 1)
    requires var parts, ends := PartsOf(rows, y, n - 1), RunEnds(rows[y], n - 1);
      |parts| == |ends| && forall k :: 0 <= k < |ends| ==> EmitOk(rows, y, ends[k]) && parts[k] == PartAt(rows, y, ends[k])
    ensures var parts, ends := PartsOf(rows, y, n), RunEnds(rows[y], n);
      |parts| == |ends| && forall k :: 0 <= k < |ends| ==> EmitOk(rows, y, ends[k]) && parts[k] == PartAt(rows, y, ends[k])
  {
    var parts, ends := PartsOf(rows, y, n - 1), RunEnds(rows[y], n - 1);
    var parts', ends' := PartsOf(rows, y, n), RunEnds(rows[y], n);
    assert parts' == parts + [PartAt(rows, y, n - 1)];
    assert ends' == ends + [n - 1];
    forall k | 0 <= k < |ends'|
      ensures EmitOk(rows, y, ends'[k]) && parts'[k] == PartAt(rows, y, ends'[k])
    {
      if k < |ends| {
        assert parts'[k] == parts[k] && ends'[k] == ends[k];
      }
    }
  }

  /** Row y's gears are its stars, left to right. */
  lemma {:induction false} GearsOfStars(row: string, y: nat, n: nat)
    requires n <= |row|
    ensures forall g :: g in GearsOf(row, y, n) <==> g.charY == y && g.charX < n && row[g.charX] == '*'
  {
    if n > 0 {
      GearsOfStars(row, y, n - 1);
    }
  }

  /** Without a leading zero, a part number starts at its run's first digit and spans the run. */
  lemma PartSpansRun(rows: seq<string>, y: nat, e: nat)
    requires y < |rows| && EndsRun(rows[y], e) && EmitOk(rows, y, e)
    requires rows[y][RunStart(rows[y], e)] != '0' || RunStart(rows[y], e) == e - 1
    ensures PartAt(rows, y, e).charX == RunStart(rows[y], e)
    ensures PartAt(rows, y, e).nbLen == e - RunStart(rows[y], e)
  {
    var s := RunStart(rows[y], e);
    DigitsLength(rows[y][s..e]);
  }

  /** One more column of a row: safe when the run ending there is, and its part number comes last. */
  lemma ScanStep(rows: seq<string>, y: nat, j: nat)
    requires y < |rows| && j < |rows[y]| && RowSafe(rows, y, j)
    requires EndsRun(rows[y], j) ==> EmitOk(rows, y, j)
    ensures RowSafe(rows, y, j + 1)
    ensures PartsOf(rows, y, j + 1) == PartsOf(rows, y, j) + (if EndsRun(rows[y], j) then [PartAt(rows, y, j)] else [])
  {
  }

  /** The scan of one row: the run value grows digit by digit and is emitted at the first non-digit after it. */
  method ScanLine(rows: seq<string>, y: nat) returns (r: Option<(seq<PartNumber>, seq<Gear>)>)
    requires y < |rows|
    ensures RowSafe(rows, y, |rows[y]|) ==> r == Some((PartsOf(rows, y, |rows[y]|), GearsOf(rows[y], y, |rows[y]|)))
    ensures !RowSafe(rows, y, |rows[y]|) ==> r.None?
  {
    var line := rows[y];
    var lastWasNumber := false;
    var number := 0;
    var parts: seq<PartNumber> := [];
    var gears: seq<Gear> := [];
    for indexHuchar := 0 to |line|
      invariant lastWasNumber <==> indexHuchar > 0 && IsDigit(line[indexHuchar - 1])
      invariant number == RunValue(line, indexHuchar)
      invariant RowSafe(rows, y, indexHuchar)
      invariant parts == PartsOf(rows, y, indexHuchar) && gears == GearsOf(line, y, indexHuchar)
    {
      var huchar := line[indexHuchar];
      RunValueStep(line, indexHuchar);
      if IsDigit(huchar) {
        lastWasNumber := true;
        number := 10 * number + DigitValue(huchar);
      } else if lastWasNumber {
        var numberLen := GetNbDigit(number);
        // the `usize` index of `left` and the slices `top` and `bot` of the rows around panic when out of range
        if indexHuchar < numberLen + 1 || y == 0 || y + 1 >= |rows|
          || indexHuchar + 1 > |rows[y - 1]| || indexHuchar + 1 > |rows[y + 1]| {
          assert !EmitOk(rows, y, indexHuchar);
          return None;
        }
        parts := parts + [PartNumber(number, numberLen, indexHuchar - numberLen, y)];
        number := 0;
        lastWasNumber := false;
      }
      ScanStep(rows, y, indexHuchar);
      if !lastWasNumber && huchar == '*' {
        gears := gears + [Gear(indexHuchar, y)];
      }
    }
    return Some((parts, gears));
  }

  /** Every row of rows[..n] is emitted without a panic. */
  predicate RowsSafe(rows: seq<string>, n: nat)
    requires n <= |rows|
  {
    forall y :: 0 <= y < n ==> RowSafe(rows, y, |rows[y]|)
  }

  /** The part numbers of rows[..n], row by row. */
  function AllParts(rows: seq<string>, n: nat): (r: seq<PartNumber>)
    requires n <= |rows| && RowsSafe(rows, n)
    ensures forall k :: 0 <= k < |r| ==> r[k].nbLen >= 1 && r[k].charY < n
  {
    if n == 0 then [] else AllParts(rows, n - 1) + PartsOf(rows, n - 1, |rows[n - 1]|)
  }

  /** The gears of rows[..n], row by row. */
  function AllGears(rows: seq<string>, n: nat): seq<Gear>
    requires n <= |rows|
  {
    if n == 0 then [] else AllGears(rows, n - 1) + GearsOf(rows[n - 1], n - 1, |rows[n - 1]|)
  }

  /** The gears found in rows[..n] are stars of those rows. */
  lemma {:induction false} AllGearsStars(rows: seq<string>, n: nat)
    requires n <= |rows|
    ensures forall g :: g in AllGears(rows, n) ==> g.charY < n && g.charX < |rows[g.charY]| && rows[g.charY][g.charX] == '*'
  {
    if n > 0 {
      AllGearsStars(rows, n - 1);
      GearsOfStars(rows[n - 1], n - 1, |rows[n - 1]|);
    }
  }

  /** The frame keeps every gear off the first row and the first column, so its surface exists. */
  lemma GearsFramed(lines: seq<string>)
    requires |lines| >= 1
    ensures var rows := Framed(lines);
      forall g :: g in AllGears(rows, |rows|) ==> g.charX >= 1 && g.charY >= 1
  {
    var rows := Framed(lines);
    FramedEdges(lines);
    AllGearsStars(rows, |rows|);
  }

  /** What `get_input` returns for a file's content: None where it panics. */
  function Input(content: string): Option<(seq<PartNumber>, seq<Gear>)> {
    var rows := Framed(Split(content, '\n'));
    if RowsSafe(rows, |rows|) then Some((AllParts(rows, |rows|), AllGears(rows, |rows|))) else None
  }

  /** The framing of `get_input`: a row of dots as wide as the first line before and after, and a dot at both ends. */
  method FrameLines(rawLines: seq<string>) returns (vecLines: seq<string>)
    requires |rawLines| >= 1
    ensures vecLines == Framed(rawLines)
  {
    var lenLine := |rawLines[0]|;
    var fakeLine := Dots(lenLine);
    var all := [fakeLine] + rawLines + [fakeLine];
    vecLines := [];
    for k := 0 to |all|
      invariant vecLines == Framed(rawLines)[..k]
    {
      vecLines := vecLines + ["." + all[k] + "."];
    }
  }

  /** `get_input`: the framed grid, then the scan row by row. */
  method GetInput(content: string) returns (r: Option<(seq<PartNumber>, seq<Gear>)>)
    ensures r == Input(content)
  {
    var vecLines := FrameLines(Split(content, '\n'));
    var parts: seq<PartNumber> := [];
    var gears: seq<Gear> := [];
    for indexLine := 0 to |vecLines|
      invariant RowsSafe(vecLines, indexLine)
      invariant parts == AllParts(vecLines, indexLine) && gears == AllGears(vecLines, indexLine)
    {
      var row := ScanLine(vecLines, indexLine);
      if row.None? {
        assert !RowsSafe(vecLines, |vecLines|);
        return None;
      }
      assert RowsSafe(vecLines, indexLine + 1);
      parts := parts + row.value.0;
      gears := gears + row.value.1;
    }
    return Some((parts, gears));
  }

  /** The part numbers and gears read from a file have surfaces. */
  lemma InputPlaced(content: string)
    requires Input(content).Some?
    ensures Placed(Input(content).value.0, Input(content).value.1)
  {
    var rows := Framed(Split(content, '\n'));
    GearsFramed(Split(content, '\n'));
    var gears := AllGears(rows, |rows|);
    assert forall k :: 0 <= k < |gears| ==> gears[k] in gears;
  }

  /**
   * A run in a framed grid of equal lines lies between the outer rows and
   * after the first column, so emitting it cannot panic.
   */
  lemma EmitSafe(lines: seq<string>, y: nat, e: nat)
    requires |lines| >= 1 && Rectangular(lines)
    requires y < |Framed(lines)| && EndsRun(Framed(lines)[y], e)
    ensures EmitOk(Framed(lines), y, e)
  {
    var rows := Framed(lines);
    FramedShape(lines);
    FramedEdges(lines);
    var row := rows[y];
    var s := RunStart(row, e);
    DigitsLength(row[s..e]);
  }

  /** A file whose lines all have the same length is read without a panic. */
  lemma RectangularReads(content: string)
    requires Rectangular(Split(content, '\n'))
    ensures Input(content).Some?
  {
    var lines := Split(content, '\n');
    var rows := Framed(lines);
    forall y | 0 <= y < |rows|
      ensures RowSafe(rows, y, |rows[y]|)
    {
      forall e: nat | e < |rows[y]| && EndsRun(rows[y], e)
        ensures EmitOk(rows, y, e)
      {
        EmitSafe(lines, y, e);
      }
    }
  }

  /**
   * A file that ends with a newline has an empty last line, so a number on
   * the line before it makes the slice of the row below go out of bounds.
   */
  lemma TrailingNewlinePanics()
    ensures Input("1\n") == None
  {
    SplitOnFront("1", "", '\n');
    assert "1" + ['\n'] + "" == "1\n";
    var lines := Split("1\n", '\n');
    assert lines == ["1", ""];
    var rows := Framed(lines);
    assert rows[2] == "..";
    assert EndsRun(rows[1], 2) && !EmitOk(rows, 1, 2);
  }

  /** Every part number has at least one digit, so its surface exists. */
  predicate Sized(parts: seq<PartNumber>) {
    forall k :: 0 <= k < |parts| ==> parts[k].nbLen >= 1
  }

  /** The gear is off the first row and the first column, so its surface exists. */
  predicate Inside(g: Gear) {
    g.charX >= 1 && g.charY >= 1
  }

  /** The part numbers of parts[..n], in order, whose surface meets the gear's. */
  function Touching(g: Gear, parts: seq<PartNumber>, n: nat): (r: seq<PartNumber>)
    requires Inside(g) && Sized(parts) && n <= |parts|
    ensures forall p :: p in r <==> p in parts[..n] && SurfaceIntersect(GearSurface(g), PartSurface(p))
  {
    if n == 0 then []
    else
      var p := parts[n - 1];
      assert parts[..n] == parts[..n - 1] + [p];
      Touching(g, parts, n - 1) + (if SurfaceIntersect(GearSurface(g), PartSurface(p)) then [p] else [])
  }

  /** The part numbers meeting a gear are those with a digit among its neighbours. */
  lemma TouchingSpec(g: Gear, parts: seq<PartNumber>)
    requires Inside(g) && Sized(parts)
    ensures forall p :: p in Touching(g, parts, |parts|) <==> p in parts && exists col :: Touches(g, p, col)
  {
    assert parts[..|parts|] == parts;
    forall p | p in parts
      ensures SurfaceIntersect(GearSurface(g), PartSurface(p)) <==> exists col :: Touches(g, p, col)
    {
      var k :| 0 <= k < |parts| && parts[k] == p;
      GearTouches(g, p);
    }
  }

  /** A gear's ratio when exactly two part numbers meet it, 0 otherwise. */
  function Ratio(g: Gear, parts: seq<PartNumber>): nat
    requires Inside(g) && Sized(parts)
  {
    var t := Touching(g, parts, |parts|);
    if |t| == 2 then t[0].value * t[1].value else 0
  }

  predicate Placed(parts: seq<PartNumber>, gears: seq<Gear>) {
    (forall k :: 0 <= k < |gears| ==> Inside(gears[k])) && Sized(parts)
  }

  /** The sum of the ratios of gears[..n]. */
  function GearTotal(parts: seq<PartNumber>, gears: seq<Gear>, n: nat): nat
    requires Placed(parts, gears) && n <= |gears|
  {
    if n == 0 then 0 else GearTotal(parts, gears, n - 1) + Ratio(gears[n - 1], parts)
  }

  /** The inner loop of main: the part numbers whose surface meets the gear's, in order. */
  method GearParts(gear: Gear, parts: seq<PartNumber>) returns (tmpPnVec: seq<PartNumber>)
    requires Inside(gear) && Sized(parts)
    ensures tmpPnVec == Touching(gear, parts, |parts|)
  {
    tmpPnVec := [];
    for j := 0 to |parts|
      invariant tmpPnVec == Touching(gear, parts, j)
    {
      if SurfaceIntersect(GearSurface(gear), PartSurface(parts[j])) {
        tmpPnVec := tmpPnVec + [parts[j]];
      }
    }
  }

  /** The body of main's gear loop: the product of the gear's part numbers when there are exactly two. */
  method GearRatio(gear: Gear, parts: seq<PartNumber>) returns (ratio: nat)
    requires Inside(gear) && Sized(parts)
    ensures ratio == Ratio(gear, parts)
  {
    var tmpPnVec := GearParts(gear, parts);
    ratio := 0;
    if |tmpPnVec| == 2 {
      ratio := tmpPnVec[0].value * tmpPnVec[1].value;
    }
  }

  /** main's gear loop: the product of the two part numbers of every gear that meets exactly two. */
  method Solve(parts: seq<PartNumber>, gears: seq<Gear>) returns (result: nat)
    requires Placed(parts, gears)
    ensures result == GearTotal(parts, gears, |gears|)
  {
    result := 0;
    for i := 0 to |gears|
      invariant result == GearTotal(parts, gears, i)
    {
      var ratio := GearRatio(gears[i], parts);
      result := result + ratio;
    }
  }

  /**
   * What main prints: the gear total of the input, or None where `get_input`
   * panics on a slice and nothing is printed.
   */
  function Answer(content: string): Option<nat> {
    match Input(content)
    case None => None
    case Some((parts, gears)) => InputPlaced(content); Some(GearTotal(parts, gears, |gears|))
  }

  /** main: read the part numbers and gears, then add the ratios. */
  method Run(content: string) returns (result: Option<nat>)
    ensures result == Answer(content)
  {
    var input := GetInput(content);
    if input.None? {
      return None;
    }
    InputPlaced(content);
    var total := Solve(input.value.0, input.value.1);
    return Some(total);
  }
}
