/**
 * py/03/prog_2.py: one dict per '*' of the schematic, with the chars around
 * it (`left` and `right` one char each, `top` and `bot` three), then every
 * digit at an end of those strings extended outward by up to two more
 * digits of its line, then the integers found in them; the answer sums the
 * product of the two numbers of every star that found exactly two.  An
 * IndexError ends the program (None here).
 */
module Day03Py2 {
  import opened Wrappers
  import opened Text
  import opened Schematic

  /** The four strings around a star. */
  datatype Sides = Sides(left: string, right: string, top: string, bot: string)

  /** The dict of a star. */
  datatype Star = Star(lineNb: nat, charIndex: nat, id: nat, sides: Sides, numbers: seq<int>)

  /** `x in int_list_as_str`: a one-char string holding a digit. */
  predicate IsDigitStr(t: string) {
    |t| == 1 && IsDigit(t[0])
  }

  /** The chars around the star at column c of line y, lines 36-71; None on an IndexError. */
  function Frame(lines: seq<string>, y: nat, c: nat): Option<Sides>
    requires y < |lines| && c < |lines[y]|
  {
    var line := lines[y];
    if y == 0 && |lines| < 2 then None
    else if c + 1 == |line| then
      var left := [PyIndex(line, c - 1).value];
      if y == 0 then Some(Sides(left, ".", "...", PySlice(lines[1], c - 1, c) + "."))
      else if y == |lines| - 1 then Some(Sides(left, ".", PySlice(lines[y - 1], c - 1, c) + ".", "..."))
      else Some(Sides(left, ".", PySlice(lines[y - 1], c - 1, c + 1) + ".", PySlice(lines[y + 1], c - 1, c + 1) + "."))
    else if c == 0 then
      var right := [line[1]];
      if y == 0 then Some(Sides(".", right, "...", "." + PySlice(lines[1], 0, 2)))
      else if y == |lines| - 1 then Some(Sides(".", right, "." + PySlice(lines[y - 1], 0, 2), "..."))
      else Some(Sides(".", right, "." + PySlice(lines[y - 1], 0, 2), "." + PySlice(lines[y + 1], 0, 2)))
    else
      var left, right := [line[c - 1]], [line[c + 1]];
      if y == 0 then Some(Sides(left, right, "...", PySlice(lines[1], c - 1, c + 2)))
      else if y == |lines| - 1 then Some(Sides(left, right, PySlice(lines[y - 1], c - 1, c + 2), "..."))
      else Some(Sides(left, right, PySlice(lines[y - 1], c - 1, c + 2), PySlice(lines[y + 1], c - 1, c + 2)))
  }

  /** t with up to two more digits of row appended, from column c+2 on; None on an IndexError. */
  function Append(row: string, c: nat, t: string): Option<string> {
    match PyIndex(row, c + 2)
    case None => None
    case Some(x) =>
      if !IsDigit(x) then Some(t)
      else
        match PyIndex(row, c + 3)
        case None => None
        case Some(z) => Some(if IsDigit(z) then t + [x] + [z] else t + [x])
  }

  /** t with up to two more digits of row prepended, from column c-2 down, a negative column counting from the end. */
  function Prepend(row: string, c: nat, t: string): Option<string> {
    match PyIndex(row, c - 2)
    case None => None
    case Some(x) =>
      if !IsDigit(x) then Some(t)
      else
        match PyIndex(row, c - 3)
        case None => None
        case Some(z) => Some(if IsDigit(z) then [z] + [x] + t else [x] + t)
  }

  /** Lines 85-106 on `bot` (line yy = y+1) or `top` (yy = y-1): first the digit at its end, then the one at its start. */
  function GrowRow(lines: seq<string>, yy: int, c: nat, t: string): Option<string> {
    match PyIndex(t, -1)
    case None => None
    case Some(x) =>
      var grown :=
        if !IsDigit(x) then Some(t)
        else match PyIndex(lines, yy) case None => None case Some(row) => Append(row, c, t);
      match grown
      case None => None
      case Some(g) =>
        match PyIndex(g, 0)
        case None => None
        case Some(z) =>
          if !IsDigit(z) then Some(g)
          else match PyIndex(lines, yy) case None => None case Some(row) => Prepend(row, c, g)
  }

  /** Lines 72-106: left, right, bot, then top extended; None on an IndexError. */
  function Grow(lines: seq<string>, y: nat, c: nat, f: Sides): Option<Sides>
    requires y < |lines|
  {
    var line := lines[y];
    var left := if IsDigitStr(f.left) then Prepend(line, c, f.left) else Some(f.left);
    var right := if IsDigitStr(f.right) then Append(line, c, f.right) else Some(f.right);
    if left.None? || right.None? then None
    else
      match GrowRow(lines, y + 1, c, f.bot)
      case None => None
      case Some(bot) =>
        match GrowRow(lines, y - 1, c, f.top)
        case None => None
        case Some(top) => Some(Sides(left.value, right.value, top, bot))
  }

  /** The value of t as a one-element list when `int()` accepts it, else nothing. */
  function IntOf(t: string): seq<int> {
    match PyInt(t) case Some(v) => [v] case None => []
  }

  /** The values of the strings of ts that `int()` accepts, in order; the others are dropped. */
  function Parsed(ts: seq<string>): seq<int> {
    if ts == [] then [] else Parsed(ts[..|ts| - 1]) + IntOf(ts[|ts| - 1])
  }

  lemma IntOfValue(t: string, v: Option<int>)
    requires v == PyInt(t)
    ensures IntOf(t) == if v.Some? then [v.value] else []
  {
  }

  /** Lines 108-126: `int(right)`, `int(left)`, then the pieces of `bot` and of `top` between dots. */
  function Numbers(s: Sides): seq<int> {
    Parsed([s.right]) + Parsed([s.left]) + Parsed(Split(s.bot, '.')) + Parsed(Split(s.top, '.'))
  }

  /** The dict of the star at column c of line y, with the given id; None on an IndexError. */
  function StarAt(lines: seq<string>, y: nat, c: nat, id: nat): Option<Star>
    requires y < |lines| && c < |lines[y]|
  {
    match Frame(lines, y, c)
    case None => None
    case Some(f) =>
      match Grow(lines, y, c, f)
      case None => None
      case Some(g) => Some(Star(y, c, id, g, Numbers(g)))
  }

  /** A star's part of the answer: the product of its numbers when it found exactly two. */
  function Ratio(st: Star): int {
    if |st.numbers| == 2 then st.numbers[0] * st.numbers[1] else 0
  }

  /** The result after chars [..n] of line y, from what the lines before gave. */
  function ScanFrom(lines: seq<string>, y: nat, n: nat, acc: seq<Star>): Option<seq<Star>>
    requires y < |lines| && n <= |lines[y]|
  {
    if n == 0 then Some(acc)
    else
      match ScanFrom(lines, y, n - 1, acc)
      case None => None
      case Some(r) =>
        if lines[y][n - 1] != '*' then Some(r)
        else
          match StarAt(lines, y, n - 1, |r|)
          case None => None
          case Some(st) => Some(r + [st])
  }

  /** The result after lines[..n]. */
  function ScanLines(lines: seq<string>, n: nat): Option<seq<Star>>
    requires n <= |lines|
  {
    if n == 0 then Some([])
    else
      match ScanLines(lines, n - 1)
      case None => None
      case Some(r) => ScanFrom(lines, n - 1, |lines[n - 1]|, r)
  }

  /** What `parse_surroundings_lines` returns, None when it raises. */
  function Parse(lines: seq<string>): Option<seq<Star>> {
    ScanLines(lines, |lines|)
  }

  /** The sum of the ratios of stars[..n]. */
  function Total(stars: seq<Star>, n: nat): int
    requires n <= |stars|
  {
    if n == 0 then 0 else Total(stars, n - 1) + Ratio(stars[n - 1])
  }

  /** What the program prints, None when it raises. */
  function Answer(lines: seq<string>): Option<int> {
    match Parse(lines)
    case None => None
    case Some(stars) => Some(Total(stars, |stars|))
  }

  lemma {:induction false} ScanFromRaised(lines: seq<string>, y: nat, n: nat, m: nat, acc: seq<Star>)
    requires y < |lines| && n <= m <= |lines[y]| && ScanFrom(lines, y, n, acc).None?
    ensures ScanFrom(lines, y, m, acc).None?
    decreases m
  {
    if m > n {
      ScanFromRaised(lines, y, n, m - 1, acc);
    }
  }

  lemma {:induction false} ScanLinesRaised(lines: seq<string>, n: nat, m: nat)
    requires n <= m <= |lines| && ScanLines(lines, n).None?
    ensures ScanLines(lines, m).None?
    decreases m
  {
    if m > n {
      ScanLinesRaised(lines, n, m - 1);
    }
  }

  lemma ParsedStep(ts: seq<string>, k: nat)
    requires k < |ts|
    ensures Parsed(ts[..k + 1]) == Parsed(ts[..k]) + IntOf(ts[k])
  {
    assert ts[..k + 1][..k] == ts[..k];
  }

  lemma ParsedOne(t: string)
    ensures Parsed([t]) == IntOf(t)
  {
    assert [t][..0] == [];
  }

  /** The loops of lines 108-126 that fill `numbers`. */
  method CollectNumbers(s: Sides) returns (numbers: seq<int>)
    ensures numbers == Numbers(s)
  {
    numbers := [];
    var right := PyInt(s.right);
    ParsedOne(s.right);
    IntOfValue(s.right, right);
    if right.Some? {
      numbers := numbers + [right.value];
    }
    var left := PyInt(s.left);
    ParsedOne(s.left);
    IntOfValue(s.left, left);
    if left.Some? {
      numbers := numbers + [left.value];
    }
    ghost var sides := Parsed([s.right]) + Parsed([s.left]);
    assert numbers == sides;
    var bot := Split(s.bot, '.');
    numbers := ParseEach(numbers, bot);
    assert numbers == sides + Parsed(bot);
    var top := Split(s.top, '.');
    numbers := ParseEach(numbers, top);
    assert numbers == sides + Parsed(bot) + Parsed(top);
  }

  /** One `for int_char in ...split(".")` loop: the pieces `int()` accepts are appended, the others dropped. */
  method ParseEach(numbers: seq<int>, pieces: seq<string>) returns (r: seq<int>)
    ensures r == numbers + Parsed(pieces)
  {
    r := numbers;
    for k := 0 to |pieces|
      invariant r == numbers + Parsed(pieces[..k])
    {
      var v := PyInt(pieces[k]);
      EachStep(numbers, pieces, k, r, v);
      if v.Some? {
        r := r + [v.value];
      }
    }
    assert pieces[..|pieces|] == pieces;
  }

  /** One turn of the loop of ParseEach keeps its invariant. */
  lemma EachStep(numbers: seq<int>, pieces: seq<string>, k: nat, r: seq<int>, v: Option<int>)
    requires k < |pieces| && r == numbers + Parsed(pieces[..k]) && v == PyInt(pieces[k])
    ensures (if v.Some? then r + [v.value] else r) == numbers + Parsed(pieces[..k + 1])
  {
    ParsedStep(pieces, k);
    IntOfValue(pieces[k], v);
    Associative(numbers, Parsed(pieces[..k]), IntOf(pieces[k]));
  }

  lemma Associative(a: seq<int>, b: seq<int>, c: seq<int>)
    ensures a + (b + c) == a + b + c
  {
  }

  /** The body of the inner loop for a '*': its dict, with the given id. */
  method StarDict(lines: seq<string>, y: nat, c: nat, id: nat) returns (r: Option<Star>)
    requires y < |lines| && c < |lines[y]|
    ensures r == StarAt(lines, y, c, id)
  {
    var frame := Frame(lines, y, c);
    if frame.None? {
      return None;
    }
    var grown := Grow(lines, y, c, frame.value);
    if grown.None? {
      return None;
    }
    var numbers := CollectNumbers(grown.value);
    return Some(Star(y, c, id, grown.value, numbers));
  }

  /** `parse_surroundings_lines`. */
  method ParseSurroundingsLines(lines: seq<string>) returns (r: Option<seq<Star>>)
    ensures r == Parse(lines)
  {
    var result: seq<Star> := [];
    var id := 0;
    for indexLine := 0 to |lines|
      invariant ScanLines(lines, indexLine) == Some(result) && id == |result|
    {
      var line := lines[indexLine];
      ghost var before := result;
      for indexChar := 0 to |line|
        invariant ScanFrom(lines, indexLine, indexChar, before) == Some(result) && id == |result|
      {
        if line[indexChar] == '*' {
          var dico := StarDict(lines, indexLine, indexChar, id);
          id := id + 1;
          if dico.None? {
            ScanFromRaised(lines, indexLine, indexChar + 1, |line|, before);
            ScanLinesRaised(lines, indexLine + 1, |lines|);
            return None;
          }
          result := result + [dico.value];
        }
      }
    }
    return Some(result);
  }

  /** The loop of lines 141-144. */
  method SumRatios(stars: seq<Star>) returns (result: int)
    ensures result == Total(stars, |stars|)
  {
    result := 0;
    for k := 0 to |stars|
      invariant result == Total(stars, k)
    {
      if |stars[k].numbers| == 2 {
        result := result + stars[k].numbers[0] * stars[k].numbers[1];
      }
    }
  }

  /** The program from the stripped lines on. */
  method Run(lines: seq<string>) returns (r: Option<int>)
    ensures r == Answer(lines)
  {
    var stars := ParseSurroundingsLines(lines);
    if stars.None? {
      return None;
    }
    var total := SumRatios(stars.value);
    return Some(total);
  }

  // One dict per star, in reading order

  /** The columns of the '*' in line[..n], from left to right. */
  function StarCols(line: string, n: nat): (r: seq<nat>)
    requires n <= |line|
    ensures forall c: nat :: c in r <==> c < n && line[c] == '*'
    ensures forall k :: 0 <= k < |r| ==> r[k] < n && line[r[k]] == '*'
    ensures forall a, b :: 0 <= a < b < |r| ==> r[a] < r[b]
  {
    if n == 0 then []
    else
      var front := StarCols(line, n - 1);
      assert forall k :: 0 <= k < |front| ==> front[k] in front;
      front + (if line[n - 1] == '*' then [n - 1] else [])
  }

  /** r is acc followed by the dicts of the stars at the columns cs of line y, at their positions. */
  predicate LineDicts(y: nat, cs: seq<nat>, acc: seq<Star>, r: seq<Star>) {
    |acc| <= |r| && r[..|acc|] == acc && |r| - |acc| == |cs| &&
    forall k :: |acc| <= k < |r| ==> r[k].id == k && r[k].lineNb == y && r[k].charIndex == cs[k - |acc|]
  }

  lemma LineDictsStep(y: nat, cs: seq<nat>, acc: seq<Star>, r: seq<Star>, x: seq<Star>, c: nat)
    requires LineDicts(y, cs, acc, r)
    requires x == [] || (|x| == 1 && x[0].id == |r| && x[0].lineNb == y && x[0].charIndex == c)
    ensures LineDicts(y, cs + (if x == [] then [] else [c]), acc, r + x)
  {
    assert (r + x)[..|acc|] == r[..|acc|];
    forall k | |acc| <= k < |r| ensures (r + x)[k] == r[k] && (cs + (if x == [] then [] else [c]))[k - |acc|] == cs[k - |acc|] {
    }
  }

  /** A dict is made where the star is, with the position as id, and nothing else changes. */
  lemma StarAtKeeps(lines: seq<string>, y: nat, c: nat, id: nat)
    requires y < |lines| && c < |lines[y]| && StarAt(lines, y, c, id).Some?
    ensures var st := StarAt(lines, y, c, id).value; st.lineNb == y && st.charIndex == c && st.id == id
  {
  }

  /** After chars [..n] of line y, acc has gained one dict per '*' of line[..n], in order. */
  lemma {:induction false} ScanFromStars(lines: seq<string>, y: nat, n: nat, acc: seq<Star>)
    requires y < |lines| && n <= |lines[y]| && ScanFrom(lines, y, n, acc).Some?
    ensures LineDicts(y, StarCols(lines[y], n), acc, ScanFrom(lines, y, n, acc).value)
    decreases n
  {
    if n > 0 {
      var r := ScanFrom(lines, y, n - 1, acc).value;
      ScanFromStars(lines, y, n - 1, acc);
      if lines[y][n - 1] == '*' {
        StarAtKeeps(lines, y, n - 1, |r|);
        LineDictsStep(y, StarCols(lines[y], n - 1), acc, r, [StarAt(lines, y, n - 1, |r|).value], n - 1);
      } else {
        LineDictsStep(y, StarCols(lines[y], n - 1), acc, r, [], n - 1);
      }
    }
  }

  /** The stars of line y, as (line, column) pairs. */
  function LineStars(lines: seq<string>, y: nat): (r: seq<(nat, nat)>)
    requires y < |lines|
    ensures forall k :: 0 <= k < |r| ==> r[k].0 == y && r[k].1 < |lines[y]| && lines[y][r[k].1] == '*'
  {
    var cs := StarCols(lines[y], |lines[y]|);
    seq(|cs|, i requires 0 <= i < |cs| => (y, cs[i]))
  }

  /** The stars of lines[..n], in reading order. */
  function AllStars(lines: seq<string>, n: nat): (r: seq<(nat, nat)>)
    requires n <= |lines|
    ensures forall k :: 0 <= k < |r| ==> r[k].0 < n && r[k].1 < |lines[r[k].0]| && lines[r[k].0][r[k].1] == '*'
  {
    if n == 0 then [] else AllStars(lines, n - 1) + LineStars(lines, n - 1)
  }

  /** r holds one dict per star of keys, in order, with its position as id. */
  predicate Describes(r: seq<Star>, keys: seq<(nat, nat)>) {
    |r| == |keys| && forall k :: 0 <= k < |r| ==> r[k].id == k && (r[k].lineNb, r[k].charIndex) == keys[k]
  }

  lemma DescribesLine(lines: seq<string>, y: nat, r': seq<Star>, r: seq<Star>, keys: seq<(nat, nat)>)
    requires y < |lines| && Describes(r', keys) && LineDicts(y, StarCols(lines[y], |lines[y]|), r', r)
    ensures Describes(r, keys + LineStars(lines, y))
  {
    var all := keys + LineStars(lines, y);
    forall k | 0 <= k < |r| ensures r[k].id == k && (r[k].lineNb, r[k].charIndex) == all[k] {
      if k < |r'| {
        assert r[k] == r[..|r'|][k];
      }
    }
  }

  lemma {:induction false} ScanLinesStars(lines: seq<string>, n: nat)
    requires n <= |lines| && ScanLines(lines, n).Some?
    ensures Describes(ScanLines(lines, n).value, AllStars(lines, n))
    decreases n
  {
    if n > 0 {
      var r' := ScanLines(lines, n - 1).value;
      ScanLinesStars(lines, n - 1);
      ScanFromStars(lines, n - 1, |lines[n - 1]|, r');
      DescribesLine(lines, n - 1, r', ScanLines(lines, n).value, AllStars(lines, n - 1));
    }
  }

  /** The keys of a line are its stars, left to right. */
  lemma LineStarsSpec(lines: seq<string>, y: nat)
    requires y < |lines|
    ensures var r := LineStars(lines, y);
      (forall p: (nat, nat) :: p in r <==> p.0 == y && p.1 < |lines[y]| && lines[y][p.1] == '*') &&
      (forall a, b :: 0 <= a < b < |r| ==> r[a].1 < r[b].1)
  {
    var r := LineStars(lines, y);
    var cs := StarCols(lines[y], |lines[y]|);
    forall p: (nat, nat) | p.0 == y && p.1 < |lines[y]| && lines[y][p.1] == '*' ensures p in r {
      var i :| 0 <= i < |cs| && cs[i] == p.1;
      assert r[i] == p;
    }
  }

  /** Every star of the schematic is a key, in reading order. */
  lemma AllStarsSpec(lines: seq<string>, n: nat)
    requires n <= |lines|
    ensures var r := AllStars(lines, n);
      (forall p: (nat, nat) :: p in r <==> p.0 < n && p.1 < |lines[p.0]| && lines[p.0][p.1] == '*') &&
      (forall a, b :: 0 <= a < b < |r| ==> r[a].0 < r[b].0 || (r[a].0 == r[b].0 && r[a].1 < r[b].1))
  {
    AllStarsMembers(lines, n);
    AllStarsOrdered(lines, n);
  }

  lemma {:induction false} AllStarsMembers(lines: seq<string>, n: nat)
    requires n <= |lines|
    ensures forall p: (nat, nat) :: p in AllStars(lines, n) <==> p.0 < n && p.1 < |lines[p.0]| && lines[p.0][p.1] == '*'
    decreases n
  {
    if n > 0 {
      AllStarsMembers(lines, n - 1);
      LineStarsSpec(lines, n - 1);
    }
  }

  /** Positions sorted by line, then by column. */
  predicate ReadingOrder(r: seq<(nat, nat)>) {
    forall a, b :: 0 <= a < b < |r| ==> r[a].0 < r[b].0 || (r[a].0 == r[b].0 && r[a].1 < r[b].1)
  }

  lemma {:induction false} AllStarsOrdered(lines: seq<string>, n: nat)
    requires n <= |lines|
    ensures ReadingOrder(AllStars(lines, n))
    decreases n
  {
    if n > 0 {
      AllStarsOrdered(lines, n - 1);
      LineStarsSpec(lines, n - 1);
      var front := AllStars(lines, n - 1);
      var last := LineStars(lines, n - 1);
      var r := front + last;
      forall a, b | 0 <= a < b < |r| ensures r[a].0 < r[b].0 || (r[a].0 == r[b].0 && r[a].1 < r[b].1) {
        if b < |front| {
          assert r[a] == front[a] && r[b] == front[b];
          assert front[a].0 < front[b].0 || (front[a].0 == front[b].0 && front[a].1 < front[b].1);
        } else if a >= |front| {
          assert r[a] == last[a - |front|] && r[b] == last[b - |front|];
          assert last[a - |front|].1 < last[b - |front|].1;
        } else {
          assert r[a] == front[a] && r[b] == last[b - |front|];
          assert front[a].0 < n - 1 && last[b - |front|].0 == n - 1;
        }
      }
    }
  }

  /**
   * When `parse_surroundings_lines` does not raise, it returns one dict per
   * '*' of the schematic, in reading order, with ids 0, 1, 2, ...
   */
  lemma ParseStars(lines: seq<string>)
    requires Parse(lines).Some?
    ensures Describes(Parse(lines).value, AllStars(lines, |lines|))
  {
    ScanLinesStars(lines, |lines|);
  }

  // The strings around a star

  /** A row of dots is not extended. */
  lemma DotsStay(lines: seq<string>, yy: int, c: nat)
    ensures GrowRow(lines, yy, c, "...") == Some("...")
  {
  }

  /**
   * The edges of the grid: a star in the last column gets a '.' on its
   * right, one in the first column a '.' on its left, and `top` is "..." on
   * the first line and `bot` on the last.
   */
  lemma StarEdges(lines: seq<string>, y: nat, c: nat, id: nat)
    requires y < |lines| && c < |lines[y]| && StarAt(lines, y, c, id).Some?
    ensures var t := StarAt(lines, y, c, id).value.sides;
      (c + 1 == |lines[y]| ==> t.right == ".") && (c == 0 < |lines[y]| - 1 ==> t.left == ".") &&
      (y == 0 ==> t.top == "...") && (0 < y == |lines| - 1 ==> t.bot == "...")
  {
    StarSideEdges(lines, y, c, id);
    StarRowEdges(lines, y, c, id);
  }

  /** The left and right sides of a star at an edge column. */
  lemma StarSideEdges(lines: seq<string>, y: nat, c: nat, id: nat)
    requires y < |lines| && c < |lines[y]| && StarAt(lines, y, c, id).Some?
    ensures var t := StarAt(lines, y, c, id).value.sides;
      (c + 1 == |lines[y]| ==> t.right == ".") && (c == 0 < |lines[y]| - 1 ==> t.left == ".")
  {
  }

  /** The rows above and below a star on an edge row. */
  lemma StarRowEdges(lines: seq<string>, y: nat, c: nat, id: nat)
    requires y < |lines| && c < |lines[y]| && StarAt(lines, y, c, id).Some?
    ensures var t := StarAt(lines, y, c, id).value.sides;
      (y == 0 ==> t.top == "...") && (0 < y == |lines| - 1 ==> t.bot == "...")
  {
    DotsStay(lines, y - 1, c);
    DotsStay(lines, y + 1, c);
  }

  /** The first column of the part of a run of digits that ends just before column c, going back at most three columns. */
  function Lo(row: string, c: nat): (lo: nat)
    requires 1 <= c <= |row|
    ensures lo <= c - 1
  {
    if !IsDigit(row[c - 1]) then c - 1
    else if c >= 3 && RunStart(row, c) < c - 3 then c - 3
    else RunStart(row, c)
  }

  /** The end, exclusive, of the part of a run of digits that starts at column c+1, at most three columns long. */
  function Hi(row: string, c: nat): (hi: nat)
    requires c + 1 < |row|
    ensures c + 2 <= hi <= |row| && hi <= c + 4
  {
    if !IsDigit(row[c + 1]) then c + 2
    else
      var e := RunStop(row, c + 1);
      if e > c + 4 then c + 4 else e
  }

  /** Appending extends t by the digits of the run at column c+1 beyond it, up to column c+3. */
  lemma AppendSpec(row: string, c: nat, t: string)
    requires c + 3 < |row| && IsDigit(row[c + 1])
    ensures Append(row, c, t) == Some(t + row[c + 2..Hi(row, c)])
  {
    if IsDigit(row[c + 2]) {
      if IsDigit(row[c + 3]) {
        assert RunStop(row, c + 1) == RunStop(row, c + 2) == RunStop(row, c + 3) == RunStop(row, c + 4);
        assert Hi(row, c) == c + 4;
        assert row[c + 2..c + 4] == [row[c + 2]] + [row[c + 3]];
        assert t + [row[c + 2]] + [row[c + 3]] == t + row[c + 2..c + 4];
      } else {
        StopAt(row, c + 1, c + 3);
        assert row[c + 2..c + 3] == [row[c + 2]];
      }
    } else {
      StopAt(row, c + 1, c + 2);
      assert Hi(row, c) == c + 2 && t + row[c + 2..c + 2] == t;
    }
  }

  /** The run of digits that ends just before c starts at s. */
  lemma {:induction false} StartAt(row: string, s: nat, c: nat)
    requires s <= c <= |row| && AllDigits(row[s..c]) && (s == 0 || !IsDigit(row[s - 1]))
    ensures RunStart(row, c) == s
    decreases c
  {
    if s < c {
      assert IsDigit(row[c - 1]) by {
        assert row[s..c][c - 1 - s] == row[c - 1];
      }
      assert AllDigits(row[s..c - 1]) by {
        assert row[s..c - 1] == row[s..c][..c - 1 - s];
      }
      StartAt(row, s, c - 1);
    }
  }

  /** Where the run of digits ending at column c-1 is cut: at its start, or three columns back. */
  lemma LoCases(row: string, c: nat)
    requires 1 <= c <= |row| && IsDigit(row[c - 1])
    ensures c < 2 || !IsDigit(row[c - 2]) ==> Lo(row, c) == c - 1
    ensures c >= 2 && IsDigit(row[c - 2]) && (c < 3 || !IsDigit(row[c - 3])) ==> Lo(row, c) == c - 2
    ensures c >= 3 && IsDigit(row[c - 2]) && IsDigit(row[c - 3]) ==> Lo(row, c) == c - 3
  {
    if c >= 2 && IsDigit(row[c - 2]) {
      if c >= 3 && IsDigit(row[c - 3]) {
        assert RunStart(row, c) == RunStart(row, c - 1);
        assert RunStart(row, c - 1) == RunStart(row, c - 2);
        assert RunStart(row, c - 2) == RunStart(row, c - 3);
      } else {
        StartAt(row, c - 2, c);
      }
    } else {
      StartAt(row, c - 1, c);
    }
  }

  /** With three columns to its left, prepending extends t by the digits of the run at column c-1 before it, down to column c-3. */
  lemma PrependSpec(row: string, c: nat, t: string)
    requires 3 <= c <= |row| && IsDigit(row[c - 1])
    ensures Prepend(row, c, t) == Some(row[Lo(row, c)..c - 1] + t)
  {
    PrependAgrees(row, c, t);
    PrependFixedSpec(row, c, t);
  }

  /** GrowRow on a non-empty t of an existing line: Append when t ends with a digit, then Prepend when the result starts with one. */
  lemma GrowRowUnfold(lines: seq<string>, yy: nat, c: nat, t: string, g: string)
    requires yy < |lines| && |t| > 0
    requires (if IsDigit(t[|t| - 1]) then Append(lines[yy], c, t) else Some(t)) == Some(g)
    ensures GrowRow(lines, yy, c, t) ==
      if |g| == 0 then None else if IsDigit(g[0]) then Prepend(lines[yy], c, g) else Some(g)
  {
    assert PyIndex(t, -1) == Some(t[|t| - 1]);
    assert PyIndex(lines, yy) == Some(lines[yy]);
  }

  /** Inside the grid, `top` and `bot` grow into the runs of digits at their ends, up to three columns from the star. */
  lemma GrowRowSpec(lines: seq<string>, yy: nat, c: nat)
    requires yy < |lines| && 3 <= c && c + 3 < |lines[yy]|
    ensures GrowRow(lines, yy, c, lines[yy][c - 1..c + 2]) == Some(lines[yy][Lo(lines[yy], c)..Hi(lines[yy], c)])
  {
    var row := lines[yy];
    var t := row[c - 1..c + 2];
    var hi := Hi(row, c);
    var g := row[c - 1..hi];
    assert t[|t| - 1] == row[c + 1];
    if IsDigit(row[c + 1]) {
      AppendSpec(row, c, t);
      assert t + row[c + 2..hi] == g;
    } else {
      assert hi == c + 2;
    }
    GrowRowUnfold(lines, yy, c, t, g);
    assert g[0] == row[c - 1];
    if IsDigit(row[c - 1]) {
      PrependSpec(row, c, g);
      assert row[Lo(row, c)..c - 1] + g == row[Lo(row, c)..hi];
    } else {
      assert Lo(row, c) == c - 1;
    }
  }

  /** Away from the edges the frame is one char on either side and three above and below. */
  lemma InteriorFrame(lines: seq<string>, y: nat, c: nat)
    requires 0 < y < |lines| - 1 && 1 <= c && c + 1 < |lines[y]|
    requires c + 2 <= |lines[y - 1]| && c + 2 <= |lines[y + 1]|
    ensures Frame(lines, y, c) ==
      Some(Sides([lines[y][c - 1]], [lines[y][c + 1]], lines[y - 1][c - 1..c + 2], lines[y + 1][c - 1..c + 2]))
  {
  }

  /** The left char grows into the run of digits that ends at it, three chars at most. */
  lemma GrowLeft(line: string, c: nat)
    requires 3 <= c < |line|
    ensures (if IsDigitStr([line[c - 1]]) then Prepend(line, c, [line[c - 1]]) else Some([line[c - 1]])) ==
      Some(line[Lo(line, c)..c])
  {
    if IsDigit(line[c - 1]) {
      PrependSpec(line, c, [line[c - 1]]);
      assert line[Lo(line, c)..c - 1] + [line[c - 1]] == line[Lo(line, c)..c];
    } else {
      assert [line[c - 1]] == line[c - 1..c];
    }
  }

  /** The right char grows into the run of digits that starts at it, three chars at most. */
  lemma GrowRight(line: string, c: nat)
    requires c + 3 < |line|
    ensures (if IsDigitStr([line[c + 1]]) then Append(line, c, [line[c + 1]]) else Some([line[c + 1]])) ==
      Some(line[c + 1..Hi(line, c)])
  {
    if IsDigit(line[c + 1]) {
      AppendSpec(line, c, [line[c + 1]]);
      assert [line[c + 1]] + line[c + 2..Hi(line, c)] == line[c + 1..Hi(line, c)];
    } else {
      assert [line[c + 1]] == line[c + 1..c + 2];
    }
  }

  /**
   * Away from the edges of the grid (three columns on either side, a line
   * above and below), a star's four strings are exactly the cells around it
   * with each run of digits that touches them followed outward, three
   * columns from the star at most.
   */
  lemma InteriorSides(lines: seq<string>, y: nat, c: nat, id: nat)
    requires 0 < y < |lines| - 1 && 3 <= c
    requires c + 3 < |lines[y - 1]| && c + 3 < |lines[y]| && c + 3 < |lines[y + 1]|
    ensures var line, up, down := lines[y], lines[y - 1], lines[y + 1];
      StarAt(lines, y, c, id).Some? &&
      StarAt(lines, y, c, id).value.sides ==
        Sides(line[Lo(line, c)..c], line[c + 1..Hi(line, c)], up[Lo(up, c)..Hi(up, c)], down[Lo(down, c)..Hi(down, c)])
  {
    InteriorFrame(lines, y, c);
    GrowLeft(lines[y], c);
    GrowRight(lines[y], c);
    GrowRowSpec(lines, y - 1, c);
    GrowRowSpec(lines, y + 1, c);
  }

  // Columns 1 and 2: the wrap of a negative index

  /**
   * Lines 73-78 as evidently intended: the left char grows by the digits
   * before it, stopping at column 0 instead of reading from the line's end.
   */
  function PrependFixed(row: string, c: nat, t: string): string
    requires 1 <= c <= |row|
  {
    if c < 2 || !IsDigit(row[c - 2]) then t
    else if c < 3 || !IsDigit(row[c - 3]) then [row[c - 2]] + t
    else [row[c - 3]] + [row[c - 2]] + t
  }

  /** The corrected prepend adds the run of digits ending at column c-1, three chars at most, on every column. */
  lemma PrependFixedSpec(row: string, c: nat, t: string)
    requires 1 <= c <= |row| && IsDigit(row[c - 1])
    ensures PrependFixed(row, c, t) == row[Lo(row, c)..c - 1] + t
  {
    LoCases(row, c);
    if c >= 2 && IsDigit(row[c - 2]) {
      if c >= 3 && IsDigit(row[c - 3]) {
        assert row[c - 3..c - 1] == [row[c - 3]] + [row[c - 2]];
      } else {
        assert row[c - 2..c - 1] == [row[c - 2]];
      }
    } else {
      assert row[c - 1..c - 1] + t == t;
    }
  }

  /** From column 3 on, the program's prepend is the corrected one. */
  lemma PrependAgrees(row: string, c: nat, t: string)
    requires 3 <= c <= |row|
    ensures Prepend(row, c, t) == Some(PrependFixed(row, c, t))
  {
  }

  /**
   * As written, a digit at column 0 left of a star at column 1 is extended
   * by the last char of its line: in ["1*.5", "...."] the star's `left` is
   * "51" and 51 is one of its numbers, where the corrected prepend keeps "1".
   */
  lemma WrapMisreadsLeft()
    ensures var lines, g := ["1*.5", "...."], Sides("51", ".", "...", "...");
      StarAt(lines, 0, 1, 0) == Some(Star(0, 1, 0, g, Numbers(g))) && [51] <= Numbers(g) &&
      PrependFixed(lines[0], 1, "1") == "1"
  {
    var lines, g := ["1*.5", "...."], Sides("51", ".", "...", "...");
    WrapGrown(lines);
    StarOf(lines, 0, 1, 0, Frame(lines, 0, 1).value, g);
    WrapNumbers();
    NumbersFront(g, [51]);
  }

  /** A star's dict from its frame and its grown strings. */
  lemma StarOf(lines: seq<string>, y: nat, c: nat, id: nat, f: Sides, g: Sides)
    requires y < |lines| && c < |lines[y]|
    requires Frame(lines, y, c) == Some(f) && Grow(lines, y, c, f) == Some(g)
    ensures StarAt(lines, y, c, id) == Some(Star(y, c, id, g, Numbers(g)))
  {
  }

  lemma WrapGrown(lines: seq<string>)
    requires lines == ["1*.5", "...."]
    ensures Frame(lines, 0, 1).Some? && Grow(lines, 0, 1, Frame(lines, 0, 1).value) == Some(Sides("51", ".", "...", "..."))
  {
    var row := lines[0];
    var f := Frame(lines, 0, 1).value;
    assert f == Sides("1", ".", "...", "...");
    assert PyIndex(row, -1) == Some('5') && PyIndex(row, -2) == Some('.');
    assert ['5'] + "1" == "51";
    assert Prepend(row, 1, "1") == Some("51");
    DotsStay(lines, 1, 1);
    DotsStay(lines, -1, 1);
  }

  /** The numbers of a dict start with those of `right`, then those of `left`. */
  lemma NumbersFront(g: Sides, front: seq<int>)
    requires Parsed([g.right]) + Parsed([g.left]) == front
    ensures front <= Numbers(g)
  {
    var rest := Parsed(Split(g.bot, '.')) + Parsed(Split(g.top, '.'));
    assert Numbers(g) == front + rest;
  }

  lemma WrapNumbers()
    ensures Parsed(["."]) + Parsed(["51"]) == [51]
  {
    ParsedOne(".");
    PyIntChar('.');
    ParsedOne("51");
    FiftyOne();
  }

  lemma FiftyOne()
    ensures IntOf("51") == [51]
  {
    FiftyOneDigits();
    PyIntDigits("51");
  }

  lemma FiftyOneDigits()
    ensures AllDigits("51") && DigitsValue("51") == 51
  {
    assert "51"[..1] == "5" && "5"[..0] == [];
  }

  /**
   * A digit right of a star one column before the end of its line raises
   * IndexError: the program reads the column after the line's last.
   */
  lemma RightEdgeRaises(lines: seq<string>, y: nat, c: nat, id: nat)
    requires y < |lines| && 1 <= c && c + 2 == |lines[y]| && IsDigit(lines[y][c + 1])
    requires y > 0 || |lines| >= 2
    ensures StarAt(lines, y, c, id).None?
  {
  }
}
