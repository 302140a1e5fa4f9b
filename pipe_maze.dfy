/**
 * The pipe-maze tables shared by the two Rust day 10 programs
 * (rust/d10_1 and rust/d10_2 declare them identically): pipe shapes and
 * their characters, travel headings, the redirection table, the one-step
 * move of `Tile::get_next_coords`, and the walk built from it.
 *
 * Coordinates grow to the east (x) and to the south (y), so heading North
 * is the vector (0, -1).  A travel heading h enters a tile through the side
 * opposite(h).  A pipe accepts h when it has an arm on that side. It then
 * sends the walker out through its other arm.
 */
module PipeMaze {
  import opened Wrappers

  datatype TileType = Ground | NorthSouth | EastWest | NorthEast | NorthWest | SouthWest | SouthEast | Unknown

  datatype Direction = North | South | West | East

  datatype Coords = Coords(x: int, y: int)

  /** Why a maze operation fails; `MissingTile` is an `unwrap` on a missing key, a panic in the source. */
  datatype Failure =
    | UnknownChar(c: char)
    | BadDirection(diff: Coords)
    | NoConnection(tile: TileType, heading: Direction)
    | StartUnresolved
    | NoStartDirection
    | MissingTile(at: Coords)

  function Add(a: Coords, b: Coords): Coords { Coords(a.x + b.x, a.y + b.y) }

  function Sub(a: Coords, b: Coords): Coords { Coords(a.x - b.x, a.y - b.y) }

  /** The unit vector a heading points along. */
  function Vec(d: Direction): Coords {
    match d
    case North => Coords(0, -1)
    case South => Coords(0, 1)
    case West => Coords(-1, 0)
    case East => Coords(1, 0)
  }

  function Opposite(d: Direction): Direction {
    match d
    case North => South
    case South => North
    case West => East
    case East => West
  }

  /** The heading of a unit vector, the if-chain at the top of `get_next_coords`; None for any other vector. */
  function Heading(v: Coords): (r: Option<Direction>)
    ensures r.Some? ==> Vec(r.value) == v
    ensures forall d :: v == Vec(d) ==> r == Some(d)
  {
    if v == Coords(1, 0) then Some(East)
    else if v == Coords(-1, 0) then Some(West)
    else if v == Coords(0, 1) then Some(South)
    else if v == Coords(0, -1) then Some(North)
    else None
  }

  /** The sides a shape connects, as its name says; Ground and Unknown connect none. */
  predicate HasArm(t: TileType, d: Direction) {
    match t
    case NorthSouth => d == North || d == South
    case EastWest => d == East || d == West
    case NorthEast => d == North || d == East
    case NorthWest => d == North || d == West
    case SouthWest => d == South || d == West
    case SouthEast => d == South || d == East
    case _ => false
  }

  predicate IsPipe(t: TileType) { t != Ground && t != Unknown }

  /** `TileType::get_char`. */
  function GetChar(t: TileType): char {
    match t
    case Ground => '.'
    case NorthSouth => '|'
    case EastWest => '-'
    case NorthEast => 'L'
    case NorthWest => 'J'
    case SouthWest => '7'
    case SouthEast => 'F'
    case Unknown => '?'
  }

  /**
   * The shape a map character stands for, the match of the parse loop in
   * `get_input`; 'S' and every other character are handled by the caller.
   */
  function TileOfChar(c: char): (r: Option<TileType>)
    ensures r.Some? <==> c in ".|-LJ7F"
    ensures r.Some? ==> r.value != Unknown && GetChar(r.value) == c
  {
    match c
    case '.' => Some(Ground)
    case '|' => Some(NorthSouth)
    case '-' => Some(EastWest)
    case 'L' => Some(NorthEast)
    case 'J' => Some(NorthWest)
    case '7' => Some(SouthWest)
    case 'F' => Some(SouthEast)
    case _ => None
  }

  /** Every shape but Unknown is parsed back from its own character. */
  lemma CharRoundTrip(t: TileType)
    ensures t != Unknown ==> TileOfChar(GetChar(t)) == Some(t)
    ensures t == Unknown ==> TileOfChar(GetChar(t)) == None
  {
  }

  /**
   * `TileType::get_pipe_redirection`: the offset a walker travelling with
   * heading h takes after entering a tile of shape t.
   */
  function GetPipeRedirection(t: TileType, h: Direction): (r: Result<Coords, Failure>)
    ensures r.Ok? <==> HasArm(t, Opposite(h))
    ensures r.Ok? ==> Heading(r.value).Some?
    ensures r.Ok? ==> HasArm(t, Heading(r.value).value) && Heading(r.value).value != Opposite(h)
    ensures r.Err? ==> r.error == NoConnection(t, h)
  {
    match (t, h)
    case (NorthSouth, North) => Ok(Coords(0, -1))
    case (NorthSouth, South) => Ok(Coords(0, 1))
    case (EastWest, West) => Ok(Coords(-1, 0))
    case (EastWest, East) => Ok(Coords(1, 0))
    case (NorthEast, South) => Ok(Coords(1, 0))
    case (NorthEast, West) => Ok(Coords(0, -1))
    case (NorthWest, South) => Ok(Coords(-1, 0))
    case (NorthWest, East) => Ok(Coords(0, -1))
    case (SouthWest, North) => Ok(Coords(-1, 0))
    case (SouthWest, East) => Ok(Coords(0, 1))
    case (SouthEast, North) => Ok(Coords(1, 0))
    case (SouthEast, West) => Ok(Coords(0, 1))
    case _ => Err(NoConnection(t, h))
  }

  /** How many of the four headings a shape accepts. */
  function AcceptCount(t: TileType): nat {
    (if GetPipeRedirection(t, North).Ok? then 1 else 0) + (if GetPipeRedirection(t, South).Ok? then 1 else 0) +
    (if GetPipeRedirection(t, West).Ok? then 1 else 0) + (if GetPipeRedirection(t, East).Ok? then 1 else 0)
  }

  /** Each pipe accepts exactly two headings; Ground and Unknown accept none. */
  lemma AcceptedHeadings(t: TileType)
    ensures AcceptCount(t) == if IsPipe(t) then 2 else 0
    ensures !IsPipe(t) ==> forall h :: GetPipeRedirection(t, h).Err?
  {
  }

  /**
   * The table is reversible without U-turns: leaving with offset o after
   * heading h, a walker coming back along -o is sent along -vec(h).
   */
  lemma RedirectionReversible(t: TileType, h: Direction)
    requires GetPipeRedirection(t, h).Ok?
    ensures var o := GetPipeRedirection(t, h).value;
      Heading(o).Some? &&
      GetPipeRedirection(t, Opposite(Heading(o).value)) == Ok(Vec(Opposite(h))) &&
      o != Vec(Opposite(h))
  {
  }

  /** Two headings a shape accepts lead out along different offsets. */
  lemma RedirectionInjective(t: TileType, h1: Direction, h2: Direction)
    requires GetPipeRedirection(t, h1).Ok? && GetPipeRedirection(t, h1) == GetPipeRedirection(t, h2)
    ensures h1 == h2
  {
  }

  /**
   * `Tile::get_next_coords` for a tile of shape t at `here`, entered from
   * `last`: the heading is deduced from here - last. The step enters
   * through one arm of t and leaves through the other.
   */
  function NextCoords(t: TileType, here: Coords, last: Coords): (r: Result<Coords, Failure>)
    ensures Heading(Sub(here, last)).None? ==> r == Err(BadDirection(Sub(here, last)))
    ensures r.Ok? <==> Heading(Sub(last, here)).Some? && HasArm(t, Heading(Sub(last, here)).value)
    ensures r.Ok? ==> Heading(Sub(r.value, here)).Some? && HasArm(t, Heading(Sub(r.value, here)).value)
    ensures r.Ok? ==> r.value != last
  {
    match Heading(Sub(here, last))
    case None => Err(BadDirection(Sub(here, last)))
    case Some(h) =>
      assert Sub(last, here) == Vec(Opposite(h));
      match GetPipeRedirection(t, h)
      case Err(e) => Err(e)
      case Ok(o) =>
        assert Sub(Add(here, o), here) == o;
        Ok(Add(here, o))
  }

  /** A step can be walked back: from the tile reached, the same tile sends the walker home. */
  lemma {:induction false} NextCoordsReversible(t: TileType, here: Coords, last: Coords)
    requires NextCoords(t, here, last).Ok?
    ensures NextCoords(t, here, NextCoords(t, here, last).value) == Ok(last)
  {
    var h := Heading(Sub(here, last)).value;
    var o := GetPipeRedirection(t, h).value;
    RedirectionReversible(t, h);
    var back := Opposite(Heading(o).value);
    assert Sub(here, Add(here, o)) == Vec(back);
    assert Add(here, Vec(Opposite(h))) == last;
  }

  /** Which of the start tile's four physical neighbours accept a move from the start. */
  datatype Sides = Sides(north: bool, south: bool, west: bool, east: bool)

  function Side(s: Sides, d: Direction): bool {
    match d
    case North => s.north
    case South => s.south
    case West => s.west
    case East => s.east
  }

  function CountSides(s: Sides): nat {
    (if s.north then 1 else 0) + (if s.south then 1 else 0) + (if s.west then 1 else 0) + (if s.east then 1 else 0)
  }

  /** Both arms of t lead to a neighbour that accepts the move. */
  predicate Fits(t: TileType, s: Sides) { forall d :: HasArm(t, d) ==> Side(s, d) }

  /** The position of a pipe shape in the if-chain of `init_start_tile`. */
  function Rank(t: TileType): nat {
    match t
    case NorthSouth => 0
    case SouthWest => 1
    case SouthEast => 2
    case NorthWest => 3
    case NorthEast => 4
    case EastWest => 5
    case _ => 6
  }

  /** Each pipe shape fits exactly when the neighbours at both its arms accept. */
  lemma FitsCases(s: Sides)
    ensures Fits(NorthSouth, s) == (s.north && s.south) && Fits(EastWest, s) == (s.east && s.west)
    ensures Fits(NorthEast, s) == (s.north && s.east) && Fits(NorthWest, s) == (s.north && s.west)
    ensures Fits(SouthWest, s) == (s.south && s.west) && Fits(SouthEast, s) == (s.south && s.east)
  {
    assert HasArm(NorthSouth, North) && HasArm(NorthSouth, South) && HasArm(EastWest, East) && HasArm(EastWest, West);
    assert HasArm(NorthEast, North) && HasArm(NorthEast, East) && HasArm(NorthWest, North) && HasArm(NorthWest, West);
    assert HasArm(SouthWest, South) && HasArm(SouthWest, West) && HasArm(SouthEast, South) && HasArm(SouthEast, East);
  }

  /**
   * The if-chain of `init_start_tile`.  Its flags are named after the
   * offset subtracted from the start: `north_connected` is the neighbour
   * at start - (0, -1), physically to the south, and `west_connected` the
   * one physically to the east.  The shape chosen is the first in the
   * chain that fits, so one exists exactly when at least two neighbours
   * accept; with exactly two it is the shape joining them.
   */
  function ResolveStart(s: Sides): (r: Option<TileType>)
    ensures r.Some? <==> CountSides(s) >= 2
    ensures r.Some? ==> IsPipe(r.value) && Fits(r.value, s)
    ensures r.Some? ==> forall t :: IsPipe(t) && Fits(t, s) ==> Rank(r.value) <= Rank(t)
    ensures r.None? ==> forall t :: IsPipe(t) ==> !Fits(t, s)
    ensures r.Some? && CountSides(s) == 2 ==> forall d :: HasArm(r.value, d) <==> Side(s, d)
  {
    var north_connected, south_connected := s.south, s.north;
    var west_connected, east_connected := s.east, s.west;
    FitsCases(s);
    if north_connected && south_connected then Some(NorthSouth)
    else if north_connected && east_connected then Some(SouthWest)
    else if north_connected && west_connected then Some(SouthEast)
    else if south_connected && east_connected then Some(NorthWest)
    else if south_connected && west_connected then Some(NorthEast)
    else if east_connected && west_connected then Some(EastWest)
    else None
  }

  /** The walker state of `follow_pipes`: the tile it came from and the tile it is on. */
  datatype Walker = Walker(last: Coords, current: Coords)

  /** One iteration of the loop of `follow_pipes` over the shapes of the map. */
  function Step(types: map<Coords, TileType>, w: Walker): (r: Result<Walker, Failure>)
    requires w.current in types
    ensures r.Ok? ==> r.value.last == w.current && r.value.current in types
  {
    match NextCoords(types[w.current], w.current, w.last)
    case Err(e) => Err(e)
    case Ok(n) => if n in types then Ok(Walker(w.current, n)) else Err(MissingTile(n))
  }

  /** Different walker states never step into the same state. */
  lemma {:induction false} StepInjective(types: map<Coords, TileType>, a: Walker, b: Walker)
    requires a.current in types && b.current in types
    requires Step(types, a).Ok? && Step(types, a) == Step(types, b)
    ensures a == b
  {
    var c := a.current;
    var n := Step(types, a).value.current;
    assert NextCoords(types[c], c, a.last) == Ok(n) == NextCoords(types[c], c, b.last);
    NextCoordsReversible(types[c], c, a.last);
    NextCoordsReversible(types[c], c, b.last);
  }

  /** The state after n iterations, or the first failure. */
  function Run(types: map<Coords, TileType>, w: Walker, n: nat): (r: Result<Walker, Failure>)
    requires w.current in types && w.last in types
    ensures r.Ok? ==> r.value.current in types && r.value.last in types
  {
    if n == 0 then Ok(w)
    else match Run(types, w, n - 1)
      case Err(e) => Err(e)
      case Ok(v) => Step(types, v)
  }

  /** Tile k is stepped onto at move i (1 <= i). */
  predicate VisitedAt(types: map<Coords, TileType>, w: Walker, i: nat, k: Coords)
    requires w.current in types && w.last in types
  {
    Run(types, w, i).Ok? && Run(types, w, i).value.current == k
  }

  /** The tiles stepped onto by the first n moves. */
  ghost function Trail(types: map<Coords, TileType>, w: Walker, n: nat): set<Coords>
    requires w.current in types && w.last in types
  {
    if n == 0 then {}
    else Trail(types, w, n - 1) + if Run(types, w, n).Ok? then {Run(types, w, n).value.current} else {}
  }

  /** The n-th state is back on the start tile for the first time. */
  predicate FirstReturn(types: map<Coords, TileType>, w: Walker, n: nat)
    requires w.current in types && w.last in types
  {
    n >= 1 && VisitedAt(types, w, n, w.current) &&
    forall i :: 1 <= i < n ==> Run(types, w, i).Ok? && Run(types, w, i).value.current != w.current
  }

  /** The walk fails at move n without having returned to the start before. */
  predicate FailsBeforeReturn(types: map<Coords, TileType>, w: Walker, n: nat)
    requires w.current in types && w.last in types
  {
    n >= 1 && Run(types, w, n).Err? &&
    forall i :: 1 <= i < n ==> Run(types, w, i).Ok? && Run(types, w, i).value.current != w.current
  }

  /**
   * trace holds the first |trace| states of the walk from w0, all distinct,
   * and none after the first is on the start tile.
   */
  ghost predicate WalkSoFar(types: map<Coords, TileType>, w0: Walker, trace: seq<Walker>) {
    w0.current in types && w0.last in types &&
    (forall i :: 0 <= i < |trace| ==> Run(types, w0, i) == Ok(trace[i])) &&
    (forall i :: 1 <= i < |trace| ==> trace[i].current != w0.current) &&
    Distinct(trace)
  }

  /** The state reached is new unless it is the start state itself, which the walk would have left. */
  lemma {:induction false} ReachedIsFresh(types: map<Coords, TileType>, w0: Walker, trace: seq<Walker>)
    requires WalkSoFar(types, w0, trace)
    requires Run(types, w0, |trace|).Ok?
    requires |trace| == 0 || Run(types, w0, |trace|).value.current != w0.current
    ensures forall i :: 0 <= i < |trace| ==> trace[i] != Run(types, w0, |trace|).value
  {
    var n := |trace|;
    if n > 0 {
      assert Run(types, w0, n - 1) == Ok(trace[n - 1]);
      assert Run(types, w0, n) == Step(types, trace[n - 1]);
      forall i | 0 <= i < n ensures trace[i] != Run(types, w0, n).value {
        var p := if i > 0 then trace[i - 1] else w0;
        assert Run(types, w0, i) == Ok(trace[i]);
        if i > 0 {
          assert Run(types, w0, i - 1) == Ok(p);
          assert i - 1 < n - 1;
        }
        FreshAt(types, w0, i, p, trace[n - 1], trace[i], Run(types, w0, n).value);
      }
    }
  }

  /**
   * The state s reached by a move from q differs from the state x at move
   * i of the walk, given that x is the start state (i = 0), which s is
   * not on, or was reached from a state p other than q.
   */
  lemma {:induction false} FreshAt(types: map<Coords, TileType>, w0: Walker, i: nat, p: Walker, q: Walker, x: Walker, s: Walker)
    requires w0.current in types && w0.last in types && q.current in types
    requires Run(types, w0, i) == Ok(x) && Step(types, q) == Ok(s) && s.current != w0.current
    requires i > 0 ==> Run(types, w0, i - 1) == Ok(p) && p != q
    ensures x != s
  {
    if i == 0 {
      assert Run(types, w0, 0) == Ok(w0);
    } else {
      assert Step(types, p) == Ok(x);
      if x == s {
        StepInjective(types, p, q);
      }
    }
  }

  /** Every state of a walk over the map is a pair of its tiles. */
  lemma {:induction false} TraceWithin(types: map<Coords, TileType>, w0: Walker, t: seq<Walker>)
    requires w0.current in types && w0.last in types
    requires forall i :: 0 <= i < |t| ==> Run(types, w0, i) == Ok(t[i])
    ensures forall i :: 0 <= i < |t| ==> t[i] in States(types)
  {
    forall i | 0 <= i < |t| ensures t[i] in States(types) {
      assert Run(types, w0, i) == Ok(t[i]);
      var a, b := t[i].last, t[i].current;
      assert t[i] == Walker(a, b);
    }
  }

  /**
   * The walk can be extended by the state it has reached, as long as that
   * state is not a return to the start tile.  Distinct walker states never
   * step into the same state, so the extended trace stays duplicate-free
   * and no longer than the number of states over the map.  This is what
   * makes `follow_pipes` terminate.
   */
  lemma {:induction false} WalkExtend(types: map<Coords, TileType>, w0: Walker, trace: seq<Walker>, w: Walker)
    requires WalkSoFar(types, w0, trace) && Run(types, w0, |trace|) == Ok(w)
    requires |trace| == 0 || w.current != w0.current
    ensures WalkSoFar(types, w0, trace + [w]) && |trace| + 1 <= |States(types)|
    ensures Run(types, w0, |trace| + 1) == Step(types, w)
  {
    var n := |trace|;
    var s := w;
    var t := trace + [s];
    ReachedIsFresh(types, w0, trace);
    assert Distinct(t) by {
      forall i, j | 0 <= i < j < |t| ensures t[i] != t[j] {
        if j < n { assert t[i] == trace[i] && t[j] == trace[j]; }
      }
    }
    forall i | 0 <= i < |t| ensures Run(types, w0, i) == Ok(t[i]) {
      if i < n { assert t[i] == trace[i]; }
    }
    forall i | 1 <= i < |t| ensures t[i].current != w0.current {
      if i < n { assert t[i] == trace[i]; }
    }
    TraceWithin(types, w0, t);
    DistinctWithin(t, States(types));
  }

  /** A successful move adds the tile it reaches to the trail. */
  lemma {:induction false} TrailStep(types: map<Coords, TileType>, w0: Walker, n: nat, w: Walker)
    requires w0.current in types && w0.last in types
    requires Run(types, w0, n + 1) == Ok(w)
    ensures Trail(types, w0, n + 1) == Trail(types, w0, n) + {w.current}
  {
  }

  /** A failed move from a state not back on the start tile ends the walk as a failure. */
  lemma {:induction false} WalkFails(types: map<Coords, TileType>, w0: Walker, trace: seq<Walker>)
    requires WalkSoFar(types, w0, trace)
    requires Run(types, w0, |trace|).Ok? && Step(types, Run(types, w0, |trace|).value).Err?
    requires |trace| == 0 || Run(types, w0, |trace|).value.current != w0.current
    ensures FailsBeforeReturn(types, w0, |trace| + 1)
  {
    var n := |trace|;
    assert Run(types, w0, n + 1) == Step(types, Run(types, w0, n).value);
    forall i | 1 <= i < n + 1
      ensures Run(types, w0, i).Ok? && Run(types, w0, i).value.current != w0.current
    {
      if i < n { assert Run(types, w0, i) == Ok(trace[i]); } else { assert i == n; }
    }
  }

  /** A walk that reaches the start tile again returns there for the first time. */
  lemma {:induction false} WalkReturns(types: map<Coords, TileType>, w0: Walker, trace: seq<Walker>)
    requires WalkSoFar(types, w0, trace) && |trace| >= 1
    requires Run(types, w0, |trace|).Ok? && Run(types, w0, |trace|).value.current == w0.current
    ensures FirstReturn(types, w0, |trace|)
  {
  }

  /** The positions of the start tile within a map's rows, in reading order. */
  predicate Before(c: Coords, p: Coords) { c.y < p.y || (c.y == p.y && c.x < p.x) }

  /** Position c holds a character of the text `lines`. */
  predicate InGrid<T>(lines: seq<seq<T>>, c: Coords) { 0 <= c.y < |lines| && 0 <= c.x < |lines[c.y]| }

  /** Every character of the text is a map character or 'S'. */
  predicate IsMapChar(ch: char) { ch == 'S' || TileOfChar(ch).Some? }

  /**
   * s is where the scan of the positions before p leaves `start_coords`:
   * the last 'S' met in reading order, or (0, 0) when there is none.
   */
  ghost predicate LastStartBefore(lines: seq<string>, p: Coords, s: Coords) {
    ((forall c :: InGrid(lines, c) && Before(c, p) ==> lines[c.y][c.x] != 'S') && s == Coords(0, 0)) ||
    (InGrid(lines, s) && Before(s, p) && lines[s.y][s.x] == 'S' &&
     forall c :: InGrid(lines, c) && Before(c, p) && Before(s, c) ==> lines[c.y][c.x] != 'S')
  }

  /** Every character of the text is a map character or 'S'. */
  ghost predicate MapText(lines: seq<string>) {
    forall c :: InGrid(lines, c) ==> IsMapChar(lines[c.y][c.x])
  }

  /** The last 'S' before p is one position: `start_coords` is determined by the text. */
  lemma LastStartUnique(lines: seq<string>, p: Coords, s1: Coords, s2: Coords)
    requires LastStartBefore(lines, p, s1) && LastStartBefore(lines, p, s2)
    ensures s1 == s2
  {
  }

  /** Scanning one more character keeps `start_coords` the last 'S' met. */
  lemma {:induction false} StartScanStep(lines: seq<string>, x: int, y: int, s: Coords)
    requires InGrid(lines, Coords(x, y)) && LastStartBefore(lines, Coords(x, y), s)
    ensures LastStartBefore(lines, Coords(x + 1, y), if lines[y][x] == 'S' then Coords(x, y) else s)
  {
    forall c | InGrid(lines, c) ensures Before(c, Coords(x + 1, y)) <==> Before(c, Coords(x, y)) || c == Coords(x, y) { }
  }

  /** The end of line y is the start of line y + 1 for the scan. */
  lemma {:induction false} StartScanRow(lines: seq<string>, y: int, s: Coords)
    requires 0 <= y < |lines| && LastStartBefore(lines, Coords(|lines[y]|, y), s)
    ensures LastStartBefore(lines, Coords(0, y + 1), s)
  {
    forall c | InGrid(lines, c) ensures Before(c, Coords(|lines[y]|, y)) <==> Before(c, Coords(0, y + 1)) { }
  }

  /** All walker states over the tiles of the map. */
  function States(types: map<Coords, TileType>): set<Walker> {
    set a, b | a in types.Keys && b in types.Keys :: Walker(a, b)
  }

  predicate Distinct<T(==)>(t: seq<T>) { forall i, j :: 0 <= i < j < |t| ==> t[i] != t[j] }

  /** A sequence of distinct members of u has at most |u| elements. */
  lemma {:induction false} DistinctWithin<T>(t: seq<T>, u: set<T>)
    requires Distinct(t)
    requires forall i :: 0 <= i < |t| ==> t[i] in u
    ensures |t| <= |u|
    decreases |t|
  {
    if |t| > 0 {
      var x := t[|t| - 1];
      var front := t[..|t| - 1];
      forall i | 0 <= i < |front| ensures front[i] in u - {x} {
        assert front[i] == t[i] != t[|t| - 1];
      }
      DistinctWithin(front, u - {x});
    }
  }
}
