/**
 * py/10/prog_1.py: the pipe maze over two data frames, `maze` (the
 * characters) and `dist` (distances from the start, -1 when unset).  The
 * maze frame is a sequence of rows, `df[col][row]` being `g[row][col]`;
 * the dist frame, which is only read and written by label, is a map from
 * [col, row] labels to values.  The frames are values passed in and
 * returned updated.  Every Python
 * exception on the way (a missing label, the explicit raises, indexing
 * None) is an error of the result.
 */
module Day10Py1 {
  import opened Wrappers
  import opened PipeMaze

  datatype Error =
    | NotSquare               // the `dist` frame cannot be built
    | NoStart                 // `find_maze_start` found no 'S'
    | OffGrid(at: Coords)     // a label outside the frame
    | Unresolved              // "Unknown surroundings of start_char"
    | BadMove(ch: char, vect: Coords)
    | OutOfFuel

  type Grid<T> = seq<seq<T>>

  /** Every row has the width of the first one, as in a data frame. */
  predicate Rect<T>(g: Grid<T>) { |g| > 0 && forall i :: 0 <= i < |g| ==> |g[i]| == |g[0]| }

  predicate SameShape<T, U>(g: Grid<T>, h: Grid<U>) {
    |g| == |h| && forall i :: 0 <= i < |g| ==> |g[i]| == |h[i]|
  }

  function Set<T>(g: Grid<T>, c: Coords, v: T): (r: Grid<T>)
    requires InGrid(g, c)
    ensures SameShape(r, g) && r[c.y][c.x] == v
  {
    g[c.y := g[c.y][c.x := v]]
  }

  /** The dist frame: a value under each [col, row] label. */
  type Frame = map<Coords, int>

  /** The dist frame has exactly the labels of the maze frame. */
  ghost predicate Labels(dist: Frame, maze: Grid<char>) {
    forall c :: c in dist <==> InGrid(maze, c)
  }

  /** A write under an existing label keeps the labels. */
  lemma {:induction false} WriteKeepsLabels(dist: Frame, maze: Grid<char>, c: Coords, v: int)
    requires Labels(dist, maze) && InGrid(maze, c)
    ensures Labels(dist[c := v], maze)
  {
  }

  /**
   * `parse_input`: the maze frame holds the lines, and the dist frame
   * has len(raw) rows of len(raw) values -1 under len(raw[0]) labels,
   * which pandas accepts only when the grid is square.  Rows of other
   * widths are refused.
   */
  function ParseInput(raw: seq<string>): (r: Result<(Grid<char>, Frame), Error>)
    ensures r.Ok? <==> Rect(raw) && |raw[0]| == |raw|
    ensures r.Ok? ==> r.value.0 == raw && Labels(r.value.1, raw)
    ensures r.Ok? ==> forall c :: c in r.value.1 ==> r.value.1[c] == -1
  {
    if |raw| == 0 || |raw[0]| != |raw| || !Rect(raw) then Err(NotSquare)
    else
      var labels := set x, y | 0 <= y < |raw| && 0 <= x < |raw| :: Coords(x, y);
      assert forall c :: c in labels <==> InGrid(raw, c) by {
        forall c ensures c in labels <==> InGrid(raw, c) {
          if InGrid(raw, c) { assert c == Coords(c.x, c.y); }
        }
      }
      Ok((raw, map c | c in labels :: -1))
  }

  /** Column-major order, the order of `find_maze_start`'s scan. */
  predicate ColumnBefore(c: Coords, p: Coords) { c.x < p.x || (c.x == p.x && c.y < p.y) }

  /**
   * `find_maze_start`: the first 'S' column by column, top to bottom, as
   * [col, row], or None.
   */
  method FindMazeStart(maze: Grid<char>) returns (r: Option<Coords>)
    requires Rect(maze)
    ensures r.None? <==> forall c :: InGrid(maze, c) ==> maze[c.y][c.x] != 'S'
    ensures r.Some? ==> InGrid(maze, r.value) && maze[r.value.y][r.value.x] == 'S'
    ensures r.Some? ==> forall c :: InGrid(maze, c) && ColumnBefore(c, r.value) ==> maze[c.y][c.x] != 'S'
  {
    var col := 0;
    while col < |maze[0]|
      invariant 0 <= col <= |maze[0]|
      invariant forall c :: InGrid(maze, c) && c.x < col ==> maze[c.y][c.x] != 'S'
    {
      var row := 0;
      while row < |maze|
        invariant 0 <= row <= |maze|
        invariant forall c :: InGrid(maze, c) && ColumnBefore(c, Coords(col, row)) ==> maze[c.y][c.x] != 'S'
      {
        if maze[row][col] == 'S' {
          return Some(Coords(col, row));
        }
        row := row + 1;
      }
      col := col + 1;
    }
    return None;
  }

  /** s is the 'S' `find_maze_start` returns. */
  ghost predicate IsFirstStart(maze: Grid<char>, s: Coords) {
    InGrid(maze, s) && maze[s.y][s.x] == 'S' &&
    forall c :: InGrid(maze, c) && ColumnBefore(c, s) ==> maze[c.y][c.x] != 'S'
  }

  /** The four entries of `arounds`: north is row - 1, and so on. */
  function Around(s: Coords, d: Direction): Coords { Add(s, Vec(d)) }

  /** The characters `init_dataframes` accepts on the d side of the start. */
  function Accepting(d: Direction): string {
    match d
    case North => "|7F"
    case South => "|LJ"
    case East => "-J7"
    case West => "-LF"
  }

  predicate PyConnected(maze: Grid<char>, s: Coords, d: Direction)
    requires InGrid(maze, Around(s, d))
  {
    maze[Around(s, d).y][Around(s, d).x] in Accepting(d)
  }

  /** A neighbour is connected exactly when it is a pipe with an arm back towards the start. */
  lemma {:induction false} ConnectedMeansArmBack(ch: char, d: Direction)
    ensures ch in Accepting(d) <==> TileOfChar(ch).Some? && HasArm(TileOfChar(ch).value, Opposite(d))
  {
    match d case _ =>
  }

  /** The neighbours in the order `init_dataframes` appends them: north, south, east, west. */
  function Connections(maze: Grid<char>, s: Coords): (r: seq<Direction>)
    requires forall d :: InGrid(maze, Around(s, d))
    ensures forall d :: d in r <==> PyConnected(maze, s, d)
    ensures |r| <= 4
  {
    Appended(maze, s, North) + Appended(maze, s, South) + Appended(maze, s, East) + Appended(maze, s, West)
  }

  /** What one of the four `if`s appends. */
  function Appended(maze: Grid<char>, s: Coords, d: Direction): (r: seq<Direction>)
    requires InGrid(maze, Around(s, d))
    ensures forall e :: e in r <==> e == d && PyConnected(maze, s, d)
    ensures |r| <= 1
  {
    if PyConnected(maze, s, d) then [d] else []
  }

  /**
   * The char that replaces 'S' for a connection list; only the six
   * two-element lists appear in the if-chain, and every other list raises.
   */
  function StartChar(conns: seq<Direction>): (r: Option<char>)
    ensures r.Some? ==> (|conns| == 2 && TileOfChar(r.value).Some? &&
                         forall d :: HasArm(TileOfChar(r.value).value, d) <==> d in conns)
  {
    if conns == [North, South] then Some('|')
    else if conns == [East, West] then Some('-')
    else if conns == [North, East] then Some('L')
    else if conns == [North, West] then Some('J')
    else if conns == [South, West] then Some('7')
    else if conns == [South, East] then Some('F')
    else None
  }

  /** The position of a side in the order of the appends. */
  function Rank(d: Direction): nat {
    match d
    case North => 0
    case South => 1
    case East => 2
    case West => 3
  }

  /**
   * The part of `init_dataframes` after the start s is found: the four
   * neighbours must be labels of the frame, exactly two of them must be
   * connected, and the result is the char put in place of 'S' with the
   * two connected sides in the order they were appended.
   */
  function StartAt(maze: Grid<char>, s: Coords): (r: Result<(char, Direction, Direction), Error>)
    ensures r.Ok? <==> (forall d :: InGrid(maze, Around(s, d))) && |Connections(maze, s)| == 2
    ensures r.Ok? ==> var (ch, d1, d2) := r.value;
      PyConnected(maze, s, d1) && PyConnected(maze, s, d2) && Rank(d1) < Rank(d2) &&
      TileOfChar(ch).Some? && forall d :: HasArm(TileOfChar(ch).value, d) <==> PyConnected(maze, s, d)
    ensures r.Err? ==> (r.error == Unresolved || exists d :: r.error == OffGrid(Around(s, d)))
    ensures r.Err? && r.error.OffGrid? ==> !InGrid(maze, r.error.at)
  {
    if !InGrid(maze, Around(s, North)) then Err(OffGrid(Around(s, North)))
    else if !InGrid(maze, Around(s, South)) then Err(OffGrid(Around(s, South)))
    else if !InGrid(maze, Around(s, East)) then Err(OffGrid(Around(s, East)))
    else if !InGrid(maze, Around(s, West)) then Err(OffGrid(Around(s, West)))
    else
      AllAround(maze, s);
      var conns := Connections(maze, s);
      ConnectionsResolve(maze, s);
      match StartChar(conns)
      case None => Err(Unresolved)
      case Some(ch) => Ok((ch, conns[0], conns[1]))
  }

  /** The four neighbours checked one by one are all the neighbours. */
  lemma {:induction false} AllAround(maze: Grid<char>, s: Coords)
    requires InGrid(maze, Around(s, North)) && InGrid(maze, Around(s, South))
    requires InGrid(maze, Around(s, East)) && InGrid(maze, Around(s, West))
    ensures forall d :: InGrid(maze, Around(s, d))
  {
    forall d ensures InGrid(maze, Around(s, d)) { match d case _ => }
  }

  /**
   * Every list of two sides `init_dataframes` can build is one of the six
   * of the if-chain, and its entries come in append order.
   */
  lemma {:induction false} ConnectionsResolve(maze: Grid<char>, s: Coords)
    requires forall d :: InGrid(maze, Around(s, d))
    ensures var conns := Connections(maze, s);
      (StartChar(conns).Some? <==> |conns| == 2) &&
      (|conns| == 2 ==> conns[0] != conns[1] && Rank(conns[0]) < Rank(conns[1]))
  {
    var n, so, e, w := PyConnected(maze, s, North), PyConnected(maze, s, South),
                       PyConnected(maze, s, East), PyConnected(maze, s, West);
    assert Connections(maze, s) == Flagged(n, so, e, w);
    FlagsResolve(n, so, e, w);
  }

  /** The sides appended for the four flags, in the order of the appends. */
  function Flagged(n: bool, s: bool, e: bool, w: bool): seq<Direction>
  {
    (if n then [North] else []) + (if s then [South] else []) + (if e then [East] else []) + (if w then [West] else [])
  }

  /** Exactly the two-side lists get a char, and their sides come in append order. */
  lemma {:induction false} FlagsResolve(n: bool, s: bool, e: bool, w: bool)
    ensures StartChar(Flagged(n, s, e, w)).Some? <==> |Flagged(n, s, e, w)| == 2
    ensures |Flagged(n, s, e, w)| == 2 ==>
      Flagged(n, s, e, w)[0] != Flagged(n, s, e, w)[1] && Rank(Flagged(n, s, e, w)[0]) < Rank(Flagged(n, s, e, w)[1])
  {
    if n {
      if s {
        if e { assert |Flagged(n, s, e, w)| >= 3; }
        else if w { assert Flagged(n, s, e, w) == [North, South, West]; }
        else { assert Flagged(n, s, e, w) == [North, South]; }
      } else if e {
        if w { assert Flagged(n, s, e, w) == [North, East, West]; }
        else { assert Flagged(n, s, e, w) == [North, East]; }
      } else if w {
        assert Flagged(n, s, e, w) == [North, West];
      } else {
        assert Flagged(n, s, e, w) == [North];
      }
    } else if s {
      if e {
        if w { assert Flagged(n, s, e, w) == [South, East, West]; }
        else { assert Flagged(n, s, e, w) == [South, East]; }
      } else if w {
        assert Flagged(n, s, e, w) == [South, West];
      } else {
        assert Flagged(n, s, e, w) == [South];
      }
    } else if e {
      if w { assert Flagged(n, s, e, w) == [East, West]; }
      else { assert Flagged(n, s, e, w) == [East]; }
    } else if w {
      assert Flagged(n, s, e, w) == [West];
    } else {
      assert Flagged(n, s, e, w) == [];
    }
  }

  /** `find_maze_start` has one answer: two first starts are the same tile. */
  lemma {:induction false} FirstStartUnique(maze: Grid<char>, s: Coords, t: Coords)
    requires IsFirstStart(maze, s) && IsFirstStart(maze, t)
    ensures s == t
  {
  }

  /**
   * `init_dataframes`: the start found by `find_maze_start` gets distance
   * 0, the start's char is resolved from its connected neighbours, and
   * both of those get distance 1.  Returns the start and the two
   * connected neighbours.
   */
  method InitDataframes(maze: Grid<char>, dist: Frame) returns (r: Result<(Coords, Coords, Coords), Error>, maze': Grid<char>, dist': Frame)
    requires Rect(maze) && Labels(dist, maze)
    ensures r == Err(NoStart) <==> forall c :: InGrid(maze, c) ==> maze[c.y][c.x] != 'S'
    ensures r.Ok? ==> var (s, a, b) := r.value;
      IsFirstStart(maze, s) && StartAt(maze, s).Ok? &&
      var (ch, d1, d2) := StartAt(maze, s).value;
      a == Around(s, d1) && b == Around(s, d2) && InGrid(maze, a) && InGrid(maze, b) &&
      maze' == Set(maze, s, ch) && dist' == dist[s := 0][a := 1][b := 1]
    ensures r.Err? && r.error != NoStart ==> exists s :: IsFirstStart(maze, s) && StartAt(maze, s) == Err(r.error)
  {
    maze', dist' := maze, dist;
    var start := FindMazeStart(maze);
    if start.None? { return Err(NoStart), maze', dist'; }
    var s := start.value;
    assert IsFirstStart(maze, s);
    dist' := dist'[s := 0];
    var resolved := StartAt(maze, s);
    if resolved.Err? { return Err(resolved.error), maze', dist'; }
    var (start_char, d1, d2) := resolved.value;
    maze' := Set(maze', s, start_char);
    var a, b := Around(s, d1), Around(s, d2);
    dist' := dist'[a := 1];
    dist' := dist'[b := 1];
    r := Ok((s, a, b));
  }

  /**
   * `get_next_coordinates`: the move vector current - previous must be
   * one of the two the pipe char accepts; the result is (current, next).
   * The unit vector `vect` is written as the direction it points along.
   */
  function GetNextCoordinates(ch: char, previous: Coords, current: Coords): (r: Result<(Coords, Coords), Error>)
    ensures r.Ok? ==> r.value.0 == current
    ensures r.Err? ==> r.error == BadMove(ch, Sub(current, previous))
  {
    var v := Sub(current, previous);
    var vect :=
      if ch == '|' then (if v == Coords(0, 1) then Some(South) else if v == Coords(0, -1) then Some(North) else None)
      else if ch == '-' then (if v == Coords(1, 0) then Some(East) else if v == Coords(-1, 0) then Some(West) else None)
      else if ch == 'L' then (if v == Coords(0, 1) then Some(East) else if v == Coords(-1, 0) then Some(North) else None)
      else if ch == 'J' then (if v == Coords(0, 1) then Some(West) else if v == Coords(1, 0) then Some(North) else None)
      else if ch == '7' then (if v == Coords(1, 0) then Some(South) else if v == Coords(0, -1) then Some(West) else None)
      else if ch == 'F' then (if v == Coords(0, -1) then Some(East) else if v == Coords(-1, 0) then Some(South) else None)
      else None;
    match vect
    case None => Err(BadMove(ch, v))
    case Some(o) => Ok((current, Add(current, Vec(o))))
  }

  /**
   * An accepted move was a unit step, continues with a unit step and
   * never turns back; only the six pipe chars accept anything.
   */
  lemma {:induction false} NextCoordinatesMove(ch: char, previous: Coords, current: Coords)
    ensures var r := GetNextCoordinates(ch, previous, current);
      (r.Ok? ==> Heading(Sub(current, previous)).Some? && Heading(Sub(r.value.1, current)).Some? &&
                 r.value.1 != previous) &&
      (ch !in "|-LJ7F" ==> r.Err?)
  {
  }

  /**
   * The Python table is the Rust one: for every pipe char, a move is
   * accepted exactly when `get_next_coords` of the shape accepts it, and
   * it leads to the same tile.
   */
  lemma {:induction false} SameTableAsRust(ch: char, previous: Coords, current: Coords)
    requires TileOfChar(ch).Some?
    ensures var py := GetNextCoordinates(ch, previous, current);
      var rs := NextCoords(TileOfChar(ch).value, current, previous);
      (py.Ok? <==> rs.Ok?) && (py.Ok? ==> py.value.1 == rs.value)
  {
    var v := Sub(current, previous);
    if Heading(v).Some? {
      assert v == Vec(Heading(v).value);
    }
  }

  /**
   * One move of an agent: the char under it is read (the label must
   * exist), the move is taken, and the tile reached must be in the frame
   * for its distance to be written.
   */
  function AgentStep(maze: Grid<char>, w: Walker): (r: Result<Walker, Error>)
    ensures r.Ok? ==> r.value.last == w.current && InGrid(maze, r.value.current) && InGrid(maze, w.current)
    ensures r.Err? ==> r.error.OffGrid? || r.error.BadMove?
  {
    if !InGrid(maze, w.current) then Err(OffGrid(w.current))
    else match GetNextCoordinates(maze[w.current.y][w.current.x], w.last, w.current)
      case Err(e) => Err(e)
      case Ok((p, n)) => if InGrid(maze, n) then Ok(Walker(p, n)) else Err(OffGrid(n))
  }

  function AgentRun(maze: Grid<char>, w: Walker, n: nat): (r: Result<Walker, Error>)
    ensures r.Ok? && n > 0 ==> InGrid(maze, r.value.current)
  {
    if n == 0 then Ok(w)
    else match AgentRun(maze, w, n - 1)
      case Err(e) => Err(e)
      case Ok(v) => AgentStep(maze, v)
  }

  /** Both agents have made n successful moves. */
  predicate BothWalk(maze: Grid<char>, w1: Walker, w2: Walker, n: nat) {
    AgentRun(maze, w1, n).Ok? && AgentRun(maze, w2, n).Ok?
  }

  /** The agents have not met after any of the rounds 1 .. n. */
  predicate Apart(maze: Grid<char>, w1: Walker, w2: Walker, n: nat) {
    n == 0 ||
    (Apart(maze, w1, w2, n - 1) && BothWalk(maze, w1, w2, n) &&
     AgentRun(maze, w1, n).value.current != AgentRun(maze, w2, n).value.current)
  }

  /** A run that made n moves made each of the first k. */
  lemma {:induction false} RunPrefix(maze: Grid<char>, w: Walker, n: nat, k: nat)
    requires AgentRun(maze, w, n).Ok? && k <= n
    ensures AgentRun(maze, w, k).Ok?
    decreases n
  {
    if k < n { RunPrefix(maze, w, n - 1, k); }
  }

  /** Both agents that made n moves made n - 1, and stand in the grid after them. */
  lemma BothPrefix(maze: Grid<char>, w1: Walker, w2: Walker, n: nat)
    requires BothWalk(maze, w1, w2, n) && n > 0
    ensures BothWalk(maze, w1, w2, n - 1)
    ensures InGrid(maze, AgentRun(maze, w1, n).value.current) && InGrid(maze, AgentRun(maze, w2, n).value.current)
  {
    RunPrefix(maze, w1, n, n - 1);
    RunPrefix(maze, w2, n, n - 1);
  }

  /** Apart spelled out: after each round 1 .. n both agents moved and stand on different tiles. */
  lemma {:induction false} ApartEvery(maze: Grid<char>, w1: Walker, w2: Walker, n: nat, k: nat)
    requires Apart(maze, w1, w2, n) && 1 <= k <= n
    ensures BothWalk(maze, w1, w2, k) && AgentRun(maze, w1, k).value.current != AgentRun(maze, w2, k).value.current
    decreases n
  {
    if k < n { ApartEvery(maze, w1, w2, n - 1, k); }
  }

  /** The dist frame after n rounds: round k writes k + 1 under agent 1, then under agent 2. */
  function DistAfter(maze: Grid<char>, dist: Frame, w1: Walker, w2: Walker, n: nat): (r: Frame)
    requires BothWalk(maze, w1, w2, n)
    ensures n >= 1 ==> AgentRun(maze, w2, n).value.current in r && r[AgentRun(maze, w2, n).value.current] == n + 1
  {
    if n == 0 then dist
    else
      var d := DistAfter(maze, dist, w1, w2, n - 1);
      d[AgentRun(maze, w1, n).value.current := n + 1][AgentRun(maze, w2, n).value.current := n + 1]
  }

  /** The rounds write only under labels of the frame, so the labels stay. */
  lemma {:induction false} DistAfterLabels(maze: Grid<char>, dist: Frame, w1: Walker, w2: Walker, n: nat)
    requires BothWalk(maze, w1, w2, n) && Labels(dist, maze)
    ensures Labels(DistAfter(maze, dist, w1, w2, n), maze)
  {
    if n > 0 {
      BothPrefix(maze, w1, w2, n);
      DistAfterLabels(maze, dist, w1, w2, n - 1);
      var d := DistAfter(maze, dist, w1, w2, n - 1);
      var c1, c2 := AgentRun(maze, w1, n).value.current, AgentRun(maze, w2, n).value.current;
      WriteKeepsLabels(d, maze, c1, n + 1);
      WriteKeepsLabels(d[c1 := n + 1], maze, c2, n + 1);
    }
  }

  /** The state of `process_dataframes`' loop after n rounds. */
  ghost predicate Agents(maze: Grid<char>, dist: Frame, w1: Walker, w2: Walker, n: nat,
                         a1: Walker, a2: Walker, d: Frame) {
    AgentRun(maze, w1, n) == Ok(a1) && AgentRun(maze, w2, n) == Ok(a2) &&
    d == DistAfter(maze, dist, w1, w2, n)
  }

  /** A round in which both agents move extends the state by one round. */
  lemma {:induction false} RoundStep(maze: Grid<char>, dist: Frame, w1: Walker, w2: Walker, n: nat,
                                     a1: Walker, a2: Walker, d: Frame, s1: Walker, s2: Walker, distance: int)
    requires Agents(maze, dist, w1, w2, n, a1, a2, d) && distance == n + 2
    requires AgentStep(maze, a1) == Ok(s1) && AgentStep(maze, a2) == Ok(s2)
    ensures Agents(maze, dist, w1, w2, n + 1, s1, s2, d[s1.current := distance][s2.current := distance])
  {
    RunStep(maze, w1, n, a1, s1);
    RunStep(maze, w2, n, a2, s2);
  }

  /** A run of n moves followed by one more step is the run of n + 1 moves. */
  lemma RunStep(maze: Grid<char>, w: Walker, n: nat, a: Walker, s: Walker)
    requires AgentRun(maze, w, n) == Ok(a) && AgentStep(maze, a) == Ok(s)
    ensures AgentRun(maze, w, n + 1) == Ok(s)
  {
  }

  /** A round in which either agent cannot move is the round the walk gets stuck. */
  lemma {:induction false} RoundFails(maze: Grid<char>, dist: Frame, w1: Walker, w2: Walker, n: nat,
                                      a1: Walker, a2: Walker, d: Frame)
    requires Agents(maze, dist, w1, w2, n, a1, a2, d) && Apart(maze, w1, w2, n)
    requires AgentStep(maze, a1).Err? || AgentStep(maze, a2).Err?
    ensures StuckAt(maze, w1, w2, n + 1)
  {
  }

  /** Agents apart after n rounds that do not meet in round n + 1 are apart after n + 1 rounds. */
  lemma {:induction false} ApartStep(maze: Grid<char>, w1: Walker, w2: Walker, n: nat, s1: Walker, s2: Walker)
    requires Apart(maze, w1, w2, n)
    requires AgentRun(maze, w1, n + 1) == Ok(s1) && AgentRun(maze, w2, n + 1) == Ok(s2) && s1.current != s2.current
    ensures Apart(maze, w1, w2, n + 1)
  {
    assert BothWalk(maze, w1, w2, n + 1);
  }

  /** The agents were apart after every earlier round, and round n fails. */
  ghost predicate StuckAt(maze: Grid<char>, w1: Walker, w2: Walker, n: nat) {
    1 <= n && Apart(maze, w1, w2, n - 1) && !BothWalk(maze, w1, w2, n)
  }

  /**
   * The loop ends with `distance`: the agents first stand on the same
   * tile after round distance - 1, and d is the dist frame then.
   */
  ghost predicate MeetAt(maze: Grid<char>, dist: Frame, w1: Walker, w2: Walker, distance: int, d: Frame) {
    var n := distance - 1;
    n >= 1 && BothWalk(maze, w1, w2, n) && Apart(maze, w1, w2, n - 1) &&
    AgentRun(maze, w1, n).value.current == AgentRun(maze, w2, n).value.current &&
    d == DistAfter(maze, dist, w1, w2, n)
  }

  /** The loop state when the agents meet, with `distance` one more than the rounds. */
  lemma {:induction false} MeetFromAgents(maze: Grid<char>, dist: Frame, w1: Walker, w2: Walker, n: nat,
                                          a1: Walker, a2: Walker, d: Frame, distance: int)
    requires Agents(maze, dist, w1, w2, n, a1, a2, d) && distance == n + 1
    requires n >= 1 && Apart(maze, w1, w2, n - 1) && a1.current == a2.current
    ensures MeetAt(maze, dist, w1, w2, distance, d)
  {
  }

  /** The invariant of `process_dataframes`' loop after n rounds, `closed` being `loop_closed`. */
  ghost predicate Looping(maze: Grid<char>, dist: Frame, w1: Walker, w2: Walker, n: nat,
                          a1: Walker, a2: Walker, d: Frame, closed: bool) {
    Agents(maze, dist, w1, w2, n, a1, a2, d) &&
    (if closed then n >= 1 && Apart(maze, w1, w2, n - 1) && a1.current == a2.current
     else Apart(maze, w1, w2, n))
  }

  /** A round in which both agents move keeps the invariant, closing the loop when they meet. */
  lemma {:induction false} LoopRound(maze: Grid<char>, dist: Frame, w1: Walker, w2: Walker, n: nat,
                                     a1: Walker, a2: Walker, d: Frame, s1: Walker, s2: Walker, distance: int)
    requires Looping(maze, dist, w1, w2, n, a1, a2, d, false) && distance == n + 2
    requires AgentStep(maze, a1) == Ok(s1) && AgentStep(maze, a2) == Ok(s2)
    ensures Looping(maze, dist, w1, w2, n + 1, s1, s2, d[s1.current := distance][s2.current := distance],
                    s1.current == s2.current)
  {
    RoundStep(maze, dist, w1, w2, n, a1, a2, d, s1, s2, distance);
    if s1.current != s2.current {
      ApartStep(maze, w1, w2, n, s1, s2);
    }
  }

  /** Before the first round the agents stand where they start, apart, and the frame is untouched. */
  lemma LoopStarts(maze: Grid<char>, dist: Frame, w1: Walker, w2: Walker)
    ensures Looping(maze, dist, w1, w2, 0, w1, w2, dist, false)
  {
  }

  /** A closed loop has met, with `distance` one more than the rounds. */
  lemma {:induction false} LoopEnds(maze: Grid<char>, dist: Frame, w1: Walker, w2: Walker, n: nat,
                                    a1: Walker, a2: Walker, d: Frame, distance: int)
    requires Looping(maze, dist, w1, w2, n, a1, a2, d, true) && distance == n + 1
    ensures MeetAt(maze, dist, w1, w2, distance, d)
  {
    MeetFromAgents(maze, dist, w1, w2, n, a1, a2, d, distance);
  }

  /**
   * One round of `process_dataframes`' loop: agent 1 moves and `distance`
   * is written under it, then agent 2 moves and the same is written under
   * it.  A failing move of agent 2 leaves agent 1's write in place.
   */
  method Round(maze: Grid<char>, ghost dist: Frame, ghost w1: Walker, ghost w2: Walker, ghost n: nat,
               d: Frame, a1: Walker, a2: Walker, distance: int) returns (r: Result<(Walker, Walker), Error>, d': Frame)
    requires Looping(maze, dist, w1, w2, n, a1, a2, d, false) && distance == n + 2
    ensures r.Ok? ==> Looping(maze, dist, w1, w2, n + 1, r.value.0, r.value.1, d', r.value.0.current == r.value.1.current)
    ensures r.Err? ==> StuckAt(maze, w1, w2, n + 1) && (r.error.OffGrid? || r.error.BadMove?)
  {
    d' := d;
    var step1 := AgentStep(maze, a1);
    if step1.Err? {
      RoundFails(maze, dist, w1, w2, n, a1, a2, d);
      return Err(step1.error), d';
    }
    var navig_agent_1 := step1.value;
    d' := d'[navig_agent_1.current := distance];
    var step2 := AgentStep(maze, a2);
    if step2.Err? {
      RoundFails(maze, dist, w1, w2, n, a1, a2, d);
      return Err(step2.error), d';
    }
    var navig_agent_2 := step2.value;
    d' := d'[navig_agent_2.current := distance];
    LoopRound(maze, dist, w1, w2, n, a1, a2, d, navig_agent_1, navig_agent_2, distance);
    r := Ok((navig_agent_1, navig_agent_2));
  }

  /**
   * The loop of `process_dataframes` from agents w1 and w2: both move in
   * lockstep, `distance` grows by one per round and is written at both
   * new positions, and the loop ends at the first round after which the
   * two agents stand on the same tile, returning `distance`.  At most
   * `fuel` rounds are run.
   */
  method WalkAgents(maze: Grid<char>, dist: Frame, w1: Walker, w2: Walker, fuel: nat) returns (r: Result<int, Error>, dist': Frame, ghost stuck: nat)
    ensures r.Ok? ==> MeetAt(maze, dist, w1, w2, r.value, dist')
    ensures r.Err? && r.error != OutOfFuel ==> StuckAt(maze, w1, w2, stuck)
    ensures r.Err? ==> r.error.OutOfFuel? || r.error.OffGrid? || r.error.BadMove?
  {
    var navig_agent_1, navig_agent_2 := w1, w2;
    var loop_closed := false;
    var distance := 1;
    var rounds: nat := 0;
    dist' := dist;
    stuck := 0;
    LoopStarts(maze, dist, w1, w2);
    while !loop_closed && rounds < fuel
      invariant distance == rounds + 1 && rounds <= fuel
      invariant Looping(maze, dist, w1, w2, rounds, navig_agent_1, navig_agent_2, dist', loop_closed)
      decreases fuel - rounds
    {
      distance := distance + 1;
      var moved;
      moved, dist' := Round(maze, dist, w1, w2, rounds, dist', navig_agent_1, navig_agent_2, distance);
      if moved.Err? { return Err(moved.error), dist', rounds + 1; }
      navig_agent_1, navig_agent_2 := moved.value.0, moved.value.1;
      loop_closed := navig_agent_1.current == navig_agent_2.current;
      rounds := rounds + 1;
    }
    if !loop_closed { return Err(OutOfFuel), dist', 0; }
    LoopEnds(maze, dist, w1, w2, rounds, navig_agent_1, navig_agent_2, dist', distance);
    r := Ok(distance);
  }


  /**
   * `process_dataframes`: `init_dataframes`, then both agents leave the
   * start towards its two connected neighbours, which are at distance 1.
   */
  method ProcessDataframes(maze: Grid<char>, dist: Frame, fuel: nat) returns (r: Result<int, Error>, maze': Grid<char>, dist': Frame, ghost s: Coords)
    requires Rect(maze) && Labels(dist, maze)
    ensures r == Err(NoStart) <==> forall c :: InGrid(maze, c) ==> maze[c.y][c.x] != 'S'
    ensures r.Ok? ==> (IsFirstStart(maze, s) && StartAt(maze, s).Ok? &&
      var (ch, d1, d2) := StartAt(maze, s).value;
      InGrid(maze, Around(s, d1)) && InGrid(maze, Around(s, d2)) && maze' == Set(maze, s, ch) &&
      MeetAt(maze', dist[s := 0][Around(s, d1) := 1][Around(s, d2) := 1],
             Walker(s, Around(s, d1)), Walker(s, Around(s, d2)), r.value, dist'))
  {
    var init;
    init, maze', dist' := InitDataframes(maze, dist);
    s := Coords(0, 0);
    if init.Err? { return Err(init.error), maze', dist', s; }
    var (start_coords, a, b) := init.value;
    s := start_coords;
    ghost var stuck;
    r, dist', stuck := WalkAgents(maze', dist', Walker(start_coords, a), Walker(start_coords, b), fuel);
  }

}
