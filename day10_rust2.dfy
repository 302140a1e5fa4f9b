/**
 * rust/d10_2: the pipe maze with tile statuses.  The map is parsed into
 * tiles, the start tile's shape is inferred from its neighbours, and the
 * loop is walked from the start, stamping every tile stepped onto `Loop`.
 * The `&mut HashMap` the Rust functions update is a map passed in and
 * returned updated.
 */
module Day10Rust2 {
  import opened Wrappers
  import opened PipeMaze

  datatype TileStatus = Start | Loop | In | Out | Undefined

  datatype Tile = Tile(coords: Coords, tile_type: TileType, status: TileStatus)

  type TileMap = map<Coords, Tile>

  /** Every tile is stored under its own coordinates, as `get_input` builds the map. */
  predicate WellFormed(tiles: TileMap) { forall k :: k in tiles ==> tiles[k].coords == k }

  function TypesOf(tiles: TileMap): map<Coords, TileType> {
    map k | k in tiles :: tiles[k].tile_type
  }

  /** The tile the parse loop stores for a map character. */
  function ParsedTile(c: Coords, ch: char): Tile
    requires IsMapChar(ch)
  {
    if ch == 'S' then Tile(c, Unknown, Start) else Tile(c, TileOfChar(ch).value, Undefined)
  }

  /** The map holds exactly one tile per character of the text, the one the character stands for. */
  ghost predicate DescribesGrid(tiles: TileMap, lines: seq<string>) {
    (forall c :: c in tiles <==> InGrid(lines, c)) &&
    forall c :: c in tiles ==> IsMapChar(lines[c.y][c.x]) && tiles[c] == ParsedTile(c, lines[c.y][c.x])
  }

  /** The map holds the tiles of every character before p, each the one the character stands for. */
  ghost predicate ParsedBefore(tiles: TileMap, lines: seq<string>, p: Coords) {
    (forall c :: c in tiles <==> InGrid(lines, c) && Before(c, p)) &&
    forall c :: c in tiles ==> IsMapChar(lines[c.y][c.x]) && tiles[c] == ParsedTile(c, lines[c.y][c.x])
  }

  /** Parsing one more character extends the parsed region by that character. */
  lemma {:induction false} ParsedStep(tiles: TileMap, lines: seq<string>, x: int, y: int)
    requires InGrid(lines, Coords(x, y)) && IsMapChar(lines[y][x]) && ParsedBefore(tiles, lines, Coords(x, y))
    ensures ParsedBefore(tiles[Coords(x, y) := ParsedTile(Coords(x, y), lines[y][x])], lines, Coords(x + 1, y))
  {
    forall c | InGrid(lines, c) ensures Before(c, Coords(x + 1, y)) <==> Before(c, Coords(x, y)) || c == Coords(x, y) { }
  }

  /** The end of line y is the start of line y + 1 for the parsed region. */
  lemma {:induction false} ParsedRow(tiles: TileMap, lines: seq<string>, y: int)
    requires 0 <= y < |lines| && ParsedBefore(tiles, lines, Coords(|lines[y]|, y))
    ensures ParsedBefore(tiles, lines, Coords(0, y + 1))
  {
    forall c | InGrid(lines, c) ensures Before(c, Coords(|lines[y]|, y)) <==> Before(c, Coords(0, y + 1)) { }
  }

  /**
   * The char-to-tile loop of `get_input` over the lines of the file: x
   * restarts at 0 on each line and y counts lines; 'S' is an Unknown tile
   * with status Start and moves `start_coords`; any other unlisted char fails.
   */
  method ParseTiles(lines: seq<string>) returns (r: Result<(TileMap, Coords), Failure>)
    ensures r.Err? <==> exists c :: InGrid(lines, c) && !IsMapChar(lines[c.y][c.x])
    ensures r.Err? ==> r.error.UnknownChar? && !IsMapChar(r.error.c)
    ensures r.Ok? ==> DescribesGrid(r.value.0, lines) && WellFormed(r.value.0)
    ensures r.Ok? ==> LastStartBefore(lines, Coords(0, |lines|), r.value.1)
  {
    var tiles: TileMap := map[];
    var start := Coords(0, 0);
    var y := 0;
    while y < |lines|
      invariant 0 <= y <= |lines|
      invariant ParsedBefore(tiles, lines, Coords(0, y))
      invariant LastStartBefore(lines, Coords(0, y), start)
    {
      var row := ParseRow(lines, y, tiles, start);
      if row.Err? {
        var x :| 0 <= x < |lines[y]| && !IsMapChar(lines[y][x]);
        assert InGrid(lines, Coords(x, y));
        return Err(row.error);
      }
      tiles, start := row.value.0, row.value.1;
      y := y + 1;
    }
    r := Ok((tiles, start));
  }

  /** One iteration of the outer parse loop: the characters of line y, left to right. */
  method ParseRow(lines: seq<string>, y: nat, tiles0: TileMap, start0: Coords) returns (r: Result<(TileMap, Coords), Failure>)
    requires y < |lines|
    requires ParsedBefore(tiles0, lines, Coords(0, y)) && LastStartBefore(lines, Coords(0, y), start0)
    ensures r.Err? <==> exists x :: 0 <= x < |lines[y]| && !IsMapChar(lines[y][x])
    ensures r.Err? ==> r.error.UnknownChar? && !IsMapChar(r.error.c)
    ensures r.Ok? ==> ParsedBefore(r.value.0, lines, Coords(0, y + 1)) && LastStartBefore(lines, Coords(0, y + 1), r.value.1)
  {
    var tiles, start := tiles0, start0;
    var line := lines[y];
    var x := 0;
    while x < |line|
      invariant 0 <= x <= |line|
      invariant ParsedBefore(tiles, lines, Coords(x, y))
      invariant LastStartBefore(lines, Coords(x, y), start)
    {
      var ch := line[x];
      var here := Coords(x, y);
      assert InGrid(lines, here);
      if ch == 'S' {
        ParsedStep(tiles, lines, x, y);
        StartScanStep(lines, x, y, start);
        tiles := tiles[here := Tile(here, Unknown, Start)];
        start := here;
      } else if TileOfChar(ch).Some? {
        ParsedStep(tiles, lines, x, y);
        StartScanStep(lines, x, y, start);
        tiles := tiles[here := Tile(here, TileOfChar(ch).value, Undefined)];
      } else {
        return Err(UnknownChar(ch));
      }
      x := x + 1;
    }
    forall i | 0 <= i < |line| ensures IsMapChar(lines[y][i]) {
      assert InGrid(lines, Coords(i, y)) && Coords(i, y) in tiles;
    }
    ParsedRow(tiles, lines, y);
    StartScanRow(lines, y, start);
    r := Ok((tiles, start));
  }

  /** The tile one step from `start` in physical direction d. */
  function Neighbour(start: Coords, d: Direction): Coords { Add(start, Vec(d)) }

  /** The start tile and its four neighbours exist, as the unwraps of `init_start_tile` demand. */
  predicate AllPresent(tiles: TileMap, start: Coords) {
    start in tiles && forall d :: Neighbour(start, d) in tiles
  }

  /** The neighbour in physical direction d accepts a move from the start tile into it. */
  predicate Connected(tiles: TileMap, start: Coords, d: Direction)
    requires AllPresent(tiles, start)
  {
    var n := tiles[Neighbour(start, d)];
    NextCoords(n.tile_type, n.coords, tiles[start].coords).Ok?
  }

  function SidesOf(tiles: TileMap, start: Coords): (s: Sides)
    requires AllPresent(tiles, start)
    ensures forall d :: Side(s, d) == Connected(tiles, start, d)
  {
    Sides(Connected(tiles, start, North), Connected(tiles, start, South), Connected(tiles, start, West), Connected(tiles, start, East))
  }

  /**
   * `init_start_tile`: a missing neighbour is the failed unwrap, looked up
   * in the source's order; otherwise the start tile's shape becomes the
   * one ResolveStart picks from the neighbours that accept a move, and
   * nothing else in the map changes.
   */
  method InitStartTile(tiles: TileMap, start: Coords) returns (r: Result<TileMap, Failure>)
    ensures !AllPresent(tiles, start) ==> r.Err? && r.error.MissingTile?
    ensures AllPresent(tiles, start) ==> (r.Ok? <==> CountSides(SidesOf(tiles, start)) >= 2)
    ensures AllPresent(tiles, start) && r.Err? ==> r.error == StartUnresolved
    ensures r.Ok? ==> (AllPresent(tiles, start) &&
                       r.value == tiles[start := tiles[start].(tile_type := ResolveStart(SidesOf(tiles, start)).value)])
  {
    var northC, southC, westC, eastC := Neighbour(start, South), Neighbour(start, North), Neighbour(start, East), Neighbour(start, West);
    if northC !in tiles { return Err(MissingTile(northC)); }
    if southC !in tiles { return Err(MissingTile(southC)); }
    if westC !in tiles { return Err(MissingTile(westC)); }
    if eastC !in tiles { return Err(MissingTile(eastC)); }
    if start !in tiles { return Err(MissingTile(start)); }
    assert forall d :: Neighbour(start, d) in tiles by {
      forall d ensures Neighbour(start, d) in tiles { match d case _ => }
    }
    r := ConnectStart(tiles, start);
  }

  /**
   * The rest of `init_start_tile` once every unwrap has succeeded: each
   * neighbour is asked whether it accepts a move from the start tile, and
   * the start tile takes the shape ResolveStart picks from the answers.
   */
  method ConnectStart(tiles: TileMap, start: Coords) returns (r: Result<TileMap, Failure>)
    requires AllPresent(tiles, start)
    ensures r.Ok? <==> CountSides(SidesOf(tiles, start)) >= 2
    ensures r.Err? ==> r.error == StartUnresolved
    ensures r.Ok? ==> r.value == tiles[start := tiles[start].(tile_type := ResolveStart(SidesOf(tiles, start)).value)]
  {
    var start_tile := tiles[start];
    // Connected(tiles, start, d) is `get_next_coords` of the neighbour in direction d, towards the start tile.
    var north_connected := Connected(tiles, start, South);
    var south_connected := Connected(tiles, start, North);
    var west_connected := Connected(tiles, start, East);
    var east_connected := Connected(tiles, start, West);
    var sides := Sides(south_connected, north_connected, east_connected, west_connected);
    match ResolveStart(sides)
    case None => return Err(StartUnresolved);
    case Some(shape) => r := Ok(tiles[start := start_tile.(tile_type := shape)]);
  }

  /**
   * What `init_start_tile` makes of the parsed map `tiles0` with start `s0`:
   * a failed unwrap when a neighbour is missing, otherwise the start tile
   * shaped by ResolveStart, or the failure when fewer than two sides accept.
   */
  ghost predicate StartOutcome(tiles0: TileMap, s0: Coords, r: Result<(TileMap, Coords), Failure>) {
    (!AllPresent(tiles0, s0) ==> r.Err? && r.error.MissingTile?) &&
    (AllPresent(tiles0, s0) ==>
      (r.Ok? <==> CountSides(SidesOf(tiles0, s0)) >= 2) &&
      (r.Err? ==> r.error == StartUnresolved) &&
      (r.Ok? ==> r.value == (tiles0[s0 := tiles0[s0].(tile_type := ResolveStart(SidesOf(tiles0, s0)).value)], s0)))
  }

  /** The outcome for the map the parse built is the outcome for every description of the text, since there is only one. */
  lemma OutcomeFor(lines: seq<string>, tiles: TileMap, start: Coords, r: Result<(TileMap, Coords), Failure>)
    requires DescribesGrid(tiles, lines) && LastStartBefore(lines, Coords(0, |lines|), start) && StartOutcome(tiles, start, r)
    ensures forall tiles0, s0 :: DescribesGrid(tiles0, lines) && LastStartBefore(lines, Coords(0, |lines|), s0) ==> StartOutcome(tiles0, s0, r)
  {
    forall tiles0, s0 | DescribesGrid(tiles0, lines) && LastStartBefore(lines, Coords(0, |lines|), s0)
      ensures StartOutcome(tiles0, s0, r)
    {
      ParsedUnique(tiles0, tiles, lines);
      LastStartUnique(lines, Coords(0, |lines|), s0, start);
    }
  }

  /** Two maps that both hold the tiles of the whole text are the same map: the parse is determined by the text. */
  lemma ParsedUnique(t1: TileMap, t2: TileMap, lines: seq<string>)
    requires DescribesGrid(t1, lines) && DescribesGrid(t2, lines)
    ensures t1 == t2
  {
    assert forall c :: c in t1 <==> c in t2;
  }

  /**
   * `get_input` after the file read: the parse loop, then the start tile's
   * shape; a failure of either is the result.
   */
  method GetInput(lines: seq<string>) returns (r: Result<(TileMap, Coords), Failure>)
    ensures !MapText(lines) <==> r.Err? && r.error.UnknownChar?
    ensures forall tiles0, s0 :: DescribesGrid(tiles0, lines) && LastStartBefore(lines, Coords(0, |lines|), s0) ==> StartOutcome(tiles0, s0, r)
    ensures r.Ok? ==> WellFormed(r.value.0) && LastStartBefore(lines, Coords(0, |lines|), r.value.1)
    ensures r.Ok? ==> var (tiles, start) := r.value;
      AllPresent(tiles, start) && IsPipe(tiles[start].tile_type) && tiles[start].status == Start &&
      InGrid(lines, start) && lines[start.y][start.x] == 'S' &&
      (forall c :: c in tiles <==> InGrid(lines, c)) &&
      forall c :: c in tiles && c != start ==> tiles[c] == ParsedTile(c, lines[c.y][c.x])
  {
    var parsed := ParseTiles(lines);
    if parsed.Err? { return Err(parsed.error); }
    var (tiles, start) := parsed.value;
    var init := InitStartTile(tiles, start);
    if init.Err? {
      r := Err(init.error);
    } else {
      StartShaped(tiles, lines, start, ResolveStart(SidesOf(tiles, start)).value);
      r := Ok((init.value, start));
    }
    OutcomeFor(lines, tiles, start, r);
  }

  /**
   * Giving the start tile of a parsed map a pipe shape: the start, whose
   * neighbours all exist, is the 'S' the scan met last, and every other
   * tile is the one its character stands for.
   */
  lemma StartShaped(tiles: TileMap, lines: seq<string>, start: Coords, shape: TileType)
    requires DescribesGrid(tiles, lines) && WellFormed(tiles)
    requires LastStartBefore(lines, Coords(0, |lines|), start)
    requires AllPresent(tiles, start) && IsPipe(shape)
    ensures var t := tiles[start := tiles[start].(tile_type := shape)];
      WellFormed(t) && AllPresent(t, start) && IsPipe(t[start].tile_type) && t[start].status == Start &&
      InGrid(lines, start) && lines[start.y][start.x] == 'S' &&
      (forall c :: c in t <==> InGrid(lines, c)) &&
      forall c :: c in t && c != start ==> t[c] == ParsedTile(c, lines[c.y][c.x])
  {
    assert Neighbour(start, North) in tiles;
    assert InGrid(lines, start);
  }

  /** The order in which `follow_pipes` probes the start tile's redirections. */
  const ProbeOrder: seq<Direction> := [North, East, South, West]

  /**
   * The offset `follow_pipes` puts `last_tile` at: the redirection of the
   * first probed heading the start shape accepts.
   */
  function FirstOffset(t: TileType): (r: Result<Coords, Failure>)
    ensures r.Ok? <==> IsPipe(t)
    ensures r.Err? ==> r.error == NoStartDirection
    ensures r.Ok? ==> exists k :: (0 <= k < |ProbeOrder| && r == GetPipeRedirection(t, ProbeOrder[k]) &&
                                  forall j :: 0 <= j < k ==> GetPipeRedirection(t, ProbeOrder[j]).Err?)
  {
    assert ProbeOrder[0] == North && ProbeOrder[1] == East && ProbeOrder[2] == South && ProbeOrder[3] == West;
    if GetPipeRedirection(t, North).Ok? then GetPipeRedirection(t, North)
    else if GetPipeRedirection(t, East).Ok? then GetPipeRedirection(t, East)
    else if GetPipeRedirection(t, South).Ok? then GetPipeRedirection(t, South)
    else if GetPipeRedirection(t, West).Ok? then GetPipeRedirection(t, West)
    else Err(NoStartDirection)
  }

  /**
   * The probe picks one arm of the start pipe for `last_tile`, and the
   * first move from there leaves through the other arm.
   */
  lemma {:induction false} FirstStepTakesOtherArm(t: TileType, start: Coords)
    requires IsPipe(t)
    ensures var o := FirstOffset(t).value;
      Heading(o).Some? && HasArm(t, Heading(o).value) &&
      NextCoords(t, start, Add(start, o)).Ok? &&
      var o2 := Sub(NextCoords(t, start, Add(start, o)).value, start);
      Heading(o2).Some? && HasArm(t, Heading(o2).value) && o2 != o
  {
    var o := FirstOffset(t).value;
    assert Sub(Add(start, o), start) == o;
  }

  /** The walker state `follow_pipes` starts from, or the failure before its loop. */
  function StartWalker(tiles: TileMap, start: Coords): (r: Result<Walker, Failure>)
    ensures r.Ok? ==> r.value.current == start && start in tiles && r.value.last in tiles
  {
    if start !in tiles then Err(MissingTile(start))
    else match FirstOffset(tiles[start].tile_type)
      case Err(e) => Err(e)
      case Ok(o) => if Add(start, o) in tiles then Ok(Walker(Add(start, o), start)) else Err(MissingTile(Add(start, o)))
  }

  /**
   * `follow_pipes` without its display: walks from the start until it is
   * back on the start tile, returning the number of moves (at least one).
   * Every tile stepped onto gets status Loop, including the start tile on
   * the last move, and nothing else changes.  A failed move is the result
   * instead.
   */
  method FollowPipes(tiles: TileMap, start: Coords) returns (r: Result<nat, Failure>, m: TileMap)
    requires WellFormed(tiles)
    ensures StartWalker(tiles, start).Err? ==> r == Err(StartWalker(tiles, start).error)
    ensures r.Ok? ==> StartWalker(tiles, start).Ok? && FirstReturn(TypesOf(tiles), StartWalker(tiles, start).value, r.value)
    ensures r.Err? && StartWalker(tiles, start).Ok? ==>
      exists n :: FailsBeforeReturn(TypesOf(tiles), StartWalker(tiles, start).value, n)
    ensures r.Ok? ==> m.Keys == tiles.Keys
    ensures r.Ok? ==> forall k :: k in m ==>
      m[k] == if k in Trail(TypesOf(tiles), StartWalker(tiles, start).value, r.value) then tiles[k].(status := Loop) else tiles[k]
  {
    m := tiles;
    if start !in tiles { return Err(MissingTile(start)), m; }
    var current_tile := tiles[start];
    var offset := FirstOffset(current_tile.tile_type);
    if offset.Err? { return Err(offset.error), m; }
    var lastC := Add(start, offset.value);
    if lastC !in tiles { return Err(MissingTile(lastC)), m; }
    var last_tile := tiles[lastC];
    assert StartWalker(tiles, start) == Ok(Walker(lastC, start));
    r, m := WalkAndStamp(tiles, last_tile, current_tile);
  }

  /** m is tiles with exactly the tiles at `visited` stamped Loop. */
  ghost predicate Stamped(tiles: TileMap, m: TileMap, visited: set<Coords>) {
    m.Keys == tiles.Keys &&
    forall k :: k in m ==> m[k] == if k in visited then tiles[k].(status := Loop) else tiles[k]
  }

  /** Stamping one more tile adds it to the stamped set. */
  lemma {:induction false} StampOne(tiles: TileMap, m: TileMap, visited: set<Coords>, next: Coords)
    requires Stamped(tiles, m, visited) && next in m
    ensures Stamped(tiles, m[next := m[next].(status := Loop)], visited + {next})
  {
  }

  /** A stamped map keeps each tile's coordinates and shape. */
  lemma StampedTile(tiles: TileMap, m: TileMap, visited: set<Coords>, k: Coords)
    requires WellFormed(tiles) && Stamped(tiles, m, visited) && k in tiles
    ensures k in m && m[k].coords == k && m[k].tile_type == tiles[k].tile_type
  {
  }

  /**
   * The state of the loop of `follow_pipes` after the moves recorded in
   * trace: the walk has reached (last, current) without returning to the
   * start tile, and m is the map with the tiles of the trail stamped Loop.
   */
  ghost predicate Walking(tiles: TileMap, w0: Walker, trace: seq<Walker>, last: Tile, current: Tile, m: TileMap) {
    var types := TypesOf(tiles);
    WalkSoFar(types, w0, trace) &&
    Run(types, w0, |trace|) == Ok(Walker(last.coords, current.coords)) &&
    current.coords in tiles && current.tile_type == tiles[current.coords].tile_type &&
    Stamped(tiles, m, Trail(types, w0, |trace|))
  }

  /** One successful move keeps the loop state, one move further on. */
  lemma {:induction false} WalkingStep(tiles: TileMap, w0: Walker, trace: seq<Walker>, last: Tile, current: Tile, m: TileMap, next: Coords)
    requires WellFormed(tiles) && Walking(tiles, w0, trace, last, current, m)
    requires |trace| == 0 || current.coords != w0.current
    requires Step(TypesOf(tiles), Walker(last.coords, current.coords)) == Ok(Walker(current.coords, next))
    ensures next in m && |trace| + 1 <= |States(TypesOf(tiles))|
    ensures var m' := m[next := m[next].(status := Loop)];
      Walking(tiles, w0, trace + [Walker(last.coords, current.coords)], current, m'[next], m')
  {
    var types := TypesOf(tiles);
    var n := |trace|;
    var m' := m[next := m[next].(status := Loop)];
    WalkExtend(types, w0, trace, Walker(last.coords, current.coords));
    TrailStep(types, w0, n, Walker(current.coords, next));
    StampedTile(tiles, m, Trail(types, w0, n), next);
    StampOne(tiles, m, Trail(types, w0, n), next);
    WalkingIntro(tiles, w0, trace + [Walker(last.coords, current.coords)], current, m'[next], m', n + 1);
  }

  /** The loop state from its parts. */
  lemma WalkingIntro(tiles: TileMap, w0: Walker, trace: seq<Walker>, last: Tile, current: Tile, m: TileMap, n: nat)
    requires |trace| == n && WalkSoFar(TypesOf(tiles), w0, trace)
    requires Run(TypesOf(tiles), w0, n) == Ok(Walker(last.coords, current.coords))
    requires current.coords in tiles && current.tile_type == tiles[current.coords].tile_type
    requires Stamped(tiles, m, Trail(TypesOf(tiles), w0, n))
    ensures Walking(tiles, w0, trace, last, current, m)
  {
  }

  /**
   * The loop of `follow_pipes`, from `last_tile` and `current_tile` on.
   * It ends because distinct walker states never step into the same
   * state and there are finitely many of them.
   */
  method WalkAndStamp(tiles: TileMap, last_tile0: Tile, current_tile0: Tile) returns (r: Result<nat, Failure>, m: TileMap)
    requires WellFormed(tiles)
    requires last_tile0.coords in tiles && current_tile0.coords in tiles
    requires current_tile0.tile_type == tiles[current_tile0.coords].tile_type
    ensures var w0 := Walker(last_tile0.coords, current_tile0.coords);
      (r.Ok? ==> FirstReturn(TypesOf(tiles), w0, r.value)) &&
      (r.Err? ==> exists n :: FailsBeforeReturn(TypesOf(tiles), w0, n))
    ensures r.Ok? ==> m.Keys == tiles.Keys
    ensures r.Ok? ==> forall k :: k in m ==>
      m[k] == if k in Trail(TypesOf(tiles), Walker(last_tile0.coords, current_tile0.coords), r.value)
              then tiles[k].(status := Loop) else tiles[k]
  {
    var last_tile, current_tile := last_tile0, current_tile0;
    var start := current_tile0.coords;
    var steps: nat := 0;
    m := tiles;
    ghost var w0 := Walker(last_tile0.coords, start);
    ghost var trace: seq<Walker> := [];
    while current_tile.coords != start || steps == 0
      invariant |trace| == steps
      invariant Walking(tiles, w0, trace, last_tile, current_tile, m)
      decreases |States(TypesOf(tiles))| - steps
    {
      var cur := current_tile.coords;
      ghost var w := Walker(last_tile.coords, cur);
      assert Run(TypesOf(tiles), w0, steps) == Ok(w);
      match NextCoords(current_tile.tile_type, current_tile.coords, last_tile.coords)
      case Err(e) =>
        WalkFails(TypesOf(tiles), w0, trace);
        return Err(e), m;
      case Ok(next) =>
        if next !in m {
          WalkFails(TypesOf(tiles), w0, trace);
          return Err(MissingTile(next)), m;
        }
        WalkingStep(tiles, w0, trace, last_tile, current_tile, m, next);
        trace := trace + [w];
        last_tile := current_tile;
        m := m[next := m[next].(status := Loop)];
        current_tile := m[next];
        steps := steps + 1;
    }
    WalkReturns(TypesOf(tiles), w0, trace);
    r := Ok(steps);
  }
}
