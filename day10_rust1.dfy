/**
 * rust/d10_1: the pipe maze without tile statuses.  The parse and the
 * start tile's resolution are those of d10_2 with an `is_start` flag in
 * place of a status; `follow_pipes` only reads the map and starts from a
 * direction given by the caller.
 */
module Day10Rust1 {
  import opened Wrappers
  import opened PipeMaze

  datatype Tile = Tile(coords: Coords, tile_type: TileType, is_start: bool)

  type TileMap = map<Coords, Tile>

  /** Every tile is stored under its own coordinates, as `get_input` builds the map. */
  predicate WellFormed(tiles: TileMap) { forall k :: k in tiles ==> tiles[k].coords == k }

  function TypesOf(tiles: TileMap): map<Coords, TileType> {
    map k | k in tiles :: tiles[k].tile_type
  }

  /** The tile the parse loop stores for a map character. */
  function ParsedTile(c: Coords, ch: char): Tile
    requires IsMapChar(ch)
  {
    if ch == 'S' then Tile(c, Unknown, true) else Tile(c, TileOfChar(ch).value, false)
  }

  /** The map holds the tiles of every character before p, each the one the character stands for. */
  ghost predicate ParsedBefore(tiles: TileMap, lines: seq<string>, p: Coords) {
    (forall c :: c in tiles <==> InGrid(lines, c) && Before(c, p)) &&
    forall c :: c in tiles ==> IsMapChar(lines[c.y][c.x]) && tiles[c] == ParsedTile(c, lines[c.y][c.x])
  }

  /** Parsing one more character extends the parsed region by that character. */
  lemma {:induction false} ParsedStep(tiles: TileMap, lines: seq<string>, x: int, y: int)
    requires InGrid(lines, Coords(x, y)) && IsMapChar(lines[y][x]) && ParsedBefore(tiles, lines, Coords(x, y))
    ensures ParsedBefore(tiles[Coords(x, y) := ParsedTile(Coords(x, y), lines[y][x])], lines, Coords(x + 1, y))
  {
    forall c | InGrid(lines, c) ensures Before(c, Coords(x + 1, y)) <==> Before(c, Coords(x, y)) || c == Coords(x, y) { }
  }

  /** The end of line y is the start of line y + 1 for the parsed region. */
  lemma {:induction false} ParsedRow(tiles: TileMap, lines: seq<string>, y: int)
    requires 0 <= y < |lines| && ParsedBefore(tiles, lines, Coords(|lines[y]|, y))
    ensures ParsedBefore(tiles, lines, Coords(0, y + 1))
  {
    forall c | InGrid(lines, c) ensures Before(c, Coords(|lines[y]|, y)) <==> Before(c, Coords(0, y + 1)) { }
  }

  /**
   * The char-to-tile loop of `get_input`: x restarts at 0 on each line and
   * y counts lines; 'S' is an Unknown tile with `is_start` set and moves
   * `start_coords`; any other unlisted char fails.
   */
  method ParseTiles(lines: seq<string>) returns (r: Result<(TileMap, Coords), Failure>)
    ensures r.Err? <==> exists c :: InGrid(lines, c) && !IsMapChar(lines[c.y][c.x])
    ensures r.Err? ==> r.error.UnknownChar? && !IsMapChar(r.error.c)
    ensures r.Ok? ==> ParsedBefore(r.value.0, lines, Coords(0, |lines|)) && WellFormed(r.value.0)
    ensures r.Ok? ==> LastStartBefore(lines, Coords(0, |lines|), r.value.1)
  {
    var tiles: TileMap := map[];
    var start := Coords(0, 0);
    var y := 0;
    while y < |lines|
      invariant 0 <= y <= |lines|
      invariant ParsedBefore(tiles, lines, Coords(0, y))
      invariant LastStartBefore(lines, Coords(0, y), start)
    {
      var row := ParseRow(lines, y, tiles, start);
      if row.Err? {
        var x :| 0 <= x < |lines[y]| && !IsMapChar(lines[y][x]);
        assert InGrid(lines, Coords(x, y));
        return Err(row.error);
      }
      tiles, start := row.value.0, row.value.1;
      y := y + 1;
    }
    r := Ok((tiles, start));
  }

  /** One iteration of the outer parse loop: the characters of line y, left to right. */
  method ParseRow(lines: seq<string>, y: nat, tiles0: TileMap, start0: Coords) returns (r: Result<(TileMap, Coords), Failure>)
    requires y < |lines|
    requires ParsedBefore(tiles0, lines, Coords(0, y)) && LastStartBefore(lines, Coords(0, y), start0)
    ensures r.Err? <==> exists x :: 0 <= x < |lines[y]| && !IsMapChar(lines[y][x])
    ensures r.Err? ==> r.error.UnknownChar? && !IsMapChar(r.error.c)
    ensures r.Ok? ==> ParsedBefore(r.value.0, lines, Coords(0, y + 1)) && LastStartBefore(lines, Coords(0, y + 1), r.value.1)
  {
    var tiles, start := tiles0, start0;
    var line := lines[y];
    var x := 0;
    while x < |line|
      invariant 0 <= x <= |line|
      invariant ParsedBefore(tiles, lines, Coords(x, y))
      invariant LastStartBefore(lines, Coords(x, y), start)
    {
      var tile_char := line[x];
      var here := Coords(x, y);
      assert InGrid(lines, here);
      if tile_char == 'S' {
        ParsedStep(tiles, lines, x, y);
        StartScanStep(lines, x, y, start);
        tiles := tiles[here := Tile(here, Unknown, true)];
        start := here;
      } else if TileOfChar(tile_char).Some? {
        ParsedStep(tiles, lines, x, y);
        StartScanStep(lines, x, y, start);
        tiles := tiles[here := Tile(here, TileOfChar(tile_char).value, false)];
      } else {
        return Err(UnknownChar(tile_char));
      }
      x := x + 1;
    }
    forall i | 0 <= i < |line| ensures IsMapChar(lines[y][i]) {
      assert InGrid(lines, Coords(i, y)) && Coords(i, y) in tiles;
    }
    ParsedRow(tiles, lines, y);
    StartScanRow(lines, y, start);
    r := Ok((tiles, start));
  }

  /** The tile one step from `start` in physical direction d. */
  function Neighbour(start: Coords, d: Direction): Coords { Add(start, Vec(d)) }

  /** The start tile and its four neighbours exist, as the unwraps of `init_start_tile` demand. */
  predicate AllPresent(tiles: TileMap, start: Coords) {
    start in tiles && forall d :: Neighbour(start, d) in tiles
  }

  /** The neighbour in physical direction d accepts a move from the start tile into it. */
  predicate Connected(tiles: TileMap, start: Coords, d: Direction)
    requires AllPresent(tiles, start)
  {
    var n := tiles[Neighbour(start, d)];
    NextCoords(n.tile_type, n.coords, tiles[start].coords).Ok?
  }

  function SidesOf(tiles: TileMap, start: Coords): (s: Sides)
    requires AllPresent(tiles, start)
    ensures forall d :: Side(s, d) == Connected(tiles, start, d)
  {
    Sides(Connected(tiles, start, North), Connected(tiles, start, South), Connected(tiles, start, West), Connected(tiles, start, East))
  }

  /**
   * `init_start_tile`, the same code as d10_2's: a missing neighbour is the
   * failed unwrap, otherwise the start tile's shape becomes the one
   * ResolveStart picks and nothing else in the map changes.
   */
  method InitStartTile(tiles: TileMap, start: Coords) returns (r: Result<TileMap, Failure>)
    ensures !AllPresent(tiles, start) ==> r.Err? && r.error.MissingTile?
    ensures AllPresent(tiles, start) ==> (r.Ok? <==> CountSides(SidesOf(tiles, start)) >= 2)
    ensures AllPresent(tiles, start) && r.Err? ==> r.error == StartUnresolved
    ensures r.Ok? ==> (AllPresent(tiles, start) &&
                       r.value == tiles[start := tiles[start].(tile_type := ResolveStart(SidesOf(tiles, start)).value)])
  {
    var northC, southC, westC, eastC := Neighbour(start, South), Neighbour(start, North), Neighbour(start, East), Neighbour(start, West);
    if northC !in tiles { return Err(MissingTile(northC)); }
    if southC !in tiles { return Err(MissingTile(southC)); }
    if westC !in tiles { return Err(MissingTile(westC)); }
    if eastC !in tiles { return Err(MissingTile(eastC)); }
    if start !in tiles { return Err(MissingTile(start)); }
    assert forall d :: Neighbour(start, d) in tiles by {
      forall d ensures Neighbour(start, d) in tiles { match d case _ => }
    }
    r := ConnectStart(tiles, start);
  }

  /**
   * The rest of `init_start_tile` once every unwrap has succeeded: each
   * neighbour is asked whether it accepts a move from the start tile, and
   * the start tile takes the shape ResolveStart picks from the answers.
   */
  method ConnectStart(tiles: TileMap, start: Coords) returns (r: Result<TileMap, Failure>)
    requires AllPresent(tiles, start)
    ensures r.Ok? <==> CountSides(SidesOf(tiles, start)) >= 2
    ensures r.Err? ==> r.error == StartUnresolved
    ensures r.Ok? ==> r.value == tiles[start := tiles[start].(tile_type := ResolveStart(SidesOf(tiles, start)).value)]
  {
    var start_tile := tiles[start];
    // Connected(tiles, start, d) is `get_next_coords` of the neighbour in direction d, towards the start tile.
    var north_connected := Connected(tiles, start, South);
    var south_connected := Connected(tiles, start, North);
    var west_connected := Connected(tiles, start, East);
    var east_connected := Connected(tiles, start, West);
    var sides := Sides(south_connected, north_connected, east_connected, west_connected);
    match ResolveStart(sides)
    case None => return Err(StartUnresolved);
    case Some(shape) => r := Ok(tiles[start := start_tile.(tile_type := shape)]);
  }

  /**
   * What `init_start_tile` makes of the parsed map `tiles0` with start `s0`:
   * a failed unwrap when a neighbour is missing, otherwise the start tile
   * shaped by ResolveStart, or the failure when fewer than two sides accept.
   */
  ghost predicate StartOutcome(tiles0: TileMap, s0: Coords, r: Result<(TileMap, Coords), Failure>) {
    (!AllPresent(tiles0, s0) ==> r.Err? && r.error.MissingTile?) &&
    (AllPresent(tiles0, s0) ==>
      (r.Ok? <==> CountSides(SidesOf(tiles0, s0)) >= 2) &&
      (r.Err? ==> r.error == StartUnresolved) &&
      (r.Ok? ==> r.value == (tiles0[s0 := tiles0[s0].(tile_type := ResolveStart(SidesOf(tiles0, s0)).value)], s0)))
  }

  /** The outcome for the map the parse built is the outcome for every description of the text, since there is only one. */
  lemma OutcomeFor(lines: seq<string>, tiles: TileMap, start: Coords, r: Result<(TileMap, Coords), Failure>)
    requires ParsedBefore(tiles, lines, Coords(0, |lines|)) && LastStartBefore(lines, Coords(0, |lines|), start) && StartOutcome(tiles, start, r)
    ensures forall tiles0, s0 :: ParsedBefore(tiles0, lines, Coords(0, |lines|)) && LastStartBefore(lines, Coords(0, |lines|), s0) ==> StartOutcome(tiles0, s0, r)
  {
    forall tiles0, s0 | ParsedBefore(tiles0, lines, Coords(0, |lines|)) && LastStartBefore(lines, Coords(0, |lines|), s0)
      ensures StartOutcome(tiles0, s0, r)
    {
      ParsedUnique(tiles0, tiles, lines);
      LastStartUnique(lines, Coords(0, |lines|), s0, start);
    }
  }

  /** Two maps that both hold the tiles of the whole text are the same map: the parse is determined by the text. */
  lemma ParsedUnique(t1: TileMap, t2: TileMap, lines: seq<string>)
    requires ParsedBefore(t1, lines, Coords(0, |lines|)) && ParsedBefore(t2, lines, Coords(0, |lines|))
    ensures t1 == t2
  {
    assert forall c :: c in t1 <==> c in t2;
  }

  /** `get_input` after the file read: the parse loop, then the start tile's shape. */
  method GetInput(lines: seq<string>) returns (r: Result<(TileMap, Coords), Failure>)
    ensures !MapText(lines) <==> r.Err? && r.error.UnknownChar?
    ensures forall tiles0, s0 :: ParsedBefore(tiles0, lines, Coords(0, |lines|)) && LastStartBefore(lines, Coords(0, |lines|), s0) ==> StartOutcome(tiles0, s0, r)
    ensures r.Ok? ==> WellFormed(r.value.0) && LastStartBefore(lines, Coords(0, |lines|), r.value.1)
    ensures r.Ok? ==> var (tiles, start) := r.value;
      AllPresent(tiles, start) && IsPipe(tiles[start].tile_type) && tiles[start].is_start &&
      InGrid(lines, start) && lines[start.y][start.x] == 'S' &&
      (forall c :: c in tiles <==> InGrid(lines, c)) &&
      forall c :: c in tiles && c != start ==> tiles[c] == ParsedTile(c, lines[c.y][c.x])
  {
    var parsed := ParseTiles(lines);
    if parsed.Err? { return Err(parsed.error); }
    var (tiles, start) := parsed.value;
    var init := InitStartTile(tiles, start);
    if init.Err? {
      r := Err(init.error);
    } else {
      assert start in tiles;
      assert InGrid(lines, start);
      r := Ok((init.value, start));
    }
    OutcomeFor(lines, tiles, start, r);
  }

  /**
   * The walker state `follow_pipes` starts from: `last_tile` is the start
   * minus the start shape's redirection of `start_direction`; each of the
   * three unwraps on the way is a failure.
   */
  function StartWalker(tiles: TileMap, start: Coords, start_direction: Direction): (r: Result<Walker, Failure>)
    ensures r.Ok? ==> r.value.current == start && start in tiles && r.value.last in tiles
    ensures r.Ok? ==> HasArm(tiles[start].tile_type, Opposite(start_direction))
  {
    if start !in tiles then Err(MissingTile(start))
    else match GetPipeRedirection(tiles[start].tile_type, start_direction)
      case Err(e) => Err(e)
      case Ok(o) => if Sub(start, o) in tiles then Ok(Walker(Sub(start, o), start)) else Err(MissingTile(Sub(start, o)))
  }

  /**
   * A straight start pipe walks off through the arm `start_direction`
   * points at; a bent one makes the first move fail, since `last_tile`
   * then lies off both of its arms.  With North, as `main` passes it,
   * only a NorthSouth start gets past the first move.
   */
  lemma {:induction false} FirstMoveFromStart(tiles: TileMap, start: Coords, d: Direction)
    requires WellFormed(tiles) && StartWalker(tiles, start, d).Ok?
    ensures var t := tiles[start].tile_type;
      var w := StartWalker(tiles, start, d).value;
      var first := NextCoords(t, start, w.last);
      (first.Ok? <==> t == NorthSouth || t == EastWest) &&
      (first.Ok? ==> first.value == Neighbour(start, d))
  {
    var t := tiles[start].tile_type;
    var o := GetPipeRedirection(t, d).value;
    assert Sub(start, Sub(start, o)) == o;
    match d case _ =>
  }

  /**
   * `follow_pipes`: read-only; walks from the start until it is back on
   * the start tile and returns the number of moves (at least one), or the
   * failure of a move or of a lookup.
   */
  method FollowPipes(tiles: TileMap, start: Coords, start_direction: Direction) returns (r: Result<nat, Failure>)
    requires WellFormed(tiles)
    ensures StartWalker(tiles, start, start_direction).Err? ==> r == Err(StartWalker(tiles, start, start_direction).error)
    ensures r.Ok? ==> (StartWalker(tiles, start, start_direction).Ok? &&
                       FirstReturn(TypesOf(tiles), StartWalker(tiles, start, start_direction).value, r.value))
    ensures r.Err? && StartWalker(tiles, start, start_direction).Ok? ==>
      exists n :: FailsBeforeReturn(TypesOf(tiles), StartWalker(tiles, start, start_direction).value, n)
  {
    var steps: nat := 0;
    if start !in tiles { return Err(MissingTile(start)); }
    var current_tile := tiles[start];
    var redirection := GetPipeRedirection(current_tile.tile_type, start_direction);
    if redirection.Err? { return Err(redirection.error); }
    var lastC := Sub(start, redirection.value);
    if lastC !in tiles { return Err(MissingTile(lastC)); }
    var last_tile := tiles[lastC];
    ghost var types := TypesOf(tiles);
    ghost var w0 := Walker(lastC, start);
    assert StartWalker(tiles, start, start_direction) == Ok(w0);
    ghost var trace: seq<Walker> := [];
    while current_tile.coords != start || steps == 0
      invariant |trace| == steps
      invariant WalkSoFar(types, w0, trace)
      invariant Run(types, w0, steps) == Ok(Walker(last_tile.coords, current_tile.coords))
      invariant current_tile.coords in tiles && current_tile == tiles[current_tile.coords]
      decreases |States(types)| - steps
    {
      ghost var w := Walker(last_tile.coords, current_tile.coords);
      match NextCoords(current_tile.tile_type, current_tile.coords, last_tile.coords)
      case Err(e) =>
        WalkFails(types, w0, trace);
        return Err(e);
      case Ok(val) =>
        if val !in tiles {
          WalkFails(types, w0, trace);
          return Err(MissingTile(val));
        }
        WalkExtend(types, w0, trace, w);
        trace := trace + [w];
        last_tile := current_tile;
        current_tile := tiles[val];
        steps := steps + 1;
    }
    WalkReturns(types, w0, trace);
    r := Ok(steps);
  }

  /**
   * The printed answer: half the loop length, rounded down, the distance
   * to the farthest tile of a loop of that length.
   */
  function Farthest(steps: nat): (r: nat)
    ensures 2 * r <= steps <= 2 * r + 1
  {
    steps / 2
  }
}
