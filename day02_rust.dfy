/**
 * rust/d02_01 and rust/d02_2 share `get_line_data` and `get_input` word
 * for word: this module models them once.  A line is split on ':'; a
 * segment containing "Game" gives the id (parsed as `u32` after the first
 * four chars), every other segment is split on ';' and then ',', and each
 * piece is tested for "blue", "red", "green" in that order.  The count is
 * the trimmed slice between the first char and the colour's name, parsed
 * as `u8`; each colour keeps the largest count seen.  A failed parse makes
 * the line, and the whole input, None; a slice out of range panics.
 */
module Day02Rust {
  import opened Wrappers
  import opened Text
  import opened Cubes

  /** How reading a line can fail: a parse error (None) or a slice panic. */
  datatype Failure = ParseFailed | SlicePanic

  /** `Game` of rust/d02_01: the id and the largest count seen per colour. */
  datatype Game = Game(id: nat, red: nat, green: nat, blue: nat)

  const U8Max: nat := 0xFF
  const U32Max: nat := 0xFFFF_FFFF

  function Field(g: Game, c: Colour): nat {
    match c
    case Red => g.red
    case Green => g.green
    case Blue => g.blue
  }

  /** `if val > colour { colour = val; }`. */
  function Raise(g: Game, c: Colour, v: nat): (r: Game)
    ensures Field(r, c) == Max(Field(g, c), v) && r.id == g.id
    ensures forall other :: other != c ==> Field(r, other) == Field(g, other)
  {
    match c
    case Red => if v > g.red then g.(red := v) else g
    case Green => if v > g.green then g.(green := v) else g
    case Blue => if v > g.blue then g.(blue := v) else g
  }

  /** The colour a piece counts for: "blue" is tested first, then "red", then "green". */
  function ColourOf(piece: string): Option<Colour> {
    if Contains(piece, "blue") then Some(Blue)
    else if Contains(piece, "red") then Some(Red)
    else if Contains(piece, "green") then Some(Green)
    else None
  }

  /**
   * How many chars the count's slice leaves off the end: the name and one
   * more for blue and red, only the name for green.
   */
  function Cut(c: Colour): nat {
    if c == Green then |Name(c)| else |Name(c)| + 1
  }

  /** The count of a piece: `piece[1..len - cut].trim().parse::<u8>()`. */
  function Count(piece: string, c: Colour): (r: Result<nat, Failure>)
    ensures r.Ok? ==> r.value <= U8Max
  {
    if |piece| < Cut(c) + 1 then Err(SlicePanic)
    else match ParseUnsigned(Trim(piece[1..|piece| - Cut(c)]), U8Max)
      case None => Err(ParseFailed)
      case Some(v) => Ok(v)
  }

  /** One comma piece: its colour's maximum raised to its count, unchanged without a colour. */
  function PieceStep(g: Game, piece: string): Result<Game, Failure> {
    match ColourOf(piece)
    case None => Ok(g)
    case Some(c) =>
      match Count(piece, c)
      case Err(e) => Err(e)
      case Ok(v) => Ok(Raise(g, c, v))
  }

  /** The pieces in order, stopping at the first failure. */
  function TallyPieces(g: Game, pieces: seq<string>): Result<Game, Failure>
    decreases |pieces|
  {
    if pieces == [] then Ok(g)
    else match PieceStep(g, pieces[0])
      case Err(e) => Err(e)
      case Ok(h) => TallyPieces(h, pieces[1..])
  }

  /** The draws in order, each split on ','. */
  function TallyDraws(g: Game, draws: seq<string>): Result<Game, Failure>
    decreases |draws|
  {
    if draws == [] then Ok(g)
    else match TallyPieces(g, Split(draws[0], ','))
      case Err(e) => Err(e)
      case Ok(h) => TallyDraws(h, draws[1..])
  }

  /** The id of a "Game" segment: `segment[4..].trim().parse::<u32>()`. */
  function IdOf(segment: string): (r: Result<nat, Failure>)
    ensures r.Ok? ==> r.value <= U32Max
  {
    if |segment| < 4 then Err(SlicePanic)
    else match ParseUnsigned(Trim(segment[4..]), U32Max)
      case None => Err(ParseFailed)
      case Some(v) => Ok(v)
  }

  /** One colon segment: the id when it contains "Game", its draws otherwise. */
  function SegmentStep(g: Game, segment: string): Result<Game, Failure> {
    if Contains(segment, "Game") then
      match IdOf(segment)
      case Err(e) => Err(e)
      case Ok(id) => Ok(g.(id := id))
    else TallyDraws(g, Split(segment, ';'))
  }

  function TallySegments(g: Game, segments: seq<string>): Result<Game, Failure>
    decreases |segments|
  {
    if segments == [] then Ok(g)
    else match SegmentStep(g, segments[0])
      case Err(e) => Err(e)
      case Ok(h) => TallySegments(h, segments[1..])
  }

  /** What `get_line_data` computes for a line: id 0 and counts 0 to start with. */
  function LineData(line: string): Result<Game, Failure> {
    TallySegments(Game(0, 0, 0, 0), Split(line, ':'))
  }

  /** `get_line_data`: the colon, semicolon and comma loops. */
  method GetLineData(line: string) returns (r: Result<Game, Failure>)
    ensures r == LineData(line)
  {
    var id, red, green, blue := 0, 0, 0, 0;
    var segments := Split(line, ':');
    for i := 0 to |segments|
      invariant LineData(line) == TallySegments(Game(id, red, green, blue), segments[i..])
    {
      var colonSplit := segments[i];
      assert segments[i..][0] == colonSplit && segments[i..][1..] == segments[i + 1..];
      ghost var before := Game(id, red, green, blue);
      if Contains(colonSplit, "Game") {
        if |colonSplit| < 4 {
          return Err(SlicePanic);
        }
        var matchedId := ParseUnsigned(Trim(colonSplit[4..]), U32Max);
        if matchedId.None? {
          return Err(ParseFailed);
        }
        id := matchedId.value;
      } else {
        var draws := Split(colonSplit, ';');
        for j := 0 to |draws|
          invariant SegmentStep(before, colonSplit) == TallyDraws(Game(id, red, green, blue), draws[j..])
        {
          assert draws[j..][0] == draws[j] && draws[j..][1..] == draws[j + 1..];
          var g := TallyDraw(Game(id, red, green, blue), draws[j]);
          if g.Err? {
            return Err(g.error);
          }
          id, red, green, blue := g.value.id, g.value.red, g.value.green, g.value.blue;
        }
      }
    }
    return Ok(Game(id, red, green, blue));
  }

  /** The comma loop of one draw, raising the maxima piece by piece. */
  method TallyDraw(g: Game, draw: string) returns (r: Result<Game, Failure>)
    ensures r == TallyPieces(g, Split(draw, ','))
  {
    var red, green, blue := g.red, g.green, g.blue;
    var pieces := Split(draw, ',');
    for k := 0 to |pieces|
      invariant TallyPieces(g, pieces) == TallyPieces(Game(g.id, red, green, blue), pieces[k..])
    {
      var comaSplit := pieces[k];
      assert pieces[k..][0] == comaSplit && pieces[k..][1..] == pieces[k + 1..];
      var c := ColourOf(comaSplit);
      if c.Some? {
        var cut := Cut(c.value);
        if |comaSplit| < cut + 1 {
          return Err(SlicePanic);
        }
        var val := ParseUnsigned(Trim(comaSplit[1..|comaSplit| - cut]), U8Max);
        if val.None? {
          return Err(ParseFailed);
        }
        var v := val.value;
        match c.value {
          case Blue => if v > blue { blue := v; }
          case Red => if v > red { red := v; }
          case Green => if v > green { green := v; }
        }
      }
    }
    return Ok(Game(g.id, red, green, blue));
  }

  /** The record of one colour is read as that colour. */
  lemma ColourOfShown(s: Shown)
    ensures ColourOf(ShownText(s)) == Some(s.colour)
  {
    var d := Decimal(s.count);
    var t := ShownText(s);
    var name := Name(s.colour);
    assert t == " " + d + " " + name;
    assert t[|d| + 2..|d| + 2 + |name|] == name;
    ContainsAt(t, name, |d| + 2);
    if s.colour != Blue {
      ShownChars(s, 'b');
      LacksChar(t, "blue", 'b');
    }
    if s.colour == Green {
      ShownChars(s, 'd');
      LacksChar(t, "red", 'd');
    }
  }

  /** The slice a colour's record leaves for its count is the count's digits, once trimmed. */
  lemma CountSlice(d: string, c: Colour)
    requires |d| > 0 && AllDigits(d)
    ensures var t := " " + d + " " + Name(c); |t| >= Cut(c) + 1 && Trim(t[1..|t| - Cut(c)]) == d
  {
    var t := " " + d + " " + Name(c);
    if c == Green {
      assert t[1..|t| - Cut(c)] == "" + d + " ";
      TrimAround("", d, " ");
    } else {
      assert t[1..|t| - Cut(c)] == "" + d + "";
      TrimAround("", d, "");
    }
  }

  /** The record of one colour is read back with its count, when the count fits a `u8`; a larger count fails to parse. */
  lemma PieceShown(g: Game, s: Shown)
    ensures s.count <= U8Max ==> PieceStep(g, ShownText(s)) == Ok(Raise(g, s.colour, s.count))
    ensures s.count > U8Max ==> PieceStep(g, ShownText(s)) == Err(ParseFailed)
  {
    var d := Decimal(s.count);
    ColourOfShown(s);
    CountSlice(d, s.colour);
    ParseUnsignedSpec(d, U8Max);
  }

  /** Every count of the game fits a `u8`. */
  predicate DrawFits(d: Draw) {
    forall j :: 0 <= j < |d| ==> d[j].count <= U8Max
  }

  predicate Fits(draws: seq<Draw>) {
    forall i :: 0 <= i < |draws| ==> DrawFits(draws[i])
  }

  /** The game with every colour raised to the most the draws show. */
  function RaisedBy(g: Game, draws: seq<Draw>): Game {
    Game(g.id, Max(g.red, Most(draws, Red)), Max(g.green, Most(draws, Green)), Max(g.blue, Most(draws, Blue)))
  }

  /** The game with every colour raised to the most one draw shows. */
  function RaisedIn(g: Game, d: Draw): Game {
    Game(g.id, Max(g.red, MostIn(d, Red)), Max(g.green, MostIn(d, Green)), Max(g.blue, MostIn(d, Blue)))
  }

  /** Raising by the first entry and then by the rest is raising by the whole draw. */
  lemma RaiseStep(g: Game, d: Draw)
    requires d != []
    ensures RaisedIn(Raise(g, d[0].colour, d[0].count), d[1..]) == RaisedIn(g, d)
  {
    var h := Raise(g, d[0].colour, d[0].count);
    assert Field(h, Red) == Max(Field(g, Red), CountOf(d[0], Red));
    assert Field(h, Green) == Max(Field(g, Green), CountOf(d[0], Green));
    assert Field(h, Blue) == Max(Field(g, Blue), CountOf(d[0], Blue));
  }

  /** Raising by the first draw and then by the rest is raising by all the draws. */
  lemma RaisedStep(g: Game, draws: seq<Draw>)
    requires draws != []
    ensures RaisedBy(RaisedIn(g, draws[0]), draws[1..]) == RaisedBy(g, draws)
  {
  }

  /** The records of a draw's colours, read in order, raise every colour to the most shown in the draw. */
  lemma {:induction false} TallyShown(g: Game, d: Draw)
    requires DrawFits(d)
    ensures TallyPieces(g, ShownTexts(d)) == Ok(RaisedIn(g, d))
    decreases |d|
  {
    if d != [] {
      PieceShown(g, d[0]);
      var h := Raise(g, d[0].colour, d[0].count);
      TallyShown(h, d[1..]);
      assert ShownTexts(d)[1..] == ShownTexts(d[1..]);
      RaiseStep(g, d);
    }
  }

  /** The first colour that does not fit a `u8` stops the draw with a parse failure. */
  lemma {:induction false} TallyShownFails(g: Game, d: Draw)
    requires !DrawFits(d)
    ensures TallyPieces(g, ShownTexts(d)) == Err(ParseFailed)
    decreases |d|
  {
    PieceShown(g, d[0]);
    assert ShownTexts(d)[0] == ShownText(d[0]);
    if d[0].count <= U8Max {
      var h := Raise(g, d[0].colour, d[0].count);
      assert !DrawFits(d[1..]) by {
        var j :| 0 <= j < |d| && d[j].count > U8Max;
        assert d[1..][j - 1] == d[j];
      }
      TallyShownFails(h, d[1..]);
      assert ShownTexts(d)[1..] == ShownTexts(d[1..]);
    }
  }

  /** The pieces of a draw's record, split on ',', are the records of its colours; an empty draw leaves one empty piece. */
  lemma DrawPieces(d: Draw)
    ensures d != [] ==> Split(DrawText(d), ',') == ShownTexts(d)
    ensures d == [] ==> Split(DrawText(d), ',') == [""]
  {
    if d != [] {
      forall k | 0 <= k < |d| ensures ',' !in ShownTexts(d)[k] {
        ShownChars(d[k], ',');
      }
      JoinSplit(ShownTexts(d), ',');
    }
  }

  /** An empty piece names no colour and changes nothing. */
  lemma EmptyPiece(g: Game)
    ensures TallyPieces(g, [""]) == Ok(g)
  {
    assert !Contains("", "blue") && !Contains("", "red") && !Contains("", "green");
    assert [""][1..] == [];
  }

  /** The draws' records, read in order, raise every colour to the most the game shows; the first count too large fails. */
  lemma {:induction false} TallyDrawTexts(g: Game, draws: seq<Draw>)
    ensures Fits(draws) ==> TallyDraws(g, DrawTexts(draws)) == Ok(RaisedBy(g, draws))
    ensures !Fits(draws) ==> TallyDraws(g, DrawTexts(draws)) == Err(ParseFailed)
    decreases |draws|
  {
    if draws != [] {
      var d := draws[0];
      DrawPieces(d);
      assert DrawTexts(draws)[1..] == DrawTexts(draws[1..]);
      if !DrawFits(d) {
        TallyShownFails(g, d);
      } else {
        var h := RaisedIn(g, d);
        if d == [] {
          EmptyPiece(g);
        } else {
          TallyShown(g, d);
        }
        TallyDrawTexts(h, draws[1..]);
        RaisedStep(g, draws);
        assert Fits(draws) <==> Fits(draws[1..]) by {
          assert forall i :: 1 <= i < |draws| ==> draws[i] == draws[1..][i - 1];
        }
      }
    }
  }

  /** The draws part of a record whose counts fit is read as the most shown per colour. */
  lemma RestRead(h: Game, draws: seq<Draw>)
    requires Fits(draws)
    ensures SegmentStep(h, Join(DrawTexts(draws), ";")) == Ok(RaisedBy(h, draws))
  {
    ReadRest(h, draws);
    TallyDrawTexts(h, draws);
  }

  /**
   * The record of a game is read back as its id and the most cubes shown
   * per colour, when the id fits a `u32` and every count a `u8`.
   */
  lemma LineRoundTrip(id: nat, draws: seq<Draw>)
    requires id <= U32Max && Fits(draws)
    ensures LineData(GameLine(id, draws)) == Ok(Game(id, Most(draws, Red), Most(draws, Green), Most(draws, Blue)))
  {
    var h := Game(id, 0, 0, 0);
    HeadLine(id, draws);
    RestRead(h, draws);
    assert RaisedBy(h, draws) == Game(id, Most(draws, Red), Most(draws, Green), Most(draws, Blue));
  }

  /** A record whose id fits sets the id, then reads its draws. */
  lemma HeadLine(id: nat, draws: seq<Draw>)
    requires id <= U32Max
    ensures LineData(GameLine(id, draws)) == SegmentStep(Game(id, 0, 0, 0), Join(DrawTexts(draws), ";"))
  {
    var g := Game(0, 0, 0, 0);
    var head := "Game " + Decimal(id);
    var rest := Join(DrawTexts(draws), ";");
    SplitHead(id, draws);
    HeadSegment(g, id);
    LineOfTwo(GameLine(id, draws), head, rest);
  }

  /** A line of two colon segments is read segment by segment. */
  lemma LineOfTwo(line: string, head: string, rest: string)
    requires Split(line, ':') == [head, rest]
    ensures LineData(line) == TallySegments(Game(0, 0, 0, 0), [head, rest])
    ensures SegmentStep(Game(0, 0, 0, 0), head).Err? ==> LineData(line) == SegmentStep(Game(0, 0, 0, 0), head)
    ensures SegmentStep(Game(0, 0, 0, 0), head).Ok? ==> LineData(line) == SegmentStep(SegmentStep(Game(0, 0, 0, 0), head).value, rest)
  {
    TwoSegments(Game(0, 0, 0, 0), head, rest);
  }

  /** The record of a game with an id beyond `u32` or a count beyond `u8` fails to parse. */
  lemma LineFails(id: nat, draws: seq<Draw>)
    requires id > U32Max || !Fits(draws)
    ensures LineData(GameLine(id, draws)) == Err(ParseFailed)
  {
    var g := Game(0, 0, 0, 0);
    var head := "Game " + Decimal(id);
    var rest := Join(DrawTexts(draws), ";");
    SplitHead(id, draws);
    LineOfTwo(GameLine(id, draws), head, rest);
    if id > U32Max {
      HeadSegment(g, id);
    } else {
      HeadSegment(g, id);
      ReadRest(g.(id := id), draws);
      TallyDrawTexts(g.(id := id), draws);
    }
  }

  /** A game's record splits on ':' into its head and its draws. */
  lemma SplitHead(id: nat, draws: seq<Draw>)
    ensures Split(GameLine(id, draws), ':') == ["Game " + Decimal(id), Join(DrawTexts(draws), ";")]
  {
    var head := "Game " + Decimal(id);
    var rest := Join(DrawTexts(draws), ";");
    assert GameLine(id, draws) == Join([head, rest], ":") by {
      assert [head, rest][1..] == [rest];
    }
    HeadMarks(id);
    Marks();
    DrawsChars(draws, ':');
    JoinSplit([head, rest], ':');
  }

  /** The head of a record holds "Game", and the slice after its first four chars is its digits, once trimmed. */
  lemma HeadSlice(d: string)
    requires |d| > 0 && !IsWhitespace(d[0]) && !IsWhitespace(d[|d| - 1])
    ensures Trim(("Game " + d)[4..]) == d
  {
    var head := "Game " + d;
    assert "Game " == "Game" + " ";
    assert head == "Game" + (" " + d);
    assert " " + d + "" == " " + d;
    TrimAround(" ", d, "");
  }

  /** The head of a record holds "Game". */
  lemma HeadContains(d: string)
    ensures Contains("Game " + d, "Game")
  {
    assert ("Game " + d)[..4] == "Game";
  }

  /** The head of a record holds "Game" and its id, read back when it fits a `u32`. */
  lemma HeadId(id: nat)
    ensures Contains("Game " + Decimal(id), "Game")
    ensures id <= U32Max ==> IdOf("Game " + Decimal(id)) == Ok(id)
    ensures id > U32Max ==> IdOf("Game " + Decimal(id)) == Err(ParseFailed)
  {
    var d := Decimal(id);
    assert IsDigit(d[0]) && IsDigit(d[|d| - 1]);
    HeadSlice(d);
    HeadContains(d);
    if id <= U32Max {
      ParseDecimal(id, U32Max);
    } else {
      DecimalTooLarge(id, U32Max);
    }
  }

  /** The head of a record sets the id when it fits a `u32`, and fails to parse otherwise. */
  lemma HeadSegment(g: Game, id: nat)
    ensures id <= U32Max ==> SegmentStep(g, "Game " + Decimal(id)) == Ok(g.(id := id))
    ensures id > U32Max ==> SegmentStep(g, "Game " + Decimal(id)) == Err(ParseFailed)
  {
    HeadId(id);
  }

  /** Two segments: the second is read from the game the first leaves. */
  lemma TwoSegments(g: Game, a: string, b: string)
    ensures SegmentStep(g, a).Err? ==> TallySegments(g, [a, b]) == SegmentStep(g, a)
    ensures SegmentStep(g, a).Ok? ==> TallySegments(g, [a, b]) == SegmentStep(SegmentStep(g, a).value, b)
  {
    assert [a, b][1..] == [b] && [b][1..] == [];
    if SegmentStep(g, a).Ok? {
      var h := SegmentStep(g, a).value;
      if SegmentStep(h, b).Ok? {
        assert TallySegments(SegmentStep(h, b).value, []) == SegmentStep(h, b);
      }
    }
  }

  /** The draws part holds no "Game": it is read as the draws' records, and as nothing when there are none. */
  lemma ReadRest(h: Game, draws: seq<Draw>)
    ensures draws != [] ==> SegmentStep(h, Join(DrawTexts(draws), ";")) == TallyDraws(h, DrawTexts(draws))
    ensures draws == [] ==> SegmentStep(h, Join(DrawTexts(draws), ";")) == Ok(h)
  {
    var rest := Join(DrawTexts(draws), ";");
    DrawsChars(draws, 'G');
    LacksChar(rest, "Game", 'G');
    if draws == [] {
      assert rest == "";
      assert Split(rest, ';') == [""];
      assert Split("", ',') == [""];
      EmptyPiece(h);
      assert [""][1..] == [];
    } else {
      forall k | 0 <= k < |draws| ensures ';' !in DrawTexts(draws)[k] {
        DrawChars(draws[k], ';');
      }
      JoinSplit(DrawTexts(draws), ';');
    }
  }

  /** An empty line, as the split of a file ending in a newline leaves, reads as game 0 with no cubes. */
  lemma EmptyLine()
    ensures LineData("") == Ok(Game(0, 0, 0, 0))
  {
    assert Split("", ':') == [""] && Split("", ';') == [""] && Split("", ',') == [""];
    assert !Contains("", "Game");
    EmptyPiece(Game(0, 0, 0, 0));
    assert [""][1..] == [];
  }

  /** What reading each line gives. */
  function Reads(lines: seq<string>): (r: seq<Result<Game, Failure>>)
    ensures |r| == |lines| && forall k :: 0 <= k < |lines| ==> r[k] == LineData(lines[k])
  {
    seq(|lines|, k requires 0 <= k < |lines| => LineData(lines[k]))
  }

  /** The games read in order after those in acc, stopping at the first failure. */
  function Collect(acc: seq<Game>, results: seq<Result<Game, Failure>>): Result<seq<Game>, Failure>
    decreases |results|
  {
    if results == [] then Ok(acc)
    else match results[0]
      case Err(e) => Err(e)
      case Ok(g) => Collect(acc + [g], results[1..])
  }

  /** What `get_input` returns for the file's content: a game per '\n'-separated line. */
  function Input(content: string): Result<seq<Game>, Failure> {
    Collect([], Reads(Split(content, '\n')))
  }

  /** `get_input` once the file is read: the lines' games pushed in order. */
  method GetInput(content: string) returns (r: Result<seq<Game>, Failure>)
    ensures r == Input(content)
  {
    var result: seq<Game> := [];
    var lines := Split(content, '\n');
    ghost var results := Reads(lines);
    for i := 0 to |lines|
      invariant Input(content) == Collect(result, results[i..])
    {
      assert results[i..][0] == LineData(lines[i]) && results[i..][1..] == results[i + 1..];
      var game := GetLineData(lines[i]);
      if game.Err? {
        return Err(game.error);
      }
      result := result + [game.value];
    }
    return Ok(result);
  }

  /** The game a record should be read as: its id and the fewest cubes per colour. */
  function Expected(r: Record): Game {
    Game(r.id, Most(r.draws, Red), Most(r.draws, Green), Most(r.draws, Blue))
  }

  function ExpectedAll(records: seq<Record>): (r: seq<Game>)
    ensures |r| == |records| && forall k :: 0 <= k < |records| ==> r[k] == Expected(records[k])
  {
    seq(|records|, k requires 0 <= k < |records| => Expected(records[k]))
  }

  /** The record's id fits a `u32` and every count a `u8`. */
  predicate Fitting(r: Record) {
    r.id <= U32Max && Fits(r.draws)
  }

  predicate Readable(records: seq<Record>) {
    forall k :: 0 <= k < |records| ==> Fitting(records[k])
  }

  /** Every line read as its game. */
  function AllOk(games: seq<Game>): (r: seq<Result<Game, Failure>>)
    ensures |r| == |games| && forall k :: 0 <= k < |games| ==> r[k] == Ok(games[k])
  {
    seq(|games|, k requires 0 <= k < |games| => Ok(games[k]))
  }

  /** Lines that each read as a game are read as those games in order. */
  lemma {:induction false} CollectAll(acc: seq<Game>, games: seq<Game>)
    ensures Collect(acc, AllOk(games)) == Ok(acc + games)
    decreases |games|
  {
    if games == [] {
      assert AllOk(games) == [] && acc + games == acc;
    } else {
      assert AllOk(games)[0] == Ok(games[0]);
      assert AllOk(games)[1..] == AllOk(games[1..]);
      CollectAll(acc + [games[0]], games[1..]);
      assert acc + [games[0]] + games[1..] == acc + games;
    }
  }

  /** The lines of a puzzle input: one per record, and an empty last one after a final newline. */
  lemma InputLines(records: seq<Record>, newline: bool)
    ensures Split(InputText(records, newline), '\n') == GameLines(records) + (if newline || records == [] then [""] else [])
  {
    var tail: seq<string> := if newline || records == [] then [""] else [];
    var lines := GameLines(records) + tail;
    assert Join(lines, "\n") == InputText(records, newline);
    forall k | 0 <= k < |lines| ensures '\n' !in lines[k] {
      if k < |records| {
        LineChars(records[k].id, records[k].draws, '\n');
      }
    }
    JoinSplit(lines, '\n');
  }

  /** The games a puzzle input should be read as. */
  function InputGames(records: seq<Record>, newline: bool): seq<Game> {
    ExpectedAll(records) + (if newline || records == [] then [Game(0, 0, 0, 0)] else [])
  }

  /** Every line of a readable puzzle input reads as its expected game. */
  lemma LinesRead(records: seq<Record>, newline: bool)
    requires Readable(records)
    ensures Reads(Split(InputText(records, newline), '\n')) == AllOk(InputGames(records, newline))
  {
    var lines := Split(InputText(records, newline), '\n');
    var games := InputGames(records, newline);
    InputLines(records, newline);
    forall k | 0 <= k < |lines| ensures Reads(lines)[k] == AllOk(games)[k] {
      if k < |records| {
        LineRoundTrip(records[k].id, records[k].draws);
      } else {
        EmptyLine();
      }
    }
  }

  /**
   * `get_input` on a puzzle input reads every record as its id and fewest
   * cubes; a final newline, or an empty input, adds game 0 with no cubes.
   */
  lemma InputRoundTrip(records: seq<Record>, newline: bool)
    requires Readable(records)
    ensures Input(InputText(records, newline)) == Ok(InputGames(records, newline))
  {
    var games := InputGames(records, newline);
    LinesRead(records, newline);
    assert Input(InputText(records, newline)) == Collect([], AllOk(games));
    CollectAll([], games);
    assert [] + games == games;
  }

  /** Reading stops at the first failure, with that failure. */
  lemma {:induction false} CollectStops(acc: seq<Game>, results: seq<Result<Game, Failure>>, k: nat)
    requires k < |results| && results[k].Err? && forall j :: 0 <= j < k ==> results[j].Ok?
    ensures Collect(acc, results) == Err(results[k].error)
    decreases k
  {
    if k > 0 {
      assert results[0].Ok?;
      CollectStops(acc + [results[0].value], results[1..], k - 1);
    }
  }

  /** The first record whose id or counts do not fit. */
  lemma {:induction false} FirstUnfitting(records: seq<Record>) returns (k: nat)
    requires !Readable(records)
    ensures k < |records| && !Fitting(records[k]) && forall j :: 0 <= j < k ==> Fitting(records[j])
  {
    if Fitting(records[0]) {
      assert !Readable(records[1..]) by {
        var i :| 0 <= i < |records| && !Fitting(records[i]);
        assert records[1..][i - 1] == records[i];
      }
      var i := FirstUnfitting(records[1..]);
      k := i + 1;
      assert forall j :: 1 <= j < k ==> records[j] == records[1..][j - 1];
    } else {
      k := 0;
    }
  }

  /** A puzzle input with an id beyond `u32` or a count beyond `u8` makes `get_input` fail to parse. */
  lemma InputFails(records: seq<Record>, newline: bool)
    requires !Readable(records)
    ensures Input(InputText(records, newline)) == Err(ParseFailed)
  {
    var k := FirstUnfitting(records);
    var lines := Split(InputText(records, newline), '\n');
    var results := Reads(lines);
    InputLines(records, newline);
    forall j | 0 <= j < k ensures results[j].Ok? {
      LineRoundTrip(records[j].id, records[j].draws);
    }
    LineFails(records[k].id, records[k].draws);
    assert results[k] == Err(ParseFailed);
    CollectStops([], results, k);
  }
}
