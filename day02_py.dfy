/**
 * py/02/prog.py: `parse_input_line_to_dict` turns a line into a dict with
 * the game's id and, per colour, the largest count pulled.  The id is the
 * int after "Game " in the text before the first ':'; the draws after it
 * are split on ';' and ',', and every colour of `_colors` (blue, red,
 * green) whose name a piece contains counts the int before the name.  An
 * IndexError or ValueError is None.  The second question sums
 * red * green * blue over the lines.
 */
module Day02Py {
  import opened Wrappers
  import opened Text
  import opened Cubes

  /** The dict returned: its keys "id", "blue", "red" and "green". */
  datatype Dico = Dico(id: int, blue: int, red: int, green: int)

  /** `_colors`, in the order the pieces are tested. */
  const Colors: seq<Colour> := [Blue, Red, Green]

  function Entry(d: Dico, c: Colour): int {
    match c
    case Red => d.red
    case Green => d.green
    case Blue => d.blue
  }

  /** `if dico[color] < n: dico[color] = n`. */
  function Raise(d: Dico, c: Colour, n: int): (r: Dico)
    ensures Entry(r, c) == (if Entry(d, c) < n then n else Entry(d, c)) && r.id == d.id
    ensures forall other :: other != c ==> Entry(r, other) == Entry(d, other)
  {
    if Entry(d, c) < n then
      match c
      case Red => d.(red := n)
      case Green => d.(green := n)
      case Blue => d.(blue := n)
    else d
  }

  /** `int(line.split(":")[0].split("Game ")[1].strip().rstrip())`. */
  function IdOf(line: string): Option<int> {
    var parts := SplitOn(Split(line, ':')[0], "Game ");
    if |parts| < 2 then None else PyInt(TrimEnd(Trim(parts[1])))
  }

  /** `int(pulled_color.split(color)[0].strip().rstrip())`. */
  function Amount(pulled: string, c: Colour): Option<int> {
    PyInt(TrimEnd(Trim(SplitOn(pulled, Name(c))[0])))
  }

  /** One colour tested on one piece. */
  function ColorStep(d: Dico, pulled: string, c: Colour): Option<Dico> {
    if !Contains(pulled, Name(c)) then Some(d)
    else match Amount(pulled, c)
      case None => None
      case Some(n) => Some(Raise(d, c, n))
  }

  /** The colours tested on one piece in order. */
  function ColorsStep(d: Dico, pulled: string, colors: seq<Colour>): Option<Dico>
    decreases |colors|
  {
    if colors == [] then Some(d)
    else match ColorStep(d, pulled, colors[0])
      case None => None
      case Some(h) => ColorsStep(h, pulled, colors[1..])
  }

  /** The pieces of one pull in order. */
  function TallyPulled(d: Dico, pieces: seq<string>): Option<Dico>
    decreases |pieces|
  {
    if pieces == [] then Some(d)
    else match ColorsStep(d, pieces[0], Colors)
      case None => None
      case Some(h) => TallyPulled(h, pieces[1..])
  }

  /** The pulls in order, each split on ",". */
  function TallyPulls(d: Dico, pulls: seq<string>): Option<Dico>
    decreases |pulls|
  {
    if pulls == [] then Some(d)
    else match TallyPulled(d, Split(pulls[0], ','))
      case None => None
      case Some(h) => TallyPulls(h, pulls[1..])
  }

  /** What `parse_input_line_to_dict` returns, None where it raises. */
  function LineDict(line: string): Option<Dico> {
    match IdOf(line)
    case None => None
    case Some(id) =>
      var segments := Split(line, ':');
      if |segments| < 2 then None
      else TallyPulls(Dico(id, 0, 0, 0), Split(segments[1], ';'))
  }

  /** `parse_input_line_to_dict`: the id, the colours set to 0, then the pull and piece loops. */
  method ParseInputLineToDict(line: string) returns (r: Option<Dico>)
    ensures r == LineDict(line)
  {
    var parts := SplitOn(Split(line, ':')[0], "Game ");
    if |parts| < 2 {
      return None;
    }
    var id := PyInt(TrimEnd(Trim(parts[1])));
    if id.None? {
      return None;
    }
    var dico := Dico(id.value, 0, 0, 0);
    var segments := Split(line, ':');
    if |segments| < 2 {
      return None;
    }
    var pulls := Split(segments[1], ';');
    for i := 0 to |pulls|
      invariant LineDict(line) == TallyPulls(dico, pulls[i..])
    {
      assert pulls[i..][0] == pulls[i] && pulls[i..][1..] == pulls[i + 1..];
      var next := ParsePull(dico, pulls[i]);
      if next.None? {
        return None;
      }
      dico := next.value;
    }
    return Some(dico);
  }

  /** The piece loop of one pull. */
  method ParsePull(d: Dico, pull: string) returns (r: Option<Dico>)
    ensures r == TallyPulled(d, Split(pull, ','))
  {
    var dico := d;
    var pieces := Split(pull, ',');
    for j := 0 to |pieces|
      invariant TallyPulled(d, pieces) == TallyPulled(dico, pieces[j..])
    {
      assert pieces[j..][0] == pieces[j] && pieces[j..][1..] == pieces[j + 1..];
      var next := ParsePiece(dico, pieces[j]);
      if next.None? {
        return None;
      }
      dico := next.value;
    }
    return Some(dico);
  }

  /** The colour loop of one piece. */
  method ParsePiece(d: Dico, pulled: string) returns (r: Option<Dico>)
    ensures r == ColorsStep(d, pulled, Colors)
  {
    var dico := d;
    for k := 0 to |Colors|
      invariant ColorsStep(d, pulled, Colors) == ColorsStep(dico, pulled, Colors[k..])
    {
      var color := Colors[k];
      assert Colors[k..][0] == color && Colors[k..][1..] == Colors[k + 1..];
      if Contains(pulled, Name(color)) {
        var n := PyInt(TrimEnd(Trim(SplitOn(pulled, Name(color))[0])));
        if n.None? {
          return None;
        }
        if Entry(dico, color) < n.value {
          dico := Raise(dico, color, n.value);
        }
      }
    }
    return Some(dico);
  }

  /** The colours' entries are not negative, as they are from the start. */
  predicate Natural(d: Dico) {
    d.blue >= 0 && d.red >= 0 && d.green >= 0
  }

  function Top(a: int, b: nat): int {
    if a < b then b else a
  }

  /** The dict with every colour raised to the most one draw shows. */
  function RaisedIn(d: Dico, draw: Draw): Dico {
    Dico(d.id, Top(d.blue, MostIn(draw, Blue)), Top(d.red, MostIn(draw, Red)), Top(d.green, MostIn(draw, Green)))
  }

  /** The dict with every colour raised to the most the draws show. */
  function RaisedBy(d: Dico, draws: seq<Draw>): Dico {
    Dico(d.id, Top(d.blue, Most(draws, Blue)), Top(d.red, Most(draws, Red)), Top(d.green, Most(draws, Green)))
  }

  /** What the last piece of a line read by `readlines` ends with: nothing, or the newline. */
  predicate LineEnd(e: string) {
    e == "" || e == "\n"
  }

  /** A letter of the colour's name that no other name holds. */
  function Letter(c: Colour): (x: char)
    ensures x in Name(c) && forall other :: other != c ==> x !in Name(other)
    ensures x != ' ' && !IsDigit(x) && x != '\n'
  {
    match c
    case Blue => 'b'
    case Red => 'd'
    case Green => 'g'
  }

  /** A colour's record, maybe with the newline after it, contains the name of its colour and of no other. */
  lemma ContainsName(s: Shown, e: string, c: Colour)
    requires LineEnd(e)
    ensures Contains(ShownText(s) + e, Name(c)) <==> c == s.colour
  {
    var t := ShownText(s) + e;
    var d := Decimal(s.count);
    assert t == " " + d + " " + Name(s.colour) + e;
    if c == s.colour {
      assert t[|d| + 2..|d| + 2 + |Name(c)|] == Name(c);
      ContainsAt(t, Name(c), |d| + 2);
    } else {
      var x := Letter(c);
      ShownChars(s, x);
      assert x !in t;
      LacksChar(t, Name(c), x);
    }
  }

  /** The int before a colour's name in its record is its count. */
  lemma AmountShown(s: Shown, e: string)
    requires LineEnd(e)
    ensures Amount(ShownText(s) + e, s.colour) == Some(s.count as int)
  {
    var d := Decimal(s.count);
    var p := " " + d + " ";
    var name := Name(s.colour);
    assert ShownText(s) + e == p + name + e;
    assert name[0] == Letter(s.colour) || name[0] in name;
    assert name[0] !in p;
    SplitOnHead(p, name, e);
    TrimAround(" ", d, " ");
    assert TrimEnd(d) == d;
    PyIntDigits(d);
  }

  /** One colour on a piece whose only name is c's, with the amount n. */
  lemma StepOnly(d: Dico, t: string, x: Colour, c: Colour, n: int)
    requires Contains(t, Name(x)) <==> x == c
    requires Amount(t, c) == Some(n)
    ensures ColorStep(d, t, x) == Some(if x == c then Raise(d, c, n) else d)
  {
  }

  /** A piece whose only name is c's, with the amount n, raises c to n. */
  lemma ColorsOnly(d: Dico, t: string, c: Colour, n: int)
    requires forall x :: Contains(t, Name(x)) <==> x == c
    requires Amount(t, c) == Some(n)
    ensures ColorsStep(d, t, Colors) == Some(Raise(d, c, n))
  {
    StepOnly(d, t, Blue, c, n);
    var d1 := if Blue == c then Raise(d, c, n) else d;
    StepOnly(d1, t, Red, c, n);
    var d2 := if Red == c then Raise(d1, c, n) else d1;
    StepOnly(d2, t, Green, c, n);
    ThreeSteps(d, t);
  }

  /** The colour loop on one piece is the three colours' steps in turn. */
  lemma ThreeSteps(d: Dico, t: string)
    ensures ColorStep(d, t, Blue).None? ==> ColorsStep(d, t, Colors).None?
    ensures ColorStep(d, t, Blue).Some? ==>
      ColorsStep(d, t, Colors) == ColorsStep(ColorStep(d, t, Blue).value, t, [Red, Green])
    ensures forall h :: ColorStep(h, t, Red).None? ==> ColorsStep(h, t, [Red, Green]).None?
    ensures forall h :: ColorStep(h, t, Red).Some? ==>
      ColorsStep(h, t, [Red, Green]) == ColorsStep(ColorStep(h, t, Red).value, t, [Green])
    ensures forall h :: ColorsStep(h, t, [Green]) == ColorStep(h, t, Green)
  {
    assert Colors[1..] == [Red, Green] && [Red, Green][1..] == [Green] && [Green][1..] == [];
  }

  /** A colour's record, maybe with the newline after it, raises its colour to its count. */
  lemma PieceRead(d: Dico, s: Shown, e: string)
    requires LineEnd(e)
    ensures ColorsStep(d, ShownText(s) + e, Colors) == Some(Raise(d, s.colour, s.count))
  {
    forall x ensures Contains(ShownText(s) + e, Name(x)) <==> x == s.colour {
      ContainsName(s, e, x);
    }
    AmountShown(s, e);
    ColorsOnly(d, ShownText(s) + e, s.colour, s.count);
  }

  /** Raising by the first entry and then by the rest is raising by the whole draw. */
  lemma RaiseStep(d: Dico, draw: Draw)
    requires draw != [] && Natural(d)
    ensures Natural(Raise(d, draw[0].colour, draw[0].count))
    ensures RaisedIn(Raise(d, draw[0].colour, draw[0].count), draw[1..]) == RaisedIn(d, draw)
  {
    var h := Raise(d, draw[0].colour, draw[0].count);
    assert Entry(h, Blue) == Top(Entry(d, Blue), CountOf(draw[0], Blue));
    assert Entry(h, Red) == Top(Entry(d, Red), CountOf(draw[0], Red));
    assert Entry(h, Green) == Top(Entry(d, Green), CountOf(draw[0], Green));
  }

  /** The pieces of a draw, the last maybe with the newline, raise every colour to the most the draw shows. */
  lemma {:induction false} PiecesRead(d: Dico, draw: Draw, e: string)
    requires draw != [] && LineEnd(e) && Natural(d)
    ensures TallyPulled(d, Suffixed(ShownTexts(draw), e)) == Some(RaisedIn(d, draw))
    decreases |draw|
  {
    RaiseStep(d, draw);
    if |draw| == 1 {
      LastPiece(d, draw[0], e);
      assert draw[1..] == [];
    } else {
      var h := Raise(d, draw[0].colour, draw[0].count);
      PieceStep(d, draw, e);
      PiecesRead(h, draw[1..], e);
    }
  }

  /** A one-colour draw, maybe with the newline, raises its colour. */
  lemma LastPiece(d: Dico, s: Shown, e: string)
    requires LineEnd(e)
    ensures TallyPulled(d, Suffixed(ShownTexts([s]), e)) == Some(Raise(d, s.colour, s.count))
  {
    PieceRead(d, s, e);
    var pieces := Suffixed(ShownTexts([s]), e);
    assert pieces == [ShownText(s) + e] && pieces[1..] == [];
  }

  /** The first colour of a longer draw is read, then the rest of the draw. */
  lemma PieceStep(d: Dico, draw: Draw, e: string)
    requires |draw| >= 2 && LineEnd(e)
    ensures TallyPulled(d, Suffixed(ShownTexts(draw), e)) ==
      TallyPulled(Raise(d, draw[0].colour, draw[0].count), Suffixed(ShownTexts(draw[1..]), e))
  {
    var pieces := Suffixed(ShownTexts(draw), e);
    PieceRead(d, draw[0], "");
    assert pieces[0] == ShownText(draw[0]) + "";
    assert ShownTexts(draw)[1..] == ShownTexts(draw[1..]);
    assert pieces[1..] == Suffixed(ShownTexts(draw[1..]), e);
  }

  /** Text without any name of a colour changes nothing. */
  lemma NoName(d: Dico, e: string)
    requires LineEnd(e)
    ensures ColorsStep(d, e, Colors) == Some(d)
  {
    forall x ensures !Contains(e, Name(x)) {
      LacksChar(e, Name(x), Letter(x));
    }
    ColorsNone(d, e);
  }

  lemma ColorsNone(d: Dico, t: string)
    requires forall x :: !Contains(t, Name(x))
    ensures ColorsStep(d, t, Colors) == Some(d)
  {
    assert Colors[1..] == [Red, Green] && [Red, Green][1..] == [Green] && [Green][1..] == [];
  }

  /** A lone text without ',' is one piece. */
  lemma OnePiece(e: string, sep: char)
    requires sep !in e
    ensures SplitOn(e, [sep]) == [e]
  {
    CharContains(e, sep);
  }

  /** A draw's record, maybe with the newline, splits on ',' into its colours' records, the last with the newline. */
  lemma DrawPieces(draw: Draw, e: string)
    requires draw != [] && ',' !in e
    ensures Split(DrawText(draw) + e, ',') == Suffixed(ShownTexts(draw), e)
  {
    JoinAppend(ShownTexts(draw), ",", e);
    Marks();
    ShownTextsChars(draw, ',');
    SuffixedLacks(ShownTexts(draw), e, ',');
    JoinSplit(Suffixed(ShownTexts(draw), e), ',');
  }

  /** A draw's record, maybe with the newline, raises every colour to the most the draw shows. */
  lemma PullRead(d: Dico, draw: Draw, e: string)
    requires LineEnd(e) && Natural(d)
    ensures TallyPulled(d, Split(DrawText(draw) + e, ',')) == Some(RaisedIn(d, draw))
  {
    assert ',' !in e;
    if draw == [] {
      assert DrawText(draw) + e == e;
      OnePiece(e, ',');
      NoName(d, e);
      assert [e][1..] == [];
    } else {
      DrawPieces(draw, e);
      PiecesRead(d, draw, e);
    }
  }

  /** Raising by the first draw and then by the rest is raising by all the draws. */
  lemma RaisedStep(d: Dico, draws: seq<Draw>)
    requires draws != []
    ensures RaisedBy(RaisedIn(d, draws[0]), draws[1..]) == RaisedBy(d, draws)
  {
  }

  /** The draws' records, the last maybe with the newline, raise every colour to the most the game shows. */
  lemma {:induction false} PullsRead(d: Dico, draws: seq<Draw>, e: string)
    requires draws != [] && LineEnd(e) && Natural(d)
    ensures TallyPulls(d, Suffixed(DrawTexts(draws), e)) == Some(RaisedBy(d, draws))
    decreases |draws|
  {
    var pulls := Suffixed(DrawTexts(draws), e);
    var h := RaisedIn(d, draws[0]);
    RaisedStep(d, draws);
    if |draws| == 1 {
      PullRead(d, draws[0], e);
      assert pulls == [DrawText(draws[0]) + e] && pulls[1..] == [];
      assert draws[1..] == [];
    } else {
      PullRead(d, draws[0], "");
      assert pulls[0] == DrawText(draws[0]) + "";
      assert DrawTexts(draws)[1..] == DrawTexts(draws[1..]);
      assert pulls[1..] == Suffixed(DrawTexts(draws[1..]), e);
      PullsRead(h, draws[1..], e);
    }
  }

  /** The text after the colon, maybe with the newline, raises every colour to the most the game shows. */
  lemma RestRead(d: Dico, draws: seq<Draw>, e: string)
    requires LineEnd(e) && Natural(d)
    ensures TallyPulls(d, Split(Join(DrawTexts(draws), ";") + e, ';')) == Some(RaisedBy(d, draws))
  {
    if draws == [] {
      assert Join(DrawTexts(draws), ";") + e == e;
      assert ';' !in e && ',' !in e;
      assert Split(e, ';') == [e] && Split(e, ',') == [e];
      NoName(d, e);
      assert TallyPulled(d, [e]) == Some(d) by {
        assert [e][1..] == [];
      }
      assert [e][1..] == [];
    } else {
      JoinAppend(DrawTexts(draws), ";", e);
      Marks();
      DrawTextsChars(draws, ';');
      SuffixedLacks(DrawTexts(draws), e, ';');
      JoinSplit(Suffixed(DrawTexts(draws), e), ';');
      PullsRead(d, draws, e);
    }
  }

  /** The head of a record splits on "Game " into nothing and the id's digits. */
  lemma HeadParts(d: string)
    requires 'G' !in d
    ensures SplitOn("Game " + d, "Game ") == ["", d]
  {
    var head := "Game " + d;
    assert head[..5] == "Game " && head[5..] == d;
    LacksChar(d, "Game ", 'G');
  }

  /** The id of a record, maybe with the newline, is read back. */
  lemma IdRead(id: nat, rest: string)
    ensures IdOf("Game " + Decimal(id) + ":" + rest) == Some(id as int)
  {
    var d := Decimal(id);
    var head := "Game " + d;
    HeadMarks(id);
    SplitOnHead(head, ":", rest);
    assert 'G' !in d;
    HeadParts(d);
    assert Trim(d) == d;
    assert TrimEnd(d) == d;
    PyIntDigits(d);
  }

  /** A line split on ':' into the head and the rest reads its draws from the rest. */
  lemma LineParts(line: string, head: string, rest: string, id: int)
    requires IdOf(line) == Some(id) && Split(line, ':') == [head, rest]
    ensures LineDict(line) == TallyPulls(Dico(id, 0, 0, 0), Split(rest, ';'))
  {
  }

  /** The dict a record should be read as: its id and the fewest cubes per colour. */
  function Expected(r: Record): Dico {
    Dico(r.id, Most(r.draws, Blue), Most(r.draws, Red), Most(r.draws, Green))
  }

  /**
   * The record of a game, maybe with the newline `readlines` keeps, is
   * read as its id and the most cubes shown per colour.
   */
  lemma LineRoundTrip(r: Record, e: string)
    requires LineEnd(e)
    ensures LineDict(GameLine(r.id, r.draws) + e) == Some(Expected(r))
  {
    var rest := Join(DrawTexts(r.draws), ";");
    var line := GameLine(r.id, r.draws) + e;
    LineId(r, e);
    LineSplit(r, e);
    LineParts(line, "Game " + Decimal(r.id), rest + e, r.id);
    RestRead(Dico(r.id, 0, 0, 0), r.draws, e);
  }

  /** The id of a game's record, maybe with the newline, is read back. */
  lemma LineId(r: Record, e: string)
    ensures IdOf(GameLine(r.id, r.draws) + e) == Some(r.id as int)
  {
    var front := "Game " + Decimal(r.id) + ":";
    var rest := Join(DrawTexts(r.draws), ";");
    assert GameLine(r.id, r.draws) == front + rest;
    assert (front + rest) + e == front + (rest + e);
    IdRead(r.id, rest + e);
  }

  /** The record of a game, maybe with the newline, splits on ':' into its head and its draws' records. */
  lemma LineSplit(r: Record, e: string)
    requires LineEnd(e)
    ensures Split(GameLine(r.id, r.draws) + e, ':') == ["Game " + Decimal(r.id), Join(DrawTexts(r.draws), ";") + e]
  {
    var head := "Game " + Decimal(r.id);
    var rest := Join(DrawTexts(r.draws), ";") + e;
    HeadMarks(r.id);
    Marks();
    DrawsChars(r.draws, ':');
    assert ':' !in rest;
    JoinSplit([head, rest], ':');
    assert Join([head, rest], ":") == GameLine(r.id, r.draws) + e by {
      assert [head, rest][1..] == [rest];
    }
  }

  /** Each line of the input parsed on its own. */
  function Parsed(lines: seq<string>): (r: seq<Option<Dico>>)
    ensures |r| == |lines| && forall k :: 0 <= k < |lines| ==> r[k] == LineDict(lines[k])
  {
    seq(|lines|, k requires 0 <= k < |lines| => LineDict(lines[k]))
  }

  /** The dicts appended in order to acc; None once a line raises. */
  function Gather(acc: seq<Dico>, results: seq<Option<Dico>>): Option<seq<Dico>>
    decreases |results|
  {
    if results == [] then Some(acc)
    else match results[0]
      case None => None
      case Some(d) => Gather(acc + [d], results[1..])
  }

  /** `bag_dict_list`: the dict of every line of the input, None when one raises. */
  function Dicts(lines: seq<string>): Option<seq<Dico>> {
    Gather([], Parsed(lines))
  }

  /** The loop that appends `parse_input_line_to_dict(line)` for every line. */
  method BagDictList(lines: seq<string>) returns (r: Option<seq<Dico>>)
    ensures r == Dicts(lines)
  {
    ghost var results := Parsed(lines);
    var list: seq<Dico> := [];
    for i := 0 to |lines|
      invariant Dicts(lines) == Gather(list, results[i..])
    {
      assert results[i..][0] == results[i] && results[i..][1..] == results[i + 1..];
      var dico := ParseInputLineToDict(lines[i]);
      if dico.None? {
        return None;
      }
      list := list + [dico.value];
    }
    return Some(list);
  }

  /** Gathering stops exactly at a line that raises, and otherwise keeps every dict in order. */
  lemma {:induction false} GatherSpec(acc: seq<Dico>, results: seq<Option<Dico>>)
    ensures Gather(acc, results).None? <==> exists k :: 0 <= k < |results| && results[k].None?
    ensures Gather(acc, results).Some? ==>
      var r := Gather(acc, results).value;
      |r| == |acc| + |results| && r[..|acc|] == acc &&
      forall k :: 0 <= k < |results| ==> results[k] == Some(r[|acc| + k])
    decreases |results|
  {
    if results != [] {
      GatherSpec(if results[0].Some? then acc + [results[0].value] else acc, results[1..]);
      if results[0].Some? {
        var r := Gather(acc, results);
        if r.Some? {
          forall k | 0 <= k < |results| ensures results[k] == Some(r.value[|acc| + k]) {
            if k > 0 {
              assert results[k] == results[1..][k - 1];
            }
          }
          assert r.value[..|acc|] == (acc + [results[0].value])[..|acc|];
        }
        if exists k :: 0 <= k < |results| && results[k].None? {
          var k :| 0 <= k < |results| && results[k].None?;
          assert results[1..][k - 1].None?;
        }
      }
    }
  }

  /** The parse of the input fails exactly when a line's does, and otherwise has every line's dict. */
  lemma DictsSpec(lines: seq<string>)
    ensures Dicts(lines).None? <==> exists k :: 0 <= k < |lines| && LineDict(lines[k]).None?
    ensures Dicts(lines).Some? ==>
      |Dicts(lines).value| == |lines| &&
      forall k :: 0 <= k < |lines| ==> LineDict(lines[k]) == Some(Dicts(lines).value[k])
  {
    GatherSpec([], Parsed(lines));
    if Dicts(lines).None? {
      var k :| 0 <= k < |lines| && Parsed(lines)[k].None?;
    }
  }

  /** What the second question adds up: red * green * blue over the dicts. */
  function PowerTotal(dicts: seq<Dico>): int {
    if dicts == [] then 0
    else
      var bag := dicts[|dicts| - 1];
      PowerTotal(dicts[..|dicts| - 1]) + bag.red * bag.green * bag.blue
  }

  /** The second question's loop over `bag_dict_list`. */
  method Question2(dicts: seq<Dico>) returns (result: int)
    ensures result == PowerTotal(dicts)
  {
    result := 0;
    for i := 0 to |dicts|
      invariant result == PowerTotal(dicts[..i])
    {
      var bag := dicts[i];
      result := result + bag.red * bag.green * bag.blue;
      assert dicts[..i + 1][..i] == dicts[..i];
    }
    assert dicts[..|dicts|] == dicts;
  }

  /** What `readlines` returns for the records: each line keeps its newline, the last only when the file ends with one. */
  function PyLines(records: seq<Record>, newline: bool): (r: seq<string>)
    ensures |r| == |records|
  {
    seq(|records|, k requires 0 <= k < |records| =>
      GameLine(records[k].id, records[k].draws) + (if k < |records| - 1 || newline then "\n" else ""))
  }

  function ExpectedDicts(records: seq<Record>): (r: seq<Dico>)
    ensures |r| == |records| && forall k :: 0 <= k < |records| ==> r[k] == Expected(records[k])
  {
    seq(|records|, k requires 0 <= k < |records| => Expected(records[k]))
  }

  /** The dicts' powers are the powers of the games' fewest cubes. */
  lemma {:induction false} PowerTotalExpected(records: seq<Record>)
    ensures PowerTotal(ExpectedDicts(records)) == TotalPower(records)
  {
    if records != [] {
      var n := |records| - 1;
      assert ExpectedDicts(records)[..n] == ExpectedDicts(records[..n]);
      PowerTotalExpected(records[..n]);
    }
  }

  /**
   * Every record of a file is read back as its id and the most cubes per
   * colour, and the program's second answer is the sum of the games' powers.
   */
  lemma Answer(records: seq<Record>, newline: bool)
    ensures Dicts(PyLines(records, newline)) == Some(ExpectedDicts(records))
    ensures PowerTotal(ExpectedDicts(records)) == TotalPower(records)
  {
    var lines := PyLines(records, newline);
    forall k | 0 <= k < |records| ensures LineDict(lines[k]) == Some(Expected(records[k])) {
      var e: string := if k < |records| - 1 || newline then "\n" else "";
      assert LineEnd(e);
      LineRoundTrip(records[k], e);
    }
    DictsSpec(lines);
    PowerTotalExpected(records);
    assert Dicts(lines).value == ExpectedDicts(records);
  }
}
