/**
 * rust/d02_01 main: the sum of the ids of the games read whose maxima
 * stay within 12 red, 13 green and 14 blue cubes.
 */
module Day02Rust1 {
  import opened Wrappers
  import opened Cubes
  import opened Day02Rust

  const NbRed: nat := 12
  const NbGreen: nat := 13
  const NbBlue: nat := 14

  /** The limit test of main's loop. */
  predicate WithinLimits(g: Game) {
    g.red <= NbRed && g.green <= NbGreen && g.blue <= NbBlue
  }

  /** The ids of the games within the limits, added in order. */
  function IdSum(games: seq<Game>): nat {
    if games == [] then 0
    else IdSum(games[..|games| - 1]) + (if WithinLimits(games[|games| - 1]) then games[|games| - 1].id else 0)
  }

  /** main's loop over the games read. */
  method Solve(games: seq<Game>) returns (result: nat)
    ensures result == IdSum(games)
  {
    result := 0;
    for i := 0 to |games|
      invariant result == IdSum(games[..i])
    {
      var game := games[i];
      if game.red <= NbRed && game.green <= NbGreen && game.blue <= NbBlue {
        result := result + game.id;
      }
      assert games[..i + 1][..i] == games[..i];
    }
    assert games[..|games|] == games;
  }

  /** A record's game is within the limits exactly when the game is possible with the puzzle's bag. */
  lemma WithinIffPossible(r: Record)
    ensures WithinLimits(Expected(r)) <==> Possible(r.draws, Puzzle)
  {
    PossibleIffFewest(r.draws, Puzzle);
    assert Holds(Fewest(r.draws), Red) == Expected(r).red;
    assert Holds(Fewest(r.draws), Green) == Expected(r).green;
    assert Holds(Fewest(r.draws), Blue) == Expected(r).blue;
  }

  /** The sum over the records' games is the sum of the ids of the possible games. */
  lemma {:induction false} IdSumExpected(records: seq<Record>)
    ensures IdSum(ExpectedAll(records)) == PossibleIdSum(records, Puzzle)
  {
    if records != [] {
      var n := |records| - 1;
      assert ExpectedAll(records)[..n] == ExpectedAll(records[..n]);
      IdSumExpected(records[..n]);
      WithinIffPossible(records[n]);
    }
  }

  /** The answer main prints for a puzzle input is the sum of the ids of the possible games. */
  lemma Answer(records: seq<Record>, newline: bool)
    requires Readable(records)
    ensures Input(InputText(records, newline)) == Ok(InputGames(records, newline))
    ensures IdSum(InputGames(records, newline)) == PossibleIdSum(records, Puzzle)
  {
    InputRoundTrip(records, newline);
    IdSumExpected(records);
    var games := InputGames(records, newline);
    if newline || records == [] {
      assert games[..|games| - 1] == ExpectedAll(records);
    } else {
      assert games == ExpectedAll(records);
    }
  }
}
