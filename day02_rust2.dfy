/**
 * rust/d02_2 main: each game read gets its power, the product of its
 * red, green and blue maxima as `u32`, and the powers are summed.
 */
module Day02Rust2 {
  import opened Wrappers
  import opened Cubes
  import opened Day02Rust

  /** `red as u32 * green as u32 * blue as u32`. */
  function PowerOf(g: Game): nat {
    g.red * g.green * g.blue
  }

  /** The power of counts read as `u8` fits a `u32`: the product cannot overflow. */
  lemma PowerFits(g: Game)
    requires g.red <= U8Max && g.green <= U8Max && g.blue <= U8Max
    ensures PowerOf(g) <= U32Max
  {
    assert g.red * g.green <= U8Max * U8Max by {
      MulMono(g.red, U8Max, g.green, U8Max);
    }
    MulMono(g.red * g.green, U8Max * U8Max, g.blue, U8Max);
  }

  lemma MulMono(a: nat, b: nat, c: nat, d: nat)
    requires a <= b && c <= d
    ensures a * c <= b * d
  {
    assert a * c <= b * c;
    assert b * c <= b * d;
  }

  /** The powers of the games, added in order. */
  function PowerSum(games: seq<Game>): nat {
    if games == [] then 0 else PowerSum(games[..|games| - 1]) + PowerOf(games[|games| - 1])
  }

  /** main's loop: the power of each game, then its sum. */
  method Solve(games: seq<Game>) returns (result: nat)
    ensures result == PowerSum(games)
  {
    result := 0;
    for i := 0 to |games|
      invariant result == PowerSum(games[..i])
    {
      var game := games[i];
      var power := game.red * game.green * game.blue;
      result := result + power;
      assert games[..i + 1][..i] == games[..i];
    }
    assert games[..|games|] == games;
  }

  /** The sum over the records' games is the sum of the games' powers. */
  lemma {:induction false} PowerSumExpected(records: seq<Record>)
    ensures PowerSum(ExpectedAll(records)) == TotalPower(records)
  {
    if records != [] {
      var n := |records| - 1;
      assert ExpectedAll(records)[..n] == ExpectedAll(records[..n]);
      PowerSumExpected(records[..n]);
    }
  }

  /** The answer main prints for a puzzle input is the sum of the games' powers. */
  lemma Answer(records: seq<Record>, newline: bool)
    requires Readable(records)
    ensures Input(InputText(records, newline)) == Ok(InputGames(records, newline))
    ensures PowerSum(InputGames(records, newline)) == TotalPower(records)
  {
    InputRoundTrip(records, newline);
    PowerSumExpected(records);
    var games := InputGames(records, newline);
    if newline || records == [] {
      assert games[..|games| - 1] == ExpectedAll(records);
    } else {
      assert games == ExpectedAll(records);
    }
  }
}
