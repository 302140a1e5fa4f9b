/**
 * rust/d04_1 main: the sum of the scores of the cards read, or 0 when
 * `get_input` fails.
 */
module Day04Rust1 {
  import opened Wrappers
  import opened Scratchcards
  import opened Day04Rust

  /** The points of the cards, added in order, each taken modulo the `usize` range as `get_score` computes it. */
  function ScoreSum(cards: seq<Card>): nat {
    if cards == [] then 0
    else
      var c := cards[|cards| - 1];
      ScoreSum(cards[..|cards| - 1]) + Points(Matches(c.winningNbs, c.cardNbs)) % UsizeModulus
  }

  /** main's loop over the cards read. */
  method Solve(cards: seq<Card>) returns (result: nat)
    ensures result == ScoreSum(cards)
  {
    result := 0;
    for i := 0 to |cards|
      invariant result == ScoreSum(cards[..i])
    {
      var score := GetScore(cards[i]);
      result := result + score;
      assert cards[..i + 1][..i] == cards[..i];
    }
    assert cards[..|cards|] == cards;
  }

  /** With at most ten winning numbers on every card no score wraps, and the sum is the sum of the points. */
  lemma {:induction false} ScoreSumPoints(cards: seq<Card>)
    requires forall k :: 0 <= k < |cards| ==> |cards[k].winningNbs| <= SizeWinnings
    ensures ScoreSum(cards) == PointsSum(MatchCounts(cards))
  {
    if cards != [] {
      var n := |cards| - 1;
      var c := cards[n];
      assert MatchCounts(cards)[..n] == MatchCounts(cards[..n]);
      ScoreSumPoints(cards[..n]);
      MatchesBound(c.winningNbs, c.cardNbs);
      var m := Matches(c.winningNbs, c.cardNbs);
      if m > 0 {
        Pow2Small(m - 1);
      }
    }
  }

  /** What main prints for the file's content. */
  function Answer(content: string): nat {
    match Input(content)
    case Err(_) => 0
    case Ok(cards) => ScoreSum(cards)
  }

  /** main once the file is read: the error is reported and the result stays 0. */
  method Run(content: string) returns (result: nat)
    ensures result == Answer(content)
  {
    var input := GetInput(content);
    result := 0;
    if input.Ok? {
      result := Solve(input.value);
    }
  }

  /** The printed answer is the sum of the points of the cards read. */
  lemma AnswerPoints(content: string)
    requires Input(content).Ok?
    ensures Answer(content) == PointsSum(MatchCounts(Input(content).value))
  {
    InputCounts(content);
    ScoreSumPoints(Input(content).value);
  }

  /** For a table of card lines `get_card` accepts, main prints the sum of the cards' points. */
  lemma TableAnswer(ts: seq<CardText>)
    requires |ts| >= 1 && AllWellLaid(ts) && forall k :: 0 <= k < |ts| ==> Accepted(ts[k])
    ensures Answer(TableText(ts)) == PointsSum(TableMatches(ts))
  {
    InputRoundTrip(ts);
    AnswerPoints(TableText(ts));
    TableCounts(ts);
  }

  /** After a trailing newline the parse fails, and main prints 0. */
  lemma TrailingAnswer(content: string)
    ensures Answer(content + "\n") == 0
  {
    TrailingNewline(content);
  }
}
