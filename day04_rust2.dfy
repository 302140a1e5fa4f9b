/**
 * rust/d04_2 main: every card starts with one instance; card by card, the
 * current amount of a card is added to each of the cards whose index is in
 * `id .. min(id + matches, len)`; the answer is the sum of the amounts.
 * With the ids 1, 2, ... of the puzzle that index run is the matches cards
 * after it, and the amounts are the instances of the puzzle.
 */
module Day04Rust2 {
  import opened Wrappers
  import opened Scratchcards
  import opened Day04Rust

  /** A card of rust/d04_2: the numbers `Card::new` keeps and the amount of instances held. */
  datatype Held = Held(card: Card, amount: nat)

  /** `Card::new` in rust/d04_2 sets the amount to 1. */
  function Deal(cards: seq<Card>): (r: seq<Held>)
    ensures |r| == |cards| && forall k :: 0 <= k < |cards| ==> r[k] == Held(cards[k], 1)
  {
    seq(|cards|, k requires 0 <= k < |cards| => Held(cards[k], 1))
  }

  function Amounts(vs: seq<Held>): (r: seq<nat>)
    ensures |r| == |vs| && forall k :: 0 <= k < |vs| ==> r[k] == vs[k].amount
  {
    seq(|vs|, k requires 0 <= k < |vs| => vs[k].amount)
  }

  function Cards(vs: seq<Held>): (r: seq<Card>)
    ensures |r| == |vs| && forall k :: 0 <= k < |vs| ==> r[k] == vs[k].card
  {
    seq(|vs|, k requires 0 <= k < |vs| => vs[k].card)
  }

  /**
   * The inner loop of main: vs[lo], ..., vs[hi - 1] in turn get the amount
   * vs[j] holds at that moment added to theirs.
   */
  function Credit(vs: seq<Held>, j: nat, lo: nat, hi: nat): (r: seq<Held>)
    requires j < |vs| && hi <= |vs|
    ensures |r| == |vs|
    decreases hi - lo
  {
    if lo >= hi then vs
    else Credit(vs[lo := vs[lo].(amount := vs[lo].amount + vs[j].amount)], j, lo + 1, hi)
  }

  /** The end of card j's run: `min(id + amount_matches, vec_len)`. */
  function RunEnd(vs: seq<Held>, j: nat): nat
    requires j < |vs|
  {
    Min(vs[j].card.id + Matches(vs[j].card.winningNbs, vs[j].card.cardNbs), |vs|)
  }

  /** The table once main's outer loop has processed cards 0 .. p - 1. */
  function Processed(vs: seq<Held>, p: nat): (r: seq<Held>)
    requires p <= |vs|
    ensures |r| == |vs|
  {
    if p == 0 then vs
    else
      var prev := Processed(vs, p - 1);
      Credit(prev, p - 1, prev[p - 1].card.id, RunEnd(prev, p - 1))
  }

  /** main's copy loop over `vec`, updated in place. */
  method CopyCards(vec: array<Held>)
    modifies vec
    ensures vec[..] == Processed(old(vec[..]), vec.Length)
  {
    ghost var v0 := vec[..];
    for index := 0 to vec.Length
      invariant vec[..] == Processed(v0, index)
    {
      var amountMatches := AmountMatches(vec[index].card);
      var lo := vec[index].card.id;
      var hi := Min(lo + amountMatches, vec.Length);
      ghost var before := vec[..];
      var i := lo;
      while i < hi
        invariant Credit(vec[..], index, i, hi) == Credit(before, index, lo, hi)
        decreases hi - i
      {
        ghost var current := vec[..];
        vec[i] := vec[i].(amount := vec[i].amount + vec[index].amount);
        assert vec[..] == current[i := current[i].(amount := current[i].amount + current[index].amount)];
        i := i + 1;
      }
    }
  }

  /** `result += card.amount` over the cards. */
  function AmountSum(vs: seq<Held>): nat {
    if vs == [] then 0 else AmountSum(vs[..|vs| - 1]) + vs[|vs| - 1].amount
  }

  /** main once `get_input` succeeded: the copies, then the sum of the amounts. */
  method Solve(cards: seq<Card>) returns (result: nat)
    ensures result == AmountSum(Processed(Deal(cards), |cards|))
  {
    var vec := new Held[|cards|](k requires 0 <= k < |cards| => Held(cards[k], 1));
    assert vec[..] == Deal(cards);
    CopyCards(vec);
    result := 0;
    for k := 0 to vec.Length
      invariant result == AmountSum(vec[..k])
    {
      result := result + vec[k].amount;
      assert vec[..k + 1][..k] == vec[..k];
    }
    assert vec[..vec.Length] == vec[..];
  }

  /** What main prints for the file's content. */
  function Answer(content: string): nat {
    match Input(content)
    case Err(_) => 0
    case Ok(cards) => AmountSum(Processed(Deal(cards), |cards|))
  }

  /** main once the file is read: the error is reported and the result stays 0. */
  method Run(content: string) returns (result: nat)
    ensures result == Answer(content)
  {
    var input := GetInput(content);
    result := 0;
    if input.Ok? {
      result := Solve(input.value);
    }
  }

  /**
   * The inner loop changes only the cards of the run, never a card's
   * numbers, and never lowers an amount.
   */
  lemma {:induction false} CreditFrame(vs: seq<Held>, j: nat, lo: nat, hi: nat, k: nat)
    requires j < |vs| && hi <= |vs| && k < |vs|
    ensures Credit(vs, j, lo, hi)[k].card == vs[k].card
    ensures Credit(vs, j, lo, hi)[k].amount >= vs[k].amount
    ensures (k < lo || hi <= k) ==> Credit(vs, j, lo, hi)[k] == vs[k]
    decreases hi - lo
  {
    if lo < hi {
      var next := vs[lo := vs[lo].(amount := vs[lo].amount + vs[j].amount)];
      CreditFrame(next, j, lo + 1, hi, k);
    }
  }

  /** When the credited card is not in its own run, every card of the run gains exactly its amount. */
  lemma {:induction false} CreditAdds(vs: seq<Held>, j: nat, lo: nat, hi: nat, k: nat)
    requires j < lo && hi <= |vs| && lo <= k < hi
    ensures Credit(vs, j, lo, hi)[k].amount == vs[k].amount + vs[j].amount
    decreases hi - lo
  {
    var next := vs[lo := vs[lo].(amount := vs[lo].amount + vs[j].amount)];
    if k == lo {
      if lo + 1 < hi {
        CreditFrame(next, j, lo + 1, hi, k);
      }
    } else {
      CreditAdds(next, j, lo + 1, hi, k);
    }
  }

  /** Processing a card changes no card's numbers and lowers no amount. */
  lemma ProcessedGrows(vs: seq<Held>, p: nat, k: nat)
    requires p < |vs| && k < |vs|
    ensures Processed(vs, p + 1)[k].card == Processed(vs, p)[k].card
    ensures Processed(vs, p + 1)[k].amount >= Processed(vs, p)[k].amount
  {
    var prev := Processed(vs, p);
    CreditFrame(prev, p, prev[p].card.id, RunEnd(prev, p), k);
  }

  /** The puzzle's numbering: the card at index j has id j + 1. */
  predicate Consecutive(vs: seq<Held>) {
    forall j :: 0 <= j < |vs| ==> vs[j].card.id == j + 1
  }

  /** The numbers of the cards are those dealt. */
  lemma {:induction false} ProcessedCards(vs: seq<Held>, p: nat)
    requires p <= |vs|
    ensures Cards(Processed(vs, p)) == Cards(vs)
  {
    if p > 0 {
      ProcessedCards(vs, p - 1);
      forall k | 0 <= k < |vs| ensures Processed(vs, p)[k].card == vs[k].card {
        ProcessedGrows(vs, p - 1, k);
        assert Cards(Processed(vs, p - 1))[k] == vs[k].card;
      }
    }
  }

  /** With the puzzle's numbering, processing card p changes only the cards after it. */
  lemma OnlyLater(vs: seq<Held>, p: nat, k: nat)
    requires Consecutive(vs) && p < |vs| && k <= p
    ensures Processed(vs, p + 1)[k] == Processed(vs, p)[k]
  {
    var prev := Processed(vs, p);
    ProcessedCards(vs, p);
    assert Cards(prev)[p] == vs[p].card;
    CreditFrame(prev, p, prev[p].card.id, RunEnd(prev, p), k);
  }

  /**
   * With the puzzle's numbering, after cards 0 .. p - 1 are processed card
   * k holds its own amount and the copies won by the cards before it that
   * are processed.
   */
  predicate Settled(vs: seq<Held>, p: nat)
    requires p <= |vs|
  {
    forall k :: 0 <= k < |vs| ==>
      Processed(vs, p)[k].amount == vs[k].amount + Inflow(Amounts(vs), MatchCounts(Cards(vs)), k, Min(p, k))
  }

  lemma {:induction false} ProcessedSettled(vs: seq<Held>, p: nat)
    requires Consecutive(vs) && p <= |vs|
    ensures Settled(vs, p)
  {
    if p > 0 {
      ProcessedSettled(vs, p - 1);
      SettledStep(vs, p - 1);
    }
  }

  /** With the puzzle's numbering card p's run ends `ms[p]` cards after it, or at the end of the table. */
  lemma RunOf(vs: seq<Held>, p: nat)
    requires Consecutive(vs) && p < |vs|
    ensures Processed(vs, p)[p].card.id == p + 1
    ensures RunEnd(Processed(vs, p), p) == Min(p + 1 + MatchCounts(Cards(vs))[p], |vs|)
  {
    ProcessedCards(vs, p);
    assert Cards(Processed(vs, p))[p] == vs[p].card;
  }

  /** Once the cards before it are processed, card p holds its instances. */
  lemma OwnAmount(vs: seq<Held>, p: nat)
    requires p < |vs| && Settled(vs, p)
    ensures Processed(vs, p)[p].amount == Instances(Amounts(vs), MatchCounts(Cards(vs)), p)
  {
    assert Min(p, p) == p;
  }

  /** Card k's entry of Settled. */
  lemma SettledAt(vs: seq<Held>, p: nat, k: nat)
    requires p <= |vs| && k < |vs| && Settled(vs, p)
    ensures Processed(vs, p)[k].amount == vs[k].amount + Inflow(Amounts(vs), MatchCounts(Cards(vs)), k, Min(p, k))
  {
  }

  /** With the puzzle's numbering, processing card p credits the cards p + 1 .. p + ms[p] that exist. */
  lemma ProcessedNext(vs: seq<Held>, p: nat)
    requires Consecutive(vs) && p < |vs|
    ensures Processed(vs, p + 1) == Credit(Processed(vs, p), p, p + 1, Min(p + 1 + MatchCounts(Cards(vs))[p], |vs|))
  {
    RunOf(vs, p);
  }

  /** A card after p gains p's amount from p's run exactly when it is in the run. */
  lemma RunCredit(prev: seq<Held>, next: seq<Held>, p: nat, hi: nat, k: nat)
    requires p < k < |prev| && hi <= |prev| && next == Credit(prev, p, p + 1, hi)
    ensures next[k].amount == prev[k].amount + (if k < hi then prev[p].amount else 0)
  {
    if k < hi {
      CreditAdds(prev, p, p + 1, hi, k);
    } else {
      CreditFrame(prev, p, p + 1, hi, k);
    }
  }

  /**
   * With the puzzle's numbering, processing card p adds its amount to the
   * later cards of its run and nothing to the others.
   */
  lemma NextAt(vs: seq<Held>, p: nat, k: nat)
    requires Consecutive(vs) && p < k < |vs|
    ensures Processed(vs, p + 1)[k].amount
         == Processed(vs, p)[k].amount + (if k < p + 1 + MatchCounts(Cards(vs))[p] then Processed(vs, p)[p].amount else 0)
  {
    ProcessedNext(vs, p);
    RunCredit(Processed(vs, p), Processed(vs, p + 1), p, Min(p + 1 + MatchCounts(Cards(vs))[p], |vs|), k);
  }

  /** Processing card p adds its instances to the cards of its run, and nothing to the later ones. */
  lemma StepLater(vs: seq<Held>, p: nat, k: nat)
    requires Consecutive(vs) && p < k < |vs| && Settled(vs, p)
    ensures Processed(vs, p + 1)[k].amount == vs[k].amount + Inflow(Amounts(vs), MatchCounts(Cards(vs)), k, p + 1)
  {
    NextAt(vs, p, k);
    OwnAmount(vs, p);
    SettledAt(vs, p, k);
    assert Min(p, k) == p;
    InflowNext(Amounts(vs), MatchCounts(Cards(vs)), k, p);
  }

  /** Processing card p leaves the cards up to it as they were. */
  lemma StepEarlier(vs: seq<Held>, p: nat, k: nat)
    requires Consecutive(vs) && k <= p < |vs| && Settled(vs, p)
    ensures Processed(vs, p + 1)[k].amount == vs[k].amount + Inflow(Amounts(vs), MatchCounts(Cards(vs)), k, k)
  {
    OnlyLater(vs, p, k);
    assert Min(p, k) == k;
  }

  lemma SettledStep(vs: seq<Held>, p: nat)
    requires Consecutive(vs) && p < |vs| && Settled(vs, p)
    ensures Settled(vs, p + 1)
  {
    forall k | 0 <= k < |vs|
      ensures Processed(vs, p + 1)[k].amount == vs[k].amount + Inflow(Amounts(vs), MatchCounts(Cards(vs)), k, Min(p + 1, k))
    {
      StepAt(vs, p, k);
    }
  }

  /** Processing card p settles every card one card further. */
  lemma StepAt(vs: seq<Held>, p: nat, k: nat)
    requires Consecutive(vs) && p < |vs| && Settled(vs, p) && k < |vs|
    ensures Processed(vs, p + 1)[k].amount == vs[k].amount + Inflow(Amounts(vs), MatchCounts(Cards(vs)), k, Min(p + 1, k))
  {
    if k <= p {
      StepEarlier(vs, p, k);
    } else {
      StepLater(vs, p, k);
    }
  }

  /** With the puzzle's numbering a card's amount is final once the cards before it are processed. */
  lemma AmountFinal(vs: seq<Held>, p: nat, k: nat)
    requires Consecutive(vs) && k <= p <= |vs| && k < |vs|
    ensures Processed(vs, p)[k].amount == Instances(Amounts(vs), MatchCounts(Cards(vs)), k)
  {
    ProcessedSettled(vs, p);
  }

  /** The sum of the amounts once every card is processed is the total of the instances. */
  lemma {:induction false} SumInstances(vs: seq<Held>, n: nat)
    requires Consecutive(vs) && n <= |vs|
    ensures AmountSum(Processed(vs, |vs|)[..n]) == TotalInstances(Amounts(vs), MatchCounts(Cards(vs)), n)
  {
    if n > 0 {
      var r := Processed(vs, |vs|);
      assert r[..n][..n - 1] == r[..n - 1];
      SumInstances(vs, n - 1);
      AmountFinal(vs, |vs|, n - 1);
    }
  }

  /** The cards of a successful parse carry the puzzle's numbering when the lines do. */
  lemma DealNumbered(ts: seq<CardText>)
    requires Numbered(ts)
    ensures Consecutive(Deal(CardsOf(ts)))
    ensures Amounts(Deal(CardsOf(ts))) == Ones(|ts|)
    ensures MatchCounts(Cards(Deal(CardsOf(ts)))) == TableMatches(ts)
  {
    assert Cards(Deal(CardsOf(ts))) == CardsOf(ts);
    TableCounts(ts);
  }

  lemma Whole(vs: seq<Held>)
    ensures vs[..|vs|] == vs
  {
  }

  /** For cards with the puzzle's numbering, main's copies and sum give the total of the instances. */
  lemma SolvedInstances(cards: seq<Card>)
    requires Consecutive(Deal(cards))
    ensures AmountSum(Processed(Deal(cards), |cards|)) == TotalInstances(Amounts(Deal(cards)), MatchCounts(Cards(Deal(cards))), |cards|)
  {
    var vs := Deal(cards);
    var r := Processed(vs, |vs|);
    SumInstances(vs, |vs|);
    Whole(r);
  }

  /** When the parse gives cards with the puzzle's numbering, main prints the total of their instances. */
  lemma ParsedAnswer(content: string, cards: seq<Card>)
    requires Input(content) == Ok(cards) && Consecutive(Deal(cards))
    ensures Answer(content) == TotalInstances(Amounts(Deal(cards)), MatchCounts(Cards(Deal(cards))), |cards|)
  {
    SolvedInstances(cards);
  }

  /**
   * For a table of card lines `get_card` accepts, numbered 1, 2, ..., main
   * prints the total number of instances of the puzzle.
   */
  lemma TableAnswer(ts: seq<CardText>)
    requires |ts| >= 1 && AllWellLaid(ts) && Numbered(ts) && forall k :: 0 <= k < |ts| ==> Accepted(ts[k])
    ensures Answer(TableText(ts)) == TotalInstances(Ones(|ts|), TableMatches(ts), |ts|)
  {
    InputRoundTrip(ts);
    DealNumbered(ts);
    ParsedAnswer(TableText(ts), CardsOf(ts));
  }

  /** After a trailing newline the parse fails, and main prints 0. */
  lemma TrailingAnswer(content: string)
    ensures Answer(content + "\n") == 0
  {
    TrailingNewline(content);
  }
}
