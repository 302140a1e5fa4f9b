/**
 * Camel Cards, first half, in Python (07/prog_1.py): every line holds a hand
 * and a bid; a `RicoHand` object records the card counts, the hand type and a
 * base-100 "comparable" number; `update_ranks` groups the hands by type,
 * sorts each group by the comparable number and numbers the hands from 1;
 * the answer is the sum of bid times rank.  J is an ordinary card here,
 * between T and Q.
 */
module Day07Py1 {
  import opened Wrappers
  import opened Text

  /** The seven hand types; `Value` gives the number each constant carries. */
  datatype Kind = HighCard | OnePair | TwoPair | ThreeOfKind | FullHouse | FourOfKind | FiveOfKind

  function Value(k: Kind): (v: nat)
    ensures v <= 6
  {
    match k
    case HighCard => 0
    case OnePair => 1
    case TwoPair => 2
    case ThreeOfKind => 3
    case FullHouse => 4
    case FourOfKind => 5
    case FiveOfKind => 6
  }

  lemma ValueInjective(a: Kind, b: Kind)
    ensures Value(a) == Value(b) ==> a == b
  {
  }

  /** The types from weakest to strongest: the order `update_ranks` walks. */
  const TypeOrder: seq<Kind> := [HighCard, OnePair, TwoPair, ThreeOfKind, FullHouse, FourOfKind, FiveOfKind]

  lemma TypeOrderValues()
    ensures |TypeOrder| == 7
    ensures forall t :: 0 <= t < 7 ==> Value(TypeOrder[t]) == t
  {
  }

  datatype Error =
    | MissingBid(line: string)   // `split(" ")[1]` raises IndexError
    | BadBid(token: string)      // `int(...)` raises ValueError
    | UnknownCard(card: char)    // `POWER_CARD_MAPPER[card]` raises KeyError

  // ---------------------------------------------------------------- powers

  /** The cards from weakest to strongest; a card's power is its place here plus one. */
  const Cards: string := "23456789TJQKA"

  /** POWER_CARD_MAPPER: None for a char that is not a key. */
  function Power(c: char): (p: Option<nat>)
    ensures p.Some? ==> 1 <= p.value <= 13
  {
    match c
    case '2' => Some(1)
    case '3' => Some(2)
    case '4' => Some(3)
    case '5' => Some(4)
    case '6' => Some(5)
    case '7' => Some(6)
    case '8' => Some(7)
    case '9' => Some(8)
    case 'T' => Some(9)
    case 'J' => Some(10)
    case 'Q' => Some(11)
    case 'K' => Some(12)
    case 'A' => Some(13)
    case _ => None
  }

  /** The keys of POWER_CARD_MAPPER are the cards, and each one's power is its place in Cards. */
  lemma PowerTable(c: char)
    ensures Power(c).Some? <==> c in Cards
    ensures Power(c).Some? ==> Cards[Power(c).value - 1] == c
  {
    assert |Cards| == 13;
    assert Cards[0] == '2' && Cards[1] == '3' && Cards[2] == '4' && Cards[3] == '5' && Cards[4] == '6';
    assert Cards[5] == '7' && Cards[6] == '8' && Cards[7] == '9' && Cards[8] == 'T' && Cards[9] == 'J';
    assert Cards[10] == 'Q' && Cards[11] == 'K' && Cards[12] == 'A';
    if c in Cards {
      var k :| 0 <= k < |Cards| && Cards[k] == c;
    }
  }

  lemma PowerInjective(a: char, b: char)
    requires Power(a).Some? && Power(a) == Power(b)
    ensures a == b
  {
    PowerTable(a);
    PowerTable(b);
  }

  predicate AllKnown(hand: string) { forall i :: 0 <= i < |hand| ==> Power(hand[i]).Some? }

  function PowerOf(c: char): nat
    requires Power(c).Some?
  {
    Power(c).value
  }

  /** The first char of a hand with no power: the key of the KeyError. */
  function FirstUnknown(hand: string): (c: char)
    requires !AllKnown(hand)
    ensures c in hand && Power(c).None?
  {
    if Power(hand[0]).None? then hand[0]
    else
      assert !AllKnown(hand[1..]) by {
        var i :| 0 <= i < |hand| && Power(hand[i]).None?;
        assert hand[1..][i - 1] == hand[i];
      }
      FirstUnknown(hand[1..])
  }

  // ---------------------------------------------------------- parsed hand

  /** A card and how often it occurs; a list of them is the dict `parsed_hand`, in insertion order. */
  type Entry = (char, nat)

  /** `dico[card] += 1` when card is a key, else `dico[card] = 1` (appended). */
  function Bump(d: seq<Entry>, c: char): seq<Entry>
  {
    if d == [] then [(c, 1)]
    else if d[0].0 == c then [(c, d[0].1 + 1)] + d[1..]
    else [d[0]] + Bump(d[1..], c)
  }

  /** The dict after the loop of `get_parsed_hand` has seen every card. */
  function Tally(hand: string): seq<Entry>
  {
    if hand == [] then [] else Bump(Tally(hand[..|hand| - 1]), hand[|hand| - 1])
  }

  /** The count recorded for c, 0 when c is not a key. */
  function CountOf(d: seq<Entry>, c: char): nat
  {
    if d == [] then 0 else if d[0].0 == c then d[0].1 else CountOf(d[1..], c)
  }

  /** The keys of the dict, in insertion order. */
  function CardsOf(d: seq<Entry>): seq<char>
  {
    if d == [] then [] else [d[0].0] + CardsOf(d[1..])
  }

  predicate DistinctKeys(d: seq<Entry>)
  {
    forall a, b :: 0 <= a < b < |d| ==> d[a].0 != d[b].0
  }

  function Sum(d: seq<Entry>): nat
  {
    if d == [] then 0 else d[0].1 + Sum(d[1..])
  }

  lemma TailDistinct(d: seq<Entry>)
    requires DistinctKeys(d) && d != []
    ensures DistinctKeys(d[1..])
  {
    forall a, b | 0 <= a < b < |d[1..]| ensures d[1..][a].0 != d[1..][b].0 {
      assert d[1..][a] == d[a + 1] && d[1..][b] == d[b + 1];
    }
  }

  lemma {:induction false} BumpKeys(d: seq<Entry>, c: char, x: char)
    ensures x in CardsOf(Bump(d, c)) <==> x in CardsOf(d) || x == c
  {
    if d != [] && d[0].0 != c {
      BumpKeys(d[1..], c, x);
    }
  }

  lemma {:induction false} BumpCount(d: seq<Entry>, c: char, x: char)
    ensures CountOf(Bump(d, c), x) == CountOf(d, x) + (if x == c then 1 else 0)
  {
    if d != [] && d[0].0 != c {
      BumpCount(d[1..], c, x);
    }
  }

  lemma {:induction false} BumpSum(d: seq<Entry>, c: char)
    ensures Sum(Bump(d, c)) == Sum(d) + 1
  {
    if d != [] && d[0].0 != c {
      BumpSum(d[1..], c);
    }
  }

  lemma {:induction false} BumpPositive(d: seq<Entry>, c: char)
    requires forall a :: 0 <= a < |d| ==> d[a].1 > 0
    ensures forall a :: 0 <= a < |Bump(d, c)| ==> Bump(d, c)[a].1 > 0
  {
    if d != [] && d[0].0 != c {
      BumpPositive(d[1..], c);
      assert forall a :: 0 < a < |Bump(d, c)| ==> Bump(d, c)[a] == Bump(d[1..], c)[a - 1];
    }
  }

  lemma {:induction false} BumpDistinct(d: seq<Entry>, c: char)
    requires DistinctKeys(d)
    ensures DistinctKeys(Bump(d, c))
  {
    if d != [] && d[0].0 != c {
      TailDistinct(d);
      BumpDistinct(d[1..], c);
      var r, t := Bump(d, c), Bump(d[1..], c);
      assert forall k :: 0 <= k < |d[1..]| ==> d[1..][k] == d[k + 1];
      NotInCards(d[1..], d[0].0);
      forall b | 0 < b < |r| ensures r[0].0 != r[b].0 {
        assert r[b] == t[b - 1];
        KeyAt(t, b - 1);
        BumpKeys(d[1..], c, r[b].0);
      }
      forall a, b | 0 < a < b < |r| ensures r[a].0 != r[b].0 {
        assert r[a] == t[a - 1] && r[b] == t[b - 1];
      }
    }
  }

  lemma {:induction false} NotInCards(d: seq<Entry>, x: char)
    requires forall k :: 0 <= k < |d| ==> d[k].0 != x
    ensures x !in CardsOf(d)
  {
    if d != [] {
      assert forall k :: 0 <= k < |d[1..]| ==> d[1..][k] == d[k + 1];
      NotInCards(d[1..], x);
    }
  }

  lemma {:induction false} KeyAt(d: seq<Entry>, a: nat)
    requires a < |d|
    ensures d[a].0 in CardsOf(d)
  {
    if a > 0 {
      KeyAt(d[1..], a - 1);
    }
  }

  lemma {:induction false} KeyIn(d: seq<Entry>, x: char)
    requires x in CardsOf(d)
    ensures exists k :: 0 <= k < |d| && d[k].0 == x
  {
    if d[0].0 != x {
      KeyIn(d[1..], x);
      var k :| 0 <= k < |d[1..]| && d[1..][k].0 == x;
      assert d[k + 1].0 == x;
    }
  }

  /**
   * What `get_parsed_hand` promises: one entry per distinct card, each key
   * counted as often as it occurs, every count positive, the counts adding
   * up to the length of the hand.
   */
  lemma {:induction false} TallySpec(hand: string)
    ensures DistinctKeys(Tally(hand))
    ensures forall c :: CountOf(Tally(hand), c) == multiset(hand)[c]
    ensures forall c :: c in CardsOf(Tally(hand)) <==> c in hand
    ensures forall a :: 0 <= a < |Tally(hand)| ==> Tally(hand)[a].1 > 0
    ensures Sum(Tally(hand)) == |hand|
  {
    if hand != [] {
      var front, last := hand[..|hand| - 1], hand[|hand| - 1];
      assert hand == front + [last];
      TallySpec(front);
      BumpDistinct(Tally(front), last);
      BumpSum(Tally(front), last);
      BumpPositive(Tally(front), last);
      forall c ensures CountOf(Tally(hand), c) == multiset(hand)[c] {
        BumpCount(Tally(front), last, c);
      }
      forall c ensures c in CardsOf(Tally(hand)) <==> c in hand {
        BumpKeys(Tally(front), last, c);
      }
    }
  }

  /** TallySpec at one card. */
  lemma TallyAt(hand: string, c: char)
    ensures DistinctKeys(Tally(hand))
    ensures CountOf(Tally(hand), c) == multiset(hand)[c]
    ensures c in CardsOf(Tally(hand)) <==> c in hand
  {
    TallySpec(hand);
  }

  lemma TallySum(hand: string)
    ensures Sum(Tally(hand)) == |hand|
  {
    TallySpec(hand);
  }

  /** The position of a key of d. */
  lemma KeyIndex(d: seq<Entry>, x: char) returns (k: nat)
    requires x in CardsOf(d)
    ensures k < |d| && d[k].0 == x
  {
    KeyIn(d, x);
    k :| 0 <= k < |d| && d[k].0 == x;
  }

  /** With distinct keys, an entry's own count is the count of its key. */
  lemma {:induction false} EntryCount(d: seq<Entry>, a: nat)
    requires DistinctKeys(d) && a < |d|
    ensures CountOf(d, d[a].0) == d[a].1
  {
    if a > 0 {
      assert DistinctKeys(d[1..]) by {
        forall i, j | 0 <= i < j < |d[1..]| ensures d[1..][i].0 != d[1..][j].0 {
          assert d[1..][i] == d[i + 1] && d[1..][j] == d[j + 1];
        }
      }
      assert d[1..][a - 1] == d[a];
      EntryCount(d[1..], a - 1);
    }
  }

  method GetParsedHand(hand: string) returns (dico: seq<Entry>)
    ensures dico == Tally(hand)
  {
    dico := [];
    for i := 0 to |hand|
      invariant dico == Tally(hand[..i])
    {
      assert hand[..i + 1][..i] == hand[..i];
      dico := Bump(dico, hand[i]);
    }
    assert hand[..|hand|] == hand;
  }

  // ------------------------------------------------------------------ type

  /** The type set by the last entry counted 5 or 4: in the loop a later one overwrites. */
  function BigKind(d: seq<Entry>): Option<Kind>
  {
    if d == [] then None
    else if d[|d| - 1].1 == 5 then Some(FiveOfKind)
    else if d[|d| - 1].1 == 4 then Some(FourOfKind)
    else BigKind(d[..|d| - 1])
  }

  predicate Has(d: seq<Entry>, n: nat) { exists a :: 0 <= a < |d| && d[a].1 == n }

  predicate TwoPairs(d: seq<Entry>) { exists a, b :: 0 <= a < b < |d| && d[a].1 == 2 && d[b].1 == 2 }

  /** The type `get_type` settles on for the entries d. */
  function TypeOf(d: seq<Entry>): Kind
  {
    if BigKind(d).Some? then BigKind(d).value
    else if Has(d, 3) && Has(d, 2) then FullHouse
    else if Has(d, 3) then ThreeOfKind
    else if TwoPairs(d) then TwoPair
    else if Has(d, 2) then OnePair
    else HighCard
  }

  method GetType(d: seq<Entry>) returns (r: Kind)
    ensures r == TypeOf(d)
  {
    var threeFound := false;
    var twoFound0, twoFound1 := false, false;
    var result: Option<Kind> := None;
    for i := 0 to |d|
      invariant result == BigKind(d[..i])
      invariant threeFound == Has(d[..i], 3)
      invariant twoFound0 == Has(d[..i], 2)
      invariant twoFound1 == TwoPairs(d[..i])
    {
      var p := d[..i + 1];
      assert p[..i] == d[..i] && p[i] == d[i];
      HasStep(d, i, 3);
      HasStep(d, i, 2);
      PairsStep(d, i);
      if d[i].1 == 5 {
        result := Some(FiveOfKind);
      } else if d[i].1 == 4 {
        result := Some(FourOfKind);
      } else if d[i].1 == 3 {
        if !threeFound {
          threeFound := true;
        }
      } else if d[i].1 == 2 {
        if !twoFound0 {
          twoFound0 := true;
        } else if !twoFound1 {
          twoFound1 := true;
        }
      }
    }
    assert d[..|d|] == d;
    if result.Some? {
      r := result.value;
    } else if threeFound && twoFound0 {
      r := FullHouse;
    } else if threeFound && !twoFound0 {
      r := ThreeOfKind;
    } else if twoFound0 && twoFound1 {
      r := TwoPair;
    } else if twoFound0 && !twoFound1 {
      r := OnePair;
    } else {
      r := HighCard;
    }
  }

  lemma HasStep(d: seq<Entry>, i: nat, n: nat)
    requires i < |d|
    ensures Has(d[..i + 1], n) <==> Has(d[..i], n) || d[i].1 == n
  {
    var p := d[..i + 1];
    if Has(p, n) && d[i].1 != n {
      var a :| 0 <= a < |p| && p[a].1 == n;
      assert d[..i][a] == p[a];
    }
    if Has(d[..i], n) {
      var a :| 0 <= a < i && d[..i][a].1 == n;
      assert p[a] == d[..i][a];
    }
    if d[i].1 == n {
      assert p[i] == d[i];
    }
  }

  lemma PairsStep(d: seq<Entry>, i: nat)
    requires i < |d|
    ensures TwoPairs(d[..i + 1]) <==> TwoPairs(d[..i]) || (Has(d[..i], 2) && d[i].1 == 2)
  {
    var p, q := d[..i + 1], d[..i];
    if TwoPairs(p) && !TwoPairs(q) {
      var a, b :| 0 <= a < b < |p| && p[a].1 == 2 && p[b].1 == 2;
      if b == i {
        assert q[a] == p[a];
      }
    }
    if TwoPairs(q) {
      var a, b :| 0 <= a < b < |q| && q[a].1 == 2 && q[b].1 == 2;
      assert p[a] == q[a] && p[b] == q[b];
    }
    if Has(q, 2) && d[i].1 == 2 {
      var a :| 0 <= a < |q| && q[a].1 == 2;
      assert p[a] == q[a] && p[i] == d[i];
    }
  }

  // -------------------------------------------- the type by the card counts

  /** Some card of the hand occurs exactly n times. */
  predicate Occurs(hand: string, n: nat) { exists c :: c in hand && multiset(hand)[c] == n }

  /** Two different cards of the hand occur twice each. */
  predicate TwoTwice(hand: string)
  {
    exists c1, c2 :: c1 in hand && c2 in hand && c1 != c2 && multiset(hand)[c1] == 2 && multiset(hand)[c2] == 2
  }

  /** The Camel Cards hand types, stated on how often the cards occur. */
  function HandRule(hand: string): Kind
  {
    if Occurs(hand, 5) then FiveOfKind
    else if Occurs(hand, 4) then FourOfKind
    else if Occurs(hand, 3) && Occurs(hand, 2) then FullHouse
    else if Occurs(hand, 3) then ThreeOfKind
    else if TwoTwice(hand) then TwoPair
    else if Occurs(hand, 2) then OnePair
    else HighCard
  }

  /** BigKind picks FiveOfKind or FourOfKind by their presence when not both are present. */
  lemma {:induction false} BigKindByPresence(d: seq<Entry>)
    requires !(Has(d, 5) && Has(d, 4))
    ensures BigKind(d) == if Has(d, 5) then Some(FiveOfKind) else if Has(d, 4) then Some(FourOfKind) else None
  {
    if d != [] {
      var f := d[..|d| - 1];
      assert d == f + [d[|d| - 1]];
      assert Has(f, 5) ==> Has(d, 5) by {
        if Has(f, 5) { var a :| 0 <= a < |f| && f[a].1 == 5; assert d[a] == f[a]; }
      }
      assert Has(f, 4) ==> Has(d, 4) by {
        if Has(f, 4) { var a :| 0 <= a < |f| && f[a].1 == 4; assert d[a] == f[a]; }
      }
      HasStep(d, |d| - 1, 5);
      HasStep(d, |d| - 1, 4);
      BigKindByPresence(f);
    }
  }

  /** Two different entries together count no more than all of them. */
  lemma {:induction false} SumTwo(d: seq<Entry>, a: nat, b: nat)
    requires a < b < |d|
    ensures d[a].1 + d[b].1 <= Sum(d)
  {
    if a > 0 {
      SumTwo(d[1..], a - 1, b - 1);
    } else {
      SumOne(d[1..], b - 1);
    }
  }

  lemma {:induction false} SumOne(d: seq<Entry>, a: nat)
    requires a < |d|
    ensures d[a].1 <= Sum(d)
  {
    if a > 0 {
      SumOne(d[1..], a - 1);
    }
  }

  /** Has(Tally(hand), n) for a positive n says exactly that some card occurs n times. */
  lemma HasOccurs(hand: string, n: nat)
    requires n > 0
    ensures Has(Tally(hand), n) <==> Occurs(hand, n)
  {
    var d := Tally(hand);
    if Has(d, n) {
      var a :| 0 <= a < |d| && d[a].1 == n;
      TallyAt(hand, d[a].0);
      EntryCount(d, a);
      KeyAt(d, a);
      assert d[a].0 in hand && multiset(hand)[d[a].0] == n;
    }
    if Occurs(hand, n) {
      var c :| c in hand && multiset(hand)[c] == n;
      TallyAt(hand, c);
      var a := KeyIndex(d, c);
      EntryCount(d, a);
    }
  }

  lemma PairsTwice(hand: string)
    ensures TwoPairs(Tally(hand)) <==> TwoTwice(hand)
  {
    if TwoPairs(Tally(hand)) {
      PairsToTwice(hand);
    }
    if TwoTwice(hand) {
      TwiceToPairs(hand);
    }
  }

  lemma PairsToTwice(hand: string)
    requires TwoPairs(Tally(hand))
    ensures TwoTwice(hand)
  {
    var d := Tally(hand);
    var a, b :| 0 <= a < b < |d| && d[a].1 == 2 && d[b].1 == 2;
    TallyAt(hand, d[a].0);
    TallyAt(hand, d[b].0);
    EntryCount(d, a);
    EntryCount(d, b);
    KeyAt(d, a);
    KeyAt(d, b);
    assert d[a].0 in hand && d[b].0 in hand && d[a].0 != d[b].0;
    assert multiset(hand)[d[a].0] == 2 && multiset(hand)[d[b].0] == 2;
  }

  lemma TwiceToPairs(hand: string)
    requires TwoTwice(hand)
    ensures TwoPairs(Tally(hand))
  {
    var d := Tally(hand);
    var c1, c2 :| c1 in hand && c2 in hand && c1 != c2 && multiset(hand)[c1] == 2 && multiset(hand)[c2] == 2;
    TallyAt(hand, c1);
    TallyAt(hand, c2);
    var a := KeyIndex(d, c1);
    var b := KeyIndex(d, c2);
    EntryCount(d, a);
    EntryCount(d, b);
    if a < b {
      assert d[a].1 == 2 && d[b].1 == 2;
    } else {
      assert d[b].1 == 2 && d[a].1 == 2;
    }
  }

  /**
   * On hands of at most eight cards (the puzzle's have five) the flags of
   * `get_type` give the Camel Cards type of the hand.  From nine cards on a
   * hand can hold a card five times and another four times, and then the
   * entry seen last decides.
   */
  lemma KindByCounts(hand: string)
    requires |hand| <= 8
    ensures TypeOf(Tally(hand)) == HandRule(hand)
  {
    var d := Tally(hand);
    TallySum(hand);
    HasOccurs(hand, 5);
    HasOccurs(hand, 4);
    HasOccurs(hand, 3);
    HasOccurs(hand, 2);
    PairsTwice(hand);
    if Has(d, 5) && Has(d, 4) {
      var a :| 0 <= a < |d| && d[a].1 == 5;
      var b :| 0 <= b < |d| && d[b].1 == 4;
      if a < b { SumTwo(d, a, b); } else { SumTwo(d, b, a); }
      assert false;
    }
    BigKindByPresence(d);
  }

  // ------------------------------------------------------- comparable hand

  function Pow100(n: nat): (p: nat)
    ensures p >= 1
  {
    if n == 0 then 1 else 100 * Pow100(n - 1)
  }

  /** `get_comparable_hand` for a hand of known cards: its powers as base-100 digits. */
  function PowerValue(hand: string): nat
    requires AllKnown(hand)
  {
    if hand == [] then 0 else 100 * PowerValue(hand[..|hand| - 1]) + PowerOf(hand[|hand| - 1])
  }

  method GetComparableHand(hand: string) returns (r: Result<nat, Error>)
    ensures r == if AllKnown(hand) then Ok(PowerValue(hand)) else Err(UnknownCard(FirstUnknown(hand)))
  {
    var result := 0;
    for i := 0 to |hand|
      invariant AllKnown(hand[..i]) && result == PowerValue(hand[..i])
    {
      var p := Power(hand[i]);
      if p.None? {
        FirstUnknownAt(hand, i);
        return Err(UnknownCard(hand[i]));
      }
      assert hand[..i + 1][..i] == hand[..i];
      result := 100 * result + p.value;
    }
    assert hand[..|hand|] == hand;
    r := Ok(result);
  }

  lemma {:induction false} FirstUnknownAt(hand: string, i: nat)
    requires i < |hand| && AllKnown(hand[..i]) && Power(hand[i]).None?
    ensures !AllKnown(hand) && FirstUnknown(hand) == hand[i]
  {
    if i > 0 {
      assert Power(hand[0]).Some? by { assert hand[..i][0] == hand[0]; }
      assert hand[1..][i - 1] == hand[i];
      var t := hand[1..][..i - 1];
      assert AllKnown(t) by {
        forall k | 0 <= k < |t| ensures Power(t[k]).Some? {
          assert t[k] == hand[..i][k + 1];
        }
      }
      FirstUnknownAt(hand[1..], i - 1);
    }
  }

  lemma {:induction false} PowerValueBound(hand: string)
    requires AllKnown(hand)
    ensures PowerValue(hand) < Pow100(|hand|)
  {
    if hand != [] {
      var f := hand[..|hand| - 1];
      PowerValueBound(f);
      assert PowerValue(f) + 1 <= Pow100(|f|);
      assert 100 * (PowerValue(f) + 1) <= 100 * Pow100(|f|);
    }
  }

  /** The base-100 number read from the front: the first power times 100^(n-1), plus the rest. */
  lemma {:induction false} PowerValueFront(hand: string)
    requires AllKnown(hand) && hand != []
    ensures PowerValue(hand) == PowerOf(hand[0]) * Pow100(|hand| - 1) + PowerValue(hand[1..])
  {
    var n := |hand|;
    if n > 1 {
      var f := hand[..n - 1];
      assert f[0] == hand[0];
      PowerValueFront(f);
      assert f[1..] == hand[1..][..n - 2];
      var p0, rest := PowerOf(hand[0]), PowerValue(f[1..]);
      assert PowerValue(hand[1..]) == 100 * rest + PowerOf(hand[n - 1]);
      calc {
        PowerValue(hand);
        100 * (p0 * Pow100(n - 2) + rest) + PowerOf(hand[n - 1]);
        { ScaleShift(p0, Pow100(n - 2)); }
        p0 * Pow100(n - 1) + (100 * rest + PowerOf(hand[n - 1]));
      }
    }
  }

  lemma ScaleShift(x: nat, y: nat)
    ensures 100 * (x * y) == x * (100 * y)
  {
  }

  /** One hand weaker than another of the same length, comparing powers position by position. */
  predicate PowersBelow(a: string, b: string)
    requires AllKnown(a) && AllKnown(b) && |a| == |b|
  {
    a != [] && (PowerOf(a[0]) < PowerOf(b[0]) || (PowerOf(a[0]) == PowerOf(b[0]) && PowersBelow(a[1..], b[1..])))
  }

  lemma FrontBelow(p: nat, q: nat, x: nat, y: nat, m: nat)
    requires p < q && x < m
    ensures p * m + x < q * m + y
  {
    assert (p + 1) * m <= q * m;
  }

  /**
   * For hands of the same length, comparing `comparable_hand` numbers is
   * comparing the powers position by position, and equal numbers mean
   * equal hands.
   */
  lemma {:induction false} ComparableOrder(a: string, b: string)
    requires AllKnown(a) && AllKnown(b) && |a| == |b|
    ensures PowerValue(a) < PowerValue(b) <==> PowersBelow(a, b)
    ensures PowerValue(a) == PowerValue(b) <==> a == b
  {
    if a != [] {
      var n := |a|;
      PowerValueFront(a);
      PowerValueFront(b);
      PowerValueBound(a[1..]);
      PowerValueBound(b[1..]);
      ComparableOrder(a[1..], b[1..]);
      var pa, pb := PowerOf(a[0]), PowerOf(b[0]);
      if pa < pb {
        FrontBelow(pa, pb, PowerValue(a[1..]), PowerValue(b[1..]), Pow100(n - 1));
      } else if pb < pa {
        FrontBelow(pb, pa, PowerValue(b[1..]), PowerValue(a[1..]), Pow100(n - 1));
      } else {
        PowerInjective(a[0], b[0]);
        assert a == [a[0]] + a[1..] && b == [b[0]] + b[1..];
      }
    }
  }

  // ------------------------------------------------------------------ ranks

  /** A hand's sort key: the value of its type and its comparable number. */
  type Key = (nat, nat)

  /** Within one type hand x sorts before hand y: a smaller comparable number, or an equal one and x earlier in the list (the sort is stable). */
  predicate Within(keys: seq<Key>, x: nat, y: nat)
  {
    SortKey(keys, x).1 < SortKey(keys, y).1 || (SortKey(keys, x).1 == SortKey(keys, y).1 && x < y)
  }

  /** The key of position x; positions past the end never occur. */
  function SortKey(keys: seq<Key>, x: nat): Key
  {
    if x < |keys| then keys[x] else (0, 0)
  }

  /** Hand j gets a smaller rank than hand i: a weaker type, or the same type and sorted before. */
  predicate Precedes(keys: seq<Key>, j: nat, i: nat)
    requires j < |keys| && i < |keys|
  {
    keys[j].0 < keys[i].0 || (keys[j].0 == keys[i].0 && Within(keys, j, i))
  }

  /** How many of the first k hands precede hand i. */
  function CountBefore(keys: seq<Key>, k: nat, i: nat): nat
    requires k <= |keys| && i < |keys|
  {
    if k == 0 then 0 else CountBefore(keys, k - 1, i) + (if Precedes(keys, k - 1, i) then 1 else 0)
  }

  /** The rank hand i ends up with: one more than the number of hands that precede it. */
  function Rank(keys: seq<Key>, i: nat): nat
    requires i < |keys|
  {
    1 + CountBefore(keys, |keys|, i)
  }

  lemma {:induction false} CountBeforeBound(keys: seq<Key>, k: nat, i: nat)
    requires k <= |keys| && i < |keys|
    ensures CountBefore(keys, k, i) <= k
    ensures i < k ==> CountBefore(keys, k, i) < k
  {
    if k > 0 {
      CountBeforeBound(keys, k - 1, i);
    }
  }

  lemma {:induction false} CountBeforeMono(keys: seq<Key>, k: nat, j: nat, i: nat)
    requires k <= |keys| && j < |keys| && i < |keys| && Precedes(keys, j, i)
    ensures CountBefore(keys, k, j) + (if j < k then 1 else 0) <= CountBefore(keys, k, i)
  {
    if k > 0 {
      CountBeforeMono(keys, k - 1, j, i);
    }
  }

  /**
   * What `update_ranks` promises: the ranks lie in 1..n and are pairwise
   * different (so they are exactly 1..n); every hand of a weaker type is
   * ranked below every hand of a stronger type; within a type a smaller
   * comparable number gets the smaller rank; and hands equal in both keep
   * their order in the list.
   */
  lemma RankOrder(keys: seq<Key>, i: nat, j: nat)
    requires i < |keys| && j < |keys|
    ensures 1 <= Rank(keys, i) <= |keys|
    ensures keys[j].0 < keys[i].0 ==> Rank(keys, j) < Rank(keys, i)
    ensures keys[j].0 == keys[i].0 && keys[j].1 < keys[i].1 ==> Rank(keys, j) < Rank(keys, i)
    ensures keys[j] == keys[i] && j < i ==> Rank(keys, j) < Rank(keys, i)
    ensures i != j ==> Rank(keys, i) != Rank(keys, j)
  {
    CountBeforeBound(keys, |keys|, i);
    if Precedes(keys, j, i) {
      CountBeforeMono(keys, |keys|, j, i);
    }
    if Precedes(keys, i, j) {
      CountBeforeMono(keys, |keys|, i, j);
    }
  }

  // ------------------------------------------------ buckets and their sort

  /** The positions below m of the hands whose type has value t, in list order: a bucket. */
  function Filter(keys: seq<Key>, m: nat, t: nat): seq<nat>
    requires m <= |keys|
  {
    if m == 0 then [] else Filter(keys, m - 1, t) + (if keys[m - 1].0 == t then [m - 1] else [])
  }

  /** A bucket holds exactly the positions below m of the hands of type t. */
  lemma {:induction false} FilterSpec(keys: seq<Key>, m: nat, t: nat)
    requires m <= |keys|
    ensures forall x: nat :: x in Filter(keys, m, t) <==> x < m && keys[x].0 == t
  {
    if m > 0 {
      FilterSpec(keys, m - 1, t);
    }
  }

  predicate Increasing(s: seq<nat>) { forall a, b :: 0 <= a < b < |s| ==> s[a] < s[b] }

  lemma {:induction false} FilterIncreasing(keys: seq<Key>, m: nat, t: nat)
    requires m <= |keys|
    ensures Increasing(Filter(keys, m, t))
  {
    if m > 0 {
      FilterIncreasing(keys, m - 1, t);
      FilterSpec(keys, m - 1, t);
      var f := Filter(keys, m - 1, t);
      forall a | 0 <= a < |f| ensures f[a] < m - 1 {
        assert f[a] in f;
      }
    }
  }

  /** Insert x before the first hand whose comparable number is not smaller. */
  function InsertBy(keys: seq<Key>, x: nat, s: seq<nat>): (r: seq<nat>)
    ensures multiset(r) == multiset(s) + multiset{x}
  {
    if s == [] then [x]
    else if SortKey(keys, s[0]).1 >= SortKey(keys, x).1 then [x] + s
    else
      assert s == [s[0]] + s[1..];
      [s[0]] + InsertBy(keys, x, s[1..])
  }

  /** Python's stable `sorted(bucket, key=lambda x: x.comparable_hand)`, as an insertion sort. */
  function SortedBy(keys: seq<Key>, s: seq<nat>): (r: seq<nat>)
    ensures multiset(r) == multiset(s)
  {
    if s == [] then []
    else
      assert s == [s[0]] + s[1..];
      InsertBy(keys, s[0], SortedBy(keys, s[1..]))
  }

  predicate Ascend(keys: seq<Key>, r: seq<nat>)
  {
    forall a, b :: 0 <= a < b < |r| ==> Within(keys, r[a], r[b])
  }

  lemma WithinTrans(keys: seq<Key>, x: nat, y: nat, z: nat)
    requires Within(keys, x, y) && Within(keys, y, z)
    ensures Within(keys, x, z)
  {
  }

  /** A hand sorting before the head of an ascending list can go in front of it. */
  lemma {:induction false} AscendCons(keys: seq<Key>, x: nat, r: seq<nat>)
    requires Ascend(keys, r) && r != [] && Within(keys, x, r[0])
    ensures Ascend(keys, [x] + r)
  {
    var u := [x] + r;
    forall a, b | 0 <= a < b < |u| ensures Within(keys, u[a], u[b]) {
      assert u[b] == r[b - 1];
      if a == 0 {
        if b > 1 {
          WithinTrans(keys, x, r[0], r[b - 1]);
        }
      } else {
        assert u[a] == r[a - 1];
      }
    }
  }

  lemma {:induction false} InsertAscend(keys: seq<Key>, x: nat, r: seq<nat>)
    requires Ascend(keys, r)
    requires forall y :: y in r ==> x < y
    ensures Ascend(keys, InsertBy(keys, x, r))
  {
    if r != [] && SortKey(keys, r[0]).1 < SortKey(keys, x).1 {
      var tail := r[1..];
      assert Ascend(keys, tail) by {
        forall a, b | 0 <= a < b < |tail| ensures Within(keys, tail[a], tail[b]) {
          assert tail[a] == r[a + 1] && tail[b] == r[b + 1];
        }
      }
      assert forall y :: y in tail ==> y in r;
      InsertAscend(keys, x, tail);
      var t := InsertBy(keys, x, tail);
      assert t[0] in multiset(tail) + multiset{x};
      if t[0] != x {
        assert t[0] in tail;
        var k :| 0 <= k < |tail| && tail[k] == t[0];
        assert r[k + 1] == t[0];
      }
      AscendCons(keys, r[0], t);
    } else if r != [] {
      assert r[0] in r;
      AscendCons(keys, x, r);
    }
  }

  /** A bucket in list order comes out of the sort in (comparable, position) order. */
  lemma {:induction false} SortedAscend(keys: seq<Key>, s: seq<nat>)
    requires Increasing(s)
    ensures Ascend(keys, SortedBy(keys, s))
  {
    if s != [] {
      var tail := s[1..];
      assert Increasing(tail) by {
        forall a, b | 0 <= a < b < |tail| ensures tail[a] < tail[b] {
          assert tail[a] == s[a + 1] && tail[b] == s[b + 1];
        }
      }
      SortedAscend(keys, tail);
      var rest := SortedBy(keys, tail);
      forall y | y in rest ensures s[0] < y {
        assert y in multiset(tail);
        var k :| 0 <= k < |tail| && tail[k] == y;
        assert s[k + 1] == y;
      }
      InsertAscend(keys, s[0], rest);
    }
  }

  /** How many hands of s sort before hand i within a type. */
  function CountIn(keys: seq<Key>, s: seq<nat>, i: nat): nat
  {
    if s == [] then 0 else (if Within(keys, s[0], i) then 1 else 0) + CountIn(keys, s[1..], i)
  }

  lemma {:induction false} CountAppend(keys: seq<Key>, s: seq<nat>, t: seq<nat>, i: nat)
    ensures CountIn(keys, s + t, i) == CountIn(keys, s, i) + CountIn(keys, t, i)
  {
    if s != [] {
      assert (s + t)[0] == s[0] && (s + t)[1..] == s[1..] + t;
      CountAppend(keys, s[1..], t, i);
    } else {
      assert s + t == t;
    }
  }

  lemma {:induction false} CountInsert(keys: seq<Key>, x: nat, s: seq<nat>, i: nat)
    ensures CountIn(keys, InsertBy(keys, x, s), i) == CountIn(keys, s, i) + (if Within(keys, x, i) then 1 else 0)
  {
    if s != [] && SortKey(keys, s[0]).1 < SortKey(keys, x).1 {
      CountInsert(keys, x, s[1..], i);
      var r := InsertBy(keys, x, s);
      assert r[0] == s[0] && r[1..] == InsertBy(keys, x, s[1..]);
    } else if s != [] {
      var r := InsertBy(keys, x, s);
      assert r[0] == x && r[1..] == s;
    }
  }

  lemma {:induction false} CountSorted(keys: seq<Key>, s: seq<nat>, i: nat)
    ensures CountIn(keys, SortedBy(keys, s), i) == CountIn(keys, s, i)
  {
    if s != [] {
      var rest := SortedBy(keys, s[1..]);
      CountSorted(keys, s[1..], i);
      CountInsert(keys, s[0], rest, i);
    }
  }

  lemma {:induction false} CountNone(keys: seq<Key>, s: seq<nat>, i: nat)
    requires forall a :: 0 <= a < |s| ==> !Within(keys, s[a], i)
    ensures CountIn(keys, s, i) == 0
  {
    if s != [] {
      assert forall a :: 0 <= a < |s[1..]| ==> s[1..][a] == s[a + 1];
      CountNone(keys, s[1..], i);
    }
  }

  /** In a list in (comparable, position) order, exactly the p hands before place p sort before its hand. */
  lemma {:induction false} CountAscend(keys: seq<Key>, r: seq<nat>, p: nat)
    requires Ascend(keys, r) && p < |r|
    ensures CountIn(keys, r, r[p]) == p
  {
    var tail := r[1..];
    assert Ascend(keys, tail) by {
      forall a, b | 0 <= a < b < |tail| ensures Within(keys, tail[a], tail[b]) {
        assert tail[a] == r[a + 1] && tail[b] == r[b + 1];
      }
    }
    if p == 0 {
      forall a | 0 <= a < |tail| ensures !Within(keys, tail[a], r[0]) {
        assert tail[a] == r[a + 1];
        assert Within(keys, r[0], r[a + 1]);
      }
      CountNone(keys, tail, r[0]);
    } else {
      assert tail[p - 1] == r[p];
      CountAscend(keys, tail, p - 1);
    }
  }

  /** How many of the first m hands have a type of value below t. */
  function CountType(keys: seq<Key>, m: nat, t: nat): nat
    requires m <= |keys|
  {
    if m == 0 then 0 else CountType(keys, m - 1, t) + (if keys[m - 1].0 < t then 1 else 0)
  }

  lemma {:induction false} TypeStep(keys: seq<Key>, m: nat, t: nat)
    requires m <= |keys|
    ensures CountType(keys, m, t + 1) == CountType(keys, m, t) + |Filter(keys, m, t)|
    ensures CountType(keys, m, 0) == 0
  {
    if m > 0 {
      TypeStep(keys, m - 1, t);
    }
  }

  /** The hands preceding i: those of a weaker type, then those of its own bucket that sort before it. */
  lemma {:induction false} CountSplit(keys: seq<Key>, m: nat, i: nat)
    requires m <= |keys| && i < |keys|
    ensures CountBefore(keys, m, i) == CountType(keys, m, keys[i].0) + CountIn(keys, Filter(keys, m, keys[i].0), i)
  {
    if m > 0 {
      CountSplit(keys, m - 1, i);
      SplitStep(keys, m, i);
    }
  }

  /** Hand m - 1 precedes hand i exactly when it is of a weaker type or sorts before i in i's bucket. */
  lemma SplitStep(keys: seq<Key>, m: nat, i: nat)
    requires 0 < m <= |keys| && i < |keys|
    ensures CountBefore(keys, m, i) - CountBefore(keys, m - 1, i)
      == CountType(keys, m, keys[i].0) - CountType(keys, m - 1, keys[i].0)
       + CountIn(keys, Filter(keys, m, keys[i].0), i) - CountIn(keys, Filter(keys, m - 1, keys[i].0), i)
  {
    var t := keys[i].0;
    var last := if keys[m - 1].0 == t then [m - 1] else [];
    assert CountIn(keys, last, i) == if keys[m - 1].0 == t && Within(keys, m - 1, i) then 1 else 0 by {
      if last != [] { assert last[1..] == []; }
    }
    CountAppend(keys, Filter(keys, m - 1, t), last, i);
  }

  /** The bucket of type t, sorted by comparable number. */
  function Bucket(keys: seq<Key>, t: nat): seq<nat>
  {
    SortedBy(keys, Filter(keys, |keys|, t))
  }

  /** The p-th hand of the sorted bucket of type t is of type t and has rank 1 + (hands of weaker types) + p. */
  lemma RankAt(keys: seq<Key>, t: nat, p: nat)
    requires p < |Bucket(keys, t)|
    ensures Bucket(keys, t)[p] < |keys| && keys[Bucket(keys, t)[p]].0 == t
    ensures Rank(keys, Bucket(keys, t)[p]) == 1 + CountType(keys, |keys|, t) + p
  {
    var f := Filter(keys, |keys|, t);
    FilterSpec(keys, |keys|, t);
    FilterIncreasing(keys, |keys|, t);
    var l := SortedBy(keys, f);
    var x := l[p];
    assert x in multiset(f);
    assert x in f;
    CountSplit(keys, |keys|, x);
    CountSorted(keys, f, x);
    SortedAscend(keys, f);
    CountAscend(keys, l, p);
  }

  // ---------------------------------------------------------------- hands

  /** A `RicoHand`: the fields `__init__` sets once, and the rank that `update_ranks` fills in. */
  class RicoHand {
    const hand: string
    const bid: int
    var rank: Option<int>
    const parsedHand: seq<Entry>
    const kind: Kind
    const comparable: nat

    constructor (hand: string, bid: int, parsedHand: seq<Entry>, kind: Kind, comparable: nat)
      ensures this.hand == hand && this.bid == bid && rank == None
      ensures this.parsedHand == parsedHand && this.kind == kind && this.comparable == comparable
    {
      this.hand := hand;
      this.bid := bid;
      rank := None;
      this.parsedHand := parsedHand;
      this.kind := kind;
      this.comparable := comparable;
    }
  }

  /** `RicoHand(hand, bid)`: counts, type and comparable number in that order; an unknown card raises KeyError. */
  method NewRicoHand(hand: string, bid: int) returns (r: Result<RicoHand, Error>)
    ensures r.Err? <==> !AllKnown(hand)
    ensures r.Err? ==> r.error == UnknownCard(FirstUnknown(hand))
    ensures r.Ok? ==> fresh(r.value) && r.value.hand == hand && r.value.bid == bid && r.value.rank == None
    ensures r.Ok? ==> r.value.parsedHand == Tally(hand) && r.value.kind == TypeOf(Tally(hand)) && r.value.comparable == PowerValue(hand)
  {
    var parsed := GetParsedHand(hand);
    var kind := GetType(parsed);
    var comparable := GetComparableHand(hand);
    if comparable.Err? {
      return Err(comparable.error);
    }
    var h := new RicoHand(hand, bid, parsed, kind, comparable.value);
    r := Ok(h);
  }

  /** The sort keys of a list of hands. */
  function HandKeys(hands: seq<RicoHand>): (keys: seq<Key>)
    ensures |keys| == |hands|
  {
    seq(|hands|, i requires 0 <= i < |hands| => (Value(hands[i].kind), hands[i].comparable))
  }

  /** The first loop of `update_ranks`: each hand's position appended to the bucket of its type. */
  method FillBuckets(hands: seq<RicoHand>) returns (buckets: map<Kind, seq<nat>>)
    ensures forall k: Kind :: k in buckets && buckets[k] == Filter(HandKeys(hands), |hands|, Value(k))
  {
    var keys := HandKeys(hands);
    buckets := map[FiveOfKind := [], FourOfKind := [], FullHouse := [],
      ThreeOfKind := [], TwoPair := [], OnePair := [], HighCard := []];
    assert forall k: Kind :: k in buckets && buckets[k] == [] by {
      forall k: Kind ensures k in buckets && buckets[k] == [] {
        match k
        case FiveOfKind =>
        case FourOfKind =>
        case FullHouse =>
        case ThreeOfKind =>
        case TwoPair =>
        case OnePair =>
        case HighCard =>
      }
    }
    for i := 0 to |hands|
      invariant forall k: Kind :: k in buckets && buckets[k] == Filter(keys, i, Value(k))
    {
      var k := hands[i].kind;
      var next := buckets[k := buckets[k] + [i]];
      forall k': Kind ensures k' in next && next[k'] == Filter(keys, i + 1, Value(k')) {
        ValueInjective(k, k');
      }
      buckets := next;
    }
  }

  /** The inner loop of `update_ranks`: the next ranks go to the sorted bucket of type t, in order. */
  method RankBucket(hands: seq<RicoHand>, keys: seq<Key>, t: nat, sortedList: seq<nat>, rankValue0: nat) returns (rankValue: nat)
    requires forall a, b :: 0 <= a < b < |hands| ==> hands[a] != hands[b]
    requires keys == HandKeys(hands)
    requires sortedList == Bucket(keys, t)
    requires rankValue0 == 1 + CountType(keys, |keys|, t)
    modifies set h | h in hands
    ensures rankValue == 1 + CountType(keys, |keys|, t + 1)
    ensures forall i :: 0 <= i < |hands| ==>
      hands[i].rank == (if keys[i].0 == t then Some(Rank(keys, i)) else old(hands[i].rank))
  {
    var n := |hands|;
    rankValue := rankValue0;
    BucketRanks(keys, t);
    for p := 0 to |sortedList|
      invariant rankValue == rankValue0 + p
      invariant forall i :: 0 <= i < n ==>
        hands[i].rank == (if keys[i].0 == t && Rank(keys, i) < rankValue then Some(Rank(keys, i)) else old(hands[i].rank))
    {
      RankAt(keys, t, p);
      var x := sortedList[p];
      label before:
      hands[x].rank := Some(rankValue);
      forall i | 0 <= i < n && i != x
        ensures hands[i].rank == old@before(hands[i].rank) && Rank(keys, i) != rankValue
      {
        assert hands[i] != hands[x] by {
          if i < x { assert hands[i] != hands[x]; } else { assert hands[x] != hands[i]; }
        }
        RankOrder(keys, i, x);
      }
      rankValue := rankValue + 1;
    }
  }

  /** The hands of type t are ranked right after all hands of weaker types, one rank for each. */
  lemma BucketRanks(keys: seq<Key>, t: nat)
    ensures |Bucket(keys, t)| == CountType(keys, |keys|, t + 1) - CountType(keys, |keys|, t)
    ensures forall i :: 0 <= i < |keys| && keys[i].0 == t ==>
      1 + CountType(keys, |keys|, t) <= Rank(keys, i) < 1 + CountType(keys, |keys|, t + 1)
  {
    BucketSorted(keys, t);
    TypeStep(keys, |keys|, t);
    forall i | 0 <= i < |keys| && keys[i].0 == t
      ensures 1 + CountType(keys, |keys|, t) <= Rank(keys, i) < 1 + CountType(keys, |keys|, t + 1)
    {
      CountSplit(keys, |keys|, i);
      var q :| 0 <= q < |Bucket(keys, t)| && Bucket(keys, t)[q] == i;
      RankAt(keys, t, q);
    }
  }

  /**
   * `update_ranks`: bucket the hands by type, walk the types from weakest to
   * strongest, sort each bucket by comparable number and hand out ranks
   * 1, 2, ...  The buckets hold positions in the list rather than the
   * objects themselves (the hands are distinct objects).
   */
  method UpdateRanks(hands: seq<RicoHand>)
    requires forall a, b :: 0 <= a < b < |hands| ==> hands[a] != hands[b]
    modifies set h | h in hands
    ensures forall i :: 0 <= i < |hands| ==> hands[i].rank == Some(Rank(HandKeys(hands), i))
  {
    var keys := HandKeys(hands);
    var buckets := FillBuckets(hands);
    TypeOrderValues();
    TypeStep(keys, |hands|, 0);
    var rankValue := 1;
    for t := 0 to |TypeOrder|
      invariant rankValue == 1 + CountType(keys, |hands|, t)
      invariant forall i :: 0 <= i < |hands| ==>
        hands[i].rank == (if keys[i].0 < t then Some(Rank(keys, i)) else old(hands[i].rank))
    {
      var kind := TypeOrder[t];
      assert Value(kind) == t;
      var bucket := buckets[kind];
      rankValue := RankBucket(hands, keys, t, SortedBy(keys, bucket), rankValue);
    }
    assert forall i :: 0 <= i < |hands| ==> keys[i].0 < |TypeOrder|;
  }

  /** The sorted bucket of type t holds exactly the hands of that type, once each. */
  lemma BucketSorted(keys: seq<Key>, t: nat)
    ensures |Bucket(keys, t)| == |Filter(keys, |keys|, t)|
    ensures forall x: nat :: x in Bucket(keys, t) <==> x < |keys| && keys[x].0 == t
  {
    var f := Filter(keys, |keys|, t);
    FilterSpec(keys, |keys|, t);
    var l := SortedBy(keys, f);
    assert |multiset(l)| == |multiset(f)|;
    forall x: nat ensures x in l <==> x in f {
      assert x in l <==> x in multiset(l);
    }
  }

  // ---------------------------------------------------------------- input

  /** One line of `parse_input`: the hand before the first space and the int after it. */
  function ParseLine(line: string): (r: Result<(string, int), Error>)
  {
    var parts := Split(line, ' ');
    if |parts| < 2 then Err(MissingBid(line))
    else match PyInt(parts[1])
      case None => Err(BadBid(parts[1]))
      case Some(bid) => Ok((parts[0], bid))
  }

  /** A hand without spaces followed by a space and a bid in decimal reads back as that hand and bid. */
  lemma LineRoundTrip(hand: string, bid: nat)
    requires ' ' !in hand
    ensures ParseLine(hand + " " + Decimal(bid)) == Ok((hand, bid as int))
  {
    var digits := Decimal(bid);
    SplitAfter(hand, digits);
    assert ' ' !in digits;
    PyIntDigits(digits);
    assert Split(digits, ' ') == [digits];
  }

  /** A piece free of the separator comes off first. */
  lemma {:induction false} SplitAfter(front: string, back: string)
    requires ' ' !in front
    ensures Split(front + " " + back, ' ') == [front] + Split(back, ' ')
    decreases |front|
  {
    var s := front + " " + back;
    CharContains(s, ' ');
    CharContains(back, ' ');
    if front == [] {
      assert s[..1] == " " && s[1..] == back;
    } else {
      assert s[..1] != " ";
      assert s[1..] == front[1..] + " " + back;
      assert ' ' !in front[1..];
      SplitAfter(front[1..], back);
      CharContains(s[1..], ' ');
      CharContains(front[1..] + " " + back, ' ');
      assert [s[0]] + front[1..] == front;
    }
  }

  /** The outcomes of a loop over lines in order: all the values, or the first error. */
  function Collect<T>(rs: seq<Result<T, Error>>): Result<seq<T>, Error>
  {
    if rs == [] then Ok([])
    else match Collect(rs[..|rs| - 1])
      case Err(e) => Err(e)
      case Ok(d) =>
        match rs[|rs| - 1]
        case Err(e) => Err(e)
        case Ok(x) => Ok(d + [x])
  }

  /** Once a prefix has failed, the whole list fails with the same error. */
  lemma {:induction false} CollectPrefixErr<T>(rs: seq<Result<T, Error>>, k: nat)
    requires k <= |rs| && Collect(rs[..k]).Err?
    ensures Collect(rs) == Collect(rs[..k])
    decreases |rs|
  {
    if k < |rs| {
      var f := rs[..|rs| - 1];
      assert f[..k] == rs[..k];
      CollectPrefixErr(f, k);
    } else {
      assert rs[..k] == rs;
    }
  }

  /** One more outcome: a value extends the values collected so far, an error is the final result. */
  lemma CollectStep<T>(rs: seq<Result<T, Error>>, i: nat, done: seq<T>)
    requires i < |rs| && Collect(rs[..i]) == Ok(done)
    ensures rs[i].Ok? ==> Collect(rs[..i + 1]) == Ok(done + [rs[i].value])
    ensures rs[i].Err? ==> Collect(rs) == Err(rs[i].error)
  {
    assert rs[..i + 1][..i] == rs[..i];
    if rs[i].Err? {
      CollectPrefixErr(rs, i + 1);
    }
  }

  /** A list of outcomes collects exactly when every one succeeded, into their values in order. */
  lemma {:induction false} CollectSpec<T>(rs: seq<Result<T, Error>>)
    ensures Collect(rs).Ok? <==> forall i :: 0 <= i < |rs| ==> rs[i].Ok?
    ensures Collect(rs).Ok? ==> (|Collect(rs).value| == |rs| && forall i :: 0 <= i < |rs| ==> Collect(rs).value[i] == rs[i].value)
  {
    if rs != [] {
      var f := rs[..|rs| - 1];
      CollectSpec(f);
      assert forall i :: 0 <= i < |f| ==> f[i] == rs[i];
    }
  }

  /** What parsing each line gives, line by line. */
  function Outcomes(raw: seq<string>): (rs: seq<Result<(string, int), Error>>)
    ensures |rs| == |raw| && forall i :: 0 <= i < |raw| ==> rs[i] == ParseLine(raw[i])
  {
    seq(|raw|, i requires 0 <= i < |raw| => ParseLine(raw[i]))
  }

  /** `parse_input` on the whole list: every line parsed in order, the first that fails decides the error. */
  function ParseLines(raw: seq<string>): Result<seq<(string, int)>, Error>
  {
    Collect(Outcomes(raw))
  }

  method ParseInput(raw: seq<string>) returns (r: Result<seq<(string, int)>, Error>)
    ensures r == ParseLines(raw)
  {
    ghost var rs := Outcomes(raw);
    var result := [];
    for i := 0 to |raw|
      invariant Collect(rs[..i]) == Ok(result)
    {
      var line := ParseLine(raw[i]);
      CollectStep(rs, i, result);
      if line.Err? {
        return Err(line.error);
      }
      result := result + [line.value];
    }
    assert rs[..|raw|] == rs;
    r := Ok(result);
  }

  /** The card of the KeyError that building the hands in order raises first, if any. */
  function FirstBad(data: seq<(string, int)>): Option<char>
  {
    if data == [] then None
    else match FirstBad(data[..|data| - 1])
      case Some(c) => Some(c)
      case None => if AllKnown(data[|data| - 1].0) then None else Some(FirstUnknown(data[|data| - 1].0))
  }

  lemma {:induction false} FirstBadNone(data: seq<(string, int)>)
    ensures FirstBad(data).None? <==> forall i :: 0 <= i < |data| ==> AllKnown(data[i].0)
  {
    if data != [] {
      var f := data[..|data| - 1];
      FirstBadNone(f);
      assert forall i :: 0 <= i < |f| ==> f[i] == data[i];
    }
  }

  lemma {:induction false} BadPrefix(data: seq<(string, int)>, k: nat)
    requires k <= |data| && FirstBad(data[..k]).Some?
    ensures FirstBad(data) == FirstBad(data[..k])
    decreases |data|
  {
    if k < |data| {
      var f := data[..|data| - 1];
      assert f[..k] == data[..k];
      BadPrefix(f, k);
    } else {
      assert data[..k] == data;
    }
  }

  predicate Distinct(hands: seq<RicoHand>) { forall a, b :: 0 <= a < b < |hands| ==> hands[a] != hands[b] }

  /** Hand h is the RicoHand of a line whose cards are all known. */
  predicate Built(h: RicoHand, line: (string, int))
  {
    h.hand == line.0 && h.bid == line.1 && AllKnown(line.0)
    && h.kind == TypeOf(Tally(line.0)) && h.comparable == PowerValue(line.0)
  }

  /** `process_data_input`: one new RicoHand per line, in order. */
  method ProcessDataInput(data: seq<(string, int)>) returns (r: Result<seq<RicoHand>, Error>)
    ensures r.Ok? <==> FirstBad(data).None?
    ensures r.Err? ==> r.error == UnknownCard(FirstBad(data).value)
    ensures r.Ok? ==> |r.value| == |data| && Distinct(r.value)
    ensures r.Ok? ==> forall i :: 0 <= i < |data| ==> fresh(r.value[i]) && r.value[i].rank == None && Built(r.value[i], data[i])
  {
    var result: seq<RicoHand> := [];
    for i := 0 to |data|
      invariant FirstBad(data[..i]).None? && |result| == i && Distinct(result)
      invariant forall j :: 0 <= j < i ==> fresh(result[j]) && result[j].rank == None && Built(result[j], data[j])
    {
      assert data[..i + 1][..i] == data[..i];
      var h := NewRicoHand(data[i].0, data[i].1);
      if h.Err? {
        BadPrefix(data, i + 1);
        return Err(h.error);
      }
      result := result + [h.value];
    }
    assert data[..|data|] == data;
    r := Ok(result);
  }

  // ------------------------------------------------------------- winnings

  /** The sum of bid times rank over the hands, with every rank set. */
  function Winnings(hands: seq<RicoHand>): int
    reads set h | h in hands
    requires forall i :: 0 <= i < |hands| ==> hands[i].rank.Some?
  {
    if hands == [] then 0
    else
      var last := hands[|hands| - 1];
      Winnings(hands[..|hands| - 1]) + last.bid * last.rank.value
  }

  /** The final loop of the script. */
  method TotalWinnings(hands: seq<RicoHand>) returns (result: int)
    requires forall i :: 0 <= i < |hands| ==> hands[i].rank.Some?
    ensures result == Winnings(hands)
  {
    result := 0;
    for i := 0 to |hands|
      invariant result == Winnings(hands[..i])
    {
      assert hands[..i + 1][..i] == hands[..i];
      result := result + hands[i].bid * hands[i].rank.value;
    }
    assert hands[..|hands|] == hands;
  }

  /** The sort key of a hand of known cards. */
  function KeyOfHand(hand: string): Key
    requires AllKnown(hand)
  {
    (Value(TypeOf(Tally(hand))), PowerValue(hand))
  }

  /** The sort keys of the parsed lines, all of known cards. */
  function DataKeys(data: seq<(string, int)>): (keys: seq<Key>)
    requires forall i :: 0 <= i < |data| ==> AllKnown(data[i].0)
    ensures |keys| == |data|
  {
    seq(|data|, i requires 0 <= i < |data| => KeyOfHand(data[i].0))
  }

  /** The hands built from the lines have the lines' sort keys. */
  lemma BuiltKeys(hands: seq<RicoHand>, data: seq<(string, int)>)
    requires |hands| == |data| && forall i :: 0 <= i < |data| ==> Built(hands[i], data[i])
    ensures forall i :: 0 <= i < |data| ==> AllKnown(data[i].0)
    ensures HandKeys(hands) == DataKeys(data)
  {
  }

  /** The answer on parsed data: bid times rank, ranks as `update_ranks` gives them. */
  function Score(data: seq<(string, int)>, keys: seq<Key>, k: nat): int
    requires |keys| == |data| && k <= |data|
  {
    if k == 0 then 0 else Score(data, keys, k - 1) + data[k - 1].1 * Rank(keys, k - 1)
  }

  /** What the script prints for the stripped input lines, or the exception it stops with. */
  function Answer(raw: seq<string>): Result<int, Error>
  {
    match ParseLines(raw)
    case Err(e) => Err(e)
    case Ok(data) =>
      match FirstBad(data)
      case Some(c) => Err(UnknownCard(c))
      case None =>
        FirstBadNone(data);
        Ok(Score(data, DataKeys(data), |data|))
  }

  lemma {:induction false} WinningsScore(hands: seq<RicoHand>, data: seq<(string, int)>, keys: seq<Key>, k: nat)
    requires |hands| == |data| == |keys| && k <= |hands|
    requires forall i :: 0 <= i < |hands| ==> hands[i].rank == Some(Rank(keys, i)) && hands[i].bid == data[i].1
    ensures Winnings(hands[..k]) == Score(data, keys, k)
  {
    if k > 0 {
      assert hands[..k][..k - 1] == hands[..k - 1];
      WinningsScore(hands, data, keys, k - 1);
    }
  }

  /** The script from the parsed lines to the printed sum. */
  method Solve(raw: seq<string>) returns (r: Result<int, Error>)
    ensures r == Answer(raw)
  {
    var data := ParseInput(raw);
    if data.Err? {
      return Err(data.error);
    }
    var hands := ProcessDataInput(data.value);
    if hands.Err? {
      return Err(hands.error);
    }
    var hs := hands.value;
    BuiltKeys(hs, data.value);
    ghost var keys := DataKeys(data.value);
    UpdateRanks(hs);
    var total := TotalWinnings(hs);
    WinningsScore(hs, data.value, keys, |hs|);
    assert hs[..|hs|] == hs;
    r := Ok(total);
  }
}
