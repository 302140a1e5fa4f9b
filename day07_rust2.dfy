/**
 * rust/d07_2: Camel Cards with jokers.  A hand of five cards is classified
 * by grouping equal faces into buckets, the jokers joining the largest
 * other bucket; hands are ordered by type and then card by card, ranked
 * from the weakest, and the winnings sum each bid times its rank.
 */
module Day07Rust2 {
  import opened Wrappers
  import opened Text

  /**
   * The faces in declaration order.  The derived ordering makes an earlier
   * face the smaller one, and the comparison of hands makes the smaller
   * one the stronger, so J ranks below Two.
   */
  datatype Card = A | K | Q | Ten | Nine | Eight | Seven | Six | Five | Four | Three | Two | J | Unknown

  /** A face's place in the declaration, which is what the derived `PartialOrd` compares. */
  function Pos(c: Card): nat {
    match c
    case A => 0 case K => 1 case Q => 2 case Ten => 3 case Nine => 4 case Eight => 5
    case Seven => 6 case Six => 7 case Five => 8 case Four => 9 case Three => 10
    case Two => 11 case J => 12 case Unknown => 13
  }

  /** The cards of `get_card_variants`, in its order: J comes fourth. */
  const Faces: seq<Card> := [A, K, Q, J, Ten, Nine, Eight, Seven, Six, Five, Four, Three, Two]

  /** The character a known face is written with, the other half of each `get_card_variants` pair. */
  function Face(c: Card): char
    requires c != Unknown
  {
    match c
    case A => 'A' case K => 'K' case Q => 'Q' case J => 'J' case Ten => 'T' case Nine => '9'
    case Eight => '8' case Seven => '7' case Six => '6' case Five => '5' case Four => '4'
    case Three => '3' case Two => '2'
  }

  /** The characters a card can be written with. */
  predicate IsCardChar(ch: char) {
    ch == 'A' || ch == 'K' || ch == 'Q' || ch == 'J' || ch == 'T' || ('2' <= ch <= '9')
  }

  predicate DistinctFaces(faces: seq<Card>) {
    forall i, j :: 0 <= i < j < |faces| ==> faces[i] != faces[j]
  }

  /** A list naming every known face exactly once. */
  predicate Listing(faces: seq<Card>) {
    Unknown !in faces && DistinctFaces(faces) && forall c :: c != Unknown ==> c in faces
  }

  /** Faces is such a list. */
  lemma FacesListed()
    ensures Listing(Faces)
  {
    forall c | c != Unknown ensures c in Faces {
      match c
      case A => assert Faces[0] == c; case K => assert Faces[1] == c; case Q => assert Faces[2] == c;
      case J => assert Faces[3] == c; case Ten => assert Faces[4] == c; case Nine => assert Faces[5] == c;
      case Eight => assert Faces[6] == c; case Seven => assert Faces[7] == c; case Six => assert Faces[8] == c;
      case Five => assert Faces[9] == c; case Four => assert Faces[10] == c; case Three => assert Faces[11] == c;
      case Two => assert Faces[12] == c;
    }
  }

  /** The head of a list of distinct faces is not in its tail. */
  lemma HeadNotInTail(faces: seq<Card>)
    requires faces != [] && DistinctFaces(faces)
    ensures faces[0] !in faces[1..] && DistinctFaces(faces[1..])
  {
    forall k | 0 <= k < |faces[1..]| ensures faces[1..][k] != faces[0] {
      assert faces[1..][k] == faces[k + 1];
    }
  }

  datatype Error = NoCard(ch: char) | TooManyCards | BadBid(token: string) | Undefined

  /** `get_card_from_char`: the first variant written with ch, or an error. */
  function GetCardFromChar(ch: char): (r: Result<Card, Error>)
    ensures r.Ok? <==> IsCardChar(ch)
    ensures r.Ok? ==> r.value != Unknown && Face(r.value) == ch
    ensures r.Err? ==> r.error == NoCard(ch)
  {
    match ch
    case 'A' => Ok(A) case 'K' => Ok(K) case 'Q' => Ok(Q) case 'J' => Ok(J)
    case 'T' => Ok(Ten) case '9' => Ok(Nine) case '8' => Ok(Eight) case '7' => Ok(Seven)
    case '6' => Ok(Six) case '5' => Ok(Five) case '4' => Ok(Four) case '3' => Ok(Three)
    case '2' => Ok(Two)
    case _ => Err(NoCard(ch))
  }

  /** Reading back the character of a known face gives the face. */
  lemma CardRoundTrip(c: Card)
    requires c != Unknown
    ensures GetCardFromChar(Face(c)) == Ok(c)
  {
    match c
    case A => case K => case Q => case J => case Ten => case Nine => case Eight =>
    case Seven => case Six => case Five => case Four => case Three => case Two =>
  }

  /** The array of five cards a hand holds. */
  type Cards = s: seq<Card> | |s| == 5 witness [A, A, A, A, A]

  datatype ComboType = FiveOfAKind | FourOfAKind | FullHouse | ThreeOfAKind | TwoPair | OnePair | HighCard | UnknownType

  /** A type's place in the declaration: the smaller, the stronger. */
  function ComboPos(t: ComboType): nat {
    match t
    case FiveOfAKind => 0 case FourOfAKind => 1 case FullHouse => 2 case ThreeOfAKind => 3
    case TwoPair => 4 case OnePair => 5 case HighCard => 6 case UnknownType => 7
  }

  type Bucket = (Card, nat)

  /** A bucket list as `get_combo_type` builds it: known faces with positive counts. */
  predicate Proper(b: seq<Bucket>) {
    forall i :: 0 <= i < |b| ==> b[i].0 != Unknown && b[i].1 > 0
  }

  /** No face has two buckets. */
  predicate Distinct(b: seq<Bucket>) {
    forall i, j :: 0 <= i < j < |b| ==> b[i].0 != b[j].0
  }

  /**
   * The buckets the first loop of `get_combo_type` pushes for the given
   * faces, in their order, skipping the faces with no card.
   */
  function BucketsOver(cards: seq<Card>, faces: seq<Card>): (b: seq<Bucket>)
    requires Unknown !in faces
    ensures Proper(b)
  {
    if faces == [] then []
    else
      var n := multiset(cards)[faces[0]];
      if n > 0 then [(faces[0], n)] + BucketsOver(cards, faces[1..]) else BucketsOver(cards, faces[1..])
  }

  /** Each bucket counts the cards of one of the faces. */
  predicate CountsOf(cards: seq<Card>, faces: seq<Card>, b: seq<Bucket>) {
    forall i :: 0 <= i < |b| ==> b[i].0 in faces && b[i].1 == multiset(cards)[b[i].0]
  }

  lemma {:induction false} BucketsCount(cards: seq<Card>, faces: seq<Card>)
    requires Unknown !in faces
    ensures CountsOf(cards, faces, BucketsOver(cards, faces))
  {
    if faces != [] {
      var b, rest := BucketsOver(cards, faces), BucketsOver(cards, faces[1..]);
      var n := multiset(cards)[faces[0]];
      assert b == if n > 0 then [(faces[0], n)] + rest else rest;
      BucketsCount(cards, faces[1..]);
      assert forall c :: c in faces[1..] ==> c in faces;
      forall i | 0 <= i < |b| ensures b[i].0 in faces && b[i].1 == multiset(cards)[b[i].0] {
        if multiset(cards)[faces[0]] > 0 {
          if i > 0 {
            assert b[i] == rest[i - 1];
          }
        } else {
          assert b[i] == rest[i];
        }
      }
    }
  }

  /** Distinct faces give distinct buckets. */
  lemma {:induction false} BucketsDistinct(cards: seq<Card>, faces: seq<Card>)
    requires Unknown !in faces && DistinctFaces(faces)
    ensures Distinct(BucketsOver(cards, faces))
  {
    if faces != [] {
      var b, rest := BucketsOver(cards, faces), BucketsOver(cards, faces[1..]);
      var n := multiset(cards)[faces[0]];
      assert b == if n > 0 then [(faces[0], n)] + rest else rest;
      HeadNotInTail(faces);
      BucketsDistinct(cards, faces[1..]);
      BucketsCount(cards, faces[1..]);
      if multiset(cards)[faces[0]] > 0 {
        forall i, j | 0 <= i < j < |b| ensures b[i].0 != b[j].0 {
          assert b[j] == rest[j - 1];
          if i > 0 {
            assert b[i] == rest[i - 1];
          }
        }
      }
    }
  }

  /** Every listed face that some card shows has its bucket. */
  lemma {:induction false} BucketsComplete(cards: seq<Card>, faces: seq<Card>, c: Card)
    requires Unknown !in faces && c in faces && c in cards
    ensures (c, multiset(cards)[c]) in BucketsOver(cards, faces)
  {
    if faces[0] != c {
      BucketsComplete(cards, faces[1..], c);
    }
  }

  /** The number of cards in a bucket list. */
  function Total(b: seq<Bucket>): nat {
    if b == [] then 0 else b[0].1 + Total(b[1..])
  }

  lemma {:induction false} TotalAppend(a: seq<Bucket>, b: seq<Bucket>)
    ensures Total(a + b) == Total(a) + Total(b)
  {
    if a != [] {
      assert (a + b)[0] == a[0] && (a + b)[1..] == a[1..] + b;
      TotalAppend(a[1..], b);
    } else {
      assert a + b == b;
    }
  }

  /** The number of cards whose face is listed. */
  function ListedCards(cards: seq<Card>, faces: seq<Card>): nat {
    if cards == [] then 0
    else ListedCards(cards[..|cards| - 1], faces) + (if cards[|cards| - 1] in faces then 1 else 0)
  }

  lemma {:induction false} TotalOneMore(cards: seq<Card>, c: Card, faces: seq<Card>)
    requires Unknown !in faces && DistinctFaces(faces)
    ensures Total(BucketsOver(cards + [c], faces)) == Total(BucketsOver(cards, faces)) + (if c in faces then 1 else 0)
  {
    if faces != [] {
      HeadNotInTail(faces);
      TotalOneMore(cards, c, faces[1..]);
      var f := faces[0];
      assert multiset(cards + [c])[f] == multiset(cards)[f] + (if c == f then 1 else 0);
      assert c in faces <==> c == f || c in faces[1..];
      var rest, rest' := BucketsOver(cards, faces[1..]), BucketsOver(cards + [c], faces[1..]);
      assert Total([(f, multiset(cards)[f])] + rest) == multiset(cards)[f] + Total(rest);
      assert Total([(f, multiset(cards + [c])[f])] + rest') == multiset(cards + [c])[f] + Total(rest');
    }
  }

  lemma {:induction false} NoCardsNoBuckets(faces: seq<Card>)
    requires Unknown !in faces
    ensures BucketsOver([], faces) == []
  {
    if faces != [] { NoCardsNoBuckets(faces[1..]); }
  }

  /** Every card of a listed face is in exactly one bucket. */
  lemma {:induction false} TotalCounts(cards: seq<Card>, faces: seq<Card>)
    requires Unknown !in faces && DistinctFaces(faces)
    ensures Total(BucketsOver(cards, faces)) == ListedCards(cards, faces)
    decreases |cards|
  {
    if cards == [] {
      NoCardsNoBuckets(faces);
    } else {
      var front := cards[..|cards| - 1];
      assert front + [cards[|cards| - 1]] == cards;
      TotalCounts(front, faces);
      TotalOneMore(front, cards[|cards| - 1], faces);
    }
  }

  lemma {:induction false} ListedAtMost(cards: seq<Card>, faces: seq<Card>)
    ensures ListedCards(cards, faces) <= |cards|
    ensures (forall i :: 0 <= i < |cards| ==> cards[i] in faces) ==> ListedCards(cards, faces) == |cards|
    decreases |cards|
  {
    if cards != [] {
      ListedAtMost(cards[..|cards| - 1], faces);
    }
  }

  /** The buckets hold the known cards: at most five for a hand, and all five when none is Unknown. */
  lemma HandTotal(cards: Cards, faces: seq<Card>)
    requires Listing(faces)
    ensures Total(BucketsOver(cards, faces)) <= 5
    ensures Unknown !in cards ==> Total(BucketsOver(cards, faces)) == 5
  {
    TotalCounts(cards, faces);
    ListedAtMost(cards, faces);
  }

  lemma {:induction false} TotalZero(b: seq<Bucket>)
    requires Proper(b) && Total(b) == 0
    ensures b == []
  {
  }

  /** The bucket with the larger count, ties to the stronger face; jokers are passed over. */
  function Bigger(acc: Bucket, e: Bucket): Bucket {
    if e.0 == J then acc
    else if e.1 > acc.1 then e
    else if e.1 == acc.1 && Pos(e.0) < Pos(acc.0) then e
    else acc
  }

  /**
   * What the second loop of `get_combo_type` keeps as the largest bucket:
   * Unknown with size 0 when every bucket is the joker's, otherwise a
   * non-joker bucket of the largest count, the strongest face among ties.
   */
  function LargestOf(b: seq<Bucket>): (r: Bucket)
    requires Proper(b)
    ensures r.0 == Unknown <==> forall i :: 0 <= i < |b| ==> b[i].0 == J
    ensures r.0 == Unknown ==> r.1 == 0
    ensures r.0 != Unknown ==> r in b && r.0 != J
    ensures forall i :: 0 <= i < |b| && b[i].0 != J ==> b[i].1 <= r.1 && (b[i].1 == r.1 ==> Pos(r.0) <= Pos(b[i].0))
  {
    if b == [] then (Unknown, 0)
    else
      var front := b[..|b| - 1];
      assert forall i :: 0 <= i < |front| ==> front[i] == b[i];
      Bigger(LargestOf(front), b[|b| - 1])
  }

  /** Where LargestOf found its bucket. */
  ghost function LargestPlace(b: seq<Bucket>): (p: nat)
    requires Proper(b)
    ensures LargestOf(b).0 != Unknown ==> p < |b| && b[p] == LargestOf(b)
  {
    if b == [] then 0
    else
      var front := b[..|b| - 1];
      assert forall i :: 0 <= i < |front| ==> front[i] == b[i];
      var acc, e := LargestOf(front), b[|b| - 1];
      if e.0 != J && (e.1 > acc.1 || (e.1 == acc.1 && Pos(e.0) < Pos(acc.0))) then |b| - 1
      else LargestPlace(front)
  }

  /** Whether a joker bucket was seen, its size and its index: the last joker bucket of b. */
  function JokerOf(b: seq<Bucket>): (r: (bool, nat, nat))
    ensures r.0 <==> exists i :: 0 <= i < |b| && b[i].0 == J
    ensures r.0 ==> r.2 < |b| && b[r.2] == (J, r.1)
  {
    if b == [] then (false, 0, 0)
    else if b[|b| - 1].0 == J then (true, b[|b| - 1].1, |b| - 1)
    else
      var front := b[..|b| - 1];
      assert forall i :: 0 <= i < |front| ==> front[i] == b[i];
      JokerOf(front)
  }

  /** `card_buckets.remove(i)`. */
  function Remove(b: seq<Bucket>, i: nat): (r: seq<Bucket>)
    requires i < |b|
    ensures |r| == |b| - 1
    ensures forall k :: 0 <= k < |r| ==> r[k] == (if k < i then b[k] else b[k + 1])
  {
    b[..i] + b[i + 1..]
  }

  /** The `iter_mut` loop: the joker count added to every bucket of face c. */
  function AddTo(b: seq<Bucket>, c: Card, n: nat): (r: seq<Bucket>)
    ensures |r| == |b|
    ensures forall k :: 0 <= k < |r| ==> r[k] == (if b[k].0 == c then (c, b[k].1 + n) else b[k])
  {
    seq(|b|, k requires 0 <= k < |b| => if b[k].0 == c then (c, b[k].1 + n) else b[k])
  }

  /** The final `match card_buckets.len()` of `get_combo_type`. */
  function ByBucketCount(m: seq<Bucket>): (r: Result<ComboType, Error>)
    ensures r.Ok? <==> (1 <= |m| <= 5 && (|m| == 2 ==> 1 <= m[0].1 <= 4))
    ensures r.Err? ==> r.error == Undefined
  {
    if |m| == 5 then Ok(HighCard)
    else if |m| == 4 then Ok(OnePair)
    else if |m| == 3 then
      if exists i :: 0 <= i < |m| && m[i].1 == 3 then Ok(ThreeOfAKind) else Ok(TwoPair)
    else if |m| == 2 then
      if m[0].1 == 4 || m[0].1 == 1 then Ok(FourOfAKind)
      else if m[0].1 == 3 || m[0].1 == 2 then Ok(FullHouse)
      else Err(Undefined)
    else if |m| == 1 then Ok(FiveOfAKind)
    else Err(Undefined)
  }

  /** `get_combo_type` on buckets: the joker bucket is removed and its count joins the largest other bucket. */
  function ComboOfBuckets(b: seq<Bucket>): Result<ComboType, Error>
    requires Proper(b)
  {
    var big := LargestOf(b);
    var joker := JokerOf(b);
    if joker.0 && big.0 == Unknown then Ok(FiveOfAKind)
    else ByBucketCount(if joker.0 then Merged(b) else b)
  }

  /** The whole of `get_combo_type` on values. */
  function ComboOf(cards: Cards): Result<ComboType, Error> {
    FacesListed();
    ComboOfBuckets(BucketsOver(cards, Faces))
  }

  /** The number of listed faces other than J that the cards show. */
  function KindsOver(cards: seq<Card>, faces: seq<Card>): nat {
    if faces == [] then 0
    else (if faces[0] != J && multiset(cards)[faces[0]] > 0 then 1 else 0) + KindsOver(cards, faces[1..])
  }

  /** The largest number of cards of one listed face other than J. */
  function TopOver(cards: seq<Card>, faces: seq<Card>): nat {
    if faces == [] then 0
    else
      var n := if faces[0] != J then multiset(cards)[faces[0]] else 0;
      var rest := TopOver(cards, faces[1..]);
      if n > rest then n else rest
  }

  /**
   * The Camel Cards rule with jokers, stated on its own: the jokers join
   * the largest group of another face, and the type follows from the
   * number of other faces and the size of that group.
   */
  function JokerRule(kinds: nat, top: nat): ComboType {
    if kinds <= 1 then FiveOfAKind
    else if kinds == 2 then (if top == 4 then FourOfAKind else FullHouse)
    else if kinds == 3 then (if top == 3 then ThreeOfAKind else TwoPair)
    else if kinds == 4 then OnePair
    else HighCard
  }

  function JokerType(cards: Cards): ComboType {
    JokerRule(KindsOver(cards, Faces), TopOver(cards, Faces) + multiset(cards)[J])
  }

  /** Only J's bucket is not counted among the kinds. */
  lemma {:induction false} BucketsLength(cards: seq<Card>, faces: seq<Card>)
    requires Unknown !in faces && DistinctFaces(faces)
    ensures |BucketsOver(cards, faces)| == KindsOver(cards, faces) + (if J in faces && multiset(cards)[J] > 0 then 1 else 0)
  {
    if faces != [] {
      HeadNotInTail(faces);
      BucketsLength(cards, faces[1..]);
      assert J in faces <==> faces[0] == J || J in faces[1..];
    }
  }

  /** No bucket other than the joker's holds more than top cards. */
  predicate AtMost(b: seq<Bucket>, top: nat) {
    forall i :: 0 <= i < |b| && b[i].0 != J ==> b[i].1 <= top
  }

  lemma {:induction false} TopAbove(cards: seq<Card>, faces: seq<Card>)
    requires Unknown !in faces
    ensures AtMost(BucketsOver(cards, faces), TopOver(cards, faces))
  {
    if faces != [] {
      var b, rest := BucketsOver(cards, faces), BucketsOver(cards, faces[1..]);
      var top := TopOver(cards, faces);
      var n := multiset(cards)[faces[0]];
      assert b == if n > 0 then [(faces[0], n)] + rest else rest;
      TopAbove(cards, faces[1..]);
      assert TopOver(cards, faces[1..]) <= top;
      forall i | 0 <= i < |b| && b[i].0 != J ensures b[i].1 <= top {
        if multiset(cards)[faces[0]] > 0 {
          if i > 0 {
            assert b[i] == rest[i - 1];
          }
        } else {
          assert b[i] == rest[i];
        }
      }
    }
  }

  /** TopOver is no more than any bound on the counts of the listed faces other than J. */
  lemma {:induction false} TopBelow(cards: seq<Card>, faces: seq<Card>, bound: nat)
    requires forall c :: c in faces && c != J ==> multiset(cards)[c] <= bound
    ensures TopOver(cards, faces) <= bound
  {
    if faces != [] {
      TopBelow(cards, faces[1..], bound);
    }
  }

  /** With no listed kind other than J, no listed face other than J shows. */
  lemma {:induction false} KindsNone(cards: seq<Card>, faces: seq<Card>, c: Card)
    requires KindsOver(cards, faces) == 0 && c in faces && c != J
    ensures multiset(cards)[c] == 0
  {
    if faces[0] != c {
      KindsNone(cards, faces[1..], c);
    }
  }

  /** With some kind other than J, the bucket at index i is not the joker's. */
  ghost function SomeKind(cards: seq<Card>, faces: seq<Card>): (i: nat)
    requires Unknown !in faces && KindsOver(cards, faces) > 0
    ensures i < |BucketsOver(cards, faces)| && BucketsOver(cards, faces)[i].0 != J
  {
    var n := multiset(cards)[faces[0]];
    if faces[0] != J && n > 0 then 0
    else
      var i := SomeKind(cards, faces[1..]);
      assert n > 0 ==> BucketsOver(cards, faces) == [(faces[0], n)] + BucketsOver(cards, faces[1..]);
      if n > 0 then i + 1 else i
  }

  /** The largest non-joker bucket holds TopOver cards, and there is none exactly when no other kind shows. */
  lemma {:induction false} LargestIsTop(cards: seq<Card>, faces: seq<Card>)
    requires Unknown !in faces
    ensures var big := LargestOf(BucketsOver(cards, faces));
      (big.0 == Unknown <==> KindsOver(cards, faces) == 0) && big.1 == TopOver(cards, faces)
  {
    var b := BucketsOver(cards, faces);
    var big := LargestOf(b);
    TopAbove(cards, faces);
    BucketsCount(cards, faces);
    if KindsOver(cards, faces) > 0 {
      var i := SomeKind(cards, faces);
    }
    forall c | c in faces && c != J ensures multiset(cards)[c] <= big.1 {
      if c in cards {
        BucketsComplete(cards, faces, c);
      }
    }
    TopBelow(cards, faces, big.1);
    if big.0 != Unknown && KindsOver(cards, faces) == 0 {
      var p := LargestPlace(b);
      KindsNone(cards, faces, big.0);
      assert false;
    }
  }

  /** Removing a bucket keeps the others distinct. */
  lemma RemoveDistinct(b: seq<Bucket>, i: nat)
    requires i < |b| && Proper(b) && Distinct(b)
    ensures Proper(Remove(b, i)) && Distinct(Remove(b, i))
  {
    var r := Remove(b, i);
    forall k, k' | 0 <= k < k' < |r| ensures r[k].0 != r[k'].0 {
      var f, f' := if k < i then k else k + 1, if k' < i then k' else k' + 1;
      assert r[k] == b[f] && r[k'] == b[f'];
    }
  }

  lemma {:induction false} TotalRemove(b: seq<Bucket>, i: nat)
    requires i < |b|
    ensures Total(Remove(b, i)) + b[i].1 == Total(b)
  {
    assert b == b[..i] + ([b[i]] + b[i + 1..]);
    TotalAppend(b[..i], [b[i]] + b[i + 1..]);
    TotalAppend([b[i]], b[i + 1..]);
    TotalAppend(b[..i], b[i + 1..]);
  }

  lemma {:induction false} TotalBump(s: seq<Bucket>, p: nat, n: nat)
    requires p < |s|
    ensures Total(s[p := (s[p].0, s[p].1 + n)]) == Total(s) + n
    decreases p
  {
    if p > 0 {
      TotalBump(s[1..], p - 1, n);
      assert s[p := (s[p].0, s[p].1 + n)][1..] == s[1..][p - 1 := (s[p].0, s[p].1 + n)];
    }
  }

  /** Every bucket has a card, so a list holds at least the cards of bucket i and one card per other bucket. */
  lemma {:induction false} TotalBound(m: seq<Bucket>, i: nat)
    requires Proper(m) && i < |m|
    ensures Total(m) >= m[i].1 + |m| - 1
  {
    if i > 0 {
      TotalBound(m[1..], i - 1);
    } else if |m| > 1 {
      TotalBound(m[1..], 0);
    }
  }

  /** The place of bucket q once bucket i is removed. */
  function Shifted(q: nat, i: nat): nat
    requires q != i
  {
    if q < i then q else q - 1
  }

  lemma RemoveAt(b: seq<Bucket>, i: nat, q: nat)
    requires i < |b| && q < |b| && q != i
    ensures Shifted(q, i) < |Remove(b, i)| && Remove(b, i)[Shifted(q, i)] == b[q]
  {
  }

  /** In a list of distinct faces, adding to the face of bucket p changes only bucket p. */
  lemma AddToOne(s: seq<Bucket>, p: nat, n: nat)
    requires Distinct(s) && p < |s|
    ensures AddTo(s, s[p].0, n) == s[p := (s[p].0, s[p].1 + n)]
  {
    var m := AddTo(s, s[p].0, n);
    forall k | 0 <= k < |s| ensures m[k] == s[p := (s[p].0, s[p].1 + n)][k] {
      if k < p {
        assert s[k].0 != s[p].0;
      } else if k > p {
        assert s[p].0 != s[k].0;
      }
    }
  }

  lemma AddToProper(s: seq<Bucket>, c: Card, n: nat)
    requires Proper(s)
    ensures Proper(AddTo(s, c, n))
  {
    var m := AddTo(s, c, n);
    forall k | 0 <= k < |m| ensures m[k].0 != Unknown && m[k].1 > 0 {
      assert m[k].0 == s[k].0 && m[k].1 >= s[k].1;
    }
  }

  /** `card_buckets.remove(i)` and the merge keep the cards but those of bucket i, which n makes up for. */
  lemma {:induction false} MergeTotal(b: seq<Bucket>, i: nat, q: nat, n: nat)
    requires Proper(b) && Distinct(b) && i < |b| && q < |b| && q != i
    ensures var m := AddTo(Remove(b, i), b[q].0, n);
      Proper(m) && Total(m) + b[i].1 == Total(b) + n && |m| == |b| - 1 && m[Shifted(q, i)].1 == b[q].1 + n
  {
    var s := Remove(b, i);
    RemoveDistinct(b, i);
    AddToProper(s, b[q].0, n);
    TotalRemove(b, i);
    RemoveAt(b, i, q);
    AddToOne(s, Shifted(q, i), n);
    TotalBump(s, Shifted(q, i), n);
  }

  /** When bucket q is the largest but for bucket i, it stays the largest once n is added to it. */
  lemma {:induction false} MergeTop(b: seq<Bucket>, i: nat, q: nat, n: nat)
    requires Proper(b) && Distinct(b) && i < |b| && q < |b| && q != i
    requires forall k :: 0 <= k < |b| && k != i ==> b[k].1 <= b[q].1
    ensures var m := AddTo(Remove(b, i), b[q].0, n);
      forall k :: 0 <= k < |m| ==> m[k].1 <= b[q].1 + n
  {
    var s := Remove(b, i);
    var m := AddTo(s, b[q].0, n);
    forall k | 0 <= k < |m| ensures m[k].1 <= b[q].1 + n {
      var f := if k < i then k else k + 1;
      assert s[k] == b[f] && f != i;
    }
  }

  /** With one joker bucket, every other bucket is counted by LargestOf. */
  lemma LargestBound(b: seq<Bucket>)
    requires Proper(b) && Distinct(b) && JokerOf(b).0
    ensures forall k :: 0 <= k < |b| && k != JokerOf(b).2 ==> b[k].0 != J && b[k].1 <= LargestOf(b).1
  {
    var i := JokerOf(b).2;
    forall k | 0 <= k < |b| && k != i ensures b[k].0 != J {
      if k < i {
        assert b[k].0 != b[i].0;
      } else {
        assert b[i].0 != b[k].0;
      }
    }
  }

  /** The buckets once the joker bucket is removed and its count added to the largest bucket. */
  function Merged(b: seq<Bucket>): (m: seq<Bucket>)
    requires Proper(b) && JokerOf(b).0
    ensures |m| == |b| - 1
  {
    var joker := JokerOf(b);
    AddTo(Remove(b, joker.2), LargestOf(b).0, joker.1)
  }

  /** Where the largest bucket is after the merge. */
  ghost function MergePlace(b: seq<Bucket>): nat
    requires Proper(b) && JokerOf(b).0 && LargestOf(b).0 != Unknown
  {
    var q := LargestPlace(b);
    if q < JokerOf(b).2 then q else q - 1
  }

  /**
   * After the merge: a proper list of the same number of cards, one bucket
   * fewer, whose largest bucket, the one of LargestOf, has the jokers added.
   */
  lemma MergedShape(b: seq<Bucket>)
    requires Proper(b) && Distinct(b) && JokerOf(b).0 && LargestOf(b).0 != Unknown
    ensures var m, p := Merged(b), MergePlace(b);
      Proper(m) && Total(m) == Total(b) && p < |m| && m[p].1 == LargestOf(b).1 + JokerOf(b).1 &&
      forall k :: 0 <= k < |m| ==> m[k].1 <= m[p].1
  {
    var i, q, n := JokerOf(b).2, LargestPlace(b), JokerOf(b).1;
    assert b[q].0 != J;
    LargestBound(b);
    MergeTotal(b, i, q, n);
    MergeTop(b, i, q, n);
  }

  /** The classification of a proper list of five cards by its number of buckets and its largest bucket t. */
  /** A proper list of five cards whose largest bucket is at t. */
  predicate Classifiable(m: seq<Bucket>, t: nat) {
    Proper(m) && Total(m) == 5 && t < |m| && forall i :: 0 <= i < |m| ==> m[i].1 <= m[t].1
  }

  lemma {:induction false} CountRule(m: seq<Bucket>, t: nat)
    requires Classifiable(m, t)
    ensures ByBucketCount(m) == Ok(JokerRule(|m|, m[t].1))
  {
    TotalBound(m, t);
    if |m| == 2 {
      assert Total(m) == m[0].1 + m[1].1 by {
        assert Total(m[1..]) == m[1].1 + Total(m[1..][1..]);
        assert m[1..][1..] == [];
      }
      TotalBound(m, 0);
    } else if |m| == 3 {
      if exists i :: 0 <= i < |m| && m[i].1 == 3 {
        var i :| 0 <= i < |m| && m[i].1 == 3;
        assert m[t].1 >= 3;
      }
    }
  }

  /** For five known cards with a joker, `get_combo_type` follows the joker rule. */
  lemma {:induction false} RuleWithJokers(cards: Cards, faces: seq<Card>)
    requires Listing(faces) && Unknown !in cards && JokerOf(BucketsOver(cards, faces)).0
    ensures ComboOfBuckets(BucketsOver(cards, faces)) == Ok(JokerRule(KindsOver(cards, faces), TopOver(cards, faces) + multiset(cards)[J]))
  {
    if LargestOf(BucketsOver(cards, faces)).0 != Unknown {
      MergedRule(cards, faces);
    } else {
      LargestIsTop(cards, faces);
    }
  }

  /** The joker bucket holds all the jokers of the hand. */
  lemma JokerCount(cards: seq<Card>, faces: seq<Card>)
    requires Unknown !in faces && JokerOf(BucketsOver(cards, faces)).0
    ensures JokerOf(BucketsOver(cards, faces)).1 == multiset(cards)[J]
  {
    var b := BucketsOver(cards, faces);
    BucketsCount(cards, faces);
    assert b[JokerOf(b).2] == (J, JokerOf(b).1);
  }

  /** Five known cards with a joker and another face: the merged list follows the joker rule. */
  lemma MergedRule(cards: Cards, faces: seq<Card>)
    requires Listing(faces) && Unknown !in cards && JokerOf(BucketsOver(cards, faces)).0
    requires LargestOf(BucketsOver(cards, faces)).0 != Unknown
    ensures ByBucketCount(Merged(BucketsOver(cards, faces))) == Ok(JokerRule(KindsOver(cards, faces), TopOver(cards, faces) + multiset(cards)[J]))
  {
    MergedHand(cards, faces);
    CountRule(Merged(BucketsOver(cards, faces)), MergePlace(BucketsOver(cards, faces)));
  }

  /** Five known cards with a joker and another face: the merged list meets the needs of CountRule. */
  lemma MergedHand(cards: Cards, faces: seq<Card>)
    requires Listing(faces) && Unknown !in cards && JokerOf(BucketsOver(cards, faces)).0
    requires LargestOf(BucketsOver(cards, faces)).0 != Unknown
    ensures Classifiable(Merged(BucketsOver(cards, faces)), MergePlace(BucketsOver(cards, faces)))
    ensures |Merged(BucketsOver(cards, faces))| == KindsOver(cards, faces)
    ensures Merged(BucketsOver(cards, faces))[MergePlace(BucketsOver(cards, faces))].1 == TopOver(cards, faces) + multiset(cards)[J]
  {
    var b := BucketsOver(cards, faces);
    LargestIsTop(cards, faces);
    HandTotal(cards, faces);
    BucketsLength(cards, faces);
    BucketsDistinct(cards, faces);
    JokerCount(cards, faces);
    MergedShape(b);
  }

  /** For five known cards without a joker, `get_combo_type` follows the same rule. */
  lemma {:induction false} RuleWithoutJokers(cards: Cards, faces: seq<Card>)
    requires Listing(faces) && Unknown !in cards && !JokerOf(BucketsOver(cards, faces)).0
    ensures ComboOfBuckets(BucketsOver(cards, faces)) == Ok(JokerRule(KindsOver(cards, faces), TopOver(cards, faces) + multiset(cards)[J]))
  {
    PlainHand(cards, faces);
    CountRule(BucketsOver(cards, faces), LargestPlace(BucketsOver(cards, faces)));
  }

  /** Five known cards without a joker: the buckets meet the needs of CountRule. */
  lemma PlainHand(cards: Cards, faces: seq<Card>)
    requires Listing(faces) && Unknown !in cards && !JokerOf(BucketsOver(cards, faces)).0
    ensures multiset(cards)[J] == 0
    ensures Classifiable(BucketsOver(cards, faces), LargestPlace(BucketsOver(cards, faces)))
    ensures |BucketsOver(cards, faces)| == KindsOver(cards, faces)
    ensures BucketsOver(cards, faces)[LargestPlace(BucketsOver(cards, faces))].1 == TopOver(cards, faces)
  {
    var b := BucketsOver(cards, faces);
    HandTotal(cards, faces);
    BucketsLength(cards, faces);
    LargestIsTop(cards, faces);
    if multiset(cards)[J] > 0 {
      BucketsComplete(cards, faces, J);
    }
    if LargestOf(b).0 == Unknown {
      assert false;
    }
  }

  /** For five known cards and any listing of the faces, the buckets follow the joker rule. */
  lemma RuleOver(cards: Cards, faces: seq<Card>)
    requires Listing(faces) && Unknown !in cards
    ensures ComboOfBuckets(BucketsOver(cards, faces)) == Ok(JokerRule(KindsOver(cards, faces), TopOver(cards, faces) + multiset(cards)[J]))
  {
    if JokerOf(BucketsOver(cards, faces)).0 {
      RuleWithJokers(cards, faces);
    } else {
      RuleWithoutJokers(cards, faces);
    }
  }

  /** For five known cards, `get_combo_type` follows the joker rule. */
  lemma ComboFollowsRule(cards: Cards)
    requires Unknown !in cards
    ensures ComboOf(cards) == Ok(JokerType(cards))
  {
    FacesListed();
    RuleOver(cards, Faces);
  }

  /** Merged buckets of at most five cards always get a type. */
  lemma MergedDefined(b: seq<Bucket>)
    requires Proper(b) && Distinct(b) && JokerOf(b).0 && LargestOf(b).0 != Unknown && Total(b) <= 5
    ensures ByBucketCount(Merged(b)).Ok?
  {
    MergedShape(b);
    TotalBound(Merged(b), 0);
  }

  /** With at least one known card the buckets always get a type. */
  lemma {:induction false} DefinedOver(cards: Cards, faces: seq<Card>, i: nat)
    requires Listing(faces) && i < 5 && cards[i] != Unknown
    ensures ComboOfBuckets(BucketsOver(cards, faces)).Ok?
  {
    var b := BucketsOver(cards, faces);
    var big := LargestOf(b);
    var joker := JokerOf(b);
    HandTotal(cards, faces);
    BucketsComplete(cards, faces, cards[i]);
    if joker.0 && big.0 != Unknown {
      BucketsDistinct(cards, faces);
      MergedDefined(b);
    } else if !joker.0 {
      TotalBound(b, 0);
    }
  }

  /** A hand with at least one known card always gets a type, so `set_combo_type` never keeps `Unknown` for it. */
  lemma ComboDefined(cards: Cards)
    requires exists i :: 0 <= i < 5 && cards[i] != Unknown
    ensures ComboOf(cards).Ok?
  {
    FacesListed();
    var i :| 0 <= i < 5 && cards[i] != Unknown;
    DefinedOver(cards, Faces, i);
  }

  /** The first loop's state after the faces of faces[..k]: their buckets and their number of cards. */
  predicate Counted(cards: Cards, faces: seq<Card>, buckets: seq<Bucket>, total: nat, k: nat)
    requires k <= |faces| && Unknown !in faces
  {
    buckets + BucketsOver(cards, faces[k..]) == BucketsOver(cards, faces) && total == Total(buckets)
  }

  lemma {:induction false} CountStep(cards: Cards, faces: seq<Card>, buckets: seq<Bucket>, total: nat, k: nat)
    requires Unknown !in faces && k < |faces| && Counted(cards, faces, buckets, total, k)
    ensures var n := multiset(cards)[faces[k]];
      Counted(cards, faces, if n > 0 then buckets + [(faces[k], n)] else buckets, total + n, k + 1)
  {
    var n := multiset(cards)[faces[k]];
    assert faces[k..][0] == faces[k] && faces[k..][1..] == faces[k + 1..];
    if n > 0 {
      assert buckets + BucketsOver(cards, faces[k..]) == (buckets + [(faces[k], n)]) + BucketsOver(cards, faces[k + 1..]);
      TotalAppend(buckets, [(faces[k], n)]);
    }
  }

  /** The loop may stop at the end of the faces, or once five cards are counted: the faces left have none. */
  lemma {:induction false} CountDone(cards: Cards, faces: seq<Card>, buckets: seq<Bucket>, total: nat, k: nat)
    requires Listing(faces) && k <= |faces| && Counted(cards, faces, buckets, total, k)
    requires k == |faces| || total == 5
    ensures buckets == BucketsOver(cards, faces)
  {
    var rest := BucketsOver(cards, faces[k..]);
    if k == |faces| {
      assert faces[k..] == [];
    } else {
      HandTotal(cards, faces);
      TotalAppend(buckets, rest);
      TotalZero(rest);
    }
    assert buckets + rest == buckets;
  }

  /**
   * The first loop of `get_combo_type` over the faces of any listing such
   * as `get_card_variants`; it stops once five cards are accounted for,
   * which skips only faces with no card.
   */
  method CountBuckets(cards: Cards, faces: seq<Card>) returns (buckets: seq<Bucket>)
    requires Listing(faces)
    ensures buckets == BucketsOver(cards, faces)
  {
    buckets := [];
    var total := 0;
    var k := 0;
    while k < |faces|
      invariant k <= |faces| && Counted(cards, faces, buckets, total, k)
    {
      CountStep(cards, faces, buckets, total, k);
      var tmp := multiset(cards)[faces[k]];
      total := total + tmp;
      if tmp > 0 {
        buckets := buckets + [(faces[k], tmp)];
      }
      k := k + 1;
      if total == 5 {
        break;
      }
    }
    CountDone(cards, faces, buckets, total, k);
  }

  /** The second loop of `get_combo_type`: the largest non-joker bucket and the joker bucket. */
  method ScanBuckets(buckets: seq<Bucket>) returns (largest: Bucket, joker: (bool, nat, nat))
    requires Proper(buckets)
    ensures largest == LargestOf(buckets) && joker == JokerOf(buckets)
  {
    var largestCard, largestSize := Card.Unknown, 0;
    var containsJoker, jokerSize, jokerIndex := false, 0, 0;
    var i := 0;
    while i < |buckets|
      invariant i <= |buckets|
      invariant (largestCard, largestSize) == LargestOf(buckets[..i])
      invariant (containsJoker, jokerSize, jokerIndex) == JokerOf(buckets[..i])
    {
      assert buckets[..i + 1][..i] == buckets[..i];
      var bucket := buckets[i];
      if bucket.0 != J {
        if bucket.1 > largestSize {
          largestSize, largestCard := bucket.1, bucket.0;
        } else if bucket.1 == largestSize {
          if Pos(bucket.0) < Pos(largestCard) {
            largestSize, largestCard := bucket.1, bucket.0;
          }
        }
      } else {
        containsJoker, jokerSize, jokerIndex := true, bucket.1, i;
      }
      i := i + 1;
    }
    assert buckets[..i] == buckets;
    largest, joker := (largestCard, largestSize), (containsJoker, jokerSize, jokerIndex);
  }

  /** The `iter_mut` loop, adding the jokers to the bucket of the largest face. */
  method AddJokers(buckets0: seq<Bucket>, card: Card, jokers: nat) returns (buckets: seq<Bucket>)
    ensures buckets == AddTo(buckets0, card, jokers)
  {
    buckets := buckets0;
    var m := 0;
    while m < |buckets|
      invariant m <= |buckets| == |buckets0|
      invariant forall q :: 0 <= q < |buckets| ==> buckets[q] == (if q < m then AddTo(buckets0, card, jokers)[q] else buckets0[q])
    {
      if buckets[m].0 == card {
        buckets := buckets[m := (buckets[m].0, buckets[m].1 + jokers)];
      }
      m := m + 1;
    }
  }

  /** The final `match card_buckets.len()`, with its search for a bucket of three. */
  method Classify(buckets: seq<Bucket>) returns (r: Result<ComboType, Error>)
    ensures r == ByBucketCount(buckets)
  {
    if |buckets| == 5 {
      r := Ok(HighCard);
    } else if |buckets| == 4 {
      r := Ok(OnePair);
    } else if |buckets| == 3 {
      var q := 0;
      while q < |buckets|
        invariant q <= |buckets|
        invariant forall p :: 0 <= p < q ==> buckets[p].1 != 3
      {
        if buckets[q].1 == 3 {
          return Ok(ThreeOfAKind);
        }
        q := q + 1;
      }
      r := Ok(TwoPair);
    } else if |buckets| == 2 {
      if buckets[0].1 == 4 || buckets[0].1 == 1 {
        r := Ok(FourOfAKind);
      } else if buckets[0].1 == 3 || buckets[0].1 == 2 {
        r := Ok(FullHouse);
      } else {
        r := Err(Undefined);
      }
    } else if |buckets| == 1 {
      r := Ok(FiveOfAKind);
    } else {
      r := Err(Undefined);
    }
  }

  /** `get_combo_type`: with a joker bucket, it is removed and its count joins the largest bucket. */
  method GetComboType(cards: Cards) returns (r: Result<ComboType, Error>)
    ensures r == ComboOf(cards)
  {
    FacesListed();
    var buckets := CountBuckets(cards, Faces);
    var largest, joker := ScanBuckets(buckets);
    if joker.0 {
      buckets := buckets[..joker.2] + buckets[joker.2 + 1..];
      if largest.0 != Card.Unknown {
        buckets := AddJokers(buckets, largest.0, joker.1);
      } else {
        return Ok(FiveOfAKind);
      }
    }
    r := Classify(buckets);
  }

  // Hands

  datatype Hand = Hand(cards: Cards, bid: nat, rank: nat, comboType: ComboType)

  /** `set_combo_type`: the type of `get_combo_type`, or Unknown kept when it fails. */
  function TypeOrUnknown(r: Result<ComboType, Error>): ComboType {
    if r.Ok? then r.value else UnknownType
  }

  /** `Hand::new`: rank 0 and the type `set_combo_type` finds. */
  method NewHand(cards: Cards, bid: nat) returns (h: Hand)
    ensures h == Hand(cards, bid, 0, TypeOrUnknown(ComboOf(cards)))
  {
    h := Hand(cards, bid, 0, UnknownType);
    var t := GetComboType(cards);
    if t.Ok? {
      h := h.(comboType := t.value);
    }
  }

  function HandOf(cards: Cards, bid: nat): Hand {
    Hand(cards, bid, 0, TypeOrUnknown(ComboOf(cards)))
  }

  /** A hand of known cards gets the type of the joker rule. */
  lemma HandFollowsRule(cards: Cards, bid: nat)
    requires Unknown !in cards
    ensures HandOf(cards, bid).comboType == JokerType(cards) && HandOf(cards, bid).rank == 0
  {
    ComboFollowsRule(cards);
  }

  // Comparison

  datatype Ordering = Less | Equal | Greater

  /** The first difference from index k on is a smaller, hence stronger, card of x. */
  function StrongerFrom(x: Cards, y: Cards, k: nat): bool
    requires k <= 5
    decreases 5 - k
  {
    if k == 5 then false
    else if Pos(x[k]) < Pos(y[k]) then true
    else if Pos(x[k]) > Pos(y[k]) then false
    else StrongerFrom(x, y, k + 1)
  }

  /** a beats b: a stronger type, or the same type and a stronger card at the first difference. */
  predicate Stronger(a: Hand, b: Hand) {
    ComboPos(a.comboType) < ComboPos(b.comboType) ||
    (a.comboType == b.comboType && StrongerFrom(a.cards, b.cards, 0))
  }

  lemma PosInjective(c: Card, d: Card)
    ensures Pos(c) == Pos(d) <==> c == d
  {
  }

  lemma ComboPosInjective(s: ComboType, t: ComboType)
    ensures ComboPos(s) == ComboPos(t) <==> s == t
  {
  }

  /** The cards from index k on are either equal or one side is stronger, never both. */
  lemma {:induction false} StrongerFromTotal(x: Cards, y: Cards, k: nat)
    requires k <= 5
    ensures x[k..] == y[k..] <==> !StrongerFrom(x, y, k) && !StrongerFrom(y, x, k)
    ensures !(StrongerFrom(x, y, k) && StrongerFrom(y, x, k))
    decreases 5 - k
  {
    if k < 5 {
      PosInjective(x[k], y[k]);
      StrongerFromTotal(x, y, k + 1);
      assert x[k..] == [x[k]] + x[k + 1..] && y[k..] == [y[k]] + y[k + 1..];
    }
  }

  lemma {:induction false} StrongerFromTransitive(x: Cards, y: Cards, z: Cards, k: nat)
    requires k <= 5 && StrongerFrom(x, y, k) && StrongerFrom(y, z, k)
    ensures StrongerFrom(x, z, k)
    decreases 5 - k
  {
    if Pos(x[k]) == Pos(y[k]) && Pos(y[k]) == Pos(z[k]) {
      StrongerFromTransitive(x, y, z, k + 1);
    }
  }

  /** Of two hands, exactly one is stronger, unless they share type and cards. */
  lemma StrongerTotal(a: Hand, b: Hand)
    ensures !(Stronger(a, b) && Stronger(b, a))
    ensures !Stronger(a, b) && !Stronger(b, a) <==> a.comboType == b.comboType && a.cards == b.cards
  {
    ComboPosInjective(a.comboType, b.comboType);
    StrongerFromTotal(a.cards, b.cards, 0);
  }

  lemma StrongerTransitive(a: Hand, b: Hand, c: Hand)
    requires Stronger(a, b) && Stronger(b, c)
    ensures Stronger(a, c)
  {
    ComboPosInjective(a.comboType, b.comboType);
    ComboPosInjective(b.comboType, c.comboType);
    if a.comboType == b.comboType == c.comboType {
      StrongerFromTransitive(a.cards, b.cards, c.cards, 0);
    }
  }

  /** J is the weakest face: a J loses to every other known face in the same place. */
  lemma JokerWeakest(c: Card)
    requires c != Unknown && c != J
    ensures Pos(c) < Pos(J)
  {
  }

  /**
   * `partial_cmp`: Greater when this hand is the stronger, Less when the
   * other one is, and None when their types and cards are all equal.
   */
  method PartialCmp(a: Hand, b: Hand) returns (r: Option<Ordering>)
    ensures r == Some(Greater) <==> Stronger(a, b)
    ensures r == Some(Less) <==> Stronger(b, a)
    ensures r == None <==> a.comboType == b.comboType && a.cards == b.cards
    ensures r != Some(Equal)
  {
    StrongerTotal(a, b);
    if ComboPos(a.comboType) < ComboPos(b.comboType) {
      return Some(Greater);
    } else if ComboPos(a.comboType) > ComboPos(b.comboType) {
      return Some(Less);
    }
    ComboPosInjective(a.comboType, b.comboType);
    var k := 0;
    while k < 5
      invariant k <= 5
      invariant a.cards[..k] == b.cards[..k]
      invariant StrongerFrom(a.cards, b.cards, 0) == StrongerFrom(a.cards, b.cards, k)
      invariant StrongerFrom(b.cards, a.cards, 0) == StrongerFrom(b.cards, a.cards, k)
    {
      if Pos(a.cards[k]) < Pos(b.cards[k]) {
        return Some(Greater);
      } else if Pos(a.cards[k]) > Pos(b.cards[k]) {
        return Some(Less);
      }
      PosInjective(a.cards[k], b.cards[k]);
      assert a.cards[..k + 1] == a.cards[..k] + [a.cards[k]];
      assert b.cards[..k + 1] == b.cards[..k] + [b.cards[k]];
      k := k + 1;
    }
    assert a.cards == a.cards[..5] && b.cards == b.cards[..5];
    r := None;
  }

  /** `cmp`: the order of `partial_cmp`, with Greater for hands it finds equal. */
  method Cmp(a: Hand, b: Hand) returns (r: Ordering)
    ensures r == (if Stronger(b, a) then Less else Greater)
  {
    var p := PartialCmp(a, b);
    match p
    case Some(o) => r := o;
    case None => r := Greater;
  }

  // Sorting and ranking

  /** Weakest first: no hand is stronger than a later one. */
  predicate Ascending(s: seq<Hand>) {
    forall i, j :: 0 <= i < j < |s| ==> !Stronger(s[i], s[j])
  }

  /** h placed before the first hand stronger than it. */
  function Insert(h: Hand, s: seq<Hand>): (r: seq<Hand>)
    ensures multiset(r) == multiset(s) + multiset{h} && |r| == |s| + 1
  {
    if s == [] then [h]
    else if Stronger(s[0], h) then [h] + s
    else
      assert s == [s[0]] + s[1..];
      [s[0]] + Insert(h, s[1..])
  }

  /** h goes in front of ascending hands whose first is stronger than it. */
  lemma InsertFront(h: Hand, s: seq<Hand>)
    requires Ascending(s) && s != [] && Stronger(s[0], h)
    ensures Ascending([h] + s)
  {
    var r := [h] + s;
    forall j | 0 <= j < |s| ensures !Stronger(h, s[j]) {
      if Stronger(h, s[j]) {
        StrongerTransitive(s[0], h, s[j]);
        StrongerTotal(s[0], s[j]);
      }
    }
    forall i, j | 0 <= i < j < |r| ensures !Stronger(r[i], r[j]) {
      assert r[j] == s[j - 1];
      if i > 0 {
        assert r[i] == s[i - 1];
      }
    }
  }

  /** A hand no stronger than any of an ascending list, nor than h, can head its insertion. */
  lemma InsertBehind(x: Hand, h: Hand, s: seq<Hand>)
    requires Ascending(s) && Ascending(Insert(h, s)) && !Stronger(x, h)
    requires forall j :: 0 <= j < |s| ==> !Stronger(x, s[j])
    ensures Ascending([x] + Insert(h, s))
  {
    var tail := Insert(h, s);
    forall y | y in tail ensures !Stronger(x, y) {
      assert y in multiset(tail);
      if y != h {
        assert y in multiset(s);
        var q :| 0 <= q < |s| && s[q] == y;
      }
    }
    var r := [x] + tail;
    forall i, j | 0 <= i < j < |r| ensures !Stronger(r[i], r[j]) {
      assert r[j] == tail[j - 1];
      if i > 0 {
        assert r[i] == tail[i - 1];
      }
    }
  }

  lemma {:induction false} InsertAscending(h: Hand, s: seq<Hand>)
    requires Ascending(s)
    ensures Ascending(Insert(h, s))
  {
    if s != [] {
      if Stronger(s[0], h) {
        InsertFront(h, s);
      } else {
        InsertAscending(h, s[1..]);
        assert forall j :: 0 <= j < |s[1..]| ==> s[1..][j] == s[j + 1];
        InsertBehind(s[0], h, s[1..]);
      }
    }
  }

  /** The sorted hands: an insertion sort, stable like `slice::sort`. */
  function SortHands(s: seq<Hand>): (r: seq<Hand>)
    ensures multiset(r) == multiset(s) && |r| == |s|
  {
    if s == [] then []
    else
      assert s == s[..|s| - 1] + [s[|s| - 1]];
      Insert(s[|s| - 1], SortHands(s[..|s| - 1]))
  }

  lemma {:induction false} SortAscending(s: seq<Hand>)
    ensures Ascending(SortHands(s))
  {
    if s != [] {
      SortAscending(s[..|s| - 1]);
      InsertAscending(s[|s| - 1], SortHands(s[..|s| - 1]));
    }
  }

  /** Each hand given its place in the order, counting from 1. */
  function WithRanks(s: seq<Hand>): (r: seq<Hand>)
    ensures |r| == |s|
  {
    seq(|s|, i requires 0 <= i < |s| => s[i].(rank := i + 1))
  }

  /** After `process_hands_rank` the ranks are 1 to n, each used once. */
  lemma RanksDistinct(s: seq<Hand>)
    ensures var r := WithRanks(s);
      (forall i :: 0 <= i < |r| ==> 1 <= r[i].rank <= |r|) &&
      (forall i, j :: 0 <= i < |r| && 0 <= j < |r| && i != j ==> r[i].rank != r[j].rank)
  {
  }

  /** Ranking ascending hands gives a stronger hand the higher rank. */
  lemma StrongerRankedHigher(s: seq<Hand>)
    requires Ascending(s)
    ensures var r := WithRanks(s);
      forall i, j :: 0 <= i < |r| && 0 <= j < |r| && Stronger(r[i], r[j]) ==> r[i].rank > r[j].rank
  {
    var r := WithRanks(s);
    forall i, j | 0 <= i < |r| && 0 <= j < |r| && Stronger(r[i], r[j]) ensures r[i].rank > r[j].rank {
      assert r[i].comboType == s[i].comboType && r[i].cards == s[i].cards;
      assert r[j].comboType == s[j].comboType && r[j].cards == s[j].cards;
      StrongerTotal(s[i], s[i]);
    }
  }

  /** After `process_hands_rank` a stronger hand always holds the higher rank. */
  lemma RanksFollowStrength(s: seq<Hand>)
    ensures var r := WithRanks(SortHands(s));
      forall i, j :: 0 <= i < |r| && 0 <= j < |r| && Stronger(r[i], r[j]) ==> r[i].rank > r[j].rank
  {
    SortAscending(s);
    StrongerRankedHigher(SortHands(s));
  }

  /** `process_hands_rank`: the hands sorted in place, then each given its rank. */
  method ProcessHandsRank(hands: array<Hand>)
    modifies hands
    ensures hands[..] == WithRanks(SortHands(old(hands[..])))
  {
    var sorted := SortHands(hands[..]);
    forall k | 0 <= k < hands.Length {
      hands[k] := sorted[k];
    }
    var rankIndex := 0;
    while rankIndex < hands.Length
      invariant rankIndex <= hands.Length == |sorted|
      invariant forall k :: 0 <= k < hands.Length ==> hands[k] == (if k < rankIndex then sorted[k].(rank := k + 1) else sorted[k])
    {
      hands[rankIndex] := hands[rankIndex].(rank := rankIndex + 1);
      rankIndex := rankIndex + 1;
    }
    var ranked := WithRanks(sorted);
    assert forall k :: 0 <= k < |ranked| ==> ranked[k] == sorted[k].(rank := k + 1);
    assert hands[..] == ranked;
  }

  /** The sum of bid times rank over the hands. */
  function Winnings(hands: seq<Hand>): nat {
    if hands == [] then 0 else Winnings(hands[..|hands| - 1]) + hands[|hands| - 1].bid * hands[|hands| - 1].rank
  }

  /** The winnings of ranked hands: each bid counted once for its own place and once for every weaker hand. */
  lemma {:induction false} WinningsOfRanks(s: seq<Hand>)
    ensures Winnings(WithRanks(s)) == RankedSum(s)
  {
    if s != [] {
      var front, w := s[..|s| - 1], WithRanks(s);
      var last := w[|s| - 1];
      assert w[..|s| - 1] == WithRanks(front);
      assert last.rank == |s| && last.bid == s[|s| - 1].bid;
      assert Winnings(w) == Winnings(WithRanks(front)) + last.bid * last.rank;
      WinningsOfRanks(front);
      BidsUpTo(s);
    }
  }

  /** The sum over every place k of the bids from place k on. */
  function RankedSum(s: seq<Hand>): nat
    decreases |s|
  {
    if s == [] then 0 else Bids(s) + RankedSum(s[1..])
  }

  function Bids(s: seq<Hand>): nat {
    if s == [] then 0 else s[0].bid + Bids(s[1..])
  }

  lemma {:induction false} BidsLast(s: seq<Hand>)
    requires s != []
    ensures Bids(s) == Bids(s[..|s| - 1]) + s[|s| - 1].bid
  {
    if |s| > 1 {
      assert s[1..][..|s[1..]| - 1] == s[..|s| - 1][1..];
      BidsLast(s[1..]);
    }
  }

  lemma {:induction false} BidsUpTo(s: seq<Hand>)
    requires s != []
    ensures RankedSum(s) == RankedSum(s[..|s| - 1]) + |s| * s[|s| - 1].bid
  {
    BidsLast(s);
    if |s| > 1 {
      assert s[1..][..|s[1..]| - 1] == s[..|s| - 1][1..];
      BidsUpTo(s[1..]);
    }
  }

  /** The loop of `main` adding up bid times rank. */
  method TotalWinnings(hands: seq<Hand>) returns (result: nat)
    ensures result == Winnings(hands)
  {
    result := 0;
    var i := 0;
    while i < |hands|
      invariant i <= |hands| && result == Winnings(hands[..i])
    {
      assert hands[..i + 1][..i] == hands[..i];
      result := result + hands[i].bid * hands[i].rank;
      i := i + 1;
    }
    assert hands[..i] == hands;
  }

  // Reading the hands

  const NoCards: Cards := [Unknown, Unknown, Unknown, Unknown, Unknown]

  /** The characters of a cards token from index k on written over the array, or the error that stops it. */
  function FillFrom(token: string, k: nat, cards: Cards): Result<Cards, Error>
    requires k <= |token|
    decreases |token| - k
  {
    if k == |token| then Ok(cards)
    else
      match GetCardFromChar(token[k])
      case Err(e) => Err(e)
      case Ok(c) => if k >= 5 then Err(TooManyCards) else FillFrom(token, k + 1, cards[k := c])
  }

  /**
   * A cards token is read when it has at most five characters, all of them
   * cards; the cards it names replace the first ones, the rest are kept.
   * A sixth valid character is the out-of-bounds write, an invalid one
   * before it the error of `get_card_from_char`.
   */
  lemma {:induction false} FillSpec(token: string, k: nat, cards: Cards)
    requires k <= |token| && k <= 5
    ensures var r := FillFrom(token, k, cards);
      (r.Ok? <==> |token| <= 5 && forall i :: k <= i < |token| ==> IsCardChar(token[i])) &&
      (r.Ok? ==> forall i :: 0 <= i < 5 ==> r.value[i] == if k <= i < |token| then GetCardFromChar(token[i]).value else cards[i]) &&
      (r == Err(TooManyCards) ==> |token| > 5 && forall i :: k <= i <= 5 ==> IsCardChar(token[i])) &&
      (r.Err? && r != Err(TooManyCards) ==> exists i :: k <= i < |token| && i <= 5 && r == Err(NoCard(token[i])))
    decreases |token| - k
  {
    if k < |token| && IsCardChar(token[k]) && k < 5 {
      FillSpec(token, k + 1, cards[k := GetCardFromChar(token[k]).value]);
    }
  }

  /** The cards and the bid a hand is built from. */
  type Raw = (Cards, nat)

  /**
   * One token of a line: a cards token fills the cards, a bid token adds
   * the cards and its bid for a new hand.
   */
  function TokenStep(token: string, isCards: bool, cards: Cards): Result<(Cards, seq<Raw>), Error> {
    if isCards then
      match FillFrom(token, 0, cards)
      case Err(e) => Err(e)
      case Ok(c) => Ok((c, []))
    else
      match ParseUnsigned(token, UsizeMax)
      case None => Err(BadBid(token))
      case Some(bid) => Ok((cards, [(cards, bid)]))
  }

  /** One line's tokens from t on, even ones cards and odd ones bids. */
  function TokensFrom(tokens: seq<string>, t: nat, cards: Cards, raw: seq<Raw>): Result<seq<Raw>, Error>
    requires t <= |tokens|
    decreases |tokens| - t
  {
    if t == |tokens| then Ok(raw)
    else
      match TokenStep(tokens[t], t % 2 == 0, cards)
      case Err(e) => Err(e)
      case Ok(next) => TokensFrom(tokens, t + 1, next.0, raw + next.1)
  }

  /** TokensFrom keeps what was already read in front and adds one entry per bid token. */
  lemma {:induction false} TokensLength(tokens: seq<string>, t: nat, cards: Cards, raw: seq<Raw>)
    requires t <= |tokens| && t % 2 == 0
    ensures var r := TokensFrom(tokens, t, cards, raw);
      r.Ok? ==> |r.value| == |raw| + (|tokens| - t) / 2 && r.value[..|raw|] == raw
    decreases |tokens| - t
  {
    if t + 1 < |tokens| {
      var f := FillFrom(tokens[t], 0, cards);
      if f.Ok? {
        var b := ParseUnsigned(tokens[t + 1], UsizeMax);
        if b.Some? {
          var raw' := raw + [(f.value, b.value)];
          assert raw + [] == raw;
          assert TokensFrom(tokens, t, cards, raw) == TokensFrom(tokens, t + 1, f.value, raw);
          assert TokensFrom(tokens, t + 1, f.value, raw) == TokensFrom(tokens, t + 2, f.value, raw');
          TokensLength(tokens, t + 2, f.value, raw');
          var r := TokensFrom(tokens, t + 2, f.value, raw');
          if r.Ok? {
            assert r.value[..|raw|] == r.value[..|raw'|][..|raw|];
          }
        }
      }
    }
  }

  /** The entries, in order, carry the bids of the tokens at t + 1, t + 3, ...: one per pair of tokens. */
  predicate BidsFrom(tokens: seq<string>, t: nat, entries: seq<Raw>)
    decreases |entries|
  {
    entries == [] ||
    (t + 1 < |tokens| && ParseUnsigned(tokens[t + 1], UsizeMax) == Some(entries[0].1) && BidsFrom(tokens, t + 2, entries[1..]))
  }

  /** The entries a line adds come from its bid tokens, the n-th from the token at index 2n + 1. */
  lemma {:induction false} TokensSpec(tokens: seq<string>, t: nat, cards: Cards, raw: seq<Raw>)
    requires t <= |tokens| && t % 2 == 0
    ensures var r := TokensFrom(tokens, t, cards, raw);
      r.Ok? ==> |raw| <= |r.value| && BidsFrom(tokens, t, r.value[|raw|..])
    decreases |tokens| - t
  {
    TokensLength(tokens, t, cards, raw);
    var r := TokensFrom(tokens, t, cards, raw);
    if t + 1 < |tokens| {
      var f := FillFrom(tokens[t], 0, cards);
      if f.Ok? {
        var b := ParseUnsigned(tokens[t + 1], UsizeMax);
        if b.Some? {
          var raw' := raw + [(f.value, b.value)];
          assert raw + [] == raw;
          assert TokensFrom(tokens, t, cards, raw) == TokensFrom(tokens, t + 1, f.value, raw);
          assert TokensFrom(tokens, t + 1, f.value, raw) == TokensFrom(tokens, t + 2, f.value, raw');
          TokensSpec(tokens, t + 2, f.value, raw');
          TokensLength(tokens, t + 2, f.value, raw');
          if r.Ok? {
            var tail := r.value[|raw|..];
            assert tail[0] == r.value[..|raw'|][|raw|] == (f.value, b.value);
            assert tail[1..] == r.value[|raw'|..];
          }
        }
      }
    } else if r.Ok? {
      assert r.value[|raw|..] == [];
    }
  }

  /** The lines of the file from l on, each trimmed and split into its tokens. */
  function LinesFrom(lines: seq<string>, l: nat, raw: seq<Raw>): Result<seq<Raw>, Error>
    requires l <= |lines|
    decreases |lines| - l
  {
    if l == |lines| then Ok(raw)
    else
      match TokensFrom(SplitWhitespace(Trim(lines[l])), 0, NoCards, raw)
      case Err(e) => Err(e)
      case Ok(r) => LinesFrom(lines, l + 1, r)
  }

  /** The hands `Hand::new` builds from the entries, in order. */
  function Built(raw: seq<Raw>): (hs: seq<Hand>)
    ensures |hs| == |raw|
  {
    seq(|raw|, m requires 0 <= m < |raw| => HandOf(raw[m].0, raw[m].1))
  }

  lemma BuiltAppend(a: seq<Raw>, b: seq<Raw>)
    ensures Built(a + b) == Built(a) + Built(b)
  {
    assert forall m :: 0 <= m < |a| ==> (a + b)[m] == a[m];
    assert forall m :: |a| <= m < |a + b| ==> (a + b)[m] == b[m - |a|];
  }

  /** `get_input` on the file's content: the hands of every line, or the first error. */
  function Input(content: string): Result<seq<Hand>, Error> {
    BuildAll(LinesFrom(Split(content, '\n'), 0, []))
  }

  /** Each hand `get_input` returns is a `Hand::new` of its cards and bid: rank 0 and the type of its cards. */
  lemma InputHands(content: string)
    ensures var r := Input(content);
      r.Ok? ==> forall m :: 0 <= m < |r.value| ==> r.value[m].rank == 0 && r.value[m].comboType == TypeOrUnknown(ComboOf(r.value[m].cards))
  {
  }

  /** The loop over a cards token's characters. */
  method FillCards(token: string, cards0: Cards) returns (r: Result<Cards, Error>)
    ensures r == FillFrom(token, 0, cards0)
  {
    var cards := cards0;
    var indexCard := 0;
    while indexCard < |token|
      invariant indexCard <= |token| && (indexCard <= 5 || indexCard == |token|)
      invariant FillFrom(token, indexCard, cards) == FillFrom(token, 0, cards0)
    {
      var c := GetCardFromChar(token[indexCard]);
      match c
      case Err(e) => return Err(e);
      case Ok(v) =>
        if indexCard >= 5 {
          return Err(TooManyCards);
        }
        cards := cards[indexCard := v];
      indexCard := indexCard + 1;
    }
    r := Ok(cards);
  }

  /** One token step with its new hands built: the hands of a bid token come from `Hand::new`. */
  function BuildStep(step: Result<(Cards, seq<Raw>), Error>, hands: seq<Hand>): Result<(Cards, seq<Hand>), Error> {
    match step
    case Err(e) => Err(e)
    case Ok(next) => Ok((next.0, hands + Built(next.1)))
  }

  /** The body of the token loop. */
  method ReadToken(token: string, isCards: bool, cards: Cards, hands: seq<Hand>) returns (r: Result<(Cards, seq<Hand>), Error>)
    ensures r == BuildStep(TokenStep(token, isCards, cards), hands)
  {
    if isCards {
      var f := FillCards(token, cards);
      match f
      case Err(e) => return Err(e);
      case Ok(c) =>
        assert hands + Built([]) == hands;
        return Ok((c, hands));
    } else {
      var bid := ParseUnsigned(token, UsizeMax);
      match bid
      case None => return Err(BadBid(token));
      case Some(b) =>
        var h := NewHand(cards, b);
        assert Built([(cards, b)]) == [h];
        return Ok((cards, hands + [h]));
    }
  }

  /** The token loop of one line, with its `u8` counter that wraps from 255 to 0. */
  method ReadLine(tokens: seq<string>, hands0: seq<Hand>, ghost raw0: seq<Raw>) returns (r: Result<seq<Hand>, Error>)
    requires hands0 == Built(raw0)
    ensures BuildAll(TokensFrom(tokens, 0, NoCards, raw0)) == r
  {
    var hands := hands0;
    ghost var raw := raw0;
    var i: nat := 0;
    var cards := NoCards;
    var t := 0;
    while t < |tokens|
      invariant t <= |tokens| && i < 256
      invariant i % 2 == t % 2  // 255 is odd, so the wrap to 0 keeps the parity
      invariant hands == Built(raw)
      invariant TokensFrom(tokens, t, cards, raw) == TokensFrom(tokens, 0, NoCards, raw0)
    {
      ghost var step := TokenStep(tokens[t], t % 2 == 0, cards);
      assert (i % 2 == 0) == (t % 2 == 0);
      var next := ReadToken(tokens[t], i % 2 == 0, cards, hands);
      assert next == BuildStep(step, hands);
      match next
      case Err(e) => return Err(e);
      case Ok(v) =>
        BuiltAppend(raw, step.value.1);
        raw := raw + step.value.1;
        cards, hands := v.0, v.1;
      if i == 0xFF {
        assert (t + 1) % 2 == 0;
        i := 0;
      } else {
        i := i + 1;
      }
      t := t + 1;
    }
    r := Ok(hands);
  }

  /** The hands built from the entries read, or the error. */
  function BuildAll(r: Result<seq<Raw>, Error>): Result<seq<Hand>, Error> {
    match r
    case Err(e) => Err(e)
    case Ok(raw) => Ok(Built(raw))
  }

  /** `get_input` once the file is read: the lines, each trimmed and split on whitespace. */
  method GetInput(content: string) returns (r: Result<seq<Hand>, Error>)
    ensures r == Input(content)
  {
    var lines := Split(content, '\n');
    var hands := [];
    ghost var raw := [];
    var l := 0;
    while l < |lines|
      invariant l <= |lines| && hands == Built(raw)
      invariant BuildAll(LinesFrom(lines, l, raw)) == Input(content)
    {
      ghost var next := TokensFrom(SplitWhitespace(Trim(lines[l])), 0, NoCards, raw);
      var h := ReadLine(SplitWhitespace(Trim(lines[l])), hands, raw);
      match h
      case Err(e) => return Err(e);
      case Ok(v) =>
        raw := next.value;
        hands := v;
      l := l + 1;
    }
    assert Built([]) == [];
    r := Ok(hands);
  }
}
