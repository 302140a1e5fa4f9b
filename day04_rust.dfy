/**
 * What rust/d04_1 and rust/d04_2 share: `get_input` once the file is read,
 * `Card::new`, `get_card`, `get_intersection`, `get_amount_matches` and
 * `get_score`.  The content is split on '\n', each line on ':'.  A segment
 * that contains "Card" gives the id (its text without "Card ", trimmed, as a
 * `usize`).  Any other segment is split on '|', and the pieces alternate
 * between winning numbers and card numbers, read with `split_whitespace` as
 * `u8` values.  Every line must then hold exactly ten winning numbers and 25
 * card numbers.  The first failure ends the parse with an `Err`, which main
 * reports before printing its result, still 0.
 */
module Day04Rust {
  import opened Wrappers
  import opened Text
  import opened Scratchcards

  const U8Max: nat := 0xFF
  const SizeWinnings: nat := 10
  const SizeCards: nat := 25

  /** `usize` values are taken modulo this. */
  const UsizeModulus: nat := 0x1_0000_0000_0000_0000

  datatype Error = BadId | BadWinning | BadNumber | WrongWinningCount | WrongNumberCount

  /** A card of `Card::new`, without the `amount` of rust/d04_2. */
  datatype Card = Card(id: nat, winningNbs: seq<nat>, cardNbs: seq<nat>)

  /** What the line loop has read so far: the id and the two vectors. */
  datatype Fields = Fields(id: nat, winning: seq<nat>, card: seq<nat>)

  const NoFields := Fields(0, [], [])

  /**
   * `Card::new` through `get_card`: the winning vector must convert into an
   * array of ten, which is tried first, and the card vector into one of 25.
   */
  function NewCard(f: Fields): (r: Result<Card, Error>)
    ensures r.Ok? <==> |f.winning| == SizeWinnings && |f.card| == SizeCards
    ensures r.Ok? ==> r.value == Card(f.id, f.winning, f.card)
    ensures |f.winning| != SizeWinnings ==> r == Err(WrongWinningCount)
    ensures |f.winning| == SizeWinnings && |f.card| != SizeCards ==> r == Err(WrongNumberCount)
  {
    if |f.winning| != SizeWinnings then Err(WrongWinningCount)
    else if |f.card| != SizeCards then Err(WrongNumberCount)
    else Ok(Card(f.id, f.winning, f.card))
  }

  /** Each token trimmed and read as a `u8`, or None where that fails. */
  function Values(tokens: seq<string>): (r: seq<Option<nat>>)
    ensures |r| == |tokens| && forall k :: 0 <= k < |tokens| ==> r[k] == ParseUnsigned(Trim(tokens[k]), U8Max)
  {
    seq(|tokens|, k requires 0 <= k < |tokens| => ParseUnsigned(Trim(tokens[k]), U8Max))
  }

  /** The values pushed onto acc in order, or e at the first token that is not one. */
  function PushAll(acc: seq<nat>, values: seq<Option<nat>>, e: Error): Result<seq<nat>, Error>
    decreases |values|
  {
    if values == [] then Ok(acc)
    else
      match values[0]
      case None => Err(e)
      case Some(v) => PushAll(acc + [v], values[1..], e)
  }

  /** One piece between '|': winning numbers at an even position, card numbers at an odd one. */
  function PieceStep(f: Fields, piece: string, even: bool): Result<Fields, Error> {
    if even then
      match PushAll(f.winning, Values(SplitWhitespace(piece)), BadWinning)
      case Err(e) => Err(e)
      case Ok(w) => Ok(f.(winning := w))
    else
      match PushAll(f.card, Values(SplitWhitespace(piece)), BadNumber)
      case Err(e) => Err(e)
      case Ok(c) => Ok(f.(card := c))
  }

  /** The pieces from p on, the first of them winning numbers when even holds, and so alternating. */
  function PiecesFrom(f: Fields, pieces: seq<string>, p: nat, even: bool): Result<Fields, Error>
    requires p <= |pieces|
    decreases |pieces| - p
  {
    if p == |pieces| then Ok(f)
    else
      match PieceStep(f, pieces[p], even)
      case Err(e) => Err(e)
      case Ok(g) => PiecesFrom(g, pieces, p + 1, !even)
  }

  /** One segment between ':'. */
  function SegmentStep(f: Fields, segment: string): Result<Fields, Error> {
    if Contains(segment, "Card") then
      match ParseUnsigned(Trim(Replace(segment, "Card ", "")), UsizeMax)
      case None => Err(BadId)
      case Some(v) => Ok(f.(id := v))
    else PiecesFrom(f, Split(segment, '|'), 0, true)
  }

  /** The segments from s on. */
  function SegmentsFrom(f: Fields, segments: seq<string>, s: nat): Result<Fields, Error>
    requires s <= |segments|
    decreases |segments| - s
  {
    if s == |segments| then Ok(f)
    else
      match SegmentStep(f, segments[s])
      case Err(e) => Err(e)
      case Ok(g) => SegmentsFrom(g, segments, s + 1)
  }

  /** The card of one line. */
  function LineData(line: string): Result<Card, Error> {
    match SegmentsFrom(NoFields, Split(line, ':'), 0)
    case Err(e) => Err(e)
    case Ok(f) => NewCard(f)
  }

  /** The card, or the failure, of each line. */
  function Reads(lines: seq<string>): (r: seq<Result<Card, Error>>)
    ensures |r| == |lines| && forall k :: 0 <= k < |lines| ==> r[k] == LineData(lines[k])
  {
    seq(|lines|, k requires 0 <= k < |lines| => LineData(lines[k]))
  }

  /** The cards read in order after those in acc, stopping at the first failure. */
  function Collect(acc: seq<Card>, results: seq<Result<Card, Error>>): Result<seq<Card>, Error>
    decreases |results|
  {
    if results == [] then Ok(acc)
    else match results[0]
      case Err(e) => Err(e)
      case Ok(c) => Collect(acc + [c], results[1..])
  }

  /** `get_input` on the file's content. */
  function Input(content: string): Result<seq<Card>, Error> {
    Collect([], Reads(Split(content, '\n')))
  }

  /** The loop over the whitespace-separated tokens of one piece. */
  method ReadTokens(acc0: seq<nat>, tokens: seq<string>, e: Error) returns (r: Result<seq<nat>, Error>)
    ensures r == PushAll(acc0, Values(tokens), e)
  {
    ghost var values := Values(tokens);
    var acc := acc0;
    for t := 0 to |tokens|
      invariant PushAll(acc, values[t..], e) == PushAll(acc0, values, e)
    {
      assert values[t..][0] == ParseUnsigned(Trim(tokens[t]), U8Max) && values[t..][1..] == values[t + 1..];
      var v := ParseUnsigned(Trim(tokens[t]), U8Max);
      if v.None? {
        return Err(e);
      }
      acc := acc + [v.value];
    }
    return Ok(acc);
  }

  /** One segment: the id, or, without "Card" in it, its pieces between '|'. */
  method ReadSegment(f0: Fields, segment: string) returns (r: Result<Fields, Error>)
    ensures r == SegmentStep(f0, segment)
  {
    if Contains(segment, "Card") {
      var v := ParseUnsigned(Trim(Replace(segment, "Card ", "")), UsizeMax);
      if v.None? {
        return Err(BadId);
      }
      return Ok(f0.(id := v.value));
    }
    r := ReadPieces(f0, Split(segment, '|'));
  }

  /**
   * The loop over the pieces between '|' with its `u8` counter, which goes
   * from 254 to 255 and is then set back to 1.
   */
  method ReadPieces(f0: Fields, pieces: seq<string>) returns (r: Result<Fields, Error>)
    ensures r == PiecesFrom(f0, pieces, 0, true)
  {
    var f := f0;
    var i: nat := 0;
    for p := 0 to |pieces|
      invariant i < 0xFF
      invariant PiecesFrom(f, pieces, p, Even(i)) == PiecesFrom(f0, pieces, 0, true)
    {
      var g := ReadPiece(f, pieces[p], Even(i));
      PiecesStep(f, pieces, p, Even(i), g);
      if g.Err? {
        return Err(g.error);
      }
      f := g.value;
      i := NextCounter(i);
    }
    return Ok(f);
  }

  /** The test `i % 2 == 0` of the piece loop. */
  predicate Even(i: nat) {
    i % 2 == 0
  }

  lemma PiecesStep(f: Fields, pieces: seq<string>, p: nat, even: bool, g: Result<Fields, Error>)
    requires p < |pieces| && g == PieceStep(f, pieces[p], even)
    ensures PiecesFrom(f, pieces, p, even) == if g.Err? then Err(g.error) else PiecesFrom(g.value, pieces, p + 1, !even)
  {
  }

  /** `i += 1`, then 0xFF set back to 1: the other parity, since 0xFF and 1 are both odd. */
  method NextCounter(i: nat) returns (j: nat)
    requires i < 0xFF
    ensures j < 0xFF && Even(j) == !Even(i)
    ensures 1 <= j && (i < 0xFE ==> j == i + 1)
  {
    j := i + 1;
    if j == 0xFF {
      j := 1;
    }
  }

  /** The body of the piece loop. */
  method ReadPiece(f: Fields, piece: string, even: bool) returns (r: Result<Fields, Error>)
    ensures r == PieceStep(f, piece, even)
  {
    var tokens := SplitWhitespace(piece);
    if even {
      var w := ReadTokens(f.winning, tokens, BadWinning);
      if w.Err? {
        return Err(w.error);
      }
      return Ok(f.(winning := w.value));
    } else {
      var c := ReadTokens(f.card, tokens, BadNumber);
      if c.Err? {
        return Err(c.error);
      }
      return Ok(f.(card := c.value));
    }
  }

  /** The body of the line loop: the segments, then `get_card`. */
  method GetLine(line: string) returns (r: Result<Card, Error>)
    ensures r == LineData(line)
  {
    var segments := Split(line, ':');
    var f := NoFields;
    for s := 0 to |segments|
      invariant SegmentsFrom(f, segments, s) == SegmentsFrom(NoFields, segments, 0)
    {
      var g := ReadSegment(f, segments[s]);
      if g.Err? {
        return Err(g.error);
      }
      f := g.value;
    }
    r := NewCard(f);
  }

  /** `get_input` once the file is read: the cards of the lines, in order. */
  method GetInput(content: string) returns (r: Result<seq<Card>, Error>)
    ensures r == Input(content)
  {
    var lines := Split(content, '\n');
    ghost var results := Reads(lines);
    var cards: seq<Card> := [];
    for l := 0 to |lines|
      invariant Input(content) == Collect(cards, results[l..])
    {
      assert results[l..][0] == LineData(lines[l]) && results[l..][1..] == results[l + 1..];
      var c := GetLine(lines[l]);
      if c.Err? {
        return Err(c.error);
      }
      cards := cards + [c.value];
    }
    return Ok(cards);
  }

  /**
   * `get_intersection([a, b])`: the values of a that are in b, each once.
   * The Rust collects them from a `HashSet`, whose order is not modelled:
   * here they come in the order of their first occurrence in a.
   */
  function Intersection(a: seq<nat>, b: seq<nat>): (r: seq<nat>)
    ensures Distinct(r)
    ensures forall x :: x in r <==> x in a && x in b
  {
    if a == [] then []
    else
      var r := Intersection(a[..|a| - 1], b);
      var x := a[|a| - 1];
      assert forall y :: y in a <==> y in a[..|a| - 1] || y == x by {
        assert a == a[..|a| - 1] + [x];
      }
      if x in b && x !in r then r + [x] else r
  }

  /** `get_amount_matches`: the length of the intersection of the card numbers and the winning numbers. */
  function AmountMatches(c: Card): (m: nat)
    ensures m == Matches(c.winningNbs, c.cardNbs)
    ensures m <= |c.winningNbs|
  {
    var r := Intersection(c.cardNbs, c.winningNbs);
    DistinctMatches(r, c.winningNbs, c.cardNbs);
    MatchesBound(c.winningNbs, c.cardNbs);
    |r|
  }

  /** The number of matches of each card, in order. */
  function MatchCounts(cards: seq<Card>): (r: seq<nat>)
    ensures |r| == |cards| && forall k :: 0 <= k < |cards| ==> r[k] == Matches(cards[k].winningNbs, cards[k].cardNbs)
  {
    seq(|cards|, k requires 0 <= k < |cards| => Matches(cards[k].winningNbs, cards[k].cardNbs))
  }

  /** The cards of a table have the table's matches. */
  lemma TableCounts(ts: seq<CardText>)
    ensures MatchCounts(CardsOf(ts)) == TableMatches(ts)
  {
  }

  /** `score << 1` on a `usize`: the bit shifted out is lost. */
  function Shl1(x: nat): nat {
    2 * x % UsizeModulus
  }

  lemma ShlPow(k: nat)
    ensures Shl1(Pow2(k) % UsizeModulus) == Pow2(k + 1) % UsizeModulus
  {
    var a := Pow2(k);
    var q, r := a / UsizeModulus, a % UsizeModulus;
    assert a == q * UsizeModulus + r;
    assert 2 * a == (2 * q) * UsizeModulus + 2 * r;
  }

  /** `get_score`: 1 shifted left `matches - 1` times, or 0 with no match. */
  method GetScore(c: Card) returns (score: nat)
    ensures score == Points(Matches(c.winningNbs, c.cardNbs)) % UsizeModulus
    ensures |c.winningNbs| <= SizeWinnings ==> score == Points(Matches(c.winningNbs, c.cardNbs))
  {
    var m := AmountMatches(c);
    score := 0;
    if m > 0 {
      score := 1;
      for k := 1 to m
        invariant score == Pow2(k - 1) % UsizeModulus
      {
        ShlPow(k - 1);
        score := Shl1(score);
      }
      if m <= SizeWinnings {
        Pow2Small(m - 1);
      }
    }
  }

  /** Up to ten matches score at most 512 points, far below the `usize` range. */
  lemma Pow2Small(n: nat)
    requires n < SizeWinnings
    ensures Pow2(n) <= 512
  {
    Pow2Monotone(n, 9);
    assert Pow2(2) == 4;
    assert Pow2(4) == 16;
    assert Pow2(6) == 64;
    assert Pow2(8) == 256;
  }
  /** Every card read has ten winning numbers and 25 card numbers. */
  predicate Sized(cards: seq<Card>) {
    forall k :: 0 <= k < |cards| ==> |cards[k].winningNbs| == SizeWinnings && |cards[k].cardNbs| == SizeCards
  }

  /** A line's card, when it has one, has the sizes `Card::new` demands. */
  lemma LineSized(line: string)
    requires LineData(line).Ok?
    ensures Sized([LineData(line).value])
  {
  }

  lemma {:induction false} CollectSized(acc: seq<Card>, results: seq<Result<Card, Error>>)
    requires Sized(acc) && Collect(acc, results).Ok?
    requires forall k :: 0 <= k < |results| && results[k].Ok? ==> Sized([results[k].value])
    ensures Sized(Collect(acc, results).value)
    decreases |results|
  {
    if results != [] {
      assert Sized([results[0].value]);
      CollectSized(acc + [results[0].value], results[1..]);
    }
  }

  /** The cards of a successful `get_input` all have the sizes `Card::new` demands. */
  lemma InputCounts(content: string)
    requires Input(content).Ok?
    ensures Sized(Input(content).value)
  {
    var results := Reads(Split(content, '\n'));
    forall k | 0 <= k < |results| && results[k].Ok? ensures Sized([results[k].value]) {
      LineSized(Split(content, '\n')[k]);
    }
    CollectSized([], results);
  }

  lemma InputOf(content: string, lines: seq<string>, results: seq<Result<Card, Error>>)
    requires Split(content, '\n') == lines && Reads(lines) == results
    ensures Input(content) == Collect([], results)
  {
  }

  /** A line with nothing on it has no winning numbers. */
  lemma EmptyLine()
    ensures LineData("") == Err(WrongWinningCount)
  {
    assert !Contains("", "Card");
    assert PieceStep(NoFields, "", true) == Ok(NoFields);
    assert SegmentStep(NoFields, "") == Ok(NoFields);
  }

  lemma {:induction false} CollectLastFails(acc: seq<Card>, results: seq<Result<Card, Error>>)
    requires |results| > 0 && results[|results| - 1].Err?
    ensures Collect(acc, results).Err?
    decreases |results|
  {
    if results[0].Ok? {
      CollectLastFails(acc + [results[0].value], results[1..]);
    }
  }

  /**
   * Content that ends with a newline has an empty last line, which
   * `Card::new` refuses: the whole parse fails, and main prints 0.
   */
  lemma TrailingNewline(content: string)
    ensures Input(content + "\n").Err?
  {
    var lines := Split(content + "\n", '\n');
    SplitTrailing(content, '\n');
    EmptyLine();
    var results := Reads(lines);
    var n := |results| - 1;
    assert n == |lines| - 1 && results[n] == LineData(lines[n]);
    CollectLastFails([], results);
    InputOf(content + "\n", lines, results);
  }

  /** Values that all fit in a `u8`. */
  predicate Bytes(vs: seq<nat>) {
    forall k :: 0 <= k < |vs| ==> vs[k] <= U8Max
  }

  /** The decimal texts of values read back as those values, None past the `u8` range. */
  lemma ValuesDecimals(vs: seq<nat>)
    ensures Values(Decimals(vs)) == Bytewise(vs)
  {
    forall k | 0 <= k < |vs| ensures Values(Decimals(vs))[k] == Bytewise(vs)[k] {
      DecimalTrim(vs[k]);
      if vs[k] <= U8Max {
        ParseDecimal(vs[k], U8Max);
      } else {
        DecimalTooLarge(vs[k], U8Max);
      }
    }
  }

  /** Each value, where it fits in a `u8`. */
  function Bytewise(vs: seq<nat>): (r: seq<Option<nat>>)
    ensures |r| == |vs| && forall k :: 0 <= k < |vs| ==> r[k] == if vs[k] <= U8Max then Some(vs[k]) else None
  {
    seq(|vs|, k requires 0 <= k < |vs| => if vs[k] <= U8Max then Some(vs[k]) else None)
  }

  /** Values that all fit in a `u8` are pushed in order; otherwise the push fails with e. */
  lemma {:induction false} PushBytewise(acc: seq<nat>, vs: seq<nat>, e: Error)
    ensures PushAll(acc, Bytewise(vs), e) == if Bytes(vs) then Ok(acc + vs) else Err(e)
    decreases |vs|
  {
    if vs != [] {
      assert Bytewise(vs)[1..] == Bytewise(vs[1..]);
      BytesFront(vs);
      if vs[0] <= U8Max {
        PushBytewise(acc + [vs[0]], vs[1..], e);
        AppendFront(acc, vs);
      }
    } else {
      assert acc + vs == acc;
    }
  }

  /** The decimal texts of values are pushed in order when they all fit in a `u8`, and fail with e otherwise. */
  lemma PushDecimals(acc: seq<nat>, vs: seq<nat>, e: Error)
    ensures PushAll(acc, Values(Decimals(vs)), e) == if Bytes(vs) then Ok(acc + vs) else Err(e)
  {
    ValuesDecimals(vs);
    PushBytewise(acc, vs, e);
  }

  lemma AppendFront<T>(acc: seq<T>, vs: seq<T>)
    requires vs != []
    ensures acc + [vs[0]] + vs[1..] == acc + vs
  {
  }

  lemma BytesFront(vs: seq<nat>)
    requires vs != []
    ensures Bytes(vs) <==> vs[0] <= U8Max && Bytes(vs[1..])
  {
    assert forall k :: 1 <= k < |vs| ==> vs[k] == vs[1..][k - 1];
  }

  /** The head of a card line gives its id, or `BadId` past the `usize` range. */
  lemma HeadId(f: Fields, t: CardText)
    requires WellLaid(t)
    ensures SegmentStep(f, CardHead(t)) == if t.id <= UsizeMax then Ok(f.(id := t.id)) else Err(BadId)
  {
    var h := CardHead(t);
    HeadText(t);
    var p := ParseUnsigned(Decimal(t.id), UsizeMax);
    if t.id <= UsizeMax {
      ParseDecimal(t.id, UsizeMax);
    } else {
      DecimalTooLarge(t.id, UsizeMax);
    }
    IdSegment(f, h, p);
  }

  /** The head contains "Card", and without "Card " and trimmed it is the id's decimal text. */
  lemma HeadText(t: CardText)
    requires WellLaid(t)
    ensures Contains(CardHead(t), "Card")
    ensures Trim(Replace(CardHead(t), "Card ", "")) == Decimal(t.id)
  {
    var h := CardHead(t);
    assert h[0..4] == "Card";
    ContainsAt(h, "Card", 0);
    HeadReplaced(t);
    HeadTrimmed(t);
  }

  lemma HeadReplaced(t: CardText)
    requires WellLaid(t)
    ensures Replace(CardHead(t), "Card ", "") == t.pad[1..] + Decimal(t.id)
  {
    var rest := t.pad[1..] + Decimal(t.id);
    assert CardHead(t) == "Card " + rest;
    ReplaceFront("Card ", rest, "");
    DecimalLacks(t.id, 'C');
    assert 'C' !in rest;
    CardC();
    LacksChar(rest, "Card ", 'C');
    assert "" + rest == rest;
  }

  lemma CardC()
    ensures 'C' in "Card "
  {
    assert "Card "[0] == 'C';
  }

  lemma HeadTrimmed(t: CardText)
    requires WellLaid(t)
    ensures Trim(t.pad[1..] + Decimal(t.id)) == Decimal(t.id)
  {
    var d := Decimal(t.id);
    DecimalWord(t.id);
    assert forall i :: 0 <= i < |t.pad[1..]| ==> IsWhitespace(t.pad[1..][i]);
    TrimAround(t.pad[1..], d, "");
    assert t.pad[1..] + d + "" == t.pad[1..] + d;
  }

  /** A segment with "Card" in it sets the id, or fails with `BadId`. */
  lemma IdSegment(f: Fields, h: string, p: Option<nat>)
    requires Contains(h, "Card") && ParseUnsigned(Trim(Replace(h, "Card ", "")), UsizeMax) == p
    ensures SegmentStep(f, h) == if p.None? then Err(BadId) else Ok(f.(id := p.value))
  {
  }

  /** The body of a card line pushes both lists, or fails at the first side with a value past a `u8`. */
  lemma BodyFields(f: Fields, t: CardText)
    requires WellLaid(t)
    ensures SegmentStep(f, CardBody(t)) ==
      if !Bytes(t.win) then Err(BadWinning)
      else if !Bytes(t.got) then Err(BadNumber)
      else Ok(f.(winning := f.winning + t.win, card := f.card + t.got))
  {
    var w, g := Numbers(t.win, t.winGaps), Numbers(t.got, t.gotGaps);
    BodyPieces(t);
    BodySegment(f, CardBody(t), w, g);
    NumbersPiece(f, t.win, t.winGaps, true);
    NumbersPiece(f.(winning := f.winning + t.win), t.got, t.gotGaps, false);
  }

  /** A segment without "Card" and with two pieces: winning numbers, then card numbers. */
  lemma BodySegment(f: Fields, b: string, w: string, g: string)
    requires !Contains(b, "Card") && Split(b, '|') == [w, g]
    ensures SegmentStep(f, b) ==
      match PieceStep(f, w, true)
      case Err(e) => Err(e)
      case Ok(h) => PieceStep(h, g, false)
  {
    var pieces := [w, g];
    var first := PieceStep(f, w, true);
    PiecesStep(f, pieces, 0, true, first);
    if first.Ok? {
      var second := PieceStep(first.value, g, false);
      PiecesStep(first.value, pieces, 1, false, second);
    }
  }

  /** A list of numbers as a piece: pushed onto the winning or the card numbers, or the error of its side. */
  lemma NumbersPiece(f: Fields, vs: seq<nat>, gaps: seq<string>, even: bool)
    requires Layout(gaps, |vs|)
    ensures PieceStep(f, Numbers(vs, gaps), even) ==
      if !Bytes(vs) then Err(if even then BadWinning else BadNumber)
      else if even then Ok(f.(winning := f.winning + vs))
      else Ok(f.(card := f.card + vs))
  {
    NumbersWords(vs, gaps);
    PushDecimals(f.winning, vs, BadWinning);
    PushDecimals(f.card, vs, BadNumber);
  }

  /** What `get_card` makes of a card line: the first failure, or `Card::new` on its id and lists. */
  lemma LineRoundTrip(t: CardText)
    requires WellLaid(t)
    ensures LineData(CardLine(t)) ==
      if t.id > UsizeMax then Err(BadId)
      else if !Bytes(t.win) then Err(BadWinning)
      else if !Bytes(t.got) then Err(BadNumber)
      else NewCard(Fields(t.id, t.win, t.got))
  {
    var h, b := CardHead(t), CardBody(t);
    LineSegments(t);
    HeadId(NoFields, t);
    var first := SegmentStep(NoFields, h);
    var r: Result<Fields, Error>;
    if first.Ok? {
      var f := Fields(t.id, [], []);
      assert first == Ok(f);
      BodyFields(f, t);
      r := SegmentStep(f, b);
      TwoSegments(NoFields, h, b, first, r);
      assert [] + t.win == t.win && [] + t.got == t.got;
    } else {
      r := first;
      TwoSegments(NoFields, h, b, first, Err(BadId));
    }
    LineDataOf(CardLine(t), [h, b], r);
  }

  lemma LineDataOf(line: string, segments: seq<string>, r: Result<Fields, Error>)
    requires Split(line, ':') == segments && r == SegmentsFrom(NoFields, segments, 0)
    ensures LineData(line) == match r case Err(e) => Err(e) case Ok(f) => NewCard(f)
  {
  }

  lemma TwoSegments(f: Fields, h: string, b: string, first: Result<Fields, Error>, second: Result<Fields, Error>)
    requires first == SegmentStep(f, h) && (first.Ok? ==> second == SegmentStep(first.value, b))
    ensures SegmentsFrom(f, [h, b], 0) == if first.Err? then first else second
  {
    var segments := [h, b];
    assert segments[0] == h && segments[1] == b;
    if first.Ok? {
      assert SegmentsFrom(first.value, segments, 1) == match second case Err(e) => Err(e) case Ok(g) => SegmentsFrom(g, segments, 2);
    }
  }

  /** A card line `get_card` accepts: an id within `usize`, `u8` numbers, and ten winning and 25 card numbers. */
  predicate Accepted(t: CardText) {
    && t.id <= UsizeMax && Bytes(t.win) && Bytes(t.got)
    && |t.win| == SizeWinnings && |t.got| == SizeCards
  }

  function CardsOf(ts: seq<CardText>): (r: seq<Card>)
    ensures |r| == |ts| && forall k :: 0 <= k < |ts| ==> r[k] == Card(ts[k].id, ts[k].win, ts[k].got)
  {
    seq(|ts|, k requires 0 <= k < |ts| => Card(ts[k].id, ts[k].win, ts[k].got))
  }

  /** The results of readable card lines are their cards. */
  lemma ReadsTable(ts: seq<CardText>)
    requires AllWellLaid(ts) && forall k :: 0 <= k < |ts| ==> Accepted(ts[k])
    ensures Reads(CardLines(ts)) == AllOk(CardsOf(ts))
  {
    forall k | 0 <= k < |ts| ensures LineData(CardLines(ts)[k]) == Ok(CardsOf(ts)[k]) {
      LineRoundTrip(ts[k]);
    }
  }

  function AllOk(cards: seq<Card>): (r: seq<Result<Card, Error>>)
    ensures |r| == |cards| && forall k :: 0 <= k < |cards| ==> r[k] == Ok(cards[k])
  {
    seq(|cards|, k requires 0 <= k < |cards| => Ok(cards[k]))
  }

  lemma {:induction false} CollectAll(acc: seq<Card>, cards: seq<Card>)
    ensures Collect(acc, AllOk(cards)) == Ok(acc + cards)
    decreases |cards|
  {
    if cards != [] {
      assert AllOk(cards)[1..] == AllOk(cards[1..]);
      CollectAll(acc + [cards[0]], cards[1..]);
      assert acc + [cards[0]] + cards[1..] == acc + cards;
    } else {
      assert AllOk(cards) == [] && acc + cards == acc;
    }
  }

  /** A table of readable card lines without a trailing newline is read back card by card. */
  lemma InputRoundTrip(ts: seq<CardText>)
    requires |ts| >= 1 && AllWellLaid(ts) && forall k :: 0 <= k < |ts| ==> Accepted(ts[k])
    ensures Input(TableText(ts)) == Ok(CardsOf(ts))
  {
    TableSplit(ts);
    ReadsTable(ts);
    CollectAll([], CardsOf(ts));
    assert [] + CardsOf(ts) == CardsOf(ts);
    InputOf(TableText(ts), CardLines(ts), AllOk(CardsOf(ts)));
  }

  /** The lines of a table are its card lines. */
  lemma TableSplit(ts: seq<CardText>)
    requires |ts| >= 1 && AllWellLaid(ts)
    ensures Split(TableText(ts), '\n') == CardLines(ts)
  {
    var lines := CardLines(ts);
    forall k | 0 <= k < |lines| ensures '\n' !in lines[k] {
      HeadLacks(ts[k], '\n');
      BodyLacks(ts[k], '\n');
    }
    JoinSplit(lines, '\n');
  }

}
