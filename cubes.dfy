/**
 * Day 2 (cube conundrum): what a game record means.  Each game of the
 * puzzle shows a few draws of red, green and blue cubes taken from a bag;
 * a game is possible with a bag holding enough cubes of every colour for
 * each draw.  The fewest cubes that make a game possible are the largest
 * counts shown per colour, and the game's power is their product.  Also
 * the text of a game record as the puzzle writes it,
 * "Game 7: 3 blue, 4 red; 1 red, 2 green".
 */
module Cubes {
  import opened Text

  datatype Colour = Red | Green | Blue

  /** The colour's name in the record. */
  function Name(c: Colour): string {
    match c
    case Red => "red"
    case Green => "green"
    case Blue => "blue"
  }

  /** One colour of a draw: how many cubes of it were shown. */
  datatype Shown = Shown(count: nat, colour: Colour)

  type Draw = seq<Shown>

  function Max(a: nat, b: nat): nat { if a < b then b else a }

  /** The count shown of colour c in one entry, 0 for another colour. */
  function CountOf(s: Shown, c: Colour): nat {
    if s.colour == c then s.count else 0
  }

  /** The largest count of colour c in a draw, 0 when it shows none. */
  function MostIn(d: Draw, c: Colour): nat {
    if d == [] then 0 else Max(CountOf(d[0], c), MostIn(d[1..], c))
  }

  /** The largest count of colour c over all draws of a game. */
  function Most(draws: seq<Draw>, c: Colour): nat {
    if draws == [] then 0 else Max(MostIn(draws[0], c), Most(draws[1..], c))
  }

  /** Every count of colour c shown in the game is at most Most. */
  lemma {:induction false} MostBound(draws: seq<Draw>, c: Colour, i: nat, j: nat)
    requires i < |draws| && j < |draws[i]| && draws[i][j].colour == c
    ensures draws[i][j].count <= Most(draws, c)
  {
    if i == 0 {
      MostInBound(draws[0], c, j);
    } else {
      MostBound(draws[1..], c, i - 1, j);
    }
  }

  lemma {:induction false} MostInBound(d: Draw, c: Colour, j: nat)
    requires j < |d| && d[j].colour == c
    ensures d[j].count <= MostIn(d, c)
  {
    if j > 0 {
      MostInBound(d[1..], c, j - 1);
    }
  }

  /** A positive Most is a count some draw shows: the index of that draw and entry. */
  lemma {:induction false} MostAttained(draws: seq<Draw>, c: Colour) returns (i: nat, j: nat)
    requires Most(draws, c) > 0
    ensures i < |draws| && j < |draws[i]| && draws[i][j] == Shown(Most(draws, c), c)
  {
    if MostIn(draws[0], c) >= Most(draws[1..], c) {
      i := 0;
      j := MostInAttained(draws[0], c);
    } else {
      var k;
      k, j := MostAttained(draws[1..], c);
      i := k + 1;
    }
  }

  lemma {:induction false} MostInAttained(d: Draw, c: Colour) returns (j: nat)
    requires MostIn(d, c) > 0
    ensures j < |d| && d[j] == Shown(MostIn(d, c), c)
  {
    if CountOf(d[0], c) >= MostIn(d[1..], c) {
      j := 0;
    } else {
      var k := MostInAttained(d[1..], c);
      j := k + 1;
    }
  }

  /** The cubes a bag holds. */
  datatype Bag = Bag(red: nat, green: nat, blue: nat)

  function Holds(bag: Bag, c: Colour): nat {
    match c
    case Red => bag.red
    case Green => bag.green
    case Blue => bag.blue
  }

  /** The bag of the first question: 12 red, 13 green and 14 blue cubes. */
  const Puzzle: Bag := Bag(12, 13, 14)

  /** Every draw of the game could be taken from the bag. */
  predicate Possible(draws: seq<Draw>, bag: Bag) {
    forall i, j :: 0 <= i < |draws| && 0 <= j < |draws[i]| ==> draws[i][j].count <= Holds(bag, draws[i][j].colour)
  }

  /** The fewest cubes of each colour that make the game possible. */
  function Fewest(draws: seq<Draw>): Bag {
    Bag(Most(draws, Red), Most(draws, Green), Most(draws, Blue))
  }

  /** A game is possible with a bag exactly when the bag holds at least the fewest cubes of every colour. */
  lemma PossibleIffFewest(draws: seq<Draw>, bag: Bag)
    ensures Possible(draws, bag) <==> forall c :: Holds(Fewest(draws), c) <= Holds(bag, c)
  {
    if Possible(draws, bag) {
      forall c ensures Holds(Fewest(draws), c) <= Holds(bag, c) {
        if Most(draws, c) > 0 {
          var i, j := MostAttained(draws, c);
        }
      }
    }
    if forall c :: Holds(Fewest(draws), c) <= Holds(bag, c) {
      forall i, j | 0 <= i < |draws| && 0 <= j < |draws[i]|
        ensures draws[i][j].count <= Holds(bag, draws[i][j].colour)
      {
        MostBound(draws, draws[i][j].colour, i, j);
      }
    }
  }

  /** The fewest bag makes the game possible, and no bag with fewer cubes of some colour does. */
  lemma FewestIsLeast(draws: seq<Draw>, bag: Bag)
    ensures Possible(draws, Fewest(draws))
    ensures (exists c :: Holds(bag, c) < Holds(Fewest(draws), c)) ==> !Possible(draws, bag)
  {
    PossibleIffFewest(draws, Fewest(draws));
    PossibleIffFewest(draws, bag);
  }

  /** The power of a game: the product of its fewest cubes. */
  function Power(draws: seq<Draw>): nat {
    var red, green, blue := Most(draws, Red), Most(draws, Green), Most(draws, Blue);
    red * green * blue
  }

  /** The record of one colour: " 3 blue". */
  function ShownText(s: Shown): string {
    " " + Decimal(s.count) + " " + Name(s.colour)
  }

  function ShownTexts(d: Draw): (r: seq<string>)
    ensures |r| == |d| && forall k :: 0 <= k < |d| ==> r[k] == ShownText(d[k])
  {
    if d == [] then [] else [ShownText(d[0])] + ShownTexts(d[1..])
  }

  /** The record of one draw: its colours separated by commas. */
  function DrawText(d: Draw): string {
    Join(ShownTexts(d), ",")
  }

  function DrawTexts(draws: seq<Draw>): (r: seq<string>)
    ensures |r| == |draws| && forall k :: 0 <= k < |draws| ==> r[k] == DrawText(draws[k])
  {
    if draws == [] then [] else [DrawText(draws[0])] + DrawTexts(draws[1..])
  }

  /** The record of a game: "Game", its id, a colon, then its draws separated by semicolons. */
  function GameLine(id: nat, draws: seq<Draw>): string {
    "Game " + Decimal(id) + ":" + Join(DrawTexts(draws), ";")
  }

  /** A char that is no digit, no space and no letter of a colour's name. */
  predicate Foreign(x: char) {
    x != ' ' && !IsDigit(x) && x !in "red" && x !in "green" && x !in "blue"
  }

  /** The separators, the newline and the 'G' of "Game" are foreign. */
  lemma Marks()
    ensures Foreign(',') && Foreign(';') && Foreign(':') && Foreign('\n') && Foreign('G')
  {
  }

  /** The head of a game's record holds no colon and no newline. */
  lemma HeadMarks(id: nat)
    ensures ':' !in "Game " + Decimal(id) && '\n' !in "Game " + Decimal(id)
  {
  }

  /** The record of one colour holds only spaces, digits and the letters of its name. */
  lemma ShownChars(s: Shown, x: char)
    requires x != ' ' && !IsDigit(x) && x !in Name(s.colour)
    ensures x !in ShownText(s)
  {
    var d := Decimal(s.count);
    assert ShownText(s) == " " + d + " " + Name(s.colour);
  }

  /** A foreign char is in no colour's record of a draw. */
  lemma ShownTextsChars(d: Draw, x: char)
    requires Foreign(x)
    ensures forall k :: 0 <= k < |d| ==> x !in ShownTexts(d)[k]
  {
    forall k | 0 <= k < |d| ensures x !in ShownTexts(d)[k] {
      ShownChars(d[k], x);
    }
  }

  /** A foreign char other than the comma is in no draw's record. */
  lemma DrawChars(d: Draw, x: char)
    requires Foreign(x) && x != ','
    ensures x !in DrawText(d)
  {
    ShownTextsChars(d, x);
    NotInJoin(ShownTexts(d), ",", x);
  }

  /** A foreign char other than the comma is in no draw's record of a game. */
  lemma DrawTextsChars(draws: seq<Draw>, x: char)
    requires Foreign(x) && x != ','
    ensures forall k :: 0 <= k < |draws| ==> x !in DrawTexts(draws)[k]
  {
    forall k | 0 <= k < |draws| ensures x !in DrawTexts(draws)[k] {
      DrawChars(draws[k], x);
    }
  }

  /** A foreign char other than the comma and the semicolon is in no game's list of draws. */
  lemma DrawsChars(draws: seq<Draw>, x: char)
    requires Foreign(x) && x != ',' && x != ';'
    ensures x !in Join(DrawTexts(draws), ";")
  {
    DrawTextsChars(draws, x);
    NotInJoin(DrawTexts(draws), ";", x);
  }

  /** A game of the puzzle: its id and its draws. */
  datatype Record = Record(id: nat, draws: seq<Draw>)

  function GameLines(records: seq<Record>): (r: seq<string>)
    ensures |r| == |records| && forall k :: 0 <= k < |records| ==> r[k] == GameLine(records[k].id, records[k].draws)
  {
    seq(|records|, k requires 0 <= k < |records| => GameLine(records[k].id, records[k].draws))
  }

  /** The first answer: the sum of the ids of the games possible with the bag. */
  function PossibleIdSum(records: seq<Record>, bag: Bag): nat {
    if records == [] then 0
    else
      var r := records[|records| - 1];
      PossibleIdSum(records[..|records| - 1], bag) + (if Possible(r.draws, bag) then r.id else 0)
  }

  /** The second answer: the sum of the games' powers. */
  function TotalPower(records: seq<Record>): nat {
    if records == [] then 0 else TotalPower(records[..|records| - 1]) + Power(records[|records| - 1].draws)
  }

  /** The puzzle input: one record per line, with a final newline when `newline` holds. */
  function InputText(records: seq<Record>, newline: bool): string {
    Join(GameLines(records) + (if newline then [""] else []), "\n")
  }

  /** A foreign char other than the separators and the letters of "Game" is in no game's record. */
  lemma LineChars(id: nat, draws: seq<Draw>, x: char)
    requires Foreign(x) && x != ',' && x != ';' && x != ':' && x !in "Game "
    ensures x !in GameLine(id, draws)
  {
    DrawsChars(draws, x);
    assert x !in "Game " + Decimal(id);
    assert GameLine(id, draws) == "Game " + Decimal(id) + ":" + Join(DrawTexts(draws), ";");
  }
}
