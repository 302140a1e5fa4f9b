/**
 * py/08/prog_1.py: the walk from 'AAA' towards 'ZZZ' over the parsed dict,
 * testing for 'ZZZ' before every move and counting the moves.
 * `process_node` only rebinds its own parameter to `node[instruct]`, so
 * the node the script tests stays 'AAA' and the script never prints: it
 * runs for ever, or raises when the instructions are names, since the
 * char of a string cannot be taken at a string.  The walk as evidently
 * intended moves to `data_input[node][instruct]`.
 */
module Day08Py1 {
  import opened Wrappers
  import opened Text
  import opened Wasteland
  import opened Day08Py
  import Day03Py

  /** How the script ends: printing the count, raising, or never stopping. */
  datatype Outcome = Printed(result: nat) | Raised | Unended

  const Start := "AAA"
  const End := "ZZZ"

  /** `check_end_reached`: the node is 'ZZZ'. */
  predicate EndReached(node: string) {
    node == End
  }

  function IsEnd(): string -> bool {
    (node: string) => EndReached(node)
  }

  /** `process_node` as written: `node[instruct]` is read (an IndexError past the name's end) and dropped, so the node stays. */
  function Kept(node: string, m: nat): Option<string> {
    if m < |node| then Some(node) else None
  }

  function KeptStep(): (string, nat) -> Option<string> {
    (node: string, m: nat) => Kept(node, m)
  }

  /** What a walk comes to in the script's terms. */
  function OutcomeOf(w: Walk): Outcome {
    match w
    case Reached(n) => Printed(n)
    case Failed => Raised
    case Unfinished => Unended
  }

  /**
   * The script as written on its dict, its loop run for at most `fuel`
   * rounds: with moves, the node stays 'AAA'; with the names of a node
   * line under "instructions", `node[instruct]` raises a TypeError at the
   * first one.
   */
  function AsWritten(instr: Value, fuel: nat): Outcome {
    match instr
    case Moves(ms) => if ms == [] then Unended else OutcomeOf(WalkFrom(KeptStep(), ms, IsEnd(), Start, 0, fuel))
    case Names(ns) => if ns == [] || EndReached(Start) then Unended else Raised
  }

  /** The `while not found` loop of the script as written, within `fuel` moves. */
  method MainLoop(instr: Value, fuel: nat) returns (o: Outcome)
    ensures o == AsWritten(instr, fuel)
  {
    var node := Start;
    if instr.Names? {
      if instr.names == [] {
        return Unended;
      }
      return if EndReached(node) then Unended else Raised;
    }
    var ms := instr.moves;
    if ms == [] {
      return Unended;
    }
    var result: nat := 0;
    WalkStart(KeptStep(), ms, IsEnd(), Start, fuel);
    while true
      invariant OnTheWay(KeptStep(), ms, IsEnd(), Start, fuel, result, node) && Phase(|ms|, result) == 0
      decreases fuel - result
    {
      ghost var before := result;
      for j := 0 to |ms|
        invariant OnTheWay(KeptStep(), ms, IsEnd(), Start, fuel, result, node)
        invariant result == before + j
        invariant Phase(|ms|, result) == if j < |ms| then j else 0
      {
        WalkTest(KeptStep(), ms, IsEnd(), Start, fuel, result, node);
        if EndReached(node) {
          return Printed(result);
        }
        if result == fuel {
          return Unended;
        }
        var next := Kept(node, ms[j]);
        WalkStep(KeptStep(), ms, IsEnd(), Start, fuel, result, node, next);
        if next.None? {
          return Raised;
        }
        PhaseNext(|ms|, result);
        node, result := next.value, result + 1;
      }
    }
  }

  /** The script on the lines of its input file. */
  function Answer(fileLines: seq<string>, fuel: nat): Outcome {
    var raw := Day03Py.Loaded(fileLines);
    match Parsed(raw)
    case None => Raised
    case Some(d) =>
      ParsedValid(raw);
      AsWritten(d.values["instructions"], fuel)
  }

  method Run(fileLines: seq<string>, fuel: nat) returns (o: Outcome)
    ensures o == Answer(fileLines, fuel)
  {
    var data := Day03Py.LoadInput(fileLines);
    assert data == Day03Py.Loaded(fileLines);
    var raw := ParseInput(data);
    if raw.None? {
      return Raised;
    }
    ParsedValid(data);
    o := MainLoop(raw.value.values["instructions"], fuel);
  }

  /** As written, every place of the walk is 'AAA' or a raise. */
  lemma {:induction false} StaysAtStart(ms: seq<nat>, k: nat)
    requires ms != []
    ensures Position(KeptStep(), ms, Start, k) == Some(Start) || Position(KeptStep(), ms, Start, k).None?
  {
    if k > 0 {
      StaysAtStart(ms, k - 1);
    }
  }

  lemma {:induction false} NeverReached(ms: seq<nat>, k: nat, fuel: nat)
    requires ms != []
    ensures !WalkFrom(KeptStep(), ms, IsEnd(), Start, k, fuel).Reached?
    decreases fuel + 1 - k
  {
    if k <= fuel {
      StaysAtStart(ms, k);
      NeverReached(ms, k + 1, fuel);
    }
  }

  /** The script as written never prints, whatever the file and however long it runs. */
  lemma NeverPrints(fileLines: seq<string>, fuel: nat)
    ensures !Answer(fileLines, fuel).Printed?
  {
    var raw := Day03Py.Loaded(fileLines);
    if Parsed(raw).Some? {
      ParsedValid(raw);
      var instr := Parsed(raw).value.values["instructions"];
      if instr.Moves? && instr.moves != [] {
        NeverReached(instr.moves, 0, fuel);
      }
    }
  }

  /**
   * The move as evidently intended, `data_input[node][instruct]`: None at
   * the KeyError of a name that is not a node, or the IndexError of a
   * tuple too short.
   */
  function Next(d: Dict, node: string, m: nat): Option<string> {
    if node in d.values && d.values[node].Names? && m < |d.values[node].names| then Some(d.values[node].names[m]) else None
  }

  function NextIn(d: Dict): (string, nat) -> Option<string> {
    (node: string, m: nat) => Next(d, node, m)
  }

  /** The walk as evidently intended on the parsed dict, within `fuel` moves. */
  function Intended(d: Dict, fuel: nat): Outcome
    requires "instructions" in d.values
  {
    match d.values["instructions"]
    case Moves(ms) => if ms == [] then Unended else OutcomeOf(WalkFrom(NextIn(d), ms, IsEnd(), Start, 0, fuel))
    case Names(ns) => if ns == [] || EndReached(Start) then Unended else Raised
  }

  function AnswerIntended(fileLines: seq<string>, fuel: nat): Outcome {
    var raw := Day03Py.Loaded(fileLines);
    match Parsed(raw)
    case None => Raised
    case Some(d) =>
      ParsedValid(raw);
      Intended(d, fuel)
  }

  /** The intended script prints n exactly when n is within the fuel and 'ZZZ' is first met after n moves from 'AAA'. */
  lemma IntendedFirst(d: Dict, fuel: nat, n: nat)
    requires "instructions" in d.values && d.values["instructions"].Moves? && d.values["instructions"].moves != []
    ensures Intended(d, fuel) == Printed(n) <==>
      n <= fuel && FirstEnd(NextIn(d), d.values["instructions"].moves, IsEnd(), Start, 0, n)
  {
    WalkFromFirst(NextIn(d), d.values["instructions"].moves, IsEnd(), Start, 0, fuel, n);
  }

  /** A file with one move right, from node a to node b, which leads to itself. */
  function Sheet(a: string, b: string): seq<string> {
    ["R", "", NodeLine(a, b, b), NodeLine(b, b, b)]
  }

  /** The file of the puzzle's smallest map: one move right, from 'AAA' to 'ZZZ'. */
  function ShortSheet(): seq<string> {
    Sheet(Start, End)
  }

  /** A node line has no blank at either end. */
  lemma NodeLineFixed(a: string, b: string, c: string)
    requires IsName(a)
    ensures Trim(NodeLine(a, b, c)) == NodeLine(a, b, c)
  {
    var s := NodeLine(a, b, c);
    assert s[0] == a[0] && s[|s| - 1] == ')';
    TrimFixed(s);
  }

  /** Loading lines that are their own trims leaves them as they are. */
  lemma LoadedFour(w: string, x: string, y: string, z: string)
    requires Trim(w) == w && Trim(x) == x && Trim(y) == y && Trim(z) == z
    ensures Day03Py.Loaded([w, x, y, z]) == [w, x, y, z]
  {
  }

  lemma MoveLineFixed()
    ensures Trim("R") == "R" && Trim("") == ""
  {
    assert !IsWhitespace('R');
    TrimFixed("R");
  }

  lemma SheetLoaded(a: string, b: string)
    requires IsName(a) && IsName(b)
    ensures Day03Py.Loaded(Sheet(a, b)) == Sheet(a, b)
  {
    MoveLineFixed();
    NodeLineFixed(a, b, b);
    NodeLineFixed(b, b, b);
    LoadedFour("R", "", NodeLine(a, b, b), NodeLine(b, b, b));
  }

  lemma SheetEntries(a: string, b: string)
    requires IsName(a) && IsName(b)
    ensures EntriesOf(NodeLines(Sheet(a, b))) == [Some((a, [b, b])), Some((b, [b, b]))]
  {
    EntryRead(a, b, b);
    EntryRead(b, b, b);
    assert NodeLines(Sheet(a, b)) == [NodeLine(a, b, b), NodeLine(b, b, b)];
  }

  lemma SheetFilled(a: string, b: string)
    requires a != b && a != "instructions" && b != "instructions"
    ensures Filled(First([1]), [Some((a, [b, b])), Some((b, [b, b]))], 2).Some?
    ensures Filled(First([1]), [Some((a, [b, b])), Some((b, [b, b]))], 2).value.values ==
      map["instructions" := Moves([1]), a := Names([b, b]), b := Names([b, b])]
  {
    var es := [Some((a, [b, b])), Some((b, [b, b]))];
    var d1 := Stored(First([1]), a, Names([b, b]));
    assert Filled(First([1]), es, 1) == Some(d1);
  }

  /** `parse_input` on lines whose first line reads as moves stores the entries of the node lines. */
  lemma ParsedParts(raw: seq<string>, ms: seq<nat>, es: seq<Option<(string, seq<string>)>>)
    requires |raw| > 0 && MovesOf(raw[0]) == Some(ms) && EntriesOf(NodeLines(raw)) == es
    ensures Parsed(raw) == Filled(First(ms), es, |es|)
  {
  }

  lemma MoveLineRead()
    ensures MovesOf("R") == Some([1])
  {
    GatheredAll(seq(1, i requires 0 <= i < 1 => MoveOf("R"[i])), [1]);
  }

  lemma SheetParsed(a: string, b: string)
    requires IsName(a) && IsName(b) && a != b && a != "instructions" && b != "instructions"
    ensures Parsed(Day03Py.Loaded(Sheet(a, b))).Some?
    ensures Parsed(Day03Py.Loaded(Sheet(a, b))).value.values ==
      map["instructions" := Moves([1]), a := Names([b, b]), b := Names([b, b])]
  {
    SheetLoaded(a, b);
    SheetEntries(a, b);
    MoveLineRead();
    SheetFilled(a, b);
    ParsedParts(Sheet(a, b), [1], [Some((a, [b, b])), Some((b, [b, b]))]);
  }

  lemma ShortSheetParsed()
    ensures Parsed(Day03Py.Loaded(ShortSheet())).Some?
    ensures Parsed(Day03Py.Loaded(ShortSheet())).value.values ==
      map["instructions" := Moves([1]), Start := Names([End, End]), End := Names([End, End])]
  {
    assert IsName(Start) && IsName(End) by {
      assert IsWhitespace(' ') && !IsWhitespace('A') && !IsWhitespace('Z');
    }
    SheetParsed(Start, End);
  }

  /** On the dict of that file the intended walk reaches 'ZZZ' with its first move. */
  lemma IntendedOnSheet(d: Dict, fuel: nat)
    requires fuel >= 1
    requires d.values == map["instructions" := Moves([1]), Start := Names([End, End]), End := Names([End, End])]
    ensures Intended(d, fuel) == Printed(1)
  {
    assert Position(NextIn(d), [1], Start, 1) == Some(End) by {
      assert Phase(1, 0) == 0;
    }
    assert WalkFrom(NextIn(d), [1], IsEnd(), Start, 1, fuel) == Reached(1);
    assert WalkFrom(NextIn(d), [1], IsEnd(), Start, 0, fuel) == Reached(1);
  }

  /** With the one move right, the script as written neither prints nor raises. */
  lemma AsWrittenOnSheet(fuel: nat)
    ensures AsWritten(Moves([1]), fuel) == Unended
  {
    NeverReached([1], 0, fuel);
    forall k: nat
      ensures Position(KeptStep(), [1], Start, k) == Some(Start)
    {
      KeptStays(k);
    }
    WalkNeverFails(KeptStep(), [1], IsEnd(), Start, 0, fuel);
  }

  /**
   * On that file the intended walk prints 1 with any fuel from 1 on, and
   * the script as written never prints.
   */
  lemma ShortSheetDiffers(fuel: nat)
    requires fuel >= 1
    ensures AnswerIntended(ShortSheet(), fuel) == Printed(1)
    ensures Answer(ShortSheet(), fuel) == Unended
  {
    ShortSheetParsed();
    var d := Parsed(Day03Py.Loaded(ShortSheet())).value;
    IntendedOnSheet(d, fuel);
    AsWrittenOnSheet(fuel);
  }

  lemma {:induction false} KeptStays(k: nat)
    ensures Position(KeptStep(), [1], Start, k) == Some(Start)
  {
    if k > 0 {
      KeptStays(k - 1);
      assert Phase(1, k - 1) == 0;
    }
  }
}
