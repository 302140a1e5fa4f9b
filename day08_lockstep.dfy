/**
 * 08/prog_2.py: every start node walks at once, all moved by the same
 * instruction in a round, until a test before a round finds them all at
 * end nodes or the round counter reaches 10,000,000.  `current_nodes` is
 * the list START_NODES itself, overwritten node by node every round; it
 * is an array here.  The script prints the counter.
 */
module Day08Lockstep {
  import opened Wrappers
  import opened Wasteland
  import opened Day08Py
  import Day08Py2
  import Day03Py

  /** How the script ends: printing the counter, raising, or never stopping (empty instructions). */
  datatype Outcome = Printed(result: nat) | Raised | Unended

  /** The counter at which the walk gives up. */
  const Cap: nat := 10000000

  /** `check_end_reached(nodes)`: every node is one of END_NODES. */
  predicate AllEnd(ends: seq<nat>, nodes: seq<nat>) {
    forall k :: 0 <= k < |nodes| ==> nodes[k] in ends
  }

  /** One round: every node moved by the move m; None at the first IndexError. */
  function Moved(t: seq<(nat, nat)>, nodes: seq<nat>, m: nat): (r: Option<seq<nat>>)
    ensures r.Some? <==> forall i :: 0 <= i < |nodes| ==> Step(t, nodes[i], m).Some?
    ensures r.Some? ==> |r.value| == |nodes| && forall i :: 0 <= i < |nodes| ==> Step(t, nodes[i], m) == Some(r.value[i])
  {
    var xs := seq(|nodes|, i requires 0 <= i < |nodes| => Step(t, nodes[i], m));
    assert forall i :: 0 <= i < |nodes| ==> xs[i] == Step(t, nodes[i], m);
    Gathered(xs)
  }

  function MovedIn(t: seq<(nat, nat)>): (seq<nat>, nat) -> Option<seq<nat>> {
    (nodes: seq<nat>, m: nat) => Moved(t, nodes, m)
  }

  function AllEndIn(ends: seq<nat>): seq<nat> -> bool {
    (nodes: seq<nat>) => AllEnd(ends, nodes)
  }

  /**
   * The walk from the start nodes: the first round n below the cap whose
   * test finds every node at an end prints n; past the last test the
   * round that brings the counter to the cap prints the cap.  A move of
   * a name raises as soon as one node is to be moved.
   */
  function Lockstep(instr: Value, t: seq<(nat, nat)>, ends: seq<nat>, starts: seq<nat>): Outcome {
    match instr
    case Moves(ms) =>
      if ms == [] then Unended
      else (
        match WalkFrom(MovedIn(t), ms, AllEndIn(ends), starts, 0, Cap - 1)
        case Reached(n) => Printed(n)
        case Failed => Raised
        case Unfinished => if Position(MovedIn(t), ms, starts, Cap).None? then Raised else Printed(Cap))
    case Names(ns) =>
      if ns == [] then Unended else if AllEnd(ends, starts) then Printed(0) else Raised
  }

  /** `check_end_reached` over the current nodes. */
  method CheckEndReached(nodes: array<nat>, ends: seq<nat>) returns (b: bool)
    ensures b <==> AllEnd(ends, nodes[..])
  {
    for k := 0 to nodes.Length
      invariant forall i :: 0 <= i < k ==> nodes[i] in ends
    {
      if nodes[k] !in ends {
        return false;
      }
    }
    return true;
  }

  /**
   * The inner `for` of a round: each node replaced by its neighbour in
   * turn; at an IndexError the nodes before are moved and the others not.
   */
  method MoveAll(nodes: array<nat>, t: seq<(nat, nat)>, m: nat) returns (ok: bool)
    modifies nodes
    ensures ok <==> Moved(t, old(nodes[..]), m).Some?
    ensures ok ==> nodes[..] == Moved(t, old(nodes[..]), m).value
    ensures !ok ==> exists k :: (0 <= k < nodes.Length && Step(t, old(nodes[k]), m).None? &&
      (forall i :: 0 <= i < k ==> Step(t, old(nodes[i]), m) == Some(nodes[i])) &&
      (forall i :: k <= i < nodes.Length ==> nodes[i] == old(nodes[i])))
  {
    for i := 0 to nodes.Length
      invariant forall k :: 0 <= k < i ==> Step(t, old(nodes[k]), m) == Some(nodes[k])
      invariant forall k :: i <= k < nodes.Length ==> nodes[k] == old(nodes[k])
    {
      var next := Step(t, nodes[i], m);
      if next.None? {
        return false;
      }
      nodes[i] := next.value;
    }
    return true;
  }

  /** The `while not found` loop of the script over `current_nodes`, with `result` its counter. */
  method WalkAll(instr: Value, t: seq<(nat, nat)>, ends: seq<nat>, current: array<nat>) returns (o: Outcome)
    modifies current
    ensures o == Lockstep(instr, t, ends, old(current[..]))
  {
    if instr.Names? {
      if instr.names == [] {
        return Unended;
      }
      var found := CheckEndReached(current, ends);
      return if found then Printed(0) else Raised;
    }
    if instr.moves == [] {
      return Unended;
    }
    o := WalkMoves(instr.moves, t, ends, current);
  }

  /** The loop when the instructions are moves. */
  method WalkMoves(ms: seq<nat>, t: seq<(nat, nat)>, ends: seq<nat>, current: array<nat>) returns (o: Outcome)
    requires ms != []
    modifies current
    ensures o == Lockstep(Moves(ms), t, ends, old(current[..]))
  {
    ghost var step, isEnd, s := MovedIn(t), AllEndIn(ends), current[..];
    var result: nat := 0;
    WalkStart(step, ms, isEnd, s, Cap - 1);
    while true
      invariant OnTheWay(step, ms, isEnd, s, Cap - 1, result, current[..]) && Phase(|ms|, result) == 0
      decreases Cap - result
    {
      ghost var before := result;
      for j := 0 to |ms|
        invariant OnTheWay(step, ms, isEnd, s, Cap - 1, result, current[..])
        invariant result == before + j
        invariant Phase(|ms|, result) == if j < |ms| then j else 0
      {
        var stop := Round(ms, t, ends, current, j, s, result);
        if stop.Some? {
          return stop.value;
        }
        PhaseNext(|ms|, result);
        result := result + 1;
      }
    }
  }

  /**
   * One pass of the `for` over the instructions: the test, every node
   * moved by instruction j, and the test of the counter once it is
   * increased; Some when the walk stops there.
   */
  method Round(ms: seq<nat>, t: seq<(nat, nat)>, ends: seq<nat>, current: array<nat>, j: nat, ghost s: seq<nat>, result: nat)
      returns (stop: Option<Outcome>)
    requires j < |ms| && Phase(|ms|, result) == j
    requires OnTheWay(MovedIn(t), ms, AllEndIn(ends), s, Cap - 1, result, current[..])
    modifies current
    ensures stop.Some? ==> stop.value == Lockstep(Moves(ms), t, ends, s)
    ensures stop.None? ==> OnTheWay(MovedIn(t), ms, AllEndIn(ends), s, Cap - 1, result + 1, current[..])
  {
    var found := CheckEndReached(current, ends);
    if found {
      EndFound(ms, t, ends, s, result, current[..]);
      return Some(Printed(result));
    }
    ghost var cur := current[..];
    var ok := MoveAll(current, t, ms[j]);
    ghost var next := if ok then Some(current[..]) else None;
    assert next == Moved(t, cur, ms[j]);
    RoundMoved(ms, t, ends, s, result, cur, next);
    if !ok {
      return Some(Raised);
    }
    if (result + 1) % Cap == 0 {
      return Some(Printed(result + 1));
    }
    return None;
  }

  /** A test that finds every node at an end stops the walk with the counter. */
  lemma EndFound(ms: seq<nat>, t: seq<(nat, nat)>, ends: seq<nat>, s: seq<nat>, result: nat, cur: seq<nat>)
    requires OnTheWay(MovedIn(t), ms, AllEndIn(ends), s, Cap - 1, result, cur) && AllEnd(ends, cur)
    ensures Lockstep(Moves(ms), t, ends, s) == Printed(result)
  {
    WalkTest(MovedIn(t), ms, AllEndIn(ends), s, Cap - 1, result, cur);
  }

  /**
   * The round after a failed test: a raise stops the walk raising; the
   * round that brings the counter to the cap stops it with the cap;
   * another round leaves the walk on its way.
   */
  lemma RoundMoved(ms: seq<nat>, t: seq<(nat, nat)>, ends: seq<nat>, s: seq<nat>, result: nat, cur: seq<nat>, next: Option<seq<nat>>)
    requires OnTheWay(MovedIn(t), ms, AllEndIn(ends), s, Cap - 1, result, cur) && !AllEnd(ends, cur)
    requires next == Moved(t, cur, ms[Phase(|ms|, result)])
    ensures next.None? ==> Lockstep(Moves(ms), t, ends, s) == Raised
    ensures next.Some? && result + 1 == Cap ==> Lockstep(Moves(ms), t, ends, s) == Printed(Cap)
    ensures next.Some? && result + 1 < Cap ==> OnTheWay(MovedIn(t), ms, AllEndIn(ends), s, Cap - 1, result + 1, next.value)
  {
    var step, isEnd := MovedIn(t), AllEndIn(ends);
    WalkTest(step, ms, isEnd, s, Cap - 1, result, cur);
    assert Position(step, ms, s, result + 1) == next;
    if result < Cap - 1 {
      WalkStep(step, ms, isEnd, s, Cap - 1, result, cur, next);
    }
  }

  /** The script on the lines of its input file. */
  function Answer(fileLines: seq<string>): Outcome {
    var raw := Day03Py.Loaded(fileLines);
    match Parsed(raw)
    case None => Raised
    case Some(d) =>
      match Reindex(d)
      case None => Raised
      case Some(r) =>
        ParsedValid(raw);
        Lockstep(d.values["instructions"], r.nodes, r.ends, r.starts)
  }

  method Run(fileLines: seq<string>) returns (o: Outcome)
    ensures o == Answer(fileLines)
  {
    var data := Day03Py.LoadInput(fileLines);
    assert data == Day03Py.Loaded(fileLines);
    var raw := ParseInput(data);
    if raw.None? {
      return Raised;
    }
    var d := raw.value;
    ParsedValid(data);
    var re := ReindexAsIntNodes(d);
    if re.None? {
      return Raised;
    }
    var r := re.value;
    var current := new nat[|r.starts|](i requires 0 <= i < |r.starts| => r.starts[i]);
    assert current[..] == r.starts;
    o := WalkAll(d.values["instructions"], r.nodes, r.ends, current);
  }

  /** After k rounds the nodes are, one by one, where the walk of each start is after k moves. */
  lemma {:induction false} InStep(t: seq<(nat, nat)>, ms: seq<nat>, starts: seq<nat>, k: nat)
    requires ms != []
    ensures Position(MovedIn(t), ms, starts, k).Some? <==>
      forall i :: 0 <= i < |starts| ==> Position(Day08Py2.StepIn(t), ms, starts[i], k).Some?
    ensures Position(MovedIn(t), ms, starts, k).Some? ==>
      |Position(MovedIn(t), ms, starts, k).value| == |starts| &&
      forall i :: 0 <= i < |starts| ==> Position(Day08Py2.StepIn(t), ms, starts[i], k) == Some(Position(MovedIn(t), ms, starts, k).value[i])
  {
    if k > 0 {
      InStep(t, ms, starts, k - 1);
      var m := ms[Phase(|ms|, k - 1)];
      var p := Position(MovedIn(t), ms, starts, k - 1);
      if p.Some? {
        assert Position(MovedIn(t), ms, starts, k) == Moved(t, p.value, m);
        forall i | 0 <= i < |starts|
          ensures Position(Day08Py2.StepIn(t), ms, starts[i], k) == Step(t, p.value[i], m)
        {
        }
      } else {
        var i :| 0 <= i < |starts| && Position(Day08Py2.StepIn(t), ms, starts[i], k - 1).None?;
        assert Position(Day08Py2.StepIn(t), ms, starts[i], k).None?;
      }
    }
  }

  /**
   * The script prints n below the cap exactly when round n is the first
   * whose test finds every node at an end, every move before it made; it
   * prints nothing above the cap.
   */
  lemma LockstepFirst(ms: seq<nat>, t: seq<(nat, nat)>, ends: seq<nat>, starts: seq<nat>, n: nat)
    requires ms != []
    ensures n < Cap ==> (Lockstep(Moves(ms), t, ends, starts) == Printed(n) <==> FirstEnd(MovedIn(t), ms, AllEndIn(ends), starts, 0, n))
    ensures Lockstep(Moves(ms), t, ends, starts) == Printed(n) ==> n <= Cap
    ensures Lockstep(Moves(ms), t, ends, starts) == Printed(Cap) ==>
      forall j :: 0 <= j < Cap ==> Position(MovedIn(t), ms, starts, j).Some? && !AllEnd(ends, Position(MovedIn(t), ms, starts, j).value)
  {
    WalkFromFirst(MovedIn(t), ms, AllEndIn(ends), starts, 0, Cap - 1, n);
    if Lockstep(Moves(ms), t, ends, starts) == Printed(Cap) {
      WalkFromFirst(MovedIn(t), ms, AllEndIn(ends), starts, 0, Cap - 1, Cap);
      assert WalkFrom(MovedIn(t), ms, AllEndIn(ends), starts, 0, Cap - 1) == Unfinished;
      WalkUnfinished(MovedIn(t), ms, AllEndIn(ends), starts, 0, Cap - 1);
    }
  }

  /** A walk that runs past its fuel made every move and met no end up to the fuel. */
  lemma {:induction false} WalkUnfinished<N>(step: (N, nat) -> Option<N>, ms: seq<nat>, isEnd: N -> bool, s: N, k: nat, fuel: nat)
    requires |ms| > 0 && WalkFrom(step, ms, isEnd, s, k, fuel) == Unfinished
    ensures forall j :: k <= j <= fuel ==> Position(step, ms, s, j).Some? && !isEnd(Position(step, ms, s, j).value)
    decreases fuel + 1 - k
  {
    if k <= fuel {
      WalkUnfinished(step, ms, isEnd, s, k + 1, fuel);
    }
  }

  /** From nodes of a closed table, with moves of 0 and 1, the script never raises and stops by the cap. */
  lemma LockstepPrints(ms: seq<nat>, t: seq<(nat, nat)>, ends: seq<nat>, starts: seq<nat>)
    requires ms != [] && Closed(t) && forall k :: 0 <= k < |starts| ==> starts[k] < |t|
    requires forall i :: 0 <= i < |ms| ==> ms[i] <= 1
    ensures Lockstep(Moves(ms), t, ends, starts).Printed?
  {
    forall j: nat
      ensures Position(MovedIn(t), ms, starts, j).Some?
    {
      forall i | 0 <= i < |starts|
        ensures Position(Day08Py2.StepIn(t), ms, starts[i], j).Some?
      {
        Day08Py2.PositionInTable(t, ms, starts[i], j);
      }
      InStep(t, ms, starts, j);
    }
    WalkNeverFails(MovedIn(t), ms, AllEndIn(ends), starts, 0, Cap - 1);
    assert Position(MovedIn(t), ms, starts, Cap).Some?;
  }

  /**
   * On a file that parses and reindexes, with the moves of its first line
   * as instructions, the script never raises: it prints unless the
   * first line is empty.
   */
  lemma FilePrints(fileLines: seq<string>)
    requires Parsed(Day03Py.Loaded(fileLines)).Some?
    requires Reindex(Parsed(Day03Py.Loaded(fileLines)).value).Some?
    requires "instructions" in Parsed(Day03Py.Loaded(fileLines)).value.values
    requires Parsed(Day03Py.Loaded(fileLines)).value.values["instructions"].Moves?
    ensures Answer(fileLines) == Unended <==> Parsed(Day03Py.Loaded(fileLines)).value.values["instructions"].moves == []
    ensures Answer(fileLines) != Unended ==> Answer(fileLines).Printed?
  {
    var raw := Day03Py.Loaded(fileLines);
    var d := Parsed(raw).value;
    var r := Reindex(d).value;
    ParsedValid(raw);
    ParsedMoves(raw);
    Day08Py2.StartsInTable(d, r);
    var ms := d.values["instructions"].moves;
    if ms != [] {
      LockstepPrints(ms, r.nodes, r.ends, r.starts);
    }
  }
}
