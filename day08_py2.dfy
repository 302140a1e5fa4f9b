/**
 * py/08/prog_2.py: one walk from every start node, each counting the
 * moves up to its first end node, then the lcm of the first six counts.
 * A walk tests for the end before every move, so a start that is an end
 * counts 0.  It raises when an instruction is a name rather than a
 * number (the instructions are then the tuple of a node line that took
 * the key "instructions"), and never stops when the instructions are
 * empty: the `for` inside its `while` then does nothing.  Every walk runs
 * before the lcm, so one that never stops hides the IndexError of fewer
 * than six start nodes.
 */
module Day08Py2 {
  import opened Wrappers
  import opened Wasteland
  import opened Day08Py
  import Day03Py

  /** How the script ends: printing the lcm, raising, or never stopping. */
  datatype Outcome = Printed(result: nat) | Raised | Unended

  /** `check_end_reached`: the node is one of END_NODES. */
  predicate EndReached(ends: seq<nat>, node: nat) {
    node in ends
  }

  /** The end test of a walk. */
  function IsEndIn(ends: seq<nat>): nat -> bool {
    (c: nat) => EndReached(ends, c)
  }

  /** `reindexed_nodes[current][instruct]` as the step of a walk. */
  function StepIn(t: seq<(nat, nat)>): (nat, nat) -> Option<nat> {
    (c: nat, m: nat) => Step(t, c, m)
  }

  /** The walk of one start node, within `fuel` moves. */
  function WalkOf(instr: Value, t: seq<(nat, nat)>, ends: seq<nat>, s: nat, fuel: nat): Walk {
    match instr
    case Moves(ms) =>
      if ms == [] then Unfinished else WalkFrom(StepIn(t), ms, IsEndIn(ends), s, 0, fuel)
    case Names(ns) =>
      if ns == [] then Unfinished else if EndReached(ends, s) then Reached(0) else Failed
  }

  /** The `while not found` loop of one start node and its `for` over the instructions. */
  method CountSteps(instr: Value, t: seq<(nat, nat)>, ends: seq<nat>, s: nat, fuel: nat) returns (w: Walk)
    ensures w == WalkOf(instr, t, ends, s, fuel)
  {
    if instr.Names? {
      if instr.names == [] {
        return Unfinished;
      }
      if EndReached(ends, s) {
        return Reached(0);
      }
      return Failed;
    }
    var ms := instr.moves;
    if ms == [] {
      return Unfinished;
    }
    ghost var step, isEnd := StepIn(t), IsEndIn(ends);
    var nbStep: nat := 0;
    var current := s;
    WalkStart(step, ms, isEnd, s, fuel);
    while true
      invariant OnTheWay(step, ms, isEnd, s, fuel, nbStep, current) && Phase(|ms|, nbStep) == 0
      decreases fuel - nbStep
    {
      ghost var before := nbStep;
      for j := 0 to |ms|
        invariant OnTheWay(step, ms, isEnd, s, fuel, nbStep, current)
        invariant nbStep == before + j
        invariant Phase(|ms|, nbStep) == if j < |ms| then j else 0
      {
        WalkTest(step, ms, isEnd, s, fuel, nbStep, current);
        if EndReached(ends, current) {
          return Reached(nbStep);
        }
        if nbStep == fuel {
          return Unfinished;
        }
        var next := Step(t, current, ms[j]);
        WalkStep(step, ms, isEnd, s, fuel, nbStep, current, next);
        if next.None? {
          return Failed;
        }
        PhaseNext(|ms|, nbStep);
        current, nbStep := next.value, nbStep + 1;
      }
    }
  }

  /** The counts of `nodes_nb_steps` after the walks of the first i starts, or how the script stopped at one of them. */
  datatype Tally = Counts(counts: seq<nat>) | Stopped(outcome: Outcome)

  function Tallied(instr: Value, t: seq<(nat, nat)>, ends: seq<nat>, starts: seq<nat>, fuel: nat, i: nat): Tally
    requires i <= |starts|
  {
    if i == 0 then Counts([])
    else
      match Tallied(instr, t, ends, starts, fuel, i - 1)
      case Stopped(o) => Stopped(o)
      case Counts(cs) =>
        match WalkOf(instr, t, ends, starts[i - 1], fuel)
        case Reached(n) => Counts(cs + [n])
        case Failed => Stopped(Raised)
        case Unfinished => Stopped(Unended)
  }

  lemma {:induction false} TallyStays(instr: Value, t: seq<(nat, nat)>, ends: seq<nat>, starts: seq<nat>, fuel: nat, i: nat, j: nat)
    requires i <= j <= |starts| && Tallied(instr, t, ends, starts, fuel, i).Stopped?
    ensures Tallied(instr, t, ends, starts, fuel, j) == Tallied(instr, t, ends, starts, fuel, i)
    decreases j - i
  {
    if i < j {
      TallyStays(instr, t, ends, starts, fuel, i + 1, j);
    }
  }

  /** The loop over START_NODES filling `nodes_nb_steps` in place. */
  method TallyWalks(instr: Value, t: seq<(nat, nat)>, ends: seq<nat>, starts: seq<nat>, fuel: nat) returns (r: Tally)
    ensures r == Tallied(instr, t, ends, starts, fuel, |starts|)
  {
    var counts: seq<nat> := seq(|starts|, _ => 0);
    for i := 0 to |starts|
      invariant |counts| == |starts|
      invariant Tallied(instr, t, ends, starts, fuel, i) == Counts(counts[..i])
    {
      var w := CountSteps(instr, t, ends, starts[i], fuel);
      if !w.Reached? {
        r := if w.Failed? then Stopped(Raised) else Stopped(Unended);
        TallyStays(instr, t, ends, starts, fuel, i + 1, |starts|);
        return;
      }
      ghost var front := counts[..i];
      counts := counts[i := w.count];
      assert counts[..i + 1] == front + [w.count];
    }
    assert counts[..|starts|] == counts;
    return Counts(counts);
  }

  /** `lcm` of the first six counts; the IndexError of fewer. */
  function Finish(cs: seq<nat>): Outcome {
    if |cs| < 6 then Raised else Printed(LcmOf(cs[..6]))
  }

  /** The script on the lines of its input file, every walk within `fuel` moves. */
  function Answer(fileLines: seq<string>, fuel: nat): Outcome {
    var raw := Day03Py.Loaded(fileLines);
    match Parsed(raw)
    case None => Raised
    case Some(d) =>
      match Reindex(d)
      case None => Raised
      case Some(r) =>
        ParsedValid(raw);
        match Tallied(d.values["instructions"], r.nodes, r.ends, r.starts, fuel, |r.starts|)
        case Stopped(o) => o
        case Counts(cs) => Finish(cs)
  }

  method Run(fileLines: seq<string>, fuel: nat) returns (o: Outcome)
    ensures o == Answer(fileLines, fuel)
  {
    var data := Day03Py.LoadInput(fileLines);
    assert data == Day03Py.Loaded(fileLines);
    var raw := ParseInput(data);
    if raw.None? {
      return Raised;
    }
    var d := raw.value;
    ParsedValid(data);
    var re := ReindexAsIntNodes(d);
    if re.None? {
      return Raised;
    }
    var r := re.value;
    var tally := TallyWalks(d.values["instructions"], r.nodes, r.ends, r.starts, fuel);
    if tally.Stopped? {
      return tally.outcome;
    }
    o := Finish(tally.counts);
  }

  /**
   * A walk counts n exactly when n is within the fuel and position n is
   * its first end, every move before it made; a start that is an end
   * counts 0.
   */
  lemma WalkOfFirst(ms: seq<nat>, t: seq<(nat, nat)>, ends: seq<nat>, s: nat, fuel: nat, n: nat)
    requires ms != []
    ensures WalkOf(Moves(ms), t, ends, s, fuel) == Reached(n) <==> n <= fuel && FirstEnd(StepIn(t), ms, IsEndIn(ends), s, 0, n)
    ensures EndReached(ends, s) ==> WalkOf(Moves(ms), t, ends, s, fuel) == Reached(0)
  {
    WalkFromFirst(StepIn(t), ms, IsEndIn(ends), s, 0, fuel, n);
    if EndReached(ends, s) {
      assert Position(StepIn(t), ms, s, 0) == Some(s);
    }
  }

  /** In a closed table, moves of 0 and 1 from a node always lead to a node. */
  lemma {:induction false} PositionInTable(t: seq<(nat, nat)>, ms: seq<nat>, s: nat, k: nat)
    requires Closed(t) && s < |t| && ms != [] && forall i :: 0 <= i < |ms| ==> ms[i] <= 1
    ensures Position(StepIn(t), ms, s, k).Some? && Position(StepIn(t), ms, s, k).value < |t|
  {
    if k > 0 {
      PositionInTable(t, ms, s, k - 1);
      var p := Position(StepIn(t), ms, s, k - 1).value;
      StepClosed(t, p, ms[Phase(|ms|, k - 1)]);
    }
  }

  /**
   * The counts are those of the walks, in start order, while every walk
   * reaches an end; the script stops raising, or never stops, at the
   * first walk that raises or does not end.
   */
  lemma {:induction false} TallySpec(instr: Value, t: seq<(nat, nat)>, ends: seq<nat>, starts: seq<nat>, fuel: nat, i: nat)
    requires i <= |starts|
    ensures Tallied(instr, t, ends, starts, fuel, i).Counts? <==> forall k :: 0 <= k < i ==> WalkOf(instr, t, ends, starts[k], fuel).Reached?
    ensures Tallied(instr, t, ends, starts, fuel, i).Counts? ==>
      |Tallied(instr, t, ends, starts, fuel, i).counts| == i &&
      forall k :: 0 <= k < i ==> WalkOf(instr, t, ends, starts[k], fuel) == Reached(Tallied(instr, t, ends, starts, fuel, i).counts[k])
    ensures Tallied(instr, t, ends, starts, fuel, i) == Stopped(Raised) ==>
      exists k :: 0 <= k < i && WalkOf(instr, t, ends, starts[k], fuel) == Failed
    ensures Tallied(instr, t, ends, starts, fuel, i) == Stopped(Unended) ==>
      exists k :: 0 <= k < i && WalkOf(instr, t, ends, starts[k], fuel) == Unfinished
    ensures Tallied(instr, t, ends, starts, fuel, i).Stopped? ==> !Tallied(instr, t, ends, starts, fuel, i).outcome.Printed?
  {
    if i > 0 {
      TallySpec(instr, t, ends, starts, fuel, i - 1);
    }
  }

  /** The lcm of six positive counts is positive and a multiple of each; a count of 0 makes it 0; fewer than six raise. */
  lemma FinishSpec(cs: seq<nat>)
    ensures |cs| < 6 <==> Finish(cs) == Raised
    ensures |cs| >= 6 && (forall k :: 0 <= k < 6 ==> cs[k] > 0) ==>
      Finish(cs).Printed? && Finish(cs).result > 0 && forall k :: 0 <= k < 6 ==> Finish(cs).result % cs[k] == 0
    ensures |cs| >= 6 && (exists k :: 0 <= k < 6 && cs[k] == 0) ==> Finish(cs) == Printed(0)
  {
    if |cs| >= 6 {
      var six := cs[..6];
      if forall k :: 0 <= k < 6 ==> cs[k] > 0 {
        LcmOfDivides(six);
      }
      if k :| 0 <= k < 6 && cs[k] == 0 {
        LcmOfZero(six, k);
      }
    }
  }

  /** The numbers of named nodes are below the number of nodes. */
  lemma IndicesBelow(mapp: map<string, nat>, names: seq<string>, ks: seq<string>, ixs: seq<nat>)
    requires Numbering(names, mapp) && Indices(mapp, ks) == Some(ixs)
    ensures forall k :: 0 <= k < |ixs| ==> ixs[k] < |names|
  {
    forall k | 0 <= k < |ixs|
      ensures ixs[k] < |names|
    {
      NumberBelow(names, mapp, ks[k]);
    }
  }

  /** The table of a reindexing is closed, and its starts are nodes of it. */
  lemma StartsInTable(d: Dict, r: Reindexed)
    requires ValidDict(d) && Reindex(d) == Some(r)
    ensures Closed(r.nodes) && forall k :: 0 <= k < |r.starts| ==> r.starts[k] < |r.nodes|
  {
    ReindexSpec(d, r);
    ReindexParts(d, r);
    IndicesBelow(r.mapp, NodeNames(d.keys), KeysWith(d.keys, 'A').value, r.starts);
  }

  /** Walks of moves 0 and 1 from nodes of a closed table never stop the script raising. */
  lemma TallyNeverRaises(ms: seq<nat>, t: seq<(nat, nat)>, ends: seq<nat>, starts: seq<nat>, fuel: nat)
    requires Closed(t) && forall k :: 0 <= k < |starts| ==> starts[k] < |t|
    requires forall i :: 0 <= i < |ms| ==> ms[i] <= 1
    ensures Tallied(Moves(ms), t, ends, starts, fuel, |starts|) != Stopped(Raised)
  {
    TallySpec(Moves(ms), t, ends, starts, fuel, |starts|);
    forall k | 0 <= k < |starts|
      ensures WalkOf(Moves(ms), t, ends, starts[k], fuel) != Failed
    {
      if ms != [] {
        forall j: nat
          ensures Position(StepIn(t), ms, starts[k], j).Some?
        {
          PositionInTable(t, ms, starts[k], j);
        }
        WalkNeverFails(StepIn(t), ms, IsEndIn(ends), starts[k], 0, fuel);
      }
    }
  }

  /**
   * On a file that parses and reindexes, with the moves of its first line
   * as instructions, no walk raises: the script prints, or a walk goes on
   * past the fuel, or there are fewer than six starts.
   */
  lemma NoWalkRaises(fileLines: seq<string>, fuel: nat)
    requires Parsed(Day03Py.Loaded(fileLines)).Some?
    requires Reindex(Parsed(Day03Py.Loaded(fileLines)).value).Some?
    requires "instructions" in Parsed(Day03Py.Loaded(fileLines)).value.values
    requires Parsed(Day03Py.Loaded(fileLines)).value.values["instructions"].Moves?
    ensures Answer(fileLines, fuel) == Unended || Answer(fileLines, fuel).Printed? ||
      |Reindex(Parsed(Day03Py.Loaded(fileLines)).value).value.starts| < 6
  {
    var raw := Day03Py.Loaded(fileLines);
    var d := Parsed(raw).value;
    var r := Reindex(d).value;
    ParsedValid(raw);
    ParsedMoves(raw);
    StartsInTable(d, r);
    var ms := d.values["instructions"].moves;
    TallyNeverRaises(ms, r.nodes, r.ends, r.starts, fuel);
    var tally := Tallied(Moves(ms), r.nodes, r.ends, r.starts, fuel, |r.starts|);
    TallySpec(Moves(ms), r.nodes, r.ends, r.starts, fuel, |r.starts|);
    if tally.Counts? {
      FinishSpec(tally.counts);
    }
  }
}
