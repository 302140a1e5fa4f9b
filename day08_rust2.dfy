/**
 * The second part of day 8 in Rust (rust/d08_2/src/main.rs): the first
 * line holds the directions, every line after the second a node
 * `AAA = (BBB, CCC)`, read into a map from node id to node.  Every node
 * whose id ends with 'A' starts a walk that counts its moves up to the
 * first node whose id ends with 'Z', and the counts are folded from 1
 * with `num::integer::lcm`.
 */
module Day08Rust2 {
  import opened Wrappers
  import opened Text
  import Wasteland

  datatype Direction = Right | Left

  datatype Node = Node(id: string, left: string, right: string)

  /** The nodes by id. */
  type Network = map<string, Node>

  /** A walk: the number of moves to the first node ending with 'Z', an id the network lacks, or no end within the fuel. */
  datatype Walk = Reached(count: nat) | Missing | Unfinished

  /** What `main` does: prints the lcm, returns the input error, panics, or walks on past the fuel. */
  datatype Outcome = Printed(result: nat) | InputError | Panicked | Unended

  function DirectionOf(c: char): Option<Direction> {
    match c
    case 'L' => Some(Left)
    case 'R' => Some(Right)
    case _ => None
  }

  /** The directions of the first line, None when a char is neither 'L' nor 'R'. */
  function Directions(line: string): Option<seq<Direction>> {
    Gathered(seq(|line|, i requires 0 <= i < |line| => DirectionOf(line[i])))
  }

  /** The left id of the first comma piece: trimmed, stripped of '(' and trimmed again. */
  function LeftSide(piece: string): string {
    Trim(TrimMatches(Trim(piece), '('))
  }

  /** The right id of a later comma piece: trimmed, stripped of ')' and trimmed again. */
  function RightSide(piece: string): string {
    Trim(TrimMatches(Trim(piece), ')'))
  }

  /**
   * The left and right ids after the first j comma pieces of `ps`, starting
   * from `left` and `right`: the first piece sets the left id, every later
   * one the right id.
   */
  function Sides(ps: seq<string>, j: nat, left: string, right: string): (string, string)
    requires j <= |ps|
  {
    if j == 0 then (left, right)
    else
      var (l, r) := Sides(ps, j - 1, left, right);
      if j == 1 then (LeftSide(ps[0]), r) else (l, RightSide(ps[j - 1]))
  }

  /**
   * The node after the first j '=' pieces of `eqs`, starting from ids "000":
   * the first piece, trimmed, is the id, every later one is split on ',' for
   * the sides.
   */
  function Fields(eqs: seq<string>, j: nat): Node
    requires j <= |eqs|
  {
    if j == 0 then Node("000", "000", "000")
    else
      var n := Fields(eqs, j - 1);
      if j == 1 then n.(id := Trim(eqs[0]))
      else
        var ps := Split(eqs[j - 1], ',');
        var (l, r) := Sides(ps, |ps|, n.left, n.right);
        n.(left := l, right := r)
  }

  function NodeOf(line: string): Node {
    var eqs := Split(line, '=');
    Fields(eqs, |eqs|)
  }

  /** The node of every line. */
  function NodeList(ls: seq<string>): (ns: seq<Node>)
    ensures |ns| == |ls| && forall k :: 0 <= k < |ls| ==> ns[k] == NodeOf(ls[k])
  {
    seq(|ls|, k requires 0 <= k < |ls| => NodeOf(ls[k]))
  }

  /** The map after inserting the nodes from index 2 up to index i - 1, in turn. */
  function Inserted(ns: seq<Node>, i: nat): Network
    requires i <= |ns|
  {
    if i <= 2 then map[] else Inserted(ns, i - 1)[ns[i - 1].id := ns[i - 1]]
  }

  /** What `get_input` returns for the file content: line 1 is skipped. */
  function Input(content: string): Option<(Network, seq<Direction>)> {
    Loaded(Lines(content))
  }

  /** What the loop of `get_input` makes of the lines. */
  function Loaded(ls: seq<string>): Option<(Network, seq<Direction>)> {
    if ls == [] then Some((map[], []))
    else
      match Directions(ls[0])
      case None => None
      case Some(ds) => Some((Inserted(NodeList(ls), |ls|), ds))
  }

  /** The directions of the first line, pushed one char at a time. */
  method ReadDirections(line: string) returns (r: Option<seq<Direction>>)
    ensures r == Directions(line)
  {
    ghost var xs := seq(|line|, i requires 0 <= i < |line| => DirectionOf(line[i]));
    var ds: seq<Direction> := [];
    for i := 0 to |line|
      invariant |ds| == i && forall k :: 0 <= k < i ==> xs[k] == Some(ds[k])
    {
      match line[i]
      case 'L' =>
        ds := ds + [Left];
      case 'R' =>
        ds := ds + [Right];
      case _ =>
        GatheredNone(xs, i);
        return None;
    }
    GatheredAll(xs, ds);
    return Some(ds);
  }

  /** The inner loop over the comma pieces of one '=' piece. */
  method ReadSides(ps: seq<string>, left: string, right: string) returns (l: string, r: string)
    ensures (l, r) == Sides(ps, |ps|, left, right)
  {
    l, r := left, right;
    for j := 0 to |ps|
      invariant (l, r) == Sides(ps, j, left, right)
    {
      if j == 0 {
        l := LeftSide(ps[j]);
      } else {
        r := RightSide(ps[j]);
      }
    }
  }

  /** The node of one line, from the loop over its '=' pieces. */
  method ReadNode(line: string) returns (n: Node)
    ensures n == NodeOf(line)
  {
    var eqs := Split(line, '=');
    var id, left, right := "000", "000", "000";
    for j := 0 to |eqs|
      invariant Node(id, left, right) == Fields(eqs, j)
    {
      if j == 0 {
        id := Trim(eqs[j]);
      } else {
        var ps := Split(eqs[j], ',');
        left, right := ReadSides(ps, left, right);
      }
    }
    n := Node(id, left, right);
  }

  /** `get_input` on the file content. */
  method GetInput(content: string) returns (r: Option<(Network, seq<Direction>)>)
    ensures r == Input(content)
  {
    r := LoadLines(Lines(content));
  }

  /**
   * The loop of `get_input` over the lines: its first pass reads the
   * directions and returns the error, its second skips the line.
   */
  method LoadLines(ls: seq<string>) returns (r: Option<(Network, seq<Direction>)>)
    ensures r == Loaded(ls)
  {
    if ls == [] {
      return Some((map[], []));
    }
    var directions := ReadDirections(ls[0]);
    if directions.None? {
      return None;
    }
    var nodes := ReadNodes(ls);
    return Some((nodes, directions.value));
  }

  /** The passes of the loop from line 2 on: each line's node is inserted under its id. */
  method ReadNodes(ls: seq<string>) returns (nodes: Network)
    ensures nodes == Inserted(NodeList(ls), |ls|)
  {
    nodes := map[];
    var i := 2;
    while i < |ls|
      invariant nodes == Inserted(NodeList(ls), if i <= |ls| then i else |ls|)
    {
      var node := ReadNode(ls[i]);
      nodes := nodes[node.id := node];
      i := i + 1;
    }
  }

  /** The direction of move k + 1. */
  function DirectionAt(dirs: seq<Direction>, k: nat): Direction
    requires |dirs| > 0
  {
    dirs[Wasteland.Phase(|dirs|, k)]
  }

  /** The node reached after k moves from the node `start`, None once a node is missing. */
  function Position(net: Network, dirs: seq<Direction>, start: string, k: nat): Option<Node>
    requires |dirs| > 0 || k == 0
  {
    if k == 0 then (if start in net then Some(net[start]) else None)
    else
      match Position(net, dirs, start, k - 1)
      case None => None
      case Some(n) =>
        var next := if DirectionAt(dirs, k - 1) == Left then n.left else n.right;
        if next in net then Some(net[next]) else None
  }

  predicate AtEnd(p: Option<Node>) {
    p.Some? && EndsWith(p.value.id, "Z")
  }

  /** The walk from move k on, with the position after k - 1 moves known. */
  function WalkFrom(net: Network, dirs: seq<Direction>, start: string, k: nat, fuel: nat): Walk
    requires |dirs| > 0 && k >= 1
    decreases fuel + 1 - k
  {
    if k > fuel then Unfinished
    else
      match Position(net, dirs, start, k)
      case None => Missing
      case Some(n) => if EndsWith(n.id, "Z") then Reached(k) else WalkFrom(net, dirs, start, k + 1, fuel)
  }

  /** The walk of `compute_steps` within `fuel` moves; with no directions it never ends. */
  function WalkOf(net: Network, dirs: seq<Direction>, start: string, fuel: nat): Walk {
    if start !in net then Missing
    else if dirs == [] then Unfinished
    else WalkFrom(net, dirs, start, 1, fuel)
  }

  /** After `count` moves within the fuel the walk is at `current`, and what remains of it decides the outcome. */
  predicate OnTheWay(net: Network, dirs: seq<Direction>, start: string, fuel: nat, count: nat, current: Node) {
    |dirs| > 0 && count <= fuel && Position(net, dirs, start, count) == Some(current) &&
    WalkOf(net, dirs, start, fuel) == WalkFrom(net, dirs, start, count + 1, fuel)
  }

  /** The walk at its start. */
  lemma WalkStart(net: Network, dirs: seq<Direction>, start: string, fuel: nat)
    requires start in net && |dirs| > 0
    ensures OnTheWay(net, dirs, start, fuel, 0, net[start])
  {
  }

  /** One move of the walk, from the node after `count` moves. */
  lemma WalkStep(net: Network, dirs: seq<Direction>, start: string, fuel: nat, count: nat, current: Node, next: string)
    requires OnTheWay(net, dirs, start, fuel, count, current) && count < fuel
    requires next == if DirectionAt(dirs, count) == Left then current.left else current.right
    ensures next !in net ==> WalkOf(net, dirs, start, fuel) == Missing
    ensures next in net && EndsWith(net[next].id, "Z") ==> WalkOf(net, dirs, start, fuel) == Reached(count + 1)
    ensures next in net && !EndsWith(net[next].id, "Z") ==> OnTheWay(net, dirs, start, fuel, count + 1, net[next])
  {
  }

  /** Past the fuel the walk is unfinished. */
  lemma WalkOut(net: Network, dirs: seq<Direction>, start: string, fuel: nat, current: Node)
    requires OnTheWay(net, dirs, start, fuel, fuel, current)
    ensures WalkOf(net, dirs, start, fuel) == Unfinished
  {
  }

  /**
   * `compute_steps`: the directions over and over, each move to the left or
   * right node, counted, then the id tested for a final 'Z'.  The walk is
   * cut after `fuel` moves.
   */
  method ComputeSteps(start: string, net: Network, dirs: seq<Direction>, fuel: nat) returns (r: Walk)
    ensures r == WalkOf(net, dirs, start, fuel)
  {
    if start !in net {
      return Missing;
    }
    if dirs == [] {
      return Unfinished;
    }
    var count: nat := 0;
    var current := net[start];
    WalkStart(net, dirs, start, fuel);
    while count < fuel
      invariant OnTheWay(net, dirs, start, fuel, count, current)
      invariant count < fuel ==> Wasteland.Phase(|dirs|, count) == 0
      decreases fuel - count
    {
      var i := 0;
      ghost var before := count;
      while i < |dirs| && count < fuel
        invariant i <= |dirs| && count == before + i
        invariant OnTheWay(net, dirs, start, fuel, count, current)
        invariant Wasteland.Phase(|dirs|, count) == if i == |dirs| then 0 else i
        decreases fuel - count
      {
        var next := if dirs[i] == Left then current.left else current.right;
        WalkStep(net, dirs, start, fuel, count, current, next);
        if next !in net {
          return Missing;
        }
        current := net[next];
        Wasteland.PhaseNext(|dirs|, count);
        count := count + 1;
        if EndsWith(current.id, "Z") {
          return Reached(count);
        }
        i := i + 1;
      }
    }
    WalkOut(net, dirs, start, fuel, current);
    return Unfinished;
  }

  /** Move n is the first move from move k on onto an id ending with 'Z', and every move before it found its node. */
  predicate FirstEnd(net: Network, dirs: seq<Direction>, start: string, k: nat, n: nat)
    requires |dirs| > 0
  {
    k <= n && AtEnd(Position(net, dirs, start, n)) &&
    forall j :: k <= j < n ==> Position(net, dirs, start, j).Some? && !AtEnd(Position(net, dirs, start, j))
  }

  /** The walk from move k reaches its end at move n exactly when n is within the fuel and the first end from move k on. */
  lemma {:induction false} WalkFromFirst(net: Network, dirs: seq<Direction>, start: string, k: nat, fuel: nat, n: nat)
    requires |dirs| > 0 && k >= 1
    ensures WalkFrom(net, dirs, start, k, fuel) == Reached(n) <==> n <= fuel && FirstEnd(net, dirs, start, k, n)
    decreases fuel + 1 - k
  {
    var p := Position(net, dirs, start, k);
    if k > fuel {
      assert WalkFrom(net, dirs, start, k, fuel) == Unfinished;
    } else if p.None? {
      assert WalkFrom(net, dirs, start, k, fuel) == Missing;
      assert !FirstEnd(net, dirs, start, k, n) by {
        if n > k {
          assert !(Position(net, dirs, start, k).Some?);
        }
      }
    } else if AtEnd(p) {
      assert WalkFrom(net, dirs, start, k, fuel) == Reached(k);
      assert FirstEnd(net, dirs, start, k, n) <==> n == k by {
        if n > k {
          assert AtEnd(Position(net, dirs, start, k));
        }
      }
    } else {
      assert WalkFrom(net, dirs, start, k, fuel) == WalkFrom(net, dirs, start, k + 1, fuel);
      WalkFromFirst(net, dirs, start, k + 1, fuel, n);
      assert FirstEnd(net, dirs, start, k, n) <==> FirstEnd(net, dirs, start, k + 1, n) by {
        if n == k {
          assert !AtEnd(Position(net, dirs, start, n));
        }
      }
    }
  }

  /**
   * The count of `compute_steps` is the first move onto an id ending with
   * 'Z': at least 1, since the start itself is never tested.
   */
  lemma StepsFirst(net: Network, dirs: seq<Direction>, start: string, fuel: nat, n: nat)
    ensures WalkOf(net, dirs, start, fuel) == Reached(n) <==>
      start in net && |dirs| > 0 && 1 <= n <= fuel && FirstEnd(net, dirs, start, 1, n)
  {
    if start in net && |dirs| > 0 {
      WalkFromFirst(net, dirs, start, 1, fuel, n);
    }
  }

  /** A start that ends with 'Z' and leads to itself is one move from its end, not zero. */
  lemma StartNotTested()
    ensures WalkOf(map["ZZZ" := Node("ZZZ", "ZZZ", "ZZZ")], [Left], "ZZZ", 1) == Reached(1)
  {
    var net := map["ZZZ" := Node("ZZZ", "ZZZ", "ZZZ")];
    assert Position(net, [Left], "ZZZ", 0) == Some(net["ZZZ"]);
    assert DirectionAt([Left], 0) == Left;
    assert Position(net, [Left], "ZZZ", 1) == Some(net["ZZZ"]);
  }

  /** The starts `main` collects: every id of the network ending with 'A', once each, in the map's iteration order. */
  predicate Starts(net: Network, order: seq<string>) {
    (forall k :: 0 <= k < |order| ==> order[k] in net && EndsWith(order[k], "A")) &&
    (forall id :: id in net && EndsWith(id, "A") ==> id in order) &&
    (forall j, k :: 0 <= j < k < |order| ==> order[j] != order[k])
  }

  /**
   * The lcm fold of `main` over the starts: a missing node panics at an
   * `unwrap`, an lcm past `usize::MAX` overflows, and an unfinished walk
   * keeps the program walking.
   */
  function Combined(net: Network, dirs: seq<Direction>, order: seq<string>, fuel: nat): Outcome
    decreases |order|
  {
    if order == [] then Printed(1)
    else
      match Combined(net, dirs, order[..|order| - 1], fuel)
      case Printed(res) =>
        (match WalkOf(net, dirs, order[|order| - 1], fuel)
         case Reached(n) =>
           var l := Wasteland.Lcm(res, n);
           if l > UsizeMax then Panicked else Printed(l)
         case Missing => Panicked
         case Unfinished => Unended)
      case other => other
  }

  /** `main` on the file content, with the starts in the given order. */
  function Answer(content: string, order: seq<string>, fuel: nat): Outcome {
    match Input(content)
    case None => InputError
    case Some((net, dirs)) => Combined(net, dirs, order, fuel)
  }

  /** `main`: the input, then the lcm of the walks of the starts in the map's order. */
  method Run(content: string, order: seq<string>, fuel: nat) returns (o: Outcome)
    requires Input(content).Some? ==> Starts(Input(content).value.0, order)
    ensures o == Answer(content, order, fuel)
  {
    var input := GetInput(content);
    if input.None? {
      return InputError;
    }
    o := FoldSteps(input.value.0, input.value.1, order, fuel);
  }

  /** The loop of `main` that folds the walks' counts from 1 with `lcm`. */
  method FoldSteps(net: Network, dirs: seq<Direction>, order: seq<string>, fuel: nat) returns (o: Outcome)
    requires Starts(net, order)
    ensures o == Combined(net, dirs, order, fuel)
  {
    var res: nat := 1;
    for k := 0 to |order|
      invariant Combined(net, dirs, order[..k], fuel) == Printed(res)
    {
      var w := ComputeSteps(order[k], net, dirs, fuel);
      var l := if w.Reached? then Wasteland.Lcm(res, w.count) else 0;
      CombinedNext(net, dirs, order, fuel, k, res);
      if w.Missing? || (w.Reached? && l > UsizeMax) {
        CombinedStays(net, dirs, order, fuel, k + 1);
        return Panicked;
      } else if w.Unfinished? {
        CombinedStays(net, dirs, order, fuel, k + 1);
        return Unended;
      }
      res := l;
    }
    assert order[..|order|] == order;
    return Printed(res);
  }

  /** One start more in the fold, after a printed prefix. */
  lemma CombinedNext(net: Network, dirs: seq<Direction>, order: seq<string>, fuel: nat, k: nat, res: nat)
    requires k < |order| && Combined(net, dirs, order[..k], fuel) == Printed(res)
    ensures Combined(net, dirs, order[..k + 1], fuel) ==
      match WalkOf(net, dirs, order[k], fuel)
      case Reached(n) => (if Wasteland.Lcm(res, n) > UsizeMax then Panicked else Printed(Wasteland.Lcm(res, n)))
      case Missing => Panicked
      case Unfinished => Unended
  {
    assert order[..k + 1][..k] == order[..k];
    assert order[..k + 1][k] == order[k];
  }

  /** Once the fold stops printing, more starts do not change its outcome. */
  lemma {:induction false} CombinedStays(net: Network, dirs: seq<Direction>, order: seq<string>, fuel: nat, k: nat)
    requires k <= |order| && !Combined(net, dirs, order[..k], fuel).Printed?
    ensures Combined(net, dirs, order, fuel) == Combined(net, dirs, order[..k], fuel)
    decreases |order| - k
  {
    if k < |order| {
      assert order[..k + 1][..k] == order[..k];
      CombinedStays(net, dirs, order, fuel, k + 1);
    } else {
      assert order[..k] == order;
    }
  }

  /**
   * A printed result is positive, at most `usize::MAX`, and a multiple of
   * the count of every start's walk, each of which reached its end.
   */
  lemma {:induction false} AnswerDivides(net: Network, dirs: seq<Direction>, order: seq<string>, fuel: nat, res: nat)
    requires Combined(net, dirs, order, fuel) == Printed(res)
    ensures 0 < res <= UsizeMax
    ensures forall k :: 0 <= k < |order| ==> Divides(WalkOf(net, dirs, order[k], fuel), res)
    decreases |order|
  {
    if order != [] {
      var front := order[..|order| - 1];
      var prev, n := CombinedLast(net, dirs, order, fuel, res);
      AnswerDivides(net, dirs, front, fuel, prev);
      Wasteland.LcmMultiple(prev, n);
      forall k | 0 <= k < |front|
        ensures Divides(WalkOf(net, dirs, order[k], fuel), res)
      {
        assert front[k] == order[k];
        Wasteland.LcmKeeps(prev, n, WalkOf(net, dirs, order[k], fuel).count);
      }
    }
  }

  /** The walk reached its end after a positive count that divides `res`. */
  predicate Divides(w: Walk, res: nat) {
    w.Reached? && w.count > 0 && res % w.count == 0
  }

  /** A printed fold over a start more is the lcm of the fold before it and that start's count. */
  lemma CombinedLast(net: Network, dirs: seq<Direction>, order: seq<string>, fuel: nat, res: nat) returns (prev: nat, n: nat)
    requires order != [] && Combined(net, dirs, order, fuel) == Printed(res)
    ensures Combined(net, dirs, order[..|order| - 1], fuel) == Printed(prev)
    ensures WalkOf(net, dirs, order[|order| - 1], fuel) == Reached(n) && n > 0
    ensures res == Wasteland.Lcm(prev, n) && res <= UsizeMax
  {
    prev := Combined(net, dirs, order[..|order| - 1], fuel).result;
    n := WalkOf(net, dirs, order[|order| - 1], fuel).count;
    StepsFirst(net, dirs, order[|order| - 1], fuel, n);
  }

  /** The letter of a direction in the first line. */
  function Letter(d: Direction): char {
    if d == Left then 'L' else 'R'
  }

  function Letters(ds: seq<Direction>): (s: string)
    ensures |s| == |ds| && forall i :: 0 <= i < |ds| ==> s[i] == Letter(ds[i])
  {
    seq(|ds|, i requires 0 <= i < |ds| => Letter(ds[i]))
  }

  /** The directions written out read back; a line with any other char is an error. */
  lemma DirectionsRead(ds: seq<Direction>, line: string)
    ensures Directions(Letters(ds)) == Some(ds)
    ensures Directions(line).None? <==> exists i :: 0 <= i < |line| && line[i] != 'L' && line[i] != 'R'
  {
    var s := Letters(ds);
    var xs := seq(|s|, i requires 0 <= i < |s| => DirectionOf(s[i]));
    assert forall k :: 0 <= k < |xs| ==> xs[k] == Some(ds[k]);
    GatheredAll(xs, ds);
    var ys := seq(|line|, i requires 0 <= i < |line| => DirectionOf(line[i]));
    assert forall k :: 0 <= k < |ys| ==> (ys[k].Some? <==> line[k] == 'L' || line[k] == 'R');
  }

  /** An id as the puzzle writes it: not empty, no whitespace, no '=', ',', '(' or ')'. */
  predicate IsLabel(s: string) {
    |s| > 0 && forall i :: 0 <= i < |s| ==> !IsWhitespace(s[i]) && s[i] !in "=,()\n"
  }

  predicate WellFormed(n: Node) {
    IsLabel(n.id) && IsLabel(n.left) && IsLabel(n.right)
  }

  /** A node as the puzzle writes it: `AAA = (BBB, CCC)`. */
  function NodeLine(n: Node): string {
    n.id + " = (" + n.left + ", " + n.right + ")"
  }

  /** A trailing blank after an id trims away. */
  lemma TrimmedLabel(a: string, b: string)
    requires IsLabel(a) && forall i :: 0 <= i < |b| ==> IsWhitespace(b[i])
    ensures Trim(a + b) == a
  {
    TrimAround("", a, b);
    assert "" + a + b == a + b;
  }

  /** `(BBB` after a blank reads as BBB. */
  lemma LeftRead(b: string)
    requires IsLabel(b)
    ensures LeftSide(" (" + b) == b
  {
    var sp, t := " ", "(" + b;
    assert " (" + b == sp + t + "";
    TrimAround(sp, t, "");
    TrimMatchesFront('(', b);
    TrimFixed(b);
  }

  /** A leading c on a text without c is stripped. */
  lemma TrimMatchesFront(c: char, b: string)
    requires c !in b
    ensures TrimMatches([c] + b, c) == b
  {
    assert ([c] + b)[1..] == b;
  }

  /** A trailing c after a text that does not start with c and holds none is stripped. */
  lemma TrimMatchesBack(b: string, c: char)
    requires |b| > 0 && c !in b
    ensures TrimMatches(b + [c], c) == b
  {
    assert (b + [c])[..|b|] == b;
  }

  /** `CCC)` after a blank reads as CCC. */
  lemma RightRead(c: string)
    requires IsLabel(c)
    ensures RightSide(" " + c + ")") == c
  {
    var sp, t := " ", c + ")";
    assert " " + c + ")" == sp + t + "";
    TrimAround(sp, t, "");
    TrimMatchesBack(c, ')');
    TrimFixed(c);
  }

  /** A node written out reads back. */
  lemma NodeRead(n: Node)
    requires WellFormed(n)
    ensures NodeOf(NodeLine(n)) == n
  {
    var a, b := n.id + " ", " (" + n.left + ", " + n.right + ")";
    var l, r := " (" + n.left, " " + n.right + ")";
    SplitNodeLine(n);
    FieldsPair(a, b, [l, r]);
    SidesPair(l, r, "000", "000");
    LabelsRead(n);
  }

  /** The three ids of a node line come out of their pieces. */
  lemma LabelsRead(n: Node)
    requires WellFormed(n)
    ensures Trim(n.id + " ") == n.id && LeftSide(" (" + n.left) == n.left && RightSide(" " + n.right + ")") == n.right
  {
    TrimmedLabel(n.id, " ");
    LeftRead(n.left);
    RightRead(n.right);
  }

  /** A node line splits on '=' after the id and its blank, and the rest splits on ',' after the left id. */
  lemma SplitNodeLine(n: Node)
    requires WellFormed(n)
    ensures Split(NodeLine(n), '=') == [n.id + " ", " (" + n.left + ", " + n.right + ")"]
    ensures Split(" (" + n.left + ", " + n.right + ")", ',') == [" (" + n.left, " " + n.right + ")"]
  {
    var a, b := n.id + " ", " (" + n.left + ", " + n.right + ")";
    assert NodeLine(n) == Join([a, b], "=");
    assert '=' !in a && '=' !in b;
    JoinSplit([a, b], '=');
    var l, r := " (" + n.left, " " + n.right + ")";
    assert b == Join([l, r], ",");
    assert ',' !in l && ',' !in r;
    JoinSplit([l, r], ',');
  }

  /** Two '=' pieces: the id of the first, the sides of the second. */
  lemma FieldsPair(a: string, b: string, ps: seq<string>)
    requires ps == Split(b, ',')
    ensures Fields([a, b], 2) == var (l, r) := Sides(ps, |ps|, "000", "000"); Node(Trim(a), l, r)
  {
    assert Fields([a, b], 1) == Node(Trim(a), "000", "000");
  }

  /** Two comma pieces: the left id of the first, the right id of the second. */
  lemma SidesPair(l: string, r: string, left: string, right: string)
    ensures Sides([l, r], 2, left, right) == (LeftSide(l), RightSide(r))
  {
    assert Sides([l, r], 1, left, right) == (LeftSide(l), right);
  }

  /** Every key of the map is the id of a node before index i. */
  lemma {:induction false} KeyLine(ns: seq<Node>, i: nat, id: string) returns (k: nat)
    requires i <= |ns| && id in Inserted(ns, i)
    ensures 2 <= k < i && ns[k].id == id
  {
    if ns[i - 1].id == id {
      k := i - 1;
    } else {
      k := KeyLine(ns, i - 1, id);
    }
  }

  /** The id of every node from index 2 up to i - 1 is a key of the map. */
  lemma {:induction false} LineKey(ns: seq<Node>, i: nat, k: nat)
    requires 2 <= k < i <= |ns|
    ensures ns[k].id in Inserted(ns, i)
  {
    if k < i - 1 {
      LineKey(ns, i - 1, k);
    }
  }

  /** Index k holds the last node before index i with the given id. */
  predicate LastWith(ns: seq<Node>, i: nat, id: string, k: nat) {
    2 <= k < i <= |ns| && ns[k].id == id && forall j :: k < j < i ==> ns[j].id != id
  }

  /** An id maps to the last node with that id: a later node overwrites an earlier one. */
  lemma {:induction false} LastWins(ns: seq<Node>, i: nat, id: string, k: nat)
    requires LastWith(ns, i, id, k)
    ensures id in Inserted(ns, i) && Inserted(ns, i)[id] == ns[k]
  {
    if k < i - 1 {
      LastWins(ns, i - 1, id, k);
    }
  }

  function NodeLines(ns: seq<Node>): (ls: seq<string>)
    ensures |ls| == |ns| && forall k :: 0 <= k < |ns| ==> ls[k] == NodeLine(ns[k])
  {
    seq(|ns|, k requires 0 <= k < |ns| => NodeLine(ns[k]))
  }

  /** A puzzle file: the directions, a blank line, then one node per line, every line ended by a newline. */
  function Sheet(dirs: seq<Direction>, ns: seq<Node>): string {
    Join([Letters(dirs), ""] + NodeLines(ns), "\n") + "\n"
  }

  /** The lines of a puzzle file. */
  lemma SheetLines(dirs: seq<Direction>, ns: seq<Node>)
    requires forall k :: 0 <= k < |ns| ==> WellFormed(ns[k])
    ensures Lines(Sheet(dirs, ns)) == [Letters(dirs), ""] + NodeLines(ns)
  {
    var ls := [Letters(dirs), ""] + NodeLines(ns);
    forall k | 0 <= k < |ls|
      ensures '\n' !in ls[k]
    {
      if k >= 2 {
        var n := ns[k - 2];
        assert ls[k] == n.id + " = (" + n.left + ", " + n.right + ")";
        assert '\n' !in n.id && '\n' !in n.left && '\n' !in n.right;
      }
    }
    LinesJoinEnd(ls);
  }

  /**
   * A puzzle file whose node ids are distinct reads back: the directions,
   * and a map from every id to its node with no other key.
   */
  lemma SheetInput(dirs: seq<Direction>, ns: seq<Node>)
    requires forall k :: 0 <= k < |ns| ==> WellFormed(ns[k])
    requires forall j, k :: 0 <= j < k < |ns| ==> ns[j].id != ns[k].id
    ensures Input(Sheet(dirs, ns)).Some? && Input(Sheet(dirs, ns)).value.1 == dirs
    ensures forall k :: 0 <= k < |ns| ==> ns[k].id in Input(Sheet(dirs, ns)).value.0 && Input(Sheet(dirs, ns)).value.0[ns[k].id] == ns[k]
    ensures forall id :: id in Input(Sheet(dirs, ns)).value.0 ==> exists k :: 0 <= k < |ns| && ns[k].id == id
  {
    SheetLines(dirs, ns);
    var ls := [Letters(dirs), ""] + NodeLines(ns);
    DirectionsRead(dirs, "");
    var xs := NodeList(ls);
    forall k | 0 <= k < |ns|
      ensures xs[k + 2] == ns[k]
    {
      AfterTwo(Letters(dirs), "", NodeLines(ns), k);
      SheetNode(ls, ns, k);
    }
    assert Loaded(ls) == Some((Inserted(xs, |ls|), dirs));
    DistinctInserted(xs, ns);
  }

  lemma AfterTwo<T>(a: T, b: T, xs: seq<T>, k: nat)
    requires k < |xs|
    ensures ([a, b] + xs)[k + 2] == xs[k]
  {
  }

  /** The node of line k + 2 of a puzzle file is node k. */
  lemma SheetNode(ls: seq<string>, ns: seq<Node>, k: nat)
    requires |ls| == |ns| + 2 && k < |ns| && WellFormed(ns[k])
    requires ls[k + 2] == NodeLines(ns)[k]
    ensures NodeList(ls)[k + 2] == ns[k]
  {
    NodeRead(ns[k]);
  }

  /** Inserting nodes with distinct ids after two ignored ones maps every id to its node, and nothing else. */
  lemma DistinctInserted(xs: seq<Node>, ns: seq<Node>)
    requires |xs| == |ns| + 2 && forall k :: 0 <= k < |ns| ==> xs[k + 2] == ns[k]
    requires forall j, k :: 0 <= j < k < |ns| ==> ns[j].id != ns[k].id
    ensures forall k :: 0 <= k < |ns| ==> ns[k].id in Inserted(xs, |xs|) && Inserted(xs, |xs|)[ns[k].id] == ns[k]
    ensures forall id :: id in Inserted(xs, |xs|) ==> exists k :: 0 <= k < |ns| && ns[k].id == id
  {
    var net := Inserted(xs, |xs|);
    forall k | 0 <= k < |ns|
      ensures ns[k].id in net && net[ns[k].id] == ns[k]
    {
      forall j | k + 2 < j < |xs|
        ensures xs[j].id != ns[k].id
      {
        assert xs[j] == ns[j - 2];
      }
      LastWins(xs, |xs|, ns[k].id, k + 2);
    }
    forall id | id in net
      ensures exists k :: 0 <= k < |ns| && ns[k].id == id
    {
      var j := KeyLine(xs, |xs|, id);
      assert ns[j - 2].id == id;
    }
  }
}
