/**
 * The first part of day 8 in Rust (rust/d08_1/src/main.rs): it reads the
 * directions and the nodes, every id cut or padded to three chars, and
 * prints them back.  The walk itself is not part of this program.
 */
module Day08Rust1 {
  import opened Wrappers
  import opened Text

  datatype Direction = Right | Left | Unknown

  /** A `[char; 3]`. */
  type Triple = s: string | |s| == 3 witness "..."

  datatype Node = Node(id: Triple, left: Triple, right: Triple)

  /** What `get_input` gives: the nodes and directions, the error of a bad direction, or a panic at a missing piece. */
  datatype Input = Parsed(nodes: seq<Node>, dirs: seq<Direction>) | BadDirection | IndexPanic

  /** What `main` does: prints, returns the input error, or panics. */
  datatype Outcome = Printed(out: string) | Failed | Panicked

  /** The first three chars of x, and '.' where x is shorter. */
  function Label(x: string): Triple {
    seq(3, k requires 0 <= k < 3 => if k < |x| then x[k] else '.')
  }

  /**
   * `id_converter`: a buffer of three '.' whose first chars are overwritten
   * by those of x, the loop stopping after the third.
   */
  method IdConverter(x: string) returns (r: Triple)
    ensures forall k :: 0 <= k < 3 ==> r[k] == if k < |x| then x[k] else '.'
    ensures r == Label(x)
  {
    var res := new char[3](_ => '.');
    var i := 0;
    while i < |x|
      invariant i <= 2 && i <= |x|
      invariant forall k :: 0 <= k < 3 ==> res[k] == if k < i then x[k] else '.'
    {
      res[i] := x[i];
      if i == 2 {
        break;
      }
      i := i + 1;
    }
    r := res[..];
  }

  /** An id is its first three chars padded with dots: the later chars are ignored. */
  lemma LabelPadded(x: string)
    ensures Label(x) == (x + "...")[..3]
  {
  }

  /** Three chars come back unchanged, whatever follows them. */
  lemma LabelKeeps(a: string, t: string)
    requires |a| == 3
    ensures Label(a + t) == a
  {
  }

  /** The chars of the attribute `attrib`, "NO" for any other name. */
  function AttribText(n: Node, attrib: string): string {
    if attrib == "id" then n.id
    else if attrib == "left" then n.left
    else if attrib == "right" then n.right
    else "NO"
  }

  /** `Node::get_as_str`: the chars of the attribute pushed one by one. */
  method GetAsStr(n: Node, attrib: string) returns (res: string)
    ensures res == AttribText(n, attrib)
  {
    var chars: Triple;
    if attrib == "id" {
      chars := n.id;
    } else if attrib == "left" {
      chars := n.left;
    } else if attrib == "right" {
      chars := n.right;
    } else {
      return "NO";
    }
    res := "";
    for i := 0 to 3
      invariant res == chars[..i]
    {
      res := res + [chars[i]];
    }
  }

  /** Only the three attribute names give three chars; any other name gives "NO". */
  lemma AttribNames(n: Node, attrib: string)
    ensures |AttribText(n, attrib)| == 3 <==> attrib == "id" || attrib == "left" || attrib == "right"
    ensures attrib != "id" && attrib != "left" && attrib != "right" ==> AttribText(n, attrib) == "NO"
  {
  }

  /** The `Display` text of a node. */
  function NodeText(n: Node): string {
    "Node " + AttribText(n, "id") + " => (" + AttribText(n, "left") + ", " + AttribText(n, "right") + ")"
  }

  /** A node's text has its three ids at fixed places, so they can be read back. */
  lemma NodeTextPlaces(n: Node)
    ensures |NodeText(n)| == 22
    ensures NodeText(n)[5..8] == n.id && NodeText(n)[13..16] == n.left && NodeText(n)[18..21] == n.right
  {
  }

  function DirectionOf(c: char): Option<Direction> {
    match c
    case 'R' => Some(Right)
    case 'L' => Some(Left)
    case _ => None
  }

  /** The directions of the first line, None when a char is neither 'R' nor 'L'. */
  function Directions(line: string): Option<seq<Direction>> {
    Gathered(seq(|line|, i requires 0 <= i < |line| => DirectionOf(line[i])))
  }

  /** The left id: the first comma piece without '(' and trimmed. */
  function LeftOf(piece: string): string {
    Trim(Replace(piece, "(", ""))
  }

  /** The right id: the second comma piece without ')' and trimmed. */
  function RightOf(piece: string): string {
    Trim(Replace(piece, ")", ""))
  }

  /** The node of a line that is not empty; None where indexing the second '=' or ',' piece panics. */
  function NodeOf(line: string): Option<Node> {
    var eqs := Split(line, '=');
    if |eqs| < 2 then None
    else
      var commas := Split(eqs[1], ',');
      if |commas| < 2 then None
      else Some(Node(Label(eqs[0]), Label(LeftOf(commas[0])), Label(RightOf(commas[1]))))
  }

  /** What one line after the first gives: nothing when it is empty, a node, or a panic. */
  datatype LineRead = Blank | Read(node: Node) | Broken

  function LineOf(line: string): LineRead {
    if line == "" then Blank
    else
      match NodeOf(line)
      case None => Broken
      case Some(n) => Read(n)
  }

  function LinesRead(ls: seq<string>): (rs: seq<LineRead>)
    ensures |rs| == |ls| && forall k :: 0 <= k < |ls| ==> rs[k] == LineOf(ls[k])
  {
    seq(|ls|, k requires 0 <= k < |ls| => LineOf(ls[k]))
  }

  /** The nodes read from line 1 up to line i - 1, blank lines skipped; None after a panic. */
  function Collected(rs: seq<LineRead>, i: nat): Option<seq<Node>>
    requires 1 <= i <= |rs|
  {
    if i == 1 then Some([])
    else
      match Collected(rs, i - 1)
      case None => None
      case Some(ns) =>
        match rs[i - 1]
        case Blank => Some(ns)
        case Broken => None
        case Read(n) => Some(ns + [n])
  }

  function NodesUpTo(ls: seq<string>, i: nat): Option<seq<Node>>
    requires 1 <= i <= |ls|
  {
    Collected(LinesRead(ls), i)
  }

  /** What the loop of `get_input` makes of the pieces between newlines. */
  function Loaded(ls: seq<string>): Input
    requires |ls| >= 1
  {
    match Directions(ls[0])
    case None => BadDirection
    case Some(ds) =>
      match NodesUpTo(ls, |ls|)
      case None => IndexPanic
      case Some(ns) => Parsed(ns, ds)
  }

  /** `get_input` on the file content, split on '\n'. */
  function InputOf(content: string): Input {
    Loaded(Split(content, '\n'))
  }

  /** The directions of the first line, pushed one char at a time. */
  method ReadDirections(line: string) returns (r: Option<seq<Direction>>)
    ensures r == Directions(line)
  {
    ghost var xs := seq(|line|, i requires 0 <= i < |line| => DirectionOf(line[i]));
    var ds: seq<Direction> := [];
    for i := 0 to |line|
      invariant |ds| == i && forall k :: 0 <= k < i ==> xs[k] == Some(ds[k])
    {
      match line[i]
      case 'R' =>
        ds := ds + [Right];
      case 'L' =>
        ds := ds + [Left];
      case _ =>
        GatheredNone(xs, i);
        return None;
    }
    GatheredAll(xs, ds);
    return Some(ds);
  }

  /** The node of a line that is not empty, from its split pieces. */
  method ReadNode(line: string) returns (r: Option<Node>)
    ensures r == NodeOf(line)
  {
    var eqs := Split(line, '=');
    var id := IdConverter(eqs[0]);
    if |eqs| < 2 {
      return None;
    }
    var commas := Split(eqs[1], ',');
    var left := IdConverter(LeftOf(commas[0]));
    if |commas| < 2 {
      return None;
    }
    var right := IdConverter(RightOf(commas[1]));
    return Some(Node(id, left, right));
  }

  /** Once a line panics the loop is over. */
  lemma {:induction false} PanicStays(rs: seq<LineRead>, i: nat, j: nat)
    requires 1 <= i <= j <= |rs| && Collected(rs, i) == None
    ensures Collected(rs, j) == None
    decreases j - i
  {
    if i < j {
      PanicStays(rs, i + 1, j);
    }
  }

  /** `get_input` on the file content: the first line, then the nodes of the other lines that are not empty. */
  method GetInput(content: string) returns (r: Input)
    ensures r == InputOf(content)
  {
    var ls := Split(content, '\n');
    var directions := ReadDirections(ls[0]);
    if directions.None? {
      return BadDirection;
    }
    var nodes := ReadNodes(ls);
    if nodes.None? {
      return IndexPanic;
    }
    return Parsed(nodes.value, directions.value);
  }

  /** The passes of the loop of `get_input` after the first line. */
  method ReadNodes(ls: seq<string>) returns (r: Option<seq<Node>>)
    requires |ls| >= 1
    ensures r == NodesUpTo(ls, |ls|)
  {
    ghost var rs := LinesRead(ls);
    var nodes: seq<Node> := [];
    for i := 1 to |ls|
      invariant Collected(rs, i) == Some(nodes)
    {
      if ls[i] != "" {
        var node := ReadNode(ls[i]);
        assert rs[i] == if node.None? then Broken else Read(node.value);
        if node.None? {
          PanicStays(rs, i + 1, |ls|);
          return None;
        }
        nodes := nodes + [node.value];
      }
    }
    return Some(nodes);
  }

  function DirectionText(d: Direction): string {
    match d
    case Right => "Right"
    case Left => "Left"
    case Unknown => "Unknown"
  }

  /** Every direction followed by a blank. */
  function DirectionsText(ds: seq<Direction>): string
    decreases |ds|
  {
    if ds == [] then "" else DirectionsText(ds[..|ds| - 1]) + DirectionText(ds[|ds| - 1]) + " "
  }

  /** Every node's text on a line of its own. */
  function NodesText(ns: seq<Node>): string
    decreases |ns|
  {
    if ns == [] then "" else NodesText(ns[..|ns| - 1]) + NodeText(ns[|ns| - 1]) + "\n"
  }

  /** What `main` prints: the directions, a line of '#' between newlines, the nodes. */
  function Report(ns: seq<Node>, ds: seq<Direction>): string {
    DirectionsText(ds) + "\n######################\n" + NodesText(ns)
  }

  /** `main` on the file content. */
  function Answer(content: string): Outcome {
    match InputOf(content)
    case BadDirection => Failed
    case IndexPanic => Panicked
    case Parsed(ns, ds) => Printed(Report(ns, ds))
  }

  /** `main`: the input, then the directions and the nodes printed. */
  method Run(content: string) returns (o: Outcome)
    ensures o == Answer(content)
  {
    var input := GetInput(content);
    if input.BadDirection? {
      return Failed;
    } else if input.IndexPanic? {
      return Panicked;
    }
    var out := "";
    for k := 0 to |input.dirs|
      invariant out == DirectionsText(input.dirs[..k])
    {
      assert input.dirs[..k + 1][..k] == input.dirs[..k];
      out := out + DirectionText(input.dirs[k]) + " ";
    }
    assert input.dirs[..|input.dirs|] == input.dirs;
    out := out + "\n######################\n";
    var lines := "";
    for k := 0 to |input.nodes|
      invariant lines == NodesText(input.nodes[..k])
    {
      assert input.nodes[..k + 1][..k] == input.nodes[..k];
      var id := GetAsStr(input.nodes[k], "id");
      var left := GetAsStr(input.nodes[k], "left");
      var right := GetAsStr(input.nodes[k], "right");
      lines := lines + ("Node " + id + " => (" + left + ", " + right + ")") + "\n";
    }
    assert input.nodes[..|input.nodes|] == input.nodes;
    return Printed(out + lines);
  }

  /** A line with a char other than 'R' and 'L' is an error; the letters of directions read back. */
  lemma DirectionsRead(ds: seq<Direction>, line: string)
    requires forall k :: 0 <= k < |ds| ==> ds[k] != Unknown
    ensures Directions(Letters(ds)) == Some(ds)
    ensures Directions(line).None? <==> exists i :: 0 <= i < |line| && line[i] != 'R' && line[i] != 'L'
  {
    var s := Letters(ds);
    var xs := seq(|s|, i requires 0 <= i < |s| => DirectionOf(s[i]));
    assert forall k :: 0 <= k < |xs| ==> xs[k] == Some(ds[k]);
    GatheredAll(xs, ds);
    var ys := seq(|line|, i requires 0 <= i < |line| => DirectionOf(line[i]));
    assert forall k :: 0 <= k < |ys| ==> (ys[k].Some? <==> line[k] == 'R' || line[k] == 'L');
  }

  function Letters(ds: seq<Direction>): (s: string)
    ensures |s| == |ds| && forall i :: 0 <= i < |ds| ==> s[i] == if ds[i] == Left then 'L' else 'R'
  {
    seq(|ds|, i requires 0 <= i < |ds| => if ds[i] == Left then 'L' else 'R')
  }

  /** An id as the puzzle writes it: three chars, none of them whitespace or punctuation of a node line. */
  predicate IsId(s: string) {
    |s| == 3 && forall i :: 0 <= i < 3 ==> !IsWhitespace(s[i]) && s[i] !in "=,()\n"
  }

  predicate WellFormed(n: Node) {
    IsId(n.id) && IsId(n.left) && IsId(n.right)
  }

  /** A node as the puzzle writes it: `AAA = (BBB, CCC)`. */
  function NodeLine(n: Node): string {
    n.id + " = (" + n.left + ", " + n.right + ")"
  }

  /** A node line splits on '=' after the id and its blank, and the rest on ',' after the left id. */
  lemma SplitNodeLine(n: Node)
    requires WellFormed(n)
    ensures Split(NodeLine(n), '=') == [n.id + " ", " (" + n.left + ", " + n.right + ")"]
    ensures Split(" (" + n.left + ", " + n.right + ")", ',') == [" (" + n.left, " " + n.right + ")"]
  {
    var a, b := n.id + " ", " (" + n.left + ", " + n.right + ")";
    assert NodeLine(n) == Join([a, b], "=");
    assert '=' !in a && '=' !in b;
    JoinSplit([a, b], '=');
    var l, r := " (" + n.left, " " + n.right + ")";
    assert b == Join([l, r], ",");
    assert ',' !in l && ',' !in r;
    JoinSplit([l, r], ',');
  }

  /** `(BBB` after a blank reads as BBB. */
  lemma LeftRead(b: string)
    requires IsId(b)
    ensures LeftOf(" (" + b) == b
  {
    ReplaceCharAppend(" (", b, '(');
    assert Replace(" (", "(", "") == " ";
    LacksChar(b, "(", '(');
    var sp := " ";
    TrimAround(sp, b, "");
    assert sp + b + "" == " " + b;
  }

  /** `CCC)` after a blank reads as CCC. */
  lemma RightRead(c: string)
    requires IsId(c)
    ensures RightOf(" " + c + ")") == c
  {
    var s := " " + c;
    ReplaceCharAppend(s, ")", ')');
    assert Replace(")", ")", "") == "";
    LacksChar(s, ")", ')');
    var sp := " ";
    TrimAround(sp, c, "");
    assert sp + c + "" == s;
  }

  /** A node written out reads back. */
  lemma NodeRead(n: Node)
    requires WellFormed(n)
    ensures NodeOf(NodeLine(n)) == Some(n)
  {
    var line := NodeLine(n);
    SplitNodeLine(n);
    var eqs := Split(line, '=');
    var commas := Split(eqs[1], ',');
    assert commas == [" (" + n.left, " " + n.right + ")"];
    LabelKeeps(n.id, " ");
    LeftRead(n.left);
    RightRead(n.right);
    PiecesRead(line, n, eqs, commas);
  }

  lemma PiecesRead(line: string, n: Node, eqs: seq<string>, commas: seq<string>)
    requires eqs == Split(line, '=') && |eqs| == 2 && commas == Split(eqs[1], ',') && |commas| == 2
    requires Label(eqs[0]) == n.id && Label(LeftOf(commas[0])) == n.left && Label(RightOf(commas[1])) == n.right
    ensures NodeOf(line) == Some(n)
  {
  }

  /** A line that panics ends the loop with a panic. */
  lemma BrokenPanics(rs: seq<LineRead>, i: nat)
    requires 1 <= i < |rs| && rs[i] == Broken
    ensures Collected(rs, |rs|) == None
  {
    if Collected(rs, i).Some? {
      assert Collected(rs, i + 1) == None;
      PanicStays(rs, i + 1, |rs|);
    } else {
      PanicStays(rs, i, |rs|);
    }
  }

  lemma NoEqualsPanics(line: string)
    requires '=' !in line
    ensures NodeOf(line) == None
  {
    assert Split(line, '=') == [line];
  }

  /** A line that is not empty and has no '=' panics at the second piece, and the whole input with it. */
  lemma LinePanics(ls: seq<string>, i: nat)
    requires 1 <= i < |ls| && ls[i] != "" && '=' !in ls[i] && Directions(ls[0]).Some?
    ensures Loaded(ls) == IndexPanic
  {
    var rs := LinesRead(ls);
    NoEqualsPanics(ls[i]);
    assert rs[i] == Broken;
    BrokenPanics(rs, i);
    assert NodesUpTo(ls, |ls|) == None;
  }

  function NodeLines(ns: seq<Node>): (ls: seq<string>)
    ensures |ls| == |ns| && forall k :: 0 <= k < |ns| ==> ls[k] == NodeLine(ns[k])
  {
    seq(|ns|, k requires 0 <= k < |ns| => NodeLine(ns[k]))
  }

  /** A puzzle file: the directions, a blank line, then one node per line, every line ended by a newline. */
  function Sheet(dirs: seq<Direction>, ns: seq<Node>): string {
    Join([Letters(dirs), ""] + NodeLines(ns), "\n") + "\n"
  }

  lemma At<T>(xs: seq<T>, ys: seq<T>, k: nat)
    requires k < |ys|
    ensures (xs + ys)[|xs| + k] == ys[k]
  {
  }

  /** The pieces between the newlines of a puzzle file: its lines and an empty piece after the last newline. */
  lemma SheetPieces(dirs: seq<Direction>, ns: seq<Node>)
    requires forall k :: 0 <= k < |ns| ==> WellFormed(ns[k])
    ensures Split(Sheet(dirs, ns), '\n') == [Letters(dirs), ""] + NodeLines(ns) + [""]
  {
    var ls := [Letters(dirs), ""] + NodeLines(ns);
    var ms := ls + [""];
    forall k | 0 <= k < |ms|
      ensures '\n' !in ms[k]
    {
      if 2 <= k < |ls| {
        At([Letters(dirs), ""], NodeLines(ns), k - 2);
        var n := ns[k - 2];
        assert '\n' !in n.id && '\n' !in n.left && '\n' !in n.right;
        assert ms[k] == n.id + " = (" + n.left + ", " + n.right + ")";
      }
    }
    JoinSplit(ms, '\n');
    JoinEmptyLast(ls, "\n");
  }

  /** The node lines of a puzzle file give its nodes, one line at a time. */
  lemma {:induction false} SheetNodes(rs: seq<LineRead>, ns: seq<Node>, k: nat)
    requires |rs| == |ns| + 3 && rs[1] == Blank && k <= |ns|
    requires forall j :: 0 <= j < |ns| ==> rs[j + 2] == Read(ns[j])
    ensures Collected(rs, k + 2) == Some(ns[..k])
  {
    if k > 0 {
      SheetNodes(rs, ns, k - 1);
      assert ns[..k] == ns[..k - 1] + [ns[k - 1]];
    }
  }

  /** A puzzle file reads back as its nodes and directions, and is printed back as their texts. */
  lemma SheetRead(dirs: seq<Direction>, ns: seq<Node>)
    requires forall k :: 0 <= k < |ns| ==> WellFormed(ns[k])
    requires forall k :: 0 <= k < |dirs| ==> dirs[k] != Unknown
    ensures InputOf(Sheet(dirs, ns)) == Parsed(ns, dirs)
    ensures Answer(Sheet(dirs, ns)) == Printed(Report(ns, dirs))
  {
    SheetPieces(dirs, ns);
    var ls := [Letters(dirs), ""] + NodeLines(ns) + [""];
    var rs := LinesRead(ls);
    forall j | 0 <= j < |ns|
      ensures rs[j + 2] == Read(ns[j])
    {
      SheetLine(dirs, ns, j);
    }
    assert rs[1] == Blank;
    SheetNodes(rs, ns, |ns|);
    assert ns[..|ns|] == ns;
    assert rs[|rs| - 1] == Blank;
    DirectionsRead(dirs, "");
  }

  /** Line j + 2 of a puzzle file is the line of node j. */
  lemma SheetLine(dirs: seq<Direction>, ns: seq<Node>, j: nat)
    requires j < |ns| && WellFormed(ns[j])
    ensures var ls := [Letters(dirs), ""] + NodeLines(ns) + [""]; NodeOf(ls[j + 2]) == Some(ns[j]) && ls[j + 2] != ""
  {
    var ls := [Letters(dirs), ""] + NodeLines(ns) + [""];
    At([Letters(dirs), ""], NodeLines(ns) + [""], j);
    assert ([Letters(dirs), ""] + NodeLines(ns)) + [""] == [Letters(dirs), ""] + (NodeLines(ns) + [""]);
    assert (NodeLines(ns) + [""])[j] == NodeLines(ns)[j];
    NodeRead(ns[j]);
  }
}
