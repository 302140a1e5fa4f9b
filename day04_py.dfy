/**
 * py/04/prog.py: `parse_data` makes one dict per line (the id after "Card"
 * in the text before ':', the ints of the two lists around '|', "matches"
 * 0 and "copies" 1); `compute_copies` counts every drawn number that is a
 * winning one into "matches", then, card by card, adds one copy to each of
 * the "matches" cards after it, once per copy it holds; the answer is the
 * sum of the copies.  An IndexError or ValueError ends the program with no
 * answer (None).  `compute_score`, the first question, is only called from
 * inside a string literal.
 */
module Day04Py {
  import opened Wrappers
  import opened Text
  import opened Scratchcards
  import Day03Py

  /** The dict of a card: its keys "id", "win_list", "got_list", "matches" and "copies". */
  datatype Dico = Dico(id: int, winList: seq<int>, gotList: seq<int>, matches: nat, copies: nat)

  /** `[x for x in s.split(" ") if x != '']`: the pieces that are not empty, in order. */
  function Filled(pieces: seq<string>): (r: seq<string>)
    ensures forall w :: w in r <==> w in pieces && w != ""
    decreases |pieces|
  {
    if pieces == [] then []
    else (if pieces[0] == "" then [] else [pieces[0]]) + Filled(pieces[1..])
  }

  function Words(s: string): seq<string> {
    Filled(SplitOn(s, " "))
  }

  /** `int(x.strip().rstrip())`. */
  function IntOf(x: string): Option<int> {
    PyInt(TrimEnd(Trim(x)))
  }

  /** The list of words with every word replaced by its int, None at the first int() refuses. */
  function Ints(words: seq<string>): Option<seq<int>> {
    Gathered(seq(|words|, k requires 0 <= k < |words| => IntOf(words[k])))
  }

  /** What `parse_data` makes of one line, None where it raises. */
  function LineDico(line: string): Option<Dico> {
    var parts := Split(line, ':');
    var names := SplitOn(parts[0], "Card");
    if |names| < 2 then None
    else match IntOf(names[1])
      case None => None
      case Some(id) =>
        if |parts| < 2 then None
        else
          var lists := Split(parts[1], '|');
          if |lists| < 2 then None
          else match (Ints(Words(lists[0])), Ints(Words(lists[1])))
            case (Some(win), Some(got)) => Some(Dico(id, win, got, 0, 1))
            case _ => None
  }

  /** What `parse_data` returns, None where it raises. */
  function ParseAll(lines: seq<string>): Option<seq<Dico>> {
    Gathered(seq(|lines|, k requires 0 <= k < |lines| => LineDico(lines[k])))
  }

  /** One of the loops of lines 22-25: the words of a list replaced by their ints in place. */
  method ReadInts(words: seq<string>) returns (r: Option<seq<int>>)
    ensures r == Ints(words)
  {
    ghost var xs := seq(|words|, k requires 0 <= k < |words| => IntOf(words[k]));
    var ints: seq<int> := [];
    for index := 0 to |words|
      invariant |ints| == index
      invariant forall k :: 0 <= k < index ==> xs[k] == Some(ints[k])
    {
      var v := IntOf(words[index]);
      assert xs[index] == v;
      if v.None? {
        GatheredNone(xs, index);
        return None;
      }
      GatheredStep(xs, ints, v.value);
      ints := ints + [v.value];
    }
    GatheredAll(xs, ints);
    return Some(ints);
  }

  /** The body of `parse_data`'s loop. */
  method ParseLine(line: string) returns (r: Option<Dico>)
    ensures r == LineDico(line)
  {
    var parts := Split(line, ':');
    var names := SplitOn(parts[0], "Card");
    if |names| < 2 {
      return None;
    }
    var id := IntOf(names[1]);
    if id.None? {
      return None;
    }
    if |parts| < 2 {
      return None;
    }
    var lists := Split(parts[1], '|');
    if |lists| < 2 {
      return None;
    }
    var win := ReadInts(Words(lists[0]));
    var got := ReadInts(Words(lists[1]));
    if win.None? || got.None? {
      return None;
    }
    return Some(Dico(id.value, win.value, got.value, 0, 1));
  }

  /** `parse_data`: one dict per line, in order. */
  method ParseData(lines: seq<string>) returns (r: Option<seq<Dico>>)
    ensures r == ParseAll(lines)
  {
    ghost var xs := seq(|lines|, k requires 0 <= k < |lines| => LineDico(lines[k]));
    var result: seq<Dico> := [];
    for l := 0 to |lines|
      invariant |result| == l
      invariant forall k :: 0 <= k < l ==> xs[k] == Some(result[k])
    {
      var dico := ParseLine(lines[l]);
      assert xs[l] == dico;
      if dico.None? {
        GatheredNone(xs, l);
        return None;
      }
      GatheredStep(xs, result, dico.value);
      result := result + [dico.value];
    }
    GatheredAll(xs, result);
    return Some(result);
  }

  /**
   * `compute_score`: the score of every dict, which the source stores under
   * "score": 1 for the first drawn number that is a winning one, doubled for
   * every further one.
   */
  method ComputeScore(dicos: seq<Dico>) returns (scores: seq<nat>)
    ensures |scores| == |dicos|
    ensures forall k :: 0 <= k < |dicos| ==> scores[k] == Points(Hits(dicos[k].winList, dicos[k].gotList))
  {
    scores := [];
    for d := 0 to |dicos|
      invariant |scores| == d
      invariant forall k :: 0 <= k < d ==> scores[k] == Points(Hits(dicos[k].winList, dicos[k].gotList))
    {
      var dico := dicos[d];
      var score := 0;
      for j := 0 to |dico.gotList|
        invariant score == Points(Hits(dico.winList, dico.gotList[..j]))
      {
        assert dico.gotList[..j + 1][..j] == dico.gotList[..j];
        if dico.gotList[j] in dico.winList {
          PointsStep(Hits(dico.winList, dico.gotList[..j]));
          if score == 0 {
            score := 1;
          } else {
            score := score * 2;
          }
        }
      }
      assert dico.gotList[..|dico.gotList|] == dico.gotList;
      scores := scores + [score];
    }
  }

  function CopiesOf(vs: seq<Dico>): (r: seq<nat>)
    ensures |r| == |vs| && forall k :: 0 <= k < |vs| ==> r[k] == vs[k].copies
  {
    seq(|vs|, k requires 0 <= k < |vs| => vs[k].copies)
  }

  function MatchesOf(vs: seq<Dico>): (r: seq<nat>)
    ensures |r| == |vs| && forall k :: 0 <= k < |vs| ==> r[k] == vs[k].matches
  {
    seq(|vs|, k requires 0 <= k < |vs| => vs[k].matches)
  }

  /** The dicts after the first loop of `compute_copies`: every hit counted into "matches". */
  function Counted(vs: seq<Dico>): (r: seq<Dico>)
    ensures |r| == |vs|
    ensures forall k :: 0 <= k < |vs| ==> r[k] == vs[k].(matches := vs[k].matches + Hits(vs[k].winList, vs[k].gotList))
  {
    seq(|vs|, k requires 0 <= k < |vs| => vs[k].(matches := vs[k].matches + Hits(vs[k].winList, vs[k].gotList)))
  }

  /** The dicts once `compute_copies` is done: every card holds its instances. */
  function Copied(vs: seq<Dico>): (r: seq<Dico>)
    ensures |r| == |vs|
  {
    var c := Counted(vs);
    seq(|vs|, k requires 0 <= k < |vs| => c[k].(copies := Instances(CopiesOf(c), MatchesOf(c), k)))
  }

  /**
   * The copies of card d added to those after it, with c0 the copies
   * parsed and ms the matches counted: after cards 0 .. d - 1 card k holds
   * its own copies and those won from the cards before it that are done.
   */
  predicate CopiedUpTo(a: seq<Dico>, v: seq<Dico>, c0: seq<nat>, ms: seq<nat>, d: nat)
    requires |a| == |v| == |c0| == |ms| && d <= |v|
  {
    forall k :: 0 <= k < |v| ==> a[k] == v[k].(copies := c0[k] + Inflow(c0, ms, k, Min(d, k)))
  }

  /** `compute_copies` on the list of dicts, updated in place. */
  method ComputeCopies(a: array<Dico>)
    modifies a
    ensures a[..] == Copied(old(a[..]))
  {
    ghost var v0 := a[..];
    CountMatches(a);
    ghost var v1 := a[..];
    ghost var c0, ms := CopiesOf(v1), MatchesOf(v1);
    var maxDicoIndex := a.Length;
    for dicoIndex := 0 to maxDicoIndex
      invariant a.Length == maxDicoIndex
      invariant CopiedUpTo(a[..], v1, c0, ms, dicoIndex)
    {
      AddCopies(a, v1, c0, ms, dicoIndex);
    }
    forall k | 0 <= k < a.Length
      ensures a[k] == Copied(v0)[k]
    {
      assert Min(a.Length, k) == k;
    }
  }

  /** The first loop of `compute_copies`. */
  method CountMatches(a: array<Dico>)
    modifies a
    ensures a[..] == Counted(old(a[..]))
  {
    ghost var v0 := a[..];
    for d := 0 to a.Length
      invariant forall k :: 0 <= k < d ==> a[k] == Counted(v0)[k]
      invariant forall k :: d <= k < a.Length ==> a[k] == v0[k]
    {
      var got := a[d].gotList;
      for j := 0 to |got|
        invariant a[d] == v0[d].(matches := v0[d].matches + Hits(v0[d].winList, got[..j]))
        invariant forall k :: 0 <= k < d ==> a[k] == Counted(v0)[k]
        invariant forall k :: d < k < a.Length ==> a[k] == v0[k]
      {
        assert got[..j + 1][..j] == got[..j];
        if got[j] in a[d].winList {
          a[d] := a[d].(matches := a[d].matches + 1);
        }
      }
      assert got[..|got|] == got;
    }
  }

  /** The cards lo .. hi - 1 with n more copies each. */
  function Raised(s: seq<Dico>, lo: nat, hi: nat, n: nat): (r: seq<Dico>)
    ensures |r| == |s|
    ensures forall k :: 0 <= k < |s| ==> r[k] == if lo <= k < hi then s[k].(copies := s[k].copies + n) else s[k]
  {
    seq(|s|, k requires 0 <= k < |s| => if lo <= k < hi then s[k].(copies := s[k].copies + n) else s[k])
  }

  /** The innermost loop of `compute_copies`: one more copy for each card of the run. */
  method RaiseRun(a: array<Dico>, lo: nat, hi: nat)
    requires lo <= hi <= a.Length
    modifies a
    ensures a[..] == Raised(old(a[..]), lo, hi, 1)
  {
    ghost var s0 := a[..];
    for i := lo to hi
      invariant a[..] == Raised(s0, lo, i, 1)
    {
      a[i] := a[i].(copies := a[i].copies + 1);
    }
  }

  /** n copies, then one more, for every card of the run. */
  lemma RaisedAgain(s: seq<Dico>, lo: nat, hi: nat, n: nat)
    ensures Raised(Raised(s, lo, hi, n), lo, hi, 1) == Raised(s, lo, hi, n + 1)
  {
  }

  /**
   * Card d's instances handed on to the cards of its run, which ends at
   * `min(d + 1 + matches, len)`: cards 0 .. d are done.
   */
  lemma HandedOn(s: seq<Dico>, v: seq<Dico>, c0: seq<nat>, ms: seq<nat>, d: nat)
    requires |s| == |v| == |c0| == |ms| && d < |v| && CopiedUpTo(s, v, c0, ms, d)
    ensures CopiedUpTo(Raised(s, d + 1, Min(d + 1 + ms[d], |v|), Instances(c0, ms, d)), v, c0, ms, d + 1)
  {
    var r := Raised(s, d + 1, Min(d + 1 + ms[d], |v|), Instances(c0, ms, d));
    forall k | 0 <= k < |v|
      ensures r[k] == v[k].(copies := c0[k] + Inflow(c0, ms, k, Min(d + 1, k)))
    {
      if d < k {
        InflowNext(c0, ms, k, d);
      }
    }
  }

  /** When card d's turn comes it holds its instances, and its matches are counted. */
  lemma OwnCopies(s: seq<Dico>, v: seq<Dico>, c0: seq<nat>, ms: seq<nat>, d: nat)
    requires |s| == |v| == |c0| == |ms| && d < |v| && CopiedUpTo(s, v, c0, ms, d) && ms == MatchesOf(v)
    ensures s[d].copies == Instances(c0, ms, d) && s[d].matches == ms[d]
  {
    assert Min(d, d) == d;
  }

  /** One pass of the second loop of `compute_copies`: card d's copies handed on. */
  method AddCopies(a: array<Dico>, ghost v1: seq<Dico>, ghost c0: seq<nat>, ghost ms: seq<nat>, d: nat)
    requires a.Length == |v1| && c0 == CopiesOf(v1) && ms == MatchesOf(v1) && d < a.Length
    requires CopiedUpTo(a[..], v1, c0, ms, d)
    modifies a
    ensures CopiedUpTo(a[..], v1, c0, ms, d + 1)
  {
    ghost var s0 := a[..];
    OwnCopies(s0, v1, c0, ms, d);
    var maxDicoIndex := a.Length;
    var copies := a[d].copies;
    var hi := Min(d + 1 + a[d].matches, maxDicoIndex);
    for nbCopy := 0 to copies
      invariant a[..] == Raised(s0, d + 1, hi, nbCopy)
    {
      RaiseRun(a, d + 1, hi);
      RaisedAgain(s0, d + 1, hi, nbCopy);
    }
    HandedOn(s0, v1, c0, ms, d);
  }

  /** What the program prints for the lines of the file, None when it raises. */
  function Answer(fileLines: seq<string>): Option<nat> {
    match ParseAll(Day03Py.Loaded(fileLines))
    case None => None
    case Some(dicos) => Some(Sum(CopiesOf(Copied(dicos)), |dicos|))
  }

  /** The program: `load_input`, `parse_data`, `compute_copies`, then the sum of the copies. */
  method Run(fileLines: seq<string>) returns (result: Option<nat>)
    ensures result == Answer(fileLines)
  {
    var inputLines := Day03Py.LoadInput(fileLines);
    assert inputLines == Day03Py.Loaded(fileLines);
    var dataDicoList := ParseData(inputLines);
    if dataDicoList.None? {
      return None;
    }
    var total := CopiesSum(dataDicoList.value);
    return Some(total);
  }

  /** `compute_copies` on the dicts, then `result += dico["copies"]` over them. */
  method CopiesSum(dicos: seq<Dico>) returns (total: nat)
    ensures total == Sum(CopiesOf(Copied(dicos)), |dicos|)
  {
    var list := new Dico[|dicos|](k requires 0 <= k < |dicos| => dicos[k]);
    assert list[..] == dicos;
    ComputeCopies(list);
    total := 0;
    for k := 0 to list.Length
      invariant total == Sum(CopiesOf(list[..]), k)
    {
      total := total + list[k].copies;
    }
  }

  /** The hits of the cards, in order. */
  function HitsOf(dicos: seq<Dico>): (r: seq<nat>)
    ensures |r| == |dicos| && forall k :: 0 <= k < |dicos| ==> r[k] == Hits(dicos[k].winList, dicos[k].gotList)
  {
    seq(|dicos|, k requires 0 <= k < |dicos| => Hits(dicos[k].winList, dicos[k].gotList))
  }

  /** Every dict `parse_data` returns starts with no matches and one copy. */
  lemma ParsedFresh(lines: seq<string>, k: nat)
    requires ParseAll(lines).Some? && k < |lines|
    ensures ParseAll(lines).value[k].matches == 0 && ParseAll(lines).value[k].copies == 1
  {
    var xs := seq(|lines|, k requires 0 <= k < |lines| => LineDico(lines[k]));
    LineFresh(lines[k]);
    GatheredFresh(xs, k);
  }

  /** A gathered dict is fresh when the dict it came from was. */
  lemma GatheredFresh(xs: seq<Option<Dico>>, k: nat)
    requires Gathered(xs).Some? && k < |xs|
    requires xs[k].Some? ==> xs[k].value.matches == 0 && xs[k].value.copies == 1
    ensures Gathered(xs).value[k].matches == 0 && Gathered(xs).value[k].copies == 1
  {
  }

  /** A dict made of one line has no matches and one copy. */
  lemma LineFresh(line: string)
    ensures LineDico(line).Some? ==> LineDico(line).value.matches == 0 && LineDico(line).value.copies == 1
  {
  }

  /** Once the copies are handed on, the sum is the total of the instances, a card's matches being its hits. */
  lemma CopiedTotal(dicos: seq<Dico>)
    requires forall k :: 0 <= k < |dicos| ==> dicos[k].matches == 0 && dicos[k].copies == 1
    ensures Sum(CopiesOf(Copied(dicos)), |dicos|) == TotalInstances(Ones(|dicos|), HitsOf(dicos), |dicos|)
  {
    var n := |dicos|;
    var c := Counted(dicos);
    var c0, ms := CopiesOf(c), MatchesOf(c);
    CountedFresh(dicos);
    var s := CopiesOf(Copied(dicos));
    CopiedInstances(dicos);
    SumOfInstances(s, c0, ms, n);
  }

  /** Counting fresh dicts leaves one copy of each and their hits as matches. */
  lemma CountedFresh(dicos: seq<Dico>)
    requires forall k :: 0 <= k < |dicos| ==> dicos[k].matches == 0 && dicos[k].copies == 1
    ensures CopiesOf(Counted(dicos)) == Ones(|dicos|) && MatchesOf(Counted(dicos)) == HitsOf(dicos)
  {
    var c := Counted(dicos);
    assert forall k :: 0 <= k < |dicos| ==> CopiesOf(c)[k] == c[k].copies == 1;
    assert forall k :: 0 <= k < |dicos| ==> MatchesOf(c)[k] == c[k].matches == HitsOf(dicos)[k];
  }

  /** Every card of the copied table holds its instances. */
  lemma CopiedInstances(dicos: seq<Dico>)
    ensures forall k :: 0 <= k < |dicos| ==>
      CopiesOf(Copied(dicos))[k] == Instances(CopiesOf(Counted(dicos)), MatchesOf(Counted(dicos)), k)
  {
  }

  /** When the lines parse, the program prints the total of the instances of the cards read. */
  lemma AnswerInstances(fileLines: seq<string>)
    requires ParseAll(Day03Py.Loaded(fileLines)).Some?
    ensures var dicos := ParseAll(Day03Py.Loaded(fileLines)).value;
      Answer(fileLines) == Some(TotalInstances(Ones(|dicos|), HitsOf(dicos), |dicos|))
  {
    var dicos := ParseAll(Day03Py.Loaded(fileLines)).value;
    forall k | 0 <= k < |dicos|
      ensures dicos[k].matches == 0 && dicos[k].copies == 1
    {
      ParsedFresh(Day03Py.Loaded(fileLines), k);
    }
    CopiedTotal(dicos);
  }

  /** A blank line of the file has no "Card" in it: `split("Card")[1]` raises and nothing is printed. */
  lemma BlankRaises(fileLines: seq<string>, k: nat)
    requires k < |fileLines| && Blank(fileLines[k])
    ensures Answer(fileLines) == None
  {
    var lines := Day03Py.Loaded(fileLines);
    assert |TrimStart(fileLines[k])| == 0;
    assert SplitOn("", "Card") == [""];
    GatheredNone(seq(|lines|, k requires 0 <= k < |lines| => LineDico(lines[k])), k);
  }

  /** A line without ':' raises: it has no "Card" before it, or nothing after it. */
  lemma NoColonRaises(line: string)
    requires ':' !in line
    ensures LineDico(line) == None
  {
  }

  /** Leading spaces only add empty pieces, which the filter drops. */
  lemma {:induction false} SpacesWords(g: string, x: string)
    requires Spaces(g)
    ensures Words(g + x) == Words(x)
    decreases |g|
  {
    if g == [] {
      assert g + x == x;
    } else {
      var s := g + x;
      assert s[..1] == " " && s[1..] == g[1..] + x;
      var pieces := SplitOn(s, " ");
      assert pieces == [""] + SplitOn(s[1..], " ");
      assert pieces[0] == "" && pieces[1..] == SplitOn(s[1..], " ");
      SpacesWords(g[1..], x);
    }
  }

  /** A word and a space are split off together as the first piece. */
  lemma WordWords(w: string, x: string)
    requires w != "" && ' ' !in w
    ensures Words(w + " " + x) == [w] + Words(x)
  {
    SplitOnFront(w, x, ' ');
    var pieces := SplitOn(w + " " + x, " ");
    assert pieces[0] == w && pieces[1..] == SplitOn(x, " ");
  }

  /** A last word with nothing after it is the only piece. */
  lemma LastWord(w: string)
    requires w != "" && ' ' !in w
    ensures Words(w) == [w]
  {
    CharContains(w, ' ');
    assert SplitOn(w, " ") == [w];
    assert [w][0] == w && [w][1..] == [];
    assert Filled([w]) == [w] + Filled([]);
  }

  /** The conditions on words and gaps under which the words come back. */
  predicate Spaced(ws: seq<string>, gaps: seq<string>) {
    && |gaps| == |ws| + 1
    && (forall k :: 0 <= k < |gaps| ==> Spaces(gaps[k]))
    && (forall k :: 0 < k < |ws| ==> |gaps[k]| > 0)
    && (forall k :: 0 <= k < |ws| ==> ws[k] != "" && ' ' !in ws[k])
  }

  /**
   * Words without spaces laid out with runs of spaces around them, at
   * least one between two words, give back the words.
   */
  lemma {:induction false} WordsSpread(ws: seq<string>, gaps: seq<string>)
    requires Spaced(ws, gaps)
    ensures Words(Spread(ws, gaps)) == ws
    decreases |ws|
  {
    if ws == [] {
      SpacesWords(gaps[0], "");
      assert gaps[0] + "" == gaps[0];
      assert SplitOn("", " ") == [""];
    } else {
      var rest := Spread(ws[1..], gaps[1..]);
      assert Spread(ws, gaps) == gaps[0] + (ws[0] + rest);
      SpacesWords(gaps[0], ws[0] + rest);
      if |ws| == 1 && gaps[1] == "" {
        assert rest == "";
        assert ws[0] + rest == ws[0];
        LastWord(ws[0]);
      } else {
        var gs := SpreadTail(ws, gaps);
        WordWords(ws[0], Spread(ws[1..], gs));
        WordsSpread(ws[1..], gs);
        assert [ws[0]] + ws[1..] == ws;
      }
    }
  }

  /** After the first word, a space, then the other words spread over the gaps left. */
  lemma SpreadTail(ws: seq<string>, gaps: seq<string>) returns (gs: seq<string>)
    requires Spaced(ws, gaps) && |ws| > 0 && |gaps[1]| > 0
    ensures Spaced(ws[1..], gs)
    ensures ws[0] + Spread(ws[1..], gaps[1..]) == ws[0] + " " + Spread(ws[1..], gs)
  {
    var g1 := gaps[1];
    gs := [g1[1..]] + gaps[2..];
    assert [[' '] + gs[0]] + gs[1..] == gaps[1..] by {
      assert g1 == [' '] + g1[1..];
    }
    SpreadBlankFront(' ', ws[1..], gs);
    assert forall k :: 0 < k < |gs| ==> gs[k] == gaps[k + 1];
  }

  /** `int(x.strip().rstrip())` reads the decimal digits of a value back as that value. */
  lemma IntOfDecimal(v: nat)
    ensures IntOf(Decimal(v)) == Some(v)
  {
    var d := Decimal(v);
    DecimalTrim(v);
    DecimalWord(v);
    assert !IsWhitespace(d[|d| - 1]);
    assert TrimEnd(d) == d;
    PyIntDigits(d);
  }

  /** A list of numbers as the puzzle writes it parses back to the numbers. */
  lemma NumbersInts(vs: seq<nat>, gaps: seq<string>)
    requires Layout(gaps, |vs|)
    ensures Ints(Words(Numbers(vs, gaps))) == Some(vs)
  {
    var ds := Decimals(vs);
    forall k | 0 <= k < |ds|
      ensures ds[k] != "" && ' ' !in ds[k]
    {
      DecimalLacks(vs[k], ' ');
    }
    assert Spaced(ds, gaps);
    WordsSpread(ds, gaps);
    var xs := seq(|ds|, k requires 0 <= k < |ds| => IntOf(ds[k]));
    forall k | 0 <= k < |ds|
      ensures xs[k] == Some(vs[k])
    {
      IntOfDecimal(vs[k]);
    }
    GatheredAll<int>(xs, vs);
  }

  /** The text before ':' split on "Card": nothing before it, the padded id after it. */
  lemma HeadNames(t: CardText)
    requires WellLaid(t)
    ensures SplitOn(CardHead(t), "Card") == ["", t.pad + Decimal(t.id)]
  {
    var rest := t.pad + Decimal(t.id);
    var h := CardHead(t);
    assert h == "Card" + rest;
    assert h[..4] == "Card" && h[4..] == rest;
    DecimalLacks(t.id, 'C');
    assert 'C' !in rest;
    assert "Card"[0] == 'C';
    LacksChar(rest, "Card", 'C');
  }

  /** The padded id reads back as the id. */
  lemma PaddedId(pad: string, id: nat)
    requires Spaces(pad)
    ensures IntOf(pad + Decimal(id)) == Some(id)
  {
    DecimalWord(id);
    assert forall i :: 0 <= i < |pad| ==> IsWhitespace(pad[i]);
    TrimAround(pad, Decimal(id), "");
    assert pad + Decimal(id) + "" == pad + Decimal(id);
    IntOfDecimal(id);
  }

  /** `parse_data` on a card line as the puzzle writes it: the card's id and numbers, no matches, one copy. */
  lemma LineRoundTrip(t: CardText)
    requires WellLaid(t)
    ensures LineDico(CardLine(t)) == Some(Dico(t.id, t.win, t.got, 0, 1))
  {
    LineSegments(t);
    HeadNames(t);
    PaddedId(t.pad, t.id);
    BodyPieces(t);
    NumbersInts(t.win, t.winGaps);
    NumbersInts(t.got, t.gotGaps);
    LineDicoOf(CardLine(t), CardHead(t), CardBody(t), t.pad + Decimal(t.id), t.id,
      Numbers(t.win, t.winGaps), Numbers(t.got, t.gotGaps), t.win, t.got);
  }

  lemma LineDicoOf(line: string, head: string, body: string, name: string, id: int,
                   w: string, g: string, win: seq<int>, got: seq<int>)
    requires Split(line, ':') == [head, body] && SplitOn(head, "Card") == ["", name] && IntOf(name) == Some(id)
    requires Split(body, '|') == [w, g] && Ints(Words(w)) == Some(win) && Ints(Words(g)) == Some(got)
    ensures LineDico(line) == Some(Dico(id, win, got, 0, 1))
  {
  }

  /** A card line with the spaces after its last number dropped. */
  function Tight(t: CardText): CardText
    requires |t.gotGaps| == |t.got| + 1
  {
    t.(gotGaps := t.gotGaps[..|t.got|] + [""])
  }

  /** `strip()` of a card line read with its newline: the line without the spaces after its last number. */
  lemma TightLine(t: CardText)
    requires WellLaid(t)
    ensures WellLaid(Tight(t)) && Trim(CardLine(t) + "\n") == CardLine(Tight(t))
  {
    var g := t.gotGaps[|t.got|];
    TightSplit(t);
    var d := CardLine(Tight(t));
    LineEnds(Tight(t));
    assert forall i :: 0 <= i < |g| ==> g[i] == ' ';
    TrimAround("", d, g + "\n");
    Regroup(d, g, CardLine(t));
  }

  lemma Regroup(d: string, g: string, s: string)
    requires s == d + g
    ensures "" + d + (g + "\n") == s + "\n"
  {
  }

  /** A card line is its tight form followed by the spaces after its last number. */
  lemma TightSplit(t: CardText)
    requires WellLaid(t)
    ensures WellLaid(Tight(t)) && CardLine(t) == CardLine(Tight(t)) + t.gotGaps[|t.got|]
  {
    var n := |t.got|;
    var front, g := t.gotGaps[..n], t.gotGaps[n];
    assert t.gotGaps == front + [g];
    var u := Tight(t);
    assert u.gotGaps == front + [""];
    SpreadLast(Decimals(t.got), front, g);
    var w := Numbers(t.win, t.winGaps);
    var x := Numbers(u.got, u.gotGaps);
    assert CardBody(t) == w + "|" + x + g;
  }

  /** A card line starts with 'C' and ends with its last digit, or with '|' when no number was drawn. */
  lemma LineEnds(u: CardText)
    requires WellLaid(u) && u.gotGaps[|u.got|] == ""
    ensures |CardLine(u)| > 0 && !IsWhitespace(CardLine(u)[0]) && !IsWhitespace(CardLine(u)[|CardLine(u)| - 1])
  {
    var d := CardLine(u);
    var b := CardBody(u);
    var x := Numbers(u.got, u.gotGaps);
    assert d == CardHead(u) + ":" + b;
    assert d[0] == 'C';
    if |u.got| == 0 {
      assert x == "";
      assert b[|b| - 1] == '|';
    } else {
      var ds := Decimals(u.got);
      DecimalWord(u.got[|u.got| - 1]);
      SpreadEnd(ds, u.gotGaps);
      assert b[|b| - 1] == x[|x| - 1];
    }
    assert d[|d| - 1] == b[|b| - 1];
  }

  /** The file of a table of cards: every card line followed by a newline. */
  function FileLines(ts: seq<CardText>): (r: seq<string>)
    requires AllWellLaid(ts)
    ensures |r| == |ts| && forall k :: 0 <= k < |ts| ==> r[k] == CardLine(ts[k]) + "\n"
  {
    seq(|ts|, k requires 0 <= k < |ts| => CardLine(ts[k]) + "\n")
  }

  /** The dicts of a table of cards, fresh from `parse_data`. */
  function TableDicos(ts: seq<CardText>): (r: seq<Dico>)
    ensures |r| == |ts| && forall k :: 0 <= k < |ts| ==> r[k] == Dico(ts[k].id, ts[k].win, ts[k].got, 0, 1)
  {
    seq(|ts|, k requires 0 <= k < |ts| => Dico(ts[k].id, ts[k].win, ts[k].got, 0, 1))
  }

  /** The hits of the cards of a table, in order. */
  function TableHits(ts: seq<CardText>): (r: seq<nat>)
    ensures |r| == |ts| && forall k :: 0 <= k < |ts| ==> r[k] == Hits<int>(ts[k].win, ts[k].got)
  {
    seq(|ts|, k requires 0 <= k < |ts| => Hits<int>(ts[k].win, ts[k].got))
  }

  /** `parse_data` after `load_input` on the file of a table gives the table's cards. */
  lemma ParseTable(ts: seq<CardText>)
    requires AllWellLaid(ts)
    ensures ParseAll(Day03Py.Loaded(FileLines(ts))) == Some(TableDicos(ts))
  {
    var lines := Day03Py.Loaded(FileLines(ts));
    var xs := seq(|lines|, k requires 0 <= k < |lines| => LineDico(lines[k]));
    forall k | 0 <= k < |ts|
      ensures xs[k] == Some(TableDicos(ts)[k])
    {
      TightLine(ts[k]);
      LineRoundTrip(Tight(ts[k]));
    }
    GatheredAll(xs, TableDicos(ts));
  }

  /**
   * For the file of a table of cards as the puzzle writes it the program
   * prints the total of the instances, a card winning as many cards as it
   * has drawn numbers that are winning ones.
   */
  lemma TableAnswer(ts: seq<CardText>)
    requires AllWellLaid(ts)
    ensures Answer(FileLines(ts)) == Some(TotalInstances(Ones(|ts|), TableHits(ts), |ts|))
  {
    ParseTable(ts);
    AnswerInstances(FileLines(ts));
    TableDicosHits(ts);
  }

  lemma TableDicosHits(ts: seq<CardText>)
    ensures HitsOf(TableDicos(ts)) == TableHits(ts)
  {
    var a, b := HitsOf(TableDicos(ts)), TableHits(ts);
    forall k | 0 <= k < |ts|
      ensures a[k] == b[k]
    {
      assert TableDicos(ts)[k].winList == ts[k].win;
    }
  }

  /** Without a repeated drawn number on a card the hits are the puzzle's matches. */
  lemma HitsAgree(ts: seq<CardText>)
    requires forall k :: 0 <= k < |ts| ==> Distinct(ts[k].got)
    ensures TableHits(ts) == TableMatches(ts)
  {
    forall k | 0 <= k < |ts|
      ensures TableHits(ts)[k] == TableMatches(ts)[k]
    {
      HitsDistinct(ts[k].win, ts[k].got);
      HitsAsInts(ts[k].win, ts[k].got);
    }
  }

  /** Hits do not depend on the numbers being read as `nat` or as `int`. */
  lemma {:induction false} HitsAsInts(win: seq<nat>, got: seq<nat>)
    ensures Hits<int>(win, got) == Hits<nat>(win, got)
  {
    if got != [] {
      HitsAsInts(win, got[..|got| - 1]);
    }
  }
}
