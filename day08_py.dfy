/**
 * The parse, the reindexing and the walks shared by the day 8 Python
 * scripts.  `parse_input` (the same in py/08/prog_2.py, 08/prog_2.py and
 * py/08/prog_1.py) turns the stripped lines into a dict from
 * "instructions" to the moves, 0 for 'L' and 1 for 'R', and from every
 * node's name to the tuple of its neighbours' names.
 * `reindex_as_int_nodes` (the same in the two prog_2.py) numbers the nodes
 * in the dict's order and lists, for every node, the numbers of its two
 * neighbours.  A walk takes the moves in turn, over and over, and tests
 * for its end before every move.
 */
module Day08Py {
  import opened Wrappers
  import opened Text
  import opened Wasteland

  /** A value of the dict: the instruction list, or the tuple of a node's neighbours. */
  datatype Value = Moves(moves: seq<nat>) | Names(names: seq<string>)

  /** A Python dict: its keys in insertion order, and what they map to. */
  datatype Dict = Dict(keys: seq<string>, values: map<string, Value>)

  /** What makes a dict one: every key once, and exactly the keys mapped. */
  predicate ValidDict(d: Dict) {
    (forall i, j :: 0 <= i < j < |d.keys| ==> d.keys[i] != d.keys[j]) &&
    (forall i :: 0 <= i < |d.keys| ==> d.keys[i] in d.values) &&
    (forall x :: x in d.values ==> x in d.keys)
  }

  /** `d[key] = v`: a new key goes last, one already there keeps its place. */
  function Stored(d: Dict, key: string, v: Value): Dict {
    Dict(if key in d.values then d.keys else d.keys + [key], d.values[key := v])
  }

  /** Storing keeps a dict a dict, maps the key to the value, and leaves every other key as it was. */
  lemma StoredValid(d: Dict, key: string, v: Value)
    requires ValidDict(d)
    ensures ValidDict(Stored(d, key, v))
    ensures Stored(d, key, v).values[key] == v
    ensures forall x :: x in d.values && x != key ==> Stored(d, key, v).values[x] == d.values[x]
    ensures key in d.values ==> Stored(d, key, v).keys == d.keys
    ensures key !in d.values ==> Stored(d, key, v).keys == d.keys + [key]
  {
    var e := Stored(d, key, v);
    if key !in d.values {
      assert forall i :: 0 <= i < |d.keys| ==> d.keys[i] != key;
      assert forall i :: 0 <= i < |e.keys| ==> e.keys[i] in e.values by {
        assert e.keys[|d.keys|] == key;
      }
    }
  }

  function MoveOf(c: char): Option<nat> {
    match c
    case 'L' => Some(0)
    case 'R' => Some(1)
    case _ => None
  }

  /** `[mapp[x] for x in line]`, None at the KeyError of a char other than 'L' and 'R'. */
  function MovesOf(line: string): Option<seq<nat>> {
    Gathered(seq(|line|, i requires 0 <= i < |line| => MoveOf(line[i])))
  }

  /** The text before " = ", and the names after it, brackets and blanks dropped, split on ','. */
  function EntryOf(line: string): Option<(string, seq<string>)> {
    var parts := SplitOn(line, " = ");
    if |parts| < 2 then None
    else Some((parts[0], Split(Replace(Replace(Replace(parts[1], "(", ""), ")", ""), " ", ""), ',')))
  }

  function EntriesOf(ls: seq<string>): (es: seq<Option<(string, seq<string>)>>)
    ensures |es| == |ls| && forall k :: 0 <= k < |ls| ==> es[k] == EntryOf(ls[k])
  {
    seq(|ls|, k requires 0 <= k < |ls| => EntryOf(ls[k]))
  }

  /** The dict d with the entries es[..i] stored in turn; None once one raised. */
  function Filled(d: Dict, es: seq<Option<(string, seq<string>)>>, i: nat): Option<Dict>
    requires i <= |es|
  {
    if i == 0 then Some(d)
    else
      match Filled(d, es, i - 1)
      case None => None
      case Some(e) =>
        match es[i - 1]
        case None => None
        case Some(entry) => Some(Stored(e, entry.0, Names(entry.1)))
  }

  /** The dict of the instructions alone. */
  function First(ms: seq<nat>): Dict {
    Dict(["instructions"], map["instructions" := Moves(ms)])
  }

  /** `raw_data_input[2:]`. */
  function NodeLines(raw: seq<string>): seq<string> {
    if |raw| >= 2 then raw[2..] else []
  }

  /** `parse_input`, None when it raises. */
  function Parsed(raw: seq<string>): Option<Dict> {
    if |raw| == 0 then None
    else
      match MovesOf(raw[0])
      case None => None
      case Some(ms) => Filled(First(ms), EntriesOf(NodeLines(raw)), |NodeLines(raw)|)
  }

  /** The comprehension of the first line. */
  method ReadMoves(line: string) returns (r: Option<seq<nat>>)
    ensures r == MovesOf(line)
  {
    ghost var xs := seq(|line|, i requires 0 <= i < |line| => MoveOf(line[i]));
    var ms: seq<nat> := [];
    for i := 0 to |line|
      invariant |ms| == i && forall k :: 0 <= k < i ==> xs[k] == Some(ms[k])
    {
      var m := MoveOf(line[i]);
      assert xs[i] == m;
      if m.None? {
        GatheredNone(xs, i);
        return None;
      }
      ms := ms + [m.value];
    }
    GatheredAll(xs, ms);
    return Some(ms);
  }

  lemma {:induction false} FilledStays(d: Dict, es: seq<Option<(string, seq<string>)>>, i: nat, j: nat)
    requires i <= j <= |es| && Filled(d, es, i) == None
    ensures Filled(d, es, j) == None
    decreases j - i
  {
    if i < j {
      FilledStays(d, es, i + 1, j);
    }
  }

  /** The key and the names of one node line. */
  method ReadEntry(node: string) returns (r: Option<(string, seq<string>)>)
    ensures r == EntryOf(node)
  {
    var parts := SplitOn(node, " = ");
    var key := parts[0];
    if |parts| < 2 {
      return None;
    }
    var values := Split(Replace(Replace(Replace(parts[1], "(", ""), ")", ""), " ", ""), ',');
    return Some((key, values));
  }

  /** One entry more stored, or the raise of its line. */
  lemma FilledNext(d: Dict, es: seq<Option<(string, seq<string>)>>, i: nat, e: Dict, entry: Option<(string, seq<string>)>)
    requires i < |es| && Filled(d, es, i) == Some(e) && es[i] == entry
    ensures entry.None? ==> Filled(d, es, i + 1) == None
    ensures entry.Some? ==> Filled(d, es, i + 1) == Some(Stored(e, entry.value.0, Names(entry.value.1)))
  {
  }

  /** The key and the names of every node line, read in turn. */
  method ReadEntries(nodes: seq<string>) returns (es: seq<Option<(string, seq<string>)>>)
    ensures es == EntriesOf(nodes)
  {
    es := [];
    for i := 0 to |nodes|
      invariant |es| == i && forall k :: 0 <= k < i ==> es[k] == EntryOf(nodes[k])
    {
      var entry := ReadEntry(nodes[i]);
      es := es + [entry];
    }
  }

  /**
   * The loop of `parse_input` over the node lines: every entry stored in
   * turn, up to the first line that raised.  The lines are read first:
   * reading one has no effect, so nothing depends on that order.
   */
  method StoreEntries(d: Dict, es: seq<Option<(string, seq<string>)>>) returns (r: Option<Dict>)
    ensures r == Filled(d, es, |es|)
  {
    var result := d;
    for i := 0 to |es|
      invariant Filled(d, es, i) == Some(result)
    {
      var entry := es[i];
      FilledNext(d, es, i, result, entry);
      if entry.None? {
        FilledStays(d, es, i + 1, |es|);
        return None;
      }
      result := Stored(result, entry.value.0, Names(entry.value.1));
    }
    return Some(result);
  }

  /** `parse_input`: the instructions, then every node line from line 2 on. */
  method ParseInput(raw: seq<string>) returns (r: Option<Dict>)
    ensures r == Parsed(raw)
  {
    if |raw| == 0 {
      return None;
    }
    var moves := ReadMoves(raw[0]);
    if moves.None? {
      return None;
    }
    var entries := ReadEntries(NodeLines(raw));
    r := StoreEntries(First(moves.value), entries);
  }

  /** The parsed dict is a dict, with the moves under "instructions" unless a node line took that key. */
  lemma {:induction false} FilledValid(d: Dict, es: seq<Option<(string, seq<string>)>>, i: nat)
    requires i <= |es| && ValidDict(d) && Filled(d, es, i).Some?
    ensures ValidDict(Filled(d, es, i).value)
    ensures forall x :: x in d.values ==> x in Filled(d, es, i).value.values
    ensures |d.keys| <= |Filled(d, es, i).value.keys| && Filled(d, es, i).value.keys[..|d.keys|] == d.keys
  {
    if i > 0 {
      FilledValid(d, es, i - 1);
      var e := Filled(d, es, i - 1).value;
      var entry := es[i - 1].value;
      StoredValid(e, entry.0, Names(entry.1));
      var f := Stored(e, entry.0, Names(entry.1));
      assert f.keys[..|d.keys|] == d.keys by {
        if entry.0 !in e.values {
          assert f.keys[..|d.keys|] == e.keys[..|d.keys|];
        }
      }
    }
  }

  lemma ParsedValid(raw: seq<string>)
    requires Parsed(raw).Some?
    ensures ValidDict(Parsed(raw).value)
    ensures "instructions" in Parsed(raw).value.values && Parsed(raw).value.keys[0] == "instructions"
  {
    var ms := MovesOf(raw[0]).value;
    FilledValid(First(ms), EntriesOf(NodeLines(raw)), |NodeLines(raw)|);
  }

  /** Node lines store tuples only: a list of moves in the parsed dict is one the dict started with. */
  lemma {:induction false} FilledMoves(d: Dict, es: seq<Option<(string, seq<string>)>>, i: nat, x: string)
    requires i <= |es| && Filled(d, es, i).Some?
    requires x in Filled(d, es, i).value.values && Filled(d, es, i).value.values[x].Moves?
    ensures x in d.values && Filled(d, es, i).value.values[x] == d.values[x]
  {
    if i > 0 {
      FilledMoves(d, es, i - 1, x);
    }
  }

  /** The instructions, unless a node line took their key, are the moves of the first line: each 0 or 1. */
  lemma ParsedMoves(raw: seq<string>)
    requires Parsed(raw).Some? && "instructions" in Parsed(raw).value.values
    requires Parsed(raw).value.values["instructions"].Moves?
    ensures Parsed(raw).value.values["instructions"] == Moves(MovesOf(raw[0]).value)
    ensures forall k :: 0 <= k < |MovesOf(raw[0]).value| ==> MovesOf(raw[0]).value[k] <= 1
  {
    var ms := MovesOf(raw[0]).value;
    FilledMoves(First(ms), EntriesOf(NodeLines(raw)), |NodeLines(raw)|, "instructions");
  }

  /** A line of the puzzle is read as the node of the last line with its name. */
  lemma {:induction false} LastEntryWins(d: Dict, es: seq<Option<(string, seq<string>)>>, i: nat, k: nat)
    requires k < i <= |es| && Filled(d, es, i).Some? && es[k].Some?
    requires forall j :: k < j < i ==> es[j].Some? && es[j].value.0 != es[k].value.0
    ensures es[k].value.0 in Filled(d, es, i).value.values
    ensures Filled(d, es, i).value.values[es[k].value.0] == Names(es[k].value.1)
  {
    var e := Filled(d, es, i - 1).value;
    var entry := es[i - 1].value;
    assert Filled(d, es, i).value.values == e.values[entry.0 := Names(entry.1)];
    if k < i - 1 {
      LastEntryWins(d, es, i - 1, k);
    }
  }

  /** `[x for x in keys if x[2] == c]`, None at the IndexError of a key shorter than three chars. */
  function KeysWith(keys: seq<string>, c: char): Option<seq<string>>
    decreases |keys|
  {
    if keys == [] then Some([])
    else
      match KeysWith(keys[..|keys| - 1], c)
      case None => None
      case Some(ks) =>
        var x := keys[|keys| - 1];
        if |x| < 3 then None else if x[2] == c then Some(ks + [x]) else Some(ks)
  }

  /** The comprehension raises exactly when a key is too short, and keeps exactly the keys with c third. */
  lemma {:induction false} KeysWithSpec(keys: seq<string>, c: char)
    ensures KeysWith(keys, c).None? <==> exists k :: 0 <= k < |keys| && |keys[k]| < 3
    ensures KeysWith(keys, c).Some? ==> forall x :: x in KeysWith(keys, c).value <==> x in keys && x[2] == c
    decreases |keys|
  {
    if keys != [] {
      var front := keys[..|keys| - 1];
      KeysWithSpec(front, c);
      assert keys == front + [keys[|keys| - 1]];
      if KeysWith(keys, c).None? && KeysWith(front, c).Some? {
        assert |keys[|keys| - 1]| < 3;
      }
      if KeysWith(keys, c).Some? {
        assert forall k :: 0 <= k < |keys| ==> |keys[k]| >= 3 by {
          forall k | 0 <= k < |keys|
            ensures |keys[k]| >= 3
          {
            if k < |front| {
              assert keys[k] == front[k];
            }
          }
        }
      }
    }
  }

  /** The keys but "instructions", in order. */
  function NodeNames(keys: seq<string>): (names: seq<string>)
    ensures forall x :: x in names <==> x in keys && x != "instructions"
    decreases |keys|
  {
    if keys == [] then []
    else
      var x := keys[|keys| - 1];
      assert keys == keys[..|keys| - 1] + [x];
      NodeNames(keys[..|keys| - 1]) + (if x == "instructions" then [] else [x])
  }

  /** `nodes_indexes_mapp`: every key but "instructions" numbered by how many such keys came before it. */
  function Numbered(keys: seq<string>): map<string, nat>
    decreases |keys|
  {
    if keys == [] then map[]
    else
      var front := keys[..|keys| - 1];
      var x := keys[|keys| - 1];
      if x == "instructions" then Numbered(front) else Numbered(front)[x := |NodeNames(front)|]
  }

  /** The loop numbering the keys. */
  method NumberNodes(keys: seq<string>) returns (mapp: map<string, nat>)
    ensures mapp == Numbered(keys)
  {
    mapp := map[];
    var i := 0;
    for j := 0 to |keys|
      invariant mapp == Numbered(keys[..j]) && i == |NodeNames(keys[..j])|
    {
      assert keys[..j + 1][..j] == keys[..j];
      if keys[j] == "instructions" {
        continue;
      }
      mapp := mapp[keys[j] := i];
      i := i + 1;
    }
    assert keys[..|keys|] == keys;
  }

  /** With every key once, node i of the list gets number i, and only nodes get numbers: the numbers are 0, 1, … in order. */
  lemma {:induction false} NumberedSpec(keys: seq<string>)
    requires forall i, j :: 0 <= i < j < |keys| ==> keys[i] != keys[j]
    ensures forall x :: x in Numbered(keys) <==> x in NodeNames(keys)
    ensures forall i :: 0 <= i < |NodeNames(keys)| ==> Numbered(keys)[NodeNames(keys)[i]] == i
    decreases |keys|
  {
    if keys != [] {
      var front := keys[..|keys| - 1];
      var x := keys[|keys| - 1];
      NumberedSpec(front);
      if x != "instructions" {
        assert forall k :: 0 <= k < |front| ==> front[k] != x by {
          forall k | 0 <= k < |front|
            ensures front[k] != x
          {
            assert front[k] == keys[k];
          }
        }
        assert x !in NodeNames(front);
        var names := NodeNames(keys);
        assert names == NodeNames(front) + [x];
        forall i | 0 <= i < |names|
          ensures Numbered(keys)[names[i]] == i
        {
          if i < |NodeNames(front)| {
            assert names[i] == NodeNames(front)[i];
          }
        }
      }
    }
  }

  /** `list.insert(i, x)`: before element i, at the end when i is past it. */
  function Insert<T>(xs: seq<T>, i: nat, x: T): seq<T> {
    if i <= |xs| then xs[..i] + [x] + xs[i..] else xs + [x]
  }

  /** The pair of a node: the numbers of its two neighbours; None at the IndexError of a one-name tuple or the KeyError of a neighbour that is no node. */
  function PairOf(d: Dict, mapp: map<string, nat>, name: string): Option<(nat, nat)> {
    if name !in d.values then None
    else
      match d.values[name]
      case Moves(_) => None
      case Names(ns) =>
        if |ns| == 0 || ns[0] !in mapp || |ns| < 2 || ns[1] !in mapp then None
        else Some((mapp[ns[0]], mapp[ns[1]]))
  }

  /** `reindexed_nodes` after the pairs of the first i names are inserted at their numbers. */
  function Table(d: Dict, mapp: map<string, nat>, names: seq<string>, i: nat): Option<seq<(nat, nat)>>
    requires i <= |names|
  {
    if i == 0 then Some([])
    else
      match Table(d, mapp, names, i - 1)
      case None => None
      case Some(t) =>
        match PairOf(d, mapp, names[i - 1])
        case None => None
        case Some(p) => if names[i - 1] in mapp then Some(Insert(t, mapp[names[i - 1]], p)) else None
  }

  /** `[mapp[x] for x in ks]` written in place, None at a KeyError. */
  function Indices(mapp: map<string, nat>, ks: seq<string>): (r: Option<seq<nat>>)
    ensures r.Some? <==> forall k :: 0 <= k < |ks| ==> ks[k] in mapp
    ensures r.Some? ==> |r.value| == |ks| && forall k :: 0 <= k < |ks| ==> r.value[k] == mapp[ks[k]]
  {
    var xs := seq(|ks|, k requires 0 <= k < |ks| => if ks[k] in mapp then Some(mapp[ks[k]]) else None);
    assert forall k :: 0 <= k < |ks| ==> (xs[k].Some? <==> ks[k] in mapp);
    Gathered(xs)
  }

  /** What `reindex_as_int_nodes` returns. */
  datatype Reindexed = Reindexed(nodes: seq<(nat, nat)>, starts: seq<nat>, ends: seq<nat>, mapp: map<string, nat>)

  /** `reindex_as_int_nodes`, None when it raises. */
  function Reindex(d: Dict): Option<Reindexed> {
    match KeysWith(d.keys, 'A')
    case None => None
    case Some(sk) =>
      match KeysWith(d.keys, 'Z')
      case None => None
      case Some(ek) =>
        var names := NodeNames(d.keys);
        var mapp := Numbered(d.keys);
        match Table(d, mapp, names, |names|)
        case None => None
        case Some(t) =>
          match Indices(mapp, sk)
          case None => None
          case Some(ss) =>
            match Indices(mapp, ek)
            case None => None
            case Some(es) => Some(Reindexed(t, ss, es, mapp))
  }

  /** The comprehension of the start or end keys. */
  method KeysEnding(keys: seq<string>, c: char) returns (r: Option<seq<string>>)
    ensures r == KeysWith(keys, c)
  {
    var ks: seq<string> := [];
    for j := 0 to |keys|
      invariant KeysWith(keys[..j], c) == Some(ks)
    {
      assert keys[..j + 1][..j] == keys[..j];
      if |keys[j]| < 3 {
        KeysWithSpec(keys, c);
        assert keys[j] == keys[..j + 1][j];
        return None;
      }
      if keys[j][2] == c {
        ks := ks + [keys[j]];
      }
    }
    assert keys[..|keys|] == keys;
    return Some(ks);
  }

  /** The loop inserting every node's pair of numbers, over the keys of the numbering in their order. */
  method InsertPairs(d: Dict, mapp: map<string, nat>, names: seq<string>) returns (r: Option<seq<(nat, nat)>>)
    ensures r == Table(d, mapp, names, |names|)
  {
    var reindexed: seq<(nat, nat)> := [];
    for i := 0 to |names|
      invariant Table(d, mapp, names, i) == Some(reindexed)
    {
      var p := PairOf(d, mapp, names[i]);
      if p.None? || names[i] !in mapp {
        TableStays(d, mapp, names, i + 1, |names|);
        return None;
      }
      reindexed := Insert(reindexed, mapp[names[i]], p.value);
    }
    return Some(reindexed);
  }

  lemma {:induction false} TableStays(d: Dict, mapp: map<string, nat>, names: seq<string>, i: nat, j: nat)
    requires i <= j <= |names| && Table(d, mapp, names, i) == None
    ensures Table(d, mapp, names, j) == None
    decreases j - i
  {
    if i < j {
      TableStays(d, mapp, names, i + 1, j);
    }
  }

  /** The loop replacing every start or end key by its number. */
  method IndexKeys(mapp: map<string, nat>, ks: seq<string>) returns (r: Option<seq<nat>>)
    ensures r == Indices(mapp, ks)
  {
    ghost var xs := seq(|ks|, k requires 0 <= k < |ks| => if ks[k] in mapp then Some(mapp[ks[k]]) else None);
    var indexes: seq<nat> := [];
    for k := 0 to |ks|
      invariant |indexes| == k && forall i :: 0 <= i < k ==> xs[i] == Some(indexes[i])
    {
      if ks[k] !in mapp {
        GatheredNone(xs, k);
        return None;
      }
      indexes := indexes + [mapp[ks[k]]];
    }
    GatheredAll(xs, indexes);
    return Some(indexes);
  }

  /**
   * `reindex_as_int_nodes`: the start and end keys, the numbering, the
   * pairs, then the start and end keys replaced by their numbers.  The keys
   * of the numbering, in their order, are the node names: the dict's keys
   * are distinct.
   */
  method ReindexAsIntNodes(d: Dict) returns (r: Option<Reindexed>)
    requires ValidDict(d)
    ensures r == Reindex(d)
  {
    var sk := KeysEnding(d.keys, 'A');
    if sk.None? {
      return None;
    }
    var ek := KeysEnding(d.keys, 'Z');
    if ek.None? {
      return None;
    }
    var mapp := NumberNodes(d.keys);
    var table := InsertPairs(d, mapp, NodeNames(d.keys));
    if table.None? {
      return None;
    }
    var ss := IndexKeys(mapp, sk.value);
    if ss.None? {
      return None;
    }
    var es := IndexKeys(mapp, ek.value);
    if es.None? {
      return None;
    }
    return Some(Reindexed(table.value, ss.value, es.value, mapp));
  }

  /** Inserting at the numbers 0, 1, … appends: pair i of the table is that of node i. */
  lemma {:induction false} TableSpec(d: Dict, mapp: map<string, nat>, names: seq<string>, i: nat)
    requires i <= |names| && Table(d, mapp, names, i).Some?
    requires forall k :: 0 <= k < |names| ==> names[k] in mapp && mapp[names[k]] == k
    ensures |Table(d, mapp, names, i).value| == i
    ensures forall k :: 0 <= k < i ==> PairOf(d, mapp, names[k]) == Some(Table(d, mapp, names, i).value[k])
  {
    if i > 0 {
      TableSpec(d, mapp, names, i - 1);
      var t := Table(d, mapp, names, i - 1).value;
      assert Insert(t, i - 1, PairOf(d, mapp, names[i - 1]).value) == t + [PairOf(d, mapp, names[i - 1]).value];
    }
  }

  /** Without a missing pair the table is complete. */
  lemma {:induction false} TableComplete(d: Dict, mapp: map<string, nat>, names: seq<string>, i: nat)
    requires i <= |names|
    requires forall k :: 0 <= k < |names| ==> names[k] in mapp && PairOf(d, mapp, names[k]).Some?
    ensures Table(d, mapp, names, i).Some?
  {
    if i > 0 {
      TableComplete(d, mapp, names, i - 1);
    }
  }

  /** The table of a dict: a pair for every node, each number naming a node. */
  predicate Closed(t: seq<(nat, nat)>) {
    forall i :: 0 <= i < |t| ==> t[i].0 < |t| && t[i].1 < |t|
  }

  /** Node i of the list, and no other name, gets number i. */
  ghost predicate Numbering(names: seq<string>, mapp: map<string, nat>) {
    (forall x :: x in mapp <==> x in names) &&
    forall i :: 0 <= i < |names| ==> names[i] in mapp && mapp[names[i]] == i
  }

  /** Node i has two neighbours, both nodes, and its pair is their numbers. */
  ghost predicate NeighboursOf(d: Dict, names: seq<string>, r: Reindexed, i: nat)
    requires i < |names| && i < |r.nodes| && Numbering(names, r.mapp) && forall x :: x in names ==> x in d.values
  {
    d.values[names[i]].Names? &&
    var ns := d.values[names[i]].names;
    |ns| >= 2 && ns[0] in names && ns[1] in names && r.nodes[i] == (r.mapp[ns[0]], r.mapp[ns[1]])
  }

  /** The table has a pair for every node, closed, each the numbers of the node's neighbours. */
  ghost predicate Paired(d: Dict, names: seq<string>, r: Reindexed)
    requires Numbering(names, r.mapp)
  {
    |r.nodes| == |names| && Closed(r.nodes) && (forall x :: x in names ==> x in d.values) &&
    forall i :: 0 <= i < |names| ==> NeighboursOf(d, names, r, i)
  }

  /** The start and end lists hold exactly the numbers of the nodes whose third char is 'A' or 'Z'. */
  ghost predicate Marked(names: seq<string>, r: Reindexed) {
    forall i :: 0 <= i < |names| ==>
      |names[i]| >= 3 && (i in r.starts <==> names[i][2] == 'A') && (i in r.ends <==> names[i][2] == 'Z')
  }

  /**
   * What `reindex_as_int_nodes` promises: node i of the dict's order gets
   * number i, its pair is the numbers of its two neighbours, and the start
   * and end lists hold the numbers of the nodes whose third char is 'A' or
   * 'Z'.
   */
  lemma ReindexSpec(d: Dict, r: Reindexed)
    requires ValidDict(d) && Reindex(d) == Some(r)
    ensures Numbering(NodeNames(d.keys), r.mapp) && Paired(d, NodeNames(d.keys), r) && Marked(NodeNames(d.keys), r)
  {
    ReindexPaired(d, r);
    ReindexMarked(d, r);
  }

  /** The parts a successful reindexing is made of. */
  lemma ReindexParts(d: Dict, r: Reindexed)
    requires Reindex(d) == Some(r)
    ensures KeysWith(d.keys, 'A').Some? && KeysWith(d.keys, 'Z').Some?
    ensures r.mapp == Numbered(d.keys)
    ensures Table(d, r.mapp, NodeNames(d.keys), |NodeNames(d.keys)|) == Some(r.nodes)
    ensures Indices(r.mapp, KeysWith(d.keys, 'A').value) == Some(r.starts)
    ensures Indices(r.mapp, KeysWith(d.keys, 'Z').value) == Some(r.ends)
  {
  }

  lemma ReindexPaired(d: Dict, r: Reindexed)
    requires ValidDict(d) && Reindex(d) == Some(r)
    ensures Numbering(NodeNames(d.keys), r.mapp) && Paired(d, NodeNames(d.keys), r)
  {
    var names := NodeNames(d.keys);
    NumberedSpec(d.keys);
    ReindexParts(d, r);
    TableSpec(d, r.mapp, names, |names|);
    PairsPaired(d, names, r);
  }

  /** A table whose entry k is the pair of name k pairs every node. */
  lemma PairsPaired(d: Dict, names: seq<string>, r: Reindexed)
    requires Numbering(names, r.mapp) && |r.nodes| == |names|
    requires forall k :: 0 <= k < |names| ==> PairOf(d, r.mapp, names[k]) == Some(r.nodes[k])
    ensures Paired(d, names, r)
  {
    forall x | x in names
      ensures x in d.values
    {
      var k :| 0 <= k < |names| && names[k] == x;
      assert PairOf(d, r.mapp, names[k]).Some?;
    }
    forall i | 0 <= i < |names|
      ensures NeighboursOf(d, names, r, i)
    {
      PairNeighbours(d, names, r, i);
    }
    forall i | 0 <= i < |r.nodes|
      ensures r.nodes[i].0 < |r.nodes| && r.nodes[i].1 < |r.nodes|
    {
      PairBelow(d, names, r, i);
    }
  }

  lemma PairNeighbours(d: Dict, names: seq<string>, r: Reindexed, i: nat)
    requires Numbering(names, r.mapp) && i < |r.nodes| == |names|
    requires forall x :: x in names ==> x in d.values
    requires PairOf(d, r.mapp, names[i]) == Some(r.nodes[i])
    ensures NeighboursOf(d, names, r, i)
  {
  }

  lemma PairBelow(d: Dict, names: seq<string>, r: Reindexed, i: nat)
    requires Numbering(names, r.mapp) && i < |r.nodes| == |names|
    requires PairOf(d, r.mapp, names[i]) == Some(r.nodes[i])
    ensures r.nodes[i].0 < |r.nodes| && r.nodes[i].1 < |r.nodes|
  {
    var ns := d.values[names[i]].names;
    NumberBelow(names, r.mapp, ns[0]);
    NumberBelow(names, r.mapp, ns[1]);
  }

  lemma NumberBelow(names: seq<string>, mapp: map<string, nat>, x: string)
    requires Numbering(names, mapp) && x in names
    ensures mapp[x] < |names|
  {
    var a :| 0 <= a < |names| && names[a] == x;
  }

  lemma ReindexMarked(d: Dict, r: Reindexed)
    requires ValidDict(d) && Reindex(d) == Some(r)
    ensures Marked(NodeNames(d.keys), r)
  {
    var names := NodeNames(d.keys);
    NumberedSpec(d.keys);
    ReindexParts(d, r);
    KeysWithSpec(d.keys, 'A');
    KeysWithSpec(d.keys, 'Z');
    var sk := KeysWith(d.keys, 'A').value;
    var ek := KeysWith(d.keys, 'Z').value;
    forall i | 0 <= i < |names|
      ensures |names[i]| >= 3 && (i in r.starts <==> names[i][2] == 'A') && (i in r.ends <==> names[i][2] == 'Z')
    {
      assert names[i] in d.keys;
      IndexMember(r.mapp, names, sk, r.starts, i);
      IndexMember(r.mapp, names, ek, r.ends, i);
    }
  }

  /** A number is among the indices of some keys exactly when its name is one of them. */
  lemma IndexMember(mapp: map<string, nat>, names: seq<string>, ks: seq<string>, ixs: seq<nat>, i: nat)
    requires i < |names| && Indices(mapp, ks) == Some(ixs)
    requires Numbering(names, mapp)
    ensures i in ixs <==> names[i] in ks
  {
    if i in ixs {
      var k :| 0 <= k < |ixs| && ixs[k] == i;
      var j :| 0 <= j < |names| && names[j] == ks[k];
      assert mapp[ks[k]] == j;
    }
    if names[i] in ks {
      var k :| 0 <= k < |ks| && ks[k] == names[i];
      assert ixs[k] == i;
    }
  }

  /** The reindexing raises on a key shorter than three chars. */
  lemma ShortKeyRaises(d: Dict, k: nat)
    requires k < |d.keys| && |d.keys[k]| < 3
    ensures Reindex(d) == None
  {
    KeysWithSpec(d.keys, 'A');
  }

  /** The reindexing raises on a node with one name only, or a neighbour that is no node. */
  lemma BadPairRaises(d: Dict, i: nat)
    requires ValidDict(d) && i < |NodeNames(d.keys)| && PairOf(d, Numbered(d.keys), NodeNames(d.keys)[i]).None?
    ensures Reindex(d) == None
  {
    if Reindex(d).Some? {
      var names := NodeNames(d.keys);
      NumberedSpec(d.keys);
      TableSpec(d, Numbered(d.keys), names, |names|);
    }
  }

  /** The node a move from node `cur` leads to: left for 0, right for 1; None at an IndexError. */
  function Step(t: seq<(nat, nat)>, cur: nat, m: nat): Option<nat> {
    if cur >= |t| then None
    else if m == 0 then Some(t[cur].0)
    else if m == 1 then Some(t[cur].1)
    else None
  }

  /** In a closed table every move from a node succeeds and leads to a node. */
  lemma StepClosed(t: seq<(nat, nat)>, cur: nat, m: nat)
    requires Closed(t) && cur < |t| && m <= 1
    ensures Step(t, cur, m).Some? && Step(t, cur, m).value < |t|
  {
  }

  /** What a walk gives: the count of moves to its first end, a raise, or no end within the fuel. */
  datatype Walk = Reached(count: nat) | Failed | Unfinished

  /** The place after k moves from s, the moves taken in turn and over again; None once a move raised. */
  function Position<N>(step: (N, nat) -> Option<N>, ms: seq<nat>, s: N, k: nat): Option<N>
    requires |ms| > 0
  {
    if k == 0 then Some(s)
    else
      match Position(step, ms, s, k - 1)
      case None => None
      case Some(p) => step(p, ms[Phase(|ms|, k - 1)])
  }

  /** The walk from move k on: the end tested at every place, before the move from it. */
  function WalkFrom<N>(step: (N, nat) -> Option<N>, ms: seq<nat>, isEnd: N -> bool, s: N, k: nat, fuel: nat): Walk
    requires |ms| > 0
    decreases fuel + 1 - k
  {
    if k > fuel then Unfinished
    else
      match Position(step, ms, s, k)
      case None => Failed
      case Some(p) => if isEnd(p) then Reached(k) else WalkFrom(step, ms, isEnd, s, k + 1, fuel)
  }

  /** After `count` moves within the fuel the walk is at `cur`, not yet tested, and what remains of it decides the outcome. */
  ghost predicate OnTheWay<N>(step: (N, nat) -> Option<N>, ms: seq<nat>, isEnd: N -> bool, s: N, fuel: nat, count: nat, cur: N)
  {
    |ms| > 0 && count <= fuel && Position(step, ms, s, count) == Some(cur) &&
    WalkFrom(step, ms, isEnd, s, 0, fuel) == WalkFrom(step, ms, isEnd, s, count, fuel)
  }

  lemma WalkStart<N>(step: (N, nat) -> Option<N>, ms: seq<nat>, isEnd: N -> bool, s: N, fuel: nat)
    requires |ms| > 0
    ensures OnTheWay(step, ms, isEnd, s, fuel, 0, s)
  {
  }

  /** The test at the place after `count` moves: the end, or the last place within the fuel. */
  lemma WalkTest<N>(step: (N, nat) -> Option<N>, ms: seq<nat>, isEnd: N -> bool, s: N, fuel: nat, count: nat, cur: N)
    requires OnTheWay(step, ms, isEnd, s, fuel, count, cur)
    ensures isEnd(cur) ==> WalkFrom(step, ms, isEnd, s, 0, fuel) == Reached(count)
    ensures !isEnd(cur) && count == fuel ==> WalkFrom(step, ms, isEnd, s, 0, fuel) == Unfinished
  {
    if !isEnd(cur) {
      assert WalkFrom(step, ms, isEnd, s, count, fuel) == WalkFrom(step, ms, isEnd, s, count + 1, fuel);
    }
  }

  /** The move from the place after `count` moves. */
  lemma WalkStep<N>(step: (N, nat) -> Option<N>, ms: seq<nat>, isEnd: N -> bool, s: N, fuel: nat, count: nat, cur: N, next: Option<N>)
    requires OnTheWay(step, ms, isEnd, s, fuel, count, cur) && !isEnd(cur) && count < fuel
    requires next == step(cur, ms[Phase(|ms|, count)])
    ensures next.None? ==> WalkFrom(step, ms, isEnd, s, 0, fuel) == Failed
    ensures next.Some? ==> OnTheWay(step, ms, isEnd, s, fuel, count + 1, next.value)
  {
    assert Position(step, ms, s, count + 1) == next;
    assert WalkFrom(step, ms, isEnd, s, count, fuel) == WalkFrom(step, ms, isEnd, s, count + 1, fuel);
  }

  /** Place n is the first end from place k on, and every move before it succeeded. */
  ghost predicate FirstEnd<N>(step: (N, nat) -> Option<N>, ms: seq<nat>, isEnd: N -> bool, s: N, k: nat, n: nat)
    requires |ms| > 0
  {
    k <= n && Position(step, ms, s, n).Some? && isEnd(Position(step, ms, s, n).value) &&
    forall j :: k <= j < n ==> Position(step, ms, s, j).Some? && !isEnd(Position(step, ms, s, j).value)
  }

  /** The walk from place k reaches its end at n exactly when n is within the fuel and the first end from k on. */
  lemma {:induction false} WalkFromFirst<N>(step: (N, nat) -> Option<N>, ms: seq<nat>, isEnd: N -> bool, s: N, k: nat, fuel: nat, n: nat)
    requires |ms| > 0
    ensures WalkFrom(step, ms, isEnd, s, k, fuel) == Reached(n) <==> n <= fuel && FirstEnd(step, ms, isEnd, s, k, n)
    decreases fuel + 1 - k
  {
    var p := Position(step, ms, s, k);
    if k > fuel {
      assert WalkFrom(step, ms, isEnd, s, k, fuel) == Unfinished;
    } else if p.None? {
      assert WalkFrom(step, ms, isEnd, s, k, fuel) == Failed;
      assert !FirstEnd(step, ms, isEnd, s, k, n) by {
        if n > k {
          assert !Position(step, ms, s, k).Some?;
        }
      }
    } else if isEnd(p.value) {
      assert WalkFrom(step, ms, isEnd, s, k, fuel) == Reached(k);
      assert FirstEnd(step, ms, isEnd, s, k, n) <==> n == k by {
        if n > k {
          assert isEnd(Position(step, ms, s, k).value);
        }
      }
    } else {
      assert WalkFrom(step, ms, isEnd, s, k, fuel) == WalkFrom(step, ms, isEnd, s, k + 1, fuel);
      WalkFromFirst(step, ms, isEnd, s, k + 1, fuel, n);
      assert FirstEnd(step, ms, isEnd, s, k, n) <==> FirstEnd(step, ms, isEnd, s, k + 1, n) by {
        if n == k {
          assert !isEnd(Position(step, ms, s, n).value);
        }
      }
    }
  }

  /** A walk all of whose moves succeed never raises. */
  lemma {:induction false} WalkNeverFails<N>(step: (N, nat) -> Option<N>, ms: seq<nat>, isEnd: N -> bool, s: N, k: nat, fuel: nat)
    requires |ms| > 0 && forall j :: Position(step, ms, s, j).Some?
    ensures WalkFrom(step, ms, isEnd, s, k, fuel) != Failed
    decreases fuel + 1 - k
  {
    if k <= fuel {
      assert Position(step, ms, s, k).Some?;
      WalkNeverFails(step, ms, isEnd, s, k + 1, fuel);
    }
  }

  /** A node of the puzzle's files: a name without blanks or punctuation. */
  predicate IsName(s: string) {
    |s| > 0 && forall i :: 0 <= i < |s| ==> !IsWhitespace(s[i]) && s[i] !in "=,()"
  }

  /** A node line as the puzzle writes it: `AAA = (BBB, CCC)`. */
  function NodeLine(a: string, b: string, c: string): string {
    a + " = (" + b + ", " + c + ")"
  }

  lemma Dropped(x: string, c: char)
    requires c !in x
    ensures Replace(x, [c], "") == x
  {
    LacksChar(x, [c], c);
  }

  /** The text after " = " loses its brackets and its blank. */
  lemma NamesRead(b: string, c: string)
    requires IsName(b) && IsName(c)
    ensures Replace(Replace(Replace("(" + b + ", " + c + ")", "(", ""), ")", ""), " ", "") == b + "," + c
  {
    DropOpen(b, c);
    DropClose(b, c);
    DropBlank(b, c);
  }

  /** Dropping a char that occurs once, after x. */
  lemma DropAfter(x: string, y: string, c: char)
    requires c !in x && c !in y
    ensures Replace(x + [c] + y, [c], "") == x + y
  {
    calc {
      Replace(x + [c] + y, [c], "");
      { assert x + [c] + y == x + ([c] + y); }
      Replace(x + ([c] + y), [c], "");
      { ReplaceCharAppend(x, [c] + y, c); }
      Replace(x, [c], "") + Replace([c] + y, [c], "");
      { Dropped(x, c); ReplaceFront([c], y, ""); }
      x + ("" + Replace(y, [c], ""));
      { Dropped(y, c); assert "" + y == y; }
      x + y;
    }
  }

  /** A name holds none of the chars that frame a node line. */
  lemma NameLacks(b: string, ch: char)
    requires IsName(b) && (ch in "=,()" || ch == ' ')
    ensures ch !in b
  {
    assert IsWhitespace(' ');
  }

  /** The bracketed pair after its opening bracket holds no other. */
  lemma OpenOnce(b: string, c: string)
    requires IsName(b) && IsName(c)
    ensures '(' !in b + ", " + c + ")"
  {
    NameLacks(b, '(');
    NameLacks(c, '(');
  }

  lemma DropOpen(b: string, c: string)
    requires IsName(b) && IsName(c)
    ensures Replace("(" + b + ", " + c + ")", "(", "") == b + ", " + c + ")"
  {
    var y := b + ", " + c + ")";
    OpenOnce(b, c);
    DropFront(y, '(');
    assert "(" + y == "(" + b + ", " + c + ")";
  }

  /** Dropping a char that occurs only at the front. */
  lemma DropFront(y: string, ch: char)
    requires ch !in y
    ensures Replace([ch] + y, [ch], "") == y
  {
    ReplaceFront([ch], y, "");
    Dropped(y, ch);
    assert "" + y == y;
  }

  lemma DropClose(b: string, c: string)
    requires IsName(b) && IsName(c)
    ensures Replace(b + ", " + c + ")", ")", "") == b + ", " + c
  {
    var x := b + ", " + c;
    assert ')' !in x;
    DropAfter(x, "", ')');
    assert x + ")" + "" == b + ", " + c + ")";
  }

  lemma DropBlank(b: string, c: string)
    requires IsName(b) && IsName(c)
    ensures Replace(b + ", " + c, " ", "") == b + "," + c
  {
    var x := b + ",";
    assert IsWhitespace(' ');
    assert ' ' !in x && ' ' !in c;
    DropAfter(x, c, ' ');
    assert x + " " + c == b + ", " + c;
  }

  /** A word without blanks, then " = ", then a text without '=': the split gives the two. */
  lemma FrontWord(a: string, rest: string)
    requires ' ' !in a && '=' !in rest
    ensures SplitOn(a + " = " + rest, " = ") == [a, rest]
  {
    SplitOnFrontWord(a, " = ", rest);
    LacksChar(rest, " = ", '=');
  }

  lemma PairLacksEquals(b: string, c: string)
    requires IsName(b) && IsName(c)
    ensures '=' !in "(" + b + ", " + c + ")"
  {
    NameLacks(b, '=');
    NameLacks(c, '=');
  }

  /** A node line splits at " = " into the name and the bracketed pair. */
  lemma LineParts(a: string, b: string, c: string)
    requires IsName(a) && IsName(b) && IsName(c)
    ensures SplitOn(NodeLine(a, b, c), " = ") == [a, "(" + b + ", " + c + ")"]
  {
    var rest := "(" + b + ", " + c + ")";
    assert NodeLine(a, b, c) == a + " = " + rest;
    NameLacks(a, ' ');
    PairLacksEquals(b, c);
    FrontWord(a, rest);
  }

  /** The bracketed pair, stripped of brackets and blanks, splits into the two names. */
  lemma PairParts(b: string, c: string)
    requires IsName(b) && IsName(c)
    ensures Split(Replace(Replace(Replace("(" + b + ", " + c + ")", "(", ""), ")", ""), " ", ""), ',') == [b, c]
  {
    NamesRead(b, c);
    assert b + "," + c == Join([b, c], ",");
    JoinSplit([b, c], ',');
  }

  /** A node line reads back as its name and the tuple of its neighbours. */
  lemma EntryRead(a: string, b: string, c: string)
    requires IsName(a) && IsName(b) && IsName(c)
    ensures EntryOf(NodeLine(a, b, c)) == Some((a, [b, c]))
  {
    LineParts(a, b, c);
    PairParts(b, c);
  }
}
