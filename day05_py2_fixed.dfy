/**
 * py/05/prog_2.py as its comments say it is meant to work.  Two steps of
 * the script fall short of their intent (see the as-written members in
 * Day05Py2): the gap loop of `complete_vectors_dicts` inserts every gap at
 * its vector's index in the snapshot, which is off by the gaps already
 * inserted; and `get_mapped_range` looks for the range's stop with `<`
 * and ends each piece at `dst[top]`, so a range ending where a vector
 * ends pulls in the next vector and every piece loses its last number.
 * Here both are corrected, and it is proved that with the corrected steps
 * the vectors of a map tile [0, max_range_stop), the pieces of a range are
 * exactly the images of its numbers, and the script prints the lowest
 * location of any seed of any seed range.
 */
module Day05Py2Fixed {
  import opened Wrappers
  import opened Almanac
  import opened Day05Py
  import opened Day05Py2
  import Day05Py1

  // ---------------------------------------------------------------- sorted rules

  /** A vector whose source range holds at least one number. */
  predicate Proper(v: Vector) { v.src.start < v.src.stop }

  /** The vectors hold numbers and follow one another without overlapping. */
  ghost predicate Chained(vs: seq<Vector>) {
    && (forall k :: 0 <= k < |vs| ==> Proper(vs[k]))
    && (forall k :: 0 <= k < |vs| - 1 ==> vs[k].src.stop <= vs[k + 1].src.start)
  }

  /** The source ranges of two vectors do not overlap. */
  predicate Apart(v: Vector, w: Vector) {
    v.src.stop <= w.src.start || w.src.stop <= v.src.start
  }

  /** Every rule of the map moves at least one number. */
  ghost predicate Positive(rules: seq<Rule>) {
    forall k :: 0 <= k < |rules| ==> rules[k].len > 0
  }

  /** Every vector of the built list is the vector of one of the rules. */
  lemma {:induction false} BuiltFrom(rules: seq<Rule>, k: nat)
    requires k < |rules|
    ensures exists j :: 0 <= j < |rules| && Built(rules)[k] == VectorOf(rules[j])
    decreases |rules|
  {
    var init := rules[..|rules| - 1];
    var vs := Built(init);
    var p := Place(vs, rules[|rules| - 1].src);
    assert Built(rules) == vs[..p] + [VectorOf(rules[|rules| - 1])] + vs[p..];
    if k < p {
      BuiltFrom(init, k);
      var j :| 0 <= j < |init| && vs[k] == VectorOf(init[j]);
      assert init[j] == rules[j];
    } else if k > p {
      BuiltFrom(init, k - 1);
      var j :| 0 <= j < |init| && vs[k - 1] == VectorOf(init[j]);
      assert init[j] == rules[j];
    }
  }

  /** The vectors of two different rules of a map whose rules do not overlap do not overlap either. */
  lemma RulesApart(rules: seq<Rule>, i: nat, j: nat)
    requires Disjoint(rules) && Positive(rules)
    requires i < |rules| && j < |rules| && i != j
    ensures Apart(VectorOf(rules[i]), VectorOf(rules[j]))
  {
    var a, b := rules[i], rules[j];
    if !Apart(VectorOf(a), VectorOf(b)) {
      var x := if a.src <= b.src then b.src else a.src;
      assert Covers(a, x) && Covers(b, x);
    }
  }

  /** Placing a vector apart from all others keeps the list chained. */
  lemma InsertedChained(vs: seq<Vector>, v: Vector)
    requires Chained(vs) && Proper(v)
    requires forall k :: 0 <= k < |vs| ==> Apart(vs[k], v)
    ensures Chained(Inserted(vs, v))
  {
    var p := Place(vs, v.src.start);
    var r := Inserted(vs, v);
    assert r == vs[..p] + [v] + vs[p..];
    forall k | 0 <= k < |r| - 1 ensures r[k].src.stop <= r[k + 1].src.start {
      if k + 1 < p {
        assert r[k] == vs[k] && r[k + 1] == vs[k + 1];
      } else if k + 1 == p {
        assert r[k] == vs[k] && r[k + 1] == v;
        assert Apart(vs[k], v);
      } else if k == p {
        assert r[k] == v && r[k + 1] == vs[k];
        assert Apart(vs[k], v);
      } else {
        assert r[k] == vs[k - 1] && r[k + 1] == vs[k];
      }
    }
    forall k | 0 <= k < |r| ensures Proper(r[k]) {
      if k < p {
        assert r[k] == vs[k];
      } else if k > p {
        assert r[k] == vs[k - 1];
      }
    }
  }

  /** The sorted vectors of a map whose rules move numbers and do not overlap follow one another without overlapping. */
  lemma {:induction false} BuiltChained(rules: seq<Rule>)
    requires Disjoint(rules) && Positive(rules)
    ensures Chained(Built(rules))
    decreases |rules|
  {
    if rules != [] {
      var n := |rules| - 1;
      var init := rules[..n];
      assert Disjoint(init) by {
        forall i, j, x | 0 <= i < |init| && 0 <= j < |init| && i != j && Covers(init[i], x)
          ensures !Covers(init[j], x)
        {
          assert init[i] == rules[i] && init[j] == rules[j];
        }
      }
      BuiltChained(init);
      var v := VectorOf(rules[n]);
      forall k | 0 <= k < |Built(init)| ensures Apart(Built(init)[k], v) {
        BuiltFrom(init, k);
        var j :| 0 <= j < |init| && Built(init)[k] == VectorOf(init[j]);
        assert init[j] == rules[j];
        RulesApart(rules, j, n);
      }
      InsertedChained(Built(init), v);
    }
  }

  // ---------------------------------------------------------------- the corrected completion

  /** The vectors follow one another without a gap, each holding a number. */
  ghost predicate Tiles(vs: seq<Vector>) {
    && (forall k :: 0 <= k < |vs| ==> Proper(vs[k]))
    && (forall k :: 0 <= k < |vs| - 1 ==> vs[k].src.stop == vs[k + 1].src.start)
  }

  /** A vector after the end of a chained list extends it. */
  lemma ChainedSnoc(a: seq<Vector>, v: Vector)
    requires a != [] && Chained(a) && Proper(v) && a[|a| - 1].src.stop <= v.src.start
    ensures Chained(a + [v])
  {
    assert forall k :: 0 <= k < |a| ==> (a + [v])[k] == a[k];
  }

  /** A vector before the start of a chained list extends it. */
  lemma ChainedCons(v: Vector, a: seq<Vector>)
    requires a != [] && Chained(a) && Proper(v) && v.src.stop <= a[0].src.start
    ensures Chained([v] + a)
  {
    assert forall k :: 1 <= k < |a| + 1 ==> ([v] + a)[k] == a[k - 1];
  }

  /** Framing a chained list inside [0, max) keeps it chained. */
  lemma FramedChained(vs: seq<Vector>, max: int)
    requires vs != [] && Chained(vs) && 0 <= vs[0].src.start && vs[|vs| - 1].src.stop < max
    ensures Chained(Framed(vs, max))
  {
    var front := if vs[0].src.start != 0 then [Identity(0, vs[0].src.start)] + vs else vs;
    if vs[0].src.start != 0 {
      ChainedCons(Identity(0, vs[0].src.start), vs);
    }
    assert front[|front| - 1] == vs[|vs| - 1];
    ChainedSnoc(front, Identity(front[|front| - 1].src.stop, max));
  }

  /** The identity vector of the gap between two vectors, if there is one. */
  function GapBefore(a: Vector, b: Vector): seq<Vector> {
    if a.src.stop != b.src.start then [Identity(a.src.stop, b.src.start)] else []
  }

  /** The first k vectors with the gap before every vector filled, each gap right before the vector it precedes. */
  function Joined(s: seq<Vector>, k: nat): (r: seq<Vector>)
    requires 1 <= k <= |s|
    ensures r != [] && r[0] == s[0] && r[|r| - 1] == s[k - 1]
    decreases k
  {
    if k == 1 then [s[0]]
    else Joined(s, k - 1) + GapBefore(s[k - 2], s[k - 1]) + [s[k - 1]]
  }

  /** Filling the gaps of a chained list leaves no gap. */
  lemma {:induction false} JoinedTiles(s: seq<Vector>, k: nat)
    requires 1 <= k <= |s| && Chained(s)
    ensures Tiles(Joined(s, k))
    decreases k
  {
    if k > 1 {
      JoinedTiles(s, k - 1);
      var a, b := s[k - 2], s[k - 1];
      var j := Joined(s, k - 1);
      var r := j + GapBefore(a, b) + [b];
      forall i | 0 <= i < |r| ensures Proper(r[i]) {
        if i < |j| {
          assert r[i] == j[i];
        }
      }
      forall i | 0 <= i < |r| - 1 ensures r[i].src.stop == r[i + 1].src.start {
        if i + 1 < |j| {
          assert r[i] == j[i] && r[i + 1] == j[i + 1];
        } else if i + 1 == |j| {
          assert r[i] == a;
        }
      }
    }
  }

  /**
   * The gap loop of `complete_vectors_dicts` as evidently intended, up to
   * snapshot position k: the gap before a snapshot vector is inserted at
   * that vector's current position, its snapshot index plus the number of
   * gaps inserted so far.
   */
  function FilledFixed(snap: seq<Vector>, k: nat): (r: seq<Vector>)
    requires 1 <= k <= |snap|
    ensures |r| == |snap| + Inserts(snap, k)
    decreases k
  {
    if k == 1 then snap
    else
      var l := FilledFixed(snap, k - 1);
      if snap[k - 2].src.stop != snap[k - 1].src.start then Insert(l, k - 1 + Inserts(snap, k - 1), Identity(snap[k - 2].src.stop, snap[k - 1].src.start))
      else l
  }

  /** The number of gaps the loop has inserted up to snapshot position k. */
  function Inserts(snap: seq<Vector>, k: nat): (n: nat)
    requires 1 <= k <= |snap|
    ensures n < k
    decreases k
  {
    if k == 1 then 0
    else Inserts(snap, k - 1) + if snap[k - 2].src.stop != snap[k - 1].src.start then 1 else 0
  }

  /** Inserting right after a prefix j of l puts the new member between j and the rest of l. */
  lemma Spliced(l: seq<Vector>, j: seq<Vector>, b: Vector, after: seq<Vector>, g: Vector)
    requires l == j + ([b] + after)
    ensures Insert(l, |j|, g) == j + [g] + [b] + after
  {
    assert l[..|j|] == j && l[|j|..] == [b] + after;
  }

  /** A list made of a prefix j and then b and the rest is j + [b] followed by the rest. */
  lemma Regrouped(l: seq<Vector>, j: seq<Vector>, b: Vector, after: seq<Vector>)
    requires l == j + ([b] + after)
    ensures l == j + [b] + after
  {
  }

  /** Without a gap before the k-th vector, joining k vectors appends it to the joined k - 1. */
  lemma JoinedNoGap(s: seq<Vector>, k: nat)
    requires 2 <= k <= |s| && s[k - 2].src.stop == s[k - 1].src.start
    ensures Joined(s, k) == Joined(s, k - 1) + [s[k - 1]]
  {
    assert GapBefore(s[k - 2], s[k - 1]) == [];
  }

  /** With a gap before the k-th vector, joining k vectors appends the gap and then the vector to the joined k - 1. */
  lemma JoinedGap(s: seq<Vector>, k: nat)
    requires 2 <= k <= |s| && s[k - 2].src.stop != s[k - 1].src.start
    ensures Joined(s, k) == Joined(s, k - 1) + [Identity(s[k - 2].src.stop, s[k - 1].src.start)] + [s[k - 1]]
  {
  }

  /** A list from position i on is its i-th member followed by the list from position i + 1. */
  lemma DropCons(s: seq<Vector>, i: nat)
    requires i < |s|
    ensures s[i..] == [s[i]] + s[i + 1..]
  {
  }

  /** The joined prefix holds the first k vectors and every gap inserted so far. */
  lemma {:induction false} JoinedLength(snap: seq<Vector>, k: nat)
    requires 1 <= k <= |snap|
    ensures |Joined(snap, k)| == k + Inserts(snap, k)
    decreases k
  {
    if k > 1 {
      JoinedLength(snap, k - 1);
    }
  }

  /** One pass of the corrected loop where a gap precedes the k-th snapshot vector. */
  lemma GapStep(snap: seq<Vector>, k: nat)
    requires 2 <= k <= |snap| && snap[k - 2].src.stop != snap[k - 1].src.start
    requires FilledFixed(snap, k - 1) == Joined(snap, k - 1) + snap[k - 1..]
    requires |Joined(snap, k - 1)| == k - 1 + Inserts(snap, k - 1)
    ensures FilledFixed(snap, k) == Joined(snap, k) + snap[k..]
  {
    DropCons(snap, k - 1);
    Spliced(FilledFixed(snap, k - 1), Joined(snap, k - 1), snap[k - 1], snap[k..], Identity(snap[k - 2].src.stop, snap[k - 1].src.start));
    JoinedGap(snap, k);
  }

  /** One pass of the corrected loop where no gap precedes the k-th snapshot vector. */
  lemma NoGapStep(snap: seq<Vector>, k: nat)
    requires 2 <= k <= |snap| && snap[k - 2].src.stop == snap[k - 1].src.start
    requires FilledFixed(snap, k - 1) == Joined(snap, k - 1) + snap[k - 1..]
    ensures FilledFixed(snap, k) == Joined(snap, k) + snap[k..]
  {
    DropCons(snap, k - 1);
    Regrouped(FilledFixed(snap, k - 1), Joined(snap, k - 1), snap[k - 1], snap[k..]);
    JoinedNoGap(snap, k);
  }

  /** Up to position k, the corrected loop has joined the snapshot's first k vectors and left the rest as they were. */
  lemma {:induction false} FilledFixedJoined(snap: seq<Vector>, k: nat)
    requires 1 <= k <= |snap|
    ensures FilledFixed(snap, k) == Joined(snap, k) + snap[k..]
    decreases k
  {
    if k == 1 {
      assert [snap[0]] + snap[1..] == snap;
    } else {
      FilledFixedJoined(snap, k - 1);
      if snap[k - 2].src.stop != snap[k - 1].src.start {
        JoinedLength(snap, k - 1);
        GapStep(snap, k);
      } else {
        NoGapStep(snap, k);
      }
    }
  }

  /** `complete_vectors_dicts` with the corrected gap loop, on a list that is not empty. */
  function CompletedFixed(vs: seq<Vector>, max: int): (r: seq<Vector>)
    requires vs != []
  {
    var snap := Framed(vs, max);
    FilledFixed(snap, |snap|)
  }

  /** The corrected completion is the framed list with its gaps filled. */
  lemma CompletedFixedJoined(vs: seq<Vector>, max: int)
    requires vs != []
    ensures CompletedFixed(vs, max) == Joined(Framed(vs, max), |Framed(vs, max)|)
  {
    var snap := Framed(vs, max);
    FilledFixedJoined(snap, |snap|);
    assert snap[..|snap|] == snap && snap[|snap|..] == [];
  }

  // ---------------------------------------------------------------- what the completed vectors map

  /** In a chained list, every vector ends before any later one starts. */
  lemma {:induction false} ChainedOrder(vs: seq<Vector>, i: nat, j: nat)
    requires Chained(vs) && i < j < |vs|
    ensures vs[i].src.stop <= vs[j].src.start
    decreases j - i
  {
    if i + 1 < j {
      ChainedOrder(vs, i + 1, j);
      assert Proper(vs[i + 1]);
    }
  }

  /** A list of vectors that fill their span is chained. */
  lemma TilesChained(vs: seq<Vector>)
    requires Tiles(vs)
    ensures Chained(vs)
  {
  }

  /** Where no vector holds x, `get_mapped_object_id` returns x itself. */
  lemma {:induction false} MappedMissing(vs: seq<Vector>, x: int)
    requires forall k :: 0 <= k < |vs| ==> !Day05Py1.Holds(vs[k], x)
    ensures Day05Py1.MappedId(vs, x) == x
    decreases |vs|
  {
    if vs != [] {
      assert !Day05Py1.Holds(vs[0], x);
      assert forall k :: 0 <= k < |vs| - 1 ==> vs[1..][k] == vs[k + 1];
      MappedMissing(vs[1..], x);
    }
  }

  /** Where the h-th vector is the first to hold x, x is sent along that vector. */
  lemma {:induction false} MappedFirst(vs: seq<Vector>, x: int, h: nat)
    requires h < |vs| && Day05Py1.Holds(vs[h], x)
    requires forall k :: 0 <= k < h ==> !Day05Py1.Holds(vs[k], x)
    ensures Day05Py1.MappedId(vs, x) == vs[h].dst.start + (x - vs[h].src.start)
    decreases h
  {
    if h > 0 {
      assert !Day05Py1.Holds(vs[0], x);
      assert forall k :: 0 <= k < |vs| - 1 ==> vs[1..][k] == vs[k + 1];
      MappedFirst(vs[1..], x, h - 1);
    }
  }

  /** In a chained list, the vector holding x is the only one, so x is sent along it. */
  lemma MappedAt(vs: seq<Vector>, x: int, h: nat)
    requires Chained(vs) && h < |vs| && Day05Py1.Holds(vs[h], x)
    ensures Day05Py1.MappedId(vs, x) == vs[h].dst.start + (x - vs[h].src.start)
  {
    forall k | 0 <= k < h ensures !Day05Py1.Holds(vs[k], x) {
      ChainedOrder(vs, k, h);
    }
    MappedFirst(vs, x, h);
  }

  /**
   * A chained list t holding every vector of a chained list vs, and
   * otherwise only vectors that send numbers to themselves, maps every
   * number as vs does.
   */
  lemma SameMapping(t: seq<Vector>, vs: seq<Vector>, x: int)
    requires Chained(t) && Chained(vs)
    requires forall i :: 0 <= i < |vs| ==> vs[i] in t
    requires forall v :: v in t ==> v in vs || v.dst.start == v.src.start
    ensures Day05Py1.MappedId(t, x) == Day05Py1.MappedId(vs, x)
  {
    if h :| 0 <= h < |t| && Day05Py1.Holds(t[h], x) {
      MappedAt(t, x, h);
      if i :| 0 <= i < |vs| && Day05Py1.Holds(vs[i], x) {
        MappedAt(vs, x, i);
        var h' :| 0 <= h' < |t| && t[h'] == vs[i];
        if h' < h {
          ChainedOrder(t, h', h);
        } else if h < h' {
          ChainedOrder(t, h, h');
        }
      } else {
        MappedMissing(vs, x);
        assert t[h] in t;
      }
    } else {
      MappedMissing(t, x);
      forall i | 0 <= i < |vs| ensures !Day05Py1.Holds(vs[i], x) {
        var h :| 0 <= h < |t| && t[h] == vs[i];
      }
      MappedMissing(vs, x);
    }
  }

  /** A vector of the joined prefix is one of the list's, or a gap sent to itself; every one of the list's first k is there. */
  lemma {:induction false} JoinedMembers(s: seq<Vector>, k: nat)
    requires 1 <= k <= |s|
    ensures forall i :: 0 <= i < k ==> s[i] in Joined(s, k)
    ensures forall v :: v in Joined(s, k) ==> v in s || v.dst.start == v.src.start
    decreases k
  {
    if k > 1 {
      JoinedMembers(s, k - 1);
      var j := Joined(s, k - 1);
      var g := GapBefore(s[k - 2], s[k - 1]);
      assert Joined(s, k) == j + g + [s[k - 1]];
      forall v | v in g ensures v.dst.start == v.src.start {
      }
    }
  }

  /** The framed list holds every vector of the list, and otherwise vectors sent to themselves. */
  lemma FramedMembers(vs: seq<Vector>, max: int)
    requires vs != []
    ensures forall i :: 0 <= i < |vs| ==> vs[i] in Framed(vs, max)
    ensures forall v :: v in Framed(vs, max) ==> v in vs || v.dst.start == v.src.start
  {
    var front := if vs[0].src.start != 0 then [Identity(0, vs[0].src.start)] + vs else vs;
    assert Framed(vs, max) == front + [Identity(front[|front| - 1].src.stop, max)];
    forall i | 0 <= i < |vs| ensures vs[i] in front {
      if vs[0].src.start != 0 {
        assert front[i + 1] == vs[i];
      }
    }
  }

  /** The corrected completion of a chained list inside [0, max) fills [0, max) without a gap. */
  lemma CompletedFixedTiles(vs: seq<Vector>, max: int)
    requires vs != [] && Chained(vs) && 0 <= vs[0].src.start && vs[|vs| - 1].src.stop < max
    ensures var t := CompletedFixed(vs, max);
      Tiles(t) && t[0].src.start == 0 && t[|t| - 1].src.stop == max
  {
    var f := Framed(vs, max);
    FramedChained(vs, max);
    CompletedFixedJoined(vs, max);
    JoinedTiles(f, |f|);
  }

  /** The corrected completion holds the list's vectors, and otherwise only vectors sending numbers to themselves. */
  lemma CompletedFixedMembers(vs: seq<Vector>, max: int)
    requires vs != []
    ensures var t := CompletedFixed(vs, max);
      && (forall i :: 0 <= i < |vs| ==> vs[i] in t)
      && (forall v :: v in t ==> v in vs || v.dst.start == v.src.start)
  {
    var f := Framed(vs, max);
    var t := CompletedFixed(vs, max);
    CompletedFixedJoined(vs, max);
    JoinedMembers(f, |f|);
    FramedMembers(vs, max);
    forall i | 0 <= i < |vs| ensures vs[i] in t {
      var h :| 0 <= h < |f| && f[h] == vs[i];
    }
  }

  /** The corrected completion of a chained list inside [0, max) maps every number as the list does. */
  lemma CompletedFixedMapping(vs: seq<Vector>, max: int, x: int)
    requires vs != [] && Chained(vs) && 0 <= vs[0].src.start && vs[|vs| - 1].src.stop < max
    ensures Day05Py1.MappedId(CompletedFixed(vs, max), x) == Day05Py1.MappedId(vs, x)
  {
    CompletedFixedTiles(vs, max);
    CompletedFixedMembers(vs, max);
    TilesChained(CompletedFixed(vs, max));
    SameMapping(CompletedFixed(vs, max), vs, x);
  }

  // ---------------------------------------------------------------- the corrected get_mapped_range

  /** The vectors fill [0, max) without a gap. */
  ghost predicate Tiling(t: seq<Vector>, max: int) {
    t != [] && Tiles(t) && t[0].src.start == 0 && t[|t| - 1].src.stop == max
  }

  /** A range holding at least one number, all of them in [0, max). */
  predicate Inside(r: PyRange, max: int) {
    0 <= r.start < r.stop <= max
  }

  /** Every vector sends its source range into [0, max). */
  ghost predicate DstInside(t: seq<Vector>, max: int) {
    forall k :: 0 <= k < |t| ==> 0 <= t[k].dst.start && t[k].dst.start + (t[k].src.stop - t[k].src.start) <= max
  }

  /** Some range of the list holds y. */
  ghost predicate InRanges(rs: seq<PyRange>, y: int) {
    exists q :: 0 <= q < |rs| && rs[q].start <= y < rs[q].stop
  }

  /** The first vector from position `from` on whose source stop is at or above b. */
  function FirstReaching(vs: seq<Vector>, from: nat, b: int): (r: Option<nat>)
    ensures r.Some? ==> from <= r.value < |vs| && b <= vs[r.value].src.stop
    ensures forall j :: from <= j < |vs| && (r.None? || j < r.value) ==> vs[j].src.stop < b
    decreases |vs| - from
  {
    if from >= |vs| then None
    else if b <= vs[from].src.stop then Some(from)
    else FirstReaching(vs, from + 1, b)
  }

  /**
   * The p-th piece of a range over the run of vectors lo..hi, with the
   * stop of the source taken as exclusive: from the range's start on the
   * first vector of the run, up to the range's stop on the last.
   */
  function PieceFixed(vs: seq<Vector>, r: PyRange, lo: nat, hi: nat, p: nat): PyRange
    requires lo + p <= hi < |vs|
  {
    var v := vs[lo + p];
    var bot := if p == 0 then r.start - v.src.start else 0;
    var top := if lo + p == hi then r.stop - v.src.start else v.src.stop - v.src.start;
    PyRange(v.dst.start + bot, v.dst.start + top)
  }

  /** The pieces of a range over the run of vectors lo..hi. */
  function Pieces(vs: seq<Vector>, r: PyRange, lo: nat, hi: nat): (ps: seq<PyRange>)
    requires lo <= hi < |vs|
  {
    seq(hi - lo + 1, p requires 0 <= p <= hi - lo => PieceFixed(vs, r, lo, hi, p))
  }

  /**
   * `get_mapped_range` as evidently intended: the run of vectors goes from
   * the one holding the range's start to the first whose stop is at or
   * above the range's stop (`<=`, not `<`), and each piece keeps the last
   * number of its part of the range.  None where no vector is found.
   */
  function MappedRangeFixed(vs: seq<Vector>, r: PyRange): Option<seq<PyRange>> {
    match FirstAbove(vs, 0, r.start)
    case None => None
    case Some(i) =>
      match FirstReaching(vs, i, r.stop)
      case None => None
      case Some(j) => Some(Pieces(vs, r, i, j))
  }

  /** The run lo..hi fits the range: its first vector holds the start, its last the last number, and the others lie between. */
  ghost predicate Fits(vs: seq<Vector>, r: PyRange, lo: nat, hi: nat)
    requires lo <= hi < |vs|
  {
    && vs[lo].src.start <= r.start < vs[lo].src.stop
    && vs[hi].src.start < r.stop <= vs[hi].src.stop
    && (forall h :: lo < h <= hi ==> r.start < vs[h].src.start)
    && (forall h :: lo <= h < hi ==> vs[h].src.stop < r.stop)
  }

  /** A piece of a fitting run holds numbers and lies inside [0, max) when its vector sends its source there. */
  lemma PieceInside(vs: seq<Vector>, r: PyRange, lo: nat, hi: nat, p: nat, max: int)
    requires lo + p <= hi < |vs| && Fits(vs, r, lo, hi) && Proper(vs[lo + p]) && r.start < r.stop
    requires 0 <= vs[lo + p].dst.start && vs[lo + p].dst.start + (vs[lo + p].src.stop - vs[lo + p].src.start) <= max
    ensures Inside(PieceFixed(vs, r, lo, hi, p), max)
  {
  }

  /** A number of a piece of a fitting run is the image along the piece's vector of a number of the range it holds. */
  lemma PieceSound(vs: seq<Vector>, r: PyRange, lo: nat, hi: nat, p: nat, y: int) returns (x: int)
    requires lo + p <= hi < |vs| && Fits(vs, r, lo, hi)
    requires PieceFixed(vs, r, lo, hi, p).start <= y < PieceFixed(vs, r, lo, hi, p).stop
    ensures r.start <= x < r.stop && Day05Py1.Holds(vs[lo + p], x) && vs[lo + p].dst.start + (x - vs[lo + p].src.start) == y
  {
    x := vs[lo + p].src.start + (y - vs[lo + p].dst.start);
  }

  /** The image of a number of the range along a vector of a fitting run that holds it lies in the vector's piece. */
  lemma PieceComplete(vs: seq<Vector>, r: PyRange, lo: nat, hi: nat, h: nat, x: int)
    requires lo <= h <= hi < |vs| && Fits(vs, r, lo, hi)
    requires Day05Py1.Holds(vs[h], x) && r.start <= x < r.stop
    ensures InRanges(Pieces(vs, r, lo, hi), vs[h].dst.start + (x - vs[h].src.start))
  {
    var ps := Pieces(vs, r, lo, hi);
    assert ps[h - lo] == PieceFixed(vs, r, lo, hi, h - lo);
  }

  /** In a tiling, the vector found for a number inside [0, max) holds it. */
  lemma TiledHolder(t: seq<Vector>, max: int, x: int)
    requires Tiling(t, max) && 0 <= x < max
    ensures FirstAbove(t, 0, x).Some? && Day05Py1.Holds(t[FirstAbove(t, 0, x).value], x)
  {
    var h := FirstAbove(t, 0, x);
    assert t[|t| - 1].src.stop > x;
    if h.value > 0 {
      assert t[h.value - 1].src.stop == t[h.value].src.start;
    }
  }


  /** In a tiling, an inside range has a fitting run: from the vector holding its start to the one holding its last number. */
  lemma RangeRun(t: seq<Vector>, max: int, r: PyRange) returns (i: nat, j: nat)
    requires Tiling(t, max) && Inside(r, max)
    ensures i <= j < |t| && MappedRangeFixed(t, r) == Some(Pieces(t, r, i, j)) && Fits(t, r, i, j)
  {
    TiledHolder(t, max, r.start);
    TilesChained(t);
    i := FirstAbove(t, 0, r.start).value;
    assert t[|t| - 1].src.stop >= r.stop;
    j := FirstReaching(t, i, r.stop).value;
    if j > i {
      assert t[j - 1].src.stop == t[j].src.start;
    }
    forall h | i < h <= j ensures r.start < t[h].src.start {
      ChainedOrder(t, i, h);
    }
  }

  /** The pieces of an inside range under a tiling hold numbers, all inside [0, max). */
  lemma MappedRangeInside(t: seq<Vector>, max: int, r: PyRange)
    requires Tiling(t, max) && DstInside(t, max) && Inside(r, max)
    ensures MappedRangeFixed(t, r).Some?
    ensures var ps := MappedRangeFixed(t, r).value;
      forall q :: 0 <= q < |ps| ==> Inside(ps[q], max)
  {
    var i, j := RangeRun(t, max, r);
    var ps := Pieces(t, r, i, j);
    forall q | 0 <= q < |ps| ensures Inside(ps[q], max) {
      assert Proper(t[i + q]);
      PieceInside(t, r, i, j, q, max);
    }
  }

  /** In a tiling, every vector ends before any later one starts. */
  lemma TiledOrder(t: seq<Vector>, max: int, i: nat, j: nat)
    requires Tiling(t, max) && i < j < |t|
    ensures t[i].src.stop <= t[j].src.start
  {
    TilesChained(t);
    ChainedOrder(t, i, j);
  }

  /** In a tiling, x is sent along the vector holding it. */
  lemma MappedAtTiled(t: seq<Vector>, max: int, x: int, h: nat)
    requires Tiling(t, max) && h < |t| && Day05Py1.Holds(t[h], x)
    ensures Day05Py1.MappedId(t, x) == t[h].dst.start + (x - t[h].src.start)
  {
    TilesChained(t);
    MappedAt(t, x, h);
  }

  /** Every number of a piece is the image of a number of the range. */
  lemma MappedRangeSound(t: seq<Vector>, max: int, r: PyRange, y: int)
    requires Tiling(t, max) && Inside(r, max)
    requires MappedRangeFixed(t, r).Some? && InRanges(MappedRangeFixed(t, r).value, y)
    ensures exists x :: r.start <= x < r.stop && Day05Py1.MappedId(t, x) == y
  {
    var i, j := RangeRun(t, max, r);
    PiecesSound(t, max, r, i, j, y);
  }

  /** Every number of a piece of a fitting run is the image of a number of the range. */
  lemma {:induction false} PiecesSound(t: seq<Vector>, max: int, r: PyRange, i: nat, j: nat, y: int)
    requires Tiling(t, max) && i <= j < |t| && Fits(t, r, i, j) && InRanges(Pieces(t, r, i, j), y)
    ensures exists x :: r.start <= x < r.stop && Day05Py1.MappedId(t, x) == y
  {
    var ps := Pieces(t, r, i, j);
    var q :| 0 <= q < |ps| && ps[q].start <= y < ps[q].stop;
    var x := PieceSound(t, r, i, j, q, y);
    MappedAtTiled(t, max, x, i + q);
  }

  /** The image of every number of the range lies in a piece. */
  lemma MappedRangeComplete(t: seq<Vector>, max: int, r: PyRange, x: int)
    requires Tiling(t, max) && Inside(r, max) && r.start <= x < r.stop
    ensures MappedRangeFixed(t, r).Some? && InRanges(MappedRangeFixed(t, r).value, Day05Py1.MappedId(t, x))
  {
    var i, j := RangeRun(t, max, r);
    PiecesComplete(t, max, r, i, j, x);
  }

  /** The image of every number of the range lies in a piece of a fitting run. */
  lemma {:induction false} PiecesComplete(t: seq<Vector>, max: int, r: PyRange, i: nat, j: nat, x: int)
    requires Tiling(t, max) && Inside(r, max) && r.start <= x < r.stop && i <= j < |t| && Fits(t, r, i, j)
    ensures InRanges(Pieces(t, r, i, j), Day05Py1.MappedId(t, x))
  {
    TiledHolder(t, max, x);
    var h := FirstAbove(t, 0, x).value;
    assert i <= h by {
      if h < i {
        TiledOrder(t, max, h, i);
      }
    }
    MappedAtTiled(t, max, x, h);
    PieceComplete(t, r, i, j, h, x);
  }

  // ---------------------------------------------------------------- the corrected process_all_seed_ranges

  /** The pieces of the ranges one map makes, after those already in `acc`, with the corrected `get_mapped_range`. */
  function MapAllFixed(vs: seq<Vector>, rs: seq<PyRange>, acc: seq<PyRange>): Option<seq<PyRange>>
    decreases |rs|
  {
    if rs == [] then Some(acc)
    else match MappedRangeFixed(vs, rs[0])
      case None => None
      case Some(pieces) => MapAllFixed(vs, rs[1..], acc + pieces)
  }

  /** The ranges the maps, in turn, make of the given ranges with the corrected `get_mapped_range`. */
  function SpreadFixed(maps: seq<seq<Vector>>, rs: seq<PyRange>): Option<seq<PyRange>>
    decreases |maps|
  {
    if maps == [] then Some(rs)
    else match MapAllFixed(maps[0], rs, [])
      case None => None
      case Some(next) => SpreadFixed(maps[1..], next)
  }

  /** Where the maps of vectors, in turn, send x. */
  function Sent(maps: seq<seq<Vector>>, x: int): int
    decreases |maps|
  {
    if maps == [] then x else Sent(maps[1..], Day05Py1.MappedId(maps[0], x))
  }

  /** Every range of the list holds numbers, all inside [0, max). */
  ghost predicate AllInside(rs: seq<PyRange>, max: int) {
    forall q :: 0 <= q < |rs| ==> Inside(rs[q], max)
  }

  /** Every map's vectors tile [0, max) and send their sources into it. */
  ghost predicate Tilings(maps: seq<seq<Vector>>, max: int) {
    forall m :: 0 <= m < |maps| ==> Tiling(maps[m], max) && DstInside(maps[m], max)
  }

  /** A number lies in two lists of ranges put together exactly when it lies in one of them. */
  lemma InRangesConcat(a: seq<PyRange>, b: seq<PyRange>, y: int)
    ensures InRanges(a + b, y) <==> InRanges(a, y) || InRanges(b, y)
  {
    if InRanges(a + b, y) {
      var q :| 0 <= q < |a + b| && (a + b)[q].start <= y < (a + b)[q].stop;
      if q >= |a| {
        assert b[q - |a|] == (a + b)[q];
      }
    }
    if InRanges(b, y) {
      var q :| 0 <= q < |b| && b[q].start <= y < b[q].stop;
      assert (a + b)[|a| + q] == b[q];
    }
    if InRanges(a, y) {
      var q :| 0 <= q < |a| && a[q].start <= y < a[q].stop;
      assert (a + b)[q] == a[q];
    }
  }

  /** A number lies in a list of ranges exactly when it lies in the first or in the rest. */
  lemma InRangesCons(rs: seq<PyRange>, x: int)
    requires rs != []
    ensures InRanges(rs, x) <==> (rs[0].start <= x < rs[0].stop || InRanges(rs[1..], x))
  {
    if InRanges(rs, x) {
      var q :| 0 <= q < |rs| && rs[q].start <= x < rs[q].stop;
      if q > 0 {
        assert rs[1..][q - 1] == rs[q];
      }
    }
    if InRanges(rs[1..], x) {
      var q :| 0 <= q < |rs[1..]| && rs[1..][q].start <= x < rs[1..][q].stop;
      assert rs[q + 1] == rs[1..][q];
    }
  }

  /** Under a tiling, the pieces of inside ranges are inside ranges. */
  lemma {:induction false} MapAllInside(t: seq<Vector>, max: int, rs: seq<PyRange>, acc: seq<PyRange>)
    requires Tiling(t, max) && DstInside(t, max) && AllInside(rs, max) && AllInside(acc, max)
    ensures MapAllFixed(t, rs, acc).Some? && AllInside(MapAllFixed(t, rs, acc).value, max)
    decreases |rs|
  {
    if rs != [] {
      MappedRangeInside(t, max, rs[0]);
      var pieces := MappedRangeFixed(t, rs[0]).value;
      assert AllInside(acc + pieces, max) by {
        forall q | 0 <= q < |acc + pieces| ensures Inside((acc + pieces)[q], max) {
          if q >= |acc| {
            assert (acc + pieces)[q] == pieces[q - |acc|];
          }
        }
      }
      assert AllInside(rs[1..], max) by {
        forall q | 0 <= q < |rs[1..]| ensures Inside(rs[1..][q], max) {
          assert rs[1..][q] == rs[q + 1];
        }
      }
      MapAllInside(t, max, rs[1..], acc + pieces);
    }
  }

  /** A number of the pieces was already in `acc`, or is the image of a number of the ranges. */
  lemma {:induction false} MapAllSound(t: seq<Vector>, max: int, rs: seq<PyRange>, acc: seq<PyRange>, y: int)
    requires Tiling(t, max) && AllInside(rs, max)
    requires MapAllFixed(t, rs, acc).Some? && InRanges(MapAllFixed(t, rs, acc).value, y)
    ensures InRanges(acc, y) || exists x :: InRanges(rs, x) && Day05Py1.MappedId(t, x) == y
    decreases |rs|
  {
    if rs != [] {
      var pieces := MappedRangeFixed(t, rs[0]).value;
      assert AllInside(rs[1..], max) by {
        forall q | 0 <= q < |rs[1..]| ensures Inside(rs[1..][q], max) {
          assert rs[1..][q] == rs[q + 1];
        }
      }
      MapAllSound(t, max, rs[1..], acc + pieces, y);
      InRangesConcat(acc, pieces, y);
      if InRanges(rs[1..], y) || exists x :: InRanges(rs[1..], x) && Day05Py1.MappedId(t, x) == y {
        if x :| InRanges(rs[1..], x) && Day05Py1.MappedId(t, x) == y {
          InRangesCons(rs, x);
        }
      }
      if !InRanges(acc, y) && InRanges(pieces, y) {
        assert Inside(rs[0], max);
        MappedRangeSound(t, max, rs[0], y);
        var x :| rs[0].start <= x < rs[0].stop && Day05Py1.MappedId(t, x) == y;
        InRangesCons(rs, x);
      }
    }
  }

  /** The numbers of `acc` stay among the pieces. */
  lemma {:induction false} MapAllKeeps(t: seq<Vector>, rs: seq<PyRange>, acc: seq<PyRange>, y: int)
    requires MapAllFixed(t, rs, acc).Some? && InRanges(acc, y)
    ensures InRanges(MapAllFixed(t, rs, acc).value, y)
    decreases |rs|
  {
    if rs != [] {
      var pieces := MappedRangeFixed(t, rs[0]).value;
      InRangesConcat(acc, pieces, y);
      MapAllKeeps(t, rs[1..], acc + pieces, y);
    }
  }

  /** The image of a number of the ranges lies among the pieces. */
  lemma {:induction false} MapAllComplete(t: seq<Vector>, max: int, rs: seq<PyRange>, acc: seq<PyRange>, x: int)
    requires Tiling(t, max) && AllInside(rs, max) && InRanges(rs, x)
    requires MapAllFixed(t, rs, acc).Some?
    ensures InRanges(MapAllFixed(t, rs, acc).value, Day05Py1.MappedId(t, x))
    decreases |rs|
  {
    var y := Day05Py1.MappedId(t, x);
    var pieces := MappedRangeFixed(t, rs[0]).value;
    InRangesCons(rs, x);
    if rs[0].start <= x < rs[0].stop {
      assert Inside(rs[0], max);
      MappedRangeComplete(t, max, rs[0], x);
      InRangesConcat(acc, pieces, y);
      MapAllKeeps(t, rs[1..], acc + pieces, y);
    } else {
      assert AllInside(rs[1..], max) by {
        forall q | 0 <= q < |rs[1..]| ensures Inside(rs[1..][q], max) {
          assert rs[1..][q] == rs[q + 1];
        }
      }
      MapAllComplete(t, max, rs[1..], acc + pieces, x);
    }
  }

  /** Tilings of the maps keep inside ranges inside. */
  lemma {:induction false} SpreadInside(maps: seq<seq<Vector>>, max: int, rs: seq<PyRange>)
    requires Tilings(maps, max) && AllInside(rs, max)
    ensures SpreadFixed(maps, rs).Some? && AllInside(SpreadFixed(maps, rs).value, max)
    decreases |maps|
  {
    if maps != [] {
      MapAllInside(maps[0], max, rs, []);
      assert Tilings(maps[1..], max) by {
        forall m | 0 <= m < |maps[1..]| ensures Tiling(maps[1..][m], max) && DstInside(maps[1..][m], max) {
          assert maps[1..][m] == maps[m + 1];
        }
      }
      SpreadInside(maps[1..], max, MapAllFixed(maps[0], rs, []).value);
    }
  }

  /** Every number of the final ranges is where the maps send a number of the given ranges. */
  lemma {:induction false} SpreadSound(maps: seq<seq<Vector>>, max: int, rs: seq<PyRange>, y: int)
    requires Tilings(maps, max) && AllInside(rs, max)
    requires SpreadFixed(maps, rs).Some? && InRanges(SpreadFixed(maps, rs).value, y)
    ensures exists x :: InRanges(rs, x) && Sent(maps, x) == y
    decreases |maps|
  {
    if maps != [] {
      MapAllInside(maps[0], max, rs, []);
      var next := MapAllFixed(maps[0], rs, []).value;
      assert Tilings(maps[1..], max) by {
        forall m | 0 <= m < |maps[1..]| ensures Tiling(maps[1..][m], max) && DstInside(maps[1..][m], max) {
          assert maps[1..][m] == maps[m + 1];
        }
      }
      SpreadSound(maps[1..], max, next, y);
      var z :| InRanges(next, z) && Sent(maps[1..], z) == y;
      MapAllSound(maps[0], max, rs, [], z);
      var x :| InRanges(rs, x) && Day05Py1.MappedId(maps[0], x) == z;
      assert Sent(maps, x) == y;
    }
  }

  /** The maps send every number of the given ranges into the final ranges. */
  lemma {:induction false} SpreadComplete(maps: seq<seq<Vector>>, max: int, rs: seq<PyRange>, x: int)
    requires Tilings(maps, max) && AllInside(rs, max) && InRanges(rs, x)
    ensures SpreadFixed(maps, rs).Some? && InRanges(SpreadFixed(maps, rs).value, Sent(maps, x))
    decreases |maps|
  {
    SpreadInside(maps, max, rs);
    if maps != [] {
      MapAllInside(maps[0], max, rs, []);
      var next := MapAllFixed(maps[0], rs, []).value;
      MapAllComplete(maps[0], max, rs, [], x);
      assert Tilings(maps[1..], max) by {
        forall m | 0 <= m < |maps[1..]| ensures Tiling(maps[1..][m], max) && DstInside(maps[1..][m], max) {
          assert maps[1..][m] == maps[m + 1];
        }
      }
      SpreadComplete(maps[1..], max, next, Day05Py1.MappedId(maps[0], x));
    }
  }

  // ---------------------------------------------------------------- the corrected script

  /**
   * A map as the puzzle gives it: rules that move at least one number,
   * do not overlap, and send [0, max_range_stop) numbers into it, the
   * sources ending below `max_range_stop`.
   */
  ghost predicate SoundMap(rules: seq<Rule>) {
    && rules != [] && Disjoint(rules) && Positive(rules)
    && forall k :: 0 <= k < |rules| ==>
         0 <= rules[k].src && rules[k].src + rules[k].len < MaxRangeStop
         && 0 <= rules[k].dst && rules[k].dst + rules[k].len <= MaxRangeStop
  }

  /** The vectors of a tiling lie inside [0, max). */
  lemma TilingWithin(t: seq<Vector>, max: int, k: nat)
    requires Tiling(t, max) && k < |t|
    ensures 0 <= t[k].src.start && t[k].src.stop <= max
  {
    TilesChained(t);
    if 0 < k {
      ChainedOrder(t, 0, k);
      assert Proper(t[0]);
    }
    if k < |t| - 1 {
      ChainedOrder(t, k, |t| - 1);
      assert Proper(t[|t| - 1]);
    }
  }

  /** The corrected completion of the vectors of a sound map sends every vector's source into [0, max_range_stop). */
  lemma MapDstInside(rules: seq<Rule>)
    requires SoundMap(rules)
    requires Tiling(CompletedFixed(Built(rules), MaxRangeStop), MaxRangeStop)
    ensures DstInside(CompletedFixed(Built(rules), MaxRangeStop), MaxRangeStop)
  {
    var vs := Built(rules);
    var t := CompletedFixed(vs, MaxRangeStop);
    CompletedFixedMembers(vs, MaxRangeStop);
    forall k | 0 <= k < |t| ensures 0 <= t[k].dst.start && t[k].dst.start + (t[k].src.stop - t[k].src.start) <= MaxRangeStop {
      assert t[k] in t;
      if t[k] in vs {
        var i :| 0 <= i < |vs| && vs[i] == t[k];
        BuiltFrom(rules, i);
      } else {
        TilingWithin(t, MaxRangeStop, k);
      }
    }
  }

  /** The vectors built from a sound map are ordered and lie inside [0, max_range_stop). */
  lemma BuiltWithin(rules: seq<Rule>)
    requires SoundMap(rules)
    ensures var vs := Built(rules);
      vs != [] && Chained(vs) && 0 <= vs[0].src.start && vs[|vs| - 1].src.stop < MaxRangeStop
  {
    var vs := Built(rules);
    BuiltChained(rules);
    BuiltFrom(rules, 0);
    BuiltFrom(rules, |vs| - 1);
  }

  /** The corrected completion of the vectors of a sound map sends a number where the rules do. */
  lemma MapConverts(rules: seq<Rule>, x: int)
    requires SoundMap(rules)
    ensures Day05Py1.MappedId(CompletedFixed(Built(rules), MaxRangeStop), x) == Convert(rules, x)
  {
    BuiltWithin(rules);
    DisjointConsistent(rules);
    CompletedFixedMapping(Built(rules), MaxRangeStop, x);
    Day05Py1.BuiltMapped(rules, x);
  }

  /** The corrected completion of the vectors of a sound map tiles [0, max_range_stop), stays inside it and maps every number as the rules do. */
  lemma MapTiling(rules: seq<Rule>)
    requires SoundMap(rules)
    ensures var t := CompletedFixed(Built(rules), MaxRangeStop);
      && Tiling(t, MaxRangeStop) && DstInside(t, MaxRangeStop)
      && forall x :: Day05Py1.MappedId(t, x) == Convert(rules, x)
  {
    BuiltWithin(rules);
    CompletedFixedTiles(Built(rules), MaxRangeStop);
    MapDstInside(rules);
    forall x ensures Day05Py1.MappedId(CompletedFixed(Built(rules), MaxRangeStop), x) == Convert(rules, x) {
      MapConverts(rules, x);
    }
  }

  /** The corrected completed vectors of every map, None when one of them has no rules. */
  function CompletedMapsFixed(maps: seq<seq<Rule>>): Option<seq<seq<Vector>>> {
    if forall k :: 0 <= k < |maps| ==> maps[k] != [] then
      Some(seq(|maps|, k requires 0 <= k < |maps| => CompletedFixed(Built(maps[k]), MaxRangeStop)))
    else None
  }

  /** Vector maps that send every number as the rule maps do send it, in turn, where the rule maps do. */
  lemma {:induction false} SentThrough(ts: seq<seq<Vector>>, maps: seq<seq<Rule>>, x: int)
    requires |ts| == |maps|
    requires forall m, y :: 0 <= m < |ts| ==> Day05Py1.MappedId(ts[m], y) == Convert(maps[m], y)
    ensures Sent(ts, x) == Through(maps, x)
    decreases |ts|
  {
    if ts != [] {
      assert forall m :: 0 <= m < |ts| - 1 ==> ts[1..][m] == ts[m + 1] && maps[1..][m] == maps[m + 1];
      SentThrough(ts[1..], maps[1..], Day05Py1.MappedId(ts[0], x));
    }
  }

  /** The corrected completions of sound maps tile [0, max_range_stop) and send every number where the rules do. */
  lemma MapsTiling(maps: seq<seq<Rule>>)
    requires forall m :: 0 <= m < |maps| ==> SoundMap(maps[m])
    ensures CompletedMapsFixed(maps).Some?
    ensures var ts := CompletedMapsFixed(maps).value;
      Tilings(ts, MaxRangeStop) && forall x :: Sent(ts, x) == Through(maps, x)
  {
    var ts := CompletedMapsFixed(maps).value;
    forall m | 0 <= m < |maps| ensures Tiling(ts[m], MaxRangeStop) && DstInside(ts[m], MaxRangeStop)
      && forall y :: Day05Py1.MappedId(ts[m], y) == Convert(maps[m], y)
    {
      MapTiling(maps[m]);
    }
    forall x ensures Sent(ts, x) == Through(maps, x) {
      SentThrough(ts, maps, x);
    }
  }

  /** The seeds' lists once every seed range was sent through the maps with the corrected steps. */
  function ProcessedFixed(es: seq<SeedEntry>, maps: seq<seq<Vector>>): (r: seq<SeedEntry>)
    ensures |r| == |es| && forall k :: 0 <= k < |es| ==> r[k].seeds == es[k].seeds
  {
    seq(|es|, k requires 0 <= k < |es| => SeedEntry(es[k].seeds, SpreadFixed(maps, [es[k].seeds])))
  }

  /** What the corrected script prints once the vectors are built. */
  function PrintoutFixed(es: seq<SeedEntry>, maps: seq<seq<Vector>>): Outcome {
    var p := ProcessedFixed(es, maps);
    if forall k :: 0 <= k < |p| ==> p[k].locations.Some? then Printed(Lowest(Starts(p))) else Raised
  }

  /** What the corrected script prints for a file's lines. */
  function AnswerFixed(fileLines: seq<string>): Outcome {
    match Parsed(Day03Py.Loaded(fileLines))
    case None => Raised
    case Some(d) =>
      match CompletedMapsFixed(Present(d.maps))
      case None => Raised
      case Some(maps) => PrintoutFixed(d.seeds, maps)
  }

  /** The start of every location range of a seed is among the starts. */
  lemma {:induction false} StartsHas(es: seq<SeedEntry>, k: nat, q: nat)
    requires forall i :: 0 <= i < |es| ==> es[i].locations.Some?
    requires k < |es| && q < |es[k].locations.value|
    ensures es[k].locations.value[q].start in Starts(es)
    decreases |es|
  {
    var n := |es| - 1;
    assert Starts(es) == Starts(es[..n]) + StartsOf(es[n].locations.value);
    if k < n {
      assert es[..n][k] == es[k];
      StartsHas(es[..n], k, q);
    } else {
      assert StartsOf(es[n].locations.value)[q] == es[k].locations.value[q].start;
    }
  }

  /** Every start is the start of a location range of a seed. */
  lemma {:induction false} StartsFrom(es: seq<SeedEntry>, v: int)
    requires forall i :: 0 <= i < |es| ==> es[i].locations.Some?
    requires v in Starts(es)
    ensures exists k, q :: 0 <= k < |es| && 0 <= q < |es[k].locations.value| && es[k].locations.value[q].start == v
    decreases |es|
  {
    var n := |es| - 1;
    assert Starts(es) == Starts(es[..n]) + StartsOf(es[n].locations.value);
    if v in Starts(es[..n]) {
      StartsFrom(es[..n], v);
      var k, q :| 0 <= k < n && 0 <= q < |es[..n][k].locations.value| && es[..n][k].locations.value[q].start == v;
      assert es[..n][k] == es[k];
    } else {
      var q :| 0 <= q < |es[n].locations.value| && StartsOf(es[n].locations.value)[q] == v;
    }
  }

  /** A single inside range is a list of inside ranges, whose numbers are its own. */
  lemma SingleInside(r: PyRange, max: int)
    requires Inside(r, max)
    ensures AllInside([r], max)
    ensures forall x :: InRanges([r], x) <==> r.start <= x < r.stop
  {
    forall x | r.start <= x < r.stop ensures InRanges([r], x) {
      assert [r][0] == r;
    }
  }

  /** The result is None exactly without seed ranges, and otherwise the location of a seed of a range that no seed of any range is below. */
  ghost predicate LowestOfAll(result: Option<int>, es: seq<SeedEntry>, maps: seq<seq<Rule>>) {
    && (result.None? <==> es == [])
    && (result.Some? ==>
          (exists k, x :: 0 <= k < |es| && es[k].seeds.start <= x < es[k].seeds.stop && result.value == Through(maps, x))
          && forall k, x :: 0 <= k < |es| && es[k].seeds.start <= x < es[k].seeds.stop ==> result.value <= Through(maps, x))
  }

  /**
   * With the corrected steps, and the seed ranges inside [0,
   * max_range_stop), the script prints the lowest location of the seeds
   * of all seed ranges under the vectors, and None only without seeds.
   */
  lemma PrintoutLowest(es: seq<SeedEntry>, ts: seq<seq<Vector>>, maps: seq<seq<Rule>>)
    requires Tilings(ts, MaxRangeStop) && forall x :: Sent(ts, x) == Through(maps, x)
    requires forall k :: 0 <= k < |es| ==> Inside(es[k].seeds, MaxRangeStop)
    ensures PrintoutFixed(es, ts).Printed? && LowestOfAll(PrintoutFixed(es, ts).result, es, maps)
  {
    var p := ProcessedFixed(es, ts);
    forall k | 0 <= k < |p| ensures p[k].locations.Some? && AllInside(p[k].locations.value, MaxRangeStop) {
      SingleInside(es[k].seeds, MaxRangeStop);
      SpreadInside(ts, MaxRangeStop, [es[k].seeds]);
    }
    var starts := Starts(p);
    var result := Lowest(starts);
    if es != [] {
      SingleInside(es[0].seeds, MaxRangeStop);
      SpreadComplete(ts, MaxRangeStop, [es[0].seeds], es[0].seeds.start);
      StartsHas(p, 0, 0);
    }
    if result.Some? {
      StartsFrom(p, result.value);
      var k, q :| 0 <= k < |p| && 0 <= q < |p[k].locations.value| && p[k].locations.value[q].start == result.value;
      var out := p[k].locations.value;
      assert Inside(out[q], MaxRangeStop);
      assert InRanges(out, result.value);
      SingleInside(es[k].seeds, MaxRangeStop);
      SpreadSound(ts, MaxRangeStop, [es[k].seeds], result.value);
      var x :| InRanges([es[k].seeds], x) && Sent(ts, x) == result.value;
      assert result.value == Through(maps, x);
      forall k, x | 0 <= k < |es| && es[k].seeds.start <= x < es[k].seeds.stop ensures result.value <= Through(maps, x) {
        SingleInside(es[k].seeds, MaxRangeStop);
        SpreadComplete(ts, MaxRangeStop, [es[k].seeds], x);
        var out := p[k].locations.value;
        var q :| 0 <= q < |out| && out[q].start <= Sent(ts, x) < out[q].stop;
        StartsHas(p, k, q);
        var i :| 0 <= i < |starts| && starts[i] == out[q].start;
      }
    }
  }

  /**
   * The corrected script answers the puzzle: with every map sound and
   * every seed range inside [0, max_range_stop), it prints the lowest
   * location of any seed of any seed range under the maps that exist,
   * applied in the order of the names, and None without seed ranges.
   */
  lemma AnswerFixedLowest(fileLines: seq<string>)
    requires Parsed(Day03Py.Loaded(fileLines)).Some?
    requires var d := Parsed(Day03Py.Loaded(fileLines)).value;
      && (forall m :: 0 <= m < |Present(d.maps)| ==> SoundMap(Present(d.maps)[m]))
      && (forall k :: 0 <= k < |d.seeds| ==> Inside(d.seeds[k].seeds, MaxRangeStop))
    ensures var d := Parsed(Day03Py.Loaded(fileLines)).value;
      var maps := Present(d.maps);
      AnswerFixed(fileLines).Printed? && LowestOfAll(AnswerFixed(fileLines).result, d.seeds, maps)
  {
    var d := Parsed(Day03Py.Loaded(fileLines)).value;
    MapsTiling(Present(d.maps));
    var ts := CompletedMapsFixed(Present(d.maps)).value;
    assert AnswerFixed(fileLines) == PrintoutFixed(d.seeds, ts);
    PrintoutLowest(d.seeds, ts, Present(d.maps));
  }
}
