/**
 * Two inputs on which py/05/prog_2.py as written (Day05Py2) prints
 * another number than the lowest location, next to what the corrected
 * steps (Day05Py2Fixed) print for them.
 */
module Day05Py2Findings {
  import opened Wrappers
  import opened Almanac
  import opened Day05Py
  import opened Day05Py2
  import opened Day05Py2Fixed

  // ---------------------------------------------------------------- a range ending where a vector ends

  /** The map with the one rule "0 12 1": 12 goes to 0. */
  const EndRules: seq<Rule> := [Rule(0, 12, 1)]

  /** Its completed vectors; the two completions agree since the map has no gap between rules. */
  const EndVectors: seq<Vector> := [Identity(0, 12), Vector(PyRange(12, 13), PyRange(0, 1)), Identity(13, MaxRangeStop)]

  /** Both completions of the map's vectors are the identity up to 12, the rule, and the identity after 13. */
  lemma EndCompleted()
    ensures Completed(Built(EndRules), MaxRangeStop) == EndVectors
    ensures CompletedFixed(Built(EndRules), MaxRangeStop) == EndVectors
  {
    var v := Vector(PyRange(12, 13), PyRange(0, 1));
    assert Built(EndRules) == [v];
    assert Framed([v], MaxRangeStop) == EndVectors;
    assert Filled(EndVectors, 2) == EndVectors;
    assert Inserts(EndVectors, 2) == 0;
    assert FilledFixed(EndVectors, 2) == EndVectors;
  }

  /**
   * The seed range 10..12 ends where the first vector ends: as written,
   * the search with `<` pulls in the vector of 12, whose piece ends at
   * index -1 and so holds the 0 it maps 12 to, and the first piece loses
   * 11.  The corrected steps give the one piece 10..12.
   */
  lemma EndPullsNext()
    ensures MappedRange(EndVectors, PyRange(10, 12)) == Some([PyRange(10, 11), PyRange(0, 0)])
    ensures MappedRangeFixed(EndVectors, PyRange(10, 12)) == Some([PyRange(10, 12)])
  {
    var r := PyRange(10, 12);
    assert FirstAbove(EndVectors, 1, 12) == Some(1);
    assert Bounds(EndVectors, r) == [0, 1];
    assert PieceAt(EndVectors, r, 0, 1, 0) == Some(PyRange(10, 11));
    assert PieceAt(EndVectors, r, 0, 1, 1) == Some(PyRange(0, 0));
    assert PiecesFrom(EndVectors, r, 0, 1, 2, [PyRange(10, 11), PyRange(0, 0)]) == Some([PyRange(10, 11), PyRange(0, 0)]);
    assert [PyRange(10, 11)] + [PyRange(0, 0)] == [PyRange(10, 11), PyRange(0, 0)];
    assert PiecesFrom(EndVectors, r, 0, 1, 1, [PyRange(10, 11)]) == Some([PyRange(10, 11), PyRange(0, 0)]);
    assert [] + [PyRange(10, 11)] == [PyRange(10, 11)];
    assert PiecesFrom(EndVectors, r, 0, 1, 0, []) == Some([PyRange(10, 11), PyRange(0, 0)]);
    assert FirstAbove(EndVectors, 0, 10) == Some(0);
    assert FirstReaching(EndVectors, 0, 12) == Some(0);
    assert Pieces(EndVectors, PyRange(10, 12), 0, 0) == [PyRange(10, 12)];
  }

  /** On those vectors, the seed range 10..12 is printed as 0. */
  lemma EndPrinted()
    ensures Printout([SeedEntry(PyRange(10, 12), None)], [EndVectors]) == Printed(Some(0))
  {
    var r := PyRange(10, 12);
    EndPullsNext();
    assert [r][1..] == [];
    assert [] + [PyRange(10, 11), PyRange(0, 0)] == [PyRange(10, 11), PyRange(0, 0)];
    assert MapAll(EndVectors, [r], []) == Some([PyRange(10, 11), PyRange(0, 0)]);
    assert Spread([EndVectors], [r]) == Some([PyRange(10, 11), PyRange(0, 0)]);
    var p := Processed([SeedEntry(r, None)], [EndVectors]);
    assert p[0] == SeedEntry(r, Some([PyRange(10, 11), PyRange(0, 0)]));
    assert p[..0] == [];
    assert Starts(p) == [10, 0];
  }

  /** The lowest location of the seeds 10 and 11 is 10, and the corrected script prints it. */
  lemma EndPrintedFixed()
    ensures PrintoutFixed([SeedEntry(PyRange(10, 12), None)], [EndVectors]) == Printed(Some(10))
    ensures Least(Locations([EndRules], [10, 11])) == 10
  {
    var r := PyRange(10, 12);
    EndPullsNext();
    assert [r][1..] == [];
    assert [] + [PyRange(10, 12)] == [PyRange(10, 12)];
    assert MapAllFixed(EndVectors, [r], []) == Some([PyRange(10, 12)]);
    assert SpreadFixed([EndVectors], [r]) == Some([PyRange(10, 12)]);
    var q := ProcessedFixed([SeedEntry(r, None)], [EndVectors]);
    assert q[0] == SeedEntry(r, Some([PyRange(10, 12)]));
    assert q[..0] == [];
    assert Starts(q) == [10];
    assert [EndRules][1..] == [];
    assert Through([EndRules], 10) == 10 && Through([EndRules], 11) == 11;
    assert Locations([EndRules], [10, 11]) == [10, 11];
  }

  /** With the seeds "10 2" and the map "0 12 1", the script as written prints 0; the lowest location is 10, which the corrected script prints. */
  lemma EndScript()
    ensures Printout([SeedEntry(PyRange(10, 12), None)], [Completed(Built(EndRules), MaxRangeStop)]) == Printed(Some(0))
    ensures PrintoutFixed([SeedEntry(PyRange(10, 12), None)], [CompletedFixed(Built(EndRules), MaxRangeStop)]) == Printed(Some(10))
    ensures Least(Locations([EndRules], [10, 11])) == 10
  {
    EndCompleted();
    EndPrinted();
    EndPrintedFixed();
  }

  // ---------------------------------------------------------------- a second gap

  /** A map with three rules and a gap after each of the first two. */
  const GapRules: seq<Rule> := [Rule(100, 0, 5), Rule(200, 10, 5), Rule(300, 20, 5)]

  /** The rules' vectors. */
  const V0 := Vector(PyRange(0, 5), PyRange(100, 105))
  const V1 := Vector(PyRange(10, 15), PyRange(200, 205))
  const V2 := Vector(PyRange(20, 25), PyRange(300, 305))

  /** The last identity vector of the framed list. */
  const Tail := Identity(25, MaxRangeStop)

  /** The gaps between the rules' vectors. */
  const G1 := Identity(5, 10)
  const G2 := Identity(15, 20)

  /** The completion as written: the second gap in front of V1. */
  const GapAsWritten: seq<Vector> := [V0, G1, G2, V1, V2, Tail]

  /** The completion with the corrected gap loop. */
  const GapFixed: seq<Vector> := [V0, G1, V1, G2, V2, Tail]

  /** The framed list of the map's vectors. */
  const GapFramedList: seq<Vector> := [V0, V1, V2, Tail]

  /** The built vectors, and the framed list the gap loop goes over. */
  lemma GapFramed()
    ensures Built(GapRules) == [V0, V1, V2]
    ensures Framed(Built(GapRules), MaxRangeStop) == GapFramedList
  {
    assert Built(GapRules[..1]) == [V0];
    assert Built(GapRules[..2]) == [V0, V1];
  }

  /**
   * As written, the second gap goes in at its vector's index in the
   * snapshot, 2, which after the first insertion is in front of V1.
   */
  lemma GapFilled()
    ensures Filled(GapFramedList, 4) == GapAsWritten
  {
    Spliced(GapFramedList, [V0], V1, [V2, Tail], G1);
    assert Filled(GapFramedList, 2) == [V0, G1, V1, V2, Tail];
    Spliced(Filled(GapFramedList, 2), [V0, G1], V1, [V2, Tail], G2);
  }

  /** The corrected loop puts the second gap after V1, past the gap already inserted. */
  lemma GapFilledFixed()
    ensures FilledFixed(GapFramedList, 4) == GapFixed
  {
    assert Inserts(GapFramedList, 2) == 1;
    Spliced(GapFramedList, [V0], V1, [V2, Tail], G1);
    assert FilledFixed(GapFramedList, 2) == [V0, G1, V1, V2, Tail];
    Spliced(FilledFixed(GapFramedList, 2), [V0, G1, V1], V2, [Tail], G2);
  }

  /** The completion as written is not ascending; the corrected one is the tiling of the map. */
  lemma GapCompleted()
    ensures Completed(Built(GapRules), MaxRangeStop) == GapAsWritten
    ensures !Ascending(GapAsWritten)
    ensures CompletedFixed(Built(GapRules), MaxRangeStop) == GapFixed
  {
    GapFramed();
    GapFilled();
    GapFilledFixed();
    assert GapAsWritten[2].src.start > GapAsWritten[3].src.start;
  }

  /**
   * As written, the seed range 12..13 falls in the gap vector 15..20 that
   * stands where V1 should: its piece is cut at the negative index -3 and
   * holds 17.  The corrected steps find V1 and give the piece 202..203.
   */
  lemma GapMapped()
    ensures MappedRange(GapAsWritten, PyRange(12, 13)) == Some([PyRange(17, 17)])
    ensures MappedRangeFixed(GapFixed, PyRange(12, 13)) == Some([PyRange(202, 203)])
  {
    var r := PyRange(12, 13);
    assert FirstAbove(GapAsWritten, 2, 12) == Some(2);
    assert FirstAbove(GapAsWritten, 1, 12) == Some(2);
    assert FirstAbove(GapAsWritten, 0, 12) == Some(2);
    assert Bounds(GapAsWritten, r) == [2, 2];
    assert PieceAt(GapAsWritten, r, 2, 2, 0) == Some(PyRange(17, 17));
    assert [] + [PyRange(17, 17)] == [PyRange(17, 17)];
    assert PiecesFrom(GapAsWritten, r, 2, 2, 0, []) == Some([PyRange(17, 17)]);
    assert FirstAbove(GapFixed, 2, 12) == Some(2);
    assert FirstAbove(GapFixed, 1, 12) == Some(2);
    assert FirstAbove(GapFixed, 0, 12) == Some(2);
    assert FirstReaching(GapFixed, 2, 13) == Some(2);
    assert Pieces(GapFixed, r, 2, 2) == [PyRange(202, 203)];
  }

  /** On the completion as written, the seed range 12..13 is printed as 17. */
  lemma GapPrinted()
    ensures Printout([SeedEntry(PyRange(12, 13), None)], [GapAsWritten]) == Printed(Some(17))
  {
    GapMapped();
    var r := PyRange(12, 13);
    assert [r][1..] == [];
    assert [] + [PyRange(17, 17)] == [PyRange(17, 17)];
    assert MapAll(GapAsWritten, [r], []) == Some([PyRange(17, 17)]);
    assert Spread([GapAsWritten], [r]) == Some([PyRange(17, 17)]);
    var p := Processed([SeedEntry(r, None)], [GapAsWritten]);
    assert p[0] == SeedEntry(r, Some([PyRange(17, 17)]));
    assert p[..0] == [];
    assert Starts(p) == [17];
  }

  /** On the corrected completion, the corrected steps print 202. */
  lemma GapPrintedFixed()
    ensures PrintoutFixed([SeedEntry(PyRange(12, 13), None)], [GapFixed]) == Printed(Some(202))
  {
    GapMapped();
    var r := PyRange(12, 13);
    assert [r][1..] == [];
    assert [] + [PyRange(202, 203)] == [PyRange(202, 203)];
    assert MapAllFixed(GapFixed, [r], []) == Some([PyRange(202, 203)]);
    assert SpreadFixed([GapFixed], [r]) == Some([PyRange(202, 203)]);
    var q := ProcessedFixed([SeedEntry(r, None)], [GapFixed]);
    assert q[0] == SeedEntry(r, Some([PyRange(202, 203)]));
    assert q[..0] == [];
    assert Starts(q) == [202];
  }

  /** The rules send the seed 12 to 202. */
  lemma GapLocation()
    ensures Least(Locations([GapRules], [12])) == 202
  {
    assert [GapRules][1..] == [];
    assert Convert(GapRules, 12) == 202;
    assert Through([GapRules], 12) == 202;
    assert Locations([GapRules], [12]) == [202];
  }

  /** With the seeds "12 1" and that map, the script as written prints 17; the rules send 12 to 202, which the corrected script prints. */
  lemma GapScript()
    ensures Printout([SeedEntry(PyRange(12, 13), None)], [Completed(Built(GapRules), MaxRangeStop)]) == Printed(Some(17))
    ensures PrintoutFixed([SeedEntry(PyRange(12, 13), None)], [CompletedFixed(Built(GapRules), MaxRangeStop)]) == Printed(Some(202))
    ensures Least(Locations([GapRules], [12])) == 202
  {
    GapCompleted();
    GapPrinted();
    GapPrintedFixed();
    GapLocation();
  }
}
