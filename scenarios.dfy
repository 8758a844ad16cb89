/** The cases of the JUnit suite, each stated as what the model computes for that input:
    the collection collect builds from the pieces of the input string, and the summary
    summarizeCollection writes for that collection. */
module Scenarios {
  import opened Wrappers
  import opened Decimal
  import opened Text
  import opened Ranges
  import opened Summarizer

  // One step of each definition, on a display rather than a slice.

  lemma RenderSnoc(rs: seq<Range>, r: Range)
    requires rs != []
    ensures Render(rs + [r]) == Render(rs) + ", " + Token(r)
  {
    assert (rs + [r])[..|rs|] == rs;
  }

  lemma CollectedStep(piece: string, pieces: seq<string>, v: nat, xs: seq<nat>)
    requires Trim(piece) != [] && ParseInt(Trim(piece)) == Some(v)
    requires Collected(pieces) == Success(xs)
    ensures Collected([piece] + pieces) == Success(Insert(xs, v))
  {
    assert ([piece] + pieces)[1..] == pieces;
  }

  lemma CollectedStops(piece: string, pieces: seq<string>, e: Error)
    requires Trim(piece) != [] && ValidateAndParse(Trim(piece)) == Failure(e)
    ensures Collected([piece] + pieces) == Failure(e)
  {
    assert ([piece] + pieces)[1..] == pieces;
  }

  lemma CollectedPasses(piece: string, pieces: seq<string>, v: nat, e: Error)
    requires Trim(piece) != [] && ParseInt(Trim(piece)) == Some(v)
    requires Collected(pieces) == Failure(e)
    ensures Collected([piece] + pieces) == Failure(e)
  {
    assert ([piece] + pieces)[1..] == pieces;
  }

  lemma DigitPieces()
    ensures Trim("1") == "1" && ParseInt("1") == Some(1)
    ensures Trim("2") == "2" && ParseInt("2") == Some(2)
    ensures Trim("3") == "3" && ParseInt("3") == Some(3)
    ensures Trim("4") == "4" && ParseInt("4") == Some(4)
    ensures Trim("5") == "5" && ParseInt("5") == Some(5)
  {
  }

  /** "1,3,6,7,8,12,13,14,15,21,22,23,24,31", the decimal texts of its numbers joined by
      commas, is collected as those numbers and summarized as "1, 3, 6-8, 12-15, 21-24, 31". */
  lemma NormalRuns()
    ensures Runs([1, 3, 6, 7, 8, 12, 13, 14, 15, 21, 22, 23, 24, 31]) ==
      [Range(1, 1), Range(3, 3), Range(6, 8), Range(12, 15), Range(21, 24), Range(31, 31)]
  {
    var rs := [Range(1, 1), Range(3, 3), Range(6, 8), Range(12, 15), Range(21, 24), Range(31, 31)];
    assert Flatten(rs) == [1, 3, 6, 7, 8, 12, 13, 14, 15, 21, 22, 23, 24, 31];
    RunDecompositionUnique([1, 3, 6, 7, 8, 12, 13, 14, 15, 21, 22, 23, 24, 31], rs);
  }

  lemma NormalTokens()
    ensures Token(Range(1, 1)) == "1" && Token(Range(3, 3)) == "3" && Token(Range(6, 8)) == "6-8"
    ensures Token(Range(12, 15)) == "12-15" && Token(Range(21, 24)) == "21-24" && Token(Range(31, 31)) == "31"
  {
    assert NatToString(12) == "12" && NatToString(15) == "15";
    assert NatToString(21) == "21" && NatToString(24) == "24";
    assert NatToString(31) == "31";
  }

  lemma NormalRenderHead()
    ensures Render([Range(1, 1), Range(3, 3), Range(6, 8)]) == "1, 3, 6-8"
  {
    NormalTokens();
    assert Render([Range(1, 1)]) == "1";
    RenderSnoc([Range(1, 1)], Range(3, 3));
    assert Render([Range(1, 1), Range(3, 3)]) == "1, 3";
    RenderSnoc([Range(1, 1), Range(3, 3)], Range(6, 8));
    assert [Range(1, 1), Range(3, 3)] + [Range(6, 8)] == [Range(1, 1), Range(3, 3), Range(6, 8)];
    assert "1, 3" + ", " + "6-8" == "1, 3, 6-8";
  }

  lemma NormalRender()
    ensures Render([Range(1, 1), Range(3, 3), Range(6, 8), Range(12, 15), Range(21, 24), Range(31, 31)]) ==
      "1, 3, 6-8, 12-15, 21-24, 31"
  {
    NormalTokens();
    NormalRenderHead();
    var rs3 := [Range(1, 1), Range(3, 3), Range(6, 8)];
    RenderSnoc(rs3, Range(12, 15));
    var rs4 := rs3 + [Range(12, 15)];
    assert Render(rs4) == "1, 3, 6-8, 12-15";
    RenderSnoc(rs4, Range(21, 24));
    var rs5 := rs4 + [Range(21, 24)];
    assert Render(rs5) == "1, 3, 6-8, 12-15, 21-24";
    RenderSnoc(rs5, Range(31, 31));
    assert rs5 + [Range(31, 31)] ==
      [Range(1, 1), Range(3, 3), Range(6, 8), Range(12, 15), Range(21, 24), Range(31, 31)];
  }

  lemma NormalCollected(xs: seq<nat>)
    requires xs == [1, 3, 6, 7, 8, 12, 13, 14, 15, 21, 22, 23, 24, 31]
    ensures Collected(Split(Join(Decimals(xs), ','), ',')) == Success(xs)
  {
    AscendingBySteps(xs);
    SplitDecimals(xs);
    CollectedDecimals(xs);
  }

  lemma NormalSummary(xs: seq<int>)
    requires xs == [1, 3, 6, 7, 8, 12, 13, 14, 15, 21, 22, 23, 24, 31]
    ensures Summary(xs) == "1, 3, 6-8, 12-15, 21-24, 31"
  {
    NormalRuns();
    NormalRender();
  }

  lemma NormalCase(xs: seq<nat>)
    requires xs == [1, 3, 6, 7, 8, 12, 13, 14, 15, 21, 22, 23, 24, 31]
    ensures Collected(Split(Join(Decimals(xs), ','), ',')) == Success(xs)
    ensures Summary(xs) == "1, 3, 6-8, 12-15, 21-24, 31"
  {
    NormalCollected(xs);
    NormalSummary(xs);
  }

  /** "1,1,1,2,2,3,4,5,5" is collected as 1..5 and summarized as "1-5". */
  lemma DuplicatesFives()
    ensures Collected(["4", "5", "5"]) == Success([4, 5])
  {
    DigitPieces();
    CollectedStep("5", [], 5, []);
    assert ["5"] + [] == ["5"] && Insert([], 5) == [5];
    CollectedStep("5", ["5"], 5, [5]);
    assert ["5"] + ["5"] == ["5", "5"] && Insert([5], 5) == [5];
    CollectedStep("4", ["5", "5"], 4, [5]);
    assert ["4"] + ["5", "5"] == ["4", "5", "5"] && Insert([5], 4) == [4, 5];
  }

  lemma DuplicatesTail()
    ensures Collected(["2", "2", "3", "4", "5", "5"]) == Success([2, 3, 4, 5])
  {
    DigitPieces();
    DuplicatesFives();
    var fives := ["4", "5", "5"];
    CollectedStep("3", fives, 3, [4, 5]);
    assert Insert([4, 5], 3) == [3, 4, 5];
    CollectedStep("2", ["3"] + fives, 2, [3, 4, 5]);
    assert Insert([3, 4, 5], 2) == [2, 3, 4, 5];
    CollectedStep("2", ["2"] + (["3"] + fives), 2, [2, 3, 4, 5]);
    assert Insert([2, 3, 4, 5], 2) == [2, 3, 4, 5];
    assert ["2"] + (["2"] + (["3"] + fives)) == ["2", "2", "3", "4", "5", "5"];
  }

  lemma DuplicatesOnce()
    ensures Collected(["1", "2", "2", "3", "4", "5", "5"]) == Success([1, 2, 3, 4, 5])
  {
    DigitPieces();
    DuplicatesTail();
    var tail := ["2", "2", "3", "4", "5", "5"];
    CollectedStep("1", tail, 1, [2, 3, 4, 5]);
    assert Insert([2, 3, 4, 5], 1) == [1, 2, 3, 4, 5];
    assert ["1"] + tail == ["1", "2", "2", "3", "4", "5", "5"];
  }

  lemma DuplicatesCollected(pieces: seq<string>)
    requires pieces == ["1", "1", "1", "2", "2", "3", "4", "5", "5"]
    ensures Collected(pieces) == Success([1, 2, 3, 4, 5])
  {
    DigitPieces();
    DuplicatesOnce();
    var tail := ["1", "2", "2", "3", "4", "5", "5"];
    CollectedStep("1", tail, 1, [1, 2, 3, 4, 5]);
    assert Insert([1, 2, 3, 4, 5], 1) == [1, 2, 3, 4, 5];
    CollectedStep("1", ["1"] + tail, 1, [1, 2, 3, 4, 5]);
    assert ["1"] + (["1"] + tail) == ["1", "1", "1", "2", "2", "3", "4", "5", "5"];
  }

  lemma WithDuplicates(input: string)
    requires input == "1,1,1,2,2,3,4,5,5"
    ensures Collected(Split(input, ',')) == Success([1, 2, 3, 4, 5])
    ensures Summary([1, 2, 3, 4, 5]) == "1-5"
  {
    var pieces := ["1", "1", "1", "2", "2", "3", "4", "5", "5"];
    assert Join(pieces, ',') == input;
    SplitJoin(pieces, ',');
    DuplicatesCollected(pieces);
    SequentialSummary();
  }

  /** "2,5,8,9,10,11,14" is collected as its numbers and summarized as "2, 5, 8-11, 14". */
  lemma MixedRuns()
    ensures Runs([2, 5, 8, 9, 10, 11, 14]) == [Range(2, 2), Range(5, 5), Range(8, 11), Range(14, 14)]
  {
    var rs := [Range(2, 2), Range(5, 5), Range(8, 11), Range(14, 14)];
    assert Flatten(rs) == [2, 5, 8, 9, 10, 11, 14];
    RunDecompositionUnique([2, 5, 8, 9, 10, 11, 14], rs);
  }

  lemma MixedRender()
    ensures Render([Range(2, 2), Range(5, 5), Range(8, 11), Range(14, 14)]) == "2, 5, 8-11, 14"
  {
    assert Token(Range(2, 2)) == "2" && Token(Range(5, 5)) == "5";
    assert Token(Range(8, 11)) == "8-11" by {
      assert NatToString(11) == "11";
    }
    assert Token(Range(14, 14)) == "14" by {
      assert NatToString(14) == "14";
    }
    assert Render([Range(2, 2)]) == "2";
    RenderSnoc([Range(2, 2)], Range(5, 5));
    assert Render([Range(2, 2), Range(5, 5)]) == "2, 5";
    RenderSnoc([Range(2, 2), Range(5, 5)], Range(8, 11));
    assert Render([Range(2, 2), Range(5, 5), Range(8, 11)]) == "2, 5, 8-11";
    RenderSnoc([Range(2, 2), Range(5, 5), Range(8, 11)], Range(14, 14));
    assert [Range(2, 2), Range(5, 5), Range(8, 11)] + [Range(14, 14)] ==
      [Range(2, 2), Range(5, 5), Range(8, 11), Range(14, 14)];
    assert "2, 5, 8-11" + ", " + "14" == "2, 5, 8-11, 14";
  }

  lemma MixedCollected(xs: seq<nat>)
    requires xs == [2, 5, 8, 9, 10, 11, 14]
    ensures Collected(Split(Join(Decimals(xs), ','), ',')) == Success(xs)
  {
    AscendingBySteps(xs);
    SplitDecimals(xs);
    CollectedDecimals(xs);
  }

  lemma MixedSummary(xs: seq<int>)
    requires xs == [2, 5, 8, 9, 10, 11, 14]
    ensures Summary(xs) == "2, 5, 8-11, 14"
  {
    MixedRuns();
    MixedRender();
  }

  lemma MixedSequences(xs: seq<nat>)
    requires xs == [2, 5, 8, 9, 10, 11, 14]
    ensures Collected(Split(Join(Decimals(xs), ','), ',')) == Success(xs)
    ensures Summary(xs) == "2, 5, 8-11, 14"
  {
    MixedCollected(xs);
    MixedSummary(xs);
  }

  /** "1, 2, 3,    4,5,     6" is summarized as "1-6". */
  lemma SequentialSix()
    ensures Summary([1, 2, 3, 4, 5, 6]) == "1-6"
  {
  }

  /** "" collects nothing. */
  lemma EmptyString()
    ensures Collected(Split("", ',')) == Success([])
  {
    assert Split("", ',') == [""];
  }

  /** "1" collects {1} and is summarized as "1". */
  lemma SingleNumber()
    ensures Collected(Split("1", ',')) == Success([1])
    ensures Summary([1]) == "1"
  {
    SplitWhole("1", ',');
    DigitPieces();
    CollectedStep("1", [], 1, []);
    assert ["1"] + [] == ["1"];
  }

  /** "1,2,3,4,5" is summarized as "1-5". */
  lemma SequentialSummary()
    ensures Summary([1, 2, 3, 4, 5]) == "1-5"
  {
  }

  /** "1,2,3,4,5" is collected as its numbers and summarized as "1-5". */
  lemma SequentialCollected(xs: seq<nat>)
    requires xs == [1, 2, 3, 4, 5]
    ensures Collected(Split(Join(Decimals(xs), ','), ',')) == Success(xs)
  {
    AscendingBySteps(xs);
    SplitDecimals(xs);
    CollectedDecimals(xs);
  }

  lemma SequentialNumbers(xs: seq<nat>)
    requires xs == [1, 2, 3, 4, 5]
    ensures Collected(Split(Join(Decimals(xs), ','), ',')) == Success(xs)
    ensures Summary(xs) == "1-5"
  {
    SequentialCollected(xs);
    SequentialSummary();
  }

  lemma InvalidCollected(pieces: seq<string>)
    requires pieces == ["1", "2", "three", "4"]
    ensures Collected(pieces) == Failure(InvalidNumber("three"))
  {
    DigitPieces();
    assert Trim("three") == "three" && ParseInt("three") == None;
    CollectedStops("three", ["4"], InvalidNumber("three"));
    CollectedPasses("2", ["three", "4"], 2, InvalidNumber("three"));
    CollectedPasses("1", ["2", "three", "4"], 1, InvalidNumber("three"));
  }

  /** "1,2,three,4" fails on "three", with the message "Invalid number: three". */
  lemma InvalidNumberFails(input: string)
    requires input == "1,2,three,4"
    ensures Collected(Split(input, ',')) == Failure(InvalidNumber("three"))
    ensures Message(InvalidNumber("three")) == "Invalid number: three"
  {
    var pieces := ["1", "2", "three", "4"];
    assert Join(pieces, ',') == input;
    SplitJoin(pieces, ',');
    InvalidCollected(pieces);
  }

  lemma NegativeCollected(pieces: seq<string>)
    requires pieces == ["1", "2", "-3", "4"]
    ensures Collected(pieces) == Failure(Negative)
  {
    ParseIntToString(-3);
    assert IntToString(-3) == "-3" && Trim("-3") == "-3";
    CollectedStops("-3", ["4"], Negative);
    DigitPieces();
    CollectedPasses("2", ["-3", "4"], 2, Negative);
    CollectedPasses("1", ["2", "-3", "4"], 1, Negative);
  }

  /** "1,2,-3,4" fails on "-3", with the message "Negative numbers are not supported". */
  lemma NegativeNumberFails(input: string)
    requires input == "1,2,-3,4"
    ensures Collected(Split(input, ',')) == Failure(Negative)
    ensures Message(Negative) == "Negative numbers are not supported"
  {
    var pieces := ["1", "2", "-3", "4"];
    assert Join(pieces, ',') == input;
    SplitJoin(pieces, ',');
    NegativeCollected(pieces);
  }
}
