/** RangeBuilder: the two-state machine (idle, or building the open run start..current)
    that appends the tokens of closed runs to a growing result string. */
module RangeBuilding {
  import opened Decimal
  import opened Ranges

  /** ", " when the result already has content, which startNewRange puts before a new run. */
  function Separator(result: string): (sep: string)
    ensures sep == [] <==> result == []
  {
    if result == [] then "" else ", "
  }

  /** The part of the summary of s before its last run: every earlier run, each followed
      by ", ". */
  function ClosedText(s: seq<int>): (text: string)
    requires s != []
    ensures text == [] <==> |Runs(s)| == 1
  {
    var rs := Runs(s);
    if |rs| == 1 then "" else Render(rs[..|rs| - 1]) + ", "
  }

  /** Closing the open run of s completes its summary. */
  lemma CloseCompletesSummary(s: seq<int>)
    requires s != []
    ensures ClosedText(s) + Token(LastRun(s)) == Summary(s)
  {
    var rs := Runs(s);
    if |rs| > 1 {
      assert Render(rs) == Render(rs[..|rs| - 1]) + ", " + Token(rs[|rs| - 1]);
    }
  }

  /** The run a builder fed s holds open, found the way the builder finds it: from the
      front, one number at a time. */
  function OpenRun(s: seq<int>): (r: Range)
    requires s != []
    ensures r.lo <= r.hi == s[|s| - 1]
    decreases |s|
  {
    if |s| == 1 then Range(s[0], s[0])
    else
      var open := OpenRun(s[..|s| - 1]);
      var x := s[|s| - 1];
      if x == open.hi + 1 then Range(open.lo, x) else Range(x, x)
  }

  /** What a builder fed s has appended, found the way the builder writes it: the token of
      every run it has closed, each followed by ", ". */
  function Written(s: seq<int>): string
    requires s != []
    decreases |s|
  {
    if |s| == 1 then ""
    else
      var open := OpenRun(s[..|s| - 1]);
      if s[|s| - 1] == open.hi + 1 then Written(s[..|s| - 1])
      else Written(s[..|s| - 1]) + Token(open) + ", "
  }

  /** A number one above the end of the open run extends it and leaves the closed text alone. */
  lemma StepExtend(s: seq<int>, x: int)
    requires s != [] && x == LastRun(s).hi + 1
    ensures LastRun(s + [x]) == Range(LastRun(s).lo, x)
    ensures ClosedText(s + [x]) == ClosedText(s)
  {
    RunsSnoc(s, x);
    var k := |Runs(s)|;
    assert Runs(s + [x])[..k - 1] == Runs(s)[..k - 1];
  }

  /** Any other number closes the open run, whose token and a separator join the closed
      text, and opens a run of its own. */
  lemma StepOpen(s: seq<int>, x: int)
    requires s != [] && x != LastRun(s).hi + 1
    ensures LastRun(s + [x]) == Range(x, x)
    ensures ClosedText(s + [x]) == ClosedText(s) + Token(LastRun(s)) + ", "
  {
    RunsSnoc(s, x);
    var rs := Runs(s);
    var k := |rs|;
    assert Runs(s + [x])[..k] == rs;
    if k > 1 {
      var init := Render(rs[..k - 1]);
      var t := Token(rs[k - 1]);
      assert Render(rs) == init + ", " + t;
      ConcatAssoc(init, ", ", t);
      ConcatAssoc(init + ", ", t, ", ");
    }
  }

  /** The builder's one-pass view of s agrees with the maximal runs of s: its open run is
      the last run, and what it has written is every earlier run. */
  lemma {:induction false} FoldMatchesRuns(s: seq<int>)
    requires s != []
    ensures OpenRun(s) == LastRun(s) && Written(s) == ClosedText(s)
    decreases |s|
  {
    if |s| == 1 {
      assert Runs(s) == [Range(s[0], s[0])];
    } else {
      var init := s[..|s| - 1];
      var x := s[|s| - 1];
      assert s == init + [x];
      FoldMatchesRuns(init);
      if x == LastRun(init).hi + 1 {
        StepExtend(init, x);
      } else {
        StepOpen(init, x);
      }
    }
  }

  /** current + 1 as processNumber evaluates it on a Java int: in 32-bit two's complement
      the successor of IntMax is IntMin. */
  function Int32Successor(x: int): (y: int)
    requires IntMin <= x <= IntMax
    ensures IntMin <= y <= IntMax
    ensures x < IntMax ==> y == x + 1
  {
    if x == IntMax then IntMin else x + 1
  }

  /** The run test of processNumber as written: number extends the open run ending at
      current when it equals current + 1 computed on ints. */
  predicate ExtendsAsWritten(current: int, number: int)
    requires IntMin <= current <= IntMax
  {
    number == Int32Successor(current)
  }

  /** As written, the run test lets a run step down: IntMin extends a run ending at IntMax,
      so a builder fed IntMax then IntMin holds the run start = IntMax, current = IntMin.
      The model tests number == current + 1 on unbounded ints, under which a run only steps
      up by one (FoldMatchesRuns, RunsDecompose). */
  lemma AsWrittenRunStepsDown()
    ensures exists current, number ::
      IntMin <= current <= IntMax && ExtendsAsWritten(current, number) && number < current
    ensures ExtendsAsWritten(IntMax, IntMin)
  {
    assert ExtendsAsWritten(IntMax, IntMin);
  }

  /** closeCurrentRange writes a run that steps down from a non-negative start to a negative
      current with two dashes; for IntMax and IntMin that is "2147483647--2147483648". */
  lemma DescendingRunToken(hi: int, lo: int)
    requires 0 <= hi && lo < 0
    ensures Token(Range(hi, lo)) == NatToString(hi) + "--" + NatToString(-lo)
  {
    assert IntToString(lo) == "-" + NatToString(-lo);
  }

  /** With the run test on unbounded ints, a non-negative number followed by a negative one
      (IntMax then IntMin among them) splits into two single-number runs, summarized with a
      separator between them: "2147483647, -2147483648". */
  lemma CorrectedRunsStepUp(s: seq<int>, hi: int, lo: int)
    requires s == [hi, lo] && 0 <= hi && lo < 0
    ensures Runs(s) == [Range(hi, hi), Range(lo, lo)]
    ensures Summary(s) == NatToString(hi) + ", -" + NatToString(-lo)
  {
    RunsSnoc([hi], lo);
    assert [hi] + [lo] == s;
    var rs := [Range(hi, hi), Range(lo, lo)];
    assert rs[..1] == [Range(hi, hi)];
    assert Render(rs) == NatToString(hi) + ", " + ("-" + NatToString(-lo));
    ConcatAssoc(NatToString(hi), ", ", "-" + NatToString(-lo));
    ConcatAssoc(NatToString(hi) + ", ", "-", NatToString(-lo));
  }

  /** The state of a builder that has been fed s since it started from the result flushed:
      idle with nothing fed, or building with the last run of s open as start..current and
      every earlier run written out. */
  ghost predicate Summarizing(fed: seq<int>, flushed: string, building: bool, start: int, current: int, result: string) {
    (building ==> start <= current) &&
    (!building ==> fed == [] && result == flushed) &&
    (building ==>
      fed != [] && OpenRun(fed) == Range(start, current) &&
      result == flushed + Separator(flushed) + Written(fed))
  }

  lemma OpenFirstRun(flushed: string, x: int)
    ensures Summarizing([x], flushed, true, x, x, flushed + Separator(flushed))
  {
  }

  lemma ExtendKeepsSummarizing(fed: seq<int>, flushed: string, start: int, current: int, result: string, x: int)
    requires Summarizing(fed, flushed, true, start, current, result) && x == current + 1
    ensures Summarizing(fed + [x], flushed, true, start, x, result)
  {
    assert (fed + [x])[..|fed|] == fed;
  }

  lemma CloseKeepsSummarizing(fed: seq<int>, flushed: string, start: int, current: int, result: string, x: int)
    requires Summarizing(fed, flushed, true, start, current, result) && x != current + 1
    ensures Summarizing(fed + [x], flushed, true, x, x, result + Token(Range(start, current)) + ", ")
  {
    assert (fed + [x])[..|fed|] == fed;
    var p := flushed + Separator(flushed);
    var w := Written(fed);
    var t := Token(Range(start, current));
    ConcatAssoc(p, w, t);
    ConcatAssoc(p, w + t, ", ");
  }

  lemma CloseFinishesSummary(fed: seq<int>, flushed: string, start: int, current: int, result: string)
    requires Summarizing(fed, flushed, true, start, current, result)
    ensures result + Token(Range(start, current)) == flushed + Separator(flushed) + Summary(fed)
  {
    FoldMatchesRuns(fed);
    CloseCompletesSummary(fed);
    ConcatAssoc(flushed + Separator(flushed), ClosedText(fed), Token(LastRun(fed)));
  }

  class RangeBuilder {
    var start: int
    var current: int
    var isBuilding: bool
    var result: string

    /** The numbers processed since the builder was created or last built, and the result at
        that moment. */
    ghost var Fed: seq<int>
    ghost var Flushed: string

    ghost predicate Valid()
      reads this
    {
      Summarizing(Fed, Flushed, isBuilding, start, current, result)
    }

    /** What build would return now. */
    ghost function Preview(): (text: string)
      requires Valid()
      reads this
      ensures text == if Fed == [] then Flushed else Flushed + Separator(Flushed) + Summary(Fed)
    {
      if isBuilding then
        CloseFinishesSummary(Fed, Flushed, start, current, result);
        result + Token(Range(start, current))
      else result
    }

    constructor ()
      ensures Valid() && !isBuilding && result == ""
      ensures Fed == [] && Flushed == ""
    {
      result := "";
      isBuilding := false;
      Fed := [];
      Flushed := "";
    }

    method ProcessNumber(number: int)
      requires Valid()
      modifies this
      ensures Valid() && isBuilding && current == number
      ensures Fed == old(Fed) + [number] && Flushed == old(Flushed)
      ensures !old(isBuilding) ==> start == number && result == old(result) + Separator(old(result))
      ensures old(isBuilding) && number == old(current) + 1 ==>
        start == old(start) && result == old(result)
      ensures old(isBuilding) && number != old(current) + 1 ==>
        start == number && result == old(result) + Token(Range(old(start), old(current))) + ", "
    {
      ghost var fed, flushed, before := Fed, Flushed, result;
      if !isBuilding {
        StartNewRange(number);
        Fed := fed + [number];
        OpenFirstRun(flushed, number);
        return;
      }
      ghost var s0, c0 := start, current;
      if number == current + 1 {
        ExtendCurrentRange(number);
        Fed := fed + [number];
        ExtendKeepsSummarizing(fed, flushed, s0, c0, before, number);
      } else {
        CloseCurrentRange();
        StartNewRange(number);
        Fed := fed + [number];
        CloseKeepsSummarizing(fed, flushed, s0, c0, before, number);
      }
    }

    method StartNewRange(number: int)
      modifies this`result, this`start, this`current, this`isBuilding
      ensures result == old(result) + Separator(old(result))
      ensures start == number && current == number && isBuilding
    {
      if |result| > 0 {
        result := result + ", ";
      }
      start := number;
      current := number;
      isBuilding := true;
    }

    method ExtendCurrentRange(number: int)
      modifies this`current
      ensures current == number
    {
      current := number;
    }

    method CloseCurrentRange()
      modifies this`result
      ensures result == old(result) + Token(Range(start, current))
    {
      if start == current {
        result := result + IntToString(start);
      } else {
        result := result + IntToString(start) + "-" + IntToString(current);
      }
    }

    method Build() returns (text: string)
      requires Valid()
      modifies this
      ensures Valid() && !isBuilding && result == text
      ensures start == old(start) && current == old(current)
      ensures text == if old(isBuilding) then old(result) + Token(Range(old(start), old(current))) else old(result)
      ensures text == old(Preview())
      ensures Fed == [] && Flushed == text
    {
      if isBuilding {
        CloseCurrentRange();
        isBuilding := false;
      }
      Fed := [];
      Flushed := result;
      text := result;
    }
  }
}
