/** The meaning of a range summary, independent of the builder that produces it:
    a sequence of numbers cut into maximal runs of +1 steps, each run rendered as
    "lo" or "lo-hi", the renderings joined by ", ". */
module Ranges {
  import opened Decimal

  /** The run lo, lo + 1, ..., hi. */
  datatype Range = Range(lo: int, hi: int)

  predicate StrictlyAscending(s: seq<int>) {
    forall i, j :: 0 <= i < j < |s| ==> s[i] < s[j]
  }

  /** Each number below the next one is enough for the whole sequence to ascend. */
  lemma {:induction false} AscendingBySteps(s: seq<int>)
    requires forall i :: 0 <= i < |s| - 1 ==> s[i] < s[i + 1]
    ensures StrictlyAscending(s)
  {
    if |s| > 1 {
      var t := s[1..];
      forall i | 0 <= i < |t| - 1 ensures t[i] < t[i + 1] {
        assert t[i] == s[i + 1] && t[i + 1] == s[i + 2];
      }
      AscendingBySteps(t);
      forall i, j | 0 <= i < j < |s| ensures s[i] < s[j] {
        assert s[j] == t[j - 1];
        if i > 0 {
          assert s[i] == t[i - 1];
        } else if j > 1 {
          assert s[1] == t[0];
        }
      }
    }
  }

  /** The numbers of a run, in order. */
  function Expand(r: Range): (xs: seq<int>)
    requires r.lo <= r.hi
    ensures |xs| == r.hi - r.lo + 1 && xs[0] == r.lo
    decreases r.hi - r.lo
  {
    if r.lo == r.hi then [r.lo] else [r.lo] + Expand(Range(r.lo + 1, r.hi))
  }

  predicate WellFormed(rs: seq<Range>) {
    forall i :: 0 <= i < |rs| ==> rs[i].lo <= rs[i].hi
  }

  /** The numbers of all the runs, run after run. */
  function Flatten(rs: seq<Range>): seq<int>
    requires WellFormed(rs)
  {
    if rs == [] then [] else Expand(rs[0]) + Flatten(rs[1..])
  }

  /** No run ends just before the next one begins. */
  predicate Unmergeable(rs: seq<Range>) {
    forall i :: 0 <= i < |rs| - 1 ==> rs[i + 1].lo != rs[i].hi + 1
  }

  /** rs cuts s into runs that cannot be merged. */
  predicate IsRunDecomposition(s: seq<int>, rs: seq<Range>) {
    WellFormed(rs) && Flatten(rs) == s && Unmergeable(rs)
  }

  /** The runs of x followed by a sequence whose runs are rest: x joins the first of them
      exactly when that run begins at x + 1. */
  function ConsRun(x: int, rest: seq<Range>): seq<Range> {
    if rest != [] && rest[0].lo == x + 1 then [Range(x, rest[0].hi)] + rest[1..]
    else [Range(x, x)] + rest
  }

  /** The maximal runs of s, found from the front. */
  function Runs(s: seq<int>): (rs: seq<Range>)
    ensures WellFormed(rs)
    ensures |rs| <= |s| && (rs == [] <==> s == [])
    ensures s != [] ==> rs[0].lo == s[0] && rs[|rs| - 1].hi == s[|s| - 1]
  {
    if s == [] then [] else ConsRun(s[0], Runs(s[1..]))
  }

  /** The last run of a non-empty sequence: the one a builder still has open. */
  function LastRun(s: seq<int>): (r: Range)
    requires s != []
    ensures r.lo <= r.hi == s[|s| - 1]
  {
    Runs(s)[|Runs(s)| - 1]
  }

  lemma FlattenCons(r: Range, rs: seq<Range>)
    requires r.lo <= r.hi && WellFormed(rs)
    ensures WellFormed([r] + rs) && Flatten([r] + rs) == Expand(r) + Flatten(rs)
  {
    assert ([r] + rs)[1..] == rs;
  }

  lemma {:induction false} RunsFlatten(s: seq<int>)
    ensures Flatten(Runs(s)) == s
  {
    if s != [] {
      var rest := Runs(s[1..]);
      RunsFlatten(s[1..]);
      if rest != [] && rest[0].lo == s[0] + 1 {
        FlattenExtendedHead(s[0], rest);
      } else {
        FlattenCons(Range(s[0], s[0]), rest);
      }
      assert s == [s[0]] + s[1..];
    }
  }

  lemma FlattenExtendedHead(x: int, rs: seq<Range>)
    requires WellFormed(rs) && rs != [] && rs[0].lo == x + 1
    ensures Flatten([Range(x, rs[0].hi)] + rs[1..]) == [x] + Flatten(rs)
  {
    var e := Expand(rs[0]);
    var f := Flatten(rs[1..]);
    FlattenCons(rs[0], rs[1..]);
    assert rs == [rs[0]] + rs[1..];
    FlattenCons(Range(x, rs[0].hi), rs[1..]);
    assert Expand(Range(x, rs[0].hi)) == [x] + e;
    ConcatAssoc([x], e, f);
  }

  lemma ConcatAssoc<T>(a: seq<T>, b: seq<T>, c: seq<T>)
    ensures (a + b) + c == a + (b + c)
  {
  }

  lemma UnmergeableNewHeadStart(rs: seq<Range>, lo: int)
    requires Unmergeable(rs) && rs != []
    ensures Unmergeable([Range(lo, rs[0].hi)] + rs[1..])
  {
    var next := [Range(lo, rs[0].hi)] + rs[1..];
    forall i | 0 <= i < |next| - 1 ensures next[i + 1].lo != next[i].hi + 1 {
      assert next[i + 1] == rs[i + 1] && next[i].hi == rs[i].hi;
    }
  }

  lemma UnmergeableCons(r: Range, rs: seq<Range>)
    requires Unmergeable(rs) && (rs == [] || rs[0].lo != r.hi + 1)
    ensures Unmergeable([r] + rs)
  {
    var next := [r] + rs;
    forall i | 0 <= i < |next| - 1 ensures next[i + 1].lo != next[i].hi + 1 {
      if i > 0 {
        assert next[i + 1] == rs[i] && next[i] == rs[i - 1];
      }
    }
  }

  lemma UnmergeableTail(rs: seq<Range>)
    requires Unmergeable(rs) && rs != []
    ensures Unmergeable(rs[1..])
  {
    var tail := rs[1..];
    forall i | 0 <= i < |tail| - 1 ensures tail[i + 1].lo != tail[i].hi + 1 {
      assert tail[i + 1] == rs[i + 2] && tail[i] == rs[i + 1];
    }
  }

  lemma {:induction false} RunsUnmergeable(s: seq<int>)
    ensures Unmergeable(Runs(s))
  {
    if s != [] {
      var rest := Runs(s[1..]);
      RunsUnmergeable(s[1..]);
      if rest != [] && rest[0].lo == s[0] + 1 {
        UnmergeableNewHeadStart(rest, s[0]);
      } else {
        UnmergeableCons(Range(s[0], s[0]), rest);
      }
    }
  }

  /** Runs cuts s into runs that cannot be merged. */
  lemma RunsDecompose(s: seq<int>)
    ensures IsRunDecomposition(s, Runs(s))
  {
    RunsFlatten(s);
    RunsUnmergeable(s);
  }

  /** Taking the first number off a decomposition whose first run has more than one number
      shortens that run. */
  lemma DropFromFirstRun(s: seq<int>, rs: seq<Range>)
    requires IsRunDecomposition(s, rs) && rs != [] && rs[0].lo < rs[0].hi
    ensures s != [] && s[0] == rs[0].lo
    ensures IsRunDecomposition(s[1..], [Range(rs[0].lo + 1, rs[0].hi)] + rs[1..])
  {
    var r := rs[0];
    var tail := [Range(r.lo + 1, r.hi)] + rs[1..];
    assert rs == [r] + rs[1..];
    FlattenCons(r, rs[1..]);
    FlattenCons(Range(r.lo + 1, r.hi), rs[1..]);
    assert Expand(r) == [r.lo] + Expand(Range(r.lo + 1, r.hi));
    UnmergeableNewHeadStart(rs, r.lo + 1);
  }

  /** Taking the first number off a decomposition whose first run is that number alone drops
      the run. */
  lemma DropFirstRun(s: seq<int>, rs: seq<Range>)
    requires IsRunDecomposition(s, rs) && rs != [] && rs[0].lo == rs[0].hi
    ensures s != [] && s[0] == rs[0].lo
    ensures IsRunDecomposition(s[1..], rs[1..])
  {
    var tail := rs[1..];
    assert rs == [rs[0]] + tail;
    FlattenCons(rs[0], tail);
    UnmergeableTail(rs);
  }

  lemma RunsConsExtends(s: seq<int>, rs: seq<Range>)
    requires s != [] && rs != [] && s[0] == rs[0].lo < rs[0].hi
    requires Runs(s[1..]) == [Range(rs[0].lo + 1, rs[0].hi)] + rs[1..]
    ensures Runs(s) == rs
  {
    var tail := Runs(s[1..]);
    assert tail[1..] == rs[1..];
    assert Runs(s) == [Range(s[0], tail[0].hi)] + tail[1..];
  }

  lemma RunsConsOpens(s: seq<int>, rs: seq<Range>)
    requires s != [] && rs != [] && s[0] == rs[0].lo == rs[0].hi && Unmergeable(rs)
    requires Runs(s[1..]) == rs[1..]
    ensures Runs(s) == rs
  {
    assert |rs| > 1 ==> rs[1..][0] == rs[1];
    assert Runs(s) == [Range(s[0], s[0])] + rs[1..];
  }

  /** Runs is the only way to cut s into runs that cannot be merged. */
  lemma {:induction false} RunDecompositionUnique(s: seq<int>, rs: seq<Range>)
    requires IsRunDecomposition(s, rs)
    ensures rs == Runs(s)
    decreases |s|
  {
    if rs == [] {
      assert s == Flatten(rs) == [];
    } else if rs[0].lo < rs[0].hi {
      DropFromFirstRun(s, rs);
      RunDecompositionUnique(s[1..], [Range(rs[0].lo + 1, rs[0].hi)] + rs[1..]);
      RunsConsExtends(s, rs);
    } else {
      DropFirstRun(s, rs);
      RunDecompositionUnique(s[1..], rs[1..]);
      RunsConsOpens(s, rs);
    }
  }

  lemma {:induction false} FlattenSnoc(rs: seq<Range>, r: Range)
    requires WellFormed(rs) && r.lo <= r.hi
    ensures WellFormed(rs + [r]) && Flatten(rs + [r]) == Flatten(rs) + Expand(r)
  {
    if rs != [] {
      FlattenSnoc(rs[1..], r);
      assert (rs + [r])[1..] == rs[1..] + [r];
    }
  }

  lemma {:induction false} ExpandSnoc(r: Range)
    requires r.lo <= r.hi
    ensures Expand(Range(r.lo, r.hi + 1)) == Expand(r) + [r.hi + 1]
    decreases r.hi - r.lo
  {
    if r.lo < r.hi {
      ExpandSnoc(Range(r.lo + 1, r.hi));
      calc {
        Expand(Range(r.lo, r.hi + 1));
        [r.lo] + Expand(Range(r.lo + 1, r.hi + 1));
        [r.lo] + (Expand(Range(r.lo + 1, r.hi)) + [r.hi + 1]);
        ([r.lo] + Expand(Range(r.lo + 1, r.hi))) + [r.hi + 1];
      }
    } else {
      assert Expand(Range(r.lo, r.hi + 1)) == [r.lo] + Expand(Range(r.lo + 1, r.hi + 1));
    }
  }

  /** Extending the last run of a decomposition by the next number keeps it a decomposition. */
  lemma ExtendLastRun(s: seq<int>, rs: seq<Range>, x: int)
    requires IsRunDecomposition(s, rs) && rs != [] && x == rs[|rs| - 1].hi + 1
    ensures IsRunDecomposition(s + [x], rs[..|rs| - 1] + [Range(rs[|rs| - 1].lo, x)])
  {
    var k := |rs|;
    var last := rs[k - 1];
    var init := rs[..k - 1];
    var next := init + [Range(last.lo, x)];
    FlattenExtendedLast(init, last, x);
    assert rs == init + [last];
    assert Unmergeable(next) by {
      forall i | 0 <= i < |next| - 1 ensures next[i + 1].lo != next[i].hi + 1 {
        assert next[i] == rs[i];
        assert next[i + 1].lo == rs[i + 1].lo;
      }
    }
  }

  lemma FlattenExtendedLast(init: seq<Range>, last: Range, x: int)
    requires WellFormed(init) && last.lo <= last.hi && x == last.hi + 1
    ensures WellFormed(init + [Range(last.lo, x)])
    ensures Flatten(init + [Range(last.lo, x)]) == Flatten(init + [last]) + [x]
  {
    FlattenSnoc(init, last);
    FlattenSnoc(init, Range(last.lo, x));
    ExpandSnoc(last);
    ConcatAssoc(Flatten(init), Expand(last), [x]);
  }

  /** Opening a new run for a number that does not continue the last run keeps it a
      decomposition. */
  lemma OpenNewRun(s: seq<int>, rs: seq<Range>, x: int)
    requires IsRunDecomposition(s, rs) && (rs == [] || x != rs[|rs| - 1].hi + 1)
    ensures IsRunDecomposition(s + [x], rs + [Range(x, x)])
  {
    var next := rs + [Range(x, x)];
    FlattenSnoc(rs, Range(x, x));
    forall i | 0 <= i < |next| - 1 ensures next[i + 1].lo != next[i].hi + 1 {
      assert next[i] == rs[i];
      if i < |rs| - 1 { assert next[i + 1] == rs[i + 1]; }
    }
  }

  /** Appending a number either extends the last run or opens a new one after it:
      the step a left-to-right builder takes. */
  lemma RunsSnoc(s: seq<int>, x: int)
    requires s != []
    ensures var rs := Runs(s); var last := rs[|rs| - 1];
      Runs(s + [x]) ==
        if x == last.hi + 1 then rs[..|rs| - 1] + [Range(last.lo, x)] else rs + [Range(x, x)]
  {
    var rs := Runs(s);
    RunsDecompose(s);
    if x == rs[|rs| - 1].hi + 1 {
      ExtendLastRun(s, rs, x);
      RunDecompositionUnique(s + [x], rs[..|rs| - 1] + [Range(rs[|rs| - 1].lo, x)]);
    } else {
      OpenNewRun(s, rs, x);
      RunDecompositionUnique(s + [x], rs + [Range(x, x)]);
    }
  }

  lemma ConsRunAppend(x: int, rt: seq<Range>, rb: seq<Range>)
    requires rt != []
    ensures ConsRun(x, rt + rb) == ConsRun(x, rt) + rb
  {
    assert (rt + rb)[0] == rt[0];
    if rt[0].lo == x + 1 {
      assert (rt + rb)[1..] == rt[1..] + rb;
      ConcatAssoc([Range(x, rt[0].hi)], rt[1..], rb);
    } else {
      ConcatAssoc([Range(x, x)], rt, rb);
    }
  }

  /** Where b does not continue the last number of a, the runs of a + b are the runs of
      a followed by the runs of b: a gap is always a run boundary. */
  lemma {:induction false} RunsConcat(a: seq<int>, b: seq<int>)
    requires a != [] && b != [] && b[0] != a[|a| - 1] + 1
    ensures Runs(a + b) == Runs(a) + Runs(b)
  {
    if |a| == 1 {
      assert (a + b)[1..] == b && a[1..] == [];
    } else {
      var tail := a[1..];
      assert (a + b)[1..] == tail + b && (a + b)[0] == a[0];
      RunsConcat(tail, b);
      ConsRunAppend(a[0], Runs(tail), Runs(b));
    }
  }

  predicate Gapped(rs: seq<Range>) {
    forall i :: 0 <= i < |rs| - 1 ==> rs[i].hi + 1 < rs[i + 1].lo
  }

  /** Each run ends at least two below the start of every later run. */
  predicate Separated(rs: seq<Range>) {
    forall i, j :: 0 <= i < j < |rs| ==> rs[i].hi + 1 < rs[j].lo
  }

  lemma {:induction false} GappedSeparated(rs: seq<Range>)
    requires WellFormed(rs) && Gapped(rs)
    ensures Separated(rs)
  {
    if rs != [] {
      var tail := rs[1..];
      assert Gapped(tail) by {
        forall i | 0 <= i < |tail| - 1 ensures tail[i].hi + 1 < tail[i + 1].lo {
          assert tail[i] == rs[i + 1] && tail[i + 1] == rs[i + 2];
        }
      }
      GappedSeparated(tail);
      forall i, j | 0 <= i < j < |rs| ensures rs[i].hi + 1 < rs[j].lo {
        if i > 0 {
          assert rs[i] == tail[i - 1] && rs[j] == tail[j - 1];
        } else if j > 1 {
          assert rs[1] == tail[0] && rs[j] == tail[j - 1];
        }
      }
    }
  }

  lemma {:induction false} AscendingRunsGapped(s: seq<int>)
    requires StrictlyAscending(s)
    ensures Gapped(Runs(s))
  {
    if s != [] {
      var t := s[1..];
      AscendingRunsGapped(t);
      var rt := Runs(t);
      var rs := Runs(s);
      forall i | 0 <= i < |rs| - 1 ensures rs[i].hi + 1 < rs[i + 1].lo {
        if rt != [] && rt[0].lo == s[0] + 1 {
          assert rs[i].hi == rt[i].hi && rs[i + 1] == rt[i + 1];
        } else if i > 0 {
          assert rs[i] == rt[i - 1] && rs[i + 1] == rt[i];
        } else {
          assert rs[1] == rt[0] && rt[0].lo == t[0];
        }
      }
    }
  }

  /** In a strictly ascending sequence the runs are separated by missing numbers and come
      in ascending order. */
  lemma AscendingRunsSeparated(s: seq<int>)
    requires StrictlyAscending(s)
    ensures Separated(Runs(s))
  {
    AscendingRunsGapped(s);
    GappedSeparated(Runs(s));
  }

  predicate InRange(x: int, r: Range) {
    r.lo <= x <= r.hi
  }

  lemma {:induction false} ExpandMembers(r: Range, x: int)
    requires r.lo <= r.hi
    ensures x in Expand(r) <==> InRange(x, r)
    decreases r.hi - r.lo
  {
    if r.lo < r.hi {
      ExpandMembers(Range(r.lo + 1, r.hi), x);
    }
  }

  lemma {:induction false} FlattenMembers(rs: seq<Range>, x: int)
    requires WellFormed(rs)
    ensures x in Flatten(rs) <==> exists i :: 0 <= i < |rs| && InRange(x, rs[i])
  {
    if rs != [] {
      ExpandMembers(rs[0], x);
      FlattenMembers(rs[1..], x);
      if x in Flatten(rs[1..]) {
        var i :| 0 <= i < |rs[1..]| && InRange(x, rs[1..][i]);
        assert InRange(x, rs[i + 1]);
      }
      if exists i :: 0 <= i < |rs| && InRange(x, rs[i]) {
        var i :| 0 <= i < |rs| && InRange(x, rs[i]);
        if i > 0 { assert InRange(x, rs[1..][i - 1]); }
      }
    }
  }

  lemma RunsMembers(s: seq<int>, x: int)
    ensures x in s <==> exists j :: 0 <= j < |Runs(s)| && InRange(x, Runs(s)[j])
  {
    RunsFlatten(s);
    FlattenMembers(Runs(s), x);
  }

  /** In separated runs, the numbers just outside a run lie in no run at all. */
  lemma OutsideSeparatedRuns(rs: seq<Range>, i: nat)
    requires WellFormed(rs) && Separated(rs) && i < |rs|
    ensures forall j :: 0 <= j < |rs| ==> !InRange(rs[i].lo - 1, rs[j]) && !InRange(rs[i].hi + 1, rs[j])
  {
    forall j | 0 <= j < |rs| ensures !InRange(rs[i].lo - 1, rs[j]) && !InRange(rs[i].hi + 1, rs[j]) {
      if j < i {
        assert rs[j].hi + 1 < rs[i].lo;
      } else if j > i {
        assert rs[i].hi + 1 < rs[j].lo;
      }
    }
  }

  /** For strictly ascending s, every run of Runs(s) is a maximal block of consecutive
      members of s: all of lo..hi are in s, and neither lo - 1 nor hi + 1 is. */
  lemma MaximalRuns(s: seq<int>, i: nat)
    requires StrictlyAscending(s) && i < |Runs(s)|
    ensures var r := Runs(s)[i];
      (forall x :: InRange(x, r) ==> x in s) && r.lo - 1 !in s && r.hi + 1 !in s
  {
    var rs := Runs(s);
    forall x | InRange(x, rs[i]) ensures x in s {
      RunsMembers(s, x);
    }
    AscendingRunsSeparated(s);
    OutsideSeparatedRuns(rs, i);
    RunsMembers(s, rs[i].lo - 1);
    RunsMembers(s, rs[i].hi + 1);
  }

  /** The text closeCurrentRange appends for a run: "lo" for a single number, "lo-hi"
      otherwise. */
  function Token(r: Range): (t: string)
    ensures t != []
  {
    if r.lo == r.hi then IntToString(r.lo) else IntToString(r.lo) + "-" + IntToString(r.hi)
  }

  /** A token ends in a digit, and starts with one when the run is not negative. */
  lemma TokenEnds(r: Range)
    ensures var t := Token(r); IsDigit(t[|t| - 1]) && (r.lo >= 0 ==> IsDigit(t[0]))
  {
    IntToStringShape(r.lo);
    IntToStringShape(r.hi);
  }

  /** The tokens of rs joined by ", ". */
  function Render(rs: seq<Range>): (text: string)
    ensures text == [] <==> rs == []
  {
    if rs == [] then ""
    else if |rs| == 1 then Token(rs[0])
    else Render(rs[..|rs| - 1]) + ", " + Token(rs[|rs| - 1])
  }

  /** A rendering has no separator at either end: it ends in a digit, and starts with one
      when the first run is not negative. */
  lemma {:induction false} RenderEnds(rs: seq<Range>)
    requires rs != []
    ensures var text := Render(rs);
      IsDigit(text[|text| - 1]) && (rs[0].lo >= 0 ==> IsDigit(text[0]))
  {
    TokenEnds(rs[|rs| - 1]);
    if |rs| > 1 {
      RenderEnds(rs[..|rs| - 1]);
      assert rs[..|rs| - 1][0] == rs[0];
    }
  }

  /** The range summary of s: its maximal runs, rendered and joined by ", ". */
  function Summary(s: seq<int>): (text: string)
    ensures text == [] <==> s == []
  {
    Render(Runs(s))
  }

  /** A summary has no separator at either end: it starts and ends with a digit when the
      numbers are not negative. */
  lemma SummaryEnds(s: seq<int>)
    requires s != [] && forall i :: 0 <= i < |s| ==> s[i] >= 0
    ensures var text := Summary(s); IsDigit(text[0]) && IsDigit(text[|text| - 1])
  {
    RenderEnds(Runs(s));
  }
}
