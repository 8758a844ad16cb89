/** UniqueNumberRangeSummarizer: collect turns a comma-separated string into the ascending,
    duplicate-free non-negative ints it names; summarizeCollection feeds a collection, in
    iteration order, through a fresh RangeBuilder. */
module Summarizer {
  import opened Wrappers
  import opened Decimal
  import opened Text
  import opened Ranges
  import opened RangeBuilding

  /** The two IllegalArgumentExceptions that collect throws. */
  datatype Error = InvalidNumber(token: string) | Negative

  /** The message each exception carries. */
  function Message(e: Error): string {
    match e
    case InvalidNumber(token) => "Invalid number: " + token
    case Negative => "Negative numbers are not supported"
  }

  lemma InvalidIsNotNegative(token: string)
    ensures Message(InvalidNumber(token)) != Message(Negative)
  {
    assert Message(InvalidNumber(token))[0] == 'I';
  }

  /** The message tells the two errors apart, and tells which token was invalid. */
  lemma MessageDistinguishes(e1: Error, e2: Error)
    ensures Message(e1) == Message(e2) ==> e1 == e2
  {
    var prefix := "Invalid number: ";
    match (e1, e2)
    case (InvalidNumber(t1), InvalidNumber(t2)) =>
      assert t1 == Message(e1)[|prefix|..];
      assert t2 == Message(e2)[|prefix|..];
    case (InvalidNumber(t1), Negative) =>
      InvalidIsNotNegative(t1);
    case (Negative, InvalidNumber(t2)) =>
      InvalidIsNotNegative(t2);
    case (Negative, Negative) =>
  }

  /** validateAndParse: a token that is not an int is invalid; one that is an int but
      negative is rejected next; any other is accepted with its value. */
  function ValidateAndParse(numStr: string): (r: Result<nat, Error>)
    ensures r.Success? ==> ParseInt(numStr) == Some(r.value as int) && r.value <= IntMax
    ensures r == Failure(InvalidNumber(numStr)) <==> ParseInt(numStr).None?
    ensures r == Failure(Negative) <==> ParseInt(numStr).Some? && ParseInt(numStr).value < 0
  {
    match ParseInt(numStr)
    case None => Failure(InvalidNumber(numStr))
    case Some(num) => if num < 0 then Failure(Negative) else Success(num)
  }

  /** Every non-negative int written by Integer.toString is accepted with its own value. */
  lemma AcceptsWrittenNumbers(n: nat)
    requires n <= IntMax
    ensures ValidateAndParse(NatToString(n)) == Success(n)
  {
    ParseIntToString(n);
  }

  /** Every negative int written by Integer.toString is refused as negative, not as invalid. */
  lemma RefusesWrittenNegatives(x: int)
    requires IntMin <= x < 0
    ensures ValidateAndParse(IntToString(x)) == Failure(Negative)
  {
    ParseIntToString(x);
  }

  /** TreeSet.add on the ascending contents of a TreeSet: v joins the set in its place, and
      nothing happens when it is already there. */
  function Insert(xs: seq<nat>, v: nat): (ys: seq<nat>)
    requires StrictlyAscending(xs)
    ensures StrictlyAscending(ys)
    ensures forall x :: x in ys <==> x in xs || x == v
  {
    if xs == [] then [v]
    else if v < xs[0] then [v] + xs
    else if v == xs[0] then xs
    else
      var rest := Insert(xs[1..], v);
      assert xs == [xs[0]] + xs[1..];
      assert forall x :: x in rest ==> xs[0] < x;
      ConsAscending(xs[0], rest);
      [xs[0]] + rest
  }

  /** A number below every element of an ascending sequence can go in front of it. */
  lemma ConsAscending(x: int, rest: seq<int>)
    requires StrictlyAscending(rest) && forall y :: y in rest ==> x < y
    ensures StrictlyAscending([x] + rest)
  {
    var ys := [x] + rest;
    forall i, j | 0 <= i < j < |ys| ensures ys[i] < ys[j] {
      assert ys[j] == rest[j - 1] && rest[j - 1] in rest;
      if i > 0 {
        assert ys[i] == rest[i - 1];
      }
    }
  }

  /** Two strictly ascending sequences with the same elements are equal: a sorted set has
      one iteration order. */
  lemma {:induction false} AscendingUnique(a: seq<nat>, b: seq<nat>)
    requires StrictlyAscending(a) && StrictlyAscending(b)
    requires forall x :: x in a <==> x in b
    ensures a == b
  {
    if a != [] {
      assert a[0] in b;
    }
    if b != [] {
      assert b[0] in a;
    }
    if a != [] && b != [] {
      assert a[0] == b[0];
      forall x ensures x in a[1..] <==> x in b[1..] {
        if x in a[1..] { assert x in b && x != b[0]; }
        if x in b[1..] { assert x in a && x != a[0]; }
      }
      AscendingUnique(a[1..], b[1..]);
      assert a == [a[0]] + a[1..] && b == [b[0]] + b[1..];
    }
  }

  /** numStr.trim().isEmpty(): a piece that collect skips. */
  predicate IsBlank(piece: string) {
    Trim(piece) == []
  }

  /** A piece that makes collect throw: not blank, and rejected by validateAndParse. */
  predicate IsBad(piece: string) {
    !IsBlank(piece) && ValidateAndParse(Trim(piece)).Failure?
  }

  /** The position of the leftmost bad piece, or |pieces| when there is none. */
  function FirstBad(pieces: seq<string>): (k: nat)
    ensures k <= |pieces|
  {
    if pieces == [] || IsBad(pieces[0]) then 0 else 1 + FirstBad(pieces[1..])
  }

  /** FirstBad finds the leftmost bad piece: all before it are good, and it is bad. */
  lemma {:induction false} FirstBadLeftmost(pieces: seq<string>)
    ensures forall j :: 0 <= j < FirstBad(pieces) ==> !IsBad(pieces[j])
    ensures FirstBad(pieces) < |pieces| ==> IsBad(pieces[FirstBad(pieces)])
  {
    if pieces != [] && !IsBad(pieces[0]) {
      var rest := pieces[1..];
      FirstBadLeftmost(rest);
      forall j | 0 < j < FirstBad(pieces) ensures !IsBad(pieces[j]) {
        assert pieces[j] == rest[j - 1];
      }
      assert FirstBad(pieces) < |pieces| ==> pieces[FirstBad(pieces)] == rest[FirstBad(rest)];
    }
  }

  /** A position with only good pieces before it and a bad one (or the end) at it is FirstBad. */
  lemma {:induction false} FirstBadAt(pieces: seq<string>, i: nat)
    requires i <= |pieces|
    requires forall j :: 0 <= j < i ==> !IsBad(pieces[j])
    requires i < |pieces| ==> IsBad(pieces[i])
    ensures FirstBad(pieces) == i
  {
    if i > 0 {
      var rest := pieces[1..];
      assert !IsBad(pieces[0]);
      forall j | 0 <= j < i - 1 ensures !IsBad(rest[j]) {
        assert rest[j] == pieces[j + 1];
      }
      assert i - 1 < |rest| ==> rest[i - 1] == pieces[i];
      FirstBadAt(rest, i - 1);
    }
  }

  /** The value a piece contributes once trimmed: its int, if it parses as one. */
  function ValueOf(piece: string): set<int> {
    match ParseInt(Trim(piece))
    case Some(v) => {v}
    case None => {}
  }

  /** The values of the pieces that parse as ints, read from left to right. */
  function ParsedValues(pieces: seq<string>): set<int>
    decreases |pieces|
  {
    if pieces == [] then {} else ParsedValues(pieces[..|pieces| - 1]) + ValueOf(pieces[|pieces| - 1])
  }

  /** Every parsed value comes from some piece. */
  lemma {:induction false} ParsedValuesSound(pieces: seq<string>, x: int)
    requires x in ParsedValues(pieces)
    ensures exists i :: 0 <= i < |pieces| && ParseInt(Trim(pieces[i])) == Some(x)
    decreases |pieces|
  {
    var n := |pieces| - 1;
    var init := pieces[..n];
    if x in ValueOf(pieces[n]) {
      assert ParseInt(Trim(pieces[n])) == Some(x);
    } else {
      ParsedValuesSound(init, x);
      var i :| 0 <= i < |init| && ParseInt(Trim(init[i])) == Some(x);
      assert pieces[i] == init[i];
    }
  }

  /** Every piece that parses contributes its value. */
  lemma {:induction false} ParsedValuesComplete(pieces: seq<string>, i: nat, x: int)
    requires i < |pieces| && ParseInt(Trim(pieces[i])) == Some(x)
    ensures x in ParsedValues(pieces)
    decreases |pieces|
  {
    var n := |pieces| - 1;
    if i < n {
      var init := pieces[..n];
      assert init[i] == pieces[i];
      ParsedValuesComplete(init, i, x);
    } else {
      assert x in ValueOf(pieces[n]);
    }
  }

  /** An int is among the parsed values exactly when some piece parses to it. */
  lemma ParsedValuesMembers(pieces: seq<string>, x: int)
    ensures x in ParsedValues(pieces) <==> exists i :: 0 <= i < |pieces| && ParseInt(Trim(pieces[i])) == Some(x)
  {
    if x in ParsedValues(pieces) {
      ParsedValuesSound(pieces, x);
    }
    if exists i :: 0 <= i < |pieces| && ParseInt(Trim(pieces[i])) == Some(x) {
      var i :| 0 <= i < |pieces| && ParseInt(Trim(pieces[i])) == Some(x);
      ParsedValuesComplete(pieces, i, x);
    }
  }

  /** What collect returns for the pieces of its input, read from the front: the first bad
      piece decides the error; otherwise the set of the values, in ascending order. */
  function Collected(pieces: seq<string>): (r: Result<seq<nat>, Error>)
    ensures r.Success? ==> StrictlyAscending(r.value)
  {
    if pieces == [] then Success([])
    else if IsBlank(pieces[0]) then Collected(pieces[1..])
    else
      match ValidateAndParse(Trim(pieces[0]))
      case Failure(e) => Failure(e)
      case Success(v) =>
        match Collected(pieces[1..])
        case Failure(e) => Failure(e)
        case Success(xs) => Success(Insert(xs, v))
  }

  /** The decimal text of each number, as Integer.toString writes it. */
  function Decimals(xs: seq<nat>): (pieces: seq<string>)
    ensures |pieces| == |xs|
  {
    if xs == [] then [] else [NatToString(xs[0])] + Decimals(xs[1..])
  }

  /** Collecting the decimal texts of ascending ints gives those ints back. */
  lemma {:induction false} CollectedDecimals(xs: seq<nat>)
    requires StrictlyAscending(xs) && (xs != [] ==> xs[|xs| - 1] <= IntMax)
    ensures Collected(Decimals(xs)) == Success(xs)
  {
    if xs != [] {
      var tail := xs[1..];
      assert forall i :: 0 <= i < |tail| ==> tail[i] == xs[i + 1];
      assert xs[0] <= xs[|xs| - 1];
      CollectedDecimals(tail);
      var piece := NatToString(xs[0]);
      NatToStringDigits(xs[0]);
      assert IsDigit(piece[0]) && IsDigit(piece[|piece| - 1]);
      assert Trim(piece) == piece;
      AcceptsWrittenNumbers(xs[0]);
      assert Decimals(xs)[1..] == Decimals(tail);
      assert tail != [] ==> xs[0] < tail[0];
      assert Insert(tail, xs[0]) == [xs[0]] + tail == xs;
    }
  }

  /** The decimal texts of some ints, joined by commas, split back into those texts. */
  lemma SplitDecimals(xs: seq<nat>)
    requires xs != []
    ensures Split(Join(Decimals(xs), ','), ',') == Decimals(xs)
  {
    var pieces := Decimals(xs);
    forall i | 0 <= i < |pieces| ensures ',' !in pieces[i] {
      DecimalsAreDigits(xs, i);
    }
    SplitJoin(pieces, ',');
  }

  lemma {:induction false} DecimalsAreDigits(xs: seq<nat>, i: nat)
    requires i < |xs|
    ensures Decimals(xs)[i] == NatToString(xs[i]) && AllDigits(Decimals(xs)[i])
  {
    NatToStringDigits(xs[i]);
    if i > 0 {
      DecimalsAreDigits(xs[1..], i - 1);
    }
  }

  lemma {:induction false} ParsedValuesCons(pieces: seq<string>)
    requires pieces != []
    ensures ParsedValues(pieces) == ValueOf(pieces[0]) + ParsedValues(pieces[1..])
    decreases |pieces|
  {
    if |pieces| > 1 {
      var n := |pieces| - 1;
      var init, tail := pieces[..n], pieces[1..];
      ParsedValuesCons(init);
      assert init[0] == pieces[0] && tail[n - 1] == pieces[n];
      assert tail[..n - 1] == init[1..];
      assert ParsedValues(tail) == ParsedValues(init[1..]) + ValueOf(pieces[n]);
      assert ParsedValues(pieces) == ParsedValues(init) + ValueOf(pieces[n]);
    } else {
      assert pieces[..0] == [];
    }
  }

  lemma ParsedValuesSnoc(pieces: seq<string>, i: nat)
    requires i < |pieces|
    ensures ParsedValues(pieces[..i + 1]) == ParsedValues(pieces[..i]) + ValueOf(pieces[i])
  {
    assert pieces[..i + 1][..i] == pieces[..i];
  }

  /** collect fails exactly when some piece is bad, and then with the error of the leftmost. */
  lemma {:induction false} CollectedFailsAtFirstBad(pieces: seq<string>)
    ensures Collected(pieces).Failure? <==> FirstBad(pieces) < |pieces|
    ensures Collected(pieces).Failure? ==>
      ValidateAndParse(Trim(pieces[FirstBad(pieces)])) == Failure(Collected(pieces).error)
  {
    if pieces != [] && !IsBad(pieces[0]) {
      CollectedFailsAtFirstBad(pieces[1..]);
      assert FirstBad(pieces) < |pieces| ==> pieces[FirstBad(pieces)] == pieces[1..][FirstBad(pieces[1..])];
    }
  }

  lemma GoodPrefixGrows(pieces: seq<string>, i: nat)
    requires i < |pieces|
    requires forall j :: 0 <= j < i ==> !IsBad(pieces[j])
    requires !IsBad(pieces[i])
    ensures forall j :: 0 <= j < i + 1 ==> !IsBad(pieces[j])
  {
  }

  /** A successful collect holds exactly the values of the pieces. */
  lemma {:induction false} CollectedValues(pieces: seq<string>)
    requires Collected(pieces).Success?
    ensures forall x :: x in Collected(pieces).value <==> x in ParsedValues(pieces)
  {
    if pieces != [] {
      CollectedValues(pieces[1..]);
      ParsedValuesCons(pieces);
    }
  }

  /** processInputString: split the input on ',', skip blank pieces, validate the trimmed
      others from left to right, and add each value to a TreeSet. */
  method ProcessInputString(input: string) returns (r: Result<seq<nat>, Error>)
    ensures r == Collected(Split(input, ','))
  {
    var pieces := Split(input, ',');
    assert pieces[..|pieces|] == pieces;
    var uniqueNumbers: seq<nat> := [];
    for i := 0 to |pieces|
      invariant StrictlyAscending(uniqueNumbers)
      invariant forall j :: 0 <= j < i ==> !IsBad(pieces[j])
      invariant forall x :: x in uniqueNumbers <==> x in ParsedValues(pieces[..i])
    {
      var numStr := pieces[i];
      ParsedValuesSnoc(pieces, i);
      if IsBlank(numStr) {
        assert !IsBad(numStr);
      } else {
        match ValidateAndParse(Trim(numStr))
        case Failure(e) =>
          FirstBadAt(pieces, i);
          CollectedFailsAtFirstBad(pieces);
          return Failure(e);
        case Success(v) =>
          assert !IsBad(numStr);
          uniqueNumbers := Insert(uniqueNumbers, v);
      }
      GoodPrefixGrows(pieces, i);
    }
    FirstBadAt(pieces, |pieces|);
    CollectedFailsAtFirstBad(pieces);
    CollectedValues(pieces);
    AscendingUnique(uniqueNumbers, Collected(pieces).value);
    r := Success(uniqueNumbers);
  }

  /** collect: no input gives an empty collection; otherwise the pieces of the input,
      ascending and without duplicates, or the error of the leftmost bad piece. */
  method Collect(input: Option<string>) returns (r: Result<seq<nat>, Error>)
    ensures input.None? ==> r == Success([])
    ensures r.Success? ==> StrictlyAscending(r.value)
    ensures input.Some? && r.Success? ==>
      forall x :: x in r.value <==> x in ParsedValues(Split(input.value, ','))
    ensures input.Some? ==> var pieces := Split(input.value, ',');
      (r.Failure? <==> FirstBad(pieces) < |pieces|) &&
      (r.Failure? ==> ValidateAndParse(Trim(pieces[FirstBad(pieces)])) == Failure(r.error))
  {
    if input.None? {
      return Success([]);
    }
    r := ProcessInputString(input.value);
    CollectedFailsAtFirstBad(Split(input.value, ','));
    if r.Success? {
      CollectedValues(Split(input.value, ','));
    }
  }

  /** buildRangeSummary: every number, in iteration order, through a fresh builder. */
  method BuildRangeSummary(numbers: seq<int>) returns (summary: string)
    ensures summary == Summary(numbers)
  {
    var builder := new RangeBuilder();
    for i := 0 to |numbers|
      invariant builder.Valid() && builder.Fed == numbers[..i] && builder.Flushed == ""
    {
      assert numbers[..i + 1] == numbers[..i] + [numbers[i]];
      builder.ProcessNumber(numbers[i]);
    }
    assert numbers[..|numbers|] == numbers;
    summary := builder.Build();
  }

  /** summarizeCollection: the empty string for no collection or an empty one, otherwise
      the range summary of the numbers in iteration order. */
  method SummarizeCollection(input: Option<seq<int>>) returns (summary: string)
    ensures input.None? ==> summary == ""
    ensures input.Some? ==> summary == Summary(input.value)
  {
    if input.None? || input.value == [] {
      return "";
    }
    summary := BuildRangeSummary(input.value);
  }
}
