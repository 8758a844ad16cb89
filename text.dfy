/** The two java.lang.String operations the collector applies to its input:
    split(",") and trim(). */
module Text {

  /** The pieces joined back together with sep between them. */
  function Join(pieces: seq<string>, sep: char): string
    requires |pieces| >= 1
  {
    if |pieces| == 1 then pieces[0] else pieces[0] + [sep] + Join(pieces[1..], sep)
  }

  /** s cut at every occurrence of sep. Unlike String.split, empty pieces at the end are
      kept; the collector skips blank pieces, so that makes no difference to it. */
  function Split(s: string, sep: char): (pieces: seq<string>)
    ensures |pieces| >= 1
    ensures forall i :: 0 <= i < |pieces| ==> sep !in pieces[i]
    ensures Join(pieces, sep) == s
  {
    if s == [] then [""]
    else
      var rest := Split(s[1..], sep);
      if s[0] == sep then
        var pieces := [""] + rest;
        assert pieces[1..] == rest;
        pieces
      else
        var pieces := [[s[0]] + rest[0]] + rest[1..];
        assert |rest| > 1 ==> pieces[1..] == rest[1..] && Join(rest, sep) == rest[0] + [sep] + Join(rest[1..], sep);
        pieces
  }

  /** A string without the separator is a single piece. */
  lemma {:induction false} SplitWhole(a: string, sep: char)
    requires sep !in a
    ensures Split(a, sep) == [a]
  {
    if a != [] {
      SplitWhole(a[1..], sep);
      assert [a[0]] + a[1..] == a;
    }
  }

  /** The text before the first separator is the first piece; the rest is split on. */
  lemma {:induction false} SplitFirst(a: string, b: string, sep: char)
    requires sep !in a
    ensures Split(a + [sep] + b, sep) == [a] + Split(b, sep)
  {
    var s := a + [sep] + b;
    if a == [] {
      assert s[1..] == b;
    } else {
      assert s[1..] == a[1..] + [sep] + b;
      SplitFirst(a[1..], b, sep);
      assert [a[0]] + a[1..] == a;
    }
  }

  /** Splitting undoes joining pieces that do not contain the separator. */
  lemma {:induction false} SplitJoin(pieces: seq<string>, sep: char)
    requires |pieces| >= 1 && forall i :: 0 <= i < |pieces| ==> sep !in pieces[i]
    ensures Split(Join(pieces, sep), sep) == pieces
    decreases |pieces|
  {
    if |pieces| == 1 {
      SplitWhole(pieces[0], sep);
    } else {
      var rest := pieces[1..];
      assert forall i :: 0 <= i < |rest| ==> sep !in rest[i] by {
        forall i | 0 <= i < |rest| ensures sep !in rest[i] {
          assert rest[i] == pieces[i + 1];
        }
      }
      SplitJoin(rest, sep);
      SplitFirst(pieces[0], Join(rest, sep), sep);
      assert [pieces[0]] + rest == pieces;
    }
  }

  /** The characters String.trim removes: every code point up to and including U+0020. */
  predicate IsTrimmable(c: char) {
    c <= ' '
  }

  /** String.trim: s without its leading and then its trailing trimmable characters. */
  function Trim(s: string): (r: string)
    ensures |r| <= |s|
    ensures r != [] ==> !IsTrimmable(r[0]) && !IsTrimmable(r[|r| - 1])
    ensures r == [] <==> forall i :: 0 <= i < |s| ==> IsTrimmable(s[i])
  {
    if s != [] && IsTrimmable(s[0]) then Trim(s[1..])
    else if s != [] && IsTrimmable(s[|s| - 1]) then
      assert s[..|s| - 1][0] == s[0];
      Trim(s[..|s| - 1])
    else s
  }

  /** r is the stretch of s that starts at k, and everything around it is trimmable. */
  predicate IsMiddle(s: string, r: string, k: nat) {
    k + |r| <= |s| && r == s[k..k + |r|] &&
    forall i :: 0 <= i < |s| && !(k <= i < k + |r|) ==> IsTrimmable(s[i])
  }

  lemma MiddleAfterLeading(s: string, r: string, k: nat)
    requires s != [] && IsTrimmable(s[0]) && IsMiddle(s[1..], r, k)
    ensures IsMiddle(s, r, k + 1)
  {
    var t := s[1..];
    assert t[k..k + |r|] == s[k + 1..k + 1 + |r|];
    forall i | 0 <= i < |s| && !(k + 1 <= i < k + 1 + |r|) ensures IsTrimmable(s[i]) {
      if i > 0 { assert s[i] == t[i - 1]; }
    }
  }

  lemma MiddleBeforeTrailing(s: string, r: string, k: nat)
    requires s != [] && IsTrimmable(s[|s| - 1]) && IsMiddle(s[..|s| - 1], r, k)
    ensures IsMiddle(s, r, k)
  {
    var t := s[..|s| - 1];
    assert t[k..k + |r|] == s[k..k + |r|];
    forall i | 0 <= i < |s| && !(k <= i < k + |r|) ensures IsTrimmable(s[i]) {
      if i < |t| { assert s[i] == t[i]; }
    }
  }

  /** trim keeps one contiguous stretch of s and removes only trimmable characters
      around it. */
  lemma {:induction false} TrimKeepsMiddle(s: string)
    ensures exists k: nat :: IsMiddle(s, Trim(s), k)
  {
    var r := Trim(s);
    if s != [] && IsTrimmable(s[0]) {
      TrimKeepsMiddle(s[1..]);
      var k: nat :| IsMiddle(s[1..], r, k);
      MiddleAfterLeading(s, r, k);
    } else if s != [] && IsTrimmable(s[|s| - 1]) {
      TrimKeepsMiddle(s[..|s| - 1]);
      var k: nat :| IsMiddle(s[..|s| - 1], r, k);
      MiddleBeforeTrailing(s, r, k);
    } else {
      assert IsMiddle(s, r, 0);
    }
  }
}
