/** String splitting as JavaScript's `String.prototype.split` does it for a
    one-character separator, with the segment accessors the containers use. */
module Strings {

  /** `parts.join(sep)`: the parts in order with one separator between neighbours. */
  function Join(parts: seq<string>, sep: char): string
  {
    if |parts| == 0 then ""
    else if |parts| == 1 then parts[0]
    else parts[0] + [sep] + Join(parts[1..], sep)
  }

  /** `s.split(sep)`: the maximal separator-free pieces of `s`, in order.
      The empty string splits into one empty piece, and a separator at either
      end yields an empty piece there. */
  function Split(s: string, sep: char): (r: seq<string>)
    ensures |r| >= 1
    ensures forall i :: 0 <= i < |r| ==> sep !in r[i]
    decreases |s|
  {
    if |s| == 0 then [""]
    else
      var rest := Split(s[1..], sep);
      if s[0] == sep then [""] + rest
      else [[s[0]] + rest[0]] + rest[1..]
  }

  /** The pieces join back to `s`, and there is more than one piece iff `s`
      contains the separator. */
  lemma {:induction false} SplitJoins(s: string, sep: char)
    ensures Join(Split(s, sep), sep) == s
    ensures |Split(s, sep)| > 1 <==> sep in s
    decreases |s|
  {
    if |s| > 0 {
      SplitJoins(s[1..], sep);
      var rest := Split(s[1..], sep);
      var r := Split(s, sep);
      assert s == [s[0]] + s[1..];
      if s[0] == sep {
        assert r[1..] == rest;
      } else {
        assert r[1..] == rest[1..];
      }
    }
  }

  /** Splitting a piece followed by a separator peels that piece off. */
  lemma {:induction false} SplitAfterPiece(p: string, t: string, sep: char)
    requires sep !in p
    ensures Split(p + [sep] + t, sep) == [p] + Split(t, sep)
    decreases |p|
  {
    var s := p + [sep] + t;
    if |p| == 0 {
      assert s[0] == sep && s[1..] == t;
    } else {
      assert s[0] == p[0] && s[1..] == p[1..] + [sep] + t;
      SplitAfterPiece(p[1..], t, sep);
      assert [p[0]] + p[1..] == p;
    }
  }

  /** Split is the only way to cut `s` into separator-free pieces that join back to `s`. */
  lemma {:induction false} SplitUnique(s: string, sep: char, parts: seq<string>)
    requires |parts| >= 1
    requires forall i :: 0 <= i < |parts| ==> sep !in parts[i]
    requires Join(parts, sep) == s
    ensures parts == Split(s, sep)
    decreases |parts|
  {
    if |parts| == 1 {
      var r := Split(s, sep);
      SplitJoins(s, sep);
      assert sep !in s;
      assert |r| == 1;
    } else {
      var tail := parts[1..];
      SplitUnique(Join(tail, sep), sep, tail);
      SplitAfterPiece(parts[0], Join(tail, sep), sep);
      assert parts == [parts[0]] + tail;
    }
  }

  /** The first piece: `s.split(sep)[0]`. */
  function FirstSegment(s: string, sep: char): (r: string)
    ensures sep !in r
    ensures |r| <= |s| && s[..|r|] == r
    ensures |r| == |s| || s[|r|] == sep
  {
    var parts := Split(s, sep);
    SplitJoins(s, sep);
    if |parts| == 1 then parts[0]
    else
      assert s == parts[0] + [sep] + Join(parts[1..], sep);
      parts[0]
  }

  /** The last piece: `pieces[pieces.length - 1]` for `pieces = s.split(sep)`. */
  function LastSegment(s: string, sep: char): (r: string)
    ensures sep !in r
    ensures |r| <= |s| && s[|s| - |r|..] == r
    ensures |r| == |s| || s[|s| - |r| - 1] == sep
  {
    var parts := Split(s, sep);
    SplitJoins(s, sep);
    JoinEndsWithLast(parts, sep);
    parts[|parts| - 1]
  }

  lemma {:induction false} JoinEndsWithLast(parts: seq<string>, sep: char)
    requires |parts| >= 1
    ensures var s, last := Join(parts, sep), parts[|parts| - 1];
      |last| <= |s| && s[|s| - |last|..] == last &&
      (|parts| > 1 ==> |last| < |s| && s[|s| - |last| - 1] == sep)
  {
    if |parts| > 1 {
      JoinEndsWithLast(parts[1..], sep);
      var last := parts[|parts| - 1];
      var tailJoin := Join(parts[1..], sep);
      var s := Join(parts, sep);
      assert s == (parts[0] + [sep]) + tailJoin;
      assert s[|s| - |last|..] == tailJoin[|tailJoin| - |last|..];
      if |parts| == 2 {
        assert tailJoin == last;
        assert s[|s| - |last| - 1] == sep;
      } else {
        assert s[|s| - |last| - 1] == tailJoin[|tailJoin| - |last| - 1];
      }
    }
  }

  /** The second piece when there is one, `s.split(sep)[1]`: it starts right
      after the first separator and runs up to the next separator or the end. */
  function SecondSegment(s: string, sep: char): (r: string)
    requires sep in s
    ensures var start := |FirstSegment(s, sep)| + 1;
      sep !in r && start + |r| <= |s| && s[start..start + |r|] == r &&
      (start + |r| == |s| || s[start + |r|] == sep)
  {
    AfterFirstSeparator(s, sep);
    FirstSegment(s[|FirstSegment(s, sep)| + 1..], sep)
  }

  lemma AfterFirstSeparator(s: string, sep: char)
    requires sep in s
    ensures var start := |FirstSegment(s, sep)| + 1;
      start <= |s| &&
      var r := FirstSegment(s[start..], sep);
      start + |r| <= |s| && s[start..start + |r|] == r &&
      (start + |r| == |s| || s[start + |r|] == sep)
  {
    var first := FirstSegment(s, sep);
    assert first != s;
    var start := |first| + 1;
    var rest := s[start..];
    var r := FirstSegment(rest, sep);
    assert s[start..start + |r|] == rest[..|r|];
    assert start + |r| < |s| ==> s[start + |r|] == rest[|r|];
  }

  /** `first` and `second` are the first two pieces of `s`: `first` runs up
      to the first separator and `second` from just after it up to the next
      separator or the end. */
  predicate FirstTwo(s: string, sep: char, first: string, second: string)
  {
    sep !in first && sep !in second &&
    |first| + 1 + |second| <= |s| &&
    s[..|first|] == first && s[|first|] == sep &&
    s[|first| + 1..|first| + 1 + |second|] == second &&
    (|first| + 1 + |second| == |s| || s[|first| + 1 + |second|] == sep)
  }

  /** FirstSegment and SecondSegment are the first two pieces. */
  lemma FirstTwoSegments(s: string, sep: char)
    requires sep in s
    ensures FirstTwo(s, sep, FirstSegment(s, sep), SecondSegment(s, sep))
  {
    var first := FirstSegment(s, sep);
    assert first != s;
  }

  /** A separator-free suffix that is the whole string or follows a
      separator is the last piece. */
  lemma LastSegmentIs(s: string, sep: char, piece: string)
    requires sep !in piece
    requires |piece| <= |s| && s[|s| - |piece|..] == piece
    requires |piece| == |s| || s[|s| - |piece| - 1] == sep
    ensures LastSegment(s, sep) == piece
  {
    var r := LastSegment(s, sep);
    if |r| > |piece| {
      assert false;
    } else if |r| < |piece| {
      assert false;
    }
  }
}
