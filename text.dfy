/** String operations of Python's `str` that the core relies on, over
    `seq<char>`, with the facts the other modules need about them. */
module Text {

  /** `p` occurs in `s` starting at index `i`. */
  predicate OccursAt(s: string, p: string, i: int)
  {
    0 <= i && i + |p| <= |s| && s[i..i + |p|] == p
  }

  predicate Contains(s: string, p: string)
  {
    exists i | 0 <= i <= |s| :: OccursAt(s, p, i)
  }

  predicate EndsWith(s: string, p: string)
  {
    |p| <= |s| && s[|s| - |p|..] == p
  }

  /** `s.split(sep)[-1]` for a one-character separator: the part after the
      last `sep`, or all of `s` when `sep` does not occur. */
  function LastSegment(s: string, sep: char): (r: string)
    ensures sep !in r
    ensures |r| <= |s| && r == s[|s| - |r|..]
    ensures sep !in s ==> r == s
  {
    if s == [] then []
    else if s[|s| - 1] == sep then []
    else LastSegment(s[..|s| - 1], sep) + [s[|s| - 1]]
  }

  /** `s.split(p)[0]` for a non-empty `p`: the part before the first
      occurrence of `p`, or all of `s` when `p` does not occur. */
  function FirstPiece(s: string, p: string): (r: string)
    requires |p| > 0
    ensures |r| <= |s| && r == s[..|r|]
    decreases |s|
  {
    if |s| < |p| then s
    else if s[..|p|] == p then []
    else [s[0]] + FirstPiece(s[1..], p)
  }

  /** `sep.join(parts)`. */
  function Join(sep: string, parts: seq<string>): string
  {
    if |parts| == 0 then ""
    else if |parts| == 1 then parts[0]
    else parts[0] + sep + Join(sep, parts[1..])
  }

  lemma {:induction false} LastSegmentAfterSeparator(a: string, sep: char, b: string)
    requires sep !in b
    ensures LastSegment(a + [sep] + b, sep) == b
    decreases |b|
  {
    var s := a + [sep] + b;
    if b == [] {
      assert s[|s| - 1] == sep;
    } else {
      var b' := b[..|b| - 1];
      var last := b[|b| - 1];
      assert b == b' + [last];
      assert last in b;
      assert s == (a + [sep] + b') + [last];
      assert s[..|s| - 1] == a + [sep] + b';
      assert s[|s| - 1] == last;
      LastSegmentAfterSeparator(a, sep, b');
    }
  }

  /** The first piece never contains the separator. */
  lemma {:induction false} FirstPieceLacksSeparator(s: string, p: string)
    requires |p| > 0
    ensures !Contains(FirstPiece(s, p), p)
    decreases |s|
  {
    var r := FirstPiece(s, p);
    if |s| >= |p| && s[..|p|] != p {
      FirstPieceLacksSeparator(s[1..], p);
      var t := FirstPiece(s[1..], p);
      assert r == [s[0]] + t;
      forall i | 0 <= i <= |r|
        ensures !OccursAt(r, p, i)
      {
        if i == 0 {
          if |p| <= |r| {
            assert r[0..|p|] == s[..|p|];
          }
        } else if i + |p| <= |r| {
          assert r[i..i + |p|] == t[i - 1..i - 1 + |p|];
          assert !OccursAt(t, p, i - 1);
        }
      }
    }
  }

  /** The first piece stops at or before any occurrence of the separator. */
  lemma {:induction false} FirstPieceStopsAt(s: string, p: string, i: int)
    requires |p| > 0 && OccursAt(s, p, i)
    ensures |FirstPiece(s, p)| <= i
    decreases |s|
  {
    if s[..|p|] == p {
    } else {
      assert s[0..|p|] == s[..|p|];
      assert s[1..][i - 1..i - 1 + |p|] == s[i..i + |p|];
      FirstPieceStopsAt(s[1..], p, i - 1);
    }
  }

  /** Without an occurrence of `p`, the first piece is the whole string. */
  lemma {:induction false} FirstPieceWhole(s: string, p: string)
    requires |p| > 0 && !Contains(s, p)
    ensures FirstPiece(s, p) == s
    decreases |s|
  {
    if |s| >= |p| {
      assert !OccursAt(s, p, 0);
      assert s[0..|p|] == s[..|p|];
      forall i | 0 <= i <= |s[1..]|
        ensures !OccursAt(s[1..], p, i)
      {
        if OccursAt(s[1..], p, i) {
          assert s[1..][i..i + |p|] == s[i + 1..i + 1 + |p|];
          assert OccursAt(s, p, i + 1);
        }
      }
      FirstPieceWhole(s[1..], p);
      assert s == [s[0]] + s[1..];
    }
  }

  /** When `p` first occurs in `a + p + c` right after `a`, the first piece is `a`. */
  lemma {:induction false} FirstPieceBefore(a: string, p: string, c: string)
    requires |p| > 0
    requires forall i :: 0 <= i < |a| ==> !OccursAt(a + p + c, p, i)
    ensures FirstPiece(a + p + c, p) == a
    decreases |a|
  {
    var s := a + p + c;
    if a == [] {
      assert s[..|p|] == p;
    } else {
      assert !OccursAt(s, p, 0);
      assert s[0..|p|] == s[..|p|];
      assert s[1..] == a[1..] + p + c;
      forall i | 0 <= i < |a[1..]|
        ensures !OccursAt(a[1..] + p + c, p, i)
      {
        assert !OccursAt(s, p, i + 1);
        assert s[i + 1..i + 1 + |p|] == (a[1..] + p + c)[i..i + |p|];
      }
      FirstPieceBefore(a[1..], p, c);
    }
  }

  /** `Join` of a non-empty list followed by one more part. */
  lemma {:induction false} JoinSnoc(sep: string, parts: seq<string>, x: string)
    requires |parts| > 0
    ensures Join(sep, parts + [x]) == Join(sep, parts) + sep + x
    decreases |parts|
  {
    if |parts| == 1 {
      assert parts + [x] == [parts[0], x];
      assert (parts + [x])[1..] == [x];
    } else {
      assert (parts + [x])[1..] == parts[1..] + [x];
      JoinSnoc(sep, parts[1..], x);
    }
  }
}
