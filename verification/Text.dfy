/** Joined text keys: when the parts can be read back from the joined text. */
module Text {
  import opened Prelude

  /** How often `c` occurs in `s`. */
  function Count(s: string, c: char): nat {
    if s == [] then 0 else (if s[0] == c then 1 else 0) + Count(s[1..], c)
  }

  lemma {:induction false} CountConcat(a: string, b: string, c: char)
    ensures Count(a + b, c) == Count(a, c) + Count(b, c)
  {
    if a == [] {
      assert a + b == b;
    } else {
      assert (a + b)[1..] == a[1..] + b;
      CountConcat(a[1..], b, c);
    }
  }

  lemma {:induction false} CountZero(s: string, c: char)
    ensures Count(s, c) == 0 <==> c !in s
  {
    if s != [] {
      CountZero(s[1..], c);
      assert s == [s[0]] + s[1..];
    }
  }

  /** A separator-free front is no longer than any other front of the same text. */
  lemma FrontShorter(a: string, b: string, x: string, y: string, c: char)
    requires c !in a && a + [c] + b == x + [c] + y
    ensures |a| <= |x|
  {
    assert (x + [c] + y)[|x|] == c;
    assert forall i :: 0 <= i < |a| ==> (a + [c] + b)[i] == a[i];
  }

  /** A separator-free back is no longer than any other back of the same text. */
  lemma BackShorter(a: string, b: string, x: string, y: string, c: char)
    requires c !in b && a + [c] + b == x + [c] + y
    ensures |b| <= |y|
  {
    assert (x + [c] + y)[|x|] == c;
    assert forall i :: 0 <= i < |b| ==> (a + [c] + b)[|a| + 1 + i] == b[i];
    assert |x| > |a| ==> (a + [c] + b)[|a| + 1 + (|x| - |a| - 1)] == c;
  }

  lemma SameCut(a: string, b: string, x: string, y: string, c: char)
    requires |a| == |x| && a + [c] + b == x + [c] + y
    ensures a == x && b == y
  {
    var s, t := a + [c] + b, x + [c] + y;
    assert a == s[..|a|] && x == t[..|a|];
    assert b == s[|a| + 1..] && y == t[|a| + 1..];
  }

  /** Text before the first separator determines the split. */
  lemma SplitFirst(a: string, b: string, x: string, y: string, c: char)
    requires c !in a && c !in x && a + [c] + b == x + [c] + y
    ensures a == x && b == y
  {
    FrontShorter(a, b, x, y, c);
    FrontShorter(x, y, a, b, c);
    SameCut(a, b, x, y, c);
  }

  /** Text after the last separator determines the split. */
  lemma SplitLast(a: string, b: string, x: string, y: string, c: char)
    requires c !in b && c !in y && a + [c] + b == x + [c] + y
    ensures a == x && b == y
  {
    BackShorter(a, b, x, y, c);
    BackShorter(x, y, a, b, c);
    assert |a + [c] + b| == |x + [c] + y|;
    SameCut(a, b, x, y, c);
  }
}
