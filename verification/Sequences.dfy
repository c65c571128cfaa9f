/** Searching and inserting in sequences, as the store's linear scans and sorts do. */
module Sequences {

  /** Position of the first element that satisfies `p`, or the length of the sequence. */
  function FirstIndex<T>(s: seq<T>, p: T -> bool): (i: nat)
    ensures i <= |s| && (i < |s| ==> p(s[i]))
    ensures forall j :: 0 <= j < i ==> !p(s[j])
  {
    if s == [] then 0
    else
      var f := FirstIndex(s[..|s| - 1], p);
      if f < |s| - 1 then f else if p(s[|s| - 1]) then |s| - 1 else |s|
  }

  /** The sequence with `x` put in at position `i`. */
  function Inserted<T>(s: seq<T>, x: T, i: nat): seq<T>
    requires i <= |s|
  {
    s[..i] + [x] + s[i..]
  }

  lemma InsertedMembers<T>(s: seq<T>, x: T, i: nat)
    requires i <= |s|
    ensures forall y :: y in Inserted(s, x, i) <==> y in s || y == x
  {
    assert s == s[..i] + s[i..];
  }

  lemma InsertedOnce<T>(s: seq<T>, x: T, i: nat)
    requires i <= |s|
    ensures multiset(Inserted(s, x, i)) == multiset(s) + multiset{x}
  {
    assert s == s[..i] + s[i..];
  }

  predicate Ascending<T>(s: seq<T>, key: T -> int) {
    forall i, j :: 0 <= i < j < |s| ==> key(s[i]) <= key(s[j])
  }

  /** An insertion after the last element that is not larger keeps the order. */
  lemma InsertedInOrder<T>(s: seq<T>, x: T, i: nat, key: T -> int)
    requires i <= |s| && Ascending(s, key) && (i > 0 ==> key(s[i - 1]) <= key(x))
    requires forall j :: i <= j < |s| ==> key(x) <= key(s[j])
    ensures Ascending(Inserted(s, x, i), key)
  {
    var r := Inserted(s, x, i);
    forall j, k | 0 <= j < k < |r|
      ensures key(r[j]) <= key(r[k])
    {
      assert r[j] == if j < i then s[j] else if j == i then x else s[j - 1];
      assert r[k] == if k < i then s[k] else if k == i then x else s[k - 1];
    }
  }

  lemma InsertedDistinct<T>(s: seq<T>, x: T, i: nat)
    requires i <= |s| && x !in s && forall j, k :: 0 <= j < k < |s| ==> s[j] != s[k]
    ensures var r := Inserted(s, x, i); forall j, k :: 0 <= j < k < |r| ==> r[j] != r[k]
  {
    var r := Inserted(s, x, i);
    forall j, k | 0 <= j < k < |r|
      ensures r[j] != r[k]
    {
      assert r[j] == if j < i then s[j] else if j == i then x else s[j - 1];
      assert r[k] == if k < i then s[k] else if k == i then x else s[k - 1];
    }
  }
}
