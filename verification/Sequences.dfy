/** Sequences that are strictly sorted by some relation. */
module Sequences {

  ghost predicate SortedBy<T(!new)>(before: (T, T) -> bool, s: seq<T>) {
    forall i, j {:trigger before(s[i], s[j])} | 0 <= i < j < |s| :: before(s[i], s[j])
  }

  ghost predicate Asymmetric<T(!new)>(before: (T, T) -> bool) {
    forall x, y {:trigger before(x, y)} :: before(x, y) ==> !before(y, x)
  }

  /** Two strictly sorted sequences of the same elements are the same sequence. */
  lemma {:induction false} SortedIsUnique<T(!new)>(before: (T, T) -> bool, a: seq<T>, b: seq<T>)
    requires Asymmetric(before) && SortedBy(before, a) && SortedBy(before, b) && forall x :: x in a <==> x in b
    ensures a == b
    decreases |a|
  {
    SharedEmpty(a, b);
    if a != [] {
      SameFirst(before, a, b);
      assert a == [a[0]] + a[1..] && b == [b[0]] + b[1..];
      SortedTail(before, a);
      SortedTail(before, b);
      forall x ensures x in a[1..] <==> x in b[1..] {
        if x in a[1..] { assert x in a && before(a[0], x); }
        if x in b[1..] { assert x in b && before(b[0], x); }
      }
      SortedIsUnique(before, a[1..], b[1..]);
    }
  }

  lemma SortedTail<T(!new)>(before: (T, T) -> bool, s: seq<T>)
    requires SortedBy(before, s) && s != []
    ensures SortedBy(before, s[1..])
    ensures forall x | x in s[1..] :: before(s[0], x)
  {
    forall i, j | 0 <= i < j < |s| - 1 ensures before(s[1..][i], s[1..][j]) {
      assert before(s[i + 1], s[j + 1]);
    }
    forall x | x in s[1..] ensures before(s[0], x) {
      var j :| 1 <= j < |s| && s[j] == x;
      assert before(s[0], s[j]);
    }
  }

  lemma SharedEmpty<T>(a: seq<T>, b: seq<T>)
    requires forall x :: x in a <==> x in b
    ensures a == [] <==> b == []
    ensures a != [] ==> a[0] in b && b[0] in a
  {
    if a != [] {
      assert a[0] in a;
      assert a[0] in b;
    }
    if b != [] {
      assert b[0] in b;
      assert b[0] in a;
    }
  }

  lemma SameFirst<T(!new)>(before: (T, T) -> bool, a: seq<T>, b: seq<T>)
    requires Asymmetric(before) && SortedBy(before, a) && SortedBy(before, b)
    requires a != [] && b != [] && a[0] in b && b[0] in a
    ensures a[0] == b[0]
  {
    var k :| 0 <= k < |b| && b[k] == a[0];
    var m :| 0 <= m < |a| && a[m] == b[0];
    assert k > 0 ==> before(b[0], b[k]);
    assert m > 0 ==> before(a[0], a[m]);
  }
}
