/**
  Python's `sorted` on a list of strings: ascending in the lexicographic order
  of code points, the order Python's `<` gives strings.
 */
module Sorting {

  /** `a <= b` on Python strings: compare code point by code point; a proper prefix comes first. */
  predicate Below(a: string, b: string)
    decreases |a|
  {
    a == [] || (b != [] && (a[0] < b[0] || (a[0] == b[0] && Below(a[1..], b[1..]))))
  }

  lemma {:induction false} BelowReflexive(a: string)
    ensures Below(a, a)
    decreases |a|
  {
    if a != [] {
      BelowReflexive(a[1..]);
    }
  }

  lemma {:induction false} BelowTotal(a: string, b: string)
    ensures Below(a, b) || Below(b, a)
    decreases |a|
  {
    if a != [] && b != [] && a[0] == b[0] {
      BelowTotal(a[1..], b[1..]);
    }
  }

  lemma {:induction false} BelowAntisymmetric(a: string, b: string)
    requires Below(a, b) && Below(b, a)
    ensures a == b
    decreases |a|
  {
    if a != [] {
      BelowAntisymmetric(a[1..], b[1..]);
      assert a == [a[0]] + a[1..] && b == [b[0]] + b[1..];
    }
  }

  lemma {:induction false} BelowTransitive(a: string, b: string, c: string)
    requires Below(a, b) && Below(b, c)
    ensures Below(a, c)
    decreases |a|
  {
    if a != [] && a[0] == b[0] && b[0] == c[0] {
      BelowTransitive(a[1..], b[1..], c[1..]);
    }
  }

  predicate IsSorted(s: seq<string>) {
    forall i, j :: 0 <= i < j < |s| ==> Below(s[i], s[j])
  }

  /** Insert x into a sorted list, after every element that is strictly below it. */
  function Insert(x: string, s: seq<string>): (r: seq<string>)
    requires IsSorted(s)
    ensures IsSorted(r)
    ensures multiset(r) == multiset(s) + multiset{x}
  {
    if s == [] then [x]
    else if Below(x, s[0]) then
      InsertFront(x, s);
      [x] + s
    else
      var t := Insert(x, s[1..]);
      BelowTotal(x, s[0]);
      assert s == [s[0]] + s[1..];
      InsertBehind(s[0], t, x, s[1..]);
      [s[0]] + t
  }

  lemma InsertFront(x: string, s: seq<string>)
    requires IsSorted(s) && s != [] && Below(x, s[0])
    ensures IsSorted([x] + s)
  {
    forall i, j | 0 <= i < j < |[x] + s|
      ensures Below(([x] + s)[i], ([x] + s)[j])
    {
      if i == 0 && j > 1 {
        BelowTransitive(x, s[0], s[j - 1]);
      }
    }
  }

  lemma InsertBehind(y: string, t: seq<string>, x: string, rest: seq<string>)
    requires IsSorted(t) && IsSorted([y] + rest) && Below(y, x)
    requires multiset(t) == multiset(rest) + multiset{x}
    ensures IsSorted([y] + t)
  {
    forall i, j | 0 <= i < j < |[y] + t|
      ensures Below(([y] + t)[i], ([y] + t)[j])
    {
      if i == 0 {
        var z := t[j - 1];
        assert ([y] + t)[j] == z;
        assert z in multiset(t);
        if z != x {
          assert z in multiset(rest);
          var k :| 0 <= k < |rest| && rest[k] == z;
          assert ([y] + rest)[0] == y && ([y] + rest)[k + 1] == z;
        }
      } else {
        assert ([y] + t)[i] == t[i - 1] && ([y] + t)[j] == t[j - 1];
      }
    }
  }

  /** `sorted(xs)` on strings: the same strings, rearranged into ascending order. */
  function Sort(s: seq<string>): (r: seq<string>)
    ensures IsSorted(r)
    ensures multiset(r) == multiset(s)
  {
    if s == [] then []
    else
      var n := |s| - 1;
      assert s == s[..n] + [s[n]];
      Insert(s[n], Sort(s[..n]))
  }

  /** Two sorted rearrangements of the same strings start with the same string. */
  lemma SameFirst(a: seq<string>, b: seq<string>)
    requires IsSorted(a) && IsSorted(b) && a != [] && b != []
    requires multiset(a) == multiset(b)
    ensures a[0] == b[0]
  {
    assert a[0] in multiset(b) && b[0] in multiset(a);
    var k :| 0 <= k < |b| && b[k] == a[0];
    var m :| 0 <= m < |a| && a[m] == b[0];
    BelowReflexive(a[0]);
    BelowReflexive(b[0]);
    BelowAntisymmetric(a[0], b[0]);
  }

  /**
    Ascending order determines the list: two sorted rearrangements of the same
    strings are equal, so `Sort` gives exactly what `sorted` gives.
   */
  lemma {:induction false} SortedUnique(a: seq<string>, b: seq<string>)
    requires IsSorted(a) && IsSorted(b)
    requires multiset(a) == multiset(b)
    ensures a == b
    decreases |a|
  {
    assert |a| == |multiset(a)| == |multiset(b)| == |b|;
    if a != [] {
      SameFirst(a, b);
      assert a == [a[0]] + a[1..] && b == [b[0]] + b[1..];
      assert multiset(a[1..]) == multiset(a) - multiset{a[0]};
      assert multiset(b[1..]) == multiset(b) - multiset{b[0]};
      SortedUnique(a[1..], b[1..]);
    }
  }
}
