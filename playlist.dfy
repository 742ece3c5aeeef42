/**
 * The playlist of wav-player.py: the paths matched by the glob pattern,
 * passed through Python's `sorted`.  Python compares strings by code point,
 * lexicographically, with a proper prefix ordered first; Dafny's `<` on
 * strings means "proper prefix", so the order is defined here.
 */
module Playlist {

  /** `a <= b` on Python strings: code-point lexicographic order. */
  predicate LexLe(a: string, b: string)
    decreases |a|
  {
    |a| == 0 || (|b| > 0 && (a[0] < b[0] || (a[0] == b[0] && LexLe(a[1..], b[1..]))))
  }

  lemma {:induction false} LexLeReflexive(a: string)
    ensures LexLe(a, a)
    decreases |a|
  {
    if |a| > 0 {
      LexLeReflexive(a[1..]);
    }
  }

  lemma {:induction false} LexLeAntisymmetric(a: string, b: string)
    requires LexLe(a, b) && LexLe(b, a)
    ensures a == b
    decreases |a|
  {
    if |a| > 0 {
      LexLeAntisymmetric(a[1..], b[1..]);
      assert a == [a[0]] + a[1..] && b == [b[0]] + b[1..];
    }
  }

  lemma {:induction false} LexLeTransitive(a: string, b: string, c: string)
    requires LexLe(a, b) && LexLe(b, c)
    ensures LexLe(a, c)
    decreases |a|
  {
    if |a| > 0 && a[0] == b[0] && b[0] == c[0] {
      LexLeTransitive(a[1..], b[1..], c[1..]);
    }
  }

  lemma {:induction false} LexLeTotal(a: string, b: string)
    ensures LexLe(a, b) || LexLe(b, a)
    decreases |a|
  {
    if |a| > 0 && |b| > 0 && a[0] == b[0] {
      LexLeTotal(a[1..], b[1..]);
    }
  }

  /**
   * The order compares at the first position where the strings differ, and
   * otherwise puts a prefix first.
   */
  lemma {:induction false} LexLeAtFirstDifference(a: string, b: string, i: nat)
    requires i <= |a| && i <= |b| && a[..i] == b[..i]
    ensures i < |a| && i < |b| && a[i] != b[i] ==> (LexLe(a, b) <==> a[i] < b[i])
    ensures i == |a| ==> LexLe(a, b)
    decreases i
  {
    if i > 0 {
      assert a[0] == a[..i][0] == b[..i][0] == b[0];
      assert a[1..][..i - 1] == a[..i][1..] == b[..i][1..] == b[1..][..i - 1];
      LexLeAtFirstDifference(a[1..], b[1..], i - 1);
    }
  }

  predicate Sorted(xs: seq<string>)
  {
    forall i, j :: 0 <= i < j < |xs| ==> LexLe(xs[i], xs[j])
  }

  /** Inserts `x` into a sorted list, before the first element it is below. */
  function Insert(x: string, xs: seq<string>): (r: seq<string>)
    requires Sorted(xs)
    ensures Sorted(r)
    ensures multiset(r) == multiset(xs) + multiset{x}
  {
    if xs == [] then [x]
    else if LexLe(x, xs[0]) then
      LexLeTransitiveFrom(x, xs);
      [x] + xs
    else
      LexLeTotal(x, xs[0]);
      var rest := Insert(x, xs[1..]);
      assert xs == [xs[0]] + xs[1..];
      InsertBounded(xs[0], x, xs[1..], rest);
      [xs[0]] + rest
  }

  /** Every element of a sorted list is above a lower bound of its head. */
  lemma LexLeTransitiveFrom(x: string, xs: seq<string>)
    requires Sorted(xs) && xs != [] && LexLe(x, xs[0])
    ensures forall j :: 0 <= j < |xs| ==> LexLe(x, xs[j])
  {
    forall j | 0 < j < |xs|
      ensures LexLe(x, xs[j])
    {
      LexLeTransitive(x, xs[0], xs[j]);
    }
  }

  /** A lower bound of `x` and of every element of `xs` is a lower bound of their union. */
  lemma InsertBounded(h: string, x: string, xs: seq<string>, r: seq<string>)
    requires LexLe(h, x)
    requires forall j :: 0 <= j < |xs| ==> LexLe(h, xs[j])
    requires multiset(r) == multiset(xs) + multiset{x}
    ensures forall j :: 0 <= j < |r| ==> LexLe(h, r[j])
  {
    forall j | 0 <= j < |r|
      ensures LexLe(h, r[j])
    {
      assert r[j] in multiset(r);
      if r[j] != x {
        assert r[j] in multiset(xs);
        var k :| 0 <= k < |xs| && xs[k] == r[j];
      }
    }
  }

  /** `sorted(paths)`: the paths in ascending code-point order. */
  function Sort(xs: seq<string>): (r: seq<string>)
    ensures Sorted(r)
    ensures multiset(r) == multiset(xs)
  {
    if xs == [] then []
    else
      assert xs == [xs[0]] + xs[1..];
      Insert(xs[0], Sort(xs[1..]))
  }

  /**
   * A sorted permutation is unique, so `Sort` gives the list Python's
   * `sorted` gives, whatever algorithm computes it.
   */
  lemma {:induction false} SortedPermutationUnique(a: seq<string>, b: seq<string>)
    requires Sorted(a) && Sorted(b)
    requires multiset(a) == multiset(b)
    ensures a == b
    decreases |a|
  {
    if a != [] {
      assert |b| == |multiset(b)| == |multiset(a)| == |a|;
      HeadIsLeast(a, b[0]);
      HeadIsLeast(b, a[0]);
      LexLeAntisymmetric(a[0], b[0]);
      TailsAgree(a, b);
      SortedTail(a);
      SortedTail(b);
      SortedPermutationUnique(a[1..], b[1..]);
      assert a == [a[0]] + a[1..] && b == [b[0]] + b[1..];
    }
  }

  /** The head of a sorted list is below every member of it. */
  lemma HeadIsLeast(a: seq<string>, x: string)
    requires Sorted(a) && x in multiset(a)
    ensures LexLe(a[0], x)
  {
    var j :| 0 <= j < |a| && a[j] == x;
    if j == 0 {
      LexLeReflexive(a[0]);
    }
  }

  /** Lists with the same head and the same members have tails with the same members. */
  lemma TailsAgree(a: seq<string>, b: seq<string>)
    requires a != [] && b != [] && a[0] == b[0] && multiset(a) == multiset(b)
    ensures multiset(a[1..]) == multiset(b[1..])
  {
    assert a == [a[0]] + a[1..] && b == [b[0]] + b[1..];
    assert multiset(a) == multiset{a[0]} + multiset(a[1..]);
    assert multiset(b) == multiset{b[0]} + multiset(b[1..]);
    assert multiset(a[1..]) == multiset(a) - multiset{a[0]} == multiset(b) - multiset{b[0]} == multiset(b[1..]);
  }

  lemma SortedTail(a: seq<string>)
    requires Sorted(a) && a != []
    ensures Sorted(a[1..])
  {
    assert forall i, j :: 0 <= i < j < |a| - 1 ==> a[1..][i] == a[i + 1] && a[1..][j] == a[j + 1];
  }

  /** Sorting orders names by text, not by the number in them. */
  lemma SortIsTextual()
    ensures Sort(["show2.wav", "show10.wav", "show1.wav"]) == ["show1.wav", "show10.wav", "show2.wav"]
  {
    var got := Sort(["show2.wav", "show10.wav", "show1.wav"]);
    var want := ["show1.wav", "show10.wav", "show2.wav"];
    ExampleSorted();
    assert multiset(got) == multiset(want);
    SortedPermutationUnique(got, want);
  }

  lemma ExampleSorted()
    ensures Sorted(["show1.wav", "show10.wav", "show2.wav"])
  {
    LexLeAtFirstDifference("show1.wav", "show10.wav", 5);
    LexLeAtFirstDifference("show10.wav", "show2.wav", 4);
    LexLeTransitive("show1.wav", "show10.wav", "show2.wav");
  }
}
