/** The array built-ins the form's language logic uses: `filter`, `includes` (sequence membership)
    and `sort` with its default comparator, specialised to arrays of strings. */
module JsArray {

  /** The default comparator of `Array.prototype.sort`: `a` sorts no later than `b` in the
      lexicographic order on characters. */
  predicate Precedes(a: string, b: string) {
    if a == [] then true
    else if b == [] then false
    else if a[0] != b[0] then a[0] < b[0]
    else Precedes(a[1..], b[1..])
  }

  lemma {:induction false} PrecedesTotal(a: string, b: string)
    ensures Precedes(a, b) || Precedes(b, a)
  {
    if a != [] && b != [] && a[0] == b[0] {
      PrecedesTotal(a[1..], b[1..]);
    }
  }

  lemma {:induction false} PrecedesAntisymmetric(a: string, b: string)
    requires Precedes(a, b) && Precedes(b, a)
    ensures a == b
  {
    if a != [] && b != [] {
      PrecedesAntisymmetric(a[1..], b[1..]);
      assert a == [a[0]] + a[1..] && b == [b[0]] + b[1..];
    }
  }

  lemma {:induction false} PrecedesTransitive(a: string, b: string, c: string)
    requires Precedes(a, b) && Precedes(b, c)
    ensures Precedes(a, c)
  {
    if a != [] && b != [] && c != [] && a[0] == b[0] == c[0] {
      PrecedesTransitive(a[1..], b[1..], c[1..]);
    }
  }

  /** Every element sorts no later than every element after it. */
  predicate Sorted(s: seq<string>) {
    forall i, j :: 0 <= i < j < |s| ==> Precedes(s[i], s[j])
  }

  /** No element occurs twice. */
  predicate Distinct(s: seq<string>) {
    forall i, j :: 0 <= i < j < |s| ==> s[i] != s[j]
  }

  /** `x` inserted before the first element it precedes. */
  function Insert(x: string, s: seq<string>): seq<string> {
    if s == [] then [x]
    else if Precedes(x, s[0]) then [x] + s
    else [s[0]] + Insert(x, s[1..])
  }

  /** Inserting adds exactly one occurrence of `x`. */
  lemma {:induction false} InsertPermutes(x: string, s: seq<string>)
    ensures multiset(Insert(x, s)) == multiset(s) + multiset{x}
  {
    if s != [] && !Precedes(x, s[0]) {
      InsertPermutes(x, s[1..]);
      assert s == [s[0]] + s[1..];
    }
  }

  /** A sorted sequence stays sorted when preceded by an element that precedes all of it. */
  lemma SortedCons(h: string, t: seq<string>)
    requires Sorted(t)
    requires forall y :: y in t ==> Precedes(h, y)
    ensures Sorted([h] + t)
  {
    var r := [h] + t;
    forall i, j | 0 <= i < j < |r| ensures Precedes(r[i], r[j]) {
      if i > 0 { assert r[i] == t[i - 1] && r[j] == t[j - 1]; }
      else { assert r[j] in t; }
    }
  }

  /** Inserting into a sorted sequence keeps it sorted. */
  lemma {:induction false} InsertSorted(x: string, s: seq<string>)
    requires Sorted(s)
    ensures Sorted(Insert(x, s))
  {
    if s == [] {
    } else if Precedes(x, s[0]) {
      forall y | y in s ensures Precedes(x, y) {
        var j :| 0 <= j < |s| && s[j] == y;
        if j > 0 { PrecedesTransitive(x, s[0], s[j]); }
      }
      SortedCons(x, s);
    } else {
      PrecedesTotal(x, s[0]);
      SortedTail(s);
      InsertSorted(x, s[1..]);
      InsertPermutes(x, s[1..]);
      var tail := Insert(x, s[1..]);
      forall y | y in tail ensures Precedes(s[0], y) {
        assert y in multiset(tail);
        if y != x { assert y in multiset(s[1..]); }
      }
      SortedCons(s[0], tail);
    }
  }

  /** `Array.prototype.sort()` on strings, as an insertion sort. */
  function Sort(s: seq<string>): seq<string> {
    if s == [] then [] else Insert(s[0], Sort(s[1..]))
  }

  /** `Sort` returns a sorted permutation of its input. */
  lemma {:induction false} SortSorted(s: seq<string>)
    ensures Sorted(Sort(s))
    ensures multiset(Sort(s)) == multiset(s)
  {
    if s != [] {
      SortSorted(s[1..]);
      InsertSorted(s[0], Sort(s[1..]));
      InsertPermutes(s[0], Sort(s[1..]));
      assert s == [s[0]] + s[1..];
    }
  }

  /** Two sorted permutations of each other start with the same element. */
  lemma SortedSameFirst(a: seq<string>, b: seq<string>)
    requires Sorted(a) && Sorted(b)
    requires multiset(a) == multiset(b)
    requires a != []
    ensures b != [] && a[0] == b[0]
  {
    assert b != [] by { assert |multiset(b)| == |multiset(a)| == |a|; }
    assert a[0] in multiset(b) && b[0] in multiset(a);
    assert Precedes(b[0], a[0]) by {
      var i :| 0 <= i < |b| && b[i] == a[0];
      PrecedesTotal(b[0], a[0]);
    }
    assert Precedes(a[0], b[0]) by {
      var i :| 0 <= i < |a| && a[i] == b[0];
      PrecedesTotal(a[0], b[0]);
    }
    PrecedesAntisymmetric(a[0], b[0]);
  }

  /** Dropping the first element keeps a sequence sorted and removes one occurrence of it. */
  lemma SortedTail(a: seq<string>)
    requires Sorted(a) && a != []
    ensures Sorted(a[1..])
    ensures multiset(a[1..]) == multiset(a) - multiset{a[0]}
  {
    assert a == [a[0]] + a[1..];
    forall i, j | 0 <= i < j < |a[1..]| ensures Precedes(a[1..][i], a[1..][j]) {
      assert a[1..][i] == a[i + 1] && a[1..][j] == a[j + 1];
    }
  }

  /** A sorted permutation is unique, so `Sort` agrees with any correct sort (in particular with a
      stable one, whatever the engine uses). */
  lemma {:induction false} SortedPermutationUnique(a: seq<string>, b: seq<string>)
    requires Sorted(a) && Sorted(b)
    requires multiset(a) == multiset(b)
    ensures a == b
    decreases |a|
  {
    if a != [] {
      SortedSameFirst(a, b);
      SortedTail(a);
      SortedTail(b);
      SortedPermutationUnique(a[1..], b[1..]);
      assert a == [a[0]] + a[1..] && b == [b[0]] + b[1..];
    } else {
      assert |multiset(b)| == 0;
    }
  }

  /** `s.filter(keep)`: the elements that `keep` accepts, in their original order. */
  function Filter(s: seq<string>, keep: string -> bool): seq<string> {
    if s == [] then []
    else if keep(s[0]) then [s[0]] + Filter(s[1..], keep)
    else Filter(s[1..], keep)
  }

  /** `Filter` keeps exactly the accepted elements, each as often as it occurs. */
  lemma {:induction false} FilterKeeps(s: seq<string>, keep: string -> bool)
    ensures |Filter(s, keep)| <= |s|
    ensures forall x :: x in Filter(s, keep) <==> x in s && keep(x)
    ensures forall x :: multiset(Filter(s, keep))[x] == if keep(x) then multiset(s)[x] else 0
  {
    if s != [] {
      FilterKeeps(s[1..], keep);
      assert s == [s[0]] + s[1..];
    }
  }


  /** Distinctness in terms of multiplicities: every element of a distinct sequence occurs once. */
  lemma {:induction false} DistinctMultiplicity(s: seq<string>)
    ensures Distinct(s) <==> forall x :: multiset(s)[x] <= 1
  {
    if s != [] {
      DistinctMultiplicity(s[1..]);
      assert s == [s[0]] + s[1..];
      if Distinct(s) {
        assert Distinct(s[1..]) by {
          forall i, j | 0 <= i < j < |s[1..]| ensures s[1..][i] != s[1..][j] {
            assert s[1..][i] == s[i + 1] && s[1..][j] == s[j + 1];
          }
        }
        assert s[0] !in s[1..] by {
          forall j | 0 <= j < |s[1..]| ensures s[1..][j] != s[0] { assert s[1..][j] == s[j + 1]; }
        }
      }
      if forall x :: multiset(s)[x] <= 1 {
        assert forall x :: multiset(s[1..])[x] <= multiset(s)[x];
        assert s[0] !in multiset(s[1..]);
        forall i, j | 0 <= i < j < |s| ensures s[i] != s[j] {
          if i == 0 { assert s[j] in s[1..]; }
          else { assert s[i] == s[1..][i - 1] && s[j] == s[1..][j - 1]; }
        }
      }
    }
  }

  /** Two distinct sequences with the same elements are permutations of each other. */
  lemma SameElementsPermutation(a: seq<string>, b: seq<string>)
    requires Distinct(a) && Distinct(b)
    requires forall x :: x in a <==> x in b
    ensures multiset(a) == multiset(b)
  {
    DistinctMultiplicity(a);
    DistinctMultiplicity(b);
    forall x ensures multiset(a)[x] == multiset(b)[x] {
      if x in a { assert x in multiset(a) && x in multiset(b); }
      else { assert x !in multiset(a) && x !in multiset(b); }
    }
  }
}
