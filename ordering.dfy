/**
 * Array.prototype.sort with no comparator, on strings: ascending
 * lexicographic order of characters. Modelled as a sort function with the
 * two facts that make it unique: the result is ordered, and it is a
 * permutation of the input.
 */
module Ordering {

  /** a comes no later than b: a is a prefix of b, or a has the smaller character where they first differ. */
  predicate Le(a: string, b: string)
    decreases |a|
  {
    if a == [] then true
    else if b == [] then false
    else if a[0] != b[0] then a[0] < b[0]
    else Le(a[1..], b[1..])
  }

  lemma {:induction false} LeReflexive(a: string)
    ensures Le(a, a)
    decreases |a|
  {
    if a != [] {
      LeReflexive(a[1..]);
    }
  }

  lemma {:induction false} LeTotal(a: string, b: string)
    ensures Le(a, b) || Le(b, a)
    decreases |a|
  {
    if a != [] && b != [] && a[0] == b[0] {
      LeTotal(a[1..], b[1..]);
    }
  }

  lemma {:induction false} LeAntisymmetric(a: string, b: string)
    requires Le(a, b) && Le(b, a)
    ensures a == b
    decreases |a|
  {
    if a != [] {
      LeAntisymmetric(a[1..], b[1..]);
      assert a == [a[0]] + a[1..] && b == [b[0]] + b[1..];
    }
  }

  lemma {:induction false} LeTransitive(a: string, b: string, c: string)
    requires Le(a, b) && Le(b, c)
    ensures Le(a, c)
    decreases |a|
  {
    if a != [] && a[0] == b[0] && b[0] == c[0] {
      LeTransitive(a[1..], b[1..], c[1..]);
    }
  }

  /** a and b agree on their first k characters and differ at position k. */
  predicate DiffersFirstAt(a: string, b: string, k: nat) {
    k < |a| && k < |b| && a[..k] == b[..k] && a[k] != b[k]
  }

  /** Le is the lexicographic order: a is a prefix of b, or a has the smaller character where the two first differ. */
  lemma {:induction false} LeIsLexicographic(a: string, b: string)
    ensures Le(a, b) <==> a <= b || exists k: nat :: DiffersFirstAt(a, b, k) && a[k] < b[k]
    decreases |a|
  {
    if a != [] && b != [] {
      if a[0] != b[0] {
        assert DiffersFirstAt(a, b, 0);
      } else {
        LeIsLexicographic(a[1..], b[1..]);
        assert a <= b <==> a[1..] <= b[1..] by {
          assert a == [a[0]] + a[1..] && b == [b[0]] + b[1..];
        }
        forall k: nat | DiffersFirstAt(a, b, k) ensures k > 0 && DiffersFirstAt(a[1..], b[1..], k - 1) {
          assert a[1..][..k - 1] == a[..k][1..] && b[1..][..k - 1] == b[..k][1..];
        }
        forall k: nat | DiffersFirstAt(a[1..], b[1..], k) ensures DiffersFirstAt(a, b, k + 1) {
          assert a[..k + 1] == [a[0]] + a[1..][..k] && b[..k + 1] == [b[0]] + b[1..][..k];
        }
      }
    }
  }

  predicate Sorted(xs: seq<string>) {
    forall i, j :: 0 <= i < j < |xs| ==> Le(xs[i], xs[j])
  }

  /** Places x before the first element it does not come after. */
  function Insert(x: string, xs: seq<string>): (r: seq<string>)
    ensures multiset(r) == multiset(xs) + multiset{x}
    ensures Sorted(xs) ==> Sorted(r)
  {
    if xs == [] then [x]
    else if Le(x, xs[0]) then
      assert Sorted(xs) ==> Sorted([x] + xs) by {
        if Sorted(xs) {
          forall y | y in xs ensures Le(x, y) {
            SortedHeadIsLeast(xs, y);
            LeTransitive(x, xs[0], y);
          }
          ConsSorted(x, xs);
        }
      }
      [x] + xs
    else
      var rest := Insert(x, xs[1..]);
      assert xs == [xs[0]] + xs[1..];
      assert Sorted(xs) ==> Sorted([xs[0]] + rest) by {
        if Sorted(xs) {
          LeTotal(x, xs[0]);
          SortedTail(xs);
          forall y | y in rest ensures Le(xs[0], y) {
            assert y in multiset(rest);
            if y != x {
              assert y in multiset(xs[1..]);
              SortedHeadIsLeast(xs, y);
            }
          }
          ConsSorted(xs[0], rest);
        }
      }
      [xs[0]] + rest
  }

  /** Putting an element in front of an ordered sequence whose elements it precedes keeps it ordered. */
  lemma ConsSorted(h: string, rest: seq<string>)
    requires Sorted(rest) && forall y :: y in rest ==> Le(h, y)
    ensures Sorted([h] + rest)
  {
    var r := [h] + rest;
    forall i, j | 0 <= i < j < |r| ensures Le(r[i], r[j]) {
      assert r[j] == rest[j - 1];
      if i > 0 { assert r[i] == rest[i - 1]; }
    }
  }

  /** The sorted permutation of xs. */
  function Sort(xs: seq<string>): (r: seq<string>)
    ensures Sorted(r)
    ensures multiset(r) == multiset(xs)
  {
    if xs == [] then []
    else
      assert xs == [xs[0]] + xs[1..];
      Insert(xs[0], Sort(xs[1..]))
  }

  /** The first element of an ordered sequence comes no later than any of its elements. */
  lemma SortedHeadIsLeast(a: seq<string>, x: string)
    requires Sorted(a) && x in a
    ensures Le(a[0], x)
  {
    var i :| 0 <= i < |a| && a[i] == x;
    if i == 0 { LeReflexive(x); }
  }

  lemma SortedTail(a: seq<string>)
    requires Sorted(a) && a != []
    ensures Sorted(a[1..])
    ensures multiset(a[1..]) == multiset(a) - multiset{a[0]}
  {
    assert a == [a[0]] + a[1..];
  }

  /** Two ordered arrangements of the same elements are the same sequence. */
  lemma {:induction false} SortedUnique(a: seq<string>, b: seq<string>)
    requires Sorted(a) && Sorted(b)
    requires multiset(a) == multiset(b)
    ensures a == b
    decreases |a|
  {
    assert |a| == |multiset(a)| == |multiset(b)| == |b|;
    if a != [] {
      assert a[0] in multiset(b) && b[0] in multiset(a);
      SortedHeadIsLeast(a, b[0]);
      SortedHeadIsLeast(b, a[0]);
      LeAntisymmetric(a[0], b[0]);
      SortedTail(a);
      SortedTail(b);
      SortedUnique(a[1..], b[1..]);
      assert a == [a[0]] + a[1..] && b == [b[0]] + b[1..];
    }
  }

  /** Sorting ignores the order of its input. */
  lemma SortIgnoresOrder(a: seq<string>, b: seq<string>)
    requires multiset(a) == multiset(b)
    ensures Sort(a) == Sort(b)
  {
    SortedUnique(Sort(a), Sort(b));
  }

  /** Sorting a sorted sequence changes nothing. */
  lemma SortIdempotent(a: seq<string>)
    ensures Sort(Sort(a)) == Sort(a)
  {
    SortedUnique(Sort(Sort(a)), Sort(a));
  }

  /** Every element of the sorted sequence comes from the input. */
  lemma SortKeepsElements(a: seq<string>, k: nat)
    requires k < |Sort(a)|
    ensures Sort(a)[k] in a
  {
    assert Sort(a)[k] in multiset(Sort(a));
  }

}
