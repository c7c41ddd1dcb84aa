/** Facts about distinct sequences and finite sets. */
module Collections {
  predicate Distinct<T(==)>(s: seq<T>) {
    forall i, j :: 0 <= i < j < |s| ==> s[i] != s[j]
  }

  /** The first n natural numbers. */
  function Indices(n: nat): (r: set<nat>)
    ensures forall i: nat :: i in r <==> i < n
  {
    if n == 0 then {} else Indices(n - 1) + {n - 1}
  }

  lemma StrictSubsetSmaller<T>(a: set<T>, b: set<T>)
    requires a < b
    ensures |a| < |b|
  {
    SubsetNotLarger(a, b);
    var x :| x in b && x !in a;
    SubsetNotLarger(a, b - {x});
  }

  lemma {:induction false} SubsetNotLarger<T>(a: set<T>, b: set<T>)
    requires a <= b
    ensures |a| <= |b|
  {
    if x :| x in a { SubsetNotLarger(a - {x}, b - {x}); }
  }

  lemma DistinctInside<T>(a: seq<T>, b: seq<T>)
    requires Distinct(a) && forall x | x in a :: x in b
    ensures |a| <= |b|
  {
    var sa, sb := set x | x in a, set x | x in b;
    DistinctCount(a);
    SubsetNotLarger(sa, sb);
    CountAtMost(b);
  }

  lemma {:induction false} DistinctCount<T>(a: seq<T>)
    requires Distinct(a)
    ensures |set x | x in a| == |a|
  {
    if a != [] {
      var k := |a| - 1;
      DistinctCount(a[..k]);
      assert a == a[..k] + [a[k]];
      assert (set x | x in a) == (set x | x in a[..k]) + {a[k]};
    }
  }

  lemma {:induction false} CountAtMost<T>(b: seq<T>)
    ensures |set x | x in b| <= |b|
  {
    if b != [] {
      var k := |b| - 1;
      CountAtMost(b[..k]);
      assert b == b[..k] + [b[k]];
      assert (set x | x in b) == (set x | x in b[..k]) + {b[k]};
    }
  }

  lemma {:induction false} DistinctMultiset<T>(a: seq<T>)
    requires Distinct(a)
    ensures forall x :: multiset(a)[x] == if x in a then 1 else 0
  {
    if a != [] {
      var k := |a| - 1;
      DistinctMultiset(a[..k]);
      assert a == a[..k] + [a[k]];
    }
  }
}
