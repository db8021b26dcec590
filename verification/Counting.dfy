/** Finite counting facts shared by the cache, the allocators and the drivers. */
module Counting {

  ghost predicate Distinct<T>(s: seq<T>)
  {
    forall j, k :: 0 <= j < k < |s| ==> s[j] != s[k]
  }

  ghost function Elems<T>(s: seq<T>): (r: set<T>)
  {
    set x | x in s
  }

  lemma ElemsAppend<T>(s: seq<T>, x: T)
    ensures Elems(s + [x]) == Elems(s) + {x}
  {
    forall y | y in Elems(s) + {x} ensures y in s + [x] {
      assert y in s || y == (s + [x])[|s|];
    }
  }

  lemma ElemsPush<T>(x: T, s: seq<T>)
    ensures Elems([x] + s) == Elems(s) + {x}
  {
    forall y ensures y in [x] + s <==> y in s || y == x { assert ([x] + s)[1..] == s; }
  }

  /** {0, ..., n - 1} */
  ghost function Below(n: nat): (r: set<nat>)
    ensures |r| == n
    ensures forall i: nat :: i in r <==> i < n
  {
    if n == 0 then {} else Below(n - 1) + {n - 1}
  }

  lemma DistinctLast<T>(s: seq<T>)
    requires s != []
    ensures var n := |s| - 1; Distinct(s) <==> Distinct(s[..n]) && s[n] !in s[..n]
  {
    var n := |s| - 1;
    if s[n] in s[..n] {
      var k :| 0 <= k < n && s[k] == s[n];
    }
  }

  lemma {:induction false} DistinctSize<T>(s: seq<T>)
    ensures |Elems(s)| <= |s|
    ensures Distinct(s) <==> |Elems(s)| == |s|
  {
    if s != [] {
      var n := |s| - 1;
      DistinctSize(s[..n]);
      DistinctLast(s);
      ElemsAppend(s[..n], s[n]);
      assert s == s[..n] + [s[n]];
      hide Distinct;
    }
  }

  lemma {:induction false} SubsetSize<T>(a: set<T>, b: set<T>)
    requires a <= b
    ensures |a| <= |b|
    ensures |a| == |b| ==> a == b
  {
    if a != {} {
      var x :| x in a;
      SubsetSize(a - {x}, b - {x});
    } else if b != {} {
      var x :| x in b;
      assert |b| > 0;
    }
  }

  lemma {:induction false} ValuesSize<K, V>(m: map<K, V>)
    ensures |m.Values| <= |m|
  {
    if m != map[] {
      var k :| k in m;
      var r := m - {k};
      ValuesSize(r);
      forall v | v in m.Values ensures v in r.Values + {m[k]} {
        var j :| j in m && m[j] == v;
        if j != k { assert j in r && r[j] == v; }
      }
      SubsetSize(m.Values, r.Values + {m[k]});
      assert m.Keys == r.Keys + {k};
    }
  }

  /** A duplicate-free list of n numbers below n contains all of them. */
  lemma PermutationCovers(s: seq<nat>, n: nat)
    requires |s| == n && Distinct(s) && forall k :: 0 <= k < n ==> s[k] < n
    ensures forall i: nat :: i < n ==> i in s
  {
    DistinctSize(s);
    SubsetSize(Elems(s), Below(n));
    forall i: nat | i < n ensures i in s {
      assert i in Below(n);
    }
  }
}
