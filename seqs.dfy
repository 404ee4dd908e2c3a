/** Generic sequence operations the SQL queries and array methods of the
    storefront are built from: filtering (WHERE / Array.filter), counting and
    summing (COUNT / SUM), and a stable descending sort (ORDER BY ... DESC, ties
    kept in table order). */
module Seqs {

  lemma AppendAssoc<T>(a: seq<T>, b: seq<T>, c: seq<T>)
    ensures a + b + c == a + (b + c)
  {
  }

  /** The elements of s that satisfy p, in their original order. */
  function Filter<T>(s: seq<T>, p: T -> bool): (r: seq<T>)
    ensures |r| <= |s|
    ensures forall i :: 0 <= i < |r| ==> r[i] in s && p(r[i])
    ensures forall i :: 0 <= i < |s| && p(s[i]) ==> s[i] in r
  {
    if s == [] then [] else if p(s[0]) then [s[0]] + Filter(s[1..], p) else Filter(s[1..], p)
  }

  lemma {:induction false} FilterAppend<T>(a: seq<T>, b: seq<T>, p: T -> bool)
    ensures Filter(a + b, p) == Filter(a, p) + Filter(b, p)
  {
    if a != [] {
      assert (a + b)[1..] == a[1..] + b && (a + b)[0] == a[0];
      FilterAppend(a[1..], b, p);
    } else {
      assert a + b == b;
    }
  }

  /** Filtering with a test no element passes gives the empty sequence. */
  lemma {:induction false} FilterNone<T>(s: seq<T>, p: T -> bool)
    requires forall i :: 0 <= i < |s| ==> !p(s[i])
    ensures Filter(s, p) == []
  {
    if s != [] {
      FilterNone(s[1..], p);
    }
  }

  /** Filtering with a test every element passes gives the sequence itself. */
  lemma {:induction false} FilterAll<T>(s: seq<T>, p: T -> bool)
    requires forall i :: 0 <= i < |s| ==> p(s[i])
    ensures Filter(s, p) == s
  {
    if s != [] {
      FilterAll(s[1..], p);
    }
  }

  /** A sequence filtered twice keeps only elements that pass both tests. */
  lemma FilterTwiceMembers<T>(s: seq<T>, p: T -> bool, q: T -> bool, kept: seq<T>, group: seq<T>)
    requires kept == Filter(s, p) && group == Filter(kept, q)
    ensures forall j :: 0 <= j < |group| ==> p(group[j]) && q(group[j])
  {
    forall j | 0 <= j < |group|
      ensures p(group[j])
    {
      var i :| 0 <= i < |kept| && kept[i] == group[j];
    }
  }

  /** An element that passes the test survives the filter. */
  lemma FilterNonEmpty<T>(s: seq<T>, p: T -> bool, i: nat)
    requires i < |s| && p(s[i])
    ensures Filter(s, p) != []
  {
    assert s[i] in Filter(s, p);
  }

  /** MapFilterMembers over the two facts it needs, with Filter and Map kept
      out of the context. */
  lemma ImageMembers<T, U>(s: seq<T>, p: T -> bool, f: T -> U, kept: seq<T>, m: seq<U>)
    requires |m| == |kept|
    requires forall k :: 0 <= k < |kept| ==> m[k] == f(kept[k])
    requires forall k :: 0 <= k < |kept| ==> kept[k] in s && p(kept[k])
    requires forall i :: 0 <= i < |s| && p(s[i]) ==> s[i] in kept
    ensures forall v :: v in m <==> exists i :: 0 <= i < |s| && p(s[i]) && v == f(s[i])
  {
    forall v | v in m
      ensures exists i :: 0 <= i < |s| && p(s[i]) && v == f(s[i])
    {
      var k :| 0 <= k < |m| && m[k] == v;
      var i :| 0 <= i < |s| && s[i] == kept[k];
      assert p(s[i]) && v == f(s[i]);
    }
    forall i | 0 <= i < |s| && p(s[i])
      ensures f(s[i]) in m
    {
      var k :| 0 <= k < |kept| && kept[k] == s[i];
      assert m[k] == f(s[i]);
    }
  }

  /** The images of the elements that pass a filter are exactly the images of
      the elements of s that satisfy p. */
  lemma MapFilterMembers<T, U>(s: seq<T>, p: T -> bool, f: T -> U, kept: seq<T>, m: seq<U>)
    requires kept == Filter(s, p) && m == Map(kept, f)
    ensures forall v :: v in m <==> exists i :: 0 <= i < |s| && p(s[i]) && v == f(s[i])
  {
    ImageMembers(s, p, f, kept, m);
  }

  /** How many elements satisfy p: COUNT(*) ... WHERE p. */
  function Count<T>(s: seq<T>, p: T -> bool): (n: nat)
    ensures n <= |s|
  {
    if s == [] then 0 else (if p(s[0]) then 1 else 0) + Count(s[1..], p)
  }

  lemma {:induction false} CountIsFilterLength<T>(s: seq<T>, p: T -> bool)
    ensures Count(s, p) == |Filter(s, p)|
  {
    if s != [] {
      CountIsFilterLength(s[1..], p);
    }
  }

  /** SUM(f(x)) over s; 0 for the empty sequence. */
  function Sum<T>(s: seq<T>, f: T -> int): int
  {
    if s == [] then 0 else f(s[0]) + Sum(s[1..], f)
  }

  lemma {:induction false} SumAppend<T>(a: seq<T>, b: seq<T>, f: T -> int)
    ensures Sum(a + b, f) == Sum(a, f) + Sum(b, f)
  {
    if a != [] {
      assert (a + b)[1..] == a[1..] + b && (a + b)[0] == a[0];
      SumAppend(a[1..], b, f);
    } else {
      assert a + b == b;
    }
  }

  /** The elements carry non-increasing keys. */
  predicate SortedDesc<T>(s: seq<T>, key: T -> int)
  {
    forall i, j :: 0 <= i < j < |s| ==> key(s[i]) >= key(s[j])
  }

  /** Puts x in front of the first element whose key is not above its own. */
  function InsertDesc<T>(x: T, s: seq<T>, key: T -> int): (r: seq<T>)
    requires SortedDesc(s, key)
    ensures multiset(r) == multiset(s) + multiset{x}
    ensures SortedDesc(r, key)
    ensures r[0] == x || (s != [] && r[0] == s[0])
  {
    if s == [] || key(x) >= key(s[0]) then
      ConsSorted(x, s, key);
      [x] + s
    else
      SortedTail(s, key);
      var tail := InsertDesc(x, s[1..], key);
      assert tail[0] == x || tail[0] == s[1];
      ConsSorted(s[0], tail, key);
      assert s == [s[0]] + s[1..];
      [s[0]] + tail
  }

  /** An element with a key no smaller than the first of a sorted sequence can
      go in front of it. */
  lemma ConsSorted<T>(h: T, t: seq<T>, key: T -> int)
    requires SortedDesc(t, key) && (t == [] || key(h) >= key(t[0]))
    ensures SortedDesc([h] + t, key)
  {
    var r := [h] + t;
    forall i, j | 0 <= i < j < |r|
      ensures key(r[i]) >= key(r[j])
    {
      assert r[j] == t[j - 1];
      if i > 0 {
        assert r[i] == t[i - 1];
      }
    }
  }

  lemma SortedTail<T>(s: seq<T>, key: T -> int)
    requires SortedDesc(s, key) && s != []
    ensures SortedDesc(s[1..], key)
  {
    forall i, j | 0 <= i < j < |s| - 1
      ensures key(s[1..][i]) >= key(s[1..][j])
    {
      assert s[1..][i] == s[i + 1] && s[1..][j] == s[j + 1];
    }
  }

  /** ORDER BY key DESC: a sorted permutation in which equal keys keep the
      order they have in s. */
  function SortDesc<T>(s: seq<T>, key: T -> int): (r: seq<T>)
    ensures multiset(r) == multiset(s)
    ensures |r| == |s|
    ensures SortedDesc(r, key)
  {
    if s == [] then []
    else
      assert s == [s[0]] + s[1..];
      InsertDesc(s[0], SortDesc(s[1..], key), key)
  }

  /** The elements of the sorted sequence are those of s. */
  lemma SortDescMembers<T>(s: seq<T>, key: T -> int)
    ensures forall x :: x in SortDesc(s, key) <==> x in s
  {
    var r := SortDesc(s, key);
    forall x
      ensures x in r <==> x in s
    {
      assert x in r <==> x in multiset(r);
      assert x in s <==> x in multiset(s);
    }
  }

  /** Where an element of the sorted sequence sits in s. */
  lemma SortDescSource<T>(s: seq<T>, key: T -> int, x: T) returns (i: nat)
    requires x in SortDesc(s, key)
    ensures i < |s| && s[i] == x
  {
    SortDescMembers(s, key);
    i :| 0 <= i < |s| && s[i] == x;
  }

  /** The first element of a non-empty sorted sequence has the largest key. */
  lemma SortDescHeadIsMax<T>(s: seq<T>, key: T -> int)
    requires s != []
    ensures SortDesc(s, key)[0] in s
    ensures forall x :: x in s ==> key(SortDesc(s, key)[0]) >= key(x)
  {
    var r := SortDesc(s, key);
    SortDescMembers(s, key);
    assert r[0] in r;
    forall x | x in s
      ensures key(r[0]) >= key(x)
    {
      assert x in r;
      var j :| 0 <= j < |r| && r[j] == x;
      if j > 0 {
        assert key(r[0]) >= key(r[j]);
      }
    }
  }

  /** The first of the filtered elements sorted by descending key is one of them
      and has the largest key among them. */
  lemma FilterSortHead<T>(s: seq<T>, p: T -> bool, key: T -> int)
    requires Filter(s, p) != []
    ensures var h := SortDesc(Filter(s, p), key)[0];
      && h in s && p(h)
      && forall i :: 0 <= i < |s| && p(s[i]) ==> key(s[i]) <= key(h)
  {
    var kept := Filter(s, p);
    SortDescHeadIsMax(kept, key);
    var h := SortDesc(kept, key)[0];
    forall i | 0 <= i < |s| && p(s[i])
      ensures key(s[i]) <= key(h)
    {
      assert s[i] in kept;
    }
  }

  /** A loop that rewrites s element by element has replaced the first i
      elements of `before` by those of `after` and left the rest alone. */
  ghost predicate DoneUpTo<T>(s: seq<T>, after: seq<T>, before: seq<T>, i: nat)
  {
    |s| == |after| == |before| && i <= |s|
    && forall k :: 0 <= k < |s| ==> s[k] == (if k < i then after[k] else before[k])
  }

  lemma DoneOneMore<T>(s: seq<T>, after: seq<T>, before: seq<T>, i: nat, x: T)
    requires DoneUpTo(s, after, before, i) && i < |s| && x == after[i]
    ensures DoneUpTo(s[i := x], after, before, i + 1)
  {
  }

  lemma DoneAll<T>(s: seq<T>, after: seq<T>, before: seq<T>)
    requires DoneUpTo(s, after, before, |s|)
    ensures s == after
  {
  }

  /** The first n elements (SQL's LIMIT n). */
  function Take<T>(s: seq<T>, n: nat): (r: seq<T>)
    ensures |r| == if |s| < n then |s| else n
    ensures forall i :: 0 <= i < |r| ==> r[i] == s[i]
  {
    if |s| <= n then s else s[..n]
  }

  /** `s.map(f)`. */
  function Map<A, B>(s: seq<A>, f: A -> B): (r: seq<B>)
    ensures |r| == |s|
    ensures forall i :: 0 <= i < |s| ==> r[i] == f(s[i])
  {
    if s == [] then [] else [f(s[0])] + Map(s[1..], f)
  }

  /** The distinct elements of s, each at its first occurrence (SQL's DISTINCT /
      GROUP BY in order of first appearance). */
  function Distinct<T(==)>(s: seq<T>): (r: seq<T>)
    ensures forall i :: 0 <= i < |r| ==> r[i] in s
    ensures forall i :: 0 <= i < |s| ==> s[i] in r
    decreases |s|
  {
    if s == [] then []
    else
      var init := s[..|s| - 1];
      var t := Distinct(init);
      assert forall i :: 0 <= i < |init| ==> init[i] == s[i];
      if s[|s| - 1] in t then t else t + [s[|s| - 1]]
  }

  /** No element occurs twice. */
  predicate NoDuplicates<T(==)>(s: seq<T>)
  {
    forall i, j :: 0 <= i < j < |s| ==> s[i] != s[j]
  }

  /** Distinct keeps each value once. */
  lemma {:induction false} DistinctNoDuplicates<T>(s: seq<T>)
    ensures NoDuplicates(Distinct(s))
    decreases |s|
  {
    if s != [] {
      var init := s[..|s| - 1];
      DistinctNoDuplicates(init);
    }
  }

  /** Sorting keeps a sequence free of duplicates. */
  lemma SortDescNoDuplicates<T>(s: seq<T>, key: T -> int)
    requires NoDuplicates(s)
    ensures NoDuplicates(SortDesc(s, key))
  {
    var r := SortDesc(s, key);
    forall i, j | 0 <= i < j < |r|
      ensures r[i] != r[j]
    {
      if r[i] == r[j] {
        TwoOccurrences(r, i, j);
        MultiplicityOne(s, r[i]);
      }
    }
  }

  lemma TwoOccurrences<T>(r: seq<T>, i: nat, j: nat)
    requires i < j < |r| && r[i] == r[j]
    ensures multiset(r)[r[i]] >= 2
  {
    var x := r[i];
    assert r == r[..j] + r[j..];
    assert r[..j][i] == x;
    assert r[j..][0] == x;
    assert multiset(r[..j])[x] >= 1;
    assert multiset(r[j..])[x] >= 1;
  }

  lemma {:induction false} MultiplicityOne<T>(s: seq<T>, x: T)
    requires NoDuplicates(s)
    ensures multiset(s)[x] <= 1
  {
    if s != [] {
      assert NoDuplicates(s[1..]) by {
        forall i, j | 0 <= i < j < |s[1..]|
          ensures s[1..][i] != s[1..][j]
        {
          assert s[1..][i] == s[i + 1] && s[1..][j] == s[j + 1];
        }
      }
      MultiplicityOne(s[1..], x);
      assert s == [s[0]] + s[1..];
      if s[0] == x {
        assert x !in s[1..] by {
          forall k | 0 <= k < |s[1..]|
            ensures s[1..][k] != x
          {
            assert s[1..][k] == s[k + 1];
          }
        }
      }
    }
  }

  /** Sorting keeps the values of f pairwise distinct. */
  lemma SortDescDistinctBy<T, U>(s: seq<T>, key: T -> int, f: T -> U)
    requires forall i, j :: 0 <= i < j < |s| ==> f(s[i]) != f(s[j])
    ensures var r := SortDesc(s, key);
      forall i, j :: 0 <= i < j < |r| ==> f(r[i]) != f(r[j])
  {
    var r := SortDesc(s, key);
    assert NoDuplicates(s);
    SortDescNoDuplicates(s, key);
    forall i, j | 0 <= i < j < |r|
      ensures f(r[i]) != f(r[j])
    {
      assert r[i] in multiset(r) && r[j] in multiset(r);
      assert r[i] in s && r[j] in s;
      var a :| 0 <= a < |s| && s[a] == r[i];
      var b :| 0 <= b < |s| && s[b] == r[j];
      assert a != b;
    }
  }

  /** The largest value of f over a non-empty s; `dflt` for the empty one. */
  function MaxOf<T>(s: seq<T>, f: T -> int, dflt: int): (m: int)
    ensures s != [] ==> exists i :: 0 <= i < |s| && m == f(s[i])
    ensures forall i :: 0 <= i < |s| ==> f(s[i]) <= m
    ensures s == [] ==> m == dflt
  {
    if s == [] then dflt
    else if |s| == 1 then f(s[0])
    else
      var m := MaxOf(s[1..], f, dflt);
      assert forall i :: 1 <= i < |s| ==> s[i] == s[1..][i - 1];
      if f(s[0]) >= m then f(s[0]) else m
  }

  /** SUM(CASE WHEN p THEN 1 ELSE 0 END) counts the elements that satisfy p. */
  lemma {:induction false} SumIndicatorIsCount<T>(s: seq<T>, p: T -> bool, f: T -> int)
    requires forall x :: f(x) == if p(x) then 1 else 0
    ensures Sum(s, f) == Count(s, p)
  {
    if s != [] {
      SumIndicatorIsCount(s[1..], p, f);
    }
  }

  /** The set of the elements of s. */
  function Elements<T(==)>(s: seq<T>): set<T>
  {
    set x | x in s
  }

  /** A sequence has at least as many elements as its set, and exactly as many
      when no element repeats. */
  lemma {:induction false} ElementsCard<T>(s: seq<T>)
    ensures |Elements(s)| <= |s|
    ensures NoDuplicates(s) ==> |Elements(s)| == |s|
  {
    if s != [] {
      var t := s[1..];
      ElementsCard(t);
      assert Elements(s) == {s[0]} + Elements(t);
      if NoDuplicates(s) {
        assert NoDuplicates(t) by {
          forall i, j | 0 <= i < j < |t|
            ensures t[i] != t[j]
          {
            assert t[i] == s[i + 1] && t[j] == s[j + 1];
          }
        }
        forall k | 0 <= k < |t|
          ensures t[k] != s[0]
        {
          assert t[k] == s[k + 1];
        }
      }
    }
  }

  /** COUNT(DISTINCT x): the number of distinct values. */
  lemma DistinctMembers<T>(s: seq<T>, d: seq<T>)
    requires d == Distinct(s)
    ensures forall x :: x in d <==> x in s
  {
    forall x | x in s
      ensures x in d
    {
      var i :| 0 <= i < |s| && s[i] == x;
    }
  }

  /** The distinct images of the elements that pass a filter. */
  lemma DistinctImageMembers<T, U>(s: seq<T>, p: T -> bool, f: T -> U, kept: seq<T>, m: seq<U>, d: seq<U>)
    requires kept == Filter(s, p) && m == Map(kept, f) && d == Distinct(m)
    ensures forall v :: v in d <==> exists i :: 0 <= i < |s| && p(s[i]) && v == f(s[i])
  {
    MapFilterMembers(s, p, f, kept, m);
    DistinctMembers(m, d);
  }

  lemma DistinctCard<T>(s: seq<T>)
    ensures |Distinct(s)| == |Elements(s)|
  {
    var r := Distinct(s);
    assert Elements(r) == Elements(s);
    DistinctNoDuplicates(s);
    ElementsCard(r);
  }

  lemma {:induction false} SubsetCard<T>(a: set<T>, b: set<T>)
    requires a <= b
    ensures |a| <= |b|
    decreases |a|
  {
    if a != {} {
      var x :| x in a;
      SubsetCard(a - {x}, b - {x});
    }
  }

  /** Fewer distinct values in a sequence whose values all occur in another. */
  lemma DistinctSubset<T>(s: seq<T>, t: seq<T>)
    requires forall i :: 0 <= i < |s| ==> s[i] in t
    ensures |Distinct(s)| <= |Distinct(t)|
  {
    DistinctCard(s);
    DistinctCard(t);
    forall x | x in Elements(s)
      ensures x in Elements(t)
    {
      var i :| 0 <= i < |s| && s[i] == x;
    }
    SubsetCard(Elements(s), Elements(t));
  }
}
