/**
 * `Array.prototype.sort` with a comparator, modelled as a stable insertion
 * sort by a total preorder `le` ("a may come before b").
 */
module Sorting {

  ghost predicate Total<T(!new)>(le: (T, T) -> bool)
  {
    forall a, b :: le(a, b) || le(b, a)
  }

  ghost predicate Transitive<T(!new)>(le: (T, T) -> bool)
  {
    forall a, b, c :: le(a, b) && le(b, c) ==> le(a, c)
  }

  ghost predicate TotalPreorder<T(!new)>(le: (T, T) -> bool)
  {
    Total(le) && Transitive(le)
  }

  predicate Sorted<T>(s: seq<T>, le: (T, T) -> bool)
  {
    forall i, j :: 0 <= i < j < |s| ==> le(s[i], s[j])
  }

  /** Insert `x` after every element that may precede it, which keeps equal elements in arrival order. */
  function Insert<T>(x: T, s: seq<T>, le: (T, T) -> bool): (r: seq<T>)
    ensures multiset(r) == multiset(s) + multiset{x}
    ensures |r| == |s| + 1
  {
    if s == [] then [x]
    else if le(s[0], x) then
      assert s == [s[0]] + s[1..];
      [s[0]] + Insert(x, s[1..], le)
    else [x] + s
  }

  lemma {:induction false} InsertSorted<T(!new)>(x: T, s: seq<T>, le: (T, T) -> bool)
    requires TotalPreorder(le) && Sorted(s, le)
    ensures Sorted(Insert(x, s, le), le)
  {
    if s != [] && le(s[0], x) {
      InsertSorted(x, s[1..], le);
      var r := Insert(x, s, le);
      var t := Insert(x, s[1..], le);
      assert r == [s[0]] + t;
      forall k | 0 <= k < |t| ensures le(s[0], t[k]) {
        assert t[k] in multiset(t);
        assert t[k] in multiset(s[1..]) + multiset{x};
        if t[k] in multiset(s[1..]) {
          var m :| 0 <= m < |s[1..]| && s[1..][m] == t[k];
          assert s[m + 1] == t[k];
        }
      }
    } else if s != [] {
      assert forall k :: 0 <= k < |s| ==> le(x, s[k]) by {
        forall k | 0 <= k < |s| ensures le(x, s[k]) {
          if k > 0 { assert le(s[0], s[k]); }
        }
      }
    }
  }

  /** Sort by `le`: insertion sort of ever longer prefixes. */
  function SortBy<T(!new)>(s: seq<T>, le: (T, T) -> bool): (r: seq<T>)
    requires TotalPreorder(le)
    ensures Sorted(r, le)
    ensures multiset(r) == multiset(s)
    ensures |r| == |s|
  {
    if s == [] then []
    else
      var init := SortBy(s[..|s| - 1], le);
      InsertSorted(s[|s| - 1], init, le);
      assert s == s[..|s| - 1] + [s[|s| - 1]];
      Insert(s[|s| - 1], init, le)
  }

  /** The elements of `s` that `le` ranks level with `x` (each may precede the other), in order. */
  function Ties<T>(s: seq<T>, x: T, le: (T, T) -> bool): (r: seq<T>)
    ensures |r| <= |s|
  {
    if s == [] then []
    else (if le(x, s[0]) && le(s[0], x) then [s[0]] else []) + Ties(s[1..], x, le)
  }

  lemma {:induction false} TiesConcat<T>(a: seq<T>, b: seq<T>, x: T, le: (T, T) -> bool)
    ensures Ties(a + b, x, le) == Ties(a, x, le) + Ties(b, x, le)
    decreases |a|
  {
    if a == [] {
      assert a + b == b;
    } else {
      assert (a + b)[0] == a[0];
      assert (a + b)[1..] == a[1..] + b;
      TiesConcat(a[1..], b, x, le);
    }
  }

  /** Inserting `y` into a sorted list puts it after every element level with it. */
  lemma {:induction false} InsertTies<T(!new)>(y: T, t: seq<T>, x: T, le: (T, T) -> bool)
    requires TotalPreorder(le) && Sorted(t, le)
    ensures Ties(Insert(y, t, le), x, le) == Ties(t, x, le) + Ties([y], x, le)
    decreases |t|
  {
    if t == [] {
      assert Ties(t, x, le) == [];
    } else if le(t[0], y) {
      SortedTail(t, le);
      InsertTies(y, t[1..], x, le);
      TiesPassed(y, t, x, le);
    } else {
      TiesInFront(y, t, x, le);
    }
  }

  lemma SortedTail<T>(t: seq<T>, le: (T, T) -> bool)
    requires t != [] && Sorted(t, le)
    ensures Sorted(t[1..], le)
  {
    forall i, j | 0 <= i < j < |t[1..]| ensures le(t[1..][i], t[1..][j]) {
      assert t[1..][i] == t[i + 1] && t[1..][j] == t[j + 1];
    }
  }

  /** The step where `y` moves past the head of the list. */
  lemma TiesPassed<T>(y: T, t: seq<T>, x: T, le: (T, T) -> bool)
    requires t != [] && le(t[0], y)
    requires Ties(Insert(y, t[1..], le), x, le) == Ties(t[1..], x, le) + Ties([y], x, le)
    ensures Ties(Insert(y, t, le), x, le) == Ties(t, x, le) + Ties([y], x, le)
  {
    assert Insert(y, t, le) == [t[0]] + Insert(y, t[1..], le);
    TiesConcat([t[0]], Insert(y, t[1..], le), x, le);
    assert t == [t[0]] + t[1..];
    TiesConcat([t[0]], t[1..], x, le);
  }

  /** The step where `y` stops in front of the head of the list. */
  lemma TiesInFront<T(!new)>(y: T, t: seq<T>, x: T, le: (T, T) -> bool)
    requires TotalPreorder(le) && Sorted(t, le)
    requires t != [] && !le(t[0], y)
    ensures Ties(Insert(y, t, le), x, le) == Ties(t, x, le) + Ties([y], x, le)
  {
    TiesConcat([y], t, x, le);
    if le(x, y) && le(y, x) {
      forall i | 0 <= i < |t| ensures !(le(x, t[i]) && le(t[i], x)) {
        assert i == 0 || le(t[0], t[i]);
      }
      NoTies(t, x, le);
    }
  }

  /** A list with nothing level with `x` has no ties with it. */
  lemma {:induction false} NoTies<T>(s: seq<T>, x: T, le: (T, T) -> bool)
    requires forall i :: 0 <= i < |s| ==> !(le(x, s[i]) && le(s[i], x))
    ensures Ties(s, x, le) == []
    decreases |s|
  {
    if s != [] {
      assert forall i :: 0 <= i < |s[1..]| ==> s[1..][i] == s[i + 1];
      NoTies(s[1..], x, le);
    }
  }

  /** `SortBy` is stable: elements level with one another keep their input order. */
  lemma {:induction false} SortByStable<T(!new)>(s: seq<T>, x: T, le: (T, T) -> bool)
    requires TotalPreorder(le)
    ensures Ties(SortBy(s, le), x, le) == Ties(s, x, le)
    decreases |s|
  {
    if s != [] {
      var init, last := s[..|s| - 1], s[|s| - 1];
      InitLast(s);
      SortByStable(init, x, le);
      SortByStep(s, le);
      InsertTies(last, SortBy(init, le), x, le);
      TiesConcat(init, [last], x, le);
    }
  }

  lemma InitLast<T>(s: seq<T>)
    requires s != []
    ensures s == s[..|s| - 1] + [s[|s| - 1]]
  {
  }

  /** The last element is inserted into the sorted rest. */
  lemma SortByStep<T(!new)>(s: seq<T>, le: (T, T) -> bool)
    requires TotalPreorder(le) && s != []
    ensures SortBy(s, le) == Insert(s[|s| - 1], SortBy(s[..|s| - 1], le), le)
  {
  }

  /** Every element of a permutation is one of the original elements. */
  lemma PermutationMembers<T>(s: seq<T>, r: seq<T>, i: int)
    requires multiset(r) == multiset(s) && 0 <= i < |r|
    ensures r[i] in s
  {
    assert r[i] in multiset(r);
  }

  function Take<T>(s: seq<T>, n: nat): (r: seq<T>)
    ensures |r| == if |s| < n then |s| else n
    ensures r == s[..|r|]
  {
    if |s| <= n then s else s[..n]
  }

  /**
   * Sorting and then keeping the first `n` is a top-n selection: no element
   * left out precedes one that was kept.
   */
  lemma TopN<T(!new)>(s: seq<T>, le: (T, T) -> bool, n: nat, i: int, j: int)
    requires TotalPreorder(le)
    requires 0 <= i < |Take(SortBy(s, le), n)| <= j < |SortBy(s, le)|
    ensures le(Take(SortBy(s, le), n)[i], SortBy(s, le)[j])
  {
  }

  /** No element occurs twice. */
  predicate Distinct<T(==)>(s: seq<T>)
  {
    forall i, j :: 0 <= i < j < |s| ==> s[i] != s[j]
  }

  /** Each element of a list without repeats occurs once. */
  lemma {:induction false} DistinctMultiset<T>(s: seq<T>, x: T)
    requires Distinct(s)
    ensures multiset(s)[x] == if x in s then 1 else 0
    decreases |s|
  {
    if s != [] {
      assert s == [s[0]] + s[1..];
      assert Distinct(s[1..]) by {
        forall i, j | 0 <= i < j < |s[1..]| ensures s[1..][i] != s[1..][j] {
          assert s[1..][i] == s[i + 1] && s[1..][j] == s[j + 1];
        }
      }
      DistinctMultiset(s[1..], x);
      if x == s[0] {
        forall j | 0 <= j < |s[1..]| ensures s[1..][j] != x {
          assert s[1..][j] == s[j + 1];
        }
      }
    }
  }

  /** A permutation of a list without repeats has none either. */
  lemma PermutationDistinct<T>(s: seq<T>, r: seq<T>)
    requires Distinct(s) && multiset(r) == multiset(s)
    ensures Distinct(r)
  {
    forall i, j | 0 <= i < j < |r| ensures r[i] != r[j] {
      if r[i] == r[j] {
        var x := r[i];
        assert r == r[..j] + r[j..];
        assert x in r[..j] && x in r[j..];
        assert multiset(r)[x] == multiset(r[..j])[x] + multiset(r[j..])[x];
        DistinctMultiset(s, x);
        assert x in s by {
          PermutationMembers(s, r, i);
        }
      }
    }
  }

  /** The sum of `f` over a list. */
  function SumBy<T>(s: seq<T>, f: T -> real): real
  {
    if s == [] then 0.0 else f(s[0]) + SumBy(s[1..], f)
  }

  lemma {:induction false} SumByConcat<T>(a: seq<T>, b: seq<T>, f: T -> real)
    ensures SumBy(a + b, f) == SumBy(a, f) + SumBy(b, f)
    decreases |a|
  {
    if a == [] {
      assert a + b == b;
    } else {
      assert (a + b)[1..] == a[1..] + b;
      SumByConcat(a[1..], b, f);
    }
  }

  /** Reordering a list does not change its sum. */
  lemma {:induction false} PermutationSum<T>(s: seq<T>, r: seq<T>, f: T -> real)
    requires multiset(r) == multiset(s)
    ensures SumBy(r, f) == SumBy(s, f)
    decreases |s|
  {
    if s == [] {
      assert |r| == |multiset(r)| == 0;
    } else {
      var x := s[0];
      assert s == [x] + s[1..];
      assert multiset(s) == multiset{x} + multiset(s[1..]);
      assert x in multiset(r);
      var k :| 0 <= k < |r| && r[k] == x;
      var rest := r[..k] + r[k + 1..];
      RemoveAtMultiset(r, k);
      PermutationSum(s[1..], rest, f);
      RemoveAtSum(r, k, f);
    }
  }

  /** Taking out the element at `k` takes one copy of it out of the multiset. */
  lemma RemoveAtMultiset<T>(r: seq<T>, k: int)
    requires 0 <= k < |r|
    ensures multiset(r[..k] + r[k + 1..]) == multiset(r) - multiset{r[k]}
  {
    assert r == r[..k] + [r[k]] + r[k + 1..];
    assert multiset(r) == multiset(r[..k]) + multiset{r[k]} + multiset(r[k + 1..]);
  }

  /** The sum is the element at `k` plus the sum of the others. */
  lemma RemoveAtSum<T>(r: seq<T>, k: int, f: T -> real)
    requires 0 <= k < |r|
    ensures SumBy(r, f) == f(r[k]) + SumBy(r[..k] + r[k + 1..], f)
  {
    assert r == r[..k] + [r[k]] + r[k + 1..];
    SumByConcat(r[..k] + [r[k]], r[k + 1..], f);
    SumByConcat(r[..k], [r[k]], f);
    SumByConcat(r[..k], r[k + 1..], f);
  }
}
