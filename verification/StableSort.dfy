/** `Array.prototype.sort` with a consistent comparator: the stable sort. */
module StableSort {

  /** `le(a, b)`: `a` may stand before `b`. */
  ghost predicate TotalPreorder<T(!new)>(le: (T, T) -> bool)
  {
    (forall a, b :: le(a, b) || le(b, a)) && (forall a, b, c :: le(a, b) && le(b, c) ==> le(a, c))
  }

  ghost predicate Sorted<T>(xs: seq<T>, le: (T, T) -> bool)
  {
    forall i, j :: 0 <= i < j < |xs| ==> le(xs[i], xs[j])
  }

  function Insert<T>(sorted: seq<T>, x: T, le: (T, T) -> bool): seq<T>
  {
    if sorted == [] then [x]
    else
      var last := sorted[|sorted| - 1];
      if le(last, x) then sorted + [x] else Insert(sorted[..|sorted| - 1], x, le) + [last]
  }

  function Sort<T>(xs: seq<T>, le: (T, T) -> bool): seq<T>
  {
    if xs == [] then [] else Insert(Sort(xs[..|xs| - 1], le), xs[|xs| - 1], le)
  }

  lemma {:induction false} InsertSorted<T(!new)>(sorted: seq<T>, x: T, le: (T, T) -> bool)
    requires TotalPreorder(le) && Sorted(sorted, le)
    ensures Sorted(Insert(sorted, x, le), le)
    ensures multiset(Insert(sorted, x, le)) == multiset(sorted) + multiset{x}
  {
    if sorted != [] {
      var init, last := sorted[..|sorted| - 1], sorted[|sorted| - 1];
      assert sorted == init + [last];
      if !le(last, x) {
        InsertSorted(init, x, le);
        var inserted := Insert(init, x, le);
        forall i | 0 <= i < |inserted| ensures le(inserted[i], last) {
          assert inserted[i] in multiset(inserted);
          assert inserted[i] in init || inserted[i] == x;
        }
      }
    }
  }

  /** The result is ordered and has the same elements. */
  lemma {:induction false} SortSorts<T(!new)>(xs: seq<T>, le: (T, T) -> bool)
    requires TotalPreorder(le)
    ensures Sorted(Sort(xs, le), le)
    ensures multiset(Sort(xs, le)) == multiset(xs)
    ensures |Sort(xs, le)| == |xs|
  {
    if xs != [] {
      var init, last := xs[..|xs| - 1], xs[|xs| - 1];
      assert xs == init + [last];
      SortSorts(init, le);
      InsertSorted(Sort(init, le), last, le);
      assert |multiset(Sort(xs, le))| == |multiset(xs)|;
    }
  }

  /** No two different elements compare as equal. */
  ghost predicate Strict<T>(xs: seq<T>, le: (T, T) -> bool)
  {
    forall i, j :: 0 <= i < |xs| && 0 <= j < |xs| && le(xs[i], xs[j]) && le(xs[j], xs[i]) ==> xs[i] == xs[j]
  }

  lemma SameFirst<T(!new)>(a: seq<T>, b: seq<T>, le: (T, T) -> bool)
    requires TotalPreorder(le) && Sorted(a, le) && Sorted(b, le) && Strict(a, le)
    requires multiset(a) == multiset(b) && a != [] && b != []
    ensures a[0] == b[0]
  {
    assert a[0] in multiset(b) && b[0] in multiset(a);
    var j :| 0 <= j < |b| && b[j] == a[0];
    var i :| 0 <= i < |a| && a[i] == b[0];
    assert le(a[0], a[i]) && le(b[0], b[j]);
  }

  lemma TailMultiset<T>(a: seq<T>)
    requires a != []
    ensures multiset(a[1..]) == multiset(a) - multiset{a[0]}
  {
    assert a == [a[0]] + a[1..];
  }

  lemma SameLength<T>(a: seq<T>, b: seq<T>)
    requires multiset(a) == multiset(b)
    ensures |a| == |b|
  {
    assert |multiset(a)| == |a| && |multiset(b)| == |b|;
  }

  lemma TailKeeps<T>(a: seq<T>, le: (T, T) -> bool)
    requires a != [] && Sorted(a, le)
    ensures Sorted(a[1..], le) && (Strict(a, le) ==> Strict(a[1..], le))
  {
    assert forall i :: 0 <= i < |a| - 1 ==> a[1..][i] == a[i + 1];
  }

  lemma SameHeadAndTail<T>(a: seq<T>, b: seq<T>)
    requires a != [] && b != [] && a[0] == b[0] && a[1..] == b[1..]
    ensures a == b
  {
    assert a == [a[0]] + a[1..] && b == [b[0]] + b[1..];
  }

  lemma {:induction false} SortedIsUnique<T(!new)>(a: seq<T>, b: seq<T>, le: (T, T) -> bool)
    requires TotalPreorder(le) && Sorted(a, le) && Sorted(b, le) && Strict(a, le)
    requires multiset(a) == multiset(b)
    ensures a == b
  {
    SameLength(a, b);
    if a != [] {
      SameFirst(a, b, le);
      TailMultiset(a);
      TailMultiset(b);
      TailKeeps(a, le);
      TailKeeps(b, le);
      SortedIsUnique(a[1..], b[1..], le);
      SameHeadAndTail(a, b);
    }
  }

  /** With no ties, sorting forgets the input order. */
  lemma SortIgnoresOrder<T(!new)>(xs: seq<T>, ys: seq<T>, le: (T, T) -> bool)
    requires TotalPreorder(le) && Strict(xs, le) && multiset(xs) == multiset(ys)
    ensures Sort(xs, le) == Sort(ys, le)
  {
    SortSorts(xs, le);
    SortSorts(ys, le);
    var sorted := Sort(xs, le);
    forall i, j | 0 <= i < |sorted| && 0 <= j < |sorted| && le(sorted[i], sorted[j]) && le(sorted[j], sorted[i])
      ensures sorted[i] == sorted[j]
    {
      assert sorted[i] in multiset(xs) && sorted[j] in multiset(xs);
      var k :| 0 <= k < |xs| && xs[k] == sorted[i];
      var l :| 0 <= l < |xs| && xs[l] == sorted[j];
    }
    SortedIsUnique(sorted, Sort(ys, le), le);
  }

  // ---------------------------------------------------------------- stability

  /** Somewhere in the list `a` stands before `b`. */
  ghost predicate Earlier<T(!new)>(xs: seq<T>, a: T, b: T)
  {
    exists i, j :: 0 <= i < j < |xs| && xs[i] == a && xs[j] == b
  }

  /** Elements that compare as equal keep the order they have in `xs`. */
  ghost predicate Stable<T(!new)>(sorted: seq<T>, xs: seq<T>, le: (T, T) -> bool)
  {
    forall p, q :: 0 <= p < q < |sorted| && le(sorted[q], sorted[p]) ==> Earlier(xs, sorted[p], sorted[q])
  }

  lemma EarlierThanLast<T(!new)>(xs: seq<T>, x: T, a: T, b: T)
    ensures Earlier(xs, a, b) ==> Earlier(xs + [x], a, b)
    ensures a in xs ==> Earlier(xs + [x], a, x)
  {
    var all := xs + [x];
    if Earlier(xs, a, b) {
      var i, j :| 0 <= i < j < |xs| && xs[i] == a && xs[j] == b;
      assert all[i] == a && all[j] == b;
    }
    if a in xs {
      var i :| 0 <= i < |xs| && xs[i] == a;
      assert all[i] == a && all[|xs|] == x;
    }
  }

  lemma {:induction false} InsertIsStable<T(!new)>(sorted: seq<T>, x: T, xs: seq<T>, le: (T, T) -> bool)
    requires TotalPreorder(le) && Sorted(sorted, le) && Stable(sorted, xs, le)
    requires forall y :: y in sorted ==> y in xs
    ensures Stable(Insert(sorted, x, le), xs + [x], le)
  {
    var inserted := Insert(sorted, x, le);
    forall a, b { EarlierThanLast(xs, x, a, b); }
    if sorted != [] {
      var init, last := sorted[..|sorted| - 1], sorted[|sorted| - 1];
      if le(last, x) {
        assert inserted == sorted + [x];
      } else {
        InsertIsStable(init, x, xs, le);
        InsertSorted(init, x, le);
        var before := Insert(init, x, le);
        assert inserted == before + [last];
        forall p | 0 <= p < |before| && le(last, before[p]) ensures Earlier(xs + [x], before[p], last) {
          assert before[p] in multiset(before);
          if before[p] in init {
            var i :| 0 <= i < |init| && init[i] == before[p];
            assert sorted[i] == before[p] && le(sorted[|sorted| - 1], sorted[i]);
          }
        }
      }
    }
  }

  lemma {:induction false} SortIsStable<T(!new)>(xs: seq<T>, le: (T, T) -> bool)
    requires TotalPreorder(le)
    ensures Stable(Sort(xs, le), xs, le)
  {
    if xs != [] {
      var init, last := xs[..|xs| - 1], xs[|xs| - 1];
      assert xs == init + [last];
      SortIsStable(init, le);
      SortSorts(init, le);
      forall y | y in Sort(init, le) ensures y in init {
        assert y in multiset(Sort(init, le));
      }
      InsertIsStable(Sort(init, le), last, init, le);
    }
  }

  ghost predicate NoRepeats<T(!new)>(xs: seq<T>)
  {
    forall i, j :: 0 <= i < j < |xs| ==> xs[i] != xs[j]
  }

  /** What sorts before an element: the smaller ones, and the equal ones listed earlier. */
  ghost function Before<T(!new)>(xs: seq<T>, x: T, le: (T, T) -> bool): set<T>
  {
    set y | y in xs && y != x && le(y, x) && (le(x, y) ==> Earlier(xs, y, x))
  }

  lemma NotBothEarlier<T(!new)>(xs: seq<T>, a: T, b: T)
    requires NoRepeats(xs) && Earlier(xs, a, b)
    ensures !Earlier(xs, b, a)
  {
    var i, j :| 0 <= i < j < |xs| && xs[i] == a && xs[j] == b;
  }

  lemma {:induction false} PrefixSize<T(!new)>(xs: seq<T>, n: nat)
    requires NoRepeats(xs) && n <= |xs|
    ensures |set i | 0 <= i < n :: xs[i]| == n
  {
    if n > 0 {
      PrefixSize(xs, n - 1);
      assert (set i | 0 <= i < n :: xs[i]) == (set i | 0 <= i < n - 1 :: xs[i]) + {xs[n - 1]};
    }
  }

  /** In a list without repeats, an element's place after sorting is the number of elements that sort before it. */
  lemma PlaceIsRank<T(!new)>(xs: seq<T>, le: (T, T) -> bool, p: nat)
    requires TotalPreorder(le) && NoRepeats(xs) && NoRepeats(Sort(xs, le)) && p < |Sort(xs, le)|
    ensures |Before(xs, Sort(xs, le)[p], le)| == p
  {
    var sorted := Sort(xs, le);
    var x := sorted[p];
    SortSorts(xs, le);
    SortIsStable(xs, le);
    var prefix := set i | 0 <= i < p :: sorted[i];
    forall y ensures y in xs <==> y in sorted {
      assert y in multiset(xs) <==> y in multiset(sorted);
    }
    forall q | 0 <= q < |sorted| ensures sorted[q] in Before(xs, x, le) <==> q < p {
      if q > p && le(sorted[q], x) {
        NotBothEarlier(xs, x, sorted[q]);
      }
    }
    assert Before(xs, x, le) == prefix;
    PrefixSize(sorted, p);
  }
}
