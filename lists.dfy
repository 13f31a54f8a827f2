/**
 * The two list operations the module dialog builds its list with, stated
 * for any element type: a first-wins deduplication by a key and a stable
 * insertion sort by a comparator.
 */
module Lists {

  // ----- filter and map -----

  /** `xs.filter(p)`: the entries that pass, in order. */
  function Filter<T>(p: T -> bool, xs: seq<T>): (r: seq<T>)
    ensures |r| <= |xs|
    ensures forall x :: x in r ==> x in xs && p(x)
    ensures forall x :: x in xs && p(x) ==> x in r
  {
    if xs == [] then []
    else
      var rest := Filter(p, xs[1..]);
      assert forall x :: x in xs ==> x == xs[0] || x in xs[1..];
      if p(xs[0]) then [xs[0]] + rest else rest
  }

  /** Filtering a concatenation filters each part. */
  lemma {:induction false} FilterAppend<T>(p: T -> bool, a: seq<T>, b: seq<T>)
    ensures Filter(p, a + b) == Filter(p, a) + Filter(p, b)
  {
    if a == [] {
      assert a + b == b;
    } else {
      assert (a + b)[0] == a[0] && (a + b)[1..] == a[1..] + b;
      FilterAppend(p, a[1..], b);
    }
  }

  /** Filtering a list whose every entry passes keeps it whole. */
  lemma {:induction false} FilterAll<T>(p: T -> bool, xs: seq<T>)
    requires forall i :: 0 <= i < |xs| ==> p(xs[i])
    ensures Filter(p, xs) == xs
  {
    if xs != [] {
      FilterAll(p, xs[1..]);
    }
  }

  /** `xs.map(f)` */
  function Map<T, U>(f: T -> U, xs: seq<T>): (r: seq<U>)
    ensures |r| == |xs|
    ensures forall i :: 0 <= i < |xs| ==> r[i] == f(xs[i])
  {
    if xs == [] then [] else [f(xs[0])] + Map(f, xs[1..])
  }

  /** What `Map` returns is the image of its input: nothing else, and nothing missing. */
  lemma MapImage<T, U>(f: T -> U, xs: seq<T>)
    ensures forall y :: y in Map(f, xs) ==> exists x :: x in xs && y == f(x)
    ensures forall x :: x in xs ==> f(x) in Map(f, xs)
  {
    var r := Map(f, xs);
    forall y | y in r
      ensures exists x :: x in xs && y == f(x)
    {
      var i :| 0 <= i < |r| && r[i] == y;
      assert xs[i] in xs;
    }
    forall x | x in xs
      ensures f(x) in r
    {
      var i :| 0 <= i < |xs| && xs[i] == x;
      assert r[i] == f(x);
    }
  }

  /** `xs.reduce((acc, x) => acc + f(x), 0)`, on exact reals. */
  function SumBy<T>(f: T -> real, xs: seq<T>): real
  {
    if xs == [] then 0.0 else f(xs[0]) + SumBy(f, xs[1..])
  }

  /** Splitting a list by a predicate and its negation splits its sum. */
  lemma {:induction false} FilterSplitsSum<T>(p: T -> bool, q: T -> bool, f: T -> real, xs: seq<T>)
    requires forall x :: q(x) <==> !p(x)
    ensures SumBy(f, Filter(p, xs)) + SumBy(f, Filter(q, xs)) == SumBy(f, xs)
  {
    if xs != [] {
      FilterSplitsSum(p, q, f, xs[1..]);
      assert ([xs[0]] + Filter(p, xs[1..]))[1..] == Filter(p, xs[1..]);
      assert ([xs[0]] + Filter(q, xs[1..]))[1..] == Filter(q, xs[1..]);
    }
  }

  // ----- deduplication by key -----

  function Keys<T(==), K(==)>(key: T -> K, list: seq<T>): set<K>
  {
    set x | x in list :: key(x)
  }

  predicate DistinctKeys<T(==), K(==)>(key: T -> K, list: seq<T>)
  {
    forall i, j :: 0 <= i < j < |list| ==> key(list[i]) != key(list[j])
  }

  /** The entries of `list` whose key is neither in `seen` nor taken by an earlier entry, in order. */
  function Dedup<T(==), K(==)>(key: T -> K, list: seq<T>, seen: set<K>): (r: seq<T>)
    ensures forall x :: x in r ==> x in list && key(x) !in seen
    ensures DistinctKeys(key, r)
    ensures Keys(key, r) == Keys(key, list) - seen
  {
    if list == [] then []
    else
      var x := list[0];
      assert forall y :: y in list[1..] ==> y in list;
      assert Keys(key, list) == {key(x)} + Keys(key, list[1..]);
      if key(x) in seen then Dedup(key, list[1..], seen)
      else
        var rest := Dedup(key, list[1..], seen + {key(x)});
        assert Keys(key, [x] + rest) == {key(x)} + Keys(key, rest);
        var r := [x] + rest;
        assert forall i :: 0 < i < |r| ==> r[i] == rest[i - 1];
        assert forall i :: 0 < i < |r| ==> key(r[i]) != key(x) by {
          forall i | 0 < i < |r|
            ensures key(r[i]) != key(x)
          {
            assert r[i] in rest;
          }
        }
        r
  }

  /** One step of `Dedup`: the head is kept exactly when its key is new. */
  lemma DedupStep<T, K>(key: T -> K, list: seq<T>, seen: set<K>)
    requires list != []
    ensures key(list[0]) in seen ==> Dedup(key, list, seen) == Dedup(key, list[1..], seen)
    ensures key(list[0]) !in seen ==> Dedup(key, list, seen) == [list[0]] + Dedup(key, list[1..], seen + {key(list[0])})
  {
  }

  /** `list` with some entries left out, the rest in order. */
  function Select<T(==)>(list: seq<T>, keep: seq<bool>): seq<T>
    requires |keep| == |list|
  {
    if list == [] then [] else (if keep[0] then [list[0]] else []) + Select(list[1..], keep[1..])
  }

  ghost predicate SubsequenceOf<T>(r: seq<T>, list: seq<T>)
  {
    exists keep: seq<bool> :: |keep| == |list| && Select(list, keep) == r
  }

  /** `Filter` keeps entries in their order: it selects the entries the predicate holds of. */
  lemma {:induction false} FilterSelects<T>(p: T -> bool, xs: seq<T>)
    ensures Select(xs, Map(p, xs)) == Filter(p, xs)
    ensures SubsequenceOf(Filter(p, xs), xs)
  {
    if xs != [] {
      FilterSelects(p, xs[1..]);
      assert Map(p, xs)[1..] == Map(p, xs[1..]);
    }
  }

  /** Which entries `Dedup` keeps. */
  ghost function Kept<T, K>(key: T -> K, list: seq<T>, seen: set<K>): (keep: seq<bool>)
    ensures |keep| == |list|
  {
    if list == [] then []
    else if key(list[0]) in seen then [false] + Kept(key, list[1..], seen)
    else [true] + Kept(key, list[1..], seen + {key(list[0])})
  }

  lemma {:induction false} DedupSelects<T, K>(key: T -> K, list: seq<T>, seen: set<K>)
    ensures Select(list, Kept(key, list, seen)) == Dedup(key, list, seen)
  {
    if list != [] {
      if key(list[0]) in seen {
        DedupSelects(key, list[1..], seen);
      } else {
        DedupSelects(key, list[1..], seen + {key(list[0])});
      }
    }
  }

  /** `Dedup` keeps entries in their order: what it returns is a subsequence of its input. */
  lemma DedupIsSubsequence<T, K>(key: T -> K, list: seq<T>, seen: set<K>)
    ensures SubsequenceOf(Dedup(key, list, seen), list)
  {
    DedupSelects(key, list, seen);
  }

  /** The first entry with a given key (not already seen) is the one kept. */
  lemma {:induction false} DedupKeepsFirst<T, K>(key: T -> K, list: seq<T>, seen: set<K>, i: nat)
    requires i < |list| && key(list[i]) !in seen
    requires forall j :: 0 <= j < i ==> key(list[j]) != key(list[i])
    ensures list[i] in Dedup(key, list, seen)
  {
    if i > 0 {
      assert list[i] == list[1..][i - 1];
      if key(list[0]) in seen {
        DedupKeepsFirst(key, list[1..], seen, i - 1);
      } else {
        DedupKeepsFirst(key, list[1..], seen + {key(list[0])}, i - 1);
      }
    }
  }

  /** A list whose keys are distinct and unseen comes back unchanged. */
  lemma {:induction false} DedupOfDistinct<T, K>(key: T -> K, list: seq<T>, seen: set<K>)
    requires DistinctKeys(key, list)
    requires forall x :: x in list ==> key(x) !in seen
    ensures Dedup(key, list, seen) == list
  {
    if list != [] {
      forall x | x in list[1..]
        ensures key(x) !in seen + {key(list[0])}
      {
        var j :| 0 <= j < |list[1..]| && list[1..][j] == x;
        assert list[j + 1] == x;
      }
      DedupOfDistinct(key, list[1..], seen + {key(list[0])});
    }
  }

  /** Deduplicating twice is deduplicating once. */
  lemma DedupIdempotent<T, K>(key: T -> K, list: seq<T>)
    ensures Dedup(key, Dedup(key, list, {}), {}) == Dedup(key, list, {})
  {
    DedupOfDistinct(key, Dedup(key, list, {}), {});
  }

  /** An entry that occurs at two positions is counted at least twice. */
  lemma CountedTwice<T>(r: seq<T>, i: int, j: int)
    requires 0 <= i < j < |r| && r[i] == r[j]
    ensures multiset(r)[r[i]] >= 2
  {
    assert r == r[..i] + [r[i]] + r[i + 1..];
    assert multiset(r) == multiset(r[..i]) + multiset{r[i]} + multiset(r[i + 1..]);
    assert r[i + 1..][j - i - 1] == r[j];
  }

  /** In a list with distinct keys no entry occurs twice. */
  lemma {:induction false} CountedOnce<T, K>(key: T -> K, u: seq<T>, x: T)
    requires DistinctKeys(key, u)
    ensures multiset(u)[x] <= 1
  {
    if u != [] {
      var tail := u[1..];
      assert u == [u[0]] + tail;
      assert multiset(u) == multiset{u[0]} + multiset(tail);
      assert DistinctKeys(key, tail) by {
        forall i, j | 0 <= i < j < |tail|
          ensures key(tail[i]) != key(tail[j])
        {
          assert tail[i] == u[i + 1] && tail[j] == u[j + 1];
        }
      }
      CountedOnce(key, tail, x);
      forall k | 0 <= k < |tail|
        ensures tail[k] != u[0]
      {
        assert tail[k] == u[k + 1];
      }
    }
  }

  /** Reordering a list whose keys are distinct keeps them distinct. */
  lemma PermutationKeepsDistinct<T, K>(key: T -> K, u: seq<T>, r: seq<T>)
    requires multiset(r) == multiset(u) && DistinctKeys(key, u)
    ensures DistinctKeys(key, r)
  {
    forall i, j | 0 <= i < j < |r|
      ensures key(r[i]) != key(r[j])
    {
      var x, y := r[i], r[j];
      assert x in multiset(u) && y in multiset(u);
      if x == y {
        CountedTwice(r, i, j);
        CountedOnce(key, u, x);
      } else {
        var i' :| 0 <= i' < |u| && u[i'] == x;
        var j' :| 0 <= j' < |u| && u[j'] == y;
        assert i' != j';
      }
    }
  }

  // ----- stable insertion sort -----

  /** What `Array.prototype.sort` needs of its comparator: any two entries compare, and the order is transitive. */
  ghost predicate TotalPreorder<T(!new)>(before: (T, T) -> bool)
  {
    && (forall a, b :: before(a, b) || before(b, a))
    && (forall a, b, c {:trigger before(a, b), before(b, c)} :: before(a, b) && before(b, c) ==> before(a, c))
  }

  predicate Sorted<T>(before: (T, T) -> bool, list: seq<T>)
  {
    forall i, j :: 0 <= i < j < |list| ==> before(list[i], list[j])
  }

  /** Inserts `x` before the first entry it may precede. */
  function Insert<T(==)>(before: (T, T) -> bool, x: T, list: seq<T>): (r: seq<T>)
    ensures multiset(r) == multiset(list) + multiset{x}
  {
    if list == [] || before(x, list[0]) then [x] + list
    else
      var rest := Insert(before, x, list[1..]);
      assert list == [list[0]] + list[1..];
      assert multiset([list[0]] + rest) == multiset{list[0]} + multiset(rest);
      [list[0]] + rest
  }

  /** An insertion sort: a permutation of `list`, sorted whenever the comparator is a total preorder. */
  function Sort<T(==)>(before: (T, T) -> bool, list: seq<T>): (r: seq<T>)
    ensures multiset(r) == multiset(list)
  {
    if list == [] then []
    else
      var rest := Sort(before, list[1..]);
      assert list == [list[0]] + list[1..];
      assert multiset(list) == multiset{list[0]} + multiset(list[1..]);
      Insert(before, list[0], rest)
  }

  /** Every entry of `list` may come after `b`. */
  predicate Bound<T>(before: (T, T) -> bool, b: T, list: seq<T>)
  {
    forall i :: 0 <= i < |list| ==> before(b, list[i])
  }

  lemma SortedCons<T>(before: (T, T) -> bool, a: T, rest: seq<T>)
    requires Bound(before, a, rest) && Sorted(before, rest)
    ensures Sorted(before, [a] + rest)
  {
    var l := [a] + rest;
    forall i, j | 0 <= i < j < |l|
      ensures before(l[i], l[j])
    {
      assert l[j] == rest[j - 1];
      if i > 0 { assert l[i] == rest[i - 1]; }
    }
  }

  lemma {:induction false} InsertBound<T>(before: (T, T) -> bool, b: T, x: T, list: seq<T>)
    requires Bound(before, b, list) && before(b, x)
    ensures Bound(before, b, Insert(before, x, list))
  {
    if list != [] && !before(x, list[0]) {
      var tail := list[1..];
      forall i | 0 <= i < |tail|
        ensures before(b, tail[i])
      {
        assert tail[i] == list[i + 1];
      }
      InsertBound(before, b, x, tail);
      var l := Insert(before, x, list);
      var rest := Insert(before, x, tail);
      assert l == [list[0]] + rest;
      forall i | 0 < i < |l|
        ensures before(b, l[i])
      {
        assert l[i] == rest[i - 1];
      }
    }
  }

  lemma {:induction false} InsertSorted<T(!new)>(before: (T, T) -> bool, x: T, list: seq<T>)
    requires TotalPreorder(before) && Sorted(before, list)
    ensures Sorted(before, Insert(before, x, list))
  {
    if list == [] {
    } else if before(x, list[0]) {
      assert Bound(before, x, list);
      SortedCons(before, x, list);
    } else {
      var tail := list[1..];
      forall i | 0 <= i < |tail|
        ensures before(list[0], tail[i])
      {
        assert tail[i] == list[i + 1];
      }
      forall i, j | 0 <= i < j < |tail|
        ensures before(tail[i], tail[j])
      {
        assert tail[i] == list[i + 1] && tail[j] == list[j + 1];
      }
      InsertBound(before, list[0], x, tail);
      InsertSorted(before, x, tail);
      SortedCons(before, list[0], Insert(before, x, tail));
    }
  }

  /** `Sort` sorts, given a comparator that is a total preorder. */
  lemma {:induction false} SortSorted<T(!new)>(before: (T, T) -> bool, list: seq<T>)
    requires TotalPreorder(before)
    ensures Sorted(before, Sort(before, list))
  {
    if list != [] {
      SortSorted(before, list[1..]);
      InsertSorted(before, list[0], Sort(before, list[1..]));
    }
  }
}
