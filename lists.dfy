/** Sequence operations of ECMAScript arrays: `filter`, `map`, and the element order of a `Set`. */
module Lists {

  /** `[y]` when `y` passes `p`, nothing otherwise. */
  function Keep<T>(y: T, p: T -> bool): seq<T> {
    if p(y) then [y] else []
  }

  /** `xs.filter(p)`. */
  function Filter<T>(xs: seq<T>, p: T -> bool): seq<T> {
    if xs == [] then []
    else Filter(xs[..|xs| - 1], p) + Keep(xs[|xs| - 1], p)
  }

  /** `xs.map(f)`. */
  function MapSeq<T, U>(xs: seq<T>, f: T -> U): (r: seq<U>)
    ensures |r| == |xs|
    ensures forall i :: 0 <= i < |xs| ==> r[i] == f(xs[i])
  {
    seq(|xs|, i requires 0 <= i < |xs| => f(xs[i]))
  }

  /** No element occurs twice. */
  predicate Distinct<T(==)>(xs: seq<T>) {
    forall i, j :: 0 <= i < j < |xs| ==> xs[i] != xs[j]
  }

  /** `Array.from(new Set(xs))`: each element once, in order of first occurrence. */
  function FirstOccurrences<T(==)>(xs: seq<T>): seq<T> {
    if xs == [] then []
    else
      var firsts := FirstOccurrences(xs[..|xs| - 1]);
      if xs[|xs| - 1] in firsts then firsts else firsts + [xs[|xs| - 1]]
  }

  /** A filter keeps exactly the elements that pass, in order. */
  lemma {:induction false} FilterMembers<T>(xs: seq<T>, p: T -> bool)
    ensures forall y :: y in Filter(xs, p) <==> y in xs && p(y)
    ensures |Filter(xs, p)| <= |xs|
  {
    if xs != [] {
      FilterMembers(xs[..|xs| - 1], p);
      assert xs == xs[..|xs| - 1] + [xs[|xs| - 1]];
    }
  }

  /** Filtering distributes over concatenation. */
  lemma {:induction false} FilterAppend<T>(a: seq<T>, b: seq<T>, p: T -> bool)
    ensures Filter(a + b, p) == Filter(a, p) + Filter(b, p)
    decreases |b|
  {
    if b == [] {
      assert a + b == a;
    } else {
      var b' := b[..|b| - 1];
      assert (a + b)[..|a + b| - 1] == a + b';
      FilterAppend(a, b', p);
    }
  }

  /** A filter that every element passes changes nothing. */
  lemma {:induction false} FilterAll<T>(xs: seq<T>, p: T -> bool)
    requires forall i :: 0 <= i < |xs| ==> p(xs[i])
    ensures Filter(xs, p) == xs
  {
    if xs != [] {
      FilterAll(xs[..|xs| - 1], p);
      assert xs == xs[..|xs| - 1] + [xs[|xs| - 1]];
    }
  }

  /** Two filters in a row are one filter by the conjunction. */
  lemma {:induction false} FilterFilter<T>(xs: seq<T>, p: T -> bool, q: T -> bool, pq: T -> bool)
    requires forall y :: pq(y) == (p(y) && q(y))
    ensures Filter(Filter(xs, p), q) == Filter(xs, pq)
  {
    if xs != [] {
      var init, last := xs[..|xs| - 1], xs[|xs| - 1];
      FilterFilter(init, p, q, pq);
      FilterAppend(Filter(init, p), Keep(last, p), q);
      if p(last) {
        assert Filter(Keep(last, p), q) == Filter([], q) + Keep(last, q) by {
          assert Keep(last, p)[..0] == [];
        }
      }
    }
  }

  /** What a filter keeps passes the test, and there is no more of it than of its input. */
  lemma FilterHolds<T>(xs: seq<T>, p: T -> bool)
    ensures |Filter(xs, p)| <= |xs|
    ensures forall i :: 0 <= i < |Filter(xs, p)| ==> p(Filter(xs, p)[i])
  {
    FilterMembers(xs, p);
    forall i | 0 <= i < |Filter(xs, p)| ensures p(Filter(xs, p)[i]) {
      assert Filter(xs, p)[i] in Filter(xs, p);
    }
  }

  /** A filter keeps every copy of an element that passes and no copy of one that fails. */
  lemma {:induction false} FilterCount<T>(xs: seq<T>, p: T -> bool, y: T)
    ensures multiset(Filter(xs, p))[y] == if p(y) then multiset(xs)[y] else 0
  {
    if xs != [] {
      var init, last := xs[..|xs| - 1], xs[|xs| - 1];
      assert xs == init + [last];
      FilterCount(init, p, y);
    }
  }

  /** Filtering two permutations of each other gives permutations of each other. */
  lemma FilterPermutation<T>(xs: seq<T>, ys: seq<T>, p: T -> bool)
    requires multiset(xs) == multiset(ys)
    ensures multiset(Filter(xs, p)) == multiset(Filter(ys, p))
  {
    forall y ensures multiset(Filter(xs, p))[y] == multiset(Filter(ys, p))[y] {
      FilterCount(xs, p, y);
      FilterCount(ys, p, y);
    }
    SameCounts(multiset(Filter(xs, p)), multiset(Filter(ys, p)));
  }

  lemma SameCounts<T>(a: multiset<T>, b: multiset<T>)
    requires forall y :: a[y] == b[y]
    ensures a == b
  {
  }

  /** Mapping distributes over concatenation. */
  lemma MapAppend<T, U>(a: seq<T>, b: seq<T>, f: T -> U)
    ensures MapSeq(a + b, f) == MapSeq(a, f) + MapSeq(b, f)
  {
  }

  /** A `Set` holds the elements of its source, each once. */
  lemma {:induction false} FirstOccurrencesMembers<T>(xs: seq<T>)
    ensures forall y :: y in FirstOccurrences(xs) <==> y in xs
    ensures Distinct(FirstOccurrences(xs))
    ensures |FirstOccurrences(xs)| <= |xs|
  {
    if xs != [] {
      FirstOccurrencesMembers(xs[..|xs| - 1]);
      assert xs == xs[..|xs| - 1] + [xs[|xs| - 1]];
    }
  }

  /** `xs.reduce((sum, x) => sum + m(x), 0)`. */
  function SumOf<T>(xs: seq<T>, m: T -> real): real {
    if xs == [] then 0.0 else SumOf(xs[..|xs| - 1], m) + m(xs[|xs| - 1])
  }

  /** Sums distribute over concatenation. */
  lemma {:induction false} SumOfAppend<T>(a: seq<T>, b: seq<T>, m: T -> real)
    ensures SumOf(a + b, m) == SumOf(a, m) + SumOf(b, m)
    decreases |b|
  {
    if b == [] {
      assert a + b == a;
    } else {
      assert (a + b)[..|a + b| - 1] == a + b[..|b| - 1];
      SumOfAppend(a, b[..|b| - 1], m);
    }
  }

  lemma SumOfCons<T>(x: T, xs: seq<T>, m: T -> real)
    ensures SumOf([x] + xs, m) == m(x) + SumOf(xs, m)
  {
    SumOfAppend([x], xs, m);
    assert [x][..0] == [];
  }

  /** The position of the first occurrence of `x` in `xs`. */
  function IndexIn<T(==)>(xs: seq<T>, x: T): (i: nat)
    requires x in xs
    ensures i < |xs| && xs[i] == x
    ensures forall j :: 0 <= j < i ==> xs[j] != x
  {
    if xs[0] == x then 0 else 1 + IndexIn(xs[1..], x)
  }

  /** Filters by two predicates that agree everywhere are equal. */
  lemma {:induction false} FilterSame<T>(xs: seq<T>, p: T -> bool, q: T -> bool)
    requires forall y :: p(y) == q(y)
    ensures Filter(xs, p) == Filter(xs, q)
  {
    if xs != [] {
      FilterSame(xs[..|xs| - 1], p, q);
    }
  }

  /** The elements of `f` occur in `xs`, at strictly increasing positions. */
  predicate InOrderOf<T(==)>(f: seq<T>, xs: seq<T>) {
    forall i, j :: 0 <= i < j < |f| ==> f[i] in xs && f[j] in xs && IndexIn(xs, f[i]) < IndexIn(xs, f[j])
  }

  /** Filtering a sequence without repetitions keeps its order. */
  lemma {:induction false} FilterKeepsOrder<T>(xs: seq<T>, p: T -> bool)
    requires Distinct(xs)
    ensures InOrderOf(Filter(xs, p), xs)
  {
    if xs != [] {
      var init, x := xs[..|xs| - 1], xs[|xs| - 1];
      assert xs == init + [x];
      assert Distinct(init);
      assert x !in init;
      FilterKeepsOrder(init, p);
      FilterMembers(init, p);
      var g := Filter(init, p);
      assert InOrderOf(g, init);
      assert forall y :: y in g ==> y in init;
      if p(x) {
        assert Filter(xs, p) == g + [x];
        AppendKeepsOrder(init, x, g, g + [x]);
      } else {
        assert Filter(xs, p) == g;
        AppendKeepsOrder(init, x, g, g);
      }
    }
  }

  /** An ordered selection from `init`, perhaps followed by a new last element `x`, is ordered in `init + [x]`. */
  lemma AppendKeepsOrder<T>(init: seq<T>, x: T, g: seq<T>, f: seq<T>)
    requires x !in init && InOrderOf(g, init) && (forall y :: y in g ==> y in init)
    requires f == g || f == g + [x]
    ensures InOrderOf(f, init + [x])
  {
    forall i, j | 0 <= i < j < |f|
      ensures f[i] in init + [x] && f[j] in init + [x] && IndexIn(init + [x], f[i]) < IndexIn(init + [x], f[j])
    {
      assert i < |g| && f[i] == g[i] && g[i] in init;
      IndexInPrefix(init, x, g[i]);
      if j < |g| {
        assert f[j] == g[j] && g[j] in init;
        IndexInPrefix(init, x, g[j]);
      } else {
        assert f[j] == x;
        IndexInLast(init, x);
      }
    }
  }

  lemma FilterElement<T>(xs: seq<T>, p: T -> bool, i: nat)
    requires i < |Filter(xs, p)|
    ensures Filter(xs, p)[i] in xs
  {
    FilterMembers(xs, p);
    assert Filter(xs, p)[i] in Filter(xs, p);
  }

  lemma IndexInPrefix<T>(init: seq<T>, x: T, y: T)
    requires y in init
    ensures IndexIn(init + [x], y) == IndexIn(init, y)
  {
    var i := IndexIn(init, y);
    assert (init + [x])[i] == y;
  }

  lemma IndexInLast<T>(init: seq<T>, x: T)
    requires x !in init
    ensures IndexIn(init + [x], x) == |init|
  {
    assert (init + [x])[|init|] == x;
  }

  /** `xs.slice(0, end)`: an `end` past the length stops at the length; a negative one counts back from it. */
  function SliceTo<T>(xs: seq<T>, end: int): (r: seq<T>)
    ensures 0 <= end ==> |r| == if end < |xs| then end else |xs|
    ensures end < 0 ==> |r| == if |xs| + end < 0 then 0 else |xs| + end
    ensures |r| <= |xs| && r == xs[..|r|]
  {
    if end < 0 then (if |xs| + end < 0 then [] else xs[..|xs| + end])
    else if end < |xs| then xs[..end]
    else xs
  }

  /** An element of a list without repeats occurs in it at most once. */
  lemma {:induction false} DistinctCount<T>(xs: seq<T>, x: T)
    requires Distinct(xs)
    ensures multiset(xs)[x] <= 1
  {
    if xs != [] {
      var init, last := xs[..|xs| - 1], xs[|xs| - 1];
      assert xs == init + [last];
      DistinctCount(init, x);
      if x == last {
        assert x !in init;
      }
    }
  }

  /** A permutation of a list without repeats has none either. */
  lemma DistinctPermutation<T>(xs: seq<T>, ys: seq<T>)
    requires Distinct(xs) && multiset(xs) == multiset(ys)
    ensures Distinct(ys)
  {
    forall i, j | 0 <= i < j < |ys| ensures ys[i] != ys[j] {
      if ys[i] == ys[j] {
        assert multiset(ys)[ys[i]] >= 2 by {
          assert ys == ys[..i] + [ys[i]] + ys[i + 1..j] + [ys[j]] + ys[j + 1..];
        }
        DistinctCount(xs, ys[i]);
      }
    }
  }

  /** `xs.slice(from, to)` for non-negative bounds: the elements from index `from` up to, not including, `to`. */
  function SliceRange<T>(xs: seq<T>, from: nat, to: nat): (r: seq<T>)
    ensures |r| == if |xs| <= from || to <= from then 0 else (if to < |xs| then to else |xs|) - from
    ensures forall k :: 0 <= k < |r| ==> r[k] == xs[from + k]
  {
    if |xs| <= from || to <= from then []
    else xs[from..if to < |xs| then to else |xs|]
  }
}
