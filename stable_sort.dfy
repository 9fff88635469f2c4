/**
 * `Array.prototype.sort` with a comparator that compares one key per element.
 * The sort is stable (ECMAScript 2019 and later), so it is modelled by an
 * insertion sort that places each element after the earlier ones it ties with.
 */
module StableSort {

  import opened JsText
  import opened Lists

  /** The value a comparator looks at: a number, or a string compared in code-point order. */
  datatype SortKey = Num(n: real) | Text(s: string)

  datatype Direction = Asc | Desc

  /** A strict total order on keys; numbers come before strings, a case no comparator here meets. */
  predicate KeyLess(a: SortKey, b: SortKey) {
    match (a, b)
    case (Num(x), Num(y)) => x < y
    case (Text(x), Text(y)) => StrLess(x, y)
    case (Num(_), Text(_)) => true
    case (Text(_), Num(_)) => false
  }

  lemma KeyLessIrreflexive(a: SortKey)
    ensures !KeyLess(a, a)
  {
    if a.Text? {
      StrLessIrreflexive(a.s);
    }
  }

  lemma KeyLessTransitive(a: SortKey, b: SortKey, c: SortKey)
    requires KeyLess(a, b) && KeyLess(b, c)
    ensures KeyLess(a, c)
  {
    if a.Text? && b.Text? && c.Text? {
      StrLessTransitive(a.s, b.s, c.s);
    }
  }

  lemma KeyLessTotal(a: SortKey, b: SortKey)
    ensures a == b || KeyLess(a, b) || KeyLess(b, a)
  {
    if a.Text? && b.Text? {
      StrLessTotal(a.s, b.s);
    }
  }

  /** The comparator returns a negative number for `a`, `b`: `a` must come first. */
  predicate Precedes(dir: Direction, a: SortKey, b: SortKey) {
    if dir == Asc then KeyLess(a, b) else KeyLess(b, a)
  }

  lemma PrecedesOrder(dir: Direction)
    ensures forall a :: !Precedes(dir, a, a)
    ensures forall a, b, c :: Precedes(dir, a, b) && Precedes(dir, b, c) ==> Precedes(dir, a, c)
    ensures forall a, b :: a == b || Precedes(dir, a, b) || Precedes(dir, b, a)
  {
    forall a {
      KeyLessIrreflexive(a);
    }
    forall a, b, c | Precedes(dir, a, b) && Precedes(dir, b, c)
      ensures Precedes(dir, a, c)
    {
      if dir == Asc {
        KeyLessTransitive(a, b, c);
      } else {
        KeyLessTransitive(c, b, a);
      }
    }
    forall a, b {
      KeyLessTotal(a, b);
    }
  }

  /** No element is placed after one it must precede. */
  predicate Sorted<T>(ys: seq<T>, key: T -> SortKey, dir: Direction) {
    forall i, j :: 0 <= i < j < |ys| ==> !Precedes(dir, key(ys[j]), key(ys[i]))
  }

  /** `[y]` when `y` carries the key `k`, nothing otherwise. */
  function Pick<T>(y: T, key: T -> SortKey, k: SortKey): seq<T> {
    if key(y) == k then [y] else []
  }

  /** The elements whose key is `k`, in order. */
  function WithKey<T>(xs: seq<T>, key: T -> SortKey, k: SortKey): seq<T> {
    if xs == [] then []
    else Pick(xs[0], key, k) + WithKey(xs[1..], key, k)
  }

  /** Places `x` before the first element it must precede, so after every element it ties with. */
  function Insert<T>(x: T, sorted: seq<T>, key: T -> SortKey, dir: Direction): seq<T> {
    if sorted == [] then [x]
    else if Precedes(dir, key(x), key(sorted[0])) then [x] + sorted
    else [sorted[0]] + Insert(x, sorted[1..], key, dir)
  }

  /** `xs.slice().sort(comparator)`. */
  function SortBy<T>(xs: seq<T>, key: T -> SortKey, dir: Direction): seq<T> {
    if xs == [] then []
    else Insert(xs[|xs| - 1], SortBy(xs[..|xs| - 1], key, dir), key, dir)
  }

  lemma {:induction false} WithKeyAppend<T>(a: seq<T>, b: seq<T>, key: T -> SortKey, k: SortKey)
    ensures WithKey(a + b, key, k) == WithKey(a, key, k) + WithKey(b, key, k)
  {
    if a != [] {
      assert (a + b)[1..] == a[1..] + b;
      WithKeyAppend(a[1..], b, key, k);
      assert WithKey(a + b, key, k) == Pick(a[0], key, k) + WithKey(a[1..] + b, key, k);
    } else {
      assert a + b == b;
    }
  }

  lemma {:induction false} InsertMultiset<T>(x: T, s: seq<T>, key: T -> SortKey, dir: Direction)
    ensures multiset(Insert(x, s, key, dir)) == multiset(s) + multiset{x}
  {
    if s != [] && !Precedes(dir, key(x), key(s[0])) {
      InsertMultiset(x, s[1..], key, dir);
      assert s == [s[0]] + s[1..];
    }
  }

  lemma {:induction false} InsertSorted<T>(x: T, s: seq<T>, key: T -> SortKey, dir: Direction)
    requires Sorted(s, key, dir)
    ensures Sorted(Insert(x, s, key, dir), key, dir)
  {
    PrecedesOrder(dir);
    if s == [] {
    } else if Precedes(dir, key(x), key(s[0])) {
      assert forall j :: 0 <= j < |s| ==> !Precedes(dir, key(s[j]), key(x)) by {
        forall j | 0 <= j < |s| ensures !Precedes(dir, key(s[j]), key(x)) {
          if 0 < j {
            assert !Precedes(dir, key(s[j]), key(s[0]));
          }
        }
      }
    } else {
      var r := Insert(x, s[1..], key, dir);
      InsertSorted(x, s[1..], key, dir);
      InsertMultiset(x, s[1..], key, dir);
      forall y | y in r ensures !Precedes(dir, key(y), key(s[0])) {
        assert y in multiset(r);
        if y != x {
          assert y in s[1..];
        }
      }
    }
  }

  lemma WithKeyCons<T>(y: T, r: seq<T>, key: T -> SortKey, k: SortKey)
    ensures WithKey([y] + r, key, k) == Pick(y, key, k) + WithKey(r, key, k)
  {
    assert ([y] + r)[1..] == r;
  }

  lemma SortedTail<T>(s: seq<T>, key: T -> SortKey, dir: Direction)
    requires Sorted(s, key, dir) && s != []
    ensures Sorted(s[1..], key, dir)
  {
    forall i, j | 0 <= i < j < |s| - 1 ensures !Precedes(dir, key(s[1..][j]), key(s[1..][i])) {
      assert s[1..][j] == s[j + 1] && s[1..][i] == s[i + 1];
    }
  }

  /** Inserting adds `x` after every element that carries its key. */
  lemma {:induction false} InsertWithKey<T>(x: T, s: seq<T>, key: T -> SortKey, dir: Direction, k: SortKey)
    requires Sorted(s, key, dir)
    ensures WithKey(Insert(x, s, key, dir), key, k) == WithKey(s, key, k) + Pick(x, key, k)
  {
    if s == [] {
      WithKeyCons(x, [], key, k);
    } else if Precedes(dir, key(x), key(s[0])) {
      InsertWithKeyFront(x, s, key, dir, k);
    } else {
      SortedTail(s, key, dir);
      InsertWithKey(x, s[1..], key, dir, k);
      WithKeyCons(s[0], Insert(x, s[1..], key, dir), key, k);
    }
  }

  lemma InsertWithKeyFront<T>(x: T, s: seq<T>, key: T -> SortKey, dir: Direction, k: SortKey)
    requires Sorted(s, key, dir) && s != [] && Precedes(dir, key(x), key(s[0]))
    ensures WithKey([x] + s, key, k) == WithKey(s, key, k) + Pick(x, key, k)
  {
    if key(x) == k {
      NoneWithKey(s, key, dir, k);
    }
    WithKeyCons(x, s, key, k);
  }

  /** In a sorted sequence whose head some key must precede, no element carries that key. */
  lemma NoneWithKey<T>(s: seq<T>, key: T -> SortKey, dir: Direction, k: SortKey)
    requires Sorted(s, key, dir) && s != [] && Precedes(dir, k, key(s[0]))
    ensures WithKey(s, key, k) == []
  {
    PrecedesOrder(dir);
    forall j | 0 <= j < |s| ensures key(s[j]) != k {
      if 0 < j {
        assert !Precedes(dir, key(s[j]), key(s[0]));
      }
    }
    NoneWithKeyOf(s, key, k);
  }

  lemma {:induction false} NoneWithKeyOf<T>(s: seq<T>, key: T -> SortKey, k: SortKey)
    requires forall j :: 0 <= j < |s| ==> key(s[j]) != k
    ensures WithKey(s, key, k) == []
  {
    if s != [] {
      NoneWithKeyOf(s[1..], key, k);
    }
  }

  /**
   * The sort is a stable sort: it returns a permutation of its input, in
   * order, and elements with equal keys keep their relative order.
   */
  lemma {:induction false} SortByCorrect<T>(xs: seq<T>, key: T -> SortKey, dir: Direction)
    ensures multiset(SortBy(xs, key, dir)) == multiset(xs)
    ensures Sorted(SortBy(xs, key, dir), key, dir)
    ensures forall k :: WithKey(SortBy(xs, key, dir), key, k) == WithKey(xs, key, k)
  {
    if xs != [] {
      var init, last := xs[..|xs| - 1], xs[|xs| - 1];
      assert xs == init + [last];
      SortByCorrect(init, key, dir);
      InsertMultiset(last, SortBy(init, key, dir), key, dir);
      InsertSorted(last, SortBy(init, key, dir), key, dir);
      forall k ensures WithKey(SortBy(xs, key, dir), key, k) == WithKey(xs, key, k) {
        InsertWithKey(last, SortBy(init, key, dir), key, dir, k);
        WithKeyAppend(init, [last], key, k);
      }
    }
  }

  /** Sorting keeps the length. */
  lemma SortByLength<T>(xs: seq<T>, key: T -> SortKey, dir: Direction)
    ensures |SortBy(xs, key, dir)| == |xs|
  {
    SortByCorrect(xs, key, dir);
    assert |multiset(SortBy(xs, key, dir))| == |multiset(xs)|;
  }

  lemma {:induction false} InsertMap<T, U>(x: T, s: seq<T>, key: T -> SortKey, dir: Direction, f: T -> U)
    ensures multiset(MapSeq(Insert(x, s, key, dir), f)) == multiset(MapSeq(s, f)) + multiset{f(x)}
  {
    if s == [] {
      MapCons(x, [], f);
      assert [x] + [] == [x];
    } else if Precedes(dir, key(x), key(s[0])) {
      MapCons(x, s, f);
    } else {
      var rest := Insert(x, s[1..], key, dir);
      InsertMap(x, s[1..], key, dir, f);
      MapCons(s[0], rest, f);
      MapCons(s[0], s[1..], f);
      assert s == [s[0]] + s[1..];
    }
  }

  lemma MapCons<T, U>(y: T, r: seq<T>, f: T -> U)
    ensures MapSeq([y] + r, f) == [f(y)] + MapSeq(r, f)
  {
    assert forall k :: 0 < k <= |r| ==> ([y] + r)[k] == r[k - 1];
  }

  /** Sorting permutes every projection of the elements too. */
  lemma {:induction false} SortByMap<T, U>(xs: seq<T>, key: T -> SortKey, dir: Direction, f: T -> U)
    ensures multiset(MapSeq(SortBy(xs, key, dir), f)) == multiset(MapSeq(xs, f))
  {
    if xs != [] {
      var init := xs[..|xs| - 1];
      SortByMap(init, key, dir, f);
      InsertMap(xs[|xs| - 1], SortBy(init, key, dir), key, dir, f);
      assert MapSeq(xs, f) == MapSeq(init, f) + [f(xs[|xs| - 1])];
    }
  }

  lemma {:induction false} InsertSum<T>(x: T, s: seq<T>, key: T -> SortKey, dir: Direction, m: T -> real)
    ensures SumOf(Insert(x, s, key, dir), m) == SumOf(s, m) + m(x)
  {
    if s == [] {
      SumOfCons(x, [], m);
    } else if Precedes(dir, key(x), key(s[0])) {
      SumOfCons(x, s, m);
    } else {
      InsertSum(x, s[1..], key, dir, m);
      SumOfCons(s[0], Insert(x, s[1..], key, dir), m);
      SumOfCons(s[0], s[1..], m);
      assert s == [s[0]] + s[1..];
    }
  }

  /** Sorting keeps every sum over the elements. */
  lemma {:induction false} SortBySum<T>(xs: seq<T>, key: T -> SortKey, dir: Direction, m: T -> real)
    ensures SumOf(SortBy(xs, key, dir), m) == SumOf(xs, m)
  {
    if xs != [] {
      var init := xs[..|xs| - 1];
      SortBySum(init, key, dir, m);
      InsertSum(xs[|xs| - 1], SortBy(init, key, dir), key, dir, m);
    }
  }

  /** Leaving elements out of a sorted list keeps it sorted. */
  lemma {:induction false} FilterSorted<T>(xs: seq<T>, p: T -> bool, key: T -> SortKey, dir: Direction)
    requires Sorted(xs, key, dir)
    ensures Sorted(Filter(xs, p), key, dir)
  {
    if xs != [] {
      var init, last := xs[..|xs| - 1], xs[|xs| - 1];
      assert Sorted(init, key, dir);
      FilterSorted(init, p, key, dir);
      var f := Filter(xs, p);
      if p(last) {
        assert f == Filter(init, p) + [last];
        forall i | 0 <= i < |f| - 1 ensures !Precedes(dir, key(last), key(f[i])) {
          assert f[i] == Filter(init, p)[i];
          FilterElement(init, p, i);
          var k :| 0 <= k < |init| && init[k] == f[i];
          assert xs[k] == f[i];
        }
      } else {
        assert f == Filter(init, p);
      }
    }
  }
}
