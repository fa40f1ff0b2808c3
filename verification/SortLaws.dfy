/** What sorting a vector guarantees: for any answers of the comparison function, and for sensible ones. */
module SortLaws {
  import opened Wrappers
  import opened SortArray

  // ----- whatever the comparison function answers

  lemma {:induction false} MergePermutes<T(!new)>(ask: Comparator<T>, n: nat, a: seq<T>, b: seq<T>)
    requires Merge(ask, n, a, b).Some?
    ensures var r := Merge(ask, n, a, b).value;
            multiset(r.items) == multiset(a) + multiset(b) && n <= r.calls <= n + |a| + |b|
    decreases |a| + |b|
  {
    if a != [] && b != [] {
      if ask(n, a[0], b[0]) == Swap {
        MergePermutes(ask, n + 1, a, b[1..]);
        assert b == [b[0]] + b[1..];
      } else {
        MergePermutes(ask, n + 1, a[1..], b);
        assert a == [a[0]] + a[1..];
      }
    }
  }

  lemma TakeDrop<T>(s: seq<T>, h: nat)
    ensures s == Take(s, h) + Take(Drop(s, h), h) + Drop(s, 2 * h)
  {
  }

  lemma {:induction false} PassPermutes<T(!new)>(ask: Comparator<T>, n: nat, s: seq<T>, h: nat)
    requires h > 0 && Pass(ask, n, s, h).Some?
    ensures var r := Pass(ask, n, s, h).value; multiset(r.items) == multiset(s) && n <= r.calls <= n + |s|
    decreases |s|
  {
    if s != [] {
      hide Merge, Take, Drop;
      var a, b := Take(s, h), Take(Drop(s, h), h);
      var m := Merge(ask, n, a, b).value;
      MergePermutes(ask, n, a, b);
      TakeDrop(s, h);
      assert |Drop(s, 2 * h)| < |s| by { DropShorter(s, 2 * h); }
      PassPermutes(ask, m.calls, Drop(s, 2 * h), h);
    }
  }

  lemma DropShorter<T>(s: seq<T>, h: nat)
    requires s != [] && h > 0
    ensures |Drop(s, h)| < |s|
  {
  }

  /** The number of passes over n elements that start with runs of h. */
  function Passes(h: nat, n: nat): nat
    requires h > 0
    decreases n - h
  {
    if h >= n then 0 else 1 + Passes(2 * h, n)
  }

  function Pow2(k: nat): (p: nat)
    ensures p > 0
  {
    if k == 0 then 1 else 2 * Pow2(k - 1)
  }

  /** The number of passes is the logarithm, rounded up. */
  lemma {:induction false} PassesBound(h: nat, n: nat, k: nat)
    requires h > 0 && h * Pow2(k) >= n
    ensures Passes(h, n) <= k
    decreases k
  {
    if h < n {
      assert k > 0;
      assert 2 * h * Pow2(k - 1) == h * Pow2(k);
      PassesBound(2 * h, n, k - 1);
    }
  }

  lemma {:induction false} SortingPermutes<T(!new)>(ask: Comparator<T>, n: nat, s: seq<T>, h: nat)
    requires h > 0 && Sorting(ask, n, s, h).Some?
    ensures var r := Sorting(ask, n, s, h).value;
            multiset(r.items) == multiset(s) && n <= r.calls <= n + MostCalls(|s|, h)
    decreases |s| - h
  {
    if h < |s| {
      hide Pass, MostCalls;
      var p := Pass(ask, n, s, h).value;
      PassPermutes(ask, n, s, h);
      SortingPermutes(ask, p.calls, p.items, 2 * h);
      OnePass(|s|, h);
    }
  }

  /** Nothing is lost or doubled, and there are at most n times the rounded-up logarithm of n calls. */
  lemma AnyAnswers<T(!new)>(ask: Comparator<T>, s: seq<T>, k: nat)
    requires Sorting(ask, 0, s, 1).Some? && Pow2(k) >= |s|
    ensures var r := Sorting(ask, 0, s, 1).value; multiset(r.items) == multiset(s) && r.calls <= |s| * k
  {
    SortingPermutes(ask, 0, s, 1);
    PassesBound(1, |s|, k);
    Times(|s|, Passes(1, |s|), k);
  }

  /** One call for each element and pass. */
  function MostCalls(size: nat, h: nat): nat
    requires h > 0
  {
    size * Passes(h, size)
  }

  lemma OnePass(size: nat, h: nat)
    requires 0 < h < size
    ensures MostCalls(size, h) == size + MostCalls(size, 2 * h)
  {
    var k := Passes(2 * h, size);
    assert size * (1 + k) == size + size * k;
  }

  lemma Times(a: nat, b: nat, c: nat)
    requires b <= c
    ensures a * b <= a * c
  {
  }

  // ----- the comparison function is a total preorder

  ghost predicate Le<T>(ask: Comparator<T>, x: T, y: T) {
    ask(0, x, y) == Keep
  }

  /** The same answer every time, and by it a total preorder. */
  ghost predicate Preorder<T(!new)>(ask: Comparator<T>) {
    && (forall n: nat, x, y :: ask(n, x, y) == if Le(ask, x, y) then Keep else Swap)
    && (forall x, y :: Le(ask, x, y) || Le(ask, y, x))
    && forall x, y, z :: Le(ask, x, y) && Le(ask, y, z) ==> Le(ask, x, z)
  }

  ghost predicate Sorted<T>(ask: Comparator<T>, s: seq<T>) {
    forall i, j :: 0 <= i < j < |s| ==> Le(ask, s[i], s[j])
  }

  /** The elements equivalent to `x`, in their order. */
  ghost function Class<T>(ask: Comparator<T>, s: seq<T>, x: T): seq<T> {
    if s == [] then []
    else (if Le(ask, s[0], x) && Le(ask, x, s[0]) then [s[0]] else []) + Class(ask, s[1..], x)
  }

  lemma {:induction false} ClassOfSum<T(!new)>(ask: Comparator<T>, a: seq<T>, b: seq<T>, x: T)
    ensures Class(ask, a + b, x) == Class(ask, a, x) + Class(ask, b, x)
  {
    if a == [] {
      assert a + b == b;
    } else {
      assert (a + b)[1..] == a[1..] + b;
      ClassOfSum(ask, a[1..], b, x);
    }
  }

  lemma {:induction false} NoneAlike<T(!new)>(ask: Comparator<T>, s: seq<T>, x: T)
    requires forall i :: 0 <= i < |s| ==> !Le(ask, s[i], x)
    ensures Class(ask, s, x) == []
  {
    if s != [] {
      assert forall i :: 0 <= i < |s| - 1 ==> s[1..][i] == s[i + 1];
      NoneAlike(ask, s[1..], x);
    }
  }

  /** An element in front of a sorted vector which is no higher than any of it. */
  lemma InFront<T(!new)>(ask: Comparator<T>, x: T, s: seq<T>)
    requires Sorted(ask, s) && forall y :: y in s ==> Le(ask, x, y)
    ensures Sorted(ask, [x] + s)
  {
    var t := [x] + s;
    forall i, j | 0 <= i < j < |t|
      ensures Le(ask, t[i], t[j])
    {
      assert t[j] == s[j - 1] && s[j - 1] in s;
    }
  }

  lemma Tail<T(!new)>(ask: Comparator<T>, s: seq<T>)
    requires Sorted(ask, s) && s != []
    ensures Sorted(ask, s[1..]) && forall y :: y in s[1..] ==> Le(ask, s[0], y)
  {
  }

  /** Merging sorted runs sorts them and takes alike elements from the first run first. */
  lemma {:induction false} MergeSorts<T(!new)>(ask: Comparator<T>, n: nat, a: seq<T>, b: seq<T>, x: T)
    requires Preorder(ask) && Sorted(ask, a) && Sorted(ask, b)
    ensures var m := Merge(ask, n, a, b);
            m.Some? && Sorted(ask, m.value.items) && Class(ask, m.value.items, x) == Class(ask, a, x) + Class(ask, b, x)
    decreases |a| + |b|
  {
    if a == [] || b == [] {
      assert a + b == if a == [] then b else a;
      ClassOfSum(ask, a, b, x);
    } else if ask(n, a[0], b[0]) == Swap {
      MergeSorts(ask, n + 1, a, b[1..], x) by { Tail(ask, b); }
      TakeSecond(ask, n, a, b, Merge(ask, n + 1, a, b[1..]).value, x);
    } else {
      MergeSorts(ask, n + 1, a[1..], b, x) by { Tail(ask, a); }
      TakeFirst(ask, n, a, b, Merge(ask, n + 1, a[1..], b).value, x);
    }
  }

  lemma TakeSecond<T(!new)>(ask: Comparator<T>, n: nat, a: seq<T>, b: seq<T>, r: Outcome<T>, x: T)
    requires Preorder(ask) && Sorted(ask, a) && Sorted(ask, b) && a != [] && b != [] && !Le(ask, a[0], b[0])
    requires Merge(ask, n + 1, a, b[1..]) == Some(r) && Sorted(ask, r.items)
    requires Class(ask, r.items, x) == Class(ask, a, x) + Class(ask, b[1..], x)
    ensures Sorted(ask, [b[0]] + r.items) && Class(ask, [b[0]] + r.items, x) == Class(ask, a, x) + Class(ask, b, x)
  {
    hide Merge, Class;
    MergePermutes(ask, n + 1, a, b[1..]);
    Tail(ask, a);
    Tail(ask, b);
    forall y | y in r.items
      ensures Le(ask, b[0], y)
    {
      InEither(r.items, a, b[1..], y);
      assert y in a ==> Le(ask, a[0], y);
    }
    InFront(ask, b[0], r.items);
    SecondAlike(ask, a, b, r.items, x);
  }

  lemma InEither<T>(c: seq<T>, a: seq<T>, b: seq<T>, y: T)
    requires multiset(c) == multiset(a) + multiset(b) && y in c
    ensures y in a || y in b
  {
    assert y in multiset(c);
  }

  lemma SecondAlike<T(!new)>(ask: Comparator<T>, a: seq<T>, b: seq<T>, c: seq<T>, x: T)
    requires Preorder(ask) && Sorted(ask, a) && a != [] && b != [] && !Le(ask, a[0], b[0])
    requires Class(ask, c, x) == Class(ask, a, x) + Class(ask, b[1..], x)
    ensures Class(ask, [b[0]] + c, x) == Class(ask, a, x) + Class(ask, b, x)
  {
    hide Class, Preorder;
    ClassInFront(ask, b[0], c, x);
    ClassInFront(ask, b[0], b[1..], x);
    assert b == [b[0]] + b[1..];
    if Le(ask, b[0], x) && Le(ask, x, b[0]) {
      forall i | 0 <= i < |a|
        ensures !Le(ask, a[i], x)
      {
        HigherStays(ask, a, b[0], x, i);
      }
      NoneAlike(ask, a, x);
    }
  }

  lemma HigherStays<T(!new)>(ask: Comparator<T>, a: seq<T>, y: T, x: T, i: nat)
    requires Preorder(ask) && Sorted(ask, a) && i < |a| && !Le(ask, a[0], y) && Le(ask, x, y)
    ensures !Le(ask, a[i], x)
  {
    assert i > 0 ==> Le(ask, a[0], a[i]);
    assert !Le(ask, a[i], y);
  }

  lemma ClassInFront<T>(ask: Comparator<T>, y: T, s: seq<T>, x: T)
    ensures Class(ask, [y] + s, x) == (if Le(ask, y, x) && Le(ask, x, y) then [y] else []) + Class(ask, s, x)
  {
    assert ([y] + s)[1..] == s;
  }

  lemma TakeFirst<T(!new)>(ask: Comparator<T>, n: nat, a: seq<T>, b: seq<T>, r: Outcome<T>, x: T)
    requires Preorder(ask) && Sorted(ask, a) && Sorted(ask, b) && a != [] && b != [] && Le(ask, a[0], b[0])
    requires Merge(ask, n + 1, a[1..], b) == Some(r) && Sorted(ask, r.items)
    requires Class(ask, r.items, x) == Class(ask, a[1..], x) + Class(ask, b, x)
    ensures Sorted(ask, [a[0]] + r.items) && Class(ask, [a[0]] + r.items, x) == Class(ask, a, x) + Class(ask, b, x)
  {
    hide Merge, Class;
    MergePermutes(ask, n + 1, a[1..], b);
    Tail(ask, a);
    Tail(ask, b);
    forall y | y in r.items
      ensures Le(ask, a[0], y)
    {
      InEither(r.items, a[1..], b, y);
      assert y in b ==> Le(ask, b[0], y);
    }
    InFront(ask, a[0], r.items);
    ClassInFront(ask, a[0], r.items, x);
    ClassInFront(ask, a[0], a[1..], x);
    assert a == [a[0]] + a[1..];
  }

  /** Each run of `h` elements is sorted. */
  ghost predicate RunsSorted<T(!new)>(ask: Comparator<T>, s: seq<T>, h: nat)
    requires h > 0
    decreases |s|
  {
    s == [] || (Sorted(ask, Take(s, h)) && RunsSorted(ask, Drop(s, h), h))
  }

  lemma {:induction false} SingleRuns<T(!new)>(ask: Comparator<T>, s: seq<T>)
    ensures RunsSorted(ask, s, 1)
    decreases |s|
  {
    if s != [] {
      SingleRuns(ask, Drop(s, 1));
    }
  }

  /** A pass over sorted runs leaves sorted runs of twice the length, and alike elements in their order. */
  lemma {:induction false} PassSorts<T(!new)>(ask: Comparator<T>, n: nat, s: seq<T>, h: nat, x: T)
    requires h > 0 && Preorder(ask) && RunsSorted(ask, s, h)
    ensures var p := Pass(ask, n, s, h);
            p.Some? && RunsSorted(ask, p.value.items, 2 * h) && Class(ask, p.value.items, x) == Class(ask, s, x)
    decreases |s|
  {
    if s != [] {
      hide Merge, Preorder, Class;
      var a, b, rest := Take(s, h), Take(Drop(s, h), h), Drop(s, 2 * h);
      TwoRuns(ask, s, h);
      MergeSorts(ask, n, a, b, x);
      var m := Merge(ask, n, a, b).value;
      PassSorts(ask, m.calls, rest, h, x);
      var p := Pass(ask, m.calls, rest, h).value;
      RunInFront(ask, m.items, p.items, 2 * h, |s|);
      ClassOfSum(ask, m.items, p.items, x);
      ClassOfSum(ask, a, b, x);
      ClassOfSum(ask, a + b, rest, x);
      TakeDrop(s, h);
    }
  }

  lemma TwoRuns<T(!new)>(ask: Comparator<T>, s: seq<T>, h: nat)
    requires h > 0 && RunsSorted(ask, s, h) && s != []
    ensures Sorted(ask, Take(s, h)) && Sorted(ask, Take(Drop(s, h), h)) && RunsSorted(ask, Drop(s, 2 * h), h)
    ensures |Drop(s, 2 * h)| < |s| && |Take(s, h)| + |Take(Drop(s, h), h)| == Min(2 * h, |s|)
  {
    assert Drop(Drop(s, h), h) == Drop(s, 2 * h);
  }

  lemma RunInFront<T(!new)>(ask: Comparator<T>, c: seq<T>, d: seq<T>, h: nat, size: nat)
    requires h > 0 && Sorted(ask, c) && RunsSorted(ask, d, h) && |c| == Min(h, size) && |c| + |d| == size
    ensures RunsSorted(ask, c + d, h)
  {
    if h < size {
      assert Take(c + d, h) == c && Drop(c + d, h) == d;
    } else {
      assert c + d == c;
      assert Take(c, h) == c && Drop(c, h) == [];
    }
  }

  lemma {:induction false} SortingSorts<T(!new)>(ask: Comparator<T>, n: nat, s: seq<T>, h: nat, x: T)
    requires h > 0 && Preorder(ask) && RunsSorted(ask, s, h)
    ensures var r := Sorting(ask, n, s, h);
            r.Some? && Sorted(ask, r.value.items) && Class(ask, r.value.items, x) == Class(ask, s, x)
    decreases |s| - h
  {
    hide Pass, Preorder, Class;
    if h < |s| {
      PassSorts(ask, n, s, h, x);
      var p := Pass(ask, n, s, h).value;
      SortingSorts(ask, p.calls, p.items, 2 * h, x);
    } else {
      assert Take(s, h) == s;
    }
  }

  /** By a total preorder the vector is sorted, and elements that are alike keep their order. */
  lemma SortedAndStable<T(!new)>(ask: Comparator<T>, s: seq<T>)
    requires Preorder(ask)
    ensures var r := Sorting(ask, 0, s, 1);
            r.Some? && Sorted(ask, r.value.items) && forall x :: Class(ask, r.value.items, x) == Class(ask, s, x)
  {
    SingleRuns(ask, s);
    if s == [] {
      assert Sorting(ask, 0, s, 1).value.items == [];
    } else {
      SortingSorts(ask, 0, s, 1, s[0]);
    }
    forall x
      ensures Class(ask, Sorting(ask, 0, s, 1).value.items, x) == Class(ask, s, x)
    {
      SortingSorts(ask, 0, s, 1, x);
    }
  }
}
