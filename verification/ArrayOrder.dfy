/** Ordering a vector: small vectors by selection, larger ones by a heap in which holes are left. */
module ArrayOrder {
  import opened LookupKey

  /** The indices of all elements, once each. */
  ghost predicate Permutation(s: seq<int>, n: nat) {
    && |s| == n
    && (forall i :: 0 <= i < n ==> 0 <= s[i] < n)
    && forall i, j :: 0 <= i < j < n ==> s[i] != s[j]
  }

  /** The elements named by `s` come from high to low. */
  ghost predicate Descending(v: seq<Svalue>, s: seq<int>) {
    && (forall i :: 0 <= i < |s| ==> 0 <= s[i] < |v|)
    && forall i, j :: 0 <= i < j < |s| ==> SvalueCmp(v[s[i]], v[s[j]]) >= 0
  }

  // ----- up to six elements

  /** The first `start` elements are in their places. */
  ghost predicate Settled(v: seq<Svalue>, s: seq<int>, start: nat) {
    && Permutation(s, |v|)
    && forall i, j :: 0 <= i < start && i < j < |s| ==> SvalueCmp(v[s[i]], v[s[j]]) >= 0
  }

  /** The position of the highest of the remaining elements. */
  method HighestFrom(v: seq<Svalue>, sorted: array<int>, start: nat) returns (maxIdx: nat)
    requires start < |v| && Permutation(sorted[..], |v|)
    ensures start <= maxIdx < |v| && forall j :: start <= j < |v| ==> SvalueCmp(v[sorted[maxIdx]], v[sorted[j]]) >= 0
  {
    maxIdx := start;
    var max := v[sorted[..][start]];
    var testIdx := start + 1;
    while testIdx < |v|
      invariant start <= maxIdx < testIdx <= |v| && max == v[sorted[..][maxIdx]]
      invariant forall j :: start <= j < testIdx ==> SvalueCmp(max, v[sorted[..][j]]) >= 0
    {
      var test := v[sorted[..][testIdx]];
      if SvalueCmp(max, test) < 0 {
        maxIdx, max := testIdx, test;
      }
      testIdx := testIdx + 1;
    }
    assert forall j :: 0 <= j < |v| ==> sorted[..][j] == sorted[j];
  }

  function Swapped(s: seq<int>, i: nat, j: nat): seq<int>
    requires i < |s| && j < |s|
  {
    s[i := s[j]][j := s[i]]
  }

  lemma SettleNext(v: seq<Svalue>, s: seq<int>, start: nat, maxIdx: nat)
    requires Settled(v, s, start) && start <= maxIdx < |v|
    requires forall j :: start <= j < |v| ==> SvalueCmp(v[s[maxIdx]], v[s[j]]) >= 0
    ensures Settled(v, Swapped(s, start, maxIdx), start + 1)
  {
    var t := Swapped(s, start, maxIdx);
    assert forall k :: 0 <= k < |s| ==> t[k] == s[if k == start then maxIdx else if k == maxIdx then start else k];
  }

  /** Put the highest of the remaining elements at the next position, again and again. */
  method SelectionOrder(v: seq<Svalue>) returns (sorted: array<int>)
    ensures fresh(sorted) && Permutation(sorted[..], |v|) && Descending(v, sorted[..])
  {
    hide SvalueCmp, Permutation, Descending, Settled;
    var n := |v|;
    sorted := new int[n](i => i);
    Identity(v, sorted[..]);
    var start := 0;
    while start < n - 1
      invariant 0 <= start && (n > 0 ==> start <= n - 1) && Settled(v, sorted[..], start)
    {
      SettleOne(v, sorted, start);
      start := start + 1;
    }
    AllSettled(v, sorted[..]);
  }

  /** Exchange the highest of the remaining elements with the first of them. */
  method SettleOne(v: seq<Svalue>, sorted: array<int>, start: nat)
    requires start < |v| && Settled(v, sorted[..], start)
    modifies sorted
    ensures Settled(v, sorted[..], start + 1)
  {
    ghost var was := sorted[..];
    SettledShape(v, was, start);
    hide SvalueCmp, Permutation, Settled;
    var maxIdx := HighestFrom(v, sorted, start);
    SettleNext(v, was, start, maxIdx);
    if maxIdx != start {
      sorted[maxIdx], sorted[start] := sorted[start], sorted[maxIdx];
    }
    assert sorted[..] == Swapped(was, start, maxIdx);
  }

  lemma SettledShape(v: seq<Svalue>, s: seq<int>, start: nat)
    requires Settled(v, s, start)
    ensures Permutation(s, |v|) && |s| == |v|
  {
  }

  lemma Identity(v: seq<Svalue>, s: seq<int>)
    requires |s| == |v| && forall i :: 0 <= i < |s| ==> s[i] == i
    ensures Settled(v, s, 0)
  {
  }

  lemma AllSettled(v: seq<Svalue>, s: seq<int>)
    requires Settled(v, s, if |v| == 0 then 0 else |v| - 1)
    ensures Permutation(s, |v|) && Descending(v, s)
  {
  }

  /** Two elements, and three, have code of their own. */
  method OrderThree(v: seq<Svalue>) returns (sorted: array<int>)
    requires |v| == 3
    ensures fresh(sorted) && Permutation(sorted[..], 3) && Descending(v, sorted[..])
  {
    hide Permutation, Descending;
    sorted := new int[3][0, 1, 2];
    if SvalueCmp(v[0], v[1]) < 0 {
      sorted[1], sorted[0] := 0, 1;
    }
    if SvalueCmp(v[sorted[0]], v[2]) < 0 {
      sorted[2], sorted[0] := sorted[0], sorted[2];
    }
    if SvalueCmp(v[sorted[1]], v[sorted[2]]) < 0 {
      sorted[2], sorted[1] := sorted[1], sorted[2];
    }
    assert sorted[..] == [sorted[0], sorted[1], sorted[2]];
    ThreeDescend(v, sorted[..]);
  }

  lemma ThreeDescend(v: seq<Svalue>, s: seq<int>)
    requires |v| == |s| == 3 && (forall i :: 0 <= i < 3 ==> 0 <= s[i] < 3) && s[0] != s[1] && s[0] != s[2] && s[1] != s[2]
    requires SvalueCmp(v[s[0]], v[s[1]]) >= 0 && SvalueCmp(v[s[1]], v[s[2]]) >= 0
    ensures Permutation(s, 3) && Descending(v, s)
  {
  }

  // ----- the heap

  const NONE := -1

  function Parent(i: nat): nat
    requires i > 0
  {
    (i - 1) / 2
  }

  /** A heap of indices in which the lowest value is at the top. */
  ghost predicate Heap(v: seq<Svalue>, h: seq<int>) {
    && (forall i :: 0 <= i < |h| ==> 0 <= h[i] < |v|)
    && forall i :: 0 < i < |h| ==> SvalueCmp(v[h[Parent(i)]], v[h[i]]) <= 0
  }

  /** A heap but for the place of its `cur`-th element, which may have to move up. */
  ghost predicate HeapBut(v: seq<Svalue>, h: seq<int>, cur: nat) {
    && cur < |h| && (forall i :: 0 <= i < |h| ==> 0 <= h[i] < |v|)
    && (forall i :: 0 < i < |h| && i != cur ==> SvalueCmp(v[h[Parent(i)]], v[h[i]]) <= 0)
    && forall i :: 0 < i < |h| && Parent(i) == cur && cur > 0 ==> SvalueCmp(v[h[Parent(cur)]], v[h[i]]) <= 0
  }

  lemma MoveUp(v: seq<Svalue>, h: seq<int>, cur: nat)
    requires HeapBut(v, h, cur) && cur > 0 && SvalueCmp(v[h[Parent(cur)]], v[h[cur]]) > 0
    ensures HeapBut(v, Swapped(h, cur, Parent(cur)), Parent(cur))
  {
    var p := Parent(cur);
    var g := Swapped(h, cur, p);
    assert forall k :: 0 <= k < |h| ==> g[k] == h[if k == cur then p else if k == p then cur else k];
    forall i | 0 < i < |g| && i != p
      ensures SvalueCmp(v[g[Parent(i)]], v[g[i]]) <= 0
    {
      if Parent(i) == p {
        assert i != cur ==> SvalueCmp(v[h[p]], v[h[i]]) <= 0;
      }
    }
    forall i | 0 < i < |g| && Parent(i) == p && p > 0
      ensures SvalueCmp(v[g[Parent(p)]], v[g[i]]) <= 0
    {
      assert SvalueCmp(v[h[Parent(p)]], v[h[p]]) <= 0;
      assert i != cur ==> SvalueCmp(v[h[p]], v[h[i]]) <= 0;
    }
  }

  lemma StayHere(v: seq<Svalue>, h: seq<int>, cur: nat)
    requires HeapBut(v, h, cur) && (cur > 0 ==> SvalueCmp(v[h[Parent(cur)]], v[h[cur]]) <= 0)
    ensures Heap(v, h)
  {
  }

  lemma SwapPermutes(s: seq<int>, n: nat, i: nat, j: nat)
    requires Permutation(s, n) && i < n && j < n
    ensures Permutation(Swapped(s, i, j), n)
  {
    var t := Swapped(s, i, j);
    assert forall k :: 0 <= k < n ==> t[k] == s[if k == i then j else if k == j then i else k];
  }

  /** Add the `m`-th element to the heap of those before it: move the higher parents down, and put it in their place. */
  method AddToHeap(v: seq<Svalue>, root: array<int>, m: nat)
    requires m < |v| && root.Length == 2 * |v| + 1 && Heap(v, root[1..m + 1]) && Permutation(root[1..m + 1], m)
    modifies root
    ensures Heap(v, root[1..m + 2]) && Permutation(root[1..m + 2], m + 1)
  {
    hide SvalueCmp, Heap, Permutation, Rising, Swapped;
    var curix := m + 1;
    ghost var h := root[1..m + 1] + [m];
    RiseStarts(v, root[..], root[1..m + 1], m);
    while curix / 2 != 0
      invariant 0 < curix <= m + 1 && Rising(v, root[..], h, curix - 1, m)
    {
      var parix := curix / 2;
      assert Parent(curix - 1) == parix - 1;
      RiseReads(v, root[..], h, curix - 1, m);
      if SvalueCmp(v[root[parix]], v[m]) > 0 {
        Rises(v, root[..], h, curix - 1, m);
        root[curix] := root[parix];
        h := Swapped(h, curix - 1, parix - 1);
        curix := parix;
      } else {
        break;
      }
    }
    RiseEnds(v, root[..], h, curix - 1, m);
    root[curix] := m;
  }

  /** `h` is the heap with the new element at `cur`; the array holds it but for that place. */
  ghost predicate Rising(v: seq<Svalue>, r: seq<int>, h: seq<int>, cur: nat, m: nat) {
    m < |v| && |h| == m + 1 && Agrees(r, h, cur) && h[cur] == m && HeapBut(v, h, cur) && Permutation(h, m + 1)
  }

  lemma RiseStarts(v: seq<Svalue>, r: seq<int>, h: seq<int>, m: nat)
    requires m + 1 < |r| && h == r[1..m + 1] && Heap(v, h) && Permutation(h, m) && m < |v|
    ensures Rising(v, r, h + [m], m, m)
  {
    AtEnd(v, h, h + [m], m);
  }

  lemma RiseReads(v: seq<Svalue>, r: seq<int>, h: seq<int>, cur: nat, m: nat)
    requires Rising(v, r, h, cur, m) && cur > 0
    ensures cur < |h| && r[Parent(cur) + 1] == h[Parent(cur)] && 0 <= r[Parent(cur) + 1] < |v|
  {
  }

  lemma Rises(v: seq<Svalue>, r: seq<int>, h: seq<int>, cur: nat, m: nat)
    requires Rising(v, r, h, cur, m) && cur > 0 && 0 <= r[Parent(cur) + 1] < |v| && SvalueCmp(v[r[Parent(cur) + 1]], v[m]) > 0
    ensures Rising(v, r[cur + 1 := r[Parent(cur) + 1]], Swapped(h, cur, Parent(cur)), Parent(cur), m)
  {
    hide SvalueCmp, Permutation, HeapBut;
    assert r[Parent(cur) + 1] == h[Parent(cur)];
    MoveUp(v, h, cur);
    SwapPermutes(h, m + 1, cur, Parent(cur));
    Pulls(r, h, cur, Parent(cur));
  }

  lemma RiseEnds(v: seq<Svalue>, r: seq<int>, h: seq<int>, cur: nat, m: nat)
    requires Rising(v, r, h, cur, m)
    requires cur > 0 ==> 0 <= r[Parent(cur) + 1] < |v| && SvalueCmp(v[r[Parent(cur) + 1]], v[m]) <= 0
    ensures Heap(v, r[cur + 1 := m][1..m + 2]) && Permutation(r[cur + 1 := m][1..m + 2], m + 1)
  {
    StayHere(v, h, cur);
    Fills(r, h, cur);
  }

  /** The array holds the heap `h` from index 1 on, but for the place that is still open. */
  ghost predicate Agrees(r: seq<int>, h: seq<int>, cur: nat) {
    cur < |h| < |r| && forall k :: 0 <= k < |h| && k != cur ==> r[k + 1] == h[k]
  }

  lemma Pulls(r: seq<int>, h: seq<int>, cur: nat, p: nat)
    requires Agrees(r, h, cur) && p < |h| && p != cur
    ensures Agrees(r[cur + 1 := r[p + 1]], Swapped(h, cur, p), p)
    ensures Swapped(h, cur, p)[p] == h[cur] && |Swapped(h, cur, p)| == |h|
  {
  }

  lemma Fills(r: seq<int>, h: seq<int>, cur: nat)
    requires Agrees(r, h, cur)
    ensures r[cur + 1 := h[cur]][1..|h| + 1] == h
  {
  }

  lemma AtEnd(v: seq<Svalue>, h: seq<int>, g: seq<int>, m: nat)
    requires Heap(v, h) && Permutation(h, m) && m < |v| && g == h + [m]
    ensures HeapBut(v, g, m) && Permutation(g, m + 1)
  {
  }

  // ----- taking elements off the heap leaves holes

  /** Holes have only holes below them, and live elements are in order. `cur` is a place that is about to be filled. */
  ghost predicate Holed(v: seq<Svalue>, h: seq<int>, cur: nat) {
    && (forall i :: 0 <= i < |h| ==> h[i] == NONE || 0 <= h[i] < |v|)
    && (forall i :: 0 < i < |h| && i != cur && Parent(i) != cur && h[i] != NONE ==>
          h[Parent(i)] != NONE && SvalueCmp(v[h[Parent(i)]], v[h[i]]) <= 0)
    && forall i :: 0 < i < |h| && Parent(i) == cur && cur > 0 && h[i] != NONE ==>
          h[Parent(cur)] != NONE && SvalueCmp(v[h[Parent(cur)]], v[h[i]]) <= 0
  }

  /** Every index has been taken or is in the heap, once; what `cur` holds does not count. */
  ghost predicate Shared(h: seq<int>, cur: nat, out: seq<int>, n: nat) {
    && (forall i, j :: 0 <= i < j < |h| && i != cur && j != cur && h[i] != NONE ==> h[i] != h[j])
    && (forall i :: 0 <= i < |h| && i != cur && h[i] != NONE ==> h[i] !in out)
    && (forall i, j :: 0 <= i < j < |out| ==> out[i] != out[j])
    && (forall i :: 0 <= i < |out| ==> 0 <= out[i] < n)
    && forall x :: 0 <= x < n ==> x in out || Has(h, cur, x)
  }

  ghost predicate Has(h: seq<int>, cur: nat, x: int) {
    exists i :: 0 <= i < |h| && i != cur && h[i] == x
  }

  /** The lower child moves up into the open place: the heap stays in order. */
  lemma Promote(v: seq<Svalue>, h: seq<int>, cur: nat, child: nat)
    requires Holed(v, h, cur) && cur < |h| && 0 < child < |h| && Parent(child) == cur && h[child] != NONE
    requires forall i :: 0 < i < |h| && Parent(i) == cur && h[i] != NONE ==> SvalueCmp(v[h[child]], v[h[i]]) <= 0
    ensures Holed(v, h[cur := h[child]], child)
  {
    var g := h[cur := h[child]];
    forall i | 0 < i < |g| && i != child && Parent(i) != child && g[i] != NONE
      ensures g[Parent(i)] != NONE && SvalueCmp(v[g[Parent(i)]], v[g[i]]) <= 0
    {
      if i == cur {
        assert Parent(child) == cur;
      }
    }
    forall i | 0 < i < |g| && Parent(i) == child && g[i] != NONE
      ensures g[Parent(child)] != NONE && SvalueCmp(v[g[Parent(child)]], v[g[i]]) <= 0
    {
      assert i != cur && Parent(i) != cur;
    }
  }

  /** No element is lost or doubled. */
  lemma PromoteShares(h: seq<int>, cur: nat, child: nat, out: seq<int>, n: nat)
    requires Shared(h, cur, out, n) && cur < |h| && child < |h| && child != cur && h[child] != NONE
    ensures Shared(h[cur := h[child]], child, out, n)
  {
    var g := h[cur := h[child]];
    forall i | 0 <= i < |g| && i != child
      ensures g[i] == h[if i == cur then child else i]
    {
    }
    forall x | 0 <= x < n && x !in out
      ensures Has(g, child, x)
    {
      var i :| 0 <= i < |h| && i != cur && h[i] == x;
      assert g[if i == child then cur else i] == x;
    }
  }

  /** There is nothing left below the open place. */
  lemma Hole(v: seq<Svalue>, h: seq<int>, cur: nat, out: seq<int>, n: nat)
    requires Holed(v, h, cur) && Shared(h, cur, out, n) && cur < |h|
    requires forall i :: 0 < i < |h| && Parent(i) == cur ==> h[i] == NONE
    ensures Holed(v, h[cur := NONE], |h|) && Shared(h[cur := NONE], |h|, out, n)
  {
    var g := h[cur := NONE];
    forall x | 0 <= x < n && x !in out
      ensures Has(g, |h|, x)
    {
      var i :| 0 <= i < |h| && i != cur && h[i] == x;
      assert g[i] == x;
    }
  }

  /** The top of the heap is the lowest of its elements, and is a hole only if there are none. */
  lemma {:induction false} TopLowest(v: seq<Svalue>, h: seq<int>, i: nat)
    requires Holed(v, h, |h|) && i < |h| && h[i] != NONE
    ensures h[0] != NONE && SvalueCmp(v[h[0]], v[h[i]]) <= 0
    decreases i
  {
    if i > 0 {
      TopLowest(v, h, Parent(i));
    }
  }

  /** What the array holds: the heap from index 1 on, and behind it the elements that have been taken. */
  ghost predicate Taking(v: seq<Svalue>, h: seq<int>, cur: nat, out: seq<int>) {
    |h| == |v| && Holed(v, h, cur) && Shared(h, cur, out, |v|)
  }

  lemma Taken(v: seq<Svalue>, h: seq<int>, cur: nat, child: nat, out: seq<int>)
    requires Taking(v, h, cur, out) && cur < |h| && 0 < child < |h| && Parent(child) == cur && h[child] != NONE
    requires forall i :: 0 < i < |h| && Parent(i) == cur && h[i] != NONE ==> SvalueCmp(v[h[child]], v[h[i]]) <= 0
    ensures Taking(v, h[cur := h[child]], child, out)
  {
    Promote(v, h, cur, child);
    PromoteShares(h, cur, child, out, |v|);
  }

  lemma LiveNames(v: seq<Svalue>, h: seq<int>, cur: nat, out: seq<int>)
    requires Taking(v, h, cur, out)
    ensures |h| == |v| && forall i :: 0 <= i < |h| ==> h[i] == NONE || 0 <= h[i] < |v|
  {
  }

  lemma OnlyChild(v: seq<Svalue>, h: seq<int>, cur: nat, out: seq<int>)
    requires Taking(v, h, cur, out) && 2 * cur + 2 == |v| && h[2 * cur + 1] != NONE
    ensures Taking(v, h[cur := h[2 * cur + 1]], 2 * cur + 1, out)
  {
    hide Shared, Has;
    forall i | 0 < i < |h| && Parent(i) == cur && h[i] != NONE
      ensures SvalueCmp(v[h[2 * cur + 1]], v[h[i]]) <= 0
    {
      assert i == 2 * cur + 1;
    }
    Taken(v, h, cur, 2 * cur + 1, out);
  }

  lemma LowerChild(v: seq<Svalue>, h: seq<int>, cur: nat, child: nat, out: seq<int>)
    requires Taking(v, h, cur, out) && 2 * cur + 2 < |v| && (child == 2 * cur + 1 || child == 2 * cur + 2) && 0 <= h[child] < |v|
    requires var other := 4 * cur + 3 - child; h[other] == NONE || (0 <= h[other] < |v| && SvalueCmp(v[h[child]], v[h[other]]) <= 0)
    ensures Taking(v, h[cur := h[child]], child, out)
  {
    hide Taking;
    LiveNames(v, h, cur, out);
    forall i | 0 < i < |h| && Parent(i) == cur && h[i] != NONE
      ensures SvalueCmp(v[h[child]], v[h[i]]) <= 0
    {
      assert i == child || i == 4 * cur + 3 - child;
    }
    Taken(v, h, cur, child, out);
  }

  lemma NothingBelow(v: seq<Svalue>, h: seq<int>, cur: nat, out: seq<int>)
    requires Taking(v, h, cur, out) && cur < |v|
    requires (2 * cur + 1 < |v| ==> h[2 * cur + 1] == NONE) && (2 * cur + 2 < |v| ==> h[2 * cur + 2] == NONE)
    ensures Taking(v, h[cur := NONE], |v|, out)
  {
    hide Shared, Has, Holed;
    forall i | 0 < i < |h| && Parent(i) == cur
      ensures h[i] == NONE
    {
      assert i == 2 * cur + 1 || i == 2 * cur + 2;
    }
    Hole(v, h, cur, out, |v|);
  }

  /** Fill the place at the top with the lower child, that place with its lower child, and so on. */
  method FillTop(v: seq<Svalue>, root: array<int>, ghost out: seq<int>)
    requires |v| > 0 && root.Length == 2 * |v| + 1 && Taking(v, root[1..|v| + 1], 0, out)
    modifies root
    ensures Taking(v, root[1..|v| + 1], |v|, out)
    ensures root[|v| + 1..] == old(root[|v| + 1..])
  {
    hide Taking;
    var n := |v|;
    var curix := 0;
    while true
      invariant 0 <= curix < n && Taking(v, root[1..n + 1], curix, out) && root[n + 1..] == old(root[n + 1..])
      decreases n - curix
    {
      ghost var h := root[1..n + 1];
      LiveNames(v, h, curix, out);
      var child := curix + curix + 1;
      var child2 := child + 1;
      if child2 >= n {
        if child2 == n && root[1 + child] != NONE {
          OnlyChild(v, h, curix, out);
          root[1 + curix] := root[1 + child];
          assert root[1..n + 1] == h[curix := h[child]];
          curix := child;
        }
        break;
      }
      if root[1 + child2] != NONE {
        if root[1 + child] == NONE || SvalueCmp(v[root[1 + child]], v[root[1 + child2]]) > 0 {
          LowerChild(v, h, curix, child2, out);
          root[1 + curix] := root[1 + child2];
          assert root[1..n + 1] == h[curix := h[child2]];
          curix := child2;
          continue;
        }
      } else if root[1 + child] == NONE {
        break;
      }
      LowerChild(v, h, curix, child, out);
      root[1 + curix] := root[1 + child];
      assert root[1..n + 1] == h[curix := h[child]];
      curix := child;
    }
    ghost var h := root[1..n + 1];
    NothingBelow(v, h, curix, out);
    root[1 + curix] := NONE;
    assert root[1..n + 1] == h[curix := NONE];
  }

  /** The elements taken so far are in order, and none that is left is lower. */
  ghost predicate TakenInOrder(v: seq<Svalue>, h: seq<int>, out: seq<int>) {
    && Taking(v, h, |v|, out)
    && (forall i, j :: 0 <= i < j < |out| ==> SvalueCmp(v[out[i]], v[out[j]]) <= 0)
    && forall i, j :: 0 <= i < |out| && 0 <= j < |h| && h[j] != NONE ==> SvalueCmp(v[out[i]], v[h[j]]) <= 0
  }

  lemma {:induction false} Range(n: nat) returns (s: set<int>)
    ensures |s| == n && forall x :: x in s <==> 0 <= x < n
  {
    if n == 0 {
      s := {};
    } else {
      s := Range(n - 1);
      s := s + {n - 1};
    }
  }

  lemma {:induction false} Elements(out: seq<int>) returns (s: set<int>)
    ensures |s| <= |out| && forall x :: x in s <==> x in out
  {
    if out == [] {
      s := {};
    } else {
      var t := Elements(out[1..]);
      s := t + {out[0]};
      assert out == [out[0]] + out[1..];
    }
  }

  lemma Subset(a: set<int>, b: set<int>)
    requires a <= b
    ensures |a| <= |b|
  {
    var c := b - a;
    assert a + c == b;
  }

  /** As long as not all have been taken, there is one at the top. */
  lemma TopLive(v: seq<Svalue>, h: seq<int>, out: seq<int>)
    requires Taking(v, h, |v|, out) && |out| < |v|
    ensures h[0] != NONE
  {
    if h[0] == NONE {
      forall i | 0 <= i < |h|
        ensures h[i] == NONE
      {
        if h[i] != NONE {
          TopLowest(v, h, i);
        }
      }
      var all := Range(|v|);
      var taken := Elements(out);
      forall x | x in all
        ensures x in taken
      {
        assert x in out || Has(h, |v|, x);
      }
      Subset(all, taken);
    }
  }

  /** Take the element at the top. */
  lemma TakeTop(v: seq<Svalue>, h: seq<int>, out: seq<int>)
    requires TakenInOrder(v, h, out) && |v| > 0 && h[0] != NONE
    ensures Taking(v, h, 0, out + [h[0]])
    ensures var out' := out + [h[0]];
            && (forall i, j :: 0 <= i < j < |out'| ==> SvalueCmp(v[out'[i]], v[out'[j]]) <= 0)
            && forall i, j :: 0 <= i < |out'| && 0 <= j < |h| && h[j] != NONE ==> SvalueCmp(v[out'[i]], v[h[j]]) <= 0
  {
    var out' := out + [h[0]];
    forall j | 0 <= j < |h| && h[j] != NONE
      ensures SvalueCmp(v[h[0]], v[h[j]]) <= 0
    {
      TopLowest(v, h, j);
    }
    TakeShares(h, out, |v|);
    HeapOpen(v, h);
  }

  lemma HeapOpen(v: seq<Svalue>, h: seq<int>)
    requires Holed(v, h, |h|)
    ensures Holed(v, h, 0)
  {
  }

  lemma TakeShares(h: seq<int>, out: seq<int>, n: nat)
    requires Shared(h, |h|, out, n) && h != [] && h[0] != NONE && 0 <= h[0] < n
    ensures Shared(h, 0, out + [h[0]], n)
  {
    forall x | 0 <= x < n && x !in out + [h[0]]
      ensures Has(h, 0, x)
    {
      var i :| 0 <= i < |h| && i != |h| && h[i] == x;
      assert i != 0;
    }
  }

  /** Filling the top brings in nothing new. */
  lemma StillInOrder(v: seq<Svalue>, h: seq<int>, out: seq<int>, g: seq<int>)
    requires TakenInOrder(v, h, out) && |v| > 0 && h[0] != NONE && Taking(v, g, |v|, out + [h[0]])
    ensures TakenInOrder(v, g, out + [h[0]])
  {
    TakeTop(v, h, out);
    var out' := out + [h[0]];
    forall j | 0 <= j < |g| && g[j] != NONE
      ensures g[j] in h
    {
      assert g[j] !in out' && h[0] in out';
      assert Has(h, |v|, g[j]);
    }
  }

  lemma HeapStarts(v: seq<Svalue>, h: seq<int>)
    requires Heap(v, h) && Permutation(h, |v|)
    ensures TakenInOrder(v, h, [])
  {
    forall x | 0 <= x < |v|
      ensures Has(h, |v|, x)
    {
      AllThere(h, |v|, x);
    }
  }

  /** A permutation contains every index. */
  lemma AllThere(h: seq<int>, n: nat, x: int)
    requires Permutation(h, n) && 0 <= x < n
    ensures Has(h, n, x)
  {
    if x !in h {
      var all := Range(n);
      var s := DistinctElements(h);
      forall y | y in s
        ensures y in all - {x}
      {
        assert y in h;
      }
      Subset(s, all - {x});
    }
    var i :| 0 <= i < |h| && h[i] == x;
  }

  lemma {:induction false} DistinctElements(h: seq<int>) returns (s: set<int>)
    requires forall i, j :: 0 <= i < j < |h| ==> h[i] != h[j]
    ensures |s| == |h|
    ensures forall x :: x in s <==> x in h
  {
    if h == [] {
      s := {};
    } else {
      var t := DistinctElements(h[1..]);
      assert h == [h[0]] + h[1..];
      assert forall k :: 0 <= k < |h| - 1 ==> h[1..][k] != h[0];
      forall x | x in t
        ensures x != h[0]
      {
        assert x in h[1..];
      }
      s := t + {h[0]};
    }
  }

  /** Sort all indices by a heap, taking the lowest one first. */
  method HeapOrder(v: seq<Svalue>) returns (sorted: array<int>)
    requires |v| > 0
    ensures fresh(sorted) && Permutation(sorted[..], |v|) && Descending(v, sorted[..])
  {
    hide SvalueCmp, Heap, Permutation, Descending, TakenInOrder, Taking;
    var n := |v|;
    var root := new int[2 * n + 1];
    var m := 0;
    assert Heap(v, root[1..1]) && Permutation(root[1..1], 0) by { EmptyHeap(v, root[1..1]); }
    while m < n
      invariant 0 <= m <= n && Heap(v, root[1..m + 1]) && Permutation(root[1..m + 1], m)
    {
      AddToHeap(v, root, m);
      m := m + 1;
    }
    HeapStarts(v, root[1..n + 1]);
    var k := 0;
    ghost var out := [];
    while k < n
      modifies root
      invariant 0 <= k <= n && |out| == k && out == root[n + 1..n + 1 + k] && TakenInOrder(v, root[1..n + 1], out)
    {
      out := TakeNext(v, root, k, out);
      k := k + 1;
    }
    assert root[n + 1..n + 1 + k] == root[n + 1..];
    sorted := CopyReversed(root, n, out);
    Reversal(v, root[1..n + 1], out, sorted[..]);
  }

  /** Take the lowest element from the heap to the k-th place behind it. */
  method TakeNext(v: seq<Svalue>, root: array<int>, k: nat, ghost out: seq<int>) returns (ghost out': seq<int>)
    requires k < |v| && root.Length == 2 * |v| + 1 && |out| == k
    requires out == root[|v| + 1..|v| + 1 + k] && TakenInOrder(v, root[1..|v| + 1], out)
    modifies root
    ensures |out'| == k + 1 && out' == root[|v| + 1..|v| + 1 + k + 1] && TakenInOrder(v, root[1..|v| + 1], out')
  {
    hide SvalueCmp, TakenInOrder, Taking;
    var n := |v|;
    ghost var h := root[1..n + 1];
    TopTaken(v, h, out);
    root[n + 1 + k] := root[1];
    assert root[1..n + 1] == h;
    out' := out + [h[0]];
    assert out' == root[n + 1..n + 1 + k + 1] == root[n + 1..][..k + 1];
    FillTop(v, root, out');
    assert root[n + 1..n + 1 + k + 1] == root[n + 1..][..k + 1];
    StillInOrder(v, h, out, root[1..n + 1]);
  }

  /** The elements have been taken in reverse order. */
  method CopyReversed(root: array<int>, n: nat, ghost out: seq<int>) returns (sorted: array<int>)
    requires root.Length == 2 * n + 1 && out == root[n + 1..]
    ensures fresh(sorted) && sorted.Length == n && forall i :: 0 <= i < n ==> sorted[..][i] == out[n - i - 1]
  {
    sorted := new int[n];
    var j := 0;
    while j < n
      invariant 0 <= j <= n && out == root[n + 1..] && forall i :: 0 <= i < j ==> sorted[i] == out[n - i - 1]
    {
      sorted[j] := root[n + 1 + (n - j - 1)];
      j := j + 1;
    }
  }

  lemma EmptyHeap(v: seq<Svalue>, h: seq<int>)
    requires h == []
    ensures Heap(v, h) && Permutation(h, 0)
  {
  }

  lemma TopTaken(v: seq<Svalue>, h: seq<int>, out: seq<int>)
    requires TakenInOrder(v, h, out) && |out| < |v|
    ensures |h| == |v| && h[0] != NONE && Taking(v, h, 0, out + [h[0]])
  {
    TopLive(v, h, out);
    TakeTop(v, h, out);
  }

  lemma Reversal(v: seq<Svalue>, h: seq<int>, out: seq<int>, sorted: seq<int>)
    requires TakenInOrder(v, h, out) && |out| == |v| == |sorted|
    requires forall i :: 0 <= i < |v| ==> sorted[i] == out[|v| - i - 1]
    ensures Permutation(sorted, |v|) && Descending(v, sorted)
  {
  }

  /** The indices of all elements, from the highest element to the lowest. */
  method GetArrayOrder(v: seq<Svalue>) returns (sorted: array<int>)
    ensures fresh(sorted) && Permutation(sorted[..], |v|) && Descending(v, sorted[..])
  {
    if |v| == 2 {
      sorted := new int[2];
      if SvalueCmp(v[0], v[1]) > 0 {
        sorted[0], sorted[1] := 0, 1;
      } else {
        sorted[0], sorted[1] := 1, 0;
      }
      assert sorted[..] == [sorted[0], sorted[1]];
    } else if |v| == 3 {
      sorted := OrderThree(v);
    } else if |v| <= 6 {
      sorted := SelectionOrder(v);
    } else {
      sorted := HeapOrder(v);
    }
  }

  /** What is known of values: strings that are not tabled and what tabling makes of them, and references to destructed
      objects, which become `zero`. */
  datatype Kinds = Kinds(untabled: Svalue -> bool, tabled: Svalue -> Svalue, destructed: Svalue -> bool, zero: Svalue)

  /** Tabling makes tabled strings, and neither those nor 0 refer to a destructed object. */
  ghost predicate SoundKinds(k: Kinds) {
    && (forall x :: !k.untabled(k.tabled(x)) && !k.destructed(k.tabled(x)))
    && !k.untabled(k.zero) && !k.destructed(k.zero)
  }

  function SaneValue(x: Svalue, k: Kinds): Svalue {
    if k.untabled(x) then k.tabled(x) else if k.destructed(x) then k.zero else x
  }

  function Sane(v: seq<Svalue>, k: Kinds): seq<Svalue> {
    seq(|v|, i requires 0 <= i < |v| => SaneValue(v[i], k))
  }

  /** Make all strings tabled, and replace references to destructed objects by 0. */
  method SanitizeArray(vec: array<Svalue>, k: Kinds)
    modifies vec
    ensures vec[..] == Sane(old(vec[..]), k)
  {
    var j := 0;
    while j < vec.Length
      invariant 0 <= j <= vec.Length
      invariant forall i :: 0 <= i < vec.Length ==> vec[i] == if i < j then SaneValue(old(vec[i]), k) else old(vec[i])
    {
      if k.untabled(vec[j]) {
        vec[j] := k.tabled(vec[j]);
      } else if k.destructed(vec[j]) {
        vec[j] := k.zero;
      }
      j := j + 1;
    }
  }

  /** A new vector with the elements from the lowest to the highest, all of them sane; the old one is made so, too. */
  method OrderArray(vec: array<Svalue>, k: Kinds) returns (out: seq<Svalue>)
    requires SoundKinds(k)
    modifies vec
    ensures vec[..] == Sane(old(vec[..]), k)
    ensures Ordered(out) && multiset(out) == multiset(vec[..])
    ensures forall i :: 0 <= i < |out| ==> !k.untabled(out[i]) && !k.destructed(out[i])
  {
    SanitizeArray(vec, k);
    out := InOrder(vec[..]);
    ghost var v := vec[..];
    forall i | 0 <= i < |out|
      ensures !k.untabled(out[i]) && !k.destructed(out[i])
    {
      assert out[i] in multiset(out);
      assert out[i] in v;
    }
  }

  /** The elements from the lowest to the highest. */
  method InOrder(v: seq<Svalue>) returns (out: seq<Svalue>)
    ensures Ordered(out) && multiset(out) == multiset(v)
  {
    var sorted := GetArrayOrder(v);
    ghost var s := sorted[..];
    out := [];
    var j := |v|;
    while j > 0
      invariant 0 <= j <= |v| && |out| == |v| - j && sorted[..] == s
      invariant forall i :: 0 <= i < |out| ==> out[i] == v[s[|v| - 1 - i]]
    {
      j := j - 1;
      out := out + [v[sorted[j]]];
    }
    Rearranged(v, s, out);
  }

  lemma Rearranged(v: seq<Svalue>, s: seq<int>, out: seq<Svalue>)
    requires Permutation(s, |v|) && Descending(v, s) && |out| == |v|
    requires forall i :: 0 <= i < |v| ==> out[i] == v[s[|v| - 1 - i]]
    ensures Ordered(out) && multiset(out) == multiset(v)
  {
    hide Select;
    var r := seq(|v|, i requires 0 <= i < |v| => s[|v| - 1 - i]);
    assert Permutation(r, |v|);
    assert out == Select(v, r);
    SelectPermutes(v, r);
  }

  function Select(v: seq<Svalue>, s: seq<int>): (r: seq<Svalue>)
    requires forall i :: 0 <= i < |s| ==> 0 <= s[i] < |v|
    ensures |r| == |s| && forall i :: 0 <= i < |s| ==> r[i] == v[s[i]]
  {
    if s == [] then [] else Select(v, s[..|s| - 1]) + [v[s[|s| - 1]]]
  }

  lemma SelectConcat(v: seq<Svalue>, a: seq<int>, b: seq<int>)
    requires forall i :: 0 <= i < |a| ==> 0 <= a[i] < |v|
    requires forall i :: 0 <= i < |b| ==> 0 <= b[i] < |v|
    ensures Select(v, a + b) == Select(v, a) + Select(v, b)
  {
    hide Select;
    var u, w := Select(v, a + b), Select(v, a) + Select(v, b);
    forall i | 0 <= i < |u|
      ensures u[i] == w[i]
    {
      assert (a + b)[i] == if i < |a| then a[i] else b[i - |a|];
    }
  }

  /** The elements in another order. */
  lemma {:induction false} SelectPermutes(v: seq<Svalue>, s: seq<int>)
    requires Permutation(s, |v|)
    ensures multiset(Select(v, s)) == multiset(v)
    decreases |v|
  {
    hide Permutation, Select;
    if |v| > 0 {
      var n := |v| - 1;
      var k := PlaceOf(s, |v|, n);
      Removed(s, n, k);
      SelectPermutes(v[..n], s[..k] + s[k + 1..]);
      AllPlaces(s, |v|);
      AllPlaces(s[..k] + s[k + 1..], n);
      LastBack(v, s, k);
    } else {
      assert Select(v, s) == [] by { NoPlaces(v, s); }
    }
  }

  lemma NoPlaces(v: seq<Svalue>, s: seq<int>)
    requires Permutation(s, 0) && v == []
    ensures s == [] && Select(v, s) == []
  {
  }

  lemma PlaceOf(s: seq<int>, n: nat, x: int) returns (k: nat)
    requires Permutation(s, n) && 0 <= x < n
    ensures k < |s| && s[k] == x
  {
    AllThere(s, n, x);
    k :| 0 <= k < |s| && s[k] == x;
  }

  lemma AllPlaces(s: seq<int>, n: nat)
    requires Permutation(s, n)
    ensures forall i :: 0 <= i < |s| ==> 0 <= s[i] < n
  {
  }

  lemma LastBack(v: seq<Svalue>, s: seq<int>, k: nat)
    requires |v| > 0 && k < |s| && s[k] == |v| - 1 && (forall i :: 0 <= i < |s| ==> 0 <= s[i] < |v|)
    requires var t := s[..k] + s[k + 1..]; forall i :: 0 <= i < |t| ==> 0 <= t[i] < |v| - 1
    requires multiset(Select(v[..|v| - 1], s[..k] + s[k + 1..])) == multiset(v[..|v| - 1])
    ensures multiset(Select(v, s)) == multiset(v)
  {
    hide Select;
    var a, b, n := s[..k], s[k + 1..], |v| - 1;
    assert s == a + ([n] + b);
    FrontSelects(v, a, b);
    SelectConcat(v, [n], b);
    SelectConcat(v, a, [n] + b);
    SameElements(v, Select(v, a), Select(v, [n]), Select(v, b), v[..n]);
  }

  lemma FrontSelects(v: seq<Svalue>, a: seq<int>, b: seq<int>)
    requires |v| > 0 && forall i :: 0 <= i < |a + b| ==> 0 <= (a + b)[i] < |v| - 1
    ensures forall i :: 0 <= i < |a| ==> 0 <= a[i] < |v|
    ensures forall i :: 0 <= i < |b| ==> 0 <= b[i] < |v|
    ensures Select(v[..|v| - 1], a + b) == Select(v, a) + Select(v, b)
    ensures v == v[..|v| - 1] + Select(v, [|v| - 1])
  {
    hide Select;
    var front := v[..|v| - 1];
    assert forall i :: 0 <= i < |a| ==> a[i] == (a + b)[i];
    assert forall i :: 0 <= i < |b| ==> b[i] == (a + b)[|a| + i];
    SelectConcat(v, a, b);
    assert Select(front, a + b) == Select(v, a + b);
  }

  lemma SameElements(v: seq<Svalue>, a: seq<Svalue>, x: seq<Svalue>, b: seq<Svalue>, front: seq<Svalue>)
    requires v == front + x && multiset(a + b) == multiset(front)
    ensures multiset(a + (x + b)) == multiset(v)
  {
  }

  lemma Removed(s: seq<int>, n: nat, k: nat)
    requires Permutation(s, n + 1) && k < |s| && s[k] == n
    ensures Permutation(s[..k] + s[k + 1..], n)
  {
    var t := s[..k] + s[k + 1..];
    assert forall i :: 0 <= i < n ==> t[i] == s[if i < k then i else i + 1];
  }

  /** Is the vector in order, and are all its strings tabled? `untabled` tells of an element whether it is a string that
      is not. An empty vector has one place, which holds no string. */
  method IsOrdered(v: seq<Svalue>, untabled: Svalue -> bool) returns (r: bool)
    ensures r <==> Ordered(v) && forall i :: 0 <= i < |v| ==> !untabled(v[i])
  {
    var k := 0;
    while k + 1 < |v|
      invariant 0 <= k && (v != [] ==> k < |v| && Ordered(v[..k + 1]))
      invariant v == [] ==> k == 0
      invariant forall i :: 0 <= i < k ==> !untabled(v[i])
    {
      if untabled(v[k]) || SvalueCmp(v[k], v[k + 1]) > 0 {
        return false;
      }
      k := k + 1;
    }
    if v == [] {
      return true;
    }
    assert v[..k + 1] == v;
    return !untabled(v[k]);
  }
}
