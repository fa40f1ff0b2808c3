/** Sorting a vector by merging, with a comparison function that may answer anything. */
module SortArray {
  import opened Wrappers

  /** What the comparison function makes of two elements: leave them, exchange them, or it has vanished. */
  datatype Answer = Keep | Swap | Gone

  /** The answer to the n-th call. */
  type Comparator<!T> = (nat, T, T) -> Answer

  /** A vector and the number of calls made for it. */
  datatype Outcome<T> = Outcome(items: seq<T>, calls: nat)

  // ----- what is computed

  function Take<T>(s: seq<T>, h: nat): seq<T> {
    if h < |s| then s[..h] else s
  }

  function Drop<T>(s: seq<T>, h: nat): seq<T> {
    if h < |s| then s[h..] else []
  }

  ghost function Before<T>(s: seq<T>, o: Option<Outcome<T>>): Option<Outcome<T>> {
    if o.None? then None else Some(Outcome(s + o.value.items, o.value.calls))
  }

  /** Merge two runs, with `n` calls made before. */
  ghost function Merge<T>(ask: Comparator<T>, n: nat, a: seq<T>, b: seq<T>): (r: Option<Outcome<T>>)
    ensures r.Some? ==> |r.value.items| == |a| + |b|
    decreases |a| + |b|
  {
    if a == [] || b == [] then Some(Outcome(a + b, n))
    else if ask(n, a[0], b[0]) == Gone then None
    else if ask(n, a[0], b[0]) == Swap then Before([b[0]], Merge(ask, n + 1, a, b[1..]))
    else Before([a[0]], Merge(ask, n + 1, a[1..], b))
  }

  /** Merge each run of `h` elements at an even place with the next one. */
  ghost function Pass<T>(ask: Comparator<T>, n: nat, s: seq<T>, h: nat): (r: Option<Outcome<T>>)
    requires h > 0
    ensures r.Some? ==> |r.value.items| == |s|
    decreases |s|
  {
    if s == [] then Some(Outcome([], n)) else
      var m := Merge(ask, n, Take(s, h), Take(Drop(s, h), h));
      if m.None? then None else Before(m.value.items, Pass(ask, m.value.calls, Drop(s, 2 * h), h))
  }

  /** Double the length of the runs until there is one. */
  ghost function Sorting<T>(ask: Comparator<T>, n: nat, s: seq<T>, h: nat): Option<Outcome<T>>
    requires h > 0
    decreases |s| - h
  {
    if h >= |s| then Some(Outcome(s, n)) else
      var p := Pass(ask, n, s, h);
      if p.None? then None else Sorting(ask, p.value.calls, p.value.items, 2 * h)
  }

  // ----- the loops

  lemma BeforeTwice<T>(s: seq<T>, t: seq<T>, o: Option<Outcome<T>>)
    ensures Before(s, Before(t, o)) == Before(s + t, o)
  {
    if o.Some? {
      assert s + (t + o.value.items) == s + t + o.value.items;
    }
  }

  lemma BeforeNothing<T>(o: Option<Outcome<T>>)
    ensures Before([], o) == o
  {
    if o.Some? {
      assert [] + o.value.items == o.value.items;
    }
  }

  /** `whole` is what has been merged into `done`, followed by the merge of what is left. */
  ghost predicate Merging<T(!new)>(ask: Comparator<T>, whole: Option<Outcome<T>>, done: seq<T>, n: nat, a: seq<T>, b: seq<T>) {
    whole == Before(done, Merge(ask, n, a, b))
  }

  lemma MergeStarts<T(!new)>(ask: Comparator<T>, n: nat, a: seq<T>, b: seq<T>)
    ensures Merging(ask, Merge(ask, n, a, b), [], n, a, b)
  {
    BeforeNothing(Merge(ask, n, a, b));
  }

  lemma MergeStep<T(!new)>(ask: Comparator<T>, whole: Option<Outcome<T>>, done: seq<T>, n: nat, a: seq<T>, b: seq<T>)
    requires Merging(ask, whole, done, n, a, b) && a != [] && b != []
    ensures ask(n, a[0], b[0]) == Gone ==> whole == None
    ensures ask(n, a[0], b[0]) == Swap ==> Merging(ask, whole, done + [b[0]], n + 1, a, b[1..])
    ensures ask(n, a[0], b[0]) == Keep ==> Merging(ask, whole, done + [a[0]], n + 1, a[1..], b)
  {
    if ask(n, a[0], b[0]) == Swap {
      BeforeTwice(done, [b[0]], Merge(ask, n + 1, a, b[1..]));
    } else if ask(n, a[0], b[0]) == Keep {
      BeforeTwice(done, [a[0]], Merge(ask, n + 1, a[1..], b));
    }
  }

  lemma MergeEnds<T(!new)>(ask: Comparator<T>, whole: Option<Outcome<T>>, done: seq<T>, n: nat, a: seq<T>, b: seq<T>)
    requires Merging(ask, whole, done, n, a, b) && (a == [] || b == [])
    ensures whole == Some(Outcome(done + if a == [] then b else a, n))
  {
    assert a == [] ==> a + b == b;
    assert b == [] ==> a + b == a;
  }

  /** Take the lower of the two first elements, until one of the runs is used up. */
  method TakeLower<T(!new)>(ask: Comparator<T>, n: nat, source: array<T>, dest: array<T>, i: nat, mid: nat, end: nat, ghost whole: Option<Outcome<T>>)
    returns (ok: bool, calls: nat, index1: nat, index2: nat)
    requires source != dest && source.Length == dest.Length && i < mid <= end <= source.Length
    requires Merging(ask, whole, [], n, source[i..mid], source[mid..end])
    modifies dest
    ensures dest[..i] == old(dest[..i])
    ensures !ok ==> whole == None
    ensures ok ==> i <= index1 <= mid <= index2 <= end && (index1 == mid || index2 == end)
    ensures ok ==> Merging(ask, whole, dest[i..index1 + index2 - mid], calls, source[index1..mid], source[index2..end])
  {
    hide Merging, Merge;
    index1, index2, calls, ok := i, mid, n, true;
    ghost var done := [];
    while index1 < mid && index2 < end
      invariant i <= index1 <= mid <= index2 <= end && dest[..i] == old(dest[..i]) && dest[i..index1 + index2 - mid] == done
      invariant Merging(ask, whole, done, calls, source[index1..mid], source[index2..end])
    {
      var j := index1 + index2 - mid;
      ghost var a, b := source[index1..mid], source[index2..end];
      assert a[1..] == source[index1 + 1..mid] && b[1..] == source[index2 + 1..end];
      MergeStep(ask, whole, done, calls, a, b);
      var d := ask(calls, source[index1], source[index2]);
      if d == Gone {
        ok := false;
        return;
      }
      if d == Swap {
        dest[j] := source[index2];
        index2 := index2 + 1;
        done := done + [b[0]];
      } else {
        dest[j] := source[index1];
        index1 := index1 + 1;
        done := done + [a[0]];
      }
      calls := calls + 1;
      assert dest[i..j + 1] == dest[i..j] + [dest[j]];
      assert dest[..i] == old(dest[..i]);
    }
  }

  /** Merge the runs source[i..mid] and source[mid..end]. */
  method MergeRuns<T(!new)>(ask: Comparator<T>, n: nat, source: array<T>, dest: array<T>, i: nat, mid: nat, end: nat)
    returns (ok: bool, calls: nat)
    requires source != dest && source.Length == dest.Length && i < mid <= end <= source.Length
    modifies dest
    ensures dest[..i] == old(dest[..i])
    ensures Merge(ask, n, source[i..mid], source[mid..end]) == if ok then Some(Outcome(dest[i..end], calls)) else None
  {
    hide Merging, Merge;
    ghost var whole := Merge(ask, n, source[i..mid], source[mid..end]);
    MergeStarts(ask, n, source[i..mid], source[mid..end]);
    var index1, index2;
    ok, calls, index1, index2 := TakeLower(ask, n, source, dest, i, mid, end, whole);
    if !ok {
      return;
    }
    var j := index1 + index2 - mid;
    ghost var d := dest[..j];
    MergeEnds(ask, whole, dest[i..j], calls, source[index1..mid], source[index2..end]);
    assert dest[i..j] == d[i..] && dest[..i] == d[..i];
    if index1 == mid {
      CopyItems(source, index2, end, dest, j);
    } else {
      CopyItems(source, index1, mid, dest, j);
    }
    Joining(dest[..], d, i, j, end);
  }

  lemma Joining<T>(s: seq<T>, d: seq<T>, i: nat, j: nat, end: nat)
    requires i <= j <= end <= |s| && s[..j] == d
    ensures s[i..end] == d[i..] + s[j..end] && s[..i] == d[..i]
  {
  }

  method CopyItems<T>(source: array<T>, from: nat, end: nat, dest: array<T>, j: nat)
    requires source != dest && from <= end <= source.Length && j + (end - from) <= dest.Length
    modifies dest
    ensures dest[..j] == old(dest[..j]) && dest[j..j + (end - from)] == source[from..end]
  {
    var k := 0;
    while from + k < end
      invariant from + k <= end && dest[..j] == old(dest[..j]) && dest[j..j + k] == source[from..from + k]
    {
      dest[j + k] := source[from + k];
      assert source[from..from + k + 1] == source[from..from + k] + [source[from + k]];
      assert dest[..j] == old(dest[..j]) && dest[j..j + k + 1] == dest[j..j + k] + [dest[j + k]];
      k := k + 1;
    }
  }

  /** `whole` is what has been passed into `done`, followed by the pass over what is left. */
  ghost predicate Passing<T(!new)>(ask: Comparator<T>, whole: Option<Outcome<T>>, done: seq<T>, n: nat, rest: seq<T>, h: nat) {
    h > 0 && whole == Before(done, Pass(ask, n, rest, h))
  }

  lemma PassStarts<T(!new)>(ask: Comparator<T>, n: nat, s: seq<T>, h: nat)
    requires h > 0
    ensures Passing(ask, Pass(ask, n, s, h), [], n, s, h)
  {
    BeforeNothing(Pass(ask, n, s, h));
  }

  lemma PassStep<T(!new)>(ask: Comparator<T>, whole: Option<Outcome<T>>, done: seq<T>, n: nat, rest: seq<T>, h: nat)
    requires Passing(ask, whole, done, n, rest, h) && rest != []
    ensures var m := Merge(ask, n, Take(rest, h), Take(Drop(rest, h), h));
            if m.None? then whole == None else Passing(ask, whole, done + m.value.items, m.value.calls, Drop(rest, 2 * h), h)
  {
    hide Merge;
    var m := Merge(ask, n, Take(rest, h), Take(Drop(rest, h), h));
    if m.Some? {
      BeforeTwice(done, m.value.items, Pass(ask, m.value.calls, Drop(rest, 2 * h), h));
    }
  }

  lemma PassEnds<T(!new)>(ask: Comparator<T>, whole: Option<Outcome<T>>, done: seq<T>, n: nat, h: nat)
    requires Passing(ask, whole, done, n, [], h)
    ensures whole == Some(Outcome(done, n))
  {
    assert done + [] == done;
  }

  function Min(a: nat, b: nat): nat {
    if a < b then a else b
  }

  lemma Slices<T>(s: seq<T>, i: nat, h: nat)
    requires i < |s|
    ensures var mid, end := Min(i + h, |s|), Min(i + 2 * h, |s|);
            Take(s[i..], h) == s[i..mid] && Take(Drop(s[i..], h), h) == s[mid..end] && Drop(s[i..], 2 * h) == s[end..]
  {
  }

  /** One pass over the whole vector. */
  method PassOver<T(!new)>(ask: Comparator<T>, n: nat, source: array<T>, dest: array<T>, halfstep: nat) returns (ok: bool, calls: nat)
    requires source != dest && source.Length == dest.Length && halfstep > 0
    modifies dest
    ensures Pass(ask, n, source[..], halfstep) == if ok then Some(Outcome(dest[..], calls)) else None
  {
    hide Passing, Pass, Merge, Take, Drop;
    ghost var whole, s := Pass(ask, n, source[..], halfstep), source[..];
    var size, step := source.Length, 2 * halfstep;
    var i := 0;
    calls := n;
    ok := true;
    assert s[0..] == s && dest[..0] == [];
    PassStarts(ask, n, s, halfstep);
    while i < size
      invariant source[..] == s && Passing(ask, whole, dest[..Min(i, size)], calls, s[Min(i, size)..], halfstep)
    {
      var mid, end := Min(i + halfstep, size), Min(i + step, size);
      ghost var done := dest[..i];
      Slices(s, i, halfstep);
      PassStep(ask, whole, done, calls, s[i..], halfstep);
      assert source[i..mid] == s[i..mid] && source[mid..end] == s[mid..end];
      ok, calls := MergeRuns(ask, calls, source, dest, i, mid, end);
      if !ok {
        return;
      }
      assert source[..] == s;
      assert dest[..end] == done + dest[i..end];
      i := i + step;
    }
    assert s[size..] == [] && dest[..size] == dest[..];
    PassEnds(ask, whole, dest[..], calls, halfstep);
  }

  lemma SortingStep<T(!new)>(ask: Comparator<T>, n: nat, s: seq<T>, h: nat)
    requires 0 < h < |s|
    ensures var p := Pass(ask, n, s, h);
            if p.None? then Sorting(ask, n, s, h) == None
            else Sorting(ask, n, s, h) == Sorting(ask, p.value.calls, p.value.items, h + h)
  {
    hide Pass;
  }

  lemma SortingEnds<T(!new)>(ask: Comparator<T>, n: nat, s: seq<T>, h: nat)
    requires h > 0 && h >= |s|
    ensures Sorting(ask, n, s, h) == Some(Outcome(s, n))
  {
  }

  /** Sort the vector. If the comparison function vanishes, that is an error and the vector is left as it was. */
  method SortArray<T(0, !new)>(ask: Comparator<T>, data: array<T>) returns (ok: bool, calls: nat)
    modifies data
    ensures var sorted := Sorting(ask, 0, old(data[..]), 1);
            ok == sorted.Some? && (ok ==> Outcome(data[..], calls) == sorted.value) && (!ok ==> data[..] == old(data[..]))
  {
    hide Sorting, Pass;
    ghost var s := data[..];
    var size := data.Length;
    ok, calls := true, 0;
    if size <= 1 {
      SortingEnds(ask, 0, s, 1);
      return;
    }
    var source, dest := new T[size], new T[size];
    CopyItems(data, 0, size, source, 0);
    assert source[..] == source[0..0 + (size - 0)] == data[0..size] == s;
    var halfstep := 1;
    while halfstep < size
      invariant halfstep > 0 && source != dest && source.Length == dest.Length == size && data[..] == s
      invariant fresh(source) && fresh(dest)
      invariant Sorting(ask, 0, s, 1) == Sorting(ask, calls, source[..], halfstep)
      decreases size - halfstep
    {
      SortingStep(ask, calls, source[..], halfstep);
      ok, calls := PassOver(ask, calls, source, dest, halfstep);
      if !ok {
        return;
      }
      halfstep := halfstep + halfstep;
      source, dest := dest, source;
    }
    SortingEnds(ask, calls, source[..], halfstep);
    CopyItems(source, 0, size, data, 0);
    assert data[..] == data[0..0 + (size - 0)] == source[0..size] == source[..];
  }
}
