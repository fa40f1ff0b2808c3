/** Matching two vectors element by element, and the operators -, &, | and ^ made of it. */
module ElementMatch {
  import opened LookupKey
  import opened ArrayOrder

  /** Is a value equal to `x` in the vector? */
  ghost predicate Occurs(x: Svalue, w: seq<Svalue>) {
    exists j :: 0 <= j < |w| && SvalueCmp(x, w[j]) == 0
  }

  /** The flags of the elements of `v` start at `base` and tell which of them occur in `w`. */
  ghost predicate Flagged(f: seq<bool>, base: nat, v: seq<Svalue>, w: seq<Svalue>) {
    && base + |v| <= |f|
    && forall i :: 0 <= i < |v| ==> (f[base + i] <==> Occurs(v[i], w))
  }

  // ----- one vector has a single element

  /** Compare the single element with all of the longer vector. */
  method MatchOne(elem: Svalue, v: seq<Svalue>, flags: array<bool>, eflag: nat, base: nat)
    requires flags.Length == |v| + 1 && ((eflag == 0 && base == 1) || (eflag == |v| && base == 0))
    requires forall k :: 0 <= k < flags.Length ==> !flags[k]
    modifies flags
    ensures Flagged(flags[..], eflag, [elem], v) && Flagged(flags[..], base, v, [elem])
  {
    var k := 0;
    while k < |v|
      invariant 0 <= k <= |v|
      invariant forall i :: 0 <= i < k ==> (flags[base + i] <==> SvalueCmp(v[i], elem) == 0)
      invariant forall i :: base + k <= i < base + |v| ==> !flags[i]
      invariant flags[eflag] <==> exists i :: 0 <= i < k && SvalueCmp(elem, v[i]) == 0
    {
      assert SvalueCmp(elem, v[k]) == 0 <==> SvalueCmp(v[k], elem) == 0;
      if SvalueCmp(v[k], elem) == 0 {
        flags[base + k], flags[eflag] := true, true;
      }
      k := k + 1;
    }
    forall i | 0 <= i < |v|
      ensures flags[..][base + i] <==> Occurs(v[i], [elem])
    {
      assert [elem][0] == elem;
    }
  }

  // ----- both vectors are ordered and compared side by side

  /** The order of a vector, from the highest element to the lowest. */
  ghost predicate Order(v: seq<Svalue>, s: seq<int>) {
    Permutation(s, |v|) && Descending(v, s)
  }

  /** The first `upto` elements in the order have their flags, the others have none yet. */
  ghost predicate FlaggedUpto(f: seq<bool>, base: nat, v: seq<Svalue>, s: seq<int>, upto: nat, w: seq<Svalue>) {
    && base + |v| <= |f| && upto <= |s| == |v| && (forall a :: 0 <= a < |s| ==> 0 <= s[a] < |v|)
    && (forall a :: 0 <= a < upto ==> (f[base + s[a]] <==> Occurs(v[s[a]], w)))
    && forall a :: upto <= a < |s| ==> !f[base + s[a]]
  }

  /** What has been passed in one vector is higher than what is left of the other. */
  ghost predicate Above(v: seq<Svalue>, s: seq<int>, upto: nat, w: seq<Svalue>, t: seq<int>, left: nat) {
    && (forall a :: 0 <= a < |s| ==> 0 <= s[a] < |v|) && (forall b :: 0 <= b < |t| ==> 0 <= t[b] < |w|)
    && upto <= |s| && left <= |t|
    && forall a, b :: 0 <= a < upto && left <= b < |t| ==> SvalueCmp(v[s[a]], w[t[b]]) > 0
  }

  ghost predicate SideBySide(f: seq<bool>, v: seq<Svalue>, s: seq<int>, i: nat, w: seq<Svalue>, t: seq<int>, j: nat) {
    && |f| == |v| + |w|
    && FlaggedUpto(f, 0, v, s, i, w) && FlaggedUpto(f, |v|, w, t, j, v)
    && Above(v, s, i, w, t, j) && Above(w, t, j, v, s, i)
  }

  /** A higher element has no match: it is passed. */
  lemma PassHigher(v: seq<Svalue>, s: seq<int>, i: nat, w: seq<Svalue>, t: seq<int>, j: nat)
    requires Order(v, s) && Order(w, t) && i < |s| && j < |t| && Above(v, s, i, w, t, j) && Above(w, t, j, v, s, i)
    requires SvalueCmp(v[s[i]], w[t[j]]) > 0
    ensures !Occurs(v[s[i]], w) && Above(v, s, i + 1, w, t, j) && Above(w, t, j, v, s, i + 1)
  {
    forall b | j <= b < |t|
      ensures SvalueCmp(v[s[i]], w[t[b]]) > 0
    {
      assert b > j ==> SvalueCmp(w[t[j]], w[t[b]]) >= 0;
    }
    forall k | 0 <= k < |w|
      ensures SvalueCmp(v[s[i]], w[k]) != 0
    {
      AllThere(t, |w|, k);
      var b :| 0 <= b < |t| && t[b] == k;
      if b < j {
        assert SvalueCmp(w[t[b]], v[s[i]]) > 0;
      }
    }
  }

  /** A passed element without match keeps its flag clear. */
  lemma FlagClear(f: seq<bool>, base: nat, v: seq<Svalue>, s: seq<int>, i: nat, w: seq<Svalue>)
    requires FlaggedUpto(f, base, v, s, i, w) && i < |s| && !Occurs(v[s[i]], w)
    ensures FlaggedUpto(f, base, v, s, i + 1, w)
  {
  }

  /** Flag all elements equal to the `index`-th, which is known to match. */
  method FlagRun(v: seq<Svalue>, sorted: array<int>, index: nat, flags: array<bool>, base: nat, ghost w: seq<Svalue>) returns (next: nat)
    requires Order(v, sorted[..]) && index < |v| && FlaggedUpto(flags[..], base, v, sorted[..], index, w)
    requires Occurs(v[sorted[..][index]], w)
    modifies flags
    ensures index < next <= |v| && FlaggedUpto(flags[..], base, v, sorted[..], next, w)
    ensures forall a :: index <= a < next ==> SvalueCmp(v[sorted[..][a]], v[sorted[..][index]]) == 0
    ensures forall a :: next <= a < |v| ==> SvalueCmp(v[sorted[..][index]], v[sorted[..][a]]) > 0
    ensures forall k :: 0 <= k < flags.Length && !(base <= k < base + |v|) ==> flags[..][k] == old(flags[..])[k]
  {
    hide SvalueCmp;
    ghost var s := sorted[..];
    next := index;
    var same := true;
    while same
      invariant index <= next <= |v| && (same ==> next < |v|) && sorted[..] == s
      invariant same ==> SameRank(v[s[next]], v[s[index]])
      invariant !same && next < |v| ==> !SameRank(v[s[next]], v[s[index]])
      invariant FlaggedUpto(flags[..], base, v, s, next, w) && (!same ==> index < next)
      invariant forall a :: index <= a < next ==> SameRank(v[s[a]], v[s[index]])
      invariant forall k :: 0 <= k < flags.Length && !(base <= k < base + |v|) ==> flags[..][k] == old(flags[..])[k]
      decreases |v| - next, same
    {
      SameOccurs(v[s[index]], v[s[next]], w);
      FlagSet(flags[..], base, v, s, next, w);
      flags[base + sorted[next]] := true;
      next := next + 1;
      same := next != |v| && SvalueCmp(v[sorted[index]], v[sorted[next]]) == 0;
      if next != |v| {
        RankOf(v[s[index]], v[s[next]]);
      }
    }
    RunOver(v, s, index, next);
  }

  ghost predicate SameRank(x: Svalue, y: Svalue) {
    x.rank == y.rank
  }

  lemma RankOf(x: Svalue, y: Svalue)
    ensures SvalueCmp(x, y) == 0 <==> SameRank(y, x)
  {
  }

  lemma SameOccurs(x: Svalue, y: Svalue, w: seq<Svalue>)
    requires SameRank(y, x) && Occurs(x, w)
    ensures Occurs(y, w)
  {
    var j :| 0 <= j < |w| && SvalueCmp(x, w[j]) == 0;
    assert SvalueCmp(y, w[j]) == 0;
  }

  lemma RunOver(v: seq<Svalue>, s: seq<int>, index: nat, next: nat)
    requires Order(v, s) && index < next <= |v| && (next < |v| ==> !SameRank(v[s[next]], v[s[index]]))
    requires forall a :: index <= a < next ==> SameRank(v[s[a]], v[s[index]])
    ensures forall a :: next <= a < |v| ==> SvalueCmp(v[s[index]], v[s[a]]) > 0
    ensures forall a :: index <= a < next ==> SvalueCmp(v[s[a]], v[s[index]]) == 0
  {
    forall a | next <= a < |v|
      ensures SvalueCmp(v[s[index]], v[s[a]]) > 0
    {
      assert SvalueCmp(v[s[index]], v[s[next]]) >= 0 && (a > next ==> SvalueCmp(v[s[next]], v[s[a]]) >= 0);
    }
  }

  lemma FlagSet(f: seq<bool>, base: nat, v: seq<Svalue>, s: seq<int>, i: nat, w: seq<Svalue>)
    requires FlaggedUpto(f, base, v, s, i, w) && Permutation(s, |v|) && i < |s| && Occurs(v[s[i]], w)
    ensures FlaggedUpto(f[base + s[i] := true], base, v, s, i + 1, w)
  {
    hide Occurs;
    forall a | 0 <= a < |s| && a != i
      ensures s[a] != s[i]
    {
    }
  }

  /** After the runs of equal elements in both vectors, what is left is lower than what has been passed. */
  lemma PassEqual(v: seq<Svalue>, s: seq<int>, i: nat, i2: nat, w: seq<Svalue>, t: seq<int>, j: nat, j2: nat)
    requires Order(v, s) && Order(w, t) && i < i2 <= |s| && j < j2 <= |t| && Above(v, s, i, w, t, j)
    requires SvalueCmp(v[s[i]], w[t[j]]) == 0
    requires forall a :: i <= a < i2 ==> SvalueCmp(v[s[a]], v[s[i]]) == 0
    requires forall b :: j2 <= b < |t| ==> SvalueCmp(w[t[j]], w[t[b]]) > 0
    ensures Above(v, s, i2, w, t, j2)
  {
    hide Permutation;
    forall a, b | 0 <= a < i2 && j2 <= b < |t|
      ensures SvalueCmp(v[s[a]], w[t[b]]) > 0
    {
      if a >= i {
        assert SvalueCmp(v[s[a]], v[s[i]]) == 0;
      }
    }
  }

  lemma FrameFlags(f: seq<bool>, g: seq<bool>, base: nat, v: seq<Svalue>, s: seq<int>, i: nat, w: seq<Svalue>)
    requires FlaggedUpto(f, base, v, s, i, w) && |f| == |g|
    requires forall k :: base <= k < base + |v| ==> g[k] == f[k]
    ensures FlaggedUpto(g, base, v, s, i, w)
  {
    hide Occurs;
  }

  lemma OccursHere(v: seq<Svalue>, s: seq<int>, i: nat, w: seq<Svalue>, t: seq<int>, j: nat)
    requires Permutation(s, |v|) && Permutation(t, |w|) && i < |s| && j < |t| && SvalueCmp(v[s[i]], w[t[j]]) == 0
    ensures Occurs(v[s[i]], w) && Occurs(w[t[j]], v)
  {
    assert SvalueCmp(w[t[j]], v[s[i]]) == 0;
  }

  /** With one vector used up, all flags are right. */
  lemma SidesDone(f: seq<bool>, v: seq<Svalue>, s: seq<int>, i: nat, w: seq<Svalue>, t: seq<int>, j: nat)
    requires Order(v, s) && Order(w, t) && SideBySide(f, v, s, i, w, t, j) && (i == |v| || j == |w|)
    ensures Flagged(f, 0, v, w) && Flagged(f, |v|, w, v)
  {
    hide Occurs;
    RestClear(f, 0, v, s, i, w, t, j);
    RestClear(f, |v|, w, t, j, v, s, i);
    AllFlags(f, 0, v, s, w);
    AllFlags(f, |v|, w, t, v);
  }

  lemma RestClear(f: seq<bool>, base: nat, v: seq<Svalue>, s: seq<int>, i: nat, w: seq<Svalue>, t: seq<int>, j: nat)
    requires Order(v, s) && Order(w, t) && FlaggedUpto(f, base, v, s, i, w) && (i == |v| || j == |w|) && Above(w, t, j, v, s, i)
    ensures FlaggedUpto(f, base, v, s, |v|, w)
  {
    if i < |v| {
      forall a | i <= a < |v|
        ensures !Occurs(v[s[a]], w)
      {
        forall k | 0 <= k < |w|
          ensures SvalueCmp(v[s[a]], w[k]) != 0
        {
          AllThere(t, |w|, k);
          var b :| 0 <= b < |t| && t[b] == k;
          assert SvalueCmp(w[t[b]], v[s[a]]) > 0;
        }
      }
    }
  }

  lemma AllFlags(f: seq<bool>, base: nat, v: seq<Svalue>, s: seq<int>, w: seq<Svalue>)
    requires Permutation(s, |v|) && FlaggedUpto(f, base, v, s, |v|, w)
    ensures Flagged(f, base, v, w)
  {
    hide Occurs;
    forall i | 0 <= i < |v|
      ensures f[base + i] <==> Occurs(v[i], w)
    {
      AllThere(s, |v|, i);
      var a :| 0 <= a < |s| && s[a] == i;
      assert f[base + s[a]] <==> Occurs(v[s[a]], w);
    }
  }

  lemma StartSides(f: seq<bool>, v: seq<Svalue>, s: seq<int>, w: seq<Svalue>, t: seq<int>)
    requires Order(v, s) && Order(w, t) && |f| == |v| + |w| && forall k :: 0 <= k < |f| ==> !f[k]
    ensures SideBySide(f, v, s, 0, w, t, 0)
  {
  }

  lemma PassFirst(f: seq<bool>, v: seq<Svalue>, s: seq<int>, i: nat, w: seq<Svalue>, t: seq<int>, j: nat)
    requires Order(v, s) && Order(w, t) && SideBySide(f, v, s, i, w, t, j) && i < |s| && j < |t| && SvalueCmp(v[s[i]], w[t[j]]) > 0
    ensures SideBySide(f, v, s, i + 1, w, t, j)
  {
    hide Order, Above, FlaggedUpto, Occurs;
    PassHigher(v, s, i, w, t, j);
    FlagClear(f, 0, v, s, i, w);
  }

  lemma PassSecond(f: seq<bool>, v: seq<Svalue>, s: seq<int>, i: nat, w: seq<Svalue>, t: seq<int>, j: nat)
    requires Order(v, s) && Order(w, t) && SideBySide(f, v, s, i, w, t, j) && i < |s| && j < |t| && SvalueCmp(v[s[i]], w[t[j]]) < 0
    ensures SideBySide(f, v, s, i, w, t, j + 1)
  {
    hide Order, Above, FlaggedUpto, Occurs;
    PassHigher(w, t, j, v, s, i);
    FlagClear(f, |v|, w, t, j, v);
  }

  lemma Indices(f: seq<bool>, v: seq<Svalue>, s: seq<int>, i: nat, w: seq<Svalue>, t: seq<int>, j: nat)
    requires SideBySide(f, v, s, i, w, t, j)
    ensures |s| == |v| && |t| == |w| && (forall a :: 0 <= a < |s| ==> 0 <= s[a] < |v|) && forall b :: 0 <= b < |t| ==> 0 <= t[b] < |w|
  {
  }

  /** Flag the run of equal elements that both vectors have come to. */
  method FlagBoth(v: seq<Svalue>, sorted1: array<int>, i: nat, w: seq<Svalue>, sorted2: array<int>, j: nat, flags: array<bool>)
    returns (next1: nat, next2: nat)
    requires Order(v, sorted1[..]) && Order(w, sorted2[..]) && i < |v| && j < |w|
    requires SideBySide(flags[..], v, sorted1[..], i, w, sorted2[..], j)
    requires SvalueCmp(v[sorted1[..][i]], w[sorted2[..][j]]) == 0
    modifies flags
    ensures i < next1 <= |v| && j < next2 <= |w| && SideBySide(flags[..], v, sorted1[..], next1, w, sorted2[..], next2)
  {
    hide Order, Above, FlaggedUpto, Occurs;
    ghost var s, t := sorted1[..], sorted2[..];
    Indices(flags[..], v, s, i, w, t, j);
    ghost var f := flags[..];
    OccursHere(v, s, i, w, t, j) by { OrderPermutes(v, s); OrderPermutes(w, t); }
    next1 := FlagRun(v, sorted1, i, flags, 0, w);
    assert sorted1[..] == s && sorted2[..] == t;
    FrameFlags(f, flags[..], |v|, w, t, j, v);
    ghost var g := flags[..];
    next2 := FlagRun(w, sorted2, j, flags, |v|, v);
    assert sorted1[..] == s && sorted2[..] == t;
    FrameFlags(g, flags[..], 0, v, s, next1, w);
    PassEqual(v, s, i, next1, w, t, j, next2);
    PassEqual(w, t, j, next2, v, s, i, next1);
  }

  lemma OrderPermutes(v: seq<Svalue>, s: seq<int>)
    requires Order(v, s)
    ensures Permutation(s, |v|)
  {
  }

  method MatchOrdered(v: seq<Svalue>, w: seq<Svalue>, flags: array<bool>)
    requires flags.Length == |v| + |w| && forall k :: 0 <= k < flags.Length ==> !flags[k]
    modifies flags
    ensures Flagged(flags[..], 0, v, w) && Flagged(flags[..], |v|, w, v)
  {
    hide SvalueCmp, Above, FlaggedUpto, Occurs, Permutation, Descending;
    var sorted1 := GetArrayOrder(v);
    var sorted2 := GetArrayOrder(w);
    ghost var s, t := sorted1[..], sorted2[..];
    StartSides(flags[..], v, s, w, t);
    var i, j := 0, 0;
    while i < |v| && j < |w|
      invariant 0 <= i <= |v| && 0 <= j <= |w| && sorted1[..] == s && sorted2[..] == t
      invariant SideBySide(flags[..], v, s, i, w, t, j)
      decreases |v| - i + |w| - j
    {
      Indices(flags[..], v, s, i, w, t, j);
      var d := SvalueCmp(v[sorted1[i]], w[sorted2[j]]);
      if d == 0 {
        i, j := FlagBoth(v, sorted1, i, w, sorted2, j, flags);
      } else if d > 0 {
        PassFirst(flags[..], v, s, i, w, t, j);
        i := i + 1;
      } else {
        PassSecond(flags[..], v, s, i, w, t, j);
        j := j + 1;
      }
    }
    SidesDone(flags[..], v, s, i, w, t, j);
  }

  /** Flags for the elements of both vectors: set for those which occur in the other vector too. */
  method MatchArrays(v: seq<Svalue>, w: seq<Svalue>) returns (flags: array<bool>)
    ensures fresh(flags) && Flagged(flags[..], 0, v, w) && Flagged(flags[..], |v|, w, v)
    ensures flags.Length == if |v| + |w| == 0 then 1 else |v| + |w|
  {
    flags := new bool[if |v| + |w| == 0 then 1 else |v| + |w|](_ => false);
    if |v| == 0 || |w| == 0 {
      return;
    }
    if |v| == 1 && |w| == 1 {
      if SvalueCmp(v[0], w[0]) == 0 {
        flags[0], flags[1] := true, true;
      }
      assert SvalueCmp(v[0], w[0]) == 0 <==> SvalueCmp(w[0], v[0]) == 0;
      return;
    }
    if |v| == 1 {
      MatchOne(v[0], w, flags, 0, 1);
      assert v == [v[0]];
    } else if |w| == 1 {
      MatchOne(w[0], v, flags, |v|, 0);
      assert w == [w[0]];
    } else {
      MatchOrdered(v, w, flags);
    }
  }
}
