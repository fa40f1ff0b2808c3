/** The operators -, &, | and ^ on vectors. */
module ArrayOperators {
  import opened Wrappers
  import opened LookupKey
  import opened ElementMatch

  datatype SizeError = IllegalArraySize(size: nat)

  /** The elements of `v` which occur in `w`, or those which do not, in the order of `v`. */
  ghost function Part(v: seq<Svalue>, w: seq<Svalue>, hit: bool): seq<Svalue> {
    if v == [] then [] else
      var n := |v| - 1;
      Part(v[..n], w, hit) + if Occurs(v[n], w) == hit then [v[n]] else []
  }

  /** With a limit of 0 every size is legal. */
  predicate TooLarge(max: nat, size: nat) {
    max != 0 && size > max
  }

  // ----- counting and copying

  lemma PartStep(v: seq<Svalue>, w: seq<Svalue>, hit: bool, i: nat)
    requires i < |v|
    ensures Part(v[..i + 1], w, hit) == Part(v[..i], w, hit) + if Occurs(v[i], w) == hit then [v[i]] else []
  {
    assert v[..i + 1][..i] == v[..i];
  }

  /** What has been copied so far is a prefix of what is copied in the end. */
  lemma {:induction false} PartPrefix(v: seq<Svalue>, w: seq<Svalue>, hit: bool, i: nat)
    requires i <= |v|
    ensures Part(v[..i], w, hit) <= Part(v, w, hit)
    decreases |v| - i
  {
    if i < |v| {
      PartPrefix(v, w, hit, i + 1);
      PartStep(v, w, hit, i);
    } else {
      assert v[..i] == v;
    }
  }

  method CountFlagged(v: seq<Svalue>, flags: array<bool>, base: nat, hit: bool, ghost w: seq<Svalue>) returns (size: nat)
    requires Flagged(flags[..], base, v, w)
    ensures size == |Part(v, w, hit)|
  {
    size := 0;
    var i := 0;
    while i < |v|
      invariant 0 <= i <= |v| && size == |Part(v[..i], w, hit)|
    {
      PartStep(v, w, hit, i);
      assert flags[..][base + i] == flags[base + i];
      if flags[base + i] == hit {
        size := size + 1;
      }
      i := i + 1;
    }
    assert v[..i] == v;
  }

  /** Copy until `size` elements have been copied. */
  method CopyFlagged(v: seq<Svalue>, flags: array<bool>, base: nat, hit: bool, size: nat, ghost w: seq<Svalue>)
    returns (part: seq<Svalue>, left: nat)
    requires Flagged(flags[..], base, v, w) && size >= |Part(v, w, hit)|
    ensures part == Part(v, w, hit) && left == size - |part|
  {
    part, left := [], size;
    var i := 0;
    PartPrefix(v, w, hit, 0);
    while i < |v| && left != 0
      invariant 0 <= i <= |v| && part == Part(v[..i], w, hit) && part <= Part(v, w, hit) && left == size - |part|
    {
      PartStep(v, w, hit, i);
      PartPrefix(v, w, hit, i + 1);
      assert flags[..][base + i] == flags[base + i];
      if flags[base + i] == hit {
        part := part + [v[i]];
        left := left - 1;
      }
      i := i + 1;
    }
    assert v[..|v|] == v;
  }

  // ----- the operators

  lemma {:induction false} NothingOccurs(v: seq<Svalue>, w: seq<Svalue>)
    requires w == []
    ensures Part(v, w, false) == v && Part(v, w, true) == []
  {
    if v != [] {
      NothingOccurs(v[..|v| - 1], w);
    }
  }

  /** The vector is returned as it is when all of it is wanted. */
  lemma {:induction false} AllOfIt(v: seq<Svalue>, w: seq<Svalue>, hit: bool)
    ensures |Part(v, w, hit)| <= |v|
    ensures |Part(v, w, hit)| == |v| ==> Part(v, w, hit) == v
  {
    if v != [] {
      AllOfIt(v[..|v| - 1], w, hit);
    }
  }

  /** Operator -. */
  method SubtractArray(minuend: seq<Svalue>, subtrahend: seq<Svalue>, max: nat) returns (r: Result<seq<Svalue>, SizeError>)
    ensures var d := Part(minuend, subtrahend, false);
            r == if d != minuend && TooLarge(max, |d|) then Err(IllegalArraySize(|d|)) else Ok(d)
  {
    AllOfIt(minuend, subtrahend, false);
    if |minuend| == 0 || |subtrahend| == 0 {
      NothingOccurs(minuend, []);
      return Ok(minuend);
    }
    var flags := MatchArrays(minuend, subtrahend);
    var size := CountFlagged(minuend, flags, 0, false, subtrahend);
    if size == |minuend| {
      return Ok(minuend);
    }
    if TooLarge(max, size) {
      return Err(IllegalArraySize(size));
    }
    var result, _ := CopyFlagged(minuend, flags, 0, false, size, subtrahend);
    return Ok(result);
  }

  /** Operator &. */
  method IntersectArray(v: seq<Svalue>, w: seq<Svalue>, max: nat) returns (r: Result<seq<Svalue>, SizeError>)
    ensures var d := Part(v, w, true);
            r == if d != v && TooLarge(max, |d|) then Err(IllegalArraySize(|d|)) else Ok(d)
  {
    AllOfIt(v, w, true);
    if |v| == 0 || |w| == 0 {
      NothingOccurs(v, []);
      return Ok([]);
    }
    var flags := MatchArrays(v, w);
    var size := CountFlagged(v, flags, 0, true, w);
    if size == |v| {
      return Ok(v);
    }
    if TooLarge(max, size) {
      return Err(IllegalArraySize(size));
    }
    var result, _ := CopyFlagged(v, flags, 0, true, size, w);
    return Ok(result);
  }

  /** Operator |. */
  method JoinArray(v: seq<Svalue>, w: seq<Svalue>, max: nat) returns (r: Result<seq<Svalue>, SizeError>)
    ensures var u := v + Part(w, v, false);
            r == if v != [] && u != v && TooLarge(max, |u|) then Err(IllegalArraySize(|u|)) else Ok(u)
  {
    if |v| == 0 {
      NothingOccurs(w, []);
      assert v + w == w;
      return Ok(w);
    }
    if |w| == 0 {
      assert v + w == v;
      return Ok(v);
    }
    var flags := MatchArrays(v, w);
    var size := CountFlagged(w, flags, |v|, false, v);
    if size == 0 {
      assert v + [] == v;
      return Ok(v);
    }
    assert |v + Part(w, v, false)| > |v|;
    if TooLarge(max, size + |v|) {
      return Err(IllegalArraySize(size + |v|));
    }
    var rest, _ := CopyFlagged(w, flags, |v|, false, size, v);
    return Ok(v + rest);
  }

  /** Operator ^. */
  method SymmetricDiffArray(v: seq<Svalue>, w: seq<Svalue>, max: nat) returns (r: Result<seq<Svalue>, SizeError>)
    ensures var u := Part(v, w, false) + Part(w, v, false);
            r == if v != [] && w != [] && TooLarge(max, |u|) then Err(IllegalArraySize(|u|)) else Ok(u)
  {
    if |v| == 0 {
      NothingOccurs(w, []);
      assert v + w == w;
      return Ok(w);
    }
    if |w| == 0 {
      NothingOccurs(v, []);
      assert v + w == v;
      return Ok(v);
    }
    var flags := MatchArrays(v, w);
    var size1 := CountFlagged(v, flags, 0, false, w);
    var size2 := CountFlagged(w, flags, |v|, false, v);
    var size := size1 + size2;
    if TooLarge(max, size) {
      return Err(IllegalArraySize(size));
    }
    var first, left := CopyFlagged(v, flags, 0, false, size, w);
    var second, _ := CopyFlagged(w, flags, |v|, false, left, v);
    return Ok(first + second);
  }

  // ----- what the operators mean

  /** `part` has the elements of `v` at the places, which are rising. */
  ghost predicate PickedOut(places: seq<int>, v: seq<Svalue>, part: seq<Svalue>) {
    && |places| == |part|
    && (forall k :: 0 <= k < |places| ==> 0 <= places[k] < |v| && part[k] == v[places[k]])
    && forall k, l :: 0 <= k < l < |places| ==> places[k] < places[l]
  }

  ghost predicate AllPlaces(places: seq<int>, v: seq<Svalue>, w: seq<Svalue>, hit: bool) {
    forall i :: 0 <= i < |v| ==> (i in places <==> (Occurs(v[i], w) <==> hit))
  }

  /** A part holds exactly the elements at the wanted places, in their order: `places` are rising. */
  lemma {:induction false} PartPlaces(v: seq<Svalue>, w: seq<Svalue>, hit: bool) returns (places: seq<int>)
    ensures PickedOut(places, v, Part(v, w, hit)) && AllPlaces(places, v, w, hit)
  {
    hide PickedOut, AllPlaces, Occurs, Part;
    places := [];
    if v == [] {
      NoPlaces(w, hit);
    } else {
      var n := |v| - 1;
      var front := PartPlaces(v[..n], w, hit);
      var chosen := Occurs(v[n], w) == hit;
      places := if chosen then front + [n] else front;
      PartStep(v, w, hit, n);
      assert v[..n + 1] == v && v[..n] + [v[n]] == v;
      OneMorePicked(front, v[..n], Part(v[..n], w, hit), v[n], chosen);
      OneMorePlace(front, v[..n], Part(v[..n], w, hit), v[n], w, hit);
    }
  }

  lemma NoPlaces(w: seq<Svalue>, hit: bool)
    ensures PickedOut([], [], Part([], w, hit)) && AllPlaces([], [], w, hit)
  {
  }

  lemma OneMorePicked(places: seq<int>, v: seq<Svalue>, part: seq<Svalue>, x: Svalue, chosen: bool)
    requires PickedOut(places, v, part)
    ensures PickedOut(if chosen then places + [|v|] else places, v + [x], part + if chosen then [x] else [])
  {
  }

  lemma OneMorePlace(places: seq<int>, v: seq<Svalue>, part: seq<Svalue>, x: Svalue, w: seq<Svalue>, hit: bool)
    requires PickedOut(places, v, part) && AllPlaces(places, v, w, hit)
    ensures AllPlaces(if Occurs(x, w) == hit then places + [|v|] else places, v + [x], w, hit)
  {
    hide Occurs;
    var more := if Occurs(x, w) == hit then places + [|v|] else places;
    forall i | 0 <= i < |v| + 1
      ensures i in more <==> (Occurs((v + [x])[i], w) <==> hit)
    {
      if i < |v| {
        assert i in more <==> i in places;
      }
    }
  }

  /** The elements that occur and those that do not make up the vector. */
  lemma {:induction false} PartsMakeUp(v: seq<Svalue>, w: seq<Svalue>)
    ensures multiset(Part(v, w, true)) + multiset(Part(v, w, false)) == multiset(v)
  {
    hide Occurs;
    if v != [] {
      var n := |v| - 1;
      PartsMakeUp(v[..n], w);
      OneMoreMadeUp(Part(v[..n], w, true), Part(v[..n], w, false), v[..n], v[n], Occurs(v[n], w));
      assert v == v[..n] + [v[n]];
    }
  }

  lemma OneMoreMadeUp(a: seq<Svalue>, b: seq<Svalue>, v: seq<Svalue>, x: Svalue, hit: bool)
    requires multiset(a) + multiset(b) == multiset(v)
    ensures multiset(a + if hit then [x] else []) + multiset(b + if hit then [] else [x]) == multiset(v + [x])
  {
    assert a + [] == a && b + [] == b;
  }

  lemma {:induction false} OccursInPart(x: Svalue, v: seq<Svalue>, w: seq<Svalue>, hit: bool)
    ensures Occurs(x, Part(v, w, hit)) <==> Occurs(x, v) && (Occurs(x, w) <==> hit)
  {
    if v != [] {
      var n := |v| - 1;
      OccursInPart(x, v[..n], w, hit);
      OccursInSum(x, v[..n], [v[n]]);
      assert v == v[..n] + [v[n]];
      var last := if Occurs(v[n], w) == hit then [v[n]] else [];
      OccursInSum(x, Part(v[..n], w, hit), last);
      EqualsOccur(x, v[n], w);
      OccursInOne(x, v[n]);
    }
  }

  lemma OccursInSum(x: Svalue, a: seq<Svalue>, b: seq<Svalue>)
    ensures Occurs(x, a + b) <==> Occurs(x, a) || Occurs(x, b)
  {
    if j :| 0 <= j < |a| && SvalueCmp(x, a[j]) == 0 {
      assert (a + b)[j] == a[j];
    }
    if j :| 0 <= j < |b| && SvalueCmp(x, b[j]) == 0 {
      assert (a + b)[|a| + j] == b[j];
    }
  }

  lemma OccursInOne(x: Svalue, y: Svalue)
    ensures Occurs(x, [y]) <==> SvalueCmp(x, y) == 0
  {
    assert [y][0] == y;
  }

  lemma EqualsOccur(x: Svalue, y: Svalue, w: seq<Svalue>)
    ensures SvalueCmp(x, y) == 0 ==> (Occurs(x, w) <==> Occurs(y, w))
  {
    if j :| 0 <= j < |w| && SvalueCmp(x, w[j]) == 0 && SvalueCmp(x, y) == 0 {
      assert SvalueCmp(y, w[j]) == 0;
    }
    if j :| 0 <= j < |w| && SvalueCmp(y, w[j]) == 0 && SvalueCmp(x, y) == 0 {
      assert SvalueCmp(x, w[j]) == 0;
    }
  }

  /** As far as membership goes, the operators are those on sets. */
  lemma OperatorsOnSets(x: Svalue, v: seq<Svalue>, w: seq<Svalue>)
    ensures Occurs(x, Part(v, w, false)) <==> Occurs(x, v) && !Occurs(x, w)
    ensures Occurs(x, Part(v, w, true)) <==> Occurs(x, v) && Occurs(x, w)
    ensures Occurs(x, v + Part(w, v, false)) <==> Occurs(x, v) || Occurs(x, w)
    ensures Occurs(x, Part(v, w, false) + Part(w, v, false)) <==> (Occurs(x, v) <==> !Occurs(x, w))
  {
    OccursInPart(x, v, w, false);
    OccursInPart(x, v, w, true);
    OccursInPart(x, w, v, false);
    OccursInSum(x, v, Part(w, v, false));
    OccursInSum(x, Part(v, w, false), Part(w, v, false));
  }

  /** A part depends on the other vector only by what occurs in it. */
  lemma {:induction false} SameParts(v: seq<Svalue>, w: seq<Svalue>, u: seq<Svalue>, hit: bool, hit': bool)
    requires forall i :: 0 <= i < |v| ==> (Occurs(v[i], w) == hit <==> Occurs(v[i], u) == hit')
    ensures Part(v, w, hit) == Part(v, u, hit')
  {
    if v != [] {
      var n := |v| - 1;
      assert forall i :: 0 <= i < n ==> v[..n][i] == v[i];
      SameParts(v[..n], w, u, hit, hit');
    }
  }

  /** The intersection is what is left after taking away what is left after taking away: v & w == v - (v - w). */
  lemma DifferenceTwice(v: seq<Svalue>, w: seq<Svalue>)
    ensures Part(v, Part(v, w, false), false) == Part(v, w, true)
  {
    forall i | 0 <= i < |v|
      ensures Occurs(v[i], Part(v, w, false)) <==> !Occurs(v[i], w)
    {
      OccursInPart(v[i], v, w, false);
      assert SvalueCmp(v[i], v[i]) == 0;
    }
    SameParts(v, Part(v, w, false), w, false, true);
  }

  /** (v | w) - v == w - v, and (v - w) - u == v - (w | u). */
  lemma JoinAndSubtract(v: seq<Svalue>, w: seq<Svalue>, u: seq<Svalue>)
    ensures Part(v + Part(w, v, false), v, false) == Part(w, v, false)
    ensures Part(Part(v, w, false), u, false) == Part(v, w + Part(u, w, false), false)
  {
    PartOfSum(v, Part(w, v, false), v, false);
    SelfGone(v, v);
    PartAgain(w, v, v);
    SameParts(w, v + Part(v, v, false), v, false, false) by {
      forall i | 0 <= i < |w|
        ensures Occurs(w[i], v + Part(v, v, false)) <==> Occurs(w[i], v)
      {
        OperatorsOnSets(w[i], v, v);
      }
    }
    PartAgain(v, w, u);
  }

  lemma {:induction false} PartOfSum(a: seq<Svalue>, b: seq<Svalue>, w: seq<Svalue>, hit: bool)
    ensures Part(a + b, w, hit) == Part(a, w, hit) + Part(b, w, hit)
  {
    if b == [] {
      assert a + b == a;
    } else {
      var n := |b| - 1;
      assert (a + b)[..|a + b| - 1] == a + b[..n];
      PartOfSum(a, b[..n], w, hit);
    }
  }

  /** Nothing is left after subtracting a vector that holds it all. */
  lemma {:induction false} SelfGone(v: seq<Svalue>, w: seq<Svalue>)
    requires forall i :: 0 <= i < |v| ==> Occurs(v[i], w)
    ensures Part(v, w, false) == []
  {
    if v != [] {
      assert forall i :: 0 <= i < |v| - 1 ==> v[..|v| - 1][i] == v[i];
      SelfGone(v[..|v| - 1], w);
    }
  }

  /** Subtracting one vector after the other subtracts their join. */
  lemma {:induction false} PartAgain(v: seq<Svalue>, w: seq<Svalue>, u: seq<Svalue>)
    ensures Part(Part(v, w, false), u, false) == Part(v, w + Part(u, w, false), false)
  {
    if v != [] {
      var n := |v| - 1;
      PartAgain(v[..n], w, u);
      OperatorsOnSets(v[n], w, u);
      PartOfSum(Part(v[..n], w, false), if Occurs(v[n], w) then [] else [v[n]], u, false);
      PartOfOne(v[n], u);
    }
  }

  lemma PartOfOne(x: Svalue, w: seq<Svalue>)
    ensures Part([x], w, false) == if Occurs(x, w) then [] else [x]
  {
    assert Part([x], w, false) == Part([x][..0], w, false) + if Occurs(x, w) then [] else [x];
  }
}
