/** Values as far as their order is concerned, and the search in ordered vectors. */
module LookupKey {
  import opened Wrappers

  /** A value with its place in the internal order. Values with the same rank are equal to svalue_eq. */
  datatype Svalue = Svalue(rank: int, content: string)

  function SvalueCmp(a: Svalue, b: Svalue): int {
    a.rank - b.rank
  }

  ghost predicate Ordered(v: seq<Svalue>) {
    forall i, j :: 0 <= i < j < |v| ==> SvalueCmp(v[i], v[j]) <= 0
  }

  /** All elements before `p` are less than `key`, and none behind is less. */
  ghost predicate Place(key: Svalue, v: seq<Svalue>, p: int) {
    && 0 <= p <= |v|
    && (forall i :: 0 <= i < p ==> SvalueCmp(v[i], key) < 0)
    && forall i :: p <= i < |v| ==> SvalueCmp(v[i], key) >= 0
  }

  lemma {:induction false} PlaceExists(key: Svalue, v: seq<Svalue>) returns (p: int)
    requires Ordered(v)
    ensures Place(key, v, p)
  {
    if v == [] || SvalueCmp(v[0], key) >= 0 {
      p := 0;
    } else {
      var q := PlaceExists(key, v[1..]);
      p := q + 1;
      assert forall i :: 0 < i < |v| ==> v[i] == v[1..][i - 1];
    }
  }

  /** With step `o` the search can still get from `i` to the place `p`; it cannot end just before an equal key. */
  ghost predicate Reaches(key: Svalue, v: seq<Svalue>, p: int, i: int, o: int) {
    && i - (2 * o - 1) <= p <= i + 2 * o
    && (p == i + 2 * o && p < |v| ==> 0 <= p && SvalueCmp(v[p], key) > 0)
  }

  /** The key is found, or the place where it belongs is returned as a negative number. A key that is an untabled string
      without tabled twin cannot be in the vector. */
  method LookupKey(key: Svalue, known: bool, v: seq<Svalue>) returns (r: int)
    requires Ordered(v)
    ensures !known ==> r == -1
    ensures known && r >= 0 ==> r < |v| && SvalueCmp(key, v[r]) == 0
    ensures known && r < 0 ==> Place(key, v, -r - 1) && forall i :: 0 <= i < |v| ==> SvalueCmp(key, v[i]) != 0
  {
    if !known || |v| == 0 {
      return -1;
    }
    ghost var p := PlaceExists(key, v);
    var i := |v| / 2;
    var o := (i + 2) / 2;
    while true
      invariant 0 <= i < |v| && 1 <= o && Reaches(key, v, p, i, o)
      decreases o
    {
      var d := SvalueCmp(key, v[i]);
      if d < 0 {
        i := i - o;
        if i < 0 {
          i := 0;
        }
      } else if d > 0 {
        i := i + o;
        if i >= |v| {
          i := |v| - 1;
        }
      } else {
        return i;
      }
      if o <= 1 {
        d := SvalueCmp(key, v[i]);
        if d == 0 {
          return i;
        }
        return if d > 0 then -(i + 1) - 1 else -i - 1;
      }
      o := (o + 1) / 2;
    }
  }

  /** Putting a key in at the place returned for it keeps the vector ordered, and then it is found there. */
  lemma InsertionKeepsOrder(key: Svalue, v: seq<Svalue>, r: int)
    requires Ordered(v) && r < 0 && Place(key, v, -r - 1)
    ensures Ordered(v[..-r - 1] + [key] + v[-r - 1..]) && Place(key, v[..-r - 1] + [key] + v[-r - 1..], -r - 1)
  {
    var p := -r - 1;
    var w := v[..p] + [key] + v[p..];
    assert forall i :: 0 <= i < |w| ==> w[i] == if i < p then v[i] else if i == p then key else v[i - 1];
  }

  /** The same search in the sorted function names of a program: an index, or -1 if there is no such function. */
  method FindFunction(name: Svalue, names: seq<Svalue>) returns (r: int)
    requires Ordered(names)
    ensures r == -1 <==> forall i :: 0 <= i < |names| ==> SvalueCmp(name, names[i]) != 0
    ensures r != -1 ==> 0 <= r < |names| && SvalueCmp(name, names[r]) == 0
  {
    if |names| == 0 {
      return -1;
    }
    ghost var p := PlaceExists(name, names);
    var i := |names| / 2;
    var o := (i + 2) / 2;
    while true
      invariant 0 <= i < |names| && 1 <= o && Reaches(name, names, p, i, o)
      decreases o
    {
      var d := SvalueCmp(name, names[i]);
      if d < 0 {
        i := i - o;
        if i < 0 {
          i := 0;
        }
      } else if d > 0 {
        i := i + o;
        if i >= |names| {
          i := |names| - 1;
        }
      } else {
        return i;
      }
      if o <= 1 {
        return if SvalueCmp(name, names[i]) != 0 then -1 else i;
      }
      o := (o + 1) / 2;
    }
  }
}
