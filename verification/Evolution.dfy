/** How the list of sentences may change while a command is being searched: new actions come in at the front, any actions
    may go, a shadow sentence may come or go at the head, and markers stay. */
module Evolution {
  import opened Sentences

  type List = seq<Action>

  /** `a` is what is left of `b` after removing some of it. */
  predicate Sub(a: List, b: List)
    decreases |b|
  {
    a == [] || (b != [] && (if a[0] == b[0] then Sub(a[1..], b[1..]) || Sub(a, b[1..]) else Sub(a, b[1..])))
  }

  function Mark(a: Action): List {
    if a.kind.Marker? then [a] else []
  }

  function Markers(l: List): List {
    if l == [] then [] else Mark(l[0]) + Markers(l[1..])
  }

  lemma {:induction false} SubSelf(a: List)
    ensures Sub(a, a)
  {
    if a != [] {
      SubSelf(a[1..]);
    }
  }

  lemma {:induction false} SubMore(a: List, x: List, b: List)
    requires Sub(a, b)
    ensures Sub(a, x + b)
    decreases |x|
  {
    if x == [] {
      assert x + b == b;
    } else {
      SubMore(a, x[1..], b);
      assert (x + b)[1..] == x[1..] + b;
    }
  }

  lemma {:induction false} SubConcat(a: List, b: List, c: List, d: List)
    requires Sub(a, b) && Sub(c, d)
    ensures Sub(a + c, b + d)
    decreases |b|
  {
    if a == [] {
      assert a + c == c;
      SubMore(c, b, d);
    } else {
      assert (b + d)[1..] == b[1..] + d && (a + c)[1..] == a[1..] + c;
      if a[0] == b[0] && Sub(a[1..], b[1..]) {
        SubConcat(a[1..], b[1..], c, d);
      } else {
        SubConcat(a, b[1..], c, d);
      }
    }
  }

  lemma {:induction false} SubTrans(a: List, b: List, c: List)
    requires Sub(a, b) && Sub(b, c)
    ensures Sub(a, c)
    decreases |c|
  {
    if a != [] {
      if b[0] == c[0] && Sub(b[1..], c[1..]) {
        if a[0] == b[0] && Sub(a[1..], b[1..]) {
          SubTrans(a[1..], b[1..], c[1..]);
        } else {
          SubTrans(a, b[1..], c[1..]);
        }
      } else {
        SubTrans(a, b, c[1..]);
      }
    }
  }

  /** What is left of two lists is what is left of each. */
  lemma {:induction false} SubSplit(s: List, a: List, b: List) returns (k: nat)
    requires Sub(s, a + b)
    ensures k <= |s| && Sub(s[..k], a) && Sub(s[k..], b)
    decreases |a|
  {
    if s == [] || a == [] {
      k := 0;
      assert a == [] ==> a + b == b;
    } else {
      assert (a + b)[1..] == a[1..] + b;
      if s[0] == a[0] && Sub(s[1..], a[1..] + b) {
        var m := SubSplit(s[1..], a[1..], b);
        k := m + 1;
        assert s[..k][1..] == s[1..][..m] && s[k..] == s[1..][m..];
      } else {
        k := SubSplit(s, a[1..], b);
        SubMore(s[..k], [a[0]], a[1..]);
        assert [a[0]] + a[1..] == a;
      }
    }
  }

  /** Two parts are left of two parts. */
  lemma {:induction false} SubParts(a: List, b: List, s: List) returns (k: nat)
    requires Sub(a + b, s)
    ensures k <= |s| && Sub(a, s[..k]) && Sub(b, s[k..])
    decreases |s|
  {
    if a == [] {
      k := 0;
      assert a + b == b && s[0..] == s;
    } else {
      assert (a + b)[1..] == a[1..] + b;
      if a[0] == s[0] && Sub(a[1..] + b, s[1..]) {
        var m := SubParts(a[1..], b, s[1..]);
        k := m + 1;
        assert s[..k][1..] == s[1..][..m] && s[k..] == s[1..][m..];
      } else {
        var m := SubParts(a, b, s[1..]);
        k := m + 1;
        assert s[..k] == [s[0]] + s[1..][..m] && s[k..] == s[1..][m..];
        SubMore(a, [s[0]], s[1..][..m]);
      }
    }
  }

  lemma {:induction false} SubIn(a: List, b: List)
    requires Sub(a, b)
    ensures forall x :: x in a ==> x in b
    decreases |b|
  {
    if a != [] {
      if a[0] == b[0] && Sub(a[1..], b[1..]) {
        SubIn(a[1..], b[1..]);
        assert a == [b[0]] + a[1..];
      } else {
        SubIn(a, b[1..]);
      }
      assert b == [b[0]] + b[1..];
    }
  }

  lemma {:induction false} SubLength(a: List, b: List)
    requires Sub(a, b)
    ensures |a| <= |b| && (|a| == |b| ==> a == b)
    decreases |b|
  {
    if a != [] {
      if a[0] == b[0] && Sub(a[1..], b[1..]) {
        SubLength(a[1..], b[1..]);
      } else {
        SubLength(a, b[1..]);
      }
    }
  }

  lemma {:induction false} MarkersConcat(a: List, b: List)
    ensures Markers(a + b) == Markers(a) + Markers(b)
  {
    hide Mark;
    if a == [] {
      assert a + b == b;
    } else {
      MarkersConcat(a[1..], b);
      assert (a + b)[1..] == a[1..] + b && (a + b)[0] == a[0];
      assert Mark(a[0]) + (Markers(a[1..]) + Markers(b)) == Mark(a[0]) + Markers(a[1..]) + Markers(b);
    }
  }

  lemma {:induction false} SubMarkers(a: List, b: List)
    requires Sub(a, b)
    ensures Sub(Markers(a), Markers(b))
    decreases |b|
  {
    if a != [] {
      var m := Mark(b[0]);
      if a[0] == b[0] && Sub(a[1..], b[1..]) {
        SubMarkers(a[1..], b[1..]);
        SubSelf(m);
        SubConcat(m, m, Markers(a[1..]), Markers(b[1..]));
      } else {
        SubMarkers(a, b[1..]);
        SubMore(Markers(a), m, Markers(b[1..]));
      }
    }
  }

  /** Left of `b`, with all its markers. */
  ghost predicate Kept(a: List, b: List) {
    Sub(a, b) && Markers(a) == Markers(b)
  }

  lemma KeptConcat(a: List, b: List, c: List, d: List)
    requires Kept(a, b) && Kept(c, d)
    ensures Kept(a + c, b + d)
  {
    SubConcat(a, b, c, d);
    MarkersConcat(a, c);
    MarkersConcat(b, d);
  }

  lemma KeptSplit(s: List, a: List, b: List) returns (x: List, y: List)
    requires Kept(s, a + b)
    ensures s == x + y && Kept(x, a) && Kept(y, b)
  {
    var k := SubSplit(s, a, b);
    x, y := s[..k], s[k..];
    assert s == x + y;
    MarkersConcat(a, b);
    MarkersConcat(x, y);
    SubMarkers(x, a);
    SubMarkers(y, b);
    SubLength(Markers(x), Markers(a));
    SubLength(Markers(y), Markers(b));
  }

  lemma KeptParts(a: List, b: List, s: List) returns (x: List, y: List)
    requires Kept(a + b, s)
    ensures s == x + y && Kept(a, x) && Kept(b, y)
  {
    var k := SubParts(a, b, s);
    x, y := s[..k], s[k..];
    assert s == x + y;
    MarkersConcat(a, b);
    MarkersConcat(x, y);
    SubMarkers(a, x);
    SubMarkers(b, y);
    SubLength(Markers(a), Markers(x));
    SubLength(Markers(b), Markers(y));
  }

  lemma KeptTrans(a: List, b: List, c: List)
    requires Kept(a, b) && Kept(b, c)
    ensures Kept(a, c)
  {
    SubTrans(a, b, c);
  }

  // ----- one list after another

  /** Actions numbered from `n0` on. */
  ghost predicate New(l: List, n0: nat, n: nat) {
    n0 <= n && forall i :: 0 <= i < |l| ==> n0 <= l[i].id < n && !IsInternal(l[i].kind)
  }

  lemma {:induction false} NewMarkers(l: List, n0: nat, n: nat)
    requires New(l, n0, n)
    ensures Markers(l) == []
  {
    if l != [] {
      NewMarkers(l[1..], n0, n);
    }
  }

  lemma NewSub(a: List, l: List, n0: nat, n: nat)
    requires Sub(a, l) && New(l, n0, n)
    ensures New(a, n0, n)
  {
    SubIn(a, l);
    forall i | 0 <= i < |a|
      ensures n0 <= a[i].id < n && !IsInternal(a[i].kind)
    {
      assert a[i] in l;
    }
  }

  lemma NewBoth(a: List, x: List, l: List, n0: nat, n1: nat, n2: nat)
    requires New(a, n1, n2) && New(l, n0, n1) && Kept(x, l)
    ensures New(a + x, n0, n2)
  {
    NewSub(x, l, n0, n1);
  }

  /** A shadow sentence, or nothing. */
  ghost predicate IsHead(h: List) {
    h == [] || (|h| == 1 && h[0].kind.Shadow?)
  }

  /** The list has become `l`: behind a shadow sentence, which may have come or gone, there are new actions and what is
      left of the old ones. */
  ghost predicate Became(l0: List, n0: nat, l: List, n: nat, head: List, added: List, kept: List) {
    l == head + added + kept && IsHead(head) && New(added, n0, n) && Kept(kept, Tail(l0))
  }

  ghost predicate Evolved(l0: List, n0: nat, l: List, n: nat) {
    exists head, added, kept :: Became(l0, n0, l, n, head, added, kept)
  }

  lemma EvolvedSelf(l: List, n: nat)
    ensures Evolved(l, n, l, n)
  {
    SubSelf(Tail(l));
    assert l == Head(l) + [] + Tail(l);
    assert Became(l, n, l, n, Head(l), [], Tail(l));
  }

  lemma HeadKept(l0: List, n0: nat, l: List, n: nat, head: List, added: List, kept: List)
    requires Became(l0, n0, l, n, head, added, kept) && WellFormed(l0, n0)
    ensures Head(l) == head && Tail(l) == added + kept
  {
    SubIn(kept, Tail(l0));
    if added + kept != [] && head == [] {
      if added == [] {
        assert kept[0] in Tail(l0);
      }
    }
  }

  lemma BecameTrans(l0: List, n0: nat, l1: List, n1: nat, l2: List, n2: nat, h1: List, a1: List, k1: List, h2: List,
                    a2: List, k2: List)
    returns (added: List, kept: List)
    requires Became(l0, n0, l1, n1, h1, a1, k1) && Became(l1, n1, l2, n2, h2, a2, k2) && WellFormed(l0, n0)
    ensures Became(l0, n0, l2, n2, h2, added, kept)
  {
    HeadKept(l0, n0, l1, n1, h1, a1, k1);
    hide Sub, Markers, Kept, New, Head, Tail, WellFormed, IsHead;
    var x, y := KeptSplit(k2, a1, k1);
    NewBoth(a2, x, a1, n0, n1, n2);
    KeptTrans(y, k1, Tail(l0));
    added, kept := a2 + x, y;
    Regroup(h2, a2, x, y);
  }

  lemma Regroup(a: List, b: List, c: List, d: List)
    ensures a + b + (c + d) == a + (b + c) + d
  {
  }

  lemma EvolvedTrans(l0: List, n0: nat, l1: List, n1: nat, l2: List, n2: nat)
    requires Evolved(l0, n0, l1, n1) && Evolved(l1, n1, l2, n2) && WellFormed(l0, n0)
    ensures Evolved(l0, n0, l2, n2)
  {
    hide Became, WellFormed;
    var h1, a1, k1 :| Became(l0, n0, l1, n1, h1, a1, k1);
    var h2, a2, k2 :| Became(l1, n1, l2, n2, h2, a2, k2);
    var added, kept := BecameTrans(l0, n0, l1, n1, l2, n2, h1, a1, k1, h2, a2, k2);
  }
}
