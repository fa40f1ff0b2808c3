/** Breaking a string at a delimiter and putting it together again. */
module Explode {
  import opened Wrappers

  /** The delimiter stands at position `p`. */
  predicate At(s: string, d: string, p: nat) {
    p + |d| <= |s| && s[p..p + |d|] == d
  }

  /** The pieces of s[beg..] if the delimiter is not looked for before `p`. */
  ghost function Pieces(s: string, d: string, beg: nat, p: nat): (r: seq<string>)
    requires d != "" && beg <= p <= |s|
    ensures r != []
    decreases |s| - p
  {
    if p == |s| then [s[beg..]]
    else if At(s, d, p) then [s[beg..p]] + Pieces(s, d, p + |d|, p + |d|)
    else Pieces(s, d, beg, p + 1)
  }

  ghost function Exploded(s: string, d: string): seq<string> {
    if d == "" then seq(|s|, i requires 0 <= i < |s| => [s[i]]) else Pieces(s, d, 0, 0)
  }

  // ----- the scans

  /** The first place of `c` from `p` on, as memchr finds it. */
  method MemChr(s: string, c: char, p: nat) returns (r: Option<nat>)
    requires p <= |s|
    ensures r == None ==> forall q :: p <= q < |s| ==> s[q] != c
    ensures r.Some? ==> p <= r.value < |s| && s[r.value] == c && forall q :: p <= q < r.value ==> s[q] != c
  {
    var q := p;
    while q < |s|
      invariant p <= q <= |s| && forall x :: p <= x < q ==> s[x] != c
    {
      if s[q] == c {
        return Some(q);
      }
      q := q + 1;
    }
    return None;
  }

  /** Where no delimiter stands the scan goes on to the end or to the next one. */
  lemma {:induction false} SkipTo(s: string, d: string, beg: nat, p: nat, q: nat)
    requires d != "" && beg <= p <= q <= |s| && forall x :: p <= x < q ==> !At(s, d, x)
    ensures Pieces(s, d, beg, p) == Pieces(s, d, beg, q)
    decreases q - p
  {
    if p < q {
      SkipTo(s, d, beg, p + 1, q);
    }
  }

  lemma CharAt(s: string, c: char)
    ensures forall p: nat :: At(s, [c], p) <==> p < |s| && s[p] == c
  {
    forall p: nat | p < |s|
      ensures At(s, [c], p) <==> s[p] == c
    {
      assert s[p..p + 1] == [s[p]];
    }
  }

  /** Count the pieces for a delimiter of one character. */
  method CountChar(s: string, c: char) returns (num: nat)
    ensures num == |Pieces(s, [c], 0, 0)|
  {
    CharAt(s, c);
    num := 1;
    var p: nat := 0;
    ghost var beg: nat := 0;
    while p < |s|
      invariant beg <= p <= |s| && num + |Pieces(s, [c], beg, p)| - 1 == |Pieces(s, [c], 0, 0)|
    {
      var q := MemChr(s, c, p);
      if q == None {
        SkipTo(s, [c], beg, p, |s|);
        return;
      }
      SkipTo(s, [c], beg, p, q.value);
      p := q.value + 1;
      beg := p;
      num := num + 1;
    }
  }

  /** `ret` holds the first `num` pieces, and the others are still to be found. */
  ghost predicate Found(ret: seq<string>, num: nat, s: string, d: string, beg: nat, p: nat) {
    && d != "" && beg <= p <= |s|
    && num + |Pieces(s, d, beg, p)| == |ret| == |Pieces(s, d, 0, 0)|
    && ret[..num] + Pieces(s, d, beg, p) == Pieces(s, d, 0, 0)
  }

  lemma FoundStart(ret: seq<string>, s: string, d: string)
    requires d != "" && |ret| == |Pieces(s, d, 0, 0)|
    ensures Found(ret, 0, s, d, 0, 0)
  {
    assert ret[..0] + Pieces(s, d, 0, 0) == Pieces(s, d, 0, 0);
  }

  lemma FoundOne(ret: seq<string>, num: nat, s: string, d: string, beg: nat, p: nat)
    requires Found(ret, num, s, d, beg, p) && p < |s| && At(s, d, p)
    ensures num < |ret| && Found(ret[num := s[beg..p]], num + 1, s, d, p + |d|, p + |d|)
  {
    var rest := Pieces(s, d, p + |d|, p + |d|);
    assert ret[num := s[beg..p]][..num + 1] == ret[..num] + [s[beg..p]];
    assert ret[..num] + ([s[beg..p]] + rest) == ret[..num] + [s[beg..p]] + rest;
  }

  lemma FoundLast(ret: seq<string>, num: nat, s: string, d: string, beg: nat)
    requires Found(ret, num, s, d, beg, |s|)
    ensures num == |ret| - 1 && ret[num := s[beg..]] == Pieces(s, d, 0, 0)
  {
    assert ret[num := s[beg..]] == ret[..num] + [s[beg..]];
  }

  method ExplodeChar(s: string, c: char) returns (ret: array<string>)
    ensures fresh(ret) && ret[..] == Exploded(s, [c])
  {
    hide Found, Pieces;
    var num := CountChar(s, c);
    ret := new string[num];
    CharAt(s, c);
    FoundStart(ret[..], s, [c]);
    var svp: nat, txt: nat := 0, 0;
    while true
      invariant Found(ret[..], svp, s, [c], txt, txt) && txt <= |s|
      decreases |s| - txt
    {
      var q := MemChr(s, c, txt);
      if q == None {
        SkipTo(s, [c], txt, txt, |s|);
        FoundSame(ret[..], svp, s, [c], txt, txt, |s|);
        break;
      }
      SkipTo(s, [c], txt, txt, q.value);
      FoundSame(ret[..], svp, s, [c], txt, txt, q.value);
      FoundOne(ret[..], svp, s, [c], txt, q.value);
      ret[svp] := s[txt..q.value];
      svp := svp + 1;
      txt := q.value + 1;
    }
    FoundLast(ret[..], svp, s, [c], txt);
    ret[svp] := s[txt..];
  }

  lemma FoundSame(ret: seq<string>, num: nat, s: string, d: string, beg: nat, p: nat, q: nat)
    requires Found(ret, num, s, d, beg, p) && p <= q <= |s| && Pieces(s, d, beg, p) == Pieces(s, d, beg, q)
    ensures Found(ret, num, s, d, beg, q)
  {
  }

  method CountPieces(s: string, d: string) returns (num: nat)
    requires d != ""
    ensures num == |Pieces(s, d, 0, 0)|
  {
    num := 1;
    var p: nat := 0;
    ghost var beg: nat := 0;
    while p < |s|
      invariant beg <= p <= |s| && num + |Pieces(s, d, beg, p)| - 1 == |Pieces(s, d, 0, 0)|
    {
      if At(s, d, p) {
        p := p + |d|;
        num := num + 1;
        beg := p;
      } else {
        p := p + 1;
      }
    }
  }

  method ExplodeAny(s: string, d: string) returns (ret: array<string>)
    requires d != ""
    ensures fresh(ret) && ret[..] == Exploded(s, d)
  {
    hide Found, Pieces;
    var num := CountPieces(s, d);
    ret := new string[num];
    FoundStart(ret[..], s, d);
    var p: nat, beg: nat := 0, 0;
    num := 0;
    while p < |s|
      invariant Found(ret[..], num, s, d, beg, p) && beg <= p <= |s|
    {
      if At(s, d, p) {
        FoundOne(ret[..], num, s, d, beg, p);
        ret[num] := s[beg..p];
        num := num + 1;
        beg := p + |d|;
        p := beg;
      } else {
        SkipTo(s, d, beg, p, p + 1);
        FoundSame(ret[..], num, s, d, beg, p, p + 1);
        p := p + 1;
      }
    }
    FoundLast(ret[..], num, s, d, beg);
    ret[num] := s[beg..];
  }

  /** The pieces of the string between the delimiters; its characters, if the delimiter is empty. */
  method ExplodeString(s: string, d: string) returns (ret: array<string>)
    ensures fresh(ret) && ret[..] == Exploded(s, d)
  {
    if |d| == 0 {
      ret := new string[|s|];
      var i := 0;
      while i < |s|
        invariant i <= |s| && forall k :: 0 <= k < i ==> ret[k] == [s[k]]
      {
        ret[i] := [s[i]];
        i := i + 1;
      }
    } else if |d| == 1 {
      assert d == [d[0]];
      ret := ExplodeChar(s, d[0]);
    } else {
      ret := ExplodeAny(s, d);
    }
  }

  // ----- implode

  /** An element of the vector to be imploded. */
  datatype Item = Text(text: string) | Other

  function Texts(v: seq<Item>): seq<string> {
    if v == [] then [] else
      Texts(v[..|v| - 1]) + if v[|v| - 1].Text? then [v[|v| - 1].text] else []
  }

  /** The strings with the delimiter between them. */
  function Joined(ps: seq<string>, d: string): string {
    if ps == [] then "" else if |ps| == 1 then ps[0] else Joined(ps[..|ps| - 1], d) + d + ps[|ps| - 1]
  }

  /** What one more element adds. */
  lemma OneMore(v: seq<Item>, k: nat, d: string)
    requires k < |v|
    ensures v[k].Other? ==> Texts(v[..k + 1]) == Texts(v[..k])
    ensures v[k].Text? ==> Texts(v[..k + 1]) == Texts(v[..k]) + [v[k].text]
    ensures v[k].Text? ==>
              Joined(Texts(v[..k + 1]), d) == if Texts(v[..k]) == [] then v[k].text else Joined(Texts(v[..k]), d) + d + v[k].text
  {
    assert v[..k + 1][..k] == v[..k];
    if v[k].Text? {
      JoinedStep(Texts(v[..k]), v[k].text, d);
    }
  }

  lemma JoinedStep(ps: seq<string>, x: string, d: string)
    ensures Joined(ps + [x], d) == if ps == [] then x else Joined(ps, d) + d + x
  {
    assert (ps + [x])[..|ps|] == ps;
  }

  /** The size of the result, as it is computed beforehand; negative for no strings at all. */
  method ImplodedSize(v: seq<Item>, d: string) returns (size: int)
    ensures size == if Texts(v) == [] then -|d| else |Joined(Texts(v), d)|
  {
    size := -|d|;
    var k := 0;
    while k < |v|
      invariant k <= |v| && size == if Texts(v[..k]) == [] then -|d| else |Joined(Texts(v[..k]), d)|
    {
      OneMore(v, k, d);
      if v[k].Text? {
        size := size + |d| + |v[k].text|;
      }
      k := k + 1;
    }
    assert v[..k] == v;
  }

  method CopyText(result: array<char>, p: nat, text: string)
    requires p + |text| <= result.Length
    modifies result
    ensures result[..p + |text|] == old(result[..p]) + text
  {
    var k := 0;
    while k < |text|
      invariant k <= |text| && result[..p + k] == old(result[..p]) + text[..k]
    {
      result[p + k] := text[k];
      assert text[..k + 1] == text[..k] + [text[k]];
      assert result[..p + k + 1] == result[..p + k] + [result[p + k]];
      k := k + 1;
    }
  }

  lemma {:induction false} JoinedGrows(v: seq<Item>, d: string, k: nat)
    requires k <= |v|
    ensures |Joined(Texts(v[..k]), d)| <= |Joined(Texts(v), d)|
    decreases |v| - k
  {
    if k < |v| {
      OneMore(v, k, d);
      JoinedGrows(v, d, k + 1);
    } else {
      assert v[..k] == v;
    }
  }

  lemma SomeText(v: seq<Item>, i: nat)
    requires Texts(v) != [] && i < |v| && Texts(v[..i]) == [] && !v[i].Text?
    ensures i + 1 < |v| && Texts(v[..i + 1]) == []
  {
    OneMore(v, i, "");
    assert v[..|v|] == v;
  }

  /** Put the strings among the elements together, with the delimiter between them. */
  method ArrImplodeString(v: seq<Item>, d: string) returns (r: string)
    ensures r == Joined(Texts(v), d)
  {
    hide Joined, Texts;
    var size := ImplodedSize(v, d);
    if size <= 0 {
      NoText(v, d);
      return "";
    }
    NoText(v, d);
    var result := new char[size];
    var i := 0;
    assert v[..0] == [];
    NoText([], d);
    while !v[i].Text?
      invariant i < |v| && Texts(v[..i]) == []
      decreases |v| - i
    {
      SomeText(v, i);
      i := i + 1;
    }
    OneMore(v, i, d);
    JoinedGrows(v, d, i + 1);
    CopyText(result, 0, v[i].text);
    var p: nat := |v[i].text|;
    i := i + 1;
    while i < |v|
      invariant 0 < i <= |v| && Texts(v[..i]) != [] && p <= size && result[..p] == Joined(Texts(v[..i]), d)
    {
      OneMore(v, i, d);
      JoinedGrows(v, d, i + 1);
      if v[i].Text? {
        p := CopyNext(result, p, d, v[i].text);
      }
      i := i + 1;
    }
    assert v[..i] == v;
    assert result[..] == result[..p];
    return result[..];
  }

  /** Copy the delimiter and the next string. */
  method CopyNext(result: array<char>, p: nat, d: string, text: string) returns (p': nat)
    requires p + |d| + |text| <= result.Length
    modifies result
    ensures p' == p + |d| + |text| && result[..p'] == old(result[..p]) + d + text
  {
    CopyText(result, p, d);
    CopyText(result, p + |d|, text);
    p' := p + |d| + |text|;
  }

  lemma NoText(v: seq<Item>, d: string)
    ensures Texts(v) == [] ==> Joined(Texts(v), d) == ""
    ensures v == [] ==> Texts(v) == []
  {
  }

  // ----- explode and implode undo each other

  lemma {:induction false} JoinedFront(x: string, ps: seq<string>, d: string)
    requires ps != []
    ensures Joined([x] + ps, d) == x + d + Joined(ps, d)
  {
    var n := |ps| - 1;
    assert ([x] + ps)[..n + 1] == [x] + ps[..n];
    if n > 0 {
      JoinedFront(x, ps[..n], d);
      assert x + d + (Joined(ps[..n], d) + d + ps[n]) == x + d + Joined(ps[..n], d) + d + ps[n];
    }
  }

  lemma {:induction false} PiecesJoin(s: string, d: string, beg: nat, p: nat)
    requires d != "" && beg <= p <= |s|
    ensures Joined(Pieces(s, d, beg, p), d) == s[beg..]
    decreases |s| - p
  {
    hide Joined;
    if p < |s| {
      if At(s, d, p) {
        var q := p + |d|;
        PiecesJoin(s, d, q, q);
        JoinedFront(s[beg..p], Pieces(s, d, q, q), d);
        assert s[beg..] == s[beg..p] + s[p..q] + s[q..];
      } else {
        PiecesJoin(s, d, beg, p + 1);
      }
    } else {
      JoinedOne(s[beg..], d);
    }
  }

  lemma JoinedOne(x: string, d: string)
    ensures Joined([x], d) == x
  {
  }

  lemma {:induction false} CharsJoin(s: string, n: nat)
    requires n <= |s|
    ensures Joined(Exploded(s, "")[..n], "") == s[..n]
  {
    if n > 0 {
      CharsJoin(s, n - 1);
      var ps := Exploded(s, "")[..n];
      assert ps[..n - 1] == Exploded(s, "")[..n - 1];
    }
  }

  /** Imploding what has been exploded gives the string, for all strings and delimiters. */
  lemma ImplodeExploded(s: string, d: string)
    ensures Joined(Exploded(s, d), d) == s
  {
    if d == "" {
      CharsJoin(s, |s|);
      assert Exploded(s, d)[..|s|] == Exploded(s, d) && s[..|s|] == s;
    } else {
      PiecesJoin(s, d, 0, 0);
    }
  }

  /** The delimiter does not stand in the piece, nor across its end when another delimiter follows. */
  ghost predicate Clean(piece: string, d: string, last: bool) {
    NoneBefore(if last then piece else piece + d, d, |piece|)
  }

  ghost predicate NoneBefore(t: string, d: string, n: nat) {
    forall q: nat :: q < n ==> !At(t, d, q)
  }

  ghost predicate AllClean(ps: seq<string>, d: string) {
    forall k :: 0 <= k < |ps| ==> Clean(ps[k], d, k == |ps| - 1)
  }

  /** What stands in a part of the string stands in the string. */
  lemma OccursLater(s: string, d: string, a: nat, b: nat, q: nat)
    requires a <= b <= |s|
    ensures At(s[a..b], d, q) ==> At(s, d, a + q)
    ensures b == |s| ==> s[a..b] == s[a..]
  {
    if At(s[a..b], d, q) {
      SliceOfSlice(s, a, b, q, q + |d|);
    }
  }

  lemma {:induction false} PiecesClean(s: string, d: string, beg: nat, p: nat)
    requires d != "" && beg <= p <= |s| && forall x :: beg <= x < p ==> !At(s, d, x)
    ensures AllClean(Pieces(s, d, beg, p), d)
    decreases |s| - p
  {
    if p == |s| {
      forall q: nat | q < |s[beg..]|
        ensures !At(s[beg..], d, q)
      {
        OccursLater(s, d, beg, |s|, q);
      }
    } else if At(s, d, p) {
      var q := p + |d|;
      PiecesClean(s, d, q, q);
      var piece := s[beg..p];
      assert piece + d == s[beg..q];
      forall x: nat | x < |piece|
        ensures !At(piece + d, d, x)
      {
        OccursLater(s, d, beg, q, x);
      }
    } else {
      PiecesClean(s, d, beg, p + 1);
    }
  }

  lemma SliceOfSlice(s: string, a: nat, b: nat, i: nat, j: nat)
    requires a <= b <= |s| && i <= j <= b - a
    ensures s[a..b][i..j] == s[a + i..a + j]
  {
    assert forall k :: 0 <= k < j - i ==> s[a..b][i..j][k] == s[a + i..a + j][k];
  }

  /** Scanning joined pieces finds the first of them, if it is clean. */
  lemma FirstPiece(s: string, d: string, beg: nat, piece: string)
    requires d != "" && beg + |piece| + |d| <= |s| && s[beg..beg + |piece| + |d|] == piece + d && Clean(piece, d, false)
    ensures Pieces(s, d, beg, beg) == [piece] + Pieces(s, d, beg + |piece| + |d|, beg + |piece| + |d|)
  {
    var p := beg + |piece|;
    forall x: nat | beg <= x < p
      ensures !At(s, d, x)
    {
      var q := x - beg;
      SliceOfSlice(s, beg, beg + |piece| + |d|, q, q + |d|);
      assert !At(piece + d, d, q);
    }
    SkipTo(s, d, beg, beg, p);
    assert s[beg..p] == s[beg..beg + |piece| + |d|][..|piece|] == piece;
    assert s[p..p + |d|] == s[beg..beg + |piece| + |d|][|piece|..] == d;
    assert At(s, d, p);
  }

  lemma LastPiece(s: string, d: string, beg: nat)
    requires d != "" && beg <= |s| && Clean(s[beg..], d, true)
    ensures Pieces(s, d, beg, beg) == [s[beg..]]
  {
    forall x: nat | beg <= x < |s|
      ensures !At(s, d, x)
    {
      assert !At(s[beg..], d, x - beg);
      assert x + |d| <= |s| ==> s[beg..][x - beg..x - beg + |d|] == s[x..x + |d|];
    }
    SkipTo(s, d, beg, beg, |s|);
  }

  lemma FrontAndRest(s: string, beg: nat, front: string, rest: string)
    requires beg <= |s| && s[beg..] == front + rest
    ensures var q := beg + |front|; q <= |s| && s[beg..q] == front && s[q..] == rest
  {
    var q := beg + |front|;
    assert s[beg..q] == s[beg..][..|front|] && s[q..] == s[beg..][|front|..];
  }

  lemma {:induction false} CleanPieces(s: string, d: string, beg: nat, ps: seq<string>)
    requires d != "" && beg <= |s| && ps != [] && AllClean(ps, d) && Joined(ps, d) == s[beg..]
    ensures Pieces(s, d, beg, beg) == ps
    decreases |ps|
  {
    hide Clean, Pieces, Joined;
    if |ps| == 1 {
      assert ps == [ps[0]];
      JoinedOne(ps[0], d);
      LastPiece(s, d, beg);
    } else {
      var piece, rest := ps[0], ps[1..];
      assert ps == [piece] + rest;
      JoinedFront(piece, rest, d);
      var q := beg + |piece| + |d|;
      FrontAndRest(s, beg, piece + d, Joined(rest, d));
      assert Clean(ps[0], d, 0 == |ps| - 1);
      FirstPiece(s, d, beg, piece);
      RestClean(ps, d);
      CleanPieces(s, d, q, rest);
    }
  }

  lemma RestClean(ps: seq<string>, d: string)
    requires AllClean(ps, d) && |ps| > 1
    ensures AllClean(ps[1..], d)
  {
    hide Clean;
    forall k | 0 <= k < |ps| - 1
      ensures Clean(ps[1..][k], d, k == |ps| - 2)
    {
      assert Clean(ps[k + 1], d, k + 1 == |ps| - 1);
    }
  }

  /** Exploding what has been imploded gives the pieces exactly if each of them is clean. */
  lemma ExplodeJoinedIff(ps: seq<string>, d: string)
    requires d != ""
    ensures Exploded(Joined(ps, d), d) == ps <==> ps != [] && AllClean(ps, d)
  {
    var s := Joined(ps, d);
    PiecesClean(s, d, 0, 0);
    if ps != [] && AllClean(ps, d) {
      assert s[0..] == s;
      CleanPieces(s, d, 0, ps);
    }
  }

  /** For an empty delimiter that are the pieces of one character. */
  lemma ExplodeCharsIff(ps: seq<string>)
    ensures Exploded(Joined(ps, ""), "") == ps <==> forall k :: 0 <= k < |ps| ==> |ps[k]| == 1
  {
    if forall k :: 0 <= k < |ps| ==> |ps[k]| == 1 {
      JoinedChars(ps);
      assert Exploded(Joined(ps, ""), "") == ps;
    }
  }

  lemma {:induction false} JoinedChars(ps: seq<string>)
    requires forall k :: 0 <= k < |ps| ==> |ps[k]| == 1
    ensures |Joined(ps, "")| == |ps| && forall k :: 0 <= k < |ps| ==> [Joined(ps, "")[k]] == ps[k]
  {
    if |ps| > 1 {
      JoinedChars(ps[..|ps| - 1]);
    }
  }

  /** For a delimiter of one character the clean pieces are those free of it. */
  lemma CleanChar(piece: string, c: char, last: bool)
    ensures Clean(piece, [c], last) <==> c !in piece
  {
    CharAt(if last then piece else piece + [c], c);
    var t := if last then piece else piece + [c];
    assert forall q: nat :: q < |piece| ==> t[q] == piece[q];
    if c in piece {
      var q: nat :| q < |piece| && piece[q] == c;
      assert At(t, [c], q);
    }
  }
}
