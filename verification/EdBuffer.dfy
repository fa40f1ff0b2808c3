/** The text of the line editor: a ring of lines around an anchor, and the current line with its number. */
module EdBuffer {
  import opened Wrappers
  import Explode

  const MAXLINE := 2048

  class Line {
    const text: string
    var prev: Line
    var next: Line
    /** Marked by a global command. */
    var glob: bool

    constructor (text: string)
      ensures this.text == text && prev == next == this && !glob
    {
      this.text := text;
      prev, next, glob := this, this, false;
    }
  }

  function Succ(i: nat, n: nat): nat {
    if i + 1 == n then 0 else i + 1
  }

  /** The place in a ring of n lines that `a` steps lead to. */
  function Around(a: nat, n: nat): (r: nat)
    requires n > 0
    ensures r < n && (a < n ==> r == a)
    decreases a
  {
    if a < n then a else Around(a - n, n)
  }

  ghost predicate Distinct(r: seq<Line>) {
    forall i, j :: 0 <= i < j < |r| ==> r[i] != r[j]
  }

  /** The i-th line of the ring and the one after it point to each other. */
  ghost predicate Linked(r: seq<Line>, i: nat)
    requires i < |r|
    reads r[i], r[Succ(i, |r|)]
  {
    r[i].next == r[Succ(i, |r|)] && r[Succ(i, |r|)].prev == r[i]
  }

  ghost function LinesOf(r: seq<Line>): set<Line> {
    set i | 0 <= i < |r| :: r[i]
  }

  lemma Among(r: seq<Line>)
    ensures forall i :: 0 <= i < |r| ==> r[i] in LinesOf(r)
  {
  }

  /** The lines are linked to a ring. */
  ghost predicate Closed(r: seq<Line>)
    reads LinesOf(r)
  {
    r != [] && Distinct(r) && forall i :: 0 <= i < |r| ==> Linked(r, i)
  }

  /** The lines are linked one to the next. */
  ghost predicate Chain(r: seq<Line>)
    reads LinesOf(r)
  {
    r != [] && Distinct(r) && forall i, j :: 0 <= i && j == i + 1 && j < |r| ==> r[i].next == r[j] && r[j].prev == r[i]
  }

  /** The texts of the lines. */
  function Texts(r: seq<Line>): seq<string> {
    seq(|r|, i requires 0 <= i < |r| => r[i].text)
  }

  /** No line of the text goes over a line end. */
  predicate Unbroken(t: string) {
    '\n' !in t
  }

  /** No line behind the anchor goes over a line end. */
  ghost predicate AllUnbroken(r: seq<Line>) {
    forall i :: 0 < i < |r| ==> Unbroken(r[i].text)
  }

  /** Lines a to b, both included, are taken out. */
  function Without<T>(s: seq<T>, a: nat, b: nat): seq<T>
    requires a <= b + 1 <= |s|
  {
    s[..a] + s[b + 1..]
  }

  /** Lines are put in before place k. */
  function With<T>(s: seq<T>, k: nat, t: seq<T>): seq<T>
    requires k <= |s|
  {
    s[..k] + t + s[k..]
  }

  class EdBuffer {
    const line0: Line
    var curLn: int
    var curPtr: Line
    var lastLn: int
    var line1: int
    var line2: int
    var fchanged: bool
    /** The anchor and the lines. */
    ghost var ring: seq<Line>

    ghost predicate Ring()
      reads this, LinesOf(ring)
    {
      && |ring| == lastLn + 1 && lastLn >= 0 && ring[0] == line0 && Closed(ring)
    }

    ghost predicate Valid()
      reads this, LinesOf(ring)
    {
      && Ring() && 0 <= curLn <= lastLn && curPtr == ring[curLn]
      && AllUnbroken(ring)
    }

    /** The lines of the text, without the anchor. */
    ghost function Text(): seq<string>
      requires |ring| > 0
      reads this
    {
      Texts(ring[1..])
    }

    constructor ()
      ensures Valid() && Text() == [] && fresh(LinesOf(ring)) && !fchanged
    {
      var anchor := new Line("");
      line0, curPtr := anchor, anchor;
      curLn, lastLn, line1, line2, fchanged := 0, 0, 0, 0, false;
      ring := [anchor];
    }

    /** The line with this number, found by the shortest of four walks. Numbers behind the last line go round the ring. */
    method GetPtr(num: int) returns (ptr: Line)
      requires Valid()
      ensures ptr == ring[if num < 0 then 0 else Around(num, |ring|)]
    {
      hide Distinct;
      var cur := curLn;
      if num >= cur {
        if 2 * num - cur > lastLn && num <= lastLn {
          assert Linked(ring, lastLn);
          ptr := Backward(line0.prev, lastLn, lastLn - num);
        } else {
          ptr := Forward(curPtr, cur, num - cur);
        }
      } else if 2 * num <= cur {
        ptr := Forward(line0, 0, num);
      } else {
        ptr := Backward(curPtr, cur, cur - num);
      }
    }

    method Forward(start: Line, ghost i: nat, steps: int) returns (ptr: Line)
      requires Ring() && i < |ring| && start == ring[i]
      ensures ptr == ring[Around(i + if steps < 0 then 0 else steps, |ring|)]
    {
      ptr := start;
      var j := steps;
      ghost var k: nat := i;
      while j > 0
        invariant 0 <= k < |ring| && ptr == ring[k]
        invariant if steps < 0 then k == i && j == steps else 0 <= j && k == Around(i + steps - j, |ring|)
      {
        assert Linked(ring, k);
        AroundNext(i + steps - j, |ring|);
        ptr := ptr.next;
        k := Succ(k, |ring|);
        j := j - 1;
      }
    }

    method Backward(start: Line, ghost i: nat, steps: nat) returns (ptr: Line)
      requires Ring() && steps <= i < |ring| && start == ring[i]
      ensures ptr == ring[i - steps]
    {
      ptr := start;
      var j := steps;
      while j > 0
        invariant 0 <= j <= steps && ptr == ring[i - steps + j]
      {
        assert Linked(ring, i - steps + j - 1);
        ptr := ptr.prev;
        j := j - 1;
      }
    }

    /** Make the line with this number the current one. */
    method SetCurLn(num: nat)
      requires Valid() && num <= lastLn
      modifies `curLn, `curPtr
      ensures Valid() && curLn == num
    {
      hide Distinct;
      curPtr := GetPtr(num);
      curLn := num;
    }

    /** Link a new line in behind the current one, and make it the current line. */
    method InsertLine(text: string)
      requires Valid() && Unbroken(text)
      modifies this, LinesOf(ring)`prev, LinesOf(ring)`next
      ensures Valid() && line1 == old(line1) && line2 == old(line2) && fchanged == old(fchanged)
      ensures curLn == old(curLn) + 1 && fresh(curPtr) && !curPtr.glob && curPtr.text == text
      ensures ring == With(old(ring), old(curLn) + 1, [curPtr])
    {
      hide LinesOf;
      ghost var r, c := ring, curLn + 1;
      Among(r);
      var line := new Line(text);
      assert Linked(r, curLn);
      var nxt := curPtr.next;
      line.prev, line.next := curPtr, nxt;
      nxt.prev := line;
      curPtr.next := line;
      lastLn := lastLn + 1;
      curLn := curLn + 1;
      curPtr := line;
      ring := With(r, c, [line]);
      ghost var w := ring;
      WithOne(r, c, line, w);
      forall i | 0 <= i < |w|
        ensures Linked(w, i)
      {
        if i < c - 1 {
          assert old(Linked(r, i));
        } else if i > c {
          assert old(Linked(r, i - 1));
        }
      }
    }

    /** Insert the string behind the current line: one line up to each line end, and one for the rest. */
    method Ins(str: string) returns (ghost lines: seq<Line>)
      requires Valid()
      modifies this, LinesOf(ring)`prev, LinesOf(ring)`next
      ensures Valid() && line1 == old(line1) && line2 == old(line2) && fchanged == old(fchanged)
      ensures Texts(lines) == Explode.Exploded(str, "\n") && forall i :: 0 <= i < |lines| ==> fresh(lines[i]) && !lines[i].glob
      ensures ring == With(old(ring), old(curLn) + 1, lines) && curLn == old(curLn) + |lines|
    {
      hide Closed, With, Texts, Explode.Pieces, Explode.Exploded;
      var beg: nat := 0;
      lines := [];
      ghost var r, c := ring, curLn + 1;
      InsStarts(r, c, str);
      while true
        invariant beg <= |str| && Valid() && line1 == old(line1) && line2 == old(line2) && fchanged == old(fchanged)
        invariant ring == With(r, c, lines) && curLn + 1 == c + |lines|
        invariant forall i :: 0 <= i < |lines| ==> fresh(lines[i]) && !lines[i].glob
        invariant forall l :: l in LinesOf(ring) ==> l in LinesOf(r) || fresh(l)
        invariant InsLeft(lines, str, beg)
        decreases |str| - beg
      {
        var cp := LineEnd(str, beg);
        ghost var before := ring;
        InsertLine(str[beg..cp]);
        LinesWith(before, curLn, curPtr, ring);
        InsStep(r, c, lines, curPtr, str, beg, cp);
        lines := lines + [curPtr];
        if cp == |str| {
          return;
        }
        beg := cp + 1;
      }
    }

    /** Delete the lines `from` to `to`. */
    method Del(from0: int, to: nat)
      requires Valid() && to <= lastLn && from0 <= to + 1
      modifies this, LinesOf(ring)`prev, LinesOf(ring)`next
      ensures Valid() && line1 == old(line1) && line2 == old(line2) && fchanged == old(fchanged)
      ensures var from := if from0 < 1 then 1 else from0;
              ring == Without(old(ring), from, to) && curLn == from - 1
    {
      hide Closed, Chain, Linked, Distinct, Without, AllUnbroken;
      var from: nat := if from0 < 1 then 1 else from0;
      ghost var r := ring;
      Places(r, from);
      var atFrom := GetPtr(from);
      var first := atFrom.prev;
      curLn := if from - 1 < 0 then lastLn else from - 1;
      curPtr := first;
      var atTo := GetPtr(to);
      Places(r, to);
      var last := atTo.next;
      lastLn := lastLn - (to - from + 1);
      ring := Without(r, from, to);
      CutOut(first, last, r, from, to);
      WithoutPlaces(r, from, to, ring);
    }

    /** The first and the last of the lines line1 to line2, and the lines around them. */
    method Block() returns (before: Line, first: Line, last: Line, after: Line)
      requires Valid() && 1 <= line1 <= line2 <= lastLn
      ensures first == ring[line1] && last == ring[line2]
      ensures before == ring[line1 - 1] && after == ring[Succ(line2, |ring|)]
    {
      Places(ring, line1);
      Places(ring, line2);
      first := GetPtr(line1);
      before := first.prev;
      last := GetPtr(line2);
      after := last.next;
    }

    /** Move the lines line1 to line2 behind the line `num0`, which must not be one of them. */
    method Move(num0: nat) returns (ok: bool)
      requires Valid() && num0 <= lastLn && 1 <= line1 <= line2 <= lastLn
      modifies this, LinesOf(ring)`prev, LinesOf(ring)`next
      ensures Valid() && line1 == old(line1) && line2 == old(line2) && fchanged == old(fchanged)
      ensures ok <==> num0 < line1 || num0 > line2
      ensures !ok ==> ring == old(ring) && curLn == old(curLn)
      ensures ok ==> var count := line2 - line1 + 1; var k := if num0 < line1 then num0 else num0 - count;
                     && ring == With(Without(old(ring), line1, line2), k + 1, old(ring[line1..line2 + 1]))
                     && curLn == k + count
    {
      hide Closed, Chain, Linked, Distinct, With, Without, AllUnbroken, Around, Succ;
      var num := num0;
      var dest := GetPtr(num);
      if num < line1 {
        num := num + (line2 - line1 + 1);
      } else if num <= line2 {
        return false;
      }
      WithoutPlaces(ring, line1, line2, Without(ring, line1, line2));
      MoveBlock(dest, num, num - (line2 - line1 + 1));
      return true;
    }

    /** Move the lines line1 to line2 behind `dest`, which is line `k` without them; the last of them will be line `num`. */
    method MoveBlock(dest: Line, num: nat, ghost k: nat)
      requires Valid() && 1 <= line1 <= line2 <= lastLn && num == k + (line2 - line1 + 1)
      requires k < |Without(ring, line1, line2)| && dest == Without(ring, line1, line2)[k]
      modifies this, LinesOf(ring)`prev, LinesOf(ring)`next
      ensures Valid() && line1 == old(line1) && line2 == old(line2) && fchanged == old(fchanged) && curLn == num
      ensures ring == With(Without(old(ring), line1, line2), k + 1, old(ring[line1..line2 + 1]))
    {
      hide Closed, Chain, Linked, Distinct, With, Without, AllUnbroken, Succ;
      ghost var r := ring;
      var before, first, last, after := Block();
      ghost var w, block := Without(r, line1, line2), r[line1..line2 + 1];
      WithoutPlaces(r, line1, line2, w);
      MovedPlaces(r, line1, line2, k, w, block);
      curPtr := last;
      curLn := num;
      ring := With(w, k + 1, block);
      Relink(dest, first, last, before, after, r, line1, line2, k, w, block);
    }

    /** Insert copies of lines, from `start` on, behind the current line. The copies made before are behind line `num`. */
    method CopyLines(start: Line, count: nat, ghost r: seq<Line>, ghost num: nat, ghost copies: seq<Line>, ghost from: nat)
      returns (ghost copies': seq<Line>)
      requires Valid() && num < |r| && ring == With(r, num + 1, copies) && curLn == num + |copies|
      requires 0 < from && 0 < count && from + count <= |r| && start == r[from] && (num < from || num >= from + count - 1)
      requires AllUnbroken(r)
      modifies this, LinesOf(ring)`prev, LinesOf(ring)`next
      ensures Valid() && line1 == old(line1) && line2 == old(line2) && fchanged == old(fchanged)
      ensures ring == With(r, num + 1, copies') && curLn == num + |copies'| && copies <= copies'
      ensures Texts(copies') == Texts(copies) + Texts(r[from..from + count])
      ensures forall l :: l in LinesOf(ring) ==> l in old(LinesOf(ring)) || fresh(l)
      ensures forall i :: |copies| <= i < |copies'| ==> fresh(copies'[i]) && !copies'[i].glob
    {
      hide Closed, With, Texts, Distinct, Linked, Explode.Exploded;
      copies' := copies;
      var ptr, left := start, count;
      ghost var k := 0;
      CopyStarts(r, copies, from);
      while left > 0
        invariant k + left == count && Valid() && line1 == old(line1) && line2 == old(line2) && fchanged == old(fchanged)
        invariant ring == With(r, num + 1, copies') && curLn == num + |copies'| && copies <= copies'
        invariant Texts(copies') == Texts(copies) + Texts(r[from..from + k])
        invariant forall l :: l in LinesOf(ring) ==> l in old(LinesOf(ring)) || fresh(l)
        invariant forall i :: |copies| <= i < |copies'| ==> fresh(copies'[i]) && !copies'[i].glob
        invariant left > 0 ==> ptr == r[from + k]
      {
        ghost var before := ring;
        ghost var copy;
        copy := Ins(ptr.text);
        OneCopy(r, num, copies', copies, from, k, copy);
        LinesWithSome(before, num + |copies'| + 1, copy, ring);
        copies' := copies' + copy;
        NextInWith(r, num, copies', ring, from + k);
        ptr := ptr.next;
        left := left - 1;
        k := k + 1;
      }
    }

    /** Copy the lines line1 to line2 behind the line `num`, which may be one of them: then the copy is made in two parts. */
    method Transfer(num: nat) returns (ghost copies: seq<Line>)
      requires Valid() && num <= lastLn && 1 <= line1 <= line2 <= lastLn
      modifies this, LinesOf(ring)`prev, LinesOf(ring)`next
      ensures Valid() && line1 == old(line1) && line2 == old(line2) && fchanged == old(fchanged)
      ensures ring == With(old(ring), num + 1, copies) && Texts(copies) == Texts(old(ring[line1..line2 + 1]))
      ensures curLn == num + (line2 - line1 + 1) && forall i :: 0 <= i < |copies| ==> fresh(copies[i]) && !copies[i].glob
    {
      hide Closed, With, Texts, Distinct, Linked, AllUnbroken;
      ghost var r := ring;
      var count1, count2;
      if line1 <= num < line2 {
        count1, count2 := num - line1, line2 - num;
      } else {
        count1, count2 := line2 - line1, 0;
      }
      SetCurLn(num);
      var ptr := GetPtr(line1);
      NoCopies(r, num);
      copies := CopyLines(ptr, count1 + 1, r, num, [], line1);
      CopiedTexts(r, copies, line1, count1 + 1);
      if count2 != 0 {
        ghost var w, c := ring, copies;
        BehindCopies(r, num, c, w);
        Places(w, curLn);
        ptr := curPtr.next;
        copies := CopyLines(ptr, count2, r, num, c, num + 1);
        CopiedRest(r, c, copies, line1, num, line2);
      }
    }

    /** Join the lines `first` to `last` into one line, unless that would be too long. */
    method Join(first: int, last: int) returns (ok: bool)
      requires Valid()
      modifies this, LinesOf(ring)`prev, LinesOf(ring)`next
      ensures Valid() && line1 == old(line1) && line2 == old(line2)
      ensures var inRange := 0 < first <= last <= old(lastLn);
              && (ok <==> inRange && (first == last || |Concat(Texts(old(ring)[first..last + 1]))| < MAXLINE))
              && (!ok ==> ring == old(ring) && curLn == old(curLn) && fchanged == old(fchanged))
              && (ok ==> curLn == first)
              && (ok && first == last ==> ring == old(ring) && fchanged == old(fchanged))
              && (ok && first < last ==> fchanged && fresh(curPtr) && !curPtr.glob && curPtr.text == Concat(Texts(old(ring)[first..last + 1]))
                                         && ring == With(Without(old(ring), first, last), first, [curPtr]))
    {
      if first <= 0 || first > last || last > lastLn {
        return false;
      }
      if first == last {
        SetCurLn(first);
        return true;
      }
      ghost var r := ring;
      var str;
      ok, str := JoinedText(first, last);
      if !ok {
        return;
      }
      Del(first, last);
      OneText(str);
      ghost var w := ring;
      ghost var lines;
      lines := Ins(str);
      SingleLine(w, first, lines, ring, str);
      fchanged := true;
    }

    /** Copy the text of the lines into a buffer. */
    method JoinedText(first: nat, last: nat) returns (ok: bool, str: string)
      requires Valid() && 0 < first <= last <= lastLn
      ensures ok <==> |Concat(Texts(ring[first..last + 1]))| < MAXLINE
      ensures ok ==> str == Concat(Texts(ring[first..last + 1])) && Unbroken(str)
    {
      hide Distinct, Concat, Texts;
      var buf := new char[MAXLINE];
      var cp: nat := 0;
      var lin := GetPtr(first);
      var num := first;
      ghost var r := ring;
      NothingJoined(r, first);
      while num <= last
        invariant first <= num <= last + 1 && Valid() && ring == r
        invariant num <= last ==> lin == ring[num]
        invariant cp < MAXLINE && buf[..cp] == Concat(Texts(ring[first..num])) && Unbroken(buf[..cp])
      {
        ok, cp := CopyText(lin.text, buf, cp);
        JoinedMore(r, first, num, last);
        if !ok {
          return false, "";
        }
        Places(r, num);
        lin := lin.next;
        num := num + 1;
      }
      return true, buf[..cp];
    }
  }

  /** The strings one after the other. */
  function Concat(ss: seq<string>): string {
    if ss == [] then "" else Concat(ss[..|ss| - 1]) + ss[|ss| - 1]
  }

  /** Append a text to the buffer; it must not fill it. */
  method CopyText(str: string, buf: array<char>, from: nat) returns (ok: bool, cp: nat)
    requires from < MAXLINE == buf.Length && Unbroken(buf[..from]) && Unbroken(str)
    modifies buf
    ensures ok <==> from + |str| < MAXLINE
    ensures ok ==> cp == from + |str| && buf[..cp] == old(buf[..from]) + str && Unbroken(buf[..cp])
  {
    cp := from;
    var k := 0;
    while k < |str|
      invariant 0 <= k <= |str| && cp == from + k < MAXLINE && buf[..cp] == old(buf[..from]) + str[..k]
    {
      if cp >= MAXLINE - 1 {
        return false, cp;
      }
      assert str[..k + 1] == str[..k] + [str[k]];
      buf[cp] := str[k];
      assert buf[..cp + 1] == buf[..cp] + [str[k]];
      cp := cp + 1;
      k := k + 1;
    }
    assert str[..k] == str;
    return true, cp;
  }

  lemma NothingJoined(r: seq<Line>, first: nat)
    requires first <= |r|
    ensures Concat(Texts(r[first..first])) == ""
  {
  }

  lemma JoinedMore(r: seq<Line>, first: nat, num: nat, last: nat)
    requires first <= num <= last < |r|
    ensures Concat(Texts(r[first..num + 1])) == Concat(Texts(r[first..num])) + r[num].text
    ensures |Concat(Texts(r[first..num + 1]))| <= |Concat(Texts(r[first..last + 1]))|
    decreases last - num
  {
    var ts := Texts(r[first..num + 1]);
    assert ts[..|ts| - 1] == Texts(r[first..num]);
    if num < last {
      JoinedMore(r, first, num + 1, last);
    }
  }

  lemma SingleLine(r: seq<Line>, k: nat, lines: seq<Line>, w: seq<Line>, str: string)
    requires k <= |r| && Texts(lines) == [str] && w == With(r, k, lines)
    ensures |lines| == 1 && w[k] == lines[0] && lines[0].text == str && lines == [w[k]]
  {
    assert |Texts(lines)| == |lines| && Texts(lines)[0] == lines[0].text;
  }

  lemma CopyStarts(r: seq<Line>, copies: seq<Line>, from: nat)
    requires from <= |r|
    ensures Texts(copies) == Texts(copies) + Texts(r[from..from + 0])
  {
  }

  lemma NoCopies(r: seq<Line>, num: nat)
    requires num < |r|
    ensures With(r, num + 1, []) == r
  {
  }

  /** One more line has been copied. */
  lemma OneCopy(r: seq<Line>, num: nat, copies': seq<Line>, copies: seq<Line>, from: nat, k: nat, copy: seq<Line>)
    requires num < |r| && 0 < from && from + k < |r| && AllUnbroken(r) && Texts(copy) == Explode.Exploded(r[from + k].text, "\n")
    requires Texts(copies') == Texts(copies) + Texts(r[from..from + k])
    ensures With(With(r, num + 1, copies'), num + |copies'| + 1, copy) == With(r, num + 1, copies' + copy)
    ensures |copy| == 1 && Texts(copies' + copy) == Texts(copies) + Texts(r[from..from + k + 1])
  {
    OneText(r[from + k].text);
    assert Texts(copy) == [r[from + k].text] && |Texts(copy)| == |copy|;
    assert Texts(copies' + copy) == Texts(copies') + Texts(copy);
    assert Texts(r[from..from + k + 1]) == Texts(r[from..from + k]) + [r[from + k].text];
  }

  /** Text without line ends is one line. */
  lemma OneText(s: string)
    requires Unbroken(s)
    ensures Explode.Exploded(s, "\n") == [s]
  {
    assert s[0..|s|] == s;
    OneLine(s, 0, |s|);
  }

  lemma LinesWithSome(r: seq<Line>, k: nat, s: seq<Line>, w: seq<Line>)
    requires k <= |r| && w == With(r, k, s)
    ensures LinesOf(w) <= LinesOf(r) + LinesOf(s)
  {
  }

  /** The lines of the original are still linked, except for the one that the copies are behind. */
  lemma NextInWith(r: seq<Line>, num: nat, copies: seq<Line>, w: seq<Line>, j: nat)
    requires num < |r| && w == With(r, num + 1, copies) && Closed(w) && j < |r|
    ensures j != num ==> r[j].next == r[Succ(j, |r|)]
  {
    WithPlaces(r, num + 1, copies, w);
    if j < num {
      assert Linked(w, j);
    } else if j > num {
      assert Linked(w, j + |copies|);
    }
  }

  lemma CopiedTexts(r: seq<Line>, copies: seq<Line>, from: nat, count: nat)
    requires from + count <= |r| && Texts(copies) == Texts([]) + Texts(r[from..from + count])
    ensures |copies| == count && Texts(copies) == Texts(r[from..from + count])
  {
    assert |Texts(copies)| == |copies| && Texts([]) == [];
  }

  lemma BehindCopies(r: seq<Line>, num: nat, copies: seq<Line>, w: seq<Line>)
    requires num + 1 < |r| && w == With(r, num + 1, copies)
    ensures |w| == |r| + |copies| && w[num + |copies| + 1] == r[num + 1]
  {
  }

  lemma CopiedRest(r: seq<Line>, c: seq<Line>, copies: seq<Line>, a: nat, num: nat, b: nat)
    requires a <= num < b < |r| && Texts(c) == Texts(r[a..num + 1]) && Texts(copies) == Texts(c) + Texts(r[num + 1..b + 1])
    ensures Texts(copies) == Texts(r[a..b + 1]) && |copies| == b + 1 - a
  {
    assert r[a..b + 1] == r[a..num + 1] + r[num + 1..b + 1];
    assert |Texts(copies)| == |copies|;
  }

  /** What is where after lines a to b have been moved. */
  lemma MovedPlaces(r: seq<Line>, a: nat, b: nat, k: nat, w: seq<Line>, s: seq<Line>)
    requires 0 < a <= b < |r| && w == Without(r, a, b) && s == r[a..b + 1] && k < |w|
    ensures |w| == |r| - |s| && w[k] == if k < a then r[k] else r[k + |s|]
    ensures var m := With(w, k + 1, s);
            |m| == |r| && m[0] == r[0] && m[k + |s|] == r[b] && (AllUnbroken(r) ==> AllUnbroken(m))
  {
    var m := With(w, k + 1, s);
    forall i | 0 < i < |m|
      ensures exists j :: 0 < j < |r| && m[i] == r[j]
    {
      if i <= k {
        assert m[i] == w[i] == r[if i < a then i else i + |s|];
      } else if i <= k + |s| {
        assert m[i] == s[i - k - 1] == r[a + (i - k - 1)];
      } else {
        assert m[i] == w[i - |s|] == r[if i - |s| < a then i - |s| else i];
      }
    }
  }

  /** Take the lines a to b out, and link them in elsewhere. */
  method Relink(dest: Line, first: Line, last: Line, before: Line, after: Line,
                ghost r: seq<Line>, ghost a: nat, ghost b: nat, ghost k: nat, ghost w: seq<Line>, ghost s: seq<Line>)
    requires Closed(r) && 0 < a <= b < |r| && before == r[a - 1] && after == r[Succ(b, |r|)] && first == r[a] && last == r[b]
    requires w == Without(r, a, b) && s == r[a..b + 1] && k < |w| && dest == w[k]
    modifies LinesOf(r)`prev, LinesOf(r)`next
    ensures Closed(With(w, k + 1, s))
  {
    ClosedDistinct(r);
    hide Closed, Chain, Linked, Distinct, With;
    BlockApart(r, a, b, w, s);
    FewerLines(r, a, b, w, s);
    hide LinesOf, Without;
    CutOut(before, after, r, a, b);
    PutIn(dest, first, last, w, k, s);
  }

  lemma FewerLines(r: seq<Line>, a: nat, b: nat, w: seq<Line>, s: seq<Line>)
    requires 0 < a <= b < |r| && w == Without(r, a, b) && s == r[a..b + 1]
    ensures LinesOf(w) <= LinesOf(r) && LinesOf(s) <= LinesOf(r)
  {
    WithoutPlaces(r, a, b, w);
  }

  lemma Places(r: seq<Line>, i: nat)
    requires Closed(r) && i <= |r|
    ensures i < |r| ==> r[i].next == r[Succ(i, |r|)]
    ensures i > 0 ==> r[Around(i, |r|)].prev == r[i - 1]
  {
    assert i < |r| ==> Linked(r, i);
    assert i > 0 ==> Linked(r, i - 1);
  }

  lemma WithoutPlaces(r: seq<Line>, a: nat, b: nat, w: seq<Line>)
    requires 0 < a <= b + 1 <= |r| && w == Without(r, a, b)
    ensures |w| == |r| - (b + 1 - a) && w[0] == r[0] && w[a - 1] == r[a - 1]
    ensures forall i :: 0 <= i < a ==> w[i] == r[i]
    ensures forall i :: a <= i < |w| ==> w[i] == r[i + (b + 1 - a)]
    ensures AllUnbroken(r) ==> AllUnbroken(w)
  {
  }

  lemma WithPlaces(r: seq<Line>, k: nat, s: seq<Line>, w: seq<Line>)
    requires 0 < k <= |r| && w == With(r, k, s)
    ensures |w| == |r| + |s| && w[0] == r[0] && (s != [] ==> w[k + |s| - 1] == s[|s| - 1])
    ensures forall i :: 0 <= i < k ==> w[i] == r[i]
    ensures forall i :: k <= i < k + |s| ==> w[i] == s[i - k]
    ensures forall i :: k + |s| <= i < |w| ==> w[i] == r[i - |s|]
  {
  }

  lemma ClosedDistinct(r: seq<Line>)
    requires Closed(r)
    ensures Distinct(r)
  {
  }

  lemma BlockApart(r: seq<Line>, a: nat, b: nat, w: seq<Line>, s: seq<Line>)
    requires 0 < a <= b + 1 <= |r| && Distinct(r) && w == Without(r, a, b) && s == r[a..b + 1]
    ensures forall i, j :: 0 <= i < |w| && 0 <= j < |s| ==> w[i] != s[j]
  {
  }

  /** Take the lines between two others out of the ring. They stay linked to each other. */
  method CutOut(before: Line, after: Line, ghost r: seq<Line>, ghost a: nat, ghost b: nat)
    requires Closed(r) && 0 < a <= b + 1 <= |r| && before == r[a - 1] && after == r[Succ(b, |r|)]
    modifies LinesOf(r)`prev, LinesOf(r)`next
    ensures Closed(Without(r, a, b)) && (a <= b ==> Chain(r[a..b + 1]))
  {
    hide LinesOf, Without;
    ghost var w := Without(r, a, b);
    Among(r);
    after.prev := before;
    before.next := after;
    WithoutPlaces(r, a, b, w);
    forall i | 0 <= i < |w|
      ensures Linked(w, i)
    {
      if i < a {
        assert old(Linked(r, i));
      } else {
        assert old(Linked(r, i + (b + 1 - a)));
      }
    }
    if a <= b {
      ghost var s := r[a..b + 1];
      forall i, j | 0 <= i && j == i + 1 && j < |s|
        ensures s[i].next == s[j] && s[j].prev == s[i]
      {
        assert old(Linked(r, a + i));
      }
    }
  }

  /** Link lines into the ring behind the k-th one. */
  method PutIn(dest: Line, first: Line, last: Line, ghost r: seq<Line>, ghost k: nat, ghost s: seq<Line>)
    requires Closed(r) && Chain(s) && k < |r| && dest == r[k] && first == s[0] && last == s[|s| - 1]
    requires forall i, j :: 0 <= i < |r| && 0 <= j < |s| ==> r[i] != s[j]
    modifies LinesOf(r)`prev, LinesOf(r)`next, LinesOf(s)`prev, LinesOf(s)`next
    ensures Closed(With(r, k + 1, s))
  {
    hide LinesOf, With;
    ghost var w := With(r, k + 1, s);
    Among(r);
    Among(s);
    Places(r, k);
    var after := dest.next;
    first.prev := dest;
    last.next := after;
    after.prev := last;
    dest.next := first;
    WithPlaces(r, k + 1, s, w);
    forall i | 0 <= i < |w|
      ensures Linked(w, i)
    {
      if i < k {
        assert old(Linked(r, i));
      } else if i >= k + 1 + |s| {
        assert old(Linked(r, i - |s|));
      }
    }
  }

  /** The end of the line that begins here. */
  method LineEnd(str: string, beg: nat) returns (cp: nat)
    requires beg <= |str|
    ensures beg <= cp <= |str| && Unbroken(str[beg..cp]) && (cp < |str| ==> str[cp] == '\n')
  {
    cp := beg;
    while cp < |str| && str[cp] != '\n'
      invariant beg <= cp <= |str| && '\n' !in str[beg..cp]
    {
      assert str[beg..cp + 1] == str[beg..cp] + [str[cp]];
      cp := cp + 1;
    }
  }

  /** The lines that have been inserted, and the rest of the string. */
  ghost predicate InsLeft(lines: seq<Line>, str: string, beg: nat) {
    beg <= |str| && Texts(lines) + Explode.Pieces(str, "\n", beg, beg) == Explode.Exploded(str, "\n")
  }

  lemma InsStarts(r: seq<Line>, c: nat, str: string)
    requires c <= |r|
    ensures With(r, c, []) == r && InsLeft([], str, 0)
  {
    assert Texts([]) == [];
  }

  lemma InsStep(r: seq<Line>, c: nat, lines: seq<Line>, line: Line, str: string, beg: nat, cp: nat)
    requires c <= |r| && InsLeft(lines, str, beg) && beg <= cp <= |str| && line.text == str[beg..cp]
    requires Unbroken(str[beg..cp]) && (cp < |str| ==> str[cp] == '\n')
    ensures With(With(r, c, lines), c + |lines|, [line]) == With(r, c, lines + [line])
    ensures cp < |str| ==> InsLeft(lines + [line], str, cp + 1)
    ensures cp == |str| ==> Texts(lines + [line]) == Explode.Exploded(str, "\n")
  {
    OneLine(str, beg, cp);
    assert Texts(lines + [line]) == Texts(lines) + [line.text];
    if cp < |str| {
      var rest := Explode.Pieces(str, "\n", cp + 1, cp + 1);
      assert Texts(lines) + ([line.text] + rest) == Texts(lines) + [line.text] + rest;
    }
  }

  /** The scan for a line end. */
  lemma OneLine(str: string, beg: nat, cp: nat)
    requires beg <= cp <= |str| && Unbroken(str[beg..cp]) && (cp < |str| ==> str[cp] == '\n')
    ensures (Explode.Pieces(str, "\n", beg, beg)
             == [str[beg..cp]] + if cp < |str| then Explode.Pieces(str, "\n", cp + 1, cp + 1) else [])
  {
    Explode.CharAt(str, '\n');
    forall x: nat | beg <= x < cp
      ensures !Explode.At(str, "\n", x)
    {
      assert str[beg..cp][x - beg] == str[x];
    }
    Explode.SkipTo(str, "\n", beg, beg, cp);
    if cp < |str| {
      assert Explode.At(str, "\n", cp);
    } else {
      assert str[beg..cp] == str[beg..];
    }
  }

  lemma LinesWith(r: seq<Line>, k: nat, line: Line, w: seq<Line>)
    requires k <= |r| && w == With(r, k, [line])
    ensures LinesOf(w) <= LinesOf(r) + {line}
  {
    WithOne(r, k, line, w);
  }

  lemma WithOne(r: seq<Line>, k: nat, line: Line, w: seq<Line>)
    requires k <= |r| && w == With(r, k, [line])
    ensures |w| == |r| + 1 && w[k] == line
    ensures forall i :: 0 <= i < k ==> w[i] == r[i]
    ensures forall i :: k < i < |w| ==> w[i] == r[i - 1]
  {
  }

  /** Going on round the ring. */
  lemma {:induction false} AroundNext(a: nat, n: nat)
    requires n > 0
    ensures Around(a + 1, n) == Succ(Around(a, n), n)
    decreases a
  {
    if a >= n {
      AroundNext(a - n, n);
    }
  }

  // ----- what the edits mean for the text

  /** Putting lines into the ring puts their texts into the text, and taking them out takes them out. */
  lemma TextEdits(r: seq<Line>, k: nat, s: seq<Line>, a: nat, b: nat)
    requires 0 < k <= |r| && 0 < a <= b + 1 <= |r|
    ensures Texts(With(r, k, s)[1..]) == With(Texts(r[1..]), k - 1, Texts(s))
    ensures Texts(Without(r, a, b)[1..]) == (if b == 0 then Texts(r[1..]) else Without(Texts(r[1..]), a - 1, b - 1))
  {
  }

  /** Moving lines keeps them all: the ring is the old one with two neighbouring blocks exchanged. */
  lemma MoveExchanges(r: seq<Line>, a: nat, b: nat, num: nat)
    requires 0 < a <= b < |r| && num < |r| && (num < a || num > b)
    ensures var k := if num < a then num else num - (b + 1 - a);
            With(Without(r, a, b), k + 1, r[a..b + 1])
            == if num < a then r[..num + 1] + r[a..b + 1] + r[num + 1..a] + r[b + 1..]
               else r[..a] + r[b + 1..num + 1] + r[a..b + 1] + r[num + 1..]
  {
  }

  /** Moving a block back undoes the move. */
  lemma MoveBack(r: seq<Line>, a: nat, b: nat, num: nat, m: seq<Line>)
    requires 0 < a <= b < |r| && num < |r| && (num < a || num > b)
    requires m == With(Without(r, a, b), (if num < a then num else num - (b + 1 - a)) + 1, r[a..b + 1])
    ensures var n := b + 1 - a; var k := if num < a then num else num - n;
            |m| == |r| && With(Without(m, k + 1, k + n), a, m[k + 1..k + n + 1]) == r
  {
    var n := b + 1 - a;
    var k := if num < a then num else num - n;
    var w, s := Without(r, a, b), r[a..b + 1];
    assert Without(m, k + 1, k + n) == w;
    assert m[k + 1..k + n + 1] == s;
    assert With(w, a, s) == r;
  }

  /** Deleting the lines that have been inserted gives the ring that was there. */
  lemma DeleteInserted(r: seq<Line>, k: nat, s: seq<Line>)
    requires 0 < k <= |r|
    ensures Without(With(r, k, s), k, k + |s| - 1) == r
  {
  }
}
