/** Global commands of the line editor: a command is run for every line that has been marked, whatever it does to the text. */
module EdGlobal {
  import opened Wrappers
  import opened EdBuffer

  /** The result of matching a pattern against a line; the pattern may turn out to be faulty. */
  datatype Match = Matches | Differs | Faulty

  /** Set or clear a mark: the links are not touched. */
  method SetMark(b: EdBuffer, ptr: Line, mark: bool)
    requires b.Valid()
    modifies ptr`glob
    ensures b.Valid() && ptr.glob == mark
  {
    hide Distinct, AllUnbroken;
    ghost var r := b.ring;
    ptr.glob := mark;
    assert forall i :: 0 <= i < |r| ==> old(Linked(r, i)) ==> Linked(r, i);
  }

  /** The line gets a mark if it is in the range and the pattern says so. */
  ghost predicate Wanted(r: seq<Line>, i: nat, pattern: Option<string -> Match>, invert: bool, from: int, upto: int)
    requires i < |r|
  {
    from <= i <= upto && pattern.Some? && (pattern.value(r[i].text) == Matches) != invert
  }

  /** Mark the lines of the range that match the pattern, or those that do not. Without a pattern none is marked. */
  method MarkLines(b: EdBuffer, pattern: Option<string -> Match>, invert: bool, from: int, upto: int) returns (ok: bool)
    requires b.Valid()
    modifies LinesOf(b.ring)`glob
    ensures b.Valid()
    ensures ok ==> forall i :: 0 < i < |b.ring| ==> (b.ring[i].glob <==> Wanted(b.ring, i, pattern, invert, from, upto))
    ensures ok <==> forall i :: 0 < i < |b.ring| && from <= i <= upto && pattern.Some? ==> pattern.value(b.ring[i].text) != Faulty
  {
    hide Distinct, AllUnbroken, Wanted, Linked;
    ghost var r := b.ring;
    ClosedDistinct(r);
    Among(r);
    var ptr := b.GetPtr(1);
    var num := 1;
    while num <= b.lastLn
      invariant 1 <= num <= |r| && b.Valid() && b.ring == r && (num < |r| ==> ptr == r[num])
      invariant forall i :: 0 < i < num ==> (r[i].glob <==> Wanted(r, i, pattern, invert, from, upto))
      invariant forall i :: 0 < i < num && from <= i <= upto && pattern.Some? ==> pattern.value(r[i].text) != Faulty
    {
      NotThis(r, num);
      SetMark(b, ptr, false);
      WantedHere(r, num, pattern, invert, from, upto);
      if from <= num <= upto && pattern.Some? {
        var rc := pattern.value(ptr.text);
        if rc == Faulty {
          return false;
        }
        if (rc == Matches) != invert {
          SetMark(b, ptr, true);
        }
      }
      Places(r, num);
      ptr := ptr.next;
      num := num + 1;
    }
    return true;
  }

  lemma WantedHere(r: seq<Line>, i: nat, pattern: Option<string -> Match>, invert: bool, from: int, upto: int)
    requires i < |r|
    ensures (Wanted(r, i, pattern, invert, from, upto)
             <==> from <= i <= upto && pattern.Some? && (pattern.value(r[i].text) == Matches) != invert)
  {
  }

  lemma NotThis(r: seq<Line>, k: nat)
    requires Distinct(r) && k < |r|
    ensures forall i :: 0 <= i < |r| && i != k ==> r[i] != r[k]
  {
  }

  // ----- the commands that change lines

  /** Which lines a command names: none, one or two. */
  datatype Range = Default | One(last: nat) | Two(first: nat, last: nat)

  /** Commands, with the addresses they come with: those depend on the current and on the last line. */
  datatype Command =
    | Delete(range: (int, int) -> Range)
    | JoinLines(range: (int, int) -> Range)
    | MoveLines(range: (int, int) -> Range, target: (int, int) -> int)
    | CopyLinesTo(range: (int, int) -> Range, target: (int, int) -> int)
    | Append(range: (int, int) -> Range)
    | Change(range: (int, int) -> Range)

  /** The lines that are left are old ones, and none of the new ones is marked. */
  twostate predicate NothingMarked(b: EdBuffer)
    reads b, LinesOf(b.ring)
  {
    && b.ring != [] && old(b.ring) != [] && b.ring[0] == old(b.ring[0])
    && forall i :: 0 <= i < |b.ring| ==> b.ring[i] in old(LinesOf(b.ring)) || (fresh(b.ring[i]) && !b.ring[i].glob)
  }

  /** Find the range, with defaults if there is none, and check it. */
  method SetRange(b: EdBuffer, range: Range, def1: int, def2: int) returns (ok: bool)
    requires b.Valid()
    modifies b`line1, b`line2
    ensures b.Valid()
    ensures ok <==> 0 < b.line1 <= b.line2
    ensures range.Default? ==> b.line1 == def1 && b.line2 == def2
    ensures !range.Default? ==> b.line2 == range.last && b.line1 == if range.Two? then range.first else range.last
  {
    match range {
      case Default => b.line1, b.line2 := def1, def2;
      case One(last) => b.line1, b.line2 := last, last;
      case Two(first, last) => b.line1, b.line2 := first, last;
    }
    ok := !(b.line1 > b.line2 || b.line1 <= 0);
  }

  /** All addresses lie in the text. */
  predicate InText(range: Range, lastLn: int) {
    match range
    case Default => true
    case One(last) => last <= lastLn
    case Two(first, last) => first <= lastLn && last <= lastLn
  }

  lemma FewerKept(r: seq<Line>, a: nat, c: nat)
    requires 0 < a <= c + 1 <= |r|
    ensures LinesOf(Without(r, a, c)) <= LinesOf(r) && Without(r, a, c)[0] == r[0]
  {
    WithoutPlaces(r, a, c, Without(r, a, c));
  }

  lemma MovedKept(r: seq<Line>, a: nat, c: nat, k: nat)
    requires 0 < a <= c < |r| && k < |Without(r, a, c)|
    ensures var m := With(Without(r, a, c), k + 1, r[a..c + 1]); LinesOf(m) <= LinesOf(r) && m != [] && m[0] == r[0]
  {
    var w := Without(r, a, c);
    FewerKept(r, a, c);
    FewerLines(r, a, c, w, r[a..c + 1]);
    WithPlaces(w, k + 1, r[a..c + 1], With(w, k + 1, r[a..c + 1]));
    LinesWithSome(w, k + 1, r[a..c + 1], With(w, k + 1, r[a..c + 1]));
  }

  // ----- the text with its marks

  /** A line of the text as it is seen: what it says, and whether it is marked. */
  datatype Row = Row(text: string, marked: bool)

  ghost function Rows(r: seq<Line>): (rows: seq<Row>)
    reads LinesOf(r)`glob
    ensures |rows| == |r| && forall i :: 0 <= i < |r| ==> rows[i] == Row(r[i].text, r[i].glob)
  {
    if r == [] then []
    else
      AmongRest(r);
      Among(r);
      [Row(r[0].text, r[0].glob)] + Rows(r[1..])
  }

  ghost function Content(b: EdBuffer): (rows: seq<Row>)
    requires b.ring != []
    reads b`ring, LinesOf(b.ring)`glob
    ensures |rows| == |b.ring| - 1
  {
    AmongRest(b.ring);
    Rows(b.ring[1..])
  }

  /** As long as no mark changes the rows are the same. */
  twostate lemma RowsKept(r: seq<Line>)
    requires forall i :: 0 <= i < |r| ==> r[i].glob == old(r[i].glob)
    ensures Rows(r) == old(Rows(r))
  {
  }

  lemma AmongRest(r: seq<Line>)
    requires r != []
    ensures LinesOf(r[1..]) <= LinesOf(r)
  {
    forall l | l in LinesOf(r[1..])
      ensures l in LinesOf(r)
    {
      var i :| 0 <= i < |r[1..]| && r[1..][i] == l;
      assert r[i + 1] == l;
    }
  }

  function Strings(t: seq<Row>): seq<string> {
    seq(|t|, i requires 0 <= i < |t| => t[i].text)
  }

  function Cleared(t: seq<Row>): (u: seq<Row>)
    ensures |u| == |t| && forall i :: 0 <= i < |t| ==> u[i] == t[i].(marked := false)
  {
    seq(|t|, i requires 0 <= i < |t| => t[i].(marked := false))
  }

  // ----- what the commands do to the text

  /** The first and the last line a command is for. */
  function Addressed(c: Command, cur: int, lastLn: int): (int, int) {
    match c.range(cur, lastLn)
    case Default => (cur, if c.JoinLines? then cur + 1 else cur)
    case One(last) => (last, last)
    case Two(first, last) => (first, last)
  }

  /** The line behind which lines go. */
  function TargetOf(c: Command, cur: int, lastLn: int): int {
    if c.MoveLines? || c.CopyLinesTo? then c.target(cur, lastLn) else 0
  }

  /** The addresses make sense, and the command does not need more input. */
  predicate Accepted(c: Command, cur: int, lastLn: int) {
    && InText(c.range(cur, lastLn), lastLn) && 0 <= TargetOf(c, cur, lastLn) <= lastLn && !c.Append?
    && 0 < Addressed(c, cur, lastLn).0 <= Addressed(c, cur, lastLn).1
  }

  /** A text with the number of its current line, and whether the command has succeeded. */
  datatype Edited = Edited(text: seq<Row>, cur: int, ok: bool)

  /** What a command for the lines a to b, counted from 1, does to the text. Lines are not joined to one that is too
      long, nor moved into themselves. Lines that are new are not marked. */
  function EditedText(c: Command, t: seq<Row>, cur: int, a: nat, b: nat, num: nat): Edited
    requires 0 < a <= b && num <= |t| && (b <= |t| || c.JoinLines?)
  {
    match c
    case Append(_) => Edited(t, cur, false)
    case Delete(_) => Edited(Without(t, a - 1, b - 1), if b < |t| then a else a - 1, true)
    case Change(_) => Edited(Without(t, a - 1, b - 1), a - 1, false)
    case JoinLines(_) =>
      if b > |t| || (a < b && |Concat(Strings(t[a - 1..b]))| >= MAXLINE) then Edited(t, cur, false)
      else if a == b then Edited(t, a, true)
      else Edited(With(Without(t, a - 1, b - 1), a - 1, [Row(Concat(Strings(t[a - 1..b])), false)]), a, true)
    case MoveLines(_, _) =>
      if a <= num <= b then Edited(t, cur, false)
      else
        var k := if num < a then num else num - (b - a + 1);
        Edited(With(Without(t, a - 1, b - 1), k, t[a - 1..b]), k + (b - a + 1), true)
    case CopyLinesTo(_, _) => Edited(With(t, num, Cleared(t[a - 1..b])), num + (b - a + 1), true)
  }

  function CommandResult(c: Command, t: seq<Row>, cur: int): Edited
    requires 0 <= cur <= |t|
  {
    var lines := Addressed(c, cur, |t|);
    if !Accepted(c, cur, |t|) then Edited(t, cur, false)
    else EditedText(c, t, cur, lines.0, lines.1, TargetOf(c, cur, |t|))
  }

  /** The rows of a stretch of the ring. */
  lemma RowsOf(r: seq<Line>, a: nat, b: nat)
    requires 0 < a <= b + 1 <= |r|
    ensures Rows(r[a..b + 1]) == Rows(r[1..])[a - 1..b]
    ensures Texts(r[a..b + 1]) == Strings(Rows(r[1..])[a - 1..b])
  {
  }

  lemma InsertedRows(r: seq<Line>, k: nat, s: seq<Line>)
    requires 0 < k <= |r|
    ensures Rows(With(r, k, s)[1..]) == With(Rows(r[1..]), k - 1, Rows(s))
  {
  }

  lemma DeletedRows(r: seq<Line>, a: nat, b: nat)
    requires 0 < a <= b < |r|
    ensures Rows(Without(r, a, b)[1..]) == Without(Rows(r[1..]), a - 1, b - 1) && |Rows(r[1..])| == |r| - 1
    ensures |Without(r, a, b)| == |r| - (b - a + 1)
  {
    var u, v := Rows(Without(r, a, b)[1..]), Without(Rows(r[1..]), a - 1, b - 1);
    hide Rows;
    assert |u| == |v|;
    forall i | 0 <= i < |u|
      ensures u[i] == v[i]
    {
    }
  }

  lemma MovedRows(r: seq<Line>, a: nat, b: nat, k: nat)
    requires 0 < a <= b < |r| && k < |Without(r, a, b)|
    ensures Rows(With(Without(r, a, b), k + 1, r[a..b + 1])[1..])
            == With(Without(Rows(r[1..]), a - 1, b - 1), k, Rows(r[1..])[a - 1..b])
  {
    hide Rows, With, Without;
    DeletedRows(r, a, b);
    InsertedRows(Without(r, a, b), k + 1, r[a..b + 1]);
    RowsOf(r, a, b);
  }

  lemma JoinedRows(r: seq<Line>, a: nat, b: nat, l: Line)
    requires 0 < a <= b < |r| && l.text == Concat(Texts(r[a..b + 1])) && !l.glob
    ensures Rows(With(Without(r, a, b), a, [l])[1..])
            == With(Without(Rows(r[1..]), a - 1, b - 1), a - 1, [Row(Concat(Strings(Rows(r[1..])[a - 1..b])), false)])
  {
    hide With, Without, Concat;
    DeletedRows(r, a, b);
    InsertedRows(Without(r, a, b), a, [l]);
    RowsOf(r, a, b);
    assert Rows([l]) == [Row(l.text, l.glob)];
  }

  lemma CopiedRows(r: seq<Line>, a: nat, b: nat, k: nat, copies: seq<Line>)
    requires 0 < a <= b < |r| && k < |r| && Texts(copies) == Texts(r[a..b + 1]) && forall i :: 0 <= i < |copies| ==> !copies[i].glob
    ensures Rows(With(r, k + 1, copies)[1..]) == With(Rows(r[1..]), k, Cleared(Rows(r[1..])[a - 1..b]))
  {
    hide With;
    InsertedRows(r, k + 1, copies);
    var u := Cleared(Rows(r[1..])[a - 1..b]);
    RowsOf(r, a, b);
    assert |Texts(copies)| == |copies| && |Texts(r[a..b + 1])| == |u|;
    forall i | 0 <= i < |copies|
      ensures Rows(copies)[i] == u[i]
    {
      assert Texts(copies)[i] == Texts(r[a..b + 1])[i] == r[a + i].text;
    }
    assert Rows(copies) == u;
  }

  /** Delete the lines of the range; with `forward`, go on to the line behind them. */
  method DeleteRange(b: EdBuffer, forward: bool)
    requires b.Valid() && 0 < b.line1 <= b.line2 <= b.lastLn
    modifies b, LinesOf(b.ring)`prev, LinesOf(b.ring)`next
    ensures b.Valid() && NothingMarked(b)
    ensures Content(b) == Without(old(Content(b)), old(b.line1) - 1, old(b.line2) - 1)
    ensures b.curLn == if forward && old(b.line2 < b.lastLn) then old(b.line1) else old(b.line1) - 1
  {
    hide Rows, Without, AllUnbroken, Distinct;
    ghost var r, a, c := b.ring, b.line1, b.line2;
    FewerKept(r, a, c);
    b.Del(b.line1, b.line2);
    RowsKept(r[1..]);
    DeletedRows(r, a, c);
    Among(b.ring);
    if forward && b.curLn + 1 <= b.lastLn {
      Places(b.ring, b.curLn);
      b.curLn, b.curPtr := b.curLn + 1, b.curPtr.next;
    }
  }

  method JoinRange(b: EdBuffer) returns (ok: bool)
    requires b.Valid() && 0 < b.line1 <= b.line2
    modifies b, LinesOf(b.ring)`prev, LinesOf(b.ring)`next
    ensures b.Valid() && NothingMarked(b)
    ensures var t, a, c := old(Content(b)), old(b.line1), old(b.line2);
            && (ok <==> c <= |t| && (a == c || |Concat(Strings(t[a - 1..c]))| < MAXLINE))
            && (!ok ==> Content(b) == t && b.curLn == old(b.curLn))
            && (ok ==> b.curLn == a && (a == c ==> Content(b) == t))
            && (ok && a < c ==> Content(b) == With(Without(t, a - 1, c - 1), a - 1, [Row(Concat(Strings(t[a - 1..c])), false)]))
  {
    hide Rows, Concat, Texts, Strings, AllUnbroken, Closed, With, Without;
    ghost var r, a, c := b.ring, b.line1, b.line2;
    Among(r);
    if c < |r| {
      RowsOf(r, a, c);
    }
    ok := b.Join(b.line1, b.line2);
    RowsKept(r[1..]);
    if ok && a < c {
      JoinedRows(r, a, c, b.curPtr);
      FewerKept(r, a, c);
      DeletedRows(r, a, c);
      ghost var w := Without(r, a, c);
      WithOne(w, a, b.curPtr, b.ring);
      Among(w);
    }
  }

  method MoveRange(b: EdBuffer, num: nat) returns (ok: bool)
    requires b.Valid() && 0 < b.line1 <= b.line2 <= b.lastLn && num <= b.lastLn
    modifies b, LinesOf(b.ring)`prev, LinesOf(b.ring)`next
    ensures b.Valid() && NothingMarked(b)
    ensures var t, a, c := old(Content(b)), old(b.line1), old(b.line2); var k := if num < a then num else num - (c - a + 1);
            && (ok <==> num < a || num > c)
            && (!ok ==> Content(b) == t && b.curLn == old(b.curLn))
            && (ok ==> b.curLn == k + (c - a + 1) && Content(b) == With(Without(t, a - 1, c - 1), k, t[a - 1..c]))
  {
    hide Rows, Without, With, Texts, AllUnbroken, Closed;
    ghost var r, a, c := b.ring, b.line1, b.line2;
    Among(r);
    DeletedRows(r, a, c);
    ok := b.Move(num);
    RowsKept(r[1..]);
    if ok {
      MovedRows(r, a, c, if num < a then num else num - (c - a + 1));
      MovedKept(r, a, c, if num < a then num else num - (c - a + 1));
      Among(b.ring);
    }
  }

  method CopyRange(b: EdBuffer, num: nat)
    requires b.Valid() && 0 < b.line1 <= b.line2 <= b.lastLn && num <= b.lastLn
    modifies b, LinesOf(b.ring)`prev, LinesOf(b.ring)`next
    ensures b.Valid() && NothingMarked(b)
    ensures var t, a, c := old(Content(b)), old(b.line1), old(b.line2);
            Content(b) == With(t, num, Cleared(t[a - 1..c])) && b.curLn == num + (c - a + 1)
  {
    hide Rows, With, Texts, AllUnbroken, Closed;
    ghost var r, a, c := b.ring, b.line1, b.line2;
    Among(r);
    ghost var copies;
    copies := b.Transfer(num);
    RowsKept(r[1..]);
    CopiedRows(r, a, c, num, copies);
    WithPlaces(r, num + 1, copies, b.ring);
  }

  /** Run one command, with its addresses set, unless it needs more input. */
  method EditLines(b: EdBuffer, c: Command, num: nat) returns (ok: bool)
    requires b.Valid() && 0 < b.line1 <= b.line2 && num <= b.lastLn && (b.line2 <= b.lastLn || c.JoinLines?)
    modifies b, LinesOf(b.ring)`prev, LinesOf(b.ring)`next
    ensures b.Valid() && NothingMarked(b)
    ensures Edited(Content(b), b.curLn, ok)
            == EditedText(c, old(Content(b)), old(b.curLn), old(b.line1), old(b.line2), num)
  {
    hide Without, With, Concat, Closed, AllUnbroken;
    Among(b.ring);
    ok := true;
    match c {
      case Append(_) => ok := false;
      case Delete(_) => DeleteRange(b, true);
      case Change(_) =>
        DeleteRange(b, false);
        ok := false;
      case JoinLines(_) => ok := JoinRange(b);
      case MoveLines(_, _) => ok := MoveRange(b, num);
      case CopyLinesTo(_, _) => CopyRange(b, num);
    }
  }

  /** Run one command for the current line. Text cannot be entered in a global command: appending is an error, and so is
      changing, which has deleted the lines by then. The text and the current line are those the command says. */
  method DoCommand(b: EdBuffer, c: Command) returns (ok: bool)
    requires b.Valid()
    modifies b, LinesOf(b.ring)`prev, LinesOf(b.ring)`next
    ensures b.Valid() && NothingMarked(b)
    ensures Edited(Content(b), b.curLn, ok) == CommandResult(c, old(Content(b)), old(b.curLn))
  {
    hide EditedText, Closed, AllUnbroken, Rows, Content, Linked, Distinct;
    Among(b.ring);
    var range := c.range(b.curLn, b.lastLn);
    var num := if c.MoveLines? || c.CopyLinesTo? then c.target(b.curLn, b.lastLn) else 0;
    if !InText(range, b.lastLn) || num < 0 || num > b.lastLn || c.Append? {
      return false;
    }
    ok := SetRange(b, range, b.curLn, if c.JoinLines? then b.curLn + 1 else b.curLn);
    if !ok {
      return;
    }
    ok := EditLines(b, c, num);
  }

  // ----- what commands do to the lines

  /** The command is given without addresses. */
  ghost predicate WithoutRange(c: Command) {
    forall cur, lastLn :: c.range(cur, lastLn) == Default
  }

  /** Deleting without addresses leaves all other lines in their order; the next one, if there is one, becomes current. */
  lemma DeleteHere(c: Command, t: seq<Row>, cur: int)
    requires c.Delete? && WithoutRange(c) && 0 < cur <= |t|
    ensures var e := CommandResult(c, t, cur);
            && e.ok && e.text == t[..cur - 1] + t[cur..]
            && (cur < |t| ==> e.text[e.cur - 1] == t[cur]) && (cur == |t| ==> e.cur == |e.text|)
  {
  }

  /** Deleting and changing take out exactly the lines that are named; changing then fails, as it needs more input. */
  lemma NamedLinesGone(c: Command, t: seq<Row>, cur: int, a: int, b: int)
    requires (c.Delete? || c.Change?) && 0 <= cur <= |t| && 0 < a <= b <= |t|
    requires c.range(cur, |t|) == Two(a, b) || (a == b && (c.range(cur, |t|) == One(a) || (c.range(cur, |t|) == Default && cur == a)))
    ensures var e := CommandResult(c, t, cur);
            e.text == t[..a - 1] + t[b..] && e.ok == c.Delete? && (c.Change? ==> e.cur == a - 1)
  {
  }

  /** A command that fails changes nothing, unless it is to change lines. */
  lemma RefusedKeeps(c: Command, t: seq<Row>, cur: int)
    requires !c.Change? && 0 <= cur <= |t| && !CommandResult(c, t, cur).ok
    ensures CommandResult(c, t, cur).text == t && CommandResult(c, t, cur).cur == cur
  {
  }

  /** Joining without addresses puts the text of the next line behind that of the current one, unless there is none or the
      line would get too long. */
  lemma JoinHere(c: Command, t: seq<Row>, cur: int)
    requires c.JoinLines? && WithoutRange(c) && 0 < cur <= |t|
    ensures var e := CommandResult(c, t, cur);
            && (e.ok <==> cur < |t| && |t[cur - 1].text + t[cur].text| < MAXLINE)
            && e.cur == cur
            && e.text == if e.ok then t[..cur - 1] + [Row(t[cur - 1].text + t[cur].text, false)] + t[cur + 1..] else t
  {
    if cur < |t| {
      var s := Strings(t[cur - 1..cur + 1]);
      assert s == [t[cur - 1].text, t[cur].text];
      assert s[..1] == [t[cur - 1].text] && s[..1][..0] == [];
      assert Concat(s[..1]) == t[cur - 1].text;
    }
  }

  lemma {:induction false} ConcatOfSum(a: seq<string>, b: seq<string>)
    ensures Concat(a + b) == Concat(a) + Concat(b)
  {
    if b == [] {
      assert a + b == a;
    } else {
      var n := |b| - 1;
      ConcatOfSum(a, b[..n]);
      LastAdded(a, b, n);
    }
  }

  lemma LastAdded(a: seq<string>, b: seq<string>, n: nat)
    requires |b| == n + 1 && Concat(a + b[..n]) == Concat(a) + Concat(b[..n])
    ensures Concat(a + b) == Concat(a) + Concat(b)
  {
    var s := a + b;
    assert s[..|s| - 1] == a + b[..n] && s[|s| - 1] == b[n];
    assert Concat(s) == Concat(a + b[..n]) + b[n];
    assert Concat(b) == Concat(b[..n]) + b[n];
  }

  lemma ConcatOfThree(a: seq<string>, b: seq<string>, c: seq<string>)
    ensures Concat(a + b + c) == Concat(a) + Concat(b) + Concat(c)
  {
    ConcatOfSum(a + b, c);
    ConcatOfSum(a, b);
  }

  /** Joining lines neither loses nor adds text, whether it succeeds or not. */
  lemma JoinKeepsText(c: Command, t: seq<Row>, cur: int)
    requires c.JoinLines? && 0 <= cur <= |t|
    ensures Concat(Strings(CommandResult(c, t, cur).text)) == Concat(Strings(t))
  {
    hide Concat;
    var e := CommandResult(c, t, cur);
    var a, b := Addressed(c, cur, |t|).0, Addressed(c, cur, |t|).1;
    if e.ok && a < b {
      var s := Strings(t);
      var one := Concat(s[a - 1..b]);
      assert Strings(t[a - 1..b]) == s[a - 1..b];
      assert Strings(e.text) == s[..a - 1] + [one] + s[b..];
      assert s == s[..a - 1] + s[a - 1..b] + s[b..];
      ConcatOfThree(s[..a - 1], s[a - 1..b], s[b..]);
      ConcatOfThree(s[..a - 1], [one], s[b..]);
      assert Concat([one]) == one by { ConcatOfOne(one); }
    }
  }

  lemma ConcatOfOne(s: string)
    ensures Concat([s]) == s
  {
    assert [s][..0] == [];
  }

  /** The block stands directly behind the line `target` of `t`, the last line of it being current; without it the text is
      `others`. */
  ghost predicate Behind(text: seq<Row>, cur: int, block: seq<Row>, others: seq<Row>, target: int, t: seq<Row>) {
    && |block| <= cur <= |text| && text[cur - |block|..cur] == block && text[..cur - |block|] + text[cur..] == others
    && 0 <= target <= |t|
    && if target == 0 then cur == |block| else cur > |block| && text[cur - |block| - 1] == t[target - 1]
  }

  /** Moving and copying put the lines directly behind the target line, the last of them becoming current. A move keeps all
      lines with their marks, a copy leaves the old lines where they are among themselves. */
  lemma PlacedBehindTarget(c: Command, t: seq<Row>, cur: int)
    requires (c.MoveLines? || c.CopyLinesTo?) && 0 <= cur <= |t| && CommandResult(c, t, cur).ok
    ensures var e, target := CommandResult(c, t, cur), TargetOf(c, cur, |t|);
            var a, b := Addressed(c, cur, |t|).0, Addressed(c, cur, |t|).1;
            && 0 < a <= b <= |t|
            && (c.MoveLines? ==>
                  Behind(e.text, e.cur, t[a - 1..b], t[..a - 1] + t[b..], target, t) && multiset(e.text) == multiset(t))
            && (c.CopyLinesTo? ==> Behind(e.text, e.cur, Cleared(t[a - 1..b]), t, target, t))
  {
    hide With, Without, Behind;
    var a, b := Addressed(c, cur, |t|).0, Addressed(c, cur, |t|).1;
    var num := TargetOf(c, cur, |t|);
    if c.MoveLines? {
      MovedBehind(t, a, b, num);
    } else {
      Put(t, num, Cleared(t[a - 1..b]));
    }
  }

  lemma Put(t: seq<Row>, k: nat, s: seq<Row>)
    requires k <= |t|
    ensures Behind(With(t, k, s), k + |s|, s, t, k, t)
  {
    var w, n := With(t, k, s), |s|;
    assert w[..k] == t[..k] && w[k + n..] == t[k..] && t[..k] + t[k..] == t;
  }

  lemma MovedBehind(t: seq<Row>, a: nat, b: nat, num: nat)
    requires 0 < a <= b <= |t| && num <= |t| && !(a <= num <= b)
    ensures var w, n := Without(t, a - 1, b - 1), b - a + 1; var k := if num < a then num else num - n;
            var m := With(w, k, t[a - 1..b]);
            Behind(m, k + n, t[a - 1..b], t[..a - 1] + t[b..], num, t) && multiset(m) == multiset(t)
  {
    hide With, Behind;
    var w, n := Without(t, a - 1, b - 1), b - a + 1;
    var k := if num < a then num else num - n;
    assert w == t[..a - 1] + t[b..];
    Put(w, k, t[a - 1..b]);
    SameTarget(With(w, k, t[a - 1..b]), k + n, t[a - 1..b], w, k, num, t);
    MovedSame(t, a - 1, b - 1, k);
  }

  lemma SameTarget(text: seq<Row>, cur: int, block: seq<Row>, w: seq<Row>, k: int, num: int, t: seq<Row>)
    requires Behind(text, cur, block, w, k, w) && 0 <= num <= |t| && (k == 0 <==> num == 0) && (num > 0 ==> w[k - 1] == t[num - 1])
    ensures Behind(text, cur, block, w, num, t)
  {
  }

  lemma MovedSame(t: seq<Row>, a: nat, b: nat, k: nat)
    requires a <= b < |t| && k <= |Without(t, a, b)|
    ensures multiset(With(Without(t, a, b), k, t[a..b + 1])) == multiset(t)
  {
    hide Without;
    var w, s := Without(t, a, b), t[a..b + 1];
    Parted(t, a, b);
    assert w[..k] + w[k..] == w;
    assert multiset(With(w, k, s)) == multiset(w[..k]) + multiset(s) + multiset(w[k..]);
  }

  lemma Parted(t: seq<Row>, a: nat, b: nat)
    requires a <= b < |t|
    ensures multiset(t) == multiset(Without(t, a, b)) + multiset(t[a..b + 1])
  {
    assert t == t[..a] + (t[a..b + 1] + t[b + 1..]);
  }

  // ----- running the command for every marked line

  /** How many lines are marked. */
  function Marks(t: seq<Row>): nat {
    if t == [] then 0 else (if t[0].marked then 1 else 0) + Marks(t[1..])
  }

  lemma {:induction false} MarksOfSum(a: seq<Row>, b: seq<Row>)
    ensures Marks(a + b) == Marks(a) + Marks(b)
  {
    if a == [] {
      assert a + b == b;
    } else {
      assert (a + b)[1..] == a[1..] + b;
      MarksOfSum(a[1..], b);
    }
  }

  lemma {:induction false} NoMarks(t: seq<Row>)
    requires forall i :: 0 <= i < |t| ==> !t[i].marked
    ensures Marks(t) == 0
  {
    if t != [] {
      NoMarks(t[1..]);
    }
  }

  lemma MarksWithout(t: seq<Row>, a: nat, b: nat)
    requires a <= b < |t|
    ensures Marks(Without(t, a, b)) == Marks(t) - Marks(t[a..b + 1])
  {
    hide Marks;
    MarksOfSum(t[..a], t[a..b + 1]);
    MarksOfSum(t[..a], t[b + 1..]);
    MarksOfSum(t[..b + 1], t[b + 1..]);
    assert t[..a] + t[a..b + 1] == t[..b + 1] && t[..b + 1] + t[b + 1..] == t;
  }

  lemma MarksWith(t: seq<Row>, k: nat, u: seq<Row>)
    requires k <= |t|
    ensures Marks(With(t, k, u)) == Marks(t) + Marks(u)
  {
    hide Marks;
    MarksOfSum(t[..k] + u, t[k..]);
    MarksOfSum(t[..k], u);
    MarksOfSum(t[..k], t[k..]);
    assert t[..k] + t[k..] == t;
  }

  /** No command marks a line, and the current line stays in the text. */
  lemma CommandMarks(c: Command, t: seq<Row>, cur: int)
    requires 0 <= cur <= |t|
    ensures var e := CommandResult(c, t, cur); Marks(e.text) <= Marks(t) && 0 <= e.cur <= |e.text|
  {
    hide Marks, With, Without;
    if Accepted(c, cur, |t|) {
      var a, b := Addressed(c, cur, |t|).0, Addressed(c, cur, |t|).1;
      EditMarks(c, t, cur, a, b, TargetOf(c, cur, |t|));
    }
  }

  lemma EditMarks(c: Command, t: seq<Row>, cur: int, a: nat, b: nat, num: nat)
    requires 0 < a <= b && num <= |t| && (b <= |t| || c.JoinLines?) && 0 <= cur <= |t|
    ensures var e := EditedText(c, t, cur, a, b, num); Marks(e.text) <= Marks(t) && 0 <= e.cur <= |e.text|
  {
    hide Marks;
    if b <= |t| {
      var w, s := Without(t, a - 1, b - 1), t[a - 1..b];
      MarksWithout(t, a - 1, b - 1);
      if c.MoveLines? && !(a <= num <= b) {
        MarksWith(w, if num < a then num else num - (b - a + 1), s);
      }
      NoMarks(Cleared(s));
      MarksWith(t, num, Cleared(s));
      var one := [Row(Concat(Strings(s)), false)];
      NoMarks(one);
      MarksWith(w, a - 1, one);
    }
  }

  /** The first marked line, counted from 0. */
  function FirstMark(t: seq<Row>): (i: nat)
    ensures i <= |t| && (forall k :: 0 <= k < i ==> !t[k].marked) && (i < |t| ==> t[i].marked)
  {
    if t == [] || t[0].marked then 0 else 1 + FirstMark(t[1..])
  }

  function Unmark(t: seq<Row>, i: nat): seq<Row>
    requires i < |t|
  {
    t[i := t[i].(marked := false)]
  }

  lemma OneMarkLess(t: seq<Row>, i: nat)
    requires i < |t| && t[i].marked
    ensures Marks(Unmark(t, i)) == Marks(t) - 1
  {
    var u := Unmark(t, i);
    MarksOfSum(t[..i], t[i..]);
    MarksOfSum(u[..i], u[i..]);
    assert t[..i] + t[i..] == t && u[..i] + u[i..] == u && u[..i] == t[..i] && u[i..][1..] == t[i..][1..];
  }

  /** The command is run for the first line that is marked, again and again, until none is left or it fails. */
  ghost function Global(c: Command, t: seq<Row>, cur: int): Edited
    requires 0 <= cur <= |t|
    decreases Marks(t)
  {
    var i := FirstMark(t);
    if i == |t| then Edited(t, cur, true)
    else
      OneMarkLess(t, i);
      CommandMarks(c, Unmark(t, i), i + 1);
      var e := CommandResult(c, Unmark(t, i), i + 1);
      if e.ok then Global(c, e.text, e.cur) else e
  }

  lemma GlobalStep(c: Command, t: seq<Row>, cur: int)
    requires 0 <= cur <= |t|
    ensures var i := FirstMark(t);
            if i == |t| then Global(c, t, cur) == Edited(t, cur, true)
            else
              var e := CommandResult(c, Unmark(t, i), i + 1);
              0 <= e.cur <= |e.text| && Global(c, t, cur) == if e.ok then Global(c, e.text, e.cur) else e
  {
    hide CommandResult;
    var i := FirstMark(t);
    if i < |t| {
      CommandMarks(c, Unmark(t, i), i + 1);
    }
  }

  function Unmarked(t: seq<Row>): seq<Row> {
    if t == [] then [] else (if t[0].marked then [] else [t[0]]) + Unmarked(t[1..])
  }

  lemma {:induction false} UnmarkedOfSum(a: seq<Row>, b: seq<Row>)
    ensures Unmarked(a + b) == Unmarked(a) + Unmarked(b)
  {
    if a == [] {
      assert a + b == b;
    } else {
      assert (a + b)[1..] == a[1..] + b;
      UnmarkedOfSum(a[1..], b);
    }
  }

  lemma {:induction false} AllUnmarked(t: seq<Row>)
    requires forall i :: 0 <= i < |t| ==> !t[i].marked
    ensures Unmarked(t) == t
  {
    if t != [] {
      AllUnmarked(t[1..]);
    }
  }

  /** Deleting every marked line leaves exactly the lines without a mark, in their order. */
  lemma {:induction false} GlobalDelete(c: Command, t: seq<Row>, cur: int)
    requires c.Delete? && WithoutRange(c) && 0 <= cur <= |t|
    ensures Global(c, t, cur).ok && Global(c, t, cur).text == Unmarked(t)
    decreases Marks(t)
  {
    hide Marks, WithoutRange;
    var i := FirstMark(t);
    if i == |t| {
      AllUnmarked(t);
    } else {
      var u := Unmark(t, i);
      OneMarkLess(t, i);
      CommandMarks(c, u, i + 1);
      DeleteHere(c, u, i + 1);
      var e := CommandResult(c, u, i + 1);
      GlobalDelete(c, e.text, e.cur);
      assert u[..i] == t[..i] && u[i + 1..] == t[i + 1..];
      MarkedGone(t, i);
    }
  }

  lemma MarkedGone(t: seq<Row>, i: nat)
    requires i < |t| && t[i].marked
    ensures Unmarked(t[..i] + t[i + 1..]) == Unmarked(t)
  {
    hide Unmarked;
    UnmarkedOfSum(t[..i], t[i + 1..]);
    UnmarkedAround(t, i);
  }

  lemma UnmarkedAround(t: seq<Row>, i: nat)
    requires i < |t|
    ensures t[i].marked ==> Unmarked(t) == Unmarked(t[..i]) + Unmarked(t[i + 1..])
  {
    hide Unmarked;
    var back := t[i + 1..];
    assert t == t[..i] + ([t[i]] + back);
    UnmarkedOfSum(t[..i], [t[i]] + back);
    ReversedNext(t[i], back);
  }

  /** The marked lines without their marks, the last one first. */
  function Reversed(t: seq<Row>): seq<Row> {
    if t == [] then [] else Reversed(t[1..]) + (if t[0].marked then [t[0].(marked := false)] else [])
  }

  lemma {:induction false} ReversedOfSum(a: seq<Row>, b: seq<Row>)
    ensures Reversed(a + b) == Reversed(b) + Reversed(a)
  {
    if a == [] {
      assert a + b == b;
    } else {
      assert (a + b)[1..] == a[1..] + b;
      ReversedOfSum(a[1..], b);
    }
  }

  lemma {:induction false} NoneReversed(t: seq<Row>)
    requires forall i :: 0 <= i < |t| ==> !t[i].marked
    ensures Reversed(t) == []
  {
    if t != [] {
      NoneReversed(t[1..]);
    }
  }

  /** The line is moved in front of all others. */
  ghost predicate ToTheFront(c: Command) {
    c.MoveLines? && WithoutRange(c) && forall cur, lastLn :: c.target(cur, lastLn) == 0
  }

  lemma MovedToFront(c: Command, t: seq<Row>, cur: int)
    requires ToTheFront(c) && 0 < cur <= |t|
    ensures var e := CommandResult(c, t, cur); e.ok && e.text == [t[cur - 1]] + t[..cur - 1] + t[cur..]
  {
    assert Accepted(c, cur, |t|);
  }

  /** Moving every marked line to the front reverses their order. */
  lemma {:induction false} GlobalReverses(c: Command, t: seq<Row>, cur: int)
    requires ToTheFront(c) && 0 <= cur <= |t|
    ensures Global(c, t, cur).ok && Global(c, t, cur).text == Reversed(t) + Unmarked(t)
    decreases Marks(t)
  {
    hide Marks, ToTheFront;
    var i := FirstMark(t);
    if i == |t| {
      AllUnmarked(t);
      NoneReversed(t);
    } else {
      var u := Unmark(t, i);
      OneMarkLess(t, i);
      CommandMarks(c, u, i + 1);
      MovedToFront(c, u, i + 1);
      var e := CommandResult(c, u, i + 1);
      GlobalReverses(c, e.text, e.cur);
      assert u[..i] == t[..i] && u[i + 1..] == t[i + 1..];
      FrontMoved(t, i, e.text);
    }
  }

  lemma FrontMoved(t: seq<Row>, i: nat, u: seq<Row>)
    requires i < |t| && t[i].marked && (forall k :: 0 <= k < i ==> !t[k].marked)
    requires u == [t[i].(marked := false)] + t[..i] + t[i + 1..]
    ensures Reversed(u) + Unmarked(u) == Reversed(t) + Unmarked(t)
  {
    hide Unmarked, Reversed;
    var x := [t[i].(marked := false)];
    var front, back := x + t[..i], t[i + 1..];
    AllUnmarked(t[..i]);
    AllUnmarked(front);
    NoneReversed(front);
    UnmarkedOfSum(front, back);
    ReversedOfSum(front, back);
    UnmarkedAround(t, i);
    ReversedAround(t, i);
    Regrouped(Reversed(back), x, t[..i], Unmarked(back));
  }

  lemma ReversedAround(t: seq<Row>, i: nat)
    requires i < |t| && t[i].marked && (forall k :: 0 <= k < i ==> !t[k].marked)
    ensures Reversed(t) == Reversed(t[i + 1..]) + [t[i].(marked := false)]
  {
    hide Reversed;
    var back := t[i + 1..];
    assert t == t[..i] + ([t[i]] + back);
    NoneReversed(t[..i]);
    ReversedOfSum(t[..i], [t[i]] + back);
    ReversedNext(t[i], back);
  }

  lemma ReversedNext(x: Row, back: seq<Row>)
    ensures Reversed([x] + back) == Reversed(back) + (if x.marked then [x.(marked := false)] else [])
    ensures Unmarked([x] + back) == (if x.marked then [] else [x]) + Unmarked(back)
  {
    assert ([x] + back)[1..] == back;
  }

  lemma Regrouped(a: seq<Row>, b: seq<Row>, c: seq<Row>, d: seq<Row>)
    ensures (a + []) + ((b + c) + d) == (a + b) + (c + d)
  {
  }

  /** Joining lines for every marked one keeps the whole text, whether it succeeds or not. */
  lemma {:induction false} GlobalJoinKeepsText(c: Command, t: seq<Row>, cur: int)
    requires c.JoinLines? && 0 <= cur <= |t|
    ensures Concat(Strings(Global(c, t, cur).text)) == Concat(Strings(t))
    decreases Marks(t)
  {
    hide Marks, Concat, CommandResult;
    var i := FirstMark(t);
    if i < |t| {
      var u := Unmark(t, i);
      OneMarkLess(t, i);
      CommandMarks(c, u, i + 1);
      JoinKeepsText(c, u, i + 1);
      var e := CommandResult(c, u, i + 1);
      assert Strings(u) == Strings(t);
      if e.ok {
        GlobalJoinKeepsText(c, e.text, e.cur);
      }
    }
  }

  /** The marked lines of the text. */
  ghost function Marked(r: seq<Line>): set<Line>
    reads LinesOf(r)
  {
    set i | 0 < i < |r| && r[i].glob :: r[i]
  }

  lemma FewerMarked(s: set<Line>, t: set<Line>)
    requires s <= t
    ensures |s| <= |t|
  {
    assert t == s + (t - s);
  }

  /** Find the first marked line. */
  method FirstMarked(b: EdBuffer) returns (lin: nat, ptr: Line)
    requires b.Valid()
    ensures 0 < lin <= |b.ring| && forall i :: 0 < i < lin ==> !b.ring[i].glob
    ensures lin < |b.ring| ==> ptr == b.ring[lin] && ptr.glob
  {
    hide Distinct, AllUnbroken;
    ptr := b.GetPtr(1);
    lin := 1;
    while lin <= b.lastLn && !ptr.glob
      invariant 0 < lin <= |b.ring| && (lin < |b.ring| ==> ptr == b.ring[lin])
      invariant forall i :: 0 < i < lin ==> !b.ring[i].glob
    {
      Places(b.ring, lin);
      ptr := ptr.next;
      lin := lin + 1;
    }
  }

  /** The rows when one mark has been cleared. */
  lemma MarkCleared(r: seq<Line>, i: nat, was: seq<Row>)
    requires 0 < i < |r| && !r[i].glob && |was| == |r| - 1 && was[i - 1].text == r[i].text
    requires forall j :: 0 <= j < |was| && j != i - 1 ==> was[j] == Row(r[j + 1].text, r[j + 1].glob)
    ensures Rows(r[1..]) == Unmark(was, i - 1)
  {
  }

  /** Clear the mark of the line, and make it the current one. */
  method TakeMark(b: EdBuffer, lin: nat, ptr: Line)
    requires b.Valid() && 0 < lin < |b.ring| && ptr == b.ring[lin]
    modifies b`curLn, b`curPtr, ptr`glob
    ensures b.Valid() && b.curLn == lin && !ptr.glob
    ensures Content(b) == Unmark(old(Content(b)), lin - 1)
  {
    hide Distinct, AllUnbroken, Rows, Unmark;
    ghost var was := Content(b);
    ClosedDistinct(b.ring);
    NotThis(b.ring, lin);
    SetMark(b, ptr, false);
    MarkCleared(b.ring, lin, was);
    b.curLn, b.curPtr := lin, ptr;
  }

  /** Clear the mark of the line, make it the current one, and run the command. No other mark changes as long as the line
      is there, no line is marked, and lines that are gone do not come back. */
  method GlobalTurn(b: EdBuffer, c: Command, lin: nat, ptr: Line, ghost gone: set<Line>) returns (ok: bool)
    requires b.Valid() && 0 < lin < |b.ring| && ptr == b.ring[lin] && ptr.glob && gone !! LinesOf(b.ring)
    modifies b, LinesOf(b.ring)
    ensures b.Valid() && gone !! LinesOf(b.ring)
    ensures forall l :: l in LinesOf(b.ring) ==> l in old(LinesOf(b.ring)) || fresh(l)
    ensures Marked(b.ring) <= old(Marked(b.ring)) - {ptr}
    ensures forall l :: l in old(Marked(b.ring)) ==> l == ptr || l in Marked(b.ring) || l !in LinesOf(b.ring)
    ensures Edited(Content(b), b.curLn, ok) == CommandResult(c, Unmark(old(Content(b)), lin - 1), lin)
  {
    hide Distinct, AllUnbroken, Linked, Rows, CommandResult, Unmark, Content;
    ghost var r, m := b.ring, Marked(b.ring);
    Among(r);
    forall i | 0 < i < |r|
      ensures r[i] != r[0]
    {
      NotFirst(r, i);
    }
    TakeMark(b, lin, ptr);
    ok := DoCommand(b, c);
    Among(b.ring);
    forall l | l in Marked(b.ring)
      ensures l in m && l != ptr
    {
      var i :| 0 < i < |b.ring| && b.ring[i] == l && l.glob;
      NotFirst(b.ring, i);
      var j :| 0 <= j < |r| && r[j] == l;
    }
    forall l | l in m && l != ptr && l in LinesOf(b.ring)
      ensures l in Marked(b.ring)
    {
      assert l != r[0];
      var i :| 0 <= i < |b.ring| && b.ring[i] == l;
    }
  }

  /** Each turn has been one of a line marked at the start, which has had no other, and such a line has had its turn, is still
      marked, or is gone. */
  ghost predicate TurnsKept(turns: seq<Line>, marked0: set<Line>, marked: set<Line>, lines: set<Line>) {
    && Distinct(turns) && LinesOf(turns) <= marked0 && marked <= marked0 - LinesOf(turns)
    && forall l :: l in marked0 ==> l in LinesOf(turns) || l in marked || l !in lines
  }

  lemma NoTurns(marked0: set<Line>, lines: set<Line>)
    ensures TurnsKept([], marked0, marked0, lines)
  {
  }

  lemma TurnsStep(turns: seq<Line>, ptr: Line, marked0: set<Line>, m: set<Line>, lines: set<Line>, m': set<Line>, lines': set<Line>)
    requires TurnsKept(turns, marked0, m, lines) && ptr in m && m' <= m - {ptr} && (marked0 - lines) !! lines'
    requires forall l :: l in m ==> l == ptr || l in m' || l !in lines'
    ensures TurnsKept(turns + [ptr], marked0, m', lines')
  {
    TurnsAfter(turns, ptr);
  }

  lemma TurnsDone(turns: seq<Line>, marked0: set<Line>, marked: set<Line>, lines: set<Line>)
    requires TurnsKept(turns, marked0, marked, lines)
    ensures Distinct(turns) && LinesOf(turns) <= marked0
    ensures marked == {} ==> forall l :: l in marked0 ==> l in LinesOf(turns) || l !in lines
  {
  }

  /** Run a command for every marked line. It ends, as no command marks a line; no line gets a second turn, and every
      marked line has had its turn unless it is gone by then. The search for the next one starts anew each time, since
      the text may have changed. The text is the one that is reached by running the command at the first marked line
      again and again. */
  method DoGlob(b: EdBuffer, c: Command) returns (ok: bool, ghost turns: seq<Line>)
    requires b.Valid()
    modifies b, LinesOf(b.ring)
    ensures b.Valid()
    ensures Edited(Content(b), b.curLn, ok) == Global(c, old(Content(b)), old(b.curLn))
    ensures Distinct(turns) && LinesOf(turns) <= old(Marked(b.ring))
    ensures ok ==> Marked(b.ring) == {}
    ensures ok ==> forall l :: l in old(Marked(b.ring)) ==> l in LinesOf(turns) || l !in LinesOf(b.ring)
  {
    hide AllUnbroken, Linked, Marked, Rows, CommandResult, Unmark, Closed, Content, Global, TurnsKept;
    turns := [];
    ok := true;
    ghost var marked0, content0, cur0 := Marked(b.ring), Content(b), b.curLn;
    NoTurns(marked0, LinesOf(b.ring));
    while true
      invariant b.Valid() && Global(c, content0, cur0) == Global(c, Content(b), b.curLn)
      invariant forall l :: l in LinesOf(b.ring) ==> l in old(LinesOf(b.ring)) || fresh(l)
      invariant TurnsKept(turns, marked0, Marked(b.ring), LinesOf(b.ring))
      decreases |Marked(b.ring)|
    {
      var lin, ptr := FirstMarked(b);
      MarkedHere(b.ring, lin);
      FirstMarkHere(b, lin);
      GlobalStep(c, Content(b), b.curLn);
      TurnsDone(turns, marked0, Marked(b.ring), LinesOf(b.ring));
      if lin > b.lastLn {
        break;
      }
      ghost var m, lines := Marked(b.ring), LinesOf(b.ring);
      ok := GlobalTurn(b, c, lin, ptr, marked0 - lines);
      FewerMarked(Marked(b.ring), m - {ptr});
      TurnsStep(turns, ptr, marked0, m, lines, Marked(b.ring), LinesOf(b.ring));
      TurnsDone(turns + [ptr], marked0, Marked(b.ring), LinesOf(b.ring));
      turns := turns + [ptr];
      if !ok {
        return;
      }
    }
  }

  lemma MarkedHere(r: seq<Line>, lin: nat)
    requires 0 < lin <= |r| && (lin < |r| ==> r[lin].glob) && forall i :: 0 < i < lin ==> !r[i].glob
    ensures lin < |r| ==> r[lin] in Marked(r)
    ensures lin == |r| ==> Marked(r) == {}
  {
  }

  /** The first marked line is the first marked row. */
  lemma FirstMarkHere(b: EdBuffer, lin: nat)
    requires var r := b.ring; 0 < lin <= |r| && (lin < |r| ==> r[lin].glob) && forall i :: 0 < i < lin ==> !r[i].glob
    ensures FirstMark(Content(b)) == lin - 1
  {
    var r, t := b.ring, Content(b);
    forall k | 0 <= k < lin - 1
      ensures !t[k].marked
    {
      assert t[k].marked == r[k + 1].glob;
    }
    assert lin < |r| ==> t[lin - 1].marked;
  }

  lemma NotFirst(r: seq<Line>, i: nat)
    requires Closed(r) && 0 < i < |r|
    ensures r[i] != r[0]
  {
  }

  lemma TurnsAfter(turns: seq<Line>, ptr: Line)
    ensures LinesOf(turns + [ptr]) == LinesOf(turns) + {ptr}
    ensures Distinct(turns) && ptr !in LinesOf(turns) ==> Distinct(turns + [ptr])
  {
    var t := turns + [ptr];
    assert t[|turns|] == ptr;
    forall i | 0 <= i < |turns|
      ensures turns[i] in LinesOf(t) && turns[i] in LinesOf(turns)
    {
      assert t[i] == turns[i];
    }
  }
}
