/** Exchanging tabs and blanks in the lines of the editor. */
module EdTabs {
  import opened Wrappers
  import opened EdBuffer

  const DEFAULT_TABSIZE := 8

  function Blanks(k: nat): string {
    seq(k, _ => ' ')
  }

  /** The text as it is shown: each tab leads to the next tab stop. */
  function Expand(s: string, tab: nat): string
    requires tab > 0
  {
    if s == "" then "" else
      var front, c := Expand(s[..|s| - 1], tab), s[|s| - 1];
      front + if c == '\t' then Blanks(tab - |front| % tab) else [c]
  }

  /** What has been put out, the column since the last tab stop, and the blanks that have not been put out. */
  datatype State = State(out: string, column: nat, space: nat)

  function Step(st: State, c: char, tab: nat): State
    requires tab > 0
  {
    if c == ' ' then
      if st.column + 1 == tab then State(st.out + if st.space == 0 then " " else "\t", 0, 0)
      else State(st.out, st.column + 1, st.space + 1)
    else if c == '\t' then
      State(st.out + if st.space == 0 && st.column + 1 == tab then " " else "\t", 0, 0)
    else State(st.out + Blanks(st.space) + [c], if st.column + 1 == tab then 0 else st.column + 1, 0)
  }

  function Run(s: string, tab: nat): State
    requires tab > 0
  {
    if s == "" then State("", 0, 0) else Step(Run(s[..|s| - 1], tab), s[|s| - 1], tab)
  }

  function Tabbed(s: string, tab: nat): string
    requires tab > 0
  {
    Run(s, tab).out
  }

  // ----- columns

  lemma AtLeast(n: int, k: int)
    requires n > 0 && k > 0
    ensures n * k >= n
  {
  }

  lemma SameQuotient(n: int, q: int, r: int, q': int, r': int)
    requires n > 0 && 0 <= r < n && 0 <= r' < n && n * q + r == n * q' + r'
    ensures q == q'
  {
    assert n * (q - q') == n * q - n * q';
    if q > q' {
      AtLeast(n, q - q');
    } else if q < q' {
      AtLeast(n, q' - q);
    }
  }

  lemma ModIs(a: int, n: int, q: int, r: int)
    requires n > 0 && a == n * q + r && 0 <= r < n
    ensures a % n == r
  {
    SameQuotient(n, q, r, a / n, a % n);
  }

  lemma ModAdd(a: nat, k: nat, n: nat)
    requires n > 0 && a % n + k <= n
    ensures (a + k) % n == if a % n + k == n then 0 else a % n + k
  {
    var q := a / n;
    if a % n + k == n {
      assert a + k == n * (q + 1);
      ModIs(a + k, n, q + 1, 0);
    } else {
      ModIs(a + k, n, q, a % n + k);
    }
  }

  lemma ModSub(a: nat, k: nat, n: nat)
    requires n > 0 && k <= (a + k) % n
    ensures a % n == (a + k) % n - k
  {
    ModIs(a, n, (a + k) / n, (a + k) % n - k);
  }

  // ----- the two conversions

  /** Append blanks, as long as there is room. */
  method FillBlanks(result: array<char>, from: nat, count: nat) returns (ok: bool, h: nat)
    requires from <= result.Length
    modifies result
    ensures ok <==> from + count <= result.Length
    ensures ok ==> h == from + count && result[..h] == old(result[..from]) + Blanks(count)
  {
    var space := count;
    h := from;
    while space > 0
      invariant 0 <= space <= count && from + (count - space) == h <= result.Length
      invariant result[..h] == old(result[..from]) + Blanks(count - space)
    {
      if h == result.Length {
        return false, h;
      }
      result[h] := ' ';
      assert result[..h + 1] == result[..h] + " ";
      space := space - 1;
      h := h + 1;
    }
    return true, h;
  }

  /** End the string in the buffer. `inside` tells whether the buffer has room for the end mark. */
  method Terminate(result: array<char>, h: nat) returns (inside: bool)
    requires h <= result.Length
    modifies result
    ensures inside <==> h < result.Length
    ensures result[..h] == old(result[..h]) && (inside ==> result[h] == '\0')
  {
    inside := h < result.Length;
    if inside {
      result[h] := '\0';
    }
  }

  /** Replace the tabs by blanks. Too long a line is an error. For a line that just fits the end mark is written behind
      the buffer. */
  method Detab(buf: string, tabsize: nat) returns (r: Option<string>, inside: bool)
    requires tabsize > 0
    ensures r == if |Expand(buf, tabsize)| > MAXLINE then None else Some(Expand(buf, tabsize))
    ensures inside <==> |Expand(buf, tabsize)| != MAXLINE
  {
    var result := new char[MAXLINE];
    var i, h: nat := 0, 0;
    while i < |buf|
      invariant 0 <= i <= |buf| && h <= MAXLINE && result[..h] == Expand(buf[..i], tabsize)
    {
      ExpandMore(buf, i, tabsize);
      if h == MAXLINE {
        return None, true;
      }
      if buf[i] == '\t' {
        var ok;
        ok, h := FillBlanks(result, h, tabsize - h % tabsize);
        if !ok {
          return None, true;
        }
      } else {
        result[h] := buf[i];
        assert result[..h + 1] == result[..h] + [buf[i]];
        h := h + 1;
      }
      i := i + 1;
    }
    assert buf[..i] == buf;
    inside := Terminate(result, h);
    return Some(result[..h]), inside;
  }

  lemma ExpandMore(s: string, i: nat, tab: nat)
    requires i < |s| && tab > 0
    ensures var front := Expand(s[..i], tab);
            Expand(s[..i + 1], tab) == front + if s[i] == '\t' then Blanks(tab - |front| % tab) else [s[i]]
    ensures |Expand(s[..i + 1], tab)| <= |Expand(s, tab)|
    decreases |s| - i
  {
    assert s[..i + 1][..i] == s[..i];
    if i + 1 < |s| {
      ExpandMore(s, i + 1, tab);
    } else {
      assert s[..i + 1] == s;
    }
  }

  method PutBlanks(result: array<char>, from: nat, count: nat)
    requires from + count <= result.Length
    modifies result
    ensures result[..from + count] == old(result[..from]) + Blanks(count)
  {
    var h, space := from, count;
    while space > 0
      invariant 0 <= space <= count && h == from + count - space
      invariant result[..h] == old(result[..from]) + Blanks(count - space)
    {
      result[h] := ' ';
      assert result[..h + 1] == result[..h] + " ";
      h, space := h + 1, space - 1;
    }
  }

  /** Replace blanks by tabs where a tab replaces more than one. */
  method Tab(buf: string, tabsize: nat) returns (r: string, inside: bool)
    requires tabsize > 0 && |buf| <= MAXLINE
    ensures r == Tabbed(buf, tabsize)
    ensures inside <==> |Tabbed(buf, tabsize)| != MAXLINE
  {
    hide Expand;
    var result := new char[MAXLINE];
    var i, h, space, pos: nat := 0, 0, 0, 0;
    while i < |buf|
      invariant 0 <= i <= |buf| && h + space <= i
      invariant Run(buf[..i], tabsize) == State(result[..h], pos % tabsize, space) && space <= pos % tabsize
    {
      RunMore(buf, i, tabsize);
      ModAdd(pos, 1, tabsize);
      ghost var out := result[..h];
      if buf[i] == ' ' {
        pos := pos + 1;
        space := space + 1;
        if pos % tabsize == 0 {
          result[h] := if space == 1 then ' ' else '\t';
          assert result[..h + 1] == out + [result[h]];
          h := h + 1;
          pos, space := 0, 0;
        }
      } else if buf[i] == '\t' {
        if space == 0 && pos % tabsize == tabsize - 1 {
          result[h] := ' ';
          pos := pos + 1;
        } else {
          result[h] := '\t';
          pos, space := 0, 0;
        }
        assert result[..h + 1] == out + [result[h]];
        h := h + 1;
      } else {
        PutBlanks(result, h, space);
        h, space := h + space, 0;
        result[h] := buf[i];
        assert result[..h + 1] == result[..h] + [buf[i]];
        h := h + 1;
        pos := pos + 1;
      }
      i := i + 1;
    }
    assert buf[..i] == buf;
    inside := Terminate(result, h);
    return result[..h], inside;
  }

  lemma RunMore(s: string, i: nat, tab: nat)
    requires i < |s| && tab > 0
    ensures Run(s[..i + 1], tab) == Step(Run(s[..i], tab), s[i], tab)
  {
    assert s[..i + 1][..i] == s[..i];
  }

  // ----- what they do to the text as it is shown

  lemma ExpandChar(t: string, c: char, tab: nat)
    requires tab > 0
    ensures Expand(t + [c], tab) == Expand(t, tab) + if c == '\t' then Blanks(tab - |Expand(t, tab)| % tab) else [c]
  {
    assert (t + [c])[..|t|] == t;
  }

  lemma RunChar(t: string, c: char, tab: nat)
    requires tab > 0
    ensures Run(t + [c], tab) == Step(Run(t, tab), c, tab)
  {
    assert (t + [c])[..|t|] == t;
  }

  lemma MoreBlanks(t: string, k: nat)
    ensures t + Blanks(k + 1) == t + Blanks(k) + [' '] && t + Blanks(0) == t
  {
  }

  lemma {:induction false} ExpandBlanks(t: string, k: nat, tab: nat)
    requires tab > 0
    ensures Expand(t + Blanks(k), tab) == Expand(t, tab) + Blanks(k)
  {
    hide Expand, Blanks;
    if k == 0 {
      MoreBlanks(t, 0);
      MoreBlanks(Expand(t, tab), 0);
    } else {
      ExpandBlanks(t, k - 1, tab);
      ExpandChar(t + Blanks(k - 1), ' ', tab);
      MoreBlanks(t, k - 1);
      MoreBlanks(Expand(t, tab), k - 1);
    }
  }

  /** The tabbed text looks like the text itself but for blanks that are still to come, fewer than to the next tab stop. */
  ghost predicate Faithful(s: string, st: State, tab: nat)
    requires tab > 0
  {
    && st.space <= st.column < tab
    && |Expand(s, tab)| % tab == st.column
    && Expand(s, tab) == Expand(st.out, tab) + Blanks(st.space)
    && |st.out| + st.space <= |s|
  }

  lemma StepFaithful(s: string, st: State, c: char, tab: nat)
    requires tab > 0 && Faithful(s, st, tab)
    ensures Faithful(s + [c], Step(st, c, tab), tab)
  {
    hide Expand;
    var e, o := Expand(s, tab), Expand(st.out, tab);
    ModSub(|o|, st.space, tab);
    ModAdd(|e|, 1, tab);
    ModAdd(|e|, tab - st.column, tab);
    ExpandChar(s, c, tab);
    if c == ' ' {
      if st.column + 1 == tab {
        ExpandChar(st.out, if st.space == 0 then ' ' else '\t', tab);
        assert st.space > 0 ==> |o| % tab == st.column - st.space;
        assert e + [c] == o + Blanks(st.space + 1);
      } else {
        assert e + [c] == o + Blanks(st.space + 1);
      }
    } else if c == '\t' {
      if st.space == 0 && st.column + 1 == tab {
        ExpandChar(st.out, ' ', tab);
        assert e + Blanks(1) == o + [' '];
      } else {
        ExpandChar(st.out, '\t', tab);
        assert e + Blanks(tab - st.column) == o + Blanks(tab - (st.column - st.space));
      }
    } else {
      ExpandBlanks(st.out, st.space, tab);
      ExpandChar(st.out + Blanks(st.space), c, tab);
    }
  }

  lemma {:induction false} RunFaithful(s: string, tab: nat)
    requires tab > 0
    ensures Faithful(s, Run(s, tab), tab)
  {
    if s != "" {
      var t := s[..|s| - 1];
      RunFaithful(t, tab);
      StepFaithful(t, Run(t, tab), s[|s| - 1], tab);
      assert s == t + [s[|s| - 1]];
    }
  }

  /** Expanding the tabbed line gives the beginning of the expanded line. Only blanks are missing, fewer than a tab
      stop, and the tabbed line is not longer than the line. */
  lemma TabbedLooksTheSame(s: string, tab: nat) returns (missing: nat)
    requires tab > 0
    ensures missing < tab && Expand(s, tab) == Expand(Tabbed(s, tab), tab) + Blanks(missing)
    ensures |Tabbed(s, tab)| + missing <= |s|
  {
    RunFaithful(s, tab);
    missing := Run(s, tab).space;
  }

  /** Nothing is missing exactly if the line does not end in a blank, or ends at a tab stop. */
  lemma NothingMissingIff(s: string, tab: nat)
    requires tab > 0
    ensures Expand(Tabbed(s, tab), tab) == Expand(s, tab)
            <==> s == "" || s[|s| - 1] != ' ' || |Expand(s, tab)| % tab == 0
  {
    RunFaithful(s, tab);
    if s != "" {
      RunFaithful(s[..|s| - 1], tab);
    }
  }

  /** What each character of a line is expanded to: a tab to between one blank and a tab stop of them, up to the next tab
      stop, any other character to itself. */
  lemma ExpandStops(s: string, i: nat, tab: nat) returns (n: nat)
    requires i < |s| && tab > 0
    ensures if s[i] == '\t' then 0 < n <= tab && |Expand(s[..i + 1], tab)| % tab == 0 && Expand(s[..i + 1], tab) == Expand(s[..i], tab) + Blanks(n)
            else n == 1 && Expand(s[..i + 1], tab) == Expand(s[..i], tab) + [s[i]]
  {
    var e := Expand(s[..i], tab);
    ExpandMore(s, i, tab);
    n := if s[i] == '\t' then tab - |e| % tab else 1;
    ModAdd(|e|, n, tab);
  }

  /** The line has blanks only where no tab would do: two blanks do not reach up to a tab stop, and no blank stands before a
      tab unless it ends at a tab stop. */
  ghost predicate Tight(t: string, tab: nat)
    requires tab > 0
  {
    && (forall i :: 0 < i < |t| && t[i - 1] == ' ' == t[i] ==> |Expand(t[..i + 1], tab)| % tab != 0)
    && (forall i :: 0 < i < |t| && t[i - 1] == ' ' && t[i] == '\t' ==> |Expand(t[..i], tab)| % tab == 0)
  }

  lemma TightMore(t: string, c: char, tab: nat)
    requires tab > 0 && Tight(t, tab)
    requires c == ' ' && t != "" && t[|t| - 1] == ' ' ==> |Expand(t + [c], tab)| % tab != 0
    requires c == '\t' && t != "" && t[|t| - 1] == ' ' ==> |Expand(t, tab)| % tab == 0
    ensures Tight(t + [c], tab)
  {
    hide Expand;
    var u := t + [c];
    forall i | 0 < i < |u|
      ensures u[i - 1] == ' ' == u[i] ==> |Expand(u[..i + 1], tab)| % tab != 0
      ensures u[i - 1] == ' ' && u[i] == '\t' ==> |Expand(u[..i], tab)| % tab == 0
    {
      if i < |t| {
        assert u[..i + 1] == t[..i + 1] && u[..i] == t[..i] && u[i] == t[i] && u[i - 1] == t[i - 1];
      } else {
        assert u[..i + 1] == u && u[..i] == t;
      }
    }
  }

  lemma {:induction false} TightBlanks(t: string, k: nat, tab: nat)
    requires tab > 0 && Tight(t, tab) && |Expand(t, tab)| % tab + k < tab
    ensures Tight(t + Blanks(k), tab) && |Expand(t + Blanks(k), tab)| % tab == |Expand(t, tab)| % tab + k
  {
    hide Expand, Tight;
    if k == 0 {
      MoreBlanks(t, 0);
    } else {
      var u := t + Blanks(k - 1);
      TightBlanks(t, k - 1, tab);
      MoreBlanks(t, k - 1);
      ExpandChar(u, ' ', tab);
      ModAdd(|Expand(u, tab)|, 1, tab);
      TightMore(u, ' ', tab);
    }
  }

  /** A blank at the end of what has been put out ends at a tab stop. */
  ghost predicate EndsAtStop(t: string, tab: nat)
    requires tab > 0
  {
    t != "" && t[|t| - 1] == ' ' ==> |Expand(t, tab)| % tab == 0
  }

  lemma StepTight(s: string, st: State, c: char, tab: nat)
    requires tab > 1 && Faithful(s, st, tab) && Tight(st.out, tab) && EndsAtStop(st.out, tab)
    ensures Tight(Step(st, c, tab).out, tab) && EndsAtStop(Step(st, c, tab).out, tab)
  {
    hide Expand, Tight;
    var o := Expand(st.out, tab);
    ModSub(|o|, st.space, tab);
    assert |o| % tab == st.column - st.space;
    if c == ' ' && st.column + 1 == tab && st.space == 0 {
      ExpandChar(st.out, ' ', tab);
      ModAdd(|o|, 1, tab);
      TightMore(st.out, ' ', tab);
    } else if c == ' ' && st.column + 1 == tab {
      TightMore(st.out, '\t', tab);
    } else if c == '\t' && st.space == 0 && st.column + 1 == tab {
      ExpandChar(st.out, ' ', tab);
      ModAdd(|o|, 1, tab);
      TightMore(st.out, ' ', tab);
    } else if c == '\t' {
      TightMore(st.out, '\t', tab);
    } else if c != ' ' {
      TightBlanks(st.out, st.space, tab);
      TightMore(st.out + Blanks(st.space), c, tab);
    }
  }

  /** Tabs are used wherever they take the place of several blanks. */
  lemma {:induction false} TabbedTight(s: string, tab: nat)
    requires tab > 1
    ensures Tight(Tabbed(s, tab), tab) && EndsAtStop(Tabbed(s, tab), tab)
  {
    if s != "" {
      var t := s[..|s| - 1];
      TabbedTight(t, tab);
      RunFaithful(t, tab);
      StepTight(t, Run(t, tab), s[|s| - 1], tab);
    }
  }

  /** A blank at the end of a short line is lost. */
  lemma BlankLost(tab: nat)
    requires tab > 2
    ensures Tabbed("a ", tab) == "a" && Expand(Tabbed("a ", tab), tab) != Expand("a ", tab)
  {
    RunChar("", 'a', tab);
    RunChar("a", ' ', tab);
    ExpandChar("", 'a', tab);
    ExpandChar("a", ' ', tab);
    assert "" + ['a'] == "a" && "a" + [' '] == "a ";
  }

  /** Lines that just fill the buffer once they are expanded: one tab that leads as far, and blanks with any tab stops. */
  lemma ExpandedFills(tab: nat)
    requires tab > 0
    ensures |Expand("\t", MAXLINE)| == MAXLINE && |Expand(Blanks(MAXLINE), tab)| == MAXLINE
  {
    hide Expand, Blanks;
    NothingExpanded(tab);
    NothingExpanded(MAXLINE);
    ExpandChar("", '\t', MAXLINE);
    assert "" + ['\t'] == "\t";
    ExpandBlanks("", MAXLINE, tab);
    assert "" + Blanks(MAXLINE) == Blanks(MAXLINE);
  }

  lemma NothingExpanded(tab: nat)
    requires tab > 0
    ensures Expand("", tab) == "" && |Blanks(MAXLINE)| == MAXLINE
  {
  }

  /** A line without blanks and tabs is not shortened, so one that fills the buffer still does. */
  lemma {:induction false} NothingToTab(s: string, tab: nat)
    requires tab > 0 && ' ' !in s && '\t' !in s
    ensures Tabbed(s, tab) == s && Run(s, tab).space == 0
  {
    hide Run, Blanks;
    if s == "" {
      RunNothing(tab);
    } else {
      var t, c := s[..|s| - 1], s[|s| - 1];
      assert s == t + [c] && c in s;
      NothingToTab(t, tab);
      RunChar(t, c, tab);
      MoreBlanks(t, 0);
    }
  }

  lemma TabbedFills(tab: nat)
    requires tab > 0
    ensures |Tabbed(seq(MAXLINE, _ => 'x'), tab)| == MAXLINE
  {
    NothingToTab(seq(MAXLINE, _ => 'x'), tab);
  }

  lemma {:induction false} BlanksHeld(t: string, st: State, k: nat, tab: nat)
    requires tab > 0 && Run(t, tab) == st && st.column + k < tab
    ensures Run(t + Blanks(k), tab) == State(st.out, st.column + k, st.space + k)
  {
    if k == 0 {
      assert t + Blanks(0) == t;
    } else {
      BlanksHeld(t, st, k - 1, tab);
      RunChar(t + Blanks(k - 1), ' ', tab);
      assert t + Blanks(k) == t + Blanks(k - 1) + [' '];
    }
  }

  /** Tabbing what has been put out puts it out again. */
  lemma {:induction false} RunAgain(s: string, tab: nat)
    requires tab > 0
    ensures var st := Run(s, tab); st.space <= st.column < tab && Run(st.out, tab) == State(st.out, st.column - st.space, 0)
  {
    hide Run, Step;
    if s != "" {
      var t, c := s[..|s| - 1], s[|s| - 1];
      RunAgain(t, tab);
      StepAgain(Run(t, tab), c, tab);
      assert s == t + [c];
      RunChar(t, c, tab);
    } else {
      RunNothing(tab);
    }
  }

  lemma RunNothing(tab: nat)
    requires tab > 0
    ensures Run("", tab) == State("", 0, 0)
  {
  }

  lemma StepAgain(st: State, c: char, tab: nat)
    requires tab > 0 && st.space <= st.column < tab && Run(st.out, tab) == State(st.out, st.column - st.space, 0)
    ensures var st' := Step(st, c, tab);
            st'.space <= st'.column < tab && Run(st'.out, tab) == State(st'.out, st'.column - st'.space, 0)
  {
    hide Run;
    if c == ' ' || c == '\t' {
      RunChar(st.out, ' ', tab);
      RunChar(st.out, '\t', tab);
    } else {
      BlanksHeld(st.out, Run(st.out, tab), st.space, tab);
      RunChar(st.out + Blanks(st.space), c, tab);
    }
  }

  /** A line that has been tabbed does not change any more, nor does one that has been expanded. */
  lemma TabbedTwice(s: string, tab: nat)
    requires tab > 0
    ensures Tabbed(Tabbed(s, tab), tab) == Tabbed(s, tab)
    ensures Expand(Expand(s, tab), tab) == Expand(s, tab)
  {
    RunAgain(s, tab);
    NoTabs(s, tab);
    ExpandNoTabs(Expand(s, tab), tab);
  }

  lemma {:induction false} NoTabs(s: string, tab: nat)
    requires tab > 0
    ensures '\t' !in Expand(s, tab)
  {
    if s != "" {
      NoTabs(s[..|s| - 1], tab);
    }
  }

  lemma {:induction false} ExpandNoTabs(s: string, tab: nat)
    requires tab > 0 && '\t' !in s
    ensures Expand(s, tab) == s
  {
    if s != "" {
      ExpandNoTabs(s[..|s| - 1], tab);
    }
  }

  // ----- the commands

  lemma {:induction false} StillUnbroken(s: string, tab: nat)
    requires tab > 0 && Unbroken(s)
    ensures Unbroken(Expand(s, tab)) && Unbroken(Tabbed(s, tab))
  {
    if s != "" {
      StillUnbroken(s[..|s| - 1], tab);
    }
  }

  /** Put a text in the place of the current line. */
  method ReplaceLine(b: EdBuffer, str: string)
    requires b.Valid() && b.curLn > 0 && Unbroken(str)
    modifies b, LinesOf(b.ring)`prev, LinesOf(b.ring)`next
    ensures b.Valid() && b.curLn == old(b.curLn) && b.line1 == old(b.line1) && b.line2 == old(b.line2) && b.lastLn == old(b.lastLn)
    ensures |b.ring| == |old(b.ring)| && b.ring == old(b.ring)[b.curLn := b.curPtr] && b.curPtr.text == str && fresh(b.curPtr) && !b.curPtr.glob
  {
    ghost var r := b.ring;
    var c := b.curLn;
    b.Del(c, c);
    ghost var w := b.ring;
    OneText(str);
    ghost var lines;
    lines := b.Ins(str);
    SingleLine(w, c, lines, b.ring, str);
    assert With(Without(r, c, c), c, [b.ring[c]]) == r[c := b.ring[c]];
  }

  /** What a conversion makes of a line: too long a line is left as it is. */
  function Converted(s: string, tab: nat, doDetab: bool): string
    requires tab > 0
  {
    if !doDetab then Tabbed(s, tab) else if |Expand(s, tab)| > MAXLINE then s else Expand(s, tab)
  }

  /** Whether the conversion of a line stays inside its buffer. */
  predicate StaysInside(s: string, tab: nat, doDetab: bool)
    requires tab > 0
  {
    (if doDetab then |Expand(s, tab)| else |Tabbed(s, tab)|) != MAXLINE
  }

  method ConvertLine(b: EdBuffer, tab: nat, doDetab: bool) returns (inside: bool)
    requires b.Valid() && b.curLn > 0 && tab > 0 && |b.curPtr.text| <= MAXLINE
    modifies b, LinesOf(b.ring)`prev, LinesOf(b.ring)`next
    ensures b.Valid() && b.curLn == old(b.curLn) && b.line1 == old(b.line1) && b.line2 == old(b.line2) && b.lastLn == old(b.lastLn)
    ensures |b.ring| == |old(b.ring)| && b.ring == old(b.ring)[b.curLn := b.curPtr]
    ensures b.curPtr.text == Converted(old(b.curPtr).text, tab, doDetab)
    ensures inside <==> StaysInside(old(b.curPtr).text, tab, doDetab)
    ensures b.curPtr == old(b.curPtr) || (fresh(b.curPtr) && !b.curPtr.glob)
  {
    hide Tabbed, Expand, Unbroken;
    assert Unbroken(b.ring[b.curLn].text);
    StillUnbroken(b.curPtr.text, tab);
    if doDetab {
      var r;
      r, inside := Detab(b.curPtr.text, tab);
      if r.Some? {
        ReplaceLine(b, r.value);
      }
    } else {
      var r;
      r, inside := Tab(b.curPtr.text, tab);
      ReplaceLine(b, r);
    }
  }

  /** The lines before `upto` have been converted. */
  ghost predicate ConvertedUpto(r: seq<Line>, r0: seq<Line>, from: int, upto: int, tab: nat, doDetab: bool)
    requires tab > 0
  {
    && |r| == |r0|
    && (forall i :: 0 <= i < |r| && from <= i < upto ==> r[i].text == Converted(r0[i].text, tab, doDetab))
    && forall i :: 0 <= i < |r| && !(from <= i < upto) ==> r[i] == r0[i]
  }

  /** No line of the range before `upto` is converted outside of the buffer. */
  ghost predicate AllInside(r0: seq<Line>, from: int, upto: int, tab: nat, doDetab: bool)
    requires tab > 0
  {
    forall i :: 0 <= i < |r0| && from <= i < upto ==> StaysInside(r0[i].text, tab, doDetab)
  }

  /** No line is longer than a line may be. */
  predicate LinesFit(r: seq<Line>) {
    forall i :: 0 < i < |r| ==> |r[i].text| <= MAXLINE
  }

  /** Convert the current line after those before it. */
  method ConvertNext(b: EdBuffer, ghost r: seq<Line>, ghost from: nat, tab: nat, doDetab: bool, inside0: bool) returns (inside: bool)
    requires b.Valid() && b.curLn > 0 && from <= b.curLn && tab > 0 && LinesFit(b.ring)
    requires ConvertedUpto(b.ring, r, from, b.curLn, tab, doDetab) && (inside0 <==> AllInside(r, from, b.curLn, tab, doDetab))
    modifies b, LinesOf(b.ring)`prev, LinesOf(b.ring)`next
    ensures b.Valid() && b.curLn == old(b.curLn) && b.line1 == old(b.line1) && b.line2 == old(b.line2) && b.lastLn == old(b.lastLn)
    ensures ConvertedUpto(b.ring, r, from, b.curLn + 1, tab, doDetab) && (inside <==> AllInside(r, from, b.curLn + 1, tab, doDetab))
    ensures LinesFit(b.ring)
    ensures forall l :: l in LinesOf(b.ring) ==> l in old(LinesOf(b.ring)) || (fresh(l) && !l.glob)
  {
    hide Converted, ConvertedUpto, Unbroken, Distinct, AllUnbroken, AllInside, StaysInside;
    LineHere(b.ring, r, from, b.curLn, tab, doDetab);
    ghost var w := b.ring;
    var ok := ConvertLine(b, tab, doDetab);
    OneConverted(w, b.ring, r, from, b.curLn, tab, doDetab);
    inside := inside0 && ok;
  }

  /** Convert the lines `from` to `last`. Converted lines can be converted again. `inside` tells whether all writes have
      been inside the buffers. */
  method TabConversion(b: EdBuffer, from0: int, last0: nat, tabsize: int, doDetab: bool) returns (inside: bool)
    requires b.Valid() && (b.lastLn > 0 ==> from0 <= b.lastLn)
    requires LinesFit(b.ring)
    modifies b, LinesOf(b.ring)`prev, LinesOf(b.ring)`next
    ensures b.Valid() && b.line1 == old(b.line1) && b.line2 == old(b.line2) && b.lastLn == old(b.lastLn)
    ensures var from, last := if from0 < 1 then 1 else from0, if last0 > b.lastLn then b.lastLn else last0;
            var tab := if tabsize <= 0 then DEFAULT_TABSIZE else tabsize;
            && ConvertedUpto(b.ring, old(b.ring), from, last + 1, tab, doDetab)
            && (inside <==> AllInside(old(b.ring), from, last + 1, tab, doDetab))
    ensures LinesFit(b.ring)
    ensures forall l :: l in LinesOf(b.ring) ==> l in old(LinesOf(b.ring)) || (fresh(l) && !l.glob)
  {
    hide Converted, ConvertedUpto, Unbroken, Distinct, AllUnbroken, AllInside, StaysInside;
    var from, last := if from0 < 1 then 1 else from0, if last0 > b.lastLn then b.lastLn else last0;
    var tab := if tabsize <= 0 then DEFAULT_TABSIZE else tabsize;
    ghost var r := b.ring;
    inside := true;
    NothingConverted(r, from, from, tab, doDetab);
    if last < from {
      NothingConverted(r, from, last + 1, tab, doDetab);
    }
    if last != 0 {
      b.SetCurLn(from);
      while b.curLn <= last
        invariant b.Valid() && b.line1 == old(b.line1) && b.line2 == old(b.line2) && b.lastLn == old(b.lastLn)
        invariant from <= b.curLn && (from <= last ==> b.curLn <= last) && (last < from ==> b.ring == r && inside)
        invariant ConvertedUpto(b.ring, r, from, b.curLn, tab, doDetab) && LinesFit(b.ring)
        invariant inside <==> AllInside(r, from, b.curLn, tab, doDetab)
        invariant forall l :: l in LinesOf(b.ring) ==> l in old(LinesOf(b.ring)) || (fresh(l) && !l.glob)
        decreases last - b.curLn
      {
        inside := ConvertNext(b, r, from, tab, doDetab, inside);
        if b.curLn == last {
          break;
        }
        Places(b.ring, b.curLn);
        b.curLn, b.curPtr := b.curLn + 1, b.curPtr.next;
      }
    }
  }

  lemma NothingConverted(r: seq<Line>, from: int, upto: int, tab: nat, doDetab: bool)
    requires tab > 0 && upto <= from
    ensures ConvertedUpto(r, r, from, upto, tab, doDetab) && AllInside(r, from, upto, tab, doDetab)
  {
  }

  /** Converting does not make a line too long. */
  lemma ConvertedFits(s: string, tab: nat, doDetab: bool)
    requires tab > 0 && |s| <= MAXLINE
    ensures |Converted(s, tab, doDetab)| <= MAXLINE
  {
    RunFaithful(s, tab);
  }

  lemma LineHere(w: seq<Line>, r: seq<Line>, from: nat, cur: nat, tab: nat, doDetab: bool)
    requires tab > 0 && ConvertedUpto(w, r, from, cur, tab, doDetab) && cur < |w|
    ensures w[cur] == r[cur]
  {
  }

  lemma OneConverted(w: seq<Line>, w': seq<Line>, r: seq<Line>, from: nat, cur: nat, tab: nat, doDetab: bool)
    requires tab > 0 && from <= cur < |w| && ConvertedUpto(w, r, from, cur, tab, doDetab) && |w'| == |w| && w' == w[cur := w'[cur]]
    requires w'[cur].text == Converted(w[cur].text, tab, doDetab) && cur > 0 && LinesFit(w)
    ensures ConvertedUpto(w', r, from, cur + 1, tab, doDetab) && LinesOf(w') <= LinesOf(w) + {w'[cur]}
    ensures LinesFit(w')
    ensures AllInside(r, from, cur + 1, tab, doDetab)
            <==> AllInside(r, from, cur, tab, doDetab) && StaysInside(w[cur].text, tab, doDetab)
  {
    ConvertedFits(w[cur].text, tab, doDetab);
    hide Converted, StaysInside;
    forall i | 0 <= i < |w'|
      ensures w'[i] == if i == cur then w'[cur] else w[i]
    {
    }
  }
}
