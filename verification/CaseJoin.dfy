/** The pass over the sorted case list that checks the labels and joins adjacent ones to ranges, in place. */
module CaseJoin {
  import opened Wrappers
  import opened CaseSort
  import opened CaseRanges

  /** The entries as they are now. */
  ghost predicate Holds(s: Entries, es: seq<Entry>)
    reads s
  {
    |s| == |es| && forall i :: 0 <= i < |s| ==> Entry(s[i].key, s[i].addr, s[i].line) == es[i]
  }

  ghost predicate SingleNode(e: CaseEntry, it: Item)
    reads e
  {
    e.key == it.lo && e.addr == it.addr && e.line != 0
  }

  ghost predicate RangeNodes(e: CaseEntry, end: CaseEntry, it: Item)
    reads e, end
  {
    && e.key == it.lo && e.addr == RANGE_START && e.line != 0
    && end.key == it.hi && end.addr == it.addr && end.line == 0
  }

  /** A list in which single cases take one entry, and ranges two. */
  ghost predicate Represents(s: Entries, items: seq<Item>)
    reads s
    decreases |items|
  {
    if items == [] then s == []
    else if Single(items[0]) then s != [] && SingleNode(s[0], items[0]) && Represents(s[1..], items[1..])
    else |s| > 1 && RangeNodes(s[0], s[1], items[0]) && Represents(s[2..], items[1..])
  }

  lemma {:induction false} RepresentsConcat(s: Entries, items: seq<Item>, t: Entries, more: seq<Item>)
    requires Represents(s, items) && Represents(t, more)
    ensures Represents(s + t, items + more)
    decreases |items|
  {
    if items == [] {
      assert s + t == t && items + more == more;
    } else {
      var k := if Single(items[0]) then 1 else 2;
      RepresentsConcat(s[k..], items[1..], t, more);
      assert (s + t)[k..] == s[k..] + t && (items + more)[1..] == items[1..] + more;
    }
  }

  // ----- the sorted list has been made from labels

  /** As long as there is no error, each range start is followed by its end. */
  predicate Paired(es: seq<Entry>)
    decreases |es|, 0
  {
    es == [] ||
    (if es[0].addr != RANGE_START then IsSingle(es[0]) && PairedAfter(es[0], es[1..])
     else
       && IsStart(es[0]) && |es| > 1
       && (CheckPair(es[0], es[1]) == None ==> IsEnd(es[1]) && PairedAfter(es[1], es[2..])))
  }

  predicate PairedAfter(last: Entry, es: seq<Entry>)
    decreases |es|, 1
  {
    es != [] && CheckPair(last, es[0]) == None ==> Paired(es)
  }

  lemma {:induction false} LabelsPaired(ls: seq<Label>, es: seq<Entry>)
    requires Collected(ls, es)
    ensures Paired(es)
    decreases |es|
  {
    hide Collected;
    if es != [] {
      if es[0].addr == RANGE_START && |es| > 1 && CheckPair(es[0], es[1]).Some? {
        StartIsStart(ls, es);
      } else {
        var i := FirstLabel(ls, es);
        LabelsPaired(Without(ls, i), es[|LabelEntries(ls[i])|..]);
        FirstPaired(ls, es, i);
      }
    }
  }

  lemma StartIsStart(ls: seq<Label>, es: seq<Entry>)
    requires Collected(ls, es) && es != [] && es[0].addr == RANGE_START
    ensures IsStart(es[0])
  {
    hide AllEntries;
    var i := LabelAt(ls, es, 0);
    FirstNotEnd(ls, es, i);
  }

  lemma FirstPaired(ls: seq<Label>, es: seq<Entry>, i: nat)
    requires Collected(ls, es) && i < |ls| && LabelEntries(ls[i]) <= es && Paired(es[|LabelEntries(ls[i])|..])
    ensures Paired(es)
  {
    hide AllEntries;
  }

  // ----- what the pass keeps

  ghost predicate List(list0: CaseEntry?, s: Entries)
    reads s
  {
    list0 == First(s, null) && Linked(s, null) && Distinct(s)
  }

  /** Between two labels: `q` are the entries of the items before the current run, `g` those of the run. */
  ghost predicate Closed(list0: CaseEntry?, runStart: CaseEntry?, q: Entries, g: Entries, rest: Entries, j: Joined)
    reads q, g, rest
  {
    && List(list0, q + g + rest)
    && if j.items == [] then q == [] && g == []
       else
         && j.start < |j.items| && Represents(q, j.items[..j.start]) && Represents(g, j.items[j.start..])
         && 1 <= |g| <= 2 && g[0] == runStart
         && (|g| == 1 ==> j.start == |j.items| - 1 && Single(j.items[j.start]))
         && (|g| == 2 && j.start == |j.items| - 1 ==> !Single(j.items[j.start]))
  }

  /** Within a range: its first entry has been seen and is, possibly replaced by an earlier one, the last of the list so far. */
  ghost predicate Open(list0: CaseEntry?, runStart: CaseEntry?, q: Entries, rest: Entries, base: seq<Item>)
    reads q, rest, runStart
  {
    && runStart != null && List(list0, q + [runStart] + rest)
    && Represents(q, base) && runStart.addr == RANGE_START && runStart.line != 0
  }

  lemma NewRun(list0: CaseEntry?, runStart: CaseEntry?, q: Entries, g: Entries, rest: Entries, j: Joined, n: Item)
    requires Closed(list0, runStart, q, g, rest, j) && rest != [] && SingleNode(rest[0], n) && Single(n) && !Follows(j.items, n)
    ensures Closed(list0, rest[0], q + g, [rest[0]], rest[1..], Join(j, n))
  {
    var e := rest[0];
    assert q + g + rest == q + g + [e] + rest[1..];
    RunItems(list0, runStart, q, g, rest, j);
    assert (j.items + [n])[..|j.items|] == j.items && (j.items + [n])[|j.items|..] == [n];
  }

  lemma RunItems(list0: CaseEntry?, runStart: CaseEntry?, q: Entries, g: Entries, rest: Entries, j: Joined)
    requires Closed(list0, runStart, q, g, rest, j)
    ensures Represents(q + g, j.items)
  {
    if j.items != [] {
      RepresentsConcat(q, j.items[..j.start], g, j.items[j.start..]);
      assert j.items[..j.start] + j.items[j.start..] == j.items;
    } else {
      assert q + g == [];
    }
  }

  /** The second of two adjacent single cases. */
  lemma SecondCase(list0: CaseEntry?, runStart: CaseEntry, q: Entries, g: Entries, rest: Entries, j: Joined, n: Item)
    requires Closed(list0, runStart, q, g, rest, j) && rest != [] && SingleNode(rest[0], n) && Single(n) && Follows(j.items, n)
    requires |g| == 1
    ensures Closed(list0, runStart, q, g + [rest[0]], rest[1..], Join(j, n))
  {
    assert q + g + rest == q + (g + [rest[0]]) + rest[1..];
    var items := j.items + [n];
    assert items[..j.start] == j.items[..j.start] && items[j.start..] == [j.items[j.start], n];
    assert g == [g[0]];
    assert items[j.start..][1..] == [n] && (g + [rest[0]])[1..] == [rest[0]];
  }

  lemma NewRange(list0: CaseEntry?, runStart: CaseEntry?, q: Entries, g: Entries, rest: Entries, j: Joined)
    requires Closed(list0, runStart, q, g, rest, j) && rest != [] && rest[0].addr == RANGE_START && rest[0].line != 0
    ensures Open(list0, rest[0], q + g, rest[1..], j.items)
  {
    assert q + g + rest == q + g + [rest[0]] + rest[1..];
    RunItems(list0, runStart, q, g, rest, j);
  }

  /** The end of a range. */
  lemma RangeEnds(list0: CaseEntry?, runStart: CaseEntry, q: Entries, rest: Entries, base: seq<Item>, it: Item)
    requires Open(list0, runStart, q, rest, base) && rest != [] && RangeNodes(runStart, rest[0], it) && !Single(it)
    ensures Closed(list0, runStart, q, [runStart, rest[0]], rest[1..], Joined(base + [it], |base|))
  {
    assert q + [runStart] + rest == q + [runStart, rest[0]] + rest[1..];
    assert (base + [it])[..|base|] == base && (base + [it])[|base|..] == [it];
  }

  /** Where the current label is in the list. */
  lemma NextOfRun(list0: CaseEntry?, runStart: CaseEntry, q: Entries, g: Entries, rest: Entries, j: Joined)
    requires Closed(list0, runStart, q, g, rest, j) && rest != [] && j.items != []
    ensures rest[0] == runStart.next <==> |g| == 1
    ensures rest[0].next == First(rest[1..], null)
  {
    var s := q + g + rest;
    var k := |q|;
    assert s[k] == g[0] && s[k + |g|] == rest[0];
    assert s[k].next == s[k + 1];
    assert |rest| > 1 ==> s[k + |g| + 1] == rest[1];
  }

  /** Take the entries between `e` and `f` out of the list. */
  method LinkTo(list0: CaseEntry?, e: CaseEntry, f: CaseEntry, ghost s: Entries, ghost a: nat, ghost b: nat)
    requires List(list0, s) && a < b < |s| && s[a] == e && s[b] == f
    modifies e`next
    ensures List(list0, s[..a + 1] + s[b..])
  {
    e.next := f;
    assert forall i, j :: 0 <= i && j == i + 1 && j < |s| && i != a ==> s[i].next == s[j];
    ghost var t := s[..a + 1] + s[b..];
    forall i, j | 0 <= i && j == i + 1 && j < |t|
      ensures t[i].next == t[j]
    {
      if i > a {
        assert t[i] == s[b + (i - a - 1)] && t[j] == s[b + (i - a - 1) + 1];
      }
    }
  }

  /** The nodes that an extension of the run concerns. */
  lemma RunParts(list0: CaseEntry?, runStart: CaseEntry, q: Entries, g: Entries, rest: Entries, j: Joined)
    requires Closed(list0, runStart, q, g, rest, j) && rest != [] && j.items != []
    ensures List(list0, q + g + rest) && Represents(q, j.items[..j.start])
    ensures g[0] == runStart && runStart.key == j.items[j.start].lo && runStart.line != 0
    ensures runStart !in q && runStart !in rest && rest[0] !in q && rest[0] != runStart
    ensures (q + g + rest)[|q|] == runStart && (q + g + rest)[|q| + |g|..] == rest && (q + g + rest)[..|q| + 1] == q + [runStart]
    ensures |rest| > 1 ==> (q + g + rest)[|q| + |g| + 1..] == rest[1..] && rest[1] !in q
  {
    var s := q + g + rest;
    RunSlices(q, g, rest, s);
    hide Linked, Represents;
    ListDistinct(list0, s);
    assert s[|q|] == runStart && s[|q| + |g|] == rest[0];
  }

  lemma ListDistinct(list0: CaseEntry?, s: Entries)
    requires List(list0, s)
    ensures Distinct(s)
  {
  }

  lemma RunSlices(q: Entries, g: Entries, rest: Entries, s: Entries)
    requires s == q + g + rest && g != [] && rest != []
    ensures s[|q|] == g[0] && s[|q| + |g|..] == rest && s[..|q| + 1] == q + [g[0]] && s[|q| + |g| + 1..] == rest[1..]
    ensures forall i :: 0 <= i < |q| ==> s[i] == q[i]
    ensures forall i :: 0 <= i < |rest| ==> s[|q| + |g| + i] == rest[i]
  {
  }

  /** A single case becomes the new end of the run. */
  method ExtendRun(list0: CaseEntry?, runStart: CaseEntry, e: CaseEntry, ghost q: Entries, ghost g: Entries, ghost rest: Entries,
                   ghost j: Joined, ghost n: Item)
    requires Closed(list0, runStart, q, g, rest, j) && rest != [] && rest[0] == e && SingleNode(e, n) && Single(n)
    requires Follows(j.items, n) && |g| == 2 && Ascending(j.items)
    modifies runStart, e
    ensures Closed(list0, runStart, q, [runStart, e], rest[1..], Join(j, n))
  {
    hide Represents, List, Ascending;
    RunParts(list0, runStart, q, g, rest, j);
    ghost var s := q + g + rest;
    LinkTo(list0, runStart, e, s, |q|, |q| + |g|);
    SetRange(list0, runStart, e, s[..|q| + 1] + s[|q| + |g|..]);
    ghost var it := Item(j.items[j.start].lo, n.hi, n.addr);
    RunBelow(j, n);
    assert s[..|q| + 1] + s[|q| + |g|..] == q + [runStart, e] + rest[1..];
    ghost var k := Join(j, n);
    assert k == Joined(j.items[..j.start] + [it], j.start);
    assert k.items[..j.start] == j.items[..j.start] && k.items[j.start..] == [it];
    OneRange([runStart, e], it);
  }

  lemma RunBelow(j: Joined, n: Item)
    requires Ascending(j.items) && Follows(j.items, n) && j.start < |j.items|
    ensures j.items[j.start].lo < n.lo
  {
  }

  lemma OneRange(s: Entries, it: Item)
    requires |s| == 2 && RangeNodes(s[0], s[1], it) && !Single(it)
    ensures Represents(s, [it])
  {
  }

  method SetRange(list0: CaseEntry?, runStart: CaseEntry, e: CaseEntry, ghost s: Entries)
    requires List(list0, s) && runStart != e
    modifies runStart`addr, e`line
    ensures List(list0, s) && runStart.addr == RANGE_START && e.line == 0
  {
    runStart.addr := RANGE_START;
    e.line := 0;
  }

  /** The end of a range becomes the new end of the run. */
  method OpenRun(list0: CaseEntry?, runStart: CaseEntry, end: CaseEntry, ghost q: Entries, ghost g: Entries, ghost rest: Entries,
                 ghost j: Joined)
    requires Closed(list0, runStart, q, g, rest, j) && |rest| > 1 && rest[1] == end && j.items != []
    modifies runStart
    ensures Open(list0, runStart, q, rest[1..], j.items[..j.start])
  {
    hide Represents, List;
    RunParts(list0, runStart, q, g, rest, j);
    ghost var s := q + g + rest;
    assert s[|q| + |g| + 1] == end;
    LinkTo(list0, runStart, end, s, |q|, |q| + |g| + 1);
    MarkStart(list0, runStart, s[..|q| + 1] + s[|q| + |g| + 1..]);
  }

  method MarkStart(list0: CaseEntry?, runStart: CaseEntry, ghost s: Entries)
    requires List(list0, s)
    modifies runStart`addr
    ensures List(list0, s) && runStart.addr == RANGE_START
  {
    runStart.addr := RANGE_START;
  }

  // ----- how far the scan has come

  /** The first `i` entries have been read as the items `done`; `open` if the last of them starts a range. */
  ghost predicate ScanState(es: seq<Entry>, i: nat, done: seq<Item>, open: bool) {
    && SortedEntries(es) && i <= |es| && Ascending(done)
    && if open then
         && 0 < i < |es| && IsStart(es[i - 1]) && (done != [] ==> done[|done| - 1].hi < es[i - 1].key)
         && Scan(es) == Prepend(done, Scan(es[i - 1..])) && Paired(es[i - 1..])
       else if i == 0 then done == [] && Paired(es)
       else
         && EndsWith(done, es[i - 1].key, es[i - 1].addr) && es[i - 1].addr != RANGE_START
         && Scan(es) == Prepend(done, ScanAfter(es[i - 1], es[i..])) && PairedAfter(es[i - 1], es[i..])
  }

  lemma ScanFails(es: seq<Entry>, i: nat, done: seq<Item>, open: bool)
    requires ScanState(es, i, done, open) && 0 < i < |es| && CheckPair(es[i - 1], es[i]).Some?
    ensures Scan(es) == Err(CheckPair(es[i - 1], es[i]).value)
  {
    if open {
      assert es[i - 1..][0] == es[i - 1] && es[i - 1..][1] == es[i];
    }
  }

  lemma ScanEnds(es: seq<Entry>, done: seq<Item>, open: bool)
    requires ScanState(es, |es|, done, open)
    ensures !open && Scan(es) == Ok(done)
  {
    assert done + [] == done;
    assert es[|es|..] == [];
  }

  /** Between two labels, the next entry is a single case or starts a range. */
  lemma ScanLabel(es: seq<Entry>, i: nat, done: seq<Item>)
    requires ScanState(es, i, done, false) && i < |es| && (i > 0 ==> CheckPair(es[i - 1], es[i]) == None)
    ensures IsStart(es[i]) || IsSingle(es[i])
    ensures IsStart(es[i]) ==> i + 1 < |es| && ScanState(es, i + 1, done, true)
    ensures IsSingle(es[i]) ==> ScanState(es, i + 1, done + [Item(es[i].key, es[i].key, es[i].addr)], false)
  {
    assert es[0..] == es && es[i..][0] == es[i] && es[i..][1..] == es[i + 1..];
    assert Paired(es[i..]);
    assert Scan(es) == Prepend(done, Scan(es[i..])) by {
      if i == 0 && Scan(es).Ok? {
        assert [] + Scan(es).value == Scan(es).value;
      }
    }
    if IsSingle(es[i]) {
      PrependTwice(done, [Item(es[i].key, es[i].key, es[i].addr)], ScanAfter(es[i], es[i + 1..]));
    } else {
      assert es[i + 1 - 1..] == es[i..];
    }
  }

  /** Within a range, the next entry ends it. */
  lemma ScanRange(es: seq<Entry>, i: nat, done: seq<Item>)
    requires ScanState(es, i, done, true) && CheckPair(es[i - 1], es[i]) == None
    ensures IsEnd(es[i]) && ScanState(es, i + 1, done + [Item(es[i - 1].key, es[i].key, es[i].addr)], false)
  {
    var t := es[i - 1..];
    assert t[0] == es[i - 1] && t[1] == es[i] && t[2..] == es[i + 1..];
    PrependTwice(done, [Item(es[i - 1].key, es[i].key, es[i].addr)], ScanAfter(es[i], es[i + 1..]));
  }

  lemma PrependTwice(a: seq<Item>, b: seq<Item>, r: Result<seq<Item>, CaseError>)
    ensures Prepend(a, Prepend(b, r)) == Prepend(a + b, r)
  {
    if r.Ok? {
      assert a + (b + r.value) == a + b + r.value;
    }
  }

  // ----- the pass

  /** What the end of the range that is open will make of the items. */
  ghost predicate Pending(es: seq<Entry>, i: nat, done: seq<Item>, start: int, base: seq<Item>) {
    0 < i < |es| && start <= es[i - 1].key &&
    (IsEnd(es[i]) && es[i - 1].key < es[i].key ==>
       var n := Item(es[i - 1].key, es[i].key, es[i].addr);
       Join(JoinAll(done), n) == Joined(base + [Item(start, n.hi, n.addr)], |base|))
  }

  /** The state of the list between two entries. */
  ghost predicate ListState(list0: CaseEntry?, runStart: CaseEntry?, q: Entries, g: Entries, rest: Entries, es: seq<Entry>, i: nat,
                            done: seq<Item>, open: bool, base: seq<Item>)
    reads q, g, rest, runStart
  {
    && i <= |es| && Holds(rest, es[i..]) && ScanState(es, i, done, open)
    && if open then g == [runStart] && Open(list0, runStart, q, rest, base) && Pending(es, i, done, runStart.key, base)
       else Closed(list0, runStart, q, g, rest, JoinAll(done))
  }

  lemma HoldsRest(rest: Entries, es: seq<Entry>, i: nat)
    requires i < |es| && Holds(rest, es[i..])
    ensures rest != [] && Entry(rest[0].key, rest[0].addr, rest[0].line) == es[i] && Holds(rest[1..], es[i + 1..])
    ensures i + 1 < |es| ==> |rest| > 1 && Entry(rest[1].key, rest[1].addr, rest[1].line) == es[i + 1]
  {
    assert es[i..][0] == es[i];
    assert i + 1 < |es| ==> es[i..][1] == es[i + 1];
  }

  lemma JoinAllNext(done: seq<Item>, n: Item)
    ensures JoinAll(done + [n]) == Join(JoinAll(done), n)
  {
    hide Join;
    assert (done + [n])[..|done|] == done;
  }

  lemma JoinedNext(done: seq<Item>, n: Item)
    requires Ascending(done) && n.lo <= n.hi && (done != [] ==> done[|done| - 1].hi < n.lo)
    ensures JoinAll(done + [n]) == Join(JoinAll(done), n) && Ascending(JoinAll(done).items) && Ascending(done + [n])
    ensures if done == [] then JoinAll(done).items == []
            else EndsWith(JoinAll(done).items, done[|done| - 1].hi, done[|done| - 1].addr)
  {
    hide Join, Find, WellJoined;
    JoiningKeepsMap(done, 0);
    JoinAllNext(done, n);
    AppendAscends(done, n);
  }

  /** The entries that are still to come are none of those that may be changed. */
  lemma RestApart(list0: CaseEntry?, runStart: CaseEntry?, q: Entries, g: Entries, rest: Entries, j: Joined)
    requires Closed(list0, runStart, q, g, rest, j) && rest != []
    ensures j.items != [] ==> 1 <= |g| <= 2 && g[0] == runStart
    ensures forall x :: x in rest[1..] ==> x !in q && x !in g && x != rest[0]
  {
    var s := q + g + rest;
    forall k, m | 0 <= k < |q + g| + 1 && 0 <= m < |rest| - 1
      ensures s[k] != rest[1..][m]
    {
      assert rest[1..][m] == s[|q + g| + 1 + m];
    }
    assert forall k :: 0 <= k < |q + g| ==> s[k] == (q + g)[k];
    assert s[|q + g|] == rest[0];
    forall x | x in rest[1..]
      ensures x !in q && x !in g && x != rest[0]
    {
      var m :| 0 <= m < |rest| - 1 && rest[1..][m] == x;
      assert forall k :: 0 <= k < |q| ==> s[k] == q[k];
      assert forall k :: 0 <= k < |g| ==> s[|q| + k] == g[k];
    }
  }

  /** The label that comes next. */
  lemma LabelFollows(es: seq<Entry>, i: nat, done: seq<Item>, n: Item)
    requires ScanState(es, i, done, false) && i < |es| && (i > 0 ==> CheckPair(es[i - 1], es[i]) == None)
    requires n.lo == es[i].key <= n.hi && n.addr != NO_ADDRESS
    ensures Follows(JoinAll(done).items, n) <==> i > 0 && es[i - 1].key + 1 == n.lo && es[i - 1].addr == n.addr
    ensures JoinAll(done + [n]) == Join(JoinAll(done), n) && Ascending(JoinAll(done).items)
    ensures i > 0 <==> JoinAll(done).items != []
  {
    JoinedNext(done, n);
  }

  /** A single case: it starts a run of its own, is the second of its run, or becomes the new end of the run. */
  method JoinSingle(list0: CaseEntry?, runStart: CaseEntry?, e: CaseEntry, lastKey: int, lastAddr: int, ghost q: Entries, ghost g: Entries,
                    ghost rest: Entries, ghost es: seq<Entry>, ghost i: nat, ghost done: seq<Item>)
    returns (runStart': CaseEntry, merged: nat, ghost q': Entries, ghost g': Entries)
    requires ListState(list0, runStart, q, g, rest, es, i, done, false, []) && i < |es| && rest != [] && e == rest[0]
    requires IsSingle(es[i]) && (i > 0 ==> CheckPair(es[i - 1], es[i]) == None)
    requires if i > 0 then lastKey == es[i - 1].key && lastAddr == es[i - 1].addr else lastAddr == NO_ADDRESS
    modifies Nodes(g), e
    ensures ListState(list0, runStart', q', g', rest[1..], es, i + 1, done + [Item(es[i].key, es[i].key, es[i].addr)], false, [])
    ensures |q'| + |g'| + merged == |q| + |g| + 1 && g' != [] && g'[|g'| - 1] == e
    ensures forall x :: x in q' + g' ==> x in q + g + [e]
  {
    hide Closed, Join, JoinAll, Ascending, ScanState, Follows, Represents, List;
    ghost var n := Item(es[i].key, es[i].key, es[i].addr);
    HoldsRest(rest, es, i);
    ScanLabel(es, i, done);
    LabelFollows(es, i, done, n);
    ghost var j := JoinAll(done);
    RestApart(list0, runStart, q, g, rest, j);
    q', g', merged := q, g, 0;
    if e.key == lastKey + 1 && e.addr == lastAddr {
      runStart' := runStart;
      NextOfRun(list0, runStart, q, g, rest, j);
      if e != runStart.next {
        ExtendRun(list0, runStart, e, q, g, rest, j, n);
        merged, g' := 1, [runStart, e];
      } else {
        SecondCase(list0, runStart, q, g, rest, j, n);
        g' := g + [e];
      }
    } else {
      NewRun(list0, runStart, q, g, rest, j, n);
      runStart', q', g' := e, q + g, [e];
    }
    assert forall k :: 0 <= k < |rest[1..]| ==> rest[1..][k] in rest[1..];
  }

  /** The start of a range: its end will become the new end of the run, or the range starts a run of its own. */
  method JoinStart(list0: CaseEntry?, runStart: CaseEntry?, e: CaseEntry, lastKey: int, lastAddr: int, ghost q: Entries, ghost g: Entries,
                   ghost rest: Entries, ghost es: seq<Entry>, ghost i: nat, ghost done: seq<Item>)
    returns (runStart': CaseEntry, merged: nat, ghost q': Entries, ghost base: seq<Item>)
    requires ListState(list0, runStart, q, g, rest, es, i, done, false, []) && i < |es| && rest != [] && e == rest[0]
    requires IsStart(es[i]) && (i > 0 ==> CheckPair(es[i - 1], es[i]) == None)
    requires if i > 0 then lastKey == es[i - 1].key && lastAddr == es[i - 1].addr else lastAddr == NO_ADDRESS
    requires forall k :: 0 <= k < |es| ==> ProperEntry(es[k])
    modifies Nodes(g)
    ensures ListState(list0, runStart', q', [runStart'], rest[1..], es, i + 1, done, true, base)
    ensures |q'| + merged == |q| + |g| && (merged == 0 ==> runStart' == e)
    ensures forall x :: x in q' + [runStart'] ==> x in q + g + [e]
  {
    hide Closed, Open, Join, JoinAll, Ascending, ScanState, Follows, Represents, List;
    HoldsRest(rest, es, i);
    ScanLabel(es, i, done);
    ghost var n := Item(es[i].key, es[i + 1].key, es[i + 1].addr);
    ghost var j := JoinAll(done);
    RestApart(list0, runStart, q, g, rest, j);
    NextEntry(list0, runStart, q, g, rest, j);
    SortedNext(es, i);
    if e.key == lastKey + 1 && e.next.addr == lastAddr {
      LabelFollows(es, i, done, n);
      NextOfRun(list0, runStart, q, g, rest, j);
      merged := 1;
      if e != runStart.next {
        merged := 2;
      }
      RunParts(list0, runStart, q, g, rest, j);
      StartBelow(es, i, done, j);
      OpenRun(list0, runStart, e.next, q, g, rest, j);
      runStart', q', base := runStart, q, j.items[..j.start];
    } else {
      NewRange(list0, runStart, q, g, rest, j);
      runStart', q', base, merged := e, q + g, j.items, 0;
    }
    assert forall k :: 0 <= k < |rest[1..]| ==> rest[1..][k] in rest[1..];
    if IsEnd(es[i + 1]) && es[i].key < es[i + 1].key {
      LabelFollows(es, i, done, n);
      JoinRange(j, n);
    }
  }

  lemma JoinRange(j: Joined, n: Item)
    requires n.lo < n.hi && (j.items != [] ==> j.start < |j.items|)
    ensures Join(j, n) == if Follows(j.items, n) then Joined(j.items[..j.start] + [Item(j.items[j.start].lo, n.hi, n.addr)], j.start)
                          else Joined(j.items + [n], |j.items|)
  {
  }

  lemma StartBelow(es: seq<Entry>, i: nat, done: seq<Item>, j: Joined)
    requires ScanState(es, i, done, false) && i < |es| && (i > 0 ==> CheckPair(es[i - 1], es[i]) == None)
    requires j == JoinAll(done) && j.items != []
    ensures j.items[j.start].lo <= es[i].key
  {
    hide Join, Find;
    JoiningKeepsMap(done, 0);
    RunAscends(j);
  }

  lemma NextEntry(list0: CaseEntry?, runStart: CaseEntry?, q: Entries, g: Entries, rest: Entries, j: Joined)
    requires Closed(list0, runStart, q, g, rest, j) && |rest| > 1
    ensures rest[0].next == rest[1]
  {
    var s := q + g + rest;
    assert s[|q + g|] == rest[0] && s[|q + g| + 1] == rest[1];
  }

  lemma SortedNext(es: seq<Entry>, i: nat)
    requires ScanState(es, i, [], false) || SortedEntries(es)
    requires i + 1 < |es|
    ensures es[i].key <= es[i + 1].key
  {
  }

  /** The end of a range. */
  lemma JoinEnd(list0: CaseEntry?, runStart: CaseEntry, q: Entries, rest: Entries, es: seq<Entry>, i: nat, done: seq<Item>,
                base: seq<Item>)
    requires ListState(list0, runStart, q, [runStart], rest, es, i, done, true, base) && CheckPair(es[i - 1], es[i]) == None
    ensures i < |es| && rest != [] && IsEnd(es[i])
    ensures ListState(list0, runStart, q, [runStart, rest[0]], rest[1..], es, i + 1,
                      done + [Item(es[i - 1].key, es[i].key, es[i].addr)], false, [])
  {
    hide Closed, Open, Join, JoinAll, Ascending, ScanState, Represents, List;
    RangeOpen(es, i, done);
    HoldsRest(rest, es, i);
    ScanRange(es, i, done);
    JoinAllNext(done, Item(es[i - 1].key, es[i].key, es[i].addr));
    RangeEnds(list0, runStart, q, rest, base, Item(runStart.key, es[i].key, es[i].addr)) by {
      OpenStart(list0, runStart, q, rest, base);
    }
  }

  lemma OpenStart(list0: CaseEntry?, runStart: CaseEntry, q: Entries, rest: Entries, base: seq<Item>)
    requires Open(list0, runStart, q, rest, base)
    ensures runStart.addr == RANGE_START && runStart.line != 0
  {
  }

  lemma RangeOpen(es: seq<Entry>, i: nat, done: seq<Item>)
    requires ScanState(es, i, done, true) && CheckPair(es[i - 1], es[i]) == None
    ensures i < |es| && es[i - 1].key < es[i].key
  {
  }

  lemma PassStarts(list0: CaseEntry?, nodes: Entries, es: seq<Entry>)
    requires List(list0, nodes) && Holds(nodes, es) && SortedEntries(es) && Paired(es)
    ensures ListState(list0, null, [], [], nodes, es, 0, [], false, [])
  {
    assert [] + [] + nodes == nodes;
  }

  /** Where the list goes on, and when it is at its first entry. */
  lemma AtRest(list0: CaseEntry?, runStart: CaseEntry?, q: Entries, g: Entries, rest: Entries, es: seq<Entry>, i: nat, done: seq<Item>,
               open: bool, base: seq<Item>)
    requires ListState(list0, runStart, q, g, rest, es, i, done, open, base)
    ensures List(list0, q + g + rest) && |rest| == |es| - i && (i > 0 <==> q + g != []) && list0 == First(q + g + rest, null)
    ensures rest != [] ==> rest[0].next == First(rest[1..], null) && (rest[0] == list0 <==> i == 0)
    ensures q + g != [] ==> (q + g)[|q + g| - 1].next == First(rest, null)
  {
    hide Represents, ScanState, Join, Linked;
    JoiningEmpty(es, i, done, open);
    ghost var s := q + g + rest;
    assert forall k :: 0 <= k < |rest| ==> s[|q + g| + k] == rest[k];
    if rest != [] {
      LinkAt(s, |q + g|);
    }
    if q + g != [] {
      assert s[|q + g| - 1] == (q + g)[|q + g| - 1];
      LinkAt(s, |q + g| - 1);
    }
  }

  lemma LinkAt(s: Entries, k: nat)
    requires Linked(s, null) && k < |s|
    ensures s[k].next == if k + 1 < |s| then s[k + 1] else null
  {
  }

  lemma JoiningEmpty(es: seq<Entry>, i: nat, done: seq<Item>, open: bool)
    requires ScanState(es, i, done, open)
    ensures open ==> i > 0
    ensures !open ==> (i > 0 <==> JoinAll(done).items != [])
  {
    hide Join, Find;
    JoiningKeepsMap(done, 0);
  }

  /** Check the sorted list, and join adjacent labels with the same address. */
  method JoinCases(list0: CaseEntry, ghost nodes: Entries, ghost es: seq<Entry>)
    returns (r: Result<nat, CaseError>, ghost s: Entries)
    requires List(list0, nodes) && Holds(nodes, es) && SortedEntries(es) && Paired(es)
    requires forall k :: 0 <= k < |es| ==> ProperEntry(es[k])
    modifies Nodes(nodes)
    ensures match Scan(es)
            case Err(err) => r == Err(err)
            case Ok(items) => r == Ok(|s|) && List(list0, s) && Represents(s, JoinAll(items).items) && Nodes(s) <= Nodes(nodes)
  {
    hide List, Represents, ScanState, Closed, Open, Pending, Scan, JoinAll, Holds, ListState, Nodes;
    var keyNum: nat := 0;
    var runStart: CaseEntry? := null;
    var lastKey, lastLine, lastAddr := 0, 0, NO_ADDRESS;
    var list1: CaseEntry? := list0;
    ghost var i, done, open, base := 0, [], false, [];
    ghost var q, g: Entries, rest := [], [], nodes;
    PassStarts(list0, nodes, es);
    AtRest(list0, runStart, q, g, rest, es, i, done, open, base);
    assert q + g + rest == nodes;
    while list1 != null
      invariant ListState(list0, runStart, q, g, rest, es, i, done, open, base) && i + |rest| == |es|
      invariant list1 == First(rest, null) && keyNum == |q| + |g| && Nodes(q + g + rest) <= Nodes(nodes)
      invariant if i > 0 then lastKey == es[i - 1].key && lastLine == es[i - 1].line && lastAddr == es[i - 1].addr
                else lastAddr == NO_ADDRESS
      invariant open || base == []
      decreases |rest|
    {
      AtRest(list0, runStart, q, g, rest, es, i, done, open, base);
      CurrentEntry(list0, runStart, q, g, rest, es, i, done, open, base);
      SubNodes(q, g, rest);
      ghost var q0, g0, rest0 := q, g, rest;
      keyNum := keyNum + 1;
      var currentKey, currLine, currentAddr := list1.key, list1.line, list1.addr;
      if (currentKey == lastKey && list1 != list0) || (currLine != 0 && lastAddr == RANGE_START) {
        EntryFails(list0, runStart, q, g, rest, es, i, done, open, base);
        r := Err(if currentKey == lastKey && list1 != list0 then DuplicateCase(lastLine, currLine)
                 else DiscontinuedRange(lastLine, currLine));
        s := [];
        return;
      }
      EntryPasses(list0, runStart, q, g, rest, es, i, done, open, base);
      if currLine != 0 {
        var merged;
        if currentAddr == RANGE_START {
          runStart, merged, q, base := JoinStart(list0, runStart, list1, lastKey, lastAddr, q, g, rest, es, i, done);
          g, open := [runStart], true;
          if merged > 0 {
            list1 := runStart;
          }
        } else {
          runStart, merged, q, g := JoinSingle(list0, runStart, list1, lastKey, lastAddr, q, g, rest, es, i, done);
          done := done + [Item(es[i].key, es[i].key, es[i].addr)];
        }
        keyNum := keyNum - merged;
      } else {
        JoinEnd(list0, runStart, q, rest, es, i, done, base);
        g := [runStart, rest[0]];
        done, open, base := done + [Item(es[i - 1].key, es[i].key, es[i].addr)], false, [];
      }
      NodesKept(q0, g0, rest0, q, g);
      i, rest := i + 1, rest[1..];
      AtRest(list0, runStart, q, g, rest, es, i, done, open, base);
      lastKey, lastLine, lastAddr := currentKey, currLine, currentAddr;
      list1 := list1.next;
    }
    PassEnds(list0, runStart, q, g, es, done, open, base);
    r, s := Ok(keyNum), q + g;
    assert q + g + [] == q + g;
  }

  /** The fields of the current entry. */
  lemma CurrentEntry(list0: CaseEntry?, runStart: CaseEntry?, q: Entries, g: Entries, rest: Entries, es: seq<Entry>, i: nat,
                     done: seq<Item>, open: bool, base: seq<Item>)
    requires ListState(list0, runStart, q, g, rest, es, i, done, open, base) && i < |es|
    ensures rest != [] && Entry(rest[0].key, rest[0].addr, rest[0].line) == es[i]
    ensures open ==> g == [runStart]
  {
    HoldsRest(rest, es, i);
  }

  lemma SubNodes(q: Entries, g: Entries, rest: Entries)
    requires rest != []
    ensures Nodes(g) <= Nodes(q + g + rest) && rest[0] in Nodes(q + g + rest)
  {
  }

  lemma NodesKept(q: Entries, g: Entries, rest: Entries, q': Entries, g': Entries)
    requires rest != [] && forall x :: x in q' + g' ==> x in q + g + [rest[0]]
    ensures Nodes(q' + g' + rest[1..]) <= Nodes(q + g + rest)
  {
  }

  lemma EntryFails(list0: CaseEntry?, runStart: CaseEntry?, q: Entries, g: Entries, rest: Entries, es: seq<Entry>, i: nat,
                   done: seq<Item>, open: bool, base: seq<Item>)
    requires ListState(list0, runStart, q, g, rest, es, i, done, open, base) && 0 < i < |es| && CheckPair(es[i - 1], es[i]).Some?
    ensures Scan(es) == Err(CheckPair(es[i - 1], es[i]).value)
  {
    ScanFails(es, i, done, open);
  }

  /** Within a range the next entry is its end; between two labels it is no end. */
  lemma EntryPasses(list0: CaseEntry?, runStart: CaseEntry?, q: Entries, g: Entries, rest: Entries, es: seq<Entry>, i: nat,
                    done: seq<Item>, open: bool, base: seq<Item>)
    requires ListState(list0, runStart, q, g, rest, es, i, done, open, base) && i < |es|
    requires i > 0 ==> CheckPair(es[i - 1], es[i]) == None
    ensures open <==> es[i].line == 0
    ensures !open ==> IsStart(es[i]) || IsSingle(es[i])
  {
    if open {
      ScanRange(es, i, done);
    } else {
      ScanLabel(es, i, done);
    }
  }

  lemma PassEnds(list0: CaseEntry?, runStart: CaseEntry?, q: Entries, g: Entries, es: seq<Entry>, done: seq<Item>, open: bool,
                 base: seq<Item>)
    requires ListState(list0, runStart, q, g, [], es, |es|, done, open, base)
    ensures Scan(es) == Ok(done) && List(list0, q + g) && Represents(q + g, JoinAll(done).items)
  {
    hide Join;
    ScanEnds(es, done, open);
    RunItems(list0, runStart, q, g, [], JoinAll(done));
    assert q + g + [] == q + g;
  }

  // ----- from the labels to the joined list

  ghost function Values(s: Entries): (es: seq<Entry>)
    reads Nodes(s)`addr, Nodes(s)`line
    ensures |es| == |s| && forall i :: 0 <= i < |s| ==> es[i] == Entry(s[i].key, s[i].addr, s[i].line)
  {
    if s == [] then [] else [Entry(s[0].key, s[0].addr, s[0].line)] + Values(s[1..])
  }

  lemma ValuesConcat(s: Entries, t: Entries)
    ensures Values(s + t) == Values(s) + Values(t)
  {
    var u, v := Values(s + t), Values(s) + Values(t);
    forall i | 0 <= i < |u|
      ensures u[i] == v[i]
    {
      var e := (s + t)[i];
      assert i >= |s| ==> e == t[i - |s|];
    }
  }

  lemma {:induction false} ValuesPermuted(s: Entries, t: Entries)
    requires multiset(s) == multiset(t)
    ensures multiset(Values(s)) == multiset(Values(t))
    decreases |s|
  {
    hide Values;
    if s == [] {
      assert |multiset(t)| == 0;
    } else {
      assert s[0] in multiset(t);
      var k :| 0 <= k < |t| && t[k] == s[0];
      assert t == t[..k] + ([t[k]] + t[k + 1..]);
      assert s == [s[0]] + s[1..];
      Same(multiset{s[0]}, multiset(s[1..]), multiset(t[..k] + t[k + 1..]));
      ValuesPermuted(s[1..], t[..k] + t[k + 1..]);
      ValuesConcat(t[..k], t[k + 1..]);
      ValuesConcat([t[k]], t[k + 1..]);
      ValuesConcat(t[..k], [t[k]] + t[k + 1..]);
      ValuesConcat([s[0]], s[1..]);
    }
  }

  lemma Same(a: multiset<CaseEntry>, x: multiset<CaseEntry>, y: multiset<CaseEntry>)
    requires a + x == a + y
    ensures x == y
  {
    forall e: CaseEntry | e in x || e in y
      ensures x[e] == y[e]
    {
      assert (a + x)[e] == a[e] + x[e] && (a + y)[e] == a[e] + y[e];
    }
  }

  /** What is found in the joined list is what the labels say. */
  lemma LabelsFound(ls: seq<Label>, es: seq<Entry>, key: int)
    requires Collected(ls, es) && Disjoint(ls)
    ensures Scan(es).Ok? && Ascending(JoinAll(Scan(es).value).items)
    ensures match Find(JoinAll(Scan(es).value).items, key)
            case Some(addr) => exists i :: 0 <= i < |ls| && Covers(ls[i].item, key) && ls[i].item.addr == addr
            case None => forall i :: 0 <= i < |ls| ==> !Covers(ls[i].item, key)
  {
    hide Find, JoinAll, Collected, Ascending, Scan, Disjoint, Overlap;
    ScanIff(ls, es);
    var items := Scan(es).value;
    JoiningKeepsMap(items, key);
    FindCovers(items, key);
    SameItems(ls, items);
  }

  lemma SameItems(ls: seq<Label>, items: seq<Item>)
    requires multiset(items) == multiset(ItemsOf(ls))
    ensures forall i :: 0 <= i < |ls| ==> exists f :: 0 <= f < |items| && items[f] == ls[i].item
    ensures forall f :: 0 <= f < |items| ==> exists i :: 0 <= i < |ls| && items[f] == ls[i].item
  {
    hide ItemsOf;
    forall i | 0 <= i < |ls|
      ensures exists f :: 0 <= f < |items| && items[f] == ls[i].item
    {
      ItemOfLabel(ls, i);
      assert ls[i].item in multiset(items);
    }
    forall f | 0 <= f < |items|
      ensures exists i :: 0 <= i < |ls| && items[f] == ls[i].item
    {
      assert items[f] in multiset(ItemsOf(ls));
      var i := LabelOfItem(ls, items[f]);
    }
  }

  lemma {:induction false} ItemOfLabel(ls: seq<Label>, i: nat)
    requires i < |ls|
    ensures ls[i].item in ItemsOf(ls)
  {
    if i > 0 {
      ItemOfLabel(ls[1..], i - 1);
    }
  }

  lemma {:induction false} LabelOfItem(ls: seq<Label>, it: Item) returns (i: nat)
    requires it in ItemsOf(ls)
    ensures i < |ls| && ls[i].item == it
  {
    if ls[0].item == it {
      i := 0;
    } else {
      var k := LabelOfItem(ls[1..], it);
      i := k + 1;
    }
  }

  predicate Covers(it: Item, key: int) {
    it.lo <= key <= it.hi
  }

  lemma {:induction false} FindCovers(items: seq<Item>, key: int)
    ensures match Find(items, key)
            case Some(addr) => exists f :: 0 <= f < |items| && Covers(items[f], key) && items[f].addr == addr
            case None => forall f :: 0 <= f < |items| ==> !Covers(items[f], key)
  {
    if items != [] {
      var n := |items| - 1;
      FindCovers(items[..n], key);
      assert Covers(items[n], key) <==> items[n].lo <= key <= items[n].hi;
    }
  }

  /** Sort the collected entries and join them: an error is reported exactly when two labels overlap, and
      otherwise the list says for every key what the labels say. */
  method JoinLabels(cases: CaseState, ghost ls: seq<Label>) returns (r: Result<nat, CaseError>, ghost s: Entries)
    requires cases.Valid() && cases.list0 != null && (forall i :: 0 <= i < |ls| ==> ProperLabel(ls[i]))
    requires multiset(Values(cases.entries0 + cases.entries1)) == multiset(AllEntries(ls))
    modifies cases, Nodes(cases.entries0 + cases.entries1)
    ensures r.Ok? <==> Disjoint(ls)
    ensures r.Err? ==> Reports(ls, r.error)
    ensures r.Ok? ==>
              && r.value == |s| && cases.list0 != null && List(cases.list0, s) && Nodes(s) <= Nodes(old(cases.entries0 + cases.entries1))
              && exists items :: Represents(s, items) && SaysWhat(items, ls) && Maximal(items)
  {
    hide *;
    ghost var all := cases.entries0 + cases.entries1;
    s := SortLabels(cases, ls, all);
    ghost var es := Values(s);
    LabelsReady(ls, s);
    ghost var joined;
    r, joined := JoinCases(cases.list0, s, es);
    if r.Err? {
      ErrorReported(ls, es);
    } else {
      s := joined;
      AllFound(ls, es);
      assert Represents(s, JoinAll(Scan(es).value).items);
    }
  }

  method SortLabels(cases: CaseState, ghost ls: seq<Label>, ghost all: Entries) returns (ghost s: Entries)
    requires cases.Valid() && cases.list0 != null && all == cases.entries0 + cases.entries1
    requires multiset(Values(all)) == multiset(AllEntries(ls))
    modifies cases, Nodes(all)`next
    ensures cases.list0 != null && List(cases.list0, s) && Sorted(s) && Nodes(s) == Nodes(all)
    ensures multiset(Values(s)) == multiset(AllEntries(ls))
  {
    hide AllEntries, Linked, Distinct, Sorted, Apart, Values;
    assert all != [];
    s := cases.Sort();
    assert multiset(Values(all)) == multiset(AllEntries(ls));
    ValuesPermuted(s, all);
    SameNodes(s, all);
    assert |multiset(s)| == |s| && |multiset(all)| == |all|;
  }

  lemma LabelsReady(ls: seq<Label>, s: Entries)
    requires Sorted(s) && multiset(Values(s)) == multiset(AllEntries(ls)) && forall i :: 0 <= i < |ls| ==> ProperLabel(ls[i])
    ensures var es := Values(s);
            && Collected(ls, es) && Paired(es) && Holds(s, es) && SortedEntries(es) && (forall k :: 0 <= k < |es| ==> ProperEntry(es[k]))
            && (Scan(es).Ok? <==> Disjoint(ls))
  {
    hide AllEntries, Paired, ProperLabel, ProperEntry, Scan, Disjoint, Values;
    ValuesSorted(s);
    LabelsPaired(ls, Values(s));
    LabelsProper(ls, Values(s));
    ScanIff(ls, Values(s));
  }

  /** Items that are in order and lead every key to the address its label gives it. */
  ghost predicate SaysWhat(items: seq<Item>, ls: seq<Label>) {
    && Ascending(items)
    && forall key ::
         match Find(items, key)
         case Some(addr) => exists i :: 0 <= i < |ls| && Covers(ls[i].item, key) && ls[i].item.addr == addr
         case None => forall i :: 0 <= i < |ls| ==> !Covers(ls[i].item, key)
  }

  lemma AllFound(ls: seq<Label>, es: seq<Entry>)
    requires Collected(ls, es) && Disjoint(ls)
    ensures Scan(es).Ok? && SaysWhat(JoinAll(Scan(es).value).items, ls) && Maximal(JoinAll(Scan(es).value).items)
  {
    LabelsFound(ls, es, 0);
    ScanIff(ls, es);
    JoiningMaximal(Scan(es).value);
    hide Maximal, Meets, Find, JoinAll, Collected, Scan, Disjoint, Ascending, Covers;
    forall key
      ensures match Find(JoinAll(Scan(es).value).items, key)
              case Some(addr) => exists i :: 0 <= i < |ls| && Covers(ls[i].item, key) && ls[i].item.addr == addr
              case None => forall i :: 0 <= i < |ls| ==> !Covers(ls[i].item, key)
    {
      LabelsFound(ls, es, key);
    }
  }

  lemma ValuesSorted(s: Entries)
    requires Sorted(s)
    ensures SortedEntries(Values(s)) && Holds(s, Values(s))
  {
  }

  lemma SameNodes(s: Entries, t: Entries)
    requires multiset(s) == multiset(t)
    ensures Nodes(s) == Nodes(t)
  {
    forall e: CaseEntry | e in s || e in t
      ensures e in s && e in t
    {
      assert e in multiset(s);
    }
  }

  lemma LabelsProper(ls: seq<Label>, es: seq<Entry>)
    requires Collected(ls, es)
    ensures forall k :: 0 <= k < |es| ==> ProperEntry(es[k])
  {
    forall k | 0 <= k < |es|
      ensures ProperEntry(es[k])
    {
      var i := LabelAt(ls, es, k);
    }
  }
}
