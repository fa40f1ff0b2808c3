/** The list of case labels of a #'switch, and the mergesort that orders it by key.

    The sort keeps two lists of runs and distributes the merged runs to two output lists in turn,
    relinking the entries in place. That one list is never used up before the other rests on the
    balanced way in which new entries are added. */
module CaseSort {
  class CaseEntry {
    const key: int
    var addr: int
    var line: int
    var next: CaseEntry?

    constructor (key: int, addr: int, line: int)
      ensures this.key == key && this.addr == addr && this.line == line && next == null
    {
      this.key, this.addr, this.line, next := key, addr, line, null;
    }
  }

  type Entries = seq<CaseEntry>

  function First(s: Entries, end: CaseEntry?): CaseEntry? {
    if s == [] then end else s[0]
  }

  /** Each entry links to the one behind it, the last one to `end`. */
  ghost predicate Linked(s: Entries, end: CaseEntry?)
    reads s
  {
    && (forall i, j :: 0 <= i && j == i + 1 && j < |s| ==> s[i].next == s[j])
    && (s != [] ==> s[|s| - 1].next == end)
  }

  /** An output list: the link of its last entry has not been written yet. */
  ghost predicate Output(hook: CaseEntry?, last: CaseEntry?, o: Entries)
    reads o
  {
    && Distinct(o)
    && (o == [] ==> last == null)
    && (o != [] ==> last == o[|o| - 1] && hook == o[0])
    && forall i, j :: 0 <= i && j == i + 1 && j < |o| ==> o[i].next == o[j]
  }

  ghost predicate Distinct(s: Entries) {
    forall i, j :: 0 <= i < j < |s| ==> s[i] != s[j]
  }

  ghost function Nodes(s: Entries): set<CaseEntry> {
    set e | e in s
  }

  ghost predicate Apart(o: Entries, s: Entries) {
    forall e :: e in s ==> e !in o
  }

  /** The rest of a list. */
  lemma Rest(s: Entries, k: nat)
    requires k <= |s| && Linked(s, null) && Distinct(s)
    ensures Linked(s[k..], null) && Distinct(s[k..]) && Apart(s[..k], s[k..])
  {
  }

  ghost predicate Sorted(s: Entries) {
    forall i, j :: 0 <= i < j < |s| ==> s[i].key <= s[j].key
  }

  /** Append `e`, which is still linked to what follows it in its old list. */
  method Put(hook: CaseEntry?, last: CaseEntry?, e: CaseEntry, ghost o: Entries) returns (hook': CaseEntry?)
    requires Output(hook, last, o) && e !in o
    modifies Nodes(o)`next
    ensures Output(hook', e, o + [e])
    ensures forall x :: x in o && x != last ==> x.next == old(x.next)
  {
    if last == null {
      hook' := e;
    } else {
      last.next := e;
      hook' := hook;
    }
  }

  /** A list that is still to be merged. */
  ghost predicate Input(list: CaseEntry?, s: Entries)
    reads s
  {
    list == First(s, null) && Linked(s, null) && Distinct(s)
  }

  /** The next `count` entries, or what is left. */
  ghost function Take(s: Entries, count: nat): (t: Entries)
    ensures |t| <= |s|
  {
    if count <= |s| then s[..count] else s
  }

  ghost predicate Below(m: Entries, s: Entries) {
    forall i, j :: 0 <= i < |m| && 0 <= j < |s| ==> m[i].key <= s[j].key
  }

  /** `m` holds what has been merged, `a` and `b` what is left of the two runs. */
  ghost predicate Merging(m: Entries, a: Entries, b: Entries, all: multiset<CaseEntry>) {
    && multiset(m) + multiset(a) + multiset(b) == all
    && Sorted(m) && Sorted(a) && Sorted(b) && Below(m, a) && Below(m, b)
  }

  lemma MergeStep(m: Entries, a: Entries, b: Entries, all: multiset<CaseEntry>)
    requires Merging(m, a, b, all) && a != [] && b != [] && a[0].key <= b[0].key
    ensures Merging(m + [a[0]], a[1..], b, all)
  {
    assert multiset(m + [a[0]]) + multiset(a[1..]) == multiset(m) + multiset(a) by {
      assert a == [a[0]] + a[1..];
    }
    MergeStepSorted(m, a, b);
  }

  lemma MergeStepSorted(m: Entries, a: Entries, b: Entries)
    requires Sorted(m) && Sorted(a) && Sorted(b) && Below(m, a) && Below(m, b) && a != [] && b != [] && a[0].key <= b[0].key
    ensures Sorted(m + [a[0]]) && Sorted(a[1..]) && Below(m + [a[0]], a[1..]) && Below(m + [a[0]], b)
  {
  }

  lemma MergeRest(m: Entries, a: Entries, all: multiset<CaseEntry>)
    requires Merging(m, [], a, all)
    ensures Sorted(m + a) && multiset(m + a) == all
  {
  }

  /** Append the first entry of a list to the output. */
  method TakeFirst(list: CaseEntry, hook: CaseEntry?, last: CaseEntry?, ghost o: Entries, ghost s: Entries)
    returns (list': CaseEntry?, hook': CaseEntry?)
    requires s != [] && Input(list, s) && Output(hook, last, o) && Apart(o, s)
    modifies Nodes(o)`next
    ensures Input(list', s[1..]) && Output(hook', list, o + [s[0]]) && Apart(o + [s[0]], s[1..])
  {
    hook' := Put(hook, last, list, o);
    list' := list.next;
    Rest(s, 1);
  }

  /** The entries behind the last one are part of the output, too, as they are already linked. */
  lemma Skip(hook: CaseEntry?, o: Entries, s: Entries, k: nat)
    requires 0 < k < |s| && Linked(s, null) && Distinct(s) && Apart(o, s)
    requires Output(hook, s[k - 1], o + s[..k])
    ensures s[k - 1].next == s[k] && Output(hook, s[k], o + s[..k + 1])
  {
    var u := o + s[..k];
    assert o + s[..k + 1] == u + [s[k]];
    assert s[k - 1].next == s[k];
    assert forall e :: e in u ==> e != s[k];
  }

  /** Append a list to the output, and skip its next `count` entries. */
  method TakeRun(list: CaseEntry, count0: nat, hook: CaseEntry?, last: CaseEntry?, ghost o: Entries, ghost s: Entries)
    returns (list': CaseEntry?, hook': CaseEntry?, last': CaseEntry)
    requires s != [] && Input(list, s) && Output(hook, last, o) && Apart(o, s) && count0 > 0
    modifies Nodes(o)`next
    ensures var k := |Take(s, count0)|;
            Input(list', s[k..]) && Output(hook', last', o + s[..k]) && Apart(o + s[..k], s[k..])
  {
    hide Output, Apart, Distinct;
    hook' := PutFirst(list, hook, last, o, s);
    last' := list;
    list' := list.next;
    var count := count0 - 1;
    ghost var k := 1;
    while count > 0 && list' != null
      invariant 1 <= k <= |s| && count == count0 - k && last' == s[k - 1]
      invariant Linked(s, null) && list' == First(s[k..], null)
      invariant Output(hook', last', o + s[..k])
    {
      Skip(hook', o, s, k);
      last' := list';
      list' := last'.next;
      count := count - 1;
      k := k + 1;
    }
    Rest(s, k);
    ApartRest(o, s, k);
  }

  lemma ApartRest(o: Entries, s: Entries, k: nat)
    requires k <= |s| && Distinct(s) && Apart(o, s)
    ensures Apart(o + s[..k], s[k..])
  {
  }

  method PutFirst(list: CaseEntry, hook: CaseEntry?, last: CaseEntry?, ghost o: Entries, ghost s: Entries)
    returns (hook': CaseEntry?)
    requires s != [] && Input(list, s) && Output(hook, last, o) && Apart(o, s)
    modifies Nodes(o)`next
    ensures Linked(s, null) && Output(hook', list, o + s[..1])
  {
    assert s[..1] == [s[0]];
    hook' := Put(hook, last, list, o);
  }

  /** What a merge keeps: both lists, the output, and how far the runs have been merged. */
  ghost predicate InMerge(list0: CaseEntry?, list1: CaseEntry?, a: Entries, b: Entries, hook: CaseEntry?, last: CaseEntry?, o: Entries)
    reads a, b, o
  {
    && Input(list0, a) && Input(list1, b) && Output(hook, last, o)
    && Apart(o, a) && Apart(o, b) && Apart(a, b)
  }

  /** Append the first entry of one list; if that was the end of its run, append the run of the other list, too. */
  method MergeEntry(head0: CaseEntry, head1: CaseEntry, count0: nat, count1: nat, hook0: CaseEntry?, last0: CaseEntry?, ghost o: Entries,
                    ghost a: Entries, ghost b: Entries)
    returns (list0: CaseEntry?, list1: CaseEntry?, hook: CaseEntry?, last: CaseEntry?, ghost b': Entries, ghost m: Entries)
    requires a != [] && b != [] && 0 < count0 && 0 < count1 && InMerge(head0, head1, a, b, hook0, last0, o)
    modifies Nodes(o + [a[0]])`next
    ensures InMerge(list0, list1, a[1..], b', hook, last, o + m) && list0 == First(a[1..], null) && list1 == First(b', null)
    ensures if count0 == 1 || a[1..] == [] then b' == b[|Take(b, count1)|..] && m == [a[0]] + Take(b, count1)
            else b' == b && m == [a[0]]
  {
    hide Output, Linked, Distinct, Take;
    last, list1 := head0, head1;
    list0, hook := TakeFirst(head0, hook0, last0, o, a);
    m, b' := [a[0]], b;
    if count0 == 1 || list0 == null {
      list1, hook, last := TakeRun(head1, count1, hook, last, o + m, b);
      ghost var k := |Take(b, count1)|;
      b', m := b[k..], m + b[..k];
      Concat(o, [a[0]], b[..k]);
      TakeFront(b, count1);
    }
    ApartParts(o, a, b, |b| - |b'|);
  }

  lemma TakeFront(s: Entries, count: nat)
    ensures Take(s, count) == s[..|Take(s, count)|]
  {
  }

  lemma ApartParts(o: Entries, a: Entries, b: Entries, k: nat)
    requires a != [] && k <= |b| && Distinct(a) && Distinct(b) && Apart(o, a) && Apart(o, b) && Apart(a, b)
    ensures var m := o + ([a[0]] + b[..k]); Apart(m, a[1..]) && Apart(m, b[k..]) && Apart(a[1..], b[k..])
    ensures [a[0]] + b[..0] == [a[0]] && b[0..] == b
  {
    hide Linked;
    assert forall e :: e in b[..k] ==> e in b && e !in b[k..];
    assert forall e :: e in b[k..] ==> e in b;
    assert forall e :: e in a[1..] ==> e in a && e != a[0];
  }

  /** What is left to merge of two runs with `count0` and `count1` entries. */
  ghost predicate RunsLeft(m: Entries, a: Entries, b: Entries, count0: nat, count1: nat, all: multiset<CaseEntry>) {
    Merging(m, Take(a, count0), Take(b, count1), all)
  }

  lemma EntryMerged(m: Entries, a: Entries, b: Entries, count0: nat, count1: nat, all: multiset<CaseEntry>)
    requires RunsLeft(m, a, b, count0, count1, all) && a != [] && b != [] && 0 < count0 && 0 < count1 && a[0].key <= b[0].key
    ensures if count0 == 1 || a[1..] == []
            then Sorted(m + ([a[0]] + Take(b, count1))) && multiset(m + ([a[0]] + Take(b, count1))) == all
            else RunsLeft(m + [a[0]], a[1..], b, count0 - 1, count1, all)
    ensures a[1..][|Take(a[1..], count0 - 1)|..] == a[|Take(a, count0)|..]
  {
    hide Merging;
    MergeStep(m, Take(a, count0), Take(b, count1), all);
    assert Take(a, count0)[1..] == Take(a[1..], count0 - 1);
    if count0 == 1 || a[1..] == [] {
      MergeRest(m + [a[0]], Take(b, count1), all);
      assert m + ([a[0]] + Take(b, count1)) == m + [a[0]] + Take(b, count1);
    }
  }

  lemma MergingStarts(a: Entries, b: Entries, count: nat)
    requires Sorted(Take(a, count)) && Sorted(Take(b, count))
    ensures RunsLeft([], a, b, count, count, multiset(Take(a, count)) + multiset(Take(b, count)))
  {
  }

  /** Only entries of the two runs have been and will be appended. */
  lemma RunNodes(m: Entries, a: Entries, b: Entries, count0: nat, count1: nat, o: Entries, s0: Entries, s1: Entries)
    requires a != [] && b != [] && 0 < count0 && 0 < count1
    requires RunsLeft(m, a, b, count0, count1, multiset(s0) + multiset(s1))
    ensures Nodes(o + m + [a[0]]) <= Nodes(o + s0 + s1) && Nodes(o + m + [b[0]]) <= Nodes(o + s0 + s1)
  {
    hide Sorted, Below;
    var all := multiset(s0) + multiset(s1);
    assert a[0] in Take(a, count0) && b[0] in Take(b, count1);
    forall e | e in m || e == a[0] || e == b[0]
      ensures e in s0 || e in s1
    {
      assert e in all;
    }
  }

  lemma MergingSwap(m: Entries, a: Entries, b: Entries, count0: nat, count1: nat, all: multiset<CaseEntry>)
    ensures RunsLeft(m, a, b, count0, count1, all) == RunsLeft(m, b, a, count1, count0, all)
  {
  }

  lemma InMergeSwap(list0: CaseEntry?, list1: CaseEntry?, a: Entries, b: Entries, hook: CaseEntry?, last: CaseEntry?, o: Entries)
    requires InMerge(list0, list1, a, b, hook, last, o)
    ensures InMerge(list1, list0, b, a, hook, last, o)
  {
  }

  lemma Heads(list0: CaseEntry?, list1: CaseEntry?, a: Entries, b: Entries, hook: CaseEntry?, last: CaseEntry?, o: Entries)
    requires InMerge(list0, list1, a, b, hook, last, o)
    ensures list0 == First(a, null) && list1 == First(b, null)
  {
  }

  lemma Concat(o: Entries, m: Entries, n: Entries)
    ensures o + m + n == o + (m + n)
  {
  }

  /** Take the first entry of the list with the lower key. */
  method MergeLower(head0: CaseEntry, head1: CaseEntry, count0: nat, count1: nat, hook0: CaseEntry?, last0: CaseEntry?, ghost o: Entries,
                    ghost m0: Entries, ghost a: Entries, ghost b: Entries, ghost all: multiset<CaseEntry>)
    returns (list0: CaseEntry?, list1: CaseEntry?, hook: CaseEntry?, last: CaseEntry?, ghost b': Entries, ghost m: Entries)
    requires a != [] && b != [] && 0 < count0 && 0 < count1 && InMerge(head0, head1, a, b, hook0, last0, o + m0)
    requires RunsLeft(m0, a, b, count0, count1, all) && a[0].key <= b[0].key
    modifies Nodes(o + m0 + [a[0]])`next
    ensures InMerge(list0, list1, a[1..], b', hook, last, o + m) && list0 == First(a[1..], null) && list1 == First(b', null)
    ensures if count0 == 1 || a[1..] == [] then b' == b[|Take(b, count1)|..] && Sorted(m) && multiset(m) == all
            else b' == b && RunsLeft(m, a[1..], b, count0 - 1, count1, all)
    ensures a[1..][|Take(a[1..], count0 - 1)|..] == a[|Take(a, count0)|..]
  {
    hide RunsLeft, InMerge, Sorted, Take, Nodes, First;
    EntryMerged(m0, a, b, count0, count1, all);
    list0, list1, hook, last, b', m := MergeEntry(head0, head1, count0, count1, hook0, last0, o + m0, a, b);
    Concat(o, m0, m);
    m := m0 + m;
  }

  /** Merge the next runs of both lists into an output list. */
  method MergeRuns(head0: CaseEntry, head1: CaseEntry, runlength: nat, hook0: CaseEntry?, last0: CaseEntry?, ghost o: Entries,
                   ghost s0: Entries, ghost s1: Entries)
    returns (list0: CaseEntry?, list1: CaseEntry?, hook: CaseEntry?, last: CaseEntry?, ghost m: Entries)
    requires runlength > 0 && s0 != [] && s1 != [] && InMerge(head0, head1, s0, s1, hook0, last0, o)
    requires Sorted(Take(s0, runlength)) && Sorted(Take(s1, runlength))
    modifies Nodes(o + Take(s0, runlength) + Take(s1, runlength))`next
    ensures InMerge(list0, list1, s0[|Take(s0, runlength)|..], s1[|Take(s1, runlength)|..], hook, last, o + m)
    ensures Sorted(m) && multiset(m) == multiset(Take(s0, runlength)) + multiset(Take(s1, runlength))
  {
    hide RunsLeft, InMerge, Sorted, Take, Nodes;
    list0, list1, hook, last := head0, head1, hook0, last0;
    var count0, count1 := runlength, runlength;
    ghost var a, b := s0, s1;
    ghost var all := multiset(Take(s0, runlength)) + multiset(Take(s1, runlength));
    m := [];
    assert o + [] == o;
    MergingStarts(s0, s1, runlength);
    Heads(list0, list1, s0, s1, hook, last, o);
    while true
      invariant list0 == First(a, null) && list1 == First(b, null)
      invariant a != [] && b != [] && 0 < count0 && 0 < count1 && InMerge(list0, list1, a, b, hook, last, o + m)
      invariant RunsLeft(m, a, b, count0, count1, all)
      invariant a[|Take(a, count0)|..] == s0[|Take(s0, runlength)|..] && b[|Take(b, count1)|..] == s1[|Take(s1, runlength)|..]
      decreases |a| + |b|
    {
      RunNodes(m, a, b, count0, count1, o, Take(s0, runlength), Take(s1, runlength));
      if list1.key < list0.key {
        MergingSwap(m, a, b, count0, count1, all);
        InMergeSwap(list0, list1, a, b, hook, last, o + m);
        list1, list0, hook, last, a, m := MergeLower(list1, list0, count1, count0, hook, last, o, m, b, a, all);
        b, count1 := b[1..], count1 - 1;
        InMergeSwap(list1, list0, b, a, hook, last, o + m);
        if count1 == 0 || list1 == null {
          NothingTaken(b, count1);
          break;
        }
        MergingSwap(m, b, a, count1, count0, all);
      } else {
        list0, list1, hook, last, b, m := MergeLower(list0, list1, count0, count1, hook, last, o, m, a, b, all);
        a, count0 := a[1..], count0 - 1;
        if count0 == 0 || list0 == null {
          NothingTaken(a, count0);
          break;
        }
      }
    }
  }

  lemma NothingTaken(s: Entries, count: nat)
    requires count == 0 || s == []
    ensures s[|Take(s, count)|..] == s
  {
  }

  // ----- one pass

  /** Cut into pieces of `len` entries, the last one possibly shorter, every piece is sorted. */
  ghost predicate Runs(s: Entries, len: nat)
    requires len > 0
  {
    s == [] || (Sorted(Take(s, len)) && Runs(s[|Take(s, len)|..], len))
  }

  ghost function NumRuns(s: Entries, len: nat): (n: nat)
    requires len > 0
    ensures n == 0 <==> s == []
  {
    if s == [] then 0 else 1 + NumRuns(s[|Take(s, len)|..], len)
  }

  /** No piece is shorter. */
  ghost predicate Full(s: Entries, len: nat)
    requires len > 0
  {
    s == [] || (|s| >= len && Full(s[len..], len))
  }

  lemma {:induction false} AppendRun(o: Entries, m: Entries, len: nat)
    requires len > 0 && Runs(o, len) && Full(o, len) && m != [] && Sorted(m) && |m| <= len
    ensures Runs(o + m, len) && NumRuns(o + m, len) == NumRuns(o, len) + 1
    ensures |m| == len ==> Full(o + m, len)
  {
    if o == [] {
      assert o + m == m && Take(m, len) == m && m[|m|..] == [];
    } else {
      hide Sorted;
      AppendRun(o[len..], m, len);
      assert Take(o + m, len) == Take(o, len) && (o + m)[len..] == o[len..] + m;
    }
  }

  /** The runs of a pass: `s0` and `s1` are still to be merged, `n` is the output that is next, `o` the other one. */
  ghost predicate Balanced(s0: Entries, s1: Entries, n: Entries, o: Entries, len: nat, swapped: bool, total: nat) {
    && len > 0 && Runs(s0, len) && Runs(s1, len) && 0 <= NumRuns(s0, len) - NumRuns(s1, len) <= 1
    && Runs(n, 2 * len) && Full(n, 2 * len) && Runs(o, 2 * len) && (s1 != [] ==> Full(o, 2 * len))
    && NumRuns(o, 2 * len) - NumRuns(n, 2 * len) == (if swapped then 1 else 0)
    && NumRuns(s0, len) + NumRuns(n, 2 * len) + NumRuns(o, 2 * len) == total
  }

  lemma PairMerged(s0: Entries, s1: Entries, n: Entries, o: Entries, m: Entries, len: nat, swapped: bool, total: nat)
    requires Balanced(s0, s1, n, o, len, swapped, total) && s1 != []
    requires Sorted(m) && |m| == |Take(s0, len)| + |Take(s1, len)|
    ensures s0 != []
    ensures Balanced(s0[|Take(s0, len)|..], s1[|Take(s1, len)|..], o, n + m, len, !swapped, total)
  {
    AppendRun(n, m, 2 * len);
  }

  /** The last run has no partner; it becomes the last run of the output that is next. */
  lemma PassEnds(s0: Entries, n: Entries, o: Entries, len: nat, swapped: bool, total: nat)
    requires Balanced(s0, [], n, o, len, swapped, total)
    ensures Runs(n + s0, 2 * len) && Runs(o, 2 * len)
    ensures NumRuns(n + s0, 2 * len) + NumRuns(o, 2 * len) == total
    ensures 0 <= (if swapped then NumRuns(o, 2 * len) - NumRuns(n + s0, 2 * len) else NumRuns(n + s0, 2 * len) - NumRuns(o, 2 * len)) <= 1
  {
    if s0 == [] {
      assert n + s0 == n;
    } else {
      assert NumRuns(s0[|Take(s0, len)|..], len) == 0;
      assert Take(s0, len) == s0;
      AppendRun(n, s0, 2 * len);
    }
  }

  /** The two input lists, and the two output lists. */
  ghost predicate InPass(list0: CaseEntry?, list1: CaseEntry?, s0: Entries, s1: Entries, hookN: CaseEntry?, lastN: CaseEntry?,
                         n: Entries, hookO: CaseEntry?, lastO: CaseEntry?, o: Entries, all: multiset<CaseEntry>)
    reads s0, s1, n, o
  {
    && InMerge(list0, list1, s0, s1, hookN, lastN, n) && Output(hookO, lastO, o)
    && Apart(o, s0) && Apart(o, s1) && Apart(o, n) && Apart(n, o)
    && multiset(s0) + multiset(s1) + multiset(n) + multiset(o) == all
  }

  lemma SplitRun(s: Entries, len: nat)
    ensures s == Take(s, len) + s[|Take(s, len)|..]
    ensures multiset(s) == multiset(Take(s, len)) + multiset(s[|Take(s, len)|..])
  {
    var k := |Take(s, len)|;
    assert s == s[..k] + s[k..];
  }

  /** Merge the next two runs into the output that is next. */
  method MergePair(head0: CaseEntry, head1: CaseEntry, runlength: nat, hook0: CaseEntry?, last0: CaseEntry?, ghost s0: Entries,
                   ghost s1: Entries, ghost n: Entries, ghost hookO: CaseEntry?, ghost lastO: CaseEntry?, ghost o: Entries,
                   ghost all: multiset<CaseEntry>, ghost swapped: bool, ghost total: nat)
    returns (list0: CaseEntry?, list1: CaseEntry?, hook: CaseEntry?, last: CaseEntry?, ghost m: Entries)
    requires s0 != [] && s1 != [] && InPass(head0, head1, s0, s1, hook0, last0, n, hookO, lastO, o, all)
    requires Balanced(s0, s1, n, o, runlength, swapped, total)
    modifies Nodes(n + s0 + s1)`next
    ensures var t0, t1 := s0[|Take(s0, runlength)|..], s1[|Take(s1, runlength)|..];
            && InPass(list0, list1, t0, t1, hookO, lastO, o, hook, last, n + m, all)
            && Balanced(t0, t1, o, n + m, runlength, !swapped, total)
            && list0 == First(t0, null) && list1 == First(t1, null)
  {
    hide Balanced, Sorted, Input, Output, Apart, Take, Nodes;
    OtherApart(s0, s1, n, o, runlength);
    RunsSorted(s0, s1, n, o, runlength, swapped, total);
    SplitRun(s0, runlength);
    SplitRun(s1, runlength);
    list0, list1, hook, last, m := MergeRuns(head0, head1, runlength, hook0, last0, n, s0, s1);
    PairMerged(s0, s1, n, o, m, runlength, swapped, total);
    MergedApart(s0, s1, n, o, m, runlength);
    Heads(list0, list1, s0[|Take(s0, runlength)|..], s1[|Take(s1, runlength)|..], hook, last, n + m);
    assert multiset(n + m) == multiset(n) + multiset(m);
  }

  lemma OtherApart(s0: Entries, s1: Entries, n: Entries, o: Entries, len: nat)
    requires Apart(o, s0) && Apart(o, s1) && Apart(o, n)
    ensures Nodes(n + Take(s0, len) + Take(s1, len)) <= Nodes(n + s0 + s1)
    ensures forall e :: e in o ==> e !in Nodes(n + Take(s0, len) + Take(s1, len))
  {
  }

  lemma MergedApart(s0: Entries, s1: Entries, n: Entries, o: Entries, m: Entries, len: nat)
    requires Apart(o, s0) && Apart(o, s1) && Apart(o, n) && multiset(m) == multiset(Take(s0, len)) + multiset(Take(s1, len))
    ensures Apart(o, s0[|Take(s0, len)|..]) && Apart(o, s1[|Take(s1, len)|..]) && Apart(n + m, o) && Apart(o, n + m)
  {
    forall e | e in m
      ensures e in s0 || e in s1
    {
      assert e in multiset(m);
    }
  }

  lemma RunsSorted(s0: Entries, s1: Entries, n: Entries, o: Entries, len: nat, swapped: bool, total: nat)
    requires Balanced(s0, s1, n, o, len, swapped, total) && s1 != []
    ensures s0 != [] && len > 0 && Sorted(Take(s0, len)) && Sorted(Take(s1, len))
    ensures forall m: Entries :: multiset(m) == multiset(Take(s0, len)) + multiset(Take(s1, len)) ==> |m| == |Take(s0, len)| + |Take(s1, len)|
  {
    forall m: Entries | multiset(m) == multiset(Take(s0, len)) + multiset(Take(s1, len))
      ensures |m| == |Take(s0, len)| + |Take(s1, len)|
    {
      assert |m| == |multiset(m)|;
    }
  }

  /** What holds between two passes. */
  ghost predicate Unsorted(list0: CaseEntry?, list1: CaseEntry?, s0: Entries, s1: Entries, len: nat, all: multiset<CaseEntry>)
    reads s0, s1
  {
    && Input(list0, s0) && Input(list1, s1) && Apart(s0, s1) && multiset(s0) + multiset(s1) == all
    && len > 0 && Runs(s0, len) && Runs(s1, len) && 0 <= NumRuns(s0, len) - NumRuns(s1, len) <= 1
  }

  /** Complete an output list with what is left of an input list. */
  method Close(hook: CaseEntry?, last: CaseEntry?, list: CaseEntry?, ghost o: Entries, ghost s: Entries) returns (hook': CaseEntry?)
    requires Output(hook, last, o) && Input(list, s) && Apart(o, s)
    modifies Nodes(o)`next
    ensures Input(hook', o + s)
  {
    DistinctConcat(o, s);
    if last == null {
      hook' := list;
      assert o + s == s;
    } else {
      last.next := list;
      hook' := hook;
    }
  }

  lemma DistinctConcat(o: Entries, s: Entries)
    requires Distinct(o) && Distinct(s) && Apart(o, s)
    ensures Distinct(o + s)
  {
    var u := o + s;
    forall i, j | 0 <= i < j < |u|
      ensures u[i] != u[j]
    {
      if i < |o| <= j {
        assert u[j] == s[j - |o|] && s[j - |o|] in s && u[i] == o[i] && o[i] in o;
      }
    }
  }

  lemma PassStarts(list0: CaseEntry?, list1: CaseEntry?, s0: Entries, s1: Entries, len: nat, all: multiset<CaseEntry>)
    requires Unsorted(list0, list1, s0, s1, len, all)
    ensures InPass(list0, list1, s0, s1, null, null, [], null, null, [], all)
    ensures Balanced(s0, s1, [], [], len, false, NumRuns(s0, len))
    ensures list0 == First(s0, null) && list1 == First(s1, null)
  {
  }

  lemma InPassParts(list0: CaseEntry?, list1: CaseEntry?, s0: Entries, s1: Entries, hookN: CaseEntry?, lastN: CaseEntry?, n: Entries,
                    hookO: CaseEntry?, lastO: CaseEntry?, o: Entries, all: multiset<CaseEntry>)
    requires InPass(list0, list1, s0, s1, hookN, lastN, n, hookO, lastO, o, all)
    ensures Output(hookN, lastN, n) && Output(hookO, lastO, o) && Input(list0, s0)
    ensures Apart(n, s0) && Apart(o, s0) && Apart(o, n) && Apart(n, o)
    ensures multiset(s0) + multiset(s1) + multiset(n) + multiset(o) == all
  {
  }

  lemma InPassNodes(s0: Entries, s1: Entries, n: Entries, o: Entries, r0: Entries, r1: Entries)
    requires multiset(s0) + multiset(s1) + multiset(n) + multiset(o) == multiset(r0) + multiset(r1)
    ensures Nodes(n + s0 + s1) <= Nodes(r0 + r1) && Nodes(n + s0 + o) <= Nodes(r0 + r1)
  {
    var all := multiset(r0) + multiset(r1);
    forall e | e in n || e in s0 || e in s1 || e in o
      ensures e in r0 || e in r1
    {
      assert e in all;
    }
  }

  /** Merge all runs in pairs, putting the results into the two output lists in turn. */
  method MergePass(head0: CaseEntry, head1: CaseEntry, runlength: nat, ghost r0: Entries, ghost r1: Entries)
    returns (list0: CaseEntry?, list1: CaseEntry?, ghost s0: Entries, ghost s1: Entries)
    requires runlength > 0 && Unsorted(head0, head1, r0, r1, runlength, multiset(r0 + r1)) && r0 != [] && r1 != []
    modifies Nodes(r0 + r1)`next
    ensures Unsorted(list0, list1, s0, s1, 2 * runlength, multiset(r0 + r1))
    ensures NumRuns(s0, 2 * runlength) + NumRuns(s1, 2 * runlength) == NumRuns(r0, runlength)
  {
    hide Balanced, Input, Output, Apart, Runs, NumRuns, Nodes, Unsorted, InPass, InMerge;
    var hook0: CaseEntry?, last0: CaseEntry?, hook1: CaseEntry?, last1: CaseEntry? := null, null, null, null;
    list0, list1 := head0, head1;
    var swapped := false;
    ghost var n, o: Entries := [], [];
    s0, s1 := r0, r1;
    ghost var total := NumRuns(r0, runlength);
    ghost var all := multiset(r0 + r1);
    PassStarts(list0, list1, s0, s1, runlength, all);
    while list1 != null
      invariant InPass(list0, list1, s0, s1, hook0, last0, n, hook1, last1, o, all)
      invariant Balanced(s0, s1, n, o, runlength, swapped, total)
      invariant list0 == First(s0, null) && list1 == First(s1, null)
      decreases |s1|
    {
      InPassParts(list0, list1, s0, s1, hook0, last0, n, hook1, last1, o, all);
      InPassNodes(s0, s1, n, o, r0, r1);
      RunsSorted(s0, s1, n, o, runlength, swapped, total);
      ghost var m;
      list0, list1, hook0, last0, m :=
        MergePair(list0, list1, runlength, hook0, last0, s0, s1, n, hook1, last1, o, all, swapped, total);
      s0, s1 := s0[|Take(s0, runlength)|..], s1[|Take(s1, runlength)|..];
      hook0, last0, hook1, last1 := hook1, last1, hook0, last0;
      n, o := o, n + m;
      swapped := !swapped;
    }
    InPassParts(list0, list1, s0, s1, hook0, last0, n, hook1, last1, o, all);
    InPassNodes(s0, s1, n, o, r0, r1);
    PassEnds(s0, n, o, runlength, swapped, total);
    list0, list1 := CloseBoth(hook0, last0, hook1, last1, list0, n, o, s0);
    s0, s1 := n + s0, o;
    if swapped {
      list0, list1 := list1, list0;
      s0, s1 := s1, s0;
    }
    assert Unsorted(list0, list1, s0, s1, 2 * runlength, all) by {
      PassEnded(list0, list1, s0, s1, 2 * runlength, all);
    }
  }

  lemma PassEnded(list0: CaseEntry?, list1: CaseEntry?, s0: Entries, s1: Entries, len: nat, all: multiset<CaseEntry>)
    requires Input(list0, s0) && Input(list1, s1) && Apart(s0, s1) && multiset(s0) + multiset(s1) == all
    requires len > 0 && Runs(s0, len) && Runs(s1, len) && 0 <= NumRuns(s0, len) - NumRuns(s1, len) <= 1
    ensures Unsorted(list0, list1, s0, s1, len, all)
  {
  }

  method CloseBoth(hook0: CaseEntry?, last0: CaseEntry?, hook1: CaseEntry?, last1: CaseEntry?, list: CaseEntry?, ghost n: Entries,
                   ghost o: Entries, ghost s: Entries)
    returns (list0: CaseEntry?, list1: CaseEntry?)
    requires Output(hook0, last0, n) && Output(hook1, last1, o) && Input(list, s)
    requires Apart(n, s) && Apart(o, s) && Apart(o, n) && Apart(n, o)
    modifies Nodes(n + s + o)`next
    ensures Input(list0, n + s) && Input(list1, o) && Apart(n + s, o) && Apart(o, n + s)
  {
    hide Output;
    list0 := Close(hook0, last0, list, n, s);
    assert o + [] == o;
    list1 := Close(hook1, last1, null, o, []);
  }

  // ----- the sort

  /** Order all entries by their keys, starting from the two lists in which they have been collected. */
  method SortCases(head0: CaseEntry, head1: CaseEntry?, ghost r0: Entries, ghost r1: Entries)
    returns (list: CaseEntry?, ghost s: Entries)
    requires Input(head0, r0) && Input(head1, r1) && Apart(r0, r1) && 0 <= |r0| - |r1| <= 1
    modifies Nodes(r0 + r1)`next
    ensures list == First(s, null) && Linked(s, null) && Distinct(s)
    ensures Sorted(s) && multiset(s) == multiset(r0 + r1)
  {
    hide Unsorted, Linked, Distinct, Sorted, Runs, NumRuns, Apart, Nodes;
    var list0: CaseEntry?, list1 := head0, head1;
    ghost var s0, s1 := r0, r1;
    var runlength := 1;
    ghost var all := multiset(r0 + r1);
    SortStarts(list0, list1, s0, s1, all);
    UnsortedNodes(list0, list1, s0, s1, runlength, r0, r1);
    while list1 != null
      invariant runlength > 0 && Unsorted(list0, list1, s0, s1, runlength, all)
      invariant list0 == First(s0, null) && list1 == First(s1, null) && (s1 != [] ==> s0 != [])
      invariant Nodes(s0 + s1) <= Nodes(r0 + r1) && multiset(s0 + s1) == all
      decreases NumRuns(s0, runlength) + NumRuns(s1, runlength)
    {
      ghost var before := NumRuns(s1, runlength);
      list0, list1, s0, s1 := MergePass(list0, list1, runlength, s0, s1);
      runlength := runlength * 2;
      UnsortedNodes(list0, list1, s0, s1, runlength, r0, r1);
    }
    SortEnds(list0, list1, s0, s1, runlength, all);
    list, s := list0, s0;
  }

  lemma {:induction false} SingleRuns(s: Entries)
    ensures Runs(s, 1) && NumRuns(s, 1) == |s|
  {
    if s != [] {
      assert Take(s, 1) == [s[0]];
      SingleRuns(s[1..]);
    }
  }

  lemma SortStarts(list0: CaseEntry?, list1: CaseEntry?, s0: Entries, s1: Entries, all: multiset<CaseEntry>)
    requires Input(list0, s0) && Input(list1, s1) && Apart(s0, s1) && 0 <= |s0| - |s1| <= 1
    ensures Unsorted(list0, list1, s0, s1, 1, multiset(s0 + s1))
  {
    SingleRuns(s0);
    SingleRuns(s1);
  }

  lemma UnsortedNodes(list0: CaseEntry?, list1: CaseEntry?, s0: Entries, s1: Entries, len: nat, r0: Entries, r1: Entries)
    requires Unsorted(list0, list1, s0, s1, len, multiset(r0 + r1))
    ensures list0 == First(s0, null) && list1 == First(s1, null) && (s1 != [] ==> s0 != [] && NumRuns(s1, len) > 0)
    ensures Nodes(s0 + s1) <= Nodes(r0 + r1) && multiset(s0 + s1) == multiset(r0 + r1)
  {
    var all := multiset(r0 + r1);
    assert all == multiset(s0 + s1);
    forall e | e in s0 + s1
      ensures e in r0 + r1
    {
      assert e in multiset(s0 + s1);
    }
  }

  lemma SortEnds(list0: CaseEntry?, list1: CaseEntry?, s0: Entries, s1: Entries, len: nat, all: multiset<CaseEntry>)
    requires Unsorted(list0, list1, s0, s1, len, all) && s1 == []
    ensures list0 == First(s0, null) && Linked(s0, null) && Distinct(s0) && Sorted(s0) && multiset(s0) == all
  {
    if s0 != [] {
      assert NumRuns(s0[|Take(s0, len)|..], len) == 0;
      assert Take(s0, len) == s0;
    }
  }

  /** The entries of the switch that is being compiled. */
  class CaseState {
    var list0: CaseEntry?
    var list1: CaseEntry?
    ghost var entries0: Entries
    ghost var entries1: Entries

    ghost predicate Valid()
      reads this, entries0, entries1
    {
      && Input(list0, entries0) && Input(list1, entries1) && Apart(entries0, entries1)
      && 0 <= |entries0| - |entries1| <= 1
    }

    constructor ()
      ensures Valid() && entries0 + entries1 == []
    {
      list0, list1, entries0, entries1 := null, null, [], [];
    }

    /** The new entry becomes the head of the first list, and the lists change places. */
    method NewCaseEntry(key: int, addr: int, line: int) returns (e: CaseEntry)
      requires Valid()
      modifies this
      ensures Valid() && fresh(e) && e.key == key && e.addr == addr && e.line == line
      ensures multiset(entries0 + entries1) == old(multiset(entries0 + entries1)) + multiset{e}
    {
      e := new CaseEntry(key, addr, line);
      e.next := list1;
      InputAdded(e, list1, entries1);
      EntryAdded(entries0, entries1, e);
      list1 := list0;
      list0 := e;
      entries0, entries1 := [e] + entries1, entries0;
    }

    static lemma InputAdded(e: CaseEntry, list: CaseEntry?, s: Entries)
      requires Input(list, s) && e !in s && e.next == list
      ensures Input(e, [e] + s)
    {
    }

    static lemma EntryAdded(a: Entries, b: Entries, e: CaseEntry)
      requires Apart(a, b) && e !in a
      ensures multiset([e] + b + a) == multiset(a + b) + multiset{e} && Apart([e] + b, a)
    {
    }

    /** Whatever entries have been collected, the sort leaves one list of them in the order of the keys. */
    method Sort() returns (ghost s: Entries)
      requires Valid() && list0 != null
      modifies this, Nodes(entries0 + entries1)`next
      ensures list0 == First(s, null) && Linked(s, null) && Distinct(s) && list1 == null
      ensures Sorted(s) && multiset(s) == multiset(old(entries0 + entries1))
    {
      list0, s := SortCases(list0, list1, entries0, entries1);
      list1 := null;
    }
  }
}
