/** Joining the sorted case labels of a numeric #'switch to ranges. */
module CaseRanges {
  import opened Wrappers
  import opened CaseSort

  /** The keys from `lo` to `hi` lead to `addr`. */
  datatype Item = Item(lo: int, hi: int, addr: int)

  predicate Single(it: Item) {
    it.lo == it.hi
  }

  /** What an entry of the list says. */
  datatype Entry = Entry(key: int, addr: int, line: int)

  datatype CaseError = DuplicateCase(line: int, other: int) | DiscontinuedRange(line: int, other: int)

  const RANGE_START := 1
  const NO_ADDRESS := 0xffffff

  predicate ProperAddress(addr: int) {
    RANGE_START < addr < NO_ADDRESS
  }

  predicate IsStart(e: Entry) {
    e.addr == RANGE_START && e.line != 0
  }

  predicate IsEnd(e: Entry) {
    e.line == 0 && ProperAddress(e.addr)
  }

  predicate IsSingle(e: Entry) {
    e.line != 0 && ProperAddress(e.addr)
  }

  predicate ProperEntry(e: Entry) {
    IsStart(e) || IsEnd(e) || IsSingle(e)
  }

  // ----- labels

  /** A case label of the program: `line` is where it stands. */
  datatype Label = Label(item: Item, line: int)

  predicate ProperLabel(l: Label) {
    l.item.lo <= l.item.hi && ProperAddress(l.item.addr) && l.line != 0
  }

  /** The entries made for a label. */
  function LabelEntries(l: Label): (es: seq<Entry>)
    ensures es != [] && es[0].key == l.item.lo && es[|es| - 1].key == l.item.hi
  {
    if Single(l.item) then [Entry(l.item.lo, l.item.addr, l.line)]
    else [Entry(l.item.lo, RANGE_START, l.line), Entry(l.item.hi, l.item.addr, 0)]
  }

  function AllEntries(ls: seq<Label>): seq<Entry> {
    if ls == [] then [] else LabelEntries(ls[0]) + AllEntries(ls[1..])
  }

  predicate Overlap(a: Item, b: Item) {
    a.lo <= b.hi && b.lo <= a.hi
  }

  predicate Disjoint(ls: seq<Label>) {
    forall i, j :: 0 <= i < j < |ls| ==> !Overlap(ls[i].item, ls[j].item)
  }

  predicate SortedEntries(es: seq<Entry>) {
    forall i, j :: 0 <= i < j < |es| ==> es[i].key <= es[j].key
  }

  // ----- scanning the sorted entries

  /** The check made at an entry, with regard to the one before it. */
  function CheckPair(last: Entry, e: Entry): Option<CaseError> {
    if e.key == last.key then Some(DuplicateCase(last.line, e.line))
    else if e.line != 0 && last.addr == RANGE_START then Some(DiscontinuedRange(last.line, e.line))
    else None
  }

  function Prepend(items: seq<Item>, r: Result<seq<Item>, CaseError>): Result<seq<Item>, CaseError> {
    var rest :- r;
    Ok(items + rest)
  }

  /** The labels read off the sorted entries, or the first error met. */
  function Scan(es: seq<Entry>): Result<seq<Item>, CaseError>
    decreases |es|, 0
  {
    if es == [] then Ok([])
    else if es[0].addr != RANGE_START then Prepend([Item(es[0].key, es[0].key, es[0].addr)], ScanAfter(es[0], es[1..]))
    else if |es| == 1 then Ok([])
    else
      match CheckPair(es[0], es[1])
      case Some(err) => Err(err)
      case None => Prepend([Item(es[0].key, es[1].key, es[1].addr)], ScanAfter(es[1], es[2..]))
  }

  function ScanAfter(last: Entry, es: seq<Entry>): Result<seq<Item>, CaseError>
    decreases |es|, 1
  {
    if es == [] then Ok([])
    else
      match CheckPair(last, es[0])
      case Some(err) => Err(err)
      case None => Scan(es)
  }

  predicate Ascending(items: seq<Item>) {
    && (forall i :: 0 <= i < |items| ==> items[i].lo <= items[i].hi)
    && forall i, j :: 0 <= i < j < |items| ==> items[i].hi < items[j].lo
  }

  // ----- joining

  /** The address for a key, if there is one. */
  function Find(items: seq<Item>, key: int): Option<int> {
    if items == [] then None
    else
      var last := items[|items| - 1];
      if last.lo <= key <= last.hi then Some(last.addr) else Find(items[..|items| - 1], key)
  }

  // ----- the labels are found again

  function ItemsOf(ls: seq<Label>): seq<Item> {
    if ls == [] then [] else [ls[0].item] + ItemsOf(ls[1..])
  }

  function Without(ls: seq<Label>, i: nat): seq<Label>
    requires i < |ls|
  {
    ls[..i] + ls[i + 1..]
  }

  /** Every entry has been made for some label. */
  lemma {:induction false} LabelOf(ls: seq<Label>, e: Entry) returns (i: nat)
    requires e in AllEntries(ls)
    ensures i < |ls| && e in LabelEntries(ls[i])
  {
    if e in LabelEntries(ls[0]) {
      i := 0;
    } else {
      var k := LabelOf(ls[1..], e);
      i := k + 1;
    }
  }

  lemma {:induction false} EntriesConcat(a: seq<Label>, b: seq<Label>)
    ensures AllEntries(a + b) == AllEntries(a) + AllEntries(b)
  {
    hide LabelEntries;
    if a == [] {
      assert a + b == b;
    } else {
      EntriesConcat(a[1..], b);
      assert (a + b)[1..] == a[1..] + b && (a + b)[0] == a[0];
    }
  }

  lemma {:induction false} ItemsConcat(a: seq<Label>, b: seq<Label>)
    ensures ItemsOf(a + b) == ItemsOf(a) + ItemsOf(b)
  {
    if a == [] {
      assert a + b == b;
    } else {
      ItemsConcat(a[1..], b);
      assert (a + b)[1..] == a[1..] + b && (a + b)[0] == a[0];
    }
  }

  lemma OneLabel(l: Label)
    ensures AllEntries([l]) == LabelEntries(l) && ItemsOf([l]) == [l.item]
  {
  }

  lemma EntriesOf(ls: seq<Label>, i: nat)
    requires i < |ls|
    ensures multiset(AllEntries(ls)) == multiset(LabelEntries(ls[i])) + multiset(AllEntries(Without(ls, i)))
    ensures multiset(ItemsOf(ls)) == multiset{ls[i].item} + multiset(ItemsOf(Without(ls, i)))
  {
    hide LabelEntries, AllEntries, ItemsOf;
    var a, l, b := ls[..i], [ls[i]], ls[i + 1..];
    assert ls == a + (l + b);
    OneLabel(ls[i]);
    EntriesConcat(a, b);
    EntriesConcat(l, b);
    EntriesConcat(a, l + b);
    ItemsConcat(a, b);
    ItemsConcat(l, b);
    ItemsConcat(a, l + b);
  }

  lemma WithoutDisjoint(ls: seq<Label>, i: nat)
    requires i < |ls|
    ensures Disjoint(ls) <==> Disjoint(Without(ls, i)) && forall j :: 0 <= j < |ls| && j != i ==> !Overlap(ls[i].item, ls[j].item)
  {
    var w := Without(ls, i);
    assert forall j :: 0 <= j < |w| ==> w[j] == ls[if j < i then j else j + 1];
    if Disjoint(w) && forall j :: 0 <= j < |ls| && j != i ==> !Overlap(ls[i].item, ls[j].item) {
      forall j, k | 0 <= j < k < |ls|
        ensures !Overlap(ls[j].item, ls[k].item)
      {
        if j != i && k != i {
          assert ls[j] == w[if j < i then j else j - 1] && ls[k] == w[if k < i then k else k - 1];
        }
      }
    }
  }

  ghost predicate Collected(ls: seq<Label>, es: seq<Entry>) {
    && (forall i :: 0 <= i < |ls| ==> ProperLabel(ls[i]))
    && SortedEntries(es) && multiset(es) == multiset(AllEntries(ls))
  }

  /** The first entries belong to one label, and the others to the other labels. */
  lemma FirstLabel(ls: seq<Label>, es: seq<Entry>) returns (i: nat)
    requires Collected(ls, es) && es != []
    requires es[0].addr == RANGE_START && |es| > 1 ==> CheckPair(es[0], es[1]) == None
    ensures i < |ls| && LabelEntries(ls[i]) <= es && ls[i].item.lo == es[0].key
    ensures Collected(Without(ls, i), es[|LabelEntries(ls[i])|..])
  {
    i := LabelAt(ls, es, 0);
    FirstNotEnd(ls, es, i);
    if !Single(ls[i].item) {
      var end := LabelEntries(ls[i])[1];
      EntryIn(es, end, ls, i);
      i := LabelAt(ls, es, 1);
      EntryIn(es, LabelEntries(ls[i])[0], ls, i);
    }
    LabelGone(ls, es, i);
  }

  lemma LabelAt(ls: seq<Label>, es: seq<Entry>, k: nat) returns (i: nat)
    requires Collected(ls, es) && k < |es|
    ensures i < |ls| && es[k] in LabelEntries(ls[i])
  {
    assert es[k] in multiset(es);
    i := LabelOf(ls, es[k]);
  }

  lemma FirstNotEnd(ls: seq<Label>, es: seq<Entry>, i: nat)
    requires Collected(ls, es) && es != [] && i < |ls| && es[0] in LabelEntries(ls[i])
    ensures es[0] == LabelEntries(ls[i])[0]
  {
    EntryIn(es, LabelEntries(ls[i])[0], ls, i);
  }

  lemma LabelGone(ls: seq<Label>, es: seq<Entry>, i: nat)
    requires Collected(ls, es) && i < |ls| && LabelEntries(ls[i]) <= es
    ensures Collected(Without(ls, i), es[|LabelEntries(ls[i])|..])
  {
    hide LabelEntries, AllEntries, ProperLabel;
    EntriesOf(ls, i);
    var k := |LabelEntries(ls[i])|;
    assert LabelEntries(ls[i]) == es[..k];
    assert es == es[..k] + es[k..];
    Cancel(multiset(es[..k]), multiset(es[k..]), multiset(AllEntries(Without(ls, i))));
    OthersProper(ls, i);
  }

  lemma OthersProper(ls: seq<Label>, i: nat)
    requires i < |ls| && forall j :: 0 <= j < |ls| ==> ProperLabel(ls[j])
    ensures forall j :: 0 <= j < |Without(ls, i)| ==> ProperLabel(Without(ls, i)[j])
  {
    hide ProperLabel;
    forall j | 0 <= j < |Without(ls, i)|
      ensures ProperLabel(Without(ls, i)[j])
    {
      assert Without(ls, i)[j] == ls[if j < i then j else j + 1];
    }
  }

  lemma Cancel(a: multiset<Entry>, x: multiset<Entry>, y: multiset<Entry>)
    requires a + x == a + y
    ensures x == y
  {
    forall e: Entry
      ensures x[e] == y[e]
    {
      assert (a + x)[e] == a[e] + x[e] && (a + y)[e] == a[e] + y[e];
    }
  }

  lemma EntryIn(es: seq<Entry>, e: Entry, ls: seq<Label>, i: nat)
    requires Collected(ls, es) && i < |ls| && e in LabelEntries(ls[i])
    ensures e in es && (es != [] ==> es[0].key <= e.key)
  {
    hide LabelEntries, AllEntries, ProperLabel;
    EntriesOf(ls, i);
    assert e in multiset(es);
  }

  /** The entries that belong to other labels than the `i`-th. */
  lemma OtherEntry(ls: seq<Label>, es: seq<Entry>, i: nat, k: nat) returns (j: nat)
    requires Collected(ls, es) && i < |ls| && LabelEntries(ls[i]) <= es && |LabelEntries(ls[i])| <= k < |es|
    ensures j < |ls| && j != i && es[k] in LabelEntries(ls[j])
  {
    LabelGone(ls, es, i);
    var n := |LabelEntries(ls[i])|;
    assert es[k] == es[n..][k - n];
    var m := LabelAt(Without(ls, i), es[n..], k - n);
    j := if m < i then m else m + 1;
  }

  /** What the scan tells about the labels. */
  ghost predicate Found(ls: seq<Label>, es: seq<Entry>) {
    && (Scan(es).Ok? <==> Disjoint(ls))
    && (Scan(es).Ok? ==>
          && Ascending(Scan(es).value) && multiset(Scan(es).value) == multiset(ItemsOf(ls))
          && (es != [] ==> Scan(es).value != [] && Scan(es).value[0].lo == es[0].key))
  }

  /** The sorted entries are scanned without an error if and only if no two labels overlap, and then
      the labels themselves are what is read off. */
  lemma {:induction false} ScanIff(ls: seq<Label>, es: seq<Entry>)
    requires Collected(ls, es)
    ensures Scan(es).Ok? <==> Disjoint(ls)
    ensures Scan(es).Ok? ==> Ascending(Scan(es).value) && multiset(Scan(es).value) == multiset(ItemsOf(ls))
    ensures Scan(es).Ok? && es != [] ==> Scan(es).value != [] && Scan(es).value[0].lo == es[0].key
    decreases |es|
  {
    if es == [] {
    } else if es[0].addr == RANGE_START && |es| > 1 && CheckPair(es[0], es[1]).Some? {
      StartOverlaps(ls, es);
    } else {
      hide Collected, Scan, Disjoint, Ascending;
      var i := FirstLabel(ls, es);
      ScanIff(Without(ls, i), es[|LabelEntries(ls[i])|..]);
      ScanStep(ls, es, i);
    }
  }

  lemma OneMoreItem(x: Item, rest: seq<Item>)
    ensures multiset([x] + rest) == multiset{x} + multiset(rest)
  {
  }

  lemma AfterScan(last: Entry, es: seq<Entry>)
    ensures es != [] && CheckPair(last, es[0]).Some? ==> ScanAfter(last, es).Err?
    ensures !(es != [] && CheckPair(last, es[0]).Some?) ==> ScanAfter(last, es) == Scan(es)
  {
  }

  lemma ScanStep(ls: seq<Label>, es: seq<Entry>, i: nat)
    requires Collected(ls, es) && i < |ls| && LabelEntries(ls[i]) <= es
    requires es[0].addr == RANGE_START ==> |es| > 1 && CheckPair(es[0], es[1]) == None
    requires Found(Without(ls, i), es[|LabelEntries(ls[i])|..])
    ensures Found(ls, es)
  {
    hide Scan, ScanAfter, Disjoint, AllEntries, ItemsOf, LabelEntries, ProperLabel, SortedEntries, Ascending;
    var n := |LabelEntries(ls[i])|;
    WithoutDisjoint(ls, i);
    EntriesOf(ls, i);
    ScanFirst(ls, es, i);
    AfterScan(es[n - 1], es[n..]);
    if |es| > n && CheckPair(es[n - 1], es[n]).Some? {
      LaterOverlaps(ls, es, i);
    } else {
      OthersAbove(ls, es, i);
      if Scan(es[n..]).Ok? {
        FirstAscends(ls, es, i);
        var rest := Scan(es[n..]).value;
        assert Scan(es).value == [ls[i].item] + rest;
        OneMoreItem(ls[i].item, rest);
      }
    }
  }

  lemma FirstAscends(ls: seq<Label>, es: seq<Entry>, i: nat)
    requires Collected(ls, es) && i < |ls| && LabelEntries(ls[i]) <= es
    requires var n := |LabelEntries(ls[i])|; |es| > n ==> CheckPair(es[n - 1], es[n]) == None
    requires var n := |LabelEntries(ls[i])|;
             && Scan(es[n..]).Ok? && Ascending(Scan(es[n..]).value)
             && (es[n..] != [] ==> Scan(es[n..]).value != [] && Scan(es[n..]).value[0].lo == es[n].key)
    ensures Ascending([ls[i].item] + Scan(es[|LabelEntries(ls[i])|..]).value)
  {
    hide AllEntries, LabelEntries;
    var n := |LabelEntries(ls[i])|;
    var rest := Scan(es[n..]).value;
    if es[n..] == [] {
      assert rest == [];
    } else {
      assert ls[i].item.hi == es[n - 1].key < es[n].key;
      assert forall j :: 0 < j < |rest| ==> rest[0].hi < rest[j].lo;
    }
  }

  lemma LaterOverlaps(ls: seq<Label>, es: seq<Entry>, i: nat)
    requires Collected(ls, es) && i < |ls| && LabelEntries(ls[i]) <= es
    requires var n := |LabelEntries(ls[i])|; |es| > n && CheckPair(es[n - 1], es[n]).Some?
    ensures !Disjoint(ls)
  {
    var n := |LabelEntries(ls[i])|;
    var j := OtherEntry(ls, es, i, n);
    OverlapSeen(ls, i, j);
  }

  lemma ScanFirst(ls: seq<Label>, es: seq<Entry>, i: nat)
    requires i < |ls| && ProperLabel(ls[i]) && LabelEntries(ls[i]) <= es
    requires es[0].addr == RANGE_START ==> |es| > 1 && CheckPair(es[0], es[1]) == None
    ensures Scan(es) == Prepend([ls[i].item], ScanAfter(es[|LabelEntries(ls[i])| - 1], es[|LabelEntries(ls[i])|..]))
  {
  }

  /** An error at the second entry: it belongs to another label, which starts within the first one. */
  lemma StartOverlaps(ls: seq<Label>, es: seq<Entry>)
    requires Collected(ls, es) && |es| > 1 && es[0].addr == RANGE_START && CheckPair(es[0], es[1]).Some?
    ensures !Disjoint(ls)
  {
    hide AllEntries, Disjoint;
    var i := LabelAt(ls, es, 0);
    FirstNotEnd(ls, es, i);
    var own := LabelEntries(ls[i]);
    EntryIn(es, own[1], ls, i);
    var k :| 0 <= k < |es| && es[k] == own[1];
    assert es[1].key <= ls[i].item.hi;
    var j := SecondLabel(ls, es, i);
    OverlapSeen(ls, i, j);
  }

  lemma SecondLabel(ls: seq<Label>, es: seq<Entry>, i: nat) returns (j: nat)
    requires Collected(ls, es) && |es| > 1 && i < |ls| && |LabelEntries(ls[i])| == 2
    requires es[0] == LabelEntries(ls[i])[0] && es[1] != LabelEntries(ls[i])[1]
    ensures j < |ls| && j != i && es[1] in LabelEntries(ls[j])
  {
    hide LabelEntries, AllEntries;
    EntriesOf(ls, i);
    SecondOther(es, LabelEntries(ls[i]), AllEntries(Without(ls, i)));
    var m := LabelOf(Without(ls, i), es[1]);
    j := if m < i then m else m + 1;
  }

  lemma OverlapSeen(ls: seq<Label>, i: nat, j: nat)
    requires i < |ls| && j < |ls| && i != j && Overlap(ls[i].item, ls[j].item)
    ensures !Disjoint(ls)
  {
    if i < j {
      assert Overlap(ls[i].item, ls[j].item);
    } else {
      assert Overlap(ls[j].item, ls[i].item);
    }
  }

  lemma SecondOther(es: seq<Entry>, own: seq<Entry>, others: seq<Entry>)
    requires multiset(es) == multiset(own) + multiset(others) && |es| > 1 && |own| == 2 && es[0] == own[0] && es[1] != own[1]
    ensures es[1] in others
  {
    assert es == [es[0], es[1]] + es[2..];
    assert own == [own[0], own[1]];
    assert multiset(es)[es[1]] >= 1 && (es[1] == es[0] ==> multiset(es)[es[1]] >= 2);
    assert multiset(others)[es[1]] >= 1;
  }

  lemma OthersAbove(ls: seq<Label>, es: seq<Entry>, i: nat)
    requires Collected(ls, es) && i < |ls| && LabelEntries(ls[i]) <= es
    requires var n := |LabelEntries(ls[i])|; |es| > n ==> CheckPair(es[n - 1], es[n]) == None
    ensures forall j :: 0 <= j < |ls| && j != i ==> ls[i].item.hi < ls[j].item.lo
  {
    LabelGone(ls, es, i);
    var n := |LabelEntries(ls[i])|;
    var w := Without(ls, i);
    forall j | 0 <= j < |ls| && j != i
      ensures ls[i].item.hi < ls[j].item.lo
    {
      var m := if j < i then j else j - 1;
      assert w[m] == ls[j];
      EntryIn(es[n..], LabelEntries(w[m])[0], w, m);
    }
  }

  // ----- what an error says

  ghost predicate SameKey(a: Label, b: Label, line: int, other: int) {
    exists e, f :: e in LabelEntries(a) && f in LabelEntries(b) && e.key == f.key && e.line == line && f.line == other
  }

  /** Two labels have a first or last key in common; or the second starts in the range of the first. The lines are where they
      stand, 0 for the end of a range. */
  ghost predicate Clash(a: Label, b: Label, err: CaseError) {
    match err
    case DuplicateCase(line, other) => SameKey(a, b, line, other)
    case DiscontinuedRange(line, other) => a.item.lo < b.item.lo <= a.item.hi && a.line == line && b.line == other
  }

  ghost predicate Reports(ls: seq<Label>, err: CaseError) {
    exists i, j :: 0 <= i < |ls| && 0 <= j < |ls| && i != j && Clash(ls[i], ls[j], err)
  }

  /** An error is one that is met between two neighbours. */
  lemma {:induction false} ScanFailsAt(es: seq<Entry>) returns (k: nat)
    requires Scan(es).Err?
    ensures 0 < k < |es| && CheckPair(es[k - 1], es[k]) == Some(Scan(es).error)
    decreases |es|
  {
    if es[0].addr == RANGE_START && CheckPair(es[0], es[1]).Some? {
      k := 1;
    } else {
      var n := if es[0].addr == RANGE_START then 2 else 1;
      if CheckPair(es[n - 1], es[n]).Some? {
        k := n;
      } else {
        var m := ScanFailsAt(es[n..]);
        assert es[n..][m - 1] == es[n + m - 1];
        k := n + m;
      }
    }
  }

  /** One of two equal entries belongs to another label. */
  lemma AnotherLabel(ls: seq<Label>, es: seq<Entry>, i: nat, k: nat) returns (j: nat)
    requires Collected(ls, es) && i < |ls| && 0 < k < |es| && es[k - 1] == es[k] && es[k] in LabelEntries(ls[i])
    ensures j < |ls| && j != i && es[k] in LabelEntries(ls[j])
  {
    hide AllEntries, ProperLabel, SortedEntries, LabelEntries;
    EntriesOf(ls, i);
    OnceOnly(ls[i], es[k]);
    Twice(es, k);
    assert multiset(AllEntries(Without(ls, i)))[es[k]] >= 1;
    var m := LabelOf(Without(ls, i), es[k]);
    j := if m < i then m else m + 1;
  }

  lemma OnceOnly(l: Label, e: Entry)
    ensures multiset(LabelEntries(l))[e] <= 1
  {
  }

  lemma Twice(es: seq<Entry>, k: nat)
    requires 0 < k < |es| && es[k - 1] == es[k]
    ensures multiset(es)[es[k]] >= 2
  {
    assert es == es[..k - 1] + ([es[k - 1]] + ([es[k]] + es[k + 1..]));
  }

  lemma DuplicateReported(ls: seq<Label>, es: seq<Entry>, k: nat)
    requires Collected(ls, es) && 0 < k < |es| && es[k - 1].key == es[k].key
    ensures Reports(ls, DuplicateCase(es[k - 1].line, es[k].line))
  {
    hide Collected, LabelEntries;
    var i := LabelAt(ls, es, k - 1);
    var j := LabelAt(ls, es, k);
    if i == j {
      SameEntry(ls[i], es[k - 1], es[k]);
      j := AnotherLabel(ls, es, i, k);
    }
    assert SameKey(ls[i], ls[j], es[k - 1].line, es[k].line);
    assert Clash(ls[i], ls[j], DuplicateCase(es[k - 1].line, es[k].line));
  }

  lemma SameEntry(l: Label, e: Entry, f: Entry)
    requires e in LabelEntries(l) && f in LabelEntries(l) && e.key == f.key
    ensures e == f
  {
  }

  lemma DiscontinuedReported(ls: seq<Label>, es: seq<Entry>, k: nat)
    requires Collected(ls, es) && 0 < k < |es| && es[k - 1].key != es[k].key && es[k - 1].addr == RANGE_START && es[k].line != 0
    ensures Reports(ls, DiscontinuedRange(es[k - 1].line, es[k].line))
  {
    hide AllEntries;
    var i := LabelAt(ls, es, k - 1);
    var j := LabelAt(ls, es, k);
    assert ProperLabel(ls[i]) && ProperLabel(ls[j]);
    var end := LabelEntries(ls[i])[1];
    EntryIn(es, end, ls, i);
    var m :| 0 <= m < |es| && es[m] == end;
    assert m > k;
    assert Clash(ls[i], ls[j], DiscontinuedRange(es[k - 1].line, es[k].line));
  }

  /** An error names two labels that clash. */
  lemma ErrorReported(ls: seq<Label>, es: seq<Entry>)
    requires Collected(ls, es) && Scan(es).Err?
    ensures Reports(ls, Scan(es).error)
  {
    hide Collected, Scan, Reports;
    var k := ScanFailsAt(es);
    if es[k].key == es[k - 1].key {
      DuplicateReported(ls, es, k);
    } else {
      DiscontinuedReported(ls, es, k);
    }
  }

  // ----- joining adjacent items

  /** The joined items; `start` is the first item of the run of adjacent items with one address that ends the list. */
  datatype Joined = Joined(items: seq<Item>, start: nat)

  predicate Follows(items: seq<Item>, n: Item) {
    items != [] && items[|items| - 1].hi + 1 == n.lo && items[|items| - 1].addr == n.addr
  }

  /** Two adjacent single cases are left alone: a range would take as many entries. */
  function Join(j: Joined, n: Item): Joined
    requires j.items != [] ==> j.start < |j.items|
  {
    if !Follows(j.items, n) then Joined(j.items + [n], |j.items|)
    else if Single(n) && j.start == |j.items| - 1 && Single(j.items[j.start]) then j.(items := j.items + [n])
    else j.(items := j.items[..j.start] + [Item(j.items[j.start].lo, n.hi, n.addr)])
  }

  function JoinAll(items: seq<Item>): (j: Joined)
    ensures items != [] ==> j.items != []
    ensures j.items != [] ==> j.start < |j.items|
  {
    if items == [] then Joined([], 0) else Join(JoinAll(items[..|items| - 1]), items[|items| - 1])
  }

  /** The run of adjacent items that ends the list: one item, or two single cases. */
  predicate WellJoined(j: Joined) {
    && Ascending(j.items)
    && (j.items == [] ||
        (var n := |j.items|;
         j.start == n - 1 ||
         (j.start == n - 2 && j.start >= 0 && Single(j.items[n - 2]) && Single(j.items[n - 1]) && Follows(j.items[..n - 1], j.items[n - 1]))))
  }

  lemma FindAppended(items: seq<Item>, n: Item, key: int)
    ensures Find(items + [n], key) == if n.lo <= key <= n.hi then Some(n.addr) else Find(items, key)
  {
    assert (items + [n])[..|items|] == items;
  }

  lemma AppendAscends(items: seq<Item>, n: Item)
    requires Ascending(items) && n.lo <= n.hi && (items != [] ==> items[|items| - 1].hi < n.lo)
    ensures Ascending(items + [n])
  {
  }

  /** The run that ends the list covers the keys from its first item to its last one. */
  lemma RunFinds(j: Joined, key: int)
    requires WellJoined(j) && j.items != []
    ensures var n := |j.items|;
            Find(j.items, key) == if j.items[j.start].lo <= key <= j.items[n - 1].hi then Some(j.items[n - 1].addr)
                                  else Find(j.items[..j.start], key)
  {
    var n := |j.items|;
    if j.start == n - 2 {
      assert j.items[..n - 1][..n - 2] == j.items[..n - 2];
    }
  }

  predicate EndsWith(items: seq<Item>, hi: int, addr: int) {
    items != [] && items[|items| - 1].hi == hi && items[|items| - 1].addr == addr
  }

  /** One more item changes what is found for its own keys only. */
  lemma JoinFinds(j: Joined, n: Item, key: int)
    requires WellJoined(j) && n.lo <= n.hi && (j.items != [] ==> j.items[|j.items| - 1].hi < n.lo)
    ensures WellJoined(Join(j, n)) && EndsWith(Join(j, n).items, n.hi, n.addr)
    ensures Find(Join(j, n).items, key) == if n.lo <= key <= n.hi then Some(n.addr) else Find(j.items, key)
  {
    hide Find, Ascending;
    var items := j.items;
    if !Follows(items, n) || (Single(n) && j.start == |items| - 1 && Single(items[j.start])) {
      AppendAscends(items, n);
      FindAppended(items, n, key);
      assert (items + [n])[..|items|] == items;
    } else {
      var merged := Item(items[j.start].lo, n.hi, n.addr);
      RunFinds(j, key);
      RunAscends(j);
      AppendAscends(items[..j.start], merged);
      FindAppended(items[..j.start], merged, key);
    }
  }

  lemma RunAscends(j: Joined)
    requires WellJoined(j) && j.items != []
    ensures Ascending(j.items[..j.start]) && (j.start > 0 ==> j.items[j.start - 1].hi < j.items[j.start].lo)
    ensures j.items[j.start].lo <= j.items[|j.items| - 1].hi
  {
  }

  /** Joining keeps the map from keys to addresses. */
  lemma {:induction false} JoiningKeepsMap(items: seq<Item>, key: int)
    requires Ascending(items)
    ensures Find(JoinAll(items).items, key) == Find(items, key)
    ensures WellJoined(JoinAll(items)) && Ascending(JoinAll(items).items)
    ensures items != [] ==> EndsWith(JoinAll(items).items, items[|items| - 1].hi, items[|items| - 1].addr)
  {
    if items != [] {
      var n := |items| - 1;
      JoiningKeepsMap(items[..n], key);
      JoinFinds(JoinAll(items[..n]), items[n], key);
    }
  }

  // ----- nothing more can be joined

  predicate Meets(a: Item, b: Item) {
    a.hi + 1 == b.lo && a.addr == b.addr
  }

  /** The only adjacent items with one address are pairs of single cases. */
  ghost predicate Maximal(items: seq<Item>) {
    forall i {:trigger items[i]} :: 0 < i < |items| && Meets(items[i - 1], items[i]) ==>
      Single(items[i - 1]) && Single(items[i]) && (i > 1 ==> !Meets(items[i - 2], items[i - 1]))
  }

  ghost predicate RunApart(j: Joined) {
    j.items != [] && 0 < j.start < |j.items| ==> !Meets(j.items[j.start - 1], j.items[j.start])
  }

  lemma AppendMaximal(items: seq<Item>, n: Item)
    requires Maximal(items)
    requires items != [] && Meets(items[|items| - 1], n) ==>
               Single(items[|items| - 1]) && Single(n) && (|items| > 1 ==> !Meets(items[|items| - 2], items[|items| - 1]))
    ensures Maximal(items + [n])
  {
    var m := items + [n];
    forall i | 0 < i < |m| && Meets(m[i - 1], m[i])
      ensures Single(m[i - 1]) && Single(m[i]) && (i > 1 ==> !Meets(m[i - 2], m[i - 1]))
    {
      if i < |items| {
        assert m[i] == items[i];
      }
    }
  }

  lemma PrefixMaximal(items: seq<Item>, n: nat)
    requires Maximal(items) && n <= |items|
    ensures Maximal(items[..n])
  {
    forall i | 0 < i < n && Meets(items[..n][i - 1], items[..n][i])
      ensures Single(items[..n][i - 1]) && Single(items[..n][i]) && (i > 1 ==> !Meets(items[..n][i - 2], items[..n][i - 1]))
    {
      assert items[..n][i] == items[i];
    }
  }

  lemma JoinMaximal(j: Joined, n: Item)
    requires WellJoined(j) && Maximal(j.items) && RunApart(j) && (j.items != [] ==> j.start < |j.items|)
    ensures Maximal(Join(j, n).items) && RunApart(Join(j, n))
  {
    hide Ascending, Maximal;
    var items := j.items;
    if !Follows(items, n) || (Single(n) && j.start == |items| - 1 && Single(items[j.start])) {
      AppendMaximal(items, n);
    } else {
      PrefixMaximal(items, j.start);
      AppendMaximal(items[..j.start], Item(items[j.start].lo, n.hi, n.addr));
    }
  }

  /** Joining leaves nothing that could be joined further. */
  lemma {:induction false} JoiningMaximal(items: seq<Item>)
    requires Ascending(items)
    ensures Maximal(JoinAll(items).items) && RunApart(JoinAll(items))
  {
    hide Ascending;
    if items != [] {
      var n := |items| - 1;
      assert Ascending(items[..n]) by { PrefixAscends(items, n); }
      JoiningMaximal(items[..n]);
      JoiningKeepsMap(items[..n], 0);
      JoinMaximal(JoinAll(items[..n]), items[n]);
    }
  }

  lemma PrefixAscends(items: seq<Item>, n: nat)
    requires Ascending(items) && n <= |items|
    ensures Ascending(items[..n])
  {
  }
}
