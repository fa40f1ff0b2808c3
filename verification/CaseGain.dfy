/** The choice of the stretches of case labels for which a lookup table saves space. */
module CaseGain {
  import opened Wrappers
  import opened CaseSort
  import opened CaseRanges
  import opened CaseJoin
  import opened CaseSearch
  import opened CaseTable

  const PINT_MAX := 0x7fff_ffff_ffff_ffff

  /** The bytes of the tables v and o that one entry takes. */
  function EntrySize(len: nat): nat {
    PINT_SIZE + len
  }

  /** The bytes saved if a table is written for `keys` entries that span `span` keys. */
  function Gain(keys: nat, span: int, len: nat): int {
    keys * PINT_SIZE - (span - keys) * len
  }

  function Cutoff(len: nat): nat {
    2 * PINT_SIZE + 2 * len
  }

  /** A table that gains enough makes up for its own bytes and for the two entries that are left of it. */
  lemma GainPays(keys: nat, span: int, len: nat)
    requires Gain(keys, span, len) >= Cutoff(len)
    ensures span * len + 2 * EntrySize(len) <= keys * EntrySize(len)
  {
    assert (span - keys) * len == span * len - keys * len;
    assert keys * EntrySize(len) == keys * PINT_SIZE + keys * len;
  }

  /** Write the table for the entries `m` and leave only the first and the last of them in the list. */
  method StoreTable(list0: CaseEntry?, tableStart: CaseEntry, tableEnd: CaseEntry, code0: Code, default: int, len: nat,
                    ghost d: Entries, ghost m: Entries, ghost tail: Entries, ghost items: seq<Item>)
    returns (code: Code, removed: nat)
    requires List(list0, d + m + tail) && Represents(m, items) && Ascending(items) && Addresses(items, default, len)
    requires |m| > 1 && items != [] && m[0] == tableStart && m[|m| - 1] == tableEnd && |code0| > RANGE_START && Fits(|code0|, len)
    modifies tableStart`addr, tableStart`next, tableEnd`addr
    ensures List(list0, d + [tableStart, tableEnd] + tail)
    ensures var t := Table(items[0].lo, items[|items| - 1].hi, |code0|);
            SlotNodes([tableStart, tableEnd], t) && Implements(t, items, code, len, default)
    ensures code0 <= code && |code| == |code0| + (items[|items| - 1].hi - items[0].lo + 1) * len
    ensures removed == |m| - 2
  {
    hide Represents, Ascending, Addresses, FindOr, Written, List, Implements;
    ghost var behind := First(tail, null);
    Bounds(m, items);
    TableWidth(m, items);
    MiddleLinked(list0, d, m, tail);
    MiddlePlaces(list0, d, m, tail);
    code, removed := WriteTable(tableStart, tableEnd, default, len, code0, m, items, behind);
    removed := removed - 1;
    ghost var s := d + m + tail;
    LinkTo(list0, tableStart, tableEnd, s, |d|, |d| + |m| - 1);
    MarkTable(list0, tableStart, tableEnd, |code0|, s[..|d| + 1] + s[|d| + |m| - 1..]);
    assert s[..|d| + 1] == d + [tableStart] && s[|d| + |m| - 1..] == [tableEnd] + tail;
    assert d + [tableStart] + ([tableEnd] + tail) == d + [tableStart, tableEnd] + tail;
    TableWritten(code, |code0|, items, default, len);
  }

  lemma TableWidth(m: Entries, items: seq<Item>)
    requires Represents(m, items) && |m| > 1 && items != [] && Ascending(items)
    ensures items[0].lo < items[|items| - 1].hi
  {
    ItemIn(m, items, |items|);
    if |items| == 1 {
      assert Pos(items, 1) == ItemWidth(items[0]);
    }
  }

  lemma TableWritten(code: Code, at: nat, items: seq<Item>, default: int, len: nat)
    requires items != [] && at > RANGE_START && Fits(at, len) && items[0].lo < items[|items| - 1].hi
    requires Written(code, at, items, default, len, items[0].lo, items[|items| - 1].hi + 1)
    ensures Implements(Table(items[0].lo, items[|items| - 1].hi, at), items, code, len, default)
    ensures |code| == at + (items[|items| - 1].hi - items[0].lo + 1) * len
  {
    assert items[|items| - 1].hi + 1 - items[0].lo == items[|items| - 1].hi - items[0].lo + 1;
  }

  lemma MiddleLinked(list0: CaseEntry?, d: Entries, m: Entries, tail: Entries)
    requires List(list0, d + m + tail) && m != []
    ensures Linked(m, First(tail, null))
  {
    var s := d + m + tail;
    assert forall i :: 0 <= i < |m| ==> s[|d| + i] == m[i];
    if tail != [] {
      assert s[|d| + |m|] == tail[0];
    }
    LinkAt(s, |d| + |m| - 1);
  }

  lemma MiddlePlaces(list0: CaseEntry?, d: Entries, m: Entries, tail: Entries)
    requires List(list0, d + m + tail) && |m| > 1
    ensures var s := d + m + tail; s[|d|] == m[0] && s[|d| + |m| - 1] == m[|m| - 1] && m[0] != m[|m| - 1]
  {
    var s := d + m + tail;
    assert s[|d|] == m[0] && s[|d| + |m| - 1] == m[|m| - 1];
  }

  method MarkTable(list0: CaseEntry?, tableStart: CaseEntry, tableEnd: CaseEntry, at: nat, ghost s: Entries)
    requires List(list0, s) && tableStart != tableEnd
    modifies tableStart`addr, tableEnd`addr
    ensures List(list0, s) && tableStart.addr == LOOKUP && tableEnd.addr == at
  {
    tableEnd.addr := at;
    tableStart.addr := LOOKUP;
  }

  // ----- the search for tables

  /** The same items, their addresses adapted to the size of the offsets. */
  function Shifted(items: seq<Item>, n: int): (r: seq<Item>)
    ensures |r| == |items| && forall i :: 0 <= i < |r| ==> r[i] == items[i].(addr := items[i].addr + n)
  {
    seq(|items|, i requires 0 <= i < |items| => items[i].(addr := items[i].addr + n))
  }

  /** Where the search stands: the slots `done` with their entries `d`, the items `cur` with the entries `c` that may become
      a table, the start of a range, `pending`, and what is left of the list. `parts` are the items of each slot. */
  datatype Progress = Progress(d: Entries, done: seq<Slot>, parts: seq<seq<Item>>, c: Entries, cur: seq<Item>, pending: Entries,
                               rest: Entries, restItems: seq<Item>)

  ghost predicate Chain(list0: CaseEntry?, p: Progress)
    reads p.d, p.c, p.pending, p.rest
  {
    && List(list0, p.d + (p.c + p.pending) + p.rest)
    && RepresentsSlots(p.d, p.done) && Represents(p.c, p.cur) && Represents(p.pending + p.rest, p.restItems)
    && (if p.pending == [] then true else |p.pending| == 1 && p.restItems != [] && !Single(p.restItems[0]))
  }

  /** Nothing has been lost, and the tables that have been written are right. */
  ghost predicate Sound(p: Progress, all: seq<Item>, code: Code, len: nat, default: int) {
    && AllImplement(p.done, p.parts, code, len, default)
    && Flatten(p.parts) + p.cur + Shifted(p.restItems, len - 1) == all
    && Ascending(all) && Addresses(all, default, len)
  }

  /** All offsets fit: code and tables take no more bytes than the limit. */
  predicate Affordable(keyNum: nat, code: Code, len: nat) {
    1 <= len <= 3 && |code| > RANGE_START && Fits(|code| + keyNum * EntrySize(len), len)
  }

  /** The same with the item `it`, whose entries are `t`, between the current items and the rest. */
  ghost predicate ChainWith(list0: CaseEntry?, p: Progress, t: Entries, it: Item)
    reads p.d, p.c, p.rest, t
  {
    && p.pending == [] && List(list0, p.d + (p.c + t) + p.rest)
    && RepresentsSlots(p.d, p.done) && Represents(p.c, p.cur) && Represents(t, [it]) && Represents(p.rest, p.restItems)
  }

  ghost predicate SoundWith(p: Progress, it: Item, all: seq<Item>, code: Code, len: nat, default: int) {
    && AllImplement(p.done, p.parts, code, len, default)
    && Flatten(p.parts) + p.cur + [it] + Shifted(p.restItems, len - 1) == all
    && Ascending(all) && Addresses(all, default, len)
  }

  function Pushed(p: Progress): Progress
    requires p.rest != []
  {
    p.(pending := [p.rest[0]], rest := p.rest[1..])
  }

  lemma StartIsRange(rest: Entries, items: seq<Item>)
    requires Represents(rest, items) && rest != [] && Real(items)
    ensures items != [] && (rest[0].addr == RANGE_START <==> !Single(items[0])) && (rest[0].addr == RANGE_START ==> |rest| > 1)
    ensures if rest[0].addr == RANGE_START then RangeNodes(rest[0], rest[1], items[0]) && Represents(rest[2..], items[1..])
            else SingleNode(rest[0], items[0]) && Represents(rest[1..], items[1..])
  {
    assert items[0].addr > RANGE_START;
  }

  /** The start of a range waits for its end. */
  lemma StartPends(list0: CaseEntry?, p: Progress, all: seq<Item>, code: Code, len: nat, default: int)
    requires Chain(list0, p) && p.pending == [] && p.rest != [] && p.rest[0].addr == RANGE_START && Real(p.restItems)
    ensures Chain(list0, Pushed(p)) && |Pushed(p).rest| > 0
    ensures Sound(p, all, code, len, default) ==> Sound(Pushed(p), all, code, len, default)
  {
    hide List, RepresentsSlots, Represents, AllImplement, Flatten, Ascending, Addresses, Real;
    var e := p.rest[0];
    assert p.d + (p.c + []) + p.rest == p.d + (p.c + [e]) + p.rest[1..];
    assert [] + p.rest == p.rest == [e] + p.rest[1..];
    StartIsRange(p.rest, p.restItems);
  }

  function Completed(p: Progress): Progress
    requires p.rest != [] && p.restItems != []
  {
    p.(pending := [], rest := p.rest[1..], restItems := p.restItems[1..])
  }

  lemma NextApart(list0: CaseEntry?, p: Progress)
    requires Chain(list0, p) && p.rest != []
    ensures p.rest[0] !in p.d && p.rest[0] !in p.c && p.rest[0] !in p.pending && p.rest[0] !in p.rest[1..]
  {
    var s := p.d + (p.c + p.pending) + p.rest;
    var k := |p.d + (p.c + p.pending)|;
    assert s[k] == p.rest[0];
    assert forall i :: 0 <= i < |p.d| ==> s[i] == p.d[i];
    assert forall i :: 0 <= i < |p.c| ==> s[|p.d| + i] == p.c[i];
    assert forall i :: 0 <= i < |p.pending| ==> s[|p.d| + |p.c| + i] == p.pending[i];
    assert forall i :: 0 < i < |p.rest| ==> s[k + i] == p.rest[i];
  }

  lemma NextMoves(p: Progress)
    requires p.rest != []
    ensures (p.pending + p.rest)[|p.pending| + 1..] == p.rest[1..]
    ensures p.d + (p.c + p.pending) + p.rest == p.d + (p.c + (p.pending + [p.rest[0]])) + p.rest[1..]
  {
  }

  lemma ItemMoves(before: seq<Item>, cur: seq<Item>, items: seq<Item>, n: nat)
    requires items != []
    ensures var it := items[0].(addr := items[0].addr + n);
            before + cur + Shifted(items, n) == before + cur + [it] + Shifted(items[1..], n)
  {
    var it := items[0].(addr := items[0].addr + n);
    assert Shifted(items, n) == [it] + Shifted(items[1..], n);
    hide Shifted;
    Regroup(before + cur, [it], Shifted(items[1..], n));
  }

  lemma Regroup(a: seq<Item>, b: seq<Item>, c: seq<Item>)
    ensures a + (b + c) == a + b + c
  {
  }

  /** Adapt the address of a single case or a range. */
  method Adapt(list0: CaseEntry?, e: CaseEntry, n: nat, ghost p: Progress, ghost all: seq<Item>, ghost code: Code, ghost default: int)
    returns (ghost it: Item)
    requires Chain(list0, p) && p.rest != [] && e == p.rest[0] && Real(p.restItems) && (p.pending == [] ==> e.addr != RANGE_START)
    requires Sound(p, all, code, n + 1, default)
    modifies e`addr
    ensures p.restItems != [] && it == p.restItems[0].(addr := p.restItems[0].addr + n)
    ensures ChainWith(list0, Completed(p), p.pending + [e], it) && SoundWith(Completed(p), it, all, code, n + 1, default)
    ensures Real(p.restItems[1..])
  {
    hide Shifted, Distinct, RepresentsSlots, Represents, AllImplement, Flatten, Ascending, Addresses;
    StartIsRange(p.pending + p.rest, p.restItems);
    NextApart(list0, p);
    it := p.restItems[0].(addr := p.restItems[0].addr + n);
    NextMoves(p);
    ItemMoves(Flatten(p.parts), p.cur, p.restItems, n);
    e.addr := e.addr + n;
    OneItem(p.pending + [e], it);
  }

  lemma OneItem(t: Entries, it: Item)
    requires if Single(it) then |t| == 1 && SingleNode(t[0], it) else |t| == 2 && RangeNodes(t[0], t[1], it)
    ensures Represents(t, [it])
  {
  }

  /** The item joins those that may become a table. */
  function Grown(p: Progress, t: Entries, it: Item): Progress {
    p.(c := p.c + t, cur := p.cur + [it])
  }

  lemma Grow(list0: CaseEntry?, p: Progress, t: Entries, it: Item, all: seq<Item>, code: Code, len: nat, default: int)
    requires ChainWith(list0, p, t, it) && SoundWith(p, it, all, code, len, default)
    ensures Chain(list0, Grown(p, t, it)) && Sound(Grown(p, t, it), all, code, len, default)
  {
    hide List, RepresentsSlots, Represents, AllImplement, Flatten, Ascending, Addresses, Shifted;
    RepresentsConcat(p.c, p.cur, t, [it]);
    assert p.d + (p.c + t) + p.rest == p.d + (p.c + t + []) + p.rest;
    assert [] + p.rest == p.rest;
    assert Flatten(p.parts) + p.cur + [it] == Flatten(p.parts) + (p.cur + [it]);
  }

  /** The items before `it` stay as they are; `it` may be the first of a table. */
  function Flushed(p: Progress, t: Entries, it: Item): Progress {
    p.(d := p.d + p.c, done := p.done + Plains(p.cur), parts := p.parts + Singletons(p.cur), c := t, cur := [it])
  }

  lemma Flush(list0: CaseEntry?, p: Progress, t: Entries, it: Item, all: seq<Item>, code: Code, len: nat, default: int)
    requires ChainWith(list0, p, t, it) && SoundWith(p, it, all, code, len, default)
    ensures Chain(list0, Flushed(p, t, it)) && Sound(Flushed(p, t, it), all, code, len, default)
  {
    hide List, RepresentsSlots, Represents, Flatten, Ascending, Addresses, Shifted, Implements;
    PlainNodes(p.c, p.cur);
    SlotsConcat(p.d, p.done, p.c, Plains(p.cur));
    FlattenConcat(p.parts, Singletons(p.cur));
    FlattenSingletons(p.cur);
    assert p.d + (p.c + t) + p.rest == p.d + p.c + (t + []) + p.rest;
    assert [] + p.rest == p.rest;
    PlainsImplement(p.done, p.parts, p.cur, code, len, default);
  }

  lemma PlainsImplement(done: seq<Slot>, parts: seq<seq<Item>>, cur: seq<Item>, code: Code, len: nat, default: int)
    requires AllImplement(done, parts, code, len, default)
    ensures AllImplement(done + Plains(cur), parts + Singletons(cur), code, len, default)
  {
    forall i | 0 <= i < |done| + |cur|
      ensures Implements((done + Plains(cur))[i], (parts + Singletons(cur))[i], code, len, default)
    {
      if i >= |done| {
        assert (done + Plains(cur))[i] == Plain(cur[i - |done|]) && (parts + Singletons(cur))[i] == [cur[i - |done|]];
      }
    }
  }

  /** A table for the first `k` items. */
  ghost function Tabled(p: Progress, k: nat, tableStart: CaseEntry, tableEnd: CaseEntry, at: int): Progress
    requires 0 < k <= |p.cur| && Pos(p.cur, k) <= |p.c|
  {
    p.(d := p.d + [tableStart, tableEnd], done := p.done + [Table(p.cur[0].lo, p.cur[k - 1].hi, at)],
       parts := p.parts + [p.cur[..k]], c := p.c[Pos(p.cur, k)..], cur := p.cur[k..])
  }

  /** Write a table for the entries up to the best place that has been met. */
  method MakeTable(list0: CaseEntry?, tableStart: CaseEntry, tableEnd: CaseEntry, code0: Code, default: int, len: nat,
                   ghost p: Progress, ghost k: nat, ghost t: Entries, ghost it: Item, ghost all: seq<Item>)
    returns (code: Code, removed: nat)
    requires ChainWith(list0, p, t, it) && SoundWith(p, it, all, code0, len, default)
    requires 0 < k <= |p.cur| && 1 < Pos(p.cur, k) <= |p.c| && p.c[0] == tableStart && p.c[Pos(p.cur, k) - 1] == tableEnd
    requires |code0| > RANGE_START && Fits(|code0|, len)
    modifies tableStart`addr, tableStart`next, tableEnd`addr
    ensures removed == Pos(p.cur, k) - 2
    ensures code0 <= code && |code| == |code0| + (p.cur[k - 1].hi - p.cur[0].lo + 1) * len
    ensures var q := Tabled(p, k, tableStart, tableEnd, |code0|);
            ChainWith(list0, q, t, it) && SoundWith(q, it, all, code, len, default)
  {
    hide List, RepresentsSlots, Represents, AllImplement, Implements, Flatten, Ascending, Addresses, Shifted, SlotNodes;
    ghost var pos := Pos(p.cur, k);
    ghost var m, items, c := p.c[..pos], p.cur[..k], p.c[pos..];
    RepresentsSplit(p.c, p.cur, k);
    Segment(p, it, all, default, len, k);
    assert p.d + (p.c + t) + p.rest == p.d + m + (c + t + p.rest);
    TableApart(list0, p.d, m, c, t, p.rest);
    code, removed := StoreTable(list0, tableStart, tableEnd, code0, default, len, p.d, m, c + t + p.rest, items);
    ghost var slot := Table(items[0].lo, items[|items| - 1].hi, |code0|);
    TabledChain(list0, p, k, tableStart, tableEnd, slot, t, it);
    TabledSound(p, k, tableStart, tableEnd, it, all, code0, code, len, default);
  }

  lemma TabledChain(list0: CaseEntry?, p: Progress, k: nat, tableStart: CaseEntry, tableEnd: CaseEntry, slot: Slot, t: Entries, it: Item)
    requires 0 < k <= |p.cur| && Pos(p.cur, k) <= |p.c| && slot.Table? && p.pending == []
    requires slot.lo == p.cur[0].lo && slot.hi == p.cur[k - 1].hi
    requires List(list0, p.d + [tableStart, tableEnd] + (p.c[Pos(p.cur, k)..] + t + p.rest))
    requires RepresentsSlots(p.d, p.done) && SlotNodes([tableStart, tableEnd], slot)
    requires Represents(p.c[Pos(p.cur, k)..], p.cur[k..]) && Represents(t, [it]) && Represents(p.rest, p.restItems)
    ensures ChainWith(list0, Tabled(p, k, tableStart, tableEnd, slot.at), t, it)
  {
    hide List, RepresentsSlots, Represents, SlotNodes;
    var q := Tabled(p, k, tableStart, tableEnd, slot.at);
    assert p.d + [tableStart, tableEnd] + (p.c[Pos(p.cur, k)..] + t + p.rest) == q.d + (q.c + t) + q.rest;
    OneSlot([tableStart, tableEnd], slot);
    SlotsConcat(p.d, p.done, [tableStart, tableEnd], [slot]);
  }

  lemma TabledSound(p: Progress, k: nat, tableStart: CaseEntry, tableEnd: CaseEntry, it: Item, all: seq<Item>, code0: Code, code: Code,
                    len: nat, default: int)
    requires 0 < k <= |p.cur| && Pos(p.cur, k) <= |p.c| && SoundWith(p, it, all, code0, len, default) && code0 <= code
    requires Implements(Table(p.cur[0].lo, p.cur[k - 1].hi, |code0|), p.cur[..k], code, len, default)
    ensures SoundWith(Tabled(p, k, tableStart, tableEnd, |code0|), it, all, code, len, default)
  {
    hide AllImplement, Implements, Flatten, Ascending, Addresses, Shifted;
    var items := p.cur[..k];
    CodeGrows(p.done, p.parts, code0, code, len, default);
    OneMore(p.done, p.parts, Table(p.cur[0].lo, p.cur[k - 1].hi, |code0|), items, code, len, default);
    FlattenConcat(p.parts, [items]);
    FlattenOne(items);
    assert p.cur == items + p.cur[k..];
    assert Flatten(p.parts) + p.cur + [it] == Flatten(p.parts) + items + p.cur[k..] + [it];
  }

  lemma OneSlot(s: Entries, t: Slot)
    requires SlotNodes(s, t) && |s| == Width(t)
    ensures RepresentsSlots(s, [t])
  {
    assert s[..|s|] == s;
  }

  lemma OneMore(done: seq<Slot>, parts: seq<seq<Item>>, t: Slot, part: seq<Item>, code: Code, len: nat, default: int)
    requires AllImplement(done, parts, code, len, default) && Implements(t, part, code, len, default)
    ensures AllImplement(done + [t], parts + [part], code, len, default)
  {
  }

  lemma FlattenOne(items: seq<Item>)
    ensures Flatten([items]) == items
  {
    assert [items][1..] == [];
    assert items + [] == items;
  }

  /** A stretch of the items has what all of them have. */
  lemma Segment(p: Progress, it: Item, all: seq<Item>, default: int, len: nat, k: nat)
    requires k <= |p.cur| && Flatten(p.parts) + p.cur + [it] + Shifted(p.restItems, len - 1) == all
    requires Ascending(all) && Addresses(all, default, len)
    ensures Ascending(p.cur) && Ascending(p.cur[..k]) && Addresses(p.cur[..k], default, len)
    ensures p.cur != [] ==> p.cur[|p.cur| - 1].hi < it.lo
    ensures it.lo <= it.hi
  {
    hide Flatten, Shifted;
    var n := |Flatten(p.parts)|;
    assert forall i :: 0 <= i < |p.cur| ==> all[n + i] == p.cur[i];
    assert all[n + |p.cur|] == it;
  }

  /** The entries of the table are none of the others. */
  lemma TableApart(list0: CaseEntry?, d: Entries, m: Entries, c: Entries, t: Entries, rest: Entries)
    requires List(list0, d + m + (c + t + rest)) && m != []
    ensures m[0] !in d && m[0] !in c && m[0] !in t && m[0] !in rest
    ensures var e := m[|m| - 1]; e !in d && e !in c && e !in t && e !in rest
  {
    var s := d + m + (c + t + rest);
    var n := |d| + |m|;
    assert forall i :: 0 <= i < |d| ==> s[i] == d[i];
    assert s[|d|] == m[0] && s[n - 1] == m[|m| - 1];
    assert forall i :: 0 <= i < |c| ==> s[n + i] == c[i];
    assert forall i :: 0 <= i < |t| ==> s[n + |c| + i] == t[i];
    assert forall i :: 0 <= i < |rest| ==> s[n + |c| + |t| + i] == rest[i];
  }

  // ----- which items become a table

  /** The bytes saved if a table is written for the items and `it`; nothing if that would be too long. */
  function GainWith(cur: seq<Item>, it: Item, len: nat): int
    requires len >= 1
  {
    var span := it.hi - (cur + [it])[0].lo + 1;
    if span >= PINT_MAX / len then -1 else Gain(Pos(cur, |cur|) + ItemWidth(it), span, len)
  }

  /** The items of each slot: those of a table together, the others alone. `cur` are the items since the search has started
      anew, and the greatest gain has been met behind the k-th of them. A table is written when the gain has fallen by more
      than the cutoff; what has no gain is left alone, and so is what remains at the end. */
  function PlanFrom(cur: seq<Item>, k: nat, maxGain: int, rest: seq<Item>, len: nat): seq<seq<Item>>
    requires k <= |cur| && len >= 1
    decreases |rest|
  {
    if rest == [] then Singletons(cur)
    else
      var it, more := rest[0], rest[1..];
      var gain := GainWith(cur, it, len);
      if maxGain - gain > Cutoff(len) && maxGain >= Cutoff(len) then
        [cur[..k]] + Singletons(cur[k..]) + PlanFrom([it], 0, 0, more, len)
      else if gain < 0 then Singletons(cur) + PlanFrom([it], 0, 0, more, len)
      else if gain > maxGain then PlanFrom(cur + [it], |cur| + 1, gain, more, len)
      else PlanFrom(cur + [it], k, maxGain, more, len)
  }

  function Plan(items: seq<Item>, len: nat): seq<seq<Item>>
    requires len >= 1
  {
    PlanFrom([], 0, 0, items, len)
  }

  /** A table would be written for this stretch with at least the gain that is asked for. */
  ghost predicate Pays(part: seq<Item>, len: nat) {
    part != [] && Gain(Pos(part, |part|), part[|part| - 1].hi - part[0].lo + 1, len) >= Cutoff(len)
  }

  lemma {:induction false} PosOfPrefix(items: seq<Item>, n: nat, k: nat)
    requires k <= n <= |items|
    ensures Pos(items[..n], k) == Pos(items, k)
  {
    if k > 0 {
      PosOfPrefix(items, n, k - 1);
    }
  }

  /** Every table gains at least the cutoff. */
  lemma {:induction false} TablesPay(cur: seq<Item>, k: nat, maxGain: int, rest: seq<Item>, len: nat)
    requires k <= |cur| && len >= 1
    requires maxGain > 0 ==> k > 0 && maxGain == Gain(Pos(cur, k), cur[k - 1].hi - cur[0].lo + 1, len)
    ensures forall i :: 0 <= i < |PlanFrom(cur, k, maxGain, rest, len)| ==>
              |PlanFrom(cur, k, maxGain, rest, len)[i]| == 1 || Pays(PlanFrom(cur, k, maxGain, rest, len)[i], len)
    decreases |rest|
  {
    hide Gain;
    if rest != [] {
      var it, more := rest[0], rest[1..];
      var gain := GainWith(cur, it, len);
      if maxGain - gain > Cutoff(len) && maxGain >= Cutoff(len) {
        PosOfPrefix(cur, k, k);
        TablesPay([it], 0, 0, more, len);
      } else if gain < 0 {
        TablesPay([it], 0, 0, more, len);
      } else {
        PosPrefix(cur, it, |cur|);
        PosPrefix(cur, it, k);
        TablesPay(cur + [it], if gain > maxGain then |cur| + 1 else k, if gain > maxGain then gain else maxGain, more, len);
      }
    }
  }

  /** Single cases one key apart. */
  ghost predicate Dense(items: seq<Item>) {
    forall i :: 0 <= i < |items| ==> Single(items[i]) && items[i].lo == items[0].lo + i
  }

  lemma {:induction false} DensePos(items: seq<Item>, k: nat)
    requires Dense(items) && k <= |items|
    ensures Pos(items, k) == k
  {
    if k > 0 {
      DensePos(items, k - 1);
    }
  }

  lemma DenseGain(cur: seq<Item>, it: Item, len: nat)
    requires Dense(cur) && Single(it) && len >= 1 && (cur != [] ==> it.lo > cur[|cur| - 1].lo) && |cur| + 1 < PINT_MAX / len
    ensures Dense(cur + [it]) ==> GainWith(cur, it, len) == PINT_SIZE * (|cur| + 1)
  {
    DensePos(cur, |cur|);
    var all := cur + [it];
    if Dense(all) {
      assert all[|cur|] == it;
      assert ((|cur| + 1) - (|cur| + 1)) * len == 0;
    }
  }

  lemma {:induction false} DenseFrom(cur: seq<Item>, items: seq<Item>, behind: seq<Item>, len: nat)
    requires Dense(cur + items) && len >= 1 && |cur + items| < PINT_MAX / len
    ensures PlanFrom(cur, |cur|, PINT_SIZE * |cur|, items + behind, len)
            == PlanFrom(cur + items, |cur + items|, PINT_SIZE * |cur + items|, behind, len)
    decreases |items|
  {
    if items == [] {
      assert cur + items == cur && items + behind == behind;
    } else {
      var it, more := items[0], items[1..];
      var all := cur + items;
      assert cur == all[..|cur|] && all[|cur|] == it;
      assert cur + [it] == all[..|cur| + 1] && cur + [it] + more == all;
      assert (items + behind)[0] == it && (items + behind)[1..] == more + behind;
      DenseGain(cur, it, len);
      DenseFrom(cur + [it], more, behind, len);
    }
  }

  /** A dense stretch of single cases at the end gets no table, however many bytes that would save. */
  lemma DenseEndStays(items: seq<Item>, len: nat)
    requires Dense(items) && len >= 1 && |items| < PINT_MAX / len
    ensures Plan(items, len) == Singletons(items)
  {
    DenseFrom([], items, [], len);
    assert [] + items == items && items + [] == items;
  }

  /** With one more item behind it the stretch becomes a table if and only if it is long enough and the gain falls enough. */
  lemma DenseBecomesTable(items: seq<Item>, x: Item, len: nat)
    requires Dense(items) && |items| > 1 && len >= 1 && |items| < PINT_MAX / len
    ensures items in Plan(items + [x], len)
            <==> PINT_SIZE * |items| >= Cutoff(len) && PINT_SIZE * |items| - GainWith(items, x, len) > Cutoff(len)
  {
    hide GainWith;
    var n := |items|;
    DenseFrom([], items, [x], len);
    assert [] + items == items && [x][1..] == [];
    var plan := PlanFrom(items, n, PINT_SIZE * n, [x], len);
    var gain := GainWith(items, x, len);
    assert Plan(items + [x], len) == plan;
    if PINT_SIZE * n - gain > Cutoff(len) && PINT_SIZE * n >= Cutoff(len) {
      assert items[..n] == items && items[n..] == [];
      assert plan[0] == items;
    } else {
      assert forall i :: 0 <= i < |plan| ==> |plan[i]| == 1;
    }
  }

  /** The search does what the plan says. */
  ghost predicate Planned(p: Progress, k: nat, maxGain: int, all: seq<Item>, len: nat) {
    && len >= 1 && k <= |p.cur|
    && Plan(all, len) == p.parts + PlanFrom(p.cur, k, maxGain, Shifted(p.restItems, len - 1), len)
  }

  lemma PlannedWith(p: Progress, q: Progress, k: nat, maxGain: int, all: seq<Item>, len: nat, it: Item)
    requires Planned(p, k, maxGain, all, len) && p.restItems != [] && it == p.restItems[0].(addr := p.restItems[0].addr + (len - 1))
    requires q.parts == p.parts && q.cur == p.cur && q.restItems == p.restItems[1..]
    ensures Plan(all, len) == q.parts + PlanFrom(q.cur, k, maxGain, [it] + Shifted(q.restItems, len - 1), len)
  {
    hide PlanFrom;
    assert Shifted(p.restItems, len - 1) == [it] + Shifted(q.restItems, len - 1);
  }

  lemma PlanStep(parts: seq<seq<Item>>, cur: seq<Item>, k: nat, maxGain: int, it: Item, more: seq<Item>, len: nat)
    requires k <= |cur| && len >= 1
    ensures var plan, gain := parts + PlanFrom(cur, k, maxGain, [it] + more, len), GainWith(cur, it, len);
            && (maxGain - gain > Cutoff(len) && maxGain >= Cutoff(len) ==>
                  plan == parts + [cur[..k]] + Singletons(cur[k..]) + PlanFrom([it], 0, 0, more, len))
            && (!(maxGain - gain > Cutoff(len) && maxGain >= Cutoff(len)) ==>
                  && (gain < 0 ==> plan == parts + Singletons(cur) + PlanFrom([it], 0, 0, more, len))
                  && (0 <= gain <= maxGain ==> plan == parts + PlanFrom(cur + [it], k, maxGain, more, len))
                  && (gain >= 0 && gain > maxGain ==> plan == parts + PlanFrom(cur + [it], |cur| + 1, gain, more, len)))
  {
    hide GainWith;
    assert ([it] + more)[1..] == more;
    var rest := PlanFrom([it], 0, 0, more, len);
    Grouped(parts, [cur[..k]], Singletons(cur[k..]), rest);
    Grouped(parts, Singletons(cur), [], rest);
    assert Singletons(cur) + [] == Singletons(cur) && parts + Singletons(cur) + [] == parts + Singletons(cur);
  }

  lemma Grouped(a: seq<seq<Item>>, b: seq<seq<Item>>, c: seq<seq<Item>>, d: seq<seq<Item>>)
    ensures a + (b + c + d) == a + b + c + d
  {
  }

  // ----- the loop

  /** The best place so far to end a table: after the `k`-th of the current items. */
  ghost predicate Best(p: Progress, maxGain: int, tableEnd: CaseEntry?, k: nat, len: nat) {
    && 0 <= maxGain
    && (maxGain > 0 ==>
          && 0 < k <= |p.cur| && 0 < Pos(p.cur, k) <= |p.c| && tableEnd == p.c[Pos(p.cur, k) - 1]
          && maxGain == Gain(Pos(p.cur, k), p.cur[k - 1].hi - p.cur[0].lo + 1, len))
  }

  /** What the variables of the loop stand for. */
  ghost predicate Searching(list0: CaseEntry, p: Progress, tableStart: CaseEntry, previous: CaseEntry?, keys: nat, all: seq<Item>,
                            code: Code, len: nat, default: int)
    reads p.d, p.c, p.pending, p.rest
  {
    && Chain(list0, p) && Sound(p, all, code, len, default) && Real(p.restItems)
    && (p.c + p.pending + p.rest != [] ==> tableStart == (p.c + p.pending + p.rest)[0])
    && (p.pending != [] ==> previous == p.pending[0] && p.rest != [])
    && keys == |p.c| + |p.pending|
  }

  lemma NextLink(list0: CaseEntry?, p: Progress)
    requires Chain(list0, p) && p.c + p.pending != []
    ensures (p.c + p.pending)[|p.c + p.pending| - 1].next == First(p.rest, null)
  {
    hide RepresentsSlots, Represents, Distinct;
    var s := p.d + (p.c + p.pending) + p.rest;
    var k := |p.d + (p.c + p.pending)|;
    assert s[k - 1] == (p.c + p.pending)[|p.c + p.pending| - 1];
    assert p.rest != [] ==> s[k] == p.rest[0];
    LinkAt(s, k - 1);
  }

  /** The ends of the current items. */
  lemma Ends(list0: CaseEntry?, p: Progress, t: Entries, it: Item)
    requires ChainWith(list0, p, t, it)
    ensures |p.c| == Pos(p.cur, |p.cur|) && (p.c != [] ==> p.cur != [] && p.c[0].key == p.cur[0].lo) && (p.c == [] ==> p.cur == [])
    ensures |t| == ItemWidth(it) && t[0].key == it.lo && t[|t| - 1].key == it.hi && (t[|t| - 1].line != 0 <==> |t| == 1)
  {
    hide List, RepresentsSlots;
    ItemIn(p.c, p.cur, |p.cur|);
    if p.cur != [] {
      ItemIn(p.c, p.cur, 0);
    }
    ItemIn(t, [it], 0);
    ItemIn(t, [it], 1);
  }

  lemma {:induction false} PosPrefix(items: seq<Item>, it: Item, k: nat)
    requires k <= |items|
    ensures Pos(items + [it], k) == Pos(items, k)
  {
    if k > 0 {
      PosPrefix(items, it, k - 1);
    }
  }

  lemma BestGrown(p: Progress, maxGain: int, tableEnd: CaseEntry?, k: nat, len: nat, t: Entries, it: Item)
    requires Best(p, maxGain, tableEnd, k, len) && |p.c| == Pos(p.cur, |p.cur|) && |t| == ItemWidth(it)
    ensures Best(Grown(p, t, it), maxGain, tableEnd, k, len)
    ensures var q, n := Grown(p, t, it), |p.cur| + 1;
            var gain := Gain(|p.c| + |t|, it.hi - q.cur[0].lo + 1, len);
            gain >= 0 ==> Best(q, gain, t[|t| - 1], n, len)
  {
    hide Gain;
    if k <= |p.cur| {
      PosPrefix(p.cur, it, k);
    }
    PosPrefix(p.cur, it, |p.cur|);
  }

  /** A table is worth its price. */
  lemma TablePays(keyNum: nat, code0: Code, len: nat, m: nat, span: int)
    requires Affordable(keyNum, code0, len) && 1 <= span && Gain(m, span, len) >= Cutoff(len) && m <= keyNum
    ensures m > 2 && Fits(|code0|, len)
    ensures 0 <= |code0| + span * len + (keyNum - (m - 2)) * EntrySize(len) <= |code0| + keyNum * EntrySize(len)
  {
    GainPays(m, span, len);
    var e := EntrySize(len);
    assert span * len >= 1 by {
      Monotone(1, span, len);
    }
    assert m * e >= 2 * e + 1;
    if m <= 2 {
      Monotone(m, 2, e);
    }
    assert (keyNum - (m - 2)) * e == keyNum * e - m * e + 2 * e;
    Monotone(0, keyNum, e);
    Monotone(0, keyNum - (m - 2), e);
  }

  lemma AllSingletons(p: Progress, all: seq<Item>, code: Code, len: nat, default: int)
    requires Sound(p, all, code, len, default) && p.restItems == []
    ensures AllImplement(p.done + Plains(p.cur), p.parts + Singletons(p.cur), code, len, default)
    ensures Flatten(p.parts + Singletons(p.cur)) == all
  {
    hide Flatten, Implements, Ascending, Addresses;
    PlainsImplement(p.done, p.parts, p.cur, code, len, default);
    FlattenConcat(p.parts, Singletons(p.cur));
    FlattenSingletons(p.cur);
    assert Shifted([], len - 1) == [];
    assert Flatten(p.parts) + p.cur + [] == Flatten(p.parts) + p.cur;
  }

  /** The table that ends at the best place has gained enough: write it. */
  method EndTable(list0: CaseEntry, tableStart: CaseEntry, tableEnd: CaseEntry?, maxGain: int, keyNum0: nat, code0: Code, default: int,
                  len: nat, ghost p: Progress, ghost k: nat, ghost t: Entries, ghost it: Item, ghost all: seq<Item>)
    returns (keyNum: nat, code: Code, ghost q: Progress)
    requires ChainWith(list0, p, t, it) && SoundWith(p, it, all, code0, len, default)
    requires Best(p, maxGain, tableEnd, k, len) && maxGain >= Cutoff(len) && (p.c != [] ==> tableStart == p.c[0])
    requires Affordable(keyNum0, code0, len) && keyNum0 == |p.d| + |p.c| + |t| + |p.rest|
    modifies Nodes(p.c)`addr, Nodes(p.c)`next
    ensures ChainWith(list0, q, t, it) && SoundWith(q, it, all, code, len, default)
    ensures q.rest == p.rest && q.restItems == p.restItems && code0 <= code && forall e :: e in q.c ==> e in p.c
    ensures Affordable(keyNum, code, len) && keyNum == |q.d| + |q.c| + |t| + |q.rest|
    ensures k <= |p.cur| && q.parts == p.parts + [p.cur[..k]] && q.cur == p.cur[k..]
  {
    hide Chain, ChainWith, Sound, SoundWith, Ascending, Addresses, Flatten, Gain, Real, Fits, AllImplement;
    ItemOrder(p, it, all, code0, len, default);
    BestPays(p, maxGain, tableEnd, k, len, keyNum0, code0, it);
    var removed;
    code, removed := MakeTable(list0, tableStart, tableEnd, code0, default, len, p, k, t, it, all);
    keyNum := keyNum0 - removed;
    q := Tabled(p, k, tableStart, tableEnd, |code0|);
  }

  /** One complete item: end the current table if it has become too sparse, or take the item into it. */
  method AddItem(list0: CaseEntry, list1: CaseEntry, tableStart0: CaseEntry, previous: CaseEntry?, tableEnd0: CaseEntry?, maxGain0: int,
                 keys0: nat, keyNum0: nat, code0: Code, default: int, len: nat, ghost p: Progress, ghost k0: nat, ghost all: seq<Item>)
    returns (tableStart: CaseEntry, tableEnd: CaseEntry?, maxGain: int, keys: nat, keyNum: nat, code: Code, ghost q: Progress, ghost k: nat)
    requires Searching(list0, p, tableStart0, previous, keys0, all, code0, len, default) && Best(p, maxGain0, tableEnd0, k0, len)
    requires p.rest != [] && list1 == p.rest[0] && (list1.addr == RANGE_START ==> p.pending != [])
    requires Affordable(keyNum0, code0, len) && keyNum0 == |p.d| + |p.c| + |p.pending| + |p.rest|
    requires Planned(p, k0, maxGain0, all, len)
    modifies list1`addr, Nodes(p.c)`addr, Nodes(p.c)`next
    ensures Searching(list0, q, tableStart, previous, keys, all, code, len, default) && Best(q, maxGain, tableEnd, k, len)
    ensures q.pending == [] && q.rest == p.rest[1..] && code0 <= code
    ensures q.c != [] && q.c[|q.c| - 1] == list1 && forall e :: e in q.c ==> e in p.c || e in p.pending || e == list1
    ensures Affordable(keyNum, code, len) && keyNum == |q.d| + |q.c| + |q.rest|
    ensures Planned(q, k, maxGain, all, len)
  {
    hide Plan, PlanFrom, Planned, GainWith;
    hide Chain, ChainWith, Sound, SoundWith, Gain, Real, Searching, Best, Affordable, Grown, Flushed;
    SearchingParts(list0, p, tableStart0, previous, keys0, all, code0, len, default);
    tableStart, tableEnd, maxGain, keys, keyNum, code, k := tableStart0, tableEnd0, maxGain0, keys0 + 1, keyNum0, code0, k0;
    ghost var t := p.pending + [list1];
    ghost var it := Adapt(list0, list1, len - 1, p, all, code0, default);
    q := Completed(p);
    Ends(list0, q, t, it);
    StartEntry(p, t);
    BestBounds(p, q, maxGain, tableEnd, k, len);
    var span := list1.key - tableStart.key + 1;
    var gain := if span >= PINT_MAX / len then -1 else Gain(keys, span, len);
    ghost var r := q;
    SameGain(q, t, it, tableStart, list1, keys, len);
    if maxGain - gain > Cutoff(len) && maxGain >= Cutoff(len) {
      keyNum, code, q := EndTable(list0, tableStart, tableEnd, maxGain, keyNum, code, default, len, q, k, t, it, all);
      gain := -1;
    }
    if gain < 0 {
      if list1.line != 0 {
        tableStart, keys := list1, 1;
      } else {
        tableStart, keys := previous, 2;
      }
      Restarted(list0, q, t, it, tableStart, previous, all, code, len, default, tableEnd, k);
      PlannedAnew(p, r, q, k, maxGain, all, len, it, t);
      maxGain, k := 0, 0;
      q := Flushed(q, t, it);
      NoBest(q, tableEnd, 0, len);
    } else {
      Taken(list0, q, t, it, tableStart, previous, all, code, len, default, tableEnd, maxGain, k);
      PlannedOn(p, r, k, maxGain, all, len, it, t);
      if gain > maxGain {
        maxGain, tableEnd, k := gain, list1, |q.cur| + 1;
      }
      q := Grown(q, t, it);
    }
  }

  /** The gain is that of the current items with the new one. */
  lemma SameGain(p: Progress, t: Entries, it: Item, tableStart: CaseEntry, list1: CaseEntry, keys: nat, len: nat)
    requires |p.c| == Pos(p.cur, |p.cur|) && (p.c != [] ==> p.cur != [] && p.c[0].key == p.cur[0].lo) && (p.c == [] ==> p.cur == [])
    requires |t| == ItemWidth(it) && t[0].key == it.lo && list1.key == it.hi && keys == |p.c| + |t| && tableStart == (p.c + t)[0] && len >= 1
    ensures var span := list1.key - tableStart.key + 1;
            GainWith(p.cur, it, len) == if span >= PINT_MAX / len then -1 else Gain(keys, span, len)
  {
    hide Pos, Gain;
  }

  /** Whether or not a table has been written, the search starts anew with the item. */
  lemma PlannedAnew(p: Progress, r: Progress, q: Progress, k: nat, maxGain: int, all: seq<Item>, len: nat, it: Item, t: Entries)
    requires Planned(p, k, maxGain, all, len) && p.restItems != [] && it == p.restItems[0].(addr := p.restItems[0].addr + (len - 1))
    requires r.parts == p.parts && r.cur == p.cur && r.restItems == q.restItems == p.restItems[1..]
    requires var gain := GainWith(r.cur, it, len);
             if maxGain - gain > Cutoff(len) && maxGain >= Cutoff(len) then q.parts == r.parts + [r.cur[..k]] && q.cur == r.cur[k..]
             else gain < 0 && q.parts == r.parts && q.cur == r.cur
    ensures Planned(Flushed(q, t, it), 0, 0, all, len)
  {
    hide GainWith, PlanFrom;
    PlannedWith(p, r, k, maxGain, all, len, it);
    PlanStep(r.parts, r.cur, k, maxGain, it, Shifted(r.restItems, len - 1), len);
  }

  lemma PlannedOn(p: Progress, r: Progress, k: nat, maxGain: int, all: seq<Item>, len: nat, it: Item, t: Entries)
    requires Planned(p, k, maxGain, all, len) && p.restItems != [] && it == p.restItems[0].(addr := p.restItems[0].addr + (len - 1))
    requires r.parts == p.parts && r.cur == p.cur && r.restItems == p.restItems[1..]
    requires var gain := GainWith(r.cur, it, len); gain >= 0 && !(maxGain - gain > Cutoff(len) && maxGain >= Cutoff(len))
    ensures var gain := GainWith(r.cur, it, len);
            if gain > maxGain then Planned(Grown(r, t, it), |r.cur| + 1, gain, all, len) else Planned(Grown(r, t, it), k, maxGain, all, len)
  {
    hide GainWith, PlanFrom;
    PlannedWith(p, r, k, maxGain, all, len, it);
    PlanStep(r.parts, r.cur, k, maxGain, it, Shifted(r.restItems, len - 1), len);
  }

  lemma SearchingParts(list0: CaseEntry, p: Progress, tableStart: CaseEntry, previous: CaseEntry?, keys: nat, all: seq<Item>,
                       code: Code, len: nat, default: int)
    requires Searching(list0, p, tableStart, previous, keys, all, code, len, default) && p.rest != []
    ensures Chain(list0, p) && Sound(p, all, code, len, default) && Real(p.restItems)
    ensures keys == |p.c| + |p.pending| && len >= 1 && |p.pending| <= 1 && (p.pending != [] ==> previous == p.pending[0])
    ensures tableStart == (p.c + p.pending + p.rest)[0]
  {
  }

  lemma StartEntry(p: Progress, t: Entries)
    requires p.rest != [] && t == p.pending + [p.rest[0]]
    ensures (p.c + p.pending + p.rest)[0] == (p.c + t)[0]
  {
    assert p.c + p.pending + p.rest == p.c + t + p.rest[1..];
  }

  lemma BestBounds(p: Progress, q: Progress, maxGain: int, tableEnd: CaseEntry?, k: nat, len: nat)
    requires Best(p, maxGain, tableEnd, k, len) && q.c == p.c && q.cur == p.cur
    ensures Best(q, maxGain, tableEnd, k, len) && maxGain >= 0
  {
  }

  lemma Restarted(list0: CaseEntry, p: Progress, t: Entries, it: Item, tableStart: CaseEntry, previous: CaseEntry?, all: seq<Item>,
                  code: Code, len: nat, default: int, tableEnd: CaseEntry?, k: nat)
    requires ChainWith(list0, p, t, it) && SoundWith(p, it, all, code, len, default) && Real(p.restItems) && t != [] && tableStart == t[0]
    ensures var q := Flushed(p, t, it);
            && Searching(list0, q, tableStart, previous, |t|, all, code, len, default) && Best(q, 0, tableEnd, k, len)
            && q.pending == [] && q.rest == p.rest && q.c == t && |q.d| == |p.d| + |p.c|
  {
    hide Chain, ChainWith, Sound, SoundWith, Real;
    ChainPending(list0, p, t, it);
    Flush(list0, p, t, it, all, code, len, default);
  }

  lemma ChainPending(list0: CaseEntry, p: Progress, t: Entries, it: Item)
    requires ChainWith(list0, p, t, it)
    ensures p.pending == []
  {
  }

  lemma Taken(list0: CaseEntry, p: Progress, t: Entries, it: Item, tableStart: CaseEntry, previous: CaseEntry?, all: seq<Item>,
              code: Code, len: nat, default: int, tableEnd: CaseEntry?, maxGain: int, k: nat)
    requires ChainWith(list0, p, t, it) && SoundWith(p, it, all, code, len, default) && Real(p.restItems)
    requires t != [] && tableStart == (p.c + t)[0] && Best(p, maxGain, tableEnd, k, len)
    ensures var q := Grown(p, t, it);
            && Searching(list0, q, tableStart, previous, |p.c| + |t|, all, code, len, default) && Best(q, maxGain, tableEnd, k, len)
            && (var gain := Gain(|p.c| + |t|, t[|t| - 1].key - tableStart.key + 1, len);
                gain >= 0 ==> Best(q, gain, t[|t| - 1], |p.cur| + 1, len))
            && q.pending == [] && q.rest == p.rest && q.c == p.c + t && q.d == p.d
  {
    hide Chain, ChainWith, Sound, SoundWith, Real, Best, Gain;
    ChainPending(list0, p, t, it);
    Ends(list0, p, t, it);
    BestGrown(p, maxGain, tableEnd, k, len, t, it);
    Grow(list0, p, t, it, all, code, len, default);
    assert tableStart.key == (p.cur + [it])[0].lo;
    assert (p.c + t + [] + p.rest)[0] == (p.c + t)[0];
  }

  lemma ItemOrder(p: Progress, it: Item, all: seq<Item>, code: Code, len: nat, default: int)
    requires SoundWith(p, it, all, code, len, default)
    ensures it.lo <= it.hi && Ascending(p.cur) && (p.cur != [] ==> p.cur[|p.cur| - 1].hi < it.lo)
  {
    Segment(p, it, all, default, len, |p.cur|);
  }

  lemma BestPays(p: Progress, maxGain: int, tableEnd: CaseEntry?, k: nat, len: nat, keyNum: nat, code: Code, it: Item)
    requires Best(p, maxGain, tableEnd, k, len) && maxGain >= Cutoff(len) && Affordable(keyNum, code, len)
    requires |p.c| <= keyNum && Ascending(p.cur)
    ensures 0 < k <= |p.cur| && 2 < Pos(p.cur, k) <= |p.c| && tableEnd == p.c[Pos(p.cur, k) - 1] && Fits(|code|, len)
    ensures var span, m := p.cur[k - 1].hi - p.cur[0].lo + 1, Pos(p.cur, k);
            forall more: Code :: |more| == |code| + span * len ==> Affordable(keyNum - (m - 2), more, len)
  {
    TablePays(keyNum, code, len, Pos(p.cur, k), p.cur[k - 1].hi - p.cur[0].lo + 1);
  }

  lemma StateNodes(list0: CaseEntry, p: Progress, tableStart: CaseEntry, previous: CaseEntry?, keys: nat, all: seq<Item>,
                   code: Code, len: nat, default: int)
    requires Searching(list0, p, tableStart, previous, keys, all, code, len, default)
    ensures p.c + p.pending != [] ==> (p.c + p.pending)[|p.c + p.pending| - 1].next == First(p.rest, null)
    ensures p.pending != [] ==> p.rest != [] && p.rest[0].addr != RANGE_START
    ensures p.rest == [] ==> p.pending == [] && p.restItems == []
  {
    if p.c + p.pending != [] {
      NextLink(list0, p);
    }
    if p.pending != [] {
      StartIsRange(p.pending + p.rest, p.restItems);
    }
  }

  lemma Pending(list0: CaseEntry, p: Progress, tableStart: CaseEntry, previous: CaseEntry?, keys: nat, all: seq<Item>,
                code: Code, len: nat, default: int, maxGain: int, tableEnd: CaseEntry?, k: nat)
    requires Searching(list0, p, tableStart, previous, keys, all, code, len, default) && Best(p, maxGain, tableEnd, k, len)
    requires p.rest != [] && p.rest[0].addr == RANGE_START
    ensures var q := Pushed(p);
            && p.pending == [] && q.pending == [p.rest[0]] && q.c == p.c && q.d == p.d && q.rest == p.rest[1..]
            && Searching(list0, q, tableStart, p.rest[0], keys + 1, all, code, len, default) && Best(q, maxGain, tableEnd, k, len)
  {
    StateNodes(list0, p, tableStart, previous, keys, all, code, len, default);
    hide Chain, Sound, Real;
    StartPends(list0, p, all, code, len, default);
    assert p.c + [p.rest[0]] + p.rest[1..] == p.c + [] + p.rest;
  }

  lemma ShiftedAscends(items: seq<Item>, n: int)
    requires Ascending(items)
    ensures Ascending(Shifted(items, n))
  {
    var r := Shifted(items, n);
    assert forall i :: 0 <= i < |r| ==> r[i].lo == items[i].lo && r[i].hi == items[i].hi;
  }

  lemma SearchStarts(list0: CaseEntry, nodes: Entries, items: seq<Item>, code: Code, len: nat, default: int)
    requires List(list0, nodes) && Represents(nodes, items) && nodes != [] && len >= 1
    requires Ascending(items) && Real(items) && Addresses(Shifted(items, len - 1), default, len)
    ensures Searching(list0, Progress([], [], [], [], [], [], nodes, items), list0, null, 0, Shifted(items, len - 1), code, len, default)
  {
    hide Represents, Addresses;
    ShiftedAscends(items, len - 1);
    assert [] + ([] + []) + nodes == nodes;
    assert [] + nodes == nodes;
    assert Flatten([]) + [] + Shifted(items, len - 1) == Shifted(items, len - 1);
    var p := Progress([], [], [], [], [], [], nodes, items);
    assert Sound(p, Shifted(items, len - 1), code, len, default);
    assert List(list0, p.d + (p.c + p.pending) + p.rest);
    assert RepresentsSlots(p.d, p.done);
    assert Represents(p.c, p.cur) by { NothingRepresented(); }
    assert Represents(p.pending + p.rest, p.restItems);
    assert Chain(list0, p);
    assert p.c + p.pending + p.rest == nodes;
  }

  lemma NothingRepresented()
    ensures Represents([], [])
  {
  }

  /** What the search for tables leaves. */
  ghost predicate Final(list0: CaseEntry, s: Entries, slots: seq<Slot>, parts: seq<seq<Item>>, all: seq<Item>, code: Code, len: nat,
                        default: int)
    reads s
  {
    && List(list0, s) && RepresentsSlots(s, slots) && AllImplement(slots, parts, code, len, default) && Flatten(parts) == all
  }

  lemma SearchEnds(list0: CaseEntry, p: Progress, tableStart: CaseEntry, previous: CaseEntry?, keys: nat, all: seq<Item>,
                   code: Code, len: nat, default: int)
    requires Searching(list0, p, tableStart, previous, keys, all, code, len, default) && p.rest == []
    ensures Final(list0, p.d + p.c, p.done + Plains(p.cur), p.parts + Singletons(p.cur), all, code, len, default)
    ensures p.pending == [] && p.restItems == []
  {
    hide Implements, Flatten, Ascending, Addresses;
    StateNodes(list0, p, tableStart, previous, keys, all, code, len, default);
    assert p.d + (p.c + []) + [] == p.d + p.c;
    PlainNodes(p.c, p.cur);
    SlotsConcat(p.d, p.done, p.c, Plains(p.cur));
    AllSingletons(p, all, code, len, default);
  }

  /** Go through the joined list and write tables where they save space. */
  method FindTables(list0: CaseEntry, keyNum0: nat, code0: Code, default: int, len: nat, ghost nodes: Entries, ghost items: seq<Item>)
    returns (keyNum: nat, code: Code, ghost s: Entries, ghost slots: seq<Slot>, ghost parts: seq<seq<Item>>)
    requires List(list0, nodes) && Represents(nodes, items) && nodes != [] && Ascending(items) && Real(items)
    requires Affordable(keyNum0, code0, len) && keyNum0 == |nodes| && Addresses(Shifted(items, len - 1), default, len)
    modifies Nodes(nodes)`addr, Nodes(nodes)`next
    ensures Final(list0, s, slots, parts, Shifted(items, len - 1), code, len, default)
    ensures code0 <= code && keyNum == |s| && Affordable(keyNum, code, len)
    ensures parts == Plan(Shifted(items, len - 1), len)
  {
    hide Plan, PlanFrom, Planned;
    hide Represents, List, Searching, Best, Chain, Sound, Ascending, Addresses, Real, Final, Fits, Shifted, Pushed;
    ghost var all := Shifted(items, len - 1);
    keyNum, code := keyNum0, code0;
    var list1: CaseEntry?, tableStart := list0, list0;
    var previous: CaseEntry?, tableEnd: CaseEntry? := null, null;
    var keys: nat, maxGain := 0, 0;
    ghost var p, k := Progress([], [], [], [], [], [], nodes, items), 0;
    SearchStarts(list0, nodes, items, code, len, default);
    assert Best(p, 0, null, 0, len) by { NoBest(p, null, 0, len); }
    PlanStarts(p, all, len);
    assert list0 == nodes[0] by { HeadOf(list0, nodes); }
    while list1 != null
      invariant Searching(list0, p, tableStart, previous, keys, all, code, len, default) && Best(p, maxGain, tableEnd, k, len)
      invariant list1 == First(p.rest, null) && code0 <= code && Planned(p, k, maxGain, all, len)
      invariant Affordable(keyNum, code, len) && keyNum == |p.d| + |p.c| + |p.pending| + |p.rest|
      invariant forall e :: e in p.c || e in p.pending || e in p.rest ==> e in nodes
      decreases |p.rest|
    {
      StateNodes(list0, p, tableStart, previous, keys, all, code, len, default);
      if list1.addr == RANGE_START {
        Pending(list0, p, tableStart, previous, keys, all, code, len, default, maxGain, tableEnd, k);
        PlannedPushed(p, k, maxGain, all, len);
        previous := list1;
        keys := keys + 1;
        p := Pushed(p);
      } else {
        tableStart, tableEnd, maxGain, keys, keyNum, code, p, k :=
          AddItem(list0, list1, tableStart, previous, tableEnd, maxGain, keys, keyNum, code, default, len, p, k, all);
      }
      StateNodes(list0, p, tableStart, previous, keys, all, code, len, default);
      assert list1 == (p.c + p.pending)[|p.c + p.pending| - 1];
      list1 := list1.next;
    }
    SearchEnds(list0, p, tableStart, previous, keys, all, code, len, default);
    PlanEnds(p, k, maxGain, all, len);
    s, slots, parts := p.d + p.c, p.done + Plains(p.cur), p.parts + Singletons(p.cur);
  }

  lemma PlanStarts(p: Progress, all: seq<Item>, len: nat)
    requires len >= 1 && p.parts == [] && p.cur == [] && Shifted(p.restItems, len - 1) == all
    ensures Planned(p, 0, 0, all, len)
  {
    assert [] + PlanFrom([], 0, 0, all, len) == PlanFrom([], 0, 0, all, len);
  }

  lemma PlannedPushed(p: Progress, k: nat, maxGain: int, all: seq<Item>, len: nat)
    requires Planned(p, k, maxGain, all, len) && p.rest != []
    ensures Planned(Pushed(p), k, maxGain, all, len)
  {
  }

  lemma PlanEnds(p: Progress, k: nat, maxGain: int, all: seq<Item>, len: nat)
    requires Planned(p, k, maxGain, all, len) && p.restItems == []
    ensures p.parts + Singletons(p.cur) == Plan(all, len)
  {
    assert Shifted([], len - 1) == [];
  }

  lemma NoBest(p: Progress, tableEnd: CaseEntry?, k: nat, len: nat)
    ensures Best(p, 0, tableEnd, k, len)
  {
  }

  lemma HeadOf(list0: CaseEntry, s: Entries)
    requires List(list0, s)
    ensures s != [] && s[0] == list0
  {
  }

  // ----- the tables of the instruction

  /** The value table and the offset table, read off the list. */
  method EmitTables(list0: CaseEntry, ghost s: Entries, ghost slots: seq<Slot>) returns (v: seq<int>, o: seq<int>)
    requires List(list0, s) && RepresentsSlots(s, slots)
    ensures v == Keys(slots) && o == Offsets(slots)
  {
    hide RepresentsSlots, Keys, Offsets, Linked, Distinct;
    ListTables(s, slots);
    v, o := [], [];
    var list1: CaseEntry? := list0;
    ghost var i := 0;
    while list1 != null
      invariant i <= |s| && list1 == First(s[i..], null) && v == Keys(slots)[..i]
      decreases |s| - i
    {
      LinkAt(s, i);
      v, list1, i := v + [list1.key], list1.next, i + 1;
    }
    list1, i := list0, 0;
    while list1 != null
      invariant i <= |s| && list1 == First(s[i..], null) && o == Offsets(slots)[..i]
      decreases |s| - i
    {
      LinkAt(s, i);
      o, list1, i := o + [list1.addr], list1.next, i + 1;
    }
  }

  lemma {:induction false} ListTables(s: Entries, slots: seq<Slot>)
    requires RepresentsSlots(s, slots)
    ensures |Keys(slots)| == |s| == |Offsets(slots)|
    ensures forall i :: 0 <= i < |s| ==> Keys(slots)[i] == s[i].key && Offsets(slots)[i] == s[i].addr
    decreases |slots|
  {
    if slots != [] {
      var w := Width(slots[0]);
      ListTables(s[w..], slots[1..]);
      assert forall i :: 0 <= i < w ==> s[..w][i] == s[i];
      assert forall i :: w <= i < |s| ==> s[w..][i - w] == s[i];
    }
  }
}
