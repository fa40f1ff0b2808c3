/** Lookup tables for sparse stretches of case labels. */
module CaseTable {
  import opened Wrappers
  import Bytecode
  import opened CaseSort
  import opened CaseRanges
  import opened CaseJoin
  import opened CaseSearch

  // ----- numbers of one to three bytes

  predicate Fits(n: int, len: nat) {
    && 1 <= len <= 3
    && 0 <= n < (if len == 1 then 0x100 else if len == 2 then 0x1_0000 else 0x100_0000)
  }

  /** Append a number, the most significant byte first. */
  method PutAddress(code0: Code, addr: int, len: nat) returns (code: Code)
    requires Fits(addr, len)
    ensures |code| == |code0| + len && code0 <= code && BigEndian(code, |code0|, len) == addr
  {
    var low: Bytecode.Byte, mid: Bytecode.Byte, high: Bytecode.Byte := addr % 0x100, addr / 0x100 % 0x100, addr / 0x1_0000 % 0x100;
    if len == 1 {
      code := code0 + [low];
    } else if len == 2 {
      code := code0 + [mid, low];
    } else {
      code := code0 + [high, mid, low];
    }
    var n := |code0|;
    assert BigEndian(code, n, 0) == 0;
    assert BigEndian(code, n, 1) == code[n];
    if len >= 2 {
      assert BigEndian(code, n, 2) == BigEndian(code, n, 1) * 256 + code[n + 1];
    }
  }

  lemma {:induction false} BigEndianKept(code: Code, more: Code, at: nat, len: nat)
    requires code <= more && at + len <= |code|
    ensures BigEndian(more, at, len) == BigEndian(code, at, len)
  {
    if len > 0 {
      BigEndianKept(code, more, at, len - 1);
    }
  }

  // ----- where an item is in its list

  function ItemWidth(it: Item): nat {
    if Single(it) then 1 else 2
  }

  /** The number of entries before the `x`-th item. */
  function Pos(items: seq<Item>, x: nat): nat
    requires x <= |items|
  {
    if x == 0 then 0 else Pos(items, x - 1) + ItemWidth(items[x - 1])
  }

  ghost predicate ItemAt(m: Entries, p: nat, it: Item)
    reads m
  {
    if Single(it) then p < |m| && SingleNode(m[p], it) else p + 1 < |m| && RangeNodes(m[p], m[p + 1], it)
  }

  lemma {:induction false} PosTail(items: seq<Item>, x: nat)
    requires 0 < x <= |items|
    ensures Pos(items, x) == ItemWidth(items[0]) + Pos(items[1..], x - 1)
  {
    if x > 1 {
      PosTail(items, x - 1);
    }
  }

  lemma {:induction false} ItemIn(m: Entries, items: seq<Item>, x: nat)
    requires Represents(m, items) && x <= |items|
    ensures if x < |items| then ItemAt(m, Pos(items, x), items[x]) else |m| == Pos(items, x)
    decreases |items|
  {
    if x == 0 {
    } else {
      var k := ItemWidth(items[0]);
      ItemIn(m[k..], items[1..], x - 1);
      PosTail(items, x);
    }
  }

  // ----- writing a table

  function FindOr(items: seq<Item>, key: int, default: int): int {
    match Find(items, key)
    case Some(addr) => addr
    case None => default
  }

  lemma {:induction false} FindAt(items: seq<Item>, x: nat, key: int, default: int)
    requires Ascending(items) && x < |items| && (x > 0 ==> items[x - 1].hi < key) && key <= items[x].hi
    ensures FindOr(items, key, default) == if items[x].lo <= key then items[x].addr else default
    decreases |items|
  {
    var n := |items| - 1;
    if x < n {
      FindAt(items[..n], x, key, default);
    } else if !(items[x].lo <= key) {
      NothingBelow(items[..n], key);
    }
  }

  lemma {:induction false} NothingBelow(items: seq<Item>, key: int)
    requires Ascending(items) && (items != [] ==> items[|items| - 1].hi < key)
    ensures Find(items, key) == None
  {
    if items != [] {
      NothingBelow(items[..|items| - 1], key);
    }
  }

  ghost predicate Addresses(items: seq<Item>, default: int, len: nat) {
    Fits(default, len) && forall i :: 0 <= i < |items| ==> Fits(items[i].addr, len) && items[i].addr > RANGE_START
  }

  /** The bytes written for the keys below `key`. */
  ghost predicate Written(code: Code, at: nat, items: seq<Item>, default: int, len: nat, lo: int, key: int) {
    lo <= key && |code| == at + (key - lo) * len &&
    forall k :: lo <= k < key ==> BigEndian(code, at + (k - lo) * len, len) == FindOr(items, k, default)
  }

  lemma WriteNext(code: Code, more: Code, at: nat, items: seq<Item>, default: int, len: nat, lo: int, key: int)
    requires Written(code, at, items, default, len, lo, key) && len > 0
    requires code <= more && |more| == |code| + len && BigEndian(more, |code|, len) == FindOr(items, key, default)
    ensures Written(more, at, items, default, len, lo, key + 1)
  {
    hide BigEndian, FindOr;
    OneEntryMore(key - lo, len);
    forall k | lo <= k < key + 1
      ensures BigEndian(more, at + (k - lo) * len, len) == FindOr(items, k, default)
    {
      if k < key {
        OneEntryMore(k - lo, len);
        Monotone(k + 1 - lo, key - lo, len);
        BigEndianKept(code, more, at + (k - lo) * len, len);
      }
    }
  }

  lemma OneEntryMore(n: nat, len: nat)
    ensures (n + 1) * len == n * len + len && n * len >= 0
  {
  }

  lemma Monotone(a: int, b: int, c: nat)
    requires a <= b
    ensures a * c <= b * c
  {
  }

  /** `tmp`, the entry number `i`, is the one for the `x`-th item that tells what to write for `key`. */
  ghost predicate AtItem(m: Entries, i: nat, items: seq<Item>, x: nat, key: int)
    reads m
  {
    && x < |items| && ItemAt(m, Pos(items, x), items[x])
    && (x > 0 ==> items[x - 1].hi < key)
    && if i == Pos(items, x) then Single(items[x]) || items[x].lo >= key
       else i == Pos(items, x) + 1 && !Single(items[x]) && items[x].lo <= key
  }

  lemma NextItem(m: Entries, i: nat, items: seq<Item>, x: nat, key: int)
    requires Represents(m, items) && Ascending(items) && AtItem(m, i, items, x, key)
    requires key <= items[|items| - 1].hi && items[x].hi == key - 1 && i < |m| && m[i].key < key
    ensures i + 1 < |m| && x + 1 < |items| && AtItem(m, i + 1, items, x + 1, key) && key <= items[x + 1].hi
  {
    if x + 1 < |items| {
      ItemIn(m, items, x + 1);
    }
  }

  lemma EntryOf(m: Entries, i: nat, items: seq<Item>, x: nat, key: int)
    requires AtItem(m, i, items, x, key) && key - 1 <= items[x].hi && Ascending(items)
    ensures i < |m| && (m[i].key < key <==> items[x].hi == key - 1)
  {
  }

  /** Within a range, its end tells the address. */
  lemma EnterRange(m: Entries, i: nat, items: seq<Item>, x: nat, key: int, default: int)
    requires AtItem(m, i, items, x, key) && Ascending(items) && i < |m| && key <= items[x].hi && items[x].addr > RANGE_START
    ensures var enter := key == m[i].key && m[i].addr == RANGE_START;
            var j := if enter then i + 1 else i;
            && j < |m| && AtItem(m, j, items, x, key) && (m[j].addr == RANGE_START ==> key != m[j].key)
            && (if key == m[j].key || m[j].line == 0 then m[j].addr else default) == FindOr(items, key, default)
  {
    FindAt(items, x, key, default);
  }

  lemma Bounds(m: Entries, items: seq<Item>)
    requires Represents(m, items) && items != [] && Ascending(items)
    ensures m != [] && m[0].key == items[0].lo && m[|m| - 1].key == items[|items| - 1].hi && items[0].lo <= items[|items| - 1].hi
    ensures items[0].lo <= items[0].hi && (Single(items[0]) ==> m[0].addr == items[0].addr)
    ensures (m[0].addr == RANGE_START && !Single(items[0])) ==> |m| > 1 && AtItem(m, 1, items, 0, items[0].lo)
    ensures Single(items[0]) ==> AtItem(m, 0, items, 0, items[0].lo)
    ensures !Single(items[0]) ==> m[0].addr == RANGE_START
  {
    ItemIn(m, items, 0);
    ItemIn(m, items, |items| - 1);
    ItemIn(m, items, |items|);
  }

  lemma NothingWritten(code: Code, items: seq<Item>, default: int, len: nat)
    requires items != []
    ensures Written(code, |code|, items, default, len, items[0].lo, items[0].lo)
  {
  }

  lemma Link(m: Entries, i: nat, behind: CaseEntry?)
    requires Linked(m, behind) && i + 1 < |m|
    ensures m[i].next == m[i + 1]
  {
  }

  lemma ProperAt(items: seq<Item>, default: int, len: nat, x: nat, key: int)
    requires Addresses(items, default, len) && x < |items|
    ensures items[x].addr > RANGE_START && Fits(FindOr(items, key, default), len)
  {
    FindFits(items, default, len, key);
  }

  lemma {:induction false} FindFits(items: seq<Item>, default: int, len: nat, key: int)
    requires Addresses(items, default, len)
    ensures Fits(FindOr(items, key, default), len)
  {
    if items != [] {
      FindFits(items[..|items| - 1], default, len, key);
    }
  }

  /** The same entry serves for the next key. */
  lemma LaterKey(m: Entries, i: nat, items: seq<Item>, x: nat, key: int)
    requires AtItem(m, i, items, x, key - 1) && i < |m| && key - 1 <= items[x].hi && !(key - 1 == m[i].key && m[i].addr == RANGE_START)
    ensures AtItem(m, i, items, x, key)
  {
  }

  lemma LastEntry(m: Entries, i: nat, items: seq<Item>, x: nat, key: int)
    requires Represents(m, items) && Ascending(items) && items != [] && AtItem(m, i, items, x, key)
    requires key == items[|items| - 1].hi + 1 && key - 1 <= items[x].hi
    ensures i == |m| - 1
  {
    ItemIn(m, items, |items|);
  }

  /** Write the table for the items from `tableStart` to `tableEnd`. */
  method WriteTable(tableStart: CaseEntry, tableEnd: CaseEntry, default: int, len: nat, code0: Code, ghost m: Entries,
                    ghost items: seq<Item>, ghost behind: CaseEntry?)
    returns (code: Code, removed: nat)
    requires Represents(m, items) && items != [] && Ascending(items) && Linked(m, behind) && Addresses(items, default, len)
    requires m != [] && m[0] == tableStart && m[|m| - 1] == tableEnd
    ensures code0 <= code && Written(code, |code0|, items, default, len, items[0].lo, items[|items| - 1].hi + 1)
    ensures removed == |m| - 1
  {
    hide Represents, Linked, Addresses, AtItem, FindOr, Written, Ascending, BigEndian;
    code, removed := code0, 0;
    var tmp := tableStart;
    var key := tmp.key;
    ghost var x := 0;
    Bounds(m, items);
    ProperAt(items, default, len, 0, key);
    if tmp.addr == RANGE_START {
      removed := removed + 1;
      Link(m, 0, behind);
      tmp := tmp.next;
    }
    NothingWritten(code, items, default, len);
    while key <= tableEnd.key
      invariant code0 <= code && Written(code, |code0|, items, default, len, items[0].lo, key)
      invariant items[0].lo <= key <= items[|items| - 1].hi + 1
      invariant removed < |m| && tmp == m[removed] && AtItem(m, removed, items, x, key) && x < |items| && key - 1 <= items[x].hi
      decreases tableEnd.key - key
    {
      EntryOf(m, removed, items, x, key);
      if tmp.key < key {
        NextItem(m, removed, items, x, key);
        Link(m, removed, behind);
        removed := removed + 1;
        tmp := tmp.next;
        x := x + 1;
      }
      ProperAt(items, default, len, x, key);
      EnterRange(m, removed, items, x, key, default);
      if key == tmp.key && tmp.addr == RANGE_START {
        Link(m, removed, behind);
        removed := removed + 1;
        tmp := tmp.next;
      }
      var addr := default;
      if key == tmp.key || tmp.line == 0 {
        addr := tmp.addr;
      }
      var more := PutAddress(code, addr, len);
      WriteNext(code, more, |code0|, items, default, len, items[0].lo, key);
      code, key := more, key + 1;
      LaterKey(m, removed, items, x, key);
    }
    LastEntry(m, removed, items, x, key);
  }

  // ----- the list with tables

  ghost predicate SlotNodes(s: Entries, t: Slot)
    reads s
  {
    match t
    case Plain(it) => if Single(it) then |s| == 1 && SingleNode(s[0], it) else |s| == 2 && RangeNodes(s[0], s[1], it)
    case Table(lo, hi, at) => |s| == 2 && s[0].key == lo && s[0].addr == LOOKUP && s[1].key == hi && s[1].addr == at
  }

  ghost predicate RepresentsSlots(s: Entries, slots: seq<Slot>)
    reads s
    decreases |slots|
  {
    if slots == [] then s == []
    else |s| >= Width(slots[0]) && SlotNodes(s[..Width(slots[0])], slots[0]) && RepresentsSlots(s[Width(slots[0])..], slots[1..])
  }

  lemma SlicesOfSum(s: Entries, t: Entries, w: nat)
    requires w <= |s|
    ensures (s + t)[w..] == s[w..] + t && (s + t)[..w] == s[..w]
  {
  }

  lemma {:induction false} SlotsConcat(s: Entries, slots: seq<Slot>, t: Entries, more: seq<Slot>)
    requires RepresentsSlots(s, slots) && RepresentsSlots(t, more)
    ensures RepresentsSlots(s + t, slots + more)
    decreases |slots|
  {
    hide SlotNodes;
    if slots == [] {
      assert s + t == t && slots + more == more;
    } else {
      var w := Width(slots[0]);
      SlotsConcat(s[w..], slots[1..], t, more);
      SlicesOfSum(s, t, w);
      assert (slots + more)[1..] == slots[1..] + more;
    }
  }

  function Plains(items: seq<Item>): (slots: seq<Slot>)
    ensures |slots| == |items| && forall i :: 0 <= i < |items| ==> slots[i] == Plain(items[i])
  {
    seq(|items|, i requires 0 <= i < |items| => Plain(items[i]))
  }

  lemma {:induction false} PlainNodes(s: Entries, items: seq<Item>)
    requires Represents(s, items)
    ensures RepresentsSlots(s, Plains(items))
    decreases |items|
  {
    if items != [] {
      var w := ItemWidth(items[0]);
      PlainNodes(s[w..], items[1..]);
      assert Plains(items)[1..] == Plains(items[1..]);
      assert s[..w] == if w == 1 then [s[0]] else [s[0], s[1]];
    }
  }

  lemma {:induction false} RepresentsSplit(s: Entries, items: seq<Item>, k: nat)
    requires Represents(s, items) && k <= |items|
    ensures Pos(items, k) <= |s| && Represents(s[..Pos(items, k)], items[..k]) && Represents(s[Pos(items, k)..], items[k..])
    decreases |items|
  {
    if k == 0 {
      assert s[0..] == s && items[0..] == items;
    } else {
      var w := ItemWidth(items[0]);
      RepresentsSplit(s[w..], items[1..], k - 1);
      PosTail(items, k);
      var p := Pos(items, k);
      assert s[w..][..p - w] == s[..p][w..] && s[w..][p - w..] == s[p..];
      assert items[1..][..k - 1] == items[..k][1..] && items[1..][k - 1..] == items[k..];
    }
  }

  /** What the items of one slot say, said by the slot. */
  ghost predicate Implements(t: Slot, part: seq<Item>, code: Code, len: nat, default: int) {
    match t
    case Plain(it) => part == [it]
    case Table(lo, hi, at) =>
      && part != [] && lo == part[0].lo < hi == part[|part| - 1].hi && RANGE_START < at && Fits(at, len)
      && at + (hi + 1 - lo) * len <= |code|
      && forall key :: lo <= key <= hi ==> BigEndian(code, at + (key - lo) * len, len) == FindOr(part, key, default)
  }

  ghost predicate AllImplement(slots: seq<Slot>, parts: seq<seq<Item>>, code: Code, len: nat, default: int) {
    |slots| == |parts| && forall i :: 0 <= i < |slots| ==> Implements(slots[i], parts[i], code, len, default)
  }

  function Flatten(parts: seq<seq<Item>>): seq<Item> {
    if parts == [] then [] else parts[0] + Flatten(parts[1..])
  }

  lemma {:induction false} FlattenConcat(a: seq<seq<Item>>, b: seq<seq<Item>>)
    ensures Flatten(a + b) == Flatten(a) + Flatten(b)
  {
    if a == [] {
      assert a + b == b;
    } else {
      FlattenConcat(a[1..], b);
      assert (a + b)[1..] == a[1..] + b;
      assert a[0] + (Flatten(a[1..]) + Flatten(b)) == a[0] + Flatten(a[1..]) + Flatten(b);
    }
  }

  function Singletons(items: seq<Item>): (parts: seq<seq<Item>>)
    ensures |parts| == |items| && forall i :: 0 <= i < |items| ==> parts[i] == [items[i]]
  {
    seq(|items|, i requires 0 <= i < |items| => [items[i]])
  }

  lemma {:induction false} FlattenSingletons(items: seq<Item>)
    ensures Flatten(Singletons(items)) == items
  {
    if items != [] {
      FlattenSingletons(items[1..]);
      assert Singletons(items)[1..] == Singletons(items[1..]);
    }
  }

  lemma CodeGrows(slots: seq<Slot>, parts: seq<seq<Item>>, code: Code, more: Code, len: nat, default: int)
    requires AllImplement(slots, parts, code, len, default) && code <= more
    ensures AllImplement(slots, parts, more, len, default)
  {
    forall i | 0 <= i < |slots|
      ensures Implements(slots[i], parts[i], more, len, default)
    {
      SlotKept(slots[i], parts[i], code, more, len, default);
    }
  }

  lemma SlotKept(t: Slot, part: seq<Item>, code: Code, more: Code, len: nat, default: int)
    requires Implements(t, part, code, len, default) && code <= more
    ensures Implements(t, part, more, len, default)
  {
    match t
    case Plain(_) =>
    case Table(lo, hi, at) =>
      forall key | lo <= key <= hi
        ensures BigEndian(more, at + (key - lo) * len, len) == FindOr(part, key, default)
      {
        PlaceInTable(key - lo, hi + 1 - lo, len);
        BigEndianKept(code, more, at + (key - lo) * len, len);
      }
  }

  lemma PlaceInTable(i: nat, n: nat, len: nat)
    requires i < n
    ensures 0 <= i * len && i * len + len <= n * len
  {
    assert i * len + len == (i + 1) * len;
    Monotone(i + 1, n, len);
  }

  lemma ConsProper(t: Slot, slots: seq<Slot>)
    requires ProperSlot(t) && ProperSlots(slots) && (slots != [] ==> Hi(t) < Lo(slots[0]))
    ensures ProperSlots([t] + slots)
  {
    var all := [t] + slots;
    assert forall i :: 0 < i < |all| ==> all[i] == slots[i - 1];
    assert forall i :: 0 < i < |slots| ==> Hi(slots[0]) < Lo(slots[i]);
  }

  lemma AscendingParts(a: seq<Item>, b: seq<Item>)
    requires Ascending(a + b)
    ensures Ascending(a) && Ascending(b) && (a != [] && b != [] ==> a[|a| - 1].hi < b[0].lo)
  {
    var c := a + b;
    assert forall i :: 0 <= i < |a| ==> c[i] == a[i];
    assert forall i :: 0 <= i < |b| ==> c[|a| + i] == b[i];
    if a != [] && b != [] {
      assert c[|a| - 1].hi < c[|a|].lo;
    }
  }

  ghost predicate Real(items: seq<Item>) {
    forall i :: 0 <= i < |items| ==> items[i].addr > RANGE_START
  }

  /** Slots made of items in order are in order, too. */
  lemma {:induction false} SlotsProper(slots: seq<Slot>, parts: seq<seq<Item>>, code: Code, len: nat, default: int)
    requires AllImplement(slots, parts, code, len, default) && Ascending(Flatten(parts)) && Real(Flatten(parts))
    ensures ProperSlots(slots)
    ensures if slots == [] then Flatten(parts) == [] else Flatten(parts) != [] && Lo(slots[0]) == Flatten(parts)[0].lo
    decreases |slots|
  {
    hide Ascending, ProperSlots;
    if slots == [] {
      assert ProperSlots(slots) by { NoSlots(); }
    } else {
      var rest := Flatten(parts[1..]);
      FirstPart(slots, parts, code, len, default);
      AscendingParts(parts[0], rest);
      RealParts(parts[0], rest);
      SlotsProper(slots[1..], parts[1..], code, len, default);
      ConsProper(slots[0], slots[1..]);
      assert [slots[0]] + slots[1..] == slots;
    }
  }

  lemma NoSlots()
    ensures ProperSlots([])
  {
  }

  lemma RealParts(a: seq<Item>, b: seq<Item>)
    requires Real(a + b)
    ensures Real(a) && Real(b)
  {
    assert forall i :: 0 <= i < |a| ==> (a + b)[i] == a[i];
    assert forall i :: 0 <= i < |b| ==> (a + b)[|a| + i] == b[i];
  }

  lemma FirstPart(slots: seq<Slot>, parts: seq<seq<Item>>, code: Code, len: nat, default: int)
    requires AllImplement(slots, parts, code, len, default) && slots != []
    ensures Implements(slots[0], parts[0], code, len, default) && AllImplement(slots[1..], parts[1..], code, len, default)
    ensures parts[0] != [] && Lo(slots[0]) == parts[0][0].lo && Hi(slots[0]) == parts[0][|parts[0]| - 1].hi
    ensures Ascending(parts[0]) && Real(parts[0]) ==> ProperSlot(slots[0])
  {
    assert Implements(slots[0], parts[0], code, len, default);
  }

  lemma {:induction false} FindConcat(a: seq<Item>, b: seq<Item>, key: int, default: int)
    requires Ascending(a + b) && a != []
    ensures FindOr(a + b, key, default) == if key <= a[|a| - 1].hi then FindOr(a, key, default) else FindOr(b, key, default)
    ensures key < a[0].lo ==> FindOr(a, key, default) == default
    decreases |b|
  {
    AscendingParts(a, b);
    if b == [] {
      assert a + b == a;
      if key > a[|a| - 1].hi {
        NothingBelow(a, key);
      }
    } else {
      var n := |b| - 1;
      assert (a + b)[..|a| + n] == a + b[..n];
      FindConcat(a, b[..n], key, default);
    }
    if key < a[0].lo {
      NothingAbove(a, key);
    }
  }

  lemma {:induction false} NothingAbove(items: seq<Item>, key: int)
    requires Ascending(items) && (items != [] ==> key < items[0].lo)
    ensures Find(items, key) == None
  {
    if items != [] {
      NothingAbove(items[..|items| - 1], key);
    }
  }

  /** Slots lead every key to where the items lead it of which they have been made. */
  lemma {:induction false} SlotsTarget(slots: seq<Slot>, parts: seq<seq<Item>>, code: Code, len: nat, default: int, key: int)
    requires AllImplement(slots, parts, code, len, default) && Ascending(Flatten(parts))
    ensures Target(slots, code, len, default, key) == FindOr(Flatten(parts), key, default)
    decreases |slots|
  {
    hide Ascending, FindOr;
    if slots == [] {
      assert FindOr([], key, default) == default by { NoItems(key, default); }
    } else {
      var rest := Flatten(parts[1..]);
      FirstPart(slots, parts, code, len, default);
      AscendingParts(parts[0], rest);
      SlotsTarget(slots[1..], parts[1..], code, len, default, key);
      FindConcat(parts[0], rest, key, default);
      if key < Lo(slots[0]) {
        NothingFound(rest, key, default, parts[0]);
      } else if key <= Hi(slots[0]) {
        SlotFinds(slots[0], parts[0], code, len, default, key);
      }
    }
  }

  lemma NoItems(key: int, default: int)
    ensures FindOr([], key, default) == default
  {
  }

  lemma NothingFound(rest: seq<Item>, key: int, default: int, part: seq<Item>)
    requires Ascending(rest) && part != [] && Ascending(part) && key < part[0].lo && (rest != [] ==> part[|part| - 1].hi < rest[0].lo)
    ensures FindOr(rest, key, default) == default
  {
    assert part[0].lo <= part[|part| - 1].hi;
    NothingAbove(rest, key);
  }

  lemma SlotFinds(t: Slot, part: seq<Item>, code: Code, len: nat, default: int, key: int)
    requires Implements(t, part, code, len, default) && Lo(t) <= key <= Hi(t)
    ensures SlotTarget(t, code, len, key) == FindOr(part, key, default)
  {
  }
}
