/** What the SWITCH instruction does with the tables that have been written for it. */
module CaseSearch {
  import opened Wrappers
  import Bytecode
  import opened CaseRanges

  type Code = seq<Bytecode.Byte>

  /** One item of the final table. In a lookup table, the offset for each key stands at `at`. */
  datatype Slot = Plain(item: Item) | Table(lo: int, hi: int, at: int)

  function Lo(s: Slot): int {
    if s.Plain? then s.item.lo else s.lo
  }

  function Hi(s: Slot): int {
    if s.Plain? then s.item.hi else s.hi
  }

  /** The number of entries of the tables v and o that a slot takes. */
  function Width(s: Slot): nat {
    if s.Plain? && Single(s.item) then 1 else 2
  }

  const LOOKUP := 0

  predicate ProperSlot(s: Slot) {
    Lo(s) <= Hi(s) && (if s.Plain? then s.item.addr > RANGE_START else s.lo < s.hi && s.at > RANGE_START)
  }

  predicate ProperSlots(slots: seq<Slot>) {
    && (forall i :: 0 <= i < |slots| ==> ProperSlot(slots[i]))
    && forall i, j :: 0 <= i < j < |slots| ==> Hi(slots[i]) < Lo(slots[j])
  }

  function SlotKeys(s: Slot): seq<int> {
    if Width(s) == 1 then [Lo(s)] else [Lo(s), Hi(s)]
  }

  function SlotOffsets(s: Slot): seq<int> {
    match s
    case Plain(it) => if Single(it) then [it.addr] else [RANGE_START, it.addr]
    case Table(_, _, at) => [LOOKUP, at]
  }

  /** The case value table. */
  function Keys(slots: seq<Slot>): seq<int> {
    if slots == [] then [] else SlotKeys(slots[0]) + Keys(slots[1..])
  }

  /** The case offset table. */
  function Offsets(slots: seq<Slot>): seq<int> {
    if slots == [] then [] else SlotOffsets(slots[0]) + Offsets(slots[1..])
  }

  /** `len` bytes from `at` on, the most significant one first. */
  function BigEndian(code: Code, at: int, len: nat): int {
    if len == 0 || at < 0 || at + len > |code| then 0
    else
      var low: int := code[at + len - 1];
      BigEndian(code, at, len - 1) * 256 + low
  }

  /** Where a slot leads a key. */
  function SlotTarget(s: Slot, code: Code, len: nat, key: int): int {
    match s
    case Plain(it) => it.addr
    case Table(lo, _, at) => BigEndian(code, at + (key - lo) * len, len)
  }

  predicate InSlot(s: Slot, key: int) {
    Lo(s) <= key <= Hi(s)
  }

  /** The offset the switch has to take for a key. */
  function Target(slots: seq<Slot>, code: Code, len: nat, default: int, key: int): int {
    if slots == [] then default
    else if InSlot(slots[0], key) then SlotTarget(slots[0], code, len, key)
    else Target(slots[1..], code, len, default, key)
  }

  // ----- the search

  function Pow2(i: nat): nat {
    if i == 0 then 1 else 2 * Pow2(i - 1)
  }

  /** The number of keys below `s`. */
  ghost predicate Position(v: seq<int>, s: int, t: nat) {
    t <= |v| && (forall i :: 0 <= i < t ==> v[i] < s) && forall i :: t <= i < |v| ==> s <= v[i]
  }

  ghost predicate Increasing(v: seq<int>) {
    forall i, j :: 0 <= i < j < |v| ==> v[i] < v[j]
  }

  lemma {:induction false} PositionExists(v: seq<int>, s: int) returns (t: nat)
    requires Increasing(v)
    ensures Position(v, s, t)
  {
    if v == [] || s <= v[0] {
      t := 0;
    } else {
      var u := PositionExists(v[1..], s);
      t := u + 1;
      assert forall i :: 0 < i < |v| ==> v[i] == v[1..][i - 1];
    }
  }

  /** From `at`, with the steps that are left, the search still gets to the position of `s`. Once the step is
      less than an entry it is there. */
  ghost predicate Reach(v: seq<int>, s: int, t: nat, at: int, d: int, k: nat) {
    && 0 <= at < |v| && t <= |v|
    && if d >= PINT_SIZE then d == Pow2(k) * PINT_SIZE && 0 <= at - (2 * Pow2(k) - 1) <= t && Strictly(v, s, t, at + 2 * Pow2(k))
       else (d == PINT_SIZE / 2 || d == 0) && at <= t && Strictly(v, s, t, at + 1)
  }

  /** `s` belongs before `upper`, and is not the key there. */
  ghost predicate Strictly(v: seq<int>, s: int, t: nat, upper: int) {
    t <= upper && (t == upper && t < |v| ==> s < v[t])
  }

  /** What the search leaves: `s` has been found, or belongs between two neighbours. */
  predicate Searched(v: seq<int>, s: int, at: nat) {
    at < |v| &&
    if s < v[at] then at > 0 ==> v[at - 1] < s
    else if s > v[at] then at + 1 < |v| ==> s < v[at + 1]
    else true
  }

  const PINT_SIZE := 8

  /** The search for a key. Positions and steps are counted in bytes of the value table. */
  method Search(v: seq<int>, s: int, start: nat) returns (at: nat)
    requires Increasing(v) && Pow2(start) <= |v| < 2 * Pow2(start)
    ensures Searched(v, s, at)
  {
    ghost var t := PositionExists(v, s);
    ghost var k: nat := if start == 0 then 0 else start - 1;
    var endTab := |v| * PINT_SIZE;
    at := Pow2(start) - 1;
    var l: nat := at * PINT_SIZE;
    var d: nat := if start == 0 then 0 else Pow2(start - 1) * PINT_SIZE;
    while true
      invariant l == at * PINT_SIZE && Reach(v, s, t, at, d, k)
      decreases d
    {
      assert at == l / PINT_SIZE;
      var r := v[l / PINT_SIZE];
      if s == r || d == 0 {
        return;
      } else if d < PINT_SIZE {
        d := 0;
      } else if s < r {
        ghost var n := Pow2(k);
        assert d == n * PINT_SIZE && (k > 0 ==> n == 2 * Pow2(k - 1));
        assert d / PINT_SIZE == n;
        at := at - d / PINT_SIZE;
        l := l - d;
        d := d / 2;
        k := if k == 0 then 0 else k - 1;
      } else {
        at, l, d, k := MoveUp(v, s, t, at, l, d, k, endTab);
      }
    }
  }

  /** Move up by `d`. If that is beyond the table, move down again by ever smaller steps. */
  method MoveUp(v: seq<int>, s: int, ghost t: nat, at0: nat, l0: nat, d0: nat, ghost k0: nat, endTab: nat)
    returns (at: nat, l: nat, d: nat, ghost k: nat)
    requires Position(v, s, t) && Reach(v, s, t, at0, d0, k0) && l0 == at0 * PINT_SIZE && d0 >= PINT_SIZE
    requires v[at0] < s && endTab == |v| * PINT_SIZE
    ensures l == at * PINT_SIZE && d < d0 && Reach(v, s, t, at, d, k)
  {
    l, d, k := l0 + d0, d0, k0;
    while l >= endTab
      invariant d == Pow2(k) * PINT_SIZE && l == l0 + d && d <= d0
      invariant d == d0 || l + d >= endTab
      decreases d
    {
      assert k > 0 ==> Pow2(k) == 2 * Pow2(k - 1);
      d := d / 2;
      if d <= PINT_SIZE / 2 {
        at, l, d := at0, l - PINT_SIZE, 0;
        return;
      }
      l := l - d;
      k := k - 1;
    }
    assert k > 0 ==> Pow2(k) == 2 * Pow2(k - 1);
    at := at0 + d / PINT_SIZE;
    d := d / 2;
    k := if k == 0 then 0 else k - 1;
  }

  // ----- the offset at the place that has been found

  /** The offset of an entry that ends a range, or the one the lookup table at it holds. */
  function RangeTarget(start: int, end: int, code: Code, len: nat, distance: int): int {
    if start == LOOKUP then BigEndian(code, end + distance * len, len) else end
  }

  /** Read the offset off the tables where the search has ended. */
  function Decode(v: seq<int>, o: seq<int>, code: Code, len: nat, default: int, at: nat, s: int): int
    requires |v| == |o| && Searched(v, s, at)
  {
    if s < v[at] then
      if at > 0 && o[at - 1] <= RANGE_START && s >= v[at - 1] then RangeTarget(o[at - 1], o[at], code, len, s - v[at - 1])
      else default
    else if s > v[at] then
      if o[at] <= RANGE_START && at + 1 < |v| && s <= v[at + 1] then RangeTarget(o[at], o[at + 1], code, len, s - v[at])
      else default
    else if at > 0 && o[at - 1] == LOOKUP then RangeTarget(LOOKUP, o[at], code, len, s - v[at - 1])
    else if o[at] <= RANGE_START && at + 1 < |v| then RangeTarget(o[at], o[at + 1], code, len, 0)
    else o[at]
  }

  lemma {:induction false} TableSizes(slots: seq<Slot>)
    ensures |Keys(slots)| == |Offsets(slots)| && (slots != [] ==> |Keys(slots)| > 0)
  {
    if slots != [] {
      TableSizes(slots[1..]);
    }
  }

  lemma {:induction false} KeysIncrease(slots: seq<Slot>)
    requires ProperSlots(slots)
    ensures Increasing(Keys(slots)) && forall i :: 0 <= i < |Keys(slots)| ==> Lo(slots[0]) <= Keys(slots)[i]
  {
    if slots != [] {
      KeysIncrease(slots[1..]);
      TableSizes(slots[1..]);
      assert slots[1..] != [] ==> Hi(slots[0]) < Lo(slots[1..][0]);
    }
  }

  /** Wherever the search ends, the offset read there is the one the slots stand for. */
  lemma {:induction false} DecodeTarget(slots: seq<Slot>, code: Code, len: nat, default: int, at: nat, s: int)
    requires ProperSlots(slots) && |Keys(slots)| == |Offsets(slots)| && Searched(Keys(slots), s, at)
    ensures Decode(Keys(slots), Offsets(slots), code, len, default, at, s) == Target(slots, code, len, default, s)
  {
    hide Decode, Target, Keys, Offsets, ProperSlots, ProperSlot;
    FirstSlot(slots);
    var w := Width(slots[0]);
    TableSizes(slots[1..]);
    if at >= w {
      LaterEntry(slots, code, len, default, at, s);
      DecodeTarget(slots[1..], code, len, default, at - w, s);
    } else {
      FirstEntry(slots, code, len, default, at, s);
    }
  }

  lemma FirstSlot(slots: seq<Slot>)
    requires ProperSlots(slots) && |Keys(slots)| > 0
    ensures slots != [] && ProperSlots(slots[1..])
  {
  }

  /** An entry of a later slot is read in the same way without the first slot. */
  lemma LaterEntry(slots: seq<Slot>, code: Code, len: nat, default: int, at: nat, s: int)
    requires slots != [] && ProperSlots(slots) && |Keys(slots)| == |Offsets(slots)| && |Keys(slots[1..])| == |Offsets(slots[1..])|
    requires Searched(Keys(slots), s, at) && at >= Width(slots[0])
    ensures var w := Width(slots[0]);
            && Searched(Keys(slots[1..]), s, at - w)
            && Decode(Keys(slots), Offsets(slots), code, len, default, at, s)
            == Decode(Keys(slots[1..]), Offsets(slots[1..]), code, len, default, at - w, s)
            && Target(slots, code, len, default, s) == Target(slots[1..], code, len, default, s)
  {
    hide Decode, SlotTarget, ProperSlot;
    KeysIncrease(slots);
    DecodeShift(SlotKeys(slots[0]), SlotOffsets(slots[0]), Keys(slots[1..]), Offsets(slots[1..]), code, len, default, at, s) by {
      SlotTables(slots);
    }
    SlotTables(slots);
  }

  lemma SlotTables(slots: seq<Slot>)
    requires slots != [] && ProperSlots(slots)
    ensures var k, o, w := SlotKeys(slots[0]), SlotOffsets(slots[0]), Width(slots[0]);
            && Keys(slots) == k + Keys(slots[1..]) && Offsets(slots) == o + Offsets(slots[1..])
            && |k| == |o| == w && k[w - 1] == Hi(slots[0]) && o[w - 1] > RANGE_START
  {
  }

  lemma DecodeShift(k: seq<int>, p: seq<int>, v: seq<int>, o: seq<int>, code: Code, len: nat, default: int, at: nat, s: int)
    requires |k| == |p| > 0 && |v| == |o| && p[|p| - 1] > RANGE_START && Increasing(k + v)
    requires Searched(k + v, s, at) && at >= |k|
    ensures Searched(v, s, at - |k|) && k[|k| - 1] < s
    ensures Decode(k + v, p + o, code, len, default, at, s) == Decode(v, o, code, len, default, at - |k|, s)
  {
    hide RangeTarget;
    var w, v', o' := |k|, k + v, p + o;
    assert v'[at] == v[at - w] && o'[at] == o[at - w] && v'[w - 1] == k[w - 1] < v'[at];
    if at == w {
      assert v'[at - 1] == k[w - 1] && o'[at - 1] == p[w - 1];
    } else {
      assert v'[at - 1] == v[at - 1 - w] && o'[at - 1] == o[at - 1 - w] && k[w - 1] < v'[at - 1];
    }
    assert at + 1 < |v'| ==> v'[at + 1] == v[at + 1 - w] && o'[at + 1] == o[at + 1 - w];
  }

  lemma FirstEntry(slots: seq<Slot>, code: Code, len: nat, default: int, at: nat, s: int)
    requires slots != [] && ProperSlots(slots) && |Keys(slots)| == |Offsets(slots)|
    requires Searched(Keys(slots), s, at) && at < Width(slots[0])
    ensures Decode(Keys(slots), Offsets(slots), code, len, default, at, s) == Target(slots, code, len, default, s)
  {
    hide BigEndian, Decode, ProperSlot, SlotTarget;
    SlotTables(slots);
    TableSizes(slots[1..]);
    KeysIncrease(slots);
    DecodeFirst(slots[0], Keys(slots[1..]), Offsets(slots[1..]), code, len, default, at, s) by {
      assert ProperSlot(slots[0]);
    }
    if !InSlot(slots[0], s) && |slots| > 1 {
      FirstKey(slots[1..]);
      assert s < Lo(slots[1]) by {
        assert Keys(slots)[Width(slots[0])] == Keys(slots[1..])[0];
      }
    }
    if !InSlot(slots[0], s) {
      NotLater(slots, code, len, default, s);
    }
  }

  lemma DecodeFirst(t: Slot, v: seq<int>, o: seq<int>, code: Code, len: nat, default: int, at: nat, s: int)
    requires ProperSlot(t) && |v| == |o| && at < Width(t) && Searched(SlotKeys(t) + v, s, at)
    ensures Decode(SlotKeys(t) + v, SlotOffsets(t) + o, code, len, default, at, s)
         == if InSlot(t, s) then SlotTarget(t, code, len, s) else default
  {
    hide BigEndian;
    var k, p := SlotKeys(t) + v, SlotOffsets(t) + o;
    assert k[0] == Lo(t) && p[0] == SlotOffsets(t)[0];
    if Width(t) == 2 {
      assert k[1] == Hi(t) && p[1] == SlotOffsets(t)[1];
    }
  }

  lemma FirstKey(slots: seq<Slot>)
    requires slots != []
    ensures |Keys(slots)| > 0 && Keys(slots)[0] == Lo(slots[0])
  {
  }

  lemma {:induction false} NotLater(slots: seq<Slot>, code: Code, len: nat, default: int, s: int)
    requires ProperSlots(slots) && slots != [] && (|slots| > 1 ==> s < Lo(slots[1]))
    ensures Target(slots[1..], code, len, default, s) == default
  {
    if |slots| > 1 {
      assert slots[1..][1..] == slots[2..];
      if |slots| > 2 {
        assert Lo(slots[1]) <= Hi(slots[1]) < Lo(slots[2]);
      }
      NotLater(slots[1..], code, len, default, s);
    }
  }

  /** The SWITCH instruction: search the key and read the offset. */
  method Switch(v: seq<int>, o: seq<int>, code: Code, len: nat, default: int, start: nat, s: int, ghost slots: seq<Slot>)
    returns (offset: int)
    requires slots != [] && ProperSlots(slots) && v == Keys(slots) && o == Offsets(slots) && Pow2(start) <= |v| < 2 * Pow2(start)
    ensures offset == Target(slots, code, len, default, s)
  {
    TableSizes(slots);
    KeysIncrease(slots);
    var at := Search(v, s, start);
    DecodeTarget(slots, code, len, default, at, s);
    offset := Decode(v, o, code, len, default, at, s);
  }

  /** The start position that is stored with the tables. */
  method StartPosition(keyNum: nat) returns (i: nat)
    requires keyNum > 0
    ensures Pow2(i) <= keyNum < 2 * Pow2(i)
  {
    i := 0;
    var o := 2;
    while o <= keyNum
      invariant o == 2 * Pow2(i) && Pow2(i) <= keyNum
      decreases keyNum - o
    {
      i, o := i + 1, o * 2;
    }
  }
}
