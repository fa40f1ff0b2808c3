/** The tables of a numeric #'switch, from the labels to the jump. */
module SwitchCases {
  import opened Wrappers
  import opened CaseSort
  import opened CaseRanges
  import opened CaseJoin
  import opened CaseCount
  import opened CaseSearch
  import opened CaseTable
  import opened CaseGain

  datatype SwitchError = BadLabels(error: CaseError) | OffsetOverflow

  /** What is stored with the instruction: the tables v and o, the code with the lookup tables behind it,
      the size of an offset, the offset for all other keys, and where the search starts. */
  datatype SwitchTables = SwitchTables(v: seq<int>, o: seq<int>, code: Code, len: nat, default: int, start: nat)

  /** The offset the labels ask for: offsets grow with the size that offsets take. */
  ghost predicate LabelSays(ls: seq<Label>, default: int, len: nat, key: int, offset: int) {
    (exists i :: 0 <= i < |ls| && Covers(ls[i].item, key) && offset == ls[i].item.addr + len - 1)
    || ((forall i :: 0 <= i < |ls| ==> !Covers(ls[i].item, key)) && offset == default + len - 1)
  }

  ghost predicate MadeOf(t: SwitchTables, slots: seq<Slot>) {
    && slots != [] && ProperSlots(slots) && t.v == Keys(slots) && t.o == Offsets(slots)
    && Pow2(t.start) <= |t.v| < 2 * Pow2(t.start)
  }

  /** Whatever key is looked up, the tables lead where the labels say. */
  ghost predicate Serves(t: SwitchTables, slots: seq<Slot>, ls: seq<Label>, default: int) {
    MadeOf(t, slots) && forall key :: LabelSays(ls, default, t.len, key, Target(slots, t.code, t.len, t.default, key))
  }

  /** The bytes that switch and tables take with offsets of `len` bytes. */
  function Total(length: nat, keyNum: nat, len: nat): nat
    requires len >= 1
  {
    length + keyNum * EntrySize(len) + (len - 1)
  }

  /** The size of an offset. */
  method OffsetSize(length: nat, keyNum: nat) returns (len: nat)
    ensures len == 0 || (1 <= len <= 3 && Fits(Total(length, keyNum, len), len))
    ensures forall n :: 1 <= n <= 3 && (len == 0 || n < len) ==> !Fits(Total(length, keyNum, n), n)
  {
    if Total(length, keyNum, 1) <= 0xff {
      len := 1;
    } else if Total(length, keyNum, 2) <= 0xffff {
      len := 2;
    } else if Total(length, keyNum, 3) <= 0xff_ffff {
      len := 3;
    } else {
      len := 0;
    }
  }

  /** Offsets of `len` bytes are enough for the code and for the entries that are left of the labels. */
  ghost predicate Enough(length: nat, ls: seq<Label>, len: nat)
    requires len >= 1
  {
    Fits(Total(length, |Edges(ls)|, len), len)
  }

  /** Make room for the additional bytes of the offsets. */
  function Moved(code: Code, n: nat): Code
    requires n <= |code|
  {
    code[..n] + code
  }

  ghost predicate HasAddress(ls: seq<Label>, addr: int) {
    exists k :: 0 <= k < |ls| && ls[k].item.addr == addr
  }

  lemma JoinedReal(items: seq<Item>, ls: seq<Label>)
    requires SaysWhat(items, ls) && forall i :: 0 <= i < |ls| ==> ProperLabel(ls[i])
    ensures forall i :: 0 <= i < |items| ==> HasAddress(ls, items[i].addr)
    ensures Real(items) && Ascending(items)
  {
    forall i | 0 <= i < |items|
      ensures HasAddress(ls, items[i].addr)
    {
      FoundAt(items, i);
      Said(items, ls, items[i].lo, items[i].addr);
    }
  }

  lemma Said(items: seq<Item>, ls: seq<Label>, key: int, addr: int)
    requires SaysWhat(items, ls) && Find(items, key) == Some(addr)
    ensures HasAddress(ls, addr)
  {
    var k :| 0 <= k < |ls| && Covers(ls[k].item, key) && ls[k].item.addr == addr;
  }

  lemma {:induction false} FoundAt(items: seq<Item>, i: nat)
    requires Ascending(items) && i < |items|
    ensures Find(items, items[i].lo) == Some(items[i].addr)
  {
    var n := |items| - 1;
    if i < n {
      FoundAt(items[..n], i);
    }
  }

  /** Sort and join the labels, find lookup tables, and store everything. */
  method StoreCaseLabels(cases: CaseState, code: Code, default: int, ghost ls: seq<Label>)
    returns (r: Result<SwitchTables, SwitchError>, ghost slots: seq<Slot>)
    requires cases.Valid() && cases.list0 != null
    requires multiset(Values(cases.entries0 + cases.entries1)) == multiset(AllEntries(ls))
    requires forall i :: 0 <= i < |ls| ==> ProperLabel(ls[i]) && ls[i].item.addr < |code|
    requires 2 < |code| && 0 <= default < |code|
    modifies cases, Nodes(cases.entries0 + cases.entries1)
    ensures match r
            case Ok(t) =>
              && Disjoint(ls) && Serves(t, slots, ls, default)
              && 1 <= t.len <= 3 && Enough(|code|, ls, t.len) && (forall n :: 1 <= n < t.len ==> !Enough(|code|, ls, n))
            case Err(OffsetOverflow) => Disjoint(ls) && forall n :: 1 <= n <= 3 ==> !Enough(|code|, ls, n)
            case Err(BadLabels(err)) => !Disjoint(ls) && Reports(ls, err)
  {
    hide Reports, Edges, Maximal, Values, AllEntries, ProperLabel, Disjoint, Represents, SaysWhat, Serves, List, Nodes, Fits;
    hide Shifted, Final, Addresses, Real, Ascending;
    slots := [];
    ghost var all := cases.entries0 + cases.entries1;
    var joined, s := JoinLabels(cases, ls);
    if joined.Err? {
      return Err(BadLabels(joined.error)), slots;
    }
    ghost var items :| Represents(s, items) && SaysWhat(items, ls) && Maximal(items);
    EntriesLeft(s, items, ls);
    var len := OffsetSize(|code|, joined.value);
    if len == 0 {
      return Err(OffsetOverflow), slots;
    }
    NotEmpty(cases.list0, s);
    FrameNodes(s, all);
    var t;
    t, slots := StoreTables(cases.list0, joined.value, code, default, len, s, items, ls);
    r := Ok(t);
  }

  /** Find lookup tables among the joined labels, and store what the interpreter needs. */
  method StoreTables(list0: CaseEntry, keyNum0: nat, code: Code, default: int, len: nat, ghost nodes: Entries, ghost items: seq<Item>,
                     ghost ls: seq<Label>)
    returns (t: SwitchTables, ghost slots: seq<Slot>)
    requires List(list0, nodes) && nodes != [] && Represents(nodes, items) && SaysWhat(items, ls) && keyNum0 == |nodes|
    requires forall i :: 0 <= i < |ls| ==> ProperLabel(ls[i]) && ls[i].item.addr < |code|
    requires 2 < |code| && 0 <= default < |code| && 1 <= len <= 3 && Fits(Total(|code|, keyNum0, len), len)
    modifies Nodes(nodes)
    ensures Serves(t, slots, ls, default) && t.len == len
  {
    hide ProperLabel, Represents, SaysWhat, Serves, List, Nodes, Fits, Shifted, Final, Addresses, Real, Ascending;
    Sizes(items, ls, code, default, len, keyNum0);
    var keyNum, moved;
    ghost var s, parts;
    keyNum, moved, s, slots, parts := FindTables(list0, keyNum0, Moved(code, len - 1), default + len - 1, len, nodes, items);
    FinalTables(list0, s, slots, parts, items, moved, len, default + len - 1);
    var v, o := EmitTables(list0, s, slots);
    var start := StartPosition(keyNum);
    t := SwitchTables(v, o, moved, len, default + len - 1, start);
    AllServed(t, slots, parts, items, ls, default);
  }

  lemma FrameNodes(s: Entries, all: Entries)
    requires Nodes(s) <= Nodes(all)
    ensures forall e :: e in Nodes(s) ==> e in Nodes(all)
  {
  }

  lemma NotEmpty(list0: CaseEntry?, s: Entries)
    requires List(list0, s) && list0 != null
    ensures s != []
  {
  }

  lemma Sizes(items: seq<Item>, ls: seq<Label>, code: Code, default: int, len: nat, keyNum: nat)
    requires SaysWhat(items, ls) && forall i :: 0 <= i < |ls| ==> ProperLabel(ls[i]) && ls[i].item.addr < |code|
    requires 2 < |code| && 0 <= default < |code| && 1 <= len <= 3 && Fits(Total(|code|, keyNum, len), len)
    ensures Ascending(items) && Real(items) && Addresses(Shifted(items, len - 1), default + len - 1, len)
    ensures Affordable(keyNum, Moved(code, len - 1), len)
  {
    JoinedReal(items, ls);
    Monotone(0, keyNum, EntrySize(len));
    var r := Shifted(items, len - 1);
    forall i | 0 <= i < |r|
      ensures Fits(r[i].addr, len) && r[i].addr > RANGE_START
    {
      assert r[i] == items[i].(addr := items[i].addr + (len - 1));
      var k :| 0 <= k < |ls| && ls[k].item.addr == items[i].addr;
    }
  }

  lemma FinalTables(list0: CaseEntry?, s: Entries, slots: seq<Slot>, parts: seq<seq<Item>>, items: seq<Item>, code: Code, len: nat,
                    default: int)
    requires list0 != null && Final(list0, s, slots, parts, Shifted(items, len - 1), code, len, default)
    ensures List(list0, s) && RepresentsSlots(s, slots) && s != [] && slots != []
    ensures |Keys(slots)| == |s|
    ensures AllImplement(slots, parts, code, len, default) && Flatten(parts) == Shifted(items, len - 1)
  {
    ListTables(s, slots);
  }

  lemma AllServed(t: SwitchTables, slots: seq<Slot>, parts: seq<seq<Item>>, items: seq<Item>, ls: seq<Label>, default: int)
    requires t.len >= 1 && AllImplement(slots, parts, t.code, t.len, t.default) && Flatten(parts) == Shifted(items, t.len - 1)
    requires SaysWhat(items, ls) && Ascending(items) && Real(items) && t.default == default + t.len - 1
    requires slots != [] && t.v == Keys(slots) && t.o == Offsets(slots) && Pow2(t.start) <= |t.v| < 2 * Pow2(t.start)
    ensures Serves(t, slots, ls, default)
  {
    hide AllImplement, Flatten, Keys, Offsets, Target, LabelSays, SaysWhat, Pow2, Ascending, Real, Shifted, ProperSlots;
    ShiftedAscends(items, t.len - 1);
    ShiftedReal(items, t.len - 1);
    SlotsProper(slots, parts, t.code, t.len, t.default);
    forall key
      ensures LabelSays(ls, default, t.len, key, Target(slots, t.code, t.len, t.default, key))
    {
      KeyServed(t, slots, parts, items, ls, default, key);
    }
  }

  lemma KeyServed(t: SwitchTables, slots: seq<Slot>, parts: seq<seq<Item>>, items: seq<Item>, ls: seq<Label>, default: int, key: int)
    requires t.len >= 1 && AllImplement(slots, parts, t.code, t.len, t.default) && Flatten(parts) == Shifted(items, t.len - 1)
    requires SaysWhat(items, ls) && Ascending(Flatten(parts)) && t.default == default + t.len - 1
    ensures LabelSays(ls, default, t.len, key, Target(slots, t.code, t.len, t.default, key))
  {
    hide AllImplement, Flatten, Target, LabelSays, SaysWhat, Ascending, FindOr, Find, Shifted;
    SlotsTarget(slots, parts, t.code, t.len, t.default, key);
    FindShifted(items, t.len - 1, key);
    SaysSo(items, ls, key, default, t.len);
  }

  lemma ShiftedReal(items: seq<Item>, n: nat)
    requires Real(items)
    ensures Real(Shifted(items, n))
  {
  }

  lemma {:induction false} FindShifted(items: seq<Item>, n: int, key: int)
    ensures Find(Shifted(items, n), key) == match Find(items, key) case Some(addr) => Some(addr + n) case None => None
  {
    if items != [] {
      var k := |items| - 1;
      FindShifted(items[..k], n, key);
      assert Shifted(items, n)[..k] == Shifted(items[..k], n);
    }
  }

  lemma SaysSo(items: seq<Item>, ls: seq<Label>, key: int, default: int, len: nat)
    requires SaysWhat(items, ls) && len >= 1
    requires Find(Shifted(items, len - 1), key) == match Find(items, key) case Some(addr) => Some(addr + (len - 1)) case None => None
    ensures LabelSays(ls, default, len, key, FindOr(Shifted(items, len - 1), key, default + len - 1))
  {
  }

  /** A switch on tables made from labels: control goes to the label that covers the key, or to the default. */
  method RunSwitch(t: SwitchTables, key: int, ghost slots: seq<Slot>, ghost ls: seq<Label>, ghost default: int) returns (offset: int)
    requires Serves(t, slots, ls, default)
    ensures LabelSays(ls, default, t.len, key, offset)
  {
    hide Target, LabelSays;
    offset := Switch(t.v, t.o, t.code, t.len, t.default, t.start, key, slots);
  }
}
