/** How many entries the case list has after labels have been joined, told by the labels. */
module CaseCount {
  import opened Wrappers
  import opened CaseSort
  import opened CaseRanges
  import opened CaseJoin

  /** Some label gives the key the address. */
  ghost predicate Says(ls: seq<Label>, key: int, addr: int) {
    exists i :: 0 <= i < |ls| && Covers(ls[i].item, key) && ls[i].item.addr == addr
  }

  /** The key has an address that the key before it or the key behind it does not have. */
  ghost predicate Edge(ls: seq<Label>, key: int) {
    exists i :: 0 <= i < |ls| && Covers(ls[i].item, key)
                && !(Says(ls, key - 1, ls[i].item.addr) && Says(ls, key + 1, ls[i].item.addr))
  }

  ghost function Bounds(ls: seq<Label>): set<int> {
    (set i | 0 <= i < |ls| :: ls[i].item.lo) + (set i | 0 <= i < |ls| :: ls[i].item.hi)
  }

  /** The keys at which a stretch of keys with one address starts or ends. */
  ghost function Edges(ls: seq<Label>): set<int> {
    set key | key in Bounds(ls) && Edge(ls, key)
  }

  /** There are no others. */
  lemma EdgesIff(ls: seq<Label>, key: int)
    ensures key in Edges(ls) <==> Edge(ls, key)
  {
    if Edge(ls, key) {
      var i :| 0 <= i < |ls| && Covers(ls[i].item, key)
               && !(Says(ls, key - 1, ls[i].item.addr) && Says(ls, key + 1, ls[i].item.addr));
      if key != ls[i].item.lo && key != ls[i].item.hi {
        assert Covers(ls[i].item, key - 1) && Covers(ls[i].item, key + 1);
      }
    }
  }

  /** Where items start or end. */
  ghost function Ends(items: seq<Item>): set<int> {
    if items == [] then {} else {items[0].lo, items[0].hi} + Ends(items[1..])
  }

  lemma {:induction false} EndsIff(items: seq<Item>, key: int)
    ensures key in Ends(items) <==> exists i :: 0 <= i < |items| && (key == items[i].lo || key == items[i].hi)
  {
    if items != [] {
      EndsIff(items[1..], key);
      if key in Ends(items[1..]) {
        var i :| 0 <= i < |items[1..]| && (key == items[1..][i].lo || key == items[1..][i].hi);
        assert items[i + 1] == items[1..][i];
      }
      if i :| 0 <= i < |items| && (key == items[i].lo || key == items[i].hi) {
        assert i > 0 ==> items[1..][i - 1] == items[i];
      }
    }
  }

  /** A single case takes one entry, a range two. */
  lemma {:induction false} EntriesCounted(s: Entries, items: seq<Item>)
    requires Represents(s, items) && Ascending(items)
    ensures |s| == |Ends(items)|
    decreases |items|
  {
    if items != [] {
      EntriesCounted(if Single(items[0]) then s[1..] else s[2..], items[1..]);
      assert items[0].lo !in Ends(items[1..]) by { EndsIff(items[1..], items[0].lo); }
      assert items[0].hi !in Ends(items[1..]) by { EndsIff(items[1..], items[0].hi); }
    }
  }

  lemma {:induction false} FindsCovering(items: seq<Item>, i: nat, key: int)
    requires Ascending(items) && i < |items| && Covers(items[i], key)
    ensures Find(items, key) == Some(items[i].addr)
  {
    var n := |items| - 1;
    if i < n {
      FindsCovering(items[..n], i, key);
    }
  }

  /** What is found is what the labels say. */
  lemma SaysFound(items: seq<Item>, ls: seq<Label>, key: int, addr: int)
    requires SaysWhat(items, ls) && Disjoint(ls)
    ensures Says(ls, key, addr) <==> Find(items, key) == Some(addr)
  {
    if Says(ls, key, addr) {
      var i :| 0 <= i < |ls| && Covers(ls[i].item, key) && ls[i].item.addr == addr;
      var a :| Find(items, key) == Some(a);
      var j :| 0 <= j < |ls| && Covers(ls[j].item, key) && ls[j].item.addr == a;
      if i != j {
        OverlapSeen(ls, i, j);
      }
    }
  }

  /** A neighbour of the last key of an item is found with the same address: it is in an item that meets this one. */
  lemma FoundBelow(items: seq<Item>, i: nat)
    requires Ascending(items) && i < |items| && Find(items, items[i].lo - 1) == Some(items[i].addr)
    ensures i > 0 && Meets(items[i - 1], items[i])
  {
    FindCovers(items, items[i].lo - 1);
    var f :| 0 <= f < |items| && Covers(items[f], items[i].lo - 1) && items[f].addr == items[i].addr;
    assert f == i - 1;
  }

  lemma FoundAbove(items: seq<Item>, i: nat)
    requires Ascending(items) && i < |items| && Find(items, items[i].hi + 1) == Some(items[i].addr)
    ensures i + 1 < |items| && Meets(items[i], items[i + 1])
  {
    FindCovers(items, items[i].hi + 1);
    var f :| 0 <= f < |items| && Covers(items[f], items[i].hi + 1) && items[f].addr == items[i].addr;
    assert f > i;
    assert items[i + 1].lo <= items[i + 1].hi && items[i].hi < items[i + 1].lo;
    assert f == i + 1;
  }

  ghost predicate Interior(items: seq<Item>, key: int) {
    Find(items, key).Some? && Find(items, key - 1) == Find(items, key) == Find(items, key + 1)
  }

  lemma EndNotInterior(items: seq<Item>, i: nat, key: int)
    requires Ascending(items) && Maximal(items) && i < |items| && (key == items[i].lo || key == items[i].hi)
    ensures Find(items, key) == Some(items[i].addr) && !Interior(items, key)
  {
    hide Find;
    FindsCovering(items, i, key);
    if Interior(items, key) {
      if key == items[i].lo {
        FoundBelow(items, i);
      } else {
        FoundAbove(items, i);
      }
      BothMeet(items, i);
    }
  }

  lemma BothMeet(items: seq<Item>, i: nat)
    requires Ascending(items) && Maximal(items) && i < |items|
    requires Find(items, items[i].lo - 1) == Some(items[i].addr) || Find(items, items[i].hi + 1) == Some(items[i].addr)
    ensures Single(items[i])
    ensures !(Find(items, items[i].lo - 1) == Some(items[i].addr) && Find(items, items[i].hi + 1) == Some(items[i].addr))
  {
    hide Find, Ascending;
    if Find(items, items[i].lo - 1) == Some(items[i].addr) {
      FoundBelow(items, i);
      assert Meets(items[i - 1], items[i]);
    }
    if Find(items, items[i].hi + 1) == Some(items[i].addr) {
      FoundAbove(items, i);
      assert items[i + 1 - 1] == items[i];
      assert Meets(items[i + 1 - 1], items[i + 1]);
    }
  }

  /** The ends of the joined items are the keys at which the labels' stretches start or end. */
  lemma EndsAreEdges(items: seq<Item>, ls: seq<Label>)
    requires SaysWhat(items, ls) && Maximal(items) && Disjoint(ls)
    ensures Ends(items) == Edges(ls)
  {
    hide Find, SaysWhat, Maximal, Disjoint, Edge, Edges, Ends, Interior;
    forall key
      ensures key in Ends(items) <==> key in Edges(ls)
    {
      EndsIff(items, key);
      EdgesIff(ls, key);
      EndIffEdge(items, ls, key);
    }
  }

  lemma EndIffEdge(items: seq<Item>, ls: seq<Label>, key: int)
    requires SaysWhat(items, ls) && Maximal(items) && Disjoint(ls)
    ensures (exists i :: 0 <= i < |items| && (key == items[i].lo || key == items[i].hi)) <==> Edge(ls, key)
  {
    assert Ascending(items);
    hide SaysWhat, Maximal, Disjoint, Edge, Find, Interior, Ascending;
    EdgeIffNotInterior(items, ls, key);
    if i :| 0 <= i < |items| && (key == items[i].lo || key == items[i].hi) {
      EndNotInterior(items, i, key);
    }
    if Find(items, key).Some? && !Interior(items, key) {
      var f := EndThere(items, key);
    }
  }

  lemma EndThere(items: seq<Item>, key: int) returns (f: nat)
    requires Ascending(items) && Find(items, key).Some? && !Interior(items, key)
    ensures f < |items| && (key == items[f].lo || key == items[f].hi)
  {
    FindCovers(items, key);
    f :| 0 <= f < |items| && Covers(items[f], key) && items[f].addr == Find(items, key).value;
    hide Find, Ascending;
    if key != items[f].lo && key != items[f].hi {
      FindsCovering(items, f, key - 1);
      FindsCovering(items, f, key + 1);
    }
  }

  lemma EdgeIffNotInterior(items: seq<Item>, ls: seq<Label>, key: int)
    requires SaysWhat(items, ls) && Disjoint(ls)
    ensures Edge(ls, key) <==> Find(items, key).Some? && !Interior(items, key)
  {
    hide Find, SaysWhat, Disjoint, Says;
    forall addr
      ensures Says(ls, key, addr) <==> Find(items, key) == Some(addr)
      ensures Says(ls, key - 1, addr) <==> Find(items, key - 1) == Some(addr)
      ensures Says(ls, key + 1, addr) <==> Find(items, key + 1) == Some(addr)
    {
      SaysFound(items, ls, key, addr);
      SaysFound(items, ls, key - 1, addr);
      SaysFound(items, ls, key + 1, addr);
    }
    SaysCovered(ls, key);
    if Edge(ls, key) {
      var i :| 0 <= i < |ls| && Covers(ls[i].item, key)
               && !(Says(ls, key - 1, ls[i].item.addr) && Says(ls, key + 1, ls[i].item.addr));
      assert Find(items, key) == Some(ls[i].item.addr);
    }
    if Find(items, key).Some? && !Interior(items, key) {
      assert Says(ls, key, Find(items, key).value);
    }
  }

  lemma SaysCovered(ls: seq<Label>, key: int)
    ensures forall i :: 0 <= i < |ls| && Covers(ls[i].item, key) ==> Says(ls, key, ls[i].item.addr)
    ensures forall addr :: Says(ls, key, addr) ==> exists i :: 0 <= i < |ls| && Covers(ls[i].item, key) && ls[i].item.addr == addr
  {
  }

  /** After joining there is one entry for each key at which a stretch of keys with one address starts or ends. */
  lemma EntriesLeft(s: Entries, items: seq<Item>, ls: seq<Label>)
    requires Represents(s, items) && SaysWhat(items, ls) && Maximal(items) && Disjoint(ls)
    ensures |s| == |Edges(ls)|
  {
    hide Represents, Maximal, Disjoint;
    EntriesCounted(s, items);
    EndsAreEdges(items, ls);
  }
}
