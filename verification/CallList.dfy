/** The list of pending callouts: each holds its delay in relation to the one before. */
module CallList {

  /** The function to call: by name in an object, or a closure. */
  datatype Fun = Named(ob: nat, name: string) | Closure(id: nat)

  class Call {
    const fun: Fun
    var delta: int
    var next: Call?

    constructor (fun: Fun)
      ensures this.fun == fun
    {
      this.fun := fun;
      delta, next := 0, null;
    }
  }

  /** A pending call and the time until it is due; negative if it is overdue. */
  datatype Entry = Entry(call: Call, due: int)

  ghost function CallsOf(v: seq<Entry>): set<Call> {
    set i | 0 <= i < |v| :: v[i].call
  }

  ghost function CallAt(v: seq<Entry>, i: nat): Call? {
    if i < |v| then v[i].call else null
  }

  ghost function DueBefore(v: seq<Entry>, i: nat): int
    requires i <= |v|
  {
    if i == 0 then 0 else v[i - 1].due
  }

  ghost predicate Rising(v: seq<Entry>) {
    forall i, j :: 0 <= i < j < |v| ==> v[i].due <= v[j].due
  }

  ghost predicate Distinct(v: seq<Entry>) {
    forall i, j :: 0 <= i < j < |v| ==> v[i].call != v[j].call
  }

  /** The i-th call points to the next one, and its delta is the time since the one before. */
  ghost predicate Linked(v: seq<Entry>, i: nat)
    requires i < |v|
    reads v[i].call
  {
    v[i].call.next == CallAt(v, i + 1) && v[i].call.delta == v[i].due - DueBefore(v, i)
  }

  // ----- what the operations do with due times

  /** How much the head is overdue. */
  ghost function Overdue(v: seq<Entry>): int {
    if v != [] && v[0].due < 0 then v[0].due else 0
  }

  /** The number of calls that are due no later than `due`. */
  ghost function Place(v: seq<Entry>, due: int): (p: nat)
    ensures p <= |v|
  {
    if v == [] || v[0].due > due then 0 else 1 + Place(v[1..], due)
  }

  ghost function Inserted(v: seq<Entry>, e: Entry): seq<Entry> {
    v[..Place(v, e.due)] + [e] + v[Place(v, e.due)..]
  }

  ghost function Removed(v: seq<Entry>, i: nat): seq<Entry>
    requires i < |v|
  {
    v[..i] + v[i + 1..]
  }

  ghost function Later(v: seq<Entry>, time: int): seq<Entry> {
    seq(|v|, i requires 0 <= i < |v| => Entry(v[i].call, v[i].due - time))
  }

  ghost function Alive(v: seq<Entry>, alive: Fun -> bool): seq<Entry> {
    if v == [] then []
    else (if alive(v[0].call.fun) then [v[0]] else []) + Alive(v[1..], alive)
  }

  /** The first call with this function. */
  ghost function First(v: seq<Entry>, fun: Fun): (i: nat)
    ensures i <= |v|
  {
    if v == [] || v[0].call.fun == fun then 0 else 1 + First(v[1..], fun)
  }

  /** The place is the only one that keeps the order and lets earlier calls with the same due time go first. */
  lemma {:induction false} PlaceIff(v: seq<Entry>, due: int, p: nat)
    requires Rising(v) && p <= |v|
    ensures (p == Place(v, due)
             <==> (forall i :: 0 <= i < p ==> v[i].due <= due) && (forall i :: p <= i < |v| ==> v[i].due > due))
  {
    if v != [] {
      var t := v[1..];
      assert forall i :: 0 < i < |v| ==> v[i] == t[i - 1];
      if v[0].due <= due && p > 0 {
        PlaceIff(t, due, p - 1);
      }
    }
  }

  lemma {:induction false} FirstIff(v: seq<Entry>, fun: Fun, i: nat)
    requires i <= |v|
    ensures (i == First(v, fun)
             <==> (forall k :: 0 <= k < i ==> v[k].call.fun != fun) && (i < |v| ==> v[i].call.fun == fun))
  {
    if v != [] {
      var t := v[1..];
      assert forall k :: 0 < k < |v| ==> v[k] == t[k - 1];
      if v[0].call.fun != fun && i > 0 {
        FirstIff(t, fun, i - 1);
      }
    }
  }

  /** A new call is due after its delay exactly if the head is not overdue. */
  lemma DelayKeptIff(v: seq<Entry>, cop: Call, delay: nat)
    ensures var e := Entry(cop, delay + Overdue(v));
            Inserted(v, e)[Place(v, e.due)] == Entry(cop, delay) <==> v == [] || v[0].due >= 0
  {
    var e := Entry(cop, delay + Overdue(v));
    InsertLinks(v, Place(v, e.due), e, Inserted(v, e));
  }

  /** With a head that is three seconds overdue, a call in five seconds is due in two. */
  lemma DelayLost(head: Call, cop: Call)
    ensures var v := [Entry(head, -3)]; Inserted(v, Entry(cop, 5 + Overdue(v))) == [Entry(head, -3), Entry(cop, 2)]
  {
    var v := [Entry(head, -3)];
    PlaceIff(v, 2, 1);
  }

  lemma LaterStay(v: seq<Entry>, k: nat, due: int)
    requires Rising(v) && k <= |v| && (k < |v| ==> v[k].due > due)
    ensures forall i :: k <= i < |v| ==> v[i].due > due
  {
  }

  lemma Among(v: seq<Entry>)
    ensures forall i :: 0 <= i < |v| ==> v[i].call in CallsOf(v)
  {
  }

  lemma InsertRises(v: seq<Entry>, e: Entry)
    requires Rising(v) && Distinct(v) && forall i :: 0 <= i < |v| ==> v[i].call != e.call
    ensures Rising(Inserted(v, e)) && Distinct(Inserted(v, e))
  {
    var k := Place(v, e.due);
    PlaceIff(v, e.due, k);
    hide Inserted, Place;
    var w := Inserted(v, e);
    InsertLinks(v, k, e, w);
    forall i, j | 0 <= i < j < |w|
      ensures w[i].due <= w[j].due && w[i].call != w[j].call
    {
    }
  }

  lemma RisesHere(v: seq<Entry>, k: nat)
    requires Rising(v) && 0 < k < |v|
    ensures v[k - 1].due <= v[k].due
  {
  }

  lemma RemoveRises(v: seq<Entry>, k: nat)
    requires Rising(v) && Distinct(v) && k < |v|
    ensures Rising(Removed(v, k)) && Distinct(Removed(v, k))
  {
    RemoveLinks(v, k);
  }

  class CallQueue {
    var callList: Call?
    var numCallouts: int
    var lastTime: int
    /** The calls in the list with their due times. */
    ghost var view: seq<Entry>

    ghost predicate Valid()
      reads this, CallsOf(view)
    {
      && numCallouts == |view| && callList == CallAt(view, 0)
      && Rising(view) && Distinct(view)
      && forall i :: 0 <= i < |view| ==> Linked(view, i)
    }

    constructor ()
      ensures Valid() && view == [] && lastTime == 0
    {
      callList, numCallouts, lastTime, view := null, 0, 0, [];
    }

    /** Insert the call behind all that are due no later. An overdue head counts as due now, and then the new call is
        timed from it. */
    method InsertCall(cop: Call, delay: nat)
      requires Valid() && cop !in CallsOf(view)
      modifies this, CallsOf(view), cop
      ensures Valid() && lastTime == old(lastTime)
      ensures view == Inserted(old(view), Entry(cop, delay + Overdue(old(view))))
    {
      ghost var due := delay + Overdue(view);
      var left: int, before, cop2;
      ghost var k;
      left, before, cop2, k := FindSlot(delay);
      numCallouts := numCallouts + 1;
      LinkIn(cop, left, before, cop2, Entry(cop, due), k);
    }

    /** Walk to the first call that is due later, and find the time from the call before it. */
    method FindSlot(delay: nat) returns (left: int, before: Call?, cop2: Call?, ghost k: nat)
      requires Valid()
      ensures var due := delay + Overdue(view);
              && k == Place(view, due) && cop2 == CallAt(view, k)
              && left == due - DueBefore(view, k) && before == if k == 0 then null else view[k - 1].call
    {
      hide Rising, Distinct;
      ghost var due := delay + Overdue(view);
      k, left, before, cop2 := 0, delay, null, callList;
      while cop2 != null && cop2.delta <= left
        invariant 0 <= k <= |view| && cop2 == CallAt(view, k) && left >= 0
        invariant before == if k == 0 then null else view[k - 1].call
        invariant left == if k == 0 then delay else due - view[k - 1].due
        invariant forall i :: 0 <= i < k ==> view[i].due <= due
        decreases |view| - k
      {
        assert Linked(view, k);
        if k > 0 {
          RisesHere(view, k);
        }
        left := left - if cop2.delta >= 0 then cop2.delta else 0;
        before, cop2 := cop2, cop2.next;
        k := k + 1;
      }
      assert k < |view| ==> Linked(view, k);
      LaterStay(view, k, due);
      PlaceIff(view, due, k);
    }

    method LinkIn(cop: Call, left: int, before: Call?, cop2: Call?, ghost e: Entry, ghost k: nat)
      requires k <= |view| && cop !in CallsOf(view) && e.call == cop && k == Place(view, e.due)
      requires Rising(view) && Distinct(view) && (forall i :: 0 <= i < |view| ==> Linked(view, i))
      requires numCallouts == |view| + 1 && callList == CallAt(view, 0)
      requires before == (if k == 0 then null else view[k - 1].call) && cop2 == CallAt(view, k) && left == e.due - DueBefore(view, k)
      modifies this, CallsOf(view), cop
      ensures Valid() && lastTime == old(lastTime)
      ensures view == Inserted(old(view), e)
    {
      hide CallsOf, Rising, Inserted, Place;
      ghost var v := view;
      Among(v);
      if cop2 != null {
        cop2.delta := cop2.delta - left;
      }
      cop.delta := left;
      cop.next := cop2;
      if before == null {
        callList := cop;
      } else {
        before.next := cop;
      }
      ghost var w := Inserted(v, e);
      InsertLinks(v, k, e, w);
      InsertRises(v, e);
      view := w;
      forall i | 0 <= i < |w|
        ensures Linked(w, i)
      {
        if i < k {
          assert old(Linked(v, i));
          assert v[i].call != cop && (k < |v| ==> v[i].call != v[k].call);
        } else if i > k {
          assert old(Linked(v, i - 1));
          assert v[i - 1].call != cop && (k > 0 ==> v[i - 1].call != v[k - 1].call);
        }
      }
    }

    /** Take the call out of the list: the next one has its delta added. */
    method Unlink(before: Call?, cop: Call, ghost i: nat)
      requires Valid() && i < |view| && cop == view[i].call && before == if i == 0 then null else view[i - 1].call
      modifies this, CallsOf(view)
      ensures Valid() && lastTime == old(lastTime)
      ensures view == Removed(old(view), i)
    {
      hide CallsOf, Rising;
      ghost var v := view;
      Among(v);
      assert Linked(v, i) && (i + 1 < |v| ==> Linked(v, i + 1)) && (i > 0 ==> Linked(v, i - 1));
      if cop.next != null {
        cop.next.delta := cop.next.delta + cop.delta;
      }
      if before == null {
        callList := cop.next;
      } else {
        before.next := cop.next;
      }
      numCallouts := numCallouts - 1;
      view := Removed(v, i);
      RemoveLinks(v, i);
      RemoveRises(v, i);
      forall k | 0 <= k < |view|
        ensures Linked(view, k)
      {
        if k < i {
          assert old(Linked(v, k));
        } else {
          assert old(Linked(v, k + 1));
        }
      }
    }

    /** Some time has passed. */
    method NextCallOutCycle(currentTime: int)
      requires Valid()
      modifies this, CallsOf(view)
      ensures Valid() && lastTime == currentTime
      ensures view == Later(old(view), if old(lastTime) == 0 then 0 else currentTime - old(lastTime))
    {
      if callList == null {
        lastTime := currentTime;
        return;
      }
      if lastTime == 0 {
        lastTime := currentTime;
      }
      assert Linked(view, 0);
      ghost var v := view;
      view := Later(view, currentTime - lastTime);
      assert CallsOf(view) == CallsOf(v) by {
        assert forall i :: 0 <= i < |v| ==> view[i].call == v[i].call;
      }
      callList.delta := callList.delta - (currentTime - lastTime);
      lastTime := currentTime;
      forall i | 0 <= i < |view|
        ensures Linked(view, i)
      {
        assert old(Linked(v, i));
      }
    }

    /** Take the head out of the list. If it was missed, the next one is adjusted. */
    method PopDue() returns (cop: Call)
      requires Valid() && view != [] && view[0].due <= 0
      modifies this, CallsOf(view)
      ensures Valid() && lastTime == old(lastTime)
      ensures cop == old(view[0].call) && view == old(view)[1..]
    {
      hide CallsOf, Rising;
      ghost var v := view;
      Among(v);
      assert Linked(v, 0) && (1 < |v| ==> Linked(v, 1));
      cop := callList;
      callList := cop.next;
      numCallouts := numCallouts - 1;
      if cop.delta < 0 && callList != null {
        callList.delta := callList.delta + cop.delta;
      }
      view := v[1..];
      assert view == Removed(v, 0);
      RemoveRises(v, 0);
      forall k | 0 <= k < |view|
        ensures Linked(view, k)
      {
        assert old(Linked(v, k + 1));
      }
    }

    /** The time left for the first call with this function, which may be removed; -1 if there is none. The names of
        pending calls are tabled. */
    method FindCallOut(fun: Fun, tabled: bool, doFreeCall: bool) returns (time: int)
      requires Valid()
      modifies this, CallsOf(view)
      ensures Valid() && lastTime == old(lastTime)
      ensures var i := if fun.Named? && !tabled then |old(view)| else First(old(view), fun);
              && time == (if i == |old(view)| then -1 else if old(view)[i].due < 0 then 0 else old(view)[i].due)
              && view == if i == |old(view)| || !doFreeCall then old(view) else Removed(old(view), i)
    {
      hide Rising, Distinct, CallsOf;
      if fun.Named? && !tabled {
        return -1;
      }
      var delay := 0;
      var before: Call?, cop := null, callList;
      ghost var i := 0;
      while cop != null && cop.fun != fun
        invariant 0 <= i <= |view| && cop == CallAt(view, i) && delay == DueBefore(view, i)
        invariant before == if i == 0 then null else view[i - 1].call
        invariant forall k :: 0 <= k < i ==> view[k].call.fun != fun
        decreases |view| - i
      {
        assert Linked(view, i);
        delay := delay + cop.delta;
        before, cop := cop, cop.next;
        i := i + 1;
      }
      FirstIff(view, fun, i);
      if cop == null {
        return -1;
      }
      assert Linked(view, i);
      delay := delay + cop.delta;
      if doFreeCall {
        Unlink(before, cop, i);
      }
      return if delay < 0 then 0 else delay;
    }

    /** Remove all calls whose object is gone. */
    method RemoveStaleCallOuts(alive: Fun -> bool)
      requires Valid()
      modifies this, CallsOf(view)
      ensures Valid() && lastTime == old(lastTime)
      ensures view == Alive(old(view), alive)
    {
      hide Rising, Distinct, CallsOf, Alive;
      ghost var v := view;
      ghost var i := 0;
      var before: Call?, cop := null, callList;
      AllSeen(view, alive);
      while cop != null
        invariant Valid() && lastTime == old(lastTime) && 0 <= i <= |view| && cop == CallAt(view, i)
        invariant before == if i == 0 then null else view[i - 1].call
        invariant Alive(view, alive) == Alive(v, alive) && Alive(view[..i], alive) == view[..i]
        invariant forall c :: c in CallsOf(view) ==> c in CallsOf(v)
        decreases |view| - i
      {
        assert Linked(view, i);
        SeeOne(view, i, alive);
        if !alive(cop.fun) {
          var next := cop.next;
          Fewer(view, i);
          Unlink(before, cop, i);
          cop := next;
        } else {
          before, cop := cop, cop.next;
          i := i + 1;
        }
      }
      AllSeen(view, alive);
    }

    /** Schedule a call in `delay` seconds, unless there are too many. A destructed object cannot do so. */
    method CallOut(destructed: bool, fun: Fun, delay: int, maxCallouts: nat) returns (ok: bool, cop: Call?)
      requires Valid()
      modifies this, CallsOf(view)
      ensures Valid() && lastTime == old(lastTime)
      ensures ok == (destructed || maxCallouts == 0 || old(|view|) < maxCallouts)
      ensures cop != null <==> ok && !destructed
      ensures cop == null ==> view == old(view)
      ensures cop != null ==> fresh(cop) && cop.fun == fun && cop !in old(CallsOf(view))
      ensures cop != null ==> view == Inserted(old(view), Entry(cop, (if delay < 0 then 0 else delay) + Overdue(old(view))))
    {
      if destructed {
        return true, null;
      }
      if maxCallouts != 0 && maxCallouts <= numCallouts {
        return false, null;
      }
      cop := new Call(fun);
      InsertCall(cop, if delay < 0 then 0 else delay);
      return true, cop;
    }
  }

  lemma {:induction false} AliveSum(a: seq<Entry>, b: seq<Entry>, alive: Fun -> bool)
    ensures Alive(a + b, alive) == Alive(a, alive) + Alive(b, alive)
  {
    if a == [] {
      assert a + b == b;
    } else {
      assert (a + b)[1..] == a[1..] + b;
      AliveSum(a[1..], b, alive);
    }
  }

  lemma SeeOne(v: seq<Entry>, i: nat, alive: Fun -> bool)
    requires i < |v|
    ensures alive(v[i].call.fun) && Alive(v[..i], alive) == v[..i] ==> Alive(v[..i + 1], alive) == v[..i + 1]
    ensures !alive(v[i].call.fun) ==> Alive(Removed(v, i), alive) == Alive(v, alive)
    ensures Removed(v, i)[..i] == v[..i]
  {
    hide Alive, Removed;
    var a, e, b := v[..i], v[i], v[i + 1..];
    SplitAt(v, i, a, e, b);
    SeeOneOf(a, e, b, alive);
  }

  lemma SplitAt(v: seq<Entry>, i: nat, a: seq<Entry>, e: Entry, b: seq<Entry>)
    requires i < |v| && a == v[..i] && e == v[i] && b == v[i + 1..]
    ensures v == a + ([e] + b) && v[..i + 1] == a + [e] && Removed(v, i) == a + b && Removed(v, i)[..i] == a
  {
  }

  lemma SeeOneOf(a: seq<Entry>, e: Entry, b: seq<Entry>, alive: Fun -> bool)
    ensures alive(e.call.fun) && Alive(a, alive) == a ==> Alive(a + [e], alive) == a + [e]
    ensures !alive(e.call.fun) ==> Alive(a + b, alive) == Alive(a + ([e] + b), alive)
  {
    hide Alive;
    AliveOne(e, alive);
    AliveSum(a, [e] + b, alive);
    AliveSum([e], b, alive);
    AliveSum(a, [e], alive);
    AliveSum(a, b, alive);
    assert [] + Alive(b, alive) == Alive(b, alive);
  }

  lemma AliveOne(e: Entry, alive: Fun -> bool)
    ensures Alive([e], alive) == if alive(e.call.fun) then [e] else []
  {
    assert [e][1..] == [];
  }

  lemma AllSeen(v: seq<Entry>, alive: Fun -> bool)
    ensures v[..|v|] == v && v[..0] == [] && Alive([], alive) == []
  {
  }

  lemma Fewer(v: seq<Entry>, i: nat)
    requires i < |v|
    ensures CallsOf(Removed(v, i)) <= CallsOf(v)
  {
    RemoveLinks(v, i);
  }

  lemma InsertLinks(v: seq<Entry>, k: nat, e: Entry, w: seq<Entry>)
    requires k == Place(v, e.due) && w == Inserted(v, e)
    ensures |w| == |v| + 1 && w[k] == e
    ensures forall i :: 0 <= i < k ==> w[i] == v[i]
    ensures forall i :: k < i < |w| ==> w[i] == v[i - 1]
  {
    hide Place;
  }

  lemma RemoveLinks(v: seq<Entry>, k: nat)
    requires k < |v|
    ensures var w := Removed(v, k);
            |w| == |v| - 1 && forall i :: 0 <= i < |w| ==> w[i] == if i < k then v[i] else v[i + 1]
  {
  }
}
