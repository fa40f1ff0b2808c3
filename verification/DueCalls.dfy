/** The cycle that makes all calls which are due. */
module DueCalls {
  import opened Wrappers
  import opened CallList

  /** What a called function does to the list: schedule a call, remove one, or have the stale ones removed. */
  datatype Act = Schedule(fun: Fun, delay: int) | Remove(fun: Fun, tabled: bool) | RemoveStale(alive: Fun -> bool)

  /** A called function acts, and ends with some evaluation cost or with an error. */
  datatype Deed = Deed(acts: seq<Act>, cost: nat, fails: bool)

  type User = nat

  /** When a user was last called, and at which evaluation cost. The cost is negative after an error. */
  datatype Record = Record(lastCallOut: int, cost: int)

  /** What one whole cycle meets: the time, the limit, who owns the object to be called at the n-th turn (if there still
      is one), and what the called functions do. */
  datatype World = World(now: int, maxCallouts: nat, host: (nat, Fun) -> Option<User>, deeds: seq<Deed>)

  /** How far the overdue calls are behind, each counting one more. */
  ghost function Debt(v: seq<Entry>): nat {
    if v == [] then 0 else (if v[0].due > 0 then 0 else 1 - v[0].due) + Debt(v[1..])
  }

  lemma {:induction false} DebtOfSum(a: seq<Entry>, b: seq<Entry>)
    ensures Debt(a + b) == Debt(a) + Debt(b)
  {
    if a == [] {
      assert a + b == b;
    } else {
      assert (a + b)[1..] == a[1..] + b;
      DebtOfSum(a[1..], b);
    }
  }

  lemma DebtOfInserted(v: seq<Entry>, e: Entry)
    ensures Debt(Inserted(v, e)) == Debt(v) + if e.due > 0 then 0 else 1 - e.due
  {
    var p := Place(v, e.due);
    DebtOfSum(v[..p] + [e], v[p..]);
    DebtOfSum(v[..p], [e]);
    DebtOfSum(v[..p], v[p..]);
    assert v == v[..p] + v[p..];
    assert [e][1..] == [];
  }

  // ----- what the acts of a called function may change

  /** Calls that stay keep their due times; the others are gone. */
  ghost predicate Kept(v: seq<Entry>, w: seq<Entry>, gone: set<Call>) {
    forall e :: e in v ==> e in w || e.call in gone
  }

  /** No call is due before `floor`, which has passed. */
  ghost predicate Floor(v: seq<Entry>, floor: int) {
    floor <= 0 && forall i :: 0 <= i < |v| ==> v[i].due >= floor
  }

  ghost predicate Apart(v: seq<Entry>, s: set<Call>) {
    forall i :: 0 <= i < |v| ==> v[i].call !in s
  }

  /** The function is named by one of the acts, or its object is gone for one of them. */
  ghost predicate Names(acts: seq<Act>, fun: Fun) {
    exists k :: 0 <= k < |acts| && NamesIt(acts[k], fun)
  }

  ghost predicate NamesIt(act: Act, fun: Fun) {
    match act
    case Schedule(_, _) => false
    case Remove(f, _) => f == fun
    case RemoveStale(alive) => !alive(fun)
  }

  lemma InsertedKeeps(v: seq<Entry>, e: Entry, floor: int, gone: set<Call>)
    requires Floor(v, floor) && e.due >= Overdue(v) && Apart(v, gone) && e.call !in gone
    ensures Floor(Inserted(v, e), floor) && Apart(Inserted(v, e), gone)
    ensures Kept(v, Inserted(v, e), gone) && CallsOf(Inserted(v, e)) <= CallsOf(v) + {e.call}
  {
    hide Inserted, Place;
    var w := Inserted(v, e);
    var p := Place(v, e.due);
    InsertLinks(v, p, e, w);
    forall i | 0 <= i < |w|
      ensures w[i].due >= floor && w[i].call !in gone && w[i].call in CallsOf(v) + {e.call}
    {
      assert w[i] == if i < p then v[i] else if i == p then e else v[i - 1];
    }
    forall x | x in v
      ensures x in w
    {
      var i :| 0 <= i < |v| && v[i] == x;
      assert w[if i < p then i else i + 1] == x;
    }
  }

  lemma RemovedKeeps(v: seq<Entry>, i: nat, floor: int, gone: set<Call>)
    requires i < |v| && Floor(v, floor) && Apart(v, gone) && Distinct(v)
    ensures Floor(Removed(v, i), floor) && Apart(Removed(v, i), gone + {v[i].call}) && Kept(v, Removed(v, i), {v[i].call})
    ensures CallsOf(Removed(v, i)) <= CallsOf(v) && v[i].call in CallsOf(v)
  {
    RemoveLinks(v, i);
    assert v == v[..i] + [v[i]] + v[i + 1..];
  }

  lemma {:induction false} AliveThere(v: seq<Entry>, alive: Fun -> bool, x: Entry)
    ensures x in Alive(v, alive) <==> x in v && alive(x.call.fun)
  {
    if v != [] {
      AliveThere(v[1..], alive, x);
      assert v == [v[0]] + v[1..];
    }
  }

  /** The calls whose object is gone. */
  ghost function Stale(v: seq<Entry>, alive: Fun -> bool): set<Call> {
    set c | c in CallsOf(v) && !alive(c.fun)
  }

  lemma AliveFrom(v: seq<Entry>, alive: Fun -> bool, i: nat) returns (j: nat)
    requires i < |Alive(v, alive)|
    ensures j < |v| && v[j] == Alive(v, alive)[i] && alive(v[j].call.fun)
  {
    var w := Alive(v, alive);
    var x := w[i];
    assert x in w;
    AliveThere(v, alive, x);
    j :| 0 <= j < |v| && v[j] == x;
  }

  lemma AliveKeeps(v: seq<Entry>, alive: Fun -> bool, floor: int, gone: set<Call>)
    requires Floor(v, floor) && Apart(v, gone)
    ensures Floor(Alive(v, alive), floor) && Apart(Alive(v, alive), gone + Stale(v, alive))
    ensures Kept(v, Alive(v, alive), Stale(v, alive)) && CallsOf(Alive(v, alive)) <= CallsOf(v)
  {
    hide Alive;
    var w := Alive(v, alive);
    forall i | 0 <= i < |w|
      ensures w[i].due >= floor && w[i].call !in gone + Stale(v, alive) && w[i].call in CallsOf(v)
    {
      var j := AliveFrom(v, alive, i);
    }
    forall e | e in v && e !in w
      ensures e.call in Stale(v, alive)
    {
      AliveThere(v, alive, e);
    }
  }

  lemma KeptOn(u: seq<Entry>, v: seq<Entry>, w: seq<Entry>, g: set<Call>, h: set<Call>)
    requires Kept(u, v, g) && Kept(v, w, h)
    ensures Kept(u, w, g + h)
  {
  }

  // ----- what the acts do

  /** There is no room for another call. */
  ghost predicate Full(act: Act, v: seq<Entry>, maxCallouts: nat) {
    act.Schedule? && 0 < maxCallouts <= |v|
  }

  /** A new call comes in behind all that are due no later. */
  ghost predicate Scheduled(fun: Fun, delay: int, v: seq<Entry>, w: seq<Entry>) {
    exists k :: 0 <= k < |w| && w[k].call !in CallsOf(v) && w[k].call.fun == fun
                && w == Inserted(v, Entry(w[k].call, (if delay < 0 then 0 else delay) + Overdue(v)))
  }

  lemma ScheduledNow(fun: Fun, delay: int, v: seq<Entry>, w: seq<Entry>, cop: Call)
    requires cop !in CallsOf(v) && cop.fun == fun && w == Inserted(v, Entry(cop, (if delay < 0 then 0 else delay) + Overdue(v)))
    ensures Scheduled(fun, delay, v, w)
  {
    var e := Entry(cop, (if delay < 0 then 0 else delay) + Overdue(v));
    assert w[Place(v, e.due)] == e;
  }

  /** What an act makes of the list. The names of pending calls are tabled. */
  ghost predicate ActDone(act: Act, v: seq<Entry>, w: seq<Entry>, maxCallouts: nat) {
    match act
    case Schedule(fun, delay) => if Full(act, v, maxCallouts) then w == v else Scheduled(fun, delay, v, w)
    case Remove(fun, tabled) =>
      var i := if fun.Named? && !tabled then |v| else First(v, fun);
      w == if i == |v| then v else Removed(v, i)
    case RemoveStale(alive) => w == Alive(v, alive)
  }

  /** The last act met a full list. */
  ghost predicate LimitHit(acts: seq<Act>, views: seq<seq<Entry>>, maxCallouts: nat) {
    1 < |views| <= |acts| + 1 && Full(acts[|views| - 2], views[|views| - 2], maxCallouts)
  }

  /** The lists before, between and behind the acts: all acts are done, unless one meets a full list, which is the last. */
  ghost predicate ActsDone(acts: seq<Act>, views: seq<seq<Entry>>, maxCallouts: nat) {
    && 0 < |views| <= |acts| + 1
    && (forall k, m :: 0 <= k && m == k + 1 && m < |views| ==> ActDone(acts[k], views[k], views[m], maxCallouts))
    && (forall k :: 0 <= k && k + 2 < |views| ==> !Full(acts[k], views[k], maxCallouts))
    && (|views| <= |acts| ==> LimitHit(acts, views, maxCallouts))
  }

  /** Let a called function do one act. It cannot if there are too many calls. */
  method RunAct(q: CallQueue, act: Act, maxCallouts: nat, ghost floor: int, ghost gone: set<Call>)
    returns (ok: bool, ghost gone': set<Call>)
    requires q.Valid() && Floor(q.view, floor) && Apart(q.view, gone)
    modifies q, CallsOf(q.view)
    ensures ActDone(act, old(q.view), q.view, maxCallouts) && (ok <==> !Full(act, old(q.view), maxCallouts))
    ensures q.Valid() && Floor(q.view, floor) && Apart(q.view, gone') && gone <= gone'
    ensures Kept(old(q.view), q.view, gone')
    ensures forall c :: c in gone' - gone ==> NamesIt(act, c.fun) && c in CallsOf(old(q.view))
    ensures forall c :: c in CallsOf(q.view) ==> c in old(CallsOf(q.view)) || fresh(c)
  {
    hide CallsOf, Inserted, Removed, Alive, First, Floor, Apart, Kept, Overdue;
    ghost var v := q.view;
    gone' := gone;
    KeptAll(v, gone);
    match act
    case Schedule(fun, delay) =>
      var cop;
      ok, cop := q.CallOut(false, fun, delay, maxCallouts);
      if cop != null {
        ScheduledNow(fun, delay, v, q.view, cop);
        InsertedKeeps(v, Entry(cop, (if delay < 0 then 0 else delay) + Overdue(v)), floor, gone);
      }
    case Remove(fun, tabled) =>
      ok := true;
      var _ := q.FindCallOut(fun, tabled, true);
      ghost var i := if fun.Named? && !tabled then |v| else First(v, fun);
      if i < |v| {
        RemovedKeeps(v, i, floor, gone);
        gone' := gone + {v[i].call};
        FirstIff(v, fun, i);
        KeptOn(v, v, q.view, gone, {v[i].call});
      }
    case RemoveStale(alive) =>
      ok := true;
      q.RemoveStaleCallOuts(alive);
      AliveKeeps(v, alive, floor, gone);
      gone' := gone + Stale(v, alive);
      KeptOn(v, v, q.view, gone, Stale(v, alive));
  }

  lemma KeptAll(v: seq<Entry>, gone: set<Call>)
    ensures Kept(v, v, gone)
  {
  }

  /** Let a called function do what it does; with too many calls that ends in an error. */
  method RunActs(q: CallQueue, acts: seq<Act>, maxCallouts: nat, ghost floor: int, ghost spent: set<Call>)
    returns (ok: bool, ghost spent': set<Call>, ghost views: seq<seq<Entry>>)
    requires q.Valid() && Floor(q.view, floor) && Apart(q.view, spent)
    modifies q, CallsOf(q.view)
    ensures ActsDone(acts, views, maxCallouts) && views[0] == old(q.view) && views[|views| - 1] == q.view
    ensures ok <==> !LimitHit(acts, views, maxCallouts)
    ensures q.Valid() && Floor(q.view, floor) && Apart(q.view, spent') && spent <= spent'
    ensures Kept(old(q.view), q.view, spent')
    ensures forall c :: c in spent' - spent ==> Names(acts, c.fun)
    ensures forall c :: c in CallsOf(q.view) ==> c in old(CallsOf(q.view)) || fresh(c)
    ensures acts == [] ==> ok && q.view == old(q.view) && spent' == spent
  {
    hide CallsOf, Floor, Apart, Kept, ActDone, Full;
    ok, spent', views := true, spent, [q.view];
    ghost var v := q.view;
    var k := 0;
    KeptAll(v, spent);
    while k < |acts| && ok
      invariant 0 <= k <= |acts| && q.Valid() && Floor(q.view, floor) && Apart(q.view, spent') && spent <= spent'
      invariant Kept(v, q.view, spent')
      invariant forall c :: c in spent' - spent ==> Names(acts, c.fun)
      invariant forall c :: c in CallsOf(q.view) ==> c in old(CallsOf(q.view)) || fresh(c)
      invariant acts == [] ==> ok && q.view == old(q.view) && spent' == spent
      invariant |views| == k + 1 && views[0] == v && views[k] == q.view && (ok <==> !LimitHit(acts, views, maxCallouts))
      invariant forall i, m :: 0 <= i && m == i + 1 && m < |views| ==> ActDone(acts[i], views[i], views[m], maxCallouts)
      invariant forall i :: 0 <= i && i + 2 < |views| ==> !Full(acts[i], views[i], maxCallouts)
    {
      ghost var w, s := q.view, spent';
      ok, spent' := RunAct(q, acts[k], maxCallouts, floor, s);
      KeptOn(v, w, q.view, s, spent');
      assert s + spent' == spent';
      NamesOne(acts, k);
      views := views + [q.view];
      k := k + 1;
    }
  }

  lemma NamesOne(acts: seq<Act>, k: nat)
    requires k < |acts|
    ensures forall fun :: NamesIt(acts[k], fun) ==> Names(acts, fun)
  {
  }

  // ----- the cycle

  /** Of the calls taken from the list one after the other, those whose object is still there. */
  ghost function Hosted(v: seq<Entry>, host: (nat, Fun) -> Option<User>): seq<Entry> {
    if v == [] then []
    else Hosted(v[..|v| - 1], host) + if host(|v| - 1, v[|v| - 1].call.fun).Some? then [v[|v| - 1]] else []
  }

  /** No function acts on the list or fails, and no user is barred after an error. */
  ghost predicate Quiet(w: World, users: map<User, Record>) {
    && (forall k :: 0 <= k < |w.deeds| ==> w.deeds[k].acts == [] && !w.deeds[k].fails)
    && NoneBarred(w.now, users)
  }

  lemma QuietDeed(w: World, users: map<User, Record>, k: nat)
    ensures Quiet(w, users) ==> NoneBarred(w.now, users) && (k < |w.deeds| ==> w.deeds[k].acts == [] && !w.deeds[k].fails)
  {
  }

  ghost predicate NoneBarred(now: int, users: map<User, Record>) {
    forall u :: u in users ==> !Barred(now, users, u)
  }

  lemma SomeBarred(now: int, users: map<User, Record>, u: User)
    requires Barred(now, users, u)
    ensures !NoneBarred(now, users)
  {
  }

  lemma StillNoneBarred(now: int, users: map<User, Record>, u: User, record: Record)
    ensures NoneBarred(now, users) && record.cost >= 0 ==> NoneBarred(now, users[u := record])
  {
  }

  /** The user had an error in this cycle. */
  predicate Barred(now: int, users: map<User, Record>, u: User) {
    u in users && users[u].lastCallOut == now && users[u].cost < 0
  }

  /** Every call of `v` is still pending, or has been made, removed, or dropped. Those not yet due have not been touched
      unless they were removed. */
  ghost predicate Accounted(v: seq<Entry>, view: seq<Entry>, ran: seq<Entry>, gone: set<Call>, dropped: set<Call>) {
    && (forall e :: e in v && e.due > 0 ==> e in view || e.call in gone)
    && forall e :: e in v ==> e.call in CallsOf(view) || e.call in CallsOf(ran) || e.call in gone || e.call in dropped
  }

  /** The calls that have been made were due, in the order of their due times; each has been made once and is no longer
      pending. */
  ghost predicate InOrder(ran: seq<Entry>, view: seq<Entry>, floor: int) {
    && Rising(ran) && Distinct(ran) && Floor(view, floor) && Apart(view, CallsOf(ran))
    && forall i :: 0 <= i < |ran| ==> ran[i].due <= floor
  }

  ghost predicate NoneDue(v: seq<Entry>) {
    forall i :: 0 <= i < |v| ==> v[i].due > 0
  }

  lemma AccountedPopped(v: seq<Entry>, view: seq<Entry>, ran: seq<Entry>, gone: set<Call>, dropped: set<Call>)
    requires Accounted(v, view, ran, gone, dropped) && view != [] && view[0].due <= 0
    ensures Accounted(v, view[1..], ran, gone, dropped + {view[0].call})
  {
    assert view == [view[0]] + view[1..];
    forall c | c in CallsOf(view) && c != view[0].call
      ensures c in CallsOf(view[1..])
    {
      var i :| 0 <= i < |view| && view[i].call == c;
      assert view[1..][i - 1].call == c;
    }
  }

  lemma AccountedAgain(v: seq<Entry>, view: seq<Entry>, ran: seq<Entry>, gone: set<Call>, dropped: set<Call>, e: Entry)
    requires Accounted(v, view, ran, gone, dropped + {e.call})
    ensures Accounted(v, Inserted(view, e), ran, gone, dropped)
  {
    var p, w := Place(view, e.due), Inserted(view, e);
    InsertLinks(view, p, e, w);
    assert view == view[..p] + view[p..];
    assert w[p].call in CallsOf(w);
    forall i | 0 <= i < |view|
      ensures view[i].call in CallsOf(w)
    {
      assert w[if i < p then i else i + 1] == view[i];
    }
  }

  lemma AccountedRun(v: seq<Entry>, view: seq<Entry>, ran: seq<Entry>, gone: set<Call>, dropped: set<Call>, e: Entry)
    requires Accounted(v, view, ran, gone, dropped + {e.call})
    ensures Accounted(v, view, ran + [e], gone, dropped)
  {
    var r := ran + [e];
    assert r[|ran|].call in CallsOf(r);
    forall i | 0 <= i < |ran|
      ensures ran[i].call in CallsOf(r)
    {
      assert r[i] == ran[i];
    }
  }

  lemma AccountedActs(v: seq<Entry>, view: seq<Entry>, w: seq<Entry>, ran: seq<Entry>, gone: set<Call>, dropped: set<Call>, removed: set<Call>)
    requires Accounted(v, view, ran, gone, dropped) && Kept(view, w, removed)
    ensures Accounted(v, w, ran, gone + removed, dropped)
  {
    forall i | 0 <= i < |view|
      ensures view[i].call in CallsOf(w) || view[i].call in removed
    {
      assert view[i] in view;
      if view[i] in w {
        var j :| 0 <= j < |w| && w[j] == view[i];
      }
    }
  }

  /** Only what the acts have removed is missing. */
  lemma KeptButRemoved(view: seq<Entry>, w: seq<Entry>, spent: set<Call>, spent': set<Call>)
    requires Kept(view, w, spent') && Apart(view, spent)
    ensures Kept(view, w, spent' - spent)
  {
  }

  /** The head is taken out. */
  lemma InOrderPopped(ran: seq<Entry>, view: seq<Entry>, floor: int, spent: set<Call>)
    requires InOrder(ran, view, floor) && Rising(view) && Distinct(view) && view != [] && view[0].due <= 0 && Apart(view, spent)
    ensures InOrder(ran, view[1..], view[0].due) && InOrder(ran + [view[0]], view[1..], view[0].due)
    ensures Apart(view[1..], spent + {view[0].call}) && Floor(view[1..], view[0].due)
  {
    var e, rest := view[0], view[1..];
    assert forall i :: 0 <= i < |rest| ==> rest[i] == view[i + 1];
    CallsAfter(ran, e);
    assert forall i :: 0 <= i < |ran| ==> ran[i].call in CallsOf(ran);
  }

  lemma CallsAfter(ran: seq<Entry>, e: Entry)
    ensures CallsOf(ran + [e]) == CallsOf(ran) + {e.call}
  {
    var r := ran + [e];
    assert r[|ran|] == e;
    forall i | 0 <= i < |ran|
      ensures ran[i].call in CallsOf(r)
    {
      assert r[i] == ran[i];
    }
  }

  /** A cycle without disturbance: so far the first `turn` calls have been taken. */
  ghost predicate Undisturbed(v: seq<Entry>, view: seq<Entry>, ran: seq<Entry>, turn: nat, host: (nat, Fun) -> Option<User>) {
    turn <= |v| && view == v[turn..] && ran == Hosted(v[..turn], host) && forall i :: 0 <= i < turn ==> v[i].due <= 0
  }

  lemma UndisturbedTurn(v: seq<Entry>, view: seq<Entry>, ran: seq<Entry>, turn: nat, host: (nat, Fun) -> Option<User>)
    requires Undisturbed(v, view, ran, turn, host) && view != [] && view[0].due <= 0
    ensures var ran' := if host(turn, view[0].call.fun).Some? then ran + [view[0]] else ran;
            Undisturbed(v, view[1..], ran', turn + 1, host)
  {
    assert v[..turn + 1][..turn] == v[..turn];
    assert view[0] == v[turn];
  }

  lemma UndisturbedEnd(v: seq<Entry>, view: seq<Entry>, ran: seq<Entry>, turn: nat, host: (nat, Fun) -> Option<User>)
    requires Undisturbed(v, view, ran, turn, host) && Rising(v) && NoneDue(view)
    ensures var p := Place(v, 0); view == v[p..] && ran == Hosted(v[..p], host)
  {
    forall i | turn <= i < |v|
      ensures v[i].due > 0
    {
      assert view[i - turn] == v[i];
    }
    PlaceIff(v, 0, turn);
  }

  /** With the head not due none is. */
  lemma HeadNotDue(v: seq<Entry>)
    requires Rising(v) && (v != [] ==> v[0].due > 0)
    ensures NoneDue(v)
  {
  }

  /** A call put off for a second is due again in the same cycle exactly if the next one is overdue, and otherwise in
      exactly one second. */
  lemma PutOffDueIff(view: seq<Entry>)
    requires view != []
    ensures var e := Entry(view[0].call, 1 + Overdue(view[1..]));
            && (e.due <= 0 <==> |view| > 1 && view[1].due < 0)
            && (e.due == 1 <==> |view| == 1 || view[1].due >= 0)
            && Inserted(view[1..], e)[Place(view[1..], e.due)] == e
  {
    var rest := view[1..];
    var e := Entry(view[0].call, 1 + Overdue(rest));
    InsertLinks(rest, Place(rest, e.due), e, Inserted(rest, e));
    assert |view| > 1 ==> rest[0] == view[1];
  }

  /** With two calls that are five and three seconds overdue, the first one, put off for a second, is still two seconds
      overdue and comes up again behind the second one. */
  lemma PutOffTwice(a: Call, b: Call)
    ensures var view := [Entry(a, -5), Entry(b, -3)];
            Inserted(view[1..], Entry(a, 1 + Overdue(view[1..]))) == [Entry(b, -3), Entry(a, -2)]
  {
    var rest := [Entry(a, -5), Entry(b, -3)][1..];
    assert rest == [Entry(b, -3)];
    PlaceIff(rest, -2, 1);
  }

  /** A call put off for a second is still less behind than it was: the head of the rest is due no earlier. */
  lemma DebtShrinks(view: seq<Entry>)
    requires view != [] && Rising(view) && view[0].due <= 0
    ensures var e := Entry(view[0].call, 1 + Overdue(view[1..]));
            Debt(view[1..]) < Debt(view) && Debt(Inserted(view[1..], e)) < Debt(view) && e.due >= Overdue(view[1..])
  {
    DebtOfInserted(view[1..], Entry(view[0].call, 1 + Overdue(view[1..])));
  }

  // ----- calls that are put off

  /** The call is not due later than in a second, and its user has had an error. */
  ghost predicate PutOff(x: Entry, w: World, users: map<User, Record>) {
    x.due <= 1 && Suspended(x.call.fun, w, users)
  }

  ghost predicate Suspended(fun: Fun, w: World, users: map<User, Record>) {
    exists n :: w.host(n, fun).Some? && Barred(w.now, users, w.host(n, fun).value)
  }

  /** Each of the first calls that is pending is as it was, or has been put off. */
  ghost predicate Waiting(v: seq<Entry>, view: seq<Entry>, w: World, users: map<User, Record>) {
    forall x :: x in view && x.call in CallsOf(v) ==> x in v || PutOff(x, w, users)
  }

  /** Every call of the first ones that has been made came at its time, unless its user had had an error. */
  ghost predicate NonePutOff(v: seq<Entry>, ran: seq<Entry>, w: World, users: map<User, Record>) {
    forall x :: x in ran && x.call in CallsOf(v) && x !in v ==> Suspended(x.call.fun, w, users)
  }

  /** Every call that was due and is still pending is due in exactly one second, and its user has had an error. */
  ghost predicate OneSecondLeft(v: seq<Entry>, view: seq<Entry>, w: World, users: map<User, Record>) {
    forall e :: e in v && e.due <= 0 && e.call in CallsOf(view) ==>
      Entry(e.call, 1) in view && Suspended(e.call.fun, w, users)
  }

  lemma WaitingStarts(v: seq<Entry>, w: World, users: map<User, Record>)
    ensures Waiting(v, v, w, users) && Waiting(v, [], w, users)
  {
  }

  lemma WaitingPopped(v: seq<Entry>, view: seq<Entry>, w: World, users: map<User, Record>)
    requires Waiting(v, view, w, users) && view != []
    ensures Waiting(v, view[1..], w, users)
  {
    assert view == [view[0]] + view[1..];
  }

  /** The head is called. */
  lemma WaitingRan(v: seq<Entry>, view: seq<Entry>, ran: seq<Entry>, w: World, users: map<User, Record>)
    requires Waiting(v, view, w, users) && Waiting(v, ran, w, users) && view != []
    ensures Waiting(v, ran + [view[0]], w, users)
  {
  }

  lemma WaitingAgain(v: seq<Entry>, view: seq<Entry>, e: Entry, turn: nat, w: World, users: map<User, Record>)
    requires Waiting(v, view, w, users) && e.due <= 1
    requires w.host(turn, e.call.fun).Some? && Barred(w.now, users, w.host(turn, e.call.fun).value)
    ensures Waiting(v, Inserted(view, e), w, users)
  {
    var p := Place(view, e.due);
    assert view == view[..p] + view[p..];
    assert PutOff(e, w, users);
  }

  /** Calls that the acts leave are as they were. */
  lemma WaitingActs(v: seq<Entry>, view: seq<Entry>, view': seq<Entry>, ran: seq<Entry>, gone: set<Call>, dropped: set<Call>,
                    spent': set<Call>, w: World, users: map<User, Record>)
    requires Waiting(v, view, w, users) && Accounted(v, view, ran, gone, dropped) && Spent(ran, gone, dropped) <= spent'
    requires Kept(view, view', spent') && Apart(view', spent') && Distinct(view')
    ensures Waiting(v, view', w, users)
  {
    forall x | x in view' && x.call in CallsOf(v)
      ensures x in view
    {
      var k :| 0 <= k < |view'| && view'[k] == x;
      var i :| 0 <= i < |v| && v[i].call == x.call;
      assert v[i] in v && x.call !in spent';
      var j :| 0 <= j < |view| && view[j].call == x.call;
      assert view[j] in view;
      var l :| 0 <= l < |view'| && view'[l] == view[j];
    }
  }

  /** A user who had no error is called. */
  lemma WaitingCalled(v: seq<Entry>, view: seq<Entry>, w: World, users: map<User, Record>, user: User, record: Record)
    requires Waiting(v, view, w, users) && !Barred(w.now, users, user)
    ensures Waiting(v, view, w, users[user := record])
  {
    forall x | x in view && PutOff(x, w, users)
      ensures PutOff(x, w, users[user := record])
    {
      var n :| w.host(n, x.call.fun).Some? && Barred(w.now, users, w.host(n, x.call.fun).value);
      assert Barred(w.now, users[user := record], w.host(n, x.call.fun).value);
    }
  }

  /** The call has one due time only. */
  lemma NotAsItWas(v: seq<Entry>, x: Entry, j: nat)
    requires Distinct(v) && j < |v| && v[j].call == x.call && v[j] != x
    ensures x !in v
  {
  }

  lemma WaitingEnds(v: seq<Entry>, view: seq<Entry>, w: World, users: map<User, Record>)
    requires Waiting(v, view, w, users) && NoneDue(view) && Distinct(v)
    ensures OneSecondLeft(v, view, w, users)
  {
    forall e | e in v && e.due <= 0 && e.call in CallsOf(view)
      ensures Entry(e.call, 1) in view && Suspended(e.call.fun, w, users)
    {
      var i :| 0 <= i < |view| && view[i].call == e.call;
      var j :| 0 <= j < |v| && v[j] == e;
      var x := view[i];
      assert x in view && v[j].call in CallsOf(v);
      assert x !in v by { NotAsItWas(v, x, j); }
    }
  }

  lemma RanEnds(v: seq<Entry>, ran: seq<Entry>, w: World, users: map<User, Record>)
    requires Waiting(v, ran, w, users)
    ensures NonePutOff(v, ran, w, users)
  {
  }

  // ----- what becomes of the users

  /** A function that has been called for a user, and the lists before, between and behind its acts. */
  datatype Made = Made(user: User, deed: Deed, views: seq<seq<Entry>>)

  ghost predicate HadError(m: Made, w: World) {
    m.deed.fails || LimitHit(m.deed.acts, m.views, w.maxCallouts)
  }

  function DeedOf(w: World, i: nat): Deed {
    if i < |w.deeds| then w.deeds[i] else Deed([], 0, false)
  }

  ghost function RecordOf(m: Made, w: World): Record {
    Record(w.now, if HadError(m, w) then -1 else m.deed.cost)
  }

  /** The records of the users after the functions have been called. */
  ghost function Records(users0: map<User, Record>, made: seq<Made>, w: World): map<User, Record> {
    if made == [] then users0
    else
      var n := |made| - 1;
      Records(users0, made[..n], w)[made[n].user := RecordOf(made[n], w)]
  }

  /** Each call that has been made is one of a function of its user's object, which did what the next deed says. */
  ghost predicate MadeInTurn(made: seq<Made>, ran: seq<Entry>, w: World) {
    && |made| == |ran|
    && forall i :: 0 <= i < |made| ==> MadeOne(made[i], ran[i], i, w)
  }

  ghost predicate MadeOne(m: Made, e: Entry, i: nat, w: World) {
    && m.deed == DeedOf(w, i) && ActsDone(m.deed.acts, m.views, w.maxCallouts)
    && exists n :: w.host(n, e.call.fun) == Some(m.user)
  }

  /** Nothing is called for a user after an error. */
  ghost predicate NoneAfterError(made: seq<Made>, users0: map<User, Record>, w: World) {
    && (forall i :: 0 <= i < |made| ==> !Barred(w.now, users0, made[i].user))
    && forall i, j :: 0 <= i < j < |made| && HadError(made[i], w) ==> made[i].user != made[j].user
  }

  /** A user is barred exactly after an error, in this cycle or before. */
  lemma {:induction false} BarredIff(users0: map<User, Record>, made: seq<Made>, w: World, user: User)
    requires NoneAfterError(made, users0, w)
    ensures Barred(w.now, Records(users0, made, w), user)
            <==> Barred(w.now, users0, user) || exists i :: 0 <= i < |made| && made[i].user == user && HadError(made[i], w)
  {
    hide HadError;
    if made != [] {
      var n := |made| - 1;
      BarredIff(users0, made[..n], w, user);
      assert forall i :: 0 <= i < n ==> made[i] == made[..n][i];
    }
  }

  /** The records of the users are those of the functions that have been called. */
  ghost predicate Booked(made: seq<Made>, ran: seq<Entry>, users0: map<User, Record>, users: map<User, Record>, w: World) {
    MadeInTurn(made, ran, w) && NoneAfterError(made, users0, w) && users == Records(users0, made, w)
  }

  lemma MadeOnce(m: Made, e: Entry, i: nat, turn: nat, w: World)
    requires m.deed == DeedOf(w, i) && ActsDone(m.deed.acts, m.views, w.maxCallouts) && w.host(turn, e.call.fun) == Some(m.user)
    ensures MadeOne(m, e, i, w)
  {
  }

  lemma MadeNext(made: seq<Made>, ran: seq<Entry>, users0: map<User, Record>, users: map<User, Record>, w: World, m: Made, e: Entry)
    requires Booked(made, ran, users0, users, w) && MadeOne(m, e, |made|, w) && !Barred(w.now, users, m.user)
    ensures Booked(made + [m], ran + [e], users0, users[m.user := RecordOf(m, w)], w)
  {
    hide HadError, MadeOne, Barred;
    BarredIff(users0, made, w, m.user);
    assert (made + [m])[..|made|] == made;
  }

  lemma NothingMade(users0: map<User, Record>, w: World)
    ensures Booked([], [], users0, users0, w)
  {
  }

  // ----- one turn

  ghost function Spent(ran: seq<Entry>, gone: set<Call>, dropped: set<Call>): set<Call> {
    CallsOf(ran) + gone + dropped
  }

  ghost predicate Going(v: seq<Entry>, view: seq<Entry>, ran: seq<Entry>, gone: set<Call>, dropped: set<Call>, floor: int) {
    Accounted(v, view, ran, gone, dropped) && InOrder(ran, view, floor) && Apart(view, Spent(ran, gone, dropped))
  }

  lemma GoingStarts(v: seq<Entry>, host: (nat, Fun) -> Option<User>)
    requires Rising(v)
    ensures Going(v, v, [], {}, {}, Overdue(v)) && Undisturbed(v, v, [], 0, host)
  {
    assert v[0..] == v && v[..0] == [];
  }

  lemma TurnDropped(v: seq<Entry>, view: seq<Entry>, ran: seq<Entry>, gone: set<Call>, dropped: set<Call>, floor: int)
    requires Going(v, view, ran, gone, dropped, floor) && Rising(view) && Distinct(view) && view != [] && view[0].due <= 0
    ensures Going(v, view[1..], ran, gone, dropped + {view[0].call}, view[0].due)
  {
    hide CallsOf, Rising, Distinct, Floor, Apart, Accounted, InOrder;
    AccountedPopped(v, view, ran, gone, dropped);
    InOrderPopped(ran, view, floor, Spent(ran, gone, dropped));
    assert Spent(ran, gone, dropped + {view[0].call}) == Spent(ran, gone, dropped) + {view[0].call};
  }

  lemma TurnAgain(v: seq<Entry>, view: seq<Entry>, ran: seq<Entry>, gone: set<Call>, dropped: set<Call>, floor: int, e: Entry)
    requires Going(v, view, ran, gone, dropped, floor) && Rising(view) && Distinct(view) && view != [] && view[0].due <= 0
    requires e == Entry(view[0].call, 1 + Overdue(view[1..]))
    ensures Going(v, Inserted(view[1..], e), ran, gone, dropped, view[0].due)
    ensures e.call !in CallsOf(view[1..])
  {
    var rest, spent := view[1..], Spent(ran, gone, dropped);
    TurnDropped(v, view, ran, gone, dropped, floor);
    InOrderPopped(ran, view, floor, spent);
    assert view[0].call !in spent;
    hide Inserted, Place, Accounted, Overdue, Kept;
    AccountedAgain(v, rest, ran, gone, dropped, e);
    InsertedKeeps(rest, e, view[0].due, spent);
    FewerSpent(Inserted(rest, e), ran, gone, dropped);
    assert forall i :: 0 <= i < |rest| ==> rest[i] == view[i + 1];
  }

  lemma FewerSpent(w: seq<Entry>, ran: seq<Entry>, gone: set<Call>, dropped: set<Call>)
    requires Apart(w, Spent(ran, gone, dropped))
    ensures Apart(w, CallsOf(ran))
  {
  }

  lemma TurnRan(v: seq<Entry>, view: seq<Entry>, ran: seq<Entry>, gone: set<Call>, dropped: set<Call>, floor: int)
    requires Going(v, view, ran, gone, dropped, floor) && Rising(view) && Distinct(view) && view != [] && view[0].due <= 0
    ensures Going(v, view[1..], ran + [view[0]], gone, dropped, view[0].due) && Floor(view[1..], view[0].due)
  {
    hide CallsOf, Rising, Distinct, Floor, Apart, Accounted, InOrder;
    AccountedPopped(v, view, ran, gone, dropped);
    InOrderPopped(ran, view, floor, Spent(ran, gone, dropped));
    AccountedRun(v, view[1..], ran, gone, dropped, view[0]);
    CallsAfter(ran, view[0]);
    assert Spent(ran + [view[0]], gone, dropped) == Spent(ran, gone, dropped) + {view[0].call};
  }

  lemma TurnActs(v: seq<Entry>, view: seq<Entry>, w: seq<Entry>, ran: seq<Entry>, gone: set<Call>, dropped: set<Call>, floor: int,
                 spent': set<Call>)
    requires Going(v, view, ran, gone, dropped, floor) && Spent(ran, gone, dropped) <= spent'
    requires Kept(view, w, spent') && Floor(w, floor) && Apart(w, spent')
    ensures Going(v, w, ran, gone + (spent' - Spent(ran, gone, dropped)), dropped, floor)
  {
    var spent := Spent(ran, gone, dropped);
    hide Kept, Accounted;
    KeptButRemoved(view, w, spent, spent');
    AccountedActs(v, view, w, ran, gone, dropped, spent' - spent);
    assert Spent(ran, gone + (spent' - spent), dropped) == spent';
  }

  lemma HeadDue(q: CallQueue)
    requires q.Valid()
    ensures q.callList == null <==> q.view == []
    ensures q.callList != null ==> q.callList.delta == q.view[0].due
    ensures Rising(q.view) && Distinct(q.view)
  {
    assert q.view != [] ==> Linked(q.view, 0);
  }

  /** The calls have been removed by what called functions do. */
  ghost predicate RemovedByDeeds(gone: set<Call>, deeds: seq<Deed>) {
    forall c :: c in gone ==> exists k :: 0 <= k < |deeds| && Names(deeds[k].acts, c.fun)
  }

  ghost predicate DroppedByHost(dropped: set<Call>, host: (nat, Fun) -> Option<User>) {
    forall c :: c in dropped ==> exists n :: host(n, c.fun) == None
  }

  lemma RemovedByDeed(gone: set<Call>, more: set<Call>, deeds: seq<Deed>, k: nat)
    requires RemovedByDeeds(gone, deeds) && k < |deeds| && forall c :: c in more ==> Names(deeds[k].acts, c.fun)
    ensures RemovedByDeeds(gone + more, deeds)
  {
  }

  lemma NothingGone(w: World)
    ensures RemovedByDeeds({}, w.deeds) && DroppedByHost({}, w.host)
  {
  }

  lemma DroppedOne(dropped: set<Call>, cop: Call, host: (nat, Fun) -> Option<User>, turn: nat)
    requires DroppedByHost(dropped, host) && host(turn, cop.fun) == None
    ensures DroppedByHost(dropped + {cop}, host)
  {
  }

  lemma FewerCalls(view: seq<Entry>)
    requires view != []
    ensures CallsOf(view[1..]) <= CallsOf(view) && view[0].call in CallsOf(view)
  {
    assert view[1..] == Removed(view, 0);
    Fewer(view, 0);
  }

  lemma MoreCalls(view: seq<Entry>, e: Entry)
    ensures CallsOf(Inserted(view, e)) <= CallsOf(view) + {e.call}
  {
    InsertLinks(view, Place(view, e.due), e, Inserted(view, e));
  }

  lemma GoingApart(v: seq<Entry>, view: seq<Entry>, ran: seq<Entry>, gone: set<Call>, dropped: set<Call>, floor: int)
    requires Going(v, view, ran, gone, dropped, floor)
    ensures Apart(view, Spent(ran, gone, dropped)) && Floor(view, floor)
  {
  }

  lemma GoingAccounted(v: seq<Entry>, view: seq<Entry>, ran: seq<Entry>, gone: set<Call>, dropped: set<Call>, floor: int)
    requires Going(v, view, ran, gone, dropped, floor)
    ensures Accounted(v, view, ran, gone, dropped)
  {
  }

  ghost predicate NoneEarly(ran: seq<Entry>) {
    forall i :: 0 <= i < |ran| ==> ran[i].due <= 0
  }

  lemma GoingEnds(v: seq<Entry>, view: seq<Entry>, ran: seq<Entry>, gone: set<Call>, dropped: set<Call>, floor: int)
    requires Going(v, view, ran, gone, dropped, floor)
    ensures Rising(ran) && Distinct(ran) && NoneEarly(ran) && Apart(view, Spent(ran, gone, dropped))
    ensures Accounted(v, view, ran, gone, dropped)
  {
  }

  // ----- the cycle so far

  /** The calls that have been made, removed and dropped, the due time of the last one, the number of turns, and the functions
      that have been called. */
  datatype Progress = Progress(ran: seq<Entry>, gone: set<Call>, dropped: set<Call>, floor: int, turn: nat, made: seq<Made>)

  ghost predicate Cycle(v: seq<Entry>, view: seq<Entry>, p: Progress, users0: map<User, Record>, users: map<User, Record>, w: World) {
    && Going(v, view, p.ran, p.gone, p.dropped, p.floor) && RemovedByDeeds(p.gone, w.deeds) && DroppedByHost(p.dropped, w.host)
    && Waiting(v, view, w, users) && Waiting(v, p.ran, w, users) && Booked(p.made, p.ran, users0, users, w)
    && (Quiet(w, users0) ==> NoneBarred(w.now, users) && Undisturbed(v, view, p.ran, p.turn, w.host))
  }

  ghost predicate HeadIsDue(view: seq<Entry>) {
    Rising(view) && Distinct(view) && view != [] && view[0].due <= 0
  }

  lemma CycleStarts(v: seq<Entry>, users: map<User, Record>, w: World)
    requires Rising(v)
    ensures Cycle(v, v, Progress([], {}, {}, Overdue(v), 0, []), users, users, w)
  {
    hide Going, Undisturbed, RemovedByDeeds, DroppedByHost, Waiting, Booked, Overdue;
    GoingStarts(v, w.host);
    NothingGone(w);
    WaitingStarts(v, w, users);
    NothingMade(users, w);
    QuietDeed(w, users, 0);
  }

  /** The object to be called is gone. */
  lemma CycleDropped(v: seq<Entry>, view: seq<Entry>, p: Progress, users0: map<User, Record>, users: map<User, Record>, w: World)
    requires Cycle(v, view, p, users0, users, w) && HeadIsDue(view) && w.host(p.turn, view[0].call.fun) == None
    ensures Cycle(v, view[1..], p.(dropped := p.dropped + {view[0].call}, floor := view[0].due, turn := p.turn + 1), users0, users, w)
  {
    hide Going, Undisturbed, RemovedByDeeds, DroppedByHost, Waiting, Booked, Quiet, NoneBarred;
    TurnDropped(v, view, p.ran, p.gone, p.dropped, p.floor);
    DroppedOne(p.dropped, view[0].call, w.host, p.turn);
    WaitingPopped(v, view, w, users);
    if Quiet(w, users0) {
      UndisturbedTurn(v, view, p.ran, p.turn, w.host);
    }
  }

  /** The user has had an error. */
  lemma CyclePutOff(v: seq<Entry>, view: seq<Entry>, p: Progress, users0: map<User, Record>, users: map<User, Record>, w: World)
    requires Cycle(v, view, p, users0, users, w) && HeadIsDue(view)
    requires var host := w.host(p.turn, view[0].call.fun); host.Some? && Barred(w.now, users, host.value)
    ensures var e := Entry(view[0].call, 1 + Overdue(view[1..]));
            && Cycle(v, Inserted(view[1..], e), p.(floor := view[0].due, turn := p.turn + 1), users0, users, w)
            && e.call !in CallsOf(view[1..])
  {
    var e := Entry(view[0].call, 1 + Overdue(view[1..]));
    PutOffDueIff(view);
    hide Going, Undisturbed, RemovedByDeeds, DroppedByHost, Waiting, Booked, Quiet, NoneBarred, Barred, Inserted, Overdue;
    TurnAgain(v, view, p.ran, p.gone, p.dropped, p.floor, e);
    SomeBarred(w.now, users, w.host(p.turn, view[0].call.fun).value);
    WaitingPopped(v, view, w, users);
    WaitingAgain(v, view[1..], e, p.turn, w, users);
  }

  /** The function is about to be called. */
  lemma CycleRan(v: seq<Entry>, view: seq<Entry>, p: Progress, users0: map<User, Record>, users: map<User, Record>, w: World)
    requires Cycle(v, view, p, users0, users, w) && HeadIsDue(view)
    ensures Going(v, view[1..], p.ran + [view[0]], p.gone, p.dropped, view[0].due) && Waiting(v, view[1..], w, users)
  {
    hide Going, Waiting, Booked;
    TurnRan(v, view, p.ran, p.gone, p.dropped, p.floor);
    WaitingPopped(v, view, w, users);
  }

  /** What the progress is when the function has been called. */
  ghost function Called(p: Progress, e: Entry, gone: set<Call>, m: Made): Progress {
    p.(ran := p.ran + [e], gone := gone, floor := e.due, turn := p.turn + 1, made := p.made + [m])
  }

  lemma CycleCalled(v: seq<Entry>, view: seq<Entry>, view': seq<Entry>, p: Progress, gone': set<Call>, users0: map<User, Record>,
                    users: map<User, Record>, w: World, m: Made)
    requires Cycle(v, view, p, users0, users, w) && HeadIsDue(view) && !Barred(w.now, users, m.user)
    requires m.deed == DeedOf(w, |p.made|) && ActsDone(m.deed.acts, m.views, w.maxCallouts)
    requires w.host(p.turn, view[0].call.fun) == Some(m.user)
    requires Going(v, view', p.ran + [view[0]], gone', p.dropped, view[0].due)
    requires Waiting(v, view', w, users[m.user := RecordOf(m, w)])
    requires p.gone <= gone' && forall c :: c in gone' - p.gone ==> Names(m.deed.acts, c.fun)
    requires m.deed.acts == [] ==> view' == view[1..]
    ensures Cycle(v, view', Called(p, view[0], gone', m), users0, users[m.user := RecordOf(m, w)], w)
  {
    hide Going, Undisturbed, DroppedByHost, Waiting, Booked, ActsDone, NoneBarred, Barred, Rising, Distinct;
    var k, record := |p.made|, RecordOf(m, w);
    RemovedNext(p.gone, gone', w, k);
    HeadWaiting(v, view, p.ran, w, users);
    WaitingCalled(v, p.ran + [view[0]], w, users, m.user, record);
    MadeOnce(m, view[0], k, p.turn, w);
    MadeNext(p.made, p.ran, users0, users, w, m, view[0]);
    if Quiet(w, users0) {
      QuietTurn(v, view, p, users0, users, w, m);
    }
  }

  lemma HeadWaiting(v: seq<Entry>, view: seq<Entry>, ran: seq<Entry>, w: World, users: map<User, Record>)
    requires Waiting(v, view, w, users) && Waiting(v, ran, w, users) && HeadIsDue(view)
    ensures Waiting(v, ran + [view[0]], w, users)
  {
    WaitingRan(v, view, ran, w, users);
  }

  lemma RemovedNext(gone: set<Call>, gone': set<Call>, w: World, k: nat)
    requires RemovedByDeeds(gone, w.deeds) && gone <= gone' && forall c :: c in gone' - gone ==> Names(DeedOf(w, k).acts, c.fun)
    ensures RemovedByDeeds(gone', w.deeds)
  {
    if k < |w.deeds| {
      RemovedByDeed(gone, gone' - gone, w.deeds, k);
      assert gone + (gone' - gone) == gone';
    } else {
      forall c | c in gone'
        ensures c in gone
      {
        assert !Names([], c.fun);
      }
    }
  }

  lemma QuietTurn(v: seq<Entry>, view: seq<Entry>, p: Progress, users0: map<User, Record>, users: map<User, Record>, w: World, m: Made)
    requires Quiet(w, users0) && NoneBarred(w.now, users) && Undisturbed(v, view, p.ran, p.turn, w.host) && HeadIsDue(view)
    requires m.deed == DeedOf(w, |p.made|) && ActsDone(m.deed.acts, m.views, w.maxCallouts)
    requires w.host(p.turn, view[0].call.fun) == Some(m.user)
    ensures m.deed.acts == [] && NoneBarred(w.now, users[m.user := RecordOf(m, w)])
    ensures Undisturbed(v, view[1..], p.ran + [view[0]], p.turn + 1, w.host)
  {
    hide Undisturbed, NoneBarred;
    UndisturbedTurn(v, view, p.ran, p.turn, w.host);
    StillNoneBarred(w.now, users, m.user, RecordOf(m, w));
  }

  lemma CycleEnds(v: seq<Entry>, view: seq<Entry>, p: Progress, users0: map<User, Record>, users: map<User, Record>, w: World)
    requires Cycle(v, view, p, users0, users, w) && Rising(v) && Distinct(v) && NoneDue(view)
    ensures Rising(p.ran) && Distinct(p.ran) && NoneEarly(p.ran) && Apart(view, Spent(p.ran, p.gone, p.dropped))
    ensures Accounted(v, view, p.ran, p.gone, p.dropped) && RemovedByDeeds(p.gone, w.deeds) && DroppedByHost(p.dropped, w.host)
    ensures OneSecondLeft(v, view, w, users) && NonePutOff(v, p.ran, w, users) && Booked(p.made, p.ran, users0, users, w)
    ensures Quiet(w, users0) ==> var n := Place(v, 0); view == v[n..] && p.ran == Hosted(v[..n], w.host)
  {
    hide *;
    assert Cycle(v, view, p, users0, users, w);
    CycleParts(v, view, p, users0, users, w);
    GoingEnds(v, view, p.ran, p.gone, p.dropped, p.floor);
    WaitingEnds(v, view, w, users);
    RanEnds(v, p.ran, w, users);
    if Quiet(w, users0) {
      UndisturbedEnd(v, view, p.ran, p.turn, w.host);
    }
  }

  lemma CycleParts(v: seq<Entry>, view: seq<Entry>, p: Progress, users0: map<User, Record>, users: map<User, Record>, w: World)
    requires Cycle(v, view, p, users0, users, w)
    ensures Going(v, view, p.ran, p.gone, p.dropped, p.floor) && RemovedByDeeds(p.gone, w.deeds) && DroppedByHost(p.dropped, w.host)
    ensures Waiting(v, view, w, users) && Waiting(v, p.ran, w, users) && Booked(p.made, p.ran, users0, users, w)
    ensures Quiet(w, users0) ==> Undisturbed(v, view, p.ran, p.turn, w.host)
  {
  }

  lemma DueHead(q: CallQueue)
    requires q.Valid() && q.callList != null && q.callList.delta <= 0
    ensures HeadIsDue(q.view)
  {
    HeadDue(q);
  }

  /** Call the function; whatever it does to the list, the record of the user is up to date afterwards. */
  method MakeCall(q: CallQueue, user: User, deed: Deed, users: map<User, Record>, w: World, ghost v: seq<Entry>, ghost ran: seq<Entry>,
                  ghost gone: set<Call>, ghost dropped: set<Call>, ghost floor: int)
    returns (record: Record, ghost gone': set<Call>, ghost m: Made)
    requires q.Valid() && Going(v, q.view, ran, gone, dropped, floor)
    requires Waiting(v, q.view, w, users) && !Barred(w.now, users, user)
    modifies q, CallsOf(q.view)
    ensures q.Valid() && Going(v, q.view, ran, gone', dropped, floor) && Waiting(v, q.view, w, users[user := record])
    ensures gone <= gone' && forall c :: c in gone' - gone ==> Names(deed.acts, c.fun)
    ensures forall c :: c in CallsOf(q.view) ==> c in old(CallsOf(q.view)) || fresh(c)
    ensures m.user == user && m.deed == deed && ActsDone(deed.acts, m.views, w.maxCallouts)
    ensures m.views[0] == old(q.view) && m.views[|m.views| - 1] == q.view && record == RecordOf(m, w)
    ensures deed.acts == [] ==> q.view == old(q.view) && gone' == gone && (deed.fails <==> record.cost < 0)
  {
    hide ActsDone, LimitHit, CallsOf, Rising, Distinct, Floor, Apart, Kept, Names, Going, Waiting, Accounted, Barred;
    ghost var rest, spent := q.view, Spent(ran, gone, dropped);
    GoingApart(v, rest, ran, gone, dropped, floor);
    GoingAccounted(v, rest, ran, gone, dropped, floor);
    var ok;
    ghost var spent', views;
    ok, spent', views := RunActs(q, deed.acts, w.maxCallouts, floor, spent);
    HeadDue(q);
    WaitingActs(v, rest, q.view, ran, gone, dropped, spent', w, users);
    TurnActs(v, rest, q.view, ran, gone, dropped, floor, spent');
    gone' := gone + (spent' - spent);
    m := Made(user, deed, views);
    record := Record(w.now, if ok && !deed.fails then deed.cost else -1);
    WaitingCalled(v, q.view, w, users, user, record);
    assert deed.acts == [] ==> gone' == gone;
  }

  /** Make all calls that are due. A call of a user who had an error in this cycle is put off for one second; that may
      still be in the past, so it can come up again. */
  method MakeDueCalls(q: CallQueue, users0: map<User, Record>, w: World)
    returns (users: map<User, Record>, ghost ran: seq<Entry>, ghost gone: set<Call>, ghost dropped: set<Call>, ghost made: seq<Made>)
    requires q.Valid()
    modifies q, CallsOf(q.view)
    ensures q.Valid() && NoneDue(q.view)
    ensures Rising(ran) && Distinct(ran) && NoneEarly(ran) && Apart(q.view, Spent(ran, gone, dropped))
    ensures Accounted(old(q.view), q.view, ran, gone, dropped)
    ensures RemovedByDeeds(gone, w.deeds) && DroppedByHost(dropped, w.host)
    ensures OneSecondLeft(old(q.view), q.view, w, users) && NonePutOff(old(q.view), ran, w, users)
    ensures Booked(made, ran, users0, users, w)
    ensures Quiet(w, users0) ==>
              var p := Place(old(q.view), 0); q.view == old(q.view)[p..] && ran == Hosted(old(q.view)[..p], w.host)
  {
    hide CallsOf, Rising, Distinct, Floor, Apart, Kept, Inserted, Hosted, Debt, Overdue, Place, NoneDue, Names, Going, Waiting;
    hide Cycle, ActsDone, LimitHit, HadError, Barred, HeadIsDue, OneSecondLeft, NonePutOff, Accounted, Booked, Quiet, NoneEarly, Spent;
    users := users0;
    var used, turn := 0, 0;
    ghost var v, p := q.view, Progress([], {}, {}, Overdue(q.view), 0, []);
    HeadDue(q);
    CycleStarts(v, users, w);
    while q.callList != null && q.callList.delta <= 0
      invariant q.Valid() && used == (if |p.made| < |w.deeds| then |p.made| else |w.deeds|) && turn == p.turn
      invariant forall c :: c in CallsOf(q.view) ==> c in old(CallsOf(q.view)) || fresh(c)
      invariant Cycle(v, q.view, p, users0, users, w)
      decreases |w.deeds| - used, Debt(q.view)
    {
      ghost var view := q.view;
      HeadDue(q);
      DueHead(q);
      DebtShrinks(view);
      FewerCalls(view);
      var cop := q.PopDue();
      var host := w.host(turn, cop.fun);
      if host == None {
        CycleDropped(v, view, p, users0, users, w);
        p := p.(dropped := p.dropped + {cop}, floor := view[0].due, turn := p.turn + 1);
      } else if Barred(w.now, users, host.value) {
        CyclePutOff(v, view, p, users0, users, w);
        MoreCalls(q.view, Entry(cop, 1 + Overdue(q.view)));
        q.InsertCall(cop, 1);
        p := p.(floor := view[0].due, turn := p.turn + 1);
      } else {
        var deed := if used < |w.deeds| then w.deeds[used] else Deed([], 0, false);
        CycleRan(v, view, p, users0, users, w);
        var record;
        ghost var gone', m;
        record, gone', m := MakeCall(q, host.value, deed, users, w, v, p.ran + [view[0]], p.gone, p.dropped, view[0].due);
        CycleCalled(v, view, q.view, p, gone', users0, users, w, m);
        p := Called(p, view[0], gone', m);
        users := users[host.value := record];
        used := if used < |w.deeds| then used + 1 else used;
      }
      turn := turn + 1;
    }
    HeadDue(q);
    HeadNotDue(q.view);
    CycleEnds(v, q.view, p, users0, users, w);
    ran, gone, dropped, made := p.ran, p.gone, p.dropped, p.made;
  }
}
