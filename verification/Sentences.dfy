/** The sentences of a command giver: a linked list of actions, of the markers of running command searches, and possibly
    of one shadow sentence at its head. */
module Sentences {
  import opened Wrappers

  datatype Kind = Plain | ShortVerb(short: nat) | OldNoSpace | NoSpace | Marker | Shadow

  /** What a sentence belongs to: an object, or, for a marker, the context of its command. */
  datatype Owner = Object(ob: nat) | Context(context: nat) | Nobody

  /** The contents of a sentence. `id` tells sentences apart while their storage is reused; `shadow` is the shadow that has
      added an action for the object it shadows. */
  datatype Action = Action(kind: Kind, id: nat, owner: Owner, verb: string, shadow: Option<nat>)

  predicate IsInternal(kind: Kind) {
    kind.Marker? || kind.Shadow?
  }

  class Sentence {
    var action: Action
    var next: Sentence?

    constructor (action: Action)
      ensures this.action == action && next == null
    {
      this.action, next := action, null;
    }
  }

  // ----- lists of actions

  ghost predicate Unique(l: seq<Action>) {
    forall i, j :: 0 <= i < j < |l| ==> l[i].id != l[j].id
  }

  ghost predicate IdsBelow(l: seq<Action>, n: nat) {
    forall i :: 0 <= i < |l| ==> l[i].id < n
  }

  function Head(l: seq<Action>): seq<Action> {
    if l != [] && l[0].kind.Shadow? then [l[0]] else []
  }

  function Tail(l: seq<Action>): seq<Action> {
    if l != [] && l[0].kind.Shadow? then l[1..] else l
  }

  /** What an object asks to be removed: the actions for a verb, for all verbs, or none. */
  datatype Verbs = OneVerb(verb: string) | AllVerbs | NoVerb

  /** Which sentences are to be removed: all of an owner, all of a shadow, or those an object names. */
  datatype Choice =
    | OfOwner(owner: Owner)
    | OfShadow(shadow: nat)
    | OfVerb(verbs: Verbs, ob: nat, through: Option<nat>)

  predicate Chosen(a: Action, c: Choice) {
    match c
    case OfOwner(owner) => a.owner == owner
    case OfShadow(shadow) => a.shadow == Some(shadow)
    case OfVerb(verbs, ob, through) =>
      && !IsInternal(a.kind) && a.owner == Object(ob)
      && (verbs.AllVerbs? || (verbs.OneVerb? && a.verb == verbs.verb))
      && (through.Some? ==> a.shadow == through)
  }

  function Without(l: seq<Action>, c: Choice): seq<Action> {
    if l == [] then []
    else if Chosen(l[0], c) then Without(l[1..], c)
    else [l[0]] + Without(l[1..], c)
  }

  /** Only the first of the chosen sentences is removed. */
  function WithoutFirst(l: seq<Action>, c: Choice): seq<Action> {
    if l == [] then []
    else if Chosen(l[0], c) then l[1..]
    else [l[0]] + WithoutFirst(l[1..], c)
  }

  function Reduced(l: seq<Action>, c: Choice, onlyFirst: bool): seq<Action> {
    if onlyFirst then WithoutFirst(l, c) else Without(l, c)
  }

  /** Actions of objects in the given environment. */
  predicate IsNear(a: Action, near: set<nat>) {
    !IsInternal(a.kind) && a.owner.Object? && a.owner.ob in near
  }

  function WithoutNear(l: seq<Action>, near: set<nat>): seq<Action> {
    if l == [] then []
    else if IsNear(l[0], near) then WithoutNear(l[1..], near)
    else [l[0]] + WithoutNear(l[1..], near)
  }

  /** How often an action is in the list afterwards: the chosen ones are gone, all others stay. */
  lemma {:induction false} WithoutExactly(l: seq<Action>, c: Choice, x: Action)
    ensures multiset(Without(l, c))[x] == if Chosen(x, c) then 0 else multiset(l)[x]
  {
    hide Chosen;
    if l != [] {
      WithoutExactly(l[1..], c, x);
      OneMore(l[0], l[1..], x);
      OneMore(l[0], Without(l[1..], c), x);
      assert l == [l[0]] + l[1..];
    }
  }

  lemma {:induction false} WithoutNearExactly(l: seq<Action>, near: set<nat>, x: Action)
    ensures multiset(WithoutNear(l, near))[x] == if IsNear(x, near) then 0 else multiset(l)[x]
  {
    hide IsNear;
    if l != [] {
      WithoutNearExactly(l[1..], near, x);
      OneMore(l[0], l[1..], x);
      OneMore(l[0], WithoutNear(l[1..], near), x);
      assert l == [l[0]] + l[1..];
    }
  }

  lemma OneMore(a: Action, l: seq<Action>, x: Action)
    ensures multiset([a] + l)[x] == (if a == x then 1 else 0) + multiset(l)[x]
  {
  }

  /** Exactly the first chosen action is gone, if there is one. */
  lemma {:induction false} FirstGone(l: seq<Action>, c: Choice, k: nat)
    requires k <= |l| && (forall i :: 0 <= i < k ==> !Chosen(l[i], c)) && (k < |l| ==> Chosen(l[k], c))
    ensures WithoutFirst(l, c) == if k < |l| then l[..k] + l[k + 1..] else l
  {
    hide Chosen;
    if k > 0 {
      FirstGone(l[1..], c, k - 1);
      assert l == [l[0]] + l[1..];
    }
  }

  lemma {:induction false} WithoutAppend(l: seq<Action>, a: Action, c: Choice)
    ensures Without(l + [a], c) == Without(l, c) + (if Chosen(a, c) then [] else [a])
  {
    hide Chosen;
    if l == [] {
    } else {
      WithoutAppend(l[1..], a, c);
      assert (l + [a])[1..] == l[1..] + [a];
    }
  }

  /** As long as nothing has been chosen, nothing is removed; the first one that is chosen is. */
  lemma {:induction false} FirstChosen(l: seq<Action>, i: nat, c: Choice)
    requires i <= |l| && Without(l[..i], c) == l[..i]
    ensures i == |l| ==> WithoutFirst(l, c) == l
    ensures i < |l| && Chosen(l[i], c) ==> WithoutFirst(l, c) == l[..i] + l[i + 1..]
  {
    hide Chosen;
    if i > 0 {
      assert l[..i][1..] == l[1..][..i - 1];
      WithoutShorter(l[..i][1..], c);
      FirstChosen(l[1..], i - 1, c);
      assert i < |l| ==> [l[0]] + (l[1..][..i - 1] + l[1..][i..]) == l[..i] + l[i + 1..];
    }
  }

  lemma {:induction false} WithoutShorter(l: seq<Action>, c: Choice)
    ensures |Without(l, c)| <= |l|
  {
    hide Chosen;
    if l != [] {
      WithoutShorter(l[1..], c);
    }
  }

  /** Only markers belong to a context; a shadow sentence has no owner. Neither has been added by a shadow. */
  predicate ProperOwner(a: Action) {
    && (a.kind.Marker? <==> a.owner.Context?) && (a.kind.Shadow? ==> a.owner.Nobody?)
    && (IsInternal(a.kind) ==> a.shadow.None?)
  }

  /** Every sentence has a number of its own, and only the first one may be a shadow sentence. */
  ghost predicate WellFormed(l: seq<Action>, n: nat) {
    && Unique(l) && IdsBelow(l, n) && (forall i :: 0 < i < |l| ==> !l[i].kind.Shadow?)
    && forall i :: 0 <= i < |l| ==> ProperOwner(l[i])
  }

  // ----- linked sentences

  type Nodes = seq<Sentence>

  function First(s: Nodes, end: Sentence?): Sentence? {
    if s == [] then end else s[0]
  }

  function Last(s: Nodes): Sentence? {
    if s == [] then null else s[|s| - 1]
  }

  ghost function NodeSet(s: Nodes): set<Sentence> {
    set e | e in s
  }

  ghost predicate Linked(s: Nodes, end: Sentence?)
    reads NodeSet(s)`next
  {
    && (forall i, j :: 0 <= i && j == i + 1 && j < |s| ==> s[i].next == s[j])
    && (s != [] ==> s[|s| - 1].next == end)
  }

  lemma Split(a: Nodes, b: Nodes, end: Sentence?)
    requires Linked(a + b, end)
    ensures Linked(a, First(b, end)) && Linked(b, end)
  {
    var s := a + b;
    assert forall i :: 0 <= i < |a| ==> s[i] == a[i];
    assert forall i :: 0 <= i < |b| ==> s[|a| + i] == b[i];
  }

  lemma Joined(a: Nodes, b: Nodes, end: Sentence?)
    requires Linked(a, First(b, end)) && Linked(b, end)
    ensures Linked(a + b, end)
  {
    var s := a + b;
    forall i, j | 0 <= i && j == i + 1 && j < |s|
      ensures s[i].next == s[j]
    {
      if j < |a| {
        assert a[i].next == a[j];
      } else if i >= |a| {
        assert b[i - |a|].next == b[j - |a|];
      }
    }
  }

  /** The sentences hold these actions. */
  ghost predicate Holds(s: Nodes, l: seq<Action>)
    reads NodeSet(s)`action
  {
    |s| == |l| && forall i :: 0 <= i < |s| ==> s[i].action == l[i]
  }

  ghost predicate Distinct(s: Nodes) {
    forall i, j :: 0 <= i < j < |s| ==> s[i] != s[j]
  }

  lemma DistinctNodes(s: Nodes, l: seq<Action>, n: nat)
    requires Holds(s, l) && WellFormed(l, n)
    ensures Distinct(s)
  {
    forall i, j | 0 <= i < j < |s|
      ensures s[i] != s[j]
    {
      assert l[i].id != l[j].id;
    }
  }

  lemma DistinctParts(a: Nodes, b: Nodes)
    requires Distinct(a + b)
    ensures Distinct(a) && Distinct(b) && NodeSet(a) !! NodeSet(b)
  {
    var s := a + b;
    assert forall i :: 0 <= i < |a| ==> s[i] == a[i];
    assert forall i :: 0 <= i < |b| ==> s[|a| + i] == b[i];
  }

  lemma Outside(p: Sentence, a: Nodes, b: Nodes)
    requires p !in a + b
    ensures p !in NodeSet(a) && p !in NodeSet(b)
  {
  }

  /** Markers stay where they are. */
  ghost predicate AtHome(s: Nodes, l: seq<Action>, homes: map<nat, Sentence>) {
    |s| == |l| && forall i :: 0 <= i < |l| && l[i].kind.Marker? ==> l[i].id in homes && homes[l[i].id] == s[i]
  }

  /** One more action, with the next number. */
  lemma Inserted(x: seq<Action>, a: Action, y: seq<Action>, n: nat)
    requires WellFormed(x + y, n) && a.id == n && !a.kind.Shadow? && ProperOwner(a) && (y != [] && y[0].kind.Shadow? ==> x != [])
    ensures WellFormed(x + [a] + y, n + 1)
  {
    var l, r := x + y, x + [a] + y;
    forall i | 0 <= i < |r|
      ensures r[i] == if i < |x| then l[i] else if i == |x| then a else l[i - 1]
    {
    }
    forall i | 0 <= i < |r|
      ensures r[i].id < n + 1 && (i > 0 ==> !r[i].kind.Shadow?) && ProperOwner(r[i])
    {
      if i < |x| {
        assert r[i] == l[i];
      } else if i > |x| {
        assert r[i] == l[i - 1];
      }
    }
    forall i, j | 0 <= i < j < |r|
      ensures r[i].id != r[j].id
    {
      var u, v := if i < |x| then i else i - 1, if j < |x| then j else j - 1;
      assert i != |x| && j != |x| ==> l[u].id != l[v].id;
      assert i != |x| ==> l[u].id < n;
      assert j != |x| ==> l[v].id < n;
    }
  }

  /** A shadow sentence comes in at the head. */
  lemma InsertedShadow(l: seq<Action>, a: Action, n: nat)
    requires WellFormed(l, n) && Head(l) == [] && a.id == n && a.kind.Shadow? && ProperOwner(a)
    ensures WellFormed([a] + l, n + 1)
  {
    var r := [a] + l;
    assert forall i :: 0 < i < |r| ==> r[i] == l[i - 1];
  }

  lemma HomesAfter(a: Nodes, p: Sentence, b: Nodes, x: seq<Action>, act: Action, y: seq<Action>, homes: map<nat, Sentence>, n: nat)
    requires AtHome(a + b, x + y, homes) && |a| == |x| && |b| == |y| && act.id == n && WellFormed(x + y, n)
    ensures AtHome(a + [p] + b, x + [act] + y, if act.kind.Marker? then homes[n := p] else homes)
  {
    var l, r, s := x + y, x + [act] + y, a + [p] + b;
    forall i | 0 <= i < |r| && i != |x|
      ensures r[i].id < n && (r[i].kind.Marker? ==> r[i].id in homes && homes[r[i].id] == s[i])
    {
      var k := if i < |x| then i else i - 1;
      assert r[i] == l[k] && s[i] == (a + b)[k];
    }
  }

  lemma HoldsAfter(a: Nodes, p: Sentence, b: Nodes, x: seq<Action>, y: seq<Action>)
    requires Holds(a + b, x + y) && |a| == |x|
    ensures Holds(a + [p] + b, x + [p.action] + y)
  {
    assert forall i :: 0 <= i < |b| ==> (a + b)[|a| + i] == b[i] && (x + y)[|x| + i] == y[i];
    assert forall i :: 0 <= i < |a| ==> (a + b)[i] == a[i] && (x + y)[i] == x[i];
  }

  lemma HeadTail(l: seq<Action>, n: nat)
    requires WellFormed(l, n)
    ensures l == Head(l) + Tail(l) && |Head(l)| <= 1 && (Tail(l) != [] ==> !Tail(l)[0].kind.Shadow?)
  {
  }

  lemma LastLink(a: Nodes, end: Sentence?)
    requires Linked(a, end)
    ensures a != [] ==> a[|a| - 1].next == end
  {
  }

  class CommandGiver {
    var sent: Sentence?
    ghost var nodes: Nodes
    ghost var list: seq<Action>
    /** Where the marker with an id is stored. */
    ghost var homes: map<nat, Sentence>
    /** Sentences are numbered in the order in which they are made. */
    var nextId: nat

    ghost predicate Valid()
      reads this, nodes
    {
      && sent == First(nodes, null) && Linked(nodes, null) && Holds(nodes, list)
      && WellFormed(list, nextId) && AtHome(nodes, list, homes) && forall k :: k in homes ==> k < nextId
    }

    constructor ()
      ensures Valid() && list == [] && nextId == 0 && nodes == []
    {
      sent, nodes, list, homes, nextId := null, [], [], map[], 0;
    }

    /** Let what follows `a` be `target`. */
    method SetNext(prev: Sentence?, target: Sentence?, ghost a: Nodes, ghost end: Sentence?)
      requires prev == Last(a) && Linked(a, end) && Distinct(a) && (a != [] ==> sent == a[0])
      modifies this`sent, NodeSet(a)`next
      ensures sent == First(a, target) && Linked(a, target)
    {
      if prev == null {
        sent := target;
      } else {
        prev.next := target;
      }
    }

    /** The list is `a` followed by `b`. */
    lemma Parts(a: Nodes, b: Nodes)
      requires Valid() && nodes == a + b
      ensures Linked(a, First(b, null)) && Linked(b, null) && sent == First(a, First(b, null))
      ensures Distinct(a) && NodeSet(a) !! NodeSet(b) && NodeSet(nodes) == NodeSet(a) + NodeSet(b)
      ensures |list| == |nodes|
    {
      hide Linked, WellFormed, AtHome;
      Split(a, b, null);
      DistinctNodes(nodes, list, nextId);
      DistinctParts(a, b);
    }

    /** Chain in a new action: at the head of the list, but behind a shadow sentence. */
    method AddAction(kind: Kind, owner: Owner, verb: string, shadow: Option<nat>)
      requires Valid() && !IsInternal(kind) && !owner.Context?
      modifies this, NodeSet(nodes)`next
      ensures Valid() && homes == old(homes) && nextId == old(nextId) + 1
      ensures list == Head(old(list)) + [Action(kind, old(nextId), owner, verb, shadow)] + Tail(old(list))
      ensures forall e :: e in nodes ==> e in old(nodes) || fresh(e)
    {
      hide Linked, WellFormed, AtHome, Distinct;
      HeadTail(list, nextId);
      ghost var k := |Head(list)|;
      assert |nodes| == |list|;
      ghost var a, b := nodes[..k], nodes[k..];
      assert nodes == a + b && list[..k] == Head(list) && list[k..] == Tail(list);
      var p := new Sentence(Action(kind, nextId, owner, verb, shadow));
      var prev: Sentence? := null;
      if sent != null && sent.action.kind.Shadow? {
        prev := sent;
      }
      Inserted(list[..k], p.action, list[k..], nextId);
      InsertNode(prev, p, a, b);
    }

    /** Make sure that there is a shadow sentence. It goes to the head of the list. */
    method AssertShadowSent()
      requires Valid()
      modifies this
      ensures Valid() && homes == old(homes) && old(nextId) <= nextId <= old(nextId) + 1
      ensures if Head(old(list)) != [] then list == old(list) && nextId == old(nextId)
              else list == [Action(Shadow, old(nextId), Nobody, "", None)] + old(list) && nextId == old(nextId) + 1
      ensures forall e :: e in nodes ==> e in old(nodes) || fresh(e)
    {
      hide Linked, WellFormed, AtHome, Distinct;
      FirstHeld();
      if sent == null || !sent.action.kind.Shadow? {
        var p := new Sentence(Action(Shadow, nextId, Nobody, "", None));
        InsertedShadow(list, p.action, nextId);
        assert list[..0] + [p.action] + list[0..] == [p.action] + list;
        assert nodes == [] + nodes;
        InsertNode(null, p, [], nodes);
      }
    }

    /** Take the shadow sentence away if it is not needed any more. */
    method CheckShadowSent(needed: bool)
      requires Valid()
      modifies this`sent, this`nodes, this`list
      ensures Valid() && list == if needed then old(list) else Tail(old(list))
      ensures forall e :: e in nodes ==> e in old(nodes)
    {
      hide Linked, WellFormed, AtHome, Distinct;
      FirstHeld();
      if sent != null && sent.action.kind.Shadow? && !needed {
        ghost var rest := nodes[1..];
        assert nodes == [] + [sent] + rest;
        AfterThis([], sent, rest);
        RemoveNodes(null, sent.next, [], [sent], rest);
      }
    }

    lemma FirstHeld()
      requires Valid()
      ensures (sent != null && sent.action.kind.Shadow?) <==> Head(list) != []
      ensures sent == null <==> nodes == []
      ensures sent != null ==> nodes[0] == sent
    {
    }

    /** Put `p` between `a` and `b`. */
    method InsertNode(prev: Sentence?, p: Sentence, ghost a: Nodes, ghost b: Nodes)
      requires Valid() && nodes == a + b && prev == Last(a) && p !in nodes && p.action.id == nextId
      requires |a| <= |list| && WellFormed(list[..|a|] + [p.action] + list[|a|..], nextId + 1)
      modifies this, NodeSet(a)`next, p`next
      ensures Valid() && nextId == old(nextId) + 1 && nodes == a + [p] + b
      ensures list == old(list[..|a|] + [p.action] + list[|a|..])
      ensures homes == if p.action.kind.Marker? then old(homes)[old(nextId) := p] else old(homes)
    {
      hide Linked, WellFormed, AtHome, Distinct, NodeSet, Holds;
      Parts(a, b);
      Outside(p, a, b);
      ghost var x, y := list[..|a|], list[|a|..];
      assert list == x + y;
      HomesAfter(a, p, b, x, p.action, y, homes, nextId);
      LinkBetween(prev, p, a, b, x + y);
      HoldsAfter(a, p, b, x, y);
      if p.action.kind.Marker? {
        homes := homes[nextId := p];
      }
      nodes, list, nextId := a + [p] + b, x + [p.action] + y, nextId + 1;
    }

    method LinkBetween(prev: Sentence?, p: Sentence, ghost a: Nodes, ghost b: Nodes, ghost l: seq<Action>)
      requires Linked(a, First(b, null)) && Linked(b, null) && sent == First(a, First(b, null)) && prev == Last(a)
      requires Distinct(a) && NodeSet(a) !! NodeSet(b) && p !in NodeSet(a) && p !in NodeSet(b) && Holds(a + b, l)
      modifies this`sent, NodeSet(a)`next, p`next
      ensures Linked(a + [p] + b, null) && sent == First(a + [p] + b, null) && Holds(a + b, l)
    {
      var rest := if prev == null then sent else prev.next;
      assert rest == First(b, null) by { LastLink(a, First(b, null)); }
      p.next := rest;
      SetNext(prev, p, a, First(b, null));
      Joined(a, [p], First(b, null));
      Joined(a + [p], b, null);
    }
  
    /** Take the sentences `gone`, which `target` follows, out of the list. */
    method RemoveNodes(prev: Sentence?, target: Sentence?, ghost a: Nodes, ghost gone: Nodes, ghost b: Nodes)
      requires Valid() && nodes == a + gone + b && prev == Last(a) && target == First(b, null)
      modifies this`sent, this`nodes, this`list, NodeSet(a)`next
      ensures Valid() && nodes == a + b && |a| + |gone| <= |old(list)| && list == old(list[..|a|] + list[|a| + |gone|..])
    {
      hide Linked, WellFormed, AtHome, Distinct, Holds, NodeSet;
      assert nodes == a + (gone + b);
      Parts(a, gone + b);
      ghost var x, g, y := list[..|a|], list[|a|..|a| + |gone|], list[|a| + |gone|..];
      assert list == x + g + y;
      Removed(x, g, y, nextId);
      HomesLeft(a, gone, b, x, g, y, homes);
      Unlink(prev, target, a, gone, b, list);
      nodes, list := a + b, x + y;
    }

    method Unlink(prev: Sentence?, target: Sentence?, ghost a: Nodes, ghost gone: Nodes, ghost b: Nodes, ghost l: seq<Action>)
      requires Linked(a, First(gone + b, null)) && Linked(gone + b, null) && sent == First(a, First(gone + b, null))
      requires prev == Last(a) && target == First(b, null)
      requires Distinct(a) && NodeSet(a) !! NodeSet(gone + b) && Holds(a + gone + b, l)
      modifies this`sent, NodeSet(a)`next
      ensures Linked(a + b, null) && sent == First(a + b, null) && Holds(a + b, l[..|a|] + l[|a| + |gone|..])
    {
      hide Distinct;
      Split(gone, b, null);
      HoldsLeft(a, gone, b, l);
      assert NodeSet(b) <= NodeSet(gone + b);
      SetNext(prev, target, a, First(gone + b, null));
      assert Linked(b, null);
      Joined(a, b, null);
    }

    /** Put a marker behind `insert`. */
    method PlaceMarker(insert: Sentence, marker: Sentence, context: nat, ghost a: Nodes, ghost b: Nodes)
      requires Valid() && nodes == a + b && insert == Last(a) && marker !in nodes
      modifies this, NodeSet(a)`next, marker
      ensures Valid() && nextId == old(nextId) + 1 && nodes == a + [marker] + b && marker.action.kind.Marker?
      ensures |a| <= old(|list|) && list == old(list[..|a|]) + [Action(Marker, old(nextId), Context(context), "", None)] + old(list[|a|..])
      ensures homes == old(homes)[old(nextId) := marker]
    {
      hide Linked, WellFormed, AtHome, Distinct, Holds;
      MarkerFits(a, b, nextId, context);
      SetAction(marker, Action(Marker, nextId, Context(context), "", None));
      InsertNode(insert, marker, a, b);
    }

    lemma MarkerFits(a: Nodes, b: Nodes, id: nat, context: nat)
      requires Valid() && nodes == a + b && a != [] && id == nextId
      ensures |a| <= |list| && WellFormed(list[..|a|] + [Action(Marker, id, Context(context), "", None)] + list[|a|..], id + 1)
    {
      hide Linked, Holds;
      assert list == list[..|a|] + list[|a|..];
      Inserted(list[..|a|], Action(Marker, id, Context(context), "", None), list[|a|..], id);
    }

    method SetAction(marker: Sentence, action: Action)
      requires Valid() && marker !in nodes
      modifies marker`action
      ensures Valid() && marker.action == action
    {
      marker.action := action;
    }

    /** Copy the sentence behind the marker to the place of the marker; its own storage becomes the new marker. */
    method TakeMarker(marker: Sentence, s: Sentence, ghost a: Nodes, ghost b: Nodes)
      requires Valid() && nodes == a + [marker] + [s] + b && !s.action.kind.Marker?
      modifies this`nodes, this`list, marker, s`next
      ensures Valid() && nodes == a + [marker] + b && s !in nodes && s.next == marker
      ensures |a| < |old(list)| && list == old(list[..|a|] + list[|a| + 1..])
    {
      hide AtHome, WellFormed, Linked, Holds, Distinct;
      HeldParts(a, marker, s, b, list);
      ghost var x, y := list[..|a|], list[|a| + 2..];
      ghost var l, m := list, list[|a| + 1];
      DistinctNodes(nodes, list, nextId);
      assert list == x + [list[|a|]] + ([m] + y) && list == x + [list[|a|], m] + y;
      Removed(x, [list[|a|]], [m] + y, nextId);
      HomesMoved(a, marker, s, b, x, list[|a|], m, y, homes);
      CopyOver(marker, s, a, b, list);
      nodes, list := a + [marker] + b, x + ([m] + y);
      assert x + ([m] + y) == l[..|a|] + l[|a| + 1..];
    }

    method CopyOver(marker: Sentence, s: Sentence, ghost a: Nodes, ghost b: Nodes, ghost l: seq<Action>)
      requires Linked(a + [marker] + [s] + b, null) && Holds(a + [marker] + [s] + b, l) && Distinct(a + [marker] + [s] + b)
      modifies marker, s`next
      ensures Linked(a + [marker] + b, null) && Holds(a + [marker] + b, l[..|a|] + l[|a| + 1..]) && s.next == marker
      ensures s !in a + [marker] + b && First(a + [marker] + b, null) == First(a + [marker] + [s] + b, null)
    {
      hide Linked, Holds, Distinct;
      ghost var all, kept := a + [marker] + [s] + b, a + [marker] + b;
      assert all == a + ([marker] + ([s] + b));
      Split(a, [marker] + ([s] + b), null);
      Split([marker], [s] + b, null);
      Split([s], b, null);
      LastLink([s], First(b, null));
      ApartFour(a, marker, s, b);
      HeldParts(a, marker, s, b, l);
      Overwrite(marker, s, a, b, l);
      Joined([marker], b, null);
      Joined(a, [marker] + b, null);
      assert a + ([marker] + b) == kept;
    }

    method Overwrite(marker: Sentence, s: Sentence, ghost a: Nodes, ghost b: Nodes, ghost l: seq<Action>)
      requires Linked(a, marker) && Linked(b, null) && s.next == First(b, null) && |l| == |a| + 2 + |b|
      requires Holds(a, l[..|a|]) && s.action == l[|a| + 1] && Holds(b, l[|a| + 2..])
      requires marker !in a && marker !in b && s !in a && s !in b && s != marker
      modifies marker, s`next
      ensures Linked(a, marker) && Linked([marker], First(b, null)) && Linked(b, null)
      ensures Holds(a + [marker] + b, l[..|a|] + l[|a| + 1..]) && s.next == marker
    {
      marker.action := s.action;
      marker.next := s.next;
      s.next := marker;
      assert forall i :: 0 <= i < |a| ==> a[i] in a;
      assert forall i :: 0 <= i < |b| ==> b[i] in b;
    }

    /** The sentence before the marker, if there is one. */
    method FindBefore(marker: Sentence, ghost a0: Nodes, ghost b0: Nodes) returns (prev: Sentence?)
      requires Valid() && nodes == a0 + [marker] + b0
      ensures prev == Last(a0)
    {
      hide WellFormed, AtHome, Holds, Linked;
      prev := null;
      var s := sent;
      ghost var i: nat := 0;
      assert nodes[|a0|] == marker;
      assert nodes == nodes + [];
      Parts(nodes, []);
      while s != marker
        invariant i <= |a0| && prev == Last(nodes[..i]) && s == nodes[i]
        decreases |a0| - i
      {
        FollowedBy(nodes, i);
        prev := s;
        s := s.next;
        i := i + 1;
      }
      assert nodes[..i] == a0;
    }

    /** Find the marker in the list and take it out. */
    method DropMarker(marker: Sentence, ghost a0: Nodes, ghost b0: Nodes)
      requires Valid() && nodes == a0 + [marker] + b0
      modifies this`sent, this`nodes, this`list, NodeSet(nodes)`next
      ensures Valid() && nodes == a0 + b0 && |a0| < |old(list)| && list == old(list[..|a0|] + list[|a0| + 1..])
      ensures marker !in nodes && marker.next == old(marker.next)
    {
      hide WellFormed, AtHome, Holds, Linked;
      var prev := FindBefore(marker, a0, b0);
      assert nodes[|a0|] == marker && nodes == nodes + [] && nodes == a0 + ([marker] + b0);
      Parts(nodes, []);
      Parts(a0, [marker] + b0);
      ApartOne(a0, marker, b0);
      AfterThis(a0, marker, b0);
      RemoveNodes(prev, marker.next, a0, [marker], b0);
    }

    /** Remove all actions of `owner`. */
    method RemoveActionSent(owner: Owner)
      requires Valid()
      modifies this`sent, this`nodes, this`list, NodeSet(nodes)`next
      ensures Valid() && list == Without(old(list), OfOwner(owner))
      ensures forall e :: e in nodes ==> e in old(nodes)
    {
      var count := RemoveChosen(OfOwner(owner), false);
    }

    /** Remove all actions that the shadow has added. */
    method RemoveShadowActionSent(shadow: nat)
      requires Valid()
      modifies this`sent, this`nodes, this`list, NodeSet(nodes)`next
      ensures Valid() && list == Without(old(list), OfShadow(shadow))
      ensures forall e :: e in nodes ==> e in old(nodes)
    {
      var count := RemoveChosen(OfShadow(shadow), false);
    }

    /** Remove the first action of the object with the verb, or all its actions, and say how many that were. A shadow
        removes only those it has added. */
    method RemoveAction(verbs: Verbs, ob: nat, through: Option<nat>) returns (count: nat)
      requires Valid()
      modifies this`sent, this`nodes, this`list, NodeSet(nodes)`next
      ensures Valid() && list == Reduced(old(list), OfVerb(verbs, ob, through), !verbs.AllVerbs?)
      ensures count == |old(list)| - |list|
      ensures forall e :: e in nodes ==> e in old(nodes)
    {
      count := RemoveChosen(OfVerb(verbs, ob, through), !verbs.AllVerbs?);
    }

    /** Walk through the list and remove what is chosen. */
    method RemoveChosen(c: Choice, onlyFirst: bool) returns (count: nat)
      requires Valid()
      modifies this`sent, this`nodes, this`list, NodeSet(nodes)`next
      ensures Valid() && list == Reduced(old(list), c, onlyFirst)
      ensures count == |old(list)| - |list|
      ensures forall e :: e in nodes ==> e in old(nodes)
    {
      hide Linked, WellFormed, AtHome, Distinct, Without, WithoutFirst, Holds, NodeSet, Chosen;
      var prev: Sentence? := null;
      var s := sent;
      ghost var i: nat, a: Nodes, b: Nodes := 0, [], nodes;
      ghost var x: seq<Action>, y := [], list;
      ghost var l, nodes0 := list, nodes;
      count := 0;
      NothingLeft(c, {});
      SameLength();
      while s != null
        invariant Valid() && nodes == a + b && list == x + y && |a| == |x| && |b| == |y|
        invariant prev == Last(a) && s == First(b, null)
        invariant i <= |l| && y == l[i..] && x == Without(l[..i], c) && count == |l| - |list|
        invariant onlyFirst ==> x == l[..i]
        invariant NodeSet(a) + NodeSet(b) <= NodeSet(nodes0)
        decreases |b|
      {
        ghost var rest := b[1..];
        WalkHere(s, a, b, x, y, l, i, c);
        var next := s.next;
        if Chosen(s.action, c) {
          RemoveHere(prev, s, a, rest, x, y);
          count := count + 1;
          if onlyFirst {
            FirstChosen(l, i, c);
            SomeNodes(a, rest, nodes, nodes0);
            assert list == Reduced(l, c, onlyFirst);
            return;
          }
        } else {
          prev := s;
          a, x := a + [s], x + [y[0]];
        }
        s, b, y := next, rest, y[1..];
        i := i + 1;
      }
      assert l[..i] == l && x + y == x && a + b == a;
      if onlyFirst {
        FirstChosen(l, i, c);
      }
      SubNodes(nodes, nodes0);
    }

    /** What the walk finds at the next sentence. */
    lemma WalkHere(s: Sentence, a: Nodes, b: Nodes, x: seq<Action>, y: seq<Action>, l: seq<Action>, i: nat, c: Choice)
      requires Valid() && nodes == a + b && list == x + y && |a| == |x| && |b| == |y| && b != [] && b[0] == s
      requires i <= |l| && y == l[i..]
      ensures b != [] && nodes == a + [s] + b[1..] && s.next == First(b[1..], null)
      ensures i < |l| && y[0] == l[i] == s.action && y[1..] == l[i + 1..] && x + [y[0]] + y[1..] == list && l[..i + 1] == l[..i] + [l[i]]
      ensures Without(l[..i + 1], c) == Without(l[..i], c) + (if Chosen(s.action, c) then [] else [s.action])
      ensures NodeSet(b) == {s} + NodeSet(b[1..]) && NodeSet(a + [s]) == NodeSet(a) + {s}
    {
      hide Linked, WellFormed, AtHome, Distinct, Without, Holds, NodeSet, Chosen;
      var rest := b[1..];
      assert b == [s] + rest && nodes == a + [s] + rest;
      WalkStep(l, i, c);
      AfterThis(a, s, rest);
      AndNodes(a, s, rest);
      ActionHere(a, s, rest, x, y);
    }

    /** Remove the sentence the walk has come to. */
    method RemoveHere(prev: Sentence?, s: Sentence, ghost a: Nodes, ghost rest: Nodes, ghost x: seq<Action>, ghost y: seq<Action>)
      requires Valid() && nodes == a + [s] + rest && prev == Last(a) && list == x + y && |a| == |x| && |y| == |rest| + 1
      modifies this`sent, this`nodes, this`list, NodeSet(a)`next
      ensures Valid() && nodes == a + rest && list == x + y[1..]
    {
      hide Linked, WellFormed, AtHome, Distinct, Holds, NodeSet;
      AfterThis(a, s, rest);
      ActionHere(a, s, rest, x, y);
      RemoveNodes(prev, s.next, a, [s], rest);
    }

    lemma SomeNodes(a: Nodes, b: Nodes, s: Nodes, t: Nodes)
      requires s == a + b && NodeSet(a) + NodeSet(b) <= NodeSet(t)
      ensures forall e :: e in s ==> e in t
    {
      forall e | e in s
        ensures e in t
      {
        assert e in NodeSet(a) + NodeSet(b);
      }
    }

    lemma SameLength()
      requires Valid()
      ensures |nodes| == |list| && nodes == [] + nodes && list == [] + list && sent == First(nodes, null) && NodeSet([]) == {}
    {
    }

    lemma ActionHere(a: Nodes, s: Sentence, b: Nodes, x: seq<Action>, y: seq<Action>)
      requires Valid() && nodes == a + [s] + b && list == x + y && |a| == |x| && |y| == |b| + 1
      ensures s.action == y[0] && list[..|a|] + list[|a| + 1..] == x + y[1..] && x + [y[0]] + y[1..] == list
    {
      assert nodes[|a|] == s;
    }

    /** The end of the run of sentences of one owner. */
    method SkipRun(s0: Sentence, ghost a: Nodes, ghost b: Nodes) returns (last: Sentence, s: Sentence?, ghost k: nat)
      requires Valid() && nodes == a + b && b != [] && s0 == b[0]
      ensures 0 < k <= |b| && last == b[k - 1] && s == First(b[k..], null)
      ensures forall j :: 0 <= j < k ==> b[j].action.owner == s0.action.owner
    {
      hide WellFormed, AtHome, Holds;
      Parts(a, b);
      var owner := s0.action.owner;
      last := s0;
      s := s0.next;
      k := 1;
      FollowedBy(b, 0);
      while s != null && s.action.owner == owner
        invariant 0 < k <= |b| && last == b[k - 1] && s == First(b[k..], null)
        invariant forall j :: 0 <= j < k ==> b[j].action.owner == owner
        decreases |b| - k
      {
        FollowedBy(b, k);
        last := s;
        s := s.next;
        k := k + 1;
      }
    }

    /** Remove the actions of all objects that are near. */
    method RemoveEnvironmentSent(near: set<nat>)
      requires Valid()
      modifies this`sent, this`nodes, this`list, NodeSet(nodes)`next
      ensures Valid() && list == WithoutNear(old(list), near)
      ensures forall e :: e in nodes ==> e in old(nodes)
    {
      hide Linked, WellFormed, AtHome, Distinct, WithoutNear, Holds, NodeSet;
      var prev: Sentence? := null;
      var s := sent;
      ghost var i: nat, a: Nodes, b: Nodes := 0, [], nodes;
      ghost var x: seq<Action>, y := [], list;
      ghost var l := list;
      NothingLeft(OfOwner(Nobody), near);
      SameLength();
      while s != null
        invariant Valid() && nodes == a + b && list == x + y && |a| == |x| && |b| == |y|
        invariant prev == Last(a) && s == First(b, null)
        invariant i <= |l| && y == l[i..] && x == WithoutNear(l[..i], near)
        invariant NodeSet(a) + NodeSet(b) <= NodeSet(old(nodes))
        decreases |b|
      {
        var last, next;
        ghost var k;
        last, next, k := SkipRun(s, a, b);
        ghost var gone, rest := b[..k], b[k..];
        var isNear := IsNear(s.action, near);
        RunIsNear(a, b, x, y, k, near, isNear);
        NearStep(l, i, k, near, isNear);
        SplitNodes(a, b, k);
        if isNear {
          RemoveNodes(prev, next, a, gone, rest);
        } else {
          prev := last;
          a, x := a + gone, x + y[..k];
        }
        s, b, y := next, rest, y[k..];
        i := i + k;
      }
      assert l[..i] == l && x + y == x && a + b == a;
      SubNodes(nodes, old(nodes));
    }

    lemma RunIsNear(a: Nodes, b: Nodes, x: seq<Action>, y: seq<Action>, k: nat, near: set<nat>, isNear: bool)
      requires Valid() && nodes == a + b && list == x + y && |a| == |x| && |y| == |b| && 0 < k <= |b|
      requires forall j :: 0 <= j < k ==> b[j].action.owner == b[0].action.owner
      requires isNear == IsNear(b[0].action, near)
      ensures forall j :: 0 <= j < k ==> IsNear(y[j], near) == isNear
      ensures nodes == a + b[..k] + b[k..] && list[..|a|] + list[|a| + k..] == x + y[k..] && x + y[..k] + y[k..] == list
    {
      hide Linked, AtHome, Unique, IdsBelow;
      forall j | 0 <= j < k
        ensures IsNear(y[j], near) == isNear
      {
        assert nodes[|a| + j] == b[j] && list[|a| + j] == y[j];
        assert nodes[|a|] == b[0] && list[|a|] == y[0];
      }
    }

    lemma AfterThis(a: Nodes, s: Sentence, b: Nodes)
      requires Valid() && nodes == a + [s] + b
      ensures s.next == First(b, null)
    {
      assert nodes[|a|] == s;
      if b != [] {
        assert nodes[|a| + 1] == b[0];
      }
    }
  }

  lemma WalkStep(l: seq<Action>, i: nat, c: Choice)
    requires i < |l|
    ensures l[i..] == [l[i]] + l[i + 1..] && l[i..][1..] == l[i + 1..]
    ensures Without(l[..i + 1], c) == Without(l[..i], c) + (if Chosen(l[i], c) then [] else [l[i]])
  {
    assert l[..i + 1] == l[..i] + [l[i]];
    WithoutAppend(l[..i], l[i], c);
  }

  lemma AndNodes(a: Nodes, s: Sentence, b: Nodes)
    ensures NodeSet([s] + b) == {s} + NodeSet(b) && NodeSet(a + [s]) == NodeSet(a) + {s}
  {
  }

  lemma {:induction false} WithoutNearConcat(l: seq<Action>, m: seq<Action>, near: set<nat>)
    ensures WithoutNear(l + m, near) == WithoutNear(l, near) + WithoutNear(m, near)
  {
    if l == [] {
      assert l + m == m;
    } else {
      WithoutNearConcat(l[1..], m, near);
      assert (l + m)[1..] == l[1..] + m;
    }
  }

  lemma {:induction false} NearRun(l: seq<Action>, near: set<nat>, all: bool)
    requires forall i :: 0 <= i < |l| ==> IsNear(l[i], near) == all
    ensures WithoutNear(l, near) == if all then [] else l
  {
    if l != [] {
      NearRun(l[1..], near, all);
    }
  }

  lemma NearStep(l: seq<Action>, i: nat, k: nat, near: set<nat>, all: bool)
    requires i + k <= |l| && forall j :: 0 <= j < k ==> IsNear(l[i..][j], near) == all
    ensures WithoutNear(l[..i + k], near) == WithoutNear(l[..i], near) + (if all then [] else l[i..][..k])
    ensures l[i..][k..] == l[i + k..]
  {
    var run := l[i..][..k];
    assert l[..i + k] == l[..i] + run;
    WithoutNearConcat(l[..i], run, near);
    NearRun(run, near, all);
  }

  lemma SplitNodes(a: Nodes, b: Nodes, k: nat)
    requires k <= |b|
    ensures NodeSet(b) == NodeSet(b[..k]) + NodeSet(b[k..]) && NodeSet(a + b[..k]) == NodeSet(a) + NodeSet(b[..k])
  {
    assert b == b[..k] + b[k..];
  }

  lemma FollowedBy(b: Nodes, k: nat)
    requires Linked(b, null) && k < |b|
    ensures b[k].next == First(b[k + 1..], null)
  {
    if k + 1 < |b| {
      assert b[k].next == b[k + 1];
    }
  }

  lemma ApartOne(a: Nodes, marker: Sentence, b: Nodes)
    requires Distinct(a + [marker] + b)
    ensures marker !in a + b
  {
    var u := a + [marker] + b;
    assert u[|a|] == marker;
    assert forall i :: 0 <= i < |a| ==> u[i] == a[i];
    assert forall i :: 0 <= i < |b| ==> u[|a| + 1 + i] == b[i];
  }

  lemma ApartFour(a: Nodes, marker: Sentence, s: Sentence, b: Nodes)
    requires Distinct(a + [marker] + [s] + b)
    ensures marker !in a && marker !in b && s !in a && s !in b && s != marker
  {
    var u := a + [marker] + [s] + b;
    assert u[|a|] == marker && u[|a| + 1] == s;
    assert forall i :: 0 <= i < |a| ==> u[i] == a[i];
    assert forall i :: 0 <= i < |b| ==> u[|a| + 2 + i] == b[i];
  }

  lemma HeldParts(a: Nodes, marker: Sentence, s: Sentence, b: Nodes, l: seq<Action>)
    requires Holds(a + [marker] + [s] + b, l)
    ensures |l| == |a| + 2 + |b| && Holds(a, l[..|a|]) && marker.action == l[|a|] && s.action == l[|a| + 1] && Holds(b, l[|a| + 2..])
  {
    var u := a + [marker] + [s] + b;
    assert u[|a|] == marker && u[|a| + 1] == s;
    assert forall i :: 0 <= i < |a| ==> u[i] == a[i];
    assert forall i :: 0 <= i < |b| ==> u[|a| + 2 + i] == b[i];
  }

  lemma HomesMoved(a: Nodes, marker: Sentence, s: Sentence, b: Nodes, x: seq<Action>, k: Action, m: Action, y: seq<Action>,
                   homes: map<nat, Sentence>)
    requires AtHome(a + [marker] + [s] + b, x + [k, m] + y, homes) && |a| == |x| && !m.kind.Marker?
    ensures AtHome(a + [marker] + b, x + ([m] + y), homes)
  {
    var l, r, u, v := x + [k, m] + y, x + ([m] + y), a + [marker] + [s] + b, a + [marker] + b;
    forall i | 0 <= i < |r| && i != |x|
      ensures r[i] == l[if i < |x| then i else i + 1] && v[i] == u[if i < |x| then i else i + 1]
    {
    }
  }

  lemma SubNodes(s: Nodes, t: Nodes)
    requires NodeSet(s) <= NodeSet(t)
    ensures forall e :: e in s ==> e in t
  {
    forall e | e in s
      ensures e in t
    {
      assert e in NodeSet(s);
    }
  }

  lemma NothingLeft(c: Choice, near: set<nat>)
    ensures Without([], c) == [] && WithoutNear([], near) == []
  {
  }

  lemma Removed(x: seq<Action>, g: seq<Action>, y: seq<Action>, n: nat)
    requires WellFormed(x + g + y, n)
    ensures WellFormed(x + y, n)
  {
    var l, r := x + g + y, x + y;
    forall i | 0 <= i < |r|
      ensures r[i] == l[if i < |x| then i else i + |g|]
    {
    }
  }

  lemma HomesLeft(a: Nodes, gone: Nodes, b: Nodes, x: seq<Action>, g: seq<Action>, y: seq<Action>, homes: map<nat, Sentence>)
    requires AtHome(a + gone + b, x + g + y, homes) && |a| == |x| && |gone| == |g|
    ensures AtHome(a + b, x + y, homes)
  {
    var l, r, u := x + g + y, x + y, a + gone + b;
    forall i | 0 <= i < |r|
      ensures r[i] == l[if i < |x| then i else i + |g|] && (a + b)[i] == u[if i < |x| then i else i + |g|]
    {
    }
  }

  lemma HoldsLeft(a: Nodes, gone: Nodes, b: Nodes, l: seq<Action>)
    requires Holds(a + gone + b, l)
    ensures Holds(a + b, l[..|a|] + l[|a| + |gone|..])
  {
    var u := a + gone + b;
    assert forall i :: 0 <= i < |a + b| ==> (a + b)[i] == u[if i < |a| then i else i + |gone|];
  }
}
