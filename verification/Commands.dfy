/** The search for the action of a command. The functions that are called may change the list of actions, and may
    run commands of their own, while the search is going on. */
module Commands {
  import opened Wrappers
  import opened Sentences
  import opened Evolution

  type ActionKind = k: Kind | !IsInternal(k) witness Plain

  /** What the function of an action does: whatever it calls changes the list in one of these ways. */
  datatype Event =
    | AddAction(kind: ActionKind, ob: nat, verb: string, through: Option<nat>)
    | RemoveAction(verbs: Verbs, ob: nat, through: Option<nat>)
    | RemoveActions(ob: nat)
    | RemoveShadowActions(shadow: nat)
    | RemoveNear(near: set<nat>)
    | AssertShadow
    | CheckShadow(needed: bool)
    | Command(text: string, calls: seq<Call>, caught: bool)

  datatype Outcome = Fails | Succeeds | Raises

  datatype Call = Call(events: seq<Event>, outcome: Outcome)

  datatype Result = Found | NotFound | Raised

  /** The command without trailing blanks. */
  function Trimmed(text: string): string {
    if text != "" && text[|text| - 1] == ' ' then Trimmed(text[..|text| - 1]) else text
  }

  /** The first word. */
  function VerbOf(text: string): string {
    if text == "" || text[0] == ' ' then "" else [text[0]] + VerbOf(text[1..])
  }

  /** The command is the text without the blanks at its end, and begins with the verb, which ends before the first blank. */
  lemma {:induction false} CommandWords(text: string)
    ensures var buff := Trimmed(text);
            && buff <= text && (forall i :: |buff| <= i < |text| ==> text[i] == ' ') && (buff != "" ==> buff[|buff| - 1] != ' ')
    ensures var verb := VerbOf(text);
            verb <= text && ' ' !in verb && (|verb| < |text| ==> text[|verb|] == ' ')
    decreases |text|
  {
    if text != "" && text[|text| - 1] == ' ' {
      CommandWords(text[..|text| - 1]);
    }
    FirstWord(text);
  }

  lemma {:induction false} FirstWord(text: string)
    ensures var verb := VerbOf(text);
            verb <= text && ' ' !in verb && (|verb| < |text| ==> text[|verb|] == ' ')
  {
    if text != "" && text[0] != ' ' {
      FirstWord(text[1..]);
    }
  }

  /** What is saved while a nested command is running. */
  datatype SavedContext = SavedContext(verb: string, command: string, marker: Sentence?)

  predicate StartsWith(s: string, prefix: string) {
    |prefix| <= |s| && s[..|prefix|] == prefix
  }

  /** Does the action respond to the command? */
  predicate Matches(a: Action, verb: string, text: string) {
    match a.kind
    case Plain => a.verb == verb
    case ShortVerb(short) =>
      if short > 0 then short <= |verb| <= |a.verb| && StartsWith(a.verb, verb) else StartsWith(text, a.verb)
    case OldNoSpace => StartsWith(text, a.verb)
    case NoSpace => StartsWith(text, a.verb)
    case Marker => false
    case Shadow => false
  }

  /** What a called function finds: the verb, the command, and its argument. */
  datatype Said = Said(verb: string, command: string, arg: Option<string>)

  /** The verb that the function of the action finds: for some kinds it ends where the action's does. */
  function SeenVerb(a: Action, verb: string, text: string): string {
    if a.kind.NoSpace? && |a.verb| < |text| then text[..|a.verb|] else verb
  }

  /** The rest of the command, behind the verb of the action or behind the first blank. */
  function ArgumentOf(a: Action, verb: string, text: string): Option<string> {
    if a.kind.OldNoSpace? || a.kind.NoSpace? then
      if |a.verb| < |text| then Some(text[|a.verb|..]) else None
    else if |verb| < |text| && text[|verb|] == ' ' then Some(text[|verb| + 1..])
    else None
  }

  /** Verb and argument make up the command. */
  lemma CommandMadeUp(a: Action, text: string)
    requires Matches(a, VerbOf(text), text)
    ensures var verb := VerbOf(text); var arg := ArgumentOf(a, verb, text);
            if a.kind.OldNoSpace? || a.kind.NoSpace? then
              && text == a.verb + (if arg.Some? then arg.value else "")
              && (arg.Some? && a.kind.NoSpace? ==> SeenVerb(a, verb, text) == a.verb)
            else text == verb + (if arg.Some? then " " + arg.value else "") && SeenVerb(a, verb, text) == verb
  {
    FirstWord(text);
    hide VerbOf;
    var verb := VerbOf(text);
    if a.kind.OldNoSpace? || a.kind.NoSpace? {
      assert text == text[..|a.verb|] + text[|a.verb|..];
    } else {
      WordAndRest(verb, text);
    }
  }

  lemma WordAndRest(verb: string, text: string)
    requires verb <= text && (|verb| < |text| ==> text[|verb|] == ' ')
    ensures text == verb + if |verb| < |text| then " " + text[|verb| + 1..] else ""
  {
  }

  /** Where a search stands: the actions `f` have been passed, `r` are still to come. They are what is left of the parts
      `d` and `e` of the list with which the search began; `added` has come in since. */
  ghost predicate Passing(l0: List, n0: nat, l: List, n: nat, h: List, added: List, f: List, r: List, d: List, e: List) {
    && l == h + added + f + r && IsHead(h) && Tail(l0) == d + e
    && New(added, n0, n) && Kept(f, d) && Kept(r, e)
  }

  /** The actions that have been tried are all that match and are still there, in their order. */
  ghost predicate Tried(tried: List, f: List, d: List, verb: string, text: string) {
    && Sub(tried, d)
    && (forall x :: x in tried ==> Matches(x, verb, text))
    && forall x :: x in f && Matches(x, verb, text) ==> x in tried
  }

  lemma PassOne(l0: List, n0: nat, l: List, n: nat, h: List, added: List, f: List, r: List, d: List, e: List, tried: List, verb: string,
                text: string)
    returns (d': List, e': List)
    requires Passing(l0, n0, l, n, h, added, f, r, d, e) && Tried(tried, f, d, verb, text)
    requires r != [] && !Matches(r[0], verb, text)
    ensures Passing(l0, n0, l, n, h, added, f + [r[0]], r[1..], d', e') && Tried(tried, f + [r[0]], d', verb, text)
  {
    hide Sub, Markers, New, Head, Tail, Matches;
    assert r == [r[0]] + r[1..];
    var e1;
    e1, e' := KeptParts([r[0]], r[1..], e);
    d' := d + e1;
    KeptConcat(f, d, [r[0]], e1);
    assert l == h + added + (f + [r[0]]) + r[1..];
    assert Tail(l0) == d' + e';
    TriedMore(tried, d, e1);
  }

  lemma TriedMore(tried: List, d: List, e: List)
    requires Sub(tried, d)
    ensures Sub(tried, d + e)
  {
    assert Sub([], e);
    SubConcat(tried, d, [], e);
    assert tried + [] == tried;
  }

  ghost predicate AllMarkers(l: List) {
    forall i :: 0 <= i < |l| ==> l[i].kind.Marker?
  }

  lemma {:induction false} MarkersOfMarkers(l: List)
    requires AllMarkers(l)
    ensures Markers(l) == l
  {
    if l != [] {
      MarkersOfMarkers(l[1..]);
      assert l == [l[0]] + l[1..];
    }
  }

  lemma MarkersKept(a: List, l: List)
    requires Kept(a, l) && AllMarkers(l)
    ensures a == l
  {
    SubIn(a, l);
    forall i | 0 <= i < |a|
      ensures a[i].kind.Marker?
    {
      assert a[i] in l;
    }
    MarkersOfMarkers(a);
    MarkersOfMarkers(l);
  }

  /** The list while `s` is being tried: the markers `g` stand behind it and the markers `ms` that were there. */
  function During(h: List, added: List, f: List, s: Action, ms: List, g: List, b: List): List {
    h + added + f + [s] + ms + g + b
  }

  lemma DuringTail(h: List, added: List, f: List, s: Action, ms: List, g: List, b: List, n: nat)
    requires WellFormed(During(h, added, f, s, ms, g, b), n) && h == Head(During(h, added, f, s, ms, g, b))
    ensures Tail(During(h, added, f, s, ms, g, b)) == (added + (f + [s])) + ((ms + g) + b)
  {
    var l := During(h, added, f, s, ms, g, b);
    var t := (added + (f + [s])) + ((ms + g) + b);
    assert l == h + t;
    hide WellFormed, During;
    HeadOff(l, h, t);
  }

  lemma HeadOff(l: List, h: List, t: List)
    requires l == h + t && h == Head(l)
    ensures Tail(l) == t
  {
  }

  /** After the call: what has been passed, `s` among it, what is still to come, and the markers where they were. */
  lemma AfterCall(l0: List, n0: nat, h: List, added: List, f: List, s: Action, ms: List, g: List, b: List, d: List, e: List, n: nat,
                  n1: nat, l2: List, n2: nat)
    returns (h': List, added': List, kf: List, kb: List, d': List, e': List)
    requires Passing(l0, n0, h + added + f + ([s] + ms + b), n, h, added, f, [s] + ms + b, d, e) && n <= n1
    requires AllMarkers(ms) && AllMarkers(g)
    requires WellFormed(During(h, added, f, s, ms, g, b), n1) && h == Head(During(h, added, f, s, ms, g, b))
    requires Evolved(During(h, added, f, s, ms, g, b), n1, l2, n2)
    ensures l2 == h' + added' + (kf + ms) + g + kb && Kept(kf, f + [s])
    ensures Passing(l0, n0, h' + added' + (kf + ms) + kb, n2, h', added', kf + ms, kb, d', e')
    ensures Sub(d + [s], d') && Kept(kb, b)
  {
    hide Sub, Markers, New, Head, Tail, Kept, WellFormed, During;
    var l1 := During(h, added, f, s, ms, g, b);
    var a2, k2;
    h', a2, k2 :| Became(l1, n1, l2, n2, h', a2, k2);
    HeadKept(l1, n1, l2, n2, h', a2, k2);
    DuringTail(h, added, f, s, ms, g, b, n1);
    var x, y := KeptSplit(k2, added + (f + [s]), (ms + g) + b);
    var ka, km;
    ka, kf := KeptSplit(x, added, f + [s]);
    km, kb := KeptSplit(y, ms + g, b);
    BothMarkers(ms, g);
    MarkersKept(km, ms + g);
    added' := a2 + ka;
    NewLater(a2, ka, added, n0, n, n1, n2);
    assert l2 == h' + added' + (kf + ms) + g + kb;
    d', e' := StillKept(f, s, ms, b, kf, kb, d, e);
    assert Tail(l0) == d' + e';
  }

  lemma BothMarkers(ms: List, g: List)
    requires AllMarkers(ms) && AllMarkers(g)
    ensures AllMarkers(ms + g)
  {
  }

  lemma NewLater(a: List, x: List, l: List, n0: nat, n: nat, n1: nat, n2: nat)
    requires New(a, n1, n2) && New(l, n0, n) && n <= n1 && Kept(x, l)
    ensures New(a + x, n0, n2)
  {
    NewSub(x, l, n0, n);
  }

  lemma StillKept(f: List, s: Action, ms: List, b: List, kf: List, kb: List, d: List, e: List) returns (d': List, e': List)
    requires Kept(f, d) && Kept([s] + ms + b, e) && Kept(kf, f + [s]) && Kept(kb, b)
    ensures d + e == d' + e' && Kept(kf + ms, d') && Kept(kb, e') && Sub(d + [s], d')
  {
    hide Sub, Markers;
    assert [s] + ms + b == [s] + (ms + b);
    var e1, rest := KeptParts([s], ms + b, e);
    var e2;
    e2, e' := KeptParts(ms, b, rest);
    KeptConcat(f, d, [s], e1);
    KeptTrans(kf, f + [s], d + e1);
    KeptConcat(kf, d + e1, ms, e2);
    KeptTrans(kb, b, e');
    d' := d + e1 + e2;
    SubSelf(d);
    SubConcat(d, d, [s], e1);
    TriedMore(d + [s], d + e1, e2);
    assert d + e == d' + e';
  }

  lemma NoMatch(ms: List, x: Action, verb: string, text: string)
    requires AllMarkers(ms) && Matches(x, verb, text)
    ensures x !in ms
  {
  }

  /** `s` has been tried. */
  lemma TriedOne(tried: List, f: List, d: List, s: Action, kf: List, ms: List, d': List, verb: string, text: string)
    requires Tried(tried, f, d, verb, text) && Matches(s, verb, text) && AllMarkers(ms) && Kept(kf, f + [s]) && Sub(d + [s], d')
    ensures Tried(tried + [s], kf + ms, d', verb, text)
  {
    SubSelf([s]);
    SubConcat(tried, d, [s], [s]);
    SubTrans(tried + [s], d + [s], d');
    SubIn(kf, f + [s]);
    forall x | x in kf + ms && Matches(x, verb, text)
      ensures x in tried + [s]
    {
      NoMatch(ms, x, verb, text);
      assert x in kf;
    }
  }

  /** The list as it has become during the search. */
  lemma PassingEvolved(l0: List, n0: nat, l: List, n: nat, h: List, added: List, f: List, r: List, d: List, e: List)
    requires Passing(l0, n0, l, n, h, added, f, r, d, e) && WellFormed(l0, n0)
    ensures Evolved(l0, n0, l, n) && Head(l) == h
  {
    KeptConcat(f, d, r, e);
    assert h + added + (f + r) == l;
    assert Became(l0, n0, l, n, h, added, f + r);
    HeadKept(l0, n0, l, n, h, added, f + r);
  }

  lemma DuringHead(h: List, l: List, added: List, f: List, s: Action, ms: List, g: List, b: List)
    requires Head(l) == h && l == h + added + f + ([s] + ms + b)
    ensures Head(During(h, added, f, s, ms, g, b)) == h
  {
    var m := During(h, added, f, s, ms, g, b);
    assert m[0] == l[0];
  }

  lemma NotAdded(l0: List, n0: nat, n: nat, added: List, x: Action)
    requires WellFormed(l0, n0) && New(added, n0, n) && x in l0
    ensures x !in added
  {
    forall i, j | 0 <= i < |added| && 0 <= j < |l0|
      ensures added[i] != l0[j]
    {
      assert added[i].id >= n0 > l0[j].id;
    }
  }

  lemma PartsApart(l0: List, n0: nat, d: List, e: List)
    requires WellFormed(l0, n0) && Tail(l0) == d + e
    ensures forall x :: x in d ==> x !in e
  {
    var h := |Head(l0)|;
    forall i, j | 0 <= i < |d| && 0 <= j < |e|
      ensures d[i] != e[j]
    {
      assert Tail(l0)[i] == d[i] && Tail(l0)[|d| + j] == e[j];
      assert l0[h + i] == d[i] && l0[h + |d| + j] == e[j];
    }
  }

  /** An action of the first list that is still there has not come in since. */
  lemma StillThere(l0: List, n0: nat, l: List, n: nat, h: List, added: List, f: List, r: List, d: List, e: List, x: Action)
    requires Passing(l0, n0, l, n, h, added, f, r, d, e) && WellFormed(l0, n0) && x in l0 && x in l && !x.kind.Shadow?
    ensures x in f || x in r
    ensures x in d ==> x !in r
  {
    NotAdded(l0, n0, n, added, x);
    PartsApart(l0, n0, d, e);
    SubIn(r, e);
  }

  /** What the search has tried, seen from the list it leaves. */
  lemma AllTried(l0: List, n0: nat, l: List, n: nat, h: List, added: List, f: List, r: List, d: List, e: List, tried: List, verb: string,
                 text: string)
    requires Passing(l0, n0, l, n, h, added, f, r, d, e) && WellFormed(l0, n0) && Tried(tried, f, d, verb, text)
    ensures d <= Tail(l0)
    ensures forall x :: x in d && x in l && Matches(x, verb, text) ==> x in tried
    ensures r == [] ==> forall x :: x in l0 && x in l && Matches(x, verb, text) ==> x in tried
  {
    forall x | x in l0 && x in l && Matches(x, verb, text) && (x in d || r == [])
      ensures x in tried
    {
      StillThere(l0, n0, l, n, h, added, f, r, d, e, x);
    }
    assert forall x :: x in d ==> x in Tail(l0);
    assert forall x :: x in Tail(l0) ==> x in l0;
  }

  lemma {:induction false} WithoutConcat(a: List, b: List, c: Choice)
    ensures Without(a + b, c) == Without(a, c) + Without(b, c)
  {
    hide Chosen;
    if a == [] {
      assert a + b == b;
    } else {
      WithoutConcat(a[1..], b, c);
      assert (a + b)[1..] == a[1..] + b;
    }
  }

  lemma {:induction false} NoneOf(l: List, c: Choice)
    requires forall i :: 0 <= i < |l| ==> !Chosen(l[i], c)
    ensures Without(l, c) == l
  {
    hide Chosen;
    if l != [] {
      NoneOf(l[1..], c);
    }
  }

  /** Of all markers, the search removes its own. */
  lemma WithoutOwn(l: List, front: List, g: Action, back: List, n: nat, depth: nat)
    requires l == front + [g] + back && WellFormed(l, n) && g.owner == Context(depth)
    requires forall x :: x in front + back ==> x.owner != Context(depth)
    ensures Without(l, OfOwner(Context(depth))) == front + back
  {
    var own := OfOwner(Context(depth));
    forall i | 0 <= i < |front|
      ensures !Chosen(front[i], own)
    {
      assert front[i] in front + back;
    }
    forall i | 0 <= i < |back|
      ensures !Chosen(back[i], own)
    {
      assert back[i] in front + back;
    }
    NoneOf(front, own);
    NoneOf(back, own);
    WithoutConcat(front + [g], back, own);
    WithoutConcat(front, [g], own);
  }

  // ----- the search

  /** All markers belong to contexts up to `depth`. */
  ghost predicate ContextsUpTo(l: List, depth: nat) {
    forall i :: 0 <= i < |l| && l[i].owner.Context? ==> l[i].owner.context <= depth
  }

  lemma ContextsKept(l0: List, n0: nat, l: List, n: nat, depth: nat)
    requires Evolved(l0, n0, l, n) && ContextsUpTo(l0, depth) && WellFormed(l, n)
    ensures ContextsUpTo(l, depth)
  {
    var head, added, kept :| Became(l0, n0, l, n, head, added, kept);
    SubIn(kept, Tail(l0));
    forall i | 0 <= i < |l| && l[i].owner.Context?
      ensures l[i].owner.context <= depth
    {
      var x := l[i];
      assert x.kind.Marker?;
      assert x in head + added + kept;
      assert x !in added && x !in head;
      assert x in Tail(l0);
      assert x in l0;
    }
  }

  lemma EvolvedAdd(l: List, n: nat, a: Action)
    requires a.id == n && !IsInternal(a.kind)
    ensures Evolved(l, n, Head(l) + [a] + Tail(l), n + 1)
  {
    SubSelf(Tail(l));
    assert Became(l, n, Head(l) + [a] + Tail(l), n + 1, Head(l), [a], Tail(l));
  }

  lemma EvolvedShadow(l: List, n: nat, a: Action)
    requires Head(l) == [] && a.kind.Shadow?
    ensures Evolved(l, n, [a] + l, n + 1)
  {
    SubSelf(l);
    assert [a] + [] + l == [a] + l;
    assert Became(l, n, [a] + l, n + 1, [a], [], l);
  }

  lemma EvolvedUnshadowed(l: List, n: nat)
    ensures Evolved(l, n, Tail(l), n)
  {
    SubSelf(Tail(l));
    assert [] + [] + Tail(l) == Tail(l);
    assert Became(l, n, Tail(l), n, [], [], Tail(l));
  }

  /** No marker is chosen. */
  predicate SparesMarkers(c: Choice) {
    c.OfOwner? ==> c.owner.Object?
  }

  lemma {:induction false} ReducedKept(l: List, c: Choice, onlyFirst: bool)
    requires SparesMarkers(c) && forall i :: 0 <= i < |l| ==> ProperOwner(l[i])
    ensures Kept(Reduced(l, c, onlyFirst), l)
  {
    if l != [] {
      var rest, rest' := l[1..], Reduced(l[1..], c, onlyFirst);
      ReducedKept(rest, c, onlyFirst);
      assert [l[0]] + rest == l;
      MarkersConcat([l[0]], rest);
      if !Chosen(l[0], c) {
        SubSelf([l[0]]);
        SubConcat([l[0]], [l[0]], rest', rest);
        MarkersConcat([l[0]], rest');
      } else if onlyFirst {
        SubSelf(rest);
        SubMore(rest, [l[0]], rest);
      } else {
        SubMore(rest', [l[0]], rest);
      }
    }
  }

  lemma {:induction false} WithoutNearKept(l: List, near: set<nat>)
    ensures Kept(WithoutNear(l, near), l)
  {
    if l != [] {
      WithoutNearKept(l[1..], near);
      SubMore(WithoutNear(l[1..], near), [l[0]], l[1..]);
      assert [l[0]] + l[1..] == l;
      if !IsNear(l[0], near) {
        SubSelf([l[0]]);
        SubConcat([l[0]], [l[0]], WithoutNear(l[1..], near), l[1..]);
        MarkersConcat([l[0]], WithoutNear(l[1..], near));
      }
      MarkersConcat([l[0]], l[1..]);
    }
  }

  /** A shadow sentence at the head has no owner, so it is not removed. */
  lemma HeadStays(l: List, c: Choice, onlyFirst: bool, near: set<nat>)
    requires SparesMarkers(c) && (l != [] ==> ProperOwner(l[0]))
    ensures Reduced(l, c, onlyFirst) == Head(l) + [] + Reduced(Tail(l), c, onlyFirst)
    ensures WithoutNear(l, near) == Head(l) + [] + WithoutNear(Tail(l), near)
  {
    hide Without, WithoutFirst, WithoutNear;
    if Head(l) == [] {
      assert [] + [] + Reduced(l, c, onlyFirst) == Reduced(l, c, onlyFirst);
      assert [] + [] + WithoutNear(l, near) == WithoutNear(l, near);
    } else {
      FirstStays(l, c, near);
      assert [l[0]] + [] == [l[0]];
    }
  }

  lemma FirstStays(l: List, c: Choice, near: set<nat>)
    requires l != [] && !Chosen(l[0], c) && !IsNear(l[0], near)
    ensures Without(l, c) == [l[0]] + Without(l[1..], c) && WithoutFirst(l, c) == [l[0]] + WithoutFirst(l[1..], c)
    ensures WithoutNear(l, near) == [l[0]] + WithoutNear(l[1..], near)
  {
  }

  /** Removing actions, whichever of them. */
  lemma EvolvedReduced(l: List, n: nat, c: Choice, onlyFirst: bool)
    requires WellFormed(l, n) && SparesMarkers(c)
    ensures Evolved(l, n, Reduced(l, c, onlyFirst), n)
  {
    var t := Tail(l);
    ReducedKept(t, c, onlyFirst);
    HeadStays(l, c, onlyFirst, {});
    hide WellFormed, Kept, Reduced, WithoutNear, Head, Tail;
    assert Became(l, n, Reduced(l, c, onlyFirst), n, Head(l), [], Reduced(t, c, onlyFirst));
  }

  lemma EvolvedWithoutNear(l: List, n: nat, near: set<nat>)
    requires WellFormed(l, n)
    ensures Evolved(l, n, WithoutNear(l, near), n)
  {
    var t := Tail(l);
    WithoutNearKept(t, near);
    HeadStays(l, OfShadow(0), false, near);
    hide WellFormed, Kept, Reduced, WithoutNear, Head, Tail;
    assert Became(l, n, WithoutNear(l, near), n, Head(l), [], WithoutNear(t, near));
  }

  lemma {:induction false} InMarkers(l: List, x: Action)
    ensures x in Markers(l) <==> x in l && x.kind.Marker?
  {
    if l != [] {
      InMarkers(l[1..], x);
    }
  }

  lemma MarkerStays(l0: List, n0: nat, l: List, n: nat, x: Action)
    requires Evolved(l0, n0, l, n) && x in l0 && x.kind.Marker?
    ensures x in l
  {
    var head, added, kept :| Became(l0, n0, l, n, head, added, kept);
    assert l0 == Head(l0) + Tail(l0);
    assert x in Tail(l0);
    InMarkers(Tail(l0), x);
    InMarkers(kept, x);
  }

  lemma MarkedContexts(l: List, i: nat, g: List, depth: nat)
    requires ContextsUpTo(l, depth) && i <= |l| && (g == [] || (|g| == 1 && g[0].owner == Context(depth)))
    ensures ContextsUpTo(l[..i] + g + l[i..], depth)
  {
  }

  lemma LessContexts(l: List, j: nat, depth: nat)
    requires ContextsUpTo(l, depth) && j < |l|
    ensures ContextsUpTo(l[..j] + l[j + 1..], depth)
  {
  }

  lemma IndexIn(l: List, x: Action) returns (j: nat)
    requires x in l
    ensures j < |l| && l[j] == x
  {
    j :| 0 <= j < |l| && l[j] == x;
  }

  /** The parts of the list while it is being searched; `started` once the search is behind a shadow sentence. */
  datatype Search = Search(head: List, added: List, f: List, r: List, d: List, e: List, tried: List, started: bool)

  ghost predicate Stands(l0: List, n0: nat, l: List, n: nat, q: Search, verb: string, text: string) {
    && Tried(q.tried, q.f, q.d, verb, text)
    && if q.started then Passing(l0, n0, l, n, q.head, q.added, q.f, q.r, q.d, q.e)
       else q == Search([], [], [], l0, [], Tail(l0), [], false) && l == l0 && n == n0 && Head(l0) != []
  }

  /** Where the search is in the list. */
  ghost function At(l0: List, q: Search): nat {
    if q.started then |q.head + q.added + q.f| else 0
  }

  function Starting(l0: List): Search {
    Search([], [], [], if Head(l0) == [] then Tail(l0) else l0, [], Tail(l0), [], Head(l0) == [])
  }

  lemma StandsFirst(l0: List, n0: nat, verb: string, text: string)
    ensures Stands(l0, n0, l0, n0, Starting(l0), verb, text) && At(l0, Starting(l0)) == 0 && Starting(l0).r == l0
  {
    SubSelf(Tail(l0));
    assert Sub([], []);
    assert Head(l0) + [] + [] + Tail(l0) == l0;
    assert [] + Tail(l0) == Tail(l0);
  }

  /** The next sentence does not match. */
  lemma StandsNext(l0: List, n0: nat, l: List, n: nat, q: Search, verb: string, text: string) returns (q': Search)
    requires Stands(l0, n0, l, n, q, verb, text) && q.r != [] && !Matches(q.r[0], verb, text)
    ensures Stands(l0, n0, l, n, q', verb, text) && q'.r == q.r[1..] && At(l0, q') == At(l0, q) + 1 && q'.tried == q.tried
  {
    if q.started {
      var d, e := PassOne(l0, n0, l, n, q.head, q.added, q.f, q.r, q.d, q.e, q.tried, verb, text);
      q' := q.(f := q.f + [q.r[0]], r := q.r[1..], d := d, e := e);
    } else {
      SubSelf(Tail(l0));
      q' := Search(Head(l0), [], [], Tail(l0), [], Tail(l0), [], true);
      assert Head(l0) + [] + [] + Tail(l0) == l0;
      assert [] + Tail(l0) == Tail(l0);
    }
  }

  lemma NotShadow(l0: List, n0: nat, l: List, n: nat, q: Search, verb: string, text: string)
    requires Stands(l0, n0, l, n, q, verb, text) && q.r != [] && Matches(q.r[0], verb, text)
    ensures q.started
  {
  }

  /** The next sentence has been tried, and the search goes on behind the markers that followed it. */
  lemma StandsTried(l0: List, n0: nat, l: List, n: nat, q: Search, verb: string, text: string, k: nat, g: List, n1: nat, l2: List,
                    n2: nat)
    returns (q': Search)
    requires Stands(l0, n0, l, n, q, verb, text) && WellFormed(l0, n0) && q.r != [] && Matches(q.r[0], verb, text) && 1 + k <= |q.r|
    requires var i := At(l0, q) + 1 + k;
             i <= |l| && AllMarkers(l[At(l0, q) + 1..i]) && AllMarkers(g) && (g == [] <==> i == |l|) && n <= n1
             && WellFormed(l[..i] + g + l[i..], n1) && Evolved(l[..i] + g + l[i..], n1, l2, n2)
    ensures q'.started && l2 == q'.head + q'.added + q'.f + g + q'.r && (g == [] ==> q'.r == [])
    ensures Stands(l0, n0, q'.head + q'.added + q'.f + q'.r, n2, q', verb, text) && q'.tried == q.tried + [q.r[0]] && |q'.r| < |q.r|
  {
    hide Sub, Markers, New, Head, Tail, WellFormed, Matches, Kept, AllMarkers, Tried, Evolved;
    NotShadow(l0, n0, l, n, q, verb, text);
    var p := At(l0, q);
    var s, ms, b := q.r[0], q.r[1..1 + k], q.r[1 + k..];
    assert q.r == [s] + ms + b;
    assert l[p + 1..p + 1 + k] == ms && l[p + 1 + k..] == b && l[..p + 1 + k] == q.head + q.added + q.f + [s] + ms;
    assert l[..p + 1 + k] + g + l[p + 1 + k..] == During(q.head, q.added, q.f, s, ms, g, b);
    PassingEvolved(l0, n0, l, n, q.head, q.added, q.f, q.r, q.d, q.e);
    DuringHead(q.head, l, q.added, q.f, s, ms, g, b);
    var head, added, kf, kb, d, e := AfterCall(l0, n0, q.head, q.added, q.f, s, ms, g, b, q.d, q.e, n, n1, l2, n2);
    TriedOne(q.tried, q.f, q.d, s, kf, ms, d, verb, text);
    q' := Search(head, added, kf + ms, kb, d, e, q.tried + [s], true);
    KeptLength(kb, b);
    if g == [] {
      KeptNothing(kb);
    }
  }

  lemma KeptLength(a: List, b: List)
    requires Kept(a, b)
    ensures |a| <= |b|
  {
    SubLength(a, b);
  }

  lemma OwnMarkers(g: List)
    ensures (g == [] || (|g| == 1 && g[0].kind.Marker?)) ==> AllMarkers(g)
  {
  }

  lemma AtFront(l0: List, q: Search)
    requires q.started
    ensures At(l0, q) == |q.head + q.added + q.f|
  {
  }

  lemma SamePlace(l: List, j: nat, front: List, x: Action, back: List, n: nat)
    requires WellFormed(l, n) && l == front + [x] + back && j < |l| && l[j] == x
    ensures j == |front| && l[..j] + l[j + 1..] == front + back
  {
    assert l[|front|] == x;
  }

  /** The list without the marker of the search is what the search has made of its first list. */
  lemma MarkerGone(l0: List, n0: nat, front: List, g: List, back: List, l2: List, n2: nat, q: Search, depth: nat, verb: string,
                   text: string)
    requires q.started && front == q.head + q.added + q.f && back == q.r && l2 == front + g + back
    requires Stands(l0, n0, q.head + q.added + q.f + q.r, n2, q, verb, text) && WellFormed(l0, n0) && WellFormed(l2, n2)
    requires depth > 0 && ContextsUpTo(l0, depth - 1) && (g == [] || (|g| == 1 && g[0].owner == Context(depth)))
    ensures Evolved(l0, n0, front + back, n2) && WellFormed(front + back, n2)
    ensures if g == [] then l2 == front + back else l2 == front + [g[0]] + back && Without(l2, OfOwner(Context(depth))) == front + back
  {
    hide WellFormed, Evolved, ContextsUpTo;
    PassingEvolved(l0, n0, front + back, n2, q.head, q.added, q.f, q.r, q.d, q.e);
    Removed(front, g, back, n2);
    ContextsKept(l0, n0, front + back, n2, depth - 1);
    NotOwn(front + back, depth);
    if g == [] {
      assert front + [] == front;
    } else {
      assert g == [g[0]];
      WithoutOwn(l2, front, g[0], back, n2, depth);
    }
  }

  lemma KeptNothing(a: List)
    ensures Kept(a, []) ==> a == []
  {
  }

  // ----- what follows from the calls

  datatype State = State(list: List, nextId: nat)

  /** An event that has been met, with the state before and after it, and the actions that a nested command has tried. */
  datatype Met = Met(before: State, after: State, turns: seq<Turn>)

  /** An action that has been tried: what its function found and met, and how it ended. */
  datatype Turn = Turn(said: Said, before: State, events: seq<Met>, after: State, out: Outcome)

  /** A command ends with the last action that is tried. */
  function ResultOf(turns: seq<Turn>): Result {
    if turns == [] then NotFound
    else
      match turns[|turns| - 1].out
      case Fails => NotFound
      case Succeeds => Found
      case Raises => Raised
  }

  /** What an event that is no command makes of the list. */
  function Effect(event: Event, s: State): State
    requires !event.Command?
  {
    match event
    case AddAction(kind, ob, verb, through) =>
      State(Head(s.list) + [Action(kind, s.nextId, Object(ob), verb, through)] + Tail(s.list), s.nextId + 1)
    case RemoveAction(verbs, ob, through) => s.(list := Reduced(s.list, OfVerb(verbs, ob, through), !verbs.AllVerbs?))
    case RemoveActions(ob) => s.(list := Without(s.list, OfOwner(Object(ob))))
    case RemoveShadowActions(shadow) => s.(list := Without(s.list, OfShadow(shadow)))
    case RemoveNear(near) => s.(list := WithoutNear(s.list, near))
    case AssertShadow =>
      if Head(s.list) != [] then s else State([Action(Shadow, s.nextId, Nobody, "", None)] + s.list, s.nextId + 1)
    case CheckShadow(needed) => if needed then s else s.(list := Tail(s.list))
  }

  /** A nested command ends in an error that is not caught. */
  predicate Escapes(event: Event, m: Met) {
    event.Command? && !event.caught && ResultOf(m.turns) == Raised
  }

  ghost predicate EventFollows(m: Met, event: Event)
    decreases event
  {
    match event
    case Command(_, calls, _) =>
      TurnsFollow(m.turns, calls) && Evolved(m.before.list, m.before.nextId, m.after.list, m.after.nextId)
    case _ => m.turns == [] && m.after == Effect(event, m.before)
  }

  /** Each event is met in the state in which the one before has left the list. */
  ghost predicate Chained(before: State, events: seq<Met>, after: State) {
    && (events == [] ==> after == before)
    && (events != [] ==> events[0].before == before && events[|events| - 1].after == after)
    && forall i, j :: 0 <= i && j == i + 1 && j < |events| ==> events[j].before == events[i].after
  }

  /** The events happen one after the other, up to an error; without one the function ends as it does. */
  ghost predicate TurnFollows(t: Turn, call: Call)
    decreases call
  {
    && Chained(t.before, t.events, t.after) && |t.events| <= |call.events|
    && (forall i :: 0 <= i < |t.events| ==> EventFollows(t.events[i], call.events[i]))
    && (forall i :: 0 <= i < |t.events| - 1 ==> !Escapes(call.events[i], t.events[i]))
    && if t.events != [] && Escapes(call.events[|t.events| - 1], t.events[|t.events| - 1]) then t.out == Raises
       else |t.events| == |call.events| && t.out == call.outcome
  }

  /** The n-th action that is tried does what the n-th call says, and none is tried behind one that has not failed. An
      action for which there is no call does nothing and fails. */
  ghost predicate TurnsFollow(turns: seq<Turn>, calls: seq<Call>)
    decreases calls
  {
    && (forall n :: 0 <= n < |turns| ==>
          if n < |calls| then TurnFollows(turns[n], calls[n])
          else turns[n].after == turns[n].before && turns[n].events == [] && turns[n].out == Fails)
    && forall n :: 0 <= n < |turns| - 1 ==> turns[n].out == Fails
  }

  function OutcomeOf(calls: seq<Call>, n: nat): Outcome {
    if n < |calls| then calls[n].outcome else Fails
  }

  /** No nested command is run without catching its errors. */
  ghost predicate AllCaught(calls: seq<Call>) {
    forall n, i :: 0 <= n < |calls| && 0 <= i < |calls[n].events| && calls[n].events[i].Command? ==> calls[n].events[i].caught
  }

  /** Where errors of nested commands are caught, the outcomes of the calls decide: all actions that are tried fail but the
      last, and that one has the command found, not found or broken off. */
  lemma OutcomesDecide(turns: seq<Turn>, calls: seq<Call>)
    requires TurnsFollow(turns, calls) && AllCaught(calls)
    ensures forall n :: 0 <= n < |turns| ==> turns[n].out == OutcomeOf(calls, n)
    ensures forall n :: 0 <= n < |turns| - 1 ==> OutcomeOf(calls, n) == Fails
    ensures ResultOf(turns) == Found <==> turns != [] && OutcomeOf(calls, |turns| - 1) == Succeeds
    ensures ResultOf(turns) == NotFound <==> forall n :: 0 <= n < |turns| ==> OutcomeOf(calls, n) == Fails
    ensures ResultOf(turns) == Raised <==> exists n :: 0 <= n < |turns| && OutcomeOf(calls, n) == Raises
  {
    forall n | 0 <= n < |turns|
      ensures turns[n].out == OutcomeOf(calls, n)
    {
      if n < |calls| {
        assert TurnFollows(turns[n], calls[n]);
        var k := |turns[n].events|;
        assert k > 0 && calls[n].events[k - 1].Command? ==> calls[n].events[k - 1].caught;
      }
    }
  }

  /** An event of the n-th action has met an error that is not caught. */
  ghost predicate Broken(turns: seq<Turn>, calls: seq<Call>, n: nat) {
    && n < |turns| && n < |calls| && turns[n].events != [] && |turns[n].events| <= |calls[n].events|
    && Escapes(calls[n].events[|turns[n].events| - 1], turns[n].events[|turns[n].events| - 1])
  }

  /** In general a command is broken off if and only if an action that has been tried has met an error that was not caught, or
      ends with one of its own. */
  lemma RaisedIff(turns: seq<Turn>, calls: seq<Call>)
    requires TurnsFollow(turns, calls)
    ensures ResultOf(turns) == Raised
            <==> exists n :: 0 <= n < |turns| && (Broken(turns, calls, n) || OutcomeOf(calls, n) == Raises)
  {
    forall n | 0 <= n < |turns|
      ensures turns[n].out == Raises <==> Broken(turns, calls, n) || OutcomeOf(calls, n) == Raises
    {
      if n < |calls| {
        assert TurnFollows(turns[n], calls[n]);
      }
    }
  }

  lemma TurnStarts(s: State, call: Call)
    ensures EventsFollow(s, [], s, call.events)
  {
  }

  /** The events so far, none of which has broken the call off. */
  ghost predicate EventsFollow(before: State, met: seq<Met>, after: State, events: seq<Event>) {
    && Chained(before, met, after) && |met| <= |events|
    && forall i :: 0 <= i < |met| ==> EventFollows(met[i], events[i]) && !Escapes(events[i], met[i])
  }

  lemma NextEvent(said: Said, before: State, met: seq<Met>, s: State, m: Met, call: Call)
    requires EventsFollow(before, met, s, call.events) && |met| < |call.events|
    requires EventFollows(m, call.events[|met|]) && m.before == s
    ensures if Escapes(call.events[|met|], m) then TurnFollows(Turn(said, before, met + [m], m.after, Raises), call)
            else EventsFollow(before, met + [m], m.after, call.events)
  {
    hide EventFollows, Escapes;
  }

  lemma TurnEnds(said: Said, before: State, met: seq<Met>, after: State, call: Call)
    requires EventsFollow(before, met, after, call.events) && |met| == |call.events|
    ensures TurnFollows(Turn(said, before, met, after, call.outcome), call)
  {
    hide EventFollows, Escapes;
  }

  function SaidFor(a: Action, verb: string, command: string, text: string): Said {
    Said(SeenVerb(a, verb, text), command, ArgumentOf(a, verb, text))
  }

  /** What the n-th action does if it is tried. */
  ghost predicate NthFollows(t: Turn, calls: seq<Call>, n: nat) {
    if n < |calls| then TurnFollows(t, calls[n]) else t.after == t.before && t.events == [] && t.out == Fails
  }

  lemma NextTurn(turns: seq<Turn>, t: Turn, calls: seq<Call>)
    requires TurnsFollow(turns, calls) && ResultOf(turns) == NotFound && NthFollows(t, calls, |turns|)
    ensures TurnsFollow(turns + [t], calls)
    ensures ResultOf(turns + [t]) == match t.out case Fails => NotFound case Succeeds => Found case Raises => Raised
  {
    hide TurnFollows, Chained;
  }

  /** Every function that is called finds the verb, the command and the argument that its action is to give it. */
  ghost predicate AllTold(turns: seq<Turn>, tried: List, verb: string, text: string) {
    |turns| == |tried| && forall n :: 0 <= n < |turns| ==> turns[n].said == SaidFor(tried[n], verb, text, text)
  }

  lemma NextTold(turns: seq<Turn>, t: Turn, tried: List, a: Action, verb: string, text: string)
    requires AllTold(turns, tried, verb, text) && t.said == SaidFor(a, verb, text, text)
    ensures AllTold(turns + [t], tried + [a], verb, text)
  {
  }

  lemma NoTurns(calls: seq<Call>, verb: string, text: string)
    ensures TurnsFollow([], calls) && ResultOf([]) == NotFound && AllTold([], [], verb, text)
  {
  }

  class Driver {
    const giver: CommandGiver
    var lastVerb: string
    var lastCommand: string
    /** The marker of the running command while it is not in the list. */
    var commandMarker: Sentence?
    /** The number of nested commands. */
    var depth: nat

    constructor (giver: CommandGiver)
      ensures this.giver == giver && depth == 0 && commandMarker == null
    {
      this.giver := giver;
      lastVerb, lastCommand, commandMarker, depth := "", "", null, 0;
    }

    ghost predicate Valid()
      reads this, giver, giver.nodes
    {
      giver.Valid() && ContextsUpTo(giver.list, depth)
    }

    /** What every call leaves as it has been, or as it may have become. */
    twostate predicate Continued()
      reads this, giver, giver.nodes
    {
      && Valid() && old(giver.nextId) <= giver.nextId
      && depth == old(depth) && lastVerb == old(lastVerb) && lastCommand == old(lastCommand)
      && commandMarker == old(commandMarker)
      && Evolved(old(giver.list), old(giver.nextId), giver.list, giver.nextId)
      && (forall k :: k in old(giver.homes) ==> k in giver.homes && giver.homes[k] == old(giver.homes[k]))
      && forall e :: e in giver.nodes ==> e in old(giver.nodes) || fresh(e)
    }

    /** One thing that a called function does. */
    method RunEvent(event: Event) returns (out: Outcome, ghost m: Met)
      requires Valid()
      modifies this, giver, NodeSet(giver.nodes)
      ensures Continued() && out == (if Escapes(event, m) then Raises else Succeeds)
      ensures EventFollows(m, event) && m.before == old(State(giver.list, giver.nextId)) && m.after == State(giver.list, giver.nextId)
      decreases event, 0
    {
      hide Evolved, WellFormed, AtHome, Linked, Holds, ResultOf, TurnsFollow;
      ghost var l, n := giver.list, giver.nextId;
      ghost var turns := [];
      out := Succeeds;
      match event {
        case AddAction(kind, ob, verb, through) =>
          EvolvedAdd(l, n, Action(kind, n, Object(ob), verb, through));
          giver.AddAction(kind, Object(ob), verb, through);
          ContextsKept(l, n, giver.list, giver.nextId, depth);
        case RemoveAction(verbs, ob, through) =>
          EvolvedReduced(l, n, OfVerb(verbs, ob, through), !verbs.AllVerbs?);
          var count := giver.RemoveAction(verbs, ob, through);
          ContextsKept(l, n, giver.list, giver.nextId, depth);
        case RemoveActions(ob) =>
          EvolvedReduced(l, n, OfOwner(Object(ob)), false);
          giver.RemoveActionSent(Object(ob));
          ContextsKept(l, n, giver.list, giver.nextId, depth);
        case RemoveShadowActions(shadow) =>
          EvolvedReduced(l, n, OfShadow(shadow), false);
          giver.RemoveShadowActionSent(shadow);
          ContextsKept(l, n, giver.list, giver.nextId, depth);
        case RemoveNear(near) =>
          EvolvedWithoutNear(l, n, near);
          giver.RemoveEnvironmentSent(near);
          ContextsKept(l, n, giver.list, giver.nextId, depth);
        case AssertShadow =>
          if Head(l) == [] {
            EvolvedShadow(l, n, Action(Shadow, n, Nobody, "", None));
          } else {
            EvolvedSelf(l, n);
          }
          giver.AssertShadowSent();
          ContextsKept(l, n, giver.list, giver.nextId, depth);
        case CheckShadow(needed) =>
          EvolvedSelf(l, n);
          EvolvedUnshadowed(l, n);
          giver.CheckShadowSent(needed);
          ContextsKept(l, n, giver.list, giver.nextId, depth);
        case Command(text, calls, caught) =>
          ghost var tried, d;
          var r;
          r, tried, d, turns := ExecuteCommand(text, calls);
          if r == Raised && !caught {
            out := Raises;
          }
      }
      m := Met(State(l, n), State(giver.list, giver.nextId), turns);
    }

    /** A called function: events up to an error that is not caught, and its own outcome. */
    method RunCall(call: Call, arg: Option<string>) returns (out: Outcome, ghost t: Turn)
      requires Valid()
      modifies this, giver, NodeSet(giver.nodes)
      ensures Continued() && TurnFollows(t, call) && t.out == out
      ensures t.before == old(State(giver.list, giver.nextId)) && t.after == State(giver.list, giver.nextId)
      ensures t.said == old(Said(lastVerb, lastCommand, arg))
      decreases call, 0
    {
      hide Evolved, WellFormed, AtHome, Linked, Holds, ContextsUpTo, TurnFollows, EventFollows, EventsFollow, Escapes;
      ghost var l, n := giver.list, giver.nextId;
      ghost var said, met := Said(lastVerb, lastCommand, arg), [];
      EvolvedSelf(l, n);
      TurnStarts(State(l, n), call);
      var i := 0;
      while i < |call.events|
        invariant 0 <= i <= |call.events| && Continued()
        invariant |met| == i && EventsFollow(State(l, n), met, State(giver.list, giver.nextId), call.events)
      {
        ghost var l1, n1 := giver.list, giver.nextId;
        ghost var m;
        out, m := RunEvent(call.events[i]);
        EvolvedTrans(l, n, l1, n1, giver.list, giver.nextId);
        NextEvent(said, State(l, n), met, State(l1, n1), m, call);
        met := met + [m];
        if out == Raises {
          t := Turn(said, State(l, n), met, State(giver.list, giver.nextId), Raises);
          return;
        }
        i := i + 1;
      }
      TurnEnds(said, State(l, n), met, State(giver.list, giver.nextId), call);
      out := call.outcome;
      t := Turn(said, State(l, n), met, State(giver.list, giver.nextId), out);
    }

    /** What a search leaves: of the part `d` of the list `l0` that has been passed, all actions that match and are still there
        have been tried, once each and in their order; if no function succeeded, that part is the whole list. */
    ghost predicate SearchDone(r: Result, l0: List, l: List, tried: List, d: List, verb: string, text: string) {
      && d <= Tail(l0) && Sub(tried, d)
      && (forall x :: x in tried ==> Matches(x, verb, text))
      && (forall x :: x in d && x in l && Matches(x, verb, text) ==> x in tried)
      && (r == Found ==> tried != [])
      && (r == NotFound ==> forall x :: x in l0 && x in l && Matches(x, verb, text) ==> x in tried)
    }

    /** The sentences that are kept over a call. */
    twostate predicate SameNodes(marker: Sentence)
      reads giver
    {
      forall e :: e in giver.nodes ==> e in old(giver.nodes) || e == marker || fresh(e)
    }

    twostate predicate HomesGrow()
      reads giver
    {
      old(giver.nextId) <= giver.nextId
      && forall k :: k in old(giver.homes) ==> k in giver.homes && giver.homes[k] == old(giver.homes[k])
    }

    /** Skip the markers behind `s`, and put the marker there; at the end of the list, keep it outside. */
    method MarkPlace(s: Sentence, marker: Sentence, ghost a: Nodes, ghost b: Nodes)
      returns (next: Sentence?, ghost k: nat, ghost g: List)
      requires giver.Valid() && giver.nodes == a + [s] + b && marker !in giver.nodes && |a| < |giver.list|
      modifies this`commandMarker, giver, NodeSet(giver.nodes)`next, marker
      ensures giver.Valid() && HomesGrow() && SameNodes(marker)
      ensures var l := old(giver.list); var i := |a| + 1 + k;
              && i <= |l| && AllMarkers(l[|a| + 1..i]) && giver.list == l[..i] + g + l[i..]
              && marker.action.kind.Marker?
              && if next == null then g == [] && i == |l| && commandMarker == marker && marker.next == null && marker !in giver.nodes
                 else
                   && i < |l| && g == [Action(Marker, old(giver.nextId), Context(depth), "", None)] && commandMarker == old(commandMarker)
                   && old(giver.nextId) in giver.homes && giver.homes[old(giver.nextId)] == marker
    {
      hide WellFormed, AtHome, Holds, Linked;
      ghost var l, all := giver.list, giver.nodes;
      var insert;
      LengthOf();
      assert all[|a|] == s;
      insert, next, k := SkipMarkers(s, |a|);
      ghost var i := |a| + 1 + k;
      assert all == all[..i] + all[i..] && l == l[..i] + [] + l[i..];
      if next == null {
        giver.SetAction(marker, Action(Marker, giver.nextId, Nobody, "", None));
        marker.next := null;
        commandMarker := marker;
        g := [];
      } else {
        g := [Action(Marker, giver.nextId, Context(depth), "", None)];
        giver.PlaceMarker(insert, marker, depth, all[..i], all[i..]);
      }
    }

    /** One action that matches: mark the place, call the function, and find the place again. */
    method TryAction(s: Sentence, marker0: Sentence, calls: seq<Call>, n: nat, text: string, ghost a: Nodes, ghost b: Nodes)
      returns (out: Outcome, marker: Sentence, cur: Sentence?, ghost k: nat, ghost g: List, ghost j: nat, ghost n1: nat, ghost l2: List,
               ghost t: Turn)
      requires Valid() && giver.nodes == a + [s] + b && marker0 !in giver.nodes && |a| < |giver.list|
      requires Matches(s.action, lastVerb, text)
      modifies this, giver, NodeSet(giver.nodes), marker0
      ensures Valid() && HomesGrow() && SameNodes(marker0) && (out != Raises ==> marker !in giver.nodes)
      ensures depth == old(depth) && (out != Raises ==> lastVerb == old(lastVerb)) && lastCommand == old(lastCommand)
      ensures marker == marker0 || marker in old(giver.nodes) || fresh(marker)
      ensures var l := old(giver.list); var i := |a| + 1 + k;
              && i <= |l| && AllMarkers(l[|a| + 1..i]) && (g == [] <==> i == |l|)
              && (g == [] || g == [Action(Marker, old(giver.nextId), Context(depth), "", None)])
              && old(giver.nextId) <= n1 && WellFormed(l[..i] + g + l[i..], n1) && Evolved(l[..i] + g + l[i..], n1, l2, giver.nextId)
              && t.before == State(l[..i] + g + l[i..], n1) && t.after == State(l2, giver.nextId)
      ensures if g == [] then commandMarker != null else commandMarker == old(commandMarker)
      ensures out == Raises ==> giver.list == l2
      ensures WellFormed(l2, giver.nextId) && NthFollows(t, calls, n) && t.out == out
      ensures t.said == old(SaidFor(s.action, lastVerb, lastCommand, text))
      ensures out != Raises ==>
                if g == [] then giver.list == l2 && cur == null
                else j < |l2| && l2[j] == g[0] && j <= |giver.nodes| && giver.list == l2[..j] + l2[j + 1..] && cur == First(giver.nodes[j..], null)
      decreases calls, 1
    {
      hide WellFormed, AtHome, Holds, Linked, Evolved, NthFollows;
      var next;
      var verb, seen, arg := lastVerb, SeenVerb(s.action, lastVerb, text), ArgumentOf(s.action, lastVerb, text);
      next, k, g := MarkPlace(s, marker0, a, b);
      n1 := giver.nextId;
      ghost var l1 := giver.list;
      MarkedContexts(old(giver.list), |a| + 1 + k, g, depth);
      GiverFormed();
      lastVerb := seen;
      out, t := RunNthCall(calls, n, arg);
      GiverFormed();
      l2 := giver.list;
      marker, cur, j := marker0, null, 0;
      if out == Raises {
        return;
      }
      lastVerb := verb;
      if next != null {
        assert l1[|a| + 1 + k] == g[0];
        MarkerStays(l1, n1, l2, giver.nextId, g[0]);
        j := IndexIn(l2, g[0]);
        LengthOf();
        MarkerHome(j);
      }
      marker, cur := FindPlace(marker0, next, j);
      if next != null {
        LessContexts(l2, j, depth);
      }
    }

    /** An action for which no call is given does nothing and fails. */
    method RunNthCall(calls: seq<Call>, n: nat, arg: Option<string>) returns (out: Outcome, ghost t: Turn)
      requires Valid()
      modifies this, giver, NodeSet(giver.nodes)
      ensures Continued() && NthFollows(t, calls, n) && t.out == out
      ensures t.before == old(State(giver.list, giver.nextId)) && t.after == State(giver.list, giver.nextId)
      ensures t.said == old(Said(lastVerb, lastCommand, arg))
      decreases calls, 0
    {
      hide TurnFollows;
      EvolvedSelf(giver.list, giver.nextId);
      if n < |calls| {
        out, t := RunCall(calls[n], arg);
      } else {
        out := Fails;
        t := Turn(Said(lastVerb, lastCommand, arg), State(giver.list, giver.nextId), [], State(giver.list, giver.nextId), Fails);
      }
    }

    lemma GiverFormed()
      requires giver.Valid()
      ensures WellFormed(giver.list, giver.nextId)
    {
    }

    lemma MarkerHome(j: nat)
      requires giver.Valid() && j < |giver.list| && giver.list[j].kind.Marker?
      ensures j < |giver.nodes| && giver.list[j].id in giver.homes && giver.nodes[j] == giver.homes[giver.list[j].id]
    {
    }

    /** Take the marker out of the list, and go on with the sentence behind it. */
    method FindPlace(marker0: Sentence, next: Sentence?, ghost j: nat) returns (marker: Sentence, cur: Sentence?)
      requires giver.Valid()
      requires if next == null then marker0 !in giver.nodes && marker0.next == null else j < |giver.nodes| && giver.nodes[j] == marker0
      modifies giver, NodeSet(giver.nodes), marker0
      ensures giver.Valid() && marker !in giver.nodes && (marker == marker0 || marker in old(giver.nodes))
      ensures giver.nextId == old(giver.nextId) && giver.homes == old(giver.homes)
      ensures forall e :: e in giver.nodes ==> e in old(giver.nodes)
      ensures if next == null then giver.list == old(giver.list) && cur == null
              else j < |old(giver.list)| && j <= |giver.nodes| && giver.list == old(giver.list)[..j] + old(giver.list)[j + 1..] && cur == First(giver.nodes[j..], null)
    {
      hide WellFormed, AtHome, Holds, Linked;
      LengthOf();
      ghost var all := giver.nodes;
      var s := marker0.next;
      if next == null {
        marker, cur := marker0, s;
      } else {
        LinkAt(j);
        assert all == all[..j] + [marker0] + all[j + 1..];
        if s != null && !s.action.kind.Marker? {
          assert all == all[..j] + [marker0] + [s] + all[j + 2..];
          giver.TakeMarker(marker0, s, all[..j], all[j + 2..]);
          marker, cur := s, s.next;
        } else {
          giver.DropMarker(marker0, all[..j], all[j + 1..]);
          marker, cur := marker0, marker0.next;
        }
      }
    }

    /** The last of the markers that follow `s` directly, and the sentence behind it. */
    method SkipMarkers(s: Sentence, ghost i: nat) returns (insert: Sentence, next: Sentence?, ghost k: nat)
      requires giver.Valid() && i < |giver.nodes| && giver.nodes[i] == s
      ensures i + k < |giver.nodes| && insert == giver.nodes[i + k] && next == First(giver.nodes[i + 1 + k..], null)
      ensures AllMarkers(giver.list[i + 1..i + 1 + k])
      ensures next != null ==> !next.action.kind.Marker?
    {
      hide WellFormed, AtHome, Holds, Linked;
      LengthOf();
      LinkAt(i);
      insert, next, k := s, s.next, 0;
      while next != null && next.action.kind.Marker?
        invariant i + k < |giver.nodes| && insert == giver.nodes[i + k] && next == First(giver.nodes[i + 1 + k..], null)
        invariant forall j :: i < j <= i + k ==> giver.list[j].kind.Marker?
        decreases |giver.nodes| - k
      {
        LinkAt(i + 1 + k);
        insert := next;
        next := next.next;
        k := k + 1;
      }
    }

    lemma LengthOf()
      requires giver.Valid()
      ensures |giver.list| == |giver.nodes|
    {
    }

    lemma LinkAt(i: nat)
      requires giver.Valid() && i < |giver.nodes|
      ensures giver.nodes[i].next == First(giver.nodes[i + 1..], null) && giver.nodes[i].action == giver.list[i]
    {
      FollowedBy(giver.nodes, i);
    }
    /** What the search keeps. */
    ghost predicate InSearch(s: Sentence?, marker: Sentence, l0: List, n0: nat, q: Search, verb: string, text: string)
      reads this, giver, giver.nodes
    {
      && giver.Valid() && marker !in giver.nodes && depth > 0 && WellFormed(l0, n0) && ContextsUpTo(l0, depth - 1)
      && Stands(l0, n0, giver.list, giver.nextId, q, verb, text)
      && At(l0, q) <= |giver.nodes| == |giver.list| && s == First(giver.nodes[At(l0, q)..], null) && giver.list[At(l0, q)..] == q.r
    }

    lemma SearchContexts(s: Sentence?, marker: Sentence, l0: List, n0: nat, q: Search, verb: string, text: string)
      requires InSearch(s, marker, l0, n0, q, verb, text)
      ensures ContextsUpTo(giver.list, depth) && Evolved(l0, n0, giver.list, giver.nextId) && marker !in giver.nodes
      ensures forall x :: x in giver.list ==> x.owner != Context(depth)
    {
      hide WellFormed, Linked, Holds, AtHome, Passing, Tried, ContextsUpTo, Evolved, At, Unique, IdsBelow;
      if q.started {
        PassingEvolved(l0, n0, giver.list, giver.nextId, q.head, q.added, q.f, q.r, q.d, q.e);
      } else {
        EvolvedSelf(l0, n0);
      }
      GiverFormed();
      ContextsKept(l0, n0, giver.list, giver.nextId, depth - 1);
      MoreContexts(giver.list, depth);
      NotOwn(giver.list, depth);
    }

    /** Nothing that has been passed, and is still there, has been missed. */
    lemma SearchTried(s: Sentence?, marker: Sentence, l0: List, n0: nat, q: Search, verb: string, text: string)
      requires InSearch(s, marker, l0, n0, q, verb, text)
      ensures s == null ==> q.r == []
      ensures var d := if q.started then q.d else [];
              && d <= Tail(l0) && Sub(q.tried, d) && (forall x :: x in q.tried ==> Matches(x, verb, text))
              && (forall x :: x in d && x in giver.list && Matches(x, verb, text) ==> x in q.tried)
              && (q.r == [] ==> forall x :: x in l0 && x in giver.list && Matches(x, verb, text) ==> x in q.tried)
    {
      hide WellFormed, Linked, Holds, AtHome, Passing, ContextsUpTo, Matches;
      if q.started {
        AllTried(l0, n0, giver.list, giver.nextId, q.head, q.added, q.f, q.r, q.d, q.e, q.tried, verb, text);
      }
    }

    lemma SearchIsDone(r: Result, s: Sentence?, marker: Sentence, l0: List, n0: nat, q: Search, verb: string, text: string)
      requires InSearch(s, marker, l0, n0, q, verb, text) && (r == Found ==> q.tried != []) && (r == NotFound ==> s == null)
      ensures SearchDone(r, l0, giver.list, q.tried, if q.started then q.d else [], verb, text)
    {
      hide InSearch, Matches;
      SearchTried(s, marker, l0, n0, q, verb, text);
    }

    lemma SearchBegins(marker: Sentence, verb: string, text: string)
      requires giver.Valid() && marker !in giver.nodes && depth > 0 && ContextsUpTo(giver.list, depth - 1)
      ensures InSearch(giver.sent, marker, giver.list, giver.nextId, Starting(giver.list), verb, text)
      ensures Starting(giver.list).tried == []
    {
      hide WellFormed, Linked, AtHome, ContextsUpTo;
      StandsFirst(giver.list, giver.nextId, verb, text);
      GiverFormed();
      LengthOf();
      assert giver.nodes[0..] == giver.nodes && giver.list[0..] == giver.list;
    }

    lemma AtSearch(s: Sentence, marker: Sentence, l0: List, n0: nat, q: Search, verb: string, text: string)
      requires InSearch(s, marker, l0, n0, q, verb, text)
      ensures q.r != [] && q.r[0] == s.action && At(l0, q) < |giver.nodes| && giver.nodes[At(l0, q)] == s
    {
      hide WellFormed, Linked, AtHome, ContextsUpTo, Stands, At, Holds;
      LinkAt(At(l0, q));
    }

    lemma NextInSearch(s: Sentence, marker: Sentence, l0: List, n0: nat, q: Search, verb: string, text: string) returns (q': Search)
      requires InSearch(s, marker, l0, n0, q, verb, text) && !Matches(s.action, verb, text)
      ensures InSearch(s.next, marker, l0, n0, q', verb, text) && |q'.r| < |q.r| && q'.tried == q.tried
    {
      hide WellFormed, Linked, AtHome, ContextsUpTo, Stands, At, Holds, Matches;
      AtSearch(s, marker, l0, n0, q, verb, text);
      LinkAt(At(l0, q));
      q' := StandsNext(l0, n0, giver.list, giver.nextId, q, verb, text);
    }

    /** Try the next action. */
    method TryNext(s: Sentence, marker0: Sentence, calls: seq<Call>, n: nat, verb: string, text: string, ghost l0: List, ghost n0: nat,
                   ghost q: Search)
      returns (out: Outcome, marker: Sentence, cur: Sentence?, ghost q': Search, ghost t: Turn)
      requires InSearch(s, marker0, l0, n0, q, verb, text) && Matches(s.action, verb, text) && commandMarker == null
      requires lastVerb == verb && lastCommand == text
      modifies this, giver, NodeSet(giver.nodes), marker0
      ensures HomesGrow() && SameNodes(marker0) && giver.Valid()
      ensures depth == old(depth) && (out != Raises ==> lastVerb == old(lastVerb)) && lastCommand == old(lastCommand)
      ensures marker == marker0 || marker in old(giver.nodes) || fresh(marker)
      ensures NthFollows(t, calls, n) && t.out == out && t.said == old(SaidFor(s.action, verb, text, text))
      ensures q'.tried == q.tried + [old(s.action)] && |q'.r| < |q.r| && (out != Raises && cur != null ==> commandMarker == null)
      ensures out != Raises ==> InSearch(cur, marker, l0, n0, q', verb, text)
      ensures out == Raises ==>
                Evolved(l0, n0, if commandMarker != null then giver.list else Without(giver.list, OfOwner(Context(depth))), giver.nextId)
      decreases calls, 2
    {
      hide WellFormed, AtHome, Holds, Linked, Evolved, Matches, Became, Passing, Tried, Stands, ContextsUpTo, AllMarkers, At, NthFollows;
      SearchContexts(s, marker0, l0, n0, q, verb, text);
      LinkAt(At(l0, q));
      ghost var p, l, n1 := At(l0, q), giver.list, giver.nextId;
      ghost var a, b := giver.nodes[..p], giver.nodes[p + 1..];
      assert giver.nodes == a + [s] + b;
      ghost var k, g, j, n2, l2;
      out, marker, cur, k, g, j, n2, l2, t := TryAction(s, marker0, calls, n, text, a, b);
      OwnMarkers(g);
      q' := StandsTried(l0, n0, l, n1, q, verb, text, k, g, n2, l2, giver.nextId);
      ghost var front := q'.head + q'.added + q'.f;
      MarkerGone(l0, n0, front, g, q'.r, l2, giver.nextId, q', depth, verb, text);
      if out != Raises {
        LengthOf();
        if g != [] {
          SamePlace(l2, j, front, g[0], q'.r, giver.nextId);
        }
        assert giver.list == front + q'.r && (front + q'.r)[|front|..] == q'.r;
        assert At(l0, q') == |front| by { AtFront(l0, q'); }
      }
    }

    /** Search the list for the action of the command. The n-th action that is tried behaves as the n-th call says. */
    method ParseCommand(text: string, verb: string, calls: seq<Call>)
      returns (r: Result, ghost tried: List, ghost d: List, ghost turns: seq<Turn>)
      requires giver.Valid() && depth > 0 && ContextsUpTo(giver.list, depth - 1) && commandMarker == null
      modifies this, giver, NodeSet(giver.nodes)
      ensures giver.Valid() && HomesGrow() && depth == old(depth)
      ensures forall e :: e in giver.nodes ==> e in old(giver.nodes) || fresh(e)
      ensures TurnsFollow(turns, calls) && |turns| == |tried| && r == ResultOf(turns)
      ensures AllTold(turns, tried, verb, text)
      ensures r != Raised ==>
                && commandMarker != null && commandMarker !in giver.nodes && commandMarker.action.kind.Marker?
                && Evolved(old(giver.list), old(giver.nextId), giver.list, giver.nextId)
                && SearchDone(r, old(giver.list), giver.list, tried, d, verb, text)
      ensures r == Raised ==>
                Evolved(old(giver.list), old(giver.nextId),
                        if commandMarker != null then giver.list else Without(giver.list, OfOwner(Context(depth))), giver.nextId)
      decreases calls, 3
    {
      hide WellFormed, AtHome, Holds, Linked, Evolved, Matches, Became, Passing, Stands, Starting, At, ContextsUpTo, InSearch;
      hide TurnsFollow, ResultOf, NthFollows, AllTold, SearchDone, SaidFor;
      lastVerb, lastCommand := verb, text;
      var marker := new Sentence(Action(Marker, 0, Nobody, "", None));
      ghost var l0, n0 := giver.list, giver.nextId;
      ghost var q := Starting(l0);
      tried, d, turns := [], [], [];
      NoTurns(calls, verb, text);
      r := NotFound;
      var n := 0;
      var s := giver.sent;
      SearchBegins(marker, verb, text);
      while s != null
        invariant giver.Valid() && HomesGrow() && InSearch(s, marker, l0, n0, q, verb, text)
        invariant depth == old(depth) && lastVerb == verb && lastCommand == text && (s != null ==> commandMarker == null)
        invariant AllTold(turns, q.tried, verb, text)
        invariant forall e :: e in giver.nodes ==> e in old(giver.nodes) || fresh(e)
        invariant marker in old(giver.nodes) || fresh(marker)
        invariant r == NotFound == ResultOf(turns) && TurnsFollow(turns, calls) && |turns| == |q.tried| == n
        decreases |q.r|
      {
        AtSearch(s, marker, l0, n0, q, verb, text);
        if Matches(s.action, verb, text) {
          var out;
          ghost var t, tried0, a0 := *, q.tried, s.action;
          out, marker, s, q, t := TryNext(s, marker, calls, n, verb, text, l0, n0, q);
          NextTurn(turns, t, calls);
          NextTold(turns, t, tried0, a0, verb, text);
          turns := turns + [t];
          if out == Raises {
            r, tried := Raised, q.tried;
            return;
          }
          n := n + 1;
          if out == Succeeds {
            r := Found;
            break;
          }
        } else {
          q := NextInSearch(s, marker, l0, n0, q, verb, text);
          s := s.next;
        }
      }
      SearchContexts(s, marker, l0, n0, q, verb, text);
      SearchIsDone(r, s, marker, l0, n0, q, verb, text);
      tried, d := q.tried, if q.started then q.d else [];
      giver.SetAction(marker, Action(Marker, giver.nextId, Nobody, "", None));
      commandMarker := marker;
    }

    /** Parse the command, and take away the marker that an error has left in the list. */
    method ParseAndClean(buff: string, calls: seq<Call>)
      returns (r: Result, ghost tried: List, ghost d: List, ghost turns: seq<Turn>)
      requires giver.Valid() && depth > 0 && ContextsUpTo(giver.list, depth - 1) && commandMarker == null
      modifies this, giver, NodeSet(giver.nodes)
      ensures giver.Valid() && HomesGrow() && depth == old(depth)
      ensures forall e :: e in giver.nodes ==> e in old(giver.nodes) || fresh(e)
      ensures Evolved(old(giver.list), old(giver.nextId), giver.list, giver.nextId)
      ensures TurnsFollow(turns, calls) && |turns| == |tried| && r == ResultOf(turns)
      ensures AllTold(turns, tried, VerbOf(buff), buff)
      ensures r != Raised ==> SearchDone(r, old(giver.list), giver.list, tried, d, VerbOf(buff), buff)
      decreases calls, 4
    {
      hide WellFormed, AtHome, Holds, Linked, Evolved, Matches, ContextsUpTo, VerbOf, SearchDone, TurnsFollow, ResultOf;
      r, tried, d, turns := ParseCommand(buff, VerbOf(buff), calls);
      if commandMarker == null {
        giver.RemoveActionSent(Context(depth));
      }
    }

    /** Run a command in a context of its own: whatever happens, the context of the caller is restored, and no marker is left. */
    method ExecuteCommand(text: string, calls: seq<Call>)
      returns (r: Result, ghost tried: List, ghost d: List, ghost turns: seq<Turn>)
      requires Valid()
      modifies this, giver, NodeSet(giver.nodes)
      ensures Continued() && Markers(giver.list) == Markers(old(giver.list))
      ensures TurnsFollow(turns, calls) && |turns| == |tried| && r == ResultOf(turns)
      ensures AllTold(turns, tried, VerbOf(Trimmed(text)), Trimmed(text))
      ensures if Trimmed(text) == "" then r == NotFound && tried == [] && giver.list == old(giver.list)
              else r != Raised ==> SearchDone(r, old(giver.list), giver.list, tried, d, VerbOf(Trimmed(text)), Trimmed(text))
      decreases calls, 5
    {
      hide WellFormed, AtHome, Holds, Linked, Evolved, Matches, ContextsUpTo, Trimmed, VerbOf, TurnsFollow, ResultOf;
      var saved := SavedContext(lastVerb, lastCommand, commandMarker);
      ghost var l0, n0 := giver.list, giver.nextId;
      GiverFormed();
      lastVerb, lastCommand, commandMarker, depth := "", text, null, depth + 1;
      var buff := Trimmed(text);
      MoreContexts(l0, depth);
      if buff == "" {
        r, tried, d, turns := NotFound, [], [], [];
        NoTurns(calls, VerbOf(buff), buff);
        EvolvedSelf(l0, n0);
      } else {
        r, tried, d, turns := ParseAndClean(buff, calls);
      }
      lastVerb, lastCommand, commandMarker, depth := saved.verb, saved.command, saved.marker, depth - 1;
      GiverFormed();
      ContextsKept(l0, n0, giver.list, giver.nextId, depth);
      EvolvedMarkers(l0, n0, giver.list, giver.nextId);
    }
  }

  /** The list has the markers it had. */
  lemma EvolvedMarkers(l0: List, n0: nat, l: List, n: nat)
    requires Evolved(l0, n0, l, n)
    ensures Markers(l) == Markers(l0)
  {
    var head, added, kept :| Became(l0, n0, l, n, head, added, kept);
    NewMarkers(added, n0, n);
    MarkersConcat(head + added, kept);
    MarkersConcat(head, added);
    MarkersConcat(Head(l0), Tail(l0));
    assert l0 == Head(l0) + Tail(l0);
  }

  lemma NotOwn(l: List, depth: nat)
    requires depth > 0 && ContextsUpTo(l, depth - 1)
    ensures forall x :: x in l ==> x.owner != Context(depth)
  {
  }

  lemma MoreContexts(l: List, depth: nat)
    requires depth > 0 && ContextsUpTo(l, depth - 1)
    ensures ContextsUpTo(l, depth)
  {
  }
}
