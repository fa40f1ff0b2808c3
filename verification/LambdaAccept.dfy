/** Which trees are compiled: what the compiler meets in a tree, in order, and what it takes exception to. */
module LambdaAccept {
  import opened Wrappers
  import opened Bytecode
  import opened LambdaTree
  import opened LambdaCompile
  import opened LambdaTheorems

  /** What is met: an expression at some depth, a symbol that is used or bound, an efun with its arguments, and an assignment
      block without assignments. */
  datatype Visit = Enter(depth: nat) | Use(name: Name) | Bind(name: Name) | Apply(k: EfunId, args: nat) | NoTarget

  // ----- which expressions leave no result

  predicate Voids(efuns: Efuns, t: Tree, f: Accept)
    decreases t, 1
  {
    match t
    case Const(v) => v == Num(0) && (f.zero || f.void)
    case Symbol(_) => false
    case Efun(k, _) => efuns.isVoid(k) && (f.zero || f.void)
    case Comma(exprs) => if exprs == [] then f.zero || f.void else Voids(efuns, exprs[|exprs| - 1], f)
    case Not(expr) => Voids(efuns, expr, f.(zero := false))
    case Land(_, _) => f.void
    case LandEq(_, _, _) => false
    case Assign(_) => f.void
    case Cond(_, _, _, _) =>
      f.void || (f.zero && AllVoid(efuns, t.pairs, Compiled(t, f), f, true)
                 && (!Compiled(t, f) || Voids(efuns, t.default, f.(negate := false))))
    case Do(_, _, result) => Voids(efuns, result, f)
    case While(_, result, _) => Voids(efuns, result, f)
  }

  /** The default is there, and compiled. */
  predicate Compiled(t: Tree, f: Accept)
    requires t.Cond?
  {
    t.hasDefault && !DefaultHidden(t.default, f)
  }

  /** What is accepted of a cond-part: any result, if it is the last of parts that have left some. */
  function PartAccept(last: bool, hasDefault: bool, f: Accept, allVoid: bool): Accept {
    if last && !hasDefault && !allVoid then NOTHING else f.(negate := false)
  }

  predicate AllVoid(efuns: Efuns, pairs: seq<Pair>, hasDefault: bool, f: Accept, allVoid: bool)
    decreases pairs, 0
  {
    if pairs == [] then allVoid
    else
      var pair := pairs[0];
      assert pair.part < pair;
      AllVoid(efuns, pairs[1..], hasDefault, f, allVoid && Voids(efuns, pair.part, PartAccept(|pairs| == 1, hasDefault, f, allVoid)))
  }

  // ----- what is met

  function Visits(efuns: Efuns, t: Tree, f: Accept, depth: nat): seq<Visit>
    decreases t, 2
  {
    [Enter(depth)] + VisitsIn(efuns, t, f, depth)
  }

  function VisitsIn(efuns: Efuns, t: Tree, f: Accept, depth: nat): seq<Visit>
    decreases t, 1
  {
    match t
    case Const(_) => []
    case Symbol(name) => [Use(name)]
    case Efun(k, args) => VisitsEach(efuns, args, NOTHING, depth + 1) + [Apply(k, |args|)]
    case Comma(exprs) => if exprs == [] then [Enter(depth + 1)] else VisitsComma(efuns, exprs, f, depth + 1)
    case Not(expr) => Visits(efuns, expr, f.(zero := false), depth + 1)
    case Land(_, exprs) => if exprs == [] then [Enter(depth + 1)] else VisitsLand(efuns, exprs, f.void, depth + 1)
    case LandEq(_, name, expr) => [Bind(name)] + Visits(efuns, expr, NOTHING, depth + 1)
    case Assign(targets) => if targets == [] then [NoTarget] else VisitsAssign(efuns, targets, depth + 1)
    case Cond(_, _, _, _) => VisitsCond(efuns, t, f, depth + 1)
    case Do(_, _, _) => VisitsLoop(efuns, t, f, depth + 1)
    case While(_, _, _) => VisitsLoop(efuns, t, f, depth + 1)
  }

  function VisitsEach(efuns: Efuns, ts: seq<Tree>, f: Accept, depth: nat): seq<Visit>
    decreases ts, 0
  {
    if ts == [] then [] else Visits(efuns, ts[0], f, depth) + VisitsEach(efuns, ts[1..], f, depth)
  }

  /** Only the last expression has its result used. */
  function VisitsComma(efuns: Efuns, ts: seq<Tree>, f: Accept, depth: nat): seq<Visit>
    requires ts != []
    decreases ts, 0
  {
    if |ts| == 1 then Visits(efuns, ts[0], f, depth)
    else Visits(efuns, ts[0], VOID_WANTED, depth) + VisitsComma(efuns, ts[1..], f, depth)
  }

  function VisitsLand(efuns: Efuns, ts: seq<Tree>, void: bool, depth: nat): seq<Visit>
    requires ts != []
    decreases ts, 0
  {
    if |ts| == 1 then Visits(efuns, ts[0], NOTHING.(void := void), depth)
    else Visits(efuns, ts[0], NOTHING, depth) + VisitsLand(efuns, ts[1..], void, depth)
  }

  /** A symbol is bound behind the expression that is assigned to it. */
  function VisitsAssign(efuns: Efuns, targets: seq<Target>, depth: nat): seq<Visit>
    decreases targets, 0
  {
    if targets == [] then []
    else Visits(efuns, targets[0].expr, NOTHING, depth) + [Bind(targets[0].name)] + VisitsAssign(efuns, targets[1..], depth)
  }

  /** A default that has no effect is not met; without one a zero is supplied if a result is wanted. */
  function VisitsCond(efuns: Efuns, t: Tree, f: Accept, depth: nat): seq<Visit>
    requires t.Cond?
    decreases t, 0
  {
    var allVoid := AllVoid(efuns, t.pairs, Compiled(t, f), f, true);
    VisitsPairs(efuns, t.pairs, Compiled(t, f), f, true, depth) +
    if Compiled(t, f) then Visits(efuns, t.default, if allVoid then f.(negate := false) else NOTHING, depth)
    else if f.void || (allVoid && f.zero) then []
    else [Enter(depth)]
  }

  function VisitsPairs(efuns: Efuns, pairs: seq<Pair>, hasDefault: bool, f: Accept, allVoid: bool, depth: nat): seq<Visit>
    decreases pairs, 0
  {
    if pairs == [] then []
    else
      var pair := pairs[0];
      assert pair.cond < pair && pair.part < pair;
      var pf := PartAccept(|pairs| == 1, hasDefault, f, allVoid);
      Visits(efuns, pair.cond, NOTHING.(negate := true), depth) + Visits(efuns, pair.part, pf, depth)
      + VisitsPairs(efuns, pairs[1..], hasDefault, f, allVoid && Voids(efuns, pair.part, pf), depth)
  }

  /** The bodies come before the condition, also where the condition is tested first. */
  function VisitsLoop(efuns: Efuns, t: Tree, f: Accept, depth: nat): seq<Visit>
    requires t.Do? || t.While?
    decreases t, 0
  {
    VisitsEach(efuns, t.bodies, VOID_WANTED, depth) + Visits(efuns, t.cond, NOTHING.(negate := true), depth)
    + Visits(efuns, t.result, f, depth)
  }

  // ----- how many bytes a tree takes at most

  function Bytes(t: Tree): nat
    decreases t, 1
  {
    match t
    case Const(_) => 3
    case Symbol(_) => 2
    case Efun(_, args) => BytesOf(args, 0) + 2
    case Comma(exprs) => if exprs == [] then 1 else BytesOf(exprs, 1)
    case Not(expr) => Bytes(expr) + 1
    case Land(_, exprs) => if exprs == [] then 2 else BytesOf(exprs, 5)
    case LandEq(_, _, expr) => Bytes(expr) + 10
    case Assign(targets) => if targets == [] then 0 else TargetBytes(targets)
    case Cond(_, pairs, hasDefault, default) => PairBytes(pairs) + (if hasDefault then Bytes(default) else 0) + 4
    case Do(bodies, cond, result) => BytesOf(bodies, 1) + Bytes(cond) + 3 + Bytes(result)
    case While(cond, result, bodies) => BytesOf(bodies, 1) + Bytes(cond) + 6 + Bytes(result)
  }

  /** Each with `more` bytes for branches and the like. */
  function BytesOf(ts: seq<Tree>, more: nat): nat
    decreases ts, 0
  {
    if ts == [] then 0 else Bytes(ts[0]) + more + BytesOf(ts[1..], more)
  }

  function TargetBytes(targets: seq<Target>): nat
    decreases targets, 0
  {
    if targets == [] then 0 else Bytes(targets[0].expr) + 3 + TargetBytes(targets[1..])
  }

  function PairBytes(pairs: seq<Pair>): nat
    decreases pairs, 0
  {
    if pairs == [] then 0
    else
      var pair := pairs[0];
      assert pair.cond < pair && pair.part < pair;
      Bytes(pair.cond) + Bytes(pair.part) + 6 + PairBytes(pairs[1..])
  }

  // ----- what the compiler takes exception to

  function Flaw(efuns: Efuns, v: Visit, names: seq<Name>, levels: nat): Option<CompileError> {
    match v
    case Enter(depth) => if depth + 1 >= levels then Some(TooDeep) else None
    case Use(name) => if name in names then None else Some(NotBound(name))
    case Bind(_) => None
    case Apply(k, args) => if args == efuns.arity(k) then None else Some(WrongArgCount(k))
    case NoTarget => Some(MissingValue)
  }

  function NamesAfter(v: Visit, names: Symbols): Symbols {
    if v.Bind? && v.name !in names then names + [v.name] else names
  }

  /** The names that are bound behind the visits, or the first flaw. */
  function Walk(efuns: Efuns, vs: seq<Visit>, names: Symbols, levels: nat): Result<Symbols, CompileError> {
    if vs == [] then Ok(names)
    else
      match Flaw(efuns, vs[0], names, levels)
      case Some(e) => Err(e)
      case None => Walk(efuns, vs[1..], NamesAfter(vs[0], names), levels)
  }

  /** Nothing is wrong with the i-th visit: the depth is small enough, a symbol has been bound before, an efun has the number of
      arguments it needs. */
  ghost predicate Sound(efuns: Efuns, vs: seq<Visit>, i: nat, names: seq<Name>, levels: nat)
    requires i < |vs|
  {
    match vs[i]
    case Enter(depth) => depth + 1 < levels
    case Use(name) => name in names || exists j :: 0 <= j < i && vs[j] == Bind(name)
    case Bind(_) => true
    case Apply(k, args) => args == efuns.arity(k)
    case NoTarget => false
  }

  /** The error that a visit is reported with. */
  function ErrorOf(v: Visit): CompileError
    requires !v.Bind?
  {
    match v
    case Enter(_) => TooDeep
    case Use(name) => NotBound(name)
    case Apply(k, _) => WrongArgCount(k)
    case NoTarget => MissingValue
  }

  /** The i-th visit is the first one that is not sound. */
  ghost predicate FirstFlaw(efuns: Efuns, vs: seq<Visit>, i: nat, names: seq<Name>, levels: nat) {
    i < |vs| && !Sound(efuns, vs, i, names, levels) && forall j :: 0 <= j < i ==> Sound(efuns, vs, j, names, levels)
  }

  lemma SoundLater(efuns: Efuns, vs: seq<Visit>, i: nat, names: Symbols, levels: nat)
    requires 0 < i < |vs|
    ensures Sound(efuns, vs, i, names, levels) <==> Sound(efuns, vs[1..], i - 1, NamesAfter(vs[0], names), levels)
  {
    var rest := vs[1..];
    assert forall j :: 0 < j < |vs| ==> vs[j] == rest[j - 1];
    if vs[i].Use? {
      var name := vs[i].name;
      if j :| 0 <= j < i - 1 && rest[j] == Bind(name) {
        assert vs[j + 1] == Bind(name);
      }
    }
  }

  /** The walk succeeds exactly if all visits are sound; otherwise it reports the first that is not. */
  lemma {:induction false} WalkIff(efuns: Efuns, vs: seq<Visit>, names: Symbols, levels: nat)
    ensures Walk(efuns, vs, names, levels).Ok? <==> forall i :: 0 <= i < |vs| ==> Sound(efuns, vs, i, names, levels)
    ensures Walk(efuns, vs, names, levels).Err? ==>
              exists i: nat :: FirstFlaw(efuns, vs, i, names, levels) && Walk(efuns, vs, names, levels) == Err(ErrorOf(vs[i]))
  {
    if vs != [] {
      assert Sound(efuns, vs, 0, names, levels) <==> Flaw(efuns, vs[0], names, levels) == None;
      if Flaw(efuns, vs[0], names, levels) == None {
        hide Sound, Flaw;
        var rest, after := vs[1..], NamesAfter(vs[0], names);
        WalkIff(efuns, rest, after, levels);
        forall i | 0 < i < |vs|
          ensures Sound(efuns, vs, i, names, levels) <==> Sound(efuns, rest, i - 1, after, levels)
        {
          SoundLater(efuns, vs, i, names, levels);
        }
        AllLater(efuns, vs, names, levels);
      } else {
        assert FirstFlaw(efuns, vs, 0, names, levels);
      }
    }
  }

  lemma AllLater(efuns: Efuns, vs: seq<Visit>, names: Symbols, levels: nat)
    requires vs != [] && Sound(efuns, vs, 0, names, levels)
    requires forall i :: 0 < i < |vs| ==>
               (Sound(efuns, vs, i, names, levels) <==> Sound(efuns, vs[1..], i - 1, NamesAfter(vs[0], names), levels))
    ensures (forall i :: 0 <= i < |vs| ==> Sound(efuns, vs, i, names, levels))
            <==> forall i :: 0 <= i < |vs[1..]| ==> Sound(efuns, vs[1..], i, NamesAfter(vs[0], names), levels)
    ensures forall i: nat :: FirstFlaw(efuns, vs[1..], i, NamesAfter(vs[0], names), levels) ==>
              FirstFlaw(efuns, vs, i + 1, names, levels) && vs[i + 1] == vs[1..][i]
  {
    hide Sound;
    var rest, after := vs[1..], NamesAfter(vs[0], names);
    forall i | 0 <= i < |rest|
      ensures Sound(efuns, rest, i, after, levels) <==> Sound(efuns, vs, i + 1, names, levels)
    {
      assert i == (i + 1) - 1;
    }
    forall i: nat | FirstFlaw(efuns, rest, i, after, levels)
      ensures FirstFlaw(efuns, vs, i + 1, names, levels)
    {
      forall j | 0 <= j < i + 1
        ensures Sound(efuns, vs, j, names, levels)
      {
        if j > 0 {
          assert Sound(efuns, rest, j - 1, after, levels);
        }
      }
    }
  }

  /** A walk over two parts goes on behind the first, unless that has a flaw. */
  lemma {:induction false} WalkOn(efuns: Efuns, a: seq<Visit>, b: seq<Visit>, names: Symbols, levels: nat)
    ensures Walk(efuns, a + b, names, levels)
            == match Walk(efuns, a, names, levels) case Err(e) => Err(e) case Ok(after) => Walk(efuns, b, after, levels)
  {
    if a == [] {
      assert a + b == b;
    } else {
      assert (a + b)[0] == a[0] && (a + b)[1..] == a[1..] + b;
      WalkOn(efuns, a[1..], b, NamesAfter(a[0], names), levels);
    }
  }

  lemma WalkFirst(efuns: Efuns, v: Visit, rest: seq<Visit>, names: Symbols, levels: nat)
    ensures Walk(efuns, [v] + rest, names, levels)
            == match Flaw(efuns, v, names, levels)
               case Some(e) => Err(e)
               case None => Walk(efuns, rest, NamesAfter(v, names), levels)
  {
    assert ([v] + rest)[1..] == rest;
  }

  lemma WalkOne(efuns: Efuns, v: Visit, names: Symbols, levels: nat)
    ensures Walk(efuns, [v], names, levels)
            == match Flaw(efuns, v, names, levels) case Some(e) => Err(e) case None => Ok(NamesAfter(v, names))
  {
    WalkFirst(efuns, v, [], names, levels);
    assert [v] + [] == [v];
  }

  lemma WalkNothing(efuns: Efuns, names: Symbols, levels: nat)
    ensures Walk(efuns, [], names, levels) == Ok(names)
  {
  }

  // ----- the compiler does what the visits say

  const MAX_BYTES := 0x7fff

  /** Which branches are too far. */
  lemma BranchBytes(distance: nat, neg: bool, isAnd: bool, void: bool)
    ensures match EntryBranch(distance) case Ok(code) => |code| <= 3 case Err(e) => e == Unimplemented && distance > 0x7ffd
    ensures match LoopBranch(neg, distance) case Ok(code) => |code| <= 3 case Err(e) => e == Unimplemented && distance > 0x8000
    ensures |LandBranch(isAnd, void, distance)| <= 5
  {
  }

  lemma JoinBytes(isAnd: bool, void: bool, arg: Code, tail: Code)
    ensures match LandJoin(isAnd, void, arg, tail)
            case Ok(code) => |code| <= |arg| + 5 + |tail|
            case Err(e) => e == Unimplemented && |tail| > 0x7ffc
  {
  }

  /** What becomes of a compilation: it succeeds if the visits have no flaw, or reports the first; if it finds a branch too far,
      the bytes are too many. */
  ghost predicate Told(efuns: Efuns, r: Result<Out, CompileError>, vs: seq<Visit>, names: Symbols, void: bool, bytes: nat, levels: nat) {
    match r
    case Ok(o) => Walk(efuns, vs, names, levels) == Ok(o.tables.symbols) && o.void == void && |o.code| <= bytes
    case Err(Unimplemented) => bytes > MAX_BYTES
    case Err(e) => Walk(efuns, vs, names, levels) == Err(e)
  }

  lemma TellConst(efuns: Efuns, v: Value, f: Accept, levels: nat, tables: Tables)
    ensures Told(efuns, Ok(ConstCode(v, f, tables)), [], tables.symbols, v == Num(0) && (f.zero || f.void), 3, levels)
  {
    WalkNothing(efuns, tables.symbols, levels);
  }

  lemma TellSymbol(efuns: Efuns, name: Name, levels: nat, tables: Tables)
    ensures Told(efuns,
                 if name in tables.symbols then Ok(Out([F_LOCAL, LocalByte(IndexOf(tables.symbols, name))], tables, false, false, {}))
                 else Err(NotBound(name)),
                 [Use(name)], tables.symbols, false, 2, levels)
  {
    WalkOne(efuns, Use(name), tables.symbols, levels);
  }

  lemma TellNoTarget(efuns: Efuns, void: bool, levels: nat, tables: Tables)
    ensures Told(efuns, Err(MissingValue), [NoTarget], tables.symbols, void, 0, levels)
  {
    WalkOne(efuns, NoTarget, tables.symbols, levels);
  }

  /** Without expressions a zero is supplied. */
  lemma TellNothing(efuns: Efuns, f: Accept, levels: nat, depth: nat, tables: Tables)
    requires levels > 0
    ensures Told(efuns, Leaf(0, f, levels, tables), [Enter(depth)], tables.symbols, f.zero || f.void, 1, levels + depth)
  {
    WalkOne(efuns, Enter(depth), tables.symbols, levels + depth);
  }

  /** The expression itself is not too deep. */
  lemma TellIn(efuns: Efuns, r: Result<Out, CompileError>, vs: seq<Visit>, names: Symbols, void: bool, bytes: nat, levels: nat, depth: nat)
    requires levels > 1 && Told(efuns, r, vs, names, void, bytes, levels + depth)
    ensures Told(efuns, r, [Enter(depth)] + vs, names, void, bytes, levels + depth)
  {
    WalkFirst(efuns, Enter(depth), vs, names, levels + depth);
  }

  lemma {:induction false} TellTree(efuns: Efuns, t: Tree, f: Accept, levels: nat, depth: nat, tables: Tables)
    requires levels > 0
    ensures Told(efuns, Compile(efuns, t, f, levels, tables), Visits(efuns, t, f, depth), tables.symbols, Voids(efuns, t, f), Bytes(t),
                 levels + depth)
    decreases t, 2
  {
    if levels == 1 {
      WalkFirst(efuns, Enter(depth), VisitsIn(efuns, t, f, depth), tables.symbols, levels + depth);
    } else if t.Const? || t.Symbol? || t.Comma? || t.Land? || t.Assign? {
      TellPlain(efuns, t, f, levels, depth, tables);
    } else {
      TellOther(efuns, t, f, levels, depth, tables);
    }
  }

  lemma {:induction false} TellPlain(efuns: Efuns, t: Tree, f: Accept, levels: nat, depth: nat, tables: Tables)
    requires levels > 1 && (t.Const? || t.Symbol? || t.Comma? || t.Land? || t.Assign?)
    ensures Told(efuns, Compile(efuns, t, f, levels, tables), Visits(efuns, t, f, depth), tables.symbols, Voids(efuns, t, f), Bytes(t),
                 levels + depth)
    decreases t, 1
  {
    hide Told, Walk, CompileEfun, CompileNot, CompileComma, CompileLand, CompileLandEq, CompileAssign, CompileCond, CompileDo, CompileWhile;
    hide Leaf, ConstCode, VisitsEach, VisitsComma, VisitsLand, VisitsAssign, VisitsCond, VisitsLoop;
    hide BytesOf, PairBytes, TargetBytes, AllVoid;
    var lv, d := levels - 1, depth + 1;
    match t {
      case Const(v) => TellConst(efuns, v, f, levels + depth, tables);
      case Symbol(name) => TellSymbol(efuns, name, levels + depth, tables);
      case Comma(exprs) =>
        if exprs != [] {
          TellComma(efuns, exprs, f, lv, d, tables);
        } else {
          TellNothing(efuns, f, lv, d, tables);
        }
      case Land(isAnd, exprs) =>
        if exprs != [] {
          TellLand(efuns, isAnd, exprs, f.void, lv, d, tables);
        } else {
          TellNoLand(efuns, isAnd, f.void, lv, d, tables);
        }
      case Assign(targets) =>
        if targets != [] {
          TellAssign(efuns, targets, f.void, lv, d, tables);
        } else {
          TellNoTarget(efuns, f.void, levels + depth, tables);
        }
    }
    TellIn(efuns, Compile(efuns, t, f, levels, tables), VisitsIn(efuns, t, f, depth), tables.symbols, Voids(efuns, t, f), Bytes(t),
           levels, depth);
  }

  lemma {:induction false} TellOther(efuns: Efuns, t: Tree, f: Accept, levels: nat, depth: nat, tables: Tables)
    requires levels > 1 && !(t.Const? || t.Symbol? || t.Comma? || t.Land? || t.Assign?)
    ensures Told(efuns, Compile(efuns, t, f, levels, tables), Visits(efuns, t, f, depth), tables.symbols, Voids(efuns, t, f), Bytes(t),
                 levels + depth)
    decreases t, 1
  {
    hide Told, Walk, CompileEfun, CompileNot, CompileComma, CompileLand, CompileLandEq, CompileAssign, CompileCond, CompileDo, CompileWhile;
    hide Leaf, ConstCode, VisitsEach, VisitsComma, VisitsLand, VisitsAssign, VisitsCond, VisitsLoop;
    hide BytesOf, PairBytes, TargetBytes, AllVoid;
    var lv, d := levels - 1, depth + 1;
    match t {
      case Efun(_, _) => TellEfun(efuns, t, f, lv, d, tables);
      case Not(_) => TellNot(efuns, t, f, lv, d, tables);
      case LandEq(_, _, _) => TellLandEq(efuns, t, lv, d, tables);
      case Cond(_, _, _, _) => TellCond(efuns, t, f, lv, d, tables);
      case Do(_, _, _) => TellDo(efuns, t, f, lv, d, tables);
      case While(_, _, _) => TellWhile(efuns, t, f, lv, d, tables);
    }
    TellIn(efuns, Compile(efuns, t, f, levels, tables), VisitsIn(efuns, t, f, depth), tables.symbols, Voids(efuns, t, f), Bytes(t),
           levels, depth);
  }

  lemma {:induction false} TellNot(efuns: Efuns, t: Tree, f: Accept, levels: nat, depth: nat, tables: Tables)
    requires levels > 0 && t.Not?
    ensures Told(efuns, CompileNot(efuns, t, f, levels, tables), Visits(efuns, t.expr, f.(zero := false), depth), tables.symbols,
                 Voids(efuns, t.expr, f.(zero := false)), Bytes(t.expr) + 1, levels + depth)
    decreases t, 0
  {
    hide Compile, Visits, Bytes, Voids, Walk;
    TellTree(efuns, t.expr, f.(zero := false), levels, depth, tables);
  }

  lemma {:induction false} TellEfun(efuns: Efuns, t: Tree, f: Accept, levels: nat, depth: nat, tables: Tables)
    requires levels > 0 && t.Efun?
    ensures Told(efuns, CompileEfun(efuns, t, f, levels, tables), VisitsEach(efuns, t.args, NOTHING, depth) + [Apply(t.k, |t.args|)],
                 tables.symbols, efuns.isVoid(t.k) && (f.zero || f.void), BytesOf(t.args, 0) + 2, levels + depth)
    decreases t, 0
  {
    hide Compile, Visits, Bytes, Voids, Walk;
    TellEach(efuns, t.args, levels, depth, tables);
    var v := Apply(t.k, |t.args|);
    WalkOn(efuns, VisitsEach(efuns, t.args, NOTHING, depth), [v], tables.symbols, levels + depth);
    forall names: Symbols
      ensures Walk(efuns, [v], names, levels + depth) == if |t.args| == efuns.arity(t.k) then Ok(names) else Err(WrongArgCount(t.k))
    {
      WalkOne(efuns, v, names, levels + depth);
    }
  }

  lemma {:induction false} TellEach(efuns: Efuns, ts: seq<Tree>, levels: nat, depth: nat, tables: Tables)
    requires levels > 0
    ensures Told(efuns, CompileEach(efuns, ts, levels, tables), VisitsEach(efuns, ts, NOTHING, depth), tables.symbols, true,
                 BytesOf(ts, 0), levels + depth)
    decreases ts, 0
  {
    hide Compile, Visits, Bytes, Voids, Walk;
    if ts == [] {
      WalkNothing(efuns, tables.symbols, levels + depth);
    } else {
      var a, b := Visits(efuns, ts[0], NOTHING, depth), VisitsEach(efuns, ts[1..], NOTHING, depth);
      TellTree(efuns, ts[0], NOTHING, levels, depth, tables);
      WalkOn(efuns, a, b, tables.symbols, levels + depth);
      var o := Compile(efuns, ts[0], NOTHING, levels, tables);
      if o.Ok? {
        TellEach(efuns, ts[1..], levels, depth, o.value.tables);
      }
    }
  }

  lemma {:induction false} TellAll(efuns: Efuns, ts: seq<Tree>, levels: nat, depth: nat, tables: Tables)
    requires levels > 0
    ensures Told(efuns, CompileAll(efuns, ts, levels, tables), VisitsEach(efuns, ts, VOID_WANTED, depth), tables.symbols, true,
                 BytesOf(ts, 1), levels + depth)
    decreases ts, 0
  {
    hide Compile, Visits, Bytes, Voids, Walk;
    if ts == [] {
      WalkNothing(efuns, tables.symbols, levels + depth);
    } else {
      var a, b := Visits(efuns, ts[0], VOID_WANTED, depth), VisitsEach(efuns, ts[1..], VOID_WANTED, depth);
      TellTree(efuns, ts[0], VOID_WANTED, levels, depth, tables);
      WalkOn(efuns, a, b, tables.symbols, levels + depth);
      var o := Compile(efuns, ts[0], VOID_WANTED, levels, tables);
      if o.Ok? {
        TellAll(efuns, ts[1..], levels, depth, o.value.tables);
      }
    }
  }

  lemma {:induction false} TellComma(efuns: Efuns, ts: seq<Tree>, f: Accept, levels: nat, depth: nat, tables: Tables)
    requires levels > 0 && ts != []
    ensures Told(efuns, CompileComma(efuns, ts, f, levels, tables), VisitsComma(efuns, ts, f, depth), tables.symbols,
                 Voids(efuns, ts[|ts| - 1], f), BytesOf(ts, 1), levels + depth)
    decreases ts, 0
  {
    hide Compile, Visits, Bytes, Voids, Walk;
    if |ts| == 1 {
      TellTree(efuns, ts[0], f, levels, depth, tables);
    } else {
      var a, b := Visits(efuns, ts[0], VOID_WANTED, depth), VisitsComma(efuns, ts[1..], f, depth);
      TellTree(efuns, ts[0], VOID_WANTED, levels, depth, tables);
      WalkOn(efuns, a, b, tables.symbols, levels + depth);
      var o := Compile(efuns, ts[0], VOID_WANTED, levels, tables);
      if o.Ok? {
        TellComma(efuns, ts[1..], f, levels, depth, o.value.tables);
      }
    }
  }

  lemma {:induction false} TellLand(efuns: Efuns, isAnd: bool, ts: seq<Tree>, void: bool, levels: nat, depth: nat, tables: Tables)
    requires levels > 0 && ts != []
    ensures Told(efuns, CompileLand(efuns, isAnd, ts, void, levels, tables), VisitsLand(efuns, ts, void, depth), tables.symbols, void,
                 BytesOf(ts, 5), levels + depth)
    decreases ts, 0
  {
    hide LandJoin, LandBranch;
    hide Compile, Visits, Bytes, Voids, Walk;
    if |ts| == 1 {
      TellTree(efuns, ts[0], NOTHING.(void := void), levels, depth, tables);
    } else {
      var a, b := Visits(efuns, ts[0], NOTHING, depth), VisitsLand(efuns, ts[1..], void, depth);
      TellTree(efuns, ts[0], NOTHING, levels, depth, tables);
      WalkOn(efuns, a, b, tables.symbols, levels + depth);
      var o := Compile(efuns, ts[0], NOTHING, levels, tables);
      if o.Ok? {
        TellLand(efuns, isAnd, ts[1..], void, levels, depth, o.value.tables);
        var rest := CompileLand(efuns, isAnd, ts[1..], void, levels, o.value.tables);
        if rest.Ok? {
          JoinBytes(isAnd, void, o.value.code, rest.value.code);
        }
      }
    }
  }

  /** Without arguments a constant is supplied. */
  lemma TellNoLand(efuns: Efuns, isAnd: bool, void: bool, levels: nat, depth: nat, tables: Tables)
    requires levels > 0
    ensures Told(efuns, CompileLand(efuns, isAnd, [], void, levels, tables), [Enter(depth)], tables.symbols, void, 2, levels + depth)
  {
    WalkOne(efuns, Enter(depth), tables.symbols, levels + depth);
  }

  lemma {:induction false} TellLandEq(efuns: Efuns, t: Tree, levels: nat, depth: nat, tables: Tables)
    requires levels > 0 && t.LandEq?
    ensures Told(efuns, CompileLandEq(efuns, t, levels, tables), [Bind(t.name)] + Visits(efuns, t.expr, NOTHING, depth), tables.symbols,
                 false, Bytes(t.expr) + 10, levels + depth)
    decreases t, 0
  {
    hide LandJoin, LandBranch;
    hide Compile, Visits, Bytes, Voids, Walk;
    var tb := BindLocal(t.name, tables);
    WalkFirst(efuns, Bind(t.name), Visits(efuns, t.expr, NOTHING, depth), tables.symbols, levels + depth);
    TellTree(efuns, t.expr, NOTHING, levels, depth, tb);
    var o := Compile(efuns, t.expr, NOTHING, levels, tb);
    if o.Ok? {
      JoinBytes(t.isAnd, false, LvalueCode(t.name, tb) + [F_LDUP], o.value.code);
    }
  }

  lemma {:induction false} TellAssign(efuns: Efuns, targets: seq<Target>, void: bool, levels: nat, depth: nat, tables: Tables)
    requires levels > 0 && targets != []
    ensures Told(efuns, CompileAssign(efuns, targets, void, levels, tables), VisitsAssign(efuns, targets, depth), tables.symbols, void,
                 TargetBytes(targets), levels + depth)
    decreases targets, 0
  {
    hide Compile, Visits, Bytes, Voids, Walk;
    var target, all := targets[0], levels + depth;
    var a, bind, b := Visits(efuns, target.expr, NOTHING, depth), [Bind(target.name)], VisitsAssign(efuns, targets[1..], depth);
    TellTree(efuns, target.expr, NOTHING, levels, depth, tables);
    WalkOn(efuns, a + bind, b, tables.symbols, all);
    WalkOn(efuns, a, bind, tables.symbols, all);
    var o := Compile(efuns, target.expr, NOTHING, levels, tables);
    if o.Ok? {
      var tb := BindLocal(target.name, o.value.tables);
      WalkOne(efuns, Bind(target.name), o.value.tables.symbols, all);
      if |targets| > 1 {
        TellAssign(efuns, targets[1..], void, levels, depth, tb);
      } else {
        assert targets[1..] == [];
        WalkNothing(efuns, tb.symbols, all);
      }
    }
  }

  lemma {:induction false} TellDo(efuns: Efuns, t: Tree, f: Accept, levels: nat, depth: nat, tables: Tables)
    requires levels > 0 && t.Do?
    ensures Told(efuns, CompileDo(efuns, t, f, levels, tables), VisitsLoop(efuns, t, f, depth), tables.symbols,
                 Voids(efuns, t.result, f), BytesOf(t.bodies, 1) + Bytes(t.cond) + 3 + Bytes(t.result), levels + depth)
    decreases t, 0
  {
    hide CompileAll, VisitsEach, VisitsLoop, BytesOf, EntryBranch, LoopBranch;
    hide Compile, Visits, Bytes, Voids, Walk;
    var cf := NOTHING.(negate := true);
    LoopWalks(efuns, t, f, depth, tables.symbols, levels + depth);
    TellAll(efuns, t.bodies, levels, depth, tables);
    var b := CompileAll(efuns, t.bodies, levels, tables);
    if b.Ok? {
      BranchBytes(|b.value.code|, false, false, false);
      TellTree(efuns, t.cond, cf, levels, depth, b.value.tables);
      var c := Compile(efuns, t.cond, cf, levels, b.value.tables);
      if c.Ok? {
        BranchBytes(|b.value.code| + |c.value.code| + 1, c.value.neg, false, false);
        TellTree(efuns, t.result, f, levels, depth, c.value.tables);
      }
    }
  }

  lemma {:induction false} TellWhile(efuns: Efuns, t: Tree, f: Accept, levels: nat, depth: nat, tables: Tables)
    requires levels > 0 && t.While?
    ensures Told(efuns, CompileWhile(efuns, t, f, levels, tables), VisitsLoop(efuns, t, f, depth), tables.symbols,
                 Voids(efuns, t.result, f), BytesOf(t.bodies, 1) + Bytes(t.cond) + 6 + Bytes(t.result), levels + depth)
    decreases t, 0
  {
    hide CompileAll, VisitsEach, VisitsLoop, BytesOf, EntryBranch, LoopBranch;
    hide Compile, Visits, Bytes, Voids, Walk;
    var cf := NOTHING.(negate := true);
    LoopWalks(efuns, t, f, depth, tables.symbols, levels + depth);
    TellAll(efuns, t.bodies, levels, depth, tables);
    var b := CompileAll(efuns, t.bodies, levels, tables);
    if b.Ok? {
      BranchBytes(|b.value.code|, false, false, false);
      TellTree(efuns, t.cond, cf, levels, depth, b.value.tables);
      var c := Compile(efuns, t.cond, cf, levels, b.value.tables);
      if c.Ok? {
        BranchBytes(|b.value.code| + |c.value.code| + 1, c.value.neg, false, false);
        TellTree(efuns, t.result, f, levels, depth, c.value.tables);
      }
    }
  }

  lemma LoopWalks(efuns: Efuns, t: Tree, f: Accept, depth: nat, names: Symbols, levels: nat)
    requires t.Do? || t.While?
    ensures Walk(efuns, VisitsLoop(efuns, t, f, depth), names, levels)
            == match Walk(efuns, VisitsEach(efuns, t.bodies, VOID_WANTED, depth), names, levels)
               case Err(e) => Err(e)
               case Ok(x) =>
                 match Walk(efuns, Visits(efuns, t.cond, NOTHING.(negate := true), depth), x, levels)
                 case Err(e) => Err(e)
                 case Ok(y) => Walk(efuns, Visits(efuns, t.result, f, depth), y, levels)
  {
    hide Compile, Visits, Walk, VisitsEach;
    var a, b, c := VisitsEach(efuns, t.bodies, VOID_WANTED, depth), Visits(efuns, t.cond, NOTHING.(negate := true), depth),
                   Visits(efuns, t.result, f, depth);
    WalkOn(efuns, a + b, c, names, levels);
    WalkOn(efuns, a, b, names, levels);
  }

  // ----- conditionals

  function CodeBytes(codes: seq<PairCode>): nat {
    if codes == [] then 0 else |codes[0].cond| + |codes[0].part| + 6 + CodeBytes(codes[1..])
  }

  ghost predicate PairsTold(efuns: Efuns, r: Result<Pairs, CompileError>, vs: seq<Visit>, names: Symbols, allVoid: bool, bytes: nat, levels: nat)
  {
    match r
    case Ok(ps) => Walk(efuns, vs, names, levels) == Ok(ps.tables.symbols) && ps.allVoid == allVoid && CodeBytes(ps.codes) <= bytes
    case Err(Unimplemented) => bytes > MAX_BYTES
    case Err(e) => Walk(efuns, vs, names, levels) == Err(e)
  }

  lemma NoPairs(efuns: Efuns, isNotIf: bool, hasDefault: bool, f: Accept, allVoid: bool, levels: nat, tables: Tables)
    requires levels > 0
    ensures CompilePairs(efuns, isNotIf, [], hasDefault, f, allVoid, levels, tables) == Ok(Pairs([], tables, allVoid, {}))
    ensures CodeBytes([]) == PairBytes([]) == 0 && AllVoid(efuns, [], hasDefault, f, allVoid) == allVoid
  {
  }

  lemma NoVisits(efuns: Efuns, hasDefault: bool, f: Accept, allVoid: bool, depth: nat)
    ensures VisitsPairs(efuns, [], hasDefault, f, allVoid, depth) == []
  {
  }

  lemma PairWalks(efuns: Efuns, pairs: seq<Pair>, hasDefault: bool, f: Accept, allVoid: bool, depth: nat, names: Symbols, levels: nat)
    requires pairs != []
    ensures var pf := PartAccept(|pairs| == 1, hasDefault, f, allVoid);
            Walk(efuns, VisitsPairs(efuns, pairs, hasDefault, f, allVoid, depth), names, levels)
            == match Walk(efuns, Visits(efuns, pairs[0].cond, NOTHING.(negate := true), depth), names, levels)
               case Err(e) => Err(e)
               case Ok(x) =>
                 match Walk(efuns, Visits(efuns, pairs[0].part, pf, depth), x, levels)
                 case Err(e) => Err(e)
                 case Ok(y) =>
                   Walk(efuns, VisitsPairs(efuns, pairs[1..], hasDefault, f, allVoid && Voids(efuns, pairs[0].part, pf), depth), y, levels)
    ensures var pf := PartAccept(|pairs| == 1, hasDefault, f, allVoid);
            && AllVoid(efuns, pairs, hasDefault, f, allVoid)
               == AllVoid(efuns, pairs[1..], hasDefault, f, allVoid && Voids(efuns, pairs[0].part, pf))
            && PairBytes(pairs) == Bytes(pairs[0].cond) + Bytes(pairs[0].part) + 6 + PairBytes(pairs[1..])
  {
    hide Visits, Walk, Voids, Bytes;
    var pair := pairs[0];
    var pf := PartAccept(|pairs| == 1, hasDefault, f, allVoid);
    var x, y, z := Visits(efuns, pair.cond, NOTHING.(negate := true), depth), Visits(efuns, pair.part, pf, depth),
                   VisitsPairs(efuns, pairs[1..], hasDefault, f, allVoid && Voids(efuns, pair.part, pf), depth);
    WalkOn(efuns, x + y, z, names, levels);
    WalkOn(efuns, x, y, names, levels);
  }

  /** What compiling the first pair makes of the result for the others. */
  lemma PairsUnfold(efuns: Efuns, isNotIf: bool, pairs: seq<Pair>, hasDefault: bool, f: Accept, allVoid: bool, levels: nat, tables: Tables)
    requires levels > 0 && pairs != []
    ensures var c := Compile(efuns, pairs[0].cond, NOTHING.(negate := true), levels, tables);
            var r := CompilePairs(efuns, isNotIf, pairs, hasDefault, f, allVoid, levels, tables);
            if c.Err? then r == Err(c.error)
            else
              var p := Compile(efuns, pairs[0].part, PartAccept(|pairs| == 1, hasDefault, f, allVoid), levels, c.value.tables);
              if p.Err? then r == Err(p.error)
              else if |p.value.code| > 0x7ffb then r == Err(Unimplemented)
              else
                var rest := CompilePairs(efuns, isNotIf, pairs[1..], hasDefault, f, allVoid && p.value.void, levels, p.value.tables);
                if rest.Err? then r == Err(rest.error)
                else
                  && r.Ok? && r.value.tables == rest.value.tables && r.value.allVoid == rest.value.allVoid
                  && CodeBytes(r.value.codes) == |c.value.code| + |p.value.code| + 6 + CodeBytes(rest.value.codes)
  {
    hide Compile;
  }

  lemma {:induction false} TellPairs(efuns: Efuns, isNotIf: bool, pairs: seq<Pair>, hasDefault: bool, f: Accept, allVoid: bool,
                                     levels: nat, depth: nat, tables: Tables)
    requires levels > 0
    ensures PairsTold(efuns, CompilePairs(efuns, isNotIf, pairs, hasDefault, f, allVoid, levels, tables),
                      VisitsPairs(efuns, pairs, hasDefault, f, allVoid, depth), tables.symbols,
                      AllVoid(efuns, pairs, hasDefault, f, allVoid), PairBytes(pairs), levels + depth)
    decreases pairs, 0
  {
    hide VisitsPairs, CompilePairs, CodeBytes, AllVoid, PairBytes;
    hide Compile, Visits, Bytes, Voids, Walk;
    if pairs == [] {
      NoPairs(efuns, isNotIf, hasDefault, f, allVoid, levels, tables);
      assert VisitsPairs(efuns, pairs, hasDefault, f, allVoid, depth) == [] by { NoVisits(efuns, hasDefault, f, allVoid, depth); }
      WalkNothing(efuns, tables.symbols, levels + depth);
    } else {
      var pair, cf, all := pairs[0], NOTHING.(negate := true), levels + depth;
      assert pair.cond < pair && pair.part < pair;
      var pf := PartAccept(|pairs| == 1, hasDefault, f, allVoid);
      var allVoid' := allVoid && Voids(efuns, pair.part, pf);
      PairsUnfold(efuns, isNotIf, pairs, hasDefault, f, allVoid, levels, tables);
      PairWalks(efuns, pairs, hasDefault, f, allVoid, depth, tables.symbols, all);
      TellTree(efuns, pair.cond, cf, levels, depth, tables);
      var c := Compile(efuns, pair.cond, cf, levels, tables);
      if c.Ok? {
        TellTree(efuns, pair.part, pf, levels, depth, c.value.tables);
        var p := Compile(efuns, pair.part, pf, levels, c.value.tables);
        if p.Ok? {
          TellPairs(efuns, isNotIf, pairs[1..], hasDefault, f, allVoid', levels, depth, p.value.tables);
        }
      }
    }
  }

  /** A layout is refused only if there is too much of it. */
  lemma {:induction false} LayoutBytes(i: nat, ps: seq<PairCode>, e: Ending)
    requires WellEnded(e)
    ensures match Layout(i, ps, e)
            case Ok(code) => |code| <= CodeBytes(ps) + |e.tail|
            case Err(err) => err == Unimplemented && CodeBytes(ps) + |e.tail| > MAX_BYTES
    decreases ps
  {
    if ps != [] {
      LayoutBytes(i + 1, ps[1..], e);
    }
  }

  lemma {:induction false} CodeBytesOfSum(a: seq<PairCode>, b: seq<PairCode>)
    ensures CodeBytes(a + b) == CodeBytes(a) + CodeBytes(b)
  {
    if a == [] {
      assert a + b == b;
    } else {
      assert (a + b)[1..] == a[1..] + b;
      CodeBytesOfSum(a[1..], b);
    }
  }

  /** What is put together of pairs and default. */
  ghost predicate Joined(r: Result<Out, CompileError>, tables: Tables, void: bool, bytes: nat) {
    match r
    case Ok(o) => o.tables == tables && o.void == void && |o.code| <= bytes
    case Err(e) => e == Unimplemented && bytes > MAX_BYTES
  }

  lemma WithoutResult(ps: Pairs)
    ensures Joined(CondWithoutResult(ps), ps.tables, true, CodeBytes(ps.codes) + 4)
  {
    if ps.codes != [] {
      var n := |ps.codes| - 1;
      var last := ps.codes[n];
      var pop := if ps.allVoid then [] else [F_POP_VALUE];
      var tail := last.cond + SkipBranch(last.whenZero, |last.part|, |last.part| + |pop|) + last.part + pop;
      LayoutBytes(0, ps.codes[..n], Ending(tail, AtEnd, if ps.allVoid then AtEnd else OverLast));
      CodeBytesOfSum(ps.codes[..n], [last]);
      assert ps.codes == ps.codes[..n] + [last];
      assert CodeBytes([last]) == |last.cond| + |last.part| + 6;
    }
  }

  lemma WithDefault(f: Accept, hasDefault: bool, ps: Pairs, d: Out)
    requires !d.void ==> d.code != []
    ensures Joined(CondWithDefault(f, hasDefault, ps, d), d.tables, d.void || f.void, CodeBytes(ps.codes) + |d.code| + 3)
  {
    if ps.codes != [] {
      var p := ps.codes[0];
      var p' := p.(part := p.part + [F_CONST0], void := false);
      LayoutBytes(0, [p'], Ending(d.code, AtEnd, AtEnd));
      assert CodeBytes([p']) == |p.cond| + |p.part| + 7;
    }
    LayoutBytes(0, ps.codes, Ending(d.code, AtEnd, AtEnd));
    if d.code != [] {
      LayoutBytes(0, ps.codes, Ending(d.code, OverLast, AtEnd));
    }
    LayoutBytes(0, ps.codes, Ending(d.code + [F_POP_VALUE], AtEnd, OverLast));
    LayoutBytes(0, ps.codes, Ending(d.code + [F_BRANCH, 1, F_CONST0], OverLast, AtEnd));
  }

  lemma {:induction false} TellCond(efuns: Efuns, t: Tree, f: Accept, levels: nat, depth: nat, tables: Tables)
    requires levels > 0 && t.Cond?
    ensures Told(efuns, CompileCond(efuns, t, f, levels, tables), VisitsCond(efuns, t, f, depth), tables.symbols,
                 f.void || (f.zero && AllVoid(efuns, t.pairs, Compiled(t, f), f, true)
                            && (!Compiled(t, f) || Voids(efuns, t.default, f.(negate := false)))),
                 PairBytes(t.pairs) + (if t.hasDefault then Bytes(t.default) else 0) + 4, levels + depth)
    decreases t, 0
  {
    hide Compile, Visits, Bytes, Walk, CompilePairs, VisitsPairs, AllVoid, PairBytes, CondWithDefault, CondWithoutResult;
    var withDefault, all := Compiled(t, f), levels + depth;
    TellPairs(efuns, t.isNotIf, t.pairs, withDefault, f, true, levels, depth, tables);
    var r := CompilePairs(efuns, t.isNotIf, t.pairs, withDefault, f, true, levels, tables);
    var x := VisitsPairs(efuns, t.pairs, withDefault, f, true, depth);
    var y := VisitsCond(efuns, t, f, depth)[|x|..];
    assert VisitsCond(efuns, t, f, depth) == x + y;
    WalkOn(efuns, x, y, tables.symbols, all);
    if r.Ok? {
      var ps := r.value;
      var df := if ps.allVoid then f.(negate := false) else NOTHING;
      if withDefault {
        TellTree(efuns, t.default, df, levels, depth, ps.tables);
        var d := Compile(efuns, t.default, df, levels, ps.tables);
        if d.Ok? {
          WithDefault(f, true, ps, d.value);
        }
      } else if f.void || (ps.allVoid && f.zero) {
        WithoutResult(ps);
        WalkNothing(efuns, ps.tables.symbols, all);
      } else {
        WalkOne(efuns, Enter(depth), ps.tables.symbols, all);
        var d := Leaf(0, df, levels, ps.tables);
        if d.Ok? {
          WithDefault(f, false, ps, d.value);
        }
      }
    }
  }

  // ----- whole closures

  /** What is met in the body of a closure. */
  function BodyVisits(efuns: Efuns, body: Tree): seq<Visit> {
    Visits(efuns, body, NOTHING.(zero := true), 0)
  }

  ghost predicate AllSound(efuns: Efuns, names: seq<Name>, body: Tree) {
    var vs := BodyVisits(efuns, body);
    forall i :: 0 <= i < |vs| ==> Sound(efuns, vs, i, names, MAX_LAMBDA_LEVELS)
  }

  ghost predicate FlawReported(efuns: Efuns, names: seq<Name>, body: Tree, e: CompileError) {
    var vs := BodyVisits(efuns, body);
    exists i: nat :: FirstFlaw(efuns, vs, i, names, MAX_LAMBDA_LEVELS) && e == ErrorOf(vs[i])
  }

  /** What each answer of the compiler says about the closure. */
  lemma ErrorsReported(efuns: Efuns, names: seq<Name>, body: Tree)
    ensures var r := CompileLambda(efuns, names, body);
            if r.Ok? then Distinct(names) && AllSound(efuns, names, body) && |r.value.closure.code| <= Bytes(body) + 4
            else if r.error == DoubleSymbol then !Distinct(names)
            else if r.error == Unimplemented then Distinct(names) && Bytes(body) > MAX_BYTES
            else Distinct(names) && FlawReported(efuns, names, body, r.error)
  {
    hide Compile, Visits, Bytes, Voids, Walk, Sound;
    if Distinct(names) {
      TellTree(efuns, body, NOTHING.(zero := true), MAX_LAMBDA_LEVELS, 0, Tables([], names));
      WalkIff(efuns, BodyVisits(efuns, body), names, MAX_LAMBDA_LEVELS);
      WalkErrors(efuns, BodyVisits(efuns, body), names, MAX_LAMBDA_LEVELS);
    }
  }

  lemma {:induction false} WalkErrors(efuns: Efuns, vs: seq<Visit>, names: Symbols, levels: nat)
    ensures Walk(efuns, vs, names, levels) != Err(DoubleSymbol) && Walk(efuns, vs, names, levels) != Err(Unimplemented)
  {
    if vs != [] {
      WalkErrors(efuns, vs[1..], NamesAfter(vs[0], names), levels);
    }
  }

  /** A closure of no more than 32767 bytes is compiled if and only if its arguments are different symbols, every symbol in its
      body is an argument or has been assigned to before, every efun has its number of arguments, no block of assignments is
      empty, and the nesting is not too deep. */
  lemma CompilesIff(efuns: Efuns, names: seq<Name>, body: Tree)
    requires Bytes(body) <= MAX_BYTES
    ensures CompileLambda(efuns, names, body).Ok? <==> Distinct(names) && AllSound(efuns, names, body)
  {
    hide CompileLambda, Sound, Bytes, BodyVisits, Visits;
    ErrorsReported(efuns, names, body);
  }

  // ----- exactly when a branch is too far

  lemma DoLimit(efuns: Efuns, t: Tree, f: Accept, levels: nat, tables: Tables, b: Out, c: Out, r: Out)
    requires levels > 0 && t.Do? && CompileAll(efuns, t.bodies, levels, tables) == Ok(b)
    requires Compile(efuns, t.cond, NOTHING.(negate := true), levels, b.tables) == Ok(c)
    requires Compile(efuns, t.result, f, levels, c.tables) == Ok(r)
    ensures CompileDo(efuns, t, f, levels, tables).Ok? <==> |b.code| + |c.code| < 0x8000
  {
    hide Compile, CompileAll;
  }

  lemma WhileLimit(efuns: Efuns, t: Tree, f: Accept, levels: nat, tables: Tables, b: Out, c: Out, r: Out)
    requires levels > 0 && t.While? && CompileAll(efuns, t.bodies, levels, tables) == Ok(b)
    requires Compile(efuns, t.cond, NOTHING.(negate := true), levels, b.tables) == Ok(c)
    requires Compile(efuns, t.result, f, levels, c.tables) == Ok(r)
    ensures CompileWhile(efuns, t, f, levels, tables).Ok? <==> |b.code| <= 0x7ffd && |b.code| + |c.code| < 0x8000
  {
    hide Compile, CompileAll;
  }

  lemma LandLimit(efuns: Efuns, isAnd: bool, ts: seq<Tree>, void: bool, levels: nat, tables: Tables, o: Out, rest: Out)
    requires levels > 0 && |ts| > 1 && Compile(efuns, ts[0], NOTHING, levels, tables) == Ok(o)
    requires CompileLand(efuns, isAnd, ts[1..], void, levels, o.tables) == Ok(rest)
    ensures CompileLand(efuns, isAnd, ts, void, levels, tables).Ok? <==> |rest.code| <= if void then 0x7ffd else 0x7ffc
  {
    hide Compile;
  }

  lemma LandEqLimit(efuns: Efuns, t: Tree, levels: nat, tables: Tables, o: Out)
    requires levels > 0 && t.LandEq? && Compile(efuns, t.expr, NOTHING, levels, BindLocal(t.name, tables)) == Ok(o)
    ensures CompileLandEq(efuns, t, levels, tables).Ok? <==> |o.code| <= 0x7ffc
  {
    hide Compile;
  }

  lemma PartLimit(efuns: Efuns, isNotIf: bool, pairs: seq<Pair>, hasDefault: bool, f: Accept, allVoid: bool, levels: nat, tables: Tables,
                  c: Out, p: Out, rest: Pairs)
    requires levels > 0 && pairs != [] && Compile(efuns, pairs[0].cond, NOTHING.(negate := true), levels, tables) == Ok(c)
    requires Compile(efuns, pairs[0].part, PartAccept(|pairs| == 1, hasDefault, f, allVoid), levels, c.tables) == Ok(p)
    requires CompilePairs(efuns, isNotIf, pairs[1..], hasDefault, f, allVoid && p.void, levels, p.tables) == Ok(rest)
    ensures CompilePairs(efuns, isNotIf, pairs, hasDefault, f, allVoid, levels, tables).Ok? <==> |p.code| <= 0x7ffb
  {
    hide Compile;
  }

  /** The bytes that pairs and what follows them take, however far the branches are. */
  function Extent(ps: seq<PairCode>, e: Ending): (n: nat)
    requires WellEnded(e)
    ensures n >= |e.tail|
  {
    if ps == [] then |e.tail|
    else
      var p, rest := ps[0], Extent(ps[1..], e);
      |p.cond| + (if |p.part| > 0xfc then 3 else 2) + |p.part| + (if ExitReach(p, rest, e) > 0xff then 3 else 2) + rest
  }

  /** How far the branch behind a cond-part goes if `rest` bytes follow. */
  function ExitReach(p: PairCode, rest: nat, e: Ending): int {
    rest - Back(ExitOf(e, p.void))
  }

  /** A conditional is laid out if and only if the branch behind its first cond-part goes no farther than 32766 bytes. */
  lemma {:induction false} LayoutIff(i: nat, ps: seq<PairCode>, e: Ending)
    requires WellEnded(e)
    ensures Layout(i, ps, e).Ok? <==> ps == [] || ExitReach(ps[0], Extent(ps[1..], e), e) <= 0x7ffe
    ensures Layout(i, ps, e).Ok? ==> |Layout(i, ps, e).value| == Extent(ps, e)
    decreases ps
  {
    if ps != [] {
      LayoutIff(i + 1, ps[1..], e);
    }
  }
}
