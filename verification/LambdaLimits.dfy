/** Where compiled closures stop doing what their body means, and exactly when. */
module LambdaLimits {
  import opened Wrappers
  import opened Bytecode
  import opened LambdaTree
  import opened LambdaCompile
  import opened LambdaSound
  import opened LambdaTheorems

  // ----- when the branches of #'? land

  /** The distance of the first pair's exit branch. */
  function FirstDistance(i: nat, ps: seq<PairCode>, e: Ending): int
    requires ps != [] && WellEnded(e) && Layout(i, ps, e).Ok?
  {
    ExitDistance(e, ps[0].void, Layout(i + 1, ps[1..], e).value)
  }

  /** No cond-part is longer than the compiler allows. */
  predicate PartsFit(ps: seq<PairCode>) {
    forall i :: 0 <= i < |ps| ==> |ps[i].part| + 2 <= 0x7ffd
  }

  /** If the first exit branch is short, all are. */
  lemma {:induction false} ShortStaysShort(i: nat, ps: seq<PairCode>, e: Ending)
    requires ps != [] && WellEnded(e) && Layout(i, ps, e).Ok? && FirstDistance(i, ps, e) <= 0xff && PartsFit(ps)
    ensures AllLand(i, ps, e)
    decreases ps
  {
    var p := ps[0];
    ShortRoundTrip(|p.part| + 4);
    if |ps| > 1 {
      ShortStaysShort(i + 1, ps[1..], e);
    } else {
      assert ps[1..] == [];
    }
  }

  /** Branches that land skip no more than a cond-part may have. */
  lemma {:induction false} LandingPartsFit(i: nat, ps: seq<PairCode>, e: Ending)
    requires WellEnded(e) && Layout(i, ps, e).Ok? && AllLand(i, ps, e)
    ensures PartsFit(ps)
    decreases ps
  {
    if ps != [] {
      ShortRoundTrip(|ps[0].part| + 4);
      ShortRoundTrip(|ps[0].part| + 5);
      LandingPartsFit(i + 1, ps[1..], e);
      assert forall k :: 0 < k < |ps| ==> ps[k] == ps[1..][k - 1];
    }
  }

  /** What a caller can check: the second exit branch is short, and the offsets of the first pair
      fit into 16 bits if its exit branch is long. */
  predicate CondFits(ps: seq<PairCode>, e: Ending)
    requires WellEnded(e) && Layout(0, ps, e).Ok?
  {
    && PartsFit(ps)
    && (|ps| > 1 ==> FirstDistance(1, ps[1..], e) <= 0xff)
    && (ps != [] && FirstDistance(0, ps, e) > 0xff ==>
          && FirstDistance(0, ps, e) + 2 <= 0x7fff
          && (|ps[0].part| + 2 > 0xfe ==> |ps[0].part| + 5 <= 0x7fff))
  }

  /** All branches of #'? reach their destinations iff at most one exit branch had to be widened and
      its offsets did not overflow. */
  lemma BranchesLandIff(ps: seq<PairCode>, e: Ending)
    requires WellEnded(e) && Layout(0, ps, e).Ok?
    ensures AllLand(0, ps, e) <==> CondFits(ps, e)
  {
    if AllLand(0, ps, e) {
      LandingPartsFit(0, ps, e);
    }
    if PartsFit(ps) {
      FittingPartsLandIff(ps, e);
    }
  }

  lemma FittingPartsLandIff(ps: seq<PairCode>, e: Ending)
    requires WellEnded(e) && Layout(0, ps, e).Ok? && PartsFit(ps)
    ensures AllLand(0, ps, e) <==> CondFits(ps, e)
  {
    if ps != [] {
      var d := FirstDistance(0, ps, e);
      if d >= 0 {
        ShortRoundTrip(d + 2);
      }
      ShortRoundTrip(|ps[0].part| + 4);
      ShortRoundTrip(|ps[0].part| + 5);
      if |ps| > 1 {
        var d1 := FirstDistance(1, ps[1..], e);
        if d1 <= 0xff {
          ShortStaysShort(1, ps[1..], e);
        } else {
          OffByOne(d1 + 2);
        }
      } else {
        assert ps[1..] == [];
      }
    }
  }

  lemma OffByOne(n: int)
    ensures !ShortReaches(n + 1, n)
  {
    var u := (n + 1) % 0x1_0000;
    assert (n + 1) / 256 % 256 == u / 256 && (n + 1) % 256 == u % 256;
  }

  /** The same for a whole closure: all its branches land iff each of its conditionals keeps to the limits. */
  lemma ClosureLandsIff(efuns: Efuns, names: seq<Name>, body: Tree, l: Lambda)
    requires CompileLambda(efuns, names, body) == Ok(l)
    ensures Lands(l.conds)
            <==> forall c :: c in l.conds ==> WellEnded(c.ending) && Layout(0, c.codes, c.ending).Ok? && CondFits(c.codes, c.ending)
  {
    hide AllLand, CondFits, Layout;
    forall c | c in l.conds && WellEnded(c.ending) && Layout(0, c.codes, c.ending).Ok?
      ensures AllLand(0, c.codes, c.ending) <==> CondFits(c.codes, c.ending)
    {
      BranchesLandIff(c.codes, c.ending);
    }
  }

  /** Where a widened exit branch really goes: `i` bytes past its destination. */
  lemma WideBranchTarget(cx: Context, i: nat, d: nat, s: State) returns (t: State)
    requires At(cx.c.code, s.pc, ExitBranch(i, d)) && d > 0xff && d + 2 + i <= 0x7fff
    ensures Step(cx.c, s) == Some(t) && t == s.(pc := s.pc + |ExitBranch(i, d)| + d + i)
  {
    ShortRoundTrip(d + 2 + i);
    t := ShortStep(cx, F_LBRANCH, d + 2 + i, s);
  }

  /** `x, x, ..., x` with n expressions takes 3n - 1 bytes. */
  lemma {:induction false} CommaSize(efuns: Efuns, x: Name, ts: seq<Tree>, levels: nat, tables: Tables)
    requires levels > 1 && ts != [] && x in tables.symbols && (forall i :: 0 <= i < |ts| ==> ts[i] == Symbol(x))
    ensures var r := CompileComma(efuns, ts, NOTHING, levels, tables);
            && r.Ok? && r.value.tables == tables && !r.value.void && r.value.conds == {} && |r.value.code| == 3 * |ts| - 1
    decreases ts
  {
    assert ts[0] == Symbol(x);
    assert Compile(efuns, ts[0], VOID_WANTED, levels, tables).value.code == [F_LOCAL, LocalByte(IndexOf(tables.symbols, x))];
    if |ts| > 1 {
      CommaSize(efuns, x, ts[1..], levels, tables);
    }
  }

  /** ({ #'?, x, x, y, y, ({ #', x, ..., x }) }) with a default of 86 expressions. */
  function TwoWideBranches(x: Name, y: Name): Tree {
    Cond(false, [Pair(Symbol(x), Symbol(x)), Pair(Symbol(y), Symbol(y))], true, Comma(seq(86, _ => Symbol(x))))
  }

  /** The code of the two pairs if 257 bytes follow: the last branch has to cover these, but covers one more. */
  function TwoWideCode(): Code {
    [F_LOCAL, 0, F_BRANCH_WHEN_ZERO, 5, F_LOCAL, 0, F_LBRANCH] + Short(268)
    + [F_LOCAL, 1, F_BRANCH_WHEN_ZERO, 5, F_LOCAL, 1, F_LBRANCH] + Short(260)
  }

  lemma TwoWideLayout(d: Code, e: Ending, codes: seq<PairCode>)
    requires |d| == 257 && e == Ending(d, AtEnd, AtEnd)
    requires codes == [PairCode([F_LOCAL, 0], true, [F_LOCAL, 0], false), PairCode([F_LOCAL, 1], true, [F_LOCAL, 1], false)]
    ensures Layout(0, codes, e) == Ok(TwoWideCode() + d) && !CondFits(codes, e)
  {
    var last := codes[1..];
    assert last == [codes[1]] && last[1..] == [];
    assert Layout(2, [], e) == Ok(d);
    var first: Code := [F_LOCAL, 0, F_BRANCH_WHEN_ZERO, 5, F_LOCAL, 0, F_LBRANCH] + Short(268);
    var second: Code := [F_LOCAL, 1, F_BRANCH_WHEN_ZERO, 5, F_LOCAL, 1, F_LBRANCH] + Short(260);
    assert PairHead(codes[0], true) + ExitBranch(0, 266) == first;
    assert PairHead(codes[1], true) + ExitBranch(1, 257) == second;
    assert Layout(1, last, e) == Ok(second + d);
    assert FirstDistance(1, last, e) == 257;
    assert Layout(0, codes, e) == Ok(first + (second + d));
    assert first + (second + d) == TwoWideCode() + d;
  }

  lemma TwoWidePairs(efuns: Efuns, x: Name, y: Name, pairs: seq<Pair>, f: Accept, lv: nat, tb: Tables)
    requires lv > 1 && x != y && tb == Tables([], [x, y]) && f == NOTHING.(zero := true)
    requires pairs == [Pair(Symbol(x), Symbol(x)), Pair(Symbol(y), Symbol(y))]
    ensures var codes := [PairCode([F_LOCAL, 0], true, [F_LOCAL, 0], false), PairCode([F_LOCAL, 1], true, [F_LOCAL, 1], false)];
            CompilePairs(efuns, false, pairs, true, f, true, lv, tb) == Ok(Pairs(codes, tb, false, {}))
  {
    var code0, code1: Code := [F_LOCAL, 0], [F_LOCAL, 1];
    var p0, p1 := PairCode(code0, true, code0, false), PairCode(code1, true, code1, false);
    SymbolCode(efuns, x, y, lv, tb);
    var last := pairs[1..];
    assert last == [Pair(Symbol(y), Symbol(y))] && last[1..] == [];
    assert [p1] + [] == [p1] && [p0] + [p1] == [p0, p1];
    NoMorePairs(efuns, false, true, f, false, lv, tb);
    hide Compile;
    assert CompilePairs(efuns, false, last, true, f, false, lv, tb) == Ok(Pairs([p1], tb, false, {}));
  }

  lemma SymbolCode(efuns: Efuns, x: Name, y: Name, lv: nat, tb: Tables)
    requires lv > 1 && x != y && tb == Tables([], [x, y])
    ensures forall f :: Compile(efuns, Symbol(x), f, lv, tb) == Ok(Out([F_LOCAL, 0], tb, false, false, {}))
    ensures forall f :: Compile(efuns, Symbol(y), f, lv, tb) == Ok(Out([F_LOCAL, 1], tb, false, false, {}))
  {
    assert IndexOf([x, y], x) == 0;
    assert [x, y][1..] == [y];
    assert IndexOf([x, y], y) == 1;
  }

  lemma TwoWideDefault(efuns: Efuns, x: Name, y: Name, lv: nat, tb: Tables) returns (o: Out)
    requires lv > 2 && x != y && tb == Tables([], [x, y])
    ensures Compile(efuns, TwoWideBranches(x, y).default, NOTHING, lv, tb) == Ok(o)
    ensures |o.code| == 257 && o.tables == tb && !o.void && o.conds == {}
  {
    var t := TwoWideBranches(x, y).default;
    CommaSize(efuns, x, t.exprs, lv - 1, tb);
    o := Compile(efuns, t, NOTHING, lv, tb).value;
  }

  lemma TwoWideCond(efuns: Efuns, x: Name, y: Name, lv: nat, tb: Tables) returns (o: Out, d: Code)
    requires lv > 2 && x != y && tb == Tables([], [x, y])
    ensures CompileCond(efuns, TwoWideBranches(x, y), NOTHING.(zero := true), lv, tb) == Ok(o)
    ensures |d| == 257 && o.code == TwoWideCode() + d && o.tables == tb && !o.void && !Lands(o.conds)
  {
    hide Compile, CompilePairs, Grows, Faithful, Layout, CondFits, Lands, TwoWideCode;
    var t, f := TwoWideBranches(x, y), NOTHING.(zero := true);
    var default := TwoWideDefault(efuns, x, y, lv, tb);
    TwoWidePairs(efuns, x, y, t.pairs, f, lv, tb);
    var ps := CompilePairs(efuns, false, t.pairs, true, f, true, lv, tb).value;
    d := default.code;
    var e := Ending(d, AtEnd, AtEnd);
    TwoWideLayout(d, e, ps.codes);
    assert !HasVoid(ps.codes);
    o := CondWithDefault(f, true, ps, default).value;
    TwoWideMisses(ps.codes, e, o.conds);
  }

  /** The compiled closure. */
  lemma TwoWideClosure(efuns: Efuns, x: Name, y: Name) returns (l: Lambda, d: Code)
    requires x != y
    ensures CompileLambda(efuns, [x, y], TwoWideBranches(x, y)) == Ok(l) && FitsOperands(l) && !Lands(l.conds)
    ensures |d| == 257 && l.closure.code == [0, 2, 2] + TwoWideCode() + d + [F_RETURN]
  {
    hide CompileCond, Lands, TwoWideCode;
    var t, tb := TwoWideBranches(x, y), Tables([], [x, y]);
    var o;
    o, d := TwoWideCond(efuns, x, y, MAX_LAMBDA_LEVELS - 1, tb);
    assert Compile(efuns, t, NOTHING.(zero := true), MAX_LAMBDA_LEVELS, tb) == Ok(o);
    hide Compile, TwoWideBranches;
    l := CompileLambda(efuns, [x, y], t).value;
    assert [0, 2, 2] + (TwoWideCode() + d) + [F_RETURN] == [0, 2, 2] + TwoWideCode() + d + [F_RETURN];
  }

  lemma TwoWideMisses(codes: seq<PairCode>, e: Ending, conds: set<Conditional>)
    requires Conditional(codes, e) in conds && WellEnded(e) && Layout(0, codes, e).Ok? && !CondFits(codes, e)
    ensures !Lands(conds)
  {
    BranchesLandIff(codes, e);
  }

  /** A run that gets stuck before it has come to a return returns nothing. */
  lemma StuckReturnsNothing(l: Lambda, s: State, n: nat, t: State)
    requires Run(l.closure, n, s) == Some(t) && Step(l.closure, t).None? && Returned(l.closure, t).None?
    ensures forall v, world :: !Returns(l, s, v, world)
  {
    forall v, world
      ensures !Returns(l, s, v, world)
    {
      if Returns(l, s, v, world) {
        var m: nat, u: State :| Run(l.closure, m, s) == Some(u) && Returned(l.closure, u) == Some(v) && u.world == world;
        ReturnIsFinal(l.closure, m, n, s);
        RunCompose(l.closure, n, m - n, s);
        assert false;
      }
    }
  }

  /** With 0 and another value the second pair is taken, and its exit branch leads behind the return. */
  lemma TwoWideRun(c: Closure, d: Code, s: State, v: Value) returns (t: State)
    requires c.code == [0, 2, 2] + TwoWideCode() + d + [F_RETURN] && |d| == 257
    requires s.pc == 3 && s.stack == Empty && |s.locals| == 4 && s.locals[0] == Num(0) && s.locals[1] == v && !IsZero(v)
    ensures Run(c, 6, s) == Some(t) && t.pc == |c.code|
  {
    var code := TwoWideCode();
    assert |code| == 18 && |c.code| == 279;
    assert forall i :: 0 <= i < 18 ==> c.code[3 + i] == code[i];
    assert code[..9] == [F_LOCAL, 0, F_BRANCH_WHEN_ZERO, 5, F_LOCAL, 0, F_LBRANCH] + Short(268);
    assert code[9..] == [F_LOCAL, 1, F_BRANCH_WHEN_ZERO, 5, F_LOCAL, 1, F_LBRANCH] + Short(260);
    assert c.code[3] == F_LOCAL && c.code[4] == 0 && c.code[5] == F_BRANCH_WHEN_ZERO && c.code[6] == 5;
    assert c.code[12] == F_LOCAL && c.code[13] == 1 && c.code[14] == F_BRANCH_WHEN_ZERO && c.code[15] == 5;
    assert c.code[16] == F_LOCAL && c.code[17] == 1 && c.code[18] == F_LBRANCH && c.code[19] == 1 && c.code[20] == 4;
    var s1 := s.(pc := 5, stack := Push(Val(Num(0)), Empty));
    var s2 := s.(pc := 12);
    var s3 := s.(pc := 14, stack := Push(Val(v), Empty));
    var s4 := s.(pc := 16);
    var s5 := s.(pc := 18, stack := Push(Val(v), Empty));
    t := s.(pc := 279, stack := Push(Val(v), Empty));
    assert Step(c, s) == Some(s1);
    assert Step(c, s1) == Some(s2);
    assert Step(c, s2) == Some(s3);
    assert Step(c, s3) == Some(s4);
    assert Step(c, s4) == Some(s5);
    assert Step(c, s5) == Some(t);
    hide Step;
    FirstStep(c, s, s1);
    ThenStep(c, 1, s, s1, s2);
    ThenStep(c, 2, s, s2, s3);
    ThenStep(c, 3, s, s3, s4);
    ThenStep(c, 4, s, s4, s5);
    ThenStep(c, 5, s, s5, t);
  }

  /** Called with 0 and any other value, this closure should return the value, but its run leads out of the code. */
  lemma TwoWideBranchesMiss(efuns: Efuns, x: Name, y: Name, v: Value, world: World)
    requires x != y && !IsZero(v)
    ensures var body, args := TwoWideBranches(x, y), [Num(0), v];
            var l := CompileLambda(efuns, [x, y], body);
            && l.Ok? && FitsOperands(l.value) && !Lands(l.value.conds)
            && Evaluates(efuns, body, Env(Arguments([x, y], args), world), v, world)
            && forall w, after :: !Returns(l.value, Entry(l.value, args, world), w, after)
  {
    var body, args := TwoWideBranches(x, y), [Num(0), v];
    var env := Env(Arguments([x, y], args), world);
    var l, d := TwoWideClosure(efuns, x, y);
    ArgumentOf([x, y], args, 0);
    ArgumentOf([x, y], args, 1);
    TwoWideValue(efuns, x, y, env, v);
    hide CompileLambda, Eval, Lands, TwoWideBranches, TwoWideCode;
    var s := Entry(l, args, world);
    var t := TwoWideRun(l.closure, d, s, v);
    StuckReturnsNothing(l, s, 6, t);
  }

  lemma TwoWideValue(efuns: Efuns, x: Name, y: Name, env: Env, v: Value)
    requires Lookup(env.vars, x) == Num(0) && Lookup(env.vars, y) == v && !IsZero(v)
    ensures Evaluates(efuns, TwoWideBranches(x, y), env, v, env.world)
  {
    var t := TwoWideBranches(x, y);
    var last := t.pairs[1..];
    assert last == [Pair(Symbol(y), Symbol(y))];
    assert EvalPairs(efuns, false, last, env, 0) == Some(Taken(Outcome(v, env)));
    assert EvalPairs(efuns, false, t.pairs, env, 0) == Some(Taken(Outcome(v, env)));
    assert Eval(efuns, t, env, 0) == Some(Outcome(v, env));
  }

  // ----- when arguments and variables are found

  /** Two variables share an instruction operand if their indices differ by a multiple of 256. */
  lemma LocalsAliasIff(tables: Tables)
    ensures forall i, j :: 0 <= i < j < |tables.symbols| ==>
              (LvalueCode(tables.symbols[i], tables) == LvalueCode(tables.symbols[j], tables) <==> (j - i) % 256 == 0)
    ensures (exists i, j :: 0 <= i < j < |tables.symbols|
                            && LvalueCode(tables.symbols[i], tables) == LvalueCode(tables.symbols[j], tables))
            <==> |tables.symbols| > 256
  {
    var names := tables.symbols;
    forall i, j | 0 <= i < j < |names|
      ensures LvalueCode(names[i], tables) == LvalueCode(names[j], tables) <==> (j - i) % 256 == 0
    {
      IndexOfAt(names, i);
      IndexOfAt(names, j);
      SameByte(i, j);
    }
    if |names| > 256 {
      assert LvalueCode(names[0], tables) == LvalueCode(names[256], tables);
    }
  }

  lemma SameByte(i: nat, j: nat)
    requires i <= j
    ensures i % 256 == j % 256 <==> (j - i) % 256 == 0
    ensures i < j && (j - i) % 256 == 0 ==> j >= 256
  {
  }

  lemma IndexOfAt(names: seq<Name>, i: nat)
    requires Distinct(names) && i < |names|
    ensures names[i] in names && IndexOf(names, names[i]) == i
  {
  }

  /** `name = 1` for all names. */
  function SetAll(names: seq<Name>): (targets: seq<Target>)
    ensures |targets| == |names|
  {
    seq(|names|, i requires 0 <= i < |names| => Target(names[i], Const(Num(1))))
  }

  /** Each assignment makes a variable, and the first one comes first. */
  lemma {:induction false} SetAllCode(efuns: Efuns, names: seq<Name>, lv: nat, tb: Tables)
    requires lv > 1 && names != [] && Distinct(tb.symbols + names)
    ensures var r := CompileAssign(efuns, SetAll(names), false, lv, tb);
            && r.Ok? && r.value.tables == tb.(symbols := tb.symbols + names) && !r.value.void && r.value.conds == {}
            && |r.value.code| >= 4 && r.value.code[..3] == [F_CONST1, F_PUSH_LOCAL_VARIABLE_LVALUE, LocalByte(|tb.symbols|)]
            && r.value.code[3] in {F_ASSIGN, F_VOID_ASSIGN}
    decreases |names|
  {
    var targets := SetAll(names);
    assert targets[0] == Target(names[0], Const(Num(1)));
    FreshName(tb, names);
    var one := tb.(symbols := tb.symbols + [names[0]]);
    assert Compile(efuns, targets[0].expr, NOTHING, lv, tb) == Ok(Out([F_CONST1], tb, false, false, {}));
    if |names| > 1 {
      assert targets[1..] == SetAll(names[1..]);
      assert tb.symbols + [names[0]] + names[1..] == tb.symbols + names;
      SetAllCode(efuns, names[1..], lv, one);
    } else {
      assert names == [names[0]];
    }
  }

  lemma FreshName(tb: Tables, names: seq<Name>)
    requires names != [] && Distinct(tb.symbols + names)
    ensures names[0] !in tb.symbols && Distinct(tb.symbols + [names[0]])
    ensures IndexOf(tb.symbols + [names[0]], names[0]) == |tb.symbols|
  {
    var all := tb.symbols + names;
    assert all[|tb.symbols|] == names[0];
    assert forall i :: 0 <= i < |tb.symbols| ==> all[i] == tb.symbols[i];
    IndexOfAt(tb.symbols + [names[0]], |tb.symbols|);
  }

  lemma {:induction false} SetAllValue(efuns: Efuns, names: seq<Name>, env: Env)
    requires names != []
    ensures exists vars :: EvalAssign(efuns, SetAll(names), env, 0) == Some(Outcome(Num(1), Env(vars, env.world)))
    decreases |names|
  {
    var targets := SetAll(names);
    assert targets[0] == Target(names[0], Const(Num(1)));
    var e := Assigned(env, names[0], Num(1));
    if |names| > 1 {
      assert targets[1..] == SetAll(names[1..]);
      SetAllValue(efuns, names[1..], e);
      var vars :| EvalAssign(efuns, targets[1..], e, 0) == Some(Outcome(Num(1), Env(vars, env.world)));
      assert EvalAssign(efuns, targets, env, 0) == Some(Outcome(Num(1), Env(vars, env.world)));
    } else {
      assert EvalAssign(efuns, targets, env, 0) == Some(Outcome(Num(1), Env(e.vars, env.world)));
    }
  }

  /** A closure without arguments, but with 256 variables, has no slot for any of them. */
  lemma LocalsLost(efuns: Efuns, names: seq<Name>, world: World)
    requires Distinct(names) && |names| == 256
    ensures var body := Assign(SetAll(names));
            var l := CompileLambda(efuns, [], body);
            && l.Ok? && l.value.numArgs == 0 && |l.value.symbols| == 256 && Lands(l.value.conds)
            && Evaluates(efuns, body, Env(Arguments([], []), world), Num(1), world)
            && forall v, after :: !Returns(l.value, Entry(l.value, [], world), v, after)
  {
    hide CompileAssign, EvalAssign, Lands, SetAll, NewFrame, Returns;
    var body, tb := Assign(SetAll(names)), Tables([], []);
    assert [] + names == names;
    SetAllCode(efuns, names, MAX_LAMBDA_LEVELS - 1, tb);
    var o := CompileAssign(efuns, SetAll(names), false, MAX_LAMBDA_LEVELS - 1, tb).value;
    assert Compile(efuns, body, NOTHING.(zero := true), MAX_LAMBDA_LEVELS, tb) == Ok(o);
    SetAllEvaluates(efuns, names, world);
    hide Compile, Evaluates;
    var l := CompileLambda(efuns, [], body).value;
    NoneToLand();
    assert l.closure.code[..3] == [0, 0, 0] && l.closure.code == [0, 0, 0] + o.code + [F_RETURN];
    FrameLength(0, 0, []);
    var s := Entry(l, [], world);
    var t := StuckAtAssign(l.closure, o.code, s);
    StuckReturnsNothing(l, s, 2, t);
  }

  lemma SetAllEvaluates(efuns: Efuns, names: seq<Name>, world: World)
    requires names != []
    ensures Evaluates(efuns, Assign(SetAll(names)), Env(Arguments([], []), world), Num(1), world)
  {
    hide EvalAssign, SetAll;
    var env := Env(Arguments([], []), world);
    SetAllValue(efuns, names, env);
    var vars :| EvalAssign(efuns, SetAll(names), env, 0) == Some(Outcome(Num(1), Env(vars, env.world)));
    assert Eval(efuns, Assign(SetAll(names)), env, 0) == Some(Outcome(Num(1), Env(vars, env.world)));
  }

  /** The first assignment finds no variable. */
  lemma StuckAtAssign(c: Closure, code: Code, s: State) returns (t: State)
    requires c.code == [0, 0, 0] + code + [F_RETURN] && |code| >= 4 && s.pc == 3 && s.locals == []
    requires code[..3] == [F_CONST1, F_PUSH_LOCAL_VARIABLE_LVALUE, 0] && code[3] in {F_ASSIGN, F_VOID_ASSIGN}
    ensures Run(c, 2, s) == Some(t) && Step(c, t).None? && Returned(c, t).None?
  {
    assert forall i :: 0 <= i < |code| ==> c.code[3 + i] == code[i];
    assert code[0] == code[..3][0] && code[1] == code[..3][1] && code[2] == code[..3][2];
    var u := s.(pc := 4, stack := Push(Val(Num(1)), s.stack));
    t := s.(pc := 6, stack := Push(Lvalue(0), u.stack));
    assert Step(c, s) == Some(u);
    assert Step(c, u) == Some(t);
    FirstStep(c, s, u);
    ThenStep(c, 1, s, u, t);
  }

  /** A closure that returns one of its arguments. */
  lemma SymbolClosure(efuns: Efuns, names: seq<Name>, i: nat) returns (l: Lambda)
    requires Distinct(names) && i < |names|
    ensures CompileLambda(efuns, names, Symbol(names[i])) == Ok(l) && l.symbols == names && l.numArgs == |names|
    ensures l.closure.code == [0, |names| % 256, |names| % 256, F_LOCAL, i % 256, F_RETURN] && l.closure.values == []
    ensures l.conds == {}
  {
    IndexOfAt(names, i);
    var t := Symbol(names[i]);
    var o := Out([F_LOCAL, i % 256], Tables([], names), false, false, {});
    assert Compile(efuns, t, NOTHING.(zero := true), MAX_LAMBDA_LEVELS, Tables([], names)) == Ok(o);
    hide Compile;
    l := CompileLambda(efuns, names, t).value;
    assert l.closure.code == [0, |names| % 256, |names| % 256] + o.code + [F_RETURN];
  }

  /** It returns what is in the slot with the index that is left of the argument's, or nothing if there is no such slot. */
  lemma SymbolReturns(efuns: Efuns, names: seq<Name>, i: nat, args: seq<Value>, world: World, l: Lambda)
    requires Distinct(names) && i < |names| && CompileLambda(efuns, names, Symbol(names[i])) == Ok(l)
    ensures var slots := NewFrame(|names| % 256, |names| % 256, args);
            forall v, after :: Returns(l, Entry(l, args, world), v, after)
                               <==> i % 256 < |slots| && v == slots[i % 256] && after == world
  {
    var m := SymbolClosure(efuns, names, i);
    var slots := NewFrame(|names| % 256, |names| % 256, args);
    hide CompileLambda, NewFrame;
    var s := Entry(l, args, world);
    NoStep(l.closure, s);
    if i % 256 < |slots| {
      var t := s.(pc := 5, stack := Push(Val(slots[i % 256]), Empty));
      assert Step(l.closure, s) == Some(t);
      FirstStep(l.closure, s, t);
      OnlyReturn(l, s, 1, t);
    } else {
      StuckReturnsNothing(l, s, 0, s);
    }
  }

  /** A run returns at most one value. */
  lemma OnlyReturn(l: Lambda, s: State, n: nat, t: State)
    requires Run(l.closure, n, s) == Some(t) && Returned(l.closure, t).Some?
    ensures forall v, world :: Returns(l, s, v, world) <==> Returned(l.closure, t) == Some(v) && t.world == world
  {
    forall v, world
      ensures Returns(l, s, v, world) <==> Returned(l.closure, t) == Some(v) && t.world == world
    {
      if Returns(l, s, v, world) {
        var m: nat, u: State :| Run(l.closure, m, s) == Some(u) && Returned(l.closure, u) == Some(v) && u.world == world;
        ReturnIsFinal(l.closure, m, n, s);
        ReturnIsFinal(l.closure, n, m, s);
      }
    }
  }

  /** The closure that should return its i-th argument returns it. */
  ghost predicate ReturnsArgument(efuns: Efuns, names: seq<Name>, i: nat, args: seq<Value>)
    requires Distinct(names) && i < |names| == |args|
  {
    var r := CompileLambda(efuns, names, Symbol(names[i]));
    r.Ok? && Returns(r.value, Entry(r.value, args, []), args[i], [])
  }

  /** Arguments are passed if and only if there are at most 127. */
  lemma ArgumentsPassedIff(efuns: Efuns, names: seq<Name>)
    requires Distinct(names)
    ensures (forall i: nat, args :: i < |names| == |args| ==> ReturnsArgument(efuns, names, i, args)) <==> |names| <= 0x7f
  {
    hide ReturnsArgument;
    forall i: nat, args | |names| <= 0x7f && i < |names| == |args|
      ensures ReturnsArgument(efuns, names, i, args)
    {
      ArgumentPassed(efuns, names, i, args);
    }
    if |names| > 0x7f {
      var i, args := ArgumentLost(efuns, names);
    }
  }

  lemma ArgumentPassed(efuns: Efuns, names: seq<Name>, i: nat, args: seq<Value>)
    requires Distinct(names) && i < |names| == |args| && |names| <= 0x7f
    ensures ReturnsArgument(efuns, names, i, args)
  {
    hide CompileLambda, Returns, NewFrame, Entry;
    var l := SymbolClosure(efuns, names, i);
    SymbolReturns(efuns, names, i, args, [], l);
    PassedSlot(|names|, i, args);
  }

  lemma PassedSlot(n: nat, i: nat, args: seq<Value>)
    requires i < n == |args| && n <= 0x7f
    ensures var slots := NewFrame(n % 256, n % 256, args); i % 256 < |slots| && slots[i % 256] == args[i]
  {
  }

  /** With more arguments than that, one of them is not returned. */
  lemma ArgumentLost(efuns: Efuns, names: seq<Name>) returns (i: nat, args: seq<Value>)
    requires Distinct(names) && |names| > 0x7f
    ensures i < |names| == |args| && !ReturnsArgument(efuns, names, i, args)
  {
    hide CompileLambda, Returns;
    var n := |names|;
    args := seq(n, j requires 0 <= j < n => Num(j + 1));
    i := if n <= 0x80 || n == 0x100 then 0 else if n <= 0xff then n - 0x81 else 256;
    var l := SymbolClosure(efuns, names, i);
    SymbolReturns(efuns, names, i, args, [], l);
    LostSlot(n, i, args);
  }

  lemma LostSlot(n: nat, i: nat, args: seq<Value>)
    requires n > 0x7f && i == if n <= 0x80 || n == 0x100 then 0 else if n <= 0xff then n - 0x81 else 256
    requires i < n == |args| && forall j :: 0 <= j < n ==> args[j] == Num(j + 1)
    ensures var slots := NewFrame(n % 256, n % 256, args); i % 256 < |slots| ==> slots[i % 256] != args[i]
  {
    if n == 0x100 {
      FrameLength(0, 0, args);
    } else if n <= 0xff {
      ManyArguments(n, n, args, i);
    } else {
      FirstSlot(n % 256, n % 256, args);
    }
  }

  lemma FirstSlot(numArgs: Byte, numVars: Byte, args: seq<Value>)
    requires args != []
    ensures var slots := NewFrame(numArgs, numVars, args);
            slots != [] ==> slots[0] == args[0] || slots[0] == Num(0) || slots[0] == Vector(args)
  {
    assert args[0..] == args;
  }

  /** With 128 arguments all are lost; with more, up to 255, all from one on come as a vector. */
  lemma ArgumentsGathered(efuns: Efuns, names: seq<Name>, args: seq<Value>, world: World)
    requires Distinct(names) && 0x80 <= |names| <= 0xff && |args| == |names|
    ensures var i := if |names| == 0x80 then 0 else |names| - 0x81;
            var body := Symbol(names[i]);
            var l := CompileLambda(efuns, names, body);
            && l.Ok? && Lands(l.value.conds)
            && Evaluates(efuns, body, Env(Arguments(names, args), world), args[i], world)
            && Returns(l.value, Entry(l.value, args, world), if |names| == 0x80 then Num(0) else Vector(args[i..]), world)
  {
    hide Returns, Evaluates, CompileLambda, NewFrame, Lands, Arguments;
    var i := if |names| == 0x80 then 0 else |names| - 0x81;
    SymbolValue(efuns, names, args, i, world);
    var l := SymbolClosure(efuns, names, i);
    NoneToLand();
    SymbolReturns(efuns, names, i, args, world, l);
    FrameLength(|names|, |names|, args);
    ManyArguments(|names|, |names|, args, i);
  }

  lemma SymbolValue(efuns: Efuns, names: seq<Name>, args: seq<Value>, i: nat, world: World)
    requires Distinct(names) && i < |names| == |args|
    ensures Evaluates(efuns, Symbol(names[i]), Env(Arguments(names, args), world), args[i], world)
  {
    ArgumentOf(names, args, i);
    var env := Env(Arguments(names, args), world);
    assert Eval(efuns, Symbol(names[i]), env, 0) == Some(Outcome(args[i], env));
  }

  /** With more than 256 arguments the one with index 256 is taken for the first one, and so on. */
  lemma ArgumentsAlias(efuns: Efuns, names: seq<Name>, i: nat, args: seq<Value>, world: World)
    requires Distinct(names) && 256 <= i < |names| == |args| < 0x180
    ensures var body := Symbol(names[i]);
            var l := CompileLambda(efuns, names, body);
            && l.Ok? && Lands(l.value.conds)
            && Evaluates(efuns, body, Env(Arguments(names, args), world), args[i], world)
            && Returns(l.value, Entry(l.value, args, world), args[i - 256], world)
            && (args[i] != args[i - 256] ==> !Returns(l.value, Entry(l.value, args, world), args[i], world))
  {
    hide Returns, Evaluates, CompileLambda, NewFrame, Lands, Arguments;
    SymbolValue(efuns, names, args, i, world);
    var l := SymbolClosure(efuns, names, i);
    NoneToLand();
    SymbolReturns(efuns, names, i, args, world, l);
    AliasSlot(|names|, i, args);
  }

  lemma AliasSlot(n: nat, i: nat, args: seq<Value>)
    requires 256 <= i < n == |args| < 0x180
    ensures var slots := NewFrame(n % 256, n % 256, args); i % 256 < |slots| && slots[i % 256] == args[i - 256]
  {
    assert n % 256 == n - 256 && i % 256 == i - 256;
  }

  // ----- when values are found

  /** A value is found again by its long index if and only if that fits into 16 bits. */
  lemma ValueIndexIff(ix: nat)
    ensures var hi: int, lo: int := Short(ix)[0], Short(ix)[1];
            hi * 256 + lo == ix % 0x1_0000 && (hi * 256 + lo == ix <==> ix <= 0xffff)
  {
    var u := ix % 0x1_0000;
    assert ix / 256 % 256 == u / 256 && ix % 256 == u % 256;
  }

  predicate NoNumbers(vs: seq<Value>) {
    forall i :: 0 <= i < |vs| ==> !vs[i].Num?
  }

  /** `vs[0], vs[1], ...` */
  function Constants(vs: seq<Value>): (ts: seq<Tree>)
    ensures |ts| == |vs|
  {
    seq(|vs|, i requires 0 <= i < |vs| => Const(vs[i]))
  }

  /** The value block after pushing values that are no numbers. */
  function Pushed(values: seq<Value>, vs: seq<Value>): (r: seq<Value>)
    ensures values <= r
    ensures |r| == |values| + |vs| + if |values| <= 0xff < |values| + |vs| then 1 else 0
    decreases |vs|
  {
    if vs == [] then values else Pushed(ReservedSlot(values) + [vs[0]], vs[1..])
  }

  lemma {:induction false} ConstantsCode(efuns: Efuns, vs: seq<Value>, f: Accept, lv: nat, tb: Tables)
    requires lv > 1 && vs != [] && NoNumbers(vs)
    ensures var r := CompileComma(efuns, Constants(vs), f, lv, tb);
            r.Ok? && r.value.tables == tb.(values := Pushed(tb.values, vs)) && !r.value.void && r.value.conds == {}
    decreases |vs|
  {
    var ts := Constants(vs);
    assert ts[0] == Const(vs[0]);
    if |vs| > 1 {
      assert ts[1..] == Constants(vs[1..]);
      ConstantsCode(efuns, vs[1..], f, lv, ValuePush(vs[0], tb).tables);
    } else {
      assert vs[1..] == [];
    }
  }

  lemma PushConstant(cx: Context, v: Value, tb: Tables, a: int, s: State) returns (t: State)
    requires At(cx.c.code, a, ValuePush(v, tb).code) && s.pc == a && ValuePush(v, tb).tables.values <= cx.c.values
    ensures var ix := |ReservedSlot(tb.values)|;
            && ix < |cx.c.values| && Step(cx.c, s) == Some(t)
            && t == s.(pc := a + |ValuePush(v, tb).code|, stack := Push(Val(cx.c.values[ix % 0x1_0000]), s.stack))
  {
    var ix := |ReservedSlot(tb.values)|;
    ValueIndexIff(ix);
    if |tb.values| < 0xff {
      t := ByteStep(cx, F_LAMBDA_CCONSTANT, ix, s);
    } else {
      t := ShortStep(cx, F_LAMBDA_CONSTANT, ix, s);
    }
  }

  /** Each value is pushed, and all but the last one are popped again. */
  lemma {:induction false} RunConstants(cx: Context, vs: seq<Value>, f: Accept, lv: nat, tb: Tables, a: int, s: State)
    returns (n: nat, t: State)
    requires lv > 1 && vs != [] && NoNumbers(vs) && s.pc == a && cx.c.values == Pushed(tb.values, vs)
    requires var r := CompileComma(cx.c.efuns, Constants(vs), f, lv, tb); r.Ok? && At(cx.c.code, a, r.value.code)
    ensures var r := CompileComma(cx.c.efuns, Constants(vs), f, lv, tb);
            && Run(cx.c, n, s) == Some(t) && cx.c.values != []
            && t == s.(pc := a + |r.value.code|, stack := Push(Val(cx.c.values[(|cx.c.values| - 1) % 0x1_0000]), s.stack))
    decreases |vs|
  {
    hide Step, Run, At, Pushed, CompileComma, Constants, ReservedSlot;
    var o := ValuePush(vs[0], tb);
    PushedFirst(tb, vs);
    ConstantFirst(cx.c.efuns, vs, f, lv, tb);
    if |vs| == 1 {
      t := PushConstant(cx, vs[0], tb, a, s);
      n := 1;
      FirstStep(cx.c, s, t);
    } else {
      var rest := CompileComma(cx.c.efuns, Constants(vs[1..]), f, lv, o.tables).value;
      AtSplit(cx.c.code, a, o.code + [F_POP_VALUE], rest.code);
      AtSplit(cx.c.code, a, o.code, [F_POP_VALUE]);
      var u := PushConstant(cx, vs[0], tb, a, s);
      FirstStep(cx.c, s, u);
      var w := PlainStep(cx, F_POP_VALUE, u);
      ThenStep(cx.c, 1, s, u, w);
      var m;
      m, t := RunConstants(cx, vs[1..], f, lv, o.tables, a + |o.code| + 1, w);
      Then(cx.c, 2, m, s, w, t);
      n := 2 + m;
    }
  }

  lemma ConstantFirst(efuns: Efuns, vs: seq<Value>, f: Accept, lv: nat, tb: Tables)
    requires lv > 1 && vs != [] && NoNumbers(vs)
    ensures var r := CompileComma(efuns, Constants(vs), f, lv, tb);
            var o := ValuePush(vs[0], tb);
            && (|vs| == 1 ==> r == Ok(o))
            && (|vs| > 1 && r.Ok? ==>
                  var rest := CompileComma(efuns, Constants(vs[1..]), f, lv, o.tables);
                  rest.Ok? && r.value.code == o.code + [F_POP_VALUE] + rest.value.code)
  {
    var ts := Constants(vs);
    assert ts[0] == Const(vs[0]);
    if |vs| > 1 {
      assert ts[1..] == Constants(vs[1..]);
    }
  }

  lemma PushedFirst(tb: Tables, vs: seq<Value>)
    requires vs != [] && NoNumbers(vs)
    ensures var o := ValuePush(vs[0], tb);
            && Pushed(tb.values, vs) == Pushed(o.tables.values, vs[1..]) && o.tables.values <= Pushed(tb.values, vs)
            && |o.tables.values| == |ReservedSlot(tb.values)| + 1
            && (|vs| == 1 ==> Pushed(tb.values, vs) == o.tables.values)
  {
  }

  lemma {:induction false} ConstantsValue(efuns: Efuns, vs: seq<Value>, env: Env)
    requires vs != []
    ensures EvalComma(efuns, Constants(vs), env, 0) == Some(Outcome(vs[|vs| - 1], env))
    decreases |vs|
  {
    var ts := Constants(vs);
    assert ts[0] == Const(vs[0]);
    if |vs| > 1 {
      assert ts[1..] == Constants(vs[1..]);
      ConstantsValue(efuns, vs[1..], env);
    }
  }

  lemma ConstantsClosure(efuns: Efuns, vs: seq<Value>) returns (l: Lambda, o: Out)
    requires |vs| == 0x1_0000 && NoNumbers(vs)
    ensures CompileLambda(efuns, [], Comma(Constants(vs))) == Ok(l)
    ensures CompileComma(efuns, Constants(vs), NOTHING.(zero := true), MAX_LAMBDA_LEVELS - 1, Tables([], [])) == Ok(o)
    ensures |l.closure.code| == 3 + |o.code| + 1 && l.closure.code == l.closure.code[..3] + o.code + [F_RETURN]
    ensures l.closure.values == Pushed([], vs) && l.closure.efuns == efuns && l.conds == {}
  {
    var body, tb, f := Comma(Constants(vs)), Tables([], []), NOTHING.(zero := true);
    ConstantsCode(efuns, vs, f, MAX_LAMBDA_LEVELS - 1, tb);
    hide CompileComma, Constants, Pushed;
    o := CompileComma(efuns, Constants(vs), f, MAX_LAMBDA_LEVELS - 1, tb).value;
    assert Compile(efuns, body, f, MAX_LAMBDA_LEVELS, tb) == Ok(o);
    hide Compile;
    l := CompileLambda(efuns, [], body).value;
  }

  lemma AtCode(code: Code, part: Code, last: Byte)
    requires |code| == 3 + |part| + 1 && code == code[..3] + part + [last]
    ensures At(code, 3, part) && code[3 + |part|] == last
  {
    Whole(code);
    AtSplit(code, 0, code[..3] + part, [last]);
    AtSplit(code, 0, code[..3], part);
    Fetch(code, 3 + |part|, [last]);
  }

  lemma FirstPushed(vs: seq<Value>)
    requires |vs| == 0x1_0000 && NoNumbers(vs)
    ensures |Pushed([], vs)| == 0x1_0001 && Pushed([], vs)[0] == vs[0]
  {
    assert ReservedSlot([]) + [vs[0]] == [vs[0]];
  }

  lemma ConstantsEvaluate(efuns: Efuns, vs: seq<Value>, world: World)
    requires vs != []
    ensures Evaluates(efuns, Comma(Constants(vs)), Env(Arguments([], []), world), vs[|vs| - 1], world)
  {
    var env := Env(Arguments([], []), world);
    ConstantsValue(efuns, vs, env);
    hide EvalComma, Constants;
    assert Eval(efuns, Comma(Constants(vs)), env, 0) == Some(Outcome(vs[|vs| - 1], env));
  }

  /** A closure of 65536 values should return the last one, but takes the first one for it. */
  lemma ValuesAlias(efuns: Efuns, vs: seq<Value>, world: World)
    requires |vs| == 0x1_0000 && NoNumbers(vs)
    ensures var body := Comma(Constants(vs));
            var l := CompileLambda(efuns, [], body);
            && l.Ok? && Lands(l.value.conds)
            && Evaluates(efuns, body, Env(Arguments([], []), world), vs[0xffff], world)
            && Returns(l.value, Entry(l.value, [], world), vs[0], world)
            && (vs[0] != vs[0xffff] ==> !Returns(l.value, Entry(l.value, [], world), vs[0xffff], world))
  {
    hide CompileComma, Eval, EvalComma, Run, Step, At, Constants, Lands, Pushed, NewFrame, CompileLambda, Compile, Evaluates, Returns;
    var body, tb, f := Comma(Constants(vs)), Tables([], []), NOTHING.(zero := true);
    ConstantsCode(efuns, vs, f, MAX_LAMBDA_LEVELS - 1, tb);
    var l, o := ConstantsClosure(efuns, vs);
    var cx := Context(l.closure, []);
    var s := Entry(l, [], world);
    AtCode(l.closure.code, o.code, F_RETURN);
    var n, t := RunConstants(cx, vs, f, MAX_LAMBDA_LEVELS - 1, tb, 3, s);
    FirstPushed(vs);
    OnlyReturn(l, s, n, t);
    NoneToLand();
    ConstantsEvaluate(efuns, vs, world);
  }
}
