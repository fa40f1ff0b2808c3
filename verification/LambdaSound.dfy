/** Compiled code does what the tree means.

    One simulation covers both directions: if evaluation finishes, the code runs to its end with
    the same effects and result; if evaluation uses up `fuel`, the code runs for at least that many
    instructions. So the code runs forever exactly when evaluation does. */
module LambdaSound {
  import opened Wrappers
  import opened Bytecode
  import opened LambdaTree
  import opened LambdaCompile

  /** A closure and its local variables. */
  datatype Context = Context(c: Closure, frame: Symbols)

  ghost predicate At(code: Code, a: int, part: Code) {
    0 <= a && a + |part| <= |code| && code[a..a + |part|] == part
  }

  lemma AtSplit(code: Code, a: int, x: Code, y: Code)
    requires At(code, a, x + y)
    ensures At(code, a, x) && At(code, a + |x|, y)
  {
    assert code[a..a + |x|] == (x + y)[..|x|] == x;
    assert code[a + |x|..a + |x| + |y|] == (x + y)[|x|..] == y;
  }

  /** The bytes of an instruction, as the interpreter fetches them. */
  lemma Fetch(code: Code, a: int, part: Code)
    requires At(code, a, part)
    ensures |part| > 0 ==> code[a] == part[0]
    ensures |part| > 1 ==> code[a + 1] == part[1]
    ensures |part| > 2 ==> code[a + 2] == part[2]
  {
    if |part| > 0 { assert code[a..a + |part|][0] == part[0]; }
    if |part| > 1 { assert code[a..a + |part|][1] == part[1]; }
    if |part| > 2 { assert code[a..a + |part|][2] == part[2]; }
  }

  /** The finished closure contains all values and symbols of `tb`. */
  ghost predicate Covers(cx: Context, tb: Tables) {
    && tb.values <= cx.c.values && |cx.c.values| <= 0x1_0000
    && tb.symbols <= cx.frame && |cx.frame| <= 256
  }

  lemma CoversBack(cx: Context, tb: Tables, tb': Tables)
    requires Grows(tb, tb') && Covers(cx, tb')
    ensures Covers(cx, tb)
  {
  }

  ghost predicate Agree(cx: Context, s: State, env: Env) {
    && s.world == env.world
    && |cx.frame| <= |s.locals|
    && forall i :: 0 <= i < |cx.frame| ==> s.locals[i] == Lookup(env.vars, cx.frame[i])
  }

  lemma AgreeKept(cx: Context, s: State, s': State, env: Env)
    requires Agree(cx, s, env) && s'.locals == s.locals && s'.world == s.world
    ensures Agree(cx, s', env)
  {
  }

  /** The value on the stack is the result, or equivalent to it as far as the caller can tell. */
  predicate Matches(w: Value, v: Value, neg: bool, negateAccepted: bool) {
    if negateAccepted then IsZero(w) == (IsZero(v) != neg) else !neg && w == v
  }

  ghost predicate Leaves(s: State, s': State, f: Accept, void: bool, neg: bool, v: Value) {
    if void then s'.stack == s.stack && (f.void || (f.zero && v == Num(0)))
    else s'.stack.Push? && s'.stack.rest == s.stack && s'.stack.top.Val? && Matches(s'.stack.top.v, v, neg, f.negate)
  }

  /** `n` instructions lead from `s` to `s'`; either evaluation has finished as well, or `fuel` was too small. */
  ghost predicate Simulates(cx: Context, s: State, n: nat, s': State, end: int, f: Accept, void: bool, neg: bool,
                            fuel: nat, r: Option<Outcome>) {
    && Run(cx.c, n, s) == Some(s')
    && match r
       case None => n >= fuel
       case Some(o) => s'.pc == end && Agree(cx, s', o.env) && Leaves(s, s', f, void, neg, o.v)
  }

  /** The same for code that leaves nothing on the stack and whose value does not matter. */
  ghost predicate SimulatesAll(cx: Context, s: State, n: nat, s': State, end: int, fuel: nat, r: Option<Env>) {
    && Run(cx.c, n, s) == Some(s')
    && match r
       case None => n >= fuel
       case Some(e) => s'.pc == end && Agree(cx, s', e) && s'.stack == s.stack
  }

  ghost predicate Ready(cx: Context, r: Result<Out, CompileError>, a: int, s: State, env: Env) {
    && r.Ok? && Lands(r.value.conds)
    && Covers(cx, r.value.tables)
    && At(cx.c.code, a, r.value.code)
    && s.pc == a
    && Agree(cx, s, env)
  }

  lemma LandsBoth(a: set<Conditional>, b: set<Conditional>)
    ensures Lands(a + b) <==> Lands(a) && Lands(b)
  {
    hide AllLand, Layout, WellEnded;
    assert forall c :: c in a ==> c in a + b;
    assert forall c :: c in b ==> c in a + b;
  }

  lemma NoneToLand()
    ensures Lands({})
  {
  }

  lemma LandsOneIff(codes: seq<PairCode>, e: Ending)
    ensures Lands({Conditional(codes, e)}) <==> WellEnded(e) && Layout(0, codes, e).Ok? && AllLand(0, codes, e)
  {
    var c := Conditional(codes, e);
    assert c in {c};
  }

  lemma Then(c: Closure, n: nat, m: nat, s: State, t: State, u: State)
    requires Run(c, n, s) == Some(t) && Run(c, m, t) == Some(u)
    ensures Run(c, n + m, s) == Some(u)
  {
    RunCompose(c, n, m, s);
  }

  lemma ThenStep(c: Closure, n: nat, s: State, t: State, u: State)
    requires Run(c, n, s) == Some(t) && Step(c, t) == Some(u)
    ensures Run(c, n + 1, s) == Some(u)
  {
    assert Run(c, 1, t) == Some(u);
    RunCompose(c, n, 1, s);
  }

  lemma FirstStep(c: Closure, s: State, t: State)
    requires Step(c, s) == Some(t)
    ensures Run(c, 1, s) == Some(t)
  {
    assert Run(c, 0, t) == Some(t);
  }

  lemma NoStep(c: Closure, s: State)
    ensures Run(c, 0, s) == Some(s)
  {
  }

  /** Execute an instruction without operand. */
  lemma PlainStep(cx: Context, op: Byte, s: State) returns (t: State)
    requires At(cx.c.code, s.pc, [op]) && !IsShortOp(op) && !IsByteOp(op)
    requires StepPlain(cx.c, op, s).Some?
    ensures Step(cx.c, s) == Some(t) && StepPlain(cx.c, op, s) == Some(t)
  {
    Fetch(cx.c.code, s.pc, [op]);
    t := StepPlain(cx.c, op, s).value;
  }

  lemma ByteStep(cx: Context, op: Byte, b: Byte, s: State) returns (t: State)
    requires At(cx.c.code, s.pc, [op, b]) && IsByteOp(op)
    requires StepByte(cx.c, op, b, s).Some?
    ensures Step(cx.c, s) == Some(t) && StepByte(cx.c, op, b, s) == Some(t)
  {
    Fetch(cx.c.code, s.pc, [op, b]);
    t := StepByte(cx.c, op, b, s).value;
  }

  lemma ShortStep(cx: Context, op: Byte, stored: int, s: State) returns (t: State)
    requires At(cx.c.code, s.pc, [op] + Short(stored)) && IsShortOp(op)
    requires StepShort(cx.c, op, Short(stored)[0], Short(stored)[1], s).Some?
    ensures Step(cx.c, s) == Some(t) && StepShort(cx.c, op, Short(stored)[0], Short(stored)[1], s) == Some(t)
  {
    Fetch(cx.c.code, s.pc, [op] + Short(stored));
    t := StepShort(cx.c, op, Short(stored)[0], Short(stored)[1], s).value;
  }

  // ----- leaves

  lemma SimConst(cx: Context, v: Value, f: Accept, tb: Tables, a: int, s: State, env: Env, fuel: nat)
    returns (n: nat, s': State)
    requires Ready(cx, Ok(ConstCode(v, f, tb)), a, s, env)
    ensures var o := ConstCode(v, f, tb);
            Simulates(cx, s, n, s', a + |o.code|, f, o.void, o.neg, fuel, Some(Outcome(v, env)))
  {
    var o := ConstCode(v, f, tb);
    if o.void {
      n, s' := 0, s;
      NoStep(cx.c, s);
    } else {
      if !v.Num? || v.n <= -0x100 || v.n >= 0x100 {
        s' := SimValuePush(cx, v, tb, s);
      } else if v.n < 0 || v.n > 1 {
        s' := ByteStep(cx, o.code[0], o.code[1], s);
      } else {
        s' := PlainStep(cx, o.code[0], s);
      }
      n := 1;
      FirstStep(cx.c, s, s');
    }
  }

  lemma SimValuePush(cx: Context, v: Value, tb: Tables, s: State) returns (s': State)
    requires At(cx.c.code, s.pc, ValuePush(v, tb).code) && Covers(cx, ValuePush(v, tb).tables)
    ensures Step(cx.c, s) == Some(s') && PushValue(s, s.pc + |ValuePush(v, tb).code|, v) == Some(s')
  {
    var o := ValuePush(v, tb);
    var ix := |o.tables.values| - 1;
    assert o.tables.values[ix] == v;
    if |tb.values| < 0xff {
      s' := ByteStep(cx, F_LAMBDA_CCONSTANT, ix, s);
    } else {
      assert ix < 0x1_0000;
      s' := ShortStep(cx, F_LAMBDA_CONSTANT, ix, s);
    }
  }

  lemma SimSymbol(cx: Context, name: Name, f: Accept, tb: Tables, a: int, s: State, env: Env, fuel: nat)
    returns (n: nat, s': State)
    requires name in tb.symbols
    requires Ready(cx, Ok(Out([F_LOCAL, LocalByte(IndexOf(tb.symbols, name))], tb, false, false, {})), a, s, env)
    ensures Simulates(cx, s, n, s', a + 2, f, false, false, fuel, Some(Outcome(Lookup(env.vars, name), env)))
  {
    var ix := IndexOf(tb.symbols, name);
    assert cx.frame[ix] == name;
    s' := ByteStep(cx, F_LOCAL, ix, s);
    n := 1;
    FirstStep(cx.c, s, s');
  }

  // ----- all trees

  /** Compiling and evaluating a block is decided by its operator. */
  lemma Dispatch(efuns: Efuns, t: Tree, f: Accept, lv: nat, tb: Tables, env: Env, fuel: nat)
    requires lv > 0 && Compile(efuns, t, f, lv, tb).Ok?
    ensures lv > 1
    ensures var c := Compile(efuns, t, f, lv, tb);
            var e := Eval(efuns, t, env, fuel);
            match t
            case Const(v) => c == Ok(ConstCode(v, f, tb)) && e == Some(Outcome(v, env))
            case Symbol(name) =>
              && name in tb.symbols
              && c == Ok(Out([F_LOCAL, LocalByte(IndexOf(tb.symbols, name))], tb, false, false, {}))
              && e == Some(Outcome(Lookup(env.vars, name), env))
            case Efun(_, _) => c == CompileEfun(efuns, t, f, lv - 1, tb) && e == EvalEfun(efuns, t, env, fuel)
            case Comma(exprs) =>
              if exprs == [] then c == Ok(ConstCode(Num(0), f, tb)) && e == Some(Outcome(Num(0), env))
              else c == CompileComma(efuns, exprs, f, lv - 1, tb) && e == EvalComma(efuns, exprs, env, fuel)
            case Not(_) => c == CompileNot(efuns, t, f, lv - 1, tb) && e == EvalNot(efuns, t, env, fuel)
            case Land(isAnd, exprs) =>
              c == CompileLand(efuns, isAnd, exprs, f.void, lv - 1, tb) && e == EvalLand(efuns, isAnd, exprs, env, fuel)
            case LandEq(_, _, _) => c == CompileLandEq(efuns, t, lv - 1, tb) && e == EvalLandEq(efuns, t, env, fuel)
            case Assign(targets) =>
              && targets != []
              && c == CompileAssign(efuns, targets, f.void, lv - 1, tb) && e == EvalAssign(efuns, targets, env, fuel)
            case Cond(_, _, _, _) => c == CompileCond(efuns, t, f, lv - 1, tb) && e == EvalCond(efuns, t, env, fuel)
            case Do(_, _, _) => c == CompileDo(efuns, t, f, lv - 1, tb) && e == EvalDo(efuns, t, env, fuel)
            case While(_, _, _) => c == CompileWhile(efuns, t, f, lv - 1, tb) && e == EvalWhile(efuns, t, env, fuel)
  {
  }

  lemma {:induction false} Sim(cx: Context, t: Tree, f: Accept, lv: nat, tb: Tables, a: int, s: State, env: Env, fuel: nat)
    returns (n: nat, s': State)
    requires lv > 0
    requires Ready(cx, Compile(cx.c.efuns, t, f, lv, tb), a, s, env)
    ensures var o := Compile(cx.c.efuns, t, f, lv, tb).value;
            Simulates(cx, s, n, s', a + |o.code|, f, o.void, o.neg, fuel, Eval(cx.c.efuns, t, env, fuel))
    decreases fuel, t, 3
  {
    hide *;
    ReadyOk(cx, Compile(cx.c.efuns, t, f, lv, tb), a, s, env);
    Dispatch(cx.c.efuns, t, f, lv, tb, env, fuel);
    match t
    case Const(v) => n, s' := SimConst(cx, v, f, tb, a, s, env, fuel);
    case Symbol(name) => n, s' := SimSymbol(cx, name, f, tb, a, s, env, fuel);
    case Efun(_, _) => n, s' := SimEfun(cx, t, f, lv - 1, tb, a, s, env, fuel);
    case Comma(exprs) =>
      if exprs == [] {
        n, s' := SimConst(cx, Num(0), f, tb, a, s, env, fuel);
      } else {
        n, s' := SimComma(cx, exprs, f, lv - 1, tb, a, s, env, fuel);
      }
    case Not(expr) => n, s' := SimNot(cx, t, f, lv - 1, tb, a, s, env, fuel);
    case Land(isAnd, exprs) => n, s' := SimLand(cx, isAnd, exprs, f, lv - 1, tb, a, s, env, fuel);
    case LandEq(_, _, _) => n, s' := SimLandEq(cx, t, f, lv - 1, tb, a, s, env, fuel);
    case Assign(targets) => n, s' := SimAssign(cx, targets, f, lv - 1, tb, a, s, env, fuel);
    case Cond(_, _, _, _) => n, s' := SimCond(cx, t, f, lv - 1, tb, a, s, env, fuel);
    case Do(_, _, _) => n, s' := SimDo(cx, t, f, lv - 1, tb, a, s, env, fuel);
    case While(_, _, _) => n, s' := SimWhile(cx, t, f, lv - 1, tb, a, s, env, fuel);
  }

  lemma ReadyOk(cx: Context, r: Result<Out, CompileError>, a: int, s: State, env: Env)
    requires Ready(cx, r, a, s, env)
    ensures r.Ok?
  {
  }

  lemma {:induction false} SimNot(cx: Context, t: Tree, f: Accept, lv: nat, tb: Tables, a: int, s: State, env: Env, fuel: nat)
    returns (n: nat, s': State)
    requires lv > 0 && t.Not?
    requires Ready(cx, CompileNot(cx.c.efuns, t, f, lv, tb), a, s, env)
    ensures var o := CompileNot(cx.c.efuns, t, f, lv, tb).value;
            Simulates(cx, s, n, s', a + |o.code|, f, o.void, o.neg, fuel, EvalNot(cx.c.efuns, t, env, fuel))
    decreases fuel, t, 0
  {
    hide Compile, Eval, Run, Step, At;
    var f' := f.(zero := false);
    var o := Compile(cx.c.efuns, t.expr, f', lv, tb).value;
    if f.negate || o.void {
      n, s' := Sim(cx, t.expr, f', lv, tb, a, s, env, fuel);
    } else {
      AtSplit(cx.c.code, a, o.code, [F_NOT]);
      n, s' := Sim(cx, t.expr, f', lv, tb, a, s, env, fuel);
      if Eval(cx.c.efuns, t.expr, env, fuel).Some? {
        var u := PlainStep(cx, F_NOT, s');
        ThenStep(cx.c, n, s, s', u);
        n, s' := n + 1, u;
      }
    }
  }

  lemma {:induction false} SimEach(cx: Context, ts: seq<Tree>, lv: nat, tb: Tables, a: int, s: State, env: Env, fuel: nat)
    returns (n: nat, s': State)
    requires lv > 0
    requires Ready(cx, CompileEach(cx.c.efuns, ts, lv, tb), a, s, env)
    ensures Run(cx.c, n, s) == Some(s')
    ensures match EvalEach(cx.c.efuns, ts, env, fuel)
            case None => n >= fuel
            case Some((vs, e)) =>
              && s'.pc == a + |CompileEach(cx.c.efuns, ts, lv, tb).value.code|
              && Agree(cx, s', e) && |vs| == |ts|
              && s'.stack == PushAll(vs, s.stack)
    decreases fuel, ts, 0
  {
    hide Compile, Eval, Run, Step, At, Lands;
    if ts == [] {
      n, s' := 0, s;
      NoStep(cx.c, s);
    } else {
      var o := Compile(cx.c.efuns, ts[0], NOTHING, lv, tb).value;
      var rest := CompileEach(cx.c.efuns, ts[1..], lv, o.tables).value;
      LandsBoth(o.conds, rest.conds);
      CoversBack(cx, o.tables, rest.tables);
      AtSplit(cx.c.code, a, o.code, rest.code);
      n, s' := Sim(cx, ts[0], NOTHING, lv, tb, a, s, env, fuel);
      match Eval(cx.c.efuns, ts[0], env, fuel)
      case None =>
      case Some(r) =>
        var m, u := SimEach(cx, ts[1..], lv, o.tables, a + |o.code|, s', r.env, fuel);
        Then(cx.c, n, m, s, s', u);
        n, s' := n + m, u;
    }
  }

  function PushAll(vs: seq<Value>, stack: Stack): Stack {
    if vs == [] then stack else PushAll(vs[1..], Push(Val(vs[0]), stack))
  }

  /** An efun finds its arguments in the order in which they were pushed. */
  lemma {:induction false} PopPushed(vs: seq<Value>, stack: Stack)
    ensures PopArgs(|vs|, PushAll(vs, stack)) == Some((vs, stack))
  {
    if vs != [] {
      assert PopArgs(0, stack) == Some(([], stack));
      assert [] + [vs[0]] == [vs[0]];
      PopPushedOnto(vs[1..], [vs[0]], Push(Val(vs[0]), stack), stack);
      assert [vs[0]] + vs[1..] == vs;
    }
  }

  lemma {:induction false} PopPushedOnto(vs: seq<Value>, below: seq<Value>, stack: Stack, bottom: Stack)
    requires PopArgs(|below|, stack) == Some((below, bottom))
    ensures PopArgs(|below| + |vs|, PushAll(vs, stack)) == Some((below + vs, bottom))
  {
    if vs == [] {
      assert below + vs == below;
    } else {
      PopPushedOnto(vs[1..], below + [vs[0]], Push(Val(vs[0]), stack), bottom);
      assert below + [vs[0]] + vs[1..] == below + vs;
    }
  }

  lemma AfterCall(cx: Context, s: State, s': State, k: EfunId, vs: seq<Value>, env: Env)
    requires Agree(cx, s, env) && s'.locals == s.locals && s'.world == s.world + [(k, vs)]
    ensures Agree(cx, s', env.(world := env.world + [(k, vs)])) && s.world == env.world
  {
  }

  lemma {:induction false} SimEfun(cx: Context, t: Tree, f: Accept, lv: nat, tb: Tables, a: int, s: State, env: Env, fuel: nat)
    returns (n: nat, s': State)
    requires lv > 0 && t.Efun?
    requires Ready(cx, CompileEfun(cx.c.efuns, t, f, lv, tb), a, s, env)
    ensures var o := CompileEfun(cx.c.efuns, t, f, lv, tb).value;
            Simulates(cx, s, n, s', a + |o.code|, f, o.void, o.neg, fuel, EvalEfun(cx.c.efuns, t, env, fuel))
    decreases fuel, t, 0
  {
    hide Compile, Eval, Run, Step, At, Agree, Covers, Grows, PopArgs, PushAll, StepByte, StepShort, Lands;
    var o := CompileEach(cx.c.efuns, t.args, lv, tb).value;
    var r := CompileEfun(cx.c.efuns, t, f, lv, tb).value;
    var op: Byte := FIRST_EFUN + t.k;
    if r.code != o.code + [op] {
      AtSplit(cx.c.code, a, o.code + [op], [F_CONST0]);
    }
    AtSplit(cx.c.code, a, o.code, [op]);
    n, s' := SimEach(cx, t.args, lv, tb, a, s, env, fuel);
    match EvalEach(cx.c.efuns, t.args, env, fuel)
    case None =>
    case Some((vs, e)) =>
      PopPushed(vs, s.stack);
      var u := PlainStep(cx, op, s');
      AfterCall(cx, s', u, t.k, vs, e);
      ThenStep(cx.c, n, s, s', u);
      n, s' := n + 1, u;
      if r.code != o.code + [op] {
        u := PlainStep(cx, F_CONST0, s');
        AgreeKept(cx, s', u, e.(world := e.world + [(t.k, vs)]));
        ThenStep(cx.c, n, s, s', u);
        n, s' := n + 1, u;
      }
  }

  /** An expression of which only the effect is wanted, followed by a POP if it left a result. */
  lemma {:induction false} SimPopped(cx: Context, t: Tree, f: Accept, lv: nat, tb: Tables, a: int, s: State, env: Env, fuel: nat)
    returns (n: nat, s': State)
    requires lv > 0
    requires var r := Compile(cx.c.efuns, t, f, lv, tb);
             r.Ok? && Ready(cx, Ok(r.value.(code := Popped(r.value))), a, s, env)
    ensures var o := Compile(cx.c.efuns, t, f, lv, tb).value;
            var r := Eval(cx.c.efuns, t, env, fuel);
            SimulatesAll(cx, s, n, s', a + |Popped(o)|, fuel, if r.None? then None else Some(r.value.env))
    decreases fuel, t, 4
  {
    hide Compile, Eval, Run, Step, At, Lands;
    var o := Compile(cx.c.efuns, t, f, lv, tb).value;
    if !o.void {
      AtSplit(cx.c.code, a, o.code, [F_POP_VALUE]);
    }
    n, s' := Sim(cx, t, f, lv, tb, a, s, env, fuel);
    if !o.void && Eval(cx.c.efuns, t, env, fuel).Some? {
      var u := PlainStep(cx, F_POP_VALUE, s');
      ThenStep(cx.c, n, s, s', u);
      n, s' := n + 1, u;
    }
  }

  lemma {:induction false} SimAll(cx: Context, ts: seq<Tree>, lv: nat, tb: Tables, a: int, s: State, env: Env, fuel: nat)
    returns (n: nat, s': State)
    requires lv > 0
    requires Ready(cx, CompileAll(cx.c.efuns, ts, lv, tb), a, s, env)
    ensures SimulatesAll(cx, s, n, s', a + |CompileAll(cx.c.efuns, ts, lv, tb).value.code|, fuel,
                         EvalAll(cx.c.efuns, ts, env, fuel))
    decreases fuel, ts, 3
  {
    hide Compile, Eval, Run, Step, At, Lands;
    if ts == [] {
      n, s' := 0, s;
      NoStep(cx.c, s);
    } else {
      var o := Compile(cx.c.efuns, ts[0], VOID_WANTED, lv, tb).value;
      var rest := CompileAll(cx.c.efuns, ts[1..], lv, o.tables).value;
      LandsBoth(o.conds, rest.conds);
      CoversBack(cx, o.tables, rest.tables);
      AtSplit(cx.c.code, a, Popped(o), rest.code);
      n, s' := SimPopped(cx, ts[0], VOID_WANTED, lv, tb, a, s, env, fuel);
      match Eval(cx.c.efuns, ts[0], env, fuel)
      case None =>
      case Some(r) =>
        var m, u := SimAll(cx, ts[1..], lv, o.tables, a + |Popped(o)|, s', r.env, fuel);
        Then(cx.c, n, m, s, s', u);
        n, s' := n + m, u;
    }
  }

  lemma {:induction false} SimComma(cx: Context, ts: seq<Tree>, f: Accept, lv: nat, tb: Tables, a: int, s: State, env: Env, fuel: nat)
    returns (n: nat, s': State)
    requires lv > 0 && ts != []
    requires Ready(cx, CompileComma(cx.c.efuns, ts, f, lv, tb), a, s, env)
    ensures var o := CompileComma(cx.c.efuns, ts, f, lv, tb).value;
            Simulates(cx, s, n, s', a + |o.code|, f, o.void, o.neg, fuel, EvalComma(cx.c.efuns, ts, env, fuel))
    decreases fuel, ts, 3
  {
    hide Compile, Eval, Run, Step, At, Lands;
    if |ts| == 1 {
      n, s' := Sim(cx, ts[0], f, lv, tb, a, s, env, fuel);
    } else {
      var o := Compile(cx.c.efuns, ts[0], VOID_WANTED, lv, tb).value;
      var rest := CompileComma(cx.c.efuns, ts[1..], f, lv, o.tables).value;
      LandsBoth(o.conds, rest.conds);
      CoversBack(cx, o.tables, rest.tables);
      AtSplit(cx.c.code, a, Popped(o), rest.code);
      n, s' := SimPopped(cx, ts[0], VOID_WANTED, lv, tb, a, s, env, fuel);
      match Eval(cx.c.efuns, ts[0], env, fuel)
      case None =>
      case Some(r) =>
        var m, u := SimComma(cx, ts[1..], f, lv, o.tables, a + |Popped(o)|, s', r.env, fuel);
        Then(cx.c, n, m, s, s', u);
        n, s' := n + m, u;
    }
  }

  // ----- assignments

  /** Executing `<value> <lvalue> ASSIGN` changes exactly the named variable. */
  lemma SimStore(cx: Context, name: Name, tb: Tables, op: Byte, a: int, s: State, env: Env, v: Value)
    returns (s': State)
    requires name in tb.symbols && Covers(cx, tb)
    requires op == F_ASSIGN || op == F_VOID_ASSIGN
    requires At(cx.c.code, a, LvalueCode(name, tb) + [op])
    requires s.pc == a && Agree(cx, s, env) && s.stack.Push? && s.stack.top == Val(v)
    ensures Run(cx.c, 2, s) == Some(s') && s'.pc == a + 3
    ensures Agree(cx, s', Assigned(env, name, v))
    ensures s'.stack == if op == F_ASSIGN then s.stack else s.stack.rest
  {
    AtSplit(cx.c.code, a, LvalueCode(name, tb), [op]);
    var t := ByteStep(cx, F_PUSH_LOCAL_VARIABLE_LVALUE, IndexOf(tb.symbols, name), s);
    FirstStep(cx.c, s, t);
    s' := PlainStep(cx, op, t);
    FirstStep(cx.c, t, s');
    Then(cx.c, 1, 1, s, t, s');
  }

  /** One assignment of several. */
  lemma {:induction false} SimTarget(cx: Context, target: Target, op: Byte, lv: nat, tb: Tables, a: int, s: State, env: Env, fuel: nat)
    returns (n: nat, s': State)
    requires lv > 0 && (op == F_ASSIGN || op == F_VOID_ASSIGN)
    requires var r := Compile(cx.c.efuns, target.expr, NOTHING, lv, tb);
             r.Ok? && Lands(r.value.conds) && var tb' := BindLocal(target.name, r.value.tables);
             && Covers(cx, tb')
             && At(cx.c.code, a, r.value.code + LvalueCode(target.name, tb') + [op])
    requires s.pc == a && Agree(cx, s, env)
    ensures Run(cx.c, n, s) == Some(s')
    ensures var o := Compile(cx.c.efuns, target.expr, NOTHING, lv, tb).value;
            match Eval(cx.c.efuns, target.expr, env, fuel)
            case None => n >= fuel
            case Some(r) =>
              && s'.pc == a + |o.code| + 3 && Agree(cx, s', Assigned(r.env, target.name, r.v))
              && s'.stack == if op == F_ASSIGN then Push(Val(r.v), s.stack) else s.stack
    decreases fuel, target, 0
  {
    hide Compile, Eval, Run, Step, At, StepPlain, StepByte, StepShort, Agree;
    var o := Compile(cx.c.efuns, target.expr, NOTHING, lv, tb).value;
    var tb' := BindLocal(target.name, o.tables);
    var lval := LvalueCode(target.name, tb');
    CoversBack(cx, o.tables, tb');
    assert o.code + lval + [op] == o.code + (lval + [op]);
    AtSplit(cx.c.code, a, o.code, lval + [op]);
    n, s' := Sim(cx, target.expr, NOTHING, lv, tb, a, s, env, fuel);
    var r := Eval(cx.c.efuns, target.expr, env, fuel);
    if r.Some? {
      var u := SimStore(cx, target.name, tb', op, a + |o.code|, s', r.value.env, r.value.v);
      Then(cx.c, n, 2, s, s', u);
      n, s' := n + 2, u;
    }
  }

  lemma {:induction false} SimAssign(cx: Context, targets: seq<Target>, f: Accept, lv: nat, tb: Tables, a: int, s: State, env: Env,
                                     fuel: nat)
    returns (n: nat, s': State)
    requires lv > 0 && targets != []
    requires Ready(cx, CompileAssign(cx.c.efuns, targets, f.void, lv, tb), a, s, env)
    ensures var o := CompileAssign(cx.c.efuns, targets, f.void, lv, tb).value;
            Simulates(cx, s, n, s', a + |o.code|, f, o.void, o.neg, fuel, EvalAssign(cx.c.efuns, targets, env, fuel))
    decreases fuel, targets, 0
  {
    hide Compile, Eval, Run, Step, At, StepPlain, StepByte, StepShort, Agree, LvalueCode, BindLocal, Lands;
    var name := targets[0].name;
    var o := Compile(cx.c.efuns, targets[0].expr, NOTHING, lv, tb).value;
    var tb' := BindLocal(name, o.tables);
    var lval := LvalueCode(name, tb');
    var op := if |targets| > 1 || f.void then F_VOID_ASSIGN else F_ASSIGN;
    if |targets| > 1 {
      var rest := CompileAssign(cx.c.efuns, targets[1..], f.void, lv, tb').value;
      LandsBoth(o.conds, rest.conds);
      CoversBack(cx, tb', rest.tables);
      AtSplit(cx.c.code, a, o.code + lval + [op], rest.code);
    }
    n, s' := SimTarget(cx, targets[0], op, lv, tb, a, s, env, fuel);
    var r := Eval(cx.c.efuns, targets[0].expr, env, fuel);
    if r.Some? && |targets| > 1 {
      var m, w := SimAssign(cx, targets[1..], f, lv, tb', a + |o.code| + 3, s', Assigned(r.value.env, name, r.value.v), fuel);
      Then(cx.c, n, m, s, s', w);
      n, s' := n + m, w;
    }
  }

  // ----- #'&& and #'||

  /** The branch behind an argument: decide and leave by `distance` bytes, or go on without the value. */
  lemma SimLandBranch(cx: Context, isAnd: bool, void: bool, distance: nat, a: int, s: State)
    returns (n: nat, s': State)
    requires distance > 0xff ==> distance + (if void then 2 else 3) <= 0x7fff
    requires At(cx.c.code, a, LandBranch(isAnd, void, distance))
    requires s.pc == a && s.stack.Push? && s.stack.top.Val?
    ensures n >= 1 && Run(cx.c, n, s) == Some(s')
    ensures s'.locals == s.locals && s'.world == s.world
    ensures var next := a + |LandBranch(isAnd, void, distance)|;
            if IsZero(s.stack.top.v) == isAnd
            then s'.pc == next + distance && s'.stack == (if void then s.stack.rest else s.stack)
            else s'.pc == next && s'.stack == s.stack.rest
  {
    if distance <= 0xff {
      s' := ByteStep(cx, LandOp(isAnd, void), distance, s);
      n := 1;
      FirstStep(cx.c, s, s');
    } else if void {
      ShortRoundTrip(distance + 2);
      s' := ShortStep(cx, LongBranchOp(isAnd), distance + 2, s);
      n := 1;
      FirstStep(cx.c, s, s');
    } else {
      ShortRoundTrip(distance + 3);
      var jump := [LongBranchOp(isAnd)] + Short(distance + 3);
      assert LandBranch(isAnd, void, distance) == [F_DUP] + (jump + [F_POP_VALUE]);
      AtSplit(cx.c.code, a, [F_DUP], jump + [F_POP_VALUE]);
      AtSplit(cx.c.code, a + 1, jump, [F_POP_VALUE]);
      var t := PlainStep(cx, F_DUP, s);
      FirstStep(cx.c, s, t);
      var u := ShortStep(cx, LongBranchOp(isAnd), distance + 3, t);
      ThenStep(cx.c, 1, s, t, u);
      n, s' := 2, u;
      if IsZero(s.stack.top.v) != isAnd {
        s' := PlainStep(cx, F_POP_VALUE, u);
        ThenStep(cx.c, 2, s, u, s');
        n := 3;
      }
    }
  }

  lemma {:induction false} SimLand(cx: Context, isAnd: bool, ts: seq<Tree>, f: Accept, lv: nat, tb: Tables, a: int, s: State,
                                   env: Env, fuel: nat)
    returns (n: nat, s': State)
    requires lv > 0
    requires Ready(cx, CompileLand(cx.c.efuns, isAnd, ts, f.void, lv, tb), a, s, env)
    ensures var o := CompileLand(cx.c.efuns, isAnd, ts, f.void, lv, tb).value;
            Simulates(cx, s, n, s', a + |o.code|, f, o.void, o.neg, fuel, EvalLand(cx.c.efuns, isAnd, ts, env, fuel))
    decreases fuel, ts, 3
  {
    hide Compile, Eval, Run, Step, At, Agree, Covers, LandBranch, Lands;
    if |ts| <= 1 {
      n, s' := SimLastArg(cx, isAnd, ts, f, lv, tb, a, s, env, fuel);
    } else {
      var o := Compile(cx.c.efuns, ts[0], NOTHING, lv, tb).value;
      var rest := CompileLand(cx.c.efuns, isAnd, ts[1..], f.void, lv, o.tables).value;
      var branch := LandBranch(isAnd, f.void, |rest.code|);
      LandsBoth(o.conds, rest.conds);
      CoversBack(cx, o.tables, rest.tables);
      AtSplit(cx.c.code, a, o.code + branch, rest.code);
      AtSplit(cx.c.code, a, o.code, branch);
      n, s' := Sim(cx, ts[0], NOTHING, lv, tb, a, s, env, fuel);
      match Eval(cx.c.efuns, ts[0], env, fuel)
      case None =>
      case Some(r) =>
        var m, u := SimLandBranch(cx, isAnd, f.void, |rest.code|, a + |o.code|, s');
        Then(cx.c, n, m, s, s', u);
        AgreeKept(cx, s', u, r.env);
        n, s' := n + m, u;
        if IsZero(r.v) != isAnd {
          m, u := SimLand(cx, isAnd, ts[1..], f, lv, o.tables, a + |o.code| + |branch|, s', r.env, fuel);
          Then(cx.c, n, m, s, s', u);
          n, s' := n + m, u;
        }
    }
  }

  lemma {:induction false} SimLastArg(cx: Context, isAnd: bool, ts: seq<Tree>, f: Accept, lv: nat, tb: Tables, a: int, s: State,
                                      env: Env, fuel: nat)
    returns (n: nat, s': State)
    requires lv > 0 && |ts| <= 1
    requires Ready(cx, CompileLand(cx.c.efuns, isAnd, ts, f.void, lv, tb), a, s, env)
    ensures var o := CompileLand(cx.c.efuns, isAnd, ts, f.void, lv, tb).value;
            Simulates(cx, s, n, s', a + |o.code|, f, o.void, o.neg, fuel, EvalLand(cx.c.efuns, isAnd, ts, env, fuel))
    decreases fuel, ts, 2
  {
    hide Compile, Eval, Run, Step, At;
    var lf := NOTHING.(void := f.void);
    var v := Num(if isAnd then 1 else 0);
    var o := if ts == [] then ConstCode(v, lf, tb) else Compile(cx.c.efuns, ts[0], lf, lv, tb).value;
    if f.void && !o.void {
      AtSplit(cx.c.code, a, o.code, [F_POP_VALUE]);
    }
    if ts == [] {
      n, s' := SimConst(cx, v, lf, tb, a, s, env, fuel);
    } else {
      n, s' := Sim(cx, ts[0], lf, lv, tb, a, s, env, fuel);
    }
    if f.void && !o.void && EvalLand(cx.c.efuns, isAnd, ts, env, fuel).Some? {
      var u := PlainStep(cx, F_POP_VALUE, s');
      ThenStep(cx.c, n, s, s', u);
      n, s' := n + 1, u;
    }
  }

  lemma {:induction false} SimLandEq(cx: Context, t: Tree, f: Accept, lv: nat, tb: Tables, a: int, s: State, env: Env, fuel: nat)
    returns (n: nat, s': State)
    requires lv > 0 && t.LandEq?
    requires Ready(cx, CompileLandEq(cx.c.efuns, t, lv, tb), a, s, env)
    ensures var o := CompileLandEq(cx.c.efuns, t, lv, tb).value;
            Simulates(cx, s, n, s', a + |o.code|, f, o.void, o.neg, fuel, EvalLandEq(cx.c.efuns, t, env, fuel))
    decreases fuel, t, 0
  {
    hide Compile, Eval, Run, Step, At, StepPlain, StepByte, StepShort, Agree, Covers, Grows;
    var tb' := BindLocal(t.name, tb);
    var o := Compile(cx.c.efuns, t.expr, NOTHING, lv, tb').value;
    CoversBack(cx, tb', o.tables);
    var lval := LvalueCode(t.name, tb');
    var branch := LandBranch(t.isAnd, false, |o.code|);
    var finish := [F_SWAP_VALUES, F_ASSIGN];
    AtSplit(cx.c.code, a, lval + [F_LDUP] + branch + o.code, finish);
    AtSplit(cx.c.code, a, lval + [F_LDUP] + branch, o.code);
    AtSplit(cx.c.code, a, lval + [F_LDUP], branch);
    var v := Lookup(env.vars, t.name);
    var s2 := SimLoadKeepingLvalue(cx, t.name, tb', a, s, env);
    var m, s3 := SimLandBranch(cx, t.isAnd, false, |o.code|, a + 3, s2);
    Then(cx.c, 2, m, s, s2, s3);
    AgreeKept(cx, s, s3, env);
    n, s' := 2 + m, s3;
    if IsZero(v) == t.isAnd {
      var u := SimFinishLandEq(cx, t.name, tb', a + 3 + |branch| + |o.code|, s', s.stack, env, v);
      Then(cx.c, n, 2, s, s', u);
      n, s' := n + 2, u;
    } else {
      var k, s4 := Sim(cx, t.expr, NOTHING, lv, tb', a + 3 + |branch|, s3, env, fuel);
      Then(cx.c, n, k, s, s3, s4);
      n, s' := n + k, s4;
      var r := Eval(cx.c.efuns, t.expr, env, fuel);
      if r.Some? {
        var u := SimFinishLandEq(cx, t.name, tb', a + 3 + |branch| + |o.code|, s', s.stack, r.value.env, r.value.v);
        Then(cx.c, n, 2, s, s', u);
        n, s' := n + 2, u;
      }
    }
  }

  /** `<lvalue> LDUP` */
  lemma SimLoadKeepingLvalue(cx: Context, name: Name, tb: Tables, a: int, s: State, env: Env) returns (s': State)
    requires name in tb.symbols && Covers(cx, tb)
    requires At(cx.c.code, a, LvalueCode(name, tb) + [F_LDUP])
    requires s.pc == a && Agree(cx, s, env)
    ensures Run(cx.c, 2, s) == Some(s')
    ensures s' == s.(pc := a + 3, stack := Push(Val(Lookup(env.vars, name)), Push(Lvalue(IndexOf(tb.symbols, name)), s.stack)))
  {
    hide Run, Step, At;
    AtSplit(cx.c.code, a, LvalueCode(name, tb), [F_LDUP]);
    var ix := IndexOf(tb.symbols, name);
    assert cx.frame[ix] == name;
    var t := ByteStep(cx, F_PUSH_LOCAL_VARIABLE_LVALUE, ix, s);
    FirstStep(cx.c, s, t);
    s' := PlainStep(cx, F_LDUP, t);
    FirstStep(cx.c, t, s');
    Then(cx.c, 1, 1, s, t, s');
  }

  /** `SWAP_VALUES ASSIGN` with the value above the lvalue. */
  lemma SimFinishLandEq(cx: Context, name: Name, tb: Tables, a: int, s: State, bottom: Stack, env: Env, v: Value)
    returns (s': State)
    requires name in tb.symbols && Covers(cx, tb)
    requires At(cx.c.code, a, [F_SWAP_VALUES, F_ASSIGN]) && s.pc == a && Agree(cx, s, env)
    requires s.stack == Push(Val(v), Push(Lvalue(IndexOf(tb.symbols, name)), bottom))
    ensures Run(cx.c, 2, s) == Some(s') && s'.pc == a + 2
    ensures Agree(cx, s', Assigned(env, name, v)) && s'.stack == Push(Val(v), bottom)
  {
    hide Run, Step, At;
    assert [F_SWAP_VALUES, F_ASSIGN] == [F_SWAP_VALUES] + [F_ASSIGN];
    AtSplit(cx.c.code, a, [F_SWAP_VALUES], [F_ASSIGN]);
    var t := PlainStep(cx, F_SWAP_VALUES, s);
    FirstStep(cx.c, s, t);
    s' := PlainStep(cx, F_ASSIGN, t);
    FirstStep(cx.c, t, s');
    Then(cx.c, 1, 1, s, t, s');
  }

  // ----- loops

  /** The branch back to the start of the loop. */
  lemma SimLoopBranch(cx: Context, neg: bool, offset: nat, a: int, s: State, v: Value) returns (s': State)
    requires LoopBranch(neg, offset).Ok? && At(cx.c.code, a, LoopBranch(neg, offset).value)
    requires s.pc == a && s.stack.Push? && s.stack.top.Val? && Matches(s.stack.top.v, v, neg, true)
    ensures Step(cx.c, s) == Some(s')
    ensures s'.locals == s.locals && s'.world == s.world && s'.stack == s.stack.rest
    ensures s'.pc == if IsZero(v) then a + |LoopBranch(neg, offset).value| else a + 1 - offset
  {
    if offset > 0xff {
      ShortRoundTrip(0 - offset);
      s' := ShortStep(cx, LongBranchOp(neg), 0 - offset, s);
    } else {
      s' := ByteStep(cx, if neg then F_BBRANCH_WHEN_ZERO else F_BBRANCH_WHEN_NON_ZERO, offset, s);
    }
  }

  lemma SimEntryBranch(cx: Context, distance: nat, a: int, s: State) returns (s': State)
    requires EntryBranch(distance).Ok? && At(cx.c.code, a, EntryBranch(distance).value) && s.pc == a
    ensures Step(cx.c, s) == Some(s') && s' == s.(pc := a + |EntryBranch(distance).value| + distance)
  {
    if distance > 0xff {
      ShortRoundTrip(distance + 2);
      s' := ShortStep(cx, F_LBRANCH, distance + 2, s);
    } else {
      s' := ByteStep(cx, F_BRANCH, distance, s);
    }
  }

  /** Bodies, condition and branch of a loop, as both loops lay them out. */
  datatype LoopCode = LoopCode(b: Out, c: Out, branch: Code)

  ghost predicate LoopAt(cx: Context, bodies: seq<Tree>, cond: Tree, lv: nat, tb: Tables, start: int, l: LoopCode) {
    && lv > 0
    && CompileAll(cx.c.efuns, bodies, lv, tb) == Ok(l.b) && Lands(l.b.conds)
    && Compile(cx.c.efuns, cond, NOTHING.(negate := true), lv, l.b.tables) == Ok(l.c) && Lands(l.c.conds)
    && LoopBranch(l.c.neg, |l.b.code| + |l.c.code| + 1) == Ok(l.branch)
    && Covers(cx, l.b.tables) && Covers(cx, l.c.tables)
    && At(cx.c.code, start, l.b.code)
    && At(cx.c.code, start + |l.b.code|, l.c.code)
    && At(cx.c.code, start + |l.b.code| + |l.c.code|, l.branch)
  }

  lemma {:induction false} SimDoLoop(cx: Context, t: Tree, lv: nat, tb: Tables, start: int, l: LoopCode, s: State, env: Env, fuel: nat)
    returns (n: nat, s': State)
    requires t.Do? && LoopAt(cx, t.bodies, t.cond, lv, tb, start, l)
    requires s.pc == start && Agree(cx, s, env)
    ensures SimulatesAll(cx, s, n, s', start + |l.b.code| + |l.c.code| + |l.branch|, fuel, EvalDoLoop(cx.c.efuns, t, env, fuel))
    decreases fuel, t, 0
  {
    hide Compile, Eval, Run, Step, At;
    if fuel == 0 {
      n, s' := 0, s;
      NoStep(cx.c, s);
      return;
    }
    n, s' := SimAll(cx, t.bodies, lv, tb, start, s, env, fuel);
    var e := EvalAll(cx.c.efuns, t.bodies, env, fuel);
    if e.Some? {
      var m, u := Sim(cx, t.cond, NOTHING.(negate := true), lv, l.b.tables, start + |l.b.code|, s', e.value, fuel);
      Then(cx.c, n, m, s, s', u);
      n, s' := n + m, u;
      var c := Eval(cx.c.efuns, t.cond, e.value, fuel);
      if c.Some? {
        u := SimLoopBranch(cx, l.c.neg, |l.b.code| + |l.c.code| + 1, start + |l.b.code| + |l.c.code|, s', c.value.v);
        ThenStep(cx.c, n, s, s', u);
        n, s' := n + 1, u;
        if !IsZero(c.value.v) {
          m, u := SimDoLoop(cx, t, lv, tb, start, l, s', c.value.env, fuel - 1);
          Then(cx.c, n, m, s, s', u);
          n, s' := n + m, u;
        }
      }
    }
  }

  lemma {:induction false} SimDo(cx: Context, t: Tree, f: Accept, lv: nat, tb: Tables, a: int, s: State, env: Env, fuel: nat)
    returns (n: nat, s': State)
    requires lv > 0 && t.Do?
    requires Ready(cx, CompileDo(cx.c.efuns, t, f, lv, tb), a, s, env)
    ensures var o := CompileDo(cx.c.efuns, t, f, lv, tb).value;
            Simulates(cx, s, n, s', a + |o.code|, f, o.void, o.neg, fuel, EvalDo(cx.c.efuns, t, env, fuel))
    decreases fuel, t, 1
  {
    hide Compile, Eval, Run, Step, At, Lands;
    var b := CompileAll(cx.c.efuns, t.bodies, lv, tb).value;
    var c := Compile(cx.c.efuns, t.cond, NOTHING.(negate := true), lv, b.tables).value;
    var loop := LoopBranch(c.neg, |b.code| + |c.code| + 1).value;
    var r := Compile(cx.c.efuns, t.result, f, lv, c.tables).value;
    LandsBoth(b.conds + c.conds, r.conds);
    LandsBoth(b.conds, c.conds);
    CoversBack(cx, c.tables, r.tables);
    CoversBack(cx, b.tables, c.tables);
    AtSplit(cx.c.code, a, b.code + c.code + loop, r.code);
    AtSplit(cx.c.code, a, b.code + c.code, loop);
    AtSplit(cx.c.code, a, b.code, c.code);
    n, s' := SimDoLoop(cx, t, lv, tb, a, LoopCode(b, c, loop), s, env, fuel);
    var e := EvalDoLoop(cx.c.efuns, t, env, fuel);
    if e.Some? {
      var m, u := Sim(cx, t.result, f, lv, c.tables, a + |b.code| + |c.code| + |loop|, s', e.value, fuel);
      Then(cx.c, n, m, s, s', u);
      n, s' := n + m, u;
    }
  }

  /** Entered at the condition, as the initial branch of #'while does. */
  lemma {:induction false} SimWhileLoop(cx: Context, t: Tree, lv: nat, tb: Tables, start: int, l: LoopCode, s: State, env: Env, fuel: nat)
    returns (n: nat, s': State)
    requires t.While? && LoopAt(cx, t.bodies, t.cond, lv, tb, start, l)
    requires s.pc == start + |l.b.code| && Agree(cx, s, env)
    ensures SimulatesAll(cx, s, n, s', start + |l.b.code| + |l.c.code| + |l.branch|, fuel, EvalWhileLoop(cx.c.efuns, t, env, fuel))
    decreases fuel, t, 0
  {
    hide Compile, Eval, Run, Step, At;
    if fuel == 0 {
      n, s' := 0, s;
      NoStep(cx.c, s);
      return;
    }
    n, s' := Sim(cx, t.cond, NOTHING.(negate := true), lv, l.b.tables, start + |l.b.code|, s, env, fuel);
    var c := Eval(cx.c.efuns, t.cond, env, fuel);
    if c.Some? {
      var u := SimLoopBranch(cx, l.c.neg, |l.b.code| + |l.c.code| + 1, start + |l.b.code| + |l.c.code|, s', c.value.v);
      ThenStep(cx.c, n, s, s', u);
      n, s' := n + 1, u;
      if !IsZero(c.value.v) {
        var m, w := SimAll(cx, t.bodies, lv, tb, start, s', c.value.env, fuel);
        Then(cx.c, n, m, s, s', w);
        n, s' := n + m, w;
        var e := EvalAll(cx.c.efuns, t.bodies, c.value.env, fuel);
        if e.Some? {
          m, w := SimWhileLoop(cx, t, lv, tb, start, l, s', e.value, fuel - 1);
          Then(cx.c, n, m, s, s', w);
          n, s' := n + m, w;
        }
      }
    }
  }

  lemma {:induction false} SimWhile(cx: Context, t: Tree, f: Accept, lv: nat, tb: Tables, a: int, s: State, env: Env, fuel: nat)
    returns (n: nat, s': State)
    requires lv > 0 && t.While?
    requires Ready(cx, CompileWhile(cx.c.efuns, t, f, lv, tb), a, s, env)
    ensures var o := CompileWhile(cx.c.efuns, t, f, lv, tb).value;
            Simulates(cx, s, n, s', a + |o.code|, f, o.void, o.neg, fuel, EvalWhile(cx.c.efuns, t, env, fuel))
    decreases fuel, t, 1
  {
    hide Compile, Eval, Run, Step, At, Lands;
    var b := CompileAll(cx.c.efuns, t.bodies, lv, tb).value;
    var entry := EntryBranch(|b.code|).value;
    var c := Compile(cx.c.efuns, t.cond, NOTHING.(negate := true), lv, b.tables).value;
    var loop := LoopBranch(c.neg, |b.code| + |c.code| + 1).value;
    var r := Compile(cx.c.efuns, t.result, f, lv, c.tables).value;
    LandsBoth(b.conds + c.conds, r.conds);
    LandsBoth(b.conds, c.conds);
    CoversBack(cx, c.tables, r.tables);
    CoversBack(cx, b.tables, c.tables);
    AtSplit(cx.c.code, a, entry + b.code + c.code + loop, r.code);
    AtSplit(cx.c.code, a, entry + b.code + c.code, loop);
    AtSplit(cx.c.code, a, entry + b.code, c.code);
    AtSplit(cx.c.code, a, entry, b.code);
    var s1 := SimEntryBranch(cx, |b.code|, a, s);
    FirstStep(cx.c, s, s1);
    var k, s2 := SimWhileLoop(cx, t, lv, tb, a + |entry|, LoopCode(b, c, loop), s1, env, fuel);
    Then(cx.c, 1, k, s, s1, s2);
    n, s' := 1 + k, s2;
    var e := EvalWhileLoop(cx.c.efuns, t, env, fuel);
    if e.Some? {
      var m, u := Sim(cx, t.result, f, lv, c.tables, a + |entry| + |b.code| + |c.code| + |loop|, s', e.value, fuel);
      Then(cx.c, n, m, s, s', u);
      n, s' := n + m, u;
    }
  }

  // ----- #'? and #'?!

  /** Run a condition and the branch that skips `jump` bytes unless the cond-part is selected. */
  lemma {:induction false} SimCondSkip(cx: Context, isNotIf: bool, t: Tree, lv: nat, tb: Tables, partLen: nat, jump: nat, a: int,
                                       s: State, env: Env, fuel: nat)
    returns (n: nat, s': State)
    requires lv > 0 && partLen <= jump <= partLen + 3
    requires partLen + 2 > 0xfe ==> ShortReaches(jump + 2, jump + 2)
    requires var r := Compile(cx.c.efuns, t, NOTHING.(negate := true), lv, tb);
             r.Ok? && Lands(r.value.conds) && Covers(cx, r.value.tables)
             && At(cx.c.code, a, r.value.code + SkipBranch(isNotIf == r.value.neg, partLen, jump))
    requires s.pc == a && Agree(cx, s, env)
    ensures Run(cx.c, n, s) == Some(s')
    ensures var c := Compile(cx.c.efuns, t, NOTHING.(negate := true), lv, tb).value;
            match Eval(cx.c.efuns, t, env, fuel)
            case None => n >= fuel
            case Some(o) =>
              && Agree(cx, s', o.env) && s'.stack == s.stack
              && s'.pc == a + |c.code| + |SkipBranch(isNotIf == c.neg, partLen, jump)| + (if Selects(isNotIf, o.v) then 0 else jump)
    decreases fuel, t, 4
  {
    hide Compile, Eval, Run, Step, At;
    var c := Compile(cx.c.efuns, t, NOTHING.(negate := true), lv, tb).value;
    var whenZero := isNotIf == c.neg;
    AtSplit(cx.c.code, a, c.code, SkipBranch(whenZero, partLen, jump));
    n, s' := Sim(cx, t, NOTHING.(negate := true), lv, tb, a, s, env, fuel);
    if Eval(cx.c.efuns, t, env, fuel).Some? {
      var u: State;
      if partLen + 2 > 0xfe {
        u := ShortStep(cx, LongBranchOp(whenZero), jump + 2, s');
      } else {
        u := ByteStep(cx, BranchOp(whenZero), jump, s');
      }
      ThenStep(cx.c, n, s, s', u);
      n, s' := n + 1, u;
    }
  }

  /** The branch behind a cond-part reaches its destination. */
  lemma SimExitBranch(cx: Context, i: nat, d: nat, s: State) returns (s': State)
    requires At(cx.c.code, s.pc, ExitBranch(i, d))
    requires d > 0xff ==> ShortReaches(d + 2 + i, d + 2)
    ensures Step(cx.c, s) == Some(s') && s' == s.(pc := s.pc + |ExitBranch(i, d)| + d)
  {
    if d > 0xff {
      s' := ShortStep(cx, F_LBRANCH, d + 2 + i, s);
    } else {
      s' := ByteStep(cx, F_BRANCH, d, s);
    }
  }

  /** What the code behind the pairs does for a cond-part with resp. without a result. */
  ghost predicate ExitFits(f: Accept, outVoid: bool, e: Ending, void: bool) {
    var last := if e.tail == [] then 0 else e.tail[|e.tail| - 1];
    match ExitOf(e, void)
    case AtEnd => outVoid == void
    case OverLast =>
      if void then !outVoid && !f.void && last == F_CONST0 else outVoid && f.void && last == F_POP_VALUE
  }

  ghost predicate PairsFit(f: Accept, outVoid: bool, e: Ending, codes: seq<PairCode>) {
    WellEnded(e) && forall k :: 0 <= k < |codes| ==> ExitFits(f, outVoid, e, codes[k].void)
  }

  ghost predicate PartResult(f: Accept, void: bool, s: State, bottom: Stack, v: Value) {
    if void then s.stack == bottom && (f.void || (f.zero && v == Num(0))) else s.stack == Push(Val(v), bottom)
  }

  /** From the destination of a cond-part's branch to the end. */
  lemma SimExit(cx: Context, f: Accept, outVoid: bool, e: Ending, void: bool, end: int, s: State, bottom: Stack, v: Value)
    returns (n: nat, s': State)
    requires WellEnded(e) && At(cx.c.code, end - |e.tail|, e.tail)
    requires ExitFits(f, outVoid, e, void)
    requires s.pc == end - Back(ExitOf(e, void))
    requires PartResult(f, void, s, bottom, v)
    ensures Run(cx.c, n, s) == Some(s')
    ensures s'.pc == end && s'.locals == s.locals && s'.world == s.world
    ensures PartResult(f, outVoid, s', bottom, v)
  {
    hide Run, Step, At;
    if ExitOf(e, void) == AtEnd {
      n, s' := 0, s;
      NoStep(cx.c, s);
    } else {
      var last := e.tail[|e.tail| - 1];
      assert e.tail == e.tail[..|e.tail| - 1] + [last];
      AtSplit(cx.c.code, end - |e.tail|, e.tail[..|e.tail| - 1], [last]);
      s' := PlainStep(cx, last, s);
      n := 1;
      FirstStep(cx.c, s, s');
    }
  }

  ghost predicate Chosen(cx: Context, s: State, n: nat, s': State, end: int, missed: int, f: Accept, outVoid: bool, fuel: nat,
                         r: Option<Choice>) {
    && Run(cx.c, n, s) == Some(s')
    && match r
       case None => n >= fuel
       case Some(Taken(o)) => s'.pc == end && Agree(cx, s', o.env) && PartResult(f, outVoid, s', s.stack, o.v)
       case Some(Missed(e)) => s'.pc == missed && Agree(cx, s', e) && s'.stack == s.stack
  }

  /** The compiled pairs, with the last one already merged into the ending if `bare`. */
  ghost predicate PairsAt(cx: Context, isNotIf: bool, pairs: seq<Pair>, hasDefault: bool, bare: bool, f: Accept, outVoid: bool,
                          allVoid: bool, lv: nat, tb: Tables, i: nat, codes: seq<PairCode>, e: Ending, a: int) {
    && lv > 0
    && (bare ==> pairs != [] && !hasDefault && outVoid)
    && var r := CompilePairs(cx.c.efuns, isNotIf, pairs, hasDefault, f, allVoid, lv, tb);
       && r.Ok? && Lands(r.value.conds) && Covers(cx, r.value.tables)
       && codes == (if bare then r.value.codes[..|r.value.codes| - 1] else r.value.codes)
       && |r.value.codes| == |pairs|
       && PairsFit(f, outVoid, e, codes)
       && Layout(i, codes, e).Ok? && AllLand(i, codes, e)
       && At(cx.c.code, a, Layout(i, codes, e).value)
       && (bare ==> (f.void || (r.value.allVoid && f.zero)) && e.tail == BareTail(r.value))
  }

  function BareTail(ps: Pairs): Code
    requires ps.codes != []
  {
    var last := ps.codes[|ps.codes| - 1];
    var pop := if ps.allVoid then [] else [F_POP_VALUE];
    last.cond + SkipBranch(last.whenZero, |last.part|, |last.part| + |pop|) + last.part + pop
  }

  lemma {:induction false} SimPairs(cx: Context, isNotIf: bool, pairs: seq<Pair>, hasDefault: bool, bare: bool, f: Accept,
                                    outVoid: bool, allVoid: bool, lv: nat, tb: Tables, i: nat, codes: seq<PairCode>, e: Ending,
                                    a: int, s: State, env: Env, fuel: nat)
    returns (n: nat, s': State)
    requires PairsAt(cx, isNotIf, pairs, hasDefault, bare, f, outVoid, allVoid, lv, tb, i, codes, e, a)
    requires s.pc == a && Agree(cx, s, env)
    ensures var end := a + |Layout(i, codes, e).value|;
            Chosen(cx, s, n, s', end, if bare then end else end - |e.tail|, f, outVoid, fuel,
                   EvalPairs(cx.c.efuns, isNotIf, pairs, env, fuel))
    decreases fuel, pairs, 5
  {
    hide Compile, Eval, Run, Step, At;
    if pairs == [] {
      n, s' := 0, s;
      NoStep(cx.c, s);
    } else if bare && |pairs| == 1 {
      n, s' := SimBarePair(cx, isNotIf, pairs, f, allVoid, lv, tb, e, a, s, env, fuel);
    } else {
      n, s' := SimFirstPair(cx, isNotIf, pairs, hasDefault, bare, f, outVoid, allVoid, lv, tb, i, codes, e, a, s, env, fuel);
    }
  }

  /** The parts of the first pair, and where they are. */
  datatype PairParts = PairParts(c: Out, pf: Accept, p: Out, skip: Code, jump: nat, d: nat, partAt: int, restAt: int)

  ghost predicate FirstPairAt(cx: Context, isNotIf: bool, pair: Pair, f: Accept, outVoid: bool, lv: nat, tb: Tables, i: nat,
                              e: Ending, a: int, q: PairParts) {
    && lv > 0
    && Compile(cx.c.efuns, pair.cond, NOTHING.(negate := true), lv, tb) == Ok(q.c) && Lands(q.c.conds) && Covers(cx, q.c.tables)
    && Compile(cx.c.efuns, pair.part, q.pf, lv, q.c.tables) == Ok(q.p) && Lands(q.p.conds) && Covers(cx, q.p.tables)
    && (q.pf == NOTHING || q.pf == f.(negate := false))
    && |q.p.code| <= q.jump <= |q.p.code| + 3
    && q.skip == SkipBranch(isNotIf == q.c.neg, |q.p.code|, q.jump)
    && (|q.p.code| + 2 > 0xfe ==> ShortReaches(q.jump + 2, q.jump + 2))
    && (q.d > 0xff ==> ShortReaches(q.d + 2 + i, q.d + 2))
    && At(cx.c.code, a, q.c.code + q.skip)
    && q.partAt == a + |q.c.code| + |q.skip|
    && At(cx.c.code, q.partAt, q.p.code)
    && At(cx.c.code, q.partAt + |q.p.code|, ExitBranch(i, q.d))
    && q.restAt == q.partAt + |q.p.code| + |ExitBranch(i, q.d)| == q.partAt + q.jump
    && WellEnded(e) && ExitFits(f, outVoid, e, q.p.void)
  }

  /** What compiling the pairs says about the first of them. */
  lemma OpenCompiled(cx: Context, isNotIf: bool, pairs: seq<Pair>, hasDefault: bool, f: Accept, allVoid: bool, lv: nat, tb: Tables)
    returns (c: Out, pf: Accept, p: Out)
    requires lv > 0 && pairs != []
    requires var r := CompilePairs(cx.c.efuns, isNotIf, pairs, hasDefault, f, allVoid, lv, tb);
             r.Ok? && Lands(r.value.conds) && Covers(cx, r.value.tables)
    ensures Compile(cx.c.efuns, pairs[0].cond, NOTHING.(negate := true), lv, tb) == Ok(c) && Lands(c.conds) && Covers(cx, c.tables)
    ensures pf == if |pairs| == 1 && !hasDefault && !allVoid then NOTHING else f.(negate := false)
    ensures Compile(cx.c.efuns, pairs[0].part, pf, lv, c.tables) == Ok(p) && Lands(p.conds) && Covers(cx, p.tables)
    ensures |p.code| + 2 <= 0x7ffd
    ensures var ps := CompilePairs(cx.c.efuns, isNotIf, pairs, hasDefault, f, allVoid, lv, tb).value;
            var rest := CompilePairs(cx.c.efuns, isNotIf, pairs[1..], hasDefault, f, allVoid && p.void, lv, p.tables);
            && rest.Ok? && Lands(rest.value.conds) && Covers(cx, rest.value.tables)
            && ps.codes == [PairCode(c.code, isNotIf == c.neg, p.code, p.void)] + rest.value.codes
            && rest.value.allVoid == ps.allVoid
  {
    hide Compile, Lands;
    c := Compile(cx.c.efuns, pairs[0].cond, NOTHING.(negate := true), lv, tb).value;
    pf := if |pairs| == 1 && !hasDefault && !allVoid then NOTHING else f.(negate := false);
    p := Compile(cx.c.efuns, pairs[0].part, pf, lv, c.tables).value;
    var rest := CompilePairs(cx.c.efuns, isNotIf, pairs[1..], hasDefault, f, allVoid && p.void, lv, p.tables).value;
    LandsBoth(c.conds + p.conds, rest.conds);
    LandsBoth(c.conds, p.conds);
    CoversBack(cx, p.tables, rest.tables);
    CoversBack(cx, c.tables, p.tables);
  }

  lemma OpenPair(cx: Context, isNotIf: bool, pairs: seq<Pair>, hasDefault: bool, bare: bool, f: Accept, outVoid: bool,
                 allVoid: bool, lv: nat, tb: Tables, i: nat, codes: seq<PairCode>, e: Ending, a: int)
    returns (q: PairParts)
    requires PairsAt(cx, isNotIf, pairs, hasDefault, bare, f, outVoid, allVoid, lv, tb, i, codes, e, a)
    requires pairs != [] && (bare ==> |pairs| > 1)
    ensures WellEnded(e) && codes != [] && Layout(i, codes, e).Ok? && Layout(i + 1, codes[1..], e).Ok?
    ensures FirstPairAt(cx, isNotIf, pairs[0], f, outVoid, lv, tb, i, e, a, q)
    ensures PairsAt(cx, isNotIf, pairs[1..], hasDefault, bare, f, outVoid, allVoid && q.p.void, lv, q.p.tables, i + 1, codes[1..], e,
                    q.restAt)
    ensures var end := a + |Layout(i, codes, e).value|;
            && end == q.restAt + |Layout(i + 1, codes[1..], e).value|
            && q.restAt + q.d == end - Back(ExitOf(e, q.p.void))
            && At(cx.c.code, end - |e.tail|, e.tail)
  {
    hide Compile, CompilePairs, At, ShortReaches, Covers, Grows, Layout, AllLand, BareTail, SkipBranch, ExitBranch, ExitFits, PairsFit,
         FirstPairAt;
    var ps := CompilePairs(cx.c.efuns, isNotIf, pairs, hasDefault, f, allVoid, lv, tb).value;
    var c, pf, p := OpenCompiled(cx, isNotIf, pairs, hasDefault, f, allVoid, lv, tb);
    var rest := CompilePairs(cx.c.efuns, isNotIf, pairs[1..], hasDefault, f, allVoid && p.void, lv, p.tables).value;
    TailOfCodes(ps, rest, bare, codes);
    FitTail(f, outVoid, e, codes);
    var d, jump, skip, partAt := OpenLayout(cx, i, codes, e, a);
    q := PairParts(c, pf, p, skip, jump, d, partAt, partAt + jump);
    FoldFirstPair(cx, isNotIf, pairs[0], f, outVoid, lv, tb, i, e, a, q);
  }

  lemma FoldFirstPair(cx: Context, isNotIf: bool, pair: Pair, f: Accept, outVoid: bool, lv: nat, tb: Tables, i: nat,
                      e: Ending, a: int, q: PairParts)
    requires lv > 0
    requires Compile(cx.c.efuns, pair.cond, NOTHING.(negate := true), lv, tb) == Ok(q.c) && Lands(q.c.conds) && Covers(cx, q.c.tables)
    requires Compile(cx.c.efuns, pair.part, q.pf, lv, q.c.tables) == Ok(q.p) && Lands(q.p.conds) && Covers(cx, q.p.tables)
    requires q.pf == NOTHING || q.pf == f.(negate := false)
    requires |q.p.code| <= q.jump <= |q.p.code| + 3 && q.skip == SkipBranch(isNotIf == q.c.neg, |q.p.code|, q.jump)
    requires |q.p.code| + 2 > 0xfe ==> ShortReaches(q.jump + 2, q.jump + 2)
    requires q.d > 0xff ==> ShortReaches(q.d + 2 + i, q.d + 2)
    requires At(cx.c.code, a, q.c.code + q.skip) && q.partAt == a + |q.c.code| + |q.skip|
    requires At(cx.c.code, q.partAt, q.p.code) && At(cx.c.code, q.partAt + |q.p.code|, ExitBranch(i, q.d))
    requires q.restAt == q.partAt + |q.p.code| + |ExitBranch(i, q.d)| == q.partAt + q.jump
    requires WellEnded(e) && ExitFits(f, outVoid, e, q.p.void)
    ensures FirstPairAt(cx, isNotIf, pair, f, outVoid, lv, tb, i, e, a, q)
  {
  }

  lemma FitTail(f: Accept, outVoid: bool, e: Ending, codes: seq<PairCode>)
    requires codes != [] && PairsFit(f, outVoid, e, codes)
    ensures WellEnded(e) && ExitFits(f, outVoid, e, codes[0].void) && PairsFit(f, outVoid, e, codes[1..])
  {
  }

  lemma TailOfCodes(ps: Pairs, rest: Pairs, bare: bool, codes: seq<PairCode>)
    requires ps.codes != [] && rest.codes == ps.codes[1..] && rest.allVoid == ps.allVoid
    requires codes == (if bare then ps.codes[..|ps.codes| - 1] else ps.codes)
    requires bare ==> |ps.codes| > 1
    ensures codes != [] && codes[0] == ps.codes[0]
    ensures codes[1..] == (if bare then rest.codes[..|rest.codes| - 1] else rest.codes)
    ensures bare ==> BareTail(ps) == BareTail(rest)
  {
  }

  lemma OpenLayout(cx: Context, i: nat, codes: seq<PairCode>, e: Ending, a: int)
    returns (d: nat, jump: nat, skip: Code, partAt: int)
    requires codes != [] && WellEnded(e) && Layout(i, codes, e).Ok? && AllLand(i, codes, e)
    requires At(cx.c.code, a, Layout(i, codes, e).value)
    ensures var p := codes[0];
            && |p.part| <= jump <= |p.part| + 3
            && skip == SkipBranch(p.whenZero, |p.part|, jump)
            && (|p.part| + 2 > 0xfe ==> ShortReaches(jump + 2, jump + 2))
            && (d > 0xff ==> ShortReaches(d + 2 + i, d + 2))
            && At(cx.c.code, a, p.cond + skip)
            && partAt == a + |p.cond| + |skip|
            && At(cx.c.code, partAt, p.part)
            && At(cx.c.code, partAt + |p.part|, ExitBranch(i, d))
            && partAt + |p.part| + |ExitBranch(i, d)| == partAt + jump
    ensures Layout(i + 1, codes[1..], e).Ok? && AllLand(i + 1, codes[1..], e)
    ensures At(cx.c.code, partAt + jump, Layout(i + 1, codes[1..], e).value)
    ensures var end := a + |Layout(i, codes, e).value|;
            && end == partAt + jump + |Layout(i + 1, codes[1..], e).value|
            && partAt + jump + d == end - Back(ExitOf(e, codes[0].void))
            && At(cx.c.code, end - |e.tail|, e.tail)
  {
    hide At, ShortReaches;
    var p := codes[0];
    var tail := Layout(i + 1, codes[1..], e).value;
    d := ExitDistance(e, p.void, tail);
    jump := |p.part| + (if d > 0xff then 3 else 2);
    skip := SkipBranch(p.whenZero, |p.part|, jump);
    partAt := a + |p.cond| + |skip|;
    AtSplit(cx.c.code, a, PairHead(p, d > 0xff) + ExitBranch(i, d), tail);
    AtSplit(cx.c.code, a, PairHead(p, d > 0xff), ExitBranch(i, d));
    AtSplit(cx.c.code, a, p.cond + skip, p.part);
    LayoutEndsWithTail(cx, i, codes, e, a);
  }

  lemma {:induction false} SimFirstPair(cx: Context, isNotIf: bool, pairs: seq<Pair>, hasDefault: bool, bare: bool, f: Accept,
                                        outVoid: bool, allVoid: bool, lv: nat, tb: Tables, i: nat, codes: seq<PairCode>, e: Ending,
                                        a: int, s: State, env: Env, fuel: nat)
    returns (n: nat, s': State)
    requires PairsAt(cx, isNotIf, pairs, hasDefault, bare, f, outVoid, allVoid, lv, tb, i, codes, e, a)
    requires pairs != [] && (bare ==> |pairs| > 1)
    requires s.pc == a && Agree(cx, s, env)
    ensures var end := a + |Layout(i, codes, e).value|;
            Chosen(cx, s, n, s', end, if bare then end else end - |e.tail|, f, outVoid, fuel,
                   EvalPairs(cx.c.efuns, isNotIf, pairs, env, fuel))
    decreases fuel, pairs, 4
  {
    hide Compile, Eval, Run, Step, At, StepPlain, StepByte, StepShort, Agree, Covers, PairsAt, Layout, FirstPairAt;
    var pair := pairs[0];
    assert pair.cond < pair && pair.part < pair;
    var q := OpenPair(cx, isNotIf, pairs, hasDefault, bare, f, outVoid, allVoid, lv, tb, i, codes, e, a);
    var end := a + |Layout(i, codes, e).value|;
    n, s' := SimSkip(cx, isNotIf, pair, f, outVoid, lv, tb, i, e, a, q, s, env, fuel);
    var r := Eval(cx.c.efuns, pair.cond, env, fuel);
    if r.Some? {
      if Selects(isNotIf, r.value.v) {
        var m, u := SimPart(cx, isNotIf, pair, f, outVoid, lv, tb, i, e, a, q, end, s', r.value.env, fuel);
        Then(cx.c, n, m, s, s', u);
        n, s' := n + m, u;
      } else {
        var m, u := SimPairs(cx, isNotIf, pairs[1..], hasDefault, bare, f, outVoid, allVoid && q.p.void, lv, q.p.tables, i + 1, codes[1..],
                             e, q.restAt, s', r.value.env, fuel);
        Then(cx.c, n, m, s, s', u);
        n, s' := n + m, u;
      }
    }
  }

  lemma {:induction false} SimSkip(cx: Context, isNotIf: bool, pair: Pair, f: Accept, outVoid: bool, lv: nat, tb: Tables, i: nat,
                                   e: Ending, a: int, q: PairParts, s: State, env: Env, fuel: nat)
    returns (n: nat, s': State)
    requires FirstPairAt(cx, isNotIf, pair, f, outVoid, lv, tb, i, e, a, q)
    requires s.pc == a && Agree(cx, s, env)
    ensures Run(cx.c, n, s) == Some(s')
    ensures match Eval(cx.c.efuns, pair.cond, env, fuel)
            case None => n >= fuel
            case Some(o) =>
              Agree(cx, s', o.env) && s'.stack == s.stack && s'.pc == if Selects(isNotIf, o.v) then q.partAt else q.restAt
    decreases fuel, pair, 0
  {
    hide Compile, Eval, Run, Step, At, StepPlain, StepByte, StepShort, Agree, Covers, ExitFits, ShortReaches;
    n, s' := SimCondSkip(cx, isNotIf, pair.cond, lv, tb, |q.p.code|, q.jump, a, s, env, fuel);
  }

  /** A selected cond-part and the way from there to the end. */
  lemma {:induction false} SimPart(cx: Context, isNotIf: bool, pair: Pair, f: Accept, outVoid: bool, lv: nat, tb: Tables, i: nat,
                                   e: Ending, a: int, q: PairParts, end: int, s: State, env: Env, fuel: nat)
    returns (n: nat, s': State)
    requires FirstPairAt(cx, isNotIf, pair, f, outVoid, lv, tb, i, e, a, q)
    requires q.restAt + q.d == end - Back(ExitOf(e, q.p.void)) && At(cx.c.code, end - |e.tail|, e.tail)
    requires s.pc == q.partAt && Agree(cx, s, env)
    ensures Run(cx.c, n, s) == Some(s')
    ensures match Eval(cx.c.efuns, pair.part, env, fuel)
            case None => n >= fuel
            case Some(o) => s'.pc == end && Agree(cx, s', o.env) && PartResult(f, outVoid, s', s.stack, o.v)
    decreases fuel, pair, 0
  {
    hide Compile, Eval, Run, Step, At, StepPlain, StepByte, StepShort, Agree, Covers, ExitFits, ShortReaches;
    n, s' := Sim(cx, pair.part, q.pf, lv, q.c.tables, q.partAt, s, env, fuel);
    var o := Eval(cx.c.efuns, pair.part, env, fuel);
    if o.Some? {
      var u := SimExitBranch(cx, i, q.d, s');
      ThenStep(cx.c, n, s, s', u);
      AgreeKept(cx, s', u, o.value.env);
      var m, w := SimExit(cx, f, outVoid, e, q.p.void, end, u, s.stack, o.value.v);
      Then(cx.c, n + 1, m, s, u, w);
      AgreeKept(cx, u, w, o.value.env);
      n, s' := n + 1 + m, w;
    }
  }

  lemma {:induction false} LayoutEndsWithTail(cx: Context, i: nat, codes: seq<PairCode>, e: Ending, a: int)
    requires WellEnded(e) && Layout(i, codes, e).Ok? && At(cx.c.code, a, Layout(i, codes, e).value)
    ensures At(cx.c.code, a + |Layout(i, codes, e).value| - |e.tail|, e.tail)
    decreases codes
  {
    hide At, PairHead, ExitBranch;
    if codes != [] {
      var rest := Layout(i + 1, codes[1..], e).value;
      var d: nat := ExitDistance(e, codes[0].void, rest);
      var head := PairHead(codes[0], d > 0xff) + ExitBranch(i, d);
      assert Layout(i, codes, e).value == head + rest;
      AtSplit(cx.c.code, a, head, rest);
      LayoutEndsWithTail(cx, i + 1, codes[1..], e, a + |head|);
    }
  }

  /** The last pair when there is no default and no result is wanted. */
  lemma NoMorePairs(efuns: Efuns, isNotIf: bool, hasDefault: bool, f: Accept, allVoid: bool, lv: nat, tb: Tables)
    requires lv > 0
    ensures CompilePairs(efuns, isNotIf, [], hasDefault, f, allVoid, lv, tb) == Ok(Pairs([], tb, allVoid, {}))
  {
  }

  lemma {:induction false} SimBarePair(cx: Context, isNotIf: bool, pairs: seq<Pair>, f: Accept, allVoid: bool, lv: nat, tb: Tables,
                                       e: Ending, a: int, s: State, env: Env, fuel: nat)
    returns (n: nat, s': State)
    requires lv > 0 && |pairs| == 1
    requires var r := CompilePairs(cx.c.efuns, isNotIf, pairs, false, f, allVoid, lv, tb);
             && r.Ok? && |r.value.codes| == 1 && Lands(r.value.conds) && Covers(cx, r.value.tables)
             && (f.void || (r.value.allVoid && f.zero))
             && e.tail == BareTail(r.value)
    requires At(cx.c.code, a, e.tail)
    requires s.pc == a && Agree(cx, s, env)
    ensures var end := a + |e.tail|;
            Chosen(cx, s, n, s', end, end, f, true, fuel, EvalPairs(cx.c.efuns, isNotIf, pairs, env, fuel))
    decreases fuel, pairs, 3
  {
    hide Compile, CompilePairs, Eval, Run, Step, At, Lands, Covers;
    var pair := pairs[0];
    assert pair.cond < pair && pair.part < pair;
    assert pairs[1..] == [];
    var ps := CompilePairs(cx.c.efuns, isNotIf, pairs, false, f, allVoid, lv, tb).value;
    var c, pf, p := OpenCompiled(cx, isNotIf, pairs, false, f, allVoid, lv, tb);
    NoMorePairs(cx.c.efuns, isNotIf, false, f, allVoid && p.void, lv, p.tables);
    var pop := if ps.allVoid then [] else [F_POP_VALUE];
    var jump := |p.code| + |pop|;
    var skip := SkipBranch(isNotIf == c.neg, |p.code|, jump);
    ShortRoundTrip(jump + 2);
    AtSplit(cx.c.code, a, c.code + skip + p.code, pop);
    AtSplit(cx.c.code, a, c.code + skip, p.code);
    n, s' := SimCondSkip(cx, isNotIf, pair.cond, lv, tb, |p.code|, jump, a, s, env, fuel);
    var r := Eval(cx.c.efuns, pair.cond, env, fuel);
    if r.Some? && Selects(isNotIf, r.value.v) {
      var m, u := Sim(cx, pair.part, pf, lv, c.tables, a + |c.code| + |skip|, s', r.value.env, fuel);
      Then(cx.c, n, m, s, s', u);
      n, s' := n + m, u;
      if Eval(cx.c.efuns, pair.part, r.value.env, fuel).Some? && !ps.allVoid {
        u := PlainStep(cx, F_POP_VALUE, s');
        ThenStep(cx.c, n, s, s', u);
        n, s' := n + 1, u;
      }
    }
  }

  /** All cond-parts are void if the compiler says so, and none is if the caller needs every result. */
  lemma {:induction false} PairsVoid(efuns: Efuns, isNotIf: bool, pairs: seq<Pair>, hasDefault: bool, f: Accept, allVoid: bool, lv: nat,
                                     tb: Tables)
    requires lv > 0 && CompilePairs(efuns, isNotIf, pairs, hasDefault, f, allVoid, lv, tb).Ok?
    ensures var ps := CompilePairs(efuns, isNotIf, pairs, hasDefault, f, allVoid, lv, tb).value;
            && |ps.codes| == |pairs|
            && (ps.allVoid ==> allVoid && forall k :: 0 <= k < |ps.codes| ==> ps.codes[k].void)
            && (!f.zero && !f.void ==> forall k :: 0 <= k < |ps.codes| ==> !ps.codes[k].void)
            && (pairs == [] ==> ps.allVoid == allVoid)
    decreases pairs
  {
    hide Compile;
    if pairs != [] {
      var pair := pairs[0];
      var c := Compile(efuns, pair.cond, NOTHING.(negate := true), lv, tb).value;
      var pf := if |pairs| == 1 && !hasDefault && !allVoid then NOTHING else f.(negate := false);
      var p := Compile(efuns, pair.part, pf, lv, c.tables).value;
      PairsVoid(efuns, isNotIf, pairs[1..], hasDefault, f, allVoid && p.void, lv, p.tables);
    }
  }

  /** The default, or the 0 in its place, and what follows it. */
  lemma {:induction false} SimDefault(cx: Context, t: Tree, f: Accept, df: Accept, outVoid: bool, withDefault: bool, lv: nat, tb: Tables,
                                      extra: Code, a: int, s: State, env: Env, fuel: nat)
    returns (n: nat, s': State)
    requires lv > 0 && t.Cond?
    requires var r := DefaultCode(cx.c.efuns, t, withDefault, df, lv, tb);
             && r.Ok? && Lands(r.value.conds) && Covers(cx, r.value.tables)
             && At(cx.c.code, a, r.value.code + extra)
             && (extra == [] ==> outVoid == r.value.void)
             && (extra == [F_POP_VALUE] ==> !r.value.void && outVoid && f.void)
             && (extra == [F_BRANCH, 1, F_CONST0] ==> !r.value.void && !outVoid)
    requires extra == [] || extra == [F_POP_VALUE] || extra == [F_BRANCH, 1, F_CONST0]
    requires withDefault ==> t.hasDefault
    requires !withDefault && t.hasDefault ==> t.default == Const(Num(0))
    requires df == NOTHING || df == f.(negate := false)
    requires s.pc == a && Agree(cx, s, env)
    ensures var r := DefaultCode(cx.c.efuns, t, withDefault, df, lv, tb);
            var ev := if t.hasDefault then Eval(cx.c.efuns, t.default, env, fuel) else Some(Outcome(Num(0), env));
            Simulates(cx, s, n, s', a + |r.value.code| + |extra|, f.(negate := false), outVoid, false, fuel, ev)
    decreases fuel, t, 0
  {
    hide Compile, Run, Step, At;
    var r := DefaultCode(cx.c.efuns, t, withDefault, df, lv, tb);
    var d := r.value;
    AtSplit(cx.c.code, a, d.code, extra);
    var ev := if t.hasDefault then Eval(cx.c.efuns, t.default, env, fuel) else Some(Outcome(Num(0), env));
    if withDefault {
      n, s' := Sim(cx, t.default, df, lv, tb, a, s, env, fuel);
    } else {
      n, s' := SimConst(cx, Num(0), df, tb, a, s, env, fuel);
    }
    if ev.Some? && extra == [F_POP_VALUE] {
      var u := PlainStep(cx, F_POP_VALUE, s');
      ThenStep(cx.c, n, s, s', u);
      n, s' := n + 1, u;
    } else if ev.Some? && extra == [F_BRANCH, 1, F_CONST0] {
      assert extra == [F_BRANCH, 1] + [F_CONST0];
      AtSplit(cx.c.code, a + |d.code|, [F_BRANCH, 1], [F_CONST0]);
      var u := ByteStep(cx, F_BRANCH, 1, s');
      ThenStep(cx.c, n, s, s', u);
      n, s' := n + 1, u;
    }
  }

  /** Leaving out a default without effect does not change anything the caller asked for. */
  lemma HiddenDefault(cx: Context, t: Tree, f: Accept, env: Env, fuel: nat)
    requires DefaultHidden(t, f)
    ensures var r := Eval(cx.c.efuns, t, env, fuel);
            r.Some? && r.value.env == env && (f.void || (f.zero && r.value.v == Num(0)))
  {
  }

  /** The layout without default and result, as the pairs need it. */
  lemma OpenBare(cx: Context, isNotIf: bool, pairs: seq<Pair>, f: Accept, lv: nat, tb: Tables, a: int, s: State, env: Env)
    returns (codes: seq<PairCode>, e: Ending)
    requires lv > 0
    requires var ps := CompilePairs(cx.c.efuns, isNotIf, pairs, false, f, true, lv, tb);
             && ps.Ok? && (f.void || (ps.value.allVoid && f.zero)) && ps.value.codes != []
             && Ready(cx, CondWithoutResult(ps.value), a, s, env)
    ensures PairsAt(cx, isNotIf, pairs, false, true, f, true, true, lv, tb, 0, codes, e, a)
    ensures Layout(0, codes, e).Ok?
    ensures var ps := CompilePairs(cx.c.efuns, isNotIf, pairs, false, f, true, lv, tb).value;
            |Layout(0, codes, e).value| == |CondWithoutResult(ps).value.code|
  {
    hide Compile, CompilePairs, At, Layout, AllLand, SkipBranch, Agree, Covers;
    var ps := CompilePairs(cx.c.efuns, isNotIf, pairs, false, f, true, lv, tb).value;
    PairsVoid(cx.c.efuns, isNotIf, pairs, false, f, true, lv, tb);
    var k := |ps.codes| - 1;
    codes := ps.codes[..k];
    e := Ending(BareTail(ps), AtEnd, if ps.allVoid then AtEnd else OverLast);
  }

  lemma {:induction false} SimCondBare(cx: Context, t: Tree, f: Accept, lv: nat, tb: Tables, a: int, s: State, env: Env, fuel: nat)
    returns (n: nat, s': State)
    requires lv > 0 && t.Cond? && (t.hasDefault ==> DefaultHidden(t.default, f))
    requires var ps := CompilePairs(cx.c.efuns, t.isNotIf, t.pairs, false, f, true, lv, tb);
             && ps.Ok? && (f.void || (ps.value.allVoid && f.zero))
             && Ready(cx, CondWithoutResult(ps.value), a, s, env)
    ensures var ps := CompilePairs(cx.c.efuns, t.isNotIf, t.pairs, false, f, true, lv, tb).value;
            Simulates(cx, s, n, s', a + |CondWithoutResult(ps).value.code|, f, true, false, fuel, EvalCond(cx.c.efuns, t, env, fuel))
    decreases fuel, t, 1
  {
    hide Compile, CompilePairs, Eval, EvalPairs, Run, Step, At, Layout, Agree, Covers, PairsAt, CondWithoutResult;
    PairsVoid(cx.c.efuns, t.isNotIf, t.pairs, false, f, true, lv, tb);
    if t.pairs == [] {
      n, s' := SimNoPairs(cx, t, f, lv, tb, a, s, env, fuel);
    } else {
      var codes, e := OpenBare(cx, t.isNotIf, t.pairs, f, lv, tb, a, s, env);
      n, s' := SimPairs(cx, t.isNotIf, t.pairs, false, true, f, true, true, lv, tb, 0, codes, e, a, s, env, fuel);
      var r := EvalPairs(cx.c.efuns, t.isNotIf, t.pairs, env, fuel);
      if r.Some? && r.value.Missed? && t.hasDefault {
        HiddenDefault(cx, t.default, f, r.value.env, fuel);
      }
    }
  }

  lemma SimNoPairs(cx: Context, t: Tree, f: Accept, lv: nat, tb: Tables, a: int, s: State, env: Env, fuel: nat)
    returns (n: nat, s': State)
    requires lv > 0 && t.Cond? && t.pairs == [] && (t.hasDefault ==> DefaultHidden(t.default, f))
    requires f.void || f.zero
    requires var ps := CompilePairs(cx.c.efuns, t.isNotIf, t.pairs, false, f, true, lv, tb);
             ps.Ok? && Ready(cx, CondWithoutResult(ps.value), a, s, env)
    ensures var ps := CompilePairs(cx.c.efuns, t.isNotIf, t.pairs, false, f, true, lv, tb).value;
            Simulates(cx, s, n, s', a + |CondWithoutResult(ps).value.code|, f, true, false, fuel, EvalCond(cx.c.efuns, t, env, fuel))
  {
    hide Compile, Eval, Run, Step, At, Agree, Covers;
    n, s' := 0, s;
    NoStep(cx.c, s);
    assert EvalPairs(cx.c.efuns, t.isNotIf, t.pairs, env, fuel) == Some(Missed(env));
    if t.hasDefault {
      HiddenDefault(cx, t.default, f, env, fuel);
    }
  }

  /** The default is compiled with these flags. */
  function DefaultAccept(f: Accept, ps: Pairs): Accept {
    if ps.allVoid then f.(negate := false) else NOTHING
  }

  function DefaultCode(efuns: Efuns, t: Tree, withDefault: bool, df: Accept, lv: nat, tb: Tables): Result<Out, CompileError>
    requires lv > 0 && t.Cond?
  {
    if withDefault then Compile(efuns, t.default, df, lv, tb) else Leaf(0, df, lv, tb)
  }

  /** The only cond-part gets the missing 0 itself. */
  predicate GetsZero(f: Accept, ps: Pairs, d: Out) {
    !d.void && !f.void && ps.allVoid && |ps.codes| == 1 && |ps.codes[0].part| + 2 <= 0xfd
  }

  /** What follows the default. */
  function Extra(f: Accept, hasDefault: bool, ps: Pairs, d: Out): Code {
    if d.void then []
    else if f.void then [F_POP_VALUE]
    else if (ps.allVoid && |ps.codes| > 0) || (hasDefault && !ps.allVoid && f.zero && HasVoid(ps.codes)) then [F_BRANCH, 1, F_CONST0]
    else []
  }

  ghost predicate DefaultReady(cx: Context, t: Tree, withDefault: bool, f: Accept, lv: nat, tb: Tables, a: int, s: State, env: Env,
                               ps: Pairs, d: Out) {
    && lv > 0 && t.Cond?
    && CompilePairs(cx.c.efuns, t.isNotIf, t.pairs, withDefault, f, true, lv, tb) == Ok(ps)
    && !(!withDefault && (f.void || (ps.allVoid && f.zero)))
    && DefaultCode(cx.c.efuns, t, withDefault, DefaultAccept(f, ps), lv, ps.tables) == Ok(d)
    && (!d.void ==> d.code != [])
    && (d.void ==> DefaultAccept(f, ps) != NOTHING)
    && (!withDefault ==> d.code == [F_CONST0] && !d.void)
    && Grows(ps.tables, d.tables)
    && Ready(cx, CondWithDefault(f, withDefault, ps, d), a, s, env)
  }

  /** The layout with a default, as the pairs need it. */
  lemma OpenDefault(cx: Context, t: Tree, withDefault: bool, f: Accept, lv: nat, tb: Tables, a: int, s: State, env: Env, ps: Pairs,
                    d: Out)
    returns (e: Ending, outVoid: bool)
    requires DefaultReady(cx, t, withDefault, f, lv, tb, a, s, env, ps, d) && !GetsZero(f, ps, d)
    ensures PairsAt(cx, t.isNotIf, t.pairs, withDefault, false, f, outVoid, true, lv, tb, 0, ps.codes, e, a)
    ensures WellEnded(e) && Layout(0, ps.codes, e).Ok?
    ensures var extra := Extra(f, withDefault, ps, d);
            && (extra == [] || extra == [F_POP_VALUE] || extra == [F_BRANCH, 1, F_CONST0])
            && e.tail == d.code + extra
            && (extra == [] ==> outVoid == d.void)
            && (extra == [F_POP_VALUE] ==> !d.void && outVoid && f.void)
            && (extra == [F_BRANCH, 1, F_CONST0] ==> !d.void && !outVoid)
    ensures Lands(d.conds) && Covers(cx, d.tables)
    ensures CondWithDefault(f, withDefault, ps, d).Ok?
    ensures var o := CondWithDefault(f, withDefault, ps, d).value;
            |Layout(0, ps.codes, e).value| == |o.code| && o.void == outVoid && !o.neg
    ensures At(cx.c.code, a + |Layout(0, ps.codes, e).value| - |e.tail|, e.tail)
  {
    hide Compile, CompilePairs, DefaultCode, At, Layout, AllLand, SkipBranch, Agree, Covers, Grows, Lands;
    PairsVoid(cx.c.efuns, t.isNotIf, t.pairs, withDefault, f, true, lv, tb);
    outVoid := d.void || f.void;
    var extra := Extra(f, withDefault, ps, d);
    e := if d.void then Ending(d.code, AtEnd, AtEnd)
         else if f.void then Ending(d.code + extra, AtEnd, OverLast)
         else if extra != [] then Ending(d.code + extra, OverLast, AtEnd)
         else Ending(d.code, if withDefault then AtEnd else OverLast, AtEnd);
    assert e.tail == d.code + extra;
    assert d.code + [] == d.code;
    LandsBoth(ps.conds + d.conds, {Conditional(ps.codes, e)});
    LandsBoth(ps.conds, d.conds);
    LandsOneIff(ps.codes, e);
    CoversBack(cx, ps.tables, d.tables);
    LayoutEndsWithTail(cx, 0, ps.codes, e, a);
  }

  lemma {:induction false} SimCondDefault(cx: Context, t: Tree, withDefault: bool, f: Accept, lv: nat, tb: Tables, a: int, s: State,
                                          env: Env, fuel: nat, ps: Pairs, d: Out)
    returns (n: nat, s': State)
    requires DefaultReady(cx, t, withDefault, f, lv, tb, a, s, env, ps, d) && !GetsZero(f, ps, d)
    requires withDefault == (t.hasDefault && !DefaultHidden(t.default, f))
    requires s.pc == a && Agree(cx, s, env)
    ensures var r := CondWithDefault(f, withDefault, ps, d);
            r.Ok? && Simulates(cx, s, n, s', a + |r.value.code|, f.(negate := false), r.value.void, false, fuel,
                               EvalCond(cx.c.efuns, t, env, fuel))
    decreases fuel, t, 1
  {
    hide Compile, CompilePairs, Eval, EvalPairs, Run, Step, At, Layout, Agree, Covers, Grows, PairsAt, CondWithDefault, Extra, Leaf, Ready;
    var df := DefaultAccept(f, ps);
    var extra := Extra(f, withDefault, ps, d);
    var e, outVoid := OpenDefault(cx, t, withDefault, f, lv, tb, a, s, env, ps, d);
    var end := a + |Layout(0, ps.codes, e).value|;
    n, s' := SimPairs(cx, t.isNotIf, t.pairs, withDefault, false, f, outVoid, true, lv, tb, 0, ps.codes, e, a, s, env, fuel);
    var r := EvalPairs(cx.c.efuns, t.isNotIf, t.pairs, env, fuel);
    if r.Some? && r.value.Missed? {
      var m, u := SimDefault(cx, t, f, df, outVoid, withDefault, lv, ps.tables, extra, end - |e.tail|, s', r.value.env, fuel);
      Then(cx.c, n, m, s, s', u);
      n, s' := n + m, u;
    }
  }

  /** The only cond-part has got a `CONST0` of its own. */
  lemma {:induction false} SimSingle(cx: Context, t: Tree, withDefault: bool, f: Accept, lv: nat, tb: Tables, a: int, s: State,
                                     env: Env, fuel: nat, ps: Pairs, d: Out)
    returns (n: nat, s': State)
    requires DefaultReady(cx, t, withDefault, f, lv, tb, a, s, env, ps, d) && GetsZero(f, ps, d)
    requires withDefault == (t.hasDefault && !DefaultHidden(t.default, f))
    requires s.pc == a && Agree(cx, s, env)
    ensures var r := CondWithDefault(f, withDefault, ps, d);
            r.Ok? && Simulates(cx, s, n, s', a + |r.value.code|, f.(negate := false), r.value.void, false, fuel,
                               EvalCond(cx.c.efuns, t, env, fuel))
    decreases fuel, t, 1
  {
    hide Compile, DefaultCode, Eval, EvalPairs, Run, Step, At, StepPlain, StepByte, StepShort, Layout, AllLand, Agree, Covers, Grows, Leaf;
    PairsVoid(cx.c.efuns, t.isNotIf, t.pairs, withDefault, f, true, lv, tb);
    CoversBack(cx, ps.tables, d.tables);
    var p := ps.codes[0];
    var p' := p.(part := p.part + [F_CONST0], void := false);
    var e := Ending(d.code, AtEnd, AtEnd);
    var r := CondWithDefault(f, withDefault, ps, d).value;
    assert d.code + [] == d.code;
    assert At(cx.c.code, a, Layout(0, [p'], e).value);
    n, s' := SimSinglePair(cx, t, withDefault, f, lv, tb, a, s, env, fuel, ps, e);
    var v := EvalPairs(cx.c.efuns, t.isNotIf, t.pairs, env, fuel);
    if v.Some? && v.value.Missed? {
      LayoutEndsWithTail(cx, 0, [p'], e, a);
      var m, u := SimDefault(cx, t, f, DefaultAccept(f, ps), false, withDefault, lv, ps.tables, [], a + |r.code| - |d.code|, s',
                             v.value.env, fuel);
      Then(cx.c, n, m, s, s', u);
      n, s' := n + m, u;
    }
  }

  lemma {:induction false} SimSinglePair(cx: Context, t: Tree, withDefault: bool, f: Accept, lv: nat, tb: Tables, a: int, s: State,
                                         env: Env, fuel: nat, ps: Pairs, e: Ending)
    returns (n: nat, s': State)
    requires t.Cond? && lv > 0 && |t.pairs| == 1 && !f.void && ps.allVoid
    requires CompilePairs(cx.c.efuns, t.isNotIf, t.pairs, withDefault, f, true, lv, tb) == Ok(ps) && Lands(ps.conds) && Covers(cx, ps.tables)
    requires |ps.codes| == 1 && |ps.codes[0].part| + 2 <= 0xfd
    requires WellEnded(e) && e.valueExit == AtEnd
    requires var p := ps.codes[0].(part := ps.codes[0].part + [F_CONST0], void := false);
             Layout(0, [p], e).Ok? && AllLand(0, [p], e) && At(cx.c.code, a, Layout(0, [p], e).value)
    requires s.pc == a && Agree(cx, s, env)
    ensures var p := ps.codes[0].(part := ps.codes[0].part + [F_CONST0], void := false);
            var end := a + |Layout(0, [p], e).value|;
            Chosen(cx, s, n, s', end, end - |e.tail|, f, false, fuel, EvalPairs(cx.c.efuns, t.isNotIf, t.pairs, env, fuel))
    decreases fuel, t.pairs, 0
  {
    hide Compile, Eval, Run, Step, At, StepPlain, StepByte, StepShort, AllLand, Agree, Covers, Grows;
    var pair := t.pairs[0];
    assert pair.cond < pair && pair.part < pair;
    assert t.pairs[1..] == [];
    var c := Compile(cx.c.efuns, pair.cond, NOTHING.(negate := true), lv, tb).value;
    var pf := f.(negate := false);
    var q := Compile(cx.c.efuns, pair.part, pf, lv, c.tables).value;
    CoversBack(cx, c.tables, q.tables);
    var p := ps.codes[0].(part := q.code + [F_CONST0], void := false);
    var d, jump, skip, partAt := OpenLayout(cx, 0, [p], e, a);
    AtSplit(cx.c.code, partAt, q.code, [F_CONST0]);
    n, s' := SimCondSkip(cx, t.isNotIf, pair.cond, lv, tb, |p.part|, jump, a, s, env, fuel);
    var r := Eval(cx.c.efuns, pair.cond, env, fuel);
    if r.Some? && Selects(t.isNotIf, r.value.v) {
      var m, u := Sim(cx, pair.part, pf, lv, c.tables, partAt, s', r.value.env, fuel);
      Then(cx.c, n, m, s, s', u);
      n, s' := n + m, u;
      var o := Eval(cx.c.efuns, pair.part, r.value.env, fuel);
      if o.Some? {
        var w := SimZeroAndExit(cx, d, s');
        Then(cx.c, n, 2, s, s', w);
        AgreeKept(cx, s', w, o.value.env);
        n, s' := n + 2, w;
      }
    }
  }

  lemma SimZeroAndExit(cx: Context, d: nat, s: State) returns (s': State)
    requires At(cx.c.code, s.pc, [F_CONST0]) && At(cx.c.code, s.pc + 1, ExitBranch(0, d))
    requires d > 0xff ==> ShortReaches(d + 2, d + 2)
    ensures Run(cx.c, 2, s) == Some(s')
    ensures s' == s.(pc := s.pc + 1 + |ExitBranch(0, d)| + d, stack := Push(Val(Num(0)), s.stack))
  {
    hide Run, Step, At;
    var u := PlainStep(cx, F_CONST0, s);
    FirstStep(cx.c, s, u);
    s' := SimExitBranch(cx, 0, d, u);
    ThenStep(cx.c, 1, s, u, s');
  }

  lemma OpenCond(cx: Context, t: Tree, f: Accept, lv: nat, tb: Tables, a: int, s: State, env: Env)
    returns (withDefault: bool, ps: Pairs, bare: bool, d: Out)
    requires lv > 0 && t.Cond?
    requires Ready(cx, CompileCond(cx.c.efuns, t, f, lv, tb), a, s, env)
    ensures withDefault == (t.hasDefault && !DefaultHidden(t.default, f))
    ensures CompilePairs(cx.c.efuns, t.isNotIf, t.pairs, withDefault, f, true, lv, tb) == Ok(ps)
    ensures bare == (!withDefault && (f.void || (ps.allVoid && f.zero)))
    ensures !bare ==> !d.void ==> d.code != []
    ensures if bare then CompileCond(cx.c.efuns, t, f, lv, tb) == CondWithoutResult(ps)
            else CompileCond(cx.c.efuns, t, f, lv, tb) == CondWithDefault(f, withDefault, ps, d)
    ensures bare ==> CondWithoutResult(ps).Ok? && CondWithoutResult(ps).value.void && !CondWithoutResult(ps).value.neg
    ensures !bare ==> DefaultReady(cx, t, withDefault, f, lv, tb, a, s, env, ps, d)
    ensures !bare ==> var r := CondWithDefault(f, withDefault, ps, d); r.Ok? && !r.value.neg
    ensures s.pc == a && Agree(cx, s, env)
  {
    hide Compile, CompilePairs, At, Layout, AllLand, SkipBranch, Agree, Covers;
    withDefault := t.hasDefault && !DefaultHidden(t.default, f);
    ps := CompilePairs(cx.c.efuns, t.isNotIf, t.pairs, withDefault, f, true, lv, tb).value;
    bare := !withDefault && (f.void || (ps.allVoid && f.zero));
    d := Out([], ps.tables, true, false, {});
    if !bare {
      d := DefaultCode(cx.c.efuns, t, withDefault, DefaultAccept(f, ps), lv, ps.tables).value;
    }
  }

  lemma {:induction false} SimCond(cx: Context, t: Tree, f: Accept, lv: nat, tb: Tables, a: int, s: State, env: Env, fuel: nat)
    returns (n: nat, s': State)
    requires lv > 0 && t.Cond?
    requires Ready(cx, CompileCond(cx.c.efuns, t, f, lv, tb), a, s, env)
    ensures var o := CompileCond(cx.c.efuns, t, f, lv, tb).value;
            Simulates(cx, s, n, s', a + |o.code|, f, o.void, o.neg, fuel, EvalCond(cx.c.efuns, t, env, fuel))
    decreases fuel, t, 2
  {
    hide Compile, CompilePairs, CompileCond, CondWithoutResult, CondWithDefault, Eval, EvalCond, Run, At, Agree, Covers, Ready, DefaultReady,
         GetsZero, DefaultHidden;
    var withDefault, ps, bare, d := OpenCond(cx, t, f, lv, tb, a, s, env);
    if bare {
      n, s' := SimCondBare(cx, t, f, lv, tb, a, s, env, fuel);
    } else if GetsZero(f, ps, d) {
      n, s' := SimSingle(cx, t, withDefault, f, lv, tb, a, s, env, fuel, ps, d);
    } else {
      n, s' := SimCondDefault(cx, t, withDefault, f, lv, tb, a, s, env, fuel, ps, d);
    }
  }
}
