/** In closures of at most 255 bytes every branch is short and reaches its destination. */
module LambdaSmall {
  import opened Wrappers
  import opened Bytecode
  import opened LambdaTree
  import opened LambdaCompile
  import opened LambdaTheorems
  import LambdaSound

  /** Small code lands. */
  ghost predicate Small(r: Result<Out, CompileError>) {
    r.Ok? && |r.value.code| <= 0xff ==> Lands(r.value.conds)
  }

  lemma {:induction false} SmallLayout(i: nat, ps: seq<PairCode>, e: Ending)
    requires WellEnded(e) && Layout(i, ps, e).Ok? && |Layout(i, ps, e).value| <= 0xff
    ensures AllLand(i, ps, e)
    ensures forall k :: 0 <= k < |ps| ==> |ps[k].cond| + |ps[k].part| <= 0xff
    decreases ps
  {
    if ps != [] {
      ShortRoundTrip(|ps[0].part| + 4);
      SmallLayout(i + 1, ps[1..], e);
    }
  }

  lemma {:induction false} SmallCompile(efuns: Efuns, t: Tree, f: Accept, lv: nat, tb: Tables)
    requires lv > 0
    ensures Small(Compile(efuns, t, f, lv, tb))
    decreases t, 1
  {
    hide *;
    SmallError(Compile(efuns, t, f, lv, tb));
    if Compile(efuns, t, f, lv, tb).Ok? {
      LambdaSound.Dispatch(efuns, t, f, lv, tb, Env(map[], []), 0);
      match t
      case Const(v) => SmallConst(v, f, tb);
      case Symbol(name) => SmallSymbol(name, tb);
      case Efun(_, _) => SmallEfun(efuns, t, f, lv - 1, tb);
      case Comma(exprs) =>
        if exprs == [] {
          SmallConst(Num(0), f, tb);
        } else {
          SmallComma(efuns, exprs, f, lv - 1, tb);
        }
      case Not(_) => SmallNot(efuns, t, f, lv - 1, tb);
      case Land(isAnd, exprs) => SmallLand(efuns, isAnd, exprs, f.void, lv - 1, tb);
      case LandEq(_, _, _) => SmallLandEq(efuns, t, lv - 1, tb);
      case Assign(targets) => SmallAssign(efuns, targets, f.void, lv - 1, tb);
      case Cond(_, _, _, _) => SmallCond(efuns, t, f, lv - 1, tb);
      case Do(_, _, _) => SmallDo(efuns, t, f, lv - 1, tb);
      case While(_, _, _) => SmallWhile(efuns, t, f, lv - 1, tb);
    }
  }

  lemma SmallError(r: Result<Out, CompileError>)
    ensures r.Err? ==> Small(r)
  {
  }

  lemma SmallConst(v: Value, f: Accept, tb: Tables)
    ensures Small(Ok(ConstCode(v, f, tb)))
  {
  }

  lemma SmallSymbol(name: Name, tb: Tables)
    requires name in tb.symbols
    ensures Small(Ok(Out([F_LOCAL, LocalByte(IndexOf(tb.symbols, name))], tb, false, false, {})))
  {
  }

  lemma {:induction false} SmallEfun(efuns: Efuns, t: Tree, f: Accept, lv: nat, tb: Tables)
    requires lv > 0 && t.Efun?
    ensures Small(CompileEfun(efuns, t, f, lv, tb))
    decreases t, 0
  {
    hide Compile, CompileEach;
    SmallEach(efuns, t.args, lv, tb);
  }

  lemma {:induction false} SmallNot(efuns: Efuns, t: Tree, f: Accept, lv: nat, tb: Tables)
    requires lv > 0 && t.Not?
    ensures Small(CompileNot(efuns, t, f, lv, tb))
    decreases t, 0
  {
    hide Compile;
    SmallCompile(efuns, t.expr, f.(zero := false), lv, tb);
  }

  lemma {:induction false} SmallLandEq(efuns: Efuns, t: Tree, lv: nat, tb: Tables)
    requires lv > 0 && t.LandEq?
    ensures Small(CompileLandEq(efuns, t, lv, tb))
    decreases t, 0
  {
    hide Compile;
    SmallCompile(efuns, t.expr, NOTHING, lv, BindLocal(t.name, tb));
  }

  lemma {:induction false} SmallDo(efuns: Efuns, t: Tree, f: Accept, lv: nat, tb: Tables)
    requires lv > 0 && t.Do?
    ensures Small(CompileDo(efuns, t, f, lv, tb))
    decreases t, 0
  {
    hide Compile, CompileAll;
    if CompileDo(efuns, t, f, lv, tb).Ok? {
      var b := CompileAll(efuns, t.bodies, lv, tb).value;
      var c := Compile(efuns, t.cond, NOTHING.(negate := true), lv, b.tables).value;
      SmallAll(efuns, t.bodies, lv, tb);
      SmallCompile(efuns, t.cond, NOTHING.(negate := true), lv, b.tables);
      SmallCompile(efuns, t.result, f, lv, c.tables);
    }
  }

  lemma {:induction false} SmallWhile(efuns: Efuns, t: Tree, f: Accept, lv: nat, tb: Tables)
    requires lv > 0 && t.While?
    ensures Small(CompileWhile(efuns, t, f, lv, tb))
    decreases t, 0
  {
    hide Compile, CompileAll;
    if CompileWhile(efuns, t, f, lv, tb).Ok? {
      var b := CompileAll(efuns, t.bodies, lv, tb).value;
      var c := Compile(efuns, t.cond, NOTHING.(negate := true), lv, b.tables).value;
      SmallAll(efuns, t.bodies, lv, tb);
      SmallCompile(efuns, t.cond, NOTHING.(negate := true), lv, b.tables);
      SmallCompile(efuns, t.result, f, lv, c.tables);
    }
  }

  lemma {:induction false} SmallEach(efuns: Efuns, ts: seq<Tree>, lv: nat, tb: Tables)
    requires lv > 0
    ensures Small(CompileEach(efuns, ts, lv, tb))
    decreases ts, 0
  {
    hide Compile;
    if ts != [] && CompileEach(efuns, ts, lv, tb).Ok? {
      SmallCompile(efuns, ts[0], NOTHING, lv, tb);
      SmallEach(efuns, ts[1..], lv, Compile(efuns, ts[0], NOTHING, lv, tb).value.tables);
    }
  }

  lemma {:induction false} SmallAll(efuns: Efuns, ts: seq<Tree>, lv: nat, tb: Tables)
    requires lv > 0
    ensures Small(CompileAll(efuns, ts, lv, tb))
    decreases ts, 0
  {
    hide Compile;
    if ts != [] && CompileAll(efuns, ts, lv, tb).Ok? {
      SmallCompile(efuns, ts[0], VOID_WANTED, lv, tb);
      SmallAll(efuns, ts[1..], lv, Compile(efuns, ts[0], VOID_WANTED, lv, tb).value.tables);
    }
  }

  lemma {:induction false} SmallComma(efuns: Efuns, ts: seq<Tree>, f: Accept, lv: nat, tb: Tables)
    requires lv > 0 && ts != []
    ensures Small(CompileComma(efuns, ts, f, lv, tb))
    decreases ts, 0
  {
    hide Compile;
    if |ts| == 1 {
      SmallCompile(efuns, ts[0], f, lv, tb);
    } else if CompileComma(efuns, ts, f, lv, tb).Ok? {
      SmallCompile(efuns, ts[0], VOID_WANTED, lv, tb);
      SmallComma(efuns, ts[1..], f, lv, Compile(efuns, ts[0], VOID_WANTED, lv, tb).value.tables);
    }
  }

  lemma {:induction false} SmallAssign(efuns: Efuns, targets: seq<Target>, void: bool, lv: nat, tb: Tables)
    requires lv > 0 && targets != []
    ensures Small(CompileAssign(efuns, targets, void, lv, tb))
    decreases targets, 0
  {
    hide Compile;
    var target := targets[0];
    assert target.expr < target;
    SmallCompile(efuns, target.expr, NOTHING, lv, tb);
    if |targets| > 1 && CompileAssign(efuns, targets, void, lv, tb).Ok? {
      SmallAssign(efuns, targets[1..], void, lv, BindLocal(target.name, Compile(efuns, target.expr, NOTHING, lv, tb).value.tables));
    }
  }

  lemma {:induction false} SmallLand(efuns: Efuns, isAnd: bool, ts: seq<Tree>, void: bool, lv: nat, tb: Tables)
    requires lv > 0
    ensures Small(CompileLand(efuns, isAnd, ts, void, lv, tb))
    decreases ts, 0
  {
    hide Compile;
    if |ts| == 1 {
      SmallCompile(efuns, ts[0], NOTHING.(void := void), lv, tb);
    } else if |ts| > 1 && CompileLand(efuns, isAnd, ts, void, lv, tb).Ok? {
      SmallCompile(efuns, ts[0], NOTHING, lv, tb);
      SmallLand(efuns, isAnd, ts[1..], void, lv, Compile(efuns, ts[0], NOTHING, lv, tb).value.tables);
    }
  }

  // ----- #'? and #'?!

  ghost predicate SmallCodes(codes: seq<PairCode>) {
    forall k :: 0 <= k < |codes| ==> |codes[k].cond| + |codes[k].part| <= 0xff
  }

  ghost predicate SmallParts(ps: Pairs) {
    SmallCodes(ps.codes) ==> Lands(ps.conds)
  }

  lemma {:induction false} SmallPairs(efuns: Efuns, isNotIf: bool, pairs: seq<Pair>, hasDefault: bool, f: Accept, allVoid: bool,
                                      lv: nat, tb: Tables)
    requires lv > 0
    ensures var r := CompilePairs(efuns, isNotIf, pairs, hasDefault, f, allVoid, lv, tb); r.Ok? ==> SmallParts(r.value)
    decreases pairs, 0
  {
    hide Compile, CompilePairs, Lands, SmallCodes;
    LambdaSound.NoneToLand();
    var r := CompilePairs(efuns, isNotIf, pairs, hasDefault, f, allVoid, lv, tb);
    if pairs == [] {
      LambdaSound.NoMorePairs(efuns, isNotIf, hasDefault, f, allVoid, lv, tb);
    } else if r.Ok? && SmallCodes(r.value.codes) {
      var pair := pairs[0];
      assert pair.cond < pair && pair.part < pair;
      var c, pf, p, rest := OpenPairs(efuns, isNotIf, pairs, hasDefault, f, allVoid, lv, tb);
      FirstSmall(c, isNotIf == c.neg, p, rest.codes);
      SmallCompile(efuns, pair.cond, NOTHING.(negate := true), lv, tb);
      SmallCompile(efuns, pair.part, pf, lv, c.tables);
      SmallPairs(efuns, isNotIf, pairs[1..], hasDefault, f, allVoid && p.void, lv, p.tables);
      LambdaSound.LandsBoth(c.conds + p.conds, rest.conds);
      LambdaSound.LandsBoth(c.conds, p.conds);
    }
  }

  lemma OpenPairs(efuns: Efuns, isNotIf: bool, pairs: seq<Pair>, hasDefault: bool, f: Accept, allVoid: bool, lv: nat, tb: Tables)
    returns (c: Out, pf: Accept, p: Out, rest: Pairs)
    requires lv > 0 && pairs != [] && CompilePairs(efuns, isNotIf, pairs, hasDefault, f, allVoid, lv, tb).Ok?
    ensures Compile(efuns, pairs[0].cond, NOTHING.(negate := true), lv, tb) == Ok(c)
    ensures Compile(efuns, pairs[0].part, pf, lv, c.tables) == Ok(p)
    ensures CompilePairs(efuns, isNotIf, pairs[1..], hasDefault, f, allVoid && p.void, lv, p.tables) == Ok(rest)
    ensures var ps := CompilePairs(efuns, isNotIf, pairs, hasDefault, f, allVoid, lv, tb).value;
            && ps.codes == [PairCode(c.code, isNotIf == c.neg, p.code, p.void)] + rest.codes
            && ps.conds == c.conds + p.conds + rest.conds
  {
    hide Compile, Grows, Faithful;
    c := Compile(efuns, pairs[0].cond, NOTHING.(negate := true), lv, tb).value;
    pf := if |pairs| == 1 && !hasDefault && !allVoid then NOTHING else f.(negate := false);
    p := Compile(efuns, pairs[0].part, pf, lv, c.tables).value;
    rest := CompilePairs(efuns, isNotIf, pairs[1..], hasDefault, f, allVoid && p.void, lv, p.tables).value;
  }

  lemma FirstSmall(c: Out, whenZero: bool, p: Out, rest: seq<PairCode>)
    requires SmallCodes([PairCode(c.code, whenZero, p.code, p.void)] + rest)
    ensures |c.code| <= 0xff && |p.code| <= 0xff && SmallCodes(rest)
  {
    var codes := [PairCode(c.code, whenZero, p.code, p.void)] + rest;
    assert |codes[0].cond| + |codes[0].part| <= 0xff;
    assert forall k :: 0 <= k < |rest| ==> rest[k] == codes[k + 1];
  }

  lemma {:induction false} SmallCond(efuns: Efuns, t: Tree, f: Accept, lv: nat, tb: Tables)
    requires lv > 0 && t.Cond?
    ensures Small(CompileCond(efuns, t, f, lv, tb))
    decreases t, 0
  {
    hide Compile, CompilePairs, CondWithoutResult, CondWithDefault;
    var r := CompileCond(efuns, t, f, lv, tb);
    if r.Ok? && |r.value.code| <= 0xff {
      var withDefault := t.hasDefault && !DefaultHidden(t.default, f);
      var ps := CompilePairs(efuns, t.isNotIf, t.pairs, withDefault, f, true, lv, tb).value;
      SmallPairs(efuns, t.isNotIf, t.pairs, withDefault, f, true, lv, tb);
      if !withDefault && (f.void || (ps.allVoid && f.zero)) {
        SmallWithoutResult(ps);
      } else {
        var df := if ps.allVoid then f.(negate := false) else NOTHING;
        if withDefault {
          SmallCompile(efuns, t.default, df, lv, ps.tables);
          SmallWithDefault(f, withDefault, ps, Compile(efuns, t.default, df, lv, ps.tables).value);
        } else {
          SmallWithDefault(f, withDefault, ps, Leaf(0, df, lv, ps.tables).value);
        }
      }
    }
  }

  lemma SmallWithoutResult(ps: Pairs)
    requires SmallParts(ps)
    ensures Small(CondWithoutResult(ps))
  {
    hide Layout, AllLand, Lands, SkipBranch;
    LambdaSound.NoneToLand();
    if ps.codes != [] {
      var n := |ps.codes| - 1;
      var e := Ending(LambdaSound.BareTail(ps), AtEnd, if ps.allVoid then AtEnd else OverLast);
      if Layout(0, ps.codes[..n], e).Ok? && |Layout(0, ps.codes[..n], e).value| <= 0xff {
        SmallLayout(0, ps.codes[..n], e);
        forall k | 0 <= k < |ps.codes|
          ensures |ps.codes[k].cond| + |ps.codes[k].part| <= 0xff
        {
          assert k < n ==> ps.codes[k] == ps.codes[..n][k];
        }
      }
      SmallCondOut(ps, ps.codes[..n], e, ps.tables, true, {});
    }
  }

  /** A small conditional lands if its parts do. */
  lemma SmallCondOut(ps: Pairs, codes: seq<PairCode>, e: Ending, tables: Tables, void: bool, conds: set<Conditional>)
    requires WellEnded(e)
    requires Layout(0, codes, e).Ok? && |Layout(0, codes, e).value| <= 0xff ==> Lands(ps.conds) && Lands(conds)
    ensures Small(CondOut(ps, codes, e, tables, void, conds))
  {
    hide Layout, AllLand, Lands;
    if Layout(0, codes, e).Ok? && |Layout(0, codes, e).value| <= 0xff {
      SmallLayout(0, codes, e);
      LambdaSound.LandsOneIff(codes, e);
      LambdaSound.LandsBoth(ps.conds + conds, {Conditional(codes, e)});
      LambdaSound.LandsBoth(ps.conds, conds);
    }
  }

  lemma SmallWithDefault(f: Accept, hasDefault: bool, ps: Pairs, d: Out)
    requires SmallParts(ps) && Small(Ok(d)) && (!d.void ==> d.code != [])
    ensures Small(CondWithDefault(f, hasDefault, ps, d))
  {
    hide Layout, AllLand, Lands;
    if LambdaSound.GetsZero(f, ps, d) {
      var p := ps.codes[0].(part := ps.codes[0].part + [F_CONST0], void := false);
      SmallBehind(ps, [p], Ending(d.code, AtEnd, AtEnd), d, false);
    } else {
      var extra := LambdaSound.Extra(f, hasDefault, ps, d);
      assert d.code + [] == d.code;
      var e := if d.void then Ending(d.code, AtEnd, AtEnd)
               else if f.void then Ending(d.code + extra, AtEnd, OverLast)
               else if extra != [] then Ending(d.code + extra, OverLast, AtEnd)
               else Ending(d.code, if hasDefault then AtEnd else OverLast, AtEnd);
      SmallBehind(ps, ps.codes, e, d, d.void || f.void);
    }
  }

  lemma SmallBehind(ps: Pairs, codes: seq<PairCode>, e: Ending, d: Out, void: bool)
    requires SmallParts(ps) && Small(Ok(d)) && WellEnded(e) && |d.code| <= |e.tail|
    requires |codes| == |ps.codes| && forall k :: 0 <= k < |codes| ==> codes[k].cond == ps.codes[k].cond && |ps.codes[k].part| <= |codes[k].part|
    ensures Small(CondOut(ps, codes, e, d.tables, void, d.conds))
  {
    hide Layout, AllLand, Lands;
    if Layout(0, codes, e).Ok? && |Layout(0, codes, e).value| <= 0xff {
      SmallLayout(0, codes, e);
    }
    SmallCondOut(ps, codes, e, d.tables, void, d.conds);
  }

  /** A compiled closure of at most 255 bytes behaves like its body: nothing else has to be checked. */
  lemma SmallLambdaCorrect(efuns: Efuns, names: seq<Name>, body: Tree, args: seq<Value>, world: World, v: Value, after: World)
    requires CompileLambda(efuns, names, body).Ok?
    requires var l := CompileLambda(efuns, names, body).value; |l.closure.code| <= 0xff && FitsOperands(l)
    ensures var l := CompileLambda(efuns, names, body).value;
            Returns(l, Entry(l, args, world), v, after)
            <==> Evaluates(efuns, body, Env(Arguments(names, args), world), v, after)
  {
    SmallCompile(efuns, body, NOTHING.(zero := true), MAX_LAMBDA_LEVELS, Tables([], names));
    LambdaCorrect(efuns, names, body, args, world, v, after);
  }
}
