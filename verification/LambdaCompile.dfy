/** The code compiled for a tree, written down as a layout.

    All branches are relative, so code is built from the end: the distance a branch has to cover
    is known once the code behind it is. Whether a branch is short or long, and the offset stored
    for it, is the result of the backpatching runs of the compiler, including the places where
    these runs store a wrong offset. The layouts of all conditionals are collected: they tell whether every branch
    reaches its destination. */
module LambdaCompile {
  import opened Wrappers
  import opened Bytecode
  import opened LambdaTree

  type Code = seq<Byte>

  /** What a caller accepts: zero left out, any result left out, a result in reversed logic. */
  datatype Accept = Accept(zero: bool, void: bool, negate: bool)

  const NOTHING := Accept(false, false, false)
  const VOID_WANTED := Accept(true, true, true)

  datatype CompileError = TooDeep | Unimplemented | NotBound(name: Name) | MissingValue | DoubleSymbol | WrongArgCount(k: nat)

  /** Values and symbols collected so far. `values[i]` is the i-th value from the end of the block. */
  datatype Tables = Tables(values: seq<Value>, symbols: Symbols)

  /** The local variables in the order in which they got their index. */
  type Symbols = names: seq<Name> | Distinct(names) witness []

  predicate Distinct(names: seq<Name>) {
    forall i, j :: 0 <= i < j < |names| ==> names[i] != names[j]
  }

  function IndexOf(names: seq<Name>, name: Name): (ix: nat)
    requires name in names
    ensures ix < |names| && names[ix] == name
  {
    if names[0] == name then 0 else 1 + IndexOf(names[1..], name)
  }

  /** `void`: no result is left on the stack; `neg`: the result is in reversed logic. */
  datatype Out = Out(code: Code, tables: Tables, void: bool, neg: bool, conds: set<Conditional>)

  /** Index 0xff of the value block is reserved for the number of values. */
  function ReservedSlot(values: seq<Value>): seq<Value> {
    if |values| == 0xff then values + [Num(0)] else values
  }

  /** Make room in the value block for `v` and push it. */
  function ValuePush(v: Value, tables: Tables): Out {
    var values := ReservedSlot(tables.values);
    var code := if |tables.values| < 0xff then [F_LAMBDA_CCONSTANT, |tables.values|]
                else [F_LAMBDA_CONSTANT] + Short(|values|);
    Out(code, tables.(values := values + [v]), false, false, {})
  }

  function ConstCode(v: Value, f: Accept, tables: Tables): Out {
    if !v.Num? || v.n <= -0x100 || v.n >= 0x100 then ValuePush(v, tables)
    else if v.n < 0 then Out([F_NCLIT, 0 - v.n], tables, false, false, {})
    else if v.n > 1 then Out([F_CLIT, v.n], tables, false, false, {})
    else if v.n == 1 then Out([F_CONST1], tables, false, false, {})
    else if f.zero || f.void then Out([], tables, true, false, {})
    else Out([F_CONST0], tables, false, false, {})
  }

  /** A constant the compiler supplies for a missing argument. */
  function Leaf(n: int, f: Accept, levels: nat, tables: Tables): Result<Out, CompileError> {
    if levels == 1 then Err(TooDeep) else Ok(ConstCode(Num(n), f, tables))
  }

  /** The operand of a local variable instruction has one byte. */
  function LocalByte(ix: nat): Byte {
    ix % 256
  }

  /** Find the symbol, or create it and give it the next index. */
  function BindLocal(name: Name, tables: Tables): (r: Tables)
    ensures name in r.symbols && Grows(tables, r)
  {
    if name in tables.symbols then tables
    else tables.(symbols := tables.symbols + [name])
  }

  function LvalueCode(name: Name, tables: Tables): (code: Code)
    requires name in tables.symbols
    ensures |code| == 2
  {
    [F_PUSH_LOCAL_VARIABLE_LVALUE, LocalByte(IndexOf(tables.symbols, name))]
  }

  function Popped(o: Out): Code {
    if o.void then o.code else o.code + [F_POP_VALUE]
  }

  /** Compiling only adds values and symbols. */
  ghost predicate Grows(tb: Tables, tb': Tables) {
    tb.values <= tb'.values && tb.symbols <= tb'.symbols
  }

  /** A result on the stack takes code; void is given only where the caller accepts it. */
  ghost predicate Faithful(f: Accept, tb: Tables, r: Result<Out, CompileError>) {
    r.Ok? ==>
      && (r.value.void ==> f.zero || f.void)
      && (!r.value.void ==> r.value.code != [])
      && Grows(tb, r.value.tables)
  }

  function Compile(efuns: Efuns, t: Tree, f: Accept, levels: nat, tables: Tables): (r: Result<Out, CompileError>)
    requires levels > 0
    ensures Faithful(f, tables, r)
    decreases t, 1
  {
    if levels == 1 then Err(TooDeep)
    else
      var lv := levels - 1;
      match t
      case Const(v) => Ok(ConstCode(v, f, tables))
      case Symbol(name) =>
        if name in tables.symbols then Ok(Out([F_LOCAL, LocalByte(IndexOf(tables.symbols, name))], tables, false, false, {}))
        else Err(NotBound(name))
      case Efun(_, _) => CompileEfun(efuns, t, f, lv, tables)
      case Comma(exprs) =>
        if exprs == [] then Leaf(0, f, lv, tables) else CompileComma(efuns, exprs, f, lv, tables)
      case Not(_) => CompileNot(efuns, t, f, lv, tables)
      case Land(isAnd, exprs) => CompileLand(efuns, isAnd, exprs, f.void, lv, tables)
      case LandEq(_, _, _) => CompileLandEq(efuns, t, lv, tables)
      case Assign(targets) =>
        if targets == [] then Err(MissingValue) else CompileAssign(efuns, targets, f.void, lv, tables)
      case Cond(_, _, _, _) => CompileCond(efuns, t, f, lv, tables)
      case Do(_, _, _) => CompileDo(efuns, t, f, lv, tables)
      case While(_, _, _) => CompileWhile(efuns, t, f, lv, tables)
  }

  /** The instruction is left out if the caller accepts a result in reversed logic. */
  function CompileNot(efuns: Efuns, t: Tree, f: Accept, levels: nat, tables: Tables)
    : (r: Result<Out, CompileError>)
    requires levels > 0 && t.Not?
    ensures Faithful(f, tables, r)
    decreases t, 0
  {
    var o :- Compile(efuns, t.expr, f.(zero := false), levels, tables);
    if f.negate || o.void then Ok(o.(neg := !o.neg))
    else Ok(o.(code := o.code + [F_NOT]))
  }

  function CompileEfun(efuns: Efuns, t: Tree, f: Accept, levels: nat, tables: Tables)
    : (r: Result<Out, CompileError>)
    requires levels > 0 && t.Efun?
    ensures Faithful(f, tables, r)
    decreases t, 0
  {
    var o :- CompileEach(efuns, t.args, levels, tables);
    var call := o.code + [FIRST_EFUN + t.k];
    if |t.args| != efuns.arity(t.k) then Err(WrongArgCount(t.k))
    else if !efuns.isVoid(t.k) then Ok(o.(code := call, void := false, neg := false))
    else if f.zero || f.void then Ok(o.(code := call, void := true, neg := false))
    else Ok(o.(code := call + [F_CONST0], void := false, neg := false))
  }

  function CompileLandEq(efuns: Efuns, t: Tree, levels: nat, tables: Tables): (r: Result<Out, CompileError>)
    requires levels > 0 && t.LandEq?
    ensures Faithful(NOTHING, tables, r)
    decreases t, 0
  {
    var tb := BindLocal(t.name, tables);
    var o :- Compile(efuns, t.expr, NOTHING, levels, tb);
    var code :- LandJoin(t.isAnd, false, LvalueCode(t.name, tb) + [F_LDUP], o.code);
    Ok(o.(code := code + [F_SWAP_VALUES, F_ASSIGN], void := false, neg := false))
  }

  function CompileCond(efuns: Efuns, t: Tree, f: Accept, levels: nat, tables: Tables): (r: Result<Out, CompileError>)
    requires levels > 0 && t.Cond?
    ensures Faithful(f, tables, r)
    decreases t, 0
  {
    var withDefault := t.hasDefault && !DefaultHidden(t.default, f);
    var ps :- CompilePairs(efuns, t.isNotIf, t.pairs, withDefault, f, true, levels, tables);
    if !withDefault && (f.void || (ps.allVoid && f.zero)) then CondWithoutResult(ps)
    else
      var df := if ps.allVoid then f.(negate := false) else NOTHING;
      var d :- if withDefault then Compile(efuns, t.default, df, levels, ps.tables) else Leaf(0, df, levels, ps.tables);
      CondWithDefault(f, withDefault, ps, d)
  }

  function CompileDo(efuns: Efuns, t: Tree, f: Accept, levels: nat, tables: Tables): (r: Result<Out, CompileError>)
    requires levels > 0 && t.Do?
    ensures Faithful(f, tables, r)
    decreases t, 0
  {
    var b :- CompileAll(efuns, t.bodies, levels, tables);
    var c :- Compile(efuns, t.cond, NOTHING.(negate := true), levels, b.tables);
    var loop :- LoopBranch(c.neg, |b.code| + |c.code| + 1);
    var r :- Compile(efuns, t.result, f, levels, c.tables);
    Ok(r.(code := b.code + c.code + loop + r.code, conds := b.conds + c.conds + r.conds))
  }

  function CompileWhile(efuns: Efuns, t: Tree, f: Accept, levels: nat, tables: Tables): (r: Result<Out, CompileError>)
    requires levels > 0 && t.While?
    ensures Faithful(f, tables, r)
    decreases t, 0
  {
    var b :- CompileAll(efuns, t.bodies, levels, tables);
    var entry :- EntryBranch(|b.code|);
    var c :- Compile(efuns, t.cond, NOTHING.(negate := true), levels, b.tables);
    var loop :- LoopBranch(c.neg, |b.code| + |c.code| + 1);
    var r :- Compile(efuns, t.result, f, levels, c.tables);
    Ok(r.(code := entry + b.code + c.code + loop + r.code, conds := b.conds + c.conds + r.conds))
  }

  function CompileEach(efuns: Efuns, ts: seq<Tree>, levels: nat, tables: Tables)
    : (r: Result<Out, CompileError>)
    requires levels > 0
    ensures r.Ok? ==> Grows(tables, r.value.tables)
    decreases ts, 0
  {
    if ts == [] then Ok(Out([], tables, true, false, {}))
    else
      var o :- Compile(efuns, ts[0], NOTHING, levels, tables);
      var rest :- CompileEach(efuns, ts[1..], levels, o.tables);
      Ok(rest.(code := o.code + rest.code, conds := o.conds + rest.conds))
  }

  /** Expressions of which only the effect is wanted. */
  function CompileAll(efuns: Efuns, ts: seq<Tree>, levels: nat, tables: Tables)
    : (r: Result<Out, CompileError>)
    requires levels > 0
    ensures r.Ok? ==> Grows(tables, r.value.tables)
    decreases ts, 0
  {
    if ts == [] then Ok(Out([], tables, true, false, {}))
    else
      var o :- Compile(efuns, ts[0], VOID_WANTED, levels, tables);
      var rest :- CompileAll(efuns, ts[1..], levels, o.tables);
      Ok(rest.(code := Popped(o) + rest.code, conds := o.conds + rest.conds))
  }

  function CompileComma(efuns: Efuns, ts: seq<Tree>, f: Accept, levels: nat, tables: Tables)
    : (r: Result<Out, CompileError>)
    requires levels > 0 && ts != []
    ensures Faithful(f, tables, r)
    decreases ts, 0
  {
    if |ts| == 1 then Compile(efuns, ts[0], f, levels, tables)
    else
      var o :- Compile(efuns, ts[0], VOID_WANTED, levels, tables);
      var rest :- CompileComma(efuns, ts[1..], f, levels, o.tables);
      Ok(rest.(code := Popped(o) + rest.code, conds := o.conds + rest.conds))
  }

  function CompileAssign(efuns: Efuns, targets: seq<Target>, void: bool, levels: nat, tables: Tables)
    : (r: Result<Out, CompileError>)
    requires levels > 0 && targets != []
    ensures Faithful(NOTHING.(void := void), tables, r)
    ensures r.Ok? ==> r.value.void == void && !r.value.neg
    decreases targets, 0
  {
    var o :- Compile(efuns, targets[0].expr, NOTHING, levels, tables);
    var tb := BindLocal(targets[0].name, o.tables);
    var code := o.code + LvalueCode(targets[0].name, tb);
    if |targets| == 1 then
      Ok(o.(code := code + [if void then F_VOID_ASSIGN else F_ASSIGN], tables := tb, void := void, neg := false))
    else
      var rest :- CompileAssign(efuns, targets[1..], void, levels, tb);
      Ok(rest.(code := code + [F_VOID_ASSIGN] + rest.code, conds := o.conds + rest.conds))
  }

  // ----- #'&& and #'||

  function CompileLand(efuns: Efuns, isAnd: bool, ts: seq<Tree>, void: bool, levels: nat, tables: Tables)
    : (r: Result<Out, CompileError>)
    requires levels > 0
    ensures Faithful(NOTHING.(void := void), tables, r)
    ensures r.Ok? ==> r.value.void == void && !r.value.neg
    decreases ts, 0
  {
    if |ts| <= 1 then
      var lf := NOTHING.(void := void);
      var o :- if ts == [] then Leaf(if isAnd then 1 else 0, lf, levels, tables)
               else Compile(efuns, ts[0], lf, levels, tables);
      Ok(o.(code := if void then Popped(o) else o.code, void := void, neg := false))
    else
      var o :- Compile(efuns, ts[0], NOTHING, levels, tables);
      var rest :- CompileLand(efuns, isAnd, ts[1..], void, levels, o.tables);
      var code :- LandJoin(isAnd, void, o.code, rest.code);
      Ok(rest.(code := code, conds := o.conds + rest.conds))
  }

  function BranchOp(whenZero: bool): Byte {
    if whenZero then F_BRANCH_WHEN_ZERO else F_BRANCH_WHEN_NON_ZERO
  }

  function LongBranchOp(whenZero: bool): Byte {
    if whenZero then F_LBRANCH_WHEN_ZERO else F_LBRANCH_WHEN_NON_ZERO
  }

  function LandOp(isAnd: bool, void: bool): Byte {
    if void then BranchOp(isAnd) else if isAnd then F_LAND else F_LOR
  }

  /** The branch from behind an argument over the `distance` bytes that follow it. */
  function LandBranch(isAnd: bool, void: bool, distance: nat): Code {
    if distance <= 0xff then [LandOp(isAnd, void), distance]
    else if void then [LongBranchOp(isAnd)] + Short(distance + 2)
    else [F_DUP, LongBranchOp(isAnd)] + Short(distance + 3) + [F_POP_VALUE]
  }

  function LandJoin(isAnd: bool, void: bool, arg: Code, tail: Code): Result<Code, CompileError> {
    if |tail| > 0xff && |tail| + (if void then 2 else 3) > 0x7fff then Err(Unimplemented)
    else Ok(arg + LandBranch(isAnd, void, |tail|) + tail)
  }

  // ----- #'do and #'while

  /** The branch back to the first body; `offset` is the distance from the byte behind the opcode. */
  function LoopBranch(neg: bool, offset: nat): Result<Code, CompileError> {
    if offset > 0x8000 then Err(Unimplemented)
    else if offset > 0xff then Ok([LongBranchOp(neg)] + Short(0 - offset))
    else Ok([if neg then F_BBRANCH_WHEN_ZERO else F_BBRANCH_WHEN_NON_ZERO, offset])
  }

  /** The initial branch of #'while over the bodies. */
  function EntryBranch(distance: nat): Result<Code, CompileError> {
    if distance > 0x7ffd then Err(Unimplemented)
    else if distance > 0xff then Ok([F_LBRANCH] + Short(distance + 2))
    else Ok([F_BRANCH, distance])
  }

  // ----- #'? and #'?!

  /** A default that has no effect is not compiled if its value is not wanted. */
  predicate DefaultHidden(default: Tree, f: Accept) {
    if f.void then default.Const? || default.Symbol?
    else f.zero && default == Const(Num(0))
  }

  /** A compiled condition, the sense of the branch that skips the cond-part, and the cond-part. */
  datatype PairCode = PairCode(cond: Code, whenZero: bool, part: Code, void: bool)

  /** The pairs of a conditional as they are laid out, and what follows them. */
  datatype Conditional = Conditional(codes: seq<PairCode>, ending: Ending)

  datatype Pairs = Pairs(codes: seq<PairCode>, tables: Tables, allVoid: bool, conds: set<Conditional>)

  function CompilePairs(efuns: Efuns, isNotIf: bool, pairs: seq<Pair>, hasDefault: bool, f: Accept, allVoid: bool,
                        levels: nat, tables: Tables)
    : (r: Result<Pairs, CompileError>)
    requires levels > 0
    ensures r.Ok? ==> Grows(tables, r.value.tables)
    decreases pairs, 0
  {
    if pairs == [] then Ok(Pairs([], tables, allVoid, {}))
    else
      var pair := pairs[0];
      assert pair.cond < pair && pair.part < pair;
      var c :- Compile(efuns, pair.cond, NOTHING.(negate := true), levels, tables);
      var pf := if |pairs| == 1 && !hasDefault && !allVoid then NOTHING else f.(negate := false);
      var p :- Compile(efuns, pair.part, pf, levels, c.tables);
      if |p.code| + 2 > 0x7ffd then Err(Unimplemented)
      else
        var rest :- CompilePairs(efuns, isNotIf, pairs[1..], hasDefault, f, allVoid && p.void, levels, p.tables);
        Ok(rest.(codes := [PairCode(c.code, isNotIf == c.neg, p.code, p.void)] + rest.codes,
                 conds := c.conds + p.conds + rest.conds))
  }

  /** The branch over a cond-part of `partLen` bytes; `jump` is the distance from behind it. */
  function SkipBranch(whenZero: bool, partLen: nat, jump: nat): Code
    requires partLen <= jump <= partLen + 3
  {
    if partLen + 2 > 0xfe then [LongBranchOp(whenZero)] + Short(jump + 2)
    else [BranchOp(whenZero), jump]
  }

  /** Where the branch behind a cond-part goes: to the end, or to the one instruction before it. */
  datatype Exit = AtEnd | OverLast

  function Back(exit: Exit): nat {
    if exit.AtEnd? then 0 else 1
  }

  /** The code behind the pairs, with the destinations for cond-parts without and with a result. */
  datatype Ending = Ending(tail: Code, voidExit: Exit, valueExit: Exit)

  predicate WellEnded(e: Ending) {
    e.tail == [] ==> e.voidExit == AtEnd && e.valueExit == AtEnd
  }

  function ExitOf(e: Ending, void: bool): Exit {
    if void then e.voidExit else e.valueExit
  }

  /** The distance from behind a cond-part's branch to its destination. */
  function ExitDistance(e: Ending, void: bool, rest: Code): int {
    |rest| - Back(ExitOf(e, void))
  }

  /** The branch behind the i-th cond-part. When the compiler rewrites branches into long ones it
      computes the offset of the i-th one from a position that is `i` bytes too low. */
  function ExitBranch(i: nat, distance: nat): Code {
    if distance > 0xff then [F_LBRANCH] + Short(distance + 2 + i) else [F_BRANCH, distance]
  }

  function PairHead(p: PairCode, wide: bool): Code {
    p.cond + SkipBranch(p.whenZero, |p.part|, |p.part| + (if wide then 3 else 2)) + p.part
  }

  /** The pairs from the i-th on, followed by the ending. */
  function Layout(i: nat, ps: seq<PairCode>, e: Ending): Result<Code, CompileError>
    requires WellEnded(e)
    ensures Layout(i, ps, e).Ok? ==> |e.tail| <= |Layout(i, ps, e).value|
    decreases ps
  {
    if ps == [] then Ok(e.tail)
    else
      var rest :- Layout(i + 1, ps[1..], e);
      var d: nat := ExitDistance(e, ps[0].void, rest);
      if d > 0xff && d + 1 > 0x7fff then Err(Unimplemented)
      else Ok(PairHead(ps[0], d > 0xff) + ExitBranch(i, d) + rest)
  }

  /** Whether an offset stored as a short is read back as the distance it has to cover. */
  predicate ShortReaches(stored: int, needed: int) {
    Signed16(Short(stored)[0], Short(stored)[1]) == needed
  }

  /** Whether both branches of each pair reach their destinations. */
  predicate AllLand(i: nat, ps: seq<PairCode>, e: Ending)
    requires WellEnded(e) && Layout(i, ps, e).Ok?
    decreases ps
  {
    ps == [] ||
    (var rest := Layout(i + 1, ps[1..], e).value;
     var d := ExitDistance(e, ps[0].void, rest);
     && (d > 0xff ==> ShortReaches(d + 2 + i, d + 2))
     && (|ps[0].part| + 2 > 0xfe ==>
           var jump := |ps[0].part| + (if d > 0xff then 3 else 2);
           ShortReaches(jump + 2, jump + 2))
     && AllLand(i + 1, ps[1..], e))
  }

  /** Whether all branches of the conditionals reach their destinations. */
  predicate Lands(conds: set<Conditional>) {
    forall c :: c in conds ==> WellEnded(c.ending) && Layout(0, c.codes, c.ending).Ok? && AllLand(0, c.codes, c.ending)
  }

  function CondOut(ps: Pairs, codes: seq<PairCode>, e: Ending, tables: Tables, void: bool, conds: set<Conditional>)
    : Result<Out, CompileError>
    requires WellEnded(e)
  {
    var code :- Layout(0, codes, e);
    Ok(Out(code, tables, void, false, ps.conds + conds + {Conditional(codes, e)}))
  }

  /** No default and no result wanted: the branch behind the last cond-part is dropped or becomes a POP. */
  function CondWithoutResult(ps: Pairs): Result<Out, CompileError> {
    if ps.codes == [] then Ok(Out([], ps.tables, true, false, ps.conds))
    else
      var n := |ps.codes| - 1;
      var last := ps.codes[n];
      var pop := if ps.allVoid then [] else [F_POP_VALUE];
      var tail := last.cond + SkipBranch(last.whenZero, |last.part|, |last.part| + |pop|) + last.part + pop;
      CondOut(ps, ps.codes[..n], Ending(tail, AtEnd, if ps.allVoid then AtEnd else OverLast), ps.tables, true, {})
  }

  /** `d` is the compiled default, or the 0 supplied in its place. */
  function CondWithDefault(f: Accept, hasDefault: bool, ps: Pairs, d: Out): Result<Out, CompileError>
    requires !d.void ==> d.code != []
  {
    var n := |ps.codes|;
    if d.void then
      CondOut(ps, ps.codes, Ending(d.code, AtEnd, AtEnd), d.tables, true, d.conds)
    else if f.void then
      CondOut(ps, ps.codes, Ending(d.code + [F_POP_VALUE], AtEnd, OverLast), d.tables, true, d.conds)
    else if ps.allVoid && n > 0 then
      if n > 1 || |ps.codes[0].part| + 2 > 0xfd then
        CondOut(ps, ps.codes, Ending(d.code + [F_BRANCH, 1, F_CONST0], OverLast, AtEnd), d.tables, false, d.conds)
      else
        var p := ps.codes[0];
        var p' := p.(part := p.part + [F_CONST0], void := false);
        CondOut(ps, [p'], Ending(d.code, AtEnd, AtEnd), d.tables, false, d.conds)
    else if hasDefault && !ps.allVoid && f.zero && HasVoid(ps.codes) then
      CondOut(ps, ps.codes, Ending(d.code + [F_BRANCH, 1, F_CONST0], OverLast, AtEnd), d.tables, false, d.conds)
    else CondOut(ps, ps.codes, Ending(d.code, if hasDefault then AtEnd else OverLast, AtEnd), d.tables, false, d.conds)
  }

  predicate HasVoid(ps: seq<PairCode>) {
    exists p :: p in ps && p.void
  }
}
