/** The lambda compiler as it works: one code buffer that is appended to, patched and widened in place.

    Every method is proved to leave exactly the code that the layout in LambdaCompile describes,
    and never to write behind the allocated buffer. */
module WorkArea {
  import opened Wrappers
  import opened Bytecode
  import opened LambdaTree
  import opened LambdaCompile
  import LambdaSound

  /** The out-flags of a compilation. */
  datatype Given = Given(void: bool, neg: bool)

  const CODE_BUFFER_START_SIZE: nat := 1024

  /** The arguments of #'&& and #'|| but the last, each followed by a branch without offset. */
  function Unpatched(args: seq<Code>, op: Byte): Code {
    if args == [] then [] else Unpatched(args[..|args| - 1], op) + args[|args| - 1] + [op, 0]
  }

  /** Join the arguments from the last one on. */
  function LandFold(isAnd: bool, void: bool, args: seq<Code>, last: Code): Result<Code, CompileError> {
    if args == [] then Ok(last)
    else
      var tail :- LandFold(isAnd, void, args[1..], last);
      LandJoin(isAnd, void, args[0], tail)
  }

  function LandResult(isAnd: bool, void: bool, args: seq<Code>, conds: set<Conditional>, r: Result<Out, CompileError>): Result<Out, CompileError> {
    var o :- r;
    var code :- LandFold(isAnd, void, args, o.code);
    Ok(o.(code := code, conds := conds + o.conds))
  }

  /** What has been compiled so far, followed by the rest. */
  function Prepend(done: Code, conds: set<Conditional>, r: Result<Out, CompileError>): Result<Out, CompileError> {
    var o :- r;
    Ok(o.(code := done + o.code, conds := conds + o.conds))
  }

  lemma PrependNothing(r: Result<Out, CompileError>)
    ensures Prepend([], {}, r) == r
  {
    if r.Ok? {
      assert [] + r.value.code == r.value.code && {} + r.value.conds == r.value.conds;
    }
  }

  lemma PrependError(done: Code, conds: set<Conditional>, r: Result<Out, CompileError>)
    ensures r.Err? ==> Prepend(done, conds, r) == r
  {
  }

  lemma PrependTwice(done: Code, conds: set<Conditional>, code: Code, l: set<Conditional>, r: Result<Out, CompileError>)
    ensures Prepend(done, conds, Prepend(code, l, r)) == Prepend(done + code, conds + l, r)
  {
    if r.Ok? {
      assert done + (code + r.value.code) == done + code + r.value.code;
      assert conds + (l + r.value.conds) == conds + l + r.value.conds;
    }
  }

  /** Compiling a block is decided by its operator. */
  lemma Dispatched(efuns: Efuns, t: Tree, f: Accept, levels: nat, tb: Tables)
    requires levels > 0
    ensures var c := Compile(efuns, t, f, levels, tb);
            var lv := levels - 1;
            if levels == 1 then c == Err(TooDeep)
            else
              match t
              case Const(v) => c == Ok(ConstCode(v, f, tb))
              case Symbol(name) =>
                c == if name in tb.symbols then Ok(Out([F_LOCAL, LocalByte(IndexOf(tb.symbols, name))], tb, false, false, {}))
                     else Err(NotBound(name))
              case Efun(_, _) => c == CompileEfun(efuns, t, f, lv, tb)
              case Comma(exprs) => c == if exprs == [] then Leaf(0, f, lv, tb) else CompileComma(efuns, exprs, f, lv, tb)
              case Not(_) => c == CompileNot(efuns, t, f, lv, tb)
              case Land(isAnd, exprs) => c == CompileLand(efuns, isAnd, exprs, f.void, lv, tb)
              case LandEq(_, _, _) => c == CompileLandEq(efuns, t, lv, tb)
              case Assign(targets) =>
                c == if targets == [] then Err(MissingValue) else CompileAssign(efuns, targets, f.void, lv, tb)
              case Cond(_, _, _, _) => c == CompileCond(efuns, t, f, lv, tb)
              case Do(_, _, _) => c == CompileDo(efuns, t, f, lv, tb)
              case While(_, _, _) => c == CompileWhile(efuns, t, f, lv, tb)
  {
  }

  lemma EachStep(efuns: Efuns, ts: seq<Tree>, i: nat, lv: nat, tb: Tables)
    requires lv > 0 && i < |ts|
    ensures var o := Compile(efuns, ts[i], NOTHING, lv, tb);
            if o.Err? then CompileEach(efuns, ts[i..], lv, tb) == Err(o.error)
            else (CompileEach(efuns, ts[i..], lv, tb)
                  == Prepend(o.value.code, o.value.conds, CompileEach(efuns, ts[i + 1..], lv, o.value.tables)))
  {
    hide Compile;
    assert ts[i..][0] == ts[i] && ts[i..][1..] == ts[i + 1..];
  }

  lemma AllStep(efuns: Efuns, ts: seq<Tree>, i: nat, lv: nat, tb: Tables)
    requires lv > 0 && i < |ts|
    ensures var o := Compile(efuns, ts[i], VOID_WANTED, lv, tb);
            if o.Err? then CompileAll(efuns, ts[i..], lv, tb) == Err(o.error)
            else (CompileAll(efuns, ts[i..], lv, tb)
                  == Prepend(Popped(o.value), o.value.conds, CompileAll(efuns, ts[i + 1..], lv, o.value.tables)))
  {
    hide Compile;
    assert ts[i..][0] == ts[i] && ts[i..][1..] == ts[i + 1..];
  }

  lemma CommaStep(efuns: Efuns, ts: seq<Tree>, f: Accept, i: nat, lv: nat, tb: Tables)
    requires lv > 0 && i + 1 < |ts|
    ensures var o := Compile(efuns, ts[i], VOID_WANTED, lv, tb);
            if o.Err? then CompileComma(efuns, ts[i..], f, lv, tb) == Err(o.error)
            else (CompileComma(efuns, ts[i..], f, lv, tb)
                  == Prepend(Popped(o.value), o.value.conds, CompileComma(efuns, ts[i + 1..], f, lv, o.value.tables)))
  {
    hide Compile;
    assert ts[i..][0] == ts[i] && ts[i..][1..] == ts[i + 1..];
  }

  lemma AssignStep(efuns: Efuns, targets: seq<Target>, void: bool, i: nat, lv: nat, tb: Tables)
    requires lv > 0 && i + 1 < |targets|
    ensures var o := Compile(efuns, targets[i].expr, NOTHING, lv, tb);
            if o.Err? then CompileAssign(efuns, targets[i..], void, lv, tb) == Err(o.error)
            else
              var tb' := BindLocal(targets[i].name, o.value.tables);
              CompileAssign(efuns, targets[i..], void, lv, tb)
              == Prepend(o.value.code + LvalueCode(targets[i].name, tb') + [F_VOID_ASSIGN], o.value.conds,
                         CompileAssign(efuns, targets[i + 1..], void, lv, tb'))
  {
    hide Compile;
    assert targets[i..][0] == targets[i] && targets[i..][1..] == targets[i + 1..];
  }

  lemma NoLandArgs(isAnd: bool, void: bool, r: Result<Out, CompileError>, pre: Code, op: Byte)
    ensures LandResult(isAnd, void, [], {}, r) == r
    ensures pre == pre + Unpatched([], op) && WorkArea.Branches(pre, [], op, [])
  {
    assert r.Ok? ==> {} + r.value.conds == r.value.conds;
  }

  lemma LandStep(efuns: Efuns, isAnd: bool, ts: seq<Tree>, void: bool, i: nat, lv: nat, tb: Tables)
    requires lv > 0 && i + 1 < |ts|
    ensures var o := Compile(efuns, ts[i], NOTHING, lv, tb);
            if o.Err? then CompileLand(efuns, isAnd, ts[i..], void, lv, tb) == Err(o.error)
            else
              && o.value.code != []
              && CompileLand(efuns, isAnd, ts[i..], void, lv, tb)
              == LandResult(isAnd, void, [o.value.code], o.value.conds,
                            CompileLand(efuns, isAnd, ts[i + 1..], void, lv, o.value.tables))
  {
    hide Compile;
    assert ts[i..][0] == ts[i] && ts[i..][1..] == ts[i + 1..];
    var o := Compile(efuns, ts[i], NOTHING, lv, tb);
    var rest := CompileLand(efuns, isAnd, ts[i + 1..], void, lv, if o.Ok? then o.value.tables else tb);
    if o.Ok? && rest.Ok? {
      LandFoldAppend(isAnd, void, [], o.value.code, rest.value.code);
      assert [] + [o.value.code] == [o.value.code];
    }
  }

  lemma LandResultError(isAnd: bool, void: bool, args: seq<Code>, conds: set<Conditional>, e: CompileError)
    ensures LandResult(isAnd, void, args, conds, Err(e)) == Err(e)
  {
  }

  lemma LandResultAppend(isAnd: bool, void: bool, args: seq<Code>, conds: set<Conditional>, code: Code, l: set<Conditional>, r: Result<Out, CompileError>)
    ensures LandResult(isAnd, void, args, conds, LandResult(isAnd, void, [code], l, r))
         == LandResult(isAnd, void, args + [code], conds + l, r)
  {
    if r.Ok? {
      LandFoldAppend(isAnd, void, [], code, r.value.code);
      assert [] + [code] == [code];
      LandFoldAppend(isAnd, void, args, code, r.value.code);
      assert conds + (l + r.value.conds) == conds + l + r.value.conds;
    }
  }

  /** The last argument, or the value that stands for no argument at all. */
  lemma LastLand(efuns: Efuns, isAnd: bool, ts: seq<Tree>, void: bool, lv: nat, tb: Tables)
    requires lv > 0
    ensures var i := if ts == [] then 0 else |ts| - 1;
            var lf := NOTHING.(void := void);
            var o := if ts == [] then Leaf(if isAnd then 1 else 0, lf, lv, tb) else Compile(efuns, ts[i], lf, lv, tb);
            CompileLand(efuns, isAnd, ts[i..], void, lv, tb)
            == if o.Err? then Err(o.error)
               else Ok(o.value.(code := if void then Popped(o.value) else o.value.code, void := void, neg := false))
  {
    hide Compile;
    if ts != [] {
      assert ts[|ts| - 1..] == [ts[|ts| - 1]];
    }
  }

  lemma NoCondPairs(r: Result<Pairs, CompileError>, pre: Code)
    ensures PrependPairs([], {}, r) == r
    ensures pre == pre + CondUnpatched([]) && WorkArea.PairBranches(pre, [], [])
  {
    if r.Ok? {
      assert [] + r.value.codes == r.value.codes && {} + r.value.conds == r.value.conds;
    }
  }

  lemma FirstPairFails(efuns: Efuns, isNotIf: bool, pairs: seq<Pair>, hasDefault: bool, f: Accept, allVoid: bool, lv: nat, tb: Tables)
    requires lv > 0 && pairs != []
    ensures var c := Compile(efuns, pairs[0].cond, NOTHING.(negate := true), lv, tb);
            var pf := if |pairs| == 1 && !hasDefault && !allVoid then NOTHING else f.(negate := false);
            var r := CompilePairs(efuns, isNotIf, pairs, hasDefault, f, allVoid, lv, tb);
            if c.Err? then r == Err(c.error)
            else
              var o := Compile(efuns, pairs[0].part, pf, lv, c.value.tables);
              if o.Err? then r == Err(o.error)
              else |o.value.code| + 2 > 0x7ffd ==> r == Err(Unimplemented)
  {
    hide Compile, Faithful, Grows;
  }

  lemma FirstPair(efuns: Efuns, isNotIf: bool, pairs: seq<Pair>, hasDefault: bool, f: Accept, allVoid: bool, lv: nat, tb: Tables,
                  c: Out, pf: Accept, o: Out)
    requires lv > 0 && pairs != []
    requires Compile(efuns, pairs[0].cond, NOTHING.(negate := true), lv, tb) == Ok(c)
    requires pf == if |pairs| == 1 && !hasDefault && !allVoid then NOTHING else f.(negate := false)
    requires Compile(efuns, pairs[0].part, pf, lv, c.tables) == Ok(o) && |o.code| + 2 <= 0x7ffd
    ensures CompilePairs(efuns, isNotIf, pairs, hasDefault, f, allVoid, lv, tb)
         == PrependPairs([PairCode(c.code, isNotIf == c.neg, o.code, o.void)], c.conds + o.conds,
                         CompilePairs(efuns, isNotIf, pairs[1..], hasDefault, f, allVoid && o.void, lv, o.tables))
  {
    hide Compile, Faithful, Grows;
  }

  lemma PairStep(efuns: Efuns, isNotIf: bool, pairs: seq<Pair>, i: nat, hasDefault: bool, f: Accept, allVoid: bool, lv: nat, tb: Tables)
    requires lv > 0 && i < |pairs|
    ensures var c := Compile(efuns, pairs[i].cond, NOTHING.(negate := true), lv, tb);
            var pf := if i + 1 == |pairs| && !hasDefault && !allVoid then NOTHING else f.(negate := false);
            var r := CompilePairs(efuns, isNotIf, pairs[i..], hasDefault, f, allVoid, lv, tb);
            if c.Err? then r == Err(c.error)
            else
              var o := Compile(efuns, pairs[i].part, pf, lv, c.value.tables);
              if o.Err? then r == Err(o.error)
              else if |o.value.code| + 2 > 0x7ffd then r == Err(Unimplemented)
              else
                r == PrependPairs([PairCode(c.value.code, isNotIf == c.value.neg, o.value.code, o.value.void)],
                                  c.value.conds + o.value.conds,
                                  CompilePairs(efuns, isNotIf, pairs[i + 1..], hasDefault, f, allVoid && o.value.void, lv,
                                               o.value.tables))
  {
    hide *;
    assert pairs[i..][0] == pairs[i] && pairs[i..][1..] == pairs[i + 1..];
    FirstPairFails(efuns, isNotIf, pairs[i..], hasDefault, f, allVoid, lv, tb);
    var c := Compile(efuns, pairs[i].cond, NOTHING.(negate := true), lv, tb);
    var pf := if i + 1 == |pairs| && !hasDefault && !allVoid then NOTHING else f.(negate := false);
    if c.Ok? {
      var o := Compile(efuns, pairs[i].part, pf, lv, c.value.tables);
      if o.Ok? && |o.value.code| + 2 <= 0x7ffd {
        FirstPair(efuns, isNotIf, pairs[i..], hasDefault, f, allVoid, lv, tb, c.value, pf, o.value);
      }
    }
  }

  lemma CondTakesCode(efuns: Efuns, t: Tree, lv: nat, tb: Tables)
    requires lv > 0
    ensures var c := Compile(efuns, t, NOTHING.(negate := true), lv, tb); c.Ok? ==> c.value.code != []
  {
    hide Compile;
    var c := Compile(efuns, t, NOTHING.(negate := true), lv, tb);
  }

  lemma PrependPairsTwice(done: seq<PairCode>, conds: set<Conditional>, p: PairCode, l: set<Conditional>, r: Result<Pairs, CompileError>)
    ensures PrependPairs(done, conds, PrependPairs([p], l, r)) == PrependPairs(done + [p], conds + l, r)
  {
    if r.Ok? {
      assert done + ([p] + r.value.codes) == done + [p] + r.value.codes;
      assert conds + (l + r.value.conds) == conds + l + r.value.conds;
    }
  }

  lemma LastPairs(efuns: Efuns, isNotIf: bool, hasDefault: bool, f: Accept, allVoid: bool, lv: nat, tb: Tables, done: seq<PairCode>,
                  conds: set<Conditional>)
    requires lv > 0
    ensures PrependPairs(done, conds, CompilePairs(efuns, isNotIf, [], hasDefault, f, allVoid, lv, tb))
         == Ok(Pairs(done, tb, allVoid, conds))
  {
    assert done + [] == done && conds + {} == conds;
  }

  lemma LastAssign(efuns: Efuns, target: Target, void: bool, lv: nat, tb: Tables)
    requires lv > 0
    ensures var o := Compile(efuns, target.expr, NOTHING, lv, tb);
            var r := CompileAssign(efuns, [target], void, lv, tb);
            if o.Err? then r == Err(o.error)
            else
              var tb' := BindLocal(target.name, o.value.tables);
              var code := o.value.code + LvalueCode(target.name, tb') + [if void then F_VOID_ASSIGN else F_ASSIGN];
              r == Ok(Out(code, tb', void, false, o.value.conds))
  {
    hide Compile;
  }

  lemma Ends(efuns: Efuns, ts: seq<Tree>, targets: seq<Target>, f: Accept, lv: nat, tb: Tables)
    requires lv > 0
    ensures CompileEach(efuns, ts[|ts|..], lv, tb) == Ok(Out([], tb, true, false, {}))
    ensures CompileAll(efuns, ts[|ts|..], lv, tb) == Ok(Out([], tb, true, false, {}))
    ensures ts != [] ==> CompileComma(efuns, ts[|ts| - 1..], f, lv, tb) == Compile(efuns, ts[|ts| - 1], f, lv, tb)
    ensures targets != [] ==> targets[|targets| - 1..] == [targets[|targets| - 1]]
  {
    if ts != [] {
      assert ts[|ts| - 1..] == [ts[|ts| - 1]];
    }
  }

  function PrependPairs(done: seq<PairCode>, conds: set<Conditional>, r: Result<Pairs, CompileError>): Result<Pairs, CompileError> {
    var ps :- r;
    Ok(ps.(codes := done + ps.codes, conds := conds + ps.conds))
  }

  lemma {:induction false} LandFoldAppend(isAnd: bool, void: bool, args: seq<Code>, arg: Code, last: Code)
    ensures LandFold(isAnd, void, args + [arg], last)
         == (match LandJoin(isAnd, void, arg, last)
             case Err(e) => Err(e)
             case Ok(tail) => LandFold(isAnd, void, args, tail))
  {
    if args == [] {
      assert ([] + [arg])[1..] == [];
    } else {
      assert (args + [arg])[1..] == args[1..] + [arg];
      LandFoldAppend(isAnd, void, args[1..], arg, last);
    }
  }

  const VOID_GIVEN: Byte := 0x04

  /** The out-flag of a cond-part as the byte that is kept in place of a branch offset. */
  function FlagByte(void: bool): Byte {
    if void then VOID_GIVEN else 0
  }

  predicate HasVoidFlag(b: Byte) {
    b / 4 % 2 == 1
  }

  /** For one pair of #'?: the position after the cond-part, and the position after the condition. */
  datatype Positions = Positions(exitAt: nat, skipAt: nat)

  /** The pairs of #'? before backpatching: the branch behind each cond-part holds the out-flags. */
  function CondUnpatched(ps: seq<PairCode>): Code {
    if ps == [] then []
    else
      var p := ps[|ps| - 1];
      CondUnpatched(ps[..|ps| - 1]) + PairHead(p, false) + [F_BRANCH, FlagByte(p.void)]
  }

  class WorkArea {
    const efuns: Efuns
    var code: Code
    var codeMax: nat
    var values: seq<Value>
    var symbols: Symbols
    var levelsLeft: nat

    ghost predicate Valid()
      reads this
    {
      |code| <= codeMax && CODE_BUFFER_START_SIZE <= codeMax
    }

    function Collected(): Tables
      reads this
    {
      Tables(values, symbols)
    }

    constructor (efuns: Efuns, args: Symbols)
      ensures Valid() && this.efuns == efuns && code == [] && Collected() == Tables([], args) && levelsLeft == 0x8000
    {
      this.efuns := efuns;
      code, codeMax, values, symbols, levelsLeft := [], CODE_BUFFER_START_SIZE, [], args, 0x8000;
    }

    /** Double the buffer if less than `n` bytes are left. */
    method Reserve(n: nat)
      requires Valid() && n <= codeMax
      modifies this`codeMax
      ensures Valid() && |code| + n <= codeMax && old(codeMax) <= codeMax
    {
      if codeMax - |code| < n {
        codeMax := codeMax * 2;
      }
    }

    method Emit(b: Byte)
      requires Valid() && |code| < codeMax
      modifies this`code
      ensures Valid() && code == old(code) + [b]
    {
      code := code + [b];
    }

    method EmitShort(n: int)
      requires Valid() && |code| + 2 <= codeMax
      modifies this`code
      ensures Valid() && code == old(code) + Short(n)
    {
      code := code + Short(n);
    }

    /** Overwrite the short at `at`. */
    method PutShort(at: nat, n: int)
      requires Valid() && at + 2 <= |code|
      modifies this`code
      ensures Valid() && code == old(code)[..at] + Short(n) + old(code)[at + 2..]
    {
      code := code[at := Short(n)[0]][at + 1 := Short(n)[1]];
    }

    /** Copy the `j` bytes before `p` to before `q`, from the last to the first. */
    method MoveUp(p0: nat, q0: nat, j0: nat)
      requires Valid() && 0 < j0 <= p0 <= q0 <= |code|
      modifies this`code
      ensures Valid() && |code| == old(|code|)
      ensures code[..q0 - j0] == old(code)[..q0 - j0]
      ensures code[q0 - j0..q0] == old(code)[p0 - j0..p0]
      ensures code[q0..] == old(code)[q0..]
    {
      var p, q, j := p0, q0, j0;
      while j > 0
        invariant j <= j0 && p == p0 - (j0 - j) && q == q0 - (j0 - j)
        invariant |code| == old(|code|)
        invariant code[..q] == old(code)[..q]
        invariant code[q..q0] == old(code)[p..p0]
        invariant code[q0..] == old(code)[q0..]
      {
        p, q, j := p - 1, q - 1, j - 1;
        assert code[p] == old(code)[p] by {
          assert code[..q + 1][p] == old(code)[..q + 1][p];
        }
        code := code[q := code[p]];
      }
    }

    /** Move everything behind `start` up by `n` bytes; the gap keeps what was there. */
    method OpenGap(start: nat, n: nat, ghost front: Code, ghost moved: Code)
      requires Valid() && code == front + moved && start == |front| && moved != [] && |code| + n <= codeMax
      modifies this`code
      ensures Valid() && |code| == start + n + |moved|
      ensures code[..start] == front && code[start + n..] == moved
    {
      var end := |code|;
      code := code + seq(n, _ => 0);
      ghost var before := code;
      assert before[start..end] == moved;
      MoveUp(end, end + n, end - start);
      assert code[..start] == code[..start + n][..start] == before[..start + n][..start] == front;
      assert code[start + n..] == code[start + n..end + n] + code[end + n..];
    }

    /** Put `branch` where the old branch and the gap behind it are. */
    method FillGap(start: nat, branch: Code, ghost base: Code, ghost tail: Code)
      requires Valid() && start + |branch| <= |code| && code[..start] == base && code[start + |branch|..] == tail
      modifies this`code
      ensures Valid() && code == base + branch + tail
    {
      code := code[..start] + branch + code[start + |branch|..];
    }

    // ----- #'&& and #'||

    /** Walk back over the branches and store their offsets; widen all that are left once one is too far. */
    method PatchLand(isAnd: bool, void: bool, branchp: seq<nat>, ghost pre: Code, ghost args: seq<Code>, ghost last: Code)
      returns (err: Option<CompileError>)
      requires Valid() && code == pre + Unpatched(args, LandOp(isAnd, void)) + last
      requires Branches(pre, args, LandOp(isAnd, void), branchp)
      modifies this`code, this`codeMax
      ensures Valid()
      ensures match LandFold(isAnd, void, args, last)
              case Ok(c) => err == None && code == pre + c
              case Err(e) => err == Some(e)
    {
      hide Unpatched, LandFold;
      var op := LandOp(isAnd, void);
      var i := |branchp|;
      var end := |code|;
      ghost var tail := last;
      assert args[..|args|] == args;
      NoArgs(isAnd, void, args, last, op);
      while i > 0
        invariant 0 <= i <= |args| && Valid() && end == |code|
        invariant code == pre + Unpatched(args[..i], op) + tail
        invariant LandFold(isAnd, void, args[i..], last) == Ok(tail)
      {
        var start := branchp[i - 1];
        LastArg(isAnd, void, args, i, last, op);
        var offset := end - start - 2;
        ghost var base := pre + Unpatched(args[..i - 1], op) + args[i - 1];
        assert code == base + [op, 0] + tail && |base| == start;
        if offset <= 0xff {
          code := code[start + 1 := offset];
          assert code == base + [op, offset] + tail;
          assert code == pre + Unpatched(args[..i - 1], op) + (args[i - 1] + [op, offset] + tail);
          tail := args[i - 1] + [op, offset] + tail;
          i := i - 1;
        } else {
          err := WidenLand(isAnd, void, branchp, i, pre, args, last, tail);
          return;
        }
      }
      assert code == pre + tail;
      assert args[0..] == args;
      err := None;
    }

    /** The stored positions are those of the branches; every argument takes code. */
    static ghost predicate Branches(pre: Code, args: seq<Code>, op: Byte, branchp: seq<nat>) {
      && |branchp| == |args|
      && (forall k :: 0 <= k < |args| ==> args[k] != [])
      && (forall k :: 0 <= k < |args| ==> branchp[k] == |pre| + |Unpatched(args[..k + 1], op)| - 2)
    }

    static lemma BranchAt(pre: Code, args: seq<Code>, op: Byte, branchp: seq<nat>, i: nat)
      requires Branches(pre, args, op, branchp) && 0 < i <= |args|
      ensures |branchp| == |args| && branchp[i - 1] == |pre| + |Unpatched(args[..i], op)| - 2
      ensures forall k :: 0 <= k < |args| ==> args[k] != []
    {
    }

    static lemma WideJoin(isAnd: bool, void: bool, arg: Code, tail: Code)
      requires |tail| > 0xff
      ensures |LandBranch(isAnd, void, |tail|)| == if void then 3 else 5
      ensures LandJoin(isAnd, void, arg, tail)
           == if |tail| + (if void then 2 else 3) > 0x7fff then Err(Unimplemented)
              else Ok(arg + LandBranch(isAnd, void, |tail|) + tail)
    {
    }

    static lemma NoArgs(isAnd: bool, void: bool, args: seq<Code>, last: Code, op: Byte)
      ensures Unpatched(args[..0], op) == []
      ensures LandFold(isAnd, void, args[|args|..], last) == Ok(last)
    {
    }

    static lemma LastArg(isAnd: bool, void: bool, args: seq<Code>, i: nat, last: Code, op: Byte)
      requires 0 < i <= |args|
      ensures Unpatched(args[..i], op) == Unpatched(args[..i - 1], op) + args[i - 1] + [op, 0]
      ensures LandFold(isAnd, void, args[i - 1..], last)
           == (match LandFold(isAnd, void, args[i..], last)
               case Err(e) => Err(e)
               case Ok(tail) => LandJoin(isAnd, void, args[i - 1], tail))
    {
      assert args[..i][..i - 1] == args[..i - 1];
      assert args[i - 1..][0] == args[i - 1] && args[i - 1..][1..] == args[i..];
    }

    /** Move the code up, from the end, replacing short branches by long ones. */
    method WidenLand(isAnd: bool, void: bool, branchp: seq<nat>, i0: nat, ghost pre: Code, ghost args: seq<Code>, ghost last: Code,
                     ghost tail0: Code)
      returns (err: Option<CompileError>)
      requires Valid() && 0 < i0 <= |args|
      requires code == pre + Unpatched(args[..i0], LandOp(isAnd, void)) + tail0
      requires Branches(pre, args, LandOp(isAnd, void), branchp)
      requires LandFold(isAnd, void, args[i0..], last) == Ok(tail0) && |tail0| > 0xff
      modifies this`code, this`codeMax
      ensures Valid()
      ensures match LandFold(isAnd, void, args, last)
              case Ok(c) => err == None && code == pre + c
              case Err(e) => err == Some(e)
    {
      hide Unpatched, LandFold, LandJoin, LandBranch, Branches;
      var op := LandOp(isAnd, void);
      var growthFactor := if void then 1 else 3;
      var growth := if void then i0 else i0 * 3;
      var end := |code| + growthFactor - 1;
      if !void {
        end := end - 1;
      }
      BranchAt(pre, args, op, branchp, i0);
      UnpatchedSize(args[..i0], op);
      Reserve(growth);
      var p := |code|;
      code := code + seq(growth, _ => 0);
      var q := p + growth;
      var i := i0;
      ghost var x, y: Code := tail0, [];
      assert x + y == tail0;
      assert code[..p] == pre + Unpatched(args[..i], op) + x;
      NoArgs(isAnd, void, args, last, op);
      while i > 0
        invariant 0 <= i <= i0 && Valid() && 0 <= p <= q <= |code| && q - p == (if void then i else i * 3)
        invariant code[..p] == pre + Unpatched(args[..i], op) + x
        invariant code[q..] == y
        invariant x != [] && |x + y| > 0xff
        invariant LandFold(isAnd, void, args[i..], last) == Ok(x + y)
        invariant end == |pre| + |Unpatched(args[..i], op)| - 2 + |x + y| + (if void then 2 else 3)
      {
        LastArg(isAnd, void, args, i, last, op);
        BranchAt(pre, args, op, branchp, i);
        WideJoin(isAnd, void, args[i - 1], x + y);
        var start := branchp[i - 1];
        var offset := end - start;
        end := end + growthFactor;
        if offset > 0x7fff {
          LandFoldError(isAnd, void, args, i - 1, last);
          return Some(Unimplemented);
        }
        ghost var base := pre + Unpatched(args[..i - 1], op) + args[i - 1];
        Assoc4(pre, Unpatched(args[..i - 1], op), args[i - 1], [op, 0], x);
        assert code[..p] == base + ([op, 0] + x) && |base| == start;
        p, q := WidenOne(isAnd, void, start, offset, p, q, base, x, y);
        ghost var tail := x + y;
        x, y := args[i - 1], LandBranch(isAnd, void, |tail|) + tail;
        Assoc(args[i - 1], LandBranch(isAnd, void, |tail|), tail);
        assert |x + y| == |args[i - 1]| + |y|;
        i := i - 1;
      }
      Rejoined(code, p, pre, Unpatched(args[..0], op), x, y);
      assert args[0..] == args;
      err := None;
    }

    /** Move the code behind the branch at `start` to before `q`, and put a long branch before it. */
    method WidenOne(isAnd: bool, void: bool, start: nat, offset: nat, p0: nat, q0: nat, ghost base: Code, ghost x: Code, ghost y: Code)
      returns (p: nat, q: nat)
      requires Valid() && p0 + (if void then 1 else 3) <= q0 <= |code|
      requires code[..p0] == base + [LandOp(isAnd, void), 0] + x && |base| == start && x != []
      requires code[q0..] == y
      requires |x + y| > 0xff && offset == |x + y| + (if void then 2 else 3)
      modifies this`code
      ensures Valid() && |code| == old(|code|)
      ensures q0 - p0 - (q - p) == (if void then 1 else 3) && p <= q <= |code|
      ensures code[..p] == base && code[q..] == LandBranch(isAnd, void, |x + y|) + (x + y)
    {
      hide Short;
      var branch := if void then [LongBranchOp(isAnd)] + Short(offset)
                    else [F_DUP, LongBranchOp(isAnd)] + Short(offset) + [F_POP_VALUE];
      assert branch == LandBranch(isAnd, void, |x + y|);
      p, q := ShiftBranch(start, branch, p0, q0, LandOp(isAnd, void), 0, base, x, y);
    }

    /** Move the code behind the two-byte branch at `start` to before `q`, and put `branch` before it. */
    method ShiftBranch(start: nat, branch: Code, p0: nat, q0: nat, ghost op: Byte, ghost operand: Byte, ghost base: Code, ghost x: Code,
                       ghost y: Code)
      returns (p: nat, q: nat)
      requires Valid() && 2 <= |branch| && p0 + |branch| - 2 <= q0 <= |code|
      requires code[..p0] == base + [op, operand] + x && |base| == start && x != []
      requires code[q0..] == y
      modifies this`code
      ensures Valid() && |code| == old(|code|)
      ensures p == start && q0 - p0 - (q - p) == |branch| - 2 && p <= q <= |code|
      ensures code[..p] == base && code[q..] == branch + (x + y)
    {
      var j := p0 - start - 2;
      ghost var before := code;
      assert before[..p0][..start] == base && before[..p0][start + 2..] == x;
      MoveUp(p0, q0, j);
      p, q := start, q0 - j - |branch|;
      ghost var moved := code[q0 - j..];
      assert moved == x + y by {
        assert moved == code[q0 - j..q0] + code[q0..];
        assert before[p0 - j..p0] == before[..p0][p0 - j..] == x;
      }
      assert code[..p] == code[..q0 - j][..p] == before[..q0 - j][..p] == before[..p0][..p];
      ghost var mid := code;
      code := code[..q] + branch + code[q + |branch|..];
      assert code[..p] == code[..q][..p] == mid[..q][..p] == mid[..p];
      assert code[q..] == branch + moved;
    }

    static lemma {:induction false} UnpatchedSize(args: seq<Code>, op: Byte)
      requires forall k :: 0 <= k < |args| ==> args[k] != []
      ensures |Unpatched(args, op)| >= 3 * |args|
    {
      if args != [] {
        UnpatchedSize(args[..|args| - 1], op);
      }
    }

    static lemma {:induction false} LandFoldError(isAnd: bool, void: bool, args: seq<Code>, i: nat, last: Code)
      requires i <= |args| && LandFold(isAnd, void, args[i..], last).Err?
      ensures LandFold(isAnd, void, args, last) == LandFold(isAnd, void, args[i..], last)
    {
      if i == 0 {
        assert args[0..] == args;
      } else {
        assert args[i - 1..][1..] == args[i..];
        LandFoldError(isAnd, void, args, i - 1, last);
      }
    }

    // ----- #'? and #'?!

    /** The stored positions: for each pair the branch behind the cond-part and the branch that skips it. */
    static ghost predicate PairBranches(pre: Code, ps: seq<PairCode>, branchp: seq<Positions>) {
      && |branchp| == |ps|
      && forall k :: 0 <= k < |ps| ==>
           && branchp[k].exitAt == |pre| + |CondUnpatched(ps[..k + 1])| - 2
           && branchp[k].skipAt == |pre| + |CondUnpatched(ps[..k])| + |ps[k].cond|
    }

    /** The destinations, as far as some cond-part needs them. */
    static ghost predicate Destinations(ps: seq<PairCode>, e: Ending, end: int, voidDest: int, nonVoidDest: int) {
      && WellEnded(e)
      && forall k :: 0 <= k < |ps| ==>
           (if ps[k].void then voidDest else nonVoidDest) == end - Back(ExitOf(e, ps[k].void))
    }

    static lemma DestinationStep(ps: seq<PairCode>, e: Ending, end: int, voidDest: int, nonVoidDest: int, k: nat)
      requires Destinations(ps, e, end, voidDest, nonVoidDest) && k < |ps|
      ensures (if ps[k].void then voidDest else nonVoidDest) == end - Back(ExitOf(e, ps[k].void))
      ensures WellEnded(e) && Destinations(ps, e, end + 1, voidDest + 1, nonVoidDest + 1)
    {
    }

    static lemma NoPairs(ps: seq<PairCode>, e: Ending)
      requires WellEnded(e)
      ensures CondUnpatched(ps[..0]) == [] && ps[..|ps|] == ps && ps[0..] == ps
      ensures Layout(|ps|, ps[|ps|..], e) == Ok(e.tail)
    {
    }

    static lemma LastPair(ps: seq<PairCode>, i: nat, e: Ending)
      requires 0 < i <= |ps| && WellEnded(e)
      ensures CondUnpatched(ps[..i])
           == CondUnpatched(ps[..i - 1]) + PairHead(ps[i - 1], false) + [F_BRANCH, FlagByte(ps[i - 1].void)]
      ensures Layout(i - 1, ps[i - 1..], e)
           == (match Layout(i, ps[i..], e)
               case Err(err) => Err(err)
               case Ok(rest) =>
                 var d: nat := ExitDistance(e, ps[i - 1].void, rest);
                 if d > 0xff && d + 1 > 0x7fff then Err(Unimplemented)
                 else Ok(PairHead(ps[i - 1], d > 0xff) + ExitBranch(i - 1, d) + rest))
    {
      assert ps[..i][..i - 1] == ps[..i - 1];
      assert ps[i - 1..][0] == ps[i - 1] && ps[i - 1..][1..] == ps[i..];
    }

    static lemma {:induction false} LayoutError(ps: seq<PairCode>, i: nat, e: Ending)
      requires i <= |ps| && WellEnded(e) && Layout(i, ps[i..], e).Err?
      ensures Layout(0, ps, e) == Layout(i, ps[i..], e)
    {
      if i == 0 {
        assert ps[0..] == ps;
      } else {
        LastPair(ps, i, e);
        LayoutError(ps, i - 1, e);
      }
    }

    /** Walk back over the pairs and store the offsets of the branches behind the cond-parts. */
    method PatchCond(branchp: seq<Positions>, voidDest: int, nonVoidDest: int, ghost pre: Code, ghost ps: seq<PairCode>, ghost e: Ending)
      returns (err: Option<CompileError>)
      requires Valid() && code == pre + CondUnpatched(ps) + e.tail
      requires PairBranches(pre, ps, branchp) && Destinations(ps, e, |code|, voidDest, nonVoidDest)
      requires forall k :: 0 <= k < |ps| ==> ps[k].cond != []
      modifies this`code, this`codeMax
      ensures Valid()
      ensures match Layout(0, ps, e)
              case Ok(c) => err == None && code == pre + c
              case Err(error) => err == Some(error)
    {
      hide CondUnpatched, Layout, PairHead, FlagByte;
      var i := |branchp|;
      var end := |code|;
      ghost var tail := e.tail;
      NoPairs(ps, e);
      while i > 0
        invariant 0 <= i <= |ps| && Valid() && end == |code|
        invariant code == pre + CondUnpatched(ps[..i]) + tail
        invariant Layout(i, ps[i..], e) == Ok(tail)
      {
        var start := branchp[i - 1].exitAt;
        LastPair(ps, i, e);
        FlagOf(ps[i - 1].void);
        ghost var head := PairHead(ps[i - 1], false);
        ghost var base := pre + CondUnpatched(ps[..i - 1]) + head;
        assert code == base + [F_BRANCH, FlagByte(ps[i - 1].void)] + tail && |base| == start;
        var offset := (if HasVoidFlag(code[start + 1]) then voidDest else nonVoidDest) - start - 2;
        assert offset == ExitDistance(e, ps[i - 1].void, tail);
        if offset <= 0xff {
          code := code[start + 1 := offset];
          assert code == base + [F_BRANCH, offset] + tail;
          assert code == pre + CondUnpatched(ps[..i - 1]) + (head + [F_BRANCH, offset] + tail);
          tail := head + [F_BRANCH, offset] + tail;
          i := i - 1;
        } else {
          err := WidenCond(branchp, i, voidDest, nonVoidDest, pre, ps, e, tail);
          return;
        }
      }
      assert code == pre + tail;
      err := None;
    }

    static lemma FlagOf(void: bool)
      ensures HasVoidFlag(FlagByte(void)) == void
    {
    }

    static function Unsigned16(hi: Byte, lo: Byte): int {
      var h: int := hi;
      h * 256 + lo
    }

    /** Add `delta` to the short at `at`. */
    method AdjustShort(at: nat, delta: int, ghost n: nat, ghost base: Code, ghost rest: Code)
      requires Valid() && code == base + Short(n) + rest && at == |base|
      modifies this`code
      ensures Valid() && code == base + Short(n + delta) + rest
    {
      assert code[at] == Short(n)[0] && code[at + 1] == Short(n)[1];
      var dist := Unsigned16(code[at], code[at + 1]);
      ShortStep(n, dist, delta);
      PutShort(at, dist + delta);
    }

    /** Let a skip branch cover `delta` bytes more. */
    method AdjustSkip(at: nat, delta: int, ghost n: nat, ghost whenZero: bool, ghost base: Code, ghost rest: Code)
      requires Valid() && code == base + SkipBranch(whenZero, n, n + 2) + rest && at == |base|
      requires -2 <= delta <= 1
      modifies this`code
      ensures Valid() && code == base + SkipBranch(whenZero, n, n + 2 + delta) + rest
    {
      hide Short;
      var op := code[at];
      if op == F_LBRANCH_WHEN_ZERO || op == F_LBRANCH_WHEN_NON_ZERO {
        assert code == (base + [op]) + Short(n + 4) + rest;
        AdjustShort(at + 1, delta, n + 4, base + [op], rest);
        assert code == base + ([op] + Short(n + 4 + delta)) + rest;
      } else {
        var byte: int := code[at + 1];
        code := code[at + 1 := byte + delta];
      }
    }

    /** The skip branch still covers the cond-part when the branch behind it becomes one byte longer. */
    method BumpSkip(at: nat, ghost before: Code, ghost p: PairCode, ghost after: Code)
      requires Valid() && code == before + PairHead(p, false) + after && at == |before| + |p.cond|
      modifies this`code
      ensures Valid() && code == before + PairHead(p, true) + after
    {
      hide SkipBranch;
      ghost var n := |p.part|;
      assert code == (before + p.cond) + SkipBranch(p.whenZero, n, n + 2) + (p.part + after);
      AdjustSkip(at, 1, n, p.whenZero, before + p.cond, p.part + after);
      assert code == (before + p.cond) + SkipBranch(p.whenZero, n, n + 3) + (p.part + after);
    }

    /** The same while the code is being moved: only the part below `p` is affected. */
    method BumpBelow(at: nat, ghost p: nat, ghost q: nat, ghost before: Code, ghost pair: PairCode, ghost after: Code, ghost y: Code)
      requires Valid() && p <= q <= |code| && code[..p] == before + PairHead(pair, false) + after && at == |before| + |pair.cond|
      requires code[q..] == y && |PairHead(pair, false)| == |PairHead(pair, true)|
      modifies this`code
      ensures Valid() && |code| == old(|code|)
      ensures code[..p] == before + PairHead(pair, true) + after && code[q..] == y
    {
      hide PairHead;
      ghost var rest := code[p..];
      assert code == code[..p] + rest;
      assert code == before + PairHead(pair, false) + (after + rest);
      BumpSkip(at, before, pair, after + rest);
      assert code == (before + PairHead(pair, true) + after) + rest;
      assert code[p..] == rest && code[q..] == rest[q - p..];
    }

    /** Reading a short, changing it and storing it again. */
    static lemma ShortStep(n: nat, u: int, delta: int)
      requires u == Unsigned16(Short(n)[0], Short(n)[1])
      ensures Short(u + delta) == Short(n + delta)
    {
      var k := n / 0x1_0000;
      assert n / 256 % 256 == n / 256 - 256 * k;
      assert u == n - 0x1_0000 * k;
      ShortPeriod(u + delta, k);
    }

    static lemma ShortPeriod(u: int, k: int)
      ensures Short(u + 0x1_0000 * k) == Short(u)
    {
      var n := u + 0x1_0000 * k;
      assert n / 256 == u / 256 + 256 * k;
      assert n / 256 % 256 == u / 256 % 256;
      assert n % 256 == u % 256;
    }

    /** Move the code behind the branch at `start` to before `q`, and put the long branch before it. */
    method WidenExit(start: nat, dist: int, p0: nat, q0: nat, ghost flag: Byte, ghost base: Code, ghost x: Code, ghost y: Code)
      returns (p: nat, q: nat)
      requires Valid() && p0 < q0 <= |code|
      requires code[..p0] == base + [F_BRANCH, flag] + x && |base| == start && x != []
      requires code[q0..] == y
      modifies this`code
      ensures Valid() && |code| == old(|code|)
      ensures q0 - p0 - (q - p) == 1 && p <= q <= |code| && p == start
      ensures code[..p] == base && code[q..] == [F_LBRANCH] + Short(dist) + (x + y)
    {
      hide Short;
      p, q := ShiftBranch(start, [F_LBRANCH] + Short(dist), p0, q0, F_BRANCH, flag, base, x, y);
    }

    static lemma {:induction false} CondUnpatchedSize(ps: seq<PairCode>)
      requires forall k :: 0 <= k < |ps| ==> ps[k].cond != []
      ensures |CondUnpatched(ps)| >= 5 * |ps|
    {
      if ps != [] {
        CondUnpatchedSize(ps[..|ps| - 1]);
      }
    }

    static lemma PairAt(pre: Code, ps: seq<PairCode>, branchp: seq<Positions>, i: nat)
      requires PairBranches(pre, ps, branchp) && 0 < i <= |ps|
      ensures |branchp| == |ps|
      ensures branchp[i - 1].exitAt == |pre| + |CondUnpatched(ps[..i])| - 2
      ensures branchp[i - 1].skipAt == |pre| + |CondUnpatched(ps[..i - 1])| + |ps[i - 1].cond|
    {
    }

    /** Widen the branch behind one cond-part, `i` more branches being left. */
    method WidenPair(skip: nat, start: nat, voidDest: int, nonVoidDest: int, p0: nat, q0: nat, ghost i: nat, ghost before: Code,
                     ghost pair: PairCode, ghost e: Ending, ghost x: Code, ghost y: Code)
      returns (err: Option<CompileError>, p: nat, q: nat)
      requires Valid() && p0 < q0 <= |code| && q0 - p0 == i + 1 && x != []
      requires code[..p0] == before + PairHead(pair, false) + ([F_BRANCH, FlagByte(pair.void)] + x)
      requires code[q0..] == y
      requires skip == |before| + |pair.cond| && start == |before| + |PairHead(pair, false)|
      requires |PairHead(pair, false)| == |PairHead(pair, true)|
      requires (if pair.void then voidDest else nonVoidDest) == start + 2 + ExitDistance(e, pair.void, x + y)
      requires ExitDistance(e, pair.void, x + y) > 0xff
      modifies this`code
      ensures Valid() && |code| == old(|code|)
      ensures var d := ExitDistance(e, pair.void, x + y);
              if d + 1 > 0x7fff then err == Some(Unimplemented)
              else
                && err == None && p <= q <= |code| && q - p == i
                && code[..p] == before + PairHead(pair, true) && code[q..] == ExitBranch(i, d) + (x + y)
    {
      hide PairHead, FlagByte;
      p, q := p0, q0;
      FlagOf(pair.void);
      ghost var flag := FlagByte(pair.void);
      BumpBelow(skip, p, q, before, pair, [F_BRANCH, flag] + x, y);
      ghost var base := before + PairHead(pair, true);
      assert code[..p] == base + [F_BRANCH, flag] + x;
      assert code[..p][start + 1] == flag;
      var offset := (if HasVoidFlag(code[start + 1]) then voidDest else nonVoidDest) - start - 1;
      if offset > 0x7fff {
        return Some(Unimplemented), p, q;
      }
      var dist := offset + (q - p);
      p, q := WidenExit(start, dist, p, q, flag, base, x, y);
      err := None;
    }

    /** Move the code up, from the end, replacing the short branches behind the cond-parts by long ones. */
    method WidenCond(branchp: seq<Positions>, i0: nat, voidDest0: int, nonVoidDest0: int, ghost pre: Code, ghost ps: seq<PairCode>, ghost e: Ending,
                     ghost tail0: Code)
      returns (err: Option<CompileError>)
      requires Valid() && 0 < i0 <= |ps| && code == pre + CondUnpatched(ps[..i0]) + tail0
      requires PairBranches(pre, ps, branchp) && Destinations(ps, e, |code|, voidDest0, nonVoidDest0)
      requires forall k :: 0 <= k < |ps| ==> ps[k].cond != []
      requires Layout(i0, ps[i0..], e) == Ok(tail0) && ExitDistance(e, ps[i0 - 1].void, tail0) > 0xff
      modifies this`code, this`codeMax
      ensures Valid()
      ensures match Layout(0, ps, e)
              case Ok(c) => err == None && code == pre + c
              case Err(error) => err == Some(error)
    {
      hide CondUnpatched, Layout, PairHead, FlagByte, PairBranches, Destinations;
      var growth := i0;
      DestinationStep(ps, e, |code|, voidDest0, nonVoidDest0, i0 - 1);
      PairAt(pre, ps, branchp, i0);
      CondUnpatchedSize(ps[..i0]);
      Reserve(growth);
      var p: nat := |code|;
      code := code + seq(growth, _ => 0);
      var q: nat := p + growth;
      assert code[..p] == pre + CondUnpatched(ps[..i0]) + tail0;
      err := WidenPairs(branchp, i0, voidDest0, nonVoidDest0, p, q, pre, ps, e, tail0);
    }

    /** The pairs below `i0` are still to be moved by `q0 - p0` bytes. */
    method WidenPairs(branchp: seq<Positions>, i0: nat, voidDest0: int, nonVoidDest0: int, p0: nat, q0: nat, ghost pre: Code,
                      ghost ps: seq<PairCode>, ghost e: Ending, ghost tail0: Code)
      returns (err: Option<CompileError>)
      requires Valid() && 0 < i0 <= |ps| && p0 + i0 == q0 == |code| && code[..p0] == pre + CondUnpatched(ps[..i0]) + tail0
      requires PairBranches(pre, ps, branchp) && Destinations(ps, e, p0, voidDest0, nonVoidDest0) && WellEnded(e)
      requires forall k :: 0 <= k < |ps| ==> ps[k].cond != []
      requires Layout(i0, ps[i0..], e) == Ok(tail0) && ExitDistance(e, ps[i0 - 1].void, tail0) > 0xff
      modifies this`code
      ensures Valid()
      ensures match Layout(0, ps, e)
              case Ok(c) => err == None && code == pre + c
              case Err(error) => err == Some(error)
    {
      hide CondUnpatched, Layout, PairHead, FlagByte, PairBranches, Destinations, ExitBranch;
      var p, q, i, voidDest, nonVoidDest := p0, q0, i0, voidDest0, nonVoidDest0;
      ghost var x, y: Code := tail0, [];
      assert x + y == tail0;
      NoPairs(ps, e);
      while i > 0
        invariant 0 <= i <= i0 && Valid() && 0 <= p <= q <= |code| && q - p == i
        invariant code[..p] == pre + CondUnpatched(ps[..i]) + x
        invariant code[q..] == y && x != []
        invariant Layout(i, ps[i..], e) == Ok(x + y)
        invariant |x + y| > 0xff && (i > 0 ==> ExitDistance(e, ps[i - 1].void, x + y) > 0xff)
        invariant Destinations(ps, e, |pre| + |CondUnpatched(ps[..i])| + |x + y|, voidDest, nonVoidDest)
      {
        LastPair(ps, i, e);
        PairAt(pre, ps, branchp, i);
        HeadSize(ps[i - 1]);
        DestinationStep(ps, e, |pre| + |CondUnpatched(ps[..i])| + |x + y|, voidDest, nonVoidDest, i - 1);
        ghost var before := pre + CondUnpatched(ps[..i - 1]);
        Assoc4(pre, CondUnpatched(ps[..i - 1]), PairHead(ps[i - 1], false), [F_BRANCH, FlagByte(ps[i - 1].void)], x);
        err, p, q := WidenPair(branchp[i - 1].skipAt, branchp[i - 1].exitAt, voidDest, nonVoidDest, p, q, i - 1, before, ps[i - 1], e,
                               x, y);
        if err.Some? {
          LayoutError(ps, i - 1, e);
          return;
        }
        voidDest, nonVoidDest := voidDest + 1, nonVoidDest + 1;
        ghost var tail := x + y;
        ghost var d: nat := ExitDistance(e, ps[i - 1].void, tail);
        x, y := PairHead(ps[i - 1], true), ExitBranch(i - 1, d) + tail;
        Assoc(x, ExitBranch(i - 1, d), tail);
        WideExit(i - 1, d);
        i := i - 1;
      }
      Rejoined(code, p, pre, CondUnpatched(ps[..0]), x, y);
      err := None;
    }

    /** The two parts of the code have met. */
    static lemma Rejoined(code: Code, p: nat, pre: Code, none: Code, x: Code, y: Code)
      requires p <= |code| && code[..p] == pre + none + x && code[p..] == y && none == []
      ensures code == pre + (x + y)
    {
      assert code == code[..p] + code[p..];
    }

    static lemma Assoc(a: Code, b: Code, c: Code)
      ensures a + (b + c) == a + b + c
    {
    }

    static lemma Assoc4(a: Code, b: Code, c: Code, d: Code, e: Code)
      ensures a + (b + c + d) + e == a + b + c + (d + e)
    {
    }

    static lemma WideExit(i: nat, d: nat)
      requires d > 0xff
      ensures |ExitBranch(i, d)| == 3
    {
    }

    static lemma HeadSize(p: PairCode)
      requires p.cond != []
      ensures |PairHead(p, false)| == |PairHead(p, true)| >= 3
    {
    }

    // ----- single values

    /** The outcome of a compilation: the code `spec` describes, appended to what was there before. */
    ghost predicate Done(r: Result<Given, CompileError>, spec: Result<Out, CompileError>, before: Code, levels: nat)
      reads this
    {
      && Valid()
      && match spec
         case Err(e) => r == Err(e)
         case Ok(o) =>
           r == Ok(Given(o.void, o.neg)) && code == before + o.code && Collected() == o.tables && levelsLeft == levels
    }

    /** Add a value to the value block, and the instruction that pushes it. */
    method InsertValuePush(v: Value)
      requires Valid()
      modifies this
      ensures Valid() && levelsLeft == old(levelsLeft)
      ensures var o := ValuePush(v, old(Collected())); code == old(code) + o.code && Collected() == o.tables
    {
      Reserve(3);
      var offset := |values|;
      if offset < 0xff {
        Emit(F_LAMBDA_CCONSTANT);
        Emit(offset);
      } else {
        if offset == 0xff {
          values := values + [Num(0)];
          offset := offset + 1;
        }
        Emit(F_LAMBDA_CONSTANT);
        EmitShort(offset);
      }
      values := values + [v];
    }

    method CompileConst(v: Value, f: Accept) returns (r: Result<Given, CompileError>)
      requires Valid()
      modifies this
      ensures Done(r, Ok(ConstCode(v, f, old(Collected()))), old(code), old(levelsLeft))
    {
      r := Ok(Given(false, false));
      if !v.Num? || v.n <= -0x100 || v.n >= 0x100 {
        InsertValuePush(v);
      } else if v.n >= 0 {
        Reserve(2);
        if v.n == 0 {
          if f.void || f.zero {
            r := Ok(Given(true, false));
          } else {
            Emit(F_CONST0);
          }
        } else if v.n == 1 {
          Emit(F_CONST1);
        } else {
          Emit(F_CLIT);
          Emit(v.n);
        }
      } else {
        Reserve(2);
        Emit(F_NCLIT);
        Emit(0 - v.n);
      }
    }

    /** The constants 0 and 1 the compiler supplies itself. */
    method CompileLeaf(n: int, f: Accept) returns (r: Result<Given, CompileError>)
      requires Valid() && levelsLeft > 0
      modifies this
      ensures Done(r, Leaf(n, f, old(levelsLeft), old(Collected())), old(code), old(levelsLeft))
    {
      levelsLeft := levelsLeft - 1;
      if levelsLeft == 0 {
        return Err(TooDeep);
      }
      r := CompileConst(Num(n), f);
      levelsLeft := levelsLeft + 1;
    }

    /** Create the local variable if necessary, and push it as lvalue. Leaves room for one more byte. */
    method CompileLvalue(name: Name)
      requires Valid()
      modifies this
      ensures Valid() && |code| < codeMax && levelsLeft == old(levelsLeft)
      ensures Collected() == BindLocal(name, old(Collected()))
      ensures code == old(code) + LvalueCode(name, Collected())
    {
      if name !in symbols {
        symbols := symbols + [name];
      }
      Reserve(3);
      Emit(F_PUSH_LOCAL_VARIABLE_LVALUE);
      Emit(LocalByte(IndexOf(symbols, name)));
    }

    /** Pop the result of an expression that has one. */
    method PopResult(g: Given)
      requires Valid()
      modifies this`code, this`codeMax
      ensures Valid() && code == old(code) + (if g.void then [] else [F_POP_VALUE])
    {
      if !g.void {
        Reserve(1);
        Emit(F_POP_VALUE);
      }
    }

    // ----- blocks

    method CompileValue(t: Tree, f: Accept) returns (r: Result<Given, CompileError>)
      requires Valid() && levelsLeft > 0
      modifies this
      ensures Done(r, Compile(efuns, t, f, old(levelsLeft), old(Collected())), old(code), old(levelsLeft))
      decreases t, 3
    {
      Dispatched(efuns, t, f, levelsLeft, Collected());
      hide Compile, Faithful, Grows, CompileEfun, CompileComma, CompileNot, CompileLand, CompileLandEq, CompileAssign, CompileCond, CompileDo,
           CompileWhile;
      levelsLeft := levelsLeft - 1;
      if levelsLeft == 0 {
        return Err(TooDeep);
      }
      match t {
        case Const(v) => r := CompileConst(v, f);
        case Symbol(name) => r := CompileSymbol(name);
        case Efun(_, _) => r := CompileEfunBlock(t, f);
        case Comma(exprs) => r := CompileCommaBlock(t, f);
        case Not(_) => r := CompileNotBlock(t, f);
        case Land(_, _) => r := CompileLandBlock(t, f);
        case LandEq(_, _, _) => r := CompileLandEqBlock(t);
        case Assign(_) => r := CompileAssignBlock(t, f);
        case Cond(_, _, _, _) => r := CompileCondBlock(t, f);
        case Do(_, _, _) => r := CompileDoBlock(t, f);
        case While(_, _, _) => r := CompileWhileBlock(t, f);
      }
      levelsLeft := levelsLeft + 1;
    }

    /** A symbol is a local variable; creating it is left to assignments. */
    method CompileSymbol(name: Name) returns (r: Result<Given, CompileError>)
      requires Valid()
      modifies this`code, this`codeMax
      ensures Valid()
      ensures if name in symbols
              then r == Ok(Given(false, false)) && code == old(code) + [F_LOCAL, LocalByte(IndexOf(symbols, name))]
              else r == Err(NotBound(name))
    {
      if name !in symbols {
        return Err(NotBound(name));
      }
      Reserve(2);
      Emit(F_LOCAL);
      Emit(LocalByte(IndexOf(symbols, name)));
      r := Ok(Given(false, false));
    }

    method CompileNotBlock(t: Tree, f: Accept) returns (r: Result<Given, CompileError>)
      requires Valid() && levelsLeft > 0 && t.Not?
      modifies this
      ensures Done(r, CompileNot(efuns, t, f, old(levelsLeft), old(Collected())), old(code), old(levelsLeft))
      decreases t, 0
    {
      var g :- CompileValue(t.expr, f.(zero := false));
      if f.negate || g.void {
        g := g.(neg := !g.neg);
      } else {
        Reserve(1);
        Emit(F_NOT);
      }
      r := Ok(g);
    }

    /** Compile the arguments of an efun one after the other. */
    method CompileArgs(ts: seq<Tree>) returns (r: Option<CompileError>)
      requires Valid() && levelsLeft > 0
      modifies this
      ensures Valid()
      ensures var spec := CompileEach(efuns, ts, old(levelsLeft), old(Collected()));
              if spec.Err? then r == Some(spec.error)
              else && r == None && code == old(code) + spec.value.code && Collected() == spec.value.tables
                   && levelsLeft == old(levelsLeft)
      decreases ts, 0
    {
      hide Compile, CompileEach, Faithful, Grows;
      var i := 0;
      ghost var done: Code, conds := [], {};
      assert ts[0..] == ts;
      PrependNothing(CompileEach(efuns, ts, levelsLeft, Collected()));
      while i < |ts|
        invariant 0 <= i <= |ts| && Valid() && levelsLeft == old(levelsLeft) && code == old(code) + done
        invariant CompileEach(efuns, ts, old(levelsLeft), old(Collected()))
               == Prepend(done, conds, CompileEach(efuns, ts[i..], levelsLeft, Collected()))
      {
        ghost var o := Compile(efuns, ts[i], NOTHING, levelsLeft, Collected());
        EachStep(efuns, ts, i, levelsLeft, Collected());
        var g := CompileValue(ts[i], NOTHING);
        if g.Err? {
          return Some(g.error);
        }
        PrependTwice(done, conds, o.value.code, o.value.conds, CompileEach(efuns, ts[i + 1..], levelsLeft, Collected()));
        done, conds := done + o.value.code, conds + o.value.conds;
        i := i + 1;
      }
      Ends(efuns, ts, [], NOTHING, levelsLeft, Collected());
      return None;
    }

    method CompileEfunBlock(t: Tree, f: Accept) returns (r: Result<Given, CompileError>)
      requires Valid() && levelsLeft > 0 && t.Efun?
      modifies this
      ensures Done(r, CompileEfun(efuns, t, f, old(levelsLeft), old(Collected())), old(code), old(levelsLeft))
      decreases t, 0
    {
      hide Compile, CompileEach, Faithful, Grows;
      var failed := CompileArgs(t.args);
      if failed.Some? {
        return Err(failed.value);
      }
      Reserve(8);
      if |t.args| != efuns.arity(t.k) {
        return Err(WrongArgCount(t.k));
      }
      Emit(FIRST_EFUN + t.k);
      r := Ok(Given(false, false));
      if efuns.isVoid(t.k) {
        if f.zero || f.void {
          r := Ok(Given(true, false));
        } else {
          Emit(F_CONST0);
        }
      }
    }

    method CompileCommaBlock(t: Tree, f: Accept) returns (r: Result<Given, CompileError>)
      requires Valid() && levelsLeft > 0 && t.Comma?
      modifies this
      ensures Done(r, if t.exprs == [] then Leaf(0, f, old(levelsLeft), old(Collected()))
                      else CompileComma(efuns, t.exprs, f, old(levelsLeft), old(Collected())), old(code), old(levelsLeft))
      decreases t, 1
    {
      if t.exprs == [] {
        r := CompileLeaf(0, f);
      } else {
        r := CompileExprs(t, f);
      }
    }

    method CompileExprs(t: Tree, f: Accept) returns (r: Result<Given, CompileError>)
      requires Valid() && levelsLeft > 0 && t.Comma? && t.exprs != []
      modifies this
      ensures Done(r, CompileComma(efuns, t.exprs, f, old(levelsLeft), old(Collected())), old(code), old(levelsLeft))
      decreases t, 0
    {
      hide Compile, CompileComma, Faithful, Grows, Popped;
      var i := 0;
      ghost var done: Code, conds := [], {};
      assert t.exprs[0..] == t.exprs;
      PrependNothing(CompileComma(efuns, t.exprs, f, levelsLeft, Collected()));
      while i + 1 < |t.exprs|
        invariant 0 <= i < |t.exprs| && Valid() && levelsLeft == old(levelsLeft) && code == old(code) + done
        invariant CompileComma(efuns, t.exprs, f, old(levelsLeft), old(Collected()))
               == Prepend(done, conds, CompileComma(efuns, t.exprs[i..], f, levelsLeft, Collected()))
      {
        ghost var o := Compile(efuns, t.exprs[i], VOID_WANTED, levelsLeft, Collected());
        CommaStep(efuns, t.exprs, f, i, levelsLeft, Collected());
        var _ :- CompilePopped(t.exprs[i]);
        PrependTwice(done, conds, Popped(o.value), o.value.conds, CompileComma(efuns, t.exprs[i + 1..], f, levelsLeft, Collected()));
        done, conds := done + Popped(o.value), conds + o.value.conds;
        i := i + 1;
      }
      Ends(efuns, t.exprs, [], f, levelsLeft, Collected());
      ghost var last := Compile(efuns, t.exprs[i], f, levelsLeft, Collected());
      r := CompileValue(t.exprs[i], f);
      Rebase(r, last, old(code), done, conds, old(levelsLeft));
    }

    lemma Rebase(r: Result<Given, CompileError>, spec: Result<Out, CompileError>, before: Code, done: Code, conds: set<Conditional>, levels: nat)
      requires Done(r, spec, before + done, levels)
      ensures Done(r, Prepend(done, conds, spec), before, levels)
    {
      if spec.Ok? {
        assert before + done + spec.value.code == before + (done + spec.value.code);
      }
    }

    /** An expression of which only the effect is wanted, and the POP it may need. */
    method CompilePopped(t: Tree) returns (r: Result<Given, CompileError>)
      requires Valid() && levelsLeft > 0
      modifies this
      ensures Valid() && match Compile(efuns, t, VOID_WANTED, old(levelsLeft), old(Collected()))
              case Err(e) => r == Err(e)
              case Ok(o) => r.Ok? && code == old(code) + Popped(o) && Collected() == o.tables && levelsLeft == old(levelsLeft)
      decreases t, 4
    {
      hide Compile, Faithful, Grows;
      var g :- CompileValue(t, VOID_WANTED);
      PopResult(g);
      r := Ok(g);
    }

    method CompileAssignBlock(t: Tree, f: Accept) returns (r: Result<Given, CompileError>)
      requires Valid() && levelsLeft > 0 && t.Assign?
      modifies this
      ensures Done(r, if t.targets == [] then Err(MissingValue)
                      else CompileAssign(efuns, t.targets, f.void, old(levelsLeft), old(Collected())), old(code), old(levelsLeft))
      decreases t, 1
    {
      if t.targets == [] {
        r := Err(MissingValue);
      } else {
        r := CompileTargets(t, f);
      }
    }

    /** `<expr> <lvalue> ASSIGN`; the instruction uses the byte the lvalue left room for. */
    method CompileTarget(target: Target, op: Byte) returns (r: Result<Given, CompileError>)
      requires Valid() && levelsLeft > 0
      modifies this
      ensures Valid() && match Compile(efuns, target.expr, NOTHING, old(levelsLeft), old(Collected()))
              case Err(e) => r == Err(e)
              case Ok(o) =>
                && r.Ok? && Collected() == BindLocal(target.name, o.tables) && levelsLeft == old(levelsLeft)
                && code == old(code) + (o.code + LvalueCode(target.name, Collected()) + [op])
      decreases target, 0
    {
      hide Compile, Faithful, Grows, LvalueCode;
      var g :- CompileValue(target.expr, NOTHING);
      CompileLvalue(target.name);
      Emit(op);
      r := Ok(g);
    }

    method CompileTargets(t: Tree, f: Accept) returns (r: Result<Given, CompileError>)
      requires Valid() && levelsLeft > 0 && t.Assign? && t.targets != []
      modifies this
      ensures Done(r, CompileAssign(efuns, t.targets, f.void, old(levelsLeft), old(Collected())), old(code), old(levelsLeft))
      decreases t, 0
    {
      hide Compile, CompileAssign, Faithful, Grows, LvalueCode, BindLocal, Prepend;
      var i := 0;
      ghost var done: Code, conds := [], {};
      assert t.targets[0..] == t.targets;
      PrependNothing(CompileAssign(efuns, t.targets, f.void, levelsLeft, Collected()));
      while i + 1 < |t.targets|
        invariant 0 <= i < |t.targets| && Valid() && levelsLeft == old(levelsLeft) && code == old(code) + done
        invariant CompileAssign(efuns, t.targets, f.void, old(levelsLeft), old(Collected()))
               == Prepend(done, conds, CompileAssign(efuns, t.targets[i..], f.void, levelsLeft, Collected()))
      {
        ghost var o := Compile(efuns, t.targets[i].expr, NOTHING, levelsLeft, Collected());
        AssignStep(efuns, t.targets, f.void, i, levelsLeft, Collected());
        PrependError(done, conds, CompileAssign(efuns, t.targets[i..], f.void, levelsLeft, Collected()));
        var _ :- CompileTarget(t.targets[i], F_VOID_ASSIGN);
        ghost var step := o.value.code + LvalueCode(t.targets[i].name, Collected()) + [F_VOID_ASSIGN];
        PrependTwice(done, conds, step, o.value.conds, CompileAssign(efuns, t.targets[i + 1..], f.void, levelsLeft, Collected()));
        done, conds := done + step, conds + o.value.conds;
        i := i + 1;
      }
      Ends(efuns, [], t.targets, f, levelsLeft, Collected());
      LastAssign(efuns, t.targets[i], f.void, levelsLeft, Collected());
      ghost var last := CompileAssign(efuns, t.targets[i..], f.void, levelsLeft, Collected());
      PrependError(done, conds, last);
      r := CompileTarget(t.targets[i], if f.void then F_VOID_ASSIGN else F_ASSIGN);
      if r.Ok? {
        r := Ok(Given(f.void, false));
        Rebase(r, last, old(code), done, conds, old(levelsLeft));
      }
    }

    /** The variable, and the branch without offset. */
    method CompileLandEqHead(t: Tree) returns (branchp: nat)
      requires Valid() && t.LandEq?
      modifies this
      ensures Valid() && levelsLeft == old(levelsLeft) && Collected() == BindLocal(t.name, old(Collected()))
      ensures code == old(code) + (LvalueCode(t.name, Collected()) + [F_LDUP]) + [LandOp(t.isAnd, false), 0] && branchp == |code| - 2
    {
      hide LvalueCode, BindLocal;
      CompileLvalue(t.name);
      Reserve(3);
      Emit(F_LDUP);
      branchp := |code|;
      assert code == old(code) + (LvalueCode(t.name, Collected()) + [F_LDUP]);
      Emit(LandOp(t.isAnd, false));
      Emit(0);
    }

    method CompileLandEqBlock(t: Tree) returns (r: Result<Given, CompileError>)
      requires Valid() && levelsLeft > 0 && t.LandEq?
      modifies this
      ensures Done(r, CompileLandEq(efuns, t, old(levelsLeft), old(Collected())), old(code), old(levelsLeft))
      decreases t, 0
    {
      hide Compile, CompileLandEq, Faithful, Grows, LvalueCode, LandBranch, BindLocal, LandOp;
      LandEqCode(efuns, t, levelsLeft, Collected());
      var branchp := CompileLandEqHead(t);
      ghost var arg := LvalueCode(t.name, Collected()) + [F_LDUP];
      ghost var o := Compile(efuns, t.expr, NOTHING, levelsLeft, Collected());
      var _ :- CompileValue(t.expr, NOTHING);
      var err := PatchLandEq(t.isAnd, branchp, old(code) + arg, o.value.code);
      if err.Some? {
        return Err(err.value);
      }
      Reserve(2);
      Emit(F_SWAP_VALUES);
      Emit(F_ASSIGN);
      Assoc4(old(code), arg, LandBranch(t.isAnd, false, |o.value.code|), o.value.code, [F_SWAP_VALUES, F_ASSIGN]);
      r := Ok(Given(false, false));
    }

    static lemma LandEqCode(efuns: Efuns, t: Tree, lv: nat, tb: Tables)
      requires lv > 0 && t.LandEq?
      ensures var tb' := BindLocal(t.name, tb);
              var o := Compile(efuns, t.expr, NOTHING, lv, tb');
              var c := CompileLandEq(efuns, t, lv, tb);
              if o.Err? then c == Err(o.error)
              else if |o.value.code| > 0xff && |o.value.code| + 3 > 0x7fff then c == Err(Unimplemented)
              else
                && c.Ok? && c.value.tables == o.value.tables && !c.value.void && !c.value.neg
                && c.value.code == LvalueCode(t.name, tb') + [F_LDUP] + LandBranch(t.isAnd, false, |o.value.code|) + o.value.code
                                 + [F_SWAP_VALUES, F_ASSIGN]
    {
      hide Compile, BindLocal, LvalueCode, LandBranch;
    }

    /** Store the offset of the only branch, or replace it by a long one. */
    method PatchLandEq(isAnd: bool, branchp: nat, ghost base: Code, ghost expr: Code) returns (err: Option<CompileError>)
      requires Valid() && code == base + [LandOp(isAnd, false), 0] + expr && branchp == |base|
      modifies this`code, this`codeMax
      ensures Valid()
      ensures if |expr| > 0xff && |expr| + 3 > 0x7fff then err == Some(Unimplemented)
              else err == None && code == base + LandBranch(isAnd, false, |expr|) + expr
    {
      var offset := |code| - branchp - 2;
      if offset <= 0xff {
        code := code[branchp + 1 := offset];
        err := None;
      } else {
        err := WidenLandEq(isAnd, branchp, base, expr);
      }
    }

    /** Make room for the long branch by moving the expression up by three bytes. */
    method WidenLandEq(isAnd: bool, branchp: nat, ghost base: Code, ghost expr: Code) returns (err: Option<CompileError>)
      requires Valid() && code == base + [LandOp(isAnd, false), 0] + expr && branchp == |base| && |expr| > 0xff
      modifies this`code, this`codeMax
      ensures Valid()
      ensures if |expr| + 3 > 0x7fff then err == Some(Unimplemented)
              else err == None && code == base + LandBranch(isAnd, false, |expr|) + expr
    {
      hide Short;
      var offset := |code| - branchp - 2;
      Reserve(3);
      OpenGap(branchp + 2, 3, base + [LandOp(isAnd, false), 0], expr);
      assert code[..branchp] == code[..branchp + 2][..branchp] == base;
      offset := offset + 3;
      if offset > 0x7fff {
        return Some(Unimplemented);
      }
      FillGap(branchp, [F_DUP, LongBranchOp(isAnd)] + Short(offset) + [F_POP_VALUE], base, expr);
      err := None;
    }

    method CompileLandBlock(t: Tree, f: Accept) returns (r: Result<Given, CompileError>)
      requires Valid() && levelsLeft > 0 && t.Land?
      modifies this
      ensures Done(r, CompileLand(efuns, t.isAnd, t.exprs, f.void, old(levelsLeft), old(Collected())), old(code), old(levelsLeft))
      decreases t, 1
    {
      hide Compile, CompileLand, LandFold, Unpatched, Branches, Faithful, Grows;
      var n := |t.exprs|;
      var r0, branchp, args, conds := CompileLandArgs(t, f);
      if r0.Err? {
        return r0;
      }
      var i := if n == 0 then 0 else n - 1;
      ghost var base, tb := code, Collected();
      ghost var last := CompileLand(efuns, t.isAnd, t.exprs[i..], f.void, levelsLeft, tb);
      LastLand(efuns, t.isAnd, t.exprs, f.void, levelsLeft, tb);
      var g;
      if n == 0 {
        g := CompileLeaf(if t.isAnd then 1 else 0, NOTHING.(void := f.void));
      } else {
        g := CompileValue(t.exprs[i], NOTHING.(void := f.void));
      }
      if g.Err? {
        return g;
      }
      if f.void {
        PopResult(g.value);
      }
      assert code == base + last.value.code;
      var err := PatchLand(t.isAnd, f.void, branchp, old(code), args, last.value.code);
      if err.Some? {
        return Err(err.value);
      }
      r := Ok(Given(f.void, false));
    }

    /** The arguments but the last, each followed by a branch without offset. */
    method CompileLandArgs(t: Tree, f: Accept)
      returns (r: Result<Given, CompileError>, branchp: seq<nat>, ghost args: seq<Code>, ghost conds: set<Conditional>)
      requires Valid() && levelsLeft > 0 && t.Land?
      modifies this
      ensures Valid()
      ensures var spec := CompileLand(efuns, t.isAnd, t.exprs, f.void, old(levelsLeft), old(Collected()));
              match r
              case Err(e) => spec == Err(e)
              case Ok(_) =>
                && levelsLeft == old(levelsLeft) && code == old(code) + Unpatched(args, LandOp(t.isAnd, f.void))
                && Branches(old(code), args, LandOp(t.isAnd, f.void), branchp)
                && var i := if t.exprs == [] then 0 else |t.exprs| - 1;
                   spec == LandResult(t.isAnd, f.void, args, conds,
                                      CompileLand(efuns, t.isAnd, t.exprs[i..], f.void, levelsLeft, Collected()))
      decreases t, 0
    {
      hide Compile, CompileLand, LandFold, LandResult, Faithful, Grows, Unpatched, Branches, LandOp;
      var op := LandOp(t.isAnd, f.void);
      branchp, args, conds := [], [], {};
      NoLandArgs(t.isAnd, f.void, CompileLand(efuns, t.isAnd, t.exprs, f.void, levelsLeft, Collected()), code, op);
      assert t.exprs[0..] == t.exprs;
      var i := 0;
      while i + 1 < |t.exprs|
        invariant 0 <= i && (i < |t.exprs| || i == |t.exprs| == 0) && Valid() && levelsLeft == old(levelsLeft)
        invariant code == old(code) + Unpatched(args, op) && Branches(old(code), args, op, branchp) && |branchp| == |args|
        invariant CompileLand(efuns, t.isAnd, t.exprs, f.void, old(levelsLeft), old(Collected()))
               == LandResult(t.isAnd, f.void, args, conds,
                             CompileLand(efuns, t.isAnd, t.exprs[i..], f.void, levelsLeft, Collected()))
      {
        ghost var base := code;
        ghost var o := Compile(efuns, t.exprs[i], NOTHING, levelsLeft, Collected());
        LandStep(efuns, t.isAnd, t.exprs, f.void, i, levelsLeft, Collected());
        r := CompileValue(t.exprs[i], NOTHING);
        if r.Err? {
          LandResultError(t.isAnd, f.void, args, conds, r.error);
          return;
        }
        Reserve(2);
        branchp := branchp + [|code|];
        Emit(op);
        Emit(0);
        LandResultAppend(t.isAnd, f.void, args, conds, o.value.code, o.value.conds,
                         CompileLand(efuns, t.isAnd, t.exprs[i + 1..], f.void, levelsLeft, Collected()));
        AppendArg(old(code), args, o.value.code, op, branchp[..|args|]);
        args, conds := args + [o.value.code], conds + o.value.conds;
        i := i + 1;
      }
      r := Ok(Given(true, false));
    }

    static lemma AppendArg(pre: Code, args: seq<Code>, arg: Code, op: Byte, branchp: seq<nat>)
      requires |branchp| == |args| && Branches(pre, args, op, branchp) && arg != []
      ensures Unpatched(args + [arg], op) == Unpatched(args, op) + arg + [op, 0]
      ensures Branches(pre, args + [arg], op, branchp + [|pre| + |Unpatched(args, op)| + |arg|])
    {
      var all := args + [arg];
      assert all[..|args|] == args && all[..|all|] == all;
      assert forall k :: 0 <= k <= |args| ==> all[..k] == args[..k];
    }

    method CompileCondBlock(t: Tree, f: Accept) returns (r: Result<Given, CompileError>)
      requires Valid() && levelsLeft > 0 && t.Cond?
      modifies this
      ensures Done(r, CompileCond(efuns, t, f, old(levelsLeft), old(Collected())), old(code), old(levelsLeft))
      decreases t, 1
    {
      hide Compile, CompilePairs, CompileCond, CondWithoutResult, CondWithDefault, CondUnpatched, PairBranches, Faithful, Grows,
        DefaultHidden, Leaf;
      var withDefault := t.hasDefault && !DefaultHidden(t.default, f);
      CondCode(efuns, t, f, withDefault, levelsLeft, Collected());
      var r0, branchp, allVoid, codes, conds := CompileCondPairs(t, withDefault, f);
      if r0.Err? {
        return r0;
      }
      ghost var ps := Pairs(codes, Collected(), allVoid, conds);
      PartsVoid(efuns, t, withDefault, f, old(levelsLeft), old(Collected()), ps);
      if !withDefault && (f.void || (allVoid && f.zero)) {
        CondTables(f, withDefault, ps, Out([], ps.tables, true, false, {}));
        r := FinishWithoutResult(branchp, allVoid, old(code), ps);
      } else {
        var defaultAt := |code|;
        var df := if allVoid then f.(negate := false) else NOTHING;
        ghost var d := LambdaSound.DefaultCode(efuns, t, withDefault, df, levelsLeft, Collected());
        DefaultFacts(t, withDefault, f, allVoid, levelsLeft, Collected());
        if withDefault {
          r := CompileValue(t.default, df);
        } else {
          r := CompileLeaf(0, df);
        }
        if r.Ok? {
          CondTables(f, withDefault, ps, d.value);
          r := FinishWithDefault(f, withDefault, branchp, allVoid, defaultAt, r.value.void, old(code), ps, d.value);
        }
      }
    }

    /** A conditional is its pairs, and its default where it has one. */
    static lemma CondCode(efuns: Efuns, t: Tree, f: Accept, withDefault: bool, lv: nat, tb: Tables)
      requires lv > 0 && t.Cond? && withDefault == (t.hasDefault && !DefaultHidden(t.default, f))
      ensures var pairs := CompilePairs(efuns, t.isNotIf, t.pairs, withDefault, f, true, lv, tb);
              var c := CompileCond(efuns, t, f, lv, tb);
              if pairs.Err? then c == Err(pairs.error)
              else if !withDefault && (f.void || (pairs.value.allVoid && f.zero)) then c == CondWithoutResult(pairs.value)
              else
                var df := if pairs.value.allVoid then f.(negate := false) else NOTHING;
                var d := LambdaSound.DefaultCode(efuns, t, withDefault, df, lv, pairs.value.tables);
                if d.Err? then c == Err(d.error)
                else (!d.value.void ==> d.value.code != []) && c == CondWithDefault(f, withDefault, pairs.value, d.value)
    {
      hide Compile, CompilePairs, CondWithDefault, CondWithoutResult, DefaultHidden;
    }

    static lemma CondTables(f: Accept, withDefault: bool, ps: Pairs, d: Out)
      requires !d.void ==> d.code != []
      ensures var c := CondWithoutResult(ps); c.Ok? ==> c.value.tables == ps.tables
      ensures var c := CondWithDefault(f, withDefault, ps, d); c.Ok? ==> c.value.tables == d.tables
    {
      hide Layout, AllLand, PairHead, SkipBranch, HasVoid;
    }

    static lemma PartsVoid(efuns: Efuns, t: Tree, withDefault: bool, f: Accept, lv: nat, tb: Tables, ps: Pairs)
      requires lv > 0 && t.Cond? && CompilePairs(efuns, t.isNotIf, t.pairs, withDefault, f, true, lv, tb) == Ok(ps)
      ensures ps.allVoid ==> forall k :: 0 <= k < |ps.codes| ==> ps.codes[k].void
      ensures !f.zero && !f.void ==> forall k :: 0 <= k < |ps.codes| ==> !ps.codes[k].void
    {
      hide CompilePairs;
      LambdaSound.PairsVoid(efuns, t.isNotIf, t.pairs, withDefault, f, true, lv, tb);
    }

    lemma DefaultFacts(t: Tree, withDefault: bool, f: Accept, allVoid: bool, lv: nat, tb: Tables)
      requires lv > 0 && t.Cond? && !(!withDefault && (f.void || (allVoid && f.zero)))
      ensures var df := if allVoid then f.(negate := false) else NOTHING;
              var d := LambdaSound.DefaultCode(efuns, t, withDefault, df, lv, tb);
              d.Ok? ==>
                && (!d.value.void ==> d.value.code != []) && (d.value.void ==> allVoid)
                && (!withDefault ==> d.value.code == [F_CONST0] && !d.value.void)
    {
      hide Compile;
    }

    /** The branch behind the last cond-part is dropped, or becomes the POP for the cond-parts with a result. */
    method FinishWithoutResult(branchp: seq<Positions>, allVoid: bool, ghost pre: Code, ghost ps: Pairs)
      returns (r: Result<Given, CompileError>)
      requires Valid() && code == pre + CondUnpatched(ps.codes) && PairBranches(pre, ps.codes, branchp)
      requires allVoid == ps.allVoid && (forall k :: 0 <= k < |ps.codes| ==> ps.codes[k].cond != [])
      requires ps.allVoid ==> forall k :: 0 <= k < |ps.codes| ==> ps.codes[k].void
      modifies this`code, this`codeMax
      ensures Valid()
      ensures match CondWithoutResult(ps)
              case Err(e) => r == Err(e)
              case Ok(o) => r == Ok(Given(o.void, o.neg)) && code == pre + o.code
    {
      hide CondUnpatched, Layout, AllLand, PairHead, FlagByte, SkipBranch, PairBranches, Destinations, CondWithoutResult;
      NoCond(ps);
      TableSize(pre, ps.codes, branchp);
      if |branchp| == 0 {
        assert CondUnpatched(ps.codes) == [] by { SingleUnpatched(PairCode([], true, [], true)); }
        return Ok(Given(true, false));
      }
      var n := |branchp| - 1;
      ghost var codes := ps.codes[..n];
      DropLast(pre, ps.codes, branchp);
      DropLastBranch(branchp[n].skipAt, allVoid, ps.codes[n], pre + CondUnpatched(codes));
      ghost var e := NoResultEnding(ps);
      assert code == pre + CondUnpatched(codes) + e.tail;
      var voidDest, nonVoidDest := |code|, if allVoid then |code| else |code| - 1;
      Targets(codes, e, |code|, voidDest, nonVoidDest, true, !allVoid);
      var err := PatchCond(branchp[..n], voidDest, nonVoidDest, pre, codes, e);
      r := if err.Some? then Err(err.value) else Ok(Given(true, false));
    }

    static function NoResultEnding(ps: Pairs): Ending
      requires ps.codes != []
    {
      var last := ps.codes[|ps.codes| - 1];
      var pop := if ps.allVoid then [] else [F_POP_VALUE];
      Ending(last.cond + SkipBranch(last.whenZero, |last.part|, |last.part| + |pop|) + last.part + pop, AtEnd,
             if ps.allVoid then AtEnd else OverLast)
    }

    static lemma NoCond(ps: Pairs)
      ensures ps.codes == [] ==> CondWithoutResult(ps) == Ok(Out([], ps.tables, true, false, ps.conds))
      ensures ps.codes != [] ==>
                CondWithoutResult(ps) == CondOut(ps, ps.codes[..|ps.codes| - 1], NoResultEnding(ps), ps.tables, true, {})
    {
      hide Layout, AllLand, SkipBranch;
    }

    /** Drop the last branch, or make it a POP, and let the condition before it branch behind what is left. */
    method DropLastBranch(skipAt: nat, allVoid: bool, ghost last: PairCode, ghost base: Code)
      requires Valid() && code == base + PairHead(last, false) + [F_BRANCH, FlagByte(last.void)] && skipAt == |base| + |last.cond|
      modifies this`code, this`codeMax
      ensures Valid()
      ensures var pop := if allVoid then [] else [F_POP_VALUE];
              code == base + (last.cond + SkipBranch(last.whenZero, |last.part|, |last.part| + |pop|) + last.part + pop)
    {
      hide PairHead, SkipBranch, FlagByte;
      ghost var pop := if allVoid then [] else [F_POP_VALUE];
      var offset;
      if allVoid {
        offset := -2;
      } else {
        code := code[|code| - 2 := F_POP_VALUE];
        offset := -1;
      }
      code := code[..|code| + offset];
      assert code == base + PairHead(last, false) + pop;
      OpenHead(base, last, pop);
      AdjustSkip(skipAt, offset, |last.part|, last.whenZero, base + last.cond, last.part + pop);
      ghost var skip := SkipBranch(last.whenZero, |last.part|, |last.part| + |pop|);
      assert (base + last.cond) + skip + (last.part + pop) == base + (last.cond + skip + last.part + pop);
    }

    static lemma OpenHead(base: Code, p: PairCode, rest: Code)
      ensures base + PairHead(p, false) + rest
           == (base + p.cond) + SkipBranch(p.whenZero, |p.part|, |p.part| + 2) + (p.part + rest)
    {
      hide SkipBranch;
    }

    static lemma DropLast(pre: Code, ps: seq<PairCode>, branchp: seq<Positions>)
      requires ps != [] && PairBranches(pre, ps, branchp)
      ensures |branchp| == |ps|
      ensures var n := |ps| - 1;
              && CondUnpatched(ps) == CondUnpatched(ps[..n]) + PairHead(ps[n], false) + [F_BRANCH, FlagByte(ps[n].void)]
              && PairBranches(pre, ps[..n], branchp[..n])
              && branchp[n].skipAt == |pre| + |CondUnpatched(ps[..n])| + |ps[n].cond|
              && branchp[n].exitAt == |pre| + |CondUnpatched(ps)| - 2
    {
      hide PairHead, FlagByte;
      var n := |ps| - 1;
      assert ps[..|ps|] == ps;
      assert forall k :: 0 <= k <= n ==> ps[..n][..k] == ps[..k];
    }

    /** Add what has to follow the default, and let the cond-parts branch to the right place. */
    method FinishWithDefault(f: Accept, withDefault: bool, branchp0: seq<Positions>, allVoid: bool, defaultAt: nat, defaultVoid: bool,
                             ghost pre: Code, ghost ps: Pairs, ghost d: Out)
      returns (r: Result<Given, CompileError>)
      requires Valid() && code == pre + CondUnpatched(ps.codes) + d.code && PairBranches(pre, ps.codes, branchp0)
      requires defaultAt == |pre + CondUnpatched(ps.codes)| && defaultVoid == d.void && allVoid == ps.allVoid
      requires forall k :: 0 <= k < |ps.codes| ==> ps.codes[k].cond != []
      requires ps.allVoid ==> forall k :: 0 <= k < |ps.codes| ==> ps.codes[k].void
      requires !f.zero && !f.void ==> forall k :: 0 <= k < |ps.codes| ==> !ps.codes[k].void
      requires (!d.void ==> d.code != []) && (d.void ==> ps.allVoid) && (!withDefault ==> d.code == [F_CONST0] && !d.void)
      modifies this`code, this`codeMax
      ensures Valid()
      ensures match CondWithDefault(f, withDefault, ps, d)
              case Err(e) => r == Err(e)
              case Ok(o) => r == Ok(Given(o.void, o.neg)) && code == pre + o.code
    {
      hide CondUnpatched, Layout, AllLand, PairHead, FlagByte, SkipBranch, PairBranches, Destinations, CondWithDefault, HasVoid;
      DefaultCases(f, withDefault, ps, d);
      TableSize(pre, ps.codes, branchp0);
      var branchp := branchp0;
      var voidDest, nonVoidDest := defaultAt, |code|;
      ghost var codes := ps.codes;
      ghost var e := Ending(d.code, if withDefault then AtEnd else OverLast, AtEnd);
      var void := defaultVoid || f.void;
      if defaultVoid {
        voidDest := nonVoidDest;
        e := Ending(d.code, AtEnd, AtEnd);
        Targets(codes, e, |code|, voidDest, nonVoidDest, true, true);
      } else if f.void {
        Reserve(1);
        Emit(F_POP_VALUE);
        voidDest := nonVoidDest + 1;
        e := Ending(d.code + [F_POP_VALUE], AtEnd, OverLast);
        Targets(codes, e, |code|, voidDest, nonVoidDest, true, true);
      } else if allVoid && |branchp| > 0 {
        branchp, voidDest, nonVoidDest, codes, e := FinishAllVoid(branchp, pre, ps, d);
      } else {
        var found := false;
        if withDefault && !allVoid && f.zero {
          found := FindVoid(branchp, pre, ps.codes, d.code);
        }
        if found {
          voidDest := nonVoidDest + 2;
          nonVoidDest := nonVoidDest + 3;
          Reserve(3);
          EmitZeroBranch();
          e := Ending(d.code + [F_BRANCH, 1, F_CONST0], OverLast, AtEnd);
          Targets(codes, e, |code|, voidDest, nonVoidDest, true, true);
        } else {
          NoVoid(codes);
          Targets(codes, e, |code|, voidDest, nonVoidDest, !withDefault, true);
        }
      }
      assert code == pre + CondUnpatched(codes) + e.tail;
      var err := PatchCond(branchp, voidDest, nonVoidDest, pre, codes, e);
      r := if err.Some? then Err(err.value) else Ok(Given(void, false));
    }

    /** The layout of a conditional with a default, case by case. */
    static lemma DefaultCases(f: Accept, withDefault: bool, ps: Pairs, d: Out)
      requires !d.void ==> d.code != []
      ensures var c := CondWithDefault(f, withDefault, ps, d);
              var zero := Ending(d.code + [F_BRANCH, 1, F_CONST0], OverLast, AtEnd);
              if d.void then c == CondOut(ps, ps.codes, Ending(d.code, AtEnd, AtEnd), d.tables, true, d.conds)
              else if f.void then c == CondOut(ps, ps.codes, Ending(d.code + [F_POP_VALUE], AtEnd, OverLast), d.tables, true, d.conds)
              else if ps.allVoid && ps.codes != [] then
                && (OnlyShort(ps.codes) ==> c == CondOut(ps, [WithZero(ps.codes[0])], Ending(d.code, AtEnd, AtEnd), d.tables, false, d.conds))
                && (!OnlyShort(ps.codes) ==> c == CondOut(ps, ps.codes, zero, d.tables, false, d.conds))
              else if withDefault && !ps.allVoid && f.zero && HasVoid(ps.codes) then c == CondOut(ps, ps.codes, zero, d.tables, false, d.conds)
              else c == CondOut(ps, ps.codes, Ending(d.code, if withDefault then AtEnd else OverLast, AtEnd), d.tables, false, d.conds)
    {
      hide Layout, AllLand, HasVoid;
    }

    static predicate OnlyShort(ps: seq<PairCode>)
      requires ps != []
    {
      |ps| == 1 && |ps[0].part| + 2 <= 0xfd
    }

    static function WithZero(p: PairCode): PairCode {
      p.(part := p.part + [F_CONST0], void := false)
    }

    static lemma NoVoid(ps: seq<PairCode>)
      ensures !HasVoid(ps) <==> forall k :: 0 <= k < |ps| ==> !ps[k].void
    {
      if k :| 0 <= k < |ps| && ps[k].void {
        assert ps[k] in ps;
      }
    }

    /** `BRANCH +1; CONST0` */
    method EmitZeroBranch()
      requires Valid() && |code| + 3 <= codeMax
      modifies this`code
      ensures Valid() && code == old(code) + [F_BRANCH, 1, F_CONST0]
    {
      Emit(F_BRANCH);
      Emit(1);
      Emit(F_CONST0);
    }

    /** Only the default has a result: the cond-parts need a 0. */
    method FinishAllVoid(branchp0: seq<Positions>, ghost pre: Code, ghost ps: Pairs, ghost d: Out)
      returns (branchp: seq<Positions>, voidDest: nat, nonVoidDest: nat, ghost codes: seq<PairCode>, ghost e: Ending)
      requires Valid() && code == pre + CondUnpatched(ps.codes) + d.code && PairBranches(pre, ps.codes, branchp0) && ps.codes != []
      requires forall k :: 0 <= k < |ps.codes| ==> ps.codes[k].void && ps.codes[k].cond != []
      requires d.code != []
      modifies this`code, this`codeMax
      ensures Valid() && code == pre + CondUnpatched(codes) + e.tail && PairBranches(pre, codes, branchp)
      ensures forall k :: 0 <= k < |codes| ==> codes[k].cond != []
      ensures OnlyShort(ps.codes) ==> codes == [WithZero(ps.codes[0])] && e == Ending(d.code, AtEnd, AtEnd)
      ensures !OnlyShort(ps.codes) ==> codes == ps.codes && e == Ending(d.code + [F_BRANCH, 1, F_CONST0], OverLast, AtEnd)
      ensures Destinations(codes, e, |code|, voidDest, nonVoidDest)
    {
      hide CondUnpatched, PairHead, FlagByte, SkipBranch, PairBranches, Destinations;
      TableSize(pre, ps.codes, branchp0);
      SkipDistance(pre, ps.codes, branchp0, 0);
      voidDest, nonVoidDest := |code|, |code|;
      Reserve(3);
      if |branchp0| > 1 || branchp0[0].exitAt - branchp0[0].skipAt > 0xfd {
        branchp, codes := branchp0, ps.codes;
        voidDest := nonVoidDest + 2;
        EmitZeroBranch();
        e := Ending(d.code + [F_BRANCH, 1, F_CONST0], OverLast, AtEnd);
        Targets(codes, e, |code|, voidDest, nonVoidDest, true, false);
      } else {
        assert ps.codes == [ps.codes[0]];
        branchp := InsertZero(branchp0, pre, ps.codes[0], d.code);
        codes := [WithZero(ps.codes[0])];
        nonVoidDest := nonVoidDest + 1;
        e := Ending(d.code, AtEnd, AtEnd);
        Targets(codes, e, |code|, voidDest, nonVoidDest, false, true);
      }
    }

    static lemma TableSize(pre: Code, ps: seq<PairCode>, branchp: seq<Positions>)
      requires PairBranches(pre, ps, branchp)
      ensures |branchp| == |ps|
    {
    }

    /** A destination that no cond-part needs may be anything. */
    static lemma Targets(ps: seq<PairCode>, e: Ending, end: int, voidDest: int, nonVoidDest: int, anyVoid: bool, anyValue: bool)
      requires WellEnded(e)
      requires if anyVoid then voidDest == end - Back(e.voidExit) else forall k :: 0 <= k < |ps| ==> !ps[k].void
      requires if anyValue then nonVoidDest == end - Back(e.valueExit) else forall k :: 0 <= k < |ps| ==> ps[k].void
      ensures Destinations(ps, e, end, voidDest, nonVoidDest)
    {
    }

    /** The distance between the two branches of a pair tells the size of the cond-part. */
    static lemma SkipDistance(pre: Code, ps: seq<PairCode>, branchp: seq<Positions>, k: nat)
      requires PairBranches(pre, ps, branchp) && k < |ps|
      ensures branchp[k].exitAt - branchp[k].skipAt > 0xfd <==> |ps[k].part| + 2 > 0xfd
    {
      hide PairBranches, CondUnpatched, FlagByte;
      PairAt(pre, ps, branchp, k + 1);
      LastUnpatched(ps, k + 1);
    }

    static lemma LastUnpatched(ps: seq<PairCode>, i: nat)
      requires 0 < i <= |ps|
      ensures CondUnpatched(ps[..i])
           == CondUnpatched(ps[..i - 1]) + PairHead(ps[i - 1], false) + [F_BRANCH, FlagByte(ps[i - 1].void)]
    {
      hide PairHead, FlagByte;
      assert ps[..i][..i - 1] == ps[..i - 1];
    }

    /** Does any cond-part lack a result? */
    method FindVoid(branchp: seq<Positions>, ghost pre: Code, ghost ps: seq<PairCode>, ghost rest: Code) returns (found: bool)
      requires Valid() && code == pre + CondUnpatched(ps) + rest && PairBranches(pre, ps, branchp)
      ensures found == HasVoid(ps)
    {
      hide CondUnpatched, PairBranches, HasVoid, HasVoidFlag;
      var j := |branchp|;
      TableSize(pre, ps, branchp);
      NoVoid(ps);
      found := false;
      while j > 0
        invariant 0 <= j <= |ps|
        invariant forall k :: j <= k < |ps| ==> !ps[k].void
      {
        FlagAt(pre, ps, branchp, j - 1, rest);
        if HasVoidFlag(code[branchp[j - 1].exitAt + 1]) {
          return true;
        }
        j := j - 1;
      }
    }

    static lemma FlagAt(pre: Code, ps: seq<PairCode>, branchp: seq<Positions>, k: nat, rest: Code)
      requires PairBranches(pre, ps, branchp) && k < |ps|
      ensures |branchp| == |ps|
      ensures var code := pre + CondUnpatched(ps) + rest;
              branchp[k].exitAt + 1 < |code| && HasVoidFlag(code[branchp[k].exitAt + 1]) == ps[k].void
    {
      hide CondUnpatched, PairBranches, HasVoidFlag, FlagByte, PairHead;
      PairAt(pre, ps, branchp, k + 1);
      LastUnpatched(ps, k + 1);
      UnpatchedPrefix(ps, k + 1);
      FlagOf(ps[k].void);
      var c := CondUnpatched(ps[..k + 1]);
      assert c[|c| - 1] == FlagByte(ps[k].void);
      assert (pre + CondUnpatched(ps) + rest)[|pre| + |c| - 1] == CondUnpatched(ps)[|c| - 1] == c[|c| - 1];
    }

    static lemma {:induction false} UnpatchedPrefix(ps: seq<PairCode>, k: nat)
      requires k <= |ps|
      ensures CondUnpatched(ps[..k]) <= CondUnpatched(ps)
    {
      if k == |ps| {
        assert ps[..k] == ps;
      } else {
        assert ps[..|ps| - 1][..k] == ps[..k];
        UnpatchedPrefix(ps[..|ps| - 1], k);
      }
    }

    /** Give the only cond-part a `CONST0` as result. */
    method InsertZero(branchp0: seq<Positions>, ghost pre: Code, ghost p: PairCode, ghost rest: Code)
      returns (branchp: seq<Positions>)
      requires Valid() && |code| < codeMax
      requires code == pre + CondUnpatched([p]) + rest && PairBranches(pre, [p], branchp0) && |p.part| + 2 <= 0xfd
      modifies this`code
      ensures Valid() && code == pre + CondUnpatched([WithZero(p)]) + rest && PairBranches(pre, [WithZero(p)], branchp)
      ensures |code| == old(|code|) + 1
    {
      hide CondUnpatched, PairBranches;
      SingleUnpatched(p);
      SingleUnpatched(WithZero(p));
      SingleBranch(pre, p, branchp0);
      var start := branchp0[0].exitAt;
      var at := branchp0[0].skipAt + 1;
      ghost var base := pre + p.cond + [BranchOp(p.whenZero)];
      ShortHead(pre, p, F_BRANCH, FlagByte(p.void), rest);
      assert code == base + [|p.part| + 2] + p.part + [F_BRANCH, FlagByte(p.void)] + rest;
      ghost var was := code;
      code := code[..start] + [F_CONST0] + code[start..];
      code := code[start + 2 := 0];
      code := code[at := code[at] + 1];
      ZeroInserted(base, p.part, FlagByte(p.void), rest, was, start, at);
      ShortHead(pre, WithZero(p), F_BRANCH, 0, rest);
      branchp := [Positions(start + 1, branchp0[0].skipAt)];
      SingleBranch(pre, WithZero(p), branchp);
    }

    /** The instruction goes in before the branch, whose operand is cleared, and the skip branch gets one longer. */
    static lemma ZeroInserted(base: Code, part: Code, flag: Byte, rest: Code, was: Code, start: nat, at: nat)
      requires |part| + 2 <= 0xfd && was == base + [|part| + 2] + part + [F_BRANCH, flag] + rest
      requires start == |base| + 1 + |part| && at == |base|
      ensures var w := (was[..start] + [F_CONST0] + was[start..])[start + 2 := 0];
              w[at := w[at] + 1] == base + [|part| + 3] + (part + [F_CONST0]) + [F_BRANCH, 0] + rest
    {
      var front, back: Code := base + [|part| + 2] + part, [F_BRANCH, flag] + rest;
      assert was == front + back && was[..start] == front && was[start..] == back;
      var w := (front + [F_CONST0] + back)[start + 2 := 0];
      assert w == front + [F_CONST0] + ([F_BRANCH, 0] + rest);
    }

    /** A pair whose skip branch is a short one. */
    static lemma ShortHead(pre: Code, p: PairCode, op: Byte, flag: Byte, rest: Code)
      requires |p.part| + 2 <= 0xfe
      ensures pre + (PairHead(p, false) + [op, flag]) + rest
           == pre + p.cond + [BranchOp(p.whenZero)] + [|p.part| + 2] + p.part + [op, flag] + rest
    {
      assert PairHead(p, false) == p.cond + ([BranchOp(p.whenZero)] + [|p.part| + 2]) + p.part;
    }

    static lemma SingleBranch(pre: Code, p: PairCode, branchp: seq<Positions>)
      ensures PairBranches(pre, [p], branchp) <==>
                branchp == [Positions(|pre| + |PairHead(p, false)|, |pre| + |p.cond|)]
    {
      hide PairHead, FlagByte, CondUnpatched;
      assert [p][..1] == [p] && [p][..0] == [];
      SingleUnpatched(p);
      if PairBranches(pre, [p], branchp) {
        assert branchp == [branchp[0]];
      }
    }

    static lemma SingleUnpatched(p: PairCode)
      ensures CondUnpatched([]) == []
      ensures CondUnpatched([p]) == PairHead(p, false) + [F_BRANCH, FlagByte(p.void)]
    {
      hide PairHead, FlagByte;
      assert [p][..0] == [];
    }

    /** One condition and its cond-part, each followed by a branch. */
    method CompilePair(pair: Pair, isNotIf: bool, pf: Accept)
      returns (r: Result<Given, CompileError>, exitAt: nat, skipAt: nat, ghost p: PairCode)
      requires Valid() && levelsLeft > 0
      modifies this
      ensures Valid()
      ensures match Compile(efuns, pair.cond, NOTHING.(negate := true), old(levelsLeft), old(Collected()))
              case Err(e) => r == Err(e)
              case Ok(c) =>
                match Compile(efuns, pair.part, pf, old(levelsLeft), c.tables)
                case Err(e) => r == Err(e)
                case Ok(o) =>
                  if |o.code| + 2 > 0x7ffd then r == Err(Unimplemented)
                  else
                    && r == Ok(Given(o.void, o.neg)) && Collected() == o.tables && levelsLeft == old(levelsLeft)
                    && p == PairCode(c.code, isNotIf == c.neg, o.code, o.void)
                    && code == old(code) + PairHead(p, false) + [F_BRANCH, FlagByte(p.void)]
                    && exitAt == |old(code) + PairHead(p, false)| && skipAt == |old(code) + p.cond|
      decreases pair, 0
    {
      hide Compile, Faithful, Grows, SkipBranch, PairHead, FlagByte;
      exitAt, skipAt, p := 0, 0, PairCode([], true, [], true);
      ghost var c := Compile(efuns, pair.cond, NOTHING.(negate := true), levelsLeft, Collected());
      var g := CompileValue(pair.cond, NOTHING.(negate := true));
      if g.Err? {
        return g, exitAt, skipAt, p;
      }
      Reserve(2);
      skipAt := |code|;
      var whenZero := isNotIf == g.value.neg;
      Emit(BranchOp(whenZero));
      Emit(0);
      ghost var base := old(code) + c.value.code;
      ghost var o := Compile(efuns, pair.part, pf, levelsLeft, Collected());
      g := CompileValue(pair.part, pf);
      if g.Err? {
        return g, exitAt, skipAt, p;
      }
      p := PairCode(c.value.code, whenZero, o.value.code, g.value.void);
      var err := PatchSkip(skipAt, whenZero, base, p.part);
      if err.Some? {
        return Err(err.value), exitAt, skipAt, p;
      }
      JoinHead(old(code), p);
      exitAt := |code|;
      Emit(F_BRANCH);
      Emit(FlagByte(g.value.void));
      r := g;
    }

    static lemma JoinHead(before: Code, p: PairCode)
      ensures before + p.cond + SkipBranch(p.whenZero, |p.part|, |p.part| + 2) + p.part == before + PairHead(p, false)
    {
      var skip := SkipBranch(p.whenZero, |p.part|, |p.part| + 2);
      assert before + p.cond + skip + p.part == before + (p.cond + skip + p.part);
    }

    /** Complete the branch that skips a cond-part; if it is too far, move the cond-part up by a byte. */
    method PatchSkip(at: nat, ghost whenZero: bool, ghost base: Code, ghost part: Code) returns (err: Option<CompileError>)
      requires Valid() && code == base + [BranchOp(whenZero), 0] + part && at == |base|
      modifies this`code, this`codeMax
      ensures Valid()
      ensures if |part| + 2 > 0x7ffd then err == Some(Unimplemented)
              else
                && err == None && |code| + 2 <= codeMax
                && code == base + SkipBranch(whenZero, |part|, |part| + 2) + part
    {
      Reserve(4);
      var offset := |code| - at;
      if offset > 0xfe {
        if offset > 0x7ffd {
          return Some(Unimplemented);
        }
        var long := if code[at] == F_BRANCH_WHEN_ZERO then F_LBRANCH_WHEN_ZERO else F_LBRANCH_WHEN_NON_ZERO;
        OpenGap(at + 2, 1, base + [BranchOp(whenZero), 0], part);
        assert code[..at] == code[..at + 2][..at] == base;
        FillGap(at, [long] + Short(offset + 2), base, part);
      } else {
        code := code[at + 1 := offset];
      }
      err := None;
    }

    /** All conditions and cond-parts; `branchp` holds the positions of their branches. */
    method CompileCondPairs(t: Tree, withDefault: bool, f: Accept)
      returns (r: Result<Given, CompileError>, branchp: seq<Positions>, allVoid: bool, ghost codes: seq<PairCode>, ghost conds: set<Conditional>)
      requires Valid() && levelsLeft > 0 && t.Cond?
      modifies this
      ensures Valid()
      ensures var spec := CompilePairs(efuns, t.isNotIf, t.pairs, withDefault, f, true, old(levelsLeft), old(Collected()));
              match r
              case Err(e) => spec == Err(e)
              case Ok(_) =>
                && levelsLeft == old(levelsLeft) && code == old(code) + CondUnpatched(codes)
                && PairBranches(old(code), codes, branchp)
                && spec == Ok(Pairs(codes, Collected(), allVoid, conds))
                && forall k :: 0 <= k < |codes| ==> codes[k].cond != []
      decreases t, 0
    {
      hide Compile, CompilePairs, CondUnpatched, PairBranches, PairHead, FlagByte, Faithful, Grows;
      branchp, allVoid, codes, conds := [], true, [], {};
      NoCondPairs(CompilePairs(efuns, t.isNotIf, t.pairs, withDefault, f, true, levelsLeft, Collected()), code);
      assert t.pairs[0..] == t.pairs;
      var i := 0;
      while i < |t.pairs|
        invariant 0 <= i <= |t.pairs| && Valid() && levelsLeft == old(levelsLeft)
        invariant code == old(code) + CondUnpatched(codes) && PairBranches(old(code), codes, branchp) && |branchp| == |codes|
        invariant forall k :: 0 <= k < |codes| ==> codes[k].cond != []
        invariant CompilePairs(efuns, t.isNotIf, t.pairs, withDefault, f, true, old(levelsLeft), old(Collected()))
               == PrependPairs(codes, conds, CompilePairs(efuns, t.isNotIf, t.pairs[i..], withDefault, f, allVoid, levelsLeft, Collected()))
      {
        var pf := if i + 1 == |t.pairs| && !withDefault && !allVoid then NOTHING else f.(negate := false);
        PairStep(efuns, t.isNotIf, t.pairs, i, withDefault, f, allVoid, levelsLeft, Collected());
        ghost var c := Compile(efuns, t.pairs[i].cond, NOTHING.(negate := true), levelsLeft, Collected());
        ghost var o := Compile(efuns, t.pairs[i].part, pf, levelsLeft, if c.Ok? then c.value.tables else Collected());
        CondTakesCode(efuns, t.pairs[i].cond, levelsLeft, Collected());
        var exitAt, skipAt;
        ghost var p;
        r, exitAt, skipAt, p := CompilePair(t.pairs[i], t.isNotIf, pf);
        if r.Err? {
          return;
        }
        PrependPairsTwice(codes, conds, p, c.value.conds + o.value.conds,
          CompilePairs(efuns, t.isNotIf, t.pairs[i + 1..], withDefault, f, allVoid && r.value.void, levelsLeft, Collected()));
        AppendPair(old(code), codes, p, branchp, exitAt, skipAt);
        branchp := branchp + [Positions(exitAt, skipAt)];
        codes, conds, allVoid := codes + [p], conds + (c.value.conds + o.value.conds), allVoid && r.value.void;
        i := i + 1;
      }
      assert t.pairs[i..] == [];
      LastPairs(efuns, t.isNotIf, withDefault, f, allVoid, levelsLeft, Collected(), codes, conds);
      r := Ok(Given(allVoid, false));
    }

    static lemma AppendPair(pre: Code, ps: seq<PairCode>, p: PairCode, branchp: seq<Positions>, exitAt: nat, skipAt: nat)
      requires |branchp| == |ps| && PairBranches(pre, ps, branchp)
      requires exitAt == |pre + CondUnpatched(ps) + PairHead(p, false)| && skipAt == |pre + CondUnpatched(ps) + p.cond|
      ensures pre + CondUnpatched(ps + [p]) == pre + CondUnpatched(ps) + PairHead(p, false) + [F_BRANCH, FlagByte(p.void)]
      ensures PairBranches(pre, ps + [p], branchp + [Positions(exitAt, skipAt)])
    {
      hide PairHead, FlagByte;
      var all, table := ps + [p], branchp + [Positions(exitAt, skipAt)];
      AppendUnpatched(ps, p);
      Assoc(pre, CondUnpatched(ps), PairHead(p, false) + [F_BRANCH, FlagByte(p.void)]);
      hide CondUnpatched;
      assert all[..|ps|] == ps && all[..|all|] == all;
      assert forall k :: 0 <= k <= |ps| ==> all[..k] == ps[..k];
    }

    static lemma AppendUnpatched(ps: seq<PairCode>, p: PairCode)
      ensures CondUnpatched(ps + [p]) == CondUnpatched(ps) + (PairHead(p, false) + [F_BRANCH, FlagByte(p.void)])
    {
      assert (ps + [p])[..|ps|] == ps;
    }

    // ----- loops

    /** Bodies of which only the effect is wanted. */
    method CompileBodies(t: Tree, bodies: seq<Tree>) returns (r: Result<Given, CompileError>)
      requires Valid() && levelsLeft > 0 && (forall i :: 0 <= i < |bodies| ==> bodies[i] < t)
      modifies this
      ensures Done(r, CompileAll(efuns, bodies, old(levelsLeft), old(Collected())), old(code), old(levelsLeft))
      decreases t, 0
    {
      hide Compile, CompileAll, Faithful, Grows;
      var i := 0;
      ghost var done: Code, conds := [], {};
      assert bodies[0..] == bodies;
      PrependNothing(CompileAll(efuns, bodies, levelsLeft, Collected()));
      while i < |bodies|
        invariant 0 <= i <= |bodies| && Valid() && levelsLeft == old(levelsLeft) && code == old(code) + done
        invariant CompileAll(efuns, bodies, old(levelsLeft), old(Collected()))
               == Prepend(done, conds, CompileAll(efuns, bodies[i..], levelsLeft, Collected()))
      {
        ghost var o := Compile(efuns, bodies[i], VOID_WANTED, levelsLeft, Collected());
        AllStep(efuns, bodies, i, levelsLeft, Collected());
        var _ :- CompilePopped(bodies[i]);
        PrependTwice(done, conds, Popped(o.value), o.value.conds, CompileAll(efuns, bodies[i + 1..], levelsLeft, Collected()));
        done, conds := done + Popped(o.value), conds + o.value.conds;
        i := i + 1;
      }
      Ends(efuns, bodies, [], VOID_WANTED, levelsLeft, Collected());
      r := Ok(Given(true, false));
    }

    /** The branch back to the start of the loop. */
    method EmitLoopBranch(neg: bool, offset: nat) returns (err: Option<CompileError>)
      requires Valid()
      modifies this`code, this`codeMax
      ensures Valid()
      ensures match LoopBranch(neg, offset)
              case Err(e) => err == Some(e)
              case Ok(c) => err == None && code == old(code) + c
    {
      Reserve(3);
      if offset > 0xff {
        if offset > 0x8000 {
          return Some(Unimplemented);
        }
        Emit(LongBranchOp(neg));
        EmitShort(0 - offset);
      } else {
        Emit(if neg then F_BBRANCH_WHEN_ZERO else F_BBRANCH_WHEN_NON_ZERO);
        Emit(offset);
      }
      err := None;
    }

    method CompileDoBlock(t: Tree, f: Accept) returns (r: Result<Given, CompileError>)
      requires Valid() && levelsLeft > 0 && t.Do?
      modifies this
      ensures Done(r, CompileDo(efuns, t, f, old(levelsLeft), old(Collected())), old(code), old(levelsLeft))
      decreases t, 1
    {
      hide Compile, CompileAll, LoopBranch, Faithful, Grows;
      var start := |code|;
      ghost var b := CompileAll(efuns, t.bodies, levelsLeft, Collected());
      var _ :- CompileBodies(t, t.bodies);
      ghost var c := Compile(efuns, t.cond, NOTHING.(negate := true), levelsLeft, Collected());
      var _ :- CompileLoopCond(t.cond, start, old(code), b.value.code);
      ghost var loop := LoopBranch(c.value.neg, |b.value.code| + |c.value.code| + 1).value;
      assert code == old(code) + (b.value.code + c.value.code + loop);
      r := CompileValue(t.result, f);
    }

    /** Complete the initial branch over the bodies, which start at `start`. */
    method PatchEntry(start: nat, ghost base: Code, ghost bodies: Code) returns (err: Option<CompileError>, start': nat)
      requires Valid() && code == base + [F_BRANCH, 0] + bodies && start == |base| + 2
      modifies this`code, this`codeMax
      ensures Valid()
      ensures match EntryBranch(|bodies|)
              case Err(e) => err == Some(e)
              case Ok(c) => err == None && code == base + c + bodies && start' == |base + c|
    {
      start' := start;
      var offset := |code| - start;
      if offset > 0xff {
        if offset > 0x7ffd {
          return Some(Unimplemented), start;
        }
        Reserve(1);
        OpenGap(start, 1, base + [F_BRANCH, 0], bodies);
        assert code[..start - 2] == code[..start][..start - 2] == base;
        FillGap(start - 2, [F_LBRANCH] + Short(offset + 2), base, bodies);
        start' := start + 1;
      } else {
        code := code[start - 1 := offset];
      }
      err := None;
    }

    method CompileWhileBlock(t: Tree, f: Accept) returns (r: Result<Given, CompileError>)
      requires Valid() && levelsLeft > 0 && t.While?
      modifies this
      ensures Done(r, CompileWhile(efuns, t, f, old(levelsLeft), old(Collected())), old(code), old(levelsLeft))
      decreases t, 2
    {
      hide Compile, CompileAll, EntryBranch, LoopBranch, Faithful, Grows;
      ghost var b := CompileAll(efuns, t.bodies, levelsLeft, Collected());
      var r0, start := CompileEntry(t);
      if r0.Err? {
        return r0;
      }
      ghost var entry := EntryBranch(|b.value.code|).value;
      ghost var c := Compile(efuns, t.cond, NOTHING.(negate := true), levelsLeft, Collected());
      var _ :- CompileLoopCond(t.cond, start, old(code) + entry, b.value.code);
      ghost var loop := LoopBranch(c.value.neg, |b.value.code| + |c.value.code| + 1).value;
      assert code == old(code) + (entry + b.value.code + c.value.code + loop);
      r := CompileValue(t.result, f);
    }

    /** The initial branch and the bodies of #'while, which start at `start`. */
    method CompileEntry(t: Tree) returns (r: Result<Given, CompileError>, start: nat)
      requires Valid() && levelsLeft > 0 && t.While?
      modifies this
      ensures Valid()
      ensures match CompileAll(efuns, t.bodies, old(levelsLeft), old(Collected()))
              case Err(e) => r == Err(e)
              case Ok(b) =>
                match EntryBranch(|b.code|)
                case Err(e) => r == Err(e)
                case Ok(entry) =>
                  && r.Ok? && code == old(code) + entry + b.code && start == |old(code) + entry|
                  && Collected() == b.tables && levelsLeft == old(levelsLeft)
      decreases t, 1
    {
      hide Compile, CompileAll, EntryBranch, Faithful, Grows;
      start := 0;
      Reserve(2);
      Emit(F_BRANCH);
      Emit(0);
      var bodiesAt := |code|;
      ghost var b := CompileAll(efuns, t.bodies, levelsLeft, Collected());
      r := CompileBodies(t, t.bodies);
      if r.Ok? {
        var err;
        err, start := PatchEntry(bodiesAt, old(code), b.value.code);
        if err.Some? {
          r := Err(err.value);
        }
      }
    }

    /** The condition of a loop whose bodies start at `start`, and the branch back to them. */
    method CompileLoopCond(cond: Tree, start: nat, ghost base: Code, ghost bodies: Code) returns (r: Result<Given, CompileError>)
      requires Valid() && levelsLeft > 0 && code == base + bodies && start == |base|
      modifies this
      ensures Valid()
      ensures match Compile(efuns, cond, NOTHING.(negate := true), old(levelsLeft), old(Collected()))
              case Err(e) => r == Err(e)
              case Ok(c) =>
                match LoopBranch(c.neg, |bodies| + |c.code| + 1)
                case Err(e) => r == Err(e)
                case Ok(loop) =>
                  && r.Ok? && code == base + bodies + c.code + loop && Collected() == c.tables && levelsLeft == old(levelsLeft)
      decreases cond, 4
    {
      hide Compile, Faithful, Grows;
      var g :- CompileValue(cond, NOTHING.(negate := true));
      var err := EmitLoopBranch(g.neg, |code| - start + 1);
      r := if err.Some? then Err(err.value) else Ok(g);
    }
  }
}
