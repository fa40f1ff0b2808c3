/** lambda(): compiling a closure, and what holds for every closure it compiles. */
module LambdaTheorems {
  import opened Wrappers
  import opened Bytecode
  import opened LambdaTree
  import opened LambdaCompile
  import opened LambdaSound

  const MAX_LAMBDA_LEVELS: nat := 0x8000

  /** A compiled closure with the names of its local variables, arguments first. */
  datatype Lambda = Lambda(closure: Closure, symbols: Symbols, numArgs: nat, conds: set<Conditional>)

  /** The arguments must be different symbols. */
  function CompileLambda(efuns: Efuns, args: seq<Name>, body: Tree): (r: Result<Lambda, CompileError>)
    ensures r.Ok? ==> |r.value.closure.code| > 3
  {
    if !Distinct(args) then Err(DoubleSymbol)
    else
      var o :- Compile(efuns, body, NOTHING.(zero := true), MAX_LAMBDA_LEVELS, Tables([], args));
      var values := ReservedSlot(o.tables.values);
      var header := [if |values| >= 0xff then 0xff else |values|, |args| % 256, |o.tables.symbols| % 256];
      Ok(Lambda(Closure(header + o.code + [if o.void then F_RETURN0 else F_RETURN], values, efuns), o.tables.symbols, |args|, o.conds))
  }

  /** The numbers of arguments and of variables fit into the header bytes, and all indices into the operands of the
      instructions. */
  predicate FitsOperands(l: Lambda) {
    l.numArgs <= 0x7f && |l.symbols| <= 0xff && |l.closure.values| <= 0x1_0000
  }

  /** A call with any arguments: the slots are set up as the header says. */
  function Entry(l: Lambda, args: seq<Value>, world: World): State
    requires |l.closure.code| > 3
  {
    State(3, Empty, NewFrame(l.closure.code[1], l.closure.code[2], args), world)
  }

  /** The variables at the beginning: missing arguments are 0, like all other variables. */
  function Arguments(names: seq<Name>, args: seq<Value>): map<Name, Value> {
    map i | 0 <= i < |names| && i < |args| && (forall j :: i < j < |names| ==> names[j] != names[i]) :: names[i] := args[i]
  }

  /** The run from `s` returns `v`, having made the efun calls in `world`. */
  ghost predicate Returns(l: Lambda, s: State, v: Value, world: World) {
    exists n: nat, t: State :: Run(l.closure, n, s) == Some(t) && Returned(l.closure, t) == Some(v) && t.world == world
  }

  /** The body evaluates to `v`, having made the efun calls in `world`. */
  ghost predicate Evaluates(efuns: Efuns, body: Tree, env: Env, v: Value, world: World) {
    exists fuel: nat, o: Outcome :: Eval(efuns, body, env, fuel) == Some(o) && o.v == v && o.env.world == world
  }

  /** The header of a closure. */
  lemma Header(efuns: Efuns, names: seq<Name>, body: Tree, l: Lambda)
    requires CompileLambda(efuns, names, body) == Ok(l)
    ensures Distinct(names) && names <= l.symbols && l.numArgs == |names|
    ensures l.closure.code[1] == |names| % 256 && l.closure.code[2] == |l.symbols| % 256
  {
    hide Compile;
  }

  /** Every local variable has a slot, with its argument or 0 in it. */
  ghost predicate SlotsReady(l: Lambda, names: seq<Name>, args: seq<Value>)
    requires |l.closure.code| > 3
  {
    var slots := NewFrame(l.closure.code[1], l.closure.code[2], args);
    && |l.symbols| <= |slots|
    && forall i :: 0 <= i < |l.symbols| ==> slots[i] == Lookup(Arguments(names, args), l.symbols[i])
  }

  lemma ArgumentOf(names: seq<Name>, args: seq<Value>, i: nat)
    requires Distinct(names) && i < |names|
    ensures Lookup(Arguments(names, args), names[i]) == if i < |args| then args[i] else Num(0)
  {
    assert i < |args| ==> names[i] in Arguments(names, args);
  }

  lemma SlotsFit(l: Lambda, names: seq<Name>, args: seq<Value>)
    requires Distinct(names) && names <= l.symbols && |names| <= 0x7f && |l.symbols| <= 0xff && |l.closure.code| > 3
    requires l.closure.code[1] == |names| && l.closure.code[2] == |l.symbols|
    ensures SlotsReady(l, names, args)
  {
    var slots := NewFrame(l.closure.code[1], l.closure.code[2], args);
    forall i | 0 <= i < |l.symbols|
      ensures slots[i] == Lookup(Arguments(names, args), l.symbols[i])
    {
      if i < |names| {
        ArgumentOf(names, args, i);
        assert l.symbols[i] == names[i];
      } else {
        assert l.symbols[i] !in names;
      }
    }
  }

  /** Arguments for which some slot is missing or wrong. */
  lemma SlotsFail(l: Lambda, names: seq<Name>) returns (args: seq<Value>)
    requires Distinct(names) && names <= l.symbols && (|names| > 0x7f || |l.symbols| > 0xff) && |l.closure.code| > 3
    requires l.closure.code[1] == |names| % 256 && l.closure.code[2] == |l.symbols| % 256
    ensures !SlotsReady(l, names, args)
  {
    hide NewFrame;
    args := [Num(1)];
    var n, k := |names|, |l.symbols|;
    var slots := NewFrame(n % 256, k % 256, args);
    if 0x80 <= n <= 0xff {
      var i := if n == 0x80 then 0 else n - 0x81;
      ArgumentOf(names, args, i);
      assert l.symbols[i] == names[i];
      ManyArguments(n, k % 256, args, i);
    } else {
      TooFewSlots(n, k, args);
    }
  }

  /** From 128 arguments on, the last one of the first ones is a vector; with exactly 128, all are lost. */
  lemma ManyArguments(n: Byte, numVars: Byte, args: seq<Value>, i: nat)
    requires 0x80 <= n && i == if n == 0x80 then 0 else n - 0x81
    ensures var slots := NewFrame(n, numVars, args);
            i < |slots| ==> slots[i] == if n == 0x80 then Num(0) else Vector(if i <= |args| then args[i..] else [])
  {
  }

  lemma TooFewSlots(n: nat, k: nat, args: seq<Value>)
    requires n <= k && (n > 0xff || (n <= 0x7f && k > 0xff))
    ensures |NewFrame(n % 256, k % 256, args)| < k
  {
    FrameLength(n % 256, k % 256, args);
    if n <= 0x7f {
      assert k % 256 <= k - 256;
    } else if n < 0x180 {
      assert n % 256 == n - 256 && k % 256 <= k - 256;
    }
  }

  /** The header gives every local variable its slot, whatever the arguments are, if and only if both numbers fit. */
  lemma SlotsReadyIff(efuns: Efuns, names: seq<Name>, body: Tree, l: Lambda)
    requires CompileLambda(efuns, names, body) == Ok(l)
    ensures (forall args :: SlotsReady(l, names, args)) <==> l.numArgs <= 0x7f && |l.symbols| <= 0xff
  {
    hide CompileLambda, SlotsReady;
    Header(efuns, names, body, l);
    if l.numArgs <= 0x7f && |l.symbols| <= 0xff {
      forall args
        ensures SlotsReady(l, names, args)
      {
        SlotsFit(l, names, args);
      }
    } else {
      var args := SlotsFail(l, names);
    }
  }

  /** What a closure is made of. */
  lemma Parts(efuns: Efuns, names: seq<Name>, body: Tree, l: Lambda) returns (o: Out)
    requires CompileLambda(efuns, names, body) == Ok(l)
    ensures Distinct(names) && Compile(efuns, body, NOTHING.(zero := true), MAX_LAMBDA_LEVELS, Tables([], names)) == Ok(o)
    ensures l.closure.code == l.closure.code[..3] + o.code + [if o.void then F_RETURN0 else F_RETURN]
    ensures l.closure.efuns == efuns && o.tables.values <= l.closure.values && l.symbols == o.tables.symbols && l.conds == o.conds
  {
    hide Compile;
    o := Compile(efuns, body, NOTHING.(zero := true), MAX_LAMBDA_LEVELS, Tables([], names)).value;
  }

  /** On entry everything is ready for the code of the body, which is followed by the return. */
  lemma BodyReady(efuns: Efuns, names: seq<Name>, body: Tree, l: Lambda, args: seq<Value>, world: World)
    requires CompileLambda(efuns, names, body) == Ok(l) && Lands(l.conds) && FitsOperands(l)
    ensures Distinct(names)
    ensures var o := Compile(efuns, body, NOTHING.(zero := true), MAX_LAMBDA_LEVELS, Tables([], names));
            && l.closure.efuns == efuns
            && Ready(Context(l.closure, l.symbols), o, 3, Entry(l, args, world), Env(Arguments(names, args), world))
            && 3 + |o.value.code| < |l.closure.code|
            && l.closure.code[3 + |o.value.code|] == if o.value.void then F_RETURN0 else F_RETURN
  {
    hide Compile, CompileLambda, At, Lands, NewFrame, Arguments;
    Header(efuns, names, body, l);
    SlotsFit(l, names, args);
    var o := Parts(efuns, names, body, l);
    var last := if o.void then F_RETURN0 else F_RETURN;
    Whole(l.closure.code);
    AtSplit(l.closure.code, 0, l.closure.code[..3] + o.code, [last]);
    AtSplit(l.closure.code, 0, l.closure.code[..3], o.code);
    Fetch(l.closure.code, 3 + |o.code|, [last]);
  }

  /** Run the body; if it finishes, the closure is about to return. */
  lemma RunBody(efuns: Efuns, names: seq<Name>, body: Tree, l: Lambda, args: seq<Value>, world: World, fuel: nat)
    returns (n: nat, t: State)
    requires CompileLambda(efuns, names, body) == Ok(l) && Lands(l.conds) && FitsOperands(l)
    ensures Run(l.closure, n, Entry(l, args, world)) == Some(t)
    ensures match Eval(efuns, body, Env(Arguments(names, args), world), fuel)
            case None => n >= fuel
            case Some(o) => Returned(l.closure, t) == Some(o.v) && t.world == o.env.world
  {
    hide Compile, Eval, Run, CompileLambda, Ready, Arguments, Faithful;
    var cx := Context(l.closure, l.symbols);
    var f := NOTHING.(zero := true);
    BodyReady(efuns, names, body, l, args, world);
    n, t := Sim(cx, body, f, MAX_LAMBDA_LEVELS, Tables([], names), 3, Entry(l, args, world), Env(Arguments(names, args), world), fuel);
  }

  lemma Whole(code: Code)
    ensures At(code, 0, code)
  {
  }

  /** A compiled closure returns exactly what its body evaluates to, with exactly its effects. It
      returns if and only if the evaluation ends. */
  lemma LambdaCorrect(efuns: Efuns, names: seq<Name>, body: Tree, args: seq<Value>, world: World, v: Value, after: World)
    requires CompileLambda(efuns, names, body).Ok?
    requires var l := CompileLambda(efuns, names, body).value; Lands(l.conds) && FitsOperands(l)
    ensures var l := CompileLambda(efuns, names, body).value;
            Returns(l, Entry(l, args, world), v, after)
            <==> Evaluates(efuns, body, Env(Arguments(names, args), world), v, after)
  {
    hide Compile, Eval, Run, CompileLambda, Step;
    var l := CompileLambda(efuns, names, body).value;
    Header(efuns, names, body, l);
    var s := Entry(l, args, world);
    var env := Env(Arguments(names, args), world);
    if Evaluates(efuns, body, env, v, after) {
      var fuel: nat, o: Outcome :| Eval(efuns, body, env, fuel) == Some(o) && o.v == v && o.env.world == after;
      var n, t := RunBody(efuns, names, body, l, args, world, fuel);
    }
    if Returns(l, s, v, after) {
      var n: nat, t: State :| Run(l.closure, n, s) == Some(t) && Returned(l.closure, t) == Some(v) && t.world == after;
      var m, u := RunBody(efuns, names, body, l, args, world, n + 1);
      ReturnIsFinal(l.closure, n, m, s);
      var o := Eval(efuns, body, env, n + 1).value;
      ReturnIsFinal(l.closure, m, n, s);
    }
  }
}
