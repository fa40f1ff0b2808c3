/** The block arrays a lambda closure is made of, and what they mean.

    The meaning is given by evaluating the tree directly. Loops may run forever, so evaluation
    is bounded by `fuel`: None says that some loop was still running when the fuel was used up. */
module LambdaTree {
  import opened Wrappers
  import opened Bytecode

  type Name = string

  datatype Tree =
    | Const(v: Value)
    | Symbol(name: Name)
    | Efun(k: EfunId, args: seq<Tree>)
    | Comma(exprs: seq<Tree>)
    | Not(expr: Tree)
    | Land(isAnd: bool, exprs: seq<Tree>)
    | LandEq(isAnd: bool, name: Name, expr: Tree)
    | Assign(targets: seq<Target>)
    | Cond(isNotIf: bool, pairs: seq<Pair>, hasDefault: bool, default: Tree)
    | Do(bodies: seq<Tree>, cond: Tree, result: Tree)
    | While(cond: Tree, result: Tree, bodies: seq<Tree>)

  /** `name = expr` in an assignment block. */
  datatype Target = Target(name: Name, expr: Tree)

  /** One condition of #'? with its cond-part. */
  datatype Pair = Pair(cond: Tree, part: Tree)

  /** The variables of the closure and the calls made so far. Locals start as number zero. */
  datatype Env = Env(vars: map<Name, Value>, world: World)

  function Lookup(vars: map<Name, Value>, name: Name): Value {
    if name in vars then vars[name] else Num(0)
  }

  function Assigned(env: Env, name: Name, v: Value): Env {
    env.(vars := env.vars[name := v])
  }

  datatype Outcome = Outcome(v: Value, env: Env)

  function Eval(efuns: Efuns, t: Tree, env: Env, fuel: nat): Option<Outcome>
    decreases fuel, t, 2
  {
    match t
    case Const(v) => Some(Outcome(v, env))
    case Symbol(name) => Some(Outcome(Lookup(env.vars, name), env))
    case Efun(_, _) => EvalEfun(efuns, t, env, fuel)
    case Comma(exprs) => EvalComma(efuns, exprs, env, fuel)
    case Not(_) => EvalNot(efuns, t, env, fuel)
    case Land(isAnd, exprs) => EvalLand(efuns, isAnd, exprs, env, fuel)
    case LandEq(_, _, _) => EvalLandEq(efuns, t, env, fuel)
    case Assign(targets) => EvalAssign(efuns, targets, env, fuel)
    case Cond(_, _, _, _) => EvalCond(efuns, t, env, fuel)
    case Do(_, _, _) => EvalDo(efuns, t, env, fuel)
    case While(_, _, _) => EvalWhile(efuns, t, env, fuel)
  }

  /** A void efun has the value 0. */
  function EvalEfun(efuns: Efuns, t: Tree, env: Env, fuel: nat): Option<Outcome>
    requires t.Efun?
    decreases fuel, t, 0
  {
    match EvalEach(efuns, t.args, env, fuel)
    case None => None
    case Some((vs, e)) =>
      Some(Outcome(if efuns.isVoid(t.k) then Num(0) else efuns.call(t.k, vs, e.world),
                   e.(world := e.world + [(t.k, vs)])))
  }

  function EvalNot(efuns: Efuns, t: Tree, env: Env, fuel: nat): Option<Outcome>
    requires t.Not?
    decreases fuel, t, 0
  {
    match Eval(efuns, t.expr, env, fuel)
    case None => None
    case Some(o) => Some(Outcome(Num(if IsZero(o.v) then 1 else 0), o.env))
  }

  function EvalLandEq(efuns: Efuns, t: Tree, env: Env, fuel: nat): Option<Outcome>
    requires t.LandEq?
    decreases fuel, t, 0
  {
    var v := Lookup(env.vars, t.name);
    if IsZero(v) == t.isAnd then Some(Outcome(v, Assigned(env, t.name, v)))
    else
      match Eval(efuns, t.expr, env, fuel)
      case None => None
      case Some(o) => Some(Outcome(o.v, Assigned(o.env, t.name, o.v)))
  }

  function EvalCond(efuns: Efuns, t: Tree, env: Env, fuel: nat): Option<Outcome>
    requires t.Cond?
    decreases fuel, t, 0
  {
    match EvalPairs(efuns, t.isNotIf, t.pairs, env, fuel)
    case None => None
    case Some(Taken(o)) => Some(o)
    case Some(Missed(e)) =>
      if t.hasDefault then Eval(efuns, t.default, e, fuel) else Some(Outcome(Num(0), e))
  }

  /** Arguments, left to right. */
  function EvalEach(efuns: Efuns, ts: seq<Tree>, env: Env, fuel: nat): Option<(seq<Value>, Env)>
    decreases fuel, ts, 0
  {
    if ts == [] then Some(([], env))
    else
      match Eval(efuns, ts[0], env, fuel)
      case None => None
      case Some(o) =>
        match EvalEach(efuns, ts[1..], o.env, fuel)
        case None => None
        case Some((vs, e)) => Some(([o.v] + vs, e))
  }

  /** Only the effects of the expressions count. */
  function EvalAll(efuns: Efuns, ts: seq<Tree>, env: Env, fuel: nat): Option<Env>
    decreases fuel, ts, 0
  {
    if ts == [] then Some(env)
    else
      match Eval(efuns, ts[0], env, fuel)
      case None => None
      case Some(o) => EvalAll(efuns, ts[1..], o.env, fuel)
  }

  /** The value of the last expression, 0 if there is none. */
  function EvalComma(efuns: Efuns, ts: seq<Tree>, env: Env, fuel: nat): Option<Outcome>
    decreases fuel, ts, 0
  {
    if ts == [] then Some(Outcome(Num(0), env))
    else if |ts| == 1 then Eval(efuns, ts[0], env, fuel)
    else
      match Eval(efuns, ts[0], env, fuel)
      case None => None
      case Some(o) => EvalComma(efuns, ts[1..], o.env, fuel)
  }

  /** The first value that decides the operator, else the last value; 1 resp. 0 if there is none. */
  function EvalLand(efuns: Efuns, isAnd: bool, ts: seq<Tree>, env: Env, fuel: nat): Option<Outcome>
    decreases fuel, ts, 0
  {
    if ts == [] then Some(Outcome(Num(if isAnd then 1 else 0), env))
    else if |ts| == 1 then Eval(efuns, ts[0], env, fuel)
    else
      match Eval(efuns, ts[0], env, fuel)
      case None => None
      case Some(o) => if IsZero(o.v) == isAnd then Some(o) else EvalLand(efuns, isAnd, ts[1..], o.env, fuel)
  }

  function EvalAssign(efuns: Efuns, targets: seq<Target>, env: Env, fuel: nat): Option<Outcome>
    decreases fuel, targets, 0
  {
    if targets == [] then Some(Outcome(Num(0), env))
    else
      match Eval(efuns, targets[0].expr, env, fuel)
      case None => None
      case Some(o) =>
        var e := Assigned(o.env, targets[0].name, o.v);
        if |targets| == 1 then Some(Outcome(o.v, e)) else EvalAssign(efuns, targets[1..], e, fuel)
  }

  /** Whether a condition of #'? resp. #'?! selects its cond-part. */
  predicate Selects(isNotIf: bool, v: Value) {
    IsZero(v) == isNotIf
  }

  datatype Choice = Taken(o: Outcome) | Missed(env: Env)

  function EvalPairs(efuns: Efuns, isNotIf: bool, pairs: seq<Pair>, env: Env, fuel: nat): Option<Choice>
    decreases fuel, pairs, 0
  {
    if pairs == [] then Some(Missed(env))
    else
      var pair := pairs[0];
      assert pair.cond < pair && pair.part < pair;
      match Eval(efuns, pair.cond, env, fuel)
      case None => None
      case Some(c) =>
        if Selects(isNotIf, c.v) then
          match Eval(efuns, pair.part, c.env, fuel)
          case None => None
          case Some(o) => Some(Taken(o))
        else EvalPairs(efuns, isNotIf, pairs[1..], c.env, fuel)
  }

  /** The bodies, then the condition, again while the condition is true. */
  function EvalDoLoop(efuns: Efuns, t: Tree, env: Env, fuel: nat): Option<Env>
    requires t.Do?
    decreases fuel, t, 0
  {
    if fuel == 0 then None
    else
      match EvalAll(efuns, t.bodies, env, fuel)
      case None => None
      case Some(e) =>
        match Eval(efuns, t.cond, e, fuel)
        case None => None
        case Some(c) => if IsZero(c.v) then Some(c.env) else EvalDoLoop(efuns, t, c.env, fuel - 1)
  }

  /** The condition, then the bodies, again while the condition is true. */
  function EvalWhileLoop(efuns: Efuns, t: Tree, env: Env, fuel: nat): Option<Env>
    requires t.While?
    decreases fuel, t, 0
  {
    if fuel == 0 then None
    else
      match Eval(efuns, t.cond, env, fuel)
      case None => None
      case Some(c) =>
        if IsZero(c.v) then Some(c.env)
        else
          match EvalAll(efuns, t.bodies, c.env, fuel)
          case None => None
          case Some(e) => EvalWhileLoop(efuns, t, e, fuel - 1)
  }

  function EvalDo(efuns: Efuns, t: Tree, env: Env, fuel: nat): Option<Outcome>
    requires t.Do?
    decreases fuel, t, 1
  {
    match EvalDoLoop(efuns, t, env, fuel)
    case None => None
    case Some(e) => Eval(efuns, t.result, e, fuel)
  }

  function EvalWhile(efuns: Efuns, t: Tree, env: Env, fuel: nat): Option<Outcome>
    requires t.While?
    decreases fuel, t, 1
  {
    match EvalWhileLoop(efuns, t, env, fuel)
    case None => None
    case Some(e) => Eval(efuns, t.result, e, fuel)
  }
}
