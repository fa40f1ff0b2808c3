/** Bytecode of lambda closures and the part of the interpreter that executes it.

    The opcode numbers are generated when the driver is built; the ones here are only
    required to be distinct. 16-bit offsets are stored high byte first. */
module Bytecode {
  import opened Wrappers

  type Byte = b: int | 0 <= b < 256

  /** A value is a number, a vector, or something else that is no number. */
  datatype Value = Num(n: int) | Vector(items: seq<Value>) | Other(id: nat)

  predicate IsZero(v: Value) {
    v == Num(0)
  }

  /** Everything an efun call can observe or change: the calls made so far, in order. */
  type World = seq<(nat, seq<Value>)>

  /** The fixed-arity, single-byte efuns a closure may call. */
  type EfunId = k: int | 0 <= k < 192

  datatype Efuns = Efuns(arity: EfunId -> nat, isVoid: EfunId -> bool, call: (nat, seq<Value>, World) -> Value)

  const F_CONST0: Byte := 1
  const F_CONST1: Byte := 2
  const F_CLIT: Byte := 3
  const F_NCLIT: Byte := 4
  const F_LAMBDA_CCONSTANT: Byte := 5
  const F_LAMBDA_CONSTANT: Byte := 6
  const F_LOCAL: Byte := 7
  const F_PUSH_LOCAL_VARIABLE_LVALUE: Byte := 8
  const F_POP_VALUE: Byte := 9
  const F_DUP: Byte := 10
  const F_LDUP: Byte := 11
  const F_SWAP_VALUES: Byte := 12
  const F_ASSIGN: Byte := 13
  const F_VOID_ASSIGN: Byte := 14
  const F_NOT: Byte := 15
  const F_LAND: Byte := 16
  const F_LOR: Byte := 17
  const F_BRANCH: Byte := 18
  const F_LBRANCH: Byte := 19
  const F_BRANCH_WHEN_ZERO: Byte := 20
  const F_BRANCH_WHEN_NON_ZERO: Byte := 21
  const F_LBRANCH_WHEN_ZERO: Byte := 22
  const F_LBRANCH_WHEN_NON_ZERO: Byte := 23
  const F_BBRANCH_WHEN_ZERO: Byte := 24
  const F_BBRANCH_WHEN_NON_ZERO: Byte := 25
  const F_RETURN: Byte := 26
  const F_RETURN0: Byte := 27
  const FIRST_EFUN: Byte := 64

  /** The two bytes of a stored short; like the store macros it keeps only 16 bits. */
  function Short(n: int): (bytes: seq<Byte>)
    ensures |bytes| == 2
  {
    [n / 256 % 256, n % 256]
  }

  /** The signed value the interpreter reads back from two stored bytes. */
  function Signed16(hi: Byte, lo: Byte): int {
    var u := hi * 256 + lo;
    if u >= 0x8000 then u - 0x1_0000 else u
  }

  /** A stored short is read back unchanged iff it fits into 16 signed bits. */
  lemma ShortRoundTrip(n: int)
    ensures Signed16(Short(n)[0], Short(n)[1]) == n <==> -0x8000 <= n <= 0x7fff
  {
    var u := n % 0x1_0000;
    assert n == 0x1_0000 * (n / 0x1_0000) + u;
    assert n / 256 % 256 == u / 256 && n % 256 == u % 256;
  }

  datatype Slot = Val(v: Value) | Lvalue(local: nat)

  datatype Stack = Empty | Push(top: Slot, rest: Stack)

  /** A compiled closure, and the machine state while it runs. */
  datatype Closure = Closure(code: seq<Byte>, values: seq<Value>, efuns: Efuns)

  datatype State = State(pc: int, stack: Stack, locals: seq<Value>, world: World)

  function Zeros(n: nat): seq<Value> {
    seq(n, _ => Num(0))
  }

  /** Arguments that are too many are dropped, missing ones are 0. */
  function Adjusted(args: seq<Value>, n: nat): (slots: seq<Value>)
    ensures |slots| == n
  {
    if n <= |args| then args[..n] else args + Zeros(n - |args|)
  }

  /** The slots for local variables that a call sets up. The number of arguments is a signed byte: if it is negative, its
      low bits are the number of arguments of which the last one is a vector of all that remain. With none at all, the
      vector lies below the slots. */
  function NewFrame(numArgs: Byte, numVars: Byte, args: seq<Value>): seq<Value> {
    (if numArgs < 0x80 then Adjusted(args, numArgs)
     else if numArgs == 0x80 then []
     else
       var last := numArgs - 0x80 - 1;
       Adjusted(args, last) + [Vector(if last <= |args| then args[last..] else [])])
    + Zeros(numVars)
  }

  lemma FrameLength(numArgs: Byte, numVars: Byte, args: seq<Value>)
    ensures |NewFrame(numArgs, numVars, args)| == (if numArgs < 0x80 then numArgs else numArgs - 0x80) + numVars
  {
  }

  function PopArgs(n: nat, stack: Stack): Option<(seq<Value>, Stack)>
    decreases n
  {
    if n == 0 then Some(([], stack))
    else if stack.Push? && stack.top.Val? then
      match PopArgs(n - 1, stack.rest)
      case None => None
      case Some((args, rest)) => Some((args + [stack.top.v], rest))
    else None
  }

  function PushValue(s: State, pc: int, v: Value): Option<State> {
    Some(s.(pc := pc, stack := Push(Val(v), s.stack)))
  }

  /** Pop the tested value and go to `there` if the test succeeds, else to `here`. */
  function PopAndBranch(s: State, whenZero: bool, there: int, here: int): Option<State> {
    if s.stack.Push? && s.stack.top.Val? then
      Some(s.(pc := if IsZero(s.stack.top.v) == whenZero then there else here, stack := s.stack.rest))
    else None
  }

  /** #'&& and #'|| : branch keeping the value, or pop it and continue. */
  function KeepAndBranch(s: State, whenZero: bool, there: int, here: int): Option<State> {
    if s.stack.Push? && s.stack.top.Val? then
      if IsZero(s.stack.top.v) == whenZero then Some(s.(pc := there))
      else Some(s.(pc := here, stack := s.stack.rest))
    else None
  }

  function Assign(s: State, keep: bool): Option<State> {
    if s.stack.Push? && s.stack.top.Lvalue? && s.stack.rest.Push? && s.stack.rest.top.Val? && s.stack.top.local < |s.locals| then
      Some(s.(pc := s.pc + 1,
              locals := s.locals[s.stack.top.local := s.stack.rest.top.v],
              stack := if keep then s.stack.rest else s.stack.rest.rest))
    else None
  }

  function CallEfun(efuns: Efuns, k: EfunId, s: State): Option<State> {
    match PopArgs(efuns.arity(k), s.stack)
    case None => None
    case Some((args, rest)) =>
      var world := s.world + [(k, args)];
      if efuns.isVoid(k) then Some(s.(pc := s.pc + 1, stack := rest, world := world))
      else Some(s.(pc := s.pc + 1, stack := Push(Val(efuns.call(k, args, s.world)), rest), world := world))
  }

  /** Instructions without an operand. */
  function StepPlain(c: Closure, op: Byte, s: State): Option<State> {
    if op == F_CONST0 then PushValue(s, s.pc + 1, Num(0))
    else if op == F_CONST1 then PushValue(s, s.pc + 1, Num(1))
    else if op == F_POP_VALUE then
      if s.stack.Push? then Some(s.(pc := s.pc + 1, stack := s.stack.rest)) else None
    else if op == F_DUP then
      if s.stack.Push? then Some(s.(pc := s.pc + 1, stack := Push(s.stack.top, s.stack))) else None
    else if op == F_LDUP then
      if s.stack.Push? && s.stack.top.Lvalue? && s.stack.top.local < |s.locals| then
        PushValue(s, s.pc + 1, s.locals[s.stack.top.local])
      else None
    else if op == F_SWAP_VALUES then
      if s.stack.Push? && s.stack.rest.Push? then
        Some(s.(pc := s.pc + 1, stack := Push(s.stack.rest.top, Push(s.stack.top, s.stack.rest.rest))))
      else None
    else if op == F_ASSIGN then Assign(s, true)
    else if op == F_VOID_ASSIGN then Assign(s, false)
    else if op == F_NOT then
      if s.stack.Push? && s.stack.top.Val? then
        Some(s.(pc := s.pc + 1, stack := Push(Val(Num(if IsZero(s.stack.top.v) then 1 else 0)), s.stack.rest)))
      else None
    else if FIRST_EFUN <= op then CallEfun(c.efuns, op - FIRST_EFUN, s)
    else None
  }

  /** Instructions with a one-byte operand `b`. */
  function StepByte(c: Closure, op: Byte, b: Byte, s: State): Option<State> {
    if op == F_CLIT then PushValue(s, s.pc + 2, Num(b))
    else if op == F_NCLIT then PushValue(s, s.pc + 2, Num(0 - b))
    else if op == F_LAMBDA_CCONSTANT then
      if b < |c.values| then PushValue(s, s.pc + 2, c.values[b]) else None
    else if op == F_LOCAL then
      if b < |s.locals| then PushValue(s, s.pc + 2, s.locals[b]) else None
    else if op == F_PUSH_LOCAL_VARIABLE_LVALUE then Some(s.(pc := s.pc + 2, stack := Push(Lvalue(b), s.stack)))
    else if op == F_LAND then KeepAndBranch(s, true, s.pc + 2 + b, s.pc + 2)
    else if op == F_LOR then KeepAndBranch(s, false, s.pc + 2 + b, s.pc + 2)
    else if op == F_BRANCH then Some(s.(pc := s.pc + 2 + b))
    else if op == F_BRANCH_WHEN_ZERO then PopAndBranch(s, true, s.pc + 2 + b, s.pc + 2)
    else if op == F_BRANCH_WHEN_NON_ZERO then PopAndBranch(s, false, s.pc + 2 + b, s.pc + 2)
    else if op == F_BBRANCH_WHEN_ZERO then PopAndBranch(s, true, s.pc + 1 - b, s.pc + 2)
    else if op == F_BBRANCH_WHEN_NON_ZERO then PopAndBranch(s, false, s.pc + 1 - b, s.pc + 2)
    else None
  }

  /** Instructions with a two-byte operand. */
  function StepShort(c: Closure, op: Byte, hi: Byte, lo: Byte, s: State): Option<State> {
    if op == F_LAMBDA_CONSTANT then
      var ix := hi * 256 + lo;
      if ix < |c.values| then PushValue(s, s.pc + 3, c.values[ix]) else None
    else if op == F_LBRANCH then Some(s.(pc := s.pc + 1 + Signed16(hi, lo)))
    else if op == F_LBRANCH_WHEN_ZERO then PopAndBranch(s, true, s.pc + 1 + Signed16(hi, lo), s.pc + 3)
    else if op == F_LBRANCH_WHEN_NON_ZERO then PopAndBranch(s, false, s.pc + 1 + Signed16(hi, lo), s.pc + 3)
    else None
  }

  predicate IsShortOp(op: Byte) {
    op in {F_LAMBDA_CONSTANT, F_LBRANCH, F_LBRANCH_WHEN_ZERO, F_LBRANCH_WHEN_NON_ZERO}
  }

  predicate IsByteOp(op: Byte) {
    op in {F_CLIT, F_NCLIT, F_LAMBDA_CCONSTANT, F_LOCAL, F_PUSH_LOCAL_VARIABLE_LVALUE, F_LAND, F_LOR, F_BRANCH,
           F_BRANCH_WHEN_ZERO, F_BRANCH_WHEN_NON_ZERO, F_BBRANCH_WHEN_ZERO, F_BBRANCH_WHEN_NON_ZERO}
  }

  /** One instruction; None when nothing can be executed, in particular at a return. */
  function Step(c: Closure, s: State): Option<State> {
    if !(0 <= s.pc < |c.code|) then None
    else
      var op := c.code[s.pc];
      if IsShortOp(op) then
        if s.pc + 2 < |c.code| then StepShort(c, op, c.code[s.pc + 1], c.code[s.pc + 2], s) else None
      else if IsByteOp(op) then
        if s.pc + 1 < |c.code| then StepByte(c, op, c.code[s.pc + 1], s) else None
      else StepPlain(c, op, s)
  }

  /** `n` instructions. */
  function Run(c: Closure, n: nat, s: State): Option<State> {
    if n == 0 then Some(s)
    else
      match Step(c, s)
      case None => None
      case Some(t) => Run(c, n - 1, t)
  }

  /** The value the closure returns if the next instruction is a return. */
  function Returned(c: Closure, s: State): Option<Value> {
    if 0 <= s.pc < |c.code| && c.code[s.pc] == F_RETURN0 then Some(Num(0))
    else if 0 <= s.pc < |c.code| && c.code[s.pc] == F_RETURN && s.stack.Push? && s.stack.top.Val? then Some(s.stack.top.v)
    else None
  }

  /** Running n + m instructions is running n, then m. */
  lemma {:induction false} RunCompose(c: Closure, n: nat, m: nat, s: State)
    requires Run(c, n, s).Some?
    ensures Run(c, n + m, s) == Run(c, m, Run(c, n, s).value)
  {
    if n > 0 {
      RunCompose(c, n - 1, m, Step(c, s).value);
    }
  }

  /** A closure about to return executes nothing more, so a run returns at most once. */
  lemma {:induction false} ReturnIsFinal(c: Closure, n: nat, m: nat, s: State)
    requires Run(c, n, s).Some? && Returned(c, Run(c, n, s).value).Some?
    requires Run(c, m, s).Some?
    ensures m <= n
  {
    if m > n {
      RunCompose(c, n, m - n, s);
    }
  }
}
