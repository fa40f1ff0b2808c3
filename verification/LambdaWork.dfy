/** lambda() as it works: the arguments are bound, the body is compiled into the buffer, and the header is completed. */
module LambdaWork {
  import opened Wrappers
  import opened Bytecode
  import opened LambdaTree
  import opened LambdaCompile
  import opened LambdaTheorems
  import opened WorkArea

  /** The arguments get the first indices, in their order. A symbol that has one already is an error. */
  method BindArguments(args: seq<Name>) returns (r: Result<Symbols, CompileError>)
    ensures r == if Distinct(args) then Ok(args) else Err(DoubleSymbol)
  {
    var symbols: Symbols := [];
    var i := 0;
    while i < |args|
      invariant 0 <= i <= |args| && symbols == args[..i]
    {
      if args[i] in symbols {
        assert exists j :: 0 <= j < i && args[j] == args[i];
        return Err(DoubleSymbol);
      }
      assert args[..i + 1] == args[..i] + [args[i]];
      symbols := symbols + [args[i]];
      i := i + 1;
    }
    assert args[..i] == args;
    return Ok(symbols);
  }

  /** The number of values as the header has it; from 255 on it is in the value block. */
  function ValueCount(values: seq<Value>): Byte {
    if |values| >= 0xff then 0xff else |values|
  }

  /** Compile a closure: it is the one specified, or the error is. */
  method MakeLambda(efuns: Efuns, args: seq<Name>, block: Tree) returns (r: Result<Closure, CompileError>)
    ensures match CompileLambda(efuns, args, block)
            case Err(e) => r == Err(e)
            case Ok(l) => r == Ok(l.closure)
  {
    hide Compile;
    var symbols :- BindArguments(args);
    var w := new WorkArea(efuns, symbols);
    w.Emit(0);
    w.Emit(|args| % 256);
    w.Emit(0);
    ghost var header := w.code;
    var given :- w.CompileValue(block, NOTHING.(zero := true));
    w.Reserve(1);
    w.Emit(if given.void then F_RETURN0 else F_RETURN);
    var values := if |w.values| == 0xff then w.values + [Num(0)] else w.values;
    assert header == [0, |args| % 256, 0];
    var code := w.code[0 := ValueCount(values)][2 := |w.symbols| % 256];
    ghost var o := Compile(efuns, block, NOTHING.(zero := true), MAX_LAMBDA_LEVELS, Tables([], args)).value;
    assert code == [ValueCount(values), |args| % 256, |w.symbols| % 256] + o.code + [if o.void then F_RETURN0 else F_RETURN];
    return Ok(Closure(code, values, efuns));
  }
}
