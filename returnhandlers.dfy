/**
 * The return-value resolution engine: which of three strategies carries a
 * method's return value across the COM boundary, the out-arguments a strategy
 * adds to the COM signature, and the code it emits in both directions.
 */
module ReturnHandlers {

  import opened Wrappers
  import opened Decimal
  import opened Syntax
  import opened TyHandlers
  import opened MethodInfo
  import opened Tokens

  /** The binding of the error in the emitted `Err( e )` arm. */
  const ErrorBinding: Ident := Ident("e", CallSite)

  /** The interface identifier the generated caller code has in scope. */
  const InterfaceIid: Ident := Ident("__intercom_iid", CallSite)

  /**
   * The three return handlers. `VoidHandler`: the method returns nothing.
   * `ReturnOnlyHandler`: the value is returned directly. `ErrorResultHandler`:
   * the method returns a `Result` whose `Ok` payload has type `retvalTy`; `returnTy`
   * is the declared return type.
   */
  datatype ReturnHandler =
    | VoidHandler(span: Span)
    | ReturnOnlyHandler(ty: Ty, typeSystem: ModelTypeSystem, span: Span)
    | ErrorResultHandler(retvalTy: Ty, returnTy: Ty, span: Span, typeSystem: ModelTypeSystem)
  {
    /** `type_system()`; a void return does not depend on the type system. */
    function TypeSystem(): ModelTypeSystem
    {
      match this
      case VoidHandler(_) => Automation
      case ReturnOnlyHandler(_, ts, _) => ts
      case ErrorResultHandler(_, _, _, ts) => ts
    }

    /** `rust_ty()`: the return type of the Rust method. */
    function RustTy(): Ty
    {
      match this
      case VoidHandler(_) => UnitTy
      case ReturnOnlyHandler(t, _, _) => t
      case ErrorResultHandler(_, rt, _, _) => rt
    }

    /** The return type of the COM method. */
    function ComTy(): (t: ComType)
      ensures VoidHandler? ==> t == ForeignType(UnitTy, Automation, Retval)
      ensures ReturnOnlyHandler? ==> t == ForeignType(ty, typeSystem, Retval)
      ensures ErrorResultHandler? ==> t == HResultType(typeSystem)
    {
      match this
      case ErrorResultHandler(_, _, _, ts) => HResultType(ts)
      case _ => ForeignType(RustTy(), TypeSystem(), Retval)
    }

    /** The COM out-arguments the Rust return type turns into. */
    function ComOutArgs(): (args: seq<ComArg>)
      ensures !ErrorResultHandler? ==> args == []
      ensures ErrorResultHandler? && retvalTy.Tuple? ==> |args| == |retvalTy.elems|
      ensures ErrorResultHandler? && !retvalTy.Tuple? ==> |args| == 1
    {
      match this
      case ErrorResultHandler(rv, _, sp, ts) => GetOutArgsForResult(rv, sp, ts)
      case _ => []
    }

    /** The code that turns the Rust method's result into the COM return value and out-values. */
    function RustToComReturn(result: Ident): (code: Code)
      ensures VoidHandler? ==> code == Empty
      ensures ReturnOnlyHandler? ==> code == ToComValue(RustToCom(result, ty, typeSystem, span, Retval))
      ensures ErrorResultHandler? ==>
        var args := ComOutArgs();
        && code.MatchResult? && code.scrutinee == result
        && (code.okPattern.ParenPattern? <==> retvalTy.Tuple?)
        && |code.okPattern.binds| == |args|
        && (forall i :: 0 <= i < |args| ==> code.okPattern.binds[i] == Ident("v" + NatToDecimal(i + 1), CallSite))
        && |code.okWrites| == |args| && |code.errWrites| == |args|
        && (forall i :: 0 <= i < |args| ==>
              code.okWrites[i] == Write(args[i].name, RustToCom(code.okPattern.binds[i], args[i].ty, args[i].typeSystem, span, Out)))
        && (forall i :: 0 <= i < |args| ==>
              code.errWrites[i] == Write(args[i].name, DefaultValue(args[i].ty, args[i].typeSystem)))
        && code.okStatus == ReturnOk
        && code.errStatus == StoreError(code.errBinding)
    {
      match this
      case VoidHandler(_) => Empty
      case ReturnOnlyHandler(t, ts, sp) => ToComValue(RustToCom(result, t, ts, sp, Retval))
      case ErrorResultHandler(rv, _, sp, _) =>
        var args := ComOutArgs();
        var idents := OkIdents(|args|);
        var pattern := if rv.Tuple? then ParenPattern(idents) else SplicePattern(idents);
        var writes := OutValueWrites(idents, args, sp);
        MatchResult(result, pattern, writes.0, ReturnOk, ErrorBinding, writes.1, StoreError(ErrorBinding))
    }

    /** The code that turns the COM return value and out-values back into the Rust result. */
    function ComToRustReturn(result: Ident): (code: Code)
      ensures VoidHandler? ==> code == Empty
      ensures ReturnOnlyHandler? ==> code == ToRustValue(ComToRust(result, ty, typeSystem, span, Retval))
      ensures ErrorResultHandler? ==>
        var args := ComOutArgs();
        && code.CheckStatus? && code.status == result && code.iid == InterfaceIid
        && (|args| == 1 ==> code.okValue == Single(ComToRust(args[0].name, args[0].ty, args[0].typeSystem, args[0].span, Retval)))
        && (|args| != 1 ==> code.okValue.TupleOf? && |code.okValue.items| == |args|)
        && (|args| != 1 ==> forall i :: 0 <= i < |args| ==>
              code.okValue.items[i] == ComToRust(args[i].name, args[i].ty, args[i].typeSystem, args[i].span, Retval))
    {
      match this
      case VoidHandler(_) => Empty
      case ReturnOnlyHandler(t, ts, sp) => ToRustValue(ComToRust(result, t, ts, sp, Retval))
      case ErrorResultHandler(_, _, _, _) =>
        var values := RustOkValues(ComOutArgs());
        var ok := if |values| != 1 then TupleOf(values) else Single(values[0]);
        CheckStatus(result, ok, InterfaceIid)
    }
  }

  /** The name of the `index`-th (1-based) tuple out-argument, `__out{index}`. */
  function OutArgName(index: nat, span: Span): Ident
  {
    Ident("__out" + NatToDecimal(index), span)
  }

  /**
   * `get_out_args_for_result`: a tuple payload becomes one `Out` argument per
   * element; any other payload becomes a single `[retval]` argument `__out`.
   */
  function GetOutArgsForResult(retvalTy: Ty, span: Span, typeSystem: ModelTypeSystem): (args: seq<ComArg>)
    ensures retvalTy.Tuple? ==> |args| == |retvalTy.elems|
    ensures retvalTy.Tuple? ==> forall i :: 0 <= i < |args| ==>
      args[i] == ComArg(Ident("__out" + NatToDecimal(i + 1), span), retvalTy.elems[i], span, Out, typeSystem)
    ensures !retvalTy.Tuple? ==> args == [ComArg(Ident("__out", span), retvalTy, span, Retval, typeSystem)]
  {
    match retvalTy
    case Tuple(elems) =>
      seq(|elems|, i requires 0 <= i < |elems| => ComArg(OutArgName(i + 1, span), elems[i], span, Out, typeSystem))
    case _ => [ComArg(Ident("__out", span), retvalTy, span, Retval, typeSystem)]
  }

  /** No two out-arguments of one payload type share a name. */
  lemma OutArgNamesDistinct(retvalTy: Ty, span: Span, typeSystem: ModelTypeSystem, i: nat, j: nat)
    requires i < j < |GetOutArgsForResult(retvalTy, span, typeSystem)|
    ensures GetOutArgsForResult(retvalTy, span, typeSystem)[i].name != GetOutArgsForResult(retvalTy, span, typeSystem)[j].name
  {
    var args := GetOutArgsForResult(retvalTy, span, typeSystem);
    if args[i].name == args[j].name {
      PrefixedDecimalInjective("__out", i + 1, j + 1);
    }
  }

  /** The bindings `v1, .., vn` for the payload of `Ok( .. )`. */
  function OkIdents(n: nat): seq<Ident>
  {
    seq(n, i requires 0 <= i < n => Ident("v" + NatToDecimal(i + 1), CallSite))
  }

  /** No two payload bindings share a name. */
  lemma OkIdentsDistinct(n: nat, i: nat, j: nat)
    requires i < j < n
    ensures OkIdents(n)[i] != OkIdents(n)[j]
  {
    if OkIdents(n)[i] == OkIdents(n)[j] {
      PrefixedDecimalInjective("v", i + 1, j + 1);
    }
  }

  /** The success write for one out-argument: `*name = rust_to_com(ident, Out)`. */
  function OkWrite(ident: Ident, arg: ComArg, span: Span): Write
  {
    Write(arg.name, RustToCom(ident, arg.ty, arg.typeSystem, span, Out))
  }

  /** The failure write for one out-argument: `*name = default_value()`. */
  function ErrWrite(arg: ComArg): Write
  {
    Write(arg.name, DefaultValue(arg.ty, arg.typeSystem))
  }

  function Min(a: nat, b: nat): nat
  {
    if a < b then a else b
  }

  /** The writes `write_out_values` produces: one pair per element of `idents` zipped with `outArgs`. */
  function OutValueWrites(idents: seq<Ident>, outArgs: seq<ComArg>, span: Span): (seq<Write>, seq<Write>)
  {
    var n := Min(|idents|, |outArgs|);
    (seq(n, i requires 0 <= i < n => OkWrite(idents[i], outArgs[i], span)),
     seq(n, i requires 0 <= i < n => ErrWrite(outArgs[i])))
  }

  /**
   * `write_out_values`: for each identifier paired with an out-argument, in order,
   * the write of its converted value on success and of the default value on failure.
   */
  method WriteOutValues(idents: seq<Ident>, outArgs: seq<ComArg>, span: Span)
    returns (okTokens: seq<Write>, errTokens: seq<Write>)
    ensures |okTokens| == |errTokens| == Min(|idents|, |outArgs|)
    ensures forall i :: 0 <= i < |okTokens| ==>
      okTokens[i] == Write(outArgs[i].name, RustToCom(idents[i], outArgs[i].ty, outArgs[i].typeSystem, span, Out))
    ensures forall i :: 0 <= i < |errTokens| ==>
      errTokens[i] == Write(outArgs[i].name, DefaultValue(outArgs[i].ty, outArgs[i].typeSystem))
    ensures (okTokens, errTokens) == OutValueWrites(idents, outArgs, span)
  {
    okTokens, errTokens := [], [];
    var n := Min(|idents|, |outArgs|);
    for k := 0 to n
      invariant |okTokens| == |errTokens| == k
      invariant forall i :: 0 <= i < k ==> okTokens[i] == OkWrite(idents[i], outArgs[i], span)
      invariant forall i :: 0 <= i < k ==> errTokens[i] == ErrWrite(outArgs[i])
    {
      var argName := outArgs[k].name;
      var okValue := RustToCom(idents[k], outArgs[k].ty, outArgs[k].typeSystem, span, Out);
      var errValue := DefaultValue(outArgs[k].ty, outArgs[k].typeSystem);
      okTokens := okTokens + [Write(argName, okValue)];
      errTokens := errTokens + [Write(argName, errValue)];
    }
    assert okTokens == OutValueWrites(idents, outArgs, span).0;
    assert errTokens == OutValueWrites(idents, outArgs, span).1;
  }

  /** The conversion of one out-argument back to its Rust value. */
  function RustOkValue(arg: ComArg): RustValue
  {
    ComToRust(arg.name, arg.ty, arg.typeSystem, arg.span, Retval)
  }

  /** The values `get_rust_ok_values` produces. */
  function RustOkValues(outArgs: seq<ComArg>): seq<RustValue>
  {
    seq(|outArgs|, i requires 0 <= i < |outArgs| => RustOkValue(outArgs[i]))
  }

  /** `get_rust_ok_values`: one conversion per out-argument, in order, always as `Retval`. */
  method GetRustOkValues(outArgs: seq<ComArg>) returns (tokens: seq<RustValue>)
    ensures |tokens| == |outArgs|
    ensures forall i :: 0 <= i < |tokens| ==>
      tokens[i] == ComToRust(outArgs[i].name, outArgs[i].ty, outArgs[i].typeSystem, outArgs[i].span, Retval)
    ensures tokens == RustOkValues(outArgs)
  {
    tokens := [];
    for k := 0 to |outArgs|
      invariant |tokens| == k
      invariant forall i :: 0 <= i < k ==> tokens[i] == RustOkValue(outArgs[i])
    {
      var value := ComToRust(outArgs[k].name, outArgs[k].ty, outArgs[k].typeSystem, outArgs[k].span, Retval);
      tokens := tokens + [value];
    }
  }

  /**
   * `get_return_handler`: the handler for a method whose `Result` payload type is
   * `retvalTy` (if it returns a `Result`) and whose return type is `returnTy` (if any).
   */
  function GetReturnHandler(retvalTy: Option<Ty>, returnTy: Option<Ty>, span: Span, typeSystem: ModelTypeSystem)
    : (r: Result<ReturnHandler, ()>)
    ensures retvalTy.None? && returnTy.None? ==> r == Ok(VoidHandler(span))
    ensures retvalTy.None? && returnTy.Some? ==> r == Ok(ReturnOnlyHandler(returnTy.value, typeSystem, span))
    ensures retvalTy.Some? && returnTy.Some? ==> r == Ok(ErrorResultHandler(retvalTy.value, returnTy.value, span, typeSystem))
    ensures r.Err? <==> retvalTy.Some? && returnTy.None?
  {
    match (retvalTy, returnTy)
    case (None, None) => Ok(VoidHandler(span))
    case (None, Some(t)) => Ok(ReturnOnlyHandler(t, typeSystem, span))
    case (Some(rv), Some(rt)) => Ok(ErrorResultHandler(rv, rt, span, typeSystem))
    case _ => Err(())
  }

  /** A void return is generated the same way whatever type system is asked for. */
  lemma VoidIgnoresTypeSystem(span: Span, ts1: ModelTypeSystem, ts2: ModelTypeSystem)
    ensures GetReturnHandler(None, None, span, ts1) == GetReturnHandler(None, None, span, ts2)
    ensures GetReturnHandler(None, None, span, ts1).value.ComTy() == ForeignType(UnitTy, Automation, Retval)
    ensures GetReturnHandler(None, None, span, ts1).value.ComOutArgs() == []
  {
  }

  /** The COM return type of an error-result method is the HRESULT type, whatever the payload. */
  lemma ErrorResultComTyIgnoresPayload(rv1: Ty, rt1: Ty, rv2: Ty, rt2: Ty, span1: Span, span2: Span, ts: ModelTypeSystem)
    ensures GetReturnHandler(Some(rv1), Some(rt1), span1, ts).value.ComTy()
         == GetReturnHandler(Some(rv2), Some(rt2), span2, ts).value.ComTy()
         == HResultType(ts)
  {
  }

  /** A `(i32, bool)` payload fans out into `__out1: i32` and `__out2: bool`, in that order. */
  lemma TwoTupleFanOut(span: Span, ts: ModelTypeSystem)
    ensures var h := GetReturnHandler(Some(Tuple([Other("i32"), Other("bool")])), Some(Other("ComResult<(i32, bool)>")), span, ts).value;
      && h.ComTy() == HResultType(ts)
      && h.ComOutArgs() == [ComArg(Ident("__out1", span), Other("i32"), span, Out, ts),
                            ComArg(Ident("__out2", span), Other("bool"), span, Out, ts)]
  {
    var args := GetOutArgsForResult(Tuple([Other("i32"), Other("bool")]), span, ts);
    assert NatToDecimal(1) == "1" && NatToDecimal(2) == "2";
    assert "__out" + "1" == "__out1" && "__out" + "2" == "__out2";
    assert args[0] == ComArg(Ident("__out1", span), Other("i32"), span, Out, ts);
    assert args[1] == ComArg(Ident("__out2", span), Other("bool"), span, Out, ts);
  }

  /** The unit payload `()` is a tuple of no elements: no out-arguments, and the caller rebuilds `Ok( () )`. */
  lemma UnitPayloadHasNoOutArgs(rt: Ty, span: Span, ts: ModelTypeSystem, result: Ident)
    ensures var h := ErrorResultHandler(UnitTy, rt, span, ts);
      && h.ComOutArgs() == []
      && h.RustToComReturn(result).okPattern == ParenPattern([])
      && h.ComToRustReturn(result).okValue == TupleOf([])
  {
  }
}
