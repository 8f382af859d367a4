/**
 * The meaning of the code the return handlers emit, and what it guarantees:
 * the callee side (Rust result to COM status and out-values) followed by the
 * caller side (COM status and out-values back to a Rust result) gives back the
 * original result, every out-value is written on failure, and exactly the two
 * success statuses rebuild a payload.
 *
 * The type handlers' conversions and the runtime error store are parameters:
 * `HandlerSemantics` says what `rust_to_com`, `com_to_rust` and `default_value`
 * compute, and `ErrorChannel` what `store_error(e).hresult` returns and what
 * `load_error` rebuilds from the stored error information.
 */
module Semantics {

  import opened Wrappers
  import opened Syntax
  import opened TyHandlers
  import opened MethodInfo
  import opened Tokens
  import opened ReturnHandlers

  /** A Rust value at run time: a tuple, or a value the generated code does not look inside. */
  datatype Value = TupleValue(items: seq<Value>) | Opaque(id: int)

  /** The run-time meaning of the type handlers' conversions, with COM values of type `C`. */
  datatype HandlerSemantics<!C> = HandlerSemantics(
    toCom: (Ty, ModelTypeSystem, Direction, Value) -> C,
    toRust: (Ty, ModelTypeSystem, Direction, C) -> Value,
    default: (Ty, ModelTypeSystem) -> C)

  /**
   * The error-information facility: `hresultOf(e)` is `store_error(e).hresult`, and
   * `load(info, iid, status)` is the error `load_error` rebuilds from the stored
   * information (if any), the interface id held by the identifier `iid` and the status.
   */
  datatype ErrorChannel<!E> = ErrorChannel(hresultOf: E -> int, load: (Option<E>, Ident, int) -> E)

  /** `intercom::raw::S_OK` and `intercom::raw::S_FALSE`. */
  const S_OK: int := 0
  const S_FALSE: int := 1

  /** The statuses the caller side treats as success. */
  predicate IsSuccess(status: int)
  {
    status == S_OK || status == S_FALSE
  }

  /** What crosses the boundary: the status, the caller's out-value storage and the stored error information. */
  datatype Boundary<C, E> = Boundary(status: int, slots: map<Ident, C>, errorInfo: Option<E>)

  ghost predicate Distinct<T>(s: seq<T>)
  {
    forall i, j :: 0 <= i < j < |s| ==> s[i] != s[j]
  }

  /** The environment a tuple pattern binds: each identifier to the tuple element at its position. */
  function ZipMap(ks: seq<Ident>, vs: seq<Value>): map<Ident, Value>
    requires |ks| == |vs|
  {
    if |ks| == 0 then map[] else ZipMap(ks[1..], vs[1..])[ks[0] := vs[0]]
  }

  /** Matching `Ok( pattern )` against the payload `v`. */
  function Bind(p: Pattern, v: Value): Option<map<Ident, Value>>
  {
    match p
    case ParenPattern(bs) =>
      if |bs| == 1 then Some(map[bs[0] := v])
      else if v.TupleValue? && |v.items| == |bs| then Some(ZipMap(bs, v.items))
      else None
    case SplicePattern(bs) =>
      if |bs| == 1 then Some(map[bs[0] := v]) else None
  }

  function EvalComValue<C>(h: HandlerSemantics<C>, env: map<Ident, Value>, e: ComValue): Option<C>
  {
    match e
    case RustToCom(x, ty, ts, _, dir) => if x in env then Some(h.toCom(ty, ts, dir, env[x])) else None
    case DefaultValue(ty, ts) => Some(h.default(ty, ts))
  }

  /** Runs the writes in order; a later write to the same slot replaces an earlier one. */
  function RunWrites<C>(h: HandlerSemantics<C>, env: map<Ident, Value>, slots: map<Ident, C>, ws: seq<Write>)
    : Option<map<Ident, C>>
    decreases |ws|
  {
    if ws == [] then Some(slots)
    else match EvalComValue(h, env, ws[0].value)
      case None => None
      case Some(c) => RunWrites(h, env, slots[ws[0].slot := c], ws[1..])
  }

  function EvalRustValue<C>(h: HandlerSemantics<C>, slots: map<Ident, C>, r: RustValue): Option<Value>
  {
    if r.source in slots then Some(h.toRust(r.ty, r.typeSystem, r.dir, slots[r.source])) else None
  }

  function EvalAll<C>(h: HandlerSemantics<C>, slots: map<Ident, C>, rs: seq<RustValue>): Option<seq<Value>>
    decreases |rs|
  {
    if rs == [] then Some([])
    else match (EvalRustValue(h, slots, rs[0]), EvalAll(h, slots, rs[1..]))
      case (Some(v), Some(vs)) => Some([v] + vs)
      case _ => None
  }

  function EvalOkValue<C>(h: HandlerSemantics<C>, slots: map<Ident, C>, ok: OkValue): Option<Value>
  {
    match ok
    case Single(r) => EvalRustValue(h, slots, r)
    case TupleOf(rs) =>
      match EvalAll(h, slots, rs)
      case None => None
      case Some(vs) => Some(TupleValue(vs))
  }

  /**
   * The callee side of a fallible method: the emitted `match` run on the Rust
   * method's `result`, starting from the caller's out-value storage `slots` and
   * the error information `info` stored before the call.
   */
  function Callee<C, E>(h: HandlerSemantics<C>, ch: ErrorChannel<E>, code: Code, result: Result<Value, E>,
                        slots: map<Ident, C>, info: Option<E>): Option<Boundary<C, E>>
  {
    match code
    case MatchResult(_, pattern, okWrites, okStatus, errBinding, errWrites, errStatus) =>
      (match result
       case Ok(v) =>
         (match Bind(pattern, v)
          case None => None
          case Some(env) =>
            (match RunWrites(h, env, slots, okWrites)
             case None => None
             case Some(written) =>
               (match okStatus
                case ReturnOk => Some(Boundary(S_OK, written, info))
                case StoreError(_) => None)))
       case Err(e) =>
         (match RunWrites(h, map[], slots, errWrites)
          case None => None
          case Some(written) =>
            (match errStatus
             case ReturnOk => Some(Boundary(S_OK, written, info))
             case StoreError(x) =>
               if x == errBinding then Some(Boundary(ch.hresultOf(e), written, Some(e))) else None)))
    case _ => None
  }

  /** The caller side of a fallible method: the emitted status check run on what crossed the boundary. */
  function Caller<C, E>(h: HandlerSemantics<C>, ch: ErrorChannel<E>, code: Code, b: Boundary<C, E>)
    : Option<Result<Value, E>>
  {
    match code
    case CheckStatus(_, ok, iid) =>
      if IsSuccess(b.status) then
        (match EvalOkValue(h, b.slots, ok)
         case None => None
         case Some(v) => Some(Ok(v)))
      else Some(Err(ch.load(b.errorInfo, iid, b.status)))
    case _ => None
  }

  /** The callee side of a direct return: the emitted conversion of the value held by `result`. */
  function CalleeValue<C>(h: HandlerSemantics<C>, code: Code, result: Ident, v: Value): Option<C>
  {
    match code
    case ToComValue(e) => EvalComValue(h, map[result := v], e)
    case _ => None
  }

  /** The caller side of a direct return: the emitted conversion of the COM value held by `result`. */
  function CallerValue<C>(h: HandlerSemantics<C>, code: Code, result: Ident, c: C): Option<Value>
  {
    match code
    case ToRustValue(r) => EvalRustValue(h, map[result := c], r)
    case _ => None
  }

  /** A value written as an `Out` value is read back unchanged as a `Retval` value. */
  ghost predicate OutValuesConvertBack<C>(h: HandlerSemantics<C>)
  {
    forall ty, ts, v :: h.toRust(ty, ts, Retval, h.toCom(ty, ts, Out, v)) == v
  }

  /** A value returned as a `Retval` value is read back unchanged. */
  ghost predicate RetvalsConvertBack<C>(h: HandlerSemantics<C>)
  {
    forall ty, ts, v :: h.toRust(ty, ts, Retval, h.toCom(ty, ts, Retval, v)) == v
  }

  /** The payload has the shape its type promises where the generated code takes it apart. */
  predicate PayloadFits(retvalTy: Ty, v: Value)
  {
    retvalTy.Tuple? && |retvalTy.elems| != 1 ==> v.TupleValue? && |v.items| == |retvalTy.elems|
  }

  function Targets(ws: seq<Write>): set<Ident>
  {
    set i | 0 <= i < |ws| :: ws[i].slot
  }

  lemma {:induction false} ZipMapAt(ks: seq<Ident>, vs: seq<Value>, i: nat)
    requires |ks| == |vs| && Distinct(ks) && i < |ks|
    ensures ks[i] in ZipMap(ks, vs) && ZipMap(ks, vs)[ks[i]] == vs[i]
  {
    if i > 0 {
      assert Distinct(ks[1..]) by {
        forall a, b | 0 <= a < b < |ks[1..]| ensures ks[1..][a] != ks[1..][b] {
          assert ks[1..][a] == ks[a + 1] && ks[1..][b] == ks[b + 1];
        }
      }
      ZipMapAt(ks[1..], vs[1..], i - 1);
      assert ks[i] != ks[0];
    }
  }

  /** Writes to distinct slots each leave their value, and every other slot keeps its old one. */
  lemma {:induction false} RunWritesAt<C>(h: HandlerSemantics<C>, env: map<Ident, Value>, slots: map<Ident, C>, ws: seq<Write>)
    requires forall i :: 0 <= i < |ws| ==> EvalComValue(h, env, ws[i].value).Some?
    requires forall i, j :: 0 <= i < j < |ws| ==> ws[i].slot != ws[j].slot
    ensures RunWrites(h, env, slots, ws).Some?
    ensures forall i :: 0 <= i < |ws| ==>
      ws[i].slot in RunWrites(h, env, slots, ws).value &&
      RunWrites(h, env, slots, ws).value[ws[i].slot] == EvalComValue(h, env, ws[i].value).value
    ensures forall k :: k in slots && k !in Targets(ws) ==>
      k in RunWrites(h, env, slots, ws).value && RunWrites(h, env, slots, ws).value[k] == slots[k]
    decreases |ws|
  {
    if ws != [] {
      var c := EvalComValue(h, env, ws[0].value).value;
      var slots' := slots[ws[0].slot := c];
      var rest := ws[1..];
      forall i | 0 <= i < |rest| ensures EvalComValue(h, env, rest[i].value).Some? {
        assert rest[i] == ws[i + 1];
      }
      forall i, j | 0 <= i < j < |rest| ensures rest[i].slot != rest[j].slot {
        assert rest[i] == ws[i + 1] && rest[j] == ws[j + 1];
      }
      RunWritesAt(h, env, slots', rest);
      var r := RunWrites(h, env, slots', rest).value;
      assert RunWrites(h, env, slots, ws) == RunWrites(h, env, slots', rest);
      assert ws[0].slot !in Targets(rest) by {
        forall i | 0 <= i < |rest| ensures rest[i].slot != ws[0].slot {
          assert rest[i] == ws[i + 1];
        }
      }
      forall i | 0 <= i < |ws|
        ensures ws[i].slot in r && r[ws[i].slot] == EvalComValue(h, env, ws[i].value).value
      {
        if i > 0 {
          assert ws[i] == rest[i - 1];
        }
      }
      forall k | k in slots && k !in Targets(ws) ensures k in r && r[k] == slots[k] {
        assert k != ws[0].slot;
        assert k !in Targets(rest) by {
          forall i | 0 <= i < |rest| ensures rest[i].slot != k {
            assert rest[i] == ws[i + 1];
          }
        }
      }
    }
  }

  lemma {:induction false} EvalAllAt<C>(h: HandlerSemantics<C>, slots: map<Ident, C>, rs: seq<RustValue>)
    requires forall i :: 0 <= i < |rs| ==> rs[i].source in slots
    ensures EvalAll(h, slots, rs).Some? && |EvalAll(h, slots, rs).value| == |rs|
    ensures forall i :: 0 <= i < |rs| ==>
      EvalAll(h, slots, rs).value[i] == h.toRust(rs[i].ty, rs[i].typeSystem, rs[i].dir, slots[rs[i].source])
    decreases |rs|
  {
    if rs != [] {
      var rest := rs[1..];
      forall i | 0 <= i < |rest| ensures rest[i].source in slots {
        assert rest[i] == rs[i + 1];
      }
      EvalAllAt(h, slots, rest);
      forall i | 0 <= i < |rs|
        ensures EvalAll(h, slots, rs).value[i] == h.toRust(rs[i].ty, rs[i].typeSystem, rs[i].dir, slots[rs[i].source])
      {
        if i > 0 {
          assert rs[i] == rest[i - 1];
        }
      }
    }
  }

  lemma OutArgsDistinct(retvalTy: Ty, span: Span, ts: ModelTypeSystem)
    ensures forall i, j :: 0 <= i < j < |GetOutArgsForResult(retvalTy, span, ts)| ==>
      GetOutArgsForResult(retvalTy, span, ts)[i].name != GetOutArgsForResult(retvalTy, span, ts)[j].name
  {
    forall i, j | 0 <= i < j < |GetOutArgsForResult(retvalTy, span, ts)|
      ensures GetOutArgsForResult(retvalTy, span, ts)[i].name != GetOutArgsForResult(retvalTy, span, ts)[j].name
    {
      OutArgNamesDistinct(retvalTy, span, ts, i, j);
    }
  }

  /**
   * Success round trip of an error-result method: the callee writes every out-value
   * and returns `S_OK`, leaves the stored error information alone, and the caller
   * rebuilds exactly the payload the Rust method returned.
   */
  lemma FallibleOkRoundTrip<C, E>(h: HandlerSemantics<C>, ch: ErrorChannel<E>, handler: ReturnHandler,
                                  result: Ident, status: Ident, v: Value, slots: map<Ident, C>, info: Option<E>)
    requires handler.ErrorResultHandler?
    requires OutValuesConvertBack(h)
    requires PayloadFits(handler.retvalTy, v)
    ensures var b := Callee(h, ch, handler.RustToComReturn(result), Ok(v), slots, info);
      && b.Some?
      && b.value.status == S_OK
      && b.value.errorInfo == info
      && Caller(h, ch, handler.ComToRustReturn(status), b.value) == Some(Ok(v))
  {
    var args := handler.ComOutArgs();
    var n := |args|;
    var code := handler.RustToComReturn(result);
    var back := handler.ComToRustReturn(status);
    var span, ts := handler.span, handler.typeSystem;
    OutArgsDistinct(handler.retvalTy, span, ts);
    if n == 1 {
      var env := map[code.okPattern.binds[0] := v];
      assert Bind(code.okPattern, v) == Some(env);
      RunWritesAt(h, env, slots, code.okWrites);
      var written := RunWrites(h, env, slots, code.okWrites).value;
      assert written[args[0].name] == h.toCom(args[0].ty, ts, Out, v);
      assert args[0].typeSystem == ts;
      assert Callee(h, ch, code, Ok(v), slots, info) == Some(Boundary(S_OK, written, info));
      assert EvalOkValue(h, written, back.okValue) == Some(v);
    } else {
      var elems := handler.retvalTy.elems;
      var items := v.items;
      var binds := code.okPattern.binds;
      assert Distinct(binds) by {
        forall i, j | 0 <= i < j < |binds| ensures binds[i] != binds[j] {
          OkIdentsDistinct(n, i, j);
        }
      }
      var env := ZipMap(binds, items);
      assert Bind(code.okPattern, v) == Some(env);
      forall i | 0 <= i < n
        ensures EvalComValue(h, env, code.okWrites[i].value) == Some(h.toCom(elems[i], ts, Out, items[i]))
      {
        ZipMapAt(binds, items, i);
      }
      RunWritesAt(h, env, slots, code.okWrites);
      var written := RunWrites(h, env, slots, code.okWrites).value;
      assert Callee(h, ch, code, Ok(v), slots, info) == Some(Boundary(S_OK, written, info));
      var rs := back.okValue.items;
      forall i | 0 <= i < n
        ensures rs[i].source in written && written[rs[i].source] == h.toCom(elems[i], ts, Out, items[i])
      {
        assert code.okWrites[i].slot == args[i].name == rs[i].source;
      }
      EvalAllAt(h, written, rs);
      var vs := EvalAll(h, written, rs).value;
      assert vs == items;
    }
  }

  /** What the caller rebuilds from out-arguments that hold only their default values. */
  function DefaultsPayload<C>(h: HandlerSemantics<C>, args: seq<ComArg>): Value
  {
    if |args| == 1 then h.toRust(args[0].ty, args[0].typeSystem, Retval, h.default(args[0].ty, args[0].typeSystem))
    else TupleValue(seq(|args|, i requires 0 <= i < |args| =>
                          h.toRust(args[i].ty, args[i].typeSystem, Retval, h.default(args[i].ty, args[i].typeSystem))))
  }

  /**
   * Failure path of an error-result method: the callee writes the default value
   * into every out-argument, stores the error and returns its status. When that
   * status is a failure status the caller loads the stored error for
   * `__intercom_iid`; when it is `S_OK` or `S_FALSE` the caller instead rebuilds
   * `Ok` from the default values and the error is lost.
   */
  lemma FallibleErrRoundTrip<C, E>(h: HandlerSemantics<C>, ch: ErrorChannel<E>, handler: ReturnHandler,
                                   result: Ident, status: Ident, e: E, slots: map<Ident, C>, info: Option<E>)
    requires handler.ErrorResultHandler?
    ensures var b := Callee(h, ch, handler.RustToComReturn(result), Err(e), slots, info);
      && b.Some?
      && b.value.status == ch.hresultOf(e)
      && b.value.errorInfo == Some(e)
      && (forall arg :: arg in handler.ComOutArgs() ==>
            arg.name in b.value.slots && b.value.slots[arg.name] == h.default(arg.ty, arg.typeSystem))
      && (!IsSuccess(ch.hresultOf(e)) ==>
            Caller(h, ch, handler.ComToRustReturn(status), b.value)
              == Some(Err(ch.load(Some(e), InterfaceIid, ch.hresultOf(e)))))
      && (IsSuccess(ch.hresultOf(e)) ==>
            Caller(h, ch, handler.ComToRustReturn(status), b.value)
              == Some(Ok(DefaultsPayload(h, handler.ComOutArgs()))))
  {
    var args := handler.ComOutArgs();
    var code := handler.RustToComReturn(result);
    var back := handler.ComToRustReturn(status);
    OutArgsDistinct(handler.retvalTy, handler.span, handler.typeSystem);
    RunWritesAt(h, map[], slots, code.errWrites);
    var written := RunWrites(h, map[], slots, code.errWrites).value;
    assert Callee(h, ch, code, Err(e), slots, info) == Some(Boundary(ch.hresultOf(e), written, Some(e)));
    forall i | 0 <= i < |args|
      ensures args[i].name in written && written[args[i].name] == h.default(args[i].ty, args[i].typeSystem)
    {
      assert code.errWrites[i].slot == args[i].name;
    }
    forall arg | arg in args ensures arg.name in written && written[arg.name] == h.default(arg.ty, arg.typeSystem) {
      var i :| 0 <= i < |args| && args[i] == arg;
    }
    if IsSuccess(ch.hresultOf(e)) && |args| != 1 {
      var rs := back.okValue.items;
      forall i | 0 <= i < |rs| ensures rs[i].source in written {
        assert rs[i].source == args[i].name;
      }
      EvalAllAt(h, written, rs);
      assert EvalAll(h, written, rs).value == DefaultsPayload(h, args).items;
    }
  }

  /**
   * The caller side of an error-result method fails, loading the stored error,
   * exactly when the status is neither `S_OK` nor `S_FALSE`; on those two it
   * rebuilds a payload whenever the out-values are present.
   */
  lemma StatusPartition<C, E>(h: HandlerSemantics<C>, ch: ErrorChannel<E>, handler: ReturnHandler,
                              status: Ident, b: Boundary<C, E>)
    requires handler.ErrorResultHandler?
    ensures var r := Caller(h, ch, handler.ComToRustReturn(status), b);
      && (!IsSuccess(b.status) <==> r == Some(Err(ch.load(b.errorInfo, InterfaceIid, b.status))))
      && (IsSuccess(b.status) && (forall arg :: arg in handler.ComOutArgs() ==> arg.name in b.slots) ==>
            r.Some? && r.value.Ok?)
  {
    var args := handler.ComOutArgs();
    var back := handler.ComToRustReturn(status);
    if IsSuccess(b.status) && (forall arg :: arg in args ==> arg.name in b.slots) {
      if |args| == 1 {
        assert args[0] in args;
      } else {
        var rs := back.okValue.items;
        forall i | 0 <= i < |rs| ensures rs[i].source in b.slots {
          assert args[i] in args;
        }
        EvalAllAt(h, b.slots, rs);
      }
    }
  }

  /** Direct round trip: the value returned through the COM return slot is read back unchanged. */
  lemma DirectRoundTrip<C>(h: HandlerSemantics<C>, handler: ReturnHandler, result: Ident, v: Value)
    requires handler.ReturnOnlyHandler?
    requires RetvalsConvertBack(h)
    ensures var c := CalleeValue(h, handler.RustToComReturn(result), result, v);
      && c == Some(h.toCom(handler.ty, handler.typeSystem, Retval, v))
      && CallerValue(h, handler.ComToRustReturn(result), result, c.value) == Some(v)
  {
  }
}
