/**
 * The code fragments (`TokenStream`s) the return handlers emit, kept as
 * structured data rather than as Rust text. Each constructor stands for one
 * `quote!` template of the generator, and the conversions of the type
 * handlers appear as the constructors `RustToCom`, `DefaultValue` and `ComToRust`.
 */
module Tokens {

  import opened Syntax
  import opened TyHandlers

  /** A COM-side value: what an out-parameter write stores. */
  datatype ComValue =
      /** `handler.rust_to_com(source, span, dir)` for the handler of `ty` under `typeSystem`. */
    | RustToCom(source: Ident, ty: Ty, typeSystem: ModelTypeSystem, span: Span, dir: Direction)
      /** `handler.default_value()`. */
    | DefaultValue(ty: Ty, typeSystem: ModelTypeSystem)

  /** `handler.com_to_rust(source, span, dir)`: a Rust value rebuilt from the COM value named `source`. */
  datatype RustValue = ComToRust(source: Ident, ty: Ty, typeSystem: ModelTypeSystem, span: Span, dir: Direction)

  /** `*slot = value`: a write through an out-parameter pointer. */
  datatype Write = Write(slot: Ident, value: ComValue)

  /**
   * The pattern inside `Ok( .. )`. `ParenPattern(bs)` is `( b1, .., bn )`, which
   * Rust reads as a tuple pattern unless it holds exactly one binding (then it is a
   * parenthesised pattern binding the whole value); `SplicePattern(bs)` is the bindings
   * written one after the other, `#( #bs )*`.
   */
  datatype Pattern = ParenPattern(binds: seq<Ident>) | SplicePattern(binds: seq<Ident>)

  /** The value inside `Ok( .. )` on the caller side: `( a, b, .. )` or a single value. */
  datatype OkValue = TupleOf(items: seq<RustValue>) | Single(item: RustValue)

  /** What an arm of the emitted `match` evaluates to. */
  datatype StatusExpr =
      /** `intercom::raw::S_OK` */
    | ReturnOk
      /** `intercom::store_error( error ).hresult`: store the error for the caller, return its status */
    | StoreError(error: Ident)

  datatype Code =
      /** `quote!()` */
    | Empty
      /** A single conversion to the COM representation, used as the returned value. */
    | ToComValue(value: ComValue)
      /** A single conversion back to the Rust representation, used as the returned value. */
    | ToRustValue(conversion: RustValue)
      /**
       * `match scrutinee { Ok( okPattern ) => { okWrites; okStatus },
       *                    Err( errBinding ) => { errWrites; errStatus } }`
       */
    | MatchResult(scrutinee: Ident, okPattern: Pattern, okWrites: seq<Write>, okStatus: StatusExpr,
                  errBinding: Ident, errWrites: seq<Write>, errStatus: StatusExpr)
      /**
       * `if status == S_OK || status == S_FALSE { Ok( okValue ) }
       *  else { return Err( intercom::load_error( self.as_ref(), &iid, status ) ); }`
       */
    | CheckStatus(status: Ident, okValue: OkValue, iid: Ident)
}
