# Return handlers and generated names of intercom, in Dafny

intercom generates COM interfaces from Rust code. Its procedural macro has to decide how each Rust
method's return value crosses the COM vtable boundary. `returnhandlers.rs` makes that decision and
has three parts:

- **Resolution.** `get_return_handler` picks one of three strategies from the method's optional
  `Result` payload type and its optional return type:
  - `VoidHandler` for no return value;
  - `ReturnOnlyHandler` when the value is returned directly;
  - `ErrorResultHandler` for a `Result`, whose COM return type is `HRESULT`.
- **Out-arguments.** An error-result method's `Ok` payload becomes COM out-arguments. A tuple gives
  `__out1..__outN`, each with direction `Out`. Any other type gives a single `[retval]` argument
  named `__out`.
- **Emitted code, both directions.** On the callee side, the `Ok` arm writes the converted values
  through the out pointers and returns `S_OK`. The `Err` arm writes default values, stores the
  error and returns its status. On the caller side, `S_OK` or `S_FALSE` rebuilds the payload from
  the out-values. Any other status loads the stored error.

`idents.rs` formats the names of generated symbols:

- `with_ts`: a per-type-system variant of a name;
- `clsid` and `iid`: class ids and interface ids;
- `method_impl`: method implementation functions;
- `clsid_path`: a class-id path.

The model has one module per concern:

- `Syntax` (`syntax.dfy`): types, identifiers and paths, as far as the engine looks at them.
- `TyHandlers` (`tyhandlers.dfy`): directions, the two type systems `Automation` and `Raw`, and the
  COM types a handler names.
- `MethodInfo` (`methodinfo.dfy`): `ComArg`.
- `Tokens` (`tokens.dfy`): the emitted `TokenStream`s, as structured data. Examples are
  "write slot := convert(v)", "write slot := default", "return `S_OK`",
  "`store_error(e).hresult`", "check `S_OK`/`S_FALSE`, else `load_error`", and "tuple or single
  value".
- `ReturnHandlers` (`returnhandlers.dfy`): resolution, the three strategies, and the out-argument
  bookkeeping.
  - The strategies are a closed datatype. Each default method of the trait is one member function
    that matches on the strategy.
  - `TypeSystem` and `RustTy` are the accessors `type_system` and `rust_ty`, and `OkIdents` is the
    list of payload bindings `v1..vN` that `rust_to_com_return` builds (lines 181-186).
  - `write_out_values` and `get_rust_ok_values` build vectors in loops. They are methods with loop
    invariants. Functions cannot call methods, so the strategy functions use the specification
    functions `OutValueWrites` and `RustOkValues`. Each method is proved equal to its function.
- `Semantics` (`semantics.dfy`): a meaning for the emitted code, used to prove round trips.
  - The type handlers' conversions are parameters (`HandlerSemantics`).
  - So is the error-information facility behind `store_error` and `load_error` (`ErrorChannel`).
- `Idents` (`idents.dfy`): the name formatting. `clsid_path` clones a path and then overwrites its
  last segment, so it is a method that updates a sequence.
- `Decimal` (`decimal.dfy`) and `Wrappers` (`wrappers.dfy`) are helpers. `Decimal` renders a
  number as `format!("{}")` does. `DecimalValue` reads the digits back, which gives the rendering's
  value and its injectivity.

Behaviour of the code worth noting:

- **Unit and one-element payloads.**
  - Every tuple type is fanned out, including `()`. A unit payload matches the `Type::Tuple` arm,
    so it gives zero out-arguments. The caller then rebuilds `Ok( () )` (`UnitPayloadHasNoOutArgs`).
  - A one-element tuple `(T,)` gives one `Out` argument, `__out1`. The generated pattern `(v1)` is
    then a parenthesised pattern that binds the whole payload. The caller likewise rebuilds a
    single value.
- **Void ignores the type system.** The void handler always reports the `Automation` type system,
  whatever was requested (`VoidIgnoresTypeSystem`).
- **The two success statuses rebuild the payload the same way.** `S_OK` = 0 and `S_FALSE` = 1 are
  the only success statuses. Both rebuild the payload identically (`StatusPartition`).
- **A stored error with a success status is lost.** If `store_error(e).hresult` is `S_OK` or
  `S_FALSE`, the caller rebuilds `Ok` from the default values written on the `Err` path
  (`FallibleErrRoundTrip`).

Identifiers are compared by text and span.

## Model

| member | source | states |
|---|---|---|
| `ReturnHandlers.GetReturnHandler` | intercom-common/src/returnhandlers.rs:287-309 | no payload + no return type gives the void handler; no payload + a return type gives the return-only handler over that type; payload + return type gives the error-result handler over both with the given span and type system; the result is an error exactly when a payload type comes without a return type |
| `ReturnHandlers.VoidIgnoresTypeSystem` | intercom-common/src/returnhandlers.rs:48-69 | the void handler is the same whatever type system is requested; its COM type is the unit type's `[retval]` COM type under `Automation`; it has no out-arguments |
| `ReturnHandlers.ReturnHandler.ComTy` | intercom-common/src/returnhandlers.rs:140-148 | error-result: the `HRESULT` foreign type of the handler's type system, payload-independent; void: the unit COM type under `Automation`; return-only: the handler's `Retval` COM type of the returned type (the trait default, lines 21-25) |
| `ReturnHandlers.ErrorResultComTyIgnoresPayload` | intercom-common/src/returnhandlers.rs:140-148 | two error-result handlers with the same type system have the same COM return type for any payload, return type and span |
| `ReturnHandlers.ReturnHandler.ComOutArgs` | intercom-common/src/returnhandlers.rs:215-218 | void and return-only handlers add no out-arguments (lines 41-45, 109-112); an error-result handler adds one per tuple element, or exactly one for a non-tuple payload |
| `ReturnHandlers.ReturnHandler.RustToComReturn` | intercom-common/src/returnhandlers.rs:177-213 | void: no code; return-only: the `Retval` conversion of `result` (lines 100-107); error-result: a match on `result` whose `Ok` pattern binds `v1..vN`, one per out-argument in order, as a tuple pattern exactly when the payload type is a tuple; the `Ok` arm writes every out-argument with the `Out` conversion of its binding and returns `S_OK`; the `Err` arm writes every out-argument's default value and returns the stored error's status |
| `ReturnHandlers.ReturnHandler.ComToRustReturn` | intercom-common/src/returnhandlers.rs:150-175 | void: no code; return-only: the `Retval` conversion back of `result` (lines 91-98); error-result: a status check on `result` that, on success, yields the single converted out-value when there is exactly one out-argument and otherwise the tuple of all converted out-values in order, and otherwise loads the error for `__intercom_iid` |
| `ReturnHandlers.GetOutArgsForResult` | intercom-common/src/returnhandlers.rs:221-251 | a tuple of N element types gives exactly N arguments, the i-th named `__out{i}` with the i-th element type, the given span, direction `Out` and the given type system, left to right (zero for `()`); any other type gives the single argument `__out` of that type with direction `Retval` |
| `ReturnHandlers.OutArgNamesDistinct` | intercom-common/src/returnhandlers.rs:233-241 | no two out-arguments generated for one payload type share a name |
| `ReturnHandlers.OkIdentsDistinct` | intercom-common/src/returnhandlers.rs:181-186 | the payload bindings `v1..vN` are pairwise distinct |
| `ReturnHandlers.WriteOutValues` | intercom-common/src/returnhandlers.rs:253-271 | returns two lists of the same length, one entry per (identifier, out-argument) pair of the zip, in order; the i-th success entry writes the `Out` conversion of the i-th identifier to the i-th out-argument; the i-th failure entry writes that argument's default value |
| `ReturnHandlers.GetRustOkValues` | intercom-common/src/returnhandlers.rs:273-284 | one conversion per out-argument, in order, reading that argument by name with its own type, type system and span, always as `Retval` |
| `ReturnHandlers.TwoTupleFanOut` | intercom-common/src/returnhandlers.rs:228-242 | a `(i32, bool)` payload yields `__out1: i32` and `__out2: bool` with direction `Out`, in that order, behind an `HRESULT` return |
| `ReturnHandlers.UnitPayloadHasNoOutArgs` | intercom-common/src/returnhandlers.rs:229-242 | a `()` payload yields no out-arguments, the empty tuple pattern and the empty tuple as the rebuilt `Ok` value |
| `Semantics.FallibleOkRoundTrip` | intercom-common/src/returnhandlers.rs:150-213 | for a payload of the declared shape, the callee code returns `S_OK` and leaves the stored error unchanged; the caller code run on what it produced rebuilds exactly `Ok(payload)`, for tuples of every arity and for non-tuples, when the handlers read back what they write |
| `Semantics.FallibleErrRoundTrip` | intercom-common/src/returnhandlers.rs:203-210 | on `Err(e)`, the callee code writes its type's default value into every out-argument, stores `e` and returns `store_error(e).hresult`; when that status is a failure status, the caller code returns the error loaded from the stored information for `__intercom_iid` with that status; when it is `S_OK` or `S_FALSE`, the caller code returns `Ok` of the default values converted back, as a single value for one out-argument and as a tuple otherwise |
| `Semantics.StatusPartition` | intercom-common/src/returnhandlers.rs:162-174 | the caller code yields the error loaded for `__intercom_iid` exactly when the status is neither `S_OK` nor `S_FALSE`; on those two it yields `Ok` whenever every out-value is present |
| `Semantics.DirectRoundTrip` | intercom-common/src/returnhandlers.rs:91-107 | a return-only value is converted once as `Retval`, and the caller gets back the original value |
| `Decimal.NatToDecimal` | intercom-common/src/returnhandlers.rs:235 | the rendering of `idx + 1` in `__out{}` and `v{}` is a non-empty string of decimal digits whose decimal value is the number, one digit exactly below ten, and with no leading zero otherwise |
| `Decimal.NatToDecimalInjective` | intercom-common/src/returnhandlers.rs:185 | different indices render differently, so generated positional names never collide |
| `Idents.WithTs` | intercom-common/src/idents.rs:5-8 | the name is the identifier, `_`, then the type system's debug name, at the call-site span |
| `Idents.WithTsInjective` | intercom-common/src/idents.rs:5-8 | equal per-type-system names come from equal identifier texts and the same type system |
| `Idents.ClsidPath` | intercom-common/src/idents.rs:10-17 | keeps the leading `::` and the number of segments, leaves every segment but the last unchanged, replaces the last segment's identifier by its class id and keeps its arguments; a path with no segments is returned unchanged |
| `Idents.Clsid` | intercom-common/src/idents.rs:19-22 | the name is `CLSID_` followed by the struct name, at the call-site span |
| `Idents.ClsidShape` | intercom-common/src/idents.rs:19-22 | a class id starts with `CLSID_`, ends with the struct name, and two class ids are equal exactly when the struct names are |
| `Idents.Iid` | intercom-common/src/idents.rs:24-27 | the name is `IID_` followed by the interface name, at the given span |
| `Idents.IidShape` | intercom-common/src/idents.rs:24-27 | an interface id starts with `IID_`, ends with the interface name, and two interface ids at one span are equal exactly when the names are |
| `Idents.ClsidIsNeverIid` | intercom-common/src/idents.rs:19-27 | no class id has the same text as any interface id |
| `Idents.MethodImpl` | intercom-common/src/idents.rs:29-32 | the name is `__`, the struct name, `_`, the interface name, `_`, the method name, at the call-site span |
| `Idents.MethodImplIsNeverClsidOrIid` | intercom-common/src/idents.rs:29-32 | a method implementation name starts with `__`, so it never equals a class id or an interface id |
| `Idents.NewIdent` | intercom-common/src/idents.rs:34-37 | the identifier has exactly the given text and the call-site span, so it depends on nothing else |

## Left out

- The type-handler registry (`tyhandlers::get_ty_handler`) and `ComArg::new` are not part of
  this model.
  - Their conversions appear symbolically in the emitted code: `RustToCom`, `ComToRust`,
    `DefaultValue` and `ForeignType`.
  - Their run-time meaning is a parameter of module `Semantics`. The round trips assume that a
    value written as `Out` or as `Retval` reads back unchanged as `Retval`.
- `ModelTypeSystem::as_typesystem_type` is not shown. `HResultType(ts)` stands for it as a function
  of the tag.
- `intercom::store_error`, `intercom::load_error` and the per-thread error information are runtime
  facilities. Only where they appear in the emitted code is modelled. What they compute is the
  `ErrorChannel` parameter.
  - `load` receives the stored information, the interface id `__intercom_iid` and the status.
    The remaining argument of `load_error`, `self.as_ref()`, is left out.
  - Nothing about concurrent access is modelled.
- Literal token text is not modelled, and neither is the span of every token or `syn::parse2`.
  Code fragments are structured data.
- The accessor methods `type_system`, `rust_ty` and `return_type_span` are helper functions of the
  handler datatype. Their effect shows in `ComTy` and the emitted code.
- The `Debug` derivation of the handlers is left out.
- `Ident::new` panics on text that is not a legal Rust identifier (idents.rs:7, 21, 26, 36). An
  example is a raw identifier such as `r#type`, which would give `CLSID_r#type`. The model's
  `WithTs`, `Clsid`, `Iid`, `MethodImpl` and `NewIdent` return a name for every text.
- `HRESULT` is an `int` in the model. The meaning of an `HRESULT` does not depend on its 32-bit
  width.
- The semantics does not type-check the emitted code. The payload of a one-element tuple `(T,)` is
  converted with the handler of `T`. That is only well-typed if the Rust compiler accepts it,
  which the model does not decide.
- com_utils/src/main.rs is a command-line front end, and intercom-cpp/src/posix/iclassfactory.h
  is a C++ interface declaration. Neither has logic to model.
