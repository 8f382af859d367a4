/**
 * What the return handlers use of the type-handler registry
 * (`tyhandlers::get_ty_handler`): the direction a value travels in, the two
 * type systems, and the COM-side types a handler names. The handlers'
 * conversions themselves appear as constructors of the emitted code (module
 * Tokens) and get their meaning in module Semantics.
 */
module TyHandlers {

  import opened Syntax

  /** `Direction`: how a marshalled value crosses the interface. */
  datatype Direction = In | Out | Retval

  /** `ModelTypeSystem`: the two binary encodings every interface is generated for. */
  datatype ModelTypeSystem = Automation | Raw
  {
    /** The `{:?}` (Debug) rendering of the tag. */
    function DebugName(): string
    {
      match this
      case Automation => "Automation"
      case Raw => "Raw"
    }
  }

  /**
   * A COM-side type the generator names.
   * `ForeignType(ty, ts, dir)` is the type handler's `com_ty(span, dir)` for the Rust type
   * `ty` under type system `ts`; `HResultType(ts)` is
   * `<intercom::raw::HRESULT as ExternOutput<TS>>::ForeignType`, with `TS` the
   * type system's marker type (`as_typesystem_type`, a function of the tag only).
   */
  datatype ComType =
    | ForeignType(rustTy: Ty, typeSystem: ModelTypeSystem, dir: Direction)
    | HResultType(typeSystem: ModelTypeSystem)
}
