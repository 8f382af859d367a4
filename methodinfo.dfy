/** `methodinfo::ComArg`: one argument of the generated COM signature. */
module MethodInfo {

  import opened Syntax
  import opened TyHandlers

  /**
   * `ComArg::new(name, ty, span, dir, type_system)`. The argument's type handler is
   * `get_ty_handler(ty, type_system)`, so the pair `ty`, `typeSystem` stands for it.
   */
  datatype ComArg = ComArg(name: Ident, ty: Ty, span: Span, dir: Direction, typeSystem: ModelTypeSystem)
}
