/**
 * The fragment of Rust syntax (what the `syn` and `proc_macro2` crates provide)
 * that the return-handler engine and the identifier helpers look at.
 */
module Syntax {

  import opened Wrappers

  /** A source location. `CallSite` is `Span::call_site()`; `At` is a span taken from the user's code. */
  datatype Span = CallSite | At(offset: nat)

  /** An identifier: its text and the span it resolves at. */
  datatype Ident = Ident(text: string, span: Span)

  /**
   * A Rust type, as far as the engine distinguishes types: tuple types
   * (`Type::Tuple`, including the unit type `()`) and every other type,
   * which is kept by its written name.
   */
  datatype Ty = Tuple(elems: seq<Ty>) | Other(name: string)

  /** `utils::unit_ty`: the unit type `()`. */
  const UnitTy: Ty := Tuple([])

  /** The generic arguments a path segment carries (`Vec<T>`, `Fn(A) -> B`). */
  datatype PathArguments = NoArguments | AngleBracketed(args: seq<Ty>) | Parenthesized(inputs: seq<Ty>, output: Option<Ty>)

  datatype PathSegment = PathSegment(ident: Ident, arguments: PathArguments)

  /** A path such as `::a::b::C<T>`: an optional leading `::` and its segments. */
  datatype Path = Path(leadingColon: bool, segments: seq<PathSegment>)
}
