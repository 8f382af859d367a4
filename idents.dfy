/** Names of the symbols the code generator emits (class ids, interface ids, method implementations). */
module Idents {

  import opened Syntax
  import opened TyHandlers

  /** `new_ident`: an identifier with the given text at the call-site span. */
  function NewIdent(s: string): (r: Ident)
    ensures r.text == s && r.span == CallSite
  {
    Ident(s, CallSite)
  }

  /** `with_ts`: the per-type-system variant of a name, `{ident}_{ts:?}`. */
  function WithTs(ident: Ident, ts: ModelTypeSystem): (r: Ident)
    ensures r.text == ident.text + "_" + ts.DebugName()
    ensures r.span == CallSite
  {
    Ident(ident.text + "_" + ts.DebugName(), CallSite)
  }

  /** Distinct names or distinct type systems never give the same per-type-system name. */
  lemma WithTsInjective(a: Ident, ta: ModelTypeSystem, b: Ident, tb: ModelTypeSystem)
    requires WithTs(a, ta) == WithTs(b, tb)
    ensures a.text == b.text && ta == tb
  {
    var sa, sb := WithTs(a, ta).text, WithTs(b, tb).text;
    assert sa[|sa| - 4..] == if ta.Raw? then "_Raw" else "tion";
    assert sb[|sb| - 4..] == if tb.Raw? then "_Raw" else "tion";
    assert ta == tb;
    assert a.text == sa[..|sa| - |ta.DebugName()| - 1] == sb[..|sb| - |tb.DebugName()| - 1] == b.text;
  }

  /** `clsid`: the class-id constant of a struct, `CLSID_{name}`. */
  function Clsid(structName: Ident): (r: Ident)
    ensures r.text == "CLSID_" + structName.text
    ensures r.span == CallSite
  {
    NewIdent("CLSID_" + structName.text)
  }

  /** `iid`: the interface-id constant of an interface, `IID_{name}`, at the given span. */
  function Iid(itfName: Ident, span: Span): (r: Ident)
    ensures r.text == "IID_" + itfName.text
    ensures r.span == span
  {
    Ident("IID_" + itfName.text, span)
  }

  /** A class id starts with `CLSID_`, ends with the struct name, and determines it. */
  lemma ClsidShape(a: Ident, b: Ident)
    ensures Clsid(a).text[..6] == "CLSID_" && Clsid(a).text[6..] == a.text
    ensures Clsid(a) == Clsid(b) <==> a.text == b.text
  {
    assert Clsid(a).text[6..] == a.text;
    assert Clsid(b).text[6..] == b.text;
  }

  /** An interface id starts with `IID_`, ends with the interface name, and determines it. */
  lemma IidShape(a: Ident, b: Ident, span: Span)
    ensures Iid(a, span).text[..4] == "IID_" && Iid(a, span).text[4..] == a.text
    ensures Iid(a, span) == Iid(b, span) <==> a.text == b.text
  {
    assert Iid(a, span).text[4..] == a.text;
    assert Iid(b, span).text[4..] == b.text;
  }

  /** No class id is ever spelled like an interface id. */
  lemma ClsidIsNeverIid(a: Ident, b: Ident, span: Span)
    ensures Clsid(a).text != Iid(b, span).text
  {
    assert Clsid(a).text[0] == 'C' && Iid(b, span).text[0] == 'I';
  }

  /** `method_impl`: the implementation function of a method, `__{struct}_{interface}_{method}`. */
  function MethodImpl(structIdent: Ident, itfIdent: Ident, methodName: string): (r: Ident)
    ensures r.text == "__" + structIdent.text + "_" + itfIdent.text + "_" + methodName
    ensures r.span == CallSite
  {
    NewIdent("__" + structIdent.text + "_" + itfIdent.text + "_" + methodName)
  }

  /** A method implementation name starts with `__`, so it never collides with a class or interface id. */
  lemma MethodImplIsNeverClsidOrIid(s: Ident, i: Ident, m: string, a: Ident, span: Span)
    ensures MethodImpl(s, i, m).text[..2] == "__"
    ensures MethodImpl(s, i, m).text != Clsid(a).text
    ensures MethodImpl(s, i, m).text != Iid(a, span).text
  {
    assert MethodImpl(s, i, m).text[0] == '_';
    assert Clsid(a).text[0] == 'C' && Iid(a, span).text[0] == 'I';
  }

  /**
   * `clsid_path`: the path of a struct's class-id constant, the struct's path
   * with the identifier of its last segment replaced by its class id.
   */
  method ClsidPath(structPath: Path) returns (clsidPath: Path)
    ensures clsidPath.leadingColon == structPath.leadingColon
    ensures |clsidPath.segments| == |structPath.segments|
    ensures forall k :: 0 <= k < |structPath.segments| - 1 ==> clsidPath.segments[k] == structPath.segments[k]
    ensures |structPath.segments| > 0 ==>
      var last := structPath.segments[|structPath.segments| - 1];
      clsidPath.segments[|structPath.segments| - 1] == PathSegment(Clsid(last.ident), last.arguments)
    ensures structPath.segments == [] ==> clsidPath == structPath
  {
    clsidPath := structPath;
    if |clsidPath.segments| > 0 {
      var k := |clsidPath.segments| - 1;
      var last := clsidPath.segments[k];
      clsidPath := clsidPath.(segments := clsidPath.segments[k := last.(ident := Clsid(last.ident))]);
    }
  }
}
