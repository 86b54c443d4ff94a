/** service/utils.go: the checks a service interface method must pass. */
module ServiceUtils {
  import opened Wrappers
  import opened GoStrings
  import opened ServiceCode

  /** A Go `(bool, error)` pair. */
  datatype Check = Check(ok: bool, err: Option<string>)

  const ParamCountError := "method must except either the context or the context and the request struct"
  const ContextError := "the first parameter of the method needs to be the context"
  const RequestError := "request needs to be an exported structure"
  const ResultsError := "method must return either the error or the response pointer and the error"

  /** `IsExported`: the first rune is upper case. The empty name decodes
      to the error rune, which is not. */
  function IsExported(name: string): (r: bool)
    ensures |name| == 0 ==> !r
    ensures |name| > 0 ==> (r <==> IsUpperAscii(name[0]))
  {
    |name| > 0 && IsUpperAscii(name[0])
  }

  function HasCorrectParamNumber(ps: seq<Parameter>): (r: bool)
    ensures r <==> 1 <= |ps| <= 2
  {
    |ps| > 0 && |ps| <= 2
  }

  /** Reading the import path of a first parameter named `Context` follows
      its import pointer, which must not be nil. */
  predicate ContextReadable(ps: seq<Parameter>)
  {
    (|ps| == 1 || |ps| == 2) && ps[0].typ.qualifier == "Context" ==> ps[0].typ.imp.Some?
  }

  function IsContextType(t: Type): bool
    requires t.qualifier == "Context" ==> t.imp.Some?
  {
    t.qualifier == "Context" && t.imp.value.path == "context"
  }

  /** The first parameter the context check as written rejects: one that
      is not `context.Context` AND is a pointer AND is variadic. */
  predicate RejectedFirstAsWritten(ps: seq<Parameter>)
    requires ContextReadable(ps) && HasCorrectParamNumber(ps)
  {
    !IsContextType(ps[0].typ) && ps[0].typ.pointer && ps[0].typ.variadic
  }

  /** The parameters the check as written accepts: one or two, a first
      parameter it does not reject, and an exported request type. */
  predicate AcceptedParamsAsWritten(ps: seq<Parameter>)
    requires ContextReadable(ps)
  {
    HasCorrectParamNumber(ps) && !RejectedFirstAsWritten(ps) && (|ps| == 2 ==> IsExported(ps[1].typ.qualifier))
  }

  /** `HasCorrectParams` as written: by the operator precedence of the
      condition, the first parameter is rejected only when it is not
      `context.Context` AND is a pointer AND is variadic. The checks run
      in order and the first that fails gives the error. */
  function HasCorrectParamsAsWritten(ps: seq<Parameter>): (r: Check)
    requires ContextReadable(ps)
    ensures r.ok <==> r.err.None?
    ensures r.ok <==> AcceptedParamsAsWritten(ps)
    ensures !HasCorrectParamNumber(ps) ==> r.err == Some(ParamCountError)
    ensures HasCorrectParamNumber(ps) && RejectedFirstAsWritten(ps) ==> r.err == Some(ContextError)
    ensures HasCorrectParamNumber(ps) && !RejectedFirstAsWritten(ps) && |ps| == 2 && !IsExported(ps[1].typ.qualifier) ==>
      r.err == Some(RequestError)
  {
    if |ps| != 1 && |ps| != 2 then Check(false, Some(ParamCountError))
    else if !IsContextType(ps[0].typ) && ps[0].typ.pointer && ps[0].typ.variadic then Check(false, Some(ContextError))
    else if |ps| == 2 && !IsExported(ps[1].typ.qualifier) then Check(false, Some(RequestError))
    else Check(true, None)
  }

  /** The parameter shape the command documents: a `context.Context`
      value, optionally followed by an exported request type. */
  predicate GoodParams(ps: seq<Parameter>)
    requires ContextReadable(ps)
  {
    HasCorrectParamNumber(ps) && FirstIsContext(ps) && (|ps| == 2 ==> IsExported(ps[1].typ.qualifier))
  }

  /** The first parameter is a `context.Context` value: neither a pointer
      nor variadic. */
  predicate FirstIsContext(ps: seq<Parameter>)
    requires ContextReadable(ps) && HasCorrectParamNumber(ps)
  {
    IsContextType(ps[0].typ) && !ps[0].typ.pointer && !ps[0].typ.variadic
  }

  /** `HasCorrectParams` with the context check as intended: the first
      parameter must be `context.Context`, neither a pointer nor
      variadic. */
  function HasCorrectParams(ps: seq<Parameter>): (r: Check)
    requires ContextReadable(ps)
    ensures r.ok <==> r.err.None?
    ensures r.ok <==> GoodParams(ps)
    ensures !HasCorrectParamNumber(ps) ==> r.err == Some(ParamCountError)
    ensures HasCorrectParamNumber(ps) && !FirstIsContext(ps) ==> r.err == Some(ContextError)
    ensures HasCorrectParamNumber(ps) && FirstIsContext(ps) && |ps| == 2 && !IsExported(ps[1].typ.qualifier) ==>
      r.err == Some(RequestError)
  {
    if |ps| != 1 && |ps| != 2 then Check(false, Some(ParamCountError))
    else if !IsContextType(ps[0].typ) || ps[0].typ.pointer || ps[0].typ.variadic then Check(false, Some(ContextError))
    else if |ps| == 2 && !IsExported(ps[1].typ.qualifier) then Check(false, Some(RequestError))
    else Check(true, None)
  }

  /** The result shape: the error alone, or a pointer to an exported
      response type followed by the error. */
  predicate GoodResults(rs: seq<Parameter>)
  {
    (|rs| == 1 && rs[0].typ.qualifier == "error") ||
    (|rs| == 2 && rs[1].typ.qualifier == "error" && rs[0].typ.pointer && IsExported(rs[0].typ.qualifier))
  }

  function HasCorrectResults(rs: seq<Parameter>): (r: Check)
    ensures r.ok <==> r.err.None?
    ensures r.ok <==> GoodResults(rs)
    ensures !r.ok ==> r.err == Some(ResultsError)
  {
    if (|rs| != 1 && |rs| != 2) ||
       (|rs| == 1 && rs[0].typ.qualifier != "error") ||
       (|rs| == 2 && rs[1].typ.qualifier != "error") ||
       (|rs| == 2 && !rs[0].typ.pointer) ||
       (|rs| == 2 && !IsExported(rs[0].typ.qualifier))
    then Check(false, Some(ResultsError))
    else Check(true, None)
  }

  // ---------------------------------------------------------------- lemmas

  /** The count checks `findServiceMethods` makes after the two validators
      never reject a method the validators accepted. */
  lemma ValidatorsImplyCounts(ps: seq<Parameter>, rs: seq<Parameter>)
    requires ContextReadable(ps)
    ensures HasCorrectParams(ps).ok ==> HasCorrectParamNumber(ps)
    ensures HasCorrectResults(rs).ok ==> HasCorrectParamNumber(rs)
  {
  }

  /** The intended check accepts only what the check as written accepts. */
  lemma CorrectedIsStricter(ps: seq<Parameter>)
    requires ContextReadable(ps)
    ensures HasCorrectParams(ps).ok ==> HasCorrectParamsAsWritten(ps).ok
  {
  }

  /** As written, a method whose first parameter is a plain `int`, not the
      context, passes the context check. */
  lemma AsWrittenAcceptsNonContext()
    ensures var ps := [Parameter("x", Type("int", None, false, false))];
      HasCorrectParamsAsWritten(ps).ok && !HasCorrectParams(ps).ok
  {
  }

  /** Both checks agree on a method whose first parameter is a
      `context.Context` value. */
  lemma ChecksAgreeOnContext(ps: seq<Parameter>)
    requires ContextReadable(ps) && HasCorrectParamNumber(ps)
    requires IsContextType(ps[0].typ) && !ps[0].typ.pointer && !ps[0].typ.variadic
    ensures HasCorrectParams(ps) == HasCorrectParamsAsWritten(ps)
  {
  }
}
