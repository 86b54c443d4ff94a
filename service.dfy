/** service/service.go: reading a service. The service interface and stub
    are found by their annotations, the interface's methods are checked
    and completed (imports of exported types, names of blank parameters)
    in place, and each kept method gets its HTTP transport. */
module ServicePkg {
  import opened Wrappers
  import opened ServiceCode
  import opened ServiceUtils
  import opened ServiceTransport

  /** `Method`: a kept interface method with its transports and the
      request and response structures found for it. */
  datatype Method = Method(
    code: InterfaceMethod, transports: seq<HttpTransport>, request: Option<Structure>, response: Option<Structure>)

  const ServiceInterfaceError := "could not find the service interface, make sure you add @service() to your interface and export the interface"

  // ---------------------------------------------------------------- searches

  /** The function is the method `name` on a receiver of type `stubName`. */
  predicate Implements(fn: Function, name: string, stubName: string)
  {
    fn.receiver.Some? && fn.receiver.value.typ.qualifier == stubName && fn.name == name
  }

  /** `hasMethodImplementation`. */
  function HasMethodImplementation(fns: seq<Function>, name: string, stubName: string): (r: bool)
    ensures r <==> exists k :: 0 <= k < |fns| && Implements(fns[k], name, stubName)
    decreases |fns|
  {
    if |fns| == 0 then false
    else if Implements(fns[0], name, stubName) then true
    else
      var r := HasMethodImplementation(fns[1..], name, stubName);
      assert forall k :: 1 <= k < |fns| ==> fns[k] == fns[1..][k - 1];
      r
  }

  predicate IsNewFunc(fn: Function)
  {
    fn.name == "New" && fn.receiver.None?
  }

  /** `hasNewMethod`. */
  function HasNewMethod(fns: seq<Function>): (r: bool)
    ensures r <==> exists k :: 0 <= k < |fns| && IsNewFunc(fns[k])
    decreases |fns|
  {
    if |fns| == 0 then false
    else if IsNewFunc(fns[0]) then true
    else
      var r := HasNewMethod(fns[1..]);
      assert forall k :: 1 <= k < |fns| ==> fns[k] == fns[1..][k - 1];
      r
  }

  predicate IsServiceInterface(inf: Interface)
  {
    Annotated(inf.annotations, "service") && inf.exported
  }

  /** The position of the first exported interface annotated `service`. */
  function ServiceInterfaceIndex(infs: seq<Interface>): (r: Option<nat>)
    ensures r.Some? ==>
      r.value < |infs| && IsServiceInterface(infs[r.value]) &&
      forall j :: 0 <= j < r.value ==> !IsServiceInterface(infs[j])
    ensures r.None? ==> forall j :: 0 <= j < |infs| ==> !IsServiceInterface(infs[j])
    decreases |infs|
  {
    if |infs| == 0 then None
    else if IsServiceInterface(infs[0]) then Some(0)
    else
      assert forall j :: 1 <= j < |infs| ==> infs[j] == infs[1..][j - 1];
      match ServiceInterfaceIndex(infs[1..])
      case None => None
      case Some(k) => Some(k + 1)
  }

  /** `findServiceInterface`. */
  function FindServiceInterface(src: Source): (r: Result<Interface>)
    ensures r.Failure? <==> forall j :: 0 <= j < |src.interfaces| ==> !IsServiceInterface(src.interfaces[j])
    ensures r.Failure? ==> r.error == ServiceInterfaceError
    ensures r.Success? ==>
      exists k ::
        0 <= k < |src.interfaces| && src.interfaces[k] == r.value &&
        IsServiceInterface(r.value) && forall j :: 0 <= j < k ==> !IsServiceInterface(src.interfaces[j])
  {
    match ServiceInterfaceIndex(src.interfaces)
    case None => Failure(ServiceInterfaceError)
    case Some(k) => Success(src.interfaces[k])
  }

  function StubIndex(ss: seq<Structure>): (r: Option<nat>)
    ensures r.Some? ==>
      r.value < |ss| && Annotated(ss[r.value].annotations, "stub") &&
      forall j :: 0 <= j < r.value ==> !Annotated(ss[j].annotations, "stub")
    ensures r.None? ==> forall j :: 0 <= j < |ss| ==> !Annotated(ss[j].annotations, "stub")
    decreases |ss|
  {
    if |ss| == 0 then None
    else if Annotated(ss[0].annotations, "stub") then Some(0)
    else
      assert forall j :: 1 <= j < |ss| ==> ss[j] == ss[1..][j - 1];
      match StubIndex(ss[1..])
      case None => None
      case Some(k) => Some(k + 1)
  }

  /** `findServiceStub`: the first structure annotated `stub`, or nil. */
  function FindServiceStub(src: Source): (r: Option<Structure>)
    ensures r.None? <==> forall j :: 0 <= j < |src.structures| ==> !Annotated(src.structures[j].annotations, "stub")
    ensures r.Some? ==>
      exists k ::
        0 <= k < |src.structures| && src.structures[k] == r.value &&
        Annotated(r.value.annotations, "stub") &&
        forall j :: 0 <= j < k ==> !Annotated(src.structures[j].annotations, "stub")
  {
    match StubIndex(src.structures)
    case None => None
    case Some(k) => Some(src.structures[k])
  }

  // ---------------------------------------------------------------- transports

  /** The transports of a method: one HTTP transport built from its
      `http` annotations, or none. */
  function TransportsFor(anns: seq<Annotation>): seq<HttpTransport>
  {
    var https := HttpAnnotations(anns);
    if |https| == 0 then [] else [HttpTransport(RoutesFor(https))]
  }

  /** `findMethodTransports`. */
  method FindMethodTransports(m: InterfaceMethod) returns (transports: seq<HttpTransport>)
    ensures transports == TransportsFor(m.annotations)
  {
    var httpAnnotations: seq<Annotation> := [];
    var k := 0;
    while k < |m.annotations|
      invariant 0 <= k <= |m.annotations|
      invariant httpAnnotations == HttpAnnotations(m.annotations[..k])
    {
      assert m.annotations[..k + 1][..k] == m.annotations[..k];
      if m.annotations[k].name == "http" {
        httpAnnotations := httpAnnotations + [m.annotations[k]];
      }
      k := k + 1;
    }
    assert m.annotations[..k] == m.annotations;
    transports := [];
    if |httpAnnotations| > 0 {
      var t := NewHTTPTransport(httpAnnotations);
      transports := transports + [t];
    }
  }

  // ---------------------------------------------------------------- completing parameters

  /** What `fixMethodImport` reads from the environment: the service name,
      the module and package names, the working directory and the
      `testPath` setting. */
  datatype ImportCtx = ImportCtx(serviceName: string, goModule: string, pkg: string, cwd: string, testPath: string)

  /** `path.Join` of two parts, without the cleaning of `.` and
      `..` elements. */
  function PathJoin(a: string, b: string): string
  {
    if a == "" then b else if b == "" then a else a + "/" + b
  }

  function CurrentPath(ctx: ImportCtx): string
  {
    if ctx.testPath != "" then PathJoin(ctx.cwd, ctx.testPath) else ctx.cwd
  }

  /** `fixMethodImport`: an exported type without an import is the
      service package's own. */
  function FixMethodImport(ctx: ImportCtx, p: Parameter): (r: Parameter)
    ensures r.name == p.name && r.typ.qualifier == p.typ.qualifier
    ensures r.typ.pointer == p.typ.pointer && r.typ.variadic == p.typ.variadic
    ensures p.typ.imp.Some? ==> r == p
    ensures r.typ.imp.Some? <==> p.typ.imp.Some? || IsExported(p.typ.qualifier)
  {
    if p.typ.imp.None? && IsExported(p.typ.qualifier) then
      p.(typ := p.typ.(imp := Some(Import("service", ctx.goModule + "/" + ctx.pkg, PathJoin(CurrentPath(ctx), ctx.serviceName)))))
    else p
  }

  function FixImports(ctx: ImportCtx, ps: seq<Parameter>): (r: seq<Parameter>)
    ensures |r| == |ps| && forall k :: 0 <= k < |ps| ==> r[k] == FixMethodImport(ctx, ps[k])
  {
    seq(|ps|, k requires 0 <= k < |ps| => FixMethodImport(ctx, ps[k]))
  }

  /** The loops that write the completed parameters back into the
      interface, one element at a time. */
  method FixImportsIn(ctx: ImportCtx, ps: array<Parameter>)
    modifies ps
    ensures ps[..] == FixImports(ctx, old(ps[..]))
  {
    var k := 0;
    while k < ps.Length
      invariant 0 <= k <= ps.Length
      invariant forall j :: 0 <= j < k ==> ps[j] == FixMethodImport(ctx, old(ps[j]))
      invariant forall j :: k <= j < ps.Length ==> ps[j] == old(ps[j])
    {
      ps[k] := FixMethodImport(ctx, ps[k]);
      k := k + 1;
    }
  }

  /** The names `fixParameterParams` gives blank parameters: "ctx" for the
      first, "request" for the second of two. */
  function FixedParameterNames(ps: seq<Parameter>): (r: seq<Parameter>)
    ensures |r| == |ps| && forall k :: 0 <= k < |ps| ==> r[k].typ == ps[k].typ
  {
    if |ps| == 1 && ps[0].name == "" then [ps[0].(name := "ctx")]
    else if |ps| == 2 then
      [if ps[0].name == "" then ps[0].(name := "ctx") else ps[0],
       if ps[1].name == "" then ps[1].(name := "request") else ps[1]]
    else ps
  }

  /** `fixParameterParams`: the blank names are filled in in place. */
  method FixParameterParams(params: array<Parameter>)
    modifies params
    ensures params[..] == FixedParameterNames(old(params[..]))
  {
    if params.Length == 1 && params[0].name == "" {
      params[0] := params[0].(name := "ctx");
    } else if params.Length == 2 {
      if params[0].name == "" {
        params[0] := params[0].(name := "ctx");
      }
      if params[1].name == "" {
        params[1] := params[1].(name := "request");
      }
    }
  }

  // ---------------------------------------------------------------- selecting methods

  /** What `findServiceMethods` does with one method, and the method as it
      is left in the interface. */
  datatype Step =
    | Fail(msg: string, after: InterfaceMethod)
    | Skip(after: InterfaceMethod)
    | Keep(after: InterfaceMethod, kept: Method)

  predicate Readable(ms: seq<InterfaceMethod>)
  {
    forall k :: 0 <= k < |ms| ==> ContextReadable(ms[k].params)
  }

  /** One method: both checks (whose errors end the search), the
      selection, the imports completed in place, the request and response
      structures looked up with `findStruct`, and the blank names filled
      in. */
  function MethodStep(ctx: ImportCtx, findStruct: Parameter -> Result<Structure>, m: InterfaceMethod): (s: Step)
    requires ContextReadable(m.params)
    ensures s.after.name == m.name && s.after.annotations == m.annotations
    ensures !s.Fail? ==> HasCorrectParamsAsWritten(m.params).ok && HasCorrectResults(m.results).ok
    ensures HasCorrectParamsAsWritten(m.params).ok && HasCorrectResults(m.results).ok ==> (s.Skip? <==> !IsExported(m.name))
    ensures s.Keep? ==> s.kept.code == s.after
  {
    var cp := HasCorrectParamsAsWritten(m.params);
    var cr := HasCorrectResults(m.results);
    if !cp.ok then Fail(cp.err.value, m)
    else if !cr.ok then Fail(cr.err.value, m)
    else if !IsExported(m.name) || !HasCorrectParamNumber(m.params) || !HasCorrectParamNumber(m.results) then Skip(m)
    else
      var fixedParams := FixImports(ctx, m.params);
      var fixedResults := FixImports(ctx, m.results);
      var imported := m.(params := fixedParams, results := fixedResults);
      if |fixedParams| == 2 && findStruct(fixedParams[1]).Failure? then Fail(findStruct(fixedParams[1]).error, imported)
      else if |fixedResults| == 2 && findStruct(fixedResults[0]).Failure? then Fail(findStruct(fixedResults[0]).error, imported)
      else
        var request := if |fixedParams| == 2 then Some(findStruct(fixedParams[1]).value) else None;
        var response := if |fixedResults| == 2 then Some(findStruct(fixedResults[0]).value) else None;
        var code := imported.(params := FixedParameterNames(fixedParams));
        Keep(code, Method(code, TransportsFor(m.annotations), request, response))
  }

  /** The search so far: the methods kept (or the first error), and the
      interface's methods as left behind. */
  datatype Scanned = Scanned(res: Result<seq<Method>>, after: seq<InterfaceMethod>)

  /** One more method: after an error the method is left as it is. */
  function Next(sc: Scanned, st: Step, m: InterfaceMethod): Scanned
  {
    if sc.res.Failure? then Scanned(sc.res, sc.after + [m])
    else
      match st
      case Fail(msg, af) => Scanned(Failure(msg), sc.after + [af])
      case Skip(af) => Scanned(sc.res, sc.after + [af])
      case Keep(af, k) => Scanned(Success(sc.res.value + [k]), sc.after + [af])
  }

  /** Each method's step, in order. */
  function Steps(ctx: ImportCtx, findStruct: Parameter -> Result<Structure>, ms: seq<InterfaceMethod>): (r: seq<Step>)
    requires Readable(ms)
    ensures |r| == |ms|
  {
    seq(|ms|, k requires 0 <= k < |ms| && Readable(ms) => MethodStep(ctx, findStruct, ms[k]))
  }

  /** The steps folded over the methods, from the first on. */
  function Fold(sts: seq<Step>, ms: seq<InterfaceMethod>): (r: Scanned)
    requires |sts| == |ms|
    ensures |r.after| == |ms|
  {
    if |ms| == 0 then Scanned(Success([]), [])
    else Next(Fold(sts[..|ms| - 1], ms[..|ms| - 1]), sts[|ms| - 1], ms[|ms| - 1])
  }

  /** The search of `findServiceMethods` over the methods. */
  function Scan(ctx: ImportCtx, findStruct: Parameter -> Result<Structure>, ms: seq<InterfaceMethod>): (r: Scanned)
    requires Readable(ms)
    ensures |r.after| == |ms|
  {
    Fold(Steps(ctx, findStruct, ms), ms)
  }

  /** The search over a non-empty list is the search over all but the
      last method, followed by the last method's step. */
  lemma ScanUnfold(ctx: ImportCtx, findStruct: Parameter -> Result<Structure>, ms: seq<InterfaceMethod>)
    requires Readable(ms) && |ms| > 0
    ensures Readable(ms[..|ms| - 1])
    ensures Scan(ctx, findStruct, ms) ==
      Next(Scan(ctx, findStruct, ms[..|ms| - 1]), MethodStep(ctx, findStruct, ms[|ms| - 1]), ms[|ms| - 1])
  {
    var init := ms[..|ms| - 1];
    assert Readable(init) by { assert forall k :: 0 <= k < |init| ==> init[k] == ms[k]; }
    assert Steps(ctx, findStruct, ms)[..|ms| - 1] == Steps(ctx, findStruct, init);
  }

  /** The body of the loop of `findServiceMethods` for one method. The
      imports are completed and the blank names filled in place, in the
      parameter and result arrays the method shares with the interface. */
  method ProcessMethod(ctx: ImportCtx, findStruct: Parameter -> Result<Structure>, m: InterfaceMethod)
    returns (step: Step)
    requires ContextReadable(m.params)
    ensures step == MethodStep(ctx, findStruct, m)
  {
    var cp := HasCorrectParamsAsWritten(m.params);
    if !cp.ok {
      return Fail(cp.err.value, m);
    }
    var cr := HasCorrectResults(m.results);
    if !cr.ok {
      return Fail(cr.err.value, m);
    }
    if !IsExported(m.name) || !HasCorrectParamNumber(m.params) || !HasCorrectParamNumber(m.results) || !cp.ok || !cr.ok {
      return Skip(m);
    }
    var ps := new Parameter[|m.params|](k requires 0 <= k < |m.params| => m.params[k]);
    var rs := new Parameter[|m.results|](k requires 0 <= k < |m.results| => m.results[k]);
    assert ps[..] == m.params;
    assert rs[..] == m.results;
    FixImportsIn(ctx, ps);
    FixImportsIn(ctx, rs);
    var imported := m.(params := ps[..], results := rs[..]);
    var request: Option<Structure> := None;
    if ps.Length == 2 {
      var found := findStruct(ps[1]);
      if found.Failure? {
        return Fail(found.error, imported);
      }
      request := Some(found.value);
    }
    var response: Option<Structure> := None;
    if rs.Length == 2 {
      var found := findStruct(rs[0]);
      if found.Failure? {
        return Fail(found.error, imported);
      }
      response := Some(found.value);
    }
    FixParameterParams(ps);
    var code := m.(params := ps[..], results := rs[..]);
    var transports := FindMethodTransports(m);
    return Keep(code, Method(code, transports, request, response));
  }

  /** `findServiceMethods`. The interface's methods are an array the loop
      updates in place, as the Go code writes through the interface's
      code; `findStruct`, which reads directories, is given. */
  method FindServiceMethods(ctx: ImportCtx, findStruct: Parameter -> Result<Structure>, ms: array<InterfaceMethod>)
    returns (methods: Result<seq<Method>>)
    requires Readable(ms[..])
    modifies ms
    ensures methods == Scan(ctx, findStruct, old(ms[..])).res
    ensures ms[..] == Scan(ctx, findStruct, old(ms[..])).after
  {
    ghost var ms0 := ms[..];
    ghost var done: seq<InterfaceMethod> := [];
    var kept: seq<Method> := [];
    var i := 0;
    while i < ms.Length
      invariant 0 <= i <= ms.Length && |done| == i
      invariant Readable(ms0[..i])
      invariant Scan(ctx, findStruct, ms0[..i]) == Scanned(Success(kept), done)
      invariant forall j :: 0 <= j < i ==> ms[j] == done[j]
      invariant forall j :: i <= j < ms.Length ==> ms[j] == ms0[j]
    {
      AdvanceScan(ctx, findStruct, ms0, i, kept, done);
      var m := ms[i];
      assert m == ms0[i];
      var step := ProcessMethod(ctx, findStruct, m);
      done := StoreStep(ms, i, step.after, done, ms0);
      if step.Fail? {
        SeqFromParts(ms[..], done, ms0);
        return Failure(step.msg);
      }
      if step.Keep? {
        kept := kept + [step.kept];
      }
      i := i + 1;
    }
    assert ms0[..i] == ms0;
    SeqFromParts(ms[..], done, ms0);
    methods := Success(kept);
  }

  /** The method as left behind is written back in place; the methods
      before it were written already, those after it are untouched. */
  method StoreStep(ms: array<InterfaceMethod>, i: nat, after: InterfaceMethod,
                   ghost done: seq<InterfaceMethod>, ghost ms0: seq<InterfaceMethod>)
    returns (ghost done': seq<InterfaceMethod>)
    requires i < ms.Length == |ms0| && |done| == i
    requires forall j :: 0 <= j < i ==> ms[j] == done[j]
    requires forall j :: i <= j < ms.Length ==> ms[j] == ms0[j]
    modifies ms
    ensures done' == done + [after]
    ensures forall j :: 0 <= j < i + 1 ==> ms[j] == done'[j]
    ensures forall j :: i + 1 <= j < ms.Length ==> ms[j] == ms0[j]
  {
    ms[i] := after;
    done' := done + [after];
  }

  // ---------------------------------------------------------------- lemmas

  /** A sequence whose first elements are `done` and whose others are
      those of `src` at the same places. */
  lemma SeqFromParts<T>(cur: seq<T>, done: seq<T>, src: seq<T>)
    requires |cur| == |src| && |done| <= |cur|
    requires forall j :: 0 <= j < |done| ==> cur[j] == done[j]
    requires forall j :: |done| <= j < |cur| ==> cur[j] == src[j]
    ensures cur == done + src[|done|..]
    ensures |done| == |cur| ==> cur == done
  {
  }

  /** The search over one more method is one more step. */
  lemma ScanSnoc(ctx: ImportCtx, findStruct: Parameter -> Result<Structure>, ms: seq<InterfaceMethod>, i: nat)
    requires Readable(ms) && i < |ms|
    ensures Readable(ms[..i]) && Readable(ms[..i + 1])
    ensures Scan(ctx, findStruct, ms[..i + 1]) ==
      Next(Scan(ctx, findStruct, ms[..i]), MethodStep(ctx, findStruct, ms[i]), ms[i])
  {
    assert ms[..i + 1][..i] == ms[..i];
    assert Readable(ms[..i + 1]) by { assert forall k :: 0 <= k < i + 1 ==> ms[..i + 1][k] == ms[k]; }
    ScanUnfold(ctx, findStruct, ms[..i + 1]);
  }

  /** One turn of the loop of `findServiceMethods`: the search either
      stops at this method, for good, or goes on with it skipped or
      kept. */
  lemma AdvanceScan(ctx: ImportCtx, findStruct: Parameter -> Result<Structure>, ms: seq<InterfaceMethod>, i: nat,
                    kept: seq<Method>, done: seq<InterfaceMethod>)
    requires Readable(ms) && i < |ms|
    requires Readable(ms[..i]) && Scan(ctx, findStruct, ms[..i]) == Scanned(Success(kept), done)
    ensures Readable(ms[..i + 1])
    ensures var st := MethodStep(ctx, findStruct, ms[i]);
      (st.Fail? ==> Scan(ctx, findStruct, ms) == Scanned(Failure(st.msg), done + [st.after] + ms[i + 1..])) &&
      (st.Skip? ==> Scan(ctx, findStruct, ms[..i + 1]) == Scanned(Success(kept), done + [st.after])) &&
      (st.Keep? ==> Scan(ctx, findStruct, ms[..i + 1]) == Scanned(Success(kept + [st.kept]), done + [st.after]))
  {
    ScanSnoc(ctx, findStruct, ms, i);
    if MethodStep(ctx, findStruct, ms[i]).Fail? {
      ScanStops(ctx, findStruct, ms, i + 1);
    }
  }

  /** After the first error the search stops: the later methods are left
      as they are. */
  lemma {:induction false} ScanStops(ctx: ImportCtx, findStruct: Parameter -> Result<Structure>, ms: seq<InterfaceMethod>, i: nat)
    requires Readable(ms) && i <= |ms|
    requires Readable(ms[..i]) && Scan(ctx, findStruct, ms[..i]).res.Failure?
    ensures Scan(ctx, findStruct, ms).res == Scan(ctx, findStruct, ms[..i]).res
    ensures Scan(ctx, findStruct, ms).after == Scan(ctx, findStruct, ms[..i]).after + ms[i..]
    decreases |ms|
  {
    if i == |ms| {
      assert ms[..i] == ms;
      assert ms[i..] == [];
    } else {
      var init := ms[..|ms| - 1];
      assert init[..i] == ms[..i];
      ScanUnfold(ctx, findStruct, ms);
      ScanStops(ctx, findStruct, init, i);
      assert ms[i..] == init[i..] + [ms[|ms| - 1]];
    }
  }

  /** A blank parameter name is filled in, a given one is kept, and a
      second pass changes nothing. */
  lemma FixedNamesShape(ps: seq<Parameter>)
    ensures 1 <= |ps| <= 2 ==> forall k :: 0 <= k < |ps| ==> FixedParameterNames(ps)[k].name != ""
    ensures forall k :: 0 <= k < |ps| && ps[k].name != "" ==> FixedParameterNames(ps)[k] == ps[k]
    ensures FixedParameterNames(FixedParameterNames(ps)) == FixedParameterNames(ps)
  {
  }

  /** Completing the imports is idempotent. */
  lemma FixImportsIdempotent(ctx: ImportCtx, ps: seq<Parameter>)
    ensures FixImports(ctx, FixImports(ctx, ps)) == FixImports(ctx, ps)
  {
  }

  /** A method that is kept carries a well-formed signature. */
  lemma KeptMethodShape(ctx: ImportCtx, findStruct: Parameter -> Result<Structure>, m: InterfaceMethod)
    requires ContextReadable(m.params)
    ensures var s := MethodStep(ctx, findStruct, m);
      s.Keep? ==>
        IsExported(m.name) && AcceptedParamsAsWritten(m.params) && GoodResults(m.results) &&
        s.kept.code == s.after && |s.after.params| == |m.params| &&
        (forall k :: 0 <= k < |m.params| ==> s.after.params[k].name != "") &&
        (FirstIsContext(m.params) ==> s.after.params[0].typ.imp.Some?) &&
        (|m.params| == 2 ==> s.after.params[1].typ.imp.Some?) &&
        (|m.results| == 2 ==> s.after.results[0].typ.imp.Some?) &&
        (s.kept.request.Some? <==> |m.params| == 2) && (s.kept.response.Some? <==> |m.results| == 2) &&
        (|s.kept.transports| == 1 <==> Annotated(m.annotations, "http")) &&
        (|s.kept.transports| == 0 <==> !Annotated(m.annotations, "http"))
  {
    var s := MethodStep(ctx, findStruct, m);
    if s.Keep? {
      FixedNamesShape(FixImports(ctx, m.params));
    }
  }

  /** A search that has not failed took every step without an error. */
  lemma NextSucceeds(sc: Scanned, st: Step, m: InterfaceMethod)
    ensures Next(sc, st, m).res.Success? ==>
      sc.res.Success? && !st.Fail? && Next(sc, st, m).after == sc.after + [st.after]
  {
  }

  /** A search without errors has checked every method. */
  lemma {:induction false} ScanChecksAll(ctx: ImportCtx, findStruct: Parameter -> Result<Structure>, ms: seq<InterfaceMethod>)
    requires Readable(ms)
    ensures Scan(ctx, findStruct, ms).res.Success? ==>
      forall k :: 0 <= k < |ms| ==> HasCorrectParamsAsWritten(ms[k].params).ok && HasCorrectResults(ms[k].results).ok
  {
    if |ms| > 0 {
      var init := ms[..|ms| - 1];
      ScanUnfold(ctx, findStruct, ms);
      ScanChecksAll(ctx, findStruct, init);
      var last := ms[|ms| - 1];
      var st := MethodStep(ctx, findStruct, last);
      NextSucceeds(Scan(ctx, findStruct, init), st, last);
      if Scan(ctx, findStruct, ms).res.Success? {
        assert !st.Fail?;
        forall k | 0 <= k < |ms|
          ensures HasCorrectParamsAsWritten(ms[k].params).ok && HasCorrectResults(ms[k].results).ok
        {
          if k < |init| {
            assert ms[k] == init[k];
          }
        }
      }
    }
  }

  /** A search without errors leaves every method's name in place. */
  lemma {:induction false} ScanKeepsNames(ctx: ImportCtx, findStruct: Parameter -> Result<Structure>, ms: seq<InterfaceMethod>)
    requires Readable(ms)
    ensures var sc := Scan(ctx, findStruct, ms);
      sc.res.Success? ==> forall k :: 0 <= k < |ms| ==> sc.after[k].name == ms[k].name
  {
    if |ms| > 0 {
      var init := ms[..|ms| - 1];
      ScanUnfold(ctx, findStruct, ms);
      ScanKeepsNames(ctx, findStruct, init);
      var last := ms[|ms| - 1];
      var sc0 := Scan(ctx, findStruct, init);
      var sc := Scan(ctx, findStruct, ms);
      var st := MethodStep(ctx, findStruct, last);
      NextSucceeds(sc0, st, last);
      if sc.res.Success? {
        assert sc.after == sc0.after + [st.after];
        forall k | 0 <= k < |ms| ensures sc.after[k].name == ms[k].name {
          if k < |init| {
            assert sc.after[k] == sc0.after[k];
            assert ms[k] == init[k];
          }
        }
      }
    }
  }

  /** A search without errors keeps exactly the exported methods, in
      order. */
  lemma {:induction false} ScanKeepsExported(ctx: ImportCtx, findStruct: Parameter -> Result<Structure>, ms: seq<InterfaceMethod>)
    requires Readable(ms)
    ensures var sc := Scan(ctx, findStruct, ms);
      sc.res.Success? ==> Names(sc.res.value) == ExportedNames(ms)
  {
    if |ms| > 0 {
      var init := ms[..|ms| - 1];
      ScanUnfold(ctx, findStruct, ms);
      ScanKeepsExported(ctx, findStruct, init);
      var last := ms[|ms| - 1];
      var sc0 := Scan(ctx, findStruct, init);
      var sc := Scan(ctx, findStruct, ms);
      var st := MethodStep(ctx, findStruct, last);
      assert sc == Next(sc0, st, last);
      if sc.res.Success? {
        assert sc0.res.Success? && !st.Fail?;
        if st.Keep? {
          assert sc.res.value == sc0.res.value + [st.kept];
          assert Names(sc.res.value) == Names(sc0.res.value) + [last.name];
        } else {
          assert sc.res.value == sc0.res.value;
        }
      }
    }
  }

  function Names(ms: seq<Method>): seq<string>
  {
    if |ms| == 0 then [] else Names(ms[..|ms| - 1]) + [ms[|ms| - 1].code.name]
  }

  /** The names of the exported methods, in order. */
  function ExportedNames(ms: seq<InterfaceMethod>): seq<string>
  {
    if |ms| == 0 then []
    else ExportedNames(ms[..|ms| - 1]) + if IsExported(ms[|ms| - 1].name) then [ms[|ms| - 1].name] else []
  }
}
