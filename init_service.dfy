/** generator/init_service.go: `kit init service`. After the common
    opening steps the command adds to the service file the service struct,
    a stub for each method, and the two constructors, each only when the
    file does not declare it yet; it then writes the logging middleware and
    the endpoint request/response structs of every method. */
module ServiceInit {
  import opened Wrappers
  import opened GoStrings
  import opened Utils
  import opened Src
  import opened MethodSet
  import opened GenGuard
  import opened Fragments
  import Parser
  import Generator

  // ================================================================ presence-checked declarations

  /** The stub of `m` on the service struct. */
  function StubFrag(serviceStructName: string, m: Method): Fragment
  {
    MethodFrag(m.name, "*" + serviceStructName)
  }

  function StubCandidates(serviceStructName: string, ms: seq<Method>): (r: seq<Fragment>)
    ensures |r| == |ms|
    ensures forall k :: 0 <= k < |ms| ==> r[k] == StubFrag(serviceStructName, ms[k])
  {
    if |ms| == 0 then []
    else StubCandidates(serviceStructName, ms[..|ms| - 1]) + [StubFrag(serviceStructName, ms[|ms| - 1])]
  }

  /** The name of the basic constructor, `New<Camel(struct)>`. */
  function BasicConstructorName(cf: CaseFns, serviceStructName: string): string
  {
    "New" + ToCamelCase(cf, serviceStructName)
  }

  /** Everything `Generate` may add, in the order it is added. */
  function InitCandidates(cf: CaseFns, serviceStructName: string, ms: seq<Method>): seq<Fragment>
  {
    [StructFrag(serviceStructName)] + StubCandidates(serviceStructName, ms) +
    [FuncFrag(BasicConstructorName(cf, serviceStructName)), FuncFrag("New")]
  }

  /** What is added to a service file `f` for the narrowed methods `ms`. */
  function InitFragments(cf: CaseFns, f: File, serviceStructName: string, ms: seq<Method>): seq<Fragment>
  {
    Absent(f, InitCandidates(cf, serviceStructName, ms))
  }

  /** A generated stub: its receiver, its parameters and results as
      declared in the interface, and the names its `return` lists. */
  datatype Stub = Stub(name: string, receiver: string, receiverType: string,
                       params: seq<NamedTypeValue>, results: seq<NamedTypeValue>, returned: seq<string>)

  /** The stub returns its named results, in order. */
  function StubFor(receiver: string, serviceStructName: string, m: Method): (s: Stub)
    ensures s.name == m.name && s.receiver == receiver && s.receiverType == "*" + serviceStructName
    ensures s.params == m.params && s.results == m.results
    ensures |s.returned| == |m.results| && forall k :: 0 <= k < |m.results| ==> s.returned[k] == m.results[k].name
  {
    Stub(m.name, receiver, "*" + serviceStructName, m.params, m.results, Generator.Names(m.results))
  }

  /** The parameters and then the results of every method, in order: the
      names the receiver must not take. */
  function ParamsAndResults(ms: seq<Method>): seq<NamedTypeValue>
  {
    if |ms| == 0 then [] else ParamsAndResults(ms[..|ms| - 1]) + ms[|ms| - 1].params + ms[|ms| - 1].results
  }

  lemma {:induction false} ParamsAndResultsMember(ms: seq<Method>, v: NamedTypeValue)
    ensures v in ParamsAndResults(ms) <==> exists i :: 0 <= i < |ms| && (v in ms[i].params || v in ms[i].results)
  {
    if |ms| > 0 {
      var init, last := ms[..|ms| - 1], ms[|ms| - 1];
      ParamsAndResultsMember(init, v);
      if exists i :: 0 <= i < |ms| && (v in ms[i].params || v in ms[i].results) {
        var i :| 0 <= i < |ms| && (v in ms[i].params || v in ms[i].results);
        if i < |ms| - 1 { assert init[i] == ms[i]; }
      }
      if exists i :: 0 <= i < |init| && (v in init[i].params || v in init[i].results) {
        var i :| 0 <= i < |init| && (v in init[i].params || v in init[i].results);
        assert ms[i] == init[i];
      }
    }
  }

  /** The loops that collect the excluded names. */
  method CollectParamsAndResults(ms: seq<Method>) returns (names: seq<NamedTypeValue>)
    ensures names == ParamsAndResults(ms)
  {
    names := [];
    var i := 0;
    while i < |ms|
      invariant 0 <= i <= |ms|
      invariant names == ParamsAndResults(ms[..i])
    {
      assert ms[..i + 1][..i] == ms[..i];
      names := names + ms[i].params;
      names := names + ms[i].results;
      i := i + 1;
    }
    assert ms[..i] == ms;
  }

  /** The `InitService` generator. `emitted` is what it has added to its
      partial output, by identity; `stubs` the stubs in detail. */
  class InitService {
    const name: string
    const transport: string
    const interfaceName: string
    const serviceStructName: string
    var file: File
    var serviceInterface: Interface
    var emitted: seq<Fragment>
    var stubs: seq<Stub>
    var receiver: Option<string>

    /** `structPrefix` is the configured `gk_service_struct_prefix`. */
    constructor (cf: CaseFns, name: string, transport: string, structPrefix: string)
      requires LowerFirstCamelDefined(cf, structPrefix + "-" + ToCamelCase(cf, name + "Service"))
      ensures this.name == name && this.transport == transport
      ensures interfaceName == ToCamelCase(cf, name + "Service")
      ensures serviceStructName == ToLowerFirstCamelCase(cf, structPrefix + "-" + interfaceName)
      ensures file == NewFile() && serviceInterface == NewInterface("", [])
      ensures emitted == [] && stubs == [] && receiver == None
    {
      this.name := name;
      this.transport := transport;
      interfaceName := ToCamelCase(cf, name + "Service");
      serviceStructName := ToLowerFirstCamelCase(cf, structPrefix + "-" + ToCamelCase(cf, name + "Service"));
      file := NewFile();
      serviceInterface := NewInterface("", []);
      emitted := [];
      stubs := [];
      receiver := None;
    }

    method ServiceFound() returns (found: bool)
      modifies this
      ensures file == old(file) && emitted == old(emitted) && stubs == old(stubs) && receiver == old(receiver)
      ensures found <==> FindInterface(file.interfaces, interfaceName).Some?
      ensures found ==> serviceInterface == FindInterface(file.interfaces, interfaceName).value
      ensures !found ==> serviceInterface == old(serviceInterface)
    {
      var r := SearchInterface(file.interfaces, interfaceName);
      if r.Some? {
        serviceInterface := r.value;
        return true;
      }
      return false;
    }

    /** This copy of `removeBadMethods` has no allow-list. */
    method RemoveBadMethods()
      requires NamedMethods(serviceInterface.methods)
      modifies this
      ensures file == old(file) && emitted == old(emitted) && stubs == old(stubs) && receiver == old(receiver)
      ensures serviceInterface == old(serviceInterface).(methods := KeptMethods([], old(serviceInterface).methods))
    {
      var keep := FilterMethods([], serviceInterface.methods);
      serviceInterface := serviceInterface.(methods := keep);
    }

    method GenerateServiceStruct()
      modifies this
      ensures file == old(file) && serviceInterface == old(serviceInterface)
      ensures stubs == old(stubs) && receiver == old(receiver)
      ensures emitted == old(emitted) + Absent(file, [StructFrag(serviceStructName)])
    {
      assert [StructFrag(serviceStructName)][..0] == [];
      var k := 0;
      while k < |file.structures|
        invariant 0 <= k <= |file.structures|
        invariant forall j :: 0 <= j < k ==> file.structures[j].name != serviceStructName
      {
        if file.structures[k].name == serviceStructName {
          return;
        }
        k := k + 1;
      }
      emitted := emitted + [StructFrag(serviceStructName)];
    }

    /** The receiver name and the stubs of the methods the file lacks. */
    method GenerateServiceMethods(cf: CaseFns)
      requires LowerFirstCamelDefined(cf, serviceStructName)
      modifies this
      ensures file == old(file) && serviceInterface == old(serviceInterface)
      ensures emitted == old(emitted) + Absent(file, StubCandidates(serviceStructName, serviceInterface.methods))
      ensures ReceiverAsWritten(cf, serviceStructName, serviceInterface.methods, receiver)
      ensures receiver.Some? ==> stubs == old(stubs) + NewStubs(file, receiver.value, serviceStructName, serviceInterface.methods)
      ensures receiver.None? ==> stubs == old(stubs)
    {
      var ms := serviceInterface.methods;
      var exclude := CollectParamsAndResults(ms);
      receiver := Generator.GenerateNameBySampleAsWritten(cf, serviceStructName, exclude);
      var added, newStubs := SelectStubs(file, if receiver.Some? then receiver.value else "", serviceStructName, ms);
      emitted := emitted + added;
      if receiver.Some? {
        stubs := stubs + newStubs;
      }
    }

    method GenerateNewBasicStructMethod(cf: CaseFns)
      modifies this
      ensures file == old(file) && serviceInterface == old(serviceInterface)
      ensures stubs == old(stubs) && receiver == old(receiver)
      ensures emitted == old(emitted) + Absent(file, [FuncFrag(BasicConstructorName(cf, serviceStructName))])
    {
      var fn := BasicConstructorName(cf, serviceStructName);
      assert [FuncFrag(fn)][..0] == [];
      var k := 0;
      while k < |file.methods|
        invariant 0 <= k <= |file.methods|
        invariant forall j :: 0 <= j < k ==> file.methods[j].name != fn
      {
        if file.methods[k].name == fn {
          return;
        }
        k := k + 1;
      }
      emitted := emitted + [FuncFrag(fn)];
    }

    method GenerateNewMethod()
      modifies this
      ensures file == old(file) && serviceInterface == old(serviceInterface)
      ensures stubs == old(stubs) && receiver == old(receiver)
      ensures emitted == old(emitted) + Absent(file, [FuncFrag("New")])
    {
      assert [FuncFrag("New")][..0] == [];
      var k := 0;
      while k < |file.methods|
        invariant 0 <= k <= |file.methods|
        invariant forall j :: 0 <= j < k ==> file.methods[j].name != "New"
      {
        if file.methods[k].name == "New" {
          return;
        }
        k := k + 1;
      }
      emitted := emitted + [FuncFrag("New")];
    }

    /** The opening steps of `Generate`. */
    method OpeningSteps(cf: CaseFns, src: ServiceSource) returns (o: Outcome)
      requires SourceOk(cf, src)
      modifies this
      ensures o == GuardSpec(cf, true, transport, true, [], interfaceName, src)
      ensures o.Ready? ==> file == o.file && serviceInterface == o.service
      ensures emitted == old(emitted) && stubs == old(stubs)
    {
      var supported := CheckTransport(transport);
      if !supported {
        return Unsupported;
      }
      if src.present.Failure? {
        return FsError(src.present.error);
      }
      if !src.present.value {
        return ServiceMissing;
      }
      if src.contents.Failure? {
        return FsError(src.contents.error);
      }
      if src.contents.value.SyntaxError? {
        return NilFilePanic;
      }
      var parsed := Parser.Parse(cf, src.contents.value);
      file := parsed.value;
      var found := ServiceFound();
      if !found {
        return InterfaceMissing;
      }
      assert WellNamed(file);
      RemoveBadMethods();
      if |serviceInterface.methods| == 0 {
        return NoSuitableMethods;
      }
      return Ready(file, serviceInterface);
    }

    /** The four presence-checked steps, in order. */
    method AddDeclarations(cf: CaseFns)
      requires LowerFirstCamelDefined(cf, serviceStructName)
      modifies this
      ensures file == old(file) && serviceInterface == old(serviceInterface)
      ensures emitted == old(emitted) + InitFragments(cf, file, serviceStructName, serviceInterface.methods)
      ensures ReceiverAsWritten(cf, serviceStructName, serviceInterface.methods, receiver)
      ensures receiver.Some? ==> stubs == old(stubs) + NewStubs(file, receiver.value, serviceStructName, serviceInterface.methods)
      ensures receiver.None? ==> stubs == old(stubs)
    {
      ghost var f, ms, e0 := file, serviceInterface.methods, emitted;
      ghost var st, sc := Absent(f, [StructFrag(serviceStructName)]), Absent(f, StubCandidates(serviceStructName, ms));
      ghost var bc, nc := Absent(f, [FuncFrag(BasicConstructorName(cf, serviceStructName))]), Absent(f, [FuncFrag("New")]);
      InitFragmentsParts(cf, f, serviceStructName, ms);
      GenerateServiceStruct();
      assert emitted == e0 + st;
      GenerateServiceMethods(cf);
      assert emitted == e0 + st + sc;
      GenerateNewBasicStructMethod(cf);
      assert emitted == e0 + st + sc + bc;
      GenerateNewMethod();
      assert emitted == e0 + st + sc + bc + nc;
      assert InitFragments(cf, f, serviceStructName, ms) == st + sc + bc + nc;
      AppendFourAssoc(e0, st, sc, bc, nc);
    }

    /** `Generate` up to writing the service file. */
    method Generate(cf: CaseFns, src: ServiceSource) returns (o: Outcome)
      requires SourceOk(cf, src)
      requires LowerFirstCamelDefined(cf, serviceStructName)
      modifies this
      ensures o == GuardSpec(cf, true, transport, true, [], interfaceName, src)
      ensures o.Ready? ==> file == o.file && serviceInterface == o.service
      ensures o.Ready? ==> emitted == old(emitted) + InitFragments(cf, file, serviceStructName, serviceInterface.methods)
      ensures o.Ready? ==> ReceiverAsWritten(cf, serviceStructName, serviceInterface.methods, receiver)
      ensures o.Ready? && receiver.Some? ==>
        stubs == old(stubs) + NewStubs(file, receiver.value, serviceStructName, serviceInterface.methods)
      ensures !o.Ready? ==> emitted == old(emitted) && stubs == old(stubs)
    {
      o := OpeningSteps(cf, src);
      if o.Ready? {
        AddDeclarations(cf);
      }
    }
  }

  /** The stubs written for the methods the file lacks, in order. */
  function NewStubs(f: File, receiver: string, serviceStructName: string, ms: seq<Method>): (r: seq<Stub>)
    ensures |r| == |Absent(f, StubCandidates(serviceStructName, ms))|
  {
    if |ms| == 0 then []
    else
      var m := ms[|ms| - 1];
      assert StubCandidates(serviceStructName, ms)[..|ms| - 1] == StubCandidates(serviceStructName, ms[..|ms| - 1]);
      NewStubs(f, receiver, serviceStructName, ms[..|ms| - 1]) +
        (if Present(f, StubFrag(serviceStructName, m)) then [] else [StubFor(receiver, serviceStructName, m)])
  }

  /** The inner loop: whether a function of the file has the name on the
      receiver type. */
  method HasMethodNamedOn(fms: seq<Method>, name: string, recvType: string) returns (present: bool)
    ensures present <==> HasMethodOn(fms, name, recvType)
  {
    var n := 0;
    while n < |fms|
      invariant 0 <= n <= |fms|
      invariant forall j :: 0 <= j < n ==> !(fms[j].name == name && fms[j].recv.typ == recvType)
    {
      if fms[n].name == name && fms[n].recv.typ == recvType {
        return true;
      }
      n := n + 1;
    }
    return false;
  }

  /** The outer loop of `generateServiceMethods`: a stub for each method
      the file does not have on the service struct. */
  method SelectStubs(f: File, receiver: string, serviceStructName: string, ms: seq<Method>)
    returns (added: seq<Fragment>, newStubs: seq<Stub>)
    ensures added == Absent(f, StubCandidates(serviceStructName, ms))
    ensures newStubs == NewStubs(f, receiver, serviceStructName, ms)
  {
    added, newStubs := [], [];
    var i := 0;
    while i < |ms|
      invariant 0 <= i <= |ms|
      invariant added == Absent(f, StubCandidates(serviceStructName, ms[..i]))
      invariant newStubs == NewStubs(f, receiver, serviceStructName, ms[..i])
    {
      var m := ms[i];
      SelectStubsSnoc(f, receiver, serviceStructName, ms, i);
      var found := HasMethodNamedOn(f.methods, m.name, "*" + serviceStructName);
      if !found {
        added := added + [StubFrag(serviceStructName, m)];
        newStubs := newStubs + [StubFor(receiver, serviceStructName, m)];
      }
      i := i + 1;
    }
    assert ms[..i] == ms;
  }

  /** One more method: its stub is added when the file lacks it. */
  lemma SelectStubsSnoc(f: File, receiver: string, ssn: string, ms: seq<Method>, i: nat)
    requires i < |ms|
    ensures var absent := !HasMethodOn(f.methods, ms[i].name, "*" + ssn);
      && Absent(f, StubCandidates(ssn, ms[..i + 1]))
         == Absent(f, StubCandidates(ssn, ms[..i])) + (if absent then [StubFrag(ssn, ms[i])] else [])
      && NewStubs(f, receiver, ssn, ms[..i + 1])
         == NewStubs(f, receiver, ssn, ms[..i]) + (if absent then [StubFor(receiver, ssn, ms[i])] else [])
  {
    assert ms[..i + 1][..i] == ms[..i];
    var c := StubCandidates(ssn, ms[..i + 1]);
    assert c[..i] == StubCandidates(ssn, ms[..i]);
  }

  /** The fragments of `Generate` are those of its four steps, in order. */
  lemma AppendFourAssoc<T>(e: seq<T>, a: seq<T>, b: seq<T>, c: seq<T>, d: seq<T>)
    ensures e + a + b + c + d == e + (a + b + c + d)
  {
    assert e + a + b + c + d == e + (a + b) + c + d == e + (a + b + c) + d;
  }

  lemma InitFragmentsParts(cf: CaseFns, f: File, ssn: string, ms: seq<Method>)
    ensures InitFragments(cf, f, ssn, ms) ==
      Absent(f, [StructFrag(ssn)]) + Absent(f, StubCandidates(ssn, ms)) +
      Absent(f, [FuncFrag(BasicConstructorName(cf, ssn))]) + Absent(f, [FuncFrag("New")])
  {
    var st := [StructFrag(ssn)];
    var sc := StubCandidates(ssn, ms);
    var bc := [FuncFrag(BasicConstructorName(cf, ssn))];
    var nc := [FuncFrag("New")];
    assert InitCandidates(cf, ssn, ms) == st + sc + bc + nc;
    AbsentAppend(f, st, sc);
    AbsentAppend(f, st + sc, bc);
    AbsentAppend(f, st + sc + bc, nc);
  }

  /** The receiver of the stubs is the name the single pass over the
      methods' parameters and results settles on, a non-empty prefix of
      the struct name in lower first camel case; none when that pass runs
      past the end of the name. */
  predicate ReceiverAsWritten(cf: CaseFns, serviceStructName: string, ms: seq<Method>, receiver: Option<string>)
    requires LowerFirstCamelDefined(cf, serviceStructName)
  {
    var scan := Generator.SampleScan(cf, serviceStructName, ParamsAndResults(ms));
    (receiver.Some? <==> scan.Some?) && (receiver.Some? ==> receiver.value == scan.value.1)
  }

  // ---------------------------------------------------------------- presence lemmas

  /** The struct is added exactly when the file has no struct of its name. */
  lemma StructEmitted(cf: CaseFns, f: File, ssn: string, ms: seq<Method>)
    ensures StructFrag(ssn) in InitFragments(cf, f, ssn, ms) <==> !HasStruct(f.structures, ssn)
  {
    AbsentMember(f, InitCandidates(cf, ssn, ms), StructFrag(ssn));
  }

  /** A stub for `m` is added exactly when no function of the file has its
      name on the receiver type `*<struct>`. */
  lemma StubEmitted(cf: CaseFns, f: File, ssn: string, ms: seq<Method>, i: nat)
    requires i < |ms|
    ensures StubFrag(ssn, ms[i]) in InitFragments(cf, f, ssn, ms) <==> !HasMethodOn(f.methods, ms[i].name, "*" + ssn)
  {
    var c := InitCandidates(cf, ssn, ms);
    assert c[1 + i] == StubFrag(ssn, ms[i]);
    AbsentMember(f, c, StubFrag(ssn, ms[i]));
  }

  /** Each constructor is added exactly when no function, whatever its
      receiver, has its name. */
  lemma ConstructorsEmitted(cf: CaseFns, f: File, ssn: string, ms: seq<Method>)
    ensures FuncFrag("New") in InitFragments(cf, f, ssn, ms) <==> !HasFunc(f.methods, "New")
    ensures FuncFrag(BasicConstructorName(cf, ssn)) in InitFragments(cf, f, ssn, ms) <==>
      !HasFunc(f.methods, BasicConstructorName(cf, ssn))
  {
    var c := InitCandidates(cf, ssn, ms);
    assert c[|c| - 1] == FuncFrag("New") && c[|c| - 2] == FuncFrag(BasicConstructorName(cf, ssn));
    AbsentMember(f, c, FuncFrag("New"));
    AbsentMember(f, c, FuncFrag(BasicConstructorName(cf, ssn)));
  }

  /** Initialising again on the file the first run produced adds nothing. */
  lemma InitIdempotent(cf: CaseFns, f: File, ssn: string, ms: seq<Method>)
    ensures InitFragments(cf, Merge(f, InitFragments(cf, f, ssn, ms)), ssn, ms) == []
  {
    AbsentIdempotent(f, InitCandidates(cf, ssn, ms));
  }

  // ================================================================ logging middleware

  /** An argument of the generated `logger.Log` call: a string literal or
      a variable. */
  datatype LogArg = Lit(text: string) | Id(ident: string)

  /** A key literal followed by the variable of the same name, for each. */
  function LogPairs(vs: seq<NamedTypeValue>): (r: seq<LogArg>)
    ensures |r| == 2 * |vs|
  {
    if |vs| == 0 then [] else LogPairs(vs[..|vs| - 1]) + [Lit(vs[|vs| - 1].name), Id(vs[|vs| - 1].name)]
  }

  /** The parameters that are not the context, in order. */
  function NonContext(ps: seq<NamedTypeValue>): (r: seq<NamedTypeValue>)
    ensures |r| <= |ps|
  {
    if |ps| == 0 then []
    else NonContext(ps[..|ps| - 1]) + (if ps[|ps| - 1].typ == ContextType then [] else [ps[|ps| - 1]])
  }

  /** The arguments of the deferred log call of `m`'s middleware. */
  function LogArgs(m: Method): seq<LogArg>
  {
    [Lit("method"), Lit(m.name)] + LogPairs(NonContext(m.params)) + LogPairs(m.results)
  }

  /** How a parameter or result type is written: through the import it is
      qualified by, or as it is. */
  datatype TypeRef = Qualified(path: string, sel: string) | Plain(text: string)

  /** Qualifying takes the second '.'-piece of the type, which must exist
      when an import qualifies it. */
  predicate Renderable(tp: string, imports: seq<NamedTypeValue>)
  {
    Generator.EnsureThatWeUseQualifierIfNeeded(tp, imports) != "" ==> |Split(tp, '.')| >= 2
  }

  function MiddlewareTypeRef(tp: string, imports: seq<NamedTypeValue>): (r: TypeRef)
    requires Renderable(tp, imports)
    ensures r.Qualified? <==> Generator.EnsureThatWeUseQualifierIfNeeded(tp, imports) != ""
    ensures r.Plain? ==> r.text == tp
  {
    var pth := Generator.EnsureThatWeUseQualifierIfNeeded(tp, imports);
    if pth != "" then Qualified(pth, Split(tp, '.')[1]) else Plain(tp)
  }

  /** Every type of the list is renderable (stated element by element, so
      that a caller proves it one element at a time). */
  predicate AllRenderable(vs: seq<NamedTypeValue>, imports: seq<NamedTypeValue>)
  {
    |vs| == 0 || (AllRenderable(vs[..|vs| - 1], imports) && Renderable(vs[|vs| - 1].typ, imports))
  }

  /** The recursive form means the quantified one. */
  lemma {:induction false} AllRenderableMeaning(vs: seq<NamedTypeValue>, imports: seq<NamedTypeValue>)
    ensures AllRenderable(vs, imports) <==> forall k :: 0 <= k < |vs| ==> Renderable(vs[k].typ, imports)
  {
    if |vs| > 0 {
      var init := vs[..|vs| - 1];
      AllRenderableMeaning(init, imports);
      assert forall k :: 0 <= k < |init| ==> init[k] == vs[k];
    }
  }

  function MiddlewareTypes(vs: seq<NamedTypeValue>, imports: seq<NamedTypeValue>): (r: seq<TypeRef>)
    requires AllRenderable(vs, imports)
    ensures |r| == |vs|
  {
    if |vs| == 0 then []
    else MiddlewareTypes(vs[..|vs| - 1], imports) + [MiddlewareTypeRef(vs[|vs| - 1].typ, imports)]
  }

  /** One logging-middleware method: its parameter and result types, the
      log call's arguments, and the arguments passed on to `next`. */
  datatype MiddlewareFunc = MiddlewareFunc(name: string, params: seq<TypeRef>, results: seq<TypeRef>,
                                           log: seq<LogArg>, next: seq<string>)

  function MiddlewareFor(m: Method, imports: seq<NamedTypeValue>): MiddlewareFunc
    requires AllRenderable(m.params, imports) && AllRenderable(m.results, imports)
  {
    MiddlewareFunc(m.name, MiddlewareTypes(m.params, imports), MiddlewareTypes(m.results, imports),
                   LogArgs(m), Generator.Names(m.params))
  }

  lemma {:induction false} RenderablePrefix(vs: seq<NamedTypeValue>, imports: seq<NamedTypeValue>, i: nat)
    requires AllRenderable(vs, imports) && i <= |vs|
    ensures AllRenderable(vs[..i], imports)
    ensures i < |vs| ==> Renderable(vs[i].typ, imports)
    decreases |vs| - i
  {
    if i == |vs| {
      assert vs[..i] == vs;
    } else if i < |vs| - 1 {
      var init := vs[..|vs| - 1];
      RenderablePrefix(init, imports, i);
      assert init[..i] == vs[..i] && init[i] == vs[i];
    }
  }

  lemma LogPairsSnoc(vs: seq<NamedTypeValue>, v: NamedTypeValue)
    ensures LogPairs(vs + [v]) == LogPairs(vs) + [Lit(v.name), Id(v.name)]
  {
    assert (vs + [v])[..|vs|] == vs;
  }

  lemma LogPairsPrefixSnoc(vs: seq<NamedTypeValue>, j: nat)
    requires j < |vs|
    ensures LogPairs(vs[..j + 1]) == LogPairs(vs[..j]) + [Lit(vs[j].name), Id(vs[j].name)]
  {
    assert vs[..j + 1][..j] == vs[..j];
  }

  lemma NonContextSnoc(ps: seq<NamedTypeValue>, i: nat)
    requires i < |ps|
    ensures ps[i].typ == ContextType ==> NonContext(ps[..i + 1]) == NonContext(ps[..i])
    ensures ps[i].typ != ContextType ==> NonContext(ps[..i + 1]) == NonContext(ps[..i]) + [ps[i]]
  {
    assert ps[..i + 1][..i] == ps[..i];
    assert NonContext(ps[..i]) + [] == NonContext(ps[..i]);
  }

  lemma NamesSnoc(vs: seq<NamedTypeValue>, i: nat)
    requires i < |vs|
    ensures Generator.Names(vs[..i + 1]) == Generator.Names(vs[..i]) + [vs[i].name]
  {
  }

  lemma MiddlewareTypesSnoc(vs: seq<NamedTypeValue>, i: nat, imports: seq<NamedTypeValue>)
    requires i < |vs| && AllRenderable(vs, imports)
    ensures AllRenderable(vs[..i], imports) && AllRenderable(vs[..i + 1], imports) && Renderable(vs[i].typ, imports)
    ensures MiddlewareTypes(vs[..i + 1], imports) == MiddlewareTypes(vs[..i], imports) + [MiddlewareTypeRef(vs[i].typ, imports)]
  {
    RenderablePrefix(vs, imports, i);
    RenderablePrefix(vs, imports, i + 1);
    assert vs[..i + 1][..i] == vs[..i];
  }

  /** The loop over one method's parameters: their types, the logged
      pairs of those that are not the context, and the names passed on. */
  method MiddlewareParams(m: Method, imports: seq<NamedTypeValue>)
    returns (params: seq<TypeRef>, loggerLog: seq<LogArg>, next: seq<string>)
    requires AllRenderable(m.params, imports)
    ensures params == MiddlewareTypes(m.params, imports)
    ensures loggerLog == LogPairs(NonContext(m.params))
    ensures next == Generator.Names(m.params)
  {
    params, loggerLog, next := [], [], [];
    var i := 0;
    while i < |m.params|
      invariant 0 <= i <= |m.params|
      invariant AllRenderable(m.params[..i], imports)
      invariant params == MiddlewareTypes(m.params[..i], imports)
      invariant loggerLog == LogPairs(NonContext(m.params[..i]))
      invariant next == Generator.Names(m.params[..i])
    {
      var p := m.params[i];
      MiddlewareTypesSnoc(m.params, i, imports);
      NonContextSnoc(m.params, i);
      NamesSnoc(m.params, i);
      params := params + [MiddlewareTypeRef(p.typ, imports)];
      next := next + [p.name];
      if p.typ != ContextType {
        LogPairsSnoc(NonContext(m.params[..i]), p);
        loggerLog := loggerLog + [Lit(p.name), Id(p.name)];
      }
      i := i + 1;
    }
    assert m.params[..i] == m.params;
  }

  /** The loop over one method's results: their types and logged pairs. */
  method MiddlewareResults(m: Method, imports: seq<NamedTypeValue>) returns (results: seq<TypeRef>, loggerLog: seq<LogArg>)
    requires AllRenderable(m.results, imports)
    ensures results == MiddlewareTypes(m.results, imports)
    ensures loggerLog == LogPairs(m.results)
  {
    results, loggerLog := [], [];
    var j := 0;
    while j < |m.results|
      invariant 0 <= j <= |m.results|
      invariant AllRenderable(m.results[..j], imports)
      invariant results == MiddlewareTypes(m.results[..j], imports)
      invariant loggerLog == LogPairs(m.results[..j])
    {
      var p := m.results[j];
      MiddlewareTypesSnoc(m.results, j, imports);
      LogPairsPrefixSnoc(m.results, j);
      results := results + [MiddlewareTypeRef(p.typ, imports)];
      loggerLog := loggerLog + [Lit(p.name), Id(p.name)];
      j := j + 1;
    }
    assert m.results[..j] == m.results;
  }

  /** One middleware method: "method" and the name head the log call. */
  method MethodMiddleware(m: Method, imports: seq<NamedTypeValue>) returns (mw: MiddlewareFunc)
    requires AllRenderable(m.params, imports) && AllRenderable(m.results, imports)
    ensures mw == MiddlewareFor(m, imports)
  {
    var params, paramLog, next := MiddlewareParams(m, imports);
    var results, resultLog := MiddlewareResults(m, imports);
    mw := MiddlewareFunc(m.name, params, results, [Lit("method"), Lit(m.name)] + paramLog + resultLog, next);
  }

  /** Every method's parameter and result types are renderable. */
  predicate MethodsRenderable(ms: seq<Method>, imports: seq<NamedTypeValue>)
  {
    |ms| == 0 ||
    (MethodsRenderable(ms[..|ms| - 1], imports) &&
     AllRenderable(ms[|ms| - 1].params, imports) && AllRenderable(ms[|ms| - 1].results, imports))
  }

  /** The middleware methods of a method list, in order. */
  function MiddlewaresFor(ms: seq<Method>, imports: seq<NamedTypeValue>): (r: seq<MiddlewareFunc>)
    requires MethodsRenderable(ms, imports)
    ensures |r| == |ms|
  {
    if |ms| == 0 then [] else MiddlewaresFor(ms[..|ms| - 1], imports) + [MiddlewareFor(ms[|ms| - 1], imports)]
  }

  lemma {:induction false} MethodsRenderablePrefix(ms: seq<Method>, imports: seq<NamedTypeValue>, i: nat)
    requires MethodsRenderable(ms, imports) && i <= |ms|
    ensures MethodsRenderable(ms[..i], imports)
    ensures i < |ms| ==> AllRenderable(ms[i].params, imports) && AllRenderable(ms[i].results, imports)
    decreases |ms| - i
  {
    if i == |ms| {
      assert ms[..i] == ms;
    } else if i < |ms| - 1 {
      var init := ms[..|ms| - 1];
      MethodsRenderablePrefix(init, imports, i);
      assert init[..i] == ms[..i] && init[i] == ms[i];
    }
  }

  /** Middleware `k` is the one of method `k`. */
  lemma {:induction false} MiddlewaresForAt(ms: seq<Method>, imports: seq<NamedTypeValue>, k: nat)
    requires MethodsRenderable(ms, imports) && k < |ms|
    ensures AllRenderable(ms[k].params, imports) && AllRenderable(ms[k].results, imports)
    ensures MiddlewaresFor(ms, imports)[k] == MiddlewareFor(ms[k], imports)
  {
    MethodsRenderablePrefix(ms, imports, k);
    if k < |ms| - 1 {
      MiddlewaresForAt(ms[..|ms| - 1], imports, k);
    }
  }

  /** The loop of `generateMethodMiddleware` over the methods. */
  method MethodMiddlewares(ms: seq<Method>, imports: seq<NamedTypeValue>) returns (mws: seq<MiddlewareFunc>)
    requires MethodsRenderable(ms, imports)
    ensures mws == MiddlewaresFor(ms, imports)
  {
    mws := [];
    var i := 0;
    while i < |ms|
      invariant 0 <= i <= |ms|
      invariant MethodsRenderable(ms[..i], imports)
      invariant mws == MiddlewaresFor(ms[..i], imports)
    {
      MiddlewaresForSnoc(ms, imports, i);
      var mw := MethodMiddleware(ms[i], imports);
      mws := mws + [mw];
      i := i + 1;
    }
    assert ms[..i] == ms;
  }

  /** One more method: one more middleware, that method's. */
  lemma MiddlewaresForSnoc(ms: seq<Method>, imports: seq<NamedTypeValue>, i: nat)
    requires MethodsRenderable(ms, imports) && i < |ms|
    ensures MethodsRenderable(ms[..i], imports) && MethodsRenderable(ms[..i + 1], imports)
    ensures AllRenderable(ms[i].params, imports) && AllRenderable(ms[i].results, imports)
    ensures MiddlewaresFor(ms[..i + 1], imports) == MiddlewaresFor(ms[..i], imports) + [MiddlewareFor(ms[i], imports)]
  {
    MethodsRenderablePrefix(ms, imports, i);
    MethodsRenderablePrefix(ms, imports, i + 1);
    assert ms[..i + 1][..i] == ms[..i];
  }

  /** `generateMethodMiddleware`: the receiver name and one middleware
      method per service method. */
  method GenerateMethodMiddleware(cf: CaseFns, ms: seq<Method>, imports: seq<NamedTypeValue>)
    returns (receiver: Option<string>, mws: seq<MiddlewareFunc>)
    requires LowerFirstCamelDefined(cf, "loggingMiddleware")
    requires MethodsRenderable(ms, imports)
    ensures ReceiverAsWritten(cf, "loggingMiddleware", ms, receiver)
    ensures mws == MiddlewaresFor(ms, imports)
  {
    var exclude := CollectParamsAndResults(ms);
    receiver := Generator.GenerateNameBySampleAsWritten(cf, "loggingMiddleware", exclude);
    mws := MethodMiddlewares(ms, imports);
  }

  // ---------------------------------------------------------------- log lemmas

  lemma {:induction false} LogPairsAt(vs: seq<NamedTypeValue>, k: nat)
    requires k < |vs|
    ensures LogPairs(vs)[2 * k] == Lit(vs[k].name) && LogPairs(vs)[2 * k + 1] == Id(vs[k].name)
  {
    if k < |vs| - 1 {
      LogPairsAt(vs[..|vs| - 1], k);
    }
  }

  lemma {:induction false} NonContextMember(ps: seq<NamedTypeValue>, p: NamedTypeValue)
    ensures p in NonContext(ps) <==> p in ps && p.typ != ContextType
  {
    if |ps| > 0 {
      NonContextMember(ps[..|ps| - 1], p);
      assert ps == ps[..|ps| - 1] + [ps[|ps| - 1]];
    }
  }

  /** The log call reads "method", the method name, then a key and the
      variable of that name for every parameter that is not the context
      and for every result, in declaration order. */
  lemma LogArgsLayout(m: Method)
    ensures var args := LogArgs(m);
      var ps := NonContext(m.params);
      |args| == 2 + 2 * |ps| + 2 * |m.results| &&
      args[0] == Lit("method") && args[1] == Lit(m.name) &&
      (forall k :: 0 <= k < |ps| ==> args[2 + 2 * k] == Lit(ps[k].name) && args[3 + 2 * k] == Id(ps[k].name)) &&
      (forall k :: 0 <= k < |m.results| ==>
         args[2 + 2 * |ps| + 2 * k] == Lit(m.results[k].name) && args[3 + 2 * |ps| + 2 * k] == Id(m.results[k].name))
  {
    var ps := NonContext(m.params);
    forall k | 0 <= k < |ps| ensures LogPairs(ps)[2 * k] == Lit(ps[k].name) && LogPairs(ps)[2 * k + 1] == Id(ps[k].name) {
      LogPairsAt(ps, k);
    }
    forall k | 0 <= k < |m.results|
      ensures LogPairs(m.results)[2 * k] == Lit(m.results[k].name) && LogPairs(m.results)[2 * k + 1] == Id(m.results[k].name)
    {
      LogPairsAt(m.results, k);
    }
  }

  /** Context parameters are never logged; every other parameter is. */
  lemma ContextNotLogged(m: Method, p: NamedTypeValue)
    requires p in m.params
    ensures p in NonContext(m.params) <==> p.typ != ContextType
  {
    NonContextMember(m.params, p);
  }

  // ================================================================ endpoint structs

  /** A struct field: its name, its type and its `json` tag. */
  datatype Field = Field(name: string, typ: TypeRef, jsonTag: string)

  /** `tp[:1]` needs a first byte when the type has no '.'. */
  predicate Exposable(tp: string)
  {
    |Split(tp, '.')| == 1 ==> |tp| >= 1
  }

  /** The service-package prefix as written: a dot-free type whose first
      byte equals its upper-case form gets `service.`. */
  function ExposedTypeAsWritten(tp: string): (r: string)
    requires Exposable(tp)
    ensures r == tp || r == "service." + tp
  {
    if |Split(tp, '.')| == 1 && tp[..1] == ToUpper(tp[..1]) then "service." + tp else tp
  }

  /** The prefix as the comment beside it describes it: only a dot-free
      type that starts with an upper-case letter is a service type. */
  function ExposedType(tp: string): (r: string)
    requires Exposable(tp)
    ensures r == tp || r == "service." + tp
  {
    if |Split(tp, '.')| == 1 && IsUpperAscii(tp[0]) then "service." + tp else tp
  }

  /** Exactly the dot-free types led by an upper-case letter get the
      prefix. */
  lemma ExposedTypeMeaning(tp: string)
    requires Exposable(tp)
    ensures ExposedType(tp) != tp <==> '.' !in tp && IsUpperAscii(tp[0])
    ensures ExposedType(tp) != tp ==> ExposedType(tp) == "service." + tp
  {
    if |Split(tp, '.')| == 1 {
      SplitWithoutSeparatorInverse(tp);
    } else if '.' !in tp {
      SplitWithoutSeparator(tp, '.');
    }
  }

  /** Exactly the dot-free types whose first byte is its own upper case
      get the prefix as written. */
  lemma ExposedTypeAsWrittenMeaning(tp: string)
    requires Exposable(tp)
    ensures ExposedTypeAsWritten(tp) != tp <==> '.' !in tp && tp[..1] == ToUpper(tp[..1])
    ensures ExposedTypeAsWritten(tp) != tp ==> ExposedTypeAsWritten(tp) == "service." + tp
  {
    if |Split(tp, '.')| == 1 {
      SplitWithoutSeparatorInverse(tp);
    } else if '.' !in tp {
      SplitWithoutSeparator(tp, '.');
    }
  }

  /** The type of an endpoint field: a qualified type is referred to
      through its import; any other type is prefixed as written. */
  function EndpointTypeRef(tp: string, imports: seq<NamedTypeValue>): (r: TypeRef)
    requires Renderable(tp, imports) && Exposable(tp)
    ensures r.Qualified? <==> Generator.EnsureThatWeUseQualifierIfNeeded(tp, imports) != ""
    ensures r.Plain? ==> r.text == ExposedTypeAsWritten(tp)
  {
    var pth := Generator.EnsureThatWeUseQualifierIfNeeded(tp, imports);
    if pth != "" then Qualified(pth, Split(tp, '.')[1]) else Plain(ExposedTypeAsWritten(tp))
  }

  /** Every type of the list can be qualified and prefixed. */
  predicate AllEndpointRenderable(vs: seq<NamedTypeValue>, imports: seq<NamedTypeValue>)
  {
    |vs| == 0 ||
    (AllEndpointRenderable(vs[..|vs| - 1], imports) &&
     Renderable(vs[|vs| - 1].typ, imports) && Exposable(vs[|vs| - 1].typ))
  }

  lemma {:induction false} EndpointRenderablePrefix(vs: seq<NamedTypeValue>, imports: seq<NamedTypeValue>, i: nat)
    requires AllEndpointRenderable(vs, imports) && i <= |vs|
    ensures AllEndpointRenderable(vs[..i], imports)
    ensures i < |vs| ==> Renderable(vs[i].typ, imports) && Exposable(vs[i].typ)
    decreases |vs| - i
  {
    if i == |vs| {
      assert vs[..i] == vs;
    } else if i < |vs| - 1 {
      var init := vs[..|vs| - 1];
      EndpointRenderablePrefix(init, imports, i);
      assert init[..i] == vs[..i] && init[i] == vs[i];
    }
  }

  /** A request field is named Camel(p); its tag is the snake case of that
      name when the type is qualified, of the parameter's name otherwise. */
  function RequestField(cf: CaseFns, p: NamedTypeValue, imports: seq<NamedTypeValue>): Field
    requires Renderable(p.typ, imports) && Exposable(p.typ)
  {
    var t := EndpointTypeRef(p.typ, imports);
    Field(ToCamelCase(cf, p.name), t,
          if t.Qualified? then ToLowerSnakeCase(cf, ToCamelCase(cf, p.name)) else ToLowerSnakeCase(cf, p.name))
  }

  function ResponseField(cf: CaseFns, p: NamedTypeValue, imports: seq<NamedTypeValue>): Field
    requires Renderable(p.typ, imports) && Exposable(p.typ)
  {
    Field(ToCamelCase(cf, p.name), EndpointTypeRef(p.typ, imports), ToLowerSnakeCase(cf, p.name))
  }

  /** The request fields: one per parameter that is not the context. */
  function RequestFields(cf: CaseFns, ps: seq<NamedTypeValue>, imports: seq<NamedTypeValue>): (r: seq<Field>)
    requires AllEndpointRenderable(ps, imports)
    ensures |r| == |NonContext(ps)|
  {
    if |ps| == 0 then []
    else
      var p := ps[|ps| - 1];
      RequestFields(cf, ps[..|ps| - 1], imports) + (if p.typ == ContextType then [] else [RequestField(cf, p, imports)])
  }

  /** The response fields: one per result. */
  function ResponseFields(cf: CaseFns, rs: seq<NamedTypeValue>, imports: seq<NamedTypeValue>): (r: seq<Field>)
    requires AllEndpointRenderable(rs, imports)
    ensures |r| == |rs|
  {
    if |rs| == 0 then [] else ResponseFields(cf, rs[..|rs| - 1], imports) + [ResponseField(cf, rs[|rs| - 1], imports)]
  }

  /** What `generateMethodEndpoint` writes for one method. */
  datatype MethodEndpoint = MethodEndpoint(requestName: string, request: seq<Field>,
                                           responseName: string, response: seq<Field>, makerName: string)

  /** The request struct `<m>Request`, the response struct `<m>Response`
      and the maker `Make<m>Endpoint`. */
  function EndpointFor(cf: CaseFns, m: Method, imports: seq<NamedTypeValue>): (ep: MethodEndpoint)
    requires AllEndpointRenderable(m.params, imports) && AllEndpointRenderable(m.results, imports)
    ensures ep.requestName == m.name + "Request" && ep.responseName == m.name + "Response"
    ensures ep.makerName == "Make" + m.name + "Endpoint"
    ensures |ep.request| == |NonContext(m.params)| && |ep.response| == |m.results|
  {
    MethodEndpoint(m.name + "Request", RequestFields(cf, m.params, imports),
                   m.name + "Response", ResponseFields(cf, m.results, imports), "Make" + m.name + "Endpoint")
  }

  lemma RequestFieldsSnoc(cf: CaseFns, ps: seq<NamedTypeValue>, imports: seq<NamedTypeValue>, i: nat)
    requires AllEndpointRenderable(ps, imports) && i < |ps|
    ensures AllEndpointRenderable(ps[..i], imports) && AllEndpointRenderable(ps[..i + 1], imports)
    ensures Renderable(ps[i].typ, imports) && Exposable(ps[i].typ)
    ensures ps[i].typ == ContextType ==> RequestFields(cf, ps[..i + 1], imports) == RequestFields(cf, ps[..i], imports)
    ensures ps[i].typ != ContextType ==>
      RequestFields(cf, ps[..i + 1], imports) == RequestFields(cf, ps[..i], imports) + [RequestField(cf, ps[i], imports)]
  {
    EndpointRenderablePrefix(ps, imports, i);
    EndpointRenderablePrefix(ps, imports, i + 1);
    assert ps[..i + 1][..i] == ps[..i];
    assert RequestFields(cf, ps[..i], imports) + [] == RequestFields(cf, ps[..i], imports);
  }

  lemma ResponseFieldsSnoc(cf: CaseFns, rs: seq<NamedTypeValue>, imports: seq<NamedTypeValue>, j: nat)
    requires AllEndpointRenderable(rs, imports) && j < |rs|
    ensures AllEndpointRenderable(rs[..j], imports) && AllEndpointRenderable(rs[..j + 1], imports)
    ensures Renderable(rs[j].typ, imports) && Exposable(rs[j].typ)
    ensures ResponseFields(cf, rs[..j + 1], imports) == ResponseFields(cf, rs[..j], imports) + [ResponseField(cf, rs[j], imports)]
  {
    EndpointRenderablePrefix(rs, imports, j);
    EndpointRenderablePrefix(rs, imports, j + 1);
    assert rs[..j + 1][..j] == rs[..j];
  }

  /** The loop over the parameters of `generateMethodEndpoint`. */
  method RequestFieldsOf(cf: CaseFns, ps: seq<NamedTypeValue>, imports: seq<NamedTypeValue>) returns (reqFields: seq<Field>)
    requires AllEndpointRenderable(ps, imports)
    ensures reqFields == RequestFields(cf, ps, imports)
  {
    reqFields := [];
    var i := 0;
    while i < |ps|
      invariant 0 <= i <= |ps|
      invariant AllEndpointRenderable(ps[..i], imports)
      invariant reqFields == RequestFields(cf, ps[..i], imports)
    {
      var p := ps[i];
      RequestFieldsSnoc(cf, ps, imports, i);
      i := i + 1;
      if p.typ == ContextType {
        continue;
      }
      reqFields := reqFields + [RequestField(cf, p, imports)];
    }
    assert ps[..i] == ps;
  }

  /** The loop over the results of `generateMethodEndpoint`. */
  method ResponseFieldsOf(cf: CaseFns, rs: seq<NamedTypeValue>, imports: seq<NamedTypeValue>) returns (resFields: seq<Field>)
    requires AllEndpointRenderable(rs, imports)
    ensures resFields == ResponseFields(cf, rs, imports)
  {
    resFields := [];
    var j := 0;
    while j < |rs|
      invariant 0 <= j <= |rs|
      invariant AllEndpointRenderable(rs[..j], imports)
      invariant resFields == ResponseFields(cf, rs[..j], imports)
    {
      ResponseFieldsSnoc(cf, rs, imports, j);
      resFields := resFields + [ResponseField(cf, rs[j], imports)];
      j := j + 1;
    }
    assert rs[..j] == rs;
  }

  /** Every method's parameter and result types can be written into the
      endpoint structs. */
  predicate MethodsEndpointRenderable(ms: seq<Method>, imports: seq<NamedTypeValue>)
  {
    |ms| == 0 ||
    (MethodsEndpointRenderable(ms[..|ms| - 1], imports) &&
     AllEndpointRenderable(ms[|ms| - 1].params, imports) && AllEndpointRenderable(ms[|ms| - 1].results, imports))
  }

  function EndpointsFor(cf: CaseFns, ms: seq<Method>, imports: seq<NamedTypeValue>): (r: seq<MethodEndpoint>)
    requires MethodsEndpointRenderable(ms, imports)
    ensures |r| == |ms|
  {
    if |ms| == 0 then [] else EndpointsFor(cf, ms[..|ms| - 1], imports) + [EndpointFor(cf, ms[|ms| - 1], imports)]
  }

  lemma {:induction false} MethodsEndpointRenderablePrefix(ms: seq<Method>, imports: seq<NamedTypeValue>, i: nat)
    requires MethodsEndpointRenderable(ms, imports) && i <= |ms|
    ensures MethodsEndpointRenderable(ms[..i], imports)
    ensures i < |ms| ==> AllEndpointRenderable(ms[i].params, imports) && AllEndpointRenderable(ms[i].results, imports)
    decreases |ms| - i
  {
    if i == |ms| {
      assert ms[..i] == ms;
    } else if i < |ms| - 1 {
      var init := ms[..|ms| - 1];
      MethodsEndpointRenderablePrefix(init, imports, i);
      assert init[..i] == ms[..i] && init[i] == ms[i];
    }
  }

  /** Endpoint `k` is the one of method `k`. */
  lemma {:induction false} EndpointsForAt(cf: CaseFns, ms: seq<Method>, imports: seq<NamedTypeValue>, k: nat)
    requires MethodsEndpointRenderable(ms, imports) && k < |ms|
    ensures AllEndpointRenderable(ms[k].params, imports) && AllEndpointRenderable(ms[k].results, imports)
    ensures EndpointsFor(cf, ms, imports)[k] == EndpointFor(cf, ms[k], imports)
  {
    MethodsEndpointRenderablePrefix(ms, imports, k);
    if k < |ms| - 1 {
      EndpointsForAt(cf, ms[..|ms| - 1], imports, k);
    }
  }

  /** `generateMethodEndpoint`: the structs and the maker of each method. */
  method GenerateMethodEndpoint(cf: CaseFns, ms: seq<Method>, imports: seq<NamedTypeValue>) returns (eps: seq<MethodEndpoint>)
    requires MethodsEndpointRenderable(ms, imports)
    ensures eps == EndpointsFor(cf, ms, imports)
  {
    eps := [];
    var i := 0;
    while i < |ms|
      invariant 0 <= i <= |ms|
      invariant MethodsEndpointRenderable(ms[..i], imports)
      invariant eps == EndpointsFor(cf, ms[..i], imports)
    {
      EndpointsForSnoc(cf, ms, imports, i);
      var m := ms[i];
      var reqFields := RequestFieldsOf(cf, m.params, imports);
      var resFields := ResponseFieldsOf(cf, m.results, imports);
      eps := eps + [MethodEndpoint(m.name + "Request", reqFields, m.name + "Response", resFields, "Make" + m.name + "Endpoint")];
      i := i + 1;
    }
    assert ms[..i] == ms;
  }

  /** One more method: one more endpoint, that method's. */
  lemma EndpointsForSnoc(cf: CaseFns, ms: seq<Method>, imports: seq<NamedTypeValue>, i: nat)
    requires MethodsEndpointRenderable(ms, imports) && i < |ms|
    ensures MethodsEndpointRenderable(ms[..i], imports) && MethodsEndpointRenderable(ms[..i + 1], imports)
    ensures AllEndpointRenderable(ms[i].params, imports) && AllEndpointRenderable(ms[i].results, imports)
    ensures EndpointsFor(cf, ms[..i + 1], imports) == EndpointsFor(cf, ms[..i], imports) + [EndpointFor(cf, ms[i], imports)]
  {
    MethodsEndpointRenderablePrefix(ms, imports, i);
    MethodsEndpointRenderablePrefix(ms, imports, i + 1);
    assert ms[..i + 1][..i] == ms[..i];
  }

  // ---------------------------------------------------------------- endpoint lemmas

  lemma EndpointRenderableMember(vs: seq<NamedTypeValue>, imports: seq<NamedTypeValue>, p: NamedTypeValue)
    requires AllEndpointRenderable(vs, imports) && p in vs
    ensures Renderable(p.typ, imports) && Exposable(p.typ)
  {
    var i :| 0 <= i < |vs| && vs[i] == p;
    EndpointRenderablePrefix(vs, imports, i);
  }

  /** Request field `k` is the field of the `k`-th parameter that is not
      the context. */
  lemma {:induction false} RequestFieldsSkipContext(cf: CaseFns, ps: seq<NamedTypeValue>, imports: seq<NamedTypeValue>, k: nat)
    requires AllEndpointRenderable(ps, imports)
    requires k < |NonContext(ps)|
    ensures NonContext(ps)[k] in ps && NonContext(ps)[k].typ != ContextType
    ensures Renderable(NonContext(ps)[k].typ, imports) && Exposable(NonContext(ps)[k].typ)
    ensures RequestFields(cf, ps, imports)[k] == RequestField(cf, NonContext(ps)[k], imports)
  {
    NonContextMember(ps, NonContext(ps)[k]);
    EndpointRenderableMember(ps, imports, NonContext(ps)[k]);
    var init := ps[..|ps| - 1];
    if k < |NonContext(init)| {
      RequestFieldsSkipContext(cf, init, imports, k);
    }
  }

  /** Response field `k` is named after result `k` and tagged with the
      snake case of the result's name. */
  lemma {:induction false} ResponseFieldsPerResult(cf: CaseFns, rs: seq<NamedTypeValue>, imports: seq<NamedTypeValue>, k: nat)
    requires AllEndpointRenderable(rs, imports)
    requires k < |rs|
    ensures ResponseFields(cf, rs, imports)[k].name == ToCamelCase(cf, rs[k].name)
    ensures ResponseFields(cf, rs, imports)[k].jsonTag == ToLowerSnakeCase(cf, rs[k].name)
  {
    if k < |rs| - 1 {
      ResponseFieldsPerResult(cf, rs[..|rs| - 1], imports, k);
    }
  }

  lemma {:induction false} SplitWithoutSeparatorInverse(tp: string)
    requires |Split(tp, '.')| == 1
    ensures '.' !in tp
    decreases |tp|
  {
    if |tp| > 0 {
      assert tp[0] != '.';
      var rest := Split(tp[1..], '.');
      assert |rest| == 1;
      SplitWithoutSeparatorInverse(tp[1..]);
      assert tp == [tp[0]] + tp[1..];
    }
  }

  /** generator/init_service.go: a parameter of a slice type such as
      `[]string` becomes a request field of type `service.[]string`: `[` is
      its own upper case. */
  lemma ExposedTypeOfSlice(elem: string)
    requires '.' !in elem
    ensures ExposedTypeAsWritten("[]" + elem) == "service.[]" + elem
    ensures ExposedType("[]" + elem) == "[]" + elem
  {
    var tp := "[]" + elem;
    assert '.' !in tp;
    SplitWithoutSeparator(tp, '.');
    assert tp[..1] == "[";
    assert ToUpper(tp[..1]) == "[";
  }

  /** The two versions agree on every type that starts with a letter. */
  lemma ExposedTypeAgreesOnLetters(tp: string)
    requires |tp| >= 1 && (IsUpperAscii(tp[0]) || IsLowerAscii(tp[0]))
    ensures ExposedTypeAsWritten(tp) == ExposedType(tp)
  {
    assert ToUpper(tp[..1]) == [Upper(tp[0])];
  }
}
