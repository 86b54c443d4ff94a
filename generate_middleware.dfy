/** generator/generate_middleware.go: `kit generate middleware`. After
    the opening steps (without the transport check and without rejecting
    a service left with no methods) the command adds either a service
    middleware (a struct and its constructor) or an endpoint middleware
    function. The endpoint middleware is looked for in the endpoint
    middleware file it is written to. The service middleware is looked
    for in the service file, but appended to the service middleware
    file. */
module MiddlewareGen {
  import opened Wrappers
  import opened GoStrings
  import opened Utils
  import opened Src
  import opened MethodSet
  import opened GenGuard
  import opened Fragments
  import Parser

  /** The struct the service middleware is written as. */
  function MiddlewareStructName(cf: CaseFns, name: string): string
    requires LowerFirstCamelDefined(cf, name)
  {
    ToLowerFirstCamelCase(cf, name) + "Middleware"
  }

  /** The constructor of a service middleware and the endpoint middleware
      function share this name. */
  function MiddlewareFuncName(cf: CaseFns, name: string): string
  {
    ToCamelCase(cf, name) + "Middleware"
  }

  /** The presence checks of `generateServiceMiddleware` as written: the
      struct is looked for as `name + "Middleware"` but written as
      `lowerFirstCamel(name) + "Middleware"`. */
  function ServiceMiddlewareFragmentsAsWritten(cf: CaseFns, f: File, name: string): seq<Fragment>
    requires LowerFirstCamelDefined(cf, name)
  {
    (if HasStruct(f.structures, name + "Middleware") then [] else [StructFrag(MiddlewareStructName(cf, name))]) +
    Absent(f, [FuncFrag(MiddlewareFuncName(cf, name))])
  }

  /** The presence checks as intended: each declaration is looked for
      under the name it is written with. */
  function ServiceMiddlewareFragments(cf: CaseFns, f: File, name: string): seq<Fragment>
    requires LowerFirstCamelDefined(cf, name)
  {
    Absent(f, [StructFrag(MiddlewareStructName(cf, name)), FuncFrag(MiddlewareFuncName(cf, name))])
  }

  /** `generateEndpointMiddleware`'s presence check. */
  function EndpointMiddlewareFragments(cf: CaseFns, f: File, name: string): seq<Fragment>
  {
    Absent(f, [FuncFrag(MiddlewareFuncName(cf, name))])
  }

  /** The struct loop: whether some struct has the name (the loop does not
      stop at the first match). */
  method StructNamed(ss: seq<Struct>, n: string) returns (found: bool)
    ensures found <==> HasStruct(ss, n)
  {
    found := false;
    var k := 0;
    while k < |ss|
      invariant 0 <= k <= |ss|
      invariant found <==> exists j :: 0 <= j < k && ss[j].name == n
    {
      if ss[k].name == n {
        found := true;
      }
      k := k + 1;
    }
  }

  /** The function loop: whether some function, whatever its receiver, has
      the name. */
  method FuncNamed(ms: seq<Method>, n: string) returns (found: bool)
    ensures found <==> HasFunc(ms, n)
  {
    found := false;
    var k := 0;
    while k < |ms|
      invariant 0 <= k <= |ms|
      invariant !found
      invariant forall j :: 0 <= j < k ==> ms[j].name != n
    {
      if ms[k].name == n {
        found := true;
        return;
      }
      k := k + 1;
    }
  }

  /** The `GenerateMiddleware` generator. `file` is the service file,
      `endpointFile` the endpoint middleware file once read,
      `middlewareFile` the service middleware file as it reads back after
      the append, and `emitted` what has been added, by identity. */
  class GenerateMiddleware {
    const name: string
    const serviceName: string
    const interfaceName: string
    const isEndpointMiddleware: bool
    var file: File
    var serviceInterface: Interface
    var endpointFile: File
    var middlewareFile: File
    var emitted: seq<Fragment>

    constructor (cf: CaseFns, name: string, serviceName: string, ep: bool)
      ensures this.name == name && this.serviceName == serviceName && isEndpointMiddleware == ep
      ensures interfaceName == ToCamelCase(cf, serviceName + "Service")
      ensures file == NewFile() && endpointFile == NewFile() && middlewareFile == NewFile()
      ensures serviceInterface == NewInterface("", [])
      ensures emitted == []
    {
      this.name := name;
      this.serviceName := serviceName;
      isEndpointMiddleware := ep;
      interfaceName := ToCamelCase(cf, serviceName + "Service");
      file := NewFile();
      endpointFile := NewFile();
      middlewareFile := NewFile();
      serviceInterface := NewInterface("", []);
      emitted := [];
    }

    method ServiceFound() returns (found: bool)
      modifies this
      ensures file == old(file) && endpointFile == old(endpointFile) && emitted == old(emitted)
      ensures middlewareFile == old(middlewareFile)
      ensures found <==> FindInterface(file.interfaces, interfaceName).Some?
      ensures found ==> serviceInterface == FindInterface(file.interfaces, interfaceName).value
      ensures !found ==> serviceInterface == old(serviceInterface)
    {
      var r := SearchInterface(file.interfaces, interfaceName);
      if r.Some? {
        serviceInterface := r.value;
        return true;
      }
      return false;
    }

    /** This copy of `removeBadMethods` has no allow-list. */
    method RemoveBadMethods()
      requires NamedMethods(serviceInterface.methods)
      modifies this
      ensures file == old(file) && endpointFile == old(endpointFile) && emitted == old(emitted)
      ensures middlewareFile == old(middlewareFile)
      ensures serviceInterface == old(serviceInterface).(methods := KeptMethods([], old(serviceInterface).methods))
    {
      var keep := FilterMethods([], serviceInterface.methods);
      serviceInterface := serviceInterface.(methods := keep);
    }

    /** The opening steps: the service file must exist and parse, and have
      the interface; an interface left without methods goes on. */
    method OpeningSteps(cf: CaseFns, src: ServiceSource) returns (o: Outcome)
      requires SourceOk(cf, src)
      modifies this
      ensures o == GuardSpec(cf, false, "", false, [], interfaceName, src)
      ensures o.Ready? ==> file == o.file && serviceInterface == o.service
      ensures endpointFile == old(endpointFile) && middlewareFile == old(middlewareFile) && emitted == old(emitted)
    {
      if src.present.Failure? {
        return FsError(src.present.error);
      }
      if !src.present.value {
        return ServiceMissing;
      }
      if src.contents.Failure? {
        return FsError(src.contents.error);
      }
      if src.contents.value.SyntaxError? {
        return NilFilePanic;
      }
      var parsed := Parser.Parse(cf, src.contents.value);
      file := parsed.value;
      var found := ServiceFound();
      if !found {
        return InterfaceMissing;
      }
      assert WellNamed(file);
      RemoveBadMethods();
      return Ready(file, serviceInterface);
    }

    /** `generateServiceMiddleware`: both presence checks read the service
        file, the struct under `name + "Middleware"`; what they select is
        appended to the service middleware file `mw`, and the service file
        is not written. The steps around the checks (the service generator's
        own run, reading, parsing, completing imports, formatting, writing)
        are taken to succeed, and the `generateFirstTime` branch to be off. */
    method GenerateServiceMiddleware(cf: CaseFns, mw: File)
      requires LowerFirstCamelDefined(cf, name)
      modifies this
      ensures file == old(file) && serviceInterface == old(serviceInterface) && endpointFile == old(endpointFile)
      ensures emitted == old(emitted) + ServiceMiddlewareFragmentsAsWritten(cf, file, name)
      ensures middlewareFile == Merge(mw, ServiceMiddlewareFragmentsAsWritten(cf, file, name))
    {
      var added: seq<Fragment> := [];
      var structFound := StructNamed(file.structures, name + "Middleware");
      var mdwStructName := ToLowerFirstCamelCase(cf, name) + "Middleware";
      if !structFound {
        added := added + [StructFrag(mdwStructName)];
      }
      var funcName := ToCamelCase(cf, name) + "Middleware";
      var mthdFound := FuncNamed(file.methods, funcName);
      if !mthdFound {
        added := added + [FuncFrag(funcName)];
      }
      assert [FuncFrag(funcName)][..0] == [];
      assert added == ServiceMiddlewareFragmentsAsWritten(cf, file, name);
      emitted := emitted + added;
      middlewareFile := Merge(mw, added);
    }

    /** `generateEndpointMiddleware`: reads (after creating it empty, when
        it is missing) and parses the endpoint middleware file, whose
        errors are returned, then checks for the function. */
    method GenerateEndpointMiddleware(cf: CaseFns, ep: ServiceSource) returns (err: Option<string>)
      requires SourceOk(cf, ep)
      modifies this
      ensures file == old(file) && serviceInterface == old(serviceInterface) && middlewareFile == old(middlewareFile)
      ensures ep.present.Failure? ==> err == Some(ep.present.error) && emitted == old(emitted)
      ensures ep.present.Success? && ep.contents.Failure? ==> err == Some(ep.contents.error) && emitted == old(emitted)
      ensures ep.present.Success? && ep.contents.Success? && ep.contents.value.SyntaxError? ==>
        err == Some(ep.contents.value.msg) && emitted == old(emitted)
      ensures ep.present.Success? && ep.contents.Success? && ep.contents.value.ParsedFile? ==>
        err == None && endpointFile == Parser.ParseSpec(cf, ep.contents.value).value &&
        emitted == old(emitted) + EndpointMiddlewareFragments(cf, endpointFile, name)
    {
      if ep.present.Failure? {
        return Some(ep.present.error);
      }
      if ep.contents.Failure? {
        return Some(ep.contents.error);
      }
      var parsed := Parser.Parse(cf, ep.contents.value);
      if parsed.Failure? {
        return Some(parsed.error);
      }
      endpointFile := parsed.value;
      var funcName := ToCamelCase(cf, name) + "Middleware";
      var middlewareFound := FuncNamed(endpointFile.methods, funcName);
      if !middlewareFound {
        emitted := emitted + [FuncFrag(funcName)];
      }
      assert [FuncFrag(funcName)][..0] == [];
      return None;
    }

    /** `Generate`: the opening steps, then the endpoint or the service
        middleware; `mw` is the service middleware file the service
        middleware is appended to. */
    method Generate(cf: CaseFns, src: ServiceSource, ep: ServiceSource, mw: File) returns (o: Outcome, err: Option<string>)
      requires SourceOk(cf, src) && SourceOk(cf, ep)
      requires LowerFirstCamelDefined(cf, name)
      modifies this
      ensures o == GuardSpec(cf, false, "", false, [], interfaceName, src)
      ensures !o.Ready? ==> err == ReturnedError(o) && emitted == old(emitted)
      ensures o.Ready? && !isEndpointMiddleware ==>
        err == None && emitted == old(emitted) + ServiceMiddlewareFragmentsAsWritten(cf, file, name) &&
        middlewareFile == Merge(mw, ServiceMiddlewareFragmentsAsWritten(cf, file, name))
      ensures o.Ready? && isEndpointMiddleware && err.None? ==>
        ep.contents.Success? && ep.contents.value.ParsedFile? &&
        emitted == old(emitted) + EndpointMiddlewareFragments(cf, endpointFile, name)
      ensures o.Ready? && isEndpointMiddleware && err.Some? ==> emitted == old(emitted)
    {
      o := OpeningSteps(cf, src);
      if !o.Ready? {
        return o, ReturnedError(o);
      }
      if isEndpointMiddleware {
        err := GenerateEndpointMiddleware(cf, ep);
        return o, err;
      }
      GenerateServiceMiddleware(cf, mw);
      return o, None;
    }
  }

  // ---------------------------------------------------------------- lemmas

  /** As written, the struct is emitted exactly when the service file has
      no struct named `name + "Middleware"`, and the constructor exactly
      when it has no function of the constructor's name. */
  lemma ServiceMiddlewareEmitted(cf: CaseFns, f: File, name: string)
    requires LowerFirstCamelDefined(cf, name)
    ensures StructFrag(MiddlewareStructName(cf, name)) in ServiceMiddlewareFragmentsAsWritten(cf, f, name) <==>
      !HasStruct(f.structures, name + "Middleware")
    ensures FuncFrag(MiddlewareFuncName(cf, name)) in ServiceMiddlewareFragmentsAsWritten(cf, f, name) <==>
      !HasFunc(f.methods, MiddlewareFuncName(cf, name))
  {
    var fc := [FuncFrag(MiddlewareFuncName(cf, name))];
    AbsentMember(f, fc, fc[0]);
  }

  /** As written, a second run appends the same declarations to the
      service middleware file again: the service file it checks is not the
      file the first run wrote, so whatever that check found missing is
      declared twice, whatever the middleware's name. */
  lemma ServiceMiddlewareRepeats(cf: CaseFns, f: File, mw: File, name: string)
    requires LowerFirstCamelDefined(cf, name)
    ensures var frs := ServiceMiddlewareFragmentsAsWritten(cf, f, name);
      var twice := Merge(Merge(mw, frs), frs);
      var st := NewStruct(MiddlewareStructName(cf, name), []);
      var fn := NewMethod(MiddlewareFuncName(cf, name), NoReceiver, "", [], []);
      (!HasStruct(f.structures, name + "Middleware") ==> twice.structures == mw.structures + [st, st]) &&
      (HasStruct(f.structures, name + "Middleware") ==> twice.structures == mw.structures) &&
      (!HasFunc(f.methods, MiddlewareFuncName(cf, name)) ==> twice.methods == mw.methods + [fn, fn]) &&
      (HasFunc(f.methods, MiddlewareFuncName(cf, name)) ==> twice.methods == mw.methods)
  {
    var sn, fnm := MiddlewareStructName(cf, name), MiddlewareFuncName(cf, name);
    var frs := ServiceMiddlewareFragmentsAsWritten(cf, f, name);
    assert [FuncFrag(fnm)][..0] == [];
    var ss := if HasStruct(f.structures, name + "Middleware") then [] else [StructFrag(sn)];
    var fs := if HasFunc(f.methods, fnm) then [] else [FuncFrag(fnm)];
    assert frs == ss + fs;
    MergedTwice(mw, ss, fs);
  }

  /** Merging a selection of at most one struct and one function twice. */
  lemma MergedTwice(mw: File, ss: seq<Fragment>, fs: seq<Fragment>)
    requires |ss| <= 1 && (|ss| == 1 ==> ss[0].StructFrag?)
    requires |fs| <= 1 && (|fs| == 1 ==> fs[0].FuncFrag?)
    ensures var twice := Merge(Merge(mw, ss + fs), ss + fs);
      twice.structures == mw.structures + (if |ss| == 1 then [NewStruct(ss[0].name, []), NewStruct(ss[0].name, [])] else []) &&
      twice.methods == mw.methods +
        (if |fs| == 1 then [NewMethod(fs[0].name, NoReceiver, "", [], []), NewMethod(fs[0].name, NoReceiver, "", [], [])] else [])
  {
    FragmentsOfSelection(ss, fs);
  }

  /** The declarations the service middleware selection reads back as. */
  lemma FragmentsOfSelection(ss: seq<Fragment>, fs: seq<Fragment>)
    requires |ss| <= 1 && (|ss| == 1 ==> ss[0].StructFrag?)
    requires |fs| <= 1 && (|fs| == 1 ==> fs[0].FuncFrag?)
    ensures FragmentStructs(ss + fs) == if |ss| == 1 then [NewStruct(ss[0].name, [])] else []
    ensures FragmentMethods(ss + fs) == if |fs| == 1 then [NewMethod(fs[0].name, NoReceiver, "", [], [])] else []
  {
    if |fs| == 1 {
      assert (ss + fs)[..|ss + fs| - 1] == ss;
    } else {
      assert ss + fs == ss;
    }
    if |ss| == 1 {
      assert ss[..0] == [];
    }
  }

  /** Corrected: checking the service middleware file, the file the
      declarations are appended to, under the names they are written with,
      emits each of them iff that file lacks it, and a second run emits
      nothing. */
  lemma ServiceMiddlewareIdempotent(cf: CaseFns, mw: File, name: string)
    requires LowerFirstCamelDefined(cf, name)
    ensures StructFrag(MiddlewareStructName(cf, name)) in ServiceMiddlewareFragments(cf, mw, name) <==>
      !HasStruct(mw.structures, MiddlewareStructName(cf, name))
    ensures FuncFrag(MiddlewareFuncName(cf, name)) in ServiceMiddlewareFragments(cf, mw, name) <==>
      !HasFunc(mw.methods, MiddlewareFuncName(cf, name))
    ensures ServiceMiddlewareFragments(cf, Merge(mw, ServiceMiddlewareFragments(cf, mw, name)), name) == []
  {
    var c := [StructFrag(MiddlewareStructName(cf, name)), FuncFrag(MiddlewareFuncName(cf, name))];
    AbsentMember(mw, c, c[0]);
    AbsentMember(mw, c, c[1]);
    AbsentIdempotent(mw, c);
  }

  lemma EndpointMiddlewareIdempotent(cf: CaseFns, f: File, name: string)
    ensures EndpointMiddlewareFragments(cf, Merge(f, EndpointMiddlewareFragments(cf, f, name)), name) == []
    ensures FuncFrag(MiddlewareFuncName(cf, name)) in EndpointMiddlewareFragments(cf, f, name) <==>
      !HasFunc(f.methods, MiddlewareFuncName(cf, name))
  {
    AbsentIdempotent(f, [FuncFrag(MiddlewareFuncName(cf, name))]);
    AbsentMember(f, [FuncFrag(MiddlewareFuncName(cf, name))], FuncFrag(MiddlewareFuncName(cf, name)));
  }

  /** The name check as written misses the struct even in a file that
      holds it: for a middleware whose name starts with an upper-case
      letter, the struct written, led by the lower-case letter, is not the
      one looked for, so merging it into the file checked does not stop it
      from being emitted again. */
  lemma AsWrittenRepeatsStruct(cf: CaseFns, f: File, name: string)
    requires LowerFirstCamelDefined(cf, name) && IsUpperAscii(name[0])
    requires !HasStruct(f.structures, name + "Middleware")
    ensures var first := ServiceMiddlewareFragmentsAsWritten(cf, f, name);
      StructFrag(MiddlewareStructName(cf, name)) in first &&
      StructFrag(MiddlewareStructName(cf, name)) in ServiceMiddlewareFragmentsAsWritten(cf, Merge(f, first), name)
  {
    var first := ServiceMiddlewareFragmentsAsWritten(cf, f, name);
    var sn := MiddlewareStructName(cf, name);
    assert first[0] == StructFrag(sn);
    var g := Merge(f, first);
    assert sn[0] != (name + "Middleware")[0];
    var added := FragmentStructs(first);
    forall k | 0 <= k < |added| ensures added[k].name != name + "Middleware" {
      AddedStructNames(first, sn, k);
    }
    HasStructAppend(f.structures, added, name + "Middleware");
    assert !HasStruct(g.structures, name + "Middleware");
  }

  /** The structs a selection of middleware fragments reads back as carry
      the one struct name it can hold. */
  lemma {:induction false} AddedStructNames(frs: seq<Fragment>, sn: string, k: nat)
    requires forall j :: 0 <= j < |frs| ==> frs[j].StructFrag? ==> frs[j].name == sn
    requires k < |FragmentStructs(frs)|
    ensures FragmentStructs(frs)[k].name == sn
  {
    var init := frs[..|frs| - 1];
    if k < |FragmentStructs(init)| {
      AddedStructNames(init, sn, k);
    }
  }

  /** For a name that starts with a lower-case letter and that the camel
      case conversion keeps, the check as written is the intended one. */
  lemma AsWrittenAgreesOnLowerCamelNames(cf: CaseFns, f: File, name: string)
    requires LowerFirstCamelDefined(cf, name) && ToLowerFirstCamelCase(cf, name) == name
    ensures ServiceMiddlewareFragmentsAsWritten(cf, f, name) == ServiceMiddlewareFragments(cf, f, name)
  {
    var c := [StructFrag(MiddlewareStructName(cf, name)), FuncFrag(MiddlewareFuncName(cf, name))];
    AbsentAppend(f, [c[0]], [c[1]]);
    assert [c[0]] + [c[1]] == c;
    assert [c[0]][..0] == [];
  }
}
