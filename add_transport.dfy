/** generator/add_transport.go: `kit generate transport`. The command
    runs the common opening steps on the service file, then adds to the
    HTTP transport file the handler, decoder and encoder of every service
    method the file does not have yet (and the error helpers when some
    method returns an error), or merges the gRPC service, its RPCs and
    their messages into the `.proto` definition. */
module AddTransport {
  import opened Wrappers
  import opened GoStrings
  import opened Utils
  import opened Src
  import opened MethodSet
  import opened GenGuard
  import opened Fragments
  import Parser

  // ================================================================ the command

  /** The `GenerateTransport` generator. `methods` is the `--methods`
      allow-list; `file` and `serviceInterface` are filled in by `Generate`. */
  class GenerateTransport {
    const name: string
    const transport: string
    const interfaceName: string
    const methods: seq<string>
    var file: File
    var serviceInterface: Interface

    constructor (cf: CaseFns, name: string, transport: string, methods: seq<string>)
      ensures this.name == name && this.transport == transport && this.methods == methods
      ensures interfaceName == ToCamelCase(cf, name + "Service")
      ensures file == NewFile() && serviceInterface == NewInterface("", [])
    {
      this.name := name;
      this.transport := transport;
      this.methods := methods;
      interfaceName := ToCamelCase(cf, name + "Service");
      file := NewFile();
      serviceInterface := NewInterface("", []);
    }

    /** `serviceFound`: remembers the first interface named after the
        service. */
    method ServiceFound() returns (found: bool)
      modifies this
      ensures file == old(file)
      ensures found <==> FindInterface(file.interfaces, interfaceName).Some?
      ensures found ==> serviceInterface == FindInterface(file.interfaces, interfaceName).value
      ensures !found ==> serviceInterface == old(serviceInterface)
    {
      var r := SearchInterface(file.interfaces, interfaceName);
      if r.Some? {
        serviceInterface := r.value;
        return true;
      }
      return false;
    }

    /** `removeBadMethods`: narrows the interface to the kept methods. */
    method RemoveBadMethods()
      requires NamedMethods(serviceInterface.methods)
      modifies this
      ensures file == old(file)
      ensures serviceInterface == old(serviceInterface).(methods := KeptMethods(methods, old(serviceInterface).methods))
    {
      var keep := FilterMethods(methods, serviceInterface.methods);
      serviceInterface := serviceInterface.(methods := keep);
    }

    /** The opening steps of `Generate`, up to the choice of transport. */
    method Generate(cf: CaseFns, src: ServiceSource) returns (o: Outcome)
      requires SourceOk(cf, src)
      modifies this
      ensures o == GuardSpec(cf, true, transport, true, methods, interfaceName, src)
      ensures o.Ready? ==> file == o.file && serviceInterface == o.service
    {
      var supported := CheckTransport(transport);
      if !supported {
        return Unsupported;
      }
      if src.present.Failure? {
        return FsError(src.present.error);
      }
      if !src.present.value {
        return ServiceMissing;
      }
      if src.contents.Failure? {
        return FsError(src.contents.error);
      }
      if src.contents.value.SyntaxError? {
        return NilFilePanic;
      }
      var parsed := Parser.Parse(cf, src.contents.value);
      file := parsed.value;
      var found := ServiceFound();
      if !found {
        return InterfaceMissing;
      }
      assert WellNamed(file);
      RemoveBadMethods();
      if |serviceInterface.methods| == 0 {
        return NoSuitableMethods;
      }
      return Ready(file, serviceInterface);
    }
  }

  /** Where `Generate` goes once the opening steps succeed: the HTTP
      generators, the gRPC proto generator, or only a warning. */
  datatype TransportTarget = HttpTarget | GrpcTarget | NotImplemented

  function Dispatch(transport: string): (t: TransportTarget)
    ensures t == HttpTarget <==> transport == "http"
    ensures t == GrpcTarget <==> transport == "grpc"
  {
    if transport == "http" then HttpTarget
    else if transport == "grpc" then GrpcTarget
    else NotImplemented
  }

  /** Among the supported transports only thrift has no generator. */
  lemma ThriftNotImplemented(transport: string)
    requires transport in SupportedTransports
    ensures Dispatch(transport) == NotImplemented <==> transport == "thrift"
  {
  }

  // ================================================================ HTTP transport

  function HandlerName(m: Method): string { "make" + m.name + "Handler" }
  function DecoderName(m: Method): string { "decode" + m.name + "Request" }
  function EncoderName(m: Method): string { "encode" + m.name + "Response" }

  /** The three functions the HTTP transport has for each method. */
  function MethodTrio(m: Method): seq<Fragment>
  {
    [FuncFrag(HandlerName(m)), FuncFrag(DecoderName(m)), FuncFrag(EncoderName(m))]
  }

  function MethodCandidates(ms: seq<Method>): (r: seq<Fragment>)
    ensures |r| == 3 * |ms|
  {
    if |ms| == 0 then [] else MethodCandidates(ms[..|ms| - 1]) + MethodTrio(ms[|ms| - 1])
  }

  /** The helpers a method returning an error needs, in emission order. */
  const ErrorHelpers: seq<Fragment> :=
    [FuncFrag("ErrorEncoder"), FuncFrag("ErrorDecoder"), FuncFrag("err2code"), StructFrag("errorWrapper")]

  predicate ReturnsError(m: Method)
  {
    exists j :: 0 <= j < |m.results| && m.results[j].typ == "error"
  }

  predicate AnyReturnsError(ms: seq<Method>)
  {
    exists i :: 0 <= i < |ms| && ReturnsError(ms[i])
  }

  /** Everything the HTTP transport file should have for the methods. */
  function HttpCandidates(ms: seq<Method>): seq<Fragment>
  {
    MethodCandidates(ms) + (if AnyReturnsError(ms) then ErrorHelpers else [])
  }

  /** What `generateHttpTransport.Generate` emits into a file. */
  function HttpFragments(f: File, ms: seq<Method>): seq<Fragment>
  {
    Absent(f, HttpCandidates(ms))
  }

  /** The route a method's handler is mounted on. */
  function HttpRoute(cf: CaseFns, m: Method): (r: string)
    ensures |r| == 1 + |cf.snake(m.name)| && r[0] == '/'
    ensures '_' !in r
  {
    var kebab := ReplaceChar(ToLowerSnakeCase(cf, m.name), '_', '-');
    ReplacedCharIsGone(ToLowerSnakeCase(cf, m.name), '_', '-');
    "/" + kebab
  }

  lemma AbsentOfTrio(f: File, a: Fragment, b: Fragment, c: Fragment)
    ensures Absent(f, [a, b, c]) ==
      (if Present(f, a) then [] else [a]) + (if Present(f, b) then [] else [b]) + (if Present(f, c) then [] else [c])
  {
    assert [a, b, c][..2] == [a, b];
    assert [a, b][..1] == [a];
    assert [a][..0] == [];
    assert Absent(f, [a]) == (if Present(f, a) then [] else [a]);
    assert Absent(f, [a, b]) == Absent(f, [a]) + (if Present(f, b) then [] else [b]);
  }

  lemma AbsentOfFour(f: File, a: Fragment, b: Fragment, c: Fragment, d: Fragment)
    ensures Absent(f, [a, b, c, d]) ==
      (if Present(f, a) then [] else [a]) + (if Present(f, b) then [] else [b]) +
      (if Present(f, c) then [] else [c]) + (if Present(f, d) then [] else [d])
  {
    assert [a, b, c, d][..3] == [a, b, c];
    AbsentOfTrio(f, a, b, c);
  }

  /** The loops of `generateHttpTransport.Generate` that decide what to
      emit: `f` is the parsed transport file, `ms` the narrowed methods. */
  method SelectHttpFragments(f: File, ms: seq<Method>) returns (frs: seq<Fragment>)
    ensures frs == HttpFragments(f, ms)
  {
    var hasError := false;
    var errorEncoderFound := false;
    var err2codeFound := false;
    var errorDecoderFound := false;
    var errorWrapperFound := false;
    var s := 0;
    while s < |f.structures|
      invariant 0 <= s <= |f.structures|
      invariant errorWrapperFound <==> exists k :: 0 <= k < s && f.structures[k].name == "errorWrapper"
    {
      if f.structures[s].name == "errorWrapper" {
        errorWrapperFound := true;
      }
      s := s + 1;
    }
    frs := [];
    var i := 0;
    while i < |ms|
      invariant 0 <= i <= |ms|
      invariant frs == Absent(f, MethodCandidates(ms[..i]))
      invariant hasError <==> AnyReturnsError(ms[..i])
      invariant i == 0 ==> !errorEncoderFound && !err2codeFound && !errorDecoderFound
      invariant i > 0 ==> (errorEncoderFound <==> HasFunc(f.methods, "ErrorEncoder"))
      invariant i > 0 ==> (err2codeFound <==> HasFunc(f.methods, "err2code"))
      invariant i > 0 ==> (errorDecoderFound <==> HasFunc(f.methods, "ErrorDecoder"))
      invariant errorWrapperFound <==> HasStruct(f.structures, "errorWrapper")
    {
      var m := ms[i];
      var e := ScanResults(m);
      AnyReturnsErrorSnoc(ms, i);
      if e {
        hasError := true;
      }
      var scan := ScanFileMethods(f, m);
      if scan.errorEncoder {
        errorEncoderFound := true;
      }
      if scan.err2code {
        err2codeFound := true;
      }
      if scan.errorDecoder {
        errorDecoderFound := true;
      }
      var out := EmitMethodFunctions(f, m, scan);
      CandidatesSnoc(f, ms, i);
      frs := frs + out;
      i := i + 1;
    }
    assert ms[..i] == ms;
    var tail := [];
    if hasError {
      assert |ms| > 0;
      tail := EmitErrorHelpers(f, errorEncoderFound, errorDecoderFound, err2codeFound, errorWrapperFound);
    } else {
      assert Absent(f, []) == [];
    }
    AbsentAppend(f, MethodCandidates(ms), if AnyReturnsError(ms) then ErrorHelpers else []);
    frs := frs + tail;
  }

  /** The names one pass over the file's functions looks for. */
  datatype FileScan = FileScan(errorEncoder: bool, err2code: bool, errorDecoder: bool,
                               decoder: bool, encoder: bool, handler: bool)

  /** The inner loop over the file's functions, for one method. */
  method ScanFileMethods(f: File, m: Method) returns (r: FileScan)
    ensures r.errorEncoder == HasFunc(f.methods, "ErrorEncoder")
    ensures r.err2code == HasFunc(f.methods, "err2code")
    ensures r.errorDecoder == HasFunc(f.methods, "ErrorDecoder")
    ensures r.decoder == HasFunc(f.methods, DecoderName(m))
    ensures r.encoder == HasFunc(f.methods, EncoderName(m))
    ensures r.handler == HasFunc(f.methods, HandlerName(m))
  {
    var dn, en, hn := DecoderName(m), EncoderName(m), HandlerName(m);
    var errorEncoderFound, err2codeFound, errorDecoderFound := false, false, false;
    var decoderFound, encoderFound, handlerFound := false, false, false;
    var n := 0;
    while n < |f.methods|
      invariant 0 <= n <= |f.methods|
      invariant errorEncoderFound == HasFunc(f.methods[..n], "ErrorEncoder")
      invariant err2codeFound == HasFunc(f.methods[..n], "err2code")
      invariant errorDecoderFound == HasFunc(f.methods[..n], "ErrorDecoder")
      invariant decoderFound == HasFunc(f.methods[..n], dn)
      invariant encoderFound == HasFunc(f.methods[..n], en)
      invariant handlerFound == HasFunc(f.methods[..n], hn)
    {
      var v := f.methods[n];
      HasFuncSnoc(f.methods, n);
      if v.name == "ErrorEncoder" {
        errorEncoderFound := true;
      }
      if v.name == "err2code" {
        err2codeFound := true;
      }
      if v.name == "ErrorDecoder" {
        errorDecoderFound := true;
      }
      if v.name == dn {
        decoderFound := true;
      }
      if v.name == en {
        encoderFound := true;
      }
      if v.name == hn {
        handlerFound := true;
      }
      n := n + 1;
    }
    assert f.methods[..n] == f.methods;
    r := FileScan(errorEncoderFound, err2codeFound, errorDecoderFound, decoderFound, encoderFound, handlerFound);
  }

  lemma HasFuncSnoc(ms: seq<Method>, n: nat)
    requires n < |ms|
    ensures forall name :: HasFunc(ms[..n + 1], name) <==> HasFunc(ms[..n], name) || ms[n].name == name
  {
    assert ms[..n + 1] == ms[..n] + [ms[n]];
    forall name ensures HasFunc(ms[..n + 1], name) <==> HasFunc(ms[..n], name) || ms[n].name == name {
      HasFuncAppend(ms[..n], [ms[n]], name);
      assert [ms[n]][0] == ms[n];
    }
  }

  /** The per-method part of the emission. */
  method EmitMethodFunctions(f: File, m: Method, scan: FileScan) returns (out: seq<Fragment>)
    requires scan.decoder == HasFunc(f.methods, DecoderName(m))
    requires scan.encoder == HasFunc(f.methods, EncoderName(m))
    requires scan.handler == HasFunc(f.methods, HandlerName(m))
    ensures out == Absent(f, MethodTrio(m))
  {
    out := [];
    if !scan.handler {
      out := out + [FuncFrag(HandlerName(m))];
    }
    if !scan.decoder {
      out := out + [FuncFrag(DecoderName(m))];
    }
    if !scan.encoder {
      out := out + [FuncFrag(EncoderName(m))];
    }
    AbsentOfTrio(f, FuncFrag(HandlerName(m)), FuncFrag(DecoderName(m)), FuncFrag(EncoderName(m)));
  }

  /** The `hasError` part of the emission. */
  method EmitErrorHelpers(f: File, errorEncoderFound: bool, errorDecoderFound: bool,
                          err2codeFound: bool, errorWrapperFound: bool) returns (out: seq<Fragment>)
    requires errorEncoderFound == HasFunc(f.methods, "ErrorEncoder")
    requires errorDecoderFound == HasFunc(f.methods, "ErrorDecoder")
    requires err2codeFound == HasFunc(f.methods, "err2code")
    requires errorWrapperFound == HasStruct(f.structures, "errorWrapper")
    ensures out == Absent(f, ErrorHelpers)
  {
    out := [];
    if !errorEncoderFound {
      out := out + [FuncFrag("ErrorEncoder")];
    }
    if !errorDecoderFound {
      out := out + [FuncFrag("ErrorDecoder")];
    }
    if !err2codeFound {
      out := out + [FuncFrag("err2code")];
    }
    if !errorWrapperFound {
      out := out + [StructFrag("errorWrapper")];
    }
    AbsentOfFour(f, FuncFrag("ErrorEncoder"), FuncFrag("ErrorDecoder"), FuncFrag("err2code"), StructFrag("errorWrapper"));
  }

  /** The inner loop over a method's results. */
  method ScanResults(m: Method) returns (hasError: bool)
    ensures hasError == ReturnsError(m)
  {
    hasError := false;
    var r := 0;
    while r < |m.results|
      invariant 0 <= r <= |m.results|
      invariant hasError <==> exists j :: 0 <= j < r && m.results[j].typ == "error"
    {
      if m.results[r].typ == "error" {
        hasError := true;
      }
      r := r + 1;
    }
  }

  lemma AnyReturnsErrorSnoc(ms: seq<Method>, i: nat)
    requires i < |ms|
    ensures AnyReturnsError(ms[..i + 1]) <==> AnyReturnsError(ms[..i]) || ReturnsError(ms[i])
  {
    var a, b := ms[..i], ms[..i + 1];
    if ReturnsError(ms[i]) { assert b[i] == ms[i]; }
    if AnyReturnsError(a) {
      var k :| 0 <= k < i && ReturnsError(a[k]);
      assert b[k] == a[k];
    }
    if AnyReturnsError(b) {
      var k :| 0 <= k < i + 1 && ReturnsError(b[k]);
      if k < i { assert a[k] == b[k]; }
    }
  }

  lemma CandidatesSnoc(f: File, ms: seq<Method>, i: nat)
    requires i < |ms|
    ensures Absent(f, MethodCandidates(ms[..i + 1])) == Absent(f, MethodCandidates(ms[..i])) + Absent(f, MethodTrio(ms[i]))
  {
    assert ms[..i + 1][..i] == ms[..i];
    AbsentAppend(f, MethodCandidates(ms[..i]), MethodTrio(ms[i]));
  }

  // ---------------------------------------------------------------- HTTP lemmas

  /** Which method a per-method candidate belongs to. */
  lemma {:induction false} MethodCandidateShape(ms: seq<Method>, x: Fragment)
    requires x in MethodCandidates(ms)
    ensures exists i :: 0 <= i < |ms| && x in MethodTrio(ms[i])
  {
    var init, last := ms[..|ms| - 1], ms[|ms| - 1];
    if x in MethodTrio(last) {
      assert ms[|ms| - 1] == last;
    } else {
      assert x in MethodCandidates(init);
      MethodCandidateShape(init, x);
      var i :| 0 <= i < |init| && x in MethodTrio(init[i]);
      assert ms[i] == init[i];
    }
  }

  lemma {:induction false} TrioInCandidates(ms: seq<Method>, i: nat)
    requires i < |ms|
    ensures forall x :: x in MethodTrio(ms[i]) ==> x in MethodCandidates(ms)
  {
    var init := ms[..|ms| - 1];
    if i < |ms| - 1 {
      TrioInCandidates(init, i);
      assert init[i] == ms[i];
    }
  }

  /** No per-method name is an error helper's: the three name forms start
      with "make", "decode" and "encode". */
  lemma TrioAvoidsHelpers(m: Method)
    ensures forall x :: x in MethodTrio(m) ==> x !in ErrorHelpers
  {
    assert HandlerName(m)[0] == 'm' && DecoderName(m)[0] == 'd' && EncoderName(m)[1] == 'n';
  }

  lemma {:induction false} CandidatesAvoidHelpers(ms: seq<Method>)
    ensures forall x :: x in MethodCandidates(ms) ==> x !in ErrorHelpers
  {
    if |ms| > 0 {
      CandidatesAvoidHelpers(ms[..|ms| - 1]);
      TrioAvoidsHelpers(ms[|ms| - 1]);
    }
  }

  /** A method's handler, decoder and encoder are emitted exactly when the
      file does not have a function of that name. */
  lemma MethodFunctionsEmitted(f: File, ms: seq<Method>, i: nat)
    requires i < |ms|
    ensures forall x :: x in MethodTrio(ms[i]) ==>
      (x in HttpFragments(f, ms) <==> !HasFunc(f.methods, x.name))
  {
    TrioInCandidates(ms, i);
    forall x | x in MethodTrio(ms[i]) ensures x in HttpFragments(f, ms) <==> !HasFunc(f.methods, x.name) {
      AbsentMember(f, HttpCandidates(ms), x);
    }
  }

  /** An error helper is emitted exactly when some method returns an error
      and the file does not have the helper yet. */
  lemma ErrorHelperEmitted(f: File, ms: seq<Method>, h: Fragment)
    requires h in ErrorHelpers
    ensures h in HttpFragments(f, ms) <==> AnyReturnsError(ms) && !Present(f, h)
  {
    CandidatesAvoidHelpers(ms);
    AbsentMember(f, HttpCandidates(ms), h);
  }

  /** Nothing is emitted that is not a per-method function of some method
      or an error helper. */
  lemma EmittedHasOrigin(f: File, ms: seq<Method>, x: Fragment)
    requires x in HttpFragments(f, ms)
    ensures (exists i :: 0 <= i < |ms| && x in MethodTrio(ms[i])) || (x in ErrorHelpers && AnyReturnsError(ms))
    ensures !Present(f, x)
  {
    AbsentMember(f, HttpCandidates(ms), x);
    if x in MethodCandidates(ms) {
      MethodCandidateShape(ms, x);
    }
  }

  /** Generating the transport again on the file the first run produced
      emits nothing. */
  lemma HttpIdempotent(f: File, ms: seq<Method>)
    ensures HttpFragments(Merge(f, HttpFragments(f, ms)), ms) == []
  {
    AbsentIdempotent(f, HttpCandidates(ms));
  }

  /** A file that already has every handler gets only what is missing. */
  lemma HttpKeepsExisting(f: File, ms: seq<Method>)
    ensures forall x :: Present(f, x) ==> Present(Merge(f, HttpFragments(f, ms)), x)
  {
    forall x | Present(f, x) ensures Present(Merge(f, HttpFragments(f, ms)), x) {
      MergePresent(f, HttpFragments(f, ms), x);
    }
  }

  // ================================================================ gRPC proto

  datatype ServiceElement =
    | RPC(name: string, requestType: string, returnsType: string)
    | OtherServiceElement

  /** The top-level elements of a `.proto` definition the generator looks
      at; everything else is `OtherElement` and is kept as it is. */
  datatype ProtoElement =
    | Syntax(value: string)
    | Package(name: string)
    | ProtoService(name: string, comment: seq<string>, elements: seq<ServiceElement>)
    | Message(name: string)
    | OtherElement

  function RpcFor(m: Method): ServiceElement
  {
    RPC(m.name, m.name + "Request", m.name + "Reply")
  }

  predicate HasRpc(es: seq<ServiceElement>, n: string)
  {
    exists k :: 0 <= k < |es| && es[k].RPC? && es[k].name == n
  }

  /** `getServiceRpc`: an RPC for each method the service has none for. */
  function WithRpcs(es: seq<ServiceElement>, ms: seq<Method>): (r: seq<ServiceElement>)
    ensures |es| <= |r| && r[..|es|] == es
  {
    if |ms| == 0 then es
    else
      var acc := WithRpcs(es, ms[..|ms| - 1]);
      var m := ms[|ms| - 1];
      if HasRpc(acc, m.name) then acc else acc + [RpcFor(m)]
  }

  predicate HasMessage(es: seq<ProtoElement>, n: string)
  {
    exists k :: 0 <= k < |es| && es[k].Message? && es[k].name == n
  }

  /** The messages one method still needs; both checks look at the
      elements as they were before either is appended. */
  function MissingMessages(es: seq<ProtoElement>, m: Method): seq<ProtoElement>
  {
    (if HasMessage(es, m.name + "Request") then [] else [Message(m.name + "Request")]) +
    (if HasMessage(es, m.name + "Reply") then [] else [Message(m.name + "Reply")])
  }

  /** `generateRequestResponse`. */
  function WithMessages(es: seq<ProtoElement>, ms: seq<Method>): (r: seq<ProtoElement>)
    ensures |es| <= |r| && r[..|es|] == es
  {
    if |ms| == 0 then es
    else
      var acc := WithMessages(es, ms[..|ms| - 1]);
      assert (acc + MissingMessages(acc, ms[|ms| - 1]))[..|acc|] == acc;
      acc + MissingMessages(acc, ms[|ms| - 1])
  }

  predicate IsServiceNamed(e: ProtoElement, n: string)
  {
    e.ProtoService? && e.name == n
  }

  /** `getService`: the position of the first service with the name. */
  function FindService(es: seq<ProtoElement>, n: string): (r: Option<nat>)
    ensures r.Some? ==> r.value < |es| && IsServiceNamed(es[r.value], n)
    ensures r.Some? ==> forall k :: 0 <= k < r.value ==> !IsServiceNamed(es[k], n)
    ensures r.None? ==> forall k :: 0 <= k < |es| ==> !IsServiceNamed(es[k], n)
  {
    if |es| == 0 then None
    else if IsServiceNamed(es[0], n) then Some(0)
    else
      match FindService(es[1..], n)
      case None => None
      case Some(k) => Some(k + 1)
  }

  /** The service `Generate` creates, before its RPCs are added. */
  function NewService(serviceName: string): ProtoElement
  {
    ProtoService(serviceName, ["The " + serviceName + " service definition."], [])
  }

  /** The elements `Generate` writes: `existing` is `None` when there is no
      `.proto` file yet. */
  function ProtoMerge(serviceName: string, ms: seq<Method>, existing: Option<seq<ProtoElement>>): seq<ProtoElement>
  {
    var svc := NewService(serviceName);
    match existing
    case None =>
      WithMessages([Syntax("proto3"), Package("pb"), svc.(elements := WithRpcs([], ms))], ms)
    case Some(es) =>
      match FindService(es, serviceName)
      case None => WithMessages(es + [svc.(elements := WithRpcs([], ms))], ms)
      case Some(k) => WithMessages(es[k := es[k].(elements := WithRpcs(es[k].elements, ms))], ms)
  }

  /** What the file system and the proto parser answer. */
  datatype ProtoSource = ProtoSource(present: Result<bool>, contents: Result<seq<ProtoElement>>)

  function ProtoError(src: ProtoSource): Option<string>
  {
    if src.present.Failure? then Some(src.present.error)
    else if src.present.value && src.contents.Failure? then Some(src.contents.error)
    else None
  }

  function Existing(src: ProtoSource): Option<seq<ProtoElement>>
    requires ProtoError(src).None?
  {
    if src.present.value then Some(src.contents.value) else None
  }

  /** The gRPC proto generator over the definition it edits. */
  class GrpcProto {
    const serviceName: string
    const methods: seq<Method>
    var elements: seq<ProtoElement>

    constructor (cf: CaseFns, name: string, methods: seq<Method>)
      ensures serviceName == ToCamelCase(cf, name) && this.methods == methods && elements == []
    {
      serviceName := ToCamelCase(cf, name);
      this.methods := methods;
      elements := [];
    }

    method GetService() returns (r: Option<nat>)
      ensures r == FindService(elements, serviceName)
    {
      var i := 0;
      while i < |elements|
        invariant 0 <= i <= |elements|
        invariant forall k :: 0 <= k < i ==> !IsServiceNamed(elements[k], serviceName)
      {
        if IsServiceNamed(elements[i], serviceName) {
          FindServiceAt(elements, serviceName, i);
          return Some(i);
        }
        i := i + 1;
      }
      return None;
    }

    /** `getServiceRpc` on the elements of one service. */
    method GetServiceRpc(svc: seq<ServiceElement>) returns (out: seq<ServiceElement>)
      ensures out == WithRpcs(svc, methods)
    {
      out := svc;
      var i := 0;
      while i < |methods|
        invariant 0 <= i <= |methods|
        invariant out == WithRpcs(svc, methods[..i])
      {
        assert methods[..i + 1][..i] == methods[..i];
        var v := methods[i];
        var found := false;
        var j := 0;
        while j < |out|
          invariant 0 <= j <= |out|
          invariant found <==> exists k :: 0 <= k < j && out[k].RPC? && out[k].name == v.name
        {
          if out[j].RPC? && out[j].name == v.name {
            found := true;
          }
          j := j + 1;
        }
        if !found {
          out := out + [RpcFor(v)];
        }
        i := i + 1;
      }
      assert methods[..i] == methods;
    }

    method GenerateRequestResponse()
      modifies this
      ensures elements == WithMessages(old(elements), methods)
    {
      ghost var start := elements;
      var i := 0;
      while i < |methods|
        invariant 0 <= i <= |methods|
        invariant elements == WithMessages(start, methods[..i])
      {
        assert methods[..i + 1][..i] == methods[..i];
        var v := methods[i];
        var foundRequest := false;
        var foundReply := false;
        var j := 0;
        while j < |elements|
          invariant 0 <= j <= |elements|
          invariant foundRequest <==> exists k :: 0 <= k < j && elements[k].Message? && elements[k].name == v.name + "Request"
          invariant foundReply <==> exists k :: 0 <= k < j && elements[k].Message? && elements[k].name == v.name + "Reply"
        {
          var e := elements[j];
          if e.Message? {
            if e.name == v.name + "Request" {
              foundRequest := true;
            }
            if e.name == v.name + "Reply" {
              foundReply := true;
            }
          }
          j := j + 1;
        }
        ghost var before := elements;
        if !foundRequest {
          elements := elements + [Message(v.name + "Request")];
        }
        if !foundReply {
          elements := elements + [Message(v.name + "Reply")];
        }
        assert elements == before + MissingMessages(before, v);
        i := i + 1;
      }
      assert methods[..i] == methods;
    }

    /** `generateGRPCTransportProto.Generate` after the file has been read. */
    method Generate(src: ProtoSource) returns (err: Option<string>)
      modifies this
      ensures err == ProtoError(src)
      ensures err.Some? ==> elements == old(elements)
      ensures err.None? ==> elements == ProtoMerge(serviceName, methods, Existing(src))
    {
      if src.present.Failure? {
        return Some(src.present.error);
      }
      var firstTime := !src.present.value;
      if firstTime {
        elements := [];
      } else {
        if src.contents.Failure? {
          return Some(src.contents.error);
        }
        elements := src.contents.value;
      }
      var svc := NewService(serviceName);
      if firstTime {
        var rpcs := GetServiceRpc(svc.elements);
        elements := elements + [Syntax("proto3"), Package("pb"), svc.(elements := rpcs)];
        assert svc.elements == [] && Existing(src) == None;
        assert elements == [Syntax("proto3"), Package("pb"), svc.(elements := rpcs)];
        assert ProtoMerge(serviceName, methods, Existing(src)) == WithMessages(elements, methods);
      } else {
        var s := GetService();
        if s.None? {
          var rpcs := GetServiceRpc(svc.elements);
          assert ProtoMerge(serviceName, methods, Existing(src)) == WithMessages(elements + [svc.(elements := rpcs)], methods);
          elements := elements + [svc.(elements := rpcs)];
        } else {
          var k := s.value;
          var rpcs := GetServiceRpc(elements[k].elements);
          assert ProtoMerge(serviceName, methods, Existing(src)) ==
            WithMessages(elements[k := elements[k].(elements := rpcs)], methods);
          elements := elements[k := elements[k].(elements := rpcs)];
        }
      }
      GenerateRequestResponse();
      return None;
    }
  }

  // ---------------------------------------------------------------- proto lemmas

  lemma FindServiceAt(es: seq<ProtoElement>, n: string, i: nat)
    requires i < |es| && IsServiceNamed(es[i], n)
    requires forall k :: 0 <= k < i ==> !IsServiceNamed(es[k], n)
    ensures FindService(es, n) == Some(i)
  {
  }

  lemma FindServiceAppend(a: seq<ProtoElement>, b: seq<ProtoElement>, n: string)
    requires FindService(a, n).Some?
    ensures FindService(a + b, n) == FindService(a, n)
  {
    var i := FindService(a, n).value;
    assert (a + b)[i] == a[i];
    assert forall k :: 0 <= k < i ==> (a + b)[k] == a[k];
    FindServiceAt(a + b, n, i);
  }

  lemma {:induction false} HasRpcAppend(a: seq<ServiceElement>, b: seq<ServiceElement>, n: string)
    ensures HasRpc(a + b, n) <==> HasRpc(a, n) || HasRpc(b, n)
  {
    if HasRpc(a, n) {
      var k :| 0 <= k < |a| && a[k].RPC? && a[k].name == n;
      assert (a + b)[k] == a[k];
    }
    if HasRpc(b, n) {
      var k :| 0 <= k < |b| && b[k].RPC? && b[k].name == n;
      assert (a + b)[|a| + k] == b[k];
    }
    if HasRpc(a + b, n) {
      var k :| 0 <= k < |a + b| && (a + b)[k].RPC? && (a + b)[k].name == n;
      if k < |a| { assert a[k] == (a + b)[k]; } else { assert b[k - |a|] == (a + b)[k]; }
    }
  }

  /** After `getServiceRpc` every method has an RPC, and an RPC it adds
      carries the method's request and reply types. */
  lemma {:induction false} WithRpcsCovers(es: seq<ServiceElement>, ms: seq<Method>)
    ensures forall i :: 0 <= i < |ms| ==> HasRpc(WithRpcs(es, ms), ms[i].name)
  {
    if |ms| > 0 {
      var init, m := ms[..|ms| - 1], ms[|ms| - 1];
      WithRpcsCovers(es, init);
      var acc := WithRpcs(es, init);
      HasRpcAppend(acc, [RpcFor(m)], m.name);
      forall i | 0 <= i < |ms| ensures HasRpc(WithRpcs(es, ms), ms[i].name) {
        if i < |ms| - 1 {
          assert ms[i] == init[i];
          HasRpcAppend(acc, [RpcFor(m)], ms[i].name);
        } else {
          assert [RpcFor(m)][0].name == m.name;
        }
      }
    }
  }

  /** The RPCs `getServiceRpc` adds are each for a method the service had
      no RPC for, with the method's request and reply types. */
  lemma {:induction false} WithRpcsAdded(es: seq<ServiceElement>, ms: seq<Method>, j: nat)
    requires |es| <= j < |WithRpcs(es, ms)|
    ensures exists i :: 0 <= i < |ms| && WithRpcs(es, ms)[j] == RpcFor(ms[i]) && !HasRpc(es, ms[i].name)
  {
    var init, m := ms[..|ms| - 1], ms[|ms| - 1];
    var acc := WithRpcs(es, init);
    if j < |acc| {
      WithRpcsAdded(es, init, j);
      var i :| 0 <= i < |init| && acc[j] == RpcFor(init[i]) && !HasRpc(es, init[i].name);
      assert ms[i] == init[i];
    } else {
      assert WithRpcs(es, ms) == acc + [RpcFor(m)] && !HasRpc(acc, m.name);
      assert acc == es + acc[|es|..];
      HasRpcAppend(es, acc[|es|..], m.name);
      assert ms[|ms| - 1] == m;
    }
  }

  /** Nothing is added when every method already has an RPC. */
  lemma {:induction false} WithRpcsNothingNew(es: seq<ServiceElement>, ms: seq<Method>)
    requires forall i :: 0 <= i < |ms| ==> HasRpc(es, ms[i].name)
    ensures WithRpcs(es, ms) == es
  {
    if |ms| > 0 {
      var init := ms[..|ms| - 1];
      assert forall i :: 0 <= i < |init| ==> init[i] == ms[i];
      WithRpcsNothingNew(es, init);
      assert HasRpc(es, ms[|ms| - 1].name);
    }
  }

  lemma WithRpcsIdempotent(es: seq<ServiceElement>, ms: seq<Method>)
    ensures WithRpcs(WithRpcs(es, ms), ms) == WithRpcs(es, ms)
  {
    WithRpcsCovers(es, ms);
    WithRpcsNothingNew(WithRpcs(es, ms), ms);
  }

  lemma {:induction false} HasMessageAppend(a: seq<ProtoElement>, b: seq<ProtoElement>, n: string)
    ensures HasMessage(a + b, n) <==> HasMessage(a, n) || HasMessage(b, n)
  {
    if HasMessage(a, n) {
      var k :| 0 <= k < |a| && a[k].Message? && a[k].name == n;
      assert (a + b)[k] == a[k];
    }
    if HasMessage(b, n) {
      var k :| 0 <= k < |b| && b[k].Message? && b[k].name == n;
      assert (a + b)[|a| + k] == b[k];
    }
    if HasMessage(a + b, n) {
      var k :| 0 <= k < |a + b| && (a + b)[k].Message? && (a + b)[k].name == n;
      if k < |a| { assert a[k] == (a + b)[k]; } else { assert b[k - |a|] == (a + b)[k]; }
    }
  }

  lemma MissingMessagesCover(es: seq<ProtoElement>, m: Method)
    ensures HasMessage(es + MissingMessages(es, m), m.name + "Request")
    ensures HasMessage(es + MissingMessages(es, m), m.name + "Reply")
  {
    var mm := MissingMessages(es, m);
    HasMessageAppend(es, mm, m.name + "Request");
    HasMessageAppend(es, mm, m.name + "Reply");
    if !HasMessage(es, m.name + "Request") {
      assert mm[0] == Message(m.name + "Request");
    }
    if !HasMessage(es, m.name + "Reply") {
      assert mm[|mm| - 1] == Message(m.name + "Reply");
    }
  }

  /** After `generateRequestResponse` every method has both messages. */
  lemma {:induction false} WithMessagesCovers(es: seq<ProtoElement>, ms: seq<Method>)
    ensures forall i :: 0 <= i < |ms| ==>
      HasMessage(WithMessages(es, ms), ms[i].name + "Request") && HasMessage(WithMessages(es, ms), ms[i].name + "Reply")
  {
    if |ms| > 0 {
      var init, m := ms[..|ms| - 1], ms[|ms| - 1];
      WithMessagesCovers(es, init);
      var acc := WithMessages(es, init);
      var mm := MissingMessages(acc, m);
      MissingMessagesCover(acc, m);
      forall i | 0 <= i < |ms| - 1
        ensures HasMessage(WithMessages(es, ms), ms[i].name + "Request") && HasMessage(WithMessages(es, ms), ms[i].name + "Reply")
      {
        assert ms[i] == init[i];
        HasMessageAppend(acc, mm, ms[i].name + "Request");
        HasMessageAppend(acc, mm, ms[i].name + "Reply");
      }
    }
  }

  lemma {:induction false} WithMessagesNothingNew(es: seq<ProtoElement>, ms: seq<Method>)
    requires forall i :: 0 <= i < |ms| ==> HasMessage(es, ms[i].name + "Request") && HasMessage(es, ms[i].name + "Reply")
    ensures WithMessages(es, ms) == es
  {
    if |ms| > 0 {
      var init := ms[..|ms| - 1];
      assert forall i :: 0 <= i < |init| ==> init[i] == ms[i];
      WithMessagesNothingNew(es, init);
      assert HasMessage(es, ms[|ms| - 1].name + "Request");
      assert HasMessage(es, ms[|ms| - 1].name + "Reply");
    }
  }

  /** The messages added are each a request or a reply of some method
      that the definition did not have. */
  lemma {:induction false} WithMessagesAdded(es: seq<ProtoElement>, ms: seq<Method>, j: nat)
    requires |es| <= j < |WithMessages(es, ms)|
    ensures WithMessages(es, ms)[j].Message? && !HasMessage(es, WithMessages(es, ms)[j].name)
    ensures exists i :: (0 <= i < |ms| &&
      (WithMessages(es, ms)[j] == Message(ms[i].name + "Request") || WithMessages(es, ms)[j] == Message(ms[i].name + "Reply")))
  {
    var init, m := ms[..|ms| - 1], ms[|ms| - 1];
    var acc := WithMessages(es, init);
    var r := WithMessages(es, ms);
    assert r == acc + MissingMessages(acc, m);
    if j < |acc| {
      WithMessagesAdded(es, init, j);
      var i :| 0 <= i < |init| &&
        (acc[j] == Message(init[i].name + "Request") || acc[j] == Message(init[i].name + "Reply")) &&
        !HasMessage(es, acc[j].name);
      assert ms[i] == init[i] && r[j] == acc[j];
    } else {
      var e := r[j];
      assert e == MissingMessages(acc, m)[j - |acc|];
      assert e == Message(m.name + "Request") || e == Message(m.name + "Reply");
      assert !HasMessage(acc, e.name);
      assert acc == es + acc[|es|..];
      HasMessageAppend(es, acc[|es|..], e.name);
      assert ms[|ms| - 1] == m;
    }
  }

  lemma WithMessagesIdempotent(es: seq<ProtoElement>, ms: seq<Method>)
    ensures WithMessages(WithMessages(es, ms), ms) == WithMessages(es, ms)
  {
    WithMessagesCovers(es, ms);
    WithMessagesNothingNew(WithMessages(es, ms), ms);
  }

  /** The elements the definition had stay in place, with the service's
      RPC list extended when the service already existed. */
  lemma ProtoMergeKeeps(serviceName: string, ms: seq<Method>, es: seq<ProtoElement>, k: nat)
    requires k < |es|
    ensures var r := ProtoMerge(serviceName, ms, Some(es));
      |es| <= |r| &&
      (FindService(es, serviceName) == Some(k) ==> r[k] == es[k].(elements := WithRpcs(es[k].elements, ms))) &&
      (FindService(es, serviceName) != Some(k) ==> r[k] == es[k])
  {
  }

  /** Generating again on the written definition writes it unchanged. */
  lemma ProtoMergeIdempotent(serviceName: string, ms: seq<Method>, existing: Option<seq<ProtoElement>>)
    ensures ProtoMerge(serviceName, ms, Some(ProtoMerge(serviceName, ms, existing))) == ProtoMerge(serviceName, ms, existing)
  {
    var svc := NewService(serviceName);
    var rpcs: seq<ServiceElement>;
    var base: seq<ProtoElement>;
    var k: nat;
    match existing {
      case None =>
        rpcs := WithRpcs([], ms);
        WithRpcsCovers([], ms);
        base := [Syntax("proto3"), Package("pb"), svc.(elements := rpcs)];
        k := 2;
        FindServiceAt(base, serviceName, 2);
      case Some(es) =>
        match FindService(es, serviceName) {
          case None =>
            rpcs := WithRpcs([], ms);
            WithRpcsCovers([], ms);
            base := es + [svc.(elements := rpcs)];
            k := |es|;
            assert base[k] == svc.(elements := rpcs);
            assert forall j :: 0 <= j < |es| ==> base[j] == es[j];
            FindServiceAt(base, serviceName, k);
          case Some(i) =>
            rpcs := WithRpcs(es[i].elements, ms);
            WithRpcsCovers(es[i].elements, ms);
            base := es[i := es[i].(elements := rpcs)];
            k := i;
            FindServiceAt(base, serviceName, k);
        }
    }
    assert WithMessages(base, ms) == ProtoMerge(serviceName, ms, existing);
    MergedAgain(serviceName, ms, base, k);
  }

  /** Merging again into a definition whose service already has an rpc
      per method only adds the messages again, which are there. */
  lemma MergedAgain(serviceName: string, ms: seq<Method>, base: seq<ProtoElement>, k: nat)
    requires k < |base| && FindService(base, serviceName) == Some(k)
    requires forall i :: 0 <= i < |ms| ==> HasRpc(base[k].elements, ms[i].name)
    ensures ProtoMerge(serviceName, ms, Some(WithMessages(base, ms))) == WithMessages(base, ms)
  {
    var r := WithMessages(base, ms);
    assert base == r[..|base|];
    assert r == base + r[|base|..];
    FindServiceAppend(base, r[|base|..], serviceName);
    assert FindService(r, serviceName) == Some(k);
    assert r[k] == base[k];
    WithRpcsNothingNew(r[k].elements, ms);
    assert r[k := r[k].(elements := WithRpcs(r[k].elements, ms))] == r;
    WithMessagesIdempotent(base, ms);
  }
}
