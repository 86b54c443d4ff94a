/** generator/generate_client.go: `kit generate client`. After the common
    opening steps the HTTP client generator writes, for every kept service
    method, one client endpoint that POSTs to the method's route and one
    response decoder. */
module ClientGen {
  import opened Wrappers
  import opened GoStrings
  import opened Utils
  import opened Src
  import opened MethodSet
  import opened GenGuard
  import Parser
  import AddTransport

  /** The camel case conversion never empties a string of two bytes or
      more, so that `ToLowerFirstCamelCase` of a method name cannot panic. */
  ghost predicate CamelKeepsNonEmpty(cf: CaseFns)
  {
    forall s :: |s| >= 2 ==> |cf.camel(s)| >= 1
  }

  /** One `http.NewClient` call: the `Endpoints` field it fills, the local
      variable holding it, the verb, the path, the response decoder and
      the key of its options. */
  datatype ClientEndpoint = ClientEndpoint(field: string, variable: string, verb: string, path: string,
                                           decoder: string, optionsKey: string)

  /** `"/"` and the snake case name with `_` replaced by `-`. */
  function ClientPath(cf: CaseFns, name: string): (r: string)
    ensures |r| == 1 + |cf.snake(name)| && r[0] == '/'
    ensures '_' !in r
  {
    ReplacedCharIsGone(ToLowerSnakeCase(cf, name), '_', '-');
    "/" + ReplaceChar(ToLowerSnakeCase(cf, name), '_', '-')
  }

  function DecoderName(name: string): string
  {
    "decode" + name + "Response"
  }

  function ClientEndpointFor(cf: CaseFns, m: Method): ClientEndpoint
    requires LowerFirstCamelDefined(cf, m.name)
  {
    ClientEndpoint(m.name + "Endpoint", ToLowerFirstCamelCase(cf, m.name) + "Endpoint", "POST",
                   ClientPath(cf, m.name), DecoderName(m.name), m.name)
  }

  predicate AllNamed(cf: CaseFns, ms: seq<Method>)
  {
    forall k :: 0 <= k < |ms| ==> LowerFirstCamelDefined(cf, ms[k].name)
  }

  function ClientEndpoints(cf: CaseFns, ms: seq<Method>): (r: seq<ClientEndpoint>)
    requires AllNamed(cf, ms)
    ensures |r| == |ms|
  {
    if |ms| == 0 then [] else ClientEndpoints(cf, ms[..|ms| - 1]) + [ClientEndpointFor(cf, ms[|ms| - 1])]
  }

  /** The names of the response decoders, one per method, in order. */
  function Decoders(ms: seq<Method>): (r: seq<string>)
    ensures |r| == |ms|
  {
    if |ms| == 0 then [] else Decoders(ms[..|ms| - 1]) + [DecoderName(ms[|ms| - 1].name)]
  }

  /** What the HTTP client generator writes: the client endpoints, the
      decoders, and the import paths it qualifies them with. */
  datatype HttpClient = HttpClient(endpointImport: string, serviceImport: string, httpImport: string,
                                   endpoints: seq<ClientEndpoint>, decoders: seq<string>)

  /** `generateHttpClient.Generate`. Its three import path lookups all
      read the same working directory, so they fail together, with the
      error of that lookup. */
  function HttpClientSpec(env: Env, cf: CaseFns, name: string, ms: seq<Method>): (r: Result<HttpClient>)
    requires AllNamed(cf, ms)
    ensures r.Failure? <==> env.wd.Failure?
    ensures r.Failure? ==> r.error == env.wd.error
  {
    if env.wd.Failure? then Failure(env.wd.error)
    else
      Success(HttpClient(GetImportPath(env, cf, EndpointPkg, name).value, GetImportPath(env, cf, ServicePkg, name).value,
                         GetImportPath(env, cf, HttpTransportPkg, name).value, ClientEndpoints(cf, ms), Decoders(ms)))
  }

  /** The loop that builds the client endpoints. */
  method BuildClientEndpoints(cf: CaseFns, ms: seq<Method>) returns (handles: seq<ClientEndpoint>)
    requires AllNamed(cf, ms)
    ensures handles == ClientEndpoints(cf, ms)
  {
    handles := [];
    var i := 0;
    while i < |ms|
      invariant 0 <= i <= |ms|
      invariant AllNamed(cf, ms[..i])
      invariant handles == ClientEndpoints(cf, ms[..i])
    {
      assert ms[..i + 1][..i] == ms[..i];
      var m := ms[i];
      var lfc := ToLowerFirstCamelCase(cf, m.name);
      handles := handles + [ClientEndpoint(m.name + "Endpoint", lfc + "Endpoint", "POST",
                                           "/" + ReplaceChar(ToLowerSnakeCase(cf, m.name), '_', '-'),
                                           "decode" + m.name + "Response", m.name)];
      i := i + 1;
    }
    assert ms[..i] == ms;
  }

  /** The loop of `generateDecodeEncodeMethods`. */
  method BuildDecoders(ms: seq<Method>) returns (decoders: seq<string>)
    ensures decoders == Decoders(ms)
  {
    decoders := [];
    var i := 0;
    while i < |ms|
      invariant 0 <= i <= |ms|
      invariant decoders == Decoders(ms[..i])
    {
      assert ms[..i + 1][..i] == ms[..i];
      decoders := decoders + ["decode" + ms[i].name + "Response"];
      i := i + 1;
    }
    assert ms[..i] == ms;
  }

  method GenerateHttpClient(env: Env, cf: CaseFns, name: string, ms: seq<Method>) returns (r: Result<HttpClient>)
    requires AllNamed(cf, ms)
    ensures r == HttpClientSpec(env, cf, name, ms)
  {
    var endpointImport := GetImportPath(env, cf, EndpointPkg, name);
    if endpointImport.Failure? {
      return Failure(endpointImport.error);
    }
    var serviceImport := GetImportPath(env, cf, ServicePkg, name);
    var handles := BuildClientEndpoints(cf, ms);
    var httpImport := GetImportPath(env, cf, HttpTransportPkg, name);
    var decoders := BuildDecoders(ms);
    return Success(HttpClient(endpointImport.value, serviceImport.value, httpImport.value, handles, decoders));
  }

  /** The `GenerateClient` generator; `client` is what the HTTP client
      generator wrote, if it ran and succeeded. */
  class GenerateClient {
    const name: string
    const transport: string
    const interfaceName: string
    var serviceFile: File
    var serviceInterface: Interface
    var client: Option<HttpClient>

    constructor (cf: CaseFns, name: string, transport: string)
      ensures this.name == name && this.transport == transport
      ensures interfaceName == ToCamelCase(cf, name + "Service")
      ensures serviceFile == NewFile() && serviceInterface == NewInterface("", []) && client == None
    {
      this.name := name;
      this.transport := transport;
      interfaceName := ToCamelCase(cf, name + "Service");
      serviceFile := NewFile();
      serviceInterface := NewInterface("", []);
      client := None;
    }

    method ServiceFound() returns (found: bool)
      modifies this
      ensures serviceFile == old(serviceFile) && client == old(client)
      ensures found <==> FindInterface(serviceFile.interfaces, interfaceName).Some?
      ensures found ==> serviceInterface == FindInterface(serviceFile.interfaces, interfaceName).value
      ensures !found ==> serviceInterface == old(serviceInterface)
    {
      var r := SearchInterface(serviceFile.interfaces, interfaceName);
      if r.Some? {
        serviceInterface := r.value;
        return true;
      }
      return false;
    }

    /** This copy of `removeBadMethods` has no allow-list. */
    method RemoveBadMethods()
      requires NamedMethods(serviceInterface.methods)
      modifies this
      ensures serviceFile == old(serviceFile) && client == old(client)
      ensures serviceInterface == old(serviceInterface).(methods := KeptMethods([], old(serviceInterface).methods))
    {
      var keep := FilterMethods([], serviceInterface.methods);
      serviceInterface := serviceInterface.(methods := keep);
    }

    method OpeningSteps(cf: CaseFns, src: ServiceSource) returns (o: Outcome)
      requires SourceOk(cf, src)
      modifies this
      ensures o == GuardSpec(cf, true, transport, true, [], interfaceName, src)
      ensures o.Ready? ==> serviceFile == o.file && serviceInterface == o.service
      ensures client == old(client)
    {
      var supported := CheckTransport(transport);
      if !supported {
        return Unsupported;
      }
      if src.present.Failure? {
        return FsError(src.present.error);
      }
      if !src.present.value {
        return ServiceMissing;
      }
      if src.contents.Failure? {
        return FsError(src.contents.error);
      }
      if src.contents.value.SyntaxError? {
        return NilFilePanic;
      }
      var parsed := Parser.Parse(cf, src.contents.value);
      serviceFile := parsed.value;
      var found := ServiceFound();
      if !found {
        return InterfaceMissing;
      }
      assert WellNamed(serviceFile);
      RemoveBadMethods();
      if |serviceInterface.methods| == 0 {
        return NoSuitableMethods;
      }
      return Ready(serviceFile, serviceInterface);
    }

    /** `Generate`: the opening steps, then the HTTP client for the "http"
        transport and only a warning for the others. */
    method Generate(env: Env, cf: CaseFns, src: ServiceSource) returns (o: Outcome, err: Option<string>)
      requires SourceOk(cf, src) && CamelKeepsNonEmpty(cf)
      modifies this
      ensures o == GuardSpec(cf, true, transport, true, [], interfaceName, src)
      ensures !o.Ready? ==> err == ReturnedError(o) && client == old(client)
      ensures o.Ready? && transport != "http" ==> err == None && client == old(client)
      ensures o.Ready? && transport == "http" ==> AllNamed(cf, o.service.methods)
      ensures o.Ready? && transport == "http" ==>
        var r := HttpClientSpec(env, cf, name, o.service.methods);
        (r.Failure? ==> err == Some(r.error) && client == old(client)) &&
        (r.Success? ==> err == None && client == Some(r.value))
    {
      o := OpeningSteps(cf, src);
      if !o.Ready? {
        return o, ReturnedError(o);
      }
      var ms := serviceInterface.methods;
      assert NamedMethods(ms);
      assert AllNamed(cf, ms) by {
        forall k | 0 <= k < |ms| ensures LowerFirstCamelDefined(cf, ms[k].name) {
          assert |ms[k].name| >= 1;
        }
      }
      if transport == "http" {
        var r := GenerateHttpClient(env, cf, name, ms);
        if r.Failure? {
          return o, Some(r.error);
        }
        client := Some(r.value);
      }
      return o, None;
    }
  }

  // ---------------------------------------------------------------- lemmas

  /** The client posts to the route the HTTP transport serves the method
      on. */
  lemma ClientPathIsServerRoute(cf: CaseFns, m: Method)
    ensures ClientPath(cf, m.name) == AddTransport.HttpRoute(cf, m)
  {
  }

  /** Endpoint `k` belongs to method `k`: POST to its route, decoded by
      its own decoder, with the variable named after the method. */
  lemma {:induction false} ClientEndpointAt(cf: CaseFns, ms: seq<Method>, k: nat)
    requires AllNamed(cf, ms) && k < |ms|
    ensures var e := ClientEndpoints(cf, ms)[k];
      e.field == ms[k].name + "Endpoint" && e.verb == "POST" &&
      e.variable == ToLowerFirstCamelCase(cf, ms[k].name) + "Endpoint" &&
      e.path == AddTransport.HttpRoute(cf, ms[k]) &&
      e.decoder == DecoderName(ms[k].name) && e.decoder == Decoders(ms)[k]
  {
    if k < |ms| - 1 {
      assert AllNamed(cf, ms[..|ms| - 1]);
      ClientEndpointAt(cf, ms[..|ms| - 1], k);
      assert ms[..|ms| - 1][k] == ms[k];
    }
  }

  /** Different method names give different decoder names. */
  lemma DecoderNameInjective(a: string, b: string)
    requires DecoderName(a) == DecoderName(b)
    ensures a == b
  {
    var d := DecoderName(a);
    assert |a| == |b|;
    assert a == d[6..6 + |a|];
    assert b == d[6..6 + |b|];
  }

  /** How many methods carry the name. */
  function CountNamed(ms: seq<Method>, n: string): nat
  {
    if |ms| == 0 then 0 else CountNamed(ms[..|ms| - 1], n) + (if ms[|ms| - 1].name == n then 1 else 0)
  }

  /** The decoder of `n` is written once per method named `n`. */
  lemma {:induction false} DecoderCount(ms: seq<Method>, n: string)
    ensures multiset(Decoders(ms))[DecoderName(n)] == CountNamed(ms, n)
  {
    if |ms| > 0 {
      var init := ms[..|ms| - 1];
      DecoderCount(init, n);
      assert multiset(Decoders(ms)) == multiset(Decoders(init)) + multiset{DecoderName(ms[|ms| - 1].name)};
      if DecoderName(ms[|ms| - 1].name) == DecoderName(n) {
        DecoderNameInjective(ms[|ms| - 1].name, n);
      }
    }
  }

  predicate DistinctNames(ms: seq<Method>)
  {
    forall i, j :: 0 <= i < j < |ms| ==> ms[i].name != ms[j].name
  }

  lemma {:induction false} CountNamedDistinct(ms: seq<Method>, k: nat)
    requires DistinctNames(ms) && k < |ms|
    ensures CountNamed(ms, ms[k].name) == 1
  {
    var init := ms[..|ms| - 1];
    assert DistinctNames(init);
    if k == |ms| - 1 {
      CountNamedAbsent(init, ms[k].name);
    } else {
      assert init[k] == ms[k];
      CountNamedDistinct(init, k);
    }
  }

  lemma {:induction false} CountNamedAbsent(ms: seq<Method>, n: string)
    requires forall i :: 0 <= i < |ms| ==> ms[i].name != n
    ensures CountNamed(ms, n) == 0
  {
    if |ms| > 0 {
      CountNamedAbsent(ms[..|ms| - 1], n);
    }
  }

  /** Methods of one interface have distinct names, so each gets exactly
      one decoder. */
  lemma OneDecoderPerMethod(ms: seq<Method>, k: nat)
    requires DistinctNames(ms) && k < |ms|
    ensures multiset(Decoders(ms))[DecoderName(ms[k].name)] == 1
  {
    DecoderCount(ms, ms[k].name);
    CountNamedDistinct(ms, k);
  }
}
