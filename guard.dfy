/** The opening steps every generator's `Generate` takes before emitting
    anything (generator/add_transport.go:50-74, init_service.go:62-86,
    generate_client.go:46-74, generate_middleware.go:50-64): check the
    transport, look for the service file, read and parse it, find the
    service interface and narrow its methods. */
module GenGuard {
  import opened Wrappers
  import opened Src
  import opened GoAst
  import opened Utils
  import Parser
  import opened MethodSet

  /** What the file system answers for the service file: whether it
      exists, and its contents as go/parser reads them. */
  datatype ServiceSource = ServiceSource(present: Result<bool>, contents: Result<SourceParse>)

  /** `SUPPORTED_TRANSPORTS` (generator/init_service.go:17). */
  const SupportedTransports: seq<string> := ["http", "grpc", "thrift"]

  /** The transport check at the head of `Generate`. */
  method CheckTransport(transport: string) returns (ok: bool)
    ensures ok <==> transport in SupportedTransports
  {
    var n := 0;
    while n < |SupportedTransports|
      invariant 0 <= n <= |SupportedTransports|
      invariant forall k :: 0 <= k < n ==> SupportedTransports[k] != transport
    {
      if SupportedTransports[n] == transport {
        return true;
      } else if n == |SupportedTransports| - 1 {
        return false;
      }
      n := n + 1;
    }
    return false;
  }

  /** How the opening steps end. `FsError` is the only one that returns an
      error; `NilFilePanic` is the nil-pointer panic that follows when the
      service file does not parse (the parse error is dropped and the nil
      file is searched). `Ready` carries the parsed file and the service
      interface with its methods narrowed. */
  datatype Outcome =
    | Unsupported
    | FsError(msg: string)
    | ServiceMissing
    | NilFilePanic
    | InterfaceMissing
    | NoSuitableMethods
    | Ready(file: File, service: Interface)

  /** The error `Generate` returns. */
  function ReturnedError(o: Outcome): Option<string>
  {
    if o.FsError? then Some(o.msg) else None
  }

  /** Every interface method of the file has a name. */
  predicate WellNamed(f: File)
  {
    forall k :: 0 <= k < |f.interfaces| ==> NamedMethods(f.interfaces[k].methods)
  }

  /** The parser model is defined on the contents, and the methods of the
      parsed interfaces have names (an empty one makes the filter panic). */
  predicate SourceOk(cf: CaseFns, src: ServiceSource)
  {
    src.contents.Success? ==>
      Parser.Parsable(cf, src.contents.value) &&
      (src.contents.value.ParsedFile? ==> WellNamed(Parser.ParseSpec(cf, src.contents.value).value))
  }

  /** The opening steps. `checkTransport` and `checkMethods` say whether the
      generator checks the transport and rejects a service left without
      methods (the middleware generator does neither). */
  function GuardSpec(cf: CaseFns, checkTransport: bool, transport: string, checkMethods: bool,
                     allow: seq<string>, interfaceName: string, src: ServiceSource): Outcome
    requires SourceOk(cf, src)
  {
    if checkTransport && transport !in SupportedTransports then Unsupported
    else if src.present.Failure? then FsError(src.present.error)
    else if !src.present.value then ServiceMissing
    else if src.contents.Failure? then FsError(src.contents.error)
    else if src.contents.value.SyntaxError? then NilFilePanic
    else
      var file := Parser.ParseSpec(cf, src.contents.value).value;
      match FindInterface(file.interfaces, interfaceName)
      case None => InterfaceMissing
      case Some(iface) =>
        assert WellNamed(file);
        var kept := KeptMethods(allow, iface.methods);
        if checkMethods && |kept| == 0 then NoSuitableMethods
        else Ready(file, iface.(methods := kept))
  }

  /** An unsupported transport ends the run before the file system is
      asked anything. */
  lemma UnsupportedIgnoresFiles(cf: CaseFns, transport: string, checkMethods: bool, allow: seq<string>,
                                interfaceName: string, src1: ServiceSource, src2: ServiceSource)
    requires SourceOk(cf, src1) && SourceOk(cf, src2)
    requires transport !in SupportedTransports
    ensures GuardSpec(cf, true, transport, checkMethods, allow, interfaceName, src1) == Unsupported
    ensures GuardSpec(cf, true, transport, checkMethods, allow, interfaceName, src1)
            == GuardSpec(cf, true, transport, checkMethods, allow, interfaceName, src2)
    ensures ReturnedError(Unsupported).None?
  {
  }

  /** A missing service file ends the run without an error and without
      its contents being read. */
  lemma MissingFileIgnoresContents(cf: CaseFns, checkTransport: bool, transport: string, checkMethods: bool,
                                   allow: seq<string>, interfaceName: string, c1: Result<SourceParse>, c2: Result<SourceParse>)
    requires SourceOk(cf, ServiceSource(Success(false), c1)) && SourceOk(cf, ServiceSource(Success(false), c2))
    requires !checkTransport || transport in SupportedTransports
    ensures GuardSpec(cf, checkTransport, transport, checkMethods, allow, interfaceName, ServiceSource(Success(false), c1))
            == ServiceMissing
    ensures GuardSpec(cf, checkTransport, transport, checkMethods, allow, interfaceName, ServiceSource(Success(false), c2))
            == ServiceMissing
  {
  }

  /** A run that gets through has the first interface of the parsed file
      with the expected name, narrowed by the filter; with the methods
      check, at least one method is left. */
  lemma ReadyMeansFound(cf: CaseFns, checkTransport: bool, transport: string, checkMethods: bool,
                        allow: seq<string>, interfaceName: string, src: ServiceSource)
    requires SourceOk(cf, src)
    requires GuardSpec(cf, checkTransport, transport, checkMethods, allow, interfaceName, src).Ready?
    ensures var o := GuardSpec(cf, checkTransport, transport, checkMethods, allow, interfaceName, src);
      src.present == Success(true) && src.contents.Success? && src.contents.value.ParsedFile? &&
      o.file == Parser.ParseSpec(cf, src.contents.value).value &&
      FindInterface(o.file.interfaces, interfaceName).Some? &&
      var iface := FindInterface(o.file.interfaces, interfaceName).value;
      o.service.name == interfaceName && o.service.comment == iface.comment &&
      NamedMethods(iface.methods) && o.service.methods == KeptMethods(allow, iface.methods) &&
      (checkMethods ==> |o.service.methods| > 0)
  {
  }
}
