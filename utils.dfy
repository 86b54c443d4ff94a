/** utils/utils.go: case helpers over the third-party camel/snake case
    functions, and the import paths of the generated packages. */
module Utils {
  import opened Wrappers
  import opened GoStrings

  /** The third-party case conversions (godash.ToCamelCase and
      godash.ToSnakeCase). Their behaviour is not modelled: every operation
      that needs them takes them as a parameter. */
  datatype CaseFns = CaseFns(camel: string -> string, snake: string -> string)

  /** `ToCamelCase(s)` is the third-party conversion itself. */
  function ToCamelCase(cf: CaseFns, s: string): string
  {
    cf.camel(s)
  }

  /** What `ToLowerFirstCamelCase(s)` needs in order not to panic: a first
      byte, and a camel case form that has one too (it drops the first). */
  predicate LowerFirstCamelDefined(cf: CaseFns, s: string)
  {
    |s| >= 1 && (|s| >= 2 ==> |cf.camel(s)| >= 1)
  }

  /** The first byte of `s`, lowered, followed by the camel case form of `s`
      without its first byte. */
  function ToLowerFirstCamelCase(cf: CaseFns, s: string): (r: string)
    requires LowerFirstCamelDefined(cf, s)
    ensures |r| >= 1 && r[0] == Lower(s[0]) && !IsUpperAscii(r[0])
    ensures |s| == 1 ==> r == [Lower(s[0])]
    ensures |s| >= 2 ==> |r| == |cf.camel(s)| && r[1..] == cf.camel(s)[1..]
  {
    if |s| == 1 then ToLower([s[0]])
    else ToLower([s[0]]) + cf.camel(s)[1..]
  }

  /** The first byte of `s` in upper case, the rest unchanged. */
  function ToUpperFirst(s: string): (r: string)
    requires |s| >= 1
    ensures |r| == |s| && r[0] == Upper(s[0]) && r[1..] == s[1..]
    ensures !IsLowerAscii(r[0])
  {
    ToUpper([s[0]]) + s[1..]
  }

  lemma ToUpperFirstIdempotent(s: string)
    requires |s| >= 1
    ensures ToUpperFirst(ToUpperFirst(s)) == ToUpperFirst(s)
  {
    UpperIdempotent(s[0]);
  }

  /** utils/utils_test.go: "test" becomes "Test". */
  lemma ToUpperFirstExample()
    ensures ToUpperFirst("test") == "Test"
  {
    assert ToUpperFirst("test")[0] == 'T';
    assert ToUpperFirst("test")[1..] == "est";
  }

  /** The snake case form of `s`, with every letter in lower case. */
  function ToLowerSnakeCase(cf: CaseFns, s: string): (r: string)
    ensures |r| == |cf.snake(s)|
    ensures forall i :: 0 <= i < |r| ==> !IsUpperAscii(r[i])
  {
    ToLower(cf.snake(s))
  }

  // ---------------------------------------------------------------- import paths

  /** What the import path computation reads from its surroundings: the
      configuration (viper; an unset key reads as ""), the GOPATH Go falls
      back to when none is configured, and the working directory. */
  datatype Env = Env(settings: map<string, string>, defaultGopath: string, wd: Result<string>)

  function Setting(env: Env, key: string): string
  {
    if key in env.settings then env.settings[key] else ""
  }

  /** `GetGOPATH`: the configured GOPATH, else the default one. */
  function GetGopath(env: Env): (r: string)
    ensures Setting(env, "GOPATH") != "" ==> r == Setting(env, "GOPATH")
    ensures Setting(env, "GOPATH") == "" ==> r == env.defaultGopath
  {
    if Setting(env, "GOPATH") != "" then Setting(env, "GOPATH") else env.defaultGopath
  }

  /** The six generated packages whose import path is computed, each with
      the configuration key holding its path format. */
  datatype PackageKind = ServicePkg | CmdServicePkg | EndpointPkg | GrpcTransportPkg | PbPkg | HttpTransportPkg

  function FormatKey(k: PackageKind): string
  {
    match k
    case ServicePkg => "gk_service_path_format"
    case CmdServicePkg => "gk_cmd_service_path_format"
    case EndpointPkg => "gk_endpoint_path_format"
    case GrpcTransportPkg => "gk_grpc_path_format"
    case PbPkg => "gk_grpc_pb_path_format"
    case HttpTransportPkg => "gk_http_path_format"
  }

  /** The working directory, extended by the configured project folder,
      with back slashes turned into forward ones. */
  function ProjectDir(env: Env, wd: string): string
  {
    var dir := if Setting(env, "gk_folder") != "" then wd + "/" + Setting(env, "gk_folder") else wd;
    ReplaceChar(dir, '\\', '/')
  }

  function GopathSrc(env: Env): string
  {
    ReplaceChar(GetGopath(env) + "/src/", '\\', '/')
  }

  /** `Get<Kind>ImportPath(name)`: the project directory relative to
      GOPATH/src, then '/', then the configured format filled with the snake
      case name. A failing working-directory lookup is returned as is. */
  function GetImportPath(env: Env, cf: CaseFns, kind: PackageKind, name: string): (r: Result<string>)
    ensures env.wd.Failure? <==> r.Failure?
    ensures env.wd.Failure? ==> r.error == env.wd.error
    ensures r.Success? ==> '\\' !in r.value
    ensures r.Success? ==>
      r.value == RemoveFirst(ProjectDir(env, env.wd.value), GopathSrc(env)) + "/"
                 + ReplaceChar(FormatOne(Setting(env, FormatKey(kind)), ToLowerSnakeCase(cf, name)), '\\', '/')
  {
    match env.wd
    case Failure(e) => Failure(e)
    case Success(wd) =>
      var projectPath := RemoveFirst(ProjectDir(env, wd), GopathSrc(env));
      var pkgPath := ReplaceChar(FormatOne(Setting(env, FormatKey(kind)), ToLowerSnakeCase(cf, name)), '\\', '/');
      ReplacedCharIsGone(ProjectDir(env, wd), '\\', '/');
      RemoveFirstKeepsAbsentChar(ProjectDir(env, wd), GopathSrc(env), '\\');
      ReplacedCharIsGone(FormatOne(Setting(env, FormatKey(kind)), ToLowerSnakeCase(cf, name)), '\\', '/');
      Success(projectPath + "/" + pkgPath)
  }

  /** Inside GOPATH/src the import path starts with the project directory
      relative to it. */
  lemma ImportPathInsideGopath(env: Env, cf: CaseFns, kind: PackageKind, name: string)
    requires env.wd.Success?
    requires HasPrefix(ProjectDir(env, env.wd.value), GopathSrc(env))
    ensures var dir := ProjectDir(env, env.wd.value);
      GetImportPath(env, cf, kind, name).Success? &&
      HasPrefix(GetImportPath(env, cf, kind, name).value, dir[|GopathSrc(env)|..] + "/")
  {
    RemovePrefix(ProjectDir(env, env.wd.value), GopathSrc(env));
  }
}
