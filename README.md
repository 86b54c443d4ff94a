# A verified model of kit's reconciliation core

kit (kujtimiihoxha/kit) is a command-line tool that scaffolds and extends go-kit
microservices. Every `kit` command follows the same shape:

1. Read the user's service file.
2. Parse it into a small declaration model (imports, constants, variables,
   structs, interfaces, functions).
3. Narrow the service interface to the methods that can be served.
4. Emit only the declarations the file does not have yet.

Step 4 is what makes a second run of a command add nothing, wherever the
code checks the file it writes to under the names it writes.
Step 4 covers the service struct and stubs, the constructors, the HTTP
handlers, decoders, encoders and error helpers, the middlewares, the gRPC
`.proto` RPCs and messages, and the docker-compose entries.

This project models that core in Dafny and proves what the code promises:

- which declarations are emitted, and that a second run emits nothing, or
  exactly what it emits again where the check and the write do not match;
- which methods survive the filters;
- which imports are missing, and how they are spliced;
- how names, routes and host ports are chosen.

The annotation-driven `service` package of the newer generator is modelled
too, together with the helpers its templates use.

The modules follow the repository:

- Declaration model and parser:
  - `Src` (parser/src.go), the extracted declarations;
  - `GoAst`, the go/parser output the parser reads;
  - `Parser` (parser/parse.go).
- Shared helpers:
  - `GoStrings`, models of the Go string functions used;
  - `Utils` (utils/utils.go).
- Logic shared by every generator:
  - `MethodSet`, the `removeBadMethods` and `serviceFound` rule;
  - `GenGuard`, the opening steps of each `Generate`;
  - `Fragments`, presence-checked emission by identity;
  - `Generator` (generator/generator.go).
- One module per command:
  - `AddTransport` (generator/add_transport.go);
  - `ServiceInit` (generator/init_service.go);
  - `ClientGen` (generator/generate_client.go);
  - `MiddlewareGen` (generator/generate_middleware.go);
  - `DockerGen` (generator/generate_docker.go).
- The annotation-driven service package:
  - `ServiceCode`, its source model;
  - `ServiceUtils` (service/utils.go);
  - `ServiceTransport` (service/transport.go);
  - `ServicePkg` (service/service.go);
  - `GenUtils` (generator/utils.go).
- Template helpers:
  - `Utf8`, the decoder of Go's unicode/utf8;
  - `TemplateFunctions` (template/functions.go).

The generators become classes. The Go structs keep their state in fields
that `Generate` updates as it goes: the parsed file, the narrowed interface,
and what has been emitted. The loops become methods whose `ensures` tie
their results to specification functions, and the lemmas are stated on
those functions.

Foreign libraries are passed in as parameters:

- `CaseFns` holds the camel-case and snake-case conversions of godash and
  strutil.
- `lower` is `unicode.ToLower`.
- `str` is `code.Parameter.String`.
- `findStruct` looks up a request or response structure.

The environment is passed in as values:

- `Env` holds the viper settings, the default GOPATH and the working
  directory.
- `ServiceSource` holds what the file system answers for the service file.
- `ImportCtx` holds the module, package, working directory and `testPath`.

## Model

| member | source | states |
|---|---|---|
| Src.NameTypeHasNoValue | parser/src.go:56-70 | `NewNameType` is `NewNameTypeValue` with an empty value |
| Src.ConstructorsKeepArguments | parser/src.go:64-102 | `NewNameTypeValue`, `NewMethod`, `NewInterface` and `NewStruct` keep their arguments, the last three with an empty comment |
| Src.NewFile | parser/src.go:103-112 | a file with no declaration of any kind and an empty package and comment |
| Parser.SupportedTypeHasStem | parser/parse.go:212-241 | the rendering of any supported type expression is non-empty and has a character after a leading `[]` or `*`, so an anonymous field of it can always be named |
| Parser.TypeStringExamples | parser/parse_test.go:46-55 | a selector, a map, a slice and a pointer render as `ct.Context`, `map[string]string`, `[]string` and `*Hi` |
| Parser.TypeStringOtherExamples | parser/parse.go:212-241 | the empty interface renders as `interface{}` and a variadic as `...` followed by its element; a struct type and any other node render as "" |
| Parser.SupportedAnonymousFieldsAreNameable | parser/parse.go:193-202 | the default name of an anonymous field of a supported type is always defined (no slice out of range) |
| Parser.AnonNameShape | parser/parse.go:193-202 | the default name is the stem (the first character after `[]` or `*`) lowered, followed by the field's index |
| Parser.ParseFieldListAsNamedTypes | parser/parse.go:181-211 | the loop yields one entry per name of each field, same type and in name order, and one synthesised name per anonymous field |
| Parser.FieldNames | parser/parse.go:186-201 | every field yields at least one name: its declared names, or one default name when it has none |
| Parser.FieldNamesOf | parser/parse.go:186-201 | the inner loop collects exactly those names |
| Parser.AppendNamedTypes | parser/parse.go:202-206 | one entry per name, each with the field's type, appended after the entries so far in name order |
| Parser.FieldsEntriesCount | parser/parse.go:189-207 | the number of entries is the number of names, with an anonymous field counting as one |
| Parser.AnonymousResultsExample | parser/parse_test.go:50-55 | the anonymous results `[]string, *Hi, error` are named `s0`, `h1`, `e2` |
| Parser.ParseFieldListAsMethods | parser/parse.go:242-262 | the loop yields one method per function-typed field, in order, and skips every other member |
| Parser.ParseImports | parser/parse.go:106-124 | one entry per import spec, in order: the alias (or "") as name and the quoted path literal as type |
| Parser.ValueEntry | parser/parse.go:125-156 | a spec's entry uses its first name, and its value is the first initialiser or "" |
| Parser.ValueEntriesCount | parser/parse.go:125-180 | each value spec contributes exactly one entry |
| Parser.ParseVars | parser/parse.go:125-156 | the loop yields the entries of the var specs in order |
| Parser.ParseConstantsAsWritten | parser/parse.go:157-180 | the loop as written, which needs every constant spec to have an initialiser |
| Parser.ImplicitConstantValuePanics | parser/parse.go:167 | `const ( A = iota; B )` violates what the code as written needs |
| Parser.ParseConstants | parser/parse.go:157-180 | the corrected loop accepts every constant spec and yields one entry per spec |
| Parser.VarsAndConstantsExample | parser/parse_test.go:77-103 | the test's declarations give 3 vars and 2 constants |
| Parser.ParseType | parser/parse.go:76-105 | the loop over type specs appends interfaces and structs and lets the last func type win |
| Parser.TypeSpecsIntoFields | parser/parse.go:76-105 | type specs only add interfaces (with their function members as methods) and structs in order and may replace the func type; every other part of the file is unchanged |
| Parser.Parse | parser/parse.go:20-75 | a syntax error gives an error and no file; otherwise the declarations are classified in order, a `const` declaration needing an initialiser in every spec as the code's index of its first value does |
| Parser.ParseDecl | parser/parse.go:29-69 | one pass of the loop, reading constants with the loop as written, extends the file exactly as the classification step does, whose effect on each part of the file the next four rows state |
| Parser.DeclStepKeeps | parser/parse.go:28-62 | a declaration never changes the package or the comment; a function declaration appends exactly its method; an import declaration replaces the imports and any other leaves them |
| Parser.DeclStepValues | parser/parse.go:63-66 | a const declaration appends the entries of its specs to the constants and a var declaration to the vars; no other declaration touches either |
| Parser.DeclStepInterfaces | parser/parse.go:66-67 | only a type declaration adds interfaces, those of its specs in order, after the ones read so far |
| Parser.DeclStepStructs | parser/parse.go:66-67 | only a type declaration adds structures, those of its specs in order, after the ones read so far |
| Parser.ParseKeepsFunctionsInOrder | parser/parse.go:29-57 | each top-level function declaration yields exactly one method, in source order |
| Parser.ParseImportsLastDeclWins | parser/parse.go:61-62 | an import declaration replaces the imports collected so far, so the last one wins |
| Parser.TwoImportDeclsExample | parser/parse.go:61-62 | with imports of `"a"` and then `"b"` in two declarations, only `"b"` remains |
| Parser.ParsedValuesAccumulate | parser/parse.go:63-66 | constants and vars accumulate over every const or var declaration, in order |
| Parser.ParsedInterfacesAccumulate | parser/parse.go:66-67 | interfaces accumulate over the type declarations, in order |
| Parser.ParsedStructsAccumulate | parser/parse.go:66-67 | structures accumulate over the type declarations, in order |
| Parser.ParseKeepsPackage | parser/parse.go:20-28 | the package name and the file comment are those of the file, untouched by the declarations |
| Parser.ReceiverExample | parser/parse_test.go:61-76 | the receiver `(a *Hi)` becomes the entry with name `a` and type `*Hi` |
| Utils.ToLowerFirstCamelCase | utils/utils.go:17-22 | a one-character string becomes its lower case; a longer one becomes its first byte lowered followed by the camel case from index 1 on |
| Utils.ToUpperFirst | utils/utils.go:23-25 | the first byte is upper-cased and the rest is kept |
| Utils.ToUpperFirstIdempotent | utils/utils.go:23-25 | applying it twice is applying it once |
| Utils.ToUpperFirstExample | utils/utils.go:23-25 | `test` becomes `Test` |
| Utils.ToLowerSnakeCase | utils/utils.go:26-28 | the result has no upper-case ASCII letter and the snake case's length |
| Utils.GetGopath | utils/utils.go:150-155 | the configured GOPATH when it is set, else the default |
| Utils.GetImportPath | utils/utils.go:39-148 | a working-directory error is returned; otherwise the project path with its first `GOPATH/src/` removed, then "/" and the formatted package path, with no backslash left |
| Utils.ImportPathInsideGopath | utils/utils.go:39-56 | inside the GOPATH, the import path starts with the project's path relative to `GOPATH/src` |
| MethodSet.KeptMethods | generator/add_transport.go:115-150 | the kept methods form a subsequence of the interface's methods |
| MethodSet.FilterMethods | generator/add_transport.go:115-150 | the loop computes exactly the kept methods |
| MethodSet.KeptMethodsMember | generator/add_transport.go:118-146 | a method is kept iff it is listed (when a list is given), exported, has a result and has a `context.Context` parameter |
| MethodSet.KeptMethodsAppend | generator/add_transport.go:115-150 | the filter works method by method, so its result preserves order |
| MethodSet.KeptMethodsIdempotent | generator/add_transport.go:115-150 | filtering twice is filtering once |
| MethodSet.NoParametersNotKept | generator/add_transport.go:138-146 | a method without parameters is always dropped |
| MethodSet.AllowListRestricts | generator/add_transport.go:118-129 | with an allow-list, the kept methods are exactly the unrestricted ones whose names are listed |
| MethodSet.RemoveBadMethodsExample | generator/add_transport_test.go:484-528 | for any parameter `a` that is not a context, of `Foo(ctx, a)`, `Bar(a)`, `foobar(a)` and `BarFoo(ctx, a)` only `Foo` is kept |
| MethodSet.FindInterface | generator/add_transport.go:103-114 | the interface found is one of the file's and has the name; none is found iff no interface has it |
| MethodSet.FindInterfaceFirst | generator/add_transport.go:103-114 | the first interface with the name is the one found |
| MethodSet.SearchInterface | generator/add_transport.go:103-114 | the loop finds exactly that interface |
| GenGuard.CheckTransport | generator/add_transport.go:51-58 | the transport passes iff it is one of `http`, `grpc`, `thrift` |
| GenGuard.UnsupportedIgnoresFiles | generator/add_transport.go:51-58 | an unsupported transport ends the run, without error, whatever the file system holds |
| GenGuard.MissingFileIgnoresContents | generator/add_transport.go:59-66 | a missing service file ends the run without error and before its contents matter |
| GenGuard.ReadyMeansFound | generator/add_transport.go:67-79 | when the opening steps succeed, the file was present and parsed, the interface was found, and its methods are exactly the kept ones (and not none, where the generator checks) |
| Fragments.Absent | generator/add_transport.go:220-242 | the declarations to emit are among the candidates |
| Fragments.AbsentMember | generator/add_transport.go:243-342 | a candidate is emitted iff the file does not already declare it |
| Fragments.AbsentCount | generator/add_transport.go:243-342 | no candidate is emitted more often than it is proposed |
| Fragments.EmittedReadsBack | generator/add_transport.go:243-342 | every emitted declaration is found in the output it was added to |
| Fragments.MergePresent | generator/add_transport.go:243-342 | after the merge a declaration is present iff it was in the file or was emitted |
| Fragments.AllPresentAfterMerge | generator/add_transport.go:243-342 | after one run every candidate is present |
| Fragments.NothingAbsent | generator/add_transport.go:243-342 | when every candidate is present nothing is emitted |
| Fragments.AbsentIdempotent | generator/add_transport.go:243-342 | a second run over the merged file emits nothing |
| Fragments.AbsentAppend | generator/add_transport.go:243-342 | the selection works candidate by candidate |
| Generator.GetMissingImports | generator/generator.go:39-63 | the loops with their early exit compute the missing imports |
| Generator.ScanFromMeaning | generator/generator.go:44-53 | the scan over the existing imports fails iff it meets an unquotable unaliased import before one that provides the required import, and otherwise reports whether none provides it |
| Generator.MissingImportsAreUnprovided | generator/generator.go:40-61 | with quotable imports, the result is the required imports no existing import provides; with no existing imports it is the required list unchanged |
| Generator.MissingImportsFailure | generator/generator.go:44-47 | an error is returned iff some required import meets an unquotable unaliased import before a provider |
| Generator.UnprovidedIsSubsequence | generator/generator.go:40-57 | the result is no longer than the required list and holds only required imports that nothing provides |
| Generator.MissingImportsIdempotent | generator/generator.go:39-63 | once the missing imports are added, nothing is missing |
| Generator.AsImportSpecs | generator/generator.go:126-172 | one import spec per import, aliased by its name, with its path |
| Generator.AddImportsToFile | generator/generator.go:117-181 | a syntax error is returned; otherwise the new specs are appended to every import declaration, or one new import declaration is put first when there is none |
| Generator.AddedImportsAreReadBack | generator/generator.go:117-181 | for any edit of the kind `AddImportsToFile` makes (`ImportsAdded`, which its contract ensures), parsing the edited file gives the old imports followed by the added ones |
| Generator.EditedImportsReadBack | generator/generator.go:117-181 | on the declarations themselves: the entries of the last import declaration of the edited list are those of the original list (none when it had no import declaration) followed by the added imports |
| Generator.SampleScan | generator/generator.go:83-96 | the single pass as written yields a non-empty prefix of the lowered camel-case sample |
| Generator.GenerateNameBySampleAsWritten | generator/generator.go:83-96 | the loop as written computes that prefix |
| Generator.SampleScanReturnsExcludedName | generator/generator.go:83-96 | for `hello` with the excluded names `he` and `h` in that order, the pass as written returns `he`, which is excluded |
| Generator.GenerateNameBySample | generator/generator.go:83-96 | the corrected search returns the shortest prefix of the lowered camel-case sample that is not excluded, or reports that every prefix is excluded |
| Generator.NoMatchKeepsFirst | generator/generator.go:83-96 | when no name is the first letter, the pass gives the first letter |
| Generator.QualifierIsFirstMatchingImport | generator/generator.go:99-114 | the qualifier of `pkg.Sel` is the unquoted path of the first import that names `pkg` by alias or by last path element |
| Generator.QualifierAbsent | generator/generator.go:99-114 | a variadic type, or one whose package no import names, gets "" |
| Generator.QualifierOfSelectorType | generator/generator.go:99-114 | the package of `pkg.Sel` is the text before the first dot |
| Generator.EnsureThatWeUseQualifierIfNeeded | generator/generator.go:99-114 | a variadic type, and any type when there are no imports, gets "" |
| AddTransport.GenerateTransport.constructor | generator/add_transport.go:32-48 | the generator starts with the camel-case service interface name and nothing parsed |
| AddTransport.GenerateTransport.ServiceFound | generator/add_transport.go:103-114 | found iff some interface has the service interface name, and the first such interface is then stored |
| AddTransport.GenerateTransport.RemoveBadMethods | generator/add_transport.go:115-150 | the interface keeps exactly the kept methods for the requested method list |
| AddTransport.GenerateTransport.Generate | generator/add_transport.go:50-79 | the opening steps end as the guard specification says, and on success hold the parsed file and the narrowed interface |
| AddTransport.Dispatch | generator/add_transport.go:80-100 | `http` and `grpc` each select their generator and anything else is not implemented |
| AddTransport.ThriftNotImplemented | generator/add_transport.go:80-100 | of the supported transports only `thrift` has no generator |
| AddTransport.HttpRoute | generator/add_transport.go:262 | the route is "/" followed by the snake-case name with every `_` turned into `-` |
| AddTransport.SelectHttpFragments | generator/add_transport.go:204-419 | the loops select exactly the HTTP declarations the file lacks |
| AddTransport.ScanFileMethods | generator/add_transport.go:220-242 | the scan of the file's functions reports, for each handler, decoder, encoder and error helper name, whether some function has it |
| AddTransport.EmitMethodFunctions | generator/add_transport.go:243-342 | for one method, the handler, decoder and encoder emitted are exactly those of its three the file lacks |
| AddTransport.EmitErrorHelpers | generator/add_transport.go:344-419 | the error helpers emitted are exactly those the file lacks |
| AddTransport.ScanResults | generator/add_transport.go:214-219 | reports whether the method has a result of type `error` |
| AddTransport.MethodFunctionsEmitted | generator/add_transport.go:220-342 | for each kept method, `make<m>Handler`, `decode<m>Request` and `encode<m>Response` are each emitted iff no function of the file has that name |
| AddTransport.ErrorHelperEmitted | generator/add_transport.go:204-218 | each error helper is emitted iff some kept method returns an `error` and the file lacks the helper |
| AddTransport.EmittedHasOrigin | generator/add_transport.go:204-419 | every emitted declaration comes from a kept method or is a needed error helper, and is absent from the file |
| AddTransport.HttpIdempotent | generator/add_transport.go:178-445 | a second run over the merged file emits nothing |
| AddTransport.HttpKeepsExisting | generator/add_transport.go:178-445 | nothing the file declared is lost |
| AddTransport.WithRpcs | generator/add_transport.go:636-657 | the RPC list only grows: the old elements come first, unchanged |
| AddTransport.WithMessages | generator/add_transport.go:610-635 | the element list only grows: the old elements come first, unchanged |
| AddTransport.FindService | generator/add_transport.go:600-609 | the index found is that of the first service with the name, or none has it |
| AddTransport.GrpcProto.constructor | generator/add_transport.go:528-543 | the proto generator starts with the camel-case service name and no elements |
| AddTransport.GrpcProto.GetService | generator/add_transport.go:600-609 | the loop finds exactly the first service with the name |
| AddTransport.GrpcProto.GetServiceRpc | generator/add_transport.go:636-657 | the loop appends the RPCs the service lacks |
| AddTransport.GrpcProto.GenerateRequestResponse | generator/add_transport.go:610-635 | the loop appends the request and reply messages the definition lacks |
| AddTransport.GrpcProto.Generate | generator/add_transport.go:544-599 | a file-system error leaves the elements unchanged; otherwise the elements become the merged definition |
| AddTransport.WithRpcsCovers | generator/add_transport.go:636-657 | after the merge every kept method has an RPC |
| AddTransport.WithRpcsAdded | generator/add_transport.go:636-657 | every appended RPC is that of a kept method the service lacked |
| AddTransport.WithRpcsNothingNew | generator/add_transport.go:636-657 | when every method already has an RPC the service is unchanged |
| AddTransport.WithRpcsIdempotent | generator/add_transport.go:636-657 | merging twice is merging once |
| AddTransport.WithMessagesCovers | generator/add_transport.go:610-635 | after the merge every kept method has its request and reply message |
| AddTransport.WithMessagesAdded | generator/add_transport.go:610-635 | every appended element is a request or reply message of a kept method that was missing |
| AddTransport.WithMessagesNothingNew | generator/add_transport.go:610-635 | when every method already has both messages the definition is unchanged |
| AddTransport.WithMessagesIdempotent | generator/add_transport.go:610-635 | merging twice is merging once |
| AddTransport.ProtoMergeKeeps | generator/add_transport.go:544-599 | existing elements are kept in place, and only the named service gets the new RPCs |
| AddTransport.ProtoMergeIdempotent | generator/add_transport.go:544-657 | a second merge changes nothing |
| ServiceInit.StubCandidates | generator/init_service.go:133-159 | one stub candidate per kept method, in order, on the pointer to the service struct |
| ServiceInit.StubFor | generator/init_service.go:133-159 | a stub keeps the method's name, parameters and results, is on the pointer to the service struct, and returns its named results in order |
| ServiceInit.ParamsAndResultsMember | generator/init_service.go:126-132 | the names the receiver is checked against are exactly the parameters and results of the kept methods |
| ServiceInit.CollectParamsAndResults | generator/init_service.go:126-132 | the loop collects those names |
| ServiceInit.InitService.constructor | generator/init_service.go:43-61 | the generator starts with the camel-case interface name, the lowered camel-case struct name and nothing emitted |
| ServiceInit.InitService.ServiceFound | generator/init_service.go:231-242 | found iff some interface has the name, the first one being stored, and nothing else changes |
| ServiceInit.InitService.RemoveBadMethods | generator/init_service.go:243-265 | the interface keeps exactly the exported methods with a result and a context parameter, in order |
| ServiceInit.InitService.GenerateServiceStruct | generator/init_service.go:171-179 | the service struct is emitted iff the file lacks a struct of that name |
| ServiceInit.InitService.GenerateServiceMethods | generator/init_service.go:125-170 | a stub is emitted for each kept method the struct lacks; the receiver name is the one the single pass over the parameter and result names settles on |
| ServiceInit.InitService.GenerateNewBasicStructMethod | generator/init_service.go:212-230 | `New<Camel(struct)>` is emitted iff the file lacks a function of that name |
| ServiceInit.InitService.GenerateNewMethod | generator/init_service.go:180-211 | `New` is emitted iff the file lacks a function of that name |
| ServiceInit.InitService.OpeningSteps | generator/init_service.go:62-90 | the opening steps end as the guard specification says, storing the parsed file and the narrowed interface on success and emitting nothing |
| ServiceInit.InitService.AddDeclarations | generator/init_service.go:91-94 | the struct, stubs and constructors the file lacks are appended to what was emitted, with the receiver name of that single pass |
| ServiceInit.InitService.Generate | generator/init_service.go:62-95 | after the opening steps, the struct, the needed stubs and the constructors are emitted, each only when absent; nothing is emitted when the opening steps stop |
| ServiceInit.SelectStubs | generator/init_service.go:133-159 | the loop emits a stub exactly for each method without a same-named method on the service struct |
| ServiceInit.HasMethodNamedOn | generator/init_service.go:134-141 | the loop finds a method iff the file has one of that name on that receiver type |
| ServiceInit.StructEmitted | generator/init_service.go:171-179 | the struct is among the emitted declarations iff the file lacks it |
| ServiceInit.StubEmitted | generator/init_service.go:133-159 | the stub of a method is emitted iff no method of the file has its name and the struct pointer as receiver type |
| ServiceInit.ConstructorsEmitted | generator/init_service.go:180-230 | each constructor is emitted iff no function, whatever its receiver, has its name |
| ServiceInit.InitIdempotent | generator/init_service.go:62-95 | a second run over the merged file emits nothing |
| ServiceInit.MiddlewareTypeRef | generator/init_service.go:339-390 | a type is qualified iff its package is named by an import; otherwise it is kept as written |
| ServiceInit.MethodMiddleware | generator/init_service.go:339-390 | the loops build the method's logging middleware from its parameters and results |
| ServiceInit.MiddlewareParams | generator/init_service.go:352-364 | per parameter a type reference, the call's argument name, and a log key and value skipping `context.Context` |
| ServiceInit.MiddlewareResults | generator/init_service.go:365-374 | per result a type reference and a log key and value |
| ServiceInit.AllRenderableMeaning | generator/init_service.go:352-372 | a list of values can be rendered iff each of its types that an import qualifies has a part after its first dot, the piece the code indexes |
| ServiceInit.MethodMiddlewares | generator/init_service.go:339-390 | one middleware per kept method, in order |
| ServiceInit.GenerateMethodMiddleware | generator/init_service.go:339-390 | the receiver name is the one the single pass over the parameter and result names settles on, and one middleware is built per method |
| ServiceInit.LogArgsLayout | generator/init_service.go:352-375 | the log keys are `method` and the method's name, then a key and value for each non-context parameter, then for each result, in order |
| ServiceInit.ContextNotLogged | generator/init_service.go:352-375 | a parameter is logged iff its type is not `context.Context` |
| ServiceInit.ExposedTypeMeaning | generator/init_service.go:545-596 | a type gets the `service.` prefix iff it has no dot and starts with an upper-case letter |
| ServiceInit.ExposedTypeAsWritten | generator/init_service.go:552-558 | the type is kept or gets the `service.` prefix |
| ServiceInit.ExposedTypeAsWrittenMeaning | generator/init_service.go:552-558 | as written, a type gets the prefix iff it has no dot and its first byte is its own upper case |
| ServiceInit.ExposedType | generator/init_service.go:552-558 | the corrected prefix: the type is kept or prefixed |
| ServiceInit.EndpointTypeRef | generator/init_service.go:545-596 | a type is qualified iff an import names its package, and is otherwise prefixed by the check as written |
| ServiceInit.RequestFields | generator/init_service.go:545-571 | one request field per non-context parameter |
| ServiceInit.ResponseFields | generator/init_service.go:572-596 | one response field per result |
| ServiceInit.RequestFieldsOf | generator/init_service.go:545-571 | the loop over the parameters computes the request fields |
| ServiceInit.ResponseFieldsOf | generator/init_service.go:572-596 | the loop over the results computes the response fields |
| ServiceInit.EndpointFor | generator/init_service.go:535-644 | the request and response structs are `<m>Request` and `<m>Response` with those fields, and the maker is `Make<m>Endpoint` |
| ServiceInit.GenerateMethodEndpoint | generator/init_service.go:535-644 | the loops build one endpoint per kept method, in order |
| ServiceInit.RequestFieldsSkipContext | generator/init_service.go:545-571 | each request field comes from a non-context parameter, in order |
| ServiceInit.ResponseFieldsPerResult | generator/init_service.go:572-596 | each response field is the camel-case result name with its snake-case JSON tag |
| ServiceInit.ExposedTypeOfSlice | generator/init_service.go:552-558 | the check as written prefixes every dot-free slice type such as `[]string`, giving `service.[]string`; the corrected check leaves it |
| ServiceInit.ExposedTypeAgreesOnLetters | generator/init_service.go:545-596 | on types that start with a letter, the check as written and the corrected one agree |
| ClientGen.ClientPath | generator/generate_client.go:182 | the client path is "/" followed by the snake-case name with every `_` turned into `-` |
| ClientGen.BuildClientEndpoints | generator/generate_client.go:167-190 | the loop builds one client endpoint per method, in order |
| ClientGen.BuildDecoders | generator/generate_client.go:292-324 | the loop builds one decoder name per method, in order |
| ClientGen.HttpClientSpec | generator/generate_client.go:148-256 | an import-path error is returned; otherwise the client has one endpoint and one decoder per method |
| ClientGen.GenerateHttpClient | generator/generate_client.go:148-326 | the generator computes exactly that client |
| ClientGen.GenerateClient.constructor | generator/generate_client.go:30-44 | the generator starts with the camel-case interface name and no client |
| ClientGen.GenerateClient.ServiceFound | generator/generate_client.go:88-99 | found iff some interface has the name, the first one being stored |
| ClientGen.GenerateClient.RemoveBadMethods | generator/generate_client.go:100-122 | the interface keeps exactly the kept methods, in order |
| ClientGen.GenerateClient.OpeningSteps | generator/generate_client.go:46-74 | the opening steps end as the guard specification says, storing the parsed file and interface on success and leaving the client |
| ClientGen.GenerateClient.Generate | generator/generate_client.go:45-87 | the opening steps end as the guard says; only `http` builds a client, and its error is returned |
| ClientGen.ClientPathIsServerRoute | generator/generate_client.go:182 | the client posts to the very route the HTTP transport mounts the handler on |
| ClientGen.ClientEndpointAt | generator/generate_client.go:167-190 | each method's endpoint is `POST` to its route, with its own decoder |
| ClientGen.DecoderCount | generator/generate_client.go:292-324 | the decoder of a name appears once per method with that name |
| ClientGen.OneDecoderPerMethod | generator/generate_client.go:292-324 | with distinct method names, each method has exactly one `decode<m>Response` |
| MiddlewareGen.StructNamed | generator/generate_middleware.go:81-85 | the loop finds a struct iff one has the name |
| MiddlewareGen.FuncNamed | generator/generate_middleware.go:94-98 | the loop finds a function iff one has the name |
| MiddlewareGen.GenerateMiddleware.constructor | generator/generate_middleware.go:35-46 | the generator starts with the camel-case interface name and nothing emitted |
| MiddlewareGen.GenerateMiddleware.ServiceFound | generator/generate_middleware.go:251-262 | found iff some interface has the name, the first one being stored |
| MiddlewareGen.GenerateMiddleware.RemoveBadMethods | generator/generate_middleware.go:263-286 | the interface keeps exactly the kept methods, in order |
| MiddlewareGen.GenerateMiddleware.OpeningSteps | generator/generate_middleware.go:50-64 | the opening steps end as the guard specification says (no transport check, no empty-method check), emitting nothing |
| MiddlewareGen.GenerateMiddleware.GenerateServiceMiddleware | generator/generate_middleware.go:75-161 | the struct is emitted iff the service file lacks a struct named `name+"Middleware"`, the constructor iff it lacks a function of its name; both are appended to the service middleware file, and the service file is left as it is |
| MiddlewareGen.GenerateMiddleware.GenerateEndpointMiddleware | generator/generate_middleware.go:162-250 | a read or parse failure of the endpoint file is returned; otherwise the endpoint middleware is emitted iff that file lacks it |
| MiddlewareGen.GenerateMiddleware.Generate | generator/generate_middleware.go:49-73 | a missing service file stops the run; otherwise the service middleware is appended to its file, or the endpoint middleware is generated |
| MiddlewareGen.ServiceMiddlewareEmitted | generator/generate_middleware.go:80-100 | as written, the struct is emitted iff the service file has no struct named `name+"Middleware"`, and the constructor iff it has no function of that name |
| MiddlewareGen.ServiceMiddlewareIdempotent | generator/generate_middleware.go:80-130 | corrected: checking the service middleware file under the names written emits each declaration iff that file lacks it, and a second run emits nothing |
| MiddlewareGen.ServiceMiddlewareRepeats | generator/generate_middleware.go:80-160 | as written, a second run appends to the service middleware file the same declarations again, so a struct or constructor the service file lacks is declared twice, whatever the name |
| MiddlewareGen.EndpointMiddlewareIdempotent | generator/generate_middleware.go:181-223 | the endpoint middleware is emitted iff absent, and a second run emits nothing |
| MiddlewareGen.AsWrittenRepeatsStruct | generator/generate_middleware.go:80-92 | as written, a name that starts upper case is missed even in a file that holds the struct written, so the struct is emitted again |
| MiddlewareGen.AsWrittenAgreesOnLowerCamelNames | generator/generate_middleware.go:80-92 | for names that are already lower camel case, the check as written and the corrected one agree |
| DockerGen.HostPorts | generator/generate_docker.go:185-200 | each used host port is the text before ":" of a port mapping |
| DockerGen.UsedPortsOf | generator/generate_docker.go:185-200 | a port is in the list iff some entry maps it as a host port |
| DockerGen.HostPortsOf | generator/generate_docker.go:194-197 | the loop collects the host port of each mapping |
| DockerGen.PortTaken | generator/generate_docker.go:217-222 | the inner loop reports whether the port is among the used ones |
| DockerGen.FreePortFrom | generator/generate_docker.go:213-233 | the result is the smallest number from the start that is not used |
| DockerGen.SearchPort | generator/generate_docker.go:214-228 | the search loop finds exactly the smallest free port from 8800 |
| DockerGen.CollectUsedPorts | generator/generate_docker.go:185-200 | the used ports are exactly the host ports of the existing entries |
| DockerGen.GenerateDocker.constructor | generator/generate_docker.go:47-56 | the generator starts with no compose services and nothing written |
| DockerGen.DockerFileSpec | generator/generate_docker.go:97-170 | existing services stay; a directory with a Dockerfile or a service gets an entry; a Dockerfile is written only where there is a service and none yet |
| DockerGen.GenerateDocker.AddToDockerCompose | generator/generate_docker.go:172-260 | a file-system error is returned with nothing changed; otherwise the compose map becomes the one the specification adds |
| DockerGen.GenerateDocker.GenerateDockerFile | generator/generate_docker.go:97-170 | the compose state and the written files follow the Dockerfile specification, errors included |
| DockerGen.GenerateDocker.Generate | generator/generate_docker.go:59-96 | every service directory is handled in order, and the compose file is written last |
| DockerGen.FreePortIsSmallest | generator/generate_docker.go:213-233 | the HTTP port is at least 8800, is free, and every smaller port from 8800 is used |
| DockerGen.NewPortsFresh | generator/generate_docker.go:213-257 | the new mappings use fresh host ports that differ from each other; HTTP maps to `:8081`, and with no transport there is no mapping |
| DockerGen.AddKeepsPortsApart | generator/generate_docker.go:172-260 | when no two entries share a host port beforehand, none do after an entry is added |
| DockerGen.DockerFileKeepsPortsApart | generator/generate_docker.go:97-170 | handling one directory never makes two entries share a host port |
| DockerGen.ExistingEntryUntouched | generator/generate_docker.go:201 | a service already in the compose map is left as it is |
| DockerGen.NewEntryLayout | generator/generate_docker.go:202-212 | a new entry is added under the name, and every other entry is kept; it builds from `.` with `<name>/Dockerfile`, restarts always, is named after the service and mounts `.` at its path |
| DockerGen.GenerateKeepsPortsApart | generator/generate_docker.go:59-96 | a whole run never makes two entries share a host port |
| DockerGen.EveryServiceHasEntry | generator/generate_docker.go:59-96 | after a run every pre-existing entry remains, and every service directory with a Dockerfile or service has one |
| ServiceUtils.IsExported | service/utils.go:10-13 | a name is exported iff its first character is upper case; "" is not |
| ServiceUtils.HasCorrectParamNumber | service/utils.go:15-17 | true iff there are one or two parameters |
| ServiceUtils.HasCorrectParamsAsWritten | service/utils.go:18-32 | the check as written succeeds iff there are one or two parameters, the first is not rejected (rejected only when it is not `context.Context` and is a pointer and is variadic), and a second one has an exported type; the count error, the context error and the request error come in that order |
| ServiceUtils.HasCorrectParams | service/utils.go:18-32 | the corrected check succeeds iff the first parameter is a `context.Context` value and a second one has an exported type; the count error, the context error and the request error come in that order |
| ServiceUtils.HasCorrectResults | service/utils.go:34-43 | success iff the results are `error` alone, or a pointer to an exported type then `error`; otherwise the one results error |
| ServiceUtils.ValidatorsImplyCounts | service/utils.go:15-43 | passing the parameter check or the result check implies one or two of them |
| ServiceUtils.CorrectedIsStricter | service/utils.go:22-27 | whatever the corrected check accepts, the check as written accepts too |
| ServiceUtils.AsWrittenAcceptsNonContext | service/utils.go:22-27 | as written, a plain `int` first parameter passes the context check |
| ServiceUtils.ChecksAgreeOnContext | service/utils.go:22-27 | on a method whose first parameter is a `context.Context` value, both checks agree |
| ServiceTransport.HttpAnnotations | service/transport.go:37-40 | the `http` annotations in order, none iff the method has no `http` annotation |
| ServiceTransport.PrepareMethods | service/transport.go:41-44 | one trimmed, upper-cased verb per piece, in order |
| ServiceTransport.PrepareMethodsOf | service/transport.go:41-44 | the loop trims and upper-cases each comma-separated verb |
| ServiceTransport.NewHTTPTransport | service/transport.go:35-57 | the transport's routes are the routes of the `http` annotations |
| ServiceTransport.RoutesForHttpOnly | service/transport.go:37-54 | one route per `http` annotation, in order; other annotations are skipped |
| ServiceTransport.RouteLeadingSlash | service/transport.go:45-48 | every route starts with "/", one that had it is kept as is, and adding it twice is adding it once |
| ServiceTransport.PreparedMethodShape | service/transport.go:41-44 | a verb is trimmed, has no lower-case letter and no comma |
| ServiceTransport.MethodRouteShape | service/transport.go:41-54 | a route has one verb per comma-separated piece; `MethodsAll` is their join with ", "; the route starts with "/"; the name is the annotation's |
| ServicePkg.HasMethodImplementation | service/service.go:210-217 | true iff some function has a receiver of the stub's type and the method's name |
| ServicePkg.HasNewMethod | service/service.go:219-226 | true iff some receiver-less function is named `New` |
| ServicePkg.FindServiceInterface | service/service.go:255-266 | the first exported interface annotated `service`, else the error |
| ServicePkg.FindServiceStub | service/service.go:268-277 | the first struct annotated `stub`, else none |
| ServicePkg.ServiceInterfaceIndex | service/service.go:255-266 | the index of the first exported interface annotated `service`, or none when there is none |
| ServicePkg.StubIndex | service/service.go:268-277 | the index of the first struct annotated `stub`, or none when there is none |
| ServicePkg.FindMethodTransports | service/service.go:326-337 | the loop collects the method's `http` annotations and builds one transport of them when there are any |
| ServicePkg.FixMethodImport | service/service.go:338-354 | an import is added exactly to exported types without one; names and type shape are kept |
| ServicePkg.FixImportsIn | service/service.go:295-300 | each array element is replaced by its completed parameter |
| ServicePkg.FixParameterParams | service/service.go:395-407 | a lone blank parameter becomes `ctx`; of two, a blank first becomes `ctx` and a blank second `request`; types are kept |
| ServicePkg.FixedNamesShape | service/service.go:395-407 | with one or two parameters none is left blank; named ones are unchanged, and a second pass changes nothing |
| ServicePkg.MethodStep | service/service.go:280-321 | a failing check (the parameter check as written) is an error; an unexported method is skipped; a kept method holds the completed interface method |
| ServicePkg.ProcessMethod | service/service.go:280-321 | the body of the loop computes that step |
| ServicePkg.FindServiceMethods | service/service.go:278-324 | the loop returns the scan's result, and leaves the completed methods in the interface |
| ServicePkg.ScanChecksAll | service/service.go:280-287 | on success every method passed the parameter check as written and the result check |
| ServicePkg.ScanKeepsNames | service/service.go:295-300 | completing the parameters leaves every method's name in place |
| ServicePkg.ScanKeepsExported | service/service.go:288-294 | on success the kept methods are exactly the exported ones, in order |
| ServicePkg.KeptMethodShape | service/service.go:295-321 | a kept method is exported, with parameters the check as written accepts and correct results; its parameters are named, a context first parameter and a request type are imported; it has a request iff two parameters, a response iff two results, and one transport iff an `http` annotation |
| ServicePkg.FixImportsIdempotent | service/service.go:338-354 | completing imports twice is completing them once |
| GenUtils.IsUpperRune | generator/utils.go:10-12 | a character counts as upper case iff it is not a lower-case letter |
| GenUtils.FixedType | generator/utils.go:13-25 | a type without an import gets the `service` import iff its name does not start lower case; all else is kept |
| GenUtils.FixTypesIn | generator/utils.go:15-24 | one loop replaces every element by its fixed type |
| GenUtils.FixMethodTypes | generator/utils.go:13-25 | both arrays are replaced by their fixed types |
| GenUtils.RouteMethodsOf | generator/utils.go:27-33 | the loop computes the route's verbs |
| GenUtils.RouteMap | generator/utils.go:38-42 | a route map has exactly the keys `Name`, `Route` and `Methods`, the last holding the upper-cased verbs |
| GenUtils.FindMethodRoutes | generator/utils.go:34-46 | the loop yields one route map per `http` annotation, in order |
| GenUtils.RouteMethodsIsUpper | generator/utils.go:27-33 | splitting on "," and joining again only upper-cases the text |
| GenUtils.RouteMethodsIdempotent | generator/utils.go:27-33 | a second pass changes nothing |
| GenUtils.RouteMethodsPieces | generator/utils.go:27-33 | the verbs split back into the upper-cased pieces, one per piece |
| GenUtils.FixedTypesSettled | generator/utils.go:13-25 | afterwards every type without an import starts lower case, and a second pass changes nothing |
| GenUtils.RoutesAgreeWithTransport | generator/utils.go:34-46 | a route read by the templates agrees with the service transport's on name, and on routes that start with "/" |
| Utf8.DecodeRune | template/functions.go:29 | empty input decodes to the error rune with size 0; an ASCII byte decodes to itself with size 1; a decoding reads at most four bytes |
| Utf8.EncodeRune | template/functions.go:29-31 | a rune is encoded in one to four bytes |
| Utf8.DecodeEncode | template/functions.go:29-31 | decoding the encoding of any rune gives the rune back, with the encoding's length, whatever follows it |
| Utf8.EncodeDecode | template/functions.go:29-31 | a valid decoding read exactly the encoding of its rune |
| TemplateFunctions.ToLowerFirst | template/functions.go:26-37 | "" stays ""; a leading invalid byte, or a first rune that lowering leaves as it is, leaves the text unchanged |
| TemplateFunctions.OnlyFirstRuneChanges | template/functions.go:28-35 | the result starts with the lowered first rune, and the rest of the text is unchanged |
| TemplateFunctions.ToLowerFirstIdempotent | template/functions.go:26-37 | with an idempotent lowering, applying it twice is applying it once |
| TemplateFunctions.ParamsStringOf | template/functions.go:18-24 | the loop builds the join of the parameters' strings with ", " |
| TemplateFunctions.ParamsStringShape | template/functions.go:18-24 | no parameters give ""; one gives its own string; each further one adds ", " and its string |

## Left out

- Rendering is left out: the jennifer statements, `go/format`, `ast.SortImports`, goimports and the proto formatter are foreign. The model tracks declarations by identity (name and receiver), and rendered text is opaque.
- The godash and strutil case conversions are the parameters `CaseFns.camel` and `CaseFns.snake`. Only the `_`→`-` replacement of routes is modelled.
- The file system, viper settings and `os.Getwd` are parameters (`ServiceSource`, `Env`, `ImportCtx`, `ProtoSource`, `ServiceDir`). The reads and writes themselves are not modelled.
- YAML (un)marshalling of docker-compose is left out, and so is the Dockerfile text. The compose services become one `DockerService` record, and a nil entry of the `Services` map is not modelled. DockerGen.CollectUsedPorts: a loaded entry without a `ports` key, or with a port that is not a string, makes Go panic (generator/generate_docker.go:189-190); the model reads a missing port list as the empty one, collects no ports from that entry and allocates as usual.
- `findStruct` (service/service.go:356-394) scans directories and panics. It is the parameter `findStruct`.
- Characters stand for single bytes: case mapping is ASCII-only, as `strings.ToLower`/`ToUpper` behave on ASCII. `unicode.ToLower` in template/functions.go is the parameter `lower`, over real runes decoded from bytes. `TrimSpace` likewise trims only ASCII white space, where `strings.TrimSpace` also trims U+0085 and U+00A0.
- Utils.GetImportPath: the configured path format is read through `FormatOne`, which is `fmt.Sprintf` only for a format holding one `%s` and no other verb (an empty format, or one without `%s`, gets Go's `%!(EXTRA string=…)`). For `a%%b/%s` Go gives `a%b/x` where the model gives `a%%b/x`; for `%d/%s` Go gives `%!d(string=x)/%!s(MISSING)` where the model gives `%d/x`.
- GenUtils.IsUpperRune: Go upper-cases the first byte of the qualifier read as a code point (`rune(Qualifier[0])`), so the bytes 0xB5 and 0xE0 to 0xFF other than 0xF7, lower-case Latin-1 letters, count as lower case there; the model counts every non-ASCII byte as upper case.
- strconv.Unquote accepts only `"…"` literals without escapes and raw back-quoted strings. An escape sequence counts as invalid.
- The watch tooling (goroutines, subprocesses, signals), the `cmd` flag binding, the template glue and `toTitle` are outside the core and are not part of this model.
- Logging has no effect on results and is dropped.
- Utils.ToCamelCase: it is the godash conversion itself, the parameter `CaseFns.camel`; nothing is claimed about it.
- Parser.Parse: the panic of `typ[:1]` when an anonymous field's type renders as "" (parser/parse.go:200, for instance a `chan` or `func` type) is the requirement `StemDefined`/`AnonNameable` on the input, not an outcome.
- Parser.Parse: the panic of `Values[0]` on a constant spec without an initialiser (parser/parse.go:167) is the requirement `ConstantsHaveValues` within `DeclParsable`, not an outcome.
- Utils.ToUpperFirst: the panic of `s[0]` on "" (utils/utils.go:24) is the requirement `|s| >= 1`.
- Generator.SampleScan: when the candidate outgrows the sample (generator/generator.go:89-92), Go goes on with the sample replaced by the text of a negative number converted to a rune; the model ends the scan with `None`, and the generators then have no receiver name. The scan also ends with `None` when `sn` still fits the sample but not its lower first camel case form (generator/generator.go:92), for instance the sample `a_b`, lowered to `aB`, with the excluded names `a` and `aB`: there the slice `[:sn]` makes Go panic, and `None` stands for that panic.
- ServiceInit.EndpointTypeRef / ServiceInit.GenerateMethodEndpoint: the panic of `tp[:1]` on a dot-free type that renders as "" (generator/init_service.go:553, 577), such as the type of `f func()` or `c chan int`, is the requirement `Exposable`, not an outcome. `ExposedTypeAsWritten`, `ExposedType` and `EndpointTypeRef` require it, and through `AllEndpointRenderable` so do `RequestFields`, `ResponseFields`, `EndpointFor` and `GenerateMethodEndpoint`.
- ServiceInit.MiddlewareTypeRef and ServiceInit.EndpointTypeRef: the panic of `s[1]` on a qualified type without a part after its first dot (generator/init_service.go:356, 368) is the requirement `Renderable`/`AllRenderable`, not an outcome.
- The `Middleware` type declaration and the comments that `generateServiceMiddleware` writes on every run (generator/init_service.go:296-297) are not tracked as fragments; they too are appended again on a second run.
- MiddlewareGen.GenerateMiddleware.GenerateServiceMiddleware and MiddlewareGen.GenerateMiddleware.Generate: on the service middleware path the model assumes that every step outside the declaration check succeeds, so it promises `err == None` there. Go can fail at generator/generate_middleware.go:76-79 (the service generator's own run, which ends in a non-forced write of the existing middleware file, generator/init_service.go:336) and at :135-159 (reading, parsing, `getMissingImports`, `AddImportsToFile`, `GoImportsSource`, writing); those error returns are not modelled, and the import completion after emission is not modelled on this path. The branch on `g.serviceGenerator.generateFirstTime` (:132) names a field that neither `generateServiceMiddleware` (generator/init_service.go:267-276) nor `BaseGenerator` (generator/generator.go:29-33) declares; the model reads it as false and always takes the read-and-append branch.
- The call `generateMethodMiddleware(mdwStrucName, false)` (generator/generate_middleware.go:131) does not match the one-argument definition in generator/init_service.go:339. The middleware generator records the fragments it emits, not those bodies.
- `GenerateTransport.Generate` ignores the parse error and then dereferences a nil file. The model ends that run with the outcome `NilFilePanic`.
- The generators' follow-up steps after emission (endpoints file, cmd, transports of `init service`) are modelled only as far as the request/response field rules and log keys go.
- ServicePkg.FindServiceMethods: the requirement `Readable` demands a non-nil import for every method whose first parameter is named `Context`, where Go would panic only when it reaches that method.
- GenUtils.FixMethodTypes requires its two arrays to be distinct, as a method's parameters and results are. The panic of `Qualifier[0]` on a parameter or result that has no import and an empty qualifier (generator/utils.go:16, 21) is the requirement `Indexable`, which `FixedType`, `FixedTypes`, `FixTypesIn`, `FixMethodTypes` and `FixedTypesSettled` carry; the model has no outcome for it.
- Utils.ToLowerFirstCamelCase: its two panics are the requirement `LowerFirstCamelDefined`, not outcomes: `s[0]` on "" (utils/utils.go:18-21) is its half `|s| >= 1`, and `[1:]` on an empty camel case form of a longer string is its other half. Every generator that lowers a name (generator/generator.go, generator/generate_middleware.go, generator/init_service.go, generator/generate_client.go) carries it for that name; the parser carries it through the requirement on `CaseFns` that camel case keeps a string of two or more bytes non-empty.
- `PathJoin` does not clean `.` and `..` elements as `path.Join` does.
- The tests at generator/add_transport_test.go:103-192 expect errors for a missing service file and an unsupported transport. The code returns nil there, and the model follows the code.

## Findings

The model follows each of these programs as written, and the corrected member is proved beside it.

| source | as written | input that shows it | evidently intended | confidence | as-written member | corrected member |
|---|---|---|---|---|---|---|
| generator/generate_middleware.go:80-160 | both checks read the service file, the struct under `name+"Middleware"`, but the declarations are appended to the service middleware file, the struct as `lowerFirstCamel(name)+"Middleware"`; that the second run gets as far as appending also rests on the branch at :132 being false and on the non-forced write at generator/init_service.go:336 not refusing the existing file, whose file-system layer is not part of this model | any name, say `hello`: a second run appends `helloMiddleware` and `HelloMiddleware` to the middleware file again | check the service middleware file under the names written, so a second run adds nothing | high (not executed) | MiddlewareGen.ServiceMiddlewareRepeats | MiddlewareGen.ServiceMiddlewareIdempotent |
| parser/parse.go:167 | `parseConstants` reads `Values[0]` of every constant spec | `const ( A = iota; B )`: `B` has no values, so the index panics | an entry with an empty value, as `parseVars` gives | high (not executed) | Parser.ImplicitConstantValuePanics | Parser.ParseConstants |
| generator/generator.go:83-96 | `GenerateNameBySample` makes one pass over the excluded names, lengthening the candidate on each match | sample `hello`, excluded `he` then `h`: the result `he` is excluded | the shortest prefix that no excluded name equals | high (not executed) | Generator.SampleScanReturnsExcludedName | Generator.GenerateNameBySample |
| generator/init_service.go:552-558 | a type counts as exported when `tp[:1] == strings.ToUpper(tp[:1])`, which holds for `[`, `*` and digits | parameter type `[]string` becomes `service.[]string` | prefix only types that start with an upper-case letter | medium (not executed) | ServiceInit.ExposedTypeOfSlice | ServiceInit.ExposedTypeMeaning |
| service/utils.go:22-27 | the context condition is `!(Qualifier == "Context" && Path == "context") && Pointer && Variadic`, so the parameter is rejected only when it is not the context AND a pointer AND variadic | a single parameter `x int` passes | reject a first parameter that is not a `context.Context` value | medium (not executed) | ServiceUtils.AsWrittenAcceptsNonContext | ServiceUtils.HasCorrectParams |
