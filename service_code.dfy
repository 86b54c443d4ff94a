/** The code model the `service` package reads a service with: the parsed
    source file (interfaces, structures and functions, each with its
    annotations) and the parameter lists of the interface's methods. */
module ServiceCode {
  import opened Wrappers

  /** The import a type is qualified with. */
  datatype Import = Import(name: string, path: string, filePath: string)

  /** A parameter's type: its name (`Qualifier`), its import (nil when
      the type is local or built in), and whether it is a pointer or a
      variadic. */
  datatype Type = Type(qualifier: string, imp: Option<Import>, pointer: bool, variadic: bool)

  datatype Parameter = Parameter(name: string, typ: Type)

  /** An `@name(key=value, ...)` annotation. */
  datatype Annotation = Annotation(name: string, args: map<string, string>)

  /** `Get(key).String()`: the argument's text, empty when it is missing. */
  function Get(a: Annotation, key: string): string
  {
    if key in a.args then a.args[key] else ""
  }

  /** An interface method with its parameters, results and the
      annotations written above it. */
  datatype InterfaceMethod = InterfaceMethod(
    name: string, params: seq<Parameter>, results: seq<Parameter>, annotations: seq<Annotation>)

  /** An interface; `exported` is what the source library reports for it. */
  datatype Interface = Interface(
    name: string, exported: bool, annotations: seq<Annotation>, methods: seq<InterfaceMethod>)

  datatype Structure = Structure(name: string, annotations: seq<Annotation>)

  /** A function, with its receiver when it is a method. */
  datatype Function = Function(name: string, receiver: Option<Parameter>)

  datatype Source = Source(pkg: string, interfaces: seq<Interface>, structures: seq<Structure>, functions: seq<Function>)

  /** Some annotation has the name. */
  predicate Annotated(anns: seq<Annotation>, n: string)
  {
    exists k :: 0 <= k < |anns| && anns[k].name == n
  }
}
