/** parser/src.go: what the parser extracts from a Go source file. */
module Src {

  /** A name, a type and an initial value (`var a int = 2`), all as text. */
  datatype NamedTypeValue = NamedTypeValue(name: string, typ: string, value: string)

  datatype Struct = Struct(name: string, comment: string, vars: seq<NamedTypeValue>)

  /** A declared function type (`type Middleware func(Service) Service`). */
  datatype FuncType = FuncType(name: string, params: seq<NamedTypeValue>, results: seq<NamedTypeValue>)

  /** A function or method; `recv` is the receiver (the Go field `Struct`),
      all empty for a plain function. */
  datatype Method = Method(comment: string, name: string, recv: NamedTypeValue, body: string,
                           params: seq<NamedTypeValue>, results: seq<NamedTypeValue>)

  datatype Interface = Interface(name: string, comment: string, methods: seq<Method>)

  datatype File = File(comment: string, pkg: string, funcType: FuncType,
                       imports: seq<NamedTypeValue>, constants: seq<NamedTypeValue>,
                       vars: seq<NamedTypeValue>, interfaces: seq<Interface>,
                       structures: seq<Struct>, methods: seq<Method>)

  function NewNameType(name: string, tp: string): NamedTypeValue
  {
    NamedTypeValue(name, tp, "")
  }

  function NewNameTypeValue(name: string, tp: string, vl: string): NamedTypeValue
  {
    NamedTypeValue(name, tp, vl)
  }

  /** The receiver of a plain function. */
  const NoReceiver := NamedTypeValue("", "", "")

  function NewMethod(name: string, recv: NamedTypeValue, body: string,
                     params: seq<NamedTypeValue>, results: seq<NamedTypeValue>): Method
  {
    Method("", name, recv, body, params, results)
  }

  function NewInterface(name: string, methods: seq<Method>): Interface
  {
    Interface(name, "", methods)
  }

  function NewStruct(name: string, vars: seq<NamedTypeValue>): Struct
  {
    Struct(name, "", vars)
  }

  /** A file with nothing in it: no declaration of any kind, and an empty
      package name and comment. */
  function NewFile(): (f: File)
    ensures f.imports == [] && f.constants == [] && f.vars == [] && f.interfaces == []
    ensures f.structures == [] && f.methods == [] && f.pkg == "" && f.comment == ""
  {
    File("", "", FuncType("", [], []), [], [], [], [], [], [])
  }

  /** A name and type without a value are the three-part constructor with
      an empty value. */
  lemma NameTypeHasNoValue(name: string, tp: string)
    ensures NewNameType(name, tp) == NewNameTypeValue(name, tp, "")
    ensures NewNameType(name, tp).value == ""
  {
  }

  /** The constructors keep what they are given and leave the comment
      empty. */
  lemma ConstructorsKeepArguments(name: string, tp: string, vl: string, recv: NamedTypeValue, body: string,
                                  params: seq<NamedTypeValue>, results: seq<NamedTypeValue>,
                                  methods: seq<Method>, vars: seq<NamedTypeValue>)
    ensures var v := NewNameTypeValue(name, tp, vl); v.name == name && v.typ == tp && v.value == vl
    ensures var m := NewMethod(name, recv, body, params, results);
      m.name == name && m.recv == recv && m.body == body && m.params == params && m.results == results && m.comment == ""
    ensures var i := NewInterface(name, methods); i.name == name && i.methods == methods && i.comment == ""
    ensures var st := NewStruct(name, vars); st.name == name && st.vars == vars && st.comment == ""
  {
  }
}
