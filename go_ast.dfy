/** The syntax tree Go's own parser (go/parser, go/ast) hands to kit's
    parser, reduced to the node kinds kit looks at. Text that kit only
    prints back (a formatted function body, an initialiser) is kept as the
    formatted text. */
module GoAst {
  import opened Wrappers

  /** Type expressions. `ArrayType` stands for slices and arrays alike;
      `OtherExpr` for every other node (channels, literals, ...). */
  datatype Expr =
    | Ident(name: string)
    | Selector(x: Expr, sel: string)
    | Star(x: Expr)
    | ArrayType(elt: Expr)
    | MapType(key: Expr, value: Expr)
    | InterfaceTypeExpr(methods: FieldList)
    | Ellipsis(elt: Expr)
    | StructTypeExpr(fields: FieldList)
    | FuncTypeExpr(params: FieldList, results: FieldList)
    | OtherExpr

  /** One entry of a parameter, result, field or method list: `a, b int`
      has two names, an anonymous `error` result none. */
  datatype Field = Field(names: seq<string>, typ: Expr)

  /** A field list, or Go's nil list (a function without results). */
  datatype FieldList = Fields(list: seq<Field>) | NilList

  /** A function's signature, or nil. */
  datatype FuncSig = Sig(params: FieldList, results: FieldList) | NilSig

  datatype Token = IMPORT | CONST | VAR | TYPE | OtherToken

  /** `values` holds the formatted text of each initialiser. */
  datatype Spec =
    | ImportSpec(alias: Option<string>, path: Option<string>)
    | ValueSpec(names: seq<string>, vtype: Option<Expr>, values: seq<string>)
    | TypeSpec(name: string, typ: Expr)

  /** `body` is the formatted text of the function body, braces included. */
  datatype Decl =
    | FuncDecl(name: string, recv: FieldList, sig: FuncSig, body: Option<string>)
    | GenDecl(tok: Token, specs: seq<Spec>)
    | BadDecl

  /** What go/parser makes of a source text. */
  datatype SourceParse = SyntaxError(msg: string) | ParsedFile(pkg: string, decls: seq<Decl>)
}
