/** parser/parse.go: reading an existing Go file into a `Src.File`. The
    merge logic of every generator decides what to emit by looking at this
    result. Each Go loop is a method proved equal to a fold written as a
    function; the lemmas at the end say what the folds keep. */
module Parser {
  import opened Wrappers
  import opened GoStrings
  import opened Utils
  import opened Src
  import opened GoAst

  // ---------------------------------------------------------------- type text

  /** `getTypeFromExp`: the text of a type expression; "" for a node kind
      kit does not render. */
  function TypeString(e: Expr): string
  {
    match e
    case Ident(n) => n
    case Selector(x, sel) => TypeString(x) + "." + sel
    case Star(x) => "*" + TypeString(x)
    case ArrayType(elt) => "[]" + TypeString(elt)
    case MapType(k, v) => "map[" + TypeString(k) + "]" + TypeString(v)
    case InterfaceTypeExpr(_) => "interface{}"
    case Ellipsis(elt) => "..." + TypeString(elt)
    case StructTypeExpr(_) => ""
    case FuncTypeExpr(_, _) => ""
    case OtherExpr => ""
  }

  predicate IsGoIdent(n: string)
  {
    |n| >= 1 && (IsLowerAscii(n[0]) || IsUpperAscii(n[0]) || n[0] == '_')
  }

  /** Type expressions built only from the node kinds `getTypeFromExp`
      renders, over proper identifiers. */
  predicate Supported(e: Expr)
  {
    match e
    case Ident(n) => IsGoIdent(n)
    case Selector(x, _) => Supported(x)
    case Star(x) => Supported(x)
    case ArrayType(elt) => Supported(elt)
    case MapType(_, _) => true
    case InterfaceTypeExpr(_) => true
    case Ellipsis(_) => true
    case StructTypeExpr(_) => false
    case FuncTypeExpr(_, _) => false
    case OtherExpr => false
  }

  // ---------------------------------------------------------------- anonymous names

  /** The character an anonymous field's default name is made from: the one
      after `[]`, after `*`, or the first one. */
  predicate StemDefined(typ: string)
  {
    if HasPrefix(typ, "[]") then |typ| >= 3
    else if HasPrefix(typ, "*") then |typ| >= 2
    else |typ| >= 1
  }

  function AnonStem(typ: string): (c: string)
    requires StemDefined(typ)
    ensures |c| == 1
  {
    if HasPrefix(typ, "[]") then typ[2..3]
    else if HasPrefix(typ, "*") then typ[1..2]
    else typ[..1]
  }

  /** The default name of the anonymous field at index `i` can be formed
      without a slice or index out of range. */
  predicate AnonNameable(cf: CaseFns, typ: string, i: nat)
  {
    StemDefined(typ) && LowerFirstCamelDefined(cf, AnonStem(typ) + Dec(i))
  }

  function AnonName(cf: CaseFns, typ: string, i: nat): string
    requires AnonNameable(cf, typ, i)
  {
    ToLowerFirstCamelCase(cf, AnonStem(typ) + Dec(i))
  }

  /** The camel case conversion never empties a string of two or more bytes. */
  ghost predicate CamelKeepsText(cf: CaseFns)
  {
    forall s :: |s| >= 2 ==> |cf.camel(s)| >= 1
  }

  /** The text of a supported type is never empty and always has a
      character after a leading `[]` or `*`. */
  lemma {:induction false} SupportedTypeHasStem(e: Expr)
    requires Supported(e)
    ensures |TypeString(e)| >= 1 && StemDefined(TypeString(e))
  {
    match e
    case Ident(n) =>
    case Selector(x, sel) =>
      SupportedTypeHasStem(x);
      var t := TypeString(x);
      var s := t + "." + sel;
      assert TypeString(e) == s;
      if |t| >= 2 { assert s[..2] == t[..2]; } else { assert s[1] == '.'; }
    case Star(x) =>
      SupportedTypeHasStem(x);
      assert TypeString(e)[0] == '*';
    case ArrayType(elt) => SupportedTypeHasStem(elt);
    case MapType(_, _) =>
    case InterfaceTypeExpr(_) =>
    case Ellipsis(_) =>
  }

  /** The types of the service interface the parser is shown with: a
      selector, a map, a slice and a pointer. */
  lemma TypeStringExamples()
    ensures TypeString(Selector(Ident("ct"), "Context")) == "ct.Context"
    ensures TypeString(MapType(Ident("string"), Ident("string"))) == "map[string]string"
    ensures TypeString(ArrayType(Ident("string"))) == "[]string"
    ensures TypeString(Star(Ident("Hi"))) == "*Hi"
  {
  }

  /** The empty interface and a variadic are rendered; a struct type is
      not. */
  lemma TypeStringOtherExamples()
    ensures TypeString(InterfaceTypeExpr(Fields([]))) == "interface{}"
    ensures TypeString(Ellipsis(Star(Selector(Ident("http"), "Request")))) == "...*http.Request"
    ensures TypeString(StructTypeExpr(Fields([]))) == "" && TypeString(OtherExpr) == ""
  {
  }

  /** An anonymous field of a supported type always gets a default name. */
  lemma SupportedAnonymousFieldsAreNameable(cf: CaseFns, e: Expr, i: nat)
    requires Supported(e) && CamelKeepsText(cf)
    ensures AnonNameable(cf, TypeString(e), i)
  {
    SupportedTypeHasStem(e);
  }

  /** The default name is the stem, lowered, followed by the index, as long
      as the camel case conversion keeps the digits. */
  lemma AnonNameShape(cf: CaseFns, typ: string, i: nat)
    requires AnonNameable(cf, typ, i)
    requires cf.camel(AnonStem(typ) + Dec(i))[1..] == Dec(i)
    ensures AnonName(cf, typ, i) == [Lower(AnonStem(typ)[0])] + Dec(i)
  {
  }

  // ---------------------------------------------------------------- field lists

  predicate FieldNameable(cf: CaseFns, f: Field, i: nat)
  {
    |f.names| == 0 ==> AnonNameable(cf, TypeString(f.typ), i)
  }

  predicate FieldsNameable(cf: CaseFns, fields: seq<Field>)
  {
    forall i :: 0 <= i < |fields| ==> FieldNameable(cf, fields[i], i)
  }

  predicate FieldListNameable(cf: CaseFns, list: FieldList)
  {
    list.Fields? ==> FieldsNameable(cf, list.list)
  }

  /** The declared names of a field, or its one default name. */
  function FieldNames(cf: CaseFns, f: Field, i: nat): (names: seq<string>)
    requires FieldNameable(cf, f, i)
    ensures |names| >= 1
  {
    if |f.names| > 0 then f.names else [AnonName(cf, TypeString(f.typ), i)]
  }

  /** One entry per name, all of the given type and without a value. */
  function NamedTypes(names: seq<string>, typ: string): (r: seq<NamedTypeValue>)
    ensures |r| == |names|
    ensures forall k :: 0 <= k < |names| ==> r[k] == NamedTypeValue(names[k], typ, "")
  {
    seq(|names|, k requires 0 <= k < |names| => NewNameType(names[k], typ))
  }

  /** The entries of a list of fields, field by field. */
  function FieldsEntries(cf: CaseFns, fields: seq<Field>): seq<NamedTypeValue>
    requires FieldsNameable(cf, fields)
  {
    if |fields| == 0 then []
    else
      var i := |fields| - 1;
      FieldsEntries(cf, fields[..i]) + NamedTypes(FieldNames(cf, fields[i], i), TypeString(fields[i].typ))
  }

  function FieldListEntries(cf: CaseFns, list: FieldList): seq<NamedTypeValue>
    requires FieldListNameable(cf, list)
  {
    match list
    case NilList => []
    case Fields(l) => FieldsEntries(cf, l)
  }

  /** The names of one field: its own, or the default one. */
  method FieldNamesOf(cf: CaseFns, p: Field, i: nat) returns (names: seq<string>)
    requires FieldNameable(cf, p, i)
    ensures names == FieldNames(cf, p, i)
  {
    names := [];
    var j := 0;
    while j < |p.names|
      invariant 0 <= j <= |p.names|
      invariant names == p.names[..j]
    {
      names := names + [p.names[j]];
      j := j + 1;
    }
    assert p.names[..|p.names|] == p.names;
    if |names| == 0 {
      names := names + [AnonName(cf, TypeString(p.typ), i)];
    }
  }

  /** One entry appended per name. */
  method AppendNamedTypes(ntv0: seq<NamedTypeValue>, names: seq<string>, typ: string) returns (ntv: seq<NamedTypeValue>)
    ensures ntv == ntv0 + NamedTypes(names, typ)
  {
    ntv := ntv0;
    var k := 0;
    while k < |names|
      invariant 0 <= k <= |names|
      invariant ntv == ntv0 + NamedTypes(names[..k], typ)
    {
      assert NamedTypes(names[..k + 1], typ) == NamedTypes(names[..k], typ) + [NewNameType(names[k], typ)];
      ntv := ntv + [NewNameType(names[k], typ)];
      k := k + 1;
    }
    assert names[..k] == names;
  }

  /** The entries of the first i + 1 fields. */
  lemma FieldsEntriesSnoc(cf: CaseFns, fields: seq<Field>, i: nat)
    requires FieldsNameable(cf, fields) && i < |fields|
    ensures FieldsNameable(cf, fields[..i]) && FieldsNameable(cf, fields[..i + 1]) && FieldNameable(cf, fields[i], i)
    ensures FieldsEntries(cf, fields[..i + 1])
      == FieldsEntries(cf, fields[..i]) + NamedTypes(FieldNames(cf, fields[i], i), TypeString(fields[i].typ))
  {
    assert fields[..i + 1][..i] == fields[..i];
    assert fields[..i + 1][i] == fields[i];
  }

  /** `parseFieldListAsNamedTypes`. */
  method ParseFieldListAsNamedTypes(cf: CaseFns, list: FieldList) returns (ntv: seq<NamedTypeValue>)
    requires FieldListNameable(cf, list)
    ensures ntv == FieldListEntries(cf, list)
  {
    ntv := [];
    if list.Fields? {
      var fields := list.list;
      var i := 0;
      while i < |fields|
        invariant 0 <= i <= |fields|
        invariant FieldsNameable(cf, fields[..i])
        invariant ntv == FieldsEntries(cf, fields[..i])
      {
        FieldsEntriesSnoc(cf, fields, i);
        var p := fields[i];
        var typ := TypeString(p.typ);
        var names := FieldNamesOf(cf, p, i);
        ntv := AppendNamedTypes(ntv, names, typ);
        i := i + 1;
      }
      assert fields[..i] == fields;
    }
  }

  function EntryCount(fields: seq<Field>): nat
  {
    if |fields| == 0 then 0
    else EntryCount(fields[..|fields| - 1]) + (if |fields[|fields| - 1].names| > 0 then |fields[|fields| - 1].names| else 1)
  }

  /** A field with N names gives N entries, an anonymous field one. */
  lemma {:induction false} FieldsEntriesCount(cf: CaseFns, fields: seq<Field>)
    requires FieldsNameable(cf, fields)
    ensures |FieldsEntries(cf, fields)| == EntryCount(fields)
  {
    if |fields| > 0 {
      var i := |fields| - 1;
      assert FieldsNameable(cf, fields[..i]);
      FieldsEntriesCount(cf, fields[..i]);
    }
  }

  /** `[]string` at index 0 is named s0. */
  lemma SliceResultNamed(cf: CaseFns)
    requires |cf.camel("s0")| >= 1 && cf.camel("s0")[1..] == "0"
    ensures var f := Field([], ArrayType(Ident("string")));
      TypeString(f.typ) == "[]string" && FieldNameable(cf, f, 0) && FieldNames(cf, f, 0) == ["s0"]
  {
    assert TypeString(ArrayType(Ident("string"))) == "[]string";
    assert "[]string"[..2] == "[]";
    assert Dec(0) == "0" && Lower('S') == 's';
    assert AnonStem("[]string") == "s" && "s" + Dec(0) == "s0";
    AnonNameShape(cf, "[]string", 0);
    assert [Lower(AnonStem("[]string")[0])] + Dec(0) == "s0";
    assert AnonName(cf, "[]string", 0) == "s0";
  }

  /** `*Hi` at index 1 is named h1. */
  lemma PointerResultNamed(cf: CaseFns)
    requires |cf.camel("H1")| >= 1 && cf.camel("H1")[1..] == "1"
    ensures var f := Field([], Star(Ident("Hi")));
      TypeString(f.typ) == "*Hi" && FieldNameable(cf, f, 1) && FieldNames(cf, f, 1) == ["h1"]
  {
    assert TypeString(Star(Ident("Hi"))) == "*Hi";
    var star := "*Hi";
    assert star[0] == '*' && star[1] == 'H' && star[..2][0] != '[' && star[..1] == "*";
    assert Dec(1) == "1" && Lower('H') == 'h';
    assert AnonStem("*Hi") == "H" && "H" + Dec(1) == "H1";
    AnonNameShape(cf, "*Hi", 1);
    assert [Lower(AnonStem("*Hi")[0])] + Dec(1) == "h1";
    assert AnonName(cf, "*Hi", 1) == "h1";
  }

  /** `error` at index 2 is named e2. */
  lemma ErrorResultNamed(cf: CaseFns)
    requires |cf.camel("e2")| >= 1 && cf.camel("e2")[1..] == "2"
    ensures var f := Field([], Ident("error"));
      TypeString(f.typ) == "error" && FieldNameable(cf, f, 2) && FieldNames(cf, f, 2) == ["e2"]
  {
    var err := "error";
    assert err[0] == 'e' && err[..2][0] != '[' && err[..1][0] != '*';
    assert Dec(2) == "2" && Lower('E') == 'e';
    assert AnonStem("error") == "e" && "e" + Dec(2) == "e2";
    AnonNameShape(cf, "error", 2);
    assert [Lower(AnonStem("error")[0])] + Dec(2) == "e2";
    assert AnonName(cf, "error", 2) == "e2";
  }

  /** parser/parse_test.go: the anonymous results `([]string, *Hi, error)`
      are named s0, h1 and e2, given a camel case conversion that keeps the
      digits after the first character. */
  lemma AnonymousResultsExample(cf: CaseFns)
    requires |cf.camel("s0")| >= 1 && cf.camel("s0")[1..] == "0"
    requires |cf.camel("H1")| >= 1 && cf.camel("H1")[1..] == "1"
    requires |cf.camel("e2")| >= 1 && cf.camel("e2")[1..] == "2"
    ensures FieldsNameable(cf, [Field([], ArrayType(Ident("string"))), Field([], Star(Ident("Hi"))), Field([], Ident("error"))])
    ensures FieldsEntries(cf, [Field([], ArrayType(Ident("string"))), Field([], Star(Ident("Hi"))), Field([], Ident("error"))])
            == [NamedTypeValue("s0", "[]string", ""), NamedTypeValue("h1", "*Hi", ""), NamedTypeValue("e2", "error", "")]
  {
    var fs := [Field([], ArrayType(Ident("string"))), Field([], Star(Ident("Hi"))), Field([], Ident("error"))];
    SliceResultNamed(cf);
    PointerResultNamed(cf);
    ErrorResultNamed(cf);
    assert FieldsNameable(cf, fs);
    assert fs[..3] == fs;
    assert fs[..2][..1] == fs[..1];
    assert fs[..1][..0] == [];
    assert FieldsEntries(cf, fs[..1]) == [NamedTypeValue("s0", "[]string", "")];
    assert FieldsEntries(cf, fs[..2]) == [NamedTypeValue("s0", "[]string", ""), NamedTypeValue("h1", "*Hi", "")];
  }

  // ---------------------------------------------------------------- interface methods

  predicate MethodFieldNameable(cf: CaseFns, f: Field)
  {
    f.typ.FuncTypeExpr? ==>
      |f.names| >= 1 && FieldListNameable(cf, f.typ.params) && FieldListNameable(cf, f.typ.results)
  }

  predicate MethodFieldsNameable(cf: CaseFns, list: FieldList)
  {
    list.Fields? ==> forall i :: 0 <= i < |list.list| ==> MethodFieldNameable(cf, list.list[i])
  }

  /** The method an interface member of function type stands for. */
  function InterfaceMethod(cf: CaseFns, f: Field): Method
    requires f.typ.FuncTypeExpr? && MethodFieldNameable(cf, f)
  {
    Method("", f.names[0], NoReceiver, "",
           FieldListEntries(cf, f.typ.params), FieldListEntries(cf, f.typ.results))
  }

  /** The methods of an interface: its members of function type, in order;
      embedded interfaces are skipped. */
  function InterfaceMethods(cf: CaseFns, fields: seq<Field>): seq<Method>
    requires forall i :: 0 <= i < |fields| ==> MethodFieldNameable(cf, fields[i])
  {
    if |fields| == 0 then []
    else
      var f := fields[|fields| - 1];
      InterfaceMethods(cf, fields[..|fields| - 1]) + (if f.typ.FuncTypeExpr? then [InterfaceMethod(cf, f)] else [])
  }

  function InterfaceListMethods(cf: CaseFns, list: FieldList): seq<Method>
    requires MethodFieldsNameable(cf, list)
  {
    match list
    case NilList => []
    case Fields(l) => InterfaceMethods(cf, l)
  }

  /** `parseFieldListAsMethods`. */
  method ParseFieldListAsMethods(cf: CaseFns, list: FieldList) returns (mth: seq<Method>)
    requires MethodFieldsNameable(cf, list)
    ensures mth == InterfaceListMethods(cf, list)
  {
    mth := [];
    if list.Fields? {
      var fields := list.list;
      var i := 0;
      while i < |fields|
        invariant 0 <= i <= |fields|
        invariant mth == InterfaceMethods(cf, fields[..i])
      {
        var p := fields[i];
        assert fields[..i + 1][..i] == fields[..i];
        if p.typ.FuncTypeExpr? {
          var params := ParseFieldListAsNamedTypes(cf, p.typ.params);
          var results := ParseFieldListAsNamedTypes(cf, p.typ.results);
          var m := Method("", p.names[0], NoReceiver, "", params, results);
          mth := mth + [m];
        }
        i := i + 1;
      }
      assert fields[..i] == fields;
    }
  }

  // ---------------------------------------------------------------- imports, vars, constants

  function ImportEntry(s: Spec): NamedTypeValue
    requires s.ImportSpec?
  {
    NewNameType(if s.alias.Some? then s.alias.value else "",
                if s.path.Some? then s.path.value else "")
  }

  /** The imports of one import declaration, in order. */
  function ImportEntries(specs: seq<Spec>): seq<NamedTypeValue>
  {
    if |specs| == 0 then []
    else
      var s := specs[|specs| - 1];
      ImportEntries(specs[..|specs| - 1]) + (if s.ImportSpec? then [ImportEntry(s)] else [])
  }

  /** `parseImports`. */
  method ParseImports(specs: seq<Spec>) returns (imports: seq<NamedTypeValue>)
    ensures imports == ImportEntries(specs)
  {
    imports := [];
    var i := 0;
    while i < |specs|
      invariant 0 <= i <= |specs|
      invariant imports == ImportEntries(specs[..i])
    {
      assert specs[..i + 1][..i] == specs[..i];
      var sp := specs[i];
      if sp.ImportSpec? {
        var ip := NewNameType("", "");
        if sp.alias.Some? {
          ip := ip.(name := sp.alias.value);
        }
        if sp.path.Some? {
          ip := ip.(typ := sp.path.value);
        }
        imports := imports + [ip];
      }
      i := i + 1;
    }
    assert specs[..i] == specs;
  }

  predicate HasName(s: Spec) { s.ValueSpec? ==> |s.names| >= 1 }

  /** The entry of a `var` spec. When the declared type is an identifier the
      entry's name is the TYPE and its type the variable's NAME, as the
      source writes it; otherwise the type is "". */
  function ValueEntry(s: Spec): (e: NamedTypeValue)
    requires s.ValueSpec? && |s.names| >= 1
    ensures e.value == (if |s.values| > 0 then s.values[0] else "")
  {
    var v := if |s.values| > 0 then s.values[0] else "";
    if s.vtype.Some? && s.vtype.value.Ident? then NewNameTypeValue(s.vtype.value.name, s.names[0], v)
    else NewNameTypeValue(s.names[0], "", v)
  }

  /** One entry per value spec; only the first name of `a, b = 1, 2` counts. */
  function ValueEntries(specs: seq<Spec>): seq<NamedTypeValue>
    requires forall k :: 0 <= k < |specs| ==> HasName(specs[k])
  {
    if |specs| == 0 then []
    else
      var s := specs[|specs| - 1];
      assert HasName(s);
      ValueEntries(specs[..|specs| - 1]) + (if s.ValueSpec? then [ValueEntry(s)] else [])
  }

  function ValueSpecCount(specs: seq<Spec>): nat
  {
    if |specs| == 0 then 0
    else ValueSpecCount(specs[..|specs| - 1]) + (if specs[|specs| - 1].ValueSpec? then 1 else 0)
  }

  lemma {:induction false} ValueEntriesCount(specs: seq<Spec>)
    requires forall k :: 0 <= k < |specs| ==> HasName(specs[k])
    ensures |ValueEntries(specs)| == ValueSpecCount(specs)
  {
    if |specs| > 0 {
      ValueEntriesCount(specs[..|specs| - 1]);
    }
  }

  /** `parseVars`. */
  method ParseVars(specs: seq<Spec>) returns (vars: seq<NamedTypeValue>)
    requires forall k :: 0 <= k < |specs| ==> HasName(specs[k])
    ensures vars == ValueEntries(specs)
  {
    vars := [];
    var i := 0;
    while i < |specs|
      invariant 0 <= i <= |specs|
      invariant vars == ValueEntries(specs[..i])
    {
      assert specs[..i + 1][..i] == specs[..i];
      var vsp := specs[i];
      if vsp.ValueSpec? {
        var ok := vsp.vtype.Some? && vsp.vtype.value.Ident?;
        if |vsp.values| > 0 {
          var bd := vsp.values[0];
          if !ok {
            vars := vars + [NewNameTypeValue(vsp.names[0], "", bd)];
          } else {
            vars := vars + [NewNameTypeValue(vsp.vtype.value.name, vsp.names[0], bd)];
          }
        } else {
          if !ok {
            vars := vars + [NewNameType(vsp.names[0], "")];
          } else {
            vars := vars + [NewNameType(vsp.vtype.value.name, vsp.names[0])];
          }
        }
      }
      i := i + 1;
    }
    assert specs[..i] == specs;
  }

  /** What `parseConstants` needs in order not to panic: every value spec of
      the declaration has an initialiser. */
  predicate ConstantsHaveValues(specs: seq<Spec>)
  {
    forall k :: 0 <= k < |specs| ==> specs[k].ValueSpec? ==> |specs[k].values| >= 1
  }

  /** `parseConstants` as written: reads the first initialiser of every spec. */
  method ParseConstantsAsWritten(specs: seq<Spec>) returns (constants: seq<NamedTypeValue>)
    requires forall k :: 0 <= k < |specs| ==> HasName(specs[k])
    requires ConstantsHaveValues(specs)
    ensures constants == ValueEntries(specs)
  {
    constants := [];
    var i := 0;
    while i < |specs|
      invariant 0 <= i <= |specs|
      invariant constants == ValueEntries(specs[..i])
    {
      assert specs[..i + 1][..i] == specs[..i];
      var vsp := specs[i];
      if vsp.ValueSpec? {
        var bd := vsp.values[0];
        var ok := vsp.vtype.Some? && vsp.vtype.value.Ident?;
        if !ok {
          constants := constants + [NewNameTypeValue(vsp.names[0], "", bd)];
        } else {
          constants := constants + [NewNameTypeValue(vsp.vtype.value.name, vsp.names[0], bd)];
        }
      }
      i := i + 1;
    }
    assert specs[..i] == specs;
  }

  /** `const ( A = iota; B )` is valid Go, and its second spec has no
      initialiser: the constants parser as written cannot take it. */
  lemma ImplicitConstantValuePanics()
    ensures !ConstantsHaveValues([ValueSpec(["A"], None, ["iota"]), ValueSpec(["B"], None, [])])
  {
    var specs := [ValueSpec(["A"], None, ["iota"]), ValueSpec(["B"], None, [])];
    assert specs[1].ValueSpec? && |specs[1].values| == 0;
  }

  /** `parseConstants`, corrected: a spec without an initialiser gets an
      empty value, as a `var` spec does. */
  method ParseConstants(specs: seq<Spec>) returns (constants: seq<NamedTypeValue>)
    requires forall k :: 0 <= k < |specs| ==> HasName(specs[k])
    ensures constants == ValueEntries(specs)
    ensures |constants| == ValueSpecCount(specs)
  {
    constants := [];
    var i := 0;
    while i < |specs|
      invariant 0 <= i <= |specs|
      invariant constants == ValueEntries(specs[..i])
    {
      assert specs[..i + 1][..i] == specs[..i];
      var vsp := specs[i];
      if vsp.ValueSpec? {
        var bd := if |vsp.values| > 0 then vsp.values[0] else "";
        var ok := vsp.vtype.Some? && vsp.vtype.value.Ident?;
        if !ok {
          constants := constants + [NewNameTypeValue(vsp.names[0], "", bd)];
        } else {
          constants := constants + [NewNameTypeValue(vsp.vtype.value.name, vsp.names[0], bd)];
        }
      }
      i := i + 1;
    }
    assert specs[..i] == specs;
    ValueEntriesCount(specs);
  }

  /** parser/parse_test.go: `var hi = ...`, `no_value int`, `abc string = "hi"`
      give three entries, the two constants two. */
  lemma VarsAndConstantsExample()
    ensures |ValueEntries([ValueSpec(["hi"], None, ["\"Hello there\""])])
             + ValueEntries([ValueSpec(["no_value"], Some(Ident("int")), []),
                             ValueSpec(["abc"], Some(Ident("string")), ["\"hi\""])])| == 3
    ensures |ValueEntries([ValueSpec(["my_const"], None, ["2"]),
                           ValueSpec(["hello_there"], Some(Ident("float")), ["4.23"])])| == 2
  {
    var a := [ValueSpec(["hi"], None, ["\"Hello there\""])];
    var b := [ValueSpec(["no_value"], Some(Ident("int")), []), ValueSpec(["abc"], Some(Ident("string")), ["\"hi\""])];
    var c := [ValueSpec(["my_const"], None, ["2"]), ValueSpec(["hello_there"], Some(Ident("float")), ["4.23"])];
    assert b[..1] == [b[0]];
    assert c[..1] == [c[0]];
    assert a[..0] == [];
  }

  // ---------------------------------------------------------------- type declarations

  predicate TypeNameable(cf: CaseFns, typ: Expr)
  {
    match typ
    case InterfaceTypeExpr(ms) => MethodFieldsNameable(cf, ms)
    case StructTypeExpr(fl) => FieldListNameable(cf, fl)
    case FuncTypeExpr(p, r) => FieldListNameable(cf, p) && FieldListNameable(cf, r)
    case _ => true
  }

  predicate SpecNameable(cf: CaseFns, s: Spec)
  {
    match s
    case ImportSpec(_, _) => true
    case ValueSpec(names, _, _) => |names| >= 1
    case TypeSpec(_, typ) => TypeNameable(cf, typ)
  }

  /** What one type spec adds to the file: an interface, a struct, or the
      file's one function type (a later one replaces an earlier one). */
  function TypeSpecStep(cf: CaseFns, f: File, s: Spec): File
    requires SpecNameable(cf, s)
  {
    match s
    case TypeSpec(name, typ) =>
      (match typ
       case InterfaceTypeExpr(ms) => f.(interfaces := f.interfaces + [NewInterface(name, InterfaceListMethods(cf, ms))])
       case StructTypeExpr(fl) => f.(structures := f.structures + [NewStruct(name, FieldListEntries(cf, fl))])
       case FuncTypeExpr(p, r) => f.(funcType := FuncType(name, FieldListEntries(cf, p), FieldListEntries(cf, r)))
       case _ => f)
    case _ => f
  }

  function TypeSpecsInto(cf: CaseFns, f: File, specs: seq<Spec>): File
    requires forall k :: 0 <= k < |specs| ==> SpecNameable(cf, specs[k])
  {
    if |specs| == 0 then f
    else TypeSpecStep(cf, TypeSpecsInto(cf, f, specs[..|specs| - 1]), specs[|specs| - 1])
  }

  /** `parseType`; the Go code updates the file through a pointer. */
  method ParseType(cf: CaseFns, specs: seq<Spec>, f: File) returns (g: File)
    requires forall k :: 0 <= k < |specs| ==> SpecNameable(cf, specs[k])
    ensures g == TypeSpecsInto(cf, f, specs)
  {
    g := f;
    var i := 0;
    while i < |specs|
      invariant 0 <= i <= |specs|
      invariant g == TypeSpecsInto(cf, f, specs[..i])
    {
      assert specs[..i + 1][..i] == specs[..i];
      var sp := specs[i];
      if sp.TypeSpec? {
        match sp.typ {
          case InterfaceTypeExpr(ms) =>
            var mth := ParseFieldListAsMethods(cf, ms);
            var intr := NewInterface(sp.name, mth);
            g := g.(interfaces := g.interfaces + [intr]);
          case StructTypeExpr(fl) =>
            var vars := ParseFieldListAsNamedTypes(cf, fl);
            g := g.(structures := g.structures + [NewStruct(sp.name, vars)]);
          case FuncTypeExpr(p, r) =>
            var params := ParseFieldListAsNamedTypes(cf, p);
            var results := ParseFieldListAsNamedTypes(cf, r);
            g := g.(funcType := FuncType(sp.name, params, results));
          case _ =>
        }
      }
      i := i + 1;
    }
    assert specs[..i] == specs;
  }

  function SpecInterfaces(cf: CaseFns, specs: seq<Spec>): seq<Interface>
    requires forall k :: 0 <= k < |specs| ==> SpecNameable(cf, specs[k])
  {
    if |specs| == 0 then []
    else
      var s := specs[|specs| - 1];
      assert SpecNameable(cf, s);
      SpecInterfaces(cf, specs[..|specs| - 1])
      + (if s.TypeSpec? && s.typ.InterfaceTypeExpr? then [NewInterface(s.name, InterfaceListMethods(cf, s.typ.methods))] else [])
  }

  function SpecStructs(cf: CaseFns, specs: seq<Spec>): seq<Struct>
    requires forall k :: 0 <= k < |specs| ==> SpecNameable(cf, specs[k])
  {
    if |specs| == 0 then []
    else
      var s := specs[|specs| - 1];
      assert SpecNameable(cf, s);
      SpecStructs(cf, specs[..|specs| - 1])
      + (if s.TypeSpec? && s.typ.StructTypeExpr? then [NewStruct(s.name, FieldListEntries(cf, s.typ.fields))] else [])
  }

  /** The last function type declared among the specs, if any. */
  function SpecFuncType(cf: CaseFns, specs: seq<Spec>): Option<FuncType>
    requires forall k :: 0 <= k < |specs| ==> SpecNameable(cf, specs[k])
  {
    if |specs| == 0 then None
    else
      var s := specs[|specs| - 1];
      assert SpecNameable(cf, s);
      if s.TypeSpec? && s.typ.FuncTypeExpr? then
        Some(FuncType(s.name, FieldListEntries(cf, s.typ.params), FieldListEntries(cf, s.typ.results)))
      else SpecFuncType(cf, specs[..|specs| - 1])
  }

  /** A type declaration appends its interfaces and structs in order, lets
      its last function type replace the file's, and touches nothing else. */
  lemma {:induction false} TypeSpecsIntoFields(cf: CaseFns, f: File, specs: seq<Spec>)
    requires forall k :: 0 <= k < |specs| ==> SpecNameable(cf, specs[k])
    ensures var g := TypeSpecsInto(cf, f, specs);
      && g.interfaces == f.interfaces + SpecInterfaces(cf, specs)
      && g.structures == f.structures + SpecStructs(cf, specs)
      && g.funcType == (match SpecFuncType(cf, specs) case Some(t) => t case None => f.funcType)
      && g.comment == f.comment && g.pkg == f.pkg && g.imports == f.imports
      && g.constants == f.constants && g.vars == f.vars && g.methods == f.methods
  {
    if |specs| > 0 {
      var init := specs[..|specs| - 1];
      TypeSpecsIntoFields(cf, f, init);
      TypeSpecStepFields(cf, TypeSpecsInto(cf, f, init), specs[|specs| - 1]);
      SpecListsSnoc(cf, specs);
    }
  }

  /** What one type spec does to each field of the file. */
  lemma TypeSpecStepFields(cf: CaseFns, f: File, s: Spec)
    requires SpecNameable(cf, s)
    ensures var g := TypeSpecStep(cf, f, s);
      && g.interfaces == f.interfaces + (if s.TypeSpec? && s.typ.InterfaceTypeExpr? then [NewInterface(s.name, InterfaceListMethods(cf, s.typ.methods))] else [])
      && g.structures == f.structures + (if s.TypeSpec? && s.typ.StructTypeExpr? then [NewStruct(s.name, FieldListEntries(cf, s.typ.fields))] else [])
      && g.funcType == (if s.TypeSpec? && s.typ.FuncTypeExpr? then FuncType(s.name, FieldListEntries(cf, s.typ.params), FieldListEntries(cf, s.typ.results)) else f.funcType)
      && g.comment == f.comment && g.pkg == f.pkg && g.imports == f.imports
      && g.constants == f.constants && g.vars == f.vars && g.methods == f.methods
  {
  }

  /** The interfaces, structs and function type of the specs, one more spec
      at a time. */
  lemma SpecListsSnoc(cf: CaseFns, specs: seq<Spec>)
    requires |specs| > 0 && forall k :: 0 <= k < |specs| ==> SpecNameable(cf, specs[k])
    ensures var init, s := specs[..|specs| - 1], specs[|specs| - 1];
      && SpecInterfaces(cf, specs) == SpecInterfaces(cf, init) + (if s.TypeSpec? && s.typ.InterfaceTypeExpr? then [NewInterface(s.name, InterfaceListMethods(cf, s.typ.methods))] else [])
      && SpecStructs(cf, specs) == SpecStructs(cf, init) + (if s.TypeSpec? && s.typ.StructTypeExpr? then [NewStruct(s.name, FieldListEntries(cf, s.typ.fields))] else [])
      && SpecFuncType(cf, specs) == (if s.TypeSpec? && s.typ.FuncTypeExpr? then Some(FuncType(s.name, FieldListEntries(cf, s.typ.params), FieldListEntries(cf, s.typ.results))) else SpecFuncType(cf, init))
  {
  }

  // ---------------------------------------------------------------- whole files

  predicate SigNameable(cf: CaseFns, sig: FuncSig)
  {
    sig.Sig? ==> FieldListNameable(cf, sig.params) && FieldListNameable(cf, sig.results)
  }

  /** What `Parse` needs of a declaration in order not to panic. */
  predicate DeclParsable(cf: CaseFns, d: Decl)
  {
    match d
    case FuncDecl(_, recv, sig, body) =>
      FieldListNameable(cf, recv) && SigNameable(cf, sig) && (body.Some? ==> |body.value| >= 2)
    case GenDecl(tok, specs) =>
      (forall k :: 0 <= k < |specs| ==> SpecNameable(cf, specs[k])) && (tok == CONST ==> ConstantsHaveValues(specs))
    case BadDecl => true
  }

  predicate DeclsParsable(cf: CaseFns, ds: seq<Decl>)
  {
    forall k :: 0 <= k < |ds| ==> DeclParsable(cf, ds[k])
  }

  predicate Parsable(cf: CaseFns, src: SourceParse)
  {
    src.ParsedFile? ==> DeclsParsable(cf, src.decls)
  }

  /** The method a function declaration is read as: its first receiver
      entry, its parameters and results, and its body without the braces. */
  function DeclMethod(cf: CaseFns, d: Decl): Method
    requires d.FuncDecl? && DeclParsable(cf, d)
  {
    var st := FieldListEntries(cf, d.recv);
    var pr := if d.sig.Sig? then FieldListEntries(cf, d.sig.params) else [];
    var rs := if d.sig.Sig? then FieldListEntries(cf, d.sig.results) else [];
    var bd := if d.body.Some? then d.body.value[1..|d.body.value| - 1] else "";
    NewMethod(d.name, if |st| > 0 then st[0] else NoReceiver, bd, pr, rs)
  }

  /** One step of `Parse`'s loop. An import declaration REPLACES the
      imports read so far; constants, variables, methods, interfaces and
      structs are appended. */
  function DeclStep(cf: CaseFns, f: File, d: Decl): File
    requires DeclParsable(cf, d)
  {
    match d
    case FuncDecl(_, _, _, _) => f.(methods := f.methods + [DeclMethod(cf, d)])
    case GenDecl(tok, specs) =>
      (match tok
       case IMPORT => f.(imports := ImportEntries(specs))
       case CONST => f.(constants := f.constants + ValueEntries(specs))
       case VAR => f.(vars := f.vars + ValueEntries(specs))
       case TYPE => TypeSpecsInto(cf, f, specs)
       case OtherToken => f)
    case BadDecl => f
  }

  function ParseDecls(cf: CaseFns, f: File, ds: seq<Decl>): File
    requires DeclsParsable(cf, ds)
  {
    if |ds| == 0 then f
    else DeclStep(cf, ParseDecls(cf, f, ds[..|ds| - 1]), ds[|ds| - 1])
  }

  /** What `Parse` returns: the syntax error, or the file read declaration
      by declaration. */
  function ParseSpec(cf: CaseFns, src: SourceParse): Result<File>
    requires Parsable(cf, src)
  {
    match src
    case SyntaxError(msg) => Failure(msg)
    case ParsedFile(pkg, ds) => Success(ParseDecls(cf, NewFile().(pkg := pkg), ds))
  }

  /** The read declarations extended by one more. */
  lemma ParseDeclsSnoc(cf: CaseFns, f: File, ds: seq<Decl>, i: nat)
    requires DeclsParsable(cf, ds) && i < |ds|
    ensures DeclsParsable(cf, ds[..i]) && DeclsParsable(cf, ds[..i + 1]) && DeclParsable(cf, ds[i])
    ensures ParseDecls(cf, f, ds[..i + 1]) == DeclStep(cf, ParseDecls(cf, f, ds[..i]), ds[i])
  {
    assert ds[..i + 1][..i] == ds[..i];
    assert DeclsParsable(cf, ds[..i + 1]) by {
      assert forall k :: 0 <= k < i + 1 ==> ds[..i + 1][k] == ds[k];
    }
  }

  /** The body of `Parse`'s loop: one declaration read into the file. */
  method ParseDecl(cf: CaseFns, f: File, v: Decl) returns (g: File)
    requires DeclParsable(cf, v)
    ensures g == DeclStep(cf, f, v)
  {
    g := f;
    match v {
      case FuncDecl(name, recv, sig, body) =>
        var st: seq<NamedTypeValue> := [];
        var pr: seq<NamedTypeValue> := [];
        var rs: seq<NamedTypeValue> := [];
        if recv.Fields? {
          st := ParseFieldListAsNamedTypes(cf, recv);
        }
        if sig.Sig? {
          pr := ParseFieldListAsNamedTypes(cf, sig.params);
          rs := ParseFieldListAsNamedTypes(cf, sig.results);
        }
        var bd := "";
        if body.Some? {
          bd := body.value[1..|body.value| - 1];
        }
        var str := NoReceiver;
        if |st| > 0 {
          str := st[0];
        }
        var fc := NewMethod(name, str, bd, pr, rs);
        g := g.(methods := g.methods + [fc]);
      case GenDecl(tok, specs) =>
        match tok {
          case IMPORT =>
            var imports := ParseImports(specs);
            g := g.(imports := imports);
          case CONST =>
            var constants := ParseConstantsAsWritten(specs);
            g := g.(constants := g.constants + constants);
          case VAR =>
            var vars := ParseVars(specs);
            g := g.(vars := g.vars + vars);
          case TYPE =>
            g := ParseType(cf, specs, g);
          case OtherToken =>
        }
      case BadDecl =>
    }
  }

  /** `FileParser.Parse`. */
  method Parse(cf: CaseFns, src: SourceParse) returns (r: Result<File>)
    requires Parsable(cf, src)
    ensures r == ParseSpec(cf, src)
    ensures src.SyntaxError? <==> r.Failure?
  {
    var f := NewFile();
    if src.SyntaxError? {
      return Failure(src.msg);
    }
    f := f.(pkg := src.pkg);
    ghost var f0 := f;
    var ds := src.decls;
    var i := 0;
    while i < |ds|
      invariant 0 <= i <= |ds|
      invariant DeclsParsable(cf, ds[..i])
      invariant f == ParseDecls(cf, f0, ds[..i])
    {
      ParseDeclsSnoc(cf, f0, ds, i);
      f := ParseDecl(cf, f, ds[i]);
      i := i + 1;
    }
    assert ds[..i] == ds;
    return Success(f);
  }

  // ---------------------------------------------------------------- what Parse keeps

  /** The declarations read so far, then the last one. */
  lemma ParseDeclsInit(cf: CaseFns, f: File, ds: seq<Decl>)
    requires DeclsParsable(cf, ds) && |ds| > 0
    ensures DeclsParsable(cf, ds[..|ds| - 1]) && DeclParsable(cf, ds[|ds| - 1])
    ensures ParseDecls(cf, f, ds) == DeclStep(cf, ParseDecls(cf, f, ds[..|ds| - 1]), ds[|ds| - 1])
  {
  }

  /** What one declaration does to each field of the file. */
  lemma DeclStepStructs(cf: CaseFns, f: File, d: Decl)
    requires DeclParsable(cf, d)
    ensures DeclStep(cf, f, d).structures == f.structures + DeclTypeStructs(cf, d)
  {
    if d.GenDecl? && d.tok == TYPE {
      TypeSpecsIntoFields(cf, f, d.specs);
    }
  }

  lemma DeclStepInterfaces(cf: CaseFns, f: File, d: Decl)
    requires DeclParsable(cf, d)
    ensures DeclStep(cf, f, d).interfaces == f.interfaces + DeclTypeInterfaces(cf, d)
  {
    if d.GenDecl? && d.tok == TYPE {
      TypeSpecsIntoFields(cf, f, d.specs);
    }
  }

  lemma DeclStepKeeps(cf: CaseFns, f: File, d: Decl)
    requires DeclParsable(cf, d)
    ensures var g := DeclStep(cf, f, d);
      && g.pkg == f.pkg && g.comment == f.comment
      && g.methods == f.methods + (if d.FuncDecl? then [DeclMethod(cf, d)] else [])
      && g.imports == (if d.GenDecl? && d.tok == IMPORT then ImportEntries(d.specs) else f.imports)
  {
    if d.GenDecl? && d.tok == TYPE {
      TypeSpecsIntoFields(cf, f, d.specs);
    }
  }

  lemma DeclStepValues(cf: CaseFns, f: File, d: Decl)
    requires DeclParsable(cf, d)
    ensures d.GenDecl? ==> forall j :: 0 <= j < |d.specs| ==> HasName(d.specs[j])
    ensures var g := DeclStep(cf, f, d);
      && g.constants == f.constants + (if d.GenDecl? && d.tok == CONST then ValueEntries(d.specs) else [])
      && g.vars == f.vars + (if d.GenDecl? && d.tok == VAR then ValueEntries(d.specs) else [])
  {
    if d.GenDecl? {
      forall j | 0 <= j < |d.specs| ensures HasName(d.specs[j]) {
        assert SpecNameable(cf, d.specs[j]);
      }
      if d.tok == TYPE {
        TypeSpecsIntoFields(cf, f, d.specs);
      }
    }
  }

  /** The methods of the function declarations, in order. */
  function DeclMethods(cf: CaseFns, ds: seq<Decl>): seq<Method>
    requires DeclsParsable(cf, ds)
  {
    if |ds| == 0 then []
    else
      var d := ds[|ds| - 1];
      DeclMethods(cf, ds[..|ds| - 1]) + (if d.FuncDecl? then [DeclMethod(cf, d)] else [])
  }

  function FuncDeclCount(ds: seq<Decl>): nat
  {
    if |ds| == 0 then 0 else FuncDeclCount(ds[..|ds| - 1]) + (if ds[|ds| - 1].FuncDecl? then 1 else 0)
  }

  /** Every function declaration gives exactly one method, in source order,
      and nothing else adds one. */
  lemma {:induction false} ParseKeepsFunctionsInOrder(cf: CaseFns, f: File, ds: seq<Decl>)
    requires DeclsParsable(cf, ds)
    ensures ParseDecls(cf, f, ds).methods == f.methods + DeclMethods(cf, ds)
    ensures |DeclMethods(cf, ds)| == FuncDeclCount(ds)
  {
    if |ds| > 0 {
      var init := ds[..|ds| - 1];
      ParseDeclsInit(cf, f, ds);
      ParseKeepsFunctionsInOrder(cf, f, init);
      DeclStepKeeps(cf, ParseDecls(cf, f, init), ds[|ds| - 1]);
    }
  }

  /** The specs of the last import declaration, if there is one. */
  function LastImportSpecs(ds: seq<Decl>): Option<seq<Spec>>
  {
    if |ds| == 0 then None
    else
      var d := ds[|ds| - 1];
      if d.GenDecl? && d.tok == IMPORT then Some(d.specs) else LastImportSpecs(ds[..|ds| - 1])
  }

  /** The imports of the file are those of its LAST import declaration:
      each import declaration replaces what the earlier ones gave. */
  lemma {:induction false} ParseImportsLastDeclWins(cf: CaseFns, f: File, ds: seq<Decl>)
    requires DeclsParsable(cf, ds)
    ensures ParseDecls(cf, f, ds).imports ==
      match LastImportSpecs(ds) case Some(specs) => ImportEntries(specs) case None => f.imports
  {
    if |ds| > 0 {
      var init := ds[..|ds| - 1];
      ParseDeclsInit(cf, f, ds);
      ParseImportsLastDeclWins(cf, f, init);
      DeclStepKeeps(cf, ParseDecls(cf, f, init), ds[|ds| - 1]);
    }
  }

  /** `import "a"` followed by `import "b"` leaves only "b". */
  lemma TwoImportDeclsExample(cf: CaseFns)
    ensures ParseDecls(cf, NewFile(), [GenDecl(IMPORT, [ImportSpec(None, Some("\"a\""))]),
                                        GenDecl(IMPORT, [ImportSpec(None, Some("\"b\""))])]).imports
            == [NamedTypeValue("", "\"b\"", "")]
  {
    var ds := [GenDecl(IMPORT, [ImportSpec(None, Some("\"a\""))]), GenDecl(IMPORT, [ImportSpec(None, Some("\"b\""))])];
    ParseImportsLastDeclWins(cf, NewFile(), ds);
    var specs := [ImportSpec(None, Some("\"b\""))];
    assert specs[..0] == [];
    assert ImportEntries(specs) == [NamedTypeValue("", "\"b\"", "")];
  }

  /** The constants and variables of every declaration, in order. */
  function DeclValues(ds: seq<Decl>, tok: Token): seq<NamedTypeValue>
    requires forall k :: 0 <= k < |ds| ==> ds[k].GenDecl? ==> forall j :: 0 <= j < |ds[k].specs| ==> HasName(ds[k].specs[j])
  {
    if |ds| == 0 then []
    else
      var d := ds[|ds| - 1];
      DeclValues(ds[..|ds| - 1], tok) + (if d.GenDecl? && d.tok == tok then ValueEntries(d.specs) else [])
  }

  lemma {:induction false} ParsedValuesAccumulate(cf: CaseFns, f: File, ds: seq<Decl>)
    requires DeclsParsable(cf, ds)
    ensures forall k :: 0 <= k < |ds| ==> ds[k].GenDecl? ==> forall j :: 0 <= j < |ds[k].specs| ==> HasName(ds[k].specs[j])
    ensures ParseDecls(cf, f, ds).constants == f.constants + DeclValues(ds, CONST)
    ensures ParseDecls(cf, f, ds).vars == f.vars + DeclValues(ds, VAR)
  {
    forall k | 0 <= k < |ds| && ds[k].GenDecl?
      ensures forall j :: 0 <= j < |ds[k].specs| ==> HasName(ds[k].specs[j])
    {
      assert DeclParsable(cf, ds[k]);
      forall j | 0 <= j < |ds[k].specs| ensures HasName(ds[k].specs[j]) {
        assert SpecNameable(cf, ds[k].specs[j]);
      }
    }
    if |ds| > 0 {
      var init := ds[..|ds| - 1];
      ParseDeclsInit(cf, f, ds);
      ParsedValuesAccumulate(cf, f, init);
      DeclStepValues(cf, ParseDecls(cf, f, init), ds[|ds| - 1]);
    }
  }

  /** The interfaces and structs of one type declaration; none for any
      other declaration. */
  function DeclTypeInterfaces(cf: CaseFns, d: Decl): seq<Interface>
    requires DeclParsable(cf, d)
  {
    if d.GenDecl? && d.tok == TYPE then SpecInterfaces(cf, d.specs) else []
  }

  function DeclTypeStructs(cf: CaseFns, d: Decl): seq<Struct>
    requires DeclParsable(cf, d)
  {
    if d.GenDecl? && d.tok == TYPE then SpecStructs(cf, d.specs) else []
  }

  /** The interfaces and structs of every type declaration, in order. */
  function DeclInterfaces(cf: CaseFns, ds: seq<Decl>): seq<Interface>
    requires DeclsParsable(cf, ds)
  {
    if |ds| == 0 then []
    else
      var d := ds[|ds| - 1];
      DeclInterfaces(cf, ds[..|ds| - 1]) + DeclTypeInterfaces(cf, d)
  }

  function DeclStructs(cf: CaseFns, ds: seq<Decl>): seq<Struct>
    requires DeclsParsable(cf, ds)
  {
    if |ds| == 0 then []
    else
      var d := ds[|ds| - 1];
      DeclStructs(cf, ds[..|ds| - 1]) + DeclTypeStructs(cf, d)
  }

  lemma DeclListsInit(cf: CaseFns, ds: seq<Decl>)
    requires DeclsParsable(cf, ds) && |ds| > 0
    ensures DeclsParsable(cf, ds[..|ds| - 1]) && DeclParsable(cf, ds[|ds| - 1])
    ensures DeclInterfaces(cf, ds) == DeclInterfaces(cf, ds[..|ds| - 1]) + DeclTypeInterfaces(cf, ds[|ds| - 1])
    ensures DeclStructs(cf, ds) == DeclStructs(cf, ds[..|ds| - 1]) + DeclTypeStructs(cf, ds[|ds| - 1])
  {
  }

  /** One declaration more, for the interfaces and for the structs. */
  lemma ParsedInterfacesStep(cf: CaseFns, f: File, ds: seq<Decl>)
    requires DeclsParsable(cf, ds) && |ds| > 0
    ensures DeclsParsable(cf, ds[..|ds| - 1])
    ensures ParseDecls(cf, f, ds).interfaces ==
      ParseDecls(cf, f, ds[..|ds| - 1]).interfaces + DeclTypeInterfaces(cf, ds[|ds| - 1])
  {
    ParseDeclsInit(cf, f, ds);
    DeclStepInterfaces(cf, ParseDecls(cf, f, ds[..|ds| - 1]), ds[|ds| - 1]);
  }

  lemma {:induction false} ParsedInterfacesAccumulate(cf: CaseFns, f: File, ds: seq<Decl>)
    requires DeclsParsable(cf, ds)
    ensures ParseDecls(cf, f, ds).interfaces == f.interfaces + DeclInterfaces(cf, ds)
  {
    if |ds| > 0 {
      ParsedInterfacesStep(cf, f, ds);
      ParsedInterfacesAccumulate(cf, f, ds[..|ds| - 1]);
      DeclListsInit(cf, ds);
    }
  }

  lemma ParsedStructsStep(cf: CaseFns, f: File, ds: seq<Decl>)
    requires DeclsParsable(cf, ds) && |ds| > 0
    ensures DeclsParsable(cf, ds[..|ds| - 1])
    ensures ParseDecls(cf, f, ds).structures ==
      ParseDecls(cf, f, ds[..|ds| - 1]).structures + DeclTypeStructs(cf, ds[|ds| - 1])
  {
    ParseDeclsInit(cf, f, ds);
    DeclStepStructs(cf, ParseDecls(cf, f, ds[..|ds| - 1]), ds[|ds| - 1]);
  }

  lemma {:induction false} ParsedStructsAccumulate(cf: CaseFns, f: File, ds: seq<Decl>)
    requires DeclsParsable(cf, ds)
    ensures ParseDecls(cf, f, ds).structures == f.structures + DeclStructs(cf, ds)
  {
    if |ds| > 0 {
      ParsedStructsStep(cf, f, ds);
      ParsedStructsAccumulate(cf, f, ds[..|ds| - 1]);
      DeclListsInit(cf, ds);
    }
  }

  /** The package name is the one `Parse` set before the loop. */
  lemma {:induction false} ParseKeepsPackage(cf: CaseFns, f: File, ds: seq<Decl>)
    requires DeclsParsable(cf, ds)
    ensures ParseDecls(cf, f, ds).pkg == f.pkg && ParseDecls(cf, f, ds).comment == f.comment
  {
    if |ds| > 0 {
      var init := ds[..|ds| - 1];
      ParseDeclsInit(cf, f, ds);
      ParseKeepsPackage(cf, f, init);
      DeclStepKeeps(cf, ParseDecls(cf, f, init), ds[|ds| - 1]);
    }
  }

  /** parser/parse_test.go: `func (a *Hi) hello()` is read with receiver
      name "a" and type "*Hi". */
  lemma ReceiverExample(cf: CaseFns)
    ensures var d := FuncDecl("hello", Fields([Field(["a"], Star(Ident("Hi")))]), Sig(Fields([]), NilList), Some("{print(\"hello\")}"));
      DeclParsable(cf, d) && DeclMethod(cf, d).recv == NamedTypeValue("a", "*Hi", "")
  {
    var fs := [Field(["a"], Star(Ident("Hi")))];
    assert fs[..0] == [];
    assert TypeString(Star(Ident("Hi"))) == "*Hi";
    assert FieldsEntries(cf, fs) == [NamedTypeValue("a", "*Hi", "")];
  }
}
