/** generator/generator.go: the base generator's merge helpers. Which
    imports a file still lacks, how they are added to it, how a fresh
    receiver name is chosen, and which import path a type needs. */
module Generator {
  import opened Wrappers
  import opened GoStrings
  import opened Utils
  import opened Src
  import opened GoAst
  import Parser

  // ---------------------------------------------------------------- missing imports

  /** The error `strconv.Unquote` reports. */
  const UnquoteError := "invalid syntax"

  /** An import without an alias whose path literal cannot be unquoted. */
  predicate BadUnaliased(vo: NamedTypeValue)
  {
    vo.name == "" && Unquote(vo.typ).None?
  }

  /** The existing import `vo` already provides the required import `v`:
      same path literal, and the same alias or, when `vo` has no alias, a
      path that ends with `v`'s alias. */
  predicate Provides(vo: NamedTypeValue, v: NamedTypeValue)
  {
    v.typ == vo.typ &&
      (v.name == vo.name || (vo.name == "" && Unquote(vo.typ).Some? && HasSuffix(Unquote(vo.typ).value, v.name)))
  }

  /** The inner loop of `getMissingImports` from index `i` on: an error at
      the first unquotable unaliased import, `false` (not missing) at the
      first import that provides `v`, `true` when the last one does not. */
  function ScanFrom(v: NamedTypeValue, ex: seq<NamedTypeValue>, i: nat): Result<bool>
    requires i < |ex|
    decreases |ex| - i
  {
    var vo := ex[i];
    if BadUnaliased(vo) then Failure(UnquoteError)
    else if Provides(vo, v) then Success(false)
    else if i == |ex| - 1 then Success(true)
    else ScanFrom(v, ex, i + 1)
  }

  /** The outer loop over the required imports, for a non-empty list of
      existing ones. */
  function MissingLoop(req: seq<NamedTypeValue>, ex: seq<NamedTypeValue>): Result<seq<NamedTypeValue>>
    requires |ex| > 0
  {
    if |req| == 0 then Success([])
    else
      match MissingLoop(req[..|req| - 1], ex)
      case Failure(e) => Failure(e)
      case Success(n) =>
        match ScanFrom(req[|req| - 1], ex, 0)
        case Failure(e) => Failure(e)
        case Success(missing) => Success(n + (if missing then [req[|req| - 1]] else []))
  }

  /** What `getMissingImports(req, f)` returns, `ex` being `f.Imports`. */
  function MissingImports(req: seq<NamedTypeValue>, ex: seq<NamedTypeValue>): Result<seq<NamedTypeValue>>
  {
    if |ex| == 0 then Success(req) else MissingLoop(req, ex)
  }

  lemma {:induction false} MissingLoopFailureStays(req: seq<NamedTypeValue>, ex: seq<NamedTypeValue>, k: nat)
    requires |ex| > 0 && k <= |req|
    requires MissingLoop(req[..k], ex).Failure?
    ensures MissingLoop(req, ex) == Failure(UnquoteError)
    decreases |req|
  {
    if k == |req| {
      assert req[..k] == req;
      MissingLoopFailureIsUnquote(req, ex);
    } else {
      assert req[..|req| - 1][..k] == req[..k];
      MissingLoopFailureStays(req[..|req| - 1], ex, k);
    }
  }

  lemma {:induction false} ScanFailureIsUnquote(v: NamedTypeValue, ex: seq<NamedTypeValue>, i: nat)
    requires i < |ex| && ScanFrom(v, ex, i).Failure?
    ensures ScanFrom(v, ex, i) == Failure(UnquoteError)
    decreases |ex| - i
  {
    if !BadUnaliased(ex[i]) && !Provides(ex[i], v) && i < |ex| - 1 {
      ScanFailureIsUnquote(v, ex, i + 1);
    }
  }

  lemma {:induction false} MissingLoopFailureIsUnquote(req: seq<NamedTypeValue>, ex: seq<NamedTypeValue>)
    requires |ex| > 0 && MissingLoop(req, ex).Failure?
    ensures MissingLoop(req, ex) == Failure(UnquoteError)
  {
    if |req| > 0 {
      if MissingLoop(req[..|req| - 1], ex).Failure? {
        MissingLoopFailureIsUnquote(req[..|req| - 1], ex);
      } else {
        ScanFailureIsUnquote(req[|req| - 1], ex, 0);
      }
    }
  }

  /** `getMissingImports`. The partial list Go returns beside an error is
      dropped: every caller discards it. */
  method GetMissingImports(req: seq<NamedTypeValue>, ex: seq<NamedTypeValue>) returns (r: Result<seq<NamedTypeValue>>)
    ensures r == MissingImports(req, ex)
  {
    var n: seq<NamedTypeValue> := [];
    var vi := 0;
    while vi < |req|
      invariant 0 <= vi <= |req|
      invariant |ex| > 0 ==> MissingLoop(req[..vi], ex) == Success(n)
    {
      var v := req[vi];
      assert req[..vi + 1][..vi] == req[..vi];
      ghost var n0 := n;
      var i := 0;
      while i < |ex|
        invariant 0 <= i <= |ex|
        invariant i < |ex| ==> n == n0 && ScanFrom(v, ex, 0) == ScanFrom(v, ex, i)
        invariant i == |ex| && |ex| > 0 ==> n == n0 + [v] && ScanFrom(v, ex, 0) == Success(true)
      {
        var vo := ex[i];
        if vo.name == "" {
          var tp := Unquote(vo.typ);
          if tp.None? {
            MissingLoopFailureStays(req, ex, vi + 1);
            return Failure(UnquoteError);
          }
          if v.typ == vo.typ && HasSuffix(tp.value, v.name) {
            assert Provides(vo, v) && ScanFrom(v, ex, i) == Success(false);
            break;
          }
        }
        if v.typ == vo.typ && v.name == vo.name {
          assert Provides(vo, v) && ScanFrom(v, ex, i) == Success(false);
          break;
        } else if i == |ex| - 1 {
          n := n + [v];
        }
        i := i + 1;
      }
      assert |ex| > 0 ==> ScanFrom(v, ex, 0).Success? && n == n0 + (if ScanFrom(v, ex, 0).value then [v] else []);
      assert req[..vi + 1][vi] == v;
      vi := vi + 1;
    }
    assert req[..vi] == req;
    if |ex| == 0 {
      n := req;
    }
    return Success(n);
  }

  /** Some existing import provides `v`. */
  predicate ProvidedBy(ex: seq<NamedTypeValue>, v: NamedTypeValue)
  {
    exists j :: 0 <= j < |ex| && Provides(ex[j], v)
  }

  /** The required imports no existing one provides, in their order. */
  function Unprovided(req: seq<NamedTypeValue>, ex: seq<NamedTypeValue>): seq<NamedTypeValue>
  {
    if |req| == 0 then []
    else Unprovided(req[..|req| - 1], ex) + (if ProvidedBy(ex, req[|req| - 1]) then [] else [req[|req| - 1]])
  }

  /** The inner scan fails exactly when it meets an unquotable unaliased
      import before any import providing `v`; otherwise it reports whether
      no import at all provides `v`. */
  lemma {:induction false} ScanFromMeaning(v: NamedTypeValue, ex: seq<NamedTypeValue>, i: nat)
    requires i < |ex|
    ensures ScanFrom(v, ex, i).Failure? <==>
      exists j :: i <= j < |ex| && BadUnaliased(ex[j]) && forall k :: i <= k < j ==> !Provides(ex[k], v)
    ensures ScanFrom(v, ex, i).Success? ==>
      (ScanFrom(v, ex, i).value <==> forall k :: i <= k < |ex| ==> !Provides(ex[k], v))
    decreases |ex| - i
  {
    if !BadUnaliased(ex[i]) && !Provides(ex[i], v) && i < |ex| - 1 {
      ScanFromMeaning(v, ex, i + 1);
      if exists j :: i <= j < |ex| && BadUnaliased(ex[j]) && forall k :: i <= k < j ==> !Provides(ex[k], v) {
        var j :| i <= j < |ex| && BadUnaliased(ex[j]) && forall k :: i <= k < j ==> !Provides(ex[k], v);
        assert j != i;
      }
    }
  }

  /** Every unaliased import path in the list can be unquoted. */
  predicate Unquotable(ex: seq<NamedTypeValue>)
  {
    forall j :: 0 <= j < |ex| ==> !BadUnaliased(ex[j])
  }

  /** With well-formed existing imports the result is exactly the required
      imports no existing import provides, in order; with no existing
      imports at all, every required import is missing. */
  lemma {:induction false} MissingImportsAreUnprovided(req: seq<NamedTypeValue>, ex: seq<NamedTypeValue>)
    requires Unquotable(ex)
    ensures |ex| > 0 ==> MissingImports(req, ex) == Success(Unprovided(req, ex))
    ensures |ex| == 0 ==> MissingImports(req, ex) == Success(req)
  {
    if |ex| > 0 && |req| > 0 {
      var v := req[|req| - 1];
      MissingImportsAreUnprovided(req[..|req| - 1], ex);
      ScanFromMeaning(v, ex, 0);
      assert ScanFrom(v, ex, 0).Success?;
      assert ScanFrom(v, ex, 0).value <==> !ProvidedBy(ex, v);
    }
  }

  /** Scanning the existing imports for `v` meets an unquotable unaliased
      import before any import providing `v`. */
  predicate Blocked(ex: seq<NamedTypeValue>, v: NamedTypeValue)
  {
    exists j :: 0 <= j < |ex| && BadUnaliased(ex[j]) && forall k :: 0 <= k < j ==> !Provides(ex[k], v)
  }

  /** The call fails exactly when the scan for some required import runs
      into an unquotable unaliased import first. */
  lemma {:induction false} MissingImportsFailure(req: seq<NamedTypeValue>, ex: seq<NamedTypeValue>)
    ensures MissingImports(req, ex).Failure? <==> exists v :: v in req && Blocked(ex, v)
  {
    if |ex| > 0 && |req| > 0 {
      var init, v := req[..|req| - 1], req[|req| - 1];
      MissingImportsFailure(init, ex);
      ScanFromMeaning(v, ex, 0);
      assert req == init + [v];
      assert forall w :: w in req <==> w in init || w == v;
      assert ScanFrom(v, ex, 0).Failure? <==> Blocked(ex, v);
      assert MissingImports(req, ex).Failure? <==> MissingImports(init, ex).Failure? || ScanFrom(v, ex, 0).Failure?;
    }
  }

  /** The missing imports are drawn from the required ones in their order. */
  lemma {:induction false} UnprovidedIsSubsequence(req: seq<NamedTypeValue>, ex: seq<NamedTypeValue>)
    ensures |Unprovided(req, ex)| <= |req|
    ensures forall v :: v in Unprovided(req, ex) ==> v in req && !ProvidedBy(ex, v)
  {
    if |req| > 0 {
      UnprovidedIsSubsequence(req[..|req| - 1], ex);
      forall v | v in req[..|req| - 1] ensures v in req { }
    }
  }

  /** Adding the missing imports makes the next call report none missing:
      each of them provides itself. */
  lemma {:induction false} MissingImportsIdempotent(req: seq<NamedTypeValue>, ex: seq<NamedTypeValue>)
    requires Unquotable(ex) && Unquotable(req)
    ensures MissingImports(req, ex).Success?
    ensures MissingImports(req, ex + MissingImports(req, ex).value) == Success([])
  {
    MissingImportsAreUnprovided(req, ex);
    var n := MissingImports(req, ex).value;
    var all := ex + n;
    UnprovidedIsSubsequence(req, ex);
    assert Unquotable(all) by {
      forall j | 0 <= j < |all| ensures !BadUnaliased(all[j]) {
        if j >= |ex| {
          assert all[j] == n[j - |ex|];
          if |ex| > 0 { assert n[j - |ex|] in req; } else { assert n == req; }
        }
      }
    }
    forall v | v in req ensures ProvidedBy(all, v) {
      if ProvidedBy(ex, v) {
        var j :| 0 <= j < |ex| && Provides(ex[j], v);
        assert all[j] == ex[j];
      } else {
        if |ex| > 0 { UnprovidedKeeps(req, ex, v); }
        var j :| 0 <= j < |n| && n[j] == v;
        assert all[|ex| + j] == v && Provides(v, v);
      }
    }
    if |all| > 0 {
      MissingImportsAreUnprovided(req, all);
      NothingUnprovided(req, all);
    }
  }

  lemma {:induction false} UnprovidedKeeps(req: seq<NamedTypeValue>, ex: seq<NamedTypeValue>, v: NamedTypeValue)
    requires v in req && !ProvidedBy(ex, v)
    ensures v in Unprovided(req, ex)
  {
    if req[|req| - 1] != v {
      assert v in req[..|req| - 1] by {
        var j :| 0 <= j < |req| && req[j] == v;
        assert j < |req| - 1 && req[..|req| - 1][j] == v;
      }
      UnprovidedKeeps(req[..|req| - 1], ex, v);
    }
  }

  lemma {:induction false} NothingUnprovided(req: seq<NamedTypeValue>, ex: seq<NamedTypeValue>)
    requires forall v :: v in req ==> ProvidedBy(ex, v)
    ensures Unprovided(req, ex) == []
  {
    if |req| > 0 {
      forall v | v in req[..|req| - 1] ensures ProvidedBy(ex, v) { assert v in req; }
      NothingUnprovided(req[..|req| - 1], ex);
    }
  }

  // ---------------------------------------------------------------- adding imports

  function AsImportSpecs(imp: seq<NamedTypeValue>): (r: seq<Spec>)
    ensures |r| == |imp|
    ensures forall k :: 0 <= k < |imp| ==> r[k] == ImportSpec(Some(imp[k].name), Some(imp[k].typ))
  {
    seq(|imp|, k requires 0 <= k < |imp| => ImportSpec(Some(imp[k].name), Some(imp[k].typ)))
  }

  predicate IsImportDecl(d: Decl) { d.GenDecl? && d.tok == IMPORT }

  /** `AddImportsToFile` up to the sorting and printing of the result: the
      syntax error of the file, or its declarations with the imports added
      to EVERY import declaration, or, when there is none, a new import
      declaration put first. */
  method AddImportsToFile(imp: seq<NamedTypeValue>, src: SourceParse) returns (r: Result<SourceParse>)
    ensures src.SyntaxError? ==> r == Failure(src.msg)
    ensures src.ParsedFile? ==> r.Success? && r.value.ParsedFile? && r.value.pkg == src.pkg
    ensures src.ParsedFile? && (exists k :: 0 <= k < |src.decls| && IsImportDecl(src.decls[k])) ==>
      |r.value.decls| == |src.decls| &&
      forall k :: 0 <= k < |src.decls| ==>
        r.value.decls[k] == (if IsImportDecl(src.decls[k]) then GenDecl(IMPORT, src.decls[k].specs + AsImportSpecs(imp)) else src.decls[k])
    ensures src.ParsedFile? && (forall k :: 0 <= k < |src.decls| ==> !IsImportDecl(src.decls[k])) ==>
      r.value.decls == [GenDecl(IMPORT, AsImportSpecs(imp))] + src.decls
    ensures src.ParsedFile? ==> ImportsAdded(imp, src.decls, r.value.decls)
  {
    if src.SyntaxError? {
      return Failure(src.msg);
    }
    var decls := src.decls;
    var found := false;
    var i := 0;
    while i < |decls|
      invariant 0 <= i <= |decls| && |decls| == |src.decls|
      invariant found <==> exists k :: 0 <= k < i && IsImportDecl(src.decls[k])
      invariant forall k :: 0 <= k < i ==>
        decls[k] == (if IsImportDecl(src.decls[k]) then GenDecl(IMPORT, src.decls[k].specs + AsImportSpecs(imp)) else src.decls[k])
      invariant forall k :: i <= k < |decls| ==> decls[k] == src.decls[k]
    {
      var d := decls[i];
      if d.GenDecl? && d.tok == IMPORT {
        found := true;
        var specs := d.specs;
        var j := 0;
        while j < |imp|
          invariant 0 <= j <= |imp|
          invariant specs == d.specs + AsImportSpecs(imp[..j])
        {
          assert AsImportSpecs(imp[..j + 1]) == AsImportSpecs(imp[..j]) + [ImportSpec(Some(imp[j].name), Some(imp[j].typ))];
          specs := specs + [ImportSpec(Some(imp[j].name), Some(imp[j].typ))];
          j := j + 1;
        }
        assert imp[..j] == imp;
        decls := decls[i := GenDecl(IMPORT, specs)];
      }
      i := i + 1;
    }
    if !found {
      var specs: seq<Spec> := [];
      var j := 0;
      while j < |imp|
        invariant 0 <= j <= |imp|
        invariant specs == AsImportSpecs(imp[..j])
      {
        assert AsImportSpecs(imp[..j + 1]) == AsImportSpecs(imp[..j]) + [ImportSpec(Some(imp[j].name), Some(imp[j].typ))];
        specs := specs + [ImportSpec(Some(imp[j].name), Some(imp[j].typ))];
        j := j + 1;
      }
      assert imp[..j] == imp;
      assert decls == src.decls;
      decls := [GenDecl(IMPORT, specs)] + decls;
    }
    return Success(ParsedFile(src.pkg, decls));
  }

  /** One spec appended: the parser reads one more import. */
  lemma ImportEntriesSnoc(specs: seq<Spec>, spec: Spec)
    requires spec.ImportSpec?
    ensures Parser.ImportEntries(specs + [spec]) == Parser.ImportEntries(specs) + [Parser.ImportEntry(spec)]
  {
    var all := specs + [spec];
    assert all[..|all| - 1] == specs;
  }

  /** Reading back the added specs gives the added imports. */
  lemma {:induction false} ImportSpecsReadBack(specs: seq<Spec>, imp: seq<NamedTypeValue>)
    requires forall k :: 0 <= k < |imp| ==> imp[k].value == ""
    ensures Parser.ImportEntries(specs + AsImportSpecs(imp)) == Parser.ImportEntries(specs) + imp
    decreases |imp|
  {
    if |imp| > 0 {
      var init, last := imp[..|imp| - 1], imp[|imp| - 1];
      ImportSpecsReadBack(specs, init);
      var spec := ImportSpec(Some(last.name), Some(last.typ));
      assert AsImportSpecs(imp) == AsImportSpecs(init) + [spec];
      assert specs + AsImportSpecs(imp) == (specs + AsImportSpecs(init)) + [spec];
      ImportEntriesSnoc(specs + AsImportSpecs(init), spec);
      assert Parser.ImportEntry(spec) == last;
      assert init + [last] == imp;
    } else {
      assert specs + AsImportSpecs(imp) == specs;
    }
  }

  /** The imports of the edited declarations, as the parser reads them:
      the last import declaration with the new imports appended. */
  lemma {:induction false} EditedImportsLastDecl(decls: seq<Decl>, out: seq<Decl>, imp: seq<NamedTypeValue>)
    requires |out| == |decls|
    requires forall k :: 0 <= k < |decls| ==>
      out[k] == (if IsImportDecl(decls[k]) then GenDecl(IMPORT, decls[k].specs + AsImportSpecs(imp)) else decls[k])
    ensures Parser.LastImportSpecs(out) ==
      match Parser.LastImportSpecs(decls) case Some(s) => Some(s + AsImportSpecs(imp)) case None => None
  {
    if |decls| > 0 {
      EditedImportsLastDecl(decls[..|decls| - 1], out[..|out| - 1], imp);
    }
  }

  lemma {:induction false} NoImportDeclNoImports(decls: seq<Decl>)
    requires forall k :: 0 <= k < |decls| ==> !IsImportDecl(decls[k])
    ensures Parser.LastImportSpecs(decls) == None
  {
    if |decls| > 0 {
      NoImportDeclNoImports(decls[..|decls| - 1]);
    }
  }

  lemma {:induction false} PrependedImportDeclIsLast(d: Decl, decls: seq<Decl>)
    requires IsImportDecl(d)
    requires forall k :: 0 <= k < |decls| ==> !IsImportDecl(decls[k])
    ensures Parser.LastImportSpecs([d] + decls) == Some(d.specs)
    decreases |decls|
  {
    if |decls| > 0 {
      assert ([d] + decls)[..|decls|] == [d] + decls[..|decls| - 1];
      PrependedImportDeclIsLast(d, decls[..|decls| - 1]);
    }
  }

  /** What `AddImportsToFile` asks of the edited declarations: every import
      declaration gets the new imports, or a new one comes first. */
  predicate ImportsAdded(imp: seq<NamedTypeValue>, decls: seq<Decl>, out: seq<Decl>)
  {
    ((exists k :: 0 <= k < |decls| && IsImportDecl(decls[k])) ==>
      |out| == |decls| &&
      forall k :: 0 <= k < |decls| ==>
        out[k] == (if IsImportDecl(decls[k]) then GenDecl(IMPORT, decls[k].specs + AsImportSpecs(imp)) else decls[k])) &&
    ((forall k :: 0 <= k < |decls| ==> !IsImportDecl(decls[k])) ==>
      out == [GenDecl(IMPORT, AsImportSpecs(imp))] + decls)
  }

  /** The imports a parser reads from declarations: those of the last
      import declaration, or none. */
  function ReadImports(decls: seq<Decl>): seq<NamedTypeValue>
  {
    match Parser.LastImportSpecs(decls) case Some(specs) => Parser.ImportEntries(specs) case None => []
  }

  /** The edited declarations can be read whenever the original ones can. */
  lemma EditedDeclsParsable(cf: CaseFns, imp: seq<NamedTypeValue>, decls: seq<Decl>, out: seq<Decl>)
    requires Parser.DeclsParsable(cf, decls) && ImportsAdded(imp, decls, out)
    ensures Parser.DeclsParsable(cf, out)
  {
    forall k | 0 <= k < |out| ensures Parser.DeclParsable(cf, out[k]) {
      if exists j :: 0 <= j < |decls| && IsImportDecl(decls[j]) {
        assert Parser.DeclParsable(cf, decls[k]);
      } else if k > 0 {
        assert out[k] == decls[k - 1];
        assert Parser.DeclParsable(cf, decls[k - 1]);
      }
    }
  }

  /** The imports read from the edited declarations are those read before,
      then the added ones. */
  lemma EditedImportsReadBack(imp: seq<NamedTypeValue>, decls: seq<Decl>, out: seq<Decl>)
    requires forall k :: 0 <= k < |imp| ==> imp[k].value == ""
    requires ImportsAdded(imp, decls, out)
    ensures ReadImports(out) == ReadImports(decls) + imp
  {
    if exists j :: 0 <= j < |decls| && IsImportDecl(decls[j]) {
      EditedImportsLastDecl(decls, out, imp);
      var j :| 0 <= j < |decls| && IsImportDecl(decls[j]);
      LastImportExists(decls, j);
      ImportSpecsReadBack(Parser.LastImportSpecs(decls).value, imp);
    } else {
      NoImportDeclNoImports(decls);
      PrependedImportDeclIsLast(GenDecl(IMPORT, AsImportSpecs(imp)), decls);
      ImportSpecsReadBack([], imp);
      assert [] + AsImportSpecs(imp) == AsImportSpecs(imp);
      assert Parser.ImportEntries([]) == [];
    }
  }

  /** The imports the parser reads from the edited file are the imports it
      read before followed by the added ones. */
  lemma AddedImportsAreReadBack(cf: CaseFns, imp: seq<NamedTypeValue>, src: SourceParse, out: SourceParse)
    requires src.ParsedFile? && Parser.Parsable(cf, src)
    requires forall k :: 0 <= k < |imp| ==> imp[k].value == ""
    requires out.ParsedFile? && out.pkg == src.pkg
    requires ImportsAdded(imp, src.decls, out.decls)
    ensures Parser.Parsable(cf, out)
    ensures Parser.ParseSpec(cf, out).value.imports == Parser.ParseSpec(cf, src).value.imports + imp
  {
    var f0 := NewFile().(pkg := src.pkg);
    EditedDeclsParsable(cf, imp, src.decls, out.decls);
    Parser.ParseImportsLastDeclWins(cf, f0, src.decls);
    Parser.ParseImportsLastDeclWins(cf, f0, out.decls);
    EditedImportsReadBack(imp, src.decls, out.decls);
  }

  lemma {:induction false} LastImportExists(decls: seq<Decl>, j: nat)
    requires j < |decls| && IsImportDecl(decls[j])
    ensures Parser.LastImportSpecs(decls).Some?
  {
    if j < |decls| - 1 && !IsImportDecl(decls[|decls| - 1]) {
      LastImportExists(decls[..|decls| - 1], j);
    }
  }

  // ---------------------------------------------------------------- names by sample

  function Names(exclude: seq<NamedTypeValue>): seq<string>
  {
    seq(|exclude|, k requires 0 <= k < |exclude| => exclude[k].name)
  }

  /** The state of `GenerateNameBySample`'s loop after the given exclude
      entries: the length `sn` of the candidate and the candidate, a prefix
      of the sample in lower first camel case. `None` stands for the branch
      where `sn` outgrows the sample (Go then converts a negative number to
      a string) or the candidate would be sliced past its end. */
  function SampleScan(cf: CaseFns, sample: string, exclude: seq<NamedTypeValue>): (r: Option<(nat, string)>)
    requires LowerFirstCamelDefined(cf, sample)
    ensures r.Some? ==> 1 <= r.value.0 <= |ToLowerFirstCamelCase(cf, sample)|
                        && r.value.1 == ToLowerFirstCamelCase(cf, sample)[..r.value.0]
  {
    if |exclude| == 0 then Some((1, ToLowerFirstCamelCase(cf, sample)[..1]))
    else
      match SampleScan(cf, sample, exclude[..|exclude| - 1])
      case None => None
      case Some(state) =>
        var (sn, name) := state;
        if exclude[|exclude| - 1].name != name then Some((sn, name))
        else if sn + 1 > |sample| || sn + 1 > |ToLowerFirstCamelCase(cf, sample)| then None
        else Some((sn + 1, ToLowerFirstCamelCase(cf, sample)[..sn + 1]))
  }

  /** `GenerateNameBySample` as written: one pass over `exclude`, growing
      the candidate each time an entry has its name. */
  method GenerateNameBySampleAsWritten(cf: CaseFns, sample: string, exclude: seq<NamedTypeValue>) returns (name: Option<string>)
    requires LowerFirstCamelDefined(cf, sample)
    ensures name.Some? <==> SampleScan(cf, sample, exclude).Some?
    ensures name.Some? ==> name.value == SampleScan(cf, sample, exclude).value.1
  {
    var lfc := ToLowerFirstCamelCase(cf, sample);
    var sn := 1;
    var candidate := lfc[..sn];
    var i := 0;
    while i < |exclude|
      invariant 0 <= i <= |exclude|
      invariant SampleScan(cf, sample, exclude[..i]) == Some((sn, candidate))
    {
      assert exclude[..i + 1][..i] == exclude[..i];
      if exclude[i].name == candidate {
        sn := sn + 1;
        if sn > |sample| || sn > |lfc| {
          SampleScanNoneStays(cf, sample, exclude, i + 1);
          return None;
        }
        candidate := lfc[..sn];
      }
      i := i + 1;
    }
    assert exclude[..i] == exclude;
    return Some(candidate);
  }

  lemma {:induction false} SampleScanNoneStays(cf: CaseFns, sample: string, exclude: seq<NamedTypeValue>, k: nat)
    requires LowerFirstCamelDefined(cf, sample) && k <= |exclude|
    requires SampleScan(cf, sample, exclude[..k]).None?
    ensures SampleScan(cf, sample, exclude).None?
    decreases |exclude|
  {
    if k == |exclude| {
      assert exclude[..k] == exclude;
    } else {
      assert exclude[..|exclude| - 1][..k] == exclude[..k];
      SampleScanNoneStays(cf, sample, exclude[..|exclude| - 1], k);
    }
  }

  /** The single pass can hand back a name it was told not to use: for the
      sample "hello" and exclude names "he", "h" the result is "he". */
  lemma SampleScanReturnsExcludedName(cf: CaseFns)
    requires |cf.camel("hello")| == 5 && cf.camel("hello")[1..] == "ello"
    ensures var exclude := [NamedTypeValue("he", "int", ""), NamedTypeValue("h", "int", "")];
      SampleScan(cf, "hello", exclude) == Some((2, "he")) && "he" in Names(exclude)
  {
    var exclude := [NamedTypeValue("he", "int", ""), NamedTypeValue("h", "int", "")];
    var lfc := ToLowerFirstCamelCase(cf, "hello");
    assert lfc == "hello";
    assert lfc[..1] == "h" && lfc[..2] == "he";
    assert exclude[..1][..0] == [];
    assert SampleScan(cf, "hello", exclude[..0]) == Some((1, "h"));
    assert exclude[..2][..1] == exclude[..1];
    assert SampleScan(cf, "hello", exclude[..1]) == Some((1, "h"));
    assert exclude[..2] == exclude;
    assert Names(exclude)[0] == "he";
  }

  /** The receiver name the generators evidently intend: the shortest
      prefix (at most the sample's length) of the sample in lower first
      camel case that no exclude entry has as its name; `None` when every
      such prefix is taken. */
  method GenerateNameBySample(cf: CaseFns, sample: string, exclude: seq<NamedTypeValue>) returns (name: Option<string>)
    requires LowerFirstCamelDefined(cf, sample)
    ensures name.Some? ==> name.value !in Names(exclude)
    ensures name.Some? ==> 1 <= |name.value| <= |sample| && HasPrefix(ToLowerFirstCamelCase(cf, sample), name.value)
    ensures name.Some? ==> forall k :: 1 <= k < |name.value| ==> ToLowerFirstCamelCase(cf, sample)[..k] in Names(exclude)
    ensures name.None? ==> forall k :: 1 <= k <= |sample| && k <= |ToLowerFirstCamelCase(cf, sample)| ==>
                             ToLowerFirstCamelCase(cf, sample)[..k] in Names(exclude)
  {
    var lfc := ToLowerFirstCamelCase(cf, sample);
    var names := Names(exclude);
    var sn := 1;
    while sn <= |sample| && sn <= |lfc| && lfc[..sn] in names
      invariant 1 <= sn <= |sample| + 1 && sn <= |lfc| + 1
      invariant forall k :: 1 <= k < sn ==> lfc[..k] in names
      decreases |sample| - sn
    {
      sn := sn + 1;
    }
    if sn > |sample| || sn > |lfc| {
      return None;
    }
    return Some(lfc[..sn]);
  }

  /** When no exclude entry is named by the first letter, the loop as
      written gives that letter. */
  lemma {:induction false} NoMatchKeepsFirst(cf: CaseFns, sample: string, exclude: seq<NamedTypeValue>)
    requires LowerFirstCamelDefined(cf, sample)
    requires ToLowerFirstCamelCase(cf, sample)[..1] !in Names(exclude)
    ensures SampleScan(cf, sample, exclude) == Some((1, ToLowerFirstCamelCase(cf, sample)[..1]))
  {
    if |exclude| > 0 {
      var init := exclude[..|exclude| - 1];
      assert forall k :: 0 <= k < |init| ==> Names(init)[k] == Names(exclude)[k];
      assert ToLowerFirstCamelCase(cf, sample)[..1] !in Names(init);
      NoMatchKeepsFirst(cf, sample, init);
      assert Names(exclude)[|exclude| - 1] == exclude[|exclude| - 1].name;
    }
  }

  // ---------------------------------------------------------------- qualifiers

  function UnquoteOrEmpty(s: string): string
  {
    match Unquote(s) case Some(p) => p case None => ""
  }

  /** The import `v` is the one a type qualified by `s` comes from: its
      unquoted path (or "", when it cannot be unquoted) ends with `s`, or
      its alias is `s`. */
  predicate Qualifies(v: NamedTypeValue, s: string)
  {
    HasSuffix(UnquoteOrEmpty(v.typ), s) || v.name == s
  }

  /** The path of the first import that qualifies `s`, or "". */
  function QualifierPath(s: string, imp: seq<NamedTypeValue>): string
  {
    if |imp| == 0 then ""
    else if Qualifies(imp[0], s) then UnquoteOrEmpty(imp[0].typ)
    else QualifierPath(s, imp[1..])
  }

  /** `EnsureThatWeUseQualifierIfNeeded(tp, imp)`: a variadic type, or any
      type when there are no imports, has no qualifier. Which import
      qualifies the others is stated by the lemmas below. */
  function EnsureThatWeUseQualifierIfNeeded(tp: string, imp: seq<NamedTypeValue>): (r: string)
    ensures HasPrefix(tp, "...") ==> r == ""
    ensures |imp| == 0 ==> r == ""
  {
    if HasPrefix(tp, "...") then "" else QualifierPath(Split(tp, '.')[0], imp)
  }

  lemma {:induction false} QualifierPathFirstMatch(s: string, imp: seq<NamedTypeValue>, j: nat)
    requires j < |imp| && Qualifies(imp[j], s)
    requires forall k :: 0 <= k < j ==> !Qualifies(imp[k], s)
    ensures QualifierPath(s, imp) == UnquoteOrEmpty(imp[j].typ)
    decreases j
  {
    if j > 0 {
      assert !Qualifies(imp[0], s);
      var rest := imp[1..];
      assert rest[j - 1] == imp[j];
      forall k | 0 <= k < j - 1 ensures !Qualifies(rest[k], s) {
        assert rest[k] == imp[k + 1];
      }
      QualifierPathFirstMatch(s, rest, j - 1);
    }
  }

  lemma {:induction false} QualifierPathNoMatch(s: string, imp: seq<NamedTypeValue>)
    requires forall k :: 0 <= k < |imp| ==> !Qualifies(imp[k], s)
    ensures QualifierPath(s, imp) == ""
    decreases |imp|
  {
    if |imp| > 0 {
      assert !Qualifies(imp[0], s);
      assert forall k :: 0 <= k < |imp| - 1 ==> imp[1..][k] == imp[k + 1];
      QualifierPathNoMatch(s, imp[1..]);
    }
  }

  /** For a type that is not variadic, the qualifier is the unquoted path
      of the first import matching the text before the first '.'; when no
      import matches, or the type is variadic, it is "". */
  lemma QualifierIsFirstMatchingImport(tp: string, imp: seq<NamedTypeValue>, j: nat)
    requires !HasPrefix(tp, "...")
    requires j < |imp| && Qualifies(imp[j], Split(tp, '.')[0])
    requires forall k :: 0 <= k < j ==> !Qualifies(imp[k], Split(tp, '.')[0])
    ensures EnsureThatWeUseQualifierIfNeeded(tp, imp) == UnquoteOrEmpty(imp[j].typ)
  {
    QualifierPathFirstMatch(Split(tp, '.')[0], imp, j);
  }

  lemma QualifierAbsent(tp: string, imp: seq<NamedTypeValue>)
    requires HasPrefix(tp, "...") || forall k :: 0 <= k < |imp| ==> !Qualifies(imp[k], Split(tp, '.')[0])
    ensures EnsureThatWeUseQualifierIfNeeded(tp, imp) == ""
  {
    if !HasPrefix(tp, "...") {
      QualifierPathNoMatch(Split(tp, '.')[0], imp);
    }
  }

  /** A qualified type `pkg.Sel` is looked up by its package part. */
  lemma QualifierOfSelectorType(pkg: string, sel: string, imp: seq<NamedTypeValue>)
    requires |pkg| >= 1 && '.' !in pkg
    ensures EnsureThatWeUseQualifierIfNeeded(pkg + "." + sel, imp) == QualifierPath(pkg, imp)
  {
    var tp := pkg + "." + sel;
    assert tp[0] == pkg[0] && pkg[0] != '.';
    assert !HasPrefix(tp, "...");
    SplitFirstPiece(pkg, sel);
  }

  lemma {:induction false} SplitFirstPiece(pkg: string, rest: string)
    requires '.' !in pkg
    ensures Split(pkg + "." + rest, '.')[0] == pkg
    decreases |pkg|
  {
    var s := pkg + "." + rest;
    if |pkg| > 0 {
      assert s[1..] == pkg[1..] + "." + rest;
      assert '.' !in pkg[1..] by { assert forall c :: c in pkg[1..] ==> c in pkg; }
      SplitFirstPiece(pkg[1..], rest);
      assert s[0] == pkg[0] && s[0] != '.';
      assert [pkg[0]] + pkg[1..] == pkg;
    } else {
      assert s == ['.'] + rest;
      assert s[1..] == rest;
    }
  }
}
