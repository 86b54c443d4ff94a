/** generator/utils.go: the helpers the templates of a generated service
    read a method through: the `service` import given to the service's own
    types, and the HTTP routes of a method's annotations. */
module GenUtils {
  import opened Wrappers
  import opened GoStrings
  import opened ServiceCode
  import ServiceTransport

  /** `isUpper`: a character is upper case when upper-casing leaves it as
      it is, so digits, punctuation and `_` count as upper case too. */
  function IsUpperRune(ch: char): (r: bool)
    ensures r <==> !IsLowerAscii(ch)
  {
    ch == Upper(ch)
  }

  /** `code.NewImport("service", "")`. */
  const ServiceImport := Import("service", "", "")

  /** A type without an import is read through its first byte, so its
      qualifier must not be empty. */
  predicate Indexable(ps: seq<Parameter>)
  {
    forall k :: 0 <= k < |ps| ==> ps[k].typ.imp.None? ==> |ps[k].typ.qualifier| > 0
  }

  /** One parameter of `fixMethodTypes`: a type with no import whose name
      starts upper case is taken to be declared in the service package. */
  function FixedType(p: Parameter): (r: Parameter)
    requires p.typ.imp.None? ==> |p.typ.qualifier| > 0
    ensures r.name == p.name && r.typ.qualifier == p.typ.qualifier
    ensures r.typ.pointer == p.typ.pointer && r.typ.variadic == p.typ.variadic
    ensures p.typ.imp.Some? ==> r == p
    ensures p.typ.imp.None? ==>
      (r.typ.imp.None? <==> IsLowerAscii(p.typ.qualifier[0])) &&
      (r.typ.imp.Some? ==> r.typ.imp.value == ServiceImport)
  {
    if p.typ.imp.None? && IsUpperRune(p.typ.qualifier[0]) then p.(typ := p.typ.(imp := Some(ServiceImport)))
    else p
  }

  function FixedTypes(ps: seq<Parameter>): (r: seq<Parameter>)
    requires Indexable(ps)
    ensures |r| == |ps|
  {
    seq(|ps|, k requires 0 <= k < |ps| => FixedType(ps[k]))
  }

  /** One loop of `fixMethodTypes`, over the parameters or the results. */
  method FixTypesIn(a: array<Parameter>)
    requires Indexable(a[..])
    modifies a
    ensures a[..] == FixedTypes(old(a[..]))
  {
    ghost var a0 := a[..];
    var k := 0;
    while k < a.Length
      invariant 0 <= k <= a.Length
      invariant forall j :: 0 <= j < k ==> a[j] == FixedType(a0[j])
      invariant forall j :: k <= j < a.Length ==> a[j] == a0[j]
    {
      var param := a[k];
      if param.typ.imp.None? && IsUpperRune(param.typ.qualifier[0]) {
        a[k] := param.(typ := param.typ.(imp := Some(ServiceImport)));
      }
      k := k + 1;
    }
  }

  /** `fixMethodTypes`: the parameters, then the results, of one method. */
  method FixMethodTypes(params: array<Parameter>, results: array<Parameter>)
    requires params != results
    requires Indexable(params[..]) && Indexable(results[..])
    modifies params, results
    ensures params[..] == FixedTypes(old(params[..]))
    ensures results[..] == FixedTypes(old(results[..]))
  {
    FixTypesIn(params);
    FixTypesIn(results);
  }

  /** Every piece upper-cased, in order. */
  function UpperAll(pieces: seq<string>): (r: seq<string>)
    ensures |r| == |pieces|
  {
    seq(|pieces|, k requires 0 <= k < |pieces| => ToUpper(pieces[k]))
  }

  /** `routeMethods`: the comma-separated pieces, each upper-cased (not
      trimmed), joined again with ",". */
  function RouteMethods(methods: string): string
  {
    Join(UpperAll(Split(methods, ',')), ",")
  }

  method RouteMethodsOf(methods: string) returns (r: string)
    ensures r == RouteMethods(methods)
  {
    var pieces := Split(methods, ',');
    var prepared: seq<string> := [];
    var k := 0;
    while k < |pieces|
      invariant 0 <= k <= |pieces|
      invariant |prepared| == k
      invariant forall j :: 0 <= j < k ==> prepared[j] == ToUpper(pieces[j])
    {
      prepared := prepared + [ToUpper(pieces[k])];
      k := k + 1;
    }
    assert prepared == UpperAll(pieces);
    r := Join(prepared, ",");
  }

  /** The map the templates read one route from. */
  function RouteMap(a: Annotation): (r: map<string, string>)
    ensures r.Keys == {"Name", "Route", "Methods"}
    ensures r["Name"] == Get(a, "name") && r["Route"] == Get(a, "route")
    ensures r["Methods"] == RouteMethods(Get(a, "methods"))
  {
    map["Name" := Get(a, "name"), "Route" := Get(a, "route"), "Methods" := RouteMethods(Get(a, "methods"))]
  }

  /** The routes of `findMethodRoutes`: one per `http` annotation, in
      order. */
  function MethodRoutes(anns: seq<Annotation>): (r: seq<map<string, string>>)
    ensures |r| == |ServiceTransport.HttpAnnotations(anns)|
  {
    var h := ServiceTransport.HttpAnnotations(anns);
    seq(|h|, k requires 0 <= k < |h| => RouteMap(h[k]))
  }

  method FindMethodRoutes(m: InterfaceMethod) returns (routes: seq<map<string, string>>)
    ensures routes == MethodRoutes(m.annotations)
  {
    var anns := m.annotations;
    routes := [];
    var k := 0;
    while k < |anns|
      invariant 0 <= k <= |anns|
      invariant routes == MethodRoutes(anns[..k])
    {
      MethodRoutesSnoc(anns, k);
      var annotation := anns[k];
      if annotation.name == "http" {
        var methods := RouteMethodsOf(Get(annotation, "methods"));
        var route := map["Name" := Get(annotation, "name"), "Route" := Get(annotation, "route"), "Methods" := methods];
        routes := routes + [route];
      }
      k := k + 1;
    }
    assert anns[..k] == anns;
  }

  /** One more annotation: a route more when it is an `http` one. */
  lemma MethodRoutesSnoc(anns: seq<Annotation>, k: nat)
    requires k < |anns|
    ensures MethodRoutes(anns[..k + 1]) == MethodRoutes(anns[..k]) + (if anns[k].name == "http" then [RouteMap(anns[k])] else [])
  {
    assert anns[..k + 1][..k] == anns[..k];
    var h0, h1 := ServiceTransport.HttpAnnotations(anns[..k]), ServiceTransport.HttpAnnotations(anns[..k + 1]);
    assert h1 == h0 + if anns[k].name == "http" then [anns[k]] else [];
  }

  // ---------------------------------------------------------------- lemmas

  /** Upper-casing distributes over a join. */
  lemma {:induction false} UpperJoin(parts: seq<string>, sep: string)
    ensures ToUpper(Join(parts, sep)) == Join(UpperAll(parts), ToUpper(sep))
    decreases |parts|
  {
    if |parts| > 1 {
      UpperJoin(parts[1..], sep);
      assert UpperAll(parts)[1..] == UpperAll(parts[1..]);
      ToUpperAppend(parts[0], sep);
      ToUpperAppend(parts[0] + sep, Join(parts[1..], sep));
    }
  }

  /** Splitting on "," and joining again only upper-cases the text: the
      verbs come out exactly as `strings.ToUpper` of the whole list. */
  lemma RouteMethodsIsUpper(methods: string)
    ensures RouteMethods(methods) == ToUpper(methods)
  {
    JoinSplit(methods, ',');
    UpperJoin(Split(methods, ','), ",");
    assert ToUpper(",") == ",";
  }

  /** A second pass changes nothing. */
  lemma RouteMethodsIdempotent(methods: string)
    ensures RouteMethods(RouteMethods(methods)) == RouteMethods(methods)
  {
    RouteMethodsIsUpper(methods);
    RouteMethodsIsUpper(RouteMethods(methods));
    var u := ToUpper(methods);
    forall i | 0 <= i < |u| ensures ToUpper(u)[i] == u[i] {
      UpperIdempotent(methods[i]);
    }
  }

  /** The verbs split back into the upper-cased pieces, one per piece. */
  lemma RouteMethodsPieces(methods: string)
    ensures Split(RouteMethods(methods), ',') == UpperAll(Split(methods, ','))
  {
    var pieces := Split(methods, ',');
    var up := UpperAll(pieces);
    SplitPiecesHaveNoSeparator(methods, ',');
    forall k | 0 <= k < |up| ensures ',' !in up[k] {
      assert ',' !in pieces[k];
      forall i | 0 <= i < |up[k]| ensures up[k][i] != ',' {
        assert up[k][i] == Upper(pieces[k][i]);
      }
    }
    SplitJoin(up, ',');
  }

  /** After `fixMethodTypes` every type without an import starts lower
      case, and a second pass changes nothing. */
  lemma FixedTypesSettled(ps: seq<Parameter>)
    requires Indexable(ps)
    ensures Indexable(FixedTypes(ps))
    ensures forall k :: 0 <= k < |ps| && FixedTypes(ps)[k].typ.imp.None? ==> IsLowerAscii(FixedTypes(ps)[k].typ.qualifier[0])
    ensures FixedTypes(FixedTypes(ps)) == FixedTypes(ps)
  {
  }

  /** A route is read as written: `findMethodRoutes` adds no leading "/"
      where the service's own transport does, so the two agree on the name
      and on a route that already has one. */
  lemma RoutesAgreeWithTransport(a: Annotation)
    requires a.name == "http"
    requires HasPrefix(Get(a, "route"), "/")
    ensures RouteMap(a)["Route"] == ServiceTransport.MethodRouteFor(a).route
    ensures RouteMap(a)["Name"] == ServiceTransport.MethodRouteFor(a).name
  {
  }
}
