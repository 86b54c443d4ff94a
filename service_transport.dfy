/** service/transport.go: the HTTP transport of a service method, built
    from the method's `@http(name=..., methods=..., route=...)`
    annotations. */
module ServiceTransport {
  import opened GoStrings
  import opened ServiceCode

  /** `MethodRoute`. */
  datatype MethodRoute = MethodRoute(name: string, methods: seq<string>, methodsAll: string, route: string)

  /** `HTTPTransport`, the one transport type there is. */
  datatype HttpTransport = HttpTransport(methodRoutes: seq<MethodRoute>)

  /** The annotations named `http`, in order. */
  function HttpAnnotations(anns: seq<Annotation>): (r: seq<Annotation>)
    ensures |r| <= |anns|
    ensures forall k :: 0 <= k < |r| ==> r[k].name == "http"
    ensures |r| == 0 <==> !Annotated(anns, "http")
  {
    if |anns| == 0 then []
    else
      var init := anns[..|anns| - 1];
      var last := anns[|anns| - 1];
      assert forall k :: 0 <= k < |init| ==> init[k] == anns[k];
      HttpAnnotations(init) + if last.name == "http" then [last] else []
  }

  /** One HTTP verb as the route lists it: trimmed and upper-cased. */
  function PreparedMethod(piece: string): string
  {
    ToUpper(TrimSpace(piece))
  }

  function PrepareMethods(pieces: seq<string>): (r: seq<string>)
    ensures |r| == |pieces|
    ensures forall k :: 0 <= k < |pieces| ==> r[k] == PreparedMethod(pieces[k])
  {
    seq(|pieces|, k requires 0 <= k < |pieces| => PreparedMethod(pieces[k]))
  }

  /** The route, with a leading "/" added when it has none. */
  function Route(route: string): (r: string)
  {
    if HasPrefix(route, "/") then route else "/" + route
  }

  function MethodRouteFor(a: Annotation): MethodRoute
  {
    var methods := PrepareMethods(Split(Get(a, "methods"), ','));
    MethodRoute(Get(a, "name"), methods, Join(methods, ", "), Route(Get(a, "route")))
  }

  /** The routes of `NewHTTPTransport`: one per `http` annotation. */
  function RoutesFor(anns: seq<Annotation>): seq<MethodRoute>
  {
    if |anns| == 0 then []
    else
      var last := anns[|anns| - 1];
      RoutesFor(anns[..|anns| - 1]) + if last.name == "http" then [MethodRouteFor(last)] else []
  }

  /** The inner loop over the comma-separated verbs. */
  method PrepareMethodsOf(methods: string) returns (prepared: seq<string>)
    ensures prepared == PrepareMethods(Split(methods, ','))
  {
    prepared := PrepareEach(Split(methods, ','));
  }

  /** Each piece trimmed and upper-cased, in order. */
  method PrepareEach(pieces: seq<string>) returns (prepared: seq<string>)
    ensures prepared == PrepareMethods(pieces)
  {
    prepared := [];
    var k := 0;
    while k < |pieces|
      invariant 0 <= k <= |pieces|
      invariant |prepared| == k
      invariant forall j :: 0 <= j < k ==> prepared[j] == PreparedMethod(pieces[j])
    {
      prepared := prepared + [PreparedMethod(pieces[k])];
      k := k + 1;
    }
  }

  method NewHTTPTransport(anns: seq<Annotation>) returns (transport: HttpTransport)
    ensures transport.methodRoutes == RoutesFor(anns)
  {
    transport := HttpTransport([]);
    var k := 0;
    while k < |anns|
      invariant 0 <= k <= |anns|
      invariant transport.methodRoutes == RoutesFor(anns[..k])
    {
      assert anns[..k + 1][..k] == anns[..k];
      var a := anns[k];
      if a.name != "http" {
        k := k + 1;
        continue;
      }
      var methodsPrepared := PrepareMethodsOf(Get(a, "methods"));
      var route := Get(a, "route");
      if !HasPrefix(route, "/") {
        route := "/" + route;
      }
      transport := transport.(methodRoutes := transport.methodRoutes +
        [MethodRoute(Get(a, "name"), methodsPrepared, Join(methodsPrepared, ", "), route)]);
      k := k + 1;
    }
    assert anns[..k] == anns;
  }

  // ---------------------------------------------------------------- lemmas

  /** The routes are those of the `http` annotations, one each, in order;
      the others are skipped. */
  lemma {:induction false} RoutesForHttpOnly(anns: seq<Annotation>)
    ensures |RoutesFor(anns)| == |HttpAnnotations(anns)|
    ensures forall k :: 0 <= k < |RoutesFor(anns)| ==> RoutesFor(anns)[k] == MethodRouteFor(HttpAnnotations(anns)[k])
  {
    if |anns| > 0 {
      var init, last := anns[..|anns| - 1], anns[|anns| - 1];
      RoutesForHttpOnly(init);
      var rs, hs := RoutesFor(anns), HttpAnnotations(anns);
      if last.name == "http" {
        assert rs == RoutesFor(init) + [MethodRouteFor(last)];
        assert hs == HttpAnnotations(init) + [last];
        forall k | 0 <= k < |rs| ensures rs[k] == MethodRouteFor(hs[k]) {
          if k < |RoutesFor(init)| {
            assert rs[k] == RoutesFor(init)[k];
            assert hs[k] == HttpAnnotations(init)[k];
          }
        }
      } else {
        assert rs == RoutesFor(init);
        assert hs == HttpAnnotations(init);
      }
    }
  }

  /** Every route starts with "/", and a route that had one is kept. */
  lemma RouteLeadingSlash(route: string)
    ensures HasPrefix(Route(route), "/")
    ensures HasPrefix(route, "/") ==> Route(route) == route
    ensures Route(Route(route)) == Route(route)
  {
    assert ("/" + route)[..1] == "/";
  }

  lemma UpperKeepsSpaceAndComma(c: char)
    ensures IsSpace(Upper(c)) <==> IsSpace(c)
    ensures Upper(c) == ',' <==> c == ','
  {
  }

  /** A verb is trimmed, has no lower-case ASCII letter, and has no comma
      when its piece had none. */
  lemma {:induction false} PreparedMethodShape(piece: string)
    ensures var m := PreparedMethod(piece);
      (|m| == 0 || (!IsSpace(m[0]) && !IsSpace(m[|m| - 1]))) &&
      (forall k :: 0 <= k < |m| ==> !IsLowerAscii(m[k])) &&
      (',' !in piece ==> ',' !in m)
  {
    var t := TrimSpace(piece);
    var m := ToUpper(t);
    if |m| > 0 {
      UpperKeepsSpaceAndComma(t[0]);
      UpperKeepsSpaceAndComma(t[|t| - 1]);
    }
  }

  /** A verb as a route lists it: no comma and no lower-case ASCII
      letter. */
  predicate IsVerb(m: string)
  {
    ',' !in m && forall j :: 0 <= j < |m| ==> !IsLowerAscii(m[j])
  }

  /** Every verb of comma-free pieces is comma-free and has no lower-case
      ASCII letter. */
  lemma PreparedAllShape(pieces: seq<string>)
    requires forall k :: 0 <= k < |pieces| ==> ',' !in pieces[k]
    ensures forall k :: 0 <= k < |PrepareMethods(pieces)| ==> IsVerb(PrepareMethods(pieces)[k])
  {
    forall k | 0 <= k < |pieces| ensures IsVerb(PreparedMethod(pieces[k])) {
      PreparedMethodShape(pieces[k]);
    }
  }

  /** The route built from the three arguments of an annotation. */
  lemma RouteParts(methods: string, route: string)
    ensures var ms := PrepareMethods(Split(methods, ','));
      |ms| == |Split(methods, ',')| && |ms| >= 1 &&
      (forall k :: 0 <= k < |ms| ==> IsVerb(ms[k])) &&
      HasPrefix(Route(route), "/")
  {
    SplitPiecesHaveNoSeparator(methods, ',');
    PreparedAllShape(Split(methods, ','));
    RouteLeadingSlash(route);
  }

  /** The verbs of a route: one per comma-separated piece, each trimmed,
      upper-cased and comma-free; `methodsAll` is their join with ", ". */
  lemma MethodRouteShape(a: Annotation)
    ensures var mr := MethodRouteFor(a);
      |mr.methods| == |Split(Get(a, "methods"), ',')| && |mr.methods| >= 1 &&
      (forall k :: 0 <= k < |mr.methods| ==> IsVerb(mr.methods[k])) &&
      mr.methodsAll == Join(mr.methods, ", ") &&
      HasPrefix(mr.route, "/") && mr.name == Get(a, "name")
  {
    RouteParts(Get(a, "methods"), Get(a, "route"));
  }
}
