/** The method-set filter and the interface lookup the generators share.
    generator/add_transport.go, init_service.go, generate_client.go and
    generate_middleware.go each carry a copy of `serviceFound` and
    `removeBadMethods`; the copies differ only in the allow-list, which
    only the transport generator has (the others pass the empty list). */
module MethodSet {
  import opened Wrappers
  import opened GoStrings
  import opened Src

  const ContextType := "context.Context"

  /** Every method has a name to take the first byte of. */
  predicate NamedMethods(ms: seq<Method>)
  {
    forall k :: 0 <= k < |ms| ==> |ms[k].name| >= 1
  }

  /** An empty allow-list allows every method. */
  predicate Listed(allow: seq<string>, m: Method)
  {
    |allow| == 0 || m.name in allow
  }

  /** The first byte equals its own lower-case form. */
  predicate IsPrivate(m: Method)
    requires |m.name| >= 1
  {
    Lower(m.name[0]) == m.name[0]
  }

  predicate HasContextParam(m: Method)
  {
    exists k :: 0 <= k < |m.params| && m.params[k].typ == ContextType
  }

  /** The keep rule of `removeBadMethods`. */
  predicate Keep(allow: seq<string>, m: Method)
    requires |m.name| >= 1
  {
    Listed(allow, m) && !IsPrivate(m) && |m.results| > 0 && HasContextParam(m)
  }

  /** The methods `removeBadMethods` keeps, in their order. */
  function KeptMethods(allow: seq<string>, ms: seq<Method>): (r: seq<Method>)
    requires NamedMethods(ms)
    ensures |r| <= |ms| && NamedMethods(r)
  {
    if |ms| == 0 then []
    else
      var last := ms[|ms| - 1];
      KeptMethods(allow, ms[..|ms| - 1]) + (if Keep(allow, last) then [last] else [])
  }

  /** `removeBadMethods` over a method list. */
  method FilterMethods(allow: seq<string>, ms: seq<Method>) returns (keep: seq<Method>)
    requires NamedMethods(ms)
    ensures keep == KeptMethods(allow, ms)
  {
    keep := [];
    var i := 0;
    while i < |ms|
      invariant 0 <= i <= |ms|
      invariant keep == KeptMethods(allow, ms[..i])
    {
      assert ms[..i + 1][..i] == ms[..i];
      var v := ms[i];
      if |allow| > 0 {
        var notFound := true;
        var j := 0;
        while j < |allow|
          invariant 0 <= j <= |allow|
          invariant notFound <==> v.name !in allow[..j]
        {
          assert allow[..j + 1] == allow[..j] + [allow[j]];
          if v.name == allow[j] {
            notFound := false;
            break;
          }
          j := j + 1;
        }
        if notFound {
          assert allow[..j] == allow;
          assert !Listed(allow, v);
          i := i + 1;
          continue;
        }
      }
      if [v.name[0]] == ToLower([v.name[0]]) {
        assert ToLower([v.name[0]])[0] == Lower(v.name[0]);
        assert IsPrivate(v);
        i := i + 1;
        continue;
      }
      if |v.results| == 0 {
        i := i + 1;
        continue;
      }
      assert ToLower([v.name[0]]) == [Lower(v.name[0])];
      assert Listed(allow, v) && !IsPrivate(v);
      var n := 0;
      ghost var found := false;
      while n < |v.params|
        invariant 0 <= n <= |v.params|
        invariant forall k :: 0 <= k < n ==> v.params[k].typ != ContextType
        invariant keep == KeptMethods(allow, ms[..i]) && !found
      {
        if v.params[n].typ == ContextType {
          keep := keep + [v];
          found := true;
          break;
        }
        n := n + 1;
      }
      assert found ==> HasContextParam(v) && keep == KeptMethods(allow, ms[..i]) + [v];
      assert !found ==> !HasContextParam(v) && keep == KeptMethods(allow, ms[..i]);
      i := i + 1;
    }
    assert ms[..i] == ms;
  }

  /** A method is kept exactly when it is in the list and passes the rule. */
  lemma {:induction false} KeptMethodsMember(allow: seq<string>, ms: seq<Method>, m: Method)
    requires NamedMethods(ms)
    ensures m in KeptMethods(allow, ms) <==> m in ms && |m.name| >= 1 && Keep(allow, m)
  {
    if |ms| > 0 {
      KeptMethodsMember(allow, ms[..|ms| - 1], m);
      assert ms == ms[..|ms| - 1] + [ms[|ms| - 1]];
    }
  }

  /** The filter works method by method: order is preserved. */
  lemma {:induction false} KeptMethodsAppend(allow: seq<string>, a: seq<Method>, b: seq<Method>)
    requires NamedMethods(a) && NamedMethods(b)
    ensures NamedMethods(a + b)
    ensures KeptMethods(allow, a + b) == KeptMethods(allow, a) + KeptMethods(allow, b)
    decreases |b|
  {
    if |b| > 0 {
      var init := b[..|b| - 1];
      KeptMethodsAppend(allow, a, init);
      assert (a + b)[..|a + b| - 1] == a + init;
    } else {
      assert a + b == a;
    }
  }

  /** Filtering twice keeps what filtering once kept. */
  lemma {:induction false} KeptMethodsIdempotent(allow: seq<string>, ms: seq<Method>)
    requires NamedMethods(ms)
    ensures KeptMethods(allow, KeptMethods(allow, ms)) == KeptMethods(allow, ms)
  {
    if |ms| > 0 {
      var init, last := ms[..|ms| - 1], ms[|ms| - 1];
      KeptMethodsIdempotent(allow, init);
      var k := KeptMethods(allow, init);
      if Keep(allow, last) {
        KeptMethodsAppend(allow, k, [last]);
        assert [last][..0] == [];
      } else {
        assert KeptMethods(allow, ms) == k;
      }
    }
  }

  /** A method without parameters has no context and is always dropped. */
  lemma NoParametersNotKept(allow: seq<string>, m: Method)
    requires |m.name| >= 1 && |m.params| == 0
    ensures !Keep(allow, m)
  {
  }

  /** A non-empty allow-list filters on top of the allow-all rule: the
      result is the allow-all result restricted to listed names. */
  lemma {:induction false} AllowListRestricts(allow: seq<string>, ms: seq<Method>)
    requires NamedMethods(ms)
    ensures forall m :: m in KeptMethods(allow, ms) <==> m in KeptMethods([], ms) && Listed(allow, m)
  {
    forall m ensures m in KeptMethods(allow, ms) <==> m in KeptMethods([], ms) && Listed(allow, m) {
      KeptMethodsMember(allow, ms, m);
      KeptMethodsMember([], ms, m);
    }
  }

  /** generator/add_transport_test.go: of Foo(ctx, a), Bar(a), foobar(a)
      and BarFoo(ctx, a) without results, only Foo is kept; the test's
      `a int` stands for any parameter that is not a context. */
  lemma RemoveBadMethodsExample(a: NamedTypeValue)
    requires a.typ != ContextType
    ensures var ctx := NewNameType("ctx", ContextType);
      var rs := [NewNameType("r", "string"), NewNameType("err", "error")];
      var foo := NewMethod("Foo", NoReceiver, "", [ctx, a], rs);
      var ms := [foo, NewMethod("Bar", NoReceiver, "", [a], rs),
                 NewMethod("foobar", NoReceiver, "", [a], rs), NewMethod("BarFoo", NoReceiver, "", [ctx, a], [])];
      NamedMethods(ms) && KeptMethods([], ms) == [foo]
  {
    var ctx := NewNameType("ctx", ContextType);
    var rs := [NewNameType("r", "string"), NewNameType("err", "error")];
    var foo := NewMethod("Foo", NoReceiver, "", [ctx, a], rs);
    var bar := NewMethod("Bar", NoReceiver, "", [a], rs);
    var foobar := NewMethod("foobar", NoReceiver, "", [a], rs);
    var barfoo := NewMethod("BarFoo", NoReceiver, "", [ctx, a], []);
    assert Keep([], foo) by { assert foo.params[0].typ == ContextType; assert foo.name[0] == 'F'; }
    assert !Keep([], bar) by { assert !HasContextParam(bar) by { assert bar.params == [a]; } }
    assert !Keep([], foobar) by { assert foobar.name[0] == 'f'; }
    assert !Keep([], barfoo);
    KeptFour([], foo, bar, foobar, barfoo);
  }

  /** Four methods, each kept or dropped on its own, in order. */
  lemma KeptFour(allow: seq<string>, m1: Method, m2: Method, m3: Method, m4: Method)
    requires |m1.name| >= 1 && |m2.name| >= 1 && |m3.name| >= 1 && |m4.name| >= 1
    ensures NamedMethods([m1, m2, m3, m4])
    ensures KeptMethods(allow, [m1, m2, m3, m4]) ==
      (if Keep(allow, m1) then [m1] else []) + (if Keep(allow, m2) then [m2] else []) +
      (if Keep(allow, m3) then [m3] else []) + (if Keep(allow, m4) then [m4] else [])
  {
    KeptSnoc(allow, [], m1);
    assert [] + [m1] == [m1];
    KeptSnoc(allow, [m1], m2);
    assert [m1] + [m2] == [m1, m2];
    KeptSnoc(allow, [m1, m2], m3);
    assert [m1, m2] + [m3] == [m1, m2, m3];
    KeptSnoc(allow, [m1, m2, m3], m4);
    assert [m1, m2, m3] + [m4] == [m1, m2, m3, m4];
  }

  /** One more method: it is kept or dropped on its own. */
  lemma KeptSnoc(allow: seq<string>, ms: seq<Method>, m: Method)
    requires NamedMethods(ms) && |m.name| >= 1
    ensures NamedMethods(ms + [m])
    ensures KeptMethods(allow, ms + [m]) == KeptMethods(allow, ms) + (if Keep(allow, m) then [m] else [])
  {
    var all := ms + [m];
    assert all[..|all| - 1] == ms;
  }

  // ---------------------------------------------------------------- interface lookup

  /** `serviceFound`'s search: the first interface with the given name. */
  function FindInterface(ifs: seq<Interface>, name: string): (r: Option<Interface>)
    ensures r.Some? ==> r.value in ifs && r.value.name == name
    ensures r.None? <==> forall k :: 0 <= k < |ifs| ==> ifs[k].name != name
  {
    if |ifs| == 0 then None
    else if ifs[0].name == name then Some(ifs[0])
    else
      var r := FindInterface(ifs[1..], name);
      assert forall k :: 1 <= k < |ifs| ==> ifs[k] == ifs[1..][k - 1];
      r
  }

  /** The interface found is the first one with the name. */
  lemma {:induction false} FindInterfaceFirst(ifs: seq<Interface>, name: string, j: nat)
    requires j < |ifs| && ifs[j].name == name
    requires forall k :: 0 <= k < j ==> ifs[k].name != name
    ensures FindInterface(ifs, name) == Some(ifs[j])
    decreases j
  {
    if j > 0 {
      assert ifs[0].name != name;
      assert forall k :: 0 <= k < j - 1 ==> ifs[1..][k] == ifs[k + 1];
      FindInterfaceFirst(ifs[1..], name, j - 1);
    }
  }

  /** The loop of `serviceFound`. */
  method SearchInterface(ifs: seq<Interface>, name: string) returns (r: Option<Interface>)
    ensures r == FindInterface(ifs, name)
  {
    var n := 0;
    while n < |ifs|
      invariant 0 <= n <= |ifs|
      invariant forall k :: 0 <= k < n ==> ifs[k].name != name
    {
      if ifs[n].name == name {
        FindInterfaceFirst(ifs, name, n);
        return Some(ifs[n]);
      } else if n == |ifs| - 1 {
        return None;
      }
      n := n + 1;
    }
    return None;
  }
}
