/** Generated declarations by identity. The generators render code with a
    code generation library; what decides WHETHER a declaration is emitted
    is only its identity (a function name, a method name and receiver
    type, a struct name) and whether the existing file already has it.
    A selection that emits exactly the absent candidates is a
    non-destructive merge, and running it again on the merged file emits
    nothing. */
module Fragments {
  import opened Src

  datatype Fragment =
    | FuncFrag(name: string)
    | MethodFrag(name: string, recvType: string)
    | StructFrag(name: string)

  /** Some function or method has the name, whatever its receiver. */
  predicate HasFunc(ms: seq<Method>, n: string)
  {
    exists k :: 0 <= k < |ms| && ms[k].name == n
  }

  predicate HasMethodOn(ms: seq<Method>, n: string, recvType: string)
  {
    exists k :: 0 <= k < |ms| && ms[k].name == n && ms[k].recv.typ == recvType
  }

  predicate HasStruct(ss: seq<Struct>, n: string)
  {
    exists k :: 0 <= k < |ss| && ss[k].name == n
  }

  /** The existing file already has the declaration. */
  predicate Present(f: File, fr: Fragment)
  {
    match fr
    case FuncFrag(n) => HasFunc(f.methods, n)
    case MethodFrag(n, t) => HasMethodOn(f.methods, n, t)
    case StructFrag(n) => HasStruct(f.structures, n)
  }

  /** The candidates the file does not have yet, in order. */
  function Absent(f: File, cands: seq<Fragment>): (r: seq<Fragment>)
    ensures |r| <= |cands|
  {
    if |cands| == 0 then []
    else
      var last := cands[|cands| - 1];
      Absent(f, cands[..|cands| - 1]) + (if Present(f, last) then [] else [last])
  }

  /** How the declarations read back once the file is parsed again. */
  function FragmentMethods(frs: seq<Fragment>): seq<Method>
  {
    if |frs| == 0 then []
    else
      var last := frs[|frs| - 1];
      FragmentMethods(frs[..|frs| - 1]) +
        match last
        case FuncFrag(n) => [NewMethod(n, NoReceiver, "", [], [])]
        case MethodFrag(n, t) => [NewMethod(n, NamedTypeValue("", t, ""), "", [], [])]
        case StructFrag(_) => []
  }

  function FragmentStructs(frs: seq<Fragment>): seq<Struct>
  {
    if |frs| == 0 then []
    else
      var last := frs[|frs| - 1];
      FragmentStructs(frs[..|frs| - 1]) + if last.StructFrag? then [NewStruct(last.name, [])] else []
  }

  /** The file with the emitted declarations added after its own. */
  function Merge(f: File, frs: seq<Fragment>): File
  {
    f.(methods := f.methods + FragmentMethods(frs), structures := f.structures + FragmentStructs(frs))
  }

  // ---------------------------------------------------------------- lemmas

  lemma {:induction false} AbsentMember(f: File, cands: seq<Fragment>, x: Fragment)
    ensures x in Absent(f, cands) <==> x in cands && !Present(f, x)
  {
    if |cands| > 0 {
      AbsentMember(f, cands[..|cands| - 1], x);
      assert cands == cands[..|cands| - 1] + [cands[|cands| - 1]];
    }
  }

  /** No candidate is emitted more often than it is proposed. */
  lemma {:induction false} AbsentCount(f: File, cands: seq<Fragment>, x: Fragment)
    ensures multiset(Absent(f, cands))[x] <= multiset(cands)[x]
  {
    if |cands| > 0 {
      AbsentCount(f, cands[..|cands| - 1], x);
      assert cands == cands[..|cands| - 1] + [cands[|cands| - 1]];
    }
  }

  lemma HasFuncAppend(a: seq<Method>, b: seq<Method>, n: string)
    ensures HasFunc(a + b, n) <==> HasFunc(a, n) || HasFunc(b, n)
  {
    if HasFunc(a + b, n) {
      var k :| 0 <= k < |a + b| && (a + b)[k].name == n;
      if k >= |a| { assert b[k - |a|].name == n; }
    }
    if HasFunc(a, n) {
      var k :| 0 <= k < |a| && a[k].name == n;
      assert (a + b)[k] == a[k];
    }
    if HasFunc(b, n) {
      var k :| 0 <= k < |b| && b[k].name == n;
      assert (a + b)[|a| + k] == b[k];
    }
  }

  lemma HasMethodOnAppend(a: seq<Method>, b: seq<Method>, n: string, t: string)
    ensures HasMethodOn(a + b, n, t) <==> HasMethodOn(a, n, t) || HasMethodOn(b, n, t)
  {
    if HasMethodOn(a + b, n, t) {
      var k :| 0 <= k < |a + b| && (a + b)[k].name == n && (a + b)[k].recv.typ == t;
      if k >= |a| { assert b[k - |a|] == (a + b)[k]; }
    }
    if HasMethodOn(a, n, t) {
      var k :| 0 <= k < |a| && a[k].name == n && a[k].recv.typ == t;
      assert (a + b)[k] == a[k];
    }
    if HasMethodOn(b, n, t) {
      var k :| 0 <= k < |b| && b[k].name == n && b[k].recv.typ == t;
      assert (a + b)[|a| + k] == b[k];
    }
  }

  lemma HasStructAppend(a: seq<Struct>, b: seq<Struct>, n: string)
    ensures HasStruct(a + b, n) <==> HasStruct(a, n) || HasStruct(b, n)
  {
    if HasStruct(a + b, n) {
      var k :| 0 <= k < |a + b| && (a + b)[k].name == n;
      if k >= |a| { assert b[k - |a|].name == n; }
    }
    if HasStruct(a, n) {
      var k :| 0 <= k < |a| && a[k].name == n;
      assert (a + b)[k] == a[k];
    }
    if HasStruct(b, n) {
      var k :| 0 <= k < |b| && b[k].name == n;
      assert (a + b)[|a| + k] == b[k];
    }
  }

  /** Each emitted declaration reads back as present. */
  lemma {:induction false} EmittedReadsBack(frs: seq<Fragment>, x: Fragment, f: File)
    requires x in frs
    ensures Present(f.(methods := FragmentMethods(frs), structures := FragmentStructs(frs)), x)
  {
    var init, last := frs[..|frs| - 1], frs[|frs| - 1];
    var g := f.(methods := FragmentMethods(frs), structures := FragmentStructs(frs));
    if x == last {
      match last
      case FuncFrag(n) =>
        assert g.methods[|FragmentMethods(init)|].name == n;
      case MethodFrag(n, t) =>
        assert g.methods[|FragmentMethods(init)|].name == n;
      case StructFrag(n) =>
        assert g.structures[|FragmentStructs(init)|].name == n;
    } else {
      assert frs == init + [last];
      assert x in init;
      EmittedReadsBack(init, x, f);
      var extraM := FragmentMethods(frs)[|FragmentMethods(init)|..];
      var extraS := FragmentStructs(frs)[|FragmentStructs(init)|..];
      assert FragmentMethods(frs) == FragmentMethods(init) + extraM;
      assert FragmentStructs(frs) == FragmentStructs(init) + extraS;
      match x
      case FuncFrag(n) => HasFuncAppend(FragmentMethods(init), extraM, n);
      case MethodFrag(n, t) => HasMethodOnAppend(FragmentMethods(init), extraM, n, t);
      case StructFrag(n) => HasStructAppend(FragmentStructs(init), extraS, n);
    }
  }

  /** Merging keeps what the file had and adds what was emitted. */
  lemma MergePresent(f: File, frs: seq<Fragment>, x: Fragment)
    ensures Present(Merge(f, frs), x) <==>
      Present(f, x) || Present(f.(methods := FragmentMethods(frs), structures := FragmentStructs(frs)), x)
    ensures x in frs ==> Present(Merge(f, frs), x)
  {
    match x {
      case FuncFrag(n) => HasFuncAppend(f.methods, FragmentMethods(frs), n);
      case MethodFrag(n, t) => HasMethodOnAppend(f.methods, FragmentMethods(frs), n, t);
      case StructFrag(n) => HasStructAppend(f.structures, FragmentStructs(frs), n);
    }
    if x in frs { EmittedReadsBack(frs, x, f); }
  }

  /** Every candidate is present once the absent ones are merged in. */
  lemma AllPresentAfterMerge(f: File, cands: seq<Fragment>)
    ensures forall x :: x in cands ==> Present(Merge(f, Absent(f, cands)), x)
  {
    forall x | x in cands ensures Present(Merge(f, Absent(f, cands)), x) {
      AbsentMember(f, cands, x);
      MergePresent(f, Absent(f, cands), x);
    }
  }

  lemma {:induction false} NothingAbsent(f: File, cands: seq<Fragment>)
    requires forall x :: x in cands ==> Present(f, x)
    ensures Absent(f, cands) == []
  {
    if |cands| > 0 {
      assert cands[|cands| - 1] in cands;
      forall x | x in cands[..|cands| - 1] ensures Present(f, x) {
        assert x in cands;
      }
      NothingAbsent(f, cands[..|cands| - 1]);
    }
  }

  /** The merge is idempotent: running the selection on the merged file
      emits nothing. */
  lemma AbsentIdempotent(f: File, cands: seq<Fragment>)
    ensures Absent(Merge(f, Absent(f, cands)), cands) == []
  {
    AllPresentAfterMerge(f, cands);
    NothingAbsent(Merge(f, Absent(f, cands)), cands);
  }

  /** Selecting from two candidate lists is selecting from each in turn. */
  lemma {:induction false} AbsentAppend(f: File, a: seq<Fragment>, b: seq<Fragment>)
    ensures Absent(f, a + b) == Absent(f, a) + Absent(f, b)
    decreases |b|
  {
    if |b| == 0 {
      assert a + b == a;
    } else {
      AbsentAppend(f, a, b[..|b| - 1]);
      assert (a + b)[..|a + b| - 1] == a + b[..|b| - 1];
    }
  }
}
