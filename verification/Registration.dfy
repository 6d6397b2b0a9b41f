/**
 Registering tests and declaring what a module depends on: a declaration reaches the
 module's tests registered before it, and a registration copies the declaration before it.
 */
module Registration {

  type Module = string
  type Id = nat

  datatype Tables = Tables(tests: map<Module, seq<Id>>, deps: map<Id, set<Module>>, declared: map<Module, set<Module>>)

  datatype Call = Declare(m: Module, d: set<Module>) | Register(id: Id, m: Module)

  function TestsOf(t: Tables, m: Module): seq<Id> { if m in t.tests then t.tests[m] else [] }

  function DeclaredFor(t: Tables, m: Module): set<Module> { if m in t.declared then t.declared[m] else {} }

  ghost function Step(t: Tables, c: Call): Tables {
    match c
    case Declare(m, d) =>
      Tables(t.tests[m := TestsOf(t, m)],
             map i | i in t.deps :: if i in TestsOf(t, m) then t.deps[i] + d else t.deps[i],
             t.declared[m := d])
    case Register(i, m) =>
      t.(tests := t.tests[m := TestsOf(t, m) + [i]], deps := t.deps[i := DeclaredFor(t, m)])
  }

  class Registry {
    var tests: map<Module, seq<Id>>
    var deps: map<Id, set<Module>>
    var declared: map<Module, set<Module>>

    ghost function View(): Tables
      reads this
    {
      Tables(tests, deps, declared)
    }

    constructor ()
      ensures View() == Tables(map[], map[], map[])
    {
      tests, deps, declared := map[], map[], map[];
    }

    method Register(id: Id, m: Module)
      modifies this
      ensures View() == Step(old(View()), Call.Register(id, m))
    {
      tests := tests[m := (if m in tests then tests[m] else []) + [id]];
      deps := deps[id := {}];
      if m in declared { deps := deps[id := declared[m]]; }
    }

    method SetGlobalModuleDependencies(m: Module, d: set<Module>)
      requires forall i :: i in TestsOf(View(), m) ==> i in deps
      modifies this
      ensures View() == Step(old(View()), Declare(m, d))
    {
      declared := declared[m := d];
      if m !in tests { tests := tests[m := []]; }
      for n := 0 to |tests[m]|
        invariant unchanged(`tests) || (m !in old(tests) && tests == old(tests)[m := []])
        invariant m in tests && tests[m] == TestsOf(old(View()), m) && declared == old(declared)[m := d]
        invariant deps.Keys == old(deps).Keys
        invariant forall i :: i in deps ==> deps[i] == if i in tests[m][..n] then old(deps)[i] + d else old(deps)[i]
      {
        var t := tests[m][n];
        deps := deps[t := deps[t] + d];
        assert tests[m][..n + 1] == tests[m][..n] + [t];
      }
      assert tests[m][..|tests[m]|] == tests[m];
    }
  }

  // ------------------------------------------------------------------- runs

  ghost function Run(cs: seq<Call>): Tables {
    if cs == [] then Tables(map[], map[], map[]) else Step(Run(cs[..|cs| - 1]), cs[|cs| - 1])
  }

  lemma RunSnoc(cs: seq<Call>, c: Call)
    ensures Run(cs + [c]) == Step(Run(cs), c)
  {
    assert (cs + [c])[..|cs|] == cs;
  }

  /** Every test is registered once. */
  ghost predicate RegisteredOnce(cs: seq<Call>) {
    && (forall i, m, n :: Call.Register(i, m) in cs && Call.Register(i, n) in cs ==> m == n)
    && (forall i, m :: multiset(cs)[Call.Register(i, m)] <= 1)
  }

  /** What the calls declare last for a module; nothing when they do not declare it. */
  ghost function LastDeclared(cs: seq<Call>, m: Module): set<Module> {
    if cs == [] then {}
    else if cs[|cs| - 1].Declare? && cs[|cs| - 1].m == m then cs[|cs| - 1].d
    else LastDeclared(cs[..|cs| - 1], m)
  }

  /** All that any of the calls declares for a module. */
  ghost function AllDeclared(cs: seq<Call>, m: Module): set<Module> {
    set c, x | c in cs && c.Declare? && c.m == m && x in c.d :: x
  }

  /** One call's effect on the tables, key by key. */
  lemma StepTables(t: Tables, c: Call)
    ensures forall i, m :: i in TestsOf(Step(t, c), m) <==> i in TestsOf(t, m) || c == Call.Register(i, m)
    ensures forall m :: DeclaredFor(Step(t, c), m) == if c.Declare? && c.m == m then c.d else DeclaredFor(t, m)
  {
  }

  /** A run has the tests registered, each with an entry, and what was declared last. */
  lemma {:induction false} RunTables(cs: seq<Call>)
    ensures forall i, m :: i in TestsOf(Run(cs), m) <==> Call.Register(i, m) in cs
    ensures forall i, m :: Call.Register(i, m) in cs ==> i in Run(cs).deps
    ensures forall m :: DeclaredFor(Run(cs), m) == LastDeclared(cs, m)
  {
    if cs != [] {
      var rest, c := cs[..|cs| - 1], cs[|cs| - 1];
      RunTables(rest);
      StepTables(Run(rest), c);
      assert cs == rest + [c];
      assert forall x :: x in cs <==> x in rest || x == c;
      hide TestsOf, DeclaredFor;
    }
  }

  /** The tests registered for a module, in the order of registration. */
  ghost function RegisteredFor(cs: seq<Call>, m: Module): seq<Id> {
    if cs == [] then []
    else
      var c := cs[|cs| - 1];
      RegisteredFor(cs[..|cs| - 1], m) + if c.Register? && c.m == m then [c.id] else []
  }

  /** A module's list has its tests in the order of registration. */
  lemma {:induction false} ListInOrder(cs: seq<Call>, m: Module)
    ensures TestsOf(Run(cs), m) == RegisteredFor(cs, m)
  {
    if cs != [] { ListInOrder(cs[..|cs| - 1], m); }
  }

  /**
   The exact dependencies a test ends with: the last declaration of its module before its
   registration, and every later one.
   */
  lemma {:induction false} TestGets(before: seq<Call>, i: Id, m: Module, after: seq<Call>)
    requires RegisteredOnce(before + [Call.Register(i, m)] + after)
    ensures i in Run(before + [Call.Register(i, m)] + after).deps
    ensures Run(before + [Call.Register(i, m)] + after).deps[i] == LastDeclared(before, m) + AllDeclared(after, m)
  {
    hide TestsOf, DeclaredFor, LastDeclared, AllDeclared, RegisteredOnce, Run, Step;
    var r := Call.Register(i, m);
    if after == [] {
      assert before + [r] + [] == before + [r];
      RunSnoc(before, r);
      RunTables(before);
      Registers(Run(before), i, m);
      NothingDeclared(m);
    } else {
      var rest, c := after[..|after| - 1], after[|after| - 1];
      var ds := before + [r] + rest;
      assert after == rest + [c];
      assert before + [r] + after == ds + [c];
      FewerRegistered(ds, c);
      TestGets(before, i, m, rest);
      RunSnoc(ds, c);
      RunTables(ds);
      assert r in ds;
      OnlyModule(ds, i, m);
      DepsAfter(Run(ds), c, i, m);
      MoreDeclared(rest, c, m);
    }
  }

  function Declares(c: Call, m: Module): set<Module> {
    if c.Declare? && c.m == m then c.d else {}
  }

  lemma NothingDeclared(m: Module)
    ensures AllDeclared([], m) == {}
  {
  }

  lemma MoreDeclared(cs: seq<Call>, c: Call, m: Module)
    ensures AllDeclared(cs + [c], m) == AllDeclared(cs, m) + Declares(c, m)
  {
    assert forall x :: x in cs + [c] <==> x in cs || x == c;
  }

  lemma Registers(t: Tables, i: Id, m: Module)
    ensures i in Step(t, Call.Register(i, m)).deps && Step(t, Call.Register(i, m)).deps[i] == DeclaredFor(t, m)
  {
  }

  /** What a call adds to the dependencies of a test of module `m`. */
  lemma DepsAfter(t: Tables, c: Call, i: Id, m: Module)
    requires i in t.deps && (forall n :: i in TestsOf(t, n) <==> n == m)
    requires c.Register? ==> c.id != i
    ensures i in Step(t, c).deps && Step(t, c).deps[i] == t.deps[i] + Declares(c, m)
  {
    hide TestsOf;
  }

  lemma OnlyModule(cs: seq<Call>, i: Id, m: Module)
    requires RegisteredOnce(cs) && Call.Register(i, m) in cs
    ensures forall n :: Call.Register(i, n) in cs <==> n == m
  {
  }

  lemma FewerRegistered(cs: seq<Call>, c: Call)
    requires RegisteredOnce(cs + [c])
    ensures RegisteredOnce(cs)
    ensures c.Register? ==> forall m :: Call.Register(c.id, m) !in cs
  {
    assert forall x :: x in cs ==> x in cs + [c];
    assert forall x :: multiset(cs + [c])[x] == multiset(cs)[x] + multiset([c])[x];
  }

  // ------------------------------------------------------------------ order

  ghost predicate Reorders(ds: seq<Call>, cs: seq<Call>) {
    multiset(ds) == multiset(cs)
  }

  /** The calls declare one and the same set whenever they declare the module. */
  ghost predicate OneDeclaration(cs: seq<Call>, m: Module) {
    forall d, e :: Declare(m, d) in cs && Declare(m, e) in cs ==> d == e
  }

  /**
   Registering tests and declaring modules may come in any order, as far as a test is
   concerned, exactly when its module is only ever declared to depend on one set.
   */
  lemma OrderDoesNotMatterIff(cs: seq<Call>, i: Id, m: Module)
    requires RegisteredOnce(cs) && Call.Register(i, m) in cs
    ensures i in Run(cs).deps
    ensures OneDeclaration(cs, m) <==>
              forall ds :: Reorders(ds, cs) ==> i in Run(ds).deps && Run(ds).deps[i] == Run(cs).deps[i]
  {
    hide Run, RegisteredOnce;
    RunTables(cs);
    if OneDeclaration(cs, m) {
      forall ds | Reorders(ds, cs) ensures i in Run(ds).deps && Run(ds).deps[i] == Run(cs).deps[i] {
        SameCalls(ds, cs);
        ValueOfOne(ds, i, m);
        ValueOfOne(cs, i, m);
      }
    } else {
      var d, e :| Declare(m, d) in cs && Declare(m, e) in cs && d != e;
      var ds := LastCalls(cs, i, m, d);
      var es := LastCalls(cs, i, m, e);
      assert Reorders(ds, cs) && Reorders(es, cs);
    }
  }

  lemma SameCalls(ds: seq<Call>, cs: seq<Call>)
    requires Reorders(ds, cs)
    ensures forall c :: c in ds <==> c in cs
    ensures RegisteredOnce(cs) ==> RegisteredOnce(ds)
    ensures forall m :: OneDeclaration(cs, m) ==> OneDeclaration(ds, m)
    ensures forall m :: AllDeclared(cs, m) == AllDeclared(ds, m)
  {
    assert forall c :: c in ds <==> c in multiset(ds);
    assert forall c :: c in cs <==> c in multiset(cs);
  }

  /** With one set declared, a test ends with all that is declared, wherever it was registered. */
  lemma ValueOfOne(cs: seq<Call>, i: Id, m: Module)
    requires RegisteredOnce(cs) && Call.Register(i, m) in cs && OneDeclaration(cs, m)
    ensures i in Run(cs).deps && Run(cs).deps[i] == AllDeclared(cs, m)
  {
    hide Run, RegisteredOnce;
    var k :| 0 <= k < |cs| && cs[k] == Call.Register(i, m);
    var before, after := cs[..k], cs[k + 1..];
    assert cs == before + [cs[k]] + after;
    TestGets(before, i, m, after);
    assert forall c :: c in cs <==> c in before || c == cs[k] || c in after;
    LastOfOne(before, m);
    assert AllDeclared(cs, m) == AllDeclared(before, m) + AllDeclared(after, m);
  }

  lemma {:induction false} LastOfOne(cs: seq<Call>, m: Module)
    requires OneDeclaration(cs, m)
    ensures LastDeclared(cs, m) == AllDeclared(cs, m)
  {
    if cs != [] {
      var rest, c := cs[..|cs| - 1], cs[|cs| - 1];
      assert cs == rest + [c];
      assert forall x :: x in cs <==> x in rest || x == c;
      LastOfOne(rest, m);
      MoreDeclared(rest, c, m);
    }
  }

  /** The same calls with one declaration and then the registration moved to the end. */
  lemma LastCalls(cs: seq<Call>, i: Id, m: Module, d: set<Module>) returns (ds: seq<Call>)
    requires RegisteredOnce(cs) && Call.Register(i, m) in cs && Declare(m, d) in cs
    ensures Reorders(ds, cs) && i in Run(ds).deps && Run(ds).deps[i] == d
  {
    hide Run, RegisteredOnce, AllDeclared;
    var r, c := Call.Register(i, m), Declare(m, d);
    var a := Without(cs, c);
    assert r in a by { assert r in multiset(a) + multiset{c}; }
    var before := Without(a, r) + [c];
    ds := before + [r];
    assert multiset(ds) == multiset(cs);
    assert before + [r] + [] == ds;
    SameCalls(ds, cs);
    TestGets(before, i, m, []);
    NothingDeclared(m);
    DeclaredLast(Without(a, r), m, d);
  }

  ghost function Without(cs: seq<Call>, c: Call): (ds: seq<Call>)
    requires c in cs
    ensures multiset(cs) == multiset(ds) + multiset{c}
  {
    var k :| 0 <= k < |cs| && cs[k] == c;
    assert cs == cs[..k] + [c] + cs[k + 1..];
    cs[..k] + cs[k + 1..]
  }

  /**
   A test registered between two declarations of its module depends on both, one registered after
   them on the second.
   */
  lemma RedeclaringDependsOnOrder(i: Id, m: Module, a: set<Module>, b: set<Module>)
    ensures var cs := [Declare(m, a)] + [Call.Register(i, m)] + [Declare(m, b)];
            i in Run(cs).deps && Run(cs).deps[i] == a + b
    ensures var cs := [Declare(m, a), Declare(m, b)] + [Call.Register(i, m)] + [];
            i in Run(cs).deps && Run(cs).deps[i] == b
  {
    hide Run, AllDeclared, LastDeclared, RegisteredOnce;
    var c, d := Declare(m, a), Declare(m, b);
    BetweenDeclarations([], i, m, a, b);
    AfterDeclarations([c], i, m, b);
    assert [] + [c] == [c] && [c] + [d] == [c, d];
  }

  lemma BetweenDeclarations(before: seq<Call>, i: Id, m: Module, a: set<Module>, b: set<Module>)
    requires forall c :: c in before ==> c.Declare?
    ensures var cs := before + [Declare(m, a)] + [Call.Register(i, m)] + [Declare(m, b)];
            i in Run(cs).deps && Run(cs).deps[i] == a + b
  {
    hide Run, AllDeclared, LastDeclared, RegisteredOnce;
    var first, d := before + [Declare(m, a)], Declare(m, b);
    RegisteredAlone(first, Call.Register(i, m), [d]);
    DeclaredLast(before, m, a);
    NothingDeclared(m);
    MoreDeclared([], d, m);
    assert [] + [d] == [d];
    TestGets(first, i, m, [d]);
  }

  lemma AfterDeclarations(before: seq<Call>, i: Id, m: Module, b: set<Module>)
    requires forall c :: c in before ==> c.Declare?
    ensures var cs := before + [Declare(m, b)] + [Call.Register(i, m)] + []; i in Run(cs).deps && Run(cs).deps[i] == b
  {
    hide Run, AllDeclared, LastDeclared, RegisteredOnce;
    var first := before + [Declare(m, b)];
    RegisteredAlone(first, Call.Register(i, m), []);
    DeclaredLast(before, m, b);
    NothingDeclared(m);
    TestGets(first, i, m, []);
  }

  lemma DeclaredLast(cs: seq<Call>, m: Module, d: set<Module>)
    ensures LastDeclared(cs + [Declare(m, d)], m) == d
  {
  }

  lemma RegisteredAlone(before: seq<Call>, r: Call, after: seq<Call>)
    requires forall c :: c in before || c in after ==> c.Declare?
    requires r.Register?
    ensures RegisteredOnce(before + [r] + after)
  {
    var cs := before + [r] + after;
    assert forall c :: c in cs && c.Register? ==> c == r;
    assert r !in before && r !in after;
    assert multiset(cs)[r] == multiset(before)[r] + multiset([r])[r] + multiset(after)[r];
    assert forall c :: multiset(cs)[c] > 0 ==> c in cs;
  }
}
