/**
 A worked example: the source

   class Foo:
       def bar(self, x, y=1): pass
   z = 1

 builds a class entry holding the rendered signature of `bar` and a variable
 entry for `z`, and completing `Foo.b` offers exactly `bar`.
 */
module WorkedExample {
  import opened Wrappers
  import opened Syntax
  import opened Tables
  import opened Visitor
  import opened Query
  import Signature

  const BarParams: seq<Param> := [Param("self", 0, false), Param("x", 0, false), Param("y", 0, true)]

  const FooBody: seq<Node> := [Other, Other, Other, PythonNode([Function("bar", BarParams)])]

  const Source: Node := Module([Class("Foo", FooBody), PythonNode([ExprStmt(["z"]), Other])])

  const FooTable: Table := map["bar" := Entry("(self,x,[y])", Null)]

  const Built: Table := map["Foo" := Entry("Class", Dict(FooTable)), "z" := Entry("Variable", Null)]

  lemma BarSignature()
    ensures Signature.Render(BarParams) == "(self,x,[y])"
  {
  }

  /** The class body fills the table of `Foo` with the function entry alone. */
  lemma FooBodyBuilds(env: Env, st: VisitorState)
    ensures VisitAll(env, FooBody, st) == Ok(st.(current := st.current["bar" := Entry("(self,x,[y])", Null)]))
  {
    BarSignature();
    var after := st.(current := st.current["bar" := Entry("(self,x,[y])", Null)]);
    var f := Function("bar", BarParams);
    var fn := PythonNode([f]);
    assert Visit(env, f, st) == Ok(after);
    assert [f][1..] == [];
    assert VisitAll(env, [f], st) == VisitAll(env, [], after);
    assert Visit(env, fn, st) == Ok(after);
    assert [fn][1..] == [];
    assert VisitAll(env, [fn], st) == VisitAll(env, [], after);
    assert FooBody[3..] == [fn] && FooBody[3..][1..] == [];
    assert FooBody[2..][1..] == FooBody[3..];
    assert FooBody[1..][1..] == FooBody[2..];
    assert VisitAll(env, FooBody[3..], st) == Ok(after);
    assert VisitAll(env, FooBody[2..], st) == Ok(after);
    assert VisitAll(env, FooBody[1..], st) == Ok(after);
  }

  lemma ExampleBuilds(env: Env)
    ensures AstParser(env, Source, true) == Ok(Built)
  {
    var st0 := Initial(1);
    var inner := Push(st0.(current := map["Foo" := Entry("Class", EmptyDict)]), map[]);
    FooBodyBuilds(env, inner);
    var st1 := st0.(current := map["Foo" := Entry("Class", Dict(FooTable))]);
    assert VisitClass(env, "Foo", FooBody, st0) == Ok(st1);
    assert Visit(env, Class("Foo", FooBody), st0) == Ok(st1);
    var st2 := st1.(current := Built);
    assert Visit(env, ExprStmt(["z"]), st1) == Ok(st2);
    var stmt := [ExprStmt(["z"]), Other];
    assert stmt[1..] == [Other] && stmt[1..][1..] == [];
    assert VisitAll(env, stmt, st1) == VisitAll(env, [Other], st2);
    assert VisitAll(env, [Other], st2) == VisitAll(env, [], st2);
    var simple := PythonNode(stmt);
    assert Visit(env, simple, st1) == Ok(st2);
    var top := [Class("Foo", FooBody), simple];
    assert top[1..] == [simple] && top[1..][1..] == [];
    assert VisitAll(env, [simple], st1) == VisitAll(env, [], st2);
    assert VisitAll(env, top, st0) == VisitAll(env, [simple], st1);
  }

  /**
   Any list `sublime_completions` may return for `Foo` and prefix "b" (sorted,
   holding exactly the matching items) is the single item for `bar`.
   */
  lemma ExampleQuery(r: seq<Completion>)
    requires Sorted(r)
    requires forall c :: c in r <==> c.key in MatchingKeys(FooTable, "b") && c == ItemFor(FooTable, c.key)
    ensures Descend(Dict(Built), ["Foo"]) == Ok(Dict(FooTable))
    ensures r == [Completion("bar\t(self,x,[y])", "bar")]
  {
    assert MatchingKeys(FooTable, "b") == {"bar"} by {
      assert "b" <= "bar";
    }
    var expected := [Completion("bar\t(self,x,[y])", "bar")];
    assert ItemFor(FooTable, "bar") == expected[0];
    SortedUnique(r, expected);
  }
}
