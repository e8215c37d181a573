/**
 Properties of the visitor that relate several calls: every visit is a
 right-biased override of the current table (so the last binding of a name
 in a scope wins), dotted imports write a chain and replace rather than
 merge, and a visit without budget never consults the environment.
 */
module VisitorProps {
  import opened Wrappers
  import opened Syntax
  import opened Tables
  import opened Visitor
  import Signature
  import SearchPath

  /** A state with the same budget and nothing else: empty table, stack and log. */
  function Fresh(st: VisitorState): VisitorState
  {
    Initial(st.recursion)
  }

  /**
   `r` is what the visit does from `st`, and `f` what the same visit does from
   `Fresh(st)`: both fail alike, or `r` is `st` with `f`'s table laid over the
   current table and `f`'s requests appended.
   */
  predicate Overrides(r: Result<VisitorState>, st: VisitorState, f: Result<VisitorState>)
  {
    && r.Ok? == f.Ok?
    && (r.Err? ==> r == f)
    && (r.Ok? ==> r.value == VisitorState(st.current + f.value.current, st.stack, st.recursion, st.requests + f.value.requests))
  }

  /**
   Two overriding steps compose: if the first step from `st` lays `f0` over
   it, and the rest from either start lays `g` over that start, the whole
   from `st` lays the whole from `f0` over `st`.
   */
  lemma OverridesCompose(st: VisitorState, r0: VisitorState, f0: VisitorState,
                         r: Result<VisitorState>, f: Result<VisitorState>, g: Result<VisitorState>)
    requires r0 == VisitorState(st.current + f0.current, st.stack, st.recursion, st.requests + f0.requests)
    requires Overrides(r, r0, g) && Overrides(f, f0, g)
    ensures Overrides(r, st, f)
  {
  }

  /** `import_parser` reads nothing of the visitor but its budget. */
  lemma ImportParserReadsOnlyBudget(env: Env, path: seq<string>, st: VisitorState)
    ensures ImportParser(env, path, st).Ok? == ImportParser(env, path, Fresh(st)).Ok?
    ensures ImportParser(env, path, st).Err? ==> ImportParser(env, path, st) == ImportParser(env, path, Fresh(st))
    ensures ImportParser(env, path, st).Ok? ==> ImportParser(env, path, st).value.0 == ImportParser(env, path, Fresh(st)).value.0
  {
  }

  /** Repeating the loop body of the dotted branch leaves what one pass leaves. */
  lemma {:induction false} DottedWritesOnce(t: Table, name: string, path: seq<string>, value: Entry, n: nat)
    requires 1 <= n <= |path|
    ensures DottedWrites(t, name, path, value, n) == DottedStep(t, name, path, value)
    decreases n
  {
    if n > 1 {
      DottedWritesOnce(DottedStep(t, name, path, value), name, path, value, n - 1);
      assert DottedStep(DottedStep(t, name, path, value), name, path, value) == DottedStep(t, name, path, value);
    }
  }

  lemma DottedWritesOverride(t: Table, name: string, path: seq<string>, value: Entry)
    ensures DottedWrites(t, name, path, value, |path|) == t + DottedWrites(map[], name, path, value, |path|)
  {
    if |path| >= 1 {
      DottedWritesOnce(t, name, path, value, |path|);
      DottedWritesOnce(map[], name, path, value, |path|);
    }
  }

  lemma VisitImportClauseOverrides(env: Env, c: ImportClause, st: VisitorState)
    ensures Overrides(VisitImportClause(env, c, st), st, VisitImportClause(env, c, Fresh(st)))
  {
    ImportParserReadsOnlyBudget(env, c.path, st);
    var p := ImportParser(env, c.path, st);
    if p.Ok? {
      var f := Fresh(st);
      var value := Entry("Import", p.value.0);
      var st1 := st.(requests := st.requests + [c.path]);
      var f1 := f.(requests := f.requests + [c.path]);
      assert p.value.1 == st1;
      assert ImportParser(env, c.path, f).value == (p.value.0, f1);
      if c.namePath != c.path {
        DottedWritesOverride(st.current, c.name, c.path, value);
        assert VisitImportClause(env, c, st) == Ok(st1.(current := DottedWrites(st.current, c.name, c.path, value, |c.path|)));
        assert VisitImportClause(env, c, f) == Ok(f1.(current := DottedWrites(map[], c.name, c.path, value, |c.path|)));
      } else {
        assert st.current[c.name := value] == st.current + map[c.name := value];
        assert VisitImportClause(env, c, st) == Ok(st1.(current := st.current[c.name := value]));
        assert VisitImportClause(env, c, f) == Ok(f1.(current := map[c.name := value]));
      }
    }
  }

  lemma VisitFromNameOverrides(env: Env, f: FromName, st: VisitorState)
    ensures Overrides(VisitFromName(env, f, st), st, VisitFromName(env, f, Fresh(st)))
  {
    ImportParserReadsOnlyBudget(env, f.path, st);
    var p := ImportParser(env, f.path, st);
    if p.Ok? {
      var fr := Fresh(st);
      var value := Entry("Import" + JoinDots(f.path), p.value.0);
      var st1 := st.(requests := st.requests + [f.path]);
      var f1 := fr.(requests := fr.requests + [f.path]);
      assert ImportParser(env, f.path, fr).value == (p.value.0, f1);
      assert st.current[f.name := value] == st.current + map[f.name := value];
      assert VisitFromName(env, f, st) == Ok(st1.(current := st.current[f.name := value]));
      assert VisitFromName(env, f, fr) == Ok(f1.(current := map[f.name := value]));
    }
  }

  lemma {:induction false} VisitImportNamesOverrides(env: Env, clauses: seq<ImportClause>, st: VisitorState)
    ensures Overrides(VisitImportNames(env, clauses, st), st, VisitImportNames(env, clauses, Fresh(st)))
    decreases |clauses|
  {
    if |clauses| > 0 {
      VisitImportClauseOverrides(env, clauses[0], st);
      var r0 := VisitImportClause(env, clauses[0], st);
      var f0 := VisitImportClause(env, clauses[0], Fresh(st));
      if r0.Ok? {
        var rest := clauses[1..];
        VisitImportNamesOverrides(env, rest, r0.value);
        VisitImportNamesOverrides(env, rest, f0.value);
        assert Fresh(r0.value) == Fresh(st) == Fresh(f0.value);
        OverridesCompose(st, r0.value, f0.value, VisitImportNames(env, rest, r0.value),
          VisitImportNames(env, rest, f0.value), VisitImportNames(env, rest, Fresh(st)));
      }
    }
  }

  lemma {:induction false} VisitImportFromsOverrides(env: Env, names: seq<FromName>, st: VisitorState)
    ensures Overrides(VisitImportFroms(env, names, st), st, VisitImportFroms(env, names, Fresh(st)))
    decreases |names|
  {
    if |names| > 0 {
      VisitFromNameOverrides(env, names[0], st);
      var r0 := VisitFromName(env, names[0], st);
      var f0 := VisitFromName(env, names[0], Fresh(st));
      if r0.Ok? {
        var rest := names[1..];
        VisitImportFromsOverrides(env, rest, r0.value);
        VisitImportFromsOverrides(env, rest, f0.value);
        assert Fresh(r0.value) == Fresh(st) == Fresh(f0.value);
        OverridesCompose(st, r0.value, f0.value, VisitImportFroms(env, rest, r0.value),
          VisitImportFroms(env, rest, f0.value), VisitImportFroms(env, rest, Fresh(st)));
      }
    }
  }

  lemma UpdateIsOverride(t: Table, k: string, e: Entry)
    ensures t[k := e] == t + map[k := e]
  {
  }

  lemma BindAllOverride(t: Table, names: seq<string>, e: Entry)
    ensures BindAll(t, names, e) == t + BindAll(map[], names, e)
  {
  }

  /**
   Every visit only assigns keys of the current table: its effect is the
   table the same node yields from an empty one, laid over what was there.
   */
  lemma {:induction false} VisitOverrides(env: Env, node: Node, st: VisitorState)
    ensures Overrides(Visit(env, node, st), st, Visit(env, node, Fresh(st)))
    decreases Size(node), 1
  {
    match node
    case Module(cs) => VisitAllOverrides(env, cs, st);
    case PythonNode(cs) => VisitAllOverrides(env, cs, st);
    case Class(name, cs) => VisitClassOverrides(env, name, cs, st);
    case Function(name, ps) =>
      UpdateIsOverride(st.current, name, Entry(Signature.Render(ps), Null));
    case ExprStmt(names) =>
      BindAllOverride(st.current, names, Entry("Variable", Null));
    case ImportName(clauses) => VisitImportNamesOverrides(env, clauses, st);
    case ImportFrom(names) => VisitImportFromsOverrides(env, names, st);
    case Other =>
  }

  lemma {:induction false} VisitAllOverrides(env: Env, cs: seq<Node>, st: VisitorState)
    ensures Overrides(VisitAll(env, cs, st), st, VisitAll(env, cs, Fresh(st)))
    decreases SizeAll(cs), 2
  {
    if |cs| > 0 {
      VisitOverrides(env, cs[0], st);
      var r0 := Visit(env, cs[0], st);
      var f0 := Visit(env, cs[0], Fresh(st));
      if r0.Ok? {
        var rest := cs[1..];
        VisitAllOverrides(env, rest, r0.value);
        VisitAllOverrides(env, rest, f0.value);
        assert Fresh(r0.value) == Fresh(st) == Fresh(f0.value);
        OverridesCompose(st, r0.value, f0.value, VisitAll(env, rest, r0.value),
          VisitAll(env, rest, f0.value), VisitAll(env, rest, Fresh(st)));
      }
    }
  }

  lemma {:induction false} VisitClassOverrides(env: Env, name: string, cs: seq<Node>, st: VisitorState)
    ensures Overrides(VisitClass(env, name, cs, st), st, VisitClass(env, name, cs, Fresh(st)))
    decreases SizeAll(cs), 3
  {
    var f := Fresh(st);
    var inner := Push(st.(current := st.current[name := Entry("Class", EmptyDict)]), map[]);
    var innerF := Push(f.(current := f.current[name := Entry("Class", EmptyDict)]), map[]);
    VisitAllOverrides(env, cs, inner);
    VisitAllOverrides(env, cs, innerF);
    assert Fresh(inner) == Fresh(innerF);
    var g := VisitAll(env, cs, Fresh(inner));
    if g.Ok? {
      var table := g.value.current;
      assert map[] + table == table;
      var entry := Entry("Class", Dict(table));
      assert VisitAll(env, cs, inner).value.current == table;
      assert VisitAll(env, cs, innerF).value.current == table;
      UpdateIsOverride(st.current, name, entry);
      assert VisitClass(env, name, cs, st) ==
        Ok(VisitorState(st.current[name := entry], st.stack, st.recursion, st.requests + g.value.requests));
      assert VisitClass(env, name, cs, f) ==
        Ok(VisitorState(map[name := entry], [], st.recursion, [] + g.value.requests));
    }
  }

  /**
   The table a class name is bound to is exactly what its body builds on its
   own, from an empty table with one unit less budget (the push's cost); the
   class fails exactly when that body does.
   */
  lemma ClassBodyTable(env: Env, name: string, cs: seq<Node>, st: VisitorState)
    ensures VisitClass(env, name, cs, st).Ok? <==> VisitAll(env, cs, Initial(st.recursion - 1)).Ok?
    ensures VisitClass(env, name, cs, st).Ok? ==>
              VisitClass(env, name, cs, st).value.current[name]
              == Entry("Class", Dict(VisitAll(env, cs, Initial(st.recursion - 1)).value.current))
  {
    var inner := Push(st.(current := st.current[name := Entry("Class", EmptyDict)]), map[]);
    VisitAllOverrides(env, cs, inner);
    assert Fresh(inner) == Initial(st.recursion - 1);
    var g := VisitAll(env, cs, Fresh(inner));
    if g.Ok? {
      assert map[] + g.value.current == g.value.current;
    }
  }

  /** Visiting a sequence with one more statement is visiting that statement afterwards. */
  lemma {:induction false} VisitAllSnoc(env: Env, cs: seq<Node>, n: Node, st: VisitorState)
    ensures VisitAll(env, cs + [n], st) ==
      match VisitAll(env, cs, st)
      case Ok(mid) => Visit(env, n, mid)
      case Err(e) => Err(e)
    decreases |cs|
  {
    if |cs| == 0 {
      assert (cs + [n])[1..] == [];
    } else {
      assert (cs + [n])[0] == cs[0];
      assert (cs + [n])[1..] == cs[1..] + [n];
      var r0 := Visit(env, cs[0], st);
      if r0.Ok? {
        VisitAllSnoc(env, cs[1..], n, r0.value);
      }
    }
  }

  /**
   Within one scope the last statement binding a name decides its entry:
   whatever the earlier statements bound, the entry is the one that statement
   yields on its own.
   */
  lemma LastBindingWins(env: Env, cs: seq<Node>, n: Node, st: VisitorState, x: string)
    requires VisitAll(env, cs + [n], st).Ok?
    requires Visit(env, n, Fresh(st)).Ok?
    requires x in Visit(env, n, Fresh(st)).value.current
    ensures x in VisitAll(env, cs + [n], st).value.current
    ensures VisitAll(env, cs + [n], st).value.current[x] == Visit(env, n, Fresh(st)).value.current[x]
  {
    VisitAllSnoc(env, cs, n, st);
    var mid := VisitAll(env, cs, st).value;
    VisitOverrides(env, n, mid);
    assert Fresh(mid) == Fresh(st);
  }

  /**
   `import a.b` (the name's path shorter than the full path): the path is
   resolved once, the first segment holds the chain of the remaining segments
   ending in that resolution, and the dotted spelling holds it directly.
   */
  lemma DottedImportBindings(env: Env, c: ImportClause, st: VisitorState)
    requires c.namePath != c.path && |c.path| >= 1
    requires VisitImportClause(env, c, st).Ok?
    ensures ImportParser(env, c.path, st).Ok?
    ensures var value := Entry("Import", ImportParser(env, c.path, st).value.0);
            VisitImportClause(env, c, st).value.current ==
              st.current[c.name := Entry("Import", RecursiveDict(c.path[1..], value))][JoinDots(c.path) := value]
    ensures VisitImportClause(env, c, st).value.requests == st.requests + [c.path]
  {
    var value := Entry("Import", ImportParser(env, c.path, st).value.0);
    DottedWritesOnce(st.current, c.name, c.path, value, |c.path|);
  }

  /** A statement `import a.c` binds `a` to the one-key chain for `c`, whatever was bound before. */
  lemma DottedStatementBindsChain(env: Env, a: string, c: string, st: VisitorState)
    requires Visit(env, ImportName([ImportClause(a, [a], [a, c])]), st).Ok?
    ensures var t := Visit(env, ImportName([ImportClause(a, [a], [a, c])]), st).value.current;
            a in t && t[a].sub.Dict? && t[a].sub.table.Keys == {c}
  {
    var cl := ImportClause(a, [a], [a, c]);
    var r1 := VisitImportClause(env, cl, st);
    assert VisitImportNames(env, [cl], st) == VisitImportNames(env, [], r1.value);
    DottedImportBindings(env, cl, st);
    var value := Entry("Import", ImportParser(env, cl.path, st).value.0);
    assert cl.path[1..] == [c];
    assert JoinWith(".", [c]) == c;
    assert JoinDots(cl.path) == a + "." + c;
    assert JoinDots(cl.path) != a by {
      assert |JoinDots(cl.path)| > |a|;
    }
    assert r1.value.current[a] == Entry("Import", RecursiveDict([c], value));
  }

  /**
   `import a.b` followed by `import a.c` leaves `a` bound to the chain for
   `c` alone: the second import replaces the first instead of merging.
   */
  lemma SecondDottedImportReplaces(env: Env, st: VisitorState, a: string, b: string, c: string)
    requires b != c
    requires VisitAll(env, [ImportName([ImportClause(a, [a], [a, b])]), ImportName([ImportClause(a, [a], [a, c])])], st).Ok?
    ensures var t := VisitAll(env, [ImportName([ImportClause(a, [a], [a, b])]), ImportName([ImportClause(a, [a], [a, c])])], st).value.current;
            a in t && t[a].sub.Dict? && t[a].sub.table.Keys == {c} && b !in t[a].sub.table
  {
    var n1 := ImportName([ImportClause(a, [a], [a, b])]);
    var n2 := ImportName([ImportClause(a, [a], [a, c])]);
    var r1 := Visit(env, n1, st);
    assert VisitAll(env, [n1, n2], st) == VisitAll(env, [n2], r1.value);
    assert VisitAll(env, [n2], r1.value) == VisitAll(env, [], Visit(env, n2, r1.value).value);
    DottedStatementBindsChain(env, a, c, r1.value);
  }

  /**
   At the default budget a class body is built with no budget left, so it
   never raises and its table is the same whatever the environment: every
   import inside it resolves to an empty dict.
   */
  lemma ClassBodyAtDefaultBudget(env: Env, env2: Env, name: string, cs: seq<Node>, st: VisitorState)
    requires st.recursion == 1
    ensures Visit(env, Class(name, cs), st).Ok?
    ensures Visit(env, Class(name, cs), st).value.current[name]
            == Entry("Class", Dict(VisitAll(env2, cs, Initial(0)).value.current))
  {
    ClassBodyTable(env, name, cs, st);
    VisitAllNoBudgetEnvFree(env, env2, cs, Initial(0));
  }

  /** A class body whose only statement is `import m`, at the default budget: `m` resolves to an empty dict. */
  lemma ImportInClassBodyUnresolved(env: Env, name: string, m: string, st: VisitorState)
    requires st.recursion == 1
    ensures Visit(env, Class(name, [ImportName([ImportClause(m, [m], [m])])]), st).Ok?
    ensures Visit(env, Class(name, [ImportName([ImportClause(m, [m], [m])])]), st).value.current[name]
            == Entry("Class", Dict(map[m := Entry("Import", EmptyDict)]))
  {
    var c := ImportClause(m, [m], [m]);
    var bound := st.(current := st.current[name := Entry("Class", EmptyDict)]);
    var inner := Push(bound, map[]);
    var req := inner.(requests := inner.requests + [[m]]);
    assert ImportParser(env, [m], inner) == Ok((EmptyDict, req));
    var after := req.(current := map[m := Entry("Import", EmptyDict)]);
    assert VisitImportClause(env, c, inner) == Ok(after);
    assert VisitImportNames(env, [c], inner) == VisitImportNames(env, [], after);
    assert VisitAll(env, [ImportName([c])], inner) == VisitAll(env, [], after);
  }

  /**
   Without budget a visit consults neither the manifest nor the files: any
   two environments give the same result.
   */
  lemma {:induction false} VisitNoBudgetEnvFree(env1: Env, env2: Env, node: Node, st: VisitorState)
    requires st.recursion <= 0
    ensures Visit(env1, node, st) == Visit(env2, node, st)
    decreases Size(node), 1
  {
    match node
    case Module(cs) => VisitAllNoBudgetEnvFree(env1, env2, cs, st);
    case PythonNode(cs) => VisitAllNoBudgetEnvFree(env1, env2, cs, st);
    case Class(name, cs) => VisitClassNoBudgetEnvFree(env1, env2, name, cs, st);
    case Function(_, _) =>
    case ExprStmt(_) =>
    case ImportName(clauses) => ImportNamesNoBudgetEnvFree(env1, env2, clauses, st);
    case ImportFrom(names) => ImportFromsNoBudgetEnvFree(env1, env2, names, st);
    case Other =>
  }

  lemma {:induction false} VisitAllNoBudgetEnvFree(env1: Env, env2: Env, cs: seq<Node>, st: VisitorState)
    requires st.recursion <= 0
    ensures VisitAll(env1, cs, st) == VisitAll(env2, cs, st)
    decreases SizeAll(cs), 2
  {
    if |cs| > 0 {
      VisitNoBudgetEnvFree(env1, env2, cs[0], st);
      VisitAllNoBudgetEnvFree(env1, env2, cs[1..], Visit(env1, cs[0], st).value);
    }
  }

  /**
   A class body is visited with one unit less budget, so at the default
   budget of 1 the class contributes the same entry in every environment.
   */
  lemma {:induction false} VisitClassNoBudgetEnvFree(env1: Env, env2: Env, name: string, cs: seq<Node>, st: VisitorState)
    requires st.recursion <= 1
    ensures VisitClass(env1, name, cs, st) == VisitClass(env2, name, cs, st)
    decreases SizeAll(cs), 3
  {
    var inner := Push(st.(current := st.current[name := Entry("Class", EmptyDict)]), map[]);
    VisitAllNoBudgetEnvFree(env1, env2, cs, inner);
  }

  lemma {:induction false} ImportNamesNoBudgetEnvFree(env1: Env, env2: Env, clauses: seq<ImportClause>, st: VisitorState)
    requires st.recursion <= 0
    ensures VisitImportNames(env1, clauses, st) == VisitImportNames(env2, clauses, st)
    decreases |clauses|
  {
    if |clauses| > 0 {
      assert VisitImportClause(env1, clauses[0], st) == VisitImportClause(env2, clauses[0], st);
      ImportNamesNoBudgetEnvFree(env1, env2, clauses[1..], VisitImportClause(env1, clauses[0], st).value);
    }
  }

  lemma {:induction false} ImportFromsNoBudgetEnvFree(env1: Env, env2: Env, names: seq<FromName>, st: VisitorState)
    requires st.recursion <= 0
    ensures VisitImportFroms(env1, names, st) == VisitImportFroms(env2, names, st)
    decreases |names|
  {
    if |names| > 0 {
      assert VisitFromName(env1, names[0], st) == VisitFromName(env2, names[0], st);
      ImportFromsNoBudgetEnvFree(env1, env2, names[1..], VisitFromName(env1, names[0], st).value);
    }
  }

  /**
   The nested pass of `import_lib` (`recurse=False`) builds the same table
   whatever the roots, files and manifest are: it never follows an import.
   */
  lemma NestedParseIsEnvFree(env1: Env, env2: Env, tree: Node)
    ensures AstParser(env1, tree, false).Ok?
    ensures AstParser(env1, tree, false) == AstParser(env2, tree, false)
  {
    VisitNoBudgetEnvFree(env1, env2, tree, Initial(0));
  }

  /** Without budget a plain import is bound to an empty dict and the statement still logs its path. */
  lemma NoBudgetImportIsEmpty(env: Env, c: ImportClause, st: VisitorState)
    requires st.recursion <= 0 && c.namePath == c.path
    ensures VisitImportClause(env, c, st) ==
      Ok(st.(current := st.current[c.name := Entry("Import", EmptyDict)], requests := st.requests + [c.path]))
  {
  }

  /** Without budget a from-import is bound, under its "Import"-prefixed tag, to an empty dict. */
  lemma NoBudgetFromImportIsEmpty(env: Env, f: FromName, st: VisitorState)
    requires st.recursion <= 0
    ensures VisitFromName(env, f, st) ==
      Ok(st.(current := st.current[f.name := Entry("Import" + JoinDots(f.path), EmptyDict)], requests := st.requests + [f.path]))
  {
  }

  /** A module holding only `import m`, parsed without budget, binds `m` to an empty dict. */
  lemma UnbudgetedModuleWithImport(env: Env, m: string)
    ensures AstParser(env, Module([ImportName([ImportClause(m, [m], [m])])]), false)
            == Ok(map[m := Entry("Import", EmptyDict)])
  {
    var c := ImportClause(m, [m], [m]);
    var st := Initial(0);
    var after := VisitorState(map[m := Entry("Import", EmptyDict)], [], 0, [[m]]);
    NoBudgetImportIsEmpty(env, c, st);
    assert st.current[m := Entry("Import", EmptyDict)] == after.current;
    assert st.requests + [c.path] == after.requests;
    assert VisitImportClause(env, c, st) == Ok(after);
    assert VisitImportNames(env, [c], st) == VisitImportNames(env, [], after);
    assert VisitAll(env, [ImportName([c])], st) == VisitAll(env, [], after);
  }

  /**
   Import following stops after one level: a module found for an import is
   parsed with its own imports unresolved, so an `import m` inside it is
   bound to an empty dict.
   */
  lemma OneLevelCutoff(env: Env, path: seq<string>, file: string, m: string)
    requires SearchPath.FirstCandidate(env.roots, path, env.isFile) == Some(SearchPath.Candidate(file, []))
    requires env.parseFile(file) == Module([ImportName([ImportClause(m, [m], [m])])])
    ensures ImportLib(env, path) == Ok(Dict(map[m := Entry("Import", EmptyDict)]))
  {
    UnbudgetedModuleWithImport(env, m);
  }

  /** A module holding only `import b`, built with following on, binds `b` to what `import_parser` resolves. */
  lemma BuildOfSingleImport(env: Env, b: string, resolved: Value)
    requires ImportParser(env, [b], Initial(1)) == Ok((resolved, VisitorState(map[], [], 1, [[b]])))
    ensures AstParser(env, Module([ImportName([ImportClause(b, [b], [b])])]), true)
            == Ok(map[b := Entry("Import", resolved)])
  {
    var cl := ImportClause(b, [b], [b]);
    var st := Initial(1);
    var after := VisitorState(map[b := Entry("Import", resolved)], [], 1, [[b]]);
    assert st.current[b := Entry("Import", resolved)] == after.current;
    assert VisitImportClause(env, cl, st) == Ok(after);
    assert VisitImportNames(env, [cl], st) == VisitImportNames(env, [], after);
    assert VisitAll(env, [ImportName([cl])], st) == VisitAll(env, [], after);
  }

  /**
   With budget, a path whose head is not built in resolves to what
   `import_lib` answers, value or error, and the visitor comes back as it
   was apart from the logged request.
   */
  lemma ImportParserFollowsLib(env: Env, path: seq<string>, st: VisitorState)
    requires st.recursion > 0 && |path| > 0 && path[0] !in env.builtins
    ensures ImportParser(env, path, st) ==
      match ImportLib(env, path)
      case Ok(v) => Ok((v, st.(requests := st.requests + [path])))
      case Err(e) => Err(e)
  {
    var r := ImportParser(env, path, st);
    match ImportLib(env, path)
    case Ok(v) =>
      assert r.Ok? && r.value.0 == v;
      assert r.value.1 == st.(requests := st.requests + [path]);
    case Err(e) =>
      assert r.Err? && r.error == e;
  }

  /**
   A build with import following on resolves `import b` to the table of the
   file found for `b`, but that file's own `import c` stays an empty dict:
   imports are followed exactly one level deep.
   */
  lemma BuildFollowsOneLevel(env: Env, b: string, fileB: string, c: string)
    requires b !in env.builtins
    requires SearchPath.FirstCandidate(env.roots, [b], env.isFile) == Some(SearchPath.Candidate(fileB, []))
    requires env.parseFile(fileB) == Module([ImportName([ImportClause(c, [c], [c])])])
    ensures AstParser(env, Module([ImportName([ImportClause(b, [b], [b])])]), true)
            == Ok(map[b := Entry("Import", Dict(map[c := Entry("Import", EmptyDict)]))])
  {
    var resolved := Dict(map[c := Entry("Import", EmptyDict)]);
    OneLevelCutoff(env, [b], fileB, c);
    ImportParserFollowsLib(env, [b], Initial(1));
    assert Initial(1).(requests := [] + [[b]]) == VisitorState(map[], [], 1, [[b]]);
    BuildOfSingleImport(env, b, resolved);
  }

  /**
   `import_lib`'s value for every found file: that file's own build with
   import following off, subscripted by the leftover segments. The build
   reads nothing of the environment, so any environment gives it.
   */
  lemma ImportLibIsUnfollowedBuild(env: Env, env2: Env, path: seq<string>, file: string, leftover: seq<string>)
    requires SearchPath.FirstCandidate(env.roots, path, env.isFile) == Some(SearchPath.Candidate(file, leftover))
    ensures ImportLib(env, path) == Subscript(Dict(AstParser(env2, env.parseFile(file), false).value), leftover)
  {
    NestedParseIsEnvFree(env, env2, env.parseFile(file));
  }
}
