/**
 `ParsoVisitor` and `ast_parser`: a walk over a syntax tree that writes one
 entry per bound name into the current table, keeping an explicit stack of
 enclosing tables and a recursion budget that bounds import following.

 The visitor's mutable fields become an immutable state record threaded
 through the walk; an exception becomes an `Err` result.
 */
module Visitor {
  import opened Wrappers
  import opened Syntax
  import opened Tables
  import Signature
  import SearchPath

  /**
   What the visitor consults outside the tree: the search roots (`PATHS`),
   the file-existence test, the parse of a file's contents, and the runtime's
   built-in modules with the names `dir` lists for each.
   */
  datatype Env = Env(
    roots: seq<string>,
    isFile: string -> bool,
    parseFile: string -> Node,
    builtins: map<string, seq<string>>)

  /**
   The visitor's fields. `requests` is not a field of `ParsoVisitor`: it logs
   the paths handed to `import_parser`, in call order, so that the number of
   resolutions per statement can be stated.
   */
  datatype VisitorState = VisitorState(
    current: Table,
    stack: seq<Table>,
    recursion: int,
    requests: seq<seq<string>>)

  /** `ParsoVisitor(recursion)` before any visit: `current` is the empty `data`. */
  function Initial(recursion: int): VisitorState
  {
    VisitorState(map[], [], recursion, [])
  }

  /** The budget still available for following imports. */
  function Rank(st: VisitorState): nat
  {
    if st.recursion > 0 then st.recursion else 0
  }

  /** `push(t)`. */
  function Push(st: VisitorState, t: Table): VisitorState
  {
    st.(stack := st.stack + [st.current], current := t, recursion := st.recursion - 1)
  }

  /** `pop()`. */
  function Pop(st: VisitorState): VisitorState
    requires |st.stack| > 0
  {
    st.(current := st.stack[|st.stack| - 1], stack := st.stack[..|st.stack| - 1], recursion := st.recursion + 1)
  }

  /**
   A `pop` after a `push` restores the table, the stack and the budget the
   push found, whatever was written into the pushed table or requested in
   between.
   */
  lemma PopUndoesPush(st: VisitorState, t: Table, mid: VisitorState)
    requires mid.stack == Push(st, t).stack && mid.recursion == Push(st, t).recursion
    ensures Pop(mid) == st.(requests := mid.requests)
  {
  }

  /** `visit(node)`: dispatch on the node kind; unknown kinds change nothing. */
  function Visit(env: Env, node: Node, st: VisitorState): (r: Result<VisitorState>)
    ensures r.Ok? ==> r.value.stack == st.stack && r.value.recursion == st.recursion
    ensures st.recursion <= 0 ==> r.Ok?
    ensures node.Other? ==> r == Ok(st)
    decreases Rank(st), Size(node), 2
  {
    match node
    case Module(cs) => VisitAll(env, cs, st)
    case PythonNode(cs) => VisitAll(env, cs, st)
    case Class(name, cs) => VisitClass(env, name, cs, st)
    case Function(name, ps) => Ok(VisitFunction(name, ps, st))
    case ExprStmt(names) => Ok(VisitExprStmt(names, st))
    case ImportName(clauses) => VisitImportNames(env, clauses, st)
    case ImportFrom(names) => VisitImportFroms(env, names, st)
    case Other => Ok(st)
  }

  /** `for child in node.children: self.visit(child)`. */
  function VisitAll(env: Env, cs: seq<Node>, st: VisitorState): (r: Result<VisitorState>)
    ensures r.Ok? ==> r.value.stack == st.stack && r.value.recursion == st.recursion
    ensures st.recursion <= 0 ==> r.Ok?
    decreases Rank(st), SizeAll(cs), 3
  {
    if |cs| == 0 then Ok(st)
    else
      var st1 :- Visit(env, cs[0], st);
      VisitAll(env, cs[1..], st1)
  }

  /**
   `visit_Class`: binds the class name to a fresh table, visits the body with
   that table pushed, and pops. The table bound in the parent is the one the
   body filled in, and no other key of the parent changes.
   */
  function VisitClass(env: Env, name: string, cs: seq<Node>, st: VisitorState): (r: Result<VisitorState>)
    ensures r.Ok? ==> r.value.stack == st.stack && r.value.recursion == st.recursion
    ensures r.Ok? ==> name in r.value.current && r.value.current[name].tag == "Class" && r.value.current[name].sub.Dict?
    ensures r.Ok? ==> r.value.current == st.current[name := r.value.current[name]]
    ensures st.recursion <= 0 ==> r.Ok?
    decreases Rank(st), SizeAll(cs), 4
  {
    var bound := st.(current := st.current[name := Entry("Class", EmptyDict)]);
    var body :- VisitAll(env, cs, Push(bound, map[]));
    var back := Pop(body);
    // The parent's entry holds the very dict the body wrote into.
    Ok(back.(current := back.current[name := Entry("Class", Dict(body.current))]))
  }

  /**
   `visit_Function`: binds the name to its rendered signature with no member
   table; the body is not visited. The tag reads back as the parameter list.
   */
  function VisitFunction(name: string, ps: seq<Param>, st: VisitorState): (r: VisitorState)
    ensures name in r.current && r.current[name].sub == Null
    ensures (forall i :: 0 <= i < |ps| ==> Signature.PlainName(ps[i].name)) ==>
              Signature.Decode(r.current[name].tag) == Some(ps)
    ensures r.current == st.current[name := r.current[name]]
    ensures r.stack == st.stack && r.recursion == st.recursion && r.requests == st.requests
  {
    var tag := Signature.Render(ps);
    assert (forall i :: 0 <= i < |ps| ==> Signature.PlainName(ps[i].name)) ==> Signature.Decode(tag) == Some(ps) by {
      if forall i :: 0 <= i < |ps| ==> Signature.PlainName(ps[i].name) {
        Signature.DecodeRender(ps);
      }
    }
    st.(current := st.current[name := Entry(tag, Null)])
  }

  /**
   Binds every name, in order, to the same leaf entry: the loops of
   `visit_ExprStmt` ("Variable") and of the built-in branch of
   `import_parser` ("builtin").
   */
  function BindAll(t: Table, names: seq<string>, e: Entry): (r: Table)
    ensures r.Keys == t.Keys + (set n | n in names)
    ensures forall k :: k in r ==> r[k] == if k in names then e else t[k]
    decreases |names|
  {
    if |names| == 0 then t
    else BindAll(t[names[0] := e], names[1..], e)
  }

  /** `visit_ExprStmt`: every defined name becomes a variable; the right-hand side is ignored. */
  function VisitExprStmt(names: seq<string>, st: VisitorState): (r: VisitorState)
    ensures r.current.Keys == st.current.Keys + (set n | n in names)
    ensures forall k :: k in r.current ==>
              r.current[k] == if k in names then Entry("Variable", Null) else st.current[k]
    ensures r.stack == st.stack && r.recursion == st.recursion && r.requests == st.requests
  {
    st.(current := BindAll(st.current, names, Entry("Variable", Null)))
  }

  /** The paths an import statement hands to `import_parser`, one per bound name. */
  function ClausePaths(clauses: seq<ImportClause>): seq<seq<string>>
  {
    if |clauses| == 0 then [] else [clauses[0].path] + ClausePaths(clauses[1..])
  }

  function FromPaths(names: seq<FromName>): seq<seq<string>>
  {
    if |names| == 0 then [] else [names[0].path] + FromPaths(names[1..])
  }

  /** `visit_ImportName`: the clauses in order. */
  function VisitImportNames(env: Env, clauses: seq<ImportClause>, st: VisitorState): (r: Result<VisitorState>)
    ensures r.Ok? ==> r.value.stack == st.stack && r.value.recursion == st.recursion
    ensures r.Ok? ==> r.value.requests == st.requests + ClausePaths(clauses)
    ensures st.recursion <= 0 ==> r.Ok?
    decreases Rank(st), 0, 3 + |clauses|
  {
    if |clauses| == 0 then Ok(st)
    else
      var st1 :- VisitImportClause(env, clauses[0], st);
      VisitImportNames(env, clauses[1..], st1)
  }

  /**
   The statements of one pass of `for i in path:` in the dotted branch: bind
   the first segment to the chain for the remaining segments, and the full
   dotted spelling to the resolved entry.
   */
  function DottedStep(t: Table, name: string, path: seq<string>, value: Entry): Table
    requires |path| >= 1
  {
    t[name := Entry("Import", RecursiveDict(path[1..], value))][JoinDots(path) := value]
  }

  /** `for i in path:` after `n` passes. */
  function DottedWrites(t: Table, name: string, path: seq<string>, value: Entry, n: nat): Table
    requires n <= |path|
    decreases n
  {
    if n == 0 then t else DottedWrites(DottedStep(t, name, path, value), name, path, value, n - 1)
  }

  /**
   One clause of `visit_ImportName`. When the name's own path differs from
   the full path (`import a.b`), the resolution is computed once and written
   under the first segment, as a chain, and under the dotted spelling;
   otherwise (`import a`, `import a.b as x`) the name is bound directly.
   */
  function VisitImportClause(env: Env, c: ImportClause, st: VisitorState): (r: Result<VisitorState>)
    ensures r.Ok? ==> r.value.stack == st.stack && r.value.recursion == st.recursion
    ensures r.Ok? ==> r.value.requests == st.requests + [c.path]
    ensures r.Ok? <==> ImportParser(env, c.path, st).Ok?
    ensures r.Ok? && c.namePath == c.path ==>
              r.value.current == st.current[c.name := Entry("Import", ImportParser(env, c.path, st).value.0)]
    ensures st.recursion <= 0 ==> r.Ok?
    decreases Rank(st), 0, 2
  {
    var res :- ImportParser(env, c.path, st);
    var resolved := res.0;
    var st1 := res.1;
    if c.namePath != c.path then
      var value := Entry("Import", resolved);
      Ok(st1.(current := DottedWrites(st1.current, c.name, c.path, value, |c.path|)))
    else
      Ok(st1.(current := st1.current[c.name := Entry("Import", resolved)]))
  }

  /** `visit_ImportFrom`: the names in order. */
  function VisitImportFroms(env: Env, names: seq<FromName>, st: VisitorState): (r: Result<VisitorState>)
    ensures r.Ok? ==> r.value.stack == st.stack && r.value.recursion == st.recursion
    ensures r.Ok? ==> r.value.requests == st.requests + FromPaths(names)
    ensures st.recursion <= 0 ==> r.Ok?
    decreases Rank(st), 0, 3 + |names|
  {
    if |names| == 0 then Ok(st)
    else
      var st1 :- VisitFromName(env, names[0], st);
      VisitImportFroms(env, names[1..], st1)
  }

  /** One name of `visit_ImportFrom`: tagged "Import" immediately followed by the dotted path. */
  function VisitFromName(env: Env, f: FromName, st: VisitorState): (r: Result<VisitorState>)
    ensures r.Ok? ==> r.value.stack == st.stack && r.value.recursion == st.recursion
    ensures r.Ok? ==> r.value.requests == st.requests + [f.path]
    ensures r.Ok? <==> ImportParser(env, f.path, st).Ok?
    ensures r.Ok? ==>
              r.value.current == st.current[f.name := Entry("Import" + JoinDots(f.path), ImportParser(env, f.path, st).value.0)]
    ensures st.recursion <= 0 ==> r.Ok?
    decreases Rank(st), 0, 2
  {
    var tag := "Import" + JoinDots(f.path);
    var res :- ImportParser(env, f.path, st);
    Ok(res.1.(current := res.1.current[f.name := Entry(tag, res.0)]))
  }

  /**
   `import_parser(path)`: with budget left, pushes a fresh table, fills it
   from the built-in manifest or hands the path to `import_lib`, and pops;
   without budget it answers an empty dict at once. Either way the visitor's
   table, stack and budget are left as they were.
   */
  function ImportParser(env: Env, path: seq<string>, st: VisitorState): (r: Result<(Value, VisitorState)>)
    ensures r.Ok? ==> r.value.1 == st.(requests := st.requests + [path])
    ensures st.recursion <= 0 ==> r == Ok((EmptyDict, st.(requests := st.requests + [path])))
    ensures st.recursion > 0 && |path| == 0 ==> r == Err(IndexError)
    ensures st.recursion > 0 && |path| > 0 && path[0] in env.builtins ==>
              r.Ok? && r.value.0 == Dict(BindAll(map[], env.builtins[path[0]], Entry("builtin", Null)))
    ensures st.recursion > 0 && |path| > 0 && path[0] !in env.builtins ==>
              && (r.Ok? <==> ImportLib(env, path).Ok?)
              && (r.Ok? ==> r.value.0 == ImportLib(env, path).value)
              && (r.Err? ==> r.error == ImportLib(env, path).error)
    decreases Rank(st), 0, 1
  {
    var st1 := st.(requests := st.requests + [path]);
    if st1.recursion > 0 then
      var pushed := Push(st1, map[]);
      if |path| == 0 then Err(IndexError)
      else if path[0] in env.builtins then
        var filled := pushed.(current := BindAll(pushed.current, env.builtins[path[0]], Entry("builtin", Null)));
        PopUndoesPush(st1, map[], filled);
        Ok((Dict(filled.current), Pop(filled)))
      else
        var found :- ImportLib(env, path);
        PopUndoesPush(st1, map[], pushed);
        Ok((found, Pop(pushed)))
    else
      Ok((EmptyDict, st1))
  }

  /**
   `filetree = filetree[s]` for each leftover segment. The first step
   subscripts a dict and yields an entry pair; subscripting a pair (or None)
   with a string raises.
   */
  function Subscript(v: Value, keys: seq<string>): (r: Result<Value>)
    ensures |keys| == 0 ==> r == Ok(v)
    ensures |keys| == 1 ==> (r.Ok? <==> v.Dict? && keys[0] in v.table)
    ensures |keys| == 1 && r.Ok? ==> r.value == Pair(v.table[keys[0]])
    ensures |keys| >= 2 ==> r.Err?
    decreases |keys|
  {
    if |keys| == 0 then Ok(v)
    else
      match v
      case Dict(t) =>
        if keys[0] in t then Subscript(Pair(t[keys[0]]), keys[1..]) else Err(KeyError(keys[0]))
      case _ => Err(TypeError)
  }

  /**
   `import_lib(path)`: the first candidate file, parsed with import following
   switched off and subscripted by the leftover segments; None when no
   candidate file exists.
   */
  function ImportLib(env: Env, path: seq<string>): (r: Result<Value>)
    ensures SearchPath.FirstCandidate(env.roots, path, env.isFile).None? <==> r == Ok(Null)
    ensures SearchPath.FirstCandidate(env.roots, path, env.isFile).Some? ==>
              var c := SearchPath.FirstCandidate(env.roots, path, env.isFile).value;
              && (|c.leftover| == 0 ==> r.Ok? && r.value.Dict?)
              && (|c.leftover| == 1 && r.Ok? ==> r.value.Pair?)
              && (|c.leftover| >= 2 ==> r.Err?)
    decreases 1, 0, 0
  {
    match SearchPath.FirstCandidate(env.roots, path, env.isFile)
    case None => Ok(Null)
    case Some(c) =>
      // A pass without budget cannot raise.
      var data := AstParser(env, env.parseFile(c.file), false).value;
      Subscript(Dict(data), c.leftover)
  }

  /**
   `ast_parser(filename, source, recurse)` on the parsed tree: a visitor with
   budget 1 when `recurse` holds and 0 otherwise, returning `data`. A pass
   without budget never raises.
   */
  function AstParser(env: Env, tree: Node, recurse: bool): (r: Result<Table>)
    ensures !recurse ==> r.Ok?
    decreases (if recurse then 1 else 0), Size(tree), 3
  {
    var st :- Visit(env, tree, Initial(if recurse then 1 else 0));
    // The stack is empty again, so the current table is `data`.
    Ok(st.current)
  }
}
