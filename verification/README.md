# pycompleter: a Dafny model of the completion-table builder

pycompleter is a Sublime Text plugin that offers Python completions. It parses
the buffer, walks the syntax tree and builds a nested completion table. Each
key of the table is a bound name. Its entry is the pair `(tag, second)`:

- the tag is "Class", "Variable", "builtin", "Import", "Import" followed by a
  dotted path, or the rendered signature of a function;
- the second component is the member table for classes and resolved imports;
  None for functions, variables and builtins, and for an import whose file
  is not found (line 141); and a bare entry pair for an import resolved
  through one leftover segment (line 138).

At query time the plugin follows the dotted path typed before the cursor down
the table. It then lists, sorted, the keys that start with the partial word.

The model covers four pieces:

- the helpers `recursive_dict` and `generate_full_paths`;
- the whole `ParsoVisitor`: `push`/`pop`, every `visit_*` method,
  `import_parser` and `import_lib`;
- `ast_parser` and the budget its `recurse` flag sets;
- the query side: `sublime_completions` and the path-descent loop of
  `on_query_completions`.

Modules, one per concern:

- `Wrappers` (wrappers.dfy): `Option`, and `Result` with the Python
  exceptions the code can raise (`IndexError`, `KeyError`, `TypeError`,
  `AttributeError`).
- `Syntax` (syntax.dfy): the parse-tree node kinds the visitor dispatches on,
  and a size measure used for termination.
- `Tables` (tables.dfy): entries, values (a dict, a bare entry pair, or None),
  `recursive_dict`, and key-path lookup.
- `Signature` (signature.dfy): the function tag `visit_Function` renders, and
  a decoder that reads it back.
- `SearchPath` (searchpath.dfy): `generate_full_paths` as an ordered sequence
  of candidates, and the first one, which `next(...)` takes.
- `Visitor` (visitor.dfy): the visitor as pure functions over an immutable
  state record, plus `import_parser`, `import_lib` and `ast_parser`.
- `VisitorProps` (visitor_props.dfy): properties that span several calls:
  - each visit is a right-biased override of the current table;
  - the last binding of a name wins;
  - the shape of dotted imports;
  - a visit without budget ignores the environment;
  - import following stops one level deep.
- `Query` (query.dfy): Python string order, `sublime_completions` as an
  insertion sort with its full specification, and the descent loop.
- `WorkedExample` (examples_build.dfy): a class `Foo` with method
  `bar(self, x, y=1)` and a variable `z`, built and then queried for `Foo.b`.

Visitor state. The visitor's mutable fields (`current`, `stack`, `recursion`)
become a `VisitorState` value that each visit threads through. The record has
one field `ParsoVisitor` lacks: `requests` logs every path handed to
`import_parser`. That log is what lets the contracts say an import statement
resolves each name exactly once. Python's aliasing of the dict shared by a
class entry and the pushed `current` is modelled explicitly: after the body is
visited and popped, the class name is bound again to the finished table.

Environment. File system, interpreter and parser are parameters of `Env`:

- the search roots (`PATHS`);
- the `os.path.isfile` test;
- the parse of a file's contents (open, read, then `parso.parse`);
- the built-in module names, each with the names `dir` lists for it.

## Model

| member | source | states |
|---|---|---|
| `Tables.RecursiveDict` | pycompleter.py:21-25 | None exactly for an empty path. Otherwise a dict with the single key `path[0]`, and following the whole path reaches `value`. |
| `Tables.RecursiveDictLevels` | pycompleter.py:21-25 | Every intermediate level of the chain is an "Import" entry whose member table is the chain for the remaining segments, with the single key `path[j]`. |
| `SearchPath.TryPathInjective` | pycompleter.py:31 | Under one root, two prefixes of plain segments give the same candidate file name exactly when they are the same prefix. |
| `SearchPath.DistinctLengthsDistinctFiles` | pycompleter.py:30-31 | Within one root, different prefix lengths of a plain import path probe different files, so no file is tested twice. |
| `SearchPath.RootProbes` | pycompleter.py:30 | The inner loop tries prefix lengths `len(path)` down to 1, in that order. |
| `SearchPath.ProbesFrom` | pycompleter.py:29-30 | The two loops try exactly the (root, length) pairs with length from 1 to `len(path)`: roots in order, longest prefix first within a root. |
| `SearchPath.HitProbes` | pycompleter.py:32-33 | Exactly the tried pairs whose file exists are kept, and their order is preserved. |
| `SearchPath.YieldingProbes` | pycompleter.py:28-33 | The yielding pairs are exactly the in-range pairs whose file exists, in iteration order. |
| `SearchPath.GenerateFullPathsSound` | pycompleter.py:28-33 | Each yielded pair comes from an in-range prefix of length at least 1 whose file exists. Its file is `root/<prefix>.py` and its leftover is the rest of the path. |
| `SearchPath.GenerateFullPathsComplete` | pycompleter.py:28-33 | Every root and prefix whose file exists is yielded. |
| `SearchPath.GenerateFullPathsOrder` | pycompleter.py:29-30 | Yields come in root order, and within a root longest prefix first. |
| `SearchPath.FirstYieldIsEarliest` | pycompleter.py:29-33 | No existing file comes before the first yield in iteration order. |
| `SearchPath.FirstCandidateIsEarliestHit` | pycompleter.py:133 | What `next(..., (None, None))` takes is None exactly when no candidate file exists. Otherwise it is the candidate of an existing probe that no existing probe precedes. |
| `SearchPath.FirstCandidateIsHead` | pycompleter.py:133 | The first candidate is the head of everything the generator yields, and None exactly when it yields nothing. |
| `Visitor.PopUndoesPush` | pycompleter.py:44-51 | A pop after a push restores the table, stack and budget the push found, whatever was written in between. |
| `Visitor.Visit` | pycompleter.py:53-55 | Dispatch keeps the stack and the budget. Without budget no node raises. A node kind with no `visit_` method changes nothing (lines 113-115). |
| `Visitor.VisitAll` | pycompleter.py:57-59 | Stack and budget are kept, and without budget nothing raises. That children are visited in order is stated by `VisitorProps.VisitAllSnoc`. |
| `Visitor.VisitClass` | pycompleter.py:61-67 | The class name is bound to a "Class" entry holding a dict. No other key of the enclosing table changes. Stack and budget are restored after the body. Which dict it is, is stated by `VisitorProps.ClassBodyTable`. |
| `Visitor.VisitFunction` | pycompleter.py:94-103 | The name is bound to an entry with no member table, and nothing else changes. The tag decodes back to the parameter list (names, star counts, defaults) whenever the names are plain. |
| `Visitor.BindAll` | pycompleter.py:107-108 | Exactly the listed names are added or rebound to the given leaf entry ("Variable" here, "builtin" at lines 123-124). Every other key keeps its entry. |
| `Visitor.VisitExprStmt` | pycompleter.py:105-108 | Every defined name becomes a "Variable" leaf. Other keys, the stack, the budget and the import log are untouched. |
| `Visitor.VisitImportNames` | pycompleter.py:69-70 | Each clause is handled in order. Exactly the clauses' paths are resolved, once each, in order. |
| `Visitor.VisitImportClause` | pycompleter.py:74-83 | One clause resolves its full path exactly once and fails exactly when that resolution fails. A plain or aliased import binds only its name, to ("Import", resolution). It keeps the stack and budget, and never raises without budget. The dotted case is `VisitorProps.DottedImportBindings`. |
| `Visitor.VisitImportFroms` | pycompleter.py:85-86 | Each imported name is handled in order. Exactly the names' paths are resolved, once each, in order. |
| `Visitor.VisitFromName` | pycompleter.py:87-92 | One from-imported name resolves its path exactly once and fails exactly when that fails. It binds only that name, to ("Import" followed by the dotted path, resolution). It keeps the stack and budget, and never raises without budget. |
| `Visitor.ImportParser` | pycompleter.py:117-128 | Table, stack and budget come back unchanged. Without budget the answer is an empty dict. An empty path with budget raises IndexError. A built-in module gives the table of its listed names. Any other module gives exactly what `import_lib` answers or raises (line 126). |
| `Visitor.Subscript` | pycompleter.py:137-138 | No leftover gives the module table itself. One leftover key gives that key's entry pair, or raises when the key is missing. Two or more keys always raise. |
| `Visitor.ImportLib` | pycompleter.py:130-141 | None exactly when no candidate file exists. A candidate with no leftover gives a dict, one leftover gives an entry pair, and more leftovers raise. The value itself is stated by `VisitorProps.ImportLibIsUnfollowedBuild`. |
| `Visitor.AstParser` | pycompleter.py:144-152 | With `recurse` false (budget 0) building never raises. |
| `Signature.Render` | pycompleter.py:101-103 | The tag is parenthesised. No parameters give "()", and one parameter gives it alone in parentheses. |
| `Signature.DecodeRenderParam` | pycompleter.py:95-99 | A rendered parameter reads back to itself and holds no comma. |
| `Signature.DecodeRender` | pycompleter.py:94-103 | The signature tag is a faithful encoding: decoding it gives back the parameter list when names are plain. |
| `VisitorProps.ImportParserReadsOnlyBudget` | pycompleter.py:117-128 | `import_parser`'s outcome and resolution depend on the visitor only through its budget. |
| `VisitorProps.DottedWritesOnce` | pycompleter.py:76-78 | Repeating the body of `for i in path:` leaves what one pass leaves. |
| `VisitorProps.DottedWritesOverride` | pycompleter.py:76-78 | The dotted writes lay a fixed table over the current one. |
| `VisitorProps.VisitImportClauseOverrides` | pycompleter.py:74-83 | An import clause from any state does what it does from a fresh state with the same budget, laid over the current table. |
| `VisitorProps.VisitFromNameOverrides` | pycompleter.py:87-92 | The same for one from-imported name. |
| `VisitorProps.VisitImportNamesOverrides` | pycompleter.py:69-83 | The same for a whole `import` statement. |
| `VisitorProps.VisitImportFromsOverrides` | pycompleter.py:85-92 | The same for a whole `from ... import` statement. |
| `VisitorProps.BindAllOverride` | pycompleter.py:107-108 | Binding names lays a fixed table over the current one. |
| `VisitorProps.VisitOverrides` | pycompleter.py:53-115 | Every visit is a right-biased override of the current table: same failure, or the fresh-state result laid over it. |
| `VisitorProps.VisitAllOverrides` | pycompleter.py:57-59 | The same for a sequence of children. |
| `VisitorProps.VisitClassOverrides` | pycompleter.py:61-67 | The same for a class definition. |
| `VisitorProps.ClassBodyTable` | pycompleter.py:61-67 | The class name is bound to exactly the table its body builds from an empty table with one unit less budget, and the class fails exactly when that body does. |
| `VisitorProps.VisitAllSnoc` | pycompleter.py:57-59 | Visiting children plus one more statement is visiting that statement after the others. |
| `VisitorProps.LastBindingWins` | pycompleter.py:57-59 | Within one scope, a name bound by the last statement has the entry that statement produces on its own, whatever came before. |
| `VisitorProps.DottedImportBindings` | pycompleter.py:74-78 | `import a.b` resolves once. The first segment holds the chain of the remaining segments ending in the resolution, and the dotted spelling holds the resolution. |
| `VisitorProps.DottedStatementBindsChain` | pycompleter.py:74-78 | After `import a.c`, `a` holds a chain with the single key `c`, whatever was bound before. |
| `VisitorProps.SecondDottedImportReplaces` | pycompleter.py:74-78 | `import a.b` then `import a.c` leaves `a` holding `c` only: no merge. |
| `VisitorProps.ClassBodyAtDefaultBudget` | pycompleter.py:61-67 | At the default budget a class statement never raises, and its entry is the body's table built with no budget left. That table is the same under every environment, so no import inside a class body is followed. |
| `VisitorProps.ImportInClassBodyUnresolved` | pycompleter.py:61-67 | A class body whose only statement is `import m`, at the default budget, binds `m` to an empty dict, because the push spent the budget. |
| `VisitorProps.VisitNoBudgetEnvFree` | pycompleter.py:119 | Without budget a visit gives the same result under any two environments. |
| `VisitorProps.VisitAllNoBudgetEnvFree` | pycompleter.py:57-59 | The same for a sequence of children. |
| `VisitorProps.VisitClassNoBudgetEnvFree` | pycompleter.py:61-67 | A class visited with budget at most 1 never consults the environment. |
| `VisitorProps.ImportNamesNoBudgetEnvFree` | pycompleter.py:69-83 | Without budget an `import` statement never consults the environment. |
| `VisitorProps.ImportFromsNoBudgetEnvFree` | pycompleter.py:85-92 | Without budget a `from ... import` statement never consults the environment. |
| `VisitorProps.NestedParseIsEnvFree` | pycompleter.py:136 | The nested parse that `import_lib` runs never raises and ignores the environment. |
| `VisitorProps.NoBudgetImportIsEmpty` | pycompleter.py:79-83 | Without budget `import m` binds `m` to an "Import" entry holding an empty dict, and still logs the path. |
| `VisitorProps.NoBudgetFromImportIsEmpty` | pycompleter.py:89-92 | Without budget a from-import binds the name, tagged "Import" plus the dotted path, to an empty dict. |
| `VisitorProps.UnbudgetedModuleWithImport` | pycompleter.py:144-152 | Parsing a module whose only statement is `import m`, without recursion, gives `{m: ("Import", {})}`. |
| `VisitorProps.OneLevelCutoff` | pycompleter.py:130-139 | For a found module whose only statement is `import m`, with no leftover, `import_lib` gives `{m: ("Import", {})}`: the module's own import is not followed. The general statement is `VisitorProps.ImportLibIsUnfollowedBuild`. |
| `VisitorProps.ImportLibIsUnfollowedBuild` | pycompleter.py:130-139 | For every found file, `import_lib`'s result is that file's own build with import following off (line 136), subscripted by the leftover segments. That build reads nothing of the environment. |
| `VisitorProps.ImportParserFollowsLib` | pycompleter.py:117-128 | For any visitor with budget, a path whose head is not built in resolves to what `import_lib` answers: its value on success, its exception on failure. The visitor comes back as it was, apart from the logged request. |
| `VisitorProps.BuildOfSingleImport` | pycompleter.py:69-83 | A module holding only `import b`, built with following on, binds `b` to what `import_parser` resolves. |
| `VisitorProps.BuildFollowsOneLevel` | pycompleter.py:144-152 | A build with following on resolves `import b` to the table of the file found for `b`, while that file's own `import c` stays an empty dict. |
| `Query.StrLessIrreflexive` | pycompleter.py:177 | Python string `<` is irreflexive. |
| `Query.StrLessTransitive` | pycompleter.py:177 | Python string `<` is transitive. |
| `Query.StrLessTotal` | pycompleter.py:177 | Python string `<` is total on distinct strings. |
| `Query.CompletionLessIrreflexive` | pycompleter.py:177 | List order on items is irreflexive. |
| `Query.CompletionLessTransitive` | pycompleter.py:177 | List order on items is transitive. |
| `Query.CompletionLessTotal` | pycompleter.py:177 | List order on items is total on distinct items. |
| `Query.EmptyPrefixMatchesAll` | pycompleter.py:175 | Every key starts with the empty prefix. |
| `Query.Insert` | pycompleter.py:177 | Inserting a new item into a sorted list keeps it sorted and adds exactly that item. |
| `Query.SortedUnique` | pycompleter.py:177 | Two sorted lists with the same items are equal, so the sorted result is determined by its items. |
| `Query.SublimeCompletions` | pycompleter.py:171-177 | The result is sorted and holds exactly one item `["k\tv", k]` per key starting with the prefix. Its length is the number of matching keys, at most the table's size. |
| `Query.Descend` | pycompleter.py:198-199 | The descent loop can only raise AttributeError. |
| `Query.DescendFollows` | pycompleter.py:198-199 | Along keys that exist, the descent reaches the member table of the entry named by the path. |
| `Query.DescendEmpty` | pycompleter.py:199 | From an empty dict every path leads to an empty dict. |
| `Query.DescendMissing` | pycompleter.py:199 | A first segment missing from the starting dict ends the descent on an empty dict, whatever follows. |
| `Query.DescendMissingAt` | pycompleter.py:198-199 | A segment missing from the dict reached after any number of existing segments ends the descent on an empty dict, whatever follows. |
| `Query.DescendPastLeafRaises` | pycompleter.py:198-199 | A segment typed after a function, a variable, an import whose file was not found (second component None, line 141) or a pair-valued import raises AttributeError. |
| `Query.OnQueryCompletions` | pycompleter.py:192-202 | Completions are returned exactly when the build succeeds and the descent succeeds on a dict. They are then sorted and hold exactly the matching items of the table reached. |
| `WorkedExample.BarSignature` | pycompleter.py:94-103 | `def bar(self, x, y=1)` renders as "(self,x,[y])". |
| `WorkedExample.FooBodyBuilds` | pycompleter.py:61-67 | The class body of `Foo` builds the table holding `bar`'s signature. |
| `WorkedExample.ExampleBuilds` | pycompleter.py:144-152 | The whole example builds `{Foo: ("Class", {bar: ("(self,x,[y])", None)}), z: ("Variable", None)}`. |
| `WorkedExample.ExampleQuery` | pycompleter.py:171-177 | Completing `Foo.b` reaches `Foo`'s table and offers exactly the one item for `bar`. |

## Left out

- The editor integration: the `sublime_plugin` listener class, `Region`, the
  popup timer and the error and completion caches (lines 155-170) are left
  out. They concern the editor API and threading, not the table.
- Extraction of the typed path from the buffer is left out. This is the
  `while i > 1` loop that reads characters around the cursor (lines 181-190).
  It is buffer I/O, so `Query.OnQueryCompletions` takes the path as a
  parameter. Only the first location is modelled, because the source returns
  inside its loop over locations.
- `Query.OnQueryCompletions` leaves out the `matches is None` test. `ast_parser`
  always returns a dict, so that branch is dead.
- The parso parser, and `open`/`read` of a file, are not part of this model.
  The tree is a parameter. A found module's tree comes from `Env.parseFile`,
  and `Syntax.Node` keeps only what the visitor reads of each node.
- `sys.builtin_module_names` and `importlib.import_module` plus `dir` are
  replaced by `Env.builtins`, a map from module name to the listed names.
- The `os.path.isfile` existence test is the parameter `Env.isFile`.
  `PATHS` and `VERSION` are machine-specific constants, so `PATHS` is the
  parameter `Env.roots`.
- `print` calls are left out; they have no effect on the result.
- The unsaved-buffer file name "-" (line 165) is left out, because it
  only reaches the parser.
- Dispatch through `getattr(self, "visit_" + name, ...)` is left out. It
  becomes a `match` on the node kind, and unknown kinds take the
  `generic_visit` branch.
- `Visitor.Pop`: requires a non-empty stack. The source would raise
  IndexError on an empty stack, but every pop in the code follows its own
  push.
- `Visitor.AstParser`: its contract says nothing about a build with `recurse`
  true. Such builds are described by the visitor lemmas, by
  `VisitorProps.BuildFollowsOneLevel` and by `WorkedExample.ExampleBuilds`.
- `Visitor.ImportLib`: the contract gives the result's shape per leftover
  length. The value itself is stated by
  `VisitorProps.ImportLibIsUnfollowedBuild`.
- `SearchPath.TryPathInjective` and `SearchPath.DistinctLengthsDistinctFiles`:
  stated for non-empty segments without `/`. Parso gives identifiers, so
  that covers the source's input.
- `Signature.DecodeRender`: proved only for names free of `*`, `,`, `[`
  and `]`, with no leading star. Parso names are identifiers, so that covers
  the source's input. For other names the tag is ambiguous.
- Behaviours of the code a reader might expect otherwise, which the model
  follows:
  - Only the configured roots are searched, not the importing file's own
    directory.
  - Only `<prefix>.py` files are tried; there is no `__init__.py` lookup.
  - A second dotted import of the same package overwrites the chain instead
    of merging it (`VisitorProps.SecondDottedImportReplaces`).
  - A leftover segment missing from the found module raises KeyError. When the
    first leftover segment is present, two or more leftover segments raise
    TypeError, because the first subscript yields an entry tuple.
  - Typing a segment after a member with no table (function, variable, an
    import whose file was not found, tuple import) raises AttributeError
    instead of offering nothing.
  - The bodies of `if`, `for`, `while`, `try` and `with` statements bind
    nothing. Parso gives these statements node classes with no `visit_`
    method, so they fall to `generic_visit` (lines 53-55, 113-115). For
    example, `try: import json` adds no key. The model maps them to
    `Syntax.Other`.
