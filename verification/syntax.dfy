/**
 The part of a parso syntax tree the completion index reads. Each node kind
 carries, as fields, the values the visitor obtains from the tree's accessors.
 */
module Syntax {

  /** One function parameter: `p.name.value`, `p.star_count`, and whether `p.default` is set. */
  datatype Param = Param(name: string, starCount: nat, hasDefault: bool)

  /**
   One `import` clause: the bound name (an element of `get_defined_names()`),
   the dotted path zipped with it (`get_paths()`), and `get_path_for_name(name)`.
   */
  datatype ImportClause = ImportClause(name: string, namePath: seq<string>, path: seq<string>)

  /** One name of a `from ... import` statement and its `get_path_for_name(name)`. */
  datatype FromName = FromName(name: string, path: seq<string>)

  /** The node kinds the visitor distinguishes; every other kind is `Other`. */
  datatype Node =
    | Module(children: seq<Node>)
    | PythonNode(children: seq<Node>)
    | Class(name: string, children: seq<Node>)
    | Function(name: string, params: seq<Param>)
    | ExprStmt(definedNames: seq<string>)
    | ImportName(clauses: seq<ImportClause>)
    | ImportFrom(names: seq<FromName>)
    | Other

  /** Number of nodes in a tree; the termination measure of the visitor. */
  function Size(n: Node): (r: nat)
    ensures r >= 1
    decreases n
  {
    match n
    case Module(cs) => 1 + SizeAll(cs)
    case PythonNode(cs) => 1 + SizeAll(cs)
    case Class(_, cs) => 1 + SizeAll(cs)
    case _ => 1
  }

  function SizeAll(cs: seq<Node>): (r: nat)
    ensures |cs| > 0 ==> Size(cs[0]) <= r && SizeAll(cs[1..]) < r
    decreases cs
  {
    if |cs| == 0 then 0 else Size(cs[0]) + SizeAll(cs[1..])
  }
}
