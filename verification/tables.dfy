/**
 Completion tables. An entry is the Python pair `(tag, second)`; the second
 component is a dict for classes and resolved imports, None for functions,
 variables and builtins, and may be a bare entry pair when an import was
 resolved by subscripting a parsed module with a leftover segment.
 */
module Tables {
  import opened Wrappers

  datatype Value =
    | Dict(table: map<string, Entry>)
    | Pair(entry: Entry)
    | Null

  datatype Entry = Entry(tag: string, sub: Value)

  type Table = map<string, Entry>

  const EmptyDict: Value := Dict(map[])

  /** `sep.join(parts)`. */
  function JoinWith(sep: string, parts: seq<string>): string
  {
    if |parts| == 0 then ""
    else if |parts| == 1 then parts[0]
    else parts[0] + sep + JoinWith(sep, parts[1..])
  }

  /** The dotted spelling of an import path, `".".join(path)`. */
  function JoinDots(path: seq<string>): string
  {
    JoinWith(".", path)
  }

  /** `str.split(c)`: always at least one (possibly empty) piece. */
  function Split(s: string, c: char): (r: seq<string>)
    ensures |r| >= 1
  {
    if |s| == 0 then [""]
    else
      var rest := Split(s[1..], c);
      if s[0] == c then [""] + rest else [[s[0]] + rest[0]] + rest[1..]
  }

  lemma {:induction false} SplitNoSeparator(s: string, c: char)
    requires c !in s
    ensures Split(s, c) == [s]
    decreases |s|
  {
    if |s| > 0 {
      SplitNoSeparator(s[1..], c);
      assert [s[0]] + s[1..] == s;
    }
  }

  lemma {:induction false} SplitAfterPiece(a: string, b: string, c: char)
    requires c !in a
    ensures Split(a + [c] + b, c) == [a] + Split(b, c)
    decreases |a|
  {
    if |a| == 0 {
      assert a + [c] + b == [c] + b;
      assert ([c] + b)[1..] == b;
    } else {
      SplitAfterPiece(a[1..], b, c);
      assert (a + [c] + b)[1..] == a[1..] + [c] + b;
      assert [a[0]] + a[1..] == a;
    }
  }

  /** Splitting a join gives back the pieces when none holds the separator. */
  lemma {:induction false} SplitJoin(parts: seq<string>, c: char)
    requires |parts| >= 1
    requires forall i :: 0 <= i < |parts| ==> c !in parts[i]
    ensures Split(JoinWith([c], parts), c) == parts
    decreases |parts|
  {
    if |parts| == 1 {
      SplitNoSeparator(parts[0], c);
    } else {
      SplitJoin(parts[1..], c);
      assert JoinWith([c], parts) == parts[0] + [c] + JoinWith([c], parts[1..]);
      SplitAfterPiece(parts[0], JoinWith([c], parts[1..]), c);
      assert [parts[0]] + parts[1..] == parts;
    }
  }

  /**
   Looks `keys[0]` up in a dict value, then `keys[1]` in that entry's second
   component, and so on; the entry reached by the last key, if every step
   finds a dict holding the key.
   */
  function Follow(v: Value, keys: seq<string>): Option<Entry>
    requires |keys| >= 1
  {
    match v
    case Dict(t) =>
      if keys[0] !in t then None
      else if |keys| == 1 then Some(t[keys[0]])
      else Follow(t[keys[0]].sub, keys[1..])
    case _ => None
  }

  /**
   `recursive_dict(path, value)`: a chain of single-key dicts, one level per
   segment, whose innermost key holds `value`; None for an empty path.
   */
  function RecursiveDict(path: seq<string>, value: Entry): (r: Value)
    ensures |path| == 0 <==> r == Null
    ensures |path| >= 1 ==> r.Dict? && r.table.Keys == {path[0]}
    ensures |path| >= 1 ==> Follow(r, path) == Some(value)
  {
    if |path| > 1 then Dict(map[path[0] := Entry("Import", RecursiveDict(path[1..], value))])
    else if |path| == 1 then Dict(map[path[0] := value])
    else Null
  }

  /**
   Every intermediate level of the chain: following the first `j` segments
   reaches an entry tagged "Import" whose second component is the chain for
   the remaining segments (hence a dict with the single key `path[j]`).
   */
  lemma {:induction false} RecursiveDictLevels(path: seq<string>, value: Entry, j: nat)
    requires 1 <= j < |path|
    ensures Follow(RecursiveDict(path, value), path[..j]) == Some(Entry("Import", RecursiveDict(path[j..], value)))
    ensures RecursiveDict(path[j..], value).table.Keys == {path[j]}
    decreases j
  {
    var r := RecursiveDict(path, value);
    assert r.table[path[0]] == Entry("Import", RecursiveDict(path[1..], value));
    if j == 1 {
      assert path[..j] == [path[0]];
    } else {
      RecursiveDictLevels(path[1..], value, j - 1);
      assert path[..j][1..] == path[1..][..j - 1];
      assert path[1..][j - 1..] == path[j..];
    }
  }
}
