/**
 The query side: descending a built table by the dotted path typed before
 the cursor (`matches.get(item, (None, {}))[1]` per segment) and listing the
 keys that start with the partial word (`sublime_completions`).
 */
module Query {
  import opened Wrappers
  import opened Syntax
  import opened Tables
  import Visitor

  /** One completion item, the Python list `["k\tv", k]`. */
  datatype Completion = Completion(display: string, key: string)

  /** Python's `<` on str: lexicographic by code point, a proper prefix first. */
  predicate StrLess(a: string, b: string)
    decreases |a|
  {
    if |a| == 0 then |b| > 0
    else |b| > 0 && (a[0] < b[0] || (a[0] == b[0] && StrLess(a[1..], b[1..])))
  }

  lemma {:induction false} StrLessIrreflexive(a: string)
    ensures !StrLess(a, a)
    decreases |a|
  {
    if |a| > 0 {
      StrLessIrreflexive(a[1..]);
    }
  }

  lemma {:induction false} StrLessTransitive(a: string, b: string, c: string)
    requires StrLess(a, b) && StrLess(b, c)
    ensures StrLess(a, c)
    decreases |a|
  {
    if |a| > 0 && a[0] == b[0] && b[0] == c[0] {
      StrLessTransitive(a[1..], b[1..], c[1..]);
    }
  }

  lemma {:induction false} StrLessTotal(a: string, b: string)
    ensures a == b || StrLess(a, b) || StrLess(b, a)
    decreases |a|
  {
    if |a| > 0 && |b| > 0 && a[0] == b[0] {
      StrLessTotal(a[1..], b[1..]);
      if a[1..] == b[1..] {
        assert a == [a[0]] + a[1..] && b == [b[0]] + b[1..];
      }
    }
  }

  /** Python's `<` on two-element lists: by display string, then by key. */
  predicate CompletionLess(x: Completion, y: Completion)
  {
    StrLess(x.display, y.display) || (x.display == y.display && StrLess(x.key, y.key))
  }

  lemma CompletionLessIrreflexive(x: Completion)
    ensures !CompletionLess(x, x)
  {
    StrLessIrreflexive(x.display);
    StrLessIrreflexive(x.key);
  }

  lemma CompletionLessTransitive(x: Completion, y: Completion, z: Completion)
    requires CompletionLess(x, y) && CompletionLess(y, z)
    ensures CompletionLess(x, z)
  {
    if StrLess(x.display, y.display) && StrLess(y.display, z.display) {
      StrLessTransitive(x.display, y.display, z.display);
    } else if x.display == y.display && y.display == z.display {
      StrLessTransitive(x.key, y.key, z.key);
    }
  }

  lemma CompletionLessTotal(x: Completion, y: Completion)
    ensures x == y || CompletionLess(x, y) || CompletionLess(y, x)
  {
    StrLessTotal(x.display, y.display);
    StrLessTotal(x.key, y.key);
  }

  /** Strictly ascending, as `sorted` leaves a list without duplicates. */
  predicate Sorted(s: seq<Completion>)
  {
    forall i, j :: 0 <= i < j < |s| ==> CompletionLess(s[i], s[j])
  }

  /** The item for key `k`: its display string is the key, a tab and the entry's tag. */
  function ItemFor(data: Table, k: string): Completion
    requires k in data
  {
    Completion(k + "\t" + data[k].tag, k)
  }

  /** The keys `k` with `k.startswith(prefix)`. */
  function MatchingKeys(data: Table, prefix: string): set<string>
  {
    set k | k in data && prefix <= k
  }

  lemma EmptyPrefixMatchesAll(data: Table)
    ensures MatchingKeys(data, "") == data.Keys
  {
  }

  /** Inserts an item into a sorted list at its place. */
  function Insert(s: seq<Completion>, x: Completion): (r: seq<Completion>)
    requires Sorted(s) && x !in s
    ensures Sorted(r) && |r| == |s| + 1
    ensures forall c :: c in r <==> c in s || c == x
  {
    if |s| == 0 then [x]
    else if CompletionLess(x, s[0]) then
      assert forall j :: 0 <= j < |s| ==> CompletionLess(x, s[j]) by {
        forall j | 0 < j < |s| {
          CompletionLessTransitive(x, s[0], s[j]);
        }
      }
      [x] + s
    else
      CompletionLessTotal(x, s[0]);
      assert s[0] in s;
      var rest := Insert(s[1..], x);
      assert forall c :: c in rest ==> CompletionLess(s[0], c) by {
        forall c | c in rest
          ensures CompletionLess(s[0], c)
        {
          if c != x {
            var k :| 0 <= k < |s[1..]| && s[1..][k] == c;
            assert s[k + 1] == c;
          }
        }
      }
      var r := [s[0]] + rest;
      assert Sorted(r) by {
        forall i, j | 0 <= i < j < |r|
          ensures CompletionLess(r[i], r[j])
        {
          if i == 0 {
            assert r[j] == rest[j - 1] && rest[j - 1] in rest;
          } else {
            assert r[i] == rest[i - 1] && r[j] == rest[j - 1];
          }
        }
      }
      assert forall c :: c in s <==> c == s[0] || c in s[1..];
      r
  }

  /** Two sorted lists holding the same items are the same list. */
  lemma {:induction false} SortedUnique(s: seq<Completion>, t: seq<Completion>)
    requires Sorted(s) && Sorted(t)
    requires forall c :: c in s <==> c in t
    ensures s == t
    decreases |s|
  {
    assert |s| > 0 ==> s[0] in s && s[0] in t;
    assert |t| > 0 ==> t[0] in t && t[0] in s;
    if |s| > 0 && |t| > 0 {
      CompletionLessIrreflexive(s[0]);
      CompletionLessIrreflexive(t[0]);
      if s[0] != t[0] {
        var i :| 0 <= i < |t| && t[i] == s[0];
        var j :| 0 <= j < |s| && s[j] == t[0];
        assert CompletionLess(t[0], s[0]);
        assert CompletionLess(s[0], t[0]);
        CompletionLessTransitive(s[0], t[0], s[0]);
      }
      forall c | c in s[1..]
        ensures c in t[1..]
      {
        var i :| 0 <= i < |s[1..]| && s[1..][i] == c;
        assert s[i + 1] == c && c in s;
        assert CompletionLess(s[0], s[i + 1]);
        var k :| 0 <= k < |t| && t[k] == c;
        assert c != t[0];
        assert t[1..][k - 1] == c;
      }
      forall c | c in t[1..]
        ensures c in s[1..]
      {
        var i :| 0 <= i < |t[1..]| && t[1..][i] == c;
        assert t[i + 1] == c && c in t;
        assert CompletionLess(t[0], t[i + 1]);
        var k :| 0 <= k < |s| && s[k] == c;
        assert c != s[0];
        assert s[1..][k - 1] == c;
      }
      SortedUnique(s[1..], t[1..]);
      assert s == [s[0]] + s[1..] && t == [t[0]] + t[1..];
    }
  }

  /**
   `sublime_completions(data, prefix)`: one item per key starting with the
   prefix, and nothing else, in ascending order.
   */
  method SublimeCompletions(data: Table, prefix: string) returns (r: seq<Completion>)
    ensures Sorted(r)
    ensures forall c :: c in r <==> c.key in MatchingKeys(data, prefix) && c == ItemFor(data, c.key)
    ensures |r| == |MatchingKeys(data, prefix)| <= |data|
  {
    var todo := data.Keys;
    r := [];
    while todo != {}
      invariant todo <= data.Keys
      invariant Sorted(r)
      invariant forall c :: c in r <==> c.key in MatchingKeys(data, prefix) - todo && c == ItemFor(data, c.key)
      invariant |r| == |MatchingKeys(data, prefix) - todo|
      decreases todo
    {
      var k :| k in todo;
      if prefix <= k {
        r := Insert(r, ItemFor(data, k));
        assert MatchingKeys(data, prefix) - (todo - {k}) == (MatchingKeys(data, prefix) - todo) + {k};
      } else {
        assert MatchingKeys(data, prefix) - (todo - {k}) == MatchingKeys(data, prefix) - todo;
      }
      todo := todo - {k};
    }
    assert MatchingKeys(data, prefix) <= data.Keys;
  }

  /** The query loop: each typed segment selects the entry's second component, a missing key `{}`. */
  function Descend(v: Value, path: seq<string>): (r: Result<Value>)
    ensures r.Err? ==> r.error == AttributeError
    decreases |path|
  {
    if |path| == 0 then Ok(v)
    else
      match v
      case Dict(t) => Descend(if path[0] in t then t[path[0]].sub else EmptyDict, path[1..])
      case _ => Err(AttributeError)
  }

  /** Along keys that exist, the query reaches the second component of the entry they name. */
  lemma {:induction false} DescendFollows(v: Value, path: seq<string>, e: Entry)
    requires |path| >= 1 && Follow(v, path) == Some(e)
    ensures Descend(v, path) == Ok(e.sub)
    decreases |path|
  {
    if |path| > 1 {
      DescendFollows(v.table[path[0]].sub, path[1..], e);
    }
  }

  lemma {:induction false} DescendEmpty(path: seq<string>)
    ensures Descend(EmptyDict, path) == Ok(EmptyDict)
    decreases |path|
  {
    if |path| > 0 {
      DescendEmpty(path[1..]);
    }
  }

  /** A first segment missing from the starting dict ends the query on an empty dict, whatever follows. */
  lemma DescendMissing(v: Value, path: seq<string>)
    requires v.Dict? && |path| >= 1 && path[0] !in v.table
    ensures Descend(v, path) == Ok(EmptyDict)
  {
    DescendEmpty(path[1..]);
  }

  /**
   A segment missing from the dict reached after `j` segments ends the query
   on an empty dict, whatever follows.
   */
  lemma DescendMissingAt(v: Value, path: seq<string>, j: nat, e: Entry)
    requires 1 <= j < |path| && Follow(v, path[..j]) == Some(e) && e.sub.Dict? && path[j] !in e.sub.table
    ensures Descend(v, path) == Ok(EmptyDict)
    decreases j
  {
    if j > 1 {
      assert path[..j][1..] == path[1..][..j - 1];
      DescendMissingAt(v.table[path[0]].sub, path[1..], j - 1, e);
    } else {
      assert path[..1] == [path[0]];
      DescendMissing(e.sub, path[1..]);
    }
  }

  /**
   A typed segment after a function, a variable, an import whose file was
   not found, or a pair-valued import (each with a second component that is
   not a dict) raises instead of giving `{}`.
   */
  lemma DescendPastLeafRaises(v: Value, path: seq<string>, j: nat, e: Entry)
    requires 1 <= j < |path| && Follow(v, path[..j]) == Some(e) && !e.sub.Dict?
    ensures Descend(v, path) == Err(AttributeError)
    decreases j
  {
    if j > 1 {
      assert path[..j][1..] == path[1..][..j - 1];
      DescendPastLeafRaises(v.table[path[0]].sub, path[1..], j - 1, e);
    } else {
      assert path[..1] == [path[0]];
    }
  }

  /**
   `on_query_completions` once the typed path is known: build the table with
   import following on, descend, and list the matching keys of the table
   reached; anything raised along the way is the outcome.
   */
  method OnQueryCompletions(env: Visitor.Env, tree: Node, path: seq<string>, prefix: string)
    returns (r: Result<seq<Completion>>)
    ensures r.Ok? <==>
      && Visitor.AstParser(env, tree, true).Ok?
      && Descend(Dict(Visitor.AstParser(env, tree, true).value), path).Ok?
      && Descend(Dict(Visitor.AstParser(env, tree, true).value), path).value.Dict?
    ensures r.Ok? ==>
      var t := Descend(Dict(Visitor.AstParser(env, tree, true).value), path).value.table;
      && Sorted(r.value)
      && forall c :: c in r.value <==> c.key in MatchingKeys(t, prefix) && c == ItemFor(t, c.key)
  {
    var built := Visitor.AstParser(env, tree, true);
    if built.Err? {
      return Err(built.error);
    }
    var reached := Descend(Dict(built.value), path);
    if reached.Err? {
      return Err(reached.error);
    }
    if !reached.value.Dict? {
      // `.items()` on None or on an entry pair
      return Err(AttributeError);
    }
    var items := SublimeCompletions(reached.value.table, prefix);
    return Ok(items);
  }
}
