/**
 The tag `visit_Function` records for a function: each parameter rendered as
 its stars followed by its name, bracketed when it has a default, joined by
 commas inside parentheses. A decoder recovers the parameter list from the
 tag whenever the names are plain identifiers.
 */
module Signature {
  import opened Wrappers
  import opened Syntax
  import opened Tables

  /** `"*" * n`. */
  function Stars(n: nat): (r: string)
    ensures |r| == n && forall i :: 0 <= i < n ==> r[i] == '*'
  {
    if n == 0 then "" else "*" + Stars(n - 1)
  }

  /** `parse_params(p)` of `visit_Function`. */
  function RenderParam(p: Param): string
  {
    var s := Stars(p.starCount) + p.name;
    if p.hasDefault then "[" + s + "]" else s
  }

  function RenderAll(ps: seq<Param>): (r: seq<string>)
    ensures |r| == |ps| && forall i :: 0 <= i < |ps| ==> r[i] == RenderParam(ps[i])
  {
    if |ps| == 0 then [] else [RenderParam(ps[0])] + RenderAll(ps[1..])
  }

  /** The tag of a function entry: `"(" + ",".join(map(parse_params, params)) + ")"`. */
  function Render(ps: seq<Param>): (r: string)
    ensures |r| >= 2 && r[0] == '(' && r[|r| - 1] == ')'
    ensures |ps| == 0 ==> r == "()"
    ensures |ps| == 1 ==> r == "(" + RenderParam(ps[0]) + ")"
  {
    "(" + JoinWith(",", RenderAll(ps)) + ")"
  }

  /** A name the decoder can read back: non-empty and free of the four separator characters. */
  predicate PlainName(name: string)
  {
    |name| > 0 && forall i :: 0 <= i < |name| ==> name[i] !in {'*', ',', '[', ']'}
  }

  function CountStars(s: string): (n: nat)
    ensures n <= |s|
  {
    if |s| > 0 && s[0] == '*' then 1 + CountStars(s[1..]) else 0
  }

  function DecodeParam(s: string): Param
  {
    var bracketed := |s| >= 2 && s[0] == '[' && s[|s| - 1] == ']';
    var body := if bracketed then s[1..|s| - 1] else s;
    var n := CountStars(body);
    Param(body[n..], n, bracketed)
  }

  function DecodeAll(parts: seq<string>): (r: seq<Param>)
    ensures |r| == |parts|
  {
    if |parts| == 0 then [] else [DecodeParam(parts[0])] + DecodeAll(parts[1..])
  }

  /** Reads a function tag back into its parameter list. */
  function Decode(tag: string): Option<seq<Param>>
  {
    if |tag| < 2 || tag[0] != '(' || tag[|tag| - 1] != ')' then None
    else
      var inner := tag[1..|tag| - 1];
      if |inner| == 0 then Some([]) else Some(DecodeAll(Split(inner, ',')))
  }

  lemma {:induction false} CountStarsPrefix(n: nat, name: string)
    requires |name| > 0 && name[0] != '*'
    ensures CountStars(Stars(n) + name) == n
    decreases n
  {
    if n > 0 {
      CountStarsPrefix(n - 1, name);
      assert (Stars(n) + name)[1..] == Stars(n - 1) + name;
    }
  }

  lemma DecodeRenderParam(p: Param)
    requires PlainName(p.name)
    ensures DecodeParam(RenderParam(p)) == p
    ensures ',' !in RenderParam(p)
  {
    var s := Stars(p.starCount) + p.name;
    CountStarsPrefix(p.starCount, p.name);
    assert s[p.starCount..] == p.name;
    assert s[|s| - 1] == p.name[|p.name| - 1];
    if p.hasDefault {
      assert ("[" + s + "]")[1..|s| + 1] == s;
    } else {
      assert s[0] != '[';
    }
  }

  /** The signature tag is a faithful encoding of a parameter list with plain names. */
  lemma {:induction false} DecodeRender(ps: seq<Param>)
    requires forall i :: 0 <= i < |ps| ==> PlainName(ps[i].name)
    ensures Decode(Render(ps)) == Some(ps)
  {
    var parts := RenderAll(ps);
    var r := Render(ps);
    assert r[1..|r| - 1] == JoinWith(",", parts);
    if |ps| > 0 {
      forall i | 0 <= i < |parts|
        ensures ',' !in parts[i]
      {
        DecodeRenderParam(ps[i]);
      }
      assert [','] == ",";
      SplitJoin(parts, ',');
      DecodeAllRender(ps);
    }
  }

  lemma {:induction false} DecodeAllRender(ps: seq<Param>)
    requires forall i :: 0 <= i < |ps| ==> PlainName(ps[i].name)
    ensures DecodeAll(RenderAll(ps)) == ps
    decreases |ps|
  {
    if |ps| > 0 {
      DecodeRenderParam(ps[0]);
      DecodeAllRender(ps[1..]);
      assert RenderAll(ps)[1..] == RenderAll(ps[1..]);
      assert [ps[0]] + ps[1..] == ps;
    }
  }
}
