/**
 Candidate files for a dotted import path (`generate_full_paths`): for each
 root in order, for each prefix length from the whole path down to one
 segment, the file `root/<prefix joined by "/">.py` when it exists, paired
 with the segments the prefix leaves over.
 */
module SearchPath {
  import opened Wrappers
  import opened Tables

  /** `posixpath.join(a, b)`: an absolute `b` wins, otherwise one separator between. */
  function PathJoin(a: string, b: string): string
  {
    if |b| > 0 && b[0] == '/' then b
    else if |a| == 0 || a[|a| - 1] == '/' then a + b
    else a + "/" + b
  }

  /** `os.path.join(root, "/".join(prefix)) + ".py"`. */
  function TryPath(root: string, prefix: seq<string>): string
  {
    PathJoin(root, JoinWith("/", prefix)) + ".py"
  }

  /** An import segment as the parser gives it: a non-empty name without a slash. */
  predicate PlainSegments(segs: seq<string>)
  {
    forall i :: 0 <= i < |segs| ==> |segs[i]| > 0 && '/' !in segs[i]
  }

  /** A join starts with its first piece. */
  lemma {:induction false} JoinStartsWithFirst(sep: string, parts: seq<string>)
    requires |parts| >= 1
    ensures |JoinWith(sep, parts)| >= |parts[0]|
    ensures JoinWith(sep, parts)[..|parts[0]|] == parts[0]
  {
    if |parts| > 1 {
      assert JoinWith(sep, parts) == parts[0] + (sep + JoinWith(sep, parts[1..]));
    }
  }

  /**
   Different prefixes of plain segments probe different files under the same
   root: the file name determines the prefix it was built from.
   */
  lemma TryPathInjective(root: string, p: seq<string>, q: seq<string>)
    requires |p| >= 1 && |q| >= 1 && PlainSegments(p) && PlainSegments(q)
    ensures TryPath(root, p) == TryPath(root, q) <==> p == q
  {
    if TryPath(root, p) == TryPath(root, q) {
      var bp := JoinWith("/", p);
      var bq := JoinWith("/", q);
      JoinStartsWithFirst("/", p);
      JoinStartsWithFirst("/", q);
      assert bp[0] == p[0][0] && bq[0] == q[0][0];
      assert p[0][0] in p[0] && q[0][0] in q[0];
      var pre := if |root| == 0 || root[|root| - 1] == '/' then root else root + "/";
      assert PathJoin(root, bp) == pre + bp;
      assert PathJoin(root, bq) == pre + bq;
      var x := pre + bp;
      var y := pre + bq;
      assert x + ".py" == y + ".py";
      assert |x| == |y|;
      assert x == (x + ".py")[..|x|] == (y + ".py")[..|y|] == y;
      assert bp == x[|pre|..] == y[|pre|..] == bq;
      assert "/" == ['/'];
      SplitJoin(p, '/');
      SplitJoin(q, '/');
    }
  }

  /** One iteration of the two loops: root index and prefix length. */
  datatype Probe = Probe(root: nat, len: nat)

  /** A yielded pair: the file found and the segments after the prefix. */
  datatype Candidate = Candidate(file: string, leftover: seq<string>)

  /** Iteration order: earlier roots first, and within a root longer prefixes first. */
  predicate Before(p: Probe, q: Probe)
  {
    p.root < q.root || (p.root == q.root && p.len > q.len)
  }

  predicate Ordered(ps: seq<Probe>)
  {
    forall j, k :: 0 <= j < k < |ps| ==> Before(ps[j], ps[k])
  }

  /** `for i in range(len(path), 0, -1)` for one root. */
  function RootProbes(root: nat, i: nat): (r: seq<Probe>)
    ensures |r| == i
    ensures forall k :: 0 <= k < i ==> r[k] == Probe(root, i - k)
  {
    if i == 0 then [] else [Probe(root, i)] + RootProbes(root, i - 1)
  }

  /** Both loops, starting at root index `r`. */
  function ProbesFrom(r: nat, nRoots: nat, n: nat): (ps: seq<Probe>)
    ensures forall p :: p in ps <==> r <= p.root < nRoots && 1 <= p.len <= n
    ensures forall k :: 0 <= k < |ps| ==> r <= ps[k].root
    ensures Ordered(ps)
    decreases nRoots - r
  {
    if r >= nRoots then []
    else
      var head := RootProbes(r, n);
      var tail := ProbesFrom(r + 1, nRoots, n);
      assert forall p :: p in head <==> p.root == r && 1 <= p.len <= n by {
        forall p: Probe | p.root == r && 1 <= p.len <= n
          ensures p in head
        {
          assert head[n - p.len] == p;
        }
      }
      head + tail
  }

  function Probes(nRoots: nat, n: nat): seq<Probe>
  {
    ProbesFrom(0, nRoots, n)
  }

  predicate Valid(roots: seq<string>, path: seq<string>, p: Probe)
  {
    p.root < |roots| && 1 <= p.len <= |path|
  }

  /** The existence test `os.path.isfile(trypath)` passes for this probe. */
  predicate Hit(roots: seq<string>, path: seq<string>, isFile: string -> bool, p: Probe)
    requires Valid(roots, path, p)
  {
    isFile(TryPath(roots[p.root], path[..p.len]))
  }

  function CandidateOf(roots: seq<string>, path: seq<string>, p: Probe): Candidate
    requires Valid(roots, path, p)
  {
    Candidate(TryPath(roots[p.root], path[..p.len]), path[p.len..])
  }

  /**
   Within one root, the prefix lengths the inner loop tries all name
   different files, so the loop never tests the same file twice.
   */
  lemma DistinctLengthsDistinctFiles(roots: seq<string>, path: seq<string>, p: Probe, q: Probe)
    requires PlainSegments(path)
    requires Valid(roots, path, p) && Valid(roots, path, q) && p.root == q.root
    ensures CandidateOf(roots, path, p).file == CandidateOf(roots, path, q).file <==> p.len == q.len
  {
    var a := path[..p.len];
    var b := path[..q.len];
    assert PlainSegments(a) by {
      forall i | 0 <= i < |a| ensures |a[i]| > 0 && '/' !in a[i] {
        assert a[i] == path[i];
      }
    }
    assert PlainSegments(b) by {
      forall i | 0 <= i < |b| ensures |b[i]| > 0 && '/' !in b[i] {
        assert b[i] == path[i];
      }
    }
    TryPathInjective(roots[p.root], a, b);
    assert a == b ==> |a| == |b|;
  }

  /** A probe before every probe of an ordered list can lead it. */
  lemma OrderedCons(x: Probe, rest: seq<Probe>)
    requires Ordered(rest) && forall q :: q in rest ==> Before(x, q)
    ensures Ordered([x] + rest)
  {
    var l := [x] + rest;
    forall j, k | 0 <= j < k < |l|
      ensures Before(l[j], l[k])
    {
      assert l[k] == rest[k - 1] && rest[k - 1] in rest;
      if j > 0 {
        assert l[j] == rest[j - 1];
      }
    }
  }

  /** The probes whose file exists, in iteration order. */
  function HitProbes(roots: seq<string>, path: seq<string>, isFile: string -> bool, ps: seq<Probe>): (hs: seq<Probe>)
    requires forall p :: p in ps ==> Valid(roots, path, p)
    ensures forall p :: p in hs <==> p in ps && Hit(roots, path, isFile, p)
    ensures Ordered(ps) ==> Ordered(hs)
  {
    if |ps| == 0 then []
    else
      var rest := HitProbes(roots, path, isFile, ps[1..]);
      assert forall p :: p in ps <==> p == ps[0] || p in ps[1..];
      assert Ordered(ps) ==> Ordered(ps[1..]) && forall q :: q in ps[1..] ==> Before(ps[0], q) by {
        if Ordered(ps) {
          forall q | q in ps[1..]
            ensures Before(ps[0], q)
          {
            var k :| 0 <= k < |ps[1..]| && ps[1..][k] == q;
            assert ps[k + 1] == q;
          }
        }
      }
      if Hit(roots, path, isFile, ps[0]) then
        if Ordered(ps) then OrderedCons(ps[0], rest); [ps[0]] + rest
        else [ps[0]] + rest
      else rest
  }

  function CandidatesOf(roots: seq<string>, path: seq<string>, hs: seq<Probe>): (cs: seq<Candidate>)
    requires forall p :: p in hs ==> Valid(roots, path, p)
    ensures |cs| == |hs| && forall k :: 0 <= k < |hs| ==> cs[k] == CandidateOf(roots, path, hs[k])
  {
    if |hs| == 0 then [] else [CandidateOf(roots, path, hs[0])] + CandidatesOf(roots, path, hs[1..])
  }

  /** The probes `generate_full_paths` yields for, in order. */
  function YieldingProbes(roots: seq<string>, path: seq<string>, isFile: string -> bool): (hs: seq<Probe>)
    ensures forall p :: p in hs <==> Valid(roots, path, p) && Hit(roots, path, isFile, p)
    ensures Ordered(hs)
  {
    HitProbes(roots, path, isFile, Probes(|roots|, |path|))
  }

  /** Everything `generate_full_paths(path)` yields over the roots, in order. */
  function GenerateFullPaths(roots: seq<string>, path: seq<string>, isFile: string -> bool): seq<Candidate>
  {
    var hs := YieldingProbes(roots, path, isFile);
    CandidatesOf(roots, path, hs)
  }

  /**
   `c` is what the loops yield for probe `p`: the probe is in range, its file
   passed the existence test, it was built from the non-empty prefix
   `path[..p.len]`, and its leftover is the rest of the path.
   */
  predicate YieldedBy(roots: seq<string>, path: seq<string>, isFile: string -> bool, c: Candidate, p: Probe)
  {
    && Valid(roots, path, p)
    && c == CandidateOf(roots, path, p)
    && isFile(c.file)
    && 1 <= p.len
    && c.leftover == path[p.len..]
  }

  /** Every candidate is yielded by a probe whose file exists. */
  lemma GenerateFullPathsSound(roots: seq<string>, path: seq<string>, isFile: string -> bool, c: Candidate)
    requires c in GenerateFullPaths(roots, path, isFile)
    ensures exists p :: YieldedBy(roots, path, isFile, c, p)
  {
    var hs := YieldingProbes(roots, path, isFile);
    var cs := GenerateFullPaths(roots, path, isFile);
    var k :| 0 <= k < |cs| && cs[k] == c;
    assert hs[k] in hs;
    assert YieldedBy(roots, path, isFile, c, hs[k]);
  }

  /** Every probe whose file exists is yielded. */
  lemma GenerateFullPathsComplete(roots: seq<string>, path: seq<string>, isFile: string -> bool, p: Probe)
    requires Valid(roots, path, p) && Hit(roots, path, isFile, p)
    ensures CandidateOf(roots, path, p) in GenerateFullPaths(roots, path, isFile)
  {
    var hs := YieldingProbes(roots, path, isFile);
    var cs := GenerateFullPaths(roots, path, isFile);
    var k :| 0 <= k < |hs| && hs[k] == p;
    assert cs[k] == CandidateOf(roots, path, p);
  }

  /** The candidates come out in root order, and within one root longest prefix first. */
  lemma GenerateFullPathsOrder(roots: seq<string>, path: seq<string>, isFile: string -> bool, j: nat, k: nat)
    requires j < k < |GenerateFullPaths(roots, path, isFile)|
    ensures exists pj, pk ::
              && YieldedBy(roots, path, isFile, GenerateFullPaths(roots, path, isFile)[j], pj)
              && YieldedBy(roots, path, isFile, GenerateFullPaths(roots, path, isFile)[k], pk)
              && Before(pj, pk)
  {
    var hs := YieldingProbes(roots, path, isFile);
    var cs := GenerateFullPaths(roots, path, isFile);
    assert hs[j] in hs && hs[k] in hs;
    assert YieldedBy(roots, path, isFile, cs[j], hs[j]);
    assert YieldedBy(roots, path, isFile, cs[k], hs[k]);
  }

  /** No probe before the first yielding one has an existing file. */
  lemma FirstYieldIsEarliest(roots: seq<string>, path: seq<string>, isFile: string -> bool, q: Probe)
    requires |YieldingProbes(roots, path, isFile)| > 0
    requires Valid(roots, path, q) && Hit(roots, path, isFile, q)
    ensures !Before(q, YieldingProbes(roots, path, isFile)[0])
  {
    var hs := YieldingProbes(roots, path, isFile);
    var k :| 0 <= k < |hs| && hs[k] == q;
  }

  /** `next(generate_full_paths(path), (None, None))`. */
  function FirstCandidate(roots: seq<string>, path: seq<string>, isFile: string -> bool): Option<Candidate>
  {
    var hs := YieldingProbes(roots, path, isFile);
    if |hs| == 0 then None else Some(CandidateOf(roots, path, hs[0]))
  }

  /**
   What `next` takes from the generator: None exactly when no probe file
   exists, otherwise the candidate of an existing probe that no existing
   probe precedes.
   */
  lemma FirstCandidateIsEarliestHit(roots: seq<string>, path: seq<string>, isFile: string -> bool)
    ensures FirstCandidate(roots, path, isFile).None? <==> forall p :: Valid(roots, path, p) ==> !Hit(roots, path, isFile, p)
    ensures FirstCandidate(roots, path, isFile).Some? ==> exists p ::
              && YieldedBy(roots, path, isFile, FirstCandidate(roots, path, isFile).value, p)
              && forall q :: Valid(roots, path, q) && Before(q, p) ==> !Hit(roots, path, isFile, q)
  {
    var hs := YieldingProbes(roots, path, isFile);
    if |hs| > 0 {
      var p := hs[0];
      assert p in hs;
      assert forall q :: Valid(roots, path, q) && Hit(roots, path, isFile, q) ==> !Before(q, p) by {
        forall q | Valid(roots, path, q) && Hit(roots, path, isFile, q) {
          FirstYieldIsEarliest(roots, path, isFile, q);
        }
      }
      assert YieldedBy(roots, path, isFile, FirstCandidate(roots, path, isFile).value, p);
    }
  }

  /** The first candidate is the head of everything the generator yields. */
  lemma FirstCandidateIsHead(roots: seq<string>, path: seq<string>, isFile: string -> bool)
    ensures FirstCandidate(roots, path, isFile).None? <==> |GenerateFullPaths(roots, path, isFile)| == 0
    ensures FirstCandidate(roots, path, isFile).Some? ==>
              FirstCandidate(roots, path, isFile).value == GenerateFullPaths(roots, path, isFile)[0]
  {
  }
}
