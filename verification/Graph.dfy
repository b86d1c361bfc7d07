/** Paths, reachability and cycles over an edge list. */
module Graph {
  import opened Prelude
  import opened Dag

  ghost predicate Adjacent(edges: seq<DagEdge>, p: seq<string>, i: int)
    requires 0 <= i < |p| - 1
  {
    DagEdge(p[i], p[i + 1]) in edges
  }

  ghost predicate IsPath(edges: seq<DagEdge>, p: seq<string>) {
    |p| >= 1 && forall i :: 0 <= i < |p| - 1 ==> Adjacent(edges, p, i)
  }

  ghost predicate PathFromTo(edges: seq<DagEdge>, p: seq<string>, a: string, b: string) {
    IsPath(edges, p) && p[0] == a && p[|p| - 1] == b
  }

  /** There is a path of at least one edge from `a` to `b`. */
  ghost predicate Reaches(edges: seq<DagEdge>, a: string, b: string) {
    exists p :: PathFromTo(edges, p, a, b) && |p| >= 2
  }

  ghost predicate Acyclic(edges: seq<DagEdge>) {
    forall x :: !Reaches(edges, x, x)
  }

  lemma PathCons(edges: seq<DagEdge>, a: string, p: seq<string>)
    requires IsPath(edges, p) && DagEdge(a, p[0]) in edges
    ensures IsPath(edges, [a] + p)
  {
    var q := [a] + p;
    forall i | 0 <= i < |q| - 1 ensures Adjacent(edges, q, i) {
      if i > 0 {
        assert Adjacent(edges, p, i - 1);
      }
    }
  }

  lemma PathSuffix(edges: seq<DagEdge>, p: seq<string>, i: nat)
    requires IsPath(edges, p) && i < |p|
    ensures IsPath(edges, p[i..])
  {
    forall k | 0 <= k < |p[i..]| - 1 ensures Adjacent(edges, p[i..], k) {
      assert Adjacent(edges, p, i + k);
    }
  }

  lemma PathPrefix(edges: seq<DagEdge>, p: seq<string>, i: nat)
    requires IsPath(edges, p) && i < |p|
    ensures IsPath(edges, p[..i + 1])
  {
    var q := p[..i + 1];
    forall k | 0 <= k < |q| - 1 ensures Adjacent(edges, q, k) {
      assert Adjacent(edges, p, k);
    }
  }

  lemma PathJoin(edges: seq<DagEdge>, p: seq<string>, q: seq<string>)
    requires IsPath(edges, p) && IsPath(edges, q) && p[|p| - 1] == q[0]
    ensures IsPath(edges, p + q[1..])
  {
    var r := p + q[1..];
    forall k | 0 <= k < |r| - 1 ensures Adjacent(edges, r, k) {
      if k < |p| - 1 {
        assert Adjacent(edges, p, k);
      } else {
        assert Adjacent(edges, q, k - (|p| - 1));
      }
    }
  }

  lemma EdgeReaches(edges: seq<DagEdge>, a: string, b: string)
    requires DagEdge(a, b) in edges
    ensures Reaches(edges, a, b)
  {
    PathCons(edges, a, [b]);
    assert PathFromTo(edges, [a] + [b], a, b);
  }

  lemma ReachesTrans(edges: seq<DagEdge>, a: string, b: string, c: string)
    requires Reaches(edges, a, b) && Reaches(edges, b, c)
    ensures Reaches(edges, a, c)
  {
    var p :| PathFromTo(edges, p, a, b) && |p| >= 2;
    var q :| PathFromTo(edges, q, b, c) && |q| >= 2;
    PathJoin(edges, p, q);
    assert PathFromTo(edges, p + q[1..], a, c);
  }
}
