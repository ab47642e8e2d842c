/** Finite directed graphs kept as "vertex to set of successors", the shape of `_lockHistory`. */
module LockGraph {

  type Graph = map<nat, set<nat>>

  predicate Edge(g: Graph, u: nat, v: nat) {
    u in g && v in g[u]
  }

  function WithEdge(g: Graph, u: nat, v: nat): Graph {
    g[u := (if u in g then g[u] else {}) + {v}]
  }

  /** Every vertex that occurs is below n. */
  predicate Bounded(g: Graph, n: nat) {
    forall u <- g :: u < n && forall v <- g[u] :: v < n
  }

  predicate Loopless(g: Graph) {
    forall u <- g :: u !in g[u]
  }

  predicate Walk(g: Graph, p: seq<nat>) {
    && |p| >= 2
    && forall i :: 0 <= i < |p| - 1 ==> Edge(g, p[i], p[i + 1])
  }

  predicate WalkBetween(g: Graph, p: seq<nat>, u: nat, v: nat) {
    Walk(g, p) && p[0] == u && p[|p| - 1] == v
  }

  ghost predicate Reaches(g: Graph, u: nat, v: nat) {
    exists p :: WalkBetween(g, p, u, v)
  }

  ghost predicate HasCycle(g: Graph) {
    exists u :: Reaches(g, u, u)
  }

  lemma ReachesByEdge(g: Graph, u: nat, v: nat)
    requires Edge(g, u, v)
    ensures Reaches(g, u, v)
  {
    assert WalkBetween(g, [u, v], u, v);
  }

  lemma ReachesTransitive(g: Graph, u: nat, v: nat, w: nat)
    requires Reaches(g, u, v) && Reaches(g, v, w)
    ensures Reaches(g, u, w)
  {
    var p :| WalkBetween(g, p, u, v);
    var q :| WalkBetween(g, q, v, w);
    var r := p + q[1..];
    forall i | 0 <= i < |r| - 1 ensures Edge(g, r[i], r[i + 1]) {
      if i >= |p| - 1 {
        assert r[i] == q[i - (|p| - 1)] && r[i + 1] == q[i - (|p| - 1) + 1];
      }
    }
    assert WalkBetween(g, r, u, w);
  }

  lemma WalkMonotone(g: Graph, h: Graph, u: nat, v: nat)
    requires forall x: nat, y: nat :: Edge(g, x, y) ==> Edge(h, x, y)
    requires Reaches(g, u, v)
    ensures Reaches(h, u, v)
  {
    var p :| WalkBetween(g, p, u, v);
    assert WalkBetween(h, p, u, v);
  }

  /** A ranking that drops along every edge rules out cycles. */
  ghost predicate Ranks(g: Graph, rank: seq<int>) {
    forall u: nat, v: nat :: Edge(g, u, v) ==> u < |rank| && v < |rank| && rank[v] < rank[u]
  }

  lemma {:induction false} RankFalls(g: Graph, rank: seq<int>, p: seq<nat>)
    requires Ranks(g, rank) && Walk(g, p)
    ensures p[0] < |rank| && p[|p| - 1] < |rank| && rank[p[|p| - 1]] < rank[p[0]]
    decreases |p|
  {
    assert Edge(g, p[0], p[1]);
    if |p| > 2 {
      RankFalls(g, rank, p[1..]);
    }
  }

  lemma RankedIsAcyclic(g: Graph, rank: seq<int>)
    requires Ranks(g, rank)
    ensures !HasCycle(g)
  {
    if HasCycle(g) {
      var u :| Reaches(g, u, u);
      var p :| WalkBetween(g, p, u, u);
      RankFalls(g, rank, p);
    }
  }

  /** A walk from v to u in the graph with the extra edge u -> v contains one that does not use it. */
  lemma {:induction false} AvoidNewEdge(g: Graph, u: nat, v: nat, p: seq<nat>)
    requires u != v && WalkBetween(WithEdge(g, u, v), p, v, u)
    ensures Reaches(g, v, u)
    decreases |p|
  {
    if i :| 0 < i < |p| - 1 && p[i] == u {
      AvoidNewEdge(g, u, v, p[..i + 1]);
    } else {
      assert WalkBetween(g, p, v, u);
    }
  }

  /** Adding one edge to an acyclic graph closes a cycle exactly when its head already reaches its tail. */
  lemma NewEdgeClosesCycle(g: Graph, u: nat, v: nat)
    requires u != v && !HasCycle(g)
    ensures HasCycle(WithEdge(g, u, v)) <==> Reaches(g, v, u)
  {
    var h := WithEdge(g, u, v);
    if Reaches(g, v, u) {
      WalkMonotone(g, h, v, u);
      ReachesByEdge(h, u, v);
      ReachesTransitive(h, v, u, v);
    }
    if HasCycle(h) {
      var x :| Reaches(h, x, x);
      var p :| WalkBetween(h, p, x, x);
      if i :| 0 <= i < |p| - 1 && p[i] == u && p[i + 1] == v {
        RotateToNewEdge(h, u, v, x, p, i);
        var q :| WalkBetween(h, q, v, u);
        AvoidNewEdge(g, u, v, q);
      } else {
        assert WalkBetween(g, p, x, x);
        assert Reaches(g, x, x);
      }
    }
  }

  lemma RotateToNewEdge(h: Graph, u: nat, v: nat, x: nat, p: seq<nat>, i: nat)
    requires WalkBetween(h, p, x, x) && u != v
    requires i < |p| - 1 && p[i] == u && p[i + 1] == v
    ensures Reaches(h, v, u)
  {
    var q := p[i + 1..] + p[1..i + 1];
    var k := |p| - 1 - i;
    forall j | 0 <= j < |q| - 1 ensures Edge(h, q[j], q[j + 1]) {
      if j < k - 1 {
        assert q[j] == p[i + 1 + j] && q[j + 1] == p[i + 2 + j];
      } else if j == k - 1 {
        assert q[j] == p[|p| - 1] == p[0] && q[j + 1] == p[1];
      } else {
        assert q[j] == p[1 + j - k] && q[j + 1] == p[2 + j - k];
      }
    }
    assert q[0] == v;
    assert q[|q| - 1] == u;
    assert WalkBetween(h, q, v, u);
  }
}
