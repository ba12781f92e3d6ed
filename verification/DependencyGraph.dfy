/** Dependency contract of a task: the depth-first check, what it decides, and the global
    invariant it maintains over every way tasks come into being or change dependencies. */
module DependencyGraph {
  import opened Basics
  import opened ProjectState

  type Graph = map<string, seq<string>>

  // ---------------------------------------------------------------- reachability

  ghost predicate Path(g: Graph, p: seq<string>) {
    |p| > 0 && forall i | 0 <= i < |p| - 1 :: p[i] in g && p[i+1] in g[p[i]]
  }

  ghost predicate Joins(g: Graph, p: seq<string>, a: string, b: string) {
    Path(g, p) && p[0] == a && p[|p|-1] == b
  }

  ghost predicate Reaches(g: Graph, a: string, b: string) {
    exists p :: Joins(g, p, a, b)
  }

  ghost predicate OnCycle(g: Graph, v: string) {
    exists p :: Joins(g, p, v, v) && |p| > 1
  }

  ghost predicate Acyclic(g: Graph) {
    forall v :: !OnCycle(g, v)
  }

  /** Everything reachable from a lies in the scope and on no cycle. */
  ghost predicate Sound(g: Graph, scope: set<string>, a: string) {
    forall v | Reaches(g, a, v) :: v in scope && !OnCycle(g, v)
  }

  /** As Sound, and no forbidden vertex is reachable either. */
  ghost predicate SoundAvoiding(g: Graph, scope: set<string>, a: string, forbidden: set<string>) {
    forall v | Reaches(g, a, v) :: v in scope && v !in forbidden && !OnCycle(g, v)
  }

  lemma Trivial(g: Graph, a: string)
    ensures Reaches(g, a, a)
  {
    assert Joins(g, [a], a, a);
  }

  lemma JoinPaths(g: Graph, p: seq<string>, q: seq<string>, a: string, b: string, c: string)
    requires Joins(g, p, a, b) && Joins(g, q, b, c)
    ensures Joins(g, p + q[1..], a, c)
  {
    var r := p + q[1..];
    forall i | 0 <= i < |r| - 1 ensures r[i] in g && r[i+1] in g[r[i]] {
      if i >= |p| - 1 {
        assert r[i] == q[i - (|p| - 1)] && r[i+1] == q[i + 1 - (|p| - 1)];
      }
    }
  }

  lemma EdgeThenReach(g: Graph, a: string, c: string, v: string)
    requires a in g && c in g[a] && Reaches(g, c, v)
    ensures Reaches(g, a, v)
    ensures v == a ==> OnCycle(g, a)
  {
    var p :| Joins(g, p, c, v);
    assert Joins(g, [a, c], a, c);
    JoinPaths(g, [a, c], p, a, c, v);
    assert |[a, c] + p[1..]| > 1;
  }

  lemma CycleLeavesByAnEdge(g: Graph, a: string)
    ensures OnCycle(g, a) ==> a in g && exists c :: c in g[a] && Reaches(g, c, a)
  {
    if OnCycle(g, a) {
      var q :| Joins(g, q, a, a) && |q| > 1;
      assert Joins(g, q[1..], q[1], a);
    }
  }

  /** The recursion equation of the depth-first search. */
  lemma SoundUnfolds(g: Graph, scope: set<string>, a: string, forbidden: set<string>)
    requires scope <= g.Keys
    ensures SoundAvoiding(g, scope, a, forbidden) <==>
            a !in forbidden && a in scope &&
            forall c | c in g[a] :: SoundAvoiding(g, scope, c, forbidden + {a})
  {
    Trivial(g, a);
    CycleLeavesByAnEdge(g, a);
    if SoundAvoiding(g, scope, a, forbidden) {
      forall c, v | c in g[a] && Reaches(g, c, v)
        ensures v in scope && v !in forbidden + {a} && !OnCycle(g, v)
      {
        EdgeThenReach(g, a, c, v);
      }
    }
    if a !in forbidden && a in scope && forall c | c in g[a] :: SoundAvoiding(g, scope, c, forbidden + {a}) {
      forall v | Reaches(g, a, v) ensures v in scope && v !in forbidden && !OnCycle(g, v) {
        var p :| Joins(g, p, a, v);
        if |p| > 1 {
          assert Joins(g, p[1..], p[1], v);
          assert SoundAvoiding(g, scope, p[1], forbidden + {a});
        }
      }
    }
  }

  // ---------------------------------------------------------------- redirecting one vertex

  ghost predicate AgreeExceptAt(g: Graph, h: Graph, t: string) {
    forall v | v != t :: (v in g <==> v in h) && (v in g ==> g[v] == h[v])
  }

  /** A path that only leaves vertices other than t is the same path after t's edges change. */
  lemma SamePath(g: Graph, h: Graph, t: string, p: seq<string>)
    requires AgreeExceptAt(g, h, t) && |p| > 0 && t !in p[..|p|-1]
    ensures Path(g, p) <==> Path(h, p)
  {
    forall i | 0 <= i < |p| - 1 ensures p[i] != t {
      assert p[i] == p[..|p|-1][i];
    }
  }

  /** A path from a to a vertex other than its first visit of t can be cut at that visit. */
  lemma FirstVisit(g: Graph, p: seq<string>, a: string, b: string, t: string) returns (q: seq<string>)
    requires Joins(g, p, a, b) && t in p
    ensures Joins(g, q, a, t) && t !in q[..|q|-1] && |q| <= |p|
  {
    var i :| 0 <= i < |p| && p[i] == t && t !in p[..i] by {
      var k :| 0 <= k < |p| && p[k] == t;
      FirstIndex(p, t, k);
    }
    q := p[..i+1];
    assert q[..|q|-1] == p[..i];
  }

  lemma {:induction false} FirstIndex(p: seq<string>, t: string, k: nat)
    requires k < |p| && p[k] == t
    ensures exists i :: 0 <= i < |p| && p[i] == t && t !in p[..i]
  {
    if t in p[..k] {
      var j :| 0 <= j < k && p[..k][j] == t;
      FirstIndex(p, t, j);
    }
  }

  /** If t cannot be reached from d, then d sees the same paths whichever edges t has. */
  lemma SamePathsUnlessReached(g: Graph, h: Graph, t: string, p: seq<string>, d: string, v: string)
    requires AgreeExceptAt(g, h, t) && Joins(h, p, d, v)
    ensures (Joins(g, p, d, v) && t !in p) || Reaches(g, d, t)
  {
    if t in p {
      var q := FirstVisit(h, p, d, v, t);
      SamePath(g, h, t, q);
      assert Joins(g, q, d, t);
    } else {
      SamePath(g, h, t, p);
    }
  }

  lemma SameReach(g: Graph, h: Graph, t: string, d: string)
    requires AgreeExceptAt(g, h, t)
    ensures Reaches(h, d, t) ==> Reaches(g, d, t)
  {
    if p :| Joins(h, p, d, t) {
      var q := FirstVisit(h, p, d, t, t) by { assert p[|p|-1] in p; }
      SamePath(g, h, t, q);
      assert Joins(g, q, d, t);
    }
  }

  /** ... and the same cycles. */
  lemma SameCyclesUnlessReached(g: Graph, h: Graph, t: string, p: seq<string>, d: string, v: string)
    requires AgreeExceptAt(g, h, t) && Joins(h, p, d, v) && OnCycle(h, v)
    ensures OnCycle(g, v) || Reaches(g, d, t)
  {
    var q :| Joins(h, q, v, v) && |q| > 1;
    JoinPaths(h, p, q, d, v, v);
    var r := p + q[1..];
    SamePathsUnlessReached(g, h, t, r, d, v);
    if t !in r {
      forall k | 0 <= k < |q| ensures q[k] != t {
        assert r[|p| - 1 + k] == q[k];
      }
      SamePath(g, h, t, q);
      assert Joins(g, q, v, v);
    }
  }

  /** Checking the new dependencies in the old graph, with t itself forbidden, decides
      soundness of t in the graph that already has the new edges. */
  lemma NewEdgesSound(g: Graph, scope: set<string>, t: string, deps: seq<string>)
    requires scope <= g.Keys
    ensures (forall d | d in deps :: SoundAvoiding(g, scope, d, {t})) <==>
            Sound(g[t := deps], scope + {t}, t)
  {
    var h := g[t := deps];
    if forall d | d in deps :: SoundAvoiding(g, scope, d, {t}) {
      forall v | Reaches(h, t, v) ensures v in scope + {t} && !OnCycle(h, v) {
        SoundAfter(g, scope, t, deps, v);
      }
    }
    if Sound(h, scope + {t}, t) {
      forall d, v | d in deps && Reaches(g, d, v)
        ensures v in scope && v !in {t} && !OnCycle(g, v)
      {
        SoundBefore(g, scope, t, deps, d, v);
      }
    }
  }

  lemma SoundAfter(g: Graph, scope: set<string>, t: string, deps: seq<string>, v: string)
    requires forall d | d in deps :: SoundAvoiding(g, scope, d, {t})
    requires Reaches(g[t := deps], t, v)
    ensures v in scope + {t} && !OnCycle(g[t := deps], v)
  {
    var h := g[t := deps];
    CycleLeavesByAnEdge(h, t);
    forall d | d in deps ensures !Reaches(h, d, t) {
      SameReach(g, h, t, d);
    }
    var p :| Joins(h, p, t, v);
    if |p| > 1 {
      var d := p[1];
      assert Joins(h, p[1..], d, v);
      SamePathsUnlessReached(g, h, t, p[1..], d, v);
      if OnCycle(h, v) { SameCyclesUnlessReached(g, h, t, p[1..], d, v); }
    }
  }

  lemma SoundBefore(g: Graph, scope: set<string>, t: string, deps: seq<string>, d: string, v: string)
    requires Sound(g[t := deps], scope + {t}, t)
    requires d in deps && Reaches(g, d, v)
    ensures v in scope && v != t && !OnCycle(g, v)
  {
    var h := g[t := deps];
    Trivial(h, t);
    assert !Reaches(h, d, t) by {
      if Reaches(h, d, t) { EdgeThenReach(h, t, d, t); }
    }
    var p :| Joins(g, p, d, v);
    SamePathsUnlessReached(h, g, t, p, d, v);
    assert p[|p|-1] in p;
    EdgeThenReach(h, t, d, v);
    if OnCycle(g, v) { SameCyclesUnlessReached(h, g, t, p, d, v); }
  }

  lemma CycleAfterRedirect(g: Graph, h: Graph, t: string, v: string)
    requires AgreeExceptAt(g, h, t)
    ensures OnCycle(h, v) ==> OnCycle(g, v) || OnCycle(h, t)
  {
    if p :| Joins(h, p, v, v) && |p| > 1 {
      if t in p {
        var i :| 0 <= i < |p| && p[i] == t;
        assert Joins(h, p[i..], t, v) && Joins(h, p[..i+1], v, t);
        JoinPaths(h, p[i..], p[..i+1], t, v, t);
      } else {
        SamePath(g, h, t, p);
        assert Joins(g, p, v, v);
      }
    }
  }

  /** Redirecting t to dependencies that are sound for it closes no cycle anywhere. */
  lemma RedirectKeepsAcyclic(g: Graph, scope: set<string>, t: string, deps: seq<string>)
    requires Acyclic(g) && Sound(g[t := deps], scope, t)
    ensures Acyclic(g[t := deps])
  {
    var h := g[t := deps];
    Trivial(h, t);
    forall v ensures !OnCycle(h, v) {
      CycleAfterRedirect(g, h, t, v);
    }
  }
}
