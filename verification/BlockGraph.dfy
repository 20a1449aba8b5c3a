/**
 The block graph of tools/qemu/block.c: nodes (BlockDriverState) and edges (BdrvChild).  Nodes and
 edges are numbers.  An edge is in the `children` list of the node that owns it, if a node owns it
 (edges of block backends and of jobs are in no such list), and in the `parents` list of the node
 it points to.
 */
module BlockGraph {
  datatype Graph = Graph(children: map<nat, seq<nat>>, parents: map<nat, seq<nat>>, owner: map<nat, nat>,
                         target: map<nat, nat>)

  /** Lists and pointers agree, as QLIST_INSERT_HEAD and QLIST_REMOVE keep them. */
  ghost predicate WellFormed(g: Graph) {
    && g.children.Keys == g.parents.Keys
    && (forall e {:trigger g.target[e]} :: e in g.target ==> g.target[e] in g.parents && e in g.parents[g.target[e]])
    && (forall e {:trigger g.owner[e]} :: e in g.owner ==> g.owner[e] in g.children && e in g.children[g.owner[e]])
    && (forall n, e {:trigger e in g.parents[n]} :: n in g.parents && e in g.parents[n] ==>
         e in g.target && g.target[e] == n)
    && (forall n, e {:trigger e in g.children[n]} :: n in g.children && e in g.children[n] ==>
          e in g.owner && g.owner[e] == n && e in g.target)
  }

  /** An edge leads from `a` to `b`. */
  ghost predicate Step(g: Graph, a: nat, b: nat) {
    a in g.children && exists e :: e in g.children[a] && e in g.target && g.target[e] == b
  }

  ghost predicate IsPath(g: Graph, path: seq<nat>) {
    && |path| > 0 && path[0] in g.children
    && forall i :: 0 <= i < |path| - 1 ==> Step(g, path[i], path[i + 1])
  }

  ghost predicate PathFromTo(g: Graph, path: seq<nat>, a: nat, b: nat) {
    IsPath(g, path) && path[0] == a && path[|path| - 1] == b
  }

  ghost predicate Reaches(g: Graph, a: nat, b: nat) {
    exists path :: PathFromTo(g, path, a, b)
  }

  /** No edge closes a cycle. */
  ghost predicate Acyclic(g: Graph) {
    forall a, b :: Step(g, a, b) ==> !Reaches(g, b, a)
  }

  /** The nodes in the subtree of `n`, `n` included. */
  ghost function Reach(g: Graph, n: nat): set<nat> {
    set m | m in g.children && Reaches(g, n, m)
  }

  /** The edges in the subtree of `n`. */
  ghost function Below(g: Graph, n: nat): set<nat> {
    set m, e | m in Reach(g, n) && e in g.children[m] :: e
  }

  /** `height` falls along every edge. */
  ghost predicate Ranked(g: Graph, height: map<nat, nat>) {
    && height.Keys == g.children.Keys
    && forall n, e {:trigger e in g.children[n]} | n in g.children && e in g.children[n] ::
         e in g.target && g.target[e] in height && height[g.target[e]] < height[n]
  }

  lemma ReachesSelf(g: Graph, n: nat)
    requires n in g.children
    ensures Reaches(g, n, n) && n in Reach(g, n)
  {
    assert PathFromTo(g, [n], n, n);
  }

  lemma ReachesStep(g: Graph, a: nat, b: nat, c: nat)
    requires Step(g, a, b) && Reaches(g, b, c)
    ensures Reaches(g, a, c)
  {
    var path :| PathFromTo(g, path, b, c);
    var longer := [a] + path;
    forall i | 0 <= i < |longer| - 1 ensures Step(g, longer[i], longer[i + 1]) {
      if i > 0 { assert Step(g, path[i - 1], path[i - 1 + 1]); }
    }
    assert PathFromTo(g, longer, a, c);
  }

  lemma ReachesThenStep(g: Graph, a: nat, b: nat, c: nat)
    requires Reaches(g, a, b) && Step(g, b, c)
    ensures Reaches(g, a, c)
  {
    var path :| PathFromTo(g, path, a, b);
    var longer := path + [c];
    forall i | 0 <= i < |longer| - 1 ensures Step(g, longer[i], longer[i + 1]) {
      if i < |path| - 1 { assert Step(g, path[i], path[i + 1]); }
    }
    assert PathFromTo(g, longer, a, c);
  }

  /** Everything reachable from a node is reached by way of one of its edges, or is the node itself. */
  lemma ReachesSplit(g: Graph, a: nat, c: nat) returns (e: nat)
    requires WellFormed(g) && Reaches(g, a, c) && a != c
    ensures a in g.children && e in g.children[a] && Reaches(g, g.target[e], c)
  {
    var path :| PathFromTo(g, path, a, c);
    assert Step(g, path[0], path[0 + 1]);
    e :| e in g.children[a] && e in g.target && g.target[e] == path[1];
    var tail := path[1..];
    forall i | 0 <= i < |tail| - 1 ensures Step(g, tail[i], tail[i + 1]) {
      assert Step(g, path[i + 1], path[i + 1 + 1]);
    }
    assert PathFromTo(g, tail, path[1], c);
  }

  /** Everything reachable from a node, but the node itself, is at the end of an edge in its subtree. */
  lemma ReachesLast(g: Graph, a: nat, c: nat) returns (e: nat)
    requires WellFormed(g) && Reaches(g, a, c) && a != c
    ensures e in Below(g, a) && e in g.target && g.target[e] == c
  {
    var path :| PathFromTo(g, path, a, c);
    var k := |path| - 2;
    assert Step(g, path[k], path[k + 1]);
    e :| e in g.children[path[k]] && e in g.target && g.target[e] == c;
    var init := path[..k + 1];
    forall i | 0 <= i < |init| - 1 ensures Step(g, init[i], init[i + 1]) { assert Step(g, path[i], path[i + 1]); }
    assert PathFromTo(g, init, a, path[k]);
    assert path[k] in Reach(g, a);
  }

  lemma EdgeSteps(g: Graph, n: nat, e: nat)
    requires WellFormed(g) && n in g.children && e in g.children[n]
    ensures e in g.target && g.target[e] in g.children && Step(g, n, g.target[e])
  {
  }

  /** Following an edge of an acyclic graph leads to a strictly smaller subtree. */
  lemma StepShrinks(g: Graph, a: nat, b: nat)
    requires WellFormed(g) && Acyclic(g) && Step(g, a, b)
    ensures Reach(g, b) <= Reach(g, a) - {a}
  {
    forall m | m in Reach(g, b) ensures m in Reach(g, a) { ReachesStep(g, a, b, m); }
  }

  lemma {:induction false} Subsets(s: set<nat>, t: set<nat>)
    requires s <= t
    ensures |s| <= |t|
  {
    assert t == s + (t - s);
    assert |t| == |s| + |t - s|;
  }

  /** A graph is acyclic exactly when its nodes can be ranked: here, by the size of their subtrees. */
  lemma AcyclicIsRanked(g: Graph) returns (height: map<nat, nat>)
    requires WellFormed(g) && Acyclic(g)
    ensures Ranked(g, height)
  {
    height := map n | n in g.children :: |Reach(g, n)|;
    forall n, e | n in g.children && e in g.children[n] ensures height[g.target[e]] < height[n] {
      var m := g.target[e];
      EdgeSteps(g, n, e);
      StepShrinks(g, n, m);
      ReachesSelf(g, n);
      Subsets(Reach(g, m), Reach(g, n) - {n});
    }
  }

  lemma {:induction false} PathFalls(g: Graph, height: map<nat, nat>, path: seq<nat>)
    requires WellFormed(g) && Ranked(g, height) && IsPath(g, path)
    ensures path[|path| - 1] in height && height[path[|path| - 1]] <= height[path[0]]
    decreases |path|
  {
    if |path| > 1 {
      var n := |path| - 1;
      var init := path[..n];
      forall i | 0 <= i < |init| - 1 ensures Step(g, init[i], init[i + 1]) { assert Step(g, path[i], path[i + 1]); }
      PathFalls(g, height, init);
      assert Step(g, path[n - 1], path[n - 1 + 1]);
    }
  }

  lemma RankedIsAcyclic(g: Graph, height: map<nat, nat>)
    requires WellFormed(g) && Ranked(g, height)
    ensures Acyclic(g)
  {
    forall a, b | Step(g, a, b) && Reaches(g, b, a) ensures false {
      var path :| PathFromTo(g, path, b, a);
      PathFalls(g, height, path);
    }
  }

  /** No edge in the subtree of a node of an acyclic graph leads back to the node. */
  lemma BelowAvoids(g: Graph, n: nat, e: nat)
    requires WellFormed(g) && Acyclic(g) && n in g.children && e in Below(g, n)
    ensures e in g.target && g.target[e] != n && g.target[e] in Reach(g, n)
  {
    var m :| m in Reach(g, n) && e in g.children[m];
    EdgeSteps(g, m, e);
    ReachesThenStep(g, n, m, g.target[e]);
  }
}
