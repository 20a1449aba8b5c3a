/**
 Why a permission update on the block graph (tools/qemu/block.c) is refused: somewhere below the edge a user does not
 tolerate what is asked for, or a node does not allow what its users then add up to.
 */
module BlockRefusal {
  import opened Common
  import opened BlockGraph
  import opened BlockPermissions

  /** At `n` somebody outside `ignored` does not tolerate `req`, or the node does not allow what all add up to. */
  ghost predicate Obstacle(layer: Layer, edges: Edges, n: nat, req: Perms, ignored: set<nat>)
    requires Sized(layer, edges) && n in layer.g.children
  {
    || (exists e :: e in layer.g.parents[n] && e !in ignored && !Tolerates(req, edges[e].perms))
    || !layer.Allows(n, Accumulate(edges, layer.g.parents[n], ignored, req))
  }

  /** Some node would pass `perms` on along its edge `e`. */
  ghost predicate IsPassedOn(layer: Layer, e: nat, perms: Perms) {
    exists m, cumulative :: m in layer.g.children && e in layer.g.children[m]
                            && perms == layer.childPerms(m, e, cumulative)
  }

  /** Edges have their permissions still, or what their node has passed on meanwhile. */
  ghost predicate Rewritten(layer: Layer, edges: Edges, edges': Edges) {
    forall e :: e in edges && e in edges' && edges'[e].perms != edges[e].perms ==>
      IsPassedOn(layer, e, edges'[e].perms)
  }

  ghost predicate PassesOn(layer: Layer, edges: Edges, n: nat, c: nat, mid: Edges)
    requires Sized(layer, edges) && n in layer.g.children
  {
    c in layer.g.children[n] && Keeps(edges, mid, Below(layer.g, n)) && Rewritten(layer, edges, mid)
  }

  /**
   Asking for `req` at `n` leads to asking for `want` at `m`, when the edges are `now` and those in `ignored'` do not
   count: `n` passes on to each of its children what follows from all its users, and edges below `n` may have been
   rewritten meanwhile.
   */
  ghost predicate LeadsTo(layer: Layer, edges: Edges, n: nat, req: Perms, ignored: set<nat>,
                          now: Edges, m: nat, want: Perms, ignored': set<nat>)
    requires Sized(layer, edges) && n in layer.g.children
    decreases layer.height[n]
  {
    || (now == edges && m == n && want == req && ignored' == ignored)
    || exists c, mid :: PassesOn(layer, edges, n, c, mid)
                        && LeadsTo(layer, mid, layer.g.target[c],
                                   layer.childPerms(n, c, Accumulate(edges, layer.g.parents[n], ignored, req)),
                                   ignored + {c}, now, m, want, ignored')
  }

  lemma RewrittenTrans(layer: Layer, edges: Edges, mid: Edges, edges': Edges)
    requires edges.Keys == mid.Keys && Rewritten(layer, edges, mid) && Rewritten(layer, mid, edges')
    ensures Rewritten(layer, edges, edges')
  {
  }

  /** What is asked for stays in the subtree, and so does what has been rewritten. */
  lemma {:induction false} LeadsBelow(layer: Layer, edges: Edges, n: nat, req: Perms, ignored: set<nat>,
                                      now: Edges, m: nat, want: Perms, ignored': set<nat>)
    requires Sized(layer, edges) && n in layer.g.children
    requires LeadsTo(layer, edges, n, req, ignored, now, m, want, ignored')
    ensures m in Reach(layer.g, n) && Keeps(edges, now, Below(layer.g, n)) && Rewritten(layer, edges, now)
    ensures ignored <= ignored'
    decreases layer.height[n]
  {
    if now == edges && m == n && want == req && ignored' == ignored {
      ReachesSelf(layer.g, n);
    } else {
      var perms := Accumulate(edges, layer.g.parents[n], ignored, req);
      var c, mid :| PassesOn(layer, edges, n, c, mid)
                    && LeadsTo(layer, mid, layer.g.target[c], layer.childPerms(n, c, perms), ignored + {c},
                               now, m, want, ignored');
      LeadsBelow(layer, mid, layer.g.target[c], layer.childPerms(n, c, perms), ignored + {c}, now, m, want, ignored');
      ChildIsBelow(layer.g, n, c);
      KeepsTrans(edges, mid, now, Below(layer.g, n), Below(layer.g, layer.g.target[c]));
      RewrittenTrans(layer, edges, mid, now);
    }
  }

  /** The place at which a check fails: node, edges, request and ignored edges */
  datatype Place = Place(n: nat, edges: Edges, req: Perms, ignored: set<nat>)

  ghost predicate FailsAt(layer: Layer, edges: Edges, n: nat, req: Perms, ignored: set<nat>, p: Place)
    requires Sized(layer, edges) && n in layer.g.children
  {
    && LeadsTo(layer, edges, n, req, ignored, p.edges, p.n, p.req, p.ignored)
    && Sized(layer, p.edges) && p.n in layer.g.children && Obstacle(layer, p.edges, p.n, p.req, p.ignored)
  }

  lemma FailsBelow(layer: Layer, edges: Edges, n: nat, req: Perms, ignored: set<nat>, c: nat, mid: Edges, p: Place)
    requires Sized(layer, edges) && n in layer.g.children && PassesOn(layer, edges, n, c, mid)
    requires FailsAt(layer, mid, layer.g.target[c],
                     layer.childPerms(n, c, Accumulate(edges, layer.g.parents[n], ignored, req)), ignored + {c}, p)
    ensures FailsAt(layer, edges, n, req, ignored, p)
  {
  }

  lemma Regroup(gone: set<nat>, path: set<nat>, c: nat)
    ensures gone + (path + {c}) == gone + path + {c}
  {
  }

  /** The verdict on an edge is that on its node, with the edge ignored. */
  lemma ChildVerdict(layer: Layer, edges: Edges, c: nat, req: Perms, gone: set<nat>, path: set<nat>)
    requires Sized(layer, edges) && c in layer.g.target
    ensures CheckChild(layer, edges, c, req, gone, path).ok <==>
            CheckUpdate(layer, edges, layer.g.target[c], req, gone, path + {c}).ok
  {
  }

  /** The loop fails at child `i`, or it goes on with the edges that the check of the child has left and fails later. */
  lemma LoopVerdict(layer: Layer, edges: Edges, n: nat, i: nat, cumulative: Perms, gone: set<nat>, path: set<nat>)
    requires Sized(layer, edges) && n in layer.g.children && i <= |layer.g.children[n]|
    requires !CheckChildren(layer, edges, n, i, cumulative, gone, path).ok
    ensures i < |layer.g.children[n]| && layer.g.children[n][i] in layer.g.children[n]
    ensures var c := layer.g.children[n][i];
            var after := CheckChild(layer, edges, c, layer.childPerms(n, c, cumulative), gone, path);
            after.ok ==> !CheckChildren(layer, after.edges, n, i + 1, cumulative, gone, path).ok
  {
    assert i < |layer.g.children[n]|;
    assert layer.g.children[n][i] in layer.g.children[n];
  }

  // ---- What a check has rewritten

  lemma {:induction false} ChildrenRewrite(layer: Layer, edges: Edges, n: nat, i: nat, cumulative: Perms,
                                           gone: set<nat>,
                                           path: set<nat>)
    requires Sized(layer, edges) && n in layer.g.children && i <= |layer.g.children[n]|
    requires CheckChildren(layer, edges, n, i, cumulative, gone, path).ok
    ensures Rewritten(layer, edges, CheckChildren(layer, edges, n, i, cumulative, gone, path).edges)
    decreases layer.height[n], 0, |layer.g.children[n]| - i
  {
    if i < |layer.g.children[n]| {
      var c := layer.g.children[n][i];
      var req := layer.childPerms(n, c, cumulative);
      assert c in layer.g.children[n] && IsPassedOn(layer, c, req);
      var after := CheckChild(layer, edges, c, req, gone, path);
      ChildRewrites(layer, edges, c, req, gone, path);
      ChildrenRewrite(layer, after.edges, n, i + 1, cumulative, gone, path);
      RewrittenTrans(layer, edges, after.edges,
                     CheckChildren(layer, after.edges, n, i + 1, cumulative, gone, path).edges);
    }
  }

  lemma {:induction false} UpdateRewrites(layer: Layer, edges: Edges, n: nat, req: Perms, gone: set<nat>,
                                          path: set<nat>)
    requires Sized(layer, edges) && n in layer.g.children && CheckUpdate(layer, edges, n, req, gone, path).ok
    ensures Rewritten(layer, edges, CheckUpdate(layer, edges, n, req, gone, path).edges)
    decreases layer.height[n], 1, 0
  {
    ChildrenRewrite(layer, edges, n, 0, Accumulate(edges, layer.g.parents[n], gone + path, req), gone, path);
  }

  lemma {:induction false} ChildRewrites(layer: Layer, edges: Edges, c: nat, req: Perms, gone: set<nat>, path: set<nat>)
    requires Sized(layer, edges) && c in layer.g.target && CheckChild(layer, edges, c, req, gone, path).ok
    requires IsPassedOn(layer, c, req)
    ensures Rewritten(layer, edges, CheckChild(layer, edges, c, req, gone, path).edges)
    decreases layer.height[layer.g.target[c]], 2, 0
  {
    UpdateRewrites(layer, edges, layer.g.target[c], req, gone, path + {c});
  }

  // ---- Where it fails

  lemma NothingPassedOn(layer: Layer, edges: Edges, n: nat, c: nat)
    requires Sized(layer, edges) && n in layer.g.children && c in layer.g.children[n]
    ensures PassesOn(layer, edges, n, c, edges)
  {
  }

  /** A child that was granted its request leaves edges with which the next one can be asked. */
  lemma PassedOn(layer: Layer, edges: Edges, n: nat, c: nat, cumulative: Perms, gone: set<nat>, path: set<nat>)
    requires Sized(layer, edges) && n in layer.g.children && c in layer.g.children[n]
    requires CheckChild(layer, edges, c, layer.childPerms(n, c, cumulative), gone, path).ok
    ensures PassesOn(layer, edges, n, c,
                     CheckChild(layer, edges, c, layer.childPerms(n, c, cumulative), gone, path).edges)
  {
    var req := layer.childPerms(n, c, cumulative);
    assert IsPassedOn(layer, c, req);
    ChildRewrites(layer, edges, c, req, gone, path);
    ChildKeeps(layer, edges, edges, CheckChild(layer, edges, c, req, gone, path).edges, n, c);
  }

  lemma PassesOnTrans(layer: Layer, edges: Edges, n: nat, c: nat, mid: Edges, c': nat, mid': Edges)
    requires Sized(layer, edges) && Sized(layer, mid) && n in layer.g.children
    requires PassesOn(layer, edges, n, c, mid) && PassesOn(layer, mid, n, c', mid')
    ensures PassesOn(layer, edges, n, c', mid')
  {
    KeepsTrans(edges, mid, mid', Below(layer.g, n), Below(layer.g, n));
    RewrittenTrans(layer, edges, mid, mid');
  }

  /** The loop over the children fails at one of them, after it has rewritten edges of the ones before. */
  lemma {:induction false} ChildrenRefuse(layer: Layer, edges: Edges, n: nat, i: nat, cumulative: Perms, gone: set<nat>,
                                          path: set<nat>) returns (c: nat, mid: Edges, p: Place)
    requires Sized(layer, edges) && n in layer.g.children && i <= |layer.g.children[n]|
    requires !CheckChildren(layer, edges, n, i, cumulative, gone, path).ok
    ensures PassesOn(layer, edges, n, c, mid)
         && FailsAt(layer, mid, layer.g.target[c], layer.childPerms(n, c, cumulative), gone + path + {c}, p)
    decreases layer.height[n], 0, |layer.g.children[n]| - i
  {
    LoopVerdict(layer, edges, n, i, cumulative, gone, path);
    c := layer.g.children[n][i];
    var after := CheckChild(layer, edges, c, layer.childPerms(n, c, cumulative), gone, path);
    if !after.ok {
      p := ChildRefuses(layer, edges, c, layer.childPerms(n, c, cumulative), gone, path);
      mid := edges;
      NothingPassedOn(layer, edges, n, c);
    } else {
      PassedOn(layer, edges, n, c, cumulative, gone, path);
      var first := c;
      c, mid, p := ChildrenRefuse(layer, after.edges, n, i + 1, cumulative, gone, path);
      PassesOnTrans(layer, edges, n, first, after.edges, c, mid);
    }
  }

  lemma {:induction false} ChildRefuses(layer: Layer, edges: Edges, c: nat, req: Perms, gone: set<nat>, path: set<nat>)
    returns (p: Place)
    requires Sized(layer, edges) && c in layer.g.target && !CheckChild(layer, edges, c, req, gone, path).ok
    ensures FailsAt(layer, edges, layer.g.target[c], req, gone + path + {c}, p)
    decreases layer.height[layer.g.target[c]], 2, 0
  {
    ChildVerdict(layer, edges, c, req, gone, path);
    p := UpdateRefuses(layer, edges, layer.g.target[c], req, gone, path + {c});
    Regroup(gone, path, c);
  }

  /** A check that fails has met an obstacle on its way. */
  lemma {:induction false} UpdateRefuses(layer: Layer, edges: Edges, n: nat, req: Perms, gone: set<nat>, path: set<nat>)
    returns (p: Place)
    requires Sized(layer, edges) && n in layer.g.children && !CheckUpdate(layer, edges, n, req, gone, path).ok
    ensures FailsAt(layer, edges, n, req, gone + path, p)
    decreases layer.height[n], 1, 0
  {
    if Obstacle(layer, edges, n, req, gone + path) {
      p := Place(n, edges, req, gone + path);
    } else {
      var cumulative := Accumulate(edges, layer.g.parents[n], gone + path, req);
      var c, mid;
      c, mid, p := ChildrenRefuse(layer, edges, n, 0, cumulative, gone, path);
      FailsBelow(layer, edges, n, req, gone + path, c, mid, p);
    }
  }

  /**
   A refused request has a cause.  Asking for it at the node of the edge leads, within the subtree, to a place where a
   user does not tolerate what is asked for there, or the node does not allow what its users then add up to.
   */
  lemma RefusalHasACause(layer: Layer, edges: Edges, c: nat, req: Perms, gone: set<nat>, path: set<nat>)
    returns (p: Place)
    requires Sized(layer, edges) && c in layer.g.target && !CheckChild(layer, edges, c, req, gone, path).ok
    ensures FailsAt(layer, edges, layer.g.target[c], req, gone + path + {c}, p)
    ensures p.n in Reach(layer.g, layer.g.target[c]) && Keeps(edges, p.edges, Below(layer.g, layer.g.target[c]))
    ensures Rewritten(layer, edges, p.edges)
  {
    p := ChildRefuses(layer, edges, c, req, gone, path);
    LeadsBelow(layer, edges, layer.g.target[c], req, gone + path + {c}, p.edges, p.n, p.req, p.ignored);
  }

  lemma UpdateWithoutObstacle(layer: Layer, edges: Edges, n: nat, req: Perms, gone: set<nat>, path: set<nat>)
    requires Sized(layer, edges) && n in layer.g.children && CheckUpdate(layer, edges, n, req, gone, path).ok
    ensures !Obstacle(layer, edges, n, req, gone + path)
  {
  }

  /** What is granted meets no obstacle at its own node. */
  lemma GrantedWithoutObstacle(layer: Layer, edges: Edges, c: nat, req: Perms, gone: set<nat>, path: set<nat>)
    requires Sized(layer, edges) && c in layer.g.target && CheckChild(layer, edges, c, req, gone, path).ok
    ensures !Obstacle(layer, edges, layer.g.target[c], req, gone + path + {c})
  {
    ChildVerdict(layer, edges, c, req, gone, path);
    UpdateWithoutObstacle(layer, edges, layer.g.target[c], req, gone, path + {c});
    Regroup(gone, path, c);
  }

  /** A node without children decides on its own. */
  lemma LeafDecides(layer: Layer, edges: Edges, c: nat, req: Perms, gone: set<nat>, path: set<nat>)
    requires Sized(layer, edges) && c in layer.g.target && layer.g.children[layer.g.target[c]] == []
    ensures CheckChild(layer, edges, c, req, gone, path).ok <==>
            !Obstacle(layer, edges, layer.g.target[c], req, gone + path + {c})
  {
    if CheckChild(layer, edges, c, req, gone, path).ok {
      GrantedWithoutObstacle(layer, edges, c, req, gone, path);
    } else {
      var p := RefusalHasACause(layer, edges, c, req, gone, path);
    }
  }

  // ---- What the tests of a node are for

  /** Nobody writes to a node that is not writable, nor up to the end of one whose size is not aligned. */
  lemma NobodyWritesWhereForbidden(layer: Layer, edges: Edges, n: nat, e: nat)
    requires Coherent(layer, edges) && n in layer.g.children && e in layer.g.parents[n]
    requires Write in edges[e].perms.used || WriteUnchanged in edges[e].perms.used
    ensures layer.info[n].writable
    ensures layer.info[n].sizeAligned || exists d :: d in layer.g.parents[n] && Resize in edges[d].perms.used
  {
    var list := layer.g.parents[n];
    AccumulateUsed(edges, list, {}, Perms({}, ALL), Write);
    AccumulateUsed(edges, list, {}, Perms({}, ALL), WriteUnchanged);
    AccumulateUsed(edges, list, {}, Perms({}, ALL), Resize);
    assert Granted(layer, edges, n, {});
  }
}
