/**
 Replacing a node by another one in the block graph (bdrv_replace_node_common in
 tools/qemu/block.c): the parents of `from` are moved to `to`, except those that must stay and those
 that are themselves in the subtree of `to`.
 */
module BlockReplace {
  import opened Common
  import opened BlockGraph
  import opened BlockPermissions

  // ---- Moving edges

  /** QLIST_REMOVE */
  function Remove(s: seq<nat>, c: nat): seq<nat> {
    if s == [] then [] else if s[0] == c then s[1..] else [s[0]] + Remove(s[1..], c)
  }

  lemma {:induction false} RemoveOne(s: seq<nat>, c: nat)
    requires Distinct(s) && c in s
    ensures |Remove(s, c)| == |s| - 1 && Distinct(Remove(s, c))
    ensures forall e :: e in Remove(s, c) <==> e in s && e != c
  {
    if s[0] != c {
      RemoveOne(s[1..], c);
      forall e ensures e in Remove(s, c) <==> e in s && e != c {
        assert e in s <==> e == s[0] || e in s[1..];
      }
      assert s[0] !in s[1..];
    } else {
      forall e ensures e in s[1..] <==> e in s && e != c {
        assert e in s <==> e == s[0] || e in s[1..];
      }
    }
  }

  /** bdrv_replace_child_noperm: `c` leaves the parents list of its node and goes to the head of `to`'s. */
  function Move(g: Graph, c: nat, to: nat): Graph
    requires c in g.target && g.target[c] in g.parents && to in g.parents
  {
    var parents := g.parents[g.target[c] := Remove(g.parents[g.target[c]], c)];
    Graph(g.children, parents[to := [c] + parents[to]], g.owner, g.target[c := to])
  }

  ghost predicate DistinctParents(g: Graph) {
    forall n :: n in g.parents ==> Distinct(g.parents[n])
  }

  lemma DistinctPrepend(c: nat, s: seq<nat>)
    requires Distinct(s) && c !in s
    ensures Distinct([c] + s)
  {
  }

  lemma MoveParents(g: Graph, c: nat, to: nat, n: nat)
    requires WellFormed(g) && DistinctParents(g) && c in g.target && to in g.parents && n in g.parents
    ensures var g' := Move(g, c, to);
            Distinct(g'.parents[n]) && forall e :: e in g'.parents[n] <==> e in g'.target && g'.target[e] == n
    ensures |Move(g, c, to).parents[n]| ==
            |g.parents[n]| + (if n == to then 1 else 0) - (if n == g.target[c] then 1 else 0)
  {
    var from := g.target[c];
    RemoveOne(g.parents[from], c);
    var rest := g.parents[from := Remove(g.parents[from], c)][n];
    assert forall e :: e in rest <==> e in g.parents[n] && e != c;
    if n == to {
      assert Move(g, c, to).parents[n] == [c] + rest;
      DistinctPrepend(c, rest);
      assert forall e :: e in [c] + rest <==> e == c || e in rest;
    }
  }

  lemma MoveIsWellFormed(g: Graph, c: nat, to: nat)
    requires WellFormed(g) && DistinctParents(g) && c in g.target && to in g.parents
    ensures WellFormed(Move(g, c, to)) && DistinctParents(Move(g, c, to))
  {
    var g' := Move(g, c, to);
    forall n | n in g'.parents
      ensures Distinct(g'.parents[n]) && forall e :: e in g'.parents[n] <==> e in g'.target && g'.target[e] == n
    {
      MoveParents(g, c, to, n);
    }
  }

  // ---- Moving a set of edges at once

  /** The graph in which the edges in `list` lead to `to` */
  ghost predicate Moved(g: Graph, g': Graph, list: set<nat>, to: nat) {
    && g'.children == g.children && g'.owner == g.owner && g'.target.Keys == g.target.Keys
    && forall e {:trigger g'.target[e]} :: e in g.target ==> g'.target[e] == if e in list then to else g.target[e]
  }

  ghost function Lift(g: Graph, to: nat, height: map<nat, nat>): map<nat, nat>
    requires to in height
  {
    map n | n in height :: if n in Reach(g, to) then height[n] else height[n] + height[to] + 1
  }

  /**
   Moving edges that are not in the subtree of `to` keeps the graph acyclic: nodes outside that subtree
   are lifted above it.
   */
  lemma MovedIsRanked(g: Graph, g': Graph, list: set<nat>, to: nat, height: map<nat, nat>)
    requires WellFormed(g) && WellFormed(g') && Moved(g, g', list, to) && to in g.children && list !! Below(g, to)
    requires Ranked(g, height)
    ensures Ranked(g', Lift(g, to, height))
  {
    var height' := Lift(g, to, height);
    ReachesSelf(g, to);
    forall n, e | n in g'.children && e in g'.children[n]
      ensures e in g'.target && g'.target[e] in height' && height'[g'.target[e]] < height'[n]
    {
      if n in Reach(g, to) {
        assert e in Below(g, to);
        EdgeSteps(g, n, e);
        ReachesThenStep(g, to, n, g.target[e]);
      }
    }
  }

  lemma MovedIsAcyclic(g: Graph, g': Graph, list: set<nat>, to: nat)
    requires WellFormed(g) && Acyclic(g) && WellFormed(g') && Moved(g, g', list, to) && to in g.children
    requires list !! Below(g, to)
    ensures Acyclic(g')
  {
    var height := AcyclicIsRanked(g);
    MovedIsRanked(g, g', list, to, height);
    RankedIsAcyclic(g', Lift(g, to, height));
  }

  // ---- should_update_child

  /** The first `k` edges of `v` are not `c`, and lead to nodes found. */
  ghost predicate LookedThrough(g: Graph, c: nat, v: nat, k: nat, found: set<nat>)
  {
    v in g.children && k <= |g.children[v]|
    && forall i :: 0 <= i < k ==>
         g.children[v][i] != c && g.children[v][i] in g.target && g.target[g.children[v][i]] in found
  }

  /**
   Every node found is reachable; unless the edge has turned up, a node found is queued or has been looked through.
   */
  ghost predicate SearchInv(g: Graph, c: nat, to: nat, found: set<nat>, queue: seq<nat>, ret: bool) {
    && to in found && found <= Reach(g, to)
    && (forall v :: v in queue ==> v in found)
    && (!ret ==> c in Below(g, to))
    && (ret ==> forall v :: v in found && v !in queue ==> LookedThrough(g, c, v, |g.children[v]|, found))
  }

  lemma LookedThroughMore(g: Graph, c: nat, v: nat, i: nat, found: set<nat>, found': set<nat>)
    requires v in g.children && i < |g.children[v]| && LookedThrough(g, c, v, i, found) && found <= found'
    requires g.children[v][i] != c && g.children[v][i] in g.target && g.target[g.children[v][i]] in found'
    ensures LookedThrough(g, c, v, i + 1, found')
  {
  }

  /** The inner loop of should_update_child */
  method VisitChildren(g: Graph, c: nat, to: nat, v: nat, found: set<nat>, queue: seq<nat>, ret: bool)
    returns (found': set<nat>, queue': seq<nat>, ret': bool)
    requires WellFormed(g) && to in g.children && v in found && SearchInv(g, c, to, found, [v] + queue, ret)
    ensures SearchInv(g, c, to, found', queue', ret')
    ensures (found' == found && queue' == queue) || found < found'
  {
    found', queue', ret' := found, queue, ret;
    for i := 0 to |g.children[v]|
      invariant found <= found' && (found' == found ==> queue' == queue)
      invariant SearchInv(g, c, to, found', [v] + queue', ret')
      invariant ret' ==> LookedThrough(g, c, v, i, found')
    {
      var c2 := g.children[v][i];
      assert c2 in g.children[v];
      if c2 == c {
        ret' := false;
        break;
      }
      if ret' { LookedThroughMore(g, c, v, i, found', found' + {g.target[c2]}); }
      if g.target[c2] in found' {
        assert found' + {g.target[c2]} == found';
        continue;
      }
      ReachesThenStep(g, to, v, g.target[c2]);
      queue' := queue' + [g.target[c2]];
      found' := found' + {g.target[c2]};
    }
  }

  lemma {:induction false} PathStaysInside(g: Graph, c: nat, path: seq<nat>, found: set<nat>)
    requires WellFormed(g) && IsPath(g, path) && path[0] in found
    requires forall v :: v in found ==> v in g.children && LookedThrough(g, c, v, |g.children[v]|, found)
    ensures path[|path| - 1] in found
    decreases |path|
  {
    if |path| > 1 {
      var n := |path| - 1;
      var init := path[..n];
      forall i | 0 <= i < |init| - 1 ensures Step(g, init[i], init[i + 1]) { assert Step(g, path[i], path[i + 1]); }
      PathStaysInside(g, c, init, found);
      assert Step(g, path[n - 1], path[n - 1 + 1]);
    }
  }

  lemma SearchIsComplete(g: Graph, c: nat, to: nat, found: set<nat>, ret: bool)
    requires WellFormed(g) && to in g.children && SearchInv(g, c, to, found, [], ret)
    ensures ret <==> c !in Below(g, to)
  {
    if ret && c in Below(g, to) {
      var m :| m in Reach(g, to) && c in g.children[m];
      var path :| PathFromTo(g, path, to, m);
      PathStaysInside(g, c, path, found);
    }
  }

  /**
   should_update_child: a breadth-first search of the subtree of `to`.  The edge may be moved exactly
   when its class lets it leave its node and no node reachable from `to` owns it.
   */
  method ShouldUpdateChild(g: Graph, stayAtNode: bool, c: nat, to: nat) returns (ret: bool)
    requires WellFormed(g) && to in g.children
    ensures ret <==> !stayAtNode && c !in Below(g, to)
  {
    if stayAtNode { return false; }
    ret := true;
    var found: set<nat> := {to};
    var queue: seq<nat> := [to];
    ReachesSelf(g, to);
    while queue != []
      invariant SearchInv(g, c, to, found, queue, ret)
      decreases g.children.Keys - found, |queue|
    {
      var v := queue[0];
      queue := queue[1..];
      found, queue, ret := VisitChildren(g, c, to, v, found, queue, ret);
    }
    SearchIsComplete(g, c, to, found, ret);
  }

  // ---- Permissions after a replacement

  /** The same drivers over a graph in which the edges in `list` lead to `to` */
  ghost predicate MovedLayer(layer: Layer, layer': Layer, list: set<nat>, to: nat) {
    && Moved(layer.g, layer'.g, list, to) && layer'.info == layer.info
    && layer'.driverAllows == layer.driverAllows && layer'.childPerms == layer.childPerms
  }

  function Elements(list: seq<nat>): set<nat> {
    set e | e in list
  }

  /** What the moved edges need and allow together, as bdrv_replace_node_common adds it up */
  function Joint(edges: Edges, list: seq<nat>): Perms
    requires forall e :: e in list ==> e in edges
  {
    Accumulate(edges, list, {}, Perms({}, ALL))
  }

  /** `edges` has been checked for moving `list` from `from` to `to`; the result is `edges'`. */
  ghost predicate CheckedMove(layer: Layer, edges: Edges, edges': Edges, from: nat, to: nat, list: seq<nat>) {
    && Sized(layer, edges) && Sized(layer, edges') && from in layer.g.children && to in layer.g.children
    && Elements(list) !! Below(layer.g, to)
    && (forall e :: e in list ==> e in layer.g.target && layer.g.target[e] == from)
    && Keeps(edges, edges', Below(layer.g, to))
    && UpdateGranted(layer, edges, edges', to, Joint(edges, list), Elements(list), {})
  }

  lemma SameUsers(edges: Edges, edges': Edges, before: seq<nat>, after: seq<nat>, list: seq<nat>)
    requires edges'.Keys == edges.Keys && (forall e :: e in before || e in after || e in list ==> e in edges)
    requires forall e :: e in after ==> edges'[e] == edges[e]
    requires forall e :: e in after <==> e in list || (e in before && e !in Elements(list))
    ensures Accumulate(edges', after, {}, Perms({}, ALL)) ==
            Accumulate(edges, before, Elements(list) + {}, Joint(edges, list))
  {
    forall p: Permission
      ensures p in Accumulate(edges', after, {}, Perms({}, ALL)).used <==>
              p in Accumulate(edges, before, Elements(list) + {}, Joint(edges, list)).used
      ensures p in Accumulate(edges', after, {}, Perms({}, ALL)).shared <==>
              p in Accumulate(edges, before, Elements(list) + {}, Joint(edges, list)).shared
    {
      AccumulateUsed(edges', after, {}, Perms({}, ALL), p);
      AccumulateUsed(edges, before, Elements(list) + {}, Joint(edges, list), p);
      AccumulateUsed(edges, list, {}, Perms({}, ALL), p);
      AccumulateShared(edges', after, {}, Perms({}, ALL), p);
      AccumulateShared(edges, before, Elements(list) + {}, Joint(edges, list), p);
      AccumulateShared(edges, list, {}, Perms({}, ALL), p);
    }
  }

  /** At `to` the cumulative permissions are those that were checked. */
  lemma CumulativeAtTarget(layer: Layer, layer': Layer, edges: Edges, edges': Edges, from: nat, to: nat, list: seq<nat>)
    requires CheckedMove(layer, edges, edges', from, to, list) && MovedLayer(layer, layer', Elements(list), to)
    ensures Cumulative(layer', edges', to, {}) ==
            Accumulate(edges, layer.g.parents[to], Elements(list) + {}, Joint(edges, list))
  {
    var before, after, moved := layer.g.parents[to], layer'.g.parents[to], Elements(list);
    RankedIsAcyclic(layer.g, layer.height);
    forall e | e in after ensures edges'[e] == edges[e] && (e in list || e in before) {
      if e !in list {
        assert e !in Below(layer.g, to) by {
          if e in Below(layer.g, to) { BelowAvoids(layer.g, to, e); }
        }
      }
    }
    forall e | e in list || (e in before && e !in moved) ensures e in after {
      assert layer'.g.target[e] == to;
    }
    SameUsers(edges, edges', before, after, list);
  }

  lemma SameRest(edges: Edges, before: seq<nat>, after: seq<nat>, list: set<nat>)
    requires forall e :: e in before || e in after ==> e in edges
    requires forall e :: e in after <==> e in before && e !in list
    ensures Accumulate(edges, after, {}, Perms({}, ALL)) == Accumulate(edges, before, list, Perms({}, ALL))
  {
    forall p: Permission
      ensures p in Accumulate(edges, after, {}, Perms({}, ALL)).used <==>
              p in Accumulate(edges, before, list, Perms({}, ALL)).used
      ensures p in Accumulate(edges, after, {}, Perms({}, ALL)).shared <==>
              p in Accumulate(edges, before, list, Perms({}, ALL)).shared
    {
      AccumulateUsed(edges, after, {}, Perms({}, ALL), p);
      AccumulateUsed(edges, before, list, Perms({}, ALL), p);
      AccumulateShared(edges, after, {}, Perms({}, ALL), p);
      AccumulateShared(edges, before, list, Perms({}, ALL), p);
    }
  }

  /** A node whose users are the same but for the moved ones is granted as before. */
  lemma GrantedElsewhere(layer: Layer, layer': Layer, edges: Edges, n: nat, list: set<nat>, to: nat)
    requires Sized(layer, edges) && MovedLayer(layer, layer', list, to) && n in layer.g.children && n != to
    ensures Sized(layer', edges) && (Granted(layer', edges, n, {}) <==> Granted(layer, edges, n, list))
  {
    forall e ensures e in layer'.g.parents[n] <==> e in layer.g.parents[n] && e !in list {
      if e in layer.g.target { assert layer'.g.target[e] == if e in list then to else layer.g.target[e]; }
    }
    SameRest(edges, layer.g.parents[n], layer'.g.parents[n], list);
  }

  lemma GrantedAtTarget(layer: Layer, layer': Layer, edges: Edges, edges': Edges, from: nat, to: nat, list: seq<nat>)
    requires CheckedMove(layer, edges, edges', from, to, list) && MovedLayer(layer, layer', Elements(list), to)
    ensures Sized(layer', edges') && Granted(layer', edges', to, {})
  {
    CumulativeAtTarget(layer, layer', edges, edges', from, to, list);
  }

  lemma GrantedOutside(layer: Layer, edges: Edges, edges': Edges, n: nat, to: nat, list: set<nat>)
    requires Sized(layer, edges) && Sized(layer, edges') && n in layer.g.children && to in layer.g.children
    requires n !in Reach(layer.g, to) && Keeps(edges, edges', Below(layer.g, to))
    requires forall e :: e in list && e in layer.g.target ==> layer.g.target[e] != n
    requires Granted(layer, edges, n, {})
    ensures Granted(layer, edges', n, list)
  {
    forall e | e in layer.g.parents[n] || e in layer.g.children[n] ensures edges'[e] == edges[e] {
      OutsideIsKept(layer.g, to, n, e);
    }
    AccumulateFrame(edges, edges', layer.g.parents[n], {}, list, Perms({}, ALL));
  }

  lemma GrantedInside(layer: Layer, edges': Edges, n: nat, to: nat, gone: set<nat>)
    requires Sized(layer, edges') && to in layer.g.children && n in Reach(layer.g, to) && n != to
    requires SubtreesGranted(layer, edges', layer.g.children[to], gone)
    ensures Granted(layer, edges', n, gone)
  {
    var c := ReachesSplit(layer.g, to, n);
    assert n in Reach(layer.g, layer.g.target[c]);
  }

  lemma ReplacedIsGranted(layer: Layer, layer': Layer, edges: Edges, edges': Edges, from: nat, to: nat, list: seq<nat>,
                          n: nat)
    requires CheckedMove(layer, edges, edges', from, to, list) && MovedLayer(layer, layer', Elements(list), to)
    requires n in layer.g.children && Granted(layer, edges, n, {}) && (n != from || n in Reach(layer.g, to))
    ensures Sized(layer', edges') && Granted(layer', edges', n, {})
  {
    if n == to {
      GrantedAtTarget(layer, layer', edges, edges', from, to, list);
    } else {
      if n in Reach(layer.g, to) {
        GrantedInside(layer, edges', n, to, Elements(list));
      } else {
        GrantedOutside(layer, edges, edges', n, to, Elements(list));
      }
      GrantedElsewhere(layer, layer', edges', n, Elements(list), to);
    }
  }

  /** A user that tolerates the joint permissions of `list` tolerates each of them. */
  lemma JointTolerates(edges: Edges, list: seq<nat>, d: nat, other: Perms)
    requires (forall e :: e in list ==> e in edges) && d in list && Tolerates(Joint(edges, list), other)
    ensures Tolerates(edges[d].perms, other)
  {
    forall p: Permission
      ensures p in edges[d].perms.used ==> p in other.shared
      ensures p in other.used ==> p in edges[d].perms.shared
    {
      AccumulateUsed(edges, list, {}, Perms({}, ALL), p);
      AccumulateShared(edges, list, {}, Perms({}, ALL), p);
    }
  }

  lemma UserOfTarget(layer: Layer, layer': Layer, edges: Edges, edges': Edges, from: nat, to: nat, list: seq<nat>,
                     e: nat)
    requires CheckedMove(layer, edges, edges', from, to, list) && MovedLayer(layer, layer', Elements(list), to)
    requires e in layer'.g.parents[to]
    ensures edges'[e] == edges[e] && (e in list || e in layer.g.parents[to])
  {
    RankedIsAcyclic(layer.g, layer.height);
    if e !in list && e in Below(layer.g, to) { BelowAvoids(layer.g, to, e); }
  }

  lemma TwoUsersTolerate(layer: Layer, edges: Edges, edges': Edges, from: nat, to: nat, list: seq<nat>, d: nat, e: nat)
    requires CheckedMove(layer, edges, edges', from, to, list) && d in edges && e in edges && d != e
    requires Compatible(layer, edges, from, {}) && Compatible(layer, edges, to, {})
    requires d in list || d in layer.g.parents[to]
    requires e in list || e in layer.g.parents[to]
    ensures Tolerates(edges[d].perms, edges[e].perms)
  {
    if d in list && e in list {
      assert d in layer.g.parents[from] && e in layer.g.parents[from];
      assert OthersTolerate(layer, edges, from, d, edges[d].perms, {});
    } else if d in list {
      JointTolerates(edges, list, d, edges[e].perms);
    } else if e in list {
      JointTolerates(edges, list, e, edges[d].perms);
    } else {
      assert OthersTolerate(layer, edges, to, d, edges[d].perms, {});
    }
  }

  lemma TargetIsCompatible(layer: Layer, layer': Layer, edges: Edges, edges': Edges, from: nat, to: nat, list: seq<nat>)
    requires CheckedMove(layer, edges, edges', from, to, list) && MovedLayer(layer, layer', Elements(list), to)
    requires Compatible(layer, edges, from, {}) && Compatible(layer, edges, to, {})
    ensures Sized(layer', edges') && Compatible(layer', edges', to, {})
  {
    var after := layer'.g.parents[to];
    forall e | e in after ensures edges'[e] == edges[e] && (e in list || e in layer.g.parents[to]) {
      UserOfTarget(layer, layer', edges, edges', from, to, list, e);
    }
    forall d | d in after ensures OthersTolerate(layer', edges', to, d, edges'[d].perms, {}) {
      forall e | e in after && e != d ensures Tolerates(edges'[d].perms, edges'[e].perms) {
        TwoUsersTolerate(layer, edges, edges', from, to, list, d, e);
      }
    }
  }

  lemma OtherIsCompatible(layer: Layer, layer': Layer, edges: Edges, edges': Edges, from: nat, to: nat, list: seq<nat>,
                          n: nat)
    requires CheckedMove(layer, edges, edges', from, to, list) && MovedLayer(layer, layer', Elements(list), to)
    requires n in layer.g.children && n != to && Compatible(layer, edges, n, {})
    ensures Sized(layer', edges') && Compatible(layer', edges', n, {})
  {
    assert Compatible(layer, edges, n, Elements(list)) by {
      forall d | d in layer.g.parents[n] ensures OthersTolerate(layer, edges, n, d, edges[d].perms, Elements(list)) {
        assert OthersTolerate(layer, edges, n, d, edges[d].perms, {});
      }
    }
    assert Compatible(layer, edges', n, Elements(list));
    forall d | d in layer'.g.parents[n] ensures OthersTolerate(layer', edges', n, d, edges'[d].perms, {}) {
      assert OthersTolerate(layer, edges', n, d, edges'[d].perms, Elements(list));
    }
  }

  /**
   After a replacement that passed its check, all users of every node are at peace, and every node
   is granted: only `from` may be left behind, and only when it is not in the subtree of `to`.
   */
  lemma ReplaceKeepsCoherence(layer: Layer, layer': Layer, edges: Edges, edges': Edges, from: nat, to: nat,
                              list: seq<nat>)
    requires Coherent(layer, edges) && CheckedMove(layer, edges, edges', from, to, list)
    requires MovedLayer(layer, layer', Elements(list), to)
    ensures Sized(layer', edges')
    ensures forall n :: n in layer.g.children ==> Compatible(layer', edges', n, {})
    ensures forall n :: n in layer.g.children && (n != from || from in Reach(layer.g, to)) ==>
      Granted(layer', edges', n, {})
  {
    forall n | n in layer.g.children
      ensures Compatible(layer', edges', n, {})
    {
      if n == to {
        TargetIsCompatible(layer, layer', edges, edges', from, to, list);
      } else {
        OtherIsCompatible(layer, layer', edges, edges', from, to, list, n);
      }
    }
    forall n | n in layer.g.children && (n != from || from in Reach(layer.g, to))
      ensures Granted(layer', edges', n, {})
    {
      ReplacedIsGranted(layer, layer', edges, edges', from, to, list, n);
    }
  }
}
