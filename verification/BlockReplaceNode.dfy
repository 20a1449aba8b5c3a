/**
 bdrv_replace_node_common as it runs: it collects the parents to move, checks their permissions on
 the new node, moves them one by one and settles the permissions, counting references throughout.
 */
module BlockReplaceNode {
  import opened Common
  import opened BlockGraph
  import opened BlockPermissions
  import opened BlockPermissionUpdate
  import opened BlockReplace

  /** What should_update_child and bdrv_replace_node_common ask of an edge */
  datatype EdgeClass = EdgeClass(stayAtNode: nat -> bool, frozen: nat -> bool)

  /** What a parent edge of the node to be replaced calls for */
  datatype Verdict = MoveIt | SkipIt | Fail(error: int)

  ghost function Judge(g: Graph, class_: EdgeClass, to: nat, autoSkip: bool, c: nat): Verdict {
    if class_.stayAtNode(c) || c in Below(g, to) then (if autoSkip then SkipIt else Fail(-EINVAL))
    else if class_.frozen(c) then Fail(-EPERM)
    else MoveIt
  }

  /** The edges of `list` that may leave their node for `to`, in order */
  ghost function Movable(g: Graph, class_: EdgeClass, to: nat, list: seq<nat>): (r: seq<nat>) {
    if list == [] then []
    else
      var k := |list| - 1;
      Movable(g, class_, to, list[..k]) +
      if class_.stayAtNode(list[k]) || list[k] in Below(g, to) then [] else [list[k]]
  }

  lemma {:induction false} InMovable(g: Graph, class_: EdgeClass, to: nat, list: seq<nat>, e: nat)
    ensures e in Movable(g, class_, to, list) <==> e in list && e !in Below(g, to) && !class_.stayAtNode(e)
  {
    if list != [] {
      var k := |list| - 1;
      assert list == list[..k] + [list[k]];
      InMovable(g, class_, to, list[..k], e);
    }
  }

  method JudgeParent(g: Graph, class_: EdgeClass, to: nat, autoSkip: bool, c: nat) returns (v: Verdict)
    requires WellFormed(g) && to in g.children
    ensures v == Judge(g, class_, to, autoSkip, c)
  {
    var update := ShouldUpdateChild(g, class_.stayAtNode(c), c, to);
    if !update {
      return if autoSkip then SkipIt else Fail(-EINVAL);
    }
    if class_.frozen(c) { return Fail(-EPERM); }
    v := MoveIt;
  }

  /** None of the first `k` parents makes the replacement fail. */
  ghost predicate NoneFails(g: Graph, class_: EdgeClass, to: nat, autoSkip: bool, parents: seq<nat>, k: nat) {
    forall j :: 0 <= j < k && j < |parents| ==> !Judge(g, class_, to, autoSkip, parents[j]).Fail?
  }

  lemma {:induction false} AllMovable(g: Graph, class_: EdgeClass, to: nat, list: seq<nat>)
    requires forall e :: e in list ==> e in Movable(g, class_, to, list)
    ensures Movable(g, class_, to, list) == list
  {
    if list != [] {
      var k := |list| - 1;
      assert list == list[..k] + [list[k]];
      InMovable(g, class_, to, list, list[k]);
      forall e | e in list[..k] ensures e in Movable(g, class_, to, list[..k]) {
        InMovable(g, class_, to, list, e);
        InMovable(g, class_, to, list[..k], e);
      }
      AllMovable(g, class_, to, list[..k]);
    }
  }

  /**
   No parent makes the replacement fail exactly if nobody who would move is frozen and, without auto_skip, all move.
   */
  lemma WhoFails(g: Graph, class_: EdgeClass, to: nat, autoSkip: bool, parents: seq<nat>)
    ensures NoneFails(g, class_, to, autoSkip, parents, |parents|) <==>
              && (autoSkip || Movable(g, class_, to, parents) == parents)
              && forall e :: e in Movable(g, class_, to, parents) ==> !class_.frozen(e)
    ensures forall e :: e in parents && Judge(g, class_, to, autoSkip, e).Fail? ==>
              if e in Movable(g, class_, to, parents) then Judge(g, class_, to, autoSkip, e).error == -EPERM
              else Judge(g, class_, to, autoSkip, e).error == -EINVAL
  {
    forall e ensures e in Movable(g, class_, to, parents) <==>
                       e in parents && e !in Below(g, to) && !class_.stayAtNode(e)
    {
      InMovable(g, class_, to, parents, e);
    }
    if NoneFails(g, class_, to, autoSkip, parents, |parents|) {
      forall e | e in parents
        ensures (autoSkip || e in Movable(g, class_, to, parents))
        ensures (e in Movable(g, class_, to, parents) ==> !class_.frozen(e))
      {
        var j :| 0 <= j < |parents| && parents[j] == e;
        assert !Judge(g, class_, to, autoSkip, parents[j]).Fail?;
      }
      if !autoSkip { AllMovable(g, class_, to, parents); }
    }
  }

  /** `list` and `joint` are what the first `i` parents come to. */
  ghost predicate Collected(g: Graph, class_: EdgeClass, edges: Edges, to: nat, parents: seq<nat>, i: nat,
                            list: seq<nat>,
                            joint: Perms)
    requires i <= |parents|
  {
    && list == Movable(g, class_, to, parents[..i]) && (forall e :: e in list ==>
         e in edges) && joint == Joint(edges, list)
  }

  /** What two users of a node need and allow together */
  function Both(a: Perms, b: Perms): Perms {
    Perms(a.used + b.used, a.shared * b.shared)
  }

  lemma JointWith(edges: Edges, list: seq<nat>, e: nat)
    requires (forall x :: x in list ==> x in edges) && e in edges
    ensures Joint(edges, list + [e]) == Both(Joint(edges, list), edges[e].perms)
  {
    assert (list + [e])[..|list|] == list;
  }

  lemma CollectNext(g: Graph, class_: EdgeClass, edges: Edges, to: nat, parents: seq<nat>, i: nat, list: seq<nat>,
                    joint: Perms)
    requires i < |parents| && parents[i] in edges && Collected(g, class_, edges, to, parents, i, list, joint)
    ensures if class_.stayAtNode(parents[i]) || parents[i] in Below(g, to)
            then Collected(g, class_, edges, to, parents, i + 1, list, joint)
            else Collected(g, class_, edges, to, parents, i + 1, list + [parents[i]],
                           Both(joint, edges[parents[i]].perms))
  {
    assert parents[..i + 1][..i] == parents[..i];
    JointWith(edges, list, parents[i]);
  }

  /** The first loop of bdrv_replace_node_common, over the parents of the node to be replaced */
  method CollectParents(g: Graph, class_: EdgeClass, edges: Edges, parents: seq<nat>, to: nat, autoSkip: bool)
    returns (ret: int, list: seq<nat>, joint: Perms)
    requires WellFormed(g) && to in g.children && forall e :: e in parents ==> e in edges
    ensures ret == 0 ==>
      NoneFails(g, class_, to, autoSkip, parents, |parents|) && list == Movable(g, class_, to, parents)
    ensures ret == 0 ==> (forall e :: e in list ==> e in edges) && joint == Joint(edges, list)
    ensures ret != 0 ==> exists i :: 0 <= i < |parents| && Judge(g, class_, to, autoSkip, parents[i]) == Fail(ret)
                           && NoneFails(g, class_, to, autoSkip, parents, i)
  {
    list, joint := [], Perms({}, ALL);
    var i := 0;
    while i < |parents|
      invariant 0 <= i <= |parents| && NoneFails(g, class_, to, autoSkip, parents, i)
      invariant Collected(g, class_, edges, to, parents, i, list, joint)
    {
      assert parents[i] in parents;
      CollectNext(g, class_, edges, to, parents, i, list, joint);
      var v := JudgeParent(g, class_, to, autoSkip, parents[i]);
      if v.Fail? { return v.error, list, joint; }
      if v.MoveIt? {
        list, joint := list + [parents[i]], Both(joint, edges[parents[i]].perms);
      }
      i := i + 1;
    }
    assert parents[..|parents|] == parents;
    ret := 0;
  }

  // ---- The subtree of `to` does not change

  lemma {:induction false} SubtreePath(g: Graph, g': Graph, list: set<nat>, to: nat, path: seq<nat>)
    requires WellFormed(g) && Moved(g, g', list, to) && to in g.children && list !! Below(g, to)
    requires IsPath(g, path) && path[0] == to
    ensures IsPath(g', path)
    decreases |path|
  {
    if |path| > 1 {
      var k := |path| - 1;
      var init := path[..k];
      forall i | 0 <= i < |init| - 1 ensures Step(g, init[i], init[i + 1]) { assert Step(g, path[i], path[i + 1]); }
      SubtreePath(g, g', list, to, init);
      assert Step(g, path[k - 1], path[k - 1 + 1]);
      var e :| e in g.children[path[k - 1]] && e in g.target && g.target[e] == path[k];
      assert PathFromTo(g, init, to, path[k - 1]);
      assert path[k - 1] in Reach(g, to);
      assert e in Below(g, to);
      assert g'.target[e] == path[k];
      forall i | 0 <= i < |path| - 1 ensures Step(g', path[i], path[i + 1]) {
        if i < k - 1 { assert Step(g', init[i], init[i + 1]); }
      }
    }
  }

  lemma SubtreeStays(g: Graph, g': Graph, list: set<nat>, to: nat)
    requires WellFormed(g) && Moved(g, g', list, to) && to in g.children && list !! Below(g, to)
    ensures Below(g, to) <= Below(g', to)
  {
    forall e | e in Below(g, to) ensures e in Below(g', to) {
      var m :| m in Reach(g, to) && e in g.children[m];
      var path :| PathFromTo(g, path, to, m);
      SubtreePath(g, g', list, to, path);
      assert PathFromTo(g', path, to, m);
      assert m in Reach(g', to);
    }
  }

  /** Settling at least the edges that a check has touched leaves no backup. */
  lemma SettlingMoreForgets(edges: Edges, edges': Edges, touched: set<nat>, more: set<nat>)
    requires NoBackups(edges) && Keeps(edges, edges', touched) && touched <= more
    ensures NoBackups(Settle(edges', more))
  {
  }

  // ---- Moving the collected edges one by one

  /** The edges in `moved` lead to `to`, the others where they led before. */
  ghost predicate Rewired(g: Graph, g': Graph, moved: set<nat>, to: nat) {
    WellFormed(g') && DistinctParents(g') && Moved(g, g', moved, to) && g.parents.Keys == g'.parents.Keys
  }

  function Gain(n: nat, k: nat, from: nat, to: nat): int {
    (if n == to then k else 0) - (if n == from then k else 0)
  }

  /** `k` edges have gone from the parents of `from` to those of `to`. */
  ghost predicate ParentsMoved(parents: map<nat, seq<nat>>, parents': map<nat, seq<nat>>, k: nat, from: nat, to: nat) {
    && parents.Keys == parents'.Keys
    && forall n {:trigger parents'[n]} :: n in parents' ==> |parents'[n]| == |parents[n]| + Gain(n, k, from, to)
  }

  /** `k` references to `from` have become references to `to`. */
  ghost predicate RefsMoved(refcnt: map<nat, int>, refcnt': map<nat, int>, k: nat, from: nat, to: nat) {
    && refcnt.Keys == refcnt'.Keys
    && forall n {:trigger refcnt'[n]} :: n in refcnt' ==> refcnt'[n] == refcnt[n] + Gain(n, k, from, to)
  }

  ghost predicate Progress(g: Graph, refcnt: map<nat, int>, g': Graph, refcnt': map<nat, int>, moved: set<nat>,
                           k: nat, from: nat, to: nat) {
    Rewired(g, g', moved, to) && ParentsMoved(g.parents, g'.parents, k, from, to)
    && RefsMoved(refcnt, refcnt', k, from, to)
  }

  lemma RewireOne(g: Graph, g': Graph, moved: set<nat>, to: nat, c: nat)
    requires Rewired(g, g', moved, to) && c in g.target && c !in moved && to in g.parents
    ensures g'.target[c] == g.target[c] && Rewired(g, Move(g', c, to), moved + {c}, to)
  {
    assert g'.target[c] == g.target[c];
    MoveIsWellFormed(g', c, to);
  }

  lemma MoveOneParent(parents: map<nat, seq<nat>>, g': Graph, k: nat, from: nat, to: nat, c: nat)
    requires ParentsMoved(parents, g'.parents, k, from, to) && WellFormed(g') && DistinctParents(g')
    requires c in g'.target && g'.target[c] == from && to in g'.parents
    ensures ParentsMoved(parents, Move(g', c, to).parents, k + 1, from, to)
  {
    forall n | n in g'.parents ensures |Move(g', c, to).parents[n]| == |parents[n]| + Gain(n, k + 1, from, to) {
      MoveParents(g', c, to, n);
    }
  }

  lemma MoveNext(g: Graph, refcnt: map<nat, int>, g': Graph, refcnt': map<nat, int>, refcnt'': map<nat, int>,
                 moved: set<nat>, k: nat, from: nat, to: nat, c: nat)
    requires Progress(g, refcnt, g', refcnt', moved, k, from, to) && RefsMoved(refcnt', refcnt'', 1, from, to)
    requires c in g.target && g.target[c] == from && c !in moved && to in g.parents
    ensures g'.target[c] == from && Progress(g, refcnt, Move(g', c, to), refcnt'', moved + {c}, k + 1, from, to)
  {
    RewireOne(g, g', moved, to, c);
    MoveOneParent(g.parents, g', k, from, to, c);
  }

  /** No reference is lost or made up: what a node has beyond its parent edges stays the same. */
  ghost predicate Conserved(g: Graph, refcnt: map<nat, int>, g': Graph, refcnt': map<nat, int>) {
    && refcnt.Keys == g.parents.Keys && refcnt'.Keys == g'.parents.Keys && g'.parents.Keys == g.parents.Keys
    && forall n {:trigger refcnt'[n]} :: n in refcnt' ==> refcnt'[n] - |g'.parents[n]| == refcnt[n] - |g.parents[n]|
  }

  lemma ProgressConserves(g: Graph, refcnt: map<nat, int>, g': Graph, refcnt': map<nat, int>, moved: set<nat>, k: nat,
                          from: nat, to: nat)
    requires Progress(g, refcnt, g', refcnt', moved, k, from, to) && refcnt.Keys == g.parents.Keys
    ensures Conserved(g, refcnt, g', refcnt')
  {
    forall n | n in refcnt' ensures refcnt'[n] - |g'.parents[n]| == refcnt[n] - |g.parents[n]| {
      assert |g'.parents[n]| == |g.parents[n]| + Gain(n, k, from, to);
    }
  }

  /** As long as edges are left to move, so are references. */
  lemma ReferencesLeft(refcnt: map<nat, int>, refcnt': map<nat, int>, k: nat, from: nat, to: nat)
    requires RefsMoved(refcnt, refcnt', k, from, to) && from in refcnt && to in refcnt && refcnt[from] > k
    ensures from in refcnt' && to in refcnt' && refcnt'[from] > 0
  {
    assert refcnt'[from] == refcnt[from] + Gain(from, k, from, to);
  }

  /** There are edges in `list` to be moved from `from` to `to`, and references to go with them. */
  ghost predicate ToMove(g: Graph, refcnt: map<nat, int>, list: seq<nat>, from: nat, to: nat) {
    && WellFormed(g) && DistinctParents(g) && refcnt.Keys == g.parents.Keys && from in g.parents && to in g.parents
    && Distinct(list) && (forall e :: e in list ==> e in g.target && g.target[e] == from) && refcnt[from] >= |list|
  }

  /** The edges from position `i` on have been moved. */
  ghost predicate MovedDownTo(g: Graph, refcnt: map<nat, int>, g': Graph, refcnt': map<nat, int>, list: seq<nat>,
                              i: nat,
                              from: nat, to: nat)
    requires i <= |list|
  {
    Progress(g, refcnt, g', refcnt', Elements(list[i..]), |list| - i, from, to)
  }

  lemma NothingMoved(g: Graph, refcnt: map<nat, int>, list: seq<nat>, from: nat, to: nat)
    requires WellFormed(g) && DistinctParents(g)
    ensures MovedDownTo(g, refcnt, g, refcnt, list, |list|, from, to)
  {
  }

  lemma NextElement(list: seq<nat>, i: nat)
    requires Distinct(list) && i < |list|
    ensures list[i] in list && Elements(list[i..]) == Elements(list[i + 1..]) + {list[i]}
    ensures list[i] !in Elements(list[i + 1..])
  {
    assert list[i..] == [list[i]] + list[i + 1..];
  }

  /** The edge at position `i` is still where it was, and there is a reference to go with it. */
  lemma NextToMove(g: Graph, refcnt: map<nat, int>, g': Graph, refcnt': map<nat, int>, list: seq<nat>, i: nat,
                   from: nat, to: nat)
    requires i < |list| && ToMove(g, refcnt, list, from, to)
    requires MovedDownTo(g, refcnt, g', refcnt', list, i + 1, from, to)
    ensures list[i] in g.target && g.target[list[i]] == from && list[i] !in Elements(list[i + 1..])
    ensures from in refcnt' && to in refcnt' && refcnt'[from] > 0
  {
    NextElement(list, i);
    ReferencesLeft(refcnt, refcnt', |list| - i - 1, from, to);
  }

  lemma NextIsMoved(g: Graph, refcnt: map<nat, int>, g': Graph, refcnt': map<nat, int>, list: seq<nat>, i: nat,
                    from: nat, to: nat, k: nat)
    requires i < |list| && Distinct(list) && k + i == |list|
    requires Progress(g, refcnt, g', refcnt', Elements(list[i + 1..]) + {list[i]}, k, from, to)
    ensures MovedDownTo(g, refcnt, g', refcnt', list, i, from, to)
  {
    NextElement(list, i);
  }

  lemma EverythingMoved(g: Graph, refcnt: map<nat, int>, g': Graph, refcnt': map<nat, int>, list: seq<nat>, from: nat,
                        to: nat)
    requires MovedDownTo(g, refcnt, g', refcnt', list, 0, from, to)
    ensures Progress(g, refcnt, g', refcnt', Elements(list), |list|, from, to)
  {
    assert list[0..] == list;
  }

  // ---- The outcome

  lemma MovedLayerIsValid(layer: Layer, g': Graph, list: set<nat>, to: nat)
    requires Rewired(layer.g, g', list, to) && to in layer.g.children && list !! Below(layer.g, to)
    ensures layer.(g := g', height := Lift(layer.g, to, layer.height)).Valid()
    ensures MovedLayer(layer, layer.(g := g', height := Lift(layer.g, to, layer.height)), list, to)
  {
    MovedIsRanked(layer.g, g', list, to, layer.height);
  }

  /** Edges from users of `from` that would close no cycle at `to` */
  ghost predicate Movables(g: Graph, from: nat, to: nat, list: seq<nat>) {
    && from in g.children && to in g.children && Distinct(list)
    && forall e :: e in list ==> e in g.target && g.target[e] == from && e !in Below(g, to)
  }

  /** `to` can take the users in `list` on; `checked` is what bdrv_check_update_perm made of `edges`. */
  ghost predicate CheckedFor(layer: Layer, edges: Edges, checked: Edges, to: nat, list: seq<nat>) {
    && to in layer.g.children && Sized(layer, edges) && (forall e :: e in list ==> e in edges)
    && CheckUpdate(layer, edges, to, Joint(edges, list), Elements(list), {}) == Checked(true, checked)
  }

  /** The edges in `list` have been moved and the permissions that were checked for them have been settled. */
  ghost predicate Replaced(layer: Layer, layer': Layer, edges: Edges, edges': Edges, from: nat, to: nat,
                           list: seq<nat>) {
    && Movables(layer.g, from, to, list) && MovedLayer(layer, layer', Elements(list), to)
    && exists checked :: CheckedFor(layer, edges, checked, to, list) && edges' == Settle(checked, Below(layer'.g, to))
  }

  /** bdrv_check_update_perm lets the users in `list` move to `to`. */
  ghost predicate Accepts(layer: Layer, edges: Edges, to: nat, list: seq<nat>) {
    exists checked :: CheckedFor(layer, edges, checked, to, list)
  }

  /** Why a replacement is refused: the first parent that must not be moved, or the permissions at `to` */
  ghost predicate Refused(layer: Layer, edges: Edges, class_: EdgeClass, from: nat, to: nat, autoSkip: bool, ret: int)
    requires Sized(layer, edges) && from in layer.g.parents && to in layer.g.children
  {
    var parents := layer.g.parents[from];
    || (exists i :: 0 <= i < |parents| && Judge(layer.g, class_, to, autoSkip, parents[i]) == Fail(ret)
                    && NoneFails(layer.g, class_, to, autoSkip, parents, i))
    || (ret == -EPERM && !Accepts(layer, edges, to, Movable(layer.g, class_, to, parents)))
  }

  lemma SettlingReplaces(layer: Layer, layer': Layer, edges: Edges, checked: Edges, from: nat, to: nat, list: seq<nat>)
    requires Movables(layer.g, from, to, list) && MovedLayer(layer, layer', Elements(list), to)
    requires CheckedFor(layer, edges, checked, to, list)
    ensures Replaced(layer, layer', edges, Settle(checked, Below(layer'.g, to)), from, to, list)
  {
  }

  lemma ReplacedForgets(layer: Layer, layer': Layer, edges: Edges, edges': Edges, from: nat, to: nat, list: seq<nat>)
    requires Replaced(layer, layer', edges, edges', from, to, list) && NoBackups(edges)
    ensures NoBackups(edges') && Sized(layer', edges')
  {
    var checked :| CheckedFor(layer, edges, checked, to, list) && edges' == Settle(checked, Below(layer'.g, to));
    SubtreeStays(layer.g, layer'.g, Elements(list), to);
    SettlingMoreForgets(edges, checked, Below(layer.g, to), Below(layer'.g, to));
  }

  /** Coherent, but that the node `stale` may not be granted what its users need */
  ghost predicate CoherentBut(layer: Layer, edges: Edges, stale: nat) {
    && Sized(layer, edges)
    && forall n :: n in layer.g.children ==>
         Compatible(layer, edges, n, {}) && (n != stale ==> Granted(layer, edges, n, {}))
  }

  lemma SettlingKeepsNode(layer: Layer, edges: Edges, list: set<nat>, n: nat)
    requires Sized(layer, edges) && n in layer.g.children
    ensures Sized(layer, Settle(edges, list))
    ensures Compatible(layer, edges, n, {}) ==> Compatible(layer, Settle(edges, list), n, {})
    ensures Granted(layer, edges, n, {}) ==> Granted(layer, Settle(edges, list), n, {})
  {
    var edges' := Settle(edges, list);
    if Granted(layer, edges, n, {}) { GrantedFrame(layer, edges, edges', n, {}); }
    forall d | d in layer.g.parents[n] && OthersTolerate(layer, edges, n, d, edges[d].perms, {})
      ensures OthersTolerate(layer, edges', n, d, edges'[d].perms, {}) {}
  }

  lemma SettlingKeepsCoherence(layer: Layer, edges: Edges, list: set<nat>, stale: nat, none: bool)
    requires Sized(layer, edges) && forall n :: n in layer.g.children ==> Compatible(layer, edges, n, {})
    requires forall n :: n in layer.g.children && (n != stale || none) ==> Granted(layer, edges, n, {})
    ensures CoherentBut(layer, Settle(edges, list), stale) && (none ==> Coherent(layer, Settle(edges, list)))
  {
    forall n | n in layer.g.children
      ensures Compatible(layer, Settle(edges, list), n, {})
      ensures (n != stale || none ==> Granted(layer, Settle(edges, list), n, {}))
    {
      SettlingKeepsNode(layer, edges, list, n);
    }
  }

  /** The checked replacement of a node in a coherent graph */
  lemma ReplacedIsCoherent(layer: Layer, layer': Layer, edges: Edges, edges': Edges, from: nat, to: nat, list: seq<nat>)
    requires Replaced(layer, layer', edges, edges', from, to, list) && Coherent(layer, edges)
    ensures CoherentBut(layer', edges', from)
    ensures from in Reach(layer.g, to) ==> Coherent(layer', edges')
  {
    var checked :| CheckedFor(layer, edges, checked, to, list) && edges' == Settle(checked, Below(layer'.g, to));
    ReplaceKeepsCoherence(layer, layer', edges, checked, from, to, list);
    SettlingKeepsCoherence(layer', checked, Below(layer'.g, to), from, from in Reach(layer.g, to));
  }

  lemma {:induction false} MovableIsDistinct(g: Graph, class_: EdgeClass, to: nat, list: seq<nat>)
    requires Distinct(list)
    ensures Distinct(Movable(g, class_, to, list)) && |Movable(g, class_, to, list)| <= |list|
  {
    if list != [] {
      var k := |list| - 1;
      MovableIsDistinct(g, class_, to, list[..k]);
      InMovable(g, class_, to, list[..k], list[k]);
    }
  }

  lemma MovableAreMovables(g: Graph, class_: EdgeClass, from: nat, to: nat)
    requires WellFormed(g) && DistinctParents(g) && from in g.children && to in g.children
    ensures Movables(g, from, to, Movable(g, class_, to, g.parents[from]))
    ensures |Movable(g, class_, to, g.parents[from])| <= |g.parents[from]|
  {
    MovableIsDistinct(g, class_, to, g.parents[from]);
    forall e | e in Movable(g, class_, to, g.parents[from])
      ensures e in g.target && g.target[e] == from && e !in Below(g, to)
    {
      InMovable(g, class_, to, g.parents[from], e);
    }
  }

  class BlockNodes {
    var g: Graph
    var edges: Edges
    var refcnt: map<nat, int>
    var told: map<nat, Perms>
    ghost var height: map<nat, nat>
    const info: map<nat, NodeInfo>
    const driverAllows: (nat, Perms) -> bool
    const childPerms: (nat, nat, Perms) -> Perms
    const class_: EdgeClass

    ghost function Layered(): AnyLayer
      reads `g, `height
    {
      AnyLayer(g, info, driverAllows, childPerms, height)
    }

    /** Every parent edge holds a reference to its node, and nobody has deleted a node. */
    ghost predicate Counted()
      reads this
    {
      refcnt.Keys == g.parents.Keys && forall n :: n in refcnt ==> refcnt[n] >= 1 && refcnt[n] >= |g.parents[n]|
    }

    ghost predicate Valid()
      reads this
    {
      Layered().Valid() && Sized(Layered(), edges) && NoBackups(edges) && DistinctParents(g) && Counted()
    }

    ghost predicate Untouched(g0: Graph, edges0: Edges, refcnt0: map<nat, int>, told0: map<nat, Perms>)
      reads this
    {
      g == g0 && edges == edges0 && refcnt == refcnt0 && told == told0
    }

    /** bdrv_ref(to), bdrv_replace_child_noperm(c, to), bdrv_unref(from) */
    method MoveOne(c: nat, from: nat, to: nat, ghost g0: Graph, ghost refcnt0: map<nat, int>, ghost moved: set<nat>,
                   ghost k: nat)
      requires Progress(g0, refcnt0, g, refcnt, moved, k, from, to) && from in refcnt && to in refcnt
      requires to in g0.parents
      requires c in g0.target && g0.target[c] == from && c !in moved
      // bdrv_unref(from) does not drop the last reference: the caller holds one more
      requires refcnt[from] > 0
      modifies `g, `refcnt
      ensures Progress(g0, refcnt0, g, refcnt, moved + {c}, k + 1, from, to)
      ensures RefsMoved(old(refcnt), refcnt, 1, from, to)
    {
      refcnt := refcnt[to := refcnt[to] + 1];
      g := Move(g, c, to);
      refcnt := refcnt[from := refcnt[from] - 1];
      MoveNext(g0, refcnt0, old(g), old(refcnt), refcnt, moved, k, from, to, c);
    }

    method MoveNthOne(list: seq<nat>, i: nat, from: nat, to: nat, ghost g0: Graph, ghost refcnt0: map<nat, int>)
      requires i < |list| && ToMove(g0, refcnt0, list, from, to)
      requires MovedDownTo(g0, refcnt0, g, refcnt, list, i + 1, from, to)
      modifies `g, `refcnt
      ensures MovedDownTo(g0, refcnt0, g, refcnt, list, i, from, to)
    {
      NextToMove(g0, refcnt0, g, refcnt, list, i, from, to);
      MoveOne(list[i], from, to, g0, refcnt0, Elements(list[i + 1..]), |list| - i - 1);
      NextIsMoved(g0, refcnt0, g, refcnt, list, i, from, to, |list| - i);
    }

    /** The second loop of bdrv_replace_node_common; the list was built back to front. */
    method MoveAll(list: seq<nat>, from: nat, to: nat)
      requires ToMove(g, refcnt, list, from, to)
      modifies `g, `refcnt
      ensures Progress(old(g), old(refcnt), g, refcnt, Elements(list), |list|, from, to)
    {
      var i := |list|;
      NothingMoved(g, refcnt, list, from, to);
      while i > 0
        invariant 0 <= i <= |list|
        invariant MovedDownTo(old(g), old(refcnt), g, refcnt, list, i, from, to)
      {
        i := i - 1;
        MoveNthOne(list, i, from, to, old(g), old(refcnt));
      }
      EverythingMoved(old(g), old(refcnt), g, refcnt, list, from, to);
    }

    /** bdrv_check_update_perm(to), followed by bdrv_abort_perm_update(to) if it fails */
    method CheckMove(to: nat, list: seq<nat>, joint: Perms) returns (ok: bool)
      requires Layered().Valid() && Sized(Layered(), edges) && NoBackups(edges) && to in g.children
      requires (forall e :: e in list ==> e in edges) && joint == Joint(edges, list)
      modifies `edges
      ensures ok ==> CheckedFor(Layered(), old(edges), edges, to, list)
      ensures !ok ==> edges == old(edges) && !Accepts(Layered(), edges, to, list)
    {
      var updater := new Updater(AnyLayer(g, info, driverAllows, childPerms, height), edges, told);
      ok := updater.CheckUpdatePerm(to, joint, Elements(list), Elements(list), {});
      if !ok {
        AbortRestores(edges, updater.edges, Below(g, to));
        updater.AbortPermUpdate(to);
      }
      edges := updater.edges;
    }

    /** bdrv_set_perm(to); the new permissions and what the drivers know now are returned. */
    method SettlePerms(to: nat) returns (edges': Edges, told': map<nat, Perms>)
      requires Layered().Valid() && Sized(Layered(), edges) && to in g.children
      ensures edges' == Settle(edges, Below(g, to)) && Sized(Layered(), edges')
      ensures Informed(Layered(), edges', told, told', Reach(g, to))
    {
      var updater := new Updater(AnyLayer(g, info, driverAllows, childPerms, height), edges, told);
      updater.SetPerm(to);
      edges', told' := updater.edges, updater.told;
      SettlingStaysInformed(Layered(), edges, Below(g, to), told, told', Reach(g, to));
    }

    /** The moves of bdrv_replace_node_common, after which the graph is acyclic again */
    method MoveLayer(list: seq<nat>, from: nat, to: nat)
      requires Layered().Valid() && DistinctParents(g) && refcnt.Keys == g.parents.Keys
      requires Movables(g, from, to, list) && refcnt[from] >= |list|
      modifies `g, `refcnt, `height
      ensures Progress(old(g), old(refcnt), g, refcnt, Elements(list), |list|, from, to)
      ensures Layered().Valid() && MovedLayer(old(Layered()), Layered(), Elements(list), to)
    {
      MoveAll(list, from, to);
      height := Lift(old(g), to, height);
      MovedLayerIsValid(old(Layered()), g, Elements(list), to);
    }

    /** All of bdrv_replace_node_common but the collection of the parents */
    method CheckAndMove(list: seq<nat>, joint: Perms, from: nat, to: nat) returns (ok: bool)
      requires Layered().Valid() && Sized(Layered(), edges) && NoBackups(edges) && DistinctParents(g)
      requires refcnt.Keys == g.parents.Keys
      requires Movables(g, from, to, list) && joint == Joint(edges, list) && refcnt[from] >= |list|
      modifies this
      ensures !ok ==> Untouched(old(g), old(edges), old(refcnt), old(told)) && height == old(height)
      ensures !ok ==> !Accepts(old(Layered()), old(edges), to, list)
      ensures ok ==> Progress(old(g), old(refcnt), g, refcnt, Elements(list), |list|, from, to)
      ensures ok ==> Layered().Valid() && Replaced(old(Layered()), Layered(), old(edges), edges, from, to, list)
      ensures ok ==> Sized(Layered(), edges) && Informed(Layered(), edges, old(told), told, Reach(g, to))
    {
      ghost var before := Layered();
      ok := CheckMove(to, list, joint);
      assert Layered() == before;
      if ok {
        ghost var checked := edges;
        MoveLayer(list, from, to);
        ghost var after := Layered();
        SettlingReplaces(before, after, old(edges), checked, from, to, list);
        edges, told := SettlePerms(to);
        assert Layered() == after;
      }
    }

    /**
     bdrv_replace_node_common.  A failure changes nothing.  After a success exactly the movable parents
     have moved, together with their references, the permissions that were checked for them are in
     force, and the drivers in the subtree of `to` know them.  `deleted` says that nobody references
     `from` any more once the function drops its own reference, which `refcnt` does not count.
     */
    method ReplaceNodeCommon(from: nat, to: nat, autoSkip: bool) returns (ret: int, deleted: bool, ghost list: seq<nat>)
      requires Valid() && from in g.children && to in g.children
      modifies this
      ensures ret != 0 ==> Untouched(old(g), old(edges), old(refcnt), old(told)) && height == old(height) && !deleted
      ensures ret != 0 ==> Refused(old(Layered()), old(edges), class_, from, to, autoSkip, ret)
      ensures list == Movable(old(g), class_, to, old(g).parents[from])
      ensures ret == 0 ==> NoneFails(old(g), class_, to, autoSkip, old(g).parents[from], |old(g).parents[from]|)
      ensures ret == 0 ==> Progress(old(g), old(refcnt), g, refcnt, Elements(list), |list|, from, to)
      ensures ret == 0 ==> Layered().Valid() && Replaced(old(Layered()), Layered(), old(edges), edges, from, to, list)
      ensures ret == 0 ==> Sized(Layered(), edges) && Informed(Layered(), edges, old(told), told, Reach(g, to))
      ensures Conserved(old(g), old(refcnt), g, refcnt)
      ensures deleted <==> refcnt[from] == 0
    {
      MovableAreMovables(g, class_, from, to);
      list := Movable(g, class_, to, g.parents[from]);
      var moving, joint;
      ret, moving, joint := CollectParents(g, class_, edges, g.parents[from], to, autoSkip);
      if ret == 0 {
        var ok := CheckAndMove(moving, joint, from, to);
        if ok {
          ProgressConserves(old(g), old(refcnt), g, refcnt, Elements(list), |list|, from, to);
        } else {
          ret := -EPERM;
        }
      }
      deleted := refcnt[from] == 0;
    }
  }

  lemma GrantedAlike(layer: Layer, edges: Edges, edges': Edges, n: nat, gone: set<nat>)
    requires Sized(layer, edges) && Sized(layer, edges') && n in layer.g.children
    requires forall e :: e in layer.g.parents[n] || e in layer.g.children[n] ==> edges'[e].perms == edges[e].perms
    ensures Granted(layer, edges', n, gone) <==> Granted(layer, edges, n, gone)
  {
    if Granted(layer, edges, n, gone) { GrantedFrame(layer, edges, edges', n, gone); }
    if Granted(layer, edges', n, gone) { GrantedFrame(layer, edges', edges, n, gone); }
  }

  lemma UnvisitedIsAlike(layer: Layer, edges: Edges, checked: Edges, n: nat, to: nat, gone: set<nat>, settled: set<nat>)
    requires Sized(layer, edges) && Keeps(edges, checked, Below(layer.g, to)) && n in layer.g.children
    requires to in layer.g.children
    requires n !in Reach(layer.g, to)
    ensures Sized(layer, Settle(checked, settled))
    ensures Granted(layer, Settle(checked, settled), n, gone) <==> Granted(layer, edges, n, gone)
  {
    forall e | e in layer.g.parents[n] || e in layer.g.children[n]
      ensures Settle(checked, settled)[e].perms == edges[e].perms
    {
      OutsideIsKept(layer.g, to, n, e);
    }
    GrantedAlike(layer, edges, Settle(checked, settled), n, gone);
  }

  /**
   Nothing revisits `from` when it is not in the subtree of `to`.  Whether it still holds on its children
   what its remaining users call for can be told before the replacement.
   */
  lemma SourceIsGranted(layer: Layer, layer': Layer, edges: Edges, edges': Edges, from: nat, to: nat, list: seq<nat>)
    requires Replaced(layer, layer', edges, edges', from, to, list) && from !in Reach(layer.g, to)
    ensures Sized(layer', edges')
    ensures Granted(layer', edges', from, {}) <==> Granted(layer, edges, from, Elements(list))
  {
    var checked :| CheckedFor(layer, edges, checked, to, list) && edges' == Settle(checked, Below(layer'.g, to));
    ReachesSelf(layer.g, to);
    UnvisitedIsAlike(layer, edges, checked, from, to, Elements(list), Below(layer'.g, to));
    GrantedElsewhere(layer, layer', edges', from, Elements(list), to);
  }

  /**
   The graph stays coherent exactly if `from` is in the subtree of `to` or is granted already what it will be left
   with.
   */
  lemma ReplacedIsCoherentIff(layer: Layer, layer': Layer, edges: Edges, edges': Edges, from: nat, to: nat,
                              list: seq<nat>)
    requires Replaced(layer, layer', edges, edges', from, to, list) && Coherent(layer, edges)
    ensures CoherentBut(layer', edges', from)
    ensures Coherent(layer', edges') <==> from in Reach(layer.g, to) || Granted(layer, edges, from, Elements(list))
  {
    ReplacedIsCoherent(layer, layer', edges, edges', from, to, list);
    if from !in Reach(layer.g, to) { SourceIsGranted(layer, layer', edges, edges', from, to, list); }
  }

  /** What a successful replacement leaves behind in any case */
  lemma ReplacedState(layer: Layer, layer': Layer, edges: Edges, edges': Edges, from: nat, to: nat, list: seq<nat>)
    requires Replaced(layer, layer', edges, edges', from, to, list) && NoBackups(edges)
    ensures Acyclic(layer'.g) && NoBackups(edges') && Sized(layer', edges')
  {
    RankedIsAcyclic(layer'.g, layer'.height);
    ReplacedForgets(layer, layer', edges, edges', from, to, list);
  }

  // ---- An example: node 0 passes the permissions of its users on to node 2; its only user, which writes,
  // moves to node 1.  The graph is coherent, the move is checked with success, and the graph is not coherent.

  const USER := 10
  const CHILD := 11

  function ExampleGraph(at: nat): Graph {
    Graph(map[0 := [CHILD], 1 := [], 2 := []],
          map[0 := if at == 0 then [USER] else [], 1 := if at == 0 then [] else [USER], 2 := [CHILD]],
          map[CHILD := 0], map[USER := if at == 0 then 0 else 1, CHILD := 2])
  }

  lemma ExampleGraphIsWellFormed(at: nat)
    ensures WellFormed(ExampleGraph(at))
  {
  }

  function ExampleHeight(): map<nat, nat> {
    map[0 := 1, 1 := 0, 2 := 0]
  }

  lemma ExampleGraphIsRanked(at: nat)
    ensures Ranked(ExampleGraph(at), ExampleHeight())
  {
  }

  lemma NothingBelowTarget(at: nat)
    ensures Below(ExampleGraph(at), 1) == {}
  {
    forall m | Reaches(ExampleGraph(at), 1, m) ensures m == 1 {
      var path :| PathFromTo(ExampleGraph(at), path, 1, m);
      assert |path| == 1 || Step(ExampleGraph(at), path[0], path[0 + 1]);
    }
  }

  function ExampleInfo(): map<nat, NodeInfo> {
    map[0 := NodeInfo(true, true, true), 1 := NodeInfo(true, true, true), 2 := NodeInfo(true, true, true)]
  }

  lemma ExampleIsValid(at: nat)
    ensures AnyLayer(ExampleGraph(at), ExampleInfo(), AllowAll, PassOn, ExampleHeight()).Valid()
  {
    ExampleGraphIsWellFormed(at);
    ExampleGraphIsRanked(at);
  }

  ghost function Example(at: nat): Layer {
    ExampleIsValid(at);
    AnyLayer(ExampleGraph(at), ExampleInfo(), AllowAll, PassOn, ExampleHeight())
  }

  function ExampleEdges(): Edges {
    map[USER := EdgeState(Perms({Write}, ALL), None), CHILD := EdgeState(Perms({Write}, ALL), None)]
  }

  lemma OneUser(layer: Layer, edges: Edges, n: nat, e: nat)
    requires Sized(layer, edges) && n in layer.g.children && layer.g.parents[n] == [e] && e in edges
    requires edges[e].perms == Perms({Write}, ALL)
    ensures Compatible(layer, edges, n, {}) && Cumulative(layer, edges, n, {}) == Perms({Write}, ALL)
  {
    assert Accumulate(edges, [e][..0], {}, Perms({}, ALL)) == Perms({}, ALL);
  }

  lemma NoUser(layer: Layer, edges: Edges, n: nat)
    requires Sized(layer, edges) && n in layer.g.children && layer.g.parents[n] == []
    ensures Compatible(layer, edges, n, {}) && Cumulative(layer, edges, n, {}) == Perms({}, ALL)
  {
  }

  lemma GrantedForUser(layer: Layer, edges: Edges, n: nat, e: nat)
    requires Sized(layer, edges) && n in layer.g.children && layer.g.parents[n] == [e] && e in edges
    requires edges[e].perms == Perms({Write}, ALL)
    requires layer.Allows(n, Perms({Write}, ALL))
    requires forall c :: c in layer.g.children[n] ==> edges[c].perms == layer.childPerms(n, c, Perms({Write}, ALL))
    ensures Granted(layer, edges, n, {}) && Compatible(layer, edges, n, {})
  {
    OneUser(layer, edges, n, e);
  }

  lemma GrantedForNobody(layer: Layer, edges: Edges, n: nat)
    requires Sized(layer, edges) && n in layer.g.children && layer.g.parents[n] == [] && layer.g.children[n] == []
    requires layer.Allows(n, Perms({}, ALL))
    ensures Granted(layer, edges, n, {}) && Compatible(layer, edges, n, {})
  {
    NoUser(layer, edges, n);
  }

  lemma ExampleNode0()
    ensures Granted(Example(0), ExampleEdges(), 0, {}) && Compatible(Example(0), ExampleEdges(), 0, {})
  {
    GrantedForUser(Example(0), ExampleEdges(), 0, USER);
  }

  lemma ExampleNode1()
    ensures Granted(Example(0), ExampleEdges(), 1, {}) && Compatible(Example(0), ExampleEdges(), 1, {})
  {
    GrantedForNobody(Example(0), ExampleEdges(), 1);
  }

  lemma ExampleNode2()
    ensures Granted(Example(0), ExampleEdges(), 2, {}) && Compatible(Example(0), ExampleEdges(), 2, {})
  {
    GrantedForUser(Example(0), ExampleEdges(), 2, CHILD);
  }

  lemma ThreeNodes(layer: Layer, edges: Edges)
    requires Sized(layer, edges) && layer.g.children.Keys == {0, 1, 2}
    requires Granted(layer, edges, 0, {}) && Granted(layer, edges, 1, {}) && Granted(layer, edges, 2, {})
    requires Compatible(layer, edges, 0, {}) && Compatible(layer, edges, 1, {}) && Compatible(layer, edges, 2, {})
    ensures Coherent(layer, edges)
  {
    forall n | n in layer.g.children ensures Granted(layer, edges, n, {}) && Compatible(layer, edges, n, {}) {
      assert n == 0 || n == 1 || n == 2;
    }
  }

  lemma ExampleIsCoherent()
    ensures Coherent(Example(0), ExampleEdges())
  {
    ExampleNode0();
    ExampleNode1();
    ExampleNode2();
    ThreeNodes(Example(0), ExampleEdges());
  }

  lemma LeafAccepts(layer: Layer, edges: Edges, n: nat, list: seq<nat>)
    requires Sized(layer, edges) && n in layer.g.children && layer.g.parents[n] == [] && layer.g.children[n] == []
    requires (forall e :: e in list ==> e in edges) && layer.Allows(n, Joint(edges, list))
    ensures CheckedFor(layer, edges, edges, n, list)
  {
    assert Accumulate(edges, [], Elements(list) + {}, Joint(edges, list)) == Joint(edges, list);
    assert Check(layer, edges, n, Joint(edges, list), Elements(list), {}) == Checked(true, edges);
  }

  lemma ExampleIsMovable()
    ensures Movables(ExampleGraph(0), 0, 1, [USER]) && Moved(ExampleGraph(0), ExampleGraph(1), Elements([USER]), 1)
  {
    NothingBelowTarget(0);
  }

  lemma ExampleIsAccepted()
    ensures CheckedFor(Example(0), ExampleEdges(), ExampleEdges(), 1, [USER])
  {
    LeafAccepts(Example(0), ExampleEdges(), 1, [USER]);
  }

  lemma ExampleIsReplaced()
    ensures Replaced(Example(0), Example(1), ExampleEdges(), ExampleEdges(), 0, 1, [USER])
  {
    ExampleIsMovable();
    ExampleIsAccepted();
    NothingBelowTarget(1);
    SettleNothing(ExampleEdges());
  }

  lemma ExampleIsNotCoherent()
    ensures !Coherent(Example(1), ExampleEdges())
  {
    NoUser(Example(1), ExampleEdges(), 0);
    assert CHILD in Example(1).g.children[0];
  }

  /** The replacement of node 0 by node 1 leaves node 0 with write access to node 2 that it has no user for. */
  lemma SourceIsLeftBehind()
    ensures Coherent(Example(0), ExampleEdges())
    ensures Replaced(Example(0), Example(1), ExampleEdges(), ExampleEdges(), 0, 1, [USER])
    ensures !Coherent(Example(1), ExampleEdges())
  {
    ExampleIsCoherent();
    ExampleIsReplaced();
    ExampleIsNotCoherent();
  }
}
