/**
 The permission passes of tools/qemu/block.c as they run: recursive methods over the graph that
 rewrite the edges in place.  Each is proved against the functions of BlockPermissions.
 */
module BlockPermissionUpdate {
  import opened Common
  import opened BlockGraph
  import opened BlockPermissions

  /** A pass has the outcome and, if it succeeds, the effect of `r`; either way it remembers every original. */
  ghost predicate Follows(ok: bool, edges: Edges, edges': Edges, r: Checked, touched: set<nat>) {
    ok == r.ok && (ok ==> edges' == r.edges) && Keeps(edges, edges', touched)
  }

  lemma AbortRestores(edges: Edges, edges': Edges, touched: set<nat>)
    requires NoBackups(edges) && Keeps(edges, edges', touched)
    ensures Abort(edges', touched) == edges
  {
    forall e | e in edges ensures Abort(edges', touched)[e] == edges[e] {}
  }

  // ---- The passes that follow a check visit exactly the subtree

  lemma AbortNothing(edges: Edges)
    ensures Abort(edges, {}) == edges
  {
  }

  lemma SettleNothing(edges: Edges)
    ensures Settle(edges, {}) == edges
  {
  }

  lemma AbortTwice(edges: Edges, list: set<nat>, list': set<nat>)
    ensures Abort(Abort(edges, list), list') == Abort(edges, list + list')
  {
  }

  lemma SettleTwice(edges: Edges, list: set<nat>, list': set<nat>)
    ensures Settle(Settle(edges, list), list') == Settle(edges, list + list')
  {
  }

  /** The edges visited by a pass over the first `k` children of `n` */
  ghost function FromFirst(layer: Layer, n: nat, k: nat): set<nat>
    requires n in layer.g.children && k <= |layer.g.children[n]|
  {
    if k == 0 then {}
    else
      assert layer.g.children[n][k - 1] in layer.g.children[n];
      FromFirst(layer, n, k - 1) + From(layer, layer.g.children[n][k - 1])
  }

  lemma {:induction false} IntoFromFirst(layer: Layer, n: nat, k: nat, i: nat, e: nat)
    requires n in layer.g.children && i < k <= |layer.g.children[n]|
    requires layer.g.children[n][i] in layer.g.target && e in From(layer, layer.g.children[n][i])
    ensures e in FromFirst(layer, n, k)
  {
    if i < k - 1 { IntoFromFirst(layer, n, k - 1, i, e); }
  }

  lemma {:induction false} OutOfFromFirst(layer: Layer, n: nat, k: nat, e: nat) returns (i: nat)
    requires n in layer.g.children && k <= |layer.g.children[n]| && e in FromFirst(layer, n, k)
    ensures i < k && layer.g.children[n][i] in layer.g.children[n] && e in From(layer, layer.g.children[n][i])
  {
    i := k - 1;
    assert layer.g.children[n][i] in layer.g.children[n];
    if e !in From(layer, layer.g.children[n][i]) { i := OutOfFromFirst(layer, n, k - 1, e); }
  }

  lemma BelowIsFromSome(layer: Layer, n: nat, e: nat) returns (i: nat)
    requires n in layer.g.children && e in Below(layer.g, n)
    ensures i < |layer.g.children[n]| && layer.g.children[n][i] in layer.g.target
    ensures e in From(layer, layer.g.children[n][i])
  {
    var m :| m in Reach(layer.g, n) && e in layer.g.children[m];
    var c := e;
    if m != n {
      c := ReachesSplit(layer.g, n, m);
      assert m in Reach(layer.g, layer.g.target[c]);
    }
    assert e in From(layer, c);
    i :| 0 <= i < |layer.g.children[n]| && layer.g.children[n][i] == c;
  }

  lemma BelowIsFromAll(layer: Layer, n: nat)
    requires n in layer.g.children
    ensures Below(layer.g, n) == FromFirst(layer, n, |layer.g.children[n]|)
  {
    var list := layer.g.children[n];
    forall e | e in Below(layer.g, n) ensures e in FromFirst(layer, n, |list|) {
      var i := BelowIsFromSome(layer, n, e);
      IntoFromFirst(layer, n, |list|, i, e);
    }
    forall e | e in FromFirst(layer, n, |list|) ensures e in Below(layer.g, n) {
      var i := OutOfFromFirst(layer, n, |list|, e);
      ChildIsBelow(layer.g, n, list[i]);
    }
  }

  lemma NothingBelow(layer: Layer, n: nat)
    requires n in layer.g.children && !layer.info[n].hasDriver
    ensures Below(layer.g, n) == {}
  {
    BelowIsFromAll(layer, n);
  }

  lemma CheckChildFollows(layer: Layer, edges: Edges, edges': Edges, c: nat, req: Perms, gone: set<nat>, path: set<nat>)
    requires Sized(layer, edges) && c in layer.g.target
    requires Follows(true, edges, edges', CheckUpdate(layer, edges, layer.g.target[c], req, gone, path + {c}),
                     Below(layer.g, layer.g.target[c]))
    ensures Follows(true, edges, edges'[c := Request(edges'[c], req)], CheckChild(layer, edges, c, req, gone, path),
                    From(layer, c))
  {
    RequestKeeps(edges, edges', Below(layer.g, layer.g.target[c]), c, req);
  }

  lemma CheckChildFails(layer: Layer, edges: Edges, edges': Edges, c: nat, req: Perms, gone: set<nat>, path: set<nat>)
    requires Sized(layer, edges) && c in layer.g.target
    requires Follows(false, edges, edges', CheckUpdate(layer, edges, layer.g.target[c], req, gone, path + {c}),
                     Below(layer.g, layer.g.target[c]))
    ensures Follows(false, edges, edges', CheckChild(layer, edges, c, req, gone, path), From(layer, c))
  {
  }

  lemma CheckFollows(layer: Layer, edges: Edges, edges': Edges, ok: bool, n: nat, cumulative: Perms, gone: set<nat>,
                     path: set<nat>)
    requires Sized(layer, edges) && n in layer.g.children && layer.Allows(n, cumulative)
    requires Follows(ok, edges, edges', CheckChildren(layer, edges, n, 0, cumulative, gone, path), Below(layer.g, n))
    ensures Follows(ok, edges, edges', Check(layer, edges, n, cumulative, gone, path), Below(layer.g, n))
  {
  }

  /** The loop of bdrv_check_perm stands at child `i`, and what it still has to do leads to `r`. */
  ghost predicate Midway(layer: Layer, start: Edges, edges: Edges, n: nat, i: nat, cumulative: Perms, gone: set<nat>,
                         path: set<nat>,
                         r: Checked)
    requires n in layer.g.children && i <= |layer.g.children[n]|
  {
    Sized(layer, edges) && Keeps(start, edges, Below(layer.g, n))
    && r == CheckChildren(layer, edges, n, i, cumulative, gone, path)
  }

  lemma FirstMidway(layer: Layer, edges: Edges, n: nat, cumulative: Perms, gone: set<nat>, path: set<nat>)
    requires Sized(layer, edges) && n in layer.g.children
    ensures Midway(layer, edges, edges, n, 0, cumulative, gone, path,
                   CheckChildren(layer, edges, n, 0, cumulative, gone, path))
  {
  }

  lemma LastMidway(layer: Layer, start: Edges, edges: Edges, n: nat, cumulative: Perms, gone: set<nat>, path: set<nat>,
                   r: Checked)
    requires n in layer.g.children && Midway(layer, start, edges, n, |layer.g.children[n]|, cumulative, gone, path, r)
    ensures Follows(true, start, edges, r, Below(layer.g, n))
  {
  }

  lemma NextMidway(layer: Layer, start: Edges, edges: Edges, after: Edges, ok: bool, n: nat, i: nat, cumulative: Perms,
                   gone: set<nat>, path: set<nat>, r: Checked)
    requires Sized(layer, start) && n in layer.g.children && i < |layer.g.children[n]|
    requires Midway(layer, start, edges, n, i, cumulative, gone, path, r)
    requires var c := layer.g.children[n][i];
             && c in layer.g.children[n]
             && Follows(ok, edges, after, CheckChild(layer, edges, c, layer.childPerms(n, c, cumulative), gone, path),
                        From(layer, c))
    ensures if ok then Midway(layer, start, after, n, i + 1, cumulative, gone, path, r)
            else !r.ok && Keeps(start, after, Below(layer.g, n))
  {
    ChildKeeps(layer, start, edges, after, n, layer.g.children[n][i]);
  }

  /** A pass over the first `i` children of `n` has put back what was backed up there. */
  ghost predicate Undone(layer: Layer, start: Edges, edges: Edges, n: nat, i: nat)
    requires n in layer.g.children && i <= |layer.g.children[n]|
  {
    edges == Abort(start, FromFirst(layer, n, i))
  }

  lemma UndoNothing(layer: Layer, edges: Edges, n: nat)
    requires n in layer.g.children
    ensures Undone(layer, edges, edges, n, 0)
  {
    AbortNothing(edges);
  }

  // ---- What the drivers are told

  /** What .bdrv_set_perm last told the driver of a node */
  function Knows(told: map<nat, Perms>, n: nat): Option<Perms> {
    if n in told then Some(told[n]) else None
  }

  /** What the driver of `n` has to know: what the users of the node add up to */
  function News(layer: Layer, edges: Edges, n: nat): Option<Perms>
    requires Sized(layer, edges) && n in layer.g.children
  {
    Some(Cumulative(layer, edges, n, {}))
  }

  /** The drivers of `nodes` have been told what their users add up to, and no other driver was told anything. */
  ghost predicate Informed(layer: Layer, edges: Edges, told: map<nat, Perms>, told': map<nat, Perms>, nodes: set<nat>)
    requires Sized(layer, edges)
  {
    forall n {:trigger Knows(told', n)} :: n in layer.g.children ==>
      Knows(told', n) == if n in nodes && layer.info[n].hasDriver then News(layer, edges, n) else Knows(told, n)
  }

  /** Every driver knows what its users add up to. */
  ghost predicate AllKnow(layer: Layer, edges: Edges, told: map<nat, Perms>)
    requires Sized(layer, edges)
  {
    forall n {:trigger Knows(told, n)} :: n in layer.g.children && layer.info[n].hasDriver ==>
      Knows(told, n) == News(layer, edges, n)
  }

  ghost function Targets(g: Graph, list: set<nat>): set<nat> {
    set e | e in list && e in g.target :: g.target[e]
  }

  lemma ReachIsTargets(g: Graph, n: nat)
    requires WellFormed(g) && n in g.children
    ensures Reach(g, n) == {n} + Targets(g, Below(g, n))
  {
    ReachesSelf(g, n);
    forall m | m in Reach(g, n) && m != n ensures m in Targets(g, Below(g, n)) {
      var e := ReachesLast(g, n, m);
    }
    forall e | e in Below(g, n) ensures e in g.target && g.target[e] in Reach(g, n) {
      var m :| m in Reach(g, n) && e in g.children[m];
      EdgeSteps(g, m, e);
      ReachesThenStep(g, n, m, g.target[e]);
    }
  }

  lemma SettlingIsNoNews(layer: Layer, edges: Edges, list: set<nat>, n: nat)
    requires Sized(layer, edges) && n in layer.g.children
    ensures News(layer, Settle(edges, list), n) == News(layer, edges, n)
  {
    AccumulateFrame(edges, Settle(edges, list), layer.g.parents[n], {}, {}, Perms({}, ALL));
  }

  lemma SettlingStaysInformed(layer: Layer, edges: Edges, list: set<nat>, told: map<nat, Perms>, told': map<nat, Perms>,
                              nodes: set<nat>)
    requires Sized(layer, edges)
    ensures Informed(layer, Settle(edges, list), told, told', nodes) <==> Informed(layer, edges, told, told', nodes)
  {
    forall n | n in layer.g.children ensures News(layer, Settle(edges, list), n) == News(layer, edges, n) {
      SettlingIsNoNews(layer, edges, list, n);
    }
  }

  lemma InformedTwice(layer: Layer, edges: Edges, told: map<nat, Perms>, told': map<nat, Perms>, told'': map<nat,
                      Perms>,
                      nodes: set<nat>, nodes': set<nat>)
    requires Sized(layer, edges) && Informed(layer, edges, told, told', nodes)
    requires Informed(layer, edges, told', told'', nodes')
    ensures Informed(layer, edges, told, told'', nodes + nodes')
  {
    forall n | n in layer.g.children
      ensures Knows(told'', n) ==
              if n in nodes + nodes' && layer.info[n].hasDriver then News(layer, edges, n) else Knows(told, n)
    {
      assert Knows(told', n) == if n in nodes && layer.info[n].hasDriver then News(layer, edges, n) else Knows(told, n);
    }
  }

  lemma InformOne(layer: Layer, edges: Edges, told: map<nat, Perms>, n: nat)
    requires Sized(layer, edges) && n in layer.g.children && layer.info[n].hasDriver
    ensures Informed(layer, edges, told, told[n := Cumulative(layer, edges, n, {})], {n})
  {
  }

  /** A pass over the first `i` children of `n` that began with `start` and, after `n` itself was told, `told` */
  ghost predicate Passed(layer: Layer, start: Edges, told: map<nat, Perms>, edges: Edges, told': map<nat, Perms>,
                         n: nat, i: nat)
    requires Sized(layer, start) && n in layer.g.children && i <= |layer.g.children[n]|
  {
    && edges == Settle(start, FromFirst(layer, n, i))
    && Informed(layer, start, told, told', Targets(layer.g, FromFirst(layer, n, i)))
  }

  lemma PassNone(layer: Layer, edges: Edges, told: map<nat, Perms>, n: nat)
    requires Sized(layer, edges) && n in layer.g.children
    ensures Passed(layer, edges, told, edges, told, n, 0)
  {
    SettleNothing(edges);
  }

  lemma PassNext(layer: Layer, start: Edges, told: map<nat, Perms>, edges: Edges, told': map<nat, Perms>,
                 edges': Edges, told'': map<nat, Perms>, n: nat, i: nat)
    requires Sized(layer, start) && n in layer.g.children && i < |layer.g.children[n]|
    requires Passed(layer, start, told, edges, told', n, i)
    requires var c := layer.g.children[n][i];
             && c in layer.g.target && edges' == Settle(edges, From(layer, c))
             && Informed(layer, edges, told', told'', Reach(layer.g, layer.g.target[c]))
    ensures Passed(layer, start, told, edges', told'', n, i + 1)
  {
    var c := layer.g.children[n][i];
    var first := FromFirst(layer, n, i);
    SettleTwice(start, first, From(layer, c));
    SettlingStaysInformed(layer, start, first, told', told'', Reach(layer.g, layer.g.target[c]));
    ReachIsTargets(layer.g, layer.g.target[c]);
    InformedTwice(layer, start, told, told', told'', Targets(layer.g, first), Reach(layer.g, layer.g.target[c]));
    assert Targets(layer.g, FromFirst(layer, n, i + 1)) == Targets(layer.g, first) + Reach(layer.g, layer.g.target[c]);
  }

  lemma PassAll(layer: Layer, start: Edges, told: map<nat, Perms>, edges: Edges, told': map<nat, Perms>, n: nat)
    requires Sized(layer, start) && n in layer.g.children && layer.info[n].hasDriver
    requires Passed(layer, start, told[n := Cumulative(layer, start, n, {})], edges, told', n, |layer.g.children[n]|)
    ensures edges == Settle(start, Below(layer.g, n)) && Informed(layer, start, told, told', Reach(layer.g, n))
  {
    BelowIsFromAll(layer, n);
    ReachIsTargets(layer.g, n);
    InformOne(layer, start, told, n);
    InformedTwice(layer, start, told, told[n := Cumulative(layer, start, n, {})], told', {n},
                  Targets(layer.g, Below(layer.g, n)));
  }

  lemma NobodyToInform(layer: Layer, edges: Edges, told: map<nat, Perms>, n: nat)
    requires Sized(layer, edges) && n in layer.g.children && !layer.info[n].hasDriver
    ensures Settle(edges, Below(layer.g, n)) == edges && Informed(layer, edges, told, told, Reach(layer.g, n))
  {
    NothingBelow(layer, n);
    ReachIsTargets(layer.g, n);
  }

  /** After a successful check-then-set the drivers know as much as before. */
  lemma SettledAllKnow(layer: Layer, edges: Edges, edges': Edges, c: nat, told: map<nat, Perms>, told': map<nat, Perms>)
    requires Sized(layer, edges) && c in layer.g.target && Keeps(edges, edges', From(layer, c))
    requires AllKnow(layer, edges, told)
    requires Sized(layer, edges') && Informed(layer, edges', told, told', Reach(layer.g, layer.g.target[c]))
    ensures AllKnow(layer, edges', told')
  {
    var to := layer.g.target[c];
    forall n | n in layer.g.children && layer.info[n].hasDriver && n !in Reach(layer.g, to)
      ensures News(layer, edges', n) == News(layer, edges, n)
    {
      ReachesSelf(layer.g, to);
      forall e | e in layer.g.parents[n] ensures e !in From(layer, c) { OutsideIsKept(layer.g, to, n, e); }
      AccumulateFrame(edges, edges', layer.g.parents[n], {}, {}, Perms({}, ALL));
    }
  }

  lemma SettlingAllKnow(layer: Layer, edges: Edges, list: set<nat>, told: map<nat, Perms>)
    requires Sized(layer, edges) && AllKnow(layer, edges, told)
    ensures AllKnow(layer, Settle(edges, list), told)
  {
    forall n | n in layer.g.children ensures News(layer, Settle(edges, list), n) == News(layer, edges, n) {
      SettlingIsNoNews(layer, edges, list, n);
    }
  }

  /** The request asks for nothing new, and shares what was shared. */
  predicate Loosens(was: Perms, req: Perms) {
    req.used <= was.used && was.shared <= req.shared
  }

  /**
   The outcome of bdrv_child_try_set_perm.  A failed attempt leaves every edge as it was, and is reported
   unless the request only loosens what the edge has.
   */
  ghost predicate Tried(layer: Layer, edges: Edges, edges': Edges, told: map<nat, Perms>, told': map<nat, Perms>,
                        c: nat,
                        req: Perms, ok: bool)
    requires Sized(layer, edges) && c in layer.g.target
  {
    var r := CheckChild(layer, edges, c, req, {}, {});
    if r.ok then
      && ok && edges' == Settle(r.edges, From(layer, c))
      && Informed(layer, r.edges, told, told', Reach(layer.g, layer.g.target[c]))
    else edges' == edges && told' == told && (ok <==> Loosens(edges[c].perms, req))
  }

  /** Whether the attempt succeeds or not, no backup is left and the drivers know as much as before. */
  lemma TriedKeeps(layer: Layer, edges: Edges, edges': Edges, told: map<nat, Perms>, told': map<nat, Perms>, c: nat,
                   req: Perms, ok: bool)
    requires Sized(layer, edges) && NoBackups(edges) && c in layer.g.target
    requires Tried(layer, edges, edges', told, told', c, req, ok)
    ensures Sized(layer, edges') && NoBackups(edges')
    ensures AllKnow(layer, edges, told) ==> AllKnow(layer, edges', told')
  {
    var r := CheckChild(layer, edges, c, req, {}, {});
    if r.ok {
      SettlingForgets(edges, r.edges, From(layer, c));
      if AllKnow(layer, edges, told) {
        SettledAllKnow(layer, edges, r.edges, c, told, told');
        SettlingAllKnow(layer, r.edges, From(layer, c), told');
      }
    }
  }

  /** An attempt on an edge that no node owns keeps the graph coherent. */
  lemma TriedIsCoherent(layer: Layer, edges: Edges, edges': Edges, told: map<nat, Perms>, told': map<nat, Perms>,
                        c: nat, req: Perms, ok: bool)
    requires Coherent(layer, edges) && NoBackups(edges) && c in layer.g.target && c !in layer.g.owner
    requires Tried(layer, edges, edges', told, told', c, req, ok)
    ensures Coherent(layer, edges')
  {
    if CheckChild(layer, edges, c, req, {}, {}).ok { CheckThenSetIsCoherent(layer, edges, c, req); }
  }

  // ---- An example: a node whose size is not a multiple of its request alignment.  Its only user may write and
  // resize, and gives the second up.

  const RESIZER := 5

  predicate AllowAll(n: nat, p: Perms) { true }

  function PassOn(n: nat, e: nat, p: Perms): Perms { p }

  ghost function OddSized(): Layer {
    var g := Graph(map[0 := []], map[0 := [RESIZER]], map[], map[RESIZER := 0]);
    AnyLayer(g, map[0 := NodeInfo(true, true, false)], AllowAll, PassOn, map[0 := 0])
  }

  function ResizerEdges(): Edges {
    map[RESIZER := EdgeState(Perms({Write, Resize}, ALL), None)]
  }

  lemma OddSizedIsCoherent()
    ensures Coherent(OddSized(), ResizerEdges())
  {
    var layer, edges := OddSized(), ResizerEdges();
    assert Accumulate(edges, [RESIZER][..0], {}, Perms({}, ALL)) == Perms({}, ALL);
    assert Cumulative(layer, edges, 0, {}) == Perms({Write, Resize}, ALL);
  }

  lemma OnlyUserAddsUp(edges: Edges, c: nat, ignore: set<nat>, req: Perms)
    requires c in edges && c in ignore
    ensures Accumulate(edges, [c], ignore, req) == req
  {
    assert Accumulate(edges, [c][..0], ignore, req) == req;
  }

  lemma RefusedBelow(layer: Layer, edges: Edges, n: nat, req: Perms, gone: set<nat>, path: set<nat>)
    requires Sized(layer, edges) && n in layer.g.children
    requires !layer.Allows(n, Accumulate(edges, layer.g.parents[n], gone + path, req))
    ensures !CheckUpdate(layer, edges, n, req, gone, path).ok
  {
  }

  /** A node refuses its only user what it does not allow. */
  lemma OnlyUserIsRefused(layer: Layer, edges: Edges, c: nat, n: nat, req: Perms)
    requires Sized(layer, edges) && c in layer.g.target && layer.g.target[c] == n && layer.g.parents[n] == [c]
    requires !layer.Allows(n, req)
    ensures !CheckChild(layer, edges, c, req, {}, {}).ok
  {
    OnlyUserAddsUp(edges, c, {} + ({} + {c}), req);
    RefusedBelow(layer, edges, n, req, {}, {} + {c});
  }

  /**
   A request that only loosens can fail, though the graph is coherent; bdrv_child_try_set_perm then returns 0
   and the permissions stay what they were.
   */
  lemma LooseningIsRefused()
    ensures Loosens(ResizerEdges()[RESIZER].perms, Perms({Write}, ALL))
    ensures !CheckChild(OddSized(), ResizerEdges(), RESIZER, Perms({Write}, ALL), {}, {}).ok
  {
    OnlyUserIsRefused(OddSized(), ResizerEdges(), RESIZER, 0, Perms({Write}, ALL));
  }

  class Updater {
    const layer: Layer
    var edges: Edges
    var told: map<nat, Perms>

    constructor (layer: Layer, edges: Edges, told: map<nat, Perms>)
      requires Sized(layer, edges)
      ensures this.layer == layer && this.edges == edges && this.told == told
    {
      this.layer := layer;
      this.edges := edges;
      this.told := told;
    }

    /** bdrv_get_cumulative_perm */
    method GetCumulativePerm(n: nat) returns (cumulative: Perms)
      requires Sized(layer, edges) && n in layer.g.parents
      ensures cumulative == Cumulative(layer, edges, n, {})
    {
      cumulative := Perms({}, ALL);
      var list := layer.g.parents[n];
      for i := 0 to |list|
        invariant forall e :: e in list[..i] ==> e in edges
        invariant cumulative == Accumulate(edges, list[..i], {}, Perms({}, ALL))
      {
        assert list[..i + 1][..i] == list[..i] && list[i] in list;
        var p := edges[list[i]].perms;
        cumulative := Perms(cumulative.used + p.used, cumulative.shared * p.shared);
      }
      assert list[..|list|] == list;
    }

    /** The loop of bdrv_check_update_perm: do the other users tolerate the request, and what do all add up to? */
    method AddUp(n: nat, req: Perms, ignore: set<nat>) returns (ok: bool, cumulative: Perms)
      requires Sized(layer, edges) && n in layer.g.children
      ensures ok <==> forall e :: e in layer.g.parents[n] && e !in ignore ==> Tolerates(req, edges[e].perms)
      ensures ok ==> cumulative == Accumulate(edges, layer.g.parents[n], ignore, req)
    {
      cumulative := req;
      var list := layer.g.parents[n];
      for i := 0 to |list|
        invariant forall e :: e in list[..i] ==> e in edges && (e in ignore || Tolerates(req, edges[e].perms))
        invariant cumulative == Accumulate(edges, list[..i], ignore, req)
      {
        assert list[..i + 1][..i] == list[..i] && list[i] in list;
        if list[i] !in ignore {
          var p := edges[list[i]].perms;
          if !(req.used <= p.shared) { return false, cumulative; }
          if !(p.used <= req.shared) { return false, cumulative; }
          cumulative := Perms(cumulative.used + p.used, cumulative.shared * p.shared);
        }
      }
      assert list[..|list|] == list;
      ok := true;
    }

    /** bdrv_check_update_perm */
    method CheckUpdatePerm(n: nat, req: Perms, ignore: set<nat>, ghost gone: set<nat>,
                           ghost path: set<nat>) returns (ok: bool)
      requires Sized(layer, edges) && n in layer.g.children
      requires ignore == gone + path
      modifies `edges
      ensures Follows(ok, old(edges), edges, CheckUpdate(layer, old(edges), n, req, gone, path), Below(layer.g, n))
      decreases layer.height[n], 1, 0
    {
      var cumulative;
      ok, cumulative := AddUp(n, req, ignore);
      if !ok { return; }
      ok := CheckPerm(n, cumulative, ignore, gone, path);
    }

    /** bdrv_check_perm */
    method CheckPerm(n: nat, cumulative: Perms, ignore: set<nat>, ghost gone: set<nat>,
                     ghost path: set<nat>) returns (ok: bool)
      requires Sized(layer, edges) && n in layer.g.children
      requires ignore == gone + path
      modifies `edges
      ensures Follows(ok, old(edges), edges, Check(layer, old(edges), n, cumulative, gone, path), Below(layer.g, n))
      decreases layer.height[n], 0, 2
    {
      var info := layer.info[n];
      var writes := Write in cumulative.used || WriteUnchanged in cumulative.used;
      if writes && !info.writable { return false; }
      if writes && Resize !in cumulative.used && !info.sizeAligned { return false; }
      if !info.hasDriver { return true; }
      if !layer.driverAllows(n, cumulative) { return false; }
      ok := CheckAllChildren(n, cumulative, ignore, gone, path);
      CheckFollows(layer, old(edges), edges, ok, n, cumulative, gone, path);
    }

    /** The loop of bdrv_check_perm */
    method CheckAllChildren(n: nat, cumulative: Perms, ignore: set<nat>, ghost gone: set<nat>,
                            ghost path: set<nat>) returns (ok: bool)
      requires Sized(layer, edges) && n in layer.g.children && ignore == gone + path
      modifies `edges
      ensures Follows(ok, old(edges), edges, CheckChildren(layer, old(edges), n, 0, cumulative, gone, path),
                      Below(layer.g, n))
      decreases layer.height[n], 0, 1
    {
      ghost var r := CheckChildren(layer, edges, n, 0, cumulative, gone, path);
      FirstMidway(layer, edges, n, cumulative, gone, path);
      var i, k := 0, |layer.g.children[n]|;
      while i < k
        invariant 0 <= i <= k
        invariant Midway(layer, old(edges), edges, n, i, cumulative, gone, path, r)
      {
        ok := CheckNextChild(n, i, cumulative, ignore, old(edges), gone, path, r);
        if !ok { return; }
        i := i + 1;
      }
      LastMidway(layer, old(edges), edges, n, cumulative, gone, path, r);
      ok := true;
    }

    method CheckNextChild(n: nat, i: nat, cumulative: Perms, ignore: set<nat>, ghost start: Edges,
                          ghost gone: set<nat>, ghost path: set<nat>, ghost r: Checked) returns (ok: bool)
      requires Sized(layer, start) && n in layer.g.children && i < |layer.g.children[n]| && ignore == gone + path
      requires Midway(layer, start, edges, n, i, cumulative, gone, path, r)
      modifies `edges
      ensures if ok then Midway(layer, start, edges, n, i + 1, cumulative, gone, path, r)
              else !r.ok && Keeps(start, edges, Below(layer.g, n))
      decreases layer.height[n], 0, 0
    {
      assert layer.g.children[n][i] in layer.g.children[n];
      ok := ChildCheckPerm(layer.g.children[n][i], layer.childPerms(n, layer.g.children[n][i], cumulative), ignore,
                           gone, path);
      NextMidway(layer, start, old(edges), edges, ok, n, i, cumulative, gone, path, r);
    }

    /** bdrv_child_check_perm */
    method ChildCheckPerm(c: nat, req: Perms, ignore: set<nat>, ghost gone: set<nat>,
                          ghost path: set<nat>) returns (ok: bool)
      requires Sized(layer, edges) && c in layer.g.target
      requires ignore == gone + path
      modifies `edges
      ensures Follows(ok, old(edges), edges, CheckChild(layer, old(edges), c, req, gone, path), From(layer, c))
      decreases layer.height[layer.g.target[c]], 2, 0
    {
      ok := CheckUpdatePerm(layer.g.target[c], req, ignore + {c}, gone, path + {c});
      if !ok {
        CheckChildFails(layer, old(edges), edges, c, req, gone, path);
        return;
      }
      CheckChildFollows(layer, old(edges), edges, c, req, gone, path);
      var e := edges[c];
      if e.backup.None? {
        e := e.(backup := Some(e.perms));
      }
      edges := edges[c := e.(perms := req)];
    }

    /** bdrv_abort_perm_update */
    method AbortPermUpdate(n: nat)
      requires Sized(layer, edges) && n in layer.g.children
      modifies `edges
      ensures edges == Abort(old(edges), Below(layer.g, n))
      decreases layer.height[n], 0, 2
    {
      if !layer.info[n].hasDriver {
        NothingBelow(layer, n);
        return;
      }
      BelowIsFromAll(layer, n);
      AbortAllChildren(n);
    }

    /** The loop of bdrv_abort_perm_update */
    method AbortAllChildren(n: nat)
      requires Sized(layer, edges) && n in layer.g.children
      modifies `edges
      ensures Undone(layer, old(edges), edges, n, |layer.g.children[n]|)
      decreases layer.height[n], 0, 1
    {
      UndoNothing(layer, edges, n);
      var i, k := 0, |layer.g.children[n]|;
      while i < k
        invariant 0 <= i <= k
        invariant Undone(layer, old(edges), edges, n, i)
      {
        AbortNextChild(n, i, old(edges));
        i := i + 1;
      }
    }

    method AbortNextChild(n: nat, i: nat, ghost start: Edges)
      requires Sized(layer, start) && n in layer.g.children && i < |layer.g.children[n]|
      requires Undone(layer, start, edges, n, i)
      modifies `edges
      ensures Undone(layer, start, edges, n, i + 1)
      decreases layer.height[n], 0, 0
    {
      assert layer.g.children[n][i] in layer.g.children[n];
      ChildAbortPermUpdate(layer.g.children[n][i]);
      AbortTwice(start, FromFirst(layer, n, i), From(layer, layer.g.children[n][i]));
    }

    /** bdrv_child_abort_perm_update */
    method ChildAbortPermUpdate(c: nat)
      requires Sized(layer, edges) && c in layer.g.target
      modifies `edges
      ensures edges == Abort(old(edges), From(layer, c))
      decreases layer.height[layer.g.target[c]], 1
    {
      var e := edges[c];
      if e.backup.Some? {
        edges := edges[c := EdgeState(e.backup.value, None)];
      }
      AbortPermUpdate(layer.g.target[c]);
    }

    /** bdrv_set_perm */
    method SetPerm(n: nat)
      requires Sized(layer, edges) && n in layer.g.children
      modifies `edges, `told
      ensures edges == Settle(old(edges), Below(layer.g, n))
      ensures Informed(layer, old(edges), old(told), told, Reach(layer.g, n))
      decreases layer.height[n], 0, 2
    {
      if !layer.info[n].hasDriver {
        NobodyToInform(layer, edges, told, n);
        return;
      }
      var cumulative := GetCumulativePerm(n);
      told := told[n := cumulative];
      SetAllChildren(n);
      PassAll(layer, old(edges), old(told), edges, told, n);
    }

    /** The loop of bdrv_set_perm */
    method SetAllChildren(n: nat)
      requires Sized(layer, edges) && n in layer.g.children
      modifies `edges, `told
      ensures Passed(layer, old(edges), old(told), edges, told, n, |layer.g.children[n]|)
      decreases layer.height[n], 0, 1
    {
      PassNone(layer, edges, told, n);
      var i, k := 0, |layer.g.children[n]|;
      while i < k
        invariant 0 <= i <= k
        invariant Passed(layer, old(edges), old(told), edges, told, n, i)
      {
        SetNextChild(n, i, old(edges), old(told));
        i := i + 1;
      }
    }

    method SetNextChild(n: nat, i: nat, ghost start: Edges, ghost told0: map<nat, Perms>)
      requires Sized(layer, start) && n in layer.g.children && i < |layer.g.children[n]|
      requires Passed(layer, start, told0, edges, told, n, i)
      modifies `edges, `told
      ensures Passed(layer, start, told0, edges, told, n, i + 1)
      decreases layer.height[n], 0, 0
    {
      assert layer.g.children[n][i] in layer.g.children[n];
      ChildSetPerm(layer.g.children[n][i]);
      PassNext(layer, start, told0, old(edges), old(told), edges, told, n, i);
    }

    /** bdrv_child_set_perm */
    method ChildSetPerm(c: nat)
      requires Sized(layer, edges) && c in layer.g.target
      modifies `edges, `told
      ensures edges == Settle(old(edges), From(layer, c))
      ensures Informed(layer, old(edges), old(told), told, Reach(layer.g, layer.g.target[c]))
      decreases layer.height[layer.g.target[c]], 1
    {
      edges := edges[c := edges[c].(backup := None)];
      assert edges == Settle(old(edges), {c});
      SetPerm(layer.g.target[c]);
      SettleTwice(old(edges), {c}, Below(layer.g, layer.g.target[c]));
      SettlingStaysInformed(layer, old(edges), {c}, old(told), told, Reach(layer.g, layer.g.target[c]));
    }

    /** What bdrv_child_try_set_perm does after the check has failed */
    method GiveUp(c: nat, req: Perms, ghost start: Edges) returns (ok: bool)
      requires Sized(layer, edges) && NoBackups(start) && c in layer.g.target && Keeps(start, edges, From(layer, c))
      modifies `edges
      ensures edges == start && (ok <==> Loosens(start[c].perms, req))
    {
      AbortRestores(start, edges, From(layer, c));
      ChildAbortPermUpdate(c);
      ok := Loosens(edges[c].perms, req);
    }

    /** bdrv_child_try_set_perm; true stands for the return value 0 */
    method CheckThenSet(c: nat, req: Perms) returns (ok: bool)
      requires Sized(layer, edges) && NoBackups(edges) && c in layer.g.target
      modifies `edges, `told
      ensures Tried(layer, old(edges), edges, old(told), told, c, req, ok)
    {
      ok := ChildCheckPerm(c, req, {}, {}, {});
      if ok {
        ChildSetPerm(c);
      } else {
        ok := GiveUp(c, req, old(edges));
      }
    }

    /** bdrv_child_try_set_perm, with what it keeps */
    method TrySetPerm(c: nat, req: Perms) returns (ok: bool)
      requires Sized(layer, edges) && NoBackups(edges) && c in layer.g.target
      modifies `edges, `told
      ensures Tried(layer, old(edges), edges, old(told), told, c, req, ok)
      ensures Sized(layer, edges) && NoBackups(edges)
      ensures AllKnow(layer, old(edges), old(told)) ==> AllKnow(layer, edges, told)
      ensures Coherent(layer, old(edges)) && c !in layer.g.owner ==> Coherent(layer, edges)
    {
      ok := CheckThenSet(c, req);
      TriedKeeps(layer, old(edges), edges, old(told), told, c, req, ok);
      if Coherent(layer, old(edges)) && c !in layer.g.owner {
        TriedIsCoherent(layer, old(edges), edges, old(told), told, c, req, ok);
      }
    }
  }
}
