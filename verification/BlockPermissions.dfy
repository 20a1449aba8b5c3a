/**
 Permission updates on the block graph (tools/qemu/block.c): bdrv_check_perm and its callees rewrite
 the permissions of every edge in a subtree, remembering the first value of each edge; then
 bdrv_set_perm forgets those backups or bdrv_abort_perm_update puts them back.

 A 64-bit permission mask is the set of the permissions whose bits it has.
 */
module BlockPermissions {
  import opened Common
  import opened BlockGraph

  datatype Permission = ConsistentRead | Write | WriteUnchanged | Resize | GraphMod

  /** BLK_PERM_ALL */
  const ALL: set<Permission> := {ConsistentRead, Write, WriteUnchanged, Resize, GraphMod}

  datatype AnyPerms = Perms(used: set<Permission>, shared: set<Permission>)

  /**
   What a user of a node needs, and what it lets other users of the node have.  Nobody forbids writes
   that change nothing, as bdrv_check_update_perm asserts.
   */
  type Perms = p: AnyPerms | WriteUnchanged in p.shared witness Perms({}, {WriteUnchanged})

  /** perm, shared_perm, and the backup of both when has_backup_perm is set */
  datatype EdgeState = EdgeState(perms: Perms, backup: Option<Perms>)

  /** The parts of a node and its driver that the permission code asks. */
  datatype NodeInfo = NodeInfo(hasDriver: bool, writable: bool, sizeAligned: bool)

  /**
   The graph with its drivers.  `driverAllows` is .bdrv_check_perm (true when a driver has none);
   `childPerms` is .bdrv_child_perm followed by the force_share override; `height` witnesses that the
   graph is acyclic.
   */
  datatype AnyLayer = AnyLayer(g: Graph, info: map<nat, NodeInfo>, driverAllows: (nat, Perms) -> bool,
                               childPerms: (nat, nat, Perms) -> Perms, ghost height: map<nat, nat>)
  {
    ghost predicate Valid() {
      && WellFormed(g) && Ranked(g, height) && info.Keys == g.children.Keys
      // a node without a driver has no children
      && (forall n :: n in g.children && !info[n].hasDriver ==> g.children[n] == [])
    }

    /** What bdrv_check_perm asks of the node itself. */
    predicate Allows(n: nat, cumulative: Perms)
      requires n in info
    {
      var writes := Write in cumulative.used || WriteUnchanged in cumulative.used;
      && (writes ==> info[n].writable)
      && (writes && Resize !in cumulative.used ==> info[n].sizeAligned)
      && (info[n].hasDriver ==> driverAllows(n, cumulative))
    }
  }

  type Layer = layer: AnyLayer | layer.Valid()
    ghost witness AnyLayer(Graph(map[], map[], map[], map[]), map[], (n, p) => true, (n, e, p) => Perms({}, ALL), map[])

  type Edges = map<nat, EdgeState>

  // ---- Cumulative permissions

  /** One user's permissions do not step on another's. */
  predicate Tolerates(a: Perms, b: Perms) {
    a.used <= b.shared && b.used <= a.shared
  }

  /** Adds the permissions of the users in `list`, except the ignored ones, to those of `base`. */
  function Accumulate(edges: Edges, list: seq<nat>, ignore: set<nat>, base: Perms): Perms
    requires forall e :: e in list ==> e in edges
  {
    if list == [] then base
    else
      var rest := Accumulate(edges, list[..|list| - 1], ignore, base);
      var e := list[|list| - 1];
      if e in ignore then rest
      else Perms(rest.used + edges[e].perms.used, rest.shared * edges[e].perms.shared)
  }

  /** bdrv_get_cumulative_perm, leaving out the edges in `gone` */
  function Cumulative(layer: Layer, edges: Edges, n: nat, gone: set<nat>): Perms
    requires n in layer.g.parents && forall e :: e in layer.g.parents[n] ==> e in edges
  {
    Accumulate(edges, layer.g.parents[n], gone, Perms({}, ALL))
  }

  /** The tail of bdrv_child_check_perm: back up once, then overwrite. */
  function Request(e: EdgeState, req: Perms): EdgeState {
    EdgeState(req, if e.backup.Some? then e.backup else Some(e.perms))
  }

  /** The value an edge had before the update began. */
  function Original(e: EdgeState): Perms {
    if e.backup.Some? then e.backup.value else e.perms
  }

  /** The tail of bdrv_child_abort_perm_update */
  function Restored(e: EdgeState): EdgeState {
    EdgeState(Original(e), None)
  }

  /** The effect of bdrv_child_set_perm on its own edge */
  function Settled(e: EdgeState): EdgeState {
    EdgeState(e.perms, None)
  }

  ghost predicate Sized(layer: Layer, edges: Edges) {
    edges.Keys == layer.g.target.Keys
  }

  // ---- What the check leaves alone

  /** Only edges in `touched` differ, and every edge still remembers its original value. */
  ghost predicate Keeps(edges: Edges, edges': Edges, touched: set<nat>) {
    && edges'.Keys == edges.Keys
    && forall e {:trigger edges'[e]} :: e in edges ==>
         (e !in touched ==> edges'[e] == edges[e]) && Original(edges'[e]) == Original(edges[e])
  }

  lemma KeepsTrans(edges: Edges, edges': Edges, edges'': Edges, touched: set<nat>, touched': set<nat>)
    requires Keeps(edges, edges', touched) && Keeps(edges', edges'', touched') && touched' <= touched
    ensures Keeps(edges, edges'', touched)
  {
  }

  lemma RequestKeeps(edges: Edges, edges': Edges, touched: set<nat>, c: nat, req: Perms)
    requires Keeps(edges, edges', touched) && c in edges
    ensures Keeps(edges, edges'[c := Request(edges'[c], req)], {c} + touched)
  {
  }

  lemma ChildIsBelow(g: Graph, n: nat, c: nat)
    requires WellFormed(g) && n in g.children && c in g.children[n]
    ensures c in Below(g, n) && g.target[c] in g.children && Below(g, g.target[c]) <= Below(g, n)
    ensures Reach(g, g.target[c]) <= Reach(g, n)
  {
    ReachesSelf(g, n);
    EdgeSteps(g, n, c);
    forall m | m in Reach(g, g.target[c]) ensures m in Reach(g, n) { ReachesStep(g, n, g.target[c], m); }
  }

  lemma ChildKeeps(layer: Layer, edges: Edges, edges': Edges, edges'': Edges, n: nat, c: nat)
    requires n in layer.g.children && c in layer.g.children[n]
    requires Keeps(edges, edges', Below(layer.g, n)) && Keeps(edges', edges'', {c} + Below(layer.g, layer.g.target[c]))
    ensures Keeps(edges, edges'', Below(layer.g, n))
  {
    ChildIsBelow(layer.g, n, c);
    KeepsTrans(edges, edges', edges'', Below(layer.g, n), {c} + Below(layer.g, layer.g.target[c]));
  }

  // ---- Cumulative permissions, element by element

  lemma InAll(p: Permission)
    ensures p in ALL
  {
    match p case ConsistentRead => case Write => case WriteUnchanged => case Resize => case GraphMod =>
  }

  lemma {:induction false} AccumulateUsed(edges: Edges, list: seq<nat>, ignore: set<nat>, base: Perms, p: Permission)
    requires forall e :: e in list ==> e in edges
    ensures p in Accumulate(edges, list, ignore, base).used <==>
            p in base.used || exists e :: e in list && e !in ignore && p in edges[e].perms.used
  {
    if list != [] {
      var n := |list| - 1;
      AccumulateUsed(edges, list[..n], ignore, base, p);
      assert list == list[..n] + [list[n]];
    }
  }

  lemma {:induction false} AccumulateShared(edges: Edges, list: seq<nat>, ignore: set<nat>, base: Perms, p: Permission)
    requires forall e :: e in list ==> e in edges
    ensures p in Accumulate(edges, list, ignore, base).shared <==>
            p in base.shared && forall e :: e in list && e !in ignore ==> p in edges[e].perms.shared
  {
    if list != [] {
      var n := |list| - 1;
      AccumulateShared(edges, list[..n], ignore, base, p);
      assert list == list[..n] + [list[n]];
    }
  }

  /** Cumulative permissions depend only on the edges that count. */
  lemma AccumulateFrame(edges: Edges, edges': Edges, list: seq<nat>, ignore: set<nat>, ignore': set<nat>, base: Perms)
    requires forall e :: e in list ==> e in edges && e in edges' && (e in ignore <==> e in ignore')
    requires forall e :: e in list && e !in ignore ==> edges'[e].perms == edges[e].perms
    ensures Accumulate(edges', list, ignore', base) == Accumulate(edges, list, ignore, base)
  {
    forall p: Permission
      ensures p in Accumulate(edges', list, ignore', base).used <==> p in Accumulate(edges, list, ignore, base).used
      ensures p in Accumulate(edges', list, ignore', base).shared <==> p in Accumulate(edges, list, ignore, base).shared
    {
      AccumulateUsed(edges, list, ignore, base, p);
      AccumulateUsed(edges', list, ignore', base, p);
      AccumulateShared(edges, list, ignore, base, p);
      AccumulateShared(edges', list, ignore', base, p);
    }
  }

  /** Checking a request with its own edge ignored counts as much as granting it and ignoring nothing. */
  lemma AccumulateGranted(edges: Edges, edges': Edges, list: seq<nat>, c: nat, ignore: set<nat>, gone: set<nat>)
    requires forall e :: e in list ==> e in edges && e in edges'
    requires forall e :: e in list && e != c ==> edges'[e].perms == edges[e].perms && (e in ignore <==> e in gone)
    requires c in list && c in ignore && c !in gone
    ensures Accumulate(edges', list, gone, Perms({}, ALL)) == Accumulate(edges, list, ignore, edges'[c].perms)
  {
    var req := edges'[c].perms;
    forall p: Permission
      ensures p in Accumulate(edges', list, gone, Perms({}, ALL)).used <==>
              p in Accumulate(edges, list, ignore, req).used
      ensures p in Accumulate(edges', list, gone, Perms({}, ALL)).shared <==>
              p in Accumulate(edges, list, ignore, req).shared
    {
      AccumulateUsed(edges', list, gone, Perms({}, ALL), p);
      AccumulateUsed(edges, list, ignore, req, p);
      AccumulateShared(edges', list, gone, Perms({}, ALL), p);
      AccumulateShared(edges, list, ignore, req, p);
      InAll(p);
    }
  }

  // ---- What a successful check establishes

  /** The node accepts its users' cumulative permissions, and its own edges carry what follows from them. */
  ghost predicate Granted(layer: Layer, edges: Edges, n: nat, gone: set<nat>)
    requires Sized(layer, edges) && n in layer.g.children
  {
    var cumulative := Cumulative(layer, edges, n, gone);
    && layer.Allows(n, cumulative)
    && forall c :: c in layer.g.children[n] ==> edges[c].perms == layer.childPerms(n, c, cumulative)
  }

  /** The users of the node other than `d` tolerate `perms`, and are tolerated by them. */
  ghost predicate OthersTolerate(layer: Layer, edges: Edges, n: nat, d: nat, perms: Perms, gone: set<nat>)
    requires Sized(layer, edges) && n in layer.g.children
  {
    forall e :: e in layer.g.parents[n] && e != d && e !in gone ==> Tolerates(perms, edges[e].perms)
  }

  /** The users of the node tolerate one another. */
  ghost predicate Compatible(layer: Layer, edges: Edges, n: nat, gone: set<nat>)
    requires Sized(layer, edges) && n in layer.g.children
  {
    forall d :: d in layer.g.parents[n] && d !in gone ==> OthersTolerate(layer, edges, n, d, edges[d].perms, gone)
  }

  /** In the subtree of `n`, `gone` owns no edge, and no edge of `path` leads anywhere but to `n`. */
  ghost predicate OnlyPath(layer: Layer, n: nat, gone: set<nat>, path: set<nat>) {
    && gone !! Below(layer.g, n)
    && forall e :: e in path && e in layer.g.target && layer.g.target[e] in Reach(layer.g, n) ==> layer.g.target[e] == n
  }

  lemma GrantedFrame(layer: Layer, edges: Edges, edges': Edges, n: nat, gone: set<nat>)
    requires Sized(layer, edges) && Sized(layer, edges') && n in layer.g.children
    requires forall e :: e in layer.g.parents[n] && e !in gone ==> edges'[e].perms == edges[e].perms
    requires forall e :: e in layer.g.children[n] ==> edges'[e].perms == edges[e].perms
    requires Granted(layer, edges, n, gone)
    ensures Granted(layer, edges', n, gone)
  {
    AccumulateFrame(edges, edges', layer.g.parents[n], gone, gone, Perms({}, ALL));
  }

  /** An edge whose target or owner lies outside a subtree is not touched by a check of the subtree. */
  lemma OutsideIsKept(g: Graph, n: nat, m: nat, e: nat)
    requires WellFormed(g) && n in g.children && m in g.children && m !in Reach(g, n)
    requires e in g.children[m] || e in g.parents[m]
    ensures e !in Below(g, n)
  {
    if e in Below(g, n) {
      var o :| o in Reach(g, n) && e in g.children[o];
      EdgeSteps(g, o, e);
      ReachesThenStep(g, n, o, g.target[e]);
    }
  }

  /** The subtrees of the edges in `list` are granted. */
  ghost predicate SubtreesGranted(layer: Layer, edges: Edges, list: seq<nat>, gone: set<nat>)
    requires Sized(layer, edges)
  {
    forall c, m :: c in list && c in layer.g.target && m in Reach(layer.g, layer.g.target[c]) ==>
      Granted(layer, edges, m, gone)
  }

  /** The edges in `list` carry what follows from `cumulative` at their owner `n`. */
  ghost predicate Derived(layer: Layer, edges: Edges, n: nat, list: seq<nat>, cumulative: Perms)
    requires Sized(layer, edges)
  {
    forall c :: c in list && c in edges ==> edges[c].perms == layer.childPerms(n, c, cumulative)
  }

  ghost predicate StillCompatible(layer: Layer, edges: Edges, edges': Edges, gone: set<nat>)
    requires Sized(layer, edges) && Sized(layer, edges')
  {
    forall m :: m in layer.g.children && Compatible(layer, edges, m, gone) ==> Compatible(layer, edges', m, gone)
  }

  /** As OnlyPath, before the edge into `n` has been added to `path`. */
  ghost predicate OffPath(layer: Layer, n: nat, gone: set<nat>, path: set<nat>) {
    && gone !! Below(layer.g, n)
    && forall e :: e in path && e in layer.g.target ==> layer.g.target[e] !in Reach(layer.g, n)
  }

  lemma OnlyPathBelow(layer: Layer, n: nat, c: nat, gone: set<nat>, path: set<nat>)
    requires n in layer.g.children && c in layer.g.children[n] && OnlyPath(layer, n, gone, path)
    ensures c !in gone && OffPath(layer, layer.g.target[c], gone, path)
  {
    RankedIsAcyclic(layer.g, layer.height);
    EdgeSteps(layer.g, n, c);
    ChildIsBelow(layer.g, n, c);
    StepShrinks(layer.g, n, layer.g.target[c]);
  }

  /** Checking one more child disturbs nothing that was granted before, except at the child's owner. */
  lemma ChildDisturbsNothing(layer: Layer, edges: Edges, edges': Edges, c: nat, m: nat, gone: set<nat>)
    requires Sized(layer, edges) && Sized(layer, edges') && c in layer.g.target && m in layer.g.children
    requires Keeps(edges, edges', {c} + Below(layer.g, layer.g.target[c]))
    requires m !in Reach(layer.g, layer.g.target[c]) && c !in layer.g.children[m]
    requires Granted(layer, edges, m, gone)
    ensures Granted(layer, edges', m, gone)
  {
    var n := layer.g.target[c];
    ReachesSelf(layer.g, n);
    forall e | e in layer.g.parents[m] || e in layer.g.children[m] ensures edges'[e] == edges[e] {
      OutsideIsKept(layer.g, n, m, e);
    }
    GrantedFrame(layer, edges, edges', m, gone);
  }

  /** Granting `req` on `c` after a successful check of its node: the node's own obligations. */
  lemma GrantAtTarget(layer: Layer, edges: Edges, below: Edges, c: nat, req: Perms, gone: set<nat>, path: set<nat>)
    requires Sized(layer, edges) && Sized(layer, below) && c in layer.g.target && c !in gone
    requires OffPath(layer, layer.g.target[c], gone, path) && Keeps(edges, below, Below(layer.g, layer.g.target[c]))
    requires var n := layer.g.target[c];
             var cumulative := Accumulate(edges, layer.g.parents[n], gone + (path + {c}), req);
             layer.Allows(n, cumulative) && Derived(layer, below, n, layer.g.children[n], cumulative)
    ensures Granted(layer, below[c := Request(below[c], req)], layer.g.target[c], gone)
  {
    var n := layer.g.target[c];
    var edges' := below[c := Request(below[c], req)];
    RankedIsAcyclic(layer.g, layer.height);
    ReachesSelf(layer.g, n);
    forall e | e in layer.g.parents[n] || e == c ensures e !in Below(layer.g, n) {
      if e in Below(layer.g, n) { BelowAvoids(layer.g, n, e); }
    }
    AccumulateGranted(edges, edges', layer.g.parents[n], c, gone + (path + {c}), gone);
    forall d | d in layer.g.children[n] ensures d != c { ChildIsBelow(layer.g, n, d); }
  }

  /** ... and the rest of its subtree. */
  lemma GrantInSubtree(layer: Layer, below: Edges, c: nat, req: Perms, m: nat, gone: set<nat>)
    requires Sized(layer, below) && c in layer.g.target
    requires m in Reach(layer.g, layer.g.target[c]) && m != layer.g.target[c]
    requires SubtreesGranted(layer, below, layer.g.children[layer.g.target[c]], gone)
    ensures Granted(layer, below[c := Request(below[c], req)], m, gone)
  {
    var n := layer.g.target[c];
    var d := ReachesSplit(layer.g, n, m);
    assert m in Reach(layer.g, layer.g.target[d]);
    assert Granted(layer, below, m, gone);
    RankedIsAcyclic(layer.g, layer.height);
    assert c !in layer.g.children[m] by {
      if c in layer.g.children[m] { BelowAvoids(layer.g, n, c); }
    }
    GrantedFrame(layer, below, below[c := Request(below[c], req)], m, gone);
  }

  lemma GrantIsCompatible(layer: Layer, below: Edges, c: nat, req: Perms, gone: set<nat>, m: nat)
    requires Sized(layer, below) && c in layer.g.target && c !in gone && m in layer.g.children
    requires OthersTolerate(layer, below, layer.g.target[c], c, req, gone) && Compatible(layer, below, m, gone)
    ensures Compatible(layer, below[c := Request(below[c], req)], m, gone)
  {
    var edges' := below[c := Request(below[c], req)];
    forall d | d in layer.g.parents[m] && d !in gone
      ensures OthersTolerate(layer, edges', m, d, edges'[d].perms, gone)
    {
      assert OthersTolerate(layer, below, m, d, below[d].perms, gone);
    }
  }

  lemma OthersStillTolerate(layer: Layer, edges: Edges, below: Edges, c: nat, req: Perms, gone: set<nat>,
                            path: set<nat>)
    requires Sized(layer, edges) && Sized(layer, below) && c in layer.g.target
    requires OffPath(layer, layer.g.target[c], gone, path) && Keeps(edges, below, Below(layer.g, layer.g.target[c]))
    requires forall e :: e in layer.g.parents[layer.g.target[c]] && e !in gone + (path + {c}) ==>
      Tolerates(req, edges[e].perms)
    ensures OthersTolerate(layer, below, layer.g.target[c], c, req, gone)
  {
    var n := layer.g.target[c];
    RankedIsAcyclic(layer.g, layer.height);
    ReachesSelf(layer.g, n);
    forall o | o in layer.g.parents[n] && o != c && o !in gone ensures Tolerates(req, below[o].perms) {
      assert o !in Below(layer.g, n) by {
        if o in Below(layer.g, n) { BelowAvoids(layer.g, n, o); }
      }
      assert o !in gone + (path + {c});
    }
  }

  lemma SiblingIsNotBelow(layer: Layer, n: nat, c: nat, d: nat)
    requires n in layer.g.children && c in layer.g.children[n] && d in layer.g.children[n]
    ensures d !in Below(layer.g, layer.g.target[c]) && n !in Reach(layer.g, layer.g.target[c])
  {
    RankedIsAcyclic(layer.g, layer.height);
    EdgeSteps(layer.g, n, c);
  }

  lemma SiblingSubtree(layer: Layer, edges: Edges, edges': Edges, n: nat, c: nat, d: nat, m: nat, gone: set<nat>)
    requires Sized(layer, edges) && Sized(layer, edges') && n in layer.g.children
    requires c in layer.g.children[n] && d in layer.g.children[n] && m in Reach(layer.g, layer.g.target[d])
    requires Keeps(edges, edges', {c} + Below(layer.g, layer.g.target[c])) && SubtreesGranted(layer, edges', [c], gone)
    requires Granted(layer, edges, m, gone)
    ensures Granted(layer, edges', m, gone)
  {
    if m in Reach(layer.g, layer.g.target[c]) {
      assert c in [c];
    } else {
      SiblingIsNotBelow(layer, n, d, d);
      ChildDisturbsNothing(layer, edges, edges', c, m, gone);
    }
  }

  lemma SubtreesMore(layer: Layer, edges: Edges, edges': Edges, n: nat, list: seq<nat>, c: nat, gone: set<nat>)
    requires Sized(layer, edges) && Sized(layer, edges') && n in layer.g.children && c in layer.g.children[n]
    requires forall d :: d in list ==> d in layer.g.children[n]
    requires Keeps(edges, edges', {c} + Below(layer.g, layer.g.target[c])) && SubtreesGranted(layer, edges', [c], gone)
    requires SubtreesGranted(layer, edges, list, gone)
    ensures SubtreesGranted(layer, edges', list + [c], gone)
  {
    forall d, m | d in list + [c] && d in layer.g.target && m in Reach(layer.g, layer.g.target[d])
      ensures Granted(layer, edges', m, gone)
    {
      if d in list {
        SiblingSubtree(layer, edges, edges', n, c, d, m, gone);
      } else {
        assert d in [c];
      }
    }
  }

  lemma DerivedMore(layer: Layer, edges: Edges, edges': Edges, n: nat, list: seq<nat>, c: nat, cumulative: Perms)
    requires Sized(layer, edges) && Sized(layer, edges') && n in layer.g.children && c in layer.g.children[n]
    requires forall d :: d in list ==> d in layer.g.children[n]
    requires Keeps(edges, edges', {c} + Below(layer.g, layer.g.target[c]))
    requires edges'[c].perms == layer.childPerms(n, c, cumulative) && Derived(layer, edges, n, list, cumulative)
    ensures Derived(layer, edges', n, list + [c], cumulative)
  {
    forall d | d in list + [c] && d in edges' ensures edges'[d].perms == layer.childPerms(n, d, cumulative) {
      if d != c { SiblingIsNotBelow(layer, n, c, d); }
    }
  }

  lemma LastOfPrefix(s: seq<nat>, k: nat)
    requires 0 < k <= |s|
    ensures s[..k] == s[..k - 1] + [s[k - 1]] && s[k - 1] in s && forall x :: x in s[..k - 1] ==> x in s
  {
  }

  lemma OneMoreChild(layer: Layer, edges: Edges, edges': Edges, n: nat, k: nat, cumulative: Perms, gone: set<nat>)
    requires Sized(layer, edges) && Sized(layer, edges') && n in layer.g.children && 0 < k <= |layer.g.children[n]|
    requires var c := layer.g.children[n][k - 1];
             && c in layer.g.target && Keeps(edges, edges', {c} + Below(layer.g, layer.g.target[c]))
             && edges'[c].perms == layer.childPerms(n, c, cumulative) && SubtreesGranted(layer, edges', [c], gone)
    requires Derived(layer, edges, n, layer.g.children[n][..k - 1], cumulative)
    requires SubtreesGranted(layer, edges, layer.g.children[n][..k - 1], gone)
    ensures Derived(layer, edges', n, layer.g.children[n][..k], cumulative)
    ensures SubtreesGranted(layer, edges', layer.g.children[n][..k], gone)
  {
    var list, c := layer.g.children[n][..k - 1], layer.g.children[n][k - 1];
    LastOfPrefix(layer.g.children[n], k);
    DerivedMore(layer, edges, edges', n, list, c, cumulative);
    SubtreesMore(layer, edges, edges', n, list, c, gone);
  }

  lemma StillCompatibleTrans(layer: Layer, edges: Edges, edges': Edges, edges'': Edges, gone: set<nat>)
    requires Sized(layer, edges) && Sized(layer, edges') && Sized(layer, edges'')
    requires StillCompatible(layer, edges, edges', gone) && StillCompatible(layer, edges', edges'', gone)
    ensures StillCompatible(layer, edges, edges'', gone)
  {
  }

  // ---- The check, as a function from edge states to edge states

  datatype Checked = Checked(ok: bool, edges: Edges)

  ghost predicate ListGranted(layer: Layer, edges: Edges, edges': Edges, n: nat, list: seq<nat>, cumulative: Perms,
                              gone: set<nat>)
    requires Sized(layer, edges) && Sized(layer, edges')
  {
    && Derived(layer, edges', n, list, cumulative)
    && SubtreesGranted(layer, edges', list, gone)
    && StillCompatible(layer, edges, edges', gone)
  }

  ghost predicate NodeGranted(layer: Layer, edges: Edges, edges': Edges, n: nat, cumulative: Perms, gone: set<nat>)
    requires Sized(layer, edges) && Sized(layer, edges') && n in layer.g.children
  {
    && layer.Allows(n, cumulative)
    && ListGranted(layer, edges, edges', n, layer.g.children[n], cumulative, gone)
  }

  /** What a successful check of `n` under the request `req` establishes. */
  ghost predicate UpdateGranted(layer: Layer, edges: Edges, edges': Edges, n: nat, req: Perms, gone: set<nat>,
                                path: set<nat>)
    requires Sized(layer, edges) && Sized(layer, edges') && n in layer.g.children
  {
    && NodeGranted(layer, edges, edges', n, Accumulate(edges, layer.g.parents[n], gone + path, req), gone)
    && forall e :: e in layer.g.parents[n] && e !in gone + path ==> Tolerates(req, edges[e].perms)
  }

  ghost predicate ChildGranted(layer: Layer, edges: Edges, edges': Edges, c: nat, req: Perms, gone: set<nat>)
    requires Sized(layer, edges) && Sized(layer, edges') && c in layer.g.target
  {
    && edges'[c].perms == req
    && SubtreesGranted(layer, edges', [c], gone)
    && StillCompatible(layer, edges, edges', gone)
  }

  /** The first `i` edges of `n` carry what follows from `cumulative`, and their subtrees are granted. */
  ghost predicate FirstGranted(layer: Layer, edges: Edges, n: nat, i: nat, cumulative: Perms, gone: set<nat>)
    requires Sized(layer, edges) && n in layer.g.children && i <= |layer.g.children[n]|
  {
    && Derived(layer, edges, n, layer.g.children[n][..i], cumulative)
    && SubtreesGranted(layer, edges, layer.g.children[n][..i], gone)
  }

  lemma NothingTouched(layer: Layer, edges: Edges, n: nat)
    ensures Keeps(edges, edges, Below(layer.g, n))
  {
  }

  lemma NextChild(layer: Layer, edges: Edges, after: Edges, rest: Checked, n: nat, i: nat, cumulative: Perms,
                  gone: set<nat>, path: set<nat>)
    requires Sized(layer, edges) && Sized(layer, after) && Sized(layer, rest.edges)
    requires n in layer.g.children && i < |layer.g.children[n]| && layer.g.children[n][i] in layer.g.children[n]
    requires var c := layer.g.children[n][i];
             && Keeps(edges, after, {c} + Below(layer.g, layer.g.target[c]))
             && (c !in gone && OffPath(layer, layer.g.target[c], gone, path) ==>
                   ChildGranted(layer, edges, after, c, layer.childPerms(n, c, cumulative), gone))
    requires Keeps(after, rest.edges, Below(layer.g, n))
    requires rest.ok && OnlyPath(layer, n, gone, path) && FirstGranted(layer, after, n, i + 1, cumulative, gone) ==>
               ListGranted(layer, after, rest.edges, n, layer.g.children[n], cumulative, gone)
    ensures Keeps(edges, rest.edges, Below(layer.g, n))
    ensures rest.ok && OnlyPath(layer, n, gone, path) && FirstGranted(layer, edges, n, i, cumulative, gone) ==>
              ListGranted(layer, edges, rest.edges, n, layer.g.children[n], cumulative, gone)
  {
    var c := layer.g.children[n][i];
    ChildKeeps(layer, edges, edges, after, n, c);
    KeepsTrans(edges, after, rest.edges, Below(layer.g, n), Below(layer.g, n));
    if rest.ok && OnlyPath(layer, n, gone, path) && FirstGranted(layer, edges, n, i, cumulative, gone) {
      OnlyPathBelow(layer, n, c, gone, path);
      OneMoreChild(layer, edges, after, n, i + 1, cumulative, gone);
      StillCompatibleTrans(layer, edges, after, rest.edges, gone);
    }
  }

  lemma GrantSubtrees(layer: Layer, edges: Edges, below: Edges, c: nat, req: Perms, gone: set<nat>, path: set<nat>)
    requires Sized(layer, edges) && Sized(layer, below) && c in layer.g.target && c !in gone
    requires Keeps(edges, below, Below(layer.g, layer.g.target[c])) && OffPath(layer, layer.g.target[c], gone, path)
    requires var n := layer.g.target[c];
             var cumulative := Accumulate(edges, layer.g.parents[n], gone + (path + {c}), req);
             layer.Allows(n, cumulative) && Derived(layer, below, n, layer.g.children[n], cumulative)
    requires SubtreesGranted(layer, below, layer.g.children[layer.g.target[c]], gone)
    ensures SubtreesGranted(layer, below[c := Request(below[c], req)], [c], gone)
  {
    var n := layer.g.target[c];
    var edges' := below[c := Request(below[c], req)];
    GrantAtTarget(layer, edges, below, c, req, gone, path);
    forall m | m in Reach(layer.g, n) ensures Granted(layer, edges', m, gone) {
      if m != n { GrantInSubtree(layer, below, c, req, m, gone); }
    }
  }

  lemma GrantStaysCompatible(layer: Layer, edges: Edges, below: Edges, c: nat, req: Perms, gone: set<nat>)
    requires Sized(layer, edges) && Sized(layer, below) && c in layer.g.target && c !in gone
    requires OthersTolerate(layer, below, layer.g.target[c], c, req, gone) && StillCompatible(layer, edges, below, gone)
    ensures StillCompatible(layer, edges, below[c := Request(below[c], req)], gone)
  {
    forall m | m in layer.g.children && Compatible(layer, edges, m, gone)
      ensures Compatible(layer, below[c := Request(below[c], req)], m, gone)
    {
      GrantIsCompatible(layer, below, c, req, gone, m);
    }
  }

  lemma GrantChild(layer: Layer, edges: Edges, below: Edges, c: nat, req: Perms, gone: set<nat>, path: set<nat>)
    requires Sized(layer, edges) && Sized(layer, below) && c in layer.g.target
    requires Keeps(edges, below, Below(layer.g, layer.g.target[c]))
    requires OnlyPath(layer, layer.g.target[c], gone, path + {c}) ==>
               UpdateGranted(layer, edges, below, layer.g.target[c], req, gone, path + {c})
    ensures c !in gone && OffPath(layer, layer.g.target[c], gone, path) ==>
              ChildGranted(layer, edges, below[c := Request(below[c], req)], c, req, gone)
  {
    var n := layer.g.target[c];
    var edges' := below[c := Request(below[c], req)];
    if c !in gone && OffPath(layer, n, gone, path) {
      assert UpdateGranted(layer, edges, below, n, req, gone, path + {c});
      GrantSubtrees(layer, edges, below, c, req, gone, path);
      OthersStillTolerate(layer, edges, below, c, req, gone, path);
      GrantStaysCompatible(layer, edges, below, c, req, gone);
    }
  }

  /** bdrv_check_update_perm; the list of ignored edges is the caller's, `gone`, and the `path` walked so far. */
  ghost function CheckUpdate(layer: Layer, edges: Edges, n: nat, req: Perms, gone: set<nat>,
                             path: set<nat>): (r: Checked)
    requires Sized(layer, edges) && n in layer.g.children
    ensures Keeps(edges, r.edges, Below(layer.g, n))
    ensures r.ok && OnlyPath(layer, n, gone, path) ==> UpdateGranted(layer, edges, r.edges, n, req, gone, path)
    decreases layer.height[n], 1, 0
  {
    if exists e :: e in layer.g.parents[n] && e !in gone + path && !Tolerates(req, edges[e].perms)
    then Checked(false, edges)
    else Check(layer, edges, n, Accumulate(edges, layer.g.parents[n], gone + path, req), gone, path)
  }

  /** bdrv_check_perm */
  ghost function Check(layer: Layer, edges: Edges, n: nat, cumulative: Perms, gone: set<nat>,
                       path: set<nat>): (r: Checked)
    requires Sized(layer, edges) && n in layer.g.children
    ensures Keeps(edges, r.edges, Below(layer.g, n))
    ensures r.ok && OnlyPath(layer, n, gone, path) ==> NodeGranted(layer, edges, r.edges, n, cumulative, gone)
    decreases layer.height[n], 0, |layer.g.children[n]| + 1
  {
    if !layer.Allows(n, cumulative) then Checked(false, edges)
    else CheckChildren(layer, edges, n, 0, cumulative, gone, path)
  }

  /** The loop of bdrv_check_perm, from child `i` on */
  ghost function CheckChildren(layer: Layer, edges: Edges, n: nat, i: nat, cumulative: Perms, gone: set<nat>,
                              path: set<nat>): (r: Checked)
    requires Sized(layer, edges) && n in layer.g.children && i <= |layer.g.children[n]|
    ensures Keeps(edges, r.edges, Below(layer.g, n))
    ensures r.ok && OnlyPath(layer, n, gone, path) && FirstGranted(layer, edges, n, i, cumulative, gone) ==>
              ListGranted(layer, edges, r.edges, n, layer.g.children[n], cumulative, gone)
    decreases layer.height[n], 0, |layer.g.children[n]| - i
  {
    var list := layer.g.children[n];
    if i == |list| then
      assert list[..i] == list;
      NothingTouched(layer, edges, n);
      Checked(true, edges)
    else
      assert list[i] in list;
      var after := CheckChild(layer, edges, list[i], layer.childPerms(n, list[i], cumulative), gone, path);
      if !after.ok then
        ChildKeeps(layer, edges, edges, after.edges, n, list[i]);
        after
      else
        var rest := CheckChildren(layer, after.edges, n, i + 1, cumulative, gone, path);
        NextChild(layer, edges, after.edges, rest, n, i, cumulative, gone, path);
        rest
  }

  /** bdrv_child_check_perm */
  ghost function CheckChild(layer: Layer, edges: Edges, c: nat, req: Perms, gone: set<nat>,
                            path: set<nat>): (r: Checked)
    requires Sized(layer, edges) && c in layer.g.target
    ensures Keeps(edges, r.edges, {c} + Below(layer.g, layer.g.target[c]))
    ensures r.ok && c !in gone && OffPath(layer, layer.g.target[c], gone, path) ==>
      ChildGranted(layer, edges, r.edges, c, req, gone)
    decreases layer.height[layer.g.target[c]], 2, 0
  {
    var below := CheckUpdate(layer, edges, layer.g.target[c], req, gone, path + {c});
    if !below.ok then below
    else
      RequestKeeps(edges, below.edges, Below(layer.g, layer.g.target[c]), c, req);
      GrantChild(layer, edges, below.edges, c, req, gone, path);
      Checked(true, below.edges[c := Request(below.edges[c], req)])
  }

  // ---- Whole updates

  ghost predicate NoBackups(edges: Edges) {
    forall e :: e in edges ==> edges[e].backup == None
  }

  /** bdrv_abort_perm_update over the edges in `list` */
  ghost function Abort(edges: Edges, list: set<nat>): Edges {
    map e | e in edges :: if e in list then Restored(edges[e]) else edges[e]
  }

  /** bdrv_set_perm over the edges in `list` */
  ghost function Settle(edges: Edges, list: set<nat>): Edges {
    map e | e in edges :: if e in list then Settled(edges[e]) else edges[e]
  }

  /** The edge `c` and the subtree of its node */
  ghost function From(layer: Layer, c: nat): set<nat>
    requires c in layer.g.target
  {
    {c} + Below(layer.g, layer.g.target[c])
  }

  /** However deep the check fails and however many edges it has rewritten, the abort pass restores every edge. */
  lemma AbortUndoesCheck(layer: Layer, edges: Edges, c: nat, req: Perms, gone: set<nat>, path: set<nat>)
    requires Sized(layer, edges) && c in layer.g.target && NoBackups(edges)
    ensures Abort(CheckChild(layer, edges, c, req, gone, path).edges, From(layer, c)) == edges
  {
    var r := CheckChild(layer, edges, c, req, gone, path).edges;
    assert Keeps(edges, r, From(layer, c));
    forall e | e in edges ensures Abort(r, From(layer, c))[e] == edges[e] {}
  }

  /**
   Every node accepts its users, every edge carries what follows from its owner's users, and all users are at peace.
   */
  ghost predicate Coherent(layer: Layer, edges: Edges) {
    && Sized(layer, edges)
    && forall n :: n in layer.g.children ==> Granted(layer, edges, n, {}) && Compatible(layer, edges, n, {})
  }

  lemma SettlingForgets(edges: Edges, edges': Edges, list: set<nat>)
    requires NoBackups(edges) && Keeps(edges, edges', list)
    ensures NoBackups(Settle(edges', list))
    ensures forall e :: e in edges ==> Settle(edges', list)[e] == if e in list then Settled(edges'[e]) else edges[e]
  {
  }

  lemma CheckedNode(layer: Layer, edges: Edges, edges': Edges, c: nat, req: Perms, n: nat)
    requires Sized(layer, edges) && Sized(layer, edges') && c in layer.g.target && c !in layer.g.owner
    requires n in layer.g.children
    requires Granted(layer, edges, n, {}) && Compatible(layer, edges, n, {})
    requires Keeps(edges, edges', From(layer, c)) && ChildGranted(layer, edges, edges', c, req, {})
    ensures Granted(layer, edges', n, {}) && Compatible(layer, edges', n, {})
  {
    if n in Reach(layer.g, layer.g.target[c]) {
      assert c in [c];
    } else {
      ChildDisturbsNothing(layer, edges, edges', c, n, {});
    }
  }

  lemma CheckedIsCoherent(layer: Layer, edges: Edges, edges': Edges, c: nat, req: Perms)
    requires Coherent(layer, edges) && Sized(layer, edges') && c in layer.g.target && c !in layer.g.owner
    requires Keeps(edges, edges', From(layer, c)) && ChildGranted(layer, edges, edges', c, req, {})
    ensures Coherent(layer, edges')
  {
    forall n | n in layer.g.children ensures Granted(layer, edges', n, {}) && Compatible(layer, edges', n, {}) {
      CheckedNode(layer, edges, edges', c, req, n);
    }
  }

  lemma SamePermsSameNode(layer: Layer, edges: Edges, edges': Edges, n: nat)
    requires Sized(layer, edges) && Sized(layer, edges') && n in layer.g.children
    requires forall e :: e in edges ==> edges'[e].perms == edges[e].perms
    requires Granted(layer, edges, n, {}) && Compatible(layer, edges, n, {})
    ensures Granted(layer, edges', n, {}) && Compatible(layer, edges', n, {})
  {
    GrantedFrame(layer, edges, edges', n, {});
    forall d | d in layer.g.parents[n] ensures OthersTolerate(layer, edges', n, d, edges'[d].perms, {}) {
      assert OthersTolerate(layer, edges, n, d, edges[d].perms, {});
    }
  }

  lemma SettlingIsCoherent(layer: Layer, edges: Edges, list: set<nat>)
    requires Coherent(layer, edges)
    ensures Coherent(layer, Settle(edges, list))
  {
    var edges' := Settle(edges, list);
    forall n | n in layer.g.children ensures Granted(layer, edges', n, {}) && Compatible(layer, edges', n, {}) {
      SamePermsSameNode(layer, edges, edges', n);
    }
  }

  lemma SetAfterCheck(layer: Layer, edges: Edges, edges': Edges, c: nat, req: Perms)
    requires Coherent(layer, edges) && Sized(layer, edges') && NoBackups(edges) && c in layer.g.target
    requires c !in layer.g.owner
    requires Keeps(edges, edges', From(layer, c)) && ChildGranted(layer, edges, edges', c, req, {})
    ensures var edges'' := Settle(edges', From(layer, c));
            && Coherent(layer, edges'') && NoBackups(edges'') && edges''[c].perms == req
            && forall e :: e in edges && e !in From(layer, c) ==> edges''[e] == edges[e]
  {
    CheckedIsCoherent(layer, edges, edges', c, req);
    SettlingIsCoherent(layer, edges', From(layer, c));
    SettlingForgets(edges, edges', From(layer, c));
  }

  /**
   A successful check-then-set on an edge that no node owns leaves the whole graph coherent, however
   often shared nodes are visited; it grants the request and touches nothing outside the subtree.
   */
  lemma CheckThenSetIsCoherent(layer: Layer, edges: Edges, c: nat, req: Perms)
    requires Coherent(layer, edges) && NoBackups(edges) && c in layer.g.target && c !in layer.g.owner
    requires CheckChild(layer, edges, c, req, {}, {}).ok
    ensures var edges' := Settle(CheckChild(layer, edges, c, req, {}, {}).edges, From(layer, c));
            && Coherent(layer, edges') && NoBackups(edges') && edges'[c].perms == req
            && forall e :: e in edges && e !in From(layer, c) ==> edges'[e] == edges[e]
  {
    var r := CheckChild(layer, edges, c, req, {}, {}).edges;
    assert OffPath(layer, layer.g.target[c], {}, {});
    SetAfterCheck(layer, edges, r, c, req);
  }
}
