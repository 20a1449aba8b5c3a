/**
 Moving block nodes to another AioContext (tools/qemu/block.c, tools/qemu/blockjob.c): a node takes its
 children and its parents along, and a job takes all of its nodes along.  One walk asks every user
 whether it agrees; a second walk moves.  Both remember the edges they have seen in an `ignore` list.
 */
module BlockAioContext {
  import opened Common
  import opened BlockGraph

  /** The user behind an edge that no node owns */
  datatype User =
    | Job(job: nat)
    | Backend(blk: nat, allowsChange: bool, named: bool, attached: bool)
    | Other // its class has no can_set_aio_ctx

  datatype AnyNet = Net(g: Graph, user: map<nat, User>, jobs: map<nat, seq<nat>>)
  {
    ghost predicate Valid() {
      && WellFormed(g)
      && (forall e {:trigger g.owner[e]} :: e in g.owner ==> e in g.target && g.owner[e] != g.target[e])
      && (forall e {:trigger e in g.owner} {:trigger e in user} :: e in g.target ==> (e in user <==> e !in g.owner))
      && user.Keys <= g.target.Keys
      && (forall e {:trigger user[e]} :: e in user && user[e].Job? ==> user[e].job in jobs && e in jobs[user[e].job])
      && (forall j, e {:trigger e in jobs[j]} :: j in jobs && e in jobs[j] ==> e in user && user[e] == Job(j))
    }
  }

  type Net = net: AnyNet | net.Valid() ghost witness Net(Graph(map[], map[], map[], map[]), map[], map[])

  /** The contexts of nodes, jobs and backends */
  datatype Contexts = Contexts(nodes: map<nat, nat>, jobs: map<nat, nat>, blks: map<nat, nat>)

  ghost predicate Sized(net: Net, s: Contexts) {
    && s.nodes.Keys == net.g.children.Keys && s.jobs.Keys == net.jobs.Keys
    && forall e {:trigger net.user[e]} :: e in net.user && net.user[e].Backend? ==> net.user[e].blk in s.blks
  }

  // ---- The nodes that must move together

  ghost predicate Touches(net: Net, e: nat, n: nat) {
    e in net.g.target && (net.g.target[e] == n || (e in net.g.owner && net.g.owner[e] == n))
  }

  /** The nodes at the ends of `e`, and for a job those of all its edges, are among `nodes`. */
  ghost predicate Joined(net: Net, skip: set<nat>, nodes: set<nat>, e: nat)
    requires e in net.g.target
  {
    && net.g.target[e] in nodes
    && (e in net.g.owner ==> net.g.owner[e] in nodes)
    && (e in net.user && net.user[e].Job? ==>
          forall s :: s in net.jobs[net.user[e].job] && s !in skip ==> net.g.target[s] in nodes)
  }

  /** Whoever has one end of an edge that is not skipped has all of them, up to the nodes in `there`. */
  ghost predicate Closed(net: Net, skip: set<nat>, there: set<nat>, nodes: set<nat>) {
    forall n, e {:trigger Touches(net, e, n)} :: n in nodes && e !in skip && Touches(net, e, n) ==>
      Joined(net, skip, nodes + there, e)
  }

  /** The nodes that are in the new context already, at which both walks turn round */
  ghost function There(ctx: map<nat, nat>, new_: nat): set<nat> {
    set n | n in ctx && ctx[n] == new_
  }

  /** The smallest closed set of nodes with `n` in it */
  ghost function Component(net: Net, skip: set<nat>, there: set<nat>, n: nat): set<nat> {
    set m | m in net.g.children && m !in there
            && forall nodes: set<nat> :: n in nodes && Closed(net, skip, there, nodes) ==> m in nodes
  }

  lemma ComponentIsClosed(net: Net, skip: set<nat>, there: set<nat>, n: nat)
    requires n in net.g.children && n !in there
    ensures n in Component(net, skip, there, n) && Closed(net, skip, there, Component(net, skip, there, n))
  {
    var all := Component(net, skip, there, n);
    forall m, e | m in all && e !in skip && Touches(net, e, m) ensures Joined(net, skip, all + there, e) {
      forall nodes: set<nat> | n in nodes && Closed(net, skip, there, nodes)
        ensures Joined(net, skip, nodes + there, e)
      {
        assert m in nodes;
      }
    }
  }

  /** blk_root_can_set_aio_ctx, and classes that cannot change contexts at all */
  predicate Refuses(net: Net, e: nat) {
    e in net.user &&
    match net.user[e]
    case Job(_) => false
    case Backend(_, allowsChange, named, attached) => !allowsChange && (!named || attached)
    case Other => true
  }

  /** Some user of the nodes refuses to change contexts. */
  ghost predicate Refused(net: Net, skip: set<nat>, nodes: set<nat>) {
    exists e, n :: n in nodes && e !in skip && Touches(net, e, n) && Refuses(net, e)
  }

  // ---- The walk that asks

  ghost predicate Seen(net: Net, n: nat, ignore: set<nat>) {
    forall e {:trigger Touches(net, e, n)} :: Touches(net, e, n) ==> e in ignore
  }

  /**
   Between `ignore` and `ignore'` the walk has looked at edges that do not refuse, and at everything that
   belongs to them, except for the edges of nodes in `open` and of jobs in `openJobs`.
   */
  ghost predicate Asked(net: Net, ignore: set<nat>, ignore': set<nat>, open: set<nat>, openJobs: set<nat>) {
    && ignore <= ignore'
    && forall e {:trigger e in ignore'} :: e in ignore' && e !in ignore ==>
         && e in net.g.target && !Refuses(net, e)
         && (forall n {:trigger Touches(net, e, n)} :: Touches(net, e, n) && n !in open ==> Seen(net, n, ignore'))
         && (e in net.user && net.user[e].Job? && net.user[e].job !in openJobs ==>
               forall s :: s in net.jobs[net.user[e].job] ==> s in ignore')
  }

  lemma AskedTrans(net: Net, ignore: set<nat>, ignore': set<nat>, ignore'': set<nat>, open: set<nat>,
                   openJobs: set<nat>)
    requires Asked(net, ignore, ignore', open, openJobs) && Asked(net, ignore', ignore'', open, openJobs)
    ensures Asked(net, ignore, ignore'', open, openJobs)
  {
  }

  ghost function Left(net: Net, ignore: set<nat>): nat {
    |net.g.target.Keys - ignore|
  }

  lemma LeftShrinks(net: Net, ignore: set<nat>, ignore': set<nat>)
    requires ignore <= ignore'
    ensures Left(net, ignore') <= Left(net, ignore)
    ensures forall e :: e in net.g.target && e in ignore' && e !in ignore ==> Left(net, ignore') < Left(net, ignore)
  {
    var all := net.g.target.Keys;
    Subsets(all - ignore', all - ignore);
    forall e | e in net.g.target && e in ignore' && e !in ignore ensures Left(net, ignore') < Left(net, ignore) {
      Subsets(all - ignore', all - ignore - {e});
    }
  }

  lemma SeenAll(net: Net, ignore: set<nat>, ignore': set<nat>, there: set<nat>, n: nat)
    requires Asked(net, ignore, ignore', there + {n}, {}) && n in net.g.children
    requires forall e :: e in net.g.parents[n] || e in net.g.children[n] ==> e in ignore'
    ensures Seen(net, n, ignore') && Asked(net, ignore, ignore', there, {})
  {
  }

  lemma AskedOwner(net: Net, ignore: set<nat>, ignore': set<nat>, there: set<nat>, c: nat)
    requires c in net.g.owner && c !in ignore && Asked(net, ignore + {c}, ignore', there, {})
    requires net.g.owner[c] in there || Seen(net, net.g.owner[c], ignore')
    ensures Asked(net, ignore, ignore', there + {net.g.target[c]}, {})
  {
  }

  lemma AskedJob(net: Net, ignore: set<nat>, ignore': set<nat>, there: set<nat>, c: nat, j: nat)
    requires c in net.user && net.user[c] == Job(j) && c !in ignore && Asked(net, ignore + {c}, ignore', there, {j})
    requires forall s :: s in net.jobs[j] ==> s in ignore'
    ensures Asked(net, ignore, ignore', there + {net.g.target[c]}, {})
  {
  }

  lemma AskedBackend(net: Net, ignore: set<nat>, there: set<nat>, c: nat)
    requires c in net.user && net.user[c].Backend? && !Refuses(net, c)
    ensures Asked(net, ignore, ignore + {c}, there + {net.g.target[c]}, {})
  {
  }

  /** The node that owns an edge */
  function Owner(net: Net, c: nat): set<nat> {
    if c in net.g.owner then {net.g.owner[c]} else {}
  }

  /** The job that holds an edge */
  function OwnerJob(net: Net, c: nat): set<nat> {
    if c in net.user && net.user[c].Job? then {net.user[c].job} else {}
  }

  lemma AskedTarget(net: Net, ignore: set<nat>, ignore': set<nat>, there: set<nat>, c: nat)
    requires c in net.g.target && c !in ignore && (c in net.g.owner || net.user[c].Job?)
    requires Asked(net, ignore + {c}, ignore', there, {})
    requires net.g.target[c] in there || Seen(net, net.g.target[c], ignore')
    ensures Asked(net, ignore, ignore', there + Owner(net, c), OwnerJob(net, c))
  {
  }

  /** Nodes that have to move together; those in `there` are in the new context. */
  ghost predicate Together(net: Net, nodes: set<nat>, skip: set<nat>, there: set<nat>, ctx: map<nat, nat>, new_: nat) {
    && Closed(net, skip, there, nodes) && nodes <= net.g.children.Keys == ctx.Keys && there == There(ctx, new_)
    && nodes !! there
  }

  /** bdrv_can_set_aio_context */
  method CanSet(net: Net, ctx: map<nat, nat>, bs: nat, new_: nat, ignore: set<nat>, ghost skip: set<nat>,
                ghost nodes: set<nat>, ghost there: set<nat>)
    returns (ok: bool, ignore': set<nat>)
    requires Together(net, nodes, skip, there, ctx, new_) && bs in nodes + there && skip <= ignore
    ensures ok ==> Asked(net, ignore, ignore', there, {}) && (bs in there || Seen(net, bs, ignore'))
    ensures !ok ==> bs in nodes && Refused(net, skip, nodes)
    decreases Left(net, ignore), 2
  {
    if ctx[bs] == new_ { return true, ignore; }
    ok, ignore' := ParentsCanSet(net, ctx, bs, new_, ignore, skip, nodes, there);
    if !ok { return; }
    LeftShrinks(net, ignore, ignore');
    ghost var before := ignore';
    ok, ignore' := ChildrenCanSet(net, ctx, bs, new_, ignore', skip, nodes, there);
    if !ok { return; }
    AskedTrans(net, ignore, before, ignore', there + {bs}, {});
    SeenAll(net, ignore, ignore', there, bs);
  }

  /** The loop of bdrv_can_set_aio_context over the parents */
  method ParentsCanSet(net: Net, ctx: map<nat, nat>, bs: nat, new_: nat, ignore: set<nat>, ghost skip: set<nat>,
                       ghost nodes: set<nat>, ghost there: set<nat>)
    returns (ok: bool, ignore': set<nat>)
    requires Together(net, nodes, skip, there, ctx, new_) && bs in nodes && skip <= ignore
    ensures ok ==> Asked(net, ignore, ignore', there + {bs}, {}) && forall e :: e in net.g.parents[bs] ==> e in ignore'
    ensures !ok ==> Refused(net, skip, nodes)
    decreases Left(net, ignore), 1
  {
    ok, ignore' := true, ignore;
    var parents := net.g.parents[bs];
    for i := 0 to |parents|
      invariant Asked(net, ignore, ignore', there + {bs}, {})
      invariant forall k :: 0 <= k < i ==> parents[k] in ignore'
    {
      assert parents[i] in parents;
      LeftShrinks(net, ignore, ignore');
      ghost var before := ignore';
      ok, ignore' := ParentCanSet(net, ctx, parents[i], new_, ignore', skip, nodes, there);
      if !ok { return; }
      AskedTrans(net, ignore, before, ignore', there + {bs}, {});
    }
  }

  /** The loop of bdrv_can_set_aio_context over the children */
  method ChildrenCanSet(net: Net, ctx: map<nat, nat>, bs: nat, new_: nat, ignore: set<nat>, ghost skip: set<nat>,
                        ghost nodes: set<nat>, ghost there: set<nat>)
    returns (ok: bool, ignore': set<nat>)
    requires Together(net, nodes, skip, there, ctx, new_) && bs in nodes && skip <= ignore
    ensures ok ==> Asked(net, ignore, ignore', there + {bs}, {}) && forall e :: e in net.g.children[bs] ==> e in ignore'
    ensures !ok ==> Refused(net, skip, nodes)
    decreases Left(net, ignore), 1
  {
    ok, ignore' := true, ignore;
    var children := net.g.children[bs];
    for i := 0 to |children|
      invariant Asked(net, ignore, ignore', there + {bs}, {})
      invariant forall k :: 0 <= k < i ==> children[k] in ignore'
    {
      assert children[i] in children && Touches(net, children[i], bs);
      LeftShrinks(net, ignore, ignore');
      ghost var before := ignore';
      ok, ignore' := ChildCanSet(net, ctx, children[i], new_, ignore', skip, nodes, there);
      if !ok { return; }
      AskedTrans(net, ignore, before, ignore', there + {bs}, {});
    }
  }

  /** bdrv_parent_can_set_aio_context with the callbacks of nodes, jobs and backends */
  method ParentCanSet(net: Net, ctx: map<nat, nat>, c: nat, new_: nat, ignore: set<nat>, ghost skip: set<nat>,
                      ghost nodes: set<nat>, ghost there: set<nat>)
    returns (ok: bool, ignore': set<nat>)
    requires Together(net, nodes, skip, there, ctx, new_) && skip <= ignore && c in net.g.target
    requires net.g.target[c] in nodes
    ensures ok ==> Asked(net, ignore, ignore', there + {net.g.target[c]}, {}) && c in ignore'
    ensures !ok ==> Refused(net, skip, nodes)
    decreases Left(net, ignore), 0
  {
    if c in ignore { return true, ignore; }
    ignore' := ignore + {c};
    LeftShrinks(net, ignore, ignore');
    assert Touches(net, c, net.g.target[c]);
    if c in net.g.owner {
      ok, ignore' := CanSet(net, ctx, net.g.owner[c], new_, ignore', skip, nodes, there);
      if ok { AskedOwner(net, ignore, ignore', there, c); }
    } else {
      match net.user[c]
      case Job(j) =>
        ok, ignore' := JobCanSet(net, ctx, j, new_, ignore', skip, nodes, there);
        if ok { AskedJob(net, ignore, ignore', there, c, j); }
      case Backend(blk, allowsChange, named, attached) =>
        ok := allowsChange || !(!named || attached);
        if ok { AskedBackend(net, ignore, there, c); }
      case Other =>
        ok := false;
    }
  }

  /** child_job_can_set_aio_ctx */
  method JobCanSet(net: Net, ctx: map<nat, nat>, j: nat, new_: nat, ignore: set<nat>, ghost skip: set<nat>,
                   ghost nodes: set<nat>, ghost there: set<nat>)
    returns (ok: bool, ignore': set<nat>)
    requires Together(net, nodes, skip, there, ctx, new_) && skip <= ignore && j in net.jobs
    requires forall s :: s in net.jobs[j] && s !in skip ==> net.g.target[s] in nodes + there
    ensures ok ==> Asked(net, ignore, ignore', there, {j}) && forall s :: s in net.jobs[j] ==> s in ignore'
    ensures !ok ==> Refused(net, skip, nodes)
    decreases Left(net, ignore), 1
  {
    ok, ignore' := true, ignore;
    var list := net.jobs[j];
    for i := 0 to |list|
      invariant Asked(net, ignore, ignore', there, {j})
      invariant forall k :: 0 <= k < i ==> list[k] in ignore'
    {
      assert list[i] in list;
      LeftShrinks(net, ignore, ignore');
      ghost var before := ignore';
      ok, ignore' := ChildCanSet(net, ctx, list[i], new_, ignore', skip, nodes, there);
      if !ok { return; }
      assert there + {} == there;
      AskedTrans(net, ignore, before, ignore', there, {j});
    }
  }

  /** bdrv_child_can_set_aio_context */
  method ChildCanSet(net: Net, ctx: map<nat, nat>, c: nat, new_: nat, ignore: set<nat>, ghost skip: set<nat>,
                     ghost nodes: set<nat>, ghost there: set<nat>)
    returns (ok: bool, ignore': set<nat>)
    requires Together(net, nodes, skip, there, ctx, new_) && skip <= ignore && c in net.g.target
    requires c !in skip ==> net.g.target[c] in nodes + there
    requires c in net.g.owner || net.user[c].Job?
    ensures ok ==> Asked(net, ignore, ignore', there + Owner(net, c), OwnerJob(net, c)) && c in ignore'
    ensures !ok ==> Refused(net, skip, nodes)
    decreases Left(net, ignore), 0
  {
    if c in ignore { return true, ignore; }
    LeftShrinks(net, ignore, ignore + {c});
    ok, ignore' := CanSet(net, ctx, net.g.target[c], new_, ignore + {c}, skip, nodes, there);
    if ok { AskedTarget(net, ignore, ignore', there, c); }
  }

  lemma SeenIsJoined(net: Net, skip: set<nat>, ignore: set<nat>, there: set<nat>, seen: set<nat>, m: nat, e: nat)
    requires Asked(net, skip, ignore, there, {}) && seen == (set x | x in net.g.children && Seen(net, x, ignore))
    requires m in seen && e !in skip && Touches(net, e, m)
    ensures Joined(net, skip, seen + there, e)
  {
    assert e in ignore;
    assert Touches(net, e, net.g.target[e]);
    if e in net.g.owner { assert Touches(net, e, net.g.owner[e]); }
    if e in net.user && net.user[e].Job? {
      forall s | s in net.jobs[net.user[e].job] && s !in skip ensures net.g.target[s] in seen + there {
        assert s in ignore && Touches(net, s, net.g.target[s]);
      }
    }
  }

  /** If the walk from `n` finds nobody who refuses, nobody in the whole component does. */
  lemma AskedEverybody(net: Net, skip: set<nat>, ignore: set<nat>, there: set<nat>, n: nat)
    requires Asked(net, skip, ignore, there, {}) && Seen(net, n, ignore) && n in net.g.children
    ensures !Refused(net, skip, Component(net, skip, there, n))
  {
    var seen := set m | m in net.g.children && Seen(net, m, ignore);
    forall m, e | m in seen && e !in skip && Touches(net, e, m) ensures Joined(net, skip, seen + there, e) {
      SeenIsJoined(net, skip, ignore, there, seen, m, e);
    }
    assert Component(net, skip, there, n) <= seen;
  }
}
