/**
 The walk that moves nodes to another AioContext (tools/qemu/block.c, bdrv_set_aio_context_ignore) and
 bdrv_child_try_set_aio_context, which asks before it moves.
 */
module BlockAioMove {
  import opened Common
  import opened BlockGraph
  import opened BlockAioContext

  /**
   What holds whenever the walk enters or leaves a node.  The nodes in `gray` are being visited: all their
   edges are in `ignore`, but they have not been moved.  A job edge in `ignore` leads to such a node, to
   one that has been moved, or to the one in `at` that is about to be visited.
   */
  ghost predicate Inv(net: Net, skip: set<nat>, there: set<nat>, nodes: set<nat>, gray: set<nat>, at: set<nat>,
                      new_: nat,
                      s: Contexts, ignore: set<nat>) {
    && skip <= ignore && gray <= nodes <= net.g.children.Keys && Sized(net, s) && Closed(net, skip, there, nodes)
    && (forall n {:trigger n in there} :: n in there ==> n in s.nodes && s.nodes[n] == new_)
    && (forall n {:trigger n in gray} :: n in gray ==> s.nodes[n] != new_ && Seen(net, n, ignore))
    && (forall n {:trigger s.nodes[n]} :: n in nodes && s.nodes[n] == new_ ==> Seen(net, n, ignore))
    && (forall e {:trigger net.user[e]} :: e in net.user && net.user[e].Job? && e in ignore && e !in skip ==>
          net.g.target[e] in gray || net.g.target[e] in at || s.nodes[net.g.target[e]] == new_)
  }

  ghost predicate JobDone(net: Net, new_: nat, s: Contexts, ignore: set<nat>, j: nat)
    requires Sized(net, s) && j in net.jobs
  {
    s.jobs[j] == new_ && forall e :: e in net.jobs[j] ==> e in ignore
  }

  /**
   Whatever `e` belongs to has been moved, or will be when the walk leaves the nodes in `gray` and the job in `open`.
   */
  ghost predicate Done(net: Net, gray: set<nat>, open: set<nat>, new_: nat, s: Contexts, ignore: set<nat>, e: nat)
    requires Sized(net, s)
  {
    && e in net.g.target
    && (forall n {:trigger Touches(net, e, n)} :: Touches(net, e, n) ==> n in gray || s.nodes[n] == new_)
    && (e in net.user && net.user[e].Job? && net.user[e].job !in open ==>
         JobDone(net, new_, s, ignore, net.user[e].job))
    && (e in net.user && net.user[e].Backend? ==> s.blks[net.user[e].blk] == new_)
  }

  /** The job works on one of the nodes. */
  ghost predicate HasJob(net: Net, skip: set<nat>, nodes: set<nat>, j: nat) {
    j in net.jobs && exists e :: e in net.jobs[j] && e !in skip && net.g.target[e] in nodes
  }

  /** The backend is attached to one of the nodes. */
  ghost predicate HasBackend(net: Net, skip: set<nat>, nodes: set<nat>, blk: nat) {
    exists e {:trigger net.user[e]} ::
      e in net.user && net.user[e].Backend? && net.user[e].blk == blk && e !in skip && net.g.target[e] in nodes
  }

  /** Contexts change only to `new_`, only for what belongs to `nodes`, and every newly ignored edge is done. */
  ghost predicate Moves(net: Net, skip: set<nat>, nodes: set<nat>, gray: set<nat>, open: set<nat>, new_: nat,
                        s: Contexts, ignore: set<nat>, s': Contexts, ignore': set<nat>)
  {
    && ignore <= ignore' && Sized(net, s) && Sized(net, s') && s'.blks.Keys == s.blks.Keys
    && (forall n {:trigger s'.nodes[n]} :: n in s.nodes ==>
         s'.nodes[n] == s.nodes[n] || (n in nodes && n !in gray && s'.nodes[n] == new_))
    && (forall j {:trigger s'.jobs[j]} :: j in s.jobs ==>
         s'.jobs[j] == s.jobs[j] || (s'.jobs[j] == new_ && HasJob(net, skip, nodes, j)))
    && (forall b {:trigger s'.blks[b]} :: b in s.blks ==>
         s'.blks[b] == s.blks[b] || (s'.blks[b] == new_ && HasBackend(net, skip, nodes, b)))
    && (forall e {:trigger e in ignore'} :: e in ignore' && e !in ignore ==>
         Done(net, gray, open, new_, s', ignore', e))
  }

  lemma MovesNothing(net: Net, skip: set<nat>, nodes: set<nat>, gray: set<nat>, open: set<nat>, new_: nat, s: Contexts,
                     ignore: set<nat>)
    requires Sized(net, s)
    ensures Moves(net, skip, nodes, gray, open, new_, s, ignore, s, ignore)
  {
  }

  lemma DoneLasts(net: Net, skip: set<nat>, nodes: set<nat>, gray: set<nat>, open: set<nat>, new_: nat,
                  s: Contexts, ignore: set<nat>, s': Contexts, ignore': set<nat>, e: nat)
    requires Moves(net, skip, nodes, gray, open, new_, s, ignore, s', ignore')
    requires Done(net, gray, open, new_, s, ignore, e)
    ensures Done(net, gray, open, new_, s', ignore', e)
  {
  }

  lemma MovesTrans(net: Net, skip: set<nat>, nodes: set<nat>, gray: set<nat>, open: set<nat>, new_: nat,
                   s: Contexts, ignore: set<nat>, s': Contexts, ignore': set<nat>, s'': Contexts, ignore'': set<nat>)
    requires Moves(net, skip, nodes, gray, open, new_, s, ignore, s', ignore')
    requires Moves(net, skip, nodes, gray, open, new_, s', ignore', s'', ignore'')
    ensures Moves(net, skip, nodes, gray, open, new_, s, ignore, s'', ignore'')
  {
    forall e | e in ignore'' && e !in ignore ensures Done(net, gray, open, new_, s'', ignore'', e) {
      if e in ignore' { DoneLasts(net, skip, nodes, gray, open, new_, s', ignore', s'', ignore'', e); }
    }
  }

  /** Entering a node: all its edges are in `ignore` from now on. */
  lemma Enter(net: Net, skip: set<nat>, there: set<nat>, nodes: set<nat>, gray: set<nat>, bs: nat, new_: nat,
              s: Contexts,
              ignore: set<nat>, ignore': set<nat>)
    requires Inv(net, skip, there, nodes, gray, {bs}, new_, s, ignore) && bs in nodes && s.nodes[bs] != new_
    requires forall e :: e in ignore' <==> e in ignore || e in net.g.children[bs] || e in net.g.parents[bs]
    ensures Inv(net, skip, there, nodes, gray + {bs}, {}, new_, s, ignore')
  {
  }

  /** The users that SetParent tells */
  ghost predicate Told(net: Net, new_: nat, s: Contexts, ignore: set<nat>, p: nat)
    requires Sized(net, s)
  {
    && (p in net.g.owner ==> net.g.owner[p] in s.nodes && s.nodes[net.g.owner[p]] == new_)
    && (p in net.user && net.user[p].Job? ==> JobDone(net, new_, s, ignore, net.user[p].job))
    && (p in net.user && net.user[p].Backend? ==> s.blks[net.user[p].blk] == new_)
  }

  function Put(s: Contexts, bs: nat, new_: nat): Contexts {
    s.(nodes := s.nodes[bs := new_])
  }

  function PutBackend(s: Contexts, blk: nat, new_: nat): Contexts {
    s.(blks := s.blks[blk := new_])
  }

  lemma LeaveInv(net: Net, skip: set<nat>, there: set<nat>, nodes: set<nat>, gray: set<nat>, bs: nat, new_: nat,
                 s: Contexts, ignore: set<nat>)
    requires Inv(net, skip, there, nodes, gray + {bs}, {}, new_, s, ignore) && bs !in gray
    ensures Inv(net, skip, there, nodes, gray, {}, new_, Put(s, bs, new_), ignore)
  {
    assert bs in gray + {bs};
    assert forall n :: n in gray ==> n in gray + {bs};
  }

  /** The edges of `bs` that the walk put into `ignore` when it entered it have been followed. */
  ghost predicate Followed(net: Net, bs: nat, new_: nat, s: Contexts, ignore: set<nat>, e: nat)
    requires Sized(net, s)
  {
    && Touches(net, e, bs)
    && (e in net.g.owner && net.g.owner[e] == bs ==> s.nodes[net.g.target[e]] == new_)
    && (net.g.target[e] == bs ==> Told(net, new_, s, ignore, e))
  }

  lemma FollowedIsDone(net: Net, gray: set<nat>, bs: nat, new_: nat, s: Contexts, ignore: set<nat>, e: nat)
    requires Sized(net, s) && Followed(net, bs, new_, s, ignore, e) && bs in s.nodes
    ensures Done(net, gray, {}, new_, Put(s, bs, new_), ignore, e)
  {
  }

  lemma DoneAtLast(net: Net, gray: set<nat>, bs: nat, new_: nat, s: Contexts, ignore: set<nat>, e: nat)
    requires Sized(net, s) && Done(net, gray + {bs}, {}, new_, s, ignore, e) && bs in s.nodes
    ensures Done(net, gray, {}, new_, Put(s, bs, new_), ignore, e)
  {
  }

  /** Leaving a node, after its children and parents have been moved. */
  lemma LeaveMoves(net: Net, skip: set<nat>, nodes: set<nat>, gray: set<nat>, bs: nat, new_: nat,
                   s: Contexts, ignore: set<nat>, ignore': set<nat>, s': Contexts, ignore'': set<nat>)
    requires Moves(net, skip, nodes, gray + {bs}, {}, new_, s, ignore', s', ignore'') && bs in nodes && bs in s.nodes
    requires bs !in gray && ignore <= ignore'
    requires forall e {:trigger e in ignore'} :: e in ignore' && e !in ignore ==>
      Followed(net, bs, new_, s', ignore'', e)
    ensures Moves(net, skip, nodes, gray, {}, new_, s, ignore, Put(s', bs, new_), ignore'')
  {
    forall e | e in ignore'' && e !in ignore ensures Done(net, gray, {}, new_, Put(s', bs, new_), ignore'', e) {
      if e in ignore' {
        FollowedIsDone(net, gray, bs, new_, s', ignore'', e);
      } else {
        DoneAtLast(net, gray, bs, new_, s', ignore'', e);
      }
    }
  }

  // ---- A job moves all its nodes

  lemma EnterSibling(net: Net, skip: set<nat>, there: set<nat>, nodes: set<nat>, gray: set<nat>, new_: nat, s: Contexts,
                     ignore: set<nat>, e: nat)
    requires Inv(net, skip, there, nodes, gray, {}, new_, s, ignore) && e in net.g.target && e !in ignore
    ensures net.g.target[e] !in gray && (net.g.target[e] in nodes ==> s.nodes[net.g.target[e]] != new_)
    ensures Inv(net, skip, there, nodes, gray, {net.g.target[e]}, new_, s, ignore + {e})
  {
    assert Touches(net, e, net.g.target[e]);
  }

  lemma SiblingMoves(net: Net, skip: set<nat>, nodes: set<nat>, gray: set<nat>, new_: nat,
                     s: Contexts, ignore: set<nat>, s': Contexts, ignore': set<nat>, e: nat, j: nat)
    requires e in net.user && net.user[e] == Job(j) && e !in ignore
    requires Moves(net, skip, nodes, gray, {}, new_, s, ignore + {e}, s', ignore') && s'.nodes[net.g.target[e]] == new_
    ensures Moves(net, skip, nodes, gray, {j}, new_, s, ignore, s', ignore')
  {
    assert Done(net, gray, {j}, new_, s', ignore', e);
  }

  lemma LeaveJob(net: Net, skip: set<nat>, there: set<nat>, nodes: set<nat>, gray: set<nat>, new_: nat,
                 s: Contexts, ignore: set<nat>, s': Contexts, ignore': set<nat>, j: nat)
    requires Inv(net, skip, there, nodes, gray, {}, new_, s', ignore') && HasJob(net, skip, nodes, j)
    requires Moves(net, skip, nodes, gray, {j}, new_, s, ignore, s', ignore')
    requires forall e :: e in net.jobs[j] ==> e in ignore'
    ensures var after := s'.(jobs := s'.jobs[j := new_]);
            && Inv(net, skip, there, nodes, gray, {}, new_, after, ignore')
            && Moves(net, skip, nodes, gray, {}, new_, s, ignore, after, ignore')
            && JobDone(net, new_, after, ignore', j)
  {
    var after := s'.(jobs := s'.jobs[j := new_]);
    forall e | e in ignore' && e !in ignore ensures Done(net, gray, {}, new_, after, ignore', e) {
      assert Done(net, gray, {j}, new_, s', ignore', e);
    }
  }

  lemma ToldLasts(net: Net, skip: set<nat>, nodes: set<nat>, gray: set<nat>, new_: nat,
                  s: Contexts, ignore: set<nat>, s': Contexts, ignore': set<nat>, p: nat)
    requires Moves(net, skip, nodes, gray, {}, new_, s, ignore, s', ignore') && Told(net, new_, s, ignore, p)
    ensures Told(net, new_, s', ignore', p)
  {
  }

  /** The first `k` parents have been told. */
  ghost predicate AllTold(net: Net, new_: nat, s: Contexts, ignore: set<nat>, list: seq<nat>, k: nat)
    requires Sized(net, s)
  {
    forall i :: 0 <= i < k && i < |list| ==> Told(net, new_, s, ignore, list[i])
  }

  lemma AllToldLasts(net: Net, skip: set<nat>, nodes: set<nat>, gray: set<nat>, new_: nat,
                     s: Contexts, ignore: set<nat>, s': Contexts, ignore': set<nat>, list: seq<nat>, k: nat)
    requires Moves(net, skip, nodes, gray, {}, new_, s, ignore, s', ignore') && AllTold(net, new_, s, ignore, list, k)
    ensures AllTold(net, new_, s', ignore', list, k)
  {
    forall i | 0 <= i < k && i < |list| ensures Told(net, new_, s', ignore', list[i]) {
      ToldLasts(net, skip, nodes, gray, new_, s, ignore, s', ignore', list[i]);
    }
  }

  /** An edge that the walk finds at a node leads to a node it has not entered. */
  lemma FreshEnds(net: Net, skip: set<nat>, there: set<nat>, nodes: set<nat>, gray: set<nat>, bs: nat, new_: nat,
                  s: Contexts,
                  ignore: set<nat>, e: nat)
    requires Inv(net, skip, there, nodes, gray, {bs}, new_, s, ignore) && bs in nodes && Touches(net, e, bs)
    requires e !in ignore
    ensures net.g.target[e] in nodes + there
    ensures (e in net.g.owner && net.g.owner[e] == bs ==> net.g.target[e] !in gray + {bs})
    ensures e in net.g.owner && net.g.target[e] == bs ==>
      net.g.owner[e] in nodes + there && net.g.owner[e] !in gray + {bs}
  {
    assert Touches(net, e, net.g.target[e]);
    if e in net.g.owner { assert Touches(net, e, net.g.owner[e]); }
  }

  ghost predicate NewChildren(net: Net, there: set<nat>, nodes: set<nat>, gray: set<nat>, bs: nat, list: seq<nat>) {
    forall c :: c in list ==>
      c in net.g.target && c in net.g.owner && net.g.owner[c] == bs && net.g.target[c] in nodes + there
      && net.g.target[c] !in gray
  }

  ghost predicate NewParents(net: Net, skip: set<nat>, nodes: set<nat>, gray: set<nat>, bs: nat, list: seq<nat>) {
    forall p :: p in list ==>
      p in net.g.target && net.g.target[p] == bs && bs in nodes && p !in skip
      && (p in net.g.owner ==> net.g.owner[p] !in gray)
  }

  lemma AllFollowed(net: Net, skip: set<nat>, there: set<nat>, nodes: set<nat>, gray: set<nat>, bs: nat, new_: nat,
                    s: Contexts,
                    ignore: set<nat>, children: seq<nat>, parents: seq<nat>)
    requires Sized(net, s) && NewChildren(net, there, nodes, gray, bs, children)
    requires NewParents(net, skip, nodes, gray, bs, parents)
    requires forall c :: c in children ==> s.nodes[net.g.target[c]] == new_
    requires forall p :: p in parents ==> Told(net, new_, s, ignore, p)
    ensures forall e :: e in children || e in parents ==> Followed(net, bs, new_, s, ignore, e)
  {
  }

  lemma NewEdges(net: Net, skip: set<nat>, there: set<nat>, nodes: set<nat>, gray: set<nat>, bs: nat, new_: nat,
                 s: Contexts, ignore: set<nat>,
                 children: seq<nat>, parents: seq<nat>)
    requires Inv(net, skip, there, nodes, gray, {bs}, new_, s, ignore) && bs in nodes
    requires forall e :: e in children ==> e in net.g.children[bs] && e !in ignore
    requires forall e :: e in parents ==> e in net.g.parents[bs] && e !in ignore
    ensures NewChildren(net, there, nodes, gray + {bs}, bs, children)
    ensures NewParents(net, skip, nodes, gray + {bs}, bs, parents)
  {
    forall e | e in children || e in parents
      ensures net.g.target[e] in nodes + there
      ensures (e in net.g.owner && net.g.owner[e] == bs ==> net.g.target[e] !in gray + {bs})
      ensures e in net.g.owner && net.g.target[e] == bs ==> net.g.owner[e] !in gray + {bs}
    {
      assert Touches(net, e, bs);
      FreshEnds(net, skip, there, nodes, gray, bs, new_, s, ignore, e);
    }
  }

  function Skipped(ignoreChild: Option<nat>): set<nat> {
    if ignoreChild.Some? then {ignoreChild.value} else {}
  }

  /** The nodes that a move of `n` takes along */
  ghost function ToMove(net: Net, ignoreChild: Option<nat>, s: Contexts, new_: nat, n: nat): set<nat> {
    Component(net, Skipped(ignoreChild), There(s.nodes, new_), n)
  }

  /** The nodes are in the new context, with the jobs and backends that use them; nothing else has changed. */
  ghost predicate Switched(net: Net, skip: set<nat>, nodes: set<nat>, new_: nat, s: Contexts, s': Contexts) {
    && s'.nodes.Keys == s.nodes.Keys && s'.jobs.Keys == s.jobs.Keys && s'.blks.Keys == s.blks.Keys
    && (forall n :: n in s.nodes ==> s'.nodes[n] == if n in nodes then new_ else s.nodes[n])
    && (forall j :: j in s.jobs ==> s'.jobs[j] == if HasJob(net, skip, nodes, j) then new_ else s.jobs[j])
    && (forall b :: b in s.blks ==> s'.blks[b] == if HasBackend(net, skip, nodes, b) then new_ else s.blks[b])
  }

  lemma DoneIsJoined(net: Net, skip: set<nat>, there: set<nat>, nodes: set<nat>, moved: set<nat>, new_: nat,
                     s: Contexts, ignore: set<nat>, e: nat)
    requires Inv(net, skip, there, nodes, {}, {}, new_, s, ignore) && Done(net, {}, {}, new_, s, ignore, e)
    requires e in net.g.target && e !in skip && Joined(net, skip, nodes + there, e)
    requires moved == (set n | n in nodes && s.nodes[n] == new_)
    ensures Joined(net, skip, moved + there, e)
  {
    assert Touches(net, e, net.g.target[e]);
    if e in net.g.owner { assert Touches(net, e, net.g.owner[e]); }
    if e in net.user && net.user[e].Job? {
      forall x | x in net.jobs[net.user[e].job] && x !in skip ensures net.g.target[x] in moved + there {
        assert x in ignore && net.user[x].Job?;
      }
    }
  }

  lemma AllMoved(net: Net, skip: set<nat>, there: set<nat>, n: nat, new_: nat, s: Contexts, s': Contexts,
                 ignore: set<nat>)
    requires n in net.g.children && n !in there && s'.nodes.Keys == net.g.children.Keys
    requires Inv(net, skip, there, Component(net, skip, there, n), {}, {}, new_, s', ignore) && s'.nodes[n] == new_
    requires Moves(net, skip, Component(net, skip, there, n), {}, {}, new_, s, skip, s', ignore)
    ensures forall m :: m in Component(net, skip, there, n) ==> s'.nodes[m] == new_
  {
    var nodes := Component(net, skip, there, n);
    var moved := set m | m in nodes && s'.nodes[m] == new_;
    ComponentIsClosed(net, skip, there, n);
    forall m, e | m in moved && e !in skip && Touches(net, e, m) ensures Joined(net, skip, moved + there, e) {
      assert e in ignore;
      DoneIsJoined(net, skip, there, nodes, moved, new_, s', ignore, e);
    }
    assert Closed(net, skip, there, moved);
  }

  lemma UserMoved(net: Net, skip: set<nat>, there: set<nat>, n: nat, new_: nat, s: Contexts, s': Contexts,
                  ignore: set<nat>, e: nat)
    requires n in net.g.children && n !in there && s'.nodes.Keys == net.g.children.Keys
    requires Inv(net, skip, there, Component(net, skip, there, n), {}, {}, new_, s', ignore) && s'.nodes[n] == new_
    requires Moves(net, skip, Component(net, skip, there, n), {}, {}, new_, s, skip, s', ignore)
    requires e in net.user && e !in skip && net.g.target[e] in Component(net, skip, there, n)
    ensures Done(net, {}, {}, new_, s', ignore, e)
  {
    AllMoved(net, skip, there, n, new_, s, s', ignore);
    assert Touches(net, e, net.g.target[e]);
  }

  lemma MovedEverything(net: Net, skip: set<nat>, there: set<nat>, n: nat, new_: nat, s: Contexts, s': Contexts,
                        ignore: set<nat>)
    requires n in net.g.children && n !in there && s'.nodes.Keys == net.g.children.Keys
    requires Inv(net, skip, there, Component(net, skip, there, n), {}, {}, new_, s', ignore) && s'.nodes[n] == new_
    requires Moves(net, skip, Component(net, skip, there, n), {}, {}, new_, s, skip, s', ignore)
    ensures Switched(net, skip, Component(net, skip, there, n), new_, s, s')
  {
    AllMoved(net, skip, there, n, new_, s, s', ignore);
    forall j | j in s.jobs && HasJob(net, skip, Component(net, skip, there, n), j) ensures s'.jobs[j] == new_ {
      var e :| e in net.jobs[j] && e !in skip && net.g.target[e] in Component(net, skip, there, n);
      UserMoved(net, skip, there, n, new_, s, s', ignore, e);
    }
    forall b | b in s.blks && HasBackend(net, skip, Component(net, skip, there, n), b) ensures s'.blks[b] == new_ {
      var e {:trigger net.user[e]} :| e in net.user && net.user[e].Backend? && net.user[e].blk == b && e !in skip
                                      && net.g.target[e] in Component(net, skip, there, n);
      UserMoved(net, skip, there, n, new_, s, s', ignore, e);
    }
  }

  /** A backend has one root edge. */
  ghost predicate UniqueBackends(net: Net) {
    forall e, e' {:trigger net.user[e],
                  net.user[e']} :: e in net.user && e' in net.user && net.user[e].Backend? && net.user[e'].Backend? ==>
      (net.user[e].blk == net.user[e'].blk ==> e == e')
  }

  /** The edge from a backend to its node, if it has one */
  ghost predicate RootOf(net: Net, blk: nat, root: Option<nat>) {
    if root.Some? then root.value in net.user && net.user[root.value].Backend? && net.user[root.value].blk == blk
    else forall e {:trigger net.user[e]} :: e in net.user && net.user[e].Backend? ==> net.user[e].blk != blk
  }

  /** A backend is in the context of its node, as blk_get_aio_context asserts. */
  ghost predicate BackendsAgree(net: Net, s: Contexts)
    requires Sized(net, s)
  {
    forall e {:trigger net.user[e]} :: e in net.user && net.user[e].Backend? ==>
      s.blks[net.user[e].blk] == s.nodes[net.g.target[e]]
  }

  /** A switch keeps every backend it does not skip in the context of its node. */
  lemma SwitchedAgrees(net: Net, skip: set<nat>, nodes: set<nat>, new_: nat, s: Contexts, s': Contexts)
    requires Sized(net, s) && Switched(net, skip, nodes, new_, s, s') && UniqueBackends(net) && BackendsAgree(net, s)
    ensures Sized(net, s')
    ensures forall e {:trigger net.user[e]} :: e in net.user && net.user[e].Backend? && e !in skip ==>
      s'.blks[net.user[e].blk] == s'.nodes[net.g.target[e]]
    ensures skip == {} ==> BackendsAgree(net, s')
  {
    forall e | e in net.user && net.user[e].Backend? && e !in skip
      ensures s'.blks[net.user[e].blk] == s'.nodes[net.g.target[e]]
    {
      if HasBackend(net, skip, nodes, net.user[e].blk) {
        assert net.g.target[e] in nodes;
      }
    }
  }

  class Mover {
    const net: Net
    var s: Contexts

    constructor (net: Net, s: Contexts)
      ensures this.net == net && this.s == s
    {
      this.net, this.s := net, s;
    }

    /** The edges that are not ignored yet, last first; they are ignored from now on. */
    static method Collect(list: seq<nat>, ignore: set<nat>) returns (found: seq<nat>, ignore': set<nat>)
      ensures forall e :: e in found <==> e in list && e !in ignore
      ensures forall e :: e in ignore' <==> e in ignore || e in list
    {
      found, ignore' := [], ignore;
      for i := 0 to |list|
        invariant forall e :: e in found <==> e in list[..i] && e !in ignore
        invariant forall e :: e in ignore' <==> e in ignore || e in list[..i]
      {
        assert list[..i + 1] == list[..i] + [list[i]];
        if list[i] !in ignore' {
          found, ignore' := [list[i]] + found, ignore' + {list[i]};
        }
      }
      assert list[..|list|] == list;
    }

    /** child_job_set_aio_ctx */
    method SetJob(j: nat, new_: nat, ignore: set<nat>, ghost skip: set<nat>, ghost there: set<nat>,
                  ghost nodes: set<nat>,
                  ghost gray: set<nat>) returns (ignore': set<nat>)
      requires Inv(net, skip, there, nodes, gray, {}, new_, s, ignore) && !Refused(net, skip, nodes)
      requires HasJob(net, skip, nodes, j)
      requires forall e :: e in net.jobs[j] && e !in skip ==> net.g.target[e] in nodes + there
      modifies `s
      ensures Inv(net, skip, there, nodes, gray, {}, new_, s, ignore')
      ensures Moves(net, skip, nodes, gray, {}, new_, old(s), ignore, s, ignore') && JobDone(net, new_, s, ignore', j)
      decreases Left(net, ignore), 1
    {
      ignore' := ignore;
      var list := net.jobs[j];
      for i := 0 to |list|
        invariant Inv(net, skip, there, nodes, gray, {}, new_, s, ignore')
        invariant Moves(net, skip, nodes, gray, {j}, new_, old(s), ignore, s, ignore')
        invariant forall k :: 0 <= k < i ==> list[k] in ignore'
      {
        if list[i] in ignore' { continue; }
        LeftShrinks(net, ignore, ignore');
        ignore' := SetSibling(list[i], j, new_, ignore', skip, there, nodes, gray, old(s), ignore);
      }
      LeaveJob(net, skip, there, nodes, gray, new_, old(s), ignore, s, ignore', j);
      s := s.(jobs := s.jobs[j := new_]);
    }

    method SetSibling(e: nat, j: nat, new_: nat, ignore: set<nat>, ghost skip: set<nat>, ghost there: set<nat>,
                      ghost nodes: set<nat>,
                      ghost gray: set<nat>,
                      ghost s0: Contexts, ghost ignore0: set<nat>) returns (ignore': set<nat>)
      requires Inv(net, skip, there, nodes, gray, {}, new_, s, ignore) && !Refused(net, skip, nodes) && j in net.jobs
      requires e in net.jobs[j]
      requires e !in ignore && net.g.target[e] in nodes + there
      requires Moves(net, skip, nodes, gray, {j}, new_, s0, ignore0, s, ignore)
      modifies `s
      ensures Inv(net, skip, there, nodes, gray, {}, new_, s, ignore') && ignore <= ignore' && e in ignore'
      ensures Moves(net, skip, nodes, gray, {j}, new_, s0, ignore0, s, ignore')
      decreases Left(net, ignore), 0
    {
      EnterSibling(net, skip, there, nodes, gray, new_, s, ignore, e);
      LeftShrinks(net, ignore, ignore + {e});
      ignore' := SetIgnore(net.g.target[e], new_, ignore + {e}, skip, there, nodes, gray);
      SiblingMoves(net, skip, nodes, gray, new_, old(s), ignore, s, ignore', e, j);
      MovesTrans(net, skip, nodes, gray, {j}, new_, s0, ignore0, old(s), ignore, s, ignore');
    }

    /** The set_aio_ctx callbacks of nodes, jobs and backends */
    method SetParent(p: nat, new_: nat, ignore: set<nat>, ghost skip: set<nat>, ghost there: set<nat>,
                     ghost nodes: set<nat>,
                     ghost gray: set<nat>) returns (ignore': set<nat>)
      requires Inv(net, skip, there, nodes, gray, {}, new_, s, ignore) && !Refused(net, skip, nodes)
      requires p in net.g.target && p !in skip && net.g.target[p] in nodes
      requires (p in net.g.owner ==> net.g.owner[p] !in gray)
      modifies `s
      ensures Inv(net, skip, there, nodes, gray, {}, new_, s, ignore')
      ensures Moves(net, skip, nodes, gray, {}, new_, old(s), ignore, s, ignore') && Told(net, new_, s, ignore', p)
      decreases Left(net, ignore), 4
    {
      assert Touches(net, p, net.g.target[p]);
      if p in net.g.owner {
        ignore' := SetIgnore(net.g.owner[p], new_, ignore, skip, there, nodes, gray);
      } else {
        match net.user[p]
        case Job(j) =>
          ignore' := SetJob(j, new_, ignore, skip, there, nodes, gray);
        case Backend(blk, allowsChange, named, attached) =>
          ignore' := ignore;
          s := PutBackend(s, blk, new_);
        // the class has a set_aio_ctx
        case Other =>
          assert false;
      }
    }

    /** The loop over children_to_process */
    method SetChildren(list: seq<nat>, new_: nat, ignore: set<nat>, ghost skip: set<nat>, ghost there: set<nat>,
                       ghost nodes: set<nat>,
                       ghost gray: set<nat>, ghost bound: nat)
      returns (ignore': set<nat>)
      requires Inv(net, skip, there, nodes, gray, {}, new_, s, ignore) && !Refused(net, skip, nodes)
      requires forall c :: c in list ==>
        c in net.g.target && net.g.target[c] in nodes + there && net.g.target[c] !in gray
      requires list != [] ==> Left(net, ignore) < bound
      modifies `s
      ensures Inv(net, skip, there, nodes, gray, {}, new_, s, ignore')
      ensures Moves(net, skip, nodes, gray, {}, new_, old(s), ignore, s, ignore')
      ensures forall c :: c in list ==> s.nodes[net.g.target[c]] == new_
      decreases bound, 1
    {
      ignore' := ignore;
      MovesNothing(net, skip, nodes, gray, {}, new_, s, ignore);
      var i := 0;
      while i < |list|
        invariant 0 <= i <= |list|
        invariant Inv(net, skip, there, nodes, gray, {}, new_, s, ignore')
        invariant Moves(net, skip, nodes, gray, {}, new_, old(s), ignore, s, ignore')
        invariant forall k :: 0 <= k < i ==> s.nodes[net.g.target[list[k]]] == new_
      {
        assert list[i] in list;
        ignore' := SetChild(list[i], new_, ignore', skip, there, nodes, gray, bound, old(s), ignore);
        i := i + 1;
      }
    }

    method SetChild(c: nat, new_: nat, ignore: set<nat>, ghost skip: set<nat>, ghost there: set<nat>,
                    ghost nodes: set<nat>,
                    ghost gray: set<nat>, ghost bound: nat,
                    ghost s0: Contexts, ghost ignore0: set<nat>) returns (ignore': set<nat>)
      requires Inv(net, skip, there, nodes, gray, {}, new_, s, ignore) && !Refused(net, skip, nodes)
      requires c in net.g.target && net.g.target[c] in nodes + there && net.g.target[c] !in gray
      requires Moves(net, skip, nodes, gray, {}, new_, s0, ignore0, s, ignore) && Left(net, ignore0) < bound
      modifies `s
      ensures Inv(net, skip, there, nodes, gray, {}, new_, s, ignore')
      ensures Moves(net, skip, nodes, gray, {}, new_, s0, ignore0, s, ignore') && s.nodes[net.g.target[c]] == new_
      ensures forall n {:trigger s.nodes[n]} :: n in nodes && old(s).nodes[n] == new_ ==> s.nodes[n] == new_
      decreases bound, 0
    {
      LeftShrinks(net, ignore0, ignore);
      ignore' := SetIgnore(net.g.target[c], new_, ignore, skip, there, nodes, gray);
      MovesTrans(net, skip, nodes, gray, {}, new_, s0, ignore0, old(s), ignore, s, ignore');
    }

    /** The loop over parents_to_process */
    method SetParents(list: seq<nat>, new_: nat, ignore: set<nat>, ghost skip: set<nat>, ghost there: set<nat>,
                      ghost nodes: set<nat>,
                      ghost gray: set<nat>, ghost bound: nat)
      returns (ignore': set<nat>)
      requires Inv(net, skip, there, nodes, gray, {}, new_, s, ignore) && !Refused(net, skip, nodes)
      requires forall p :: p in list ==>
        p in net.g.target && p !in skip && net.g.target[p] in nodes && (p in net.g.owner ==> net.g.owner[p] !in gray)
      requires list != [] ==> Left(net, ignore) < bound
      modifies `s
      ensures Inv(net, skip, there, nodes, gray, {}, new_, s, ignore')
      ensures Moves(net, skip, nodes, gray, {}, new_, old(s), ignore, s, ignore')
      ensures forall p :: p in list ==> Told(net, new_, s, ignore', p)
      decreases bound, 1
    {
      ignore' := ignore;
      MovesNothing(net, skip, nodes, gray, {}, new_, s, ignore);
      var i := 0;
      while i < |list|
        invariant 0 <= i <= |list|
        invariant Inv(net, skip, there, nodes, gray, {}, new_, s, ignore')
        invariant Moves(net, skip, nodes, gray, {}, new_, old(s), ignore, s, ignore')
        invariant AllTold(net, new_, s, ignore', list, i)
      {
        assert list[i] in list;
        ignore' := SetNextParent(list, i, new_, ignore', skip, there, nodes, gray, bound, old(s), ignore);
        i := i + 1;
      }
    }

    method SetNextParent(list: seq<nat>, i: nat, new_: nat, ignore: set<nat>, ghost skip: set<nat>,
                         ghost there: set<nat>,
                         ghost nodes: set<nat>, ghost gray: set<nat>, ghost bound: nat,
                         ghost s0: Contexts, ghost ignore0: set<nat>) returns (ignore': set<nat>)
      requires Inv(net, skip, there, nodes, gray, {}, new_, s, ignore) && !Refused(net, skip, nodes) && i < |list|
      requires var p := list[i];
               p in net.g.target && p !in skip && net.g.target[p] in nodes
               && (p in net.g.owner ==> net.g.owner[p] !in gray)
      requires Moves(net, skip, nodes, gray, {}, new_, s0, ignore0, s, ignore) && Left(net, ignore0) < bound
      requires AllTold(net, new_, s, ignore, list, i)
      modifies `s
      ensures Inv(net, skip, there, nodes, gray, {}, new_, s, ignore')
      ensures Moves(net, skip, nodes, gray, {}, new_, s0, ignore0, s, ignore')
      ensures AllTold(net, new_, s, ignore', list, i + 1)
      decreases bound, 0
    {
      LeftShrinks(net, ignore0, ignore);
      ignore' := SetParent(list[i], new_, ignore, skip, there, nodes, gray);
      AllToldLasts(net, skip, nodes, gray, new_, old(s), ignore, s, ignore', list, i);
      MovesTrans(net, skip, nodes, gray, {}, new_, s0, ignore0, old(s), ignore, s, ignore');
    }

    /** The two loops of bdrv_set_aio_context_ignore that move other nodes */
    method SetAround(bs: nat, children: seq<nat>, parents: seq<nat>, new_: nat, ignore: set<nat>,
                     ghost skip: set<nat>, ghost there: set<nat>, ghost nodes: set<nat>, ghost gray: set<nat>,
                     ghost bound: nat)
      returns (ignore': set<nat>)
      requires Inv(net, skip, there, nodes, gray, {}, new_, s, ignore) && !Refused(net, skip, nodes)
      requires NewChildren(net, there, nodes, gray, bs, children) && NewParents(net, skip, nodes, gray, bs, parents)
      requires children != [] || parents != [] ==> Left(net, ignore) < bound
      modifies `s
      ensures Inv(net, skip, there, nodes, gray, {}, new_, s, ignore')
      ensures Moves(net, skip, nodes, gray, {}, new_, old(s), ignore, s, ignore')
      ensures forall e :: e in children || e in parents ==> Followed(net, bs, new_, s, ignore', e)
      decreases bound, 2
    {
      ignore' := SetChildren(children, new_, ignore, skip, there, nodes, gray, bound);
      LeftShrinks(net, ignore, ignore');
      ghost var mid, ignored := s, ignore';
      ignore' := SetParents(parents, new_, ignore', skip, there, nodes, gray, bound);
      AllFollowed(net, skip, there, nodes, gray, bs, new_, s, ignore', children, parents);
      MovesTrans(net, skip, nodes, gray, {}, new_, old(s), ignore, mid, ignored, s, ignore');
    }

    /** bdrv_set_aio_context_ignore */
    method SetIgnore(bs: nat, new_: nat, ignore: set<nat>, ghost skip: set<nat>, ghost there: set<nat>,
                     ghost nodes: set<nat>,
                     ghost gray: set<nat>) returns (ignore': set<nat>)
      requires Inv(net, skip, there, nodes, gray, {bs}, new_, s, ignore) && !Refused(net, skip, nodes)
      requires bs in nodes + there && bs !in gray
      modifies `s
      ensures Inv(net, skip, there, nodes, gray, {}, new_, s, ignore')
      ensures Moves(net, skip, nodes, gray, {}, new_, old(s), ignore, s, ignore') && s.nodes[bs] == new_
      decreases Left(net, ignore), 3
    {
      if s.nodes[bs] == new_ { return ignore; }
      var children, parents, entered := EnterNode(bs, new_, ignore, skip, there, nodes, gray);
      ignore' := SetAround(bs, children, parents, new_, entered, skip, there, nodes, gray + {bs}, Left(net, ignore));
      LeaveInv(net, skip, there, nodes, gray, bs, new_, s, ignore');
      LeaveMoves(net, skip, nodes, gray, bs, new_, old(s), ignore, entered, s, ignore');
      s := Put(s, bs, new_);
    }

    /** Puts the edges of a node into `ignore`. */
    method EnterNode(bs: nat, new_: nat, ignore: set<nat>, ghost skip: set<nat>, ghost there: set<nat>,
                     ghost nodes: set<nat>, ghost gray: set<nat>)
      returns (children: seq<nat>, parents: seq<nat>, entered: set<nat>)
      requires Inv(net, skip, there, nodes, gray, {bs}, new_, s, ignore) && bs in nodes && s.nodes[bs] != new_
      ensures Inv(net, skip, there, nodes, gray + {bs}, {}, new_, s, entered) && ignore <= entered
      ensures NewChildren(net, there, nodes, gray + {bs}, bs, children)
      ensures NewParents(net, skip, nodes, gray + {bs}, bs, parents)
      ensures children != [] || parents != [] ==> Left(net, entered) < Left(net, ignore)
      ensures forall e :: e in entered && e !in ignore ==> e in children || e in parents
    {
      var ignored;
      children, ignored := Collect(net.g.children[bs], ignore);
      parents, entered := Collect(net.g.parents[bs], ignored);
      Enter(net, skip, there, nodes, gray, bs, new_, s, ignore, entered);
      NewEdges(net, skip, there, nodes, gray, bs, new_, s, ignore, children, parents);
      LeftShrinks(net, ignore, entered);
      if children != [] { assert children[0] in children; }
      if parents != [] { assert parents[0] in parents; }
    }

    /** bdrv_set_aio_context_ignore as it is first called; it returns at once if there is nothing to do. */
    method Move(bs: nat, new_: nat, ignore: set<nat>, ghost skip: set<nat>, ghost there: set<nat>)
      requires Sized(net, s) && bs in net.g.children && ignore == skip && there == There(s.nodes, new_)
      requires s.nodes[bs] != new_ ==> !Refused(net, skip, Component(net, skip, there, bs))
      modifies `s
      ensures old(s).nodes[bs] == new_ ==> s == old(s)
      ensures old(s).nodes[bs] != new_ ==> Switched(net, skip, Component(net, skip, there, bs), new_, old(s), s)
    {
      if s.nodes[bs] == new_ { return; }
      ComponentIsClosed(net, skip, there, bs);
      var ignore' := SetIgnore(bs, new_, ignore, skip, there, Component(net, skip, there, bs), {});
      MovedEverything(net, skip, there, bs, new_, old(s), s, ignore');
    }

    /** bdrv_child_try_set_aio_context */
    method TrySet(bs: nat, new_: nat, ignoreChild: Option<nat>) returns (ret: int)
      requires Sized(net, s) && bs in net.g.children
      modifies `s
      ensures ret == 0 || ret == -EPERM
      ensures ret == 0 <==>
        old(s).nodes[bs] == new_ || !Refused(net, Skipped(ignoreChild), ToMove(net, ignoreChild, old(s), new_, bs))
      ensures ret != 0 || old(s).nodes[bs] == new_ ==> s == old(s)
      ensures ret == 0 && old(s).nodes[bs] != new_ ==>
        Switched(net, Skipped(ignoreChild), ToMove(net, ignoreChild, old(s), new_, bs), new_, old(s), s)
    {
      ghost var skip, there := Skipped(ignoreChild), There(s.nodes, new_);
      var ignore := if ignoreChild.Some? then {ignoreChild.value} else {};
      if bs !in there { ComponentIsClosed(net, skip, there, bs); }
      var ok, ignored := CanSet(net, s.nodes, bs, new_, ignore, skip,
                                if bs in there then {} else Component(net, skip, there, bs), there);
      if !ok { return -EPERM; }
      if bs !in there { AskedEverybody(net, skip, ignored, there, bs); }
      Move(bs, new_, ignore, skip, there);
      ret := 0;
    }

    /** blk_set_aio_context on the backend `blk`, whose node, if it has one, is behind the edge `root` */
    method SetBackend(blk: nat, root: Option<nat>, new_: nat) returns (ret: int)
      requires Sized(net, s) && UniqueBackends(net) && BackendsAgree(net, s) && blk in s.blks && RootOf(net, blk, root)
      modifies `s
      ensures Sized(net, s) && BackendsAgree(net, s)
      ensures root.None? ==> ret == 0 && s == PutBackend(old(s), blk, new_)
      ensures root.Some? && ret != 0 ==>
        s == old(s) && Refused(net, {root.value}, ToMove(net, root, old(s), new_, net.g.target[root.value]))
      ensures root.Some? && ret == 0 ==> s.nodes[net.g.target[root.value]] == new_
      ensures root.Some? && ret == 0 && old(s).nodes[net.g.target[root.value]] != new_ ==>
        exists mid :: s == PutBackend(mid, blk, new_)
          && Switched(net, {root.value}, ToMove(net, root, old(s), new_, net.g.target[root.value]), new_, old(s), mid)
      ensures ret == 0 ==> s.blks[blk] == new_
    {
      if root.Some? {
        ret := TrySet(net.g.target[root.value], new_, root);
        if ret < 0 { return; }
        if old(s).nodes[net.g.target[root.value]] != new_ {
          ghost var nodes := ToMove(net, root, old(s), new_, net.g.target[root.value]);
          ComponentIsClosed(net, {root.value}, There(old(s).nodes, new_), net.g.target[root.value]);
          SwitchedAgrees(net, {root.value}, nodes, new_, old(s), s);
        }
      }
      s := PutBackend(s, blk, new_);
      ret := 0;
    }
  }
}
