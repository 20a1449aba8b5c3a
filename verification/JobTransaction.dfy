/**
 Groups of jobs as they run (JobTxn in tools/qemu/job.c).  Each method is one turn of the main loop or of a
 coroutine, or a part of one; aborting a group takes several turns when it has to wait for a member.
 */
module JobTransaction {
  import opened Common
  import opened Job
  import opened JobGroup
  import opened JobTurns

  function AllPrepare(m: nat): int { 0 }

  class JobTxn {
    var g: Group

    /** job_txn_new */
    constructor ()
      ensures Inv(g) && g == EMPTY
    {
      g := EMPTY;
    }

    /** The loop of job_completed_txn_abort, until it has to wait for a member */
    method AbortLoop()
      requires Dying(g)
      modifies this
      ensures g == AbortRounds(old(g)) && Inv(g) && Onward(old(g), g) && (g.list == [] || HeadRuns(g))
      ensures g.jobs.Keys == old(g).jobs.Keys && g.aborting && g.spared == old(g).spared && g.past == old(g).past
      ensures IsRest(old(g).list, g.list) && (HeadRuns(old(g)) ==> g == old(g))
    {
      AbortRoundsKeep(g);
      AbortRoundsLeave(g);
      HeadIsThere(g);
      while g.list != [] && Completed(g.jobs[g.list[0]].status)
        invariant Dying(g) && (g.list != [] ==> g.list[0] in g.jobs) && AbortRounds(g) == AbortRounds(old(g))
        invariant HeadRuns(old(g)) ==> g == old(g)
        decreases |g.list|
      {
        DyingHead(g);
        g := WithoutHead(g, FinalizeSingle(g.jobs[g.list[0]]));
        HeadIsThere(g);
      }
      DyingWaits(g);
      g := g.(ongoing := g.list != []);
    }

    /** The other members are cancelled by the one that enters the abort. */
    method CancelOthers(a: nat)
      requires Listed(g)
      modifies this
      ensures g == old(g).(jobs := g.jobs) && Cancelling(old(g).jobs, g.jobs, g.list, a)
    {
      for i := 0 to |g.list|
        invariant g == old(g).(jobs := g.jobs) && Cancelling(old(g).jobs, g.jobs, g.list[..i], a)
      {
        NextInList(g.list, i);
        CancelOne(old(g).jobs, g.jobs, g.list[..i], g.list[..i + 1], g.list[i], a);
        if g.list[i] != a {
          g := g.(jobs := g.jobs[g.list[i] := CancelAsync(g.jobs[g.list[i]])]);
        }
      }
      assert g.list[..|g.list|] == g.list;
    }

    /** The first part of job_completed_txn_abort */
    method BeginAbort(a: nat)
      requires AbortReady(g, a)
      modifies this
      ensures Dying(g) && Onward(old(g), g) && g.jobs.Keys == old(g).jobs.Keys
      ensures g.spared == Spared(old(g).jobs, a) && g.past == old(g).past
      ensures g.list == old(g).list && Cancelling(old(g).jobs, g.jobs, g.list, a)
    {
      var spared := Spared(g.jobs, a);
      CancelOthers(a);
      BeginDying(old(g), g.jobs, a);
      g := g.(aborting := true, ongoing := true, spared := spared);
    }

    /**
     job_completed_txn_abort; if the group is being aborted already, the job that entered the abort handles everything.
     */
    method TxnAbort(a: nat)
      requires if g.aborting then Inv(g) else AbortReady(g, a)
      modifies this
      ensures Inv(g) && Onward(old(g), g) && g.jobs.Keys == old(g).jobs.Keys && g.aborting
      ensures g.spared == (if old(g).aborting then old(g).spared else Spared(old(g).jobs, a)) && g.past == old(g).past
      ensures !old(g).aborting && AllCompleted(old(g).jobs) ==> g.list == []
      ensures if old(g).aborting then g == old(g) else IsRest(old(g).list, g.list) && (g.list == [] || HeadRuns(g))
      ensures !old(g).aborting && HeadRuns(old(g)) ==>
        g.list == old(g).list && Cancelling(old(g).jobs, g.jobs, g.list, a)
    {
      if g.aborting { return; }
      BeginAbort(a);
      ghost var begun := g;
      AbortLoop();
      OnwardTrans(old(g), begun, g);
      if AllCompleted(old(g).jobs) { NobodyIsLeft(old(g), g); }
    }

    // ---- Ending with success

    /** The second job_txn_apply of job_do_finalize */
    method CommitAll()
      requires Committing(g)
      modifies this
      ensures Inv(g) && g.list == [] && !g.aborting && Onward(old(g), g) && g.jobs.Keys == old(g).jobs.Keys
    {
      while g.list != []
        invariant Committing(g) && Onward(old(g), g) && g.jobs.Keys == old(g).jobs.Keys
        decreases |g.list|
      {
        CommittingHead(g);
        OnwardTrans(old(g), g, Committed(g, FinalizeSingle(g.jobs[g.list[0]])));
        g := Committed(g, FinalizeSingle(g.jobs[g.list[0]]));
      }
      CommittedAll(g);
    }

    /** The first job_txn_apply of job_do_finalize: stops at the first member that fails to prepare. */
    method PrepareAll(j: nat, prepare: nat -> int) returns (rc: int)
      requires Inv(g) && j in g.jobs && g.jobs[j].status == Pending
      modifies this
      ensures rc == 0 ==> FirstFailure(old(g).list, prepare) == |old(g).list| && g == old(g)
      ensures rc != 0 ==>
        && FirstFailure(old(g).list, prepare) < |old(g).list|
        && Failed(old(g), j, old(g).list[FirstFailure(old(g).list, prepare)], g)
    {
      AllPendingTogether(g, j);
      for i := 0 to |g.list|
        invariant g == old(g) && forall k :: 0 <= k < i ==> prepare(g.list[k]) == 0
      {
        assert g.list[i] in g.list;
        rc := prepare(g.list[i]);
        if rc != 0 {
          FirstFailureIs(g.list, prepare, i);
          PrepareFails(g, j, g.list[i], rc);
          g := g.(jobs := g.jobs[g.list[i] := g.jobs[g.list[i]].(ret := rc, status := Aborting)]);
          return;
        }
      }
      FirstFailureIs(g.list, prepare, |g.list|);
      rc := 0;
    }

    /**
     job_do_finalize; `prepare` gives what the drivers of the members return.  The members are committed
     exactly if none of them fails to prepare.  Otherwise they are aborted, but for the job that asks for
     finalization if it is another job that failed.
     */
    method DoFinalize(j: nat, prepare: nat -> int)
      requires Inv(g) && j in g.jobs && g.jobs[j].status == Pending
      modifies this
      ensures Inv(g) && g.list == [] && Onward(old(g), g) && g.jobs.Keys == old(g).jobs.Keys
      ensures g.aborting <==> FirstFailure(old(g).list, prepare) < |old(g).list|
      ensures g.aborting ==>
        g.past == old(g).past
        && g.spared == if old(g).list[FirstFailure(old(g).list, prepare)] == j then None else Some(j)
    {
      AllPendingTogether(g, j);
      var rc := PrepareAll(j, prepare);
      if rc != 0 {
        ghost var failed := g;
        TxnAbort(j);
        OnwardTrans(old(g), failed, g);
      } else {
        CommitAll();
      }
    }

    /** Marks the members PENDING, as job_completed_txn_success does when the last one has completed. */
    method MarkPending()
      requires Inv(g) && !g.aborting && AllInStatus(g, Waiting)
      modifies this
      ensures Inv(g) && g == old(g).(jobs := g.jobs) && AllInStatus(g, Pending) && Onward(old(g), g)
      ensures g.jobs.Keys == old(g).jobs.Keys && (NobodyAsks(g) <==> NobodyAsks(old(g)))
    {
      for i := 0 to |g.list|
        invariant g == old(g).(jobs := g.jobs) && Marked(old(g), g, g.list[..i])
      {
        MarkNext(old(g), g, i);
        g := g.(jobs := g.jobs[g.list[i] := Marked1(g.jobs[g.list[i]])]);
      }
      assert g.list[..|g.list|] == g.list;
      MarkedAll(old(g), g);
      MarkedAsksAlike(old(g), g);
    }

    /** The loop of job_completed_txn_success: has every member completed? */
    method EverybodyWaits() returns (all: bool)
      requires Inv(g) && !g.aborting
      ensures all <==> AllDone(g)
    {
      for i := 0 to |g.list|
        invariant forall k :: 0 <= k < i ==> g.list[k] in g.jobs && Completed(g.jobs[g.list[k]].status)
      {
        assert g.list[i] in g.list;
        if !Completed(g.jobs[g.list[i]].status) { return false; }
        assert g.jobs[g.list[i]].ret == 0;
      }
      all := true;
    }

    /** Nobody needs manual finalization. */
    method NobodyNeedsFinalize() returns (none: bool)
      requires Inv(g)
      ensures none <==> NobodyAsks(g)
    {
      for i := 0 to |g.list|
        invariant forall k :: 0 <= k < i ==> g.list[k] in g.jobs && g.jobs[g.list[k]].autoFinalize
      {
        assert g.list[i] in g.list;
        if !g.jobs[g.list[i]].autoFinalize { return false; }
      }
      none := true;
    }

    /** job_completed_txn_success */
    method TxnSuccess(j: nat, prepare: nat -> int)
      requires Inv(g) && j in g.jobs && Exiting(g.jobs[j]) && g.jobs[j].ret == 0 && !g.jobs[j].cancelled
      modifies this
      ensures Inv(g) && Onward(old(g), g) && j in g.jobs && Completed(g.jobs[j].status)
      ensures Outcome(old(g), j, prepare, g)
    {
      Waits(g, j);
      WaitingAsksAlike(g, j, g.jobs[j].(status := Waiting));
      g := g.(jobs := g.jobs[j := g.jobs[j].(status := Waiting)]);
      var all := EverybodyWaits();
      if !all { return; }
      AllWait(g, j);
      ghost var waiting := g;
      PendingThenFinalize(j, prepare);
      OnwardTrans(old(g), waiting, g);
    }

    /** The tail of job_completed_txn_success */
    method PendingThenFinalize(j: nat, prepare: nat -> int)
      requires Inv(g) && !g.aborting && AllInStatus(g, Waiting) && j in g.list
      modifies this
      ensures Inv(g) && Onward(old(g), g) && g.jobs.Keys == old(g).jobs.Keys && Ended(old(g), j, prepare, g)
    {
      MarkPending();
      ghost var pending := g;
      var none := NobodyNeedsFinalize();
      if none {
        DoFinalize(j, prepare);
        OnwardTrans(old(g), pending, g);
      }
    }

    // ---- Events and commands

    /** job_completed for a job that has failed or been cancelled */
    method CompleteFailed(j: nat)
      requires Inv(g) && j in g.jobs && (g.jobs[j].status == Created || Exiting(g.jobs[j]))
      requires g.jobs[j].ret != 0 || g.jobs[j].cancelled
      modifies this
      ensures Inv(g) && Onward(old(g), g) && j in g.jobs && Completed(g.jobs[j].status)
      ensures Aborts(old(g), g) && LeftWaiting(old(g), j, g)
      ensures old(g).aborting ==> g == old(g).(jobs := old(g).jobs[j := UpdateRc(old(g).jobs[j])])
    {
      FailsAtEnd(g, j);
      g := g.(jobs := g.jobs[j := UpdateRc(g.jobs[j])]);
      ghost var failed := g;
      TxnAbort(j);
      WaitsInList(old(g), j, failed.jobs[j], g);
      NotForgotten(failed, g, j);
      OnwardTrans(old(g), failed, g);
    }

    /** job_completed */
    method Complete(j: nat, prepare: nat -> int)
      requires Inv(g) && j in g.jobs && (g.jobs[j].status == Created || Exiting(g.jobs[j]))
      requires g.jobs[j].status == Created ==> g.jobs[j].cancelled
      modifies this
      ensures Inv(g) && Onward(old(g), g) && j in g.jobs && Completed(g.jobs[j].status)
      ensures Outcome(old(g), j, prepare, g)
    {
      // job_update_rc leaves a job that has succeeded as it is
      if g.jobs[j].ret == 0 && !g.jobs[j].cancelled {
        TxnSuccess(j, prepare);
      } else {
        CompleteFailed(j);
      }
    }

    /** job_exit: the job is no longer busy, and job_completed takes over. */
    method Exit(j: nat, prepare: nat -> int)
      requires Inv(g) && j in g.jobs && Exiting(g.jobs[j])
      modifies this
      ensures Inv(g) && Onward(old(g), g) && j in g.jobs && Completed(g.jobs[j].status)
      ensures Outcome(Idle(old(g), j), j, prepare, g)
    {
      UpdateOne(g, j, g.jobs[j].(busy := false));
      g := Idle(g, j);
      ghost var idle := g;
      Complete(j, prepare);
      OnwardTrans(old(g), idle, g);
    }

    /** job_dismiss and job_do_dismiss */
    method Dismiss(j: nat)
      requires Inv(g) && j in g.jobs && Accepts(g.jobs[j].status, Verb.Dismiss)
      modifies this
      ensures Inv(g) && Onward(old(g), g) && j in g.jobs && g.jobs[j].status == Null
    {
      assert Allowed(g.jobs[j].status, Null);
      Dismissed(g, j, g.jobs[j].(status := Null, busy := false, paused := false, deferred := true));
      g := g.(jobs := g.jobs[j := g.jobs[j].(status := Null, busy := false, paused := false, deferred := true)]);
    }

    /** One turn of a job's coroutine, of its user or of the block layer */
    method Take(j: nat, a: Act)
      requires Inv(g) && j in g.jobs && Can(g.jobs[j], a)
      modifies this
      ensures Inv(g) && Onward(old(g), g) && g == old(g).(jobs := g.jobs)
      ensures g.jobs == old(g).jobs[j := Did(old(g).jobs[j], a)]
    {
      UpdateOne(g, j, Did(g.jobs[j], a));
      g := g.(jobs := g.jobs[j := Did(g.jobs[j], a)]);
    }

    /** job_cancel for a job that is in its group */
    method CancelMember(j: nat)
      requires Inv(g) && j in g.jobs && InGroup(g.jobs[j].status) && CancelAsserts(g.jobs[j])
      modifies this
      ensures Inv(g) && Onward(old(g), g) && CancelOutcome(old(g), j, g)
    {
      IsCancelled(g, j);
      g := g.(jobs := g.jobs[j := CancelAsync(g.jobs[j])]);
      ghost var cancelled := g;
      if !g.jobs[j].started {
        CompleteFailed(j);
        WaitsAlike(old(g), cancelled, j, g);
      } else if g.jobs[j].deferred {
        TxnAbort(j);
      } else {
        // job_enter
        Take(j, Enters);
      }
      OnwardTrans(old(g), cancelled, g);
    }

    /** job_cancel; `fires` says that the assert of job_completed fires on the way. */
    method Cancel(j: nat) returns (fires: bool)
      requires Inv(g) && j in g.jobs && g.jobs[j].status != Null
      modifies this
      ensures fires <==> !CancelAsserts(old(g).jobs[j])
      ensures !fires ==> Inv(g) && Onward(old(g), g) && j in g.jobs
      ensures !fires ==>
        if old(g).jobs[j].status == Concluded then g.jobs[j].status == Null else CancelOutcome(old(g), j, g)
    {
      fires := false;
      if g.jobs[j].status == Concluded {
        Dismiss(j);
      } else if !g.jobs[j].started && Completed(g.jobs[j].status) {
        fires := true;
      } else {
        CancelMember(j);
        NotForgotten(old(g), g, j);
      }
    }

    /** job_finalize */
    method Finalize(j: nat, prepare: nat -> int)
      requires Inv(g) && j in g.jobs && Accepts(g.jobs[j].status, Verb.Finalize)
      modifies this
      ensures Inv(g) && Onward(old(g), g) && g.list == []
      ensures g.aborting <==> FirstFailure(old(g).list, prepare) < |old(g).list|
    {
      DoFinalize(j, prepare);
    }

    /** job_create in this group; job_txn_add_job puts the job first, whatever state the group is in. */
    method Create(j: nat, autoFinalize: bool, autoDismiss: bool)
      requires Inv(g) && j !in g.jobs
      modifies this
      ensures g == Joined(old(g), j, New(autoFinalize, autoDismiss))
      ensures (Joinable(old(g)) ==> Inv(g) && Onward(old(g), g))
    {
      if Joinable(g) { JoinKeeps(g, j, New(autoFinalize, autoDismiss)); }
      g := Joined(g, j, New(autoFinalize, autoDismiss));
    }

    /** The wait of job_completed_txn_abort is over: its loop goes on. */
    method GoOnAborting()
      requires Inv(g) && g.aborting && g.list != [] && g.list[0] in g.jobs && Completed(g.jobs[g.list[0]].status)
      modifies this
      ensures g == AbortRounds(old(g)) && Inv(g) && Onward(old(g), g) && |g.list| < |old(g).list|
      ensures IsRest(old(g).list, g.list) && (g.list == [] || HeadRuns(g))
    {
      RoundsShrink(g);
      AbortLoop();
    }

    /** Does what the event calls for, if it can happen now. */
    method Perform(e: Event)
      requires Inv(g) && !TooLate(g, e)
      modifies this
      ensures Inv(g) && Onward(old(g), g)
    {
      match e
      case Creation(j, autoFinalize, autoDismiss) =>
        if j !in g.jobs { Create(j, autoFinalize, autoDismiss); }
      case Action(j, a) =>
        if j in g.jobs && Can(g.jobs[j], a) { Take(j, a); }
      case Exits(j, prepare) =>
        if j in g.jobs && Exiting(g.jobs[j]) { Exit(j, prepare); }
      case UserCancels(j) =>
        if j in g.jobs && Accepts(g.jobs[j].status, Verb.Cancel) { var fires := Cancel(j); }
      case Cancels(j) =>
        if j in g.jobs && g.jobs[j].status != Null { var fires := Cancel(j); }
      case UserFinalizes(j, prepare) =>
        if j in g.jobs && Accepts(g.jobs[j].status, Verb.Finalize) { Finalize(j, prepare); }
      case UserDismisses(j) =>
        if j in g.jobs && Accepts(g.jobs[j].status, Verb.Dismiss) { Dismiss(j); }
      case WaitEnds =>
        HeadIsThere(g);
        if g.aborting && g.list != [] && Completed(g.jobs[g.list[0]].status) { GoOnAborting(); }
    }

    method IsTooLate(e: Event) returns (late: bool)
      requires Inv(g)
      ensures late <==> TooLate(g, e)
    {
      match e
      case Creation(j, _, _) =>
        late := j !in g.jobs && (g.aborting || exists m | m in g.jobs :: g.jobs[m].status == Pending);
      case Cancels(j) =>
        late := j in g.jobs && g.jobs[j].status != Null && !CancelAsserts(g.jobs[j]);
      case Action(_, _) | Exits(_, _) | UserCancels(_) | UserFinalizes(_, _) | UserDismisses(_) | WaitEnds =>
        late := false;
    }

    /**
     Every run: whatever happens in whatever order, completed jobs stay completed, what drivers were told is final, and
     no assert of the source fires.  `n` is the number of events before one that comes too late: a call of job_cancel
     that fires an assert (CancelMeetsAsserts) or a call of job_create after which one can fire (LateJoinFires).
     */
    method Run(events: seq<Event>) returns (n: nat)
      requires Inv(g)
      modifies this
      ensures Inv(g) && Onward(old(g), g)
      ensures n <= |events| && (n < |events| ==> TooLate(g, events[n]))
    {
      n := 0;
      while n < |events|
        invariant Inv(g) && Onward(old(g), g) && n <= |events|
      {
        var late := IsTooLate(events[n]);
        if late { return; }
        ghost var before := g;
        Perform(events[n]);
        OnwardTrans(old(g), before, g);
        n := n + 1;
      }
    }

    // ---- Groups over whole runs

    /**
     After a failed or cancelled job has entered the abort of its group, nothing that happens has a member committed.
     */
    method AbortThenRun(a: nat, events: seq<Event>)
      requires AbortReady(g, a) && (g.jobs[a].ret != 0 || g.jobs[a].cancelled)
      modifies this
      ensures Inv(g) && Onward(old(g), g) && g.aborting
      ensures forall m :: m in old(g).list ==>
        m in g.jobs && g.jobs[m].log == if m in g.list then [] else [Abort, Clean]
    {
      TxnAbort(a);
      ghost var begun := g;
      var n := Run(events);
      OnwardTrans(old(g), begun, g);
      forall m | m in old(g).list ensures m in g.jobs && g.jobs[m].log == if m in g.list then [] else [Abort, Clean] {
        assert m in old(g).jobs;
        if m !in g.list { MembersEndAlike(g, m); }
      }
    }

    /**
     After every member has prepared with success, each of them has been committed, and nothing that happens changes
     that.
     */
    method FinalizeThenRun(j: nat, prepare: nat -> int, events: seq<Event>)
      requires Inv(g) && j in g.jobs && g.jobs[j].status == Pending && forall m :: m in g.list ==> prepare(m) == 0
      modifies this
      ensures Inv(g) && Onward(old(g), g)
      ensures forall m :: m in old(g).list ==> m in g.jobs && m !in g.list && g.jobs[m].log == [Commit, Clean]
    {
      NoFailure(g.list, prepare);
      DoFinalize(j, prepare);
      ghost var ended := g;
      var n := Run(events);
      OnwardTrans(old(g), ended, g);
      forall m | m in old(g).list ensures m in g.jobs && m !in g.list && g.jobs[m].log == [Commit, Clean] {
        assert m in old(g).jobs && m in ended.jobs;
        MembersEndAlike(ended, m);
      }
    }

    /**
     A job that joins in time meets every assert at its end, whatever else happens in its group; and by the time a job
     could join too late, it has come to its end or been cancelled.
     */
    method JoinThenRun(j: nat, autoFinalize: bool, autoDismiss: bool, events: seq<Event>)
      requires Inv(g) && j !in g.jobs && Joinable(g)
      modifies this
      ensures Inv(g) && j in g.jobs && MeetsAsserts(g, j) && (!Joinable(g) ==> Settled(g.jobs[j]))
    {
      Create(j, autoFinalize, autoDismiss);
      ghost var joined := g;
      var n := Run(events);
      NotForgotten(joined, g, j);
      EndsInTime(g, j);
      if !Joinable(g) { LateIsSettled(g, j); }
    }

    /** job_exit for a job that fails in a group that is being aborted */
    method FailInAbort(m: nat)
      requires Inv(g) && CanFail(g, m)
      modifies this
      ensures g == Apply(old(g), Fails(m)) && Inv(g)
    {
      Exit(m, AllPrepare);
      FailsAsItSays(old(g), m, AllPrepare, g);
    }

    /** One turn that brings an abort to its end */
    method PlayOne(t: Turn)
      requires Inv(g) && Finishing(t)
      modifies this
      ensures g == Apply(old(g), t) && Inv(g)
    {
      match t
      case Acts(m, a) => if m in g.jobs && Can(g.jobs[m], a) { Take(m, a); }
      case Fails(m) => if CanFail(g, m) { FailInAbort(m); }
      case AbortGoesOn =>
        HeadIsThere(g);
        if g.ongoing && Completed(g.jobs[g.list[0]].status) {
          GoOnAborting();
        } else if g.ongoing {
          DyingWaits(g);
        }
    }

    /** The methods do what the turns say; by AbortCanFinish some turns bring every abort to its end. */
    method Play(turns: seq<Turn>)
      requires Inv(g) && AllFinishing(turns)
      modifies this
      ensures g == After(old(g), turns) && Inv(g)
    {
      for i := 0 to |turns|
        invariant g == After(old(g), turns[..i]) && Inv(g)
      {
        assert turns[i] in turns && turns[..i + 1] == turns[..i] + [turns[i]];
        AfterNext(old(g), turns[..i], turns[i]);
        PlayOne(turns[i]);
      }
      assert turns[..|turns|] == turns;
    }
  }

  // ---- Two short runs

  /** Two jobs, of which only the second is started */
  method TwoJobs() returns (txn: JobTxn)
    ensures fresh(txn) && Inv(txn.g) && txn.g.list == [2, 1] && HeadRuns(txn.g)
    ensures 1 in txn.g.jobs && txn.g.jobs[1] == New(true, true)
  {
    txn := new JobTxn();
    txn.Create(1, true, true);
    txn.Create(2, true, true);
    txn.Take(2, Starts);
  }

  /** The one that was never started is cancelled, and cancelled again: the assert of job_completed fires. */
  method CancelTwice() returns (g: Group, fires: bool)
    ensures Inv(g) && g.list == [2, 1] && 1 in g.jobs && !CancelAsserts(g.jobs[1]) && fires
  {
    var txn := TwoJobs();
    fires := txn.Cancel(1);
    g := txn.g;
    fires := txn.Cancel(1);
  }

  /** The job is started and returns. */
  method StartThenReturn(txn: JobTxn, j: nat, autoFinalize: bool, autoDismiss: bool)
    requires Inv(txn.g) && j in txn.g.jobs && txn.g.jobs[j] == New(autoFinalize, autoDismiss)
    modifies txn
    ensures Inv(txn.g)
    ensures txn.g == old(txn.g).(jobs := old(txn.g).jobs[j := Return(Start(New(autoFinalize, autoDismiss)), 0)])
  {
    ghost var jobs, r := txn.g.jobs, New(autoFinalize, autoDismiss);
    txn.Take(j, Starts);
    txn.Take(j, Returns(0));
    PutTwice(jobs, j, Start(r), Return(Start(r), 0));
  }

  /** Two jobs that want to be asked */
  method TwoCreated() returns (txn: JobTxn)
    ensures fresh(txn) && Inv(txn.g) && txn.g.list == [1, 0] && txn.g.past == {} && !txn.g.aborting
    ensures 0 in txn.g.jobs && txn.g.jobs[0] == New(false, true) && 1 in txn.g.jobs && txn.g.jobs[1] == New(false, true)
  {
    txn := new JobTxn();
    txn.Create(0, false, true);
    txn.Create(1, false, true);
  }

  /** Both have returned. */
  method TwoReturned() returns (txn: JobTxn)
    ensures fresh(txn) && Inv(txn.g) && txn.g.list == [1, 0] && txn.g.past == {} && !txn.g.aborting
    ensures 0 in txn.g.jobs && txn.g.jobs[0] == Return(Start(New(false, true)), 0)
    ensures 1 in txn.g.jobs && txn.g.jobs[1] == Return(Start(New(false, true)), 0)
  {
    txn := TwoCreated();
    StartThenReturn(txn, 0, false, true);
    StartThenReturn(txn, 1, false, true);
  }

  /** The first of them comes to its end with success, and waits. */
  method OneWaits() returns (txn: JobTxn)
    ensures fresh(txn) && Inv(txn.g) && txn.g.list == [1, 0] && !txn.g.aborting
    ensures 0 in txn.g.jobs && txn.g.jobs[0].status == Waiting && !txn.g.jobs[0].autoFinalize
    ensures 1 in txn.g.jobs && txn.g.jobs[1] == Return(Start(New(false, true)), 0)
  {
    txn := TwoReturned();
    OtherRuns(txn.g, 0, 1);
    txn.Exit(0, AllPrepare);
  }

  /** Both come to their end with success and are PENDING. */
  method TwoPending() returns (txn: JobTxn)
    ensures fresh(txn) && Inv(txn.g) && txn.g.list == [1, 0] && !txn.g.aborting
    ensures 0 in txn.g.jobs && 1 in txn.g.jobs && txn.g.jobs[1].status == Pending
  {
    txn := OneWaits();
    EndsAsking(txn.g, 1, 0);
    txn.Exit(1, AllPrepare);
    assert 0 in txn.g.list && 1 in txn.g.list;
  }

  function FirstFails(m: nat): int { if m == 0 then -1 else 0 }

  /** Job 1 asks for finalization, and job 0 fails to prepare: job 1 is committed, job 0 aborted. */
  method FinalizedByAnother() returns (g: Group)
    ensures Inv(g) && g.aborting && 0 in g.jobs && 1 in g.jobs
    ensures g.jobs[0].log == [Abort, Clean] && g.jobs[1].log == [Commit, Clean]
  {
    var txn := TwoPending();
    assert 0 in txn.g.list && 1 in txn.g.list;
    FirstFailureIs([1, 0], FirstFails, 1);
    txn.DoFinalize(1, FirstFails);
    SparedIsCommitted(txn.g, 1);
    g := txn.g;
  }
}
