/**
 Groups of jobs (JobTxn in tools/qemu/job.c) as values: the members of a group end together, either all
 committed or all aborted.  A job stays in the group it was created in, so that groups have nothing to do with
 one another.
 */
module JobGroup {
  import opened Common
  import opened Job

  // ---- The end of one job

  /** job_cancel_async */
  function CancelAsync(j: Job): (r: Job)
    ensures r == j.(cancelled := true, pauses := r.pauses) && !r.pauses.byUser && r.pauses.drained == j.pauses.drained
  {
    j.(cancelled := true, pauses := if j.pauses.byUser then CountResume(j.pauses, j.started, true) else j.pauses)
  }

  /** job_update_rc */
  function UpdateRc(j: Job): (r: Job)
    requires j.status.Created? || Exiting(j) || j.status.Waiting? || j.status.Pending? || j.status.Aborting?
    ensures r.cancelled == j.cancelled && r.started == j.started
    ensures if j.ret == 0 && !j.cancelled then r == j else r.status == Aborting && r.ret != 0
    ensures if j.ret != 0 then r.ret == j.ret else j.cancelled ==> r.ret == -ECANCELED
  {
    var ret := if j.ret == 0 && j.cancelled then -ECANCELED else j.ret;
    if ret == 0 then j
    else
      assert Allowed(j.status, Aborting);
      j.(ret := ret, status := Aborting)
  }

  /** job_conclude, with the job_do_dismiss it may call */
  function Conclude(j: Job): (r: Job)
    requires j.status.Pending? || j.status.Aborting?
    ensures Completed(r.status) && !InGroup(r.status) && r.ret == j.ret
    ensures j.started ==> (r.status == Null <==> j.autoDismiss)
    ensures !j.started ==> r.status == Null
  {
    var log := j.log + [if j.ret == 0 then Commit else Abort] + [Clean];
    var gone := j.autoDismiss || !j.started;
    assert Allowed(j.status, Concluded) && Allowed(Concluded, Null);
    j.(log := log, status := if gone then Null else Concluded,
       busy := !gone && j.busy, paused := !gone && j.paused, deferred := gone || j.deferred)
  }

  /** The job meets the asserts of job_finalize_single and of the changes of status it makes. */
  predicate Finalizable(j: Job) {
    InGroup(j.status) && Completed(j.status) && (j.ret == 0 && !j.cancelled ==> j.status == Pending)
  }

  /** job_finalize_single, which also takes the job out of its group */
  function FinalizeSingle(j: Job): (r: Job)
    requires Finalizable(j)
    ensures Completed(r.status) && !InGroup(r.status)
    ensures r.ret == 0 <==> j.ret == 0 && !j.cancelled
    ensures if j.ret != 0 then r.ret == j.ret else j.cancelled ==> r.ret == -ECANCELED
    ensures j.started ==> (r.status == Null <==> j.autoDismiss)
    ensures r.log == if j.ret == 0 && !j.cancelled then [Commit, Clean] else [Abort, Clean]
  {
    Conclude(UpdateRc(j))
  }

  // ---- What always holds

  type Table = map<nat, Job>

  lemma PutTwice(jobs: Table, j: nat, a: Job, b: Job)
    ensures jobs[j := a][j := b] == jobs[j := b]
  {
  }

  /**
   The jobs that were created in a group, and the list of those that are still in it.  `ongoing` says that
   job_completed_txn_abort has been entered and has not returned.  `past` are the jobs that were committed before
   the group was aborted, if it has been; `spared` is the job that entered the abort if it had neither failed nor
   been cancelled.
   */
  datatype Group = Group(jobs: Table, list: seq<nat>, aborting: bool, ongoing: bool, spared: Option<nat>,
                         past: set<nat>)

  /** job_txn_new */
  const EMPTY := Group(map[], [], false, false, None, {})

  ghost predicate Listed(g: Group) {
    && Distinct(g.list) && g.past <= g.jobs.Keys
    && (forall j {:trigger g.jobs[j]} :: j in g.jobs ==> (j in g.list <==> InGroup(g.jobs[j].status)))
    && (forall j {:trigger j in g.list} :: j in g.list ==> j in g.jobs)
  }

  /**
   In a group that is being aborted every member will fail, and every job that has left it since has failed, but
   for the one that is spared.  In any other group no member has failed, and jobs have left it with success.
   */
  predicate Standing(j: Job, aborting: bool, spared: bool, past: bool) {
    if InGroup(j.status) then
      && !past
      && if aborting then !spared && j.status != Pending && (j.cancelled || j.status == Aborting)
         else j.status != Aborting && (j.status.Waiting? || j.status.Pending? ==> !j.cancelled)
    else if past then j.ret == 0
    else aborting && (j.ret == 0 <==> spared)
  }

  ghost predicate AllInStatus(g: Group, s: Status) {
    forall j {:trigger g.jobs[j]} :: j in g.jobs && InGroup(g.jobs[j].status) ==> g.jobs[j].status == s
  }

  ghost predicate Inv(g: Group) {
    && Listed(g) && (g.ongoing <==> g.aborting && g.list != [])
    && (forall j {:trigger g.jobs[j]} :: j in g.jobs ==>
         Standing(g.jobs[j], g.aborting, g.spared == Some(j), j in g.past))
    && (forall j {:trigger g.jobs[j]} :: j in g.jobs && g.jobs[j].status == Pending ==> AllInStatus(g, Pending))
  }

  /** Completed jobs stay completed, and what the driver of a job that has left its group was told is final. */
  predicate Later(j: Job, j': Job) {
    && (Completed(j.status) ==> Completed(j'.status))
    && (!InGroup(j.status) ==> !InGroup(j'.status) && j'.log == j.log && j'.ret == j.ret)
  }

  /** No job is forgotten, and a group that is being aborted stays so. */
  ghost predicate Onward(g: Group, g': Group) {
    && (forall j {:trigger g'.jobs[j]} {:trigger g.jobs[j]} :: j in g.jobs ==>
         j in g'.jobs && Later(g.jobs[j], g'.jobs[j]))
    && g.past <= g'.past && (g.aborting ==> g'.aborting && g'.spared == g.spared && g'.past == g.past)
  }

  lemma KeepsStanding(j: Job, r: Job)
    requires SameStanding(j, r)
    ensures InGroup(r.status) == InGroup(j.status) && (r.status == Pending <==> j.status == Pending) && Later(j, r)
    ensures forall aborting, spared, past :: Standing(j, aborting, spared, past) ==> Standing(r, aborting, spared, past)
  {
  }

  lemma StillAllOrNone(g: Group, j: nat, r: Job)
    requires (forall i {:trigger g.jobs[i]} :: i in g.jobs && g.jobs[i].status == Pending ==> AllInStatus(g, Pending))
    requires j in g.jobs
    requires InGroup(r.status) == InGroup(g.jobs[j].status) && (r.status == Pending <==> g.jobs[j].status == Pending)
    ensures var g' := g.(jobs := g.jobs[j := r]);
            forall i {:trigger g'.jobs[i]} :: i in g'.jobs && g'.jobs[i].status == Pending ==> AllInStatus(g', Pending)
  {
    var g' := g.(jobs := g.jobs[j := r]);
    forall i | i in g'.jobs && g'.jobs[i].status == Pending ensures AllInStatus(g', Pending) {
      assert g.jobs[i].status == Pending;
    }
  }

  lemma UpdateOne(g: Group, j: nat, r: Job)
    requires Inv(g) && j in g.jobs && SameStanding(g.jobs[j], r)
    ensures Inv(g.(jobs := g.jobs[j := r])) && Onward(g, g.(jobs := g.jobs[j := r]))
  {
    KeepsStanding(g.jobs[j], r);
    StillAllOrNone(g, j, r);
  }

  // ---- Aborting

  /** A member that job_finalize_single will abort, or the one that entered a late abort */
  predicate Doomed(j: Job, spared: bool, past: bool) {
    if InGroup(j.status) then
      !past && if spared then j.status == Pending && !j.cancelled else j.cancelled || j.status == Aborting
    else if past then j.ret == 0
    else j.ret == 0 <==> spared
  }

  ghost predicate AllCompleted(jobs: Table) {
    forall j {:trigger jobs[j]} :: j in jobs ==> Completed(jobs[j].status)
  }

  /** Nobody is pending while somebody is not completed. */
  ghost predicate PendingOnlyAtEnd(jobs: Table) {
    forall j {:trigger jobs[j]} :: j in jobs && jobs[j].status == Pending ==> AllCompleted(jobs)
  }

  /** A group that is being aborted, between two rounds of the loop of job_completed_txn_abort */
  ghost predicate Dying(g: Group) {
    && Listed(g) && g.aborting && g.ongoing
    && (forall j {:trigger g.jobs[j]} :: j in g.jobs ==> Doomed(g.jobs[j], g.spared == Some(j), j in g.past))
    && PendingOnlyAtEnd(g.jobs)
  }

  /** The group after its first member has left it */
  function WithoutHead(g: Group, r: Job): Group
    requires g.list != []
  {
    g.(jobs := g.jobs[g.list[0] := r], list := g.list[1..])
  }

  lemma HeadLeaves(g: Group, r: Job)
    requires Listed(g) && g.list != [] && Completed(r.status) && !InGroup(r.status)
    ensures g.list[0] in g.jobs && Listed(WithoutHead(g, r)) && Onward(g, WithoutHead(g, r))
  {
    var list := g.list;
    assert list[0] in list && list[0] !in list[1..];
    assert forall j :: j in list[1..] <==> j in list && j != list[0];
    assert Distinct(list[1..]);
  }

  lemma DyingHead(g: Group)
    requires Dying(g) && g.list != [] && g.list[0] in g.jobs && Completed(g.jobs[g.list[0]].status)
    ensures var j := g.jobs[g.list[0]];
            && Finalizable(j)
            && Dying(WithoutHead(g, FinalizeSingle(j))) && Onward(g, WithoutHead(g, FinalizeSingle(j)))
  {
    assert g.list[0] in g.list;
    HeadLeaves(g, FinalizeSingle(g.jobs[g.list[0]]));
  }

  /** The first job of the list has not completed. */
  ghost predicate HeadRuns(g: Group) {
    g.list != [] && g.list[0] in g.jobs && !Completed(g.jobs[g.list[0]].status)
  }

  /** `list'` is what is left of `list` after jobs have left from its head on. */
  predicate IsRest(list: seq<nat>, list': seq<nat>) {
    |list'| <= |list| && list' == list[|list| - |list'|..]
  }

  lemma RestOfTail(list: seq<nat>, list': seq<nat>)
    requires list != [] && IsRest(list[1..], list')
    ensures IsRest(list, list')
  {
    assert list[1..][|list| - 1 - |list'|..] == list[|list| - |list'|..];
  }

  /** The loop of job_completed_txn_abort, until it has to wait for a member or is done */
  function AbortRounds(g: Group): Group
    decreases |g.list|
  {
    if g.list != [] && g.list[0] in g.jobs && Finalizable(g.jobs[g.list[0]])
    then AbortRounds(WithoutHead(g, FinalizeSingle(g.jobs[g.list[0]])))
    else g.(ongoing := g.list != [])
  }

  lemma {:induction false} AbortRoundsLeave(g: Group)
    ensures var r := AbortRounds(g);
            IsRest(g.list, r.list) && r.jobs.Keys == g.jobs.Keys
            && r == g.(jobs := r.jobs, list := r.list, ongoing := r.ongoing)
    decreases |g.list|
  {
    if g.list != [] && g.list[0] in g.jobs && Finalizable(g.jobs[g.list[0]]) {
      var g' := WithoutHead(g, FinalizeSingle(g.jobs[g.list[0]]));
      AbortRoundsLeave(g');
      RestOfTail(g.list, AbortRounds(g').list);
    }
  }

  /** When the loop has to wait, the group keeps its promise. */
  lemma DyingWaits(g: Group)
    requires Dying(g) && (g.list == [] || HeadRuns(g))
    ensures Inv(g.(ongoing := g.list != [])) && Onward(g, g.(ongoing := g.list != []))
    ensures AbortRounds(g) == g.(ongoing := g.list != [])
  {
    assert g.list != [] ==> g.list[0] in g.list;
  }

  lemma HeadIsThere(g: Group)
    requires Listed(g)
    ensures g.list != [] ==> g.list[0] in g.jobs
  {
    assert g.list != [] ==> g.list[0] in g.list;
  }

  lemma NotForgotten(g: Group, g': Group, j: nat)
    requires Onward(g, g') && j in g.jobs
    ensures j in g'.jobs && Later(g.jobs[j], g'.jobs[j])
  {
  }

  lemma OnwardTrans(g: Group, g': Group, g'': Group)
    requires Onward(g, g') && Onward(g', g'')
    ensures Onward(g, g'')
  {
  }

  /** The loop finalizes members until it has to wait for the first one or nobody is left. */
  lemma {:induction false} AbortRoundsKeep(g: Group)
    requires Dying(g)
    ensures Inv(AbortRounds(g)) && Onward(g, AbortRounds(g)) && (AbortRounds(g).list == [] || HeadRuns(AbortRounds(g)))
    decreases |g.list|
  {
    HeadIsThere(g);
    if g.list == [] || HeadRuns(g) {
      DyingWaits(g);
    } else {
      DyingHead(g);
      var g' := WithoutHead(g, FinalizeSingle(g.jobs[g.list[0]]));
      AbortRoundsKeep(g');
      OnwardTrans(g, g', AbortRounds(g'));
    }
  }

  /** The jobs in `done` other than `a` have been cancelled, and nothing else that concerns the group has changed. */
  ghost predicate Cancelling(jobs: Table, jobs': Table, done: seq<nat>, a: nat) {
    && jobs'.Keys == jobs.Keys
    && forall j {:trigger jobs'[j]} :: j in jobs ==>
         && jobs'[j].status == jobs[j].status && jobs'[j].ret == jobs[j].ret && jobs'[j].log == jobs[j].log
         && jobs'[j].started == jobs[j].started
         && (jobs'[j].cancelled <==> jobs[j].cancelled || (j in done && j != a))
  }

  lemma NextInList(list: seq<nat>, i: nat)
    requires Distinct(list) && i < |list|
    ensures list[i] in list && list[i] !in list[..i]
    ensures forall x :: x in list[..i + 1] <==> x in list[..i] || x == list[i]
  {
  }

  lemma CancelOne(jobs: Table, jobs': Table, done: seq<nat>, done': seq<nat>, m: nat, a: nat)
    requires m in jobs' && Cancelling(jobs, jobs', done, a) && forall x :: x in done' <==> x in done || x == m
    ensures Cancelling(jobs, if m == a then jobs' else jobs'[m := CancelAsync(jobs'[m])], done', a)
  {
  }

  function Spared(jobs: Table, a: nat): Option<nat>
    requires a in jobs
  {
    if jobs[a].ret == 0 && !jobs[a].cancelled then Some(a) else None
  }

  /** What job_completed_txn_abort relies on when it is entered by `a` */
  ghost predicate AbortReady(g: Group, a: nat) {
    && Listed(g) && !g.aborting && !g.ongoing && a in g.list && PendingOnlyAtEnd(g.jobs)
    && (forall j {:trigger g.jobs[j]} :: j in g.jobs ==>
         if InGroup(g.jobs[j].status) then j !in g.past else j in g.past && g.jobs[j].ret == 0)
    && (g.jobs[a].cancelled || g.jobs[a].status == Aborting || (g.jobs[a].status == Pending && g.jobs[a].ret == 0))
  }

  lemma BeginDying(g: Group, jobs': Table, a: nat)
    requires AbortReady(g, a) && Cancelling(g.jobs, jobs', g.list, a)
    ensures var g' := Group(jobs', g.list, true, true, Spared(g.jobs, a), g.past); Dying(g') && Onward(g, g')
  {
    forall j | j in jobs' && jobs'[j].status == Pending ensures AllCompleted(jobs') {
      assert g.jobs[j].status == Pending;
    }
  }

  lemma NobodyIsLeft(g0: Group, g: Group)
    requires Onward(g0, g) && g.jobs.Keys == g0.jobs.Keys && AllCompleted(g0.jobs)
    requires g.list == [] || (g.list[0] in g.jobs && !Completed(g.jobs[g.list[0]].status))
    ensures g.list == []
  {
  }

  // ---- Lemmas about success

  /** All members are ready to be committed, and all that have left the group have been. */
  ghost predicate Committing(g: Group) {
    && Listed(g) && !g.aborting && !g.ongoing
    && forall j {:trigger g.jobs[j]} :: j in g.jobs ==>
         if InGroup(g.jobs[j].status) then j !in g.past && g.jobs[j].status == Pending && !g.jobs[j].cancelled
         else j in g.past && g.jobs[j].ret == 0
  }

  /** The group after its first member has left it with success */
  function Committed(g: Group, r: Job): Group
    requires g.list != []
  {
    WithoutHead(g, r).(past := g.past + {g.list[0]})
  }

  lemma CommittingHead(g: Group)
    requires Committing(g) && g.list != []
    ensures g.list[0] in g.jobs && InGroup(g.jobs[g.list[0]].status) && g.jobs[g.list[0]].status == Pending
    ensures var g' := Committed(g, FinalizeSingle(g.jobs[g.list[0]]));
            Committing(g') && Onward(g, g') && g'.jobs.Keys == g.jobs.Keys && g.list[0] in g'.past
  {
    assert g.list[0] in g.list;
    HeadLeaves(g, FinalizeSingle(g.jobs[g.list[0]]));
  }

  lemma CommittedAll(g: Group)
    requires Committing(g) && g.list == []
    ensures Inv(g)
  {
  }

  lemma AllPendingTogether(g: Group, j: nat)
    requires Inv(g) && j in g.jobs && g.jobs[j].status == Pending
    ensures Committing(g) && j in g.list
    ensures forall m {:trigger g.jobs[m]} :: m in g.list ==>
      m in g.jobs && g.jobs[m].status == Pending && g.jobs[m].ret == 0
  {
    forall m | m in g.list ensures m in g.jobs && g.jobs[m].status == Pending {}
  }

  /** The job `m` has failed to prepare, and `j` is about to abort the group. */
  ghost predicate Failed(g: Group, j: nat, m: nat, g': Group) {
    && AbortReady(g', j) && Onward(g, g') && g'.jobs.Keys == g.jobs.Keys && AllCompleted(g'.jobs) && g'.list == g.list
    && g'.past == g.past
    && Spared(g'.jobs, j) == if m == j then None else Some(j)
  }

  lemma PrepareFails(g: Group, j: nat, m: nat, rc: int)
    requires Committing(g) && j in g.list && m in g.list && rc != 0
    ensures Allowed(g.jobs[m].status, Aborting)
    ensures Ok(g.jobs[m].(ret := rc, status := Aborting))
    ensures var g' := g.(jobs := g.jobs[m := g.jobs[m].(ret := rc, status := Aborting)]);
            Failed(g, j, m, g')
  {
  }

  /** The position of the first job that fails to prepare, or the length of the list if none does */
  ghost function FirstFailure(list: seq<nat>, prepare: nat -> int): (k: nat)
    ensures k <= |list| && (k < |list| ==> prepare(list[k]) != 0) && forall i :: 0 <= i < k ==> prepare(list[i]) == 0
  {
    if list == [] then 0 else if prepare(list[0]) != 0 then 0 else FirstFailure(list[1..], prepare) + 1
  }

  lemma FirstFailureIs(list: seq<nat>, prepare: nat -> int, k: nat)
    requires k <= |list| && (k < |list| ==> prepare(list[k]) != 0) && forall i :: 0 <= i < k ==> prepare(list[i]) == 0
    ensures FirstFailure(list, prepare) == k
  {
  }

  lemma NoFailure(list: seq<nat>, prepare: nat -> int)
    requires forall m :: m in list ==> prepare(m) == 0
    ensures FirstFailure(list, prepare) == |list|
  {
    forall i | 0 <= i < |list| ensures prepare(list[i]) == 0 { assert list[i] in list; }
    FirstFailureIs(list, prepare, |list|);
  }

  /** A job that has come to its end with success waits for the others. */
  lemma Waits(g: Group, j: nat)
    requires Inv(g) && j in g.jobs && Exiting(g.jobs[j]) && g.jobs[j].ret == 0 && !g.jobs[j].cancelled
    ensures !g.aborting && Allowed(g.jobs[j].status, Waiting) && Ok(g.jobs[j].(status := Waiting))
    ensures var g' := g.(jobs := g.jobs[j := g.jobs[j].(status := Waiting)]);
            Inv(g') && Onward(g, g') && !AllInStatus(g', Pending)
  {
    var g' := g.(jobs := g.jobs[j := g.jobs[j].(status := Waiting)]);
    assert g'.jobs[j].status == Waiting;
  }

  ghost predicate NobodyAsks(g: Group) {
    forall m :: m in g.list ==> m in g.jobs && g.jobs[m].autoFinalize
  }

  ghost predicate AllDone(g: Group) {
    forall m :: m in g.list ==> m in g.jobs && Completed(g.jobs[m].status)
  }

  /** job_transition_to_pending */
  function Marked1(j: Job): (r: Job)
    ensures Allowed(j.status, Pending) ==> r.status == Pending && r == j.(status := Pending)
    ensures !Allowed(j.status, Pending) ==> r == j
  {
    if Allowed(j.status, Pending) then j.(status := Pending) else j
  }

  /** The members in `done` are PENDING. */
  ghost predicate Marked(g: Group, g': Group, done: seq<nat>) {
    && g'.jobs.Keys == g.jobs.Keys
    && forall j {:trigger g'.jobs[j]} :: j in g.jobs ==>
         g'.jobs[j] == if j in done then Marked1(g.jobs[j]) else g.jobs[j]
  }

  lemma MarkedAsksAlike(g: Group, g': Group)
    requires Listed(g) && g'.list == g.list && Marked(g, g', g.list)
    ensures NobodyAsks(g') <==> NobodyAsks(g)
  {
    forall m | m in g.list ensures m in g'.jobs && m in g.jobs && g'.jobs[m].autoFinalize == g.jobs[m].autoFinalize {}
  }

  ghost predicate OthersCompleted(g: Group, j: nat) {
    forall m :: m in g.list && m != j ==> m in g.jobs && Completed(g.jobs[m].status)
  }

  lemma WaitingAsksAlike(g: Group, j: nat, r: Job)
    requires Listed(g) && j in g.jobs && r.autoFinalize == g.jobs[j].autoFinalize && Completed(r.status)
    ensures var g' := g.(jobs := g.jobs[j := r]);
            (NobodyAsks(g') <==> NobodyAsks(g)) && (AllDone(g') <==> OthersCompleted(g, j))
  {
    var g' := g.(jobs := g.jobs[j := r]);
    forall m | m in g.list ensures m in g'.jobs && m in g.jobs && g'.jobs[m].autoFinalize == g.jobs[m].autoFinalize {}
  }

  /**
   The last member of a group has come to its end with success: the group is finalized unless a member wants to be
   asked.
   */
  ghost predicate Ended(g: Group, j: nat, prepare: nat -> int, g': Group) {
    if NobodyAsks(g) then
      && g'.list == [] && (g'.aborting <==> FirstFailure(g.list, prepare) < |g.list|)
      && (g'.aborting ==>
           g'.past == g.past && g'.spared == if g.list[FirstFailure(g.list, prepare)] == j then None else Some(j))
    else
      g'.list == g.list && !g'.aborting && AllInStatus(g', Pending)
  }

  lemma AllWait(g: Group, j: nat)
    requires Inv(g) && !g.aborting && j in g.jobs && g.jobs[j].status == Waiting
    requires AllDone(g)
    ensures AllInStatus(g, Waiting) && j in g.list
  {
    forall i | i in g.jobs && InGroup(g.jobs[i].status) ensures g.jobs[i].status == Waiting {
      assert i in g.list;
      if g.jobs[i].status == Pending { assert AllInStatus(g, Pending); }
    }
  }

  lemma MarkOne(g: Group, g': Group, done: seq<nat>, j: nat, done': seq<nat>)
    requires Marked(g, g', done) && j in g.jobs && j !in done && forall x :: x in done' <==> x in done || x == j
    ensures g'.jobs[j] == g.jobs[j] && Marked(g, g'.(jobs := g'.jobs[j := Marked1(g'.jobs[j])]), done')
  {
  }

  lemma MarkNext(g: Group, g': Group, i: nat)
    requires Listed(g) && AllInStatus(g, Waiting) && i < |g.list| && Marked(g, g', g.list[..i])
    ensures g.list[i] in g'.jobs && Allowed(g'.jobs[g.list[i]].status, Pending)
    ensures Marked(g, g'.(jobs := g'.jobs[g.list[i] := Marked1(g'.jobs[g.list[i]])]), g.list[..i + 1])
  {
    NextInList(g.list, i);
    MarkOne(g, g', g.list[..i], g.list[i], g.list[..i + 1]);
  }

  lemma MarkedStatus(g: Group, g': Group, j: nat)
    requires Inv(g) && !g.aborting && AllInStatus(g, Waiting) && Marked(g, g', g.list) && j in g.jobs
    ensures if InGroup(g.jobs[j].status) then g'.jobs[j].status == Pending && !g'.jobs[j].cancelled && j in g.list
            else g'.jobs[j] == g.jobs[j]
  {
  }

  lemma MarkedAll(g: Group, g': Group)
    requires Inv(g) && !g.aborting && AllInStatus(g, Waiting) && g' == g.(jobs := g'.jobs) && Marked(g, g', g.list)
    ensures Inv(g') && AllInStatus(g', Pending) && Onward(g, g')
  {
    forall j | j in g.jobs
      ensures if InGroup(g.jobs[j].status) then g'.jobs[j].status == Pending && !g'.jobs[j].cancelled && j in g.list
              else g'.jobs[j] == g.jobs[j]
    {
      MarkedStatus(g, g', j);
    }
  }

  /**
   The group is being aborted.  If it was not before, a job that had failed or been cancelled has entered the
   abort, and members have left from the head of the list on, up to the first that has not completed.
   */
  ghost predicate Aborts(g: Group, g': Group) {
    && g'.aborting
    && if g.aborting then g'.list == g.list
       else g'.spared == None && g'.past == g.past && IsRest(g.list, g'.list) && (g'.list == [] || HeadRuns(g'))
  }

  /** The abort of the group waits at once, and `j` waits in the list for it to go on. */
  ghost predicate LeftWaiting(g: Group, j: nat, g': Group) {
    !g.aborting && HeadRuns(g) && g.list[0] != j && j in g.jobs ==>
      g'.list == g.list && j in g'.jobs && g'.jobs[j].status == Aborting && g'.jobs[j].started == g.jobs[j].started
  }

  /** The group when job_exit has said that the job is no longer busy */
  function Idle(g: Group, j: nat): Group
    requires j in g.jobs
  {
    g.(jobs := g.jobs[j := g.jobs[j].(busy := false)])
  }

  /**
   What job_completed comes to.  A job that has failed or been cancelled aborts its group; a job that has succeeded
   waits for the others, or ends the group.
   */
  ghost predicate Outcome(g: Group, j: nat, prepare: nat -> int, g': Group)
    requires j in g.jobs && (g.jobs[j].status == Created || Exiting(g.jobs[j]))
  {
    var r := g.jobs[j];
    if r.ret != 0 || r.cancelled then
      Aborts(g, g') && LeftWaiting(g, j, g') && (g.aborting ==> g' == g.(jobs := g.jobs[j := UpdateRc(r)]))
    else if OthersCompleted(g, j) then Ended(g, j, prepare, g')
    else j in g'.jobs && g' == g.(jobs := g.jobs[j := g'.jobs[j]]) && g'.jobs[j] == r.(status := Waiting)
  }

  /** What job_cancel comes to for a job that is in its group */
  ghost predicate CancelOutcome(g: Group, j: nat, g': Group)
    requires j in g.jobs
  {
    if g.jobs[j].started && !g.jobs[j].deferred then j in g'.jobs && g'.jobs[j].cancelled && g'.jobs[j].busy
    else Aborts(g, g') && (!g.jobs[j].started ==> LeftWaiting(g, j, g'))
  }

  lemma WaitsAlike(g: Group, g1: Group, j: nat, g': Group)
    requires j in g.jobs && g1 == g.(jobs := g.jobs[j := CancelAsync(g.jobs[j])]) && LeftWaiting(g1, j, g')
    ensures LeftWaiting(g, j, g')
  {
  }

  lemma OtherRuns(g: Group, j: nat, m: nat)
    requires j in g.jobs && m in g.jobs && m in g.list && m != j && !Completed(g.jobs[m].status)
    ensures !OthersCompleted(Idle(g, j), j)
  {
  }

  /** The last of two members comes to its end, and the other one wants to be asked. */
  lemma EndsAsking(g: Group, j: nat, m: nat)
    requires j in g.jobs && m in g.jobs && g.list == [j, m] && m != j && Completed(g.jobs[m].status)
    requires !g.jobs[m].autoFinalize
    ensures OthersCompleted(Idle(g, j), j) && !NobodyAsks(Idle(g, j))
  {
    assert m in g.list;
  }

  lemma WaitsInList(g: Group, j: nat, r: Job, g': Group)
    requires j in g.jobs && r.status == Aborting && r.started == g.jobs[j].started
    requires var g1 := g.(jobs := g.jobs[j := r]);
             !g.aborting && HeadRuns(g1) ==> g'.list == g.list && Cancelling(g1.jobs, g'.jobs, g.list, j)
    ensures LeftWaiting(g, j, g')
  {
  }

  lemma FailsAtEnd(g: Group, j: nat)
    requires Inv(g) && j in g.jobs && (g.jobs[j].status == Created || Exiting(g.jobs[j]))
    requires g.jobs[j].ret != 0 || g.jobs[j].cancelled
    ensures var g' := g.(jobs := g.jobs[j := UpdateRc(g.jobs[j])]);
            Onward(g, g') && if g.aborting then Inv(g') else AbortReady(g', j)
  {
  }

  lemma Dismissed(g: Group, j: nat, r: Job)
    requires Inv(g) && j in g.jobs && g.jobs[j].status == Concluded && r.status == Null && r.ret == g.jobs[j].ret
    requires r.log == g.jobs[j].log
    ensures Inv(g.(jobs := g.jobs[j := r])) && Onward(g, g.(jobs := g.jobs[j := r]))
  {
    StillAllOrNone(g, j, r);
  }

  lemma IsCancelled(g: Group, j: nat)
    requires Inv(g) && j in g.jobs && InGroup(g.jobs[j].status)
    ensures var g' := g.(jobs := g.jobs[j := CancelAsync(g.jobs[j])]);
            && Onward(g, g')
            && (g.aborting || !Completed(g.jobs[j].status) ==> Inv(g')) && (!g.aborting ==> AbortReady(g', j))
  {
  }

  /** No job of the group has come far enough that a newcomer would be too late. */
  ghost predicate Joinable(g: Group) {
    !g.aborting && forall j {:trigger g.jobs[j]} :: j in g.jobs ==> g.jobs[j].status != Pending
  }

  /** job_txn_add_job puts a job at the head of the list. */
  function Joined(g: Group, j: nat, r: Job): Group {
    g.(jobs := g.jobs[j := r], list := [j] + g.list)
  }

  lemma JoinKeeps(g: Group, j: nat, r: Job)
    requires Inv(g) && Joinable(g) && j !in g.jobs && r.status == Created
    ensures Inv(Joined(g, j, r)) && Onward(g, Joined(g, j, r))
  {
    assert j !in g.list && j !in g.past;
  }

  // ---- Everything that can happen

  /** What concerns one job only */
  datatype Act =
    | Starts | Enters | Yields | PausesItself | GoesOn | IsReady | Returns(ret: int)
    | UserPauses | UserResumes(timerPending: bool) | DrainBegins | DrainEnds(timerPending: bool)
    | IoError(onErr: OnError, error: int)

  predicate Can(j: Job, a: Act) {
    match a
    case Starts => j.status == Created
    case Yields | PausesItself | Returns(_) => InCoroutine(j)
    case GoesOn => j.started && j.paused && j.busy
    case IsReady => InCoroutine(j) && j.status == Running
    case DrainEnds(_) => j.pauses.drained > 0
    case Enters | UserPauses | UserResumes(_) | DrainBegins | IoError(_, _) => true
  }

  function Did(j: Job, a: Act): (r: Job)
    requires Can(j, a)
    ensures SameStanding(j, r)
  {
    match a
    case Starts => Start(j)
    case Enters => Enter(j)
    case Yields => Yield(j)
    case PausesItself => PausePoint(j)
    case GoesOn => AfterPause(j)
    case IsReady => BecomeReady(j)
    case Returns(ret) => Return(j, ret)
    case UserPauses => var r := UserPause(j); if r.Some? then r.value else j
    case UserResumes(timerPending) => var r := UserResume(j, timerPending); if r.Some? then r.value else j
    case DrainBegins => DrainedBegin(j)
    case DrainEnds(timerPending) => DrainedEnd(j, timerPending)
    case IoError(onErr, error) => OnIoError(j, onErr, error).0
  }

  /** What can happen in a group; `prepare` gives what drivers return if the event makes them prepare. */
  datatype Event =
    | Creation(j: nat, autoFinalize: bool, autoDismiss: bool)
    | Action(j: nat, a: Act)
    | Exits(j: nat, prepare: nat -> int)
    | UserCancels(j: nat)
    | Cancels(j: nat)
    | UserFinalizes(j: nat, prepare: nat -> int)
    | UserDismisses(j: nat)
    | WaitEnds

  /** The assert of job_completed, which job_cancel calls for a job that was never started */
  predicate CancelAsserts(j: Job) {
    j.status == Concluded || j.started || !Completed(j.status)
  }

  /**
   The event is a call of job_create that comes too late, or the second call of job_cancel for a job that was never
   started.
   */
  ghost predicate TooLate(g: Group, e: Event) {
    match e
    case Creation(j, _, _) => j !in g.jobs && !Joinable(g)
    case Cancels(j) => j in g.jobs && g.jobs[j].status != Null && !CancelAsserts(g.jobs[j])
    case _ => false
  }

  // ---- What the invariant means for the members of a group

  /**
   Jobs that have left a group were told the same, once: commit then clean, or, if they left after the group was
   aborted, abort then clean, but for the spared one.
   */
  lemma MembersEndAlike(g: Group, j: nat)
    requires Inv(g) && j in g.jobs && j !in g.list
    ensures g.jobs[j].log ==
            if g.aborting && j !in g.past && g.spared != Some(j) then [Abort, Clean] else [Commit, Clean]
  {
  }

  /**
   The job that asks for finalization is committed when another one fails to prepare, although the group is aborted.
   */
  lemma SparedIsCommitted(g: Group, j: nat)
    requires Inv(g) && g.aborting && g.spared == Some(j) && j in g.jobs && j !in g.past && g.list == []
    ensures g.jobs[j].log == [Commit, Clean]
    ensures forall m :: m in g.jobs && m !in g.past && m != j ==> g.jobs[m].log == [Abort, Clean]
  {
  }

  // ---- Cancelling twice

  /** It fires exactly for a job that was never started and waits, ABORTING, for the abort of its group to reach it. */
  lemma CancelMeetsAsserts(g: Group, j: nat)
    requires Inv(g) && j in g.jobs && g.jobs[j].status != Null
    ensures CancelAsserts(g.jobs[j]) <==> !(g.jobs[j].status == Aborting && !g.jobs[j].started)
    ensures !CancelAsserts(g.jobs[j]) ==> g.aborting && j in g.list && !Accepts(g.jobs[j].status, Cancel)
  {
  }
}
