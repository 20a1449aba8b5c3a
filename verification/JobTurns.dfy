/**
 Turns of the members of a job group, one after the other: what the asserts of tools/qemu/job.c ask of the moment at
 which a job joins a group, and how the abort of a group comes to its end.
 */
module JobTurns {
  import opened Common
  import opened Job
  import opened JobGroup

  // ---- Turns

  /**
   Something a member does, its end after it has failed in a group that is being aborted, the creation of a job in the
   group (at any time: job_create does not look), and the abort going on after a wait.
   */
  datatype Turn =
    | Acts(m: nat, a: Act)
    | Fails(m: nat)
    | Joins(m: nat, autoFinalize: bool, autoDismiss: bool)
    | AbortGoesOn

  /** job_exit runs for a job that fails in a group that is being aborted. */
  predicate CanFail(g: Group, m: nat) {
    g.aborting && m in g.jobs && Exiting(g.jobs[m]) && (g.jobs[m].ret != 0 || g.jobs[m].cancelled)
  }

  /**
   The group after the turn, or the group itself if the turn is not possible.  The abort waits for the first member,
   unless somebody has joined meanwhile; then the asserts are lost anyway (LateJoinFires).
   */
  function Apply(g: Group, t: Turn): Group {
    match t
    case Acts(m, a) => if m in g.jobs && Can(g.jobs[m], a) then g.(jobs := g.jobs[m := Did(g.jobs[m], a)]) else g
    case Fails(m) => if CanFail(g, m) then g.(jobs := g.jobs[m := UpdateRc(g.jobs[m].(busy := false))]) else g
    case Joins(m, autoFinalize, autoDismiss) => if m in g.jobs then g else Joined(g, m, New(autoFinalize, autoDismiss))
    case AbortGoesOn => if g.ongoing then AbortRounds(g) else g
  }

  function After(g: Group, turns: seq<Turn>): Group
    decreases |turns|
  {
    if turns == [] then g else Apply(After(g, turns[..|turns| - 1]), turns[|turns| - 1])
  }

  lemma {:induction false} AfterNext(g: Group, turns: seq<Turn>, t: Turn)
    ensures After(g, turns + [t]) == Apply(After(g, turns), t)
  {
    assert (turns + [t])[..|turns|] == turns;
  }

  lemma {:induction false} AfterOne(g: Group, t: Turn)
    ensures After(g, [t]) == Apply(g, t)
  {
    AfterNext(g, [], t);
    assert [] + [t] == [t];
  }

  lemma Split(turns: seq<Turn>, more: seq<Turn>)
    requires more != []
    ensures turns + more == turns + more[..|more| - 1] + [more[|more| - 1]]
  {
  }

  lemma {:induction false} AfterMore(g: Group, turns: seq<Turn>, more: seq<Turn>)
    ensures After(g, turns + more) == After(After(g, turns), more)
    decreases |more|
  {
    if more == [] {
      assert turns + more == turns;
    } else {
      var k := |more| - 1;
      AfterMore(g, turns, more[..k]);
      AfterNext(g, turns + more[..k], more[k]);
      Split(turns, more);
    }
  }

  // ---- The asserts that the success of a job meets

  predicate Runs(g: Group, j: nat, m: nat) {
    m != j && m in g.jobs && !Completed(g.jobs[m].status)
  }

  /**
   The first member other than `j` that has not completed, or the end of the list: where job_completed_txn_success
   stops looking
   */
  ghost function FirstRunning(g: Group, j: nat, from: nat): (k: nat)
    requires from <= |g.list|
    ensures from <= k <= |g.list| && (k < |g.list| ==> Runs(g, j, g.list[k]))
    ensures forall i :: from <= i < k ==> !Runs(g, j, g.list[i])
    decreases |g.list| - from
  {
    if from == |g.list| || Runs(g, j, g.list[from]) then from else FirstRunning(g, j, from + 1)
  }

  /** The asserts of job_completed_txn_success when `j` has come to its end with success */
  ghost predicate SuccessAsserts(g: Group, j: nat)
    requires j in g.jobs
  {
    var stop := FirstRunning(g, j, 0);
    && Allowed(g.jobs[j].status, Waiting)
    && (forall i :: 0 <= i < stop && g.list[i] in g.jobs ==> g.jobs[g.list[i]].ret == 0)
    && (stop == |g.list| ==>
          forall i :: 0 <= i < stop && g.list[i] in g.jobs && g.list[i] != j ==>
            Allowed(g.jobs[g.list[i]].status, Pending))
  }

  /** The asserts that a round of the loop of job_completed_txn_abort meets for the first job of the list */
  predicate RoundAsserts(j: Job) {
    if Completed(j.status) then j.ret == 0 && !j.cancelled ==> Allowed(j.status, Concluded) else j.cancelled
  }

  /** `j` has come to its end with success. */
  predicate Succeeds(g: Group, j: nat) {
    j in g.jobs && Exiting(g.jobs[j]) && g.jobs[j].ret == 0 && !g.jobs[j].cancelled
  }

  /**
   If `j` has come to its end with success, the asserts that this leads to hold: at once, and, if an abort of the group
   is going on, when it finds `j`, which is then WAITING, at the head of the list.
   */
  ghost predicate MeetsAsserts(g: Group, j: nat) {
    Succeeds(g, j) ==> SuccessAsserts(g, j) && (g.ongoing ==> RoundAsserts(g.jobs[j].(status := Waiting)))
  }

  lemma AmongWaiting(g: Group, j: nat)
    requires !g.ongoing && Succeeds(g, j)
    requires forall m {:trigger g.jobs[m]} :: m in g.jobs && m in g.list && m != j && Completed(g.jobs[m].status) ==>
               g.jobs[m].status == Waiting
    ensures MeetsAsserts(g, j)
  {
    var stop := FirstRunning(g, j, 0);
    forall i | 0 <= i < stop && g.list[i] in g.jobs
      ensures g.jobs[g.list[i]].ret == 0 && (g.list[i] != j ==> Allowed(g.jobs[g.list[i]].status, Pending))
    {
      assert !Runs(g, j, g.list[i]) && g.list[i] in g.list;
    }
  }

  /** In every state of the invariant a job that has come to its end with success meets the asserts. */
  lemma EndsInTime(g: Group, j: nat)
    requires Inv(g)
    ensures MeetsAsserts(g, j)
  {
    if Succeeds(g, j) { AmongWaiting(g, j); }
  }

  // ---- In time: whatever turns follow, the asserts hold

  /** The job will not come to its end with success any more. */
  predicate Settled(j: Job) {
    j.cancelled || Completed(j.status)
  }

  /** By the time somebody could join too late, every job in the group is settled. */
  lemma LateIsSettled(g: Group, j: nat)
    requires Inv(g) && !Joinable(g) && j in g.jobs
    ensures Settled(g.jobs[j])
  {
    if !g.aborting && InGroup(g.jobs[j].status) {
      var p :| p in g.jobs && g.jobs[p].status == Pending;
      assert AllInStatus(g, Pending);
    }
  }

  lemma {:induction false} RoundsSettle(g: Group, j: nat)
    requires j in g.jobs && Settled(g.jobs[j])
    ensures j in AbortRounds(g).jobs && Settled(AbortRounds(g).jobs[j])
    decreases |g.list|
  {
    if g.list != [] && g.list[0] in g.jobs && Finalizable(g.jobs[g.list[0]]) {
      RoundsSettle(WithoutHead(g, FinalizeSingle(g.jobs[g.list[0]])), j);
    }
  }

  lemma ApplySettled(g: Group, t: Turn, j: nat)
    requires j in g.jobs && Settled(g.jobs[j])
    ensures j in Apply(g, t).jobs && Settled(Apply(g, t).jobs[j])
  {
    match t
    case Acts(m, a) => if m in g.jobs && Can(g.jobs[m], a) { assert SameStanding(g.jobs[m], Did(g.jobs[m], a)); }
    case Fails(m) => if CanFail(g, m) { assert Completed(UpdateRc(g.jobs[m].(busy := false)).status); }
    case Joins(_, _, _) =>
    case AbortGoesOn => RoundsSettle(g, j);
  }

  /** job_exit does what the turn says. */
  lemma FailsAsItSays(g: Group, m: nat, prepare: nat -> int, g': Group)
    requires CanFail(g, m) && Outcome(Idle(g, m), m, prepare, g')
    ensures g' == Apply(g, Fails(m))
  {
    var r: Job := g.jobs[m].(busy := false);
    PutTwice(g.jobs, m, r, UpdateRc(r));
  }

  lemma FailsInAbort(g: Group, m: nat)
    requires Inv(g) && CanFail(g, m)
    ensures Inv(Apply(g, Fails(m))) && Onward(g, Apply(g, Fails(m)))
  {
    var r: Job := g.jobs[m].(busy := false);
    var idle := g.(jobs := g.jobs[m := r]);
    UpdateOne(g, m, r);
    FailsAtEnd(idle, m);
    PutTwice(g.jobs, m, r, UpdateRc(r));
    OnwardTrans(g, idle, g.(jobs := g.jobs[m := UpdateRc(r)]));
  }

  lemma ApplyInv(g: Group, t: Turn)
    requires Inv(g) && (t.Joins? ==> Joinable(g))
    ensures Inv(Apply(g, t)) && Onward(g, Apply(g, t))
  {
    match t
    case Acts(m, a) => if m in g.jobs && Can(g.jobs[m], a) { UpdateOne(g, m, Did(g.jobs[m], a)); }
    case Fails(m) => if CanFail(g, m) { FailsInAbort(g, m); }
    case Joins(m, autoFinalize, autoDismiss) => if m !in g.jobs { JoinKeeps(g, m, New(autoFinalize, autoDismiss)); }
    case AbortGoesOn => if g.ongoing { AbortRoundsKeep(g); }
  }

  ghost predicate Safe(g: Group, j: nat) {
    j in g.jobs && (Inv(g) || Settled(g.jobs[j]))
  }

  lemma ApplySafe(g: Group, t: Turn, j: nat)
    requires Safe(g, j)
    ensures Safe(Apply(g, t), j)
  {
    if Settled(g.jobs[j]) {
      ApplySettled(g, t, j);
    } else {
      if !Joinable(g) { LateIsSettled(g, j); }
      ApplyInv(g, t);
    }
  }

  lemma {:induction false} AfterSafe(g: Group, turns: seq<Turn>, j: nat)
    requires Safe(g, j)
    ensures Safe(After(g, turns), j)
    decreases |turns|
  {
    if turns != [] {
      AfterSafe(g, turns[..|turns| - 1], j);
      ApplySafe(After(g, turns[..|turns| - 1]), turns[|turns| - 1], j);
    }
  }

  lemma {:induction false} TimelyMeetsAsserts(g: Group, j: nat, autoFinalize: bool, autoDismiss: bool, turns: seq<Turn>)
    requires Inv(g) && j !in g.jobs && Joinable(g)
    ensures MeetsAsserts(After(Joined(g, j, New(autoFinalize, autoDismiss)), turns), j)
  {
    var g' := Joined(g, j, New(autoFinalize, autoDismiss));
    JoinKeeps(g, j, New(autoFinalize, autoDismiss));
    AfterSafe(g', turns, j);
    if Inv(After(g', turns)) { EndsInTime(After(g', turns), j); }
  }

  // ---- Too late: some turns lead to an assert that fires

  /** A new job is started and returns. */
  function StartAndReturn(m: nat, ret: int): seq<Turn> {
    [Acts(m, Starts)] + [Acts(m, Returns(ret))]
  }

  lemma ReturnedAt(g: Group, m: nat, ret: int)
    requires m in g.jobs && InCoroutine(g.jobs[m])
    ensures Apply(g, Acts(m, Returns(ret))) == g.(jobs := g.jobs[m := Return(g.jobs[m], ret)])
  {
  }

  lemma {:induction false} Returned(g: Group, m: nat, autoFinalize: bool, autoDismiss: bool, ret: int)
    requires m in g.jobs && g.jobs[m] == New(autoFinalize, autoDismiss)
    ensures After(g, StartAndReturn(m, ret)) == g.(jobs := g.jobs[m := Return(Start(g.jobs[m]), ret)])
  {
    var started := g.(jobs := g.jobs[m := Start(g.jobs[m])]);
    AfterOne(g, Acts(m, Starts));
    AfterNext(g, [Acts(m, Starts)], Acts(m, Returns(ret)));
    assert Apply(g, Acts(m, Starts)) == started;
    ReturnedAt(started, m, ret);
    PutTwice(g.jobs, m, Start(g.jobs[m]), Return(Start(g.jobs[m]), ret));
  }

  lemma NextToPending(g: Group, j: nat, p: nat)
    requires j in g.jobs && p in g.list && p in g.jobs && p != j && g.jobs[p].status == Pending
    requires forall m {:trigger g.jobs[m]} :: m in g.jobs && m in g.list && m != j ==> Completed(g.jobs[m].status)
    ensures !SuccessAsserts(g, j)
  {
    forall i | 0 <= i < |g.list| ensures !Runs(g, j, g.list[i]) { assert g.list[i] in g.list; }
    assert FirstRunning(g, j, 0) == |g.list|;
    var i :| 0 <= i < |g.list| && g.list[i] == p;
  }

  lemma NextToFailed(g: Group, j: nat, k: nat)
    requires j in g.jobs && k in g.jobs && g.list == [k, j] && k != j && g.jobs[k].status == Aborting
    ensures !SuccessAsserts(g, j)
  {
    assert FirstRunning(g, j, 0) == 2;
    assert g.list[0] == k;
  }

  lemma LateNextToPending(g: Group, j: nat, r: Job, p: nat)
    requires Inv(g) && !g.aborting && j !in g.jobs && p in g.jobs && g.jobs[p].status == Pending
    ensures !SuccessAsserts(Joined(g, j, r), j)
  {
    var e := Joined(g, j, r);
    assert AllInStatus(g, Pending) && p in g.list && p in e.list;
    forall m | m in e.jobs && m in e.list && m != j ensures Completed(e.jobs[m].status) { assert m in g.list; }
    NextToPending(e, j, p);
  }

  lemma {:induction false} NewcomerReturns(g: Group, j: nat, autoFinalize: bool, autoDismiss: bool)
    requires j !in g.jobs
    ensures var r := Return(Start(New(autoFinalize, autoDismiss)), 0);
            After(Joined(g, j, New(autoFinalize, autoDismiss)), StartAndReturn(j, 0)) == Joined(g, j, r)
  {
    var r0, r := New(autoFinalize, autoDismiss), Return(Start(New(autoFinalize, autoDismiss)), 0);
    Returned(Joined(g, j, r0), j, autoFinalize, autoDismiss, 0);
    PutTwice(g.jobs, j, r0, r);
  }

  /** While an abort is going on, or next to a PENDING member, the success of a newcomer is enough. */
  lemma LateToAnOpenGroup(g: Group, j: nat, r: Job)
    requires Inv(g) && j !in g.jobs && !Joinable(g) && (g.aborting ==> g.list != [])
    requires Exiting(r) && r.ret == 0 && !r.cancelled
    ensures Succeeds(Joined(g, j, r), j) && !MeetsAsserts(Joined(g, j, r), j)
  {
    if !g.aborting {
      var p :| p in g.jobs && g.jobs[p].status == Pending;
      LateNextToPending(g, j, r, p);
    }
  }

  /** In a group whose abort is over, a second newcomer joins and fails before the first one succeeds. */
  function SecondFails(j: nat, k: nat): seq<Turn> {
    [Joins(k, true, true)] + StartAndReturn(k, -1) + [Fails(k)] + StartAndReturn(j, 0)
  }

  lemma NewcomerFails(g: Group, k: nat)
    requires g.aborting && k in g.jobs && g.jobs[k] == New(true, true)
    ensures var e := Apply(g.(jobs := g.jobs[k := Return(Start(g.jobs[k]), -1)]), Fails(k));
            e == g.(jobs := e.jobs) && k in e.jobs && e.jobs == g.jobs[k := e.jobs[k]] && e.jobs[k].status == Aborting
  {
    var r := Return(Start(g.jobs[k]), -1);
    var f := UpdateRc(r.(busy := false));
    PutTwice(g.jobs, k, r, f);
  }

  lemma {:induction false} SecondFailsFirst(g: Group, j: nat, k: nat, autoFinalize: bool, autoDismiss: bool)
    requires g.aborting && g.list == [] && j !in g.jobs && k !in g.jobs && j != k
    ensures var e := After(Joined(g, j, New(autoFinalize, autoDismiss)),
                           [Joins(k, true, true)] + StartAndReturn(k, -1) + [Fails(k)]);
            && e.list == [k, j] && j in e.jobs && k in e.jobs
            && e.jobs[j] == New(autoFinalize, autoDismiss) && e.jobs[k].status == Aborting
  {
    var g0 := Joined(g, j, New(autoFinalize, autoDismiss));
    var g1 := Joined(g0, k, New(true, true));
    AfterOne(g0, Joins(k, true, true));
    AfterMore(g0, [Joins(k, true, true)], StartAndReturn(k, -1));
    Returned(g1, k, true, true, -1);
    AfterNext(g0, [Joins(k, true, true)] + StartAndReturn(k, -1), Fails(k));
    NewcomerFails(g1, k);
  }

  lemma {:induction false} LateToASpentGroup(g: Group, j: nat, k: nat, autoFinalize: bool, autoDismiss: bool)
    requires g.aborting && g.list == [] && j !in g.jobs && k !in g.jobs && j != k
    ensures var e := After(Joined(g, j, New(autoFinalize, autoDismiss)), SecondFails(j, k));
            Succeeds(e, j) && !MeetsAsserts(e, j)
  {
    var g0 := Joined(g, j, New(autoFinalize, autoDismiss));
    var first := [Joins(k, true, true)] + StartAndReturn(k, -1) + [Fails(k)];
    SecondFailsFirst(g, j, k, autoFinalize, autoDismiss);
    AfterMore(g0, first, StartAndReturn(j, 0));
    Returned(After(g0, first), j, autoFinalize, autoDismiss, 0);
    NextToFailed(After(g0, SecondFails(j, k)), j, k);
  }

  /** There is always another number. */
  lemma {:induction false} Unused(s: set<nat>) returns (k: nat)
    ensures k !in s && forall x :: x in s ==> x < k
    decreases |s|
  {
    if s == {} { return 0; }
    var x :| x in s;
    k := Unused(s - {x});
    assert s == s - {x} + {x};
    if k <= x { k := x + 1; }
  }

  /**
   A job that joins too late can end with an assert that fires: next to a PENDING member, during an abort, or after
   one.
   */
  lemma {:induction false} LateJoinFires(g: Group, j: nat, autoFinalize: bool,
                                         autoDismiss: bool) returns (turns: seq<Turn>)
    requires Inv(g) && j !in g.jobs && !Joinable(g)
    ensures var e := After(Joined(g, j, New(autoFinalize, autoDismiss)), turns); Succeeds(e, j) && !MeetsAsserts(e, j)
  {
    if g.aborting && g.list == [] {
      var k := Unused(g.jobs.Keys + {j});
      LateToASpentGroup(g, j, k, autoFinalize, autoDismiss);
      turns := SecondFails(j, k);
    } else {
      NewcomerReturns(g, j, autoFinalize, autoDismiss);
      LateToAnOpenGroup(g, j, Return(Start(New(autoFinalize, autoDismiss)), 0));
      turns := StartAndReturn(j, 0);
    }
  }

  /**
   Whatever turns follow, also of jobs that join later, the asserts hold for a newcomer exactly if the group was not
   aborting and had no PENDING member when it joined.
   */
  lemma {:induction false} JoinInTime(g: Group, j: nat, autoFinalize: bool, autoDismiss: bool)
    requires Inv(g) && j !in g.jobs
    ensures (forall turns :: MeetsAsserts(After(Joined(g, j, New(autoFinalize, autoDismiss)), turns), j)) <==>
            Joinable(g)
  {
    if Joinable(g) {
      forall turns ensures MeetsAsserts(After(Joined(g, j, New(autoFinalize, autoDismiss)), turns), j) {
        TimelyMeetsAsserts(g, j, autoFinalize, autoDismiss, turns);
      }
    } else {
      var turns := LateJoinFires(g, j, autoFinalize, autoDismiss);
    }
  }

  // ---- Groups whose abort is over

  /** The abort of the group is over, and `j` has joined it since. */
  predicate Spent(g: Group, j: nat) {
    g.aborting && !g.ongoing && j in g.list && j in g.jobs
  }

  lemma ApplyStaysSpent(g: Group, t: Turn, j: nat)
    requires Spent(g, j)
    ensures Spent(Apply(g, t), j) && (g.jobs[j].status == Aborting ==> Apply(g, t).jobs[j].status == Aborting)
  {
    match t
    case Acts(m, a) => if m in g.jobs && Can(g.jobs[m], a) { assert SameStanding(g.jobs[m], Did(g.jobs[m], a)); }
    case Fails(_) =>
    case Joins(_, _, _) =>
    case AbortGoesOn =>
  }

  lemma {:induction false} StaysSpent(g: Group, turns: seq<Turn>, j: nat)
    requires Spent(g, j)
    ensures Spent(After(g, turns), j)
    ensures g.jobs[j].status == Aborting ==> After(g, turns).jobs[j].status == Aborting
    decreases |turns|
  {
    if turns != [] {
      StaysSpent(g, turns[..|turns| - 1], j);
      ApplyStaysSpent(After(g, turns[..|turns| - 1]), turns[|turns| - 1], j);
    }
  }

  /**
   A newcomer that fails in a group whose abort is over stays in the list, ABORTING: nobody is left to tell its driver.
   */
  lemma {:induction false} SpentGroupForgets(g: Group, j: nat, r: Job, turns: seq<Turn>, more: seq<Turn>)
    requires Inv(g) && g.aborting && g.list == [] && j !in g.jobs
    requires CanFail(After(Joined(g, j, r), turns), j)
    ensures var e := After(Apply(After(Joined(g, j, r), turns), Fails(j)), more);
            j in e.list && j in e.jobs && e.jobs[j].status == Aborting && e.jobs[j].log == []
  {
    StaysSpent(Joined(g, j, r), turns, j);
    StaysSpent(Apply(After(Joined(g, j, r), turns), Fails(j)), more, j);
  }

  // ---- Every abort can come to its end

  /** A turn of a member that is on its way out, or of the abort itself */
  predicate Finishing(t: Turn) {
    (t.Acts? && (t.a.Starts? || t.a.Enters? || t.a.GoesOn? || t.a.Returns?)) || t.Fails? || t.AbortGoesOn?
  }

  predicate AllFinishing(turns: seq<Turn>) {
    forall t :: t in turns ==> Finishing(t)
  }

  lemma {:induction false} AfterInv(g: Group, turns: seq<Turn>)
    requires Inv(g) && AllFinishing(turns)
    ensures Inv(After(g, turns)) && Onward(g, After(g, turns))
    decreases |turns|
  {
    if turns != [] {
      var k := |turns| - 1;
      AfterInv(g, turns[..k]);
      assert turns[k] in turns;
      ApplyInv(After(g, turns[..k]), turns[k]);
      OnwardTrans(g, After(g, turns[..k]), After(g, turns));
    }
  }

  predicate NobodyStarts(turns: seq<Turn>) {
    forall t :: t in turns ==> !(t.Acts? && t.a.Starts?)
  }

  /** The turns bring the first member further on its way out, and concern nobody else. */
  ghost predicate OnTheWay(g: Group, turns: seq<Turn>, h: nat) {
    var e := After(g, turns);
    && AllFinishing(turns) && e == g.(jobs := e.jobs) && h in g.jobs && h in e.jobs
    && e.jobs == g.jobs[h := e.jobs[h]] && e.jobs[h].cancelled
    && (g.jobs[h].started ==> NobodyStarts(turns) && e.jobs[h].started)
  }

  lemma {:induction false} Push(g: Group, turns: seq<Turn>, h: nat, a: Act)
    requires OnTheWay(g, turns, h) && Can(After(g, turns).jobs[h], a) && Finishing(Acts(h, a))
    requires (a.Starts? ==> !g.jobs[h].started)
    ensures OnTheWay(g, turns + [Acts(h, a)], h)
    ensures After(g, turns + [Acts(h, a)]).jobs[h] == Did(After(g, turns).jobs[h], a)
  {
    AfterNext(g, turns, Acts(h, a));
    var e := After(g, turns);
    assert e.jobs[h := Did(e.jobs[h], a)] == g.jobs[h := Did(e.jobs[h], a)];
  }

  /** A job that is started and cancelled comes to its end when it is entered and returns. */
  lemma {:induction false} ComesToItsEnd(g: Group, turns: seq<Turn>, h: nat) returns (more: seq<Turn>)
    requires OnTheWay(g, turns, h) && After(g, turns).jobs[h].started && !Completed(After(g, turns).jobs[h].status)
    ensures OnTheWay(g, more, h) && Exiting(After(g, more).jobs[h])
  {
    more := turns;
    if !After(g, turns).jobs[h].deferred {
      Push(g, more, h, Enters);
      more := more + [Acts(h, Enters)];
      if After(g, more).jobs[h].paused {
        Push(g, more, h, GoesOn);
        more := more + [Acts(h, GoesOn)];
      }
      Push(g, more, h, Returns(0));
      more := more + [Acts(h, Returns(0))];
    }
  }

  /** After the turns `h` has completed; the list is the same. */
  ghost predicate HasCompleted(g: Group, turns: seq<Turn>, h: nat)
    requires h in g.jobs
  {
    var e := After(g, turns);
    && AllFinishing(turns) && (g.jobs[h].started ==> NobodyStarts(turns))
    && e == g.(jobs := e.jobs) && h in e.jobs && Completed(e.jobs[h].status)
  }

  /** The first member of a group that is being aborted can complete. */
  lemma HeadCompletes(g: Group) returns (turns: seq<Turn>)
    requires Inv(g) && g.ongoing
    ensures g.list[0] in g.jobs && HasCompleted(g, turns, g.list[0])
  {
    HeadIsThere(g);
    var h := g.list[0];
    assert h in g.list;
    turns := [];
    if Completed(g.jobs[h].status) { return; }
    assert OnTheWay(g, [], h) by { assert g.jobs[h := g.jobs[h]] == g.jobs; }
    if g.jobs[h].status == Created {
      Push(g, [], h, Starts);
      turns := [] + [Acts(h, Starts)];
    }
    turns := ComesToItsEnd(g, turns, h);
    AfterNext(g, turns, Fails(h));
    turns := turns + [Fails(h)];
  }

  /** After a wait the abort finalizes the member it has waited for, and perhaps more. */
  lemma {:induction false} RoundsShrink(g: Group)
    requires Inv(g) && g.ongoing && g.list[0] in g.jobs && Completed(g.jobs[g.list[0]].status)
    ensures |AbortRounds(g).list| < |g.list| && IsRest(g.list, AbortRounds(g).list)
  {
    DyingHead(g);
    AbortRoundsLeave(g);
    AbortRoundsLeave(WithoutHead(g, FinalizeSingle(g.jobs[g.list[0]])));
  }

  lemma {:induction false} RoundsKeepStarted(g: Group, m: nat)
    requires m in g.jobs && g.jobs[m].started
    ensures m in AbortRounds(g).jobs && AbortRounds(g).jobs[m].started
    decreases |g.list|
  {
    if g.list != [] && g.list[0] in g.jobs && Finalizable(g.jobs[g.list[0]]) {
      RoundsKeepStarted(WithoutHead(g, FinalizeSingle(g.jobs[g.list[0]])), m);
    }
  }

  lemma StartsOnce(j: Job, a: Act)
    requires Can(j, a)
    ensures j.started ==> Did(j, a).started
  {
  }

  lemma ApplyKeepsStarted(g: Group, t: Turn, m: nat)
    requires m in g.jobs && g.jobs[m].started
    ensures m in Apply(g, t).jobs && Apply(g, t).jobs[m].started
  {
    match t
    case Acts(m', a) => if m' in g.jobs && Can(g.jobs[m'], a) { StartsOnce(g.jobs[m'], a); }
    case Fails(_) =>
    case Joins(_, _, _) =>
    case AbortGoesOn => RoundsKeepStarted(g, m);
  }

  lemma {:induction false} StartedStays(g: Group, turns: seq<Turn>, m: nat)
    requires m in g.jobs && g.jobs[m].started
    ensures m in After(g, turns).jobs && After(g, turns).jobs[m].started
    decreases |turns|
  {
    if turns != [] {
      StartedStays(g, turns[..|turns| - 1], m);
      ApplyKeepsStarted(After(g, turns[..|turns| - 1]), turns[|turns| - 1], m);
    }
  }

  ghost predicate AllStarted(g: Group) {
    forall m :: m in g.list ==> m in g.jobs && g.jobs[m].started
  }

  /** The turns take the abort of the group further; jobs are started only if one of the members has never been. */
  ghost predicate TakesFurther(g: Group, turns: seq<Turn>, g': Group) {
    && g' == After(g, turns) && AllFinishing(turns) && (AllStarted(g) ==> NobodyStarts(turns))
    && Inv(g') && Onward(g, g') && IsRest(g.list, g'.list)
  }

  lemma {:induction false} FurtherStarted(g: Group, turns: seq<Turn>)
    requires AllStarted(g) && IsRest(g.list, After(g, turns).list)
    ensures AllStarted(After(g, turns))
  {
    forall m | m in After(g, turns).list ensures m in After(g, turns).jobs && After(g, turns).jobs[m].started {
      assert m in g.list;
      StartedStays(g, turns, m);
    }
  }

  lemma RestOfRest(list: seq<nat>, list': seq<nat>, list'': seq<nat>)
    requires IsRest(list, list') && IsRest(list', list'')
    ensures IsRest(list, list'')
  {
    var k := |list| - |list'|;
    assert list[k..][|list'| - |list''|..] == list[|list| - |list''|..];
  }

  lemma FurtherTrans(g: Group, turns: seq<Turn>, g': Group, more: seq<Turn>, g'': Group)
    requires TakesFurther(g, turns, g') && TakesFurther(g', more, g'')
    ensures TakesFurther(g, turns + more, g'')
  {
    AfterMore(g, turns, more);
    OnwardTrans(g, g', g'');
    if AllStarted(g) { FurtherStarted(g, turns); }
    RestOfRest(g.list, g'.list, g''.list);
  }

  lemma {:induction false} CompletesFurther(g: Group, turns: seq<Turn>, h: nat)
    requires Inv(g) && h in g.list && h in g.jobs && HasCompleted(g, turns, h)
    ensures TakesFurther(g, turns, After(g, turns))
  {
    AfterInv(g, turns);
  }

  lemma {:induction false} AfterGoingOn(g: Group)
    requires g.ongoing
    ensures After(g, [AbortGoesOn]) == AbortRounds(g)
  {
    AfterOne(g, AbortGoesOn);
  }

  lemma GoingOnIsFinishing()
    ensures AllFinishing([AbortGoesOn]) && NobodyStarts([AbortGoesOn])
  {
  }

  lemma {:induction false} GoesOnFurther(g: Group)
    requires Inv(g) && g.ongoing && g.list[0] in g.jobs && Completed(g.jobs[g.list[0]].status)
    ensures TakesFurther(g, [AbortGoesOn], AbortRounds(g)) && |AbortRounds(g).list| < |g.list|
  {
    AfterGoingOn(g);
    GoingOnIsFinishing();
    AbortRoundsKeep(g);
    RoundsShrink(g);
  }

  /** Some turns take the member that the abort waits for out of the group. */
  lemma OneLeaves(g: Group) returns (turns: seq<Turn>, g': Group)
    requires Inv(g) && g.ongoing
    ensures TakesFurther(g, turns, g') && |g'.list| < |g.list|
  {
    turns := HeadCompletes(g);
    assert g.list[0] in g.list;
    CompletesFurther(g, turns, g.list[0]);
    var e := After(g, turns);
    GoesOnFurther(e);
    FurtherTrans(g, turns, e, [AbortGoesOn], AbortRounds(e));
    turns, g' := turns + [AbortGoesOn], AbortRounds(e);
  }

  lemma {:induction false} ListCanEmpty(g: Group) returns (turns: seq<Turn>, g': Group)
    requires Inv(g) && g.aborting
    ensures TakesFurther(g, turns, g') && g'.list == []
    decreases |g.list|
  {
    if g.list == [] { return [], g; }
    var first, mid := OneLeaves(g);
    var rest;
    rest, g' := ListCanEmpty(mid);
    FurtherTrans(g, first, mid, rest, g');
    turns := first + rest;
  }

  lemma ToldAbort(g: Group, g': Group, m: nat)
    requires Inv(g) && g.aborting && m in g.list && Inv(g') && Onward(g, g') && g'.list == []
    ensures m in g'.jobs && g'.jobs[m].log == [Abort, Clean]
  {
    NotForgotten(g, g', m);
    assert InGroup(g.jobs[m].status);
    MembersEndAlike(g', m);
  }

  /**
   From every state of a group that is being aborted some turns of its members empty the list, and each member is then
   told abort and clean.  If every member was started, entering the jobs and their returning is enough.
   */
  lemma {:induction false} AbortCanFinish(g: Group) returns (turns: seq<Turn>)
    requires Inv(g) && g.aborting
    ensures AllFinishing(turns) && (AllStarted(g) ==> NobodyStarts(turns)) && After(g, turns).list == []
    ensures forall m :: m in g.list ==> m in After(g, turns).jobs && After(g, turns).jobs[m].log == [Abort, Clean]
  {
    var g';
    turns, g' := ListCanEmpty(g);
    forall m | m in g.list ensures m in g'.jobs && g'.jobs[m].log == [Abort, Clean] { ToldAbort(g, g', m); }
  }
}
