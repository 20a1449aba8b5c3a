/**
 Progress of the exclusive-section protocol of tools/qemu/cpus-common.c.  When no thread calls in any more and no
 thread wakes up spuriously, every schedule of the threads that are inside comes to an end, and on every schedule each
 of the four functions returns.
 */
module ExclusiveProgress {
  import opened Common
  import opened ExclusiveSection

  // ---- Calls and returns

  datatype Call = NoCall | CpuExecStart | CpuExecEnd | StartExclusive | EndExclusive

  /** The function that a thread is in the middle of */
  function CallAt(pc: PC): Call {
    match pc
    case StartRead | StartLock | StartCheck | StartIdle | StartSleep(_) | StartUnlock => CpuExecStart
    case EndRead | EndLock | EndCheck | EndUnlock => CpuExecEnd
    case ExclLock | ExclIdle | ExclIdleSleep(_) | ExclScan(_,
                                                           _) | ExclWait | ExclSleep(_) | ExclUnlock => StartExclusive
    case FinishLock | FinishClear | FinishUnlock => EndExclusive
    case Outside | Exec | Inside => NoCall
  }

  /** Where a thread is when the function has returned */
  function ReturnOf(call: Call): PC {
    match call
    case CpuExecStart => Exec
    case StartExclusive => Inside
    case NoCall | CpuExecEnd | EndExclusive => Outside
  }

  /** A step of thread `j` that is neither a call from outside nor a spurious wake-up */
  ghost predicate MoveOf(s: State, s': State, j: nat) {
    j < |s.pc| && !s.pc[j].Outside? && !Asleep(s.pc[j]) && ThreadStep(s, s', j)
  }

  ghost predicate Move(s: State, s': State) {
    exists j :: MoveOf(s, s', j)
  }

  /** A schedule of the threads that are inside already */
  ghost predicate IsSchedule(run: seq<State>) {
    |run| > 0 && forall k :: 0 <= k < |run| - 1 ==> Move(run[k], run[k + 1])
  }

  /** Wake-ups leave the sleeper where it sleeps; nobody else moves it. */
  lemma OthersStay(s: State, s': State, j: nat, i: nat)
    requires MoveOf(s, s', j) && i < |s.pc| && i != j
    ensures |s'.pc| == |s.pc| && CallAt(s'.pc[i]) == CallAt(s.pc[i])
    ensures s'.pc[i] != s.pc[i] ==> Asleep(s.pc[i])
  {
    if StartStep(s, s', j) || ExclStep(s, s', j) || FinishStep(s, s', j) { return; }
    if s.pc[j].EndCheck? && j in s.hasWaiter {
      var mid := s.pc[j := EndUnlock];
      assert mid[i] == s.pc[i];
    }
  }

  lemma OwnStepGoesOn(s: State, s': State, i: nat)
    requires MoveOf(s, s', i) && CallAt(s.pc[i]) != NoCall
    ensures |s'.pc| == |s.pc|
    ensures CallAt(s'.pc[i]) == CallAt(s.pc[i]) || s'.pc[i] == ReturnOf(CallAt(s.pc[i]))
  {
    match CallAt(s.pc[i])
    case CpuExecStart => assert StartStep(s, s', i);
    case CpuExecEnd => assert EndStep(s, s', i);
    case StartExclusive => assert ExclStep(s, s', i);
    case EndExclusive => assert FinishStep(s, s', i);
  }

  /** A thread stays in the function it is in until it returns. */
  lemma StaysInCall(s: State, s': State, i: nat)
    requires Move(s, s') && i < |s.pc| && CallAt(s.pc[i]) != NoCall
    ensures |s'.pc| == |s.pc|
    ensures CallAt(s'.pc[i]) == CallAt(s.pc[i]) || s'.pc[i] == ReturnOf(CallAt(s.pc[i]))
  {
    var j :| MoveOf(s, s', j);
    if i == j { OwnStepGoesOn(s, s', i); } else { OthersStay(s, s', j, i); }
  }

  // ---- How much there is left to do

  /**
   The steps a thread has before it, by its place among `n` threads.  The last counted CPU pays two steps for the
   initiator that it wakes; the end of a session pays two for everybody it wakes, who may find that the next session
   is open and go to sleep again.
   */
  function Rank(pc: PC, n: nat): nat {
    match pc
    case Outside => 0
    case EndUnlock => 1
    case EndCheck => 4
    case EndLock => 5
    case EndRead => 6
    case Exec => 7
    case StartUnlock => 8
    case StartSleep(woken) => if woken then 11 else 9
    case StartIdle => 10
    case StartCheck => 11
    case StartLock => 12
    case StartRead => 13
    case FinishUnlock => 1
    case FinishClear => 2 * n + 2
    case FinishLock => 2 * n + 3
    case Inside => 2 * n + 4
    case ExclUnlock => 2 * n + 5
    case ExclSleep(signalled) => if signalled then 2 * n + 8 else 2 * n + 6
    case ExclWait => 2 * n + 7
    case ExclScan(next, _) => 2 * n + 8 + (if next <= n then n - next else 0)
    case ExclIdleSleep(woken) => if woken then 3 * n + 11 else 3 * n + 9
    case ExclIdle => 3 * n + 10
    case ExclLock => 3 * n + 11
  }

  function Ranks(pcs: seq<PC>, n: nat): nat {
    if |pcs| == 0 then 0 else Ranks(pcs[..|pcs| - 1], n) + Rank(pcs[|pcs| - 1], n)
  }

  function Work(s: State): nat {
    Ranks(s.pc, |s.pc|)
  }

  lemma {:induction false} RanksUpdate(pcs: seq<PC>, i: nat, pc: PC, n: nat)
    requires i < |pcs|
    ensures Ranks(pcs[i := pc], n) == Ranks(pcs, n) - Rank(pcs[i], n) + Rank(pc, n)
  {
    var last := |pcs| - 1;
    if i < last {
      RanksUpdate(pcs[..last], i, pc, n);
      assert pcs[i := pc][..last] == pcs[..last][i := pc];
    } else {
      assert pcs[i := pc][..last] == pcs[..last];
    }
  }

  /** A broadcast costs at most two steps for each thread. */
  lemma {:induction false} WakeUps(pcs: seq<PC>, pcs': seq<PC>, n: nat)
    requires |pcs'| == |pcs| && forall k :: 0 <= k < |pcs| ==> pcs'[k] == pcs[k] || pcs'[k] == Broadcast(pcs[k])
    ensures Ranks(pcs', n) <= Ranks(pcs, n) + 2 * |pcs|
  {
    if |pcs| > 0 {
      var last := |pcs| - 1;
      WakeUps(pcs[..last], pcs'[..last], n);
      assert pcs'[last] == pcs[last] || pcs'[last] == Broadcast(pcs[last]);
    }
  }

  lemma {:induction false} RanksBound(pcs: seq<PC>, n: nat)
    ensures Ranks(pcs, n) <= |pcs| * (3 * n + 13)
  {
    if |pcs| > 0 {
      var last := |pcs| - 1;
      RanksBound(pcs[..last], n);
      assert last * (3 * n + 13) + (3 * n + 13) == |pcs| * (3 * n + 13);
    }
  }

  // ---- Every step leaves less to do

  lemma OwnStepLowers(s: State, s': State, j: nat)
    requires j < |s.pc| && |s'.pc| == |s.pc| && s'.pc == s.pc[j := s'.pc[j]]
    requires Rank(s'.pc[j], |s.pc|) < Rank(s.pc[j], |s.pc|)
    ensures Work(s') < Work(s)
  {
    RanksUpdate(s.pc, j, s'.pc[j], |s.pc|);
  }

  lemma StartLowers(s: State, s': State, j: nat)
    requires MoveOf(s, s', j) && StartStep(s, s', j)
    ensures Work(s') < Work(s)
  {
    OwnStepLowers(s, s', j);
  }

  lemma ExclLowers(s: State, s': State, j: nat)
    requires MoveOf(s, s', j) && ExclStep(s, s', j)
    ensures Work(s') < Work(s)
  {
    OwnStepLowers(s, s', j);
  }

  lemma EndLowers(s: State, s': State, j: nat)
    requires MoveOf(s, s', j) && EndStep(s, s', j)
    ensures Work(s') < Work(s)
  {
    var n := |s.pc|;
    if s.pc[j].EndCheck? && j in s.hasWaiter && s'.pending == 1 {
      var mid := s.pc[j := EndUnlock];
      RanksUpdate(s.pc, j, EndUnlock, n);
      if s'.pc != mid {
        var k :| 0 <= k < n && mid[k] == ExclSleep(false) && s'.pc == mid[k := ExclSleep(true)];
        RanksUpdate(mid, k, ExclSleep(true), n);
      }
    } else {
      OwnStepLowers(s, s', j);
    }
  }

  lemma FinishLowers(s: State, s': State, j: nat)
    requires MoveOf(s, s', j) && FinishStep(s, s', j)
    ensures Work(s') < Work(s)
  {
    var n := |s.pc|;
    if s.pc[j].FinishClear? {
      var mid := s.pc[j := FinishUnlock];
      RanksUpdate(s.pc, j, FinishUnlock, n);
      WakeUps(mid, s'.pc, n);
    } else {
      OwnStepLowers(s, s', j);
    }
  }

  lemma MoveLowers(s: State, s': State)
    requires Move(s, s')
    ensures |s'.pc| == |s.pc| && Work(s') < Work(s)
  {
    var j :| MoveOf(s, s', j);
    if StartStep(s, s', j) {
      StartLowers(s, s', j);
    } else if EndStep(s, s', j) {
      EndLowers(s, s', j);
    } else if ExclStep(s, s', j) {
      ExclLowers(s, s', j);
    } else {
      FinishLowers(s, s', j);
    }
  }

  // ---- Main results

  lemma {:induction false} ScheduleLowers(run: seq<State>)
    requires IsSchedule(run)
    ensures |run[|run| - 1].pc| == |run[0].pc| && |run| - 1 + Work(run[|run| - 1]) <= Work(run[0])
  {
    var last := |run| - 1;
    if last > 0 {
      ScheduleLowers(run[..last]);
      assert Move(run[last - 1], run[last - 1 + 1]);
      MoveLowers(run[last - 1], run[last]);
    }
  }

  /** No schedule goes on for ever, from any state. */
  lemma SchedulesAreBounded(run: seq<State>)
    requires IsSchedule(run)
    ensures |run| - 1 <= |run[0].pc| * (3 * |run[0].pc| + 13)
  {
    ScheduleLowers(run);
    RanksBound(run[0].pc, |run[0].pc|);
  }

  lemma {:induction false} ScheduleKeepsInv(run: seq<State>)
    requires IsSchedule(run) && Inv(run[0])
    ensures Inv(run[|run| - 1])
  {
    var last := |run| - 1;
    if last > 0 {
      ScheduleKeepsInv(run[..last]);
      assert Move(run[last - 1], run[last - 1 + 1]);
      NextKeepsInv(run[last - 1], run[last]);
    }
  }

  ghost predicate IsOver(s: State) {
    forall j :: !CanStep(s, j)
  }

  /** A schedule after which nobody can go on */
  ghost predicate IsComplete(run: seq<State>) {
    IsSchedule(run) && IsOver(run[|run| - 1])
  }

  lemma CompleteEndsOutside(run: seq<State>, i: nat)
    requires IsComplete(run) && Inv(run[0]) && i < |run[0].pc|
    ensures i < |run[|run| - 1].pc| && run[|run| - 1].pc[i].Outside?
  {
    ScheduleKeepsInv(run);
    ScheduleLowers(run);
    if !run[|run| - 1].pc[i].Outside? { SomeoneCanStep(run[|run| - 1], i); }
  }

  /** A thread that has left the function has been where it returns. */
  lemma {:induction false} PassesReturn(run: seq<State>, i: nat) returns (k: nat)
    requires IsSchedule(run) && i < |run[0].pc| == |run[|run| - 1].pc|
    requires CallAt(run[0].pc[i]) != NoCall && CallAt(run[|run| - 1].pc[i]) == NoCall
    ensures k < |run| && i < |run[k].pc| && run[k].pc[i] == ReturnOf(CallAt(run[0].pc[i]))
  {
    assert Move(run[0], run[0 + 1]);
    StaysInCall(run[0], run[1], i);
    if run[1].pc[i] == ReturnOf(CallAt(run[0].pc[i])) {
      k := 1;
    } else {
      k := PassesReturn(run[1..], i);
      k := k + 1;
    }
  }

  /**
   From every reachable state, on every schedule of the threads that are inside, whoever is in the middle of
   cpu_exec_start comes to execute guest code, whoever is in start_exclusive comes to be inside the exclusive section,
   and whoever is in cpu_exec_end or end_exclusive comes out.
   */
  lemma EveryCallReturns(past: seq<State>, run: seq<State>, i: nat) returns (k: nat)
    requires IsRun(past) && IsComplete(run) && run[0] == past[|past| - 1]
    requires i < |run[0].pc| && CallAt(run[0].pc[i]) != NoCall
    ensures k < |run| && i < |run[k].pc| && run[k].pc[i] == ReturnOf(CallAt(run[0].pc[i]))
  {
    RunInv(past, |past| - 1);
    CompleteEndsOutside(run, i);
    ScheduleLowers(run);
    k := PassesReturn(run, i);
  }

  /** There is such a schedule, from every state. */
  lemma {:induction false} ScheduleExists(s: State) returns (run: seq<State>)
    ensures IsComplete(run) && run[0] == s
    decreases Work(s)
  {
    run := [s];
    if j :| CanStep(s, j) {
      var s' :| ThreadStep(s, s', j);
      assert MoveOf(s, s', j);
      MoveLowers(s, s');
      var rest := ScheduleExists(s');
      run := [s] + rest;
      forall k | 0 <= k < |run| - 1 ensures Move(run[k], run[k + 1]) {
        if k > 0 { assert Move(rest[k - 1], rest[k - 1 + 1]); }
      }
    }
  }

  /** In particular some steps of the threads that are inside make the function return. */
  lemma EveryCallCanReturn(past: seq<State>, i: nat) returns (run: seq<State>)
    requires IsRun(past) && i < |past[|past| - 1].pc| && CallAt(past[|past| - 1].pc[i]) != NoCall
    ensures IsSchedule(run) && run[0] == past[|past| - 1] && i < |run[|run| - 1].pc|
    ensures run[|run| - 1].pc[i] == ReturnOf(CallAt(run[0].pc[i]))
  {
    var whole := ScheduleExists(past[|past| - 1]);
    var k := EveryCallReturns(past, whole, i);
    run := whole[..k + 1];
  }
}
