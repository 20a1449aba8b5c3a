/**
 The exclusive-section protocol of tools/qemu/cpus-common.c: CPU threads that execute guest code
 between cpu_exec_start and cpu_exec_end, and threads that stop all of them with
 start_exclusive/end_exclusive.

 The protocol is a state machine.  Every access to shared memory outside qemu_cpu_list_lock is a
 step of its own, and so is every read of another CPU's `running` flag in the scan of
 start_exclusive, which races with writes made outside the lock.
 */
module ExclusiveSection {
  import opened Common

  /** Where a thread stands.  Comments give the statement the thread executes next. */
  datatype PC =
    | Outside
    // cpu_exec_start
    | StartRead                     // read pending_cpus
    | StartLock                     // take the lock
    | StartCheck                    // test has_waiter
    | StartIdle                     // exclusive_idle: test pending_cpus
    | StartSleep(woken: bool)       // asleep on exclusive_resume
    | StartUnlock                   // release the lock and return
    | Exec                          // cpu_exec_start has returned
    // cpu_exec_end
    | EndRead                       // read pending_cpus
    | EndLock                       // take the lock
    | EndCheck                      // test has_waiter
    | EndUnlock                     // release the lock and return
    // start_exclusive
    | ExclLock                      // take the lock
    | ExclIdle                      // exclusive_idle: test pending_cpus
    | ExclIdleSleep(woken: bool)    // asleep on exclusive_resume
    | ExclScan(next: nat, count: nat) // read running of CPU `next`
    | ExclWait                      // test pending_cpus > 1
    | ExclSleep(signalled: bool)    // asleep on exclusive_cond
    | ExclUnlock                    // release the lock and return
    | Inside                        // start_exclusive has returned
    // end_exclusive
    | FinishLock                    // take the lock
    | FinishClear                   // write pending_cpus = 0 and broadcast
    | FinishUnlock                  // release the lock and return

  /** `running` and `hasWaiter` hold the CPUs whose flag is set. */
  datatype State = State(pc: seq<PC>, running: set<nat>, hasWaiter: set<nat>, pending: int, lock: Option<nat>)

  /** qemu_cond_broadcast(&exclusive_resume) */
  function Broadcast(pc: PC): PC {
    match pc
    case StartSleep(_) => StartSleep(true)
    case ExclIdleSleep(_) => ExclIdleSleep(true)
    case _ => pc
  }

  /** qemu_cond_signal(&exclusive_cond): wakes one sleeper, if there is one. */
  ghost predicate SignalOne(pcs: seq<PC>, pcs': seq<PC>) {
    if exists k :: 0 <= k < |pcs| && pcs[k] == ExclSleep(false)
    then exists k :: 0 <= k < |pcs| && pcs[k] == ExclSleep(false) && pcs' == pcs[k := ExclSleep(true)]
    else pcs' == pcs
  }

  ghost predicate Goto(s: State, s': State, i: nat, pc: PC)
    requires i < |s.pc|
  {
    s' == s.(pc := s.pc[i := pc])
  }

  ghost predicate Acquire(s: State, s': State, i: nat, pc: PC)
    requires i < |s.pc|
  {
    s.lock == None && s' == s.(lock := Some(i), pc := s.pc[i := pc])
  }

  ghost predicate Release(s: State, s': State, i: nat, pc: PC)
    requires i < |s.pc|
  {
    s' == s.(lock := None, pc := s.pc[i := pc])
  }

  /** cpu_exec_start, from the call to the return */
  ghost predicate StartStep(s: State, s': State, i: nat)
    requires i < |s.pc|
  {
    match s.pc[i]
    case Outside => s' == s.(running := s.running + {i}, pc := s.pc[i := StartRead])
    case StartRead => Goto(s, s', i, if s.pending != 0 then StartLock else Exec)
    case StartLock => Acquire(s, s', i, StartCheck)
    case StartCheck =>
      if i in s.hasWaiter then Goto(s, s', i, StartUnlock)
      else s' == s.(running := s.running - {i}, pc := s.pc[i := StartIdle])
    case StartIdle =>
      if s.pending != 0 then Release(s, s', i, StartSleep(false))
      else s' == s.(running := s.running + {i}, pc := s.pc[i := StartUnlock])
    case StartSleep(_) => Acquire(s, s', i, StartIdle)
    case StartUnlock => Release(s, s', i, Exec)
    case _ => false
  }

  /** cpu_exec_end, from the call to the return */
  ghost predicate EndStep(s: State, s': State, i: nat)
    requires i < |s.pc|
  {
    match s.pc[i]
    case Exec => s' == s.(running := s.running - {i}, pc := s.pc[i := EndRead])
    case EndRead => Goto(s, s', i, if s.pending != 0 then EndLock else Outside)
    case EndLock => Acquire(s, s', i, EndCheck)
    case EndCheck =>
      if i in s.hasWaiter then
        && s'.running == s.running && s'.lock == s.lock
        && s'.hasWaiter == s.hasWaiter - {i}
        && s'.pending == s.pending - 1
        && (if s'.pending == 1 then SignalOne(s.pc[i := EndUnlock], s'.pc) else s'.pc == s.pc[i := EndUnlock])
      else Goto(s, s', i, EndUnlock)
    case EndUnlock => Release(s, s', i, Outside)
    case _ => false
  }

  /** start_exclusive, from the call to the return */
  ghost predicate ExclStep(s: State, s': State, i: nat)
    requires i < |s.pc|
  {
    match s.pc[i]
    case Outside => Goto(s, s', i, ExclLock)
    case ExclLock => Acquire(s, s', i, ExclIdle)
    case ExclIdle =>
      if s.pending != 0 then Release(s, s', i, ExclIdleSleep(false))
      else s' == s.(pending := 1, pc := s.pc[i := ExclScan(0, 0)])
    case ExclIdleSleep(_) => Acquire(s, s', i, ExclIdle)
    case ExclScan(next, count) =>
      if next < |s.pc| then
        if next in s.running then
          s' == s.(hasWaiter := s.hasWaiter + {next}, pc := s.pc[i := ExclScan(next + 1, count + 1)])
        else Goto(s, s', i, ExclScan(next + 1, count))
      else s' == s.(pending := count + 1, pc := s.pc[i := ExclWait])
    case ExclWait =>
      if s.pending > 1 then Release(s, s', i, ExclSleep(false)) else Goto(s, s', i, ExclUnlock)
    case ExclSleep(_) => Acquire(s, s', i, ExclWait)
    case ExclUnlock => Release(s, s', i, Inside)
    case _ => false
  }

  /** end_exclusive, from the call to the return */
  ghost predicate FinishStep(s: State, s': State, i: nat)
    requires i < |s.pc|
  {
    match s.pc[i]
    case Inside => Goto(s, s', i, FinishLock)
    case FinishLock => Acquire(s, s', i, FinishClear)
    case FinishClear =>
      s' == s.(pending := 0,
               pc := seq(|s.pc|, j requires 0 <= j < |s.pc| => if j == i then FinishUnlock else Broadcast(s.pc[j])))
    case FinishUnlock => Release(s, s', i, Outside)
    case _ => false
  }

  /** cpu_list_add: takes the lock, appends the CPU to the list and releases the lock. */
  ghost predicate AddCpu(s: State, s': State) {
    s.lock == None && s' == s.(pc := s.pc + [Outside])
  }

  ghost predicate ThreadStep(s: State, s': State, i: nat) {
    i < |s.pc| && (StartStep(s, s', i) || EndStep(s, s', i) || ExclStep(s, s', i) || FinishStep(s, s', i))
  }

  ghost predicate Next(s: State, s': State) {
    AddCpu(s, s') || exists i :: ThreadStep(s, s', i)
  }

  ghost predicate Init(s: State) {
    s == State(s.pc, {}, {}, 0, None) && forall i :: 0 <= i < |s.pc| ==> s.pc[i] == Outside
  }

  /** Any interleaving of any number of threads. */
  ghost predicate IsRun(run: seq<State>) {
    && |run| > 0 && Init(run[0])
    && forall k :: 0 <= k < |run| - 1 ==> Next(run[k], run[k + 1])
  }

  // ---- What the threads hold at each program counter

  predicate HoldsLock(pc: PC) {
    pc.StartCheck? || pc.StartIdle? || pc.StartUnlock? || pc.EndCheck? || pc.EndUnlock?
    || pc.ExclIdle? || pc.ExclScan? || pc.ExclWait? || pc.ExclUnlock? || pc.FinishClear? || pc.FinishUnlock?
  }

  predicate IsRunning(pc: PC) {
    pc.StartRead? || pc.StartLock? || pc.StartCheck? || pc.StartUnlock? || pc.Exec?
  }

  /** A counted CPU still has to pass the has_waiter test of cpu_exec_end. */
  predicate MayBeCounted(pc: PC) {
    IsRunning(pc) || pc.EndRead? || pc.EndLock? || pc.EndCheck?
  }

  /** Between `pending_cpus = 1` in start_exclusive and `pending_cpus = 0` in end_exclusive. */
  predicate InSession(pc: PC) {
    pc.ExclScan? || pc.ExclWait? || pc.ExclSleep? || pc.ExclUnlock? || pc.Inside? || pc.FinishLock? || pc.FinishClear?
  }

  /** The session has passed the wait loop: no CPU is counted any more. */
  predicate HasStopped(pc: PC) {
    pc.ExclUnlock? || pc.Inside? || pc.FinishLock? || pc.FinishClear?
  }

  /** The scan of a session at `pc` has already looked at CPU `j`. */
  predicate Scanned(pc: PC, j: nat) {
    InSession(pc) && (pc.ExclScan? ==> j < pc.next)
  }

  // ---- The invariant

  /** What holds of thread `j` when `leader` is the thread in an exclusive session, if any. */
  ghost predicate ThreadInv(s: State, leader: Option<nat>, j: nat)
    requires j < |s.pc| && (leader.Some? ==> leader.value < |s.pc|)
  {
    var pc := s.pc[j];
    && (HoldsLock(pc) <==> s.lock == Some(j))
    && (IsRunning(pc) <==> j in s.running)
    && (InSession(pc) <==> leader == Some(j))
    && (j in s.hasWaiter ==> MayBeCounted(pc))
    // a CPU that runs, or is about to, after the scan has passed it has been counted
    && (leader.Some? && Scanned(s.pc[leader.value], j) && (pc.Exec? || pc.StartUnlock?) ==> j in s.hasWaiter)
    // no wake-up is lost
    && (pc == ExclSleep(false) ==> s.pending > 1)
    && (pc == StartSleep(false) || pc == ExclIdleSleep(false) ==> s.pending != 0)
  }

  /** What pending_cpus counts while a session stands at `pc`. */
  ghost predicate SessionInv(s: State, pc: PC) {
    && (pc.ExclScan? ==> s.pending == 1 && pc.count == |s.hasWaiter| && pc.next <= |s.pc|
                         && forall j :: j in s.hasWaiter ==> j < pc.next)
    && (!pc.ExclScan? ==> s.pending == 1 + |s.hasWaiter|)
    && (HasStopped(pc) ==> s.hasWaiter == {})
  }

  ghost predicate SharedInv(s: State, leader: Option<nat>) {
    && (s.lock.Some? ==> s.lock.value < |s.pc|)
    && (forall j :: j in s.running || j in s.hasWaiter ==> j < |s.pc|)
    && (leader.Some? ==> leader.value < |s.pc| && SessionInv(s, s.pc[leader.value]))
    && (leader.None? ==> s.pending == 0 && s.hasWaiter == {})
  }

  ghost predicate InvFor(s: State, leader: Option<nat>) {
    SharedInv(s, leader) && forall j :: 0 <= j < |s.pc| ==> ThreadInv(s, leader, j)
  }

  ghost predicate Inv(s: State) {
    exists leader :: InvFor(s, leader)
  }

  // ---- Every step keeps it

  /** A step of thread `i` that touches neither the count nor another thread's state. */
  ghost predicate LocalMove(s: State, s': State, i: nat)
    requires i < |s.pc|
  {
    && |s'.pc| == |s.pc| && s'.pc == s.pc[i := s'.pc[i]] && s'.hasWaiter == s.hasWaiter && s'.pending == s.pending
    && s'.running - {i} == s.running - {i}
    && (s'.lock == s.lock || (s.lock == None && s'.lock == Some(i)) || (s.lock == Some(i) && s'.lock == None))
    && (InSession(s.pc[i]) <==> InSession(s'.pc[i])) && !s.pc[i].ExclScan? && !s'.pc[i].ExclScan?
    && (HasStopped(s'.pc[i]) ==> HasStopped(s.pc[i]) || s.pending <= 1)
  }

  lemma OtherThread(s: State, s': State, i: nat, leader: Option<nat>, j: nat)
    requires i < |s.pc| && j < |s.pc| && j != i && SharedInv(s, leader)
    requires LocalMove(s, s', i) && ThreadInv(s, leader, j) && ThreadInv(s, leader, i)
    ensures ThreadInv(s', leader, j)
  {
    assert j in s'.running <==> j in s'.running - {i};
    assert j in s.running <==> j in s.running - {i};
  }

  lemma LocalMoveKeepsInv(s: State, s': State, i: nat, leader: Option<nat>)
    requires InvFor(s, leader) && i < |s.pc| && LocalMove(s, s', i) && ThreadInv(s', leader, i)
    ensures InvFor(s', leader)
  {
    assert ThreadInv(s, leader, i);
    assert SharedInv(s', leader) by {
      forall j | j in s'.running ensures j < |s'.pc| {
        if j != i { assert j in s'.running - {i}; }
      }
    }
    forall j | 0 <= j < |s'.pc| ensures ThreadInv(s', leader, j) {
      assert ThreadInv(s, leader, j);
      if j != i { OtherThread(s, s', i, leader, j); }
    }
  }

  lemma StartKeepsInv(s: State, s': State, i: nat, leader: Option<nat>)
    requires InvFor(s, leader) && i < |s.pc| && StartStep(s, s', i)
    ensures InvFor(s', leader)
  {
    assert ThreadInv(s, leader, i);
    LocalMoveKeepsInv(s, s', i, leader);
  }

  /** cpu_exec_end takes its CPU out of the count, which stays at least 1, and signals the initiator at 1. */
  lemma UncountKeepsInv(s: State, s': State, i: nat, leader: Option<nat>)
    requires InvFor(s, leader) && i < |s.pc| && EndStep(s, s', i)
    requires s.pc[i].EndCheck? && i in s.hasWaiter
    ensures InvFor(s', leader) && s'.pending >= 1
  {
    assert ThreadInv(s, leader, i);
    var l := leader.value;
    assert ThreadInv(s, leader, l);
    assert |s'.hasWaiter| == |s.hasWaiter| - 1;
    assert s'.pending == 1 ==> s'.hasWaiter == {};
    var mid := s.pc[i := EndUnlock];
    if s'.pending == 1 {
      forall k | 0 <= k < |mid| && mid[k] == ExclSleep(false) ensures k == l { assert ThreadInv(s, leader, k); }
    }
    assert s'.pc[i] == EndUnlock;
    assert forall j :: 0 <= j < |s.pc| && j != i && j != l ==> s'.pc[j] == s.pc[j];
    assert SharedInv(s', leader);
    forall j | 0 <= j < |s'.pc| ensures ThreadInv(s', leader, j) {
      assert ThreadInv(s, leader, j);
    }
  }

  lemma EndKeepsInv(s: State, s': State, i: nat, leader: Option<nat>)
    requires InvFor(s, leader) && i < |s.pc| && EndStep(s, s', i)
    ensures InvFor(s', leader)
  {
    assert ThreadInv(s, leader, i);
    if s.pc[i].EndCheck? && i in s.hasWaiter {
      UncountKeepsInv(s, s', i, leader);
    } else {
      LocalMoveKeepsInv(s, s', i, leader);
    }
  }

  lemma OpenKeepsInv(s: State, s': State, i: nat, leader: Option<nat>)
    requires InvFor(s, leader) && i < |s.pc| && ExclStep(s, s', i) && s.pc[i].ExclIdle? && s.pending == 0
    ensures InvFor(s', Some(i))
  {
    assert ThreadInv(s, leader, i);
    assert leader.None?;
    forall j | 0 <= j < |s'.pc| ensures ThreadInv(s', Some(i), j) { assert ThreadInv(s, leader, j); }
  }

  lemma ScanKeepsInv(s: State, s': State, i: nat, leader: Option<nat>)
    requires InvFor(s, leader) && i < |s.pc| && ExclStep(s, s', i) && s.pc[i].ExclScan?
    ensures InvFor(s', leader)
  {
    assert ThreadInv(s, leader, i);
    var next := s.pc[i].next;
    if next < |s.pc| { assert ThreadInv(s, leader, next); }
    assert SharedInv(s', leader);
    forall j | 0 <= j < |s'.pc| ensures ThreadInv(s', leader, j) { assert ThreadInv(s, leader, j); }
  }

  lemma ExclKeepsInv(s: State, s': State, i: nat, leader: Option<nat>)
    requires InvFor(s, leader) && i < |s.pc| && ExclStep(s, s', i)
    ensures InvFor(s', if s.pc[i].ExclIdle? && s.pending == 0 then Some(i) else leader)
  {
    assert ThreadInv(s, leader, i);
    if s.pc[i].ExclIdle? && s.pending == 0 {
      OpenKeepsInv(s, s', i, leader);
    } else if s.pc[i].ExclScan? {
      ScanKeepsInv(s, s', i, leader);
    } else {
      LocalMoveKeepsInv(s, s', i, leader);
    }
  }

  lemma FinishKeepsInv(s: State, s': State, i: nat, leader: Option<nat>)
    requires InvFor(s, leader) && i < |s.pc| && FinishStep(s, s', i)
    ensures InvFor(s', if s.pc[i].FinishClear? then None else leader)
  {
    assert ThreadInv(s, leader, i);
    if s.pc[i].FinishClear? {
      forall j | 0 <= j < |s'.pc| ensures ThreadInv(s', None, j) { assert ThreadInv(s, leader, j); }
    } else {
      LocalMoveKeepsInv(s, s', i, leader);
    }
  }

  lemma NextKeepsInv(s: State, s': State)
    requires Inv(s) && Next(s, s')
    ensures Inv(s')
  {
    var leader: Option<nat> :| InvFor(s, leader);
    if AddCpu(s, s') {
      forall j | 0 <= j < |s'.pc| ensures ThreadInv(s', leader, j) {
        if j < |s.pc| { assert ThreadInv(s, leader, j); }
      }
      assert InvFor(s', leader);
    } else {
      var i :| ThreadStep(s, s', i);
      if StartStep(s, s', i) { StartKeepsInv(s, s', i, leader); }
      else if EndStep(s, s', i) { EndKeepsInv(s, s', i, leader); }
      else if ExclStep(s, s', i) { ExclKeepsInv(s, s', i, leader); }
      else { FinishKeepsInv(s, s', i, leader); }
    }
  }

  lemma {:induction false} RunInv(run: seq<State>, k: nat)
    requires IsRun(run) && k < |run|
    ensures Inv(run[k])
  {
    if k == 0 {
      forall j | 0 <= j < |run[0].pc| ensures ThreadInv(run[0], None, j) {}
      assert InvFor(run[0], None);
    } else {
      RunInv(run, k - 1);
      assert Next(run[k - 1], run[k - 1 + 1]);
      NextKeepsInv(run[k - 1], run[k]);
    }
  }

  // ---- Main results

  /** In every interleaving an exclusive section excludes guest execution and every other exclusive section. */
  lemma ExclusiveSectionIsExclusive(run: seq<State>, k: nat, i: nat)
    requires IsRun(run) && k < |run| && i < |run[k].pc| && run[k].pc[i].Inside?
    ensures forall j :: 0 <= j < |run[k].pc| ==> !run[k].pc[j].Exec?
    ensures forall j :: 0 <= j < |run[k].pc| && j != i ==> !run[k].pc[j].Inside?
  {
    RunInv(run, k);
    var leader: Option<nat> :| InvFor(run[k], leader);
    assert ThreadInv(run[k], leader, i);
    forall j | 0 <= j < |run[k].pc| ensures !run[k].pc[j].Exec? && (j != i ==> !run[k].pc[j].Inside?) {
      assert ThreadInv(run[k], leader, j);
    }
  }

  /**
   Outside the scan pending_cpus is 0, or 1 plus the number of CPUs with has_waiter set; it is 0
   exactly when no thread is between the opening and the closing of a session.
   */
  lemma PendingCountsWaiters(run: seq<State>, k: nat)
    requires IsRun(run) && k < |run|
    ensures var s := run[k];
            && (s.pending == 0 <==> forall i :: 0 <= i < |s.pc| ==> !InSession(s.pc[i]))
            && ((forall i :: 0 <= i < |s.pc| ==> !s.pc[i].ExclScan?) ==>
                  (s.pending == 0 && s.hasWaiter == {}) || s.pending == 1 + |s.hasWaiter|)
  {
    RunInv(run, k);
    var s := run[k];
    var leader: Option<nat> :| InvFor(s, leader);
    if leader.Some? { assert ThreadInv(s, leader, leader.value); }
    forall i | 0 <= i < |s.pc| && InSession(s.pc[i]) ensures s.pending != 0 { assert ThreadInv(s, leader, i); }
  }

  /** cpu_exec_end never takes pending_cpus below 1. */
  lemma ExecEndKeepsPendingPositive(run: seq<State>, k: nat, i: nat)
    requires IsRun(run) && k + 1 < |run| && i < |run[k].pc| && EndStep(run[k], run[k + 1], i)
    ensures run[k + 1].pending < run[k].pending ==> run[k + 1].pending >= 1
  {
    RunInv(run, k);
    var leader: Option<nat> :| InvFor(run[k], leader);
    if run[k].pc[i].EndCheck? && i in run[k].hasWaiter { UncountKeepsInv(run[k], run[k + 1], i, leader); }
  }

  /** No wake-up is lost, on either condition variable. */
  lemma SleepersHaveAReason(run: seq<State>, k: nat, i: nat)
    requires IsRun(run) && k < |run| && i < |run[k].pc|
    ensures run[k].pc[i].ExclSleep? ==> run[k].pending > 1 || run[k].pc[i].signalled
    ensures run[k].pc[i].StartSleep? || run[k].pc[i].ExclIdleSleep? ==> run[k].pending > 0 || run[k].pc[i].woken
  {
    RunInv(run, k);
    var leader: Option<nat> :| InvFor(run[k], leader);
    assert ThreadInv(run[k], leader, i);
    if leader.Some? { assert SessionInv(run[k], run[k].pc[leader.value]); }
  }

  /** Asleep, and not yet woken by a signal or broadcast. */
  predicate Asleep(pc: PC) {
    pc == StartSleep(false) || pc == ExclIdleSleep(false) || pc == ExclSleep(false)
  }

  predicate NeedsLock(pc: PC) {
    || pc.StartLock? || pc.EndLock? || pc.ExclLock? || pc.FinishLock?
    || pc.StartSleep? || pc.ExclIdleSleep? || pc.ExclSleep?
  }

  /** Thread `i` is inside one of the four functions, and can go on without a spurious wake-up. */
  ghost predicate CanStep(s: State, i: nat) {
    i < |s.pc| && !s.pc[i].Outside? && !Asleep(s.pc[i]) && exists s' :: ThreadStep(s, s', i)
  }

  lemma ExecEndCanStep(s: State, i: nat)
    requires i < |s.pc| && s.pc[i].EndCheck?
    ensures exists s' :: ThreadStep(s, s', i)
  {
    var mid := s.(hasWaiter := s.hasWaiter - {i}, pending := s.pending - 1, pc := s.pc[i := EndUnlock]);
    if i !in s.hasWaiter {
      assert ThreadStep(s, s.(pc := s.pc[i := EndUnlock]), i);
    } else if mid.pending == 1 && exists k :: 0 <= k < |mid.pc| && mid.pc[k] == ExclSleep(false) {
      var k :| 0 <= k < |mid.pc| && mid.pc[k] == ExclSleep(false);
      assert ThreadStep(s, mid.(pc := mid.pc[k := ExclSleep(true)]), i);
    } else {
      assert ThreadStep(s, mid, i);
    }
  }

  lemma ExclCanStep(s: State, i: nat)
    requires i < |s.pc| && (s.pc[i].ExclIdle? || s.pc[i].ExclScan? || s.pc[i].ExclWait?)
    ensures exists s' :: ThreadStep(s, s', i)
  {
    match s.pc[i]
    case ExclIdle =>
      assert ThreadStep(s, if s.pending != 0 then s.(lock := None, pc := s.pc[i := ExclIdleSleep(false)])
                           else s.(pending := 1, pc := s.pc[i := ExclScan(0, 0)]), i);
    case ExclScan(next, count) =>
      assert ThreadStep(s, if next >= |s.pc| then s.(pending := count + 1, pc := s.pc[i := ExclWait])
                           else if next in s.running
                           then s.(hasWaiter := s.hasWaiter + {next}, pc := s.pc[i := ExclScan(next + 1, count + 1)])
                           else s.(pc := s.pc[i := ExclScan(next + 1, count)]), i);
    case ExclWait =>
      assert ThreadStep(s, if s.pending > 1 then s.(lock := None, pc := s.pc[i := ExclSleep(false)])
                           else s.(pc := s.pc[i := ExclUnlock]), i);
  }

  lemma StartCanStep(s: State, i: nat)
    requires i < |s.pc| && (s.pc[i].StartRead? || s.pc[i].StartCheck? || s.pc[i].StartIdle? || s.pc[i].EndRead?)
    ensures exists s' :: ThreadStep(s, s', i)
  {
    match s.pc[i]
    case StartRead => assert ThreadStep(s, s.(pc := s.pc[i := if s.pending != 0 then StartLock else Exec]), i);
    case EndRead => assert ThreadStep(s, s.(pc := s.pc[i := if s.pending != 0 then EndLock else Outside]), i);
    case StartCheck =>
      assert ThreadStep(s, if i in s.hasWaiter then s.(pc := s.pc[i := StartUnlock])
                           else s.(running := s.running - {i}, pc := s.pc[i := StartIdle]), i);
    case StartIdle =>
      assert ThreadStep(s, if s.pending != 0 then s.(lock := None, pc := s.pc[i := StartSleep(false)])
                           else s.(running := s.running + {i}, pc := s.pc[i := StartUnlock]), i);
  }

  /** Where a thread goes from a program counter that leaves no choice. */
  function PlainSuccessor(pc: PC): PC {
    match pc
    case StartLock => StartCheck
    case StartSleep(_) => StartIdle
    case StartUnlock => Exec
    case Exec => EndRead
    case EndLock => EndCheck
    case ExclLock => ExclIdle
    case ExclIdleSleep(_) => ExclIdle
    case ExclSleep(_) => ExclWait
    case ExclUnlock => Inside
    case Inside => FinishLock
    case FinishLock => FinishClear
    case _ => Outside
  }

  lemma PlainCanStep(s: State, i: nat)
    requires i < |s.pc| && (NeedsLock(s.pc[i]) ==> s.lock == None)
    requires NeedsLock(s.pc[i]) || s.pc[i].Exec? || s.pc[i].Inside?
             || s.pc[i].StartUnlock? || s.pc[i].EndUnlock? || s.pc[i].ExclUnlock? || s.pc[i].FinishUnlock?
    ensures exists s' :: ThreadStep(s, s', i)
  {
    var s' := s.(pc := s.pc[i := PlainSuccessor(s.pc[i])]);
    if NeedsLock(s.pc[i]) {
      assert ThreadStep(s, s'.(lock := Some(i)), i);
    } else if s.pc[i].Exec? {
      assert ThreadStep(s, s'.(running := s.running - {i}), i);
    } else if s.pc[i].Inside? {
      assert ThreadStep(s, s', i);
    } else {
      assert ThreadStep(s, s'.(lock := None), i);
    }
  }

  lemma UnblockedCanStep(s: State, i: nat)
    requires i < |s.pc| && !s.pc[i].Outside? && !Asleep(s.pc[i]) && (NeedsLock(s.pc[i]) ==> s.lock == None)
    ensures CanStep(s, i)
  {
    match s.pc[i]
    case StartRead | StartCheck | StartIdle | EndRead => StartCanStep(s, i);
    case EndCheck => ExecEndCanStep(s, i);
    case ExclIdle | ExclScan(_, _) | ExclWait => ExclCanStep(s, i);
    case FinishClear =>
      assert ThreadStep(s, s.(pending := 0, pc := seq(|s.pc|, j requires 0 <= j < |s.pc| =>
        if j == i then FinishUnlock else Broadcast(s.pc[j]))), i);
    case _ => PlainCanStep(s, i);
  }

  /** As long as some thread is inside one of the four functions, one of them can go on. */
  lemma SomeoneCanStep(s: State, i: nat)
    requires Inv(s) && i < |s.pc| && !s.pc[i].Outside?
    ensures exists j :: CanStep(s, j)
  {
    var leader: Option<nat> :| InvFor(s, leader);
    if s.lock.Some? {
      assert ThreadInv(s, leader, s.lock.value);
      UnblockedCanStep(s, s.lock.value);
    } else if !Asleep(s.pc[i]) {
      UnblockedCanStep(s, i);
    } else {
      assert ThreadInv(s, leader, i);
      var l := leader.value;
      assert ThreadInv(s, leader, l);
      if !Asleep(s.pc[l]) {
        UnblockedCanStep(s, l);
      } else {
        assert s.hasWaiter != {};
        var j :| j in s.hasWaiter;
        assert ThreadInv(s, leader, j);
        UnblockedCanStep(s, j);
      }
    }
  }

  /** In every reachable state, as long as some thread is inside one of the four functions, one of them can go on. */
  lemma NeverDeadlocks(run: seq<State>, k: nat, i: nat)
    requires IsRun(run) && k < |run| && i < |run[k].pc| && !run[k].pc[i].Outside?
    ensures exists j :: CanStep(run[k], j)
  {
    RunInv(run, k);
    SomeoneCanStep(run[k], i);
  }
}
