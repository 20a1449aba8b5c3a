/**
 Whole runs of the coroutines of qemu-img convert (tools/qemu/qemu-img.c): every run comes to its end, and reports
 success exactly if no request has failed.
 */
module ConvertRuns {
  import opened Common
  import opened ConvertOrder

  /** Coroutine `i` takes a step, and `e` is what block status and I/O make of it. */
  datatype Move = Move(i: nat, e: Event)

  ghost predicate Moves(s: State, m: Move, s': State) {
    |s.wait| == |s.pc| && |s.written| == s.total && Enabled(s, m.i, m.e) && s' == Advance(s, m.i, m.e)
  }

  /** A run together with the moves that make it */
  ghost predicate IsTrace(run: seq<State>, moves: seq<Move>) {
    |run| == |moves| + 1 && Init(run[0]) && forall k :: 0 <= k < |moves| ==> Moves(run[k], moves[k], run[k + 1])
  }

  lemma TraceIsRun(run: seq<State>, moves: seq<Move>)
    requires IsTrace(run, moves)
    ensures IsRun(run)
  {
    forall k | 0 <= k < |run| - 1 ensures Next(run[k], run[k + 1]) {
      assert Moves(run[k], moves[k], run[k + 1]);
    }
  }

  // ---- What is reported

  predicate AllExited(s: State) {
    |s.pc| > 0 && forall i :: 0 <= i < |s.pc| ==> s.pc[i].Exited?
  }

  /** The coroutine is not in the middle of anything. */
  predicate Quiet(pc: Pc) {
    pc.NotStarted? || pc.Idle? || pc.Exited?
  }

  /** The conversion has failed exactly if a request has; nothing is under way once it has succeeded. */
  ghost predicate Reports(s: State, failed: bool) {
    && (s.ret == Failed <==> failed)
    && (s.ret == Success ==> forall i {:trigger s.pc[i]} :: 0 <= i < |s.pc| ==> Quiet(s.pc[i]))
    && (s.ret == InProgress ==> !AllExited(s))
  }

  lemma ExitReports(s: State, i: nat, failed: bool)
    requires i < |s.pc| && (s.ret == Failed <==> failed)
    requires s.ret == Success ==> forall k {:trigger s.pc[k]} :: 0 <= k < |s.pc| ==> Quiet(s.pc[k])
    ensures Reports(Exit(s, i), failed)
  {
    var s' := Exit(s, i);
    assert s'.pc[i].Exited?;
    if AllExited(s') { assert forall k :: 0 <= k < |s'.pc| ==> !Running(s'.pc[k]); }
  }

  lemma FinishReports(s: State, i: nat)
    requires |s.wait| == |s.pc| && i < |s.pc| && Active(s.pc[i]) && s.ret != Success
    ensures Reports(Finish(s, i), s.ret == Failed) && Finish(s, i).ret == s.ret
  {
    assert !Finish(s, i).pc[i].Exited?;
  }

  lemma StepReports(s: State, m: Move, s': State, failed: bool)
    requires Reports(s, failed) && Moves(s, m, s')
    ensures Reports(s', failed || m.e == Fail)
  {
    assert m.i < |s.pc|;
    match s.pc[m.i]
    case NotStarted => assert s'.pc[m.i] == Idle;
    case Idle =>
      if s.ret != InProgress || s.sectorNum >= s.total {
        ExitReports(s, m.i, failed);
      } else {
        assert s'.pc[m.i] == Holding;
      }
    case Holding =>
      if m.e == Fail {
        ExitReports(s.(ret := Failed, lock := None), m.i, true);
      } else {
        assert s'.pc[m.i].Busy?;
      }
    case Busy(_, _) => assert Active(s'.pc[m.i]);
    case Writing(sec, n) =>
      if m.e == Fail {
        FinishReports(s.(ret := Failed), m.i);
      } else {
        FinishReports(s.(written := Mark(s.written, sec, n)), m.i);
      }
    case Finishing(_, _) => FinishReports(s, m.i);
  }

  /** One of the first `k` requests has failed. */
  ghost predicate HasFailed(moves: seq<Move>, k: nat) {
    exists j :: 0 <= j < k && j < |moves| && moves[j].e == Fail
  }

  lemma {:induction false} TraceReports(run: seq<State>, moves: seq<Move>, k: nat)
    requires IsTrace(run, moves) && k <= |moves|
    ensures Reports(run[k], HasFailed(moves, k))
  {
    if k == 0 {
      if |run[0].pc| > 0 { assert run[0].pc[0] == NotStarted; }
    } else {
      TraceReports(run, moves, k - 1);
      assert Moves(run[k - 1], moves[k - 1], run[k - 1 + 1]);
      StepReports(run[k - 1], moves[k - 1], run[k], HasFailed(moves, k - 1));
      assert HasFailed(moves, k) <==> HasFailed(moves, k - 1) || moves[k - 1].e == Fail;
    }
  }

  /** At any time of any run the conversion has failed exactly if one of its requests has. */
  lemma FailsIfARequestFails(run: seq<State>, moves: seq<Move>, k: nat)
    requires IsTrace(run, moves) && k <= |moves|
    ensures run[k].ret == Failed <==> HasFailed(moves, k)
  {
    TraceReports(run, moves, k);
  }

  /**
   When all coroutines have left, success is reported exactly if no request has failed; then every sector is written.
   */
  lemma SucceedsIfNoRequestFails(run: seq<State>, moves: seq<Move>, k: nat)
    requires IsTrace(run, moves) && k <= |moves| && AllExited(run[k])
    ensures run[k].ret == if HasFailed(moves, k) then Failed else Success
    ensures !HasFailed(moves, k) ==>
      |run[k].written| == run[k].total && forall x :: 0 <= x < run[k].total ==> run[k].written[x]
  {
    TraceReports(run, moves, k);
    TraceIsRun(run, moves);
    if !HasFailed(moves, k) { SuccessMeansWritten(run, k); }
  }

  // ---- Every run comes to its end

  /** How many steps a coroutine can take before it needs another chunk */
  function Rank(pc: Pc): nat {
    match pc
    case NotStarted => 3
    case Idle => 2
    case Holding => 1
    case Busy(_, _) => 5
    case Waiting(_, _) => 4
    case Writing(_, _) => 3
    case Finishing(_, _) => 3
    case Exited => 0
  }

  function Ranks(pc: seq<Pc>): nat {
    if pc == [] then 0 else Ranks(pc[..|pc| - 1]) + Rank(pc[|pc| - 1])
  }

  /** No run takes more steps than this from here. */
  function Work(s: State): int {
    5 * (s.total - s.sectorNum) + Ranks(s.pc)
  }

  lemma {:induction false} RanksUpdate(pc: seq<Pc>, i: nat, new_: Pc)
    requires i < |pc|
    ensures Ranks(pc[i := new_]) == Ranks(pc) - Rank(pc[i]) + Rank(new_)
    decreases |pc|
  {
    var k := |pc| - 1;
    if i == k {
      assert pc[i := new_][..k] == pc[..k];
    } else {
      assert pc[i := new_][..k] == pc[..k][i := new_];
      RanksUpdate(pc[..k], i, new_);
    }
  }

  lemma EnteredWorks(s: State, i: nat)
    requires |s.wait| == |s.pc| && i < |s.pc| && Active(s.pc[i])
    ensures Work(Entered(s, i)) == Work(s) - Rank(s.pc[i]) + 3
  {
    var pc := s.pc[i];
    RanksUpdate(s.pc, i, if s.ret == InProgress then Writing(pc.sec, pc.n) else Finishing(pc.sec, pc.n));
  }

  lemma FinishWorks(s: State, i: nat)
    requires |s.wait| == |s.pc| && i < |s.pc| && (s.pc[i].Writing? || s.pc[i].Finishing?)
    ensures Work(Finish(s, i)) < Work(s)
  {
    RanksUpdate(s.pc, i, Idle);
    var d := Dropped(s, i);
    var w := Waiter(d, s.pc[i].sec + s.pc[i].n, 0);
    if w.Some? && d.pc[w.value].Waiting? { EnteredWorks(d, w.value); }
  }

  /** Every step, with or without an error, leaves less to do. */
  lemma StepWorks(s: State, m: Move, s': State)
    requires Moves(s, m, s')
    ensures Work(s') < Work(s)
  {
    var i := m.i;
    match s.pc[i]
    case NotStarted => RanksUpdate(s.pc, i, Idle);
    case Idle =>
      RanksUpdate(s.pc, i, Exited);
      RanksUpdate(s.pc, i, Holding);
    case Holding =>
      RanksUpdate(s.pc, i, Exited);
      if m.e.Claim? { RanksUpdate(s.pc, i, Busy(s.sectorNum, m.e.n)); }
    case Busy(sec, n) =>
      RanksUpdate(s.pc, i, Waiting(sec, n));
      EnteredWorks(if m.e == Fail then s.(ret := Failed) else s, i);
    case Writing(sec, n) =>
      FinishWorks(if m.e == Fail then s.(ret := Failed) else s.(written := Mark(s.written, sec, n)), i);
    case Finishing(_, _) => FinishWorks(s, i);
  }

  lemma {:induction false} TraceWorks(run: seq<State>, moves: seq<Move>, k: nat)
    requires IsTrace(run, moves) && k <= |moves|
    ensures Work(run[k]) + k <= Work(run[0])
  {
    if k > 0 {
      TraceWorks(run, moves, k - 1);
      assert Moves(run[k - 1], moves[k - 1], run[k - 1 + 1]);
      StepWorks(run[k - 1], moves[k - 1], run[k]);
    }
  }

  lemma {:induction false} RanksAtStart(pc: seq<Pc>)
    requires forall i :: 0 <= i < |pc| ==> pc[i] == NotStarted
    ensures Ranks(pc) == 3 * |pc|
  {
    if pc != [] { RanksAtStart(pc[..|pc| - 1]); }
  }

  /** No run goes on for ever: it takes at most five steps for a sector and three for a coroutine. */
  lemma RunsAreBounded(run: seq<State>, moves: seq<Move>)
    requires IsTrace(run, moves)
    ensures |moves| <= 5 * run[0].total + 3 * |run[0].pc|
  {
    TraceWorks(run, moves, |moves|);
    TraceIsRun(run, moves);
    RunInv(run, |moves|);
    RanksAtStart(run[0].pc);
  }

  /** A run that cannot be continued is over: all coroutines have left. */
  lemma RunsEndWithExits(run: seq<State>, moves: seq<Move>)
    requires IsTrace(run, moves) && |run[|moves|].pc| > 0
    requires !exists m, s' :: Moves(run[|moves|], m, s') && m.e != Fail
    ensures AllExited(run[|moves|])
  {
    TraceIsRun(run, moves);
    RunInv(run, |moves|);
    var s := run[|moves|];
    forall i | 0 <= i < |s.pc| ensures s.pc[i].Exited? {
      if !s.pc[i].Exited? {
        NeverStuck(run, |moves|, i);
        var j: nat, e :| Enabled(s, j, e) && e != Fail;
        assert Moves(s, Move(j, e), Advance(s, j, e));
      }
    }
  }
}
