/**
 One background job (tools/qemu/job.c, tools/qemu/blockjob.c): its status, the tables that say which
 changes of status and which commands are allowed, and the accounting of pauses.  Every assert of the
 source that concerns one job is a precondition here.
 */
module Job {
  import opened Common

  datatype Status =
    | Undefined | Created | Running | Paused | Ready | Standby | Waiting | Pending | Aborting | Concluded | Null

  datatype Verb = Cancel | Pause | Resume | SetSpeed | Complete | Finalize | Dismiss

  /** What the driver of a job has been told at its end */
  datatype Callback = Commit | Abort | Clean

  /**
   pause_count, user_paused and whether the I/O status is good.  `drained` counts the drained sections that
   are open on the nodes of the job.
   */
  datatype Pauses = Pauses(count: int, byUser: bool, drained: nat, ioOk: bool)

  /** The job has not left the list of its group. */
  predicate InGroup(s: Status) {
    !(s.Undefined? || s.Concluded? || s.Null?)
  }

  /** Everyone who wants the job to pause is counted, and only a pause that the user sees can follow an I/O error. */
  predicate PausesOk(p: Pauses, started: bool) {
    && p.count == (if started then 0 else 1) + (if p.byUser then 1 else 0) + p.drained
    && (!p.ioOk ==> p.byUser)
  }

  datatype AnyJob = Job(status: Status, ret: int, cancelled: bool, started: bool, deferred: bool, busy: bool,
                        paused: bool,
                     pauses: Pauses, autoFinalize: bool, autoDismiss: bool, log: seq<Callback>)

  predicate StatusOk(j: AnyJob) {
    && (if !j.started then (j.status.Created? || j.status.Aborting? || j.status.Null?)
        else if !j.deferred then (j.status.Running? || j.status.Paused? || j.status.Ready? || j.status.Standby?)
        else (j.status.Running? || j.status.Ready? || j.status.Waiting? || j.status.Pending? || j.status.Aborting?
              || j.status.Concluded? || j.status.Null?))
    && (j.started ==> (j.paused <==> (j.status.Paused? || j.status.Standby?)))
    && (j.status == Created ==> j.paused)
    && (!j.started && j.status != Null ==> !j.deferred)
    && ((j.status.Created? || j.status.Paused? || j.status.Standby? || j.status.Waiting? || j.status.Pending?) ==>
         j.ret == 0)
    && (j.started && !j.deferred ==> j.ret == 0)
    && (j.status == Aborting ==> j.ret != 0)
  }

  /** The driver is told once how the job ended: when the job leaves its group. */
  predicate LogOk(j: AnyJob) {
    && (InGroup(j.status) ==> j.log == [])
    && (!InGroup(j.status) ==> j.log == if j.ret == 0 then [Commit, Clean] else [Abort, Clean])
  }

  predicate Ok(j: AnyJob) {
    StatusOk(j) && PausesOk(j.pauses, j.started) && LogOk(j)
  }

  type Job = j: AnyJob | Ok(j)
    witness Job(Created, 0, false, false, false, false, true, Pauses(1, false, 0, true), true, true, [])

  /** JobSTT */
  predicate Allowed(s0: Status, s1: Status) {
    match s0
    case Undefined => s1 == Created
    case Created => s1 == Running || s1 == Aborting || s1 == Null
    case Running => s1 == Paused || s1 == Ready || s1 == Waiting || s1 == Aborting
    case Paused => s1 == Running
    case Ready => s1 == Standby || s1 == Waiting || s1 == Aborting
    case Standby => s1 == Ready
    case Waiting => s1 == Pending || s1 == Aborting
    case Pending => s1 == Aborting || s1 == Concluded
    case Aborting => s1 == Aborting || s1 == Concluded
    case Concluded => s1 == Null
    case Null => false
  }

  /** JobVerbTable */
  predicate Accepts(s: Status, verb: Verb) {
    match verb
    case Cancel => (s.Created? || s.Running? || s.Paused? || s.Ready? || s.Standby? || s.Waiting? || s.Pending?)
    case Pause => (s.Created? || s.Running? || s.Paused? || s.Ready? || s.Standby?)
    case Resume => (s.Created? || s.Running? || s.Paused? || s.Ready? || s.Standby?)
    case SetSpeed => (s.Created? || s.Running? || s.Paused? || s.Ready? || s.Standby?)
    case Complete => (s.Ready? || s.Standby?)
    case Finalize => s == Pending
    case Dismiss => s == Concluded
  }

  /** job_is_completed */
  predicate Completed(s: Status) {
    (s.Waiting? || s.Pending? || s.Aborting? || s.Concluded? || s.Null?)
  }

  // ---- What always holds

  /** The job is where it was with respect to its group: the same end, the same standing among the members. */
  predicate SameStanding(j: Job, j': Job) {
    && j'.cancelled == j.cancelled
    && (Completed(j.status) ==>
         j'.status == j.status && j'.ret == j.ret) && (Completed(j'.status) ==> Completed(j.status))
  }

  // ---- Counting pauses

  /** The counting part of job_pause, by the user or on behalf of a drained section */
  function CountPause(p: Pauses, started: bool, byUser: bool): (r: Pauses)
    requires PausesOk(p, started) && (byUser ==> !p.byUser)
    ensures PausesOk(r, started) && r.count == p.count + 1
  {
    if byUser then p.(count := p.count + 1, byUser := true) else p.(count := p.count + 1, drained := p.drained + 1)
  }

  /** The counting part of job_resume; a resume by the user resets the I/O status (block_job_user_resume). */
  function CountResume(p: Pauses, started: bool, byUser: bool): (r: Pauses)
    requires PausesOk(p, started) && (if byUser then p.byUser else p.drained > 0)
    ensures PausesOk(r, started) && r.count == p.count - 1 && r.count >= 0
  {
    // job_resume, job_cancel_async and block_job_iostatus_reset assert this
    assert p.count > 0 && (byUser ==> p.ioOk || p.byUser);
    if byUser then p.(count := p.count - 1, byUser := false, ioOk := true)
    else p.(count := p.count - 1, drained := p.drained - 1)
  }

  // ---- Entering, pausing and resuming

  /** job_create and job_state_transition to CREATED; joining the group is left to the caller. */
  function New(autoFinalize: bool, autoDismiss: bool): (r: Job)
    ensures !Completed(r.status)
  {
    assert Allowed(Undefined, Created);
    Job(Created, 0, false, false, false, false, true, Pauses(1, false, 0, true), autoFinalize, autoDismiss, [])
  }

  /** job_enter */
  function Enter(j: Job): (r: Job)
    ensures SameStanding(j, r) && r.status == j.status
    ensures r.started && !r.deferred ==> r.busy
  {
    if j.started && !j.deferred && !j.busy then j.(busy := true) else j
  }

  /** Nobody wants the job to pause any more, and no timer will enter it. */
  predicate GoesOn(j: Job, timerPending: bool) {
    j.started && !j.deferred && !j.pauses.byUser && j.pauses.drained == 0 && !timerPending
  }

  /** job_pause, on behalf of a drained section */
  function DrainedBegin(j: Job): (r: Job)
    ensures SameStanding(j, r) && r.status == j.status && r.pauses.drained == j.pauses.drained + 1
    ensures r.started && !r.deferred && !r.paused ==> r.busy
  {
    var j: Job := j.(pauses := CountPause(j.pauses, j.started, false));
    if j.paused then j else Enter(j)
  }

  /** job_resume, on behalf of a drained section */
  function DrainedEnd(j: Job, timerPending: bool): (r: Job)
    requires j.pauses.drained > 0
    ensures SameStanding(j, r) && r.status == j.status && r.pauses.drained == j.pauses.drained - 1
    ensures GoesOn(r, timerPending) ==> r.busy
  {
    var j: Job := j.(pauses := CountResume(j.pauses, j.started, false));
    if j.pauses.count > 0 || timerPending then j else Enter(j)
  }

  /** job_user_pause: None stands for an error. */
  function UserPause(j: Job): (r: Option<Job>)
    ensures r.Some? <==> Accepts(j.status, Pause) && !j.pauses.byUser
    ensures r.Some? ==> SameStanding(j, r.value) && r.value.status == j.status && r.value.pauses.byUser
    ensures r.Some? && r.value.started && !r.value.deferred && !r.value.paused ==> r.value.busy
  {
    if !Accepts(j.status, Pause) || j.pauses.byUser then None
    else
      var j: Job := j.(pauses := CountPause(j.pauses, j.started, true));
      Some(if j.paused then j else Enter(j))
  }

  /** job_user_resume: None stands for an error. */
  function UserResume(j: Job, timerPending: bool): (r: Option<Job>)
    ensures r.Some? <==> Accepts(j.status, Resume) && j.pauses.byUser
    ensures r.Some? ==>
      SameStanding(j, r.value) && r.value.status == j.status && !r.value.pauses.byUser && r.value.pauses.ioOk
    ensures r.Some? && GoesOn(r.value, timerPending) ==> r.value.busy
  {
    if !j.pauses.byUser || j.pauses.count <= 0 || !Accepts(j.status, Resume) then None
    else
      var j: Job := j.(pauses := CountResume(j.pauses, j.started, true));
      Some(if j.pauses.count > 0 || timerPending then j else Enter(j))
  }

  datatype OnError = EnospcOnly | Auto | Stop | Report | Ignore

  datatype ErrorAction = StopAction | ReportAction | IgnoreAction

  function ActionFor(onErr: OnError, error: int): ErrorAction {
    match onErr
    case EnospcOnly | Auto => if error == ENOSPC then StopAction else ReportAction
    case Stop => StopAction
    case Report => ReportAction
    case Ignore => IgnoreAction
  }

  /** block_job_error_action */
  function OnIoError(j: Job, onErr: OnError, error: int): (r: (Job, ErrorAction))
    ensures SameStanding(j, r.0) && r.0.status == j.status
    ensures if r.1 == StopAction then r.0.pauses.byUser && !r.0.pauses.ioOk else r.0 == j
    ensures r.1 == StopAction <==> onErr == Stop || (error == ENOSPC && onErr != Report && onErr != Ignore)
    ensures r.1 == IgnoreAction <==> onErr == Ignore
  {
    var action := ActionFor(onErr, error);
    if action != StopAction then (j, action)
    else
      var stopped := if j.pauses.byUser then j else
                       var p: Job := j.(pauses := CountPause(j.pauses, j.started, true));
                       if p.paused then p else Enter(p);
      (stopped.(pauses := stopped.pauses.(ioOk := false)), action)
  }

  // ---- The coroutine of the job

  /** job_start */
  function Start(j: Job): (r: Job)
    requires j.status == Created
    ensures SameStanding(j, r) && r.status == Running && r.busy
  {
    assert !j.started && j.paused && Allowed(j.status, Running);
    j.(started := true, pauses := j.pauses.(count := j.pauses.count - 1), busy := true, paused := false,
       status := Running)
  }

  /** The coroutine is running driver code. */
  predicate InCoroutine(j: Job) {
    j.started && !j.deferred && j.busy && !j.paused
  }

  /** job_do_yield */
  function Yield(j: Job): (r: Job)
    requires InCoroutine(j)
    ensures SameStanding(j, r) && r.status == j.status && !r.busy
  {
    j.(busy := false)
  }

  /** The first half of job_pause_point: the job stops. */
  function PausePoint(j: Job): (r: Job)
    requires InCoroutine(j)
    ensures SameStanding(j, r)
    ensures if j.pauses.count > 0 && !j.cancelled
            then r.paused && !r.busy && r.status == (if j.status == Ready then Standby else Paused)
            else r == j
  {
    if j.pauses.count <= 0 || j.cancelled then j
    else
      var s1 := if j.status == Ready then Standby else Paused;
      assert Allowed(j.status, s1);
      j.(status := s1, paused := true, busy := false)
  }

  /** The second half of job_pause_point: the job has been entered again and goes on. */
  function AfterPause(j: Job): (r: Job)
    requires j.started && j.paused && j.busy
    ensures SameStanding(j, r) && InCoroutine(r) && r.status == if j.status == Standby then Ready else Running
  {
    var s1 := if j.status == Standby then Ready else Running;
    assert Allowed(j.status, s1);
    j.(paused := false, status := s1)
  }

  /** job_transition_to_ready, which drivers call while they are running */
  function BecomeReady(j: Job): (r: Job)
    requires InCoroutine(j) && j.status == Running
    ensures SameStanding(j, r) && r.status == Ready
  {
    assert Allowed(j.status, Ready);
    j.(status := Ready)
  }

  /** job_exit is scheduled and has not run. */
  predicate Exiting(j: Job) {
    j.started && j.deferred && (j.status.Running? || j.status.Ready?)
  }

  /** The tail of job_co_entry: the driver is done, and job_exit is scheduled. */
  function Return(j: Job, ret: int): (r: Job)
    requires InCoroutine(j)
    ensures SameStanding(j, r) && Exiting(r) && r.ret == ret
  {
    j.(ret := ret, deferred := true, busy := true)
  }
}
