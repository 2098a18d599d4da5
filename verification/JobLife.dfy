/**
 One job: its status, its pause counter and what changes them
 (xemu/job.c:59-84, 208-221, 536-758, 760-912, 1121-1163;
 xemu/blockjob.c:93-127, 403-409, 555-622).

 Every status change is a call of Transition, whose precondition is the
 assertion of job_state_transition_locked.
 */
module JobLife {

  import opened Wrappers

  datatype Status = Undefined | Created | Running | Paused | Ready | Standby | Waiting | Pending | Aborting | Concluded | Null

  // JobSTT.
  predicate MayFollow(s0: Status, s1: Status) {
    match s0
    case Undefined => s1.Created?
    case Created => s1.Running? || s1.Aborting? || s1.Null?
    case Running => s1.Paused? || s1.Ready? || s1.Waiting? || s1.Aborting?
    case Paused => s1.Running?
    case Ready => s1.Standby? || s1.Waiting? || s1.Aborting?
    case Standby => s1.Ready?
    case Waiting => s1.Pending? || s1.Aborting?
    case Pending => s1.Aborting? || s1.Concluded?
    case Aborting => s1.Aborting? || s1.Concluded?
    case Concluded => s1.Null?
    case Null => false
  }

  datatype Verb = CancelVerb | PauseVerb | ResumeVerb | SetSpeedVerb | CompleteVerb | FinalizeVerb | DismissVerb | ChangeVerb

  // JobVerbTable.
  predicate VerbAllowed(verb: Verb, s: Status) {
    match verb
    case CancelVerb => IsActive(s) || s.Waiting? || s.Pending?
    case CompleteVerb => s.Ready? || s.Standby?
    case FinalizeVerb => s.Pending?
    case DismissVerb => s.Concluded?
    case _ => IsActive(s)
  }

  // The two tables read the other way: where a status may come from, and what a job
  // in a status may be asked.
  function Origins(s1: Status): set<Status> {
    match s1
    case Undefined => {}
    case Created => {Undefined}
    case Running => {Created, Paused}
    case Paused => {Running}
    case Ready => {Running, Standby}
    case Standby => {Ready}
    case Waiting => {Running, Ready}
    case Pending => {Waiting}
    case Aborting => {Created, Running, Ready, Waiting, Pending, Aborting}
    case Concluded => {Pending, Aborting}
    case Null => {Created, Concluded}
  }

  function Verbs(s: Status): set<Verb> {
    if s.Ready? || s.Standby? then {CancelVerb, PauseVerb, ResumeVerb, SetSpeedVerb, ChangeVerb, CompleteVerb}
    else if IsActive(s) then {CancelVerb, PauseVerb, ResumeVerb, SetSpeedVerb, ChangeVerb}
    else if s.Waiting? then {CancelVerb}
    else if s.Pending? then {CancelVerb, FinalizeVerb}
    else if s.Concluded? then {DismissVerb}
    else {}
  }

  lemma TablesAgree(s0: Status, s1: Status, verb: Verb)
    ensures MayFollow(s0, s1) <==> s0 in Origins(s1)
    ensures VerbAllowed(verb, s0) <==> verb in Verbs(s0)
  {
  }

  // How far a job has come; a pause does not count.
  function Phase(s: Status): nat {
    match s
    case Undefined => 0
    case Created => 1
    case Running => 2
    case Paused => 2
    case Ready => 3
    case Standby => 3
    case Waiting => 4
    case Pending => 5
    case Aborting => 6
    case Concluded => 7
    case Null => 8
  }

  lemma TransitionsMoveOn(s0: Status, s1: Status)
    requires MayFollow(s0, s1)
    ensures Phase(s0) <= Phase(s1)
  {
  }

  predicate IsActive(s: Status) {
    s.Created? || s.Running? || s.Paused? || s.Ready? || s.Standby?
  }

  // job_is_completed_locked.
  predicate IsCompleted(s: Status) {
    s.Waiting? || s.Pending? || s.Aborting? || s.Concluded? || s.Null?
  }

  datatype Options = Options(autoFinalize: bool, autoDismiss: bool, hasPrepare: bool)

  const ECANCELED: int := -125

  datatype Coroutine = Coroutine(
    started: bool,
    paused: bool,
    busy: bool,
    deferred: bool)             // deferred_to_main_loop: run() has returned

  datatype Cancel = Cancel(requested: bool, forced: bool)

  datatype Pauses = Pauses(
    user: bool,
    count: int,                 // pause_count
    drains: nat,                // drained sections that have begun and not ended
    failedIo: bool)             // the iostatus is not OK

  datatype Calls = Calls(commits: nat, aborts: nat)

  datatype Job = Job(
    status: Status,
    saved: Option<Status>,      // the status to return to, while the coroutine is paused
    co: Coroutine,
    cancel: Cancel,
    ret: int,
    pauses: Pauses,
    options: Options,
    txn: Option<nat>,
    calls: Calls)               // calls of the commit and abort callbacks

  // What holds of a job between two operations.
  predicate JobOk(j: Job) {
    && StatusOk(j.status, j.saved, j.co) && (j.cancel.forced ==> j.cancel.requested)
    && OutcomeOk(j.status, j.co.deferred, j.ret, j.txn, j.calls)
    && PausesOk(j.co.started, j.pauses)
  }

  predicate StatusOk(status: Status, saved: Option<Status>, co: Coroutine) {
    && !status.Undefined?
    && (status.Created? ==> !co.started && co.paused && !co.busy && !co.deferred)
    && (IsActive(status) && !status.Created? ==> co.started)
    && (status.Running? || status.Ready? ==> !co.paused)
    && (saved.Some? <==> status.Paused? || status.Standby?)
    && (saved.Some? ==> co.paused && !co.deferred && saved.value == (if status.Standby? then Ready else Running))
    && (!co.started ==> status.Created? || status.Aborting? || status.Null?)
    && (co.started && IsCompleted(status) ==> co.deferred)
  }

  predicate OutcomeOk(status: Status, deferred: bool, ret: int, txn: Option<nat>, calls: Calls) {
    && (status.Waiting? || status.Pending? ==> ret == 0)
    && (status.Aborting? ==> ret != 0)
    && (IsActive(status) && !deferred ==> ret == 0)
    && (txn.Some? <==> !status.Concluded? && !status.Null?)
    && (txn.Some? ==> calls == Calls(0, 0))
    && (status.Concluded? ==> calls != Calls(0, 0))
    && (calls == Calls(0, 0) || calls == (if ret == 0 then Calls(1, 0) else Calls(0, 1)))
  }

  // The pause counter is one for a job that has not started, one for the user,
  // and one for every drained section.
  predicate PausesOk(started: bool, p: Pauses) {
    && p.count == (if started then 0 else 1) + (if p.user then 1 else 0) + p.drains
    && (p.failedIo ==> p.user)
  }

  // job_create.
  function NewJob(txn: nat, options: Options): (j: Job)
    ensures JobOk(j) && j.status.Created? && j.txn == Some(txn)
  {
    Transition(Job(Undefined, None, Coroutine(false, true, false, false), Cancel(false, false), 0,
                   Pauses(false, 1, 0, false), options, Some(txn), Calls(0, 0)), Created)
  }

  // job_state_transition_locked.
  function Transition(j: Job, s1: Status): Job
    requires MayFollow(j.status, s1)
  {
    j.(status := s1)
  }

  // ------------------------------------------------------------- pause and resume

  // job_enter_cond_locked.
  function Entered(co: Coroutine): Coroutine {
    if co.started && !co.deferred && !co.busy then co.(busy := true) else co
  }

  // job_pause_locked.
  function PauseOnce(j: Job): Job {
    j.(pauses := j.pauses.(count := j.pauses.count + 1), co := if j.co.paused then j.co else Entered(j.co))
  }

  // job_resume_locked.
  function ResumeOnce(j: Job, timerPending: bool): Job
    requires j.pauses.count > 0
  {
    j.(pauses := j.pauses.(count := j.pauses.count - 1),
       co := if j.pauses.count != 1 || timerPending then j.co else Entered(j.co))
  }

  // block_job_iostatus_reset_locked.
  function IoStatusReset(p: Pauses): Pauses
    requires p.failedIo ==> p.user && p.count > 0
  {
    p.(failedIo := false)
  }

  // job_user_pause_locked.
  function UserPause(j: Job): Job {
    if !VerbAllowed(PauseVerb, j.status) || j.pauses.user then j
    else PauseOnce(j.(pauses := j.pauses.(user := true)))
  }

  // job_user_resume_locked.
  function UserResume(j: Job, timerPending: bool): Job
    requires PausesOk(j.co.started, j.pauses)
  {
    if !j.pauses.user || j.pauses.count <= 0 || !VerbAllowed(ResumeVerb, j.status) then j
    else ResumeOnce(j.(pauses := IoStatusReset(j.pauses).(user := false)), timerPending)
  }

  // block_job_error_action when the action is to stop.
  function ErrorStop(j: Job): Job {
    var k := if j.pauses.user then j else PauseOnce(j);
    k.(pauses := k.pauses.(user := true, failedIo := true))
  }

  // The first half of job_pause_point_locked, up to the yield.
  function PauseEnter(j: Job): Job
    requires j.status.Running? || j.status.Ready?
  {
    Transition(j, if j.status.Ready? then Standby else Paused)
      .(saved := Some(j.status), co := j.co.(paused := true, busy := false))
  }

  // The second half, once the coroutine has been entered again.
  function PauseLeave(j: Job): Job
    requires j.saved.Some? && MayFollow(j.status, j.saved.value)
  {
    Transition(j, j.saved.value).(saved := None, co := j.co.(paused := false))
  }

  // ---------------------------------------------------------- running and cancelling

  // job_start.
  function Started(j: Job): Job
    requires MayFollow(j.status, Running)
  {
    Transition(j, Running).(co := j.co.(started := true, busy := true, paused := false),
                            pauses := j.pauses.(count := j.pauses.count - 1))
  }

  // job_cancel_async_locked, where the driver has decided about force.
  function CancelAsync(j: Job, force: bool): Job
    requires JobOk(j)
  {
    j.(pauses := if j.pauses.user then IoStatusReset(j.pauses).(user := false, count := j.pauses.count - 1) else j.pauses,
       cancel := if force || !j.co.deferred then Cancel(true, j.cancel.forced || force) else j.cancel)
  }

  // job_update_rc_locked.
  function UpdateRc(j: Job): Job
    requires j.ret != 0 || j.cancel.forced ==> MayFollow(j.status, Aborting)
  {
    var ret := if j.ret == 0 && j.cancel.forced then ECANCELED else j.ret;
    if ret != 0 then Transition(j, Aborting).(ret := ret) else j
  }

  // job_do_dismiss_locked.
  function Dismissed(j: Job): Job
    requires MayFollow(j.status, Null)
  {
    Transition(j, Null).(co := j.co.(busy := false, paused := false, deferred := true), txn := None)
  }

  lemma DismissedOk(j: Job)
    requires JobOk(j) && MayFollow(j.status, Null)
    ensures var k := Dismissed(j);
      && JobOk(k) && k.status.Null? && k.txn.None? && !k.co.busy && !k.co.paused && k.co.deferred
      && k.ret == j.ret && k.calls == j.calls && k.cancel == j.cancel
  {
  }

  // ---------------------------------------------------------------- finalizing

  // A job that job_finalize_single_locked may be called for.
  predicate Finalizable(j: Job) {
    JobOk(j) && (j.status.Pending? || j.status.Aborting? || (j.status.Waiting? && j.cancel.forced))
  }

  // job_finalize_single_locked.
  function Finalized(j: Job): Job
    requires Finalizable(j)
  {
    Conclude(CallBack(UpdateRc(j)))
  }

  // job_commit or job_abort, and leaving the group.
  function CallBack(j: Job): Job {
    j.(txn := None, calls := if j.ret == 0 then Calls(j.calls.commits + 1, j.calls.aborts)
                             else Calls(j.calls.commits, j.calls.aborts + 1))
  }

  // job_conclude_locked.
  function Conclude(j: Job): Job
    requires MayFollow(j.status, Concluded)
  {
    var j := Transition(j, Concluded);
    if j.options.autoDismiss || !j.co.started then Dismissed(j) else j
  }

  lemma UpdateRcOk(j: Job)
    requires Finalizable(j)
    ensures var k := UpdateRc(j);
      && JobOk(k) && (k.status.Pending? || k.status.Aborting?)
      && (k.ret == 0 <==> j.ret == 0 && !j.cancel.forced)
      && (j.ret == 0 && j.cancel.forced ==> k.ret == ECANCELED) && (j.ret != 0 ==> k.ret == j.ret)
      && k.txn == j.txn
  {
  }

  // Finalizing calls exactly one of the two callbacks, once: commit for a job
  // without an error that was not force-cancelled, abort for every other.
  lemma FinalizedOk(j: Job)
    requires Finalizable(j)
    ensures JobOk(Finalized(j)) && Finalized(j).txn.None? && IsCompleted(Finalized(j).status)
    ensures Finalized(j).calls == if j.ret == 0 && !j.cancel.forced then Calls(1, 0) else Calls(0, 1)
    ensures Finalized(j).status == if j.options.autoDismiss || !j.co.started then Null else Concluded
  {
  }

  // ------------------------------------------------------- operations on one job

  datatype LocalOp =
    | StartOp
    | UserPauseOp
    | UserResumeOp(timerPending: bool)
    | DrainBeginOp
    | DrainEndOp(timerPending: bool)
    | ErrorStopOp
    | PauseEnterOp
    | PauseLeaveOp
    | YieldOp
    | EnterOp
    | ReadyOp
    | ReturnOp(ret: int)
    | CancelOp(force: bool)

  // The coroutine runs driver code.
  predicate Runs(co: Coroutine) {
    co.started && co.busy && !co.paused && !co.deferred
  }

  // The coroutine acts only when it is busy, the other side at any time.  It does not
  // sleep when it should pause (660-662), and no timer runs while it is paused (632).
  predicate LocalEnabled(j: Job, op: LocalOp) {
    match op
    case StartOp => j.status.Created?
    case UserResumeOp(timerPending) => timerPending ==> j.saved.None?
    case DrainEndOp(timerPending) => j.pauses.drains > 0 && (timerPending ==> j.saved.None?)
    case ErrorStopOp => j.co.started && !j.co.deferred
    case PauseEnterOp => Runs(j.co) && j.pauses.count > 0 && !j.cancel.forced
    case PauseLeaveOp => j.co.busy && j.saved.Some?
    case YieldOp => Runs(j.co) && j.pauses.count == 0 && !j.cancel.forced
    case ReadyOp => Runs(j.co) && j.status.Running?
    case ReturnOp(_) => Runs(j.co)
    case CancelOp(_) => j.co.started && !j.co.deferred
    case _ => true
  }

  function Local(j: Job, op: LocalOp): Job
    requires JobOk(j) && LocalEnabled(j, op)
  {
    match op
    case StartOp => Started(j)
    case UserPauseOp => UserPause(j)
    case UserResumeOp(timerPending) => UserResume(j, timerPending)
    case DrainBeginOp => PauseOnce(j.(pauses := j.pauses.(drains := j.pauses.drains + 1)))
    case DrainEndOp(timerPending) => ResumeOnce(j.(pauses := j.pauses.(drains := j.pauses.drains - 1)), timerPending)
    case ErrorStopOp => ErrorStop(j)
    case PauseEnterOp => PauseEnter(j)
    case PauseLeaveOp => PauseLeave(j)
    case YieldOp => j.(co := j.co.(busy := false))
    case EnterOp => j.(co := Entered(j.co))
    case ReadyOp => Transition(j, Ready)
    case ReturnOp(ret) => j.(ret := ret, co := j.co.(deferred := true, busy := true))
    case CancelOp(force) => var k := CancelAsync(j, force); k.(co := Entered(k.co))
  }

  // What the other jobs of the group can see.
  predicate SameOutside(j: Job, k: Job) {
    && j.txn == k.txn && j.calls == k.calls && j.options == k.options
    && (IsCompleted(j.status) <==> IsCompleted(k.status))
    && (IsCompleted(j.status) ==> j.status == k.status && j.ret == k.ret && j.cancel.forced == k.cancel.forced)
    && (j.cancel.forced ==> k.cancel.forced)
    && (k.status.Created? ==> j.status.Created?)
  }

  predicate IsPauseOp(op: LocalOp) {
    op.UserPauseOp? || op.UserResumeOp? || op.DrainBeginOp? || op.DrainEndOp? || op.ErrorStopOp?
  }

  predicate IsCoroutineOp(op: LocalOp) {
    op.PauseEnterOp? || op.PauseLeaveOp? || op.YieldOp? || op.EnterOp? || op.ReadyOp? || op.ReturnOp?
  }

  lemma PauseOpKeepsOk(j: Job, op: LocalOp)
    requires JobOk(j) && LocalEnabled(j, op) && IsPauseOp(op)
    ensures JobOk(Local(j, op)) && SameOutside(j, Local(j, op))
  {
  }

  lemma CoroutineOpKeepsOk(j: Job, op: LocalOp)
    requires JobOk(j) && LocalEnabled(j, op) && IsCoroutineOp(op)
    ensures JobOk(Local(j, op)) && SameOutside(j, Local(j, op))
  {
  }

  lemma StartOrCancelKeepsOk(j: Job, op: LocalOp)
    requires JobOk(j) && LocalEnabled(j, op) && (op.StartOp? || op.CancelOp?)
    ensures JobOk(Local(j, op)) && SameOutside(j, Local(j, op))
  {
  }

  // No assertion fails, and a completed job keeps its status.
  lemma LocalKeepsOk(j: Job, op: LocalOp)
    requires JobOk(j) && LocalEnabled(j, op)
    ensures JobOk(Local(j, op)) && SameOutside(j, Local(j, op))
  {
    if IsPauseOp(op) {
      PauseOpKeepsOk(j, op);
    } else if IsCoroutineOp(op) {
      CoroutineOpKeepsOk(j, op);
    } else {
      StartOrCancelKeepsOk(j, op);
    }
  }

  lemma CancelAsyncOk(j: Job, force: bool)
    requires JobOk(j)
    ensures var k := CancelAsync(j, force);
      && JobOk(k) && k.status == j.status && k.ret == j.ret && k.txn == j.txn && k.options == j.options && k.calls == j.calls
      && k.co == j.co && (k.cancel.forced <==> force || j.cancel.forced)
      && (k.cancel.requested <==> force || j.cancel.requested || !j.co.deferred)
      && !k.pauses.user && k.pauses.drains == j.pauses.drains
  {
  }

  // ------------------------------------------------------------ what an operation does

  // What one operation does to the status, the coroutine and the result.
  ghost predicate HasEffect(j: Job, op: LocalOp, k: Job) {
    match op
    case StartOp => k.status.Running? && k.co == Coroutine(true, false, true, false)
    case PauseEnterOp => k.saved == Some(j.status) && k.co.paused && !k.co.busy
    case PauseLeaveOp => Some(k.status) == j.saved && k.saved.None? && !k.co.paused && k.co.busy
    case YieldOp => k == j.(co := k.co) && !k.co.busy
    case EnterOp => k == j.(co := j.co.(busy := k.co.busy)) && (k.co.busy <==> j.co.busy || (j.co.started && !j.co.deferred))
    case ReadyOp => k == j.(status := Ready)
    case ReturnOp(ret) => k.ret == ret && k.co.deferred && k.status == j.status && k.cancel == j.cancel
    case CancelOp(force) => k.cancel == Cancel(true, j.cancel.forced || force) && k.co.busy && k.status == j.status
    case _ => k.status == j.status && k.ret == j.ret && k.cancel == j.cancel
  }

  lemma LocalHasEffect(j: Job, op: LocalOp)
    requires JobOk(j) && LocalEnabled(j, op)
    ensures HasEffect(j, op, Local(j, op))
  {
  }

  // A coroutine that runs may return whatever it likes, and become ready once.
  lemma RunningMayAct(j: Job, ret: int)
    requires JobOk(j) && Runs(j.co)
    ensures LocalEnabled(j, ReturnOp(ret))
    ensures LocalEnabled(j, ReadyOp) <==> j.status.Running?
    ensures j.pauses.count > 0 && !j.cancel.forced <==> LocalEnabled(j, PauseEnterOp)
  {
  }

  // Whether a job is paused by its user, or has stopped for an error, after op.
  function UserPaused(was: bool, op: LocalOp): bool {
    match op
    case UserPauseOp => true
    case ErrorStopOp => true
    case UserResumeOp(_) => false
    case CancelOp(_) => false
    case _ => was
  }

  function HasFailedIo(was: bool, op: LocalOp): bool {
    match op
    case ErrorStopOp => true
    case UserResumeOp(_) => false
    case CancelOp(_) => false
    case _ => was
  }

  function DrainBalance(op: LocalOp): int {
    if op.DrainBeginOp? then 1 else if op.DrainEndOp? then -1 else 0
  }

  // A job that has completed can be neither paused nor resumed by its user.
  lemma CompletedIgnoresUser(j: Job, op: LocalOp)
    requires JobOk(j) && LocalEnabled(j, op) && !IsActive(j.status) && (op.UserPauseOp? || op.UserResumeOp?)
    ensures Local(j, op) == j
  {
  }

  lemma LocalPauses(j: Job, op: LocalOp)
    requires JobOk(j) && LocalEnabled(j, op) && IsActive(j.status)
    ensures var p := Local(j, op).pauses;
      && p.user == UserPaused(j.pauses.user, op) && p.failedIo == HasFailedIo(j.pauses.failedIo, op)
      && p.drains == j.pauses.drains + DrainBalance(op)
  {
  }

  // The coroutine does not sleep through a request to pause, nor through the end of
  // the last one.
  predicate Attentive(j: Job) {
    && (j.co.started && !j.co.deferred && !j.co.busy && !j.co.paused ==> j.pauses.count == 0)
    && (j.saved.Some? && !j.co.busy ==> j.pauses.count > 0 || j.cancel.requested)
  }

  lemma LocalKeepsAttentive(j: Job, op: LocalOp)
    requires JobOk(j) && LocalEnabled(j, op) && Attentive(j)
    ensures Attentive(Local(j, op))
  {
  }

  // -------------------------------------------------------------------- whole runs

  ghost predicate LocalRun(j: Job, ops: seq<LocalOp>)
    requires JobOk(j)
    decreases |ops|
  {
    ops == [] || (LocalEnabled(j, ops[0]) && (LocalKeepsOk(j, ops[0]); LocalRun(Local(j, ops[0]), ops[1..])))
  }

  ghost function AfterRun(j: Job, ops: seq<LocalOp>): (k: Job)
    requires JobOk(j) && LocalRun(j, ops)
    ensures JobOk(k) && SameOutside(j, k)
    decreases |ops|
  {
    if ops == [] then j else (LocalKeepsOk(j, ops[0]); AfterRun(Local(j, ops[0]), ops[1..]))
  }

  // The pauses of a job, told from the log of operations alone.
  function PausedAfter(was: bool, ops: seq<LocalOp>): bool
    decreases ops
  {
    if ops == [] then was else PausedAfter(UserPaused(was, ops[0]), ops[1..])
  }

  function FailedAfter(was: bool, ops: seq<LocalOp>): bool
    decreases ops
  {
    if ops == [] then was else FailedAfter(HasFailedIo(was, ops[0]), ops[1..])
  }

  function DrainsOf(ops: seq<LocalOp>): int {
    if ops == [] then 0 else DrainBalance(ops[0]) + DrainsOf(ops[1..])
  }

  // A job is paused by its user exactly if the last such command, or error, says so,
  // and by as many drained sections as have begun and not ended.
  lemma {:induction false} PausesFollowLog(j: Job, ops: seq<LocalOp>)
    requires JobOk(j) && LocalRun(j, ops) && IsActive(j.status)
    ensures var p := AfterRun(j, ops).pauses;
      && p.user == PausedAfter(j.pauses.user, ops) && p.failedIo == FailedAfter(j.pauses.failedIo, ops)
      && p.drains == j.pauses.drains + DrainsOf(ops)
    decreases |ops|
  {
    if ops != [] {
      LocalKeepsOk(j, ops[0]);
      LocalPauses(j, ops[0]);
      PausesFollowLog(Local(j, ops[0]), ops[1..]);
    }
  }

  lemma {:induction false} StaysPaused(j: Job, ops: seq<LocalOp>)
    requires JobOk(j) && LocalRun(j, ops) && j.saved.Some? && PauseLeaveOp !in ops
    ensures AfterRun(j, ops).saved == j.saved
    decreases |ops|
  {
    if ops != [] {
      assert ops[0] in ops && forall op :: op in ops[1..] ==> op in ops;
      LocalKeepsOk(j, ops[0]);
      StaysPaused(Local(j, ops[0]), ops[1..]);
    }
  }

  // Whatever happens while a job is paused, leaving the pause restores its status.
  lemma PauseRestoresStatus(j: Job, ops: seq<LocalOp>)
    requires JobOk(j) && LocalRun(j, [PauseEnterOp] + ops + [PauseLeaveOp]) && PauseLeaveOp !in ops
    ensures AfterRun(j, [PauseEnterOp] + ops + [PauseLeaveOp]).status == j.status
  {
    var all := [PauseEnterOp] + ops + [PauseLeaveOp];
    LocalKeepsOk(j, PauseEnterOp);
    var k := Local(j, PauseEnterOp);
    assert all[0] == PauseEnterOp && all[1..] == ops + [PauseLeaveOp];
    RunSplits(k, ops, [PauseLeaveOp]);
    StaysPaused(k, ops);
    var l := AfterRun(k, ops);
    assert [PauseLeaveOp][1..] == [];
    assert AfterRun(l, [PauseLeaveOp]) == Local(l, PauseLeaveOp);
  }

  lemma {:induction false} RunSplits(j: Job, a: seq<LocalOp>, b: seq<LocalOp>)
    requires JobOk(j) && LocalRun(j, a + b)
    ensures LocalRun(j, a) && LocalRun(AfterRun(j, a), b) && AfterRun(j, a + b) == AfterRun(AfterRun(j, a), b)
    decreases |a|
  {
    if a == [] {
      assert a + b == b;
    } else {
      assert (a + b)[0] == a[0] && (a + b)[1..] == a[1..] + b;
      LocalKeepsOk(j, a[0]);
      RunSplits(Local(j, a[0]), a[1..], b);
    }
  }
}
