/**
 Transactional groups of jobs: completion, abort and finalization
 (xemu/job.c:160-206, 760-1113).

 The abort loop waits for jobs to finish and lets other things happen meanwhile,
 so each of its rounds is a step of its own.
 */
module JobGroup {

  import opened Sequences
  import opened Wrappers
  import opened JobLife

  datatype Txn = Txn(
    aborting: bool,
    members: seq<nat>,          // the jobs that have not been finalized
    joined: set<nat>,           // all jobs that take part, finalized or not
    survivor: Option<nat>)      // who began an abort without being at fault

  datatype State = State(jobs: map<nat, Job>, txns: map<nat, Txn>)

  // ------------------------------------------------------------------ invariants

  ghost predicate JobsOk(s: State) {
    forall j :: j in s.jobs ==>
      && JobOk(s.jobs[j])
      && (s.jobs[j].txn.Some? ==> s.jobs[j].txn.value in s.txns && j in s.txns[s.jobs[j].txn.value].members)
  }

  ghost predicate Shape(s: State, t: nat) {
    && t in s.txns && NoDuplicates(s.txns[t].members)
    && (forall m :: m in s.txns[t].members ==> m in s.jobs && s.jobs[m].txn == Some(t) && m in s.txns[t].joined)
    && (forall k :: k in s.txns[t].joined ==> k in s.jobs)
  }

  // In a group that is not aborting, completed members wait, without an error.
  predicate QuietMember(j: Job) {
    IsCompleted(j.status) ==> (j.status.Waiting? || j.status.Pending?) && !j.cancel.forced
  }

  ghost predicate Quiet(s: State, t: nat)
    requires Shape(s, t)
  {
    var txn := s.txns[t];
    && txn.survivor.None?
    && (forall m :: m in txn.members ==> QuietMember(s.jobs[m]))
    && ((forall m :: m in txn.members ==> s.jobs[m].status.Pending?) || (forall m :: m in txn.members ==> !s.jobs[m].status.Pending?))
    && (txn.joined == Elems(txn.members) || (txn.members == [] && forall k :: k in txn.joined ==> s.jobs[k].calls == Calls(1, 0)))
  }

  // In an aborting group every member is bound to abort, but for the survivor.
  predicate DoomedMember(j: Job, isSurvivor: bool) {
    && (j.cancel.forced || j.status.Aborting? || isSurvivor)
    && (isSurvivor ==> j.status.Pending?)
  }

  ghost predicate Aborting(s: State, t: nat)
    requires Shape(s, t)
  {
    var txn := s.txns[t];
    && (forall m :: m in txn.members ==> DoomedMember(s.jobs[m], txn.survivor == Some(m)))
    && (forall k :: k in txn.joined ==> s.jobs[k].calls.commits == 0 || txn.survivor == Some(k))
    && (forall k :: k in txn.joined && k !in txn.members ==> s.jobs[k].calls != Calls(0, 0))
  }

  ghost predicate TxnOk(s: State, t: nat) {
    Shape(s, t) && if s.txns[t].aborting then Aborting(s, t) else Quiet(s, t)
  }

  ghost predicate Inv(s: State) {
    JobsOk(s) && forall t :: t in s.txns ==> TxnOk(s, t)
  }

  // ------------------------------------------------------------- group operations

  function WithJob(s: State, j: nat, job: Job): State {
    s.(jobs := s.jobs[j := job])
  }

  // The members other than the aborting job are cancelled by force.
  ghost function CancelOthers(jobs: map<nat, Job>, members: seq<nat>, j: nat): map<nat, Job>
    requires forall k :: k in jobs ==> JobOk(jobs[k])
  {
    map k | k in jobs :: if k in members && k != j then CancelAsync(jobs[k], true) else jobs[k]
  }

  // job_completed_txn_abort_locked, up to the loop.
  ghost function TxnAbort(s: State, j: nat): State
    requires JobsOk(s) && j in s.jobs && s.jobs[j].txn.Some?
  {
    var t := s.jobs[j].txn.value;
    var txn := s.txns[t];
    if txn.aborting then s
    else
      State(CancelOthers(s.jobs, txn.members, j),
            s.txns[t := txn.(aborting := true,
                             survivor := if s.jobs[j].ret == 0 && !s.jobs[j].cancel.forced then Some(j) else None)])
  }

  // One round of the loop, and one call of job_finalize_single_locked.
  ghost function FinalizeMember(s: State, j: nat): State
    requires JobsOk(s) && j in s.jobs && s.jobs[j].txn.Some? && Finalizable(s.jobs[j])
  {
    var t := s.jobs[j].txn.value;
    State(s.jobs[j := Finalized(s.jobs[j])], s.txns[t := s.txns[t].(members := Without(s.txns[t].members, j))])
  }

  function Without(s: seq<nat>, j: nat): (r: seq<nat>)
    ensures forall k :: k in r <==> k in s && k != j
  {
    if s == [] then [] else if s[0] == j then Without(s[1..], j) else [s[0]] + Without(s[1..], j)
  }

  // job_prepare_locked, where the callback returns ret.
  function Prepared(j: Job, ret: int): Job
    requires j.status.Pending?
  {
    if j.ret == 0 && j.options.hasPrepare then UpdateRc(j.(ret := ret)) else j
  }

  function Result(results: map<nat, int>, j: nat): int {
    if j in results then results[j] else 0
  }

  // The members are prepared in order, up to the first failure.
  ghost function PrepareAll(jobs: map<nat, Job>, members: seq<nat>, results: map<nat, int>): map<nat, Job>
    requires NoDuplicates(members) && forall m :: m in members ==> m in jobs && jobs[m].status.Pending?
    decreases |members|
  {
    if members == [] then jobs
    else
      var m := members[0];
      var job := Prepared(jobs[m], Result(results, m));
      if job.ret != 0 then jobs[m := job]
      else
        assert forall k :: k in members[1..] ==> k in members && k != m;
        PrepareAll(jobs[m := job], members[1..], results)
  }

  ghost predicate AnyFailed(jobs: map<nat, Job>, members: seq<nat>) {
    exists m :: m in members && m in jobs && jobs[m].ret != 0
  }

  // All members are finalized.
  ghost function FinalizeAll(s: State, t: nat): State
    requires t in s.txns && forall m :: m in s.txns[t].members ==> m in s.jobs && Finalizable(s.jobs[m])
  {
    State(map k | k in s.jobs :: if k in s.txns[t].members then Finalized(s.jobs[k]) else s.jobs[k],
          s.txns[t := s.txns[t].(members := [])])
  }

  lemma {:induction false} PrepareAllOk(jobs: map<nat, Job>, members: seq<nat>, results: map<nat, int>)
    requires NoDuplicates(members)
    requires forall m :: m in members ==> m in jobs && jobs[m].status.Pending? && JobOk(jobs[m])
    ensures var p := PrepareAll(jobs, members, results);
      && p.Keys == jobs.Keys
      && (forall k :: k in jobs && k !in members ==> p[k] == jobs[k])
      && (forall m :: m in members ==> PreparedFrom(jobs[m], p[m]))
    decreases |members|
  {
    if members != [] {
      var m := members[0];
      var job := Prepared(jobs[m], Result(results, m));
      assert PreparedFrom(jobs[m], job);
      assert forall k :: k in members[1..] ==> k in members && k != m;
      if job.ret == 0 {
        PrepareAllOk(jobs[m := job], members[1..], results);
      }
      assert forall k :: k in members ==> k == m || k in members[1..];
    }
  }

  predicate PreparedFrom(j: Job, k: Job) {
    && JobOk(k) && k.txn == j.txn && k.calls == j.calls && k.options == j.options && k.cancel == j.cancel
    && k.co == j.co && k.pauses == j.pauses && k.saved == j.saved
    && (k.status.Pending? || k.status.Aborting?)
  }

  // All members are waiting to be finalized.
  ghost predicate AllPending(s: State, t: nat)
    requires Shape(s, t)
  {
    forall m :: m in s.txns[t].members ==> s.jobs[m].status.Pending? && !s.jobs[m].cancel.forced
  }

  // job_do_finalize_locked.
  ghost function DoFinalize(s: State, j: nat, results: map<nat, int>): State
    requires JobsOk(s) && j in s.jobs && s.jobs[j].txn.Some? && Shape(s, s.jobs[j].txn.value)
    requires AllPending(s, s.jobs[j].txn.value)
  {
    var t := s.jobs[j].txn.value;
    PrepareAllOk(s.jobs, s.txns[t].members, results);
    var p := s.(jobs := PrepareAll(s.jobs, s.txns[t].members, results));
    if AnyFailed(p.jobs, p.txns[t].members) then TxnAbort(p, j) else FinalizeAll(p, t)
  }

  ghost predicate AllCompleted(s: State, t: nat)
    requires Shape(s, t)
  {
    forall m :: m in s.txns[t].members ==> IsCompleted(s.jobs[m].status)
  }

  // All waiting members become pending together.
  ghost function AllToPending(s: State, t: nat): State
    requires Shape(s, t) && forall m :: m in s.txns[t].members ==> s.jobs[m].status.Waiting?
  {
    s.(jobs := map k | k in s.jobs :: if k in s.txns[t].members then Transition(s.jobs[k], Pending) else s.jobs[k])
  }

  // What job_completed_txn_success_locked relies on.
  ghost predicate MaySucceed(s: State, j: nat) {
    && JobsOk(s) && j in s.jobs && s.jobs[j].txn.Some? && Shape(s, s.jobs[j].txn.value)
    && (s.jobs[j].status.Running? || s.jobs[j].status.Ready?) && s.jobs[j].co.deferred && s.jobs[j].ret == 0
    && !s.jobs[j].cancel.forced
    && !s.txns[s.jobs[j].txn.value].aborting && Quiet(s, s.jobs[j].txn.value)
  }

  lemma AfterWaiting(s: State, j: nat)
    requires MaySucceed(s, j)
    ensures var t := s.jobs[j].txn.value; var w := WithJob(s, j, Transition(s.jobs[j], Waiting));
      && JobsOk(w) && Shape(w, t) && Quiet(w, t)
      && (forall m :: m in w.txns[t].members ==> !w.jobs[m].status.Pending?)
  {
  }

  lemma AfterPending(s: State, t: nat)
    requires JobsOk(s) && Shape(s, t) && Quiet(s, t) && forall m :: m in s.txns[t].members ==> s.jobs[m].status.Waiting?
    ensures var p := AllToPending(s, t); JobsOk(p) && Shape(p, t) && Quiet(p, t) && AllPending(p, t)
    ensures OnlyGroup(s, AllToPending(s, t), t)
  {
    var p := AllToPending(s, t);
    forall k | k in s.jobs
      ensures JobOk(p.jobs[k]) && p.jobs[k].txn == s.jobs[k].txn && p.jobs[k].calls == s.jobs[k].calls
    {
      assert JobOk(s.jobs[k]);
    }
  }

  // job_completed_txn_success_locked.
  ghost function TxnSuccess(s: State, j: nat, results: map<nat, int>): State
    requires MaySucceed(s, j)
  {
    var t := s.jobs[j].txn.value;
    AfterWaiting(s, j);
    var w := WithJob(s, j, Transition(s.jobs[j], Waiting));
    if AllCompleted(w, t) then BecomePending(w, j, results) else w
  }

  // Its second half, when all members have completed.
  ghost function BecomePending(w: State, j: nat, results: map<nat, int>): State
    requires JobsOk(w) && j in w.jobs && w.jobs[j].txn.Some? && Shape(w, w.jobs[j].txn.value) && Quiet(w, w.jobs[j].txn.value)
    requires forall m :: m in w.txns[w.jobs[j].txn.value].members ==> w.jobs[m].status.Waiting?
  {
    var t := w.jobs[j].txn.value;
    AfterPending(w, t);
    var p := AllToPending(w, t);
    if exists m :: m in p.txns[t].members && !p.jobs[m].options.autoFinalize then p
    else DoFinalize(p, j, results)
  }

  // A job that has run to its end, or is cancelled before it started.
  predicate MayComplete(j: Job) {
    JobOk(j) && !IsCompleted(j.status) && (j.co.deferred || (j.status.Created? && j.cancel.forced))
  }

  lemma AfterUpdateRc(s: State, j: nat)
    requires JobsOk(s) && j in s.jobs && MayComplete(s.jobs[j])
    requires TxnOk(s, s.jobs[j].txn.value)
    ensures var t := s.jobs[j].txn.value; var u := WithJob(s, j, UpdateRc(s.jobs[j]));
      && JobsOk(u) && Shape(u, t)
      && (u.jobs[j].ret == 0 ==> u == s && MaySucceed(u, j))
      && (u.jobs[j].ret != 0 ==> u.jobs[j].status.Aborting?)
  {
    var t := s.jobs[j].txn.value;
    var u := WithJob(s, j, UpdateRc(s.jobs[j]));
    if u.jobs[j].ret == 0 {
      assert u.jobs == s.jobs;
    } else {
      assert JobOk(u.jobs[j]);
    }
  }

  // job_completed_locked.
  ghost function Completed(s: State, j: nat, results: map<nat, int>): State
    requires JobsOk(s) && j in s.jobs && MayComplete(s.jobs[j]) && TxnOk(s, s.jobs[j].txn.value)
  {
    AfterUpdateRc(s, j);
    var u := WithJob(s, j, UpdateRc(s.jobs[j]));
    if u.jobs[j].ret != 0 then TxnAbort(u, j) else TxnSuccess(u, j, results)
  }

  // ------------------------------------------------------------------------ steps

  datatype Op =
    | CreateOp(j: nat, t: nat, options: Options)
    | LocalStep(j: nat, op: LocalOp)
    | ExitOp(j: nat, results: map<nat, int>)
    | CancelJob(j: nat, force: bool, results: map<nat, int>)
    | FinalizeOp(j: nat, results: map<nat, int>)
    | AbortRound(t: nat)
    | DismissOp(j: nat)
    | EarlyFailOp(j: nat)

  ghost predicate Enabled(s: State, op: Op)
    requires Inv(s)
  {
    match op
    case CreateOp(j, t, _) =>
      j !in s.jobs && (t in s.txns ==> OnlyCreated(s, t))
    case LocalStep(j, lop) => j in s.jobs && LocalEnabled(s.jobs[j], lop)
    case ExitOp(j, _) => j in s.jobs && !IsCompleted(s.jobs[j].status) && s.jobs[j].co.deferred
    case CancelJob(j, force, _) =>
      // A driver may turn a cancel request down only for a job that has been ready.
      // A job that aborts without having started must not be completed again (1066).
      && j in s.jobs
      && (VerbAllowed(CancelVerb, s.jobs[j].status) || s.jobs[j].status.Concluded? ||
          (s.jobs[j].status.Aborting? && s.jobs[j].co.started))
      && (s.jobs[j].status.Created? ==> force)
    case FinalizeOp(j, _) =>
      && j in s.jobs && VerbAllowed(FinalizeVerb, s.jobs[j].status) && !s.txns[s.jobs[j].txn.value].aborting
    case AbortRound(t) =>
      && t in s.txns && s.txns[t].aborting && s.txns[t].members != []
      && IsCompleted(s.jobs[s.txns[t].members[0]].status)
    case DismissOp(j) => j in s.jobs && VerbAllowed(DismissVerb, s.jobs[j].status)
    case EarlyFailOp(j) => j in s.jobs && s.jobs[j].status.Created?
  }

  // Jobs join a group before any of them is started.
  ghost predicate OnlyCreated(s: State, t: nat)
    requires Inv(s) && t in s.txns
  {
    && !s.txns[t].aborting && s.txns[t].members != []
    && forall m :: m in s.txns[t].members ==> s.jobs[m].status.Created?
  }

  // job_cancel_locked.
  ghost function CancelStep(s: State, j: nat, force: bool, results: map<nat, int>): State
    requires Inv(s) && Enabled(s, CancelJob(j, force, results))
  {
    if s.jobs[j].status.Concluded? then WithJob(s, j, Dismissed(s.jobs[j]))
    else
      CancelAsyncOk(s.jobs[j], force);
      AfterCancel(s, j, force);
      AfterAsync(WithJob(s, j, CancelAsync(s.jobs[j], force)), j, results)
  }

  // Its part after job_cancel_async_locked.
  ghost function AfterAsync(c: State, j: nat, results: map<nat, int>): State
    requires JobsOk(c) && j in c.jobs && c.jobs[j].txn.Some?
    requires !c.jobs[j].co.started ==> MayComplete(c.jobs[j]) && TxnOk(c, c.jobs[j].txn.value)
  {
    if !c.jobs[j].co.started then Completed(c, j, results)
    else if c.jobs[j].co.deferred then (if c.jobs[j].cancel.forced then TxnAbort(c, j) else c)
    else WithJob(c, j, c.jobs[j].(co := Entered(c.jobs[j].co)))
  }

  lemma AfterCancel(s: State, j: nat, force: bool)
    requires Inv(s) && j in s.jobs && s.jobs[j].txn.Some?
    ensures var t := s.jobs[j].txn.value; var c := WithJob(s, j, CancelAsync(s.jobs[j], force));
      && JobsOk(c) && Shape(c, t)
      && (!IsCompleted(s.jobs[j].status) || !force || s.txns[t].aborting ==> TxnOk(c, t))
  {
    CancelAsyncOk(s.jobs[j], force);
    var t := s.jobs[j].txn.value;
    assert TxnOk(s, t);
  }

  ghost function Next(s: State, op: Op): State
    requires Inv(s) && Enabled(s, op)
  {
    match op
    case CreateOp(j, t, options) =>
      var txn := if t in s.txns then s.txns[t] else Txn(false, [], {}, None);
      State(s.jobs[j := NewJob(t, options)],
            s.txns[t := txn.(members := [j] + txn.members, joined := txn.joined + {j})])
    case LocalStep(j, lop) => WithJob(s, j, Local(s.jobs[j], lop))
    case ExitOp(j, results) =>
      AfterIdle(s, j);
      Completed(WithJob(s, j, s.jobs[j].(co := s.jobs[j].co.(busy := false))), j, results)
    case CancelJob(j, force, results) => CancelStep(s, j, force, results)
    case FinalizeOp(j, results) =>
      PendingTogether(s, j);
      DoFinalize(s, j, results)
    case AbortRound(t) =>
      FirstIsFinalizable(s, t);
      FinalizeMember(s, s.txns[t].members[0])
    case DismissOp(j) => WithJob(s, j, Dismissed(s.jobs[j]))
    case EarlyFailOp(j) => EarlyFailed(s, j)
  }

  // job_early_fail.
  ghost function EarlyFailed(s: State, j: nat): State
    requires JobsOk(s) && j in s.jobs && s.jobs[j].status.Created?
  {
    var t := s.jobs[j].txn.value;
    var txn := s.txns[t];
    State(s.jobs[j := Dismissed(s.jobs[j])],
          s.txns[t := txn.(members := Without(txn.members, j), joined := txn.joined - {j})])
  }

  lemma AfterIdle(s: State, j: nat)
    requires Inv(s) && j in s.jobs && s.jobs[j].txn.Some? && !s.jobs[j].status.Created?
    ensures var i := WithJob(s, j, s.jobs[j].(co := s.jobs[j].co.(busy := false))); JobsOk(i) && TxnOk(i, s.jobs[j].txn.value)
  {
    OutsideSame(s, j, s.jobs[j].(co := s.jobs[j].co.(busy := false)));
  }

  // Other jobs and the groups do not notice a change that keeps what they can see.
  lemma OutsideSame(s: State, j: nat, job: Job)
    requires Inv(s) && j in s.jobs && JobOk(job) && SameOutside(s.jobs[j], job)
    ensures Inv(WithJob(s, j, job))
  {
    var r := WithJob(s, j, job);
    forall t | t in r.txns
      ensures TxnOk(r, t)
    {
      assert TxnOk(s, t);
      SameOutsideOk(s, j, job, t);
    }
  }

  lemma SameOutsideOk(s: State, j: nat, job: Job, t: nat)
    requires TxnOk(s, t) && j in s.jobs && SameOutside(s.jobs[j], job)
    ensures TxnOk(WithJob(s, j, job), t)
  {
  }

  lemma PendingTogether(s: State, j: nat)
    requires Inv(s) && j in s.jobs && s.jobs[j].status.Pending? && !s.txns[s.jobs[j].txn.value].aborting
    ensures Shape(s, s.jobs[j].txn.value) && AllPending(s, s.jobs[j].txn.value)
  {
  }

  // A completed member of an aborting group can be finalized.
  lemma FirstIsFinalizable(s: State, t: nat)
    requires Inv(s) && Enabled(s, AbortRound(t))
    ensures var m := s.txns[t].members[0]; m in s.jobs && s.jobs[m].txn == Some(t) && Finalizable(s.jobs[m])
  {
  }

  // ------------------------------------------------------- every step keeps Inv

  // Only jobs of group t, and group t itself, are different.
  ghost predicate OnlyGroup(s: State, r: State, t: nat) {
    && r.jobs.Keys == s.jobs.Keys && r.txns.Keys == s.txns.Keys
    && (forall u :: u in s.txns && u != t ==> r.txns[u] == s.txns[u])
    && (forall k :: k in s.jobs && s.jobs[k].txn != Some(t) ==> r.jobs[k] == s.jobs[k])
    && StayCompleted(s, r)
  }

  // So that the invariant still holds.
  ghost predicate ChangedGroup(s: State, r: State, t: nat) {
    JobsOk(r) && TxnOk(r, t) && OnlyGroup(s, r, t)
  }

  // No completed job becomes uncompleted.
  ghost predicate StayCompleted(s: State, r: State) {
    forall k :: k in s.jobs && IsCompleted(s.jobs[k].status) ==> k in r.jobs && IsCompleted(r.jobs[k].status)
  }

  lemma OtherGroupOk(s: State, r: State, t: nat, u: nat)
    requires JobsOk(s) && TxnOk(s, u) && OnlyGroup(s, r, t) && u != t
    ensures TxnOk(r, u)
  {
    forall k | k in s.txns[u].joined
      ensures r.jobs[k] == s.jobs[k]
    {
      assert JobOk(s.jobs[k]);
    }
  }

  lemma GroupStep(s: State, r: State, t: nat)
    requires Inv(s) && OnlyGroup(s, r, t) && JobsOk(r) && TxnOk(r, t)
    ensures Inv(r)
  {
    forall u | u in r.txns
      ensures TxnOk(r, u)
    {
      if u != t {
        OtherGroupOk(s, r, t, u);
      }
    }
  }

  // The group is whole: none of its jobs has been finalized.
  ghost predicate Whole(s: State, t: nat) {
    Shape(s, t) && s.txns[t].joined == Elems(s.txns[t].members) && s.txns[t].survivor.None?
  }

  lemma TxnAbortOk(s: State, j: nat)
    requires JobsOk(s) && j in s.jobs && s.jobs[j].txn.Some? && Shape(s, s.jobs[j].txn.value)
    requires s.txns[s.jobs[j].txn.value].aborting ==> Aborting(s, s.jobs[j].txn.value)
    requires !s.txns[s.jobs[j].txn.value].aborting ==> Whole(s, s.jobs[j].txn.value)
    requires s.jobs[j].status.Aborting? || s.jobs[j].cancel.forced || s.jobs[j].status.Pending?
    ensures var t := s.jobs[j].txn.value; ChangedGroup(s, TxnAbort(s, j), t)
  {
    var t := s.jobs[j].txn.value;
    if !s.txns[t].aborting {
      var r := TxnAbort(s, j);
      forall k | k in s.jobs
        ensures JobOk(r.jobs[k]) && r.jobs[k].txn == s.jobs[k].txn && r.jobs[k].calls == s.jobs[k].calls
        ensures r.jobs[k].status == s.jobs[k].status
        ensures s.jobs[k].txn == Some(t) && k != j ==> r.jobs[k].cancel.forced
      {
        CancelAsyncOk(s.jobs[k], true);
      }
      AbortedGroupOk(s, r, j, t);
    }
  }

  lemma AbortedGroupOk(s: State, r: State, j: nat, t: nat)
    requires JobsOk(s) && j in s.jobs && s.jobs[j].txn == Some(t) && Whole(s, t)
    requires s.jobs[j].status.Aborting? || s.jobs[j].cancel.forced || s.jobs[j].status.Pending?
    requires r.jobs.Keys == s.jobs.Keys && r.jobs[j] == s.jobs[j]
    requires forall k :: k in s.jobs ==> r.jobs[k].txn == s.jobs[k].txn && r.jobs[k].calls == s.jobs[k].calls
    requires forall k :: k in s.jobs && s.jobs[k].txn == Some(t) && k != j ==> r.jobs[k].cancel.forced
    requires r.txns == s.txns[t := s.txns[t].(aborting := true,
      survivor := if s.jobs[j].ret == 0 && !s.jobs[j].cancel.forced then Some(j) else None)]
    ensures TxnOk(r, t)
  {
  }

  lemma FinalizeAllOk(s: State, t: nat)
    requires JobsOk(s) && Whole(s, t) && !s.txns[t].aborting
    requires forall m :: m in s.txns[t].members ==> s.jobs[m].status.Pending? && s.jobs[m].ret == 0 && !s.jobs[m].cancel.forced
    ensures ChangedGroup(s, FinalizeAll(s, t), t)
    ensures forall m :: m in s.txns[t].joined ==> FinalizeAll(s, t).jobs[m].calls == Calls(1, 0)
  {
    var r := FinalizeAll(s, t);
    forall k | k in s.jobs
      ensures JobOk(r.jobs[k])
      ensures k in s.txns[t].members ==> r.jobs[k].txn.None? && r.jobs[k].calls == Calls(1, 0)
    {
      if k in s.txns[t].members {
        FinalizedOk(s.jobs[k]);
      }
    }
  }

  lemma DoFinalizeOk(s: State, j: nat, results: map<nat, int>)
    requires JobsOk(s) && j in s.jobs && s.jobs[j].txn.Some? && Whole(s, s.jobs[j].txn.value)
    requires AllPending(s, s.jobs[j].txn.value) && !s.txns[s.jobs[j].txn.value].aborting
    ensures var t := s.jobs[j].txn.value; var r := DoFinalize(s, j, results);
      ChangedGroup(s, r, t)
  {
    var t := s.jobs[j].txn.value;
    PrepareAllOk(s.jobs, s.txns[t].members, results);
    var p := s.(jobs := PrepareAll(s.jobs, s.txns[t].members, results));
    AfterPrepare(s, p, t);
    if AnyFailed(p.jobs, p.txns[t].members) {
      TxnAbortOk(p, j);
      GroupChain(s, p, TxnAbort(p, j), t);
    } else {
      FinalizeAllOk(p, t);
      GroupChain(s, p, FinalizeAll(p, t), t);
    }
  }

  lemma AfterPrepare(s: State, p: State, t: nat)
    requires JobsOk(s) && Shape(s, t) && p.txns == s.txns && p.jobs.Keys == s.jobs.Keys
    requires forall k :: k in s.jobs && k !in s.txns[t].members ==> p.jobs[k] == s.jobs[k]
    requires forall m :: m in s.txns[t].members ==> PreparedFrom(s.jobs[m], p.jobs[m])
    ensures JobsOk(p) && Shape(p, t) && OnlyGroup(s, p, t) && (Whole(s, t) ==> Whole(p, t))
  {
  }

  lemma GroupChain(s: State, p: State, r: State, t: nat)
    requires OnlyGroup(s, p, t) && OnlyGroup(p, r, t)
    requires forall k :: k in s.jobs && s.jobs[k].txn != Some(t) ==> p.jobs[k].txn != Some(t)
    ensures OnlyGroup(s, r, t)
  {
  }

  lemma BecomePendingOk(w: State, j: nat, results: map<nat, int>)
    requires JobsOk(w) && j in w.jobs && w.jobs[j].txn.Some? && Shape(w, w.jobs[j].txn.value) && Quiet(w, w.jobs[j].txn.value)
    requires forall m :: m in w.txns[w.jobs[j].txn.value].members ==> w.jobs[m].status.Waiting?
    requires !w.txns[w.jobs[j].txn.value].aborting
    ensures var t := w.jobs[j].txn.value; var r := BecomePending(w, j, results);
      ChangedGroup(w, r, t)
  {
    var t := w.jobs[j].txn.value;
    AfterPending(w, t);
    var p := AllToPending(w, t);
    assert j in w.txns[t].members;
    if !(exists m :: m in p.txns[t].members && !p.jobs[m].options.autoFinalize) {
      PendingThenFinalized(w, p, j, t, results);
    }
  }

  lemma PendingThenFinalized(w: State, p: State, j: nat, t: nat, results: map<nat, int>)
    requires OnlyGroup(w, p, t) && forall k :: k in w.jobs ==> p.jobs[k].txn == w.jobs[k].txn
    requires JobsOk(p) && j in p.jobs && p.jobs[j].txn == Some(t) && Whole(p, t) && AllPending(p, t) && !p.txns[t].aborting
    ensures var r := DoFinalize(p, j, results); ChangedGroup(w, r, t)
  {
    DoFinalizeOk(p, j, results);
    GroupChain(w, p, DoFinalize(p, j, results), t);
  }

  lemma TxnSuccessOk(s: State, j: nat, results: map<nat, int>)
    requires MaySucceed(s, j)
    ensures var t := s.jobs[j].txn.value; var r := TxnSuccess(s, j, results);
      ChangedGroup(s, r, t)
  {
    var t := s.jobs[j].txn.value;
    AfterWaiting(s, j);
    var w := WithJob(s, j, Transition(s.jobs[j], Waiting));
    if AllCompleted(w, t) {
      BecomePendingOk(w, j, results);
      GroupChain(s, w, BecomePending(w, j, results), t);
    }
  }

  lemma CompletedOk(s: State, j: nat, results: map<nat, int>)
    requires JobsOk(s) && j in s.jobs && MayComplete(s.jobs[j]) && TxnOk(s, s.jobs[j].txn.value)
    ensures var t := s.jobs[j].txn.value; var r := Completed(s, j, results);
      ChangedGroup(s, r, t)
  {
    var t := s.jobs[j].txn.value;
    AfterUpdateRc(s, j);
    var u := WithJob(s, j, UpdateRc(s.jobs[j]));
    if u.jobs[j].ret != 0 {
      FailedAbortOk(s, u, j, t);
    } else {
      TxnSuccessOk(u, j, results);
    }
  }

  lemma FailedAbortOk(s: State, u: State, j: nat, t: nat)
    requires TxnOk(s, t) && j in s.txns[t].members && !IsCompleted(s.jobs[j].status)
    requires JobsOk(u) && Shape(u, t) && j in u.jobs && u == WithJob(s, j, u.jobs[j])
    requires u.jobs[j].status.Aborting? && u.jobs[j].txn == Some(t) && u.jobs[j].calls == s.jobs[j].calls
    ensures var r := TxnAbort(u, j); ChangedGroup(s, r, t)
  {
    FailedMember(s, u, j, t);
    TxnAbortOk(u, j);
    GroupChain(s, u, TxnAbort(u, j), t);
  }

  lemma FailedMember(s: State, u: State, j: nat, t: nat)
    requires TxnOk(s, t) && j in s.txns[t].members && Shape(u, t) && u.txns == s.txns
    requires !IsCompleted(s.jobs[j].status)
    requires u == WithJob(s, j, u.jobs[j]) && u.jobs[j].status.Aborting? && u.jobs[j].calls == s.jobs[j].calls
    ensures s.txns[t].aborting ==> Aborting(u, t)
    ensures !s.txns[t].aborting ==> Whole(u, t)
  {
  }

  lemma CreateKeepsInv(s: State, j: nat, t: nat, options: Options)
    requires Inv(s) && Enabled(s, CreateOp(j, t, options))
    ensures Inv(Next(s, CreateOp(j, t, options)))
  {
    var r := Next(s, CreateOp(j, t, options));
    assert t in s.txns ==> TxnOk(s, t) && OnlyCreated(s, t);
    assert JobsOk(r);
    forall u | u in r.txns
      ensures TxnOk(r, u)
    {
      if u != t {
        assert TxnOk(s, u);
        SameGroupOk(s, r, u);
      } else {
        CreatedGroupOk(s, r, j, t);
      }
    }
  }

  lemma SameGroupOk(s: State, r: State, t: nat)
    requires TxnOk(s, t) && t in r.txns && r.txns[t] == s.txns[t]
    requires forall k :: k in s.txns[t].joined ==> k in r.jobs && r.jobs[k] == s.jobs[k]
    ensures TxnOk(r, t)
  {
  }

  lemma CreatedGroupOk(s: State, r: State, j: nat, t: nat)
    requires t in s.txns ==> TxnOk(s, t) && !s.txns[t].aborting && s.txns[t].members != []
    requires t in s.txns ==> forall m :: m in s.txns[t].members ==> s.jobs[m].status.Created?
    requires j !in s.jobs && j in r.jobs && r.jobs == s.jobs[j := r.jobs[j]]
    requires r.jobs[j].status.Created? && r.jobs[j].txn == Some(t)
    requires var txn := if t in s.txns then s.txns[t] else Txn(false, [], {}, None);
      t in r.txns && r.txns[t] == txn.(members := [j] + txn.members, joined := txn.joined + {j})
    ensures TxnOk(r, t)
  {
  }

  lemma CancelKeepsInv(s: State, j: nat, force: bool, results: map<nat, int>)
    requires Inv(s) && Enabled(s, CancelJob(j, force, results))
    ensures Inv(CancelStep(s, j, force, results))
  {
    if s.jobs[j].status.Concluded? {
      DismissKeepsInv(s, j);
    } else {
      var t := s.jobs[j].txn.value;
      assert TxnOk(s, t);
      var r := CancelStep(s, j, force, results);
      AfterCancel(s, j, force);
      CancelledGroupOk(s, j, force, results);
      GroupStep(s, r, t);
    }
  }

  lemma CancelledGroupOk(s: State, j: nat, force: bool, results: map<nat, int>)
    requires Inv(s) && Enabled(s, CancelJob(j, force, results)) && !s.jobs[j].status.Concluded?
    ensures var t := s.jobs[j].txn.value; var r := CancelStep(s, j, force, results);
      ChangedGroup(s, r, t)
  {
    CancelAsyncOk(s.jobs[j], force);
    AfterCancel(s, j, force);
    assert TxnOk(s, s.jobs[j].txn.value);
    AfterAsyncOk(s, WithJob(s, j, CancelAsync(s.jobs[j], force)), j, s.jobs[j].txn.value, results);
  }

  lemma AfterAsyncOk(s: State, c: State, j: nat, t: nat, results: map<nat, int>)
    requires TxnOk(s, t) && j in s.txns[t].members && JobsOk(c) && Shape(c, t) && j in c.jobs
    requires c == WithJob(s, j, c.jobs[j]) && c.jobs[j].txn == Some(t) && c.jobs[j].calls == s.jobs[j].calls
    requires c.jobs[j].status == s.jobs[j].status
    requires !c.jobs[j].co.started ==> MayComplete(c.jobs[j])
    requires !c.jobs[j].co.deferred || !c.jobs[j].cancel.forced ==> TxnOk(c, t)
    ensures var r := AfterAsync(c, j, results); ChangedGroup(s, r, t)
  {
    if !c.jobs[j].co.started {
      CompletedOk(c, j, results);
      GroupChain(s, c, Completed(c, j, results), t);
    } else if c.jobs[j].co.deferred {
      if c.jobs[j].cancel.forced {
        ForcedAbortOk(s, c, j, t);
      }
    } else {
      EnteredOk(c, j, t);
    }
  }

  lemma ForcedAbortOk(s: State, c: State, j: nat, t: nat)
    requires TxnOk(s, t) && j in s.txns[t].members && JobsOk(c) && Shape(c, t) && j in c.jobs
    requires c == WithJob(s, j, c.jobs[j]) && c.jobs[j].cancel.forced && c.jobs[j].txn == Some(t)
    requires c.jobs[j].calls == s.jobs[j].calls && c.jobs[j].status == s.jobs[j].status
    ensures var r := TxnAbort(c, j); ChangedGroup(s, r, t)
  {
    ForcedMember(s, c, j, t);
    TxnAbortOk(c, j);
    GroupChain(s, c, TxnAbort(c, j), t);
  }

  lemma EnteredOk(c: State, j: nat, t: nat)
    requires JobsOk(c) && TxnOk(c, t) && j in c.jobs && c.jobs[j].co.started
    ensures var r := WithJob(c, j, c.jobs[j].(co := Entered(c.jobs[j].co))); JobsOk(r) && TxnOk(r, t)
  {
    SameOutsideOk(c, j, c.jobs[j].(co := Entered(c.jobs[j].co)), t);
  }

  lemma ForcedMember(s: State, c: State, j: nat, t: nat)
    requires TxnOk(s, t) && j in s.txns[t].members && Shape(c, t) && c.txns == s.txns
    requires c == WithJob(s, j, c.jobs[j]) && c.jobs[j].cancel.forced && c.jobs[j].calls == s.jobs[j].calls
    requires c.jobs[j].status == s.jobs[j].status
    ensures s.txns[t].aborting ==> Aborting(c, t)
    ensures !s.txns[t].aborting ==> Whole(c, t)
  {
  }

  lemma DismissKeepsInv(s: State, j: nat)
    requires Inv(s) && j in s.jobs && s.jobs[j].status.Concluded?
    ensures Inv(WithJob(s, j, Dismissed(s.jobs[j])))
  {
    var r := WithJob(s, j, Dismissed(s.jobs[j]));
    forall t | t in r.txns
      ensures TxnOk(r, t)
    {
      assert TxnOk(s, t) && j !in s.txns[t].members;
    }
  }

  lemma {:induction false} WithoutKeepsOrder(s: seq<nat>, j: nat)
    requires NoDuplicates(s)
    ensures NoDuplicates(Without(s, j))
  {
    if s != [] {
      WithoutKeepsOrder(s[1..], j);
      var r := Without(s, j);
      forall a, b | 0 <= a < b < |r|
        ensures r[a] != r[b]
      {
        if s[0] != j {
          assert r[b] == Without(s[1..], j)[b - 1] && r[b] in Without(s[1..], j);
          assert a > 0 ==> r[a] == Without(s[1..], j)[a - 1];
        }
      }
    }
  }

  lemma AbortRoundKeepsInv(s: State, t: nat)
    requires Inv(s) && Enabled(s, AbortRound(t))
    ensures Inv(Next(s, AbortRound(t)))
  {
    FirstIsFinalizable(s, t);
    FinalizeMemberKeepsInv(s, s.txns[t].members[0], t);
  }

  lemma FinalizeMemberKeepsInv(s: State, m: nat, t: nat)
    requires Inv(s) && m in s.jobs && s.jobs[m].txn == Some(t) && Finalizable(s.jobs[m]) && s.txns[t].aborting
    ensures Inv(FinalizeMember(s, m))
  {
    var r := FinalizeMember(s, m);
    assert TxnOk(s, t);
    FinalizedOk(s.jobs[m]);
    FinalizedMemberOk(s, r, m, t);
    GroupStep(s, r, t);
  }

  lemma FinalizedMemberOk(s: State, r: State, m: nat, t: nat)
    requires TxnOk(s, t) && s.txns[t].aborting && m in s.txns[t].members
    requires Finalizable(s.jobs[m])
    requires r == State(s.jobs[m := Finalized(s.jobs[m])], s.txns[t := s.txns[t].(members := Without(s.txns[t].members, m))])
    ensures TxnOk(r, t)
  {
    WithoutKeepsOrder(s.txns[t].members, m);
    FinalizedOk(s.jobs[m]);
    assert Shape(r, t);
    assert DoomedMember(s.jobs[m], s.txns[t].survivor == Some(m));
  }

  lemma EarlyFailKeepsInv(s: State, j: nat)
    requires Inv(s) && Enabled(s, EarlyFailOp(j))
    ensures Inv(Next(s, EarlyFailOp(j)))
  {
    EarlyFailedOk(s, j);
    assert TxnOk(s, s.jobs[j].txn.value);
    GroupStep(s, EarlyFailed(s, j), s.jobs[j].txn.value);
  }

  lemma EarlyFailedOk(s: State, j: nat)
    requires JobsOk(s) && j in s.jobs && s.jobs[j].status.Created? && TxnOk(s, s.jobs[j].txn.value)
    ensures var r := EarlyFailed(s, j); var t := s.jobs[j].txn.value; ChangedGroup(s, r, t)
  {
    var r := EarlyFailed(s, j);
    assert JobOk(s.jobs[j]);
    LeftGroupOk(s, r, j, s.jobs[j].txn.value);
  }

  lemma LeftGroupOk(s: State, r: State, j: nat, t: nat)
    requires TxnOk(s, t) && j in s.txns[t].members && j in r.jobs && r.jobs == s.jobs[j := r.jobs[j]]
    requires r.txns == s.txns[t := s.txns[t].(members := Without(s.txns[t].members, j), joined := s.txns[t].joined - {j})]
    ensures TxnOk(r, t)
  {
    WithoutKeepsOrder(s.txns[t].members, j);
    assert Elems(r.txns[t].members) == Elems(s.txns[t].members) - {j};
    assert Shape(r, t);
  }

  // Every step keeps the invariant, whatever the callbacks return.
  lemma StepKeepsInv(s: State, op: Op)
    requires Inv(s) && Enabled(s, op)
    ensures Inv(Next(s, op))
  {
    match op
    case CreateOp(j, t, options) => CreateKeepsInv(s, j, t, options);
    case LocalStep(j, lop) =>
      LocalKeepsOk(s.jobs[j], lop);
      OutsideSame(s, j, Local(s.jobs[j], lop));
    case ExitOp(j, results) => ExitKeepsInv(s, j, results);
    case CancelJob(j, force, results) => CancelKeepsInv(s, j, force, results);
    case FinalizeOp(j, results) => FinalizeKeepsInv(s, j, results);
    case AbortRound(t) => AbortRoundKeepsInv(s, t);
    case DismissOp(j) => DismissKeepsInv(s, j);
    case EarlyFailOp(j) => EarlyFailKeepsInv(s, j);
  }

  lemma ExitKeepsInv(s: State, j: nat, results: map<nat, int>)
    requires Inv(s) && Enabled(s, ExitOp(j, results))
    ensures Inv(Next(s, ExitOp(j, results)))
  {
    AfterIdle(s, j);
    var job := s.jobs[j].(co := s.jobs[j].co.(busy := false));
    OutsideSame(s, j, job);
    var i := WithJob(s, j, job);
    CompletedOk(i, j, results);
    GroupStep(i, Completed(i, j, results), s.jobs[j].txn.value);
  }

  lemma FinalizeKeepsInv(s: State, j: nat, results: map<nat, int>)
    requires Inv(s) && Enabled(s, FinalizeOp(j, results))
    ensures Inv(Next(s, FinalizeOp(j, results)))
  {
    var t := s.jobs[j].txn.value;
    PendingTogether(s, j);
    assert TxnOk(s, t) && j in s.txns[t].members;
    DoFinalizeOk(s, j, results);
    GroupStep(s, DoFinalize(s, j, results), t);
  }
}
