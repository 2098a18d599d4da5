/**
 What every step leaves of a job's past (xemu/job.c:536-1163): its first error is its
 result, a forced cancel stays forced, and its coroutine misses no pause or resume.
 */
module JobHistory {

  import opened Wrappers
  import opened JobLife
  import opened JobGroup
  import opened JobOutcome

  // What a job keeps when it changes from j to k.
  ghost predicate Evolved(j: Job, k: Job) {
    && k.options == j.options
    && (j.ret != 0 ==> k.ret == j.ret)
    && (j.cancel.forced ==> k.cancel.forced)
    && (j.cancel.requested ==> k.cancel.requested)
    && (j.co.started ==> k.co.started) && (j.co.deferred ==> k.co.deferred)
    && Phase(j.status) <= Phase(k.status)
    && (j.cancel.forced ==> StaysAwake(j, k))
    && (Attentive(j) ==> Attentive(k))
    && (j.calls != Calls(0, 0) ==> k.calls == j.calls)
  }

  // After a forced cancel the coroutine neither begins a pause nor falls asleep.
  predicate StaysAwake(j: Job, k: Job) {
    && (k.saved.Some? ==> j.saved.Some?)
    && (k.co.started && !k.co.deferred && !k.co.busy ==> !j.co.busy || !j.co.started)
  }

  ghost predicate AllEvolved(s: State, r: State) {
    forall k :: k in s.jobs ==> k in r.jobs && Evolved(s.jobs[k], r.jobs[k])
  }

  lemma LocalEvolves(j: Job, op: LocalOp)
    requires JobOk(j) && LocalEnabled(j, op)
    ensures Evolved(j, Local(j, op))
  {
    LocalKeepsOk(j, op);
    if Attentive(j) {
      LocalKeepsAttentive(j, op);
    }
  }

  lemma CancelEvolves(j: Job, force: bool)
    requires JobOk(j)
    ensures Evolved(j, CancelAsync(j, force))
  {
  }

  lemma FinalizedEvolves(j: Job)
    requires Finalizable(j)
    ensures Evolved(j, Finalized(j))
  {
  }

  // ------------------------------------------------------------------ groups of jobs

  lemma OneEvolves(s: State, j: nat, job: Job)
    requires j in s.jobs && Evolved(s.jobs[j], job)
    ensures AllEvolved(s, WithJob(s, j, job))
  {
  }

  lemma EvolvedTwice(s: State, p: State, r: State)
    requires AllEvolved(s, p) && AllEvolved(p, r)
    ensures AllEvolved(s, r)
  {
  }

  lemma AbortEvolves(s: State, j: nat)
    requires JobsOk(s) && j in s.jobs && s.jobs[j].txn.Some?
    ensures AllEvolved(s, TxnAbort(s, j))
  {
    forall k | k in s.jobs
      ensures Evolved(s.jobs[k], CancelAsync(s.jobs[k], true))
    {
      CancelEvolves(s.jobs[k], true);
    }
  }

  lemma FinalizeAllEvolves(s: State, t: nat)
    requires t in s.txns && forall m :: m in s.txns[t].members ==> m in s.jobs && Finalizable(s.jobs[m])
    ensures AllEvolved(s, FinalizeAll(s, t))
  {
    forall m | m in s.txns[t].members
      ensures Evolved(s.jobs[m], Finalized(s.jobs[m]))
    {
      FinalizedEvolves(s.jobs[m]);
    }
  }

  lemma PrepareEvolves(s: State, p: State, t: nat)
    requires JobsOk(s) && Shape(s, t) && p.jobs.Keys == s.jobs.Keys && AllPending(s, t)
    requires forall k :: k in s.jobs && k !in s.txns[t].members ==> p.jobs[k] == s.jobs[k]
    requires forall m :: m in s.txns[t].members ==> PreparedFrom(s.jobs[m], p.jobs[m])
    ensures AllEvolved(s, p)
  {
  }

  lemma DoFinalizeEvolves(s: State, j: nat, results: map<nat, int>)
    requires JobsOk(s) && j in s.jobs && s.jobs[j].txn.Some? && Shape(s, s.jobs[j].txn.value)
    requires AllPending(s, s.jobs[j].txn.value)
    ensures AllEvolved(s, DoFinalize(s, j, results))
  {
    var t := s.jobs[j].txn.value;
    PrepareAllOk(s.jobs, s.txns[t].members, results);
    var p := s.(jobs := PrepareAll(s.jobs, s.txns[t].members, results));
    AfterPrepare(s, p, t);
    PrepareEvolves(s, p, t);
    if AnyFailed(p.jobs, p.txns[t].members) {
      AbortEvolves(p, j);
    } else {
      FinalizeAllEvolves(p, t);
    }
    EvolvedTwice(s, p, DoFinalize(s, j, results));
  }

  lemma PendEvolves(w: State, t: nat)
    requires Shape(w, t) && forall m :: m in w.txns[t].members ==> w.jobs[m].status.Waiting?
    ensures AllEvolved(w, AllToPending(w, t))
  {
  }

  lemma BecomePendingEvolves(w: State, j: nat, results: map<nat, int>)
    requires JobsOk(w) && j in w.jobs && w.jobs[j].txn.Some? && Shape(w, w.jobs[j].txn.value) && Quiet(w, w.jobs[j].txn.value)
    requires forall m :: m in w.txns[w.jobs[j].txn.value].members ==> w.jobs[m].status.Waiting?
    ensures AllEvolved(w, BecomePending(w, j, results))
  {
    var t := w.jobs[j].txn.value;
    AfterPending(w, t);
    var p := AllToPending(w, t);
    PendEvolves(w, t);
    if forall m :: m in p.txns[t].members ==> p.jobs[m].options.autoFinalize {
      DoFinalizeEvolves(p, j, results);
      EvolvedTwice(w, p, DoFinalize(p, j, results));
    }
  }

  lemma SuccessEvolves(s: State, j: nat, results: map<nat, int>)
    requires MaySucceed(s, j)
    ensures AllEvolved(s, TxnSuccess(s, j, results))
  {
    AfterWaiting(s, j);
    var w := WithJob(s, j, Transition(s.jobs[j], Waiting));
    OneEvolves(s, j, w.jobs[j]);
    if AllCompleted(w, s.jobs[j].txn.value) {
      BecomePendingEvolves(w, j, results);
      EvolvedTwice(s, w, BecomePending(w, j, results));
    }
  }

  lemma CompletedEvolves(s: State, j: nat, results: map<nat, int>)
    requires JobsOk(s) && j in s.jobs && MayComplete(s.jobs[j]) && TxnOk(s, s.jobs[j].txn.value)
    ensures AllEvolved(s, Completed(s, j, results))
  {
    AfterUpdateRc(s, j);
    var u := WithJob(s, j, UpdateRc(s.jobs[j]));
    if u.jobs[j].ret != 0 {
      OneEvolves(s, j, u.jobs[j]);
      AbortEvolves(u, j);
      EvolvedTwice(s, u, TxnAbort(u, j));
    } else {
      SuccessEvolves(s, j, results);
    }
  }

  // ------------------------------------------------------------------------- steps

  lemma CancelStepEvolves(s: State, j: nat, force: bool, results: map<nat, int>)
    requires Inv(s) && Enabled(s, CancelJob(j, force, results))
    ensures AllEvolved(s, CancelStep(s, j, force, results))
  {
    if s.jobs[j].status.Concluded? {
      OneEvolves(s, j, Dismissed(s.jobs[j]));
    } else {
      CancelAsyncOk(s.jobs[j], force);
      AfterCancel(s, j, force);
      var c := WithJob(s, j, CancelAsync(s.jobs[j], force));
      CancelEvolves(s.jobs[j], force);
      OneEvolves(s, j, c.jobs[j]);
      AsyncEvolves(c, j, results);
      EvolvedTwice(s, c, AfterAsync(c, j, results));
    }
  }

  lemma AsyncEvolves(c: State, j: nat, results: map<nat, int>)
    requires JobsOk(c) && j in c.jobs && c.jobs[j].txn.Some?
    requires !c.jobs[j].co.started ==> MayComplete(c.jobs[j]) && TxnOk(c, c.jobs[j].txn.value)
    ensures AllEvolved(c, AfterAsync(c, j, results))
  {
    if !c.jobs[j].co.started {
      CompletedEvolves(c, j, results);
    } else if c.jobs[j].co.deferred {
      AbortEvolves(c, j);
    } else {
      OneEvolves(c, j, c.jobs[j].(co := Entered(c.jobs[j].co)));
    }
  }

  lemma ExitEvolves(s: State, j: nat, results: map<nat, int>)
    requires Inv(s) && Enabled(s, ExitOp(j, results))
    ensures AllEvolved(s, Next(s, ExitOp(j, results)))
  {
    AfterIdle(s, j);
    var i := WithJob(s, j, s.jobs[j].(co := s.jobs[j].co.(busy := false)));
    OneEvolves(s, j, i.jobs[j]);
    CompletedEvolves(i, j, results);
    EvolvedTwice(s, i, Completed(i, j, results));
  }

  lemma StepEvolves(s: State, op: Op)
    requires Inv(s) && Enabled(s, op)
    ensures AllEvolved(s, Next(s, op))
  {
    match op
    case LocalStep(j, lop) => LocalEvolves(s.jobs[j], lop);
    case ExitOp(j, results) => ExitEvolves(s, j, results);
    case CancelJob(j, force, results) => CancelStepEvolves(s, j, force, results);
    case FinalizeOp(j, results) => FinalizeEvolves(s, j, results);
    case AbortRound(t) => RoundEvolves(s, t);
    case DismissOp(j) =>
      DismissedOk(s.jobs[j]);
      OneEvolves(s, j, Dismissed(s.jobs[j]));
    case EarlyFailOp(j) => EarlyFailEvolves(s, j);
    case CreateOp(_, _, _) =>
  }

  lemma EarlyFailEvolves(s: State, j: nat)
    requires JobsOk(s) && j in s.jobs && s.jobs[j].status.Created?
    ensures AllEvolved(s, EarlyFailed(s, j))
  {
    DismissedOk(s.jobs[j]);
  }

  lemma FinalizeEvolves(s: State, j: nat, results: map<nat, int>)
    requires Inv(s) && Enabled(s, FinalizeOp(j, results))
    ensures AllEvolved(s, Next(s, FinalizeOp(j, results)))
  {
    PendingTogether(s, j);
    DoFinalizeEvolves(s, j, results);
  }

  lemma RoundEvolves(s: State, t: nat)
    requires Inv(s) && Enabled(s, AbortRound(t))
    ensures AllEvolved(s, Next(s, AbortRound(t)))
  {
    FirstIsFinalizable(s, t);
    FinalizedEvolves(s.jobs[s.txns[t].members[0]]);
  }

  // The first error of a job stays its result, no forced cancel is withdrawn, and no
  // job is called back twice, whatever happens.
  lemma {:induction false} FirstErrorIsFinal(s: State, ops: seq<Op>)
    requires Inv(s) && IsRun(s, ops)
    ensures AllEvolved(s, After(s, ops))
    decreases |ops|
  {
    if ops != [] {
      StepEvolves(s, ops[0]);
      StepKeepsInv(s, ops[0]);
      FirstErrorIsFinal(Next(s, ops[0]), ops[1..]);
      EvolvedTwice(s, Next(s, ops[0]), After(s, ops));
    }
  }

  // ------------------------------------------------------- the ends of a job's life

  // A new job is the first of its group.
  lemma CreatedJoinsGroup(s: State, j: nat, t: nat, options: Options)
    requires Inv(s) && Enabled(s, CreateOp(j, t, options))
    ensures var r := Next(s, CreateOp(j, t, options));
      && j in r.jobs && r.jobs == s.jobs[j := r.jobs[j]] && r.jobs[j].status.Created? && r.jobs[j].options == options
      && t in r.txns && r.txns[t].members[..1] == [j] && j in r.txns[t].joined && !r.txns[t].aborting
      && (t in s.txns ==> r.txns[t].members[1..] == s.txns[t].members)
  {
  }

  // A concluded job can be dismissed, and then nothing is left of it.
  lemma ConcludedCanBeDismissed(s: State, j: nat)
    requires Inv(s) && j in s.jobs && s.jobs[j].status.Concluded?
    ensures Enabled(s, DismissOp(j))
    ensures var r := Next(s, DismissOp(j)); r.txns == s.txns && r.jobs == s.jobs[j := r.jobs[j]] && r.jobs[j].status.Null?
  {
  }

  // A job that fails before it is started leaves its group as if it had never joined.
  lemma EarlyFailLeavesGroup(s: State, j: nat)
    requires Inv(s) && Enabled(s, EarlyFailOp(j))
    ensures var r := Next(s, EarlyFailOp(j)); var t := s.jobs[j].txn.value;
      && r.jobs == s.jobs[j := r.jobs[j]] && r.jobs[j].status.Null? && r.jobs[j].calls == Calls(0, 0)
      && t in r.txns && r.txns[t].joined == s.txns[t].joined - {j}
      && (forall k :: k in r.txns[t].members <==> k in s.txns[t].members && k != j)
      && r.txns[t].aborting == s.txns[t].aborting && r.txns[t].survivor == s.txns[t].survivor
  {
  }

  // ------------------------------------------------------------- sleeping coroutines

  ghost predicate AllAttentive(s: State) {
    forall k :: k in s.jobs ==> Attentive(s.jobs[k])
  }

  // Jobs appear only by being created.
  lemma NoOtherNewJob(s: State, op: Op)
    requires Inv(s) && Enabled(s, op) && !op.CreateOp?
    ensures Next(s, op).jobs.Keys == s.jobs.Keys
  {
    match op
    case ExitOp(j, results) =>
      AfterIdle(s, j);
      CompletedOk(WithJob(s, j, s.jobs[j].(co := s.jobs[j].co.(busy := false))), j, results);
    case CancelJob(j, force, results) =>
      if !s.jobs[j].status.Concluded? {
        CancelledGroupOk(s, j, force, results);
      }
    case FinalizeOp(j, results) =>
      PendingTogether(s, j);
      assert TxnOk(s, s.jobs[j].txn.value) && j in s.txns[s.jobs[j].txn.value].members;
      DoFinalizeOk(s, j, results);
    case AbortRound(t) => FirstIsFinalizable(s, t);
    case _ =>
  }

  // In every run, the coroutine of a job that should pause does not sleep, except in
  // its pause; and it sleeps in its pause only as long as someone has paused it.
  lemma {:induction false} NoPauseIsMissed(s: State, ops: seq<Op>)
    requires Inv(s) && AllAttentive(s) && IsRun(s, ops)
    ensures AllAttentive(After(s, ops))
    decreases |ops|
  {
    if ops != [] {
      var n := Next(s, ops[0]);
      StepEvolves(s, ops[0]);
      StepKeepsInv(s, ops[0]);
      forall k | k in n.jobs
        ensures Attentive(n.jobs[k])
      {
        if k !in s.jobs && !ops[0].CreateOp? {
          NoOtherNewJob(s, ops[0]);
        }
      }
      NoPauseIsMissed(n, ops[1..]);
    }
  }
}
